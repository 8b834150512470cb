/** Operator replay: what replaying a stored or dead-lettered event publishes. */
module Replay {
  import opened Delivery
  import opened DeliverySafety
  import opened Outbox
  import opened OutboxSafety
  import opened Runs
  import opened Subjects
  import opened Wire

  function EventSubject(cfg: Config, e: Event): string {
    SubjectForClass(cfg.prefixes, e.modName, LastPart(e.qualname))
  }

  /** What a replay of a stored class path and payload publishes: nothing unless they deserialize. */
  function Republication(cfg: Config, stored: SerializedEvent, spelling: nat): Option<Message> {
    match Deserialize(cfg.registry, stored)
    case Failure(_) => None
    case Success(e) =>
      match ToJson(stored, spelling)
      case Failure(_) => None
      case Success(data) => Some(Message(EventSubject(cfg, e), data))
  }

  /** The JSON payload column of a dead-letter row; `raw` is what it holds for undecodable bytes. */
  function PayloadOf(r: DeadRow, raw: map<string, Value>): Value {
    match r.payload
    case Decoded(v) => v
    case RawBase64(_) => PyDict(raw)
  }

  function DeadLetterRepublication(cfg: Config, r: DeadRow, raw: map<string, Value>, spelling: nat): Option<Message> {
    Republication(cfg, SerializedEvent(r.classPath, PayloadOf(r, raw)), spelling)
  }

  /** Encoding a loaded payload always succeeds and reads back as it was. */
  lemma ReencodingReadsBack(path: string, j: Json, spelling: nat)
    ensures ToJson(SerializedEvent(PyStr(path), Load(j)), spelling).Success?
    ensures FromJson(ToJson(SerializedEvent(PyStr(path), Load(j)), spelling).value) ==
            Success(SerializedEvent(PyStr(path), Load(j)))
  {
    var env := Envelope(SerializedEvent(PyStr(path), Load(j)));
    LoadDumpsBack(j, WithDefault);
    assert env.entries["event_class"] == PyStr(path) && env.entries["payload"] == Load(j);
    assert Dump(env, WithDefault, false).Some?;
    assert Dump(env, WithDefault, false).value.fields["payload"] == j;
  }

  lemma PayloadWasLoaded(data: Bytes) returns (j: Json)
    requires FromJson(data).Success?
    ensures FromJson(data).value.payload == Load(j)
  {
    j := if "payload" in data.json.fields then data.json.fields["payload"] else JObj(map[]);
    assert Load(JObj(map[])) == PyDict(map[]);
  }

  /** Replaying a row that records message `m` republishes exactly when `m` can be decoded, and then
      the same event, to the subject of that event's class. */
  lemma RecordReplays(cfg: Config, m: Message, r: DeadRow, raw: map<string, Value>, spelling: nat)
    requires Records(cfg, m, r)
    ensures var out := DeadLetterRepublication(cfg, r, raw, spelling);
            && (out.Some? <==> Decodable(cfg, m))
            && (out.Some? ==>
                  && Decode(cfg.registry, out.value.data) == Decode(cfg.registry, m.data)
                  && FromJson(out.value.data) == FromJson(m.data)
                  && out.value.subject == EventSubject(cfg, Decode(cfg.registry, m.data).value))
  {
    if FromJson(m.data).Success? {
      var stored := FromJson(m.data).value;
      var j := PayloadWasLoaded(m.data);
      if Deserialize(cfg.registry, stored).Success? {
        ReencodingReadsBack(stored.eventClass.text, j, spelling);
      }
    } else {
      UnparsableIsRefused(cfg, r, raw, spelling);
    }
  }

  /** A row stored as `<unparsable>` is never republished. */
  lemma UnparsableIsRefused(cfg: Config, r: DeadRow, raw: map<string, Value>, spelling: nat)
    requires r.classPath == PyStr(UNPARSABLE)
    ensures DeadLetterRepublication(cfg, r, raw, spelling).None?
  {
    match SplitLast(UNPARSABLE)
    case None =>
    case Some((m, c)) =>
      assert UNPARSABLE[|m|] == '.';
  }

  /** For every dead-letter row of every reachable state: replaying it republishes exactly when the
      accepted message it came from can be decoded; the republished message decodes to the same event
      as that message, with the same class path and payload; and it goes to that message's subject
      exactly when that is the subject of the event's class. */
  lemma DeadLettersReplay(cfg: Config, s: State, d: nat, raw: map<string, Value>, spelling: nat) returns (id: nat)
    requires Reachable(cfg, s) && d < |s.rows|
    ensures MadeFrom(s, d, id) && s.rows[d].subject == s.log[id].subject
    ensures var out := DeadLetterRepublication(cfg, s.rows[d], raw, spelling);
            && (out.Some? <==> Decodable(cfg, s.log[id]))
            && (out.Some? ==>
                  && Decode(cfg.registry, out.value.data) == Decode(cfg.registry, s.log[id].data)
                  && FromJson(out.value.data) == FromJson(s.log[id].data)
                  && (out.value.subject == s.rows[d].subject <==>
                      s.log[id].subject == EventSubject(cfg, Decode(cfg.registry, s.log[id].data).value)))
  {
    hide Reachable;
    id := DeadRowsAreFaithful(cfg, s, d);
    RecordReplays(cfg, s.log[id], s.rows[d], raw, spelling);
  }

  /** What the bus publishes for an event it staged. */
  predicate Relays(cfg: Config, e: Event, m: Message) {
    && DumpFields(e.fields, Wire.Plain).Some?
    && m.subject == EventSubject(cfg, e) && m.data.Text?
    && m.data == RowBytes(Row(ClassPath(e), DumpFields(e.fields, Wire.Plain).value, m.subject, 0, 0, false, 0),
        m.data.spelling)
  }

  /** The event's class path and subject fit their columns. */
  predicate FitsColumns(cfg: Config, e: Event) {
    |ClassPath(e)| <= 255 && |EventSubject(cfg, e)| <= 255
  }

  /** `publish_durable` stages an event exactly when the JSONB encoder accepts its payload, as it does a
      JSON-native one, and its class path and subject fit; what is relayed for the row carries the event. */
  lemma StagedRowsRelay(cfg: Config, e: Event, at: nat, tx: nat, spelling: nat)
    ensures StagedRow(cfg.prefixes, Instance(e), at, tx).Success? <==>
            DumpFields(e.fields, Wire.Plain).Some? && FitsColumns(cfg, e)
    ensures NativeFields(e.fields) ==> DumpFields(e.fields, Wire.Plain).Some?
    ensures match StagedRow(cfg.prefixes, Instance(e), at, tx)
            case Success(Some(row)) => Relays(cfg, e, Message(row.subject, RowBytes(row, spelling)))
            case Success(None) => false
            case Failure(_) => true
  {
    FieldsLoadBack(e.fields, Wire.Plain);
  }

  /** A relayed event decodes to itself exactly when its class path resolves to its own class with its
      fields, and its fields are JSON-native. */
  lemma RelayedEventsDecode(cfg: Config, e: Event, m: Message)
    requires Relays(cfg, e, m)
    ensures Decode(cfg.registry, m.data) == Success(e) <==> Registered(cfg.registry, e) && NativeFields(e.fields)
  {
    var fields := DumpFields(e.fields, Wire.Plain).value;
    FieldsLoadBack(e.fields, Wire.Plain);
    RowBytesAreToJson(Row(ClassPath(e), fields, m.subject, 0, 0, false, 0), m.data.spelling);
    var loaded := LoadFields(fields);
    var r := Decode(cfg.registry, m.data);
    if r.Success? {
      var cd := Wire.Resolve(cfg.registry, ClassPath(e)).value;
      assert r.value.fields == cd.defaults + loaded;
      assert loaded.Keys >= cd.defaults.Keys ==> cd.defaults + loaded == loaded;
      if r == Success(e) {
        assert cd.defaults.Keys <= e.fields.Keys;
      }
    }
  }

  /** The full loop: a registered event with JSON-native fields that was staged, relayed, dead-lettered
      and persisted comes back from a replay as the same event on the same subject; its row names that
      subject, and the count of the delivery it failed at. */
  lemma FullLoop(cfg: Config, s: State, d: nat, e: Event, raw: map<string, Value>, spelling: nat) returns (id: nat)
    requires Reachable(cfg, s) && d < |s.rows|
    requires Registered(cfg.registry, e) && NativeFields(e.fields)
    ensures MadeFrom(s, d, id)
    ensures Relays(cfg, e, s.log[id]) ==>
              var out := DeadLetterRepublication(cfg, s.rows[d], raw, spelling);
              && out.Some? && Decode(cfg.registry, out.value.data) == Success(e)
              && FromJson(out.value.data) == FromJson(s.log[id].data)
              && out.value.subject == s.log[id].subject == s.rows[d].subject == EventSubject(cfg, e)
              && s.rows[d].attempts == cfg.maxDeliver
  {
    id := DeadRowsAreFaithful(cfg, s, d);
    if Relays(cfg, e, s.log[id]) {
      hide Reachable, Relays;
      RelayedEventsDecode(cfg, e, s.log[id]);
      RecordReplays(cfg, s.log[id], s.rows[d], raw, spelling);
      assert s.log[id].subject == EventSubject(cfg, e) by {
        RelaysToItsSubject(cfg, e, s.log[id]);
      }
    }
  }

  lemma RelaysToItsSubject(cfg: Config, e: Event, m: Message)
    requires Relays(cfg, e, m)
    ensures m.subject == EventSubject(cfg, e)
  {
  }

  /** What replaying an audit row republishes. */
  function StoreRepublication(cfg: Config, q: StoreRow, spelling: nat): Option<Message> {
    Republication(cfg, SerializedEvent(PyStr(q.classPath), PyDict(LoadFields(q.payload))), spelling)
  }

  /** For every audit row of every attainable world there is a message the relay published for the same
      outbox row; replaying republishes exactly when that message can be decoded, and the republished
      message decodes to the same event. */
  lemma AuditRowsReplay(cfg: Config, w: World, q: nat, spelling: nat) returns (i: nat)
    requires Attainable(cfg.prefixes, w) && q < |w.db.store|
    ensures i < |w.log| && w.log[i].source == Some(w.db.store[q].source)
    ensures var out := StoreRepublication(cfg, w.db.store[q], spelling);
            && (out.Some? <==> Decodable(cfg, w.log[i].message))
            && (out.Some? ==>
                  && Decode(cfg.registry, out.value.data) == Decode(cfg.registry, w.log[i].message.data)
                  && FromJson(out.value.data) == FromJson(w.log[i].message.data))
  {
    hide Attainable;
    AttainableSafe(cfg.prefixes, w);
    assert StoreOk(w, q);
    var r := w.db.store[q].source;
    i :| i < |w.log| && w.log[i].source == Some(r);
    assert EntryOk(w, i);
    var row, m := w.db.rows[r], w.log[i].message;
    RowBytesAreToJson(row, m.data.spelling);
    assert Load(JObj(row.payload)) == PyDict(LoadFields(row.payload));
    ReencodingReadsBack(row.classPath, JObj(row.payload), spelling);
  }
}
