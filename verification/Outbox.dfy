/** The producer side of the event pipeline as a step machine: units of work that stage events with
    their business writes, and relays that publish committed rows. Units and relays interleave;
    publishes and commits may raise before or after they take effect, and anything may crash. */
module Outbox {
  import opened Delivery
  import opened Runs
  import opened Subjects
  import opened Wire

  type Fields = map<string, Json>

  /** `tx` is the unit of work that wrote the row. */
  datatype Row = Row(
    classPath: string, payload: Fields, subject: string, createdAt: nat, tx: nat, published: bool, attempts: nat)

  /** `source` records the outbox row a relay wrote it for. */
  datatype StoreRow = StoreRow(eventType: string, classPath: string, payload: Fields, source: nat)

  /** A message EVENTS accepted; `source` records the outbox row a relay published. */
  datatype Entry = Entry(message: Message, source: Option<nat>)

  datatype UnitPc = Open | Committed | Closed

  /** `applied` says that the unit's commit took effect. */
  datatype Unit = Unit(writes: seq<nat>, staged: seq<Row>, pc: UnitPc, applied: bool)

  datatype RelayPc = Publishing | Marking | Storing | Counting | RelayEnded

  /** A relay's own session: the rows it loaded, the ones it selected, and its uncommitted writes. */
  datatype Relay = Relay(
    loaded: seq<Row>, selected: seq<nat>, pos: nat,
    marks: seq<nat>, stores: seq<StoreRow>, counts: map<nat, nat>, pc: RelayPc)

  datatype Db = Db(business: seq<(nat, nat)>, rows: seq<Row>, store: seq<StoreRow>)

  datatype World = World(db: Db, log: seq<Entry>, units: seq<Unit>, relays: seq<Relay>)

  datatype Move =
    | Begin
    | BusinessWrite(unit: nat, write: nat)
    | Stage(unit: nat, object: Object, createdAt: nat)
    | Commit(unit: nat, applied: bool, raised: bool)
    | AbandonUnit(unit: nat)
    | StartRelay(unit: nat, selected: seq<nat>)
    | RelayPublish(relay: nat, stored: bool, raised: bool, spelling: nat)
    | RelaySkip(relay: nat)
    | RelayMark(relay: nat)
    | RelayStore(relay: nat)
    | RelayCount(relay: nat)
    | RelayCommit(relay: nat, applied: bool, raised: bool)
    | AbandonRelay(relay: nat)
    | PublishDirectly(message: Message)

  const BATCH := 100

  /** What never changes about a row. */
  function Key(r: Row): Row {
    r.(published := false, attempts := 0)
  }

  /** What `publish_durable` writes for an event: nothing if it is not a dataclass; `Failure` stands for the
      error the database raises for a payload that is not JSON or a string too long for its column. */
  function StagedRow(p: Prefixes, o: Object, createdAt: nat, tx: nat): Result<Option<Row>> {
    match o
    case NotADataclass => Success(None)
    case Instance(e) =>
      var path, subject := ClassPath(e), SubjectForClass(p, e.modName, LastPart(e.qualname));
      match DumpFields(e.fields, Plain)
      case None => Failure(TypeError)
      case Some(payload) =>
        if |path| > COLUMN_WIDTH || |subject| > COLUMN_WIDTH then Failure(ColumnError)
        else Success(Some(Row(path, payload, subject, createdAt, tx, false, 0)))
  }

  function RowBytes(r: Row, spelling: nat): Bytes {
    Text(JObj(map["event_class" := JStr(r.classPath), "payload" := JObj(r.payload)]), spelling)
  }

  /** The bytes published for a row are `to_json` of the row's class path and loaded payload. */
  lemma RowBytesAreToJson(r: Row, spelling: nat)
    ensures ToJson(SerializedEvent(PyStr(r.classPath), PyDict(LoadFields(r.payload))), spelling) ==
            Success(RowBytes(r, spelling))
    ensures FromJson(RowBytes(r, spelling)) == Success(SerializedEvent(PyStr(r.classPath),
        PyDict(LoadFields(r.payload))))
  {
    EnvelopeReadsBack(r.classPath, LoadFields(r.payload), spelling);
    LoadDumpsBack(JObj(r.payload), WithDefault);
    var env := Envelope(SerializedEvent(PyStr(r.classPath), PyDict(LoadFields(r.payload))));
    assert Load(JObj(r.payload)) == PyDict(LoadFields(r.payload));
    assert env.entries["event_class"] == PyStr(r.classPath) && env.entries["payload"] == Load(JObj(r.payload));
    assert Dump(env, WithDefault, false).value.fields ==
           map["event_class" := JStr(r.classPath), "payload" := JObj(r.payload)];
  }

  /** `rsplit(".", 1)[-1]` */
  function LastPart(path: string): string {
    match SplitLast(path)
    case None => path
    case Some((_, c)) => c
  }

  function StoreRowFor(r: Row, id: nat): StoreRow {
    StoreRow(LastPart(r.classPath), r.classPath, r.payload, id)
  }

  /** `name` is what follows the last dot of a class path, or all of a path without dots. */
  ghost predicate NamesClass(path: string, name: string) {
    '.' !in name && (path == name || exists m: string :: path == m + "." + name)
  }

  /** The audit row of outbox row `r`. */
  ghost predicate Audits(q: StoreRow, r: Row, id: nat) {
    q.source == id && q.classPath == r.classPath && q.payload == r.payload && NamesClass(r.classPath, q.eventType)
  }

  lemma StoreRowAudits(r: Row, id: nat)
    ensures Audits(StoreRowFor(r, id), r, id)
  {
    match SplitLast(r.classPath)
    case None =>
    case Some((m, c)) => assert r.classPath == m + "." + c;
  }

  predicate Distinct(xs: seq<nat>) {
    forall i, j | 0 <= i < j < |xs| :: xs[i] != xs[j]
  }

  /** The oldest pending rows, at most `limit`; rows of one age may come in any order. */
  predicate IsSelection(rows: seq<Row>, sel: seq<nat>, limit: nat) {
    && Distinct(sel) && |sel| <= limit
    && (forall i | 0 <= i < |sel| :: sel[i] < |rows| && !rows[sel[i]].published)
    && (forall i, j | 0 <= i < j < |sel| :: rows[sel[i]].createdAt <= rows[sel[j]].createdAt)
    && (forall r | 0 <= r < |rows| && !rows[r].published && r !in sel ::
          |sel| == limit && forall i | 0 <= i < |sel| :: rows[sel[i]].createdAt <= rows[r].createdAt)
  }

  predicate OpenUnit(w: World, u: nat) {
    u < |w.units| && w.units[u].pc.Open?
  }

  predicate AtRow(w: World, k: nat, pc: RelayPc) {
    && k < |w.relays| && w.relays[k].pc == pc && w.relays[k].pos < |w.relays[k].selected|
    && w.relays[k].selected[w.relays[k].pos] < |w.relays[k].loaded|
  }

  predicate CanMove(p: Prefixes, w: World, m: Move) {
    match m
    case Begin => true
    case BusinessWrite(u, _) => OpenUnit(w, u)
    case Stage(u, _, _) => OpenUnit(w, u)
    case Commit(u, applied, raised) => OpenUnit(w, u) && (applied || raised)
    case AbandonUnit(u) => u < |w.units| && !w.units[u].pc.Closed?
    case StartRelay(u, sel) => u < |w.units| && w.units[u].pc.Committed? && IsSelection(w.db.rows, sel, BATCH)
    case RelayPublish(k, stored, raised, _) => AtRow(w, k, Publishing) && (stored || raised)
    case RelaySkip(k) => AtRow(w, k, Publishing)
    case RelayMark(k) => AtRow(w, k, Marking)
    case RelayStore(k) => AtRow(w, k, Storing)
    case RelayCount(k) => AtRow(w, k, Counting)
    case RelayCommit(k, applied, raised) =>
      && k < |w.relays| && w.relays[k].pc.Publishing? && w.relays[k].pos == |w.relays[k].selected|
      && (applied || raised)
    case AbandonRelay(k) => k < |w.relays| && !w.relays[k].pc.RelayEnded?
    case PublishDirectly(message) => Captured(p.events, message.subject)
  }

  function WithUnit(w: World, u: nat, x: Unit): World
    requires u < |w.units|
  {
    w.(units := w.units[u := x])
  }

  function WithRelay(w: World, k: nat, x: Relay): World
    requires k < |w.relays|
  {
    w.(relays := w.relays[k := x])
  }

  function Current(x: Relay): nat
    requires x.pos < |x.selected|
  {
    x.selected[x.pos]
  }

  function Written(writes: seq<nat>, u: nat): seq<(nat, nat)> {
    seq(|writes|, i requires 0 <= i < |writes| => (u, writes[i]))
  }

  function MarkRows(rows: seq<Row>, marks: seq<nat>, counts: map<nat, nat>): seq<Row> {
    seq(|rows|, i requires 0 <= i < |rows| =>
      rows[i].(published := rows[i].published || i in marks,
               attempts := if i in counts then counts[i] else rows[i].attempts))
  }

  function StageIn(p: Prefixes, x: Unit, u: nat, o: Object, createdAt: nat): Unit {
    match StagedRow(p, o, createdAt, u)
    case Success(None) => x
    case Success(Some(r)) => x.(staged := x.staged + [r])
    case Failure(_) => x.(pc := Closed)
  }

  function CommitRelay(db: Db, x: Relay): Db {
    db.(rows := MarkRows(db.rows, x.marks, x.counts), store := db.store + x.stores)
  }

  function Do(p: Prefixes, w: World, m: Move): World {
    if !CanMove(p, w, m) then w else
    match m
    case Begin => w.(units := w.units + [Unit([], [], Open, false)])
    case BusinessWrite(u, x) => WithUnit(w, u, w.units[u].(writes := w.units[u].writes + [x]))
    case Stage(u, o, at) => WithUnit(w, u, StageIn(p, w.units[u], u, o, at))
    case Commit(u, applied, raised) =>
      var x := w.units[u];
      var next := WithUnit(w, u, x.(pc := if raised then Closed else Committed, applied := applied));
      if applied then
        next.(db := w.db.(business := w.db.business + Written(x.writes, u), rows := w.db.rows + x.staged))
      else next
    case AbandonUnit(u) => WithUnit(w, u, w.units[u].(pc := Closed))
    case StartRelay(u, sel) =>
      WithUnit(w, u, w.units[u].(pc := Closed)).(
        relays := w.relays + [Relay(w.db.rows, sel, 0, [], [], map[], Publishing)])
    case RelayPublish(k, stored, raised, spelling) =>
      var x := w.relays[k];
      var row := x.loaded[Current(x)];
      var next := WithRelay(w, k, x.(pc := if raised then Counting else Marking));
      if stored then next.(log := w.log + [Entry(Message(row.subject, RowBytes(row, spelling)), Some(Current(x)))])
      else next
    case RelaySkip(k) => WithRelay(w, k, w.relays[k].(pos := w.relays[k].pos + 1))
    case RelayMark(k) =>
      WithRelay(w, k, w.relays[k].(marks := w.relays[k].marks + [Current(w.relays[k])], pc := Storing))
    case RelayStore(k) =>
      var x := w.relays[k];
      WithRelay(w, k, x.(stores := x.stores + [StoreRowFor(x.loaded[Current(x)], Current(x))],
                         pos := x.pos + 1, pc := Publishing))
    case RelayCount(k) =>
      var x := w.relays[k];
      WithRelay(w, k, x.(counts := x.counts[Current(x) := x.loaded[Current(x)].attempts + 1],
                         pos := x.pos + 1, pc := Publishing))
    case RelayCommit(k, applied, _) =>
      var next := WithRelay(w, k, w.relays[k].(pc := RelayEnded));
      if applied then next.(db := CommitRelay(w.db, w.relays[k])) else next
    case AbandonRelay(k) => WithRelay(w, k, w.relays[k].(pc := RelayEnded))
    case PublishDirectly(message) => w.(log := w.log + [Entry(message, None)])
  }

  ghost function Producer(p: Prefixes): Machine<World, Move> {
    Machine((w, m) => CanMove(p, w, m), (w, m) => Do(p, w, m))
  }

  function Nothing(): World {
    World(Db([], [], []), [], [], [])
  }
}
