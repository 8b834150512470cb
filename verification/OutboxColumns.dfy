/** Every outbox row fits its columns, and the events stream captures its subject. */
module OutboxColumns {
  import opened Delivery
  import opened Outbox
  import opened OutboxSafety
  import opened Runs
  import opened Subjects
  import opened Wire

  /** What `publish_durable` does to its unit of work: nothing for what is not a dataclass; an event whose payload
      is not JSON, or whose class path or subject does not fit, ends it; any other adds one pending row. */
  lemma StageSays(p: Prefixes, w: World, u: nat, o: Object, at: nat)
    requires OpenUnit(w, u)
    ensures var x, v := w.units[u], Do(p, w, Stage(u, o, at));
            && v == w.(units := v.units) && |v.units| == |w.units|
            && (forall i | 0 <= i < |w.units| && i != u :: v.units[i] == w.units[i])
            && (o.NotADataclass? ==> v.units[u] == x)
            && (o.Instance? ==>
                  var e := o.event;
                  var payload, path := DumpFields(e.fields, Wire.Plain), e.modName + "." + e.qualname;
                  var subject := SubjectForClass(p, e.modName, LastPart(e.qualname));
                  if payload.None? || |path| > 255 || |subject| > 255 then v.units[u] == x.(pc := Closed)
                  else v.units[u] == x.(staged := x.staged + [Row(path, payload.value, subject, at, u, false, 0)]))
  {
    hide SubjectForClass, LastPart, IsSelection;
  }

  /** A unit of work begins empty and collects its business writes in order; its commit takes effect or raises; it
      starts its relay only after a commit that returned; and abandoned it does nothing more. */
  lemma UnitMovesSay(p: Prefixes, w: World, u: nat, write: nat)
    ensures Do(p, w, Begin) == w.(units := w.units + [Unit([], [], Open, false)])
    ensures OpenUnit(w, u) ==>
              var x, v := w.units[u], Do(p, w, BusinessWrite(u, write));
              v == w.(units := v.units) && v.units == w.units[u := x.(writes := x.writes + [write])]
    ensures forall applied, raised ::
              CanMove(p, w, Commit(u, applied, raised)) <==> OpenUnit(w, u) && (applied || raised)
    ensures forall applied, raised | CanMove(p, w, Commit(u, applied, raised)) ::
              var v := Do(p, w, Commit(u, applied, raised));
              u < |v.units| && v.units[u] == w.units[u].(pc := if raised then Closed else Committed, applied := applied)
    ensures forall sel | CanMove(p, w, StartRelay(u, sel)) ::
              u < |w.units| && w.units[u].pc.Committed? && Do(p, w, StartRelay(u, sel)).units[u].pc.Closed?
    ensures u < |w.units| && !w.units[u].pc.Closed? ==>
              var v := Do(p, w, AbandonUnit(u));
              && v.db == w.db && v.log == w.log && |v.units| == |w.units|
              && v.units[u].(pc := w.units[u].pc) == w.units[u]
              && forall m: Move | m.BusinessWrite? || m.Stage? || m.Commit? || m.AbandonUnit? || m.StartRelay? ::
                   m.unit == u ==> !CanMove(p, v, m)
  {
    hide IsSelection, StagedRow;
  }

  predicate Fits(p: Prefixes, r: Row) {
    |r.classPath| <= 255 && |r.subject| <= 255 && Captured(p.events, r.subject)
  }

  ghost predicate AllFit(p: Prefixes, w: World) {
    && (forall r | 0 <= r < |w.db.rows| :: Fits(p, w.db.rows[r]))
    && (forall u, i | 0 <= u < |w.units| && 0 <= i < |w.units[u].staged| :: Fits(p, w.units[u].staged[i]))
    && (forall k, i | 0 <= k < |w.relays| && 0 <= i < |w.relays[k].loaded| :: Fits(p, w.relays[k].loaded[i]))
  }

  lemma StagedRowFits(p: Prefixes, o: Object, at: nat, tx: nat)
    ensures match StagedRow(p, o, at, tx)
            case Success(Some(r)) => Fits(p, r)
            case _ => true
  {
  }

  lemma MoveKeepsFit(p: Prefixes, w: World, m: Move)
    requires AllFit(p, w) && CanMove(p, w, m)
    ensures AllFit(p, Do(p, w, m))
  {
    hide StagedRow, IsSelection, RowBytes, Captured;
    match m
    case Stage(u, o, at) => StagedRowFits(p, o, at, u);
    case _ =>
  }

  lemma AttainableFit(p: Prefixes, w: World)
    requires Attainable(p, w)
    ensures AllFit(p, w)
  {
    hide Do, CanMove;
    forall v, m | AllFit(p, v) && CanMove(p, v, m) ensures AllFit(p, Do(p, v, m)) { MoveKeepsFit(p, v, m); }
    var moves :| Valid(Producer(p), Nothing(), moves) && Final(Producer(p), Nothing(), moves) == w;
    InvariantHolds(Producer(p), v => AllFit(p, v), Nothing(), moves);
  }

  /** Whatever a move puts on the stream goes to a subject the stream captures. */
  lemma PublishedSubjects(p: Prefixes, w: World, m: Move)
    requires AllFit(p, w) && CanMove(p, w, m)
    ensures var v := Do(p, w, m); |v.log| > |w.log| ==> Captured(p.events, v.log[|w.log|].message.subject)
  {
    hide StagedRow, IsSelection, RowBytes, Captured;
  }

  /** `publish_durable` wrote the row for some event. */
  ghost predicate StagedForEvent(p: Prefixes, r: Row) {
    exists e :: StagedFor(p, r, e)
  }

  predicate StagedFor(p: Prefixes, r: Row, e: Event) {
    StagedRow(p, Instance(e), r.createdAt, r.tx) == Success(Some(Key(r)))
  }

  ghost predicate AllStaged(p: Prefixes, w: World) {
    && (forall r | 0 <= r < |w.db.rows| :: StagedForEvent(p, w.db.rows[r]))
    && (forall u, i | 0 <= u < |w.units| && 0 <= i < |w.units[u].staged| :: StagedForEvent(p, w.units[u].staged[i]))
  }

  lemma StagedRowIsStaged(p: Prefixes, o: Object, at: nat, tx: nat)
    ensures match StagedRow(p, o, at, tx)
            case Success(Some(r)) => StagedForEvent(p, r)
            case _ => true
  {
    match o
    case Instance(e) =>
      if StagedRow(p, o, at, tx).Success? {
        assert StagedFor(p, StagedRow(p, o, at, tx).value.value, e);
      }
    case NotADataclass =>
  }

  lemma SameKeyStaged(p: Prefixes, a: Row, b: Row)
    requires Key(a) == Key(b) && StagedForEvent(p, a)
    ensures StagedForEvent(p, b)
  {
    var e :| StagedFor(p, a, e);
    assert a.createdAt == Key(a).createdAt && b.createdAt == Key(b).createdAt;
    assert a.tx == Key(a).tx && b.tx == Key(b).tx;
    assert StagedFor(p, b, e);
  }

  /** Moves keep the rows' keys and add staged rows only. */
  lemma MoveKeepsStaged(p: Prefixes, w: World, m: Move)
    requires AllStaged(p, w) && CanMove(p, w, m)
    ensures AllStaged(p, Do(p, w, m))
  {
    hide StagedRow, StagedFor, StagedForEvent, IsSelection, RowBytes;
    var v := Do(p, w, m);
    match m
    case Stage(u, o, at) => StagedRowIsStaged(p, o, at, u);
    case RelayCommit(k, applied, _) =>
      forall r | 0 <= r < |v.db.rows| ensures StagedForEvent(p, v.db.rows[r]) {
        SameKeyStaged(p, w.db.rows[r], v.db.rows[r]);
      }
    case _ =>
  }

  /** Every outbox row of every attainable state was staged for an event. */
  lemma AttainableStaged(p: Prefixes, w: World)
    requires Attainable(p, w)
    ensures AllStaged(p, w)
  {
    hide Do, CanMove;
    forall v, m | AllStaged(p, v) && CanMove(p, v, m) ensures AllStaged(p, Do(p, v, m)) { MoveKeepsStaged(p, v, m); }
    var moves :| Valid(Producer(p), Nothing(), moves) && Final(Producer(p), Nothing(), moves) == w;
    InvariantHolds(Producer(p), v => AllStaged(p, v), Nothing(), moves);
  }

  /** Every audit row of every attainable state is named by what follows the last dot of its class path. */
  lemma AuditRowsNameTheirClass(p: Prefixes, w: World, q: nat) returns (m: string)
    requires Attainable(p, w) && q < |w.db.store|
    ensures w.db.store[q].classPath == m + "." + w.db.store[q].eventType && '.' !in w.db.store[q].eventType
  {
    hide Attainable, Logged;
    OutboxIsSafe(p, w);
    AttainableStaged(p, w);
    var r := w.db.store[q].source;
    assert Audits(w.db.store[q], w.db.rows[r], r) && StagedForEvent(p, w.db.rows[r]);
    var e :| StagedFor(p, w.db.rows[r], e);
    assert w.db.rows[r].classPath == Key(w.db.rows[r]).classPath == ClassPath(e);
    assert '.' in ClassPath(e);
    m :| w.db.store[q].classPath == m + "." + w.db.store[q].eventType;
  }
}
