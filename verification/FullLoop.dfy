/** The full loop of an event, over the running system: staged, relayed, dead-lettered, persisted, replayed. */
module FullLoop {
  import opened Delivery
  import opened DeliverySafety
  import opened Outbox
  import opened OutboxColumns
  import opened OutboxSafety
  import opened Replay
  import opened System
  import opened Wire

  /** Replaying dead-letter row `d`, made from message `id`, sends out event `e` again as it was published. */
  ghost predicate ComesBack(cfg: Config, s: State, d: nat, id: nat, e: Event, raw: map<string, Value>, spelling: nat)
    requires d < |s.rows| && id < |s.log|
  {
    var out := DeadLetterRepublication(cfg, s.rows[d], raw, spelling);
    && out.Some? && Decode(cfg.registry, out.value.data) == Success(e)
    && FromJson(out.value.data) == FromJson(s.log[id].data)
    && out.value.subject == s.log[id].subject == s.rows[d].subject == EventSubject(cfg, e)
    && s.rows[d].attempts == cfg.maxDeliver
  }

  /** A message that carries a row staged for an event is one relayed for that event. */
  lemma CarriedIsRelayed(cfg: Config, m: Message, r: Row, e: Event)
    requires Carries(m, r) && StagedFor(cfg.prefixes, r, e)
    ensures Relays(cfg, e, m)
  {
    StagedRowsRelay(cfg, e, r.createdAt, r.tx, m.data.spelling);
    assert RowBytes(Key(r), m.data.spelling) == RowBytes(r, m.data.spelling);
    assert Message(Key(r).subject, RowBytes(Key(r), m.data.spelling)) == m;
  }

  lemma LoopCloses(cfg: Config, s: State, d: nat, id: nat, e: Event, raw: map<string, Value>, spelling: nat)
    requires Reachable(cfg, s) && MadeFrom(s, d, id) && Relays(cfg, e, s.log[id])
    requires Registered(cfg.registry, e) && NativeFields(e.fields)
    ensures ComesBack(cfg, s, d, id, e, raw, spelling)
  {
    hide Reachable, Relays, Registered, NativeFields, DeadLetterRepublication;
    var same := Replay.FullLoop(cfg, s, d, e, raw, spelling);
  }

  /** In every running state of the whole system, each dead-letter row made from a message some relay
      published goes back to a committed outbox row that `publish_durable` staged for an event; and for
      every registered event with JSON-native fields that row was staged for, replaying the dead letter
      sends out that event again, on the subject it was first published on, which the row names together
      with the count the delivery failed at. */
  lemma EventsComeBack(cfg: Config, s: Whole, d: nat, raw: map<string, Value>, spelling: nat) returns (id: nat)
    requires Running(cfg, s) && d < |s.delivery.rows|
    ensures MadeFrom(s.delivery, d, id) && id < |s.outbox.log| && s.outbox.log[id].message == s.delivery.log[id]
    ensures s.outbox.log[id].source.Some? ==>
              var r := s.outbox.log[id].source.value;
              && r < |s.outbox.db.rows| && StagedForEvent(cfg.prefixes, s.outbox.db.rows[r])
              && forall e | StagedFor(cfg.prefixes, s.outbox.db.rows[r], e) ::
                   Registered(cfg.registry, e) && NativeFields(e.fields) ==>
                     ComesBack(cfg, s.delivery, d, id, e, raw, spelling)
  {
    hide Running, Reachable, Attainable, Safe, AllStaged, StagedFor, ComesBack, Carries, Registered, NativeFields;
    RunningIsLinked(cfg, s);
    id := DeadRowsAreFaithful(cfg, s.delivery, d);
    if s.outbox.log[id].source.Some? {
      var r := s.outbox.log[id].source.value;
      OutboxIsSafe(cfg.prefixes, s.outbox);
      CommittedRowStaged(cfg, s, r);
      forall e | StagedFor(cfg.prefixes, s.outbox.db.rows[r], e) && Registered(cfg.registry, e)
          && NativeFields(e.fields)
        ensures ComesBack(cfg, s.delivery, d, id, e, raw, spelling)
      {
        CarriedIsRelayed(cfg, s.delivery.log[id], s.outbox.db.rows[r], e);
        LoopCloses(cfg, s.delivery, d, id, e, raw, spelling);
      }
    }
  }

  lemma CommittedRowStaged(cfg: Config, s: Whole, r: nat)
    requires Attainable(cfg.prefixes, s.outbox) && r < |s.outbox.db.rows|
    ensures StagedForEvent(cfg.prefixes, s.outbox.db.rows[r])
  {
    hide Attainable;
    AttainableStaged(cfg.prefixes, s.outbox);
  }
}
