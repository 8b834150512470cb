/** The operator endpoints: replaying an audited event, replaying a dead letter, resolving one. */
module EventOperations {
  import opened Delivery
  import opened DeliverySafety
  import opened Outbox
  import opened Replay
  import opened Runs
  import opened Wire

  datatype Response = Republished(subject: string) | Resolved | NotFound | Unprocessable | Raised

  /** How the awaits of one request fare, and what the pipeline does between publish and commit. `raw`
      is the payload column of a row that holds undecodable bytes. */
  datatype Fate = Fate(
    connected: bool, stored: bool, raised: bool, spelling: nat, raw: map<string, Value>,
    during: seq<Step>, committed: bool, commitRaised: bool)

  predicate Possible(f: Fate) {
    (f.stored || f.raised) && (f.committed || f.commitRaised)
  }

  predicate Succeeds(f: Fate) {
    f.connected && !f.raised && !f.commitRaised
  }

  function AfterPublish(cfg: Config, w: State, m: Message, f: Fate): State {
    if f.connected && f.stored then Apply(cfg, w, Accept(m)) else w
  }

  function AfterResolve(cfg: Config, w: State, d: nat, f: Fate): State {
    if f.connected && !f.raised && f.committed then Apply(cfg, w, Step.Resolve(d)) else w
  }

  /** The streams and the table after a publish and a resolution, and nothing else changed. */
  function Changed(w: State, published: seq<Message>, resolved: Option<nat>): State {
    w.(log := w.log + published,
       retained := w.retained + seq(|published|, _ => true),
       delivered := w.delivered + seq(|published|, _ => 0),
       rows := if resolved.Some? && resolved.value < |w.rows|
               then w.rows[resolved.value := w.rows[resolved.value].(resolved := true)] else w.rows)
  }

  lemma PublishChanges(cfg: Config, w: State, m: Message, f: Fate)
    requires Subjects.Captured(cfg.prefixes.events, m.subject)
    ensures AfterPublish(cfg, w, m, f) == Changed(w, if f.connected && f.stored then [m] else [], None)
  {
    assert w.log + [] == w.log && w.retained + [] == w.retained && w.delivered + [] == w.delivered;
    assert seq(1, _ => true) == [true] && seq(1, _ => 0) == [0];
  }

  lemma ReplayChanges(cfg: Config, w: State, m: Message, d: nat, f: Fate)
    requires Subjects.Captured(cfg.prefixes.events, m.subject) && d < |w.rows|
    ensures AfterResolve(cfg, AfterPublish(cfg, w, m, f), d, f) ==
            Changed(w, if f.connected && f.stored then [m] else [],
                    if f.connected && !f.raised && f.committed then Some(d) else None)
  {
    PublishChanges(cfg, w, m, f);
  }

  class EventRouter {
    const cfg: Config
    var world: State
    var store: seq<StoreRow>

    constructor (cfg: Config)
      ensures this.cfg == cfg && world == Empty() && store == []
    {
      this.cfg, world, store := cfg, Empty(), [];
    }

    method Others(schedule: seq<Step>, ghost before: State)
      requires Reaches(Pipeline(cfg), before, world)
      modifies this`world
      ensures Reaches(Pipeline(cfg), before, world) && Reaches(Pipeline(cfg), old(world), world)
      ensures schedule == [] ==> world == old(world)
    {
      ReachesRefl(Pipeline(cfg), world);
      for i := 0 to |schedule|
        invariant Reaches(Pipeline(cfg), before, world) && Reaches(Pipeline(cfg), old(world), world)
        invariant schedule == [] ==> world == old(world)
      {
        hide Valid, Final;
        if Enabled(cfg, world, schedule[i]) {
          ReachesStep(Pipeline(cfg), before, world, schedule[i]);
          ReachesStep(Pipeline(cfg), old(world), world, schedule[i]);
          world := Apply(cfg, world, schedule[i]);
        }
      }
    }

    /** `publish_raw` of a republication. */
    method PublishRaw(m: Message, f: Fate, ghost before: State) returns (failed: bool)
      requires Reaches(Pipeline(cfg), before, world) && Possible(f)
      requires Subjects.Captured(cfg.prefixes.events, m.subject)
      modifies this`world
      ensures Reaches(Pipeline(cfg), before, world)
      ensures world == AfterPublish(cfg, old(world), m, f)
      ensures failed == (!f.connected || f.raised)
      ensures world == Changed(old(world), if f.connected && f.stored then [m] else [], None)
      ensures !failed ==> world.log == old(world).log + [m]
    {
      hide Valid, Final;
      PublishChanges(cfg, world, m, f);
      if !f.connected {
        return true;
      }
      if f.stored {
        ReachesStep(Pipeline(cfg), before, world, Accept(m));
        world := Apply(cfg, world, Accept(m));
      }
      failed := f.raised;
    }

    /** `replay_event` */
    method ReplayEvent(id: nat, f: Fate) returns (response: Response)
      requires Possible(f)
      modifies this`world
      ensures Reaches(Pipeline(cfg), old(world), world)
      ensures id >= |store| ==> response == NotFound && world == old(world)
      ensures id < |store| ==>
                match StoreRepublication(cfg, store[id], f.spelling)
                case None => response == Unprocessable && world == old(world)
                case Some(m) =>
                  && world == AfterPublish(cfg, old(world), m, f)
                  && world == Changed(old(world), if f.connected && f.stored then [m] else [], None)
                  && response == (if !f.connected || f.raised then Raised else Republished(m.subject))
    {
      hide Valid, Final, Apply, Enabled;
      ReachesRefl(Pipeline(cfg), world);
      if id >= |store| {
        return NotFound;
      }
      var m := StoreRepublication(cfg, store[id], f.spelling);
      if m.None? {
        return Unprocessable;
      }
      var failed := PublishRaw(m.value, f, world);
      response := if failed then Raised else Republished(m.value.subject);
    }

    /** `replay_dead_letter_event`: the row is resolved only once its event is republished, after a publish that
        returned, and not at all after one that raised; what cannot be decoded is refused and left alone. */
    method ReplayDeadLetterEvent(id: nat, f: Fate) returns (response: Response)
      requires Possible(f) && Reachable(cfg, world)
      modifies this`world
      ensures Reaches(Pipeline(cfg), old(world), world)
      ensures id >= |old(world.rows)| ==> response == NotFound && world == old(world)
      ensures id < |old(world.rows)| ==>
                match DeadLetterRepublication(cfg, old(world).rows[id], f.raw, f.spelling)
                case None => response == Unprocessable && world == old(world)
                case Some(m) =>
                  && response == (if Succeeds(f) then Republished(old(world).rows[id].subject) else Raised)
                  && (Succeeds(f) ==>
                        && old(world).log + [m] <= world.log
                        && id < |world.rows| && world.rows[id].resolved)
                  && (!f.connected || f.raised ==> world.rows == old(world).rows)
                  && (f.during == [] ==>
                        world == Changed(old(world), if f.connected && f.stored then [m] else [],
                                         if f.connected && !f.raised && f.committed then Some(id) else None))
    {
      hide Valid, Final, Apply, Enabled;
      ghost var before := world;
      ReachesRefl(Pipeline(cfg), world);
      if id >= |world.rows| {
        return NotFound;
      }
      var row := world.rows[id];
      var m := DeadLetterRepublication(cfg, row, f.raw, f.spelling);
      if m.None? {
        return Unprocessable;
      }
      ReplayChanges(cfg, before, m.value, id, f);
      var failed := PublishRaw(m.value, f, before);
      if failed {
        return Raised;
      }
      PublishKeepsRows(cfg, before, m.value, f);
      ghost var published := world;
      Others(f.during, before);
      ReachableGrows(cfg, before, published);
      ReachableGrows(cfg, published, world);
      MarkResolved(id, f.committed, before);
      response := if f.commitRaised then Raised else Republished(row.subject);
    }

    /** `mark_dead_letter_resolved` and the commit. */
    method MarkResolved(id: nat, committed: bool, ghost before: State)
      requires Reaches(Pipeline(cfg), before, world) && id < |world.rows|
      modifies this`world
      ensures Reaches(Pipeline(cfg), before, world)
      ensures world == if committed then Apply(cfg, old(world), Step.Resolve(id)) else old(world)
      ensures world == Changed(old(world), [], if committed then Some(id) else None)
      ensures world.log == old(world).log && |world.rows| == |old(world).rows|
      ensures committed ==> world.rows[id].resolved
    {
      hide Valid, Final;
      if committed {
        ReachesStep(Pipeline(cfg), before, world, Step.Resolve(id));
        world := Apply(cfg, world, Step.Resolve(id));
      }
    }

    /** `resolve_dead_letter_event` */
    method ResolveDeadLetterEvent(id: nat, f: Fate) returns (response: Response)
      requires Possible(f)
      modifies this`world
      ensures Reaches(Pipeline(cfg), old(world), world)
      ensures id >= |old(world.rows)| ==>
                response == (if f.commitRaised then Raised else NotFound) && world == old(world)
      ensures id < |old(world.rows)| ==>
                && response == (if f.commitRaised then Raised else Resolved)
                && world == (if f.committed then Apply(cfg, old(world), Step.Resolve(id)) else old(world))
                && world == Changed(old(world), [], if f.committed then Some(id) else None)
    {
      hide Valid, Final, Apply, Enabled;
      ReachesRefl(Pipeline(cfg), world);
      var found := id < |world.rows|;
      if found {
        MarkResolved(id, f.committed, world);
      }
      response := if f.commitRaised then Raised else if found then Resolved else NotFound;
    }
  }

  lemma PublishKeepsRows(cfg: Config, w: State, m: Message, f: Fate)
    ensures AfterPublish(cfg, w, m, f).rows == w.rows
  {
  }
}
