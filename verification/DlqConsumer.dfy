/** `NatsEventBus` persisting dead letters: `_persist_dlq_message` and `_retry_or_abandon_dlq_message`. */
module DlqConsumer {
  import opened Backoff
  import opened Delivery
  import opened DeliverySafety
  import opened Runs
  import opened Subjects
  import opened Wire

  /** Whether the insert and commit took effect, whether they raised, whether the rollback and the closing
      of the session raise, and how the ack or nak fares. */
  datatype WriteEnv = WriteEnv(
    inserted: bool, raised: bool, rollbackRaised: bool, closeRaised: bool,
    ackApplied: bool, ackRaised: bool, nakRaised: bool)

  /** `escaped` says that an exception left the call, and with it the consumer loop; `Left` that one did so
      before any ack or nak. */
  datatype WriteVerdict =
    | Stored(row: DeadRow, escaped: bool)
    | Retrying(delay: real, escaped: bool)
    | GaveUp(escaped: bool)
    | Left(inserted: bool)

  /** A write that does not raise took effect; one that took effect fits its columns. */
  predicate PossibleWrite(cfg: Config, c: Copy, env: WriteEnv) {
    (env.inserted || env.raised) && (env.inserted ==> Storable(RowFor(cfg, c)))
  }

  function Retry(cfg: Config, p: Policy, number: nat, metadata: bool, env: WriteEnv): WriteVerdict {
    var delivered := NumDelivered(number, metadata, cfg.dlqMaxDeliver);
    var escaped := env.nakRaised || env.closeRaised;
    if delivered < cfg.dlqMaxDeliver then Retrying(Delay(p, delivered), escaped) else GaveUp(escaped)
  }

  function Write(cfg: Config, p: Policy, c: Copy, number: nat, metadata: bool, env: WriteEnv): WriteVerdict {
    if !Loadable(c.data) then Left(false)
    else if (if env.raised then env.rollbackRaised else env.closeRaised) then Left(env.inserted)
    else if env.raised then Retry(cfg, p, number, metadata, env)
    else Stored(RowFor(cfg, c), env.ackRaised)
  }

  /** Writer `w` of a reachable pipeline is at `x`, persisting `c`. */
  ghost predicate Writing(cfg: Config, s: State, w: nat, x: Writer, c: Copy) {
    && Reachable(cfg, s)
    && w < |s.writers| && s.writers[w] == x && x.copy < |s.dlq| && s.dlq[x.copy] == c
    && x.copy < |s.dlqAcked|
  }

  ghost predicate InTable(cfg: Config, s: State, x: Writer, c: Copy) {
    x.row.Some? ==> x.row.value < |s.rows| && s.rows[x.row.value].(resolved := false) == RowFor(cfg, c)
  }

  /** Every case of a write, in terms of what its awaits come to. */
  predicate Decides(cfg: Config, p: Policy, c: Copy, number: nat, metadata: bool, env: WriteEnv, v: WriteVerdict) {
    var left := if env.raised then env.rollbackRaised else env.closeRaised;
    var more := metadata && number < cfg.dlqMaxDeliver;
    && (v.Left? <==> !Loadable(c.data) || left)
    && (v.Left? ==> (v.inserted <==> Loadable(c.data) && env.inserted))
    && (v.Stored? <==> Loadable(c.data) && !left && !env.raised)
    && (v.Stored? ==> v.row == RowFor(cfg, c) && v.escaped == env.ackRaised)
    && (v.Retrying? <==> Loadable(c.data) && !left && env.raised && more)
    && (v.Retrying? ==> v.delay == Delay(p, number))
    && (v.GaveUp? <==> Loadable(c.data) && !left && env.raised && !more)
    && (v.Retrying? || v.GaveUp? ==> v.escaped == (env.nakRaised || env.closeRaised))
  }

  lemma WriteDecides(cfg: Config, p: Policy, c: Copy, number: nat, metadata: bool, env: WriteEnv)
    ensures Decides(cfg, p, c, number, metadata, env, Write(cfg, p, c, number, metadata, env))
  {
    hide RowFor, Delay, Loadable;
  }

  /** `s` after writer `w` got to `x`, inserted a row for `c` or not, and acked its dead letter or not, and
      nothing else happened. */
  function Effect(cfg: Config, s: State, w: nat, x: Writer, c: Copy, inserted: bool, acked: bool): State
    requires w < |s.writers| && x.copy < |s.dlqAcked|
  {
    s.(writers := s.writers[w := x],
       rows := s.rows + (if inserted then [RowFor(cfg, c)] else []),
       rowFrom := s.rowFrom + (if inserted then [w] else []),
       dlqAcked := if acked then s.dlqAcked[x.copy := true] else s.dlqAcked)
  }

  lemma EffectThen(cfg: Config, s: State, w: nat, x: Writer, c: Copy, inserted: bool, acked: bool,
      after: Writer, inserts: bool, acks: bool)
    requires w < |s.writers| && x.copy == after.copy < |s.dlqAcked| && !(inserted && inserts)
    ensures Effect(cfg, Effect(cfg, s, w, x, c, inserted, acked), w, after, c, inserts, acks) ==
            Effect(cfg, s, w, after, c, inserted || inserts, acked || acks)
  {
    hide RowFor;
    var done := Effect(cfg, s, w, x, c, inserted, acked);
    assert done.rows + [] == done.rows && done.rowFrom + [] == done.rowFrom;
  }

  /** What each step of a writer does to the whole pipeline. */
  lemma AckSteps(cfg: Config, s: State, w: nat, x: Writer, c: Copy, applied: bool)
    requires Writing(cfg, s, w, x, c) && x.pc.AckingCopy?
    ensures Enabled(cfg, s, AckCopy(w, applied))
    ensures Apply(cfg, s, AckCopy(w, applied)) == Effect(cfg, s, w, x.(pc := WriterEnded), c, false, applied)
  {
    hide RowFor, Storable, Reachable, Loadable, Captured;
    assert s.rows + [] == s.rows && s.rowFrom + [] == s.rowFrom;
  }

  lemma LastSteps(cfg: Config, s: State, w: nat, x: Writer, c: Copy, l: Step)
    requires Writing(cfg, s, w, x, c)
    requires (l == NakCopy(w) && x.pc.NakingCopy?) || (l == CrashCopy(w) && !x.pc.WriterEnded?)
    ensures Enabled(cfg, s, l)
    ensures Apply(cfg, s, l) == Effect(cfg, s, w, x.(pc := WriterEnded), c, false, false)
  {
    hide RowFor, Storable, Reachable, Loadable, Captured;
    assert s.rows + [] == s.rows && s.rowFrom + [] == s.rowFrom;
  }

  lemma PersistSteps(cfg: Config, s: State, w: nat, x: Writer, c: Copy, inserted: bool, raised: bool)
    requires Writing(cfg, s, w, x, c) && x.pc.Persisting? && x.row.None? && Loadable(c.data)
    requires (inserted || raised) && (inserted ==> Storable(RowFor(cfg, c)))
    ensures Enabled(cfg, s, Persist(w, inserted, raised))
    ensures var after := x.(pc := if raised then NakingCopy else AckingCopy,
                            row := if inserted then Some(|s.rows|) else None);
            Apply(cfg, s, Persist(w, inserted, raised)) == Effect(cfg, s, w, after, c, inserted, false)
  {
    hide RowFor, Storable, Loadable;
    assert s.rows + [] == s.rows && s.rowFrom + [] == s.rowFrom;
  }

  lemma WritingStays(cfg: Config, s: State, next: State, w: nat, x: Writer, c: Copy)
    requires Writing(cfg, s, w, x, c) && Reaches(Pipeline(cfg), s, next) && w < |next.writers| && next.writers[w] == x
    ensures Writing(cfg, next, w, x, c) && InTable(cfg, next, x, c)
    ensures s.dlqAcked[x.copy] ==> next.dlqAcked[x.copy]
  {
    ReachableGrows(cfg, s, next);
    ReachableOk(cfg, next);
    assert next.dlq[..|s.dlq|][x.copy] == c;
    assert WriterOk(cfg, next, w);
    assert x.row.Some? ==> RowOk(cfg, next, x.row.value);
  }

  lemma OwnWrite(cfg: Config, s: State, l: Step, w: nat, x: Writer, c: Copy, after: Writer)
    requires Writing(cfg, s, w, x, c) && Enabled(cfg, s, l)
    requires w < |Apply(cfg, s, l).writers| && Apply(cfg, s, l).writers[w] == after && after.copy == x.copy
    ensures Reaches(Pipeline(cfg), s, Apply(cfg, s, l))
    ensures Writing(cfg, Apply(cfg, s, l), w, after, c) && InTable(cfg, Apply(cfg, s, l), after, c)
  {
    var next := Apply(cfg, s, l);
    ReachesRefl(Pipeline(cfg), s);
    ReachesStep(Pipeline(cfg), s, s, l);
    ReachableGrows(cfg, s, next);
    ReachableOk(cfg, next);
    assert next.dlq[..|s.dlq|][x.copy] == c;
    assert WriterOk(cfg, next, w);
    assert after.row.Some? ==> RowOk(cfg, next, after.row.value);
  }

  class NatsDlqConsumer {
    const cfg: Config
    const policy: Policy
    /** Nothing else happens in the pipeline while its calls await. */
    ghost const alone: bool
    ghost var world: State

    constructor (cfg: Config, policy: Policy, ghost alone: bool)
      ensures this.cfg == cfg && this.policy == policy && this.alone == alone && world == Empty()
    {
      this.cfg, this.policy, this.alone, world := cfg, policy, alone, Empty();
    }

    /** Writer `w` is at `x` in a world that `before` has run to, in which it has inserted its row and acked its
        dead letter or not. */
    ghost predicate At(before: State, w: nat, x: Writer, c: Copy, inserted: bool, acked: bool)
      reads this
    {
      && Reaches(Pipeline(cfg), before, world) && Writing(cfg, world, w, x, c) && InTable(cfg, world, x, c)
      && (x.row.Some? <==> inserted) && (acked ==> world.dlqAcked[x.copy])
      && (alone ==>
            && w < |before.writers| && x.copy < |before.dlqAcked|
            && world == Effect(cfg, before, w, x, c, inserted, acked))
    }

    /** While writer `w` awaits, the others make any number of steps. */
    ghost method Others(before: State, w: nat, x: Writer, c: Copy, inserted: bool, acked: bool)
      requires At(before, w, x, c, inserted, acked)
      modifies this
      ensures At(before, w, x, c, inserted, acked)
    {
      hide Valid, Final, Reachable, InTable;
      if !alone {
        ReachesRefl(Pipeline(cfg), world);
        var next: State :| Reaches(Pipeline(cfg), world, next) && w < |next.writers| && next.writers[w] == x;
        WritingStays(cfg, world, next, w, x, c);
        ReachesTrans(Pipeline(cfg), before, world, next);
        world := next;
      }
    }

    /** A step of writer `w` itself. */
    ghost method Perform(l: Step, before: State, w: nat, x: Writer, c: Copy, inserted: bool, acked: bool,
                         after: Writer, inserts: bool, acks: bool)
      requires At(before, w, x, c, inserted, acked) && Enabled(cfg, world, l)
      requires after.copy == x.copy && !(inserted && inserts) && (after.row.Some? <==> inserted || inserts)
      requires Apply(cfg, world, l) == Effect(cfg, world, w, after, c, inserts, acks)
      modifies this
      ensures At(before, w, after, c, inserted || inserts, acked || acks)
    {
      hide Valid, Final, Reachable, InTable, Apply, Enabled;
      OwnWrite(cfg, world, l, w, x, c, after);
      ReachesTrans(Pipeline(cfg), before, world, Apply(cfg, world, l));
      if alone {
        EffectThen(cfg, before, w, x, c, inserted, acked, after, inserts, acks);
      }
      world := Apply(cfg, world, l);
    }

    lemma StartAt(w: nat, x: Writer, c: Copy)
      requires Writing(cfg, world, w, x, c) && x.row.None?
      ensures At(world, w, x, c, false, false)
    {
      hide Valid, Final, Reachable;
      ReachesRefl(Pipeline(cfg), world);
      assert world.rows + [] == world.rows && world.rowFrom + [] == world.rowFrom;
    }

    /** Whatever the other tasks do meanwhile, the call is a run of the pipeline, ends its delivery, and
        either puts exactly the row for `c` in the table, or asks for redelivery after the backoff
        delay while deliveries remain, or gives up, or is left before any ack or nak: by an error of the
        JSON loader, by a rollback that raises, or by a session that raises on closing after its commit. A row
        that was stored without an exception is acked. If the others do nothing, the call changes nothing but
        its own writer, its row, and the ack of its dead letter. */
    method PersistDlqMessage(c: Copy, number: nat, metadata: bool, env: WriteEnv, w: nat, ghost copy: nat)
      returns (v: WriteVerdict, ghost last: Writer)
      requires Writing(cfg, world, w, Writer(copy, number, metadata, Persisting, None), c)
      requires PossibleWrite(cfg, c, env)
      modifies this
      ensures v == Write(cfg, policy, c, number, metadata, env)
      ensures Decides(cfg, policy, c, number, metadata, env, v)
      ensures At(old(world), w, last, c, Loadable(c.data) && env.inserted, v.Stored? && env.ackApplied)
      ensures last.pc.WriterEnded? && last.copy == copy
      ensures last.row.Some? <==> Loadable(c.data) && env.inserted
      ensures copy < |world.dlqAcked| && (v.Stored? && env.ackApplied ==> world.dlqAcked[copy])
      ensures alone ==>
                && copy < |old(world).dlqAcked|
                && (world.dlqAcked[copy] <==> old(world).dlqAcked[copy] || (v.Stored? && env.ackApplied))
                && (forall k | 0 <= k < |old(world).dlqAcked| && k != copy ::
                      k < |world.dlqAcked| && world.dlqAcked[k] == old(world).dlqAcked[k])
                && |world.rows| == |old(world).rows| + (if Loadable(c.data) && env.inserted then 1 else 0)
                && world.dlq == old(world).dlq && world.tasks == old(world).tasks
                && world.retained == old(world).retained && world.log == old(world).log
    {
      hide Valid, Final, Reachable, InTable, RowFor, Storable, Apply, Enabled, Delay;
      WriteDecides(cfg, policy, c, number, metadata, env);
      ghost var before, x := world, Writer(copy, number, metadata, Persisting, None);
      StartAt(w, x, c);
      Others(before, w, x, c, false, false);
      if !Loadable(c.data) {
        v, last := Leave(false, before, w, x, c);
        return;
      }
      last := AddDeadLetter(env.inserted, env.raised, before, w, x, c);
      if if env.raised then env.rollbackRaised else env.closeRaised {
        v, last := Leave(env.inserted, before, w, last, c);
      } else if env.raised {
        v, last := RetryOrAbandon(number, metadata, env, before, w, last, c);
      } else {
        AckStored(env.ackApplied, before, w, last, c);
        v, last := Stored(RowFor(cfg, c), env.ackRaised), last.(pc := WriterEnded);
      }
    }

    /** `add_dead_letter` and the commit. */
    method AddDeadLetter(inserted: bool, raised: bool, ghost before: State, w: nat, ghost x: Writer, ghost c: Copy)
      returns (ghost last: Writer)
      requires At(before, w, x, c, false, false) && x.pc.Persisting? && x.row.None? && Loadable(c.data)
      requires (inserted || raised) && (inserted ==> Storable(RowFor(cfg, c)))
      modifies this
      ensures At(before, w, last, c, inserted, false) && last.copy == x.copy
      ensures last.pc == (if raised then NakingCopy else AckingCopy) && (last.row.Some? <==> inserted)
    {
      hide Valid, Final, Reachable, InTable, RowFor, Storable, Apply, Enabled, Effect;
      PersistSteps(cfg, world, w, x, c, inserted, raised);
      last := x.(pc := if raised then NakingCopy else AckingCopy,
                 row := if inserted then Some(|world.rows|) else None);
      Perform(Persist(w, inserted, raised), before, w, x, c, false, false, last, inserted, false);
    }

    method AckStored(applied: bool, ghost before: State, w: nat, ghost x: Writer, ghost c: Copy)
      requires At(before, w, x, c, x.row.Some?, false) && x.pc.AckingCopy?
      modifies this
      ensures At(before, w, x.(pc := WriterEnded), c, x.row.Some?, applied)
    {
      hide Valid, Final, Reachable, InTable, RowFor, Storable, Apply, Enabled, Effect;
      Others(before, w, x, c, x.row.Some?, false);
      AckSteps(cfg, world, w, x, c, applied);
      Perform(AckCopy(w, applied), before, w, x, c, x.row.Some?, false, x.(pc := WriterEnded), false, applied);
    }

    /** An exception leaves the call with the delivery neither acked nor naked. */
    method Leave(inserted: bool, ghost before: State, w: nat, ghost x: Writer, ghost c: Copy)
      returns (v: WriteVerdict, ghost last: Writer)
      requires At(before, w, x, c, inserted, false) && !x.pc.WriterEnded?
      modifies this
      ensures v == Left(inserted) && last == x.(pc := WriterEnded) && At(before, w, last, c, inserted, false)
    {
      hide Valid, Final, Reachable, InTable, RowFor, Storable, Apply, Enabled, Effect;
      v, last := Left(inserted), x.(pc := WriterEnded);
      LastSteps(cfg, world, w, x, c, CrashCopy(w));
      Perform(CrashCopy(w), before, w, x, c, inserted, false, last, false, false);
    }

    /** `_retry_or_abandon_dlq_message` */
    method RetryOrAbandon(number: nat, metadata: bool, env: WriteEnv,
                          ghost before: State, w: nat, ghost x: Writer, ghost c: Copy)
      returns (v: WriteVerdict, ghost last: Writer)
      requires At(before, w, x, c, x.row.Some?, false) && x.pc.NakingCopy?
      modifies this
      ensures v == Retry(cfg, policy, number, metadata, env)
      ensures At(before, w, last, c, x.row.Some?, false) && last == x.(pc := WriterEnded)
    {
      hide Valid, Final, Reachable, InTable, RowFor, Storable, Apply, Enabled, Effect, Delay;
      var delivered := NumDelivered(number, metadata, cfg.dlqMaxDeliver);
      var escaped := env.nakRaised || env.closeRaised;
      v := if delivered < cfg.dlqMaxDeliver then Retrying(Delay(policy, delivered), escaped) else GaveUp(escaped);
      last := x.(pc := WriterEnded);
      Others(before, w, x, c, x.row.Some?, false);
      LastSteps(cfg, world, w, x, c, NakCopy(w));
      Perform(NakCopy(w), before, w, x, c, x.row.Some?, false, last, false, false);
    }
  }
}
