/** With working broker calls, the consumer and the broker's redelivery implement a simple rule. */
module ConsumerRefinement {
  import opened Consumer
  import opened Delivery
  import opened DeliverySafety
  import opened Runs
  import opened Subjects
  import opened Wire

  /** Every broker call works and is applied. */
  function Working(handlers: seq<bool>): Env {
    Env(true, handlers, "handler failed", true, false, true, false, true, false, false)
  }

  datatype Outcome = Outcome(deliveries: nat, handlersRun: nat, copies: seq<Copy>, released: bool)

  /** The broker delivers a message until it is acked or its deliveries are used up; `attempts[n - 1]`
      says how the handlers fare at delivery `n`. */
  function Consume(cfg: Config, m: Message, attempts: seq<seq<bool>>, number: nat, runs: nat,
      copies: seq<Copy>): Outcome
    requires 1 <= number <= cfg.maxDeliver <= |attempts|
    requires forall a | a in attempts :: |a| == Handlers(cfg, m)
    decreases cfg.maxDeliver - number
  {
    var v := Handle(cfg, m, number, true, Working(attempts[number - 1]));
    var copies' := copies + if v.copy.Some? then [v.copy.value] else [];
    if v.released || number == cfg.maxDeliver then Outcome(number, runs + v.handlersRun, copies', v.released)
    else Consume(cfg, m, attempts, number + 1, runs + v.handlersRun, copies')
  }

  predicate AllOk(outcomes: seq<bool>) { forall i | 0 <= i < |outcomes| :: outcomes[i] }

  /** The first delivery at which every handler succeeds, counting from `number`. */
  function FirstSuccess(attempts: seq<seq<bool>>, number: nat, limit: nat): (k: Option<nat>)
    requires 1 <= number && limit <= |attempts|
    ensures k.Some? ==> number <= k.value <= limit && AllOk(attempts[k.value - 1])
    ensures k.Some? ==> forall i | number - 1 <= i < k.value - 1 :: !AllOk(attempts[i])
    ensures k.None? ==> forall i | number - 1 <= i < limit :: !AllOk(attempts[i])
    decreases limit + 1 - number
  {
    if number > limit then None
    else if AllOk(attempts[number - 1]) then Some(number)
    else FirstSuccess(attempts, number + 1, limit)
  }

  /** How many handlers complete over the first `n` deliveries: at each, those before the first that fails. */
  function RunsUpTo(attempts: seq<seq<bool>>, total: nat, n: nat): nat
    requires n <= |attempts| && forall a | a in attempts :: |a| == total
  {
    if n == 0 then 0 else RunsUpTo(attempts, total, n - 1) + Completed(attempts[n - 1], total)
  }

  lemma HandledOnce(cfg: Config, m: Message, number: nat, outcomes: seq<bool>)
    requires 1 <= number <= cfg.maxDeliver && Decodable(cfg, m) && |outcomes| == Handlers(cfg, m)
    ensures var v := Handle(cfg, m, number, true, Working(outcomes));
            && v.handlersRun == Completed(outcomes, Handlers(cfg, m))
            && v.released == (AllOk(outcomes) || number == cfg.maxDeliver)
            && v.copy == (if AllOk(outcomes) || number < cfg.maxDeliver then None
                          else Some(DeadLetter(cfg, m, "handler failed", cfg.maxDeliver)))
  {
    assert Loadable(m.data);
    var done := Completed(outcomes, Handlers(cfg, m));
    assert AllOk(outcomes) <==> done == |outcomes|;
  }

  lemma {:induction false} DecodableConsumed(
    cfg: Config, m: Message, attempts: seq<seq<bool>>, number: nat, runs: nat, copies: seq<Copy>)
    requires 1 <= number <= cfg.maxDeliver <= |attempts|
    requires forall a | a in attempts :: |a| == Handlers(cfg, m)
    requires Decodable(cfg, m) && runs == RunsUpTo(attempts, Handlers(cfg, m), number - 1)
    ensures var o := Consume(cfg, m, attempts, number, runs, copies);
            && o.released && o.deliveries <= |attempts|
            && o.handlersRun == RunsUpTo(attempts, Handlers(cfg, m), o.deliveries)
            && match FirstSuccess(attempts, number, cfg.maxDeliver)
               case Some(k) => o.deliveries == k && o.copies == copies
               case None =>
                 && o.deliveries == cfg.maxDeliver
                 && o.copies == copies + [DeadLetter(cfg, m, "handler failed", cfg.maxDeliver)]
    decreases cfg.maxDeliver - number
  {
    hide Handle, Decodable, Completed;
    var outcomes := attempts[number - 1];
    HandledOnce(cfg, m, number, outcomes);
    var v := Handle(cfg, m, number, true, Working(outcomes));
    assert copies + [] == copies;
    if !AllOk(outcomes) && number < cfg.maxDeliver {
      DecodableConsumed(cfg, m, attempts, number + 1, runs + v.handlersRun, copies);
    }
  }

  lemma {:induction false} UnloadableConsumed(cfg: Config, m: Message, attempts: seq<seq<bool>>, number: nat)
    requires 1 <= number <= cfg.maxDeliver <= |attempts|
    requires forall a | a in attempts :: |a| == Handlers(cfg, m)
    requires !Loadable(m.data)
    ensures Consume(cfg, m, attempts, number, 0, []) == Outcome(cfg.maxDeliver, 0, [], false)
    decreases cfg.maxDeliver - number
  {
    var none: seq<Copy> := [];
    assert none + [] == none;
    if number < cfg.maxDeliver {
      UnloadableConsumed(cfg, m, attempts, number + 1);
    }
  }

  /** The simple rule: a decodable message is acked at the first delivery k <= M whose handlers all succeed,
      with no dead letter, and otherwise gets exactly one dead letter, with count M; at each delivery the
      handlers before the first that fails run, and no others. An undecodable message gets exactly one dead
      letter at its first delivery and no handler runs. One the JSON loader gives up on ends a consumer loop
      at each of its M deliveries and stays in the work queue; nothing else does. */
  lemma ConsumerRefinesRule(cfg: Config, m: Message, attempts: seq<seq<bool>>)
    requires 1 <= cfg.maxDeliver <= |attempts|
    requires forall a | a in attempts :: |a| == Handlers(cfg, m)
    ensures var o := Consume(cfg, m, attempts, 1, 0, []);
            (o.released <==> Loadable(m.data)) &&
            if !Loadable(m.data) then o == Outcome(cfg.maxDeliver, 0, [], false)
            else if !Decodable(cfg, m) then
              && (o.deliveries, o.handlersRun, o.released) == (1, 0, true)
              && o.copies == [Copy(DlqSubject(cfg.prefixes, m.subject), m.data,
                                   Headers(Some("EventSerializationError"), Some(m.subject), Some(1)))]
            else
              && o.deliveries <= |attempts|
              && o.handlersRun == RunsUpTo(attempts, Handlers(cfg, m), o.deliveries)
              && match FirstSuccess(attempts, 1, cfg.maxDeliver)
                 case Some(k) => o.deliveries == k && o.copies == []
                 case None =>
                   && o.deliveries == cfg.maxDeliver
                   && o.copies == [Copy(DlqSubject(cfg.prefixes, m.subject), m.data,
                                        Headers(Some("handler failed"), Some(m.subject), Some(cfg.maxDeliver)))]
  {
    if !Loadable(m.data) {
      UnloadableConsumed(cfg, m, attempts, 1);
    } else if Decodable(cfg, m) {
      hide Handle, FirstSuccess, RunsUpTo, Decodable;
      NoRunsYet(attempts, Handlers(cfg, m));
      DecodableConsumed(cfg, m, attempts, 1, 0, []);
      assert [] + [DeadLetter(cfg, m, "handler failed", cfg.maxDeliver)] ==
             [DeadLetter(cfg, m, "handler failed", cfg.maxDeliver)];
    }
  }

  lemma NoRunsYet(attempts: seq<seq<bool>>, total: nat)
    requires forall a | a in attempts :: |a| == total
    ensures RunsUpTo(attempts, total, 0) == 0
  {
  }

  /** How many handlers have completed over all deliveries. */
  ghost function HandlersRun(tasks: seq<Task>): nat {
    Sum((t: Task) => t.done, tasks)
  }

  lemma OneMoreTask(tasks: seq<Task>, t: Task)
    ensures HandlersRun(tasks + [t]) == HandlersRun(tasks) + t.done
  {
    SumAppend((x: Task) => x.done, tasks, t);
  }

  /** The streams after `n` finished deliveries of the only message, in which `runs` handlers completed. */
  ghost predicate Standing(
    cfg: Config, s: State, m: Message, n: nat, copies: seq<Copy>, released: bool, runs: nat)
  {
    && Reachable(cfg, s) && HandlersRun(s.tasks) == runs
    && s.log == [m] && s.retained == [!released] && s.delivered == [n] && s.dlq == copies
    && |s.tasks| == n && forall j | 0 <= j < n :: s.tasks[j].pc.Ended?
  }

  function With(s: State, n: nat, t: Task): State {
    s.(delivered := [n], tasks := s.tasks + [t])
  }

  /** Task `t` is under way, in the `n`-th delivery. */
  ghost predicate UnderWay(cfg: Config, s: State, m: Message, n: nat, t: Task) {
    && n >= 1 && Standing(cfg, s, m, n - 1, [], false, HandlersRun(s.tasks)) && Reachable(cfg, With(s, n, t))
    && t.id == 0 && t.number == n && t.metadata && t.copy.None?
    && s.dlqFrom == [] && s.dlqDelivered == [] && s.dlqAcked == []
  }

  lemma Go(cfg: Config, s: State, l: Step, t: State)
    requires Reachable(cfg, s) && Enabled(cfg, s, l) && Apply(cfg, s, l) == t
    ensures Reachable(cfg, t)
  {
    ReachesStep(Pipeline(cfg), Empty(), s, l);
  }

  lemma Delivered(cfg: Config, s: State, m: Message, n: nat)
    requires 1 <= n <= cfg.maxDeliver && Standing(cfg, s, m, n - 1, [], false, HandlersRun(s.tasks))
        && m.subject in cfg.handlers
    ensures UnderWay(cfg, s, m, n, Task(0, n, true, 0, Received, None))
  {
    ReachableOk(cfg, s);
    hide Reachable, Inv;
    Go(cfg, s, Deliver(0, true), With(s, n, Task(0, n, true, 0, Received, None)));
  }

  lemma Parsed(cfg: Config, s: State, m: Message, n: nat)
    requires UnderWay(cfg, s, m, n, Task(0, n, true, 0, Received, None))
    ensures var t := Task(0, n, true, 0, Received, None);
            UnderWay(cfg, s, m, n, t.(pc := ParsedPc(cfg, t, m)))
  {
    hide Reachable;
    var t := Task(0, n, true, 0, Received, None);
    var next := t.(pc := ParsedPc(cfg, t, m));
    assert (s.tasks + [t])[n - 1 := next] == s.tasks + [next];
    Go(cfg, With(s, n, t), Parse(n - 1), With(s, n, next));
  }

  lemma HandlerReturned(cfg: Config, s: State, m: Message, n: nat, done: nat)
    requires UnderWay(cfg, s, m, n, Task(0, n, true, done, Handling, None))
    ensures UnderWay(cfg, s, m, n, Task(0, n, true, done + 1, NextHandler(done + 1, Handlers(cfg, m)), None))
  {
    hide Reachable;
    var t := Task(0, n, true, done, Handling, None);
    var next := Task(0, n, true, done + 1, NextHandler(done + 1, Handlers(cfg, m)), None);
    assert (s.tasks + [t])[n - 1 := next] == s.tasks + [next];
    Go(cfg, With(s, n, t), HandlerOk(n - 1), With(s, n, next));
  }

  lemma {:induction false} HandlersReturned(cfg: Config, s: State, m: Message, n: nat, done: nat)
    requires UnderWay(cfg, s, m, n, Task(0, n, true, 0, NextHandler(0, Handlers(cfg, m)), None))
    requires done <= Handlers(cfg, m)
    ensures UnderWay(cfg, s, m, n, Task(0, n, true, done, NextHandler(done, Handlers(cfg, m)), None))
  {
    hide UnderWay;
    if done > 0 {
      HandlersReturned(cfg, s, m, n, done - 1);
      HandlerReturned(cfg, s, m, n, done - 1);
    }
  }

  lemma Acked(cfg: Config, s: State, m: Message, n: nat, done: nat) returns (t: State)
    requires UnderWay(cfg, s, m, n, Task(0, n, true, done, Acking, None))
    ensures Standing(cfg, t, m, n, [], true, HandlersRun(s.tasks) + done)
  {
    hide Reachable, HandlersRun;
    var x := Task(0, n, true, done, Acking, None);
    t := Apply(cfg, With(s, n, x), Ack(n - 1, true, false, ""));
    Go(cfg, With(s, n, x), Ack(n - 1, true, false, ""), t);
    assert t.tasks == s.tasks + [x.(pc := Ended)];
    OneMoreTask(s.tasks, x.(pc := Ended));
  }

  /** After the last delivery of a failing message, or the first of an undecodable one. */
  lemma DeadLettered(cfg: Config, s: State, m: Message, n: nat, done: nat, error: string, count: nat)
    returns (t: State)
    requires UnderWay(cfg, s, m, n, Task(0, n, true, done, DeadLettering(error, count), None))
    ensures Standing(cfg, t, m, n, [DeadLetter(cfg, m, error, count)], true, HandlersRun(s.tasks) + done)
  {
    hide Reachable, DeadLetter, HandlersRun;
    var x := Task(0, n, true, done, DeadLettering(error, count), None);
    var stored := Apply(cfg, With(s, n, x), DlqPublish(n - 1, true, false));
    Go(cfg, With(s, n, x), DlqPublish(n - 1, true, false), stored);
    t := Apply(cfg, stored, Confirm(n - 1, true));
    Go(cfg, stored, Confirm(n - 1, true), t);
    var last := t.tasks[n - 1];
    assert t.tasks == s.tasks + [last] && last.done == done;
    OneMoreTask(s.tasks, last);
  }

  lemma FailedOnce(cfg: Config, s: State, m: Message, n: nat, done: nat) returns (t: State)
    requires UnderWay(cfg, s, m, n, Task(0, n, true, done, Handling, None)) && n <= cfg.maxDeliver
    ensures Standing(cfg, t, m, n,
                     if n < cfg.maxDeliver then [] else [DeadLetter(cfg, m, "handler failed", n)],
                     n == cfg.maxDeliver, HandlersRun(s.tasks) + done)
  {
    hide Reachable, DeadLetter, HandlersRun;
    var x := Task(0, n, true, done, Handling, None);
    var failed := x.(pc := Failed("handler failed"));
    var next := x.(pc := if n < cfg.maxDeliver then Naking else DeadLettering("handler failed", n));
    assert (s.tasks + [x])[n - 1 := failed] == s.tasks + [failed];
    assert (s.tasks + [failed])[n - 1 := next] == s.tasks + [next];
    Go(cfg, With(s, n, x), HandlerRaise(n - 1, "handler failed"), With(s, n, failed));
    Go(cfg, With(s, n, failed), Triage(n - 1), With(s, n, next));
    if n < cfg.maxDeliver {
      t := Apply(cfg, With(s, n, next), Nak(n - 1));
      Go(cfg, With(s, n, next), Nak(n - 1), t);
      assert t.tasks == s.tasks + [next.(pc := Ended)];
      OneMoreTask(s.tasks, next.(pc := Ended));
    } else {
      t := DeadLettered(cfg, s, m, n, done, "handler failed", n);
    }
  }

  /** One delivery, as the pipeline runs it and as `Handle` says. */
  lemma Attempted(cfg: Config, s: State, m: Message, n: nat, outcomes: seq<bool>) returns (t: State)
    requires 1 <= n <= cfg.maxDeliver && Standing(cfg, s, m, n - 1, [], false, HandlersRun(s.tasks))
        && m.subject in cfg.handlers
    requires |outcomes| == Handlers(cfg, m)
    ensures var v := Handle(cfg, m, n, true, Working(outcomes));
            Standing(cfg, t, m, n, if v.copy.Some? then [v.copy.value] else [], v.released,
                     HandlersRun(s.tasks) + v.handlersRun)
    ensures var v := Handle(cfg, m, n, true, Working(outcomes)); v.copy.Some? ==> v.released
  {
    Delivered(cfg, s, m, n);
    Parsed(cfg, s, m, n);
    if !Loadable(m.data) {
      t := With(s, n, Task(0, n, true, 0, Ended, None));
      OneMoreTask(s.tasks, Task(0, n, true, 0, Ended, None));
    } else if !Decodable(cfg, m) {
      t := DeadLettered(cfg, s, m, n, 0, "EventSerializationError", n);
    } else {
      hide UnderWay, Standing, Decodable;
      var done := Completed(outcomes, Handlers(cfg, m));
      HandledOnce(cfg, m, n, outcomes);
      HandlersReturned(cfg, s, m, n, done);
      if done == Handlers(cfg, m) {
        assert AllOk(outcomes);
        t := Acked(cfg, s, m, n, done);
      } else {
        assert !AllOk(outcomes);
        t := FailedOnce(cfg, s, m, n, done);
      }
    }
  }

  lemma StandingRuns(cfg: Config, s: State, m: Message, n: nat, runs: nat)
    requires Standing(cfg, s, m, n, [], false, runs)
    ensures HandlersRun(s.tasks) == runs
  {
  }

  lemma {:induction false} ConsumeRuns(cfg: Config, m: Message, attempts: seq<seq<bool>>, n: nat, runs: nat, s: State)
    returns (t: State)
    requires 1 <= n <= cfg.maxDeliver <= |attempts| && m.subject in cfg.handlers
    requires forall a | a in attempts :: |a| == Handlers(cfg, m)
    requires Standing(cfg, s, m, n - 1, [], false, runs)
    ensures var o := Consume(cfg, m, attempts, n, runs, []);
            Standing(cfg, t, m, o.deliveries, o.copies, o.released, o.handlersRun)
    decreases cfg.maxDeliver - n
  {
    hide Handle, Standing, HandlersRun;
    var v := Handle(cfg, m, n, true, Working(attempts[n - 1]));
    StandingRuns(cfg, s, m, n - 1, runs);
    t := Attempted(cfg, s, m, n, attempts[n - 1]);
    assert [] + (if v.copy.Some? then [v.copy.value] else []) == if v.copy.Some? then [v.copy.value] else [];
    if !v.released && n < cfg.maxDeliver {
      t := ConsumeRuns(cfg, m, attempts, n + 1, runs + v.handlersRun, t);
    }
  }

  /** What the rule describes is a run of the pipeline: the streams themselves end up with that message
      delivered so often, released or retained, and with exactly those copies, and so many handlers completed. */
  lemma ConsumerRunsRule(cfg: Config, m: Message, attempts: seq<seq<bool>>) returns (s: State)
    requires ValidConfig(cfg) && m.subject in cfg.handlers && cfg.maxDeliver <= |attempts|
    requires forall a | a in attempts :: |a| == Handlers(cfg, m)
    ensures var o := Consume(cfg, m, attempts, 1, 0, []);
            Standing(cfg, s, m, o.deliveries, o.copies, o.released, o.handlersRun)
  {
    hide Valid, Final;
    ReachesRefl(Pipeline(cfg), Empty());
    s := Apply(cfg, Empty(), Accept(m));
    Go(cfg, Empty(), Accept(m), s);
    s := ConsumeRuns(cfg, m, attempts, 1, 0, s);
  }
}
