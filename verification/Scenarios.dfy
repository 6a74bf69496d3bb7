/**
 Runs from start-up that show a bound to be the best possible, or a hypothesis to be needed: a stopped worker
 that goes on pushing, and a stale error that stops the wrong worker.
 */
module Scenarios {
  import opened GoTypes
  import opened Ams
  import opened Wire
  import opened Protocol
  import opened Pacing
  import opened Stopping
  import opened Pipeline
  import opened Fleet
  import Cycles
  import Registry
  import RetryPolicies
  import Service

  // ----------------------------------------------------------------- pushes that find nothing

  /** One more push of a worker at its select, once its timer is due. */
  function IdleList(c: Config): seq<Event>
  {
    [TimerFired, TickTaken, Pulled(c.consumer.fullSub, c.Max(), PullFailed(NoNewMessages)), TimerReset]
  }

  function AfterIdle(l: Local, t: int): Local
  {
    var p := RetryPolicies.AfterReset(l.policy, l.pushErr.Some?);
    l.(policy := p, verdicts := l.verdicts + [Idle], starts := l.starts + [t],
       timer := RetryPolicies.TimerState(Some(t + p.Interval()), false))
  }

  predicate Armed(l: Local) { l.phase.Selecting? && l.timer.deadline.Some? && !l.timer.tick }

  /** Appended to a trace, it is prompt if the deadline is. */
  lemma IdleAppended(c: Config, l: Local, tr: seq<Timed>, d: nat)
    requires Run(c, l, tr).Some? && Armed(Run(c, l, tr).value) && Prompt(c, l, tr, d)
    requires LastReset(tr).Some? ==> Run(c, l, tr).value.timer.deadline.value <= LastReset(tr).value + d
    ensures var m := Run(c, l, tr).value;
            var t := m.timer.deadline.value;
            && Run(c, l, tr + Stamped(t, IdleList(c))) == Some(AfterIdle(m, t))
            && Prompt(c, l, tr + Stamped(t, IdleList(c)), d)
            && Pushes(tr + Stamped(t, IdleList(c))) == Pushes(tr) + 1
            && LastReset(tr + Stamped(t, IdleList(c))) == Some(t)
  {
    hide Run, Prompt, Pushes, LastReset;
    var m := Run(c, l, tr).value;
    var t := m.timer.deadline.value;
    var es := Stamped(t, IdleList(c));
    var tr1, tr2, tr3 := tr + [es[0]], tr + [es[0]] + [es[1]], tr + [es[0]] + [es[1]] + [es[2]];
    RunSnoc(c, l, tr, es[0]);
    PromptSnoc(c, l, tr, es[0], d);
    RunSnoc(c, l, tr1, es[1]);
    PromptSnoc(c, l, tr1, es[1], d);
    RunSnoc(c, l, tr2, es[2]);
    PromptSnoc(c, l, tr2, es[2], d);
    RunSnoc(c, l, tr3, es[3]);
    PromptSnoc(c, l, tr3, es[3], d);
    assert tr3 + [es[3]] == tr + es;
  }

  /** The steps of the service for it. */
  function IdleSteps(c: Config, i: nat, wait: nat): seq<Step>
  {
    [Advance(wait)] + OwnSteps(i, IdleList(c))
  }

  lemma IdleRun(s: System, i: nat, l: Local, r: Calls, f: Feed)
    requires i < |s.workers| && Armed(l) && s.now <= l.timer.deadline.value
    ensures var t, c := l.timer.deadline.value, s.workers[i].config;
            RunSteps(Cycles.Put(s, i, l, r, f), IdleSteps(c, i, t - s.now))
            == Some(Cycles.Put(s.(now := t), i, AfterIdle(l, t), r.(asked := f.committed), f))
  {
    hide RunSteps, Cycles.Put;
    var t, c := l.timer.deadline.value, s.workers[i].config;
    var p, pull, m := Cycles.Put(s, i, l, r, f), PullFailed(NoNewMessages), Cycles.Began(l, t);
    Cycles.PullWithRun(s, i, l, r, f, t, pull);
    var u := Cycles.Put(s.(now := t), i, Finish(m, Idle), r.(asked := f.committed), f);
    Cycles.StepPut(s.(now := t), i, Finish(m, Idle), r.(asked := f.committed), f, TimerReset);
    assert IdleSteps(c, i, t - s.now) == Cycles.PullWith(c, i, t - s.now, pull) + [WorkerStep(i, TimerReset)];
    RunStepsConcat(p, Cycles.PullWith(c, i, t - s.now, pull), [WorkerStep(i, TimerReset)]);
    assert [WorkerStep(i, TimerReset)] + [] == [WorkerStep(i, TimerReset)];
    RunStepsFirst(u, WorkerStep(i, TimerReset), []);
    Cycles.RunNothing(Cycles.Put(s.(now := t), i, AfterIdle(l, t), r.(asked := f.committed), f));
  }

  lemma IdleRunEvents(s: System, i: nat, l: Local, r: Calls, f: Feed)
    requires i < |s.workers| && Armed(l) && s.now <= l.timer.deadline.value
    ensures var t, c, p := l.timer.deadline.value, s.workers[i].config, Cycles.Put(s, i, l, r, f);
            && i < |p.workers| && RunSteps(p, IdleSteps(c, i, t - s.now)).Some?
            && EventsOfRun(p, IdleSteps(c, i, t - s.now), i) == Stamped(t, IdleList(c))
  {
    hide Apply, RunSteps, IdleList;
    var t, c, p := l.timer.deadline.value, s.workers[i].config, Cycles.Put(s, i, l, r, f);
    IdleRun(s, i, l, r, f);
    Cycles.AdvancePut(s, i, l, r, f, t - s.now);
    var q := Cycles.Put(s.(now := t), i, l, r, f);
    RunStepsFirst(p, Advance(t - s.now), OwnSteps(i, IdleList(c)));
    OwnEvents(q, i, IdleList(c));
    AdvanceEvents(p, t - s.now, i, OwnSteps(i, IdleList(c)));
  }

  lemma AdvanceEvents(s: System, d: nat, i: nat, rest: seq<Step>)
    requires i < |s.workers| && RunSteps(s, [Advance(d)] + rest).Some?
    ensures RunSteps(s.(now := s.now + d), rest).Some?
    ensures EventsOfRun(s, [Advance(d)] + rest, i) == EventsOfRun(s.(now := s.now + d), rest, i)
  {
    assert ([Advance(d)] + rest)[1..] == rest;
  }

  /** A worker without a retained error, whose policy was not told one. */
  predicate Calm(l: Local) { Armed(l) && l.pushErr.None? && !l.policy.Flagged() && l.policy.Valid() }

  function IdlePolicy(p: RetryPolicies.PolicyState, k: nat): RetryPolicies.PolicyState
  {
    if k == 0 then p else RetryPolicies.AfterReset(IdlePolicy(p, k - 1), false)
  }

  /** What k such pushes leave, and that they are prompt if delays may reach the interval in force. */
  predicate Pushed(s: System, i: nat, l: Local, steps: seq<Step>, k: nat, d: nat, t: int, m: Local)
    requires i < |s.workers| && RunSteps(s, steps).Some?
  {
    var c, tr := s.workers[i].config, EventsOfRun(s, steps, i);
    && Run(c, l, tr) == Some(m) && Pushes(tr) == k
    && Calm(m) && t <= m.timer.deadline.value && m.policy == IdlePolicy(l.policy, k)
    && m.policy.Interval() <= l.policy.Interval() && m.cancelled == l.cancelled
    && (l.policy.Interval() <= d ==>
          && Prompt(c, l, tr, d)
          && (LastReset(tr).Some? ==> m.timer.deadline.value <= LastReset(tr).value + d))
  }

  function DeadlineOf(s: System, i: nat, l: Local, steps: seq<Step>, k: nat, d: nat, t: int, m: Local): (at: int)
    requires i < |s.workers| && RunSteps(s, steps).Some? && Pushed(s, i, l, steps, k, d, t, m)
    ensures Armed(m) && t <= at == m.timer.deadline.value
  {
    m.timer.deadline.value
  }

  lemma IdleAppendedAnyhow(c: Config, l: Local, tr: seq<Timed>)
    requires Run(c, l, tr).Some? && Armed(Run(c, l, tr).value)
    ensures var m := Run(c, l, tr).value;
            var t := m.timer.deadline.value;
            && Run(c, l, tr + Stamped(t, IdleList(c))) == Some(AfterIdle(m, t))
            && Pushes(tr + Stamped(t, IdleList(c))) == Pushes(tr) + 1
  {
    hide Run, Pushes;
    var m := Run(c, l, tr).value;
    var t := m.timer.deadline.value;
    RunNone(c, m);
    PromptBeforeReset(c, m, [], 0);
    assert Pushes([]) == 0 by { NoPushIn([]); }
    IdleAppended(c, m, [], 0);
    assert [] + Stamped(t, IdleList(c)) == Stamped(t, IdleList(c));
    RunConcat(c, l, tr, Stamped(t, IdleList(c)));
    PushesConcat(tr, Stamped(t, IdleList(c)));
  }

  lemma PushedOnce(s: System, i: nat, l: Local, steps: seq<Step>, idle: seq<Step>, k: nat, d: nat, t: int, m: Local)
    requires i < |s.workers| && RunSteps(s, steps).Some? && Pushed(s, i, l, steps, k, d, t, m)
    requires RunSteps(s, steps + idle).Some? && l.policy.Valid()
    requires EventsOfRun(s, steps + idle, i)
          == EventsOfRun(s, steps, i) + Stamped(m.timer.deadline.value, IdleList(s.workers[i].config))
    ensures var at := m.timer.deadline.value;
            Pushed(s, i, l, steps + idle, k + 1, d, at, AfterIdle(m, at))
  {
    hide Run, Prompt, Pushes, LastReset, RunSteps, EventsOfRun, IdleList, Stamped;
    var c, tr, at := s.workers[i].config, EventsOfRun(s, steps, i), m.timer.deadline.value;
    if l.policy.Interval() <= d {
      IdleAppended(c, l, tr, d);
    } else {
      IdleAppendedAnyhow(c, l, tr);
    }
  }

  lemma OneMoreIdle(s: System, i: nat, l: Local, r: Calls, f: Feed, steps: seq<Step>, k: nat, d: nat,
                    t: int, m: Local, q: Calls)
    requires i < |s.workers| && i < |Cycles.Put(s, i, l, r, f).workers| && l.policy.Valid()
    requires RunSteps(Cycles.Put(s, i, l, r, f), steps) == Some(Cycles.Put(s.(now := t), i, m, q, f))
    requires Pushed(Cycles.Put(s, i, l, r, f), i, l, steps, k, d, t, m)
    ensures var p, at := Cycles.Put(s, i, l, r, f), DeadlineOf(Cycles.Put(s, i, l, r, f), i, l, steps, k, d, t, m);
            var more := steps + IdleSteps(s.workers[i].config, i, at - t);
            && RunSteps(p, more) == Some(Cycles.Put(s.(now := at), i, AfterIdle(m, at), q.(asked := f.committed), f))
            && Pushed(p, i, l, more, k + 1, d, at, AfterIdle(m, at))
  {
    hide Cycles.Put, RunSteps, Pushed, EventsOfRun, IdleSteps, IdleList, AfterIdle, Stamped, Apply;
    var p, u := Cycles.Put(s, i, l, r, f), s.(now := t);
    var at := DeadlineOf(p, i, l, steps, k, d, t, m);
    var idle := IdleSteps(s.workers[i].config, i, at - t);
    IdleRun(u, i, m, q, f);
    IdleRunEvents(u, i, m, q, f);
    EventsOfConcat(p, steps, idle, i);
    Cycles.AdvancePut(s, i, l, r, f, 0);
    PushedOnce(p, i, l, steps, idle, k, d, t, m);
  }

  lemma {:induction false} IdlePushes(s: System, i: nat, l: Local, r: Calls, f: Feed, k: nat, d: nat)
    returns (steps: seq<Step>, t: int, m: Local, q: Calls)
    requires i < |s.workers| && Calm(l) && s.now <= l.timer.deadline.value
    ensures RunSteps(Cycles.Put(s, i, l, r, f), steps) == Some(Cycles.Put(s.(now := t), i, m, q, f))
    ensures i < |Cycles.Put(s, i, l, r, f).workers| && Pushed(Cycles.Put(s, i, l, r, f), i, l, steps, k, d, t, m)
    decreases k
  {
    Cycles.AdvancePut(s, i, l, r, f, 0);
    if k == 0 {
      steps, t, m, q := [], s.now, l, r;
    } else {
      hide Cycles.Put, RunSteps, Pushed, EventsOfRun, IdleSteps, AfterIdle, Apply;
      var steps', t', m', q' := IdlePushes(s, i, l, r, f, k - 1, d);
      t := DeadlineOf(Cycles.Put(s, i, l, r, f), i, l, steps', k - 1, d, t', m');
      steps := steps' + IdleSteps(s.workers[i].config, i, t - t');
      m, q := AfterIdle(m', t), q'.(asked := f.committed);
      OneMoreIdle(s, i, l, r, f, steps', k - 1, d, t', m', q');
    }
  }

  // ----------------------------------------------------------------- how a worker of any run stops

  /** In this run worker i, with the given settings, is stopped after before, and after is prompt within d. */
  ghost predicate StoppedRun(host: string, now: int, skip: bool, before: seq<Step>, after: seq<Step>,
                             i: nat, sub: Subscription, d: nat)
  {
    && RunSteps(Init(host, now, skip), before).Some?
    && var s := RunSteps(Init(host, now, skip), before).value;
       && i < |s.workers| && s.workers[i].config == Configure(sub, host) && s.workers[i].local.cancelled
       && RunSteps(s, after).Some?
       && Prompt(s.workers[i].config, s.workers[i].local, EventsOfRun(s, after, i), d)
  }

  ghost function PushesAfter(host: string, now: int, skip: bool, before: seq<Step>, after: seq<Step>,
                             i: nat, sub: Subscription, d: nat): nat
    requires StoppedRun(host, now, skip, before, after, i, sub, d)
  {
    Pushes(EventsOfRun(RunSteps(Init(host, now, skip), before).value, after, i))
  }

  /** However it is stopped, a worker with these settings begins at most one more push. */
  ghost predicate AlwaysStops(host: string, sub: Subscription, d: nat)
  {
    forall now, skip, before, after, i :: StoppedRun(host, now, skip, before, after, i, sub, d) ==>
      PushesAfter(host, now, skip, before, after, i, sub, d) <= 1
  }

  function PolicyOf(sub: Subscription): RetryPolicies.PolicyState
    requires Service.Pushable(sub)
  {
    RetryPolicies.Initial(sub.pushConfig.retryPolicy).value.0
  }

  /** After two pushes without error slow start is at its shortest interval; a linear policy always is. */
  lemma ShortestAfterTwo(sub: Subscription)
    requires Service.Pushable(sub)
    ensures IdlePolicy(PolicyOf(sub), 2).Interval() == Shortest(PolicyOf(sub))
    ensures !PolicyOf(sub).Flagged() && PolicyOf(sub).Valid()
  {
    assert IdlePolicy(PolicyOf(sub), 0) == PolicyOf(sub);
    assert IdlePolicy(PolicyOf(sub), 1) == RetryPolicies.AfterReset(PolicyOf(sub), false);
  }

  const SOME_MESSAGE: Message := Message("", map[], [], "")

  /** The service after start-up and two pushes of its only worker. */
  lemma TwoPushes(host: string, now: int, sub: Subscription) returns (steps: seq<Step>, s: System, l: Local, q: Calls)
    requires Service.Pushable(sub)
    ensures RunSteps(Init(host, now, false), steps) == Some(s)
    ensures |s.workers| == 1 && s.workers[0] == Worker(Configure(sub, host), l, q)
    ensures Calm(l) && s.now <= l.timer.deadline.value && l.policy.Interval() == Shortest(PolicyOf(sub))
    ensures s.registry == map[sub.fullName := 0] && s.status == Service.Ok && sub.fullName in s.feeds
  {
    hide RunSteps, Configure, Pushed, IdlePolicy;
    var p := Cycles.Prepared(host, now, sub, SOME_MESSAGE);
    Cycles.PrepareRun(host, now, sub, SOME_MESSAGE);
    ShortestAfterTwo(sub);
    var w := p.workers[0];
    var f := p.FeedOf(sub.fullName);
    Cycles.ServesSub(host, sub);
    Cycles.PutItself(p, 0);
    assert Calm(w.local) && p.now <= w.local.timer.deadline.value;
    var idle, t, m, r := IdlePushes(p, 0, w.local, w.calls, f, 2, 0);
    CalmAfter(p, 0, w.local, idle, 2, 0, t, m);
    steps := Cycles.PrepareSteps(sub, SOME_MESSAGE) + idle;
    RunStepsConcat(Init(host, now, false), Cycles.PrepareSteps(sub, SOME_MESSAGE), idle);
    s, l, q := Cycles.Put(p.(now := t), 0, m, r, f), m, r;
  }

  lemma CalmAfter(s: System, i: nat, l: Local, steps: seq<Step>, k: nat, d: nat, t: int, m: Local)
    requires i < |s.workers| && RunSteps(s, steps).Some? && Pushed(s, i, l, steps, k, d, t, m)
    ensures Calm(m) && t <= m.timer.deadline.value && m.policy == IdlePolicy(l.policy, k)
  {
  }

  /** Once delays may reach the shortest interval, a stopped worker can begin any number of pushes. */
  lemma AnyNumberOfPushes(host: string, now: int, sub: Subscription, k: nat, d: nat)
    returns (before: seq<Step>, after: seq<Step>)
    requires Service.Pushable(sub) && Shortest(PolicyOf(sub)) <= d
    ensures StoppedRun(host, now, false, before, after, 0, sub, d)
    ensures PushesAfter(host, now, false, before, after, 0, sub, d) == k
  {
    hide RunSteps, Configure, EventsOfRun, Prompt, Pushes, Cycles.Put;
    var steps, s, l, q := TwoPushes(host, now, sub);
    var stop := Rpc(DeactivateCall(sub.fullName));
    var u := Deactivate(s, sub.fullName);
    assert Apply(s, stop) == Some(u);
    RunStepsFirst(s, stop, []);
    Cycles.RunNothing(u);
    assert [stop] + [] == [stop];
    RunStepsConcat(Init(host, now, false), steps, [stop]);
    before := steps + [stop];
    var m := l.(cancelled := true);
    assert u.workers[0] == Worker(Configure(sub, host), m, q);
    Cycles.ServesSub(host, sub);
    Cycles.PutItself(u, 0);
    var t, n, r;
    after, t, n, r := IdlePushes(u, 0, m, q, u.FeedOf(sub.fullName), k, d);
  }

  /**
   Exactly which delays are short enough: whatever happens, a stopped worker begins at most one more push if
   and only if the delays between its Resets and the selects after them stay below the shortest interval of
   its policy, 300 ms or the period. With a linear policy of period 0 none does.
   */
  lemma StopsInEveryRun(host: string, sub: Subscription, d: nat)
    requires Service.Pushable(sub)
    ensures var rp := sub.pushConfig.retryPolicy;
            AlwaysStops(host, sub, d) <==>
            d < if rp.kind == "slowstart" then 300_000_000 else rp.period as int * 1_000_000
  {
    RetryPolicies.InitialByKind(sub.pushConfig.retryPolicy);
    hide RunSteps, EventsOfRun, Prompt, Pushes;
    if d < Shortest(PolicyOf(sub)) {
      forall now, skip, before, after, i | StoppedRun(host, now, skip, before, after, i, sub, d)
        ensures PushesAfter(host, now, skip, before, after, i, sub, d) <= 1
      {
        NextIsLong(host, now, skip, before, i);
        StopsSoon(host, now, skip, before, after, i, d);
      }
    } else {
      var before, after := AnyNumberOfPushes(host, 0, sub, 2, d);
      assert StoppedRun(host, 0, false, before, after, 0, sub, d);
    }
  }

  // ----------------------------------------------------------------- a stale error

  /** The service after start-up, its only worker blocked with an error. */
  lemma BlockedRun(host: string, now: int, sub: Subscription) returns (steps: seq<Step>, s: System)
    requires Service.Pushable(sub)
    ensures RunSteps(Init(host, now, false), steps) == Some(s)
    ensures |s.workers| == 1 && s.workers[0].config == Configure(sub, host) && s.workers[0].local.phase.Blocked?
    ensures s.registry == map[sub.fullName := 0] && s.status == Service.Ok && s.handling.None? && s.host == host
  {
    hide RunSteps, Configure, Cycles.Put;
    var p := Cycles.Prepared(host, now, sub, SOME_MESSAGE);
    Cycles.PrepareRun(host, now, sub, SOME_MESSAGE);
    Cycles.ServesSub(host, sub);
    Cycles.PutItself(p, 0);
    var w, f := p.workers[0], p.FeedOf(sub.fullName);
    var c, t, gone := w.config, w.local.timer.deadline.value, PullFailed(SubscriptionNotFound);
    Cycles.PullWithRun(p, 0, w.local, w.calls, f, t, gone);
    var more := Cycles.PullWith(c, 0, t - now, gone);
    RunStepsConcat(Init(host, now, false), Cycles.PrepareSteps(sub, SOME_MESSAGE), more);
    steps := Cycles.PrepareSteps(sub, SOME_MESSAGE) + more;
    s := RunSteps(p, more).value;
    BlockedPut(p.(now := t), Cycles.Began(w.local, t), w.calls.(asked := f.committed), f);
  }

  lemma BlockedPut(s: System, l: Local, r: Calls, f: Feed)
    requires |s.workers| == 1
    ensures var c := s.workers[0].config;
            var m := AfterPull(c, l, PullFailed(SubscriptionNotFound));
            var u := Cycles.Put(s, 0, m, r, f);
            && |u.workers| == 1 && u.workers[0].config == c && u.workers[0].local == m && m.phase.Blocked?
            && u.registry == s.registry && u.status == s.status && u.handling == s.handling && u.host == s.host
  {
  }

  /**
   From start-up, for any settings: a run in which the handler stops a worker that never raised an error, nor
   began a push, because the worker before it under that name had.
   */
  lemma StaleErrorRun(host: string, now: int, sub: Subscription) returns (steps: seq<Step>)
    requires Service.Pushable(sub)
    ensures var t := RunSteps(Init(host, now, false), steps);
            && t.Some? && |t.value.workers| == 2
            && t.value.workers[1].config == Configure(sub, host) && t.value.workers[1].local.cancelled
            && t.value.workers[1].local.starts == [] && sub.fullName !in t.value.registry
  {
    hide RunSteps, Registry.RosterInv, FleetInv, Configure;
    var first, s := BlockedRun(host, now, sub);
    NothingYet(host, now, false);
    Registry.RunKeepsRoster(Init(host, now, false), first);
    RunKeepsFleet(Init(host, now, false), first);
    Cycles.ServesSub(host, sub);
    StaleErrorStopsReplacement(s, 0, Service.Complete(sub));
    var rest := [Rpc(DeactivateCall(sub.fullName)), Rpc(ActivateCall(Service.Complete(sub))),
                 HandlerReceives(0), HandlerStops];
    RunStepsConcat(Init(host, now, false), first, rest);
    steps := first + rest;
  }
}
