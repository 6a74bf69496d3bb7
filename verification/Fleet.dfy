/**
 All workers of a run together: what holds of each of them in every reachable state, and what the
 handler of the deactivation channel does to them.
 */
module Fleet {
  import opened GoTypes
  import opened Wire
  import opened Protocol
  import opened Pacing
  import opened Pipeline
  import opened Registry
  import opened Stopping
  import Consumers
  import RetryPolicies
  import Senders
  import Service

  /** The policy a worker started with, and the first interval of its timer. */
  function FirstPolicy(w: Worker): RetryPolicies.PolicyState { First(w).0 }

  function First(w: Worker): (RetryPolicies.PolicyState, int)
  {
    match RetryPolicies.Initial(w.config.sub.pushConfig.retryPolicy)
    case Some(rp) => rp
    case None => (RetryPolicies.FRESH, 0)
  }

  lemma FirstByKind(w: Worker)
    ensures w.Kind() == "slowstart" ==> First(w) == (RetryPolicies.FRESH, 1_000_000_000)
    ensures w.Kind() == "linear" ==>
              First(w) == (RetryPolicies.LinearState(w.config.sub.pushConfig.retryPolicy.period as int * 1_000_000), 0)
  {
    RetryPolicies.InitialByKind(w.config.sub.pushConfig.retryPolicy);
  }

  /**
   A worker blocked on the channel offers an error about the subscription it serves, and one that has left its
   loop was stopped.
   */
  predicate Identified(w: Worker)
  {
    && (w.local.phase.Blocked? ==> w.local.phase.error.resource == w.Name())
    && (w.local.phase.Draining? || w.local.phase.Done? ==> w.local.cancelled)
  }

  ghost predicate FleetInv(s: System)
  {
    forall i :: 0 <= i < |s.workers| ==>
      WorkerInv(FirstPolicy(s.workers[i]), s.workers[i].local, s.now) && Identified(s.workers[i])
  }

  lemma StepKeepsIdentity(c: Config, l: Local, now: int, e: Event)
    requires Next(c, l, now, e).Some?
    requires l.phase.Blocked? ==> l.phase.error.resource == c.consumer.fullSub
    requires l.phase.Draining? || l.phase.Done? ==> l.cancelled
    ensures var m := Next(c, l, now, e).value;
            && (m.phase.Blocked? ==> m.phase.error.resource == c.consumer.fullSub)
            && (m.phase.Draining? || m.phase.Done? ==> m.cancelled)
  {
  }

  /** Any step moves at most one worker, and only as the protocol allows, apart from time and cancellation. */
  ghost predicate WorkerMoves(s: System, t: System, i: nat)
    requires i < |s.workers| && i < |t.workers|
  {
    var w, v := s.workers[i], t.workers[i];
    && v.config == w.config
    && (v.local == w.local || v.local == w.local.(cancelled := true)
        || exists e :: Next(w.config, w.local, s.now, e) == Some(v.local))
  }

  lemma StepMovesWorker(s: System, st: Step, i: nat)
    requires Apply(s, st).Some? && i < |s.workers|
    ensures i < |Apply(s, st).value.workers| && WorkerMoves(s, Apply(s, st).value, i)
  {
    hide Issue, Allowed, Body, Track, LandPost, LandAck, Configure, Next, Service.Judge;
    var w, l := s.workers[i], Apply(s, st).value.workers[i].local;
    if st.WorkerStep? && st.i == i {
      assert Next(w.config, w.local, s.now, st.event) == Some(l);
    } else if st.HandlerReceives? && st.i == i {
      BlockedHandsOver(w.config, w.local, s.now);
      assert Next(w.config, w.local, s.now, ErrorHanded(w.local.phase.error)) == Some(l);
    }
  }

  lemma StepStartsFresh(s: System, st: Step)
    requires Apply(s, st).Some?
    ensures var t := Apply(s, st).value;
            && |s.workers| <= |t.workers| && s.now <= t.now
            && (forall i :: |s.workers| <= i < |t.workers| ==>
                  var w := t.workers[i]; w.local == Fresh(First(w).0, First(w).1, t.now))
            && (st.Advance? || t.now == s.now)
            && (st.Advance? ==> t.workers == s.workers)
  {
    hide Issue, Allowed, Body, Track, LandPost, LandAck, Next;
  }

  lemma StepMoves(s: System, st: Step)
    requires Apply(s, st).Some?
    ensures var t := Apply(s, st).value;
            && |s.workers| <= |t.workers| && s.now <= t.now
            && (forall i: nat :: i < |s.workers| ==> WorkerMoves(s, t, i))
            && (forall i :: |s.workers| <= i < |t.workers| ==>
                  var w := t.workers[i]; w.local == Fresh(First(w).0, First(w).1, t.now))
            && (st.Advance? || t.now == s.now)
            && (st.Advance? ==> t.workers == s.workers)
  {
    hide Apply, WorkerMoves;
    StepStartsFresh(s, st);
    forall i: nat | i < |s.workers| ensures WorkerMoves(s, Apply(s, st).value, i) { StepMovesWorker(s, st, i); }
  }

  lemma MoveKeepsInv(s: System, t: System, i: nat)
    requires i < |s.workers| && i < |t.workers| && WorkerMoves(s, t, i) && s.now <= t.now
    requires WorkerInv(FirstPolicy(s.workers[i]), s.workers[i].local, s.now) && Identified(s.workers[i])
    ensures WorkerInv(FirstPolicy(t.workers[i]), t.workers[i].local, t.now) && Identified(t.workers[i])
  {
    var w, v := s.workers[i], t.workers[i];
    var p0 := FirstPolicy(w);
    if v.local == w.local || v.local == w.local.(cancelled := true) {
      assert WorkerInv(p0, v.local, s.now);
    } else {
      var e :| Next(w.config, w.local, s.now, e) == Some(v.local);
      StepKeepsInv(w.config, p0, w.local, s.now, e);
      StepKeepsIdentity(w.config, w.local, s.now, e);
    }
    TimePasses(p0, v.local, s.now, t.now);
  }

  lemma StepKeepsFleet(s: System, st: Step)
    requires FleetInv(s) && Apply(s, st).Some?
    ensures FleetInv(Apply(s, st).value)
  {
    hide WorkerInv, WorkerMoves, Apply;
    var t := Apply(s, st).value;
    StepMoves(s, st);
    forall i | 0 <= i < |t.workers|
      ensures WorkerInv(FirstPolicy(t.workers[i]), t.workers[i].local, t.now) && Identified(t.workers[i])
    {
      if i < |s.workers| {
        MoveKeepsInv(s, t, i);
      } else {
        FreshHasInv(First(t.workers[i]).0, First(t.workers[i]).1, t.now);
      }
    }
  }

  lemma {:induction false} RunKeepsFleet(s: System, steps: seq<Step>)
    requires FleetInv(s) && RunSteps(s, steps).Some?
    ensures FleetInv(RunSteps(s, steps).value)
    decreases |steps|
  {
    if steps == [] {
    } else {
      StepKeepsFleet(s, steps[0]);
      RunKeepsFleet(Apply(s, steps[0]).value, steps[1..]);
    }
  }

  // ----------------------------------------------------------------- every worker of every run

  /**
   In every run the timer of every worker holds exactly one token at the select, so that a drain never
   blocks; pushErr is the error of the last decisive cycle; and outside a Reset the policy is what it makes
   of the retained verdicts: for slow start the closed form, whose flag agrees with pushErr, and for a
   linear policy the period.
   */
  lemma WorkersOfEveryRun(host: string, now: int, skip: bool, steps: seq<Step>, i: nat)
    requires RunSteps(Init(host, now, skip), steps).Some?
    requires i < |RunSteps(Init(host, now, skip), steps).value.workers|
    ensures var w := RunSteps(Init(host, now, skip), steps).value.workers[i];
            var l := w.local;
            && Token(l)
            && (l.phase.Draining? ==> forall at :: Next(w.config, l, at, TickDrained).Some?)
            && (l.phase.Draining? || l.phase.Done? ==> l.cancelled)
            && l.pushErr == LastError(l.verdicts)
            && (w.Kind() == "slowstart" || w.Kind() == "linear")
            && (w.Kind() == "slowstart" && !l.phase.Resetting? ==>
                  && l.policy == RetryPolicies.ClosedForm(Told(l.verdicts))
                  && l.policy.Flagged() == l.pushErr.Some? == Retained(l.verdicts))
            && (w.Kind() == "linear" ==>
                  l.policy == RetryPolicies.LinearState(w.config.sub.pushConfig.retryPolicy.period as int * 1_000_000))
  {
    RunKeepsFleet(Init(host, now, skip), steps);
    KnownKind(host, now, skip, steps, i);
    hide RunSteps, RetryPolicies.ClosedForm, Told, Retained, Body, Paced;
    var t := RunSteps(Init(host, now, skip), steps).value;
    var w := t.workers[i];
    FirstPolicyValid(w);
    RetryPolicies.AfterHistoryValid(FirstPolicy(w), Told(Closed(w.local)));
    FirstByKind(w);
    hide Coupled;
    if w.Kind() == "slowstart" && !w.local.phase.Resetting? { LoopHeadCoupling(w.local, t.now); }
  }

  lemma KnownKind(host: string, now: int, skip: bool, steps: seq<Step>, i: nat)
    requires RunSteps(Init(host, now, skip), steps).Some?
    requires i < |RunSteps(Init(host, now, skip), steps).value.workers|
    ensures var w := RunSteps(Init(host, now, skip), steps).value.workers[i];
            w.Kind() == "slowstart" || w.Kind() == "linear"
  {
    hide RunSteps, RosterInv;
    NothingYet(host, now, skip);
    RunKeepsRoster(Init(host, now, skip), steps);
    HasPolicy(RunSteps(Init(host, now, skip), steps).value, i);
    var t := RunSteps(Init(host, now, skip), steps).value;
    RetryPolicies.InitialByKind(t.workers[i].config.sub.pushConfig.retryPolicy);
  }

  lemma HasPolicy(s: System, i: nat)
    requires RosterInv(s) && i < |s.workers|
    ensures RetryPolicies.Initial(s.workers[i].config.sub.pushConfig.retryPolicy).Some?
  {
    assert MemberInv(s, i);
  }

  lemma PoliciesOfEveryRun(host: string, now: int, skip: bool, steps: seq<Step>, i: nat)
    requires RunSteps(Init(host, now, skip), steps).Some?
    requires i < |RunSteps(Init(host, now, skip), steps).value.workers|
    ensures RunSteps(Init(host, now, skip), steps).value.workers[i].local.policy.Valid()
  {
    RunKeepsFleet(Init(host, now, skip), steps);
    hide RunSteps, Body, Paced, LastError, Told;
    var w := RunSteps(Init(host, now, skip), steps).value.workers[i];
    FirstPolicyValid(w);
    RetryPolicies.AfterHistoryValid(FirstPolicy(w), Told(Closed(w.local)));
  }

  /** The rate bound, for every worker of every run and every window of time. */
  lemma RateOfEveryRun(host: string, now: int, skip: bool, steps: seq<Step>, i: nat, a: int, d: nat)
    requires RunSteps(Init(host, now, skip), steps).Some?
    requires i < |RunSteps(Init(host, now, skip), steps).value.workers|
    ensures var w := RunSteps(Init(host, now, skip), steps).value.workers[i];
            var n := StartsIn(w.local.starts, a, a + d);
            var p := w.config.sub.pushConfig.retryPolicy.period as int * 1_000_000;
            && (w.Kind() == "linear" && p > 0 ==> Fit(n, p, d))
            && (w.Kind() == "slowstart" ==> n <= (d + 299_999_999) / 300_000_000)
  {
    RunKeepsFleet(Init(host, now, skip), steps);
    var t := RunSteps(Init(host, now, skip), steps).value;
    var w := t.workers[i];
    FirstPolicyValid(w);
    FirstByKind(w);
    hide RunSteps, Fit, StartsIn, WorkerInv;
    if Shortest(FirstPolicy(w)) > 0 { WindowOfStarts(FirstPolicy(w), w.local, t.now, a, d); }
    if w.Kind() == "slowstart" { FitSlowstart(StartsIn(w.local.starts, a, a + d), d); }
  }

  lemma FirstPolicyValid(w: Worker)
    ensures FirstPolicy(w).Valid()
  {
  }

  // ----------------------------------------------------------------- the first push

  /** The worker begins no push before time t. */
  predicate NotBefore(l: Local, now: int, t: int)
  {
    if l.starts != [] then l.starts[0] >= t
    else
      && !l.phase.InCycle() && !l.phase.Resetting?
      && (l.phase.Selecting? && l.timer.deadline.Some? ==> l.timer.deadline.value >= t)
      && (l.phase.Selecting? && l.timer.tick ==> now >= t)
  }

  lemma NextNotBefore(c: Config, l: Local, now: int, e: Event, t: int)
    requires NotBefore(l, now, t) && Next(c, l, now, e).Some?
    ensures NotBefore(Next(c, l, now, e).value, now, t)
  {
    hide Body;
  }

  ghost predicate NotBeforeAt(s: System, i: nat, t: int)
  {
    i < |s.workers| && NotBefore(s.workers[i].local, s.now, t)
  }

  lemma StepNotBefore(s: System, st: Step, i: nat, t: int)
    requires NotBeforeAt(s, i, t) && Apply(s, st).Some?
    ensures NotBeforeAt(Apply(s, st).value, i, t)
  {
    hide Apply;
    StepMoves(s, st);
    var u := Apply(s, st).value;
    var w, v := s.workers[i], u.workers[i];
    assert WorkerMoves(s, u, i);
    if v.local == w.local || v.local == w.local.(cancelled := true) {
    } else {
      var e :| Next(w.config, w.local, s.now, e) == Some(v.local);
      NextNotBefore(w.config, w.local, s.now, e, t);
    }
  }

  lemma {:induction false} RunNotBefore(s: System, steps: seq<Step>, i: nat, t: int)
    requires NotBeforeAt(s, i, t) && RunSteps(s, steps).Some?
    ensures NotBeforeAt(RunSteps(s, steps).value, i, t)
    decreases |steps|
  {
    hide NotBeforeAt;
    if steps == [] {
    } else {
      StepNotBefore(s, steps[0], i, t);
      RunNotBefore(Apply(s, steps[0]).value, steps[1..], i, t);
    }
  }

  /**
   A slow-start worker begins its first push a second after it was started, or later; a linear one can begin
   at once.
   */
  lemma FirstPush(s: System, st: Step, after: seq<Step>)
    requires Apply(s, st).Some? && |Apply(s, st).value.workers| > |s.workers|
    requires RunSteps(Apply(s, st).value, after).Some?
    ensures var u, i := Apply(s, st).value, |s.workers|;
            var w, t := u.workers[i], RunSteps(u, after).value;
            && i < |t.workers|
            && (w.Kind() == "slowstart" && t.workers[i].local.starts != [] ==>
                  t.workers[i].local.starts[0] >= u.now + 1_000_000_000)
            && (w.Kind() == "linear" ==>
                  Run(w.config, w.local, [Timed(u.now, TimerFired), Timed(u.now, TickTaken)]).Some?)
  {
    hide Apply, RunSteps, Run;
    var u, i := Apply(s, st).value, |s.workers|;
    var w := u.workers[i];
    StepMoves(s, st);
    FirstByKind(w);
    RunNotBefore(u, after, i, u.now + First(w).1);
    if w.Kind() == "linear" { RunTwo(w.config, w.local, Timed(u.now, TimerFired), Timed(u.now, TickTaken)); }
  }

  // ----------------------------------------------------------------- each worker follows the protocol

  /** What a step is for worker i. */
  function EventsOf(s: System, st: Step, i: nat): seq<Timed>
    requires i < |s.workers|
  {
    match st
    case WorkerStep(j, e) => if j == i then [Timed(s.now, e)] else []
    case HandlerReceives(j) =>
      if j == i && s.workers[i].local.phase.Blocked?
      then [Timed(s.now, ErrorHanded(s.workers[i].local.phase.error))] else []
    case _ => if i < |Roster(s, st).workers| && Roster(s, st).workers[i] != s.workers[i]
              then [Timed(s.now, ContextCancelled)] else []
  }

  function EventsOfRun(s: System, steps: seq<Step>, i: nat): seq<Timed>
    requires i < |s.workers| && RunSteps(s, steps).Some?
    decreases |steps|
  {
    if steps == [] then []
    else
      StepRunsProtocol(s, steps[0], i);
      EventsOf(s, steps[0], i) + EventsOfRun(Apply(s, steps[0]).value, steps[1..], i)
  }

  lemma StepRunsProtocol(s: System, st: Step, i: nat)
    requires i < |s.workers| && Apply(s, st).Some?
    ensures var t := Apply(s, st).value;
            && i < |t.workers| && t.workers[i].config == s.workers[i].config
            && Run(s.workers[i].config, s.workers[i].local, EventsOf(s, st, i)) == Some(t.workers[i].local)
  {
    hide Run, Next, Allowed, Service.Judge, Configure, Issue, Track, LandPost, LandAck;
    var w := s.workers[i];
    var es := EventsOf(s, st, i);
    if es == [] {
      RunNone(w.config, w.local);
    } else {
      RunOne(w.config, w.local, es[0]);
      CancellingIsStep(w.config, w.local, s.now);
      if w.local.phase.Blocked? { BlockedHandsOver(w.config, w.local, s.now); }
    }
  }

  lemma CancellingIsStep(c: Config, l: Local, now: int)
    ensures Next(c, l, now, ContextCancelled) == Some(l.(cancelled := true))
  {
  }

  /** In every run every worker performs a run of the protocol, as Push.Worker does. */
  lemma {:induction false} RunRunsProtocol(s: System, steps: seq<Step>, i: nat)
    requires i < |s.workers| && RunSteps(s, steps).Some?
    ensures var t := RunSteps(s, steps).value;
            && i < |t.workers| && t.workers[i].config == s.workers[i].config
            && Run(s.workers[i].config, s.workers[i].local, EventsOfRun(s, steps, i)) == Some(t.workers[i].local)
    decreases |steps|
  {
    hide Run;
    if steps == [] {
      RunNone(s.workers[i].config, s.workers[i].local);
    } else {
      StepRunsProtocol(s, steps[0], i);
      RunRunsProtocol(Apply(s, steps[0]).value, steps[1..], i);
      RunConcat(s.workers[i].config, s.workers[i].local, EventsOf(s, steps[0], i),
                EventsOfRun(Apply(s, steps[0]).value, steps[1..], i));
    }
  }

  lemma {:induction false} EventsOfConcat(s: System, xs: seq<Step>, ys: seq<Step>, i: nat)
    requires i < |s.workers| && RunSteps(s, xs).Some? && RunSteps(RunSteps(s, xs).value, ys).Some?
    ensures i < |RunSteps(s, xs).value.workers| && RunSteps(s, xs + ys) == RunSteps(RunSteps(s, xs).value, ys)
    ensures EventsOfRun(s, xs + ys, i) == EventsOfRun(s, xs, i) + EventsOfRun(RunSteps(s, xs).value, ys, i)
    decreases |xs|
  {
    hide Apply, EventsOf;
    RunStepsConcat(s, xs, ys);
    if xs == [] {
      assert xs + ys == ys;
    } else {
      assert (xs + ys)[1..] == xs[1..] + ys;
      StepRunsProtocol(s, xs[0], i);
      EventsOfConcat(Apply(s, xs[0]).value, xs[1..], ys, i);
    }
  }

  /** Steps of worker i in a row, and the events they are. */
  function OwnSteps(i: nat, es: seq<Event>): seq<Step>
  {
    seq(|es|, k requires 0 <= k < |es| => WorkerStep(i, es[k]))
  }

  function Stamped(t: int, es: seq<Event>): seq<Timed>
  {
    seq(|es|, k requires 0 <= k < |es| => Timed(t, es[k]))
  }

  lemma {:induction false} OwnEvents(s: System, i: nat, es: seq<Event>)
    requires i < |s.workers| && RunSteps(s, OwnSteps(i, es)).Some?
    ensures EventsOfRun(s, OwnSteps(i, es), i) == Stamped(s.now, es)
    decreases |es|
  {
    hide Apply;
    if es == [] {
    } else {
      assert OwnSteps(i, es)[1..] == OwnSteps(i, es[1..]);
      StepMoves(s, WorkerStep(i, es[0]));
      OwnEvents(Apply(s, WorkerStep(i, es[0])).value, i, es[1..]);
      assert Stamped(s.now, es) == [Timed(s.now, es[0])] + Stamped(s.now, es[1..]);
    }
  }

  /**
   From the moment a worker of any run is stopped, it begins at most one more push from its select and none
   otherwise, when the delays between its Resets and the selects after them stay below its next interval.
   */
  lemma StopsSoon(host: string, now: int, skip: bool, before: seq<Step>, after: seq<Step>, i: nat, d: nat)
    requires RunSteps(Init(host, now, skip), before).Some?
    requires var s := RunSteps(Init(host, now, skip), before).value;
             && i < |s.workers| && s.workers[i].local.cancelled && d < NextInterval(s.workers[i].local)
             && RunSteps(s, after).Some?
             && Prompt(s.workers[i].config, s.workers[i].local, EventsOfRun(s, after, i), d)
    ensures var s := RunSteps(Init(host, now, skip), before).value;
            Pushes(EventsOfRun(s, after, i)) <= Allowance(s.workers[i].local)
  {
    var s := RunSteps(Init(host, now, skip), before).value;
    RunKeepsFleet(Init(host, now, skip), before);
    RunRunsProtocol(s, after, i);
    AtMostOneMorePush(s.workers[i].config, s.workers[i].local, EventsOfRun(s, after, i), d);
  }

  /** The next interval of a worker of any run is at least the shortest of its policy. */
  lemma NextIsLong(host: string, now: int, skip: bool, steps: seq<Step>, i: nat)
    requires RunSteps(Init(host, now, skip), steps).Some?
    requires i < |RunSteps(Init(host, now, skip), steps).value.workers|
    ensures var w := RunSteps(Init(host, now, skip), steps).value.workers[i];
            Shortest(FirstPolicy(w)) <= NextInterval(w.local)
  {
    RunKeepsFleet(Init(host, now, skip), steps);
    hide RunSteps, Body, Paced, LastError, Told;
    var w := RunSteps(Init(host, now, skip), steps).value.workers[i];
    FirstPolicyValid(w);
    RetryPolicies.AfterHistoryValid(FirstPolicy(w), Told(Closed(w.local)));
  }

  // ----------------------------------------------------------------- what callers see

  /** SubscriptionStatus: None is "not active", Some(None) "currently active". */
  function StatusOf(s: System, name: string): Option<Option<Stage>>
  {
    if name in s.registry && s.registry[name] < |s.workers|
    then Some(s.workers[s.registry[name]].local.pushErr)
    else None
  }

  /**
   In every run a status is known exactly for the names activated once more than removed, and then it is the
   error of the last decisive cycle of the worker started last for that name, if that cycle failed.
   */
  lemma StatusOfEveryRun(host: string, now: int, skip: bool, steps: seq<Step>, name: string)
    requires RunSteps(Init(host, now, skip), steps).Some?
    ensures var t := RunSteps(Init(host, now, skip), steps).value;
            var trail := Trail(t.history, name);
            && (StatusOf(t, name).Some? <==> |trail| % 2 == 1)
            && (StatusOf(t, name).Some? ==>
                  && trail[|trail| - 1].id < |t.workers|
                  && StatusOf(t, name).value == LastError(t.workers[trail[|trail| - 1].id].local.verdicts))
  {
    hide RunSteps, LastError, Trail, Alternates;
    RegistryHistory(host, now, skip, steps, name);
    NothingYet(host, now, skip);
    RunKeepsRoster(Init(host, now, skip), steps);
    var t := RunSteps(Init(host, now, skip), steps).value;
    if name in t.registry {
      assert EntryInv(t, name);
      WorkersOfEveryRun(host, now, skip, steps, t.registry[name]);
    }
  }

  /**
   What AMS stores for a subscription governs the calls of the worker the loader starts for it, in every run:
   whom it asks and for how many messages, where and how it posts, and the policy that paces it.
   */
  lemma LoadedAsStored(s: System, a: Service.AmsSubscription, after: seq<Step>)
    requires var u := Apply(s, AnswerSubscription(Some(a)));
             u.Some? && |u.value.workers| > |s.workers| && RunSteps(u.value, after).Some?
    ensures var u, cfg := Apply(s, AnswerSubscription(Some(a))).value, a.pushCfg;
            && |u.workers| == |s.workers| + 1
            && RetryPolicies.Initial(cfg.retPol).Some?
            && u.workers[|s.workers|].local.policy == RetryPolicies.Initial(cfg.retPol).value.0
            && u.workers[|s.workers|].config.sub.pushConfig.base64Decode == cfg.base64Decode
            && u.workers[|s.workers|].config.consumer == Consumers.AmsHttpConsumer(a.fullName, s.host)
            && u.workers[|s.workers|].config.sender
               == (if cfg.kind == "http_endpoint" then Senders.HttpSender(cfg.pend.uri, cfg.authorizationHeader)
                   else Senders.MattermostSender(cfg.mattermostUrl, cfg.mattermostUsername, cfg.mattermostChannel))
            && forall e: Timed :: e in EventsOfRun(u, after, |s.workers|) ==>
                 match e.event
                 case Pulled(sub, max, _) => sub == a.fullName && max == cfg.maxMessages
                 case PostIssued(to, body) =>
                   && to == (if cfg.kind == "http_endpoint" then cfg.pend.uri else cfg.mattermostUrl)
                   && (|body| > 1 ==> cfg.kind == "http_endpoint" && cfg.maxMessages != 1)
                 case AckIssued(sub, _) => sub == a.fullName
                 case _ => true
  {
    var u := Apply(s, AnswerSubscription(Some(a))).value;
    hide Run, RunSteps, EventsOfRun;
    var w := u.workers[|s.workers|];
    RunRunsProtocol(u, after, |s.workers|);
    RunIsAddressed(w.config, w.local, EventsOfRun(u, after, |s.workers|));
    assert w.config == Configure(a.ToSubscription(), s.host);
  }

  // ----------------------------------------------------------------- cancellation

  function BlockedWorkers(s: System): set<nat>
  {
    set i: nat | i < |s.workers| && s.workers[i].local.phase.Blocked?
  }

  predicate IsHandlerStep(st: Step) { st.HandlerReceives? || st.HandlerStops? }

  lemma HandlerFinishes(s: System)
    requires s.handling.Some?
    ensures Apply(s, HandlerStops).Some?
    ensures var t := Apply(s, HandlerStops).value; t.handling.None? && BlockedWorkers(t) == BlockedWorkers(s)
  {
  }

  lemma HandlerTakes(s: System, i: nat)
    requires s.handling.None? && i in BlockedWorkers(s)
    ensures Apply(s, HandlerReceives(i)).Some?
    ensures var t := Apply(s, HandlerReceives(i)).value;
            t.handling.Some? && BlockedWorkers(t) == BlockedWorkers(s) - {i}
  {
  }

  /**
   Deadlock freedom: whatever the state, the handler alone can release all senders that are blocked on the
   unbuffered channel, with two steps for each of them after finishing what it is at.
   */
  lemma {:induction false} HandlerReleasesAll(s: System) returns (steps: seq<Step>)
    ensures forall st :: st in steps ==> IsHandlerStep(st)
    ensures |steps| == 2 * |BlockedWorkers(s)| + (if s.handling.Some? then 1 else 0)
    ensures RunSteps(s, steps).Some? && BlockedWorkers(RunSteps(s, steps).value) == {}
    decreases |BlockedWorkers(s)|, s.handling.Some?
  {
    if s.handling.Some? {
      HandlerFinishes(s);
      var rest := HandlerReleasesAll(Apply(s, HandlerStops).value);
      RunStepsFirst(s, HandlerStops, rest);
      steps := [HandlerStops] + rest;
    } else if BlockedWorkers(s) == {} {
      steps := [];
    } else {
      var i :| i in BlockedWorkers(s);
      HandlerTakes(s, i);
      assert |BlockedWorkers(s) - {i}| == |BlockedWorkers(s)| - 1;
      var rest := HandlerReleasesAll(Apply(s, HandlerReceives(i)).value);
      RunStepsFirst(s, HandlerReceives(i), rest);
      steps := [HandlerReceives(i)] + rest;
    }
  }

  /** Handling an error leaves its name inactive, touches no other entry, and stops just that name's live worker. */
  lemma HandlingIsIsolated(s: System)
    requires RosterInv(s) && s.handling.Some?
    ensures var t, name := Apply(s, HandlerStops).value, s.handling.value.resource;
            && t.registry == s.registry - {name} && |t.workers| == |s.workers| && t.feeds == s.feeds
            && (forall j: nat :: j < |s.workers| ==>
                  t.workers[j] == if s.IsLive(j) && s.workers[j].config.sub.fullName == name
                                  then Cancel(s.workers[j]) else s.workers[j])
  {
    var name := s.handling.value.resource;
    if name in s.registry { assert EntryInv(s, name); }
  }

  lemma StepKeepsCancelled(s: System, st: Step, i: nat)
    requires Apply(s, st).Some? && i < |s.workers| && s.workers[i].local.cancelled
    ensures i < |Apply(s, st).value.workers| && Apply(s, st).value.workers[i].local.cancelled
    ensures Apply(s, st).value.workers[i].config == s.workers[i].config
  {
    hide Apply;
    StepMoves(s, st);
    assert WorkerMoves(s, Apply(s, st).value, i);
  }

  lemma {:induction false} RunKeepsCancelled(s: System, steps: seq<Step>, i: nat)
    requires RunSteps(s, steps).Some? && i < |s.workers| && s.workers[i].local.cancelled
    ensures var t := RunSteps(s, steps).value;
            i < |t.workers| && t.workers[i].local.cancelled && t.workers[i].config == s.workers[i].config
    decreases |steps|
  {
    if steps == [] {
    } else {
      StepKeepsCancelled(s, steps[0], i);
      RunKeepsCancelled(Apply(s, steps[0]).value, steps[1..], i);
    }
  }

  /**
   Once a name was handled, whatever happens while no worker is started for it, the name stays inactive and
   handling it again changes nothing.
   */
  lemma HandlingTwice(s: System, name: string, steps: seq<Step>)
    requires RosterInv(s) && RunSteps(Deactivate(s, name), steps).Some?
    requires var t := RunSteps(Deactivate(s, name), steps).value;
             forall i :: |s.workers| <= i < |t.workers| ==> t.workers[i].Name() != name
    ensures var t := RunSteps(Deactivate(s, name), steps).value;
            name !in t.registry && Deactivate(t, name) == t
  {
    hide RunSteps, NameInv;
    var u := Deactivate(s, name);
    var t := RunSteps(u, steps).value;
    DeactivateKeeps(s, name);
    RunKeepsRoster(u, steps);
    if name in t.registry {
      var j := t.registry[name];
      assert EntryInv(t, name) && MemberInv(t, j);
      RunRunsProtocol(u, steps, j);
      assert name !in u.registry && MemberInv(u, j);
      RunKeepsCancelled(u, steps, j);
      assert false;
    }
  }

  lemma {:induction false} HandlingStays(s: System, steps: seq<Step>)
    requires RunSteps(s, steps).Some? && forall st :: st in steps ==> !IsHandlerStep(st)
    ensures RunSteps(s, steps).value.handling == s.handling
    decreases |steps|
  {
    if steps == [] {
    } else {
      OthersKeepHandling(s, steps[0]);
      HandlingStays(Apply(s, steps[0]).value, steps[1..]);
    }
  }

  lemma OthersKeepHandling(s: System, st: Step)
    requires Apply(s, st).Some? && !IsHandlerStep(st)
    ensures Apply(s, st).value.handling == s.handling
  {
    hide Next, Allowed, Issue, Service.Judge;
  }

  /** Of the workers only the registered one of the handled name is stopped; who that is, seen from worker i. */
  lemma StoppedByHandler(s: System, i: nat)
    requires RosterInv(s) && s.handling.Some? && i < |s.workers|
    requires s.handling.value.resource == s.workers[i].config.sub.fullName
    ensures var u := Apply(s, HandlerStops).value;
            && |u.workers| == |s.workers|
            && (u.workers[i] != s.workers[i] <==> !s.workers[i].local.cancelled)
            && ((exists j: nat :: j < |s.workers| && j != i && u.workers[j] != s.workers[j]) <==>
                s.workers[i].local.cancelled && s.workers[i].Name() in s.registry)
  {
    HandlingIsIsolated(s);
    hide NameInv, Apply;
    var name := s.handling.value.resource;
    assert MemberInv(s, i);
    if name in s.registry && s.workers[i].local.cancelled {
      var j := s.registry[name];
      assert EntryInv(s, name) && MemberInv(s, j);
      assert Apply(s, HandlerStops).value.workers[j] == Cancel(s.workers[j]);
    }
  }

  /**
   Errors are resolved by name: what the handler does about the error of worker i, whatever happened before
   it received it and until it acts on it. The error names its raiser, by consumer and by registry key. The
   raiser is stopped iff nobody had stopped it before; another worker is stopped iff the raiser was stopped
   already and its name is active again.
   */
  lemma WhomTheHandlerStops(host: string, now: int, skip: bool, steps: seq<Step>, i: nat, between: seq<Step>)
    requires RunSteps(Init(host, now, skip), steps + [HandlerReceives(i)]).Some?
    requires forall st :: st in between ==> !IsHandlerStep(st)
    requires RunSteps(RunSteps(Init(host, now, skip), steps + [HandlerReceives(i)]).value, between).Some?
    ensures var t := RunSteps(RunSteps(Init(host, now, skip), steps + [HandlerReceives(i)]).value, between).value;
            && i < |t.workers| && t.handling.Some?
            && t.handling.value.resource == t.workers[i].Name() == t.workers[i].config.sub.fullName
            && var u := Apply(t, HandlerStops).value;
               && |u.workers| == |t.workers|
               && (u.workers[i] != t.workers[i] <==> !t.workers[i].local.cancelled)
               && ((exists j: nat :: j < |t.workers| && j != i && u.workers[j] != t.workers[j]) <==>
                   t.workers[i].local.cancelled && t.workers[i].Name() in t.registry)
  {
    hide Apply, RosterInv, FleetInv, MemberInv;
    var s0 := Init(host, now, skip);
    var r := RunSteps(s0, steps + [HandlerReceives(i)]).value;
    var t := RunSteps(r, between).value;
    assert RosterInv(s0) && FleetInv(s0) by { NothingYet(host, now, skip); }
    RunKeepsRoster(s0, steps + [HandlerReceives(i)]);
    RunKeepsRoster(r, between);
    ReceivedError(host, now, skip, steps, i);
    HandlingStays(r, between);
    RunRunsProtocol(r, between, i);
    assert t.workers[i].Name() == t.workers[i].config.sub.fullName by { OwnName(t, i); }
    StoppedByHandler(t, i);
  }

  lemma NothingYet(host: string, now: int, skip: bool)
    ensures RosterInv(Init(host, now, skip)) && FleetInv(Init(host, now, skip))
  {
  }

  lemma OwnName(s: System, i: nat)
    requires RosterInv(s) && i < |s.workers|
    ensures s.workers[i].Name() == s.workers[i].config.sub.fullName
  {
    assert MemberInv(s, i);
  }

  lemma ReceivedError(host: string, now: int, skip: bool, steps: seq<Step>, i: nat)
    requires RunSteps(Init(host, now, skip), steps + [HandlerReceives(i)]).Some?
    ensures var t := RunSteps(Init(host, now, skip), steps + [HandlerReceives(i)]).value;
            i < |t.workers| && t.handling.Some? && t.handling.value.resource == t.workers[i].Name()
  {
    var s0 := Init(host, now, skip);
    RunPrefix(s0, steps, HandlerReceives(i));
    RunKeepsFleet(s0, steps);
    assert Identified(RunSteps(s0, steps).value.workers[i]);
  }

  lemma RunPrefix(s: System, steps: seq<Step>, st: Step)
    requires RunSteps(s, steps + [st]).Some?
    ensures RunSteps(s, steps).Some?
    ensures Apply(RunSteps(s, steps).value, st) == RunSteps(s, steps + [st])
    decreases |steps|
  {
    if steps == [] {
      assert [] + [st] == [st];
    } else {
      assert (steps + [st])[1..] == steps[1..] + [st];
      RunPrefix(Apply(s, steps[0]).value, steps[1..], st);
    }
  }

  lemma Replaced(s: System, i: nat, r: Service.ActivateRequest)
    requires RosterInv(s) && s.status == Service.Ok && i < |s.workers| && s.IsLive(i)
    requires r.Complete? && Service.Pushable(r.sub) && r.sub.fullName == s.workers[i].config.sub.fullName
    ensures var s1 := Apply(s, Rpc(DeactivateCall(r.sub.fullName)));
            && s1.Some? && s1.value.status == Service.Ok
            && Apply(s1.value, Rpc(ActivateCall(r))) == Some(Insert(Deactivate(s, r.sub.fullName), r.sub))
    ensures Deactivate(s, r.sub.fullName).workers == s.workers[i := Cancel(s.workers[i])]
    ensures Deactivate(s, r.sub.fullName).handling == s.handling
  {
    hide NameInv;
    assert EntryInv(s, r.sub.fullName);
  }

  lemma StoppedInstead(s: System, i: nat, j: nat, name: string)
    requires i < |s.workers| && j < |s.workers| && i != j
    requires s.handling.None? && s.workers[i].local.phase.Blocked?
    requires s.workers[i].local.phase.error.resource == name
    requires name in s.registry && s.registry[name] == j
    ensures var s1 := Apply(s, HandlerReceives(i));
            && s1.Some?
            && Apply(s1.value, HandlerStops).Some?
            && var t := Apply(s1.value, HandlerStops).value;
               && |t.workers| == |s.workers| && t.workers[j] == Cancel(s.workers[j]) && name !in t.registry
  {
    var s1 := Apply(s, HandlerReceives(i)).value;
    assert s1.workers[j] == s.workers[j] && s1.registry == s.registry;
  }

  /**
   Errors are resolved by name, so a stale one hits the replacement: if a blocked worker is deactivated and
   its name activated anew before the handler receives, the handler stops the new worker.
   */
  lemma StaleErrorStopsReplacement(s: System, i: nat, r: Service.ActivateRequest)
    requires RosterInv(s) && FleetInv(s) && s.status == Service.Ok && s.handling.None?
    requires i < |s.workers| && s.IsLive(i) && s.workers[i].local.phase.Blocked?
    requires r.Complete? && Service.Pushable(r.sub) && r.sub.fullName == s.workers[i].Name()
    ensures var name := r.sub.fullName;
            var t := RunSteps(s, [Rpc(DeactivateCall(name)), Rpc(ActivateCall(r)), HandlerReceives(i), HandlerStops]);
            && t.Some? && |t.value.workers| == |s.workers| + 1
            && r.sub.fullName !in t.value.registry
            && var v := t.value.workers[|s.workers|];
               v.config == Configure(r.sub, s.host) && v.local.cancelled && v.local.starts == []
  {
    assert MemberInv(s, i) && Identified(s.workers[i]);
    hide RunSteps, RosterInv, FleetInv, MemberInv, Apply, Deactivate;
    Replaced(s, i, r);
    StoppedInstead(Insert(Deactivate(s, r.sub.fullName), r.sub), i, |s.workers|, r.sub.fullName);
    RunFourSteps(s, Rpc(DeactivateCall(r.sub.fullName)), Rpc(ActivateCall(r)), HandlerReceives(i), HandlerStops);
  }

  /**
   The registry takes no lock. If two activations overlap, so that both are checked before either is
   filed, then the workers that can still be stopped are all running ones exactly when the names differ.
   */
  lemma OverlappingActivations(s: System, r: Service.ActivateRequest, q: Service.ActivateRequest)
    requires RosterInv(s)
    requires Service.Judge(s.registry.Keys, r).Activated? && Service.Judge(s.registry.Keys, q).Activated?
    ensures var t := Insert(Insert(s, r.sub), q.sub);
            (forall i: nat :: i < |t.workers| && !t.workers[i].local.cancelled ==> t.IsLive(i))
            <==> r.sub.fullName != q.sub.fullName
  {
    var t := Insert(Insert(s, r.sub), q.sub);
    if r.sub.fullName == q.sub.fullName {
      assert !t.workers[|s.workers|].local.cancelled && !t.IsLive(|s.workers|);
    } else {
      forall i: nat | i < |t.workers| && !t.workers[i].local.cancelled ensures t.IsLive(i) {
        if i < |s.workers| { assert MemberInv(s, i); }
      }
    }
  }
}
