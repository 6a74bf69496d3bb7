/**
 Runs of a worker whose calls take no time and whose timer is heeded at once: its pushes start exactly one
 interval after the other. In particular, how a slow-start worker recovers from an error.
 */
module Punctual {
  import opened GoTypes
  import opened Wire
  import opened Protocol
  import opened Pacing
  import opened Pipeline
  import opened Fleet
  import Cycles
  import Drain
  import RetryPolicies

  // ----------------------------------------------------------------- one worker

  /** From start number j on every push start lies exactly the interval in force after the start before it. */
  predicate Exact(p0: RetryPolicies.PolicyState, vs: seq<Verdict>, starts: seq<int>, j: nat)
  {
    && |starts| <= |vs| + 1
    && forall k :: j < k < |starts| ==> starts[k] == starts[k - 1] + Gap(p0, vs[..k])
  }

  predicate OnTime(p0: RetryPolicies.PolicyState, l: Local, now: int, j: nat)
  {
    && |l.starts| == |l.verdicts| + (if l.phase.InCycle() then 1 else 0)
    && Exact(p0, l.verdicts, l.starts, j)
    && (|l.starts| > j ==>
          var last := l.starts[|l.starts| - 1];
          && (l.phase.InCycle() || l.phase.Resetting? ==> now == last)
          && (l.phase.Selecting? && l.timer.deadline.Some? ==>
                now <= l.timer.deadline.value == last + Gap(p0, l.verdicts))
          && (l.phase.Selecting? && l.timer.tick ==> now == last + Gap(p0, l.verdicts)))
  }

  lemma EndOnTime(p0: RetryPolicies.PolicyState, l: Local, v: Verdict, now: int, j: nat)
    requires OnTime(p0, l, now, j) && l.phase.InCycle()
    ensures OnTime(p0, Finish(l, v), now, j)
  {
    var m := Finish(l, v);
    forall k | j < k < |m.starts| ensures m.starts[k] == m.starts[k - 1] + Gap(p0, m.verdicts[..k]) {
      assert m.verdicts[..k] == l.verdicts[..k];
    }
  }

  lemma TickOnTime(c: Config, p0: RetryPolicies.PolicyState, l: Local, now: int, j: nat)
    requires OnTime(p0, l, now, j) && Next(c, l, now, TickTaken).Some?
    ensures OnTime(p0, Next(c, l, now, TickTaken).value, now, j)
  {
    hide Gap;
    var m := Next(c, l, now, TickTaken).value;
    assert l.verdicts[..|l.verdicts|] == l.verdicts;
    forall k | j < k < |m.starts| ensures m.starts[k] == m.starts[k - 1] + Gap(p0, m.verdicts[..k]) {
      if k < |l.starts| { assert m.starts[k] == l.starts[k]; }
    }
  }

  lemma ResetOnTime(c: Config, p0: RetryPolicies.PolicyState, l: Local, now: int, j: nat)
    requires WorkerInv(p0, l, now) && OnTime(p0, l, now, j) && p0.Valid() && l.phase.Resetting?
    ensures OnTime(p0, Next(c, l, now, TimerReset).value, now, j)
  {
    hide Retained, Exact, RetryPolicies.AfterReset, RetryPolicies.AfterHistory, Paced;
    ResetKeeps(c, p0, l, now);
    RetryPolicies.AfterHistoryValid(p0, Told(l.verdicts));
  }

  lemma StepOnTime(c: Config, p0: RetryPolicies.PolicyState, l: Local, now: int, e: Event, j: nat)
    requires WorkerInv(p0, l, now) && OnTime(p0, l, now, j) && p0.Valid() && Next(c, l, now, e).Some?
    ensures OnTime(p0, Next(c, l, now, e).value, now, j)
  {
    hide Gap, Exact, Body, WorkerInv;
    if Ends(c, l, e).Some? {
      EndOnTime(p0, l, Ends(c, l, e).value, now, j);
    } else if e.TickTaken? {
      TickOnTime(c, p0, l, now, j);
    } else if e.TimerReset? {
      ResetOnTime(c, p0, l, now, j);
    } else {
      hide Coupled, Paced;
    }
  }

  // ----------------------------------------------------------------- runs

  /** Time passes for worker i only while it waits at its select, and not beyond its deadline. */
  predicate PunctualStep(s: System, st: Step, i: nat)
  {
    st.Advance? && st.d > 0 && i < |s.workers| ==>
      var l := s.workers[i].local;
      && !l.phase.InCycle() && !l.phase.Resetting?
      && (l.phase.Selecting? ==> l.timer.deadline.Some? && s.now + st.d <= l.timer.deadline.value)
  }

  predicate PunctualRun(s: System, steps: seq<Step>, i: nat)
    decreases |steps|
  {
    steps == [] ||
    (&& PunctualStep(s, steps[0], i)
     && (Apply(s, steps[0]).Some? ==> PunctualRun(Apply(s, steps[0]).value, steps[1..], i)))
  }

  ghost predicate OnTimeAt(s: System, i: nat, j: nat)
  {
    i < |s.workers| ==> OnTime(FirstPolicy(s.workers[i]), s.workers[i].local, s.now, j)
  }

  lemma MoveOnTime(s: System, t: System, i: nat, j: nat)
    requires i < |s.workers| && i < |t.workers| && WorkerMoves(s, t, i)
    requires FleetInv(s) && OnTimeAt(s, i, j)
    ensures OnTime(FirstPolicy(t.workers[i]), t.workers[i].local, s.now, j)
  {
    hide WorkerInv;
    var w, v := s.workers[i], t.workers[i];
    var p0 := FirstPolicy(w);
    FirstPolicyValid(w);
    if v.local == w.local || v.local == w.local.(cancelled := true) {
    } else {
      var e :| Next(w.config, w.local, s.now, e) == Some(v.local);
      StepOnTime(w.config, p0, w.local, s.now, e, j);
    }
  }

  lemma StepKeepsOnTime(s: System, st: Step, i: nat, j: nat)
    requires FleetInv(s) && OnTimeAt(s, i, j) && PunctualStep(s, st, i) && Apply(s, st).Some?
    ensures OnTimeAt(Apply(s, st).value, i, j)
  {
    var t := Apply(s, st).value;
    StepMoves(s, st);
    hide Apply, FleetInv, WorkerMoves, Exact, Gap;
    if i < |s.workers| && !st.Advance? { MoveOnTime(s, t, i, j); }
  }

  lemma {:induction false} RunKeepsOnTime(s: System, steps: seq<Step>, i: nat, j: nat)
    requires FleetInv(s) && OnTimeAt(s, i, j) && PunctualRun(s, steps, i) && RunSteps(s, steps).Some?
    ensures OnTimeAt(RunSteps(s, steps).value, i, j)
    decreases |steps|
  {
    hide FleetInv, OnTimeAt, PunctualStep;
    if steps == [] {
    } else {
      StepKeepsFleet(s, steps[0]);
      StepKeepsOnTime(s, steps[0], i, j);
      RunKeepsOnTime(Apply(s, steps[0]).value, steps[1..], i, j);
    }
  }

  // The drains of module Drain are such runs.

  lemma {:induction false} PunctualConcat(s: System, xs: seq<Step>, ys: seq<Step>, i: nat)
    requires RunSteps(s, xs).Some? && PunctualRun(s, xs, i) && PunctualRun(RunSteps(s, xs).value, ys, i)
    ensures PunctualRun(s, xs + ys, i)
    decreases |xs|
  {
    hide PunctualStep, Apply;
    if xs == [] {
      assert xs + ys == ys;
    } else {
      assert (xs + ys)[1..] == xs[1..] + ys;
      PunctualConcat(Apply(s, xs[0]).value, xs[1..], ys, i);
    }
  }

  lemma {:induction false} StillIsPunctual(s: System, steps: seq<Step>, i: nat)
    requires forall st :: st in steps ==> !(st.Advance? && st.d > 0)
    ensures PunctualRun(s, steps, i)
    decreases |steps|
  {
    hide Apply;
    if steps == [] {
    } else if Apply(s, steps[0]).Some? {
      StillIsPunctual(Apply(s, steps[0]).value, steps[1..], i);
    }
  }

  lemma CycleIsPunctual(s: System, i: nat, n: nat)
    requires Cycles.Offers(s, i, n)
    ensures PunctualRun(s, Cycles.CycleSteps(s, i, n), i)
  {
    hide Apply, Body;
    var steps := Cycles.CycleSteps(s, i, n);
    assert steps[0] == Advance(Cycles.NextStart(s, i) - s.now);
    if Apply(s, steps[0]).Some? { StillIsPunctual(Apply(s, steps[0]).value, steps[1..], i); }
  }

  lemma {:induction false} DrainIsPunctual(s: System, i: nat)
    requires Drain.Ready(s, i) && s.workers[i].local.policy.Valid()
    ensures PunctualRun(s, Drain.DrainSteps(s, i), i)
    decreases Drain.Backlog(s.FeedOf(s.workers[i].Name()))
  {
    hide RunSteps, Cycles.CycleSteps, Cycles.AfterCycle, PunctualStep;
    var n := Drain.PullSize(s, i);
    if n == 0 {
    } else {
      Drain.CycleLeaves(s, i, n);
      Cycles.CycleRun(s, i, n);
      CycleIsPunctual(s, i, n);
      DrainIsPunctual(Cycles.AfterCycle(s, i, n), i);
      PunctualConcat(s, Cycles.CycleSteps(s, i, n), Drain.DrainSteps(Cycles.AfterCycle(s, i, n), i), i);
    }
  }

  // ----------------------------------------------------------------- recovering from an error

  /** From cycle j on the worker recovers: a failure is retained before it, and k cycles succeed. */
  predicate Recovers(vs: seq<Verdict>, j: nat, k: nat)
  {
    && j + k <= |vs| && Retained(vs[..j])
    && forall q :: j <= q < j + k ==> vs[q].Succeeded?
  }

  /** The offset of push j + k from push j. */
  function RecoveryOffset(k: nat): int
  {
    if k == 0 then 0
    else if k == 1 then 1_000_000_000
    else 1_500_000_000 + (k - 2) * 300_000_000
  }

  lemma {:induction false} RecoveryPolicy(vs: seq<Verdict>, j: nat, k: nat)
    requires Recovers(vs, j, k)
    ensures var p := RetryPolicies.AfterHistory(RetryPolicies.FRESH, Told(vs[..j + k]));
            if k == 0 then p.Flagged()
            else p == RetryPolicies.SlowstartState(RetryPolicies.FloorAfter(k - 1), false)
  {
    if k == 0 {
      LastTold(Told(vs[..j]));
    } else {
      RecoveryPolicy(vs, j, k - 1);
      ToldSnoc(RetryPolicies.FRESH, vs[..j + k]);
      assert vs[..j + k][..j + k - 1] == vs[..j + (k - 1)];
      assert !Retained(vs[..j + k]);
    }
  }

  /** The schedule, from the spacing of the starts: a lower bound, and with exact spacing an equality. */
  lemma {:induction false} RecoveryOffsets(vs: seq<Verdict>, starts: seq<int>, j: nat, k: nat)
    requires Recovers(vs, j, k) && j + k < |starts| && Spaced(RetryPolicies.FRESH, vs, starts)
    ensures starts[j + k] >= starts[j] + RecoveryOffset(k)
    ensures Exact(RetryPolicies.FRESH, vs, starts, j) ==> starts[j + k] == starts[j] + RecoveryOffset(k)
  {
    hide RetryPolicies.AfterHistory, Told;
    if k == 0 {
    } else {
      RecoveryOffsets(vs, starts, j, k - 1);
      RecoveryPolicy(vs, j, k);
      assert Gap(RetryPolicies.FRESH, vs[..j + k]) == RetryPolicies.FloorAfter(k - 1);
    }
  }

  /** Up to push j nothing is asked of the clock. */
  lemma OnTimeFrom(s: System, i: nat, j: nat)
    requires FleetInv(s) && (i < |s.workers| ==> |s.workers[i].local.starts| <= j)
    ensures OnTimeAt(s, i, j)
  {
    hide Gap, Coupled;
  }

  /**
   In every run, when a slow-start worker that retains an error has k successful cycles, its pushes start no
   earlier than 1 s, 1.5 s and then every 0.3 s after the first of them; and exactly then, if its calls take
   no time and its timer is heeded at once from that first push on, whatever happened before it.
   */
  lemma RecoverySchedule(host: string, now: int, skip: bool, before: seq<Step>, after: seq<Step>,
                        i: nat, j: nat, k: nat)
    requires RunSteps(Init(host, now, skip), before).Some?
    requires RunSteps(RunSteps(Init(host, now, skip), before).value, after).Some?
    requires var s := RunSteps(Init(host, now, skip), before).value;
             var t := RunSteps(s, after).value;
             && i < |t.workers| && t.workers[i].Kind() == "slowstart"
             && Recovers(t.workers[i].local.verdicts, j, k) && j + k < |t.workers[i].local.starts|
    ensures var s := RunSteps(Init(host, now, skip), before).value;
            var starts := RunSteps(s, after).value.workers[i].local.starts;
            && starts[j + k] >= starts[j] + RecoveryOffset(k)
            && (PunctualRun(s, after, i) && (i < |s.workers| ==> |s.workers[i].local.starts| <= j) ==>
                  starts[j + k] == starts[j] + RecoveryOffset(k))
  {
    hide RunSteps, PunctualRun, Gap, Exact, Spaced, Coupled, Recovers;
    var s := RunSteps(Init(host, now, skip), before).value;
    var t := RunSteps(s, after).value;
    RunKeepsFleet(Init(host, now, skip), before);
    RunKeepsFleet(s, after);
    FirstByKind(t.workers[i]);
    if PunctualRun(s, after, i) && (i < |s.workers| ==> |s.workers[i].local.starts| <= j) {
      OnTimeFrom(s, i, j);
      RunKeepsOnTime(s, after, i, j);
    }
    RecoveryOffsets(t.workers[i].local.verdicts, t.workers[i].local.starts, j, k);
  }

  // ----------------------------------------------------------------- draining a backlog after an error

  /** The drain of worker i from s begins with a retained error, and nothing else is under way. */
  ghost predicate AfterError(s: System, steps: seq<Step>, name: string, i: nat)
  {
    && Drain.DrainsAlone(s, steps, name, i) && Drain.NonePending(s.FeedOf(name))
    && s.workers[i].Kind() == "slowstart" && s.workers[i].local.pushErr.Some?
  }

  lemma DrainRecovers(host: string, now: int, skip: bool, before: seq<Step>, after: seq<Step>,
                      name: string, i: nat, k: nat)
    requires RunSteps(Init(host, now, skip), before).Some?
    requires AfterError(RunSteps(Init(host, now, skip), before).value, after, name, i)
    requires var s := RunSteps(Init(host, now, skip), before).value;
             && |s.FeedOf(name).log| >= s.FeedOf(name).committed
             && k < Drain.Batches(Drain.Backlog(s.FeedOf(name)), s.workers[i].config.Max() as int)
             && k < Drain.CyclesBetween(s, RunSteps(s, after).value, i)
    ensures var s := RunSteps(Init(host, now, skip), before).value;
            && RunSteps(s, after).Some?
            && var t := RunSteps(s, after).value;
               && i < |s.workers| && i < |t.workers| && t.workers[i].Kind() == "slowstart"
               && var l, m := s.workers[i].local, t.workers[i].local;
                  |l.starts| + k < |m.starts| && Recovers(m.verdicts, |l.starts|, k)
  {
    hide RunSteps, Drain.Batches, Drain.FullRun, Gap, LastError, Run, EventsOfRun;
    var s := RunSteps(Init(host, now, skip), before).value;
    var t := RunSteps(s, after).value;
    RunKeepsFleet(Init(host, now, skip), before);
    RunKeepsFleet(s, after);
    Drain.BusyUntilGone(host, now, skip, before, after, name, i);
    Drain.RunVerdicts(s, after, i);
    RunRunsProtocol(s, after, i);
    assert WorkerInv(FirstPolicy(s.workers[i]), s.workers[i].local, s.now);
    assert WorkerInv(FirstPolicy(t.workers[i]), t.workers[i].local, t.now);
    assert t.workers[i].local.verdicts[..|s.workers[i].local.verdicts|] == s.workers[i].local.verdicts;
  }

  /**
   Drain and recovery joined: when a slow-start worker that retains an error drains a backlog of n messages,
   the pushes that do it, n / m rounded up, start 0 s, 1 s, 1.5 s and then every 0.3 s after the first, or
   later; and exactly then if from the start of the drain its calls take no time and its timer is heeded at once.
   */
  lemma DrainSchedule(host: string, now: int, skip: bool, before: seq<Step>, after: seq<Step>,
                     name: string, i: nat, k: nat)
    requires RunSteps(Init(host, now, skip), before).Some?
    requires AfterError(RunSteps(Init(host, now, skip), before).value, after, name, i)
    requires var s := RunSteps(Init(host, now, skip), before).value;
             && |s.FeedOf(name).log| >= s.FeedOf(name).committed
             && k < Drain.Batches(Drain.Backlog(s.FeedOf(name)), s.workers[i].config.Max() as int)
             && k < Drain.CyclesBetween(s, RunSteps(s, after).value, i)
    ensures var s := RunSteps(Init(host, now, skip), before).value;
            var starts, j := RunSteps(s, after).value.workers[i].local.starts, |s.workers[i].local.starts|;
            && j + k < |starts| && starts[j + k] >= starts[j] + RecoveryOffset(k)
            && (PunctualRun(s, after, i) ==> starts[j + k] == starts[j] + RecoveryOffset(k))
  {
    hide RunSteps, AfterError, Recovers, RecoveryOffset, PunctualRun, Drain.Batches;
    var s := RunSteps(Init(host, now, skip), before).value;
    DrainRecovers(host, now, skip, before, after, name, i, k);
    RecoverySchedule(host, now, skip, before, after, i, |s.workers[i].local.starts|, k);
  }

  /** And from every state of every run in which such a worker waits there is such a drain, to the backlog's end. */
  lemma CanDrainAfterError(host: string, now: int, skip: bool, before: seq<Step>, i: nat) returns (after: seq<Step>)
    requires RunSteps(Init(host, now, skip), before).Some?
    requires var s := RunSteps(Init(host, now, skip), before).value;
             && Cycles.Waiting(s, i) && s.workers[i].config.Max() >= 1 && Drain.Alone(s, s.workers[i].Name(), i)
             && Drain.NonePending(s.FeedOf(s.workers[i].Name()))
             && s.workers[i].Kind() == "slowstart" && s.workers[i].local.pushErr.Some?
    ensures var s := RunSteps(Init(host, now, skip), before).value;
            var f := s.FeedOf(s.workers[i].Name());
            && AfterError(s, after, s.workers[i].Name(), i) && PunctualRun(s, after, i)
            && Drain.Backlog(f) >= 0
            && Drain.CyclesBetween(s, RunSteps(s, after).value, i)
               == Drain.Batches(Drain.Backlog(f), s.workers[i].config.Max() as int)
            && Drain.Backlog(RunSteps(s, after).value.FeedOf(s.workers[i].Name())) == 0
  {
    hide RunSteps, Drain.Batches, Drain.DrainsAlone, Drain.DrainSteps, PunctualRun;
    var s := RunSteps(Init(host, now, skip), before).value;
    after := Drain.CanDrain(host, now, skip, before, i);
    PoliciesOfEveryRun(host, now, skip, before, i);
    DrainIsPunctual(s, i);
  }
}
