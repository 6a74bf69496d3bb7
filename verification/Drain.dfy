/**
 How fast a backlog drains: in every run in which one worker serves the subscription, nothing is published
 and every cycle succeeds, a backlog of N is committed after exactly N / MaxMessages cycles, rounded up.
 */
module Drain {
  import opened GoTypes
  import opened Ams
  import opened Wire
  import opened Protocol
  import opened Pipeline
  import opened Delivery
  import opened Duplicates
  import opened Cycles
  import opened Receipts
  import Fleet
  import Pacing
  import RetryPolicies

  // ----------------------------------------------------------------- the invariant of a drain

  /** Where a drain began, the maximum, and whether no earlier acknowledgement can still take effect. */
  datatype Start = Start(committed: nat, cycles: nat, max: nat, exact: bool)
  {
    /** What is committed of a log of that length, k cycles later. */
    function Target(k: nat, length: nat): int { Min(committed + k * max, length) }
  }

  lemma TargetStep(d: Start, k: nat, length: nat)
    ensures d.Target(k + 1, length) == Min(d.Target(k, length) + d.max, length)
    ensures d.Target(k, length) <= d.Target(k + 1, length) <= length
  {
    assert (k + 1) * d.max == k * d.max + d.max;
  }

  predicate Reaches(d: Start, x: int, target: int)
  {
    if d.exact then x == target else x >= target
  }

  function End(b: seq<ReceivedMessage>): nat
    requires b != []
  {
    b[0].ackId + |b|
  }

  function Aim(d: Start, f: Feed, l: Local): int
  {
    if |l.verdicts| < d.cycles then 0 else d.Target(|l.verdicts| - d.cycles, |f.log|)
  }

  /** The worker's pending acknowledgement is request k. */
  predicate Pending(w: Worker, k: nat) { w.local.phase.Acking? && w.calls.ack == k }

  /** A cycle finds nothing only where nothing is left. */
  predicate IdleAtTheEnd(d: Start, vs: seq<Verdict>, length: nat)
  {
    forall q :: d.cycles <= q < |vs| && vs[q].Idle? ==> d.Target(q - d.cycles, length) == length
  }

  predicate DrainInv(d: Start, f: Feed, w: Worker)
  {
    var l, aim := w.local, Aim(d, f, w.local);
    && |l.verdicts| >= d.cycles && aim <= |f.log| && !l.phase.Blocked?
    && (l.phase.Consuming? ==> Reaches(d, w.calls.asked, aim))
    && (l.phase.HasBatch() ==>
          && l.phase.batch != [] && Reaches(d, l.phase.batch[0].ackId, aim)
          && End(l.phase.batch) == Min(l.phase.batch[0].ackId + d.max, |f.log|))
    && (if l.phase.Acking?
        then && w.calls.ack < |f.acks| && f.acks[w.calls.ack].id == End(l.phase.batch) - 1
             && Reaches(d, f.committed, if f.acks[w.calls.ack].landed then End(l.phase.batch) else aim)
        else Reaches(d, f.committed, aim))
    && (d.exact ==> IdleAtTheEnd(d, l.verdicts, |f.log|))
    && (d.exact ==>
          forall k :: 0 <= k < |f.acks| && !f.acks[k].landed && !Pending(w, k) ==> f.acks[k].id < aim)
  }

  /** A pull returns what is there, up to the maximum. */
  predicate FullPull(f: Feed, max: int, reply: PullReply)
  {
    reply.Received?
    && var b := reply.list.recMsgs;
       if b == [] then f.committed >= |f.log| else |b| == Min(|f.log| - b[0].ackId, max)
  }

  /** Nothing is published for the subscription, and its pulls are full. */
  predicate FullStep(s: System, st: Step, name: string)
  {
    && (st.Publish? ==> st.topic != name)
    && (st.WorkerStep? && st.i < |s.workers| && s.workers[st.i].Name() == name && st.event.Pulled? ==>
          FullPull(s.FeedOf(name), s.workers[st.i].config.Max() as int, st.event.reply))
  }

  predicate FullRun(s: System, steps: seq<Step>, name: string)
    decreases |steps|
  {
    steps == [] ||
    (&& FullStep(s, steps[0], name)
     && (Apply(s, steps[0]).Some? ==> FullRun(Apply(s, steps[0]).value, steps[1..], name)))
  }

  predicate Good(v: Verdict) { v.Succeeded? || v.Idle? }

  /** All cycles from number k on succeeded, or found nothing. */
  predicate AllGood(vs: seq<Verdict>, k: nat)
  {
    forall j :: k <= j < |vs| ==> Good(vs[j])
  }

  lemma GoodEnd(d: Start, f: Feed, w: Worker, v: Verdict)
    requires DrainInv(d, f, w) && AckBound(f) && Good(v)
    requires v.Succeeded? ==> w.local.phase.Acking? && f.acks[w.calls.ack].landed
    requires v.Idle? ==> w.local.phase.Consuming? && f.committed >= |f.log|
    ensures DrainInv(d, f, w.(local := Finish(w.local, v)))
  {
    var vs := w.local.verdicts;
    TargetStep(d, |vs| - d.cycles, |f.log|);
    if d.exact {
      forall q | d.cycles <= q < |vs + [v]| && (vs + [v])[q].Idle?
        ensures d.Target(q - d.cycles, |f.log|) == |f.log|
      {
        if q < |vs| { assert (vs + [v])[q] == vs[q]; }
      }
    }
  }

  /** The worker's own step, when it ends no cycle. */
  lemma OwnDrainStep(d: Start, f: Feed, i: nat, w: Worker, now: int, e: Event)
    requires DrainInv(d, f, w) && AckBound(f) && Allowed(f, w, e) && Next(w.config, w.local, now, e).Some?
    requires w.local.phase.HasBatch() ==> IsSegment(f.log, w.local.phase.batch)
    requires e.Pulled? ==> FullPull(f, d.max, e.reply)
    requires Pacing.Ends(w.config, w.local, e).None?
    ensures DrainInv(d, Issue(f, i, w, e), Worker(w.config, Next(w.config, w.local, now, e).value, Track(f, w, e)))
  {
    hide Body, Start.Target;
  }

  /** The worker's own step, when it ends a cycle well. */
  lemma OwnDrainEnd(d: Start, f: Feed, i: nat, w: Worker, now: int, e: Event)
    requires DrainInv(d, f, w) && AckBound(f) && Allowed(f, w, e) && Next(w.config, w.local, now, e).Some?
    requires e.Pulled? ==> FullPull(f, d.max, e.reply)
    requires Pacing.Ends(w.config, w.local, e).Some? && Good(Pacing.Ends(w.config, w.local, e).value)
    ensures DrainInv(d, Issue(f, i, w, e), Worker(w.config, Next(w.config, w.local, now, e).value, Track(f, w, e)))
  {
    hide DrainInv;
    OwnEnd(f, w, now, e);
    GoodEnd(d, f, w, Pacing.Ends(w.config, w.local, e).value);
  }

  lemma OwnDrain(d: Start, f: Feed, i: nat, w: Worker, now: int, e: Event)
    requires DrainInv(d, f, w) && AckBound(f) && Allowed(f, w, e) && Next(w.config, w.local, now, e).Some?
    requires w.local.phase.HasBatch() ==> IsSegment(f.log, w.local.phase.batch)
    requires e.Pulled? ==> FullPull(f, d.max, e.reply)
    requires AllGood(Next(w.config, w.local, now, e).value.verdicts, d.cycles)
    ensures DrainInv(d, Issue(f, i, w, e), Worker(w.config, Next(w.config, w.local, now, e).value, Track(f, w, e)))
  {
    hide Next, Issue, Track, Allowed, Aim;
    if Pacing.Ends(w.config, w.local, e).Some? {
      OwnEnd(f, w, now, e);
      var vs := Next(w.config, w.local, now, e).value.verdicts;
      assert Good(vs[|vs| - 1]);
      OwnDrainEnd(d, f, i, w, now, e);
    } else {
      OwnDrainStep(d, f, i, w, now, e);
    }
  }

  /** An acknowledgement takes effect. */
  lemma AckDrain(d: Start, f: Feed, w: Worker, k: nat)
    requires DrainInv(d, f, w) && AckBound(f) && k < |f.acks| && !f.acks[k].landed
    ensures DrainInv(d, LandAck(f, k), w)
  {
    hide Start.Target;
  }

  /** The feed is as it was but for posts and deliveries, and so is the worker. */
  lemma DrainStable(d: Start, f: Feed, g: Feed, w: Worker, v: Worker)
    requires DrainInv(d, f, w) && g.log == f.log && g.committed == f.committed && g.acks == f.acks
    requires v.local.phase == w.local.phase && v.local.verdicts == w.local.verdicts && v.calls == w.calls
    ensures DrainInv(d, g, v)
  {
    hide Start.Target;
  }

  /** The worker has left its loop. */
  predicate Over(w: Worker) { w.local.phase.Draining? || w.local.phase.Done? }

  lemma OverStays(c: Config, l: Local, now: int, e: Event)
    requires Next(c, l, now, e).Some? && (l.phase.Draining? || l.phase.Done?)
    ensures Next(c, l, now, e).value.phase.Draining? || Next(c, l, now, e).value.phase.Done?
    ensures !e.PostIssued? && !e.AckIssued? && !e.Pulled?
  {
  }

  /** Every other worker the subscription ever had has left its loop. */
  predicate Alone(s: System, name: string, i: nat)
  {
    && i < |s.workers| && s.workers[i].Name() == name
    && forall j :: 0 <= j < |s.workers| && j != i && s.workers[j].Name() == name ==> Over(s.workers[j])
  }

  /** From s to t no worker is started for the subscription. */
  predicate NoneStarted(s: System, t: System, name: string)
  {
    forall j :: |s.workers| <= j < |t.workers| ==> t.workers[j].Name() != name
  }

  lemma StepKeepsAlone(s: System, st: Step, name: string, i: nat)
    requires Alone(s, name, i) && Apply(s, st).Some? && NoneStarted(s, Apply(s, st).value, name)
    ensures Alone(Apply(s, st).value, name, i)
  {
    hide Apply, Next;
    var t := Apply(s, st).value;
    StepGrows(s, st, name);
    forall j: nat | j < |t.workers| && j != i && t.workers[j].Name() == name ensures Over(t.workers[j]) {
      if st.WorkerStep? && st.i == j {
        OwnStep(s, j, st.event);
        OverStays(s.workers[j].config, s.workers[j].local, s.now, st.event);
      } else if st.HandlerReceives? && st.i == j {
        ReceivedFromBlocked(s, j);
        assert false;
      } else {
        Undisturbed(s, st, j);
      }
    }
  }

  /** What a run keeps of the subscription that worker i drains. */
  ghost predicate Draining(d: Start, s: System, name: string, i: nat)
  {
    && Alone(s, name, i) && s.workers[i].config.Max() as int == d.max
    && ContentInv(s, name) && AckBound(s.FeedOf(name)) && DrainInv(d, s.FeedOf(name), s.workers[i])
  }

  /** A step of another worker leaves the feed alone. */
  lemma OthersStandBy(s: System, st: Step, name: string, i: nat)
    requires Alone(s, name, i) && Apply(s, st).Some? && st.WorkerStep? && st.i != i
    ensures Apply(s, st).value.FeedOf(name) == s.FeedOf(name)
  {
    hide Apply, Next;
    StepFeed(s, st, name);
    if st.i < |s.workers| && s.workers[st.i].Name() == name {
      OwnStep(s, st.i, st.event);
      OverStays(s.workers[st.i].config, s.workers[st.i].local, s.now, st.event);
    }
  }

  lemma StepDrains(d: Start, s: System, st: Step, name: string, i: nat)
    requires Draining(d, s, name, i) && FullStep(s, st, name) && Apply(s, st).Some?
    requires NoneStarted(s, Apply(s, st).value, name)
    requires i < |Apply(s, st).value.workers| && AllGood(Apply(s, st).value.workers[i].local.verdicts, d.cycles)
    ensures Draining(d, Apply(s, st).value, name, i)
    ensures Apply(s, st).value.FeedOf(name).log == s.FeedOf(name).log
  {
    hide Apply, DrainInv, AckBound, FeedContent, IsSegment, FullPull, AllGood, Issue, NoneStarted;
    var t := Apply(s, st).value;
    var f, w := s.FeedOf(name), s.workers[i];
    StepKeepsAlone(s, st, name, i);
    StepGrows(s, st, name);
    StepKeepsContent(s, st, name);
    StepKeepsBound(s, st, name);
    StepFeed(s, st, name);
    if st.WorkerStep? && st.i == i {
      OwnStep(s, i, st.event);
      SameLog(f, i, w, st.event);
      OwnDrain(d, f, i, w, s.now, st.event);
    } else if st.HandlerReceives? && st.i == i {
      ReceivedFromBlocked(s, i);
      NotBlocked(d, f, w);
      assert false;
    } else {
      Undisturbed(s, st, i);
      if st.AckLands? && st.feed == name {
        LandsAckOnce(s, name, st.k);
        AckDrain(d, f, w, st.k);
        DrainStable(d, LandAck(f, st.k), LandAck(f, st.k), w, t.workers[i]);
      } else {
        if st.WorkerStep? { OthersStandBy(s, st, name, i); }
        DrainStable(d, f, t.FeedOf(name), w, t.workers[i]);
      }
    }
  }

  lemma SameLog(f: Feed, i: nat, w: Worker, e: Event)
    ensures Issue(f, i, w, e).log == f.log
  {
  }

  lemma ReceivedFromBlocked(s: System, i: nat)
    requires Apply(s, HandlerReceives(i)).Some?
    ensures i < |s.workers| && s.workers[i].local.phase.Blocked?
  {
  }

  lemma NotBlocked(d: Start, f: Feed, w: Worker)
    requires DrainInv(d, f, w)
    ensures !w.local.phase.Blocked?
  {
  }

  lemma LandsAckOnce(s: System, name: string, k: nat)
    requires Apply(s, AckLands(name, k)).Some?
    ensures k < |s.FeedOf(name).acks| && !s.FeedOf(name).acks[k].landed
  {
  }

  // ----------------------------------------------------------------- every run that drains

  lemma NextVerdicts(c: Config, l: Local, now: int, e: Event)
    requires Next(c, l, now, e).Some?
    ensures l.verdicts <= Next(c, l, now, e).value.verdicts
  {
    hide Body;
  }

  lemma StepVerdicts(s: System, st: Step, i: nat)
    requires Apply(s, st).Some? && i < |s.workers|
    ensures i < |Apply(s, st).value.workers|
    ensures s.workers[i].local.verdicts <= Apply(s, st).value.workers[i].local.verdicts
  {
    hide Apply, Next;
    if st.WorkerStep? && st.i == i {
      OwnStep(s, i, st.event);
      NextVerdicts(s.workers[i].config, s.workers[i].local, s.now, st.event);
      StepGrows(s, st, "");
    } else if st.HandlerReceives? && st.i == i {
      Duplicates.Received(s, i);
      StepGrows(s, st, "");
    } else {
      Undisturbed(s, st, i);
    }
  }

  lemma {:induction false} RunVerdicts(s: System, steps: seq<Step>, i: nat)
    requires RunSteps(s, steps).Some? && i < |s.workers|
    ensures i < |RunSteps(s, steps).value.workers|
    ensures s.workers[i].local.verdicts <= RunSteps(s, steps).value.workers[i].local.verdicts
    decreases |steps|
  {
    if steps == [] {
    } else {
      StepVerdicts(s, steps[0], i);
      RunVerdicts(Apply(s, steps[0]).value, steps[1..], i);
    }
  }

  lemma {:induction false} RunDrains(d: Start, s: System, steps: seq<Step>, name: string, i: nat)
    requires Draining(d, s, name, i) && FullRun(s, steps, name) && RunSteps(s, steps).Some?
    requires var t := RunSteps(s, steps).value;
             NoneStarted(s, t, name) && i < |t.workers| && AllGood(t.workers[i].local.verdicts, d.cycles)
    ensures Draining(d, RunSteps(s, steps).value, name, i)
    ensures RunSteps(s, steps).value.FeedOf(name).log == s.FeedOf(name).log
    decreases |steps|
  {
    hide Draining, FullStep;
    if steps == [] {
    } else {
      var u := Apply(s, steps[0]).value;
      assert i < |s.workers| by { IsThere(d, s, name, i); }
      StepVerdicts(s, steps[0], i);
      RunVerdicts(u, steps[1..], i);
      RunGrows(u, steps[1..], name);
      StepGrows(s, steps[0], name);
      StepDrains(d, s, steps[0], name, i);
      RunDrains(d, u, steps[1..], name, i);
    }
  }

  lemma IsThere(d: Start, s: System, name: string, i: nat)
    requires Draining(d, s, name, i)
    ensures i < |s.workers|
  {
  }

  /** How many batches of m hold n messages: n / m rounded up. */
  function Batches(n: nat, m: nat): (k: nat)
    requires m > 0
    ensures n <= k * m < n + m
    decreases n
  {
    if n == 0 then 0 else if n <= m then 1 else 1 + Batches(n - m, m)
  }

  lemma Multiples(a: nat, b: nat, m: nat)
    requires a <= b
    ensures a * m <= b * m
    ensures (a + 1) * m == a * m + m
  {
  }

  lemma EnoughBatches(n: nat, m: nat, k: nat)
    requires m > 0
    ensures k * m >= n <==> k >= Batches(n, m)
  {
    var b := Batches(n, m);
    if k >= b {
      Multiples(b, k, m);
    } else {
      Multiples(k, b - 1, m);
      Multiples(b - 1, b, m);
    }
  }

  function Backlog(f: Feed): int { |f.log| - f.committed }

  /** No acknowledgement that was given up can still commit anything. */
  predicate NonePending(f: Feed)
  {
    forall k :: 0 <= k < |f.acks| && !f.acks[k].landed ==> f.acks[k].id < f.committed
  }

  /** From s on, worker i alone serves the subscription, with full pulls, and its finished cycles went well. */
  ghost predicate DrainsAlone(s: System, steps: seq<Step>, name: string, i: nat)
  {
    && Alone(s, name, i) && s.workers[i].config.Max() >= 1
    && !s.workers[i].local.phase.InCycle()
    && RunSteps(s, steps).Some? && FullRun(s, steps, name)
    && var t := RunSteps(s, steps).value;
       && NoneStarted(s, t, name) && i < |t.workers| && !t.workers[i].local.phase.InCycle()
       && AllGood(t.workers[i].local.verdicts, |s.workers[i].local.verdicts|)
  }

  /** Cycles of worker i from s to t. */
  function CyclesBetween(s: System, t: System, i: nat): int
    requires i < |s.workers| && i < |t.workers|
  {
    |t.workers[i].local.verdicts| - |s.workers[i].local.verdicts|
  }

  /** What the drain began with. */
  function StartOf(s: System, name: string, i: nat): Start
    requires i < |s.workers| && s.workers[i].config.Max() >= 1
  {
    var f := s.FeedOf(name);
    Start(f.committed, |s.workers[i].local.verdicts|, s.workers[i].config.Max() as int, NonePending(f))
  }

  lemma KeepsDraining(host: string, now: int, skip: bool, before: seq<Step>, after: seq<Step>, name: string, i: nat)
    requires RunSteps(Init(host, now, skip), before).Some?
    requires DrainsAlone(RunSteps(Init(host, now, skip), before).value, after, name, i)
    ensures var s := RunSteps(Init(host, now, skip), before).value;
            var t := RunSteps(s, after).value;
            && Draining(StartOf(s, name, i), t, name, i) && t.FeedOf(name).log == s.FeedOf(name).log
            && s.FeedOf(name).committed <= |s.FeedOf(name).log|
  {
    hide RunSteps, ContentInv;
    var s := RunSteps(Init(host, now, skip), before).value;
    InitIsBound(host, now, skip, name);
    RunKeepsBound(Init(host, now, skip), before, name);
    BeginsDrain(StartOf(s, name, i), s, name, i);
    RunDrains(StartOf(s, name, i), s, after, name, i);
  }

  /**
   A backlog of n messages is gone after k cycles with a maximum of m if k is at least n / m rounded up; and
   when no earlier acknowledgement is pending, k cycles commit exactly k * m messages until all are, so that
   it is gone only then.
   */
  lemma BacklogDrains(host: string, now: int, skip: bool, before: seq<Step>, after: seq<Step>, name: string, i: nat)
    requires RunSteps(Init(host, now, skip), before).Some?
    requires DrainsAlone(RunSteps(Init(host, now, skip), before).value, after, name, i)
    ensures var s := RunSteps(Init(host, now, skip), before).value;
            var t := RunSteps(s, after).value;
            var n, k, m := Backlog(s.FeedOf(name)), CyclesBetween(s, t, i), s.workers[i].config.Max() as int;
            && 0 <= n && 0 <= k && 0 <= Backlog(t.FeedOf(name)) <= Max(n - k * m, 0)
            && (k >= Batches(n, m) ==> Backlog(t.FeedOf(name)) == 0)
            && (NonePending(s.FeedOf(name)) ==>
                  && Backlog(t.FeedOf(name)) == Max(n - k * m, 0)
                  && (Backlog(t.FeedOf(name)) == 0 <==> k >= Batches(n, m)))
  {
    hide RunSteps, Draining;
    var s := RunSteps(Init(host, now, skip), before).value;
    var t := RunSteps(s, after).value;
    KeepsDraining(host, now, skip, before, after, name, i);
    EndsDrain(StartOf(s, name, i), t, name, i);
    EnoughBatches(Backlog(s.FeedOf(name)), s.workers[i].config.Max() as int, CyclesBetween(s, t, i));
  }

  /** Until it is gone, no cycle finds nothing: the first n / m cycles, rounded up, succeed. */
  lemma BusyUntilGone(host: string, now: int, skip: bool, before: seq<Step>, after: seq<Step>, name: string, i: nat)
    requires RunSteps(Init(host, now, skip), before).Some?
    requires DrainsAlone(RunSteps(Init(host, now, skip), before).value, after, name, i)
    requires NonePending(RunSteps(Init(host, now, skip), before).value.FeedOf(name))
    ensures var s := RunSteps(Init(host, now, skip), before).value;
            var vs, j := RunSteps(s, after).value.workers[i].local.verdicts, |s.workers[i].local.verdicts|;
            && Backlog(s.FeedOf(name)) >= 0
            && forall q :: j <= q < |vs| && q - j < Batches(Backlog(s.FeedOf(name)), s.workers[i].config.Max() as int)
                 ==> vs[q].Succeeded?
  {
    hide RunSteps, Draining, Batches;
    var s := RunSteps(Init(host, now, skip), before).value;
    var t := RunSteps(s, after).value;
    var d := StartOf(s, name, i);
    KeepsDraining(host, now, skip, before, after, name, i);
    forall q | d.cycles <= q < |t.workers[i].local.verdicts| && q - d.cycles < Batches(Backlog(s.FeedOf(name)), d.max)
      ensures t.workers[i].local.verdicts[q].Succeeded?
    {
      NotIdleYet(d, t, name, i, q);
    }
  }

  lemma NotThere(d: Start, k: nat, length: nat)
    requires d.max > 0 && d.committed <= length && k < Batches(length - d.committed, d.max)
    ensures d.Target(k, length) < length
  {
    EnoughBatches(length - d.committed, d.max, k);
  }

  lemma NotIdleYet(d: Start, t: System, name: string, i: nat, q: nat)
    requires Draining(d, t, name, i) && d.exact && AllGood(t.workers[i].local.verdicts, d.cycles)
    requires d.max > 0 && d.committed <= |t.FeedOf(name).log|
    requires d.cycles <= q < |t.workers[i].local.verdicts|
    requires q - d.cycles < Batches(|t.FeedOf(name).log| - d.committed, d.max)
    ensures t.workers[i].local.verdicts[q].Succeeded?
  {
    hide ContentInv, Batches, AckBound, Start.Target;
    NotThere(d, q - d.cycles, |t.FeedOf(name).log|);
    assert Good(t.workers[i].local.verdicts[q]);
    assert IdleAtTheEnd(d, t.workers[i].local.verdicts, |t.FeedOf(name).log|);
  }

  lemma BeginsDrain(d: Start, s: System, name: string, i: nat)
    requires Alone(s, name, i) && s.workers[i].config.Max() as int == d.max
    requires !s.workers[i].local.phase.InCycle() && AckBound(s.FeedOf(name)) && ContentInv(s, name)
    requires d.committed == s.FeedOf(name).committed && d.cycles == |s.workers[i].local.verdicts|
    requires d.exact == NonePending(s.FeedOf(name))
    ensures Draining(d, s, name, i)
  {
  }

  lemma EndsDrain(d: Start, t: System, name: string, i: nat)
    requires Draining(d, t, name, i) && !t.workers[i].local.phase.InCycle()
    ensures var f, k := t.FeedOf(name), |t.workers[i].local.verdicts| - d.cycles;
            && 0 <= k && f.committed <= |f.log|
            && Reaches(d, f.committed, Min(d.committed + k * d.max, |f.log|))
  {
    hide ContentInv;
  }

  // ----------------------------------------------------------------- there is such a run

  lemma {:induction false} FullRunConcat(s: System, xs: seq<Step>, ys: seq<Step>, name: string)
    requires RunSteps(s, xs).Some? && FullRun(s, xs, name) && FullRun(RunSteps(s, xs).value, ys, name)
    ensures FullRun(s, xs + ys, name)
    decreases |xs|
  {
    hide FullStep;
    if xs == [] {
      assert xs + ys == ys;
    } else {
      assert (xs + ys)[1..] == xs[1..] + ys;
      FullRunConcat(Apply(s, xs[0]).value, xs[1..], ys, name);
    }
  }

  /** A step that publishes nothing and, if it is a pull of worker i, returns n messages from offset c on. */
  predicate PlainStep(st: Step, i: nat, c: nat, n: nat)
  {
    && !st.Publish?
    && (st.WorkerStep? && st.event.Pulled? ==>
          && st.i == i && st.event.reply.Received?
          && var b := st.event.reply.list.recMsgs; b != [] && b[0].ackId == c && |b| == n)
  }

  lemma StepKeepsLog(s: System, st: Step, name: string)
    requires Apply(s, st).Some? && !st.Publish?
    ensures Apply(s, st).value.FeedOf(name).log == s.FeedOf(name).log
  {
    hide Apply;
    StepFeed(s, st, name);
  }

  lemma {:induction false} PlainRunIsFull(s: System, steps: seq<Step>, name: string, i: nat, c: nat, n: nat)
    requires RunSteps(s, steps).Some? && i < |s.workers|
    requires forall st :: st in steps ==> PlainStep(st, i, c, n)
    requires n == Min(|s.FeedOf(name).log| - c, s.workers[i].config.Max() as int)
    ensures FullRun(s, steps, name)
    decreases |steps|
  {
    hide Apply;
    if steps == [] {
    } else {
      assert PlainStep(steps[0], i, c, n);
      StepKeepsLog(s, steps[0], name);
      StepGrows(s, steps[0], name);
      PlainRunIsFull(Apply(s, steps[0]).value, steps[1..], name, i, c, n);
    }
  }

  lemma CycleIsPlain(s: System, i: nat, n: nat)
    requires Offers(s, i, n)
    ensures forall st :: st in CycleSteps(s, i, n) ==> PlainStep(st, i, s.FeedOf(s.workers[i].Name()).committed, n)
  {
    hide Body;
  }

  /** The worker waits at its select and its subscription has a backlog. */
  predicate Ready(s: System, i: nat)
  {
    && Waiting(s, i) && s.workers[i].config.Max() >= 1
    && Backlog(s.FeedOf(s.workers[i].Name())) >= 0
  }

  function PullSize(s: System, i: nat): nat
    requires Ready(s, i)
  {
    Min(Backlog(s.FeedOf(s.workers[i].Name())), s.workers[i].config.Max() as int)
  }

  lemma CycleLeaves(s: System, i: nat, n: nat)
    requires Ready(s, i) && Offers(s, i, n)
    ensures var w, t := s.workers[i], AfterCycle(s, i, n);
            var v := t.workers[i];
            var p := RetryPolicies.AfterReset(w.local.policy, false);
            && Ready(t, i) && v.config == w.config && |t.workers| == |s.workers|
            && (forall j :: 0 <= j < |s.workers| && j != i ==> t.workers[j] == s.workers[j])
            && v.local.policy == p && v.local.verdicts == w.local.verdicts + [Succeeded(n)]
            && v.local.starts == w.local.starts + [NextStart(s, i)]
            && (p.Interval() >= 0 ==>
                  NextStart(t, i) == NextStart(s, i) + p.Interval() && t.now <= v.local.timer.deadline.value)
            && Backlog(t.FeedOf(w.Name())) == Backlog(s.FeedOf(w.Name())) - n
  {
    hide Body, Deliveries;
  }

  /** Cycles that pull what is there up to the maximum, until nothing is left. */
  function DrainSteps(s: System, i: nat): seq<Step>
    requires Ready(s, i)
    decreases Backlog(s.FeedOf(s.workers[i].Name()))
  {
    var n := PullSize(s, i);
    if n == 0 then []
    else
      CycleLeaves(s, i, n);
      CycleSteps(s, i, n) + DrainSteps(AfterCycle(s, i, n), i)
  }

  /** Push starts of k successful cycles, the first at time t under policy p. */
  function StartTimes(p: RetryPolicies.PolicyState, t: int, k: nat): (ts: seq<int>)
    ensures |ts| == k
    decreases k
  {
    if k == 0 then []
    else
      var q := RetryPolicies.AfterReset(p, false);
      [t] + StartTimes(q, t + q.Interval(), k - 1)
  }

  lemma BatchesStep(n: nat, m: nat)
    requires m > 0
    ensures n == 0 ==> Batches(n, m) == 0
    ensures n > 0 ==> Batches(n, m) == 1 + Batches(n - Min(n, m), m)
  {
  }

  lemma DrainsOn(s: System, xs: seq<Step>, ys: seq<Step>, name: string, i: nat, n: nat)
    requires Alone(s, name, i) && s.workers[i].config.Max() >= 1
    requires !s.workers[i].local.phase.InCycle() && RunSteps(s, xs).Some? && FullRun(s, xs, name)
    requires NoneStarted(s, RunSteps(s, xs).value, name)
    requires DrainsAlone(RunSteps(s, xs).value, ys, name, i)
    requires RunSteps(s, xs).value.workers[i].local.verdicts == s.workers[i].local.verdicts + [Succeeded(n)]
    ensures DrainsAlone(s, xs + ys, name, i)
    ensures RunSteps(s, xs + ys) == RunSteps(RunSteps(s, xs).value, ys)
  {
    hide RunSteps, FullRun;
    RunVerdicts(RunSteps(s, xs).value, ys, i);
    RunGrows(RunSteps(s, xs).value, ys, name);
    FullRunConcat(s, xs, ys, name);
    RunStepsConcat(s, xs, ys);
  }

  /** The steps above drain all of it. */
  ghost predicate Drains(s: System, i: nat, steps: seq<Step>)
    requires Ready(s, i) && DrainsAlone(s, steps, s.workers[i].Name(), i)
  {
    var w, t := s.workers[i], RunSteps(s, steps).value;
    var k := Batches(Backlog(s.FeedOf(w.Name())), w.config.Max() as int);
    && Backlog(t.FeedOf(w.Name())) == 0 && CyclesBetween(s, t, i) == k
    && t.workers[i].local.starts == w.local.starts + StartTimes(w.local.policy, NextStart(s, i), k)
  }

  lemma {:induction false} DrainStepsDrain(s: System, i: nat)
    requires Ready(s, i) && s.workers[i].local.policy.Valid() && Alone(s, s.workers[i].Name(), i)
    ensures DrainsAlone(s, DrainSteps(s, i), s.workers[i].Name(), i) && Drains(s, i, DrainSteps(s, i))
    decreases Backlog(s.FeedOf(s.workers[i].Name()))
  {
    hide RunSteps, CycleSteps, AfterCycle, Batches, FullRun, PlainStep;
    var w, n := s.workers[i], PullSize(s, i);
    BatchesStep(Backlog(s.FeedOf(w.Name())), w.config.Max() as int);
    if n == 0 {
      RunNothing(s);
      assert FullRun(s, [], w.Name()) by { NothingIsFull(s, w.Name()); }
    } else {
      var u := AfterCycle(s, i, n);
      CycleLeaves(s, i, n);
      CycleRun(s, i, n);
      DrainStepsDrain(u, i);
      CycleIsPlain(s, i, n);
      PlainRunIsFull(s, CycleSteps(s, i, n), w.Name(), i, s.FeedOf(w.Name()).committed, n);
      DrainsOn(s, CycleSteps(s, i, n), DrainSteps(u, i), w.Name(), i, n);
    }
  }

  /**
   From every state of every run in which the worker waits, with a maximum of at least 1, and the others of
   its subscription are over, there is such a run to the end of the backlog.
   */
  lemma CanDrain(host: string, now: int, skip: bool, before: seq<Step>, i: nat) returns (after: seq<Step>)
    requires RunSteps(Init(host, now, skip), before).Some?
    requires var s := RunSteps(Init(host, now, skip), before).value;
             Waiting(s, i) && s.workers[i].config.Max() >= 1 && Alone(s, s.workers[i].Name(), i)
    ensures var s := RunSteps(Init(host, now, skip), before).value;
            Ready(s, i) && DrainsAlone(s, after, s.workers[i].Name(), i) && Drains(s, i, after)
    ensures after == DrainSteps(RunSteps(Init(host, now, skip), before).value, i)
  {
    hide RunSteps, ContentInv, DrainsAlone, Drains, DrainSteps;
    var s := RunSteps(Init(host, now, skip), before).value;
    InitIsBound(host, now, skip, s.workers[i].Name());
    RunKeepsBound(Init(host, now, skip), before, s.workers[i].Name());
    Fleet.PoliciesOfEveryRun(host, now, skip, before, i);
    DrainStepsDrain(s, i);
    after := DrainSteps(s, i);
  }

  lemma NothingIsFull(s: System, name: string)
    ensures FullRun(s, [], name)
  {
  }
}
