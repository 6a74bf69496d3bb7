/**
 What every step of a worker keeps: the timer token, the coupling between the retained error and the
 retry policy, and the spacing of push starts.
 */
module Pacing {
  import opened GoTypes
  import opened RetryPolicies
  import opened Wire
  import opened Protocol
  import Consumers

  // ----------------------------------------------------------------- the timer token

  /** At the select exactly one of "armed" and "tick buffered" holds; a drain always finds its tick. */
  predicate Token(l: Local)
  {
    match l.phase
    case Selecting => l.timer.deadline.Some? != l.timer.tick
    case Draining => l.timer.deadline.None? && l.timer.tick
    case _ => l.timer.deadline.None? && !l.timer.tick
  }

  // ----------------------------------------------------------------- retained error and policy

  /** The error of the last decisive cycle, neither idle nor cancelable, if that cycle failed. */
  function LastError(vs: seq<Verdict>): Option<Stage>
  {
    if vs == [] then None
    else
      match vs[|vs| - 1]
      case Succeeded(_) => None
      case Failed(stage, _) => Some(stage)
      case _ => LastError(vs[..|vs| - 1])
  }

  predicate Retained(vs: seq<Verdict>) { LastError(vs).Some? }

  /** What the policy was told, cycle by cycle: idle and cancelable cycles repeat the verdict before them. */
  function Told(vs: seq<Verdict>): (h: seq<bool>)
    ensures |h| == |vs|
    ensures vs != [] ==> h[|h| - 1] == Retained(vs)
  {
    if vs == [] then [] else Told(vs[..|vs| - 1]) + [Retained(vs)]
  }

  /** The cycles whose verdict the policy has already been told. */
  function Closed(l: Local): seq<Verdict>
  {
    if l.phase.Resetting? && l.verdicts != [] then l.verdicts[..|l.verdicts| - 1] else l.verdicts
  }

  predicate Coupled(p0: PolicyState, l: Local)
  {
    && (l.phase.Resetting? ==> l.verdicts != [])
    && l.pushErr == LastError(l.verdicts)
    && l.policy == AfterHistory(p0, Told(Closed(l)))
  }

  // ----------------------------------------------------------------- spacing

  /** The interval in force after these cycles. */
  function Gap(p0: PolicyState, vs: seq<Verdict>): int
  {
    AfterHistory(p0, Told(vs)).Interval()
  }

  /** From its first moment every push start lies at least the interval in force after the start before it. */
  predicate Spaced(p0: PolicyState, vs: seq<Verdict>, starts: seq<int>)
  {
    && |starts| <= |vs| + 1
    && forall k :: 0 < k < |starts| ==> starts[k] >= starts[k - 1] + Gap(p0, vs[..k])
  }

  predicate Paced(p0: PolicyState, l: Local, now: int)
  {
    && |l.starts| == |l.verdicts| + (if l.phase.InCycle() then 1 else 0)
    && Spaced(p0, l.verdicts, l.starts)
    && (l.starts != [] ==>
          var last := l.starts[|l.starts| - 1];
          && last <= now
          && (l.phase.Selecting? && l.timer.deadline.Some? ==>
                l.timer.deadline.value >= last + Gap(p0, l.verdicts))
          && (l.phase.Selecting? && l.timer.tick ==> now >= last + Gap(p0, l.verdicts)))
  }

  ghost predicate WorkerInv(p0: PolicyState, l: Local, now: int)
  {
    Token(l) && Coupled(p0, l) && Paced(p0, l, now)
  }

  lemma FreshHasInv(p0: PolicyState, first: int, now: int)
    ensures WorkerInv(p0, Fresh(p0, first, now), now)
  {
  }

  lemma TimePasses(p0: PolicyState, l: Local, now: int, later: int)
    requires WorkerInv(p0, l, now) && now <= later
    ensures WorkerInv(p0, l, later)
  {
  }

  lemma TokenKept(c: Config, l: Local, now: int, e: Event)
    requires Token(l) && Next(c, l, now, e).Some?
    ensures Token(Next(c, l, now, e).value)
  {
  }

  lemma FinishKeepsCoupling(p0: PolicyState, l: Local, v: Verdict)
    requires Coupled(p0, l) && l.phase.InCycle()
    ensures Coupled(p0, Finish(l, v))
  {
    var m := Finish(l, v);
    assert m.verdicts[..|m.verdicts| - 1] == l.verdicts;
  }

  lemma FinishKeepsPace(p0: PolicyState, l: Local, v: Verdict, now: int)
    requires Paced(p0, l, now) && l.phase.InCycle()
    ensures Paced(p0, Finish(l, v), now)
  {
    var m := Finish(l, v);
    forall k | 0 < k < |m.starts| ensures m.starts[k] >= m.starts[k - 1] + Gap(p0, m.verdicts[..k]) {
      assert m.verdicts[..k] == l.verdicts[..k];
    }
  }

  lemma ToldSnoc(p0: PolicyState, vs: seq<Verdict>)
    requires vs != []
    ensures AfterHistory(p0, Told(vs)) == AfterReset(AfterHistory(p0, Told(vs[..|vs| - 1])), Retained(vs))
  {
    var h := Told(vs);
    assert h[..|h| - 1] == Told(vs[..|vs| - 1]);
  }

  lemma ResetKeeps(c: Config, p0: PolicyState, l: Local, now: int)
    requires WorkerInv(p0, l, now) && l.phase.Resetting?
    ensures WorkerInv(p0, Next(c, l, now, TimerReset).value, now)
  {
    hide LastError, Told, Spaced, AfterReset, AfterHistory;
    ToldSnoc(p0, l.verdicts);
  }

  lemma TickKeepsPace(c: Config, p0: PolicyState, l: Local, now: int)
    requires WorkerInv(p0, l, now) && Next(c, l, now, TickTaken).Some?
    ensures WorkerInv(p0, Next(c, l, now, TickTaken).value, now)
  {
    hide Gap, Retained, Told;
    var m := Next(c, l, now, TickTaken).value;
    assert l.verdicts[..|l.verdicts|] == l.verdicts;
    forall k | 0 < k < |m.starts| ensures m.starts[k] >= m.starts[k - 1] + Gap(p0, m.verdicts[..k]) {
      if k < |l.starts| { assert m.starts[k] == l.starts[k]; }
    }
  }

  /** The verdict a step of the cycle ends it with, if it ends it. */
  function Ends(c: Config, l: Local, e: Event): Option<Verdict>
  {
    match e
    case Pulled(_, _, reply) =>
      (match Consumers.Consumed(reply)
       case Messages(_) => None
       case ConsumeFailed(err) =>
         if c.consumer.ToCancelableError(err).Some? then None
         else Some(if err.NoNewMessages? then Idle else Failed(ConsumeStage, 0)))
    case PostAnswered(ok) => if l.phase.Posting? && !ok then Some(Failed(SendStage, |l.phase.batch|)) else None
    case AckAnswered(ok) =>
      if !l.phase.Acking? then None
      else Some(if ok then Succeeded(|l.phase.batch|) else Failed(AckStage, |l.phase.batch|))
    case ErrorHanded(_) => Some(Cancelable)
    case _ => None
  }

  lemma EndKeepsInv(c: Config, p0: PolicyState, l: Local, now: int, e: Event)
    requires WorkerInv(p0, l, now) && Next(c, l, now, e).Some? && Ends(c, l, e).Some?
    ensures WorkerInv(p0, Next(c, l, now, e).value, now)
  {
    hide Gap, Retained, Told, Body, Spaced, Coupled, Paced;
    FinishKeepsCoupling(p0, l, Ends(c, l, e).value);
    FinishKeepsPace(p0, l, Ends(c, l, e).value, now);
  }

  /** The timer, the cancellation and the way out of the loop. */
  lemma OutsideKeepsInv(c: Config, p0: PolicyState, l: Local, now: int, e: Event)
    requires WorkerInv(p0, l, now) && Next(c, l, now, e).Some?
    requires e.TimerFired? || e.ContextCancelled? || e.CancelSeen? || e.TickDrained?
    ensures WorkerInv(p0, Next(c, l, now, e).value, now)
  {
    hide Gap, Retained, Told, Spaced, AfterReset, AfterHistory;
  }

  /** A step from one call to the next. */
  lemma InsideKeepsInv(c: Config, p0: PolicyState, l: Local, now: int, e: Event)
    requires WorkerInv(p0, l, now) && Next(c, l, now, e).Some? && Ends(c, l, e).None?
    requires e.Pulled? || e.PostIssued? || e.PostAnswered? || e.AckIssued?
    ensures WorkerInv(p0, Next(c, l, now, e).value, now)
  {
    hide Gap, Retained, Told, Body, Spaced, AfterReset, AfterHistory;
  }

  lemma StepKeepsInv(c: Config, p0: PolicyState, l: Local, now: int, e: Event)
    requires WorkerInv(p0, l, now) && Next(c, l, now, e).Some?
    ensures WorkerInv(p0, Next(c, l, now, e).value, now)
  {
    if Ends(c, l, e).Some? {
      EndKeepsInv(c, p0, l, now, e);
    } else {
      hide WorkerInv;
      match e
      case TickTaken => TickKeepsPace(c, p0, l, now);
      case TimerReset => OnlyWhenResetting(c, l, now); ResetKeeps(c, p0, l, now);
      case Pulled(_, _, _) => InsideKeepsInv(c, p0, l, now, e);
      case PostIssued(_, _) => InsideKeepsInv(c, p0, l, now, e);
      case PostAnswered(_) => InsideKeepsInv(c, p0, l, now, e);
      case AckIssued(_, _) => InsideKeepsInv(c, p0, l, now, e);
      case _ => OutsideKeepsInv(c, p0, l, now, e);
    }
  }

  lemma OnlyWhenResetting(c: Config, l: Local, now: int)
    requires Next(c, l, now, TimerReset).Some?
    ensures l.phase.Resetting?
  {
  }

  // ----------------------------------------------------------------- consequences

  lemma {:induction false} LastTold(h: seq<bool>)
    ensures AfterHistory(FRESH, h).Flagged() == (h != [] && h[|h| - 1])
  {
    AfterHistoryValid(FRESH, h);
    if h != [] { AfterHistoryValid(FRESH, h[..|h| - 1]); }
  }

  /**
   At the head of the loop the slow-start flag, the retained error and the last decisive verdict agree,
   and the interval is the closed form of what the policy was told.
   */
  lemma LoopHeadCoupling(l: Local, now: int)
    requires WorkerInv(FRESH, l, now) && !l.phase.Resetting?
    ensures l.policy == ClosedForm(Told(l.verdicts))
    ensures l.policy.Flagged() == l.pushErr.Some? == Retained(l.verdicts)
  {
    LastTold(Told(l.verdicts));
    SlowstartClosedForm(Told(l.verdicts));
  }

  /** How many starts lie in the window [a, b). */
  function StartsIn(starts: seq<int>, a: int, b: int): nat
  {
    if starts == [] then 0
    else
      var t := starts[|starts| - 1];
      StartsIn(starts[..|starts| - 1], a, b) + if a <= t < b then 1 else 0
  }

  lemma {:induction false} StartsInCounts(starts: seq<int>, a: int, b: int)
    ensures StartsIn(starts, a, b) == |set k | 0 <= k < |starts| && a <= starts[k] < b|
  {
    if starts == [] {
    } else {
      var n := |starts| - 1;
      StartsInCounts(starts[..n], a, b);
      var before := set k | 0 <= k < n && a <= starts[..n][k] < b;
      var all := set k | 0 <= k < |starts| && a <= starts[k] < b;
      assert all == before + if a <= starts[n] < b then {n} else {};
    }
  }

  predicate Apart(starts: seq<int>, g: int)
  {
    forall k :: 0 < k < |starts| ==> starts[k] >= starts[k - 1] + g
  }

  lemma {:induction false} WindowHolds(starts: seq<int>, g: int, a: int, b: int)
    requires g > 0 && Apart(starts, g)
    ensures var n := StartsIn(starts, a, b);
            n > 0 ==> (n - 1) * g < b - a && (n - 1) * g <= starts[|starts| - 1] - a
  {
    if starts == [] {
    } else {
      var init := starts[..|starts| - 1];
      WindowHolds(init, g, a, b);
      var m := StartsIn(init, a, b);
      assert m > 0 ==> m * g == (m - 1) * g + g;
    }
  }

  /** The shortest interval of a policy. */
  function Shortest(p0: PolicyState): int
  {
    if p0.LinearState? then p0.period else LOWER_BOUND
  }

  lemma SpacedIsApart(p0: PolicyState, l: Local, now: int)
    requires p0.Valid() && Paced(p0, l, now)
    ensures Apart(l.starts, Shortest(p0))
  {
    forall k | 0 < k < |l.starts| ensures l.starts[k] >= l.starts[k - 1] + Shortest(p0) {
      AfterHistoryValid(p0, Told(l.verdicts[..k]));
      assert Gap(p0, l.verdicts[..k]) >= Shortest(p0);
    }
  }

  /** n starts that lie g apart have room in a half-open window of length t. */
  predicate Fit(n: nat, g: int, t: nat)
  {
    n > 0 ==> (n - 1) * g < t
  }

  /** For the bound of slow start: at most t / 300 ms of them, rounded up. */
  lemma FitSlowstart(n: nat, t: nat)
    requires Fit(n, 300_000_000, t)
    ensures n <= (t + 299_999_999) / 300_000_000
  {
  }

  /** The starts of a worker in any window fit there with the shortest interval of its policy between them. */
  lemma WindowOfStarts(p0: PolicyState, l: Local, now: int, a: int, t: nat)
    requires p0.Valid() && Shortest(p0) > 0 && WorkerInv(p0, l, now)
    ensures Fit(StartsIn(l.starts, a, a + t), Shortest(p0), t)
  {
    SpacedIsApart(p0, l, now);
    hide WorkerInv, StartsIn, Apart, Shortest;
    WindowHolds(l.starts, Shortest(p0), a, a + t);
  }
}
