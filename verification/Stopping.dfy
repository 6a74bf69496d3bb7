/**
 How a worker stops (push/worker.go): how many pushes it can still begin once its context is cancelled, and
 exactly which delays between Reset and select allow more.
 */
module Stopping {
  import opened GoTypes
  import opened Ams
  import opened RetryPolicies
  import opened Wire
  import opened Protocol
  import opened Pacing

  // ----------------------------------------------------------------- counting pushes and delays

  function LastReset(tr: seq<Timed>): Option<int>
  {
    if tr == [] then None
    else if tr[|tr| - 1].event.TimerReset? then Some(tr[|tr| - 1].at)
    else LastReset(tr[..|tr| - 1])
  }

  function Pushes(tr: seq<Timed>): nat
  {
    if tr == [] then 0 else Pushes(tr[..|tr| - 1]) + if tr[|tr| - 1].event.TickTaken? then 1 else 0
  }

  /** They are the pushes the worker has begun. */
  lemma {:induction false} PushesAreStarts(c: Config, l: Local, tr: seq<Timed>)
    requires Run(c, l, tr).Some?
    ensures |Run(c, l, tr).value.starts| == |l.starts| + Pushes(tr)
  {
    hide Body;
    if tr == [] {
    } else {
      PushesAreStarts(c, l, tr[..|tr| - 1]);
    }
  }

  /** Whatever happens at a select that follows a Reset happens within d of that Reset. */
  predicate Prompt(c: Config, l: Local, tr: seq<Timed>, d: nat)
  {
    forall k :: 0 <= k < |tr| ==> PromptAt(c, l, tr[..k], tr[k].at, d)
  }

  predicate PromptAt(c: Config, l: Local, before: seq<Timed>, at: int, d: nat)
  {
    var m := Run(c, l, before);
    m.Some? && m.value.phase.Selecting? && LastReset(before).Some? ==> at <= LastReset(before).value + d
  }

  /** The shortest interval the next Reset can leave: what it is told is open until the cycle has its verdict. */
  function NextInterval(l: Local): int
  {
    if l.phase.Blocked? || l.phase.Resetting? then AfterReset(l.policy, l.pushErr.Some?).Interval()
    else Min(AfterReset(l.policy, true).Interval(), AfterReset(l.policy, false).Interval())
  }

  /** The pushes a cancelled worker may still begin: one from its select, none when it is in a push already. */
  function Allowance(l: Local): nat { if l.phase.Selecting? then 1 else 0 }

  /** Where a cancelled worker can be, given what it has done since. */
  predicate Leaving(m: Local, allowance: nat, d: nat, reset: Option<int>, pushes: nat)
  {
    && m.cancelled && Token(m) && pushes <= allowance
    && match reset
       case None => d < NextInterval(m) && (m.phase.Selecting? ==> pushes < allowance)
       case Some(t) =>
         && !m.phase.InCycle() && !m.phase.Resetting?
         && (m.phase.Selecting? ==> m.timer.deadline.Some? && m.timer.deadline.value > t + d)
  }

  lemma LeavingKept(c: Config, m: Local, allowance: nat, d: nat, reset: Option<int>, pushes: nat, t: Timed)
    requires Leaving(m, allowance, d, reset, pushes) && Next(c, m, t.at, t.event).Some?
    requires m.phase.Selecting? && reset.Some? ==> t.at <= reset.value + d
    ensures Leaving(Next(c, m, t.at, t.event).value, allowance, d,
                    if t.event.TimerReset? then Some(t.at) else reset,
                    pushes + if t.event.TickTaken? then 1 else 0)
  {
    hide Body;
    TokenKept(c, m, t.at, t.event);
  }

  /**
   From cancellation on, a worker at its select begins at most one more push and any other none, when the
   delays between Reset and select stay below the interval; and at its select it can always leave.
   */
  lemma {:induction false} AtMostOneMorePush(c: Config, l: Local, tr: seq<Timed>, d: nat)
    requires l.cancelled && Token(l) && d < NextInterval(l)
    requires Run(c, l, tr).Some? && Prompt(c, l, tr, d)
    ensures Leaving(Run(c, l, tr).value, Allowance(l), d, LastReset(tr), Pushes(tr))
    ensures Pushes(tr) <= Allowance(l)
    ensures forall t :: Run(c, l, tr).value.phase.Selecting? ==> Next(c, Run(c, l, tr).value, t, CancelSeen).Some?
  {
    hide NextInterval;
    if tr == [] {
    } else {
      var init := tr[..|tr| - 1];
      assert forall k :: 0 <= k < |init| ==> init[..k] == tr[..k] && init[k] == tr[k];
      AtMostOneMorePush(c, l, init, d);
      assert PromptAt(c, l, init, tr[|tr| - 1].at, d);
      LeavingKept(c, Run(c, l, init).value, Allowance(l), d, LastReset(init), Pushes(init), tr[|tr| - 1]);
    }
  }

  // ----------------------------------------------------------------- and no smaller bound will do

  lemma {:induction false} NeverReset(tr: seq<Timed>)
    requires forall t :: t in tr ==> !t.event.TimerReset?
    ensures LastReset(tr) == None
  {
    if tr == [] {
    } else {
      NeverReset(tr[..|tr| - 1]);
    }
  }

  lemma PromptBeforeReset(c: Config, l: Local, tr: seq<Timed>, d: nat)
    requires forall t :: t in tr ==> !t.event.TimerReset?
    ensures LastReset(tr) == None && Prompt(c, l, tr, d)
  {
    NeverReset(tr);
    forall k | 0 <= k < |tr| ensures PromptAt(c, l, tr[..k], tr[k].at, d) { NeverReset(tr[..k]); }
  }

  lemma PromptSnoc(c: Config, l: Local, tr: seq<Timed>, t: Timed, d: nat)
    requires Prompt(c, l, tr, d) && PromptAt(c, l, tr, t.at, d)
    ensures Prompt(c, l, tr + [t], d)
    ensures LastReset(tr + [t]) == if t.event.TimerReset? then Some(t.at) else LastReset(tr)
    ensures Pushes(tr + [t]) == Pushes(tr) + if t.event.TickTaken? then 1 else 0
  {
    assert (tr + [t])[..|tr|] == tr;
    forall k | 0 <= k < |tr + [t]| ensures PromptAt(c, l, (tr + [t])[..k], (tr + [t])[k].at, d) {
      assert (tr + [t])[..k] == tr[..k];
      if k == |tr| { assert tr[..k] == tr; }
    }
  }

  predicate HoldsMessages(l: Local) { l.phase.HasBatch() ==> l.phase.batch != [] }

  function Distance(p: Phase): nat
  {
    match p
    case Consuming => 5
    case Holding(_) => 4
    case Posting(_) => 3
    case Delivered(_) => 2
    case Acking(_) => 1
    case _ => 0
  }

  const ONE_MESSAGE: ReceivedMessagesList := ReceivedMessagesList([ReceivedMessage(0, Message("", map[], [], ""))])

  /** A step that brings a cycle nearer to the end with that outcome. */
  function Onward(c: Config, l: Local, err: bool): Event
  {
    match l.phase
    case Consuming =>
      Pulled(c.consumer.fullSub, c.Max(), if err then PullFailed(OtherError) else Received(ONE_MESSAGE))
    case Holding(b) => if b == [] then TimerReset else PostIssued(c.sender.Destination(), Body(c, b))
    case Posting(_) => PostAnswered(!err)
    case Delivered(b) =>
      if b == [] then TimerReset else AckIssued(c.consumer.fullSub, ReceivedMessagesList(b).Last().ackId)
    case Acking(_) => AckAnswered(!err)
    case Blocked(error) => ErrorHanded(error)
    case _ => TimerReset
  }

  lemma OnwardStep(c: Config, l: Local, t: int, err: bool)
    requires l.phase.InCycle() && HoldsMessages(l)
    ensures var m := Next(c, l, t, Onward(c, l, err));
            && m.Some? && HoldsMessages(m.value) && m.value.timer == l.timer && m.value.policy == l.policy
            && !Onward(c, l, err).TimerReset? && !Onward(c, l, err).TickTaken?
            && (m.value.phase.Resetting? || (m.value.phase.InCycle() && !m.value.phase.Blocked? && !l.phase.Blocked?
                                             && Distance(m.value.phase) < Distance(l.phase)))
            && (m.value.phase.Resetting? ==> m.value.pushErr.Some? == if l.phase.Blocked? then l.pushErr.Some? else err)
  {
    hide Body;
  }

  /** A cycle can still end either way, unless what it ends with is settled. */
  lemma {:induction false} CycleCanEnd(c: Config, l: Local, t: int, err: bool) returns (tr: seq<Timed>)
    requires l.phase.InCycle() && HoldsMessages(l)
    ensures forall x :: x in tr ==> !x.event.TimerReset? && !x.event.TickTaken? && x.at == t
    ensures var m := Run(c, l, tr);
            && m.Some? && m.value.phase.Resetting? && m.value.policy == l.policy && m.value.timer == l.timer
            && m.value.pushErr.Some? == if l.phase.Blocked? then l.pushErr.Some? else err
    decreases Distance(l.phase)
  {
    hide Run, Onward, HoldsMessages;
    var x := Timed(t, Onward(c, l, err));
    OnwardStep(c, l, t, err);
    RunOne(c, l, x);
    var m := Next(c, l, t, x.event).value;
    if m.phase.Resetting? {
      tr := [x];
    } else {
      var rest := CycleCanEnd(c, m, t, err);
      RunConcat(c, l, [x], rest);
      tr := [x] + rest;
    }
  }

  lemma {:induction false} NoPushIn(tr: seq<Timed>)
    requires forall t :: t in tr ==> !t.event.TickTaken?
    ensures Pushes(tr) == 0
  {
    if tr == [] {
    } else {
      NoPushIn(tr[..|tr| - 1]);
    }
  }

  lemma {:induction false} PushesConcat(xs: seq<Timed>, ys: seq<Timed>)
    ensures Pushes(xs + ys) == Pushes(xs) + Pushes(ys)
  {
    if ys == [] {
      assert xs + ys == xs;
    } else {
      PushesConcat(xs, ys[..|ys| - 1]);
      assert (xs + ys)[..|xs + ys| - 1] == xs + ys[..|ys| - 1];
    }
  }

  /** From a select the worker can begin a push. */
  lemma PushCanBegin(c: Config, l: Local, t: int) returns (tr: seq<Timed>)
    requires l.phase.Selecting? && Token(l) && (l.timer.deadline.Some? ==> l.timer.deadline.value <= t)
    ensures forall x :: x in tr ==> !x.event.TimerReset? && x.at == t
    ensures Pushes(tr) == 1 && |tr| <= 2
    ensures Run(c, l, tr) == Some(l.(phase := Consuming, timer := TimerState(None, false), starts := l.starts + [t]))
  {
    hide Run;
    if l.timer.tick {
      tr := [Timed(t, TickTaken)];
      RunOne(c, l, tr[0]);
    } else {
      tr := [Timed(t, TimerFired), Timed(t, TickTaken)];
      RunTwo(c, l, tr[0], tr[1]);
      NoPushIn(tr[..1]);
    }
  }

  /** A trace to the next Reset, all of it at time t, with what that Reset is told. */
  lemma WayToReset(c: Config, l: Local, t: int, err: bool) returns (tr: seq<Timed>)
    requires Token(l) && HoldsMessages(l) && !l.phase.Draining? && !l.phase.Done?
    requires l.timer.deadline.Some? ==> l.timer.deadline.value <= t
    ensures forall x :: x in tr ==> !x.event.TimerReset? && x.at == t
    ensures Pushes(tr) == Allowance(l)
    ensures var m := Run(c, l, tr);
            && m.Some? && m.value.phase.Resetting? && m.value.policy == l.policy
            && m.value.timer == TimerState(None, false)
            && m.value.pushErr.Some? == if l.phase.Blocked? || l.phase.Resetting? then l.pushErr.Some? else err
  {
    hide Run, Pushes;
    if l.phase.Resetting? {
      tr := [];
      RunNone(c, l);
      NoPushIn(tr);
    } else if l.phase.Selecting? {
      var begin := PushCanBegin(c, l, t);
      var rest := CycleCanEnd(c, Run(c, l, begin).value, t, err);
      RunConcat(c, l, begin, rest);
      PushesConcat(begin, rest);
      NoPushIn(rest);
      tr := begin + rest;
    } else {
      tr := CycleCanEnd(c, l, t, err);
      NoPushIn(tr);
    }
  }

  /** The clock of the trace starts no earlier than now and never runs backwards. */
  predicate Ordered(now: int, tr: seq<Timed>)
  {
    && (forall k :: 0 <= k < |tr| ==> now <= tr[k].at)
    && forall k :: 0 < k < |tr| ==> tr[k - 1].at <= tr[k].at
  }

  /** If the delay may reach the interval that Reset leaves, a push can follow the Reset. */
  lemma OnePushTooMany(c: Config, l: Local, now: int, err: bool, d: nat) returns (tr: seq<Timed>)
    requires Token(l) && HoldsMessages(l) && !l.phase.Draining? && !l.phase.Done? && l.policy.Valid()
    requires var told := if l.phase.Blocked? || l.phase.Resetting? then l.pushErr.Some? else err;
             0 <= AfterReset(l.policy, told).Interval() <= d
    ensures Run(c, l, tr).Some? && Ordered(now, tr) && Prompt(c, l, tr, d) && Pushes(tr) == Allowance(l) + 1
  {
    hide Run, Prompt, Pushes, LastReset, AfterReset, HoldsMessages;
    var t := if l.timer.deadline.Some? then Max(now, l.timer.deadline.value) else now;
    var xs := WayToReset(c, l, t, err);
    var m := Run(c, l, xs).value;
    PromptBeforeReset(c, l, xs, d);
    var reset := Timed(t, TimerReset);
    RunSnoc(c, l, xs, reset);
    PromptSnoc(c, l, xs, reset, d);
    var n := Next(c, m, t, TimerReset).value;
    var at := n.timer.deadline.value;
    var ys := xs + [reset];
    var fire, take := Timed(at, TimerFired), Timed(at, TickTaken);
    RunSnoc(c, l, ys, fire);
    PromptSnoc(c, l, ys, fire, d);
    RunSnoc(c, l, ys + [fire], take);
    PromptSnoc(c, l, ys + [fire], take, d);
    tr := ys + [fire] + [take];
    assert forall k :: 0 <= k < |xs| ==> tr[k] == xs[k];
  }

  /** From time now on, with delays of at most d, every run stays within the allowance. */
  ghost predicate Stops(c: Config, l: Local, now: int, d: nat)
  {
    forall tr :: Run(c, l, tr).Some? && Ordered(now, tr) && Prompt(c, l, tr, d) ==> Pushes(tr) <= Allowance(l)
  }

  /**
   Exactly when a cancelled worker stops: the delays between Reset and select must stay below the interval
   the Reset leaves. For a linear policy of period 0 no bound is small enough.
   */
  lemma StopsIff(c: Config, l: Local, now: int, d: nat)
    requires l.cancelled && Token(l) && HoldsMessages(l) && !l.phase.Draining? && !l.phase.Done? && l.policy.Valid()
    ensures Stops(c, l, now, d) <==> d < NextInterval(l)
  {
    if d < NextInterval(l) {
      forall tr | Run(c, l, tr).Some? && Ordered(now, tr) && Prompt(c, l, tr, d) ensures Pushes(tr) <= Allowance(l) {
        AtMostOneMorePush(c, l, tr, d);
      }
    } else {
      var err := d >= AfterReset(l.policy, true).Interval();
      var tr := OnePushTooMany(c, l, now, err, d);
    }
  }
}
