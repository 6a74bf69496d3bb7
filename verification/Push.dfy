/** The push worker object (push/worker.go), proved to perform only steps of Protocol. */
module Push {
  import opened GoTypes
  import opened Ams
  import opened Wire
  import opened Protocol
  import Base64
  import Consumers
  import Pacing
  import RetryPolicies
  import Senders

  /**
   What happens around one pass of the loop in Start: the worker may be stopped before its select or, if it
   comes to a push, during that; preferCancel decides when the select has a choice. A stop during a push is
   recorded at the end of the push: by Protocol.StopCanWait no earlier moment makes a difference.
   */
  datatype Round = Round(wait: nat, stop: bool, preferCancel: bool, answers: Answers, stopInPush: bool)

  /** The surroundings' part of a round: the worker may be stopped, its timer may fire. */
  function SurroundingEvents(l: Local, t: int, r: Round): seq<Timed>
  {
    (if r.stop then [Timed(t, ContextCancelled)] else []) + (if l.timer.Due(t) then [Timed(t, TimerFired)] else [])
  }

  function AfterSurroundings(l: Local, t: int, r: Round): Local
  {
    l.(cancelled := l.cancelled || r.stop, timer := if l.timer.Due(t) then l.timer.Fire() else l.timer)
  }

  /** Select takes the tick: a push, and the timer is set again. */
  function PushEvents(c: Config, t: int, a: Answers, stop: bool): seq<Timed>
  {
    [Timed(t, TickTaken)] + CycleEvents(c, t, a) + StopEvents(c, t, a, stop) + [Timed(CycleEnd(c, t, a), TimerReset)]
  }

  function StopEvents(c: Config, t: int, a: Answers, stop: bool): seq<Timed>
  {
    if stop then [Timed(CycleEnd(c, t, a), ContextCancelled)] else []
  }

  function BeforeReset(c: Config, l: Local, t: int, a: Answers, stop: bool): Local
  {
    Finish(l.(timer := l.timer.(tick := false), starts := l.starts + [t]), CycleVerdict(c, a))
    .(cancelled := l.cancelled || stop)
  }

  function AfterPush(c: Config, l: Local, t: int, a: Answers, stop: bool): Local
  {
    var m := BeforeReset(c, l, t, a, stop);
    var p := RetryPolicies.AfterReset(m.policy, m.pushErr.Some?);
    m.(phase := Selecting, policy := p,
       timer := m.timer.(deadline := Some(CycleEnd(c, t, a) + p.Interval())))
  }

  /** Select sees the cancellation: the timer is stopped, and drained if it had fired. */
  function LeaveEvents(l: Local, t: int): seq<Timed>
  {
    [Timed(t, CancelSeen)] + if l.timer.deadline.Some? then [] else [Timed(t, TickDrained)]
  }

  function AfterLeave(l: Local): Local
  {
    l.(phase := Done, timer := RetryPolicies.TimerState(None, false))
  }

  predicate TakesTick(l: Local, r: Round) { l.timer.tick && !(l.cancelled && r.preferCancel) }

  /** The worker's part: one pass through the select, or nothing when no case is ready. */
  function SelectEvents(c: Config, l: Local, t: int, r: Round): seq<Timed>
  {
    if TakesTick(l, r) then PushEvents(c, t, r.answers, r.stopInPush) else if l.cancelled then LeaveEvents(l, t) else []
  }

  function AfterSelect(c: Config, l: Local, t: int, r: Round): Local
  {
    if TakesTick(l, r) then AfterPush(c, l, t, r.answers, r.stopInPush) else if l.cancelled then AfterLeave(l) else l
  }

  function SelectEnd(c: Config, l: Local, t: int, r: Round): int
  {
    if TakesTick(l, r) then CycleEnd(c, t, r.answers) else t
  }

  /** Everything exchanged while the loop runs through these rounds, or until it ends. */
  function StartEvents(c: Config, l: Local, now: int, rs: seq<Round>): seq<Timed>
    decreases |rs|
  {
    if rs == [] || !l.phase.Selecting? then []
    else
      var t, r := now + rs[0].wait, rs[0];
      var m := AfterSurroundings(l, t, r);
      SurroundingEvents(l, t, r) + SelectEvents(c, m, t, r)
      + StartEvents(c, AfterSelect(c, m, t, r), SelectEnd(c, m, t, r), rs[1..])
  }

  function AfterStart(c: Config, l: Local, now: int, rs: seq<Round>): Local
    decreases |rs|
  {
    if rs == [] || !l.phase.Selecting? then l
    else
      var t, r := now + rs[0].wait, rs[0];
      var m := AfterSurroundings(l, t, r);
      AfterStart(c, AfterSelect(c, m, t, r), SelectEnd(c, m, t, r), rs[1..])
  }

  /** When the loop is through with these rounds. */
  function StartEnd(c: Config, l: Local, now: int, rs: seq<Round>): int
    decreases |rs|
  {
    if rs == [] || !l.phase.Selecting? then now
    else
      var t, r := now + rs[0].wait, rs[0];
      var m := AfterSurroundings(l, t, r);
      StartEnd(c, AfterSelect(c, m, t, r), SelectEnd(c, m, t, r), rs[1..])
  }

  lemma FirstRound(c: Config, l: Local, now: int, rs: seq<Round>)
    requires rs != [] && l.phase.Selecting?
    ensures var t, r := now + rs[0].wait, rs[0];
            var m := AfterSurroundings(l, t, r);
            var k := AfterSelect(c, m, t, r);
            && AfterStart(c, l, now, rs) == AfterStart(c, k, SelectEnd(c, m, t, r), rs[1..])
            && StartEnd(c, l, now, rs) == StartEnd(c, k, SelectEnd(c, m, t, r), rs[1..])
            && StartEvents(c, l, now, rs) == SurroundingEvents(l, t, r) + SelectEvents(c, m, t, r)
                                             + StartEvents(c, k, SelectEnd(c, m, t, r), rs[1..])
  {
  }

  lemma NoRound(c: Config, l: Local, now: int, rs: seq<Round>)
    requires rs == [] || !l.phase.Selecting?
    ensures AfterStart(c, l, now, rs) == l && StartEvents(c, l, now, rs) == [] && StartEnd(c, l, now, rs) == now
  {
  }

  // ----------------------------------------------------------------- the loop only takes steps of the protocol

  lemma SurroundingsAreRun(c: Config, l: Local, t: int, r: Round)
    ensures Run(c, l, SurroundingEvents(l, t, r)) == Some(AfterSurroundings(l, t, r))
  {
    hide Run, Body;
    var es := SurroundingEvents(l, t, r);
    if |es| == 2 {
      assert es == [es[0], es[1]];
      RunTwo(c, l, es[0], es[1]);
    } else if |es| == 1 {
      assert es == [es[0]];
      RunOne(c, l, es[0]);
    } else {
      assert es == [];
      RunNone(c, l);
    }
  }

  lemma PushIsRun(c: Config, l: Local, t: int, a: Answers, stop: bool)
    requires l.phase.Selecting? && l.timer.tick
    ensures Run(c, l, PushEvents(c, t, a, stop)) == Some(AfterPush(c, l, t, a, stop))
  {
    hide Run, CycleEvents, CycleVerdict, CycleEnd;
    var es := [Timed(t, TickTaken)] + CycleEvents(c, t, a);
    RunOne(c, l, Timed(t, TickTaken));
    CycleIsRun(c, Next(c, l, t, TickTaken).value, t, a);
    RunConcat(c, l, [Timed(t, TickTaken)], CycleEvents(c, t, a));
    if stop {
      RunSnoc(c, l, es, Timed(CycleEnd(c, t, a), ContextCancelled));
    } else {
      assert es + [] == es;
    }
    RunSnoc(c, l, es + StopEvents(c, t, a, stop), Timed(CycleEnd(c, t, a), TimerReset));
  }

  lemma SelectIsRun(c: Config, l: Local, t: int, r: Round)
    requires l.phase.Selecting? && Pacing.Token(l)
    ensures Run(c, l, SelectEvents(c, l, t, r)) == Some(AfterSelect(c, l, t, r))
    ensures Pacing.Token(AfterSelect(c, l, t, r))
  {
    var es := SelectEvents(c, l, t, r);
    if TakesTick(l, r) {
      PushIsRun(c, l, t, r.answers, r.stopInPush);
    } else if |es| == 2 {
      RunTwo(c, l, es[0], es[1]);
    } else if |es| == 1 {
      RunOne(c, l, es[0]);
    }
  }

  /** Start refines the step relation, whatever its surroundings do. */
  lemma {:induction false} StartIsRun(c: Config, l: Local, now: int, rs: seq<Round>)
    requires l.phase.Selecting? || l.phase.Done?
    requires Pacing.Token(l)
    ensures Run(c, l, StartEvents(c, l, now, rs)) == Some(AfterStart(c, l, now, rs))
    decreases |rs|
  {
    hide Run, SelectEvents, AfterSelect, SurroundingEvents, SelectEnd;
    if rs == [] || !l.phase.Selecting? {
      RunNone(c, l);
    } else {
      var t, r := now + rs[0].wait, rs[0];
      var m := AfterSurroundings(l, t, r);
      var k := AfterSelect(c, m, t, r);
      SurroundingsAreRun(c, l, t, r);
      SelectIsRun(c, m, t, r);
      assert k.phase.Selecting? || k.phase.Done? by { AfterSelectPhase(c, m, t, r); }
      StartIsRun(c, k, SelectEnd(c, m, t, r), rs[1..]);
      RunConcat(c, l, SurroundingEvents(l, t, r), SelectEvents(c, m, t, r));
      RunConcat(c, l, SurroundingEvents(l, t, r) + SelectEvents(c, m, t, r),
                StartEvents(c, k, SelectEnd(c, m, t, r), rs[1..]));
    }
  }

  lemma AfterSelectPhase(c: Config, l: Local, t: int, r: Round)
    requires l.phase.Selecting?
    ensures AfterSelect(c, l, t, r).phase.Selecting? || AfterSelect(c, l, t, r).phase.Done?
  {
  }

  // ----------------------------------------------------------------- what the loop must do

  /** The timer has fired by time t, or does then. */
  predicate IsDue(l: Local, t: int)
  {
    l.timer.tick || (l.timer.deadline.Some? && l.timer.deadline.value <= t)
  }

  lemma JustOneRound(c: Config, l: Local, now: int, r: Round)
    requires l.phase.Selecting?
    ensures var t := now + r.wait;
            var m := AfterSurroundings(l, t, r);
            && AfterStart(c, l, now, [r]) == AfterSelect(c, m, t, r)
            && StartEnd(c, l, now, [r]) == SelectEnd(c, m, t, r)
  {
    hide AfterStart, StartEnd, StartEvents, AfterSelect, SelectEnd, AfterSurroundings;
    var t := now + r.wait;
    var m := AfterSurroundings(l, t, r);
    assert [r][1..] == [];
    FirstRound(c, l, now, [r]);
    NoRound(c, AfterSelect(c, m, t, r), SelectEnd(c, m, t, r), []);
  }

  /**
   One round. If the timer is due and the worker is not stopped, or the select does not prefer that, it pushes
   once, with the outcome of that round's answers, and is back at its select; if it is stopped otherwise, it
   leaves without a push; and else it goes on waiting.
   */
  lemma OneRound(c: Config, l: Local, now: int, r: Round)
    requires l.phase.Selecting? && Pacing.Token(l)
    ensures var m, t := AfterStart(c, l, now, [r]), now + r.wait;
            var due, stopped := IsDue(l, t), l.cancelled || r.stop;
            && (due && !(stopped && r.preferCancel) ==>
                  && m.phase.Selecting? && m.starts == l.starts + [t]
                  && m.verdicts == l.verdicts + [CycleVerdict(c, r.answers)]
                  && m.cancelled == (stopped || r.stopInPush)
                  && !m.timer.tick && m.timer.deadline == Some(StartEnd(c, l, now, [r]) + m.policy.Interval()))
            && (stopped && (!due || r.preferCancel) ==>
                  m.phase.Done? && m.starts == l.starts && m.verdicts == l.verdicts)
            && (!stopped && !due ==> m == l && StartEnd(c, l, now, [r]) == t)
  {
    hide AfterStart, StartEnd, CycleVerdict, CycleEnd, RetryPolicies.AfterReset;
    JustOneRound(c, l, now, r);
  }

  /** When pushes begin in rounds that never stop the worker: in each one in which the timer is due. */
  function DueTimes(c: Config, l: Local, now: int, rs: seq<Round>): seq<int>
    decreases |rs|
  {
    if rs == [] then []
    else
      var t := now + rs[0].wait;
      (if IsDue(l, t) then [t] else [])
      + DueTimes(c, AfterStart(c, l, now, [rs[0]]), StartEnd(c, l, now, [rs[0]]), rs[1..])
  }

  /** A worker that is never stopped pushes each time its timer is due, and never ends. */
  lemma {:induction false} PushesWhenDue(c: Config, l: Local, now: int, rs: seq<Round>)
    requires l.phase.Selecting? && Pacing.Token(l) && !l.cancelled
    requires forall r :: r in rs ==> !r.stop && !r.stopInPush
    ensures var m := AfterStart(c, l, now, rs);
            m.phase.Selecting? && !m.cancelled && m.starts == l.starts + DueTimes(c, l, now, rs)
    decreases |rs|
  {
    hide AfterStart, StartEnd, StartEvents, AfterSelect, SelectEnd, AfterSurroundings, CycleVerdict, IsDue;
    if rs == [] {
      NoRound(c, l, now, rs);
    } else {
      var r, t := rs[0], now + rs[0].wait;
      OneRound(c, l, now, r);
      JustOneRound(c, l, now, r);
      FirstRound(c, l, now, rs);
      PushesWhenDue(c, AfterStart(c, l, now, [r]), StartEnd(c, l, now, [r]), rs[1..]);
    }
  }

  // ----------------------------------------------------------------- the worker

  class Worker {
    const config: Config
    const retryPolicy: RetryPolicies.RetryPolicy
    var ctxDone: bool
    var pushErr: Option<Stage>
    ghost var verdicts: seq<Verdict>
    ghost var starts: seq<int>

    ghost function Repr(): set<object> { {this} + retryPolicy.Repr() }

    ghost predicate Valid()
      reads Repr()
    {
      this !in retryPolicy.Repr() && retryPolicy.Valid()
    }

    /** The worker as a state of the protocol; the phase is where control is. */
    ghost function State(phase: Phase): Local
      reads Repr()
    {
      Local(phase, pushErr, ctxDone, retryPolicy.State(), retryPolicy.Timer().State(), verdicts, starts)
    }

    constructor (config: Config, retryPolicy: RetryPolicies.RetryPolicy)
      requires retryPolicy.Valid()
      ensures Valid() && this.config == config && this.retryPolicy == retryPolicy
      ensures !ctxDone && pushErr == None && verdicts == [] && starts == []
    {
      this.config, this.retryPolicy := config, retryPolicy;
      ctxDone, pushErr, verdicts, starts := false, None, [], [];
    }

    method Stop()
      modifies this`ctxDone
      ensures ctxDone
    {
      ctxDone := true;
    }

    /** The error of the last decisive cycle, or None for "currently active". */
    function Status(): Option<Stage>
      reads this
    {
      pushErr
    }

    /** Somebody may stop the worker now. */
    method BeStopped(net: Network, stop: bool)
      modifies this`ctxDone, net`trace
      ensures ctxDone == (old(ctxDone) || stop)
      ensures net.trace == old(net.trace) + if stop then [Timed(net.now, ContextCancelled)] else []
    {
      if stop {
        Stop();
        net.Record(ContextCancelled);
      }
    }

    /** The batch as it is handed to the sender. */
    method TranslateBatch(rml: ReceivedMessagesList) returns (msgs: seq<PushMsg>)
      ensures msgs == TranslateAll(config, rml.recMsgs)
    {
      hide TranslateAll, Base64.Decode;
      msgs := [];
      TranslateNothing(config);
      for k := 0 to |rml.recMsgs|
        invariant msgs == TranslateAll(config, rml.recMsgs[..k])
      {
        var rm := rml.recMsgs[k];
        var msgData := rm.msg.data;
        if config.sub.pushConfig.base64Decode {
          match Base64.Decode(rm.msg.data)
          case Some(bytes) => msgData := bytes;
          case None => msgData := rm.msg.data;
        }
        var msg := PushMsg(Message(rm.msg.id, rm.msg.attr, msgData, rm.msg.pubTime), config.consumer.ResourceInfo());
        TranslateNext(config, rml.recMsgs, k);
        msgs := msgs + [msg];
      }
      assert rml.recMsgs[..|rml.recMsgs|] == rml.recMsgs;
    }

    /** The second half of push: send the batch, then acknowledge its last message. */
    method SendAndAck(net: Network, list: ReceivedMessagesList, a: Answers)
      requires Valid() && net !in Repr() && !list.IsEmpty()
      modifies this`pushErr, net
      ensures pushErr == if !config.sender.Accepts(a.post.value) then Some(SendStage)
                         else if !a.ack.value then Some(AckStage) else None
      ensures net.trace == old(net.trace) + SendEvents(config, list, old(net.now), a)
      ensures net.now == old(net.now) + a.post.delay
                         + if config.sender.Accepts(a.post.value) then a.ack.delay else 0
    {
      hide TranslateAll, Senders.Sender.Accepts;
      var pms := TranslateBatch(list);
      var sent := config.sender.Send(net, pms, Senders.DetermineMessageFormat(config.Max()), a.post);
      if !sent {
        pushErr := Some(SendStage);
        return;
      }
      var acked := config.consumer.Ack(net, list.Last().ackId, a.ack);
      if !acked {
        pushErr := Some(AckStage);
        return;
      }
      pushErr := None;
    }

    /** push: one cycle of consume, send, acknowledge. */
    method PushOnce(net: Network, a: Answers)
      requires Valid() && net !in Repr()
      modifies this`pushErr, this`verdicts, net
      ensures Valid()
      ensures State(Resetting) == Finish(old(State(Consuming)), CycleVerdict(config, a))
      ensures net.trace == old(net.trace) + CycleEvents(config, old(net.now), a)
      ensures net.now == CycleEnd(config, old(net.now), a)
      ensures a.pull.value.PullFailed? || a.pull.value.list.recMsgs == [] ==>
                pushErr == if a.pull.value == PullFailed(OtherError) then Some(ConsumeStage) else old(pushErr)
    {
      hide Body, Senders.Sender.Accepts, Consumers.AmsHttpConsumer.ToCancelableError, Consumers.Consumed;
      verdicts := verdicts + [CycleVerdict(config, a)];
      var rml := config.consumer.Consume(net, config.Max(), a.pull);
      match rml
      case ConsumeFailed(err) =>
        var ce := config.consumer.ToCancelableError(err);
        if ce.Some? {
          net.Wait(a.hand);
          net.Record(ErrorHanded(ce.value));
          return;
        }
        if err == NoNewMessages { return; }
        pushErr := Some(ConsumeStage);
      case Messages(list) =>
        SendAndAck(net, list, a);
    }

    method TakeTick(net: Network)
      requires Valid() && net !in Repr() && retryPolicy.Timer().tick
      modifies this`starts, retryPolicy.Timer(), net`trace
      ensures Valid()
      ensures State(Consuming) == Next(config, old(State(Selecting)), net.now, TickTaken).value
      ensures net.trace == old(net.trace) + [Timed(net.now, TickTaken)]
    {
      starts := starts + [net.now];
      retryPolicy.Timer().Receive();
      net.Record(TickTaken);
    }

    /** A tick is taken, and a push done, during which a stop may come. */
    method PushOnTick(net: Network, a: Answers, stop: bool)
      requires Valid() && net !in Repr() && retryPolicy.Timer().tick
      modifies this`starts, this`verdicts, this`pushErr, this`ctxDone, retryPolicy.Timer(), net
      ensures Valid()
      ensures State(Resetting) == BeforeReset(config, old(State(Selecting)), old(net.now), a, stop)
      ensures net.trace == old(net.trace) + ([Timed(old(net.now), TickTaken)] + CycleEvents(config, old(net.now), a)
                                             + StopEvents(config, old(net.now), a, stop))
      ensures net.now == CycleEnd(config, old(net.now), a)
    {
      hide CycleEvents, CycleVerdict, CycleEnd, Body;
      TakeTick(net);
      PushOnce(net, a);
      BeStopped(net, stop);
    }

    /** The select case of the timer: a push, and the timer is set again. */
    method PushAndReset(net: Network, a: Answers, stop: bool)
      requires Valid() && net !in Repr() && retryPolicy.Timer().tick
      modifies Repr(), net
      ensures Valid()
      ensures State(Selecting) == AfterPush(config, old(State(Selecting)), old(net.now), a, stop)
      ensures net.trace == old(net.trace) + PushEvents(config, old(net.now), a, stop)
      ensures net.now == CycleEnd(config, old(net.now), a)
    {
      hide CycleEvents, CycleVerdict, CycleEnd, StopEvents, BeforeReset, RetryPolicies.AfterReset;
      PushOnTick(net, a, stop);
      retryPolicy.Reset(pushErr.Some?, net.now);
      net.Record(TimerReset);
    }

    /** The select case of the cancelled context: receiving the tick of a fired timer never blocks. */
    method Leave(net: Network)
      requires Valid() && net !in Repr() && Pacing.Token(State(Selecting))
      modifies Repr(), net
      ensures Valid() && net.now == old(net.now)
      ensures State(Done) == AfterLeave(old(State(Selecting)))
      ensures net.trace == old(net.trace) + LeaveEvents(old(State(Selecting)), net.now)
    {
      var canceled := retryPolicy.Timer().Stop();
      net.Record(CancelSeen);
      if !canceled {
        retryPolicy.Timer().Receive();
        net.Record(TickDrained);
      }
    }

    /** The surroundings' part of a round, while the worker is at its select. */
    method Surround(net: Network, r: Round)
      requires Valid() && net !in Repr()
      modifies this`ctxDone, retryPolicy.Timer(), net
      ensures Valid() && net.now == old(net.now) + r.wait
      ensures State(Selecting) == AfterSurroundings(old(State(Selecting)), net.now, r)
      ensures net.trace == old(net.trace) + SurroundingEvents(old(State(Selecting)), net.now, r)
    {
      net.Wait(r.wait);
      BeStopped(net, r.stop);
      if retryPolicy.Timer().State().Due(net.now) {
        retryPolicy.Timer().Fire();
        net.Record(TimerFired);
      }
    }

    /** Start: the loop, through as many rounds as the surroundings drive it. */
    method Start(net: Network, rounds: seq<Round>)
      requires Valid() && net !in Repr() && Pacing.Token(State(Selecting))
      modifies Repr(), net
      ensures Valid()
      ensures State(AfterStart(config, old(State(Selecting)), old(net.now), rounds).phase)
           == AfterStart(config, old(State(Selecting)), old(net.now), rounds)
      ensures net.trace == old(net.trace) + StartEvents(config, old(State(Selecting)), old(net.now), rounds)
      ensures net.now == StartEnd(config, old(State(Selecting)), old(net.now), rounds)
      ensures Run(config, old(State(Selecting)), StartEvents(config, old(State(Selecting)), old(net.now), rounds))
           == Some(AfterStart(config, old(State(Selecting)), old(net.now), rounds))
    {
      hide PushEvents, AfterPush, LeaveEvents, SurroundingEvents, CycleEnd, Run, StartEvents, AfterStart, StartEnd;
      ghost var l0, now0, trace0 := State(Selecting), net.now, net.trace;
      StartIsRun(config, l0, now0, rounds);
      var i := 0;
      while i < |rounds|
        invariant 0 <= i <= |rounds|
        invariant Valid() && Pacing.Token(State(Selecting))
        invariant AfterStart(config, l0, now0, rounds)
               == AfterStart(config, State(Selecting), net.now, rounds[i..])
        invariant StartEnd(config, l0, now0, rounds) == StartEnd(config, State(Selecting), net.now, rounds[i..])
        invariant trace0 + StartEvents(config, l0, now0, rounds)
               == net.trace + StartEvents(config, State(Selecting), net.now, rounds[i..])
      {
        var r := rounds[i];
        assert rounds[i..][1..] == rounds[i + 1..];
        FirstRound(config, State(Selecting), net.now, rounds[i..]);
        Surround(net, r);
        SelectIsRun(config, State(Selecting), net.now, r);
        i := i + 1;
        if retryPolicy.Timer().tick && !(ctxDone && r.preferCancel) {
          PushAndReset(net, r.answers, r.stopInPush);
        } else if ctxDone {
          Leave(net);
          NoRound(config, State(Done), net.now, rounds[i..]);
          return;
        }
      }
      NoRound(config, State(Selecting), net.now, rounds[i..]);
    }
  }

  /** push.New: a worker exists exactly when its retry policy does. */
  method New(config: Config, now: int) returns (w: Option<Worker>)
    ensures w.Some? <==> RetryPolicies.Initial(config.sub.pushConfig.retryPolicy).Some?
    ensures w.Some? ==>
              && fresh(w.value.Repr()) && w.value.Valid() && w.value.config == config
              && var rp := RetryPolicies.Initial(config.sub.pushConfig.retryPolicy).value;
                 w.value.State(Selecting) == Fresh(rp.0, rp.1, now)
  {
    var rp := RetryPolicies.New(config.sub.pushConfig.retryPolicy, now);
    match rp
    case None => return None;
    case Some(p) =>
      var worker := new Worker(config, p);
      return Some(worker);
  }
}
