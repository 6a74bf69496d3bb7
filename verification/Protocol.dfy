/**
 The push worker as a step relation (push/worker.go): one step for everything that can happen to a
 worker or that it does, so that many workers, the broker and the endpoint can interleave freely.
 */
module Protocol {
  import opened GoTypes
  import opened Ams
  import opened Wire
  import opened RetryPolicies
  import Base64
  import Consumers
  import Senders

  /** What stays fixed in a worker. */
  datatype Config = Config(sub: Subscription, consumer: Consumers.AmsHttpConsumer, sender: Senders.Sender)
  {
    function Max(): int64 { sub.pushConfig.maxMessages }
  }

  function Configure(sub: Subscription, host: string): Config
  {
    Config(sub, Consumers.AmsHttpConsumer(sub.fullName, host), Senders.New(sub.pushConfig))
  }

  // ----------------------------------------------------------------- what is sent for a batch

  /** With decoding on, data that does not decode is passed on as it came. */
  function Payload(decode: bool, data: seq<byte>): seq<byte>
  {
    if decode then
      match Base64.Decode(data)
      case Some(bytes) => bytes
      case None => data
    else data
  }

  function Translate(c: Config, m: Message): PushMsg
  {
    PushMsg(m.(data := Payload(c.sub.pushConfig.base64Decode, m.data)), c.consumer.ResourceInfo())
  }

  function TranslateAll(c: Config, batch: seq<ReceivedMessage>): (msgs: seq<PushMsg>)
    ensures |msgs| == |batch|
    ensures forall k :: 0 <= k < |batch| ==> msgs[k] == Translate(c, batch[k].msg)
  {
    if batch == [] then []
    else TranslateAll(c, batch[..|batch| - 1]) + [Translate(c, batch[|batch| - 1].msg)]
  }

  /**
   What arrives as data: with decoding on, the bytes that were encoded, whether or not the text was broken
   into lines, and for any other well-formed base64 the bytes it stands for; text that is not well-formed
   base64, or any text with decoding off, as it came. Nothing else changes.
   */
  lemma TranslationPreserves(c: Config, m: Message, b: seq<byte>)
    ensures m.data == Base64.Encode(b) && c.sub.pushConfig.base64Decode ==> Translate(c, m).msg.data == b
    ensures Base64.WithoutLineBreaks(m.data) == Base64.Encode(b) ==>
              Translate(c, m).msg.data == if c.sub.pushConfig.base64Decode then b else m.data
    ensures var t := Base64.WithoutLineBreaks(m.data);
            if c.sub.pushConfig.base64Decode && Base64.WellFormed(t)
            then Base64.Encode(Translate(c, m).msg.data) == Base64.Rewritten(t)
            else Translate(c, m).msg == m
    ensures Translate(c, m).msg.(data := m.data) == m
    ensures Translate(c, m).sub == "subscription " + c.consumer.fullSub + " from " + c.consumer.host
  {
    hide Base64.Decode, Base64.WellFormed;
    Base64.EncodeHasNoLineBreaks(b);
    Base64.DecodesExactly(m.data);
    if Base64.WithoutLineBreaks(m.data) == Base64.Encode(b) { Base64.DecodeEncode(b, m.data); }
  }

  lemma TranslateNothing(c: Config)
    ensures TranslateAll(c, []) == []
  {
  }

  lemma TranslateNext(c: Config, batch: seq<ReceivedMessage>, k: nat)
    requires k < |batch|
    ensures TranslateAll(c, batch[..k + 1]) == TranslateAll(c, batch[..k]) + [Translate(c, batch[k].msg)]
  {
    assert batch[..k + 1][..k] == batch[..k];
  }

  /** The messages that reach the endpoint when this batch is sent. */
  function Body(c: Config, batch: seq<ReceivedMessage>): (body: seq<PushMsg>)
    requires batch != []
    ensures 1 <= |body| <= |batch|
    ensures forall k :: 0 <= k < |body| ==> body[k] == Translate(c, batch[k].msg)
  {
    c.sender.Carried(TranslateAll(c, batch), Senders.DetermineMessageFormat(c.Max()))
  }

  /** When a batch of n messages is sent whole. */
  predicate Whole(c: Config, n: nat)
  {
    n == 1 || (c.sender.HttpSender? && c.Max() != 1)
  }

  /** How many messages of a batch of n are sent. */
  function Share(c: Config, n: nat): nat { if Whole(c, n) then n else 1 }

  lemma BodyIsWhole(c: Config, batch: seq<ReceivedMessage>)
    requires batch != []
    ensures |Body(c, batch)| == Share(c, |batch|)
  {
  }

  // ----------------------------------------------------------------- states and steps

  datatype Stage = ConsumeStage | SendStage | AckStage

  /** How a push cycle ended, with the number of messages it had handed to the sender. */
  datatype Verdict =
    | Succeeded(n: nat)
    | Failed(stage: Stage, n: nat)
    | Idle
    | Cancelable

  datatype Phase =
    | Selecting
    | Consuming
    | Holding(batch: seq<ReceivedMessage>)
    | Posting(batch: seq<ReceivedMessage>)
    | Delivered(batch: seq<ReceivedMessage>)
    | Acking(batch: seq<ReceivedMessage>)
    | Blocked(error: CancelableError)
    | Resetting
    | Draining
    | Done
  {
    predicate InCycle() { Consuming? || Holding? || Posting? || Delivered? || Acking? || Blocked? }

    predicate HasBatch() { Holding? || Posting? || Delivered? || Acking? }
  }

  /** verdicts and starts record the run: how every cycle ended and when every push began. */
  datatype Local = Local(
    phase: Phase,
    pushErr: Option<Stage>,
    cancelled: bool,
    policy: PolicyState,
    timer: TimerState,
    verdicts: seq<Verdict>,
    starts: seq<int>)

  function Fresh(policy: PolicyState, first: int, now: int): Local
  {
    Local(Selecting, None, false, policy, TimerState(Some(now + first), false), [], [])
  }

  /** push returns; an idle or a cancelable cycle leaves pushErr as it was. */
  function Finish(l: Local, v: Verdict): Local
  {
    var e := match v
             case Succeeded(_) => None
             case Failed(stage, _) => Some(stage)
             case _ => l.pushErr;
    l.(phase := Resetting, pushErr := e, verdicts := l.verdicts + [v])
  }

  function Next(c: Config, l: Local, now: int, e: Event): Option<Local>
  {
    match e
    case TimerFired => if l.timer.Due(now) then Some(l.(timer := l.timer.Fire())) else None
    case ContextCancelled => Some(l.(cancelled := true))
    case TickTaken =>
      if l.phase.Selecting? && l.timer.tick
      then Some(l.(phase := Consuming, timer := l.timer.(tick := false), starts := l.starts + [now]))
      else None
    case CancelSeen =>
      if l.phase.Selecting? && l.cancelled
      then Some(l.(phase := if l.timer.deadline.Some? then Done else Draining, timer := l.timer.(deadline := None)))
      else None
    case TickDrained =>
      if l.phase.Draining? && l.timer.tick
      then Some(l.(phase := Done, timer := l.timer.(tick := false)))
      else None
    case Pulled(sub, max, reply) =>
      if l.phase.Consuming? && sub == c.consumer.fullSub && max == c.Max() then Some(AfterPull(c, l, reply)) else None
    case PostIssued(to, body) =>
      if l.phase.Holding? && l.phase.batch != [] && to == c.sender.Destination() && body == Body(c, l.phase.batch)
      then Some(l.(phase := Posting(l.phase.batch)))
      else None
    case PostAnswered(ok) =>
      if l.phase.Posting?
      then Some(if ok then l.(phase := Delivered(l.phase.batch)) else Finish(l, Failed(SendStage, |l.phase.batch|)))
      else None
    case AckIssued(sub, id) =>
      if && l.phase.Delivered? && l.phase.batch != [] && sub == c.consumer.fullSub
         && id == ReceivedMessagesList(l.phase.batch).Last().ackId
      then Some(l.(phase := Acking(l.phase.batch)))
      else None
    case AckAnswered(ok) =>
      if l.phase.Acking?
      then Some(Finish(l, if ok then Succeeded(|l.phase.batch|) else Failed(AckStage, |l.phase.batch|)))
      else None
    case ErrorHanded(error) => if l.phase == Blocked(error) then Some(Finish(l, Cancelable)) else None
    case TimerReset =>
      if l.phase.Resetting?
      then var p := AfterReset(l.policy, l.pushErr.Some?);
           Some(l.(phase := Selecting, policy := p, timer := l.timer.(deadline := Some(now + p.Interval()))))
      else None
  }

  function AfterPull(c: Config, l: Local, reply: PullReply): Local
  {
    match Consumers.Consumed(reply)
    case Messages(list) => l.(phase := Holding(list.recMsgs))
    case ConsumeFailed(e) =>
      match c.consumer.ToCancelableError(e)
      case Some(ce) => l.(phase := Blocked(ce))
      case None => if e.NoNewMessages? then Finish(l, Idle) else Finish(l, Failed(ConsumeStage, 0))
  }

  /** The state after a sequence of events, if the worker can perform it. */
  function Run(c: Config, l: Local, tr: seq<Timed>): Option<Local>
  {
    if tr == [] then Some(l)
    else
      match Run(c, l, tr[..|tr| - 1])
      case None => None
      case Some(m) => Next(c, m, tr[|tr| - 1].at, tr[|tr| - 1].event)
  }

  lemma RunSnoc(c: Config, l: Local, tr: seq<Timed>, t: Timed)
    requires Run(c, l, tr).Some?
    ensures Run(c, l, tr + [t]) == Next(c, Run(c, l, tr).value, t.at, t.event)
  {
    assert (tr + [t])[..|tr|] == tr;
  }

  lemma {:induction false} RunConcat(c: Config, l: Local, tr: seq<Timed>, tr': seq<Timed>)
    requires Run(c, l, tr).Some?
    ensures Run(c, l, tr + tr') == Run(c, Run(c, l, tr).value, tr')
  {
    if tr' == [] {
      assert tr + tr' == tr;
    } else {
      var init := tr'[..|tr'| - 1];
      RunConcat(c, l, tr, init);
      assert (tr + tr')[..|tr + tr'| - 1] == tr + init;
    }
  }

  lemma StopIsHeededAtSelect(c: Config, l: Local, now: int, e: Event)
    requires Next(c, l, now, e).Some? && !e.CancelSeen?
    ensures Next(c, l.(cancelled := true), now, e) == Some(Next(c, l, now, e).value.(cancelled := true))
  {
    hide Body;
  }

  /** Until the select sees it, a stop makes no difference: it may as well come at the end of what it came before. */
  lemma {:induction false} StopCanWait(c: Config, l: Local, at: int, tr: seq<Timed>, later: int)
    requires Run(c, l, tr).Some? && forall t :: t in tr ==> !t.event.CancelSeen?
    ensures Run(c, l, [Timed(at, ContextCancelled)] + tr) == Run(c, l, tr + [Timed(later, ContextCancelled)])
         == Some(Run(c, l, tr).value.(cancelled := true))
  {
    var stop := [Timed(at, ContextCancelled)];
    if tr == [] {
      assert stop + tr == stop && stop[..0] == [];
    } else {
      var init, last := tr[..|tr| - 1], tr[|tr| - 1];
      StopCanWait(c, l, at, init, later);
      assert stop + tr == (stop + init) + [last];
      RunSnoc(c, l, stop + init, last);
      StopIsHeededAtSelect(c, Run(c, l, init).value, last.at, last.event);
    }
    RunSnoc(c, l, tr, Timed(later, ContextCancelled));
  }

  /** A call goes where the worker's settings say. */
  predicate Addressed(c: Config, e: Event)
  {
    match e
    case Pulled(sub, max, _) => sub == c.consumer.fullSub && max == c.Max()
    case PostIssued(to, body) =>
      to == c.sender.Destination() && (|body| > 1 ==> c.sender.HttpSender? && c.Max() != 1)
    case AckIssued(sub, _) => sub == c.consumer.fullSub
    case _ => true
  }

  lemma NextIsAddressed(c: Config, l: Local, now: int, e: Event)
    requires Next(c, l, now, e).Some?
    ensures Addressed(c, e)
  {
    hide TranslateAll;
  }

  lemma {:induction false} RunIsAddressed(c: Config, l: Local, tr: seq<Timed>)
    requires Run(c, l, tr).Some?
    ensures forall t :: t in tr ==> Addressed(c, t.event)
  {
    hide Addressed;
    if tr == [] {
    } else {
      var init, last := tr[..|tr| - 1], tr[|tr| - 1];
      RunIsAddressed(c, l, init);
      NextIsAddressed(c, Run(c, l, init).value, last.at, last.event);
      assert tr == init + [last];
    }
  }

  // ----------------------------------------------------------------- uninterrupted cycles

  /** Everything the surroundings contribute to one cycle. */
  datatype Answers = Answers(pull: Answer<PullReply>, post: Answer<PostReply>, ack: Answer<bool>, hand: nat)

  /** What a worker that begins a push at time t exchanges with its surroundings, in order. */
  function CycleEvents(c: Config, t: int, a: Answers): seq<Timed>
  {
    var t1 := t + a.pull.delay;
    [Timed(t1, Pulled(c.consumer.fullSub, c.Max(), a.pull.value))] +
    match Consumers.Consumed(a.pull.value)
    case Messages(list) => SendEvents(c, list, t1, a)
    case ConsumeFailed(e) =>
      match c.consumer.ToCancelableError(e)
      case Some(ce) => [Timed(t1 + a.hand, ErrorHanded(ce))]
      case None => []
  }

  function SendEvents(c: Config, list: ReceivedMessagesList, t: int, a: Answers): seq<Timed>
    requires !list.IsEmpty()
  {
    var ok := c.sender.Accepts(a.post.value);
    [Timed(t, PostIssued(c.sender.Destination(), Body(c, list.recMsgs))), Timed(t + a.post.delay, PostAnswered(ok))]
    + if ok then AckEvents(c, list, t + a.post.delay, a) else []
  }

  function AckEvents(c: Config, list: ReceivedMessagesList, t: int, a: Answers): seq<Timed>
    requires !list.IsEmpty()
  {
    [Timed(t, AckIssued(c.consumer.fullSub, list.Last().ackId)), Timed(t + a.ack.delay, AckAnswered(a.ack.value))]
  }

  function CycleEnd(c: Config, t: int, a: Answers): int
  {
    var es := CycleEvents(c, t, a);
    es[|es| - 1].at
  }

  function CycleVerdict(c: Config, a: Answers): Verdict
  {
    match Consumers.Consumed(a.pull.value)
    case ConsumeFailed(e) =>
      if c.consumer.ToCancelableError(e).Some? then Cancelable
      else if e.NoNewMessages? then Idle else Failed(ConsumeStage, 0)
    case Messages(list) =>
      var n := |list.recMsgs|;
      if !c.sender.Accepts(a.post.value) then Failed(SendStage, n)
      else if !a.ack.value then Failed(AckStage, n)
      else Succeeded(n)
  }

  // What a cycle comes to, in terms of the answers alone.

  /** What a worker makes of the answer to its pull. */
  lemma PullOutcome(c: Config, l: Local, now: int, reply: PullReply)
    requires l.phase.Consuming?
    ensures var m := Next(c, l, now, Pulled(c.consumer.fullSub, c.Max(), reply));
            && m.Some? && (m.value.phase.Resetting? <==> m.value.verdicts != l.verdicts)
            && match reply
               case Received(list) =>
                 m.value == if list.recMsgs == [] then l.(phase := Resetting, verdicts := l.verdicts + [Idle])
                            else l.(phase := Holding(list.recMsgs))
               case PullFailed(NoNewMessages) => m.value == l.(phase := Resetting, verdicts := l.verdicts + [Idle])
               case PullFailed(OtherError) =>
                 m.value == l.(phase := Resetting, verdicts := l.verdicts + [Failed(ConsumeStage, 0)],
                               pushErr := Some(ConsumeStage))
               case PullFailed(e) => m.value == l.(phase := Blocked(CancelableError(e, c.consumer.fullSub)))
  {
  }

  /** The POST was answered with a code that counts as success. */
  predicate PostSucceeds(c: Config, a: Answers)
  {
    && a.post.value.StatusCode?
    && a.post.value.code in if c.sender.HttpSender? then {102, 200, 201, 204} else {200}
  }

  predicate Posts(es: seq<Timed>) { exists k :: 0 <= k < |es| && es[k].event.PostIssued? }

  predicate Acks(es: seq<Timed>) { exists k :: 0 <= k < |es| && es[k].event.AckIssued? }

  predicate AcksOnly(es: seq<Timed>, id: nat)
  {
    forall k :: 0 <= k < |es| && es[k].event.AckIssued? ==> es[k].event.ackId == id
  }

  lemma SendOutcome(c: Config, list: ReceivedMessagesList, t: int, a: Answers)
    requires list.recMsgs != []
    ensures var es := SendEvents(c, list, t, a);
            && Posts(es) && (Acks(es) <==> PostSucceeds(c, a))
            && AcksOnly(es, list.recMsgs[|list.recMsgs| - 1].ackId)
  {
    hide Body;
    var es := SendEvents(c, list, t, a);
    assert es[0].event.PostIssued?;
    if PostSucceeds(c, a) { assert es[2].event.AckIssued?; }
  }

  lemma PulledFirst(x: Timed, es: seq<Timed>, id: nat)
    requires x.event.Pulled?
    ensures Posts([x] + es) <==> Posts(es)
    ensures Acks([x] + es) <==> Acks(es)
    ensures AcksOnly(es, id) ==> AcksOnly([x] + es, id)
  {
    var all := [x] + es;
    assert forall k :: 0 <= k < |es| ==> all[k + 1] == es[k];
    assert forall k :: 0 < k < |all| ==> all[k] == es[k - 1];
  }

  /**
   A cycle posts iff messages were pulled, and acknowledges, the last of them, iff that POST was answered with
   one of the codes that count as success.
   */
  lemma CycleCalls(c: Config, t: int, a: Answers)
    ensures var es := CycleEvents(c, t, a);
            match a.pull.value
            case Received(list) =>
              var n := |list.recMsgs|;
              && (Posts(es) <==> n > 0) && (Acks(es) <==> n > 0 && PostSucceeds(c, a))
              && (n > 0 ==> AcksOnly(es, list.recMsgs[n - 1].ackId))
            case PullFailed(e) => !Posts(es) && !Acks(es)
  {
    hide SendEvents, Body, Posts, Acks, AcksOnly, PostSucceeds;
    var es := CycleEvents(c, t, a);
    if a.pull.value.Received? && a.pull.value.list.recMsgs != [] {
      var list := a.pull.value.list;
      SendOutcome(c, list, t + a.pull.delay, a);
      PulledFirst(es[0], SendEvents(c, list, t + a.pull.delay, a), list.recMsgs[|list.recMsgs| - 1].ackId);
    } else {
      NothingCalled(es);
    }
  }

  lemma NothingCalled(es: seq<Timed>)
    requires forall k :: 0 <= k < |es| ==> !es[k].event.PostIssued? && !es[k].event.AckIssued?
    ensures !Posts(es) && !Acks(es)
  {
  }

  /** And how it ends. An answer with another code, or none, is a failure to send. */
  lemma CycleOutcome(c: Config, a: Answers)
    ensures CycleVerdict(c, a)
         == match a.pull.value
            case Received(list) =>
              var n := |list.recMsgs|;
              if n == 0 then Idle
              else if !PostSucceeds(c, a) then Failed(SendStage, n)
              else if !a.ack.value then Failed(AckStage, n)
              else Succeeded(n)
            case PullFailed(NoNewMessages) => Idle
            case PullFailed(OtherError) => Failed(ConsumeStage, 0)
            case PullFailed(_) => Cancelable
  {
  }

  lemma RunNone(c: Config, l: Local)
    ensures Run(c, l, []) == Some(l)
  {
  }

  lemma RunOne(c: Config, l: Local, t: Timed)
    ensures Run(c, l, [t]) == Next(c, l, t.at, t.event)
  {
    assert Run(c, l, []) == Some(l);
  }

  lemma RunTwo(c: Config, l: Local, t: Timed, u: Timed)
    requires Next(c, l, t.at, t.event).Some?
    ensures Run(c, l, [t, u]) == Next(c, Next(c, l, t.at, t.event).value, u.at, u.event)
  {
    RunOne(c, l, t);
    assert [t, u] == [t] + [u];
    RunSnoc(c, l, [t], u);
  }

  lemma AckIsRun(c: Config, l: Local, list: ReceivedMessagesList, t: int, a: Answers)
    requires !list.IsEmpty() && l.phase == Delivered(list.recMsgs)
    ensures var n := |list.recMsgs|;
            Run(c, l, AckEvents(c, list, t, a))
            == Some(Finish(l, if a.ack.value then Succeeded(n) else Failed(AckStage, n)))
  {
    hide Run;
    var es := AckEvents(c, list, t, a);
    RunTwo(c, l, es[0], es[1]);
  }

  lemma SendIsRun(c: Config, l: Local, list: ReceivedMessagesList, t: int, a: Answers)
    requires !list.IsEmpty() && l.phase == Holding(list.recMsgs)
    requires Consumers.Consumed(a.pull.value) == Consumers.Messages(list)
    ensures Run(c, l, SendEvents(c, list, t, a)) == Some(Finish(l, CycleVerdict(c, a)))
  {
    hide Run, Body, AckEvents;
    var es := SendEvents(c, list, t, a);
    RunTwo(c, l, es[0], es[1]);
    assert es[..2] == [es[0], es[1]] && es == es[..2] + es[2..];
    RunConcat(c, l, es[..2], es[2..]);
    if c.sender.Accepts(a.post.value) {
      AckIsRun(c, l.(phase := Delivered(list.recMsgs)), list, t + a.post.delay, a);
    } else {
      assert es[2..] == [];
      RunNone(c, Finish(l, CycleVerdict(c, a)));
    }
  }

  /** A cycle is a sequence of steps of the worker and ends in its verdict. */
  lemma CycleIsRun(c: Config, l: Local, t: int, a: Answers)
    requires l.phase.Consuming?
    ensures Run(c, l, CycleEvents(c, t, a)) == Some(Finish(l, CycleVerdict(c, a)))
  {
    hide Run, SendEvents;
    var es := CycleEvents(c, t, a);
    RunOne(c, l, es[0]);
    assert es[..1] == [es[0]] && es == es[..1] + es[1..];
    RunConcat(c, l, es[..1], es[1..]);
    match Consumers.Consumed(a.pull.value) {
      case Messages(list) =>
        SendIsRun(c, l.(phase := Holding(list.recMsgs)), list, t + a.pull.delay, a);
      case ConsumeFailed(e) =>
        if |es| > 1 {
          RunOne(c, AfterPull(c, l, a.pull.value), es[1]);
        } else {
          RunNone(c, Finish(l, CycleVerdict(c, a)));
        }
    }
  }
}
