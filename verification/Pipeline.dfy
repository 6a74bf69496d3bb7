/**
 The whole service as one state machine: the workers that were ever started, the registry of the live
 ones, the loader, the handler of the deactivation channel, and for every subscription a broker log and
 the endpoint's stream. A run is any sequence of steps, so every interleaving is a run.

 A POST or an acknowledgement is a request that may take effect at any later time, or never, whether or
 not the worker has been told that it failed; it is answered with success only after it took effect.
 A pull is answered as of any moment since it was asked.
 */
module Pipeline {
  import opened GoTypes
  import opened Ams
  import opened Wire
  import opened Protocol
  import RetryPolicies
  import Service

  // ----------------------------------------------------------------- state

  /** A message as it arrived at the endpoint; index and worker tell where it came from. */
  datatype Delivery = Delivery(index: nat, worker: nat, push: PushMsg)

  /** A POST request: the body holds the messages from log offset lo on. */
  datatype Post = Post(worker: nat, lo: nat, body: seq<PushMsg>, landed: bool)

  datatype Ack = Ack(id: nat, landed: bool)

  /** A subscription at the broker, and what its endpoint has received. */
  datatype Feed = Feed(
    log: seq<Message>, committed: nat, posts: seq<Post>, acks: seq<Ack>, stream: seq<Delivery>)

  const EMPTY_FEED: Feed := Feed([], 0, [], [], [])

  /** A worker's latest calls: the committed offset when it asked, its POST and its acknowledgement. */
  datatype Calls = Calls(asked: nat, post: nat, ack: nat)

  const NO_CALLS: Calls := Calls(0, 0, 0)

  datatype Worker = Worker(config: Config, local: Local, calls: Calls)
  {
    function Name(): string { config.consumer.fullSub }

    /** The kind of retry policy it is set up with. */
    function Kind(): string { config.sub.pushConfig.retryPolicy.kind }
  }

  datatype RegistryEvent = Started(name: string, id: nat) | Stopped(name: string, id: nat)

  datatype Loader = Skipped | LookingUp | Loading(names: seq<string>)

  datatype System = System(
    now: int,
    host: string,
    status: Service.Status,
    loader: Loader,
    registry: map<string, nat>,
    workers: seq<Worker>,
    feeds: map<string, Feed>,
    handling: Option<CancelableError>,
    history: seq<RegistryEvent>)
  {
    function FeedOf(name: string): Feed { if name in feeds then feeds[name] else EMPTY_FEED }

    predicate IsLive(i: nat)
      requires i < |workers|
    {
      var n := workers[i].config.sub.fullName;
      n in registry && registry[n] == i
    }
  }

  /** NewPushService. */
  function Init(host: string, now: int, skipSubsLoad: bool): System
  {
    System(now, host, Service.Unset, if skipSubsLoad then Skipped else LookingUp, map[], [], map[], None, [])
  }

  // ----------------------------------------------------------------- steps

  datatype Call =
    | ActivateCall(request: Service.ActivateRequest)
    | DeactivateCall(name: string)
    | SubscriptionStatusCall(name: string)
    | StatusCall
  {
    function FullMethod(): string
    {
      match this
      case ActivateCall(_) => "/PushService/ActivateSubscription"
      case DeactivateCall(_) => "/PushService/DeactivateSubscription"
      case SubscriptionStatusCall(_) => "/PushService/SubscriptionStatus"
      case StatusCall => Service.STATUS_METHOD
    }
  }

  datatype Step =
    | Advance(d: nat)
    | Publish(topic: string, msg: Message)
    | AnswerUser(user: Option<Service.UserInfo>)
    | AnswerSubscription(answer: Option<Service.AmsSubscription>)
    | Rpc(call: Call)
    | HandlerReceives(i: nat)
    | HandlerStops
    | WorkerStep(i: nat, event: Event)
    | PostLands(feed: string, k: nat)
    | AckLands(feed: string, k: nat)

  /** The second half of an activation: the worker is filed and started. */
  function Insert(s: System, sub: Subscription): System
    requires RetryPolicies.Initial(sub.pushConfig.retryPolicy).Some?
  {
    var rp := RetryPolicies.Initial(sub.pushConfig.retryPolicy).value;
    var w := Worker(Configure(sub, s.host), Fresh(rp.0, rp.1, s.now), NO_CALLS);
    s.(registry := s.registry[sub.fullName := |s.workers|],
       workers := s.workers + [w],
       history := s.history + [Started(sub.fullName, |s.workers|)])
  }

  function Activate(s: System, r: Service.ActivateRequest): System
  {
    if Service.Judge(s.registry.Keys, r).Activated? then Insert(s, r.sub) else s
  }

  function Cancel(w: Worker): Worker { w.(local := w.local.(cancelled := true)) }

  function Deactivate(s: System, name: string): System
  {
    if name in s.registry && s.registry[name] < |s.workers| then
      var i := s.registry[name];
      s.(registry := s.registry - {name},
         workers := s.workers[i := Cancel(s.workers[i])],
         history := s.history + [Stopped(name, i)])
    else s
  }

  function Serve(s: System, call: Call): System
  {
    if !Service.Passes(s.status, call.FullMethod()) then s
    else
      match call
      case ActivateCall(r) => Activate(s, r)
      case DeactivateCall(name) => Deactivate(s, name)
      case _ => s
  }

  function LoadNext(s: System, answer: Option<Service.AmsSubscription>): System
  {
    if answer.Some? && answer.value.IsPushEnabled()
    then Activate(s, Service.Complete(answer.value.ToSubscription()))
    else s
  }

  /** The n messages from offset lo on, as a pull returns them. */
  function Segment(log: seq<Message>, lo: nat, n: nat): (b: seq<ReceivedMessage>)
    requires lo + n <= |log|
    ensures |b| == n
  {
    seq(n, k requires 0 <= k < n => ReceivedMessage(lo + k, log[lo + k]))
  }

  /**
   A pull returns a contiguous segment of any length, from an offset that was committed at some moment
   between request and answer, or nothing; asked is the committed offset at the request.
   */
  predicate PullAllowed(f: Feed, asked: nat, reply: PullReply)
  {
    reply.Received? && !reply.list.IsEmpty() ==>
      var b := reply.list.recMsgs;
      && asked <= b[0].ackId <= f.committed && b[0].ackId + |b| <= |f.log|
      && b == Segment(f.log, b[0].ackId, |b|)
  }

  /** What the surroundings allow a worker to see. */
  predicate Allowed(f: Feed, w: Worker, e: Event)
  {
    match e
    case Pulled(_, _, reply) => PullAllowed(f, w.calls.asked, reply)
    case PostAnswered(ok) => ok ==> w.calls.post < |f.posts| && f.posts[w.calls.post].landed
    case AckAnswered(ok) => ok ==> w.calls.ack < |f.acks| && f.acks[w.calls.ack].landed
    case ContextCancelled => false
    case ErrorHanded(_) => false
    case _ => true
  }

  function Issue(f: Feed, i: nat, w: Worker, e: Event): Feed
  {
    match e
    case PostIssued(_, body) =>
      if w.local.phase.Holding? && w.local.phase.batch != []
      then f.(posts := f.posts + [Post(i, w.local.phase.batch[0].ackId, body, false)])
      else f
    case AckIssued(_, id) => f.(acks := f.acks + [Ack(id, false)])
    case _ => f
  }

  function Track(f: Feed, w: Worker, e: Event): Calls
  {
    match e
    case TickTaken => w.calls.(asked := f.committed)
    case PostIssued(_, _) => w.calls.(post := |f.posts|)
    case AckIssued(_, _) => w.calls.(ack := |f.acks|)
    case _ => w.calls
  }

  function StepWorker(s: System, i: nat, e: Event): Option<System>
    requires i < |s.workers|
  {
    var w := s.workers[i];
    var f := s.FeedOf(w.Name());
    match Next(w.config, w.local, s.now, e)
    case None => None
    case Some(l) =>
      if !Allowed(f, w, e) then None
      else Some(s.(workers := s.workers[i := Worker(w.config, l, Track(f, w, e))],
                   feeds := s.feeds[w.Name() := Issue(f, i, w, e)]))
  }

  function Deliveries(p: Post): (ds: seq<Delivery>)
    ensures |ds| == |p.body|
  {
    seq(|p.body|, k requires 0 <= k < |p.body| => Delivery(p.lo + k, p.worker, p.body[k]))
  }

  function LandPost(f: Feed, k: nat): Feed
    requires k < |f.posts|
  {
    f.(posts := f.posts[k := f.posts[k].(landed := true)], stream := f.stream + Deliveries(f.posts[k]))
  }

  /** Acknowledging an id acknowledges everything before it. */
  function LandAck(f: Feed, k: nat): Feed
    requires k < |f.acks|
  {
    f.(acks := f.acks[k := f.acks[k].(landed := true)], committed := Max(f.committed, f.acks[k].id + 1))
  }

  function Apply(s: System, st: Step): Option<System>
  {
    match st
    case Advance(d) => Some(s.(now := s.now + d))
    case Publish(topic, msg) =>
      var f := s.FeedOf(topic);
      Some(s.(feeds := s.feeds[topic := f.(log := f.log + [msg])]))
    case AnswerUser(user) =>
      if !s.loader.LookingUp? then None
      else
        (match user
         case None => Some(s.(status := Service.Unavailable))
         case Some(u) => Some(s.(status := Service.Ok, loader := Loading(Service.FullNames(u.projects)))))
    case AnswerSubscription(answer) =>
      if !s.loader.Loading? || s.loader.names == [] then None
      else Some(LoadNext(s, answer).(loader := Loading(s.loader.names[1..])))
    case Rpc(call) => Some(Serve(s, call))
    case HandlerReceives(i) =>
      if s.handling.None? && i < |s.workers| && s.workers[i].local.phase.Blocked? then
        var w := s.workers[i];
        var error := w.local.phase.error;
        Some(s.(handling := Some(error),
                workers := s.workers[i := w.(local := Next(w.config, w.local, s.now, ErrorHanded(error)).value)]))
      else None
    case HandlerStops =>
      if s.handling.Some? then Some(Deactivate(s, s.handling.value.resource).(handling := None)) else None
    case WorkerStep(i, e) => if i < |s.workers| then StepWorker(s, i, e) else None
    case PostLands(name, k) =>
      var f := s.FeedOf(name);
      if k < |f.posts| && !f.posts[k].landed then Some(s.(feeds := s.feeds[name := LandPost(f, k)])) else None
    case AckLands(name, k) =>
      var f := s.FeedOf(name);
      if k < |f.acks| && !f.acks[k].landed then Some(s.(feeds := s.feeds[name := LandAck(f, k)])) else None
  }

  function RunSteps(s: System, steps: seq<Step>): Option<System>
    decreases |steps|
  {
    if steps == [] then Some(s)
    else
      match Apply(s, steps[0])
      case None => None
      case Some(t) => RunSteps(t, steps[1..])
  }

  lemma {:induction false} RunStepsConcat(s: System, xs: seq<Step>, ys: seq<Step>)
    requires RunSteps(s, xs).Some?
    ensures RunSteps(s, xs + ys) == RunSteps(RunSteps(s, xs).value, ys)
    decreases |xs|
  {
    if xs == [] {
      assert xs + ys == ys;
    } else {
      assert (xs + ys)[1..] == xs[1..] + ys;
      RunStepsConcat(Apply(s, xs[0]).value, xs[1..], ys);
    }
  }

  lemma RunStepsFirst(s: System, st: Step, steps: seq<Step>)
    requires Apply(s, st).Some?
    ensures RunSteps(s, [st] + steps) == RunSteps(Apply(s, st).value, steps)
  {
    assert ([st] + steps)[1..] == steps;
  }

  lemma RunFourSteps(s: System, a: Step, b: Step, c: Step, d: Step)
    requires Apply(s, a).Some? && Apply(Apply(s, a).value, b).Some?
    requires var t := Apply(Apply(s, a).value, b).value; Apply(t, c).Some? && Apply(Apply(t, c).value, d).Some?
    ensures var t := Apply(Apply(s, a).value, b).value;
            RunSteps(s, [a, b, c, d]) == Apply(Apply(t, c).value, d)
  {
    hide Apply;
    var s1 := Apply(s, a).value;
    var s2 := Apply(s1, b).value;
    var s3 := Apply(s2, c).value;
    RunStepsFirst(s3, d, []);
    RunStepsFirst(s2, c, [d]);
    RunStepsFirst(s1, b, [c, d]);
    RunStepsFirst(s, a, [b, c, d]);
  }
}
