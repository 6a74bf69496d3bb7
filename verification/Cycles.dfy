/**
 Whole cycles of one worker as runs of the pipeline: what a successful cycle commits and delivers, when
 that loses messages.
 */
module Cycles {
  import opened GoTypes
  import opened Ams
  import opened Wire
  import opened Protocol
  import opened Pipeline
  import opened Delivery
  import RetryPolicies
  import Service

  // ----------------------------------------------------------------- one successful cycle

  /** Worker i waits at its select for its timer, and its pulls can return n messages. */
  predicate Waiting(s: System, i: nat)
  {
    && i < |s.workers|
    && s.workers[i].local.phase.Selecting?
    && s.workers[i].local.timer.deadline.Some? && !s.workers[i].local.timer.tick
  }

  predicate Offers(s: System, i: nat, n: nat)
  {
    && Waiting(s, i) && n > 0
    && var f := s.FeedOf(s.workers[i].Name()); f.committed + n <= |f.log|
  }

  /** When the next push of the waiting worker starts. */
  function NextStart(s: System, i: nat): int
    requires Waiting(s, i)
  {
    Max(s.now, s.workers[i].local.timer.deadline.value)
  }

  function Batch(s: System, i: nat, n: nat): (b: seq<ReceivedMessage>)
    requires Offers(s, i, n)
    ensures b != []
  {
    var f := s.FeedOf(s.workers[i].Name());
    Segment(f.log, f.committed, n)
  }

  /** s with another state of worker i and of its feed. */
  function Put(s: System, i: nat, l: Local, r: Calls, f: Feed): System
    requires i < |s.workers|
  {
    var c := s.workers[i].config;
    s.(workers := s.workers[i := Worker(c, l, r)], feeds := s.feeds[c.consumer.fullSub := f])
  }

  lemma PutItself(s: System, i: nat)
    requires i < |s.workers| && s.workers[i].Name() in s.feeds
    ensures var w := s.workers[i]; Put(s, i, w.local, w.calls, s.FeedOf(w.Name())) == s
  {
  }

  lemma StepPut(s: System, i: nat, l: Local, r: Calls, f: Feed, e: Event)
    requires i < |s.workers|
    requires var w := Worker(s.workers[i].config, l, r); Next(w.config, l, s.now, e).Some? && Allowed(f, w, e)
    ensures var w := Worker(s.workers[i].config, l, r);
            Apply(Put(s, i, l, r, f), WorkerStep(i, e))
            == Some(Put(s, i, Next(w.config, l, s.now, e).value, Track(f, w, e), Issue(f, i, w, e)))
  {
    hide Next, Allowed, Issue, Track;
    var w, p := Worker(s.workers[i].config, l, r), Put(s, i, l, r, f);
    var v := Worker(w.config, Next(w.config, l, s.now, e).value, Track(f, w, e));
    assert p.workers[i] == w && p.FeedOf(w.Name()) == f;
    assert p.workers[i := v] == s.workers[i := v];
    assert p.feeds[w.Name() := Issue(f, i, w, e)] == s.feeds[w.Name() := Issue(f, i, w, e)];
  }

  lemma LandPut(s: System, i: nat, l: Local, r: Calls, f: Feed, k: nat)
    requires i < |s.workers|
    ensures var name := s.workers[i].Name();
            && (k < |f.posts| && !f.posts[k].landed ==>
                  Apply(Put(s, i, l, r, f), PostLands(name, k)) == Some(Put(s, i, l, r, LandPost(f, k))))
            && (k < |f.acks| && !f.acks[k].landed ==>
                  Apply(Put(s, i, l, r, f), AckLands(name, k)) == Some(Put(s, i, l, r, LandAck(f, k))))
  {
    hide LandPost, LandAck;
    var name, p := s.workers[i].Name(), Put(s, i, l, r, f);
    assert p.FeedOf(name) == f;
    if k < |f.posts| { assert p.feeds[name := LandPost(f, k)] == s.feeds[name := LandPost(f, k)]; }
    if k < |f.acks| { assert p.feeds[name := LandAck(f, k)] == s.feeds[name := LandAck(f, k)]; }
  }

  // The three parts of a cycle: up to the batch, up to the acknowledgement, and to the next select.

  /** The timer fires, the worker takes the tick, and its pull is answered. */
  function PullWith(c: Config, i: nat, wait: nat, reply: PullReply): seq<Step>
  {
    [Advance(wait), WorkerStep(i, TimerFired), WorkerStep(i, TickTaken),
     WorkerStep(i, Pulled(c.consumer.fullSub, c.Max(), reply))]
  }

  function Began(l: Local, t: int): Local
  {
    l.(phase := Consuming, timer := RetryPolicies.TimerState(None, false), starts := l.starts + [t])
  }

  lemma AdvancePut(s: System, i: nat, l: Local, r: Calls, f: Feed, d: nat)
    requires i < |s.workers|
    ensures Apply(Put(s, i, l, r, f), Advance(d)) == Some(Put(s.(now := s.now + d), i, l, r, f))
    ensures Put(s, i, l, r, f).workers[i] == Worker(s.workers[i].config, l, r)
  {
  }

  lemma PullWithRun(s: System, i: nat, l: Local, r: Calls, f: Feed, t: int, reply: PullReply)
    requires i < |s.workers| && l.phase.Selecting? && !l.timer.tick && l.timer.Due(t) && s.now <= t
    requires PullAllowed(f, f.committed, reply)
    ensures var c := s.workers[i].config;
            RunSteps(Put(s, i, l, r, f), PullWith(c, i, t - s.now, reply))
            == Some(Put(s.(now := t), i, AfterPull(c, Began(l, t), reply), r.(asked := f.committed), f))
  {
    hide RunSteps, Put, AfterPull, PullAllowed;
    var c, s0 := s.workers[i].config, s.(now := t);
    var st, l1 := PullWith(c, i, t - s.now, reply), l.(timer := l.timer.Fire());
    AdvancePut(s, i, l, r, f, t - s.now);
    StepPut(s0, i, l, r, f, TimerFired);
    StepPut(s0, i, l1, r, f, TickTaken);
    StepPut(s0, i, Began(l, t), r.(asked := f.committed), f, st[3].event);
    RunFourSteps(Put(s, i, l, r, f), st[0], st[1], st[2], st[3]);
  }

  function PullSteps(s: System, i: nat, n: nat): seq<Step>
    requires Offers(s, i, n)
  {
    PullWith(s.workers[i].config, i, NextStart(s, i) - s.now, Received(ReceivedMessagesList(Batch(s, i, n))))
  }

  function Holder(l: Local, t: int, b: seq<ReceivedMessage>): Local
  {
    Began(l, t).(phase := Holding(b))
  }

  lemma PullRun(s: System, i: nat, n: nat)
    requires Offers(s, i, n)
    ensures var w, t := s.workers[i], NextStart(s, i);
            RunSteps(s, PullSteps(s, i, n))
            == Some(Put(s.(now := t), i, Holder(w.local, t, Batch(s, i, n)),
                        w.calls.(asked := s.FeedOf(w.Name()).committed), s.FeedOf(w.Name())))
  {
    hide RunSteps, Put;
    var w := s.workers[i];
    var f := s.FeedOf(w.Name());
    PutItself(s, i);
    PullWithRun(s, i, w.local, w.calls, f, NextStart(s, i), Received(ReceivedMessagesList(Batch(s, i, n))));
  }

  function SendSteps(c: Config, i: nat, f: Feed, b: seq<ReceivedMessage>): seq<Step>
    requires b != []
  {
    [WorkerStep(i, PostIssued(c.sender.Destination(), Body(c, b))), PostLands(c.consumer.fullSub, |f.posts|),
     WorkerStep(i, PostAnswered(true)), WorkerStep(i, AckIssued(c.consumer.fullSub, b[|b| - 1].ackId))]
  }

  /** The feed once the batch has arrived and its acknowledgement is on the way. */
  function Sent(c: Config, i: nat, f: Feed, b: seq<ReceivedMessage>): Feed
    requires b != []
  {
    var p := Post(i, b[0].ackId, Body(c, b), true);
    f.(posts := f.posts + [p], stream := f.stream + Deliveries(p), acks := f.acks + [Ack(b[|b| - 1].ackId, false)])
  }

  lemma PostRun(s: System, i: nat, l: Local, r: Calls, f: Feed, b: seq<ReceivedMessage>)
    requires i < |s.workers| && l.phase == Holding(b) && b != []
    ensures var c := s.workers[i].config;
            var p := Post(i, b[0].ackId, Body(c, b), true);
            var st := SendSteps(c, i, f, b);
            var g := f.(posts := f.posts + [p], stream := f.stream + Deliveries(p));
            && Apply(Put(s, i, l, r, f), st[0]).Some?
            && Apply(Apply(Put(s, i, l, r, f), st[0]).value, st[1])
               == Some(Put(s, i, l.(phase := Posting(b)), r.(post := |f.posts|), g))
  {
    hide Put, Body, Deliveries;
    var c := s.workers[i].config;
    var p := Post(i, b[0].ackId, Body(c, b), false);
    var g := f.(posts := f.posts + [p]);
    StepPut(s, i, l, r, f, PostIssued(c.sender.Destination(), Body(c, b)));
    LandPut(s, i, l.(phase := Posting(b)), r.(post := |f.posts|), g, |f.posts|);
    SameDeliveries(p, p.(landed := true));
    assert LandPost(g, |f.posts|).posts == f.posts + [p.(landed := true)];
  }

  lemma AnsweredRun(s: System, i: nat, l: Local, r: Calls, g: Feed, b: seq<ReceivedMessage>)
    requires i < |s.workers| && l.phase == Posting(b) && b != []
    requires r.post < |g.posts| && g.posts[r.post].landed
    ensures var c := s.workers[i].config;
            var st := AckIssued(c.consumer.fullSub, b[|b| - 1].ackId);
            && Apply(Put(s, i, l, r, g), WorkerStep(i, PostAnswered(true))).Some?
            && Apply(Apply(Put(s, i, l, r, g), WorkerStep(i, PostAnswered(true))).value, WorkerStep(i, st))
               == Some(Put(s, i, l.(phase := Acking(b)), r.(ack := |g.acks|),
                           g.(acks := g.acks + [Ack(b[|b| - 1].ackId, false)])))
  {
    hide Put, Body;
    var c := s.workers[i].config;
    StepPut(s, i, l, r, g, PostAnswered(true));
    StepPut(s, i, l.(phase := Delivered(b)), r, g, AckIssued(c.consumer.fullSub, b[|b| - 1].ackId));
  }

  lemma SendRun(s: System, i: nat, l: Local, r: Calls, f: Feed, b: seq<ReceivedMessage>)
    requires i < |s.workers| && l.phase == Holding(b) && b != []
    ensures var c := s.workers[i].config;
            RunSteps(Put(s, i, l, r, f), SendSteps(c, i, f, b))
            == Some(Put(s, i, l.(phase := Acking(b)), Calls(r.asked, |f.posts|, |f.acks|), Sent(c, i, f, b)))
  {
    hide RunSteps, Put, Body, Deliveries, Apply;
    var c := s.workers[i].config;
    var st, p := SendSteps(c, i, f, b), Post(i, b[0].ackId, Body(c, b), true);
    var g := f.(posts := f.posts + [p], stream := f.stream + Deliveries(p));
    PostRun(s, i, l, r, f, b);
    AnsweredRun(s, i, l.(phase := Posting(b)), r.(post := |f.posts|), g, b);
    RunFourSteps(Put(s, i, l, r, f), st[0], st[1], st[2], st[3]);
  }

  lemma SameDeliveries(p: Post, q: Post)
    requires p.lo == q.lo && p.worker == q.worker && p.body == q.body
    ensures Deliveries(p) == Deliveries(q)
  {
  }

  function AckSteps(c: Config, i: nat, f: Feed): seq<Step>
  {
    [AckLands(c.consumer.fullSub, |f.acks|), WorkerStep(i, AckAnswered(true)), WorkerStep(i, TimerReset), Advance(0)]
  }

  function Rearmed(l: Local, t: int, n: nat): Local
  {
    var p := RetryPolicies.AfterReset(l.policy, false);
    Finish(l, Succeeded(n)).(phase := Selecting, policy := p,
                             timer := l.timer.(deadline := Some(t + p.Interval())))
  }

  lemma AckedRun(s: System, i: nat, l: Local, r: Calls, g: Feed, b: seq<ReceivedMessage>)
    requires i < |s.workers| && l.phase == Acking(b) && r.ack < |g.acks| && !g.acks[r.ack].landed
    ensures var c, h := s.workers[i].config, LandAck(g, r.ack);
            && Apply(Put(s, i, l, r, g), AckLands(c.consumer.fullSub, r.ack)).Some?
            && Apply(Apply(Put(s, i, l, r, g), AckLands(c.consumer.fullSub, r.ack)).value,
                     WorkerStep(i, AckAnswered(true)))
               == Some(Put(s, i, Finish(l, Succeeded(|b|)), r, h))
  {
    hide Put;
    LandPut(s, i, l, r, g, r.ack);
    StepPut(s, i, l, r, LandAck(g, r.ack), AckAnswered(true));
  }

  lemma RearmRun(s: System, i: nat, l: Local, r: Calls, h: Feed, n: nat)
    requires i < |s.workers|
    ensures Apply(Put(s, i, Finish(l, Succeeded(n)), r, h), WorkerStep(i, TimerReset))
         == Some(Put(s, i, Rearmed(l, s.now, n), r, h))
  {
    hide Put;
    StepPut(s, i, Finish(l, Succeeded(n)), r, h, TimerReset);
  }

  lemma AckRun(s: System, i: nat, l: Local, r: Calls, f: Feed, g: Feed, b: seq<ReceivedMessage>)
    requires i < |s.workers| && l.phase == Acking(b) && r.ack == |f.acks|
    requires |g.acks| == |f.acks| + 1 && !g.acks[|f.acks|].landed
    ensures var c := s.workers[i].config;
            RunSteps(Put(s, i, l, r, g), AckSteps(c, i, f))
            == Some(Put(s, i, Rearmed(l, s.now, |b|), r, LandAck(g, |f.acks|)))
  {
    hide RunSteps, Put, Apply, Rearmed, Finish, LandAck;
    var st := AckSteps(s.workers[i].config, i, f);
    AckedRun(s, i, l, r, g, b);
    RearmRun(s, i, l, r, LandAck(g, |f.acks|), |b|);
    AdvancePut(s, i, Rearmed(l, s.now, |b|), r, LandAck(g, |f.acks|), 0);
    assert s.(now := s.now + 0) == s;
    RunFourSteps(Put(s, i, l, r, g), st[0], st[1], st[2], st[3]);
  }

  /** The steps of a cycle in which everything succeeds at once and n messages are pulled. */
  function CycleSteps(s: System, i: nat, n: nat): seq<Step>
    requires Offers(s, i, n)
  {
    var c, b := s.workers[i].config, Batch(s, i, n);
    var f := s.FeedOf(c.consumer.fullSub);
    PullSteps(s, i, n) + SendSteps(c, i, f, b) + AckSteps(c, i, f)
  }

  function AfterCycle(s: System, i: nat, n: nat): System
    requires Offers(s, i, n)
  {
    var w, b, t := s.workers[i], Batch(s, i, n), NextStart(s, i);
    var f := s.FeedOf(w.Name());
    Put(s.(now := t), i, Rearmed(Holder(w.local, t, b), t, n), Calls(f.committed, |f.posts|, |f.acks|),
        LandAck(Sent(w.config, i, f, b), |f.acks|))
  }

  lemma CycleRun(s: System, i: nat, n: nat)
    requires Offers(s, i, n)
    ensures RunSteps(s, CycleSteps(s, i, n)) == Some(AfterCycle(s, i, n))
  {
    hide RunSteps, Put, PullSteps, SendSteps, AckSteps, Body, Deliveries;
    var w, b, t := s.workers[i], Batch(s, i, n), NextStart(s, i);
    var c, f := w.config, s.FeedOf(w.Name());
    var l, s0 := Holder(w.local, t, b), s.(now := t);
    PullRun(s, i, n);
    SendRun(s0, i, l, w.calls.(asked := f.committed), f, b);
    AckRun(s0, i, l.(phase := Acking(b)), Calls(f.committed, |f.posts|, |f.acks|), f, Sent(c, i, f, b), b);
    RunStepsConcat(s, PullSteps(s, i, n), SendSteps(c, i, f, b));
    RunStepsConcat(s, PullSteps(s, i, n) + SendSteps(c, i, f, b), AckSteps(c, i, f));
  }

  /** What a successful cycle does to the feed: it commits its n messages, and delivers the body it sent. */
  lemma CycleFeed(s: System, i: nat, n: nat)
    requires Offers(s, i, n)
    ensures var w, t := s.workers[i], AfterCycle(s, i, n);
            var f, g := s.FeedOf(w.Name()), t.FeedOf(w.Name());
            && g.log == f.log && g.committed == f.committed + n
            && Indices(g.stream) == Indices(f.stream) + From(f.committed, if Whole(w.config, n) then n else 1)
  {
    hide Body, RetryPolicies.AfterReset, Deliveries;
    var w, b := s.workers[i], Batch(s, i, n);
    var f := s.FeedOf(w.Name());
    var p := Post(i, b[0].ackId, Body(w.config, b), true);
    BodyIsWhole(w.config, b);
    IndicesOfDeliveries(p);
    assert Indices(f.stream + Deliveries(p)) == Indices(f.stream) + Indices(Deliveries(p));
  }

  // ----------------------------------------------------------------- loss

  /** Everything that is committed has arrived. */
  ghost predicate NothingLost(f: Feed)
  {
    forall k :: 0 <= k < f.committed ==> Reached(f.stream, k)
  }

  lemma ReachedAfter(s: System, i: nat, n: nat, k: nat)
    requires Offers(s, i, n)
    ensures var w := s.workers[i];
            var f, g := s.FeedOf(w.Name()), AfterCycle(s, i, n).FeedOf(w.Name());
            Reached(g.stream, k) <==>
            Reached(f.stream, k) || f.committed <= k < f.committed + if Whole(w.config, n) then n else 1
  {
    hide AfterCycle, Whole;
    var w := s.workers[i];
    var f, g := s.FeedOf(w.Name()), AfterCycle(s, i, n).FeedOf(w.Name());
    CycleFeed(s, i, n);
    ReachedIsIndex(f.stream, k);
    ReachedIsIndex(g.stream, k);
    FromMembers(f.committed, if Whole(w.config, n) then n else 1, k);
  }

  function Publishes(name: string, msgs: seq<Message>): (steps: seq<Step>)
    ensures forall st :: st in steps ==> st.Publish?
  {
    if msgs == [] then [] else [Publish(name, msgs[0])] + Publishes(name, msgs[1..])
  }

  lemma {:induction false} PublishRun(s: System, name: string, msgs: seq<Message>)
    requires name in s.feeds
    ensures var f := s.FeedOf(name);
            RunSteps(s, Publishes(name, msgs)) == Some(s.(feeds := s.feeds[name := f.(log := f.log + msgs)]))
    decreases |msgs|
  {
    var f := s.FeedOf(name);
    if msgs == [] {
      assert f.log + [] == f.log && s.feeds[name := f] == s.feeds;
      RunNothing(s);
    } else {
      var t := Apply(s, Publish(name, msgs[0])).value;
      PublishRun(t, name, msgs[1..]);
      assert f.log + [msgs[0]] + msgs[1..] == f.log + msgs;
      assert t.feeds[name := f.(log := f.log + msgs)] == s.feeds[name := f.(log := f.log + msgs)];
      RunStepsFirst(s, Publish(name, msgs[0]), Publishes(name, msgs[1..]));
    }
  }

  lemma RunNothing(s: System)
    ensures RunSteps(s, []) == Some(s)
  {
  }

  /** The service serves sub alone, and one message is there for it. */
  function Prepared(host: string, now: int, sub: Subscription, m: Message): System
    requires Service.Pushable(sub)
  {
    var rp := RetryPolicies.Initial(sub.pushConfig.retryPolicy).value;
    System(now, host, Service.Ok, Loading([]), map[sub.fullName := 0],
           [Worker(Configure(sub, host), Fresh(rp.0, rp.1, now), NO_CALLS)],
           map[sub.fullName := Feed([m], 0, [], [], [])], None, [Started(sub.fullName, 0)])
  }

  function PrepareSteps(sub: Subscription, m: Message): seq<Step>
  {
    [AnswerUser(Some(Service.UserInfo("", []))), Rpc(ActivateCall(Service.Complete(sub))),
     Publish(sub.fullName, m), Advance(0)]
  }

  lemma PrepareRun(host: string, now: int, sub: Subscription, m: Message)
    requires Service.Pushable(sub)
    ensures RunSteps(Init(host, now, false), PrepareSteps(sub, m)) == Some(Prepared(host, now, sub, m))
  {
    hide RunSteps, Configure;
    var st, s0 := PrepareSteps(sub, m), Init(host, now, false);
    var s1 := Apply(s0, st[0]).value;
    assert s1 == s0.(status := Service.Ok, loader := Loading([]));
    var s2 := Apply(s1, st[1]).value;
    assert s2 == Insert(s1, sub);
    var t := Prepared(host, now, sub, m);
    assert s2.registry == t.registry && s2.history == t.history && s2.workers == t.workers;
    var s3 := Apply(s2, st[2]).value;
    assert s2.FeedOf(sub.fullName) == EMPTY_FEED && EMPTY_FEED.log + [m] == [m];
    assert s3.feeds == t.feeds;
    assert s3 == t;
    RunFourSteps(s0, st[0], st[1], st[2], st[3]);
  }

  /** The one pull of a cycle. */
  lemma CyclePulls(s: System, i: nat, n: nat, st: Step)
    requires Offers(s, i, n) && st in CycleSteps(s, i, n) && st.WorkerStep? && st.event.Pulled?
    ensures st.i == i && st.event.reply.Received? && |st.event.reply.list.recMsgs| == n
  {
    hide Body;
  }

  /**
   Every other case has a losing run: whatever the settings, if the sender would not transmit the batch
   whole, there is a run from the start in which all n >= 2 messages are committed and the second never
   arrived. The broker honours the maximum if that is at least n, or none.
   */
  lemma LosingRun(host: string, now: int, sub: Subscription, msgs: seq<Message>) returns (steps: seq<Step>)
    requires Service.Pushable(sub) && |msgs| >= 2 && !Whole(Configure(sub, host), |msgs|)
    ensures RunSteps(Init(host, now, false), steps).Some?
    ensures var t := RunSteps(Init(host, now, false), steps).value;
            var f := t.FeedOf(sub.fullName);
            && f.log == msgs && f.committed == |msgs| && !Reached(f.stream, 1)
            && |t.workers| == 1 && t.workers[0].config == Configure(sub, host)
    ensures Honours(Configure(sub, host), |msgs|) ==> HonouredRun(Init(host, now, false), steps, sub.fullName)
  {
    hide RunSteps, AfterCycle, CycleSteps, Publishes, Apply, Configure, Whole, Honours;
    var s0 := Init(host, now, false);
    var first := PrepareSteps(sub, msgs[0]);
    PrepareRun(host, now, sub, msgs[0]);
    var s1 := RunSteps(s0, first).value;
    PublishRun(s1, sub.fullName, msgs[1..]);
    var s2 := RunSteps(s1, Publishes(sub.fullName, msgs[1..])).value;
    ServesSub(host, sub);
    assert s2.FeedOf(sub.fullName) == EMPTY_FEED.(log := msgs) by { assert [msgs[0]] + msgs[1..] == msgs; }
    CycleRun(s2, 0, |msgs|);
    ReachedAfter(s2, 0, |msgs|, 1);
    CycleFeed(s2, 0, |msgs|);
    RunStepsConcat(s0, first, Publishes(sub.fullName, msgs[1..]));
    RunStepsConcat(s0, first + Publishes(sub.fullName, msgs[1..]), CycleSteps(s2, 0, |msgs|));
    steps := first + Publishes(sub.fullName, msgs[1..]) + CycleSteps(s2, 0, |msgs|);
    var t := AfterCycle(s2, 0, |msgs|);
    assert |t.workers| == 1 && t.workers[0].config == Configure(sub, host) by { KeepsWorkers(s2, 0, |msgs|); }
    if Honours(Configure(sub, host), |msgs|) {
      forall st | st in steps ensures HonouredStep(t, st, sub.fullName) {
        if st in CycleSteps(s2, 0, |msgs|) && st.WorkerStep? && st.event.Pulled? { CyclePulls(s2, 0, |msgs|, st); }
      }
      HonouredAtTheEnd(s0, steps, sub.fullName);
    }
  }

  lemma ServesSub(host: string, sub: Subscription)
    ensures Configure(sub, host).consumer.fullSub == sub.fullName && Configure(sub, host).sub == sub
  {
  }

  lemma KeepsWorkers(s: System, i: nat, n: nat)
    requires Offers(s, i, n)
    ensures var t := AfterCycle(s, i, n);
            |t.workers| == |s.workers| && t.workers[i].config == s.workers[i].config
  {
    hide Body, Deliveries, RetryPolicies.AfterReset;
  }

  /** A run in which the subscription is served with these settings only, with the kind of broker told. */
  ghost predicate ServedRun(host: string, now: int, skip: bool, steps: seq<Step>, sub: Subscription, honest: bool)
  {
    && RunSteps(Init(host, now, skip), steps).Some?
    && (honest ==> HonouredRun(Init(host, now, skip), steps, sub.fullName))
    && var t := RunSteps(Init(host, now, skip), steps).value;
       forall i :: 0 <= i < |t.workers| && t.workers[i].Name() == sub.fullName ==>
         t.workers[i].config == Configure(sub, host)
  }

  ghost predicate NeverLoses(host: string, sub: Subscription, honest: bool)
  {
    forall now, skip, steps :: ServedRun(host, now, skip, steps, sub, honest) ==>
      NothingLost(RunSteps(Init(host, now, skip), steps).value.FeedOf(sub.fullName))
  }

  /**
   Which settings never lose an acknowledged message, in any run: with a broker that honours the maximum,
   an HTTP endpoint or a maximum of 1; with one that may send more, an HTTP endpoint and a maximum other than 1.
   */
  lemma SettingsThatNeverLose(host: string, sub: Subscription, honest: bool)
    requires Service.Pushable(sub)
    ensures NeverLoses(host, sub, honest) <==>
            if honest then sub.pushConfig.pushType.HttpEndpoint? || sub.pushConfig.maxMessages == 1
            else sub.pushConfig.pushType.HttpEndpoint? && sub.pushConfig.maxMessages != 1
  {
    hide RunSteps, HonouredRun, WholeRun, NothingLost;
    var c := Configure(sub, host);
    if Safe(c, honest) {
      forall now, skip, steps | ServedRun(host, now, skip, steps, sub, honest)
        ensures NothingLost(RunSteps(Init(host, now, skip), steps).value.FeedOf(sub.fullName))
      {
        SafeRunLosesNothing(host, now, skip, steps, sub, honest);
      }
    } else {
      var m := Message("", map[], [], "");
      var steps := LosingRun(host, 0, sub, [m, m]);
      var t := RunSteps(Init(host, 0, false), steps).value;
      assert ServedRun(host, 0, false, steps, sub, honest);
      SecondIsLost(t.FeedOf(sub.fullName));
    }
  }

  lemma SecondIsLost(f: Feed)
    requires f.committed == 2 && !Reached(f.stream, 1)
    ensures !NothingLost(f)
  {
  }

  lemma SafeRunLosesNothing(host: string, now: int, skip: bool, steps: seq<Step>, sub: Subscription, honest: bool)
    requires ServedRun(host, now, skip, steps, sub, honest) && Safe(Configure(sub, host), honest)
    ensures NothingLost(RunSteps(Init(host, now, skip), steps).value.FeedOf(sub.fullName))
  {
    hide RunSteps, HonouredRun, WholeRun, Configure, Safe, Reached;
    SafeRunsAreWhole(Init(host, now, skip), steps, sub.fullName, honest);
    AtLeastOnce(host, now, skip, steps, sub.fullName);
  }
}
