/**
 What reaches the endpoint of a subscription in any run: with senders that transmit whole batches every
 message below the committed offset, in log order apart from repetitions; and always the right content.
 */
module Delivery {
  import opened GoTypes
  import opened Ams
  import opened Wire
  import opened Protocol
  import opened Pipeline
  import Service

  // ----------------------------------------------------------------- streams and what they cover

  /** lo, lo + 1, ..., lo + n - 1 */
  function From(lo: nat, n: nat): (r: seq<nat>)
    ensures |r| == n
    ensures forall k :: 0 <= k < n ==> r[k] == lo + k
  {
    if n == 0 then [] else From(lo, n - 1) + [lo + n - 1]
  }

  function Indices(stream: seq<Delivery>): (r: seq<nat>)
    ensures |r| == |stream|
    ensures forall k :: 0 <= k < |r| ==> r[k] == stream[k].index
  {
    if stream == [] then [] else Indices(stream[..|stream| - 1]) + [stream[|stream| - 1].index]
  }

  /** xs without repetitions: of each value the first occurrence stays. */
  function FirstSeen(xs: seq<nat>): seq<nat>
  {
    if xs == [] then []
    else
      var init, x := xs[..|xs| - 1], xs[|xs| - 1];
      FirstSeen(init) + if x in init then [] else [x]
  }

  lemma {:induction false} FirstSeenMembers(xs: seq<nat>, x: nat)
    ensures x in FirstSeen(xs) <==> x in xs
  {
    if xs == [] {
    } else {
      FirstSeenMembers(xs[..|xs| - 1], x);
      assert xs == xs[..|xs| - 1] + [xs[|xs| - 1]];
    }
  }

  /** How far the endpoint's stream reaches into the log. */
  function Frontier(f: Feed): nat { |FirstSeen(Indices(f.stream))| }

  predicate Gapless(f: Feed) { FirstSeen(Indices(f.stream)) == From(0, Frontier(f)) }

  lemma FirstSeenSnoc(xs: seq<nat>, x: nat)
    ensures FirstSeen(xs + [x]) == FirstSeen(xs) + if x in xs then [] else [x]
  {
    assert (xs + [x])[..|xs|] == xs;
  }

  lemma FromMembers(lo: nat, n: nat, x: nat)
    ensures x in From(lo, n) <==> lo <= x < lo + n
  {
    if lo <= x < lo + n { assert From(lo, n)[x - lo] == x; }
  }

  /** A batch that starts no later than the frontier extends a gap-free stream to a gap-free stream. */
  lemma {:induction false} AppendBatch(xs: seq<nat>, frontier: nat, lo: nat, n: nat)
    requires FirstSeen(xs) == From(0, frontier) && lo <= frontier
    ensures FirstSeen(xs + From(lo, n)) == From(0, Max(frontier, lo + n))
  {
    hide FirstSeen;
    if n == 0 {
      assert xs + From(lo, 0) == xs;
    } else {
      AppendBatch(xs, frontier, lo, n - 1);
      var ys, x := xs + From(lo, n - 1), lo + n - 1;
      assert xs + From(lo, n) == ys + [x];
      FirstSeenSnoc(ys, x);
      FirstSeenMembers(ys, x);
      FromMembers(0, Max(frontier, lo + n - 1), x);
    }
  }

  // ----------------------------------------------------------------- content

  predicate IsSegment(log: seq<Message>, b: seq<ReceivedMessage>)
  {
    && b != [] && b[0].ackId + |b| <= |log|
    && b == Segment(log, b[0].ackId, |b|)
  }

  ghost predicate PostContent(s: System, name: string, log: seq<Message>, p: Post)
  {
    && p.worker < |s.workers| && s.workers[p.worker].Name() == name
    && p.lo + |p.body| <= |log|
    && forall k :: 0 <= k < |p.body| ==> p.body[k] == Translate(s.workers[p.worker].config, log[p.lo + k])
  }

  ghost predicate DeliveryContent(s: System, name: string, log: seq<Message>, d: Delivery)
  {
    && d.worker < |s.workers| && s.workers[d.worker].Name() == name
    && d.index < |log|
    && d.push == Translate(s.workers[d.worker].config, log[d.index])
  }

  /** Every request and every delivery carries the translations of the messages it stands for. */
  ghost predicate FeedContent(s: System, name: string, f: Feed)
  {
    && (forall k :: 0 <= k < |f.posts| ==> PostContent(s, name, f.log, f.posts[k]))
    && (forall k :: 0 <= k < |f.stream| ==> DeliveryContent(s, name, f.log, f.stream[k]))
  }

  ghost predicate ContentInv(s: System, name: string)
  {
    var f := s.FeedOf(name);
    && FeedContent(s, name, f)
    && (forall i :: 0 <= i < |s.workers| && s.workers[i].Name() == name && s.workers[i].local.phase.HasBatch() ==>
          IsSegment(f.log, s.workers[i].local.phase.batch))
  }

  /** Logs only grow, and workers keep their settings. */
  ghost predicate Grows(s: System, t: System, name: string)
  {
    && s.FeedOf(name).log <= t.FeedOf(name).log
    && |s.workers| <= |t.workers|
    && forall i :: 0 <= i < |s.workers| ==> t.workers[i].config == s.workers[i].config
  }

  lemma SegmentStable(log: seq<Message>, log': seq<Message>, b: seq<ReceivedMessage>)
    requires IsSegment(log, b) && log <= log'
    ensures IsSegment(log', b)
  {
    assert forall k :: 0 <= k < |log| ==> log[k] == log'[k];
  }

  lemma PostStable(s: System, t: System, name: string, log: seq<Message>, log': seq<Message>, p: Post)
    requires PostContent(s, name, log, p) && log <= log' && |s.workers| <= |t.workers|
    requires t.workers[p.worker].config == s.workers[p.worker].config
    ensures PostContent(t, name, log', p)
  {
    hide Translate;
    assert forall k :: 0 <= k < |log| ==> log[k] == log'[k];
  }

  lemma ContentStable(s: System, t: System, name: string)
    requires ContentInv(s, name) && Grows(s, t, name)
    ensures FeedContent(t, name, s.FeedOf(name).(log := t.FeedOf(name).log))
  {
    hide Translate;
    var f, log := s.FeedOf(name), t.FeedOf(name).log;
    assert forall k :: 0 <= k < |f.log| ==> f.log[k] == log[k];
    forall k | 0 <= k < |f.posts| ensures PostContent(t, name, log, f.posts[k]) {
      PostStable(s, t, name, f.log, log, f.posts[k]);
    }
    forall k | 0 <= k < |f.stream| ensures DeliveryContent(t, name, log, f.stream[k]) {
      assert DeliveryContent(s, name, f.log, f.stream[k]);
    }
  }

  /** What a step does to one subscription's feed. */
  function FeedAfter(s: System, st: Step, name: string): Feed
  {
    var f := s.FeedOf(name);
    match st
    case Publish(topic, msg) => if topic == name then f.(log := f.log + [msg]) else f
    case WorkerStep(i, e) =>
      if i < |s.workers| && s.workers[i].Name() == name then Issue(f, i, s.workers[i], e) else f
    case PostLands(n, k) => if n == name && k < |f.posts| then LandPost(f, k) else f
    case AckLands(n, k) => if n == name && k < |f.acks| then LandAck(f, k) else f
    case _ => f
  }

  lemma StepFeed(s: System, st: Step, name: string)
    requires Apply(s, st).Some?
    ensures Apply(s, st).value.FeedOf(name) == FeedAfter(s, st, name)
  {
    hide Next, Allowed, Service.Judge, Configure, Issue, LandPost, LandAck;
  }

  lemma FeedGrows(s: System, st: Step, name: string)
    ensures s.FeedOf(name).log <= FeedAfter(s, st, name).log
  {
  }

  lemma StepKeepsConfigs(s: System, st: Step)
    requires Apply(s, st).Some?
    ensures var t := Apply(s, st).value;
            && |s.workers| <= |t.workers|
            && forall i :: 0 <= i < |s.workers| ==> t.workers[i].config == s.workers[i].config
  {
    hide Next, Allowed, Service.Judge, Configure, Issue, LandPost, LandAck;
  }

  lemma StepGrows(s: System, st: Step, name: string)
    requires Apply(s, st).Some?
    ensures Grows(s, Apply(s, st).value, name)
  {
    hide Apply, FeedAfter;
    StepFeed(s, st, name);
    FeedGrows(s, st, name);
    StepKeepsConfigs(s, st);
  }

  lemma IssuedContent(s: System, i: nat, e: Event)
    requires i < |s.workers| && ContentInv(s, s.workers[i].Name())
    requires e.PostIssued? && Next(s.workers[i].config, s.workers[i].local, s.now, e).Some?
    ensures var w := s.workers[i];
            PostContent(s, w.Name(), s.FeedOf(w.Name()).log, Post(i, w.local.phase.batch[0].ackId, e.body, false))
  {
    hide Translate;
    var w := s.workers[i];
    var b := w.local.phase.batch;
    assert IsSegment(s.FeedOf(w.Name()).log, b);
    assert e.body == Body(w.config, b);
  }

  lemma LandedContent(s: System, name: string, f: Feed, k: nat)
    requires FeedContent(s, name, f) && k < |f.posts|
    ensures FeedContent(s, name, LandPost(f, k))
  {
    hide Translate;
    var g, p := LandPost(f, k), f.posts[k];
    assert PostContent(s, name, f.log, p);
    forall j | 0 <= j < |g.posts| ensures PostContent(s, name, g.log, g.posts[j]) {
      assert PostContent(s, name, f.log, f.posts[j]);
    }
    forall j | 0 <= j < |g.stream| ensures DeliveryContent(s, name, g.log, g.stream[j]) {
      if j < |f.stream| { assert DeliveryContent(s, name, f.log, f.stream[j]); }
    }
  }

  /** The requests and deliveries a step leaves carry the right content. */
  lemma StepContent(s: System, st: Step, name: string)
    requires ContentInv(s, name) && Apply(s, st).Some?
    ensures FeedContent(Apply(s, st).value, name, Apply(s, st).value.FeedOf(name))
  {
    StepGrows(s, st, name);
    StepFeed(s, st, name);
    var t := Apply(s, st).value;
    ContentStable(s, t, name);
    var f := s.FeedOf(name);
    if st.PostLands? && st.feed == name {
      LandedContent(t, name, f, st.k);
    } else if st.WorkerStep? && st.event.PostIssued? && s.workers[st.i].Name() == name {
      IssuedContent(s, st.i, st.event);
      var lo := s.workers[st.i].local.phase.batch[0].ackId;
      PostStable(s, t, name, f.log, f.log, Post(st.i, lo, st.event.body, false));
    }
  }

  /** A batch a worker holds after a step it held before, or the step is its own. */
  lemma StepPhase(s: System, st: Step, i: nat)
    requires Apply(s, st).Some? && i < |Apply(s, st).value.workers|
    requires Apply(s, st).value.workers[i].local.phase.HasBatch()
    ensures var t := Apply(s, st).value;
            && i < |s.workers| && t.workers[i].config == s.workers[i].config
            && ((st.WorkerStep? && st.i == i)
                || (&& t.workers[i].local.phase == s.workers[i].local.phase
                    && t.workers[i].calls == s.workers[i].calls))
  {
    hide Allowed, Service.Judge, Configure, Issue, LandPost, LandAck, Body;
  }

  lemma OwnStep(s: System, i: nat, e: Event)
    requires Apply(s, WorkerStep(i, e)).Some?
    ensures i < |s.workers|
    ensures var w, v := s.workers[i], Apply(s, WorkerStep(i, e)).value.workers[i];
            var f := s.FeedOf(w.Name());
            && Next(w.config, w.local, s.now, e) == Some(v.local) && Allowed(f, w, e)
            && v.config == w.config && v.calls == Track(f, w, e)
            && Apply(s, WorkerStep(i, e)).value.FeedOf(w.Name()) == Issue(f, i, w, e)
  {
    hide Next, Allowed, Issue;
  }

  /** A step of a worker keeps its batch, takes a new one from a pull, or ends the cycle. */
  lemma OwnBatch(c: Config, l: Local, now: int, e: Event)
    requires Next(c, l, now, e).Some? && Next(c, l, now, e).value.phase.HasBatch()
    ensures var b := Next(c, l, now, e).value.phase.batch;
            || (l.phase.HasBatch() && l.phase.batch == b && !e.Pulled?)
            || (e.Pulled? && e.reply.Received? && e.reply.list.recMsgs == b && b != []
                && Next(c, l, now, e).value.phase.Holding?)
  {
    hide Body;
  }

  lemma StepKeepsContent(s: System, st: Step, name: string)
    requires ContentInv(s, name) && Apply(s, st).Some?
    ensures ContentInv(Apply(s, st).value, name)
  {
    hide FeedContent, Apply;
    var t := Apply(s, st).value;
    StepContent(s, st, name);
    StepGrows(s, st, name);
    forall i | 0 <= i < |t.workers| && t.workers[i].Name() == name && t.workers[i].local.phase.HasBatch()
      ensures IsSegment(t.FeedOf(name).log, t.workers[i].local.phase.batch)
    {
      StepPhase(s, st, i);
      if st.WorkerStep? && st.i == i {
        OwnStep(s, i, st.event);
        OwnBatch(s.workers[i].config, s.workers[i].local, s.now, st.event);
        OwnSegment(s.FeedOf(name), s.workers[i], s.now, st.event);
      }
      SegmentStable(s.FeedOf(name).log, t.FeedOf(name).log, t.workers[i].local.phase.batch);
    }
  }

  lemma OwnSegment(f: Feed, w: Worker, now: int, e: Event)
    requires Next(w.config, w.local, now, e).Some? && Next(w.config, w.local, now, e).value.phase.HasBatch()
    requires Allowed(f, w, e)
    requires w.local.phase.HasBatch() ==> IsSegment(f.log, w.local.phase.batch)
    ensures IsSegment(f.log, Next(w.config, w.local, now, e).value.phase.batch)
    ensures e.Pulled? ==> w.calls.asked <= Next(w.config, w.local, now, e).value.phase.batch[0].ackId <= f.committed
  {
    hide Next;
    OwnBatch(w.config, w.local, now, e);
  }

  lemma {:induction false} RunKeepsContent(s: System, steps: seq<Step>, name: string)
    requires ContentInv(s, name) && RunSteps(s, steps).Some?
    ensures ContentInv(RunSteps(s, steps).value, name)
    decreases |steps|
  {
    if steps == [] {
    } else {
      StepKeepsContent(s, steps[0], name);
      RunKeepsContent(Apply(s, steps[0]).value, steps[1..], name);
    }
  }

  /** In every run each delivery is a log message of its subscription, translated as its sender was set up. */
  lemma ContentOfEveryRun(host: string, now: int, skip: bool, steps: seq<Step>, name: string, d: Delivery)
    requires RunSteps(Init(host, now, skip), steps).Some?
    requires d in RunSteps(Init(host, now, skip), steps).value.FeedOf(name).stream
    ensures var t := RunSteps(Init(host, now, skip), steps).value;
            var log := t.FeedOf(name).log;
            && d.worker < |t.workers| && t.workers[d.worker].Name() == name && d.index < |log|
            && d.push == Translate(t.workers[d.worker].config, log[d.index])
  {
    RunKeepsContent(Init(host, now, skip), steps, name);
    var t := RunSteps(Init(host, now, skip), steps).value;
    var k :| 0 <= k < |t.FeedOf(name).stream| && t.FeedOf(name).stream[k] == d;
    assert DeliveryContent(t, name, t.FeedOf(name).log, t.FeedOf(name).stream[k]);
  }

  // ----------------------------------------------------------------- at least once, in order

  predicate BatchInv(f: Feed, w: Worker)
  {
    var p := w.local.phase;
    p.HasBatch() ==>
      && p.batch != []
      && p.batch[0].ackId <= Frontier(f)
      && (p.Posting? ==> w.calls.post < |f.posts| && Carries(f.posts[w.calls.post], w.config, p.batch))
      && (p.Delivered? ==> p.batch[0].ackId + Share(w.config, |p.batch|) <= Frontier(f))
  }

  predicate Carries(p: Post, c: Config, b: seq<ReceivedMessage>)
    requires b != []
  {
    p.lo == b[0].ackId && |p.body| == Share(c, |b|)
  }

  predicate PostInv(f: Feed, p: Post)
  {
    && p.lo <= Frontier(f)
    && p.lo + |p.body| <= |f.log|
    && (p.landed ==> p.lo + |p.body| <= Frontier(f))
  }

  predicate StreamInv(f: Feed)
  {
    && Gapless(f) && f.committed <= Frontier(f) <= |f.log|
    && (forall k :: 0 <= k < |f.posts| ==> PostInv(f, f.posts[k]))
    && (forall k :: 0 <= k < |f.acks| ==> f.acks[k].id < Frontier(f))
  }

  ghost predicate DeliveryInv(s: System, name: string)
  {
    && StreamInv(s.FeedOf(name))
    && forall i :: 0 <= i < |s.workers| && s.workers[i].Name() == name ==> BatchInv(s.FeedOf(name), s.workers[i])
  }

  /** If the step acknowledges a batch of this subscription, then one that its worker's sender transmits whole. */
  predicate WholeStep(s: System, st: Step, name: string)
  {
    st.WorkerStep? && st.i < |s.workers| && s.workers[st.i].Name() == name && st.event.AckIssued?
    && s.workers[st.i].local.phase.HasBatch()
    ==> Whole(s.workers[st.i].config, |s.workers[st.i].local.phase.batch|)
  }

  predicate WholeRun(s: System, steps: seq<Step>, name: string)
    decreases |steps|
  {
    steps == [] ||
    (&& WholeStep(s, steps[0], name)
     && (Apply(s, steps[0]).Some? ==> WholeRun(Apply(s, steps[0]).value, steps[1..], name)))
  }

  /** Nothing that a feed promised is taken back. */
  predicate Extends(f: Feed, g: Feed)
  {
    && Frontier(f) <= Frontier(g) && |f.log| <= |g.log| && |f.posts| <= |g.posts|
    && forall k :: 0 <= k < |f.posts| ==> g.posts[k].lo == f.posts[k].lo && |g.posts[k].body| == |f.posts[k].body|
  }

  lemma BatchStable(f: Feed, g: Feed, w: Worker)
    requires BatchInv(f, w) && Extends(f, g)
    ensures BatchInv(g, w)
  {
  }

  lemma IndicesOfDeliveries(p: Post)
    ensures Indices(Deliveries(p)) == From(p.lo, |p.body|)
  {
  }

  lemma LandedStream(f: Feed, k: nat)
    requires StreamInv(f) && k < |f.posts|
    ensures StreamInv(LandPost(f, k)) && Extends(f, LandPost(f, k))
    ensures Frontier(LandPost(f, k)) == Max(Frontier(f), f.posts[k].lo + |f.posts[k].body|)
  {
    hide FirstSeen;
    var g, p := LandPost(f, k), f.posts[k];
    assert PostInv(f, p);
    IndicesOfDeliveries(p);
    assert Indices(g.stream) == Indices(f.stream) + From(p.lo, |p.body|);
    AppendBatch(Indices(f.stream), Frontier(f), p.lo, |p.body|);
    forall j | 0 <= j < |g.posts| ensures PostInv(g, g.posts[j]) { assert PostInv(f, f.posts[j]); }
  }

  lemma IssuedStream(f: Feed, i: nat, w: Worker, now: int, e: Event)
    requires StreamInv(f) && BatchInv(f, w) && Next(w.config, w.local, now, e).Some?
    requires w.local.phase.HasBatch() ==> IsSegment(f.log, w.local.phase.batch)
    requires e.AckIssued? && w.local.phase.HasBatch() ==> Whole(w.config, |w.local.phase.batch|)
    ensures StreamInv(Issue(f, i, w, e)) && Extends(f, Issue(f, i, w, e))
  {
    hide FirstSeen, Whole, Translate;
    var g := Issue(f, i, w, e);
    assert Frontier(g) == Frontier(f);
    forall j | 0 <= j < |g.posts| ensures PostInv(g, g.posts[j]) {
      if j < |f.posts| { assert PostInv(f, f.posts[j]); }
    }
  }

  lemma PublishedStream(f: Feed, msg: Message)
    requires StreamInv(f)
    ensures var g := f.(log := f.log + [msg]); StreamInv(g) && Extends(f, g)
  {
    hide FirstSeen;
    var g := f.(log := f.log + [msg]);
    assert Frontier(g) == Frontier(f);
    forall j | 0 <= j < |g.posts| ensures PostInv(g, g.posts[j]) { assert PostInv(f, f.posts[j]); }
  }

  lemma AckedStream(f: Feed, k: nat)
    requires StreamInv(f) && k < |f.acks|
    ensures StreamInv(LandAck(f, k)) && Extends(f, LandAck(f, k))
  {
    hide FirstSeen;
    var g := LandAck(f, k);
    assert Frontier(g) == Frontier(f);
    forall j | 0 <= j < |g.posts| ensures PostInv(g, g.posts[j]) { assert PostInv(f, f.posts[j]); }
  }

  lemma StepKeepsStream(s: System, st: Step, name: string)
    requires DeliveryInv(s, name) && ContentInv(s, name) && WholeStep(s, st, name) && Apply(s, st).Some?
    ensures StreamInv(Apply(s, st).value.FeedOf(name)) && Extends(s.FeedOf(name), Apply(s, st).value.FeedOf(name))
  {
    hide Apply, StreamInv, Extends, FeedContent, IsSegment, BatchInv, Issue, LandPost, LandAck;
    StepFeed(s, st, name);
    var f := s.FeedOf(name);
    ExtendsItself(f);
    match st {
      case Publish(topic, msg) => PublishedStream(f, msg);
      case WorkerStep(i, e) =>
        if i < |s.workers| && s.workers[i].Name() == name {
          OwnStep(s, i, e);
          IssuedStream(f, i, s.workers[i], s.now, e);
        }
      case PostLands(_, k) => if k < |f.posts| { LandedStream(f, k); }
      case AckLands(_, k) => if k < |f.acks| { AckedStream(f, k); }
      case _ =>
    }
  }

  lemma ExtendsItself(f: Feed)
    ensures Extends(f, f)
  {
  }

  /** The step of a worker itself. */
  lemma OwnDelivery(f: Feed, i: nat, w: Worker, now: int, e: Event)
    requires StreamInv(f) && BatchInv(f, w) && Allowed(f, w, e) && Next(w.config, w.local, now, e).Some?
    requires w.local.phase.HasBatch() ==> IsSegment(f.log, w.local.phase.batch)
    ensures BatchInv(Issue(f, i, w, e), Worker(w.config, Next(w.config, w.local, now, e).value, Track(f, w, e)))
  {
    hide FirstSeen, Translate, Gapless;
    var l := Next(w.config, w.local, now, e).value;
    var g := Issue(f, i, w, e);
    assert Frontier(g) == Frontier(f);
    if l.phase.HasBatch() {
      OwnBatch(w.config, w.local, now, e);
      OwnSegment(f, w, now, e);
      if e.PostIssued? { BodyIsWhole(w.config, w.local.phase.batch); }
      if e.PostAnswered? { assert PostInv(f, f.posts[w.calls.post]); }
    }
  }

  lemma StepKeepsDelivery(s: System, st: Step, name: string)
    requires DeliveryInv(s, name) && ContentInv(s, name) && WholeStep(s, st, name) && Apply(s, st).Some?
    ensures DeliveryInv(Apply(s, st).value, name)
  {
    hide Apply, StreamInv, Extends, FeedContent, IsSegment, BatchInv;
    var t := Apply(s, st).value;
    var f, g := s.FeedOf(name), t.FeedOf(name);
    StepKeepsStream(s, st, name);
    forall i | 0 <= i < |t.workers| && t.workers[i].Name() == name ensures BatchInv(g, t.workers[i]) {
      if t.workers[i].local.phase.HasBatch() {
        StepPhase(s, st, i);
        if st.WorkerStep? && st.i == i {
          OwnStep(s, i, st.event);
          OwnDelivery(f, i, s.workers[i], s.now, st.event);
        } else {
          BatchStable(f, g, s.workers[i]);
          SameBatch(g, s.workers[i], t.workers[i]);
        }
      } else {
        NoBatch(g, t.workers[i]);
      }
    }
  }

  lemma SameBatch(f: Feed, w: Worker, v: Worker)
    requires BatchInv(f, w) && v.local.phase == w.local.phase && v.calls == w.calls && v.config == w.config
    ensures BatchInv(f, v)
  {
  }

  lemma NoBatch(f: Feed, w: Worker)
    requires !w.local.phase.HasBatch()
    ensures BatchInv(f, w)
  {
  }

  lemma {:induction false} RunKeepsDelivery(s: System, steps: seq<Step>, name: string)
    requires DeliveryInv(s, name) && ContentInv(s, name) && WholeRun(s, steps, name) && RunSteps(s, steps).Some?
    ensures DeliveryInv(RunSteps(s, steps).value, name)
    decreases |steps|
  {
    if steps == [] {
    } else {
      StepKeepsContent(s, steps[0], name);
      StepKeepsDelivery(s, steps[0], name);
      RunKeepsDelivery(Apply(s, steps[0]).value, steps[1..], name);
    }
  }

  /** Message k of the log is in the stream. */
  predicate Reached(stream: seq<Delivery>, k: nat)
  {
    exists j :: 0 <= j < |stream| && stream[j].index == k
  }

  lemma ReachedIsIndex(stream: seq<Delivery>, k: nat)
    ensures Reached(stream, k) <==> k in Indices(stream)
  {
    if k in Indices(stream) {
      var j :| 0 <= j < |stream| && Indices(stream)[j] == k;
      assert stream[j].index == k;
    }
    if Reached(stream, k) {
      var j :| 0 <= j < |stream| && stream[j].index == k;
      assert Indices(stream)[j] == k;
    }
  }

  /**
   At least once, without gaps and in order, for any number of workers on the subscription and every
   interleaving and outcome: when the batches acknowledged for it were transmitted whole, every message below
   the committed offset has been delivered, and deleting repetitions from the endpoint's stream leaves exactly
   a prefix of the log, in order. Batches that were cut short but never acknowledged do no harm.
   */
  lemma AtLeastOnce(host: string, now: int, skip: bool, steps: seq<Step>, name: string)
    requires RunSteps(Init(host, now, skip), steps).Some?
    requires WholeRun(Init(host, now, skip), steps, name)
    ensures var f := RunSteps(Init(host, now, skip), steps).value.FeedOf(name);
            && FirstSeen(Indices(f.stream)) == From(0, Frontier(f))
            && f.committed <= Frontier(f) <= |f.log|
            && (forall k :: 0 <= k < f.committed ==> Reached(f.stream, k))
  {
    RunKeepsDelivery(Init(host, now, skip), steps, name);
    var f := RunSteps(Init(host, now, skip), steps).value.FeedOf(name);
    forall k | 0 <= k < f.committed ensures Reached(f.stream, k) {
      FromMembers(0, Frontier(f), k);
      FirstSeenMembers(Indices(f.stream), k);
      ReachedIsIndex(f.stream, k);
    }
  }

  // ----------------------------------------------------------------- settings that make every run whole

  lemma {:induction false} RunGrows(s: System, steps: seq<Step>, name: string)
    requires RunSteps(s, steps).Some?
    ensures Grows(s, RunSteps(s, steps).value, name)
    decreases |steps|
  {
    if steps == [] {
    } else {
      StepGrows(s, steps[0], name);
      RunGrows(Apply(s, steps[0]).value, steps[1..], name);
    }
  }

  /** A broker that honours the maximum answers with no more messages than it was asked for. */
  predicate Honours(c: Config, n: nat)
  {
    c.Max() >= 1 ==> n <= c.Max() as int
  }

  predicate HonouredStep(s: System, st: Step, name: string)
  {
    st.WorkerStep? && st.i < |s.workers| && s.workers[st.i].Name() == name
    && st.event.Pulled? && st.event.reply.Received?
    ==> Honours(s.workers[st.i].config, |st.event.reply.list.recMsgs|)
  }

  predicate HonouredRun(s: System, steps: seq<Step>, name: string)
    decreases |steps|
  {
    steps == [] ||
    (&& HonouredStep(s, steps[0], name)
     && (Apply(s, steps[0]).Some? ==> HonouredRun(Apply(s, steps[0]).value, steps[1..], name)))
  }

  /** Settings with which no batch can be cut short, with a broker that honours the maximum or with any. */
  predicate Safe(c: Config, honest: bool)
  {
    if c.sender.HttpSender? then honest || c.Max() != 1 else honest && c.Max() == 1
  }

  /** The batches in the workers' hands are as long as a broker that honours the maximum sends them. */
  predicate BatchesHonoured(s: System, name: string)
  {
    forall i :: 0 <= i < |s.workers| && s.workers[i].Name() == name && s.workers[i].local.phase.HasBatch() ==>
      Honours(s.workers[i].config, |s.workers[i].local.phase.batch|) && s.workers[i].local.phase.batch != []
  }

  lemma StepHonours(s: System, st: Step, name: string)
    requires BatchesHonoured(s, name) && HonouredStep(s, st, name) && Apply(s, st).Some?
    ensures BatchesHonoured(Apply(s, st).value, name)
  {
    hide Apply, Honours;
    var t := Apply(s, st).value;
    forall i | 0 <= i < |t.workers| && t.workers[i].Name() == name && t.workers[i].local.phase.HasBatch()
      ensures Honours(t.workers[i].config, |t.workers[i].local.phase.batch|) && t.workers[i].local.phase.batch != []
    {
      StepPhase(s, st, i);
      if st.WorkerStep? && st.i == i {
        OwnStep(s, i, st.event);
        OwnBatch(s.workers[i].config, s.workers[i].local, s.now, st.event);
      }
    }
  }

  /** When every worker that ever served the subscription has safe settings, every run is whole. */
  lemma {:induction false} SafeRunsAreWhole(s: System, steps: seq<Step>, name: string, honest: bool)
    requires RunSteps(s, steps).Some?
    requires honest ==> HonouredRun(s, steps, name) && BatchesHonoured(s, name)
    requires var t := RunSteps(s, steps).value;
             forall i :: 0 <= i < |t.workers| && t.workers[i].Name() == name ==> Safe(t.workers[i].config, honest)
    ensures WholeRun(s, steps, name)
    decreases |steps|
  {
    RunGrows(s, steps, name);
    if steps == [] {
    } else {
      hide Apply;
      if honest { StepHonours(s, steps[0], name); }
      SafeRunsAreWhole(Apply(s, steps[0]).value, steps[1..], name, honest);
    }
  }

  /** Workers keep their settings, so a run can be judged by those at its end. */
  lemma {:induction false} HonouredAtTheEnd(s: System, steps: seq<Step>, name: string)
    requires RunSteps(s, steps).Some?
    requires forall st :: st in steps ==> HonouredStep(RunSteps(s, steps).value, st, name)
    ensures HonouredRun(s, steps, name)
    decreases |steps|
  {
    RunGrows(s, steps, name);
    if steps == [] {
    } else {
      assert HonouredStep(RunSteps(s, steps).value, steps[0], name);
      HonouredAtTheEnd(Apply(s, steps[0]).value, steps[1..], name);
    }
  }
}
