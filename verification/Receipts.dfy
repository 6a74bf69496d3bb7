/**
 What a worker holds when its cycle succeeds, in any run: its own request arrived, and carried the whole batch
 exactly for some senders and settings.
 */
module Receipts {
  import opened GoTypes
  import opened Ams
  import opened Wire
  import opened Protocol
  import opened Pipeline
  import opened Streams = Delivery
  import Registry
  import Service

  // ----------------------------------------------------------------- acknowledgements in every run

  /** Only what exists is acknowledged, and an acknowledgement that took effect is counted. */
  predicate AckBound(f: Feed)
  {
    && f.committed <= |f.log|
    && forall k :: 0 <= k < |f.acks| ==> f.acks[k].id < |f.log| && (f.acks[k].landed ==> f.acks[k].id < f.committed)
  }

  lemma IssueKeepsBound(f: Feed, i: nat, w: Worker, now: int, e: Event)
    requires AckBound(f) && Next(w.config, w.local, now, e).Some?
    requires w.local.phase.HasBatch() ==> IsSegment(f.log, w.local.phase.batch)
    ensures AckBound(Issue(f, i, w, e))
  {
    hide Body;
  }

  lemma StepKeepsBound(s: System, st: Step, name: string)
    requires AckBound(s.FeedOf(name)) && ContentInv(s, name) && Apply(s, st).Some?
    ensures AckBound(Apply(s, st).value.FeedOf(name))
  {
    hide Apply, FeedContent, Issue, IsSegment;
    StepFeed(s, st, name);
    if st.WorkerStep? && st.i < |s.workers| && s.workers[st.i].Name() == name {
      OwnStep(s, st.i, st.event);
      IssueKeepsBound(s.FeedOf(name), st.i, s.workers[st.i], s.now, st.event);
    }
  }

  lemma {:induction false} RunKeepsBound(s: System, steps: seq<Step>, name: string)
    requires AckBound(s.FeedOf(name)) && ContentInv(s, name) && RunSteps(s, steps).Some?
    ensures AckBound(RunSteps(s, steps).value.FeedOf(name)) && ContentInv(RunSteps(s, steps).value, name)
    decreases |steps|
  {
    hide ContentInv, AckBound;
    if steps == [] {
    } else {
      StepKeepsContent(s, steps[0], name);
      StepKeepsBound(s, steps[0], name);
      RunKeepsBound(Apply(s, steps[0]).value, steps[1..], name);
    }
  }

  lemma InitIsBound(host: string, now: int, skip: bool, name: string)
    ensures AckBound(Init(host, now, skip).FeedOf(name)) && ContentInv(Init(host, now, skip), name)
  {
  }

  // ----------------------------------------------------------------- where deliveries say they come from

  lemma {:induction false} RunKeepsHost(s: System, steps: seq<Step>)
    requires RunSteps(s, steps).Some?
    ensures RunSteps(s, steps).value.host == s.host
    decreases |steps|
  {
    hide Apply;
    if steps == [] {
    } else {
      Registry.StepRoster(s, steps[0]);
      SameHost(s, steps[0]);
      RunKeepsHost(Apply(s, steps[0]).value, steps[1..]);
    }
  }

  lemma SameHost(s: System, st: Step)
    ensures Registry.Roster(s, st).host == s.host
  {
    hide Service.Judge;
  }

  lemma ConsumerOfWorker(s: System, i: nat)
    requires Registry.RosterInv(s) && i < |s.workers|
    ensures s.workers[i].config.consumer.host == s.host
  {
    assert Registry.MemberInv(s, i);
  }

  /** In every run each delivery names its subscription and the broker's host. */
  lemma SourceOfEveryRun(host: string, now: int, skip: bool, steps: seq<Step>, name: string, d: Delivery)
    requires RunSteps(Init(host, now, skip), steps).Some?
    requires d in RunSteps(Init(host, now, skip), steps).value.FeedOf(name).stream
    ensures d.push.sub == "subscription " + name + " from " + host
  {
    hide RunSteps, Registry.RosterInv, Body;
    var s0 := Init(host, now, skip);
    var t := RunSteps(s0, steps).value;
    ContentOfEveryRun(host, now, skip, steps, name, d);
    assert Registry.RosterInv(s0) by { NothingFiled(host, now, skip); }
    Registry.RunKeepsRoster(s0, steps);
    RunKeepsHost(s0, steps);
    ConsumerOfWorker(t, d.worker);
    TranslationPreserves(t.workers[d.worker].config, t.FeedOf(name).log[d.index], []);
  }

  lemma NothingFiled(host: string, now: int, skip: bool)
    ensures Registry.RosterInv(Init(host, now, skip))
  {
  }

  // ----------------------------------------------------------------- requests in every run

  /** All messages of the request are in the stream, as its worker sent them. */
  predicate Arrived(stream: seq<Delivery>, p: Post)
  {
    forall k :: 0 <= k < |p.body| ==> Delivery(p.lo + k, p.worker, p.body[k]) in stream
  }

  predicate PostsArrived(f: Feed)
  {
    forall k :: 0 <= k < |f.posts| && f.posts[k].landed ==> Arrived(f.stream, f.posts[k])
  }

  /** Worker i's latest POST is the one of the cycle it is in. */
  predicate OwnPost(f: Feed, i: nat, w: Worker)
  {
    var p := w.local.phase;
    p.HasBatch() ==>
      && p.batch != []
      && (!p.Holding? ==>
            && w.calls.post < |f.posts|
            && Carrying(f.posts[w.calls.post], i, w.config, p.batch)
            && (!p.Posting? ==> f.posts[w.calls.post].landed))
      && (p.Acking? ==> w.calls.ack < |f.acks| && f.acks[w.calls.ack].id == p.batch[|p.batch| - 1].ackId)
  }

  predicate Carrying(p: Post, i: nat, c: Config, b: seq<ReceivedMessage>)
    requires b != []
  {
    p.worker == i && p.lo == b[0].ackId && p.body == Body(c, b)
  }

  ghost predicate ReceiptInv(s: System, name: string)
  {
    && PostsArrived(s.FeedOf(name))
    && forall i: nat :: i < |s.workers| && s.workers[i].Name() == name ==> OwnPost(s.FeedOf(name), i, s.workers[i])
  }

  /** Requests are kept as they were made, and what took effect stays. */
  predicate Keeps(f: Feed, g: Feed)
  {
    && |f.posts| <= |g.posts| && |f.acks| <= |g.acks|
    && (forall k :: 0 <= k < |f.posts| ==>
          && g.posts[k].(landed := f.posts[k].landed) == f.posts[k] && (f.posts[k].landed ==> g.posts[k].landed))
    && forall k :: 0 <= k < |f.acks| ==> g.acks[k].id == f.acks[k].id
  }

  lemma FeedKeeps(s: System, st: Step, name: string)
    ensures Keeps(s.FeedOf(name), FeedAfter(s, st, name))
  {
    hide Deliveries;
  }

  lemma LandedArrives(f: Feed, k: nat)
    requires PostsArrived(f) && k < |f.posts|
    ensures PostsArrived(LandPost(f, k))
  {
    var g, p := LandPost(f, k), f.posts[k];
    forall j | 0 <= j < |g.posts| && g.posts[j].landed ensures Arrived(g.stream, g.posts[j]) {
      if j == k {
        forall n | 0 <= n < |p.body| ensures Delivery(p.lo + n, p.worker, p.body[n]) in g.stream {
          assert g.stream[|f.stream| + n] == Delivery(p.lo + n, p.worker, p.body[n]);
        }
      } else {
        assert Arrived(f.stream, f.posts[j]);
      }
    }
  }

  lemma FeedArrives(s: System, st: Step, name: string)
    requires PostsArrived(s.FeedOf(name))
    ensures PostsArrived(FeedAfter(s, st, name))
  {
    hide Arrived;
    if st.PostLands? && st.feed == name && st.k < |s.FeedOf(name).posts| { LandedArrives(s.FeedOf(name), st.k); }
  }

  lemma OwnPostStep(f: Feed, i: nat, w: Worker, now: int, e: Event)
    requires OwnPost(f, i, w) && Allowed(f, w, e) && Next(w.config, w.local, now, e).Some?
    ensures OwnPost(Issue(f, i, w, e), i, Worker(w.config, Next(w.config, w.local, now, e).value, Track(f, w, e)))
  {
    hide Body;
    if Next(w.config, w.local, now, e).value.phase.HasBatch() { OwnBatch(w.config, w.local, now, e); }
  }

  lemma OwnPostStable(f: Feed, g: Feed, i: nat, w: Worker, v: Worker)
    requires OwnPost(f, i, w) && Keeps(f, g)
    requires v.local.phase == w.local.phase && v.calls == w.calls && v.config == w.config
    ensures OwnPost(g, i, v)
  {
    hide Body;
  }

  lemma NoBatchNoPost(f: Feed, i: nat, w: Worker)
    requires !w.local.phase.HasBatch()
    ensures OwnPost(f, i, w)
  {
  }

  lemma StepKeepsReceipts(s: System, st: Step, name: string)
    requires ReceiptInv(s, name) && Apply(s, st).Some?
    ensures ReceiptInv(Apply(s, st).value, name)
  {
    hide Apply, PostsArrived, OwnPost, Keeps, FeedAfter, Issue;
    var t := Apply(s, st).value;
    StepFeed(s, st, name);
    FeedKeeps(s, st, name);
    FeedArrives(s, st, name);
    forall i: nat | i < |t.workers| && t.workers[i].Name() == name ensures OwnPost(t.FeedOf(name), i, t.workers[i]) {
      if t.workers[i].local.phase.HasBatch() {
        StepPhase(s, st, i);
        if st.WorkerStep? && st.i == i {
          OwnStep(s, i, st.event);
          OwnPostStep(s.FeedOf(name), i, s.workers[i], s.now, st.event);
        } else {
          OwnPostStable(s.FeedOf(name), t.FeedOf(name), i, s.workers[i], t.workers[i]);
        }
      } else {
        NoBatchNoPost(t.FeedOf(name), i, t.workers[i]);
      }
    }
  }

  lemma {:induction false} RunKeepsReceipts(s: System, steps: seq<Step>, name: string)
    requires ReceiptInv(s, name) && RunSteps(s, steps).Some?
    ensures ReceiptInv(RunSteps(s, steps).value, name)
    decreases |steps|
  {
    hide ReceiptInv;
    if steps == [] {
    } else {
      StepKeepsReceipts(s, steps[0], name);
      RunKeepsReceipts(Apply(s, steps[0]).value, steps[1..], name);
    }
  }

  /** The request holds message k of the log. */
  predicate Covers(p: Post, k: int) { p.lo <= k < p.lo + |p.body| }

  /**
   What worker i has done when its acknowledgement is confirmed: it committed its batch, and its own request,
   which begins with the first message of the batch, has arrived.
   */
  predicate Confirmed(f: Feed, i: nat, w: Worker)
  {
    w.local.phase.Acking? && w.local.phase.batch != []
    && var lo, n := w.local.phase.batch[0].ackId, |w.local.phase.batch|;
       && w.calls.ack < |f.acks| && f.acks[w.calls.ack] == Ack(lo + n - 1, true) && lo + n <= f.committed
       && w.calls.post < |f.posts|
       && var p := f.posts[w.calls.post]; p.worker == i && p.landed && p.lo == lo && Arrived(f.stream, p)
  }

  /** Every message of the batch was in the worker's own request. */
  predicate AcksOnlyDelivered(f: Feed, i: nat, w: Worker)
    requires Confirmed(f, i, w)
  {
    var lo, n := w.local.phase.batch[0].ackId, |w.local.phase.batch|;
    forall k :: lo <= k < lo + n ==> Covers(f.posts[w.calls.post], k)
  }

  lemma Succeeds(s: System, name: string, i: nat)
    requires i < |s.workers| && s.workers[i].Name() == name
    requires ContentInv(s, name) && ReceiptInv(s, name) && AckBound(s.FeedOf(name))
    requires Next(s.workers[i].config, s.workers[i].local, s.now, AckAnswered(true)).Some?
    requires Allowed(s.FeedOf(name), s.workers[i], AckAnswered(true))
    ensures var w, f := s.workers[i], s.FeedOf(name);
            && Confirmed(f, i, w)
            && (AcksOnlyDelivered(f, i, w) <==> Whole(w.config, |w.local.phase.batch|))
  {
    hide FeedContent, Arrived, Body;
    var w, f := s.workers[i], s.FeedOf(name);
    var b := w.local.phase.batch;
    assert OwnPost(f, i, w) && IsSegment(f.log, b);
    BodyIsWhole(w.config, b);
    if !Whole(w.config, |b|) { assert !Covers(f.posts[w.calls.post], b[0].ackId + 1); }
  }

  lemma InitHasReceipts(host: string, now: int, skip: bool, name: string)
    ensures ReceiptInv(Init(host, now, skip), name)
  {
  }

  /**
   Any successful cycle of any run, whatever failed before it, landed late or ran beside it, acknowledges only
   what it delivered if and only if its batch has one message, or its sender is HTTP and its maximum is not 1.
   */
  lemma SuccessfulCycle(host: string, now: int, skip: bool, steps: seq<Step>, i: nat)
    requires RunSteps(Init(host, now, skip), steps).Some?
    requires Apply(RunSteps(Init(host, now, skip), steps).value, WorkerStep(i, AckAnswered(true))).Some?
    ensures var s := RunSteps(Init(host, now, skip), steps).value;
            && i < |s.workers|
            && var w, f := s.workers[i], s.FeedOf(s.workers[i].Name());
               && Confirmed(f, i, w)
               && (AcksOnlyDelivered(f, i, w) <==>
                   |w.local.phase.batch| == 1 || (w.config.sender.HttpSender? && w.config.Max() != 1))
  {
    hide RunSteps, ContentInv, ReceiptInv, AckBound;
    var s0 := Init(host, now, skip);
    var s := RunSteps(s0, steps).value;
    OwnStep(s, i, AckAnswered(true));
    var name := s.workers[i].Name();
    InitIsBound(host, now, skip, name);
    InitHasReceipts(host, now, skip, name);
    RunKeepsBound(s0, steps, name);
    RunKeepsReceipts(s0, steps, name);
    Succeeds(s, name, i);
  }
}
