/**
 How often a message can be delivered again: for a subscription only one worker ever served, in any run
 and even with requests that take effect after they were given up.
 */
module Duplicates {
  import opened GoTypes
  import opened Ams
  import opened Wire
  import opened Protocol
  import opened Pipeline
  import opened Delivery
  import Pacing
  import Service

  // ----------------------------------------------------------------- counting

  /** Messages in all the requests ever made. */
  function Posted(posts: seq<Post>): nat
  {
    if posts == [] then 0 else Posted(posts[..|posts| - 1]) + |posts[|posts| - 1].body|
  }

  /** Messages in the requests that took effect. */
  function Landed(posts: seq<Post>): nat
  {
    if posts == [] then 0
    else Landed(posts[..|posts| - 1]) + if posts[|posts| - 1].landed then |posts[|posts| - 1].body| else 0
  }

  lemma {:induction false} LandedAtMostPosted(posts: seq<Post>)
    ensures Landed(posts) <= Posted(posts)
  {
    if posts == [] {
    } else {
      LandedAtMostPosted(posts[..|posts| - 1]);
    }
  }

  lemma {:induction false} LandOne(posts: seq<Post>, k: nat)
    requires k < |posts| && !posts[k].landed
    ensures var after := posts[k := posts[k].(landed := true)];
            Posted(after) == Posted(posts) && Landed(after) == Landed(posts) + |posts[k].body|
  {
    var after, n := posts[k := posts[k].(landed := true)], |posts| - 1;
    if k < n {
      LandOne(posts[..n], k);
      assert after[..n] == posts[..n][k := posts[k].(landed := true)];
    } else {
      assert after[..n] == posts[..n];
    }
  }

  lemma PostOne(posts: seq<Post>, p: Post)
    requires !p.landed
    ensures Posted(posts + [p]) == Posted(posts) + |p.body| && Landed(posts + [p]) == Landed(posts)
  {
    assert (posts + [p])[..|posts|] == posts;
  }

  /** Messages of the successful cycles, and of those that failed after they had called the sender. */
  function Won(vs: seq<Verdict>): nat
  {
    if vs == [] then 0
    else Won(vs[..|vs| - 1]) + match vs[|vs| - 1] case Succeeded(n) => n case _ => 0
  }

  function Lost(vs: seq<Verdict>): nat
  {
    if vs == [] then 0
    else Lost(vs[..|vs| - 1]) + match vs[|vs| - 1] case Failed(_, n) => n case _ => 0
  }

  predicate FailedAfterSend(v: Verdict) { v.Failed? && v.stage != ConsumeStage }

  function Failures(vs: seq<Verdict>): nat
  {
    if vs == [] then 0
    else Failures(vs[..|vs| - 1]) + if FailedAfterSend(vs[|vs| - 1]) then 1 else 0
  }

  /** No failed cycle had handed the sender more than m messages, and one that failed to consume none. */
  predicate Within(vs: seq<Verdict>, m: nat)
  {
    forall k :: 0 <= k < |vs| && vs[k].Failed? ==> vs[k].n <= if FailedAfterSend(vs[k]) then m else 0
  }

  lemma {:induction false} LostBound(vs: seq<Verdict>, m: nat)
    requires Within(vs, m)
    ensures Lost(vs) <= Failures(vs) * m
  {
    if vs == [] {
    } else {
      var init := vs[..|vs| - 1];
      assert forall k :: 0 <= k < |init| ==> init[k] == vs[k];
      LostBound(init, m);
      assert (Failures(init) + 1) * m == Failures(init) * m + m;
    }
  }

  lemma OneMore(vs: seq<Verdict>, v: Verdict)
    ensures Won(vs + [v]) == Won(vs) + (match v case Succeeded(n) => n case _ => 0)
    ensures Lost(vs + [v]) == Lost(vs) + (match v case Failed(_, n) => n case _ => 0)
  {
    assert (vs + [v])[..|vs|] == vs;
  }

  /** Messages the running cycle has already handed to the sender. */
  function Current(l: Local): nat
  {
    if l.phase.Posting? || l.phase.Delivered? || l.phase.Acking? then |l.phase.batch| else 0
  }

  // ----------------------------------------------------------------- the invariant

  /** Worker i is the only one that was ever started for this name. */
  ghost predicate Sole(s: System, name: string, i: nat)
  {
    && i < |s.workers| && s.workers[i].Name() == name
    && forall j :: 0 <= j < |s.workers| && s.workers[j].Name() == name ==> j == i
  }

  predicate AcksInv(f: Feed)
  {
    forall k :: 0 <= k < |f.acks| && f.acks[k].landed ==> f.acks[k].id < f.committed
  }

  predicate AccountInv(f: Feed, w: Worker, m: nat)
  {
    var l := w.local;
    && Posted(f.posts) <= Won(l.verdicts) + Lost(l.verdicts) + Current(l)
    && Won(l.verdicts) <= f.committed
    && Within(l.verdicts, m)
    && (l.phase.Consuming? ==> Won(l.verdicts) <= w.calls.asked)
    && (l.phase.HasBatch() ==> l.phase.batch != [] && |l.phase.batch| <= m
                               && Won(l.verdicts) <= l.phase.batch[0].ackId)
    && (l.phase.Acking? ==>
          w.calls.ack < |f.acks| && f.acks[w.calls.ack].id == l.phase.batch[0].ackId + |l.phase.batch| - 1)
  }

  ghost predicate DuplicateInv(s: System, name: string, m: nat)
  {
    var f := s.FeedOf(name);
    && |f.stream| == Landed(f.posts) && AcksInv(f)
    && forall i: nat :: Sole(s, name, i) ==> AccountInv(f, s.workers[i], m)
  }

  /** A pull for this subscription returned at most m messages. */
  predicate BoundedStep(s: System, st: Step, name: string, m: nat)
  {
    st.WorkerStep? && st.i < |s.workers| && s.workers[st.i].Name() == name
    && st.event.Pulled? && st.event.reply.Received?
    ==> |st.event.reply.list.recMsgs| <= m
  }

  predicate BoundedRun(s: System, steps: seq<Step>, name: string, m: nat)
    decreases |steps|
  {
    steps == [] ||
    (&& BoundedStep(s, steps[0], name, m)
     && (Apply(s, steps[0]).Some? ==> BoundedRun(Apply(s, steps[0]).value, steps[1..], name, m)))
  }

  lemma LandsOnce(s: System, name: string, k: nat)
    requires Apply(s, PostLands(name, k)).Some?
    ensures k < |s.FeedOf(name).posts| && !s.FeedOf(name).posts[k].landed
  {
  }

  /** The feed's own part of a step. */
  lemma StepCounts(s: System, st: Step, name: string)
    requires Apply(s, st).Some?
    requires |s.FeedOf(name).stream| == Landed(s.FeedOf(name).posts) && AcksInv(s.FeedOf(name))
    ensures var g := Apply(s, st).value.FeedOf(name);
            && |g.stream| == Landed(g.posts) && AcksInv(g) && s.FeedOf(name).committed <= g.committed
    ensures !st.WorkerStep? ==>
              var f, g := s.FeedOf(name), Apply(s, st).value.FeedOf(name);
              && Posted(g.posts) == Posted(f.posts) && |g.acks| == |f.acks|
              && forall k :: 0 <= k < |f.acks| ==> g.acks[k].id == f.acks[k].id
  {
    hide Apply;
    StepFeed(s, st, name);
    var f := s.FeedOf(name);
    if st.PostLands? && st.feed == name {
      LandsOnce(s, name, st.k);
      LandOne(f.posts, st.k);
    } else if st.WorkerStep? && st.i < |s.workers| && s.workers[st.i].Name() == name && st.event.PostIssued? {
      OwnStep(s, st.i, st.event);
      PostOne(f.posts, Post(st.i, s.workers[st.i].local.phase.batch[0].ackId, st.event.body, false));
    }
  }

  /** The verdict v closes the account of the running cycle. */
  predicate Settles(f: Feed, w: Worker, v: Verdict)
  {
    match v
    case Succeeded(n) =>
      && w.local.phase.Acking? && n == |w.local.phase.batch|
      && w.calls.ack < |f.acks| && f.acks[w.calls.ack].landed
    case Failed(stage, n) =>
      if stage == ConsumeStage then n == 0 && !w.local.phase.HasBatch()
      else w.local.phase.HasBatch() && !w.local.phase.Holding? && n == |w.local.phase.batch|
    case _ => !w.local.phase.HasBatch()
  }

  lemma FinishCounts(f: Feed, w: Worker, v: Verdict, m: nat)
    requires AccountInv(f, w, m) && AcksInv(f) && Settles(f, w, v)
    ensures AccountInv(f, w.(local := Finish(w.local, v)), m)
  {
    var vs := w.local.verdicts;
    OneMore(vs, v);
    assert forall k :: 0 <= k < |vs| ==> (vs + [v])[k] == vs[k];
  }

  lemma OwnEnd(f: Feed, w: Worker, now: int, e: Event)
    requires Next(w.config, w.local, now, e).Some? && Allowed(f, w, e) && Pacing.Ends(w.config, w.local, e).Some?
    ensures var v := Pacing.Ends(w.config, w.local, e).value;
            Next(w.config, w.local, now, e) == Some(Finish(w.local, v)) && (e.ErrorHanded? || Settles(f, w, v))
  {
  }

  /** A step of the worker that ends no cycle. */
  lemma PlainCounts(f: Feed, i: nat, w: Worker, now: int, e: Event, m: nat)
    requires AccountInv(f, w, m) && Allowed(f, w, e) && Next(w.config, w.local, now, e).Some?
    requires w.local.phase.HasBatch() ==> IsSegment(f.log, w.local.phase.batch)
    requires e.Pulled? && e.reply.Received? ==> |e.reply.list.recMsgs| <= m
    requires Pacing.Ends(w.config, w.local, e).None? && !e.PostIssued?
    ensures AccountInv(Issue(f, i, w, e), Worker(w.config, Next(w.config, w.local, now, e).value, Track(f, w, e)), m)
  {
    hide Body, Within, Won, Lost, Posted;
    if Next(w.config, w.local, now, e).value.phase.HasBatch() { OwnSegment(f, w, now, e); }
  }

  lemma PostCounts(f: Feed, i: nat, w: Worker, now: int, e: Event, m: nat)
    requires AccountInv(f, w, m) && Next(w.config, w.local, now, e).Some? && e.PostIssued?
    ensures AccountInv(Issue(f, i, w, e), Worker(w.config, Next(w.config, w.local, now, e).value, Track(f, w, e)), m)
  {
    hide TranslateAll, Within, Won, Lost, Posted;
    PostOne(f.posts, Post(i, w.local.phase.batch[0].ackId, e.body, false));
    assert |e.body| <= |w.local.phase.batch|;
  }

  lemma IssueCounts(f: Feed, i: nat, w: Worker, now: int, e: Event, m: nat)
    requires AccountInv(f, w, m) && AcksInv(f) && Allowed(f, w, e) && Next(w.config, w.local, now, e).Some?
    requires w.local.phase.HasBatch() ==> IsSegment(f.log, w.local.phase.batch)
    requires e.Pulled? && e.reply.Received? ==> |e.reply.list.recMsgs| <= m
    ensures AccountInv(Issue(f, i, w, e), Worker(w.config, Next(w.config, w.local, now, e).value, Track(f, w, e)), m)
  {
    if Pacing.Ends(w.config, w.local, e).Some? {
      hide AccountInv, Settles;
      OwnEnd(f, w, now, e);
      FinishCounts(f, w, Pacing.Ends(w.config, w.local, e).value, m);
    } else if e.PostIssued? {
      PostCounts(f, i, w, now, e, m);
    } else {
      PlainCounts(f, i, w, now, e, m);
    }
  }

  /** A step another party took, and a worker of the same account. */
  lemma AccountStable(f: Feed, g: Feed, w: Worker, v: Worker, m: nat)
    requires AccountInv(f, w, m)
    requires Posted(g.posts) == Posted(f.posts) && f.committed <= g.committed && |g.acks| == |f.acks|
    requires forall k :: 0 <= k < |f.acks| ==> g.acks[k].id == f.acks[k].id
    requires v.local.phase == w.local.phase && v.local.verdicts == w.local.verdicts && v.calls == w.calls
    ensures AccountInv(g, v, m)
  {
  }

  lemma Undisturbed(s: System, st: Step, i: nat)
    requires Apply(s, st).Some? && i < |s.workers|
    requires !(st.WorkerStep? && st.i == i) && !(st.HandlerReceives? && st.i == i)
    ensures var v := Apply(s, st).value.workers;
            && i < |v| && v[i].config == s.workers[i].config
            && v[i].local.phase == s.workers[i].local.phase
            && v[i].local.verdicts == s.workers[i].local.verdicts && v[i].calls == s.workers[i].calls
  {
    hide Next, Allowed, Service.Judge, Configure, Issue, LandPost, LandAck;
  }

  lemma Received(s: System, i: nat)
    requires Apply(s, HandlerReceives(i)).Some?
    ensures i < |s.workers|
    ensures Apply(s, HandlerReceives(i)).value.workers[i]
         == s.workers[i].(local := Finish(s.workers[i].local, Cancelable))
    ensures !s.workers[i].local.phase.HasBatch()
    ensures Apply(s, HandlerReceives(i)).value.feeds == s.feeds
  {
  }

  lemma NobodyPosted(s: System, name: string)
    requires ContentInv(s, name)
    requires forall j :: 0 <= j < |s.workers| ==> s.workers[j].Name() != name
    ensures s.FeedOf(name).posts == []
  {
    var f := s.FeedOf(name);
    assert |f.posts| == 0 || PostContent(s, name, f.log, f.posts[0]);
  }

  /** A worker that was just started begins with an empty account. */
  lemma FirstOfItsName(s: System, st: Step, name: string, i: nat, m: nat)
    requires ContentInv(s, name) && Apply(s, st).Some?
    requires |s.workers| <= i && Sole(Apply(s, st).value, name, i)
    ensures AccountInv(Apply(s, st).value.FeedOf(name), Apply(s, st).value.workers[i], m)
  {
    hide Apply;
    var t := Apply(s, st).value;
    StepGrows(s, st, name);
    forall j | 0 <= j < |s.workers| ensures s.workers[j].Name() != name {
      assert t.workers[j].config == s.workers[j].config;
    }
    NobodyPosted(s, name);
    StepFeed(s, st, name);
    Born(s, st, i);
  }

  lemma Born(s: System, st: Step, i: nat)
    requires Apply(s, st).Some? && |s.workers| <= i < |Apply(s, st).value.workers|
    ensures var l := Apply(s, st).value.workers[i].local; l.phase.Selecting? && l.verdicts == []
    ensures st.AnswerSubscription? || st.Rpc?
  {
    hide Next, Allowed, Service.Judge, Configure, Issue, LandPost, LandAck;
  }

  lemma OldSole(s: System, st: Step, name: string, i: nat)
    requires Apply(s, st).Some? && i < |s.workers| && Sole(Apply(s, st).value, name, i)
    ensures Sole(s, name, i)
  {
    StepGrows(s, st, name);
  }

  lemma StepKeepsAccount(s: System, st: Step, name: string, i: nat, m: nat)
    requires DuplicateInv(s, name, m) && ContentInv(s, name) && BoundedStep(s, st, name, m)
    requires Apply(s, st).Some? && Sole(s, name, i)
    ensures AccountInv(Apply(s, st).value.FeedOf(name), Apply(s, st).value.workers[i], m)
  {
    hide Apply, AccountInv, FeedContent;
    var t := Apply(s, st).value;
    var f, w := s.FeedOf(name), s.workers[i];
    StepCounts(s, st, name);
    if st.WorkerStep? && st.i == i {
      OwnStep(s, i, st.event);
      IssueCounts(f, i, w, s.now, st.event, m);
    } else if st.HandlerReceives? && st.i == i {
      Received(s, i);
      FinishCounts(f, w, Cancelable, m);
    } else {
      Undisturbed(s, st, i);
      StepFeed(s, st, name);
      AccountStable(f, t.FeedOf(name), w, t.workers[i], m);
    }
  }

  lemma StepKeepsDuplicates(s: System, st: Step, name: string, m: nat)
    requires DuplicateInv(s, name, m) && ContentInv(s, name) && BoundedStep(s, st, name, m)
    requires Apply(s, st).Some?
    ensures DuplicateInv(Apply(s, st).value, name, m)
  {
    hide Apply, AccountInv;
    var t := Apply(s, st).value;
    StepCounts(s, st, name);
    forall i: nat | Sole(t, name, i) ensures AccountInv(t.FeedOf(name), t.workers[i], m) {
      if i < |s.workers| {
        OldSole(s, st, name, i);
        StepKeepsAccount(s, st, name, i, m);
      } else {
        FirstOfItsName(s, st, name, i, m);
      }
    }
  }

  lemma {:induction false} RunKeepsDuplicates(s: System, steps: seq<Step>, name: string, m: nat)
    requires DuplicateInv(s, name, m) && ContentInv(s, name) && BoundedRun(s, steps, name, m)
    requires RunSteps(s, steps).Some?
    ensures DuplicateInv(RunSteps(s, steps).value, name, m)
    decreases |steps|
  {
    if steps == [] {
    } else {
      StepKeepsContent(s, steps[0], name);
      StepKeepsDuplicates(s, steps[0], name, m);
      RunKeepsDuplicates(Apply(s, steps[0]).value, steps[1..], name, m);
    }
  }

  /**
   The duplicate bound: if one worker served the subscription and its pulls returned at most m messages,
   the endpoint has received at most what is committed, m messages for every cycle that failed after it
   had called the sender, and the batch of the cycle under way.
   */
  lemma DuplicateBound(host: string, now: int, skip: bool, steps: seq<Step>, name: string, m: nat, i: nat)
    requires RunSteps(Init(host, now, skip), steps).Some?
    requires BoundedRun(Init(host, now, skip), steps, name, m)
    requires Sole(RunSteps(Init(host, now, skip), steps).value, name, i)
    ensures var t := RunSteps(Init(host, now, skip), steps).value;
            var f, l := t.FeedOf(name), t.workers[i].local;
            |f.stream| <= f.committed + Failures(l.verdicts) * m + Current(l)
  {
    RunKeepsDuplicates(Init(host, now, skip), steps, name, m);
    var t := RunSteps(Init(host, now, skip), steps).value;
    LandedAtMostPosted(t.FeedOf(name).posts);
    LostBound(t.workers[i].local.verdicts, m);
  }

  lemma {:induction false} FirstSeenLength(xs: seq<nat>)
    ensures |FirstSeen(xs)| <= |xs|
    ensures |FirstSeen(xs)| == |xs| ==> FirstSeen(xs) == xs
  {
    if xs == [] {
    } else {
      FirstSeenLength(xs[..|xs| - 1]);
    }
  }

  /**
   Exactly once: if moreover the batches are transmitted whole and no cycle failed after calling the
   sender, then between cycles the endpoint's stream is the committed prefix of the log, nothing twice.
   */
  lemma ExactlyOnce(host: string, now: int, skip: bool, steps: seq<Step>, name: string, m: nat, i: nat)
    requires RunSteps(Init(host, now, skip), steps).Some?
    requires BoundedRun(Init(host, now, skip), steps, name, m)
    requires WholeRun(Init(host, now, skip), steps, name)
    requires Sole(RunSteps(Init(host, now, skip), steps).value, name, i)
    requires var l := RunSteps(Init(host, now, skip), steps).value.workers[i].local;
             Failures(l.verdicts) == 0 && Current(l) == 0
    ensures var f := RunSteps(Init(host, now, skip), steps).value.FeedOf(name);
            Indices(f.stream) == From(0, f.committed)
  {
    DuplicateBound(host, now, skip, steps, name, m, i);
    AtLeastOnce(host, now, skip, steps, name);
    FirstSeenLength(Indices(RunSteps(Init(host, now, skip), steps).value.FeedOf(name).stream));
  }
}
