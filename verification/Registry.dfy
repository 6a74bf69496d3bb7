/**
 The registry over whole runs: activations and removals of a name alternate, every worker is either the
 registered one of its name with a live context or was stopped exactly once, and nothing is served
 before the service is ready.
 */
module Registry {
  import opened GoTypes
  import opened Ams
  import opened Wire
  import opened Protocol
  import opened Pipeline
  import RetryPolicies
  import Service

  // ----------------------------------------------------------------- what a step does to the roster

  /** The part of a step that may start or stop a worker. */
  function Roster(s: System, st: Step): System
  {
    match st
    case AnswerSubscription(answer) => LoadNext(s, answer)
    case Rpc(call) => Serve(s, call)
    case HandlerStops => if s.handling.Some? then Deactivate(s, s.handling.value.resource) else s
    case _ => s
  }

  ghost predicate SameRoster(s: System, t: System)
  {
    && t.registry == s.registry && t.history == s.history && t.host == s.host && |t.workers| == |s.workers|
    && forall i :: 0 <= i < |s.workers| ==> SameWorker(s.workers[i], t.workers[i])
  }

  predicate SameWorker(w: Worker, v: Worker)
  {
    v.config == w.config && v.local.cancelled == w.local.cancelled
  }

  /** Of its own steps none stops a worker. */
  lemma OwnStepKeepsContext(f: Feed, w: Worker, now: int, e: Event)
    requires Next(w.config, w.local, now, e).Some? && (Allowed(f, w, e) || e.ErrorHanded?)
    ensures Next(w.config, w.local, now, e).value.cancelled == w.local.cancelled
  {
    hide Body, PullAllowed;
  }

  lemma StepRoster(s: System, st: Step)
    requires Apply(s, st).Some?
    ensures SameRoster(Roster(s, st), Apply(s, st).value)
  {
    hide Next, Allowed, Issue, Track, LandPost, LandAck, Activate, Deactivate;
    if st.WorkerStep? {
      var w := s.workers[st.i];
      OwnStepKeepsContext(s.FeedOf(w.Name()), w, s.now, st.event);
    } else if st.HandlerReceives? {
      var w := s.workers[st.i];
      BlockedHandsOver(w.config, w.local, s.now);
      OwnStepKeepsContext(EMPTY_FEED, w, s.now, ErrorHanded(w.local.phase.error));
    }
  }

  lemma BlockedHandsOver(c: Config, l: Local, now: int)
    requires l.phase.Blocked?
    ensures Next(c, l, now, ErrorHanded(l.phase.error)).Some?
  {
  }

  // ----------------------------------------------------------------- the invariant

  /** The events of one name, in order. */
  function Trail(h: seq<RegistryEvent>, name: string): seq<RegistryEvent>
  {
    if h == [] then []
    else Trail(h[..|h| - 1], name) + if h[|h| - 1].name == name then [h[|h| - 1]] else []
  }

  /** Started and Stopped take turns, Started first, and a stop concerns the worker started last. */
  predicate Alternates(t: seq<RegistryEvent>)
  {
    forall k :: 0 <= k < |t| ==>
      && (t[k].Started? <==> k % 2 == 0)
      && (k % 2 == 1 ==> t[k].id == t[k - 1].id)
  }

  ghost predicate NameInv(s: System, name: string)
  {
    var t := Trail(s.history, name);
    && Alternates(t)
    && (name in s.registry <==> |t| % 2 == 1)
    && (name in s.registry ==> t[|t| - 1] == Started(name, s.registry[name]))
  }

  ghost predicate MemberInv(s: System, i: nat)
    requires i < |s.workers|
  {
    var w := s.workers[i];
    var name := w.config.sub.fullName;
    && w.config == Configure(w.config.sub, s.host)
    && RetryPolicies.Initial(w.config.sub.pushConfig.retryPolicy).Some?
    && (s.IsLive(i) <==> !w.local.cancelled)
    && multiset(s.history)[Started(name, i)] == 1
    && multiset(s.history)[Stopped(name, i)] == (if w.local.cancelled then 1 else 0)
  }

  ghost predicate EntryInv(s: System, name: string)
    requires name in s.registry
  {
    s.registry[name] < |s.workers| && s.workers[s.registry[name]].config.sub.fullName == name
  }

  ghost predicate RosterInv(s: System)
  {
    && (forall name :: name in s.registry ==> EntryInv(s, name))
    && (forall name :: NameInv(s, name))
    && (forall i: nat :: i < |s.workers| ==> MemberInv(s, i))
    && (forall e :: e in s.history ==> e.id < |s.workers|)
  }

  lemma TrailSnoc(h: seq<RegistryEvent>, e: RegistryEvent, name: string)
    ensures Trail(h + [e], name) == Trail(h, name) + if e.name == name then [e] else []
  {
    assert (h + [e])[..|h|] == h;
  }

  lemma SameRosterKeeps(s: System, t: System)
    requires RosterInv(s) && SameRoster(s, t)
    ensures RosterInv(t)
  {
    forall name ensures NameInv(t, name) { assert NameInv(s, name); }
    forall i: nat | i < |t.workers| ensures MemberInv(t, i) { assert MemberInv(s, i); }
    forall name | name in t.registry ensures EntryInv(t, name) { assert EntryInv(s, name); }
  }

  lemma AlternatesSnoc(t: seq<RegistryEvent>, e: RegistryEvent)
    requires Alternates(t)
    requires e.Started? <==> |t| % 2 == 0
    requires e.Stopped? ==> e.id == t[|t| - 1].id
    ensures Alternates(t + [e])
  {
  }

  lemma StartKeepsName(s: System, t: System, name: string, e: RegistryEvent)
    requires NameInv(s, name) && t.history == s.history + [e] && e.Started? && e.name !in s.registry
    requires t.registry == s.registry[e.name := e.id]
    ensures NameInv(t, name)
  {
    TrailSnoc(s.history, e, name);
    if e.name == name { AlternatesSnoc(Trail(s.history, name), e); }
    hide Trail, Alternates;
  }

  lemma ActivateKeepsName(s: System, r: Service.ActivateRequest, name: string)
    requires NameInv(s, name)
    ensures NameInv(Activate(s, r), name)
  {
    hide NameInv, Configure, Fresh, Service.Judge;
    if Service.Judge(s.registry.Keys, r).Activated? {
      StartKeepsName(s, Activate(s, r), name, Started(r.sub.fullName, |s.workers|));
    }
  }

  lemma ActivateKeepsMember(s: System, r: Service.ActivateRequest, i: nat)
    requires RosterInv(s) && i < |Activate(s, r).workers|
    ensures MemberInv(Activate(s, r), i)
  {
    hide NameInv;
    if i < |s.workers| {
      assert MemberInv(s, i);
    } else {
      assert Started(r.sub.fullName, i) !in s.history && Stopped(r.sub.fullName, i) !in s.history;
      assert forall n :: n in s.registry ==> EntryInv(s, n);
    }
  }

  lemma ActivateKeeps(s: System, r: Service.ActivateRequest)
    requires RosterInv(s)
    ensures RosterInv(Activate(s, r))
  {
    var t := Activate(s, r);
    forall name ensures NameInv(t, name) { assert NameInv(s, name); ActivateKeepsName(s, r, name); }
    forall i: nat | i < |t.workers| ensures MemberInv(t, i) { ActivateKeepsMember(s, r, i); }
    forall name | name in t.registry ensures EntryInv(t, name) {
      if name in s.registry { assert EntryInv(s, name); }
    }
  }

  lemma DeactivateKeepsName(s: System, n: string, name: string)
    requires NameInv(s, name)
    requires n in s.registry ==> EntryInv(s, n)
    ensures NameInv(Deactivate(s, n), name)
  {
    if n in s.registry {
      var e := Stopped(n, s.registry[n]);
      TrailSnoc(s.history, e, name);
      if n == name { AlternatesSnoc(Trail(s.history, name), e); }
      hide Trail, Alternates;
    }
  }

  lemma DeactivateKeepsMember(s: System, n: string, i: nat)
    requires i < |s.workers| && MemberInv(s, i)
    requires n in s.registry ==> EntryInv(s, n)
    ensures MemberInv(Deactivate(s, n), i)
  {
  }

  lemma DeactivateKeeps(s: System, n: string)
    requires RosterInv(s)
    ensures RosterInv(Deactivate(s, n))
  {
    hide NameInv, MemberInv;
    var t := Deactivate(s, n);
    assert n in s.registry ==> EntryInv(s, n);
    forall name ensures NameInv(t, name) { assert NameInv(s, name); DeactivateKeepsName(s, n, name); }
    forall i: nat | i < |t.workers| ensures MemberInv(t, i) { DeactivateKeepsMember(s, n, i); }
    forall name | name in t.registry ensures EntryInv(t, name) { assert EntryInv(s, name); }
  }

  lemma StepKeepsRoster(s: System, st: Step)
    requires RosterInv(s) && Apply(s, st).Some?
    ensures RosterInv(Apply(s, st).value)
  {
    hide RosterInv;
    match st {
      case AnswerSubscription(answer) =>
        if answer.Some? { ActivateKeeps(s, Service.Complete(answer.value.ToSubscription())); }
      case Rpc(ActivateCall(r)) => ActivateKeeps(s, r);
      case Rpc(DeactivateCall(name)) => DeactivateKeeps(s, name);
      case HandlerStops => DeactivateKeeps(s, s.handling.value.resource);
      case _ =>
    }
    StepRoster(s, st);
    SameRosterKeeps(Roster(s, st), Apply(s, st).value);
  }

  lemma {:induction false} RunKeepsRoster(s: System, steps: seq<Step>)
    requires RosterInv(s) && RunSteps(s, steps).Some?
    ensures RosterInv(RunSteps(s, steps).value)
    decreases |steps|
  {
    if steps == [] {
    } else {
      StepKeepsRoster(s, steps[0]);
      RunKeepsRoster(Apply(s, steps[0]).value, steps[1..]);
    }
  }

  /**
   In every run, for every name, successful activations and removals strictly alternate starting with an
   activation, and the name is active exactly when there was one more activation than removals.
   */
  lemma RegistryHistory(host: string, now: int, skip: bool, steps: seq<Step>, name: string)
    requires RunSteps(Init(host, now, skip), steps).Some?
    ensures var t := RunSteps(Init(host, now, skip), steps).value;
            var trail := Trail(t.history, name);
            && Alternates(trail)
            && (name in t.registry <==> |trail| % 2 == 1)
            && (name in t.registry ==> trail[|trail| - 1] == Started(name, t.registry[name]))
  {
    RunKeepsRoster(Init(host, now, skip), steps);
    assert NameInv(RunSteps(Init(host, now, skip), steps).value, name);
  }

  /**
   No orphans: a worker that was ever started was started once; either it is the registered worker of its
   name and was never stopped, or it was stopped exactly once.
   */
  lemma NoOrphans(host: string, now: int, skip: bool, steps: seq<Step>, i: nat)
    requires RunSteps(Init(host, now, skip), steps).Some?
    requires i < |RunSteps(Init(host, now, skip), steps).value.workers|
    ensures var t := RunSteps(Init(host, now, skip), steps).value;
            var name := t.workers[i].config.sub.fullName;
            && multiset(t.history)[Started(name, i)] == 1
            && multiset(t.history)[Stopped(name, i)] == (if t.IsLive(i) then 0 else 1)
            && (t.IsLive(i) <==> !t.workers[i].local.cancelled)
  {
    RunKeepsRoster(Init(host, now, skip), steps);
    assert MemberInv(RunSteps(Init(host, now, skip), steps).value, i);
  }

  // ----------------------------------------------------------------- the registry as the service object keeps it

  /** The served subscriptions by name, as PushService.Active gives them. */
  ghost function Served(s: System): map<string, Subscription>
  {
    map n | n in s.registry && s.registry[n] < |s.workers| :: s.workers[s.registry[n]].config.sub
  }

  lemma SameServed(s: System, t: System)
    requires SameRoster(s, t)
    ensures Served(t) == Served(s)
  {
  }

  lemma ActivateServes(s: System, r: Service.ActivateRequest)
    requires RosterInv(s)
    ensures Served(Activate(s, r)) == Service.Activate(Served(s), r)
  {
    hide NameInv, MemberInv;
    forall n | n in s.registry ensures n in Served(s) { assert EntryInv(s, n); }
    assert Served(s).Keys == s.registry.Keys;
  }

  lemma DeactivateServes(s: System, name: string)
    requires RosterInv(s)
    ensures Served(Deactivate(s, name)) == Served(s) - {name}
  {
    hide NameInv, MemberInv;
    if name in s.registry { assert EntryInv(s, name); }
  }

  /** Seen as the set of served subscriptions, a step does what the service object's operations do. */
  lemma StepServes(s: System, st: Step)
    requires RosterInv(s) && Apply(s, st).Some?
    ensures Served(Apply(s, st).value)
         == match st
            case AnswerSubscription(answer) => Service.LoadOne(Served(s), answer)
            case Rpc(ActivateCall(r)) =>
              if s.status == Service.Ok then Service.Activate(Served(s), r) else Served(s)
            case Rpc(DeactivateCall(name)) =>
              if s.status == Service.Ok then Served(s) - {name} else Served(s)
            case HandlerStops =>
              if s.handling.Some? then Served(s) - {s.handling.value.resource} else Served(s)
            case _ => Served(s)
  {
    hide RosterInv, Apply, Served, Activate, Deactivate, Service.Activate;
    StepRoster(s, st);
    SameServed(Roster(s, st), Apply(s, st).value);
    match st {
      case AnswerSubscription(answer) =>
        if answer.Some? { ActivateServes(s, Service.Complete(answer.value.ToSubscription())); }
      case Rpc(ActivateCall(r)) => ActivateServes(s, r);
      case Rpc(DeactivateCall(name)) => DeactivateServes(s, name);
      case HandlerStops => if s.handling.Some? { DeactivateServes(s, s.handling.value.resource); }
      case _ =>
    }
  }

  // ----------------------------------------------------------------- the loader as the service object runs it

  function Answered(answers: seq<Option<Service.AmsSubscription>>): seq<Step>
  {
    seq(|answers|, k requires 0 <= k < |answers| => AnswerSubscription(answers[k]))
  }

  lemma RunSnocSteps(s: System, steps: seq<Step>, st: Step)
    requires RunSteps(s, steps).Some? && Apply(RunSteps(s, steps).value, st).Some?
    ensures RunSteps(s, steps + [st]) == Apply(RunSteps(s, steps).value, st)
  {
    RunStepsConcat(s, steps, [st]);
    var t := RunSteps(s, steps).value;
    assert [st] + [] == [st];
    RunStepsFirst(t, st, []);
  }

  /** Answered one name after the other, the loader serves what the loader specification says. */
  lemma {:induction false} AnswersAreLoaded(s: System, answers: seq<Option<Service.AmsSubscription>>)
    requires RosterInv(s) && s.loader.Loading? && |answers| <= |s.loader.names|
    ensures var t := RunSteps(s, Answered(answers));
            && t.Some? && RosterInv(t.value) && t.value.loader == Loading(s.loader.names[|answers|..])
            && Served(t.value) == Service.Load(Served(s), answers)
  {
    hide Served, RosterInv, RunSteps, LoadNext;
    if answers == [] {
      assert Answered(answers) == [] && s.loader.names[0..] == s.loader.names;
      RunNoSteps(s);
    } else {
      var init, last := answers[..|answers| - 1], answers[|answers| - 1];
      AnswersAreLoaded(s, init);
      var t := RunSteps(s, Answered(init)).value;
      LoaderStep(t, last);
      StepServes(t, AnswerSubscription(last));
      StepKeepsRoster(t, AnswerSubscription(last));
      RunSnocSteps(s, Answered(init), AnswerSubscription(last));
      assert Answered(answers) == Answered(init) + [AnswerSubscription(last)];
    }
  }

  lemma RunNoSteps(s: System)
    ensures RunSteps(s, []) == Some(s)
  {
  }

  lemma LoaderStep(s: System, answer: Option<Service.AmsSubscription>)
    requires s.loader.Loading? && s.loader.names != []
    ensures var t := Apply(s, AnswerSubscription(answer)); t.Some? && t.value.loader == Loading(s.loader.names[1..])
  {
    hide LoadNext;
  }

  /**
   Once the user was found, the start-up loader of the machine asks for the user's subscriptions and, answered
   one after the other, ends with what the loops of the service object end with.
   */
  lemma MachineLoads(s: System, user: Service.UserInfo, get: Service.Lookup)
    requires RosterInv(s) && s.loader.LookingUp?
    ensures var names := Service.FullNames(user.projects);
            var u := Apply(s, AnswerUser(Some(user)));
            && u.Some? && u.value.loader == Loading(names) && u.value.status == Service.Ok
            && var t := RunSteps(u.value, Answered(Service.AnswersFor(names, get)));
               && t.Some? && t.value.loader == Loading([])
               && Served(t.value) == Service.Load(Served(s), Service.AnswersFor(names, get))
  {
    hide Served, RosterInv, RunSteps, Service.FullNames, Service.AnswersFor;
    var names := Service.FullNames(user.projects);
    var u := Apply(s, AnswerUser(Some(user))).value;
    StepKeepsRoster(s, AnswerUser(Some(user)));
    StepServes(s, AnswerUser(Some(user)));
    Service.AnswersCount(names, get);
    AnswersAreLoaded(u, Service.AnswersFor(names, get));
  }

  // ----------------------------------------------------------------- the status gate

  /** Which calls reach their handlers: before the service is ready only the one that asks whether it is. */
  lemma GateDecides(s: System, call: Call)
    ensures Service.Passes(s.status, call.FullMethod()) <==> call.StatusCall? || s.status == Service.Ok
    ensures s.status != Service.Ok ==> Apply(s, Rpc(call)) == Some(s)
  {
  }

  ghost predicate GateInv(s: System)
  {
    && (s.status == Service.Ok <==> s.loader.Loading?)
    && (s.status != Service.Ok ==> s.registry == map[] && s.workers == [])
    && (s.loader.Skipped? ==> s.status == Service.Unset)
  }

  predicate FindsUser(st: Step) { st.AnswerUser? && st.user.Some? }

  lemma StepKeepsGate(s: System, st: Step)
    requires GateInv(s) && Apply(s, st).Some?
    ensures var t := Apply(s, st).value;
            && GateInv(t)
            && (t.status == Service.Ok <==> s.status == Service.Ok || FindsUser(st))
            && (t.loader.Skipped? <==> s.loader.Skipped?)
  {
    hide Service.Judge, Issue, Next, Segment, PullAllowed;
  }

  lemma {:induction false} RunKeepsGate(s: System, steps: seq<Step>)
    requires GateInv(s) && RunSteps(s, steps).Some?
    ensures var t := RunSteps(s, steps).value;
            && GateInv(t)
            && (t.status == Service.Ok <==> s.status == Service.Ok || exists st :: st in steps && FindsUser(st))
            && (t.loader.Skipped? <==> s.loader.Skipped?)
    decreases |steps|
  {
    if steps == [] {
    } else {
      StepKeepsGate(s, steps[0]);
      RunKeepsGate(Apply(s, steps[0]).value, steps[1..]);
      assert steps == [steps[0]] + steps[1..];
    }
  }

  /**
   The gate over runs: the service is ready exactly when the user was found, and from then on; until then
   nothing is registered or was ever started. When the loader is skipped that is so in every run.
   */
  lemma StatusGate(host: string, now: int, skip: bool, steps: seq<Step>)
    requires RunSteps(Init(host, now, skip), steps).Some?
    ensures var t := RunSteps(Init(host, now, skip), steps).value;
            && (t.status == Service.Ok <==> exists st :: st in steps && FindsUser(st))
            && (t.status != Service.Ok ==> t.registry == map[] && t.workers == [])
            && (skip ==> t.status == Service.Unset && t.registry == map[] && t.workers == [])
  {
    RunKeepsGate(Init(host, now, skip), steps);
  }
}
