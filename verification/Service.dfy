/** The push service: which subscriptions are served, and by which workers (api/v1/grpc). */
module Service {
  import opened GoTypes
  import opened Ams
  import Protocol
  import Push
  import RetryPolicies
  import Wire

  // ----------------------------------------------------------------- decisions

  /** Incomplete: the subscription, its push config or its retry policy is nil. */
  datatype ActivateRequest = Incomplete | Complete(sub: Subscription)

  datatype ActivateResult = Activated | EmptySubscription | AlreadyExists | InvalidEndpoint | InvalidRetryPolicy

  /** Whether a subscription can be pushed at all. */
  predicate Pushable(sub: Subscription)
  {
    && (sub.pushConfig.pushType.HttpEndpoint? ==> sub.pushConfig.pushEndpoint.parses)
    && RetryPolicies.Initial(sub.pushConfig.retryPolicy).Some?
  }

  function Judge(active: set<string>, r: ActivateRequest): (res: ActivateResult)
    ensures res.Activated? <==> r.Complete? && r.sub.fullName !in active && Pushable(r.sub)
    ensures res.EmptySubscription? <==> r.Incomplete?
    ensures res.AlreadyExists? <==> r.Complete? && r.sub.fullName in active
    ensures res.InvalidEndpoint? <==>
              && r.Complete? && r.sub.fullName !in active
              && r.sub.pushConfig.pushType.HttpEndpoint? && !r.sub.pushConfig.pushEndpoint.parses
    ensures res.InvalidRetryPolicy? <==>
              && r.Complete? && r.sub.fullName !in active && RetryPolicies.Initial(r.sub.pushConfig.retryPolicy).None?
              && (r.sub.pushConfig.pushType.HttpEndpoint? ==> r.sub.pushConfig.pushEndpoint.parses)
  {
    match r
    case Incomplete => EmptySubscription
    case Complete(sub) =>
      if sub.fullName in active then AlreadyExists
      else if sub.pushConfig.pushType.HttpEndpoint? && !sub.pushConfig.pushEndpoint.parses then InvalidEndpoint
      else if RetryPolicies.Initial(sub.pushConfig.retryPolicy).None? then InvalidRetryPolicy
      else Activated
  }

  /** The served subscriptions by name, after an activation request. */
  function Activate(active: map<string, Subscription>, r: ActivateRequest): map<string, Subscription>
  {
    if Judge(active.Keys, r).Activated? then active[r.sub.fullName := r.sub] else active
  }

  datatype Status = Unset | Unavailable | Ok

  const STATUS_METHOD: string := "/PushService/Status"

  /** StatusInterceptor: whether a call reaches its handler. */
  predicate Passes(status: Status, fullMethod: string)
  {
    fullMethod == STATUS_METHOD || status == Ok
  }

  // ----------------------------------------------------------------- the loader

  datatype AmsPushConfig = AmsPushConfig(
    kind: string,
    pend: Endpoint,
    authorizationHeader: string,
    maxMessages: int64,
    retPol: RetryPolicies.RetryConfig,
    mattermostUrl: string,
    mattermostUsername: string,
    mattermostChannel: string,
    base64Decode: bool)

  datatype AmsSubscription = AmsSubscription(fullName: string, fullTopic: string, pushCfg: AmsPushConfig)
  {
    predicate IsPushEnabled() { pushCfg.kind != "" }

    function ToSubscription(): Subscription
    {
      Subscription(fullName, fullTopic,
                   PushConfig(if pushCfg.kind == HTTP_ENDPOINT then HttpEndpoint else Mattermost,
                              pushCfg.pend, pushCfg.authorizationHeader, pushCfg.maxMessages, pushCfg.retPol,
                              pushCfg.mattermostUrl, pushCfg.mattermostUsername, pushCfg.mattermostChannel,
                              pushCfg.base64Decode))
    }
  }

  const HTTP_ENDPOINT: string := "http_endpoint"

  datatype Project = Project(project: string, subscriptions: seq<string>)

  datatype UserInfo = UserInfo(name: string, projects: seq<Project>)

  function FullName(project: string, subName: string): string
  {
    "/projects/" + project + "/subscriptions/" + subName
  }

  function NamesIn(p: Project): (names: seq<string>)
    ensures |names| == |p.subscriptions|
  {
    seq(|p.subscriptions|, k requires 0 <= k < |p.subscriptions| => FullName(p.project, p.subscriptions[k]))
  }

  /** Every subscription name of the user, project by project. */
  function FullNames(projects: seq<Project>): seq<string>
  {
    if projects == [] then [] else FullNames(projects[..|projects| - 1]) + NamesIn(projects[|projects| - 1])
  }

  /** The loader asks for the subscriptions of project after project, by their full names. */
  lemma AsksInOrder(projects: seq<Project>, p: Project, k: nat)
    requires k < |p.subscriptions|
    ensures FullNames([]) == []
    ensures var names, n := FullNames(projects + [p]), |FullNames(projects)|;
            && |names| == n + |p.subscriptions| && names[..n] == FullNames(projects)
            && names[n + k] == "/projects/" + p.project + "/subscriptions/" + p.subscriptions[k]
  {
    assert (projects + [p])[..|projects|] == projects;
  }

  /** What AMS answers when asked for the k-th name; None is an error. */
  type Lookup = (nat, string) -> Option<AmsSubscription>

  function AnswersFor(names: seq<string>, get: Lookup): seq<Option<AmsSubscription>>
  {
    if names == [] then []
    else AnswersFor(names[..|names| - 1], get) + [get(|names| - 1, names[|names| - 1])]
  }

  lemma {:induction false} AnswersInOrder(names: seq<string>, get: Lookup, k: nat)
    requires k < |names|
    ensures |AnswersFor(names, get)| == |names| && AnswersFor(names, get)[k] == get(k, names[k])
  {
    var init := names[..|names| - 1];
    if k == |init| {
      AnswersCount(init, get);
    } else {
      AnswersInOrder(init, get, k);
    }
  }

  lemma {:induction false} AnswersCount(names: seq<string>, get: Lookup)
    ensures |AnswersFor(names, get)| == |names|
  {
    if names == [] {
    } else {
      AnswersCount(names[..|names| - 1], get);
    }
  }

  function FirstUser(users: seq<Option<UserInfo>>): Option<UserInfo>
  {
    if users == [] then None else if users[0].Some? then users[0] else FirstUser(users[1..])
  }

  /** One pass of the inner loop. */
  function LoadOne(active: map<string, Subscription>, answer: Option<AmsSubscription>): map<string, Subscription>
  {
    if answer.Some? && answer.value.IsPushEnabled()
    then Activate(active, Complete(answer.value.ToSubscription()))
    else active
  }

  function Load(active: map<string, Subscription>, answers: seq<Option<AmsSubscription>>): map<string, Subscription>
  {
    if answers == [] then active else LoadOne(Load(active, answers[..|answers| - 1]), answers[|answers| - 1])
  }

  /** A push-enabled subscription with a known retry policy and, for type "http_endpoint", a proper endpoint. */
  predicate Loadable(answer: Option<AmsSubscription>)
  {
    && answer.Some?
    && var cfg := answer.value.pushCfg;
       && cfg.kind != ""
       && (cfg.kind == "http_endpoint" ==> cfg.pend.parses)
       && (cfg.retPol.kind == "linear" || cfg.retPol.kind == "slowstart")
  }

  lemma LoadableIsPushable(answer: Option<AmsSubscription>)
    ensures Loadable(answer) <==>
            answer.Some? && answer.value.IsPushEnabled() && Pushable(answer.value.ToSubscription())
  {
    if answer.Some? { RetryPolicies.InitialByKind(answer.value.pushCfg.retPol); }
  }

  predicate Names(answer: Option<AmsSubscription>, name: string)
  {
    Loadable(answer) && answer.value.fullName == name
  }

  /** The first loadable answer for this name is at k. */
  predicate FirstAt(answers: seq<Option<AmsSubscription>>, name: string, k: nat)
  {
    && k < |answers| && Names(answers[k], name)
    && forall j :: 0 <= j < k ==> !Names(answers[j], name)
  }

  /** Some loadable answer carries this name. */
  predicate Named(answers: seq<Option<AmsSubscription>>, name: string)
  {
    exists k :: 0 <= k < |answers| && Names(answers[k], name)
  }

  lemma NamedSnoc(answers: seq<Option<AmsSubscription>>, name: string)
    requires answers != []
    ensures Named(answers, name) <==>
            Named(answers[..|answers| - 1], name) || Names(answers[|answers| - 1], name)
  {
    var init := answers[..|answers| - 1];
    if Named(init, name) {
      var k :| 0 <= k < |init| && Names(init[k], name);
      assert Names(answers[k], name);
    }
    if Named(answers, name) && !Names(answers[|answers| - 1], name) {
      var k :| 0 <= k < |answers| && Names(answers[k], name);
      assert Names(init[k], name);
    }
  }

  /**
   The loader as a set, name by name: it serves what was served before, unchanged, and the names some
   loadable answer carries, for which the first such answer decides.
   */
  lemma {:induction false} LoadAddsFirstLoadable(active: map<string, Subscription>,
                                                 answers: seq<Option<AmsSubscription>>, n: string)
    ensures n in Load(active, answers) <==> n in active || Named(answers, n)
    ensures n in active ==> Load(active, answers)[n] == active[n]
    ensures forall k: nat :: n !in active && FirstAt(answers, n, k) ==>
              n in Load(active, answers) && Load(active, answers)[n] == answers[k].value.ToSubscription()
  {
    if answers == [] {
    } else {
      var init := answers[..|answers| - 1];
      LoadableIsPushable(answers[|answers| - 1]);
      LoadAddsFirstLoadable(active, init, n);
      NamedSnoc(answers, n);
      forall k: nat | n !in active && FirstAt(answers, n, k)
        ensures n in Load(active, answers) && Load(active, answers)[n] == answers[k].value.ToSubscription()
      {
        if k < |init| {
          assert FirstAt(init, n, k);
        } else {
          assert forall j :: 0 <= j < |init| ==> init[j] == answers[j];
          assert !Named(init, n);
        }
      }
    }
  }

  lemma {:induction false} LoadNothingNew(active: map<string, Subscription>, answers: seq<Option<AmsSubscription>>)
    requires forall k :: 0 <= k < |answers| && Loadable(answers[k]) ==> answers[k].value.fullName in active
    ensures Load(active, answers) == active
  {
    if answers == [] {
    } else {
      var init := answers[..|answers| - 1];
      assert forall k :: 0 <= k < |init| ==> init[k] == answers[k];
      LoadableIsPushable(answers[|answers| - 1]);
      LoadNothingNew(active, init);
    }
  }

  /** A second load with the same answers changes nothing. */
  lemma LoadTwice(active: map<string, Subscription>, answers: seq<Option<AmsSubscription>>)
    ensures Load(Load(active, answers), answers) == Load(active, answers)
  {
    var after := Load(active, answers);
    forall k | 0 <= k < |answers| && Loadable(answers[k]) ensures answers[k].value.fullName in after {
      assert Names(answers[k], answers[k].value.fullName);
      LoadAddsFirstLoadable(active, answers, answers[k].value.fullName);
    }
    LoadNothingNew(after, answers);
  }

  // ----------------------------------------------------------------- the service

  class PushService {
    const amsHost: string
    var pushWorkers: map<string, Push.Worker>
    var status: Status

    /** Every entry is a live worker, set up for the subscription it is filed under. */
    ghost predicate Valid()
      reads this, pushWorkers.Values
    {
      forall n :: n in pushWorkers ==> Serves(pushWorkers[n], n)
    }

    ghost predicate Serves(w: Push.Worker, n: string)
      reads w
    {
      !w.ctxDone && w.config.sub.fullName == n && w.config == Protocol.Configure(w.config.sub, amsHost)
    }

    /** The served subscriptions by name. */
    ghost function Active(): map<string, Subscription>
      reads this
    {
      map n | n in pushWorkers :: pushWorkers[n].config.sub
    }

    constructor (amsHost: string)
      ensures Valid() && pushWorkers == map[] && status == Unset && this.amsHost == amsHost
    {
      this.amsHost, pushWorkers, status := amsHost, map[], Unset;
    }

    predicate IsSubActive(name: string)
      reads this
    {
      name in pushWorkers
    }

    /** SubscriptionStatus: None is "not active". */
    function SubscriptionStatus(name: string): (r: Option<Option<Protocol.Stage>>)
      reads this, if name in pushWorkers then {pushWorkers[name]} else {}
      ensures r.Some? <==> IsSubActive(name)
      ensures r.Some? ==> r.value == pushWorkers[name].pushErr
    {
      if !IsSubActive(name) then None else Some(pushWorkers[name].Status())
    }

    method ActivateSubscription(r: ActivateRequest, now: int) returns (res: ActivateResult)
      requires Valid()
      modifies this`pushWorkers
      ensures Valid()
      ensures res == Judge(old(pushWorkers.Keys), r)
      ensures Active() == Activate(old(Active()), r)
      ensures !res.Activated? ==> pushWorkers == old(pushWorkers)
      ensures res.Activated? ==>
                && r.sub.fullName in pushWorkers
                && var w := pushWorkers[r.sub.fullName];
                   && fresh(w.Repr()) && pushWorkers == old(pushWorkers)[r.sub.fullName := w]
                   && var rp := RetryPolicies.Initial(r.sub.pushConfig.retryPolicy).value;
                      w.State(Protocol.Selecting) == Protocol.Fresh(rp.0, rp.1, now)
    {
      if r.Incomplete? { return EmptySubscription; }
      if IsSubActive(r.sub.fullName) { return AlreadyExists; }
      if r.sub.pushConfig.pushType == HttpEndpoint {
        if !r.sub.pushConfig.pushEndpoint.parses { return InvalidEndpoint; }
      }
      var worker := Push.New(Protocol.Configure(r.sub, amsHost), now);
      match worker
      case None => return InvalidRetryPolicy;
      case Some(w) =>
        pushWorkers := pushWorkers[r.sub.fullName := w];
        return Activated;
    }

    /** Stops the worker and forgets it; no other worker is touched. */
    method DeactivateSubscription(sub: string) returns (found: bool)
      requires Valid()
      modifies this`pushWorkers, (if sub in pushWorkers then {pushWorkers[sub]} else {})`ctxDone
      ensures Valid()
      ensures found <==> sub in old(pushWorkers)
      ensures pushWorkers == old(pushWorkers) - {sub}
      ensures found ==> old(pushWorkers)[sub].ctxDone
    {
      if !IsSubActive(sub) { return false; }
      var w := pushWorkers[sub];
      w.Stop();
      pushWorkers := pushWorkers - {sub};
      found := true;
    }

    /** handleDeactivateChannel, for the errors that arrive. */
    method HandleDeactivateChannel(errors: seq<Wire.CancelableError>)
      requires Valid()
      modifies this`pushWorkers, pushWorkers.Values`ctxDone
      ensures Valid()
      ensures pushWorkers == old(pushWorkers) - (set e | e in errors :: e.resource)
      ensures forall n :: n in old(pushWorkers) ==>
                (old(pushWorkers)[n].ctxDone <==> exists e :: e in errors && e.resource == n)
    {
      hide Protocol.Configure, Active;
      for k := 0 to |errors|
        invariant Valid()
        invariant pushWorkers == old(pushWorkers) - (set e | e in errors[..k] :: e.resource)
        invariant forall n :: n in old(pushWorkers) ==>
                    (old(pushWorkers)[n].ctxDone <==> exists e :: e in errors[..k] && e.resource == n)
      {
        var found := DeactivateSubscription(errors[k].resource);
        assert errors[..k + 1] == errors[..k] + [errors[k]];
      }
      assert errors[..|errors|] == errors;
    }

    /** The first half of loadSubscriptions: ask for the user until there is one. */
    method AwaitUser(users: seq<Option<UserInfo>>) returns (user: Option<UserInfo>)
      modifies this`status
      ensures user == FirstUser(users)
      ensures user.None? <==> forall k :: 0 <= k < |users| ==> users[k].None?
      ensures user.Some? ==>
                exists k :: 0 <= k < |users| && users[k] == user && forall j :: 0 <= j < k ==> users[j].None?
      ensures status == if user.Some? then Ok else if users == [] then old(status) else Unavailable
    {
      var u := 0;
      while u < |users| && users[u].None?
        invariant 0 <= u <= |users|
        invariant FirstUser(users) == FirstUser(users[u..])
        invariant forall k :: 0 <= k < u ==> users[k].None?
        invariant status == if u == 0 then old(status) else Unavailable
      {
        status := Unavailable;
        u := u + 1;
      }
      if u == |users| { return None; }
      status := Ok;
      user := users[u];
    }

    /** loadSubscriptions, for the answers AMS gives. */
    method LoadSubscriptions(users: seq<Option<UserInfo>>, get: Lookup, now: int)
      requires Valid()
      modifies this`pushWorkers, this`status
      ensures Valid()
      ensures status == if FirstUser(users).Some? then Ok else if users == [] then old(status) else Unavailable
      ensures FirstUser(users).None? ==> pushWorkers == old(pushWorkers)
      ensures FirstUser(users).Some? ==>
                Active() == Load(old(Active()), AnswersFor(FullNames(FirstUser(users).value.projects), get))
      ensures forall n :: n in old(pushWorkers) ==> n in pushWorkers && pushWorkers[n] == old(pushWorkers)[n]
    {
      hide Activate, Load, Judge, FirstUser, Serves, AnswersFor, FullName;
      var user := AwaitUser(users);
      if user.None? { return; }
      var projects := user.value.projects;
      ghost var names: seq<string> := [];
      ghost var before := Active();
      var asked := 0;
      AskedNothing(get, before);
      for p := 0 to |projects|
        invariant Valid() && status == Ok && asked == |names| && names == FullNames(projects[..p])
        invariant Active() == Load(before, AnswersFor(names, get))
        invariant forall n :: n in old(pushWorkers) ==> n in pushWorkers && pushWorkers[n] == old(pushWorkers)[n]
      {
        var project := projects[p];
        ghost var done := names;
        for j := 0 to |project.subscriptions|
          invariant Valid() && status == Ok && asked == |names| && names == done + NamesIn(project)[..j]
          invariant Active() == Load(before, AnswersFor(names, get))
          invariant forall n :: n in old(pushWorkers) ==> n in pushWorkers && pushWorkers[n] == old(pushWorkers)[n]
        {
          var fullSubName := FullName(project.project, project.subscriptions[j]);
          var sub := get(asked, fullSubName);
          AskedOneMore(names, fullSubName, get, before);
          asked, names := asked + 1, names + [fullSubName];
          if sub.None? { continue; }
          if !sub.value.IsPushEnabled() { continue; }
          var pushType := if sub.value.pushCfg.kind == HTTP_ENDPOINT then HttpEndpoint else Mattermost;
          var cfg := sub.value.pushCfg;
          var res := ActivateSubscription(Complete(
            Subscription(sub.value.fullName, sub.value.fullTopic,
                         PushConfig(pushType, cfg.pend, cfg.authorizationHeader, cfg.maxMessages, cfg.retPol,
                                    cfg.mattermostUrl, cfg.mattermostUsername, cfg.mattermostChannel,
                                    cfg.base64Decode))), now);
        }
        assert projects[..p + 1][..p] == projects[..p];
      }
      assert projects[..|projects|] == projects;
    }
  }

  lemma AskedNothing(get: Lookup, active: map<string, Subscription>)
    ensures Load(active, AnswersFor([], get)) == active
  {
  }

  lemma AskedOneMore(names: seq<string>, name: string, get: Lookup, active: map<string, Subscription>)
    ensures Load(active, AnswersFor(names + [name], get))
         == LoadOne(Load(active, AnswersFor(names, get)), get(|names|, name))
  {
    var answers := AnswersFor(names, get);
    assert (names + [name])[..|names|] == names;
    assert (answers + [get(|names|, name)])[..|answers|] == answers;
  }
}
