/**
 The timers that pace a worker (retrypolicies/): the Go timer they hold, the two policies, and what
 the slow-start intervals are after any history of outcomes.
 */
module RetryPolicies {
  import opened GoTypes

  const MILLISECOND: int := 1_000_000
  const INITIAL_INTERVAL: int := 1_000_000_000
  const LOWER_BOUND: int := 300_000_000
  const UPPER_BOUND: int := 86_400_000_000_000

  const LINEAR: string := "linear"
  const SLOWSTART: string := "slowstart"

  datatype RetryConfig = RetryConfig(kind: string, period: uint32)

  // ----------------------------------------------------------------- the policies as values

  /** What a policy remembers; durations are in nanoseconds. */
  datatype PolicyState =
    | LinearState(period: int)
    | SlowstartState(interval: int, failed: bool)
  {
    /** The interval the next Reset leaves in the timer. */
    function Interval(): int { if LinearState? then period else interval }

    predicate Flagged() { SlowstartState? && failed }

    predicate Valid()
    {
      if LinearState? then 0 <= period < 0x1_0000_0000 * MILLISECOND
      else LOWER_BOUND <= interval <= UPPER_BOUND
    }
  }

  /** retrypolicies.New: the fresh policy and how long its timer runs at first. */
  function Initial(rp: RetryConfig): Option<(PolicyState, int)>
  {
    if rp.kind == LINEAR then Some((LinearState(rp.period as int * MILLISECOND), 0))
    else if rp.kind == SLOWSTART then Some((SlowstartState(INITIAL_INTERVAL, false), INITIAL_INTERVAL))
    else None
  }

  function AfterReset(p: PolicyState, err: bool): PolicyState
  {
    match p
    case LinearState(_) => p
    case SlowstartState(interval, failed) =>
      if err then SlowstartState(Min(2 * interval, UPPER_BOUND), true)
      else if failed then SlowstartState(INITIAL_INTERVAL, false)
      else SlowstartState(Max(interval / 2, LOWER_BOUND), false)
  }

  /** The policy after a history of Resets; true stands for a Reset that was given an error. */
  function AfterHistory(p: PolicyState, h: seq<bool>): PolicyState
  {
    if h == [] then p else AfterReset(AfterHistory(p, h[..|h| - 1]), h[|h| - 1])
  }

  lemma {:induction false} AfterHistoryValid(p: PolicyState, h: seq<bool>)
    requires p.Valid()
    ensures AfterHistory(p, h).Valid()
    ensures p.LinearState? ==> AfterHistory(p, h) == p
    ensures p.SlowstartState? ==> AfterHistory(p, h).SlowstartState?
    ensures h != [] && h[|h| - 1] ==> AfterHistory(p, h).Interval() >= AfterHistory(p, h[..|h| - 1]).Interval()
  {
    if h == [] {
    } else {
      AfterHistoryValid(p, h[..|h| - 1]);
    }
  }

  /**
   Whatever the configuration and the history, the interval and its double fit 64-bit nanoseconds: a linear
   policy keeps its period, given in milliseconds, and slow start stays between its two bounds.
   */
  lemma IntervalsFit(rp: RetryConfig, h: seq<bool>)
    requires Initial(rp).Some?
    ensures var i := AfterHistory(Initial(rp).value.0, h).Interval();
            && 0 <= i && 2 * i < 0x8000_0000_0000_0000
            && (rp.kind == "linear" ==> i == rp.period as int * 1_000_000)
            && (rp.kind == "slowstart" ==> 300_000_000 <= i <= 86_400_000_000_000)
  {
    AfterHistoryValid(Initial(rp).value.0, h);
  }

  /** The kinds of policy there are, and what each begins with: slow start waits a second, linear does not wait. */
  lemma InitialByKind(rp: RetryConfig)
    ensures Initial(rp).Some? <==> rp.kind == "linear" || rp.kind == "slowstart"
    ensures rp.kind == "linear" ==> Initial(rp) == Some((LinearState(rp.period as int * 1_000_000), 0))
    ensures rp.kind == "slowstart" ==> Initial(rp) == Some((FRESH, 1_000_000_000))
  {
  }

  // ----------------------------------------------------------------- closed form of slow start

  const FRESH: PolicyState := SlowstartState(INITIAL_INTERVAL, false)

  function Pow2(n: nat): (r: nat)
    ensures r >= 1
  {
    if n == 0 then 1 else 2 * Pow2(n - 1)
  }

  /** How many elements at the end of h equal b. */
  function Tail(h: seq<bool>, b: bool): (n: nat)
    ensures n <= |h|
    ensures forall k :: |h| - n <= k < |h| ==> h[k] == b
    ensures n < |h| ==> h[|h| - n - 1] != b
  {
    if h == [] || h[|h| - 1] != b then 0 else 1 + Tail(h[..|h| - 1], b)
  }

  /** The interval after a history that does not end in an error: halvings, from the start or from recovery. */
  function Base(h: seq<bool>): int
  {
    Halved(HalvingsIn(h))
  }

  function HalvingsIn(h: seq<bool>): nat
  {
    var s := Tail(h, false);
    if s == |h| || s == 0 then s else s - 1
  }

  function Halved(k: nat): int
  {
    Max(1_000_000_000 / Pow2(k), 300_000_000)
  }

  /** The interval in terms of the tail of the history alone. */
  function ClosedForm(h: seq<bool>): PolicyState
  {
    var n := Tail(h, true);
    SlowstartState(Min(Base(h[..|h| - n]) * Pow2(n), 86_400_000_000_000), n > 0)
  }

  lemma {:induction false} Pow2AtLeast(m: nat, n: nat)
    requires m <= n
    ensures Pow2(m) <= Pow2(n)
  {
    if m == n {
    } else {
      Pow2AtLeast(m, n - 1);
    }
  }

  lemma QuotientBound(w: nat)
    requires w >= 4
    ensures INITIAL_INTERVAL / w <= LOWER_BOUND
  {
    var q := INITIAL_INTERVAL / w;
    assert q * w <= INITIAL_INTERVAL;
    assert q * 4 <= q * w;
  }

  /** Halving reaches the floor at the second halving. */
  lemma Halvings(k: nat)
    ensures Halved(k) == FloorAfter(k)
  {
    if k >= 2 {
      Pow2AtLeast(2, k);
      QuotientBound(Pow2(k));
    }
  }

  function FloorAfter(k: nat): int
  {
    if k == 0 then 1_000_000_000 else if k == 1 then 500_000_000 else 300_000_000
  }

  lemma TailSnoc(h: seq<bool>, b: bool)
    requires h != []
    ensures Tail(h, b) == if h[|h| - 1] == b then 1 + Tail(h[..|h| - 1], b) else 0
  {
  }

  lemma ErrorStep(g: seq<bool>)
    ensures ClosedForm(g + [true]) == AfterReset(ClosedForm(g), true)
  {
    hide Base, Pow2, Min;
    var h, n := g + [true], Tail(g, true);
    TailSnoc(h, true);
    assert h[..|g|] == g && h[..|h| - (n + 1)] == g[..|g| - n];
    BaseValue(g[..|g| - n]);
    DoublingStep(Base(g[..|g| - n]), n);
  }

  lemma SuccessStep(g: seq<bool>)
    ensures ClosedForm(g + [false]) == AfterReset(ClosedForm(g), false)
  {
    var h, s := g + [false], Tail(g, false);
    TailSnoc(h, true); TailSnoc(h, false);
    assert h[..|g|] == g && h[..|h|] == h;
    ClosedFormWithoutError(h);
    if s > 0 || g == [] {
      assert g[..|g|] == g;
      ClosedFormWithoutError(g);
    }
  }

  /** ClosedForm where the tail holds no error. */
  lemma ClosedFormWithoutError(h: seq<bool>)
    requires Tail(h, true) == 0
    ensures ClosedForm(h) == SlowstartState(FloorAfter(HalvingsIn(h)), false)
  {
    assert h[..|h|] == h;
    Halvings(HalvingsIn(h));
    assert Pow2(0) == 1;
  }

  lemma {:induction false} SlowstartClosedForm(h: seq<bool>)
    ensures AfterHistory(FRESH, h) == ClosedForm(h)
  {
    if h == [] {
      ClosedFormWithoutError(h);
    } else {
      var g := h[..|h| - 1];
      SlowstartClosedForm(g);
      assert h == g + [h[|h| - 1]];
      if h[|h| - 1] { ErrorStep(g); } else { SuccessStep(g); }
    }
  }

  lemma DoublingStep(b: int, n: nat)
    requires b >= 0
    ensures Min(2 * Min(b * Pow2(n), UPPER_BOUND), UPPER_BOUND) == Min(b * Pow2(n + 1), UPPER_BOUND)
  {
    assert b * Pow2(n + 1) == 2 * (b * Pow2(n));
    assert b * Pow2(n) >= 0;
  }

  /** After how many errors in a row the base b reaches the cap. */
  function CapAt(b: int): nat
  {
    if b == 1_000_000_000 then 17 else if b == 500_000_000 then 18 else 19
  }

  lemma CapMeansCount(b: int, n: nat)
    requires b == 1_000_000_000 || b == 500_000_000 || b == 300_000_000
    ensures Min(b * Pow2(n), UPPER_BOUND) == UPPER_BOUND <==> n >= CapAt(b)
  {
    Pow2Values();
    if n >= CapAt(b) { Pow2AtLeast(CapAt(b), n); } else { Pow2AtLeast(n, CapAt(b) - 1); }
  }

  /** Only three error-free intervals exist. */
  lemma BaseValue(h: seq<bool>)
    ensures Base(h) == 1_000_000_000 || Base(h) == 500_000_000 || Base(h) == 300_000_000
  {
    Halvings(HalvingsIn(h));
  }

  /** The cap is in force exactly from the 17th, 18th or 19th error on, by the interval the errors started from. */
  lemma CapTime(h: seq<bool>)
    ensures var n := Tail(h, true);
            AfterHistory(FRESH, h).Interval() == 86_400_000_000_000 <==> n >= CapAt(Base(h[..|h| - n]))
  {
    hide Base, Min, Pow2, CapAt;
    var n := Tail(h, true);
    var g := h[..|h| - n];
    BaseValue(g);
    CapMeansCount(Base(g), n);
    SlowstartClosedForm(h);
  }

  lemma Pow2Values()
    ensures Pow2(16) == 65536 && Pow2(17) == 131072 && Pow2(18) == 262144 && Pow2(19) == 524288
  {
    assert Pow2(4) == 16; assert Pow2(8) == 256; assert Pow2(12) == 4096; assert Pow2(16) == 65536;
  }

  /** The sum of the n intervals that n errors in a row produce. */
  function Backoff(p: PolicyState, n: nat): int
    decreases n
  {
    if n == 0 then 0 else AfterReset(p, true).Interval() + Backoff(AfterReset(p, true), n - 1)
  }

  /** While the cap is not exceeded the waits of an error run double, and add up to b * (2^(n+1) - 2). */
  lemma {:induction false} BackoffSum(b: int, failed: bool, n: nat)
    requires 0 < b && b * Pow2(n) <= UPPER_BOUND
    ensures Backoff(SlowstartState(b, failed), n) == b * (Pow2(n + 1) - 2)
    decreases n
  {
    if n == 0 {
    } else {
      DoubledBound(b, Pow2(n - 1));
      BackoffSum(2 * b, true, n - 1);
      DoubledSum(b, Pow2(n));
    }
  }

  lemma DoubledBound(b: int, w: nat)
    requires 0 < b && 1 <= w
    ensures 2 * b * w == b * (2 * w) && 2 * b <= 2 * b * w
  {
    assert b * w >= b;
  }

  lemma DoubledSum(b: int, w: nat)
    ensures 2 * b + 2 * b * (w - 2) == b * (2 * w - 2)
  {
  }

  // ----------------------------------------------------------------- the timer and the policy objects

  /** A Go 1.21 timer: it may be armed, and its channel holds at most one tick. */
  datatype TimerState = TimerState(deadline: Option<int>, tick: bool)
  {
    function Fire(): TimerState { TimerState(None, true) }

    predicate Due(now: int) { deadline.Some? && deadline.value <= now }
  }

  class Timer {
    var deadline: Option<int>
    var tick: bool

    function State(): TimerState
      reads this
    {
      TimerState(deadline, tick)
    }

    constructor (d: int64, now: int)
      ensures State() == TimerState(Some(now + d as int), false)
    {
      deadline, tick := Some(now + d as int), false;
    }

    method Reset(d: int64, now: int)
      modifies this
      ensures State() == TimerState(Some(now + d as int), old(tick))
    {
      deadline := Some(now + d as int);
    }

    method Stop() returns (active: bool)
      modifies this
      ensures active == old(deadline.Some?) && State() == TimerState(None, old(tick))
    {
      active := deadline.Some?;
      deadline := None;
    }

    /** The runtime's part: the send on a full channel is dropped. */
    method Fire()
      requires deadline.Some?
      modifies this
      ensures State() == old(State()).Fire()
    {
      deadline, tick := None, true;
    }

    /** Receiving would block on an empty channel, hence the precondition. */
    method Receive()
      requires tick
      modifies this
      ensures State() == TimerState(old(deadline), false)
    {
      tick := false;
    }
  }

  class Linear {
    const period: int64
    const timer: Timer

    ghost predicate Valid()
    {
      State().Valid()
    }

    function State(): PolicyState { LinearState(period as int) }

    constructor (period: uint32, now: int)
      ensures Valid() && fresh(timer)
      ensures State() == LinearState(period as int * MILLISECOND)
      ensures timer.State() == TimerState(Some(now), false)
    {
      this.period := period as int64 * 1_000_000;
      this.timer := new Timer(0, now);
    }

    method Reset(err: bool, now: int)
      modifies timer
      ensures State() == AfterReset(State(), err)
      ensures timer.State() == TimerState(Some(now + State().Interval()), old(timer.tick))
    {
      timer.Reset(period, now);
    }
  }

  class Slowstart {
    var previousRestartInterval: int64
    var previousError: bool
    const timer: Timer

    ghost predicate Valid()
      reads this
    {
      State().Valid()
    }

    function State(): PolicyState
      reads this
    {
      SlowstartState(previousRestartInterval as int, previousError)
    }

    constructor (now: int)
      ensures Valid() && fresh(timer)
      ensures State() == FRESH
      ensures timer.State() == TimerState(Some(now + INITIAL_INTERVAL), false)
    {
      previousRestartInterval, previousError := INITIAL_INTERVAL as int64, false;
      timer := new Timer(INITIAL_INTERVAL as int64, now);
    }

    method Reset(err: bool, now: int)
      requires Valid()
      modifies this, timer
      ensures Valid() && State() == AfterReset(old(State()), err)
      ensures timer.State() == TimerState(Some(now + State().Interval()), old(timer.tick))
    {
      var restartInterval: int64 := 0;
      if !previousError && !err {
        if previousRestartInterval / 2 < LOWER_BOUND as int64 {
          restartInterval := LOWER_BOUND as int64;
        } else {
          restartInterval := previousRestartInterval / 2;
        }
      }
      if err {
        if previousRestartInterval * 2 > UPPER_BOUND as int64 {
          restartInterval := UPPER_BOUND as int64;
        } else {
          restartInterval := previousRestartInterval * 2;
        }
        previousError := true;
      }
      if previousError && !err {
        restartInterval := INITIAL_INTERVAL as int64;
        previousError := false;
      }
      previousRestartInterval := restartInterval;
      timer.Reset(restartInterval, now);
    }
  }

  /** The interface value a worker holds. */
  datatype RetryPolicy = LinearPolicy(linear: Linear) | SlowstartPolicy(slowstart: Slowstart)
  {
    function Timer(): Timer { if LinearPolicy? then linear.timer else slowstart.timer }

    function Repr(): set<object> { {if LinearPolicy? then linear as object else slowstart, Timer()} }

    ghost predicate Valid()
      reads Repr()
    {
      (if LinearPolicy? then linear.Valid() else slowstart.Valid())
    }

    function State(): PolicyState
      reads Repr()
    {
      if LinearPolicy? then linear.State() else slowstart.State()
    }

    method Reset(err: bool, now: int)
      requires Valid()
      modifies Repr()
      ensures Valid() && State() == AfterReset(old(State()), err)
      ensures Timer().State() == TimerState(Some(now + State().Interval()), old(Timer().tick))
    {
      match this
      case LinearPolicy(l) => l.Reset(err, now);
      case SlowstartPolicy(s) => s.Reset(err, now);
    }
  }

  method New(rp: RetryConfig, now: int) returns (r: Option<RetryPolicy>)
    ensures r.Some? <==> rp.kind == "linear" || rp.kind == "slowstart"
    ensures r.Some? ==>
              && fresh(r.value.Repr()) && r.value.Valid() && Initial(rp).Some?
              && r.value.State() == Initial(rp).value.0
              && r.value.Timer().State() == TimerState(Some(now + Initial(rp).value.1), false)
    ensures rp.kind == "linear" ==>
              && r.value.State() == LinearState(rp.period as int * 1_000_000)
              && r.value.Timer().State() == TimerState(Some(now), false)
    ensures rp.kind == "slowstart" ==>
              && r.value.State() == SlowstartState(1_000_000_000, false)
              && r.value.Timer().State() == TimerState(Some(now + 1_000_000_000), false)
  {
    if rp.kind == LINEAR {
      var l := new Linear(rp.period, now);
      return Some(LinearPolicy(l));
    } else if rp.kind == SLOWSTART {
      var s := new Slowstart(now);
      return Some(SlowstartPolicy(s));
    }
    return None;
  }
}
