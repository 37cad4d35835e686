/**
 Counting clicks by minute and holding them below a threshold (src/pacing/pacing.go).
 gotools.ExpiredMap is taken to forget an entry exactly when its time is up.
 */
module Pacing {
  import opened GoInt
  import opened Options
  import opened Text

  // ---------- Time and keys ----------

  /** Nanoseconds since an hour began. */
  type Time = nat

  const MINUTE: nat := 60_000_000_000

  function MinuteOf(t: Time): nat { t / MINUTE }

  /** now.Minute() */
  function MinuteOfHour(t: Time): nat { MinuteOf(t) % 60 }

  /** "%s_%d" */
  function Key(uniqId: string, now: Time): string { uniqId + "_" + Decimal(MinuteOfHour(now)) }

  lemma {:induction false} KeyInjective(a: string, b: string, m: nat, n: nat)
    requires a + "_" + Decimal(m) == b + "_" + Decimal(n)
    ensures a == b && m == n
  {
    var s, x, y := a + "_" + Decimal(m), Decimal(m), Decimal(n);
    assert s[|a|] == '_' && s[|b|] == '_';
    assert forall k :: |a| < k < |s| ==> s[k] == x[k - |a| - 1];
    assert forall k :: |b| < k < |s| ==> s[k] == y[k - |b| - 1];
    assert |a| == |b|;
    assert s[..|a|] == a && s[..|b|] == b && s[|a| + 1..] == x && s[|b| + 1..] == y;
    DecimalInjective(m, n);
  }

  /** Two counters are one exactly if they are of the same ad and minute of the hour. */
  lemma {:induction false} KeysAre(a: string, b: string, t: Time, u: Time)
    ensures Key(a, t) == Key(b, u) <==> a == b && t / 60_000_000_000 % 60 == u / 60_000_000_000 % 60
  {
    if Key(a, t) == Key(b, u) { KeyInjective(a, b, MinuteOfHour(t), MinuteOfHour(u)); }
  }

  // ---------- The expiring map ----------

  datatype Entry = Entry(count: int, expiry: Time)

  type Store = map<string, Entry>

  function Get(m: Store, key: string, clock: Time): Option<int> {
    if key in m && clock < m[key].expiry then Some(m[key].count) else None
  }

  function Put(m: Store, key: string, count: int, clock: Time): Store {
    m[key := Entry(count, clock + 2 * MINUTE)]
  }

  // ---------- The controller ----------

  /** What Add makes of the map. */
  function AddTo(m: Store, uniqId: string, now: Time, count: int, clock: Time): Store {
    var key := Key(uniqId, now);
    match Get(m, key, clock)
    case Some(n) => Put(m, key, count + n, clock)
    case None => Put(m, key, count, clock)
  }

  /** The threshold of a check; -1 stands for no setting of the offer's own. */
  function Threshold(pacing: int, nInstances: int, country: string, manual: int): int
    requires nInstances > 0
  {
    if manual != -1 then Div(manual, nInstances) else if country == "CN" then pacing * 2 else pacing
  }

  /** A counter that is not there is never over. */
  predicate Over(o: Option<int>, threshold: int) { o.Some? && o.value > threshold }

  /** `clock` is the time of the call, `now` that of the request it is made for. */
  class PacingController {
    var m: Store
    const pacing: int
    const nInstances: int

    constructor (pacing: int, nInstances: int)
      requires nInstances > 0
      ensures m == map[] && this.pacing == pacing && this.nInstances == nInstances
    {
      m := map[];
      this.pacing, this.nInstances := pacing, nInstances;
    }

    method Add(uniqId: string, now: Time, count: int, clock: Time) returns (newCount: int)
      modifies this`m
      ensures m == AddTo(old(m), uniqId, now, count, clock)
      ensures Get(m, Key(uniqId, now), clock) == Some(newCount)
    {
      var key := Key(uniqId, now);
      var iCount := Get(m, key, clock);
      if iCount == None {
        m := Put(m, key, count, clock);
        return count;
      }
      newCount := count + iCount.value;
      m := Put(m, key, newCount, clock);
    }

    method OverCap(uniqId: string, country: string, manualPacing: int, now: Time, clock: Time) returns (over: bool)
      requires nInstances > 0
      ensures over <==> Over(Get(m, Key(uniqId, now), clock), Threshold(pacing, nInstances, country, manualPacing))
    {
      var iCount := Get(m, Key(uniqId, now), clock);
      if iCount == None {
        return false;
      }
      var threshold := pacing;
      if country == "CN" {
        threshold := threshold * 2;
      }
      if manualPacing != -1 {
        threshold := Div(manualPacing, nInstances);
      }
      over := iCount.value > threshold;
    }
  }

  /**
   A count exceeds what an instance may have: with a setting of the offer's own, more than its part
   of it (a negative one is divided towards zero), else more than the pacing, twice that in China.
   */
  predicate Exceeds(n: int, pacing: int, nInstances: int, country: string, manual: int) {
    if manual >= 0 then n * nInstances > manual
    else if manual < -1 then (n - 1) * nInstances >= manual
    else if country == "CN" then n > pacing + pacing
    else n > pacing
  }

  lemma {:induction false} Multiples(n: int, q: int, r: int, d: int)
    requires d > 0 && 0 <= r < d
    ensures n > q <==> n * d > q * d + r
  {
    if n > q { Grows(q + 1, n, d); } else { Grows(n, q, d); }
  }

  lemma {:induction false} Grows(a: int, b: int, d: int)
    requires a <= b && d > 0
    ensures a * d <= b * d
  {
  }

  lemma {:induction false} Quotients(a: nat, d: int)
    requires d > 0
    ensures 0 <= a - a / d * d < d
  {
    assert a == d * (a / d) + a % d;
  }

  /** The threshold is exceeded by just these counts. */
  lemma {:induction false} ThresholdIs(n: int, pacing: int, nInstances: int, country: string, manual: int)
    requires nInstances > 0
    ensures n > Threshold(pacing, nInstances, country, manual) <==> Exceeds(n, pacing, nInstances, country, manual)
  {
    if manual >= 0 {
      Quotients(manual, nInstances);
      Multiples(n, manual / nInstances, manual - manual / nInstances * nInstances, nInstances);
    } else if manual < -1 {
      var a := 0 - manual;
      Quotients(a, nInstances);
      Multiples(1 - n, a / nInstances, a - a / nInstances * nInstances, nInstances);
    }
  }

  const OFFER_GLOBAL_PACING := 700

  /**
   `instances` is the answer of the scaling service, None for any failure. A good answer shares the
   whole among the instances; after a failure each of them has the whole for itself.
   */
  method NewPacingController(instances: Option<nat>) returns (ctrl: PacingController)
    ensures fresh(ctrl) && ctrl.m == map[]
    ensures match instances
      case Some(n) => n > 0 ==> ctrl.nInstances == n && n * ctrl.pacing <= 700 < n * ctrl.pacing + n
      case None => true
    ensures instances in {None, Some(0)} ==> ctrl.pacing == 700 && ctrl.nInstances == 20
  {
    if instances == None || instances.value == 0 {
      ctrl := new PacingController(OFFER_GLOBAL_PACING, 20);
    } else {
      var n := instances.value;
      assert OFFER_GLOBAL_PACING == n * (OFFER_GLOBAL_PACING / n) + OFFER_GLOBAL_PACING % n;
      ctrl := new PacingController(Div(OFFER_GLOBAL_PACING, n), n);
    }
  }

  // ---------- A counter is the sum of a minute ----------

  datatype Added = Added(uniqId: string, now: Time, count: int, clock: Time)

  function StoreOf(log: seq<Added>): Store {
    if log == [] then map[] else
    var a := log[|log| - 1];
    AddTo(StoreOf(log[..|log| - 1]), a.uniqId, a.now, a.count, a.clock)
  }

  /** What was added for an ad in a minute of all time. */
  function SumIn(log: seq<Added>, uniqId: string, minute: nat): int {
    if log == [] then 0 else
    var a := log[|log| - 1];
    SumIn(log[..|log| - 1], uniqId, minute) + if a.uniqId == uniqId && MinuteOf(a.now) == minute then a.count else 0
  }

  /** Whether anything was. */
  ghost predicate Any(log: seq<Added>, uniqId: string, minute: nat) {
    exists i :: 0 <= i < |log| && IsIn(log[i], uniqId, minute)
  }

  predicate IsIn(a: Added, uniqId: string, minute: nat) {
    a.uniqId == uniqId && MinuteOf(a.now) == minute
  }

  /** Calls are made in the order of the clock, none before its request's time nor more than `lag` after. */
  ghost predicate Timely(log: seq<Added>, lag: nat) {
    && (forall i :: 0 <= i < |log| ==> log[i].now <= log[i].clock <= log[i].now + lag)
    && (forall i, j :: 0 <= i <= j < |log| ==> log[i].clock <= log[j].clock)
  }

  /** A call at `clock` for a request at `now`, after the calls of the log. */
  ghost predicate After(log: seq<Added>, lag: nat, now: Time, clock: Time) {
    now <= clock <= now + lag && forall i :: 0 <= i < |log| ==> log[i].clock <= clock
  }

  ghost function Expected(log: seq<Added>, uniqId: string, now: Time): Option<int> {
    if Any(log, uniqId, MinuteOf(now)) then Some(SumIn(log, uniqId, MinuteOf(now))) else None
  }

  lemma {:induction false} AnyMore(log: seq<Added>, uniqId: string, minute: nat)
    requires log != []
    ensures Any(log, uniqId, minute) <==> Any(log[..|log| - 1], uniqId, minute) || IsIn(log[|log| - 1], uniqId, minute)
  {
    var n := |log| - 1;
    if Any(log[..n], uniqId, minute) {
      var i :| 0 <= i < n && IsIn(log[..n][i], uniqId, minute);
      assert IsIn(log[i], uniqId, minute);
    }
    if Any(log, uniqId, minute) {
      var i :| 0 <= i < |log| && IsIn(log[i], uniqId, minute);
      assert i < n ==> IsIn(log[..n][i], uniqId, minute);
    }
  }

  lemma {:induction false} NothingSummed(log: seq<Added>, uniqId: string, minute: nat)
    requires !Any(log, uniqId, minute)
    ensures SumIn(log, uniqId, minute) == 0
  {
    if log != [] {
      AnyMore(log, uniqId, minute);
      NothingSummed(log[..|log| - 1], uniqId, minute);
    }
  }

  /** Requests an hour or more apart share a key; the entry of the earlier one is gone by then. */
  lemma {:induction false} EarlierHour(a: Added, lag: nat, now: Time, clock: Time)
    requires lag <= MINUTE && a.now <= a.clock <= a.now + lag && now <= clock <= now + lag && a.clock <= clock
    requires MinuteOfHour(a.now) == MinuteOfHour(now) && MinuteOf(a.now) != MinuteOf(now)
    ensures a.clock + 2 * MINUTE <= clock && a.clock < MinuteOf(now) * MINUTE
  {
  }

  /** Within a minute no entry expires. */
  lemma {:induction false} SameMinute(a: Added, lag: nat, now: Time, clock: Time)
    requires lag <= MINUTE && a.now <= a.clock && clock <= now + lag && MinuteOf(a.now) == MinuteOf(now)
    ensures clock < a.clock + 2 * MINUTE
  {
  }

  lemma {:induction false} NoneBefore(log: seq<Added>, lag: nat, uniqId: string, minute: nat, clock: Time)
    requires Timely(log, lag) && (forall i :: 0 <= i < |log| ==> log[i].clock <= clock) && clock < minute * MINUTE
    ensures !Any(log, uniqId, minute)
  {
    forall i | 0 <= i < |log| ensures !IsIn(log[i], uniqId, minute) {
      assert log[i].now <= log[i].clock < minute * MINUTE;
    }
  }

  lemma {:induction false} TimelyPrefix(log: seq<Added>, lag: nat)
    requires Timely(log, lag) && log != []
    ensures Timely(log[..|log| - 1], lag)
    ensures var a := log[|log| - 1]; After(log[..|log| - 1], lag, a.now, a.clock)
  {
  }

  lemma {:induction false} LastInMinute(log: seq<Added>, uniqId: string, now: Time, clock: Time)
    requires log != [] && IsIn(log[|log| - 1], uniqId, MinuteOf(now)) && clock < log[|log| - 1].clock + 2 * MINUTE
    requires var a := log[|log| - 1];
             && Key(a.uniqId, a.now) == Key(uniqId, now)
             && Get(StoreOf(log[..|log| - 1]), Key(uniqId, now), a.clock) == Expected(log[..|log| - 1], uniqId, now)
    ensures Get(StoreOf(log), Key(uniqId, now), clock) == Expected(log, uniqId, now)
  {
    var n := |log| - 1;
    AnyMore(log, uniqId, MinuteOf(now));
    if !Any(log[..n], uniqId, MinuteOf(now)) { NothingSummed(log[..n], uniqId, MinuteOf(now)); }
  }

  lemma {:induction false} OtherHour(log: seq<Added>, lag: nat, uniqId: string, now: Time, clock: Time)
    requires lag <= MINUTE && log != [] && Timely(log, lag) && After(log, lag, now, clock)
    requires var a := log[|log| - 1]; Key(a.uniqId, a.now) == Key(uniqId, now) && MinuteOf(a.now) != MinuteOf(now)
    requires MinuteOfHour(log[|log| - 1].now) == MinuteOfHour(now)
    ensures Get(StoreOf(log), Key(uniqId, now), clock) == Expected(log, uniqId, now)
  {
    var n := |log| - 1;
    EarlierHour(log[n], lag, now, clock);
    TimelyPrefix(log, lag);
    NoneBefore(log[..n], lag, uniqId, MinuteOf(now), log[n].clock);
    AnyMore(log, uniqId, MinuteOf(now));
  }

  lemma {:induction false} OtherKey(log: seq<Added>, uniqId: string, now: Time, clock: Time)
    requires log != [] && Key(log[|log| - 1].uniqId, log[|log| - 1].now) != Key(uniqId, now)
    requires Get(StoreOf(log[..|log| - 1]), Key(uniqId, now), clock) == Expected(log[..|log| - 1], uniqId, now)
    ensures Get(StoreOf(log), Key(uniqId, now), clock) == Expected(log, uniqId, now)
  {
    var a := log[|log| - 1];
    assert !(a.uniqId == uniqId && MinuteOf(a.now) == MinuteOf(now));
    AnyMore(log, uniqId, MinuteOf(now));
  }

  /** With calls at most a minute behind their requests, a counter holds the sum of the request's own minute. */
  lemma {:induction false} CounterIsSum(log: seq<Added>, lag: nat, uniqId: string, now: Time, clock: Time)
    requires lag <= MINUTE && Timely(log, lag) && After(log, lag, now, clock)
    ensures Get(StoreOf(log), Key(uniqId, now), clock) == Expected(log, uniqId, now)
    decreases |log|
  {
    if log != [] {
      var n := |log| - 1;
      var a := log[n];
      TimelyPrefix(log, lag);
      if Key(a.uniqId, a.now) != Key(uniqId, now) {
        CounterIsSum(log[..n], lag, uniqId, now, clock);
        OtherKey(log, uniqId, now, clock);
      } else {
        KeyInjective(a.uniqId, uniqId, MinuteOfHour(a.now), MinuteOfHour(now));
        if MinuteOf(a.now) == MinuteOf(now) {
          CounterIsSum(log[..n], lag, uniqId, a.now, a.clock);
          SameMinute(a, lag, now, clock);
          LastInMinute(log, uniqId, now, clock);
        } else {
          OtherHour(log, lag, uniqId, now, clock);
        }
      }
    }
  }

  /** Whether the counters are right for every run with calls so far behind. */
  ghost predicate Exact(lag: nat) {
    forall log, uniqId, now, clock :: Timely(log, lag) && After(log, lag, now, clock) ==>
      Get(StoreOf(log), Key(uniqId, now), clock) == Expected(log, uniqId, now)
  }

  /** A minute is the most that calls may lag. */
  lemma {:induction false} ExactWithinMinute(lag: nat)
    ensures Exact(lag) <==> lag <= MINUTE
  {
    if lag <= MINUTE {
      forall log, uniqId, now, clock | Timely(log, lag) && After(log, lag, now, clock)
        ensures Get(StoreOf(log), Key(uniqId, now), clock) == Expected(log, uniqId, now)
      {
        CounterIsSum(log, lag, uniqId, now, clock);
      }
    } else {
      LateCallForgets(lag);
    }
  }

  lemma {:induction false} LateCallForgets(lag: nat)
    requires lag > MINUTE
    ensures !Exact(lag)
  {
    var a := Added("", 0, 1, 0);
    var now, clock := MINUTE - 1, 2 * MINUTE;
    assert [a][..0] == [] && IsIn([a][0], "", 0) && Any([a], "", 0);
    assert Key("", now) == Key("", 0);
    assert Timely([a], lag) && After([a], lag, now, clock);
    assert Get(StoreOf([a]), Key("", now), clock) == None;
    assert Expected([a], "", now) != None;
  }

  // ---------- Admission ----------

  /** A request that may add a click to an ad. */
  datatype Request = Request(uniqId: string, country: string, manual: int, now: Time)

  /**
   What one controller sees. A request may load the controller anew between its check and its click
   (src/retrieval/fuyu.go:259, src/retrieval/retrieval.go:313): if it was replaced between, the
   request gives up at the one and arrives at the other.
   */
  datatype Step = Check(r: Request, clock: Time) | Finish(i: nat, clock: Time) | GiveUp(i: nat) | Arrive(r: Request)

  /** The clicks added, the admitted requests that are under way, and the time. */
  datatype State = State(log: seq<Added>, flying: seq<Request>, clock: Time) {
    function Counter(r: Request, at: Time): Option<int> { Get(StoreOf(log), Key(r.uniqId, r.now), at) }
  }

  datatype Controller = Controller(pacing: int, nInstances: int) {
    predicate Admits(s: State, r: Request, clock: Time)
      requires nInstances > 0
    {
      !Over(s.Counter(r, clock), Limit(r))
    }

    function Limit(r: Request): int
      requires nInstances > 0
    {
      Threshold(pacing, nInstances, r.country, r.manual)
    }
  }

  function Without<T>(s: seq<T>, i: nat): seq<T>
    requires i < |s|
  {
    s[..i] + s[i + 1..]
  }

  /** A check admits or refuses; an admitted request, or one that arrives, adds its click or gives up. */
  function Next(c: Controller, s: State, step: Step): State
    requires c.nInstances > 0
  {
    match step
    case Check(r, clock) =>
      if c.Admits(s, r, clock) then State(s.log, s.flying + [r], clock) else s.(clock := clock)
    case Finish(i, clock) =>
      if i >= |s.flying| then s else
      var r := s.flying[i];
      State(s.log + [Added(r.uniqId, r.now, 1, clock)], Without(s.flying, i), clock)
    case GiveUp(i) =>
      if i >= |s.flying| then s else s.(flying := Without(s.flying, i))
    case Arrive(r) => s.(flying := s.flying + [r])
  }

  /** The clock goes forward and no call lags more than a minute. */
  predicate Possible(s: State, step: Step) {
    match step
    case Check(r, clock) => s.clock <= clock && r.now <= clock <= r.now + MINUTE
    case Finish(i, clock) => i < |s.flying| && s.clock <= clock && s.flying[i].now <= clock <= s.flying[i].now + MINUTE
    case GiveUp(i) => i < |s.flying|
    case Arrive(r) => true
  }

  function Run(c: Controller, steps: seq<Step>): State
    requires c.nInstances > 0
  {
    if steps == [] then State([], [], 0) else Next(c, Run(c, steps[..|steps| - 1]), steps[|steps| - 1])
  }

  /** Never more than `k` requests are under way for the same ad and minute. */
  ghost predicate Few(s: State, k: nat) {
    forall uniqId, minute :: Flying(s.flying, uniqId, minute) <= k
  }

  /** Every step was possible, and there were never more requests under way. */
  ghost predicate Legal(c: Controller, steps: seq<Step>, k: nat)
    requires c.nInstances > 0
  {
    steps != [] ==>
      && Legal(c, steps[..|steps| - 1], k) && Possible(Run(c, steps[..|steps| - 1]), steps[|steps| - 1])
      && Few(Run(c, steps), k)
  }

  /** The requests under way for an ad and a minute. */
  function Flying(rs: seq<Request>, uniqId: string, minute: nat): (n: nat)
    ensures n <= |rs|
  {
    if rs == [] then 0 else
    var r := rs[|rs| - 1];
    Flying(rs[..|rs| - 1], uniqId, minute) + if r.uniqId == uniqId && MinuteOf(r.now) == minute then 1 else 0
  }

  lemma {:induction false} FlyingWithout(rs: seq<Request>, i: nat, uniqId: string, minute: nat)
    requires i < |rs|
    ensures Flying(rs, uniqId, minute) == Flying(Without(rs, i), uniqId, minute) +
            if rs[i].uniqId == uniqId && MinuteOf(rs[i].now) == minute then 1 else 0
  {
    var n := |rs| - 1;
    if i == n {
      assert Without(rs, i) == rs[..n];
    } else {
      FlyingWithout(rs[..n], i, uniqId, minute);
      assert Without(rs, i) == Without(rs[..n], i) + [rs[n]];
      assert Without(rs, i)[..n - 1] == Without(rs[..n], i);
    }
  }

  /** The thresholds of the requests for an ad. */
  ghost predicate Below(c: Controller, steps: seq<Step>, uniqId: string, limit: int)
    requires c.nInstances > 0
  {
    forall j :: 0 <= j < |steps| && steps[j].Check? && steps[j].r.uniqId == uniqId ==> c.Limit(steps[j].r) <= limit
  }

  /** The requests for an ad and a minute that arrived from another controller. */
  function Arrived(steps: seq<Step>, uniqId: string, minute: nat): nat {
    if steps == [] then 0 else
    var step := steps[|steps| - 1];
    Arrived(steps[..|steps| - 1], uniqId, minute)
    + if step.Arrive? && step.r.uniqId == uniqId && MinuteOf(step.r.now) == minute then 1 else 0
  }

  ghost predicate Bounded(s: State, steps: seq<Step>, uniqId: string, k: nat, limit: nat) {
    forall minute ::
      SumIn(s.log, uniqId, minute) + Flying(s.flying, uniqId, minute) <= limit + k + Arrived(steps, uniqId, minute)
  }

  ghost predicate Ticking(s: State) {
    Timely(s.log, MINUTE) && forall i :: 0 <= i < |s.log| ==> s.log[i].clock <= s.clock
  }

  lemma {:induction false} NextTicks(c: Controller, s: State, step: Step)
    requires c.nInstances > 0 && Ticking(s) && Possible(s, step)
    ensures Ticking(Next(c, s, step))
  {
  }

  lemma {:induction false} CheckBounded(c: Controller, s: State, steps: seq<Step>, r: Request, clock: Time,
                                        uniqId: string, k: nat, limit: nat)
    requires c.nInstances > 0 && Ticking(s) && Possible(s, Check(r, clock)) && Bounded(s, steps, uniqId, k, limit)
    requires (r.uniqId == uniqId ==> c.Limit(r) <= limit) && Few(Next(c, s, Check(r, clock)), k)
    ensures Bounded(Next(c, s, Check(r, clock)), steps, uniqId, k, limit)
  {
    if c.Admits(s, r, clock) {
      CounterIsSum(s.log, MINUTE, r.uniqId, r.now, clock);
      if !Any(s.log, r.uniqId, MinuteOf(r.now)) { NothingSummed(s.log, r.uniqId, MinuteOf(r.now)); }
      assert r.uniqId == uniqId ==> SumIn(s.log, uniqId, MinuteOf(r.now)) <= limit;
      var fs := s.flying + [r];
      forall minute
        ensures SumIn(s.log, uniqId, minute) + Flying(fs, uniqId, minute) <= limit + k + Arrived(steps, uniqId, minute)
      {
        assert fs[..|s.flying|] == s.flying;
      }
    }
  }

  lemma {:induction false} FinishBounded(c: Controller, s: State, steps: seq<Step>, step: Step, uniqId: string,
                                         k: nat, limit: nat)
    requires c.nInstances > 0 && Bounded(s, steps, uniqId, k, limit) && (step.Finish? || step.GiveUp?)
    ensures Bounded(Next(c, s, step), steps, uniqId, k, limit)
  {
    if step.i < |s.flying| {
      var s' := Next(c, s, step);
      forall minute
        ensures SumIn(s'.log, uniqId, minute) + Flying(s'.flying, uniqId, minute)
                <= limit + k + Arrived(steps, uniqId, minute)
      {
        FlyingWithout(s.flying, step.i, uniqId, minute);
        assert step.Finish? ==> s'.log[..|s.log|] == s.log;
      }
    }
  }

  lemma {:induction false} ArriveBounded(s: State, steps: seq<Step>, r: Request, uniqId: string, k: nat, limit: nat)
    requires Bounded(s, steps, uniqId, k, limit)
    ensures Bounded(s.(flying := s.flying + [r]), steps + [Arrive(r)], uniqId, k, limit)
  {
    var fs, steps' := s.flying + [r], steps + [Arrive(r)];
    forall minute
      ensures SumIn(s.log, uniqId, minute) + Flying(fs, uniqId, minute) <= limit + k + Arrived(steps', uniqId, minute)
    {
      assert fs[..|s.flying|] == s.flying && steps'[..|steps|] == steps;
    }
  }

  lemma {:induction false} NoneArrives(s: State, steps: seq<Step>, step: Step, uniqId: string, k: nat, limit: nat)
    requires Bounded(s, steps, uniqId, k, limit) && !step.Arrive?
    ensures Bounded(s, steps + [step], uniqId, k, limit)
  {
    assert (steps + [step])[..|steps|] == steps;
    forall minute
      ensures SumIn(s.log, uniqId, minute) + Flying(s.flying, uniqId, minute)
              <= limit + k + Arrived(steps + [step], uniqId, minute)
    {
    }
  }

  lemma {:induction false} NextBounded(c: Controller, s: State, steps: seq<Step>, step: Step, uniqId: string, k: nat,
                                       limit: nat)
    requires c.nInstances > 0 && Ticking(s) && Possible(s, step) && Bounded(s, steps, uniqId, k, limit)
    requires step.Check? && step.r.uniqId == uniqId ==> c.Limit(step.r) <= limit
    requires Few(Next(c, s, step), k)
    ensures Bounded(Next(c, s, step), steps + [step], uniqId, k, limit)
  {
    if step.Arrive? {
      ArriveBounded(s, steps, step.r, uniqId, k, limit);
    } else {
      if step.Check? {
        CheckBounded(c, s, steps, step.r, step.clock, uniqId, k, limit);
      } else {
        FinishBounded(c, s, steps, step, uniqId, k, limit);
      }
      NoneArrives(Next(c, s, step), steps, step, uniqId, k, limit);
    }
  }

  /** In every run an ad gets at most its threshold, `k` clicks more and those arriving, in any minute. */
  lemma {:induction false} ClicksAreBounded(c: Controller, steps: seq<Step>, uniqId: string, k: nat, limit: nat)
    requires c.nInstances > 0 && Legal(c, steps, k) && Below(c, steps, uniqId, limit)
    ensures Ticking(Run(c, steps)) && Bounded(Run(c, steps), steps, uniqId, k, limit)
  {
    RunTicks(c, steps, k);
    if steps != [] {
      var n := |steps| - 1;
      ClicksAreBounded(c, steps[..n], uniqId, k, limit);
      var s, step := Run(c, steps[..n]), steps[n];
      NextBounded(c, s, steps[..n], step, uniqId, k, limit);
      assert steps == steps[..n] + [step];
    }
  }

  /**
   In every run a request is admitted exactly when its ad got no click in the minute of the request
   at this controller, or when the number of those does not exceed what the request allows.
   */
  lemma {:induction false} AdmitsExactly(c: Controller, steps: seq<Step>, k: nat, r: Request, clock: Time)
    requires c.nInstances > 0 && Legal(c, steps, k) && Possible(Run(c, steps), Check(r, clock))
    ensures var s := Run(c, steps);
            var n := SumIn(s.log, r.uniqId, r.now / 60_000_000_000);
            Next(c, s, Check(r, clock)) ==
              if Any(s.log, r.uniqId, r.now / 60_000_000_000) && Exceeds(n, c.pacing, c.nInstances, r.country, r.manual)
              then State(s.log, s.flying, clock)
              else State(s.log, s.flying + [r], clock)
  {
    var s := Run(c, steps);
    RunTicks(c, steps, k);
    CounterIsSum(s.log, MINUTE, r.uniqId, r.now, clock);
    ThresholdIs(SumIn(s.log, r.uniqId, MinuteOf(r.now)), c.pacing, c.nInstances, r.country, r.manual);
  }

  lemma {:induction false} RunTicks(c: Controller, steps: seq<Step>, k: nat)
    requires c.nInstances > 0 && Legal(c, steps, k)
    ensures Ticking(Run(c, steps))
  {
    if steps != [] {
      var n := |steps| - 1;
      RunTicks(c, steps[..n], k);
      NextTicks(c, Run(c, steps[..n]), steps[n]);
    }
  }

  // ---------- The fleet ----------

  /** The clicks of an ad in a minute, over all controllers. */
  ghost function Clicks(c: Controller, runs: seq<seq<Step>>, uniqId: string, minute: nat): int
    requires c.nInstances > 0
  {
    if runs == [] then 0 else
    Clicks(c, runs[..|runs| - 1], uniqId, minute) + SumIn(Run(c, runs[|runs| - 1]).log, uniqId, minute)
  }

  /** The requests that changed controllers before their click. */
  ghost function Changed(runs: seq<seq<Step>>, uniqId: string, minute: nat): nat {
    if runs == [] then 0 else
    Changed(runs[..|runs| - 1], uniqId, minute) + Arrived(runs[|runs| - 1], uniqId, minute)
  }

  ghost predicate AllLegal(c: Controller, runs: seq<seq<Step>>, k: nat, uniqId: string, limit: int)
    requires c.nInstances > 0
  {
    forall j :: 0 <= j < |runs| ==> Legal(c, runs[j], k) && Below(c, runs[j], uniqId, limit)
  }

  lemma {:induction false} EachController(c: Controller, runs: seq<seq<Step>>, uniqId: string, k: nat, limit: nat,
                                          minute: nat)
    requires c.nInstances > 0 && AllLegal(c, runs, k, uniqId, limit)
    ensures Clicks(c, runs, uniqId, minute) <= |runs| * (limit + k) + Changed(runs, uniqId, minute)
  {
    if runs != [] {
      var n := |runs| - 1;
      EachController(c, runs[..n], uniqId, k, limit, minute);
      OneController(c, runs[n], uniqId, k, limit, minute);
      OneMore(n, limit + k);
    }
  }

  lemma {:induction false} OneController(c: Controller, steps: seq<Step>, uniqId: string, k: nat, limit: nat,
                                         minute: nat)
    requires c.nInstances > 0 && Legal(c, steps, k) && Below(c, steps, uniqId, limit)
    ensures SumIn(Run(c, steps).log, uniqId, minute) <= limit + k + Arrived(steps, uniqId, minute)
  {
    ClicksAreBounded(c, steps, uniqId, k, limit);
    assert Bounded(Run(c, steps), steps, uniqId, k, limit);
  }

  lemma {:induction false} OneMore(n: nat, b: nat)
    ensures (n + 1) * b == n * b + b
  {
  }

  /** How the requests for an ad are limited: by the share of the whole, double in CN, or by the ad's own setting. */
  datatype Regime = Shared(cn: bool) | Own(manual: nat) {
    ghost predicate Governs(steps: seq<Step>, uniqId: string) {
      forall j :: 0 <= j < |steps| && steps[j].Check? && steps[j].r.uniqId == uniqId ==>
        match this
        case Shared(cn) => steps[j].r.manual == -1 && (steps[j].r.country == "CN" ==> cn)
        case Own(manual) => steps[j].r.manual == manual
    }

    function Whole(): nat {
      match this
      case Shared(cn) => if cn then 2 * 700 else 700
      case Own(manual) => manual
    }

    /** The threshold of one of n instances. */
    function Part(n: nat): nat
      requires n > 0
    {
      match this
      case Shared(cn) => if cn then 2 * (700 / n) else 700 / n
      case Own(manual) => manual / n
    }
  }

  lemma {:induction false} RegimeIsBelow(n: nat, steps: seq<Step>, regime: Regime, uniqId: string)
    requires n > 0 && regime.Governs(steps, uniqId)
    ensures Below(Controller(Div(700, n), n), steps, uniqId, regime.Part(n))
  {
  }

  /** The parts of all instances are together not more than the whole. */
  lemma {:induction false} PartsFit(n: nat, whole: nat)
    requires n > 0
    ensures n * (whole / n) <= whole
  {
    assert whole == n * (whole / n) + whole % n;
  }

  lemma {:induction false} Twice(n: nat, a: nat)
    ensures n * (2 * a) == 2 * (n * a)
  {
  }

  lemma {:induction false} RegimeFits(n: nat, regime: Regime)
    requires n > 0
    ensures n * regime.Part(n) <= regime.Whole()
  {
    PartsFit(n, 700);
    Twice(n, 700 / n);
    if regime.Own? { PartsFit(n, regime.manual); }
  }

  lemma {:induction false} Distribute(n: nat, a: nat, k: nat)
    ensures n * (a + k) == n * a + n * k
  {
  }

  lemma {:induction false} Regroup(n: nat, per: nat, part: nat, whole: nat)
    requires n * part <= whole
    ensures n * per * part <= per * whole
  {
    assert n * per * part == per * (n * part);
  }

  /**
   When every one of n instances knows of the n and uses `per` controllers within a minute, an ad gets
   in it at most `per` times its whole, the requests under way, and those that changed controllers. The
   whole is 700, twice that with requests from CN, or its own setting.
   */
  lemma {:induction false} FleetIsBounded(n: nat, per: nat, runs: seq<seq<Step>>, k: nat, regime: Regime,
                                          uniqId: string, minute: nat)
    requires n > 0 && |runs| == n * per
    requires var c := Controller(Div(700, n), n);
             forall j :: 0 <= j < |runs| ==> Legal(c, runs[j], k) && regime.Governs(runs[j], uniqId)
    ensures var c := Controller(Div(700, n), n);
            Clicks(c, runs, uniqId, minute) <= per * regime.Whole() + |runs| * k + Changed(runs, uniqId, minute)
  {
    var c := Controller(Div(700, n), n);
    forall j | 0 <= j < |runs| ensures Below(c, runs[j], uniqId, regime.Part(n)) {
      RegimeIsBelow(n, runs[j], regime, uniqId);
    }
    EachController(c, runs, uniqId, k, regime.Part(n), minute);
    Distribute(|runs|, regime.Part(n), k);
    RegimeFits(n, regime);
    Regroup(n, per, regime.Part(n), regime.Whole());
  }

  // ---------- When the fleet keeps to its whole ----------

  /** Whatever `m` controllers of the same share do, an ad gets no more than `whole` and the requests under way. */
  ghost predicate Keeps(c: Controller, m: nat, k: nat, whole: nat)
    requires c.nInstances > 0
  {
    forall runs, uniqId, minute :: |runs| == m && AllLegal(c, runs, k, uniqId, c.pacing) ==>
      Clicks(c, runs, uniqId, minute) <= whole + m * k + Changed(runs, uniqId, minute)
  }

  const AD := Request("", "", -1, 0)

  function Marks(a: nat): seq<Added> {
    if a == 0 then [] else Marks(a - 1) + [Added("", 0, 1, 0)]
  }

  function Flights(b: nat): (rs: seq<Request>)
    ensures |rs| == b
  {
    if b == 0 then [] else Flights(b - 1) + [AD]
  }

  /** The run is legal, has added `a` clicks and has `b` requests under way, all at the start of the first minute. */
  ghost predicate Reaches(c: Controller, steps: seq<Step>, k: nat, a: nat, b: nat)
    requires c.nInstances > 0
  {
    && Legal(c, steps, k) && Run(c, steps) == State(Marks(a), Flights(b), 0)
    && Below(c, steps, "", c.pacing) && Arrived(steps, "", 0) == 0
  }

  lemma {:induction false} MarksAre(a: nat)
    ensures |Marks(a)| == a && forall i :: 0 <= i < a ==> Marks(a)[i] == Added("", 0, 1, 0)
  {
    if a > 0 { MarksAre(a - 1); }
  }

  lemma {:induction false} MarksSum(a: nat)
    ensures SumIn(Marks(a), "", 0) == a
  {
    if a > 0 {
      MarksSum(a - 1);
      assert Marks(a)[..|Marks(a)| - 1] == Marks(a - 1);
    }
  }

  lemma {:induction false} MarksCount(c: Controller, a: nat, b: nat)
    requires c.nInstances > 0 && a <= c.pacing
    ensures c.Admits(State(Marks(a), Flights(b), 0), AD, 0)
  {
    MarksAre(a);
    MarksSum(a);
    CounterIsSum(Marks(a), MINUTE, "", 0, 0);
  }

  lemma {:induction false} Extend(c: Controller, steps: seq<Step>, step: Step, k: nat)
    requires c.nInstances > 0 && Legal(c, steps, k) && Possible(Run(c, steps), step) && !step.Arrive?
    requires Few(Next(c, Run(c, steps), step), k) && Below(c, steps, "", c.pacing) && Arrived(steps, "", 0) == 0
    requires step.Check? ==> step.r == AD
    ensures Legal(c, steps + [step], k) && Run(c, steps + [step]) == Next(c, Run(c, steps), step)
    ensures Below(c, steps + [step], "", c.pacing) && Arrived(steps + [step], "", 0) == 0
  {
    assert (steps + [step])[..|steps|] == steps;
  }

  lemma {:induction false} Enter(c: Controller, steps: seq<Step>, k: nat, a: nat, b: nat) returns (more: seq<Step>)
    requires c.nInstances > 0 && Reaches(c, steps, k, a, b) && a <= c.pacing && b < k
    ensures Reaches(c, more, k, a, b + 1)
  {
    MarksCount(c, a, b);
    Extend(c, steps, Check(AD, 0), k);
    more := steps + [Check(AD, 0)];
  }

  lemma {:induction false} Leave(c: Controller, steps: seq<Step>, k: nat, a: nat, b: nat) returns (more: seq<Step>)
    requires c.nInstances > 0 && Reaches(c, steps, k, a, b + 1) && b < k
    ensures Reaches(c, more, k, a + 1, b)
  {
    assert Without(Flights(b + 1), b) == Flights(b);
    Extend(c, steps, Finish(b, 0), k);
    more := steps + [Finish(b, 0)];
  }

  lemma {:induction false} StartReaches(c: Controller, k: nat)
    requires c.nInstances > 0
    ensures Reaches(c, [], k, 0, 0)
  {
  }

  /** One request comes and goes. */
  lemma {:induction false} OneClick(c: Controller, before: seq<Step>, k: nat, a: nat) returns (steps: seq<Step>)
    requires c.nInstances > 0 && k > 0 && a <= c.pacing && Reaches(c, before, k, a, 0)
    ensures Reaches(c, steps, k, a + 1, 0)
  {
    var inside := Enter(c, before, k, a, 0);
    steps := Leave(c, inside, k, a, 0);
  }

  /** One after the other the requests use up the share. */
  lemma {:induction false} UseUp(c: Controller, k: nat, a: nat) returns (steps: seq<Step>)
    requires c.nInstances > 0 && k > 0 && a <= c.pacing
    ensures Reaches(c, steps, k, a, 0)
  {
    if a == 0 {
      steps := [];
      StartReaches(c, k);
    } else {
      var before := UseUp(c, k, a - 1);
      steps := OneClick(c, before, k, a - 1);
    }
  }

  /** And then `b` are admitted at once. */
  lemma {:induction false} Crowd(c: Controller, k: nat, b: nat) returns (steps: seq<Step>)
    requires c.nInstances > 0 && 0 < k && b <= k && c.pacing >= 0
    ensures Reaches(c, steps, k, c.pacing, b)
  {
    if b == 0 {
      steps := UseUp(c, k, c.pacing);
    } else {
      steps := Crowd(c, k, b - 1);
      steps := Enter(c, steps, k, c.pacing, b - 1);
    }
  }

  /** Then each of them adds its click. */
  lemma {:induction false} AllLeave(c: Controller, steps: seq<Step>, k: nat, a: nat, b: nat)
    returns (more: seq<Step>, n: nat)
    requires c.nInstances > 0 && b <= k && Reaches(c, steps, k, a, b)
    ensures n == a + b && Reaches(c, more, k, n, 0)
    decreases b
  {
    if b == 0 {
      more, n := steps, a;
    } else {
      var next := Leave(c, steps, k, a, b - 1);
      more, n := AllLeave(c, next, k, a + 1, b - 1);
    }
  }

  lemma {:induction false} Overshoot(c: Controller, k: nat, n: nat) returns (steps: seq<Step>)
    requires c.nInstances > 0 && 0 < k && c.pacing >= 0 && n == c.pacing + k
    ensures Reaches(c, steps, k, n, 0)
  {
    var full := Crowd(c, k, k);
    var last;
    steps, last := AllLeave(c, full, k, c.pacing, k);
  }

  function Repeat(steps: seq<Step>, m: nat): (runs: seq<seq<Step>>)
    ensures |runs| == m && forall j :: 0 <= j < m ==> runs[j] == steps
  {
    if m == 0 then [] else Repeat(steps, m - 1) + [steps]
  }

  lemma {:induction false} OneRunMore(c: Controller, runs: seq<seq<Step>>, steps: seq<Step>)
    requires c.nInstances > 0
    ensures Clicks(c, runs + [steps], "", 0) == Clicks(c, runs, "", 0) + SumIn(Run(c, steps).log, "", 0)
    ensures Changed(runs + [steps], "", 0) == Changed(runs, "", 0) + Arrived(steps, "", 0)
  {
    assert (runs + [steps])[..|runs|] == runs;
  }

  lemma {:induction false} RepeatedClicks(c: Controller, steps: seq<Step>, m: nat, sum: nat)
    requires c.nInstances > 0 && Arrived(steps, "", 0) == 0 && SumIn(Run(c, steps).log, "", 0) == sum
    ensures Clicks(c, Repeat(steps, m), "", 0) == m * sum && Changed(Repeat(steps, m), "", 0) == 0
  {
    if m > 0 {
      RepeatedClicks(c, steps, m - 1, sum);
      OneRunMore(c, Repeat(steps, m - 1), steps);
      OneMore(m - 1, sum);
    }
  }

  lemma {:induction false} AllOvershoot(c: Controller, steps: seq<Step>, k: nat, m: nat, n: nat)
    requires c.nInstances > 0 && Reaches(c, steps, k, n, 0)
    ensures Clicks(c, Repeat(steps, m), "", 0) == m * n && Changed(Repeat(steps, m), "", 0) == 0
    ensures AllLegal(c, Repeat(steps, m), k, "", c.pacing)
  {
    RepeatedLegal(c, steps, k, m);
    MarksSum(n);
    RepeatedClicks(c, steps, m, n);
  }

  lemma {:induction false} RepeatedLegal(c: Controller, steps: seq<Step>, k: nat, m: nat)
    requires c.nInstances > 0 && Legal(c, steps, k) && Below(c, steps, "", c.pacing)
    ensures AllLegal(c, Repeat(steps, m), k, "", c.pacing)
  {
  }

  lemma {:induction false} SomeExceed(c: Controller, m: nat, k: nat, whole: nat)
    requires c.nInstances > 0 && c.pacing >= 0 && k > 0 && m * c.pacing > whole
    ensures !Keeps(c, m, k, whole)
  {
    Distribute(m, c.pacing, k);
    var runs := ManyOvershoot(c, k, m, c.pacing + k);
    NotKept(c, runs, k, whole);
  }

  lemma {:induction false} ManyOvershoot(c: Controller, k: nat, m: nat, n: nat) returns (runs: seq<seq<Step>>)
    requires c.nInstances > 0 && c.pacing >= 0 && k > 0 && n == c.pacing + k
    ensures |runs| == m && Clicks(c, runs, "", 0) == m * n && Changed(runs, "", 0) == 0
    ensures AllLegal(c, runs, k, "", c.pacing)
  {
    var steps := Overshoot(c, k, n);
    AllOvershoot(c, steps, k, m, n);
    runs := Repeat(steps, m);
  }

  lemma {:induction false} NotKept(c: Controller, runs: seq<seq<Step>>, k: nat, whole: nat)
    requires c.nInstances > 0 && AllLegal(c, runs, k, "", c.pacing)
    requires Clicks(c, runs, "", 0) > whole + |runs| * k + Changed(runs, "", 0)
    ensures !Keeps(c, |runs|, k, whole)
  {
  }

  /** They keep to it if and only if their shares together are not more. */
  lemma {:induction false} KeepsExactly(c: Controller, m: nat, k: nat, whole: nat)
    requires c.nInstances > 0 && c.pacing >= 0 && k > 0
    ensures Keeps(c, m, k, whole) <==> m * c.pacing <= whole
  {
    if m * c.pacing <= whole {
      forall runs, uniqId, minute | |runs| == m && AllLegal(c, runs, k, uniqId, c.pacing)
        ensures Clicks(c, runs, uniqId, minute) <= whole + m * k + Changed(runs, uniqId, minute)
      {
        EachController(c, runs, uniqId, k, c.pacing, minute);
        Distribute(m, c.pacing, k);
      }
    } else {
      SomeExceed(c, m, k, whole);
    }
  }

  /**
   With shares of 700 by n instances, and so many controllers of each within a minute (two in service,
   four when they are replaced), an ad keeps to its 700 only with one controller each, or with so many
   instances that the share is nothing.
   */
  lemma {:induction false} SharesKeep(n: nat, per: nat, k: nat)
    requires n > 0 && per > 0 && k > 0
    ensures Keeps(Controller(Div(700, n), n), n * per, k, 700)
            <==> per == 1 || n > 700
  {
    var share := 700 / n;
    KeepsExactly(Controller(share, n), n * per, k, 700);
    PartsFit(n, 700);
    ShareIsLarge(n);
    assert n * per * share == per * (n * share);
    if per > 1 { TwiceAtLeast(per, n * share); }
  }

  lemma {:induction false} ShareIsLarge(n: nat)
    requires n > 0
    ensures n <= 700 ==> 2 * (n * (700 / n)) > 700
    ensures n > 700 ==> 700 / n == 0
  {
    var q := 700 / n;
    assert 700 == n * q + 700 % n;
    if n <= 700 {
      assert q >= 1;
      TwiceAtLeast(q, n);
    }
  }

  lemma {:induction false} TwiceAtLeast(a: nat, b: nat)
    ensures a >= 1 ==> b * a >= b
    ensures a >= 2 ==> a * b >= 2 * b
  {
  }

  /** After a failure of the scaling service only a single controller keeps to the 700. */
  lemma {:induction false} FailureKeeps(m: nat, k: nat)
    requires k > 0
    ensures Keeps(Controller(700, 20), m, k, 700) <==> m <= 1
  {
    KeepsExactly(Controller(700, 20), m, k, 700);
  }
}
