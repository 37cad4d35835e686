/**
 How long the consumer of S2sServe.dfy can leave a due item waiting. It looks at the last slot,
 which need not hold the item due first; but no item is ever due more than fifteen seconds ahead.
 */
module S2sWaiting {
  import opened GoHeap
  import opened Options
  import opened S2sHeap
  import opened S2sServe

  // ---------- When it sleeps past a due item ----------

  predicate Due(x: CbItem, now: int) { x.launchTime < now }

  lemma {:induction false} RootDueFirst(h: seq<CbItem>, now: int)
    requires CbHeap(h)
    ensures DueBefore(h, now) <==> h != [] && Due(h[0], now)
  {
    if DueBefore(h, now) {
      var x :| x in h && x.launchTime < now;
      var j :| 0 <= j < |h| && h[j] == x;
      RootIsLeast(LaunchTime, h, j);
    }
  }

  /** The consumer looks at a heap and goes back to sleep although it holds a due item. */
  ghost predicate SleepsPast(s: State, reply: bool)
    requires s.pc.Seen?
  {
    Consumer(s, reply).pc.Outer? && DueBefore(s.heap, s.clock)
  }

  /** It does so exactly when the item it saw in the last slot is not due and the root is. */
  lemma {:induction false} SleepsPastDue(run: seq<State>, k: nat, reply: bool)
    requires IsRun(run) && k < |run| && run[k].pc.Seen?
    ensures var s := run[k];
            SleepsPast(s, reply) <==> s.pc.item.launchTime > s.clock && s.heap != [] && Due(s.heap[0], s.clock)
  {
    RunKeepsInv(run, k);
    RootDueFirst(run[k].heap, run[k].clock);
  }

  // ---------- No item is far ahead ----------

  /** Every item is due within fifteen seconds from `clock`. */
  ghost predicate Within(all: multiset<CbItem>, clock: int) {
    forall x :: x in all ==> x.launchTime < clock + RETRY
  }

  lemma {:induction false} StepKeepsWithin(s: State, step: Step)
    requires Inv(s) && Enabled(s, step) && Within(s.All(), s.clock)
    ensures Within(Next(s, step).All(), Next(s, step).clock)
  {
    match step
    case Wait(t) => assert Next(s, step).All() == s.All();
    case Create => assert Next(s, step).All() == s.All() + multiset{NewCbItem(s.nextId, s.clock)};
    case Produce(item) => ProducerMoves(s, item);
    case Consume(reply) =>
      match s.pc {
        case Pop(_) => PopMoves(s, reply);
        case Push(_, _) => PushMoves(s, reply);
        case Call(_, _) => CallKeepsWithin(s, reply);
        case _ => LookMoves(s, reply);
      }
  }

  lemma {:induction false} CallKeepsWithin(s: State, reply: bool)
    requires Inv(s) && s.pc.Call? && Within(s.All(), s.clock)
    ensures Within(Consumer(s, reply).All(), s.clock)
  {
    var rest := multiset(s.heap) + s.born + s.delivered + s.dropped;
    CallMoves(s, reply);
    forall x | x in rest + multiset{s.pc.held.Called()} ensures x.launchTime < s.clock + RETRY {
      assert x in rest ==> x in rest + multiset{s.pc.held};
    }
  }

  lemma {:induction false} NextKeepsWithin(s: State, t: State)
    requires Inv(s) && CanStep(s, t) && Within(s.All(), s.clock)
    ensures Within(t.All(), t.clock)
  {
    var step :| Enabled(s, step) && t == Next(s, step);
    StepKeepsWithin(s, step);
  }

  /** In every run every item, wherever it is, is due within fifteen seconds. */
  lemma {:induction false} NeverFarAhead(run: seq<State>, k: nat)
    requires IsRun(run) && k < |run|
    ensures Within(run[k].All(), run[k].clock)
  {
    if k == 0 {
      var clock :| run[0] == Init(clock);
      NoneAtFirst(clock);
    } else {
      NeverFarAhead(run, k - 1);
      RunKeepsWithin(run, k - 1);
    }
  }

  lemma {:induction false} NoneAtFirst(clock: int)
    ensures Init(clock).All() == multiset{}
  {
  }

  lemma {:induction false} RunKeepsWithin(run: seq<State>, j: nat)
    requires IsRun(run) && j + 1 < |run| && Within(run[j].All(), run[j].clock)
    ensures Within(run[j + 1].All(), run[j + 1].clock)
  {
    var s, t := run[j], run[j + 1];
    assert CanStep(s, t);
    assert Inv(s) by { RunKeepsInv(run, j); }
    NextKeepsWithin(s, t);
  }

  // ---------- The sleep is bounded ----------

  predicate Asleep(pc: Pc) { pc.Outer? || pc.Seen? }

  /** The steps lead from `s` to `t`, and the consumer is asleep all the way. */
  ghost predicate SleepsThrough(s: State, steps: seq<Step>, t: State)
    decreases |steps|
  {
    && Asleep(s.pc)
    && if steps == [] then s == t else Enabled(s, steps[0]) && SleepsThrough(Next(s, steps[0]), steps[1..], t)
  }

  /** Since the time `t0` nothing was called: an item was here then, or was created since. */
  ghost predicate Since(s: State, t0: int) {
    t0 <= s.clock && forall x :: x in multiset(s.heap) + s.born ==> x.launchTime < t0 + RETRY || x.launchTime <= s.clock
  }

  lemma {:induction false} StepKeepsSince(s: State, step: Step, t0: int)
    requires CbHeap(s.heap) && Enabled(s, step) && Since(s, t0) && Asleep(s.pc)
    ensures Since(Next(s, step), t0)
  {
    match step
    case Create =>
      var item := NewCbItem(s.nextId, s.clock);
      assert Next(s, step).born == s.born + multiset{item} && item.launchTime <= s.clock;
    case Produce(item) =>
      ProduceKeepsSince(s, item, t0);
    case _ =>
  }

  lemma {:induction false} ProduceKeepsSince(s: State, item: CbItem, t0: int)
    requires CbHeap(s.heap) && item in s.born && Since(s, t0)
    ensures Since(Next(s, Produce(item)), t0)
  {
    PushItemKeeps(s.heap, item);
    PushedFromBorn(multiset(s.heap), s.born, item);
  }

  lemma {:induction false} PushedFromBorn(heap: multiset<CbItem>, born: multiset<CbItem>, item: CbItem)
    requires item in born
    ensures heap + multiset{item} + (born - multiset{item}) == heap + born
  {
  }

  lemma {:induction false} WithinIsSince(s: State)
    requires Within(s.All(), s.clock)
    ensures Since(s, s.clock)
  {
    assert forall x :: x in multiset(s.heap) + s.born ==> x in s.All();
  }

  lemma {:induction false} AsleepSince(s: State, steps: seq<Step>, t: State, t0: int)
    requires Inv(s) && Since(s, t0) && SleepsThrough(s, steps, t)
    ensures Inv(t) && Since(t, t0)
    decreases |steps|
  {
    if steps != [] {
      StepKeeps(s, steps[0]);
      StepKeepsSince(s, steps[0], t0);
      AsleepSince(Next(s, steps[0]), steps[1..], t, t0);
    }
  }

  /**
   A consumer that sleeps through fifteen seconds finds no slot that is not due, whatever was
   pushed meanwhile: it does not sleep again over a heap that is not empty.
   */
  lemma {:induction false} SleepIsBounded(run: seq<State>, k: nat, steps: seq<Step>, t: State, reply: bool)
    requires IsRun(run) && k < |run| && SleepsThrough(run[k], steps, t) && t.clock >= run[k].clock + RETRY
    ensures forall x :: x in t.heap ==> x.launchTime <= t.clock
    ensures t.pc.Seen? ==> Consumer(t, reply).pc.Test?
  {
    NeverFarAhead(run, k);
    WithinIsSince(run[k]);
    assert Inv(run[k]) by { RunKeepsInv(run, k); }
    SleptLong(run[k], steps, t, reply);
  }

  lemma {:induction false} SleptLong(s: State, steps: seq<Step>, t: State, reply: bool)
    requires Inv(s) && Since(s, s.clock) && SleepsThrough(s, steps, t) && t.clock >= s.clock + RETRY
    ensures forall x :: x in t.heap ==> x.launchTime <= t.clock
    ensures t.pc.Seen? ==> Consumer(t, reply).pc.Test?
  {
    AsleepSince(s, steps, t, s.clock);
    forall x | x in t.heap ensures x.launchTime <= t.clock {
      assert x in multiset(t.heap) + t.born;
    }
  }

  // ---------- A run in which a due item waits ----------

  ghost predicate Reached(s: State) {
    exists run :: IsRun(run) && run[|run| - 1] == s
  }

  lemma {:induction false} Starts(clock: int)
    ensures Reached(Init(clock))
  {
    assert IsRun([Init(clock)]);
  }

  lemma {:induction false} GoesOn(s: State, step: Step)
    requires Reached(s) && Enabled(s, step)
    ensures Reached(Next(s, step))
  {
    var run :| IsRun(run) && run[|run| - 1] == s;
    var t := Next(s, step);
    var run' := run + [t];
    forall k | 0 <= k < |run'| - 1 ensures CanStep(run'[k], run'[k + 1]) {
      if k == |run| - 1 {
        assert CanStep(s, t);
      } else {
        assert CanStep(run[k], run[k + 1]);
      }
    }
    assert run'[0] == run[0];
    assert IsRun(run');
  }

  lemma {:induction false} PushFirst(x: CbItem)
    requires x.failCount <= MAX_FAIL_COUNT
    ensures PushItem([], x) == [x]
  {
    assert [] + [x] == [x];
  }

  /** A second item that is due earlier becomes the root. */
  lemma {:induction false} PushEarlier(x: CbItem, y: CbItem)
    requires y.failCount <= MAX_FAIL_COUNT && y.launchTime < x.launchTime
    ensures PushItem([x], y) == [y, x]
  {
    var s := [x, y];
    assert [x] + [y] == s && Parent(1) == 0 && Parent(0) == 0;
    assert LaunchTime(s[1]) < LaunchTime(s[0]);
    assert Up(LaunchTime, s, 1) == Up(LaunchTime, [y, x], 0);
  }

  lemma {:induction false} PopOnly(x: CbItem)
    ensures PopItem([x]) == (x, [])
  {
    assert Popping(LaunchTime, [x]) == [x];
  }

  /** The consumer has called an item that failed, and sleeps. */
  lemma {:induction false} FailsOnce(clock: int) returns (s: State, a: CbItem)
    ensures Reached(s) && s.heap == [a] && s.pc == Outer && s.clock == clock + 1
    ensures a.launchTime == clock + RETRY && s.born == multiset{} && s.nextId == 1
  {
    var s1, item := CallsFirst(clock);
    a := item.Called();
    GoesOn(s1, Consume(false));
    var s2 := Next(s1, Consume(false));
    PushFirst(a);
    GoesOn(s2, Consume(false));
    var s3 := Next(s2, Consume(false));
    GoesOn(s3, Consume(false));
    var s4 := Next(s3, Consume(false));
    GoesOn(s4, Consume(false));
    s := Next(s4, Consume(false));
  }

  /** The consumer finds the only item due and pops it. */
  lemma {:induction false} PopsFirst(s: State, item: CbItem) returns (s': State)
    requires Reached(s) && s.heap == [item] && s.pc == Test(Some(item), s.clock) && item.launchTime < s.clock
    ensures Reached(s') && s' == s.(heap := [], pc := Call(item, s.clock))
  {
    GoesOn(s, Consume(false));
    var s1 := Next(s, Consume(false));
    PopOnly(item);
    GoesOn(s1, Consume(false));
    s' := Next(s1, Consume(false));
  }

  /** An item is created and pushed, and a nanosecond later the consumer has it in hand. */
  lemma {:induction false} CallsFirst(clock: int) returns (s: State, item: CbItem)
    ensures Reached(s) && s.heap == [] && s.pc == Call(item, clock + 1) && s.clock == clock + 1
    ensures item == NewCbItem(0, clock) && s.born == multiset{} && s.nextId == 1
  {
    item := NewCbItem(0, clock);
    var s1 := PushesFirst(clock, item);
    GoesOn(s1, Consume(false));
    var s2 := Next(s1, Consume(false));
    GoesOn(s2, Consume(false));
    s := PopsFirst(Next(s2, Consume(false)), item);
  }

  lemma {:induction false} PushesFirst(clock: int, item: CbItem) returns (s: State)
    requires item == NewCbItem(0, clock)
    ensures Reached(s) && s.heap == [item] && s.pc == Outer && s.clock == clock + 1 && s.born == multiset{}
    ensures s.nextId == 1
  {
    var s0 := Init(clock);
    Starts(clock);
    GoesOn(s0, Create);
    var s1 := Next(s0, Create);
    PushFirst(item);
    GoesOn(s1, Produce(item));
    var s2 := Next(s1, Produce(item));
    GoesOn(s2, Wait(1));
    s := Next(s2, Wait(1));
  }

  lemma {:induction false} PushesSecond(s: State, a: CbItem) returns (s': State, b: CbItem)
    requires Reached(s) && s.heap == [a] && s.pc == Outer && s.born == multiset{} && a.launchTime > s.clock
    ensures Reached(s') && s'.heap == [b, a] && s'.pc == Outer && s'.clock == s.clock == b.launchTime
  {
    b := NewCbItem(s.nextId, s.clock);
    GoesOn(s, Create);
    var s1 := Next(s, Create);
    PushEarlier(a, b);
    GoesOn(s1, Produce(b));
    s' := Next(s1, Produce(b));
  }

  /**
   From any start: one callback fails, a new item is pushed and becomes the root, and a nanosecond
   later the consumer looks at the failed item in the last slot and sleeps, with the new one due.
   */
  lemma {:induction false} DueItemMayWait(clock: int) returns (s: State)
    ensures Reached(s) && s.pc.Seen? && SleepsPast(s, false)
  {
    var s1, a := FailsOnce(clock);
    var s3, b := PushesSecond(s1, a);
    GoesOn(s3, Wait(1));
    var s4 := Next(s3, Wait(1));
    GoesOn(s4, Consume(false));
    s := Next(s4, Consume(false));
    assert b in s.heap && b.launchTime < s.clock;
  }
}
