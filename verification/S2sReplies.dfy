/**
 What the answers to callbacks decide in S2sServe.dfy: where an item is, how often it has failed
 and when it is called next are read off the answers it got.
 */
module S2sReplies {
  import opened S2sHeap
  import opened S2sServe

  /** A run together with the steps it took. */
  ghost predicate Played(run: seq<State>, steps: seq<Step>) {
    && |run| == |steps| + 1 && (exists clock :: run[0] == Init(clock))
    && forall k :: 0 <= k < |steps| ==> Enabled(run[k], steps[k]) && run[k + 1] == Next(run[k], steps[k])
  }

  /** The next step ends a callback of this item. */
  predicate Answers(s: State, step: Step, id: nat) {
    s.pc.Call? && s.pc.held.id == id && step.Consume?
  }

  /** The answers an item got in the first `k` steps, in order. */
  ghost function Replies(run: seq<State>, steps: seq<Step>, k: nat, id: nat): (rs: seq<bool>)
    requires k <= |steps| < |run|
  {
    if k == 0 then [] else
    Replies(run, steps, k - 1, id) + if Answers(run[k - 1], steps[k - 1], id) then [steps[k - 1].reply] else []
  }

  predicate Failures(rs: seq<bool>) {
    forall i :: 0 <= i < |rs| ==> !rs[i]
  }

  /** A success ends the answers, and there is none before it. */
  predicate EndsWell(rs: seq<bool>) {
    rs != [] && rs[|rs| - 1] && Failures(rs[..|rs| - 1])
  }

  // ---------- Every item and its answers ----------

  /** An item fits the answers it got; whether it succeeded decides where it is. */
  predicate Fits(x: CbItem, delivered: bool, rs: seq<bool>) {
    && x.failCount == |rs| && x.launchTime == x.created + 15_000_000_000 * |rs|
    && if delivered then EndsWell(rs) else Failures(rs)
  }

  type Log = nat -> seq<bool>

  /** Every item fits its answers, and no others have got any. */
  ghost predicate Told(all: multiset<CbItem>, delivered: multiset<CbItem>, n: nat, log: Log) {
    && (forall x :: x in all ==> Fits(x, x in delivered, log(x.id)))
    && forall id: nat :: id >= n ==> log(id) == []
  }

  /** The answers after one more step. */
  ghost predicate LogsOn(s: State, step: Step, log: Log, log': Log) {
    forall id: nat :: log'(id) == if Answers(s, step, id) then log(id) + [step.reply] else log(id)
  }

  ghost predicate SameLog(log: Log, log': Log) {
    forall id: nat :: log'(id) == log(id)
  }

  lemma {:induction false} ToldStill(all: multiset<CbItem>, delivered: multiset<CbItem>, n: nat, log: Log, log': Log)
    requires Told(all, delivered, n, log) && SameLog(log, log')
    ensures Told(all, delivered, n, log')
  {
  }

  lemma {:induction false} ToldOneMore(all: multiset<CbItem>, delivered: multiset<CbItem>, n: nat, log: Log, x: CbItem)
    requires Told(all, delivered, n, log) && x.id == n && x.failCount == 0 && x.launchTime == x.created
    requires x !in delivered
    ensures Told(all + multiset{x}, delivered, n + 1, log)
  {
  }

  lemma {:induction false} OneMoreReply(rs: seq<bool>, reply: bool)
    requires Failures(rs)
    ensures if reply then EndsWell(rs + [reply]) else Failures(rs + [reply])
  {
    assert (rs + [reply])[..|rs|] == rs;
  }

  /** A callback that was answered: the item that was held and the bag of all others. */
  ghost predicate Called(rest: multiset<CbItem>, x: CbItem, x': CbItem, delivered: multiset<CbItem>,
                         delivered': multiset<CbItem>, reply: bool) {
    && x'.id == x.id && x'.failCount == x.failCount + 1 && x'.created == x.created
    && x'.launchTime == x.launchTime + 15_000_000_000
    && x !in delivered && delivered <= rest && (forall y :: y in rest ==> y.id != x.id)
    && delivered' == if reply then delivered + multiset{x'} else delivered
  }

  lemma {:induction false} ToldAnswer(rest: multiset<CbItem>, x: CbItem, x': CbItem, delivered: multiset<CbItem>,
                                      delivered': multiset<CbItem>, reply: bool, n: nat, log: Log, log': Log)
    requires Told(rest + multiset{x}, delivered, n, log) && x.id < n
    requires Called(rest, x, x', delivered, delivered', reply)
    requires forall id: nat :: log'(id) == if id == x.id then log(id) + [reply] else log(id)
    ensures Told(rest + multiset{x'}, delivered', n, log')
  {
    assert x in rest + multiset{x};
    OneMoreReply(log(x.id), reply);
    forall y | y in rest + multiset{x'} ensures Fits(y, y in delivered', log'(y.id)) {
      if y != x' {
        assert y in rest + multiset{x};
      } else {
        assert x' in delivered ==> x' in rest;
      }
    }
  }

  // ---------- Every step keeps it ----------

  ghost predicate ToldIn(s: State, log: Log) { Told(s.All(), s.delivered, s.nextId, log) }

  lemma {:induction false} AloneInRest(rest: multiset<CbItem>, x: CbItem, n: nat)
    requires OneEach(rest + multiset{x}, n)
    ensures x.id < n && forall y :: y in rest ==> y.id != x.id
  {
    var bag := rest + multiset{x};
    assert x in bag && bag[x] == 1;
    forall y | y in rest ensures y.id != x.id {
      assert y in bag;
    }
  }

  lemma {:induction false} CallTells(s: State, reply: bool, log: Log, log': Log)
    requires Inv(s) && s.pc.Call? && ToldIn(s, log) && LogsOn(s, Consume(reply), log, log')
    ensures ToldIn(Consumer(s, reply), log')
  {
    var x, t := s.pc.held, Consumer(s, reply);
    var rest := multiset(s.heap) + s.born + s.delivered + s.dropped;
    CallMoves(s, reply);
    AloneInRest(rest, x, s.nextId);
    assert x in s.delivered ==> x in rest;
    assert Called(rest, x, x.Called(), s.delivered, t.delivered, reply);
    ToldAnswer(rest, x, x.Called(), s.delivered, t.delivered, reply, s.nextId, log, log');
  }

  lemma {:induction false} CreateTells(s: State, log: Log)
    requires Inv(s) && ToldIn(s, log)
    ensures ToldIn(Next(s, Create), log)
  {
    var x := NewCbItem(s.nextId, s.clock);
    assert Next(s, Create).All() == s.All() + multiset{x};
    assert x in s.delivered ==> x in s.All();
    ToldOneMore(s.All(), s.delivered, s.nextId, log, x);
  }

  /** Every other step leaves the items, those delivered and the answers alone. */
  lemma {:induction false} OthersMove(s: State, step: Step)
    requires Inv(s) && Enabled(s, step) && !step.Create? && !(step.Consume? && s.pc.Call?)
    ensures var t := Next(s, step); t.All() == s.All() && t.delivered == s.delivered && t.nextId == s.nextId
  {
    match step
    case Wait(t) => assert Next(s, step).pc.Hand() == s.pc.Hand();
    case Produce(item) => ProducerMoves(s, item);
    case Consume(reply) =>
      match s.pc {
        case Pop(_) => PopMoves(s, reply);
        case Push(_, _) => PushMoves(s, reply);
        case _ => LookMoves(s, reply);
      }
  }

  lemma {:induction false} StepTells(s: State, step: Step, log: Log, log': Log)
    requires Inv(s) && Enabled(s, step) && ToldIn(s, log) && LogsOn(s, step, log, log')
    ensures ToldIn(Next(s, step), log')
  {
    if step.Consume? && s.pc.Call? {
      CallTells(s, step.reply, log, log');
    } else if step.Create? {
      CreateTells(s, log);
      ToldStill(Next(s, step).All(), s.delivered, s.nextId + 1, log, log');
    } else {
      OthersMove(s, step);
      ToldStill(s.All(), s.delivered, s.nextId, log, log');
    }
  }

  // ---------- What every run keeps to ----------

  ghost function LogOf(run: seq<State>, steps: seq<Step>, k: nat): Log
    requires k <= |steps| < |run|
  {
    (id: nat) => Replies(run, steps, k, id)
  }

  lemma {:induction false} PlayedIsRun(run: seq<State>, steps: seq<Step>)
    requires Played(run, steps)
    ensures IsRun(run)
  {
    forall k | 0 <= k < |run| - 1 ensures CanStep(run[k], run[k + 1]) {
      assert Enabled(run[k], steps[k]) && run[k + 1] == Next(run[k], steps[k]);
    }
  }

  lemma {:induction false} LogNext(run: seq<State>, steps: seq<Step>, k: nat)
    requires k < |steps| < |run|
    ensures LogsOn(run[k], steps[k], LogOf(run, steps, k), LogOf(run, steps, k + 1))
  {
    forall id: nat
      ensures LogOf(run, steps, k + 1)(id) ==
              if Answers(run[k], steps[k], id) then LogOf(run, steps, k)(id) + [steps[k].reply]
              else LogOf(run, steps, k)(id)
    {
      assert Replies(run, steps, k + 1, id) ==
             Replies(run, steps, k, id) + if Answers(run[k], steps[k], id) then [steps[k].reply] else [];
    }
  }

  lemma {:induction false} RunTells(run: seq<State>, steps: seq<Step>, k: nat)
    requires Played(run, steps) && k <= |steps|
    ensures ToldIn(run[k], LogOf(run, steps, k))
  {
    if k > 0 {
      RunTells(run, steps, k - 1);
      PlayedIsRun(run, steps);
      RunKeepsInv(run, k - 1);
      assert Enabled(run[k - 1], steps[k - 1]) && run[k - 1 + 1] == Next(run[k - 1], steps[k - 1]);
      LogNext(run, steps, k - 1);
      StepTells(run[k - 1], steps[k - 1], LogOf(run, steps, k - 1), LogOf(run, steps, k));
    } else {
      assert run[0].All() == multiset{};
      assert forall id: nat :: LogOf(run, steps, 0)(id) == [];
    }
  }

  /**
   In every run the answers to an item decide where it is. It counts as delivered exactly when its
   last callback succeeded, and then all before had failed; elsewhere all have failed, four times
   for an item that was dropped. The number of answers is its count and sets its next launch.
   */
  lemma {:induction false} AnswersDecide(run: seq<State>, steps: seq<Step>, k: nat, id: nat)
      returns (item: CbItem, p: Place)
    requires Played(run, steps) && k <= |steps| && id < run[k].nextId
    ensures At(run[k], p)[item] == 1 && item.id == id
    ensures var rs := Replies(run, steps, k, id);
            && (if p == Delivered then EndsWell(rs) else Failures(rs))
            && item.failCount == |rs| && item.launchTime == item.created + 15_000_000_000 * |rs|
            && (p == Born ==> rs == []) && (p == Waiting ==> |rs| <= 3) && (p == Dropped ==> |rs| == 4)
            && (|rs| == 4 && Failures(rs) ==> p == Dropped || p == Held)
  {
    PlayedIsRun(run, steps);
    item, p := NothingLostNothingDoubled(run, k, id);
    RunTells(run, steps, k);
    RunKeepsInv(run, k);
    AtIsInAll(run[k], p, item);
    var rs := LogOf(run, steps, k)(id);
    assert Fits(item, item in run[k].delivered, rs);
    assert item in At(run[k], Delivered) <==> item in run[k].delivered;
  }
}
