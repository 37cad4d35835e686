/** Runs of the sampling controller that are wanted, put together step by step. */
module SampleRuns {
  import opened Options
  import opened SampleCtrl

  lemma {:induction false} FreshName(names: set<Tid>) returns (u: Tid)
    ensures forall n :: n in names ==> n < u
    decreases names
  {
    if names == {} {
      u := 0;
    } else {
      var n :| n in names;
      var v := FreshName(names - {n});
      u := if n < v then v else n + 1;
      assert forall k :: k in names ==> k == n || k in names - {n};
    }
  }

  ghost predicate Leads(s: State, s': State) {
    exists acts :: Exec(s, acts) == Some(s')
  }

  lemma {:induction false} ExecAppend(s: State, a: seq<Act>, b: seq<Act>)
    requires Exec(s, a).Some?
    ensures Exec(s, a + b) == Exec(Exec(s, a).value, b)
    decreases |a|
  {
    if a == [] {
      assert a + b == b;
    } else {
      ExecAppend(Next(s, a[0]), a[1..], b);
      assert (a + b)[1..] == a[1..] + b;
    }
  }

  lemma {:induction false} LeadsOn(s: State, s1: State, s2: State)
    requires Leads(s, s1) && Leads(s1, s2)
    ensures Leads(s, s2)
  {
    var a :| Exec(s, a) == Some(s1);
    var b :| Exec(s1, b) == Some(s2);
    ExecAppend(s, a, b);
  }

  lemma {:induction false} LeadsByOne(s: State, a: Act)
    requires Inv(s) && Enabled(s, a)
    ensures Leads(s, Next(s, a)) && Inv(Next(s, a))
  {
    NextKeepsInv(s, a);
    assert [a][1..] == [] && Exec(Next(s, a), []) == Some(Next(s, a));
    assert Exec(s, [a]) == Some(Next(s, a));
  }

  /** Thread t takes a step by itself, out of a state that `s0` leads to. */
  lemma {:induction false} Take(s0: State, s: State, t: Tid, sec: int) returns (s': State, u: Tid)
    requires Leads(s0, s) && Inv(s) && t in s.pcs && CanRun(s.g, s.pcs[t])
    ensures Leads(s0, s') && Inv(s')
    ensures u !in s.pcs && s' == After(s, t, u, Step(s.g, t, s.pcs[t], sec))
  {
    u := FreshName(s.pcs.Keys);
    s' := Next(s, Run(t, u, sec));
    LeadsByOne(s, Run(t, u, sec));
    LeadsOn(s0, s, s');
  }

  /** Thread t waits for its next tick and nobody has the lock. */
  ghost predicate Ticking(s: State, t: Tid, k: Status) {
    Inv(s) && s.g.LockFree() && t in s.pcs && s.pcs[t] == TWait(k)
  }

  lemma {:induction false} TickIn(s0: State, s: State, t: Tid, k: Status) returns (s': State)
    requires Leads(s0, s) && Ticking(s, t, k)
    ensures Leads(s0, s') && Inv(s') && s' == State(s.g, s.pcs[t := TLock(k)])
  {
    assert Local(s.g, t, s.pcs[t]);
    s' := Next(s, Tick(t));
    LeadsByOne(s, Tick(t));
    LeadsOn(s0, s, s');
  }

  /** What counting down leaves to be unlocked. */
  ghost predicate Counted(g: Shared, g': Shared, k: Status, pc: Pc) {
    && g'.writer == g.writer && g'.readers == g.readers
    && ((g'.status == No && k == Done && pc == TUnlock(k, true)) ||
        (g'.status == g.status && g'.remainSec == g.remainSec - 1 &&
         pc == TUnlock(k, g'.remainSec <= 0) && (k == Done ==> g'.remainSec > 0)))
  }

  lemma {:induction false} CountEffect(g: Shared, c: Tid, k: Status)
    requires Global(g) && Local(g, c, TTick(k))
    ensures Counted(g, Countdown(g, k).g, k, Countdown(g, k).pc) && Countdown(g, k).go == None
    ensures g.readers == {}
  {
  }

  /** A tick counts down by one under the lock, and at zero ends the goroutine's loop. */
  lemma {:induction false} CountsOnce(s0: State, s: State, c: Tid, k: Status) returns (s': State)
    requires Leads(s0, s) && Inv(s) && c in s.pcs && s.pcs[c] == TTick(k)
    ensures Leads(s0, s') && Inv(s') && s'.g.LockFree() && c in s'.pcs
    ensures s'.g.status == No ==> k == Done
    ensures s'.g.status == No ||
            (s'.g.status == s.g.status && s'.g.remainSec == s.g.remainSec - 1 &&
             s'.pcs[c] == if s'.g.remainSec > 0 then TWait(k) else TNext(k))
  {
    CountEffect(s.g, c, k);
    var s1, _ := Take(s0, s, c, 0);
    s' := CountedUnlocks(s0, s1, c, k);
  }

  lemma {:induction false} CountedUnlocks(s0: State, s: State, c: Tid, k: Status) returns (s': State)
    requires Leads(s0, s) && Inv(s) && c in s.pcs && s.pcs[c].TUnlock? && s.pcs[c].phase == k && s.g.readers == {}
    ensures Leads(s0, s') && Inv(s') && c in s'.pcs && s'.g == s.g.(writer := None)
    ensures s'.pcs[c] == if !s.pcs[c].last then TWait(k) else if k == Done then End else TNext(k)
  {
    var s1, _ := Take(s0, s, c, 0);
    s' := s1;
  }

  lemma {:induction false} OneTick(s0: State, s: State, t: Tid, k: Status) returns (s': State)
    requires Leads(s0, s) && Ticking(s, t, k) && k in {Ready, Doing}
    ensures Leads(s0, s') && Inv(s') && s'.g.LockFree() && t in s'.pcs && s'.g.remainSec == s.g.remainSec - 1
    ensures s'.pcs[t] == if s.g.remainSec > 1 then TWait(k) else TNext(k)
  {
    var s1 := TickIn(s0, s, t, k);
    var s2, _ := Take(s0, s1, t, 0);
    s' := CountsOnce(s0, s2, t, k);
  }

  lemma {:induction false} CountsDown(s0: State, s: State, t: Tid, k: Status) returns (s': State)
    requires Leads(s0, s) && Ticking(s, t, k) && k in {Ready, Doing}
    ensures Leads(s0, s') && Inv(s') && s'.g.LockFree() && t in s'.pcs && s'.pcs[t] == TNext(k)
    decreases s.g.remainSec
  {
    s' := OneTick(s0, s, t, k);
    if s.g.remainSec > 1 {
      s' := CountsDown(s0, s', t, k);
    }
  }

  /** A call that finds the status it waits for enters its phase. */
  lemma {:induction false} Enters(s0: State, s: State, c: Tid, k: Status) returns (s': State, t: Tid)
    requires Leads(s0, s) && Inv(s) && s.g.LockFree() && c in s.pcs && s.pcs[c].Call? && s.pcs[c].phase == k
    requires s.g.status == Pre(k)
    ensures Leads(s0, s') && Inv(s') && s'.g.LockFree() && t in s'.pcs && s'.pcs[t] == TCheck(k)
  {
    var s1, _ := Take(s0, s, c, 0);
    var s2, u := Take(s0, s1, c, 0);
    var s3, _ := Take(s0, s2, c, 0);
    s', t := s3, u;
  }

  lemma {:induction false} StartsTicking(s0: State, s: State, t: Tid, k: Status) returns (s': State)
    requires Leads(s0, s) && Inv(s) && s.g.LockFree() && t in s.pcs && s.pcs[t] == TCheck(k)
    ensures Leads(s0, s') && Ticking(s', t, k)
  {
    assert Local(s.g, t, s.pcs[t]);
    var s1, _ := Take(s0, s, t, 0);
    var s2, _ := Take(s0, s1, t, 0);
    if k == Done {
      s' := MakesChannel(s0, s2, t);
    } else {
      s' := s2;
    }
  }

  /** In Done the ticker comes before the reset channel. */
  lemma {:induction false} MakesChannel(s0: State, s: State, t: Tid) returns (s': State)
    requires Leads(s0, s) && Inv(s) && s.g.LockFree() && t in s.pcs && s.pcs[t] == TNew(Done)
    ensures Leads(s0, s') && Ticking(s', t, Done)
  {
    var s1, _ := Take(s0, s, t, 0);
    var s2, _ := Take(s0, s1, t, 0);
    s' := s2;
  }

  /** From one phase's countdown to the next one's. */
  lemma {:induction false} MovesOn(s0: State, s: State, t: Tid, k: Status) returns (s': State, t': Tid)
    requires Leads(s0, s) && Ticking(s, t, k) && k in {Ready, Doing}
    ensures Leads(s0, s') && Ticking(s', t', Succ(k))
  {
    var s1 := CountsDown(s0, s, t, k);
    assert Local(s1.g, t, s1.pcs[t]);
    var s2, c := Take(s0, s1, t, 0);
    var s3, t3 := Enters(s0, s2, c, Succ(k));
    t' := t3;
    s' := StartsTicking(s0, s3, t', Succ(k));
  }

  lemma {:induction false} FirstComes() returns (s: State)
    ensures Leads(Init(), s) && Inv(s) && s == State(Init().g.(readers := {0}), map[0 := RRead])
  {
    var s0 := Init();
    assert Exec(s0, []) == Some(s0);
    LeadsByOne(s0, Visit(0));
    var s2, _ := Take(s0, Next(s0, Visit(0)), 0, 60);
    s := s2;
  }

  /** A request finds an idle controller and leaves a call behind that readies it. */
  lemma {:induction false} Calls() returns (s: State, c: Tid)
    ensures Leads(Init(), s) && Inv(s) && s.g == Init().g && c in s.pcs && s.pcs[c] == Call(Ready, 60)
  {
    var s1 := FirstComes();
    var s2, _ := Take(Init(), s1, 0, 60);
    var s3, u := Take(Init(), s2, 0, 60);
    var s4, _ := Take(Init(), s3, 0, 60);
    s, c := s4, u;
    assert {0} - {0} == {};
  }

  /** A request to an idle controller starts the first countdown. */
  lemma {:induction false} Begins() returns (s: State, t: Tid)
    ensures Leads(Init(), s) && Ticking(s, t, Ready)
  {
    var s1, c := Calls();
    var s2, t2 := Enters(Init(), s1, c, Ready);
    t := t2;
    s := StartsTicking(Init(), s2, t, Ready);
  }

  lemma {:induction false} DoneIsReached() returns (s: State, t: Tid)
    ensures Leads(Init(), s) && Ticking(s, t, Done)
  {
    var s1, t1 := Begins();
    var s2, t2 := MovesOn(Init(), s1, t1, Ready);
    s, t := MovesOn(Init(), s2, t2, Doing);
  }
}
