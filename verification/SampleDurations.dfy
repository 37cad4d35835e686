/**
 How long the phases of the sampling controller last, in ticks counted down, and what a reset does.
 */
module SampleDurations {
  import opened Options
  import opened SampleCtrl

  // ---------- The steps that count ----------

  /** A tick is counted down. */
  predicate Counts(s: State, a: Act) { a.Run? && a.t in s.pcs && s.pcs[a.t].TTick? }

  /** A received reset is carried out. */
  predicate Resets(s: State, a: Act) { a.Run? && a.t in s.pcs && s.pcs[a.t] == TReset }

  /** A call finds the status it waits for. */
  predicate Enters(s: State, a: Act) {
    a.Run? && a.t in s.pcs && s.pcs[a.t].InCall? && s.g.status == Pre(s.pcs[a.t].phase)
  }

  /** What a phase starts with: the rest of the minute, a minute, five minutes. */
  function Duration(pc: Pc): int
    requires pc.InCall?
  {
    match pc.phase
    case Doing => 60
    case Done => 300
    case _ => pc.sec
  }

  lemma {:induction false} StepFields(g: Shared, t: Tid, pc: Pc, sec: int)
    requires Global(g) && Local(g, t, pc) && CanRun(g, pc)
    ensures var g' := Step(g, t, pc, sec).g;
            if pc.TTick? then
              g'.remainSec == g.remainSec - 1
              && g'.status == if g.status == Done && g.remainSec <= 1 then No else g.status
            else if pc == TReset then
              g'.remainSec == 300 && g'.status == g.status == Done
            else if pc.InCall? && g.status == Pre(pc.phase) then
              g'.remainSec == Duration(pc) && g'.status == pc.phase == Succ(g.status)
            else
              g'.remainSec == g.remainSec && g'.status == g.status
  {
  }

  /** The status and the seconds left change in these steps only, and so. */
  lemma {:induction false} FieldsMove(s: State, a: Act)
    requires Inv(s) && Enabled(s, a)
    ensures var g := Next(s, a).g;
            if Counts(s, a) then
              g.remainSec == s.g.remainSec - 1
              && g.status == if s.g.status == Done && s.g.remainSec <= 1 then No else s.g.status
            else if Resets(s, a) then
              g.remainSec == 300 && g.status == s.g.status == Done
            else if Enters(s, a) then
              g.remainSec == Duration(s.pcs[a.t]) && g.status == s.pcs[a.t].phase == Succ(s.g.status)
            else
              g.remainSec == s.g.remainSec && g.status == s.g.status
  {
    if a.Run? { StepFields(s.g, a.t, s.pcs[a.t], a.sec); }
  }

  // ---------- Whose turn it is ----------

  /** The countdown is over, and the next phase is still to be entered. */
  predicate Spent(pc: Pc) {
    (pc.TUnlock? && pc.last && pc.phase != Done) || pc.TNext? || ((pc.Call? || pc.InCall?) && pc.phase != Ready)
  }

  /** Once nothing is left to count, the goroutine of the phase has stopped counting. */
  ghost predicate Timed(s: State) {
    && (s.g.status != No ==> s.g.remainSec >= 0)
    && forall t :: IsCarrier(s, t) ==> (Spent(s.pcs[t]) <==> s.g.remainSec <= 0)
  }

  lemma {:induction false} StepSpends(g: Shared, t: Tid, pc: Pc, sec: int)
    requires Global(g) && Local(g, t, pc) && CanRun(g, pc)
    requires !pc.TTick? && pc != TReset && !(pc.InCall? && g.status == Pre(pc.phase))
    ensures var e := Step(g, t, pc, sec);
            && (Carries(e.pc).Some? ==> Carries(pc).Some? && (Spent(e.pc) <==> Spent(pc)))
            && (e.go.Some? && Carries(e.go.value).Some? ==> Carries(pc).Some? && (Spent(e.go.value) <==> Spent(pc)))
  {
  }

  lemma {:induction false} CountSpends(g: Shared, t: Tid, k: Status)
    requires Global(g) && Local(g, t, TTick(k))
    ensures var e := Countdown(g, k);
            e.go.None? && (Carries(e.pc).Some? ==> (Spent(e.pc) <==> e.g.remainSec <= 0))
  {
  }

  lemma {:induction false} EntrySpends(g: Shared, t: Tid, pc: Pc)
    requires Local(g, t, pc) && pc.InCall? && g.status == Pre(pc.phase)
    ensures var e := CallStep(g, t, pc); Carries(e.pc).None? && e.go.Some? && !Spent(e.go.value)
  {
  }

  /** The carrier after a step is the one before, or took over from it. */
  lemma {:induction false} CarrierAfter(s: State, a: Act, c: Tid)
    requires Inv(s) && Enabled(s, a) && a.Run? && IsCarrier(Next(s, a), c)
    ensures var e := Step(s.g, a.t, s.pcs[a.t], a.sec);
            if c == a.u && e.go.Some? then Next(s, a).pcs[c] == e.go.value
            else if c == a.t then Next(s, a).pcs[c] == e.pc
            else IsCarrier(s, c) && Next(s, a).pcs[c] == s.pcs[c]
  {
  }

  lemma {:induction false} RunKeepsTimed(s: State, a: Act)
    requires Inv(s) && Timed(s) && Enabled(s, a) && a.Run? && !Counts(s, a) && !Resets(s, a) && !Enters(s, a)
    ensures Timed(Next(s, a))
  {
    FieldsMove(s, a);
    StepSpends(s.g, a.t, s.pcs[a.t], a.sec);
    forall c | IsCarrier(Next(s, a), c) ensures Spent(Next(s, a).pcs[c]) <==> s.g.remainSec <= 0 {
      CarrierAfter(s, a, c);
    }
  }

  lemma {:induction false} OnlyCarrier(s: State, t: Tid, u: Tid)
    requires Inv(s) && IsCarrier(s, t) && IsCarrier(s, u)
    ensures t == u
  {
  }

  lemma {:induction false} CountKeepsTimed(s: State, a: Act)
    requires Inv(s) && Timed(s) && Enabled(s, a) && Counts(s, a)
    ensures Timed(Next(s, a))
  {
    var s', k := Next(s, a), s.pcs[a.t].phase;
    assert Local(s.g, a.t, s.pcs[a.t]) && IsCarrier(s, a.t);
    FieldsMove(s, a);
    CountSpends(s.g, a.t, k);
    forall c | IsCarrier(s', c) ensures Spent(s'.pcs[c]) <==> s'.g.remainSec <= 0 {
      CarrierAfter(s, a, c);
      if c != a.t { OnlyCarrier(s, c, a.t); }
    }
  }

  lemma {:induction false} MoveKeepsTimed(s: State, a: Act)
    requires Inv(s) && Timed(s) && Enabled(s, a) && !a.Run?
    ensures Timed(Next(s, a))
  {
    var s' := Next(s, a);
    NextKeepsInv(s, a);
    forall c | IsCarrier(s', c) ensures Spent(s'.pcs[c]) <==> s'.g.remainSec <= 0 {
      assert s'.pcs[c] != Panic by { assert Local(s'.g, c, s'.pcs[c]); }
      assert IsCarrier(s, c);
    }
  }

  lemma {:induction false} NextKeepsTimed(s: State, a: Act)
    requires Inv(s) && Timed(s) && Enabled(s, a) && !Resets(s, a) && !Enters(s, a)
    ensures Timed(Next(s, a))
  {
    if !a.Run? {
      MoveKeepsTimed(s, a);
    } else if Counts(s, a) {
      CountKeepsTimed(s, a);
    } else {
      RunKeepsTimed(s, a);
    }
  }

  // ---------- A phase begins ----------

  /** Entering a phase with some seconds to go. */
  lemma {:induction false} EntryIsTimed(s: State, a: Act)
    requires Inv(s) && Enabled(s, a) && Enters(s, a) && Duration(s.pcs[a.t]) >= 1
    ensures Timed(Next(s, a))
  {
    var s' := Next(s, a);
    assert Local(s.g, a.t, s.pcs[a.t]);
    NextKeepsInv(s, a);
    FieldsMove(s, a);
    EntrySpends(s.g, a.t, s.pcs[a.t]);
    forall c | IsCarrier(s', c) ensures !Spent(s'.pcs[c]) {
      assert IsCarrier(s', a.u);
      OnlyCarrier(s', c, a.u);
    }
  }

  /** The steps of a goroutine that has received a reset. */
  predicate InReset(pc: Pc) { pc == TRLock || pc == TReset || pc == TRUnlock }

  ghost predicate ResetHolds(s: State) {
    forall t :: t in s.pcs && s.pcs[t] == TRUnlock ==> s.g.remainSec == 300
  }

  lemma {:induction false} StepUnlocks(g: Shared, t: Tid, pc: Pc, sec: int)
    requires CanRun(g, pc)
    ensures var e := Step(g, t, pc, sec); (e.pc == TRUnlock ==> pc == TReset) && e.go != Some(TRUnlock)
  {
  }

  lemma {:induction false} StepLeavesReset(g: Shared, t: Tid, pc: Pc, sec: int)
    requires CanRun(g, pc) && InReset(pc)
    ensures var e := Step(g, t, pc, sec); !InReset(e.pc) ==> pc == TRUnlock && e.pc == TWait(Done) && e.go == None
  {
  }

  lemma {:induction false} NextKeepsReset(s: State, a: Act)
    requires Inv(s) && ResetHolds(s) && Enabled(s, a)
    ensures ResetHolds(Next(s, a))
  {
    var s' := Next(s, a);
    FieldsMove(s, a);
    if a.Run? { StepUnlocks(s.g, a.t, s.pcs[a.t], a.sec); }
    forall t | t in s'.pcs && s'.pcs[t] == TRUnlock ensures s'.g.remainSec == 300 {
      if !Resets(s, a) {
        assert t in s.pcs && s.pcs[t] == TRUnlock;
        UnlockIsAlone(s, a, t);
      }
    }
  }

  /** Nobody else touches the seconds meanwhile. */
  lemma {:induction false} UnlockIsAlone(s: State, a: Act, t: Tid)
    requires Inv(s) && Enabled(s, a) && t in s.pcs && s.pcs[t] == TRUnlock
    ensures !Counts(s, a) && !Enters(s, a)
  {
    assert Local(s.g, t, s.pcs[t]) && IsCarrier(s, t);
    if a.Run? { assert Local(s.g, a.t, s.pcs[a.t]); }
  }

  lemma {:induction false} ExecKeepsReset(s: State, acts: seq<Act>)
    requires Inv(s) && ResetHolds(s) && Exec(s, acts).Some?
    ensures ResetHolds(Exec(s, acts).value)
    decreases |acts|
  {
    if acts != [] {
      NextKeepsInv(s, acts[0]);
      NextKeepsReset(s, acts[0]);
      ExecKeepsReset(Next(s, acts[0]), acts[1..]);
    }
  }

  /**
   A goroutine that has received a reset goes on to give the lock back; when it has, five minutes are left
   of Done.
   */
  lemma {:induction false} ResetRestarts(s: State, a: Act, t: Tid)
    requires Reachable(s) && Enabled(s, a) && t in s.pcs && InReset(s.pcs[t]) && !InReset(Next(s, a).pcs[t])
    ensures Next(s, a).g.remainSec == 300 && Next(s, a).g.status == Done && Next(s, a).pcs[t] == TWait(Done)
    ensures Timed(Next(s, a))
  {
    ReachableInv(s);
    ReachableHolds(s);
    LeavesReset(s, a, t);
    UnlocksReset(s, a, t);
  }

  lemma {:induction false} ReachableHolds(s: State)
    requires Reachable(s)
    ensures ResetHolds(s)
  {
    var acts :| Exec(Init(), acts) == Some(s);
    ExecKeepsReset(Init(), acts);
  }

  lemma {:induction false} UnlocksReset(s: State, a: Act, t: Tid)
    requires Inv(s) && ResetHolds(s) && Enabled(s, a) && t in s.pcs && s.pcs[t] == TRUnlock
    requires a.Run? && a.t == t && Next(s, a).pcs[t] == TWait(Done)
    ensures Next(s, a).g.remainSec == 300 && Next(s, a).g.status == Done && Timed(Next(s, a))
  {
    assert Local(s.g, t, s.pcs[t]);
    FieldsMove(s, a);
    NextKeepsInv(s, a);
    TimedByOne(Next(s, a), t);
  }

  lemma {:induction false} LeavesReset(s: State, a: Act, t: Tid)
    requires Inv(s) && Enabled(s, a) && t in s.pcs && InReset(s.pcs[t]) && !InReset(Next(s, a).pcs[t])
    ensures a.Run? && a.t == t && s.pcs[t] == TRUnlock && Next(s, a).pcs[t] == TWait(Done)
  {
    assert Local(s.g, t, s.pcs[t]);
    if a.Run? && a.t == t { StepLeavesReset(s.g, t, s.pcs[t], a.sec); }
  }

  lemma {:induction false} TimedByOne(s: State, t: Tid)
    requires Inv(s) && t in s.pcs && s.pcs[t] == TWait(Done) && s.g.remainSec >= 1
    ensures Timed(s)
  {
    forall c | IsCarrier(s, c) ensures !Spent(s.pcs[c]) {
      OnlyCarrier(s, c, t);
    }
  }

  /** And a reset that is received puts its receiver there. */
  lemma {:induction false} ReceiveIsInReset(s: State, t: Tid, r: Tid)
    requires Enabled(s, Receive(t, r))
    ensures InReset(Next(s, Receive(t, r)).pcs[t])
  {
  }

  // ---------- How long it lasts ----------

  /** The ticks counted down in a run. */
  function Ticks(s: State, acts: seq<Act>): nat
    requires Exec(s, acts).Some?
    decreases |acts|
  {
    if acts == [] then 0 else (if Counts(s, acts[0]) then 1 else 0) + Ticks(Next(s, acts[0]), acts[1..])
  }

  /** No reset is carried out in it. */
  predicate NoReset(s: State, acts: seq<Act>)
    requires Exec(s, acts).Some?
    decreases |acts|
  {
    acts != [] ==> !Resets(s, acts[0]) && NoReset(Next(s, acts[0]), acts[1..])
  }

  lemma {:induction false} SpentEnters(s: State, a: Act)
    requires Inv(s) && Timed(s) && Enabled(s, a) && Enters(s, a) && s.g.status != No
    ensures s.g.remainSec == 0
  {
    assert Local(s.g, a.t, s.pcs[a.t]);
    assert IsCarrier(s, a.t) && Spent(s.pcs[a.t]);
  }

  lemma {:induction false} CountHasSome(s: State, a: Act)
    requires Inv(s) && Timed(s) && Enabled(s, a) && Counts(s, a)
    ensures s.g.remainSec >= 1 && s.g.status != No
  {
    assert Local(s.g, a.t, s.pcs[a.t]);
    assert IsCarrier(s, a.t) && !Spent(s.pcs[a.t]);
  }

  /** As long as fewer ticks were counted than there were seconds left, the phase lasts, whatever else runs. */
  lemma {:induction false} LastsUntil(s: State, acts: seq<Act>)
    requires Inv(s) && Timed(s) && s.g.status != No && Exec(s, acts).Some? && NoReset(s, acts)
    requires Ticks(s, acts) < s.g.remainSec
    ensures var s' := Exec(s, acts).value;
            && Inv(s') && Timed(s') && s'.g.status == s.g.status
            && s'.g.remainSec == s.g.remainSec - Ticks(s, acts)
    decreases |acts|
  {
    if acts != [] {
      var a := acts[0];
      if Enters(s, a) { SpentEnters(s, a); }
      FieldsMove(s, a);
      NextKeepsInv(s, a);
      NextKeepsTimed(s, a);
      LastsUntil(Next(s, a), acts[1..]);
    }
  }

  /** The status is the same all the way. */
  predicate Stays(s: State, acts: seq<Act>)
    requires Exec(s, acts).Some?
    decreases |acts|
  {
    acts != [] ==> Next(s, acts[0]).g.status == s.g.status && Stays(Next(s, acts[0]), acts[1..])
  }

  lemma {:induction false} StaysTimed(s: State, acts: seq<Act>)
    requires Inv(s) && Timed(s) && s.g.status != No && Exec(s, acts).Some? && NoReset(s, acts) && Stays(s, acts)
    ensures var s' := Exec(s, acts).value;
            && Inv(s') && Timed(s') && s'.g.status == s.g.status
            && s'.g.remainSec == s.g.remainSec - Ticks(s, acts)
    decreases |acts|
  {
    if acts != [] {
      var a := acts[0];
      FieldsMove(s, a);
      NextKeepsInv(s, a);
      NextKeepsTimed(s, a);
      StaysTimed(Next(s, a), acts[1..]);
    }
  }

  /**
   The step that ends a phase: Done ends with the tick that uses up the last second, and goes to No; the
   others are left for the next phase when exactly as many ticks were counted as there were seconds.
   */
  lemma {:induction false} EndsAt(s: State, acts: seq<Act>, a: Act)
    requires Inv(s) && Timed(s) && s.g.status != No && Exec(s, acts).Some? && NoReset(s, acts) && Stays(s, acts)
    requires var s' := Exec(s, acts).value; Enabled(s', a) && Next(s', a).g.status != s.g.status
    ensures var s' := Exec(s, acts).value;
            && Next(s', a).g.status == Succ(s.g.status)
            && Ticks(s, acts) + (if Counts(s', a) then 1 else 0) == s.g.remainSec
            && (Counts(s', a) <==> s.g.status == Done)
  {
    var s' := Exec(s, acts).value;
    StaysTimed(s, acts);
    FieldsMove(s', a);
    if Enters(s', a) { SpentEnters(s', a); }
    if Counts(s', a) { CountHasSome(s', a); }
  }

  // ---------- The phases ----------

  /** The status changes to a phase only when it is entered, with its duration. */
  lemma {:induction false} PhaseStarts(s: State, a: Act)
    requires Reachable(s) && Enabled(s, a) && Next(s, a).g.status != s.g.status && Next(s, a).g.status != No
    ensures var g := Next(s, a).g;
            && Enters(s, a) && s.pcs[a.t].phase == g.status
            && g.remainSec == (match g.status case Doing => 60 case Done => 300 case _ => s.pcs[a.t].sec)
            && (g.remainSec >= 1 ==> Timed(Next(s, a)) && Inv(Next(s, a)))
  {
    ReachableInv(s);
    FieldsMove(s, a);
    NextKeepsInv(s, a);
    if Next(s, a).g.remainSec >= 1 { EntryIsTimed(s, a); }
  }

  /** The seconds of Ready are those of the request that found the controller idle. */
  lemma {:induction false} CallKeepsSeconds(s: State, t: Tid, u: Tid, sec: int)
    requires Enabled(s, Run(t, u, sec)) && Inv(s)
    ensures var s' := Next(s, Run(t, u, sec));
            && (s.pcs[t] == RSwitch && s.g.status == No ==> u in s'.pcs && s'.pcs[u] == Call(Ready, sec))
            && (s.pcs[t].Call? ==> s'.pcs[t] == InCall(s.pcs[t].phase, s.pcs[t].sec))
  {
  }

  /** From its entry Ready lasts the seconds it is given, Doing 60 counted ticks, and Done 300 without a reset. */
  lemma {:induction false} PhaseLasts(s: State, enter: Act, acts: seq<Act>, a: Act)
    requires Reachable(s) && Enabled(s, enter)
    requires Next(s, enter).g.status != s.g.status && Next(s, enter).g.status != No
    requires Next(s, enter).g.status == Ready ==> s.pcs[enter.t].sec >= 1
    requires var s1 := Next(s, enter);
             && Exec(s1, acts).Some? && NoReset(s1, acts) && Stays(s1, acts)
             && Enabled(Exec(s1, acts).value, a) && Next(Exec(s1, acts).value, a).g.status != s1.g.status
    ensures var s1 := Next(s, enter);
            var s2 := Exec(s1, acts).value;
            && Next(s2, a).g.status == Succ(s1.g.status)
            && Ticks(s1, acts) == (match s1.g.status case Doing => 60 case Done => 299 case _ => s.pcs[enter.t].sec)
            && (Counts(s2, a) <==> s1.g.status == Done)
  {
    PhaseStarts(s, enter);
    EndsAt(Next(s, enter), acts, a);
  }

  /** And from a reset that was carried out and unlocked, Done lasts 300 counted ticks more, unless another comes. */
  lemma {:induction false} ResetLasts(s: State, unlock: Act, t: Tid, acts: seq<Act>)
    requires Reachable(s) && Enabled(s, unlock)
    requires t in s.pcs && InReset(s.pcs[t]) && !InReset(Next(s, unlock).pcs[t])
    requires var s1 := Next(s, unlock); Exec(s1, acts).Some? && NoReset(s1, acts)
    ensures var s1 := Next(s, unlock);
            Ticks(s1, acts) < 300 ==> Exec(s1, acts).value.g.status == Done
  {
    ReachableInv(s);
    NextKeepsInv(s, unlock);
    ResetRestarts(s, unlock, t);
    if Ticks(Next(s, unlock), acts) < 300 { LastsUntil(Next(s, unlock), acts); }
  }

  /** The 300th ends it. */
  lemma {:induction false} ResetEnds(s: State, unlock: Act, t: Tid, acts: seq<Act>, a: Act)
    requires Reachable(s) && Enabled(s, unlock)
    requires t in s.pcs && InReset(s.pcs[t]) && !InReset(Next(s, unlock).pcs[t])
    requires var s1 := Next(s, unlock);
             && Exec(s1, acts).Some? && NoReset(s1, acts) && Ticks(s1, acts) == 299
             && Enabled(Exec(s1, acts).value, a) && Counts(Exec(s1, acts).value, a)
    ensures Next(Exec(Next(s, unlock), acts).value, a).g.status == No
  {
    ReachableInv(s);
    NextKeepsInv(s, unlock);
    ResetRestarts(s, unlock, t);
    LastsUntil(Next(s, unlock), acts);
    FieldsMove(Exec(Next(s, unlock), acts).value, a);
  }

  /** With the end of Done its ticker is gone and its reset channel closed. */
  lemma {:induction false} EndCleansUp(s: State, a: Act)
    requires Reachable(s) && Enabled(s, a) && s.g.status == Done && Next(s, a).g.status == No
    ensures var g := Next(s, a).g;
            && s.g.reset.Some? && g.closed == s.g.closed + {s.g.reset.value}
            && g.reset == None && g.ticker == None
  {
    ReachableInv(s);
    if a.Run? { CleansUp(s.g, a.t, s.pcs[a.t], a.sec); }
  }

  lemma {:induction false} CleansUp(g: Shared, t: Tid, pc: Pc, sec: int)
    requires Global(g) && Local(g, t, pc) && CanRun(g, pc) && g.status == Done
    ensures var g' := Step(g, t, pc, sec).g;
            g'.status == No ==>
              && g.reset.Some? && g'.closed == g.closed + {g.reset.value}
              && g'.reset == None && g'.ticker == None
  {
  }
}
