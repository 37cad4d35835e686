/** Picking one of several objects by weight (src/util/traffic_divider.go). */
module TrafficDivider {
  import opened Floats
  import opened Options

  datatype Error = NotCompiled | HasCompiled | NoObj

  datatype Outcome<T> = Picked(obj: T, name: string) | Failed(error: Error) | Panic

  // ---------- Weights ----------

  function Sum(ws: seq<real>): real {
    if ws == [] then 0.0 else Sum(ws[..|ws| - 1]) + ws[|ws| - 1]
  }

  /** The running sums of the weights. */
  function Running(ws: seq<real>): (r: seq<Float>)
    ensures |r| == |ws|
    ensures forall i :: 0 <= i < |ws| ==> r[i] == Fin(Sum(ws[..i + 1]))
  {
    seq(|ws|, i requires 0 <= i < |ws| => Fin(Sum(ws[..i + 1])))
  }

  /** What Compile makes of them. */
  function Normal(ws: seq<real>): (r: seq<Float>)
    ensures |r| == |ws|
    ensures forall i :: 0 <= i < |ws| ==> r[i] == Quotient(Sum(ws[..i + 1]), Sum(ws))
  {
    seq(|ws|, i requires 0 <= i < |ws| => Quotient(Sum(ws[..i + 1]), Sum(ws)))
  }

  lemma {:induction false} RunningMore(ws: seq<real>, w: real)
    ensures Running(ws + [w]) == Running(ws) + [Fin(Sum(ws) + w)]
    ensures Sum(ws + [w]) == Sum(ws) + w
  {
    assert (ws + [w])[..|ws|] == ws;
    forall i | 0 <= i <= |ws| ensures Running(ws + [w])[i] == (Running(ws) + [Fin(Sum(ws) + w)])[i] {
      assert i < |ws| ==> (ws + [w])[..i + 1] == ws[..i + 1];
      assert i == |ws| ==> (ws + [w])[..i + 1] == ws + [w];
    }
  }

  // ---------- The divider ----------

  /** sort.SearchFloat64s, without any assumption on the list. */
  method Search(list: seq<Float>, r: real) returns (i: nat)
    ensures i <= |list|
    ensures i > 0 ==> !AtLeast(list[i - 1], r)
    ensures i < |list| ==> AtLeast(list[i], r)
  {
    i := 0;
    var j := |list|;
    while i < j
      invariant 0 <= i <= j <= |list|
      invariant i > 0 ==> !AtLeast(list[i - 1], r)
      invariant j < |list| ==> AtLeast(list[j], r)
    {
      var h := (i + j) / 2;
      if !AtLeast(list[h], r) {
        i := h + 1;
      } else {
        j := h;
      }
    }
  }

  /** The binary search may stop at `i`. */
  ghost predicate StopsAt(list: seq<Float>, r: real, i: nat) {
    && i <= |list| && (i > 0 ==> !AtLeast(list[i - 1], r)) && (i < |list| ==> AtLeast(list[i], r))
  }

  /** Compile has come as far as `i`. */
  ghost predicate HalfNormal(ws: seq<real>, list: seq<Float>, i: nat) {
    |list| == |ws| && forall k :: 0 <= k < |ws| ==> list[k] == if k < i then Normal(ws)[k] else Running(ws)[k]
  }

  class Divider<T> {
    var sum: real
    var weightList: seq<Float>
    var objList: seq<T>
    var labelList: seq<string>
    var compiled: bool
    /** The weights of the objects, as they were added. */
    ghost var weights: seq<real>

    ghost predicate Valid()
      reads this
    {
      && sum == Sum(weights) && |weights| == |objList| == |labelList|
      && weightList == (if compiled then Normal(weights) else Running(weights))
      && (compiled ==> weights != [])
    }

    constructor ()
      ensures Valid() && !compiled && weights == [] && objList == [] && labelList == []
    {
      sum, weightList, objList, labelList, compiled := 0.0, [], [], [], false;
      weights := [];
    }

    method AddObj(weight: real, obj: T, names: seq<string>) returns (err: Option<Error>)
      requires Valid()
      modifies this
      ensures Valid() && compiled == old(compiled)
      ensures old(compiled) ==> err == Some(HasCompiled) && unchanged(this)
      ensures !old(compiled) ==> err == None && weights == old(weights) + [weight] && objList == old(objList) + [obj]
      ensures !old(compiled) ==> labelList == old(labelList) + [if names == [] then "" else names[0]]
    {
      if compiled {
        return Some(HasCompiled);
      }
      RunningMore(weights, weight);
      assert weights[..|weights|] == weights;
      sum := sum + weight;
      var lastWeight := Fin(0.0);
      if |weightList| > 0 {
        lastWeight := weightList[|weightList| - 1];
      }
      weightList := weightList + [Fin(lastWeight.r + weight)];
      weights := weights + [weight];
      objList := objList + [obj];
      labelList := labelList + [if |names| > 0 then names[0] else ""];
      err := None;
    }

    method Compile() returns (err: Option<Error>)
      requires Valid()
      modifies this`weightList, this`compiled
      ensures Valid()
      ensures err == if old(compiled) then Some(HasCompiled) else if weights == [] then Some(NoObj) else None
      ensures compiled <==> old(compiled) || weights != []
      ensures err.Some? ==> unchanged(this)
    {
      if compiled {
        return Some(HasCompiled);
      }
      if |weightList| == 0 {
        return Some(NoObj);
      }
      var i := 0;
      while i != |weightList|
        invariant 0 <= i <= |weightList| && HalfNormal(weights, weightList, i)
      {
        weightList := weightList[i := Quotient(weightList[i].r, sum)];
        i := i + 1;
      }
      assert weightList == Normal(weights);
      compiled := true;
      err := None;
    }

    /** `r` is the random number. A search past the end would panic. */
    method GetObj(r: real) returns (o: Outcome<T>, ghost i: nat)
      requires Valid()
      ensures !compiled ==> o == Failed(NotCompiled)
      ensures compiled ==> StopsAt(Normal(weights), r, i)
      ensures compiled ==> o == if i < |objList| then Picked(objList[i], labelList[i]) else Panic
    {
      i := 0;
      if !compiled {
        return Failed(NotCompiled), 0;
      }
      var k := Search(weightList, r);
      i := k;
      if k >= |objList| {
        return Panic, i;
      }
      o := Picked(objList[k], labelList[k]);
    }
  }

  // ---------- What is picked ----------

  ghost predicate NotNegative(ws: seq<real>) {
    forall i :: 0 <= i < |ws| ==> ws[i] >= 0.0
  }

  /** The share of the objects before the i-th. */
  function Before(ws: seq<real>, i: nat): real
    requires i <= |ws| && Sum(ws) > 0.0
  {
    Sum(ws[..i]) / Sum(ws)
  }

  lemma {:induction false} SumsGrow(ws: seq<real>, i: nat, j: nat)
    requires NotNegative(ws) && i <= j <= |ws|
    ensures 0.0 <= Sum(ws[..i]) <= Sum(ws[..j])
    decreases i + j
  {
    if i < j {
      SumsGrow(ws, i, j - 1);
      assert ws[..j][..j - 1] == ws[..j - 1];
    } else if i > 0 {
      SumsGrow(ws, i - 1, i - 1);
      assert ws[..i][..i - 1] == ws[..i - 1];
    }
  }

  lemma {:induction false} SharesGrow(a: real, b: real, s: real)
    requires a <= b && s > 0.0
    ensures a / s <= b / s
  {
  }

  /** The normal list never falls, starts at 0 or more and ends at exactly 1. */
  lemma {:induction false} NormalList(ws: seq<real>)
    requires NotNegative(ws) && Sum(ws) > 0.0
    ensures forall i :: 0 <= i < |ws| ==> Normal(ws)[i] == Fin(Before(ws, i + 1))
    ensures forall i, j :: 0 <= i <= j <= |ws| ==> 0.0 <= Before(ws, i) <= Before(ws, j)
    ensures Before(ws, 0) == 0.0 && Before(ws, |ws|) == 1.0 && |ws| > 0
  {
    forall i, j | 0 <= i <= j <= |ws| ensures 0.0 <= Before(ws, i) <= Before(ws, j) {
      SumsGrow(ws, i, j);
      SharesGrow(Sum(ws[..i]), Sum(ws[..j]), Sum(ws));
      SharesGrow(0.0, Sum(ws[..i]), Sum(ws));
    }
    EndsAtOne(ws);
  }

  lemma {:induction false} EndsAtOne(ws: seq<real>)
    requires Sum(ws) > 0.0
    ensures Before(ws, 0) == 0.0 && Before(ws, |ws|) == 1.0
  {
    assert ws[..|ws|] == ws;
    OneWhole(Sum(ws));
  }

  lemma {:induction false} OneWhole(x: real)
    requires x > 0.0
    ensures x / x == 1.0 && 0.0 / x == 0.0
  {
  }

  /** Object i is picked for the numbers above the shares before it and up to its own; object 0 also for 0. */
  ghost predicate Owns(ws: seq<real>, i: nat, r: real)
    requires i < |ws| && Sum(ws) > 0.0
  {
    (i > 0 ==> Before(ws, i) < r) && r <= Before(ws, i + 1)
  }

  /** The length of that interval is the object's share of the weights. */
  lemma {:induction false} ShareIsWeight(ws: seq<real>, i: nat)
    requires i < |ws| && Sum(ws) > 0.0
    ensures Before(ws, i + 1) - Before(ws, i) == ws[i] / Sum(ws)
  {
    assert ws[..i + 1][..i] == ws[..i];
    var a, w, s := Sum(ws[..i]), ws[i], Sum(ws);
    assert (a + w) / s == a / s + w / s;
  }

  /** For every random number the search stays in range and stops at the one object that owns it. */
  lemma {:induction false} PickedOwns(ws: seq<real>, r: real, i: nat)
    requires NotNegative(ws) && Sum(ws) > 0.0 && 0.0 <= r < 1.0 && StopsAt(Normal(ws), r, i)
    ensures i < |ws| && Owns(ws, i, r)
    ensures forall j :: 0 <= j < |ws| && Owns(ws, j, r) ==> j == i
  {
    NormalList(ws);
  }

  lemma {:induction false} AllZero(ws: seq<real>, i: nat)
    requires NotNegative(ws) && Sum(ws) == 0.0 && i <= |ws|
    ensures Sum(ws[..i]) == 0.0
  {
    SumsGrow(ws, i, |ws|);
    assert ws[..|ws|] == ws;
  }

  /** Weights that are all zero make every number NaN, and then every pick panics. */
  lemma {:induction false} PanicsWithoutWeight(ws: seq<real>, r: real, i: nat)
    requires NotNegative(ws) && ws != [] && 0.0 <= r < 1.0 && StopsAt(Normal(ws), r, i)
    ensures i == |ws| <==> Sum(ws) == 0.0
  {
    SumsGrow(ws, 0, |ws|);
    assert ws[..|ws|] == ws;
    if Sum(ws) == 0.0 {
      forall k | 0 <= k < |ws| ensures Normal(ws)[k] == NaN {
        AllZero(ws, k + 1);
      }
    } else {
      PickedOwns(ws, r, i);
    }
  }
}
