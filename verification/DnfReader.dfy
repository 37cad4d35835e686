/**
 A reader of the text that genDnf of src/raw_ad/raw_ad.go prints, from the grammar of that text:
 conditions in brackets with " and " between, each a key, "in" or "not in", and values in braces.
 It knows nothing of how the text is printed, and reads the targets of an ad back from it.
 */
module DnfReader {
  import opened AffiliateTarget
  import opened Options
  import opened Targets
  import opened Text

  // ---------- The grammar ----------

  /** The values up to the closing brace, and the text behind it. */
  function ReadValues(s: string): Option<(seq<string>, string)> {
    var e := IndexOf(s, '}');
    if 0 < e < |s| && s[e - 1] == ' ' then Some((Split(s[..e - 1], ','), s[e + 1..])) else None
  }

  function ReadCondition(s: string): Option<(Target, string)> {
    var i := IndexOf(s, ' ');
    match ReadOp(s[i..])
    case None => None
    case Some((belong, inner)) =>
      match ReadValues(inner)
      case Some((vals, rest)) => Some((Target(s[..i], belong, vals), rest))
      case None => None
  }

  function ReadOp(s: string): Option<(bool, string)> {
    if " in { " <= s then Some((true, s[6..]))
    else if " not in { " <= s then Some((false, s[10..]))
    else None
  }

  function ReadConditions(s: string): Option<seq<Target>>
    decreases |s|
  {
    match ReadCondition(s)
    case None => None
    case Some((t, rest)) =>
      if rest == " )" then Some([t])
      else if |rest| >= |s| || !(" and " <= rest) then None
      else match ReadConditions(rest[5..])
        case Some(ts) => Some([t] + ts)
        case None => None
  }

  function ReadDnf(s: string): Option<seq<Target>> {
    if "( " <= s then ReadConditions(s[2..]) else None
  }

  // ---------- Reading undoes printing ----------

  ghost predicate Plain(t: Target) {
    ' ' !in t.key && t.vals != [] && forall v :: v in t.vals ==> ',' !in v && '}' !in v
  }

  ghost predicate AllPlain(ts: seq<Target>) {
    forall k :: 0 <= k < |ts| ==> Plain(ts[k])
  }

  lemma {:induction false} EndsAt(w: string, tail: string, c: char)
    requires c !in w && tail != "" && tail[0] == c
    ensures IndexOf(w + tail, c) == |w| && (w + tail)[..|w|] == w && (w + tail)[|w|..] == tail
  {
    var s := w + tail;
    forall k | 0 <= k < |w| ensures s[k] != c {
      assert s[k] == w[k] && w[k] in w;
    }
    IndexOfIs(s, c, |w|);
  }

  lemma {:induction false} NoBrace(vals: seq<string>)
    requires forall v :: v in vals ==> ',' !in v && '}' !in v
    ensures '}' !in Join(vals, ",") + " "
  {
    assert forall k :: 0 <= k < |vals| ==> vals[k] in vals;
    JoinChars(vals, ",", c => c != '}');
  }

  lemma {:induction false} ValuesAreRead(vals: seq<string>, rest: string)
    requires vals != [] && forall v :: v in vals ==> ',' !in v && '}' !in v
    ensures ReadValues(Join(vals, ",") + " }" + rest) == Some((vals, rest))
  {
    var w, tail := Join(vals, ","), "}" + rest;
    NoBrace(vals);
    EndsAt(w + " ", tail, '}');
    assert w + " }" + rest == w + " " + tail;
    assert tail[1..] == rest && (w + " " + tail)[..|w|] == w;
    assert (w + " " + tail)[|w| + 2..] == rest;
    SplitJoin(vals, ',');
  }

  function Op(belong: bool): string { if belong then " in { " else " not in { " }

  lemma {:induction false} OpIsRead(belong: bool, inner: string)
    ensures ReadOp(Op(belong) + inner) == Some((belong, inner))
  {
    var s := Op(belong) + inner;
    assert s[|Op(belong)|..] == inner;
    if !belong {
      assert s[1] == 'n' && " in { "[1] == 'i';
    }
  }

  lemma {:induction false} PrintIs(t: Target, rest: string)
    ensures Print(t) + rest == t.key + (Op(t.belong) + (Join(t.vals, ",") + " }" + rest))
  {
    var w := Join(t.vals, ",");
    if t.belong {
      assert t.key + " " + "in" + " { " == t.key + " in { ";
    } else {
      assert t.key + " " + "not in" + " { " == t.key + " not in { ";
    }
    assert Print(t) == t.key + Op(t.belong) + w + " }";
  }

  lemma {:induction false} ConditionIsRead(t: Target, rest: string)
    requires Plain(t)
    ensures ReadCondition(Print(t) + rest) == Some((t, rest))
  {
    var inner := Join(t.vals, ",") + " }" + rest;
    PrintIs(t, rest);
    EndsAt(t.key, Op(t.belong) + inner, ' ');
    OpIsRead(t.belong, inner);
    ValuesAreRead(t.vals, rest);
  }

  /** What is printed for some targets behind the opening bracket. */
  function Inside(ts: seq<Target>): string
    requires ts != []
  {
    Print(ts[0]) + Rest(Prints(ts[1..]))
  }

  lemma {:induction false} RestOpens(ts: seq<Target>)
    requires ts != []
    ensures var rest := Rest(Prints(ts)); rest != " )" && " and " <= rest && rest[5..] == Inside(ts)
  {
    PrintsHead(ts);
    var more := Inside(ts);
    assert Rest(Prints(ts)) == " and " + more;
    assert (" and " + more)[5..] == more && (" and " + more)[1] == 'a';
  }

  lemma {:induction false} ReadsOn(s: string, t: Target, rest: string, ts: seq<Target>)
    requires ReadCondition(s) == Some((t, rest)) && |rest| < |s|
    requires rest != " )" && " and " <= rest && ReadConditions(rest[5..]) == Some(ts)
    ensures ReadConditions(s) == Some([t] + ts)
  {
  }

  lemma {:induction false} ReadsLast(t: Target)
    requires Plain(t)
    ensures ReadConditions(Print(t) + " )") == Some([t])
  {
    ConditionIsRead(t, " )");
  }

  lemma {:induction false} InsideOne(ts: seq<Target>)
    requires |ts| == 1
    ensures ts == [ts[0]] && Inside(ts) == Print(ts[0]) + " )"
  {
    assert Prints(ts[1..]) == [];
  }

  lemma {:induction false} ReadsOne(ts: seq<Target>)
    requires |ts| == 1 && Plain(ts[0])
    ensures ReadConditions(Inside(ts)) == Some(ts)
  {
    InsideOne(ts);
    ReadsLast(ts[0]);
  }

  lemma {:induction false} ReadsPrint(t: Target, rest: string, ts: seq<Target>)
    requires Plain(t) && rest != " )" && " and " <= rest && ReadConditions(rest[5..]) == Some(ts)
    ensures ReadConditions(Print(t) + rest) == Some([t] + ts)
  {
    ConditionIsRead(t, rest);
    ReadsOn(Print(t) + rest, t, rest, ts);
  }

  lemma {:induction false} ReadsFirst(ts: seq<Target>)
    requires |ts| > 1 && Plain(ts[0]) && ReadConditions(Inside(ts[1..])) == Some(ts[1..])
    ensures ReadConditions(Inside(ts)) == Some([ts[0]] + ts[1..])
  {
    RestOpens(ts[1..]);
    ReadsPrint(ts[0], Rest(Prints(ts[1..])), ts[1..]);
  }

  lemma {:induction false} FirstAndRest(ts: seq<Target>)
    requires ts != []
    ensures [ts[0]] + ts[1..] == ts
  {
  }

  lemma {:induction false} PlainBehind(ts: seq<Target>)
    requires ts != [] && AllPlain(ts)
    ensures AllPlain(ts[1..])
  {
  }

  lemma {:induction false} ConditionsAreRead(ts: seq<Target>)
    requires ts != [] && AllPlain(ts)
    ensures ReadConditions(Inside(ts)) == Some(ts)
  {
    assert Plain(ts[0]);
    if |ts| == 1 {
      ReadsOne(ts);
    } else {
      PlainBehind(ts);
      ConditionsAreRead(ts[1..]);
      ReadsFirst(ts);
      FirstAndRest(ts);
    }
  }

  lemma {:induction false} ValuesReadArePlain(s: string)
    requires ReadValues(s).Some?
    ensures var vals := ReadValues(s).value.0; vals != [] && forall v :: v in vals ==> ',' !in v && '}' !in v
  {
    var e := IndexOf(s, '}');
    SplitChars(s[..e - 1], ',');
  }

  lemma {:induction false} ConditionReadIsPlain(s: string)
    requires ReadCondition(s).Some?
    ensures Plain(ReadCondition(s).value.0)
  {
    var i := IndexOf(s, ' ');
    ValuesReadArePlain(ReadOp(s[i..]).value.1);
  }

  lemma {:induction false} ReadArePlain(s: string)
    requires ReadConditions(s).Some?
    ensures AllPlain(ReadConditions(s).value)
    decreases |s|
  {
    var (t, rest) := ReadCondition(s).value;
    ConditionReadIsPlain(s);
    if rest != " )" {
      ReadArePlain(rest[5..]);
    }
  }

  /**
   The text that is printed for some targets is read as exactly those targets, in order, if and
   only if no key holds a space, no value a comma or a closing brace, and none is without values.
   */
  lemma {:induction false} ReadsBack(ts: seq<Target>)
    requires ts != []
    ensures ReadDnf(Conjunction(ts)) == Some(ts) <==> AllPlain(ts)
  {
    var parts := Prints(ts);
    PrintsHead(ts);
    JoinIsRest(parts);
    var inner := Inside(ts);
    Regroup("", "( ", Join(parts, " and "), " )");
    assert Conjunction(ts) == "( " + inner;
    assert ("( " + inner)[2..] == inner;
    if AllPlain(ts) {
      ConditionsAreRead(ts);
    } else if ReadConditions(inner).Some? {
      ReadArePlain(inner);
    }
  }

  // ---------- From the calls to the text ----------

  /** The text of an ad is read as its targets whenever the calls of AddTarget were plain. */
  lemma {:induction false} AddedTargetsAreRead(calls: seq<Call>)
    requires calls != [] && forall c :: c in calls ==> ' ' !in c.key && ',' !in c.value && '}' !in c.value
    ensures ReadDnf(Conjunction(AddAll(calls))) == Some(AddAll(calls))
  {
    var ts := AddAll(calls);
    SomeTarget(calls);
    forall k | 0 <= k < |ts| ensures Plain(ts[k]) {
      TargetOfCalls(calls, k);
      assert ts[k].vals[0] in ts[k].vals;
    }
    ReadsBack(ts);
  }
}
