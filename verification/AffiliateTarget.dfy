/** Reading the targeting conditions of an ad back from their text (src/affiliate/affiliate.go). */
module AffiliateTarget {
  import opened Options
  import opened Text
  import opened Targets

  // ---------- The three patterns ----------

  /** \s */
  predicate IsSpace(c: char) { c == ' ' || c == '\t' || c == '\n' || c == '\r' || c == '\U{0C}' }

  /** `name in \{\s*(group)\s*\}` */
  datatype Reg = CountryReg | PlatformReg | OsvReg {
    function Name(): (n: string)
      ensures n != "" && n[|n| - 1] != 't' && forall c :: c in n ==> c != ' ' && c != '{'
    {
      match this
      case CountryReg => "country"
      case PlatformReg => "platform"
      case OsvReg => "osv"
    }

    /** The characters of a value, where the group is any values with commas between. */
    predicate Ok(c: char) {
      match this
      case CountryReg => 'A' <= c <= 'Z'
      case PlatformReg => false
      case OsvReg => IsDigit(c) || c == '.'
    }

    predicate Group(w: string) {
      match this
      case PlatformReg => w == "Android" || w == "iOS"
      case _ => w != "" && forall c :: c in w ==> Ok(c) || c == ','
    }
  }

  ghost predicate Spaces(s: string) {
    forall k :: 0 <= k < |s| ==> s[k] == ' ' || s[k] == '\t' || s[k] == '\n' || s[k] == '\r' || s[k] == '\U{0C}'
  }

  /** What the pattern says of the text behind the opening brace. */
  ghost predicate Captures(r: Reg, u: string, w: string) {
    exists before, after, rest :: CapturesWith(r, u, before, w, after, rest)
  }

  ghost predicate CapturesWith(r: Reg, u: string, before: string, w: string, after: string, rest: string) {
    Spaces(before) && r.Group(w) && Spaces(after) && u == before + w + after + "}" + rest
  }

  function AfterSpaces(s: string): string {
    if s != "" && IsSpace(s[0]) then AfterSpaces(s[1..]) else s
  }

  function Word(s: string): (w: string)
    ensures w <= s
  {
    if s != "" && !IsSpace(s[0]) && s[0] != '}' then [s[0]] + Word(s[1..]) else ""
  }

  /** The group of the pattern in the text behind an opening brace. */
  function GroupIn(r: Reg, u: string): Option<string> {
    var v := AfterSpaces(u);
    var w := Word(v);
    var end := AfterSpaces(v[|w|..]);
    if end != "" && end[0] == '}' && r.Group(w) then Some(w) else None
  }

  function Head(r: Reg): string { r.Name() + " in {" }

  /** FindStringSubmatch: the group of the leftmost match. */
  function FindGroup(r: Reg, s: string): Option<string> {
    if Head(r) <= s && GroupIn(r, s[|Head(r)|..]).Some? then GroupIn(r, s[|Head(r)|..])
    else if s == "" then None
    else FindGroup(r, s[1..])
  }

  // ---------- The pattern is matched exactly ----------

  lemma {:induction false} AfterSpacesSkips(before: string, s: string)
    requires Spaces(before) && s != "" && !IsSpace(s[0])
    ensures AfterSpaces(before + s) == s
  {
    if before == "" {
      assert before + s == s;
    } else {
      assert before[0] in before && (before + s)[1..] == before[1..] + s;
      AfterSpacesSkips(before[1..], s);
    }
  }

  lemma {:induction false} WordIs(w: string, s: string)
    requires forall c :: c in w ==> !IsSpace(c) && c != '}'
    requires s != "" && (IsSpace(s[0]) || s[0] == '}')
    ensures Word(w + s) == w
  {
    if w == "" {
      assert w + s == s;
    } else {
      assert w[0] in w && (w + s)[1..] == w[1..] + s;
      WordIs(w[1..], s);
    }
  }

  lemma {:induction false} SpacesBefore(s: string) returns (before: string)
    ensures Spaces(before) && s == before + AfterSpaces(s)
  {
    if s != "" && IsSpace(s[0]) {
      before := SpacesBefore(s[1..]);
      before := [s[0]] + before;
    } else {
      before := "";
    }
  }

  lemma {:induction false} GroupChars(r: Reg, w: string)
    requires r.Group(w)
    ensures w != "" && forall c :: c in w ==> !IsSpace(c) && c != '}'
  {
  }

  /** The group found is the only one the pattern allows, and it is found whenever there is one. */
  lemma {:induction false} GroupIsExact(r: Reg, u: string, w: string)
    ensures GroupIn(r, u) == Some(w) <==> Captures(r, u, w)
  {
    if GroupIn(r, u) == Some(w) {
      FoundIsCaptured(r, u, w);
    }
    if Captures(r, u, w) {
      var before, after, rest :| CapturesWith(r, u, before, w, after, rest);
      CapturedIsFound(r, u, before, w, after, rest);
    }
  }

  lemma {:induction false} FoundIsCaptured(r: Reg, u: string, w: string)
    requires GroupIn(r, u) == Some(w)
    ensures Captures(r, u, w)
  {
    var v := AfterSpaces(u);
    var t := v[|w|..];
    var before := SpacesBefore(u);
    var after := SpacesBefore(t);
    var end := AfterSpaces(t);
    Glue(u, before, v, w, t, after, end);
    assert CapturesWith(r, u, before, w, after, end[1..]);
  }

  lemma {:induction false} Glue(u: string, before: string, v: string, w: string, t: string, after: string, end: string)
    requires u == before + v && w <= v && t == v[|w|..] && t == after + end && end != "" && end[0] == '}'
    ensures u == before + w + after + "}" + end[1..]
  {
    assert v == w + t && end == "}" + end[1..];
  }

  lemma {:induction false} CapturedIsFound(r: Reg, u: string, before: string, w: string, after: string, rest: string)
    requires CapturesWith(r, u, before, w, after, rest)
    ensures GroupIn(r, u) == Some(w)
  {
    GroupChars(r, w);
    var end := "}" + rest;
    assert w[0] in w && u == before + (w + (after + end));
    AfterSpacesSkips(before, w + (after + end));
    assert after != "" ==> after[0] in after;
    WordIs(w, after + end);
    assert (w + (after + end))[|w|..] == after + end;
    AfterSpacesSkips(after, end);
  }

  // ---------- Where a match can be ----------

  predicate EndsWith(s: string, w: string) {
    |w| <= |s| && s[|s| - |w|..] == w
  }

  /** With no brace in the front, only its end can belong to a match. */
  lemma {:induction false} FindBehind(r: Reg, front: string, u: string)
    requires '{' !in front
    ensures FindGroup(r, front + "{" + u) ==
            if EndsWith(front, r.Name() + " in ") && GroupIn(r, u).Some? then GroupIn(r, u) else FindGroup(r, u)
  {
    var s, before := front + "{" + u, r.Name() + " in ";
    HeadAtFront(r, front, u);
    if front == "" {
      assert s[1..] == u;
    } else if front == before && GroupIn(r, u).Some? {
      assert s[|Head(r)|..] == u;
    } else {
      assert s[1..] == front[1..] + "{" + u;
      assert front == before ==> s[|Head(r)|..] == u;
      assert forall c :: c in front[1..] ==> c in front;
      FindBehind(r, front[1..], u);
      EndsWithStep(front, before);
    }
  }

  lemma {:induction false} EndsWithStep(s: string, w: string)
    requires s != ""
    ensures EndsWith(s, w) <==> s == w || EndsWith(s[1..], w)
  {
    if |w| < |s| {
      assert s[1..][|s| - 1 - |w|..] == s[|s| - |w|..];
    }
  }

  lemma {:induction false} HeadAtFront(r: Reg, front: string, u: string)
    requires '{' !in front
    ensures Head(r) <= front + "{" + u <==> front == r.Name() + " in "
  {
    var s, before := front + "{" + u, r.Name() + " in ";
    assert Head(r) == before + "{";
    assert forall k :: 0 <= k < |front| ==> front[k] in front;
    assert forall k :: 0 <= k < |before| ==> before[k] != '{';
    if Head(r) <= s {
      assert s[|before|] == '{' && s[|front|] == '{';
      assert |front| == |before|;
      assert s[..|front|] == front && s[..|before|] == before;
    }
  }

  lemma {:induction false} FindNothing(r: Reg, s: string)
    requires '{' !in s
    ensures FindGroup(r, s) == None
  {
    assert Head(r)[|Head(r)| - 1] == '{' && forall k :: 0 <= k < |s| ==> s[k] in s;
    if s != "" {
      FindNothing(r, s[1..]);
    }
  }

  // ---------- The text of some targets ----------

  /** What is printed behind the opening brace. */
  function Back(t: Target): string { " " + Join(t.vals, ",") + " }" }

  function Captured(r: Reg, t: Target): Option<string> { GroupIn(r, Back(t)) }

  predicate Hit(r: Reg, t: Target) { t.belong && EndsWith(t.key, r.Name()) && Captured(r, t).Some? }

  ghost predicate NoBraces(t: Target) {
    '{' !in t.key && forall v :: v in t.vals ==> '{' !in v
  }

  lemma {:induction false} BackHasNoBrace(t: Target)
    requires NoBraces(t)
    ensures '{' !in Back(t)
  {
    JoinChars(t.vals, ",", c => c != '{');
  }

  lemma {:induction false} AfterSpacesPrefix(u: string, x: string)
    requires '}' in u
    ensures AfterSpaces(u + x) == AfterSpaces(u) + x && '}' in AfterSpaces(u)
  {
    if IsSpace(u[0]) {
      assert (u + x)[1..] == u[1..] + x;
      AfterSpacesPrefix(u[1..], x);
    }
  }

  lemma {:induction false} WordPrefix(u: string, x: string)
    requires '}' in u
    ensures Word(u + x) == Word(u) && '}' in u[|Word(u)|..]
  {
    if !IsSpace(u[0]) && u[0] != '}' {
      assert (u + x)[1..] == u[1..] + x;
      WordPrefix(u[1..], x);
      assert u[|Word(u)|..] == u[1..][|Word(u[1..])|..];
    } else {
      assert u[0..] == u;
    }
  }

  lemma {:induction false} GroupInPrefix(r: Reg, u: string, x: string)
    requires '}' in u
    ensures GroupIn(r, u + x) == GroupIn(r, u)
  {
    AfterSpacesPrefix(u, x);
    var v := AfterSpaces(u);
    WordPrefix(v, x);
    var t := v[|Word(v)|..];
    assert (v + x)[|Word(v)|..] == t + x;
    AfterSpacesPrefix(t, x);
    assert AfterSpaces(t) != "";
  }

  /** Everything before the brace of a target. */
  function Front(before: string, t: Target): string {
    before + t.key + " " + (if t.belong then "in" else "not in") + " "
  }

  lemma {:induction false} FrontEnds(name: string, before: string, t: Target)
    requires name != "" && name[|name| - 1] != 't' && ' ' !in name
    requires before != "" && before[|before| - 1] == ' '
    ensures EndsWith(Front(before, t), name + " in ") <==> t.belong && EndsWith(t.key, name)
  {
    var s := before + t.key;
    if t.belong {
      assert Front(before, t) == s + " in ";
      EndsWithSame(s, name, " in ");
      EndsWithKey(before, t.key, name);
    } else {
      assert Front(before, t) == s + " not" + " in ";
      EndsWithSame(s + " not", name, " in ");
      var u := s + " not";
      assert |name| <= |u| ==> u[|u| - |name|..][|name| - 1] == u[|u| - 1] == 't';
    }
  }

  lemma {:induction false} EndsWithSame(s: string, w: string, x: string)
    ensures EndsWith(s + x, w + x) <==> EndsWith(s, w)
  {
    if |w| <= |s| {
      assert (s + x)[|s| - |w|..] == s[|s| - |w|..] + x;
      assert (w + x)[..|w|] == w && (s[|s| - |w|..] + x)[..|w|] == s[|s| - |w|..];
    }
  }

  lemma {:induction false} EndsWithKey(before: string, key: string, name: string)
    requires before != "" && before[|before| - 1] == ' ' && ' ' !in name
    ensures EndsWith(before + key, name) <==> EndsWith(key, name)
  {
    var s := before + key;
    if |name| <= |key| {
      assert s[|s| - |name|..] == key[|key| - |name|..];
    } else {
      var k := |name| - |key| - 1;
      assert name[k] in name;
      assert |name| <= |s| ==> s[|s| - |name|..][k] == s[|before| - 1];
    }
  }

  lemma {:induction false} FindInTarget(r: Reg, before: string, t: Target, rest: string)
    requires NoBraces(t) && '{' !in before && before != "" && before[|before| - 1] == ' '
    ensures FindGroup(r, before + Print(t) + rest) == if Hit(r, t) then Captured(r, t) else FindGroup(r, Back(t) + rest)
  {
    var front := Front(before, t);
    assert before + Print(t) + rest == front + "{" + (Back(t) + rest);
    assert '{' !in front;
    FindBehind(r, front, Back(t) + rest);
    FrontEnds(r.Name(), before, t);
    GroupInPrefix(r, Back(t), rest);
  }

  /** The text behind the first conjuncts. */
  function Rest(parts: seq<string>): string {
    if parts == [] then " )" else " and " + parts[0] + Rest(parts[1..])
  }

  lemma {:induction false} JoinIsRest(parts: seq<string>)
    requires parts != []
    ensures Join(parts, " and ") + " )" == parts[0] + Rest(parts[1..])
  {
    if |parts| > 1 {
      JoinIsRest(parts[1..]);
      Regroup(parts[0], " and ", Join(parts[1..], " and "), " )");
      Regroup3(parts[0], " and ", parts[1..][0], Rest(parts[1..][1..]));
    }
  }

  lemma {:induction false} Regroup(a: string, b: string, c: string, d: string)
    ensures a + b + c + d == a + b + (c + d)
  {
  }

  lemma {:induction false} Regroup3(a: string, b: string, c: string, d: string)
    ensures a + b + (c + d) == a + (b + c + d)
  {
  }

  lemma {:induction false} PrintsAt(ts: seq<Target>)
    ensures |Prints(ts)| == |ts| && forall k :: 0 <= k < |ts| ==> Prints(ts)[k] == Print(ts[k])
  {
    if ts != [] {
      PrintsAt(ts[..|ts| - 1]);
    }
  }

  lemma {:induction false} PrintsHead(ts: seq<Target>)
    requires ts != []
    ensures |Prints(ts)| == |ts| && Prints(ts)[0] == Print(ts[0]) && Prints(ts)[1..] == Prints(ts[1..])
  {
    PrintsAt(ts);
    PrintsAt(ts[1..]);
  }

  /** The first target that the pattern fits. */
  function Found(r: Reg, ts: seq<Target>): Option<string> {
    if ts == [] then None else if Hit(r, ts[0]) then Captured(r, ts[0]) else Found(r, ts[1..])
  }

  lemma {:induction false} FindInRest(r: Reg, before: string, ts: seq<Target>)
    requires '{' !in before && forall t :: t in ts ==> NoBraces(t)
    ensures FindGroup(r, before + Rest(Prints(ts))) == Found(r, ts)
    decreases |ts|, 1
  {
    if ts == [] {
      FindNothing(r, before + " )");
    } else {
      var more := Rest(Prints(ts[1..]));
      assert ts[0] in ts && forall t :: t in ts[1..] ==> t in ts;
      PrintsHead(ts);
      Regroup3(before, " and ", Print(ts[0]), more);
      FindInTargetThen(r, before + " and ", ts);
    }
  }

  lemma {:induction false} FindInTargetThen(r: Reg, before: string, ts: seq<Target>)
    requires ts != [] && forall t :: t in ts ==> NoBraces(t)
    requires '{' !in before && before != "" && before[|before| - 1] == ' '
    ensures FindGroup(r, before + (Print(ts[0]) + Rest(Prints(ts[1..])))) == Found(r, ts)
    decreases |ts|, 0
  {
    var p, more := Print(ts[0]), Rest(Prints(ts[1..]));
    assert ts[0] in ts && forall t :: t in ts[1..] ==> t in ts;
    assert before + p + more == before + (p + more);
    FindInTarget(r, before, ts[0], more);
    BackHasNoBrace(ts[0]);
    FindInRest(r, Back(ts[0]), ts[1..]);
  }

  lemma {:induction false} FindInConjunction(r: Reg, ts: seq<Target>)
    requires ts != [] && forall t :: t in ts ==> NoBraces(t)
    ensures FindGroup(r, Conjunction(ts)) == Found(r, ts)
  {
    PrintsHead(ts);
    JoinIsRest(Prints(ts));
    var all := Join(Prints(ts), " and ");
    assert "( " + all + " )" == "( " + (all + " )");
    FindInTargetThen(r, "( ", ts);
  }

  /** No key but the name itself ends in the name. */
  ghost predicate OwnName(r: Reg, ts: seq<Target>) {
    forall i :: 0 <= i < |ts| && EndsWith(ts[i].key, r.Name()) ==> ts[i].key == r.Name()
  }

  lemma {:induction false} FoundByName(r: Reg, ts: seq<Target>)
    requires UniqueKeys(ts) && OwnName(r, ts)
    ensures Found(r, ts) ==
            match Lookup(ts, r.Name()) case Some(t) => (if t.belong then Captured(r, t) else None) case None => None
  {
    if ts != [] {
      FoundByName(r, ts[1..]);
      assert EndsWith(r.Name(), r.Name());
      if ts[0].key == r.Name() {
        assert forall i :: 0 <= i < |ts| - 1 ==> ts[1..][i].key == ts[i + 1].key;
        assert Lookup(ts[1..], r.Name()) == None;
      }
    }
  }

  // ---------- Reading ----------

  /** parseTargets; no match gives no values. */
  function ParseTargets(r: Reg, dnf: string): seq<string> {
    match FindGroup(r, dnf)
    case Some(w) => Split(w, ',')
    case None => []
  }

  function RemoveFirst(s: seq<string>, x: string): seq<string> {
    if s == [] then [] else if s[0] == x then s[1..] else [s[0]] + RemoveFirst(s[1..], x)
  }

  method WithoutFirst(s: seq<string>, x: string) returns (r: seq<string>)
    ensures r == RemoveFirst(s, x)
  {
    r := s;
    var i := 0;
    while i != |r|
      invariant 0 <= i <= |r| && r == s && NotYet(s, x, i)
    {
      FirstIs(s, x, i);
      if r[i] == x {
        r := r[..i] + r[i + 1..];
        break;
      }
      i := i + 1;
    }
  }

  /** The first `x` is not before `i`. */
  ghost predicate NotYet(s: seq<string>, x: string, i: nat) {
    i <= |s| && RemoveFirst(s, x) == s[..i] + RemoveFirst(s[i..], x)
  }

  lemma {:induction false} FirstIs(s: seq<string>, x: string, i: nat)
    requires NotYet(s, x, i) && i < |s|
    ensures if s[i] == x then RemoveFirst(s, x) == s[..i] + s[i + 1..] else NotYet(s, x, i + 1)
  {
    assert s[i..][1..] == s[i + 1..];
    if s[i] != x {
      assert s[..i] + ([s[i]] + RemoveFirst(s[i + 1..], x)) == s[..i + 1] + RemoveFirst(s[i + 1..], x);
    }
  }

  class ParsedTarget {
    var country: seq<string>
    var platform: seq<string>
    var osv: seq<string>

    constructor () {
      country, platform, osv := [], [], [];
    }

    method Parse(dnf: string)
      modifies this
      ensures country == RemoveFirst(ParseTargets(CountryReg, dnf), "DEBUG")
      ensures platform == ParseTargets(PlatformReg, dnf) && osv == ParseTargets(OsvReg, dnf)
    {
      var countries := ParseTargets(CountryReg, dnf);
      country := WithoutFirst(countries, "DEBUG");
      platform := ParseTargets(PlatformReg, dnf);
      osv := ParseTargets(OsvReg, dnf);
    }
  }

  // ---------- The round trip ----------

  /** Targets as the server makes them: at most one for a key, no braces, no other key ending in the pattern's name. */
  ghost predicate Readable(r: Reg, ts: seq<Target>) {
    && ts != [] && UniqueKeys(ts) && OwnName(r, ts)
    && forall t :: t in ts ==> NoBraces(t) && t.vals != []
  }

  /** The values of the "in" target for a key; "not in" values are not read back. */
  function InValues(ts: seq<Target>, key: string): seq<string> {
    match Lookup(ts, key)
    case Some(t) => if t.belong then t.vals else []
    case None => []
  }

  lemma {:induction false} ReadsOwnTarget(r: Reg, ts: seq<Target>)
    requires Readable(r, ts)
    ensures ParseTargets(r, Conjunction(ts)) == Recovered(r, InValues(ts, r.Name()))
  {
    FindInConjunction(r, ts);
    FoundByName(r, ts);
  }

  /** What is read back of some "in" values. */
  function Recovered(r: Reg, vals: seq<string>): seq<string> {
    if vals == [] then [] else
    match Captured(r, Target("", true, vals))
    case Some(w) => Split(w, ',')
    case None => []
  }

  /** Countries of upper-case letters, versions of digits and points. */
  ghost predicate AllOk(r: Reg, vals: seq<string>) {
    forall v, c :: v in vals && c in v ==>
      match r
      case CountryReg => 'A' <= c <= 'Z'
      case PlatformReg => false
      case OsvReg => '0' <= c <= '9' || c == '.'
  }

  lemma {:induction false} SplitChars(s: string, c: char)
    ensures forall part, x :: part in Split(s, c) && x in part ==> x in s
    decreases |s|
  {
    var i := IndexOf(s, c);
    if i < |s| {
      SplitChars(s[i + 1..], c);
    }
  }

  lemma {:induction false} SplitEmpty(s: string, c: char)
    requires Split(s, c) == [""]
    ensures s == ""
  {
  }

  lemma {:induction false} OnlyOkIsRecovered(r: Reg, vals: seq<string>)
    requires r != PlatformReg
    ensures AllOk(r, Recovered(r, vals)) && Recovered(r, vals) != [""]
  {
    if vals != [] {
      match Captured(r, Target("", true, vals))
      case Some(w) =>
        SplitChars(w, ',');
        forall v, c | v in Split(w, ',') && c in v ensures r.Ok(c) {
          assert c in w && c != ',';
        }
        if Split(w, ',') == [""] { SplitEmpty(w, ','); }
      case None =>
    }
  }

  lemma {:induction false} JoinNotEmpty(vals: seq<string>)
    requires vals != [] && vals != [""]
    ensures Join(vals, ",") != ""
  {
    if |vals| == 1 {
      assert vals == [vals[0]];
    }
  }

  lemma {:induction false} GroupIsCaptured(r: Reg, vals: seq<string>)
    requires r.Group(Join(vals, ","))
    ensures Captured(r, Target("", true, vals)) == Some(Join(vals, ","))
  {
    var w := Join(vals, ",");
    assert CapturesWith(r, " " + w + " }", " ", w, " ", "");
    GroupIsExact(r, " " + w + " }", w);
  }

  lemma {:induction false} OkIsRecovered(r: Reg, vals: seq<string>)
    requires r != PlatformReg && vals != [] && vals != [""] && AllOk(r, vals)
    ensures Recovered(r, vals) == vals
  {
    JoinNotEmpty(vals);
    JoinChars(vals, ",", c => r.Ok(c) || c == ',');
    GroupIsCaptured(r, vals);
    assert forall k :: 0 <= k < |vals| ==> vals[k] in vals && ',' !in vals[k];
    SplitJoin(vals, ',');
  }

  lemma {:induction false} EmptyIsNotRead()
    ensures Recovered(CountryReg, [""]) == []
  {
    var u := Back(Target("", true, [""]));
    assert u == "  }" && u[1..] == " }" && u[1..][1..] == "}";
    assert AfterSpaces(u) == "}" && Word("}") == "";
  }

  lemma {:induction false} RemoveFirstKeeps(s: seq<string>, x: string)
    ensures forall v :: v in RemoveFirst(s, x) ==> v in s
    ensures forall v :: v in s && v != x ==> v in RemoveFirst(s, x)
  {
    if s != [] {
      RemoveFirstKeeps(s[1..], x);
    }
  }

  lemma {:induction false} RemovedAllOk(vals: seq<string>, back: seq<string>)
    requires AllOk(CountryReg, back) && RemoveFirst(back, "DEBUG") == RemoveFirst(vals, "DEBUG")
    ensures AllOk(CountryReg, vals)
  {
    RemoveFirstKeeps(vals, "DEBUG");
    RemoveFirstKeeps(back, "DEBUG");
    forall v, c | v in vals && c in v ensures CountryReg.Ok(c) {
      if v != "DEBUG" {
        assert v in RemoveFirst(vals, "DEBUG");
        assert v in back;
      }
    }
  }

  /**
   Reading the printed targets gives back exactly the "in" countries, in order and without the
   one DEBUG, if and only if these are made of upper-case letters and are not one empty string.
   Whatever other targets there are makes no difference, and "not in" countries are not read.
   */
  lemma {:induction false} CountriesAreReadBack(ts: seq<Target>)
    requires Readable(CountryReg, ts)
    ensures var vals := InValues(ts, "country");
            RemoveFirst(ParseTargets(CountryReg, Conjunction(ts)), "DEBUG") == RemoveFirst(vals, "DEBUG")
            <==> AllOk(CountryReg, vals) && vals != [""]
    ensures InValues(ts, "country") == [] ==> ParseTargets(CountryReg, Conjunction(ts)) == []
  {
    var vals := InValues(ts, "country");
    ReadsOwnTarget(CountryReg, ts);
    OnlyOkIsRecovered(CountryReg, vals);
    if vals != [] && vals != [""] && AllOk(CountryReg, vals) {
      OkIsRecovered(CountryReg, vals);
    } else if vals == [""] {
      EmptyIsNotRead();
    } else if RemoveFirst(Recovered(CountryReg, vals), "DEBUG") == RemoveFirst(vals, "DEBUG") {
      RemovedAllOk(vals, Recovered(CountryReg, vals));
    }
  }

  lemma {:induction false} MyCountryIsHit(t: Target)
    requires t == Target("mycountry", true, ["US"])
    ensures Hit(CountryReg, t) && Captured(CountryReg, t) == Some("US")
  {
    assert forall c :: c in t.vals[0] ==> 'A' <= c <= 'Z';
    GroupIsCaptured(CountryReg, t.vals);
    assert t.key[|t.key| - 7..] == "country";
  }

  /**
   The pattern is not anchored: a key that only ends in its name is read for it. The input is
   hypothetical, for no call in the repository makes such a key (see ServerTargetsAreReadable).
   */
  lemma {:induction false} LongerKeyIsRead()
    ensures var ts := [Target("mycountry", true, ["US"]), Target("country", true, ["CN"])];
            ParseTargets(CountryReg, Conjunction(ts)) == ["US"]
  {
    var t, u := Target("mycountry", true, ["US"]), Target("country", true, ["CN"]);
    MyCountryIsHit(t);
    FindInConjunction(CountryReg, [t, u]);
    SplitWhole("US", ',');
  }

  /** The same of the two kinds of value lists, before any DEBUG is taken out. */
  lemma {:induction false} ValuesAreReadBack(r: Reg, ts: seq<Target>)
    requires Readable(r, ts) && r != PlatformReg
    ensures var vals := InValues(ts, r.Name());
            ParseTargets(r, Conjunction(ts)) == vals <==> AllOk(r, vals) && vals != [""]
  {
    var vals := InValues(ts, r.Name());
    ReadsOwnTarget(r, ts);
    OnlyOkIsRecovered(r, vals);
    if vals != [] && vals != [""] && AllOk(r, vals) {
      OkIsRecovered(r, vals);
    }
  }

  lemma {:induction false} SplitWhole(w: string, c: char)
    requires c !in w
    ensures Split(w, c) == [w]
  {
    IndexOfIs(w, c, |w|);
  }

  lemma {:induction false} PlatformRecovered(vals: seq<string>)
    requires vals != []
    ensures Recovered(PlatformReg, vals) in {[], ["Android"], ["iOS"]}
    ensures vals == ["Android"] || vals == ["iOS"] ==> Recovered(PlatformReg, vals) == vals
  {
    SplitWhole("Android", ',');
    SplitWhole("iOS", ',');
    if vals == ["Android"] || vals == ["iOS"] {
      GroupIsCaptured(PlatformReg, vals);
    }
  }

  /** A platform is read back if and only if it is the only one and one of the two known. */
  lemma {:induction false} PlatformIsReadBack(ts: seq<Target>)
    requires Readable(PlatformReg, ts)
    ensures var vals := InValues(ts, "platform");
            ParseTargets(PlatformReg, Conjunction(ts)) == vals <==> vals in {[], ["Android"], ["iOS"]}
  {
    var vals := InValues(ts, "platform");
    ReadsOwnTarget(PlatformReg, ts);
    if vals != [] {
      PlatformRecovered(vals);
    }
  }

  // ---------- From the calls to what is read ----------

  ghost predicate ReadableCalls(r: Reg, calls: seq<Call>) {
    && calls != []
    && forall c :: c in calls ==> '{' !in c.key && '{' !in c.value && (EndsWith(c.key, r.Name()) ==> c.key == r.Name())
  }

  lemma {:induction false} TargetOfCalls(calls: seq<Call>, i: nat)
    requires i < |AddAll(calls)|
    ensures var t := AddAll(calls)[i];
            t.vals != [] && forall v :: v in t.vals ==> Call(t.key, v, t.belong) in calls
  {
    var ts := AddAll(calls);
    TargetsAreConditions(calls);
    LookupIs(ts, i);
    assert Lookup(ts, ts[i].key) == ConditionOf(calls, ts[i].key);
    ValuesAreFirstSeen(calls, ts[i].key, ts[i].belong);
  }

  lemma {:induction false} SomeTarget(calls: seq<Call>)
    requires calls != []
    ensures AddAll(calls) != []
  {
    var c := calls[0];
    TargetsAreConditions(calls);
    ValuesAreFirstSeen(calls, c.key, c.belong);
    assert c == Call(c.key, c.value, c.belong) && c in calls;
    assert c.value in Values(calls, c.key, c.belong);
    assert Lookup(AddAll(calls), c.key) == ConditionOf(calls, c.key);
  }

  lemma {:induction false} InValuesOfCalls(calls: seq<Call>, key: string)
    ensures InValues(AddAll(calls), key) == Values(calls, key, true)
  {
    TargetsAreConditions(calls);
    assert Lookup(AddAll(calls), key) == ConditionOf(calls, key);
  }

  lemma {:induction false} ReadableTarget(r: Reg, calls: seq<Call>, i: nat)
    requires ReadableCalls(r, calls) && i < |AddAll(calls)|
    ensures var t := AddAll(calls)[i];
            NoBraces(t) && t.vals != [] && (EndsWith(t.key, r.Name()) ==> t.key == r.Name())
  {
    var t := AddAll(calls)[i];
    TargetOfCalls(calls, i);
    assert t.vals[0] in t.vals;
    assert Call(t.key, t.vals[0], t.belong) in calls;
  }

  lemma {:induction false} TargetsOfCalls(r: Reg, calls: seq<Call>)
    requires ReadableCalls(r, calls)
    ensures Readable(r, AddAll(calls))
  {
    var ts := AddAll(calls);
    SomeTarget(calls);
    TargetsAreConditions(calls);
    forall i | 0 <= i < |ts|
      ensures NoBraces(ts[i]) && ts[i].vals != [] && (EndsWith(ts[i].key, r.Name()) ==> ts[i].key == r.Name())
    {
      ReadableTarget(r, calls, i);
    }
  }

  /** From the calls of AddTarget to the countries an affiliate reads. */
  lemma {:induction false} AddedCountriesAreRead(calls: seq<Call>)
    requires ReadableCalls(CountryReg, calls)
    ensures var vals := Values(calls, "country", true);
            RemoveFirst(ParseTargets(CountryReg, Conjunction(AddAll(calls))), "DEBUG") == RemoveFirst(vals, "DEBUG")
            <==> AllOk(CountryReg, vals) && vals != [""]
    ensures (forall c :: c in calls && c.belong ==> c.key != "country") ==>
            ParseTargets(CountryReg, Conjunction(AddAll(calls))) == []
  {
    TargetsOfCalls(CountryReg, calls);
    InValuesOfCalls(calls, "country");
    CountriesAreReadBack(AddAll(calls));
    ValuesAreFirstSeen(calls, "country", true);
    var vals := Values(calls, "country", true);
    if vals != [] {
      assert Call("country", vals[0], true) in calls;
    }
  }

  // ---------- The calls of the server ----------

  /** The keys that are ever passed to AddTarget. */
  const KEYS: seq<string> := ["material", "country", "region", "city", "platform", "network", "version", "device",
    "pmt"]

  ghost predicate ServerCalls(calls: seq<Call>) {
    calls != [] && forall c :: c in calls ==> c.key in KEYS && '{' !in c.value
  }

  lemma {:induction false} KeyHasNoBrace(i: nat)
    requires i < |KEYS|
    ensures '{' !in KEYS[i]
  {
  }

  /** The last character of a key and its length tell it from the names it is not. */
  lemma {:induction false} KeyEnds(i: nat)
    requires i < |KEYS|
    ensures KEYS[i] != ""
    ensures var last := KEYS[i][|KEYS[i]| - 1];
            && (last == 'y' && |KEYS[i]| >= 7 ==> i == 1) && (last == 'm' && |KEYS[i]| >= 8 ==> i == 4) && last != 'v'
  {
  }

  lemma {:induction false} KeyFits(r: Reg, i: nat)
    requires i < |KEYS| && EndsWith(KEYS[i], r.Name())
    ensures KEYS[i] == r.Name()
  {
    var key, name := KEYS[i], r.Name();
    KeyEnds(i);
    assert key[|key| - 1] == key[|key| - |name|..][|name| - 1] == name[|name| - 1];
    match r
    case CountryReg => assert i == 1;
    case PlatformReg => assert i == 4;
    case OsvReg => assert false;
  }

  /** None of them ends in the name of a pattern without being it. */
  lemma {:induction false} ServerTargetsAreReadable(r: Reg, calls: seq<Call>)
    requires ServerCalls(calls)
    ensures ReadableCalls(r, calls)
  {
    forall c | c in calls ensures '{' !in c.key && (EndsWith(c.key, r.Name()) ==> c.key == r.Name()) {
      var i :| 0 <= i < |KEYS| && KEYS[i] == c.key;
      KeyHasNoBrace(i);
      if EndsWith(KEYS[i], r.Name()) { KeyFits(r, i); }
    }
  }

  /** The versions go under the key `version`, so none is ever read back under `osv`. */
  lemma {:induction false} VersionsAreNotRead(calls: seq<Call>)
    requires ServerCalls(calls)
    ensures ParseTargets(OsvReg, Conjunction(AddAll(calls))) == []
  {
    ServerTargetsAreReadable(OsvReg, calls);
    TargetsOfCalls(OsvReg, calls);
    InValuesOfCalls(calls, "osv");
    ValuesAreFirstSeen(calls, "osv", true);
    var vals := Values(calls, "osv", true);
    if vals != [] {
      assert Call("osv", vals[0], true) in calls;
      NoOsvKey();
      assert false;
    }
    ValuesAreReadBack(OsvReg, AddAll(calls));
  }

  lemma {:induction false} NoOsvKey()
    ensures "osv" !in KEYS
  {
    assert forall i :: 0 <= i < |KEYS| ==> |KEYS[i]| == 3 ==> KEYS[i] == "pmt";
  }
}
