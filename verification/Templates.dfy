/**
 Template objects and the memo table of the scanner: `scanTpl` in src/ssp/pos.go and
 `TemplateObj` in src/ssp/ssp_info.go.
 */
module Templates {
  import opened Options
  import opened Scanner

  /**
   The library calls these two files make. `digest` is the md5 hex sum; `decode` is
   base64.StdEncoding.DecodeString, None on an error; `encode` and `read` are util.Base64Encode
   and util.Base64Decode, whose callers ignore errors and keep whatever was read.
   */
  datatype Codec = Codec(digest: string -> string,
                         decode: string -> Option<string>, encode: string -> string, read: string -> string)
  {
    /** Encoding can be undone, and both decoders agree on what the strict one accepts. */
    ghost predicate Faithful() {
      && (forall x :: decode(encode(x)) == Some(x))
      && (forall h :: decode(h).Some? ==> read(h) == decode(h).value)
    }

    ghost predicate CollisionFree(texts: set<string>) {
      forall x, y :: x in texts && y in texts && digest(x) == digest(y) ==> x == y
    }
  }

  /** What a scan without the table would return for `h5`. */
  function FreshScan(g: Grammar, c: Codec, h5: string): Option<PosSlice> {
    match c.decode(h5)
    case Some(tpl) => Some(Pieces(g, tpl))
    case None => None
  }

  /** The package variable h5tpl with the function that fills it. */
  class TplTable {
    const g: Grammar
    const c: Codec
    var h5tpl: map<string, PosSlice>
    ghost var origin: map<string, string>  // the template each entry was made from

    ghost predicate Valid()
      reads this
    {
      && origin.Keys == h5tpl.Keys
      && forall sign :: sign in h5tpl ==>
                          c.digest(origin[sign]) == sign && FreshScan(g, c, origin[sign]) == Some(h5tpl[sign])
    }

    constructor (g: Grammar, c: Codec)
      ensures Valid() && this.g == g && this.c == c && h5tpl == map[]
    {
      this.g, this.c, h5tpl, origin := g, c, map[], map[];
    }

    /**
     The answer is a fresh scan of `h5`, or of the earlier template that shares its digest; a
     template that does not decode leaves no entry.
     */
    method ScanTpl(h5: string) returns (ps: PosSlice, ok: bool)
      requires Valid()
      modifies this
      ensures Valid()
      ensures var sign := c.digest(h5);
              if sign in old(h5tpl) then
                && ok && Some(ps) == FreshScan(g, c, old(origin)[sign])
                && h5tpl == old(h5tpl) && origin == old(origin)
              else if c.decode(h5).None? then
                && !ok && h5tpl == old(h5tpl) && origin == old(origin)
              else
                && ok && Some(ps) == FreshScan(g, c, h5)
                && h5tpl == old(h5tpl)[sign := ps] && origin == old(origin)[sign := h5]
      ensures c.CollisionFree(old(origin).Values + {h5}) ==>
                ok == FreshScan(g, c, h5).Some? && (ok ==> Some(ps) == FreshScan(g, c, h5))
      ensures origin.Values <= old(origin).Values + {h5}
    {
      var sign := c.digest(h5);
      if sign in h5tpl {
        assert origin[sign] in origin.Values;
        return h5tpl[sign], true;
      }
      var data := c.decode(h5);
      if data.None? {
        return [], false;
      }
      ps := CutTemplate(g, data.value);
      ok := true;
      h5tpl := h5tpl[sign := ps];
      origin := origin[sign := h5];
    }
  }

  /**
   The text a template gets: a built-in one is looked up by its style, whatever text it had; one
   from a slot keeps its text. Where that leaves none it is the encoded empty page.
   */
  ghost predicate Settled(was: string, kind: int, styleType: int, builtin: map<int, string>, text: string) {
    && (kind == 1 && styleType in builtin ==> text == builtin[styleType])
    && (kind == 2 && was != "" ==> text == was)
    && ((kind == 1 && styleType !in builtin) || (kind == 2 && was == "") ==> text == "PGh0bWw+PC9odG1sPg==")
    && (kind != 1 && kind != 2 ==> text == was)
  }

  const EMPTY_BASE64_HTML := "PGh0bWw+PC9odG1sPg=="

  class TemplateObj {
    var h5: string
    var kind: int            // the Type field: 1 built in, 2 from the slot
    var styleType: int
    var width: int
    var height: int
    var encFlag: int         // 0 un-initialised, 1 encoded, 2 raw
    var initFlag: bool
    var posSlice: PosSlice

    constructor (h5: string, kind: int, styleType: int)
      ensures this.h5 == h5 && this.kind == kind && this.styleType == styleType
      ensures encFlag == 0 && !initFlag && posSlice == []
    {
      this.h5, this.kind, this.styleType := h5, kind, styleType;
      width, height, encFlag, initFlag, posSlice := 0, 0, 0, false, [];
    }

    /** The flag values for which base64Encode and base64Decode do not panic. */
    predicate FlagOk()
      reads this
    {
      0 <= encFlag <= 2
    }

    function Code(): Coded
      reads this
    {
      Coded(h5, encFlag)
    }

    /** The raw text the object stands for in its present encoding. */
    function Text(c: Codec): string
      reads this
    {
      Code().Text(c)
    }

    /** The pieces, when the object offers them, spell the text it stands for. */
    ghost predicate InStep(g: Grammar, c: Codec)
      reads this
    {
      initFlag ==> posSlice == Pieces(g, Text(c))
    }

    /** The H5 that Init settles on: a built-in one, the given one, or the empty page. */
    function InitialH5(builtin: map<int, string>): string
      reads this
    {
      if kind == 1 then (if styleType in builtin then builtin[styleType] else EMPTY_BASE64_HTML)
      else if kind == 2 && h5 == "" then EMPTY_BASE64_HTML
      else h5
    }

    /** The first half of Init. */
    method ChooseH5(builtin: map<int, string>) returns (text: string)
      ensures text == InitialH5(builtin)
    {
      text := h5;
      if kind == 1 {
        if styleType in builtin {
          text := builtin[styleType];
        } else {
          text := EMPTY_BASE64_HTML;
        }
      } else if kind == 2 {
        if |text| == 0 {
          text := EMPTY_BASE64_HTML;
        }
      }
    }

    /**
     Init leaves the object in step, except on one that holds raw text already: that text is
     then scanned as if it were base64 (ScannedAsBase64 says when that goes unnoticed).
     */
    method Init(table: TplTable, builtin: map<int, string>)
      requires table.Valid() && table.c.Faithful()
      requires table.c.CollisionFree(table.origin.Values + {InitialH5(builtin)})
      modifies this, table
      ensures table.Valid() && table.origin.Values <= old(table.origin.Values + {InitialH5(builtin)})
      ensures h5 == old(InitialH5(builtin)) && encFlag == old(encFlag)
      ensures Settled(old(h5), kind, styleType, builtin, h5)
      ensures initFlag <==> table.c.decode(h5).Some?
      ensures initFlag ==> posSlice == Pieces(table.g, table.c.decode(h5).value)
      ensures encFlag != 2 ==> InStep(table.g, table.c)
    {
      h5 := ChooseH5(builtin);
      var ps, ok := table.ScanTpl(h5);
      if ok {
        posSlice := ps;
        initFlag := true;
        return;
      }
      initFlag := false;
    }

    method Base64Encode(c: Codec)
      requires FlagOk() && c.Faithful()
      modifies this`h5, this`encFlag
      ensures FlagOk() && Code() == old(Code()).Step(c, Encode) && Text(c) == old(Text(c))
    {
      if encFlag == 2 {
        h5 := c.encode(h5);
      }
      encFlag := 1;
    }

    /** `size` is matchTplSize, which reads the picture size out of the decoded page. */
    method Base64Decode(c: Codec, size: string -> (int, int))
      requires FlagOk()
      modifies this`h5, this`encFlag, this`width, this`height
      ensures FlagOk() && Code() == old(Code()).Step(c, Decode) && Text(c) == old(Text(c))
      ensures (width, height) == if old(encFlag) == 0 then size(h5) else old((width, height))
    {
      if encFlag != 2 {
        var b := c.read(h5);
        if encFlag == 0 {
          var wh := size(b);
          width, height := wh.0, wh.1;
        }
        h5 := b;
      }
      encFlag := 2;
    }
  }

  /** Init on raw text that happens to decode: in step exactly if decoding does not change it. */
  lemma {:induction false} ScannedAsBase64(g: Grammar, c: Codec, h5: string)
    requires c.decode(h5).Some?
    ensures Pieces(g, c.decode(h5).value) == Pieces(g, h5) <==> c.decode(h5) == Some(h5)
  {
    ScanIsLossless(g, c.decode(h5).value);
    ScanIsLossless(g, h5);
  }

  // ---------- Runs of the flag transitions ----------

  datatype Op = Encode | Decode

  datatype Coded = Coded(h5: string, encFlag: int) {
    function Text(c: Codec): string {
      if encFlag == 2 then h5 else c.read(h5)
    }

    function Step(c: Codec, op: Op): Coded {
      match op
      case Encode => Coded(if encFlag == 2 then c.encode(h5) else h5, 1)
      case Decode => Coded(if encFlag == 2 then h5 else c.read(h5), 2)
    }

    function Run(c: Codec, ops: seq<Op>): Coded
      decreases |ops|
    {
      if ops == [] then this else Step(c, ops[0]).Run(c, ops[1..])
    }
  }

  /**
   However often a template is encoded and decoded, it denotes the text Init scanned. After a
   decoding it is that text. After an encoding it is the text it had if it was never decoded, and
   else the encoded text.
   */
  lemma {:induction false} RunsKeepText(c: Codec, t: Coded, ops: seq<Op>)
    requires c.Faithful()
    ensures t.Run(c, ops).Text(c) == t.Text(c)
    ensures ops != [] && ops[|ops| - 1] == Decode ==> t.Run(c, ops) == Coded(t.Text(c), 2)
    ensures ops != [] && ops[|ops| - 1] == Encode ==>
            t.Run(c, ops) == Coded(if t.encFlag == 2 || Decode in ops then c.encode(t.Text(c)) else t.h5, 1)
    decreases |ops|
  {
    if ops != [] {
      var u := t.Step(c, ops[0]);
      assert u.Text(c) == t.Text(c);
      RunsKeepText(c, u, ops[1..]);
      if |ops| > 1 { assert ops[1..][|ops| - 2] == ops[|ops| - 1]; }
    }
  }
}
