/** Reading back any line `header_line` accepts. Every reader here follows
    the parser of the same level and collects the spacing that parser skips,
    so that what the grammar accepted can be written out again by the
    printers of `ParseText`: an accepted line is exactly a printed one. */
module ParseRead {
  import opened Text
  import opened Parse
  import opened ParseProps
  import opened ParseText

  /** A token parser's value and rest make up its input. */
  lemma SplitsJoin(s: string, r: Parsed<string>)
    requires r.Ok? && Splits(s, r)
    ensures s == r.value + r.rest
  {
    assert s == s[..|r.value|] + s[|r.value|..];
  }

  /** `space0` takes nothing in front of a character other than a space or
      a tab. */
  lemma NoSpaces(t: string)
    requires t == [] || !IsSpace(t[0])
    ensures Space0(t) == Ok(t, [])
  {
    Space0Cat([], t);
    assert [] + t == t;
  }

  /** `tag` takes exactly its text. */
  lemma TagParts(s: string, t: string)
    requires Tag(s, t).Ok?
    ensures s == t + Tag(s, t).rest
  {
    SplitsJoin(s, Tag(s, t));
  }

  // ---- names (parse.rs:39-45) -----------------------------------------------

  /** The spaces after the comma at the start of `s`. */
  function CommaGap(s: string): string {
    if s == [] then [] else Space0(s[1..]).value
  }

  lemma SeparatorParts(s: string)
    requires Separator(s).Ok?
    ensures IsSpaces(CommaGap(s)) && s == "," + (CommaGap(s) + Separator(s).rest)
  {
    var sp := Space0(s[1..]);
    assert Tag(s, ",").rest == s[1..];
    assert Separator(s).rest == sp.rest;
    SplitsJoin(s[1..], sp);
    assert s == [s[0]] + s[1..];
  }

  lemma AllSpacesCons(g: string, gs: seq<string>)
    requires IsSpaces(g) && AllSpaces(gs)
    ensures AllSpaces([g] + gs)
  {
    forall i | 0 <= i < |[g] + gs|
      ensures IsSpaces(([g] + gs)[i])
    {
      if i > 0 {
        assert ([g] + gs)[i] == gs[i - 1];
      }
    }
  }

  /** The spaces after each comma of the names `MoreNames` reads. */
  function GapsOf(s: string): seq<string>
    decreases |s|
  {
    var sep := Separator(s);
    if sep.Err? then [] else
    var name := Alpha1(sep.rest);
    if name.Err? then [] else
    [CommaGap(s)] + GapsOf(name.rest)
  }

  /** What the list loop consumed is `,`, spaces and a name, once per name
      read. */
  lemma {:induction false} MoreNamesRead(s: string)
    ensures var r := MoreNames(s);
      |GapsOf(s)| == |r.value| && AllSpaces(GapsOf(s))
      && s == MoreNamesThen(r.value, GapsOf(s), r.rest)
    decreases |s|
  {
    var sep := Separator(s);
    if sep.Ok? && Alpha1(sep.rest).Ok? {
      var name := Alpha1(sep.rest);
      var more := MoreNames(name.rest);
      MoreNamesRead(name.rest);
      SeparatorParts(s);
      SplitsJoin(sep.rest, name);
      var names := [name.value] + more.value;
      var gaps := [CommaGap(s)] + GapsOf(name.rest);
      AllSpacesCons(CommaGap(s), GapsOf(name.rest));
      assert MoreNames(s) == Ok(more.rest, names);
      assert GapsOf(s) == gaps;
      assert names[0] == name.value && names[1..] == more.value;
      assert gaps[0] == CommaGap(s) && gaps[1..] == GapsOf(name.rest);
      assert MoreNamesThen(names, gaps, more.rest)
          == "," + (CommaGap(s) + (name.value + MoreNamesThen(more.value, GapsOf(name.rest), more.rest)));
    }
  }

  /** The spaces after each comma of the list `NameList` reads. */
  function NameGaps(s: string): seq<string> {
    var name := Alpha1(s);
    if name.Err? then [] else GapsOf(name.rest)
  }

  /** What `separated_list(separator, alpha1)` consumed is a printed name
      list. */
  lemma NameListRead(s: string)
    ensures var r := NameList(s);
      GapsFit(r.value, NameGaps(s)) && AllSpaces(NameGaps(s)) && NamesOk(r.value)
      && s == NamesThen(r.value, NameGaps(s), r.rest)
  {
    NameListNamed(s);
    var name := Alpha1(s);
    if name.Ok? {
      MoreNamesRead(name.rest);
      SplitsJoin(s, name);
      var r := NameList(s);
      assert r.value[0] == name.value && r.value[1..] == MoreNames(name.rest).value;
    }
  }

  // ---- declarations (parse.rs:35-37, 43-64) ---------------------------------

  /** The spaces in front of the colon at the start of `s`. */
  function ColonBefore(s: string): string {
    Space0(s).value
  }

  /** The spaces after that colon. */
  function ColonAfter(s: string): string {
    var r := Space0(s).rest;
    if r == [] then [] else Space0(r[1..]).value
  }

  lemma ColonParts(s: string)
    requires Colon(s).Ok?
    ensures IsSpaces(ColonBefore(s)) && IsSpaces(ColonAfter(s))
    ensures s == ColonBefore(s) + (":" + (ColonAfter(s) + Colon(s).rest))
  {
    var sp := Space0(s);
    var c := Tag(sp.rest, ":");
    var sp2 := Space0(c.rest);
    assert Colon(s).rest == sp2.rest;
    TagParts(sp.rest, ":");
    SplitsJoin(s, sp);
    SplitsJoin(c.rest, sp2);
  }

  /** What follows the keyword at the start of `x`. */
  function AfterKeyword(x: string, library: bool): string {
    var k := |Keyword(library)|;
    if k <= |x| then x[k..] else []
  }

  /** The name list after the colon. */
  function NamesText(after: string): string {
    if Colon(after).Ok? then Colon(after).rest else []
  }

  /** The declaration at the start of `x`, with the spaces `lead` in front
      of it, as `Component` reads it. */
  function DeclAt(lead: string, x: string): Decl {
    var library := TikzLibraryDecl(x).Ok?;
    var after := AfterKeyword(x, library);
    var text := NamesText(after);
    Decl(lead, library, NameList(text).value,
      Spacing(ColonBefore(after), ColonAfter(after), NameGaps(text)))
  }

  /** A keyword list takes its keyword, then a colon, then a name list. */
  lemma KeywordListParts(x: string, kw: string)
    requires NoNewline(kw) && KeywordList(x, kw).Ok?
    ensures |kw| <= |x| && Colon(x[|kw|..]).Ok? && x == kw + x[|kw|..]
    ensures KeywordList(x, kw) == NameList(Colon(x[|kw|..]).rest)
  {
    assert Tag(x, kw).rest == x[|kw|..];
    PrefixJoin(x, kw);
  }

  /** `alt((tikz_library, package))` takes what the keyword list takes and
      reads it as libraries or packages. */
  lemma ComponentParts(x: string)
    requires Component(x).Ok?
    ensures var library := TikzLibraryDecl(x).Ok?;
      var r := KeywordList(x, Keyword(library));
      r.Ok? && Component(x) == Ok(r.rest, DeclItems(DeclAt([], x)))
  {
  }

  /** What `alt((tikz_library, package))` consumed is a printed
      declaration that reads as the same items; a declaration without names
      is followed by neither a space nor a tab. */
  lemma DeclRead(lead: string, x: string)
    requires Component(x).Ok?
    ensures var d := DeclAt(lead, x);
      var r := Component(x);
      DeclOk(d) && x == DeclThen(d, r.rest) && DeclItems(d) == r.value
      && (d.names == [] ==> r.rest == [] || !IsSpace(r.rest[0]))
  {
    var library := TikzLibraryDecl(x).Ok?;
    var kw := Keyword(library);
    ComponentParts(x);
    KeywordOnLine(library);
    KeywordListParts(x, kw);
    var after := x[|kw|..];
    assert AfterKeyword(x, library) == after;
    var text := Colon(after).rest;
    assert NamesText(after) == text;
    ColonParts(after);
    NameListRead(text);
    var d := DeclAt(lead, x);
    assert DeclItems(d) == DeclItems(DeclAt([], x));
  }

  // ---- a whole line (parse.rs:66-72) ----------------------------------------

  /** The declarations `MoreDecls` reads, each with the spaces in front of
      it. */
  function DeclsAt(s: string): seq<Decl>
    decreases |s|
  {
    var sp := Space1(s);
    if sp.Err? then [] else
    var decl := Component(sp.rest);
    if decl.Err? then [] else
    [DeclAt(sp.value, sp.rest)] + DeclsAt(decl.rest)
  }

  /** Where no declaration is read, the loop consumes nothing. */
  lemma DeclsAtNone(t: string)
    ensures DeclsAt(t) == [] ==> MoreDecls(t) == Ok(t, [])
    ensures (t == [] || !IsSpace(t[0])) ==> DeclsAt(t) == []
  {
  }

  lemma DeclsOkCons(d: Decl, ds: seq<Decl>)
    requires DeclOk(d) && d.lead != [] && IsSpaces(d.lead) && DeclsOk(ds)
    requires d.names == [] ==> ds == []
    ensures DeclsOk([d] + ds)
    ensures EndsOpen([d] + ds) ==> (if ds == [] then d.names == [] else EndsOpen(ds))
  {
    var e := [d] + ds;
    forall i | 0 <= i < |e|
      ensures DeclOk(e[i]) && e[i].lead != [] && IsSpaces(e[i].lead)
           && (e[i].names == [] ==> i == |e| - 1)
    {
      if i > 0 {
        assert e[i] == ds[i - 1];
      }
    }
    if ds != [] {
      assert e[|e| - 1] == ds[|ds| - 1];
    }
  }

  /** Printing and reading a declaration in front of others. */
  lemma DeclsThenCons(d: Decl, ds: seq<Decl>, tail: string)
    requires DeclOk(d) && DeclsOk([d] + ds)
    ensures DeclsOk(ds)
    ensures DeclsThen([d] + ds, tail) == d.lead + DeclThen(d, DeclsThen(ds, tail))
    ensures DeclsItems([d] + ds) == [DeclItems(d)] + DeclsItems(ds)
  {
    var e := [d] + ds;
    assert e[0] == d && e[1..] == ds;
    DeclsOkTail(e);
  }

  /** One round of the declaration loop: spaces, then a declaration. */
  lemma DeclsLoopStep(s: string)
    requires Space1(s).Ok? && Component(Space1(s).rest).Ok?
    ensures var sp := Space1(s);
      var c := Component(sp.rest);
      var m := MoreDecls(c.rest);
      s == sp.value + sp.rest && sp.value != [] && IsSpaces(sp.value)
      && MoreDecls(s) == Ok(m.rest, [c.value] + m.value)
      && DeclsAt(s) == [DeclAt(sp.value, sp.rest)] + DeclsAt(c.rest)
  {
    var sp := Space1(s);
    SplitsJoin(s, sp);
    assert All(sp.value, IsSpace);
  }

  /** What the declaration loop consumed is printed declarations, each after
      its spaces, reading as the same items; when the last has no names, no
      space follows. */
  lemma {:induction false} MoreDeclsRead(s: string)
    ensures var r := MoreDecls(s);
      var ds := DeclsAt(s);
      DeclsOk(ds) && s == DeclsThen(ds, r.rest) && DeclsItems(ds) == r.value
      && (EndsOpen(ds) ==> r.rest == [] || !IsSpace(r.rest[0]))
    decreases |s|
  {
    var sp := Space1(s);
    if sp.Ok? && Component(sp.rest).Ok? {
      var c := Component(sp.rest);
      var d := DeclAt(sp.value, sp.rest);
      var more := DeclsAt(c.rest);
      var m := MoreDecls(c.rest);
      DeclsLoopStep(s);
      MoreDeclsRead(c.rest);
      DeclRead(sp.value, sp.rest);
      DeclsAtNone(c.rest);
      DeclsOkCons(d, more);
      DeclsThenCons(d, more, m.rest);
    }
  }

  /** The header line at the start of `s`, as `header_line` reads it:
      after `%%`, the declarations are read like those after the first,
      each with the spaces in front of it. */
  function LineAt(s: string): Line {
    if |s| < 2 then Line([], []) else
    var ds := DeclsAt(s[2..]);
    if ds == [] then Line([], Space0(s[2..]).value)
    else Line(ds, Space0(MoreDecls(s[2..]).rest).value)
  }

  lemma PrefixParts(s: string)
    requires Prefix(s).Ok?
    ensures |s| >= 2 && Space1(s[2..]).Ok? && Prefix(s).rest == Space1(s[2..]).rest
    ensures Space1(s[2..]).value != [] && IsSpaces(Space1(s[2..]).value)
    ensures s == "%%" + (Space1(s[2..]).value + Prefix(s).rest)
  {
    var g := Space1(s[2..]);
    assert Tag(s, "%%").rest == s[2..];
    SplitsJoin(s[2..], g);
    PrefixJoin(s, "%%");
    assert All(g.value, IsSpace);
  }

  lemma LineEndParts(t: string)
    requires LineEnd(t).Ok?
    ensures IsSpaces(Space0(t).value)
    ensures t == Space0(t).value + ("\n" + LineEnd(t).rest)
  {
    var sp := Space0(t);
    var nl := Tag(sp.rest, "\n");
    assert nl.rest == sp.rest[1..];
    assert LineEnd(t).rest == nl.rest;
    SplitsJoin(t, sp);
    assert sp.rest == [sp.rest[0]] + sp.rest[1..];
  }

  /** Outside the bare line of `BareComment`, `header_line` is `%%`, at
      least one space or tab, the declaration list and the line end. */
  lemma HeaderLineParts(s: string, dialect: Dialect)
    requires HeaderLine(s, dialect).Ok? && !(dialect == BareComment && StartsWith(s, "%%\n"))
    ensures Prefix(s).Ok? && LineEnd(DeclList(Prefix(s).rest).rest).Ok?
    ensures HeaderLine(s, dialect)
         == Ok(LineEnd(DeclList(Prefix(s).rest).rest).rest, DeclList(Prefix(s).rest).value)
  {
  }

  /** A line without declarations: `%%`, spaces, the newline. */
  lemma BlankLineText(g: string, tail: string)
    requires g != [] && IsSpaces(g)
    ensures LineOk(Line([], g)) && LineThen(Line([], g), tail) == "%%" + (g + ("\n" + tail))
  {
  }

  lemma BlankLineRead(s: string)
    requires Prefix(s).Ok? && Component(Prefix(s).rest).Err?
    requires LineEnd(Prefix(s).rest).Ok?
    ensures var l := LineAt(s);
      LineOk(l) && s == LineThen(l, LineEnd(Prefix(s).rest).rest) && l.decls == []
  {
    var p := Prefix(s);
    PrefixParts(s);
    var sp := Space1(s[2..]);
    assert Space0(s[2..]) == sp;
    var e := LineEnd(p.rest);
    NoSpaces(p.rest);
    LineEndParts(p.rest);
    assert DeclsAt(s[2..]) == [];
    BlankLineText(sp.value, e.rest);
  }

  /** After `%%` and its spaces, the declaration list reads what the
      declaration loop reads from the spaces on. */
  lemma DeclsLineParts(s: string)
    requires Prefix(s).Ok? && Component(Prefix(s).rest).Ok?
    ensures |s| >= 2 && s == "%%" + s[2..]
    ensures DeclList(Prefix(s).rest) == MoreDecls(s[2..]) && DeclsAt(s[2..]) != []
  {
    PrefixParts(s);
    DeclsLoopStep(s[2..]);
    PrefixJoin(s, "%%");
  }

  /** Printed declarations, spaces and the newline after `%%` make a
      printed line. */
  lemma DeclsLineText(x: string, ds: seq<Decl>, r: string)
    requires DeclsOk(ds) && ds != [] && x == DeclsThen(ds, r) && LineEnd(r).Ok?
    requires EndsOpen(ds) ==> r == [] || !IsSpace(r[0])
    ensures var l := Line(ds, Space0(r).value);
      LineOk(l) && "%%" + x == LineThen(l, LineEnd(r).rest)
  {
    LineEndParts(r);
    if EndsOpen(ds) {
      NoSpaces(r);
    }
  }

  /** A line with declarations: `%%`, spaces, printed declarations, spaces
      and the newline. */
  lemma DeclsLineRead(s: string)
    requires Prefix(s).Ok? && Component(Prefix(s).rest).Ok?
    requires LineEnd(DeclList(Prefix(s).rest).rest).Ok?
    ensures var l := LineAt(s);
      LineOk(l) && s == LineThen(l, LineEnd(DeclList(Prefix(s).rest).rest).rest)
      && DeclList(Prefix(s).rest).value == DeclsItems(l.decls)
  {
    var x := s[2..];
    DeclsLineParts(s);
    MoreDeclsRead(x);
    var m := MoreDecls(x);
    DeclsLineText(x, DeclsAt(x), m.rest);
    assert LineAt(s) == Line(DeclsAt(x), Space0(m.rest).value);
  }

  /** Everything `header_line` accepts, apart from the bare line of the
      `BareComment` dialect, is a printed header line that reads as the
      same declarations. */
  lemma LineRead(s: string, dialect: Dialect)
    requires HeaderLine(s, dialect).Ok? && !(dialect == BareComment && StartsWith(s, "%%\n"))
    ensures var l := LineAt(s);
      var r := HeaderLine(s, dialect);
      LineOk(l) && s == LineThen(l, r.rest) && r.value == DeclsItems(l.decls)
  {
    HeaderLineParts(s, dialect);
    if Component(Prefix(s).rest).Ok? {
      DeclsLineRead(s);
    } else {
      assert DeclList(Prefix(s).rest) == Ok(Prefix(s).rest, []);
      BlankLineRead(s);
    }
  }

  /** The acceptance condition of `header_line`: a line other than the
      bare line of `BareComment` is accepted exactly when it is `%%`, at
      least one space or tab, declarations separated by spaces or tabs,
      optional spaces and the newline, as `LineThen` writes them; any other
      content makes the line fail. */
  lemma HeaderLineAccepts(s: string, dialect: Dialect)
    requires !(dialect == BareComment && StartsWith(s, "%%\n"))
    ensures HeaderLine(s, dialect).Ok? <==> exists l: Line, rest: string :: LineOk(l) && s == LineThen(l, rest)
  {
    if HeaderLine(s, dialect).Ok? {
      LineRead(s, dialect);
      var l := LineAt(s);
      assert LineOk(l) && s == LineThen(l, HeaderLine(s, dialect).rest);
    }
    if exists l: Line, rest: string :: LineOk(l) && s == LineThen(l, rest) {
      var l: Line, rest: string :| LineOk(l) && s == LineThen(l, rest);
      LineRoundTrip(l, rest, dialect);
    }
  }

  // ---- the header takes only whole lines (parse.rs:74-84) -------------------

  /** What a header line takes does not depend on the text after it. */
  lemma LineExtend(s: string, dialect: Dialect, t: string)
    requires HeaderLine(s, dialect).Ok?
    ensures var r := HeaderLine(s, dialect);
      HeaderLine(s[..|s| - |r.rest|] + t, dialect) == Ok(t, r.value)
  {
    var r := HeaderLine(s, dialect);
    if dialect == BareComment && StartsWith(s, "%%\n") {
      var u := s[..3];
      assert r == Ok(s[3..], []);
      assert (u + t)[..3] == u && (u + t)[3..] == t;
    } else {
      LineRead(s, dialect);
      var l := LineAt(s);
      LineThenCat(l, r.rest);
      LineThenCat(l, t);
      assert s[..|s| - |r.rest|] == LineThen(l, "");
      LineRoundTrip(l, t, dialect);
    }
  }

  lemma SuffixCut(s: string, mid: string, rest: string)
    requires IsSuffix(mid, s) && IsSuffix(rest, mid)
    ensures s[..|s| - |rest|] == s[..|s| - |mid|] + mid[..|mid| - |rest|]
  {
    var i, j := |s| - |mid|, |s| - |rest|;
    assert s[..j] == s[..i] + s[i..j];
    assert s[i..j] == s[i..][..|mid| - |rest|];
  }

  /** The loop over header lines, run on the lines it took followed by a
      text whose first line it rejects, takes the same lines and stops at
      that text. */
  lemma {:induction false} HeaderLinesExtend(s: string, dialect: Dialect, t: string,
                                             rest: string, lines: seq<seq<seq<Item>>>)
    requires HeaderLines(s, dialect) == Ok(rest, lines) && HeaderLine(t, dialect).Err?
    ensures |rest| <= |s| && HeaderLines(s[..|s| - |rest|] + t, dialect) == Ok(t, lines)
    decreases |s|
  {
    if HeaderLine(s, dialect).Err? {
      assert rest == s && lines == [];
      assert s[..0] + t == t;
    } else {
      var line := HeaderLine(s, dialect);
      var mid := line.rest;
      var more := HeaderLines(mid, dialect);
      assert rest == more.rest && lines == [line.value] + more.value by {
        HeaderLinesUnfold(s, dialect);
      }
      assert |rest| <= |mid| && HeaderLines(mid[..|mid| - |rest|] + t, dialect) == Ok(t, more.value) by {
        HeaderLinesExtend(mid, dialect, t, more.rest, more.value);
      }
      var u := s[..|s| - |mid|];
      var v := mid[..|mid| - |rest|];
      assert s[..|s| - |rest|] + t == u + (v + t) by {
        HeaderLinesWhole(mid, dialect);
        SuffixCut(s, mid, rest);
        Regroup(u, v, t);
      }
      assert HeaderLine(u + (v + t), dialect) == Ok(v + t, line.value) by {
        LineExtend(s, dialect, v + t);
      }
      HeaderLinesUnfold(u + (v + t), dialect);
    }
  }

  /** `header` run on just the lines it took reads the same header and
      takes all of them. */
  lemma HeaderOfTaken(s: string, dialect: Dialect, rest: string, h: Header)
    requires HeaderOf(s, dialect) == Ok(rest, h)
    ensures |rest| <= |s| && HeaderOf(s[..|s| - |rest|], dialect) == Ok([], h)
  {
    var r := HeaderLines(s, dialect);
    assert rest == r.rest && h == Collect(AllItems(r.value));
    var taken := s[..|s| - |rest|];
    assert HeaderLine([], dialect).Err?;
    HeaderLinesExtend(s, dialect, [], rest, r.value);
    assert taken + [] == taken;
    assert HeaderLines(taken, dialect).rest == [] && HeaderLines(taken, dialect).value == r.value;
    assert HeaderOf(taken, dialect).rest == [] && HeaderOf(taken, dialect).value == h;
  }
}
