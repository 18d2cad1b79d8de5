/** Header comments written out from their parts. Each printer here is the
    reference the parser of the same level is checked against: reading back
    printed text yields exactly the parts it was printed from and stops
    exactly where the printed text ends. */
module ParseText {
  import opened Text
  import opened Parse
  import opened ParseProps

  /** The spaces a declaration carries around its colon and after each of
      its commas (`afterCommas[i]` follows the comma in front of name
      `i + 1`). */
  datatype Spacing = Spacing(beforeColon: string, afterColon: string, afterCommas: seq<string>)

  /** One declaration as written on a line: the spaces in front of it, its
      keyword (`tikzlibrary` when `library`, else `package`), its names and
      its spacing. */
  datatype Decl = Decl(lead: string, library: bool, names: seq<string>, spacing: Spacing)

  /** One header line as written: `%%`, its declarations, and the spaces in
      front of the newline. */
  datatype Line = Line(decls: seq<Decl>, trailing: string)

  predicate IsSpaces(g: string) {
    forall i :: 0 <= i < |g| ==> IsSpace(g[i])
  }

  predicate AllSpaces(gs: seq<string>) {
    forall i :: 0 <= i < |gs| ==> IsSpaces(gs[i])
  }

  /** One gap per comma: none for an empty list, one fewer than the names
      otherwise. */
  predicate GapsFit(names: seq<string>, gaps: seq<string>) {
    if names == [] then gaps == [] else |gaps| == |names| - 1
  }

  /** A declaration the grammar can read back: all names runs of letters,
      and only spaces and tabs as spacing. The name list may be empty, as
      `separated_list` allows. */
  predicate DeclOk(d: Decl) {
    NamesOk(d.names) && GapsFit(d.names, d.spacing.afterCommas) && AllSpaces(d.spacing.afterCommas)
    && IsSpaces(d.spacing.beforeColon) && IsSpaces(d.spacing.afterColon)
  }

  /** Every declaration of a line is preceded by at least one space or tab
      (the first one by those that end `prefix`). A declaration without
      names takes every space after its colon, so no declaration can follow
      it: only the last one may be empty. */
  predicate DeclsOk(decls: seq<Decl>) {
    forall i :: 0 <= i < |decls| ==>
      DeclOk(decls[i]) && decls[i].lead != [] && IsSpaces(decls[i].lead)
      && (decls[i].names == [] ==> i == |decls| - 1)
  }

  /** The last declaration has no names. */
  predicate EndsOpen(decls: seq<Decl>) {
    decls != [] && decls[|decls| - 1].names == []
  }

  /** A line without declarations needs a trailing space, since `prefix`
      demands one; after a declaration without names the spaces belong to
      its colon, so the trailing part is empty. */
  predicate LineOk(l: Line) {
    DeclsOk(l.decls) && IsSpaces(l.trailing) && (l.decls == [] ==> l.trailing != [])
    && (EndsOpen(l.decls) ==> l.trailing == [])
  }

  predicate LinesOk(lines: seq<Line>) {
    forall i :: 0 <= i < |lines| ==> LineOk(lines[i])
  }

  /** A name list may end in front of this text: it is empty or starts with
      neither a letter nor a comma. */
  predicate EndsList(t: string) {
    t == [] || (!IsAlpha(t[0]) && t[0] != ',')
  }

  /** A declaration may end in front of this text: its name list may, and
      when it has no names, the colon's spaces may too. */
  predicate EndsDecl(d: Decl, t: string) {
    EndsList(t) && (d.names == [] ==> t == [] || !IsSpace(t[0]))
  }

  // ---- printers -------------------------------------------------------------
  // Each printer writes its part in front of a given `tail`, so that text
  // is built without re-associating concatenations.

  /** `,` followed by its spaces and a name, for each name, then `tail`. */
  function MoreNamesThen(names: seq<string>, gaps: seq<string>, tail: string): string
    requires |gaps| == |names|
  {
    if names == [] then tail
    else "," + (gaps[0] + (names[0] + MoreNamesThen(names[1..], gaps[1..], tail)))
  }

  /** The names, each after the first preceded by `,` and its spaces, then
      `tail`. */
  function NamesThen(names: seq<string>, gaps: seq<string>, tail: string): string
    requires GapsFit(names, gaps)
  {
    if names == [] then tail else names[0] + MoreNamesThen(names[1..], gaps, tail)
  }

  function Keyword(library: bool): string {
    if library then "tikzlibrary" else "package"
  }

  /** The declaration without its leading spaces, then `tail`. */
  function DeclThen(d: Decl, tail: string): string
    requires DeclOk(d)
  {
    var sp := d.spacing;
    Keyword(d.library) + (sp.beforeColon + (":" + (sp.afterColon
      + NamesThen(d.names, sp.afterCommas, tail))))
  }

  /** The items a declaration stands for. */
  function DeclItems(d: Decl): seq<Item> {
    if d.library then Libraries(d.names) else Packages(d.names)
  }

  /** Each declaration with its leading spaces, then `tail`. */
  function DeclsThen(decls: seq<Decl>, tail: string): string
    requires forall i :: 0 <= i < |decls| ==> DeclOk(decls[i])
  {
    if decls == [] then tail else decls[0].lead + DeclThen(decls[0], DeclsThen(decls[1..], tail))
  }

  function DeclsItems(decls: seq<Decl>): seq<seq<Item>> {
    if decls == [] then [] else [DeclItems(decls[0])] + DeclsItems(decls[1..])
  }

  function LineThen(l: Line, tail: string): string
    requires LineOk(l)
  {
    "%%" + DeclsThen(l.decls, l.trailing + ("\n" + tail))
  }

  function HeaderThen(lines: seq<Line>, tail: string): string
    requires LinesOk(lines)
  {
    if lines == [] then tail else LineThen(lines[0], HeaderThen(lines[1..], tail))
  }

  function LinesItems(lines: seq<Line>): seq<seq<seq<Item>>> {
    if lines == [] then [] else [DeclsItems(lines[0].decls)] + LinesItems(lines[1..])
  }

  /** The header the declarations of `lines` spell out: per line, per
      declaration, its names appended to the list of its kind. */
  function DeclHeader(d: Decl): Header {
    if d.library then Header(d.names, []) else Header([], d.names)
  }

  function DeclsHeader(decls: seq<Decl>): Header {
    if decls == [] then EmptyHeader else Merge(DeclHeader(decls[0]), DeclsHeader(decls[1..]))
  }

  function LinesHeader(lines: seq<Line>): Header {
    if lines == [] then EmptyHeader else Merge(DeclsHeader(lines[0].decls), LinesHeader(lines[1..]))
  }

  // ---- reading printed text back --------------------------------------------

  /** Text that starts with neither a comma nor a letter ends the list
      loop. */
  lemma ListEnds(t: string)
    requires EndsList(t)
    ensures MoreNames(t) == Ok(t, [])
  {
    if t != [] {
      assert t[..1][0] == t[0];
    }
    MoreNamesStop(t);
  }

  lemma MoreNamesStep(g: string, name: string, t: string, tail: string, names: seq<string>)
    requires All(g, IsSpace) && IsName(name) && (t == [] || !IsAlpha(t[0]))
    requires MoreNames(t) == Ok(tail, names)
    ensures MoreNames("," + (g + (name + t))) == Ok(tail, [name] + names)
  {
    MoreNamesCons(g, name, t);
  }

  lemma {:induction false} MoreNamesRoundTrip(names: seq<string>, gaps: seq<string>, tail: string)
    requires |gaps| == |names| && NamesOk(names) && AllSpaces(gaps) && EndsList(tail)
    ensures MoreNames(MoreNamesThen(names, gaps, tail)) == Ok(tail, names)
    decreases |names|
  {
    if names == [] {
      ListEnds(tail);
    } else {
      assert [names[0]] + names[1..] == names;
      var t := MoreNamesThen(names[1..], gaps[1..], tail);
      assert MoreNamesThen(names, gaps, tail) == "," + (gaps[0] + (names[0] + t));
      if names[1..] != [] {
        assert t[0] == ',';
      }
      assert All(gaps[0], IsSpace) by { assert IsSpaces(gaps[0]); }
      assert IsName(names[0]);
      MoreNamesRoundTrip(names[1..], gaps[1..], tail);
      MoreNamesStep(gaps[0], names[0], t, tail, names[1..]);
    }
  }

  /** A printed name list reads back as its names, and the list stops in
      front of `tail`. */
  lemma NamesRoundTrip(names: seq<string>, gaps: seq<string>, tail: string)
    requires GapsFit(names, gaps) && NamesOk(names) && AllSpaces(gaps) && EndsList(tail)
    ensures NameList(NamesThen(names, gaps, tail)) == Ok(tail, names)
  {
    if names == [] {
      return;
    }
    var t := MoreNamesThen(names[1..], gaps, tail);
    assert [names[0]] + names[1..] == names;
    if names[1..] != [] {
      assert t[0] == ',';
    }
    assert IsName(names[0]);
    MoreNamesRoundTrip(names[1..], gaps, tail);
    NameListCons(names[0], t);
  }

  lemma KeywordListCat(kw: string, bc: string, ac: string, text: string, tail: string, names: seq<string>)
    requires NoNewline(kw) && All(bc, IsSpace) && All(ac, IsSpace)
    requires (text == [] || !IsSpace(text[0])) && NameList(text) == Ok(tail, names)
    ensures KeywordList(kw + (bc + (":" + (ac + text))), kw) == Ok(tail, names)
  {
    TagCat(kw, bc + (":" + (ac + text)));
    ColonCat(bc, ac, text);
  }

  lemma KeywordOnLine(library: bool)
    ensures NoNewline(Keyword(library))
  {
  }

  lemma LibraryDeclCat(x: string, tail: string, names: seq<string>)
    requires KeywordList(x, "tikzlibrary") == Ok(tail, names)
    ensures TikzLibraryDecl(x) == Ok(tail, Libraries(names))
    ensures Component(x) == Ok(tail, Libraries(names))
  {
  }

  lemma FirstOfKeyword(x: string, kw: string)
    requires StartsWith(x, kw) && kw != []
    ensures x[0] == kw[0]
  {
    assert x[..|kw|][0] == x[0];
  }

  lemma PackageDeclAt(x: string, tail: string, names: seq<string>)
    requires KeywordList(x, "package") == Ok(tail, names) && |x| > 0 && x[0] == 'p'
    ensures PackageDecl(x) == Ok(tail, Packages(names))
    ensures Component(x) == Ok(tail, Packages(names))
  {
    assert !StartsWith(x, "tikzlibrary") by {
      if |x| >= 11 { assert x[..11][0] == x[0]; }
    }
  }

  lemma PackageDeclCat(x: string, tail: string, names: seq<string>)
    requires KeywordList(x, "package") == Ok(tail, names)
    ensures PackageDecl(x) == Ok(tail, Packages(names))
    ensures Component(x) == Ok(tail, Packages(names))
  {
    assert |x| > 0 && x[0] == 'p' by {
      KeywordOnLine(false);
      FirstOfKeyword(x, "package");
    }
    PackageDeclAt(x, tail, names);
  }

  /** A printed declaration reads back as its items, through `alt` and
      through the parser of its own keyword. */
  lemma DeclRoundTrip(d: Decl, tail: string)
    requires DeclOk(d) && EndsDecl(d, tail)
    ensures Component(DeclThen(d, tail)) == Ok(tail, DeclItems(d))
    ensures d.library ==> TikzLibraryDecl(DeclThen(d, tail)) == Ok(tail, DeclItems(d))
    ensures !d.library ==> PackageDecl(DeclThen(d, tail)) == Ok(tail, DeclItems(d))
  {
    var sp := d.spacing;
    var text := NamesThen(d.names, sp.afterCommas, tail);
    var x := DeclThen(d, tail);
    var kw := Keyword(d.library);
    assert x == kw + (sp.beforeColon + (":" + (sp.afterColon + text)));
    NamesRoundTrip(d.names, sp.afterCommas, tail);
    if d.names != [] {
      assert IsName(d.names[0]);
      assert text[0] == d.names[0][0];
    }
    assert All(sp.beforeColon, IsSpace) by { assert IsSpaces(sp.beforeColon); }
    assert All(sp.afterColon, IsSpace) by { assert IsSpaces(sp.afterColon); }
    KeywordOnLine(d.library);
    assert text == [] || !IsSpace(text[0]);
    assert NameList(text) == Ok(tail, d.names);
    KeywordListCat(kw, sp.beforeColon, sp.afterColon, text, tail, d.names);
    if d.library {
      LibraryDeclCat(x, tail, d.names);
    } else {
      assert x[0] == 'p';
      PackageDeclCat(x, tail, d.names);
    }
  }

  // ---- lines ----------------------------------------------------------------

  lemma DeclStart(d: Decl, tail: string)
    requires DeclOk(d)
    ensures DeclThen(d, tail) != [] && DeclThen(d, tail)[0] == (if d.library then 't' else 'p')
  {
  }

  /** Text that starts with neither `t` nor `p` holds no declaration. */
  lemma NoComponent(s: string)
    requires s != [] && s[0] != 't' && s[0] != 'p'
    ensures Component(s).Err?
  {
    assert !StartsWith(s, "tikzlibrary") by {
      if |s| >= 11 { assert s[..11][0] == s[0]; }
    }
    assert !StartsWith(s, "package") by {
      if |s| >= 7 { assert s[..7][0] == s[0]; }
    }
  }

  /** After the last declaration of a line come optional spaces and the
      newline: neither the name list nor the declaration loop goes on. */
  lemma DeclsEnd(trailing: string, rest: string)
    requires IsSpaces(trailing)
    ensures MoreDecls(trailing + ("\n" + rest)) == Ok(trailing + ("\n" + rest), [])
    ensures EndsList(trailing + ("\n" + rest))
  {
    var t := trailing + ("\n" + rest);
    if trailing != [] {
      assert All(trailing, IsSpace);
      Space1Cat(trailing, "\n" + rest);
      NoComponent("\n" + rest);
    } else {
      assert t == "\n" + rest;
    }
  }

  lemma MoreDeclsStep(g: string, x: string, r: string, v: seq<Item>, tail: string, vs: seq<seq<Item>>)
    requires g != [] && IsSpaces(g) && x != [] && !IsSpace(x[0])
    requires Component(x) == Ok(r, v) && MoreDecls(r) == Ok(tail, vs)
    ensures MoreDecls(g + x) == Ok(tail, [v] + vs)
  {
    assert All(g, IsSpace);
    Space1Cat(g, x);
  }

  lemma DeclsOkTail(decls: seq<Decl>)
    requires DeclsOk(decls) && decls != []
    ensures DeclOk(decls[0]) && decls[0].lead != [] && IsSpaces(decls[0].lead)
    ensures DeclsOk(decls[1..]) && (EndsOpen(decls[1..]) ==> EndsOpen(decls))
    ensures decls[0].names == [] ==> decls[1..] == []
  {
    assert DeclOk(decls[0]) && (decls[0].names == [] ==> 0 == |decls| - 1);
  }

  /** What follows the first printed declaration of a line lets it end. */
  lemma DeclsFollow(decls: seq<Decl>, trailing: string, rest: string)
    requires DeclsOk(decls) && decls != [] && IsSpaces(trailing)
    requires EndsOpen(decls) ==> trailing == []
    ensures EndsDecl(decls[0], DeclsThen(decls[1..], trailing + ("\n" + rest)))
  {
    DeclsOkTail(decls);
    DeclsThenEnds(decls[1..], trailing, rest);
    if decls[0].names == [] {
      assert decls[1..] == [] && EndsOpen(decls);
    }
  }

  /** What follows a declaration on a printed line ends its name list. */
  lemma DeclsThenEnds(ds: seq<Decl>, trailing: string, rest: string)
    requires DeclsOk(ds) && IsSpaces(trailing)
    ensures EndsList(DeclsThen(ds, trailing + ("\n" + rest)))
  {
    var tail := trailing + ("\n" + rest);
    if ds != [] {
      DeclsOkTail(ds);
      assert DeclsThen(ds, tail) == ds[0].lead + DeclThen(ds[0], DeclsThen(ds[1..], tail));
      assert IsSpace(DeclsThen(ds, tail)[0]);
    } else {
      DeclsEnd(trailing, rest);
    }
  }

  lemma ComponentRoundTrip(d: Decl, tail: string)
    requires DeclOk(d) && EndsDecl(d, tail)
    ensures DeclThen(d, tail) != [] && !IsSpace(DeclThen(d, tail)[0])
    ensures Component(DeclThen(d, tail)) == Ok(tail, DeclItems(d))
  {
    DeclRoundTrip(d, tail);
    DeclStart(d, tail);
  }

  lemma DeclsConsStep(d: Decl, r: string, tail: string, items: seq<seq<Item>>)
    requires DeclOk(d) && d.lead != [] && IsSpaces(d.lead) && EndsDecl(d, r)
    requires MoreDecls(r) == Ok(tail, items)
    ensures MoreDecls(d.lead + DeclThen(d, r)) == Ok(tail, [DeclItems(d)] + items)
  {
    ComponentRoundTrip(d, r);
    MoreDeclsStep(d.lead, DeclThen(d, r), r, DeclItems(d), tail, items);
  }

  /** Printed declarations, each after its spaces, read back as their items
      and the loop stops in front of the line's end. */
  lemma {:induction false} DeclsRoundTrip(decls: seq<Decl>, trailing: string, rest: string)
    requires DeclsOk(decls) && IsSpaces(trailing) && (EndsOpen(decls) ==> trailing == [])
    ensures MoreDecls(DeclsThen(decls, trailing + ("\n" + rest)))
         == Ok(trailing + ("\n" + rest), DeclsItems(decls))
    decreases |decls|
  {
    var tail := trailing + ("\n" + rest);
    if decls == [] {
      DeclsEnd(trailing, rest);
    } else {
      DeclsOkTail(decls);
      DeclsFollow(decls, trailing, rest);
      DeclsRoundTrip(decls[1..], trailing, rest);
      DeclsConsStep(decls[0], DeclsThen(decls[1..], tail), tail, DeclsItems(decls[1..]));
    }
  }

  lemma NotBare(g: string, y: string)
    requires g != [] && IsSpaces(g)
    ensures !StartsWith("%%" + (g + y), "%%\n")
  {
    var x := "%%" + (g + y);
    assert x[2] == g[0];
    assert x[..3][2] == x[2];
  }

  lemma HeaderLineGlue(x: string, dialect: Dialect, y: string, t: string, rest: string, v: seq<seq<Item>>)
    requires !StartsWith(x, "%%\n") && Prefix(x).Ok? && Prefix(x).rest == y
    requires DeclList(y) == Ok(t, v) && LineEnd(t).Ok? && LineEnd(t).rest == rest
    ensures HeaderLine(x, dialect) == Ok(rest, v)
  {
  }

  lemma HeaderLineCat(g: string, y: string, dialect: Dialect, t: string, rest: string, v: seq<seq<Item>>)
    requires g != [] && IsSpaces(g) && (y == [] || !IsSpace(y[0]))
    requires DeclList(y) == Ok(t, v) && LineEnd(t).Ok? && LineEnd(t).rest == rest
    ensures HeaderLine("%%" + (g + y), dialect) == Ok(rest, v)
  {
    NotBare(g, y);
    assert All(g, IsSpace);
    PrefixCat(g, y);
    HeaderLineGlue("%%" + (g + y), dialect, y, t, rest, v);
  }

  lemma DeclListStep(d: Decl, r: string, tail: string, items: seq<seq<Item>>)
    requires DeclOk(d) && EndsDecl(d, r) && MoreDecls(r) == Ok(tail, items)
    ensures DeclList(DeclThen(d, r)) == Ok(tail, [DeclItems(d)] + items)
  {
    ComponentRoundTrip(d, r);
  }

  lemma BlankLineRoundTrip(trailing: string, rest: string, dialect: Dialect)
    requires trailing != [] && IsSpaces(trailing)
    ensures HeaderLine("%%" + (trailing + ("\n" + rest)), dialect) == Ok(rest, [])
  {
    var y := "\n" + rest;
    NoComponent(y);
    assert [] + y == y;
    LineEndCat([], rest);
    HeaderLineCat(trailing, y, dialect, y, rest, []);
  }

  lemma DeclsLineRoundTrip(l: Line, rest: string, dialect: Dialect)
    requires LineOk(l) && l.decls != []
    ensures HeaderLine(LineThen(l, rest), dialect) == Ok(rest, DeclsItems(l.decls))
  {
    var t := l.trailing + ("\n" + rest);
    var d, ds := l.decls[0], l.decls[1..];
    DeclsOkTail(l.decls);
    var r := DeclsThen(ds, t);
    DeclsFollow(l.decls, l.trailing, rest);
    DeclsRoundTrip(ds, l.trailing, rest);
    DeclListStep(d, r, t, DeclsItems(ds));
    ComponentRoundTrip(d, r);
    assert All(l.trailing, IsSpace);
    LineEndCat(l.trailing, rest);
    HeaderLineCat(d.lead, DeclThen(d, r), dialect, t, rest, DeclsItems(l.decls));
  }

  /** A printed header line reads back as its declarations' items, in
      either dialect, and `header_line` stops right after its newline. */
  lemma LineRoundTrip(l: Line, rest: string, dialect: Dialect)
    requires LineOk(l)
    ensures HeaderLine(LineThen(l, rest), dialect) == Ok(rest, DeclsItems(l.decls))
  {
    if l.decls == [] {
      BlankLineRoundTrip(l.trailing, rest, dialect);
    } else {
      DeclsLineRoundTrip(l, rest, dialect);
    }
  }

  // ---- printing in front of a tail ------------------------------------------

  // Printing in front of a tail is printing in front of nothing, then the
  // tail.

  lemma {:induction false} MoreNamesThenCat(names: seq<string>, gaps: seq<string>, t: string)
    requires |gaps| == |names|
    ensures MoreNamesThen(names, gaps, t) == MoreNamesThen(names, gaps, "") + t
  {
    if names != [] {
      MoreNamesThenCat(names[1..], gaps[1..], t);
    }
  }

  lemma DeclThenCat(d: Decl, t: string)
    requires DeclOk(d)
    ensures DeclThen(d, t) == DeclThen(d, "") + t
  {
    if d.names != [] {
      MoreNamesThenCat(d.names[1..], d.spacing.afterCommas, t);
    }
  }

  lemma {:induction false} DeclsThenCat(decls: seq<Decl>, t: string)
    requires DeclsOk(decls)
    ensures DeclsThen(decls, t) == DeclsThen(decls, "") + t
  {
    if decls != [] {
      DeclsOkTail(decls);
      var d, x := decls[0], DeclsThen(decls[1..], "");
      DeclsThenCat(decls[1..], t);
      DeclThenCat(d, x + t);
      DeclThenCat(d, x);
      Regroup(d.lead, DeclThen(d, "") + x, t);
      Regroup(DeclThen(d, ""), x, t);
    }
  }

  lemma LineThenCat(l: Line, t: string)
    requires LineOk(l)
    ensures LineThen(l, t) == LineThen(l, "") + t
  {
    DeclsThenCat(l.decls, l.trailing + ("\n" + t));
    DeclsThenCat(l.decls, l.trailing + ("\n" + ""));
  }

  // ---- the header -----------------------------------------------------------

  lemma LinesOkTail(lines: seq<Line>)
    requires LinesOk(lines) && lines != []
    ensures LineOk(lines[0]) && LinesOk(lines[1..])
  {
  }

  /** Printed header lines followed by text whose first line is not a
      header line read back line by line, and `many0` stops exactly at that
      text. */
  lemma {:induction false} HeaderLinesRoundTrip(lines: seq<Line>, rest: string, dialect: Dialect)
    requires LinesOk(lines) && HeaderLine(rest, dialect).Err?
    ensures HeaderLines(HeaderThen(lines, rest), dialect) == Ok(rest, LinesItems(lines))
    decreases |lines|
  {
    if lines != [] {
      LinesOkTail(lines);
      var more := HeaderThen(lines[1..], rest);
      HeaderLinesRoundTrip(lines[1..], rest, dialect);
      LineRoundTrip(lines[0], more, dialect);
      HeaderLinesUnfold(HeaderThen(lines, rest), dialect);
    }
  }

  lemma CollectDecl(d: Decl)
    ensures Collect(DeclItems(d)) == DeclHeader(d)
  {
    CollectSorts(DeclItems(d));
    KindsSeparate(d.names);
  }

  lemma {:induction false} CollectDecls(decls: seq<Decl>)
    ensures Collect(Flatten(DeclsItems(decls))) == DeclsHeader(decls)
    decreases |decls|
  {
    if decls != [] {
      var xs := DeclsItems(decls);
      assert xs[1..] == DeclsItems(decls[1..]);
      assert Flatten(xs) == DeclItems(decls[0]) + Flatten(DeclsItems(decls[1..]));
      CollectDecls(decls[1..]);
      CollectDecl(decls[0]);
      CollectAppend(DeclItems(decls[0]), Flatten(DeclsItems(decls[1..])));
    }
  }

  /** The header `header` collects from printed lines is the one their
      declarations spell out. */
  lemma {:induction false} CollectLines(lines: seq<Line>)
    ensures Collect(AllItems(LinesItems(lines))) == LinesHeader(lines)
    decreases |lines|
  {
    if lines != [] {
      var first := DeclsItems(lines[0].decls);
      var xs := LinesItems(lines);
      assert xs[1..] == LinesItems(lines[1..]);
      assert Flatten(xs) == first + Flatten(LinesItems(lines[1..]));
      FlattenAppend(first, Flatten(LinesItems(lines[1..])));
      CollectLines(lines[1..]);
      CollectDecls(lines[0].decls);
      CollectAppend(Flatten(first), AllItems(LinesItems(lines[1..])));
    }
  }

  /** Round trip of `header`: printed header lines followed by text whose
      first line is not a header line yield exactly the declared names,
      libraries and packages apart, each in the order written, and the
      rest is that text. */
  lemma HeaderRoundTrip(lines: seq<Line>, rest: string, dialect: Dialect)
    requires LinesOk(lines) && HeaderLine(rest, dialect).Err?
    ensures HeaderOf(HeaderThen(lines, rest), dialect) == Ok(rest, LinesHeader(lines))
  {
    HeaderLinesRoundTrip(lines, rest, dialect);
    CollectLines(lines);
  }
}
