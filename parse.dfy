/** The header-comment grammar of `src/parse.rs`: lines such as
      `%% tikzlibrary: calc, arrows  package:ctex`
    parsed with nom 5 combinators. Every parser maps its input to the
    unconsumed rest and a value, or to an error (`Text.Parsed`); the rest is
    always a suffix of the input. */
module Parse {
  import opened Text

  /** How a line that is exactly `%%` is treated. `AsWritten` is the grammar
      of parse.rs as it stands: `prefix` needs at least one space or tab after
      `%%`, so such a line ends the header. `BareComment` is the one
      deliberate deviation: a line that is exactly `%%` followed by a newline
      is accepted and declares nothing, which is what the renderer's test
      (render.rs:61-75) and the pest grammar's test (parse_pest.rs:49-60)
      expect. */
  datatype Dialect = AsWritten | BareComment

  /** One declared name, tagged with the declaration it came from. */
  datatype Item = TikzLibrary(name: string) | Package(name: string)

  /** The extracted header: library and package names in source order. */
  datatype Header = Header(tikzLibrary: seq<string>, package: seq<string>)

  const EmptyHeader: Header := Header([], [])

  /** A name as `alpha1` yields it: a non-empty run of ASCII letters. */
  predicate IsName(n: string) {
    n != [] && forall i :: 0 <= i < |n| ==> IsAlpha(n[i])
  }

  predicate NamesOk(names: seq<string>) {
    forall i :: 0 <= i < |names| ==> IsName(names[i])
  }

  /** A token parser's string value is exactly the text it consumed. */
  predicate Splits(s: string, r: Parsed<string>) {
    r.Ok? ==> |r.value| <= |s| && r.value == s[..|r.value|] && r.rest == s[|r.value|..]
  }

  predicate NoNewline(t: string) {
    forall i :: 0 <= i < |t| ==> t[i] != '\n'
  }

  /** `rest` is what remains of `s` after a parser consumed part of the
      current line: a suffix of `s`, and nothing consumed is a newline. */
  predicate OnLine(rest: string, s: string) {
    IsSuffix(rest, s) && forall i :: 0 <= i < |s| - |rest| ==> s[i] != '\n'
  }

  /** `rest` is what remains of `s` after a parser consumed the rest of the
      current line: exactly one newline was consumed, and it came last. */
  predicate EndsLine(rest: string, s: string) {
    IsSuffix(rest, s) && NewlineEnd(s, |s| - |rest|)
  }

  /** `s[..k]` holds exactly one newline, its last character. */
  predicate NewlineEnd(s: string, k: nat) {
    1 <= k <= |s| && s[k - 1] == '\n' && forall i :: 0 <= i < k - 1 ==> s[i] != '\n'
  }

  lemma OnLineTrans(a: string, b: string, c: string)
    requires OnLine(b, a) && OnLine(c, b)
    ensures OnLine(c, a)
  {
    var k := |a| - |b|;
    assert c == a[k..][|b| - |c|..];
    forall i | k <= i < |a| - |c| ensures a[i] != '\n' {
      assert b[i - k] == a[i];
    }
  }

  lemma OnLineEnds(a: string, b: string, c: string)
    requires OnLine(b, a) && EndsLine(c, b)
    ensures EndsLine(c, a)
  {
    var k := |a| - |b|;
    assert c == a[k..][|b| - |c|..];
    assert a[|a| - |c| - 1] == b[|b| - |c| - 1];
    forall i | k <= i < |a| - |c| - 1 ensures a[i] != '\n' {
      assert b[i - k] == a[i];
    }
  }

  /** A parser that leaves the suffix `rest` of `s` has consumed the rest of
      `s`. */
  lemma SuffixSplits(s: string, rest: string)
    requires IsSuffix(rest, s)
    ensures Splits(s, Ok(rest, s[..|s| - |rest|]))
  {
  }

  // ---- nom primitives on &str -------------------------------------------

  /** `tag(t)`. */
  function Tag(s: string, t: string): (r: Parsed<string>)
    ensures r.Ok? <==> StartsWith(s, t)
    ensures Splits(s, r) && (r.Ok? ==> r.value == t)
    ensures r.Ok? && NoNewline(t) ==> OnLine(r.rest, s)
  {
    if StartsWith(s, t) then
      assert forall i :: 0 <= i < |t| ==> s[..|t|][i] == s[i];
      Ok(s[|t|..], t)
    else Err
  }

  /** What is left of `s` after its leading spaces and tabs. */
  function SkipSpaces(s: string): string {
    s[TakeWhileLen(s, IsSpace)..]
  }

  /** `space0`: never fails, consumes the maximal run of spaces and tabs. */
  function Space0(s: string): (r: Parsed<string>)
    ensures r.Ok? && Splits(s, r) && All(r.value, IsSpace) && OnLine(r.rest, s)
    ensures r.rest == [] || !IsSpace(r.rest[0])
    ensures r.rest == SkipSpaces(s)
  {
    var n := TakeWhileLen(s, IsSpace);
    assert forall i :: 0 <= i < n ==> s[..n][i] == s[i];
    Ok(s[n..], s[..n])
  }

  /** `space1`: like `space0`, but fails unless at least one is present. */
  function Space1(s: string): (r: Parsed<string>)
    ensures r.Ok? <==> |s| > 0 && IsSpace(s[0])
    ensures Splits(s, r)
    ensures r.Ok? ==> r.value != [] && All(r.value, IsSpace) && OnLine(r.rest, s)
    ensures r.Ok? ==> r.rest == [] || !IsSpace(r.rest[0])
  {
    var n := TakeWhileLen(s, IsSpace);
    assert forall i :: 0 <= i < n ==> s[..n][i] == s[i];
    if n == 0 then Err else Ok(s[n..], s[..n])
  }

  /** `alpha1`: the maximal non-empty run of ASCII letters. */
  function Alpha1(s: string): (r: Parsed<string>)
    ensures r.Ok? <==> |s| > 0 && IsAlpha(s[0])
    ensures Splits(s, r)
    ensures r.Ok? ==> IsName(r.value) && OnLine(r.rest, s)
    ensures r.Ok? ==> r.rest == [] || !IsAlpha(r.rest[0])
  {
    var n := TakeWhileLen(s, IsAlpha);
    assert forall i :: 0 <= i < n ==> s[..n][i] == s[i];
    if n == 0 then Err else Ok(s[n..], s[..n])
  }

  // ---- token parsers (parse.rs:31-41) -------------------------------------

  /** `prefix`: `%%` followed by one or more spaces or tabs. */
  function Prefix(s: string): (r: Parsed<string>)
    ensures r.Ok? <==> |s| > 2 && s[0] == '%' && s[1] == '%' && IsSpace(s[2])
    ensures r.Ok? ==> Splits(s, r) && OnLine(r.rest, s)
    ensures r.Ok? ==> r.rest == [] || !IsSpace(r.rest[0])
  {
    var p := Tag(s, "%%");
    if p.Err? then Err else
    var sp := Space1(p.rest);
    if sp.Err? then Err else
    OnLineTrans(s, p.rest, sp.rest);
    SuffixSplits(s, sp.rest);
    Ok(sp.rest, s[..|s| - |sp.rest|])
  }

  /** `colon`: optional spaces, `:`, optional spaces. */
  function Colon(s: string): (r: Parsed<string>)
    ensures r.Ok? <==> StartsWith(SkipSpaces(s), ":")
    ensures r.Ok? ==> Splits(s, r) && OnLine(r.rest, s) && |r.rest| < |s|
    ensures r.Ok? ==> r.rest == [] || !IsSpace(r.rest[0])
  {
    var sp := Space0(s);
    if sp.Err? then Err else
    var c := Tag(sp.rest, ":");
    if c.Err? then Err else
    var sp' := Space0(c.rest);
    if sp'.Err? then Err else
    OnLineTrans(s, sp.rest, c.rest);
    OnLineTrans(s, c.rest, sp'.rest);
    SuffixSplits(s, sp'.rest);
    Ok(sp'.rest, s[..|s| - |sp'.rest|])
  }

  /** `separator`: `,` followed by optional spaces. */
  function Separator(s: string): (r: Parsed<string>)
    ensures r.Ok? <==> |s| > 0 && s[0] == ','
    ensures r.Ok? ==> Splits(s, r) && OnLine(r.rest, s) && |r.rest| < |s|
    ensures r.Ok? ==> r.rest == [] || !IsSpace(r.rest[0])
  {
    var c := Tag(s, ",");
    if c.Err? then Err else
    var sp := Space0(c.rest);
    if sp.Err? then Err else
    OnLineTrans(s, c.rest, sp.rest);
    assert |sp.rest| < |s|;
    SuffixSplits(s, sp.rest);
    Ok(sp.rest, s[..|s| - |sp.rest|])
  }

  // ---- name lists (parse.rs:43-64) ----------------------------------------

  /** True when the list loop would take one more step on `s`: a separator
      followed by a name. */
  predicate ListContinues(s: string) {
    Separator(s).Ok? && Alpha1(Separator(s).rest).Ok?
  }

  /** `separated_list(separator, alpha1)`. It never fails: when the first
      name is missing the list is empty and nothing is consumed. */
  function NameList(s: string): (r: Parsed<seq<string>>)
    ensures r.Ok? && OnLine(r.rest, s)
    ensures r.value == [] <==> !(|s| > 0 && IsAlpha(s[0]))
    ensures r.value == [] ==> r.rest == s
    ensures r.value != [] ==> |r.rest| < |s| && !ListContinues(r.rest)
  {
    var name := Alpha1(s);
    if name.Err? then Ok(s, []) else
    var more := MoreNames(name.rest);
    OnLineTrans(s, name.rest, more.rest);
    Ok(more.rest, [name.value] + more.value)
  }

  /** The loop of `separated_list` after the first name: each round takes a
      separator and a name; when either is missing it stops before the
      separator, so a dangling `,` is left unconsumed. */
  function MoreNames(s: string): (r: Parsed<seq<string>>)
    ensures r.Ok? && OnLine(r.rest, s)
    ensures !ListContinues(r.rest)
    ensures r.value == [] ==> r.rest == s
    decreases |s|
  {
    var sep := Separator(s);
    if sep.Err? then Ok(s, []) else
    var name := Alpha1(sep.rest);
    if name.Err? then Ok(s, []) else
    OnLineTrans(s, sep.rest, name.rest);
    var more := MoreNames(name.rest);
    OnLineTrans(s, name.rest, more.rest);
    Ok(more.rest, [name.value] + more.value)
  }

  /** The shared shape of `tikz_library` and `package`: the keyword, a colon
      and a name list. */
  function KeywordList(s: string, keyword: string): (r: Parsed<seq<string>>)
    requires NoNewline(keyword)
    ensures r.Ok? <==> StartsWith(s, keyword) && Colon(s[|keyword|..]).Ok?
    ensures r.Ok? ==> OnLine(r.rest, s) && |r.rest| < |s|
  {
    var kw := Tag(s, keyword);
    if kw.Err? then Err else
    var c := Colon(kw.rest);
    if c.Err? then Err else
    OnLineTrans(s, kw.rest, c.rest);
    var names := NameList(c.rest);
    if names.Err? then Err else
    OnLineTrans(s, c.rest, names.rest);
    Ok(names.rest, names.value)
  }

  function Libraries(names: seq<string>): (items: seq<Item>)
    ensures |items| == |names|
    ensures forall i :: 0 <= i < |names| ==> items[i] == TikzLibrary(names[i])
  {
    seq(|names|, i requires 0 <= i < |names| => TikzLibrary(names[i]))
  }

  function Packages(names: seq<string>): (items: seq<Item>)
    ensures |items| == |names|
    ensures forall i :: 0 <= i < |names| ==> items[i] == Package(names[i])
  {
    seq(|names|, i requires 0 <= i < |names| => Package(names[i]))
  }

  /** `tikz_library`: `tikzlibrary`, a colon and a name list. */
  function TikzLibraryDecl(s: string): (r: Parsed<seq<Item>>)
    ensures r.Ok? <==> StartsWith(s, "tikzlibrary") && Colon(s[11..]).Ok?
    ensures r.Ok? ==> OnLine(r.rest, s) && |r.rest| < |s|
    ensures r.Ok? ==> forall i :: 0 <= i < |r.value| ==> r.value[i].TikzLibrary?
  {
    var names := KeywordList(s, "tikzlibrary");
    if names.Err? then Err else Ok(names.rest, Libraries(names.value))
  }

  /** `package`: `package`, a colon and a name list. */
  function PackageDecl(s: string): (r: Parsed<seq<Item>>)
    ensures r.Ok? <==> StartsWith(s, "package") && Colon(s[7..]).Ok?
    ensures r.Ok? ==> OnLine(r.rest, s) && |r.rest| < |s|
    ensures r.Ok? ==> forall i :: 0 <= i < |r.value| ==> r.value[i].Package?
  {
    var names := KeywordList(s, "package");
    if names.Err? then Err else Ok(names.rest, Packages(names.value))
  }

  /** `alt((tikz_library, package))`: the first declaration that parses. */
  function Component(s: string): (r: Parsed<seq<Item>>)
    ensures r.Ok? <==> TikzLibraryDecl(s).Ok? || PackageDecl(s).Ok?
    ensures r.Ok? ==> OnLine(r.rest, s) && |r.rest| < |s|
  {
    var lib := TikzLibraryDecl(s);
    if lib.Ok? then lib else PackageDecl(s)
  }

  // ---- header lines (parse.rs:66-72) --------------------------------------

  /** `separated_list(space1, component)`: never fails. */
  function DeclList(s: string): (r: Parsed<seq<seq<Item>>>)
    ensures r.Ok? && OnLine(r.rest, s)
    ensures r.value == [] <==> Component(s).Err?
    ensures r.value == [] ==> r.rest == s
  {
    var first := Component(s);
    if first.Err? then Ok(s, []) else
    var more := MoreDecls(first.rest);
    OnLineTrans(s, first.rest, more.rest);
    Ok(more.rest, [first.value] + more.value)
  }

  /** The loop of `separated_list(space1, component)` after the first
      declaration; it stops before the spaces when no declaration follows. */
  function MoreDecls(s: string): (r: Parsed<seq<seq<Item>>>)
    ensures r.Ok? && OnLine(r.rest, s)
    ensures r.value == [] ==> r.rest == s
    decreases |s|
  {
    var sp := Space1(s);
    if sp.Err? then Ok(s, []) else
    var decl := Component(sp.rest);
    if decl.Err? then Ok(s, []) else
    OnLineTrans(s, sp.rest, decl.rest);
    var more := MoreDecls(decl.rest);
    OnLineTrans(s, decl.rest, more.rest);
    Ok(more.rest, [decl.value] + more.value)
  }

  /** `pair(space0, tag("\n"))`: optional trailing spaces and the newline. */
  function LineEnd(s: string): (r: Parsed<string>)
    ensures r.Ok? <==> StartsWith(SkipSpaces(s), "\n")
    ensures r.Ok? ==> Splits(s, r) && EndsLine(r.rest, s)
  {
    var sp := Space0(s);
    if sp.Err? then Err else
    var nl := Tag(sp.rest, "\n");
    if nl.Err? then Err else
    assert sp.rest[..1] == "\n";
    OnLineEnds(s, sp.rest, nl.rest);
    SuffixSplits(s, nl.rest);
    Ok(nl.rest, s[..|s| - |nl.rest|])
  }

  /** `s[..k]` is one header line: it starts with `%%` and holds exactly
      one newline, its last character. */
  predicate LineOf(s: string, k: nat) {
    3 <= k && Marked(s, 0) && NewlineEnd(s, k)
  }

  /** `s[..k]` is a whole number of header lines: empty, or ending in a
      newline with every line starting with `%%`. */
  predicate LinesOf(s: string, k: nat) {
    k <= |s| && (k == 0 || s[k - 1] == '\n')
    && forall i :: 0 <= i < k && LineStart(s, i) ==> i + 2 < k && Marked(s, i)
  }

  /** Position `i` of `s` begins a line. */
  predicate LineStart(s: string, i: nat)
    requires i <= |s|
  {
    i == 0 || s[i - 1] == '\n'
  }

  /** `%%` stands at position `i` of `s`. */
  predicate Marked(s: string, i: nat) {
    i + 1 < |s| && s[i] == '%' && s[i + 1] == '%'
  }

  /** `header_line`: the prefix, declarations separated by spaces, optional
      trailing spaces and a newline; under `BareComment` also a line that is
      exactly `%%`. */
  function HeaderLine(s: string, d: Dialect): (r: Parsed<seq<seq<Item>>>)
    ensures r.Ok? ==> IsSuffix(r.rest, s) && |r.rest| + 3 <= |s|
  {
    if d == BareComment && StartsWith(s, "%%\n") then
      BareLineShape(s);
      Ok(s[3..], [])
    else
      var p := Prefix(s);
      if p.Err? then Err else
      var decls := DeclList(p.rest);
      if decls.Err? then Err else
      var e := LineEnd(decls.rest);
      if e.Err? then Err else
      MarkedLineShape(s, decls.rest, e.rest);
      Ok(e.rest, decls.value)
  }

  /** What `header_line` consumes is one header line, and the character
      after `%%` is a space or a tab, or (under `BareComment` only) the
      newline of a line that declares nothing. */
  lemma HeaderLineShape(s: string, d: Dialect)
    requires HeaderLine(s, d).Ok?
    ensures LineOf(s, |s| - |HeaderLine(s, d).rest|)
    ensures IsSpace(s[2]) || (d == BareComment && s[2] == '\n' && HeaderLine(s, d).value == [])
  {
    if d == BareComment && StartsWith(s, "%%\n") {
      BareLineShape(s);
    } else {
      var p := Prefix(s);
      var decls := DeclList(p.rest);
      var e := LineEnd(decls.rest);
      MarkedLineShape(s, decls.rest, e.rest);
    }
  }

  /** A line that is exactly `%%` is one header line. */
  lemma BareLineShape(s: string)
    requires StartsWith(s, "%%\n")
    ensures IsSuffix(s[3..], s) && LineOf(s, 3) && s[2] == '\n'
  {
    assert s[..3] == "%%\n";
    assert s[0] == '%' && s[1] == '%';
  }

  /** The prefix, then text on the same line, then the end of the line, is
      one header line. */
  lemma MarkedLineShape(s: string, mid: string, rest: string)
    requires Prefix(s).Ok? && OnLine(mid, Prefix(s).rest) && EndsLine(rest, mid)
    ensures IsSuffix(rest, s) && LineOf(s, |s| - |rest|) && IsSpace(s[2])
  {
    OnLineTrans(s, Prefix(s).rest, mid);
    OnLineEnds(s, mid, rest);
  }

  /** A line followed by whole lines is whole lines. */
  lemma LinesCons(s: string, mid: string, rest: string)
    requires IsSuffix(mid, s) && LineOf(s, |s| - |mid|)
    requires IsSuffix(rest, mid) && LinesOf(mid, |mid| - |rest|)
    ensures IsSuffix(rest, s) && LinesOf(s, |s| - |rest|)
  {
    var k, m := |s| - |mid|, |mid| - |rest|;
    var t := s[k..];
    assert rest == s[k..][m..];
    if m > 0 { assert s[k + m - 1] == t[m - 1]; }
    forall i | 0 <= i < k + m && LineStart(s, i)
      ensures i + 2 < k + m && Marked(s, i)
    {
      if i >= k {
        var j := i - k;
        if j > 0 { assert t[j - 1] == s[i - 1]; }
        assert LineStart(t, j);
        assert t[j] == s[i] && t[j + 1] == s[i + 1];
      }
    }
  }

  // ---- header (parse.rs:74-84) ----------------------------------------------

  /** `many0(header_line)`: applies `header_line` until it fails. It never
      fails itself; the rest starts at the first line that does not parse and
      what it skipped is a whole number of `%%` lines. */
  function HeaderLines(s: string, d: Dialect): (r: Parsed<seq<seq<seq<Item>>>>)
    ensures r.Ok? && |r.rest| <= |s|
    ensures r.value == [] <==> r.rest == s
    decreases |s|
  {
    var line := HeaderLine(s, d);
    if line.Err? then Ok(s, []) else
    var more := HeaderLines(line.rest, d);
    Ok(more.rest, [line.value] + more.value)
  }

  /** `many0` stops at the first line `header_line` rejects, and everything
      before it is a whole number of `%%` lines. */
  lemma HeaderLinesStop(s: string, d: Dialect)
    ensures IsSuffix(HeaderLines(s, d).rest, s) && HeaderLine(HeaderLines(s, d).rest, d).Err?
    ensures LinesOf(s, |s| - |HeaderLines(s, d).rest|)
  {
    HeaderLinesRejects(s, d);
    HeaderLinesWhole(s, d);
  }

  lemma {:induction false} HeaderLinesRejects(s: string, d: Dialect)
    ensures HeaderLine(HeaderLines(s, d).rest, d).Err?
    decreases |s|
  {
    var line := HeaderLine(s, d);
    if line.Ok? {
      HeaderLinesRejects(line.rest, d);
    }
  }

  /** `s` up to the suffix `rest` is a whole number of header lines. */
  predicate WholeLines(s: string, rest: string) {
    IsSuffix(rest, s) && LinesOf(s, |s| - |rest|)
  }

  lemma {:induction false} HeaderLinesWhole(s: string, d: Dialect)
    ensures WholeLines(s, HeaderLines(s, d).rest)
    decreases |s|
  {
    if HeaderLine(s, d).Ok? {
      var mid := HeaderLine(s, d).rest;
      var rest := HeaderLines(mid, d).rest;
      assert HeaderLines(s, d).rest == rest by { HeaderLinesUnfold(s, d); }
      assert IsSuffix(mid, s) && LineOf(s, |s| - |mid|) by { HeaderLineShape(s, d); }
      assert WholeLines(s, rest) by {
        HeaderLinesWhole(mid, d);
        LinesCons(s, mid, rest);
      }
    } else {
      assert HeaderLines(s, d).rest == s;
      assert s[0..] == s;
    }
  }

  function Flatten<T>(xss: seq<seq<T>>): seq<T> {
    if xss == [] then [] else xss[0] + Flatten(xss[1..])
  }

  /** The effect of one `push` in the loop at parse.rs:77-82. */
  function Push(h: Header, item: Item): Header {
    match item
    case TikzLibrary(name) => h.(tikzLibrary := h.tikzLibrary + [name])
    case Package(name) => h.(package := h.package + [name])
  }

  /** The header that the loop at parse.rs:76-82 builds from `items`. */
  function Collect(items: seq<Item>): Header {
    if items == [] then EmptyHeader
    else Push(Collect(items[..|items| - 1]), items[|items| - 1])
  }

  /** All items of all declarations of all lines, in source order. */
  function AllItems(lines: seq<seq<seq<Item>>>): seq<Item> {
    Flatten(Flatten(lines))
  }

  lemma HeaderLinesUnfold(s: string, d: Dialect)
    requires HeaderLine(s, d).Ok?
    ensures HeaderLines(s, d).rest == HeaderLines(HeaderLine(s, d).rest, d).rest
    ensures HeaderLines(s, d).value == [HeaderLine(s, d).value] + HeaderLines(HeaderLine(s, d).rest, d).value
  {
  }

  lemma CollectSnoc(items: seq<Item>, i: nat)
    requires i < |items|
    ensures Collect(items[..i + 1]) == Push(Collect(items[..i]), items[i])
  {
    assert items[..i + 1][..i] == items[..i];
  }

  /** What `header` returns, as a function of its input. */
  function HeaderOf(s: string, d: Dialect): (r: Parsed<Header>)
    ensures r.Ok? && WholeLines(s, r.rest) && HeaderLine(r.rest, d).Err?
    ensures HeaderLine(s, d).Err? ==> r == Ok(s, EmptyHeader)
  {
    var lines := HeaderLines(s, d);
    HeaderLinesRejects(s, d);
    HeaderLinesWhole(s, d);
    NoHeaderLines(s, d);
    if lines.Err? then Err else Ok(lines.rest, Collect(AllItems(lines.value)))
  }

  /** When the first line is rejected, `many0` yields no items. */
  lemma NoHeaderLines(s: string, d: Dialect)
    ensures HeaderLine(s, d).Err? ==> HeaderLines(s, d) == Ok(s, []) && AllItems([]) == []
  {
    assert Flatten<Item>([]) == [];
  }

  /** `many0(header_line)` as a loop: applies `header_line` until it fails
      and keeps what each line declared. */
  method ManyHeaderLines(input: string, d: Dialect) returns (rest: string, lines: seq<seq<seq<Item>>>)
    ensures Ok(rest, lines) == HeaderLines(input, d)
  {
    rest := input;
    lines := [];
    var line := HeaderLine(rest, d);
    assert lines + HeaderLines(rest, d).value == HeaderLines(rest, d).value;
    while line.Ok?
      invariant line == HeaderLine(rest, d)
      invariant HeaderLines(rest, d).rest == HeaderLines(input, d).rest
      invariant lines + HeaderLines(rest, d).value == HeaderLines(input, d).value
      decreases |rest|
    {
      HeaderLinesStep(rest, d, lines);
      lines := lines + [line.value];
      rest := line.rest;
      line := HeaderLine(rest, d);
    }
    HeaderLinesDone(rest, d, lines);
  }

  /** One round of the `many0` loop keeps what is still to be read. */
  lemma HeaderLinesStep(s: string, d: Dialect, lines: seq<seq<seq<Item>>>)
    requires HeaderLine(s, d).Ok?
    ensures var line := HeaderLine(s, d);
      HeaderLines(line.rest, d).rest == HeaderLines(s, d).rest
      && (lines + [line.value]) + HeaderLines(line.rest, d).value == lines + HeaderLines(s, d).value
  {
    var line := HeaderLine(s, d);
    HeaderLinesUnfold(s, d);
    Regroup(lines, [line.value], HeaderLines(line.rest, d).value);
  }

  /** The `many0` loop ends where `header_line` first fails. */
  lemma HeaderLinesDone(s: string, d: Dialect, lines: seq<seq<seq<Item>>>)
    requires HeaderLine(s, d).Err?
    ensures HeaderLines(s, d) == Ok(s, []) && lines + HeaderLines(s, d).value == lines
  {
  }

  /** `header`: `many0(header_line)`, then the items pushed one by one onto
      the two lists of a fresh `Header`. */
  method ParseHeader(input: string, d: Dialect) returns (r: Parsed<Header>)
    ensures r == HeaderOf(input, d)
  {
    var rest, lines := ManyHeaderLines(input, d);
    var items := AllItems(lines);
    var tikzLibrary: seq<string> := [];
    var package: seq<string> := [];
    for i := 0 to |items|
      invariant Header(tikzLibrary, package) == Collect(items[..i])
    {
      CollectSnoc(items, i);
      match items[i]
      case TikzLibrary(name) =>
        tikzLibrary := tikzLibrary + [name];
      case Package(name) =>
        package := package + [name];
    }
    assert items[..|items|] == items;
    r := Ok(rest, Header(tikzLibrary, package));
  }
}
