/** The unit tests of `src/render.rs` (lines 61-99), each proved rather than
    run. The expected outputs are raw string literals in the source; here
    they are written as their lines, each followed by a newline
    (`JoinLines`). */
module RenderTests {
  import opened Text
  import opened Parse
  import opened ParseProps
  import opened ParseText
  import opened ParseTests
  import opened Render

  // ---- finding the block in the test inputs ---------------------------------

  /** Text that starts with a comment line and then something other than
      `%`: the block is that one line. */
  lemma OneLineBlock(l: string, rest: string)
    requires CommentLine(l) && (rest == [] || rest[0] != '%')
    ensures BlockEnd(l + rest) == Some(|l|)
    ensures Block(l + rest) == Some(l) && Body(l + rest) == rest
  {
    var s := l + rest;
    assert s[0..|l|] == l;
    CommentLineAt(s, 0, l);
    assert !CommentStart(s, |l|) by {
      if |l| < |s| {
        assert s[|l|] == rest[0];
      }
    }
    BlockEndExact(s, 0, |l|);
    assert s[..|l|] == l && s[|l|..] == rest;
  }

  /** The same with two comment lines. */
  lemma TwoLineBlock(l1: string, l2: string, rest: string)
    requires CommentLine(l1) && CommentLine(l2) && (rest == [] || rest[0] != '%')
    ensures BlockEnd(l1 + (l2 + rest)) == Some(|l1| + |l2|)
    ensures Block(l1 + (l2 + rest)) == Some(l1 + l2) && Body(l1 + (l2 + rest)) == rest
  {
    ThreeParts(l1, l2, rest);
    TwoLinesAt(l1 + (l2 + rest), |l1|, |l1| + |l2|);
  }

  /** Two comment lines at the start of `s`, ending at `k`, not followed
      by another. */
  lemma TwoLinesAt(s: string, j: nat, k: nat)
    requires 0 < j <= k <= |s| && CommentLine(s[0..j]) && CommentLine(s[j..k])
    requires k == |s| || s[k] != '%'
    ensures BlockEnd(s) == Some(k) && Block(s) == Some(s[..k]) && Body(s) == s[k..]
  {
    assert s[j - 1] == s[0..j][j - 1];
    CommentLineAt(s, 0, s[0..j]);
    CommentLineAt(s, j, s[j..k]);
    CommentLinesJoin(s, 0, j, k);
    BlockEndExact(s, 0, k);
  }

  /** Where the three parts of `a + (b + c)` lie. */
  lemma ThreeParts<T>(a: seq<T>, b: seq<T>, c: seq<T>)
    requires a != []
    ensures var s := a + (b + c);
      s[0..|a|] == a && s[|a|..|a| + |b|] == b && s[|a| - 1] == a[|a| - 1]
      && s[..|a| + |b|] == a + b && s[|a| + |b|..] == c
      && (c != [] ==> s[|a| + |b|] == c[0])
  {
    var s := a + (b + c);
    assert s == (a + b) + c;
  }

  /** Text whose first character is neither white space nor `%` has no
      block. */
  lemma NoBlock(s: string)
    requires s != [] && !IsWhite(s[0]) && s[0] != '%'
    ensures BlockEnd(s).None?
  {
    assert TakeWhileLen(s, IsWhite) == 0;
  }

  /** `prefix` takes a tab after `%%`, but the regular expression does not:
      a text starting that way has no block, so its header is empty. */
  lemma TabLineNoBlock(s: string)
    requires |s| >= 3 && s[0] == '%' && s[1] == '%' && s[2] == '\t'
    ensures Prefix(s).Ok? && BlockEnd(s).None?
  {
    assert TakeWhileLen(s, IsWhite) == 0;
  }

  lemma NoBom(s: string)
    requires s != [] && s[0] != Bom
    ensures StripBom(s) == s
  {
    StripBomKeeps(s);
  }

  // ---- `test_render_arrow`, render.rs:90-99 ----------------------------------

  /** The content goes through verbatim: `<->` is not escaped. */
  lemma RenderArrowTest(d: Dialect)
    ensures RenderText("\\abc[<->]", d)
         == JoinLines(["\\documentclass[tikz]{standalone}", "\\begin{document}", "\\abc[<->]",
                       "\\end{document}"])
  {
    NoBom("\\abc[<->]");
    NoBlock("\\abc[<->]");
    RenderWithoutBlock("\\abc[<->]", d);
  }

  // ---- `test_render_bom`, render.rs:77-88 ------------------------------------

  const CalcOnly := Decl(" ", true, ["calc"], Spacing("", "", []))
  const CalcLine := Line([CalcOnly], "")

  lemma CalcOnlyText()
    ensures DeclOk(CalcOnly) && DeclThen(CalcOnly, "") == "tikzlibrary:calc"
  {
    assert CalcOnly.names[1..] == [];
  }

  lemma CalcLineText()
    ensures LineOk(CalcLine) && LineThen(CalcLine, "") == "%% tikzlibrary:calc\n"
  {
    CalcOnlyText();
    OneDeclLine(CalcLine);
    CalcLineChars();
  }

  lemma CalcLineChars()
    ensures "%%" + (" " + ("tikzlibrary:calc" + "\n")) == "%% tikzlibrary:calc\n"
  {
    Regroup("%%", " ", "tikzlibrary:calc" + "\n");
    Regroup("%%" + " ", "tikzlibrary:calc", "\n");
    assert "%%" + " " == "%% ";
    assert "%% " + "tikzlibrary:calc" == "%% tikzlibrary:calc";
  }

  lemma CalcHeaderText()
    ensures LinesOk([CalcLine]) && HeaderThen([CalcLine], "") == "%% tikzlibrary:calc\n"
  {
    CalcLineText();
    assert [CalcLine][1..] == [];
    assert HeaderThen([CalcLine], "") == LineThen(CalcLine, "");
  }

  lemma CalcHeaderValue()
    ensures LinesHeader([CalcLine]) == Header(["calc"], [])
  {
    assert [CalcLine][1..] == [] && [CalcOnly][1..] == [];
    assert DeclsHeader([CalcOnly]) == Merge(Header(["calc"], []), EmptyHeader);
    assert LinesHeader([CalcLine]) == Merge(Header(["calc"], []), EmptyHeader);
  }

  lemma CalcHeader(d: Dialect)
    ensures HeaderOf("%% tikzlibrary:calc\n", d) == Ok("", Header(["calc"], []))
  {
    CalcHeaderText();
    CalcHeaderValue();
    HeaderRoundTrip([CalcLine], "", d);
  }

  lemma CalcLineIsComment()
    ensures CommentLine("%% tikzlibrary:calc\n")
  {
  }

  /** The output for a text with no byte-order mark whose block parses to
      `h`. */
  lemma RenderOfBlock(t: string, d: Dialect, block: string, h: Header)
    requires StripBom(t) == t && Block(t) == Some(block) && HeaderOf(block, d).value == h
    ensures RenderText(t, d) == JoinLines([DocumentClass] + Uses("usepackage", h.package)
              + Uses("usetikzlibrary", h.tikzLibrary) + [BeginDocument, Body(t), EndDocument])
  {
    RenderLines(t, d);
  }

  lemma UsesOne(command: string, name: string)
    ensures Uses(command, [name]) == [Command(command, name)]
  {
    assert [name][1..] == [];
  }

  lemma UseCalc()
    ensures Uses("usetikzlibrary", ["calc"]) == ["\\usetikzlibrary{calc}"]
  {
    UsesOne("usetikzlibrary", "calc");
    assert Command("usetikzlibrary", "calc") == "\\usetikzlibrary{calc}";
  }

  lemma ListOfFive<T>(a: T, b: T, c: T, x: T, y: T)
    ensures [a] + [] + [b] + [c, x, y] == [a, b, c, x, y]
  {
  }

  lemma BomTestBlock()
    ensures var t := "%% tikzlibrary:calc\n" + "\\abc{de}";
            !StartsWith(t, [Bom]) && StripBom(t) == t
            && Block(t) == Some("%% tikzlibrary:calc\n") && Body(t) == "\\abc{de}"
  {
    var t := "%% tikzlibrary:calc\n" + "\\abc{de}";
    assert t[0] == '%';
    assert t[..1] == ['%'];
    NoBom(t);
    CalcLineIsComment();
    OneLineBlock("%% tikzlibrary:calc\n", "\\abc{de}");
  }

  lemma RenderBomTest(d: Dialect)
    ensures RenderText([Bom] + ("%% tikzlibrary:calc\n" + "\\abc{de}"), d)
         == JoinLines(["\\documentclass[tikz]{standalone}", "\\usetikzlibrary{calc}",
                       "\\begin{document}", "\\abc{de}", "\\end{document}"])
  {
    var t := "%% tikzlibrary:calc\n" + "\\abc{de}";
    BomTestBlock();
    RenderIgnoresBom(t, d);
    CalcHeader(d);
    RenderOfBlock(t, d, "%% tikzlibrary:calc\n", Header(["calc"], []));
    UseCalc();
    ListOfFive(DocumentClass, "\\usetikzlibrary{calc}", BeginDocument, "\\abc{de}", EndDocument);
  }

  // ---- `test_render`, render.rs:61-75 ----------------------------------------

  const LibL := Decl(" ", true, ["l"], Spacing("", "", []))
  const PackagesPQ := Decl(" ", false, ["p", "q"], Spacing("", "", [""]))
  const DeclLine := Line([LibL, PackagesPQ], "")

  lemma LibLText()
    ensures DeclOk(LibL) && DeclThen(LibL, "") == "tikzlibrary:l"
  {
    assert LibL.names[1..] == [];
  }

  lemma PackagesPQText()
    ensures DeclOk(PackagesPQ) && DeclThen(PackagesPQ, "") == "package:p,q"
  {
    assert PackagesPQ.names[1..] == ["q"] && ["q"][1..] == [];
    assert MoreNamesThen(["q"], [""], "") == ",q";
  }

  lemma DeclLineText()
    ensures LineOk(DeclLine) && LineThen(DeclLine, "") == "%% tikzlibrary:l package:p,q\n"
  {
    LibLText();
    PackagesPQText();
    TwoDeclLine(DeclLine);
    DeclLineChars();
  }

  lemma DeclLineChars()
    ensures "%%" + (" " + ("tikzlibrary:l" + (" " + ("package:p,q" + "\n"))))
         == "%% tikzlibrary:l package:p,q\n"
  {
    Regroup("%%", " ", "tikzlibrary:l" + (" " + ("package:p,q" + "\n")));
    Regroup("%% ", "tikzlibrary:l", " " + ("package:p,q" + "\n"));
    Regroup("%% tikzlibrary:l", " ", "package:p,q" + "\n");
    Regroup("%% tikzlibrary:l ", "package:p,q", "\n");
    assert "%%" + " " == "%% ";
    assert "%% " + "tikzlibrary:l" == "%% tikzlibrary:l";
    assert "%% tikzlibrary:l" + " " == "%% tikzlibrary:l ";
    assert "%% tikzlibrary:l " + "package:p,q" == "%% tikzlibrary:l package:p,q";
  }

  lemma DeclHeaderText()
    ensures LinesOk([DeclLine]) && HeaderThen([DeclLine], "") == "%% tikzlibrary:l package:p,q\n"
  {
    DeclLineText();
    assert [DeclLine][1..] == [];
    assert HeaderThen([DeclLine], "") == LineThen(DeclLine, "");
  }

  lemma DeclHeaderValue()
    ensures LinesHeader([DeclLine]) == Header(["l"], ["p", "q"])
  {
    assert [DeclLine][1..] == [];
    assert [LibL, PackagesPQ][1..] == [PackagesPQ] && [PackagesPQ][1..] == [];
    assert DeclsHeader([PackagesPQ]) == Merge(Header([], ["p", "q"]), EmptyHeader);
    assert DeclsHeader([LibL, PackagesPQ]) == Merge(Header(["l"], []), Header([], ["p", "q"]));
    assert LinesHeader([DeclLine]) == Merge(Header(["l"], ["p", "q"]), EmptyHeader);
  }

  lemma DeclLineHeader(d: Dialect)
    ensures HeaderOf("%% tikzlibrary:l package:p,q\n", d) == Ok("", Header(["l"], ["p", "q"]))
  {
    DeclHeaderText();
    DeclHeaderValue();
    HeaderRoundTrip([DeclLine], "", d);
  }

  lemma TestRenderBlock()
    ensures var t := "%%\n" + ("%% tikzlibrary:l package:p,q\n" + "\\abc{de}");
            StripBom(t) == t
            && Block(t) == Some("%%\n" + "%% tikzlibrary:l package:p,q\n")
            && Body(t) == "\\abc{de}"
  {
    var t := "%%\n" + ("%% tikzlibrary:l package:p,q\n" + "\\abc{de}");
    assert t[0] == '%';
    NoBom(t);
    assert CommentLine("%%\n");
    assert CommentLine("%% tikzlibrary:l package:p,q\n");
    TwoLineBlock("%%\n", "%% tikzlibrary:l package:p,q\n", "\\abc{de}");
  }

  /** The expected output of `test_render`. */
  const TestRenderOutput := JoinLines([DocumentClass, "\\usepackage{p}", "\\usepackage{q}",
    "\\usetikzlibrary{l}", BeginDocument, "\\abc{de}", EndDocument])

  lemma UsePQL()
    ensures Uses("usepackage", ["p", "q"]) == ["\\usepackage{p}", "\\usepackage{q}"]
    ensures Uses("usetikzlibrary", ["l"]) == ["\\usetikzlibrary{l}"]
  {
    assert ["p", "q"][1..] == ["q"];
    UsesOne("usepackage", "q");
    UsesOne("usetikzlibrary", "l");
    assert Command("usepackage", "p") == "\\usepackage{p}";
    assert Command("usepackage", "q") == "\\usepackage{q}";
    assert Command("usetikzlibrary", "l") == "\\usetikzlibrary{l}";
  }

  lemma ListOfSeven<T>(a: T, b: T, c: T, e: T, x: T, y: T, z: T)
    ensures [a] + [b, c] + [e] + [x, y, z] == [a, b, c, e, x, y, z]
  {
  }

  /** With a bare `%%` line skipped, the test holds. */
  lemma RenderTestBareComment()
    ensures RenderText("%%\n" + ("%% tikzlibrary:l package:p,q\n" + "\\abc{de}"), BareComment)
         == TestRenderOutput
  {
    var t := "%%\n" + ("%% tikzlibrary:l package:p,q\n" + "\\abc{de}");
    TestRenderBlock();
    BareLineSkipped("%% tikzlibrary:l package:p,q\n");
    DeclLineHeader(BareComment);
    RenderOfBlock(t, BareComment, "%%\n" + "%% tikzlibrary:l package:p,q\n", Header(["l"], ["p", "q"]));
    UsePQL();
    ListOfSeven(DocumentClass, "\\usepackage{p}", "\\usepackage{q}", "\\usetikzlibrary{l}",
      BeginDocument, "\\abc{de}", EndDocument);
  }

  /** A four-line document and a seven-line one whose second lines differ
      in their second character differ. */
  lemma SecondLinesDiffer(a: string, b: string, x: string, y: string,
                          c: string, d: string, e: string, f: string, g: string, h: string)
    requires |b| > 1 && |c| > 1 && b[1] != c[1]
    ensures JoinLines([a, b, x, y]) != JoinLines([a, c, d, e, f, g, h])
  {
    var xs, ys := [x, y], [d, e, f, g, h];
    assert [a, b, x, y] == [a] + ([b] + xs);
    assert [a, c, d, e, f, g, h] == [a] + ([c] + ys);
    JoinLinesCons(a, [b] + xs);
    JoinLinesCons(b, xs);
    JoinLinesCons(a, [c] + ys);
    JoinLinesCons(c, ys);
    assert JoinLines([a, b, x, y])[|a| + 2] == b[1];
    assert JoinLines([a, c, d, e, f, g, h])[|a| + 2] == c[1];
  }

  lemma ListOfFour<T>(a: T, x: T, y: T, z: T)
    ensures [a] + [] + [] + [x, y, z] == [a, x, y, z]
  {
  }

  /** As parse.rs is written, the bare `%%` line stops the header parser at
      once: the header is empty and the warning of render.rs:43-45 is due. */
  lemma RenderTestAsWrittenHeader()
    ensures var t := "%%\n" + ("%% tikzlibrary:l package:p,q\n" + "\\abc{de}");
            HeaderFor(t, AsWritten) == EmptyHeader && Incomplete(t, AsWritten)
  {
    TestRenderBlock();
    BareLineStops("%% tikzlibrary:l package:p,q\n");
  }

  /** ... so the output has no `\usepackage` or `\usetikzlibrary` line ... */
  lemma RenderTestAsWritten()
    ensures RenderText("%%\n" + ("%% tikzlibrary:l package:p,q\n" + "\\abc{de}"), AsWritten)
         == JoinLines([DocumentClass, BeginDocument, "\\abc{de}", EndDocument])
  {
    var t := "%%\n" + ("%% tikzlibrary:l package:p,q\n" + "\\abc{de}");
    TestRenderBlock();
    RenderTestAsWrittenHeader();
    BareLineStops("%% tikzlibrary:l package:p,q\n");
    RenderOfBlock(t, AsWritten, "%%\n" + "%% tikzlibrary:l package:p,q\n", EmptyHeader);
    ListOfFour(DocumentClass, BeginDocument, "\\abc{de}", EndDocument);
  }

  lemma BeginIsNotUse()
    ensures |BeginDocument| > 1 && |"\\usepackage{p}"| > 1
    ensures BeginDocument[1] != "\\usepackage{p}"[1]
  {
  }

  /** ... and differs from the output the test expects. */
  lemma RenderTestAsWrittenFails()
    ensures RenderText("%%\n" + ("%% tikzlibrary:l package:p,q\n" + "\\abc{de}"), AsWritten)
         != TestRenderOutput
  {
    RenderTestAsWritten();
    BeginIsNotUse();
    SecondLinesDiffer(DocumentClass, BeginDocument, "\\abc{de}", EndDocument,
      "\\usepackage{p}", "\\usepackage{q}", "\\usetikzlibrary{l}",
      BeginDocument, "\\abc{de}", EndDocument);
  }
}
