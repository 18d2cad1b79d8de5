/** The unit tests of `src/parse.rs` (lines 86-148), each proved rather
    than run, plus the behaviour of a bare `%%` line in the two dialects. */
module ParseTests {
  import opened Text
  import opened Parse
  import opened ParseProps
  import opened ParseText

  // ---- the declarations the tests write -----------------------------------

  const CalcArrows := Decl(" ", true, ["calc", "arrows"], Spacing("", " ", [" "]))
  const CalcArrowsTight := Decl(" ", true, ["calc", "arrows"], Spacing("", "", [""]))
  const TikzcdCtex := Decl(" ", false, ["tikzcd", "ctex"], Spacing("", " ", [" "]))
  const Ctex := Decl(" ", false, ["ctex"], Spacing("", "", []))
  const CalcDecorate := Decl(" ", true, ["calc", "decorate"], Spacing("", " ", [" "]))
  const Arrows := Decl("  ", true, ["arrows"], Spacing("", " ", []))
  const EmptyLibraries := Decl(" ", true, [], Spacing("", "", []))
  const FirstLine := Line([CalcDecorate], "")
  const SecondLine := Line([Ctex, Arrows], "")

  lemma OneMoreName(name: string, gap: string)
    ensures MoreNamesThen([name], [gap], "") == "," + gap + name
  {
    assert [name][1..] == [];
  }

  lemma CalcArrowsText()
    ensures DeclOk(CalcArrows) && DeclThen(CalcArrows, "") == "tikzlibrary: calc, arrows"
  {
    OneMoreName("arrows", " ");
    assert CalcArrows.names[1..] == ["arrows"];
    assert "tikzlibrary" + ("" + (":" + (" " + ("calc" + ", arrows")))) == "tikzlibrary: calc, arrows";
  }

  lemma CalcArrowsTightText()
    ensures DeclOk(CalcArrowsTight) && DeclThen(CalcArrowsTight, "") == "tikzlibrary:calc,arrows"
  {
    OneMoreName("arrows", "");
    assert CalcArrowsTight.names[1..] == ["arrows"];
    assert "tikzlibrary" + ("" + (":" + ("" + ("calc" + ",arrows")))) == "tikzlibrary:calc,arrows";
  }

  lemma TikzcdCtexText()
    ensures DeclOk(TikzcdCtex) && DeclThen(TikzcdCtex, "") == "package: tikzcd, ctex"
  {
    OneMoreName("ctex", " ");
    assert TikzcdCtex.names[1..] == ["ctex"];
    assert "package" + ("" + (":" + (" " + ("tikzcd" + ", ctex")))) == "package: tikzcd, ctex";
  }

  lemma CtexText()
    ensures DeclOk(Ctex) && DeclThen(Ctex, "") == "package:ctex"
  {
    assert Ctex.names[1..] == [];
    assert "package" + ("" + (":" + ("" + ("ctex" + "")))) == "package:ctex";
  }

  lemma TwoLibraries(a: string, b: string)
    ensures Libraries([a, b]) == [TikzLibrary(a), TikzLibrary(b)]
  {
  }

  lemma TwoPackages(a: string, b: string)
    ensures Packages([a, b]) == [Package(a), Package(b)]
  {
  }

  lemma OnePackage(a: string)
    ensures Packages([a]) == [Package(a)]
  {
  }

  // ---- the tests ----------------------------------------------------------

  /** `test_tikz_library`, parse.rs:86-108. */
  lemma TikzLibraryTest()
    ensures TikzLibraryDecl("tikzlibrary: calc, arrows")
         == Ok("", [TikzLibrary("calc"), TikzLibrary("arrows")])
    ensures TikzLibraryDecl("tikzlibrary:calc,arrows")
         == Ok("", [TikzLibrary("calc"), TikzLibrary("arrows")])
  {
    CalcArrowsText();
    CalcArrowsTightText();
    TwoLibraries("calc", "arrows");
    DeclRoundTrip(CalcArrows, "");
    DeclRoundTrip(CalcArrowsTight, "");
  }

  /** `test_package`, parse.rs:110-126. */
  lemma PackageTest()
    ensures PackageDecl("package: tikzcd, ctex") == Ok("", [Package("tikzcd"), Package("ctex")])
    ensures PackageDecl("package:ctex") == Ok("", [Package("ctex")])
  {
    TikzcdCtexText();
    CtexText();
    TwoPackages("tikzcd", "ctex");
    OnePackage("ctex");
    DeclRoundTrip(TikzcdCtex, "");
    DeclRoundTrip(Ctex, "");
  }

  // ---- a declaration that names nothing -----------------------------------

  lemma EmptyListText()
    ensures DeclOk(EmptyLibraries) && DeclThen(EmptyLibraries, "") == "tikzlibrary:"
  {
    assert "tikzlibrary" + ("" + (":" + ("" + ""))) == "tikzlibrary:";
  }

  /** `separated_list` accepts an empty list, so a keyword and a colon alone
      make a declaration that stands for no items. */
  lemma EmptyListLine(dialect: Dialect)
    ensures HeaderLine("%% tikzlibrary:\n", dialect) == Ok("", [[]])
  {
    EmptyListText();
    var l := Line([EmptyLibraries], "");
    assert LineOk(l);
    OneDeclLine(l);
    assert "%%" + (" " + ("tikzlibrary:" + "\n")) == "%% tikzlibrary:\n";
    LineRoundTrip(l, "", dialect);
    assert DeclsItems(l.decls) == [[]];
  }

  // ---- `test_header`, parse.rs:128-148 ------------------------------------

  const FirstText := "%% tikzlibrary: calc, decorate\n"
  const SecondText := "%% package:ctex  tikzlibrary: arrows\n"

  /** A line of one declaration and no trailing spaces, printed. */
  lemma OneDeclLine(l: Line)
    requires LineOk(l) && |l.decls| == 1 && l.trailing == ""
    ensures LineThen(l, "") == "%%" + (l.decls[0].lead + (DeclThen(l.decls[0], "") + "\n"))
  {
    var d := l.decls[0];
    assert l.trailing + ("\n" + "") == "\n";
    assert l.decls[1..] == [];
    assert DeclsThen(l.decls[1..], "\n") == "\n";
    DeclThenCat(d, "\n");
    assert DeclsThen(l.decls, "\n") == d.lead + DeclThen(d, "\n");
  }

  /** A line of two declarations and no trailing spaces, printed. */
  lemma TwoDeclLine(l: Line)
    requires LineOk(l) && |l.decls| == 2 && l.trailing == ""
    ensures LineThen(l, "") == "%%" + (l.decls[0].lead + (DeclThen(l.decls[0], "")
      + (l.decls[1].lead + (DeclThen(l.decls[1], "") + "\n"))))
  {
    var d0, d1 := l.decls[0], l.decls[1];
    assert l.trailing + ("\n" + "") == "\n";
    assert l.decls[1..][0] == d1;
    assert l.decls[1..][1..] == [];
    assert DeclsThen(l.decls[1..][1..], "\n") == "\n";
    DeclThenCat(d1, "\n");
    var u := d1.lead + (DeclThen(d1, "") + "\n");
    assert DeclsThen(l.decls[1..], "\n") == u;
    DeclThenCat(d0, u);
    assert DeclsThen(l.decls, "\n") == d0.lead + DeclThen(d0, u);
  }

  lemma CalcDecorateText()
    ensures DeclOk(CalcDecorate) && DeclThen(CalcDecorate, "") == "tikzlibrary: calc, decorate"
  {
    assert CalcDecorate.names[1..] == ["decorate"];
    assert ["decorate"][1..] == [];
  }

  lemma ArrowsText()
    ensures DeclOk(Arrows) && DeclThen(Arrows, "") == "tikzlibrary: arrows"
  {
    assert Arrows.names[1..] == [];
  }

  lemma FirstLineText()
    ensures LineOk(FirstLine) && LineThen(FirstLine, "") == FirstText
  {
    CalcDecorateText();
    OneDeclLine(FirstLine);
    FirstLineChars();
  }

  lemma FirstLineChars()
    ensures "%%" + (" " + ("tikzlibrary: calc, decorate" + "\n")) == FirstText
  {
    Regroup("%%", " ", "tikzlibrary: calc, decorate" + "\n");
    Regroup("%%" + " ", "tikzlibrary: calc, decorate", "\n");
    assert "%%" + " " == "%% ";
    assert "%% " + "tikzlibrary: calc, decorate" == "%% tikzlibrary: calc, decorate";
  }

  lemma SecondLineText()
    ensures LineOk(SecondLine) && LineThen(SecondLine, "") == SecondText
  {
    CtexText();
    ArrowsText();
    TwoDeclLine(SecondLine);
    SecondLineChars();
  }

  lemma SecondLineChars()
    ensures "%%" + (" " + ("package:ctex" + ("  " + ("tikzlibrary: arrows" + "\n")))) == SecondText
  {
    Regroup("%%", " ", "package:ctex" + ("  " + ("tikzlibrary: arrows" + "\n")));
    Regroup("%% ", "package:ctex", "  " + ("tikzlibrary: arrows" + "\n"));
    Regroup("%% package:ctex", "  ", "tikzlibrary: arrows" + "\n");
    Regroup("%% package:ctex  ", "tikzlibrary: arrows", "\n");
    assert "%%" + " " == "%% ";
    assert "%% " + "package:ctex" == "%% package:ctex";
    assert "%% package:ctex" + "  " == "%% package:ctex  ";
    ArrowsAfterPackage();
  }

  lemma ArrowsAfterPackage()
    ensures "%% package:ctex  " + "tikzlibrary: arrows" == "%% package:ctex  tikzlibrary: arrows"
  {
  }

  lemma TestHeaderText()
    ensures LinesOk([FirstLine, SecondLine])
    ensures HeaderThen([FirstLine, SecondLine], "") == FirstText + SecondText
  {
    SecondLineText();
    FirstLineText();
    assert [FirstLine, SecondLine][1..] == [SecondLine];
    assert [SecondLine][1..] == [];
    assert HeaderThen([SecondLine], "") == LineThen(SecondLine, "");
    LineThenCat(FirstLine, SecondText);
  }

  lemma TestHeaderValue()
    ensures LinesHeader([FirstLine, SecondLine])
         == Header(["calc", "decorate", "arrows"], ["ctex"])
  {
    assert [FirstLine, SecondLine][1..] == [SecondLine];
    assert [SecondLine][1..] == [];
    assert [CalcDecorate][1..] == [];
    assert [Ctex, Arrows][1..] == [Arrows];
    assert [Arrows][1..] == [];
    assert DeclsHeader([CalcDecorate]) == Merge(Header(["calc", "decorate"], []), EmptyHeader);
    assert ["calc", "decorate"] + [] == ["calc", "decorate"];
    assert DeclsHeader([Arrows]) == Merge(Header(["arrows"], []), EmptyHeader);
    assert ["arrows"] + [] == ["arrows"];
    assert DeclsHeader([Ctex, Arrows]) == Merge(Header([], ["ctex"]), Header(["arrows"], []));
    assert [] + ["arrows"] == ["arrows"];
    assert ["ctex"] + [] == ["ctex"];
    assert LinesHeader([SecondLine]) == Merge(Header(["arrows"], ["ctex"]), EmptyHeader);
    assert ["calc", "decorate"] + ["arrows"] == ["calc", "decorate", "arrows"];
  }

  /** `test_header`, parse.rs:128-148, which holds in both dialects. */
  lemma HeaderTest(dialect: Dialect)
    ensures HeaderOf("%% tikzlibrary: calc, decorate\n" + "%% package:ctex  tikzlibrary: arrows\n", dialect)
         == Ok("", Header(["calc", "decorate", "arrows"], ["ctex"]))
  {
    TestHeaderText();
    TestHeaderValue();
    HeaderRoundTrip([FirstLine, SecondLine], "", dialect);
  }

  // ---- a line that is exactly `%%` -----------------------------------------

  /** As parse.rs is written, a bare `%%` line is not a header line, so a
      header that starts with one is empty and nothing of it is consumed. */
  lemma BareLineStops(rest: string)
    ensures HeaderLine("%%\n" + rest, AsWritten).Err?
    ensures HeaderOf("%%\n" + rest, AsWritten) == Ok("%%\n" + rest, EmptyHeader)
  {
    assert ("%%\n" + rest)[2] == '\n';
  }

  /** Under `BareComment` the line is skipped and declares nothing. */
  lemma BareLineSkipped(rest: string)
    ensures HeaderLine("%%\n" + rest, BareComment) == Ok(rest, [])
    ensures HeaderOf("%%\n" + rest, BareComment) == HeaderOf(rest, BareComment)
  {
    var s := "%%\n" + rest;
    assert s[..3] == "%%\n" && s[3..] == rest;
    HeaderOfCons(s, BareComment);
    assert Flatten<Item>([]) == [];
    var h := HeaderOf(rest, BareComment).value;
    assert Merge(EmptyHeader, h) == h;
  }
}
