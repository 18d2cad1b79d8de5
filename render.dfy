/** The renderer of `src/render.rs`: the byte-order mark is dropped, a block
    of `%%` comment lines at the very start of the text is found, the block
    is handed to the header parser, and the text after the block is wrapped
    into a standalone LaTeX document listing the packages and TikZ libraries
    the header declares.

    The regular expression `\A(\s*\n)*(%%( .*)?\n)+` (render.rs:32) is
    replaced by a recognizer written out by hand (`BlockEnd`), proved equal
    to a declarative description of the lines it accepts (`IsBlock`); the
    template (render.rs:14-20) is replaced by explicit concatenation
    (`Document`). */
module Render {
  import opened Text
  import opened Parse
  import opened ParseRead

  // ---- the byte-order mark (render.rs:22-28) ---------------------------------

  /** U+FEFF, which UTF-8 writes as the three bytes EF BB BF. */
  const Bom: char := '\U{FEFF}'

  /** `strip_bom`: one leading byte-order mark is removed, nothing else. */
  function StripBom(text: string): (r: string)
    ensures IsSuffix(r, text)
    ensures |r| < |text| <==> StartsWith(text, [Bom])
    ensures |text| - |r| <= 1
  {
    if |text| > 0 && text[0] == Bom then text[1..] else text
  }

  lemma StripBomRemovesOne(t: string)
    ensures StripBom([Bom] + t) == t
  {
    assert ([Bom] + t)[1..] == t;
  }

  lemma StripBomKeeps(t: string)
    requires !StartsWith(t, [Bom])
    ensures StripBom(t) == t
  {
    if |t| > 0 {
      assert t[..1] == [t[0]];
    }
  }

  // ---- what the header block is ----------------------------------------------
  // `(\s*\n)*` is a run of white space that is empty or ends in a newline;
  // `(%%( .*)?\n)+` is one or more whole lines, each `%%` followed either by
  // the newline or by a space and any characters other than a newline.

  /** `s[..b]` is white space ending in a newline, or empty. */
  predicate BlankUpTo(s: string, b: nat) {
    b <= |s| && (b == 0 || s[b - 1] == '\n')
    && forall i :: 0 <= i < b ==> IsWhite(s[i])
  }

  /** A comment line of the block may start at `i`: `%%`, then a newline or
      a space. */
  predicate CommentStart(s: string, i: nat) {
    i + 2 < |s| && s[i] == '%' && s[i + 1] == '%' && (s[i + 2] == '\n' || s[i + 2] == ' ')
  }

  /** `s[i..k]` is made of whole comment lines: it is empty or ends in a
      newline, and every line that starts in it starts like a comment line. */
  predicate CommentLinesFrom(s: string, i: nat, k: nat) {
    i <= k <= |s| && (i == k || s[k - 1] == '\n')
    && forall x :: i <= x < k && LineStart(s, x) ==> CommentStart(s, x)
  }

  /** The regular expression matches `s[..k]`, its blank lines taking
      `s[..b]`. */
  predicate IsBlock(s: string, b: nat, k: nat) {
    BlankUpTo(s, b) && b < k && CommentLinesFrom(s, b, k)
  }

  // ---- the recognizer --------------------------------------------------------

  /** The largest `b <= k` at the start of a line. */
  function LineStartBefore(s: string, k: nat): (b: nat)
    requires k <= |s|
    ensures b <= k && LineStart(s, b)
    ensures forall i :: b <= i < k ==> s[i] != '\n'
  {
    if k == 0 || s[k - 1] == '\n' then k else LineStartBefore(s, k - 1)
  }

  /** How far `(\s*\n)*` reaches: the leading run of white space, cut back to
      just after its last newline. */
  function BlankEnd(s: string): (b: nat)
    ensures BlankUpTo(s, b)
  {
    var w := TakeWhileLen(s, IsWhite);
    var b := LineStartBefore(s, w);
    assert forall i :: 0 <= i < b ==> s[..w][i] == s[i];
    b
  }

  /** The first newline at or after `i`. */
  function NextNewline(s: string, i: nat): (r: Option<nat>)
    requires i <= |s|
    ensures r.Some? ==> i <= r.value < |s| && s[r.value] == '\n'
    ensures forall j :: i <= j < |s| && (r.None? || j < r.value) ==> s[j] != '\n'
    decreases |s| - i
  {
    if i == |s| then None
    else if s[i] == '\n' then Some(i)
    else NextNewline(s, i + 1)
  }

  /** One `%%( .*)?\n` at `i`: where the line ends, if it is a comment line
      ended by a newline. */
  function CommentLineEnd(s: string, i: nat): (r: Option<nat>)
    requires i <= |s|
    ensures r.Some? <==> CommentStart(s, i) && exists j :: i + 2 <= j < |s| && s[j] == '\n'
    ensures r.Some? ==> i + 3 <= r.value <= |s| && s[r.value - 1] == '\n'
    ensures r.Some? ==> forall j :: i <= j < r.value - 1 ==> s[j] != '\n'
  {
    if i + 2 < |s| && s[i] == '%' && s[i + 1] == '%' then
      if s[i + 2] == '\n' then Some(i + 3)
      else if s[i + 2] == ' ' then
        var n := NextNewline(s, i + 3);
        if n.Some? then Some(n.value + 1) else None
      else None
    else None
  }

  /** The greedy `+`: comment lines for as long as they last. */
  function CommentLinesEnd(s: string, i: nat): (k: nat)
    requires i <= |s|
    ensures i <= k <= |s| && CommentLineEnd(s, k).None?
    ensures LineStart(s, i) ==> CommentLinesFrom(s, i, k)
    decreases |s| - i
  {
    var line := CommentLineEnd(s, i);
    if line.None? then i
    else
      var k := CommentLinesEnd(s, line.value);
      assert forall x :: i < x < line.value ==> !LineStart(s, x);
      k
  }

  /** Where the match of the regular expression ends, if there is one. */
  function BlockEnd(s: string): (r: Option<nat>)
    ensures r.Some? ==> IsBlock(s, BlankEnd(s), r.value)
    ensures r.Some? ==> CommentLineEnd(s, r.value).None?
  {
    var b := BlankEnd(s);
    var first := CommentLineEnd(s, b);
    if first.None? then None else Some(CommentLinesEnd(s, first.value))
  }

  // ---- the recognizer finds the longest match --------------------------------

  /** The blank lines of any match are exactly those `BlankEnd` finds. */
  lemma BlankEndOfBlock(s: string, b: nat, k: nat)
    requires IsBlock(s, b, k)
    ensures BlankEnd(s) == b
  {
    assert CommentStart(s, b);
    assert !IsWhite(s[b]);
    assert All(s[..b], IsWhite) by {
      forall i | 0 <= i < b ensures IsWhite(s[..b][i]) {
        assert s[..b][i] == s[i];
      }
    }
    TakeWhileLenUnique(s, IsWhite, b);
  }

  /** Comment lines up to `k` lie within what the greedy loop consumes. */
  lemma {:induction false} CommentLinesReach(s: string, i: nat, k: nat)
    requires CommentLinesFrom(s, i, k) && LineStart(s, i)
    ensures CommentLinesEnd(s, i) >= k
    decreases |s| - i
  {
    if i < k {
      assert CommentStart(s, i);
      assert s[k - 1] == '\n' && i + 2 <= k - 1;
      var j := CommentLineEnd(s, i).value;
      assert j <= k;
      CommentLinesReach(s, j, k);
    }
  }

  /** Any match of the regular expression ends at or before `BlockEnd`'s. */
  lemma BlockEndLongest(s: string, b: nat, k: nat)
    requires IsBlock(s, b, k)
    ensures BlockEnd(s).Some? && k <= BlockEnd(s).value
  {
    BlankEndOfBlock(s, b, k);
    assert CommentStart(s, b) && s[k - 1] == '\n' && b + 2 <= k - 1;
    var first := CommentLineEnd(s, b).value;
    assert first <= k;
    CommentLinesReach(s, first, k);
  }

  /** A match that no further comment line can extend is the one
      `BlockEnd` finds. */
  lemma BlockEndExact(s: string, b: nat, k: nat)
    requires IsBlock(s, b, k) && CommentLineEnd(s, k).None?
    ensures BlockEnd(s) == Some(k)
  {
    BlockEndLongest(s, b, k);
    BlankEndOfBlock(s, b, k);
    var e := BlockEnd(s).value;
    assert LineStart(s, k) && CommentLinesFrom(s, b, e);
    assert b <= k < e ==> CommentStart(s, k);
  }

  /** `l` is one comment line: `%%`, then a newline or a space and any
      characters but a newline, then a newline. */
  predicate CommentLine(l: string) {
    CommentStart(l, 0) && l[|l| - 1] == '\n' && forall i :: 0 <= i < |l| - 1 ==> l[i] != '\n'
  }

  /** A comment line written at the start of a line of `s` is a run of
      whole comment lines. */
  lemma CommentLineAt(s: string, i: nat, l: string)
    requires i + |l| <= |s| && s[i..i + |l|] == l && LineStart(s, i) && CommentLine(l)
    ensures CommentLinesFrom(s, i, i + |l|)
  {
    assert s[i + |l| - 1] == l[|l| - 1];
    forall x | i <= x < i + |l| - 1
      ensures s[x] != '\n'
    {
      assert s[x] == l[x - i];
    }
    assert s[i] == l[0] && s[i + 1] == l[1] && s[i + 2] == l[2];
  }

  lemma CommentLinesJoin(s: string, i: nat, k: nat, m: nat)
    requires CommentLinesFrom(s, i, k) && CommentLinesFrom(s, k, m)
    ensures CommentLinesFrom(s, i, m)
  {
  }

  // ---- header, body and the incomplete-header warning (render.rs:30-53) ----

  /** The matched block, `mat.as_str()`. */
  function Block(text: string): (block: Option<string>)
    ensures block.Some? <==> BlockEnd(text).Some?
    ensures block.Some? ==> StartsWith(text, block.value) && block.value != []
    ensures block.Some? ==> |block.value| == BlockEnd(text).value
  {
    var m := BlockEnd(text);
    if m.Some? then Some(text[..m.value]) else None
  }

  /** The header: parsed from the block, or empty when there is none. The
      error branch of render.rs:37-40 cannot be taken, because `header`
      never fails (`HeaderOf` is always `Ok`). */
  function HeaderFor(text: string, d: Dialect): (h: Header)
    ensures BlockEnd(text).None? ==> h == EmptyHeader
  {
    var block := Block(text);
    if block.Some? then HeaderOf(block.value, d).value else EmptyHeader
  }

  /** The condition of the warning at render.rs:43-45: the header parser
      stopped before the end of the block. */
  predicate Incomplete(text: string, d: Dialect) {
    var block := Block(text);
    block.Some? && HeaderOf(block.value, d).rest != []
  }

  /** The content: what follows the block, or the whole text. */
  function Body(text: string): (body: string)
    ensures IsSuffix(body, text)
    ensures body == text <==> BlockEnd(text).None?
    ensures BlockEnd(text).Some? ==> |text| - |body| == BlockEnd(text).value
  {
    var m := BlockEnd(text);
    if m.Some? then text[m.value..] else text
  }

  /** The block and the body make up the text; the block is the lines the
      header parser took, then the lines it did not take. Those are in
      neither the header nor the body, and they are what the warning
      reports. */
  lemma BlockThenBody(text: string, d: Dialect)
    requires Block(text).Some?
    ensures text == Block(text).value + Body(text)
    ensures var rest := HeaderOf(Block(text).value, d).rest;
            Taken(text, d).Some? && Block(text).value == Taken(text, d).value + rest
            && (Incomplete(text, d) <==> rest != [])
    ensures HeaderOf(Taken(text, d).value, d) == Ok([], HeaderFor(text, d))
  {
    var k := BlockEnd(text).value;
    assert text == text[..k] + text[k..];
    TakenHeader(text, d);
  }

  /** The block lines the header parser took. */
  function Taken(text: string, d: Dialect): (lines: Option<string>)
    ensures lines.Some? <==> Block(text).Some?
    ensures lines.Some? ==> Block(text).value == lines.value + HeaderOf(Block(text).value, d).rest
  {
    var block := Block(text);
    if block.None? then None else
    var rest := HeaderOf(block.value, d).rest;
    assert IsSuffix(rest, block.value);
    var taken := block.value[..|block.value| - |rest|];
    assert block.value == taken + rest by { SuffixSplits(block.value, rest); }
    Some(taken)
  }

  /** The header is what the parser reads from the block lines it took. */
  lemma TakenHeader(text: string, d: Dialect)
    requires Block(text).Some?
    ensures Taken(text, d).Some? && HeaderOf(Taken(text, d).value, d) == Ok([], HeaderFor(text, d))
  {
    var block := Block(text).value;
    var r := HeaderOf(block, d);
    var taken := block[..|block| - |r.rest|];
    assert Taken(text, d) == Some(taken);
    assert HeaderFor(text, d) == r.value;
    assert HeaderOf(taken, d) == Ok([], r.value) by {
      HeaderOfTaken(block, d, r.rest, r.value);
    }
  }

  // ---- the template (render.rs:14-20) ----------------------------------------

  const DocumentClass := "\\documentclass[tikz]{standalone}"
  const BeginDocument := "\\begin{document}"
  const EndDocument := "\\end{document}"

  /** `\name{arg}`. */
  function Command(name: string, arg: string): string {
    "\\" + name + "{" + arg + "}"
  }

  /** One `\n\command{name}` per name, in order, then `tail`. */
  function UsesThen(command: string, names: seq<string>, tail: string): string {
    if names == [] then tail
    else "\n" + (Command(command, names[0]) + UsesThen(command, names[1..], tail))
  }

  /** The filled template: the document class, one `\usepackage` per
      package, one `\usetikzlibrary` per library, and the content between
      `\begin{document}` and `\end{document}`. */
  function Document(h: Header, content: string): string {
    DocumentClass + UsesThen("usepackage", h.package, UsesThen("usetikzlibrary", h.tikzLibrary,
      "\n" + (BeginDocument + ("\n" + (content + ("\n" + (EndDocument + "\n")))))))
  }

  /** `render`. */
  function RenderText(text: string, d: Dialect): string {
    var t := StripBom(text);
    Document(HeaderFor(t, d), Body(t))
  }

  // ---- the document, line by line --------------------------------------------

  /** Lines, each followed by a newline. */
  function JoinLines(lines: seq<string>): (r: string)
    ensures |r| >= |lines|
  {
    if lines == [] then [] else lines[0] + ("\n" + JoinLines(lines[1..]))
  }

  /** The `\command{name}` lines for `names`. */
  function Uses(command: string, names: seq<string>): (r: seq<string>)
    ensures |r| == |names|
    ensures forall i :: 0 <= i < |names| ==> r[i] == Command(command, names[i])
  {
    if names == [] then [] else [Command(command, names[0])] + Uses(command, names[1..])
  }

  lemma {:induction false} JoinLinesCons(l: string, lines: seq<string>)
    ensures JoinLines([l] + lines) == l + ("\n" + JoinLines(lines))
  {
    assert ([l] + lines)[1..] == lines;
  }

  /** `UsesThen` writes the lines of `Uses` behind a line that is still
      open. */
  lemma {:induction false} UsesThenLines(command: string, names: seq<string>, rest: seq<string>)
    ensures UsesThen(command, names, "\n" + JoinLines(rest))
         == "\n" + JoinLines(Uses(command, names) + rest)
  {
    if names != [] {
      var u := Uses(command, names[1..]);
      UsesThenLines(command, names[1..], rest);
      assert Uses(command, names) + rest == [Command(command, names[0])] + (u + rest);
      JoinLinesCons(Command(command, names[0]), u + rest);
    } else {
      assert Uses(command, names) + rest == rest;
    }
  }

  lemma JoinTwo(a: string, b: string)
    ensures JoinLines([a, b]) == a + ("\n" + (b + "\n"))
  {
    JoinLinesCons(b, []);
    assert [b] + [] == [b] && "\n" + [] == "\n";
    JoinLinesCons(a, [b]);
    assert [a] + [b] == [a, b];
  }

  lemma JoinThree(a: string, b: string, c: string)
    ensures JoinLines([a, b, c]) == a + ("\n" + (b + ("\n" + (c + "\n"))))
  {
    JoinTwo(b, c);
    JoinLinesCons(a, [b, c]);
    assert [a] + [b, c] == [a, b, c];
  }

  /** The shape of the output: the document class line, a `\usepackage`
      line per package in header order, then a `\usetikzlibrary` line per
      library in header order, `\begin{document}`, the content, and
      `\end{document}`, each line ended by a newline. */
  lemma DocumentLines(h: Header, content: string)
    ensures Document(h, content)
         == JoinLines([DocumentClass] + Uses("usepackage", h.package)
              + Uses("usetikzlibrary", h.tikzLibrary) + [BeginDocument, content, EndDocument])
  {
    var last := [BeginDocument, content, EndDocument];
    JoinThree(BeginDocument, content, EndDocument);
    var libs := Uses("usetikzlibrary", h.tikzLibrary);
    var pkgs := Uses("usepackage", h.package);
    UsesThenLines("usetikzlibrary", h.tikzLibrary, last);
    UsesThenLines("usepackage", h.package, libs + last);
    JoinLinesCons(DocumentClass, pkgs + (libs + last));
    Regroup([DocumentClass], pkgs, libs + last);
    Regroup([DocumentClass] + pkgs, libs, last);
  }

  lemma {:induction false} JoinLinesAppend(a: seq<string>, b: seq<string>)
    ensures JoinLines(a + b) == JoinLines(a) + JoinLines(b)
  {
    if a != [] {
      JoinLinesAppend(a[1..], b);
      assert (a + b)[1..] == a[1..] + b;
    } else {
      assert a + b == b;
    }
  }

  /** The `\usepackage` and `\usetikzlibrary` lines of a header. */
  function UseLines(h: Header): seq<string> {
    Uses("usepackage", h.package) + Uses("usetikzlibrary", h.tikzLibrary)
  }

  /** What the output holds in front of the content, which depends on the
      header alone: the lines up to and including `\begin{document}`. */
  function Preamble(h: Header): string {
    JoinLines([DocumentClass] + UseLines(h) + [BeginDocument])
  }

  /** What follows the content. */
  const Closing := "\n" + (EndDocument + "\n")

  lemma SplitLast<T>(a: seq<T>, b: seq<T>, c: seq<T>, x: T, y: T, z: T)
    ensures a + b + c + [x, y, z] == a + (b + c) + [x] + [y, z]
  {
  }

  lemma JoinLinesLastTwo(pre: seq<string>, c: string, e: string)
    ensures JoinLines(pre + [c, e]) == JoinLines(pre) + (c + ("\n" + (e + "\n")))
  {
    JoinLinesAppend(pre, [c, e]);
    JoinTwo(c, e);
  }

  /** The content is inserted verbatim, without escaping, between a
      preamble that depends only on the header and a fixed closing line. */
  lemma ContentVerbatim(h: Header, content: string)
    ensures Document(h, content) == Preamble(h) + (content + Closing)
  {
    var pre := [DocumentClass] + UseLines(h) + [BeginDocument];
    DocumentLines(h, content);
    SplitLast([DocumentClass], Uses("usepackage", h.package), Uses("usetikzlibrary", h.tikzLibrary),
      BeginDocument, content, EndDocument);
    JoinLinesLastTwo(pre, content, EndDocument);
  }

  // ---- properties of `render` -----------------------------------------------

  /** A leading byte-order mark makes no difference to the output. */
  lemma RenderIgnoresBom(t: string, d: Dialect)
    requires !StartsWith(t, [Bom])
    ensures RenderText([Bom] + t, d) == RenderText(t, d)
  {
    StripBomRemovesOne(t);
    StripBomKeeps(t);
  }

  /** Without a header block the output declares no package and no library
      and its content is the whole text after the byte-order mark. */
  lemma RenderWithoutBlock(text: string, d: Dialect)
    requires BlockEnd(StripBom(text)).None?
    ensures RenderText(text, d)
         == JoinLines([DocumentClass, BeginDocument, StripBom(text), EndDocument])
  {
    var t := StripBom(text);
    DocumentLines(EmptyHeader, t);
    assert [DocumentClass] + Uses("usepackage", []) + Uses("usetikzlibrary", [])
             + [BeginDocument, t, EndDocument] == [DocumentClass, BeginDocument, t, EndDocument];
  }

  /** The output of `render`, line by line: the packages and libraries of
      the header parsed from the block, and the text after the block. */
  lemma RenderLines(text: string, d: Dialect)
    ensures var t := StripBom(text);
            var h := HeaderFor(t, d);
            RenderText(text, d) == JoinLines([DocumentClass] + Uses("usepackage", h.package)
              + Uses("usetikzlibrary", h.tikzLibrary) + [BeginDocument, Body(t), EndDocument])
  {
    var t := StripBom(text);
    DocumentLines(HeaderFor(t, d), Body(t));
  }
}
