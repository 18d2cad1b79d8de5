# tikzmk header parser and renderer, modelled in Dafny

tikzmk turns a TikZ picture source into a standalone LaTeX document. The
source may start with header comments such as

    %% tikzlibrary: calc, arrows  package:ctex

which name the TikZ libraries and LaTeX packages the picture needs. This
project models the two components that do the text work:

- `src/parse.rs` is the header-comment grammar, written with nom 5
  combinators. It is modelled in `parse.dfy`, module `Parse`. Every token
  parser is a function from the input to `Ok(rest, value)` or `Err`, and the
  rest is proved to be a suffix of the input. `header` repeats `header_line`
  until one fails and then pushes each name onto the right list. It is
  modelled twice: as a loop method (`ParseHeader`, with `ManyHeaderLines`
  for `many0`), and as the function `HeaderOf`, which the method is proved
  to compute.
- `parse_props.dfy` (module `ParseProps`) holds the laws of the token
  parsers on concatenated text, and the order laws of the name lists.
- `parse_text.dfy` (module `ParseText`) holds printers for declarations,
  lines and whole headers. It proves that the parser reads back exactly what
  the printers write.
- `parse_read.dfy` (module `ParseRead`) goes the other way. It reads any
  accepted header line as a printed line, so a line is accepted exactly when
  it is `%%`, spaces, declarations, spaces and a newline. It also proves that
  `header` takes whole lines only: on the lines it took, it returns the same
  header and nothing left.
- `parse_tests.dfy` (module `ParseTests`) states the tests of parse.rs as
  lemmas.
- `src/render.rs` is modelled in `render.dfy` (module `Render`). It covers:
  - removing the byte-order mark;
  - finding the leading header block that the regular expression
    `\A(\s*\n)*(%%( .*)?\n)+` matches;
  - the body that follows the block;
  - filling the document template.

  The regular expression is replaced by a hand-written recognizer,
  `BlockEnd`. It is proved to return the longest prefix that fits a
  declarative description of the match, `IsBlock`. The template is replaced
  by explicit concatenation (`Document`). The shape of the output is proved
  line by line, with `JoinLines`.
- `render_tests.dfy` (module `RenderTests`) states the tests of render.rs as
  lemmas.
- `text.dfy` (module `Text`) holds characters, prefixes, suffixes and the
  `Option` and `Parsed` result types.

The parse.rs grammar requires a space or a tab after `%%`. A line that is
exactly `%%` therefore ends the header. The test at render.rs:61-75 expects
such a line to be skipped. Every parser that depends on this takes a
`Dialect`:
- `AsWritten` is parse.rs as it stands.
- `BareComment` also accepts the line `%%` followed by a newline, and that
  line declares nothing.

The two dialects differ only on that line. Two more points follow the code
as it is written:
- `separated_list` accepts zero elements, so `tikzlibrary:` with no names
  parses to an empty list. Such a declaration must end its line, because
  `colon` has already consumed the spaces that `space1` would need.
- The regular expression accepts blank lines before the comment block,
  which `header_line` cannot parse.
- The reverse also holds: `prefix` accepts a tab after `%%`, but the
  regular expression wants a space or a newline there. A line such as
  `%%` followed by a tab and `package:x` therefore never reaches the parser,
  because the block ends before it (`RenderTests.TabLineNoBlock`).

## Model

| member | source | states |
|---|---|---|
| Parse.Tag | src/parse.rs:3 | `tag(t)` succeeds exactly when the input starts with `t`; it consumes `t` and returns it |
| Parse.Space0 | src/parse.rs:4 | `space0` never fails; it consumes the longest run of spaces and tabs, and what follows starts with neither |
| Parse.Space1 | src/parse.rs:4 | `space1` succeeds exactly when the input starts with a space or tab; it then consumes the whole run |
| Parse.Alpha1 | src/parse.rs:4 | `alpha1` succeeds exactly when the input starts with an ASCII letter; it returns a maximal run of letters |
| Parse.Prefix | src/parse.rs:31-33 | `prefix` succeeds exactly when the input starts with `%%` and a space or tab; it consumes all following spaces and stays on the line |
| Parse.Colon | src/parse.rs:35-37 | `colon` succeeds exactly when the first non-space character is `:`; it consumes the spaces on both sides |
| Parse.Separator | src/parse.rs:39-41 | `separator` succeeds exactly when the input starts with `,`; it consumes the comma and any following spaces |
| Parse.NameList | src/parse.rs:45 | `separated_list(separator, alpha1)` never fails; it is empty exactly when no letter comes first, and then consumes nothing; when it returns at least one name, it never leaves a comma followed by a name |
| Parse.MoreNames | src/parse.rs:45 | the repetition inside `separated_list` never fails, stays on the line, and stops where no further `,` and name follow |
| Parse.KeywordList | src/parse.rs:44-45 | keyword, colon and name list: succeeds exactly when the keyword and a colon are present, and consumes at least one character |
| Parse.Libraries | src/parse.rs:48-50 | each name becomes a `TikzLibrary` item, in order |
| Parse.Packages | src/parse.rs:59-62 | each name becomes a `Package` item, in order |
| Parse.TikzLibraryDecl | src/parse.rs:43-52 | `tikz_library` succeeds exactly when the input starts with `tikzlibrary` and a colon; every item it yields is a library |
| Parse.PackageDecl | src/parse.rs:54-64 | `package` succeeds exactly when the input starts with `package` and a colon; every item it yields is a package |
| Parse.Component | src/parse.rs:67 | `alt((tikz_library, package))` succeeds exactly when one of the two does |
| Parse.DeclList | src/parse.rs:69 | `separated_list(space1, component)` never fails; it is empty exactly when no declaration comes first |
| Parse.MoreDecls | src/parse.rs:69 | the repetition inside that list never fails, stays on the line, and consumes nothing when empty |
| Parse.LineEnd | src/parse.rs:70 | `pair(space0, tag("\n"))` succeeds exactly when the first non-space character is a newline, and ends the line |
| Parse.HeaderLine | src/parse.rs:66-72 | `header_line` consumes at least three characters, and its rest is a suffix of the input |
| Parse.HeaderLineShape | src/parse.rs:66-72 | an accepted line is one whole line ending in a newline; a space or tab follows `%%`, unless the dialect is `BareComment`, the line is bare, and it declares nothing |
| ParseRead.LineRead | src/parse.rs:66-72 | every line `header_line` accepts (other than the bare `%%` line of `BareComment`) is a printed line: `%%`, spaces, well-formed declarations, spaces and a newline, and its items are those declarations' items |
| ParseRead.HeaderLineAccepts | src/parse.rs:66-72 | `header_line` accepts a line exactly when it is such a printed line followed by any text (both directions) |
| ParseRead.LineExtend | src/parse.rs:66-72 | what `header_line` consumed parses the same way whatever text follows it |
| Parse.HeaderLines | src/parse.rs:75 | `many0(header_line)` never fails; it returns no lines exactly when it consumes nothing |
| Parse.HeaderLinesStop | src/parse.rs:75 | `many0` stops exactly at a line `header_line` rejects; everything before it is whole lines |
| Parse.HeaderLinesWhole | src/parse.rs:75 | the consumed prefix is a whole number of lines, each ending in a newline |
| Parse.HeaderLinesUnfold | src/parse.rs:75 | after an accepted line, `many0` continues with the rest of the input |
| Parse.ManyHeaderLines | src/parse.rs:75 | the loop that repeats `header_line` returns what `HeaderLines` specifies |
| Parse.CollectSnoc | src/parse.rs:77-82 | `Collect` over one more item is one more `Push`: the header grows by that item's name in the list of its kind |
| Parse.HeaderOf | src/parse.rs:74-84 | `header` never fails; its rest is a suffix starting at the first rejected line, after whole lines; if the first line is rejected, the result is the empty header and the whole input |
| Parse.ParseHeader | src/parse.rs:74-84 | the `for` loop of `header` that pushes each name computes `HeaderOf` |
| ParseRead.HeaderLinesExtend | src/parse.rs:74-84 | the lines `many0` took, followed by any text whose first line is rejected, give the same lines and stop at that text |
| ParseRead.HeaderOfTaken | src/parse.rs:74-84 | `header` consumes whole lines only: on exactly the text it consumed, it returns the same header and leaves nothing |
| ParseProps.TagCat | src/parse.rs:3 | `tag(t)` on `t` + rest consumes exactly `t` |
| ParseProps.Space0Cat | src/parse.rs:4 | `space0` on spaces + non-space rest returns exactly those spaces |
| ParseProps.Space1Cat | src/parse.rs:4 | `space1` on a non-empty run of spaces + non-space rest returns exactly that run |
| ParseProps.Alpha1Cat | src/parse.rs:4 | `alpha1` on a name + non-letter rest returns exactly the name |
| ParseProps.ColonCat | src/parse.rs:35-37 | `colon` on spaces, `:` and spaces consumes all three |
| ParseProps.SeparatorCat | src/parse.rs:39-41 | `separator` on `,` and spaces consumes both |
| ParseProps.PrefixCat | src/parse.rs:31-33 | `prefix` on `%%` and a non-empty run of spaces consumes both |
| ParseProps.LineEndCat | src/parse.rs:70 | spaces and a newline end the line |
| ParseProps.MoreNamesStop | src/parse.rs:45 | the list stops where no `,` and name follow |
| ParseProps.MoreNamesCons | src/parse.rs:45 | a `,`, spaces and a name add that name at the front of the rest of the list |
| ParseProps.NameListCons | src/parse.rs:45 | a name followed by the rest of the list gives that name first |
| ParseProps.DanglingComma | src/parse.rs:39-45 | a `,` not followed by a name is left in the rest and not consumed |
| ParseProps.MoreNamesNamed | src/parse.rs:45 | every listed name is a non-empty run of ASCII letters |
| ParseProps.NameListNamed | src/parse.rs:45 | every name in the list is a non-empty run of ASCII letters, and no letter follows the list |
| ParseProps.LibraryNamesAppend | src/parse.rs:77-82 | library names of concatenated items are the concatenation, in order |
| ParseProps.PackageNamesAppend | src/parse.rs:77-82 | package names of concatenated items are the concatenation, in order |
| ParseProps.CollectSorts | src/parse.rs:76-82 | `Collect`, the push loop (one `Push` per item), gives exactly the library names in order and the package names in order, duplicates kept |
| ParseProps.CollectCount | src/parse.rs:76-82 | every item lands in exactly one of the two lists |
| ParseProps.CollectAppend | src/parse.rs:76-82 | collecting concatenated items appends each list to the corresponding list |
| ParseProps.Merge | src/parse.rs:76-82 | reference definition of one header followed by another, list by list; its own contract gives only the lengths of the two lists, and `ParseProps.CollectAppend` ties it to the push loop |
| ParseProps.KindsSeparate | src/parse.rs:48-50 | library declarations never touch the package list, and package declarations never touch the library list |
| ParseProps.FlattenAppend | src/parse.rs:77 | `flatten` (`Flatten`, which `AllItems` applies twice to flatten lines and declarations) distributes over concatenation |
| ParseProps.HeaderOfEmpty | src/parse.rs:17-22 | `Header::new()`, modelled as `EmptyHeader` with both lists empty, is what `header` returns on empty input, with the empty rest |
| ParseProps.HeaderOfCons | src/parse.rs:74-84 | the header of text starting with an accepted line is that line's names followed by the header of the rest |
| ParseText.ListEnds | src/parse.rs:45 | a name list ends before text that cannot continue it |
| ParseText.MoreNamesRoundTrip | src/parse.rs:45 | parsing printed `, name` pieces gives back the names and leaves the tail |
| ParseText.NamesRoundTrip | src/parse.rs:45 | parsing a printed name list gives back the names and leaves the tail |
| ParseText.KeywordListCat | src/parse.rs:44-45 | keyword, colon and printed names parse to those names |
| ParseText.LibraryDeclCat | src/parse.rs:43-52 | a `tikzlibrary:` list is read as library items, also through `alt` |
| ParseText.PackageDeclCat | src/parse.rs:54-64 | a `package:` list is read as package items, also through `alt` |
| ParseText.DeclRoundTrip | src/parse.rs:43-64 | a printed declaration, with any spacing, parses back to its items |
| ParseText.NoComponent | src/parse.rs:67 | text starting with neither `t` nor `p` is no declaration |
| ParseText.DeclsRoundTrip | src/parse.rs:69 | a printed sequence of declarations parses back to their items and stops at the trailing spaces |
| ParseText.BlankLineRoundTrip | src/parse.rs:66-72 | `%%`, spaces and a newline is an accepted line with no declarations |
| ParseText.HeaderLineCat | src/parse.rs:66-72 | `%%`, spaces, declarations and a line end make an accepted line, in either dialect |
| ParseText.LineRoundTrip | src/parse.rs:66-72 | a printed header line parses back to its declarations and leaves the following text |
| ParseText.HeaderLinesRoundTrip | src/parse.rs:75 | printed header lines parse back line by line, stopping at the first rejected line |
| ParseText.CollectLines | src/parse.rs:76-82 | the names of printed lines, collected, make the header of those lines |
| ParseText.HeaderRoundTrip | src/parse.rs:74-84 | `header` of printed lines followed by a rejected line returns exactly their header and that rest |
| ParseTests.TikzLibraryTest | src/parse.rs:86-108 | `tikzlibrary: calc, arrows` and `tikzlibrary:calc,arrows` both yield `calc`, `arrows`, with nothing left |
| ParseTests.PackageTest | src/parse.rs:110-126 | `package: tikzcd, ctex` yields `tikzcd`, `ctex`; `package:ctex` yields `ctex`; nothing left |
| ParseTests.HeaderTest | src/parse.rs:128-148 | the two-line header yields libraries `calc`, `decorate`, `arrows` and package `ctex`, in both dialects |
| ParseTests.EmptyListLine | src/parse.rs:43-72 | `%% tikzlibrary:` followed by a newline is an accepted line holding one declaration with no names |
| ParseTests.BareLineStops | src/parse.rs:31-33 | as written, a bare `%%` line is rejected, and the header starting with it is empty |
| ParseTests.BareLineSkipped | src/parse.rs:66-72 | in the `BareComment` dialect, a bare `%%` line is skipped and declares nothing |
| Render.StripBom | src/render.rs:22-28 | the result is a suffix of the text, at most one character shorter, and shorter exactly when the text starts with U+FEFF |
| Render.StripBomRemovesOne | src/render.rs:22-28 | one leading U+FEFF is removed, and only one |
| Render.StripBomKeeps | src/render.rs:22-28 | text not starting with U+FEFF is unchanged |
| Render.BlankEnd | src/render.rs:32 | the blank-line part `(\s*\n)*` is white space ending in a newline, or empty |
| Render.CommentLineEnd | src/render.rs:32 | one `%%( .*)?\n` line is found exactly when the line starts with `%%`, then a space or a newline, with a newline at or after that character; it ends at the first such newline |
| Render.CommentLinesEnd | src/render.rs:32 | the run `(%%( .*)?\n)+` is whole comment lines, and no comment line follows it |
| Render.BlockEnd | src/render.rs:32-33 | the match end, when there is one, delimits a block that fits the regular expression, and no further comment line follows |
| Render.BlankEndOfBlock | src/render.rs:32 | any match has its blank part ending exactly where the recognizer puts it |
| Render.BlockEndLongest | src/render.rs:32-33 | whenever some prefix fits the regular expression, the recognizer finds a match at least that long |
| Render.BlockEndExact | src/render.rs:32-33 | a prefix that fits and is not followed by a whole comment line (`%%`, a space or a newline, and a newline somewhere after) is exactly the match |
| Render.Block | src/render.rs:33-36 | the matched text exists exactly when the match does; it is the non-empty prefix of the text that ends where the match ends |
| Render.HeaderFor | src/render.rs:34-48 | with no match, the header is empty; the parse error branch is unreachable because `HeaderOf` is always `Ok` |
| Render.Body | src/render.rs:50-53 | the body is the suffix of the text that starts where the match ends, and equals the whole text exactly when there is no match |
| Render.Taken | src/render.rs:36-46 | the lines of the block that `header` took exist exactly when the block does, and are followed in the block by the rest `header` left |
| Render.TakenHeader | src/render.rs:36-46 | the lines `header` took hold the whole header: parsed on their own, they give that header and leave nothing |
| Render.BlockThenBody | src/render.rs:42-53 | the block and the body make up the text; the block is the taken lines followed by the lines `header` left, which are in neither the header (the taken lines alone give the header) nor the body; the warning `Incomplete` (render.rs:43-45) fires exactly when such lines remain |
| Render.Uses | src/render.rs:15-16 | one `\command{name}` line per name, in order |
| Render.DocumentLines | src/render.rs:14-20 | the filled template, `Document`, is the document class, the package lines, the library lines, `\begin{document}`, the content and `\end{document}`, each followed by a newline |
| Render.JoinLinesAppend | src/render.rs:14-20 | joining lines distributes over concatenation |
| Render.ContentVerbatim | src/render.rs:18 | the content is inserted verbatim, as one contiguous piece between the preamble and the closing |
| Render.RenderIgnoresBom | src/render.rs:22-31 | rendering text with a leading U+FEFF equals rendering the text without it, when that rest does not itself start with U+FEFF |
| Render.RenderWithoutBlock | src/render.rs:48-53 | with no header block, the output has no `\usepackage` or `\usetikzlibrary` lines and the whole text is the content |
| Render.RenderLines | src/render.rs:30-59 | `render`, modelled as `RenderText`, is total; its output is the document class, the package lines, the library lines, then the body between `\begin{document}` and `\end{document}` |
| RenderTests.OneLineBlock | src/render.rs:32 | one comment line not followed by `%` is exactly the block; the rest is the body |
| RenderTests.TwoLineBlock | src/render.rs:32 | two comment lines not followed by `%` are exactly the block; the rest is the body |
| RenderTests.NoBlock | src/render.rs:32 | text starting with neither white space nor `%` has no block |
| RenderTests.TabLineNoBlock | src/render.rs:32 | a text starting with `%%` and a tab passes `prefix` (parse.rs:31-33) yet has no block, so it never reaches the parser |
| RenderTests.RenderArrowTest | src/render.rs:90-99 | `\abc[<->]` renders to the class line, `\begin{document}`, `\abc[<->]` and `\end{document}` |
| RenderTests.RenderBomTest | src/render.rs:77-88 | the BOM-prefixed `tikzlibrary:calc` text renders with one `\usetikzlibrary{calc}` line and body `\abc{de}` |
| RenderTests.TestRenderBlock | src/render.rs:61-65 | in the test input, the bare line and the declaration line form the block, and `\abc{de}` is the body |
| RenderTests.RenderTestBareComment | src/render.rs:61-75 | in the `BareComment` dialect, the test input renders exactly to the expected output |
| RenderTests.RenderTestAsWrittenHeader | src/render.rs:61-75 | as written, the test input gives an empty header and triggers the incomplete-header warning |
| RenderTests.RenderTestAsWritten | src/render.rs:61-75 | as written, the test input renders without any `\usepackage` or `\usetikzlibrary` line |
| RenderTests.RenderTestAsWrittenFails | src/render.rs:61-75 | as written, the output differs from the expected output of `test_render` |

## Left out

- src/main.rs: command-line parsing, file reading, temporary directories, running TeX and opening a viewer. It is all I/O and is not part of this model.
- src/parse_pest.rs: its grammar file `header.pest` is not part of this model. Its folding loop repeats parse.rs:76-82.
- The `error!` and `warn!` logging at render.rs:38 and render.rs:44 is not modelled. The condition of the warning is the predicate `Render.Incomplete`.
- The `Serialize` derivation that render.rs:8-12 needs, and the TinyTemplate registration at render.rs:55-56, are not modelled. They are library setup, not logic.
- The regex engine is not modelled; its match is stated directly. `\s` is Unicode white space (`Text.IsWhite`). `.` is any character other than a newline.
- TinyTemplate's default HTML escaping of `{pkg}` and `{lib}` is not modelled. Names are runs of ASCII letters, so escaping leaves them unchanged.
- Text is a sequence of characters, and the byte-order mark is one character. The byte offsets of `&text[3..]` and `mat.end()` are not modelled.
- nom's `separated_list` and `many0` return an error when an element parser succeeds without consuming anything. No element parser here can succeed without consuming input, so those branches are left out.
- Parse.HeaderLine: its own contract states only that the rest is a suffix at least three characters shorter. The shape of an accepted line is in `Parse.HeaderLineShape`. The exact acceptance condition, in both directions, is `ParseRead.HeaderLineAccepts`, with `ParseText.HeaderLineCat` for "if" and `ParseRead.LineRead` for "only if".
- RenderTests.RenderArrowTest, RenderTests.RenderBomTest and RenderTests.RenderTestBareComment: the expected outputs are stated with `JoinLines` over their lines, not as one string literal. `JoinLines` puts a newline after every line, which is how the raw strings of render.rs:66-99 read.

## Findings

| source | as written | input that shows it | evidently intended | confidence | as-written member | corrected member |
|---|---|---|---|---|---|---|
| src/parse.rs:31-33 with src/render.rs:61-75 | `prefix` needs a space or tab after `%%`, so a bare `%%` line ends the header; `test_render` then gets an empty header | `%%\n%% tikzlibrary:l package:p,q\n\abc{de}` | the bare `%%` line is skipped, and the header has package `p`, `q` and library `l`, as `test_render` and the pest grammar's test expect | not executed | ParseTests.BareLineStops, RenderTests.RenderTestAsWrittenFails | ParseTests.BareLineSkipped, RenderTests.RenderTestBareComment |
