/** Properties of the header-comment grammar of `src/parse.rs`: what each
    parser does on text built from the pieces it is meant to recognise, where
    the name lists stop, and how `header` orders what it collects. */
module ParseProps {
  import opened Text
  import opened Parse

  // ---- primitives on text built from their pieces -------------------------

  lemma TagCat(t: string, rest: string)
    ensures Tag(t + rest, t) == Ok(rest, t)
  {
    assert (t + rest)[..|t|] == t;
    assert (t + rest)[|t|..] == rest;
  }

  /** `space0` consumes exactly the spaces in front of a non-space. */
  lemma Space0Cat(sp: string, rest: string)
    requires All(sp, IsSpace) && (rest == [] || !IsSpace(rest[0]))
    ensures Space0(sp + rest) == Ok(rest, sp)
  {
    TakeWhileLenAppend(sp, rest, IsSpace);
    assert (sp + rest)[..|sp|] == sp;
    assert (sp + rest)[|sp|..] == rest;
  }

  lemma Space1Cat(sp: string, rest: string)
    requires sp != [] && All(sp, IsSpace) && (rest == [] || !IsSpace(rest[0]))
    ensures Space1(sp + rest) == Ok(rest, sp)
  {
    TakeWhileLenAppend(sp, rest, IsSpace);
    assert (sp + rest)[..|sp|] == sp;
    assert (sp + rest)[|sp|..] == rest;
  }

  /** `alpha1` takes a whole name and stops at the first non-letter. */
  lemma Alpha1Cat(name: string, rest: string)
    requires IsName(name) && (rest == [] || !IsAlpha(rest[0]))
    ensures Alpha1(name + rest) == Ok(rest, name)
  {
    assert All(name, IsAlpha);
    TakeWhileLenAppend(name, rest, IsAlpha);
    assert (name + rest)[..|name|] == name;
    assert (name + rest)[|name|..] == rest;
  }

  // ---- token parsers --------------------------------------------------------

  /** `colon` consumes optional spaces, the colon and optional spaces. */
  lemma ColonCat(a: string, b: string, rest: string)
    requires All(a, IsSpace) && All(b, IsSpace) && (rest == [] || !IsSpace(rest[0]))
    ensures Colon(a + (":" + (b + rest))).Ok? && Colon(a + (":" + (b + rest))).rest == rest
  {
    var s := a + (":" + (b + rest));
    Space0Cat(a, ":" + (b + rest));
    TagCat(":", b + rest);
    Space0Cat(b, rest);
  }

  /** `separator` consumes the comma and the spaces after it. */
  lemma SeparatorCat(g: string, rest: string)
    requires All(g, IsSpace) && (rest == [] || !IsSpace(rest[0]))
    ensures Separator("," + (g + rest)).Ok?
    ensures Separator("," + (g + rest)).rest == rest
  {
    TagCat(",", g + rest);
    Space0Cat(g, rest);
  }

  /** `prefix` consumes `%%` and the spaces after it. */
  lemma PrefixCat(g: string, rest: string)
    requires g != [] && All(g, IsSpace) && (rest == [] || !IsSpace(rest[0]))
    ensures Prefix("%%" + (g + rest)).Ok?
    ensures Prefix("%%" + (g + rest)).rest == rest
  {
    TagCat("%%", g + rest);
    Space1Cat(g, rest);
  }

  /** The end of a header line: optional spaces and the newline. */
  lemma LineEndCat(sp: string, rest: string)
    requires All(sp, IsSpace)
    ensures LineEnd(sp + ("\n" + rest)).Ok?
    ensures LineEnd(sp + ("\n" + rest)).rest == rest
  {
    Space0Cat(sp, "\n" + rest);
    TagCat("\n", rest);
  }

  // ---- name lists -----------------------------------------------------------

  /** The list loop takes no step where no separator-and-name follows; in
      particular a `,` with no name after it is left in the rest. */
  lemma MoreNamesStop(s: string)
    requires !ListContinues(s)
    ensures MoreNames(s) == Ok(s, [])
  {
  }

  /** One round of the list loop: a separator, then a whole name. */
  lemma MoreNamesCons(g: string, name: string, tail: string)
    requires All(g, IsSpace) && IsName(name) && (tail == [] || !IsAlpha(tail[0]))
    ensures MoreNames("," + (g + (name + tail)))
         == Ok(MoreNames(tail).rest, [name] + MoreNames(tail).value)
  {
    SeparatorCat(g, name + tail);
    Alpha1Cat(name, tail);
  }

  lemma NameListCons(name: string, tail: string)
    requires IsName(name) && (tail == [] || !IsAlpha(tail[0]))
    ensures NameList(name + tail) == Ok(MoreNames(tail).rest, [name] + MoreNames(tail).value)
  {
    Alpha1Cat(name, tail);
  }

  /** A dangling comma: after a name, a `,` (and spaces) not followed by
      another name ends the list and stays in the rest. */
  lemma DanglingComma(name: string, g: string, t: string)
    requires IsName(name) && All(g, IsSpace)
    requires t == [] || (!IsSpace(t[0]) && !IsAlpha(t[0]))
    ensures NameList(name + ("," + (g + t))) == Ok("," + (g + t), [name])
  {
    var x := "," + (g + t);
    SeparatorCat(g, t);
    assert Separator(x).rest == t;
    assert !ListContinues(x);
    MoreNamesStop(x);
    NameListCons(name, x);
    assert [name] + [] == [name];
  }

  lemma NamesCons(n: string, ns: seq<string>)
    requires IsName(n) && NamesOk(ns)
    ensures NamesOk([n] + ns)
  {
    forall i | 0 <= i < |[n] + ns| ensures IsName(([n] + ns)[i]) {
      if i > 0 { assert ([n] + ns)[i] == ns[i - 1]; }
    }
  }

  /** Every name the list loop yields is a non-empty run of letters, and
      the loop stops in front of a non-letter. */
  lemma {:induction false} MoreNamesNamed(s: string)
    ensures NamesOk(MoreNames(s).value)
    ensures (s == [] || !IsAlpha(s[0])) ==>
              MoreNames(s).rest == [] || !IsAlpha(MoreNames(s).rest[0])
    decreases |s|
  {
    var sep := Separator(s);
    if sep.Ok? {
      var name := Alpha1(sep.rest);
      if name.Ok? {
        var more := MoreNames(name.rest);
        assert MoreNames(s) == Ok(more.rest, [name.value] + more.value);
        MoreNamesNamed(name.rest);
        NamesCons(name.value, more.value);
        return;
      }
    }
    assert MoreNames(s) == Ok(s, []);
  }

  /** The names of a list are runs of letters, each one maximal: the list
      ends where no letter follows. */
  lemma NameListNamed(s: string)
    ensures NamesOk(NameList(s).value)
    ensures NameList(s).rest == [] || !IsAlpha(NameList(s).rest[0])
  {
    var name := Alpha1(s);
    if name.Ok? {
      var more := MoreNames(name.rest);
      assert NameList(s) == Ok(more.rest, [name.value] + more.value);
      MoreNamesNamed(name.rest);
      NamesCons(name.value, more.value);
    } else {
      assert NameList(s) == Ok(s, []);
    }
  }

  // ---- collecting the items (parse.rs:76-82) --------------------------------

  /** Two headers' lists, each placed after the other's. */
  function Merge(h1: Header, h2: Header): (h: Header)
    ensures |h.tikzLibrary| == |h1.tikzLibrary| + |h2.tikzLibrary|
    ensures |h.package| == |h1.package| + |h2.package|
  {
    Header(h1.tikzLibrary + h2.tikzLibrary, h1.package + h2.package)
  }

  /** The library names among `items`, in order: a reference definition of
      the first list, independent of the push loop. */
  function LibraryNames(items: seq<Item>): seq<string> {
    if items == [] then []
    else if items[0].TikzLibrary? then [items[0].name] + LibraryNames(items[1..])
    else LibraryNames(items[1..])
  }

  /** The package names among `items`, in order. */
  function PackageNames(items: seq<Item>): seq<string> {
    if items == [] then []
    else if items[0].Package? then [items[0].name] + PackageNames(items[1..])
    else PackageNames(items[1..])
  }

  lemma TailOfAppend<T>(a: seq<T>, b: seq<T>)
    requires a != []
    ensures (a + b)[1..] == a[1..] + b
  {
  }

  lemma EmptyAppend<T>(a: seq<T>, b: seq<T>)
    requires a == []
    ensures a + b == b
  {
  }

  lemma {:induction false} LibraryNamesAppend(a: seq<Item>, b: seq<Item>)
    ensures LibraryNames(a + b) == LibraryNames(a) + LibraryNames(b)
    decreases |a|
  {
    if a != [] {
      TailOfAppend(a, b);
      LibraryNamesAppend(a[1..], b);
    } else {
      EmptyAppend(a, b);
    }
  }

  lemma {:induction false} PackageNamesAppend(a: seq<Item>, b: seq<Item>)
    ensures PackageNames(a + b) == PackageNames(a) + PackageNames(b)
    decreases |a|
  {
    if a != [] {
      TailOfAppend(a, b);
      PackageNamesAppend(a[1..], b);
    } else {
      EmptyAppend(a, b);
    }
  }

  /** The push loop sorts the items by kind and keeps the order within each
      kind: the two lists are exactly the library names and the package
      names of `items`, duplicates included. */
  lemma {:induction false} CollectSorts(items: seq<Item>)
    ensures Collect(items) == Header(LibraryNames(items), PackageNames(items))
    decreases |items|
  {
    if items != [] {
      var init, last := items[..|items| - 1], items[|items| - 1];
      assert items == init + [last];
      CollectSorts(init);
      LibraryNamesAppend(init, [last]);
      PackageNamesAppend(init, [last]);
    }
  }

  /** Nothing is dropped or invented: every item lands in exactly one list. */
  lemma {:induction false} CollectCount(items: seq<Item>)
    ensures |Collect(items).tikzLibrary| + |Collect(items).package| == |items|
    decreases |items|
  {
    if items != [] {
      CollectCount(items[..|items| - 1]);
    }
  }

  /** Collecting the concatenation of two item sequences appends the lists
      collected from the second to those collected from the first. */
  lemma CollectAppend(a: seq<Item>, b: seq<Item>)
    ensures Collect(a + b) == Merge(Collect(a), Collect(b))
  {
    CollectSorts(a + b);
    CollectSorts(a);
    CollectSorts(b);
    LibraryNamesAppend(a, b);
    PackageNamesAppend(a, b);
  }

  /** Declarations of one kind never change the other list. */
  lemma {:induction false} KindsSeparate(names: seq<string>)
    ensures LibraryNames(Libraries(names)) == names && PackageNames(Libraries(names)) == []
    ensures LibraryNames(Packages(names)) == [] && PackageNames(Packages(names)) == names
    decreases |names|
  {
    if names != [] {
      assert Libraries(names)[1..] == Libraries(names[1..]);
      assert Packages(names)[1..] == Packages(names[1..]);
      KindsSeparate(names[1..]);
      assert names == [names[0]] + names[1..];
    }
  }

  lemma {:induction false} FlattenAppend<T>(a: seq<seq<T>>, b: seq<seq<T>>)
    ensures Flatten(a + b) == Flatten(a) + Flatten(b)
    decreases |a|
  {
    if a != [] {
      TailOfAppend(a, b);
      FlattenAppend(a[1..], b);
    } else {
      EmptyAppend(a, b);
    }
  }

  // ---- header (parse.rs:74-84) --------------------------------------------

  /** The empty input yields the empty header. */
  lemma HeaderOfEmpty(d: Dialect)
    ensures HeaderOf([], d) == Ok([], EmptyHeader)
  {
  }

  /** When the first line parses, the header holds that line's names
      followed by those of the lines after it, and parsing stops where it
      stops for those lines. */
  lemma HeaderOfCons(s: string, d: Dialect)
    requires HeaderLine(s, d).Ok?
    ensures HeaderOf(s, d).rest == HeaderOf(HeaderLine(s, d).rest, d).rest
    ensures HeaderOf(s, d).value
         == Merge(Collect(Flatten(HeaderLine(s, d).value)), HeaderOf(HeaderLine(s, d).rest, d).value)
  {
    var line := HeaderLine(s, d);
    var more := HeaderLines(line.rest, d);
    HeaderLinesUnfold(s, d);
    assert HeaderLines(s, d).value == [line.value] + more.value;
    FlattenAppend([line.value], more.value);
    assert Flatten([line.value]) == line.value by {
      assert [line.value][1..] == [];
      assert line.value + [] == line.value;
    }
    FlattenAppend(line.value, Flatten(more.value));
    CollectAppend(Flatten(line.value), AllItems(more.value));
  }
}
