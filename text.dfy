/** Character classes, prefix/suffix relations and the result type shared by
    the header parser and the renderer. Text is a sequence of Unicode scalar
    values (`string` is `seq<char>`). */
module Text {

  datatype Option<T> = None | Some(value: T)

  /** The outcome of one parser on `&str` input with nom's complete parsers:
      either the unconsumed input and the value produced, or a recoverable
      error (`nom::Err::Error`). The parsers modelled here never produce
      `Failure` or `Incomplete`. */
  datatype Parsed<T> = Ok(rest: string, value: T) | Err

  /** nom's `alpha1` on `&str` accepts ASCII letters only. */
  predicate IsAlpha(c: char) {
    'a' <= c <= 'z' || 'A' <= c <= 'Z'
  }

  /** nom's `space0` / `space1`: a space or a horizontal tab. */
  predicate IsSpace(c: char) {
    c == ' ' || c == '\t'
  }

  /** The regex class `\s`: the Unicode White_Space property. */
  predicate IsWhite(c: char) {
    ('\t' <= c <= '\r') || c == ' ' || c == '\U{0085}' || c == '\U{00A0}'
    || c == '\U{1680}' || ('\U{2000}' <= c <= '\U{200A}')
    || c == '\U{2028}' || c == '\U{2029}' || c == '\U{202F}' || c == '\U{205F}'
    || c == '\U{3000}'
  }

  predicate NotNewline(c: char) {
    c != '\n'
  }

  predicate StartsWith(s: string, p: string) {
    |p| <= |s| && s[..|p|] == p
  }

  predicate IsSuffix(r: string, s: string) {
    |r| <= |s| && s[|s| - |r|..] == r
  }

  predicate All(s: string, p: char -> bool) {
    forall i :: 0 <= i < |s| ==> p(s[i])
  }

  /** Length of the longest prefix of `s` whose characters all satisfy `p`:
      the run that nom's `take_while` and the regex `p*` consume. */
  function TakeWhileLen(s: string, p: char -> bool): (n: nat)
    ensures n <= |s|
    ensures All(s[..n], p)
    ensures n == |s| || !p(s[n])
  {
    if s == [] || !p(s[0]) then 0
    else
      var m := TakeWhileLen(s[1..], p);
      assert s[..1 + m] == [s[0]] + s[1..][..m];
      1 + m
  }

  /** The run of `p`-characters is determined by the characters alone: any
      prefix made of them that is followed by a non-`p` character (or the end)
      is that run. */
  lemma {:induction false} TakeWhileLenUnique(s: string, p: char -> bool, k: nat)
    requires k <= |s| && All(s[..k], p) && (k == |s| || !p(s[k]))
    ensures TakeWhileLen(s, p) == k
  {
    if k > 0 {
      assert p(s[..k][0]);
      assert s[1..][..k - 1] == s[..k][1..];
      TakeWhileLenUnique(s[1..], p, k - 1);
    }
  }

  lemma TakeWhileLenAppend(a: string, b: string, p: char -> bool)
    requires All(a, p) && (b == [] || !p(b[0]))
    ensures TakeWhileLen(a + b, p) == |a|
  {
    assert (a + b)[..|a|] == a;
    TakeWhileLenUnique(a + b, p, |a|);
  }

  /** A text that starts with `p` is `p` followed by the rest. */
  lemma PrefixJoin(s: string, p: string)
    requires StartsWith(s, p)
    ensures s == p + s[|p|..]
  {
    assert s == s[..|p|] + s[|p|..];
  }

  /** Concatenation is associative: the grouping of pieces can be chosen
      so that a long literal is compared a short piece at a time. */
  lemma Regroup<T>(a: seq<T>, b: seq<T>, c: seq<T>)
    ensures (a + b) + c == a + (b + c)
  {
  }
}
