/** The optional value used wherever the source holds `None` or a value. */
module Options {
  datatype Option<+T> = None | Some(value: T)
}

/**
 * Character classes and the string operations of Python that the sensors'
 * line parsers rely on: the `\s`, `\d` and bracketed classes of their regular
 * expressions, `int()` of a digit string, `str.upper()`, `str.strip()` and
 * `str.split()`.
 */
module Text {

  /** The character classes that appear in the sensors' regular expressions. */
  datatype Class =
    | Whitespace       // `\s`
    | Digit            // `\d`
    | UpperHexOrColon  // `[0-9A-F:]`
    | HexOrColon       // `[0-9A-Fa-f:]`

  /**
   * Python's `str.isspace()`, which is also the set `\s` matches in a `str`
   * pattern. No whitespace character can start or continue a number, a
   * hardware address or `dBm`, which is what makes the patterns' greedy
   * runs unambiguous.
   */
  predicate IsSpace(c: char): (b: bool)
    ensures b ==> !IsDigit(c) && !('A' <= c <= 'F') && !('a' <= c <= 'f')
    ensures b ==> c != ':' && c != '-' && c != '.' && c != 'd'
  {
    || c == ' '
    || ('\t' <= c <= '\r')
    || ('\U{1C}' <= c <= '\U{1F}')
    || c == '\U{85}' || c == '\U{A0}' || c == '\U{1680}'
    || ('\U{2000}' <= c <= '\U{200A}')
    || c == '\U{2028}' || c == '\U{2029}' || c == '\U{202F}' || c == '\U{205F}' || c == '\U{3000}'
  }

  predicate IsDigit(c: char) {
    '0' <= c <= '9'
  }

  predicate IsLower(c: char) {
    'a' <= c <= 'z'
  }

  predicate In(c: char, cls: Class) {
    match cls
    case Whitespace => IsSpace(c)
    case Digit => IsDigit(c)
    case UpperHexOrColon => IsDigit(c) || ('A' <= c <= 'F') || c == ':'
    case HexOrColon => IsDigit(c) || ('A' <= c <= 'F') || ('a' <= c <= 'f') || c == ':'
  }

  /** Every character of `s` is in `cls`. */
  predicate AllIn(s: string, cls: Class) {
    forall k :: 0 <= k < |s| ==> In(s[k], cls)
  }

  /**
   * The length of the longest run of `cls` characters starting at `i`: what a
   * greedy `cls+` or `cls*` consumes there.
   */
  function Span(s: string, i: nat, cls: Class): (n: nat)
    requires i <= |s|
    ensures i + n <= |s|
    ensures forall k :: i <= k < i + n ==> In(s[k], cls)
    ensures i + n == |s| || !In(s[i + n], cls)
    decreases |s| - i
  {
    if i < |s| && In(s[i], cls) then 1 + Span(s, i + 1, cls) else 0
  }

  /** A run of exactly `n` class characters, followed by the end or by a character outside the class, is what `Span` takes. */
  lemma SpanOf(s: string, i: nat, n: nat, cls: Class)
    requires i + n <= |s|
    requires forall k :: i <= k < i + n ==> In(s[k], cls)
    requires i + n == |s| || !In(s[i + n], cls)
    ensures Span(s, i, cls) == n
    decreases n
  {
    if n > 0 {
      SpanOf(s, i + 1, n - 1, cls);
    }
  }

  /** A run of at least `n` class characters makes `Span` at least `n`. */
  lemma SpanAtLeast(s: string, i: nat, n: nat, cls: Class)
    requires i + n <= |s|
    requires forall k :: i <= k < i + n ==> In(s[k], cls)
    ensures Span(s, i, cls) >= n
    decreases n
  {
    if n > 0 {
      SpanAtLeast(s, i + 1, n - 1, cls);
    }
  }

  /** The length of the longest run of `cls` characters that ends just before `j`. */
  function SpanBack(s: string, j: nat, cls: Class): (n: nat)
    requires j <= |s|
    ensures n <= j
    ensures forall k :: j - n <= k < j ==> In(s[k], cls)
    ensures n == j || !In(s[j - n - 1], cls)
  {
    if j > 0 && In(s[j - 1], cls) then 1 + SpanBack(s, j - 1, cls) else 0
  }

  /** `lit` occurs in `s` at position `i`. */
  predicate LiteralAt(s: string, i: nat, lit: string) {
    i + |lit| <= |s| && s[i..i + |lit|] == lit
  }

  function Pow10(n: nat): (p: nat)
    ensures p >= 1
  {
    if n == 0 then 1 else 10 * Pow10(n - 1)
  }

  /** Python's `int()` of a string of decimal digits (leading zeros allowed). */
  function DigitsValue(ds: string): (v: nat)
    requires AllIn(ds, Digit)
    ensures v < Pow10(|ds|)
    decreases |ds|
  {
    if ds == [] then 0
    else 10 * DigitsValue(ds[..|ds| - 1]) + (ds[|ds| - 1] as int - '0' as int)
  }

  /** The integer an optional minus sign and a magnitude denote. */
  function Signed(negative: bool, magnitude: nat): int {
    if negative then -(magnitude as int) else magnitude
  }

  function UpperChar(c: char): (u: char)
    ensures !IsLower(u)
    ensures !IsLower(c) ==> u == c
    ensures In(c, HexOrColon) ==> In(u, UpperHexOrColon)
  {
    if IsLower(c) then (c as int - 'a' as int + 'A' as int) as char else c
  }

  /** `str.upper()` on the ASCII letters. */
  function Upper(s: string): (r: string)
    ensures |r| == |s|
    ensures forall k :: 0 <= k < |s| ==> r[k] == UpperChar(s[k])
    ensures forall k :: 0 <= k < |r| ==> !IsLower(r[k])
  {
    if s == [] then [] else [UpperChar(s[0])] + Upper(s[1..])
  }

  /** A string without lower-case letters is its own upper case; in particular `Upper` is idempotent. */
  lemma UpperFixes(s: string)
    requires forall k :: 0 <= k < |s| ==> !IsLower(s[k])
    ensures Upper(s) == s
  {
    assert forall k :: 0 <= k < |s| ==> Upper(s)[k] == s[k];
  }

  /**
   * Where `str.strip()` cuts `s`: the kept part is `s[b.0..b.1]`, everything
   * cut away is whitespace, and the kept part neither starts nor ends with it.
   */
  function StripBounds(s: string): (b: (nat, nat))
    ensures b.0 <= b.1 <= |s|
    ensures forall k :: 0 <= k < b.0 ==> IsSpace(s[k])
    ensures forall k :: b.1 <= k < |s| ==> IsSpace(s[k])
    ensures b.0 < b.1 ==> !IsSpace(s[b.0]) && !IsSpace(s[b.1 - 1])
  {
    var i := Span(s, 0, Whitespace);
    if i == |s| then (i, i)
    else
      var j := |s| - SpanBack(s, |s|, Whitespace);
      (i, j)
  }

  /** Python's `str.strip()` with no argument. */
  function Strip(s: string): (r: string)
    ensures |r| <= |s|
    ensures r == [] || (!IsSpace(r[0]) && !IsSpace(r[|r| - 1]))
    ensures s == [] || (!IsSpace(s[0]) && !IsSpace(s[|s| - 1])) ==> r == s
  {
    var b := StripBounds(s);
    s[b.0..b.1]
  }

  /** Glues pieces back together with `sep` between neighbours: Python's `sep.join(pieces)`. */
  function Join(pieces: seq<string>, sep: char): string
    requires |pieces| >= 1
    decreases |pieces|
  {
    if |pieces| == 1 then pieces[0] else pieces[0] + [sep] + Join(pieces[1..], sep)
  }

  /**
   * Python's `s.split(sep)` for a one-character separator: at least one piece,
   * no piece holds the separator, and joining the pieces gives `s` back.
   */
  function Split(s: string, sep: char): (pieces: seq<string>)
    ensures |pieces| >= 1
    ensures forall k :: 0 <= k < |pieces| ==> sep !in pieces[k]
    ensures Join(pieces, sep) == s
    decreases |s|
  {
    if s == [] then [[]]
    else if s[0] == sep then
      var rest := Split(s[1..], sep);
      assert Join([[]] + rest, sep) == [sep] + Join(rest, sep) by {
        assert ([[]] + rest)[1..] == rest;
      }
      assert s == [sep] + s[1..];
      [[]] + rest
    else
      var rest := Split(s[1..], sep);
      var pieces := [[s[0]] + rest[0]] + rest[1..];
      assert Join(pieces, sep) == [s[0]] + Join(rest, sep) by {
        if |rest| > 1 {
          assert pieces[1..] == rest[1..];
        }
      }
      assert s == [s[0]] + s[1..];
      pieces
  }
}
