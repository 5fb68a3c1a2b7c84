/**
 * The four regular expressions of the sensors' parsers, each written out as
 * "does the pattern match at position p, and what does its group capture",
 * together with the leftmost-match search that `re.search` performs.
 *
 * Each pattern is deterministic: the greedy runs (`\s+`, `\s*`, `\d+`) are
 * always followed by a character outside their class, so backtracking can
 * never produce a second way to match, and the runs below take the longest
 * run (`Span`). `BtAddressLine`, `BtRssiLine`, `BssLine` and `SignalLine`
 * show that on a line laid out as a pattern describes, the group captures
 * exactly the intended part.
 */
module Patterns {
  import opened Options
  import opened Text

  datatype Pattern =
    | BtAddress   // `Address:\s+([0-9A-F:]{17})`, searched (rf_sentry.py:193)
    | BtRssi      // `RSSI:\s+(-?\d+)\s+dBm`, searched (rf_sentry.py:194)
    | WifiBss     // `^BSS ([0-9A-Fa-f:]{17})`, matched at the start (rf_sentry.py:242)
    | WifiSignal  // `signal:\s*(-?\d+)\.\d+ dBm`, searched (rf_sentry.py:243)

  /** What a pattern's group captures: a hardware address, or the integer `int()` makes of it. */
  datatype Capture = Mac(addr: string) | Dbm(value: int)

  /** A decimal number `-?<whole>.<frac>` as the Wi-Fi scanner prints a signal level. */
  datatype Decimal = Decimal(negative: bool, whole: string, frac: string) {
    predicate WellFormed() {
      |whole| >= 1 && |frac| >= 1 && AllIn(whole, Digit) && AllIn(frac, Digit)
    }

    /** What `int()` of the captured `-?<whole>` gives: the integer part, with its sign. */
    function IntegerPart(): int
      requires WellFormed()
    {
      Signed(negative, DigitsValue(whole))
    }

    /** The absolute value of the decimal number. */
    function Magnitude(): real
      requires WellFormed()
    {
      DigitsValue(whole) as real + DigitsValue(frac) as real / Pow10(|frac|) as real
    }
  }

  /** A hardware address as the patterns capture it: 17 characters of `cls`. */
  predicate IsMac(s: string, cls: Class) {
    |s| == 17 && AllIn(s, cls)
  }

  /** The kind of capture each pattern produces. */
  predicate Fits(pat: Pattern, c: Capture) {
    match pat
    case BtAddress => c.Mac? && IsMac(c.addr, UpperHexOrColon)
    case WifiBss => c.Mac? && IsMac(c.addr, HexOrColon)
    case BtRssi => c.Dbm?
    case WifiSignal => c.Dbm?
  }

  /** `<lit>\s+([0-9A-F...]{17})` or `<lit>([0-9A-F...]{17})` at `p` (a run of 17 `cls` characters). */
  function AddressAfter(line: string, p: nat, lit: string, needSpace: bool, cls: Class): (r: Option<Capture>)
    requires p <= |line|
    ensures r.Some? ==> r.value.Mac? && IsMac(r.value.addr, cls)
  {
    if !LiteralAt(line, p, lit) then None
    else
      var q := p + |lit| + (if needSpace then Span(line, p + |lit|, Whitespace) else 0);
      if (needSpace && q == p + |lit|) || q + 17 > |line| || Span(line, q, cls) < 17 then None
      else
        var a := line[q..q + 17];
        assert forall k :: 0 <= k < 17 ==> a[k] == line[q + k];
        Some(Mac(a))
  }

  /** `-?\d+` at `d0`: the sign, the position where the digits start and the digit count. */
  function SignedDigitsAt(line: string, d0: nat): (r: (bool, nat, nat))
    requires d0 <= |line|
    ensures r.1 <= |line| && r.1 + r.2 <= |line|
    ensures forall k :: r.1 <= k < r.1 + r.2 ==> IsDigit(line[k])
  {
    var negative := d0 < |line| && line[d0] == '-';
    var d := if negative then d0 + 1 else d0;
    (negative, d, Span(line, d, Digit))
  }

  /** `int()` of the `-?\d+` that starts at `d0`. */
  function NumberAt(line: string, d0: nat): int
    requires d0 <= |line|
  {
    var (negative, d, n) := SignedDigitsAt(line, d0);
    var digits := line[d..d + n];
    assert forall k :: 0 <= k < |digits| ==> digits[k] == line[d + k];
    Signed(negative, DigitsValue(digits))
  }

  /** `RSSI:\s+(-?\d+)\s+dBm` at `p`. */
  function RssiAt(line: string, p: nat): (r: Option<Capture>)
    requires p <= |line|
    ensures r.Some? ==> r.value.Dbm?
  {
    if !LiteralAt(line, p, "RSSI:") then None
    else
      var w := Span(line, p + 5, Whitespace);
      if w == 0 then None else RssiNumberAt(line, p + 5 + w)
  }

  /** The `(-?\d+)\s+dBm` that ends the RSSI pattern, at `q`. */
  function RssiNumberAt(line: string, q: nat): (r: Option<Capture>)
    requires q <= |line|
    ensures r.Some? ==> r.value.Dbm?
  {
    var (negative, d, n) := SignedDigitsAt(line, q);
    var w := Span(line, d + n, Whitespace);
    if n == 0 || w == 0 || !LiteralAt(line, d + n + w, "dBm") then None
    else Some(Dbm(NumberAt(line, q)))
  }

  /** The number in `signal:\s*(-?\d+)\.\d+ dBm` at `p`, whole and fractional digits kept apart. */
  function SignalAt(line: string, p: nat): (r: Option<Decimal>)
    requires p <= |line|
    ensures r.Some? ==> r.value.WellFormed()
  {
    if !LiteralAt(line, p, "signal:") then None
    else DecimalAt(line, p + 7 + Span(line, p + 7, Whitespace))
  }

  /** The `(-?\d+)\.\d+ dBm` that ends the signal pattern, at `q`. */
  function DecimalAt(line: string, q: nat): (r: Option<Decimal>)
    requires q <= |line|
    ensures r.Some? ==> r.value.WellFormed()
  {
    var (negative, d, n) := SignedDigitsAt(line, q);
    var e := d + n;
    if n == 0 || e >= |line| || line[e] != '.' then None
    else
      var m := Span(line, e + 1, Digit);
      if m == 0 || !LiteralAt(line, e + 1 + m, " dBm") then None
      else
        var whole, frac := line[d..e], line[e + 1..e + 1 + m];
        assert forall k :: 0 <= k < |whole| ==> whole[k] == line[d + k];
        assert forall k :: 0 <= k < |frac| ==> frac[k] == line[e + 1 + k];
        Some(Decimal(negative, whole, frac))
  }

  /** Whether `pat` matches `line` at position `p`, and what its group captures. */
  function MatchAt(pat: Pattern, line: string, p: nat): (r: Option<Capture>)
    requires p <= |line|
    ensures r.Some? ==> Fits(pat, r.value)
  {
    match pat
    case BtAddress => AddressAfter(line, p, "Address:", true, UpperHexOrColon)
    case WifiBss => AddressAfter(line, p, "BSS ", false, HexOrColon)
    case BtRssi => RssiAt(line, p)
    case WifiSignal =>
      match SignalAt(line, p)
      case None => None
      case Some(dec) => Some(Dbm(dec.IntegerPart()))
  }

  /** The result of trying `pat` at every position of `line`, end of line included. */
  function Attempts(pat: Pattern, line: string): (ms: seq<Option<Capture>>)
    ensures |ms| == |line| + 1
    ensures forall p :: 0 <= p <= |line| ==> ms[p] == MatchAt(pat, line, p)
  {
    seq(|line| + 1, p requires 0 <= p <= |line| => MatchAt(pat, line, p))
  }

  /**
   * The first position at or after `from` whose attempt succeeded, or `|ms|`
   * when none did.
   */
  function FirstSome<T>(ms: seq<Option<T>>, from: nat): (p: nat)
    requires from <= |ms|
    ensures from <= p <= |ms|
    ensures p < |ms| ==> ms[p].Some?
    ensures forall q :: from <= q < p ==> ms[q].None?
    decreases |ms| - from
  {
    if from == |ms| then from
    else if ms[from].Some? then from
    else FirstSome(ms, from + 1)
  }

  /** The leftmost position where `pat` matches `line`, or `|line| + 1` when it matches nowhere. */
  function Leftmost(pat: Pattern, line: string): (p: nat)
    ensures p <= |line| + 1
    ensures p <= |line| ==> MatchAt(pat, line, p).Some?
    ensures forall q :: 0 <= q < p && q <= |line| ==> MatchAt(pat, line, q).None?
  {
    FirstSome(Attempts(pat, line), 0)
  }

  /**
   * `re.search`: the capture at the leftmost position where the pattern
   * matches, or `None` when it matches nowhere in the line.
   */
  function Search(pat: Pattern, line: string): (r: Option<Capture>)
    ensures r.Some? ==> Fits(pat, r.value)
    ensures r.None? <==> forall p :: 0 <= p <= |line| ==> MatchAt(pat, line, p).None?
    ensures r.Some? ==> Leftmost(pat, line) <= |line| && r == MatchAt(pat, line, Leftmost(pat, line))
  {
    var p := Leftmost(pat, line);
    if p <= |line| then MatchAt(pat, line, p) else None
  }

  /*
   * What each pattern makes of a line built the way the pattern describes:
   * the group captures exactly the intended part, so the greedy runs above
   * lose no match that backtracking would have found.
   */

  /** `Address:`, whitespace, then a 17-character upper-case address: the address is captured. */
  lemma BtAddressLine(w: string, a: string, t: string)
    requires |w| >= 1 && AllIn(w, Whitespace) && IsMac(a, UpperHexOrColon)
    ensures MatchAt(BtAddress, "Address:" + w + a + t, 0) == Some(Mac(a))
  {
    var line := "Address:" + w + a + t;
    assert line[..8] == "Address:";
    assert forall k :: 0 <= k < |w| ==> line[8 + k] == w[k];
    assert forall k :: 0 <= k < 17 ==> line[8 + |w| + k] == a[k];
    SpanOf(line, 8, |w|, Whitespace);
    SpanAtLeast(line, 8 + |w|, 17, UpperHexOrColon);
    BtAddressAssemble(line, |w|);
    assert line[8 + |w|..8 + |w| + 17] == a;
  }

  /** The address pattern at 0 captures the 17 characters after `Address:` and its `nw` whitespace characters. */
  lemma BtAddressAssemble(line: string, nw: nat)
    requires LiteralAt(line, 0, "Address:") && nw >= 1 && 8 + nw + 17 <= |line|
    requires Span(line, 8, Whitespace) == nw && Span(line, 8 + nw, UpperHexOrColon) >= 17
    ensures MatchAt(BtAddress, line, 0) == Some(Mac(line[8 + nw..8 + nw + 17]))
  {
  }

  /**
   * `RSSI:` at the start, then `nw` whitespace characters, an optional minus
   * sign, `nd` digits starting at `d`, `nw2` whitespace characters and `dBm`:
   * the integer is captured.
   */
  lemma BtRssiLine(line: string, nw: nat, negative: bool, d: nat, nd: nat, nw2: nat)
    requires LiteralAt(line, 0, "RSSI:") && nw >= 1 && nd >= 1 && nw2 >= 1
    requires d == 5 + nw + (if negative then 1 else 0) && d + nd + nw2 + 3 <= |line|
    requires forall k :: 5 <= k < 5 + nw ==> IsSpace(line[k])
    requires negative ==> line[5 + nw] == '-'
    requires forall k :: d <= k < d + nd ==> IsDigit(line[k])
    requires forall k :: d + nd <= k < d + nd + nw2 ==> IsSpace(line[k])
    requires LiteralAt(line, d + nd + nw2, "dBm")
    ensures AllIn(line[d..d + nd], Digit)
    ensures MatchAt(BtRssi, line, 0) == Some(Dbm(Signed(negative, DigitsValue(line[d..d + nd]))))
  {
    RssiRuns(line, nw, negative, d, nd, nw2);
    RssiAssemble(line, nw, negative, d, nd, nw2);
  }

  /** The runs `BtRssiLine` lays out are exactly the ones the RSSI pattern measures. */
  lemma RssiRuns(line: string, nw: nat, negative: bool, d: nat, nd: nat, nw2: nat)
    requires LiteralAt(line, 0, "RSSI:") && nw >= 1 && nd >= 1 && nw2 >= 1
    requires d == 5 + nw + (if negative then 1 else 0) && d + nd + nw2 + 3 <= |line|
    requires forall k :: 5 <= k < 5 + nw ==> IsSpace(line[k])
    requires negative ==> line[5 + nw] == '-'
    requires forall k :: d <= k < d + nd ==> IsDigit(line[k])
    requires forall k :: d + nd <= k < d + nd + nw2 ==> IsSpace(line[k])
    requires LiteralAt(line, d + nd + nw2, "dBm")
    ensures AllIn(line[d..d + nd], Digit)
    ensures Span(line, 5, Whitespace) == nw && Span(line, d + nd, Whitespace) == nw2
    ensures var r := SignedDigitsAt(line, 5 + nw); r.0 == negative && r.1 == d && r.2 == nd
  {
    assert IsSpace(line[d + nd]) && line[d + nd + nw2] == 'd';
    SignedRun(line, 5 + nw, negative, d, nd);
    SpacesAround(line, 5, nw, d + nd, nw2);
  }

  /** The RSSI pattern at 0 succeeds once the lengths of its runs are known, and captures the number. */
  lemma RssiAssemble(line: string, nw: nat, negative: bool, d: nat, nd: nat, nw2: nat)
    requires LiteralAt(line, 0, "RSSI:") && nw >= 1 && nd >= 1 && nw2 >= 1
    requires 5 + nw <= |line| && Span(line, 5, Whitespace) == nw
    requires var r := SignedDigitsAt(line, 5 + nw); r.0 == negative && r.1 == d && r.2 == nd
    requires Span(line, d + nd, Whitespace) == nw2 && LiteralAt(line, d + nd + nw2, "dBm")
    ensures MatchAt(BtRssi, line, 0) == Some(Dbm(Signed(negative, DigitsValue(line[d..d + nd]))))
  {
    RssiNumber(line, 5 + nw, d, nd, nw2);
    RssiPrefix(line, nw);
    NumberValue(line, 5 + nw, negative, d, nd);
  }

  /** `NumberAt` is the signed value of the digits `SignedDigitsAt` finds. */
  lemma NumberValue(line: string, q: nat, negative: bool, d: nat, nd: nat)
    requires q <= |line|
    requires var r := SignedDigitsAt(line, q); r.0 == negative && r.1 == d && r.2 == nd
    ensures d + nd <= |line| && NumberAt(line, q) == Signed(negative, DigitsValue(line[d..d + nd]))
  {
  }

  /** The RSSI pattern at 0 is `RSSI:`, its whitespace, then the number part. */
  lemma RssiPrefix(line: string, nw: nat)
    requires LiteralAt(line, 0, "RSSI:") && nw >= 1 && Span(line, 5, Whitespace) == nw
    ensures MatchAt(BtRssi, line, 0) == RssiNumberAt(line, 5 + nw)
  {
  }

  /** The number part of the RSSI pattern succeeds when its runs are there. */
  lemma RssiNumber(line: string, q: nat, d: nat, nd: nat, nw2: nat)
    requires q <= |line| && nd >= 1 && nw2 >= 1
    requires var r := SignedDigitsAt(line, q); r.1 == d && r.2 == nd
    requires Span(line, d + nd, Whitespace) == nw2 && LiteralAt(line, d + nd + nw2, "dBm")
    ensures RssiNumberAt(line, q) == Some(Dbm(NumberAt(line, q)))
  {
  }

  /** Two whitespace runs of exactly `n1` and `n2` characters, each followed by a non-whitespace character. */
  lemma SpacesAround(line: string, i1: nat, n1: nat, i2: nat, n2: nat)
    requires i1 + n1 < |line| && i2 + n2 < |line|
    requires forall k :: i1 <= k < i1 + n1 ==> IsSpace(line[k])
    requires forall k :: i2 <= k < i2 + n2 ==> IsSpace(line[k])
    requires !IsSpace(line[i1 + n1]) && !IsSpace(line[i2 + n2])
    ensures Span(line, i1, Whitespace) == n1 && Span(line, i2, Whitespace) == n2
  {
    SpanOf(line, i1, n1, Whitespace);
    SpanOf(line, i2, n2, Whitespace);
  }

  /**
   * `-?\d+` at `q`, with exactly `nd` digits that a non-digit (or the end)
   * follows: the sign and the digits are taken as they stand, and the
   * character at `q` is not whitespace.
   */
  lemma SignedRun(line: string, q: nat, negative: bool, d: nat, nd: nat)
    requires d == q + (if negative then 1 else 0)
    requires nd >= 1 && d + nd <= |line|
    requires negative ==> line[q] == '-'
    requires forall k :: d <= k < d + nd ==> IsDigit(line[k])
    requires d + nd == |line| || !IsDigit(line[d + nd])
    ensures !IsSpace(line[q])
    ensures var r := SignedDigitsAt(line, q); r.0 == negative && r.1 == d && r.2 == nd
    ensures AllIn(line[d..d + nd], Digit)
  {
    assert IsDigit(line[d]);
    SpanOf(line, d, nd, Digit);
    var digits := line[d..d + nd];
    assert forall k :: 0 <= k < |digits| ==> digits[k] == line[d + k];
  }

  /** `BSS `, then a 17-character address of either case: the address is captured. */
  lemma BssLine(a: string, t: string)
    requires IsMac(a, HexOrColon)
    ensures MatchAt(WifiBss, "BSS " + a + t, 0) == Some(Mac(a))
  {
    var line := "BSS " + a + t;
    assert line[..4] == "BSS ";
    assert forall k :: 0 <= k < 17 ==> line[4 + k] == a[k];
    SpanAtLeast(line, 4, 17, HexOrColon);
    assert line[4..4 + 17] == a;
  }

  /**
   * `signal:` at the start, then `nw` whitespace characters (possibly none),
   * an optional minus sign, `nd` digits starting at `d`, a point, `nf` digits
   * and ` dBm`: the level captured is `int()` of the signed whole part.
   */
  lemma SignalLine(line: string, nw: nat, negative: bool, d: nat, nd: nat, nf: nat)
    requires LiteralAt(line, 0, "signal:") && nd >= 1 && nf >= 1
    requires d == 7 + nw + (if negative then 1 else 0) && d + nd + 1 + nf + 4 <= |line|
    requires forall k :: 7 <= k < 7 + nw ==> IsSpace(line[k])
    requires negative ==> line[7 + nw] == '-'
    requires forall k :: d <= k < d + nd ==> IsDigit(line[k])
    requires line[d + nd] == '.'
    requires forall k :: d + nd + 1 <= k < d + nd + 1 + nf ==> IsDigit(line[k])
    requires LiteralAt(line, d + nd + 1 + nf, " dBm")
    ensures AllIn(line[d..d + nd], Digit)
    ensures MatchAt(WifiSignal, line, 0) == Some(Dbm(Signed(negative, DigitsValue(line[d..d + nd]))))
  {
    SignalRuns(line, nw, negative, d, nd, nf);
    SignalAssemble(line, nw, negative, d, nd, nf);
  }

  /** The runs `SignalLine` lays out are exactly the ones the signal pattern measures. */
  lemma SignalRuns(line: string, nw: nat, negative: bool, d: nat, nd: nat, nf: nat)
    requires LiteralAt(line, 0, "signal:") && nd >= 1 && nf >= 1
    requires d == 7 + nw + (if negative then 1 else 0) && d + nd + 1 + nf + 4 <= |line|
    requires forall k :: 7 <= k < 7 + nw ==> IsSpace(line[k])
    requires negative ==> line[7 + nw] == '-'
    requires forall k :: d <= k < d + nd ==> IsDigit(line[k])
    requires line[d + nd] == '.'
    requires forall k :: d + nd + 1 <= k < d + nd + 1 + nf ==> IsDigit(line[k])
    requires LiteralAt(line, d + nd + 1 + nf, " dBm")
    ensures AllIn(line[d..d + nd], Digit)
    ensures Span(line, 7, Whitespace) == nw && Span(line, d + nd + 1, Digit) == nf
    ensures var r := SignedDigitsAt(line, 7 + nw); r.0 == negative && r.1 == d && r.2 == nd
  {
    SignedRun(line, 7 + nw, negative, d, nd);
    SpanOf(line, 7, nw, Whitespace);
    FractionRun(line, d + nd + 1, nf);
  }

  /** Exactly `nf` digits at `e`, then ` dBm`: the digit run is `nf` long. */
  lemma FractionRun(line: string, e: nat, nf: nat)
    requires e + nf + 4 <= |line|
    requires forall k :: e <= k < e + nf ==> IsDigit(line[k])
    requires LiteralAt(line, e + nf, " dBm")
    ensures Span(line, e, Digit) == nf
  {
    assert line[e + nf] == ' ';
    SpanOf(line, e, nf, Digit);
  }

  /** The signal pattern at 0 succeeds once the lengths of its runs are known, and captures the signed whole part. */
  lemma SignalAssemble(line: string, nw: nat, negative: bool, d: nat, nd: nat, nf: nat)
    requires LiteralAt(line, 0, "signal:") && nd >= 1 && nf >= 1
    requires 7 + nw <= |line| && Span(line, 7, Whitespace) == nw
    requires var r := SignedDigitsAt(line, 7 + nw); r.0 == negative && r.1 == d && r.2 == nd
    requires d + nd < |line| && line[d + nd] == '.'
    requires Span(line, d + nd + 1, Digit) == nf && LiteralAt(line, d + nd + 1 + nf, " dBm")
    ensures MatchAt(WifiSignal, line, 0) == Some(Dbm(Signed(negative, DigitsValue(line[d..d + nd]))))
  {
    SignalDecimal(line, 7 + nw, negative, d, nd, nf);
    SignalPrefix(line, nw);
    SignalLevel(line, Decimal(negative, line[d..d + nd], line[d + nd + 1..d + nd + 1 + nf]));
  }

  /** The signal pattern at 0 is `signal:`, its whitespace, then the decimal part. */
  lemma SignalPrefix(line: string, nw: nat)
    requires LiteralAt(line, 0, "signal:") && Span(line, 7, Whitespace) == nw
    ensures SignalAt(line, 0) == DecimalAt(line, 7 + nw)
  {
  }

  /** The decimal part of the signal pattern succeeds when its runs are there, and keeps them. */
  lemma SignalDecimal(line: string, q: nat, negative: bool, d: nat, nd: nat, nf: nat)
    requires q <= |line| && nd >= 1 && nf >= 1
    requires var r := SignedDigitsAt(line, q); r.0 == negative && r.1 == d && r.2 == nd
    requires d + nd < |line| && line[d + nd] == '.'
    requires Span(line, d + nd + 1, Digit) == nf && LiteralAt(line, d + nd + 1 + nf, " dBm")
    ensures DecimalAt(line, q) == Some(Decimal(negative, line[d..d + nd], line[d + nd + 1..d + nd + 1 + nf]))
  {
  }

  /** The level the signal pattern reports is the integer part of the decimal `SignalAt` found. */
  lemma SignalLevel(line: string, dec: Decimal)
    requires SignalAt(line, 0) == Some(dec)
    ensures dec.WellFormed() && MatchAt(WifiSignal, line, 0) == Some(Dbm(dec.IntegerPart()))
  {
  }

  /**
   * The Wi-Fi parser keeps only `int()` of the whole part of the signal level:
   * that is the level truncated toward zero, never more than one dB away from it.
   */
  lemma IntegerPartTruncates(dec: Decimal)
    requires dec.WellFormed()
    ensures !dec.negative ==> dec.IntegerPart() as real <= dec.Magnitude() < dec.IntegerPart() as real + 1.0
    ensures dec.negative ==> dec.IntegerPart() as real - 1.0 < -dec.Magnitude() <= dec.IntegerPart() as real
  {
    FractionBelowOne(DigitsValue(dec.frac), Pow10(|dec.frac|));
  }

  lemma FractionBelowOne(f: nat, scale: nat)
    requires f < scale
    ensures 0.0 <= f as real / scale as real < 1.0
  {
    var x := f as real / scale as real;
    assert x * scale as real == f as real;
  }
}
