/**
 * The parse loop of the Wi-Fi sensor (`WifiMonitor.run`) over the text of one
 * active scan: a `BSS <mac>` header line sets the current address (upper
 * case), and a later `signal: <n>.<m> dBm` line emits one reading with the
 * integer part of the level and clears the current address.
 */
module Wifi {
  import opened Options
  import opened Text
  import opened Patterns
  import opened Pairing

  /** An address as the Wi-Fi parser hands it on: 17 characters of `[0-9A-F:]`. */
  lemma UpperMac(s: string)
    requires IsMac(s, HexOrColon)
    ensures IsMac(Upper(s), UpperHexOrColon)
  {
    assert forall k :: 0 <= k < 17 ==> Upper(s)[k] == UpperChar(s[k]);
  }

  /** The upper-cased address of a `BSS <mac>` header line (already stripped), or nothing. */
  function HeaderToken(line: string): (t: seq<Token>)
    ensures |t| <= 1 && (t != [] ==> t[0].Addr? && IsMac(t[0].mac, UpperHexOrColon))
  {
    var header := MatchAt(WifiBss, line, 0);
    if header.Some? then UpperMac(header.value.addr); [Addr(Upper(header.value.addr))] else []
  }

  /** The integer part of the level in a `signal: <n>.<m> dBm` field, or nothing. */
  function SignalToken(line: string): (t: seq<Token>)
    ensures |t| <= 1 && (t != [] ==> t[0].Level?)
  {
    var signal := Search(WifiSignal, line);
    if signal.Some? then [Level(signal.value.value)] else []
  }

  /**
   * The level a signal line yields is the integer part of the decimal number
   * printed at the leftmost `signal:` field (see `IntegerPartTruncates`).
   */
  lemma SignalIsIntegerPart(line: string)
    requires SignalToken(line) != []
    ensures var p := Leftmost(WifiSignal, line);
      && p <= |line| && SignalAt(line, p).Some?
      && SignalToken(line)[0].dbm == SignalAt(line, p).value.IntegerPart()
  {
  }

  /**
   * What the loop makes of one line of scan output, after `strip()`: first an
   * upper-cased address when the line is a `BSS` header, then a signal level
   * when the line carries one (one line can be both). The `startswith("BSS")`
   * and `"signal:" in line` guards of the loop are implied by the patterns.
   */
  function LineTokens(raw: string): (t: seq<Token>)
    ensures |t| <= 2
    ensures forall k :: 0 < k < |t| ==> t[k].Level?
    ensures forall k :: 0 <= k < |t| && t[k].Addr? ==> IsMac(t[k].mac, UpperHexOrColon)
    ensures (t != [] && t[0].Addr?) <==> MatchAt(WifiBss, Strip(raw), 0).Some?
    ensures (t != [] && t[|t| - 1].Level?) <==> Search(WifiSignal, Strip(raw)).Some?
  {
    var line := Strip(raw);
    var header, signal := HeaderToken(line), SignalToken(line);
    assert header == [] <==> MatchAt(WifiBss, line, 0).None?;
    assert signal == [] <==> Search(WifiSignal, line).None?;
    header + signal
  }

  function Tokens(lines: seq<string>): seq<Token> {
    if lines == [] then [] else LineTokens(lines[0]) + Tokens(lines[1..])
  }

  /** Proof plumbing: the tokens from line `i` on are those of line `i`, then the rest. */
  lemma TokensFrom(lines: seq<string>, i: nat)
    requires i < |lines|
    ensures Tokens(lines[i..]) == LineTokens(lines[i]) + Tokens(lines[i + 1..])
  {
    assert lines[i..][1..] == lines[i + 1..];
  }

  /** Proof plumbing: before the first line all lines are ahead; after the last none is. */
  lemma TokensEnds(lines: seq<string>)
    ensures Tokens(lines[0..]) == Tokens(lines)
    ensures Tokens(lines[|lines|..]) == []
  {
    assert lines[0..] == lines;
    assert lines[|lines|..] == [];
  }

  /**
   * One pass of the loop body, given what the two patterns found on the
   * stripped line: a `BSS` header sets the current address; then, with an
   * address current, a signal field emits one reading and clears it.
   */
  method ScanLine(header: seq<Token>, level: seq<Token>, current: Option<string>, ghost rest: seq<Token>)
    returns (emitted: seq<Reading>, next: Option<string>)
    requires |header| <= 1 && (header != [] ==> header[0].Addr? && IsMac(header[0].mac, UpperHexOrColon))
    requires |level| <= 1 && (level != [] ==> level[0].Level?)
    requires current.Some? ==> IsMac(current.value, UpperHexOrColon)
    ensures Pairs(Pending(current) + (header + level) + rest) == emitted + Pairs(Pending(next) + rest)
    ensures next.Some? ==> IsMac(next.value, UpperHexOrColon)
    ensures forall r :: r in emitted ==> IsMac(r.mac, UpperHexOrColon)
  {
    Regroup(Pending(current), header, level, rest);
    next := TakeAddress(current, header, level + rest);
    Assoc(Pending(next), level, rest);
    emitted, next := TakeLevel(next, level, rest);
  }

  /**
   * The readings one scan hands to the fusion engine, in order: one per `BSS`
   * header at most, each with an upper-case address and the integer part of
   * the signal level that first follows the header.
   */
  method ParseScanOutput(output: string) returns (readings: seq<Reading>)
    ensures readings == Pairs(Tokens(Split(output, '\n')))
    ensures |readings| <= CountAddr(Tokens(Split(output, '\n')))
    ensures forall r :: r in readings ==> IsMac(r.mac, UpperHexOrColon)
  {
    var lines := Split(output, '\n');
    readings := [];
    var current: Option<string> := None;
    var i := 0;
    TokensEnds(lines);
    Start(Tokens(lines));
    while i < |lines|
      invariant 0 <= i <= |lines|
      invariant readings + Pairs(Pending(current) + Tokens(lines[i..])) == Pairs(Tokens(lines))
      invariant current.Some? ==> IsMac(current.value, UpperHexOrColon)
      invariant forall r :: r in readings ==> IsMac(r.mac, UpperHexOrColon)
    {
      TokensFrom(lines, i);
      var line := Strip(lines[i]);
      var emitted, next := ScanLine(HeaderToken(line), SignalToken(line), current, Tokens(lines[i + 1..]));
      Advance(readings, current, LineTokens(lines[i]), Tokens(lines[i + 1..]), emitted, next, Pairs(Tokens(lines)));
      readings, current := readings + emitted, next;
      i := i + 1;
    }
    Finish(readings, current, Pairs(Tokens(lines)));
    PairsUseTokensOnce(Tokens(lines));
  }
}
