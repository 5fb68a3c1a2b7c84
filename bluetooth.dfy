/**
 * The read loop of the Bluetooth sensor (`BluetoothMonitor.run`): it pairs
 * each `Address: ...` line of the monitor's output with the next
 * `RSSI: <n> dBm` line and hands the pair to the fusion engine.
 */
module Bluetooth {
  import opened Options
  import opened Text
  import opened Patterns
  import opened Pairing

  /** The address an `Address:` line announces, or nothing. */
  function AddressToken(line: string): (t: seq<Token>)
    ensures |t| <= 1 && (t != [] ==> t[0].Addr? && IsMac(t[0].mac, UpperHexOrColon))
  {
    var addr := Search(BtAddress, line);
    if addr.Some? then [Addr(addr.value.addr)] else []
  }

  /** The signal level an `RSSI: <n> dBm` line carries, or nothing. */
  function RssiToken(line: string): (t: seq<Token>)
    ensures |t| <= 1 && (t != [] ==> t[0].Level?)
  {
    var level := Search(BtRssi, line);
    if level.Some? then [Level(level.value.value)] else []
  }

  /**
   * What the loop makes of one output line: the address pattern is tried
   * first, and an address line is only an address line (the loop
   * `continue`s), even when it also holds an RSSI field.
   */
  function LineToken(line: string): (t: seq<Token>)
    ensures |t| <= 1
    ensures Search(BtAddress, line).Some? ==> t == [Addr(Search(BtAddress, line).value.addr)]
    ensures Search(BtAddress, line).None? && Search(BtRssi, line).Some? ==> t == [Level(Search(BtRssi, line).value.value)]
    ensures t == [] <==> Search(BtAddress, line).None? && Search(BtRssi, line).None?
  {
    if AddressToken(line) != [] then AddressToken(line) else RssiToken(line)
  }

  function Tokens(lines: seq<string>): seq<Token> {
    if lines == [] then [] else LineToken(lines[0]) + Tokens(lines[1..])
  }

  /** Proof plumbing: the tokens from line `i` on are those of line `i`, then the rest. */
  lemma TokensFrom(lines: seq<string>, i: nat)
    requires i < |lines|
    ensures Tokens(lines[i..]) == LineToken(lines[i]) + Tokens(lines[i + 1..])
  {
    assert lines[i..][1..] == lines[i + 1..];
  }

  /** Proof plumbing: before the first line all lines are ahead; after the last none is. */
  lemma TokensEnds(lines: seq<string>)
    ensures Tokens(lines[0..]) == Tokens(lines)
    ensures Tokens(lines[|lines|..]) == []
  {
    assert lines[0..] == lines;
    assert lines[|lines|..] == [];
  }

  /**
   * One pass of the loop body: the address pattern first (an address line
   * replaces the pending address and `continue`s), then the RSSI pattern (with
   * an address pending, one reading and the pending address cleared).
   */
  method ScanLine(line: string, pending: Option<string>, ghost rest: seq<Token>)
    returns (emitted: seq<Reading>, next: Option<string>)
    requires pending.Some? ==> IsMac(pending.value, UpperHexOrColon)
    ensures Pairs(Pending(pending) + LineToken(line) + rest) == emitted + Pairs(Pending(next) + rest)
    ensures next.Some? ==> IsMac(next.value, UpperHexOrColon)
    ensures forall r :: r in emitted ==> IsMac(r.mac, UpperHexOrColon)
  {
    var addr := AddressToken(line);
    if addr != [] {
      next := TakeAddress(pending, addr, rest);
      return [], next;
    }
    emitted, next := TakeLevel(pending, RssiToken(line), rest);
  }

  /**
   * The readings the loop hands to the fusion engine, in order: exactly the
   * address lines whose next address-or-RSSI line is an RSSI line, each with
   * that RSSI value; never more readings than address lines.
   */
  method ParseMonitorOutput(lines: seq<string>) returns (readings: seq<Reading>)
    ensures readings == Pairs(Tokens(lines))
    ensures |readings| <= CountAddr(Tokens(lines))
    ensures forall r :: r in readings ==> IsMac(r.mac, UpperHexOrColon)
  {
    readings := [];
    var pending: Option<string> := None;
    var i := 0;
    TokensEnds(lines);
    Start(Tokens(lines));
    while i < |lines|
      invariant 0 <= i <= |lines|
      invariant readings + Pairs(Pending(pending) + Tokens(lines[i..])) == Pairs(Tokens(lines))
      invariant pending.Some? ==> IsMac(pending.value, UpperHexOrColon)
      invariant forall r :: r in readings ==> IsMac(r.mac, UpperHexOrColon)
    {
      TokensFrom(lines, i);
      var emitted, next := ScanLine(lines[i], pending, Tokens(lines[i + 1..]));
      Advance(readings, pending, LineToken(lines[i]), Tokens(lines[i + 1..]), emitted, next, Pairs(Tokens(lines)));
      readings, pending := readings + emitted, next;
      i := i + 1;
    }
    Finish(readings, pending, Pairs(Tokens(lines)));
    PairsUseTokensOnce(Tokens(lines));
  }
}
