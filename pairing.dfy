/**
 * Both sensor parsers step a "pending address" through their output: an
 * address line sets it, a signal-level line with an address pending emits one
 * reading and clears it, a signal-level line with nothing pending is ignored.
 * Reduced to the lines that matter, that loop emits exactly the adjacent
 * (address, level) pairs of the token stream; `Pairs` is that reference
 * definition and the parsers are proved against it.
 */
module Pairing {
  import opened Options

  /** What a line of sensor output contributes: an address announcement or a signal level. */
  datatype Token = Addr(mac: string) | Level(dbm: int)

  /** One (address, signal strength) reading handed to the fusion engine. */
  datatype Reading = Reading(mac: string, rssi: int)

  /** The readings of a token stream: each address immediately followed by a level, in order. */
  function Pairs(ts: seq<Token>): seq<Reading>
    decreases |ts|
  {
    if |ts| < 2 then []
    else if ts[0].Addr? && ts[1].Level? then [Reading(ts[0].mac, ts[1].dbm)] + Pairs(ts[2..])
    else Pairs(ts[1..])
  }

  /** The pending address of the parsers' loop, written as the token that set it. */
  function Pending(p: Option<string>): seq<Token> {
    if p.Some? then [Addr(p.value)] else []
  }

  function CountAddr(ts: seq<Token>): nat {
    if ts == [] then 0 else (if ts[0].Addr? then 1 else 0) + CountAddr(ts[1..])
  }

  function CountLevel(ts: seq<Token>): nat {
    if ts == [] then 0 else (if ts[0].Level? then 1 else 0) + CountLevel(ts[1..])
  }

  /** An address line replaces whatever address was pending. */
  lemma AddrReplacesPending(p: Option<string>, a: string, rest: seq<Token>)
    ensures Pairs(Pending(p) + [Addr(a)] + rest) == Pairs(Pending(Some(a)) + rest)
  {
    var ts := Pending(p) + [Addr(a)] + rest;
    if p.Some? {
      assert ts[1..] == [Addr(a)] + rest;
    } else {
      assert ts == [Addr(a)] + rest;
    }
  }

  /**
   * A level line emits one reading with the pending address and clears it, or
   * emits nothing when no address is pending.
   */
  lemma LevelConsumesPending(p: Option<string>, v: int, rest: seq<Token>)
    ensures Pairs(Pending(p) + [Level(v)] + rest)
         == (if p.Some? then [Reading(p.value, v)] else []) + Pairs(rest)
  {
    var ts := Pending(p) + [Level(v)] + rest;
    if p.Some? {
      assert ts[2..] == rest;
    } else if rest != [] {
      assert ts[1..] == rest;
    }
  }

  /** The address step of both parsers: an address found on the line becomes the pending one. */
  method TakeAddress(pending: Option<string>, found: seq<Token>, ghost rest: seq<Token>) returns (next: Option<string>)
    requires |found| <= 1 && (found != [] ==> found[0].Addr?)
    ensures next == if found != [] then Some(found[0].mac) else pending
    ensures Pairs(Pending(pending) + found + rest) == Pairs(Pending(next) + rest)
  {
    if found == [] {
      NoTokens(Pending(pending));
      return pending;
    }
    assert found == [Addr(found[0].mac)];
    AddrReplacesPending(pending, found[0].mac, rest);
    next := Some(found[0].mac);
  }

  /**
   * The level step of both parsers: a level found on the line emits one
   * reading with the pending address and clears it; with no address pending
   * it is dropped.
   */
  method TakeLevel(pending: Option<string>, found: seq<Token>, ghost rest: seq<Token>)
    returns (emitted: seq<Reading>, next: Option<string>)
    requires |found| <= 1 && (found != [] ==> found[0].Level?)
    ensures found == [] ==> emitted == [] && next == pending
    ensures found != [] ==>
      next == None && emitted == (if pending.Some? then [Reading(pending.value, found[0].dbm)] else [])
    ensures Pairs(Pending(pending) + found + rest) == emitted + Pairs(Pending(next) + rest)
  {
    if found == [] {
      NoTokens(Pending(pending));
      return [], pending;
    }
    assert found == [Level(found[0].dbm)];
    LevelConsumesPending(pending, found[0].dbm, rest);
    NoTokens(rest);
    emitted := if pending.Some? then [Reading(pending.value, found[0].dbm)] else [];
    next := None;
  }

  /*
   * Proof plumbing: the sequence identities below (and `Start`, `Finish`,
   * `Advance`) model nothing of the source; they carry the parsers' loop
   * invariant across a line in small steps the solver handles cheaply.
   */

  /** Regrouping the tokens of a line that holds two parts. */
  lemma Regroup(p: seq<Token>, a: seq<Token>, b: seq<Token>, rest: seq<Token>)
    ensures p + (a + b) + rest == p + a + (b + rest)
  {
  }

  lemma Assoc(a: seq<Token>, b: seq<Token>, c: seq<Token>)
    ensures a + (b + c) == a + b + c
  {
  }

  lemma NoTokens(a: seq<Token>)
    ensures a + [] == a && [] + a == a
  {
  }

  /** The parsers' loop invariant holds before the first line: nothing read, nothing pending. */
  lemma Start(ts: seq<Token>)
    ensures [] + Pairs(Pending(None) + ts) == Pairs(ts)
  {
    assert Pending(None) + ts == ts;
  }

  /** After the last line the readings are all there are: a pending address alone yields nothing. */
  lemma Finish(readings: seq<Reading>, pending: Option<string>, target: seq<Reading>)
    requires readings + Pairs(Pending(pending) + []) == target
    ensures readings == target
  {
    assert Pending(pending) + [] == Pending(pending);
    assert readings + [] == readings;
  }

  /**
   * Carries the parsers' loop invariant over one line: `here` are the line's
   * tokens, `rest` those of the lines after it, and the line's step emitted
   * `emitted` and left `next` pending.
   */
  lemma Advance(readings: seq<Reading>, pending: Option<string>, here: seq<Token>, rest: seq<Token>,
                emitted: seq<Reading>, next: Option<string>, target: seq<Reading>)
    requires readings + Pairs(Pending(pending) + (here + rest)) == target
    requires Pairs(Pending(pending) + here + rest) == emitted + Pairs(Pending(next) + rest)
    ensures (readings + emitted) + Pairs(Pending(next) + rest) == target
  {
    Assoc(Pending(pending), here, rest);
  }

  /**
   * A reading is emitted exactly when its address token is immediately followed
   * by its level token: the address is the most recent one, no other address
   * came between, and a level with no address right before it yields nothing.
   */
  lemma {:induction false} PairsAreAdjacent(ts: seq<Token>, r: Reading)
    ensures r in Pairs(ts) <==>
      exists i :: 0 <= i < |ts| - 1 && ts[i] == Addr(r.mac) && ts[i + 1] == Level(r.rssi)
    decreases |ts|
  {
    if |ts| >= 2 {
      var skip := if ts[0].Addr? && ts[1].Level? then 2 else 1;
      var rest := ts[skip..];
      PairsAreAdjacent(rest, r);
      if r in Pairs(ts) {
        if skip == 2 && r == Reading(ts[0].mac, ts[1].dbm) {
          assert ts[0] == Addr(r.mac) && ts[1] == Level(r.rssi);
        } else {
          var j :| 0 <= j < |rest| - 1 && rest[j] == Addr(r.mac) && rest[j + 1] == Level(r.rssi);
          assert ts[j + skip] == Addr(r.mac) && ts[j + skip + 1] == Level(r.rssi);
        }
      }
      if i :| 0 <= i < |ts| - 1 && ts[i] == Addr(r.mac) && ts[i + 1] == Level(r.rssi) {
        if i >= skip {
          assert rest[i - skip] == Addr(r.mac) && rest[i - skip + 1] == Level(r.rssi);
        }
      }
    }
  }

  /** Every address token is used for at most one reading, and so is every level token. */
  lemma {:induction false} PairsUseTokensOnce(ts: seq<Token>)
    ensures |Pairs(ts)| <= CountAddr(ts)
    ensures |Pairs(ts)| <= CountLevel(ts)
    decreases |ts|
  {
    if |ts| >= 2 {
      PairsUseTokensOnce(ts[1..]);
      PairsUseTokensOnce(ts[2..]);
      assert ts[1..][1..] == ts[2..];
    }
  }
}
