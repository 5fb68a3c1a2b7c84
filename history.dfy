/**
 * The per-device signal history: a buffer of the most recent readings, at
 * most five long, oldest evicted first.
 */
module History {

  const Capacity: nat := 5

  /**
   * `history.append(x)` followed by a single `pop(0)` when that made the
   * buffer longer than its capacity.
   */
  function Push(history: seq<int>, x: int): (r: seq<int>)
    ensures |history| <= Capacity ==> 1 <= |r| <= Capacity
    ensures |r| >= 1 && r[|r| - 1] == x
  {
    var h := history + [x];
    if |h| > Capacity then h[1..] else h
  }

  /** The last min(|xs|, 5) values of `xs`, in arrival order. */
  function Window(xs: seq<int>): (w: seq<int>)
    ensures |w| <= Capacity
    ensures |xs| >= 1 ==> |w| >= 1 && w[|w| - 1] == xs[|xs| - 1]
  {
    if |xs| <= Capacity then xs else xs[|xs| - Capacity..]
  }

  /**
   * Pushing a reading onto the window of the earlier readings gives the window
   * of all of them: after any number of readings the buffer holds exactly the
   * last five (or all, when fewer), in arrival order.
   */
  lemma PushKeepsWindow(xs: seq<int>, x: int)
    ensures Push(Window(xs), x) == Window(xs + [x])
  {
    if |xs| >= Capacity {
      var w := xs[|xs| - Capacity..];
      assert Window(xs) == w;
      assert (w + [x])[1..] == xs[|xs| + 1 - Capacity..] + [x];
      assert (xs + [x])[|xs| + 1 - Capacity..] == xs[|xs| + 1 - Capacity..] + [x];
    }
  }

  /** The buffer after pushing the readings `xs` one by one onto `history`. */
  function PushAll(history: seq<int>, xs: seq<int>): seq<int>
    decreases |xs|
  {
    if xs == [] then history else PushAll(Push(history, xs[0]), xs[1..])
  }

  /**
   * The buffer a device's first reading starts (`[x]`) and its later readings
   * `xs` then pass through holds exactly the last five of all of them, or all
   * when fewer.
   */
  lemma {:induction false} PushAllKeepsWindow(earlier: seq<int>, xs: seq<int>)
    ensures PushAll(Window(earlier), xs) == Window(earlier + xs)
    decreases |xs|
  {
    if xs != [] {
      PushKeepsWindow(earlier, xs[0]);
      PushAllKeepsWindow(earlier + [xs[0]], xs[1..]);
      MoveFirst(earlier, xs);
    } else {
      assert earlier + xs == earlier;
    }
  }

  /** Proof plumbing: moving the first of `xs` over to `earlier` keeps the concatenation. */
  lemma MoveFirst(earlier: seq<int>, xs: seq<int>)
    requires xs != []
    ensures earlier + [xs[0]] + xs[1..] == earlier + xs
  {
    assert xs == [xs[0]] + xs[1..];
  }
}
