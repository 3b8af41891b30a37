/** How many files a split opens, given where in the output the lines begin. */
module MapReduceChunks {

  /** `nchunk * m`, as a sum, which keeps the proofs linear. */
  function Capacity(nchunk: nat, m: nat): nat {
    if m == 0 then 0 else Capacity(nchunk, m - 1) + nchunk
  }

  lemma {:induction false} CapacityIsProduct(nchunk: nat, m: nat)
    ensures Capacity(nchunk, m) == nchunk * m
  {
    if m > 0 {
      CapacityIsProduct(nchunk, m - 1);
      assert nchunk * m == nchunk * (m - 1) + nchunk;
    }
  }

  lemma {:induction false} CapacityMonotone(nchunk: nat, m: nat, n: nat)
    requires m <= n
    ensures Capacity(nchunk, m) <= Capacity(nchunk, n)
    decreases n
  {
    if m < n {
      CapacityMonotone(nchunk, m, n - 1);
    }
  }

  /** A line that begins beyond the capacity of the files so far opens one more. */
  function Opened(nchunk: nat, starts: seq<nat>): (r: nat)
    ensures 1 <= r
  {
    if starts == [] then 1
    else
      var n := |starts| - 1;
      var m := Opened(nchunk, starts[..n]);
      if Capacity(nchunk, m) < starts[n] then m + 1 else m
  }

  predicate Ascending(starts: seq<nat>) {
    starts != [] && starts[0] == 0 && forall i, j | 0 <= i <= j < |starts| :: starts[i] <= starts[j]
  }

  lemma AscendingInit(starts: seq<nat>)
    requires Ascending(starts) && 1 < |starts|
    ensures Ascending(starts[..|starts| - 1])
  {
  }

  /** The last file was opened by a line beyond the capacity of the others. */
  lemma {:induction false} LastIsBeyond(nchunk: nat, starts: seq<nat>)
    requires Ascending(starts)
    ensures 1 < Opened(nchunk, starts) ==> Capacity(nchunk, Opened(nchunk, starts) - 1) < starts[|starts| - 1]
    decreases |starts|
  {
    var n := |starts| - 1;
    if 0 < n {
      AscendingInit(starts);
      LastIsBeyond(nchunk, starts[..n]);
    } else {
      assert Opened(nchunk, starts[..0]) == 1;
    }
  }

  /** The line `d` before the last begins where file `m - d` should be open. */
  predicate Late(nchunk: nat, starts: seq<nat>, m: nat, d: nat) {
    d < m && d < |starts| && Capacity(nchunk, m - 1 - d) < starts[|starts| - 1 - d]
  }

  ghost predicate AllLate(nchunk: nat, starts: seq<nat>, m: nat) {
    forall d: nat | d + 1 < m :: Late(nchunk, starts, m, d)
  }

  lemma AllLateInit(nchunk: nat, starts: seq<nat>, m: nat)
    requires starts != [] && 2 <= m
    ensures AllLate(nchunk, starts, m) <==> Late(nchunk, starts, m, 0) && AllLate(nchunk, starts[..|starts| - 1], m - 1)
  {
    var init := starts[..|starts| - 1];
    var less := m - 1;
    if AllLate(nchunk, starts, m) {
      forall d: nat | d + 1 < less ensures Late(nchunk, init, less, d) {
        assert Late(nchunk, starts, m, d + 1);
      }
      assert Late(nchunk, starts, m, 0);
    }
    if Late(nchunk, starts, m, 0) && AllLate(nchunk, init, m - 1) {
      forall d: nat | d + 1 < m ensures Late(nchunk, starts, m, d) {
        assert 0 < d ==> Late(nchunk, init, m - 1, d - 1);
      }
    }
  }

  /** As a line opens one file at most, there are `m` files iff the last lines, counted from
      the end, all begin late enough. */
  lemma {:induction false} AtLeastIff(nchunk: nat, starts: seq<nat>, m: nat)
    requires Ascending(starts) && 1 <= m
    ensures m <= Opened(nchunk, starts) <==> AllLate(nchunk, starts, m)
    decreases |starts|
  {
    var n := |starts| - 1;
    if 2 <= m {
      AllLateInit(nchunk, starts, m);
      if n == 0 {
        assert Opened(nchunk, starts[..0]) == 1;
        assert !Late(nchunk, starts, m, 0);
      } else {
        AscendingInit(starts);
        AtLeastIff(nchunk, starts[..n], m - 1);
        LastIsBeyond(nchunk, starts[..n]);
        if m <= Opened(nchunk, starts[..n]) {
          CapacityMonotone(nchunk, m - 1, Opened(nchunk, starts[..n]) - 1);
        }
      }
    }
  }

  // ---- lines no longer than a chunk ----

  predicate Close(starts: seq<nat>, gap: nat) {
    forall k | 0 < k < |starts| :: starts[k] <= starts[k - 1] + gap
  }

  lemma {:induction false} LastFits(nchunk: nat, starts: seq<nat>)
    requires Ascending(starts) && Close(starts, nchunk)
    ensures starts[|starts| - 1] <= Capacity(nchunk, Opened(nchunk, starts))
    decreases |starts|
  {
    var n := |starts| - 1;
    if 0 < n {
      AscendingInit(starts);
      LastFits(nchunk, starts[..n]);
    }
  }

  /** Then the last line alone decides. */
  lemma AtLeastIfClose(nchunk: nat, starts: seq<nat>, m: nat)
    requires Ascending(starts) && Close(starts, nchunk) && 1 <= m
    ensures m <= Opened(nchunk, starts) <==> m == 1 || Capacity(nchunk, m - 1) < starts[|starts| - 1]
  {
    LastFits(nchunk, starts);
    LastIsBeyond(nchunk, starts);
    if m <= Opened(nchunk, starts) {
      CapacityMonotone(nchunk, m - 1, Opened(nchunk, starts) - 1);
    } else {
      CapacityMonotone(nchunk, Opened(nchunk, starts), m - 1);
    }
  }

  /** There are never more files than it takes to hold where the last line begins. */
  lemma AtMost(nchunk: nat, starts: seq<nat>, m: nat)
    requires Ascending(starts) && 1 <= m && starts[|starts| - 1] <= Capacity(nchunk, m)
    ensures Opened(nchunk, starts) <= m
  {
    LastIsBeyond(nchunk, starts);
    if m < Opened(nchunk, starts) {
      CapacityMonotone(nchunk, m, Opened(nchunk, starts) - 1);
    }
  }
}
