/** The arithmetic of mining: how the server cuts a request into pieces, and how a miner
    searches one.  Integers are unbounded; the ceiling is the exact one, as it is in the
    program for bounds below 2^53. */
module BitcoinRanges {

  // ---- the server's split ----

  type pos = n: nat | 0 < n witness 1

  datatype Range = Range(lower: nat, upper: nat)

  function Min(a: nat, b: nat): nat { if b > a then a else b }

  /** `math.Ceil(upper / stride)` */
  function CeilDiv(upper: nat, stride: nat): nat
    requires 0 < stride
  {
    if upper % stride == 0 then upper / stride else upper / stride + 1
  }

  function PieceAt(upper: nat, step: nat, i: nat): Range {
    Range(i * step, Min(upper, (i + 1) * step))
  }

  function Pieces(upper: nat, stride: nat): seq<Range>
    requires 0 < stride
  {
    seq(stride, i requires 0 <= i < stride => PieceAt(upper, CeilDiv(upper, stride), i))
  }

  predicate In(x: nat, r: Range) { r.lower <= x <= r.upper }

  /** `step` is the least number with `upper <= step * stride`. */
  lemma CeilDivBounds(upper: nat, stride: nat)
    requires 0 < stride
    ensures var step := CeilDiv(upper, stride);
      upper <= step * stride < upper + stride
  {
    var q, r := upper / stride, upper % stride;
    assert upper == q * stride + r && 0 <= r < stride;
    assert (q + 1) * stride == q * stride + stride;
  }

  lemma MulMonotone(a: nat, b: nat, c: nat)
    requires b <= c
    ensures b * a <= c * a
  {
  }

  /** Every nonce of `[0, upper]` is in some piece. */
  lemma PiecesCover(upper: nat, stride: nat, x: nat) returns (i: nat)
    requires 0 < stride && x <= upper
    ensures i < stride && In(x, Pieces(upper, stride)[i])
  {
    var step := CeilDiv(upper, stride);
    CeilDivBounds(upper, stride);
    if step == 0 {
      i := 0;
      assert x == 0 && PieceAt(upper, step, 0) == Range(0, 0);
    } else {
      i := x / step;
      assert x == i * step + x % step;
      assert (i + 1) * step == i * step + step;
      if stride <= i {
        MulMonotone(step, stride, i);
        assert stride * step == step * stride;
        assert x == stride * step;
        i := stride - 1;
        assert (i + 1) * step == stride * step && i * step == stride * step - step;
      }
    }
    assert In(x, PieceAt(upper, step, i));
  }

  /** Nothing outside is searched. */
  lemma PiecesInside(upper: nat, stride: nat, i: nat, x: nat)
    requires 0 < stride && i < stride && In(x, Pieces(upper, stride)[i])
    ensures x <= upper
  {
    assert In(x, PieceAt(upper, CeilDiv(upper, stride), i));
  }

  /** Every piece has a nonce iff the last one has. */
  lemma AllNonEmptyIffLastIs(upper: nat, stride: nat)
    requires 0 < stride
    ensures (forall i | 0 <= i < stride :: Pieces(upper, stride)[i].lower <= Pieces(upper, stride)[i].upper)
       <==> (stride - 1) * CeilDiv(upper, stride) <= upper
  {
    var step := CeilDiv(upper, stride);
    var ps := Pieces(upper, stride);
    if (stride - 1) * step <= upper {
      forall i | 0 <= i < stride ensures ps[i].lower <= ps[i].upper {
        MulMonotone(step, i, stride - 1);
        assert (i + 1) * step == i * step + step;
        assert ps[i] == PieceAt(upper, step, i);
      }
    } else {
      assert ps[stride - 1] == PieceAt(upper, step, stride - 1);
      assert ps[stride - 1].lower > ps[stride - 1].upper;
    }
  }

  lemma LargeEnough(upper: nat, stride: nat)
    requires 0 < stride && (stride - 1) * (stride - 1) <= upper
    ensures forall i | 0 <= i < stride :: Pieces(upper, stride)[i].lower <= Pieces(upper, stride)[i].upper
  {
    var step := CeilDiv(upper, stride);
    CeilDivBounds(upper, stride);
    if upper < (stride - 1) * step {
      Overshoot(upper, stride - 1, step);
    }
    AllNonEmptyIffLastIs(upper, stride);
  }

  /** With `k = stride - 1`: if the last piece were empty, `upper` would be below `k * k`. */
  lemma Overshoot(upper: nat, k: nat, step: nat)
    requires step * (k + 1) < upper + (k + 1) && upper < k * step
    ensures upper < k * k
  {
    assert step * (k + 1) == step * k + step;
    assert step < k + 1;
    MulMonotone(k, step, k);
    assert k * step == step * k;
  }

  // ---- the miner ----

  /** A hash is never 0, which the program keeps for "none yet". */
  predicate Positive(hash: nat -> nat, lo: nat, hi: nat) {
    forall n: nat | lo <= n <= hi :: 0 < hash(n)
  }

  /** `nonce` is in the range, realises `h`, and no nonce of the range does better. */
  predicate Best(hash: nat -> nat, lo: nat, hi: nat, h: nat, nonce: nat) {
    lo <= nonce <= hi && hash(nonce) == h && forall n: nat | lo <= n <= hi :: h <= hash(n)
  }

  /** One worker: the loop `for nonce := lower; nonce <= upper; nonce++`. */
  method SearchRange(hash: nat -> nat, lower: nat, upper: nat) returns (minHash: nat, minNonce: nat)
    requires lower <= upper && Positive(hash, lower, upper)
    ensures Best(hash, lower, upper, minHash, minNonce)
    ensures forall n: nat | lower <= n < minNonce :: minHash < hash(n)
  {
    minHash, minNonce := 0, 0;
    var nonce := lower;
    while nonce <= upper
      invariant lower <= nonce <= upper + 1
      invariant nonce == lower ==> minHash == 0
      invariant lower < nonce ==> 0 < minHash && Best(hash, lower, nonce - 1, minHash, minNonce)
      invariant forall n: nat | lower <= n < minNonce :: minHash < hash(n)
    {
      var h := hash(nonce);
      assert 0 < h;
      if minHash == 0 || minHash > h {
        minHash := h;
        minNonce := nonce;
      }
      nonce := nonce + 1;
    }
  }

  /** The worker `i` of a request searches this, both ends included. */
  function Share(lower: nat, s: nat, i: nat): Range {
    Range(lower + i * s, lower + (i + 1) * s)
  }

  datatype Result = Result(hash: nat, nonce: nat)

  ghost predicate WorkerResult(hash: nat -> nat, lower: nat, s: nat, i: nat, r: Result) {
    Best(hash, Share(lower, s, i).lower, Share(lower, s, i).upper, r.hash, r.nonce)
  }

  /** `r` is the first of the results that has the least hash. */
  ghost predicate Least(rs: seq<Result>, r: Result) {
    && (exists k :: 0 <= k < |rs| && rs[k] == r && forall j | 0 <= j < k :: r.hash < rs[j].hash)
    && (forall x | x in rs :: r.hash <= x.hash)
  }

  lemma LeastSnoc(rs: seq<Result>, r: Result, x: Result)
    requires rs != [] ==> Least(rs, r)
    ensures Least(rs + [x], if rs == [] || r.hash > x.hash then x else r)
  {
    var all := rs + [x];
    if rs != [] && r.hash <= x.hash {
      var k :| 0 <= k < |rs| && rs[k] == r && forall j | 0 <= j < k :: r.hash < rs[j].hash;
      assert all[k] == r;
    } else {
      assert all[|rs|] == x;
      assert forall j | 0 <= j < |rs| :: all[j] in rs;
    }
  }

  /** The second loop: fold what arrives on the channel. */
  method Collect(arrived: seq<Result>) returns (r: Result)
    requires arrived != [] && forall x | x in arrived :: 0 < x.hash
    ensures Least(arrived, r)
  {
    var minHash, minNonce := 0, 0;
    for k := 0 to |arrived|
      invariant k == 0 ==> minHash == 0
      invariant 0 < k ==> 0 < minHash && Least(arrived[..k], Result(minHash, minNonce))
    {
      var x := arrived[k];
      assert x in arrived;
      assert arrived[..k + 1] == arrived[..k] + [x];
      LeastSnoc(arrived[..k], Result(minHash, minNonce), x);
      if minHash == 0 || minHash > x.hash {
        minHash, minNonce := x.hash, x.nonce;
      }
    }
    assert arrived[..|arrived|] == arrived;
    r := Result(minHash, minNonce);
  }

  lemma ShareOf(lower: nat, s: nat, w: nat, n: nat) returns (i: nat)
    requires 0 < w && lower <= n <= lower + w * s
    ensures i < w && In(n, Share(lower, s, i))
  {
    if s == 0 {
      i := 0;
    } else {
      i := (n - lower) / s;
      assert n - lower == i * s + (n - lower) % s;
      assert (i + 1) * s == i * s + s;
      if w <= i {
        MulMonotone(s, w, i);
        i := w - 1;
        assert (i + 1) * s == w * s && i * s == w * s - s;
      }
    }
  }

  lemma SharesInside(lower: nat, s: nat, w: nat, i: nat)
    requires i < w
    ensures lower <= Share(lower, s, i).lower <= Share(lower, s, i).upper <= lower + w * s
  {
    MulMonotone(s, i, i + 1);
    MulMonotone(s, i + 1, w);
  }

  /** The least of the workers' results, whatever order they came in, is the best of all the
      nonces from `lower` to `lower + w * s`. */
  lemma LeastIsBest(hash: nat -> nat, lower: nat, s: nat, w: nat, order: seq<nat>, arrived: seq<Result>, r: Result)
    requires 0 < w && |order| == |arrived| && multiset(order) == multiset(seq(w, i requires 0 <= i < w => i as nat))
    requires forall k | 0 <= k < |order| :: WorkerResult(hash, lower, s, order[k], arrived[k])
    requires Least(arrived, r)
    ensures Best(hash, lower, lower + w * s, r.hash, r.nonce)
  {
    var all := seq(w, i requires 0 <= i < w => i as nat);
    forall n: nat | lower <= n <= lower + w * s ensures r.hash <= hash(n) {
      var i := ShareOf(lower, s, w, n);
      assert all[i] == i;
      assert i in multiset(order);
      var k :| 0 <= k < |order| && order[k] == i;
      assert arrived[k] in arrived;
    }
    var k :| 0 <= k < |arrived| && arrived[k] == r;
    assert order[k] in multiset(order);
    assert order[k] in all;
    SharesInside(lower, s, w, order[k]);
  }

  /** The body of the miner's loop for one request, with the workers finishing in the order
      `order`.  Logarithms are not modelled: `w` is any worker count but 0. */
  method Mine(hash: nat -> nat, lower: nat, upper: nat, w: nat, order: seq<nat>) returns (r: Result)
    requires lower <= upper && 0 < w && Positive(hash, lower, upper)
    requires multiset(order) == multiset(seq(w, i requires 0 <= i < w => i as nat))
    ensures var s := (upper - lower) / w;
      Best(hash, lower, lower + w * s, r.hash, r.nonce)
  {
    var s := (upper - lower) / w;
    Unsearched(lower, upper, w);
    var arrived: seq<Result> := [];
    OrderIsComplete(order, w);
    for k := 0 to |order|
      invariant |arrived| == k
      invariant forall j | 0 <= j < k :: WorkerResult(hash, lower, s, order[j], arrived[j])
      invariant forall x | x in arrived :: 0 < x.hash
    {
      SharesInside(lower, s, w, order[k]);
      var range := Share(lower, s, order[k]);
      var h, n := SearchRange(hash, range.lower, range.upper);
      arrived := arrived + [Result(h, n)];
    }
    r := Collect(arrived);
    LeastIsBest(hash, lower, s, w, order, arrived, r);
  }

  lemma OrderIsComplete(order: seq<nat>, w: nat)
    requires 0 < w && multiset(order) == multiset(seq(w, i requires 0 <= i < w => i as nat))
    ensures order != [] && forall k | 0 <= k < |order| :: order[k] < w
  {
    var all := seq(w, i requires 0 <= i < w => i as nat);
    assert all[0] in multiset(order);
    forall k | 0 <= k < |order| ensures order[k] < w {
      assert order[k] in multiset(order);
      assert order[k] in all;
    }
  }

  /** What is searched stays in the request and leaves out fewer than `w` nonces. */
  lemma Unsearched(lower: nat, upper: nat, w: nat)
    requires lower <= upper && 0 < w
    ensures var searched := lower + w * ((upper - lower) / w);
      searched <= upper && upper - searched < w
  {
    var q := (upper - lower) / w;
    assert upper - lower == w * q + (upper - lower) % w;
  }
}
