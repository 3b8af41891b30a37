/** Which nonces of a request its miners look at, between them. */
module BitcoinCoverage {
  import opened BitcoinRanges

  predicate NonEmpty(r: Range) { r.lower <= r.upper }

  /** `workers` is how many goroutines the miner of a piece starts. */
  predicate Staffed(upper: nat, stride: nat, workers: Range -> nat)
    requires 0 < stride
  {
    forall i | 0 <= i < stride :: NonEmpty(Pieces(upper, stride)[i]) ==> 0 < workers(Pieces(upper, stride)[i])
  }

  /** Where the miner's search of a piece ends. */
  function LastSearched(r: Range, w: nat): nat
    requires NonEmpty(r) && 0 < w
  {
    r.lower + w * ((r.upper - r.lower) / w)
  }

  predicate SearchedBy(n: nat, r: Range, workers: Range -> nat) {
    NonEmpty(r) && 0 < workers(r) && r.lower <= n <= LastSearched(r, workers(r))
  }

  ghost predicate Searched(n: nat, upper: nat, stride: nat, workers: Range -> nat)
    requires 0 < stride
  {
    exists i | 0 <= i < stride :: SearchedBy(n, Pieces(upper, stride)[i], workers)
  }

  /** How many nonces the search of a piece leaves out. */
  function Rest(r: Range, w: nat): nat
    requires NonEmpty(r) && 0 < w
  {
    (r.upper - r.lower) % w
  }

  lemma SearchStopsShort(r: Range, w: nat)
    requires NonEmpty(r) && 0 < w
    ensures r.lower <= LastSearched(r, w) == r.upper - Rest(r, w)
  {
    DivMod(r.upper - r.lower, w);
  }

  lemma DivMod(d: nat, w: nat)
    requires 0 < w
    ensures d == w * (d / w) + d % w && 0 <= w * (d / w)
  {
  }

  predicate HasNext(upper: nat, stride: nat, i: nat)
    requires i < stride
  {
    i + 1 < stride && NonEmpty(Pieces(upper, stride)[i + 1])
  }

  /** The end of a piece with a successor that is not empty is searched with the successor. */
  predicate SmallRest(upper: nat, stride: nat, workers: Range -> nat, i: nat)
    requires i < stride
  {
    var r := Pieces(upper, stride)[i];
    NonEmpty(r) && 0 < workers(r) ==> Rest(r, workers(r)) <= if HasNext(upper, stride, i) then 1 else 0
  }

  predicate SmallRests(upper: nat, stride: nat, workers: Range -> nat)
    requires 0 < stride
  {
    forall i: nat | i < stride :: SmallRest(upper, stride, workers, i)
  }

  lemma PiecesTouch(upper: nat, stride: nat, i: nat)
    requires i < stride && NonEmpty(Pieces(upper, stride)[i])
    ensures Pieces(upper, stride)[i].upper ==
      if HasNext(upper, stride, i) then Pieces(upper, stride)[i + 1].lower else upper
  {
    var step := CeilDiv(upper, stride);
    assert Pieces(upper, stride)[i] == PieceAt(upper, step, i);
    CeilDivBounds(upper, stride);
    if i + 1 < stride {
      assert Pieces(upper, stride)[i + 1] == PieceAt(upper, step, i + 1);
      assert (i + 2) * step == (i + 1) * step + step;
    } else {
      assert (i + 1) * step == step * stride;
    }
  }

  lemma PiecesAscend(upper: nat, stride: nat, i: nat, j: nat)
    requires i < j < stride
    ensures Pieces(upper, stride)[i].upper <= Pieces(upper, stride)[j].lower
  {
    var step := CeilDiv(upper, stride);
    assert Pieces(upper, stride)[i] == PieceAt(upper, step, i);
    assert Pieces(upper, stride)[j] == PieceAt(upper, step, j);
    MulMonotone(step, i + 1, j);
  }

  /** Behind an empty piece all are empty. */
  lemma EmptyStays(upper: nat, stride: nat, i: nat, j: nat)
    requires i <= j < stride && !NonEmpty(Pieces(upper, stride)[i])
    ensures !NonEmpty(Pieces(upper, stride)[j])
  {
    var step := CeilDiv(upper, stride);
    assert Pieces(upper, stride)[i] == PieceAt(upper, step, i);
    assert Pieces(upper, stride)[j] == PieceAt(upper, step, j);
    assert (i + 1) * step == i * step + step;
    MulMonotone(step, i, j);
  }

  lemma SmallRestsSearchAll(upper: nat, stride: nat, workers: Range -> nat, n: nat)
    requires 0 < stride && Staffed(upper, stride, workers)
    requires SmallRests(upper, stride, workers) && n <= upper
    ensures Searched(n, upper, stride, workers)
  {
    var i := PiecesCover(upper, stride, n);
    var ps := Pieces(upper, stride);
    assert NonEmpty(ps[i]) && SmallRest(upper, stride, workers, i);
    SearchStopsShort(ps[i], workers(ps[i]));
    PiecesTouch(upper, stride, i);
    if SearchedBy(n, ps[i], workers) {
    } else {
      assert n == ps[i + 1].lower && NonEmpty(ps[i + 1]);
      SearchStopsShort(ps[i + 1], workers(ps[i + 1]));
      assert SearchedBy(n, ps[i + 1], workers);
    }
  }

  /** The first nonce that a piece with a larger rest leaves out is in no other piece. */
  lemma LargeRestMisses(upper: nat, stride: nat, workers: Range -> nat, i: nat) returns (m: nat)
    requires i < stride && !SmallRest(upper, stride, workers, i)
    ensures m <= upper && !Searched(m, upper, stride, workers)
  {
    var ps := Pieces(upper, stride);
    SearchStopsShort(ps[i], workers(ps[i]));
    m := LastSearched(ps[i], workers(ps[i])) + 1;
    PiecesInside(upper, stride, i, m);
    PiecesTouch(upper, stride, i);
    forall j | 0 <= j < stride ensures !SearchedBy(m, ps[j], workers) {
      if j < i {
        PiecesAscend(upper, stride, j, i);
        SearchedInside(m, ps[j], workers);
      } else if i < j {
        LaterMisses(upper, stride, workers, i, j, m);
      }
    }
  }

  lemma SearchedInside(n: nat, r: Range, workers: Range -> nat)
    ensures SearchedBy(n, r, workers) ==> r.lower <= n <= r.upper
  {
    if NonEmpty(r) && 0 < workers(r) {
      SearchStopsShort(r, workers(r));
    }
  }

  lemma LaterMisses(upper: nat, stride: nat, workers: Range -> nat, i: nat, j: nat, m: nat)
    requires i < j < stride && NonEmpty(Pieces(upper, stride)[i])
    requires HasNext(upper, stride, i) ==> m < Pieces(upper, stride)[i].upper
    ensures !SearchedBy(m, Pieces(upper, stride)[j], workers)
  {
    if HasNext(upper, stride, i) {
      PiecesAscend(upper, stride, i, j);
    } else {
      EmptyStays(upper, stride, i + 1, j);
    }
  }

  /** Every nonce of `[0, upper]` is searched iff each piece but the last leaves out at most
      its end, and the last nothing; an empty piece counts for neither. */
  lemma AllSearchedIff(upper: nat, stride: nat, workers: Range -> nat)
    requires 0 < stride && Staffed(upper, stride, workers)
    ensures (forall n: nat | n <= upper :: Searched(n, upper, stride, workers)) <==> SmallRests(upper, stride, workers)
  {
    if SmallRests(upper, stride, workers) {
      forall n: nat | n <= upper ensures Searched(n, upper, stride, workers) {
        SmallRestsSearchAll(upper, stride, workers, n);
      }
    } else {
      var i: nat :| i < stride && !SmallRest(upper, stride, workers, i);
      var m := LargeRestMisses(upper, stride, workers, i);
    }
  }
}
