/** What an answer says about the hashes, if the miners are honest. */
module BitcoinAnswers {
  import opened BitcoinRanges
  import opened BitcoinCoverage
  import opened BitcoinScheduler
  import opened BitcoinSafety
  import opened BitcoinTheorems

  // ---- the counted pieces are those of the split ----

  /** Every request is cut as the splitting says. */
  ghost predicate CutOk(s: Sched) {
    forall c | c in s.hist :: Cut(c, s.hist[c])
  }

  ghost predicate Cut(c: int, h: History) {
    h.pieces == multiset(ToPieces(c, h.data, Pieces(h.upper, h.stride)))
  }

  lemma HandleKeepsCut(s: Sched, ev: Event)
    requires CutOk(s) && Allowed(s, ev) && Handle(s, ev).Ok?
    ensures CutOk(Handle(s, ev).s)
  {
    var t := Handle(s, ev).s;
    HandleGrows(s, ev);
    forall c | c in t.hist ensures Cut(c, t.hist[c]) {
      if c in s.hist {
        assert Cut(c, s.hist[c]) && Later(s.hist[c], t.hist[c]);
      }
    }
  }

  lemma {:induction false} RunKeepsCut(s: Sched, events: seq<Event>)
    requires CutOk(s) && Run(s, events).Ok?
    ensures CutOk(Run(s, events).s)
    decreases |events|
  {
    if events != [] {
      if Allowed(s, events[0]) {
        HandleKeepsCut(s, events[0]);
        RunKeepsCut(Handle(s, events[0]).s, events[1..]);
      } else {
        RunKeepsCut(s, events[1..]);
      }
    }
  }

  lemma ReachableCut(s: Sched, c: int)
    requires Reachable(s) && c in s.hist
    ensures Cut(c, s.hist[c])
  {
    var events :| Run(Init(), events) == Ok(s);
    RunKeepsCut(Init(), events);
  }

  function RangeOf(p: Piece): Range { Range(p.lower, p.upper) }

  lemma {:induction false} CountedHas(counted: seq<Counted>, p: Piece)
    ensures p in CountedOf(counted) <==> exists k | 0 <= k < |counted| :: counted[k].piece == p
    decreases |counted|
  {
    if counted != [] {
      CountedHas(counted[..|counted| - 1], p);
    }
  }

  /** The counted pieces are the pieces of the split. */
  lemma CountedAreTheCut(c: int, h: History)
    requires Cut(c, h) && CountedOf(h.counted) == h.pieces
    ensures forall i | 0 <= i < h.stride ::
      exists k | 0 <= k < |h.counted| :: h.counted[k].piece == ToPieces(c, h.data, Pieces(h.upper, h.stride))[i]
    ensures forall x | x in h.counted :: x.piece in ToPieces(c, h.data, Pieces(h.upper, h.stride))
  {
    var ps := ToPieces(c, h.data, Pieces(h.upper, h.stride));
    forall i | 0 <= i < h.stride ensures exists k | 0 <= k < |h.counted| :: h.counted[k].piece == ps[i] {
      assert ps[i] in multiset(ps);
      CountedHas(h.counted, ps[i]);
    }
    forall x | x in h.counted ensures x.piece in ps {
      CountedHas(h.counted, x.piece);
      assert x.piece in multiset(ps);
    }
  }

  lemma PieceCounted(c: int, h: History, x: Counted) returns (i: nat)
    requires Cut(c, h) && CountedOf(h.counted) == h.pieces && x in h.counted
    ensures i < h.stride && x.piece.data == h.data && RangeOf(x.piece) == Pieces(h.upper, h.stride)[i]
  {
    CountedAreTheCut(c, h);
    i :| 0 <= i < h.stride && ToPieces(c, h.data, Pieces(h.upper, h.stride))[i] == x.piece;
  }

  lemma CountedPiece(c: int, h: History, i: nat) returns (x: Counted)
    requires Cut(c, h) && CountedOf(h.counted) == h.pieces && i < h.stride
    ensures x in h.counted && x.piece.data == h.data && RangeOf(x.piece) == Pieces(h.upper, h.stride)[i]
  {
    CountedAreTheCut(c, h);
    var p := ToPieces(c, h.data, Pieces(h.upper, h.stride))[i];
    var k :| 0 <= k < |h.counted| && h.counted[k].piece == p;
    x := h.counted[k];
  }

  // ---- honest miners ----

  /** The miner that had this piece returned the best of what it searched. */
  ghost predicate Honest(x: Counted, hash: (string, nat) -> nat, workers: Range -> nat) {
    var r := RangeOf(x.piece);
    NonEmpty(r) ==>
      0 < workers(r) && Best(n => hash(x.piece.data, n), r.lower, LastSearched(r, workers(r)), x.hash, x.nonce)
  }

  ghost predicate AllHonest(counted: seq<Counted>, hash: (string, nat) -> nat, workers: Range -> nat) {
    forall x | x in counted :: Honest(x, hash, workers)
  }

  /** A hash is never 0. */
  ghost predicate PositiveHash(hash: (string, nat) -> nat) {
    forall data, n: nat :: 0 < hash(data, n)
  }

  /** The program's miner is one, in whatever order its goroutines finish. */
  method MinePiece(piece: Piece, hash: (string, nat) -> nat, workers: Range -> nat, order: seq<nat>)
    returns (x: Counted)
    requires NonEmpty(RangeOf(piece)) && PositiveHash(hash)
    requires var w := workers(RangeOf(piece));
      0 < w && multiset(order) == multiset(seq(w, i requires 0 <= i < w => i as nat))
    ensures x.piece == piece && 0 < x.hash && Honest(x, hash, workers)
  {
    var w := workers(RangeOf(piece));
    var r := Mine(n => hash(piece.data, n), piece.lower, piece.upper, w, order);
    x := Counted(piece, r.hash, r.nonce);
  }

  lemma HonestNonce(x: Counted, hash: (string, nat) -> nat, workers: Range -> nat)
    requires Honest(x, hash, workers) && NonEmpty(RangeOf(x.piece))
    ensures hash(x.piece.data, x.nonce) == x.hash && SearchedBy(x.nonce, RangeOf(x.piece), workers)
  {
  }

  lemma HonestIsNoMore(x: Counted, n: nat, hash: (string, nat) -> nat, workers: Range -> nat)
    requires Honest(x, hash, workers) && SearchedBy(n, RangeOf(x.piece), workers)
    ensures x.hash <= hash(x.piece.data, n)
  {
    var r := RangeOf(x.piece);
    var f := (n: nat) => hash(x.piece.data, n);
    assert f(n) == hash(x.piece.data, n);
    assert Best(n => hash(x.piece.data, n), r.lower, LastSearched(r, workers(r)), x.hash, x.nonce);
  }

  lemma HonestAreStaffed(c: int, h: History, hash: (string, nat) -> nat, workers: Range -> nat)
    requires Cut(c, h) && CountedOf(h.counted) == h.pieces && AllHonest(h.counted, hash, workers)
    ensures Staffed(h.upper, h.stride, workers)
  {
    forall i | 0 <= i < h.stride && NonEmpty(Pieces(h.upper, h.stride)[i])
      ensures 0 < workers(Pieces(h.upper, h.stride)[i])
    {
      var x := CountedPiece(c, h, i);
      assert Honest(x, hash, workers);
    }
  }

  // ---- the answer ----

  ghost predicate IsSearched(n: nat, h: History, workers: Range -> nat) {
    Searched(n, h.upper, h.stride, workers)
  }

  lemma AnswerNonceIsSearched(c: int, h: History, x: Counted, hash: (string, nat) -> nat, workers: Range -> nat)
    requires Cut(c, h) && CountedOf(h.counted) == h.pieces && x in h.counted && Honest(x, hash, workers)
    requires NonEmpty(RangeOf(x.piece))
    ensures x.nonce <= h.upper && hash(h.data, x.nonce) == x.hash && IsSearched(x.nonce, h, workers)
  {
    var i := PieceCounted(c, h, x);
    var r := Pieces(h.upper, h.stride)[i];
    HonestNonce(x, hash, workers);
    SearchStopsShort(r, workers(r));
    assert SearchedBy(x.nonce, r, workers);
    PiecesInside(h.upper, h.stride, i, x.nonce);
  }

  lemma SearchedIsNoLess(c: int, h: History, n: nat, least: nat, hash: (string, nat) -> nat, workers: Range -> nat)
    requires Cut(c, h) && CountedOf(h.counted) == h.pieces && IsSearched(n, h, workers)
    requires AllHonest(h.counted, hash, workers) && forall x | x in h.counted :: least <= x.hash
    ensures least <= hash(h.data, n)
  {
    var rs := Pieces(h.upper, h.stride);
    var i :| 0 <= i < h.stride && SearchedBy(n, rs[i], workers);
    var x := CountedPiece(c, h, i);
    HonestIsNoMore(x, n, hash, workers);
  }

  lemma AnsweredIsCounted(s: Sched, a: Answer)
    requires Reachable(s) && a in s.answers
    ensures a.id in s.hist && Cut(a.id, s.hist[a.id])
    ensures CountedOf(s.hist[a.id].counted) == s.hist[a.id].pieces
    ensures LeastCounted(s.hist[a.id].counted, a.hash, a.nonce)
  {
    AnswerIsLeastCounted(s, a);
    ReachableCut(s, a.id);
    assert Answered(s, a.id);
    AnsweredIffAllCounted(s, a.id);
  }

  /** The answer is the result of a piece that is not empty.  A miner with an empty piece
      computes with a length that wrapped around; nothing is assumed of its result. */
  predicate FromPiece(h: History, a: Answer) {
    exists k | 0 <= k < |h.counted| ::
      NonEmpty(RangeOf(h.counted[k].piece)) && h.counted[k].hash == a.hash && h.counted[k].nonce == a.nonce
  }

  /** So it is for every request whose last piece is not empty. */
  lemma LastPieceNotEmpty(s: Sched, a: Answer)
    requires Reachable(s) && a in s.answers && a.id in s.hist
    requires var h := s.hist[a.id]; (h.stride - 1) * CeilDiv(h.upper, h.stride) <= h.upper
    ensures FromPiece(s.hist[a.id], a)
  {
    var h := s.hist[a.id];
    AnsweredIsCounted(s, a);
    var k :| 0 <= k < |h.counted| && IsFirst(h.counted, k, a.hash, a.nonce);
    var x := h.counted[k];
    var i := PieceCounted(a.id, h, x);
    AllNonEmptyIffLastIs(h.upper, h.stride);
    assert Pieces(h.upper, h.stride)[i].lower <= Pieces(h.upper, h.stride)[i].upper;
  }

  /** With honest miners no nonce they looked at has a smaller hash than the answer; and if it
      is not from an empty piece, its nonce is within the bound, was looked at, and has it. */
  lemma AnswerIsLeastSearched(s: Sched, a: Answer, hash: (string, nat) -> nat, workers: Range -> nat)
    requires Reachable(s) && a in s.answers && a.id in s.hist
    requires AllHonest(s.hist[a.id].counted, hash, workers)
    ensures forall n: nat | IsSearched(n, s.hist[a.id], workers) :: a.hash <= hash(s.hist[a.id].data, n)
    ensures FromPiece(s.hist[a.id], a) ==>
      && a.nonce <= s.hist[a.id].upper && hash(s.hist[a.id].data, a.nonce) == a.hash
      && IsSearched(a.nonce, s.hist[a.id], workers)
  {
    var h := s.hist[a.id];
    AnsweredIsCounted(s, a);
    forall n: nat | IsSearched(n, h, workers) ensures a.hash <= hash(h.data, n) {
      SearchedIsNoLess(a.id, h, n, a.hash, hash, workers);
    }
    if FromPiece(h, a) {
      var k :| 0 <= k < |h.counted| &&
        NonEmpty(RangeOf(h.counted[k].piece)) && h.counted[k].hash == a.hash && h.counted[k].nonce == a.nonce;
      AnswerNonceIsSearched(a.id, h, h.counted[k], hash, workers);
    }
  }

  ghost predicate IsMinimum(hash: (string, nat) -> nat, h: History, a: Answer) {
    Best(n => hash(h.data, n), 0, h.upper, a.hash, a.nonce)
  }

  /** With small rests the answer is the best of `[0, upper]`. */
  lemma AnswerIsMinimum(s: Sched, a: Answer, hash: (string, nat) -> nat, workers: Range -> nat)
    requires Reachable(s) && a in s.answers && a.id in s.hist && FromPiece(s.hist[a.id], a)
    requires AllHonest(s.hist[a.id].counted, hash, workers)
    requires SmallRests(s.hist[a.id].upper, s.hist[a.id].stride, workers)
    ensures IsMinimum(hash, s.hist[a.id], a)
  {
    var h := s.hist[a.id];
    AnswerIsLeastSearched(s, a, hash, workers);
    AnsweredIsCounted(s, a);
    HonestAreStaffed(a.id, h, hash, workers);
    forall n: nat | n <= h.upper ensures a.hash <= hash(h.data, n) {
      SmallRestsSearchAll(h.upper, h.stride, workers, n);
      assert IsSearched(n, h, workers);
    }
  }

  // ---- exactly ----

  /** `hash` with 1 at `m`. */
  function Lowered(hash: (string, nat) -> nat, data: string, m: nat): (string, nat) -> nat {
    (d, n) => if d == data && n == m then 1 else hash(d, n)
  }

  lemma BestSame(f: nat -> nat, g: nat -> nat, lo: nat, hi: nat, h: nat, nonce: nat)
    requires Best(f, lo, hi, h, nonce) && forall n: nat | lo <= n <= hi :: g(n) == f(n)
    ensures Best(g, lo, hi, h, nonce)
  {
  }

  /** Nobody who did not look at `m` can tell. */
  lemma LoweredIsHonest(c: int, h: History, hash: (string, nat) -> nat, workers: Range -> nat, m: nat, x: Counted)
    requires Cut(c, h) && CountedOf(h.counted) == h.pieces && !IsSearched(m, h, workers)
    requires x in h.counted && Honest(x, hash, workers)
    ensures Honest(x, Lowered(hash, h.data, m), workers)
  {
    var r := RangeOf(x.piece);
    if NonEmpty(r) {
      var i := PieceCounted(c, h, x);
      var g := Lowered(hash, h.data, m);
      assert !SearchedBy(m, Pieces(h.upper, h.stride)[i], workers);
      var last := LastSearched(r, workers(r));
      forall n: nat | r.lower <= n <= last ensures g(x.piece.data, n) == hash(x.piece.data, n) {}
      BestSame(n => hash(x.piece.data, n), n => g(x.piece.data, n), r.lower, last, x.hash, x.nonce);
    }
  }

  /** The answer is the minimum whatever the hash is, as far as the results leave it open. */
  ghost predicate SurelyMinimum(h: History, workers: Range -> nat, a: Answer) {
    forall f: (string, nat) -> nat :: PositiveHash(f) && AllHonest(h.counted, f, workers) ==> IsMinimum(f, h, a)
  }

  lemma UnsearchedCouldBeLess(s: Sched, a: Answer, hash: (string, nat) -> nat, workers: Range -> nat, m: nat)
    requires Reachable(s) && a in s.answers && a.id in s.hist
    requires AllHonest(s.hist[a.id].counted, hash, workers) && PositiveHash(hash)
    requires m <= s.hist[a.id].upper && !IsSearched(m, s.hist[a.id], workers) && 1 < a.hash
    ensures var f := Lowered(hash, s.hist[a.id].data, m);
      PositiveHash(f) && AllHonest(s.hist[a.id].counted, f, workers) && !IsMinimum(f, s.hist[a.id], a)
  {
    var h := s.hist[a.id];
    var f := Lowered(hash, h.data, m);
    AnsweredIsCounted(s, a);
    forall x | x in h.counted ensures Honest(x, f, workers) {
      assert Honest(x, hash, workers);
      LoweredIsHonest(a.id, h, hash, workers, m, x);
    }
    var g := (n: nat) => f(h.data, n);
    assert g(m) == 1;
  }

  /** `hash` raised at `m`. */
  function Raised(hash: (string, nat) -> nat, data: string, m: nat): (string, nat) -> nat {
    (d, n) => if d == data && n == m then hash(d, n) + 1 else hash(d, n)
  }

  lemma RaisedIsHonest(x: Counted, hash: (string, nat) -> nat, workers: Range -> nat, m: nat)
    requires Honest(x, hash, workers) && (NonEmpty(RangeOf(x.piece)) ==> x.nonce != m)
    ensures Honest(x, Raised(hash, x.piece.data, m), workers)
  {
    var r := RangeOf(x.piece);
    if NonEmpty(r) {
      var g, last := Raised(hash, x.piece.data, m), LastSearched(r, workers(r));
      forall n: nat | r.lower <= n <= last ensures hash(x.piece.data, n) <= g(x.piece.data, n) {}
      assert g(x.piece.data, x.nonce) == hash(x.piece.data, x.nonce);
      BestRaised(n => hash(x.piece.data, n), n => g(x.piece.data, n), r.lower, last, x.hash, x.nonce);
    }
  }

  lemma BestRaised(f: nat -> nat, g: nat -> nat, lo: nat, hi: nat, h: nat, nonce: nat)
    requires Best(f, lo, hi, h, nonce) && g(nonce) == f(nonce) && forall n: nat | lo <= n <= hi :: f(n) <= g(n)
    ensures Best(g, lo, hi, h, nonce)
  {
  }

  /** An answer from an empty piece is not sure even to have the hash it says. */
  lemma EmptyPieceCouldBeWrong(s: Sched, a: Answer, hash: (string, nat) -> nat, workers: Range -> nat)
    returns (f: (string, nat) -> nat)
    requires Reachable(s) && a in s.answers && a.id in s.hist && !FromPiece(s.hist[a.id], a)
    requires AllHonest(s.hist[a.id].counted, hash, workers) && PositiveHash(hash)
    ensures PositiveHash(f) && AllHonest(s.hist[a.id].counted, f, workers) && !IsMinimum(f, s.hist[a.id], a)
  {
    var h := s.hist[a.id];
    AnsweredIsCounted(s, a);
    f := hash;
    if hash(h.data, a.nonce) == a.hash {
      f := Raised(hash, h.data, a.nonce);
      forall x | x in h.counted ensures Honest(x, f, workers) {
        assert Honest(x, hash, workers);
        var i := PieceCounted(a.id, h, x);
        var k :| 0 <= k < |h.counted| && h.counted[k] == x;
        if NonEmpty(RangeOf(x.piece)) {
          HonestNonce(x, hash, workers);
        }
        RaisedIsHonest(x, hash, workers, a.nonce);
      }
    }
    var g := (n: nat) => f(h.data, n);
    assert g(a.nonce) != a.hash;
  }

  /** The answer is sure to be the minimum over `[0, upper]` iff it is not from an empty piece,
      and the rests are small or its hash is the least there is. */
  lemma MinimumIffSmallRests(s: Sched, a: Answer, hash: (string, nat) -> nat, workers: Range -> nat)
    requires Reachable(s) && a in s.answers && a.id in s.hist
    requires AllHonest(s.hist[a.id].counted, hash, workers) && PositiveHash(hash)
    ensures SurelyMinimum(s.hist[a.id], workers, a) <==>
      && FromPiece(s.hist[a.id], a)
      && (SmallRests(s.hist[a.id].upper, s.hist[a.id].stride, workers) || a.hash == 1)
  {
    var h := s.hist[a.id];
    if !FromPiece(h, a) {
      var f := EmptyPieceCouldBeWrong(s, a, hash, workers);
    } else if SmallRests(h.upper, h.stride, workers) || a.hash == 1 {
      forall f: (string, nat) -> nat | PositiveHash(f) && AllHonest(h.counted, f, workers) ensures IsMinimum(f, h, a) {
        if a.hash == 1 {
          AnswerIsLeastSearched(s, a, f, workers);
        } else {
          AnswerIsMinimum(s, a, f, workers);
        }
      }
    } else {
      AnsweredIsCounted(s, a);
      AnswerIsLeastSearched(s, a, hash, workers);
      HonestAreStaffed(a.id, h, hash, workers);
      var i: nat :| i < h.stride && !SmallRest(h.upper, h.stride, workers, i);
      var m := LargeRestMisses(h.upper, h.stride, workers, i);
      UnsearchedCouldBeLess(s, a, hash, workers, m);
    }
  }

  /** One request for `upper`, at most 10000, and one miner, who returns `hash` and `nonce`. */
  lemma OneMiner(upper: nat, hash: nat, nonce: nat) returns (s: Sched)
    requires upper <= 10000 && 0 < hash
    ensures Reachable(s) && s.answers == [Answer(1, hash, nonce)] && 1 in s.hist
    ensures var h := s.hist[1];
      h.data == "" && h.upper == upper && h.stride == 1
      && h.counted == [Counted(Piece(1, "", 0, upper), hash, nonce)]
  {
    assert Run(Init(), []) == Ok(Init());
    s := ReachableExtends(Init(), Request(1, "", upper, 0));
    assert Pieces(upper, 1) == [Range(0, upper)];
    assert s.pending == [Piece(1, "", 0, upper)];
    s := ReachableExtends(s, Join(2));
    s := ReachableExtends(s, Trigger);
    assert s.miners[2] == Miner(1, "", 0, upper);
    s := ReachableExtends(s, Event.Result(2, hash, nonce));
  }

  /** One miner, three goroutines, and the bound 22: seven nonces each, which leaves out 22. */
  lemma LastNonceIsMissed() returns (s: Sched, a: Answer, hash: (string, nat) -> nat, workers: Range -> nat)
    ensures Reachable(s) && a in s.answers && a.id in s.hist && s.hist[a.id].upper == 22 && s.hist[a.id].stride == 1
    ensures workers(Range(0, 22)) == 3 && FromPiece(s.hist[a.id], a) && !Searched(22, 22, 1, workers)
    ensures PositiveHash(hash) && AllHonest(s.hist[a.id].counted, hash, workers) && !IsMinimum(hash, s.hist[a.id], a)
  {
    hash, workers := (data, n) => if n == 22 then 1 else 2, r => 3;
    s := OneMiner(22, 2, 0);
    a := Answer(1, 2, 0);
    assert Pieces(22, 1) == [Range(0, 22)];
    assert s.hist[1].counted[0] == Counted(Piece(1, "", 0, 22), 2, 0);
    assert LastSearched(Range(0, 22), 3) == 21;
    var f := (n: nat) => hash("", n);
    assert f(22) == 1;
    forall x | x in s.hist[1].counted ensures Honest(x, hash, workers) {
      assert Best(n => hash("", n), 0, 21, 2, 0);
    }
  }
}
