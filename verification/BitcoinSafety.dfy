/** What every reachable state of the scheduler satisfies. */
module BitcoinSafety {
  import opened Collections
  import opened BitcoinRanges
  import opened BitcoinScheduler

  /** `freeMiners` lists, without repetition, exactly the miners that have nothing to do. */
  ghost predicate FreeOk(s: Sched) {
    && NoDup(s.freeMiners)
    && (forall id | id in s.freeMiners :: id in s.miners && s.miners[id].clientID == 0)
    && (forall id | id in s.miners && s.miners[id].clientID == 0 :: id in s.freeMiners)
    && s.miners.Keys <= s.joined
  }

  ghost predicate KnownOk(s: Sched) {
    && (forall c | c in s.hist :: 0 < c)
    && s.tasks.Keys <= s.hist.Keys
    && (forall p | p in s.pending :: p.id in s.hist)
    && (forall id | id in s.miners && s.miners[id].clientID != 0 :: s.miners[id].clientID in s.hist)
  }

  /** The piece results counted so far have their minimum at (`h`, `n`). */
  predicate IsFirst(counted: seq<Counted>, k: nat, h: nat, n: nat)
    requires k < |counted|
  {
    counted[k].hash == h && counted[k].nonce == n && forall j | 0 <= j < k :: h < counted[j].hash
  }

  /** The first of the counted results that has the least hash. */
  ghost predicate LeastCounted(counted: seq<Counted>, h: nat, n: nat) {
    && (exists k :: 0 <= k < |counted| && IsFirst(counted, k, h, n))
    && (forall x | x in counted :: h <= x.hash)
  }

  /** Each piece of request `c` is pending, with a miner, counted, or given up. */
  ghost predicate Balanced(s: Sched, c: int)
    requires c in s.hist
  {
    s.hist[c].pieces == PendingOf(s.pending, c) + BusyOf(s.miners, c) + CountedOf(s.hist[c].counted) + s.hist[c].dropped
  }

  ghost predicate TaskOk(t: Task, h: History) {
    && t.lost == h.lost
    && t.miners == |h.pieces| - |h.counted| && 0 < t.miners
    && (h.counted == [] ==> t.minHash == 0)
    && (h.counted != [] ==> LeastCounted(h.counted, t.minHash, t.minNonce))
  }

  ghost predicate RequestOk(s: Sched, c: int)
    requires c in s.hist
  {
    var h := s.hist[c];
    && Balanced(s, c)
    && (c in s.tasks ==> TaskOk(s.tasks[c], h))
    && (c !in s.tasks ==> |h.counted| == |h.pieces|)
    && (!h.lost ==> h.dropped == multiset{})
    && (forall x | x in h.counted :: 0 < x.hash)
  }

  /** Answers: one for each finished request whose client was not lost, and no other. */
  ghost predicate AnswersOk(s: Sched) {
    && (forall i, j | 0 <= i < j < |s.answers| :: s.answers[i].id != s.answers[j].id)
    && (forall a | a in s.answers :: a.id in s.hist && a.id !in s.tasks && !s.hist[a.id].lost
          && LeastCounted(s.hist[a.id].counted, a.hash, a.nonce))
    && (forall c | c in s.hist && c !in s.tasks && !s.hist[c].lost :: exists a :: a in s.answers && a.id == c)
  }

  ghost predicate NothingDropped(s: Sched) {
    forall c | c in s.hist :: s.hist[c].dropped == multiset{}
  }

  predicate SomeBusy(s: Sched) {
    exists id | id in s.miners :: s.miners[id].clientID != 0
  }

  /** As long as no piece was given up, work and a free miner do not wait for each other. */
  ghost predicate NoStall(s: Sched) {
    NothingDropped(s) && s.pending != [] && s.freeMiners != [] ==> 0 < s.trigger || SomeBusy(s)
  }

  ghost predicate BooksOk(s: Sched) {
    && FreeOk(s) && KnownOk(s) && AnswersOk(s)
    && (forall c | c in s.hist :: RequestOk(s, c))
  }

  ghost predicate Inv(s: Sched) {
    BooksOk(s) && NoStall(s)
  }

  // ---- counting ----

  lemma {:induction false} CountedSize(counted: seq<Counted>)
    ensures |CountedOf(counted)| == |counted|
    decreases |counted|
  {
    if counted != [] {
      CountedSize(counted[..|counted| - 1]);
    }
  }

  lemma {:induction false} PendingNone(pending: seq<Piece>, c: int)
    requires forall p | p in pending :: p.id != c
    ensures PendingOf(pending, c) == multiset{}
    decreases |pending|
  {
    if pending != [] {
      PendingNone(pending[1..], c);
    }
  }

  lemma {:induction false} BusyNone(miners: map<int, Miner>, c: int)
    requires forall id | id in miners :: miners[id].clientID != c
    ensures BusyOf(miners, c) == multiset{}
    decreases |miners|
  {
    if miners != map[] {
      var id := PickKey(miners);
      RemoveShrinks(miners, id);
      BusyNone(miners - {id}, c);
      BusyRemove(miners, id, c);
    } else {
      assert Shares(miners, c) == map[];
    }
  }

  lemma BusyHas(miners: map<int, Miner>, id: int)
    requires id in miners
    ensures PieceOf(miners[id]) in BusyOf(miners, miners[id].clientID)
  {
    BusyRemove(miners, id, miners[id].clientID);
  }

  /** A miner without a client counts for no request. */
  lemma BusyPutFree(miners: map<int, Miner>, id: int, m: Miner, c: int)
    requires c != 0 && m.clientID == 0
    requires id in miners ==> miners[id].clientID == 0
    ensures BusyOf(miners[id := m], c) == BusyOf(miners, c)
  {
    BusyPut(miners, id, m, c);
    if id in miners {
      BusyRemove(miners, id, c);
    } else {
      assert miners - {id} == miners;
    }
  }

  /** A task is gone only when nothing of it is left; so whatever is pending or busy has one. */
  lemma FinishedIsEmpty(s: Sched, c: int)
    requires c in s.hist && RequestOk(s, c) && c !in s.tasks
    ensures PendingOf(s.pending, c) == BusyOf(s.miners, c) == s.hist[c].dropped == multiset{}
    ensures CountedOf(s.hist[c].counted) == s.hist[c].pieces
  {
    CountedSize(s.hist[c].counted);
    assert |PendingOf(s.pending, c)| + |BusyOf(s.miners, c)| + |s.hist[c].dropped| == 0;
  }

  lemma PendingHasTask(s: Sched, p: Piece)
    requires BooksOk(s) && p in s.pending
    ensures p.id in s.hist && p.id in s.tasks
  {
    if p.id !in s.tasks {
      FinishedIsEmpty(s, p.id);
      PendingHas(s.pending, p);
    }
  }

  lemma BusyHasTask(s: Sched, id: int)
    requires BooksOk(s) && id in s.miners && s.miners[id].clientID != 0
    ensures s.miners[id].clientID in s.hist && s.miners[id].clientID in s.tasks
  {
    if s.miners[id].clientID !in s.tasks {
      FinishedIsEmpty(s, s.miners[id].clientID);
      BusyHas(s.miners, id);
    }
  }

  /** A request of which a step at most moves pieces between the queue and the miners. */
  lemma RequestFrame(s: Sched, t: Sched, c: int)
    requires c in s.hist && RequestOk(s, c)
    requires c in t.hist && t.hist[c] == s.hist[c]
    requires c in t.tasks <==> c in s.tasks
    requires c in t.tasks ==> t.tasks[c] == s.tasks[c]
    requires PendingOf(t.pending, c) + BusyOf(t.miners, c) == PendingOf(s.pending, c) + BusyOf(s.miners, c)
    ensures RequestOk(t, c)
  {
  }

  // ---- a request arrives ----

  lemma OthersPending(pending: seq<Piece>, pieces: seq<Piece>, id: int, c: int)
    requires c != id && forall p | p in pieces :: p.id == id
    ensures PendingOf(pending + pieces, c) == PendingOf(pending, c)
  {
    PendingAppend(pending, pieces, c);
    PendingAll(pieces, id, c);
  }

  lemma RequestKeepsOld(s: Sched, id: int, data: string, upper: nat, stride: nat, c: int)
    requires 0 < stride && c in s.hist && c != id && RequestOk(s, c)
    ensures RequestOk(OnRequest(s, id, data, upper, stride), c)
  {
    OthersPending(s.pending, ToPieces(id, data, Pieces(upper, stride)), id, c);
    RequestFrame(s, OnRequest(s, id, data, upper, stride), c);
  }

  lemma RequestStarts(s: Sched, id: int, data: string, upper: nat, stride: nat)
    requires KnownOk(s) && 0 < id && id !in s.hist && 0 < stride
    ensures RequestOk(OnRequest(s, id, data, upper, stride), id)
  {
    var pieces := ToPieces(id, data, Pieces(upper, stride));
    PendingAppend(s.pending, pieces, id);
    PendingAll(pieces, id, id);
    PendingNone(s.pending, id);
    BusyNone(s.miners, id);
    assert |multiset(pieces)| == stride;
  }

  lemma RequestKeepsRest(s: Sched, id: int, data: string, upper: nat, stride: nat)
    requires FreeOk(s) && KnownOk(s) && AnswersOk(s) && 0 < id && id !in s.hist && 0 < stride
    ensures var t := OnRequest(s, id, data, upper, stride);
      FreeOk(t) && KnownOk(t) && AnswersOk(t) && NoStall(t)
  {
  }

  lemma RequestKeepsInv(s: Sched, id: int, data: string, upper: nat, stride: nat)
    requires Inv(s) && 0 < id && id !in s.hist && 0 < stride
    ensures Inv(OnRequest(s, id, data, upper, stride))
  {
    var t := OnRequest(s, id, data, upper, stride);
    RequestKeepsRest(s, id, data, upper, stride);
    forall c | c in t.hist ensures RequestOk(t, c) {
      if c == id {
        RequestStarts(s, id, data, upper, stride);
      } else {
        RequestKeepsOld(s, id, data, upper, stride, c);
      }
    }
  }

  // ---- a miner joins ----

  lemma JoinKeepsInv(s: Sched, id: int)
    requires Inv(s) && 0 < id && id !in s.joined
    ensures Inv(OnJoin(s, id))
  {
    var t := OnJoin(s, id);
    forall c | c in t.hist ensures RequestOk(t, c) {
      BusyPutFree(s.miners, id, Miner(0, "", 0, 0), c);
      RequestFrame(s, t, c);
    }
  }

  // ---- a trigger is consumed ----

  lemma DiscardKeepsRequest(s: Sched, c: int)
    requires s.pending != [] && s.pending[0].id in s.hist && s.hist[s.pending[0].id].lost
    requires c in s.hist && RequestOk(s, c)
    ensures RequestOk(Discard(s), c)
  {
    var t, p := Discard(s), s.pending[0];
    if c != p.id {
      RequestFrame(s, t, c);
    } else {
      MoveOne(PendingOf(t.pending, c), BusyOf(s.miners, c), CountedOf(s.hist[c].counted), s.hist[c].dropped, p);
      assert Balanced(t, c);
    }
  }

  lemma MoveOne(pending: multiset<Piece>, busy: multiset<Piece>, counted: multiset<Piece>, dropped: multiset<Piece>,
                p: Piece)
    ensures (multiset{p} + pending) + busy + counted + dropped == pending + busy + counted + (dropped + multiset{p})
  {
  }

  lemma DiscardKeepsRest(s: Sched)
    requires FreeOk(s) && KnownOk(s) && AnswersOk(s)
    requires s.pending != [] && s.pending[0].id in s.hist
    ensures var t := Discard(s); FreeOk(t) && KnownOk(t) && AnswersOk(t) && NoStall(t)
  {
    var t, p := Discard(s), s.pending[0];
    assert p in t.hist[p.id].dropped;
  }

  lemma DispatchMoves(s: Sched, c: int)
    requires s.pending != [] && s.freeMiners != [] && c != 0
    requires s.freeMiners[0] in s.miners && s.miners[s.freeMiners[0]].clientID == 0
    ensures PendingOf(s.pending, c) == One(s.pending[0], c) + PendingOf(Dispatch(s).pending, c)
    ensures BusyOf(Dispatch(s).miners, c) == BusyOf(s.miners, c) + One(s.pending[0], c)
  {
    var t, id := Dispatch(s), s.freeMiners[0];
    BusyPut(s.miners, id, t.miners[id], c);
    BusyRemove(s.miners, id, c);
    assert PieceOf(t.miners[id]) == s.pending[0];
  }

  lemma DispatchKeepsRequest(s: Sched, c: int)
    requires s.pending != [] && s.freeMiners != []
    requires s.freeMiners[0] in s.miners && s.miners[s.freeMiners[0]].clientID == 0
    requires c in s.hist && c != 0 && RequestOk(s, c)
    ensures RequestOk(Dispatch(s), c)
  {
    DispatchMoves(s, c);
    RequestFrame(s, Dispatch(s), c);
  }

  lemma DispatchKeepsFree(s: Sched)
    requires FreeOk(s) && KnownOk(s) && s.pending != [] && s.freeMiners != []
    ensures s.freeMiners[0] in s.miners && s.miners[s.freeMiners[0]].clientID == 0
    ensures FreeOk(Dispatch(s)) && KnownOk(Dispatch(s)) && SomeBusy(Dispatch(s))
  {
    var t, id := Dispatch(s), s.freeMiners[0];
    assert s.freeMiners == [id] + t.freeMiners;
    assert t.miners.Keys == s.miners.Keys + {id};
    assert s.pending[0] in s.pending && 0 < s.pending[0].id;
    assert id in t.miners && t.miners[id].clientID != 0;
  }

  lemma DispatchKeepsRequests(s: Sched)
    requires s.pending != [] && s.freeMiners != []
    requires s.freeMiners[0] in s.miners && s.miners[s.freeMiners[0]].clientID == 0
    requires forall c | c in s.hist :: 0 < c && RequestOk(s, c)
    ensures forall c | c in Dispatch(s).hist :: RequestOk(Dispatch(s), c)
  {
    forall c | c in s.hist ensures RequestOk(Dispatch(s), c) {
      DispatchKeepsRequest(s, c);
    }
  }

  lemma DispatchKeepsInv(s: Sched)
    requires BooksOk(s) && s.pending != [] && s.freeMiners != []
    ensures Inv(Dispatch(s))
  {
    DispatchKeepsFree(s);
    DispatchKeepsRequests(s);
  }

  lemma DiscardKeepsInv(s: Sched)
    requires BooksOk(s) && s.pending != [] && s.pending[0].id in s.hist && s.hist[s.pending[0].id].lost
    ensures Inv(Discard(s))
  {
    DiscardKeepsRest(s);
    var t := Discard(s);
    forall c | c in t.hist ensures RequestOk(t, c) {
      assert RequestOk(s, c);
      DiscardKeepsRequest(s, c);
    }
  }

  lemma ConsumeKeepsRequests(s: Sched)
    requires 0 < s.trigger && forall c | c in s.hist :: 0 < c && RequestOk(s, c)
    ensures forall c | c in s.hist :: RequestOk(s.(trigger := s.trigger - 1), c)
  {
    forall c | c in s.hist ensures RequestOk(s.(trigger := s.trigger - 1), c) {
      RequestFrame(s, s.(trigger := s.trigger - 1), c);
    }
  }

  lemma ConsumeKeepsLists(s: Sched)
    requires FreeOk(s) && KnownOk(s) && 0 < s.trigger
    ensures FreeOk(s.(trigger := s.trigger - 1)) && KnownOk(s.(trigger := s.trigger - 1))
  {
  }

  lemma ConsumeKeepsAnswers(s: Sched)
    requires AnswersOk(s) && 0 < s.trigger
    ensures AnswersOk(s.(trigger := s.trigger - 1))
  {
  }

  lemma ConsumeKeepsBooks(s: Sched)
    requires BooksOk(s) && 0 < s.trigger
    ensures BooksOk(s.(trigger := s.trigger - 1))
  {
    ConsumeKeepsRequests(s);
    ConsumeKeepsLists(s);
    ConsumeKeepsAnswers(s);
  }

  lemma TriggerKeepsInv(s0: Sched)
    requires Inv(s0)
    ensures OnTrigger(s0).Ok? && Inv(OnTrigger(s0).s)
  {
    if s0.trigger != 0 {
      var s := s0.(trigger := s0.trigger - 1);
      ConsumeKeepsBooks(s0);
      if s.freeMiners != [] && s.pending != [] {
        PendingHasTask(s, s.pending[0]);
        assert RequestOk(s, s.pending[0].id);
        if s.tasks[s.pending[0].id].lost {
          DiscardKeepsInv(s);
        } else {
          DispatchKeepsInv(s);
        }
      }
    }
  }

  // ---- a result arrives ----

  lemma ImproveIsLeast(t: Task, h: History, x: Counted)
    requires 0 < x.hash && (forall y | y in h.counted :: 0 < y.hash)
    requires h.counted == [] ==> t.minHash == 0
    requires h.counted != [] ==> LeastCounted(h.counted, t.minHash, t.minNonce)
    ensures var t' := Improve(t, x.hash, x.nonce); LeastCounted(h.counted + [x], t'.minHash, t'.minNonce)
  {
    var t' := Improve(t, x.hash, x.nonce);
    var all := h.counted + [x];
    assert all[|h.counted|] == x;
    if h.counted != [] {
      var k :| 0 <= k < |h.counted| && IsFirst(h.counted, k, t.minHash, t.minNonce);
      if t' == t {
        assert IsFirst(all, k, t.minHash, t.minNonce);
      }
    }
    forall y | y in all ensures t'.minHash <= y.hash {
      assert y == x || y in h.counted;
    }
    if t' != t || h.counted == [] {
      assert forall j | 0 <= j < |h.counted| :: all[j] in h.counted;
      assert IsFirst(all, |h.counted|, x.hash, x.nonce);
    }
  }

  lemma ResultTask(t: Task, h: History, x: Counted)
    requires TaskOk(t, h) && 0 < x.hash && (forall y | y in h.counted :: 0 < y.hash)
    ensures var t', h' := Improve(t.(miners := t.miners - 1), x.hash, x.nonce), Count(h, x);
      && (t'.miners != 0 ==> TaskOk(t', h')) && (t'.miners == 0 ==> |h'.counted| == |h'.pieces|)
      && t'.lost == t.lost && h'.lost == h.lost
      && LeastCounted(h'.counted, t'.minHash, t'.minNonce)
      && (forall y | y in h'.counted :: 0 < y.hash)
  {
    ImproveIsLeast(t, h, x);
  }

  /** The miner of `id` stops counting for its request. */
  lemma BusyReleased(miners: map<int, Miner>, id: int, c: int)
    requires id in miners && c != 0
    ensures BusyOf(miners, c) == BusyOf(miners[id := miners[id].(clientID := 0)], c) + One(PieceOf(miners[id]), c)
  {
    BusyPut(miners, id, miners[id].(clientID := 0), c);
    BusyRemove(miners, id, c);
  }

  lemma CountedSnoc(counted: seq<Counted>, x: Counted)
    ensures CountedOf(counted + [x]) == CountedOf(counted) + multiset{x.piece}
  {
    assert (counted + [x])[..|counted|] == counted;
  }

  lemma DeliverKeepsRequest(s: Sched, id: int, hash: nat, nonce: nat, c: int)
    requires id in s.miners && s.miners[id].clientID in s.tasks && s.miners[id].clientID in s.hist
    requires c in s.hist && c != 0 && RequestOk(s, c) && 0 < hash
    ensures RequestOk(Deliver(s, id, hash, nonce), c)
  {
    var t, m := Deliver(s, id, hash, nonce), s.miners[id];
    BusyReleased(s.miners, id, c);
    if c != m.clientID {
      RequestFrame(s, t, c);
    } else {
      DeliverKeepsBalance(s, id, hash, nonce);
      ResultTask(s.tasks[c], s.hist[c], Counted(PieceOf(m), hash, nonce));
    }
  }

  lemma DeliverKeepsBalance(s: Sched, id: int, hash: nat, nonce: nat)
    requires id in s.miners && s.miners[id].clientID in s.tasks && s.miners[id].clientID in s.hist
    requires s.miners[id].clientID != 0 && Balanced(s, s.miners[id].clientID)
    ensures Balanced(Deliver(s, id, hash, nonce), s.miners[id].clientID)
  {
    var m := s.miners[id];
    BusyReleased(s.miners, id, m.clientID);
    CountedSnoc(s.hist[m.clientID].counted, Counted(PieceOf(m), hash, nonce));
  }

  lemma DeliverKeepsFree(s: Sched, id: int, hash: nat, nonce: nat)
    requires FreeOk(s) && KnownOk(s) && id in s.miners && s.miners[id].clientID != 0
    requires s.miners[id].clientID in s.tasks && s.miners[id].clientID in s.hist
    ensures FreeOk(Deliver(s, id, hash, nonce)) && KnownOk(Deliver(s, id, hash, nonce))
  {
    assert id !in s.freeMiners;
  }

  lemma DeliverKeepsAnswers(s: Sched, id: int, hash: nat, nonce: nat)
    requires AnswersOk(s) && 0 < hash && id in s.miners
    requires s.miners[id].clientID in s.tasks && s.miners[id].clientID in s.hist
    requires RequestOk(s, s.miners[id].clientID)
    ensures AnswersOk(Deliver(s, id, hash, nonce))
  {
    var t, c := Deliver(s, id, hash, nonce), s.miners[id].clientID;
    ResultTask(s.tasks[c], s.hist[c], Counted(PieceOf(s.miners[id]), hash, nonce));
    if c !in t.tasks && !t.hist[c].lost {
      assert t.answers[|s.answers|].id == c;
    }
    forall d | d in t.hist && d !in t.tasks && !t.hist[d].lost ensures exists a :: a in t.answers && a.id == d {
      if d != c {
        var a :| a in s.answers && a.id == d;
        assert a in t.answers;
      }
    }
  }

  lemma ResultKeepsInv(s: Sched, id: int, hash: nat, nonce: nat)
    requires Inv(s) && 0 < hash
    ensures OnResult(s, id, hash, nonce).Ok? && Inv(OnResult(s, id, hash, nonce).s)
  {
    if id in s.miners && s.miners[id].clientID != 0 {
      BusyHasTask(s, id);
      assert RequestOk(s, s.miners[id].clientID);
      DeliverKeepsFree(s, id, hash, nonce);
      DeliverKeepsAnswers(s, id, hash, nonce);
      var t := Deliver(s, id, hash, nonce);
      forall c | c in t.hist ensures RequestOk(t, c) {
        DeliverKeepsRequest(s, id, hash, nonce, c);
      }
    }
  }

  // ---- a connection is lost ----

  lemma RequeueKeepsRequest(s: Sched, e: int, c: int)
    requires e in s.miners && c in s.hist && RequestOk(s, c)
    ensures RequestOk(Requeue(s, e), c)
  {
    var t, p := Requeue(s, e), PieceOf(s.miners[e]);
    BusyRemove(s.miners, e, c);
    assert t.pending[1..] == s.pending;
    assert PendingOf(t.pending, c) == One(p, c) + PendingOf(s.pending, c);
    RequestFrame(s, t, c);
  }

  lemma RequeueKeepsRest(s: Sched, e: int)
    requires FreeOk(s) && KnownOk(s) && AnswersOk(s) && e in s.miners && s.miners[e].clientID != 0
    ensures var t := Requeue(s, e); FreeOk(t) && KnownOk(t) && AnswersOk(t) && NoStall(t)
  {
    assert e !in s.freeMiners;
  }

  /** Although it stops early, the loop leaves exactly the living, as at most one is dead. */
  lemma {:induction false} RemoveFirstDeadRemovesAll(free: seq<int>, miners: map<int, Miner>, e: int)
    requires NoDup(free) && e !in miners && forall id | id in free :: id in miners || id == e
    ensures var r := RemoveFirstDead(free, miners);
      NoDup(r) && (forall id | id in r :: id in free && id != e) && (forall id | id in free && id != e :: id in r)
    decreases |free|
  {
    if free != [] {
      assert free == [free[0]] + free[1..];
      if free[0] in miners {
        RemoveFirstDeadRemovesAll(free[1..], miners, e);
        assert free[0] !in RemoveFirstDead(free[1..], miners);
      }
    }
  }

  /** The piece that miner `e` had for the lost client `c` is given up. */
  lemma ForgetMovesPiece(s: Sched, e: int, c: int)
    requires e in s.miners && c == s.miners[e].clientID != 0 && c in s.hist && Balanced(s, c)
    ensures Balanced(Forget(s, e), c)
  {
    BusyRemove(s.miners, e, c);
  }

  lemma ForgetKeepsRequest(s: Sched, e: int, c: int)
    requires e in s.miners
    requires s.miners[e].clientID != 0 ==> s.miners[e].clientID in s.hist && s.hist[s.miners[e].clientID].lost
    requires c in s.hist && c != 0 && RequestOk(s, c)
    ensures RequestOk(Forget(s, e), c)
  {
    if c != s.miners[e].clientID {
      BusyRemove(s.miners, e, c);
      RequestFrame(s, Forget(s, e), c);
    } else {
      ForgetMovesPiece(s, e, c);
    }
  }

  lemma ForgetKeepsFree(s: Sched, e: int)
    requires FreeOk(s) && KnownOk(s) && e in s.miners
    ensures FreeOk(Forget(s, e)) && KnownOk(Forget(s, e))
    ensures forall id | id in Forget(s, e).freeMiners :: id in s.freeMiners
  {
    RemoveFirstDeadRemovesAll(s.freeMiners, s.miners - {e}, e);
  }

  lemma ForgetKeepsNoStall(s: Sched, e: int)
    requires FreeOk(s) && KnownOk(s) && NoStall(s) && e in s.miners
    ensures NoStall(Forget(s, e))
  {
    var t := Forget(s, e);
    ForgetKeepsFree(s, e);
    if s.miners[e].clientID == 0 {
      if t.freeMiners != [] {
        assert t.freeMiners[0] in s.freeMiners;
      }
      if SomeBusy(s) {
        var id :| id in s.miners && s.miners[id].clientID != 0;
        assert id in t.miners;
      }
    } else {
      assert PieceOf(s.miners[e]) in t.hist[s.miners[e].clientID].dropped;
    }
  }

  lemma LoseClientKeepsInv(s: Sched, e: int)
    requires Inv(s) && e in s.tasks && e in s.hist
    ensures Inv(LoseClient(s, e))
  {
    var t := LoseClient(s, e);
    forall c | c in t.hist ensures RequestOk(t, c) {
      assert RequestOk(s, c);
      assert Balanced(t, c);
    }
    LoseClientKeepsRest(s, e);
  }

  lemma LoseClientKeepsRest(s: Sched, e: int)
    requires FreeOk(s) && KnownOk(s) && AnswersOk(s) && NoStall(s) && e in s.tasks && e in s.hist
    ensures var t := LoseClient(s, e); FreeOk(t) && KnownOk(t) && AnswersOk(t) && NoStall(t)
  {
    var t := LoseClient(s, e);
    forall c | c in t.hist && c !in t.tasks && !t.hist[c].lost ensures exists a :: a in t.answers && a.id == c {
      assert c in s.hist && c !in s.tasks && !s.hist[c].lost;
    }
    if NothingDropped(t) {
      forall c | c in s.hist ensures s.hist[c].dropped == multiset{} {
        assert t.hist[c].dropped == multiset{};
      }
    }
  }

  lemma RequeueKeepsInv(s: Sched, e: int)
    requires Inv(s) && e in s.miners && s.miners[e].clientID != 0
    ensures Inv(Requeue(s, e))
  {
    BusyHasTask(s, e);
    RequeueKeepsRest(s, e);
    var t := Requeue(s, e);
    forall c | c in t.hist ensures RequestOk(t, c) {
      assert RequestOk(s, c);
      RequeueKeepsRequest(s, e, c);
    }
  }

  lemma ForgetKeepsInv(s: Sched, e: int)
    requires Inv(s) && e in s.miners
    requires s.miners[e].clientID != 0 ==> s.miners[e].clientID in s.hist && s.hist[s.miners[e].clientID].lost
    ensures Inv(Forget(s, e))
  {
    ForgetKeepsFree(s, e);
    ForgetKeepsNoStall(s, e);
    ForgetKeepsAnswers(s, e);
    var t := Forget(s, e);
    forall c | c in t.hist ensures RequestOk(t, c) {
      assert RequestOk(s, c);
      ForgetKeepsRequest(s, e, c);
    }
  }

  lemma ForgetKeepsAnswers(s: Sched, e: int)
    requires AnswersOk(s) && e in s.miners && (s.miners[e].clientID != 0 ==> s.miners[e].clientID in s.hist)
    ensures AnswersOk(Forget(s, e))
  {
  }

  lemma ErrorKeepsInv(s: Sched, e: int)
    requires Inv(s)
    ensures OnError(s, e).Ok? && Inv(OnError(s, e).s)
  {
    if e in s.miners {
      var c := s.miners[e].clientID;
      if c != 0 {
        BusyHasTask(s, e);
        assert RequestOk(s, c);
      }
      if c != 0 && !s.tasks[c].lost {
        RequeueKeepsInv(s, e);
      } else {
        ForgetKeepsInv(s, e);
      }
    } else if e in s.tasks {
      LoseClientKeepsInv(s, e);
    }
  }

  // ---- runs ----

  lemma HandleKeepsInv(s: Sched, ev: Event)
    requires Inv(s) && Allowed(s, ev)
    ensures Handle(s, ev).Ok? && Inv(Handle(s, ev).s)
  {
    match ev
    case Request(id, data, upper, log10) =>
      RequestKeepsInv(s, id, data, upper, Stride(upper, log10, |s.freeMiners|));
    case Trigger => TriggerKeepsInv(s);
    case Join(id) => JoinKeepsInv(s, id);
    case Result(id, hash, nonce) => ResultKeepsInv(s, id, hash, nonce);
    case Error(e) => ErrorKeepsInv(s, e);
  }

  /** No run dereferences nil, and all of them keep the invariant. */
  lemma {:induction false} RunKeepsInv(s: Sched, events: seq<Event>)
    requires Inv(s)
    ensures Run(s, events).Ok? && Inv(Run(s, events).s)
    decreases |events|
  {
    if events != [] {
      if Allowed(s, events[0]) {
        HandleKeepsInv(s, events[0]);
        RunKeepsInv(Handle(s, events[0]).s, events[1..]);
      } else {
        RunKeepsInv(s, events[1..]);
      }
    }
  }
}
