/** First come, first served: a piece is taken from the queue for the first time only after all
    the pieces that were asked for before it, and idle miners are given work in their order. */
module BitcoinOrder {
  import opened Collections
  import opened BitcoinRanges
  import opened BitcoinScheduler
  import opened BitcoinTheorems

  function PiecesOf(s: Sched, c: int): seq<Piece> {
    if c in s.hist then ToPieces(c, s.hist[c].data, Pieces(s.hist[c].upper, s.hist[c].stride)) else []
  }

  function Blocks(s: Sched): seq<seq<Piece>> {
    seq(|s.asked|, k requires 0 <= k < |s.asked| => PiecesOf(s, s.asked[k]))
  }

  function Flat<T>(blocks: seq<seq<T>>): seq<T> {
    if blocks == [] then [] else Flat(blocks[..|blocks| - 1]) + blocks[|blocks| - 1]
  }

  /** All pieces ever asked for, in the order of the requests. */
  function All(s: Sched): seq<Piece> {
    Flat(Blocks(s))
  }

  ghost predicate AskedOk(s: Sched) {
    && (forall k | 0 <= k < |s.asked| :: s.asked[k] in s.hist)
    && (forall i, j | 0 <= i < j < |s.asked| :: s.asked[i] != s.asked[j])
  }

  /** The last `n` pieces of the queue are the last ones asked for, and were never taken out of
      it; everything asked for before them was, and so were the pieces queued again. */
  ghost predicate InTurn(pending: seq<Piece>, all: seq<Piece>, tried: set<Piece>, n: nat) {
    && n <= |pending| && n <= |all|
    && pending[|pending| - n..] == all[|all| - n..]
    && (forall k | 0 <= k < |pending| - n :: pending[k] in tried)
    && (forall k | 0 <= k < |all| - n :: all[k] in tried)
  }

  ghost predicate Fifo(pending: seq<Piece>, all: seq<Piece>, tried: set<Piece>) {
    exists n: nat :: InTurn(pending, all, tried, n)
  }

  predicate BusyTried(s: Sched) {
    forall id | id in s.miners && s.miners[id].clientID != 0 :: PieceOf(s.miners[id]) in s.tried
  }

  ghost predicate QueueOk(s: Sched) {
    AskedOk(s) && BusyTried(s) && Fifo(s.pending, All(s), s.tried)
  }

  // ---- the requests stay as they were ----

  lemma SamePieces(s: Sched, t: Sched, c: int)
    requires Grows(s, t) && c in s.hist
    ensures c in t.hist && PiecesOf(t, c) == PiecesOf(s, c)
  {
    assert Later(s.hist[c], t.hist[c]);
  }

  lemma SameAll(s: Sched, t: Sched)
    requires AskedOk(s) && Grows(s, t) && t.asked == s.asked
    ensures AskedOk(t) && All(t) == All(s)
  {
    forall k | 0 <= k < |s.asked| ensures s.asked[k] in t.hist && Blocks(t)[k] == Blocks(s)[k] {
      assert s.asked[k] in s.hist;
      SamePieces(s, t, s.asked[k]);
    }
    assert Blocks(t) == Blocks(s);
  }

  lemma MoreAll(s: Sched, t: Sched, id: int)
    requires AskedOk(s) && Grows(s, t) && t.asked == s.asked + [id] && id !in s.hist && id in t.hist
    ensures AskedOk(t) && All(t) == All(s) + PiecesOf(t, id)
  {
    var n := |s.asked|;
    forall k | 0 <= k < n ensures t.asked[k] == s.asked[k] && s.asked[k] in t.hist && Blocks(t)[k] == Blocks(s)[k] {
      assert s.asked[k] in s.hist;
      SamePieces(s, t, s.asked[k]);
    }
    assert Blocks(t)[..n] == Blocks(s);
    assert forall k | 0 <= k < n :: t.asked[k] in s.hist;
  }

  // ---- steps ----

  lemma Append(pending: seq<Piece>, all: seq<Piece>, tried: set<Piece>, more: seq<Piece>)
    requires Fifo(pending, all, tried)
    ensures Fifo(pending + more, all + more, tried)
  {
    var n: nat :| InTurn(pending, all, tried, n);
    assert InTurn(pending + more, all + more, tried, n + |more|);
  }

  lemma TakeFirst(pending: seq<Piece>, all: seq<Piece>, tried: set<Piece>)
    requires Fifo(pending, all, tried) && pending != []
    ensures Fifo(pending[1..], all, tried + {pending[0]})
  {
    var n: nat :| InTurn(pending, all, tried, n);
    if n == |pending| {
      assert pending == all[|all| - n..];
      assert all[|all| - n] == pending[0];
    }
    assert InTurn(pending[1..], all, tried + {pending[0]}, Min(n, |pending| - 1));
  }

  lemma PutBack(pending: seq<Piece>, all: seq<Piece>, tried: set<Piece>, p: Piece)
    requires Fifo(pending, all, tried) && p in tried
    ensures Fifo([p] + pending, all, tried)
  {
    var n: nat :| InTurn(pending, all, tried, n);
    assert InTurn([p] + pending, all, tried, n);
  }

  lemma RequestInTurn(s: Sched, id: int, data: string, upper: nat, stride: nat)
    requires QueueOk(s) && id !in s.hist && 0 < stride
    ensures QueueOk(OnRequest(s, id, data, upper, stride))
  {
    var t := OnRequest(s, id, data, upper, stride);
    RequestGrows(s, id, data, upper, stride);
    MoreAll(s, t, id);
    Append(s.pending, All(s), s.tried, PiecesOf(t, id));
  }

  lemma RequestGrows(s: Sched, id: int, data: string, upper: nat, stride: nat)
    requires id !in s.hist && 0 < stride
    ensures Grows(s, OnRequest(s, id, data, upper, stride))
  {
  }

  lemma TakenInTurn(s: Sched, t: Sched)
    requires QueueOk(s) && Grows(s, t) && t.asked == s.asked && s.pending != [] && BusyTried(t)
    requires t.pending == s.pending[1..] && t.tried == s.tried + {s.pending[0]}
    ensures QueueOk(t)
  {
    SameAll(s, t);
    TakeFirst(s.pending, All(s), s.tried);
  }

  lemma UntouchedInTurn(s: Sched, t: Sched)
    requires QueueOk(s) && Grows(s, t) && t.asked == s.asked && t.pending == s.pending && t.tried == s.tried
    requires BusyTried(t)
    ensures QueueOk(t)
  {
    SameAll(s, t);
  }

  lemma TriggerTakes(s: Sched)
    requires OnTrigger(s).Ok?
    ensures var t := OnTrigger(s).s;
      && t.asked == s.asked
      && if s.trigger == 0 || s.freeMiners == [] || s.pending == [] then
           t.pending == s.pending && t.tried == s.tried
         else
           t.pending == s.pending[1..] && t.tried == s.tried + {s.pending[0]}
  {
  }

  lemma TriggerInTurn(s: Sched)
    requires QueueOk(s) && OnTrigger(s).Ok?
    ensures QueueOk(OnTrigger(s).s)
  {
    var t := OnTrigger(s).s;
    TriggerGrows(s);
    TriggerTakes(s);
    TriggerBusy(s);
    if s.trigger == 0 || s.freeMiners == [] || s.pending == [] {
      UntouchedInTurn(s, t);
    } else {
      TakenInTurn(s, t);
    }
  }

  lemma TriggerBusy(s: Sched)
    requires BusyTried(s) && OnTrigger(s).Ok?
    ensures BusyTried(OnTrigger(s).s)
  {
  }

  lemma ErrorInTurn(s: Sched, e: int)
    requires QueueOk(s) && OnError(s, e).Ok?
    ensures QueueOk(OnError(s, e).s)
  {
    var t := OnError(s, e).s;
    ErrorGrows(s, e);
    if e in s.miners && s.miners[e].clientID != 0 && !s.tasks[s.miners[e].clientID].lost {
      SameAll(s, t);
      PutBack(s.pending, All(s), s.tried, PieceOf(s.miners[e]));
    } else {
      UntouchedInTurn(s, t);
    }
  }

  lemma JoinInTurn(s: Sched, id: int)
    requires QueueOk(s)
    ensures QueueOk(OnJoin(s, id))
  {
    UntouchedInTurn(s, OnJoin(s, id));
  }

  lemma ResultInTurn(s: Sched, id: int, hash: nat, nonce: nat)
    requires QueueOk(s) && OnResult(s, id, hash, nonce).Ok?
    ensures QueueOk(OnResult(s, id, hash, nonce).s)
  {
    var t := OnResult(s, id, hash, nonce).s;
    ResultGrows(s, id, hash, nonce);
    ResultBusy(s, id, hash, nonce);
    UntouchedInTurn(s, t);
  }

  lemma ResultBusy(s: Sched, id: int, hash: nat, nonce: nat)
    requires BusyTried(s) && OnResult(s, id, hash, nonce).Ok?
    ensures BusyTried(OnResult(s, id, hash, nonce).s)
  {
  }

  lemma {:induction false} RunInTurn(s: Sched, events: seq<Event>)
    requires QueueOk(s) && Run(s, events).Ok?
    ensures QueueOk(Run(s, events).s)
    decreases |events|
  {
    if events != [] {
      if Allowed(s, events[0]) {
        match events[0] {
          case Request(id, data, upper, log10) =>
            RequestInTurn(s, id, data, upper, Stride(upper, log10, |s.freeMiners|));
          case Trigger => TriggerInTurn(s);
          case Error(e) => ErrorInTurn(s, e);
          case Join(id) => JoinInTurn(s, id);
          case Result(id, hash, nonce) => ResultInTurn(s, id, hash, nonce);
        }
        RunInTurn(Handle(s, events[0]).s, events[1..]);
      } else {
        RunInTurn(s, events[1..]);
      }
    }
  }

  // ---- the promise ----

  lemma ReachableInTurn(s: Sched)
    requires Reachable(s)
    ensures QueueOk(s)
  {
    var events :| Run(Init(), events) == Ok(s);
    assert InTurn([], [], {}, 0);
    RunInTurn(Init(), events);
  }

  lemma TailHead<T>(all: seq<T>, tail: seq<T>, k: nat)
    requires k <= |all| && all[k..] == tail && tail != []
    ensures k < |all| && all[k] == tail[0]
  {
  }

  lemma AllInTurn(pending: seq<Piece>, all: seq<Piece>, tried: set<Piece>, n: nat)
    requires InTurn(pending, all, tried, n) && pending != [] && pending[0] !in tried
    ensures n == |pending| && all[|all| - n..] == pending
  {
    assert pending[0..] == pending;
  }

  lemma FirstUntried(pending: seq<Piece>, all: seq<Piece>, tried: set<Piece>) returns (k: nat)
    requires Fifo(pending, all, tried) && pending != [] && pending[0] !in tried
    ensures k < |all| && all[k] == pending[0] && forall l | 0 <= l < k :: all[l] in tried
  {
    var n: nat :| InTurn(pending, all, tried, n);
    AllInTurn(pending, all, tried, n);
    k := |all| - n;
    TailHead(all, pending, k);
  }

  // ---- requests ----

  /** The block that the element at `k` is in. */
  lemma {:induction false} BlockOf<T>(blocks: seq<seq<T>>, k: nat) returns (j: nat)
    requires k < |Flat(blocks)|
    ensures j < |blocks| && Flat(blocks)[k] in blocks[j] && |Flat(blocks[..j])| <= k
    decreases |blocks|
  {
    var init := blocks[..|blocks| - 1];
    if k < |Flat(init)| {
      j := BlockOf(init, k);
      assert init[..j] == blocks[..j];
    } else {
      j := |blocks| - 1;
      assert Flat(blocks)[k] == blocks[j][k - |Flat(init)|];
    }
  }

  lemma {:induction false} FlatPrefix<T>(blocks: seq<seq<T>>, j: nat)
    requires j <= |blocks|
    ensures Flat(blocks[..j]) <= Flat(blocks)
    decreases |blocks|
  {
    if j == |blocks| {
      assert blocks[..j] == blocks;
    } else {
      assert blocks[..|blocks| - 1][..j] == blocks[..j];
      FlatPrefix(blocks[..|blocks| - 1], j);
    }
  }

  lemma {:induction false} FlatHas<T>(blocks: seq<seq<T>>, i: nat, x: T)
    requires i < |blocks| && x in blocks[i]
    ensures x in Flat(blocks)
    decreases |blocks|
  {
    if i < |blocks| - 1 {
      FlatHas(blocks[..|blocks| - 1], i, x);
    }
  }

  /** What is in an earlier block comes before position `k`. */
  lemma EarlierBlock<T>(blocks: seq<seq<T>>, i: nat, j: nat, k: nat, x: T) returns (l: nat)
    requires i < j <= |blocks| && x in blocks[i] && |Flat(blocks[..j])| <= k
    ensures l < k && l < |Flat(blocks)| && Flat(blocks)[l] == x
  {
    var before := Flat(blocks[..j]);
    FlatHas(blocks[..j], i, x);
    FlatPrefix(blocks, j);
    l :| 0 <= l < |before| && before[l] == x;
  }

  /** In every reachable state: if the piece in front was never taken before, then everything
      that was asked for before it was. */
  lemma FirstComeFirstServed(s: Sched) returns (k: nat)
    requires Reachable(s) && s.pending != [] && s.pending[0] !in s.tried
    ensures AskedOk(s) && k < |All(s)| && All(s)[k] == s.pending[0] && forall l | 0 <= l < k :: All(s)[l] in s.tried
  {
    ReachableInTurn(s);
    k := FirstUntried(s.pending, All(s), s.tried);
  }

  /** Of two requests, no piece of the later one is taken for the first time before every
      piece of the earlier one has been taken. */
  lemma EarlierRequestFirst(s: Sched, i: nat, j: nat)
    requires Reachable(s) && i < j < |s.asked|
    requires s.pending != [] && s.pending[0] !in s.tried && s.pending[0].id == s.asked[j]
    ensures s.asked[i] in s.hist && forall p | p in PiecesOf(s, s.asked[i]) :: p in s.tried
  {
    var k := FirstComeFirstServed(s);
    var bs := Blocks(s);
    var j' := BlockOf(bs, k);
    assert bs[j'] == PiecesOf(s, s.asked[j']);
    assert j' == j;
    forall p | p in PiecesOf(s, s.asked[i]) ensures p in s.tried {
      assert bs[i] == PiecesOf(s, s.asked[i]);
      var l := EarlierBlock(bs, i, j, k, p);
    }
  }

  /** Of the requests that were made, in the order they were made. */
  lemma AskedGrows(s: Sched, ev: Event)
    requires Allowed(s, ev) && Handle(s, ev).Ok?
    ensures Handle(s, ev).s.asked == if ev.Request? then s.asked + [ev.id] else s.asked
  {
  }

  /** A request leaves what is queued where it stands. */
  lemma RequestWaits(s: Sched, id: int, data: string, upper: nat, stride: nat)
    requires 0 < stride
    ensures OnRequest(s, id, data, upper, stride).pending ==
      s.pending + ToPieces(id, data, Pieces(upper, stride))
  {
  }

  /** What is taken was in front; unless its client is lost, the first idle miner gets it. */
  lemma TriedIsTaken(s: Sched, ev: Event)
    requires Allowed(s, ev) && Handle(s, ev).Ok? && Handle(s, ev).s.tried != s.tried
    ensures var t := Handle(s, ev).s;
      && ev.Trigger? && s.pending != [] && s.freeMiners != []
      && t.tried == s.tried + {s.pending[0]} && t.pending == s.pending[1..]
      && s.pending[0].id in s.tasks
      && (!s.tasks[s.pending[0].id].lost ==>
            s.freeMiners[0] in t.miners && PieceOf(t.miners[s.freeMiners[0]]) == s.pending[0]
            && t.freeMiners == s.freeMiners[1..])
  {
  }

  // ---- idle miners are served in their order too ----

  /** How many idle miners are given a piece. */
  function Served(s: Sched, events: seq<Event>): nat
    decreases |events|
  {
    if events == [] then 0
    else if !Allowed(s, events[0]) then Served(s, events[1..])
    else match Handle(s, events[0])
      case Panic => 0
      case Ok(t) => (if |t.freeMiners| < |s.freeMiners| then 1 else 0) + Served(t, events[1..])
  }

  ghost predicate NoComingOrGoing(events: seq<Event>) {
    forall k | 0 <= k < |events| :: !events[k].Join? && !events[k].Error?
  }

  /** While nobody joins or is lost, those who were idle first are served first. */
  lemma {:induction false} IdleServedInOrder(s: Sched, events: seq<Event>)
    requires Run(s, events).Ok? && NoComingOrGoing(events) && Served(s, events) <= |s.freeMiners|
    ensures s.freeMiners[Served(s, events)..] <= Run(s, events).s.freeMiners
    decreases |events|
  {
    if events != [] {
      assert forall k | 0 <= k < |events| - 1 :: events[1..][k] == events[k + 1];
      if Allowed(s, events[0]) {
        var t := Handle(s, events[0]).s;
        var d: nat := if |t.freeMiners| < |s.freeMiners| then 1 else 0;
        HandleServes(s, events[0]);
        if Served(t, events[1..]) <= |t.freeMiners| {
          IdleServedInOrder(t, events[1..]);
        }
        AdvanceTwice(s.freeMiners, t.freeMiners, Run(s, events).s.freeMiners, d, Served(t, events[1..]));
      } else {
        IdleServedInOrder(s, events[1..]);
      }
    }
  }

  lemma HandleServes(s: Sched, ev: Event)
    requires Allowed(s, ev) && Handle(s, ev).Ok? && !ev.Join? && !ev.Error?
    ensures var t := Handle(s, ev).s;
      if |t.freeMiners| < |s.freeMiners| then s.freeMiners[1..] <= t.freeMiners else s.freeMiners <= t.freeMiners
  {
  }

  // ---- wake-ups ----

  /** A trigger is sent exactly when there is new work or a new idle miner, and only taking
      one uses one up. */
  lemma WakesIffNew(s: Sched, ev: Event)
    requires Allowed(s, ev) && Handle(s, ev).Ok?
    ensures var t := Handle(s, ev).s;
      if |s.pending| < |t.pending| || |s.freeMiners| < |t.freeMiners| then t.trigger == s.trigger + 1
      else if ev.Trigger? && 0 < s.trigger then t.trigger == s.trigger - 1
      else t.trigger == s.trigger
  {
    if ev.Error? {
      DeadOnlyShrink(s.freeMiners, s.miners - {ev.id});
    }
  }

  lemma {:induction false} DeadOnlyShrink(free: seq<int>, miners: map<int, Miner>)
    ensures |RemoveFirstDead(free, miners)| <= |free|
    decreases |free|
  {
    if free != [] {
      DeadOnlyShrink(free[1..], miners);
    }
  }

  // ---- both roles ----

  /** A connection that mined and also asked: its loss counts as a miner's only. */
  lemma MinerLossSparesRequest(s: Sched, e: int)
    requires Reachable(s) && e in s.miners && e in s.hist
    ensures OnError(s, e).Ok? && e in OnError(s, e).s.hist && OnError(s, e).s.hist[e].lost == s.hist[e].lost
  {
    ReachableHandles(s, Error(e));
  }
}
