/** The server's `schedule` loop as functions on values, one per branch, and the runs it can
    make.  A nil dereference of the program is the outcome Panic. */
module BitcoinScheduler {
  import opened Collections
  import opened BitcoinRanges

  /** An entry of `pendingRequests`. */
  datatype Piece = Piece(id: int, data: string, lower: nat, upper: nat)

  datatype Miner = Miner(clientID: int, data: string, lower: nat, upper: nat)

  datatype Task = Task(lost: bool, minHash: nat, minNonce: nat, miners: int)

  datatype Counted = Counted(piece: Piece, hash: nat, nonce: nat)

  /** A request and what happened to its pieces: those whose result was counted, in order,
      and those given up because the client was lost. */
  datatype History = History(
    data: string, upper: nat, stride: pos,
    pieces: multiset<Piece>, counted: seq<Counted>, dropped: multiset<Piece>, lost: bool)

  datatype Answer = Answer(id: int, hash: nat, nonce: nat)

  /** The fields of `server` and the number of tokens in `trigger`; then the histories: every
      connection that ever joined, every request, every answer written, the order in which the
      requests came, and every piece that was ever taken from the queue. */
  datatype Sched = Sched(
    freeMiners: seq<int>, miners: map<int, Miner>, pending: seq<Piece>, tasks: map<int, Task>, trigger: nat,
    joined: set<int>, hist: map<int, History>, answers: seq<Answer>, asked: seq<int>, tried: set<Piece>)

  datatype Outcome = Panic | Ok(s: Sched)

  /** `log10` is what the logarithm of `upper` yields. */
  datatype Event =
    | Request(id: int, data: string, upper: nat, log10: nat)
    | Trigger
    | Join(id: int)
    | Result(id: int, hash: nat, nonce: nat)
    | Error(id: int)

  function Init(): Sched {
    Sched([], map[], [], map[], 0, {}, map[], [], [], {})
  }

  /** At least one piece for each free miner, and no more than that unless the bound asks for it. */
  function Stride(upper: nat, log10: nat, free: nat): (r: nat)
    ensures free <= r && (0 < log10 ==> 0 < r)
    ensures r != free ==> r == 1 || (upper > 10000 && r == log10)
    ensures upper > 10000 ==> log10 <= r
  {
    var stride := if upper > 10000 then log10 else 1;
    if free > 0 && stride < free then free else stride
  }

  function ToPieces(id: int, data: string, ranges: seq<Range>): seq<Piece> {
    seq(|ranges|, i requires 0 <= i < |ranges| => Piece(id, data, ranges[i].lower, ranges[i].upper))
  }

  function OnRequest(s: Sched, id: int, data: string, upper: nat, stride: nat): Sched
    requires 0 < stride
  {
    var pieces := ToPieces(id, data, Pieces(upper, stride));
    s.(tasks := s.tasks[id := Task(false, 0, 0, stride)],
       pending := s.pending + pieces,
       trigger := s.trigger + 1,
       hist := s.hist[id := History(data, upper, stride, multiset(pieces), [], multiset{}, false)],
       asked := s.asked + [id])
  }

  function Drop(h: History, p: Piece): History {
    h.(dropped := h.dropped + multiset{p})
  }

  /** The piece in front belongs to a lost client. */
  function Discard(s: Sched): Sched
    requires s.pending != [] && s.pending[0].id in s.hist
  {
    var p := s.pending[0];
    s.(pending := s.pending[1..], hist := s.hist[p.id := Drop(s.hist[p.id], p)], tried := s.tried + {p})
  }

  /** The piece in front goes to the first free miner. */
  function Dispatch(s: Sched): Sched
    requires s.pending != [] && s.freeMiners != []
  {
    var p := s.pending[0];
    s.(pending := s.pending[1..], freeMiners := s.freeMiners[1..],
       miners := s.miners[s.freeMiners[0] := Miner(p.id, p.data, p.lower, p.upper)],
       tried := s.tried + {p})
  }

  function OnTrigger(s0: Sched): Outcome {
    if s0.trigger == 0 then Ok(s0) else
    var s := s0.(trigger := s0.trigger - 1);
    if s.freeMiners == [] || s.pending == [] then Ok(s)
    else if s.pending[0].id !in s.tasks || s.pending[0].id !in s.hist then Panic
    else if s.tasks[s.pending[0].id].lost then Ok(Discard(s))
    else Ok(Dispatch(s))
  }

  function OnJoin(s: Sched, id: int): Sched {
    s.(freeMiners := [id] + s.freeMiners, miners := s.miners[id := Miner(0, "", 0, 0)],
       trigger := s.trigger + 1, joined := s.joined + {id})
  }

  function PieceOf(m: Miner): Piece {
    Piece(m.clientID, m.data, m.lower, m.upper)
  }

  function Improve(t: Task, hash: nat, nonce: nat): Task {
    if t.minHash == 0 || t.minHash > hash then t.(minHash := hash, minNonce := nonce) else t
  }

  function Count(h: History, x: Counted): History {
    h.(counted := h.counted + [x])
  }

  /** Busy miner `id` delivers a result. */
  function Deliver(s: Sched, id: int, hash: nat, nonce: nat): Sched
    requires id in s.miners && s.miners[id].clientID in s.tasks && s.miners[id].clientID in s.hist
  {
    var m := s.miners[id];
    var c := m.clientID;
    var t := Improve(s.tasks[c].(miners := s.tasks[c].miners - 1), hash, nonce);
    s.(tasks := if t.miners == 0 then s.tasks - {c} else s.tasks[c := t],
       answers := if t.miners == 0 && !t.lost then s.answers + [Answer(c, t.minHash, t.minNonce)] else s.answers,
       miners := s.miners[id := m.(clientID := 0)],
       freeMiners := s.freeMiners + [id],
       trigger := s.trigger + 1,
       hist := s.hist[c := Count(s.hist[c], Counted(PieceOf(m), hash, nonce))])
  }

  function OnResult(s: Sched, id: int, hash: nat, nonce: nat): Outcome {
    if id !in s.miners || s.miners[id].clientID == 0 then Ok(s)
    else if s.miners[id].clientID !in s.tasks || s.miners[id].clientID !in s.hist then Panic
    else Ok(Deliver(s, id, hash, nonce))
  }

  /** The loop over the free list: it ends with the first removal, because a removed element
      has no successor. */
  function RemoveFirstDead(free: seq<int>, miners: map<int, Miner>): seq<int> {
    if free == [] then []
    else if free[0] !in miners then free[1..]
    else [free[0]] + RemoveFirstDead(free[1..], miners)
  }

  /** A busy miner is lost: its piece is queued again, in front. */
  function Requeue(s: Sched, e: int): Sched
    requires e in s.miners
  {
    s.(pending := [PieceOf(s.miners[e])] + s.pending, miners := s.miners - {e}, trigger := s.trigger + 1)
  }

  /** Any other miner is lost; what it was doing for a lost client is given up. */
  function Forget(s: Sched, e: int): Sched
    requires e in s.miners && (s.miners[e].clientID != 0 ==> s.miners[e].clientID in s.hist)
  {
    var m := s.miners[e];
    s.(miners := s.miners - {e},
       freeMiners := RemoveFirstDead(s.freeMiners, s.miners - {e}),
       hist := if m.clientID == 0 then s.hist else s.hist[m.clientID := Drop(s.hist[m.clientID], PieceOf(m))])
  }

  function LoseClient(s: Sched, e: int): Sched
    requires e in s.tasks && e in s.hist
  {
    s.(tasks := s.tasks[e := s.tasks[e].(lost := true)], hist := s.hist[e := s.hist[e].(lost := true)])
  }

  function OnError(s: Sched, e: int): Outcome {
    if e in s.miners then
      var c := s.miners[e].clientID;
      if c != 0 && (c !in s.tasks || c !in s.hist) then Panic
      else if c != 0 && !s.tasks[c].lost then Ok(Requeue(s, e))
      else Ok(Forget(s, e))
    else if e in s.tasks then (if e in s.hist then Ok(LoseClient(s, e)) else Panic)
    else Ok(s)
  }

  /** One request per connection, one join per connection, no hash 0; identifiers are positive,
      as LSP's are, and the logarithm of a bound above 10000 is at least 4. */
  predicate Allowed(s: Sched, ev: Event) {
    match ev
    case Request(id, _, upper, log10) => 0 < id && id !in s.hist && (upper > 10000 ==> 4 <= log10)
    case Join(id) => 0 < id && id !in s.joined
    case Result(_, hash, _) => 0 < hash
    case Trigger => true
    case Error(_) => true
  }

  function Handle(s: Sched, ev: Event): Outcome
    requires Allowed(s, ev)
  {
    match ev
    case Request(id, data, upper, log10) =>
      Ok(OnRequest(s, id, data, upper, Stride(upper, log10, |s.freeMiners|)))
    case Trigger => OnTrigger(s)
    case Join(id) => Ok(OnJoin(s, id))
    case Result(id, hash, nonce) => OnResult(s, id, hash, nonce)
    case Error(e) => OnError(s, e)
  }

  ghost predicate AllAllowed(s: Sched, events: seq<Event>)
    decreases |events|
  {
    events != [] ==>
      Allowed(s, events[0]) && (Handle(s, events[0]).Ok? ==> AllAllowed(Handle(s, events[0]).s, events[1..]))
  }

  /** Events that the assumptions rule out are left out of the run. */
  function Run(s: Sched, events: seq<Event>): Outcome
    decreases |events|
  {
    if events == [] then Ok(s)
    else if !Allowed(s, events[0]) then Run(s, events[1..])
    else match Handle(s, events[0])
      case Panic => Panic
      case Ok(t) => Run(t, events[1..])
  }

  // ---- where the pieces of a request are ----

  function One(p: Piece, c: int): multiset<Piece> {
    if p.id == c then multiset{p} else multiset{}
  }

  function PendingOf(pending: seq<Piece>, c: int): multiset<Piece> {
    if pending == [] then multiset{} else One(pending[0], c) + PendingOf(pending[1..], c)
  }

  function CountedOf(counted: seq<Counted>): multiset<Piece> {
    if counted == [] then multiset{}
    else CountedOf(counted[..|counted| - 1]) + multiset{counted[|counted| - 1].piece}
  }

  function Shares(miners: map<int, Miner>, c: int): map<int, multiset<Piece>> {
    map id | id in miners :: One(PieceOf(miners[id]), c)
  }

  ghost function BusyOf(miners: map<int, Miner>, c: int): multiset<Piece> {
    SumBags(Shares(miners, c))
  }

  lemma {:induction false} PendingAppend(a: seq<Piece>, b: seq<Piece>, c: int)
    ensures PendingOf(a + b, c) == PendingOf(a, c) + PendingOf(b, c)
    decreases |a|
  {
    if a == [] {
      assert a + b == b;
    } else {
      assert (a + b)[1..] == a[1..] + b;
      PendingAppend(a[1..], b, c);
    }
  }

  lemma {:induction false} PendingAll(ps: seq<Piece>, id: int, c: int)
    requires forall p | p in ps :: p.id == id
    ensures PendingOf(ps, c) == if c == id then multiset(ps) else multiset{}
    decreases |ps|
  {
    if ps != [] {
      PendingAll(ps[1..], id, c);
      assert ps == [ps[0]] + ps[1..];
    }
  }

  lemma {:induction false} PendingHas(pending: seq<Piece>, p: Piece)
    requires p in pending
    ensures p in PendingOf(pending, p.id)
    decreases |pending|
  {
    if pending[0] != p {
      PendingHas(pending[1..], p);
    }
  }

  lemma SharesPut(miners: map<int, Miner>, id: int, m: Miner, c: int)
    ensures Shares(miners[id := m], c) == Shares(miners, c)[id := One(PieceOf(m), c)]
    ensures Shares(miners, c) - {id} == Shares(miners - {id}, c)
  {
  }

  /** Miner `id` becomes `m`; what it had before is no longer counted. */
  lemma BusyPut(miners: map<int, Miner>, id: int, m: Miner, c: int)
    ensures BusyOf(miners[id := m], c) == BusyOf(miners - {id}, c) + One(PieceOf(m), c)
  {
    SharesPut(miners, id, m, c);
    SumBagsPut(Shares(miners, c), id, One(PieceOf(m), c));
  }

  lemma BusyRemove(miners: map<int, Miner>, id: int, c: int)
    requires id in miners
    ensures BusyOf(miners, c) == BusyOf(miners - {id}, c) + One(PieceOf(miners[id]), c)
  {
    BusyPut(miners, id, miners[id], c);
    assert miners[id := miners[id]] == miners;
  }
}
