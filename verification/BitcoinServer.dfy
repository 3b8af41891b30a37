/** The server's event loop, updating its fields in place. */
module BitcoinServer {
  import opened BitcoinRanges
  import opened BitcoinScheduler
  import opened BitcoinTheorems

  class Server {
    var freeMiners: seq<int>
    var miners: map<int, Miner>
    var pendingRequests: seq<Piece>
    var tasks: map<int, Task>
    var trigger: nat
    var written: seq<Answer>
    ghost var joined: set<int>
    ghost var hist: map<int, History>
    ghost var asked: seq<int>
    ghost var tried: set<Piece>

    ghost function State(): Sched
      reads this
    {
      Sched(freeMiners, miners, pendingRequests, tasks, trigger, joined, hist, written, asked, tried)
    }

    constructor ()
      ensures State() == Init()
    {
      freeMiners, miners, pendingRequests, tasks, trigger, written := [], map[], [], map[], 0, [];
      joined, hist, asked, tried := {}, map[], [], {};
    }

    method HandleRequest(id: int, data: string, upper: nat, log10: nat)
      requires upper > 10000 ==> 4 <= log10
      modifies this
      ensures State() == OnRequest(old(State()), id, data, upper, Stride(upper, log10, |old(freeMiners)|))
    {
      var stride := 1;
      if upper > 10000 {
        stride := log10;
      }
      if |freeMiners| > 0 {
        if stride < |freeMiners| {
          stride := |freeMiners|;
        }
      }
      tasks := tasks[id := Task(false, 0, 0, stride)];
      PushPieces(id, data, upper, stride);
      trigger := trigger + 1;
      hist := hist[id :=
        History(data, upper, stride, multiset(ToPieces(id, data, Pieces(upper, stride))), [], multiset{}, false)];
      asked := asked + [id];
    }

    method PushPieces(id: int, data: string, upper: nat, stride: nat)
      requires 0 < stride
      modifies this`pendingRequests
      ensures pendingRequests == old(pendingRequests) + ToPieces(id, data, Pieces(upper, stride))
    {
      var step := CeilDiv(upper, stride);
      ghost var pieces := ToPieces(id, data, Pieces(upper, stride));
      for i := 0 to stride
        invariant pendingRequests == old(pendingRequests) + pieces[..i]
      {
        assert pieces[i] == Piece(id, data, i * step, Min(upper, (i + 1) * step));
        pendingRequests := pendingRequests + [Piece(id, data, i * step, Min(upper, (i + 1) * step))];
        assert pieces[..i + 1] == pieces[..i] + [pieces[i]];
      }
      assert pieces[..stride] == pieces;
    }

    /** A token is on `trigger`.  No task of a pending piece is missing, so nothing is nil. */
    method HandleTrigger()
      requires trigger > 0 && OnTrigger(State()).Ok?
      modifies this
      ensures Ok(State()) == OnTrigger(old(State()))
    {
      trigger := trigger - 1;
      if |freeMiners| > 0 {
        if |pendingRequests| > 0 {
          var r := pendingRequests[0];
          tried := tried + {r};
          if tasks[r.id].lost {
            pendingRequests := pendingRequests[1..];
            hist := hist[r.id := Drop(hist[r.id], r)];
            return;
          }
          var mid := freeMiners[0];
          pendingRequests := pendingRequests[1..];
          freeMiners := freeMiners[1..];
          miners := miners[mid := Miner(r.id, r.data, r.lower, r.upper)];
        }
      }
    }

    method HandleJoin(id: int)
      modifies this
      ensures State() == OnJoin(old(State()), id)
    {
      freeMiners := [id] + freeMiners;
      miners := miners[id := Miner(0, "", 0, 0)];
      trigger := trigger + 1;
      joined := joined + {id};
    }

    method HandleResult(id: int, hash: nat, nonce: nat)
      requires OnResult(State(), id, hash, nonce).Ok?
      modifies this
      ensures Ok(State()) == OnResult(old(State()), id, hash, nonce)
    {
      if id !in miners || miners[id].clientID == 0 {
        return;
      }
      var miner := miners[id];
      var c := miner.clientID;
      hist := hist[c := Count(hist[c], Counted(PieceOf(miner), hash, nonce))];
      var task := tasks[c].(miners := tasks[c].miners - 1);
      if task.minHash == 0 || task.minHash > hash {
        task := task.(minHash := hash, minNonce := nonce);
      }
      assert task == Improve(tasks[c].(miners := tasks[c].miners - 1), hash, nonce);
      if task.miners == 0 {
        if !task.lost {
          written := written + [Answer(c, task.minHash, task.minNonce)];
        }
        tasks := tasks - {c};
      } else {
        tasks := tasks[c := task];
      }
      miners := miners[id := miner.(clientID := 0)];
      freeMiners := freeMiners + [id];
      trigger := trigger + 1;
    }

    method HandleError(e: int)
      requires OnError(State(), e).Ok?
      modifies this
      ensures Ok(State()) == OnError(old(State()), e)
    {
      if e in miners {
        var mn := miners[e];
        if mn.clientID != 0 && !tasks[mn.clientID].lost {
          pendingRequests := [Piece(mn.clientID, mn.data, mn.lower, mn.upper)] + pendingRequests;
          miners := miners - {e};
          trigger := trigger + 1;
        } else {
          miners := miners - {e};
          RemoveDead();
          if mn.clientID != 0 {
            hist := hist[mn.clientID := Drop(hist[mn.clientID], PieceOf(mn))];
          }
        }
      } else if e in tasks {
        tasks := tasks[e := tasks[e].(lost := true)];
        hist := hist[e := hist[e].(lost := true)];
      }
    }

    /** Removing an element of the list unlinks it, so `Next` ends the loop there. */
    method RemoveDead()
      modifies this`freeMiners
      ensures freeMiners == RemoveFirstDead(old(freeMiners), miners)
    {
      var me := 0;
      while me < |freeMiners|
        invariant 0 <= me <= |freeMiners|
        invariant freeMiners == old(freeMiners)
        invariant forall j | 0 <= j < me :: freeMiners[j] in miners
      {
        if freeMiners[me] !in miners {
          FirstDeadAt(freeMiners, me, miners);
          freeMiners := freeMiners[..me] + freeMiners[me + 1..];
          return;
        }
        me := me + 1;
      }
      BusyKeepsFreeList(freeMiners, miners);
    }
  }

  lemma {:induction false} FirstDeadAt(free: seq<int>, k: nat, miners: map<int, Miner>)
    requires k < |free| && free[k] !in miners && forall j | 0 <= j < k :: free[j] in miners
    ensures RemoveFirstDead(free, miners) == free[..k] + free[k + 1..]
    decreases k
  {
    if 0 < k {
      assert free[0] in miners;
      var tail := free[1..];
      assert forall j | 0 <= j < k - 1 :: tail[j] == free[j + 1];
      FirstDeadAt(tail, k - 1, miners);
      assert [free[0]] + (tail[..k - 1] + tail[k..]) == free[..k] + free[k + 1..];
    }
  }

  /** `schedule`, fed the events that its channels deliver. */
  method Schedule(events: seq<Event>) returns (srv: Server)
    requires AllAllowed(Init(), events)
    ensures fresh(srv) && Run(Init(), events) == Ok(srv.State())
  {
    srv := new Server();
    NeverPanics(events);
    assert events[0..] == events;
    for k := 0 to |events|
      invariant fresh(srv) && AllAllowed(srv.State(), events[k..])
      invariant Run(srv.State(), events[k..]) == Run(Init(), events) && Run(Init(), events).Ok?
    {
      assert events[k..][0] == events[k] && events[k..][1..] == events[k + 1..];
      assert Handle(srv.State(), events[k]).Ok?;
      match events[k] {
        case Request(id, data, upper, log10) => srv.HandleRequest(id, data, upper, log10);
        case Trigger => if srv.trigger > 0 { srv.HandleTrigger(); }
        case Join(id) => srv.HandleJoin(id);
        case Result(id, hash, nonce) => srv.HandleResult(id, hash, nonce);
        case Error(e) => srv.HandleError(e);
      }
    }
  }
}
