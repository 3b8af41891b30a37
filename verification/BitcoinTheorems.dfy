/** What the scheduler promises, for every run from its start. */
module BitcoinTheorems {
  import opened Collections
  import opened BitcoinRanges
  import opened BitcoinScheduler
  import opened BitcoinSafety

  lemma InitInv()
    ensures Inv(Init())
  {
  }

  /** `s` is the state some run ends in. */
  ghost predicate Reachable(s: Sched) {
    exists events :: Run(Init(), events) == Ok(s)
  }

  lemma ReachableInv(s: Sched)
    requires Reachable(s)
    ensures Inv(s)
  {
    var events :| Run(Init(), events) == Ok(s);
    InitInv();
    RunKeepsInv(Init(), events);
  }

  /** No run dereferences nil: whatever is pending or being mined has a task. */
  lemma NeverPanics(events: seq<Event>)
    ensures Run(Init(), events).Ok?
  {
    InitInv();
    RunKeepsInv(Init(), events);
  }

  // ---- answers ----

  ghost predicate Answered(s: Sched, c: int) {
    exists a :: a in s.answers && a.id == c
  }

  /** A request is answered at most once. */
  lemma AnsweredAtMostOnce(s: Sched, i: nat, j: nat)
    requires Reachable(s) && i < j < |s.answers|
    ensures s.answers[i].id != s.answers[j].id
  {
    ReachableInv(s);
  }

  /** It has been answered exactly when each of its pieces was counted as often as the
      splitting made it, and its client was not found lost before that. */
  lemma AnsweredIffAllCounted(s: Sched, c: int)
    requires Reachable(s) && c in s.hist
    ensures Answered(s, c) <==> CountedOf(s.hist[c].counted) == s.hist[c].pieces && !s.hist[c].lost
  {
    ReachableInv(s);
    assert RequestOk(s, c);
    CountedSize(s.hist[c].counted);
    if c !in s.tasks {
      FinishedIsEmpty(s, c);
    } else {
      assert |CountedOf(s.hist[c].counted)| < |s.hist[c].pieces|;
    }
  }

  /** The answer is the least of the counted results. */
  lemma AnswerIsLeastCounted(s: Sched, a: Answer)
    requires Reachable(s) && a in s.answers
    ensures a.id in s.hist && LeastCounted(s.hist[a.id].counted, a.hash, a.nonce)
  {
    ReachableInv(s);
  }

  // ---- what later events keep ----

  ghost predicate Later(h: History, h': History) {
    && h'.data == h.data && h'.upper == h.upper && h'.stride == h.stride && h'.pieces == h.pieces
    && h.counted <= h'.counted
    && (h.lost ==> h'.lost)
  }

  ghost predicate Grows(s: Sched, t: Sched) {
    && s.answers <= t.answers
    && forall c | c in s.hist :: c in t.hist && Later(s.hist[c], t.hist[c])
  }

  lemma HandleGrows(s: Sched, ev: Event)
    requires Allowed(s, ev) && Handle(s, ev).Ok?
    ensures Grows(s, Handle(s, ev).s)
  {
    match ev
    case Trigger => TriggerGrows(s);
    case Result(id, hash, nonce) => ResultGrows(s, id, hash, nonce);
    case Error(e) => ErrorGrows(s, e);
    case _ =>
  }

  lemma TriggerGrows(s: Sched)
    requires OnTrigger(s).Ok?
    ensures Grows(s, OnTrigger(s).s)
  {
  }

  lemma ResultGrows(s: Sched, id: int, hash: nat, nonce: nat)
    requires OnResult(s, id, hash, nonce).Ok?
    ensures Grows(s, OnResult(s, id, hash, nonce).s)
  {
  }

  lemma ErrorGrows(s: Sched, e: int)
    requires OnError(s, e).Ok?
    ensures Grows(s, OnError(s, e).s)
  {
  }

  lemma {:induction false} RunGrows(s: Sched, events: seq<Event>)
    requires Run(s, events).Ok?
    ensures Grows(s, Run(s, events).s)
    decreases |events|
  {
    if events != [] {
      if Allowed(s, events[0]) {
        var t := Handle(s, events[0]).s;
        HandleGrows(s, events[0]);
        RunGrows(t, events[1..]);
        GrowsTransitive(s, t, Run(s, events).s);
      } else {
        RunGrows(s, events[1..]);
      }
    }
  }

  lemma GrowsTransitive(s: Sched, t: Sched, u: Sched)
    requires Grows(s, t) && Grows(t, u)
    ensures Grows(s, u)
  {
    forall c | c in s.hist ensures c in u.hist && Later(s.hist[c], u.hist[c]) {
      assert Later(s.hist[c], t.hist[c]) && Later(t.hist[c], u.hist[c]);
    }
  }

  lemma {:induction false} RunConcat(s: Sched, a: seq<Event>, b: seq<Event>)
    requires Run(s, a).Ok?
    ensures Run(s, a + b) == Run(Run(s, a).s, b)
    decreases |a|
  {
    if a == [] {
      assert a + b == b;
    } else {
      assert (a + b)[1..] == a[1..] + b;
      if Allowed(s, a[0]) {
        RunConcat(Handle(s, a[0]).s, a[1..], b);
      } else {
        RunConcat(s, a[1..], b);
      }
    }
  }

  /** Once a client is found lost while its request is open, it is never answered. */
  lemma LostIsNeverAnswered(s: Sched, c: int, events: seq<Event>)
    requires Reachable(s) && c in s.hist && s.hist[c].lost
    ensures Run(s, events).Ok? && !Answered(Run(s, events).s, c)
  {
    ReachableInv(s);
    RunKeepsInv(s, events);
    RunGrows(s, events);
    var t := Run(s, events).s;
    assert Later(s.hist[c], t.hist[c]);
    assert AnswersOk(t);
  }

  /** An answer is final, and nothing is counted for its request any more. */
  lemma AnsweredIsFinal(s: Sched, a: Answer, events: seq<Event>)
    requires Reachable(s) && a in s.answers
    ensures Run(s, events).Ok? && a in Run(s, events).s.answers
    ensures a.id in s.hist && a.id in Run(s, events).s.hist
      && Run(s, events).s.hist[a.id].counted == s.hist[a.id].counted
  {
    ReachableInv(s);
    RunKeepsInv(s, events);
    RunGrows(s, events);
    var t := Run(s, events).s;
    assert a in t.answers;
    assert Later(s.hist[a.id], t.hist[a.id]);
    assert RequestOk(s, a.id) && RequestOk(t, a.id);
    assert AnswersOk(t);
  }

  // ---- bookkeeping ----

  /** The counter of a task against what is queued and what miners hold. */
  lemma MinersCountsWhatIsOpen(s: Sched, c: int)
    requires Reachable(s) && c in s.tasks
    ensures c in s.hist && s.tasks[c].lost == s.hist[c].lost
    ensures s.tasks[c].miners == |PendingOf(s.pending, c)| + |BusyOf(s.miners, c)| + |s.hist[c].dropped|
    ensures !s.tasks[c].lost ==> s.tasks[c].miners == |PendingOf(s.pending, c)| + |BusyOf(s.miners, c)|
    ensures 0 < s.tasks[c].miners
  {
    ReachableInv(s);
    assert RequestOk(s, c);
    CountedSize(s.hist[c].counted);
  }

  /** A task is deleted only when nothing of it is left. */
  lemma OpenPiecesHaveTasks(s: Sched)
    requires Reachable(s)
    ensures forall p | p in s.pending :: p.id in s.tasks
    ensures forall id | id in s.miners && s.miners[id].clientID != 0 :: s.miners[id].clientID in s.tasks
  {
    ReachableInv(s);
    forall p | p in s.pending ensures p.id in s.tasks {
      PendingHasTask(s, p);
    }
    forall id | id in s.miners && s.miners[id].clientID != 0 ensures s.miners[id].clientID in s.tasks {
      BusyHasTask(s, id);
    }
  }

  /** The free list is the idle miners, each once. */
  lemma FreeMinersAreTheIdle(s: Sched)
    requires Reachable(s)
    ensures NoDup(s.freeMiners)
    ensures forall id :: id in s.freeMiners <==> id in s.miners && s.miners[id].clientID == 0
  {
    ReachableInv(s);
  }

  /** A miner of a live client is lost, another joins and a trigger is taken: the newcomer has
      the very piece, and nothing else has changed. */
  lemma NewcomerTakesOver(s: Sched, e: int, id: int)
    requires Reachable(s) && e in s.miners && s.miners[e].clientID in s.tasks && !s.tasks[s.miners[e].clientID].lost
    requires s.miners[e].clientID != 0 && 0 < id && id !in s.joined
    ensures Run(s, [Error(e), Join(id), Trigger]) ==
      Ok(s.(miners := (s.miners - {e})[id := s.miners[e]], trigger := s.trigger + 1, joined := s.joined + {id},
            tried := s.tried + {PieceOf(s.miners[e])}))
  {
    TaskIsKnown(s, s.miners[e].clientID);
    var s1 := Requeue(s, e);
    var s2 := OnJoin(s1, id);
    JoinThenDispatch(s, e, id);
    var s3 := OnTrigger(s2).s;
    RunCons(s, Error(e), [Join(id)] + ([Trigger] + []));
    RunCons(s1, Join(id), [Trigger] + []);
    RunCons(s2, Trigger, []);
    assert [Error(e)] + ([Join(id)] + ([Trigger] + [])) == [Error(e), Join(id), Trigger];
  }

  lemma TaskIsKnown(s: Sched, c: int)
    requires Reachable(s) && c in s.tasks
    ensures c in s.hist
  {
    ReachableInv(s);
  }

  lemma JoinThenDispatch(s: Sched, e: int, id: int)
    requires e in s.miners && s.miners[e].clientID in s.tasks && s.miners[e].clientID in s.hist
    requires !s.tasks[s.miners[e].clientID].lost
    ensures OnTrigger(OnJoin(Requeue(s, e), id)) ==
      Ok(s.(miners := (s.miners - {e})[id := s.miners[e]], trigger := s.trigger + 1, joined := s.joined + {id},
            tried := s.tried + {PieceOf(s.miners[e])}))
  {
    var s2 := OnJoin(Requeue(s, e), id);
    assert s2.pending[1..] == s.pending && s2.freeMiners[1..] == s.freeMiners;
    var m := s.miners[e];
    assert s2.miners[id := Miner(m.clientID, m.data, m.lower, m.upper)] == (s.miners - {e})[id := m];
  }

  lemma RunCons(s: Sched, ev: Event, more: seq<Event>)
    requires Allowed(s, ev) && Handle(s, ev).Ok?
    ensures Run(s, [ev] + more) == Run(Handle(s, ev).s, more)
  {
    assert ([ev] + more)[1..] == more;
  }

  // ---- stalling ----

  /** Work and an idle miner, and no event of the scheduler's own making to bring them together. */
  ghost predicate Stalled(s: Sched) {
    s.pending != [] && s.freeMiners != [] && s.trigger == 0 && !SomeBusy(s)
  }

  lemma NoStallWithoutLoss(s: Sched)
    requires Reachable(s) && forall c | c in s.tasks :: !s.tasks[c].lost
    ensures !Stalled(s)
  {
    ReachableInv(s);
    forall c | c in s.hist ensures s.hist[c].dropped == multiset{} {
      assert RequestOk(s, c);
      if c !in s.tasks {
        FinishedIsEmpty(s, c);
      }
    }
  }

  lemma ReachableExtends(s: Sched, ev: Event) returns (t: Sched)
    requires Reachable(s) && Allowed(s, ev)
    ensures Handle(s, ev) == Ok(t) && Reachable(t)
  {
    var events :| Run(Init(), events) == Ok(s);
    ReachableHandles(s, ev);
    t := Handle(s, ev).s;
    RunSnoc(Init(), events, ev);
  }

  lemma ReachableHandles(s: Sched, ev: Event)
    requires Reachable(s) && Allowed(s, ev)
    ensures Handle(s, ev).Ok?
  {
    ReachableInv(s);
    HandleKeepsInv(s, ev);
  }

  lemma RunSnoc(s: Sched, events: seq<Event>, ev: Event)
    requires Run(s, events).Ok? && Allowed(Run(s, events).s, ev) && Handle(Run(s, events).s, ev).Ok?
    ensures Run(s, events + [ev]) == Handle(Run(s, events).s, ev)
  {
    RunConcat(s, events, [ev]);
    var t := Run(s, events).s;
    assert Run(t, [ev]) == Run(Handle(t, ev).s, [ev][1..]);
  }

  /** With a lost client the scheduler can stall: the trigger spent on giving up its piece is
      not replaced, and the next piece waits though a miner is idle. */
  lemma StallsAfterALoss() returns (s: Sched)
    ensures Reachable(s) && Stalled(s)
    ensures s.pending[0].id in s.tasks && !s.tasks[s.pending[0].id].lost
  {
    assert Run(Init(), []) == Ok(Init());
    s := ReachableExtends(Init(), Request(1, "a", 1, 0));
    s := ReachableExtends(s, Request(2, "b", 1, 0));
    assert |s.pending| == 2 && s.pending[0].id == 1 && s.pending[1].id == 2;
    s := ReachableExtends(s, Trigger);
    s := ReachableExtends(s, Trigger);
    s := ReachableExtends(s, Error(1));
    s := ReachableExtends(s, Join(3));
    s := ReachableExtends(s, Trigger);
  }

  // ---- when a step stalls the scheduler ----

  ghost predicate TriggerStalls(s: Sched) {
    && s.trigger == 1 && s.freeMiners != [] && 1 < |s.pending| && !SomeBusy(s)
    && s.pending[0].id in s.tasks && s.tasks[s.pending[0].id].lost
  }

  /** Only miner `e` is busy, and for a client that was lost. */
  ghost predicate ErrorStalls(s: Sched, e: int) {
    && s.trigger == 0 && s.freeMiners != [] && s.pending != []
    && e in s.miners && s.miners[e].clientID in s.tasks && s.tasks[s.miners[e].clientID].lost
    && forall id | id in s.miners && s.miners[id].clientID != 0 :: id == e
  }

  lemma TriggerStallsIff(s: Sched)
    requires FreeOk(s) && KnownOk(s) && OnTrigger(s).Ok? && !Stalled(s)
    ensures Stalled(OnTrigger(s).s) <==> TriggerStalls(s)
  {
    if s.trigger != 0 && s.freeMiners != [] && s.pending != [] && !s.tasks[s.pending[0].id].lost {
      DispatchKeepsFree(s.(trigger := s.trigger - 1));
    }
  }

  lemma ForgetStallsIff(s: Sched, e: int)
    requires FreeOk(s) && KnownOk(s) && e in s.miners && !Stalled(s)
    requires s.miners[e].clientID != 0 ==> s.miners[e].clientID in s.tasks && s.tasks[s.miners[e].clientID].lost
    requires 0 !in s.tasks
    ensures Stalled(Forget(s, e)) <==> ErrorStalls(s, e)
  {
    var t := Forget(s, e);
    RemoveFirstDeadRemovesAll(s.freeMiners, s.miners - {e}, e);
    if s.miners[e].clientID == 0 {
      if t.freeMiners != [] {
        assert t.freeMiners[0] in s.freeMiners;
      }
      if SomeBusy(s) {
        OthersStayBusy(s, e);
      }
    } else {
      BusyKeepsFreeList(s.freeMiners, s.miners - {e});
      if !SomeBusy(t) {
        forall id | id in s.miners && s.miners[id].clientID != 0 ensures id == e {
          assert id != e ==> id in t.miners;
        }
      }
    }
  }

  lemma OthersStayBusy(s: Sched, e: int)
    requires e in s.miners && s.miners[e].clientID == 0 && SomeBusy(s)
    ensures SomeBusy(Forget(s, e))
  {
    var id :| id in s.miners && s.miners[id].clientID != 0;
    assert id in Forget(s, e).miners;
  }

  lemma {:induction false} BusyKeepsFreeList(free: seq<int>, miners: map<int, Miner>)
    requires forall k | 0 <= k < |free| :: free[k] in miners
    ensures RemoveFirstDead(free, miners) == free
    decreases |free|
  {
    if free != [] {
      assert free == [free[0]] + free[1..];
      BusyKeepsFreeList(free[1..], miners);
    }
  }

  /** A step makes the scheduler stall exactly when it takes the last trigger to give up a
      piece while others wait, or loses the last busy miner, that of a lost client. */
  lemma StallsExactlyWhen(s: Sched, ev: Event)
    requires Reachable(s) && Allowed(s, ev) && !Stalled(s)
    ensures Handle(s, ev).Ok?
    ensures Stalled(Handle(s, ev).s) <==>
      (ev.Trigger? && TriggerStalls(s)) || (ev.Error? && ErrorStalls(s, ev.id))
  {
    ReachableInv(s);
    HandleKeepsInv(s, ev);
    match ev
    case Trigger => TriggerStallsIff(s);
    case Error(e) => ErrorStallsIff(s, e);
    case Request(_, _, _, _) =>
    case Join(_) =>
    case Result(_, _, _) =>
  }

  lemma ErrorStallsIff(s: Sched, e: int)
    requires FreeOk(s) && KnownOk(s) && OnError(s, e).Ok? && !Stalled(s)
    ensures Stalled(OnError(s, e).s) <==> ErrorStalls(s, e)
  {
    if e in s.miners {
      if s.miners[e].clientID == 0 || s.tasks[s.miners[e].clientID].lost {
        ForgetStallsIff(s, e);
      }
    }
  }
}
