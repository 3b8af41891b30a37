/** No reachable state of the scheduler is beyond help: miners that join and work bring every
    client that is still there its answer. */
module BitcoinProgress {
  import opened Collections
  import opened BitcoinScheduler
  import opened BitcoinSafety
  import opened BitcoinTheorems

  /** No client has been lost in between. */
  predicate SameLost(s: Sched, t: Sched) {
    forall c | c in s.hist :: c in t.hist && t.hist[c].lost == s.hist[c].lost
  }

  /** Miners join, results arrive, triggers are taken; nobody asks anew or is lost. */
  predicate Helpful(events: seq<Event>) {
    forall k | 0 <= k < |events| :: events[k].Join? || events[k].Trigger? || events[k].Result?
  }

  /** What the miner of a piece finds: a hash, which is not 0, and a nonce. */
  ghost predicate Finds(find: Piece -> (nat, nat)) {
    forall piece :: 0 < find(piece).0
  }

  // ---- every piece gets a miner ----

  lemma TriggerTakesOne(s: Sched)
    requires Inv(s) && 0 < s.trigger && s.freeMiners != [] && s.pending != []
    ensures OnTrigger(s).Ok? && Inv(OnTrigger(s).s)
    ensures OnTrigger(s).s.pending == s.pending[1..] && SameLost(s, OnTrigger(s).s)
  {
    TriggerKeepsInv(s);
  }

  lemma OneMoreMiner(s: Sched) returns (more: seq<Event>)
    requires Inv(s) && s.pending != []
    ensures Helpful(more) && Run(s, more).Ok? && Inv(Run(s, more).s)
    ensures Run(s, more).s.pending == s.pending[1..] && SameLost(s, Run(s, more).s)
  {
    var id := Above(s.joined);
    JoinThenTake(s, id);
    more := [Join(id)] + [Trigger];
  }

  lemma JoinThenTake(s: Sched, id: int)
    requires Inv(s) && s.pending != [] && 0 < id && id !in s.joined
    ensures var r := Run(s, [Join(id)] + [Trigger]);
      && r.Ok? && Inv(r.s) && r.s.pending == s.pending[1..] && SameLost(s, r.s)
    ensures Helpful([Join(id)] + [Trigger])
  {
    JoinKeepsInv(s, id);
    TriggerTakesOne(OnJoin(s, id));
    JoinThenTrigger(s, id);
  }

  lemma JoinThenTrigger(s: Sched, id: int)
    requires 0 < id && id !in s.joined && OnTrigger(OnJoin(s, id)).Ok?
    ensures Run(s, [Join(id)] + [Trigger]) == OnTrigger(OnJoin(s, id)) && Helpful([Join(id)] + [Trigger])
  {
    RunCons(s, Join(id), [Trigger]);
    RunCons(OnJoin(s, id), Trigger, []);
    assert [Trigger] + [] == [Trigger];
  }

  lemma HelpfulConcat(a: seq<Event>, b: seq<Event>)
    requires Helpful(a) && Helpful(b)
    ensures Helpful(a + b)
  {
  }

  lemma {:induction false} AllDispatched(s: Sched) returns (more: seq<Event>)
    requires Inv(s)
    ensures Helpful(more) && Run(s, more).Ok? && Inv(Run(s, more).s)
    ensures Run(s, more).s.pending == [] && SameLost(s, Run(s, more).s)
    decreases |s.pending|
  {
    more := [];
    if s.pending != [] {
      var first := OneMoreMiner(s);
      var rest := AllDispatched(Run(s, first).s);
      RunConcat(s, first, rest);
      HelpfulConcat(first, rest);
      more := first + rest;
    }
  }

  // ---- every miner delivers ----

  function BusyIds(miners: map<int, Miner>): set<int> {
    set id | id in miners && miners[id].clientID != 0
  }

  lemma ResultFirst(s: Sched, event: Event, more: seq<Event>)
    requires event.Result? && Allowed(s, event) && Handle(s, event).Ok? && Helpful(more)
    ensures Run(s, [event] + more) == Run(Handle(s, event).s, more) && Helpful([event] + more)
  {
    RunCons(s, event, more);
    HelpfulConcat([event], more);
  }

  lemma RemoveOne(ids: set<int>, id: int)
    requires id in ids
    ensures |ids - {id}| < |ids|
  {
  }

  lemma OneMoreResult(s: Sched, find: Piece -> (nat, nat), id: int)
    requires Inv(s) && Finds(find) && s.pending == [] && id in BusyIds(s.miners)
    ensures var found := find(PieceOf(s.miners[id]));
      var r := OnResult(s, id, found.0, found.1);
      && 0 < found.0 && r.Ok? && Inv(r.s) && r.s.pending == [] && SameLost(s, r.s)
      && BusyIds(r.s.miners) == BusyIds(s.miners) - {id}
  {
    var found := find(PieceOf(s.miners[id]));
    ResultKeepsInv(s, id, found.0, found.1);
  }

  lemma {:induction false} AllDelivered(s: Sched, find: Piece -> (nat, nat)) returns (more: seq<Event>)
    requires Inv(s) && Finds(find) && s.pending == []
    ensures Helpful(more) && Run(s, more).Ok? && Inv(Run(s, more).s)
    ensures Run(s, more).s.pending == [] && BusyIds(Run(s, more).s.miners) == {} && SameLost(s, Run(s, more).s)
    decreases |BusyIds(s.miners)|
  {
    more := [];
    if BusyIds(s.miners) != {} {
      var id := Pick(BusyIds(s.miners));
      var found := find(PieceOf(s.miners[id]));
      var event := Result(id, found.0, found.1);
      OneMoreResult(s, find, id);
      RemoveOne(BusyIds(s.miners), id);
      var rest := AllDelivered(OnResult(s, id, found.0, found.1).s, find);
      ResultFirst(s, event, rest);
      more := [event] + rest;
    }
  }

  // ---- then nobody waits ----

  lemma NobodyWaits(s: Sched, c: int)
    requires Inv(s) && s.pending == [] && BusyIds(s.miners) == {} && c in s.hist && !s.hist[c].lost
    ensures Answered(s, c)
  {
    assert RequestOk(s, c);
    forall id | id in s.miners ensures s.miners[id].clientID != c {
      assert id !in BusyIds(s.miners);
    }
    BusyNone(s.miners, c);
    CountedSize(s.hist[c].counted);
    assert c !in s.tasks;
  }

  /** From every reachable state, whatever the miners find, some run without a request, a loss
      or a crash answers every client that has not been lost. */
  lemma EveryoneCanBeAnswered(s: Sched, find: Piece -> (nat, nat)) returns (more: seq<Event>)
    requires Reachable(s) && Finds(find)
    ensures Helpful(more) && Run(s, more).Ok?
    ensures forall c | c in s.hist && !s.hist[c].lost :: Answered(Run(s, more).s, c)
  {
    ReachableInv(s);
    var first := AllDispatched(s);
    var second := AllDelivered(Run(s, first).s, find);
    RunConcat(s, first, second);
    more := first + second;
    var t := Run(s, more).s;
    forall c | c in s.hist && !s.hist[c].lost ensures Answered(t, c) {
      NobodyWaits(t, c);
    }
  }
}
