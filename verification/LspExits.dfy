/** When one end alone can still close gracefully: exactly when it has parked no duplicate.
    What its own messages do to the other end does not matter. */
module LspExits {
  import opened Collections
  import opened LspMachine
  import opened LspSystem
  import opened LspSafety
  import opened LspTheorems
  import opened LspProgress
  import opened LspFindings
  import opened LspClosing

  /** The message that `r` waits for arrives: what was parked behind it is handed over too, and
      nothing gets stale. */
  lemma NextArrives(p: Params, r: Endpoint, m: Message, n: int)
    requires Waiting(r) && !HasStale(r) && !r.status.HandlerClosed? && Behind(r, n)
    requires m.Data? && m.seqNum == r.rsq < n && m.size <= |m.payload|
    ensures var r' := Act(p, r, Receive(m));
      !HasStale(r') && SameSender(r, r') && r'.epochCount == 0 && Behind(r', n) && r.rsq < r'.rsq
  {
    StaleIffDuplicate(p, r, m);
    DataKeepsSender(p, r.(epochCount := 0), m);
    var e1 := Store(r.(epochCount := 0), m.seqNum, m.payload);
    DrainGrows(e1);
    assert Stored(e1, m.seqNum) && Stored(Drain(e1), m.seqNum);
    var r' := Act(p, r, Receive(m));
    forall j | Stored(r', j) ensures j < n {
      assert Stored(e1, j);
      assert j == m.seqNum || Stored(r, j);
    }
  }

  /** What is parked, and not stale, waits for a message that is not acknowledged yet. */
  lemma WaitsForUnacked(s: Endpoint, r: Endpoint)
    requires AckedIsStored(s, r) && Waiting(r) && !HasStale(r) && Behind(r, s.tsq) && r.rbuffer != map[]
    ensures r.rsq in s.tbuffer && r.rsq < s.tsq
  {
    var k := PickKey(r.rbuffer);
    assert Stored(r, k) && !Stored(r, r.rsq);
  }

  // ---- the client ----

  lemma ClientHandsOverOne(p: Params, s: System, a: Addr, i: int) returns (more: seq<Step>)
    requires Open(p, s, a, i) && s.sessions[i].ep.epochCount + 1 < p.retries
    requires !HasStale(s.clients[a]) && Behind(s.clients[a], s.sessions[i].ep.tsq) && s.clients[a].rbuffer != map[]
    ensures var c, x, t := s.clients[a], s.sessions[i].ep, Run(p, s, more);
      && Established(t, a, i) && !HasStale(t.clients[a]) && Behind(t.clients[a], x.tsq)
      && SameSender(c, t.clients[a]) && t.clients[a].epochCount <= c.epochCount && c.rsq < t.clients[a].rsq
      && t.sessions[i].ep.tsq == x.tsq && t.sessions[i].ep.epochCount <= x.epochCount && c.rsq < x.tsq
  {
    var c, x := s.clients[a], s.sessions[i].ep;
    ClientFacts(p, s, a, i);
    assert SessionOk(p, s, i);
    WaitsForUnacked(x, c);
    SessionMessage(p, s, i, c.rsq);
    NextArrives(p, c, x.tbuffer[c.rsq], x.tsq);
    more := SessionDeliversOne(p, s, a, i, c.rsq);
  }

  lemma {:induction false} ClientHandsOverAll(p: Params, s: System, a: Addr, i: int) returns (more: seq<Step>)
    requires Open(p, s, a, i) && s.sessions[i].ep.epochCount + 1 < p.retries
    requires !HasStale(s.clients[a]) && Behind(s.clients[a], s.sessions[i].ep.tsq)
    ensures var c, t := s.clients[a], Run(p, s, more);
      && Established(t, a, i) && t.clients[a].rbuffer == map[]
      && SameSender(c, t.clients[a]) && t.clients[a].epochCount <= c.epochCount
    decreases s.sessions[i].ep.tsq - s.clients[a].rsq
  {
    more := [];
    if s.clients[a].rbuffer != map[] {
      var first := ClientHandsOverOne(p, s, a, i);
      RunKeepsInv(p, s, first);
      var rest := ClientHandsOverAll(p, Run(p, s, first), a, i);
      RunConcat(p, s, first, rest);
      more := first + rest;
    }
  }

  predicate ClientMayExit(s: System, a: Addr) {
    a in s.clients && MayExit(s.clients[a])
  }

  lemma ClientCloses(p: Params, s: System, a: Addr, i: int) returns (more: seq<Step>)
    requires Open(p, s, a, i) && !HasStale(s.clients[a]) && Behind(s.clients[a], s.sessions[i].ep.tsq)
    requires s.clients[a].epochCount + 1 < p.retries && s.sessions[i].ep.epochCount + 1 < p.retries
    ensures ClientMayExit(Run(p, s, more), a)
  {
    var first := ClientHandsOverAll(p, s, a, i);
    var s1 := Run(p, s, first);
    RunKeepsInv(p, s, first);
    var second := ClientDrains(p, s1, a, i);
    var s2 := Run(p, s1, second);
    var third := BothStartClose(p, s2, a, i);
    RunConcat(p, s1, second, third);
    RunConcat(p, s, first, second + third);
    more := first + (second + third);
  }

  ghost predicate ClientCanExit(p: Params, s: System, a: Addr) {
    exists more :: ClientMayExit(Run(p, s, more), a)
  }

  /** From every reachable state with the connection established, no other session of the
      address ahead and an epoch left on both sides: the client's Close can still have its
      handler return gracefully iff no duplicate is parked. */
  lemma ClientCanExitIffNothingStale(p: Params, steps: seq<Step>, a: Addr, i: int)
    requires 1 <= p.windows && Established(Reached(p, steps), a, i)
    requires Behind(Reached(p, steps).clients[a], Reached(p, steps).sessions[i].ep.tsq)
    requires Reached(p, steps).clients[a].epochCount + 1 < p.retries
    requires Reached(p, steps).sessions[i].ep.epochCount + 1 < p.retries
    ensures ClientCanExit(p, Reached(p, steps), a) <==> !HasStale(Reached(p, steps).clients[a])
  {
    var s := Reached(p, steps);
    ReachedInv(p, steps);
    if HasStale(s.clients[a]) {
      forall more ensures !ClientMayExit(Run(p, s, more), a) {
        ClientStaleForEver(p, s, a, more);
      }
    } else {
      ClientFacts(p, s, a, i);
      var more := ClientCloses(p, s, a, i);
      assert ClientMayExit(Run(p, s, more), a);
    }
  }

  // ---- the session ----

  lemma SessionHandsOverOne(p: Params, s: System, a: Addr, i: int) returns (more: seq<Step>)
    requires Open(p, s, a, i) && s.clients[a].epochCount + 1 < p.retries
    requires !HasStale(s.sessions[i].ep) && s.sessions[i].ep.rbuffer != map[]
    ensures var c, x, t := s.clients[a], s.sessions[i].ep, Run(p, s, more);
      && Established(t, a, i) && !HasStale(t.sessions[i].ep)
      && SameSender(x, t.sessions[i].ep) && t.sessions[i].ep.epochCount <= x.epochCount
      && x.rsq < t.sessions[i].ep.rsq && x.rsq < c.tsq
      && t.clients[a].tsq == c.tsq && t.clients[a].epochCount <= c.epochCount
  {
    var c, x := s.clients[a], s.sessions[i].ep;
    ClientFacts(p, s, a, i);
    assert SessionOk(p, s, i);
    WaitsForUnacked(c, x);
    ClientMessage(p, s, a, x.rsq);
    NextArrives(p, x, c.tbuffer[x.rsq], c.tsq);
    more := ClientDeliversOne(p, s, a, i, x.rsq);
  }

  lemma {:induction false} SessionHandsOverAll(p: Params, s: System, a: Addr, i: int) returns (more: seq<Step>)
    requires Open(p, s, a, i) && s.clients[a].epochCount + 1 < p.retries && !HasStale(s.sessions[i].ep)
    ensures var x, t := s.sessions[i].ep, Run(p, s, more);
      && Established(t, a, i) && t.sessions[i].ep.rbuffer == map[]
      && SameSender(x, t.sessions[i].ep) && t.sessions[i].ep.epochCount <= x.epochCount
    decreases s.clients[a].tsq - s.sessions[i].ep.rsq
  {
    more := [];
    if s.sessions[i].ep.rbuffer != map[] {
      var first := SessionHandsOverOne(p, s, a, i);
      RunKeepsInv(p, s, first);
      var rest := SessionHandsOverAll(p, Run(p, s, first), a, i);
      RunConcat(p, s, first, rest);
      more := first + rest;
    }
  }

  predicate SessionMayExit(s: System, i: int) {
    i in s.sessions && MayExit(s.sessions[i].ep)
  }

  lemma SessionCloses(p: Params, s: System, a: Addr, i: int) returns (more: seq<Step>)
    requires Open(p, s, a, i) && !HasStale(s.sessions[i].ep)
    requires s.clients[a].epochCount + 1 < p.retries && s.sessions[i].ep.epochCount + 1 < p.retries
    ensures SessionMayExit(Run(p, s, more), i)
  {
    var first := SessionHandsOverAll(p, s, a, i);
    var s1 := Run(p, s, first);
    RunKeepsInv(p, s, first);
    var second := SessionDrains(p, s1, a, i);
    var s2 := Run(p, s1, second);
    var third := BothStartClose(p, s2, a, i);
    RunConcat(p, s1, second, third);
    RunConcat(p, s, first, second + third);
    more := first + (second + third);
  }

  ghost predicate SessionCanExit(p: Params, s: System, i: int) {
    exists more :: SessionMayExit(Run(p, s, more), i)
  }

  /** The same for the session, whatever else the address is used for. */
  lemma SessionCanExitIffNothingStale(p: Params, steps: seq<Step>, a: Addr, i: int)
    requires 1 <= p.windows && Established(Reached(p, steps), a, i)
    requires Reached(p, steps).clients[a].epochCount + 1 < p.retries
    requires Reached(p, steps).sessions[i].ep.epochCount + 1 < p.retries
    ensures SessionCanExit(p, Reached(p, steps), i) <==> !HasStale(Reached(p, steps).sessions[i].ep)
  {
    var s := Reached(p, steps);
    ReachedInv(p, steps);
    if HasStale(s.sessions[i].ep) {
      IdentifierFacts(p, s, a, i);
      forall more ensures !SessionMayExit(Run(p, s, more), i) {
        SessionStaleForEver(p, s, i, more);
      }
    } else {
      ClientFacts(p, s, a, i);
      var more := SessionCloses(p, s, a, i);
      assert SessionMayExit(Run(p, s, more), i);
    }
  }
}
