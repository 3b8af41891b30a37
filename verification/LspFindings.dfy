/** Where the protocol falls short of its documentation, and exactly when. */
module LspFindings {
  import opened Collections
  import opened LspMachine
  import opened LspSystem
  import opened LspSafety
  import opened LspTheorems
  import opened LspSources

  // ---- a duplicate is parked for ever, and then Close never finishes ----

  /** A payload already handed over is in the reorder buffer again. */
  predicate HasStale(e: Endpoint) {
    exists k | k in e.rbuffer :: k < e.rsq
  }

  lemma {:induction false} DrainKeepsStale(e: Endpoint)
    ensures HasStale(Drain(e)) <==> HasStale(e)
    decreases |e.rbuffer|
  {
    if e.rsq in e.rbuffer {
      var e1 := e.(rmsg := e.rmsg + [e.rbuffer[e.rsq]], rsq := e.rsq + 1, rbuffer := e.rbuffer - {e.rsq});
      RemoveShrinks(e.rbuffer, e.rsq);
      DrainKeepsStale(e1);
      forall k | k in e.rbuffer && k < e.rsq ensures k in e1.rbuffer {}
      forall k | k in e1.rbuffer && k < e1.rsq ensures k in e.rbuffer && k < e.rsq {}
    }
  }

  /** A complete data message leaves a stale payload behind iff there was one already or it
      is a duplicate of something delivered. */
  lemma StaleIffDuplicate(p: Params, e: Endpoint, m: Message)
    requires m.Data? && m.size <= |m.payload| && !e.status.HandlerClosed?
    ensures HasStale(Act(p, e, Receive(m))) <==> HasStale(e) || m.seqNum < e.rsq
  {
    var e1 := Store(e.(epochCount := 0), m.seqNum, m.payload);
    forall k | k in e.rbuffer ensures k in e1.rbuffer {}
    assert m.seqNum in e1.rbuffer;
    assert HasStale(e1) <==> HasStale(e) || m.seqNum < e.rsq;
    DrainKeepsStale(e1);
  }

  lemma StaleStays(p: Params, e: Endpoint, a: Action)
    requires HasStale(e)
    ensures HasStale(Act(p, e, a)) && !MayExit(e)
  {
    if a.Receive? && a.m.Data? && a.m.size <= |a.m.payload| && Runs(e, a) {
      StaleIffDuplicate(p, e, a.m);
    }
  }

  lemma {:induction false} ClientStaleForEver(p: Params, s: System, a: Addr, more: seq<Step>)
    requires a in s.clients && HasStale(s.clients[a])
    ensures var t := Run(p, s, more);
      && a in t.clients && HasStale(t.clients[a])
      && !MayExit(t.clients[a])
    decreases |more|
  {
    if more == [] {
      StaleStays(p, s.clients[a], Exit);
    } else {
      var t := Apply(p, s, more[0]);
      assert a in t.clients && HasStale(t.clients[a]) by {
        if more[0].ClientStep? && more[0].a == a {
          StaleStays(p, s.clients[a], more[0].act);
        }
      }
      ClientStaleForEver(p, t, a, more[1..]);
    }
  }

  lemma StepKeepsStaleSession(p: Params, s: System, i: int, step: Step)
    requires i in s.sessions && i < s.table.lastConnId && HasStale(s.sessions[i].ep)
    ensures var t := Apply(p, s, step);
      i in t.sessions && i < t.table.lastConnId && HasStale(t.sessions[i].ep)
  {
    if step.SessionStep? && step.id == i {
      StaleStays(p, s.sessions[i].ep, step.act);
    }
  }

  lemma {:induction false} SessionStaleForEver(p: Params, s: System, i: int, more: seq<Step>)
    requires i in s.sessions && i < s.table.lastConnId && HasStale(s.sessions[i].ep)
    ensures var t := Run(p, s, more);
      && i in t.sessions && HasStale(t.sessions[i].ep)
      && !MayExit(t.sessions[i].ep)
    decreases |more|
  {
    if more == [] {
      StaleStays(p, s.sessions[i].ep, Exit);
    } else {
      StepKeepsStaleSession(p, s, i, more[0]);
      SessionStaleForEver(p, Apply(p, s, more[0]), i, more[1..]);
    }
  }

  /** Once all that the session wrote is acknowledged, and no other session of the address is
      ahead of the client, a closing client's handler with nothing left to send can return iff
      no duplicate is parked. */
  lemma ClientExitsIffNothingStale(p: Params, steps: seq<Step>, a: Addr, i: int)
    requires var s := Reached(p, steps);
      && a in s.clients && i in s.sessions && s.sessions[i].addr == a
      && s.clients[a].status.StartClosing?
      && s.clients[a].tbuffer == map[] && s.clients[a].tmsg == []
      && s.sessions[i].ep.tbuffer == map[] && s.sessions[i].ep.tmsg == []
      && (forall j | j in s.sessions && s.sessions[j].addr == a && j != i :: s.sessions[j].ep.tsq <= s.clients[a].rsq)
    ensures MayExit(Reached(p, steps).clients[a]) <==> !HasStale(Reached(p, steps).clients[a])
  {
    var s := Reached(p, steps);
    ReachedInv(p, steps);
    RunKeepsSourced(p, Init(), steps, a);
    assert SessionOk(p, s, i) && ClientOk(p, s, a);
    var c := s.clients[a];
    AllStoredBelow(s.sessions[i].ep, c);
    if c.rbuffer != map[] {
      var k := PickKey(c.rbuffer);
      assert FromSome(s, a, k, c.rbuffer[k]);
      assert k < c.rsq;
    }
  }

  /** The same for a session that its client adopted. */
  lemma SessionExitsIffNothingStale(p: Params, steps: seq<Step>, i: int)
    requires var s := Reached(p, steps);
      && i in s.sessions && s.sessions[i].addr in s.clients
      && var x, c := s.sessions[i].ep, s.clients[s.sessions[i].addr];
      && c.id == i && x.status.StartClosing?
      && x.tbuffer == map[] && x.tmsg == [] && c.tbuffer == map[] && c.tmsg == []
    ensures MayExit(Reached(p, steps).sessions[i].ep) <==> !HasStale(Reached(p, steps).sessions[i].ep)
  {
    var s := Reached(p, steps);
    ReachedInv(p, steps);
    assert SessionOk(p, s, i);
    var x, c := s.sessions[i].ep, s.clients[s.sessions[i].addr];
    assert ClientOk(p, s, s.sessions[i].addr);
    AllAckedAllDelivered(p, c, x);
    if x.rbuffer != map[] {
      var k := PickKey(x.rbuffer);
      assert k < x.rsq;
    }
  }

  lemma FirstDataEffect(p: Params, e: Endpoint, connId: int, payload: Payload)
    requires Idle(e) && !e.status.HandlerClosed?
    ensures Act(p, e, Receive(NewData(connId, 1, payload))) == e.(epochCount := 0, rsq := 2, rmsg := [payload])
  {
    var e1 := Store(e.(epochCount := 0), 1, payload);
    assert e1.rbuffer - {1} == map[];
    assert Drain(e1) == Drain(e1.(rmsg := [] + [payload], rsq := 2, rbuffer := map[]));
  }

  /** Such a state can be reached: the network repeats one packet. */
  lemma DuplicateGetsParked(p: Params, payload: Payload) returns (steps: seq<Step>)
    requires 1 <= p.windows
    ensures 73 in Reached(p, steps).sessions && HasStale(Reached(p, steps).sessions[73].ep)
  {
    var s;
    steps, s := OneConnection(p);
    var m := NewData(73, 1, payload);
    steps, s := Then(p, steps, s, ClientStep(0, Write(payload)));
    assert s.clients[0].tmsg == [NewData(73, -1, payload)];
    steps, s := Then(p, steps, s, ClientStep(0, SendNext));
    assert (0, m) in s.up;
    steps, s := Then(p, steps, s, SessionStep(73, Receive(m), 0));
    assert (0, m) in s.up;
    FirstDataEffect(p, SessionInit(73), 73, payload);
    StaleIffDuplicate(p, s.sessions[73].ep, m);
    steps, s := Then(p, steps, s, SessionStep(73, Receive(m), 0));
  }

  /** The client's side of it. */
  lemma ClientParksDuplicate(p: Params, payload: Payload) returns (steps: seq<Step>)
    requires 1 <= p.windows
    ensures 0 in Reached(p, steps).clients && Reached(p, steps).clients[0].id == 73
    ensures HasStale(Reached(p, steps).clients[0])
  {
    var s;
    steps, s := OneConnection(p);
    var m := NewData(73, 1, payload);
    steps, s := Then(p, steps, s, SessionStep(73, Write(payload), 0));
    assert s.sessions[73].ep.tmsg == [NewData(73, -1, payload)];
    steps, s := Then(p, steps, s, SessionStep(73, SendNext, 0));
    assert (0, m) in s.down;
    FirstDataEffect(p, s.clients[0], 73, payload);
    steps, s := Then(p, steps, s, ClientStep(0, Receive(m)));
    assert (0, m) in s.down;
    StaleIffDuplicate(p, s.clients[0], m);
    steps, s := Then(p, steps, s, ClientStep(0, Receive(m)));
  }

  // ---- a second session for one address ----

  /** A rival in a run from the start: the server closes the connection, a repeated connect
      request opens another for the same address, and the client, which ignores the identifier
      of what it receives, reads its data. */
  lemma SecondSessionIsReadAsTheFirst(p: Params, payload: Payload) returns (steps: seq<Step>)
    requires 1 <= p.windows
    ensures var s := Reached(p, steps);
      && 0 in s.clients && s.clients[0].id == 73 && 73 in s.sessions && 74 in s.sessions
      && s.sessions[73].addr == s.sessions[74].addr == 0
      && s.sessions[73].ep.written == [] && Delivered(s.clients[0]) == [payload]
  {
    var s, m := Init(), NewData(74, 1, payload);
    steps, s := TwoConnections(p);
    steps, s := Then(p, steps, s, SessionStep(74, Write(payload), 0));
    assert s.sessions[74].ep.tmsg == [NewData(74, -1, payload)];
    steps, s := Then(p, steps, s, SessionStep(74, SendNext, 0));
    assert (0, m) in s.down;
    FirstDataEffect(p, s.clients[0], 74, payload);
    steps, s := Then(p, steps, s, ClientStep(0, Receive(m)));
  }

  /** Client 0 still believes to be 73; the server has closed 73 and opened 74. */
  lemma TwoConnections(p: Params) returns (steps: seq<Step>, s: System)
    ensures s == Reached(p, steps)
    ensures s.clients == map[0 := ClientInit().(id := 73, tbuffer := map[])]
    ensures s.sessions ==
      map[73 := Session(0, SessionInit(73).(status := StartClosing)), 74 := Session(0, SessionInit(74))]
    ensures 74 in s.table.clients
  {
    steps, s := OneConnection(p);
    steps, s := Then(p, steps, s, CloseConn(73, {}));
    assert s.table.clients == map[];
    steps, s := Then(p, steps, s, AcceptConnect(0));
  }

  /** Client 0 is connected as 73 and nothing else has happened. */
  lemma OneConnection(p: Params) returns (steps: seq<Step>, s: System)
    ensures s == Reached(p, steps)
    ensures s.clients == map[0 := ClientInit().(id := 73, tbuffer := map[])]
    ensures s.sessions == map[73 := Session(0, SessionInit(73))]
    ensures s.table == Table(map[73 := 0], 74)
    ensures (0, Connect) in s.up
  {
    steps, s := [], Init();
    steps, s := Then(p, steps, s, StartClient(0));
    assert s.clients == map[0 := ClientInit()];
    steps, s := Then(p, steps, s, AcceptConnect(0));
    assert s.sessions == map[73 := Session(0, SessionInit(73))];
    steps, s := Then(p, steps, s, ClientStep(0, Receive(Ack(73, 0))));
    assert ClientInit().tbuffer - {0} == map[];
  }

  lemma Then(p: Params, steps: seq<Step>, s: System, step: Step) returns (steps': seq<Step>, s': System)
    requires s == Reached(p, steps)
    ensures s' == Reached(p, steps') == Apply(p, s, step)
  {
    RunSnoc(p, Init(), steps, step);
    steps', s' := steps + [step], Apply(p, s, step);
  }
}
