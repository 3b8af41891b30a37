/** No reachable state is stuck: from each of them some finite run finishes the handshake,
    and some finite run delivers everything, with packets written in that run only. */
module LspProgress {
  import opened Collections
  import opened LspMachine
  import opened LspSystem
  import opened LspSafety
  import opened LspTheorems
  import opened LspSources
  import opened LspOrder
  import opened LspRivals

  /** The network has lost every packet in flight. */
  function Silenced(s: System): System {
    s.(up := {}, down := {})
  }

  lemma SilencedOk(p: Params, s: System)
    requires Inv(p, s)
    ensures Inv(p, Silenced(s)) && Silenced(s) == Apply(p, s, Lose(s.up, s.down))
  {
    StepKeepsInv(p, s, Lose(s.up, s.down));
  }

  // ---- the effect of single steps ----

  lemma TimerEffect(p: Params, e: Endpoint)
    requires !e.status.HandlerClosed? && 0 <= e.epochCount && e.epochCount + 1 < p.retries
    ensures Act(p, e, Timer) == e.(epochCount := e.epochCount + 1)
    ensures Sent(p, e, Timer) == Reminder(e) + e.tbuffer.Values
  {
  }

  lemma DataEffect(p: Params, e: Endpoint, m: Message)
    requires m.Data? && m.size <= |m.payload| && !e.status.HandlerClosed?
    ensures var e' := Act(p, e, Receive(m));
      e'.id == e.id && e'.status == e.status && e'.epochCount == 0
    ensures Sent(p, e, Receive(m)) == {Ack(e.id, m.seqNum)}
  {
    DataKeepsSender(p, e.(epochCount := 0), m);
  }

  lemma AckEffect(p: Params, e: Endpoint, m: Message)
    requires m.Ack? && m.seqNum in e.tbuffer && !e.status.HandlerClosed?
    requires e.tbuffer[m.seqNum].Connect? ==> e.id < 0
    ensures Act(p, e, Receive(m)) ==
      e.(epochCount := 0, tbuffer := e.tbuffer - {m.seqNum},
         id := if e.tbuffer[m.seqNum].Connect? then m.connId else e.id)
  {
  }

  // ---- handshake ----

  lemma ClientTakesId(p: Params, s: System, a: Addr, i: int)
    requires a in s.clients && SenderOk(p, s.clients[a]) && s.clients[a].id == -1
    requires !s.clients[a].status.HandlerClosed? && (a, Ack(i, 0)) in s.down
    ensures var t := Apply(p, s, ClientStep(a, Receive(Ack(i, 0))));
      a in t.clients && t.clients[a].id == i
  {
    assert s.clients[a].tbuffer[0] == Numbering(s.clients[a], 0);
    AckEffect(p, s.clients[a], Ack(i, 0));
  }

  /** One more epoch of a live session and the arrival of its ack connect the client. */
  lemma HandshakeCompletes(p: Params, steps: seq<Step>, a: Addr, i: int) returns (more: seq<Step>)
    requires var s := Reached(p, steps);
      && a in s.clients && s.clients[a].id == -1 && !s.clients[a].status.HandlerClosed?
      && i in s.sessions && s.sessions[i].addr == a && !s.sessions[i].ep.status.HandlerClosed?
      && s.sessions[i].ep.epochCount + 1 < p.retries
    ensures var t := Run(p, Silenced(Reached(p, steps)), more);
      a in t.clients && t.clients[a].id == i
  {
    var s0 := Silenced(Reached(p, steps));
    UnansweredSessionRepeatsAck(p, steps, i);
    ReachedInv(p, steps);
    assert ClientOk(p, Reached(p, steps), a);
    var s1 := Apply(p, s0, SessionStep(i, Timer, a));
    assert (a, Ack(i, 0)) in s1.down;
    ClientTakesId(p, s1, a, i);
    var last := ClientStep(a, Receive(Ack(i, 0)));
    RunCons(p, s0, SessionStep(i, Timer, a), [last]);
    RunCons(p, s1, last, []);
    more := [SessionStep(i, Timer, a)] + [last];
  }

  /** Without a live session for its address, the client's own epoch starts over. */
  lemma HandshakeStarts(p: Params, steps: seq<Step>, a: Addr) returns (more: seq<Step>)
    requires var s := Reached(p, steps);
      && a in s.clients && s.clients[a].id == -1 && !s.clients[a].status.HandlerClosed?
      && s.clients[a].epochCount + 1 < p.retries
      && AcceptedId(s.table, a).Some?
    ensures var s := Reached(p, steps);
      var t := Run(p, Silenced(s), more);
      a in t.clients && t.clients[a].id == s.table.lastConnId
  {
    ReachedInv(p, steps);
    SilencedOk(p, Reached(p, steps));
    more := Starts(p, Silenced(Reached(p, steps)), a);
  }

  lemma Starts(p: Params, s0: System, a: Addr) returns (more: seq<Step>)
    requires Inv(p, s0) && a in s0.clients && s0.clients[a].id == -1 && !s0.clients[a].status.HandlerClosed?
    requires s0.clients[a].epochCount + 1 < p.retries && AcceptedId(s0.table, a).Some?
    ensures var t := Run(p, s0, more);
      a in t.clients && t.clients[a].id == s0.table.lastConnId
  {
    assert ClientOk(p, s0, a);
    var i := s0.table.lastConnId;
    TimerEffect(p, s0.clients[a]);
    var s1 := Apply(p, s0, ClientStep(a, Timer));
    assert (a, Connect) in s1.up;
    var s2 := Apply(p, s1, AcceptConnect(a));
    assert s2.clients[a].tbuffer == s0.clients[a].tbuffer;
    ClientTakesId(p, s2, a, i);
    var last := ClientStep(a, Receive(Ack(i, 0)));
    RunCons(p, s0, ClientStep(a, Timer), [AcceptConnect(a)] + [last]);
    RunCons(p, s1, AcceptConnect(a), [last]);
    RunCons(p, s2, last, []);
    more := [ClientStep(a, Timer)] + ([AcceptConnect(a)] + [last]);
  }

  // ---- a client that has given up ----

  predicate Connected(s: System, a: Addr) {
    a in s.clients && s.clients[a].id != -1
  }

  ghost predicate CanConnect(p: Params, s: System, a: Addr) {
    exists more :: Connected(Run(p, s, more), a)
  }

  /** Without an identifier NewClient has not returned, and when its handler has, it never will. */
  lemma {:induction false} GivenUpForEver(p: Params, s: System, a: Addr, more: seq<Step>)
    requires a in s.clients && s.clients[a].status.HandlerClosed? && s.clients[a].id == -1
    ensures a in Run(p, s, more).clients && !Connected(Run(p, s, more), a)
    decreases |more|
  {
    if more != [] {
      GivenUpForEver(p, Apply(p, s, more[0]), a, more[1..]);
    }
  }

  /** So it is after as many epochs as are allowed. */
  lemma GivesUp(p: Params, a: Addr) returns (steps: seq<Step>)
    requires 1 <= p.retries
    ensures |steps| == p.retries + 1
    ensures var s := Reached(p, steps);
      a in s.clients && s.clients[a].status.HandlerClosed? && s.clients[a].id == -1
  {
    var first := StartClient(a);
    var rest := LastsUntil(p, Apply(p, Init(), first), a);
    RunCons(p, Init(), first, rest);
    steps := [first] + rest;
  }

  lemma {:induction false} LastsUntil(p: Params, s: System, a: Addr) returns (more: seq<Step>)
    requires a in s.clients && s.clients[a].id == -1 && !s.clients[a].status.HandlerClosed?
    requires 0 <= s.clients[a].epochCount < p.retries
    ensures |more| == p.retries - s.clients[a].epochCount
    ensures var t := Run(p, s, more);
      a in t.clients && t.clients[a].status.HandlerClosed? && t.clients[a].id == -1
    decreases p.retries - s.clients[a].epochCount
  {
    var step := ClientStep(a, Timer);
    var t := Apply(p, s, step);
    var rest: seq<Step> := [];
    if s.clients[a].epochCount + 1 < p.retries {
      rest := LastsUntil(p, t, a);
    }
    RunCons(p, s, step, rest);
    more := [step] + rest;
  }

  /** A connection still open for the address is closed, and then the handshake starts. */
  lemma Reconnects(p: Params, s: System, a: Addr) returns (more: seq<Step>)
    requires Inv(p, s) && a in s.clients && s.clients[a].id == -1 && !s.clients[a].status.HandlerClosed?
    requires s.clients[a].epochCount + 1 < p.retries
    ensures Connected(Run(p, s, more), a)
  {
    if AcceptedId(s.table, a).Some? {
      more := Starts(p, s, a);
    } else {
      var l :| l in s.table.clients && s.table.clients[l] == a;
      var step := CloseConn(l, {});
      StepKeepsInv(p, s, step);
      Closes(s, a, l, {});
      var rest := Starts(p, Apply(p, s, step), a);
      RunCons(p, s, step, rest);
      more := [step] + rest;
    }
  }

  /** From every reachable state, and after the network has lost every packet, a waiting client
      with an epoch left can still be connected iff its handler has not returned. */
  lemma ConnectsIffNotGivenUp(p: Params, steps: seq<Step>, a: Addr)
    requires a in Reached(p, steps).clients && Reached(p, steps).clients[a].id == -1
    requires var c := Reached(p, steps).clients[a];
      !c.status.HandlerClosed? ==> c.epochCount + 1 < p.retries
    ensures CanConnect(p, Silenced(Reached(p, steps)), a) <==> !Reached(p, steps).clients[a].status.HandlerClosed?
  {
    var s := Silenced(Reached(p, steps));
    if s.clients[a].status.HandlerClosed? {
      forall more ensures !Connected(Run(p, s, more), a) {
        GivenUpForEver(p, s, a, more);
      }
    } else {
      ReachedInv(p, steps);
      SilencedOk(p, Reached(p, steps));
      var more := Reconnects(p, s, a);
      assert Connected(Run(p, s, more), a);
    }
  }

  // ---- delivery ----

  /** The connection `i` of client `a` is established and neither side is closing. */
  predicate Established(s: System, a: Addr, i: int) {
    && a in s.clients && i in s.sessions && s.sessions[i].addr == a && i in s.table.clients
    && 0 <= s.clients[a].id == i == s.sessions[i].ep.id
    && s.clients[a].status.NotClosing? && s.sessions[i].ep.status.NotClosing?
  }

  ghost predicate Open(p: Params, s: System, a: Addr, i: int) {
    Inv(p, s) && Established(s, a, i) && 1 <= p.windows && 1 < p.retries
  }

  /** No session but `i` has moved. */
  predicate OthersSame(s: System, t: System, i: int) {
    && s.sessions.Keys == t.sessions.Keys
    && (forall j | j in s.sessions :: t.sessions[j].addr == s.sessions[j].addr)
    && (forall j | j in s.sessions && j != i :: t.sessions[j] == s.sessions[j])
  }

  lemma ClientResends(p: Params, s: System, a: Addr, i: int, k: int)
    requires Established(s, a, i) && 0 <= s.clients[a].epochCount && s.clients[a].epochCount + 1 < p.retries
    requires k in s.clients[a].tbuffer
    ensures var t := Apply(p, s, ClientStep(a, Timer));
      && Established(t, a, i) && OthersSame(s, t, i) && t.sessions == s.sessions
      && t.clients[a] == s.clients[a].(epochCount := s.clients[a].epochCount + 1)
      && (a, s.clients[a].tbuffer[k]) in t.up
  {
    TimerEffect(p, s.clients[a]);
    assert s.clients[a].tbuffer[k] in s.clients[a].tbuffer.Values;
  }

  lemma SessionTakesData(p: Params, s: System, a: Addr, i: int, m: Message)
    requires Established(s, a, i) && (a, m) in s.up
    requires m.Data? && m.connId == i && m.size <= |m.payload|
    ensures var t := Apply(p, s, SessionStep(i, Receive(m), a));
      && Established(t, a, i) && OthersSame(s, t, i) && t.clients == s.clients
      && t.sessions[i].ep == Act(p, s.sessions[i].ep, Receive(m))
      && (a, Ack(i, m.seqNum)) in t.down
  {
    DataEffect(p, s.sessions[i].ep, m);
  }

  lemma ClientTakesAck(p: Params, s: System, a: Addr, i: int, k: int)
    requires Established(s, a, i) && (a, Ack(i, k)) in s.down
    requires k in s.clients[a].tbuffer && s.clients[a].tbuffer[k].Data?
    ensures var t := Apply(p, s, ClientStep(a, Receive(Ack(i, k))));
      && Established(t, a, i) && OthersSame(s, t, i)
      && t.clients[a] == s.clients[a].(epochCount := 0, tbuffer := s.clients[a].tbuffer - {k})
      && t.sessions == s.sessions && t.down == s.down && t.up == s.up
  {
    AckEffect(p, s.clients[a], Ack(i, k));
  }

  lemma ClientMessage(p: Params, s: System, a: Addr, k: int)
    requires Inv(p, s) && a in s.clients && 0 <= s.clients[a].id && k in s.clients[a].tbuffer
    ensures var m := s.clients[a].tbuffer[k];
      m.Data? && m.connId == s.clients[a].id && m.seqNum == k && m.size == |m.payload|
    ensures 0 <= s.clients[a].epochCount
  {
    assert ClientOk(p, s, a);
    assert s.clients[a].tbuffer[k] == Numbering(s.clients[a], k);
  }

  lemma SessionMessage(p: Params, s: System, i: int, k: int)
    requires Inv(p, s) && i in s.sessions && k in s.sessions[i].ep.tbuffer
    ensures var m := s.sessions[i].ep.tbuffer[k];
      m.Data? && m.connId == i && m.seqNum == k && m.size == |m.payload|
    ensures 0 <= s.sessions[i].ep.epochCount
  {
    assert SessionOk(p, s, i);
    assert s.sessions[i].ep.tbuffer[k] == Numbering(s.sessions[i].ep, k);
  }

  /** Resend, deliver, acknowledge: one message less to acknowledge. */
  lemma ClientDeliversOne(p: Params, s: System, a: Addr, i: int, k: int) returns (more: seq<Step>)
    requires Open(p, s, a, i) && s.clients[a].epochCount + 1 < p.retries
    requires k in s.clients[a].tbuffer
    ensures var t := Run(p, s, more);
      && Established(t, a, i) && OthersSame(s, t, i)
      && t.clients[a] == s.clients[a].(epochCount := 0, tbuffer := s.clients[a].tbuffer - {k})
      && t.sessions[i].ep == Act(p, s.sessions[i].ep, Receive(s.clients[a].tbuffer[k]))
  {
    var m := s.clients[a].tbuffer[k];
    ClientMessage(p, s, a, k);
    ClientResends(p, s, a, i, k);
    var s1 := Apply(p, s, ClientStep(a, Timer));
    SessionTakesData(p, s1, a, i, m);
    var s2 := Apply(p, s1, SessionStep(i, Receive(m), a));
    ClientTakesAck(p, s2, a, i, k);
    more := Three(p, s, ClientStep(a, Timer), SessionStep(i, Receive(m), a), ClientStep(a, Receive(Ack(i, k))));
  }

  lemma Three(p: Params, s: System, x: Step, y: Step, z: Step) returns (more: seq<Step>)
    ensures Run(p, s, more) == Apply(p, Apply(p, Apply(p, s, x), y), z)
  {
    more := [x] + ([y] + [z]);
    RunCons(p, s, x, [y] + [z]);
    RunCons(p, Apply(p, s, x), y, [z]);
    RunCons(p, Apply(p, Apply(p, s, x), y), z, []);
    assert [z] + [] == [z];
  }

  /** The receiving half has not moved. */
  predicate SameReceiver(e: Endpoint, e': Endpoint) {
    e'.rbuffer == e.rbuffer && e'.rmsg == e.rmsg && e'.rsq == e.rsq && e'.read == e.read
  }

  /** With the buffer empty the window is open and the next message gets its number. */
  lemma ClientSendsNext(p: Params, s: System, a: Addr, i: int)
    requires Established(s, a, i) && 1 <= p.windows
    requires s.clients[a].tbuffer == map[] && s.clients[a].tmsg != []
    ensures var t := Apply(p, s, ClientStep(a, SendNext));
      && Established(t, a, i) && OthersSame(s, t, i) && t.sessions == s.sessions
      && t.clients[a].tmsg == s.clients[a].tmsg[1..] && SameReceiver(s.clients[a], t.clients[a])
      && t.clients[a].tbuffer.Keys == {s.clients[a].tsq} && t.clients[a].written == s.clients[a].written
      && t.clients[a].epochCount == s.clients[a].epochCount
  {
  }

  lemma {:induction false} ClientDrains(p: Params, s: System, a: Addr, i: int) returns (more: seq<Step>)
    requires Open(p, s, a, i) && s.clients[a].epochCount + 1 < p.retries
    ensures var t := Run(p, s, more);
      && Established(t, a, i) && OthersSame(s, t, i)
      && t.clients[a].tbuffer == map[] && t.clients[a].tmsg == []
      && t.clients[a].written == s.clients[a].written && SameReceiver(s.clients[a], t.clients[a])
    decreases |s.clients[a].tmsg|, |s.clients[a].tbuffer|
  {
    var c := s.clients[a];
    if c.tbuffer != map[] {
      var k := PickKey(c.tbuffer);
      var first := ClientDeliversOne(p, s, a, i, k);
      RemoveShrinks(c.tbuffer, k);
      RunKeepsInv(p, s, first);
      var rest := ClientDrains(p, Run(p, s, first), a, i);
      RunConcat(p, s, first, rest);
      more := first + rest;
    } else if c.tmsg != [] {
      ClientSendsNext(p, s, a, i);
      StepKeepsInv(p, s, ClientStep(a, SendNext));
      var rest := ClientDrains(p, Apply(p, s, ClientStep(a, SendNext)), a, i);
      RunCons(p, s, ClientStep(a, SendNext), rest);
      more := [ClientStep(a, SendNext)] + rest;
    } else {
      more := [];
    }
  }

  /** From every reachable state, and after the network has lost every packet, some run
      delivers to the server all that the client wrote and has all of it acknowledged. */
  lemma ClientCanDeliverAll(p: Params, steps: seq<Step>, a: Addr, i: int) returns (more: seq<Step>)
    requires 1 <= p.windows && Established(Reached(p, steps), a, i)
    requires Reached(p, steps).clients[a].epochCount + 1 < p.retries
    ensures var s, t := Reached(p, steps), Run(p, Silenced(Reached(p, steps)), more);
      && a in t.clients && i in t.sessions
      && t.clients[a].written == s.clients[a].written
      && t.clients[a].tbuffer == map[] && t.clients[a].tmsg == []
      && Delivered(t.sessions[i].ep) == s.clients[a].written
  {
    var s := Reached(p, steps);
    ReachedInv(p, steps);
    SilencedOk(p, s);
    assert ClientOk(p, s, a);
    more := ClientDrains(p, Silenced(s), a, i);
    RunKeepsInv(p, Silenced(s), more);
    var t := Run(p, Silenced(s), more);
    assert ClientOk(p, t, a) && SessionOk(p, t, i);
    AllAckedAllDelivered(p, t.clients[a], t.sessions[i].ep);
  }

  // ---- the same from the server's side ----

  lemma SessionResends(p: Params, s: System, a: Addr, i: int, k: int)
    requires Established(s, a, i)
    requires 0 <= s.sessions[i].ep.epochCount && s.sessions[i].ep.epochCount + 1 < p.retries
    requires k in s.sessions[i].ep.tbuffer
    ensures var t := Apply(p, s, SessionStep(i, Timer, a));
      && Established(t, a, i) && OthersSame(s, t, i) && t.clients == s.clients
      && t.sessions[i].ep == s.sessions[i].ep.(epochCount := s.sessions[i].ep.epochCount + 1)
      && (a, s.sessions[i].ep.tbuffer[k]) in t.down
  {
    TimerEffect(p, s.sessions[i].ep);
    assert s.sessions[i].ep.tbuffer[k] in s.sessions[i].ep.tbuffer.Values;
  }

  lemma ClientTakesData(p: Params, s: System, a: Addr, i: int, m: Message)
    requires Established(s, a, i) && (a, m) in s.down
    requires m.Data? && m.size <= |m.payload|
    ensures var t := Apply(p, s, ClientStep(a, Receive(m)));
      && Established(t, a, i) && OthersSame(s, t, i) && t.sessions == s.sessions
      && t.clients[a] == Act(p, s.clients[a], Receive(m))
      && (a, Ack(i, m.seqNum)) in t.up
  {
    DataEffect(p, s.clients[a], m);
  }

  lemma SessionTakesAck(p: Params, s: System, a: Addr, i: int, k: int)
    requires Established(s, a, i) && (a, Ack(i, k)) in s.up
    requires k in s.sessions[i].ep.tbuffer && s.sessions[i].ep.tbuffer[k].Data?
    ensures var t := Apply(p, s, SessionStep(i, Receive(Ack(i, k)), a));
      && Established(t, a, i) && OthersSame(s, t, i)
      && t.sessions[i].ep == s.sessions[i].ep.(epochCount := 0, tbuffer := s.sessions[i].ep.tbuffer - {k})
      && t.clients == s.clients && t.down == s.down && t.up == s.up
  {
    AckEffect(p, s.sessions[i].ep, Ack(i, k));
  }

  lemma SessionDeliversOne(p: Params, s: System, a: Addr, i: int, k: int) returns (more: seq<Step>)
    requires Open(p, s, a, i) && s.sessions[i].ep.epochCount + 1 < p.retries
    requires k in s.sessions[i].ep.tbuffer
    ensures var t := Run(p, s, more);
      && Established(t, a, i) && OthersSame(s, t, i)
      && t.sessions[i].ep == s.sessions[i].ep.(epochCount := 0, tbuffer := s.sessions[i].ep.tbuffer - {k})
      && t.clients[a] == Act(p, s.clients[a], Receive(s.sessions[i].ep.tbuffer[k]))
  {
    var m := s.sessions[i].ep.tbuffer[k];
    SessionMessage(p, s, i, k);
    SessionResends(p, s, a, i, k);
    var s1 := Apply(p, s, SessionStep(i, Timer, a));
    ClientTakesData(p, s1, a, i, m);
    var s2 := Apply(p, s1, ClientStep(a, Receive(m)));
    SessionTakesAck(p, s2, a, i, k);
    more := Three(p, s, SessionStep(i, Timer, a), ClientStep(a, Receive(m)), SessionStep(i, Receive(Ack(i, k)), a));
  }

  lemma SessionSendsNext(p: Params, s: System, a: Addr, i: int)
    requires Established(s, a, i) && 1 <= p.windows
    requires s.sessions[i].ep.tbuffer == map[] && s.sessions[i].ep.tmsg != []
    ensures var t := Apply(p, s, SessionStep(i, SendNext, a));
      && Established(t, a, i) && OthersSame(s, t, i)
      && t.clients == s.clients
      && t.sessions[i].ep.tmsg == s.sessions[i].ep.tmsg[1..] && SameReceiver(s.sessions[i].ep, t.sessions[i].ep)
      && t.sessions[i].ep.tbuffer.Keys == {s.sessions[i].ep.tsq}
      && t.sessions[i].ep.written == s.sessions[i].ep.written
      && t.sessions[i].ep.epochCount == s.sessions[i].ep.epochCount
  {
  }

  lemma {:induction false} SessionDrains(p: Params, s: System, a: Addr, i: int) returns (more: seq<Step>)
    requires Open(p, s, a, i) && s.sessions[i].ep.epochCount + 1 < p.retries
    ensures var t := Run(p, s, more);
      && Established(t, a, i) && OthersSame(s, t, i)
      && t.sessions[i].ep.tbuffer == map[] && t.sessions[i].ep.tmsg == []
      && t.sessions[i].ep.written == s.sessions[i].ep.written && SameReceiver(s.sessions[i].ep, t.sessions[i].ep)
    decreases |s.sessions[i].ep.tmsg|, |s.sessions[i].ep.tbuffer|
  {
    var x := s.sessions[i].ep;
    if x.tbuffer != map[] {
      var k := PickKey(x.tbuffer);
      var first := SessionDeliversOne(p, s, a, i, k);
      RemoveShrinks(x.tbuffer, k);
      RunKeepsInv(p, s, first);
      var rest := SessionDrains(p, Run(p, s, first), a, i);
      RunConcat(p, s, first, rest);
      more := first + rest;
    } else if x.tmsg != [] {
      SessionSendsNext(p, s, a, i);
      StepKeepsInv(p, s, SessionStep(i, SendNext, a));
      var rest := SessionDrains(p, Apply(p, s, SessionStep(i, SendNext, a)), a, i);
      RunCons(p, s, SessionStep(i, SendNext, a), rest);
      more := [SessionStep(i, SendNext, a)] + rest;
    } else {
      more := [];
    }
  }

  lemma StillNoRival(p: Params, s: System, t: System, a: Addr, i: int)
    requires Inv(p, s) && Established(s, a, i) && 1 <= p.windows && NoRival(s, a, i, p.windows + 1)
    requires OthersSame(s, t, i) && t.sessions[i].ep.written == s.sessions[i].ep.written && a in t.clients
    ensures NoRival(t, a, i, t.clients[a].rsq)
  {
    var n := t.clients[a].rsq;
    forall j | j in t.sessions && t.sessions[j].addr == a && j != i
      ensures Agrees(t.sessions[j].ep, t.sessions[i].ep, n)
    {
      var y, x, x' := s.sessions[j].ep, s.sessions[i].ep, t.sessions[i].ep;
      NumbersWithinWindow(p, s, a, j);
      assert Agrees(y, x, p.windows + 1);
      forall k | 1 <= k < y.tsq && k < n ensures SameAt(y, x', k) {
        assert SameAt(y, x, k);
      }
    }
  }

  /** Whatever else the address was used for, the server's messages can all be acknowledged,
      and so many are then delivered; if no other session has numbered anything different,
      they are these. */
  lemma SessionCanDeliverAll(p: Params, steps: seq<Step>, a: Addr, i: int) returns (more: seq<Step>)
    requires 1 <= p.windows && Established(Reached(p, steps), a, i)
    requires Reached(p, steps).sessions[i].ep.epochCount + 1 < p.retries
    ensures var s, t := Reached(p, steps), Run(p, Silenced(Reached(p, steps)), more);
      && a in t.clients && i in t.sessions
      && t.sessions[i].ep.written == s.sessions[i].ep.written
      && t.sessions[i].ep.tbuffer == map[] && t.sessions[i].ep.tmsg == []
      && |s.sessions[i].ep.written| <= |Delivered(t.clients[a])|
      && (NoRival(s, a, i, p.windows + 1) ==> Delivered(t.clients[a]) == s.sessions[i].ep.written)
  {
    var s := Reached(p, steps);
    ReachedInv(p, steps);
    SilencedOk(p, s);
    assert SessionOk(p, s, i);
    more := SessionDrains(p, Silenced(s), a, i);
    RunKeepsInv(p, Silenced(s), more);
    var t := Run(p, Silenced(s), more);
    RunKeepsSourced(p, Init(), steps, a);
    SourcedFrame(s, Silenced(s), a);
    RunKeepsSourced(p, Silenced(s), more, a);
    SessionAllAcked(p, t, i);
    if NoRival(s, a, i, p.windows + 1) {
      StillNoRival(p, Silenced(s), t, a, i);
    }
  }
}
