/** When both ends of a connection can still close gracefully: exactly when neither has parked
    a duplicate, and for every message that was handed over but is not acknowledged the ack is
    still in flight.  If it is not, only a repetition brings another, and that gets parked. */
module LspClosing {
  import opened Collections
  import opened LspMachine
  import opened LspSystem
  import opened LspSafety
  import opened LspTheorems
  import opened LspSources
  import opened LspOrder
  import opened LspProgress
  import opened LspFindings

  /** Nothing that `s` still retransmits has been handed over at `r`. */
  predicate Fresh(s: Endpoint, r: Endpoint) {
    !HasStale(r) && forall k | k in s.tbuffer :: r.rsq <= k
  }

  /** The sending half has not moved. */
  predicate SameSender(e: Endpoint, e': Endpoint) {
    e'.tbuffer == e.tbuffer && e'.tmsg == e.tmsg && e'.tsq == e.tsq && e'.written == e.written
  }

  /** `r` has nothing with the number `n` or beyond. */
  ghost predicate Behind(r: Endpoint, n: int) {
    forall k | Stored(r, k) :: k < n
  }

  // ---- messages are repeated from the last one down ----

  /** Of the messages waiting for an ack the last arrives: then nothing gets stale, as it is
      parked, or else the only one left. */
  lemma LastArrives(p: Params, s: Endpoint, r: Endpoint, k: int, m: Message, n: int)
    requires Fresh(s, r) && Waiting(r) && !r.status.HandlerClosed? && Behind(r, n)
    requires k in s.tbuffer && (forall j | j in s.tbuffer :: j <= k) && k < n
    requires m.Data? && m.seqNum == k && m.size <= |m.payload|
    ensures var r' := Act(p, r, Receive(m));
      && !HasStale(r') && SameSender(r, r') && r'.epochCount == 0 && Behind(r', n)
      && forall j | j in s.tbuffer - {k} :: r'.rsq <= j
  {
    StaleIffDuplicate(p, r, m);
    DataKeepsSender(p, r.(epochCount := 0), m);
    var e1 := Store(r.(epochCount := 0), k, m.payload);
    DrainGrows(e1);
    var r' := Act(p, r, Receive(m));
    forall j | Stored(r', j) ensures j < n {
      assert Stored(e1, j);
      assert j == k || Stored(r, j);
    }
  }

  /** The sender has less to do; nothing else about the two has changed for the worse. */
  predicate Nearer(s: Endpoint, r: Endpoint, s': Endpoint, r': Endpoint) {
    && s'.written == s.written && SameReceiver(s, s') && SameSender(r, r') && s'.epochCount <= s.epochCount
    && r'.epochCount <= r.epochCount
    && (|s'.tmsg| < |s.tmsg| || (s'.tmsg == s.tmsg && |s'.tbuffer| < |s.tbuffer|))
  }

  /** What the invariant says about a client and the session that it adopted. */
  lemma ClientFacts(p: Params, s: System, a: Addr, i: int)
    requires Inv(p, s) && Established(s, a, i)
    ensures var c, x := s.clients[a], s.sessions[i].ep;
      && 0 <= c.epochCount && 0 <= x.epochCount && Waiting(c) && Waiting(x) && 1 <= c.tsq && 1 <= x.tsq
      && Behind(x, c.tsq)
      && (forall k | k in c.tbuffer :: k < c.tsq) && (forall k | k in x.tbuffer :: k < x.tsq)
      && x.tsq + |x.tmsg| == |x.written| + 1
  {
    assert ClientOk(p, s, a) && SessionOk(p, s, i);
  }

  lemma ClientDeliversLast(p: Params, s: System, a: Addr, i: int) returns (more: seq<Step>)
    requires Open(p, s, a, i) && s.clients[a].epochCount + 1 < p.retries
    requires Fresh(s.clients[a], s.sessions[i].ep) && s.clients[a].tbuffer != map[]
    ensures var t := Run(p, s, more);
      && Established(t, a, i) && OthersSame(s, t, i) && Fresh(t.clients[a], t.sessions[i].ep)
      && Nearer(s.clients[a], s.sessions[i].ep, t.clients[a], t.sessions[i].ep)
  {
    var c, x := s.clients[a], s.sessions[i].ep;
    var k := MaxKey(c.tbuffer);
    ClientFacts(p, s, a, i);
    ClientMessage(p, s, a, k);
    LastArrives(p, c, x, k, c.tbuffer[k], c.tsq);
    RemoveShrinks(c.tbuffer, k);
    more := ClientDeliversOne(p, s, a, i, k);
  }

  lemma ClientNumbersFresh(p: Params, s: System, a: Addr, i: int)
    requires Open(p, s, a, i) && Fresh(s.clients[a], s.sessions[i].ep)
    requires s.clients[a].tbuffer == map[] && s.clients[a].tmsg != []
    ensures var t := Apply(p, s, ClientStep(a, SendNext));
      && Established(t, a, i) && OthersSame(s, t, i) && Fresh(t.clients[a], t.sessions[i].ep)
      && Nearer(s.clients[a], s.sessions[i].ep, t.clients[a], t.sessions[i].ep)
  {
    ClientFacts(p, s, a, i);
    assert Stored(s.sessions[i].ep, s.sessions[i].ep.rsq - 1);
    ClientSendsNext(p, s, a, i);
    forall k | k in Apply(p, s, ClientStep(a, SendNext)).clients[a].tbuffer ensures s.sessions[i].ep.rsq <= k {
      assert k in {s.clients[a].tsq};
    }
  }

  lemma ClientGetsOn(p: Params, s: System, a: Addr, i: int) returns (more: seq<Step>)
    requires Open(p, s, a, i) && s.clients[a].epochCount + 1 < p.retries
    requires Fresh(s.clients[a], s.sessions[i].ep)
    requires s.clients[a].tbuffer != map[] || s.clients[a].tmsg != []
    ensures var t := Run(p, s, more);
      && Established(t, a, i) && OthersSame(s, t, i) && Fresh(t.clients[a], t.sessions[i].ep)
      && Nearer(s.clients[a], s.sessions[i].ep, t.clients[a], t.sessions[i].ep)
  {
    if s.clients[a].tbuffer != map[] {
      more := ClientDeliversLast(p, s, a, i);
    } else {
      ClientNumbersFresh(p, s, a, i);
      RunCons(p, s, ClientStep(a, SendNext), []);
      more := [ClientStep(a, SendNext)] + [];
    }
  }

  /** The client's messages are delivered and acknowledged, and the session has parked nothing
      for good. */
  lemma {:induction false} ClientDrainsFresh(p: Params, s: System, a: Addr, i: int) returns (more: seq<Step>)
    requires Open(p, s, a, i) && s.clients[a].epochCount + 1 < p.retries
    requires Fresh(s.clients[a], s.sessions[i].ep)
    ensures var c, x, t := s.clients[a], s.sessions[i].ep, Run(p, s, more);
      && Established(t, a, i) && OthersSame(s, t, i) && t.clients[a].tbuffer == map[] && t.clients[a].tmsg == []
      && t.clients[a].written == c.written && SameReceiver(c, t.clients[a])
      && !HasStale(t.sessions[i].ep) && SameSender(x, t.sessions[i].ep) && t.sessions[i].ep.epochCount <= x.epochCount
    decreases |s.clients[a].tmsg|, |s.clients[a].tbuffer|
  {
    more := [];
    if s.clients[a].tbuffer != map[] || s.clients[a].tmsg != [] {
      var first := ClientGetsOn(p, s, a, i);
      RunKeepsInv(p, s, first);
      var rest := ClientDrainsFresh(p, Run(p, s, first), a, i);
      RunConcat(p, s, first, rest);
      more := first + rest;
    }
  }

  // ---- the same for the session's messages ----

  lemma SessionDeliversLast(p: Params, s: System, a: Addr, i: int) returns (more: seq<Step>)
    requires Open(p, s, a, i) && s.sessions[i].ep.epochCount + 1 < p.retries
    requires Fresh(s.sessions[i].ep, s.clients[a]) && s.sessions[i].ep.tbuffer != map[]
    requires Behind(s.clients[a], s.sessions[i].ep.tsq)
    ensures var t := Run(p, s, more);
      && Established(t, a, i) && OthersSame(s, t, i) && Fresh(t.sessions[i].ep, t.clients[a])
      && Behind(t.clients[a], t.sessions[i].ep.tsq)
      && Nearer(s.sessions[i].ep, s.clients[a], t.sessions[i].ep, t.clients[a])
  {
    var c, x := s.clients[a], s.sessions[i].ep;
    var k := MaxKey(x.tbuffer);
    ClientFacts(p, s, a, i);
    SessionMessage(p, s, i, k);
    LastArrives(p, x, c, k, x.tbuffer[k], x.tsq);
    RemoveShrinks(x.tbuffer, k);
    more := SessionDeliversOne(p, s, a, i, k);
  }

  lemma SessionNumbersFresh(p: Params, s: System, a: Addr, i: int)
    requires Open(p, s, a, i) && Fresh(s.sessions[i].ep, s.clients[a])
    requires s.sessions[i].ep.tbuffer == map[] && s.sessions[i].ep.tmsg != []
    requires Behind(s.clients[a], s.sessions[i].ep.tsq)
    ensures var t := Apply(p, s, SessionStep(i, SendNext, a));
      && Established(t, a, i) && OthersSame(s, t, i) && Fresh(t.sessions[i].ep, t.clients[a])
      && Behind(t.clients[a], t.sessions[i].ep.tsq)
      && Nearer(s.sessions[i].ep, s.clients[a], t.sessions[i].ep, t.clients[a])
  {
    SessionSendsNext(p, s, a, i);
    assert Stored(s.clients[a], s.clients[a].rsq - 1);
    forall k | k in Apply(p, s, SessionStep(i, SendNext, a)).sessions[i].ep.tbuffer ensures s.clients[a].rsq <= k {
      assert k in {s.sessions[i].ep.tsq};
    }
  }

  lemma SessionGetsOn(p: Params, s: System, a: Addr, i: int) returns (more: seq<Step>)
    requires Open(p, s, a, i) && s.sessions[i].ep.epochCount + 1 < p.retries
    requires Fresh(s.sessions[i].ep, s.clients[a]) && Behind(s.clients[a], s.sessions[i].ep.tsq)
    requires s.sessions[i].ep.tbuffer != map[] || s.sessions[i].ep.tmsg != []
    ensures var t := Run(p, s, more);
      && Established(t, a, i) && OthersSame(s, t, i) && Fresh(t.sessions[i].ep, t.clients[a])
      && Behind(t.clients[a], t.sessions[i].ep.tsq)
      && Nearer(s.sessions[i].ep, s.clients[a], t.sessions[i].ep, t.clients[a])
  {
    if s.sessions[i].ep.tbuffer != map[] {
      more := SessionDeliversLast(p, s, a, i);
    } else {
      SessionNumbersFresh(p, s, a, i);
      RunCons(p, s, SessionStep(i, SendNext, a), []);
      more := [SessionStep(i, SendNext, a)] + [];
    }
  }

  lemma {:induction false} SessionDrainsFresh(p: Params, s: System, a: Addr, i: int) returns (more: seq<Step>)
    requires Open(p, s, a, i) && s.sessions[i].ep.epochCount + 1 < p.retries
    requires Fresh(s.sessions[i].ep, s.clients[a]) && Behind(s.clients[a], s.sessions[i].ep.tsq)
    ensures var c, x, t := s.clients[a], s.sessions[i].ep, Run(p, s, more);
      && Established(t, a, i) && OthersSame(s, t, i) && t.sessions[i].ep.tbuffer == map[] && t.sessions[i].ep.tmsg == []
      && t.sessions[i].ep.written == x.written && SameReceiver(x, t.sessions[i].ep)
      && !HasStale(t.clients[a]) && SameSender(c, t.clients[a]) && Behind(t.clients[a], t.sessions[i].ep.tsq)
    decreases |s.sessions[i].ep.tmsg|, |s.sessions[i].ep.tbuffer|
  {
    more := [];
    if s.sessions[i].ep.tbuffer != map[] || s.sessions[i].ep.tmsg != [] {
      var first := SessionGetsOn(p, s, a, i);
      RunKeepsInv(p, s, first);
      var rest := SessionDrainsFresh(p, Run(p, s, first), a, i);
      RunConcat(p, s, first, rest);
      more := first + rest;
    }
  }

  // ---- acks in flight are taken first ----

  /** What is handed over at `x` but not acknowledged to `c` has its ack in flight. */
  predicate AcksDown(s: System, a: Addr, i: int)
    requires a in s.clients && i in s.sessions
  {
    forall k | k in s.clients[a].tbuffer && k < s.sessions[i].ep.rsq :: (a, Ack(i, k)) in s.down
  }

  predicate AcksUp(s: System, a: Addr, i: int)
    requires a in s.clients && i in s.sessions
  {
    forall k | k in s.sessions[i].ep.tbuffer && k < s.clients[a].rsq :: (a, Ack(i, k)) in s.up
  }

  lemma {:induction false} ClientTakesAcks(p: Params, s: System, a: Addr, i: int) returns (more: seq<Step>)
    requires Open(p, s, a, i) && AcksDown(s, a, i) && !HasStale(s.sessions[i].ep)
    ensures var c, t := s.clients[a], Run(p, s, more);
      && Established(t, a, i) && OthersSame(s, t, i) && t.sessions == s.sessions && t.up == s.up && t.down == s.down
      && SameReceiver(c, t.clients[a]) && t.clients[a].tmsg == c.tmsg && t.clients[a].written == c.written
      && t.clients[a].epochCount <= c.epochCount && Fresh(t.clients[a], t.sessions[i].ep)
    decreases |s.clients[a].tbuffer|
  {
    more := [];
    var c := s.clients[a];
    ClientFacts(p, s, a, i);
    if k :| k in c.tbuffer && k < s.sessions[i].ep.rsq {
      var step := ClientStep(a, Receive(Ack(i, k)));
      ClientMessage(p, s, a, k);
      ClientTakesAck(p, s, a, i, k);
      StepKeepsInv(p, s, step);
      RemoveShrinks(c.tbuffer, k);
      var rest := ClientTakesAcks(p, Apply(p, s, step), a, i);
      RunCons(p, s, step, rest);
      more := [step] + rest;
    }
  }

  lemma {:induction false} SessionTakesAcks(p: Params, s: System, a: Addr, i: int) returns (more: seq<Step>)
    requires Open(p, s, a, i) && AcksUp(s, a, i) && !HasStale(s.clients[a])
    ensures var x, t := s.sessions[i].ep, Run(p, s, more);
      && Established(t, a, i) && OthersSame(s, t, i) && t.clients == s.clients
      && SameReceiver(x, t.sessions[i].ep) && t.sessions[i].ep.tmsg == x.tmsg && t.sessions[i].ep.tsq == x.tsq
      && t.sessions[i].ep.written == x.written
      && t.sessions[i].ep.epochCount <= x.epochCount && Fresh(t.sessions[i].ep, t.clients[a])
    decreases |s.sessions[i].ep.tbuffer|
  {
    more := [];
    var x := s.sessions[i].ep;
    ClientFacts(p, s, a, i);
    if k :| k in x.tbuffer && k < s.clients[a].rsq {
      var step := SessionStep(i, Receive(Ack(i, k)), a);
      SessionMessage(p, s, i, k);
      SessionTakesAck(p, s, a, i, k);
      StepKeepsInv(p, s, step);
      RemoveShrinks(x.tbuffer, k);
      var rest := SessionTakesAcks(p, Apply(p, s, step), a, i);
      RunCons(p, s, step, rest);
      more := [step] + rest;
    }
  }

  // ---- both close ----

  predicate BothMayExit(s: System, a: Addr, i: int) {
    a in s.clients && i in s.sessions && MayExit(s.clients[a]) && MayExit(s.sessions[i].ep)
  }

  /** Both may exit, and what was written before is delivered: to the server by content, to the
      client by number. */
  ghost predicate Done(s: System, t: System, a: Addr, i: int)
    requires a in s.clients && i in s.sessions
  {
    && BothMayExit(t, a, i) && OthersSame(s, t, i)
    && Delivered(t.sessions[i].ep) == s.clients[a].written
    && t.sessions[i].ep.written == s.sessions[i].ep.written && |s.sessions[i].ep.written| < t.clients[a].rsq
  }

  predicate AllSent(e: Endpoint) {
    e.tbuffer == map[] && e.tmsg == []
  }

  lemma NothingParked(r: Endpoint, n: int)
    requires Behind(r, n) && n <= r.rsq && !HasStale(r)
    ensures r.rbuffer == map[]
  {
    forall k ensures k !in r.rbuffer {
      assert Stored(r, k) ==> k < n;
    }
  }

  /** Both are told to close when there is nothing left to do. */
  lemma Close(p: Params, s: System, a: Addr, i: int) returns (more: seq<Step>)
    requires Open(p, s, a, i) && AllSent(s.clients[a]) && AllSent(s.sessions[i].ep)
    requires !HasStale(s.clients[a]) && !HasStale(s.sessions[i].ep) && Behind(s.clients[a], s.sessions[i].ep.tsq)
    ensures Done(s, Run(p, s, more), a, i)
  {
    var c, x := s.clients[a], s.sessions[i].ep;
    ClientFacts(p, s, a, i);
    assert ClientOk(p, s, a) && SessionOk(p, s, i);
    AllAckedAllDelivered(p, c, x);
    NothingParked(x, c.tsq);
    AllStoredBelow(x, c);
    NothingParked(c, x.tsq);
    more := BothStartClose(p, s, a, i);
  }

  lemma BothStartClose(p: Params, s: System, a: Addr, i: int) returns (more: seq<Step>)
    requires Established(s, a, i)
    ensures Run(p, s, more) == s.(
      clients := s.clients[a := s.clients[a].(status := StartClosing)],
      sessions := s.sessions[i := s.sessions[i].(ep := s.sessions[i].ep.(status := StartClosing))])
  {
    var first, second := ClientStep(a, StartClose), SessionStep(i, StartClose, a);
    RunCons(p, s, first, [second]);
    RunCons(p, Apply(p, s, first), second, []);
    assert [second] + [] == [second];
    assert To(a, {}) == {};
    more := [first] + [second];
  }

  /** Neither has parked a duplicate, and no ack that is needed has been lost. */
  predicate Closable(s: System, a: Addr, i: int)
    requires a in s.clients && i in s.sessions
  {
    !HasStale(s.clients[a]) && !HasStale(s.sessions[i].ep) && AcksDown(s, a, i) && AcksUp(s, a, i)
  }

  lemma StaysBehind(r: Endpoint, r': Endpoint, n: int)
    requires Behind(r, n) && SameReceiver(r, r')
    ensures Behind(r', n) && (HasStale(r') <==> HasStale(r))
  {
    forall k | Stored(r', k) ensures k < n {
      assert Stored(r, k);
    }
  }

  lemma DrainAndClose(p: Params, s: System, a: Addr, i: int) returns (more: seq<Step>)
    requires Open(p, s, a, i) && Behind(s.clients[a], s.sessions[i].ep.tsq)
    requires Fresh(s.clients[a], s.sessions[i].ep) && Fresh(s.sessions[i].ep, s.clients[a])
    requires s.clients[a].epochCount + 1 < p.retries && s.sessions[i].ep.epochCount + 1 < p.retries
    ensures Done(s, Run(p, s, more), a, i)
  {
    var first := ClientDrainsFresh(p, s, a, i);
    var s1 := Run(p, s, first);
    RunKeepsInv(p, s, first);
    StaysBehind(s.clients[a], s1.clients[a], s.sessions[i].ep.tsq);
    var second := SessionDrainsFresh(p, s1, a, i);
    var s2 := Run(p, s1, second);
    RunKeepsInv(p, s1, second);
    ClientFacts(p, s1, a, i);
    StaysBehind(s1.sessions[i].ep, s2.sessions[i].ep, s1.clients[a].tsq);
    var third := Close(p, s2, a, i);
    RunConcat(p, s1, second, third);
    RunConcat(p, s, first, second + third);
    more := first + (second + third);
  }

  lemma CollectAndClose(p: Params, s: System, a: Addr, i: int) returns (more: seq<Step>)
    requires Open(p, s, a, i) && Closable(s, a, i) && Behind(s.clients[a], s.sessions[i].ep.tsq)
    requires s.clients[a].epochCount + 1 < p.retries && s.sessions[i].ep.epochCount + 1 < p.retries
    ensures Done(s, Run(p, s, more), a, i)
  {
    var first := ClientTakesAcks(p, s, a, i);
    var s1 := Run(p, s, first);
    RunKeepsInv(p, s, first);
    StaysBehind(s.clients[a], s1.clients[a], s.sessions[i].ep.tsq);
    var second := SessionTakesAcks(p, s1, a, i);
    var s2 := Run(p, s1, second);
    RunKeepsInv(p, s1, second);
    ClientFacts(p, s1, a, i);
    StaysBehind(s1.sessions[i].ep, s2.sessions[i].ep, s1.clients[a].tsq);
    var third := DrainAndClose(p, s2, a, i);
    RunConcat(p, s1, second, third);
    RunConcat(p, s, first, second + third);
    more := first + (second + third);
  }

  lemma BothClose(p: Params, s: System, a: Addr, i: int) returns (more: seq<Step>)
    requires Open(p, s, a, i) && Closable(s, a, i) && Behind(s.clients[a], s.sessions[i].ep.tsq) && Sourced(s, a)
    requires s.clients[a].epochCount + 1 < p.retries && s.sessions[i].ep.epochCount + 1 < p.retries
    ensures var t := Run(p, s, more);
      && Done(s, t, a, i)
      && (NoRival(s, a, i, p.windows + 1) ==> Delivered(t.clients[a]) == s.sessions[i].ep.written)
  {
    more := CollectAndClose(p, s, a, i);
    var t := Run(p, s, more);
    RunKeepsInv(p, s, more);
    RunKeepsSourced(p, s, more, a);
    SessionAllAcked(p, t, i);
    if NoRival(s, a, i, p.windows + 1) {
      StillNoRival(p, s, t, a, i);
    }
  }

  // ---- and only then ----

  /** Message `k` of the client was handed over, its ack is lost; or it has been repeated. */
  predicate AwaitedInVain(t: System, a: Addr, i: int, k: int) {
    && a in t.clients && i in t.sessions && t.clients[a].id == i && t.sessions[i].addr == a
    && (HasStale(t.sessions[i].ep)
        || (k in t.clients[a].tbuffer && (a, Ack(i, k)) !in t.down && k < t.sessions[i].ep.rsq))
  }

  /** No other session of the address acknowledges anything of the client's. */
  lemma AckIsOfAdopted(p: Params, s: System, a: Addr, i: int, m: Message)
    requires Inv(p, s) && a in s.clients && s.clients[a].id == i && 0 <= i
    requires (a, m) in s.down && m.Ack? && m.seqNum in s.clients[a].tbuffer
    ensures m == Ack(i, m.seqNum)
  {
    assert DownOk(s, a, m) && ClientOk(p, s, a);
    assert SessionOk(p, s, m.connId);
  }

  lemma AckSent(p: Params, e: Endpoint, act: Action, i: int, k: int)
    requires Ack(i, k) in Sent(p, e, act) && k != 0 && SenderOk(p, e)
    ensures act.Receive? && act.m.Data? && act.m.seqNum == k && act.m.size <= |act.m.payload|
    ensures !e.status.HandlerClosed?
  {
    if act.Timer? && Ack(i, k) in e.tbuffer.Values {
      ResentOk(e, p, Ack(i, k));
    }
  }

  predicate Moves(s: System, step: Step, a: Addr, i: int) {
    (step.ClientStep? && step.a == a) || (step.SessionStep? && step.id == i)
  }

  /** Steps of others touch neither the client nor the session, and send no ack of its. */
  lemma OthersSendNoAck(p: Params, s: System, step: Step, a: Addr, i: int, k: int)
    requires Inv(p, s) && a in s.clients && i in s.sessions && !Moves(s, step, a, i) && k != 0
    ensures var t := Apply(p, s, step);
      && a in t.clients && t.clients[a] == s.clients[a]
      && i in t.sessions && SameButStatus(s.sessions[i], t.sessions[i])
      && ((a, Ack(i, k)) in t.down ==> (a, Ack(i, k)) in s.down)
  {
    if step.SessionStep? && step.id in s.sessions && SessionMay(s, step.id, step.act, step.from) {
      OthersAckOthers(p, s, step.id, step.act, step.from, i, k);
    }
  }

  lemma OthersAckOthers(p: Params, s: System, j: int, act: Action, from: Addr, i: int, k: int)
    requires Inv(p, s) && j in s.sessions && SessionMay(s, j, act, from) && j != i
    ensures Ack(i, k) !in Sent(p, s.sessions[j].ep, act)
  {
    SessionKeepsSessionOk(p, s, j, act, from);
    assert SessionOk(p, s, j);
    if Ack(i, k) in Sent(p, s.sessions[j].ep, act) {
      SentOk(p, s.sessions[j].ep, act, Ack(i, k));
    }
  }

  lemma StepKeepsVain(p: Params, s: System, step: Step, a: Addr, i: int, k: int)
    requires Inv(p, s) && 0 <= i && AwaitedInVain(s, a, i, k)
    ensures AwaitedInVain(Apply(p, s, step), a, i, k)
  {
    StepKeepsAdopted(p, s, step, a, i);
    IdentifierFacts(p, s, a, i);
    if HasStale(s.sessions[i].ep) {
      StepKeepsStaleSession(p, s, i, step);
    } else if !Moves(s, step, a, i) {
      OthersSendNoAck(p, s, step, a, i, k);
    } else if step.ClientStep? && ClientMay(s, a, step.act) {
      VainForClient(p, s, a, i, k, step.act);
    } else if step.SessionStep? && SessionMay(s, i, step.act, step.from) {
      VainForSession(p, s, a, i, k, step.act);
    }
  }

  lemma IdentifierFacts(p: Params, s: System, a: Addr, i: int)
    requires Inv(p, s) && a in s.clients && s.clients[a].id == i && 0 <= i && i in s.sessions
    ensures i < s.table.lastConnId && 0 !in s.clients[a].tbuffer
  {
    assert ClientOk(p, s, a);
  }

  lemma VainForClient(p: Params, s: System, a: Addr, i: int, k: int, act: Action)
    requires Inv(p, s) && 0 <= i && a in s.clients && s.clients[a].id == i && ClientMay(s, a, act)
    requires k in s.clients[a].tbuffer && (a, Ack(i, k)) !in s.down
    ensures k in Act(p, s.clients[a], act).tbuffer
  {
    if act.Receive? && act.m.Data? {
      DataKeepsSender(p, s.clients[a].(epochCount := 0), act.m);
    } else if act.Receive? && act.m.Ack? && act.m.seqNum in s.clients[a].tbuffer {
      AckIsOfAdopted(p, s, a, i, act.m);
    }
  }

  lemma VainForSession(p: Params, s: System, a: Addr, i: int, k: int, act: Action)
    requires Inv(p, s) && i in s.sessions && s.sessions[i].addr == a && k != 0
    requires k < s.sessions[i].ep.rsq && (a, Ack(i, k)) !in s.down
    ensures var t := SessionMove(p, s, i, act);
      HasStale(t.sessions[i].ep) || ((a, Ack(i, k)) !in t.down && k < t.sessions[i].ep.rsq)
  {
    var x := s.sessions[i].ep;
    assert SessionOk(p, s, i);
    ActGrows(p, x, act);
    if Ack(i, k) in Sent(p, x, act) {
      AckSent(p, x, act, i, k);
      StaleIffDuplicate(p, x, act.m);
    }
  }

  lemma {:induction false} RunStaysVain(p: Params, s: System, a: Addr, i: int, k: int, more: seq<Step>)
    requires Inv(p, s) && 0 <= i && AwaitedInVain(s, a, i, k)
    ensures AwaitedInVain(Run(p, s, more), a, i, k)
    decreases |more|
  {
    if more != [] {
      StepKeepsInv(p, s, more[0]);
      StepKeepsVain(p, s, more[0], a, i, k);
      RunStaysVain(p, Apply(p, s, more[0]), a, i, k, more[1..]);
    }
  }

  /** The same for message `k` of the session. */
  predicate SessionAwaitsInVain(t: System, a: Addr, i: int, k: int) {
    && a in t.clients && i in t.sessions && t.clients[a].id == i && t.sessions[i].addr == a
    && (HasStale(t.clients[a])
        || (k in t.sessions[i].ep.tbuffer && (a, Ack(i, k)) !in Upward(t) && k < t.clients[a].rsq))
  }

  lemma OthersSendNoAckUp(p: Params, s: System, step: Step, a: Addr, i: int, k: int)
    requires a in s.clients && i in s.sessions && !Moves(s, step, a, i) && TableOk(s)
    ensures var t := Apply(p, s, step);
      && a in t.clients && t.clients[a] == s.clients[a]
      && i in t.sessions && SameButStatus(s.sessions[i], t.sessions[i])
      && ((a, Ack(i, k)) in Upward(t) ==> (a, Ack(i, k)) in Upward(s))
  {
  }

  lemma AckIsFromAdopter(p: Params, s: System, i: int, m: Message, from: Addr)
    requires Inv(p, s) && i in s.sessions && 0 <= i && (from, m) in Upward(s) && m.Ack? && m.connId == i
    ensures from == s.sessions[i].addr && m == Ack(i, m.seqNum)
  {
    assert UpOk(s, from, m);
    assert ClientOk(p, s, from);
  }

  lemma InVainForSession(p: Params, s: System, a: Addr, i: int, k: int, act: Action, from: Addr)
    requires Inv(p, s) && 0 <= i && i in s.sessions && s.sessions[i].addr == a && SessionMay(s, i, act, from)
    requires k in s.sessions[i].ep.tbuffer && (a, Ack(i, k)) !in Upward(s)
    ensures k in Act(p, s.sessions[i].ep, act).tbuffer
  {
    if act.Receive? && act.m.Data? {
      DataKeepsSender(p, s.sessions[i].ep.(epochCount := 0), act.m);
    } else if act.Receive? && act.m.Ack? {
      AckIsFromAdopter(p, s, i, act.m, from);
    }
  }

  lemma InVainForClient(p: Params, s: System, a: Addr, i: int, k: int, act: Action)
    requires Inv(p, s) && 0 <= i && a in s.clients && s.clients[a].id == i && ClientMay(s, a, act) && k != 0
    requires k < s.clients[a].rsq && (a, Ack(i, k)) !in Upward(s)
    ensures var t := ClientMove(p, s, a, act);
      HasStale(t.clients[a]) || ((a, Ack(i, k)) !in Upward(t) && k < t.clients[a].rsq)
  {
    var c := s.clients[a];
    assert ClientOk(p, s, a);
    ActGrows(p, c, act);
    if Ack(i, k) in Sent(p, c, act) {
      AckSent(p, c, act, i, k);
      StaleIffDuplicate(p, c, act.m);
    }
  }

  lemma ClientStaysStale(p: Params, s: System, a: Addr, step: Step)
    requires a in s.clients && HasStale(s.clients[a])
    ensures a in Apply(p, s, step).clients && HasStale(Apply(p, s, step).clients[a])
  {
    if step.ClientStep? && step.a == a {
      StaleStays(p, s.clients[a], step.act);
    }
  }

  lemma SessionNumbersFromOne(p: Params, s: System, i: int)
    requires Inv(p, s) && i in s.sessions
    ensures 0 !in s.sessions[i].ep.tbuffer
  {
    assert SessionOk(p, s, i);
  }

  lemma StepKeepsSessionVain(p: Params, s: System, step: Step, a: Addr, i: int, k: int)
    requires Inv(p, s) && 0 <= i && SessionAwaitsInVain(s, a, i, k)
    ensures SessionAwaitsInVain(Apply(p, s, step), a, i, k)
  {
    StepKeepsAdopted(p, s, step, a, i);
    SessionNumbersFromOne(p, s, i);
    if HasStale(s.clients[a]) {
      ClientStaysStale(p, s, a, step);
    } else if !Moves(s, step, a, i) {
      OthersSendNoAckUp(p, s, step, a, i, k);
    } else if step.ClientStep? && ClientMay(s, a, step.act) {
      InVainForClient(p, s, a, i, k, step.act);
    } else if step.SessionStep? && SessionMay(s, i, step.act, step.from) {
      InVainForSession(p, s, a, i, k, step.act, step.from);
    }
  }

  lemma {:induction false} RunStaysSessionVain(p: Params, s: System, a: Addr, i: int, k: int, more: seq<Step>)
    requires Inv(p, s) && 0 <= i && SessionAwaitsInVain(s, a, i, k)
    ensures SessionAwaitsInVain(Run(p, s, more), a, i, k)
    decreases |more|
  {
    if more != [] {
      StepKeepsInv(p, s, more[0]);
      StepKeepsSessionVain(p, s, more[0], a, i, k);
      RunStaysSessionVain(p, Apply(p, s, more[0]), a, i, k, more[1..]);
    }
  }

  // ---- one end after the other ----

  /** The client's handler returns gracefully, and after that the session's may. */
  predicate ClientThenSession(p: Params, s: System, a: Addr, i: int, first: seq<Step>, second: seq<Step>) {
    var t := Run(p, s, first);
    && a in t.clients && MayExit(t.clients[a])
    && var u := Run(p, Apply(p, t, ClientStep(a, Exit)), second);
      i in u.sessions && MayExit(u.sessions[i].ep)
  }

  predicate SessionThenClient(p: Params, s: System, a: Addr, i: int, first: seq<Step>, second: seq<Step>) {
    var t := Run(p, s, first);
    && i in t.sessions && MayExit(t.sessions[i].ep)
    && var u := Run(p, Apply(p, t, SessionStep(i, Exit, a)), second);
      a in u.clients && MayExit(u.clients[a])
  }

  /** The session's handler has returned, and the ack of the client's message `k` is lost. */
  predicate NobodyAcks(t: System, a: Addr, i: int, k: int) {
    && a in t.clients && i in t.sessions && t.clients[a].id == i && t.sessions[i].addr == a
    && t.sessions[i].ep.status.HandlerClosed? && k in t.clients[a].tbuffer && (a, Ack(i, k)) !in t.down
  }

  lemma {:induction false} RunStaysUnacked(p: Params, s: System, a: Addr, i: int, k: int, more: seq<Step>)
    requires Inv(p, s) && 0 <= i && NobodyAcks(s, a, i, k)
    ensures NobodyAcks(Run(p, s, more), a, i, k)
    decreases |more|
  {
    if more != [] {
      StepKeepsInv(p, s, more[0]);
      StepKeepsUnacked(p, s, more[0], a, i, k);
      RunStaysUnacked(p, Apply(p, s, more[0]), a, i, k, more[1..]);
    }
  }

  lemma StepKeepsUnacked(p: Params, s: System, step: Step, a: Addr, i: int, k: int)
    requires Inv(p, s) && 0 <= i && NobodyAcks(s, a, i, k)
    ensures NobodyAcks(Apply(p, s, step), a, i, k)
  {
    StepKeepsAdopted(p, s, step, a, i);
    IdentifierFacts(p, s, a, i);
    if !Moves(s, step, a, i) {
      OthersSendNoAck(p, s, step, a, i, k);
    } else if step.ClientStep? && ClientMay(s, a, step.act) {
      VainForClient(p, s, a, i, k, step.act);
    }
  }

  /** The client's handler has returned, and the ack of the session's message `k` is lost. */
  predicate NobodyAcksUp(t: System, a: Addr, i: int, k: int) {
    && a in t.clients && i in t.sessions && t.clients[a].id == i && t.sessions[i].addr == a
    && t.clients[a].status.HandlerClosed? && k in t.sessions[i].ep.tbuffer && (a, Ack(i, k)) !in Upward(t)
  }

  lemma {:induction false} RunStaysUnackedUp(p: Params, s: System, a: Addr, i: int, k: int, more: seq<Step>)
    requires Inv(p, s) && 0 <= i && NobodyAcksUp(s, a, i, k)
    ensures NobodyAcksUp(Run(p, s, more), a, i, k)
    decreases |more|
  {
    if more != [] {
      StepKeepsInv(p, s, more[0]);
      StepKeepsUnackedUp(p, s, more[0], a, i, k);
      RunStaysUnackedUp(p, Apply(p, s, more[0]), a, i, k, more[1..]);
    }
  }

  lemma StepKeepsUnackedUp(p: Params, s: System, step: Step, a: Addr, i: int, k: int)
    requires Inv(p, s) && 0 <= i && NobodyAcksUp(s, a, i, k)
    ensures NobodyAcksUp(Apply(p, s, step), a, i, k)
  {
    StepKeepsAdopted(p, s, step, a, i);
    if !Moves(s, step, a, i) {
      OthersSendNoAckUp(p, s, step, a, i, k);
    } else if step.SessionStep? && SessionMay(s, i, step.act, step.from) {
      InVainForSession(p, s, a, i, k, step.act, step.from);
    }
  }

  lemma AfterClientExit(p: Params, t: System, a: Addr, i: int, k: int)
    requires SessionAwaitsInVain(t, a, i, k) && MayExit(t.clients[a])
    ensures NobodyAcksUp(Apply(p, t, ClientStep(a, Exit)), a, i, k)
  {
    var u := Apply(p, t, ClientStep(a, Exit));
    assert To(a, {}) == {};
    assert u == t.(clients := t.clients[a := t.clients[a].(status := HandlerClosed)]);
  }

  lemma AfterSessionExit(p: Params, t: System, a: Addr, i: int, k: int)
    requires AwaitedInVain(t, a, i, k) && MayExit(t.sessions[i].ep)
    ensures NobodyAcks(Apply(p, t, SessionStep(i, Exit, a)), a, i, k)
  {
    assert To(t.sessions[i].addr, {}) == {};
  }

  lemma VainForbidsClientFirst(p: Params, s: System, a: Addr, i: int, k: int, first: seq<Step>, second: seq<Step>)
    requires Inv(p, s) && 0 <= i && AwaitedInVain(s, a, i, k)
    ensures !ClientThenSession(p, s, a, i, first, second)
  {
    var t := Run(p, s, first);
    RunKeepsInv(p, s, first);
    RunStaysVain(p, s, a, i, k, first);
    IdentifierFacts(p, t, a, i);
    if MayExit(t.clients[a]) {
      RunCons(p, t, ClientStep(a, Exit), second);
      SessionStaleForEver(p, t, i, [ClientStep(a, Exit)] + second);
    }
  }

  lemma VainForbidsSessionFirst(p: Params, s: System, a: Addr, i: int, k: int, first: seq<Step>, second: seq<Step>)
    requires Inv(p, s) && 0 <= i && AwaitedInVain(s, a, i, k)
    ensures !SessionThenClient(p, s, a, i, first, second)
  {
    var t := Run(p, s, first);
    RunKeepsInv(p, s, first);
    RunStaysVain(p, s, a, i, k, first);
    if MayExit(t.sessions[i].ep) {
      StepKeepsInv(p, t, SessionStep(i, Exit, a));
      AfterSessionExit(p, t, a, i, k);
      RunStaysUnacked(p, Apply(p, t, SessionStep(i, Exit, a)), a, i, k, second);
    }
  }

  /** With a message of the client's waiting in vain for its ack, the ends cannot both exit, in
      whatever order. */
  lemma VainForbidsExits(p: Params, s: System, a: Addr, i: int, k: int, first: seq<Step>, second: seq<Step>)
    requires Inv(p, s) && 0 <= i && AwaitedInVain(s, a, i, k)
    ensures !ClientThenSession(p, s, a, i, first, second) && !SessionThenClient(p, s, a, i, first, second)
  {
    VainForbidsClientFirst(p, s, a, i, k, first, second);
    VainForbidsSessionFirst(p, s, a, i, k, first, second);
  }

  lemma SessionVainForbidsSessionFirst(p: Params, s: System, a: Addr, i: int, k: int,
                                       first: seq<Step>, second: seq<Step>)
    requires Inv(p, s) && 0 <= i && SessionAwaitsInVain(s, a, i, k)
    ensures !SessionThenClient(p, s, a, i, first, second)
  {
    var t := Run(p, s, first);
    RunStaysSessionVain(p, s, a, i, k, first);
    if MayExit(t.sessions[i].ep) {
      RunCons(p, t, SessionStep(i, Exit, a), second);
      ClientStaleForEver(p, t, a, [SessionStep(i, Exit, a)] + second);
    }
  }

  lemma SessionVainForbidsClientFirst(p: Params, s: System, a: Addr, i: int, k: int,
                                      first: seq<Step>, second: seq<Step>)
    requires Inv(p, s) && 0 <= i && SessionAwaitsInVain(s, a, i, k)
    ensures !ClientThenSession(p, s, a, i, first, second)
  {
    var t := Run(p, s, first);
    RunKeepsInv(p, s, first);
    RunStaysSessionVain(p, s, a, i, k, first);
    if MayExit(t.clients[a]) {
      StepKeepsInv(p, t, ClientStep(a, Exit));
      AfterClientExit(p, t, a, i, k);
      RunStaysUnackedUp(p, Apply(p, t, ClientStep(a, Exit)), a, i, k, second);
    }
  }

  lemma SessionVainForbidsExits(p: Params, s: System, a: Addr, i: int, k: int, first: seq<Step>, second: seq<Step>)
    requires Inv(p, s) && 0 <= i && SessionAwaitsInVain(s, a, i, k)
    ensures !ClientThenSession(p, s, a, i, first, second) && !SessionThenClient(p, s, a, i, first, second)
  {
    SessionVainForbidsClientFirst(p, s, a, i, k, first, second);
    SessionVainForbidsSessionFirst(p, s, a, i, k, first, second);
  }

  lemma NotClosable(p: Params, s: System, a: Addr, i: int, first: seq<Step>, second: seq<Step>)
    requires Inv(p, s) && Established(s, a, i) && !Closable(s, a, i)
    ensures !ClientThenSession(p, s, a, i, first, second) && !SessionThenClient(p, s, a, i, first, second)
  {
    if HasStale(s.sessions[i].ep) {
      VainForbidsExits(p, s, a, i, 0, first, second);
    } else if HasStale(s.clients[a]) {
      SessionVainForbidsExits(p, s, a, i, 0, first, second);
    } else if !AcksDown(s, a, i) {
      var k :| k in s.clients[a].tbuffer && k < s.sessions[i].ep.rsq && (a, Ack(i, k)) !in s.down;
      VainForbidsExits(p, s, a, i, k, first, second);
    } else {
      var k :| k in s.sessions[i].ep.tbuffer && k < s.clients[a].rsq && (a, Ack(i, k)) !in s.up;
      SessionVainForbidsExits(p, s, a, i, k, first, second);
    }
  }

  /** In some run both handlers return gracefully, in whatever order. */
  ghost predicate CanBothExit(p: Params, s: System, a: Addr, i: int) {
    || (exists first, second :: ClientThenSession(p, s, a, i, first, second))
    || (exists first, second :: SessionThenClient(p, s, a, i, first, second))
  }

  lemma AtOnceIsInOrder(p: Params, s: System, a: Addr, i: int, more: seq<Step>)
    requires BothMayExit(Run(p, s, more), a, i)
    ensures ClientThenSession(p, s, a, i, more, [])
  {
  }

  /** From every reachable state with the connection established, no other session of the
      address ahead and an epoch left on both sides: some run lets both handlers return
      gracefully iff nothing stale is parked and no needed ack is lost. */
  lemma BothCanExitIffClosable(p: Params, steps: seq<Step>, a: Addr, i: int)
    requires 1 <= p.windows && Established(Reached(p, steps), a, i)
    requires Behind(Reached(p, steps).clients[a], Reached(p, steps).sessions[i].ep.tsq)
    requires Reached(p, steps).clients[a].epochCount + 1 < p.retries
    requires Reached(p, steps).sessions[i].ep.epochCount + 1 < p.retries
    ensures CanBothExit(p, Reached(p, steps), a, i) <==> Closable(Reached(p, steps), a, i)
  {
    var s := Reached(p, steps);
    ReachedInv(p, steps);
    if Closable(s, a, i) {
      ClientFacts(p, s, a, i);
      var more := CollectAndClose(p, s, a, i);
      AtOnceIsInOrder(p, s, a, i, more);
    } else {
      forall first, second
        ensures !ClientThenSession(p, s, a, i, first, second) && !SessionThenClient(p, s, a, i, first, second)
      {
        NotClosable(p, s, a, i, first, second);
      }
    }
  }
}
