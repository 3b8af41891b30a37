/** The promises of the protocol, for every run from the empty system. */
module LspTheorems {
  import opened Collections
  import opened LspMachine
  import opened LspSystem
  import opened LspSafety

  function Reached(p: Params, steps: seq<Step>): System {
    Run(p, Init(), steps)
  }

  lemma ReachedInv(p: Params, steps: seq<Step>)
    ensures Inv(p, Reached(p, steps))
  {
    RunKeepsInv(p, Init(), steps);
  }

  /** Everything handed to the reader so far, whether or not Read has taken it. */
  function Delivered(e: Endpoint): seq<Payload> {
    e.read + e.rmsg
  }

  /** In every run the server reads, for each connection, exactly the first `rsq - 1`
      payloads its client wrote, and nothing on a connection no client adopted. */
  lemma ServerReadsPrefix(p: Params, steps: seq<Step>, i: int)
    requires i in Reached(p, steps).sessions
    ensures var s := Reached(p, steps);
      var x := s.sessions[i];
      && x.addr in s.clients
      && (s.clients[x.addr].id == i ==>
            && 1 <= x.ep.rsq <= |s.clients[x.addr].written| + 1
            && Delivered(x.ep) == s.clients[x.addr].written[..x.ep.rsq - 1])
      && (s.clients[x.addr].id != i ==> Delivered(x.ep) == [] && x.ep.rsq == 1)
  {
    ReachedInv(p, steps);
    assert SessionOk(p, Reached(p, steps), i);
  }

  lemma {:induction false} DrainExtends(e: Endpoint)
    ensures Delivered(e) <= Delivered(Drain(e))
    ensures forall k | k in Drain(e).rbuffer :: k in e.rbuffer && Drain(e).rbuffer[k] == e.rbuffer[k]
    decreases |e.rbuffer|
  {
    if e.rsq in e.rbuffer {
      var e1 := e.(rmsg := e.rmsg + [e.rbuffer[e.rsq]], rsq := e.rsq + 1, rbuffer := e.rbuffer - {e.rsq});
      assert Delivered(e1) == Delivered(e) + [e.rbuffer[e.rsq]];
      RemoveShrinks(e.rbuffer, e.rsq);
      DrainExtends(e1);
    }
  }

  /** A complete message with a new number is handed over or parked as it is, not cut. */
  lemma ReceivedAsItIs(p: Params, e: Endpoint, m: Message)
    requires !e.status.HandlerClosed? && m.Data? && m.size <= |m.payload| && !Stored(e, m.seqNum)
    ensures var e' := Act(p, e, Receive(m));
      if m.seqNum == e.rsq then
        Delivered(e) + [m.payload] <= Delivered(e')
      else
        Delivered(e') == Delivered(e) && m.seqNum in e'.rbuffer && e'.rbuffer[m.seqNum] == m.payload
  {
    var e1 := Store(e.(epochCount := 0), m.seqNum, m.payload);
    assert Delivered(e1) == Delivered(e);
    if m.seqNum == e.rsq {
      var e2 := e1.(rmsg := e1.rmsg + [m.payload], rsq := e1.rsq + 1, rbuffer := e1.rbuffer - {e1.rsq});
      assert Drain(e1) == Drain(e2) && Delivered(e2) == Delivered(e) + [m.payload];
      DrainExtends(e2);
    }
  }

  /** What `e` had parked as number `k` is still parked in `d`, or was handed over in its place. */
  predicate KeptOrHandedOver(e: Endpoint, d: Endpoint, k: int)
    requires k in e.rbuffer
  {
    if e.rsq <= k < d.rsq then
      |Delivered(e)| + k - e.rsq < |Delivered(d)| && Delivered(d)[|Delivered(e)| + k - e.rsq] == e.rbuffer[k]
    else
      k in d.rbuffer && d.rbuffer[k] == e.rbuffer[k]
  }

  lemma {:induction false} DrainHandsOver(e: Endpoint, k: int)
    requires k in e.rbuffer
    ensures KeptOrHandedOver(e, Drain(e), k)
    decreases |e.rbuffer|
  {
    if e.rsq in e.rbuffer {
      var e1 := e.(rmsg := e.rmsg + [e.rbuffer[e.rsq]], rsq := e.rsq + 1, rbuffer := e.rbuffer - {e.rsq});
      assert Delivered(e1) == Delivered(e) + [e.rbuffer[e.rsq]];
      RemoveShrinks(e.rbuffer, e.rsq);
      DrainGrows(e1);
      if k == e.rsq {
        DrainExtends(e1);
      } else {
        DrainHandsOver(e1, k);
      }
    }
  }

  /** The first payload that comes with a number counts; another one with that number does not
      replace it. */
  lemma FirstComeStays(p: Params, e: Endpoint, act: Action, k: int)
    requires k in e.rbuffer
    ensures KeptOrHandedOver(e, Act(p, e, act), k)
  {
    if act.Receive? && act.m.Data? && act.m.size <= |act.m.payload| && Runs(e, act) {
      var e1 := Store(e.(epochCount := 0), act.m.seqNum, act.m.payload);
      assert Delivered(e1) == Delivered(e);
      DrainHandsOver(e1, k);
    }
  }

  /** One that was shortened leaves no trace and is not acknowledged. */
  lemma ShortenedIsIgnored(p: Params, e: Endpoint, m: Message)
    requires !e.status.HandlerClosed? && m.Data? && |m.payload| < m.size
    ensures Act(p, e, Receive(m)) == e.(epochCount := 0) && Sent(p, e, Receive(m)) == {}
  {
  }

  // ---- graceful exit ----

  /** With nothing waiting for an ack and nothing parked, all that was written is delivered. */
  lemma AllAckedAllDelivered(p: Params, s: Endpoint, r: Endpoint)
    requires SenderOk(p, s) && Link(s, r) && s.tbuffer == map[] && s.tmsg == []
    ensures Delivered(r) == s.written && r.rsq == s.tsq
  {
    assert Stored(r, r.rsq) || r.rsq == s.tsq;
    assert s.written[..s.tsq - 1] == s.written;
  }

  /** A client handler that returns gracefully has had every payload it was given delivered
      to the server's reader. */
  lemma ClientGracefulExit(p: Params, steps: seq<Step>, a: Addr)
    requires a in Reached(p, steps).clients
    requires Apply(p, Reached(p, steps), ClientStep(a, Exit)) != Reached(p, steps)
    ensures var s := Reached(p, steps);
      && s.clients[a].id in s.sessions
      && Delivered(s.sessions[s.clients[a].id].ep) == s.clients[a].written
  {
    var s := Reached(p, steps);
    ReachedInv(p, steps);
    assert ClientOk(p, s, a);
    var c := s.clients[a];
    assert To(a, {}) == {};
    assert s.clients[a := c] == s.clients;
    assert MayExit(c);
    assert SessionOk(p, s, c.id);
    AllAckedAllDelivered(p, c, s.sessions[c.id].ep);
  }

  // ---- windows ----

  function LiveKeys(r: Endpoint): set<int> {
    set k | k in r.rbuffer && r.rsq <= k
  }

  lemma WindowOfSender(p: Params, s: Endpoint)
    requires SenderOk(p, s) && 1 <= p.windows
    ensures forall k | k in s.tbuffer :: s.tsq - p.windows <= k < s.tsq
    ensures |s.tbuffer| <= p.windows
  {
    IntervalSize(s.tbuffer.Keys, s.tsq - p.windows, s.tsq);
  }

  lemma WindowOfReceiver(p: Params, s: Endpoint, r: Endpoint)
    requires SenderOk(p, s) && Link(s, r) && 1 <= p.windows
    ensures forall k | k in LiveKeys(r) :: r.rsq < k < r.rsq + p.windows
    ensures |LiveKeys(r)| <= p.windows - 1
  {
    forall k | k in LiveKeys(r) ensures r.rsq < k < r.rsq + p.windows {
      assert k != r.rsq;
      assert !Stored(r, r.rsq);
      assert r.rsq in s.tbuffer;
    }
    IntervalSize(LiveKeys(r), r.rsq + 1, r.rsq + p.windows);
  }

  /** In every run, for a connection that a client has adopted: what either side has
      unacknowledged, and what the server has parked, fits the window. */
  lemma WindowsHold(p: Params, steps: seq<Step>, i: int)
    requires 1 <= p.windows && i in Reached(p, steps).sessions
    ensures var s := Reached(p, steps);
      var x := s.sessions[i].ep;
      && s.sessions[i].addr in s.clients
      && (forall k | k in x.tbuffer :: x.tsq - p.windows <= k < x.tsq)
      && |x.tbuffer| <= p.windows
      && (forall k | k in LiveKeys(x) :: x.rsq < k < x.rsq + p.windows)
      && |LiveKeys(x)| <= p.windows - 1
  {
    var s := Reached(p, steps);
    ReachedInv(p, steps);
    assert SessionOk(p, s, i);
    var c := s.clients[s.sessions[i].addr];
    assert ClientOk(p, s, s.sessions[i].addr);
    WindowOfSender(p, s.sessions[i].ep);
    if c.id == i {
      WindowOfReceiver(p, c, s.sessions[i].ep);
    } else {
      assert LiveKeys(s.sessions[i].ep) == {};
    }
  }

  // ---- handshake ----

  /** No two clients adopt one identifier; an adopted identifier was given to that address;
      live sessions have distinct addresses and identifiers below `lastConnID`. */
  lemma IdentifiersAreUnique(p: Params, steps: seq<Step>)
    ensures var s := Reached(p, steps);
      && (forall a, b | a in s.clients && b in s.clients && a != b ::
            s.clients[a].id == s.clients[b].id ==> s.clients[a].id == -1)
      && (forall a | a in s.clients :: s.clients[a].id == -1 ||
            (s.clients[a].id in s.sessions && s.sessions[s.clients[a].id].addr == a))
      && (forall i | i in s.table.clients :: i in s.sessions &&
            FIRST_CONN_ID <= i < s.table.lastConnId && s.sessions[i].addr == s.table.clients[i])
      && (forall i, j | i in s.table.clients && j in s.table.clients && i != j ::
            s.table.clients[i] != s.table.clients[j])
  {
    var s := Reached(p, steps);
    ReachedInv(p, steps);
    forall a | a in s.clients
      ensures s.clients[a].id == -1 ||
        (s.clients[a].id in s.sessions && s.sessions[s.clients[a].id].addr == a)
    {
      assert ClientOk(p, s, a);
    }
  }

  /** The server still routes to every session that has not been told to close. */
  lemma OpenSessionsAreInTable(p: Params, steps: seq<Step>, i: int)
    requires i in Reached(p, steps).sessions && Reached(p, steps).sessions[i].ep.status.NotClosing?
    ensures i in Reached(p, steps).table.clients
  {
    ReachedInv(p, steps);
  }

  /** While its client has no identifier, a session has received nothing, so that every
      epoch it survives writes again the ack that duplicate connect requests do not get. */
  lemma UnansweredSessionRepeatsAck(p: Params, steps: seq<Step>, i: int)
    requires i in Reached(p, steps).sessions
    requires Reached(p, steps).sessions[i].addr in Reached(p, steps).clients
    requires Reached(p, steps).clients[Reached(p, steps).sessions[i].addr].id == -1
    ensures var x := Reached(p, steps).sessions[i].ep;
      && x.rsq == 1 && x.rbuffer == map[]
      && (Runs(x, Timer) && x.epochCount + 1 != p.retries ==> Ack(i, 0) in Sent(p, x, Timer))
  {
    var s := Reached(p, steps);
    ReachedInv(p, steps);
    assert SessionOk(p, s, i);
    assert TableOk(s);
  }
}
