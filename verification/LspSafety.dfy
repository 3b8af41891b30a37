/** What every reachable state satisfies, and what follows for the readers. */
module LspSafety {
  import opened Collections
  import opened LspMachine
  import opened LspSystem

  // ---- one endpoint ----

  function Max(a: int, b: int): int { if a < b then b else a }

  /** The message `tbuffer[k]` must be. */
  function Numbering(e: Endpoint, k: int): Message
    requires k < 1 || k <= |e.written|
  {
    if k < 1 then Connect else NewData(e.id, k, e.written[k - 1])
  }

  ghost predicate SenderOk(p: Params, e: Endpoint) {
    && -1 <= e.id && 0 <= e.epochCount
    && 1 <= e.tsq <= |e.written| + 1
    && |e.tmsg| == |e.written| + 1 - e.tsq
    && (forall i | 0 <= i < |e.tmsg| :: e.tmsg[i] == NewData(e.id, -1, e.written[e.tsq - 1 + i]))
    && (forall k | k in e.tbuffer :: 0 <= k < e.tsq && e.tsq - k <= Max(p.windows, 1))
    && (forall k | k in e.tbuffer :: e.tbuffer[k] == Numbering(e, k))
    && (e.id < 0 <==> 0 in e.tbuffer)
    && (e.id < 0 ==> e.written == [])
  }

  predicate Stored(r: Endpoint, k: int) {
    k < r.rsq || k in r.rbuffer
  }

  predicate Idle(r: Endpoint) {
    r.rsq == 1 && r.rbuffer == map[] && r.rmsg == [] && r.read == []
  }

  /** The number waited for is never parked. */
  predicate Waiting(e: Endpoint) {
    1 <= e.rsq && e.rsq !in e.rbuffer
  }

  /** The half of `r` that receives what `s` sends agrees with `s`. */
  ghost predicate Received(r: Endpoint, written: seq<Payload>, tsq: int) {
    && 1 <= r.rsq <= tsq <= |written| + 1
    && r.rsq !in r.rbuffer
    && r.read + r.rmsg == written[..r.rsq - 1]
    && (forall k | k in r.rbuffer :: 1 <= k < tsq)
    && (forall k | k in r.rbuffer :: r.rbuffer[k] == written[k - 1])
  }

  /** A message no longer waiting for its ack is in the peer's hands. */
  ghost predicate AckedIsStored(s: Endpoint, r: Endpoint) {
    forall k | 1 <= k < s.tsq && k !in s.tbuffer :: Stored(r, k)
  }

  predicate AllUnacked(s: Endpoint) {
    forall k | 1 <= k < s.tsq :: k in s.tbuffer
  }

  ghost predicate Link(s: Endpoint, r: Endpoint) {
    Received(r, s.written, s.tsq) && AckedIsStored(s, r)
  }

  // ---- packets ----

  /** `m` is a data message of `s`, or one that the network has shortened. */
  ghost predicate Genuine(m: Message, s: Endpoint)
    requires m.Data?
  {
    && 1 <= m.seqNum < s.tsq <= |s.written| + 1
    && m.size == |s.written[m.seqNum - 1]|
    && (m.payload == s.written[m.seqNum - 1] || |m.payload| < m.size)
  }

  ghost predicate Vouched(m: Message, r: Endpoint)
    requires m.Ack?
  {
    m.seqNum <= 0 || Stored(r, m.seqNum)
  }

  ghost predicate UpOk(s: System, a: Addr, m: Message) {
    && a in s.clients
    && match m
       case Connect => true
       case Data(i, _, _, _) => 0 <= i == s.clients[a].id && Genuine(m, s.clients[a])
       case Ack(i, _) => (i == -1 || i == s.clients[a].id) && Vouched(m, s.clients[a])
  }

  ghost predicate DownOk(s: System, a: Addr, m: Message) {
    && !m.Connect?
    && m.connId in s.sessions
    && s.sessions[m.connId].addr == a
    && match m
       case Data(i, _, _, _) => Genuine(m, s.sessions[i].ep)
       case Ack(i, _) => Vouched(m, s.sessions[i].ep)
  }

  // ---- the whole system ----

  ghost predicate ClientOk(p: Params, s: System, a: Addr)
    requires a in s.clients
  {
    var c := s.clients[a];
    && SenderOk(p, c)
    && (0 <= c.id ==> c.id in s.sessions && s.sessions[c.id].addr == a)
    && Waiting(c)
  }

  /** The client that adopted a session and the session have each other's acked messages;
      from a client that did not, the session has got nothing at all. */
  ghost predicate PeersOk(c: Endpoint, x: Endpoint) {
    && (c.id == x.id ==> Link(c, x) && AckedIsStored(x, c))
    && (c.id != x.id ==> Idle(x) && AllUnacked(x))
  }

  ghost predicate SessionOk(p: Params, s: System, i: int)
    requires i in s.sessions
  {
    var x := s.sessions[i];
    && x.ep.id == i
    && SenderOk(p, x.ep)
    && x.addr in s.clients
    && PeersOk(s.clients[x.addr], x.ep)
  }

  ghost predicate TableOk(s: System) {
    && FIRST_CONN_ID <= s.table.lastConnId
    && (forall i | i in s.sessions :: FIRST_CONN_ID <= i < s.table.lastConnId)
    && (forall i | i in s.table.clients :: i in s.sessions && s.sessions[i].addr == s.table.clients[i])
    && (forall i | i in s.sessions && s.sessions[i].ep.status.NotClosing? :: i in s.table.clients)
    && (forall i, j | i in s.table.clients && j in s.table.clients ::
          s.table.clients[i] == s.table.clients[j] ==> i == j)
    && (forall x | x in s.queued ::
          !x.1.Connect? && x.1.connId in s.sessions && x.1.connId !in s.table.clients)
  }

  /** What a session may still take. */
  function Upward(s: System): set<(Addr, Message)> {
    s.up + s.queued
  }

  ghost predicate Inv(p: Params, s: System) {
    && TableOk(s)
    && (forall a | a in s.clients :: ClientOk(p, s, a))
    && (forall i | i in s.sessions :: SessionOk(p, s, i))
    && (forall a, m | (a, m) in Upward(s) :: UpOk(s, a, m))
    && (forall a, m | (a, m) in s.down :: DownOk(s, a, m))
  }

  // ---- one endpoint moves ----

  /** Nothing sent or stored is taken back. */
  ghost predicate Grows(e: Endpoint, e': Endpoint) {
    && (0 <= e.id ==> e'.id == e.id)
    && e.tsq <= e'.tsq
    && e.written <= e'.written
    && e.rsq <= e'.rsq
    && (forall k | Stored(e, k) :: Stored(e', k))
  }

  lemma {:induction false} DrainGrows(e: Endpoint)
    ensures var d := Drain(e);
      && e.rsq <= d.rsq && d.rsq !in d.rbuffer
      && (forall k :: Stored(e, k) <==> Stored(d, k))
      && d.(rbuffer := e.rbuffer, rmsg := e.rmsg, rsq := e.rsq) == e
    decreases |e.rbuffer|
  {
    if e.rsq in e.rbuffer {
      var e1 := e.(rmsg := e.rmsg + [e.rbuffer[e.rsq]], rsq := e.rsq + 1, rbuffer := e.rbuffer - {e.rsq});
      assert e1.rbuffer.Keys == e.rbuffer.Keys - {e.rsq};
      DrainGrows(e1);
    }
  }

  lemma ActGrows(p: Params, e: Endpoint, a: Action)
    requires SenderOk(p, e)
    ensures Grows(e, Act(p, e, a))
  {
    if a.Receive? && a.m.Data? {
      DrainGrows(Store(e.(epochCount := 0), a.m.seqNum, a.m.payload));
    }
  }

  lemma ActKeepsWaiting(p: Params, e: Endpoint, a: Action)
    requires Waiting(e)
    ensures Waiting(Act(p, e, a))
  {
    if a.Receive? && a.m.Data? {
      DrainGrows(Store(e.(epochCount := 0), a.m.seqNum, a.m.payload));
    }
  }

  /** The receiving half and the sending half of an endpoint do not touch each other. */
  lemma DataKeepsSender(p: Params, e: Endpoint, m: Message)
    requires m.Data?
    ensures var d := OnData(e, m);
      d.id == e.id && d.tbuffer == e.tbuffer && d.tmsg == e.tmsg && d.tsq == e.tsq &&
      d.written == e.written && d.read == e.read && d.status == e.status && d.epochCount == e.epochCount
  {
    DrainGrows(Store(e, m.seqNum, m.payload));
  }

  lemma SendNextKeepsSenderOk(p: Params, e: Endpoint)
    requires SenderOk(p, e)
    ensures SenderOk(p, OnSendNext(p, e))
  {
    var e' := OnSendNext(p, e);
    if e' != e {
      assert e'.tmsg == e.tmsg[1..];
      forall i | 0 <= i < |e'.tmsg|
        ensures e'.tmsg[i] == NewData(e'.id, -1, e'.written[e'.tsq - 1 + i])
      {
        assert e'.tmsg[i] == e.tmsg[i + 1];
      }
      forall k | k in e'.tbuffer
        ensures 0 <= k < e'.tsq && e'.tsq - k <= Max(p.windows, 1)
        ensures e'.tbuffer[k] == Numbering(e', k)
      {
        assert k == e.tsq || k in e.tbuffer;
      }
    }
  }

  lemma AckKeepsSenderOk(p: Params, e: Endpoint, m: Message)
    requires SenderOk(p, e) && m.Ack? && 0 <= m.connId
    ensures SenderOk(p, OnAck(e, m))
    ensures OnAck(e, m).id != e.id ==> m.connId == OnAck(e, m).id && m.seqNum == 0
  {
    var e' := OnAck(e, m);
    if m.seqNum in e.tbuffer {
      assert e.tbuffer[m.seqNum] == Numbering(e, m.seqNum);
      assert e'.id != e.id ==> m.seqNum == 0;
      forall k | k in e'.tbuffer
        ensures e'.tbuffer[k] == Numbering(e', k)
      {
        assert e.tbuffer[k] == Numbering(e, k);
      }
    }
  }

  lemma WriteKeepsSenderOk(p: Params, e: Endpoint, payload: Payload)
    requires SenderOk(p, e) && 0 <= e.id
    ensures SenderOk(p, Act(p, e, Write(payload)))
  {
    var e' := Act(p, e, Write(payload));
    forall k | k in e'.tbuffer
      ensures e'.tbuffer[k] == Numbering(e', k)
    {
      assert e.tbuffer[k] == Numbering(e, k);
    }
  }

  lemma DataKeepsSenderOk(p: Params, e: Endpoint, m: Message)
    requires SenderOk(p, e) && m.Data?
    ensures SenderOk(p, OnData(e, m))
  {
    DataKeepsSender(p, e, m);
    SenderFrame(p, e, OnData(e, m));
  }

  /** Only an ack of a connect request can give an endpoint its identifier. */
  lemma ActKeepsSenderOk(p: Params, e: Endpoint, a: Action)
    requires SenderOk(p, e)
    requires a.Write? ==> 0 <= e.id
    requires a.Receive? && a.m.Ack? ==> 0 <= a.m.connId
    ensures SenderOk(p, Act(p, e, a))
    ensures Act(p, e, a).id != e.id ==> a.Receive? && a.m.Ack? && a.m.connId == Act(p, e, a).id
  {
    if Runs(e, a) {
      match a
      case Write(payload) => WriteKeepsSenderOk(p, e, payload);
      case SendNext => SendNextKeepsSenderOk(p, e);
      case Receive(m) => ReceiveKeepsSenderOk(p, e, m);
      case _ => SenderFrame(p, e, Act(p, e, a));
    }
  }

  lemma SenderFrame(p: Params, e: Endpoint, e': Endpoint)
    requires SenderOk(p, e) && 0 <= e'.epochCount
    requires e'.id == e.id && e'.tsq == e.tsq && e'.written == e.written && e'.tmsg == e.tmsg && e'.tbuffer == e.tbuffer
    ensures SenderOk(p, e')
  {
  }

  lemma ReceiveKeepsSenderOk(p: Params, e: Endpoint, m: Message)
    requires SenderOk(p, e) && (m.Ack? ==> 0 <= m.connId)
    ensures SenderOk(p, OnReceive(e, m))
    ensures OnReceive(e, m).id != e.id ==> m.Ack? && m.connId == OnReceive(e, m).id
  {
    var e0 := e.(epochCount := 0);
    SenderFrame(p, e, e0);
    if m.Data? {
      DataKeepsSender(p, e0, m);
      DataKeepsSenderOk(p, e0, m);
    } else if m.Ack? {
      AckKeepsSenderOk(p, e0, m);
    }
  }

  lemma {:induction false} DrainReceived(e: Endpoint, written: seq<Payload>, tsq: int)
    requires 1 <= e.rsq <= tsq <= |written| + 1
    requires e.read + e.rmsg == written[..e.rsq - 1]
    requires forall k | k in e.rbuffer :: 1 <= k < tsq && e.rbuffer[k] == written[k - 1]
    ensures Received(Drain(e), written, tsq)
    decreases |e.rbuffer|
  {
    if e.rsq in e.rbuffer {
      var e1 := e.(rmsg := e.rmsg + [e.rbuffer[e.rsq]], rsq := e.rsq + 1, rbuffer := e.rbuffer - {e.rsq});
      assert e1.rbuffer.Keys == e.rbuffer.Keys - {e.rsq};
      assert e.read + e1.rmsg == written[..e.rsq - 1] + [written[e.rsq - 1]] == written[..e.rsq];
      DrainReceived(e1, written, tsq);
    }
  }

  lemma DataKeepsReceived(s: Endpoint, r: Endpoint, m: Message)
    requires Received(r, s.written, s.tsq) && m.Data? && Genuine(m, s)
    ensures Received(OnData(r, m), s.written, s.tsq)
  {
    if m.size <= |m.payload| && m.seqNum == r.rsq {
      DrainReceived(Store(r, m.seqNum, m.payload), s.written, s.tsq);
    }
  }

  /** The receiver's moves, the only data in sight being genuine. */
  lemma ReceiverMoves(p: Params, s: Endpoint, r: Endpoint, a: Action)
    requires Link(s, r) && SenderOk(p, r)
    requires a.Receive? && a.m.Data? ==> Genuine(a.m, s)
    ensures Link(s, Act(p, r, a))
  {
    ActGrows(p, r, a);
    match a
    case Receive(m) =>
      if m.Data? && Runs(r, a) {
        DataKeepsReceived(s, r.(epochCount := 0), m);
      }
    case Read =>
      if r.rmsg != [] {
        assert r.read + r.rmsg == r.read + [r.rmsg[0]] + r.rmsg[1..];
      }
    case _ =>
  }

  /** The sender's moves, the only acks in sight being vouched for. */
  lemma SenderMoves(p: Params, s: Endpoint, r: Endpoint, a: Action)
    requires Link(s, r) && SenderOk(p, s)
    requires a.Receive? && a.m.Ack? ==> Vouched(a.m, r)
    ensures Link(Act(p, s, a), r)
  {
    if Runs(s, a) {
      match a
      case Receive(m) =>
        if m.Data? {
          DataKeepsSender(p, s.(epochCount := 0), m);
        }
        LinkFrame(s, Act(p, s, a), r);
      case _ => LinkFrame(s, Act(p, s, a), r);
    }
  }

  /** The sender has gone on, and waits for all the acks it waited for unless `r` has the data. */
  lemma LinkFrame(s: Endpoint, s': Endpoint, r: Endpoint)
    requires Link(s, r) && s.written <= s'.written && s.tsq <= s'.tsq <= |s'.written| + 1
    requires forall k | 1 <= k < s'.tsq && k !in s'.tbuffer :: (k < s.tsq && k !in s.tbuffer) || Stored(r, k)
    ensures Link(s', r)
  {
    assert s'.written[..r.rsq - 1] == s.written[..r.rsq - 1];
  }

  lemma SenderKeepsAcked(p: Params, s: Endpoint, r: Endpoint, a: Action)
    requires AckedIsStored(s, r)
    requires a.Receive? && a.m.Ack? ==> Vouched(a.m, r)
    ensures AckedIsStored(Act(p, s, a), r)
  {
    if a.Receive? && a.m.Data? {
      DataKeepsSender(p, s.(epochCount := 0), a.m);
    }
  }

  lemma GenuineGrows(m: Message, e: Endpoint, e': Endpoint)
    requires m.Data? && Genuine(m, e) && Grows(e, e') && e'.tsq <= |e'.written| + 1
    ensures Genuine(m, e')
  {
    assert e'.written[m.seqNum - 1] == e.written[m.seqNum - 1];
  }

  lemma ResentOk(e: Endpoint, p: Params, m: Message)
    requires SenderOk(p, e) && m in e.tbuffer.Values
    ensures m.Data? ==> m.connId == e.id && Genuine(m, e) && 0 <= e.id
    ensures !m.Ack? && (m.Connect? ==> e.id < 0)
  {
    var k := KeyOf(e.tbuffer, m);
    assert m == Numbering(e, k);
  }

  lemma AcknowledgedIsStored(e: Endpoint, m: Message)
    requires m.Data? && m.size <= |m.payload|
    ensures Stored(OnData(e, m), m.seqNum)
  {
    DrainGrows(Store(e, m.seqNum, m.payload));
  }

  /** Data an endpoint writes is its own, and what it acknowledges it has stored. */
  lemma SentOk(p: Params, e: Endpoint, a: Action, m: Message)
    requires SenderOk(p, e) && SenderOk(p, Act(p, e, a))
    requires m in Sent(p, e, a)
    ensures m.Data? ==> m.connId == e.id && Genuine(m, Act(p, e, a)) && 0 <= e.id
    ensures m.Ack? ==> m.connId == e.id && Vouched(m, Act(p, e, a))
    ensures m.Connect? ==> e.id < 0
  {
    match a
    case Receive(d) => AcknowledgedIsStored(e.(epochCount := 0), d);
    case Timer => TimerSentOk(p, e, m);
    case SendNext => NextSentOk(p, e, m);
    case _ =>
  }

  lemma TimerSentOk(p: Params, e: Endpoint, m: Message)
    requires SenderOk(p, e) && m in Reminder(e) + e.tbuffer.Values
    ensures m.Data? ==> m.connId == e.id && Genuine(m, e) && 0 <= e.id
    ensures m.Ack? ==> m.connId == e.id && m.seqNum == 0
    ensures m.Connect? ==> e.id < 0
  {
    if m in e.tbuffer.Values {
      ResentOk(e, p, m);
    }
  }

  lemma NextSentOk(p: Params, e: Endpoint, m: Message)
    requires SenderOk(p, e) && m in Sent(p, e, SendNext)
    ensures m.Data? && m.connId == e.id && 0 <= e.id && Genuine(m, OnSendNext(p, e))
  {
    assert m == NewData(e.id, e.tsq, e.written[e.tsq - 1]);
  }

  // ---- what a step does not touch stays right ----

  predicate SameButStatus(x: Session, x': Session) {
    x'.addr == x.addr && x'.ep == x.ep.(status := x'.ep.status)
  }

  /** Sessions are never forgotten, and a session's address never changes. */
  predicate Keeps(s: System, s': System) {
    forall i | i in s.sessions :: i in s'.sessions && s'.sessions[i].addr == s.sessions[i].addr
  }

  lemma ClientFrame(p: Params, s: System, s': System, a: Addr)
    requires a in s.clients && ClientOk(p, s, a) && Keeps(s, s')
    requires a in s'.clients && s'.clients[a] == s.clients[a]
    ensures ClientOk(p, s', a)
  {
  }

  lemma SessionFrame(p: Params, s: System, s': System, i: int)
    requires i in s.sessions && SessionOk(p, s, i) && Keeps(s, s')
    requires SameButStatus(s.sessions[i], s'.sessions[i])
    requires s.sessions[i].addr in s'.clients
    requires s'.clients[s.sessions[i].addr] == s.clients[s.sessions[i].addr]
    ensures SessionOk(p, s', i)
  {
  }

  lemma UpFrame(s: System, s': System, a: Addr, m: Message)
    requires UpOk(s, a, m)
    requires a in s'.clients && s'.clients[a] == s.clients[a]
    ensures UpOk(s', a, m)
  {
  }

  lemma DownFrame(s: System, s': System, a: Addr, m: Message)
    requires DownOk(s, a, m)
    requires m.connId in s'.sessions && SameButStatus(s.sessions[m.connId], s'.sessions[m.connId])
    ensures DownOk(s', a, m)
  {
  }

  // ---- the system moves ----

  lemma ShorterUp(s: System, a: Addr, m: Message, short: Payload)
    requires UpOk(s, a, m) && m.Data? && |short| < |m.payload|
    ensures UpOk(s, a, m.(payload := short))
  {
  }

  lemma ShorterDown(s: System, a: Addr, m: Message, short: Payload)
    requires DownOk(s, a, m) && m.Data? && |short| < |m.payload|
    ensures DownOk(s, a, m.(payload := short))
  {
  }

  /** Steps of the network alone. */
  lemma NetworkKeepsInv(p: Params, s: System, step: Step)
    requires Inv(p, s)
    requires step.Lose? || step.ShortenUp? || step.ShortenDown?
    ensures Inv(p, Apply(p, s, step))
  {
    var s' := Apply(p, s, step);
    forall a | a in s'.clients ensures ClientOk(p, s', a) {
      ClientFrame(p, s, s', a);
    }
    forall i | i in s'.sessions ensures SessionOk(p, s', i) {
      assert SessionOk(p, s, i);
      SessionFrame(p, s, s', i);
    }
    NetworkKeepsPackets(p, s, step);
  }

  lemma NetworkKeepsPackets(p: Params, s: System, step: Step)
    requires forall a, m | (a, m) in Upward(s) :: UpOk(s, a, m)
    requires forall a, m | (a, m) in s.down :: DownOk(s, a, m)
    requires step.Lose? || step.ShortenUp? || step.ShortenDown?
    ensures var s' := Apply(p, s, step);
      && (forall a, m | (a, m) in Upward(s') :: UpOk(s', a, m))
      && (forall a, m | (a, m) in s'.down :: DownOk(s', a, m))
  {
    var s' := Apply(p, s, step);
    forall a, m | (a, m) in Upward(s') ensures UpOk(s', a, m) {
      if (a, m) !in Upward(s) {
        assert UpOk(s, a, step.m);
        ShorterUp(s, a, step.m, step.short);
      }
      UpFrame(s, s', a, m);
    }
    forall a, m | (a, m) in s'.down ensures DownOk(s', a, m) {
      if (a, m) !in s.down {
        assert DownOk(s, a, step.m);
        ShorterDown(s, a, step.m, step.short);
      }
      DownFrame(s, s', a, m);
    }
  }

  lemma StartKeepsInv(p: Params, s: System, a: Addr)
    requires Inv(p, s)
    ensures Inv(p, Apply(p, s, StartClient(a)))
  {
    var s' := Apply(p, s, StartClient(a));
    if a !in s.clients {
      forall b, m | (b, m) in Upward(s') ensures UpOk(s', b, m) {
        if (b, m) in Upward(s) {
          UpFrame(s, s', b, m);
        }
      }
      forall b, m | (b, m) in s'.down ensures DownOk(s', b, m) {
        DownFrame(s, s', b, m);
      }
      forall b | b in s'.clients ensures ClientOk(p, s', b) {
        if b != a {
          ClientFrame(p, s, s', b);
        }
      }
      forall i | i in s'.sessions ensures SessionOk(p, s', i) {
        assert SessionOk(p, s, i);
        SessionFrame(p, s, s', i);
      }
    }
  }

  lemma NewSessionOk(p: Params, s: System, a: Addr, n: int)
    requires a in s.clients && ClientOk(p, s, a) && n !in s.sessions && 0 <= n
    requires SenderOk(p, s.clients[a])
    ensures var s' := s.(sessions := s.sessions[n := Session(a, SessionInit(n))]);
      Keeps(s, s') && SessionOk(p, s', n)
  {
  }

  lemma AcceptKeepsInv(p: Params, s: System, a: Addr)
    requires Inv(p, s)
    ensures Inv(p, Apply(p, s, AcceptConnect(a)))
  {
    var s' := Apply(p, s, AcceptConnect(a));
    if (a, Connect) in s.up && AcceptedId(s.table, a).Some? {
      AcceptKeepsTable(s, a);
      assert UpOk(s, a, Connect);
      assert ClientOk(p, s, a);
      NewSessionOk(p, s, a, s.table.lastConnId);
      AcceptKeepsPeers(p, s, s', a);
      AcceptKeepsPackets(s, s', a);
    }
  }

  lemma AcceptKeepsTable(s: System, a: Addr)
    requires TableOk(s) && AcceptedId(s.table, a).Some?
    ensures 0 <= s.table.lastConnId && s.table.lastConnId !in s.sessions && TableOk(AcceptMove(s, a))
  {
  }

  lemma AcceptKeepsPeers(p: Params, s: System, s': System, a: Addr)
    requires forall b | b in s.clients :: ClientOk(p, s, b)
    requires forall i | i in s.sessions :: SessionOk(p, s, i)
    requires var n := s.table.lastConnId;
      && n !in s.sessions && Keeps(s, s.(sessions := s'.sessions))
      && s'.sessions == s.sessions[n := Session(a, SessionInit(n))]
      && SessionOk(p, s.(sessions := s'.sessions), n)
    requires s'.clients == s.clients
    ensures forall b | b in s'.clients :: ClientOk(p, s', b)
    ensures forall i | i in s'.sessions :: SessionOk(p, s', i)
  {
    forall b | b in s'.clients ensures ClientOk(p, s', b) {
      ClientFrame(p, s, s', b);
    }
    forall i | i in s'.sessions ensures SessionOk(p, s', i) {
      if i == s.table.lastConnId {
        SessionFrame(p, s.(sessions := s'.sessions), s', i);
      } else {
        SessionFrame(p, s, s', i);
      }
    }
  }

  lemma AcceptKeepsPackets(s: System, s': System, a: Addr)
    requires forall b, m | (b, m) in Upward(s) :: UpOk(s, b, m)
    requires forall b, m | (b, m) in s.down :: DownOk(s, b, m)
    requires s.table.lastConnId !in s.sessions && s' == AcceptMove(s, a)
    ensures forall b, m | (b, m) in Upward(s') :: UpOk(s', b, m)
    ensures forall b, m | (b, m) in s'.down :: DownOk(s', b, m)
  {
    forall b, m | (b, m) in Upward(s') ensures UpOk(s', b, m) {
      UpFrame(s, s', b, m);
    }
    forall b, m | (b, m) in s'.down ensures DownOk(s', b, m) {
      if (b, m) in s.down {
        DownFrame(s, s', b, m);
      }
    }
  }

  lemma CloseKeepsInv(p: Params, s: System, id: int, arrived: set<(Addr, Message)>)
    requires Inv(p, s)
    ensures Inv(p, Apply(p, s, CloseConn(id, arrived)))
  {
    var s' := Apply(p, s, CloseConn(id, arrived));
    if id in s.table.clients && id in s.sessions {
      CloseKeepsTable(s, id, arrived);
      CloseKeepsSessions(s, id, arrived);
      forall b | b in s'.clients ensures ClientOk(p, s', b) {
        ClientFrame(p, s, s', b);
      }
      forall i | i in s'.sessions ensures SessionOk(p, s', i) {
        assert SessionOk(p, s, i);
        SessionFrame(p, s, s', i);
      }
      forall b, m | (b, m) in Upward(s') ensures UpOk(s', b, m) {
        UpFrame(s, s', b, m);
      }
      forall b, m | (b, m) in s'.down ensures DownOk(s', b, m) {
        assert DownOk(s, b, m);
        DownFrame(s, s', b, m);
      }
    }
  }

  lemma CloseKeepsTable(s: System, id: int, arrived: set<(Addr, Message)>)
    requires TableOk(s)
    ensures TableOk(CloseMove(s, id, arrived)) && Upward(CloseMove(s, id, arrived)) <= Upward(s)
  {
  }

  lemma CloseKeepsSessions(s: System, id: int, arrived: set<(Addr, Message)>)
    ensures var s' := CloseMove(s, id, arrived);
      Keeps(s, s') && s'.sessions.Keys == s.sessions.Keys &&
      forall j | j in s.sessions :: SameButStatus(s.sessions[j], s'.sessions[j])
  {
  }

  /** What a client's move needs to know of the packet it takes. */
  lemma ClientInput(p: Params, s: System, a: Addr, act: Action, i: int)
    requires Inv(p, s) && a in s.clients && ClientMay(s, a, act) && act.Receive?
    requires i in s.sessions && s.sessions[i].addr == a
    ensures act.m.connId in s.sessions && FIRST_CONN_ID <= act.m.connId
    ensures act.m.Ack? && (s.clients[a].id == i || act.m.connId == i) ==> Vouched(act.m, s.sessions[i].ep)
  {
    var j := act.m.connId;
    assert DownOk(s, a, act.m);
    assert SessionOk(p, s, j) && SessionOk(p, s, i);
  }

  lemma ClientKeepsClientOk(p: Params, s: System, a: Addr, act: Action)
    requires Inv(p, s) && a in s.clients && ClientMay(s, a, act)
    ensures SenderOk(p, Act(p, s.clients[a], act)) && Grows(s.clients[a], Act(p, s.clients[a], act))
    ensures ClientOk(p, ClientMove(p, s, a, act), a)
  {
    var c := s.clients[a];
    assert ClientOk(p, s, a);
    if act.Receive? {
      assert DownOk(s, a, act.m);
      ClientInput(p, s, a, act, act.m.connId);
    }
    ActKeepsSenderOk(p, c, act);
    ActKeepsWaiting(p, c, act);
    ActGrows(p, c, act);
  }

  lemma ClientKeepsPeers(p: Params, c: Endpoint, x: Endpoint, act: Action)
    requires SenderOk(p, c) && SenderOk(p, x) && 0 <= x.id && PeersOk(c, x)
    requires act.Write? ==> 0 <= c.id
    requires act.Receive? && act.m.Ack? ==> 0 <= act.m.connId
    requires act.Receive? && act.m.Ack? && c.id == x.id ==> Vouched(act.m, x)
    ensures PeersOk(Act(p, c, act), x)
  {
    ActKeepsSenderOk(p, c, act);
    ActGrows(p, c, act);
    if c.id == x.id {
      SenderMoves(p, c, x, act);
    }
  }

  lemma ClientKeepsSessionOk(p: Params, s: System, a: Addr, act: Action, i: int)
    requires Inv(p, s) && a in s.clients && ClientMay(s, a, act) && i in s.sessions
    ensures SessionOk(p, ClientMove(p, s, a, act), i)
  {
    var s' := ClientMove(p, s, a, act);
    assert SessionOk(p, s, i) && ClientOk(p, s, a);
    if s.sessions[i].addr == a {
      if act.Receive? {
        ClientInput(p, s, a, act, i);
      }
      ClientKeepsPeers(p, s.clients[a], s.sessions[i].ep, act);
    } else {
      SessionFrame(p, s, s', i);
    }
  }

  lemma ClientKeepsUpOk(p: Params, s: System, a: Addr, act: Action, b: Addr, m: Message)
    requires Inv(p, s) && a in s.clients && ClientMay(s, a, act)
    requires (b, m) in Upward(ClientMove(p, s, a, act))
    ensures UpOk(ClientMove(p, s, a, act), b, m)
  {
    ClientKeepsClientOk(p, s, a, act);
    var c := s.clients[a];
    var c' := Act(p, c, act);
    assert ClientOk(p, s, a);
    if (b, m) in Upward(s) {
      assert UpOk(s, b, m);
      if b == a && m.Data? {
        GenuineGrows(m, c, c');
      }
    } else {
      SentOk(p, c, act, m);
    }
  }

  lemma ClientKeepsInv(p: Params, s: System, a: Addr, act: Action)
    requires Inv(p, s)
    ensures Inv(p, Apply(p, s, ClientStep(a, act)))
  {
    var s' := Apply(p, s, ClientStep(a, act));
    if a in s.clients && ClientMay(s, a, act) {
      forall b | b in s'.clients ensures ClientOk(p, s', b) {
        if b == a {
          ClientKeepsClientOk(p, s, a, act);
        } else {
          assert ClientOk(p, s, b);
        }
      }
      forall i | i in s'.sessions ensures SessionOk(p, s', i) {
        ClientKeepsSessionOk(p, s, a, act, i);
      }
      forall b, m | (b, m) in Upward(s') ensures UpOk(s', b, m) {
        ClientKeepsUpOk(p, s, a, act, b, m);
      }
      forall b, m | (b, m) in s'.down ensures DownOk(s', b, m) {
        assert DownOk(s, b, m);
      }
    }
  }

  /** A packet routed to a session comes from the client that adopted its identifier. */
  lemma SessionInput(p: Params, s: System, i: int, act: Action, from: Addr)
    requires Inv(p, s) && i in s.sessions && SessionMay(s, i, act, from) && act.Receive?
    ensures FIRST_CONN_ID <= act.m.connId == i && s.sessions[i].addr in s.clients
    ensures var c := s.clients[s.sessions[i].addr];
      && c.id == i
      && (act.m.Data? ==> Genuine(act.m, c))
      && (act.m.Ack? ==> Vouched(act.m, c))
  {
    assert UpOk(s, from, act.m);
    assert ClientOk(p, s, from);
  }

  lemma SessionKeepsPeers(p: Params, x: Endpoint, c: Endpoint, act: Action)
    requires SenderOk(p, x) && 0 <= x.id && PeersOk(c, x)
    requires act.Receive? ==> !act.m.Connect? && c.id == x.id == act.m.connId
    requires act.Receive? && act.m.Data? ==> Genuine(act.m, c)
    requires act.Receive? && act.m.Ack? ==> Vouched(act.m, c)
    ensures SenderOk(p, Act(p, x, act)) && Act(p, x, act).id == x.id
    ensures PeersOk(c, Act(p, x, act))
  {
    ActKeepsSenderOk(p, x, act);
    if c.id == x.id {
      ReceiverMoves(p, c, x, act);
      SenderKeepsAcked(p, x, c, act);
    }
  }

  lemma SessionKeepsSessionOk(p: Params, s: System, i: int, act: Action, from: Addr)
    requires Inv(p, s) && i in s.sessions && SessionMay(s, i, act, from)
    ensures var x, x' := s.sessions[i].ep, Act(p, s.sessions[i].ep, act);
      SenderOk(p, x') && x'.id == i && Grows(x, x')
    ensures SessionOk(p, SessionMove(p, s, i, act), i)
  {
    var s' := SessionMove(p, s, i, act);
    assert SessionOk(p, s, i);
    var x, a := s.sessions[i].ep, s.sessions[i].addr;
    if act.Receive? {
      SessionInput(p, s, i, act, from);
    }
    forall j | j in s.sessions ensures s'.sessions[j].addr == s.sessions[j].addr {}
    SessionKeepsPeers(p, x, s.clients[a], act);
    ActGrows(p, x, act);
  }

  lemma SessionKeepsDownOk(p: Params, s: System, i: int, act: Action, from: Addr, b: Addr, m: Message)
    requires Inv(p, s) && i in s.sessions && SessionMay(s, i, act, from)
    requires (b, m) in SessionMove(p, s, i, act).down
    ensures DownOk(SessionMove(p, s, i, act), b, m)
  {
    SessionKeepsSessionOk(p, s, i, act, from);
    assert SessionOk(p, s, i);
    var x := s.sessions[i].ep;
    var x' := Act(p, x, act);
    if (b, m) in s.down {
      assert DownOk(s, b, m);
      if m.connId == i && m.Data? {
        GenuineGrows(m, x, x');
      }
    } else {
      SentOk(p, x, act, m);
    }
  }

  /** No handler's move takes a closing back. */
  lemma ActKeepsClosing(p: Params, e: Endpoint, act: Action)
    ensures Act(p, e, act).status.NotClosing? ==> e.status.NotClosing?
  {
    if act.Receive? && act.m.Data? {
      DataKeepsSender(p, e.(epochCount := 0), act.m);
    }
  }

  lemma SessionKeepsTable(p: Params, s: System, i: int, act: Action)
    requires TableOk(s) && i in s.sessions
    ensures TableOk(SessionMove(p, s, i, act))
  {
    ActKeepsClosing(p, s.sessions[i].ep, act);
  }

  lemma SessionKeepsInv(p: Params, s: System, i: int, act: Action, from: Addr)
    requires Inv(p, s)
    ensures Inv(p, Apply(p, s, SessionStep(i, act, from)))
  {
    var s' := Apply(p, s, SessionStep(i, act, from));
    if i in s.sessions && SessionMay(s, i, act, from) {
      SessionKeepsTable(p, s, i, act);
      forall j | j in s.sessions ensures s'.sessions[j].addr == s.sessions[j].addr {}
      forall b | b in s'.clients ensures ClientOk(p, s', b) {
        assert ClientOk(p, s, b);
      }
      forall j | j in s'.sessions ensures SessionOk(p, s', j) {
        if j == i {
          SessionKeepsSessionOk(p, s, i, act, from);
        } else {
          assert SessionOk(p, s, j);
        }
      }
      forall b, m | (b, m) in Upward(s') ensures UpOk(s', b, m) {
        assert UpOk(s, b, m);
      }
      forall b, m | (b, m) in s'.down ensures DownOk(s', b, m) {
        SessionKeepsDownOk(p, s, i, act, from, b, m);
      }
    }
  }

  lemma StepKeepsInv(p: Params, s: System, step: Step)
    requires Inv(p, s)
    ensures Inv(p, Apply(p, s, step))
  {
    match step
    case StartClient(a) => StartKeepsInv(p, s, a);
    case AcceptConnect(a) => AcceptKeepsInv(p, s, a);
    case ClientStep(a, act) => ClientKeepsInv(p, s, a, act);
    case SessionStep(i, act, from) => SessionKeepsInv(p, s, i, act, from);
    case CloseConn(i, arrived) => CloseKeepsInv(p, s, i, arrived);
    case _ => NetworkKeepsInv(p, s, step);
  }

  lemma {:induction false} RunKeepsInv(p: Params, s: System, steps: seq<Step>)
    requires Inv(p, s)
    ensures Inv(p, Run(p, s, steps))
    decreases |steps|
  {
    if steps != [] {
      StepKeepsInv(p, s, steps[0]);
      RunKeepsInv(p, Apply(p, s, steps[0]), steps[1..]);
    }
  }
}
