/** The other direction: a rival that runs can break the order, in a run that is given; so
    being unrivalled is exactly what the order needs. */
module LspRivals {
  import opened Collections
  import opened LspMachine
  import opened LspSystem
  import opened LspSafety
  import opened LspTheorems
  import opened LspSources
  import opened LspOrder

  predicate CanResend(p: Params, y: Endpoint) {
    !y.status.HandlerClosed? && y.epochCount + 1 != p.retries
  }

  /** Only session `j` and the packets have changed. */
  predicate OnlySession(s: System, t: System, j: int) {
    && t.clients == s.clients && t.table == s.table && t.up == s.up && s.down <= t.down
    && t.sessions.Keys == s.sessions.Keys
    && forall l | l in s.sessions && l != j :: t.sessions[l] == s.sessions[l]
  }

  // ---- the rival writes and numbers ----

  predicate AllFrom(written: seq<Payload>, n: nat, payload: Payload) {
    forall k | n <= k < |written| :: written[k] == payload
  }

  /** The server's application writes to `j` until it has written `n` payloads. */
  lemma {:induction false} Fill(p: Params, s: System, j: int, n: nat, payload: Payload) returns (more: seq<Step>)
    requires j in s.sessions && j in s.table.clients
    ensures var t := Run(p, s, more);
      && OnlySession(s, t, j) && t.sessions[j].addr == s.sessions[j].addr
      && t.sessions[j].ep == s.sessions[j].ep.(tmsg := t.sessions[j].ep.tmsg, written := t.sessions[j].ep.written)
      && s.sessions[j].ep.written <= t.sessions[j].ep.written && n <= |t.sessions[j].ep.written|
      && AllFrom(t.sessions[j].ep.written, |s.sessions[j].ep.written|, payload)
    decreases n - |s.sessions[j].ep.written|
  {
    more := [];
    if |s.sessions[j].ep.written| < n {
      var step := SessionStep(j, Write(payload), 0);
      var rest := Fill(p, Apply(p, s, step), j, n, payload);
      RunCons(p, s, step, rest);
      more := [step] + rest;
    }
  }

  /** What `j` sends as number `n`. */
  function DataOf(j: int, y: Endpoint, n: int): Message
    requires 1 <= n <= |y.written|
  {
    NewData(j, n, y.written[n - 1])
  }

  predicate OnTheWay(s: System, a: Addr, j: int, y: Endpoint, lo: int, hi: int)
    requires 1 <= lo && hi <= |y.written|
  {
    forall n | lo <= n <= hi :: (a, DataOf(j, y, n)) in s.down
  }

  lemma SendsNumber(p: Params, s: System, a: Addr, j: int)
    requires Inv(p, s) && j in s.sessions && s.sessions[j].addr == a
    requires var y := s.sessions[j].ep;
      !y.status.HandlerClosed? && AllUnacked(y) && y.tsq <= |y.written| && y.tsq <= p.windows
    ensures var y, t := s.sessions[j].ep, Apply(p, s, SessionStep(j, SendNext, a));
      && OnlySession(s, t, j) && j in t.sessions && t.sessions[j].addr == a
      && t.sessions[j].ep == y.(tbuffer := t.sessions[j].ep.tbuffer, tmsg := t.sessions[j].ep.tmsg, tsq := y.tsq + 1)
      && AllUnacked(t.sessions[j].ep) && (a, DataOf(j, y, y.tsq)) in t.down
  {
    assert SessionOk(p, s, j);
    var y := s.sessions[j].ep;
    NextIsNumbered(p, y);
    assert DataOf(j, y, y.tsq) in Sent(p, y, SendNext);
  }

  lemma NextIsNumbered(p: Params, y: Endpoint)
    requires SenderOk(p, y) && 0 <= y.id && AllUnacked(y) && y.tsq <= |y.written| && y.tsq <= p.windows
    requires !y.status.HandlerClosed?
    ensures var y', m := Act(p, y, SendNext), DataOf(y.id, y, y.tsq);
      && y' == y.(tbuffer := y.tbuffer[y.tsq := m], tmsg := y.tmsg[1..], tsq := y.tsq + 1)
      && AllUnacked(y') && Sent(p, y, SendNext) == {m}
  {
    assert WindowOpen(y.tbuffer, y.tsq, p.windows);
    assert y.tmsg[0] == NewData(y.id, -1, y.written[y.tsq - 1]);
  }

  /** `j` numbers and sends everything up to `k`, which the window allows. */
  lemma {:induction false} SendUpTo(p: Params, s: System, a: Addr, j: int, k: int) returns (more: seq<Step>)
    requires Inv(p, s) && j in s.sessions && s.sessions[j].addr == a
    requires !s.sessions[j].ep.status.HandlerClosed? && AllUnacked(s.sessions[j].ep)
    requires k <= |s.sessions[j].ep.written| && k <= p.windows && 1 <= s.sessions[j].ep.tsq
    ensures var y, t := s.sessions[j].ep, Run(p, s, more);
      && OnlySession(s, t, j) && j in t.sessions && t.sessions[j].addr == a
      && t.sessions[j].ep.written == y.written && t.sessions[j].ep.status == y.status
      && t.sessions[j].ep.epochCount == y.epochCount && AllUnacked(t.sessions[j].ep) && k < t.sessions[j].ep.tsq
      && OnTheWay(t, a, j, y, y.tsq, k)
    decreases k - s.sessions[j].ep.tsq
  {
    more := [];
    var y := s.sessions[j].ep;
    if y.tsq <= k {
      var step := SessionStep(j, SendNext, a);
      SendsNumber(p, s, a, j);
      StepKeepsInv(p, s, step);
      var s1 := Apply(p, s, step);
      var rest := SendUpTo(p, s1, a, j, k);
      RunCons(p, s, step, rest);
      more := [step] + rest;
      OneMoreOnTheWay(s1, Run(p, s1, rest), a, j, y, s1.sessions[j].ep, k);
    }
  }

  lemma OneMoreOnTheWay(s: System, t: System, a: Addr, j: int, y: Endpoint, y': Endpoint, k: int)
    requires s.down <= t.down && 1 <= y.tsq <= k <= |y.written| && y'.written == y.written && y'.tsq == y.tsq + 1
    requires (a, DataOf(j, y, y.tsq)) in s.down && OnTheWay(t, a, j, y', y'.tsq, k)
    ensures OnTheWay(t, a, j, y, y.tsq, k)
  {
    forall n | y.tsq <= n <= k ensures (a, DataOf(j, y, n)) in t.down {
      assert DataOf(j, y, n) == DataOf(j, y', n);
    }
  }

  /** One epoch of `j`, and all its numbers are on their way once more. */
  lemma Resends(p: Params, s: System, a: Addr, j: int, k: int)
    requires Inv(p, s) && j in s.sessions && s.sessions[j].addr == a
    requires CanResend(p, s.sessions[j].ep) && AllUnacked(s.sessions[j].ep)
    requires k < s.sessions[j].ep.tsq && k <= |s.sessions[j].ep.written|
    ensures var y, t := s.sessions[j].ep, Apply(p, s, SessionStep(j, Timer, a));
      && OnlySession(s, t, j) && j in t.sessions && t.sessions[j].ep.written == y.written
      && OnTheWay(t, a, j, y, 1, k)
  {
    assert SessionOk(p, s, j);
    var y, t := s.sessions[j].ep, Apply(p, s, SessionStep(j, Timer, a));
    forall n | 1 <= n <= k ensures (a, DataOf(j, y, n)) in t.down {
      assert y.tbuffer[n] == Numbering(y, n) == DataOf(j, y, n);
      assert DataOf(j, y, n) in y.tbuffer.Values;
    }
  }

  // ---- the client takes the rival's payloads ----

  /** Should the client have anything at `k`, it is `payload`. */
  ghost predicate OnlyAt(c: Endpoint, k: int, payload: Payload) {
    Approved(c, (n, q) => n == k ==> q == payload)
  }

  lemma TakesNext(p: Params, s: System, a: Addr, m: Message, k: int, payload: Payload)
    requires a in s.clients && !s.clients[a].status.HandlerClosed? && OnlyAt(s.clients[a], k, payload)
    requires (a, m) in s.down && m.Data? && m.size == |m.payload| && m.seqNum == s.clients[a].rsq
    requires m.seqNum == k ==> m.payload == payload
    requires Waiting(s.clients[a])
    ensures var t := Apply(p, s, ClientStep(a, Receive(m)));
      && a in t.clients && s.clients[a].rsq < t.clients[a].rsq && !t.clients[a].status.HandlerClosed?
      && OnlyAt(t.clients[a], k, payload) && Waiting(t.clients[a])
      && t.sessions == s.sessions && t.down == s.down
  {
    var c := s.clients[a];
    ActApproved(p, c, Receive(m), (n, q) => n == k ==> q == payload);
    ActKeepsWaiting(p, c, Receive(m));
    var e1 := Store(c.(epochCount := 0), m.seqNum, m.payload);
    DrainGrows(e1);
    assert Stored(e1, m.seqNum) && Stored(Drain(e1), m.seqNum);
    DataKeepsSender(p, c.(epochCount := 0), m);
  }

  lemma {:induction false} TakesUpTo(p: Params, s: System, a: Addr, j: int, y: Endpoint, k: int)
    returns (more: seq<Step>)
    requires a in s.clients && !s.clients[a].status.HandlerClosed? && Waiting(s.clients[a])
    requires 1 <= k <= |y.written| && OnlyAt(s.clients[a], k, y.written[k - 1])
    requires OnTheWay(s, a, j, y, s.clients[a].rsq, k)
    ensures var t := Run(p, s, more);
      && a in t.clients && k < t.clients[a].rsq && OnlyAt(t.clients[a], k, y.written[k - 1])
      && t.sessions == s.sessions
    decreases k - s.clients[a].rsq
  {
    more := [];
    if s.clients[a].rsq <= k {
      var m := DataOf(j, y, s.clients[a].rsq);
      var step := ClientStep(a, Receive(m));
      TakesNext(p, s, a, m, k, y.written[k - 1]);
      var rest := TakesUpTo(p, Apply(p, s, step), a, j, y, k);
      RunCons(p, s, step, rest);
      more := [step] + rest;
    }
  }

  // ---- the order is broken ----

  /** The payload that `y` wrote as number `k` is the only one the client can have there, and
      it is not what `x` wrote. */
  ghost predicate Breaking(c: Endpoint, y: Endpoint, x: Endpoint, k: int) {
    && c.rsq <= k <= |y.written| && 1 <= k
    && (|x.written| < k || y.written[k - 1] != x.written[k - 1])
    && OnlyAt(c, k, y.written[k - 1])
  }

  lemma TakingBreaks(p: Params, s: System, a: Addr, i: int, j: int, y: Endpoint, k: int) returns (more: seq<Step>)
    requires a in s.clients && !s.clients[a].status.HandlerClosed? && Waiting(s.clients[a])
    requires i in s.sessions && 1 <= k && Breaking(s.clients[a], y, s.sessions[i].ep, k)
    requires OnTheWay(s, a, j, y, s.clients[a].rsq, k)
    ensures !Prefix(Run(p, s, more), a, i)
  {
    more := TakesUpTo(p, s, a, j, y, k);
    var c := Run(p, s, more).clients[a];
    assert Delivered(c)[k - 1] == y.written[k - 1];
  }

  /** A session that has numbered nothing the client lacks, or can send it again, breaks the
      order with what it has written. */
  lemma WrittenBreaks(p: Params, s: System, a: Addr, i: int, j: int, k: int) returns (more: seq<Step>)
    requires Inv(p, s) && Adopted(s, a, i) && !s.clients[a].status.HandlerClosed?
    requires j in s.sessions && s.sessions[j].addr == a && j != i && k <= p.windows
    requires Breaking(s.clients[a], s.sessions[j].ep, s.sessions[i].ep, k)
    requires CanResend(p, s.sessions[j].ep) || (s.sessions[j].ep.tsq == 1 && !s.sessions[j].ep.status.HandlerClosed?)
    ensures !Prefix(Run(p, s, more), a, i)
  {
    assert ClientOk(p, s, a) && SessionOk(p, s, j);
    var y := s.sessions[j].ep;
    var first := SendUpTo(p, s, a, j, k);
    var s1 := Run(p, s, first);
    RunKeepsInv(p, s, first);
    var second: seq<Step> := [];
    var s2 := s1;
    if CanResend(p, y) {
      var step := SessionStep(j, Timer, a);
      Resends(p, s1, a, j, k);
      s2 := Apply(p, s1, step);
      second := [step];
      RunCons(p, s1, step, []);
      assert [step] + [] == [step];
    }
    forall n | s.clients[a].rsq <= n <= k ensures (a, DataOf(j, y, n)) in s2.down {
      assert DataOf(j, y, n) == DataOf(j, s1.sessions[j].ep, n);
    }
    assert OnTheWay(s2, a, j, y, s.clients[a].rsq, k);
    var third := TakingBreaks(p, s2, a, i, j, y, k);
    RunConcat(p, s1, second, third);
    RunConcat(p, s, first, second + third);
    more := first + (second + third);
  }

  lemma NothingAt(c: Endpoint, k: int, payload: Payload)
    requires Waiting(c) && |Delivered(c)| == c.rsq - 1 && c.rsq <= k
    requires k in c.rbuffer ==> c.rbuffer[k] == payload
    ensures OnlyAt(c, k, payload)
  {
  }

  /** A payload other than the one that `x` wrote as number `k`, if it wrote any. */
  function Other(x: Endpoint, k: int): (r: Payload)
    requires 1 <= k
    ensures k <= |x.written| ==> r != x.written[k - 1]
  {
    if k <= |x.written| && x.written[k - 1] == [] then [0] else []
  }

  lemma OtherIsBreaking(c: Endpoint, y: Endpoint, y': Endpoint, x: Endpoint, k: int)
    requires Waiting(c) && |Delivered(c)| == c.rsq - 1 && 1 <= k && !Stored(c, k) && |y.written| < k <= |y'.written|
    requires AllFrom(y'.written, |y.written|, Other(x, k))
    ensures Breaking(c, y', x, k)
  {
    assert y'.written[k - 1] == Other(x, k);
    NothingAt(c, k, Other(x, k));
  }

  /** If `j` has not written number `k` yet, it is given something else to write there. */
  lemma RivalBreaks(p: Params, s: System, a: Addr, i: int, j: int, k: int) returns (more: seq<Step>)
    requires Inv(p, s) && Adopted(s, a, i) && !s.clients[a].status.HandlerClosed?
    requires |Delivered(s.clients[a])| == s.clients[a].rsq - 1 && Rival(p, s, a, i, j, k)
    requires CanResend(p, s.sessions[j].ep) || (s.sessions[j].ep.tsq == 1 && !s.sessions[j].ep.status.HandlerClosed?)
    ensures !Prefix(Run(p, s, more), a, i)
  {
    var x, y := s.sessions[i].ep, s.sessions[j].ep;
    assert ClientOk(p, s, a);
    if k <= |y.written| {
      NothingAt(s.clients[a], k, y.written[k - 1]);
      more := WrittenBreaks(p, s, a, i, j, k);
    } else {
      var first := Fill(p, s, j, k, Other(x, k));
      var s1 := Run(p, s, first);
      RunKeepsInv(p, s, first);
      OtherIsBreaking(s.clients[a], y, s1.sessions[j].ep, x, k);
      var second := WrittenBreaks(p, s1, a, i, j, k);
      RunConcat(p, s, first, second);
      more := first + second;
    }
  }

  /** The server closes the connection, takes the connect request for a new one, and so has
      a session that may write. */
  lemma Reopens(p: Params, s: System, a: Addr) returns (more: seq<Step>, j: int)
    requires Inv(p, s) && a in s.clients && (a, Connect) in s.up
    ensures var t := Run(p, s, more);
      && t.clients == s.clients && j !in s.sessions && j in t.table.clients
      && j in t.sessions && t.sessions[j] == Session(a, SessionInit(j))
      && forall l | l in s.sessions :: l in t.sessions && SameButStatus(s.sessions[l], t.sessions[l])
  {
    more := [AcceptConnect(a)];
    j := s.table.lastConnId;
    if AcceptedId(s.table, a).None? {
      var l :| l in s.table.clients && s.table.clients[l] == a;
      more := [CloseConn(l, {})] + more;
      RunCons(p, s, CloseConn(l, {}), [AcceptConnect(a)]);
      Closes(s, a, l, {});
    }
  }

  lemma Closes(s: System, a: Addr, l: int, arrived: set<(Addr, Message)>)
    requires TableOk(s) && l in s.table.clients && s.table.clients[l] == a
    ensures AcceptedId(CloseMove(s, l, arrived).table, a) == Some(s.table.lastConnId)
  {
  }

  lemma ReopeningBreaks(p: Params, s: System, a: Addr, i: int) returns (more: seq<Step>)
    requires Inv(p, s) && Adopted(s, a, i) && !s.clients[a].status.HandlerClosed?
    requires |Delivered(s.clients[a])| == s.clients[a].rsq - 1
    requires (a, Connect) in s.up && s.clients[a].rsq <= p.windows
    ensures !Prefix(Run(p, s, more), a, i)
  {
    var first, j := Reopens(p, s, a);
    var s1 := Run(p, s, first);
    RunKeepsInv(p, s, first);
    assert ClientOk(p, s, a);
    assert Rival(p, s1, a, i, j, s.clients[a].rsq);
    var second := RivalBreaks(p, s1, a, i, j, s.clients[a].rsq);
    RunConcat(p, s, first, second);
    more := first + second;
  }

  /** What is parked and not `i`'s comes from another session, which can send the rest too. */
  lemma ParkedBreaks(p: Params, s: System, a: Addr, i: int, k: int) returns (more: seq<Step>)
    requires Inv(p, s) && Adopted(s, a, i) && !s.clients[a].status.HandlerClosed? && Sourced(s, a) && 1 <= p.windows
    requires k in s.clients[a].rbuffer && s.clients[a].rsq <= k
    requires |s.sessions[i].ep.written| < k || s.clients[a].rbuffer[k] != s.sessions[i].ep.written[k - 1]
    requires OthersCanResend(p, s, a, i)
    ensures !Prefix(Run(p, s, more), a, i)
  {
    var c := s.clients[a];
    assert ClientOk(p, s, a);
    assert FromSome(s, a, k, c.rbuffer[k]);
    var j :| j in s.sessions && s.sessions[j].addr == a && HasNumbered(s.sessions[j].ep, k, c.rbuffer[k]);
    NumbersWithinWindow(p, s, a, j);
    NothingAt(c, k, c.rbuffer[k]);
    more := WrittenBreaks(p, s, a, i, j, k);
  }

  // ---- exactly ----

  predicate OthersCanResend(p: Params, s: System, a: Addr, i: int) {
    forall j | j in s.sessions && s.sessions[j].addr == a && j != i :: CanResend(p, s.sessions[j].ep)
  }

  ghost predicate Settled(p: Params, s: System, a: Addr, i: int)
    requires Adopted(s, a, i)
  {
    Ordered(s.clients[a], s.sessions[i].ep.written) && Unrivalled(p, s, a, i)
  }

  lemma UnsettledBreaks(p: Params, s: System, a: Addr, i: int) returns (more: seq<Step>)
    requires Inv(p, s) && 1 <= p.windows && Adopted(s, a, i) && Sourced(s, a)
    requires !s.clients[a].status.HandlerClosed? && OthersCanResend(p, s, a, i) && !Settled(p, s, a, i)
    ensures !Prefix(Run(p, s, more), a, i)
  {
    var c, x := s.clients[a], s.sessions[i].ep;
    if !Prefix(s, a, i) {
      more := [];
    } else if !Ordered(c, x.written) {
      assert Delivered(c) == x.written[..c.rsq - 1];
      var k :| k in c.rbuffer && c.rsq <= k && !(k <= |x.written| && c.rbuffer[k] == x.written[k - 1]);
      more := ParkedBreaks(p, s, a, i, k);
    } else if c.rsq <= p.windows && (a, Connect) in s.up {
      more := ReopeningBreaks(p, s, a, i);
    } else {
      var j, k :| Rival(p, s, a, i, j, k);
      more := RivalBreaks(p, s, a, i, j, k);
    }
  }

  /** In every reachable state that is settled, whatever happens from there, the client reads
      a prefix of what its session writes. */
  lemma SettledStaysInOrder(p: Params, steps: seq<Step>, a: Addr, i: int, more: seq<Step>)
    requires 1 <= p.windows && 0 <= i && Adopted(Reached(p, steps), a, i) && Settled(p, Reached(p, steps), a, i)
    ensures Prefix(Run(p, Reached(p, steps), more), a, i)
  {
    ReachedInv(p, steps);
    RunKeepsOrdered(p, Reached(p, steps), more, a, i);
  }

  /** And if the handlers concerned run, only then. */
  lemma InOrderForEverIffSettled(p: Params, steps: seq<Step>, a: Addr, i: int)
    requires 1 <= p.windows && 0 <= i && Adopted(Reached(p, steps), a, i)
    requires !Reached(p, steps).clients[a].status.HandlerClosed?
    requires OthersCanResend(p, Reached(p, steps), a, i)
    ensures (forall more :: Prefix(Run(p, Reached(p, steps), more), a, i)) <==> Settled(p, Reached(p, steps), a, i)
  {
    var s := Reached(p, steps);
    if Settled(p, s, a, i) {
      forall more ensures Prefix(Run(p, s, more), a, i) {
        SettledStaysInOrder(p, steps, a, i, more);
      }
    } else {
      ReachedInv(p, steps);
      RunKeepsSourced(p, Init(), steps, a);
      var more := UnsettledBreaks(p, s, a, i);
      assert !Prefix(Run(p, s, more), a, i);
    }
  }
}
