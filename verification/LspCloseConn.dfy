/** When a connection that CloseConn took out of the table can still finish: from then on the
    server routes nothing to it, so exactly when all that it waits for had already arrived. */
module LspCloseConn {
  import opened Collections
  import opened LspMachine
  import opened LspSystem
  import opened LspSafety
  import opened LspTheorems
  import opened LspProgress
  import opened LspFindings
  import opened LspClosing
  import opened LspExits

  // ---- what a session waits for ----

  /** Message `k` is not acknowledged, or not even sent. */
  predicate Pends(x: Endpoint, k: int) {
    k in x.tbuffer || x.tsq <= k < x.tsq + |x.tmsg|
  }

  /** Number `n` is missing before something parked. */
  predicate Gap(x: Endpoint, n: int) {
    x.rsq <= n && n !in x.rbuffer && exists k | k in x.rbuffer :: n < k
  }

  /** The ack of `k`. */
  predicate AckComes(packets: set<(Addr, Message)>, i: int, k: int) {
    exists x | x in packets :: x.1 == Ack(i, k)
  }

  /** A complete message `n`. */
  predicate DataComes(packets: set<(Addr, Message)>, i: int, n: int) {
    exists x | x in packets ::
      x.1.Data? && x.1.connId == i && x.1.seqNum == n && x.1.size <= |x.1.payload|
  }

  ghost predicate WithinReach(packets: set<(Addr, Message)>, i: int, x: Endpoint) {
    && !HasStale(x)
    && (forall k :: Pends(x, k) ==> AckComes(packets, i, k))
    && (forall n :: Gap(x, n) ==> DataComes(packets, i, n))
  }

  // ---- what is out of reach stays so ----

  lemma PendsStays(p: Params, x: Endpoint, act: Action, k: int)
    requires Pends(x, k) && !(act.Receive? && act.m.Ack? && act.m.seqNum == k)
    ensures Pends(Act(p, x, act), k)
  {
    if act.Receive? && act.m.Data? {
      DataKeepsSender(p, x.(epochCount := 0), act.m);
    }
  }

  lemma GapStays(p: Params, x: Endpoint, act: Action, n: int)
    requires Gap(x, n)
    requires !(act.Receive? && act.m.Data? && act.m.seqNum == n && act.m.size <= |act.m.payload|)
    ensures Gap(Act(p, x, act), n)
  {
    if act.Receive? && act.m.Data? && act.m.size <= |act.m.payload| && Runs(x, act) {
      var e1 := Store(x.(epochCount := 0), act.m.seqNum, act.m.payload);
      DrainGrows(e1);
      var k :| k in x.rbuffer && n < k;
      var x' := Act(p, x, act);
      assert Stored(e1, k) && !Stored(e1, n);
      assert Stored(x', k) && !Stored(x', n);
    }
  }

  /** The session has left the table, and something it waits for cannot come. */
  ghost predicate Abandoned(s: System, i: int) {
    i in s.sessions && i !in s.table.clients && i < s.table.lastConnId && !WithinReach(s.queued, i, s.sessions[i].ep)
  }

  lemma SessionStaysAbandoned(p: Params, s: System, i: int, act: Action, from: Addr)
    requires Abandoned(s, i) && SessionMay(s, i, act, from)
    ensures Abandoned(SessionMove(p, s, i, act), i)
  {
    var x, x' := s.sessions[i].ep, Act(p, s.sessions[i].ep, act);
    if HasStale(x) {
      StaleStays(p, x, act);
    } else if k :| Pends(x, k) && !AckComes(s.queued, i, k) {
      PendsStays(p, x, act, k);
      assert Pends(x', k);
    } else {
      var n :| Gap(x, n) && !DataComes(s.queued, i, n);
      GapStays(p, x, act, n);
      assert Gap(x', n);
    }
  }

  /** Closing other connections adds nothing for this one. */
  lemma NothingMoreComes(s: System, j: int, arrived: set<(Addr, Message)>, i: int, x: Endpoint)
    requires j != i
    ensures WithinReach(CloseMove(s, j, arrived).queued, i, x) ==> WithinReach(s.queued, i, x)
  {
    var t := CloseMove(s, j, arrived);
    forall k | AckComes(t.queued, i, k) ensures AckComes(s.queued, i, k) {
      var y :| y in t.queued && y.1 == Ack(i, k);
      assert y in s.queued;
    }
    forall n | DataComes(t.queued, i, n) ensures DataComes(s.queued, i, n) {
      var y :| y in t.queued && y.1.Data? && y.1.connId == i && y.1.seqNum == n && y.1.size <= |y.1.payload|;
      assert y in s.queued;
    }
  }

  lemma StepStaysAbandoned(p: Params, s: System, step: Step, i: int)
    requires Abandoned(s, i)
    ensures Abandoned(Apply(p, s, step), i)
  {
    if step.SessionStep? && step.id == i && SessionMay(s, i, step.act, step.from) {
      SessionStaysAbandoned(p, s, i, step.act, step.from);
    } else if step.CloseConn? && step.id != i {
      NothingMoreComes(s, step.id, step.arrived, i, s.sessions[i].ep);
    }
  }

  lemma AbandonedMayNotExit(s: System, i: int)
    requires Abandoned(s, i)
    ensures !SessionMayExit(s, i)
  {
    var x := s.sessions[i].ep;
    if MayExit(x) {
      assert forall k :: !Pends(x, k);
    }
  }

  /** Whatever happens, its handler never returns gracefully. */
  lemma {:induction false} AbandonedForEver(p: Params, s: System, i: int, more: seq<Step>)
    requires Abandoned(s, i)
    ensures Abandoned(Run(p, s, more), i) && !SessionMayExit(Run(p, s, more), i)
    decreases |more|
  {
    if more == [] {
      AbandonedMayNotExit(s, i);
    } else {
      StepStaysAbandoned(p, s, more[0], i);
      AbandonedForEver(p, Apply(p, s, more[0]), i, more[1..]);
    }
  }

  // ---- what is within reach is enough ----

  /** The session has left the table and its handler runs. */
  ghost predicate Leaving(p: Params, s: System, i: int) {
    && Inv(p, s) && i in s.sessions && i !in s.table.clients && s.sessions[i].ep.status.StartClosing?
    && WithinReach(s.queued, i, s.sessions[i].ep)
  }

  lemma SessionWaits(p: Params, s: System, i: int)
    requires Inv(p, s) && i in s.sessions
    ensures Waiting(s.sessions[i].ep)
  {
    assert SessionOk(p, s, i);
  }

  lemma StillWithinReach(p: Params, x: Endpoint, m: Message, packets: set<(Addr, Message)>, i: int, n: int)
    requires WithinReach(packets, i, x) && Waiting(x) && x.status.StartClosing? && Behind(x, n)
    requires m.Data? && m.seqNum == x.rsq < n && m.size <= |m.payload|
    ensures var x' := Act(p, x, Receive(m));
      WithinReach(packets, i, x') && SameSender(x, x') && x'.status == x.status && Behind(x', n) && x.rsq < x'.rsq
  {
    NextArrives(p, x, m, n);
    DataKeepsSender(p, x.(epochCount := 0), m);
    var x', e1 := Act(p, x, Receive(m)), Store(x.(epochCount := 0), m.seqNum, m.payload);
    DrainGrows(e1);
    forall l | Gap(x', l) ensures DataComes(packets, i, l) {
      var k :| k in x'.rbuffer && l < k;
      assert Stored(x', k) && !Stored(x', l);
      assert Stored(e1, k) && !Stored(e1, l);
      assert Gap(x, l);
    }
    forall k | Pends(x', k) ensures AckComes(packets, i, k) {
      assert Pends(x, k);
    }
  }

  lemma TakesQueued(p: Params, s: System, i: int, y: (Addr, Message))
    requires i in s.sessions && i !in s.table.clients && y in s.queued && !y.1.Connect? && y.1.connId == i
    ensures var t := Apply(p, s, SessionStep(i, Receive(y.1), y.0));
      && i in t.sessions && t.sessions[i].ep == Act(p, s.sessions[i].ep, Receive(y.1))
      && t.table == s.table && t.queued == s.queued
  {
    assert (y.0, y.1) == y;
  }

  /** The message that it waits for is taken from the channel. */
  lemma TakesNextMissing(p: Params, s: System, i: int, n: int) returns (step: Step)
    requires Leaving(p, s, i) && Behind(s.sessions[i].ep, n) && s.sessions[i].ep.rbuffer != map[]
    ensures var x, t := s.sessions[i].ep, Apply(p, s, step);
      Leaving(p, t, i) && Behind(t.sessions[i].ep, n) && x.rsq < t.sessions[i].ep.rsq && x.rsq < n
  {
    var x := s.sessions[i].ep;
    SessionWaits(p, s, i);
    var k := MaxKey(x.rbuffer);
    assert Stored(x, k) && Gap(x, x.rsq);
    var y :| y in s.queued && y.1.Data? && y.1.connId == i && y.1.seqNum == x.rsq && y.1.size <= |y.1.payload|;
    step := SessionStep(i, Receive(y.1), y.0);
    TakesQueued(p, s, i, y);
    StillWithinReach(p, x, y.1, s.queued, i, n);
    StepKeepsInv(p, s, step);
  }

  lemma {:induction false} TakesMissing(p: Params, s: System, i: int, n: int) returns (more: seq<Step>)
    requires Leaving(p, s, i) && Behind(s.sessions[i].ep, n)
    ensures var t := Run(p, s, more);
      Leaving(p, t, i) && t.sessions[i].ep.rbuffer == map[]
    decreases n - s.sessions[i].ep.rsq
  {
    more := [];
    if s.sessions[i].ep.rbuffer != map[] {
      var step := TakesNextMissing(p, s, i, n);
      var rest := TakesMissing(p, Apply(p, s, step), i, n);
      RunCons(p, s, step, rest);
      more := [step] + rest;
    }
  }

  lemma AckWithinReach(p: Params, x: Endpoint, packets: set<(Addr, Message)>, i: int, k: int)
    requires WithinReach(packets, i, x) && x.status.StartClosing? && k in x.tbuffer && x.tbuffer[k].Data?
    ensures var x' := Act(p, x, Receive(Ack(i, k)));
      && x' == x.(epochCount := 0, tbuffer := x.tbuffer - {k}) && WithinReach(packets, i, x')
  {
    AckEffect(p, x, Ack(i, k));
    var x' := Act(p, x, Receive(Ack(i, k)));
    forall l | Pends(x', l) ensures AckComes(packets, i, l) {
      assert Pends(x, l);
    }
    forall l | Gap(x', l) ensures DataComes(packets, i, l) {
      assert Gap(x, l);
    }
  }

  lemma SendWithinReach(p: Params, x: Endpoint, packets: set<(Addr, Message)>, i: int)
    requires WithinReach(packets, i, x) && x.status.StartClosing? && x.tbuffer == map[] && x.tmsg != []
    requires 1 <= p.windows
    ensures var x' := Act(p, x, SendNext);
      && x'.tmsg == x.tmsg[1..] && x'.rbuffer == x.rbuffer && x'.status == x.status && WithinReach(packets, i, x')
  {
    var x' := Act(p, x, SendNext);
    assert x'.tbuffer.Keys == {x.tsq} && x'.tsq == x.tsq + 1;
    forall l | Pends(x', l) ensures AckComes(packets, i, l) {
      assert Pends(x, l);
    }
    forall l | Gap(x', l) ensures DataComes(packets, i, l) {
      assert Gap(x, l);
    }
  }

  /** One ack is taken, or one message sent. */
  lemma TakesAck(p: Params, s: System, i: int) returns (step: Step)
    requires Leaving(p, s, i) && s.sessions[i].ep.rbuffer == map[] && 1 <= p.windows
    requires s.sessions[i].ep.tbuffer != map[]
    ensures var x, t := s.sessions[i].ep, Apply(p, s, step);
      && Leaving(p, t, i) && t.sessions[i].ep.rbuffer == map[] && t.sessions[i].ep.tmsg == x.tmsg
      && |t.sessions[i].ep.tbuffer| < |x.tbuffer|
  {
    var x := s.sessions[i].ep;
    var k := PickKey(x.tbuffer);
    assert Pends(x, k);
    var y :| y in s.queued && y.1 == Ack(i, k);
    step := SessionStep(i, Receive(y.1), y.0);
    TakesQueued(p, s, i, y);
    SessionMessage(p, s, i, k);
    AckWithinReach(p, x, s.queued, i, k);
    RemoveShrinks(x.tbuffer, k);
    StepKeepsInv(p, s, step);
  }

  lemma SendsOne(p: Params, s: System, i: int)
    requires Leaving(p, s, i) && s.sessions[i].ep.rbuffer == map[] && 1 <= p.windows
    requires s.sessions[i].ep.tbuffer == map[] && s.sessions[i].ep.tmsg != []
    ensures var t := Apply(p, s, SessionStep(i, SendNext, 0));
      && Leaving(p, t, i) && t.sessions[i].ep.rbuffer == map[]
      && |t.sessions[i].ep.tmsg| < |s.sessions[i].ep.tmsg|
  {
    SendWithinReach(p, s.sessions[i].ep, s.queued, i);
    StepKeepsInv(p, s, SessionStep(i, SendNext, 0));
  }

  /** Its messages are sent and their acks taken from the channel. */
  lemma {:induction false} TakesAcks(p: Params, s: System, i: int) returns (more: seq<Step>)
    requires Leaving(p, s, i) && s.sessions[i].ep.rbuffer == map[] && 1 <= p.windows
    ensures SessionMayExit(Run(p, s, more), i)
    decreases |s.sessions[i].ep.tmsg|, |s.sessions[i].ep.tbuffer|
  {
    more := [];
    var x := s.sessions[i].ep;
    if x.tbuffer != map[] || x.tmsg != [] {
      var step := SessionStep(i, SendNext, 0);
      if x.tbuffer != map[] {
        step := TakesAck(p, s, i);
      } else {
        SendsOne(p, s, i);
      }
      var rest := TakesAcks(p, Apply(p, s, step), i);
      RunCons(p, s, step, rest);
      more := [step] + rest;
    }
  }

  lemma SomeBound(x: Endpoint) returns (n: int)
    ensures Behind(x, n)
  {
    n := x.rsq;
    if x.rbuffer != map[] {
      var k := MaxKey(x.rbuffer);
      n := if n < k + 1 then k + 1 else n;
    }
  }

  lemma LeavesGracefully(p: Params, s: System, i: int) returns (more: seq<Step>)
    requires Leaving(p, s, i) && 1 <= p.windows
    ensures SessionMayExit(Run(p, s, more), i)
  {
    var n := SomeBound(s.sessions[i].ep);
    var first := TakesMissing(p, s, i, n);
    RunKeepsInv(p, s, first);
    var second := TakesAcks(p, Run(p, s, first), i);
    RunConcat(p, s, first, second);
    more := first + second;
  }

  // ---- exactly ----

  /** CloseConn is called now; the session may return gracefully some time after. */
  ghost predicate CanFinish(p: Params, s: System, i: int) {
    exists arrived, more :: SessionMayExit(Run(p, Apply(p, s, CloseConn(i, arrived)), more), i)
  }

  lemma ClosedState(p: Params, s: System, i: int, arrived: set<(Addr, Message)>)
    requires Inv(p, s) && i in s.table.clients && !s.sessions[i].ep.status.HandlerClosed?
    ensures var t := Apply(p, s, CloseConn(i, arrived));
      && i in t.sessions && i !in t.table.clients && i < t.table.lastConnId
      && t.sessions[i].ep == s.sessions[i].ep.(status := StartClosing)
      && t.queued == s.queued + PacketsFor(s.up * arrived, i)
  {
  }

  /** What the session can find in its channel is what is in flight for it when it is closed. */
  lemma ReachOfClosed(p: Params, s: System, i: int, arrived: set<(Addr, Message)>)
    requires Inv(p, s) && i in s.table.clients && !s.sessions[i].ep.status.HandlerClosed?
    ensures var t := Apply(p, s, CloseConn(i, arrived));
      && i in t.sessions
      && (WithinReach(t.queued, i, t.sessions[i].ep) ==> WithinReach(s.up, i, s.sessions[i].ep))
      && (arrived == s.up && WithinReach(s.up, i, s.sessions[i].ep) ==> WithinReach(t.queued, i, t.sessions[i].ep))
  {
    ClosedState(p, s, i, arrived);
    var t := Apply(p, s, CloseConn(i, arrived));
    var x, x' := s.sessions[i].ep, t.sessions[i].ep;
    forall k ensures Pends(x, k) <==> Pends(x', k) {}
    forall k ensures Gap(x, k) <==> Gap(x', k) {}
    forall k | AckComes(t.queued, i, k) ensures AckComes(s.up, i, k) {
      var y :| y in t.queued && y.1 == Ack(i, k);
      assert y in s.up;
    }
    forall n | DataComes(t.queued, i, n) ensures DataComes(s.up, i, n) {
      var y :| y in t.queued && y.1.Data? && y.1.connId == i && y.1.seqNum == n && y.1.size <= |y.1.payload|;
      assert y in s.up;
    }
    if arrived == s.up {
      assert PacketsFor(s.up, i) <= t.queued;
      forall k | AckComes(s.up, i, k) ensures AckComes(t.queued, i, k) {
        var y :| y in s.up && y.1 == Ack(i, k);
        assert y in PacketsFor(s.up, i);
      }
      forall n | DataComes(s.up, i, n) ensures DataComes(t.queued, i, n) {
        var y :| y in s.up && y.1.Data? && y.1.connId == i && y.1.seqNum == n && y.1.size <= |y.1.payload|;
        assert y in PacketsFor(s.up, i);
      }
    }
  }

  /** In every reachable state: a connection closed by CloseConn can still send all that is
      pending and return gracefully iff it has parked no duplicate, and for each message that
      is not acknowledged the ack, and for each one missing the message, has already come. */
  lemma CloseConnFinishesIff(p: Params, steps: seq<Step>, i: int)
    requires 1 <= p.windows && i in Reached(p, steps).table.clients && i in Reached(p, steps).sessions
    requires !Reached(p, steps).sessions[i].ep.status.HandlerClosed?
    ensures CanFinish(p, Reached(p, steps), i) <==>
      WithinReach(Reached(p, steps).up, i, Reached(p, steps).sessions[i].ep)
  {
    var s := Reached(p, steps);
    ReachedInv(p, steps);
    if WithinReach(s.up, i, s.sessions[i].ep) {
      var step := CloseConn(i, s.up);
      ClosedState(p, s, i, s.up);
      ReachOfClosed(p, s, i, s.up);
      StepKeepsInv(p, s, step);
      var more := LeavesGracefully(p, Apply(p, s, step), i);
      assert SessionMayExit(Run(p, Apply(p, s, CloseConn(i, s.up)), more), i);
    } else {
      forall arrived, more ensures !SessionMayExit(Run(p, Apply(p, s, CloseConn(i, arrived)), more), i) {
        ClosedState(p, s, i, arrived);
        ReachOfClosed(p, s, i, arrived);
        AbandonedForEver(p, Apply(p, s, CloseConn(i, arrived)), i, more);
      }
    }
  }

  /** So it is lost what CloseConn finds unsent: a run in which nothing has gone wrong, with one
      message written, after which CloseConn can never finish. */
  lemma CloseConnAbandonsMessage(p: Params, payload: Payload) returns (steps: seq<Step>)
    requires 1 <= p.windows
    ensures var s := Reached(p, steps);
      && Established(s, 0, 73) && s.sessions[73].ep.written == [payload]
      && !CanFinish(p, s, 73)
  {
    var s;
    steps, s := OneConnection(p);
    steps, s := Then(p, steps, s, SessionStep(73, Write(payload), 0));
    ReachedInv(p, steps);
    assert Pends(s.sessions[73].ep, 1);
    forall x | x in s.up ensures x.1 != Ack(73, 1) {
      assert UpOk(s, x.0, x.1);
    }
    CloseConnFinishesIff(p, steps, 73);
  }
}
