/** When a client that has adopted a session is sure to read that session's payloads in order,
    now and for ever: exactly when no other session of its address can still get a different
    payload in.  Such a session is never acknowledged, as the client acknowledges under its own
    identifier, so its numbers stay within the window. */
module LspOrder {
  import opened Collections
  import opened LspMachine
  import opened LspSystem
  import opened LspSafety
  import opened LspTheorems

  /** What was handed over is a prefix of `written`, and what is parked beyond it agrees. */
  ghost predicate Ordered(c: Endpoint, written: seq<Payload>) {
    && 1 <= c.rsq <= |written| + 1
    && Delivered(c) == written[..c.rsq - 1]
    && forall k | k in c.rbuffer && c.rsq <= k :: k <= |written| && c.rbuffer[k] == written[k - 1]
  }

  predicate Adopted(s: System, a: Addr, i: int) {
    a in s.clients && s.clients[a].id == i && i in s.sessions && s.sessions[i].addr == a
  }

  /** Number `k` of session `y` is not what `x` wrote there, or can still become something else. */
  predicate MayDiffer(y: Endpoint, live: bool, x: Endpoint, k: int)
    requires 1 <= k
  {
    if k <= |y.written| then |x.written| < k || y.written[k - 1] != x.written[k - 1] else live
  }

  /** Session `j` can get its number `k`, which the client does not have, in before `i`'s. */
  predicate Rival(p: Params, s: System, a: Addr, i: int, j: int, k: int)
    requires Adopted(s, a, i)
  {
    && j in s.sessions && s.sessions[j].addr == a && j != i
    && 1 <= k <= p.windows && !Stored(s.clients[a], k)
    && MayDiffer(s.sessions[j].ep, j in s.table.clients, s.sessions[i].ep, k)
  }

  /** No session of the address is a rival, and none can be opened that would be. */
  ghost predicate Unrivalled(p: Params, s: System, a: Addr, i: int)
    requires Adopted(s, a, i)
  {
    && (forall j, k :: !Rival(p, s, a, i, j, k))
    && (s.clients[a].rsq <= p.windows ==> (a, Connect) !in s.up)
  }

  // ---- without a rival the order is kept ----

  lemma {:induction false} DrainOrdered(e: Endpoint, written: seq<Payload>)
    requires Ordered(e, written)
    ensures Ordered(Drain(e), written)
    decreases |e.rbuffer|
  {
    if e.rsq in e.rbuffer {
      var e1 := e.(rmsg := e.rmsg + [e.rbuffer[e.rsq]], rsq := e.rsq + 1, rbuffer := e.rbuffer - {e.rsq});
      RemoveShrinks(e.rbuffer, e.rsq);
      assert Delivered(e1) == Delivered(e) + [e.rbuffer[e.rsq]] == written[..e1.rsq - 1];
      DrainOrdered(e1, written);
    }
  }

  lemma DataOrdered(e: Endpoint, m: Message, written: seq<Payload>)
    requires Ordered(e, written) && Waiting(e) && m.Data?
    requires m.size <= |m.payload| ==>
      Stored(e, m.seqNum) || (1 <= m.seqNum <= |written| && m.payload == written[m.seqNum - 1])
    ensures Ordered(OnData(e, m), written)
  {
    if m.size <= |m.payload| {
      var e1 := Store(e, m.seqNum, m.payload);
      assert Delivered(e1) == Delivered(e);
      DrainOrdered(e1, written);
    }
  }

  lemma ActOrdered(p: Params, e: Endpoint, act: Action, written: seq<Payload>)
    requires Ordered(e, written) && Waiting(e)
    requires act.Receive? && act.m.Data? && act.m.size <= |act.m.payload| ==>
      Stored(e, act.m.seqNum) || (1 <= act.m.seqNum <= |written| && act.m.payload == written[act.m.seqNum - 1])
    ensures Ordered(Act(p, e, act), written)
  {
    if Runs(e, act) {
      match act
      case Read => assert Delivered(Act(p, e, act)) == Delivered(e);
      case Receive(m) =>
        var e0 := e.(epochCount := 0);
        assert Delivered(e0) == Delivered(e);
        if m.Data? {
          DataOrdered(e0, m, written);
        } else {
          assert Delivered(OnReceive(e, m)) == Delivered(e);
        }
      case _ => assert Delivered(Act(p, e, act)) == Delivered(e);
    }
  }

  /** The numbers of a session that the client did not adopt stay within the window. */
  lemma NumbersWithinWindow(p: Params, s: System, a: Addr, j: int)
    requires Inv(p, s) && 1 <= p.windows && a in s.clients
    requires j in s.sessions && s.sessions[j].addr == a && s.clients[a].id != j
    ensures AllUnacked(s.sessions[j].ep) && 1 <= s.sessions[j].ep.tsq <= p.windows + 1
  {
    assert SessionOk(p, s, j);
    var y := s.sessions[j].ep;
    if 1 < y.tsq {
      assert 1 in y.tbuffer;
    }
  }

  /** Every complete data message on its way to the client is harmless. */
  lemma HarmlessData(p: Params, s: System, a: Addr, i: int, m: Message)
    requires Inv(p, s) && 1 <= p.windows && Adopted(s, a, i) && Unrivalled(p, s, a, i)
    requires (a, m) in s.down && m.Data? && m.size <= |m.payload|
    ensures var written := s.sessions[i].ep.written;
      Stored(s.clients[a], m.seqNum) || (1 <= m.seqNum <= |written| && m.payload == written[m.seqNum - 1])
  {
    var j := m.connId;
    assert DownOk(s, a, m);
    if j != i {
      NumbersWithinWindow(p, s, a, j);
      assert !Rival(p, s, a, i, j, m.seqNum);
    }
  }

  lemma OnlyWriteWrites(p: Params, e: Endpoint, act: Action)
    ensures !act.Write? ==> Act(p, e, act).written == e.written
    ensures e.written <= Act(p, e, act).written
  {
    if act.Receive? && act.m.Data? {
      DataKeepsSender(p, e.(epochCount := 0), act.m);
    }
  }

  /** What a step does to a session: it writes more only if it is in the table. */
  predicate Develops(s: System, t: System, j: int)
    requires j in s.sessions && j in t.sessions
  {
    var y, y' := s.sessions[j], t.sessions[j];
    && y'.addr == y.addr && y.ep.written <= y'.ep.written
    && (j in s.table.clients || (y'.ep.written == y.ep.written && j !in t.table.clients))
  }

  lemma RivalWasThere(p: Params, s: System, t: System, a: Addr, i: int, j: int, k: int)
    requires Adopted(s, a, i) && Adopted(t, a, i) && Rival(p, t, a, i, j, k)
    requires j in s.sessions && Develops(s, t, j) && s.sessions[i].ep.written <= t.sessions[i].ep.written
    requires Stored(s.clients[a], k) ==> Stored(t.clients[a], k)
    ensures Rival(p, s, a, i, j, k)
  {
  }

  lemma StepDevelops(p: Params, s: System, step: Step, j: int)
    requires TableOk(s) && j in s.sessions
    ensures j in Apply(p, s, step).sessions && Develops(s, Apply(p, s, step), j)
  {
    if step.SessionStep? && step.id == j {
      OnlyWriteWrites(p, s.sessions[j].ep, step.act);
    }
  }

  /** A step can only bring a rival in by opening a session. */
  lemma StepKeepsUnrivalled(p: Params, s: System, step: Step, a: Addr, i: int)
    requires Inv(p, s) && Adopted(s, a, i) && Unrivalled(p, s, a, i)
    requires Adopted(Apply(p, s, step), a, i) && Grows(s.clients[a], Apply(p, s, step).clients[a])
    ensures Unrivalled(p, Apply(p, s, step), a, i)
  {
    var t := Apply(p, s, step);
    if t.clients[a].rsq <= p.windows {
      NoNewConnect(p, s, step, a);
      forall j, k ensures !Rival(p, t, a, i, j, k) {
        if Rival(p, t, a, i, j, k) {
          assert j in s.sessions;
          StepDevelops(p, s, step, j);
          StepDevelops(p, s, step, i);
          RivalWasThere(p, s, t, a, i, j, k);
        }
      }
    }
  }

  lemma NoNewConnect(p: Params, s: System, step: Step, a: Addr)
    requires Inv(p, s) && a in s.clients && 0 <= s.clients[a].id && (a, Connect) !in s.up
    ensures (a, Connect) !in Apply(p, s, step).up
    ensures forall j | j in Apply(p, s, step).sessions && Apply(p, s, step).sessions[j].addr == a :: j in s.sessions
  {
    if step.ClientStep? && step.a == a && ClientMay(s, a, step.act) {
      assert ClientOk(p, s, a);
      if Connect in Sent(p, s.clients[a], step.act) {
        ClientKeepsClientOk(p, s, a, step.act);
        SentOk(p, s.clients[a], step.act, Connect);
      }
    }
  }

  lemma StepKeepsAdopted(p: Params, s: System, step: Step, a: Addr, i: int)
    requires Inv(p, s) && Adopted(s, a, i) && 0 <= i
    ensures var t := Apply(p, s, step);
      Adopted(t, a, i) && Grows(s.clients[a], t.clients[a]) && s.sessions[i].ep.written <= t.sessions[i].ep.written
  {
    StepDevelops(p, s, step, i);
    assert ClientOk(p, s, a);
    if step.ClientStep? && step.a == a {
      ActGrows(p, s.clients[a], step.act);
    }
  }

  lemma StepKeepsOrdered(p: Params, s: System, step: Step, a: Addr, i: int)
    requires Inv(p, s) && 1 <= p.windows && Adopted(s, a, i) && 0 <= i && Unrivalled(p, s, a, i)
    requires Ordered(s.clients[a], s.sessions[i].ep.written)
    ensures var t := Apply(p, s, step);
      a in t.clients && i in t.sessions && Ordered(t.clients[a], t.sessions[i].ep.written)
  {
    StepKeepsAdopted(p, s, step, a, i);
    assert ClientOk(p, s, a);
    var t := Apply(p, s, step);
    if step.ClientStep? && step.a == a && ClientMay(s, a, step.act) {
      if step.act.Receive? && step.act.m.Data? && step.act.m.size <= |step.act.m.payload| {
        HarmlessData(p, s, a, i, step.act.m);
      }
      ActOrdered(p, s.clients[a], step.act, s.sessions[i].ep.written);
    } else {
      LongerOrdered(s.clients[a], s.sessions[i].ep.written, t.sessions[i].ep.written);
    }
  }

  lemma LongerOrdered(c: Endpoint, written: seq<Payload>, more: seq<Payload>)
    requires Ordered(c, written) && written <= more
    ensures Ordered(c, more)
  {
    assert more[..c.rsq - 1] == written[..c.rsq - 1];
  }

  ghost predicate Prefix(s: System, a: Addr, i: int) {
    a in s.clients && i in s.sessions && Delivered(s.clients[a]) <= s.sessions[i].ep.written
  }

  lemma {:induction false} RunKeepsOrdered(p: Params, s: System, more: seq<Step>, a: Addr, i: int)
    requires Inv(p, s) && 1 <= p.windows && Adopted(s, a, i) && 0 <= i && Unrivalled(p, s, a, i)
    requires Ordered(s.clients[a], s.sessions[i].ep.written)
    ensures var t := Run(p, s, more);
      Prefix(t, a, i) && Ordered(t.clients[a], t.sessions[i].ep.written)
    decreases |more|
  {
    if more != [] {
      StepKeepsInv(p, s, more[0]);
      StepKeepsAdopted(p, s, more[0], a, i);
      StepKeepsUnrivalled(p, s, more[0], a, i);
      StepKeepsOrdered(p, s, more[0], a, i);
      RunKeepsOrdered(p, Apply(p, s, more[0]), more[1..], a, i);
    }
  }

  /** In every reachable state past the window whose order is right, it stays so: nothing that
      another session of the address could do matters any more. */
  lemma PastTheWindow(p: Params, steps: seq<Step>, a: Addr, i: int, more: seq<Step>)
    requires 1 <= p.windows && 0 <= i && Adopted(Reached(p, steps), a, i)
    requires var s := Reached(p, steps);
      p.windows < s.clients[a].rsq && Ordered(s.clients[a], s.sessions[i].ep.written)
    ensures Prefix(Run(p, Reached(p, steps), more), a, i)
  {
    ReachedInv(p, steps);
    RunKeepsOrdered(p, Reached(p, steps), more, a, i);
  }
}
