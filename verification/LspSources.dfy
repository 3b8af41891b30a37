/** The promises to clients, who take data from any session of their address: the k-th
    payload a client reads is the k-th payload that one of these sessions wrote. */
module LspSources {
  import opened Collections
  import opened LspMachine
  import opened LspSystem
  import opened LspSafety
  import opened LspTheorems

  /** `payload` is what `e` has numbered `k`. */
  predicate HasNumbered(e: Endpoint, k: int, payload: Payload) {
    1 <= k < e.tsq && k <= |e.written| && e.written[k - 1] == payload
  }

  ghost predicate FromSome(s: System, a: Addr, k: int, payload: Payload) {
    exists i :: i in s.sessions && s.sessions[i].addr == a && HasNumbered(s.sessions[i].ep, k, payload)
  }

  /** Every payload delivered or parked is approved, at its position. */
  ghost predicate Approved(e: Endpoint, ok: (int, Payload) -> bool) {
    && 1 <= e.rsq && |Delivered(e)| == e.rsq - 1
    && (forall k | 0 <= k < |Delivered(e)| :: ok(k + 1, Delivered(e)[k]))
    && (forall k | k in e.rbuffer :: ok(k, e.rbuffer[k]))
  }

  lemma {:induction false} DrainApproved(e: Endpoint, ok: (int, Payload) -> bool)
    requires Approved(e, ok)
    ensures Approved(Drain(e), ok)
    decreases |e.rbuffer|
  {
    if e.rsq in e.rbuffer {
      var e1 := e.(rmsg := e.rmsg + [e.rbuffer[e.rsq]], rsq := e.rsq + 1, rbuffer := e.rbuffer - {e.rsq});
      assert Delivered(e1) == Delivered(e) + [e.rbuffer[e.rsq]];
      assert (e.rbuffer - {e.rsq}).Keys == e.rbuffer.Keys - {e.rsq};
      DrainApproved(e1, ok);
    }
  }

  lemma ActApproved(p: Params, e: Endpoint, act: Action, ok: (int, Payload) -> bool)
    requires Approved(e, ok)
    requires act.Receive? && act.m.Data? && act.m.size <= |act.m.payload| ==> ok(act.m.seqNum, act.m.payload)
    ensures Approved(Act(p, e, act), ok)
  {
    match act
    case Read => assert Delivered(Act(p, e, act)) == Delivered(e);
    case Receive(m) =>
      if m.Data? && m.size <= |m.payload| {
        var e1 := Store(e.(epochCount := 0), m.seqNum, m.payload);
        assert Delivered(e1) == Delivered(e) && Approved(e1, ok);
        DrainApproved(e1, ok);
      } else {
        assert Delivered(Act(p, e, act)) == Delivered(e);
      }
    case _ => assert Delivered(Act(p, e, act)) == Delivered(e);
  }

  /** Sessions stay, keep their address, and forget nothing they wrote or numbered. */
  predicate SessionsGrow(s: System, t: System) {
    forall i | i in s.sessions :: i in t.sessions && Continues(s.sessions[i], t.sessions[i])
  }

  predicate Continues(x: Session, x': Session) {
    x'.addr == x.addr && x.ep.written <= x'.ep.written && x.ep.tsq <= x'.ep.tsq
  }

  lemma StepGrowsSessions(p: Params, s: System, step: Step)
    requires Inv(p, s)
    ensures SessionsGrow(s, Apply(p, s, step))
  {
    var t := Apply(p, s, step);
    forall i | i in s.sessions ensures i in t.sessions && Continues(s.sessions[i], t.sessions[i]) {
      assert SessionOk(p, s, i);
      if step.SessionStep? && step.id == i {
        ActGrows(p, s.sessions[i].ep, step.act);
      }
    }
  }

  lemma FromSomeStays(s: System, t: System, a: Addr, k: int, payload: Payload)
    requires SessionsGrow(s, t) && FromSome(s, a, k, payload)
    ensures FromSome(t, a, k, payload)
  {
    var i :| i in s.sessions && s.sessions[i].addr == a && HasNumbered(s.sessions[i].ep, k, payload);
    assert Continues(s.sessions[i], t.sessions[i]);
    assert HasNumbered(t.sessions[i].ep, k, payload);
  }

  ghost predicate Sourced(s: System, a: Addr)
    requires a in s.clients
  {
    Approved(s.clients[a], (k, payload) => FromSome(s, a, k, payload))
  }

  lemma SourcedFrame(s: System, t: System, a: Addr)
    requires SessionsGrow(s, t) && a in s.clients && Sourced(s, a)
    requires a in t.clients && t.clients[a] == s.clients[a]
    ensures Sourced(t, a)
  {
    forall k, payload | FromSome(s, a, k, payload) ensures FromSome(t, a, k, payload) {
      FromSomeStays(s, t, a, k, payload);
    }
  }

  lemma ClientStepSourced(p: Params, s: System, a: Addr, act: Action)
    requires a in s.clients && Sourced(s, a) && ClientMay(s, a, act)
    requires act.Receive? ==> DownOk(s, a, act.m)
    ensures Sourced(ClientMove(p, s, a, act), a)
  {
    var ok := (k, payload) => FromSome(s, a, k, payload);
    if act.Receive? && act.m.Data? && act.m.size <= |act.m.payload| {
      assert HasNumbered(s.sessions[act.m.connId].ep, act.m.seqNum, act.m.payload);
      assert FromSome(s, a, act.m.seqNum, act.m.payload);
    }
    ActApproved(p, s.clients[a], act, ok);
    var t := ClientMove(p, s, a, act);
    SourcedFrame(s.(clients := t.clients), t, a);
  }

  lemma StepKeepsSourced(p: Params, s: System, step: Step, a: Addr)
    requires Inv(p, s) && (a in s.clients ==> Sourced(s, a))
    ensures a in Apply(p, s, step).clients ==> Sourced(Apply(p, s, step), a)
  {
    var t := Apply(p, s, step);
    StepGrowsSessions(p, s, step);
    if a in t.clients {
      if step.ClientStep? && step.a == a && ClientMay(s, a, step.act) {
        ClientStepSourced(p, s, a, step.act);
      } else if a in s.clients {
        assert t.clients[a] == s.clients[a];
        SourcedFrame(s, t, a);
      } else {
        assert t.clients[a] == ClientInit();
      }
    }
  }

  lemma {:induction false} RunKeepsSourced(p: Params, s: System, steps: seq<Step>, a: Addr)
    requires Inv(p, s) && (a in s.clients ==> Sourced(s, a))
    ensures a in Run(p, s, steps).clients ==> Sourced(Run(p, s, steps), a)
    decreases |steps|
  {
    if steps != [] {
      StepKeepsSourced(p, s, steps[0], a);
      StepKeepsInv(p, s, steps[0]);
      RunKeepsSourced(p, Apply(p, s, steps[0]), steps[1..], a);
    }
  }

  /** In every run, for every client, whatever its address was used for before. */
  lemma ClientReadsWhatWasWritten(p: Params, steps: seq<Step>, a: Addr)
    requires a in Reached(p, steps).clients
    ensures var s := Reached(p, steps);
      && |Delivered(s.clients[a])| == s.clients[a].rsq - 1
      && (forall k | 0 <= k < |Delivered(s.clients[a])| :: FromSome(s, a, k + 1, Delivered(s.clients[a])[k]))
      && (forall k | k in s.clients[a].rbuffer :: FromSome(s, a, k, s.clients[a].rbuffer[k]))
  {
    RunKeepsSourced(p, Init(), steps, a);
  }

  // ---- in the order of one session ----

  predicate SameAt(y: Endpoint, x: Endpoint, k: int) {
    1 <= k <= |y.written| && k <= |x.written| && y.written[k - 1] == x.written[k - 1]
  }

  /** What `y` has numbered below `n` is what `x` wrote there. */
  predicate Agrees(y: Endpoint, x: Endpoint, n: int) {
    forall k | 1 <= k < y.tsq && k < n :: SameAt(y, x, k)
  }

  /** No other session of the address has numbered anything else below `n`; in particular if
      there is none, or none that has numbered anything. */
  predicate NoRival(s: System, a: Addr, i: int, n: int)
    requires i in s.sessions
  {
    forall j | j in s.sessions && s.sessions[j].addr == a && j != i :: Agrees(s.sessions[j].ep, s.sessions[i].ep, n)
  }

  lemma InOrder(p: Params, s: System, a: Addr, i: int)
    requires Inv(p, s) && a in s.clients && Sourced(s, a)
    requires i in s.sessions && s.sessions[i].addr == a && NoRival(s, a, i, s.clients[a].rsq)
    ensures var c, x := s.clients[a], s.sessions[i].ep;
      1 <= c.rsq <= |x.written| + 1 && Delivered(c) == x.written[..c.rsq - 1]
  {
    var c, x := s.clients[a], s.sessions[i].ep;
    var d := Delivered(c);
    forall k | 0 <= k < |d| ensures Matches(d, x.written, k) {
      assert FromSome(s, a, k + 1, d[k]);
      FromThis(s, a, i, c.rsq, k + 1, d[k]);
    }
    PrefixOf(d, x.written);
  }

  lemma FromThis(s: System, a: Addr, i: int, n: int, k: int, payload: Payload)
    requires i in s.sessions && NoRival(s, a, i, n) && FromSome(s, a, k, payload) && k < n
    ensures 1 <= k <= |s.sessions[i].ep.written| && s.sessions[i].ep.written[k - 1] == payload
  {
    var j :| j in s.sessions && s.sessions[j].addr == a && HasNumbered(s.sessions[j].ep, k, payload);
    if j != i {
      assert Agrees(s.sessions[j].ep, s.sessions[i].ep, n);
      assert SameAt(s.sessions[j].ep, s.sessions[i].ep, k);
    }
  }

  predicate Matches(d: seq<Payload>, written: seq<Payload>, k: nat) {
    k < |d| && k < |written| && d[k] == written[k]
  }

  lemma PrefixOf(d: seq<Payload>, written: seq<Payload>)
    requires forall k | 0 <= k < |d| :: Matches(d, written, k)
    ensures |d| <= |written| && d == written[..|d|]
  {
    if |d| > 0 {
      assert Matches(d, written, |d| - 1);
    }
    forall k | 0 <= k < |d| ensures d[k] == written[..|d|][k] {
      assert Matches(d, written, k);
    }
  }

  /** In every run a client reads, of any session of its address that has no rival, exactly
      the first `rsq - 1` payloads. */
  lemma ClientReadsPrefix(p: Params, steps: seq<Step>, a: Addr, i: int)
    requires var s := Reached(p, steps);
      a in s.clients && i in s.sessions && s.sessions[i].addr == a && NoRival(s, a, i, s.clients[a].rsq)
    ensures var s := Reached(p, steps);
      && 1 <= s.clients[a].rsq <= |s.sessions[i].ep.written| + 1
      && Delivered(s.clients[a]) == s.sessions[i].ep.written[..s.clients[a].rsq - 1]
  {
    ReachedInv(p, steps);
    RunKeepsSourced(p, Init(), steps, a);
    InOrder(p, Reached(p, steps), a, i);
  }

  // ---- graceful exit ----

  lemma AllStoredBelow(x: Endpoint, c: Endpoint)
    requires Waiting(c) && (AckedIsStored(x, c) || AllUnacked(x)) && x.tbuffer == map[]
    ensures x.tsq <= c.rsq
  {
    assert !Stored(c, c.rsq);
  }

  /** With nothing left to acknowledge, the client has been handed as many payloads as were
      written, and unless there is a rival they are those. */
  lemma SessionAllAcked(p: Params, s: System, i: int)
    requires Inv(p, s) && i in s.sessions && s.sessions[i].ep.tbuffer == map[] && s.sessions[i].ep.tmsg == []
    requires s.sessions[i].addr in s.clients && Sourced(s, s.sessions[i].addr)
    ensures var x, c := s.sessions[i].ep, s.clients[s.sessions[i].addr];
      && |x.written| <= |Delivered(c)|
      && (NoRival(s, s.sessions[i].addr, i, c.rsq) ==> Delivered(c) == x.written)
  {
    assert SessionOk(p, s, i);
    var a := s.sessions[i].addr;
    var x, c := s.sessions[i].ep, s.clients[a];
    assert ClientOk(p, s, a);
    AllStoredBelow(x, c);
    if NoRival(s, a, i, c.rsq) {
      InOrder(p, s, a, i);
      assert x.written[..|x.written|] == x.written;
    }
  }

  /** A session's handler that returns gracefully has had as many payloads handed to the
      client's reader as it was given, whatever else the address was used for; without a
      rival they are exactly those. */
  lemma SessionGracefulExit(p: Params, steps: seq<Step>, i: int, from: Addr)
    requires i in Reached(p, steps).sessions
    requires Apply(p, Reached(p, steps), SessionStep(i, Exit, from)) != Reached(p, steps)
    ensures var s := Reached(p, steps);
      var x := s.sessions[i];
      && x.addr in s.clients
      && |x.ep.written| <= |Delivered(s.clients[x.addr])|
      && (NoRival(s, x.addr, i, s.clients[x.addr].rsq) ==> Delivered(s.clients[x.addr]) == x.ep.written)
  {
    var s := Reached(p, steps);
    ReachedInv(p, steps);
    assert SessionOk(p, s, i);
    var x := s.sessions[i];
    assert To(x.addr, {}) == {};
    assert s.sessions[i := x] == s.sessions;
    assert MayExit(x.ep);
    RunKeepsSourced(p, Init(), steps, x.addr);
    SessionAllAcked(p, s, i);
  }

  // ---- windows ----

  lemma ParkedFitsWindow(p: Params, s: System, a: Addr, k: int)
    requires Inv(p, s) && 1 <= p.windows && a in s.clients && Sourced(s, a) && k in LiveKeys(s.clients[a])
    ensures s.clients[a].rsq < k < s.clients[a].rsq + p.windows
  {
    var c := s.clients[a];
    assert ClientOk(p, s, a);
    assert FromSome(s, a, k, c.rbuffer[k]);
    var j :| j in s.sessions && s.sessions[j].addr == a && HasNumbered(s.sessions[j].ep, k, c.rbuffer[k]);
    var x := s.sessions[j].ep;
    assert SessionOk(p, s, j) && !Stored(c, c.rsq);
    assert (if c.id == j then c.rsq else 1) in x.tbuffer;
  }

  /** In every run and for every client: what it has unacknowledged and what it has parked
      fits the window, whatever its address was used for. */
  lemma ClientWindowsHold(p: Params, steps: seq<Step>, a: Addr)
    requires 1 <= p.windows && a in Reached(p, steps).clients
    ensures var c := Reached(p, steps).clients[a];
      && (forall k | k in c.tbuffer :: c.tsq - p.windows <= k < c.tsq)
      && |c.tbuffer| <= p.windows
      && (forall k | k in LiveKeys(c) :: c.rsq < k < c.rsq + p.windows)
      && |LiveKeys(c)| <= p.windows - 1
  {
    var s := Reached(p, steps);
    var c := s.clients[a];
    ReachedInv(p, steps);
    RunKeepsSourced(p, Init(), steps, a);
    assert ClientOk(p, s, a);
    WindowOfSender(p, c);
    forall k | k in LiveKeys(c) ensures c.rsq < k < c.rsq + p.windows {
      ParkedFitsWindow(p, s, a, k);
    }
    IntervalSize(LiveKeys(c), c.rsq + 1, c.rsq + p.windows);
  }
}
