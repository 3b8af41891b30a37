/** When an epoch counts, what it writes, and when a handler gives a connection up: exactly when
    as many epochs as allowed have passed in a row without a message. */
module LspEpochs {
  import opened Collections
  import opened LspMachine
  import opened LspSystem
  import opened LspSafety
  import opened LspTheorems
  import opened LspSources
  import opened LspProgress
  import opened LspClosing

  // ---- messages and timers ----

  /** Every message starts the count anew, whatever it is and whether or not it is of use. */
  lemma EveryMessageCounts(p: Params, e: Endpoint, m: Message)
    requires !e.status.HandlerClosed?
    ensures Act(p, e, Receive(m)).epochCount == 0 && Act(p, e, Receive(m)).status == e.status
  {
    if m.Data? {
      DataKeepsSender(p, e.(epochCount := 0), m);
    }
  }

  lemma OtherActionsDoNot(p: Params, e: Endpoint, act: Action)
    requires !act.Receive? && !act.Timer?
    ensures Act(p, e, act).epochCount == e.epochCount
  {
  }

  function Repeat<T>(x: T, n: nat): seq<T> {
    if n == 0 then [] else [x] + Repeat(x, n - 1)
  }

  function Iterate(p: Params, e: Endpoint, act: Action, n: nat): Endpoint
    decreases n
  {
    if n == 0 then e else Iterate(p, Act(p, e, act), act, n - 1)
  }

  /** The client does the same thing `n` times and nothing else happens. */
  lemma {:induction false} ClientRepeats(p: Params, s: System, a: Addr, act: Action, n: nat)
    requires a in s.clients && (act.Timer? || act.SendNext?)
    ensures var t := Run(p, s, Repeat(ClientStep(a, act), n));
      a in t.clients && t.clients[a] == Iterate(p, s.clients[a], act, n)
    decreases n
  {
    if 0 < n {
      var step := ClientStep(a, act);
      RunCons(p, s, step, Repeat(step, n - 1));
      ClientRepeats(p, Apply(p, s, step), a, act, n - 1);
    }
  }

  lemma {:induction false} SessionRepeats(p: Params, s: System, i: int, act: Action, n: nat)
    requires i in s.sessions && (act.Timer? || act.SendNext?)
    ensures var t := Run(p, s, Repeat(SessionStep(i, act, 0), n));
      i in t.sessions && t.sessions[i].ep == Iterate(p, s.sessions[i].ep, act, n)
    decreases n
  {
    if 0 < n {
      var step := SessionStep(i, act, 0);
      RunCons(p, s, step, Repeat(step, n - 1));
      SessionRepeats(p, Apply(p, s, step), i, act, n - 1);
    }
  }

  // ---- the limit ----

  lemma {:induction false} SilenceCloses(p: Params, e: Endpoint, n: nat)
    requires !e.status.HandlerClosed? && e.epochCount < p.retries
    ensures Iterate(p, e, Timer, n).status.HandlerClosed? <==> p.retries - e.epochCount <= n
    decreases n
  {
    if 0 < n {
      var e1 := Act(p, e, Timer);
      if e1.status.HandlerClosed? {
        StaysClosed(p, e1, n - 1);
      } else {
        SilenceCloses(p, e1, n - 1);
      }
    }
  }

  lemma {:induction false} StaysClosed(p: Params, e: Endpoint, n: nat)
    requires e.status.HandlerClosed?
    ensures Iterate(p, e, Timer, n) == e
    decreases n
  {
    if 0 < n {
      StaysClosed(p, e, n - 1);
    }
  }

  /** Below the limit while the handler runs; at the limit, or with nothing left, when it does not. */
  predicate CountOk(p: Params, e: Endpoint) {
    && 0 <= e.epochCount
    && (!e.status.HandlerClosed? ==> e.epochCount < p.retries)
    && (e.status.HandlerClosed? ==> e.epochCount == p.retries || (e.tbuffer == map[] && e.rbuffer == map[]))
  }

  lemma ActKeepsCountOk(p: Params, e: Endpoint, act: Action)
    requires CountOk(p, e) && 1 <= p.retries
    ensures CountOk(p, Act(p, e, act))
  {
    if act.Receive? && Runs(e, act) {
      EveryMessageCounts(p, e, act.m);
    }
  }

  ghost predicate CountsOk(p: Params, s: System) {
    && (forall a | a in s.clients :: CountOk(p, s.clients[a]))
    && (forall i | i in s.sessions :: CountOk(p, s.sessions[i].ep))
  }

  lemma StepKeepsCounts(p: Params, s: System, step: Step)
    requires CountsOk(p, s) && 1 <= p.retries
    ensures CountsOk(p, Apply(p, s, step))
  {
    if step.ClientStep? && step.a in s.clients {
      ActKeepsCountOk(p, s.clients[step.a], step.act);
    } else if step.SessionStep? && step.id in s.sessions {
      ActKeepsCountOk(p, s.sessions[step.id].ep, step.act);
    }
  }

  lemma {:induction false} RunKeepsCounts(p: Params, s: System, steps: seq<Step>)
    requires CountsOk(p, s) && 1 <= p.retries
    ensures CountsOk(p, Run(p, s, steps))
    decreases |steps|
  {
    if steps != [] {
      StepKeepsCounts(p, s, steps[0]);
      RunKeepsCounts(p, Apply(p, s, steps[0]), steps[1..]);
    }
  }

  /** From every reachable state, and whether or not the client is connected: that many epochs
      in a row without a message end in giving up, and fewer do not. */
  lemma ClientGivesUpExactlyThen(p: Params, steps: seq<Step>, a: Addr, n: nat)
    requires 1 <= p.retries && a in Reached(p, steps).clients
    requires !Reached(p, steps).clients[a].status.HandlerClosed?
    ensures var s := Reached(p, steps);
      var t := Run(p, s, Repeat(ClientStep(a, Timer), n));
      a in t.clients && (t.clients[a].status.HandlerClosed? <==> p.retries - s.clients[a].epochCount <= n)
  {
    RunKeepsCounts(p, Init(), steps);
    ClientRepeats(p, Reached(p, steps), a, Timer, n);
    SilenceCloses(p, Reached(p, steps).clients[a], n);
  }

  lemma SessionGivesUpExactlyThen(p: Params, steps: seq<Step>, i: int, n: nat)
    requires 1 <= p.retries && i in Reached(p, steps).sessions
    requires !Reached(p, steps).sessions[i].ep.status.HandlerClosed?
    ensures var s := Reached(p, steps);
      var t := Run(p, s, Repeat(SessionStep(i, Timer, 0), n));
      i in t.sessions && (t.sessions[i].ep.status.HandlerClosed? <==> p.retries - s.sessions[i].ep.epochCount <= n)
  {
    RunKeepsCounts(p, Init(), steps);
    SessionRepeats(p, Reached(p, steps), i, Timer, n);
    SilenceCloses(p, Reached(p, steps).sessions[i].ep, n);
  }

  // ---- over whole runs ----

  /** Something arrives at client `a`. */
  predicate ClientHears(s: System, step: Step, a: Addr) {
    && step.ClientStep? && step.a == a && step.act.Receive?
    && a in s.clients && !s.clients[a].status.HandlerClosed? && (a, step.act.m) in s.down
  }

  predicate ClientTicks(s: System, step: Step, a: Addr) {
    step == ClientStep(a, Timer) && a in s.clients && !s.clients[a].status.HandlerClosed?
  }

  /** The epochs of client `a` since it last heard something. */
  function ClientSilence(p: Params, steps: seq<Step>, a: Addr): nat
    decreases |steps|
  {
    if steps == [] then 0
    else
      var before, last := steps[..|steps| - 1], steps[|steps| - 1];
      var s := Run(p, Init(), before);
      if ClientHears(s, last, a) then 0
      else if ClientTicks(s, last, a) then ClientSilence(p, before, a) + 1
      else ClientSilence(p, before, a)
  }

  /** Nobody has called Close, and no silence has lasted `retries` epochs. */
  predicate ClientUndisturbed(p: Params, steps: seq<Step>, a: Addr)
    decreases |steps|
  {
    steps != [] ==>
      var before, last := steps[..|steps| - 1], steps[|steps| - 1];
      var s := Run(p, Init(), before);
      && ClientUndisturbed(p, before, a)
      && !(last == ClientStep(a, StartClose) && a in s.clients && 0 <= s.clients[a].id)
      && ClientSilence(p, steps, a) != p.retries
  }

  lemma RunLast(p: Params, s: System, steps: seq<Step>)
    requires steps != []
    ensures var n := |steps| - 1; Run(p, s, steps) == Apply(p, Run(p, s, steps[..n]), steps[n])
  {
    var n := |steps| - 1;
    var init, last := steps[..n], steps[n];
    assert init + [last] == steps;
    RunSnoc(p, s, init, last);
  }

  /** What one step does to the client's count. */
  lemma ClientCountStep(p: Params, s: System, step: Step, a: Addr)
    requires a in s.clients
    ensures var t := Apply(p, s, step);
      && a in t.clients
      && t.clients[a].epochCount == (if ClientHears(s, step, a) then 0
          else if ClientTicks(s, step, a) then s.clients[a].epochCount + 1 else s.clients[a].epochCount)
  {
    if ClientHears(s, step, a) {
      EveryMessageCounts(p, s.clients[a], step.act.m);
    }
  }

  /** In every run the count is the silence. */
  lemma {:induction false} ClientCountIsSilence(p: Params, steps: seq<Step>, a: Addr)
    ensures var s := Reached(p, steps);
      ClientSilence(p, steps, a) == if a in s.clients then s.clients[a].epochCount else 0
    decreases |steps|
  {
    if steps != [] {
      var n := |steps| - 1;
      var s := Reached(p, steps[..n]);
      ClientCountIsSilence(p, steps[..n], a);
      RunLast(p, Init(), steps);
      if a in s.clients {
        ClientCountStep(p, s, steps[n], a);
      }
    }
  }

  /** What one step does to a client that is open. */
  lemma ClientOpenStep(p: Params, s: System, step: Step, a: Addr)
    requires a in s.clients
    ensures var t := Apply(p, s, step);
      && a in t.clients
      && (t.clients[a].status.NotClosing? <==>
            && s.clients[a].status.NotClosing?
            && !(step == ClientStep(a, StartClose) && 0 <= s.clients[a].id)
            && !(ClientTicks(s, step, a) && s.clients[a].epochCount + 1 == p.retries))
  {
    if ClientHears(s, step, a) {
      EveryMessageCounts(p, s.clients[a], step.act.m);
    }
  }

  /** In every run a client is open iff nobody has called Close and it was never silent for
      `retries` epochs. */
  lemma {:induction false} ClientOpenIff(p: Params, steps: seq<Step>, a: Addr)
    requires 1 <= p.retries
    ensures var s := Reached(p, steps);
      a in s.clients ==> (s.clients[a].status.NotClosing? <==> ClientUndisturbed(p, steps, a))
    ensures a !in Reached(p, steps).clients ==> ClientUndisturbed(p, steps, a)
    decreases |steps|
  {
    if steps != [] {
      var n := |steps| - 1;
      var s := Reached(p, steps[..n]);
      ClientOpenIff(p, steps[..n], a);
      ClientCountIsSilence(p, steps[..n], a);
      ClientCountIsSilence(p, steps, a);
      RunLast(p, Init(), steps);
      RunKeepsCounts(p, Init(), steps[..n]);
      RunKeepsCounts(p, Init(), steps);
      if a in s.clients {
        ClientOpenStep(p, s, steps[n], a);
        ClientCountStep(p, s, steps[n], a);
      }
    }
  }

  // ---- the same for sessions ----

  predicate SessionHears(s: System, step: Step, i: int) {
    && step.SessionStep? && step.id == i && step.act.Receive?
    && i in s.sessions && !s.sessions[i].ep.status.HandlerClosed? && SessionMay(s, i, step.act, step.from)
  }

  predicate SessionTicks(s: System, step: Step, i: int) {
    step.SessionStep? && step.id == i && step.act.Timer? && i in s.sessions && !s.sessions[i].ep.status.HandlerClosed?
  }

  /** The server's application closes connection `i`, or the whole server. */
  predicate SessionTold(s: System, step: Step, i: int) {
    || (step.CloseConn? && step.id == i && i in s.table.clients)
    || (step.SessionStep? && step.id == i && step.act.StartClose?)
  }

  function SessionSilence(p: Params, steps: seq<Step>, i: int): nat
    decreases |steps|
  {
    if steps == [] then 0
    else
      var before, last := steps[..|steps| - 1], steps[|steps| - 1];
      var s := Run(p, Init(), before);
      if SessionHears(s, last, i) then 0
      else if SessionTicks(s, last, i) then SessionSilence(p, before, i) + 1
      else SessionSilence(p, before, i)
  }

  predicate SessionUndisturbed(p: Params, steps: seq<Step>, i: int)
    decreases |steps|
  {
    steps != [] ==>
      var before, last := steps[..|steps| - 1], steps[|steps| - 1];
      var s := Run(p, Init(), before);
      && SessionUndisturbed(p, before, i)
      && !(i in s.sessions && SessionTold(s, last, i))
      && SessionSilence(p, steps, i) != p.retries
  }

  lemma SessionCountStep(p: Params, s: System, step: Step, i: int)
    requires i in s.sessions && TableOk(s)
    ensures var t := Apply(p, s, step);
      && i in t.sessions
      && t.sessions[i].ep.epochCount == (if SessionHears(s, step, i) then 0
          else if SessionTicks(s, step, i) then s.sessions[i].ep.epochCount + 1 else s.sessions[i].ep.epochCount)
  {
    if SessionHears(s, step, i) {
      EveryMessageCounts(p, s.sessions[i].ep, step.act.m);
    }
  }

  lemma {:induction false} SessionCountIsSilence(p: Params, steps: seq<Step>, i: int)
    ensures var s := Reached(p, steps);
      SessionSilence(p, steps, i) == if i in s.sessions then s.sessions[i].ep.epochCount else 0
    decreases |steps|
  {
    if steps != [] {
      var n := |steps| - 1;
      var s := Reached(p, steps[..n]);
      SessionCountIsSilence(p, steps[..n], i);
      RunLast(p, Init(), steps);
      ReachedInv(p, steps[..n]);
      if i in s.sessions {
        SessionCountStep(p, s, steps[n], i);
      }
    }
  }

  lemma SessionOpenStep(p: Params, s: System, step: Step, i: int)
    requires i in s.sessions && TableOk(s)
    ensures var t := Apply(p, s, step);
      && i in t.sessions
      && (t.sessions[i].ep.status.NotClosing? <==>
            && s.sessions[i].ep.status.NotClosing? && !SessionTold(s, step, i)
            && !(SessionTicks(s, step, i) && s.sessions[i].ep.epochCount + 1 == p.retries))
  {
    if SessionHears(s, step, i) {
      EveryMessageCounts(p, s.sessions[i].ep, step.act.m);
    }
  }

  lemma SessionFacts(p: Params, steps: seq<Step>, i: int)
    requires 1 <= p.retries
    ensures var s := Reached(p, steps); TableOk(s) && (i in s.sessions ==> CountOk(p, s.sessions[i].ep))
  {
    ReachedInv(p, steps);
    RunKeepsCounts(p, Init(), steps);
  }

  /** In every run a session is open iff the server was not told to close it and it was never
      silent for `retries` epochs. */
  lemma {:induction false} SessionOpenIff(p: Params, steps: seq<Step>, i: int)
    requires 1 <= p.retries
    ensures var s := Reached(p, steps);
      i in s.sessions ==> (s.sessions[i].ep.status.NotClosing? <==> SessionUndisturbed(p, steps, i))
    ensures i !in Reached(p, steps).sessions ==> SessionUndisturbed(p, steps, i)
    decreases |steps|
  {
    if steps != [] {
      var n := |steps| - 1;
      var s := Reached(p, steps[..n]);
      SessionOpenIff(p, steps[..n], i);
      SessionCountIsSilence(p, steps[..n], i);
      SessionCountIsSilence(p, steps, i);
      RunLast(p, Init(), steps);
      SessionFacts(p, steps[..n], i);
      SessionFacts(p, steps, i);
      if i in s.sessions {
        SessionOpenStep(p, s, steps[n], i);
        SessionCountStep(p, s, steps[n], i);
      }
    }
  }

  // ---- what an epoch writes ----

  lemma LastEpochWritesNothing(p: Params, e: Endpoint)
    requires !e.status.HandlerClosed? && e.epochCount + 1 == p.retries
    ensures Sent(p, e, Timer) == {} && Act(p, e, Timer).status.HandlerClosed?
  {
  }

  /** In every reachable state an epoch that is survived writes what is not acknowledged, the
      connect request if there is no identifier, and the reminder iff nothing has ever come. */
  lemma ClientEpochWrites(p: Params, steps: seq<Step>, a: Addr, m: Message)
    requires a in Reached(p, steps).clients
    requires var c := Reached(p, steps).clients[a]; !c.status.HandlerClosed? && c.epochCount + 1 != p.retries
    ensures var c := Reached(p, steps).clients[a];
      m in Sent(p, c, Timer) <==>
        || m in c.tbuffer.Values
        || (c.id < 0 && m == Connect)
        || (0 <= c.id && m == Ack(c.id, 0) && Delivered(c) == [] && c.rbuffer == map[])
  {
    RunKeepsSourced(p, Init(), steps, a);
  }

  lemma SessionEpochWrites(p: Params, steps: seq<Step>, i: int, m: Message)
    requires i in Reached(p, steps).sessions
    requires var x := Reached(p, steps).sessions[i].ep; !x.status.HandlerClosed? && x.epochCount + 1 != p.retries
    ensures var x := Reached(p, steps).sessions[i].ep;
      m in Sent(p, x, Timer) <==>
        m in x.tbuffer.Values || (m == Ack(i, 0) && Delivered(x) == [] && x.rbuffer == map[])
  {
    ReachedInv(p, steps);
    ServerReadsPrefix(p, steps, i);
    assert SessionOk(p, Reached(p, steps), i);
    assert TableOk(Reached(p, steps));
  }

  // ---- reminders keep an idle connection open ----

  predicate Untouched(e: Endpoint) {
    AllSent(e) && e.rsq == 1 && e.rbuffer == map[]
  }

  /** The connection is established and nothing has been written. */
  predicate IdlePair(s: System, a: Addr, i: int) {
    Established(s, a, i) && Untouched(s.clients[a]) && Untouched(s.sessions[i].ep)
  }

  /** An epoch on either side, and the reminders arrive. */
  function Round(a: Addr, i: int): seq<Step> {
    [ClientStep(a, Timer)] + ([SessionStep(i, Receive(Ack(i, 0)), a)] +
      ([SessionStep(i, Timer, a)] + ([ClientStep(a, Receive(Ack(i, 0)))] + [])))
  }

  function Times(steps: seq<Step>, n: nat): seq<Step> {
    if n == 0 then [] else steps + Times(steps, n - 1)
  }

  lemma {:induction false} KeptManyTimes(p: Params, s: System, steps: seq<Step>, n: nat, ok: System -> bool)
    requires ok(s) && forall t | ok(t) :: ok(Run(p, t, steps))
    ensures ok(Run(p, s, Times(steps, n)))
    decreases n
  {
    if 0 < n {
      RunConcat(p, s, steps, Times(steps, n - 1));
      KeptManyTimes(p, Run(p, s, steps), steps, n - 1, ok);
    }
  }

  lemma ClientReminds(p: Params, s: System, a: Addr, i: int)
    requires IdlePair(s, a, i) && 0 <= s.clients[a].epochCount && s.clients[a].epochCount + 1 < p.retries
    ensures var t := Apply(p, Apply(p, s, ClientStep(a, Timer)), SessionStep(i, Receive(Ack(i, 0)), a));
      && IdlePair(t, a, i) && t.sessions[i].ep.epochCount == 0
      && t.clients[a].epochCount == s.clients[a].epochCount + 1
  {
    TimerEffect(p, s.clients[a]);
    assert Ack(i, 0) in Sent(p, s.clients[a], Timer);
  }

  lemma SessionReminds(p: Params, s: System, a: Addr, i: int)
    requires IdlePair(s, a, i) && s.sessions[i].ep.epochCount == 0 && 1 < p.retries
    ensures var t := Apply(p, Apply(p, s, SessionStep(i, Timer, a)), ClientStep(a, Receive(Ack(i, 0))));
      IdlePair(t, a, i) && t.clients[a].epochCount == 0
  {
    TimerEffect(p, s.sessions[i].ep);
    assert Ack(i, 0) in Sent(p, s.sessions[i].ep, Timer);
  }

  lemma RoundKeepsOpen(p: Params, s: System, a: Addr, i: int)
    requires IdlePair(s, a, i) && 0 <= s.clients[a].epochCount && s.clients[a].epochCount + 1 < p.retries
    ensures var t := Run(p, s, Round(a, i)); IdlePair(t, a, i) && t.clients[a].epochCount == 0
  {
    var x1, x2 := ClientStep(a, Timer), SessionStep(i, Receive(Ack(i, 0)), a);
    var x3, x4 := SessionStep(i, Timer, a), ClientStep(a, Receive(Ack(i, 0)));
    ClientReminds(p, s, a, i);
    SessionReminds(p, Apply(p, Apply(p, s, x1), x2), a, i);
    FourSteps(p, s, x1, x2, x3, x4, []);
  }

  /** It stays so for any number of epochs. */
  lemma RemindersKeepOpen(p: Params, s: System, a: Addr, i: int, n: nat)
    requires IdlePair(s, a, i) && 0 <= s.clients[a].epochCount && s.clients[a].epochCount + 1 < p.retries
    ensures IdlePair(Run(p, s, Times(Round(a, i), n)), a, i)
  {
    var ok := (t: System) =>
      IdlePair(t, a, i) && 0 <= t.clients[a].epochCount && t.clients[a].epochCount + 1 < p.retries;
    var round := Round(a, i);
    forall t | ok(t) ensures ok(Run(p, t, round)) {
      RoundKeepsOpen(p, t, a, i);
    }
    KeptManyTimes(p, s, round, n, ok);
  }

  lemma FourSteps(p: Params, s: System, x1: Step, x2: Step, x3: Step, x4: Step, rest: seq<Step>)
    ensures Run(p, s, [x1] + ([x2] + ([x3] + ([x4] + rest))))
         == Run(p, Apply(p, Apply(p, Apply(p, Apply(p, s, x1), x2), x3), x4), rest)
  {
    RunCons(p, s, x1, [x2] + ([x3] + ([x4] + rest)));
    RunCons(p, Apply(p, s, x1), x2, [x3] + ([x4] + rest));
    RunCons(p, Apply(p, Apply(p, s, x1), x2), x3, [x4] + rest);
    RunCons(p, Apply(p, Apply(p, Apply(p, s, x1), x2), x3), x4, rest);
  }

  // ---- the window ----

  /** The oldest unacknowledged number is inside the window, if a message more is sent. */
  predicate MaySend(p: Params, e: Endpoint) {
    e.tmsg != [] && 1 <= p.windows && forall k | k in e.tbuffer :: e.tsq - p.windows < k
  }

  /** What is queued next is numbered and sent exactly when the window has room for it. */
  lemma SendsIff(p: Params, e: Endpoint)
    requires SenderOk(p, e) && !e.status.HandlerClosed?
    ensures var e' := Act(p, e, SendNext);
      if MaySend(p, e) then
        var m := NewData(e.id, e.tsq, e.written[e.tsq - 1]);
        && Sent(p, e, SendNext) == {m}
        && e' == e.(tbuffer := e.tbuffer[e.tsq := m], tmsg := e.tmsg[1..], tsq := e.tsq + 1)
      else
        e' == e && Sent(p, e, SendNext) == {}
  {
    if MaySend(p, e) {
      assert e.tmsg[0] == NewData(e.id, -1, e.written[e.tsq - 1]);
    } else if e.tmsg != [] && 1 <= p.windows {
      var k :| k in e.tbuffer && !(e.tsq - p.windows < k);
      assert !(e.tsq - k < p.windows);
    }
  }

  /** `low` is the oldest number not acknowledged, or the next if there is none. */
  predicate Oldest(e: Endpoint, low: int) {
    low <= e.tsq && (forall k | k in e.tbuffer :: low <= k) && (low == e.tsq || low in e.tbuffer)
  }

  /** The window slides: with enough queued, sending alone brings `tsq` to the oldest
      unacknowledged number plus the window. */
  lemma {:induction false} SendingFillsWindow(p: Params, e: Endpoint, low: int, n: nat)
    requires SenderOk(p, e) && !e.status.HandlerClosed? && low <= e.tsq && forall k | k in e.tbuffer :: low <= k
    requires e.tsq + n <= low + p.windows && n <= |e.tmsg|
    ensures var e' := Iterate(p, e, SendNext, n);
      e'.tsq == e.tsq + n && e'.tmsg == e.tmsg[n..] && e'.written == e.written
    decreases n
  {
    if 0 < n {
      SendsIff(p, e);
      ActKeepsSenderOk(p, e, SendNext);
      SendingFillsWindow(p, Act(p, e, SendNext), low, n - 1);
    }
  }

  /** So it is for every client and every session in every reachable state. */
  lemma ClientFillsWindow(p: Params, steps: seq<Step>, a: Addr, low: int, n: nat)
    requires a in Reached(p, steps).clients
    requires var c := Reached(p, steps).clients[a];
      && !c.status.HandlerClosed? && 0 <= c.id && 1 <= p.windows && Oldest(c, low)
      && c.tsq + n == low + p.windows && n <= |c.tmsg|
    ensures var t := Run(p, Reached(p, steps), Repeat(ClientStep(a, SendNext), n));
      && a in t.clients && t.clients[a].tsq == low + p.windows
      && t.clients[a].tmsg == Reached(p, steps).clients[a].tmsg[n..]
  {
    ReachedInv(p, steps);
    assert ClientOk(p, Reached(p, steps), a);
    SendingFillsWindow(p, Reached(p, steps).clients[a], low, n);
    ClientRepeats(p, Reached(p, steps), a, SendNext, n);
  }

  lemma SessionFillsWindow(p: Params, steps: seq<Step>, i: int, low: int, n: nat)
    requires i in Reached(p, steps).sessions
    requires var x := Reached(p, steps).sessions[i].ep;
      && !x.status.HandlerClosed? && 1 <= p.windows && Oldest(x, low)
      && x.tsq + n == low + p.windows && n <= |x.tmsg|
    ensures var t := Run(p, Reached(p, steps), Repeat(SessionStep(i, SendNext, 0), n));
      && i in t.sessions && t.sessions[i].ep.tsq == low + p.windows
      && t.sessions[i].ep.tmsg == Reached(p, steps).sessions[i].ep.tmsg[n..]
  {
    ReachedInv(p, steps);
    assert SessionOk(p, Reached(p, steps), i);
    SendingFillsWindow(p, Reached(p, steps).sessions[i].ep, low, n);
    SessionRepeats(p, Reached(p, steps), i, SendNext, n);
  }

  /** And there is always room for that: the oldest number is never further back. */
  lemma OldestIsInWindow(p: Params, e: Endpoint, low: int)
    requires SenderOk(p, e) && 1 <= p.windows && Oldest(e, low)
    ensures e.tsq <= low + p.windows
  {
  }
}
