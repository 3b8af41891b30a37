/** Any number of clients, one server with its connection table and sessions, and a network
    that loses, duplicates, reorders and shortens packets.  A run is a sequence of steps, in
    which every choice (which goroutine moves, which packet arrives) is written down. */
module LspSystem {
  import opened Collections
  import opened LspMachine

  type Addr = int

  const FIRST_CONN_ID := 73

  /** `server.clients` (identifier to address) and `server.lastConnID`. */
  datatype Table = Table(clients: map<int, Addr>, lastConnId: int)

  /** The identifier given to a connect request from `a`, if it is not a duplicate. */
  function AcceptedId(t: Table, a: Addr): Option<int> {
    if exists i | i in t.clients :: t.clients[i] == a then None else Some(t.lastConnId)
  }

  function Accept(t: Table, a: Addr): Table {
    if AcceptedId(t, a).None? then t
    else Table(t.clients[t.lastConnId := a], t.lastConnId + 1)
  }

  datatype Session = Session(addr: Addr, ep: Endpoint)

  /** `sessions` keeps every connection ever accepted: CloseConn only takes it out of the
      table, its goroutine goes on.  `up` and `down` hold the packets in flight with the
      client's address; a packet stays until it is lost, so it may arrive many times.
      `queued` holds what was in the `incoming` channels of sessions that left the table. */
  datatype System = System(
    clients: map<Addr, Endpoint>,
    sessions: map<int, Session>,
    table: Table,
    up: set<(Addr, Message)>,
    down: set<(Addr, Message)>,
    queued: set<(Addr, Message)>)

  datatype Step =
    | StartClient(a: Addr)
    | AcceptConnect(a: Addr)
    | ClientStep(a: Addr, act: Action)
    | SessionStep(id: int, act: Action, from: Addr)
    | CloseConn(id: int, arrived: set<(Addr, Message)>)
    | Lose(lostUp: set<(Addr, Message)>, lostDown: set<(Addr, Message)>)
    | ShortenUp(a: Addr, m: Message, short: Payload)
    | ShortenDown(a: Addr, m: Message, short: Payload)

  function Init(): System {
    System(map[], map[], Table(map[], FIRST_CONN_ID), {}, {}, {})
  }

  function To(a: Addr, ms: set<Message>): set<(Addr, Message)> {
    set m | m in ms :: (a, m)
  }

  /** NewClient returns, and so Write, Read and Close can be called, once there is an id. */
  predicate ClientMay(s: System, a: Addr, act: Action)
    requires a in s.clients
  {
    match act
    case Receive(m) => (a, m) in s.down
    case Write(_) => 0 <= s.clients[a].id
    case Read => 0 <= s.clients[a].id
    case StartClose => 0 <= s.clients[a].id
    case Timer => true
    case SendNext => true
    case Exit => true
  }

  /** What can still get to session `i`: the server routes a packet only while the table has
      its connection. */
  function Incoming(s: System, i: int): set<(Addr, Message)> {
    if i in s.table.clients then s.up else s.queued
  }

  /** The server routes data and acks by connection id alone, and never looks at `from`. */
  predicate SessionMay(s: System, i: int, act: Action, from: Addr)
    requires i in s.sessions
  {
    match act
    case Receive(m) => (from, m) in Incoming(s, i) && !m.Connect? && m.connId == i
    case Write(_) => i in s.table.clients
    case Read => true
    case StartClose => true
    case Timer => true
    case SendNext => true
    case Exit => true
  }

  function ClientMove(p: Params, s: System, a: Addr, act: Action): System
    requires a in s.clients
  {
    s.(clients := s.clients[a := Act(p, s.clients[a], act)],
       up := s.up + To(a, Sent(p, s.clients[a], act)))
  }

  function SessionMove(p: Params, s: System, i: int, act: Action): System
    requires i in s.sessions
  {
    var x := s.sessions[i];
    s.(sessions := s.sessions[i := x.(ep := Act(p, x.ep, act))],
       down := s.down + To(x.addr, Sent(p, x.ep, act)))
  }

  function AcceptMove(s: System, a: Addr): System {
    match AcceptedId(s.table, a)
    case None => s
    case Some(i) =>
      s.(sessions := s.sessions[i := Session(a, SessionInit(i))],
         table := Accept(s.table, a),
         down := s.down + {(a, Ack(i, 0))})
  }

  function PacketsFor(packets: set<(Addr, Message)>, i: int): set<(Addr, Message)> {
    set x | x in packets && !x.1.Connect? && x.1.connId == i
  }

  /** Of the packets in flight those in `arrived` were routed to the session before. */
  function CloseMove(s: System, i: int, arrived: set<(Addr, Message)>): System {
    if i in s.table.clients && i in s.sessions then
      var x := s.sessions[i];
      s.(sessions := s.sessions[i := x.(ep := Closing(x.ep))],
         table := s.table.(clients := s.table.clients - {i}),
         queued := s.queued + PacketsFor(s.up * arrived, i))
    else s
  }

  /** One step; a step that is not possible changes nothing. */
  function Apply(p: Params, s: System, step: Step): System {
    match step
    case StartClient(a) =>
      if a in s.clients then s
      else s.(clients := s.clients[a := ClientInit()], up := s.up + {(a, Connect)})
    case AcceptConnect(a) =>
      if (a, Connect) in s.up then AcceptMove(s, a) else s
    case ClientStep(a, act) =>
      if a in s.clients && ClientMay(s, a, act) then ClientMove(p, s, a, act) else s
    case SessionStep(i, act, from) =>
      if i in s.sessions && SessionMay(s, i, act, from) then SessionMove(p, s, i, act) else s
    case CloseConn(i, arrived) => CloseMove(s, i, arrived)
    case Lose(u, d) => s.(up := s.up - u, down := s.down - d)
    case ShortenUp(a, m, short) =>
      if (a, m) in s.up && m.Data? && |short| < |m.payload|
      then s.(up := s.up + {(a, m.(payload := short))}) else s
    case ShortenDown(a, m, short) =>
      if (a, m) in s.down && m.Data? && |short| < |m.payload|
      then s.(down := s.down + {(a, m.(payload := short))}) else s
  }

  function Run(p: Params, s: System, steps: seq<Step>): System
    decreases |steps|
  {
    if steps == [] then s else Run(p, Apply(p, s, steps[0]), steps[1..])
  }

  lemma {:induction false} RunConcat(p: Params, s: System, a: seq<Step>, b: seq<Step>)
    ensures Run(p, s, a + b) == Run(p, Run(p, s, a), b)
    decreases |a|
  {
    if a == [] {
      assert a + b == b;
    } else {
      assert (a + b)[1..] == a[1..] + b;
      RunConcat(p, Apply(p, s, a[0]), a[1..], b);
    }
  }

  lemma RunCons(p: Params, s: System, step: Step, more: seq<Step>)
    ensures Run(p, s, [step] + more) == Run(p, Apply(p, s, step), more)
  {
    assert ([step] + more)[1..] == more;
  }

  lemma RunSnoc(p: Params, s: System, steps: seq<Step>, step: Step)
    ensures Run(p, s, steps + [step]) == Apply(p, Run(p, s, steps), step)
  {
    RunConcat(p, s, steps, [step]);
    RunCons(p, Run(p, s, steps), step, []);
    assert [step] + [] == [step];
  }
}
