/** The protocol machine that `client.handler` and `clientInfo.handleClient` both run,
    as functions on values: one `Act` per branch of the select loop, and `Sent`, the
    packets that branch writes.  `LspHandler` runs the same machine on mutable fields. */
module LspMachine {

  newtype byte = x: int | 0 <= x < 256

  type Payload = seq<byte>

  datatype Message =
    | Connect
    | Data(connId: int, seqNum: int, size: int, payload: Payload)
    | Ack(connId: int, seqNum: int)

  datatype Status = NotClosing | StartClosing | HandlerClosed

  /** EpochLimit and WindowSize of the connection. */
  datatype Params = Params(retries: int, windows: int)

  /** The fields of `client` and `clientInfo`.  `written` and `read` are histories: every
      payload given to Write, and every payload Read has returned. */
  datatype Endpoint = Endpoint(
    id: int,
    tbuffer: map<int, Message>, tmsg: seq<Message>, tsq: int, written: seq<Payload>,
    rbuffer: map<int, Payload>, rmsg: seq<Payload>, rsq: int, read: seq<Payload>,
    epochCount: int, status: Status)

  datatype Action =
    | Write(payload: Payload)
    | Read
    | Receive(m: Message)
    | Timer
    | SendNext
    | StartClose
    | Exit

  function NewData(connId: int, seqNum: int, payload: Payload): Message {
    Data(connId, seqNum, |payload|, payload)
  }

  /** `m.SeqNum = seqNum` */
  function Numbered(m: Message, seqNum: int): Message {
    match m
    case Connect => m
    case Data(connId, _, size, payload) => Data(connId, seqNum, size, payload)
    case Ack(connId, _) => Ack(connId, seqNum)
  }

  /** A client just after NewClient wrote its first connect request. */
  function ClientInit(): Endpoint {
    Endpoint(-1, map[0 := Connect], [], 1, [], map[], [], 1, [], 0, NotClosing)
  }

  /** The server's side of a connection just after it was accepted. */
  function SessionInit(id: int): Endpoint {
    Endpoint(id, map[], [], 1, [], map[], [], 1, [], 0, NotClosing)
  }

  /** `tsq - minUnAcked < windows`, without computing the minimum. */
  predicate WindowOpen(tbuffer: map<int, Message>, tsq: int, windows: int) {
    0 < windows && forall k | k in tbuffer :: tsq - k < windows
  }

  predicate MayExit(e: Endpoint) {
    e.status.StartClosing? && e.tbuffer == map[] && e.rbuffer == map[] && e.tmsg == []
  }

  /** The inner loop of the data branch: hand over consecutive payloads from `rsq` on. */
  function Drain(e: Endpoint): Endpoint
    decreases |e.rbuffer|
  {
    if e.rsq in e.rbuffer then
      assert |e.rbuffer - {e.rsq}| < |e.rbuffer| by {
        assert (e.rbuffer - {e.rsq}).Keys == e.rbuffer.Keys - {e.rsq};
      }
      Drain(e.(rmsg := e.rmsg + [e.rbuffer[e.rsq]], rsq := e.rsq + 1, rbuffer := e.rbuffer - {e.rsq}))
    else
      e
  }

  function Store(e: Endpoint, seqNum: int, payload: Payload): Endpoint {
    if seqNum in e.rbuffer then e else e.(rbuffer := e.rbuffer[seqNum := payload])
  }

  function OnData(e: Endpoint, m: Message): Endpoint
    requires m.Data?
  {
    if |m.payload| < m.size then
      e
    else
      var stored := Store(e, m.seqNum, m.payload);
      if m.seqNum == e.rsq then Drain(stored) else stored
  }

  function OnAck(e: Endpoint, m: Message): Endpoint
    requires m.Ack?
  {
    if m.seqNum in e.tbuffer then
      var adopted := if e.tbuffer[m.seqNum].Connect? && e.id < 0 then m.connId else e.id;
      e.(id := adopted, tbuffer := e.tbuffer - {m.seqNum})
    else
      e
  }

  function OnReceive(e: Endpoint, m: Message): Endpoint {
    var e0 := e.(epochCount := 0);
    match m
    case Connect => e0
    case Data(_, _, _, _) => OnData(e0, m)
    case Ack(_, _) => OnAck(e0, m)
  }

  function OnTimer(p: Params, e: Endpoint): Endpoint {
    if e.epochCount + 1 == p.retries then
      e.(epochCount := e.epochCount + 1, status := HandlerClosed)
    else
      e.(epochCount := e.epochCount + 1)
  }

  function OnSendNext(p: Params, e: Endpoint): Endpoint {
    if e.tmsg != [] && WindowOpen(e.tbuffer, e.tsq, p.windows) then
      e.(tbuffer := e.tbuffer[e.tsq := Numbered(e.tmsg[0], e.tsq)], tmsg := e.tmsg[1..], tsq := e.tsq + 1)
    else
      e
  }

  function Closing(e: Endpoint): Endpoint {
    if e.status.NotClosing? then e.(status := StartClosing) else e
  }

  /** Write, Read and Close are called by the application; the rest are steps of the
      handler, which takes none once it has returned. */
  predicate Runs(e: Endpoint, a: Action) {
    a.Write? || a.Read? || a.StartClose? || !e.status.HandlerClosed?
  }

  function Act(p: Params, e: Endpoint, a: Action): Endpoint {
    if !Runs(e, a) then e else
    match a
    case Write(payload) =>
      e.(tmsg := e.tmsg + [NewData(e.id, -1, payload)], written := e.written + [payload])
    case Read =>
      if e.rmsg == [] then e else e.(rmsg := e.rmsg[1..], read := e.read + [e.rmsg[0]])
    case Receive(m) => OnReceive(e, m)
    case Timer => OnTimer(p, e)
    case SendNext => OnSendNext(p, e)
    case StartClose => Closing(e)
    case Exit => if MayExit(e) then e.(status := HandlerClosed) else e
  }

  /** What a surviving epoch writes before the unacknowledged messages. */
  function Reminder(e: Endpoint): set<Message> {
    if e.id < 0 then {Connect}
    else if e.rsq == 1 && |e.rbuffer| == 0 then {Ack(e.id, 0)}
    else {}
  }

  function Sent(p: Params, e: Endpoint, a: Action): set<Message> {
    if !Runs(e, a) then {} else
    match a
    case Receive(m) =>
      if m.Data? && m.size <= |m.payload| then {Ack(e.id, m.seqNum)} else {}
    case Timer =>
      if e.epochCount + 1 == p.retries then {} else Reminder(e) + e.tbuffer.Values
    case SendNext =>
      if e.tmsg != [] && WindowOpen(e.tbuffer, e.tsq, p.windows) then {Numbered(e.tmsg[0], e.tsq)} else {}
    case Write(_) => {}
    case Read => {}
    case StartClose => {}
    case Exit => {}
  }
}
