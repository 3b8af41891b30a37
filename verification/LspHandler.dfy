/** The handler of one endpoint and the server's connection table as the program keeps them:
    fields updated in place by one method per branch of the select loops. */
module LspHandler {
  import opened Collections
  import opened LspMachine
  import LspSystem

  /** `client` and `clientInfo`; the two select loops have the same branches. */
  class Handler {
    const p: Params

    var id: int
    var tbuffer: map<int, Message>
    var tmsg: seq<Message>
    var tsq: int
    var rbuffer: map<int, Payload>
    var rmsg: seq<Payload>
    var rsq: int
    var epochCount: int
    var status: Status

    ghost var written: seq<Payload>
    ghost var read: seq<Payload>

    ghost function State(): Endpoint
      reads this
    {
      Endpoint(id, tbuffer, tmsg, tsq, written, rbuffer, rmsg, rsq, read, epochCount, status)
    }

    constructor Client(p: Params)
      ensures this.p == p && State() == ClientInit()
    {
      this.p := p;
      id, tbuffer, tmsg, tsq := -1, map[0 := Connect], [], 1;
      rbuffer, rmsg, rsq := map[], [], 1;
      epochCount, status := 0, NotClosing;
      written, read := [], [];
    }

    constructor Session(p: Params, id: int)
      ensures this.p == p && State() == SessionInit(id)
    {
      this.p := p;
      this.id, tbuffer, tmsg, tsq := id, map[], [], 1;
      rbuffer, rmsg, rsq := map[], [], 1;
      epochCount, status := 0, NotClosing;
      written, read := [], [];
    }

    method Write(payload: Payload)
      modifies this
      ensures State() == Act(p, old(State()), Action.Write(payload))
    {
      var m := NewData(id, -1, payload);
      tmsg := tmsg + [m];
      written := written + [payload];
    }

    /** None where the program's Read would wait. */
    method Read() returns (r: Option<Payload>)
      modifies this
      ensures State() == Act(p, old(State()), Action.Read)
      ensures r.None? <==> old(rmsg) == []
      ensures r.Some? ==> read == old(read) + [r.value]
    {
      if rmsg == [] {
        return None;
      }
      r := Some(rmsg[0]);
      read := read + [rmsg[0]];
      rmsg := rmsg[1..];
    }

    method Close()
      modifies this
      ensures State() == Act(p, old(State()), StartClose)
    {
      if status.NotClosing? {
        status := StartClosing;
      }
    }

    /** The test at the top of the loop. */
    method TryExit() returns (exited: bool)
      requires !status.HandlerClosed?
      modifies this
      ensures State() == Act(p, old(State()), Exit)
      ensures exited <==> MayExit(old(State()))
    {
      exited := status.StartClosing? && |tbuffer| == 0 && |rbuffer| == 0 && |tmsg| == 0;
      if exited {
        status := HandlerClosed;
      }
    }

    /** The inner loop of the data branch. */
    method HandOver()
      modifies this
      ensures State() == Drain(old(State()))
      ensures id == old(id)
    {
      var i := rsq;
      while i in rbuffer
        invariant i == rsq && Drain(State()) == Drain(old(State()))
        invariant id == old(id)
        decreases |rbuffer|
      {
        RemoveShrinks(rbuffer, i);
        rmsg := rmsg + [rbuffer[i]];
        rsq := rsq + 1;
        rbuffer := rbuffer - {i};
        i := i + 1;
      }
    }

    /** The data branch: store, hand over what is consecutive, acknowledge. */
    method HandleData(m: Message) returns (out: set<Message>)
      requires m.Data? && !status.HandlerClosed?
      modifies this
      ensures State() == Act(p, old(State()), Receive(m))
      ensures out == Sent(p, old(State()), Receive(m))
    {
      epochCount := 0;
      if |m.payload| < m.size {
        return {};
      }
      if m.seqNum !in rbuffer {
        rbuffer := rbuffer[m.seqNum := m.payload];
      }
      if m.seqNum == rsq {
        HandOver();
      }
      out := {Ack(id, m.seqNum)};
    }

    method HandleAck(m: Message)
      requires m.Ack? && !status.HandlerClosed?
      modifies this
      ensures State() == Act(p, old(State()), Receive(m))
      ensures Sent(p, old(State()), Receive(m)) == {}
    {
      epochCount := 0;
      if m.seqNum in tbuffer {
        if tbuffer[m.seqNum].Connect? && id < 0 {
          id := m.connId;
        }
        tbuffer := tbuffer - {m.seqNum};
      }
    }

    /** The loop over the retransmit buffer. */
    method Resend() returns (out: set<Message>)
      ensures out == tbuffer.Values
    {
      out := {};
      ghost var done := {};
      var left := tbuffer.Keys;
      while left != {}
        invariant done + left == tbuffer.Keys && out == Image(tbuffer, done)
        decreases |left|
      {
        var k, rest := Take(left);
        ImageAdds(tbuffer, done, k);
        out := out + {tbuffer[k]};
        done := done + {k};
        left := rest;
      }
      ImageOfAll(tbuffer);
    }

    method HandleTimer() returns (out: set<Message>)
      requires !status.HandlerClosed?
      modifies this
      ensures State() == Act(p, old(State()), Timer)
      ensures out == Sent(p, old(State()), Timer)
    {
      epochCount := epochCount + 1;
      if epochCount == p.retries {
        status := HandlerClosed;
        return {};
      }
      out := {};
      if id < 0 {
        out := {Connect};
      } else if rsq == 1 && |rbuffer| == 0 {
        out := {Ack(id, 0)};
      }
      var resent := Resend();
      out := out + resent;
    }

    /** The loop that looks for the oldest unacknowledged message. */
    method MinUnAcked() returns (min: int)
      ensures min <= tsq && (forall k | k in tbuffer :: min <= k)
      ensures min == tsq || min in tbuffer
    {
      min := tsq;
      var left := tbuffer.Keys;
      while left != {}
        invariant left <= tbuffer.Keys && min <= tsq
        invariant forall k | k in tbuffer && k !in left :: min <= k
        invariant min == tsq || min in tbuffer
        decreases |left|
      {
        var k, rest := Take(left);
        if min > k {
          min := k;
        }
        left := rest;
      }
    }

    method HandleDefault() returns (out: set<Message>)
      requires !status.HandlerClosed?
      modifies this
      ensures State() == Act(p, old(State()), SendNext)
      ensures out == Sent(p, old(State()), SendNext)
    {
      out := {};
      var min := MinUnAcked();
      if tsq - min < p.windows && tmsg != [] {
        var m := Numbered(tmsg[0], tsq);
        tmsg := tmsg[1..];
        tbuffer := tbuffer[tsq := m];
        tsq := tsq + 1;
        out := {m};
      }
    }
  }

  /** `server.handle`: the live connections by identifier, with their addresses. */
  class ConnTable {
    const p: Params

    var clients: map<int, Handler>
    var addrs: map<int, LspSystem.Addr>
    var lastConnId: int

    ghost predicate Valid()
      reads this
    {
      clients.Keys == addrs.Keys
    }

    ghost function State(): LspSystem.Table
      reads this
    {
      LspSystem.Table(addrs, lastConnId)
    }

    constructor (p: Params)
      ensures Valid() && this.p == p && State() == LspSystem.Init().table
    {
      this.p := p;
      clients, addrs, lastConnId := map[], map[], LspSystem.FIRST_CONN_ID;
    }

    method IsDuplicate(a: LspSystem.Addr) returns (duplicate: bool)
      ensures duplicate <==> exists i | i in addrs :: addrs[i] == a
    {
      duplicate := false;
      var left := addrs.Keys;
      while left != {} && !duplicate
        invariant left <= addrs.Keys
        invariant forall i | i in addrs && i !in left :: addrs[i] != a || duplicate
        invariant duplicate ==> exists i | i in addrs :: addrs[i] == a
        decreases |left|
      {
        var i, rest := Take(left);
        duplicate := addrs[i] == a;
        left := rest;
      }
    }

    /** A repeated request changes nothing; any other gets a new session and its ack. */
    method HandleConnect(a: LspSystem.Addr) returns (accepted: Option<int>, out: set<Message>)
      requires Valid()
      modifies this
      ensures Valid() && State() == LspSystem.Accept(old(State()), a)
      ensures accepted == LspSystem.AcceptedId(old(State()), a)
      ensures accepted.None? ==> clients == old(clients) && out == {}
      ensures accepted.Some? ==>
        var i := accepted.value;
        && i in clients && clients == old(clients)[i := clients[i]]
        && fresh(clients[i]) && clients[i].p == p && clients[i].State() == SessionInit(i)
        && out == {Ack(i, 0)}
    {
      var duplicate := IsDuplicate(a);
      if duplicate {
        return None, {};
      }
      var client := new Handler.Session(p, lastConnId);
      clients := clients[lastConnId := client];
      addrs := addrs[lastConnId := a];
      accepted, out := Some(lastConnId), {Ack(lastConnId, 0)};
      lastConnId := lastConnId + 1;
    }

    /** The connection is told to close and leaves the table; its handler goes on. */
    method HandleClose(i: int)
      requires Valid()
      modifies this, if i in clients then {clients[i]} else {}
      ensures Valid() && State() == old(State()).(clients := old(addrs) - {i}) && clients == old(clients) - {i}
      ensures i in old(clients) ==> old(clients)[i].State() == Closing(old(clients[i].State()))
    {
      if i in clients {
        clients[i].Close();
        clients := clients - {i};
        addrs := addrs - {i};
      } else {
        assert addrs - {i} == addrs && clients - {i} == clients;
      }
    }
  }
}
