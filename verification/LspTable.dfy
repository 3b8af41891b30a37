/** The server's connection table over whole runs: an address can connect again exactly when
    the closing of every connection it had was taken from the channel `cls`. */
module LspTable {
  import opened Collections
  import opened LspMachine
  import opened LspSystem
  import opened LspSafety
  import opened LspTheorems
  import opened LspEpochs

  /** The server took the closing of the accepted connection `i`, which comes from CloseConn or
      from the end of its own handler. */
  predicate WasClosed(p: Params, steps: seq<Step>, i: int)
    decreases |steps|
  {
    steps != [] &&
      var before, last := steps[..|steps| - 1], steps[|steps| - 1];
      WasClosed(p, before, i) || (last.CloseConn? && last.id == i && i in Run(p, Init(), before).sessions)
  }

  lemma StepKeepsEntry(p: Params, s: System, step: Step, i: int)
    requires TableOk(s) && i in s.sessions
    ensures var t := Apply(p, s, step);
      && i in t.sessions && t.sessions[i].addr == s.sessions[i].addr
      && (i in t.table.clients <==> i in s.table.clients && !(step.CloseConn? && step.id == i))
  {
  }

  lemma StepAddsEntry(p: Params, s: System, step: Step, i: int)
    requires TableOk(s) && i !in s.sessions && i in Apply(p, s, step).sessions
    ensures i in Apply(p, s, step).table.clients
    ensures step.AcceptConnect? && Apply(p, s, step).sessions[i] == Session(step.a, SessionInit(i))
  {
  }

  /** In every run the table has exactly the connections whose closing was not taken. */
  lemma {:induction false} InTableIff(p: Params, steps: seq<Step>, i: int)
    ensures var s := Reached(p, steps);
      && (i in s.table.clients <==> i in s.sessions && !WasClosed(p, steps, i))
      && (i !in s.sessions ==> !WasClosed(p, steps, i))
    decreases |steps|
  {
    if steps != [] {
      var n := |steps| - 1;
      var s := Reached(p, steps[..n]);
      InTableIff(p, steps[..n], i);
      RunLast(p, Init(), steps);
      ReachedInv(p, steps[..n]);
      ReachedInv(p, steps);
      if i in s.sessions {
        StepKeepsEntry(p, s, steps[n], i);
      } else if i in Reached(p, steps).sessions {
        StepAddsEntry(p, s, steps[n], i);
      }
    }
  }

  ghost predicate AllClosed(p: Params, steps: seq<Step>, a: Addr) {
    forall i | i in Reached(p, steps).sessions && Reached(p, steps).sessions[i].addr == a :: WasClosed(p, steps, i)
  }

  /** In every reachable state a connect request makes a new connection, with the next
      identifier, iff all earlier ones of its address are closed. */
  lemma AcceptsIff(p: Params, steps: seq<Step>, a: Addr)
    requires (a, Connect) in Reached(p, steps).up
    ensures var s := Reached(p, steps);
      var t := Apply(p, s, AcceptConnect(a));
      if AllClosed(p, steps, a) then
        && t.sessions == s.sessions[s.table.lastConnId := Session(a, SessionInit(s.table.lastConnId))]
        && t.table.lastConnId == s.table.lastConnId + 1 && s.table.lastConnId !in s.sessions
        && (a, Ack(s.table.lastConnId, 0)) in t.down
      else t == s
  {
    var s := Reached(p, steps);
    ReachedInv(p, steps);
    if AllClosed(p, steps, a) {
      forall i | i in s.table.clients ensures s.table.clients[i] != a {
        InTableIff(p, steps, i);
      }
    } else {
      var i :| i in s.sessions && s.sessions[i].addr == a && !WasClosed(p, steps, i);
      InTableIff(p, steps, i);
      assert s.table.clients[i] == a;
    }
  }
}
