/** A pool of numbered jobs: each is queued, held by one worker, or finished. */
module JobPool {
  import opened Collections

  predicate Holds(held: map<nat, nat>, j: nat) {
    exists w :: w in held && held[w] == j
  }

  /** Every index below `n` is in exactly one place, exactly once. */
  ghost predicate Conserved(n: nat, queue: seq<nat>, finished: seq<nat>, held: map<nat, nat>) {
    && NoDup(queue) && NoDup(finished)
    && (forall j | j in queue :: j < n && j !in finished)
    && (forall j | j in finished :: j < n)
    && (forall w | w in held :: held[w] < n && held[w] !in queue && held[w] !in finished)
    && (forall v, w | v in held && w in held && held[v] == held[w] :: v == w)
    && (forall j: nat | j < n :: j in queue || j in finished || Holds(held, j))
  }

  lemma NoDupBound(s: seq<nat>, n: nat)
    requires NoDup(s) && forall j | j in s :: j < n
    ensures |s| <= n
  {
    NoDupSize(s);
    var ints: set<int> := set j: nat | j in s :: j as int;
    IntervalSize(ints, 0, n);
    assert ToSet(s) == ints;
  }

  lemma Fits(n: nat, queue: seq<nat>, finished: seq<nat>, held: map<nat, nat>)
    requires Conserved(n, queue, finished, held)
    ensures |queue| <= n && |finished| <= n
  {
    NoDupBound(queue, n);
    NoDupBound(finished, n);
  }

  /** Once `n` jobs have finished nothing is queued or held. */
  lemma AllFinished(n: nat, queue: seq<nat>, finished: seq<nat>, held: map<nat, nat>)
    requires Conserved(n, queue, finished, held) && |finished| == n
    ensures forall j: nat | j < n :: j in finished
    ensures queue == [] && held == map[]
  {
    forall j: nat | j < n ensures j in finished {
      if j !in finished {
        NoDupBound(finished + [j], n);
      }
    }
    SomeElement(queue);
    if held != map[] {
      var w := PickKey(held);
    }
  }

  lemma {:induction false} RangeSize(xs: set<int>, n: nat)
    requires forall j | 0 <= j < n :: j in xs
    ensures n <= |xs|
    decreases n
  {
    if 0 < n {
      RangeSize(xs - {n - 1}, n - 1);
    }
  }

  lemma AllThere(n: nat, finished: seq<nat>)
    requires NoDup(finished) && forall j: nat | j < n :: j in finished
    ensures n <= |finished|
  {
    var ints: set<int> := set j: nat | j in finished :: j as int;
    forall j | 0 <= j < n ensures j in ints {
      var job: nat := j;
      assert job in finished;
    }
    RangeSize(ints, n);
    NoDupSize(finished);
    assert ToSet(finished) == ints;
  }

  /** While not all jobs have finished there is one to take or to wait for. */
  lemma SomeLeft(n: nat, queue: seq<nat>, finished: seq<nat>, held: map<nat, nat>)
    requires Conserved(n, queue, finished, held) && |finished| < n
    ensures queue != [] || held != map[]
  {
    if queue == [] && held == map[] {
      AllThere(n, finished);
    }
  }

  lemma TakenQueue(queue: seq<nat>)
    requires queue != [] && NoDup(queue)
    ensures NoDup(queue[1..])
    ensures forall j :: j in queue[1..] <==> j in queue && j != queue[0]
  {
    assert queue == [queue[0]] + queue[1..];
    forall j | j in queue[1..] ensures j != queue[0] {
      var i :| 0 <= i < |queue[1..]| && queue[1..][i] == j;
      assert queue[i + 1] == j;
    }
  }

  lemma Taken(n: nat, queue: seq<nat>, finished: seq<nat>, held: map<nat, nat>, w: nat)
    requires Conserved(n, queue, finished, held) && queue != [] && w !in held
    ensures Conserved(n, queue[1..], finished, held[w := queue[0]])
  {
    var held' := held[w := queue[0]];
    TakenQueue(queue);
    assert queue[0] in queue;
    forall j: nat | j < n ensures j in queue[1..] || j in finished || Holds(held', j) {
      if Holds(held, j) {
        var v :| v in held && held[v] == j;
        assert held'[v] == j;
      } else if j == queue[0] {
        assert held'[w] == j;
      }
    }
  }

  lemma Finished(n: nat, queue: seq<nat>, finished: seq<nat>, held: map<nat, nat>, w: nat)
    requires Conserved(n, queue, finished, held) && w in held
    ensures Conserved(n, queue, finished + [held[w]], held - {w})
  {
    var held' := held - {w};
    forall j: nat | j < n ensures j in queue || j in finished + [held[w]] || Holds(held', j) {
      if Holds(held, j) {
        var v :| v in held && held[v] == j;
        assert v == w || held'[v] == j;
      }
    }
  }

  lemma Requeued(n: nat, queue: seq<nat>, finished: seq<nat>, held: map<nat, nat>, w: nat)
    requires Conserved(n, queue, finished, held) && w in held
    ensures Conserved(n, queue + [held[w]], finished, held - {w})
  {
    var held' := held - {w};
    forall j: nat | j < n ensures j in queue + [held[w]] || j in finished || Holds(held', j) {
      if Holds(held, j) {
        var v :| v in held && held[v] == j;
        assert v == w || held'[v] == j;
      }
    }
  }

  /** The channel as InitMapReduce fills it. */
  function AllJobs(n: nat): seq<nat> {
    seq(n, i requires 0 <= i < n => i)
  }

  lemma Initially(n: nat)
    ensures Conserved(n, AllJobs(n), [], map[])
  {
    forall j: nat | j < n ensures j in AllJobs(n) {
      assert AllJobs(n)[j] == j;
    }
  }
}
