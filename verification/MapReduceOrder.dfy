/** Who gets which job when: the queues are served in order, and a worker whose call has
    failed is not used again. */
module MapReduceOrder {
  import opened Collections
  import opened JobPool
  import opened MapReduceJobs
  import opened MapReduceMaster

  datatype Kind = Maps | Reduces

  function Queue(s: Master, kind: Kind): seq<nat> {
    match kind
    case Maps => s.mapJobs
    case Reduces => s.reduceJobs
  }

  /** How many jobs are taken from the queue. */
  ghost function Taken(job: Job, s: Master, steps: seq<Step>, kind: Kind): nat
    decreases |steps|
  {
    if steps == [] then 0
    else
      var t := Apply(job, s, steps[0]);
      (if |Queue(t, kind)| < |Queue(s, kind)| then 1 else 0) + Taken(job, t, steps[1..], kind)
  }

  lemma StepTakesFirst(job: Job, s: Master, step: Step, kind: Kind)
    ensures var t := Apply(job, s, step);
      if |Queue(t, kind)| < |Queue(s, kind)| then Queue(s, kind)[1..] == Queue(t, kind)
      else Queue(s, kind) <= Queue(t, kind)
  {
  }

  /** In every run, while `d` jobs are taken, they are the first `d`: no job overtakes another,
      and one whose call failed waits behind all the others. */
  lemma {:induction false} JobsInTurn(job: Job, s: Master, steps: seq<Step>, kind: Kind)
    requires Taken(job, s, steps, kind) <= |Queue(s, kind)|
    ensures Queue(s, kind)[Taken(job, s, steps, kind)..] <= Queue(Run(job, s, steps), kind)
    decreases |steps|
  {
    if steps != [] {
      var t, more := Apply(job, s, steps[0]), steps[1..];
      var d: nat := if |Queue(t, kind)| < |Queue(s, kind)| then 1 else 0;
      StepTakesFirst(job, s, steps[0], kind);
      if Taken(job, t, more, kind) <= |Queue(t, kind)| {
        JobsInTurn(job, t, more, kind);
      }
      AdvanceTwice(Queue(s, kind), Queue(t, kind), Queue(Run(job, s, steps), kind), d, Taken(job, t, more, kind));
    }
  }

  /** So the jobs are tried in the order of their numbers. */
  lemma FirstAttemptsInOrder(job: Job, splits: map<nat, string>, steps: seq<Step>, kind: Kind)
    ensures var n, d := if kind.Maps? then job.nMap else job.nReduce, Taken(job, Init(job, splits), steps, kind);
      d < n ==>
        var queue := Queue(Reached(job, splits, steps), kind);
        n - d <= |queue| && forall k | 0 <= k < n - d :: queue[k] == d + k
  {
    var n, d := if kind.Maps? then job.nMap else job.nReduce, Taken(job, Init(job, splits), steps, kind);
    if d < n {
      JobsInTurn(job, Init(job, splits), steps, kind);
      var queue := Queue(Reached(job, splits, steps), kind);
      forall k | 0 <= k < n - d ensures queue[k] == d + k {
        assert AllJobs(n)[d..][k] == d + k;
      }
    }
  }

  // ---- after a failed call ----

  ghost predicate Left(s: Master, w: nat) {
    w in s.workers && s.workers[w].Gone?
  }

  lemma {:induction false} LeftForGood(job: Job, s: Master, w: nat, works: set<Work>, steps: seq<Step>)
    requires Left(s, w) && works <= s.late
    ensures Left(Run(job, s, steps), w) && works <= Run(job, s, steps).late
    decreases |steps|
  {
    if steps != [] {
      LeftForGood(job, Apply(job, s, steps[0]), w, works, steps[1..]);
    }
  }

  ghost predicate Calls(s: Master, w: nat, work: Work) {
    match MapReduceMaster.At(s, w)
    case MapCall(j, _) => work == MapWork(j)
    case ReduceCall(j, _) => work == ReduceWork(j)
    case _ => false
  }

  /** The worker of a call that failed gets no job in any later state, its job is the last in
      the queue, no other is affected, and the job may still run at any later time. */
  lemma AfterAFailure(job: Job, s: Master, w: nat, work: Work, steps: seq<Step>)
    requires Calls(s, w, work)
    ensures var t := Apply(job, s, Fail(w));
      && t.mapJobs == (if work.MapWork? then s.mapJobs + [work.j] else s.mapJobs)
      && t.reduceJobs == (if work.ReduceWork? then s.reduceJobs + [work.j] else s.reduceJobs)
      && (forall v | v in s.workers && v != w :: v in t.workers && t.workers[v] == s.workers[v])
    ensures var u := Run(job, Apply(job, s, Fail(w)), steps);
      Left(u, w) && Apply(job, u, Take(w)) == u && work in u.late
  {
    var t := Apply(job, s, Fail(w));
    LeftForGood(job, t, w, {work}, steps);
  }

  /** A worker leaves only when its call fails, or when it finds no reduce job left. */
  lemma LeavesOnlyIf(job: Job, s: Master, step: Step, w: nat)
    requires w in s.workers && !Left(s, w) && Left(Apply(job, s, step), w)
    ensures (step == Fail(w) && exists work :: Calls(s, w, work))
      || (step == Quit(w) && s.workers[w].Reducing? && s.reduceJobs == [])
  {
    match s.workers[w]
    case MapCall(j, _) => assert Calls(s, w, MapWork(j));
    case ReduceCall(j, _) => assert Calls(s, w, ReduceWork(j));
    case _ =>
  }
}
