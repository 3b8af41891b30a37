/** RunMaster and RunWorker as the program writes them: one method per branch of a select,
    on channels and counters updated in place. */
module MapReduceWorkers {
  import opened JobPool
  import opened MapReduceJobs
  import opened MapReduceMaster

  class MasterProcess {
    const job: Job

    var mapJobs: seq<nat>
    var mapDone: nat
    var mapCount: nat
    var closes: nat
    var reduceJobs: seq<nat>
    var reduceDone: nat
    var reduceCount: nat
    var workers: map<nat, Pc>
    var returned: bool

    ghost var files: Files
    ghost var mapFinished: seq<nat>
    ghost var reduceFinished: seq<nat>
    ghost var late: set<Work>

    ghost function State(): Master
      reads this
    {
      Master(files, mapJobs, mapDone, mapCount, mapFinished, closes,
             reduceJobs, reduceDone, reduceCount, reduceFinished, workers, late, returned)
    }

    /** InitMapReduce; the two loops fill the job channels. */
    constructor (job: Job, ghost splits: map<nat, string>)
      ensures this.job == job && State() == Init(job, splits)
    {
      this.job := job;
      mapJobs, mapDone, mapCount, closes := [], 0, 0, 0;
      reduceJobs, reduceDone, reduceCount := [], 0, 0;
      workers, returned := map[], false;
      files, mapFinished, reduceFinished, late := Files(splits, map[], map[]), [], [], {};
      new;
      for i := 0 to job.nMap
        invariant mapJobs == AllJobs(i)
        invariant State() == Init(job, splits).(mapJobs := mapJobs, reduceJobs := [])
      {
        mapJobs := mapJobs + [i];
      }
      for i := 0 to job.nReduce
        invariant reduceJobs == AllJobs(i)
        invariant State() == Init(job, splits).(reduceJobs := reduceJobs)
      {
        reduceJobs := reduceJobs + [i];
      }
    }

    method HandleRegister(w: nat)
      requires !returned && w !in workers
      modifies this
      ensures State() == Apply(job, old(State()), Register(w))
    {
      workers := workers[w := Mapping];
    }

    /** The branches that receive a job number, and the two other ways on from the select.  Go
        chooses between two that are ready: `barrier` is that choice. */
    method NextJob(w: nat, barrier: bool) returns (passed: bool)
      requires w in workers && (workers[w].Mapping? || workers[w].Reducing?)
      modifies this
      ensures old(workers[w]).Mapping? && old(mapJobs) != [] ==>
        State() == Apply(job, old(State()), if passed then EnterReduce(w) else Take(w)) && (passed ==> 0 < closes)
      ensures old(workers[w]).Mapping? && old(mapJobs) == [] ==> State() == Apply(job, old(State()), EnterReduce(w))
      ensures old(workers[w]).Reducing? && old(reduceJobs) != [] ==> State() == Apply(job, old(State()), Take(w))
      ensures old(workers[w]).Reducing? && old(reduceJobs) == [] ==> State() == Apply(job, old(State()), Quit(w))
    {
      passed := false;
      if workers[w].Mapping? {
        if 0 < closes && (mapJobs == [] || barrier) {
          workers, passed := workers[w := Reducing], true;
        } else if mapJobs != [] {
          workers, mapJobs := workers[w := MapCall(mapJobs[0], false)], mapJobs[1..];
        }
      } else if reduceJobs != [] {
        workers, reduceJobs := workers[w := ReduceCall(reduceJobs[0], false)], reduceJobs[1..];
      } else {
        workers := workers[w := Gone];
      }
    }

    /** What follows the RPC: `ok` is its result and `replyOk` what the worker answered. */
    method CallReturned(w: nat, ok: bool, replyOk: bool)
      requires w in workers && (workers[w].MapCall? || workers[w].ReduceCall?)
      requires ok && replyOk ==> workers[w].done
      modifies this
      ensures State() == Apply(job, old(State()), if ok && replyOk then Succeed(w) else Fail(w))
    {
      var j := workers[w].j;
      if workers[w].MapCall? {
        if !ok || !replyOk {
          mapJobs := mapJobs + [j];
          workers := workers[w := Gone];
          late := late + {MapWork(j)};
        } else {
          mapDone := mapDone + 1;
          mapFinished := mapFinished + [j];
          workers := workers[w := Mapping];
        }
      } else {
        if !ok || !replyOk {
          reduceJobs := reduceJobs + [j];
          workers := workers[w := Gone];
          late := late + {ReduceWork(j)};
        } else {
          reduceDone := reduceDone + 1;
          reduceFinished := reduceFinished + [j];
          workers := workers[w := Reducing];
        }
      }
    }

    method HandleMapDone()
      requires !returned && 0 < mapDone
      modifies this
      ensures State() == Apply(job, old(State()), CountMap)
    {
      mapDone := mapDone - 1;
      mapCount := mapCount + 1;
      if mapCount == job.nMap {
        closes := closes + 1;
      }
    }

    method HandleReduceDone()
      requires !returned && 0 < reduceDone
      modifies this
      ensures State() == Apply(job, old(State()), CountReduce)
    {
      reduceDone := reduceDone - 1;
      reduceCount := reduceCount + 1;
      if reduceCount == job.nReduce {
        returned := true;
      }
    }
  }
}
