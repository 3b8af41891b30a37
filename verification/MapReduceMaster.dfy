/** RunMaster, any number of RunWorker goroutines and the workers they call, as one state.
    A call may fail before or after the job ran, and a job whose call failed may still run
    at any later time. */
module MapReduceMaster {
  import opened Collections
  import opened JobPool
  import opened MapReduceJobs

  /** Where a RunWorker goroutine is; `done` says that the worker has run the job. */
  datatype Pc =
    | Mapping | MapCall(j: nat, done: bool)
    | Reducing | ReduceCall(j: nat, done: bool)
    | Gone

  datatype Work = MapWork(j: nat) | ReduceWork(j: nat)

  /** `mapDone` and `reduceDone` are the messages in those channels, `mapCount` and
      `reduceCount` the counters of RunMaster, `closes` how often `reduceStart` was closed;
      `mapFinished` and `reduceFinished` are histories of the jobs reported done. */
  datatype Master = Master(
    files: Files,
    mapJobs: seq<nat>, mapDone: nat, mapCount: nat, mapFinished: seq<nat>,
    closes: nat,
    reduceJobs: seq<nat>, reduceDone: nat, reduceCount: nat, reduceFinished: seq<nat>,
    workers: map<nat, Pc>, late: set<Work>, returned: bool)

  datatype Step =
    | Register(w: nat)
    | Take(w: nat)
    | Execute(w: nat)
    | Succeed(w: nat)
    | Fail(w: nat)
    | EnterReduce(w: nat)
    | Quit(w: nat)
    | ExecuteLate(work: Work)
    | CountMap
    | CountReduce

  function Init(job: Job, splits: map<nat, string>): Master {
    Master(Files(splits, map[], map[]),
           AllJobs(job.nMap), 0, 0, [], 0, AllJobs(job.nReduce), 0, 0, [], map[], {}, false)
  }

  /** The goroutine that the step is about, as far as there is one. */
  function At(s: Master, w: nat): Pc {
    if w in s.workers then s.workers[w] else Gone
  }

  ghost function Perform(job: Job, f: Files, work: Work): Option<Files> {
    match work
    case MapWork(j) => DoMap(job, f, j)
    case ReduceWork(j) => DoReduce(job, f, j)
  }

  function DoTake(s: Master, w: nat): Master {
    match At(s, w)
    case Mapping =>
      if s.mapJobs == [] then s
      else s.(mapJobs := s.mapJobs[1..], workers := s.workers[w := MapCall(s.mapJobs[0], false)])
    case Reducing =>
      if s.reduceJobs == [] then s
      else s.(reduceJobs := s.reduceJobs[1..], workers := s.workers[w := ReduceCall(s.reduceJobs[0], false)])
    case _ => s
  }

  /** The worker runs the job; if a file is missing it stops and the call can only fail. */
  ghost function DoExecute(job: Job, s: Master, w: nat): Master {
    match At(s, w)
    case MapCall(j, _) =>
      (match DoMap(job, s.files, j)
       case None => s
       case Some(f) => s.(files := f, workers := s.workers[w := MapCall(j, true)]))
    case ReduceCall(j, _) =>
      (match DoReduce(job, s.files, j)
       case None => s
       case Some(f) => s.(files := f, workers := s.workers[w := ReduceCall(j, true)]))
    case _ => s
  }

  function DoSucceed(s: Master, w: nat): Master {
    match At(s, w)
    case MapCall(j, done) =>
      if !done then s
      else s.(mapDone := s.mapDone + 1, mapFinished := s.mapFinished + [j], workers := s.workers[w := Mapping])
    case ReduceCall(j, done) =>
      if !done then s
      else s.(reduceDone := s.reduceDone + 1, reduceFinished := s.reduceFinished + [j],
              workers := s.workers[w := Reducing])
    case _ => s
  }

  function DoFail(s: Master, w: nat): Master {
    match At(s, w)
    case MapCall(j, _) =>
      s.(mapJobs := s.mapJobs + [j], workers := s.workers[w := Gone], late := s.late + {MapWork(j)})
    case ReduceCall(j, _) =>
      s.(reduceJobs := s.reduceJobs + [j], workers := s.workers[w := Gone], late := s.late + {ReduceWork(j)})
    case _ => s
  }

  function DoCountMap(job: Job, s: Master): Master {
    if s.returned || s.mapDone == 0 then s
    else s.(mapDone := s.mapDone - 1, mapCount := s.mapCount + 1,
            closes := if s.mapCount + 1 == job.nMap then s.closes + 1 else s.closes)
  }

  function DoCountReduce(job: Job, s: Master): Master {
    if s.returned || s.reduceDone == 0 then s
    else s.(reduceDone := s.reduceDone - 1, reduceCount := s.reduceCount + 1,
            returned := s.reduceCount + 1 == job.nReduce)
  }

  ghost function Apply(job: Job, s: Master, step: Step): Master {
    match step
    case Register(w) =>
      if s.returned || w in s.workers then s else s.(workers := s.workers[w := Mapping])
    case Take(w) => DoTake(s, w)
    case Execute(w) => DoExecute(job, s, w)
    case Succeed(w) => DoSucceed(s, w)
    case Fail(w) => DoFail(s, w)
    case EnterReduce(w) =>
      if At(s, w).Mapping? && 0 < s.closes then s.(workers := s.workers[w := Reducing]) else s
    case Quit(w) =>
      if At(s, w).Reducing? && s.reduceJobs == [] then s.(workers := s.workers[w := Gone]) else s
    case ExecuteLate(work) =>
      if work in s.late && Perform(job, s.files, work).Some?
      then s.(files := Perform(job, s.files, work).value) else s
    case CountMap => DoCountMap(job, s)
    case CountReduce => DoCountReduce(job, s)
  }

  ghost function Run(job: Job, s: Master, steps: seq<Step>): Master
    decreases |steps|
  {
    if steps == [] then s else Run(job, Apply(job, s, steps[0]), steps[1..])
  }

  // ---- the invariant ----

  function MapHeld(ws: map<nat, Pc>): map<nat, nat> {
    map w | w in ws && ws[w].MapCall? :: ws[w].j
  }

  function ReduceHeld(ws: map<nat, Pc>): map<nat, nat> {
    map w | w in ws && ws[w].ReduceCall? :: ws[w].j
  }

  ghost predicate PoolsOk(job: Job, s: Master) {
    && Conserved(job.nMap, s.mapJobs, s.mapFinished, MapHeld(s.workers))
    && Conserved(job.nReduce, s.reduceJobs, s.reduceFinished, ReduceHeld(s.workers))
    && s.mapCount + s.mapDone == |s.mapFinished|
    && s.reduceCount + s.reduceDone == |s.reduceFinished|
  }

  /** The barrier: `reduceStart` is closed once, when RunMaster has counted every map job. */
  ghost predicate PhaseOk(job: Job, s: Master) {
    && s.closes == (if 0 < job.nMap <= s.mapCount then 1 else 0)
    && (forall w | w in s.workers :: s.workers[w].Reducing? || s.workers[w].ReduceCall? ==> s.closes == 1)
    && (forall j | ReduceWork(j) in s.late :: s.closes == 1)
    && (s.returned ==> s.reduceCount == job.nReduce)
    && (!s.returned && 0 < job.nReduce ==> s.reduceCount < job.nReduce)
    && (s.closes == 0 ==> s.reduceFinished == [])
  }

  /** All files of map job `j` are there. */
  predicate HasMapFiles(job: Job, f: Files, j: nat) {
    j in f.splits && forall r: nat | r < job.nReduce :: (j, r) in f.inter
  }

  ghost predicate FilesOk(job: Job, splits: map<nat, string>, s: Master) {
    0 < job.nReduce ==>
      && s.files.splits == splits && MapFilesOk(job, s.files) && ResultFilesOk(job, s.files)
      && (forall j | j in s.mapFinished :: HasMapFiles(job, s.files, j))
      && (forall j | j in s.reduceFinished :: j in s.files.results)
      && (forall w | w in s.workers && s.workers[w].MapCall? && s.workers[w].done ::
            HasMapFiles(job, s.files, s.workers[w].j))
      && (forall w | w in s.workers && s.workers[w].ReduceCall? && s.workers[w].done ::
            s.workers[w].j in s.files.results)
  }

  ghost predicate Inv(job: Job, splits: map<nat, string>, s: Master) {
    PoolsOk(job, s) && PhaseOk(job, s) && FilesOk(job, splits, s)
  }

  lemma InitOk(job: Job, splits: map<nat, string>)
    ensures Inv(job, splits, Init(job, splits))
  {
    Initially(job.nMap);
    Initially(job.nReduce);
    assert MapHeld(map[]) == map[] && ReduceHeld(map[]) == map[];
  }

  // ---- the pools ----

  lemma HeldAfter(ws: map<nat, Pc>, w: nat, pc: Pc)
    ensures MapHeld(ws[w := pc]) == (if pc.MapCall? then MapHeld(ws)[w := pc.j] else MapHeld(ws) - {w})
    ensures ReduceHeld(ws[w := pc]) == (if pc.ReduceCall? then ReduceHeld(ws)[w := pc.j] else ReduceHeld(ws) - {w})
  {
  }

  lemma NotHeld(m: map<nat, nat>, w: nat)
    requires w !in m
    ensures m - {w} == m
  {
  }

  lemma TakeKeepsPools(job: Job, s: Master, w: nat)
    requires PoolsOk(job, s)
    ensures PoolsOk(job, DoTake(s, w))
  {
    var s' := DoTake(s, w);
    if s' != s {
      HeldAfter(s.workers, w, s'.workers[w]);
      if At(s, w).Mapping? {
        Taken(job.nMap, s.mapJobs, s.mapFinished, MapHeld(s.workers), w);
        NotHeld(ReduceHeld(s.workers), w);
      } else {
        Taken(job.nReduce, s.reduceJobs, s.reduceFinished, ReduceHeld(s.workers), w);
        NotHeld(MapHeld(s.workers), w);
      }
    }
  }

  lemma SucceedKeepsPools(job: Job, s: Master, w: nat)
    requires PoolsOk(job, s)
    ensures PoolsOk(job, DoSucceed(s, w))
  {
    var s' := DoSucceed(s, w);
    if s' != s {
      HeldAfter(s.workers, w, s'.workers[w]);
      if At(s, w).MapCall? {
        Finished(job.nMap, s.mapJobs, s.mapFinished, MapHeld(s.workers), w);
        NotHeld(ReduceHeld(s.workers), w);
      } else {
        Finished(job.nReduce, s.reduceJobs, s.reduceFinished, ReduceHeld(s.workers), w);
        NotHeld(MapHeld(s.workers), w);
      }
    }
  }

  lemma FailKeepsPools(job: Job, s: Master, w: nat)
    requires PoolsOk(job, s)
    ensures PoolsOk(job, DoFail(s, w))
  {
    var s' := DoFail(s, w);
    if s' != s {
      HeldAfter(s.workers, w, s'.workers[w]);
      if At(s, w).MapCall? {
        Requeued(job.nMap, s.mapJobs, s.mapFinished, MapHeld(s.workers), w);
        NotHeld(ReduceHeld(s.workers), w);
      } else {
        Requeued(job.nReduce, s.reduceJobs, s.reduceFinished, ReduceHeld(s.workers), w);
        NotHeld(MapHeld(s.workers), w);
      }
    }
  }

  /** A worker that neither takes nor gives up a job. */
  lemma SameHeld(ws: map<nat, Pc>, w: nat, pc: Pc)
    requires w in ws ==> ws[w].MapCall? == pc.MapCall? && ws[w].ReduceCall? == pc.ReduceCall?
    requires w in ws && pc.MapCall? ==> ws[w].j == pc.j
    requires w in ws && pc.ReduceCall? ==> ws[w].j == pc.j
    requires w !in ws ==> !pc.MapCall? && !pc.ReduceCall?
    ensures MapHeld(ws[w := pc]) == MapHeld(ws) && ReduceHeld(ws[w := pc]) == ReduceHeld(ws)
  {
  }

  lemma StepKeepsPools(job: Job, s: Master, step: Step)
    requires PoolsOk(job, s)
    ensures PoolsOk(job, Apply(job, s, step))
  {
    var s' := Apply(job, s, step);
    match step
    case Take(w) => TakeKeepsPools(job, s, w);
    case Succeed(w) => SucceedKeepsPools(job, s, w);
    case Fail(w) => FailKeepsPools(job, s, w);
    case Register(w) => if s' != s { SameHeld(s.workers, w, Mapping); }
    case EnterReduce(w) => if s' != s { SameHeld(s.workers, w, Reducing); }
    case Quit(w) => if s' != s { SameHeld(s.workers, w, Gone); }
    case Execute(w) => if s' != s { SameHeld(s.workers, w, s'.workers[w]); }
    case _ =>
  }

  // ---- the barrier ----

  lemma StepKeepsPhase(job: Job, s: Master, step: Step)
    requires PoolsOk(job, s) && PhaseOk(job, s)
    ensures PhaseOk(job, Apply(job, s, step))
  {
    Fits(job.nMap, s.mapJobs, s.mapFinished, MapHeld(s.workers));
    Fits(job.nReduce, s.reduceJobs, s.reduceFinished, ReduceHeld(s.workers));
  }

  /** Past the barrier every map job has finished, so no reduce job finds a file missing. */
  lemma BarrierMeansMapped(job: Job, splits: map<nat, string>, s: Master, r: nat)
    requires Inv(job, splits, s) && s.closes == 1 && r < job.nReduce
    ensures DoReduce(job, s.files, r).Some?
  {
    Fits(job.nMap, s.mapJobs, s.mapFinished, MapHeld(s.workers));
    AllFinished(job.nMap, s.mapJobs, s.mapFinished, MapHeld(s.workers));
    forall i: nat | i < job.nMap ensures (i, r) in s.files.inter {
      assert i in s.mapFinished;
    }
  }

  // ---- the files ----

  /** Running a job, at whatever time, only adds right files. */
  lemma PerformKeepsFiles(job: Job, splits: map<nat, string>, s: Master, work: Work)
    requires FilesOk(job, splits, s) && Perform(job, s.files, work).Some?
    ensures FilesOk(job, splits, s.(files := Perform(job, s.files, work).value))
    ensures 0 < job.nReduce && work.MapWork? ==> HasMapFiles(job, Perform(job, s.files, work).value, work.j)
    ensures 0 < job.nReduce && work.ReduceWork? ==> work.j in Perform(job, s.files, work).value.results
  {
    if 0 < job.nReduce {
      match work
      case MapWork(j) => DoMapOk(job, s.files, j);
      case ReduceWork(j) => DoReduceOk(job, s.files, j);
    }
  }

  lemma ExecuteKeepsFiles(job: Job, splits: map<nat, string>, s: Master, w: nat)
    requires FilesOk(job, splits, s)
    ensures FilesOk(job, splits, DoExecute(job, s, w))
  {
    match At(s, w)
    case MapCall(j, _) =>
      if DoMap(job, s.files, j).Some? {
        PerformKeepsFiles(job, splits, s, MapWork(j));
      }
    case ReduceCall(j, _) =>
      if DoReduce(job, s.files, j).Some? {
        PerformKeepsFiles(job, splits, s, ReduceWork(j));
      }
    case _ =>
  }

  /** No file is touched, no job finishes, no call is carried out. */
  lemma FilesFrame(job: Job, splits: map<nat, string>, s: Master, t: Master)
    requires FilesOk(job, splits, s)
    requires t.files == s.files && t.mapFinished == s.mapFinished && t.reduceFinished == s.reduceFinished
    requires forall w | w in t.workers && (t.workers[w].MapCall? || t.workers[w].ReduceCall?) && t.workers[w].done ::
      w in s.workers && s.workers[w] == t.workers[w]
    ensures FilesOk(job, splits, t)
  {
  }

  lemma SucceedKeepsFiles(job: Job, splits: map<nat, string>, s: Master, w: nat)
    requires FilesOk(job, splits, s)
    ensures FilesOk(job, splits, DoSucceed(s, w))
  {
  }

  lemma StepKeepsFiles(job: Job, splits: map<nat, string>, s: Master, step: Step)
    requires FilesOk(job, splits, s)
    ensures FilesOk(job, splits, Apply(job, s, step))
  {
    match step
    case Execute(w) => ExecuteKeepsFiles(job, splits, s, w);
    case ExecuteLate(work) =>
      if work in s.late && Perform(job, s.files, work).Some? {
        PerformKeepsFiles(job, splits, s, work);
      }
    case Succeed(w) => SucceedKeepsFiles(job, splits, s, w);
    case _ => FilesFrame(job, splits, s, Apply(job, s, step));
  }

  lemma {:induction false} RunKeepsInv(job: Job, splits: map<nat, string>, s: Master, steps: seq<Step>)
    requires Inv(job, splits, s)
    ensures Inv(job, splits, Run(job, s, steps))
    decreases |steps|
  {
    if steps != [] {
      StepKeepsPools(job, s, steps[0]);
      StepKeepsPhase(job, s, steps[0]);
      StepKeepsFiles(job, splits, s, steps[0]);
      RunKeepsInv(job, splits, Apply(job, s, steps[0]), steps[1..]);
    }
  }

  // ---- the promises ----

  ghost function Reached(job: Job, splits: map<nat, string>, steps: seq<Step>): Master {
    Run(job, Init(job, splits), steps)
  }

  lemma ReachedInv(job: Job, splits: map<nat, string>, steps: seq<Step>)
    ensures Inv(job, splits, Reached(job, splits, steps))
  {
    InitOk(job, splits);
    RunKeepsInv(job, splits, Init(job, splits), steps);
  }

  /** Once RunMaster has returned, and whatever late jobs run after that, Merge writes what
      the sequential program writes on the same splits. */
  lemma DistributedEqualsSequential(job: Job, splits: map<nat, string>, steps: seq<Step>)
    requires Reached(job, splits, steps).returned
    ensures 0 < job.nReduce && 0 < job.nMap && AllSplits(splits, job.nMap)
    ensures Merge(job, Reached(job, splits, steps).files) == RunSingle(job, splits)
    ensures RunSingle(job, splits) == Some(GroupBy(job, splits))
  {
    var s := Reached(job, splits, steps);
    ReachedInv(job, splits, steps);
    ReturnedMeansCounted(job, splits, steps);
    Fits(job.nReduce, s.reduceJobs, s.reduceFinished, ReduceHeld(s.workers));
    AllFinished(job.nReduce, s.reduceJobs, s.reduceFinished, ReduceHeld(s.workers));
    Fits(job.nMap, s.mapJobs, s.mapFinished, MapHeld(s.workers));
    AllFinished(job.nMap, s.mapJobs, s.mapFinished, MapHeld(s.workers));
    forall i: nat | i < job.nMap ensures i in splits {
      assert i in s.mapFinished;
    }
    forall r: nat | r < job.nReduce ensures r in s.files.results {
      assert r in s.reduceFinished;
    }
    MergeIsGroupBy(job, s.files);
    RunSingleIsGroupBy(job, splits);
  }

  lemma {:induction false} ReturnNeedsReduceJobs(job: Job, s: Master, steps: seq<Step>)
    requires s.returned ==> 0 < job.nReduce
    ensures Run(job, s, steps).returned ==> 0 < job.nReduce
    decreases |steps|
  {
    if steps != [] {
      ReturnNeedsReduceJobs(job, Apply(job, s, steps[0]), steps[1..]);
    }
  }

  lemma ReturnedMeansCounted(job: Job, splits: map<nat, string>, steps: seq<Step>)
    requires Reached(job, splits, steps).returned
    ensures var s := Reached(job, splits, steps);
      0 < job.nReduce == s.reduceCount && s.closes == 1 && 0 < job.nMap <= s.mapCount
  {
    ReachedInv(job, splits, steps);
    ReturnNeedsReduceJobs(job, Init(job, splits), steps);
  }

  /** Every job is queued, held by exactly one worker or finished; sends to the four buffered
      channels never exceed their capacity; `reduceStart` is closed at most once, and a
      reduce job is held only after every map job has finished; it finds all its files. */
  lemma JobsAreConserved(job: Job, splits: map<nat, string>, steps: seq<Step>)
    ensures var s := Reached(job, splits, steps);
      && Conserved(job.nMap, s.mapJobs, s.mapFinished, MapHeld(s.workers))
      && Conserved(job.nReduce, s.reduceJobs, s.reduceFinished, ReduceHeld(s.workers))
      && |s.mapJobs| <= job.nMap && s.mapDone <= job.nMap
      && |s.reduceJobs| <= job.nReduce && s.reduceDone <= job.nReduce
      && s.closes <= 1
  {
    var s := Reached(job, splits, steps);
    ReachedInv(job, splits, steps);
    Fits(job.nMap, s.mapJobs, s.mapFinished, MapHeld(s.workers));
    Fits(job.nReduce, s.reduceJobs, s.reduceFinished, ReduceHeld(s.workers));
  }

  lemma ReduceAfterAllMaps(job: Job, splits: map<nat, string>, steps: seq<Step>, w: nat)
    requires At(Reached(job, splits, steps), w).ReduceCall?
    ensures var s := Reached(job, splits, steps);
      && (forall j: nat | j < job.nMap :: j in s.mapFinished)
      && s.mapJobs == [] && MapHeld(s.workers) == map[]
      && DoReduce(job, s.files, At(s, w).j).Some?
  {
    var s := Reached(job, splits, steps);
    ReachedInv(job, splits, steps);
    Fits(job.nMap, s.mapJobs, s.mapFinished, MapHeld(s.workers));
    AllFinished(job.nMap, s.mapJobs, s.mapFinished, MapHeld(s.workers));
    assert ReduceHeld(s.workers)[w] == At(s, w).j;
    BarrierMeansMapped(job, splits, s, At(s, w).j);
  }
}
