/** When RunMaster can still return.  A worker whose call fails is gone, and so is one that
    finds the reduce queue empty for a moment; the last of them may leave a job behind. */
module MapReduceReturns {
  import opened Collections
  import opened JobPool
  import opened MapReduceJobs
  import opened MapReduceMaster

  lemma {:induction false} RunConcat(job: Job, s: Master, a: seq<Step>, b: seq<Step>)
    ensures Run(job, s, a + b) == Run(job, Run(job, s, a), b)
    decreases |a|
  {
    if a == [] {
      assert a + b == b;
    } else {
      assert (a + b)[1..] == a[1..] + b;
      RunConcat(job, Apply(job, s, a[0]), a[1..], b);
    }
  }

  lemma RunOne(job: Job, s: Master, step: Step)
    ensures Run(job, s, [step]) == Apply(job, s, step)
  {
    assert [step][1..] == [];
  }

  lemma RunTwo(job: Job, s: Master, x: Step, y: Step)
    ensures Run(job, s, [x, y]) == Apply(job, Apply(job, s, x), y)
  {
    assert [x, y][1..] == [y];
    RunOne(job, Apply(job, s, x), y);
  }

  predicate NoRegister(steps: seq<Step>) {
    forall k | 0 <= k < |steps| :: !steps[k].Register?
  }

  /** There is something to return for. */
  predicate Ready(job: Job, splits: map<nat, string>) {
    0 < job.nMap && 0 < job.nReduce && AllSplits(splits, job.nMap)
  }

  predicate Alive(s: Master, w: nat) {
    w in s.workers && !s.workers[w].Gone?
  }

  // ---- a call is carried out and succeeds ----

  lemma MapSucceeds(job: Job, splits: map<nat, string>, s: Master, v: nat) returns (more: seq<Step>)
    requires Inv(job, splits, s) && Ready(job, splits) && MapReduceMaster.At(s, v).MapCall?
    ensures NoRegister(more)
    ensures var t := Run(job, s, more);
      && t.workers == s.workers[v := Mapping] && |t.mapFinished| == |s.mapFinished| + 1
      && t.reduceFinished == s.reduceFinished && t.returned == s.returned
  {
    MapFindsSplit(job, splits, s, v);
    MapEffect(job, s, v);
    more := [Execute(v), Succeed(v)];
    RunTwo(job, s, Execute(v), Succeed(v));
  }

  lemma MapFindsSplit(job: Job, splits: map<nat, string>, s: Master, v: nat)
    requires Inv(job, splits, s) && Ready(job, splits) && MapReduceMaster.At(s, v).MapCall?
    ensures DoMap(job, s.files, MapReduceMaster.At(s, v).j).Some?
  {
    assert MapHeld(s.workers)[v] == MapReduceMaster.At(s, v).j;
  }

  lemma MapEffect(job: Job, s: Master, v: nat)
    requires MapReduceMaster.At(s, v).MapCall? && DoMap(job, s.files, MapReduceMaster.At(s, v).j).Some?
    ensures var t := DoSucceed(DoExecute(job, s, v), v);
      && t.workers == s.workers[v := Mapping] && |t.mapFinished| == |s.mapFinished| + 1
      && t.reduceFinished == s.reduceFinished && t.returned == s.returned
  {
  }

  lemma ReduceEffect(job: Job, s: Master, v: nat)
    requires MapReduceMaster.At(s, v).ReduceCall? && DoReduce(job, s.files, MapReduceMaster.At(s, v).j).Some?
    ensures var t := DoSucceed(DoExecute(job, s, v), v);
      && t.workers == s.workers[v := Reducing] && |t.reduceFinished| == |s.reduceFinished| + 1
      && t.closes == s.closes && t.returned == s.returned
  {
  }

  lemma ReduceFindsFiles(job: Job, splits: map<nat, string>, s: Master, v: nat)
    requires Inv(job, splits, s) && MapReduceMaster.At(s, v).ReduceCall?
    ensures DoReduce(job, s.files, MapReduceMaster.At(s, v).j).Some?
  {
    assert ReduceHeld(s.workers)[v] == MapReduceMaster.At(s, v).j;
    BarrierMeansMapped(job, splits, s, MapReduceMaster.At(s, v).j);
  }

  lemma ReduceSucceeds(job: Job, splits: map<nat, string>, s: Master, v: nat) returns (more: seq<Step>)
    requires Inv(job, splits, s) && Ready(job, splits) && MapReduceMaster.At(s, v).ReduceCall?
    ensures NoRegister(more)
    ensures var t := Run(job, s, more);
      && t.workers == s.workers[v := Reducing] && |t.reduceFinished| == |s.reduceFinished| + 1
      && t.closes == s.closes && t.returned == s.returned
  {
    ReduceFindsFiles(job, splits, s, v);
    ReduceEffect(job, s, v);
    more := [Execute(v), Succeed(v)];
    RunTwo(job, s, Execute(v), Succeed(v));
  }

  // ---- the map jobs ----

  lemma OneMapMore(job: Job, splits: map<nat, string>, s: Master, w: nat) returns (more: seq<Step>)
    requires Inv(job, splits, s) && Ready(job, splits) && Alive(s, w) && |s.mapFinished| < job.nMap
    ensures NoRegister(more)
    ensures var t := Run(job, s, more);
      && Alive(t, w) && |t.mapFinished| == |s.mapFinished| + 1
      && t.reduceFinished == s.reduceFinished && t.returned == s.returned
  {
    SomeLeft(job.nMap, s.mapJobs, s.mapFinished, MapHeld(s.workers));
    if MapHeld(s.workers) != map[] {
      var v := PickKey(MapHeld(s.workers));
      more := MapSucceeds(job, splits, s, v);
    } else {
      assert w !in MapHeld(s.workers);
      more := OneMapTaken(job, splits, s, w);
    }
  }

  lemma OneMapTaken(job: Job, splits: map<nat, string>, s: Master, w: nat) returns (more: seq<Step>)
    requires Inv(job, splits, s) && Ready(job, splits) && s.mapJobs != []
    requires w in s.workers && s.workers[w].Mapping?
    ensures NoRegister(more)
    ensures var t := Run(job, s, more);
      && Alive(t, w) && |t.mapFinished| == |s.mapFinished| + 1
      && t.reduceFinished == s.reduceFinished && t.returned == s.returned
  {
    RunOne(job, s, Take(w));
    RunKeepsInv(job, splits, s, [Take(w)]);
    var rest := MapSucceeds(job, splits, Apply(job, s, Take(w)), w);
    RunConcat(job, s, [Take(w)], rest);
    more := [Take(w)] + rest;
  }

  lemma {:induction false} AllMaps(job: Job, splits: map<nat, string>, s: Master, w: nat) returns (more: seq<Step>)
    requires Inv(job, splits, s) && Ready(job, splits) && Alive(s, w)
    ensures NoRegister(more)
    ensures var t := Run(job, s, more);
      && Alive(t, w) && |t.mapFinished| == job.nMap
      && t.reduceFinished == s.reduceFinished && t.returned == s.returned
    decreases job.nMap - |s.mapFinished|
  {
    Fits(job.nMap, s.mapJobs, s.mapFinished, MapHeld(s.workers));
    more := [];
    if |s.mapFinished| < job.nMap {
      var first := OneMapMore(job, splits, s, w);
      RunKeepsInv(job, splits, s, first);
      var rest := AllMaps(job, splits, Run(job, s, first), w);
      RunConcat(job, s, first, rest);
      more := first + rest;
    }
  }

  /** RunMaster counts them and closes the barrier. */
  lemma {:induction false} CountMaps(job: Job, splits: map<nat, string>, s: Master) returns (more: seq<Step>)
    requires Inv(job, splits, s) && Ready(job, splits) && !s.returned && |s.mapFinished| == job.nMap
    ensures NoRegister(more)
    ensures var t := Run(job, s, more);
      && t.closes == 1 && t.workers == s.workers && t.reduceFinished == s.reduceFinished && !t.returned
    decreases s.mapDone
  {
    more := [];
    if 0 < s.mapDone {
      RunOne(job, s, CountMap);
      RunKeepsInv(job, splits, s, [CountMap]);
      var rest := CountMaps(job, splits, Apply(job, s, CountMap));
      RunConcat(job, s, [CountMap], rest);
      more := [CountMap] + rest;
    }
  }

  // ---- the reduce jobs ----

  /** A worker without a call gets to the reduce queue and takes a job. */
  lemma TakesReduce(job: Job, splits: map<nat, string>, s: Master, w: nat) returns (more: seq<Step>)
    requires Inv(job, splits, s) && s.closes == 1 && s.reduceJobs != []
    requires w in s.workers && (s.workers[w].Mapping? || s.workers[w].Reducing?)
    ensures NoRegister(more)
    ensures var t := Run(job, s, more);
      && t.workers == s.workers[w := ReduceCall(s.reduceJobs[0], false)] && t.closes == 1
      && t.reduceFinished == s.reduceFinished && t.returned == s.returned
  {
    if s.workers[w].Mapping? {
      RunTwo(job, s, EnterReduce(w), Take(w));
      more := [EnterReduce(w), Take(w)];
    } else {
      RunOne(job, s, Take(w));
      more := [Take(w)];
    }
  }

  lemma OneReduceMore(job: Job, splits: map<nat, string>, s: Master, w: nat) returns (more: seq<Step>)
    requires Inv(job, splits, s) && Ready(job, splits) && Alive(s, w) && s.closes == 1
    requires |s.reduceFinished| < job.nReduce
    ensures NoRegister(more)
    ensures var t := Run(job, s, more);
      && Alive(t, w) && |t.reduceFinished| == |s.reduceFinished| + 1 && t.closes == 1 && t.returned == s.returned
  {
    SomeLeft(job.nReduce, s.reduceJobs, s.reduceFinished, ReduceHeld(s.workers));
    if ReduceHeld(s.workers) != map[] {
      var v := PickKey(ReduceHeld(s.workers));
      more := ReduceSucceeds(job, splits, s, v);
    } else {
      Fits(job.nMap, s.mapJobs, s.mapFinished, MapHeld(s.workers));
      AllFinished(job.nMap, s.mapJobs, s.mapFinished, MapHeld(s.workers));
      assert w !in MapHeld(s.workers) && w !in ReduceHeld(s.workers);
      more := OneReduceTaken(job, splits, s, w);
    }
  }

  lemma OneReduceTaken(job: Job, splits: map<nat, string>, s: Master, w: nat) returns (more: seq<Step>)
    requires Inv(job, splits, s) && Ready(job, splits) && s.closes == 1 && s.reduceJobs != []
    requires w in s.workers && (s.workers[w].Mapping? || s.workers[w].Reducing?)
    ensures NoRegister(more)
    ensures var t := Run(job, s, more);
      && Alive(t, w) && |t.reduceFinished| == |s.reduceFinished| + 1 && t.closes == 1 && t.returned == s.returned
  {
    var first := TakesReduce(job, splits, s, w);
    RunKeepsInv(job, splits, s, first);
    var rest := ReduceSucceeds(job, splits, Run(job, s, first), w);
    RunConcat(job, s, first, rest);
    more := first + rest;
  }

  lemma {:induction false} AllReduces(job: Job, splits: map<nat, string>, s: Master, w: nat) returns (more: seq<Step>)
    requires Inv(job, splits, s) && Ready(job, splits) && Alive(s, w) && s.closes == 1
    ensures NoRegister(more)
    ensures var t := Run(job, s, more); |t.reduceFinished| == job.nReduce && t.returned == s.returned
    decreases job.nReduce - |s.reduceFinished|
  {
    Fits(job.nReduce, s.reduceJobs, s.reduceFinished, ReduceHeld(s.workers));
    more := [];
    if |s.reduceFinished| < job.nReduce {
      var first := OneReduceMore(job, splits, s, w);
      RunKeepsInv(job, splits, s, first);
      var rest := AllReduces(job, splits, Run(job, s, first), w);
      RunConcat(job, s, first, rest);
      more := first + rest;
    }
  }

  /** RunMaster counts them and returns. */
  lemma {:induction false} CountReduces(job: Job, splits: map<nat, string>, s: Master) returns (more: seq<Step>)
    requires Inv(job, splits, s) && Ready(job, splits) && |s.reduceFinished| == job.nReduce
    ensures NoRegister(more) && Run(job, s, more).returned
    decreases s.reduceDone
  {
    more := [];
    if !s.returned {
      RunOne(job, s, CountReduce);
      RunKeepsInv(job, splits, s, [CountReduce]);
      var rest := CountReduces(job, splits, Apply(job, s, CountReduce));
      RunConcat(job, s, [CountReduce], rest);
      more := [CountReduce] + rest;
    }
  }

  // ---- returning ----

  /** Nothing is left to do but count, or somebody is left to do it. */
  ghost predicate Helped(job: Job, s: Master) {
    |s.reduceFinished| == job.nReduce || exists w :: Alive(s, w)
  }

  lemma Returns(job: Job, splits: map<nat, string>, s: Master) returns (more: seq<Step>)
    requires Inv(job, splits, s) && Ready(job, splits) && !s.returned && Helped(job, s)
    ensures NoRegister(more) && Run(job, s, more).returned
  {
    if |s.reduceFinished| == job.nReduce {
      more := CountReduces(job, splits, s);
    } else {
      var w :| Alive(s, w);
      var m1 := AllMaps(job, splits, s, w);
      var s1 := Run(job, s, m1);
      RunKeepsInv(job, splits, s, m1);
      var m2 := CountMaps(job, splits, s1);
      var s2 := Run(job, s1, m2);
      RunKeepsInv(job, splits, s1, m2);
      var m3 := ReducesAndReturns(job, splits, s2, w);
      RunConcat(job, s1, m2, m3);
      RunConcat(job, s, m1, m2 + m3);
      more := m1 + (m2 + m3);
    }
  }

  lemma ReducesAndReturns(job: Job, splits: map<nat, string>, s: Master, w: nat) returns (more: seq<Step>)
    requires Inv(job, splits, s) && Ready(job, splits) && Alive(s, w) && s.closes == 1
    ensures NoRegister(more) && Run(job, s, more).returned
  {
    var first := AllReduces(job, splits, s, w);
    RunKeepsInv(job, splits, s, first);
    var second := CountReduces(job, splits, Run(job, s, first));
    RunConcat(job, s, first, second);
    more := first + second;
  }

  // ---- hanging ----

  lemma Then(job: Job, splits: map<nat, string>, steps: seq<Step>, s: Master, step: Step)
    returns (steps': seq<Step>, s': Master)
    requires s == Reached(job, splits, steps)
    ensures s' == Reached(job, splits, steps') == Apply(job, s, step)
  {
    RunConcat(job, Init(job, splits), steps, [step]);
    RunOne(job, s, step);
    steps', s' := steps + [step], Apply(job, s, step);
  }

  /** Two workers, and the only map job is done and counted. */
  lemma OneMapDone(job: Job, splits: map<nat, string>) returns (steps: seq<Step>, s: Master)
    requires job.nMap == 1 && job.nReduce == 1 && Ready(job, splits)
    ensures s == Reached(job, splits, steps) && !s.returned && s.closes == 1
    ensures s.workers == map[0 := Mapping, 1 := Mapping] && s.reduceJobs == [0] && s.reduceFinished == []
  {
    steps, s := [], Init(job, splits);
    steps, s := Then(job, splits, steps, s, Register(0));
    steps, s := Then(job, splits, steps, s, Register(1));
    steps, s := Then(job, splits, steps, s, Take(0));
    assert s.workers == map[0 := MapCall(0, false), 1 := Mapping];
    MapEffect(job, s, 0);
    var t := s;
    steps, s := Then(job, splits, steps, s, Execute(0));
    steps, s := Then(job, splits, steps, s, Succeed(0));
    assert s == DoSucceed(DoExecute(job, t, 0), 0);
    steps, s := Then(job, splits, steps, s, CountMap);
  }

  /** Both workers pass the barrier, one takes the only reduce job, the other finds the queue
      empty and leaves, and then the call fails. */
  lemma LastWorkerIsLost(job: Job, splits: map<nat, string>) returns (steps: seq<Step>)
    requires job.nMap == 1 && job.nReduce == 1 && Ready(job, splits)
    ensures var s := Reached(job, splits, steps);
      !s.returned && !Helped(job, s) && s.reduceJobs == [0]
  {
    var s;
    steps, s := OneMapDone(job, splits);
    steps, s := Then(job, splits, steps, s, EnterReduce(0));
    steps, s := Then(job, splits, steps, s, EnterReduce(1));
    steps, s := Then(job, splits, steps, s, Take(0));
    assert s.reduceJobs == [] && s.workers == map[0 := ReduceCall(0, false), 1 := Reducing];
    steps, s := Then(job, splits, steps, s, Quit(1));
    steps, s := Then(job, splits, steps, s, Fail(0));
    assert s.workers == map[0 := Gone, 1 := Gone];
  }

  /** With every worker gone nothing more gets done. */
  lemma {:induction false} HangsForEver(job: Job, splits: map<nat, string>, s: Master, more: seq<Step>)
    requires Inv(job, splits, s) && !Helped(job, s) && !s.returned && 0 < job.nReduce && NoRegister(more)
    ensures !Run(job, s, more).returned
    decreases |more|
  {
    if more != [] {
      var t := Apply(job, s, more[0]);
      RunOne(job, s, more[0]);
      RunKeepsInv(job, splits, s, [more[0]]);
      GoneStaysGone(job, s, more[0]);
      Fits(job.nReduce, t.reduceJobs, t.reduceFinished, ReduceHeld(t.workers));
      assert forall k | 0 <= k < |more| - 1 :: more[1..][k] == more[k + 1];
      HangsForEver(job, splits, t, more[1..]);
    }
  }

  lemma GoneStaysGone(job: Job, s: Master, step: Step)
    requires !step.Register? && forall w :: !Alive(s, w)
    ensures var t := Apply(job, s, step);
      t.workers == s.workers && t.reduceFinished == s.reduceFinished && forall w :: !Alive(t, w)
  {
    var t := Apply(job, s, step);
    match step {
      case Take(w) => assert !Alive(s, w);
      case Execute(w) => assert !Alive(s, w);
      case Succeed(w) => assert !Alive(s, w);
      case Fail(w) => assert !Alive(s, w);
      case EnterReduce(w) => assert !Alive(s, w);
      case Quit(w) => assert !Alive(s, w);
      case _ =>
    }
    forall w ensures !Alive(t, w) {
      assert t.workers == s.workers && !Alive(s, w);
    }
  }

  ghost predicate CanReturnAlone(job: Job, s: Master) {
    exists more :: NoRegister(more) && Run(job, s, more).returned
  }

  ghost predicate CanReturn(job: Job, s: Master) {
    exists more :: Run(job, s, more).returned
  }

  lemma ReturningNeedsReady(job: Job, splits: map<nat, string>, steps: seq<Step>, more: seq<Step>)
    requires Run(job, Reached(job, splits, steps), more).returned
    ensures Ready(job, splits)
  {
    RunConcat(job, Init(job, splits), steps, more);
    DistributedEqualsSequential(job, splits, steps + more);
  }

  /** From every reachable state, without a further registration: RunMaster can still return iff
      there is something to do, no split is missing, and all reduce jobs have succeeded or some
      worker is left. */
  lemma ReturnsAloneIff(job: Job, splits: map<nat, string>, steps: seq<Step>)
    requires !Reached(job, splits, steps).returned
    ensures CanReturnAlone(job, Reached(job, splits, steps)) <==>
      Ready(job, splits) && Helped(job, Reached(job, splits, steps))
  {
    var s := Reached(job, splits, steps);
    ReachedInv(job, splits, steps);
    if Ready(job, splits) && Helped(job, s) {
      var more := Returns(job, splits, s);
    } else {
      forall more | NoRegister(more) ensures !Run(job, s, more).returned {
        if Run(job, s, more).returned {
          ReturningNeedsReady(job, splits, steps, more);
          HangsForEver(job, splits, s, more);
        }
      }
    }
  }

  /** With late registrations it can, from every reachable state, iff there is something to do
      and no split is missing. */
  lemma ReturnsIff(job: Job, splits: map<nat, string>, steps: seq<Step>)
    requires !Reached(job, splits, steps).returned
    ensures CanReturn(job, Reached(job, splits, steps)) <==> Ready(job, splits)
  {
    var s := Reached(job, splits, steps);
    ReachedInv(job, splits, steps);
    if Ready(job, splits) {
      var keys := set k | k in s.workers :: k as int;
      var w: nat := Above(keys);
      assert w in s.workers ==> w as int in keys;
      RunOne(job, s, Register(w));
      RunKeepsInv(job, splits, s, [Register(w)]);
      assert Alive(Apply(job, s, Register(w)), w);
      var rest := Returns(job, splits, Apply(job, s, Register(w)));
      RunConcat(job, s, [Register(w)], rest);
    } else {
      forall more ensures !Run(job, s, more).returned {
        if Run(job, s, more).returned {
          ReturningNeedsReady(job, splits, steps, more);
        }
      }
    }
  }
}
