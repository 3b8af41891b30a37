/** The jobs as the program runs them: loops over files and lists that are updated in place. */
module MapReduceFiles {
  import opened Collections
  import opened Sorting
  import opened MapReduceJobs

  class MapReduce {
    const job: Job

    var splits: map<nat, string>
    var inter: map<(nat, nat), seq<KeyValue>>
    var results: map<nat, seq<KeyValue>>
    var output: Option<seq<KeyValue>>

    ghost function State(): Files
      reads this
    {
      Files(splits, inter, results)
    }

    constructor (job: Job, splits: map<nat, string>)
      ensures this.job == job && State() == Files(splits, map[], map[]) && output == None
    {
      this.job := job;
      this.splits, inter, results, output := splits, map[], map[], None;
    }

    /** The loop over the list that Map returned, for one of the files. */
    method Encode(kvs: seq<KeyValue>, r: nat) returns (file: seq<KeyValue>)
      requires r < job.nReduce
      ensures file == Partition(job, kvs, r)
    {
      file := [];
      for i := 0 to |kvs|
        invariant file == Partition(job, kvs[..i], r)
      {
        assert kvs[..i + 1][..i] == kvs[..i];
        if Part(job, kvs[i].key) == r {
          file := file + [kvs[i]];
        }
      }
      assert kvs[..|kvs|] == kvs;
    }

    lemma NoFiles(before: map<(nat, nat), seq<KeyValue>>, j: nat, kvs: seq<KeyValue>)
      ensures before == before + PartitionFiles(job, j, kvs, 0)
    {
    }

    lemma OneMoreFile(before: map<(nat, nat), seq<KeyValue>>, j: nat, kvs: seq<KeyValue>, r: nat)
      requires r < job.nReduce
      ensures before + PartitionFiles(job, j, kvs, r + 1)
           == (before + PartitionFiles(job, j, kvs, r))[(j, r) := Partition(job, kvs, r)]
    {
      assert PartitionFiles(job, j, kvs, r + 1)
          == PartitionFiles(job, j, kvs, r)[(j, r) := Partition(job, kvs, r)];
    }

    method RunMap(j: nat) returns (ok: bool)
      modifies this
      ensures ok <==> DoMap(job, old(State()), j).Some?
      ensures ok ==> State() == DoMap(job, old(State()), j).value
      ensures !ok ==> State() == old(State())
      ensures output == old(output)
    {
      if j !in splits {
        return false;
      }
      var res := job.mapF(splits[j]);
      NoFiles(inter, j, res);
      for r := 0 to job.nReduce
        invariant inter == old(inter) + PartitionFiles(job, j, res, r)
        invariant splits == old(splits) && results == old(results) && output == old(output)
      {
        var file := Encode(res, r);
        OneMoreFile(old(inter), j, res, r);
        inter := inter[(j, r) := file];
      }
      ok := true;
    }

    /** `kvs[key]` lists the values of `key` among the pairs read so far. */
    ghost predicate Grouped(kvs: map<string, seq<string>>, seen: seq<KeyValue>) {
      kvs.Keys == KeysOf(seen) && forall k | k in kvs :: kvs[k] == ValuesOf(seen, k)
    }

    lemma NothingSeen()
      ensures Grouped(map[], [])
    {
    }

    lemma SeenOneMore(kvs: map<string, seq<string>>, seen: seq<KeyValue>, kv: KeyValue)
      requires Grouped(kvs, seen)
      ensures Grouped(kvs[kv.key := (if kv.key in kvs then kvs[kv.key] else []) + [kv.value]], seen + [kv])
    {
      KeysSnoc(seen, kv);
      assert (seen + [kv])[..|seen|] == seen;
      if kv.key !in kvs {
        AbsentHasNoValues(seen, kv.key);
      }
    }

    lemma {:induction false} AbsentHasNoValues(seen: seq<KeyValue>, k: string)
      requires k !in KeysOf(seen)
      ensures ValuesOf(seen, k) == []
      decreases |seen|
    {
      if seen != [] {
        assert seen[|seen| - 1] in seen;
        KeysSnoc(seen[..|seen| - 1], seen[|seen| - 1]);
        assert seen == seen[..|seen| - 1] + [seen[|seen| - 1]];
        AbsentHasNoValues(seen[..|seen| - 1], k);
      }
    }

    /** The decoding loop over one intermediate file. */
    method Decode(file: seq<KeyValue>, before: map<string, seq<string>>, ghost seen: seq<KeyValue>)
      returns (kvs: map<string, seq<string>>)
      requires Grouped(before, seen)
      ensures Grouped(kvs, seen + file)
    {
      kvs := before;
      ghost var read := seen;
      assert seen + file[..0] == seen;
      for i := 0 to |file|
        invariant read == seen + file[..i] && Grouped(kvs, read)
      {
        var kv := file[i];
        SeenOneMore(kvs, read, kv);
        read := read + [kv];
        assert file[..i + 1] == file[..i] + [kv];
        if kv.key !in kvs {
          kvs := kvs[kv.key := []];
        }
        kvs := kvs[kv.key := kvs[kv.key] + [kv.value]];
      }
      assert read == seen + file;
    }

    method RunReduce(r: nat) returns (ok: bool)
      modifies this
      ensures ok <==> DoReduce(job, old(State()), r).Some?
      ensures ok ==> State() == DoReduce(job, old(State()), r).value
      ensures !ok ==> State() == old(State())
      ensures output == old(output)
    {
      var kvs: map<string, seq<string>> := map[];
      NothingSeen();
      for i := 0 to job.nMap
        invariant Gatherable(State(), r, i) && Grouped(kvs, Gathered(State(), r, i))
        invariant State() == old(State()) && output == old(output)
      {
        if (i, r) !in inter {
          return false;
        }
        kvs := Decode(inter[(i, r)], kvs, Gathered(State(), r, i));
      }
      var file := WriteReduced(kvs, Gathered(State(), r, job.nMap));
      results := results[r := file];
      ok := true;
    }

    /** Sort the keys and call Reduce once for each. */
    method WriteReduced(kvs: map<string, seq<string>>, ghost seen: seq<KeyValue>) returns (file: seq<KeyValue>)
      requires Grouped(kvs, seen)
      ensures file == Reduced(job, seen)
    {
      var keys := SortStrings(kvs.Keys);
      file := [];
      for i := 0 to |keys|
        invariant |file| == i
        invariant forall n | 0 <= n < i ::
          keys[n] in kvs && file[n] == KeyValue(keys[n], job.reduceF(keys[n], kvs[keys[n]]))
      {
        assert keys[i] in Elements(keys);
        file := file + [KeyValue(keys[i], job.reduceF(keys[i], kvs[keys[i]]))];
      }
      IsReduced(kvs, seen, keys, file);
    }

    lemma IsReduced(kvs: map<string, seq<string>>, seen: seq<KeyValue>, keys: seq<string>, file: seq<KeyValue>)
      requires Grouped(kvs, seen) && keys == SortKeys(KeysOf(seen)) && |file| == |keys|
      requires forall n | 0 <= n < |keys| ::
        keys[n] in kvs && file[n] == KeyValue(keys[n], job.reduceF(keys[n], kvs[keys[n]]))
      ensures file == Reduced(job, seen)
    {
    }

    /** The loop of Merge over one result file. */
    method Absorb(file: seq<KeyValue>, before: map<string, string>) returns (kvs: map<string, string>)
      ensures kvs == Overwrite(before, file)
    {
      kvs := before;
      for i := 0 to |file|
        invariant kvs == Overwrite(before, file[..i])
      {
        assert file[..i + 1][..i] == file[..i];
        kvs := kvs[file[i].key := file[i].value];
      }
      assert file[..|file|] == file;
    }

    method RunMerge() returns (ok: bool)
      modifies this
      ensures State() == old(State())
      ensures ok <==> Merge(job, State()).Some?
      ensures output == if ok then Merge(job, State()) else old(output)
    {
      var kvs: map<string, string> := map[];
      for i := 0 to job.nReduce
        invariant Mergeable(State(), i) && kvs == Merged(State(), i)
        invariant State() == old(State()) && output == old(output)
      {
        if i !in results {
          return false;
        }
        kvs := Absorb(results[i], kvs);
      }
      var lines := WriteLines(kvs);
      output := Some(lines);
      ok := true;
    }

    /** The last loop of Merge: the keys in order, each with its value. */
    method WriteLines(kvs: map<string, string>) returns (lines: seq<KeyValue>)
      ensures lines == Listing(kvs)
    {
      var keys := SortStrings(kvs.Keys);
      lines := [];
      for i := 0 to |keys|
        invariant |lines| == i
        invariant forall n | 0 <= n < i :: keys[n] in kvs && lines[n] == KeyValue(keys[n], kvs[keys[n]])
      {
        assert keys[i] in Elements(keys);
        lines := lines + [KeyValue(keys[i], kvs[keys[i]])];
      }
    }

    /** RunSingle, after Split. */
    method RunAll() returns (ok: bool)
      requires 0 < job.nReduce && inter == map[] && results == map[]
      modifies this
      ensures ok <==> AllSplits(splits, job.nMap)
      ensures ok ==> output == Some(GroupBy(job, splits))
      ensures splits == old(splits)
    {
      NothingDone(job, splits);
      for i := 0 to job.nMap
        invariant MapsDone(job, splits, State(), i) && AllSplits(splits, i) && splits == old(splits)
      {
        DoMapsNext(job, splits, State(), i);
        ok := RunMap(i);
        if !ok {
          return;
        }
      }
      NoReduceDone(job, splits, State());
      for i := 0 to job.nReduce
        invariant ReducesDone(job, splits, State(), i) && splits == old(splits)
      {
        OneMoreReduce(job, splits, State(), i);
        ok := RunReduce(i);
      }
      MergeIsGroupBy(job, State());
      ok := RunMerge();
    }
  }
}
