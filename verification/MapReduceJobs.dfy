/** The data side of MapReduce: what a map job, a reduce job and the merge write, given the
    files that are there.  JSON files are sequences of pairs; a job that finds a file missing
    stops the process before it has written anything. */
module MapReduceJobs {
  import opened Collections
  import opened Sorting

  datatype KeyValue = KeyValue(key: string, value: string)

  datatype Job = Job(
    nMap: nat, nReduce: nat,
    mapF: string -> seq<KeyValue>,
    reduceF: (string, seq<string>) -> string,
    hash: string -> nat)

  /** `f-<m>`, `f-<m>-<r>` and `f-res-<r>`. */
  datatype Files = Files(
    splits: map<nat, string>,
    inter: map<(nat, nat), seq<KeyValue>>,
    results: map<nat, seq<KeyValue>>)

  /** The contents of a file; nothing for one that does not exist. */
  function At<K, T>(files: map<K, seq<T>>, k: K): seq<T> {
    if k in files then files[k] else []
  }

  // ---- the specification: group by key ----

  function Part(job: Job, key: string): (r: nat)
    requires 0 < job.nReduce
    ensures r < job.nReduce
  {
    job.hash(key) % job.nReduce
  }

  function Partition(job: Job, kvs: seq<KeyValue>, r: nat): seq<KeyValue>
    requires 0 < job.nReduce
  {
    if kvs == [] then []
    else
      var kv := kvs[|kvs| - 1];
      Partition(job, kvs[..|kvs| - 1], r) + (if Part(job, kv.key) == r then [kv] else [])
  }

  function ValuesOf(kvs: seq<KeyValue>, key: string): seq<string> {
    if kvs == [] then []
    else
      var kv := kvs[|kvs| - 1];
      ValuesOf(kvs[..|kvs| - 1], key) + (if kv.key == key then [kv.value] else [])
  }

  function KeysOf(kvs: seq<KeyValue>): set<string> {
    set kv | kv in kvs :: kv.key
  }

  /** What all map jobs emit, in the order of the jobs. */
  function Emitted(job: Job, splits: map<nat, string>, n: nat): seq<KeyValue> {
    if n == 0 then []
    else Emitted(job, splits, n - 1) + (if n - 1 in splits then job.mapF(splits[n - 1]) else [])
  }

  /** One pair per key, in increasing order of the keys. */
  ghost function Reduced(job: Job, kvs: seq<KeyValue>): seq<KeyValue> {
    var keys := SortKeys(KeysOf(kvs));
    seq(|keys|, i requires 0 <= i < |keys| => KeyValue(keys[i], job.reduceF(keys[i], ValuesOf(kvs, keys[i]))))
  }

  ghost function GroupBy(job: Job, splits: map<nat, string>): seq<KeyValue> {
    Reduced(job, Emitted(job, splits, job.nMap))
  }

  // ---- what the jobs do ----

  /** The first `n` files of map job `j`. */
  function PartitionFiles(job: Job, j: nat, kvs: seq<KeyValue>, n: nat): map<(nat, nat), seq<KeyValue>>
    requires n <= job.nReduce
  {
    map r: nat | r < n :: (j, r) := Partition(job, kvs, r)
  }

  function DoMap(job: Job, f: Files, j: nat): Option<Files> {
    if j in f.splits
    then Some(f.(inter := f.inter + PartitionFiles(job, j, job.mapF(f.splits[j]), job.nReduce)))
    else None
  }

  function Gathered(f: Files, r: nat, n: nat): seq<KeyValue> {
    if n == 0 then [] else Gathered(f, r, n - 1) + At(f.inter, (n - 1, r))
  }

  predicate Gatherable(f: Files, r: nat, n: nat) {
    forall i: nat | i < n :: (i, r) in f.inter
  }

  ghost function DoReduce(job: Job, f: Files, r: nat): Option<Files> {
    if Gatherable(f, r, job.nMap)
    then Some(f.(results := f.results[r := Reduced(job, Gathered(f, r, job.nMap))]))
    else None
  }

  /** The first `n` map jobs have written all their files. */
  predicate AllGatherable(job: Job, f: Files, n: nat) {
    forall i: nat, q: nat | i < n && q < job.nReduce :: (i, q) in f.inter
  }

  function Overwrite(m: map<string, string>, kvs: seq<KeyValue>): map<string, string> {
    if kvs == [] then m
    else Overwrite(m, kvs[..|kvs| - 1])[kvs[|kvs| - 1].key := kvs[|kvs| - 1].value]
  }

  function Merged(f: Files, n: nat): map<string, string> {
    if n == 0 then map[] else Overwrite(Merged(f, n - 1), At(f.results, n - 1))
  }

  predicate Mergeable(f: Files, n: nat) {
    forall r: nat | r < n :: r in f.results
  }

  ghost function Listing(m: map<string, string>): seq<KeyValue> {
    var keys := SortKeys(m.Keys);
    seq(|keys|, i requires 0 <= i < |keys| => assert keys[i] in Elements(keys); KeyValue(keys[i], m[keys[i]]))
  }

  ghost function Merge(job: Job, f: Files): Option<seq<KeyValue>> {
    if Mergeable(f, job.nReduce)
    then Some(Listing(Merged(f, job.nReduce)))
    else None
  }

  // ---- the jobs one after the other ----

  function DoMaps(job: Job, f: Files, n: nat): Option<Files> {
    if n == 0 then Some(f)
    else match DoMaps(job, f, n - 1)
      case None => None
      case Some(g) => DoMap(job, g, n - 1)
  }

  ghost function DoReduces(job: Job, f: Files, n: nat): Option<Files> {
    if n == 0 then Some(f)
    else match DoReduces(job, f, n - 1)
      case None => None
      case Some(g) => DoReduce(job, g, n - 1)
  }

  ghost function RunSingle(job: Job, splits: map<nat, string>): Option<seq<KeyValue>> {
    match DoMaps(job, Files(splits, map[], map[]), job.nMap)
    case None => None
    case Some(f) =>
      match DoReduces(job, f, job.nReduce)
      case None => None
      case Some(g) => Merge(job, g)
  }

  // ---- partitioning loses and reorders nothing ----

  lemma {:induction false} PartitionConcat(job: Job, a: seq<KeyValue>, b: seq<KeyValue>, r: nat)
    requires 0 < job.nReduce
    ensures Partition(job, a + b, r) == Partition(job, a, r) + Partition(job, b, r)
    decreases |b|
  {
    if b == [] {
      assert a + b == a;
    } else {
      assert (a + b)[..|a + b| - 1] == a + b[..|b| - 1];
      PartitionConcat(job, a, b[..|b| - 1], r);
    }
  }

  /** A pair goes to the partition that the hash of its key selects. */
  lemma PartitionOne(job: Job, kv: KeyValue, r: nat)
    requires 0 < job.nReduce
    ensures Partition(job, [kv], r) == if job.hash(kv.key) % job.nReduce == r then [kv] else []
  {
    assert [kv][..0] == [];
  }

  /** A key's values all stay, in their order, in the key's own partition. */
  lemma {:induction false} PartitionValues(job: Job, kvs: seq<KeyValue>, key: string)
    requires 0 < job.nReduce
    ensures ValuesOf(Partition(job, kvs, Part(job, key)), key) == ValuesOf(kvs, key)
    decreases |kvs|
  {
    if kvs != [] {
      var init, kv := kvs[..|kvs| - 1], kvs[|kvs| - 1];
      var r := Part(job, key);
      PartitionValues(job, init, key);
      if Part(job, kv.key) == r {
        var parted := Partition(job, kvs, r);
        assert parted[..|parted| - 1] == Partition(job, init, r);
      } else {
        assert Partition(job, kvs, r) == Partition(job, init, r);
      }
    }
  }

  lemma {:induction false} PartitionKeys(job: Job, kvs: seq<KeyValue>, r: nat)
    requires 0 < job.nReduce
    ensures KeysOf(Partition(job, kvs, r)) == set k | k in KeysOf(kvs) && job.hash(k) % job.nReduce == r
    decreases |kvs|
  {
    if kvs != [] {
      var init, kv := kvs[..|kvs| - 1], kvs[|kvs| - 1];
      PartitionKeys(job, init, r);
      KeysSnoc(init, kv);
      assert kvs == init + [kv];
      KeysSnoc(Partition(job, init, r), kv);
      var parted := Partition(job, init, r);
      assert Partition(job, kvs, r) == if Part(job, kv.key) == r then parted + [kv] else parted;
    }
  }

  lemma KeysSnoc(kvs: seq<KeyValue>, kv: KeyValue)
    ensures KeysOf(kvs + [kv]) == KeysOf(kvs) + {kv.key}
  {
    assert kv in kvs + [kv];
    forall x | x in kvs ensures x in kvs + [kv] {}
  }

  /** The intermediate files of partition `r` hold, together, partition `r` of everything. */
  ghost predicate MapFilesOk(job: Job, f: Files)
    requires 0 < job.nReduce
  {
    forall j, r | (j, r) in f.inter :: j in f.splits && r < job.nReduce &&
      f.inter[(j, r)] == Partition(job, job.mapF(f.splits[j]), r)
  }

  lemma {:induction false} GatheredIsPartition(job: Job, f: Files, r: nat, n: nat)
    requires 0 < job.nReduce && MapFilesOk(job, f) && Gatherable(f, r, n)
    ensures Gathered(f, r, n) == Partition(job, Emitted(job, f.splits, n), r)
  {
    if n > 0 {
      GatheredIsPartition(job, f, r, n - 1);
      assert (n - 1, r) in f.inter;
      PartitionConcat(job, Emitted(job, f.splits, n - 1), job.mapF(f.splits[n - 1]), r);
    }
  }

  // ---- merging the results of the partitions ----

  lemma {:induction false} OverwriteKeys(m: map<string, string>, kvs: seq<KeyValue>)
    ensures Overwrite(m, kvs).Keys == m.Keys + KeysOf(kvs)
    decreases |kvs|
  {
    if kvs != [] {
      var init, kv := kvs[..|kvs| - 1], kvs[|kvs| - 1];
      OverwriteKeys(m, init);
      KeysSnoc(init, kv);
      assert kvs == init + [kv];
    }
  }

  lemma {:induction false} OverwriteOther(m: map<string, string>, kvs: seq<KeyValue>, k: string)
    requires k in m && forall i | 0 <= i < |kvs| :: kvs[i].key != k
    ensures k in Overwrite(m, kvs) && Overwrite(m, kvs)[k] == m[k]
    decreases |kvs|
  {
    if kvs != [] {
      OverwriteOther(m, kvs[..|kvs| - 1], k);
    }
  }

  lemma {:induction false} OverwriteAt(m: map<string, string>, kvs: seq<KeyValue>, i: nat)
    requires i < |kvs| && forall j | i < j < |kvs| :: kvs[j].key != kvs[i].key
    ensures kvs[i].key in Overwrite(m, kvs) && Overwrite(m, kvs)[kvs[i].key] == kvs[i].value
    decreases |kvs|
  {
    if i < |kvs| - 1 {
      OverwriteAt(m, kvs[..|kvs| - 1], i);
    }
  }

  /** Where a key is listed more than once, the last file and in it the last pair prevails. */
  lemma {:induction false} LastPrevails(f: Files, n: nat, r: nat, i: nat)
    requires r < n && i < |At(f.results, r)|
    requires forall j | i < j < |At(f.results, r)| :: At(f.results, r)[j].key != At(f.results, r)[i].key
    requires forall q: nat, j | r < q < n && 0 <= j < |At(f.results, q)| ::
      At(f.results, q)[j].key != At(f.results, r)[i].key
    ensures var kv := At(f.results, r)[i]; kv.key in Merged(f, n) && Merged(f, n)[kv.key] == kv.value
  {
    if r == n - 1 {
      OverwriteAt(Merged(f, n - 1), At(f.results, r), i);
    } else {
      var q: nat := n - 1;
      LastPrevails(f, q, r, i);
      OverwriteOther(Merged(f, q), At(f.results, q), At(f.results, r)[i].key);
    }
  }

  lemma ReducedKeys(job: Job, kvs: seq<KeyValue>)
    ensures KeysOf(Reduced(job, kvs)) == KeysOf(kvs)
    ensures forall i, j | 0 <= i < j < |Reduced(job, kvs)| :: Less(Reduced(job, kvs)[i].key, Reduced(job, kvs)[j].key)
    ensures forall i, j | 0 <= i < j < |Reduced(job, kvs)| :: Reduced(job, kvs)[i].key != Reduced(job, kvs)[j].key
    ensures forall i | 0 <= i < |Reduced(job, kvs)| ::
      Reduced(job, kvs)[i].value == job.reduceF(Reduced(job, kvs)[i].key, ValuesOf(kvs, Reduced(job, kvs)[i].key))
  {
    var keys, out := SortKeys(KeysOf(kvs)), Reduced(job, kvs);
    forall k ensures k in KeysOf(out) <==> k in Elements(keys) {
      if k in KeysOf(out) {
        var kv :| kv in out && kv.key == k;
        var i :| 0 <= i < |out| && out[i] == kv;
        assert keys[i] == k;
      }
      if k in Elements(keys) {
        var i :| 0 <= i < |keys| && keys[i] == k;
        assert out[i].key == k && out[i] in out;
      }
    }
    forall i, j | 0 <= i < j < |out| ensures out[i].key != out[j].key {
      LessIrreflexive(keys[i]);
    }
  }

  /** Every result file holds the group-by of its own partition. */
  ghost function PartOutput(job: Job, all: seq<KeyValue>, r: nat): seq<KeyValue>
    requires 0 < job.nReduce
  {
    Reduced(job, Partition(job, all, r))
  }

  ghost predicate ResultsOf(job: Job, results: map<nat, seq<KeyValue>>, all: seq<KeyValue>)
    requires 0 < job.nReduce
  {
    forall r | r in results :: results[r] == PartOutput(job, all, r)
  }

  ghost predicate ResultFilesOk(job: Job, f: Files)
    requires 0 < job.nReduce
  {
    ResultsOf(job, f.results, Emitted(job, f.splits, job.nMap))
  }

  /** `out` lists the part of `vals` whose keys are `keys`, each key once. */
  ghost predicate Lists(out: seq<KeyValue>, vals: map<string, string>, keys: set<string>) {
    && KeysOf(out) == keys && keys <= vals.Keys
    && (forall i, j | 0 <= i < j < |out| :: out[i].key != out[j].key)
    && (forall i | 0 <= i < |out| :: out[i].key in vals && out[i].value == vals[out[i].key])
  }

  ghost predicate Restricts(m: map<string, string>, vals: map<string, string>, keys: set<string>) {
    m.Keys == keys && keys <= vals.Keys && forall k | k in m :: m[k] == vals[k]
  }

  lemma OverwriteRestricts(m: map<string, string>, out: seq<KeyValue>, vals: map<string, string>,
                           keys: set<string>, more: set<string>)
    requires Restricts(m, vals, keys) && Lists(out, vals, more)
    ensures Restricts(Overwrite(m, out), vals, keys + more)
  {
    OverwriteKeys(m, out);
    var m' := Overwrite(m, out);
    forall k | k in m' ensures m'[k] == vals[k] {
      if k in KeysOf(out) {
        var kv :| kv in out && kv.key == k;
        var i :| 0 <= i < |out| && out[i] == kv;
        OverwriteAt(m, out, i);
      } else {
        assert forall i | 0 <= i < |out| :: out[i] in out;
        OverwriteOther(m, out, k);
      }
    }
  }

  function KeysIn(job: Job, keys: set<string>, r: nat): set<string>
    requires 0 < job.nReduce
  {
    set k | k in keys && Part(job, k) == r
  }

  function KeysBelow(job: Job, keys: set<string>, n: nat): set<string>
    requires 0 < job.nReduce
  {
    set k | k in keys && Part(job, k) < n
  }

  lemma KeysBelowNext(job: Job, keys: set<string>, n: nat)
    requires 0 < job.nReduce && 0 < n
    ensures KeysBelow(job, keys, n) == KeysBelow(job, keys, n - 1) + KeysIn(job, keys, n - 1)
  {
  }

  lemma {:induction false} MergedRestricts(job: Job, f: Files, vals: map<string, string>, keys: set<string>, n: nat)
    requires 0 < job.nReduce && Mergeable(f, n)
    requires keys == vals.Keys && forall r: nat | r < n :: Lists(f.results[r], vals, KeysIn(job, keys, r))
    ensures Restricts(Merged(f, n), vals, KeysBelow(job, keys, n))
  {
    if n > 0 {
      MergedRestricts(job, f, vals, keys, n - 1);
      KeysBelowNext(job, keys, n);
      var below, here := KeysBelow(job, keys, n - 1), KeysIn(job, keys, n - 1);
      OverwriteRestricts(Merged(f, n - 1), At(f.results, n - 1), vals, below, here);
    }
  }

  /** The group-by of one partition is the part of the whole group-by that has its keys. */
  lemma ReducedPartition(job: Job, all: seq<KeyValue>, r: nat)
    requires 0 < job.nReduce
    ensures var out := PartOutput(job, all, r);
      && (forall k :: k in KeysOf(out) <==> k in KeysOf(all) && Part(job, k) == r)
      && (forall i, j | 0 <= i < j < |out| :: out[i].key != out[j].key)
      && (forall i | 0 <= i < |out| :: out[i].value == job.reduceF(out[i].key, ValuesOf(all, out[i].key)))
  {
    var part := Partition(job, all, r);
    var out := Reduced(job, part);
    ReducedKeys(job, part);
    PartitionKeys(job, all, r);
    forall i | 0 <= i < |out| ensures out[i].value == job.reduceF(out[i].key, ValuesOf(all, out[i].key)) {
      assert out[i].key in KeysOf(out) by { assert out[i] in out; }
      PartitionValues(job, all, out[i].key);
    }
  }

  /** The group-by as a map. */
  ghost function GroupMap(job: Job, all: seq<KeyValue>): map<string, string> {
    map k | k in KeysOf(all) :: job.reduceF(k, ValuesOf(all, k))
  }

  lemma ResultLists(job: Job, all: seq<KeyValue>, r: nat)
    requires 0 < job.nReduce
    ensures Lists(PartOutput(job, all, r), GroupMap(job, all), KeysIn(job, KeysOf(all), r))
  {
    var out := PartOutput(job, all, r);
    ReducedPartition(job, all, r);
    forall i | 0 <= i < |out| ensures out[i].key in KeysOf(all) {
      assert out[i] in out;
      assert out[i].key in KeysOf(out);
    }
  }

  lemma ListingIsReduced(job: Job, all: seq<KeyValue>)
    ensures Listing(GroupMap(job, all)) == Reduced(job, all)
  {
    var keys := SortKeys(KeysOf(all));
    assert GroupMap(job, all).Keys == KeysOf(all);
    forall i | 0 <= i < |keys| ensures keys[i] in KeysOf(all) {
      assert keys[i] in Elements(keys);
    }
  }

  lemma MergedIsGroupMap(job: Job, f: Files, all: seq<KeyValue>)
    requires 0 < job.nReduce && ResultsOf(job, f.results, all) && Mergeable(f, job.nReduce)
    ensures Merged(f, job.nReduce) == GroupMap(job, all)
  {
    var vals, keys := GroupMap(job, all), KeysOf(all);
    forall r: nat | r < job.nReduce ensures Lists(f.results[r], vals, KeysIn(job, keys, r)) {
      ResultLists(job, all, r);
    }
    MergedRestricts(job, f, vals, keys, job.nReduce);
    assert KeysBelow(job, keys, job.nReduce) == keys;
    RestrictsAll(Merged(f, job.nReduce), vals);
  }

  lemma RestrictsAll(m: map<string, string>, vals: map<string, string>)
    requires Restricts(m, vals, vals.Keys)
    ensures m == vals
  {
  }

  /** Whatever the hash and however many partitions, merging them is grouping everything. */
  lemma MergeIsGroupBy(job: Job, f: Files)
    requires 0 < job.nReduce && ResultFilesOk(job, f) && Mergeable(f, job.nReduce)
    ensures Merge(job, f) == Some(GroupBy(job, f.splits))
  {
    var all := Emitted(job, f.splits, job.nMap);
    MergedIsGroupMap(job, f, all);
    ListingIsReduced(job, all);
  }

  // ---- one job keeps the files right, whoever runs it and however often ----

  lemma DoMapOk(job: Job, f: Files, j: nat)
    requires 0 < job.nReduce && MapFilesOk(job, f) && DoMap(job, f, j).Some?
    ensures var g := DoMap(job, f, j).value;
      && MapFilesOk(job, g) && g.splits == f.splits && g.results == f.results
      && g.inter.Keys == f.inter.Keys + (set r: nat | r < job.nReduce :: (j, r))
      && (forall x | x in f.inter :: g.inter[x] == f.inter[x])
  {
  }

  lemma MapJobMakesGatherable(job: Job, f: Files, j: nat)
    requires 0 < job.nReduce && MapFilesOk(job, f) && DoMap(job, f, j).Some?
    requires AllGatherable(job, f, j)
    ensures AllGatherable(job, DoMap(job, f, j).value, j + 1)
  {
    DoMapOk(job, f, j);
    var g := DoMap(job, f, j).value;
    forall i: nat, q: nat | i < j + 1 && q < job.nReduce ensures (i, q) in g.inter {}
  }

  lemma DoReduceOk(job: Job, f: Files, r: nat)
    requires 0 < job.nReduce && MapFilesOk(job, f)
    requires ResultFilesOk(job, f) && DoReduce(job, f, r).Some?
    ensures var g := DoReduce(job, f, r).value;
      && ResultFilesOk(job, g) && g.splits == f.splits && g.inter == f.inter
      && g.results.Keys == f.results.Keys + {r}
  {
    GatheredIsPartition(job, f, r, job.nMap);
  }

  // ---- the sequential run ----

  predicate AllSplits(splits: map<nat, string>, n: nat) {
    forall i: nat | i < n :: i in splits
  }

  /** The first `n` map jobs, and no reduce job, have run. */
  ghost predicate MapsDone(job: Job, splits: map<nat, string>, f: Files, n: nat)
    requires 0 < job.nReduce
  {
    MapFilesOk(job, f) && f.splits == splits && f.results == map[] && AllGatherable(job, f, n)
  }

  lemma NothingDone(job: Job, splits: map<nat, string>)
    requires 0 < job.nReduce
    ensures MapsDone(job, splits, Files(splits, map[], map[]), 0)
  {
  }

  lemma OneMoreMap(job: Job, splits: map<nat, string>, f: Files, n: nat)
    requires 0 < job.nReduce && MapsDone(job, splits, f, n) && n in splits
    ensures DoMap(job, f, n).Some? && MapsDone(job, splits, DoMap(job, f, n).value, n + 1)
  {
    DoMapOk(job, f, n);
    MapJobMakesGatherable(job, f, n);
  }

  /** The map jobs can all run iff no split is missing. */
  lemma {:induction false} DoMapsSome(job: Job, f: Files, n: nat)
    ensures DoMaps(job, f, n).Some? <==> AllSplits(f.splits, n)
    ensures DoMaps(job, f, n).Some? ==> DoMaps(job, f, n).value.splits == f.splits
  {
    if n > 0 {
      DoMapsSome(job, f, n - 1);
    }
  }

  /** What every map job keeps, all of them together keep. */
  lemma {:induction false} DoMapsKeep(job: Job, f: Files, n: nat, ok: (Files, nat) -> bool)
    requires ok(f, 0)
    requires forall g: Files, k: nat | k < n && ok(g, k) :: DoMap(job, g, k).Some? && ok(DoMap(job, g, k).value, k + 1)
    ensures DoMaps(job, f, n).Some? && ok(DoMaps(job, f, n).value, n)
  {
    if n > 0 {
      DoMapsKeep(job, f, n - 1, ok);
      assert ok(DoMaps(job, f, n - 1).value, n - 1);
    }
  }

  lemma DoMapsOk(job: Job, splits: map<nat, string>, f: Files, n: nat)
    requires 0 < job.nReduce && MapsDone(job, splits, f, 0) && AllSplits(splits, n)
    ensures DoMaps(job, f, n).Some? && MapsDone(job, splits, DoMaps(job, f, n).value, n)
  {
    var ok := (g: Files, k: nat) => MapsDone(job, splits, g, k);
    forall g: Files, k: nat | k < n && ok(g, k)
      ensures DoMap(job, g, k).Some? && ok(DoMap(job, g, k).value, k + 1)
    {
      OneMoreMap(job, splits, g, k);
    }
    DoMapsKeep(job, f, n, ok);
  }

  lemma DoMapsNext(job: Job, splits: map<nat, string>, f: Files, n: nat)
    requires 0 < job.nReduce && MapsDone(job, splits, f, n) && AllSplits(splits, n)
    ensures DoMap(job, f, n).Some? <==> AllSplits(splits, n + 1)
    ensures DoMap(job, f, n).Some? ==> MapsDone(job, splits, DoMap(job, f, n).value, n + 1)
  {
    if n in splits {
      OneMoreMap(job, splits, f, n);
    }
  }

  /** After all map jobs, the first `n` reduce jobs have run too. */
  ghost predicate ReducesDone(job: Job, splits: map<nat, string>, f: Files, n: nat)
    requires 0 < job.nReduce
  {
    && MapFilesOk(job, f) && f.splits == splits && AllGatherable(job, f, job.nMap)
    && ResultFilesOk(job, f) && Mergeable(f, n)
  }

  lemma NoReduceDone(job: Job, splits: map<nat, string>, f: Files)
    requires 0 < job.nReduce && MapsDone(job, splits, f, job.nMap)
    ensures ReducesDone(job, splits, f, 0)
  {
  }

  lemma OneMoreReduce(job: Job, splits: map<nat, string>, f: Files, n: nat)
    requires 0 < job.nReduce && ReducesDone(job, splits, f, n) && n < job.nReduce
    ensures DoReduce(job, f, n).Some? && ReducesDone(job, splits, DoReduce(job, f, n).value, n + 1)
  {
    MayReduce(job, f, n);
    DoReduceOk(job, f, n);
  }

  lemma MayReduce(job: Job, f: Files, r: nat)
    requires AllGatherable(job, f, job.nMap) && r < job.nReduce
    ensures DoReduce(job, f, r).Some?
  {
  }

  lemma {:induction false} DoReducesOk(job: Job, splits: map<nat, string>, f: Files, n: nat)
    requires 0 < job.nReduce && n <= job.nReduce && ReducesDone(job, splits, f, 0)
    ensures DoReduces(job, f, n).Some? && ReducesDone(job, splits, DoReduces(job, f, n).value, n)
  {
    if n > 0 {
      DoReducesOk(job, splits, f, n - 1);
      OneMoreReduce(job, splits, DoReduces(job, f, n - 1).value, n - 1);
    }
  }

  /** The sequential run stops iff a split is missing; otherwise it writes the group-by. */
  lemma RunSingleIsGroupBy(job: Job, splits: map<nat, string>)
    requires 0 < job.nReduce
    ensures AllSplits(splits, job.nMap) ==> RunSingle(job, splits) == Some(GroupBy(job, splits))
    ensures !AllSplits(splits, job.nMap) ==> RunSingle(job, splits) == None
  {
    var start := Files(splits, map[], map[]);
    NothingDone(job, splits);
    DoMapsSome(job, start, job.nMap);
    if AllSplits(splits, job.nMap) {
      DoMapsOk(job, splits, start, job.nMap);
      var f := DoMaps(job, start, job.nMap).value;
      NoReduceDone(job, splits, f);
      DoReducesOk(job, splits, f, job.nReduce);
      MergeIsGroupBy(job, DoReduces(job, f, job.nReduce).value);
    }
  }

  /** Neither the number of partitions nor the hash shows in the output. */
  lemma OutputIgnoresPartitioning(job: Job, nReduce: nat, hash: string -> nat, splits: map<nat, string>)
    requires 0 < job.nReduce && 0 < nReduce
    ensures RunSingle(job.(nReduce := nReduce, hash := hash), splits) == RunSingle(job, splits)
  {
    var other := job.(nReduce := nReduce, hash := hash);
    RunSingleIsGroupBy(job, splits);
    RunSingleIsGroupBy(other, splits);
    if AllSplits(splits, job.nMap) {
      SameEmitted(job, other, splits, job.nMap);
      assert GroupBy(other, splits) == GroupBy(job, splits);
    }
  }

  lemma {:induction false} SameEmitted(job: Job, other: Job, splits: map<nat, string>, n: nat)
    requires job.mapF == other.mapF && AllSplits(splits, n)
    ensures Emitted(job, splits, n) == Emitted(other, splits, n)
  {
    if n > 0 {
      SameEmitted(job, other, splits, n - 1);
    }
  }

  /** Each key of the input is in the output once, in order, with all its values reduced. */
  lemma GroupByMeaning(job: Job, splits: map<nat, string>)
    requires AllSplits(splits, job.nMap)
    ensures var out, all := GroupBy(job, splits), Emitted(job, splits, job.nMap);
      && KeysOf(out) == KeysOf(all)
      && (forall i, j | 0 <= i < j < |out| :: Less(out[i].key, out[j].key))
      && (forall i | 0 <= i < |out| :: out[i].value == job.reduceF(out[i].key, ValuesOf(all, out[i].key)))
  {
    ReducedKeys(job, Emitted(job, splits, job.nMap));
  }

  /** With no reduce job at all the output is empty, so the group-by is written iff there is
      a reduce job or nothing was emitted. */
  lemma NoReduceJobs(job: Job, splits: map<nat, string>)
    requires job.nReduce == 0 && AllSplits(splits, job.nMap)
    ensures RunSingle(job, splits) == Some([])
    ensures RunSingle(job, splits) == Some(GroupBy(job, splits)) <==> Emitted(job, splits, job.nMap) == []
  {
    NoReduceMaps(job, splits, job.nMap);
    NoElements(SortKeys({}));
    assert Merged(Files(splits, map[], map[]), 0).Keys == {};
    assert RunSingle(job, splits) == Some([]);
    var all := Emitted(job, splits, job.nMap);
    if all == [] {
      assert KeysOf(all) == {};
      assert GroupBy(job, splits) == [];
    } else {
      assert all[0].key in KeysOf(all);
      NoElements(SortKeys(KeysOf(all)));
      assert |GroupBy(job, splits)| > 0;
    }
  }

  lemma {:induction false} NoReduceMaps(job: Job, splits: map<nat, string>, n: nat)
    requires job.nReduce == 0 && AllSplits(splits, n)
    ensures DoMaps(job, Files(splits, map[], map[]), n) == Some(Files(splits, map[], map[]))
  {
    if n > 0 {
      NoReduceMaps(job, splits, n - 1);
    }
  }
}
