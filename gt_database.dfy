/** `create_groundtruth_database`: name the output paths, cut the work list into slices, run one
    worker per slice, and merge what the workers return. */
module GtDatabase {
  import opened Common
  import opened Extraction
  import opened DbIndex
  import opened Partitioning
  import opened PathNaming
  import opened Worker
  import opened Merge

  /** The dataset families the pipeline knows (`dataset_name_map`). */
  const DatasetNameMap: map<string, string> :=
    map["NUSC" := "NuScenesDataset", "WAYMO" := "WaymoDataset", "NIA" := "NIADataset"]

  /** What a successful run leaves behind: the point file directory, the index file, and the index
      pickled into it. */
  datatype Database = Database(dbPath: Path, dbinfoPath: Path, infos: Index)

  /** The worker task for the directory `dbPath`. Point counts come from the combined cloud when the
      dataset uses more than one sweep. */
  function WorkerTask(family: string, usedClasses: Option<set<string>>, dbPath: Path, relativePath: bool,
                      nsweeps: nat, writeOk: (nat, nat) -> bool): Task
  {
    Task(family, usedClasses, Files(dbPath, relativePath, nsweeps > 1, writeOk))
  }

  /** What the `p + 1` workers return, in submission order, over the first `WorkLimit` frames. */
  function PartitionResults(task: Task, ds: seq<Frame>, p: nat): (results: seq<Index>)
    requires WellFormedDataset(ds) && p > 0
    ensures |results| == p + 1
  {
    var slices := Partition(Min(|ds|, WorkLimit), p);
    seq(p + 1, i requires 0 <= i <= p => PartitionIndicesIn(ds, p, i); SliceResult(task, ds, slices[i]))
  }

  /** The index one worker returns for its slice. */
  function SliceResult(task: Task, ds: seq<Frame>, slice: seq<nat>): Index
    requires WellFormedDataset(ds) && IndicesIn(ds, slice)
  {
    GroupByName(Flatten(WorkerRun(task, ds, slice).frames))
  }

  /** The slices the orchestrator hands out name frames of the dataset. */
  lemma PartitionIndicesIn(ds: seq<Frame>, p: nat, i: nat)
    requires p > 0 && i <= p
    ensures IndicesIn(ds, Partition(Min(|ds|, WorkLimit), p)[i])
  {
    var n := Min(|ds|, WorkLimit);
    forall k | 0 <= k < |Partition(n, p)[i]| ensures Partition(n, p)[i][k] < |ds| {
      SliceInRange(n, p, i, Partition(n, p)[i][k]);
    }
  }

  /** The orchestrator. Errors come in the order the source raises them: an unknown family at the
      `dataset_name_map` lookup, a missing `sensor` when an NIA default path is needed, then a missing,
      zero or negative `num_process`. Otherwise each slice's worker runs and the merge of their
      indices is the database. */
  method CreateGroundtruthDatabase(
    family: string, rootPath: Path, usedClasses: Option<set<string>>, dbPath: Option<Path>,
    dbinfoPath: Option<Path>, relativePath: bool, virtual: bool, nsweeps: nat, sensor: Option<string>,
    numProcess: Option<int>, ds: seq<Frame>, writeOk: (nat, nat) -> bool)
    returns (res: Result<Database, BuildError>)
    requires WellFormedDataset(ds)
    ensures family !in DatasetNameMap ==> res == Failure(UnknownDataset(family))
    ensures family in DatasetNameMap &&
            DefaultPaths(family, rootPath, dbPath, dbinfoPath, virtual, nsweeps, sensor).Failure? ==>
              res == Failure(MissingArgument("sensor"))
    ensures family in DatasetNameMap &&
            DefaultPaths(family, rootPath, dbPath, dbinfoPath, virtual, nsweeps, sensor).Success? ==>
              (numProcess.None? ==> res == Failure(MissingArgument("num_process"))) &&
              (numProcess.Some? && numProcess.value <= 0 ==> res == Failure(InvalidProcessCount(numProcess.value)))
    ensures res.Success? <==>
              family in DatasetNameMap &&
              DefaultPaths(family, rootPath, dbPath, dbinfoPath, virtual, nsweeps, sensor).Success? &&
              numProcess.Some? && numProcess.value > 0
    ensures res.Success? ==>
              var paths := DefaultPaths(family, rootPath, dbPath, dbinfoPath, virtual, nsweeps, sensor).value;
              var task := WorkerTask(family, usedClasses, paths.0, relativePath, nsweeps, writeOk);
              res.value == Database(paths.0, paths.1, MergeSpec(PartitionResults(task, ds, numProcess.value)))
    ensures res.Success? ==> res.value.infos.Keys <= Vocabulary &&
                             forall k :: k in res.value.infos ==> |res.value.infos[k]| > 0
  {
    if family !in DatasetNameMap {
      return Failure(UnknownDataset(family));
    }
    var paths := DefaultPaths(family, rootPath, dbPath, dbinfoPath, virtual, nsweeps, sensor);
    if paths.Failure? {
      return Failure(paths.error);
    }
    var workArray := WorkList(|ds|);
    if numProcess.None? {
      return Failure(MissingArgument("num_process"));
    }
    var p := numProcess.value;
    if p <= 0 {
      return Failure(InvalidProcessCount(p));
    }
    var task := WorkerTask(family, usedClasses, paths.value.0, relativePath, nsweeps, writeOk);
    var results := RunWorkers(task, ds, workArray, p);
    var allDbInfos := MergeResults(results);
    return Success(Database(paths.value.0, paths.value.1, allDbInfos));
  }

  /** Submits one worker per slice of the work list and collects their indices in submission order. */
  method RunWorkers(task: Task, ds: seq<Frame>, workArray: seq<nat>, p: nat) returns (results: seq<Index>)
    requires WellFormedDataset(ds) && p > 0
    requires workArray == WorkList(|ds|)
    ensures results == PartitionResults(task, ds, p)
  {
    var slices := Partition(|workArray|, p);
    ghost var spec := PartitionResults(task, ds, p);
    results := [];
    for i := 0 to p + 1
      invariant results == spec[..i]
    {
      PartitionResultAt(task, ds, p, i);
      var result := GetGtData(task, ds, slices[i]);
      PrefixSnoc(spec, i);
      results := results + [result];
    }
    assert spec[..p + 1] == spec;
  }

  /** Entry `i` of the results is the worker run over slice `i` of the work list. */
  lemma PartitionResultAt(task: Task, ds: seq<Frame>, p: nat, i: nat)
    requires WellFormedDataset(ds) && p > 0 && i <= p
    ensures IndicesIn(ds, Partition(|WorkList(|ds|)|, p)[i])
    ensures PartitionResults(task, ds, p)[i] == SliceResult(task, ds, Partition(|WorkList(|ds|)|, p)[i])
  {
    assert |WorkList(|ds|)| == Min(|ds|, WorkLimit);
    PartitionIndicesIn(ds, p, i);
  }

  lemma PrefixSnoc(spec: seq<Index>, i: nat)
    requires i < |spec|
    ensures spec[..i + 1] == spec[..i] + [spec[i]]
  {
  }

  /** A known family never reaches the `NotImplementedError` branch of the path naming. */
  lemma NeverNotImplemented(family: string, rootPath: Path, dbPath: Option<Path>, dbinfoPath: Option<Path>,
                            virtual: bool, nsweeps: nat, sensor: Option<string>)
    requires family in DatasetNameMap
    ensures DefaultPaths(family, rootPath, dbPath, dbinfoPath, virtual, nsweeps, sensor).Failure? ==>
              DefaultPaths(family, rootPath, dbPath, dbinfoPath, virtual, nsweeps, sensor).error == MissingArgument("sensor")
  {
  }

  /** Every worker's group ids stay below the number of entries it returned. */
  lemma PartitionResultsBounded(task: Task, ds: seq<Frame>, p: nat, w: nat)
    requires WellFormedDataset(ds) && p > 0 && w <= p
    ensures IdsBelowTotal(PartitionResults(task, ds, p)[w])
  {
    var slices := Partition(Min(|ds|, WorkLimit), p);
    PartitionIndicesIn(ds, p, w);
    var dbinfo := PartitionResults(task, ds, p)[w];
    forall k: string, e: DbInfo | k in dbinfo && e in dbinfo[k] ensures e.groupId < SumSizes(dbinfo) {
      WorkerIdsBelowTotal(task, ds, slices[w], k, e);
    }
  }

  /** In the database, entries of different workers never share a group id: the merged entries of
      worker `w1` have smaller ids than those of any later worker `w2`, whatever their classes. */
  lemma DatabaseIdsAcrossWorkers(task: Task, ds: seq<Frame>, p: nat, w1: nat, w2: nat,
                                 k1: string, k2: string, e1: DbInfo, e2: DbInfo)
    requires WellFormedDataset(ds) && p > 0 && w1 < w2 <= p
    requires e1 in Get(PartitionResults(task, ds, p)[w1], k1) && e2 in Get(PartitionResults(task, ds, p)[w2], k2)
    ensures var results := PartitionResults(task, ds, p);
            Rebased(e1, Offset(results, w1)).groupId < Rebased(e2, Offset(results, w2)).groupId
  {
    PartitionResultsBounded(task, ds, p, w1);
    MergeCrossWorker(PartitionResults(task, ds, p), w1, w2, k1, k2, e1, e2);
  }
}
