/** One frame's contribution to the database: the per-object bookkeeping of `get_gt_data` and
    `info_distribution` (class subsampling, class filter, entry records, group-id assignment). */
module Extraction {
  import opened Common
  import PathNaming

  /** An annotated box, abstracted to how many points of each point cloud it contains (what the
      containment mask of `points_in_rbbox` yields for its column). */
  datatype Box = Box(pointsInSweep: nat, pointsInCombined: nat)

  /** One row of the annotation arrays `names` and `boxes`, which the subsampling masks together. */
  datatype Annotated = Annotated(name: string, box: Box)

  /** What the dataset returns for one frame. `groupIds`, `difficulty` and `score` are the optional
      annotation arrays; `imageIdx` is the optional `metadata["image_idx"]`. */
  datatype Frame = Frame(
    imageIdx: Option<string>,
    objects: seq<Annotated>,
    groupIds: Option<seq<int>>,
    difficulty: Option<seq<int>>,
    score: Option<seq<int>>)

  /** The annotation arrays of a frame have at least one row per box, so every row the object loop
      reads exists. */
  predicate WellFormed(f: Frame)
  {
    && (f.groupIds.Some? ==> |f.groupIds.value| >= |f.objects|)
    && (f.difficulty.Some? ==> |f.difficulty.value| >= |f.objects|)
    && (f.score.Some? ==> |f.score.value| >= |f.objects|)
  }

  /** The frame identifier of an entry: the metadata value if present, else the dataset index. */
  datatype ImageIdx = FrameIndex(index: nat) | Metadata(text: string)

  function ImageIdxText(x: ImageIdx): string
  {
    match x
    case FrameIndex(i) => NatToString(i)
    case Metadata(t) => t
  }

  /** Where the entries go. `Files`: `get_gt_data`, which writes one point file per object under
      `dbPath`; `writeOk(index, i)` is whether writing object `i` of frame `index` succeeds.
      `NoFiles`: `info_distribution`, which only indexes. */
  datatype Output =
    | Files(dbPath: Path, relativePath: bool, multiSweep: bool, writeOk: (nat, nat) -> bool)
    | NoFiles

  /** The fixed arguments of one worker run. */
  datatype Task = Task(family: string, usedClasses: Option<set<string>>, output: Output)

  /** One database entry (`db_info`). `path` and `numPointsInGt` exist only when files are written. */
  datatype DbInfo = DbInfo(
    name: string,
    path: Option<Path>,
    imageIdx: ImageIdx,
    gtIdx: nat,
    box: Box,
    numPointsInGt: Option<nat>,
    difficulty: int,
    groupId: nat,
    score: Option<int>)

  // ---------------------------------------------------------------------------------------------
  // Class subsampling (WAYMO only)

  /** The rows whose name satisfies `keep`, in their original order (`names[mask]`, `boxes[mask]`). */
  function Keep(objs: seq<Annotated>, keep: string -> bool): (r: seq<Annotated>)
    ensures |r| <= |objs|
    ensures forall j :: 0 <= j < |r| ==> keep(r[j].name) && r[j] in objs
    ensures forall o :: o in objs && keep(o.name) ==> o in r
  {
    if objs == [] then []
    else
      var rest := Keep(objs[..|objs| - 1], keep);
      var last := objs[|objs| - 1];
      assert objs == objs[..|objs| - 1] + [last];
      if keep(last.name) then rest + [last] else rest
  }

  /** Whether WAYMO subsampling keeps an object of class `name` in frame `index`: vehicles only in
      every fourth frame, pedestrians only in every second; every other family keeps everything. */
  predicate SampledIn(family: string, index: nat, name: string)
  {
    family != "WAYMO" ||
    (!(index % 4 != 0 && name == "VEHICLE") && !(index % 2 != 0 && name == "PEDESTRIAN"))
  }

  /** The rows left after the WAYMO masks: first vehicles, then pedestrians. */
  function Subsample(family: string, index: nat, objs: seq<Annotated>): (r: seq<Annotated>)
    ensures |r| <= |objs|
    ensures forall j :: 0 <= j < |r| ==> r[j] in objs && SampledIn(family, index, r[j].name)
    ensures forall o :: o in objs && SampledIn(family, index, o.name) ==> o in r
  {
    if family != "WAYMO" then objs
    else
      var afterVehicles := if index % 4 != 0 then Keep(objs, n => n != "VEHICLE") else objs;
      if index % 2 != 0 then Keep(afterVehicles, n => n != "PEDESTRIAN") else afterVehicles
  }

  /** Filtering twice is filtering once by both conditions. */
  lemma {:induction false} KeepTwice(objs: seq<Annotated>, p: string -> bool, q: string -> bool, both: string -> bool)
    requires forall n :: both(n) == (p(n) && q(n))
    ensures Keep(Keep(objs, p), q) == Keep(objs, both)
  {
    if objs != [] {
      var init, last := objs[..|objs| - 1], objs[|objs| - 1];
      KeepTwice(init, p, q, both);
      if p(last.name) {
        assert Keep(objs, p) == Keep(init, p) + [last];
        assert (Keep(init, p) + [last])[..|Keep(init, p)|] == Keep(init, p);
      }
    }
  }

  /** A filter that holds of every row keeps them all. */
  lemma {:induction false} KeepAll(objs: seq<Annotated>, keep: string -> bool)
    requires forall j :: 0 <= j < |objs| ==> keep(objs[j].name)
    ensures Keep(objs, keep) == objs
  {
    if objs != [] {
      KeepAll(objs[..|objs| - 1], keep);
      assert objs == objs[..|objs| - 1] + [objs[|objs| - 1]];
    }
  }

  /** Filtering distributes over concatenation: each row is kept or dropped on its own, and the kept
      rows stay in their original order, each once. */
  lemma {:induction false} KeepAppend(a: seq<Annotated>, b: seq<Annotated>, keep: string -> bool)
    ensures Keep(a + b, keep) == Keep(a, keep) + Keep(b, keep)
  {
    if b != [] {
      var init, last := b[..|b| - 1], b[|b| - 1];
      KeepAppend(a, init, keep);
      assert (a + b)[..|a + b| - 1] == a + init;
      assert (a + b)[|a + b| - 1] == last;
    } else {
      assert a + b == a;
    }
  }

  /** A single row is kept iff its name passes the mask. */
  lemma KeepOne(o: Annotated, keep: string -> bool)
    ensures Keep([o], keep) == if keep(o.name) then [o] else []
  {
    assert [o][..0] == [];
  }

  /** The two WAYMO masks together drop exactly the subsampled classes and keep every other object
      in its original relative order; other families are untouched. */
  lemma SubsampleIsFilter(family: string, index: nat, objs: seq<Annotated>)
    ensures Subsample(family, index, objs) == Keep(objs, n => SampledIn(family, index, n))
    ensures family != "WAYMO" ==> Subsample(family, index, objs) == objs
  {
    var sampled := n => SampledIn(family, index, n);
    if family != "WAYMO" {
      KeepAll(objs, sampled);
    } else if index % 4 != 0 && index % 2 != 0 {
      SubsampleBothMasks(index, objs);
    } else if index % 4 != 0 {
      SubsampleOneMask(index, objs, "VEHICLE");
    } else if index % 2 != 0 {
      SubsampleOneMask(index, objs, "PEDESTRIAN");
    } else {
      KeepAll(objs, sampled);
    }
  }

  /** When both masks apply, they drop vehicles and pedestrians. */
  lemma SubsampleBothMasks(index: nat, objs: seq<Annotated>)
    requires index % 4 != 0 && index % 2 != 0
    ensures Subsample("WAYMO", index, objs) == Keep(objs, n => SampledIn("WAYMO", index, n))
  {
    var noVehicle := (n: string) => n != "VEHICLE";
    var noPedestrian := (n: string) => n != "PEDESTRIAN";
    assert Subsample("WAYMO", index, objs) == Keep(Keep(objs, noVehicle), noPedestrian);
    KeepTwice(objs, noVehicle, noPedestrian, n => SampledIn("WAYMO", index, n));
  }

  /** When exactly one mask applies, it drops the class `dropped` only. */
  lemma SubsampleOneMask(index: nat, objs: seq<Annotated>, dropped: string)
    requires (index % 4 != 0) != (index % 2 != 0)
    requires dropped == if index % 4 != 0 then "VEHICLE" else "PEDESTRIAN"
    ensures Subsample("WAYMO", index, objs) == Keep(objs, n => SampledIn("WAYMO", index, n))
  {
    var mask := (n: string) => n != dropped;
    assert Subsample("WAYMO", index, objs) == Keep(objs, mask);
    KeepSame(objs, mask, n => SampledIn("WAYMO", index, n));
  }

  /** Filters that agree on every name keep the same rows. */
  lemma {:induction false} KeepSame(objs: seq<Annotated>, p: string -> bool, q: string -> bool)
    requires forall n :: p(n) == q(n)
    ensures Keep(objs, p) == Keep(objs, q)
  {
    if objs != [] {
      KeepSame(objs[..|objs| - 1], p, q);
    }
  }

  // ---------------------------------------------------------------------------------------------
  // The per-frame view and one entry

  /** The arrays one frame's object loop reads, after subsampling. `localIds` and `difficulty` are
      the annotation arrays as given (not subsampled) and are read at the subsampled position. */
  datatype View = View(
    imageIdx: ImageIdx,
    objects: seq<Annotated>,
    localIds: seq<int>,
    difficulty: seq<int>,
    score: Option<seq<int>>)

  predicate ValidView(v: View)
  {
    && |v.objects| <= |v.localIds|
    && |v.objects| <= |v.difficulty|
    && (v.score.Some? ==> |v.objects| <= |v.score.value|)
  }

  /** `np.arange(n)`: the default local group ids, one per object. */
  function Indices(n: nat): (r: seq<int>)
    ensures |r| == n && forall k :: 0 <= k < n ==> r[k] == k
  {
    seq(n, k => k)
  }

  function MakeView(family: string, index: nat, f: Frame): (v: View)
    requires WellFormed(f)
    ensures ValidView(v)
    ensures v.objects == Subsample(family, index, f.objects)
    ensures v.imageIdx == if f.imageIdx.Some? then Metadata(f.imageIdx.value) else FrameIndex(index)
    ensures f.groupIds.Some? ==> v.localIds == f.groupIds.value
    ensures f.groupIds.None? ==> |v.localIds| == |v.objects| && forall k :: 0 <= k < |v.objects| ==> v.localIds[k] == k
    ensures f.difficulty.Some? ==> v.difficulty == f.difficulty.value
    ensures f.difficulty.None? ==> |v.difficulty| == |v.objects| && forall k :: 0 <= k < |v.objects| ==> v.difficulty[k] == 0
    ensures v.score == f.score
  {
    var objects := Subsample(family, index, f.objects);
    SubsampleIsFilter(family, index, f.objects);
    View(
      if f.imageIdx.Some? then Metadata(f.imageIdx.value) else FrameIndex(index),
      objects,
      if f.groupIds.Some? then f.groupIds.value else Indices(|objects|),
      if f.difficulty.Some? then f.difficulty.value else seq(|objects|, k => 0),
      f.score)
  }

  /** Whether the class filter lets an object of class `name` through. */
  predicate Selected(usedClasses: Option<set<string>>, name: string)
  {
    usedClasses.None? || name in usedClasses.value
  }

  /** `f"{image_idx}_{name}_{i}.bin"`. */
  function FileName(imageIdx: ImageIdx, name: string, i: nat): (r: string)
    ensures |r| > 4 && r[|r| - 4..] == ".bin"
  {
    ImageIdxText(imageIdx) + "_" + name + "_" + NatToString(i) + ".bin"
  }

  /** Two objects of one frame and one class never write to the same file. */
  lemma FileNamesDistinct(imageIdx: ImageIdx, name: string, i: nat, j: nat)
    requires FileName(imageIdx, name, i) == FileName(imageIdx, name, j)
    ensures i == j
  {
    var prefix := ImageIdxText(imageIdx) + "_" + name + "_";
    assert FileName(imageIdx, name, i) == prefix + (NatToString(i) + ".bin");
    assert FileName(imageIdx, name, j) == prefix + (NatToString(j) + ".bin");
    PathNaming.DropPrefix(prefix, NatToString(i) + ".bin", NatToString(j) + ".bin");
    NatToStringPrefixInjective(i, j, ".bin", ".bin");
  }

  /** The stored `path` of object `i`: relative to the database directory's stem, or under it. */
  function EntryPath(dbPath: Path, relativePath: bool, name: string, fileName: string): (p: Path)
    ensures |p| >= 2 && p[|p| - 2..] == [name, fileName]
    ensures relativePath ==> p == [PathNaming.Stem(PathNaming.Name(dbPath)), name, fileName]
    ensures !relativePath ==> p[..|p| - 2] == dbPath
  {
    if relativePath then [PathNaming.Stem(PathNaming.Name(dbPath)), name, fileName]
    else dbPath + [name, fileName]
  }

  /** The entry built for object `i` of the view, with group id `groupId`: the object's class, box,
      difficulty and score, the frame identifier, `gt_idx = i`, and when files are written the file's
      path and the number of points the box holds in the cloud the worker reads. */
  function MakeEntry(task: Task, v: View, i: nat, groupId: nat): (e: DbInfo)
    requires ValidView(v) && i < |v.objects|
    ensures e.name == v.objects[i].name && e.gtIdx == i && e.groupId == groupId
    ensures e.imageIdx == v.imageIdx && e.box == v.objects[i].box && e.difficulty == v.difficulty[i]
    ensures e.score == if v.score.Some? then Some(v.score.value[i]) else None
    ensures e.path.Some? <==> task.output.Files?
    ensures e.numPointsInGt.Some? <==> task.output.Files?
    ensures task.output.Files? ==>
              e.path.value == EntryPath(task.output.dbPath, task.output.relativePath, e.name,
                                        FileName(v.imageIdx, e.name, i)) &&
              e.numPointsInGt.value ==
                if task.output.multiSweep then e.box.pointsInCombined else e.box.pointsInSweep
  {
    var obj := v.objects[i];
    var out := task.output;
    var path := if out.Files? then Some(EntryPath(out.dbPath, out.relativePath, obj.name, FileName(v.imageIdx, obj.name, i)))
                else None;
    var points := if out.Files? then Some(if out.multiSweep then obj.box.pointsInCombined else obj.box.pointsInSweep)
                  else None;
    DbInfo(obj.name, path, v.imageIdx, i, obj.box, points, v.difficulty[i], groupId,
           if v.score.Some? then Some(v.score.value[i]) else None)
  }

  // ---------------------------------------------------------------------------------------------
  // The object loop of one frame

  /** The loop state: `group_dict`, `group_counter`, the entries appended so far, and whether a
      failed write ended the loop. */
  datatype FrameState = FrameState(groupDict: map<int, nat>, groupCounter: nat, out: seq<DbInfo>, stopped: bool)

  predicate WriteFails(task: Task, index: nat, i: nat)
  {
    task.output.Files? && !task.output.writeOk(index, i)
  }

  /** One iteration of the object loop, for object `i`. */
  function Step(task: Task, index: nat, v: View, st: FrameState, i: nat): FrameState
    requires ValidView(v) && i < |v.objects|
  {
    if st.stopped || !Selected(task.usedClasses, v.objects[i].name) then st
    else if WriteFails(task, index, i) then st.(stopped := true)
    else
      var local := v.localIds[i];
      var dict := if local in st.groupDict then st.groupDict else st.groupDict[local := st.groupCounter];
      var counter := if local in st.groupDict then st.groupCounter else st.groupCounter + 1;
      FrameState(dict, counter, st.out + [MakeEntry(task, v, i, dict[local])], false)
  }

  /** The loop state after objects `0..k-1`, starting from the worker's counter `c0`. */
  function Objects(task: Task, index: nat, v: View, c0: nat, k: nat): FrameState
    requires ValidView(v) && k <= |v.objects|
  {
    if k == 0 then FrameState(map[], c0, [], false)
    else Step(task, index, v, Objects(task, index, v, c0, k - 1), k - 1)
  }

  /** One frame: frames left without objects are skipped, the others run the object loop. */
  function ExtractFrame(task: Task, index: nat, f: Frame, c0: nat): FrameState
    requires WellFormed(f)
  {
    var v := MakeView(task.family, index, f);
    if |v.objects| == 0 then FrameState(map[], c0, [], false)
    else Objects(task, index, v, c0, |v.objects|)
  }

  /** No selected object among `0..k-1` failed its write. */
  predicate NoFailureBefore(task: Task, index: nat, v: View, k: nat)
    requires k <= |v.objects|
  {
    forall i :: 0 <= i < k && Selected(task.usedClasses, v.objects[i].name) ==> !WriteFails(task, index, i)
  }

  /** Whether object `i` yields an entry: it passes the class filter and neither it nor any earlier
      selected object failed its write. */
  predicate Yields(task: Task, index: nat, v: View, i: nat)
    requires i < |v.objects|
  {
    Selected(task.usedClasses, v.objects[i].name) && NoFailureBefore(task, index, v, i + 1)
  }

  /** The id of entry `j` was never used by an earlier entry. */
  predicate FirstUse(out: seq<DbInfo>, j: nat)
    requires j < |out|
  {
    forall m :: 0 <= m < j ==> out[m].groupId != out[j].groupId
  }

  /** Some entry has group id `g`. */
  predicate IdUsed(out: seq<DbInfo>, g: nat)
  {
    exists j :: 0 <= j < |out| && out[j].groupId == g
  }

  /** Every entry is built by MakeEntry for one of the first `k` objects. */
  ghost predicate EntriesBuilt(task: Task, v: View, k: nat, out: seq<DbInfo>)
    requires ValidView(v) && k <= |v.objects|
  {
    forall j :: 0 <= j < |out| ==> out[j].gtIdx < k && out[j] == MakeEntry(task, v, out[j].gtIdx, out[j].groupId)
  }

  /** Entries come in object order. */
  ghost predicate EntriesOrdered(out: seq<DbInfo>)
  {
    forall j1, j2 :: 0 <= j1 < j2 < |out| ==> out[j1].gtIdx < out[j2].gtIdx
  }

  /** Among the first `k` objects, exactly those that yield have an entry. */
  ghost predicate EntriesExactly(task: Task, index: nat, v: View, k: nat, out: seq<DbInfo>)
    requires k <= |v.objects|
  {
    forall i :: 0 <= i < k ==> (Yields(task, index, v, i) <==> exists j :: 0 <= j < |out| && out[j].gtIdx == i)
  }

  /** What holds of the entries after `k` objects: they are the objects that yield one, in object
      order, built by MakeEntry, and the loop has stopped iff a selected object failed its write. */
  ghost predicate EntryInv(task: Task, index: nat, v: View, k: nat, st: FrameState)
    requires ValidView(v) && k <= |v.objects|
  {
    && EntriesBuilt(task, v, k, st.out)
    && EntriesOrdered(st.out)
    && EntriesExactly(task, index, v, k, st.out)
    && (st.stopped <==> !NoFailureBefore(task, index, v, k))
  }

  /** `group_dict` holds the local id of every entry, mapped to that entry's group id. */
  ghost predicate DictMapsEntries(v: View, st: FrameState)
  {
    forall j :: 0 <= j < |st.out| ==>
      st.out[j].gtIdx < |v.localIds| && v.localIds[st.out[j].gtIdx] in st.groupDict &&
      st.groupDict[v.localIds[st.out[j].gtIdx]] == st.out[j].groupId
  }

  /** `group_dict` maps distinct local ids to distinct ids in `[c0, counter)`. */
  ghost predicate DictInjectiveInRange(c0: nat, st: FrameState)
  {
    && (forall l :: l in st.groupDict ==> c0 <= st.groupDict[l] < st.groupCounter)
    && (forall l1, l2 :: l1 in st.groupDict && l2 in st.groupDict && st.groupDict[l1] == st.groupDict[l2] ==> l1 == l2)
  }

  /** Every id in `[c0, counter)` belongs to some entry. */
  ghost predicate AllIdsUsed(c0: nat, st: FrameState)
  {
    forall g :: c0 <= g < st.groupCounter ==> IdUsed(st.out, g)
  }

  /** An id used for the first time exceeds every earlier id. */
  ghost predicate FirstUsesIncrease(out: seq<DbInfo>)
  {
    forall j :: 0 <= j < |out| && FirstUse(out, j) ==> forall m :: 0 <= m < j ==> out[m].groupId < out[j].groupId
  }

  /** What holds of the group ids, starting from the worker's counter `c0`: `group_dict` maps the
      local id of every entry to its group id, injectively, into `[c0, counter)`; every id there is
      used; a first use exceeds every earlier id; the counter grows at most once per entry. */
  ghost predicate GroupInv(v: View, c0: nat, st: FrameState)
  {
    && c0 <= st.groupCounter <= c0 + |st.out|
    && DictMapsEntries(v, st)
    && DictInjectiveInRange(c0, st)
    && AllIdsUsed(c0, st)
    && FirstUsesIncrease(st.out)
  }

  /** No failure among the first `k + 1` objects: none among the first `k`, and object `k` did not
      fail if it was selected. */
  lemma NoFailureStep(task: Task, index: nat, v: View, k: nat)
    requires k < |v.objects|
    ensures NoFailureBefore(task, index, v, k + 1) <==>
            NoFailureBefore(task, index, v, k) &&
            (Selected(task.usedClasses, v.objects[k].name) ==> !WriteFails(task, index, k))
  {
  }

  lemma StepKeepsBuilt(task: Task, index: nat, v: View, k: nat, st: FrameState)
    requires ValidView(v) && k < |v.objects|
    requires EntriesBuilt(task, v, k, st.out)
    ensures EntriesBuilt(task, v, k + 1, Step(task, index, v, st, k).out)
  {
    StepShape(task, index, v, st, k);
  }

  lemma StepKeepsOrdered(task: Task, index: nat, v: View, k: nat, st: FrameState)
    requires ValidView(v) && k < |v.objects|
    requires EntriesBuilt(task, v, k, st.out) && EntriesOrdered(st.out)
    ensures EntriesOrdered(Step(task, index, v, st, k).out)
  {
    StepShape(task, index, v, st, k);
  }

  lemma StepKeepsExactly(task: Task, index: nat, v: View, k: nat, st: FrameState)
    requires ValidView(v) && k < |v.objects|
    requires EntriesBuilt(task, v, k, st.out) && EntriesExactly(task, index, v, k, st.out)
    requires st.stopped <==> !NoFailureBefore(task, index, v, k)
    ensures EntriesExactly(task, index, v, k + 1, Step(task, index, v, st, k).out)
    ensures Step(task, index, v, st, k).stopped <==> !NoFailureBefore(task, index, v, k + 1)
  {
    var st' := Step(task, index, v, st, k);
    var out, out' := st.out, st'.out;
    NoFailureStep(task, index, v, k);
    if st.stopped || !Selected(task.usedClasses, v.objects[k].name) || WriteFails(task, index, k) {
      assert out' == out;
      assert !Yields(task, index, v, k);
    } else {
      assert out' == out + [out'[|out|]];
      assert Yields(task, index, v, k);
      forall i | 0 <= i < k + 1
        ensures Yields(task, index, v, i) <==> exists j :: 0 <= j < |out'| && out'[j].gtIdx == i
      {
        if i < k {
          if Yields(task, index, v, i) {
            var j :| 0 <= j < |out| && out[j].gtIdx == i;
            assert out'[j].gtIdx == i;
          }
        } else {
          assert out'[|out|].gtIdx == i;
        }
      }
    }
  }

  /** A step appends at most one entry, for object `k`, with the id `group_dict` gives its local id
      (a fresh one, `group_counter`, on first appearance). */
  lemma StepShape(task: Task, index: nat, v: View, st: FrameState, k: nat)
    requires ValidView(v) && k < |v.objects|
    ensures var st' := Step(task, index, v, st, k);
            || (st'.out == st.out && st'.groupDict == st.groupDict && st'.groupCounter == st.groupCounter)
            || (var local := v.localIds[k];
                && st'.out == st.out + [MakeEntry(task, v, k, st'.groupDict[local])]
                && local in st'.groupDict
                && (local in st.groupDict ==> st'.groupDict == st.groupDict && st'.groupCounter == st.groupCounter)
                && (local !in st.groupDict ==>
                      st'.groupDict == st.groupDict[local := st.groupCounter] && st'.groupCounter == st.groupCounter + 1))
  {
  }

  lemma InRangeAt(c0: nat, st: FrameState, l: int)
    requires DictInjectiveInRange(c0, st) && l in st.groupDict
    ensures c0 <= st.groupDict[l] < st.groupCounter
  {
  }

  lemma AppendKeepsAllIdsUsed(c0: nat, st: FrameState, st': FrameState)
    requires AllIdsUsed(c0, st)
    requires |st'.out| == |st.out| + 1 && st'.out[..|st.out|] == st.out
    requires st.groupCounter <= st'.groupCounter <= st.groupCounter + 1
    requires st'.groupCounter == st.groupCounter + 1 ==> st'.out[|st.out|].groupId == st.groupCounter
    ensures AllIdsUsed(c0, st')
  {
    var out, out' := st.out, st'.out;
    forall g | c0 <= g < st'.groupCounter ensures IdUsed(out', g) {
      if g < st.groupCounter {
        assert IdUsed(out, g);
        var j :| 0 <= j < |out| && out[j].groupId == g;
        assert out'[j] == out[j];
      } else {
        assert out'[|out|].groupId == g;
      }
    }
  }

  lemma AppendKeepsFirstUsesIncrease(out: seq<DbInfo>, e: DbInfo)
    requires FirstUsesIncrease(out)
    requires FirstUse(out + [e], |out|) ==> forall m :: 0 <= m < |out| ==> out[m].groupId < e.groupId
    ensures FirstUsesIncrease(out + [e])
  {
    var out' := out + [e];
    forall j | 0 <= j < |out'| && FirstUse(out', j) ensures forall m :: 0 <= m < j ==> out'[m].groupId < out'[j].groupId {
      if j < |out| {
        forall m | 0 <= m < j ensures out[m].groupId != out[j].groupId {
          assert out'[m] == out[m];
        }
        assert FirstUse(out, j);
      }
    }
  }

  /** Appending an entry whose local id already has a group id keeps GroupInv. */
  lemma AppendKnownKeepsGroupInv(v: View, c0: nat, st: FrameState, e: DbInfo, stopped: bool)
    requires GroupInv(v, c0, st)
    requires e.gtIdx < |v.localIds| && v.localIds[e.gtIdx] in st.groupDict
    requires e.groupId == st.groupDict[v.localIds[e.gtIdx]]
    ensures GroupInv(v, c0, FrameState(st.groupDict, st.groupCounter, st.out + [e], stopped))
  {
    InRangeAt(c0, st, v.localIds[e.gtIdx]);
    var out, st' := st.out, FrameState(st.groupDict, st.groupCounter, st.out + [e], stopped);
    assert st'.out[..|out|] == out;
    AppendKeepsAllIdsUsed(c0, st, st');
    assert IdUsed(out, e.groupId);
    var j :| 0 <= j < |out| && out[j].groupId == e.groupId;
    assert st'.out[j].groupId == st'.out[|out|].groupId;
    assert !FirstUse(st'.out, |out|);
    AppendKeepsFirstUsesIncrease(out, e);
    assert DictMapsEntries(v, st');
  }

  /** Appending an entry whose local id is new, with the fresh id `group_counter`, keeps GroupInv
      once the counter moves on. */
  lemma AppendFreshKeepsGroupInv(v: View, c0: nat, st: FrameState, e: DbInfo, stopped: bool)
    requires GroupInv(v, c0, st)
    requires e.gtIdx < |v.localIds| && v.localIds[e.gtIdx] !in st.groupDict
    requires e.groupId == st.groupCounter
    ensures GroupInv(v, c0, FrameState(st.groupDict[v.localIds[e.gtIdx] := st.groupCounter],
                                       st.groupCounter + 1, st.out + [e], stopped))
  {
    var out := st.out;
    var st' := FrameState(st.groupDict[v.localIds[e.gtIdx] := st.groupCounter], st.groupCounter + 1, st.out + [e], stopped);
    assert st'.out[..|out|] == out;
    AppendKeepsAllIdsUsed(c0, st, st');
    forall m | 0 <= m < |out| ensures out[m].groupId < e.groupId {
      InRangeAt(c0, st, v.localIds[out[m].gtIdx]);
    }
    AppendKeepsFirstUsesIncrease(out, e);
    assert DictMapsEntries(v, st');
  }

  lemma StepKeepsGroupInv(task: Task, index: nat, v: View, c0: nat, k: nat, st: FrameState)
    requires ValidView(v) && k < |v.objects|
    requires GroupInv(v, c0, st)
    ensures GroupInv(v, c0, Step(task, index, v, st, k))
  {
    var st' := Step(task, index, v, st, k);
    StepShape(task, index, v, st, k);
    if st'.out != st.out {
      var local := v.localIds[k];
      var e := MakeEntry(task, v, k, st'.groupDict[local]);
      if local in st.groupDict {
        AppendKnownKeepsGroupInv(v, c0, st, e, st'.stopped);
        assert st' == FrameState(st.groupDict, st.groupCounter, st.out + [e], st'.stopped);
      } else {
        AppendFreshKeepsGroupInv(v, c0, st, e, st'.stopped);
        assert st' == FrameState(st.groupDict[local := st.groupCounter], st.groupCounter + 1, st.out + [e], st'.stopped);
      }
    } else {
      assert st' == st.(stopped := st'.stopped);
    }
  }

  lemma {:induction false} ObjectsBuilt(task: Task, index: nat, v: View, c0: nat, k: nat)
    requires ValidView(v) && k <= |v.objects|
    ensures EntriesBuilt(task, v, k, Objects(task, index, v, c0, k).out)
  {
    if k > 0 {
      ObjectsBuilt(task, index, v, c0, k - 1);
      StepKeepsBuilt(task, index, v, k - 1, Objects(task, index, v, c0, k - 1));
    }
  }

  lemma {:induction false} ObjectsOrdered(task: Task, index: nat, v: View, c0: nat, k: nat)
    requires ValidView(v) && k <= |v.objects|
    ensures EntriesOrdered(Objects(task, index, v, c0, k).out)
  {
    if k > 0 {
      ObjectsBuilt(task, index, v, c0, k - 1);
      ObjectsOrdered(task, index, v, c0, k - 1);
      StepKeepsOrdered(task, index, v, k - 1, Objects(task, index, v, c0, k - 1));
    }
  }

  lemma {:induction false} ObjectsExactly(task: Task, index: nat, v: View, c0: nat, k: nat)
    requires ValidView(v) && k <= |v.objects|
    ensures EntriesExactly(task, index, v, k, Objects(task, index, v, c0, k).out)
    ensures Objects(task, index, v, c0, k).stopped <==> !NoFailureBefore(task, index, v, k)
  {
    if k > 0 {
      ObjectsBuilt(task, index, v, c0, k - 1);
      ObjectsExactly(task, index, v, c0, k - 1);
      StepKeepsExactly(task, index, v, k - 1, Objects(task, index, v, c0, k - 1));
    }
  }

  lemma ObjectsEntryInv(task: Task, index: nat, v: View, c0: nat, k: nat)
    requires ValidView(v) && k <= |v.objects|
    ensures EntryInv(task, index, v, k, Objects(task, index, v, c0, k))
  {
    ObjectsBuilt(task, index, v, c0, k);
    ObjectsOrdered(task, index, v, c0, k);
    ObjectsExactly(task, index, v, c0, k);
  }

  lemma {:induction false} ObjectsGroupInv(task: Task, index: nat, v: View, c0: nat, k: nat)
    requires ValidView(v) && k <= |v.objects|
    ensures GroupInv(v, c0, Objects(task, index, v, c0, k))
  {
    if k > 0 {
      ObjectsGroupInv(task, index, v, c0, k - 1);
      StepKeepsGroupInv(task, index, v, c0, k - 1, Objects(task, index, v, c0, k - 1));
    }
  }

  /** Once a write has failed, the remaining objects of the frame change nothing. */
  lemma {:induction false} StoppedStays(task: Task, index: nat, v: View, c0: nat, k: nat, m: nat)
    requires ValidView(v) && k <= m <= |v.objects|
    requires Objects(task, index, v, c0, k).stopped
    ensures Objects(task, index, v, c0, m) == Objects(task, index, v, c0, k)
  {
    if m > k {
      StoppedStays(task, index, v, c0, k, m - 1);
    }
  }

  /** The invariant of the whole frame, from the worker's counter `c0`. */
  lemma ExtractFrameInv(task: Task, index: nat, f: Frame, c0: nat)
    requires WellFormed(f)
    ensures var v := MakeView(task.family, index, f);
            EntryInv(task, index, v, |v.objects|, ExtractFrame(task, index, f, c0)) &&
            GroupInv(v, c0, ExtractFrame(task, index, f, c0))
  {
    var v := MakeView(task.family, index, f);
    ObjectsEntryInv(task, index, v, c0, |v.objects|);
    ObjectsGroupInv(task, index, v, c0, |v.objects|);
  }

  /** Within one frame, two entries share a group id exactly when their objects' local group ids
      (read at the subsampled position) are equal. */
  lemma FrameGroupIds(task: Task, index: nat, f: Frame, c0: nat, j1: nat, j2: nat)
    requires WellFormed(f)
    requires j1 < |ExtractFrame(task, index, f, c0).out| && j2 < |ExtractFrame(task, index, f, c0).out|
    ensures var v, out := MakeView(task.family, index, f), ExtractFrame(task, index, f, c0).out;
            out[j1].gtIdx < |v.localIds| && out[j2].gtIdx < |v.localIds| &&
            (out[j1].groupId == out[j2].groupId <==> v.localIds[out[j1].gtIdx] == v.localIds[out[j2].gtIdx])
  {
    ExtractFrameInv(task, index, f, c0);
  }

  /** Without a `group_ids` annotation every entry of a frame gets its own group id. */
  lemma FrameGroupIdsDistinct(task: Task, index: nat, f: Frame, c0: nat, j1: nat, j2: nat)
    requires WellFormed(f) && f.groupIds.None?
    requires j1 < j2 < |ExtractFrame(task, index, f, c0).out|
    ensures ExtractFrame(task, index, f, c0).out[j1].groupId != ExtractFrame(task, index, f, c0).out[j2].groupId
  {
    ExtractFrameInv(task, index, f, c0);
    FrameGroupIds(task, index, f, c0, j1, j2);
  }

  /** The group ids of one frame are fresh values `c0, c0+1, ...` handed out in order of first
      appearance: they fill `[c0, counter)` without gaps, a first use exceeds every earlier id, and
      the counter grows by at most the number of entries. */
  lemma FrameGroupIdsFresh(task: Task, index: nat, f: Frame, c0: nat)
    requires WellFormed(f)
    ensures var st := ExtractFrame(task, index, f, c0);
            && c0 <= st.groupCounter <= c0 + |st.out|
            && (forall j :: 0 <= j < |st.out| ==> c0 <= st.out[j].groupId < st.groupCounter)
            && (forall g :: c0 <= g < st.groupCounter ==> IdUsed(st.out, g))
            && (forall j :: 0 <= j < |st.out| && FirstUse(st.out, j) ==>
                  forall m :: 0 <= m < j ==> st.out[m].groupId < st.out[j].groupId)
  {
    ExtractFrameInv(task, index, f, c0);
    var st := ExtractFrame(task, index, f, c0);
    var v := MakeView(task.family, index, f);
    assert GroupInv(v, c0, st);
    forall j | 0 <= j < |st.out| ensures c0 <= st.out[j].groupId < st.groupCounter {
      var l := v.localIds[st.out[j].gtIdx];
      assert l in st.groupDict && st.groupDict[l] == st.out[j].groupId;
      assert c0 <= st.groupDict[l] < st.groupCounter;
    }
  }

  /** Which objects of a frame yield entries and what the entries hold: object `i` yields one iff it
      passes the class filter and no selected object up to it failed its write; entries come in
      object order, with `gt_idx` the subsampled position and the fields of MakeEntry. */
  lemma FrameEntries(task: Task, index: nat, f: Frame, c0: nat)
    requires WellFormed(f)
    ensures var v, out := MakeView(task.family, index, f), ExtractFrame(task, index, f, c0).out;
            && (forall i :: 0 <= i < |v.objects| ==>
                  (Yields(task, index, v, i) <==> exists j :: 0 <= j < |out| && out[j].gtIdx == i))
            && (forall j :: 0 <= j < |out| ==>
                  out[j].gtIdx < |v.objects| && out[j] == MakeEntry(task, v, out[j].gtIdx, out[j].groupId))
            && (forall j1, j2 :: 0 <= j1 < j2 < |out| ==> out[j1].gtIdx < out[j2].gtIdx)
  {
    ExtractFrameInv(task, index, f, c0);
  }
}
