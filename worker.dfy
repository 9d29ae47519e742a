/** One worker task (`get_gt_data`) over a slice of frame indices, and the single-process survey
    (`info_distribution`) that runs the same extraction over the whole dataset without files. */
module Worker {
  import opened Common
  import opened Extraction
  import opened DbIndex
  import Partitioning

  predicate WellFormedDataset(ds: seq<Frame>)
  {
    forall k :: 0 <= k < |ds| ==> WellFormed(ds[k])
  }

  /** Every index of the slice names a frame of the dataset. */
  predicate IndicesIn(ds: seq<Frame>, idx: seq<nat>)
  {
    forall k :: 0 <= k < |idx| ==> idx[k] < |ds|
  }

  /** A worker's run: the entries of each frame of its slice, and its final `group_counter`. */
  datatype Run = Run(frames: seq<seq<DbInfo>>, groupCounter: nat)

  /** The worker's run over the slice `idx`, frame by frame, threading `group_counter` through. */
  function WorkerRun(task: Task, ds: seq<Frame>, idx: seq<nat>): (r: Run)
    requires WellFormedDataset(ds) && IndicesIn(ds, idx)
    ensures |r.frames| == |idx|
  {
    if idx == [] then Run([], 0)
    else
      var prev := WorkerRun(task, ds, idx[..|idx| - 1]);
      var index := idx[|idx| - 1];
      var st := ExtractFrame(task, index, ds[index], prev.groupCounter);
      Run(prev.frames + [st.out], st.groupCounter)
  }

  /** The entries of all frames, in frame order. */
  function Flatten(frames: seq<seq<DbInfo>>): seq<DbInfo>
  {
    if frames == [] then [] else Flatten(frames[..|frames| - 1]) + frames[|frames| - 1]
  }

  /** `get_gt_data`: for each frame of the slice, subsample, skip frames without objects, then for
      each object passing the class filter write its point file (a failed write ends the frame),
      give it a group id through the frame's `group_dict` and the worker's `group_counter`, and
      append its entry under its class. */
  method GetGtData(task: Task, ds: seq<Frame>, datasetIdx: seq<nat>) returns (allDbInfos: Index)
    requires WellFormedDataset(ds) && IndicesIn(ds, datasetIdx)
    ensures allDbInfos == GroupByName(Flatten(WorkerRun(task, ds, datasetIdx).frames))
  {
    allDbInfos := map[];
    var groupCounter: nat := 0;
    ghost var emitted: seq<DbInfo> := [];
    for k := 0 to |datasetIdx|
      invariant WorkerRun(task, ds, datasetIdx[..k]).groupCounter == groupCounter
      invariant Flatten(WorkerRun(task, ds, datasetIdx[..k]).frames) == emitted
      invariant allDbInfos == GroupByName(emitted)
    {
      WorkerRunStep(task, ds, datasetIdx, k);
      var index := datasetIdx[k];
      var view := MakeView(task.family, index, ds[index]);
      if |view.objects| == 0 {
        continue;
      }
      ghost var c0 := groupCounter;
      groupCounter, allDbInfos := AddFrameObjects(task, index, view, groupCounter, allDbInfos, emitted);
      emitted := emitted + Objects(task, index, view, c0, |view.objects|).out;
    }
    assert datasetIdx[..|datasetIdx|] == datasetIdx;
  }

  /** The object loop of one frame of `get_gt_data`, from the worker's counter `c0` and its index so
      far: each object passing the class filter has its point file written (a failed write ends the
      loop), is given a group id through the frame's `group_dict`, and has its entry appended under
      its class. */
  method AddFrameObjects(task: Task, index: nat, view: View, c0: nat, allDbInfos: Index, ghost emitted: seq<DbInfo>)
    returns (groupCounter: nat, allDbInfos': Index)
    requires ValidView(view)
    requires allDbInfos == GroupByName(emitted)
    ensures groupCounter == Objects(task, index, view, c0, |view.objects|).groupCounter
    ensures allDbInfos' == GroupByName(emitted + Objects(task, index, view, c0, |view.objects|).out)
  {
    allDbInfos' := allDbInfos;
    groupCounter := c0;
    var groupDict: map<int, nat> := map[];
    ghost var frameOut: seq<DbInfo> := [];
    assert emitted + frameOut == emitted;
    var i := 0;
    while i < |view.objects|
      invariant 0 <= i <= |view.objects|
      invariant Objects(task, index, view, c0, i) == FrameState(groupDict, groupCounter, frameOut, false)
      invariant allDbInfos' == GroupByName(emitted + frameOut)
    {
      var name := view.objects[i].name;
      if Selected(task.usedClasses, name) {
        if WriteFails(task, index, i) {
          ObjectFails(task, index, view, c0, i, groupDict, groupCounter, frameOut);
          StoppedStays(task, index, view, c0, i + 1, |view.objects|);
          return;
        }
      }
      if Selected(task.usedClasses, name) {
        var localGroupId := view.localIds[i];
        ghost var dict0, counter0 := groupDict, groupCounter;
        if localGroupId !in groupDict {
          groupDict := groupDict[localGroupId := groupCounter];
          groupCounter := groupCounter + 1;
        }
        var dbInfo := MakeEntry(task, view, i, groupDict[localGroupId]);
        ObjectAppends(task, index, view, c0, i, dict0, counter0, frameOut, groupDict, groupCounter);
        if name in allDbInfos' {
          allDbInfos' := allDbInfos'[name := allDbInfos'[name] + [dbInfo]];
        } else {
          allDbInfos' := allDbInfos'[name := [dbInfo]];
        }
        IndexAppend(emitted, frameOut, dbInfo);
        frameOut := frameOut + [dbInfo];
      } else {
        ObjectSkipped(task, index, view, c0, i, groupDict, groupCounter, frameOut);
      }
      i := i + 1;
    }
  }

  /** `info_distribution`: the same extraction over every frame of the dataset, for the NIA family,
      without point files; the class counts it prints are the list lengths of the result. */
  method InfoDistribution(usedClasses: Option<set<string>>, ds: seq<Frame>) returns (allDbInfos: Index)
    requires WellFormedDataset(ds)
    ensures allDbInfos == GroupByName(Flatten(WorkerRun(SurveyTask(usedClasses), ds, Partitioning.Range(0, |ds|)).frames))
    ensures forall k :: k in allDbInfos ==> |allDbInfos[k]| > 0
  {
    allDbInfos := GetGtData(SurveyTask(usedClasses), ds, Partitioning.Range(0, |ds|));
    forall k | k in allDbInfos ensures |allDbInfos[k]| > 0 {
      GroupByNameKeys(Flatten(WorkerRun(SurveyTask(usedClasses), ds, Partitioning.Range(0, |ds|)).frames), k);
    }
  }

  function SurveyTask(usedClasses: Option<set<string>>): Task
  {
    Task("NIA", usedClasses, NoFiles)
  }

  /** Without point files nothing can fail, so every object passing the class filter yields an
      entry. */
  lemma SurveyYieldsEverySelected(usedClasses: Option<set<string>>, index: nat, f: Frame, c0: nat, i: nat)
    requires WellFormed(f)
    requires i < |MakeView("NIA", index, f).objects|
    ensures var v, out := MakeView("NIA", index, f), ExtractFrame(SurveyTask(usedClasses), index, f, c0).out;
            Selected(usedClasses, v.objects[i].name) <==> exists j :: 0 <= j < |out| && out[j].gtIdx == i
  {
    var task := SurveyTask(usedClasses);
    var v := MakeView("NIA", index, f);
    FrameEntries(task, index, f, c0);
    assert NoFailureBefore(task, index, v, i + 1);
    assert Yields(task, index, v, i) <==> Selected(usedClasses, v.objects[i].name);
  }

  // ---------------------------------------------------------------------------------------------
  // Properties of one worker's run

  /** The object loop's state after object `i`, from its state before it while running. */
  lemma ObjectSkipped(task: Task, index: nat, v: View, c0: nat, i: nat,
                      dict: map<int, nat>, counter: nat, out: seq<DbInfo>)
    requires ValidView(v) && i < |v.objects| && !Selected(task.usedClasses, v.objects[i].name)
    requires Objects(task, index, v, c0, i) == FrameState(dict, counter, out, false)
    ensures Objects(task, index, v, c0, i + 1) == FrameState(dict, counter, out, false)
  {
  }

  lemma ObjectFails(task: Task, index: nat, v: View, c0: nat, i: nat,
                    dict: map<int, nat>, counter: nat, out: seq<DbInfo>)
    requires ValidView(v) && i < |v.objects| && Selected(task.usedClasses, v.objects[i].name)
    requires WriteFails(task, index, i)
    requires Objects(task, index, v, c0, i) == FrameState(dict, counter, out, false)
    ensures Objects(task, index, v, c0, i + 1).stopped
  {
  }

  /** A selected object whose write succeeds gets the id `group_dict` holds for its local id, or the
      next counter value, and its entry is appended. */
  lemma ObjectAppends(task: Task, index: nat, v: View, c0: nat, i: nat,
                      dict: map<int, nat>, counter: nat, out: seq<DbInfo>,
                      dict': map<int, nat>, counter': nat)
    requires ValidView(v) && i < |v.objects| && Selected(task.usedClasses, v.objects[i].name)
    requires !WriteFails(task, index, i)
    requires Objects(task, index, v, c0, i) == FrameState(dict, counter, out, false)
    requires v.localIds[i] in dict ==> dict' == dict && counter' == counter
    requires v.localIds[i] !in dict ==> dict' == dict[v.localIds[i] := counter] && counter' == counter + 1
    ensures v.localIds[i] in dict'
    ensures Objects(task, index, v, c0, i + 1) ==
            FrameState(dict', counter', out + [MakeEntry(task, v, i, dict'[v.localIds[i]])], false)
  {
  }

  /** Appending an entry to the index built so far is appending it to the entries. */
  lemma IndexAppend(emitted: seq<DbInfo>, frameOut: seq<DbInfo>, e: DbInfo)
    ensures GroupByName(emitted + (frameOut + [e])) == Add(GroupByName(emitted + frameOut), e)
  {
    GroupByNameSnoc(emitted + frameOut, e);
    assert emitted + (frameOut + [e]) == emitted + frameOut + [e];
  }

  /** Running one more frame of the slice appends that frame's entries and moves the counter on. */
  lemma WorkerRunStep(task: Task, ds: seq<Frame>, idx: seq<nat>, k: nat)
    requires WellFormedDataset(ds) && IndicesIn(ds, idx) && k < |idx|
    ensures var prev, st := WorkerRun(task, ds, idx[..k]), ExtractFrame(task, idx[k], ds[idx[k]], WorkerRun(task, ds, idx[..k]).groupCounter);
            && WorkerRun(task, ds, idx[..k + 1]).groupCounter == st.groupCounter
            && Flatten(WorkerRun(task, ds, idx[..k + 1]).frames) == Flatten(prev.frames) + st.out
  {
    assert idx[..k + 1][..k] == idx[..k];
    var prev := WorkerRun(task, ds, idx[..k]);
    FlattenSnoc(prev.frames, ExtractFrame(task, idx[k], ds[idx[k]], prev.groupCounter).out);
  }

  lemma FlattenSnoc(frames: seq<seq<DbInfo>>, f: seq<DbInfo>)
    ensures Flatten(frames + [f]) == Flatten(frames) + f
  {
    assert (frames + [f])[..|frames|] == frames;
  }

  /** Running a longer slice does not change what the earlier frames produced. */
  lemma {:induction false} WorkerRunPrefix(task: Task, ds: seq<Frame>, idx: seq<nat>, a: nat)
    requires WellFormedDataset(ds) && IndicesIn(ds, idx) && a <= |idx|
    ensures WorkerRun(task, ds, idx).frames[..a] == WorkerRun(task, ds, idx[..a]).frames
    ensures WorkerRun(task, ds, idx[..a]).groupCounter <= WorkerRun(task, ds, idx).groupCounter
    decreases |idx|
  {
    if a < |idx| {
      var init := idx[..|idx| - 1];
      WorkerRunPrefix(task, ds, init, a);
      assert init[..a] == idx[..a];
      var index := idx[|idx| - 1];
      var prev := WorkerRun(task, ds, init);
      FrameGroupIdsFresh(task, index, ds[index], prev.groupCounter);
      assert WorkerRun(task, ds, idx).frames[..a] == prev.frames[..a];
    } else {
      assert idx[..a] == idx;
    }
  }

  /** The counter before the frame at position `a` of the slice. */
  function CounterBefore(task: Task, ds: seq<Frame>, idx: seq<nat>, a: nat): nat
    requires WellFormedDataset(ds) && IndicesIn(ds, idx) && a <= |idx|
  {
    WorkerRun(task, ds, idx[..a]).groupCounter
  }

  /** The frame at position `a` produces the entries ExtractFrame gives from the counter left by the
      frames before it, and its group ids lie in `[CounterBefore(a), CounterBefore(a+1))`. */
  lemma WorkerFrame(task: Task, ds: seq<Frame>, idx: seq<nat>, a: nat)
    requires WellFormedDataset(ds) && IndicesIn(ds, idx) && a < |idx|
    ensures WorkerRun(task, ds, idx).frames[a] ==
            ExtractFrame(task, idx[a], ds[idx[a]], CounterBefore(task, ds, idx, a)).out
    ensures CounterBefore(task, ds, idx, a + 1) ==
            ExtractFrame(task, idx[a], ds[idx[a]], CounterBefore(task, ds, idx, a)).groupCounter
    ensures forall e :: e in WorkerRun(task, ds, idx).frames[a] ==>
              CounterBefore(task, ds, idx, a) <= e.groupId < CounterBefore(task, ds, idx, a + 1)
    ensures |MakeView(task.family, idx[a], ds[idx[a]]).objects| == 0 ==> WorkerRun(task, ds, idx).frames[a] == []
  {
    WorkerRunPrefix(task, ds, idx, a + 1);
    var pre := idx[..a + 1];
    assert pre[..a] == idx[..a];
    var frames := WorkerRun(task, ds, idx).frames;
    assert frames[a] == frames[..a + 1][a];
    var c := CounterBefore(task, ds, idx, a);
    var out := ExtractFrame(task, idx[a], ds[idx[a]], c).out;
    FrameGroupIdsFresh(task, idx[a], ds[idx[a]], c);
    forall e | e in out ensures c <= e.groupId < CounterBefore(task, ds, idx, a + 1) {
      var j :| 0 <= j < |out| && out[j] == e;
    }
  }

  /** Entries from different frames of one worker never share a group id: `group_dict` starts
      empty in every frame while `group_counter` only grows. */
  lemma WorkerFramesDisjoint(task: Task, ds: seq<Frame>, idx: seq<nat>, a: nat, b: nat, e1: DbInfo, e2: DbInfo)
    requires WellFormedDataset(ds) && IndicesIn(ds, idx) && a < b < |idx|
    requires e1 in WorkerRun(task, ds, idx).frames[a] && e2 in WorkerRun(task, ds, idx).frames[b]
    ensures e1.groupId < e2.groupId
  {
    WorkerFrame(task, ds, idx, a);
    WorkerFrame(task, ds, idx, b);
    WorkerRunPrefix(task, ds, idx[..b], a + 1);
    assert idx[..b][..a + 1] == idx[..a + 1];
  }

  /** Every group id a worker hands out is below its final counter, and the counter is at most the
      number of entries it emitted. */
  lemma {:induction false} WorkerCounterBound(task: Task, ds: seq<Frame>, idx: seq<nat>)
    requires WellFormedDataset(ds) && IndicesIn(ds, idx)
    ensures WorkerRun(task, ds, idx).groupCounter <= |Flatten(WorkerRun(task, ds, idx).frames)|
    ensures forall e :: e in Flatten(WorkerRun(task, ds, idx).frames) ==> e.groupId < WorkerRun(task, ds, idx).groupCounter
  {
    if idx != [] {
      var init := idx[..|idx| - 1];
      WorkerCounterBound(task, ds, init);
      var prev := WorkerRun(task, ds, init);
      var index := idx[|idx| - 1];
      var st := ExtractFrame(task, index, ds[index], prev.groupCounter);
      FrameGroupIdsFresh(task, index, ds[index], prev.groupCounter);
      FlattenSnoc(prev.frames, st.out);
      forall e | e in st.out ensures e.groupId < st.groupCounter {
        var j :| 0 <= j < |st.out| && st.out[j] == e;
      }
    }
  }

  /** A worker's index: every group id is below the total number of entries it holds (over all
      classes), which is what the merge offsets by. */
  lemma WorkerIdsBelowTotal(task: Task, ds: seq<Frame>, idx: seq<nat>, k: string, e: DbInfo)
    requires WellFormedDataset(ds) && IndicesIn(ds, idx)
    requires k in GroupByName(Flatten(WorkerRun(task, ds, idx).frames))
    requires e in GroupByName(Flatten(WorkerRun(task, ds, idx).frames))[k]
    ensures e.groupId < SumSizes(GroupByName(Flatten(WorkerRun(task, ds, idx).frames)))
  {
    var s := Flatten(WorkerRun(task, ds, idx).frames);
    GroupByNameLists(s, k);
    GroupByNameSize(s);
    WorkerCounterBound(task, ds, idx);
  }
}
