/** The merge of the workers' indices in create_groundtruth_database: each worker's group ids are
    moved past those of the workers before it, only the classes of the fixed vocabulary are kept,
    and classes left without entries are removed. */
module Merge {
  import opened Extraction
  import opened DbIndex

  /** The classes the merged database is initialised with; entries of any other class are dropped. */
  const Vocabulary: set<string> :=
    {"median_strip", "road_sign", "overpass", "ramp_sect", "sound_barrier", "street_trees", "tunnel"}

  /** An entry with its group id moved up by `off`. */
  function Rebased(e: DbInfo, off: nat): (r: DbInfo)
    ensures r.groupId == e.groupId + off
    ensures r.(groupId := e.groupId) == e
  {
    e.(groupId := e.groupId + off)
  }

  /** Every entry of a list moved up by `off`. */
  function Shift(s: seq<DbInfo>, off: nat): (r: seq<DbInfo>)
    ensures |r| == |s|
    ensures forall j :: 0 <= j < |s| ==> r[j] == Rebased(s[j], off)
  {
    seq(|s|, j requires 0 <= j < |s| => Rebased(s[j], off))
  }

  /** The offset of worker `r`: the number of entries, over all classes, of the workers before it. */
  ghost function Offset(results: seq<Index>, r: nat): nat
    requires r <= |results|
  {
    if r == 0 then 0 else Offset(results, r - 1) + SumSizes(results[r - 1])
  }

  /** The entries of class `k` that the first `r` workers contribute, rebased, in worker order. */
  ghost function Collected(results: seq<Index>, k: string, r: nat): seq<DbInfo>
    requires r <= |results|
  {
    if r == 0 then [] else Collected(results, k, r - 1) + Shift(Get(results[r - 1], k), Offset(results, r - 1))
  }

  /** The merged database: every vocabulary class some worker found, with all its entries. */
  ghost function MergeSpec(results: seq<Index>): Index
  {
    map k | k in Vocabulary && |Collected(results, k, |results|)| > 0 :: Collected(results, k, |results|)
  }

  // ---------------------------------------------------------------------------------------------
  // The merge loop

  /** The merge of the workers' indices, worker by worker: rebase, count, extend, then delete the
      empty classes. */
  method MergeResults(results: seq<Index>) returns (allDbInfos: Index)
    ensures allDbInfos == MergeSpec(results)
    ensures allDbInfos.Keys <= Vocabulary
    ensures forall k :: k in allDbInfos ==> |allDbInfos[k]| > 0
  {
    allDbInfos := map k | k in Vocabulary :: [];
    MergedInitially(results, allDbInfos);
    var groupCounter: nat := 0;
    for r := 0 to |results|
      invariant groupCounter == Offset(results, r)
      invariant MergedUpTo(results, r, allDbInfos)
    {
      allDbInfos, groupCounter := MergeWorker(results, r, allDbInfos, groupCounter);
    }
    MergedIsSpec(results, allDbInfos);
    allDbInfos := DropEmpty(allDbInfos);
    MergeSpecShape(results);
  }

  /** One worker's turn in the merge: rebase its ids by the running counter, advance the counter by
      its entry count, and append its lists to the vocabulary classes. */
  method MergeWorker(results: seq<Index>, r: nat, acc: Index, groupCounter: nat) returns (acc': Index, counter': nat)
    requires r < |results| && groupCounter == Offset(results, r) && MergedUpTo(results, r, acc)
    ensures counter' == Offset(results, r + 1)
    ensures MergedUpTo(results, r + 1, acc')
  {
    var dbinfo := ShiftIds(results[r], groupCounter);
    var count := CountEntries(dbinfo);
    SumSizesSameShape(dbinfo, results[r]);
    counter' := groupCounter + count;
    acc' := ExtendKnown(acc, dbinfo);
    MergeStep(results, r, acc, dbinfo, acc');
  }

  /** The merged database holds only vocabulary classes, none of them empty. */
  lemma MergeSpecShape(results: seq<Index>)
    ensures MergeSpec(results).Keys <= Vocabulary
    ensures forall k :: k in MergeSpec(results) ==> |MergeSpec(results)[k]| > 0
  {
  }

  /** The merged lists after the first `r` workers: every vocabulary class, with its collection. */
  ghost predicate MergedUpTo(results: seq<Index>, r: nat, m: Index)
    requires r <= |results|
  {
    m.Keys == Vocabulary && forall k :: k in m ==> m[k] == Collected(results, k, r)
  }

  lemma MergedInitially(results: seq<Index>, m: Index)
    requires m == map k | k in Vocabulary :: []
    ensures MergedUpTo(results, 0, m)
  {
  }

  lemma MergeStep(results: seq<Index>, r: nat, before: Index, dbinfo: Index, after: Index)
    requires r < |results| && MergedUpTo(results, r, before)
    requires dbinfo.Keys == results[r].Keys
    requires forall k :: k in dbinfo ==> dbinfo[k] == Shift(results[r][k], Offset(results, r))
    requires after.Keys == before.Keys && forall k :: k in before ==> after[k] == before[k] + Get(dbinfo, k)
    ensures MergedUpTo(results, r + 1, after)
  {
    forall k | k in after ensures after[k] == Collected(results, k, r + 1) {
      assert Get(dbinfo, k) == Shift(Get(results[r], k), Offset(results, r));
    }
  }

  /** Removing the empty lists of the merged vocabulary gives the merged database. */
  lemma MergedIsSpec(results: seq<Index>, m: Index)
    requires MergedUpTo(results, |results|, m)
    ensures (map k | k in m && |m[k]| > 0 :: m[k]) == MergeSpec(results)
  {
  }

  /** Adds `off` to the group id of every entry of every class (`v['group_id'] += group_counter`). */
  method ShiftIds(dbinfo: Index, off: nat) returns (shifted: Index)
    ensures shifted.Keys == dbinfo.Keys
    ensures forall k :: k in dbinfo ==> shifted[k] == Shift(dbinfo[k], off)
  {
    shifted := dbinfo;
    var todo := dbinfo.Keys;
    while todo != {}
      invariant todo <= dbinfo.Keys && shifted.Keys == dbinfo.Keys
      invariant forall k :: k in dbinfo ==> shifted[k] == if k in todo then dbinfo[k] else Shift(dbinfo[k], off)
      decreases |todo|
    {
      var k :| k in todo;
      var vs := shifted[k];
      for j := 0 to |vs|
        invariant |vs| == |dbinfo[k]|
        invariant forall m :: 0 <= m < |vs| ==> vs[m] == if m < j then Rebased(dbinfo[k][m], off) else dbinfo[k][m]
      {
        vs := vs[j := vs[j].(groupId := vs[j].groupId + off)];
      }
      shifted := shifted[k := vs];
      todo := todo - {k};
    }
  }

  /** The restriction of an index to the classes in `ks`. */
  ghost function Restrict(m: Index, ks: set<string>): Index
  {
    map k | k in m && k in ks :: m[k]
  }

  /** The number of entries over all classes (`group_counter += len(dbinfo[k])` for every class). */
  method CountEntries(dbinfo: Index) returns (n: nat)
    ensures n == SumSizes(dbinfo)
  {
    n := 0;
    var todo := dbinfo.Keys;
    assert Restrict(dbinfo, todo) == dbinfo;
    while todo != {}
      invariant todo <= dbinfo.Keys
      invariant n + SumSizes(Restrict(dbinfo, todo)) == SumSizes(dbinfo)
      decreases |todo|
    {
      var k :| k in todo;
      SumSizesRemove(Restrict(dbinfo, todo), k);
      assert Restrict(dbinfo, todo) - {k} == Restrict(dbinfo, todo - {k});
      n := n + |dbinfo[k]|;
      todo := todo - {k};
    }
    assert Restrict(dbinfo, todo) == map[];
  }

  /** Appends each class's entries to the merged list of that class, for classes already present. */
  method ExtendKnown(acc: Index, dbinfo: Index) returns (acc': Index)
    ensures acc'.Keys == acc.Keys
    ensures forall k :: k in acc ==> acc'[k] == acc[k] + Get(dbinfo, k)
  {
    acc' := acc;
    var todo := dbinfo.Keys;
    while todo != {}
      invariant todo <= dbinfo.Keys && acc'.Keys == acc.Keys
      invariant forall k :: k in acc ==> acc'[k] == acc[k] + (if k in todo then [] else Get(dbinfo, k))
      decreases |todo|
    {
      var k :| k in todo;
      if k in acc' {
        acc' := acc'[k := acc'[k] + dbinfo[k]];
      }
      todo := todo - {k};
    }
  }

  /** Collects the classes without entries, then deletes them. */
  method DropEmpty(m: Index) returns (r: Index)
    ensures r == map k | k in m && |m[k]| > 0 :: m[k]
  {
    var delKeys: seq<string> := [];
    var todo := m.Keys;
    while todo != {}
      invariant todo <= m.Keys
      invariant forall j :: 0 <= j < |delKeys| ==> delKeys[j] in m && |m[delKeys[j]]| == 0
      invariant forall k :: k in m && k !in todo && |m[k]| == 0 ==> k in delKeys
      decreases |todo|
    {
      var k :| k in todo;
      if |m[k]| == 0 {
        delKeys := delKeys + [k];
      }
      todo := todo - {k};
    }
    r := m;
    for j := 0 to |delKeys|
      invariant r == map k | k in m && k !in delKeys[..j] :: m[k]
    {
      assert delKeys[..j + 1] == delKeys[..j] + [delKeys[j]];
      r := r - {delKeys[j]};
    }
    assert delKeys[..|delKeys|] == delKeys;
  }

  // ---------------------------------------------------------------------------------------------
  // Properties of the merge

  /** Two indices with the same classes and list lengths hold as many entries. */
  lemma {:induction false} SumSizesSameShape(m1: Index, m2: Index)
    requires m1.Keys == m2.Keys && forall k :: k in m1 ==> |m1[k]| == |m2[k]|
    ensures SumSizes(m1) == SumSizes(m2)
    decreases |m1.Keys|
  {
    if m1 != map[] {
      var k := Pick(m1);
      SumSizesRemove(m1, k);
      SumSizesRemove(m2, k);
      assert (m1 - {k}).Keys == m1.Keys - {k};
      SumSizesSameShape(m1 - {k}, m2 - {k});
    }
  }

  /** Later workers have larger offsets: worker `r2` starts at or past the end of worker `r1`. */
  lemma {:induction false} OffsetMonotone(results: seq<Index>, r1: nat, r2: nat)
    requires r1 < r2 <= |results|
    ensures Offset(results, r1) + SumSizes(results[r1]) <= Offset(results, r2)
  {
    if r2 > r1 + 1 {
      OffsetMonotone(results, r1, r2 - 1);
    }
  }

  /** An entry is in the first `r` workers' collection of class `k` iff it is an entry of class `k`
      of one of those workers, rebased by that worker's offset. */
  lemma {:induction false} CollectedMembers(results: seq<Index>, k: string, r: nat, e: DbInfo)
    requires r <= |results|
    ensures e in Collected(results, k, r) <==>
            exists w, e0 :: 0 <= w < r && e0 in Get(results[w], k) && e == Rebased(e0, Offset(results, w))
  {
    if r > 0 {
      CollectedMembers(results, k, r - 1, e);
      var s := Get(results[r - 1], k);
      var off := Offset(results, r - 1);
      if e in Shift(s, off) {
        var j :| 0 <= j < |s| && Shift(s, off)[j] == e;
        assert s[j] in s;
      }
      if exists e0 :: e0 in s && e == Rebased(e0, off) {
        var e0 :| e0 in s && e == Rebased(e0, off);
        var j :| 0 <= j < |s| && s[j] == e0;
        assert Shift(s, off)[j] == e;
      }
    }
  }

  /** Each worker adds as many entries of class `k` as it found. */
  lemma CollectedLength(results: seq<Index>, k: string, r: nat)
    requires 0 < r <= |results|
    ensures |Collected(results, k, r)| == |Collected(results, k, r - 1)| + |Get(results[r - 1], k)|
  {
  }

  /** The number of entries of class `k` the first `r` workers found. */
  ghost function CountOf(results: seq<Index>, k: string, r: nat): nat
    requires r <= |results|
  {
    if r == 0 then 0 else CountOf(results, k, r - 1) + |Get(results[r - 1], k)|
  }

  lemma {:induction false} CollectedCount(results: seq<Index>, k: string, r: nat)
    requires r <= |results|
    ensures |Collected(results, k, r)| == CountOf(results, k, r)
  {
    if r > 0 {
      CollectedCount(results, k, r - 1);
      CollectedLength(results, k, r);
    }
  }

  lemma {:induction false} CountOfZero(results: seq<Index>, k: string, r: nat)
    requires r <= |results|
    ensures CountOf(results, k, r) == 0 <==> forall w :: 0 <= w < r ==> |Get(results[w], k)| == 0
  {
    if r > 0 {
      CountOfZero(results, k, r - 1);
    }
  }

  /** The collection of class `k` is empty iff no worker found an entry of class `k`. */
  lemma CollectedEmpty(results: seq<Index>, k: string, r: nat)
    requires r <= |results|
    ensures |Collected(results, k, r)| == 0 <==> forall w :: 0 <= w < r ==> |Get(results[w], k)| == 0
  {
    CollectedCount(results, k, r);
    CountOfZero(results, k, r);
  }

  /** The merged classes are the vocabulary classes some worker found, and each holds exactly the
      entries of that class from all workers, each rebased by its worker's offset. */
  lemma MergeContents(results: seq<Index>, k: string, e: DbInfo)
    ensures k in MergeSpec(results) <==>
            k in Vocabulary && exists w :: 0 <= w < |results| && |Get(results[w], k)| > 0
    ensures k in MergeSpec(results) ==>
            (e in MergeSpec(results)[k] <==>
             exists w, e0 :: 0 <= w < |results| && e0 in Get(results[w], k) && e == Rebased(e0, Offset(results, w)))
  {
    CollectedEmpty(results, k, |results|);
    CollectedMembers(results, k, |results|, e);
  }

  /** Rebasing one worker's entries keeps which of them share a group id. */
  lemma ShiftKeepsIdEquality(s: seq<DbInfo>, off: nat, j1: nat, j2: nat)
    requires j1 < |s| && j2 < |s|
    ensures Shift(s, off)[j1].groupId == Shift(s, off)[j2].groupId <==> s[j1].groupId == s[j2].groupId
  {
  }

  /** Each worker's group ids stay below the number of entries it returned. */
  ghost predicate IdsBelowTotal(dbinfo: Index)
  {
    forall k, e :: k in dbinfo && e in dbinfo[k] ==> e.groupId < SumSizes(dbinfo)
  }

  /** When every worker's ids stay below its entry count, rebasing puts the ids of worker `w` in
      `[Offset(w), Offset(w+1))`, so entries of different workers never share a group id. */
  lemma MergeCrossWorker(results: seq<Index>, w1: nat, w2: nat, k1: string, k2: string, e1: DbInfo, e2: DbInfo)
    requires w1 < w2 < |results|
    requires IdsBelowTotal(results[w1])
    requires e1 in Get(results[w1], k1) && e2 in Get(results[w2], k2)
    ensures Rebased(e1, Offset(results, w1)).groupId < Rebased(e2, Offset(results, w2)).groupId
  {
    OffsetMonotone(results, w1, w2);
  }
}
