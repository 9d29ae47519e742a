/** The database index: a dictionary from class name to the list of that class's entries. */
module DbIndex {
  import opened Extraction

  type Index = map<string, seq<DbInfo>>

  /** The list stored under `k`, or the empty list. */
  function Get(m: Index, k: string): seq<DbInfo>
  {
    if k in m then m[k] else []
  }

  /** `all_db_infos[name].append(info)`, starting a new list for a class seen for the first time. */
  function Add(m: Index, e: DbInfo): (r: Index)
    ensures r.Keys == m.Keys + {e.name}
    ensures r[e.name] == Get(m, e.name) + [e]
    ensures forall k :: k in m && k != e.name ==> r[k] == m[k]
  {
    if e.name in m then m[e.name := m[e.name] + [e]] else m[e.name := [e]]
  }

  /** The index after appending the entries of `s` one by one. */
  function AppendAll(m: Index, s: seq<DbInfo>): Index
  {
    if s == [] then m else Add(AppendAll(m, s[..|s| - 1]), s[|s| - 1])
  }

  /** The index a sequence of entries builds from an empty dictionary. */
  function GroupByName(s: seq<DbInfo>): Index
  {
    AppendAll(map[], s)
  }

  /** The entries of `s` whose class is `k`, in their order in `s`. */
  function WithName(s: seq<DbInfo>, k: string): (r: seq<DbInfo>)
    ensures forall j :: 0 <= j < |r| ==> r[j].name == k && r[j] in s
  {
    if s == [] then []
    else
      var init, last := s[..|s| - 1], s[|s| - 1];
      assert s == init + [last];
      WithName(init, k) + (if last.name == k then [last] else [])
  }

  lemma GroupByNameSnoc(s: seq<DbInfo>, e: DbInfo)
    ensures GroupByName(s + [e]) == Add(GroupByName(s), e)
  {
    assert (s + [e])[..|s|] == s;
  }

  /** Every entry is stored under the key equal to its class name, in the order it was appended. */
  lemma {:induction false} GroupByNameLists(s: seq<DbInfo>, k: string)
    ensures Get(GroupByName(s), k) == WithName(s, k)
  {
    if s != [] {
      var init, last := s[..|s| - 1], s[|s| - 1];
      GroupByNameLists(init, k);
      assert s == init + [last];
      GroupByNameSnoc(init, last);
    }
  }

  /** No list in the index is empty. */
  lemma {:induction false} GroupByNameNonEmpty(s: seq<DbInfo>, k: string)
    ensures k in GroupByName(s) ==> |GroupByName(s)[k]| > 0
  {
    if s != [] {
      var init, last := s[..|s| - 1], s[|s| - 1];
      GroupByNameNonEmpty(init, k);
      GroupByNameSnoc(init, last);
    }
  }

  /** A class is absent from `WithName` exactly when no entry carries it. */
  lemma {:induction false} WithNameEmpty(s: seq<DbInfo>, k: string)
    ensures WithName(s, k) == [] <==> forall j :: 0 <= j < |s| ==> s[j].name != k
  {
    if s != [] {
      var init, last := s[..|s| - 1], s[|s| - 1];
      WithNameEmpty(init, k);
      assert s == init + [last];
      if WithName(s, k) == [] {
        forall j | 0 <= j < |s| ensures s[j].name != k {
          if j < |init| {
            assert s[j] == init[j];
          }
        }
      }
    }
  }

  /** The keys are exactly the classes that occur, and no list is empty. */
  lemma GroupByNameKeys(s: seq<DbInfo>, k: string)
    ensures k in GroupByName(s) <==> exists j :: 0 <= j < |s| && s[j].name == k
    ensures k in GroupByName(s) ==> |GroupByName(s)[k]| > 0
  {
    GroupByNameNonEmpty(s, k);
    GroupByNameLists(s, k);
    WithNameEmpty(s, k);
  }

  /** The chosen key of a non-empty index. */
  ghost function Pick(m: Index): string
    requires m != map[]
  {
    var k :| k in m; k
  }

  /** The total number of entries over all classes (`sum(len(v) for v in d.values())`). */
  ghost function SumSizes(m: Index): nat
    decreases |m.Keys|
  {
    if m == map[] then 0
    else
      var k := Pick(m);
      assert |(m - {k}).Keys| < |m.Keys| by {
        assert (m - {k}).Keys == m.Keys - {k};
      }
      |m[k]| + SumSizes(m - {k})
  }

  /** The total can be taken with any key first. */
  lemma {:induction false} SumSizesRemove(m: Index, k: string)
    requires k in m
    ensures SumSizes(m) == |m[k]| + SumSizes(m - {k})
    decreases |m.Keys|
  {
    var k' := Pick(m);
    if k' != k {
      assert (m - {k'}).Keys == m.Keys - {k'};
      assert (m - {k}).Keys == m.Keys - {k};
      SumSizesRemove(m - {k'}, k);
      SumSizesRemove(m - {k}, k');
      assert m - {k'} - {k} == m - {k} - {k'};
    }
  }

  /** Appending one entry adds one to the total. */
  lemma SumSizesAdd(m: Index, e: DbInfo)
    ensures SumSizes(Add(m, e)) == SumSizes(m) + 1
  {
    var r := Add(m, e);
    SumSizesRemove(r, e.name);
    if e.name in m {
      SumSizesRemove(m, e.name);
      assert r - {e.name} == m - {e.name};
    } else {
      assert r - {e.name} == m;
    }
  }

  /** The index holds exactly as many entries as were appended. */
  lemma {:induction false} GroupByNameSize(s: seq<DbInfo>)
    ensures SumSizes(GroupByName(s)) == |s|
  {
    if s != [] {
      var init := s[..|s| - 1];
      GroupByNameSize(init);
      SumSizesAdd(GroupByName(init), s[|s| - 1]);
    }
  }
}
