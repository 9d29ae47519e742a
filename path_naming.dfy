/** Default output locations of the database directory and the index file, per dataset family. */
module PathNaming {
  import opened Common

  /** The index of the last `c` in `s`, or -1: Python's `str.rfind`. */
  function RFind(s: string, c: char): (i: int)
    ensures -1 <= i < |s|
    ensures i >= 0 ==> s[i] == c && forall k :: i < k < |s| ==> s[k] != c
    ensures i == -1 ==> forall k :: 0 <= k < |s| ==> s[k] != c
  {
    if s == [] then -1 else if s[|s| - 1] == c then |s| - 1 else RFind(s[..|s| - 1], c)
  }

  /** pathlib's `stem` of a final path component: the name without its suffix, where the suffix is
      the part from the last `.` on, provided that dot neither starts nor ends the name. */
  function Stem(name: string): (stem: string)
    ensures stem <= name
    ensures (forall k :: 0 <= k < |name| ==> name[k] != '.') ==> stem == name
    ensures |stem| < |name| ==> 0 < |stem| < |name| - 1 && name[|stem|] == '.'
    ensures |stem| < |name| ==> forall k :: |stem| < k < |name| ==> name[k] != '.'
    ensures stem == name ==> forall k :: 0 < k < |name| - 1 && name[k] == '.' ==> name[|name| - 1] == '.'
  {
    var i := RFind(name, '.');
    if 0 < i < |name| - 1 then name[..i] else name
  }

  /** The final component of a path (`""` for the empty path). */
  function Name(path: Path): string
  {
    if path == [] then "" else path[|path| - 1]
  }

  function VirtualSuffix(virtual: bool): string
  {
    if virtual then "_virtual" else ""
  }

  /** The name tag of the WAYMO and NUSC families: sweep count, velocity, optional virtual points. */
  function SweepTag(nsweeps: nat, virtual: bool): string
  {
    NatToString(nsweeps) + "sweeps_withvelo" + VirtualSuffix(virtual)
  }

  /** The name tag of the NIA family: the sensor modality, optional virtual points. */
  function SensorTag(sensor: string, virtual: bool): string
  {
    sensor + VirtualSuffix(virtual)
  }

  function DbDirName(tag: string): string
  {
    "gt_database_" + tag
  }

  function DbInfoFileName(tag: string): string
  {
    "dbinfos_train_" + tag + ".pkl"
  }

  function GetOr(p: Option<Path>, default: Path): Path
  {
    if p.Some? then p.value else default
  }

  /** The database directory and index file to use: an explicit path is kept, a missing one gets the
      family's default under `root`. WAYMO and NUSC name defaults by sweep count; NIA by the `sensor`
      keyword argument, whose absence is a KeyError when a default is needed. Any other family is
      not implemented. */
  function DefaultPaths(family: string, root: Path, dbPath: Option<Path>, dbinfoPath: Option<Path>,
                        virtual: bool, nsweeps: nat, sensor: Option<string>): (r: Result<(Path, Path), BuildError>)
    ensures r.Success? <==> family in {"WAYMO", "NUSC"} ||
                            (family == "NIA" && (sensor.Some? || (dbPath.Some? && dbinfoPath.Some?)))
    ensures r.Failure? ==> r.error == if family == "NIA" then MissingArgument("sensor") else NotImplemented
    ensures r.Success? && dbPath.Some? ==> r.value.0 == dbPath.value
    ensures r.Success? && dbinfoPath.Some? ==> r.value.1 == dbinfoPath.value
    ensures r.Success? && family in {"WAYMO", "NUSC"} ==>
              (dbPath.None? ==> r.value.0 == root + [DbDirName(SweepTag(nsweeps, virtual))]) &&
              (dbinfoPath.None? ==> r.value.1 == root + [DbInfoFileName(SweepTag(nsweeps, virtual))])
    ensures r.Success? && family == "NIA" ==>
              (dbPath.None? ==> r.value.0 == root + [DbDirName(SensorTag(sensor.value, virtual))]) &&
              (dbinfoPath.None? ==> r.value.1 == root + [DbInfoFileName(SensorTag(sensor.value, virtual))])
  {
    if family == "WAYMO" || family == "NUSC" then
      var tag := SweepTag(nsweeps, virtual);
      Success((GetOr(dbPath, root + [DbDirName(tag)]), GetOr(dbinfoPath, root + [DbInfoFileName(tag)])))
    else if family == "NIA" then
      if dbPath.Some? && dbinfoPath.Some? then Success((dbPath.value, dbinfoPath.value))
      else if sensor.None? then Failure(MissingArgument("sensor"))
      else
        var tag := SensorTag(sensor.value, virtual);
        Success((GetOr(dbPath, root + [DbDirName(tag)]), GetOr(dbinfoPath, root + [DbInfoFileName(tag)])))
    else
      Failure(NotImplemented)
  }

  lemma DropPrefix(p: string, x: string, y: string)
    requires p + x == p + y
    ensures x == y
  {
    assert x == (p + x)[|p|..];
    assert y == (p + y)[|p|..];
  }

  /** Runs with different sweep counts or virtual-point settings never share a default database
      directory: the sweep tag determines both. */
  lemma SweepTagInjective(n1: nat, v1: bool, n2: nat, v2: bool)
    requires DbDirName(SweepTag(n1, v1)) == DbDirName(SweepTag(n2, v2))
    ensures n1 == n2 && v1 == v2
  {
    var t1, t2 := "sweeps_withvelo" + VirtualSuffix(v1), "sweeps_withvelo" + VirtualSuffix(v2);
    assert SweepTag(n1, v1) == NatToString(n1) + t1;
    assert SweepTag(n2, v2) == NatToString(n2) + t2;
    DropPrefix("gt_database_", SweepTag(n1, v1), SweepTag(n2, v2));
    NatToStringPrefixInjective(n1, n2, t1, t2);
    assert |t1| == |t2|;
  }

  /** A default WAYMO/NUSC database directory name has no suffix, so its stem (the first component of
      every relative entry path) is the directory name itself. */
  lemma SweepDirStem(nsweeps: nat, virtual: bool)
    ensures Stem(DbDirName(SweepTag(nsweeps, virtual))) == DbDirName(SweepTag(nsweeps, virtual))
  {
    SweepDirNoDot(nsweeps, virtual);
  }

  predicate NoDot(s: string)
  {
    forall k :: 0 <= k < |s| ==> s[k] != '.'
  }

  lemma NoDotConcat(a: string, b: string)
    requires NoDot(a) && NoDot(b)
    ensures NoDot(a + b)
  {
    forall k | 0 <= k < |a + b| ensures (a + b)[k] != '.' {
      if k >= |a| {
        assert (a + b)[k] == b[k - |a|];
      }
    }
  }

  lemma SweepDirNoDot(nsweeps: nat, virtual: bool)
    ensures NoDot(DbDirName(SweepTag(nsweeps, virtual)))
  {
    var digits := NatToString(nsweeps);
    assert NoDot(digits);
    assert NoDot("gt_database_");
    assert NoDot("sweeps_withvelo");
    assert NoDot(VirtualSuffix(virtual));
    NoDotConcat(digits, "sweeps_withvelo");
    NoDotConcat(digits + "sweeps_withvelo", VirtualSuffix(virtual));
    NoDotConcat("gt_database_", SweepTag(nsweeps, virtual));
  }
}
