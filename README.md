# Ground-truth database index builder (CenterPoint `create_gt_database_multi.py`)

A Dafny model of the bookkeeping behind CenterPoint's ground-truth database builder. The builder
walks the frames of a lidar dataset and writes the points of every annotated object to a file. It
also records an index entry (`db_info`) per object, under the object's class, and gives objects that
belong together a shared `group_id`. The model covers four parts:

- **Work partitioning** (`Partitioning`). The orchestrator takes the first 40 frames and cuts them
  into `num_process + 1` slices of width `n // num_process`, with Python's slice clipping.
- **One worker** (`Extraction`, `DbIndex`, `Worker`). `get_gt_data` goes through its frames:
  - it applies the WAYMO class subsampling and the class allow-list;
  - it writes each object's point file; a failed write ends that frame;
  - it maps each frame-local group id to a worker-local counter value on first appearance;
  - it appends each entry to the list of its class.
  
  `info_distribution` is the same extraction over the whole dataset, without files.
- **The merge** (`Merge`). Each worker's group ids are moved past the entry count of the workers
  before it. Only the seven vocabulary classes are kept, and empty classes are deleted.
- **The orchestrator** (`PathNaming`, `GtDatabase`). It resolves the default output paths per
  dataset family, checks `num_process`, runs one worker per slice in submission order, and merges
  the results.

The two loops over frames and objects are methods. So are the submission loop and the merge loops
over dictionary keys. Each is proved equal to a specification function (`WorkerRun`, `Objects`,
`PartitionResults`, `MergeSpec`), and the lemmas state what the source promises about those
functions. The slicing comprehension, the WAYMO masks and the path naming are pure functions.

Modelling choices:
- A dataset is a sequence of `Frame`s. A frame holds an optional `image_idx` and the annotation rows
  (`names` and `boxes` together, since the WAYMO masks filter them together). It also holds the
  optional `group_ids`, `difficulty` and `score` arrays.
- As in the source, the optional arrays are not subsampled and are read at the post-subsampling
  position `i`.
- A box is abstracted to the number of points it contains in the single-sweep cloud and in the
  combined cloud. The source reads the combined cloud when `nsweeps > 1`.
- A point-file write is an oracle `writeOk(index, i)`, for frame `index` and object `i`.
- The process pool is sequential evaluation in submission order, which is the order
  `future.result()` collects results in.
- Python's dictionary iteration order in the merge is an arbitrary choice of the next key. The
  merge's result is shown not to depend on it.
- `nsweeps` is the resolved value: `dataset.nsweeps`, or 1 when no `nsweeps` keyword is given.
  `kwargs['sensor']` and `kwargs['num_process']` are `Option`s, and their absence is the `KeyError`
  the source raises.
- Paths are sequences of components: `root / "x"` appends one, and `Path.stem` strips the last
  suffix of the last component.

The model reproduces these behaviours of the code as written:
- The work list is truncated to 40 frames.
- The slices miss the tail of the work list whenever `n % num_process > n // num_process`.
  `PartitionCoversIff` states exactly when coverage holds.
- A failed write drops the failing object and every later object of its frame. So an entry exists
  for an allow-listed object only when no earlier allow-listed object of its frame failed.
- The merge keeps only the seven fixed road-structure classes. Entries of any other class are
  dropped from the database, but they still count towards the group-id offsets.
- An unknown dataset family fails at the `dataset_name_map` lookup, before the
  `NotImplementedError` branch of the path naming could be reached.

## Model

| member | source | states |
|---|---|---|
| Partitioning.WorkList | CenterPoint-static/det3d/datasets/utils/create_gt_database_multi.py:291 | the work list is `[0, min(len(dataset), 40))` |
| Partitioning.PySlice | CenterPoint-static/det3d/datasets/utils/create_gt_database_multi.py:301 | Python slicing with both bounds clipped to the length: the length and each element of the slice |
| Partitioning.Partition | CenterPoint-static/det3d/datasets/utils/create_gt_database_multi.py:294-301 | there are `p + 1` slices, and slice `i` is `[i*b, (i+1)*b)` clipped to `n`, with `b = n // p` |
| Partitioning.Submitted | CenterPoint-static/det3d/datasets/utils/create_gt_database_multi.py:301 | slicing `arange(n)` with the bounds of `start_end_idx[i]` gives batch `i` |
| Partitioning.SlicesAscending | CenterPoint-static/det3d/datasets/utils/create_gt_database_multi.py:294-301 | every index of an earlier slice is below every index of a later one, so slices are disjoint and ascending |
| Partitioning.SliceInRange | CenterPoint-static/det3d/datasets/utils/create_gt_database_multi.py:291-301 | every index handed to a worker is below `n` |
| Partitioning.ConcatBatches | CenterPoint-static/det3d/datasets/utils/create_gt_database_multi.py:294-301 | the first `m` slices together are `[0, min(m*b, n))` |
| Partitioning.PartitionUnion | CenterPoint-static/det3d/datasets/utils/create_gt_database_multi.py:291-301 | all slices together are exactly `[0, min((p+1)*(n//p), n))` |
| Partitioning.PartitionCoversIff | CenterPoint-static/det3d/datasets/utils/create_gt_database_multi.py:291-301 | the slices cover the whole work list iff `n % p <= n // p` |
| Partitioning.ThreeFramesFourWorkers | CenterPoint-static/det3d/datasets/utils/create_gt_database_multi.py:294-295 | three frames and four workers give a batch size of 0, and no frame is processed |
| Common.NatToString | CenterPoint-static/det3d/datasets/utils/create_gt_database_multi.py:267 | the decimal rendering of an f-string field: non-empty, all digits, no leading zero, one digit exactly below 10, and its digits read in base 10 give back the number |
| Common.NatToStringInjective | CenterPoint-static/det3d/datasets/utils/create_gt_database_multi.py:180 | different numbers render differently |
| Common.NatToStringPrefixInjective | CenterPoint-static/det3d/datasets/utils/create_gt_database_multi.py:180 | a rendering followed by a non-digit determines both the number and the rest |
| PathNaming.Stem | CenterPoint-static/det3d/datasets/utils/create_gt_database_multi.py:196 | `Path.stem` is a prefix of the name; when it is shorter, the cut is at the last dot, which neither starts nor ends the name; the name is its own stem only when it has no dot strictly inside or its last character is a dot |
| PathNaming.DefaultPaths | CenterPoint-static/det3d/datasets/utils/create_gt_database_multi.py:264-287 | WAYMO and NUSC always succeed; NIA succeeds iff `sensor` is given or both paths are explicit; the failure is a missing `sensor` for NIA and not-implemented otherwise; an explicit path is kept; default paths are `root/gt_database_{tag}` and `root/dbinfos_train_{tag}.pkl`, where the tag is `{nsweeps}sweeps_withvelo[_virtual]` for WAYMO/NUSC and `{sensor}[_virtual]` for NIA |
| PathNaming.SweepTagInjective | CenterPoint-static/det3d/datasets/utils/create_gt_database_multi.py:266-269 | distinct sweep counts or virtual flags give distinct default directory names |
| PathNaming.SweepDirStem | CenterPoint-static/det3d/datasets/utils/create_gt_database_multi.py:196 | the stem of a default WAYMO/NUSC directory name is the name itself |
| Extraction.Keep | CenterPoint-static/det3d/datasets/utils/create_gt_database_multi.py:152-162 | a mask keeps only rows whose name passes it and every row that passes; with KeepAppend and KeepOne, it keeps each passing row once, in order |
| Extraction.KeepAppend | CenterPoint-static/det3d/datasets/utils/create_gt_database_multi.py:153-162 | masking a concatenation is the concatenation of the masked parts, so each row is kept or dropped on its own and order is kept |
| Extraction.KeepOne | CenterPoint-static/det3d/datasets/utils/create_gt_database_multi.py:153-162 | a single row survives iff its name passes the mask |
| Extraction.Subsample | CenterPoint-static/det3d/datasets/utils/create_gt_database_multi.py:147-162 | after the vehicle mask and then the pedestrian mask, every row left is a row of the frame that passes SampledIn, and every such row is left |
| Extraction.SubsampleIsFilter | CenterPoint-static/det3d/datasets/utils/create_gt_database_multi.py:147-162 | the two WAYMO masks together are one filter: vehicles survive only when `index % 4 == 0` and pedestrians only when `index % 2 == 0`; other rows keep their order; other families are untouched |
| Extraction.KeepTwice | CenterPoint-static/det3d/datasets/utils/create_gt_database_multi.py:152-162 | applying the vehicle mask and then the pedestrian mask equals one mask by both conditions |
| Extraction.MakeView | CenterPoint-static/det3d/datasets/utils/create_gt_database_multi.py:131-172 | the rows the object loop sees are the subsampled rows; `image_idx` is the metadata value when present, else the frame index; `group_ids`, `difficulty` and `score` are the unfiltered arrays as given (read at the subsampled position), with `arange` and zeros over the subsampled length as defaults |
| Extraction.Selected | CenterPoint-static/det3d/datasets/utils/create_gt_database_multi.py:179 | an object passes the class filter iff no `used_classes` is given or its class is one of them |
| Extraction.FileName | CenterPoint-static/det3d/datasets/utils/create_gt_database_multi.py:180 | the point file is named `{image_idx}_{name}_{i}.bin`; it always ends in `.bin`, and FileNamesDistinct shows it never repeats within a frame and class |
| Extraction.FileNamesDistinct | CenterPoint-static/det3d/datasets/utils/create_gt_database_multi.py:180 | two objects of one frame and one class never share a file name |
| Extraction.EntryPath | CenterPoint-static/det3d/datasets/utils/create_gt_database_multi.py:195-198 | with `relative_path` the path is `db_path.stem / name / file`, otherwise `db_path / name / file` |
| Extraction.MakeEntry | CenterPoint-static/det3d/datasets/utils/create_gt_database_multi.py:180-218 | the fields of an entry: name, frame id, `gt_idx = i`, box, difficulty and score; the group id it is given; the path (`db_path.stem/name/file` or `db_path/name/file`); the point count of the cloud the worker reads |
| Extraction.StoppedStays | CenterPoint-static/det3d/datasets/utils/create_gt_database_multi.py:187-192 | after a failed write, the remaining objects of the frame change nothing |
| Extraction.Step | CenterPoint-static/det3d/datasets/utils/create_gt_database_multi.py:178-222 | one object: skipped after a failed write or when filtered out; a failed write ends the frame; otherwise a new local id gets the current counter, which then advances, and the entry is appended |
| Extraction.Objects | CenterPoint-static/det3d/datasets/utils/create_gt_database_multi.py:174-222 | the object loop over the first `k` objects, starting with an empty `group_dict` and the worker's counter |
| Extraction.ExtractFrame | CenterPoint-static/det3d/datasets/utils/create_gt_database_multi.py:164-222 | a frame left with no objects after subsampling contributes nothing and keeps the counter; otherwise the whole object loop runs with a fresh `group_dict` |
| Extraction.ObjectsEntryInv | CenterPoint-static/det3d/datasets/utils/create_gt_database_multi.py:178-222 | the entry invariant holds after every prefix of the object loop |
| Extraction.ObjectsGroupInv | CenterPoint-static/det3d/datasets/utils/create_gt_database_multi.py:211-216 | the group-id invariant holds after every prefix of the object loop |
| Extraction.FrameEntries | CenterPoint-static/det3d/datasets/utils/create_gt_database_multi.py:174-222 | object `i` yields an entry iff it passes the class filter and no allow-listed object up to and including it failed its write; entries come in object order and are built by MakeEntry |
| Extraction.FrameGroupIds | CenterPoint-static/det3d/datasets/utils/create_gt_database_multi.py:211-216 | within a frame, two entries share a group id iff their local group ids are equal |
| Extraction.FrameGroupIdsDistinct | CenterPoint-static/det3d/datasets/utils/create_gt_database_multi.py:166-169 | without a `group_ids` annotation, every entry of a frame gets its own group id |
| Extraction.FrameGroupIdsFresh | CenterPoint-static/det3d/datasets/utils/create_gt_database_multi.py:213-215 | a frame's ids fill `[c0, counter)` with no gap, a first use exceeds every earlier id, and the counter grows by at most the number of entries |
| DbIndex.Add | CenterPoint-static/det3d/datasets/utils/create_gt_database_multi.py:219-222 | appending an entry extends only its own class's list, starting a new list for a new class |
| DbIndex.GroupByNameLists | CenterPoint-static/det3d/datasets/utils/create_gt_database_multi.py:219-222 | the list under a class is exactly the appended entries of that class, in append order |
| DbIndex.GroupByNameKeys | CenterPoint-static/det3d/datasets/utils/create_gt_database_multi.py:219-222 | the keys are exactly the classes that occur, and no list is empty |
| DbIndex.GroupByNameSize | CenterPoint-static/det3d/datasets/utils/create_gt_database_multi.py:344-345 | the total over all lists equals the number of entries appended |
| Worker.WorkerRun | CenterPoint-static/det3d/datasets/utils/create_gt_database_multi.py:127-176 | one entry list per frame of the slice, with the counter threaded through the frames |
| Worker.GetGtData | CenterPoint-static/det3d/datasets/utils/create_gt_database_multi.py:122-224 | the returned index groups by class all the entries of the run, frame after frame |
| Worker.AddFrameObjects | CenterPoint-static/det3d/datasets/utils/create_gt_database_multi.py:178-222 | the object loop of one frame leaves the counter and the index the loop specification gives, including the early exit on a failed write |
| Worker.InfoDistribution | CenterPoint-static/det3d/datasets/utils/create_gt_database_multi.py:19-113 | the same extraction over every frame, without subsampling or files; every printed class has at least one entry |
| Worker.SurveyYieldsEverySelected | CenterPoint-static/det3d/datasets/utils/create_gt_database_multi.py:87-109 | without files, an object yields an entry iff it passes the class filter |
| Worker.WorkerRunPrefix | CenterPoint-static/det3d/datasets/utils/create_gt_database_multi.py:128-130 | later frames do not change earlier frames' entries, and the counter never decreases |
| Worker.WorkerFrame | CenterPoint-static/det3d/datasets/utils/create_gt_database_multi.py:164-216 | frame `a` of a slice produces ExtractFrame's entries from the counter left by the frames before it; its ids lie between the counters before and after it; a frame left without objects contributes nothing |
| Worker.WorkerFramesDisjoint | CenterPoint-static/det3d/datasets/utils/create_gt_database_multi.py:164-215 | entries of an earlier frame of a worker have smaller group ids than those of a later frame |
| Worker.WorkerCounterBound | CenterPoint-static/det3d/datasets/utils/create_gt_database_multi.py:128-216 | every id a worker emits is below its final counter, and the counter is at most the number of entries |
| Worker.WorkerIdsBelowTotal | CenterPoint-static/det3d/datasets/utils/create_gt_database_multi.py:128-224 | every id in a worker's index is below the total number of its entries |
| Merge.Rebased | CenterPoint-static/det3d/datasets/utils/create_gt_database_multi.py:342 | rebasing adds the offset to the group id and leaves every other field alone |
| Merge.Offset | CenterPoint-static/det3d/datasets/utils/create_gt_database_multi.py:337-345 | worker `r` is rebased by the total number of entries, over all classes, of the workers before it |
| Merge.Collected | CenterPoint-static/det3d/datasets/utils/create_gt_database_multi.py:338-349 | a class's merged list after `r` workers: the earlier workers' rebased lists of that class, in worker order |
| Merge.MergeSpec | CenterPoint-static/det3d/datasets/utils/create_gt_database_multi.py:328-357 | the database maps every vocabulary class with a non-empty collection to that collection |
| Merge.Shift | CenterPoint-static/det3d/datasets/utils/create_gt_database_multi.py:341-342 | each entry of a list is rebased and the length is unchanged |
| Merge.ShiftIds | CenterPoint-static/det3d/datasets/utils/create_gt_database_multi.py:340-342 | the loop over all lists rebases every list of the worker's index and keeps its classes |
| Merge.CountEntries | CenterPoint-static/det3d/datasets/utils/create_gt_database_multi.py:344-345 | the loop over the keys adds up the number of entries over all classes, including non-vocabulary ones |
| Merge.ExtendKnown | CenterPoint-static/det3d/datasets/utils/create_gt_database_multi.py:347-349 | a class already present is extended with the worker's list for it; other classes are ignored |
| Merge.DropEmpty | CenterPoint-static/det3d/datasets/utils/create_gt_database_multi.py:351-357 | exactly the classes with empty lists are deleted |
| Merge.MergeWorker | CenterPoint-static/det3d/datasets/utils/create_gt_database_multi.py:338-349 | one worker's turn advances the counter to the next worker's offset and extends every vocabulary class with that worker's rebased list |
| Merge.MergeResults | CenterPoint-static/det3d/datasets/utils/create_gt_database_multi.py:328-357 | the merged database is MergeSpec: only vocabulary classes, none empty, each the workers' rebased entries in worker order, whatever order the keys are visited in |
| Merge.ShiftKeepsIdEquality | CenterPoint-static/det3d/datasets/utils/create_gt_database_multi.py:340-342 | rebasing keeps which entries of a worker share a group id |
| Merge.OffsetMonotone | CenterPoint-static/det3d/datasets/utils/create_gt_database_multi.py:337-345 | a later worker's offset is at least an earlier worker's offset plus its entry count |
| Merge.CollectedMembers | CenterPoint-static/det3d/datasets/utils/create_gt_database_multi.py:338-349 | an entry is in the collection of a class iff it is some worker's entry of that class, rebased by that worker's offset |
| Merge.CollectedEmpty | CenterPoint-static/det3d/datasets/utils/create_gt_database_multi.py:338-357 | the merged list of a class is empty iff no worker found an entry of that class |
| Merge.MergeContents | CenterPoint-static/det3d/datasets/utils/create_gt_database_multi.py:338-357 | a class is in the database iff it is in the vocabulary and some worker found it; its entries are exactly the rebased entries of that class |
| Merge.MergeSpecShape | CenterPoint-static/det3d/datasets/utils/create_gt_database_multi.py:328-357 | the database's classes are vocabulary classes with non-empty lists |
| Merge.MergeCrossWorker | CenterPoint-static/det3d/datasets/utils/create_gt_database_multi.py:337-345 | when each worker's ids are below its entry count, ids of an earlier worker stay below those of a later one after rebasing |
| GtDatabase.PartitionResults | CenterPoint-static/det3d/datasets/utils/create_gt_database_multi.py:297-322 | there is one worker result per slice, in submission order |
| GtDatabase.WorkerTask | CenterPoint-static/det3d/datasets/utils/create_gt_database_multi.py:138-141 | point counts come from the combined cloud exactly when more than one sweep is used |
| GtDatabase.PartitionIndicesIn | CenterPoint-static/det3d/datasets/utils/create_gt_database_multi.py:291-301 | every slice names frames of the dataset |
| GtDatabase.RunWorkers | CenterPoint-static/det3d/datasets/utils/create_gt_database_multi.py:297-322 | the collected results are the workers' indices over their slices, in submission order |
| GtDatabase.CreateGroundtruthDatabase | CenterPoint-static/det3d/datasets/utils/create_gt_database_multi.py:227-357 | errors in source order: unknown family, missing `sensor`, missing / zero / negative `num_process`; otherwise the database is the merge of the workers' indices under the resolved paths, with only non-empty vocabulary classes |
| GtDatabase.NeverNotImplemented | CenterPoint-static/det3d/datasets/utils/create_gt_database_multi.py:241-287 | for a family that passes the `dataset_name_map` lookup, the path naming can only fail for a missing `sensor` |
| GtDatabase.PartitionResultsBounded | CenterPoint-static/det3d/datasets/utils/create_gt_database_multi.py:128-224 | each worker's ids are below its entry count |
| GtDatabase.DatabaseIdsAcrossWorkers | CenterPoint-static/det3d/datasets/utils/create_gt_database_multi.py:337-345 | in the database, entries from different workers never share a group id, whatever their classes |

## Left out

- Extraction.WellFormed: every frame's `group_ids`, `difficulty` and `score` arrays must have at least one row per box, including frames the work list never reaches. The `IndexError` the source would raise where such an array is shorter than the rows the object loop reads is not modelled.
- `box_np_ops.points_in_rbbox` (oriented-box containment, floating point): a box carries its point counts instead.
- Recentering the object's points and `tofile`: floating-point data and binary output. Only whether the write succeeds is modelled.
- `os.makedirs`, `Path.mkdir`, `open(filepath, "w")` and `pickle.dump`: filesystem effects. A failure of `open` or `makedirs` would raise outside the `try` and is not modelled.
- `get_dataset` and the construction of the dataset with its pipeline: the dataset is the input frame sequence, and `nsweeps` is its resolved value.
- `tqdm` progress bars and the `print` summaries. `info_distribution` returns the index whose list lengths it would print.
- `ProcessPoolExecutor`, `partial` and futures: workers are run one after another in submission order. An exception inside a worker is not modelled.
- Python's `os.path.join` reset on an absolute later component: paths are component sequences.
- `difficulty` and `score` values are integers; their numeric dtype is not modelled.
- The `relative_path` / `virtual` keyword defaults and `data_path` / `info_path`: they are passed through as given.
- A negative local group id is treated like any other key, as the code does; the commented-out `local_group_id >= 0` check plays no part.
