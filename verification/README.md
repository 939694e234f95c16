# argodsm-SOR benchmark tooling, modelled in Dafny

The repository benchmarks three ways of solving the same 3-D SOR (successive
over-relaxation) problem:
- a sequential C reference;
- an MPI version that cuts the k axis into one slab per rank;
- three ArgoDSM versions that run on a grid of `dsmNX x dsmNY` nodes.

Four programs surround the solvers, and this project models each of them:

- **The experiment driver, `testing.py`** (module `Driver`). For every array
  shape and node count it edits the parameter header of a code directory,
  builds the binary and runs it. Each run's output goes to a log file in the
  shape's result directory. Every `os.system` call is an event appended to the
  `trace` field of class `Driver.Driver`; the shell strings are not
  interpreted. The driver's methods are proved against functions that give
  the whole trace of each loop. Lemmas about those functions prove:
  - the number of runs;
  - that the C reference runs once per shape, first;
  - that every run is preceded by its build and its `mkdir`;
  - that distinct runs write distinct log names.
- **The collector, `collector/main.go`** (modules `CollectorTimes`,
  `CollectorResult` and `CollectorFiles`). It walks the result directories
  and classifies the log files by name: `c.out`, `mpi_N.out` and
  `argo_V_N_X_Y.out`. It keeps the timing lines of each log and files them in
  the class `CollectorResult.Result`, a nested map `ArraySize -> Meta -> SorTimes`
  that is filled by insert-or-overwrite. The map is then flattened into a list
  sorted by every key field and rendered as CSV records. `SorTimes` is a Go
  struct held by value; its `Max`/`Min`/`Middle` methods cache their result
  in the caller's copy. They are modelled as methods that return the
  statistic together with the updated value.
- **The MPI solver's decomposition, `SOR-MPI/main.cpp`** (module `SorMpi`).
  It covers:
  - how `km + 2` planes are divided among ranks, and where a global plane
    lives;
  - the slab sizes and the neighbour ranks;
  - the sweep kernel `sor` over three-dimensional arrays, with the branch each
    cell takes;
  - the even/odd alternation of buffers in `main`, and the final read of one
    cell.
- **The analysis script, `misc/main.py`** (modules `Frames` and `Analyzer`).
  A data frame is a sequence of rows; `df[mask]` is an order-preserving
  filter. The script adds the derived columns `cpu_time` and
  `optimization_boost`, sorts the boosts into three bands and counts each
  band per method. It picks the best time per shape and method.

Module `Shapes` holds what the scripts share:
- the enumeration of array shapes;
- the `(dsmNX, dsmNY)` grid table, which `testing.py` and `misc/main.py`
  carry identically;
- grouping by volume.

Module `Text` holds the string primitives the programs use: Go's
`strconv.Itoa`/`Atoi`, `strings.Split`/`Contains`/`ReplaceAll`, and the regular
expression `[0-9]+`. Module `Pipeline` connects the driver to the collector.
It also states two places where the programs disagree, kept as written:
- the driver writes under `resutls/`, while the collector reads `results`;
- the analyzer's method labels do not follow the collector's method codes.

Floating-point values are modelled as exact reals. Integers are unbounded.
Things outside the programs become parameters: the directory listings and
file contents, `strconv.ParseFloat`, `strconv.FormatFloat`, and the sizes
`im`, `jm`, `km` of the solver's parameter header.

## Model

| member | source | states |
|---|---|---|
| Text.NatToString | collector/main.go:160-162 | the decimal text Itoa writes for a natural number is non-empty and all digits |
| Text.Itoa | collector/main.go:160-162 | strconv.Itoa writes a non-empty string that starts with '-' exactly for negative numbers, and only digits for the others |
| Text.DigitsValueOfNatToString | collector/main.go:160-162 | reading the digits Itoa wrote for n gives back n |
| Text.AtoiItoa | collector/main.go:283-285 | strconv.Atoi of strconv.Itoa(n) is n for every integer, negative ones included |
| Text.Atoi | collector/main.go:283-285 | strconv.Atoi fails on the empty string, reads a string of digits as a non-negative number, and gives a negative number only for a string that starts with '-' |
| Text.ItoaInjective | collector/main.go:160-162 | different numbers are written as different strings |
| Text.Split | collector/main.go:282 | strings.Split with a one-character separator returns at least one piece |
| Text.SplitWithoutSeparator | collector/main.go:282 | a string without the separator splits into itself alone |
| Text.SplitAtFirstSeparator | collector/main.go:282 | "a<sep>b" splits into a followed by the pieces of b when a holds no separator |
| Text.LeadingDigits | collector/main.go:406 | the leading run of digits is maximal: all digits, then a non-digit or the end |
| Text.DigitRuns | collector/main.go:289-290 | FindAllString with `[0-9]+`: every match is a non-empty run of digits |
| Text.DigitRunsSkip | collector/main.go:289-290 | a digit-free prefix adds no match |
| Text.DigitRunsTake | collector/main.go:289-290 | a run of digits followed by a non-digit or the end is one whole match, ahead of the matches after it |
| CollectorTimes.InsertAsc | collector/main.go:40 | one insertion step keeps the list ascending and adds exactly the new element |
| CollectorTimes.SortAscending | collector/main.go:39-40 | sort.Float64s on a copy gives an ascending permutation of the list, of the same length |
| CollectorTimes.SortedPermutationUnique | collector/main.go:40 | two ascending permutations of the same list are equal, so which sort algorithm the library uses does not matter |
| CollectorTimes.SortedEnds | collector/main.go:39-41 | the first and last elements of the sorted copy belong to the list and bound every element from below and above |
| CollectorTimes.MaxTime | collector/main.go:30-44 | the value Max returns: the cache when it is non-zero, 0 for an empty list, otherwise an element of the list that no element exceeds |
| CollectorTimes.MinTime | collector/main.go:46-60 | the value Min returns: the cache when it is non-zero, 0 for an empty list, otherwise an element of the list no element is below |
| CollectorTimes.MiddleTime | collector/main.go:76-94 | the value Middle returns: the cache when it is non-zero, 0 for an empty list, otherwise a value with an element of the list at or below it and one at or above it |
| CollectorTimes.MaxTimeIsGreatest | collector/main.go:30-44 | without a cached value, Max of a non-empty list is an element that no element exceeds |
| CollectorTimes.MinTimeIsLeast | collector/main.go:46-60 | without a cached value, Min of a non-empty list is an element no element is below |
| CollectorTimes.MiddleTimeIsMedian | collector/main.go:76-94 | without a cached value, for every ascending permutation of a non-empty list, Middle is its middle element for odd length and the mean of its two middle elements for even length; for odd length that is an element of the list |
| CollectorTimes.MiddleTimeBetween | collector/main.go:76-94 | the median lies between the least and the greatest element |
| CollectorTimes.Max | collector/main.go:30-44 | a non-zero cache is returned and nothing changes; an empty list gives 0 and nothing changes; otherwise the result is the greatest element, it is cached in max, and the list is untouched |
| CollectorTimes.Min | collector/main.go:46-60 | as Max, with the least element and the min cache |
| CollectorTimes.Middle | collector/main.go:76-94 | as Max, with the median cached in mid: for every ascending permutation of the list, its middle element for odd length and the mean of its two middle elements for even length |
| CollectorResult.Join | collector/main.go:272-279 | after joinItem the key (size, meta) is bound to the new times, overwriting any earlier binding; every other key keeps its binding; size is an outer key |
| CollectorResult.Result.constructor | collector/main.go:134-138 | NewResult starts with an empty table |
| CollectorResult.Result.JoinItem | collector/main.go:265-279 | the table afterwards is the Join of the table before |
| CollectorResult.Result.FromStorage | collector/main.go:256-263 | the stored items are joined one by one in list order |
| CollectorResult.JoinAllLastWins | collector/main.go:256-263 | after FromStorage a key repeated in the list holds the times of its last item |
| CollectorResult.JoinAllUntouched | collector/main.go:256-263 | a key no stored item mentions keeps its earlier binding, or stays unbound |
| CollectorResult.EntriesMembership | collector/main.go:189-197 | an item is an entry of the table exactly when the nested map binds its size and meta to its times |
| CollectorResult.Less | collector/main.go:199-251 | the comparator only orders items whose keys (size and meta) differ |
| CollectorResult.LessIsStrictTotalOrderOnKeys | collector/main.go:199-251 | the comparator is irreflexive and transitive; it orders any two items with different keys; items with equal keys compare alike |
| CollectorResult.InsertItem | collector/main.go:199-251 | one insertion step adds exactly the new item |
| CollectorResult.InsertItemStrictlySorted | collector/main.go:199-251 | inserting an item whose key is new keeps a strictly sorted list strictly sorted |
| CollectorResult.SortItems | collector/main.go:199-251 | the sort returns a permutation of its input |
| CollectorResult.SortItemsStrictlySorted | collector/main.go:199-251 | items with pairwise distinct keys come out strictly ordered by (I, J, K, Method, Optimized with false first, NodeCount, DsmNX, DsmNY) |
| CollectorResult.StrictlySortedUnique | collector/main.go:199-251 | two strictly sorted lists with the same elements are equal, so the sorted output does not depend on the order the maps are walked |
| CollectorResult.StrictlySortedCount | collector/main.go:189-197 | a strictly sorted list holds no element twice |
| CollectorResult.SortedListExists | collector/main.go:183-254 | the entries of any table, whose keys determine them, can be listed in strict key order |
| CollectorResult.SortedEntries | collector/main.go:183-254 | the entries of the table listed in strict key order, each exactly once |
| CollectorResult.Result.ToStorage | collector/main.go:183-254 | returns every entry of the table exactly once, in strict key order, so the result is the same list whatever order the maps are walked in |
| CollectorResult.OptimizedText | collector/main.go:153-159 | the optimized column is written "1" for true and "0" for false |
| CollectorResult.CsvRow | collector/main.go:168-173 | a record has one column per header name, and its last column is ftoa of the item's Max |
| CollectorResult.CsvRowDecodes | collector/main.go:169-173 | a record has one column per header name; its integer columns read back as the item's key fields, the method as its integer code and optimized as "1"/"0" |
| CollectorResult.Result.CSV | collector/main.go:150-177 | the header, then one record for each item of ToStorage in that order: one record more than the table has entries |
| CollectorFiles.ParseArraySizeRoundTrip | collector/main.go:281-287 | mustParseArraySize of the "%d_%d_%d" name of any size gives back that size |
| CollectorFiles.MustParseArraySize | collector/main.go:281-287 | a name without '_' splits into one piece, so reading numStr[1] panics with an index out of range |
| CollectorFiles.DirNameIsSizeDirName | collector/main.go:437 | the "%d_%d_%d" name of a non-negative size matches `^[0-9]+_[0-9]+_[0-9]+$` |
| CollectorFiles.LeadingZeroDirName | collector/main.go:449-453 | "01_2_3" matches the size pattern and parses to (1, 2, 3), but the directory then looked up is "1_2_3", not the listed one |
| CollectorFiles.MustParseNumbers | collector/main.go:289-296 | one number per `[0-9]+` match, in order, each the non-negative value of its digits |
| CollectorFiles.IsMpiLogName | collector/main.go:396 | a name that matches `^mpi_[0-9]+\.out$` is not c.out and does not match the ArgoDSM pattern |
| CollectorFiles.IsArgoLogName | collector/main.go:401 | a name that matches the ArgoDSM pattern is not c.out and is not a size-directory name |
| CollectorFiles.MpiNameMatches | collector/main.go:396 | "mpi_" + digits + ".out" matches the MPI log pattern |
| CollectorFiles.MpiNameNumbers | collector/main.go:423-425 | "mpi_N.out" matches the MPI pattern and its numbers are exactly [N] |
| CollectorFiles.MpiNameCount | collector/main.go:423-425 | every name that matches the MPI pattern holds exactly one number, so metaNumbers[0] exists |
| CollectorFiles.ArgoNameMatches | collector/main.go:401 | "argo_A_B_C_D.out" with digit strings A..D matches the ArgoDSM log pattern |
| CollectorFiles.ArgoNameDigits | collector/main.go:401 | such a name matches and its numbers are the values of A, B, C and D |
| CollectorFiles.ArgoNameNumbers | collector/main.go:426-429 | "argo_V_N_X_Y.out" matches the ArgoDSM pattern and its numbers are exactly [V, N, X, Y] |
| CollectorFiles.ArgoNameCount | collector/main.go:426-429 | every name that matches the ArgoDSM pattern holds exactly four numbers, so metaNumbers[0..3] exist |
| CollectorFiles.TimesFromLines | collector/main.go:368-380 | the line loop keeps at most one time per line |
| CollectorFiles.TimesFromLinesSound | collector/main.go:368-380 | every collected time comes from a line that contains the prefix and parses once the prefix is removed; there are no more times than lines |
| CollectorFiles.TimesFromLinesAppend | collector/main.go:368-380 | lines contribute their times in order: the times of a concatenation are the concatenation of the times |
| CollectorFiles.TimingLine | collector/main.go:365-379 | a line "<prefix><value>" whose value parses yields exactly that one time |
| CollectorFiles.ParseTimes | collector/main.go:366-380 | the line loop computes the times of the file's contents |
| CollectorFiles.CollectFromRefFile | collector/main.go:298-326 | an unreadable c.out leaves the table unchanged; a readable one is joined under (Ref, flag, node count 1, 0, 0) with fresh caches |
| CollectorFiles.CollectFromMpiFile | collector/main.go:328-356 | an unreadable file leaves the table unchanged; a readable one is joined under (MPI, flag, the first number of the name, 0, 0) |
| CollectorFiles.CollectFromArgoFile | collector/main.go:358-392 | it panics exactly when the file is readable and the version is outside 1..3; an unreadable file or a panic leaves the table unchanged; otherwise the file is joined under its ArgoDSM meta with the "SOR: " times |
| CollectorFiles.ArgoMeta | collector/main.go:382-388 | the meta is built exactly when the version is 1..3; its method is then one of the three ArgoDSM codes, and node count, dsmNX and dsmNY are the next three numbers of the name |
| CollectorFiles.ArgoMetaOf | collector/main.go:382-388 | version V in 1..3 gives method ArgoV1 + V - 1 with flag V - 1 and node count, dsmNX, dsmNY from the name; any other V indexes the flags out of range |
| CollectorFiles.RefEntryEffect | collector/main.go:421-422 | a readable c.out is joined under the reference method with node count 1 and the reference flag |
| CollectorFiles.MpiEntryEffect | collector/main.go:423-425 | a readable mpi_N.out is joined under the MPI method with node count N and the MPI flag |
| CollectorFiles.ArgoEntryEffect | collector/main.go:426-429 | a readable argo_V_N_X_Y.out is joined under ArgoDSM version V with node count N, grid X by Y and that version's flag when V is 1..3, and panics otherwise |
| CollectorFiles.ArgoNamedEntry | collector/main.go:417-430 | the same for any readable file whose name matches the ArgoDSM pattern, by the numbers the name holds |
| CollectorFiles.ClassifyKinds | collector/main.go:417-430 | directories are skipped; a file named c.out, or matching the MPI or the ArgoDSM pattern, takes that branch whatever the order of the if-chain; only directories and names matching no pattern are skipped |
| CollectorFiles.CollectEntry | collector/main.go:418-430 | one iteration of the directory loop has the effect of its entry: skip directories and other names, or join one log, or panic |
| CollectorFiles.EntryEffectFrame | collector/main.go:417-431 | one entry changes at most the inner map of its directory's size and never returns an error |
| CollectorFiles.CollectEntriesFrame | collector/main.go:417-433 | a base directory adds only under its own array size, leaves every other size as it was and never returns an error |
| CollectorFiles.CollectEntriesStops | collector/main.go:417-431 | once an entry panics, the later entries change nothing |
| CollectorFiles.CollectBase | collector/main.go:412-433 | collecting a base directory fails exactly when the directory named after the size cannot be listed, and then leaves the table unchanged |
| CollectorFiles.CollectFromBaseDir | collector/main.go:394-434 | an unlistable directory returns an error and changes nothing; otherwise the entries are collected in listing order until the first panic |
| CollectorFiles.SizeDirs | collector/main.go:449-453 | the array sizes of the listed names that match the size pattern, in listing order |
| CollectorFiles.CollectEachSize | collector/main.go:456-460 | the base directories of the sizes are collected in order, and the loop stops at the first one that fails or panics |
| CollectorFiles.CollectSizesStops | collector/main.go:456-460 | once a directory fails or panics, the later sizes change nothing |
| CollectorFiles.CollectFromRootDir | collector/main.go:436-463 | an unlistable root returns an error and changes nothing; otherwise every matching size directory is collected in order, up to the first failure |
| SorMpi.CDiv | SOR-MPI/main.cpp:17 | C's int division truncates toward zero |
| SorMpi.DivideParams | SOR-MPI/main.cpp:6-13 | every rank stores two planes more than it owns, and owns at least (km+2) / world_size planes |
| SorMpi.DivideParamsGhostPlanes | SOR-MPI/main.cpp:6-13 | the stored planes are the owned planes plus two ghost planes; ranks other than 0 own the same number of planes; rank 0 owns the most |
| SorMpi.PlanesBeforeClosedForm | SOR-MPI/main.cpp:6-13 | ranks 0 .. r-1 together own r * ((km+2) / size) + (km+2) % size planes |
| SorMpi.PlanesCovered | SOR-MPI/main.cpp:6-13 | the blocks of all ranks together hold exactly the km + 2 global planes |
| SorMpi.SizeParams | SOR-MPI/main.cpp:24-29 | base_2d is at least 1, and actual_3d - base_3d is base_2d times the number of extra planes |
| SorMpi.DivideLocation | SOR-MPI/main.cpp:15-22 | the rank is below world_size, and rank * ((km+2) / world_size) + target_k gives back k |
| SorMpi.SizeParamsGhostCells | SOR-MPI/main.cpp:24-29 | base_2d is (im+2)(jm+2), and actual_3d - base_3d is exactly the two ghost planes, 2 * base_2d |
| SorMpi.DivideLocationBounds | SOR-MPI/main.cpp:15-22 | the rank is below world_size; rank * base + target_k is k; for k >= 0 both are non-negative |
| SorMpi.DivideLocationUnclamped | SOR-MPI/main.cpp:15-22 | below size * base no clamping happens: the result is k / base and k % base |
| SorMpi.Locate | SOR-MPI/main.cpp:6-13 | the owner of global plane k in the layout divide_params builds: a valid rank, and an index inside its block that leads back to k |
| SorMpi.OwnerUnique | SOR-MPI/main.cpp:6-13 | the blocks of different ranks do not overlap: a global plane has one owner and one local index |
| SorMpi.LocateIsTheOwner | SOR-MPI/main.cpp:6-13 | Locate names the one rank and index whose block holds plane k |
| SorMpi.DivideLocationAgreesWhenEven | SOR-MPI/main.cpp:15-22 | when world_size divides km + 2, divide_location finds the owner of every global plane |
| SorMpi.DivideLocationMisplaces | SOR-MPI/main.cpp:15-22 | with km = 64 and 8 ranks, plane 32 belongs to rank 3 at index 6, but divide_location names rank 4 index 0, which is plane 34 |
| SorMpi.FindNeighborProc | SOR-MPI/main.cpp:47-58 | the lower neighbour is MPI_PROC_NULL exactly on rank 0 and otherwise rank - 1; the upper one is MPI_PROC_NULL exactly on the last rank and otherwise rank + 1; one rank has neither |
| SorMpi.NeighborsSymmetric | SOR-MPI/main.cpp:47-58 | the rank above a rank has that rank below it |
| SorMpi.InitArray | SOR-MPI/main.cpp:31-45 | three distinct new buffers of actual_k_size x (jm+2) x (im+2) cells; p0 and rhs are 1.0 everywhere; p1 is left uninitialised |
| SorMpi.RelaxIsNeighbourMean | SOR-MPI/main.cpp:109-119 | with the constants of sor, a relaxed cell becomes the mean of its six neighbours minus a third of rhs |
| SorMpi.BranchOf | SOR-MPI/main.cpp:93-119 | inside the (im+2) x (jm+2) plane, a cell reaches the relaxation guard (relaxed or skipped) exactly when 1 <= i <= im and 1 <= j <= jm; the other cells are wrapped or copied |
| SorMpi.SweepRow | SOR-MPI/main.cpp:92-121 | every cell of row j of plane k gets what its branch assigns, or keeps its value; no other cell changes |
| SorMpi.SweepPlane | SOR-MPI/main.cpp:91-122 | every cell of plane k gets what its branch assigns, or keeps its value; no other plane changes |
| SorMpi.Sor | SOR-MPI/main.cpp:60-124 | after the halo exchange, every cell of planes 1 .. actual_k_size-2 that takes a branch gets its value from p0 and rhs; every other cell of p1 keeps its value, the ghost planes included |
| SorMpi.RunIterations | SOR-MPI/main.cpp:154-163 | odd iterations sweep p0 into p1 and even ones p1 into p0: after an odd count the latest sweep is in p1 (so after 5 it is in p1, while main prints from p0); after an even count of at least two it is in p0 |
| SorMpi.PrintNumberFromArray | SOR-MPI/main.cpp:126-132 | only the rank divide_location names reads, and it reads local plane target_k + 1, one past the ghost plane |
| SorMpi.MainPrintInBounds | SOR-MPI/main.cpp:167 | for plane km / 2 the rank named is valid and the read lies inside that rank's buffer |
| SorMpi.RunRank | SOR-MPI/main.cpp:146-167 | what one rank of main does: its three buffers have the divided shape; after five iterations p1 holds the sweep of p0; exactly the rank divide_location names for plane km / 2 prints, and it prints p0 at local plane target_k + 1, row jm / 2, column im / 2 |
| SorMpi.BoundaryPlanesSkipped | SOR-MPI/main.cpp:106-107 | with more than one rank, the interior cells of rank 0's first plane and of the last rank's last plane take no branch, so p1 keeps them |
| SorMpi.RelaxOnInteriorPlanes | SOR-MPI/main.cpp:106-107 | with more than one rank, an interior cell of a rank's own planes is relaxed exactly when its global plane is one of the km interior planes |
| SorMpi.SingleRankRelaxesBoundary | SOR-MPI/main.cpp:106-107 | with one rank, the guard relaxes the first and the last own plane, which are the global boundary planes 0 and km + 1 |
| SorMpi.IntendedAgreesWithMultiRank | SOR-MPI/main.cpp:106-107 | with two or more ranks, the guard with both end exclusions is the guard as written |
| SorMpi.IntendedRelaxOnInteriorPlanes | SOR-MPI/main.cpp:106-107 | with both end exclusions, for any number of ranks, an interior cell is relaxed exactly when its global plane is interior |
| Shapes.ShapesOfColumn | misc/main.py:12-13 | for fixed im and jm, one shape per km, in list order |
| Shapes.EnumerateAt | misc/main.py:8-14 | the shape at position a * (\|jm\| * \|km\|) + b * \|km\| + c is (im[a], jm[b], km[c]): im outermost, km innermost |
| Shapes.EnumerateLength | misc/main.py:8-14 | all_array_sizes holds \|im\| * \|jm\| * \|km\| shapes, one per combination |
| Shapes.AllArraySizes | misc/main.py:8-14 | the nested loops build exactly that enumeration |
| Shapes.AppendRow | misc/main.py:11-13 | the two inner loops append the shapes of one im |
| Shapes.AppendColumn | misc/main.py:12-13 | the innermost loop appends the shapes of one im and jm |
| Shapes.NxNyListFactorisations | misc/main.py:17-28 | for 1, 2, 4, 8 and 16 the table lists every positive factorisation nx * ny = n exactly once, in ascending nx; every other node count raises |
| Shapes.NxNyListSound | testing.py:9-20 | every listed grid multiplies out to the node count, in ascending nx |
| Shapes.WithVolume | misc/main.py:31-39 | a group holds exactly the enumerated shapes of its volume, and no more entries than the list |
| Shapes.VolumeKeys | misc/main.py:31-39 | the dictionary keys are exactly the volumes that occur, each once |
| Shapes.WithVolumeAppend | misc/main.py:34-38 | appending keeps list order: the group of a concatenation is the group of its first part followed by the group of its second part |
| Shapes.VolumeKeysPrefix | misc/main.py:34-37 | the keys of a prefix of the list are a prefix of the keys: keys appear in order of first appearance |
| Shapes.CombinationsWithSameVolume | misc/main.py:31-39 | the loop builds those keys and binds each key to its group |
| Shapes.ExactlyOneGroup | misc/main.py:31-39 | every enumerated shape lies in exactly one group, the one of its volume |
| Shapes.GroupSizesAddUp | misc/main.py:31-39 | the group sizes add up to the number of shapes: grouping loses nothing and invents nothing |
| Shapes.Log2OfPow2 | misc/main.py:195 | int(math.log2(2^e)) is e |
| Shapes.FixedListsArePowers | misc/main.py:99-101 | the fixed lists are 2^7..2^9 for im and jm and 2^6..2^8 for km |
| Shapes.PowerVolumes | misc/main.py:194-217 | lists of three consecutive powers of two starting at 2^7, 2^7 and 2^6 give volumes 2^20..2^26 |
| Shapes.FixedVolumesSubplots | misc/main.py:194-217 | with the fixed lists, every group that passes the `<= 20` skip lands in one of the six subplots volumes_axes[0..5] |
| Shapes.FixedShapeCount | misc/main.py:158 | the fixed lists give 27 shapes |
| Frames.Where | misc/main.py:59-92 | a boolean mask keeps exactly the rows it holds for, never more rows than the frame has |
| Frames.WhereAppend | misc/main.py:59-92 | masking a concatenation masks each part, so the kept rows keep their relative order |
| Frames.WhereKeepsAll | misc/main.py:59-92 | a mask that holds for every row keeps the frame as it is |
| Frames.WhereIdempotent | misc/main.py:59-92 | filtering twice with the same mask is filtering once |
| Frames.WhereWhere | misc/main.py:59-92 | chained filters are one filter on the conjunction, row order included |
| Frames.WhereExtensional | misc/main.py:59-92 | masks that agree on every row select the same rows |
| Frames.WhereCountDisjoint | misc/main.py:115-118 | two disjoint masks together select as many rows as their disjunction |
| Frames.WhereCountThree | misc/main.py:115-118 | three pairwise disjoint masks that together make up a fourth select, together, as many rows as it |
| Frames.WhereMultiset | misc/main.py:59-92 | a kept row occurs as often as in the frame; a dropped row never |
| Frames.WherePermutation | misc/main.py:59-92 | permuted frames give permuted selections |
| Frames.SelectByIm | misc/main.py:59-60 | the rows with that im |
| Frames.SelectByJm | misc/main.py:63-64 | the rows with that jm |
| Frames.SelectByKm | misc/main.py:67-68 | the rows with that km |
| Frames.SelectByArraySize | misc/main.py:71-72 | the rows with that im, jm and km |
| Frames.SelectByMethod | misc/main.py:75-76 | the rows with that method |
| Frames.SelectByNodeCount | misc/main.py:79-80 | the rows with that node count |
| Frames.SelectByDsmNx | misc/main.py:83-84 | the rows with that dsm_nx |
| Frames.SelectByDsmNy | misc/main.py:87-88 | the rows with that dsm_ny |
| Frames.SelectByDsmNxNy | misc/main.py:91-92 | the rows with that dsm_nx and dsm_ny |
| Frames.SelectByArraySizeChains | misc/main.py:71-72 | select_by_array_size is select_by_im, then select_by_jm, then select_by_km, row order included |
| Frames.SelectByDsmNxNyChains | misc/main.py:91-92 | select_by_dsm_nx_ny is select_by_dsm_nx followed by select_by_dsm_ny |
| Frames.SelectionsCommute | misc/main.py:59-92 | chained selections give the same rows in either order |
| Analyzer.Divide | misc/main.py:45-46 | float division: a finite quotient q with q * b == a when b is non-zero; x/0 is an infinity with the sign of x; 0/0 is NaN |
| Analyzer.ParseByCpuTime | misc/main.py:52-56 | a copy with cpu_time = time * node_count in every row and every other column unchanged; inserting a column that exists raises ValueError |
| Analyzer.ParseByOptimizationBoost | misc/main.py:42-49 | the optimized rows, each with the non-optimized time at the same position divided by its own time (one non-optimized row is broadcast); any other length mismatch, or an existing column, raises ValueError |
| Analyzer.BoostKeepsOptimizedRows | misc/main.py:42-49 | the boosted frame holds only optimized rows, and every optimized row is there |
| Analyzer.BandsPartition | misc/main.py:115-118 | the three bands are pairwise disjoint and together hold exactly the boosts that are not NaN |
| Analyzer.BandsCompareTimes | misc/main.py:115-118 | for a positive optimized time the bands compare the non-optimized time with 0.95 and 1.05 times the optimized time |
| Analyzer.BandCounts | misc/main.py:119-139 | five counts, one per method 0..4, none larger than the band |
| Analyzer.BandOfMethod | misc/main.py:119-139 | selecting a method from a band counts the rows of the band and the method together |
| Analyzer.BandCountsAddUp | misc/main.py:115-139 | per method 0..4, the negative, neutral and positive entries of BandCounts add up to that method's rows whose boost is not NaN |
| Analyzer.InsertByTime | misc/main.py:162 | one insertion step keeps the frame in time order and adds exactly the row |
| Analyzer.SortByTime | misc/main.py:160-162 | sort_values('time') gives a permutation of the rows in ascending time |
| Analyzer.WhereSorted | misc/main.py:165-169 | a selection from a frame in time order is in time order |
| Analyzer.HeadTime | misc/main.py:165-169 | `.head(1).iloc[0].time` raises IndexError exactly when no row has the method, and otherwise is the time of such a row |
| Analyzer.BestTimeIsMinimum | misc/main.py:160-169 | whatever order the sort leaves equal times in, the head of a method's selection is a least time of that shape and method, and `.iloc[0]` raises exactly when there is no such row |
| Analyzer.BestRow | misc/main.py:164-170 | a row of array_size_best_data has five entries, one per method |
| Analyzer.BestRowCorrect | misc/main.py:164-170 | a row of array_size_best_data exists exactly when the shape has rows of all five methods, and it holds the best time of each |
| Analyzer.ArraySizeBestData | misc/main.py:156-170 | the loop yields, for every enumerated shape, the best time of each method, or IndexError exactly when some shape lacks a method |
| Driver.Driver.MakeResultPath | testing.py:23-26 | returns "resutls/<im>_<jm>_<km>" and issues its mkdir |
| Driver.Driver.ReplaceShape | testing.py:29-35 | three header edits: im, jm, km |
| Driver.Driver.ReplaceNxNy | testing.py:38-42 | two header edits: dsmNX, dsmNY |
| Driver.Driver.BuildTarget | testing.py:45-47 | one build of the target in the code directory |
| Driver.Driver.BuildAndRunC | testing.py:50-57 | edit the shape, build sor_c, create the result directory, run into c.out |
| Driver.Driver.BuildAndRunMpi | testing.py:60-68 | edit the shape, build sor_mpi, create the result directory, run under mpirun -n N into mpi_N.out |
| Driver.Driver.ArgoVersion | testing.py:77-85 | one version: edit the shape, then one build and run per grid; raises right after the shape edits when the node count has no grid table |
| Driver.Driver.RunArgoGrid | testing.py:82-85 | header edits, build, mkdir and run for one grid, logging to argo_i_N_nx_ny.out |
| Driver.Driver.RunArgoGrids | testing.py:82-85 | the runs of every grid, in table order |
| Driver.Driver.BuildAndRunArgo | testing.py:76-85 | versions 1..3 with every grid of the node count, or a raise after the first shape edits |
| Driver.Driver.TestNodeCount | testing.py:95-101 | the C reference when it has not been run, then MPI, then ArgoDSM; raises when the ArgoDSM part does |
| Driver.Driver.TestShape | testing.py:93-101 | the node-count loop of one shape, asking for the C reference only at the first count; stops at the first raise |
| Driver.Driver.TestColumn | testing.py:92-101 | the km loop for fixed im and jm |
| Driver.Driver.TestRow | testing.py:91-101 | the jm loop for fixed im |
| Driver.Driver.TestMatrix | testing.py:88-102 | `mkdir -p bin`, then every shape in enumeration order |
| Driver.ShapeStepsStops | testing.py:94-101 | once a node count raises, the later node counts add nothing |
| Driver.MatrixStepsRaised | testing.py:90-101 | once a shape raises, the later shapes add nothing |
| Driver.ArgoGridsRuns | testing.py:82-85 | one run per grid |
| Driver.ArgoVersionsRuns | testing.py:77-85 | count versions times the number of grids runs |
| Driver.NodeCountRuns | testing.py:97-101 | for a supported node count, 1 + 3 * \|grids\| runs, plus one when the C reference goes first |
| Driver.NodeCountRaises | testing.py:76-101 | a node count raises exactly when the grid table has no entry for it, and then the only runs were the C reference (when asked for) and MPI |
| Driver.ShapeRuns | testing.py:93-101 | a shape's runs are one C run plus those of each node count |
| Driver.MatrixRuns | testing.py:90-101 | every shape performs the same number of runs |
| Driver.FixedMatrixRuns | testing.py:90-101 | with the fixed lists the script never raises and performs 27 * (1 + 7 + 13 + 16) = 999 runs |
| Driver.FixedBlocksPrepared | testing.py:54-68 | in each build-and-run block the run follows its build and its mkdir |
| Driver.NodeCountPrepared | testing.py:97-101 | every run of a node count is preceded by its build and its mkdir |
| Driver.DriverPrepared | testing.py:88-102 | for any lists, every run of the script comes right after the mkdir of its log directory, which comes right after the build of its binary |
| Driver.FirstCountStartsWithC | testing.py:97-99 | the first node count starts with the C block, and nothing after it builds or runs the C reference |
| Driver.ShapeStepsStartWithC | testing.py:93-101 | a shape's events start with the C block, and nothing after it touches the C reference |
| Driver.CReferenceOncePerShape | testing.py:93-99 | for every shape the C reference is edited, built and run first, and exactly once |
| Driver.MpiLogNameSplit | testing.py:61-62 | the MPI log name splits at '_' into "mpi" and the node count with ".out" |
| Driver.ArgoLogNameSplit | testing.py:72-73 | the ArgoDSM log name splits at '_' into "argo", i, n, nx and ny with ".out" |
| Driver.LogNamesDistinct | testing.py:50-73 | c.out, mpi_n.out and argo_i_n_nx_ny.out never coincide, and each determines its numbers, so no run overwrites another run's log |
| Pipeline.CLogCollected | testing.py:50-51 | the collector files c.out under the reference method with node count 1 |
| Pipeline.MpiLogCollected | testing.py:60-62 | the collector files mpi_N.out under the MPI method with the mpirun process count N |
| Pipeline.ArgoLogCollected | testing.py:71-73 | the collector files a version 1..3 log under that ArgoDSM version, with the process count and a grid that multiplies out to it, and does not panic |
| Pipeline.ArgoTargetsDistinct | testing.py:84 | the three ArgoDSM binaries are distinct from each other and from sor_c and sor_mpi |
| Pipeline.NodeCountCollected | testing.py:97-101 | every log of a node count is filed as the run that wrote it |
| Pipeline.ShapeCollected | testing.py:93-101 | every log a shape's node-count loop writes is filed as the run that wrote it |
| Pipeline.MatrixCollected | testing.py:90-101 | every log the shape loops write is filed as the run that wrote it |
| Pipeline.DriverLogsCollected | testing.py:88-102 | whatever the lists, every log the driver writes is filed by the collector under the method it ran, with the node count it ran on, and never makes the collector panic |
| Pipeline.ResultDirectories | testing.py:23-26 | the driver's directory is the collector's size-directory name placed under "resutls", and that name parses back to the shape; the collector reads "results", a different directory |
| Pipeline.MethodLabelsDisagree | misc/main.py:103 | the labels indexed by the collector's codes read MPI as "ArgoDSM V1", ArgoDSM V1 and V2 as "ArgoDSM V2" and "ArgoDSM V3", and ArgoDSM V3 as "MPI"; only the reference is labelled correctly |

## Left out

- The MPI halo exchange (`MPI_Sendrecv`), `MPI_Init`/`MPI_Finalize`, `clock()` and the printed timings of `SOR-MPI/main.cpp`. `SorMpi.Sor` starts after the exchange, from whatever the ghost planes hold.
- `F3D2C_kji` and `sor_params.h` are not part of this model. Three-dimensional array indexing stands for the index mapping, and `im`, `jm`, `km` are parameters.
- Floating point: times, boosts and the SOR stencil are exact reals. Rounding, the float value of 1/3, and NaN inside a timing list are not modelled.
- Integer width: Go `int`, C `int`/`int64_t` and the `uint8` method code are unbounded here. Overflow, and the `uint8` wrap of `MethodArgoV1 + (V - 1)` when V is 0, are not modelled. That wrap is followed by an index panic anyway.
- `SorTimes.Average`: a float division that gives NaN on an empty list; nothing in the modelled programs calls it.
- `NewResultFromBytes`, `Bytes`, the JSON encoding and `os.Create`/file writing in the collector's `main`. CSV quoting and the bytes `encoding/csv` writes are out too: CSV is modelled as its string records.
- The collector's `main`: its two `collectFromRootDir` calls are `CollectorFiles.CollectFromRootDir` with the flag arrays as a parameter. `log.Fatalln` is not modelled.
- `sync.RWMutex`: `JoinItem` is modelled as the unlocked `joinItem` it wraps. Concurrency is not modelled.
- `regexp.Compile` of the constant patterns is taken to succeed, so its error returns are not modelled. The patterns are modelled as predicates.
- `ioutil.ReadDir` and `ioutil.ReadFile`: a listing is a parameter given in the order ReadDir returns it. An unreadable file is `None`. `log.Println` is not modelled.
- `CollectorResult.Result.CSV`: the time column is `ftoa(Max())` with `ftoa` an opaque parameter for `strconv.FormatFloat(f, 'f', 6, 64)`.
- `CollectorFiles.TimesFromLinesSound`: `strconv.ParseFloat` is an opaque partial function, so a time is only shown to come from some line that parses to it.
- `misc/main.py`: these parts are not modelled:
  - reading the CSV and `print`;
  - every plot and `savefig`;
  - `np.log10`;
  - the per-volume best-time loop beyond the subplot index, which is the same selection as `ArraySizeBestData`;
  - the MPI and ArgoDSM speed-up and parallel-efficiency loops (lines 226-343);
  - `plot_argo_nx_ny_bar` (lines 346-382).
- `Analyzer.SortByTime`: pandas' default sort is not stable, so this is one admissible result. `Analyzer.BestTimeIsMinimum` holds for every sorted permutation, and no tie order is assumed.
- `Driver`: the shell strings of `os.system` (sed, cmake, make, mv, mpirun) are opaque events, and their exit codes are ignored as the script ignores them. `print` is left out.

## Findings

| source | as written | input that shows it | evidently intended | confidence | as-written member | corrected member |
|---|---|---|---|---|---|---|
| SOR-MPI/main.cpp:15-22 | `divide_location` assumes every rank owns `(km+2)/world_size` planes and clamps overflow to the last rank, but `divide_params` gives the remainder to rank 0 | km = 64, 8 ranks, k = km/2 = 32 (the plane `main` prints): it returns rank 4, local plane 0, which is global plane 34; plane 32 is rank 3, local plane 6 | the rank and local index of the block that holds plane k, with rank 0 holding base + remainder planes | high, not executed | SorMpi.DivideLocationMisplaces | SorMpi.LocateIsTheOwner |
| SOR-MPI/main.cpp:106-107 | the relaxation guard excludes rank 0's first plane and the last rank's last plane in separate disjuncts, and with one rank each disjunct lets through the plane the other excludes | world_size = 1, im = jm = 1: cells (1, 1, 1) and (actual_k_size - 2, 1, 1) are relaxed, but they are the global boundary planes 0 and km + 1 | both end exclusions apply, so only the km interior planes are relaxed for any number of ranks | medium, not executed | SorMpi.SingleRankRelaxesBoundary | SorMpi.IntendedRelaxOnInteriorPlanes |
