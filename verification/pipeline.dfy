/**
 * How the three programs meet. The driver (testing.py) writes one log per run
 * into "resutls/<im>_<jm>_<km>"; the collector (collector/main.go) reads base
 * directories named "<i>_<j>_<k>" below "results" and files each log under a
 * Meta key; the analyzer (misc/main.py) reads the collector's CSV and labels
 * the integer method codes. The facts here are kept as the programs state
 * them, including where they disagree.
 */
module Pipeline {
  import opened Wrappers
  import opened Text
  import opened Shapes
  import opened Driver
  import CR = CollectorResult
  import CF = CollectorFiles
  import CT = CollectorTimes
  import Analyzer

  /**
   * The key the collector files a run's log under agrees with how the driver
   * ran it: the node count is the mpirun process count (1 without mpirun), the
   * method is the binary's, and an ArgoDSM grid multiplies out to the node count.
   */
  predicate FiledAsRun(e: Event, meta: CR.Meta)
    requires e.Run?
  {
    && meta.nodeCount == (if e.processes.Some? then e.processes.value else 1)
    && (e.binary == CTarget <==> meta.methodType == CR.MethodRef)
    && (e.binary == MpiTarget <==> meta.methodType == CR.MethodMPI)
    && (forall i :: 1 <= i <= 3 ==> (e.binary == ArgoTarget(i) <==> meta.methodType == CR.MethodArgoV1 + i - 1))
    && (meta.methodType >= CR.MethodArgoV1 ==> meta.dsmNX * meta.dsmNY == meta.nodeCount)
  }

  /** The line prefix the collector reads timings after: ArgoDSM logs have their own. */
  function TimingPrefix(e: Event): string
    requires e.Run?
  {
    if e.binary == CTarget || e.binary == MpiTarget then CF.RefPrefix else CF.ArgoPrefix
  }

  /**
   * Reading the run's log (whatever it holds) joins its timings under a key
   * that agrees with the run.
   */
  ghost predicate Collects(e: Event, items: CR.Items, size: CR.ArraySize, flags: seq<bool>, data: string,
                           parseFloat: string -> Option<real>)
    requires e.Run? && |flags| == CR.MethodEndTag
  {
    exists meta: CR.Meta ::
      && CF.EntryEffect(items, CF.DirEntry(e.logName, false, Some(data)), size, flags, parseFloat)
         == CF.Collected(CR.Join(items, size, meta, CT.Fresh(CF.FileTimes(data, TimingPrefix(e), parseFloat))), CF.Completed)
      && FiledAsRun(e, meta)
  }

  ghost predicate AllCollected(es: seq<Event>, items: CR.Items, size: CR.ArraySize, flags: seq<bool>, data: string,
                           parseFloat: string -> Option<real>)
    requires |flags| == CR.MethodEndTag
  {
    forall x :: 0 <= x < |es| && es[x].Run? ==> Collects(es[x], items, size, flags, data, parseFloat)
  }

  lemma AllCollectedAppend(a: seq<Event>, b: seq<Event>, items: CR.Items, size: CR.ArraySize, flags: seq<bool>,
                           data: string, parseFloat: string -> Option<real>)
    requires |flags| == CR.MethodEndTag
    requires AllCollected(a, items, size, flags, data, parseFloat) && AllCollected(b, items, size, flags, data, parseFloat)
    ensures AllCollected(a + b, items, size, flags, data, parseFloat)
  {
    forall x | 0 <= x < |a + b| && (a + b)[x].Run?
      ensures Collects((a + b)[x], items, size, flags, data, parseFloat)
    {
      if x < |a| {
        assert (a + b)[x] == a[x];
      } else {
        assert (a + b)[x] == b[x - |a|];
      }
    }
  }

  /** A block of preparation events closed by a collected run has all its runs collected. */
  lemma CollectedBlock(pre: seq<Event>, last: Event, items: CR.Items, size: CR.ArraySize,
                       flags: seq<bool>, data: string, parseFloat: string -> Option<real>)
    requires |flags| == CR.MethodEndTag
    requires NoRuns(pre)
    requires last.Run? && Collects(last, items, size, flags, data, parseFloat)
    ensures AllCollected(pre + [last], items, size, flags, data, parseFloat)
  {
    forall x | 0 <= x < |pre|
      ensures (pre + [last])[x] == pre[x]
    {
    }
  }

  lemma ArgoTargetsDistinct(i: int, j: int)
    ensures ArgoTarget(i) == ArgoTarget(j) <==> i == j
    ensures ArgoTarget(i) != CTarget && ArgoTarget(i) != MpiTarget
  {
    ArgoNamesAreNotC(i);
    assert |ArgoTarget(i)| > |MpiTarget|;
    if ArgoTarget(i) == ArgoTarget(j) {
      assert ArgoTarget(i)[9..] == Itoa(i);
      assert ArgoTarget(j)[9..] == Itoa(j);
      ItoaInjective(i, j);
    }
  }

  lemma CLogCollected(path: string, items: CR.Items, size: CR.ArraySize, flags: seq<bool>, data: string,
                      parseFloat: string -> Option<real>)
    requires |flags| == CR.MethodEndTag
    ensures Collects(Run(CTarget, None, path, CLogName), items, size, flags, data, parseFloat)
  {
    var run := Run(CTarget, None, path, CLogName);
    var meta := CR.Meta(CR.MethodRef, flags[CR.MethodRef], 1, 0, 0);
    CF.RefEntryEffect(items, data, size, flags, parseFloat);
    forall i | 1 <= i <= 3
      ensures CTarget != ArgoTarget(i)
    {
      ArgoTargetsDistinct(i, i);
    }
    assert FiledAsRun(run, meta);
  }

  lemma CRunCollected(s: Shape, items: CR.Items, size: CR.ArraySize, flags: seq<bool>, data: string,
                      parseFloat: string -> Option<real>)
    requires |flags| == CR.MethodEndTag
    ensures AllCollected(CRun(s), items, size, flags, data, parseFloat)
  {
    var path := ResultPath(s);
    var run := Run(CTarget, None, path, CLogName);
    CLogCollected(path, items, size, flags, data, parseFloat);
    var pre := ShapeEvents(CCode, s) + [Build(CCode, CTarget), MakeDir(path)];
    PreparationHasNoRuns(ShapeEvents(CCode, s), CCode, CTarget, path);
    CollectedBlock(pre, run, items, size, flags, data, parseFloat);
    CRunBlock(s);
    assert CRun(s) == pre + [run];
  }

  lemma MpiLogCollected(path: string, n: nat, items: CR.Items, size: CR.ArraySize, flags: seq<bool>, data: string,
                        parseFloat: string -> Option<real>)
    requires |flags| == CR.MethodEndTag
    ensures Collects(Run(MpiTarget, Some(n), path, MpiLogName(n)), items, size, flags, data, parseFloat)
  {
    var run := Run(MpiTarget, Some(n), path, MpiLogName(n));
    var meta := CR.Meta(CR.MethodMPI, flags[CR.MethodMPI], n, 0, 0);
    CF.MpiEntryEffect(items, n, data, size, flags, parseFloat);
    forall i | 1 <= i <= 3
      ensures MpiTarget != ArgoTarget(i)
    {
      ArgoTargetsDistinct(i, i);
    }
    assert FiledAsRun(run, meta);
  }

  lemma MpiBlockCollected(edits: seq<Event>, path: string, n: nat, items: CR.Items, size: CR.ArraySize,
                          flags: seq<bool>, data: string, parseFloat: string -> Option<real>)
    requires |flags| == CR.MethodEndTag
    requires NoRuns(edits)
    ensures AllCollected(edits + [Build(MpiCode, MpiTarget), MakeDir(path)] + [Run(MpiTarget, Some(n), path, MpiLogName(n))],
                         items, size, flags, data, parseFloat)
  {
    MpiLogCollected(path, n, items, size, flags, data, parseFloat);
    PreparationHasNoRuns(edits, MpiCode, MpiTarget, path);
    CollectedBlock(edits + [Build(MpiCode, MpiTarget), MakeDir(path)], Run(MpiTarget, Some(n), path, MpiLogName(n)),
                   items, size, flags, data, parseFloat);
  }

  lemma MpiRunCollected(s: Shape, n: nat, items: CR.Items, size: CR.ArraySize, flags: seq<bool>, data: string,
                        parseFloat: string -> Option<real>)
    requires |flags| == CR.MethodEndTag
    ensures AllCollected(MpiRun(s, n), items, size, flags, data, parseFloat)
  {
    MpiBlockCollected(ShapeEvents(MpiCode, s), ResultPath(s), n, items, size, flags, data, parseFloat);
    MpiRunBlock(s, n);
  }

  lemma ArgoLogCollected(path: string, n: nat, i: int, g: Grid, items: CR.Items, size: CR.ArraySize,
                         flags: seq<bool>, data: string, parseFloat: string -> Option<real>)
    requires |flags| == CR.MethodEndTag
    requires 1 <= i <= 3 && Factors(g, n)
    ensures Collects(Run(ArgoTarget(i), Some(n), path, ArgoLogName(i, n, g.nx, g.ny)), items, size, flags, data, parseFloat)
  {
    var run := Run(ArgoTarget(i), Some(n), path, ArgoLogName(i, n, g.nx, g.ny));
    var m := CR.MethodArgoV1 + i - 1;
    var meta := CR.Meta(m, flags[m], n, g.nx, g.ny);
    CF.ArgoEntryEffect(items, i, n, g.nx, g.ny, data, size, flags, parseFloat);
    forall j | 1 <= j <= 3
      ensures ArgoTarget(i) == ArgoTarget(j) <==> m == CR.MethodArgoV1 + j - 1
    {
      ArgoTargetsDistinct(i, j);
    }
    ArgoTargetsDistinct(i, i);
    assert FiledAsRun(run, meta);
  }

  lemma ArgoBlockCollected(edits: seq<Event>, path: string, n: nat, i: int, g: Grid, items: CR.Items,
                           size: CR.ArraySize, flags: seq<bool>, data: string, parseFloat: string -> Option<real>)
    requires |flags| == CR.MethodEndTag
    requires 1 <= i <= 3 && Factors(g, n)
    requires NoRuns(edits)
    ensures AllCollected(edits + [Build(ArgoCode(i), ArgoTarget(i)), MakeDir(path)]
                         + [Run(ArgoTarget(i), Some(n), path, ArgoLogName(i, n, g.nx, g.ny))],
                         items, size, flags, data, parseFloat)
  {
    ArgoLogCollected(path, n, i, g, items, size, flags, data, parseFloat);
    PreparationHasNoRuns(edits, ArgoCode(i), ArgoTarget(i), path);
    CollectedBlock(edits + [Build(ArgoCode(i), ArgoTarget(i)), MakeDir(path)],
                   Run(ArgoTarget(i), Some(n), path, ArgoLogName(i, n, g.nx, g.ny)),
                   items, size, flags, data, parseFloat);
  }

  lemma ArgoRunCollected(s: Shape, n: nat, i: int, g: Grid, items: CR.Items, size: CR.ArraySize, flags: seq<bool>,
                         data: string, parseFloat: string -> Option<real>)
    requires |flags| == CR.MethodEndTag
    requires 1 <= i <= 3 && Factors(g, n)
    ensures AllCollected(ArgoGridRun(s, n, i, g), items, size, flags, data, parseFloat)
  {
    ArgoBlockCollected(GridEvents(ArgoCode(i), g), ResultPath(s), n, i, g, items, size, flags, data, parseFloat);
    ArgoGridRunBlock(s, n, i, g);
  }

  lemma {:induction false} ArgoGridsCollected(s: Shape, n: nat, i: int, grids: seq<Grid>, items: CR.Items,
                                              size: CR.ArraySize, flags: seq<bool>, data: string,
                                              parseFloat: string -> Option<real>)
    requires |flags| == CR.MethodEndTag
    requires 1 <= i <= 3 && forall g :: g in grids ==> Factors(g, n)
    ensures AllCollected(ArgoGrids(s, n, i, grids), items, size, flags, data, parseFloat)
    decreases |grids|
  {
    if grids != [] {
      var front := grids[..|grids| - 1];
      assert forall g :: g in front ==> g in grids;
      ArgoGridsCollected(s, n, i, front, items, size, flags, data, parseFloat);
      ArgoRunCollected(s, n, i, grids[|grids| - 1], items, size, flags, data, parseFloat);
      AllCollectedAppend(ArgoGrids(s, n, i, front), ArgoGridRun(s, n, i, grids[|grids| - 1]),
                         items, size, flags, data, parseFloat);
    }
  }

  lemma NoRunsCollected(es: seq<Event>, items: CR.Items, size: CR.ArraySize, flags: seq<bool>, data: string,
                        parseFloat: string -> Option<real>)
    requires |flags| == CR.MethodEndTag
    requires NoRuns(es)
    ensures AllCollected(es, items, size, flags, data, parseFloat)
  {
  }

  lemma {:induction false} ArgoVersionsCollected(s: Shape, n: nat, grids: seq<Grid>, count: nat, items: CR.Items,
                                                 size: CR.ArraySize, flags: seq<bool>, data: string,
                                                 parseFloat: string -> Option<real>)
    requires |flags| == CR.MethodEndTag
    requires count <= 3 && forall g :: g in grids ==> Factors(g, n)
    ensures AllCollected(ArgoVersions(s, n, grids, count), items, size, flags, data, parseFloat)
  {
    if count > 0 {
      ArgoVersionsCollected(s, n, grids, count - 1, items, size, flags, data, parseFloat);
      NoRunsCollected(ShapeEvents(ArgoCode(count), s), items, size, flags, data, parseFloat);
      ArgoGridsCollected(s, n, count, grids, items, size, flags, data, parseFloat);
      AllCollectedAppend(ShapeEvents(ArgoCode(count), s), ArgoGrids(s, n, count, grids),
                         items, size, flags, data, parseFloat);
      AllCollectedAppend(ArgoVersions(s, n, grids, count - 1), ArgoVersionEvents(s, n, count, grids),
                         items, size, flags, data, parseFloat);
    }
  }

  lemma NodeCountCollected(s: Shape, n: nat, withC: bool, items: CR.Items, size: CR.ArraySize, flags: seq<bool>,
                           data: string, parseFloat: string -> Option<real>)
    requires |flags| == CR.MethodEndTag
    ensures AllCollected(NodeCountSteps(s, n, withC).events, items, size, flags, data, parseFloat)
  {
    var pre: seq<Event> := if withC then CRun(s) else [];
    CRunCollected(s, items, size, flags, data, parseFloat);
    MpiRunCollected(s, n, items, size, flags, data, parseFloat);
    NoRunsCollected(ShapeEvents(ArgoCode(1), s), items, size, flags, data, parseFloat);
    NoRunsCollected([], items, size, flags, data, parseFloat);
    match NxNyList(n)
    case None =>
    case Some(grids) =>
      NxNyListFactorisations(n);
      ArgoVersionsCollected(s, n, grids, 3, items, size, flags, data, parseFloat);
    AllCollectedAppend(pre, MpiRun(s, n), items, size, flags, data, parseFloat);
    AllCollectedAppend(pre + MpiRun(s, n), ArgoRuns(s, n).events, items, size, flags, data, parseFloat);
  }

  lemma {:induction false} ShapeCollected(s: Shape, counts: seq<int>, items: CR.Items, size: CR.ArraySize,
                                          flags: seq<bool>, data: string, parseFloat: string -> Option<real>)
    requires |flags| == CR.MethodEndTag
    requires forall n :: n in counts ==> n >= 0
    ensures AllCollected(ShapeSteps(s, counts).events, items, size, flags, data, parseFloat)
    decreases |counts|
  {
    if counts == [] {
      NoRunsCollected([], items, size, flags, data, parseFloat);
    } else {
      var front := counts[..|counts| - 1];
      assert forall n :: n in front ==> n in counts;
      ShapeCollected(s, front, items, size, flags, data, parseFloat);
      if !ShapeSteps(s, front).raised {
        var n := counts[|counts| - 1];
        assert n in counts;
        NodeCountCollected(s, n, |counts| == 1, items, size, flags, data, parseFloat);
        AllCollectedAppend(ShapeSteps(s, front).events, NodeCountSteps(s, n, |counts| == 1).events,
                           items, size, flags, data, parseFloat);
      }
    }
  }

  lemma {:induction false} MatrixCollected(sizes: seq<Shape>, counts: seq<int>, items: CR.Items, size: CR.ArraySize,
                                           flags: seq<bool>, data: string, parseFloat: string -> Option<real>)
    requires |flags| == CR.MethodEndTag
    requires forall n :: n in counts ==> n >= 0
    ensures AllCollected(MatrixSteps(sizes, counts).events, items, size, flags, data, parseFloat)
    decreases |sizes|
  {
    if sizes == [] {
      NoRunsCollected([], items, size, flags, data, parseFloat);
    } else {
      var front := sizes[..|sizes| - 1];
      MatrixCollected(front, counts, items, size, flags, data, parseFloat);
      if !MatrixSteps(front, counts).raised {
        ShapeCollected(sizes[|sizes| - 1], counts, items, size, flags, data, parseFloat);
        AllCollectedAppend(MatrixSteps(front, counts).events, ShapeSteps(sizes[|sizes| - 1], counts).events,
                           items, size, flags, data, parseFloat);
      }
    }
  }

  /**
   * Every log the driver writes, whatever its content, is filed by the
   * collector under the method the driver ran, with the node count it ran on,
   * and never makes the collector panic (the driver only runs versions 1..3).
   */
  lemma DriverLogsCollected(ims: seq<int>, jms: seq<int>, kms: seq<int>, counts: seq<int>, items: CR.Items,
                            size: CR.ArraySize, flags: seq<bool>, data: string, parseFloat: string -> Option<real>)
    requires |flags| == CR.MethodEndTag
    requires forall n :: n in counts ==> n >= 0
    ensures AllCollected(DriverSteps(ims, jms, kms, counts).events, items, size, flags, data, parseFloat)
  {
    MatrixCollected(Enumerate(ims, jms, kms), counts, items, size, flags, data, parseFloat);
    NoRunsCollected([MakeDir("bin")], items, size, flags, data, parseFloat);
    AllCollectedAppend([MakeDir("bin")], MatrixSteps(Enumerate(ims, jms, kms), counts).events,
                       items, size, flags, data, parseFloat);
  }

  /**
   * The driver's result directory of a shape is the collector's base-directory
   * name under "resutls", and that name parses back to the shape; the
   * collector's root is "results", a different directory.
   */
  lemma ResultDirectories(s: Shape)
    ensures ResultPath(s) == "resutls/" + CF.DirName(CR.ArraySize(s.im, s.jm, s.km))
    ensures CF.MustParseArraySize(ResultPath(s)[8..]) == Ok(CR.ArraySize(s.im, s.jm, s.km))
    ensures ResultPath(s)[..7] != "results"
  {
    var size := CR.ArraySize(s.im, s.jm, s.km);
    assert ResultPath(s) == "resutls/" + CF.DirName(size);
    assert ResultPath(s)[8..] == CF.DirName(size);
    CF.ParseArraySizeRoundTrip(size);
    assert ResultPath(s)[4] == 't' != "results"[4];
  }

  /**
   * The analyzer's labels do not follow the collector's codes: the collector's
   * MPI code reads as "ArgoDSM V1", and its ArgoDSM V3 code reads as "MPI".
   * Only the reference code is labelled as what it is.
   */
  lemma MethodLabelsDisagree()
    ensures |Analyzer.MethodLabels| == CR.MethodEndTag
    ensures Analyzer.MethodLabels[CR.MethodRef] == "C"
    ensures Analyzer.MethodLabels[CR.MethodMPI] == "ArgoDSM V1"
    ensures Analyzer.MethodLabels[CR.MethodArgoV1] == "ArgoDSM V2"
    ensures Analyzer.MethodLabels[CR.MethodArgoV2] == "ArgoDSM V3"
    ensures Analyzer.MethodLabels[CR.MethodArgoV3] == "MPI"
  {
  }
}
