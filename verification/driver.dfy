/**
 * The experiment driver testing.py. Every shell command it issues through
 * os.system is an event appended to a trace; the shell strings themselves
 * (sed, cmake, make, mpirun) are not interpreted. The driver edits the
 * parameter header of a code directory, builds a target into bin/, creates
 * the result directory of the shape and runs the binary with its output
 * redirected to a log file there.
 */
module Driver {
  import opened Wrappers
  import opened Text
  import opened Shapes

  datatype Event =
    | MakeDir(path: string)                                  // mkdir -p path
    | SetParam(codePath: string, name: string, value: int)   // sed -i on codePath/sor_params.h
    | Build(codePath: string, target: string)                // cmake, make, mv target ../../bin/
    | Run(binary: string, processes: Option<int>, logDir: string, logName: string)
      // ./bin/binary > logDir/logName, under `mpirun -n p` when processes is Some(p)

  /** The events so far, and whether the driver stopped with an exception. */
  datatype Steps = Steps(events: seq<Event>, raised: bool)

  const CCode: string := "SOR-C-reference"
  const MpiCode: string := "SOR-MPI"
  const CTarget: string := "sor_c"
  const MpiTarget: string := "sor_mpi"
  const CLogName: string := "c.out"

  function ArgoCode(i: int): string {
    "SOR-DSM-" + Itoa(i)
  }

  function ArgoTarget(i: int): string {
    "sor_argo_" + Itoa(i)
  }

  /** make_result_path: "resutls/%d_%d_%d", the directory name as written in the script. */
  function ResultPath(s: Shape): string {
    "resutls/" + Itoa(s.im) + "_" + Itoa(s.jm) + "_" + Itoa(s.km)
  }

  function MpiLogName(n: int): string {
    "mpi_" + Itoa(n) + ".out"
  }

  function ArgoLogName(i: int, n: int, nx: int, ny: int): string {
    "argo_" + Itoa(i) + "_" + Itoa(n) + "_" + Itoa(nx) + "_" + Itoa(ny) + ".out"
  }

  /** replace_shape: three header edits. */
  function ShapeEvents(code: string, s: Shape): seq<Event> {
    [SetParam(code, "im", s.im), SetParam(code, "jm", s.jm), SetParam(code, "km", s.km)]
  }

  /** replace_nx_ny: two header edits. */
  function GridEvents(code: string, g: Grid): seq<Event> {
    [SetParam(code, "dsmNX", g.nx), SetParam(code, "dsmNY", g.ny)]
  }

  /** build_and_run_c. */
  function CRun(s: Shape): seq<Event> {
    ShapeEvents(CCode, s) + [Build(CCode, CTarget), MakeDir(ResultPath(s)), Run(CTarget, None, ResultPath(s), CLogName)]
  }

  /** build_and_run_mpi. */
  function MpiRun(s: Shape, n: int): seq<Event> {
    ShapeEvents(MpiCode, s)
    + [Build(MpiCode, MpiTarget), MakeDir(ResultPath(s)), Run(MpiTarget, Some(n), ResultPath(s), MpiLogName(n))]
  }

  /** One pass of the inner loop of build_and_run_argo. */
  function ArgoGridRun(s: Shape, n: int, i: int, g: Grid): seq<Event> {
    GridEvents(ArgoCode(i), g)
    + [Build(ArgoCode(i), ArgoTarget(i)), MakeDir(ResultPath(s)),
       Run(ArgoTarget(i), Some(n), ResultPath(s), ArgoLogName(i, n, g.nx, g.ny))]
  }

  function ArgoGrids(s: Shape, n: int, i: int, grids: seq<Grid>): seq<Event>
    decreases |grids|
  {
    if grids == [] then []
    else ArgoGrids(s, n, i, grids[..|grids| - 1]) + ArgoGridRun(s, n, i, grids[|grids| - 1])
  }

  /** One pass of build_and_run_argo's outer loop. */
  function ArgoVersionEvents(s: Shape, n: int, i: int, grids: seq<Grid>): seq<Event> {
    ShapeEvents(ArgoCode(i), s) + ArgoGrids(s, n, i, grids)
  }

  /** Versions 1 .. count of build_and_run_argo's outer loop. */
  function ArgoVersions(s: Shape, n: int, grids: seq<Grid>, count: nat): seq<Event> {
    if count == 0 then []
    else ArgoVersions(s, n, grids, count - 1) + ArgoVersionEvents(s, n, count, grids)
  }

  /** build_and_run_argo: an unsupported node count raises right after the first header edits. */
  function ArgoRuns(s: Shape, n: int): Steps {
    match NxNyList(n)
    case None => Steps(ShapeEvents(ArgoCode(1), s), true)
    case Some(grids) => Steps(ArgoVersions(s, n, grids, 3), false)
  }

  /** One node count of the driver loop; the C reference goes first when it has not been run yet. */
  function NodeCountSteps(s: Shape, n: int, withC: bool): Steps {
    var argo := ArgoRuns(s, n);
    Steps((if withC then CRun(s) else []) + MpiRun(s, n) + argo.events, argo.raised)
  }

  /** The node-count loop of one shape; the C reference is asked for only before the first count. */
  function ShapeSteps(s: Shape, counts: seq<int>): Steps
    decreases |counts|
  {
    if counts == [] then Steps([], false)
    else
      var done := ShapeSteps(s, counts[..|counts| - 1]);
      if done.raised then done
      else
        var next := NodeCountSteps(s, counts[|counts| - 1], |counts| == 1);
        Steps(done.events + next.events, next.raised)
  }

  /** The shape loops: the shapes in the order the three nested loops visit them. */
  function MatrixSteps(sizes: seq<Shape>, counts: seq<int>): Steps
    decreases |sizes|
  {
    if sizes == [] then Steps([], false)
    else
      var done := MatrixSteps(sizes[..|sizes| - 1], counts);
      if done.raised then done
      else
        var next := ShapeSteps(sizes[|sizes| - 1], counts);
        Steps(done.events + next.events, next.raised)
  }

  /** The whole script: `mkdir -p bin`, then the loops. */
  function DriverSteps(ims: seq<int>, jms: seq<int>, kms: seq<int>, counts: seq<int>): Steps {
    var loops := MatrixSteps(Enumerate(ims, jms, kms), counts);
    Steps([MakeDir("bin")] + loops.events, loops.raised)
  }

  /** Once a node count raises, the later node counts add nothing. */
  lemma {:induction false} ShapeStepsStops(s: Shape, counts: seq<int>, q: int)
    requires 0 < q <= |counts| && ShapeSteps(s, counts[..q]).raised
    ensures ShapeSteps(s, counts) == ShapeSteps(s, counts[..q])
    decreases |counts|
  {
    if q < |counts| {
      var front := counts[..|counts| - 1];
      assert front[..q] == counts[..q];
      ShapeStepsStops(s, front, q);
    } else {
      assert counts[..q] == counts;
    }
  }

  lemma {:induction false} EnumeratePrefix(ims: seq<int>, jms: seq<int>, kms: seq<int>, a: int)
    requires 0 <= a <= |ims|
    ensures Enumerate(ims[..a], jms, kms) <= Enumerate(ims, jms, kms)
    decreases |ims|
  {
    if a < |ims| {
      var front := ims[..|ims| - 1];
      assert front[..a] == ims[..a];
      EnumeratePrefix(front, jms, kms, a);
    } else {
      assert ims[..a] == ims;
    }
  }

  lemma {:induction false} RowPrefix(im: int, jms: seq<int>, kms: seq<int>, b: int)
    requires 0 <= b <= |jms|
    ensures ShapesOfRow(im, jms[..b], kms) <= ShapesOfRow(im, jms, kms)
    decreases |jms|
  {
    if b < |jms| {
      var front := jms[..|jms| - 1];
      assert front[..b] == jms[..b];
      RowPrefix(im, front, kms, b);
    } else {
      assert jms[..b] == jms;
    }
  }

  lemma EnumerateStep(ims: seq<int>, jms: seq<int>, kms: seq<int>, a: int)
    requires 0 <= a < |ims|
    ensures Enumerate(ims[..a + 1], jms, kms) == Enumerate(ims[..a], jms, kms) + ShapesOfRow(ims[a], jms, kms)
  {
    assert ims[..a + 1][..a] == ims[..a];
  }

  /** The shape loops over xs + ys: the steps of xs, then, unless xs raised, those of ys. */
  lemma {:induction false} MatrixStepsAppend(xs: seq<Shape>, ys: seq<Shape>, counts: seq<int>)
    ensures MatrixSteps(xs + ys, counts)
            == if MatrixSteps(xs, counts).raised then MatrixSteps(xs, counts)
               else Steps(MatrixSteps(xs, counts).events + MatrixSteps(ys, counts).events, MatrixSteps(ys, counts).raised)
    decreases |ys|
  {
    if ys == [] {
      assert xs + ys == xs;
    } else {
      var front := ys[..|ys| - 1];
      assert (xs + ys)[..|xs + ys| - 1] == xs + front;
      MatrixStepsAppend(xs, front, counts);
      if !MatrixSteps(xs, counts).raised && !MatrixSteps(front, counts).raised {
        Associate(MatrixSteps(xs, counts).events, MatrixSteps(front, counts).events,
                  ShapeSteps(ys[|ys| - 1], counts).events);
      }
    }
  }

  /** Once a shape raises, the later shapes add nothing. */
  lemma MatrixStepsRaised(xs: seq<Shape>, ys: seq<Shape>, counts: seq<int>)
    requires MatrixSteps(xs, counts).raised
    ensures MatrixSteps(xs + ys, counts) == MatrixSteps(xs, counts)
  {
    MatrixStepsAppend(xs, ys, counts);
  }

  /** One more row of the shape matrix: its steps follow those of the earlier rows, and if it raises nothing follows. */
  lemma MatrixRowStep(ims: seq<int>, jms: seq<int>, kms: seq<int>, counts: seq<int>, a: int)
    requires 0 <= a < |ims| && !MatrixSteps(Enumerate(ims[..a], jms, kms), counts).raised
    ensures MatrixSteps(Enumerate(ims[..a + 1], jms, kms), counts).events
            == MatrixSteps(Enumerate(ims[..a], jms, kms), counts).events
               + MatrixSteps(ShapesOfRow(ims[a], jms, kms), counts).events
    ensures MatrixSteps(Enumerate(ims[..a + 1], jms, kms), counts).raised
            == MatrixSteps(ShapesOfRow(ims[a], jms, kms), counts).raised
    ensures MatrixSteps(ShapesOfRow(ims[a], jms, kms), counts).raised
            ==> MatrixSteps(Enumerate(ims, jms, kms), counts) == MatrixSteps(Enumerate(ims[..a + 1], jms, kms), counts)
  {
    var visited := Enumerate(ims[..a], jms, kms);
    var row := ShapesOfRow(ims[a], jms, kms);
    EnumerateStep(ims, jms, kms, a);
    MatrixStepsAppend(visited, row, counts);
    if MatrixSteps(row, counts).raised {
      EnumeratePrefix(ims, jms, kms, a + 1);
      var all := Enumerate(ims, jms, kms);
      assert all == (visited + row) + all[|visited + row|..];
      MatrixStepsRaised(visited + row, all[|visited + row|..], counts);
    }
  }

  lemma ColumnStep(im: int, jm: int, kms: seq<int>, c: int)
    requires 0 <= c < |kms|
    ensures ShapesOfColumn(im, jm, kms[..c + 1]) == ShapesOfColumn(im, jm, kms[..c]) + [Shape(im, jm, kms[c])]
  {
  }

  lemma ColumnPrefix(im: int, jm: int, kms: seq<int>, c: int)
    requires 0 <= c <= |kms|
    ensures ShapesOfColumn(im, jm, kms) == ShapesOfColumn(im, jm, kms[..c]) + ShapesOfColumn(im, jm, kms)[c..]
  {
  }

  lemma MatrixStepsSnoc(visited: seq<Shape>, s: Shape, counts: seq<int>)
    requires !MatrixSteps(visited, counts).raised
    ensures MatrixSteps(visited + [s], counts)
         == Steps(MatrixSteps(visited, counts).events + ShapeSteps(s, counts).events, ShapeSteps(s, counts).raised)
  {
    assert (visited + [s])[..|visited|] == visited;
  }

  lemma ArgoGridsStep(s: Shape, n: int, i: int, grids: seq<Grid>, p: int)
    requires 0 <= p < |grids|
    ensures ArgoGrids(s, n, i, grids[..p + 1]) == ArgoGrids(s, n, i, grids[..p]) + ArgoGridRun(s, n, i, grids[p])
  {
    assert grids[..p + 1][..p] == grids[..p];
  }

  /** Unfolds ArgoRuns for a given grid table. */
  lemma ArgoRunsOf(s: Shape, n: int, grids: seq<Grid>)
    ensures NxNyList(n).None? ==> ArgoRuns(s, n) == Steps(ShapeEvents(ArgoCode(1), s), true)
    ensures NxNyList(n) == Some(grids) ==> ArgoRuns(s, n) == Steps(ArgoVersions(s, n, grids, 3), false)
  {
  }

  lemma Associate<T>(a: seq<T>, b: seq<T>, c: seq<T>)
    ensures a + b + c == a + (b + c)
  {
  }

  class Driver {
    /** The commands issued so far, oldest first. */
    var trace: seq<Event>

    constructor()
      ensures trace == []
    {
      trace := [];
    }

    /** os.system. */
    method System(e: Event)
      modifies this
      ensures trace == old(trace) + [e]
    {
      trace := trace + [e];
    }

    method MakeResultPath(s: Shape) returns (path: string)
      modifies this
      ensures path == ResultPath(s)
      ensures trace == old(trace) + [MakeDir(path)]
    {
      path := "resutls/" + Itoa(s.im) + "_" + Itoa(s.jm) + "_" + Itoa(s.km);
      System(MakeDir(path));
    }

    method ReplaceShape(code: string, s: Shape)
      modifies this
      ensures trace == old(trace) + ShapeEvents(code, s)
    {
      System(SetParam(code, "im", s.im));
      System(SetParam(code, "jm", s.jm));
      System(SetParam(code, "km", s.km));
    }

    method ReplaceNxNy(code: string, g: Grid)
      modifies this
      ensures trace == old(trace) + GridEvents(code, g)
    {
      System(SetParam(code, "dsmNX", g.nx));
      System(SetParam(code, "dsmNY", g.ny));
    }

    method BuildTarget(code: string, target: string)
      modifies this
      ensures trace == old(trace) + [Build(code, target)]
    {
      System(Build(code, target));
    }

    method BuildAndRunC(s: Shape)
      modifies this
      ensures trace == old(trace) + CRun(s)
    {
      ReplaceShape(CCode, s);
      BuildTarget(CCode, CTarget);
      var dir := MakeResultPath(s);
      System(Run(CTarget, None, dir, CLogName));
    }

    method BuildAndRunMpi(s: Shape, n: int)
      modifies this
      ensures trace == old(trace) + MpiRun(s, n)
    {
      ReplaceShape(MpiCode, s);
      BuildTarget(MpiCode, MpiTarget);
      var dir := MakeResultPath(s);
      System(Run(MpiTarget, Some(n), dir, "mpi_" + Itoa(n) + ".out"));
    }

    method BuildAndRunArgo(s: Shape, n: int) returns (raised: bool)
      modifies this
      ensures trace == old(trace) + ArgoRuns(s, n).events
      ensures raised == ArgoRuns(s, n).raised
    {
      ghost var gs: seq<Grid> := [];
      for i := 1 to 4
        invariant i > 1 ==> NxNyList(n) == Some(gs) && trace == old(trace) + ArgoVersions(s, n, gs, i - 1)
        invariant i == 1 ==> trace == old(trace)
      {
        ghost var grids;
        raised, grids := ArgoVersion(s, n, i);
        if raised {
          ArgoRunsOf(s, n, gs);
          return;
        }
        gs := grids;
        Associate(old(trace), ArgoVersions(s, n, gs, i - 1), ArgoVersionEvents(s, n, i, gs));
      }
      ArgoRunsOf(s, n, gs);
      raised := false;
    }

    /** One pass of the outer loop of build_and_run_argo; raises when the node count has no grid table. */
    method ArgoVersion(s: Shape, n: int, i: int) returns (raised: bool, ghost grids: seq<Grid>)
      modifies this
      ensures raised <==> NxNyList(n).None?
      ensures !raised ==> NxNyList(n) == Some(grids)
      ensures !raised ==> trace == old(trace) + ArgoVersionEvents(s, n, i, grids)
      ensures raised ==> trace == old(trace) + ShapeEvents(ArgoCode(i), s)
    {
      var code := "SOR-DSM-" + Itoa(i);
      ReplaceShape(code, s);
      var pairs := NxNyList(n);
      if pairs.None? {
        return true, [];
      }
      grids := pairs.value;
      RunArgoGrids(s, n, i, code, pairs.value);
      Associate(old(trace), ShapeEvents(ArgoCode(i), s), ArgoGrids(s, n, i, grids));
      return false, grids;
    }

    /** One pass of the inner loop of build_and_run_argo: header edits, build and run for one grid. */
    method RunArgoGrid(s: Shape, n: int, i: int, code: string, g: Grid)
      requires code == ArgoCode(i)
      modifies this
      ensures trace == old(trace) + ArgoGridRun(s, n, i, g)
    {
      ReplaceNxNy(code, g);
      BuildTarget(code, "sor_argo_" + Itoa(i));
      var dir := MakeResultPath(s);
      System(Run("sor_argo_" + Itoa(i), Some(n), dir, "argo_" + Itoa(i) + "_" + Itoa(n) + "_" + Itoa(g.nx) + "_" + Itoa(g.ny) + ".out"));
    }

    /** The inner loop of build_and_run_argo, over the grids of the node count. */
    method RunArgoGrids(s: Shape, n: int, i: int, code: string, grids: seq<Grid>)
      requires code == ArgoCode(i)
      modifies this
      ensures trace == old(trace) + ArgoGrids(s, n, i, grids)
    {
      for p := 0 to |grids|
        invariant trace == old(trace) + ArgoGrids(s, n, i, grids[..p])
      {
        ArgoGridsStep(s, n, i, grids, p);
        RunArgoGrid(s, n, i, code, grids[p]);
        Associate(old(trace), ArgoGrids(s, n, i, grids[..p]), ArgoGridRun(s, n, i, grids[p]));
      }
      assert grids[..|grids|] == grids;
    }

    /** The body of the node-count loop. */
    method TestNodeCount(s: Shape, n: int, testC: bool) returns (raised: bool)
      modifies this
      ensures trace == old(trace) + NodeCountSteps(s, n, testC).events
      ensures raised == NodeCountSteps(s, n, testC).raised
    {
      ghost var t0 := trace;
      if testC {
        BuildAndRunC(s);
      }
      ghost var t1 := trace;
      BuildAndRunMpi(s, n);
      raised := BuildAndRunArgo(s, n);
      NodeCountEvents(s, n);
      Associate(t1, MpiRun(s, n), ArgoRuns(s, n).events);
      if testC {
        Associate(t0, CRun(s), NodeCountSteps(s, n, false).events);
      }
    }

    method TestShape(s: Shape, counts: seq<int>) returns (raised: bool)
      modifies this
      ensures trace == old(trace) + ShapeSteps(s, counts).events
      ensures raised == ShapeSteps(s, counts).raised
    {
      var cDone := false;
      raised := false;
      for q := 0 to |counts|
        invariant cDone <==> q > 0
        invariant !raised
        invariant trace == old(trace) + ShapeSteps(s, counts[..q]).events && !ShapeSteps(s, counts[..q]).raised
      {
        assert counts[..q + 1][..q] == counts[..q];
        raised := TestNodeCount(s, counts[q], !cDone);
        Associate(old(trace), ShapeSteps(s, counts[..q]).events, NodeCountSteps(s, counts[q], q == 0).events);
        cDone := true;
        if raised {
          ShapeStepsStops(s, counts, q + 1);
          return;
        }
      }
      assert counts[..|counts|] == counts;
    }

    /** The innermost shape loop: km varies for fixed im and jm. */
    method TestColumn(im: int, jm: int, kms: seq<int>, counts: seq<int>) returns (raised: bool)
      modifies this
      ensures trace == old(trace) + MatrixSteps(ShapesOfColumn(im, jm, kms), counts).events
      ensures raised == MatrixSteps(ShapesOfColumn(im, jm, kms), counts).raised
    {
      raised := false;
      for c := 0 to |kms|
        invariant trace == old(trace) + MatrixSteps(ShapesOfColumn(im, jm, kms[..c]), counts).events
        invariant !MatrixSteps(ShapesOfColumn(im, jm, kms[..c]), counts).raised && !raised
      {
        var s := Shape(im, jm, kms[c]);
        ghost var visited := ShapesOfColumn(im, jm, kms[..c]);
        ColumnStep(im, jm, kms, c);
        MatrixStepsSnoc(visited, s, counts);
        raised := TestShape(s, counts);
        Associate(old(trace), MatrixSteps(visited, counts).events, ShapeSteps(s, counts).events);
        if raised {
          ColumnPrefix(im, jm, kms, c + 1);
          MatrixStepsRaised(visited + [s], ShapesOfColumn(im, jm, kms)[c + 1..], counts);
          return;
        }
      }
      assert kms[..|kms|] == kms;
    }

    /** The middle shape loop: jm varies for fixed im. */
    method TestRow(im: int, jms: seq<int>, kms: seq<int>, counts: seq<int>) returns (raised: bool)
      modifies this
      ensures trace == old(trace) + MatrixSteps(ShapesOfRow(im, jms, kms), counts).events
      ensures raised == MatrixSteps(ShapesOfRow(im, jms, kms), counts).raised
    {
      raised := false;
      for b := 0 to |jms|
        invariant trace == old(trace) + MatrixSteps(ShapesOfRow(im, jms[..b], kms), counts).events
        invariant !MatrixSteps(ShapesOfRow(im, jms[..b], kms), counts).raised && !raised
      {
        ghost var visited := ShapesOfRow(im, jms[..b], kms);
        ghost var column := ShapesOfColumn(im, jms[b], kms);
        assert jms[..b + 1][..b] == jms[..b];
        assert ShapesOfRow(im, jms[..b + 1], kms) == visited + column;
        raised := TestColumn(im, jms[b], kms, counts);
        MatrixStepsAppend(visited, column, counts);
        Associate(old(trace), MatrixSteps(visited, counts).events, MatrixSteps(column, counts).events);
        if raised {
          RowPrefix(im, jms, kms, b + 1);
          ghost var all := ShapesOfRow(im, jms, kms);
          assert all == (visited + column) + all[|visited + column|..];
          MatrixStepsRaised(visited + column, all[|visited + column|..], counts);
          return;
        }
      }
      assert jms[..|jms|] == jms;
    }

    /** The whole script: `mkdir -p bin` and the loops over im, jm, km and the node counts. */
    method TestMatrix(ims: seq<int>, jms: seq<int>, kms: seq<int>, counts: seq<int>) returns (raised: bool)
      modifies this
      ensures trace == old(trace) + DriverSteps(ims, jms, kms, counts).events
      ensures raised == DriverSteps(ims, jms, kms, counts).raised
    {
      System(MakeDir("bin"));
      ghost var start := trace;
      Associate(old(trace), [MakeDir("bin")], MatrixSteps(Enumerate(ims, jms, kms), counts).events);
      raised := false;
      for a := 0 to |ims|
        invariant trace == start + MatrixSteps(Enumerate(ims[..a], jms, kms), counts).events
        invariant !MatrixSteps(Enumerate(ims[..a], jms, kms), counts).raised && !raised
      {
        raised := TestRow(ims[a], jms, kms, counts);
        MatrixRowStep(ims, jms, kms, counts, a);
        Associate(start, MatrixSteps(Enumerate(ims[..a], jms, kms), counts).events,
                  MatrixSteps(ShapesOfRow(ims[a], jms, kms), counts).events);
        if raised {
          return;
        }
      }
      assert ims[..|ims|] == ims;
    }
  }

  /** Each run block is its preparation events followed by the run itself. */
  lemma CRunBlock(s: Shape)
    ensures CRun(s) == ShapeEvents(CCode, s) + [Build(CCode, CTarget), MakeDir(ResultPath(s))]
                       + [Run(CTarget, None, ResultPath(s), CLogName)]
  {
  }

  lemma MpiRunBlock(s: Shape, n: int)
    ensures MpiRun(s, n) == ShapeEvents(MpiCode, s) + [Build(MpiCode, MpiTarget), MakeDir(ResultPath(s))]
                            + [Run(MpiTarget, Some(n), ResultPath(s), MpiLogName(n))]
  {
  }

  lemma ArgoGridRunBlock(s: Shape, n: int, i: int, g: Grid)
    ensures ArgoGridRun(s, n, i, g) == GridEvents(ArgoCode(i), g) + [Build(ArgoCode(i), ArgoTarget(i)), MakeDir(ResultPath(s))]
                                       + [Run(ArgoTarget(i), Some(n), ResultPath(s), ArgoLogName(i, n, g.nx, g.ny))]
  {
  }

  /** The events that prepare a run (header edits, the build and the mkdir) hold no run. */
  predicate NoRuns(es: seq<Event>) {
    forall x :: 0 <= x < |es| ==> !es[x].Run?
  }

  lemma PreparationHasNoRuns(edits: seq<Event>, code: string, target: string, path: string)
    requires NoRuns(edits)
    ensures NoRuns(edits + [Build(code, target), MakeDir(path)])
  {
  }

  /** The number of runs (of any binary) among the events. */
  function RunCount(es: seq<Event>): nat
    decreases |es|
  {
    if es == [] then 0 else (if es[0].Run? then 1 else 0) + RunCount(es[1..])
  }

  lemma {:induction false} RunCountAppend(a: seq<Event>, b: seq<Event>)
    ensures RunCount(a + b) == RunCount(a) + RunCount(b)
    decreases |a|
  {
    if a == [] {
      assert a + b == b;
    } else {
      assert (a + b)[1..] == a[1..] + b;
      RunCountAppend(a[1..], b);
    }
  }

  lemma {:induction false} RunCountNone(es: seq<Event>)
    requires NoRuns(es)
    ensures RunCount(es) == 0
    decreases |es|
  {
    if es != [] {
      RunCountNone(es[1..]);
    }
  }

  /** A block of preparation events closed by one run holds one run. */
  lemma RunCountBlock(pre: seq<Event>, last: Event)
    requires NoRuns(pre)
    requires last.Run?
    ensures RunCount(pre + [last]) == 1
  {
    RunCountAppend(pre, [last]);
    RunCountNone(pre);
    assert [last][1..] == [];
  }

  lemma FixedBlockRuns(s: Shape, n: int, i: int, g: Grid)
    ensures RunCount(ShapeEvents(ArgoCode(i), s)) == 0
    ensures RunCount(CRun(s)) == 1 && RunCount(MpiRun(s, n)) == 1 && RunCount(ArgoGridRun(s, n, i, g)) == 1
  {
    var path := ResultPath(s);
    RunCountNone(ShapeEvents(ArgoCode(i), s));
    assert CRun(s) == ShapeEvents(CCode, s) + [Build(CCode, CTarget), MakeDir(path)] + [Run(CTarget, None, path, CLogName)];
    RunCountBlock(ShapeEvents(CCode, s) + [Build(CCode, CTarget), MakeDir(path)], Run(CTarget, None, path, CLogName));
    assert MpiRun(s, n) == ShapeEvents(MpiCode, s) + [Build(MpiCode, MpiTarget), MakeDir(path)]
                           + [Run(MpiTarget, Some(n), path, MpiLogName(n))];
    RunCountBlock(ShapeEvents(MpiCode, s) + [Build(MpiCode, MpiTarget), MakeDir(path)],
                  Run(MpiTarget, Some(n), path, MpiLogName(n)));
    assert ArgoGridRun(s, n, i, g) == GridEvents(ArgoCode(i), g) + [Build(ArgoCode(i), ArgoTarget(i)), MakeDir(path)]
                                      + [Run(ArgoTarget(i), Some(n), path, ArgoLogName(i, n, g.nx, g.ny))];
    RunCountBlock(GridEvents(ArgoCode(i), g) + [Build(ArgoCode(i), ArgoTarget(i)), MakeDir(path)],
                  Run(ArgoTarget(i), Some(n), path, ArgoLogName(i, n, g.nx, g.ny)));
  }

  lemma {:induction false} ArgoGridsRuns(s: Shape, n: int, i: int, grids: seq<Grid>)
    ensures RunCount(ArgoGrids(s, n, i, grids)) == |grids|
    decreases |grids|
  {
    if grids != [] {
      var front := grids[..|grids| - 1];
      ArgoGridsRuns(s, n, i, front);
      RunCountAppend(ArgoGrids(s, n, i, front), ArgoGridRun(s, n, i, grids[|grids| - 1]));
      FixedBlockRuns(s, n, i, grids[|grids| - 1]);
    }
  }

  lemma {:induction false} ArgoVersionsRuns(s: Shape, n: int, grids: seq<Grid>, count: nat)
    ensures RunCount(ArgoVersions(s, n, grids, count)) == count * |grids|
  {
    if count > 0 {
      ArgoVersionsRuns(s, n, grids, count - 1);
      RunCountAppend(ArgoVersions(s, n, grids, count - 1), ArgoVersionEvents(s, n, count, grids));
      RunCountAppend(ShapeEvents(ArgoCode(count), s), ArgoGrids(s, n, count, grids));
      FixedBlockRuns(s, n, count, Grid(0, 0));
      ArgoGridsRuns(s, n, count, grids);
      MulDistrib(count - 1, 1, |grids|);
    }
  }

  /**
   * For a supported node count with grids gs, one pass of the node-count loop
   * runs the MPI binary once and each ArgoDSM version once per grid:
   * 1 + 3 * |gs| runs, plus the C reference when it goes first.
   */
  lemma NodeCountRuns(s: Shape, n: int, withC: bool)
    requires NxNyList(n).Some?
    ensures !NodeCountSteps(s, n, withC).raised
    ensures RunCount(NodeCountSteps(s, n, withC).events) == (if withC then 1 else 0) + 1 + 3 * |NxNyList(n).value|
  {
    var grids := NxNyList(n).value;
    var pre: seq<Event> := if withC then CRun(s) else [];
    FixedBlockRuns(s, n, 1, Grid(0, 0));
    ArgoVersionsRuns(s, n, grids, 3);
    RunCountAppend(pre, MpiRun(s, n));
    RunCountAppend(pre + MpiRun(s, n), ArgoVersions(s, n, grids, 3));
  }

  /**
   * A node count raises exactly when the grid table has no entry for it; the
   * C reference (when asked for) and MPI have then run, and no ArgoDSM binary.
   */
  lemma NodeCountRaises(s: Shape, n: int, withC: bool)
    ensures NodeCountSteps(s, n, withC).raised <==> NxNyList(n).None?
    ensures NxNyList(n).None? ==> RunCount(NodeCountSteps(s, n, withC).events) == (if withC then 1 else 0) + 1
  {
    if NxNyList(n).None? {
      var pre: seq<Event> := if withC then CRun(s) else [];
      FixedBlockRuns(s, n, 1, Grid(0, 0));
      RunCountAppend(pre, MpiRun(s, n));
      RunCountAppend(pre + MpiRun(s, n), ShapeEvents(ArgoCode(1), s));
    } else {
      NodeCountRuns(s, n, withC);
    }
  }

  /** The runs of the node-count loop of one shape, when every node count is supported. */
  function CountsRuns(counts: seq<int>): int
    requires forall n :: n in counts ==> NxNyList(n).Some?
    decreases |counts|
  {
    if counts == [] then 0
    else CountsRuns(counts[..|counts| - 1]) + 1 + 3 * |NxNyList(counts[|counts| - 1]).value|
  }

  lemma {:induction false} ShapeRuns(s: Shape, counts: seq<int>)
    requires forall n :: n in counts ==> NxNyList(n).Some?
    ensures !ShapeSteps(s, counts).raised
    ensures RunCount(ShapeSteps(s, counts).events) == (if counts == [] then 0 else 1) + CountsRuns(counts)
    decreases |counts|
  {
    if counts != [] {
      var front := counts[..|counts| - 1];
      var n := counts[|counts| - 1];
      assert forall m :: m in front ==> m in counts;
      ShapeRuns(s, front);
      NodeCountRuns(s, n, |counts| == 1);
      RunCountAppend(ShapeSteps(s, front).events, NodeCountSteps(s, n, |counts| == 1).events);
    }
  }

  lemma {:induction false} MatrixRuns(sizes: seq<Shape>, counts: seq<int>)
    requires forall n :: n in counts ==> NxNyList(n).Some?
    ensures !MatrixSteps(sizes, counts).raised
    ensures RunCount(MatrixSteps(sizes, counts).events) == |sizes| * ((if counts == [] then 0 else 1) + CountsRuns(counts))
    decreases |sizes|
  {
    if sizes != [] {
      var front := sizes[..|sizes| - 1];
      MatrixRuns(front, counts);
      ShapeRuns(sizes[|sizes| - 1], counts);
      RunCountAppend(MatrixSteps(front, counts).events, ShapeSteps(sizes[|sizes| - 1], counts).events);
      MulDistrib(|front|, 1, (if counts == [] then 0 else 1) + CountsRuns(counts));
    }
  }

  /**
   * With the fixed lists (27 shapes, node counts 2, 8 and 16) the script never
   * raises and performs 27 * (1 + 7 + 13 + 16) = 999 runs.
   */
  lemma FixedMatrixRuns()
    ensures !DriverSteps(ImList, JmList, KmList, NodeCountList).raised
    ensures RunCount(DriverSteps(ImList, JmList, KmList, NodeCountList).events) == 999
  {
    var counts := NodeCountList;
    assert counts[..2] == [2, 8] && counts[..2][..1] == [2] && counts[..2][..1][..0] == [];
    assert CountsRuns(counts[..2][..1]) == 7;
    assert CountsRuns(counts[..2]) == 20;
    assert CountsRuns(counts) == 36;
    FixedShapeCount();
    MatrixRuns(Enumerate(ImList, JmList, KmList), counts);
    RunCountAppend([MakeDir("bin")], MatrixSteps(Enumerate(ImList, JmList, KmList), counts).events);
  }

  /**
   * Every run is prepared: the event two steps before it builds its binary, and
   * the event right before it creates its log directory (make_result_path is
   * evaluated as the argument of the run, after the build).
   */
  predicate RunsPrepared(es: seq<Event>) {
    forall x :: 0 <= x < |es| && es[x].Run? ==>
      2 <= x && es[x - 2].Build? && es[x - 2].target == es[x].binary && es[x - 1] == MakeDir(es[x].logDir)
  }

  lemma RunsPreparedAppend(a: seq<Event>, b: seq<Event>)
    requires RunsPrepared(a) && RunsPrepared(b)
    ensures RunsPrepared(a + b)
  {
    var es := a + b;
    forall x | 0 <= x < |es| && es[x].Run?
      ensures 2 <= x && es[x - 2].Build? && es[x - 2].target == es[x].binary && es[x - 1] == MakeDir(es[x].logDir)
    {
      if x >= |a| {
        assert es[x] == b[x - |a|];
        assert es[x - 2] == b[x - |a| - 2] && es[x - 1] == b[x - |a| - 1];
      } else {
        assert es[x] == a[x];
      }
    }
  }

  lemma PreparedBlock(pre: seq<Event>, code: string, target: string, p: Option<int>, dir: string, log: string)
    requires NoRuns(pre)
    ensures RunsPrepared(pre + [Build(code, target), MakeDir(dir), Run(target, p, dir, log)])
  {
  }

  lemma FixedBlocksPrepared(s: Shape, n: int, i: int, g: Grid)
    ensures RunsPrepared(ShapeEvents(ArgoCode(i), s))
    ensures RunsPrepared(CRun(s)) && RunsPrepared(MpiRun(s, n)) && RunsPrepared(ArgoGridRun(s, n, i, g))
  {
    var path := ResultPath(s);
    PreparedBlock(ShapeEvents(CCode, s), CCode, CTarget, None, path, CLogName);
    PreparedBlock(ShapeEvents(MpiCode, s), MpiCode, MpiTarget, Some(n), path, MpiLogName(n));
    PreparedBlock(GridEvents(ArgoCode(i), g), ArgoCode(i), ArgoTarget(i), Some(n), path, ArgoLogName(i, n, g.nx, g.ny));
  }

  lemma {:induction false} ArgoGridsPrepared(s: Shape, n: int, i: int, grids: seq<Grid>)
    ensures RunsPrepared(ArgoGrids(s, n, i, grids))
    decreases |grids|
  {
    if grids != [] {
      ArgoGridsPrepared(s, n, i, grids[..|grids| - 1]);
      FixedBlocksPrepared(s, n, i, grids[|grids| - 1]);
      RunsPreparedAppend(ArgoGrids(s, n, i, grids[..|grids| - 1]), ArgoGridRun(s, n, i, grids[|grids| - 1]));
    }
  }

  lemma {:induction false} ArgoVersionsPrepared(s: Shape, n: int, grids: seq<Grid>, count: nat)
    ensures RunsPrepared(ArgoVersions(s, n, grids, count))
  {
    if count > 0 {
      ArgoVersionsPrepared(s, n, grids, count - 1);
      FixedBlocksPrepared(s, n, count, Grid(0, 0));
      ArgoGridsPrepared(s, n, count, grids);
      RunsPreparedAppend(ShapeEvents(ArgoCode(count), s), ArgoGrids(s, n, count, grids));
      RunsPreparedAppend(ArgoVersions(s, n, grids, count - 1), ArgoVersionEvents(s, n, count, grids));
    }
  }

  lemma ArgoRunsPrepared(s: Shape, n: int)
    ensures RunsPrepared(ArgoRuns(s, n).events)
  {
    if NxNyList(n).Some? {
      ArgoRunsOf(s, n, NxNyList(n).value);
      ArgoVersionsPrepared(s, n, NxNyList(n).value, 3);
    } else {
      ArgoRunsOf(s, n, []);
      FixedBlocksPrepared(s, n, 1, Grid(0, 0));
    }
  }

  lemma NodeCountPrepared(s: Shape, n: int, withC: bool)
    ensures RunsPrepared(NodeCountSteps(s, n, withC).events)
  {
    FixedBlocksPrepared(s, n, 1, Grid(0, 0));
    ArgoRunsPrepared(s, n);
    var pre: seq<Event> := if withC then CRun(s) else [];
    RunsPreparedAppend(pre, MpiRun(s, n));
    RunsPreparedAppend(pre + MpiRun(s, n), ArgoRuns(s, n).events);
  }


  lemma {:induction false} ShapePrepared(s: Shape, counts: seq<int>)
    ensures RunsPrepared(ShapeSteps(s, counts).events)
    decreases |counts|
  {
    if counts != [] {
      var front := counts[..|counts| - 1];
      ShapePrepared(s, front);
      if !ShapeSteps(s, front).raised {
        NodeCountPrepared(s, counts[|counts| - 1], |counts| == 1);
        RunsPreparedAppend(ShapeSteps(s, front).events, NodeCountSteps(s, counts[|counts| - 1], |counts| == 1).events);
      }
    }
  }

  lemma {:induction false} MatrixPrepared(sizes: seq<Shape>, counts: seq<int>)
    ensures RunsPrepared(MatrixSteps(sizes, counts).events)
    decreases |sizes|
  {
    if sizes != [] {
      var front := sizes[..|sizes| - 1];
      MatrixPrepared(front, counts);
      if !MatrixSteps(front, counts).raised {
        ShapePrepared(sizes[|sizes| - 1], counts);
        RunsPreparedAppend(MatrixSteps(front, counts).events, ShapeSteps(sizes[|sizes| - 1], counts).events);
      }
    }
  }

  /** Whatever the lists, every run of the script is immediately preceded by its build and its mkdir. */
  lemma DriverPrepared(ims: seq<int>, jms: seq<int>, kms: seq<int>, counts: seq<int>)
    ensures RunsPrepared(DriverSteps(ims, jms, kms, counts).events)
  {
    MatrixPrepared(Enumerate(ims, jms, kms), counts);
    RunsPreparedAppend([MakeDir("bin")], MatrixSteps(Enumerate(ims, jms, kms), counts).events);
  }

  /** An event that builds or runs the C reference. */
  predicate TouchesC(e: Event) {
    (e.Build? && e.codePath == CCode) || (e.Run? && e.binary == CTarget)
  }

  predicate NoC(es: seq<Event>) {
    forall x :: 0 <= x < |es| ==> !TouchesC(es[x])
  }

  lemma NoCAppend(a: seq<Event>, b: seq<Event>)
    requires NoC(a) && NoC(b)
    ensures NoC(a + b)
  {
    forall x | 0 <= x < |a + b|
      ensures !TouchesC((a + b)[x])
    {
      if x >= |a| {
        assert (a + b)[x] == b[x - |a|];
      }
    }
  }

  lemma ArgoNamesAreNotC(i: int)
    ensures ArgoCode(i) != CCode && ArgoTarget(i) != CTarget
  {
    assert ArgoCode(i)[4] == 'D' != CCode[4];
    assert |ArgoTarget(i)| > |CTarget|;
  }

  lemma {:induction false} ArgoGridsNoC(s: Shape, n: int, i: int, grids: seq<Grid>)
    ensures NoC(ArgoGrids(s, n, i, grids))
    decreases |grids|
  {
    if grids != [] {
      ArgoGridsNoC(s, n, i, grids[..|grids| - 1]);
      ArgoNamesAreNotC(i);
      NoCAppend(ArgoGrids(s, n, i, grids[..|grids| - 1]), ArgoGridRun(s, n, i, grids[|grids| - 1]));
    }
  }

  lemma {:induction false} ArgoVersionsNoC(s: Shape, n: int, grids: seq<Grid>, count: nat)
    ensures NoC(ArgoVersions(s, n, grids, count))
  {
    if count > 0 {
      ArgoVersionsNoC(s, n, grids, count - 1);
      ArgoGridsNoC(s, n, count, grids);
      NoCAppend(ShapeEvents(ArgoCode(count), s), ArgoGrids(s, n, count, grids));
      NoCAppend(ArgoVersions(s, n, grids, count - 1), ArgoVersionEvents(s, n, count, grids));
    }
  }

  lemma ArgoRunsNoC(s: Shape, n: int)
    ensures NoC(ArgoRuns(s, n).events)
  {
    if NxNyList(n).Some? {
      ArgoRunsOf(s, n, NxNyList(n).value);
      ArgoVersionsNoC(s, n, NxNyList(n).value, 3);
    } else {
      ArgoRunsOf(s, n, []);
    }
  }

  lemma MpiRunNoC(s: Shape, n: int)
    ensures NoC(MpiRun(s, n))
  {
    assert MpiCode != CCode && MpiTarget != CTarget;
  }

  /** Unfolds NodeCountSteps, with and without the C reference. */
  lemma NodeCountEvents(s: Shape, n: int)
    ensures NodeCountSteps(s, n, false).events == MpiRun(s, n) + ArgoRuns(s, n).events
    ensures NodeCountSteps(s, n, true).events == CRun(s) + NodeCountSteps(s, n, false).events
  {
    assert [] + MpiRun(s, n) == MpiRun(s, n);
    Associate(CRun(s), MpiRun(s, n), ArgoRuns(s, n).events);
  }

  lemma NodeCountNoC(s: Shape, n: int)
    ensures NoC(NodeCountSteps(s, n, false).events)
  {
    MpiRunNoC(s, n);
    ArgoRunsNoC(s, n);
    NoCAppend(MpiRun(s, n), ArgoRuns(s, n).events);
    NodeCountEvents(s, n);
  }


  lemma FirstCountStartsWithC(s: Shape, n: int)
    ensures CRun(s) <= NodeCountSteps(s, n, true).events
    ensures NoC(NodeCountSteps(s, n, true).events[|CRun(s)|..])
  {
    NodeCountNoC(s, n);
    NodeCountEvents(s, n);
    var es := NodeCountSteps(s, n, true).events;
    assert es[|CRun(s)|..] == NodeCountSteps(s, n, false).events;
  }


  lemma PrefixKept(pre: seq<Event>, done: seq<Event>, next: seq<Event>)
    requires pre <= done && NoC(done[|pre|..]) && NoC(next)
    ensures pre <= done + next && NoC((done + next)[|pre|..])
  {
    var rest := done[|pre|..];
    NoCAppend(rest, next);
    assert (done + next)[|pre|..] == rest + next;
  }

  lemma {:induction false} ShapeStepsStartWithC(s: Shape, counts: seq<int>)
    requires counts != []
    ensures CRun(s) <= ShapeSteps(s, counts).events
    ensures NoC(ShapeSteps(s, counts).events[|CRun(s)|..])
    decreases |counts|
  {
    var front := counts[..|counts| - 1];
    var n := counts[|counts| - 1];
    if front == [] {
      FirstCountStartsWithC(s, n);
    } else {
      ShapeStepsStartWithC(s, front);
      if !ShapeSteps(s, front).raised {
        NodeCountNoC(s, n);
        PrefixKept(CRun(s), ShapeSteps(s, front).events, NodeCountSteps(s, n, false).events);
      }
    }
  }

  /**
   * For every shape with at least one node count, the C reference is edited,
   * built and run first, exactly once: no later event builds or runs it, so in
   * particular it precedes the first MPI run.
   */
  lemma CReferenceOncePerShape(s: Shape, counts: seq<int>)
    requires counts != []
    ensures CRun(s) <= ShapeSteps(s, counts).events
    ensures RunCount(CRun(s)) == 1
    ensures forall x :: |CRun(s)| <= x < |ShapeSteps(s, counts).events| ==> !TouchesC(ShapeSteps(s, counts).events[x])
  {
    ShapeStepsStartWithC(s, counts);
    FixedBlockRuns(s, 0, 1, Grid(0, 0));
    var es := ShapeSteps(s, counts).events;
    forall x | |CRun(s)| <= x < |es|
      ensures !TouchesC(es[x])
    {
      assert es[x] == es[|CRun(s)|..][x - |CRun(s)|];
    }
  }

  lemma NoUnderscore(n: int)
    ensures '_' !in Itoa(n)
  {
    ItoaHasNo(n, '_');
  }

  lemma MpiLogNameSplit(n: int)
    ensures Split(MpiLogName(n), '_') == ["mpi", Itoa(n) + ".out"]
  {
    NoUnderscore(n);
    assert MpiLogName(n) == "mpi" + ['_'] + (Itoa(n) + ".out");
    SplitAtFirstSeparator("mpi", Itoa(n) + ".out", '_');
    SplitWithoutSeparator(Itoa(n) + ".out", '_');
  }

  lemma JoinAssoc(x: string, y: string, z: string)
    ensures x + "_" + y + "_" + z == x + "_" + (y + "_" + z)
  {
  }

  /** Five pieces without underscores, joined by underscores, split back into themselves. */
  lemma SplitFive(a: string, b: string, c: string, d: string, e: string)
    requires '_' !in a && '_' !in b && '_' !in c && '_' !in d && '_' !in e
    ensures Split(a + "_" + b + "_" + c + "_" + d + "_" + e, '_') == [a, b, c, d, e]
  {
    var t3 := d + ['_'] + e;
    var t2 := c + ['_'] + t3;
    var t1 := b + ['_'] + t2;
    JoinAssoc(a, b, c);
    JoinAssoc(a + "_" + b, c, d);
    JoinAssoc(a, b + "_" + c, d);
    JoinAssoc(b, c, d);
    JoinAssoc(a + "_" + b + "_" + c, d, e);
    JoinAssoc(a + "_" + b, c + "_" + d, e);
    JoinAssoc(a, b + "_" + (c + "_" + d), e);
    JoinAssoc(b, c + "_" + d, e);
    JoinAssoc(c, d, e);
    assert a + "_" + b + "_" + c + "_" + d + "_" + e == a + ['_'] + t1;
    SplitWithoutSeparator(e, '_');
    SplitAtFirstSeparator(d, e, '_');
    SplitAtFirstSeparator(c, t3, '_');
    SplitAtFirstSeparator(b, t2, '_');
    SplitAtFirstSeparator(a, t1, '_');
  }

  /** The ArgoDSM log name format, grouped as five underscore-separated pieces. */
  lemma ArgoLogNamePieces(a: string, b: string, c: string, d: string)
    ensures "argo_" + a + "_" + b + "_" + c + "_" + d + ".out" == "argo" + "_" + a + "_" + b + "_" + c + "_" + (d + ".out")
  {
  }

  lemma NoUnderscoreOut(n: int)
    ensures '_' !in Itoa(n) + ".out"
  {
    NoUnderscore(n);
  }

  lemma ArgoLogNameSplit(i: int, n: int, x: int, y: int)
    ensures Split(ArgoLogName(i, n, x, y), '_') == ["argo", Itoa(i), Itoa(n), Itoa(x), Itoa(y) + ".out"]
  {
    NoUnderscore(i);
    NoUnderscore(n);
    NoUnderscore(x);
    NoUnderscoreOut(y);
    ArgoLogNamePieces(Itoa(i), Itoa(n), Itoa(x), Itoa(y));
    SplitFive("argo", Itoa(i), Itoa(n), Itoa(x), Itoa(y) + ".out");
  }



  lemma DropOut(a: string, b: string)
    requires a + ".out" == b + ".out"
    ensures a == b
  {
    assert a == (a + ".out")[..|a|];
    assert b == (b + ".out")[..|b|];
  }

  /**
   * The three log-name formats never collide, and each determines its numbers:
   * two runs write the same log only when they are the same variant with the
   * same node count and grid.
   */
  lemma LogNamesDistinct(i: int, n: int, x: int, y: int, i': int, n': int, x': int, y': int)
    ensures CLogName != MpiLogName(n) && CLogName != ArgoLogName(i, n, x, y) && MpiLogName(n) != ArgoLogName(i, n, x, y)
    ensures MpiLogName(n) == MpiLogName(n') <==> n == n'
    ensures ArgoLogName(i, n, x, y) == ArgoLogName(i', n', x', y') <==> i == i' && n == n' && x == x' && y == y'
  {
    MpiLogNameSplit(n);
    MpiLogNameSplit(n');
    ArgoLogNameSplit(i, n, x, y);
    ArgoLogNameSplit(i', n', x', y');
    SplitWithoutSeparator(CLogName, '_');
    if MpiLogName(n) == MpiLogName(n') {
      DropOut(Itoa(n), Itoa(n'));
      ItoaInjective(n, n');
    }
    if ArgoLogName(i, n, x, y) == ArgoLogName(i', n', x', y') {
      DropOut(Itoa(y), Itoa(y'));
      ItoaInjective(i, i');
      ItoaInjective(n, n');
      ItoaInjective(x, x');
      ItoaInjective(y, y');
    }
  }
}
