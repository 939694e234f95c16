/**
 * The analysis steps of misc/main.py on the frame read from test-results.csv:
 * the cpu_time and optimization_boost columns, the three boost bands and
 * their per-method counts, and the best time per (array shape, method).
 */
module Analyzer {
  import opened Wrappers
  import opened Shapes
  import opened Frames

  /** The Python exceptions the steps can raise. */
  datatype PyError = ValueError | IndexError

  /** A frame: its rows and whether the two derived columns already exist. */
  datatype Frame = Frame(rows: seq<Row>, hasCpuTime: bool, hasBoost: bool)

  /** The labels of the plots, indexed by the method column. */
  const MethodLabels: seq<string> := ["C", "ArgoDSM V1", "ArgoDSM V2", "ArgoDSM V3", "MPI"]

  /** float64 division a / b on exact values: x/0 is an infinity of the sign of x, 0/0 is NaN. */
  function Divide(a: real, b: real): (q: Ratio)
    ensures q.Finite? <==> b != 0.0
    ensures q.Finite? ==> q.value * b == a
    ensures q.PosInf? <==> b == 0.0 && a > 0.0
    ensures q.NegInf? <==> b == 0.0 && a < 0.0
    ensures q.NaN? <==> b == 0.0 && a == 0.0
  {
    if b != 0.0 then Finite(a / b)
    else if a > 0.0 then PosInf
    else if a < 0.0 then NegInf
    else NaN
  }

  /**
   * parse_by_cpu_time: a copy of the frame with cpu_time = time * node_count
   * inserted; inserting a column that already exists raises ValueError.
   */
  function ParseByCpuTime(f: Frame): (r: Result<Frame, PyError>)
    ensures r.Ok? <==> !f.hasCpuTime
    ensures r.Ok? ==> r.value.hasCpuTime && r.value.hasBoost == f.hasBoost && |r.value.rows| == |f.rows|
    ensures r.Ok? ==> forall i :: 0 <= i < |f.rows| ==>
      r.value.rows[i].cpuTime == f.rows[i].time * (f.rows[i].nodeCount as real) &&
      r.value.rows[i].(cpuTime := f.rows[i].cpuTime) == f.rows[i]
  {
    if f.hasCpuTime then Err(ValueError)
    else
      var rows := seq(|f.rows|, i requires 0 <= i < |f.rows| =>
        f.rows[i].(cpuTime := f.rows[i].time * (f.rows[i].nodeCount as real)));
      Ok(Frame(rows, true, f.hasBoost))
  }

  function NonOptimized(rows: seq<Row>): seq<Row> {
    Where(rows, (x: Row) => x.optimized == 0)
  }

  function Optimized(rows: seq<Row>): seq<Row> {
    Where(rows, (x: Row) => x.optimized == 1)
  }

  /**
   * parse_by_optimization_boost: the optimized == 1 rows, each with the time
   * of the non-optimized row at the same position divided by its own time.
   * numpy broadcasts a single non-optimized row over all optimized rows; any
   * other length mismatch, or an existing column, raises ValueError.
   */
  function ParseByOptimizationBoost(f: Frame): (r: Result<Frame, PyError>)
    ensures r.Ok? <==> !f.hasBoost && (|NonOptimized(f.rows)| == |Optimized(f.rows)| || |NonOptimized(f.rows)| == 1)
    ensures r.Ok? ==> r.value.hasBoost && r.value.hasCpuTime == f.hasCpuTime
    ensures r.Ok? ==> |r.value.rows| == |Optimized(f.rows)|
    ensures r.Ok? ==> forall i :: 0 <= i < |r.value.rows| ==>
      var opt := Optimized(f.rows)[i];
      var non := NonOptimized(f.rows)[if |NonOptimized(f.rows)| == 1 then 0 else i];
      r.value.rows[i].(boost := opt.boost) == opt && r.value.rows[i].boost == Divide(non.time, opt.time)
  {
    var non := NonOptimized(f.rows);
    var opt := Optimized(f.rows);
    if |non| != |opt| && |non| != 1 then Err(ValueError)
    else if f.hasBoost then Err(ValueError)
    else
      var rows := seq(|opt|, i requires 0 <= i < |opt| =>
        opt[i].(boost := Divide(non[if |non| == 1 then 0 else i].time, opt[i].time)));
      Ok(Frame(rows, f.hasCpuTime, true))
  }

  /** Every row of the boosted frame is an optimized row, and every optimized row is there. */
  lemma BoostKeepsOptimizedRows(f: Frame)
    requires ParseByOptimizationBoost(f).Ok?
    ensures forall x :: x in ParseByOptimizationBoost(f).value.rows ==> x.optimized == 1
    ensures forall x :: x in f.rows && x.optimized == 1 ==>
      exists y :: y in ParseByOptimizationBoost(f).value.rows && y.(boost := x.boost) == x
  {
    var rows := ParseByOptimizationBoost(f).value.rows;
    var opt := Optimized(f.rows);
    forall x | x in rows ensures x.optimized == 1 {
      var i :| 0 <= i < |rows| && rows[i] == x;
      assert opt[i] in opt;
    }
    forall x | x in f.rows && x.optimized == 1
      ensures exists y :: y in rows && y.(boost := x.boost) == x
    {
      assert x in opt;
      var i :| 0 <= i < |opt| && opt[i] == x;
      assert rows[i] in rows;
    }
  }

  /** `optimization_boost < 0.95`; NaN compares false. */
  predicate NegativeBoost(b: Ratio) {
    b.NegInf? || (b.Finite? && b.value < 0.95)
  }

  /** `(optimization_boost >= 0.95) & (optimization_boost < 1.05)`. */
  predicate NeutralBoost(b: Ratio) {
    b.Finite? && 0.95 <= b.value < 1.05
  }

  /** `optimization_boost >= 1.05`. */
  predicate PositiveBoost(b: Ratio) {
    b.PosInf? || (b.Finite? && b.value >= 1.05)
  }

  /** The three bands are disjoint and together hold exactly the boosts that are not NaN. */
  lemma BandsPartition(b: Ratio)
    ensures !(NegativeBoost(b) && NeutralBoost(b))
    ensures !(NegativeBoost(b) && PositiveBoost(b))
    ensures !(NeutralBoost(b) && PositiveBoost(b))
    ensures NegativeBoost(b) || NeutralBoost(b) || PositiveBoost(b) <==> !b.NaN?
  {
  }

  /** For positive times the bands compare the non-optimized time with 0.95 and 1.05 times the optimized time. */
  lemma BandsCompareTimes(non: real, opt: real)
    requires opt > 0.0
    ensures NegativeBoost(Divide(non, opt)) <==> non < 0.95 * opt
    ensures NeutralBoost(Divide(non, opt)) <==> 0.95 * opt <= non < 1.05 * opt
    ensures PositiveBoost(Divide(non, opt)) <==> non >= 1.05 * opt
  {
    assert Divide(non, opt) == Finite(non / opt);
    QuotientBelow(non, opt, 0.95);
    QuotientBelow(non, opt, 1.05);
  }

  lemma QuotientBelow(non: real, opt: real, c: real)
    requires opt > 0.0
    ensures non / opt < c <==> non < c * opt
  {
    ScaleLess(non / opt, c, opt);
    assert (non / opt) * opt == non;
  }

  lemma ScaleLess(a: real, b: real, c: real)
    requires c > 0.0
    ensures a < b <==> a * c < b * c
  {
    if a < b {
      assert (b - a) * c > 0.0;
    } else {
      assert (a - b) * c >= 0.0;
    }
  }

  function NegativeRows(rows: seq<Row>): seq<Row> {
    Where(rows, (x: Row) => NegativeBoost(x.boost))
  }

  function NeutralRows(rows: seq<Row>): seq<Row> {
    Where(rows, (x: Row) => NeutralBoost(x.boost))
  }

  function PositiveRows(rows: seq<Row>): seq<Row> {
    Where(rows, (x: Row) => PositiveBoost(x.boost))
  }

  /** negative_counts, neutral_counts, positive_counts: the rows of a band per method 0 .. 4. */
  function BandCounts(band: seq<Row>): (counts: seq<int>)
    ensures |counts| == 5
    ensures forall m :: 0 <= m < 5 ==> 0 <= counts[m] <= |band|
  {
    seq(5, m requires 0 <= m < 5 => |SelectByMethod(band, m)|)
  }

  /** Selecting a method from a band counts the rows of the band and the method together. */
  lemma BandOfMethod(rows: seq<Row>, band: Row -> bool, m: int, bandM: Row -> bool)
    requires forall x :: bandM(x) == (band(x) && x.methodType == m)
    ensures |SelectByMethod(Where(rows, band), m)| == |Where(rows, bandM)|
  {
    var isM: Row -> bool := (x: Row) => x.methodType == m;
    WhereWhere(rows, band, isM);
    WhereExtensional(rows, (x: Row) => band(x) && isM(x), bandM);
  }

  /**
   * Per method, the negative, neutral and positive counts add up to the
   * number of that method's rows whose boost is not NaN, so the five counts
   * of the three bands account for every row with a boost.
   */
  lemma BandCountsAddUp(rows: seq<Row>, m: int)
    ensures |SelectByMethod(NegativeRows(rows), m)| + |SelectByMethod(NeutralRows(rows), m)|
            + |SelectByMethod(PositiveRows(rows), m)|
            == |Where(rows, (x: Row) => x.methodType == m && !x.boost.NaN?)|
    ensures 0 <= m < 5 ==>
      BandCounts(NegativeRows(rows))[m] + BandCounts(NeutralRows(rows))[m] + BandCounts(PositiveRows(rows))[m]
      == |Where(rows, (x: Row) => x.methodType == m && !x.boost.NaN?)|
  {
    var negM: Row -> bool := (x: Row) => NegativeBoost(x.boost) && x.methodType == m;
    var neuM: Row -> bool := (x: Row) => NeutralBoost(x.boost) && x.methodType == m;
    var posM: Row -> bool := (x: Row) => PositiveBoost(x.boost) && x.methodType == m;
    BandOfMethod(rows, (x: Row) => NegativeBoost(x.boost), m, negM);
    BandOfMethod(rows, (x: Row) => NeutralBoost(x.boost), m, neuM);
    BandOfMethod(rows, (x: Row) => PositiveBoost(x.boost), m, posM);
    forall x
      ensures !(negM(x) && neuM(x)) && !(negM(x) && posM(x)) && !(neuM(x) && posM(x))
      ensures (negM(x) || neuM(x) || posM(x)) == (x.methodType == m && !x.boost.NaN?)
    {
      BandsPartition(x.boost);
    }
    WhereCountThree(rows, negM, neuM, posM, (x: Row) => x.methodType == m && !x.boost.NaN?);
  }


  predicate SortedByTime(rows: seq<Row>) {
    forall i, j :: 0 <= i < j < |rows| ==> rows[i].time <= rows[j].time
  }

  /** A row no later than every row of an ascending tail, in front of it, keeps the order. */
  lemma InsertStep(h: Row, x: Row, tail: seq<Row>, rest: seq<Row>)
    requires SortedByTime([h] + tail) && h.time < x.time
    requires SortedByTime(rest) && multiset(rest) == multiset(tail) + multiset{x}
    ensures SortedByTime([h] + rest)
  {
    forall y | y in rest ensures h.time <= y.time {
      assert y in multiset(rest);
      if y != x {
        assert y in multiset(tail);
        var k :| 0 <= k < |tail| && tail[k] == y;
        assert ([h] + tail)[0] == h && ([h] + tail)[k + 1] == y;
      }
    }
    var r := [h] + rest;
    forall i, j | 0 <= i < j < |r| ensures r[i].time <= r[j].time {
      assert r[j] == rest[j - 1];
      if i == 0 {
        assert rest[j - 1] in rest;
      } else {
        assert r[i] == rest[i - 1];
      }
    }
  }

  function InsertByTime(x: Row, sorted: seq<Row>): (r: seq<Row>)
    requires SortedByTime(sorted)
    ensures SortedByTime(r) && multiset(r) == multiset(sorted) + multiset{x}
    decreases |sorted|
  {
    if sorted == [] then [x]
    else if x.time <= sorted[0].time then [x] + sorted
    else
      var rest := InsertByTime(x, sorted[1..]);
      assert sorted == [sorted[0]] + sorted[1..];
      InsertStep(sorted[0], x, sorted[1..], rest);
      [sorted[0]] + rest
  }


  /** One outcome of `sort_values('time')`: pandas' default sort is not stable, so no tie order is assumed elsewhere. */
  function SortByTime(rows: seq<Row>): (r: seq<Row>)
    ensures SortedByTime(r) && multiset(r) == multiset(rows)
    decreases |rows|
  {
    if rows == [] then []
    else
      assert rows == [rows[0]] + rows[1..];
      InsertByTime(rows[0], SortByTime(rows[1..]))
  }

  /** A filter of a sorted frame is sorted. */
  lemma {:induction false} WhereSorted(rows: seq<Row>, keep: Row -> bool)
    requires SortedByTime(rows)
    ensures SortedByTime(Where(rows, keep))
    decreases |rows|
  {
    if rows != [] {
      WhereSorted(rows[1..], keep);
      var rest := Where(rows[1..], keep);
      assert forall y :: y in rest ==> rows[0].time <= y.time by {
        forall y | y in rest ensures rows[0].time <= y.time {
          var j :| 0 <= j < |rows[1..]| && rows[1..][j] == y;
        }
      }
    }
  }

  /** The rows of one shape and method. */
  predicate OfShapeAndMethod(x: Row, s: Shape, m: int) {
    x.im == s.im && x.jm == s.jm && x.km == s.km && x.methodType == m
  }

  /** The frame has a row of shape s and method m. */
  predicate HasRow(rows: seq<Row>, s: Shape, m: int) {
    exists x :: x in rows && OfShapeAndMethod(x, s, m)
  }

  /** t is the time of a row of shape s and method m, and no such row is faster. */
  predicate IsBestTime(rows: seq<Row>, s: Shape, m: int, t: real) {
    (exists x :: x in rows && OfShapeAndMethod(x, s, m) && x.time == t) &&
    (forall x :: x in rows && OfShapeAndMethod(x, s, m) ==> t <= x.time)
  }

  /** `select_by_method(df_array_size, m).head(1).iloc[0].time`; IndexError when no row is left. */
  function HeadTime(sorted: seq<Row>, m: int): (r: Result<real, PyError>)
    ensures r.Err? <==> forall x :: x in sorted ==> x.methodType != m
    ensures r.Ok? ==> exists x :: x in sorted && x.methodType == m && x.time == r.value
  {
    var selected := SelectByMethod(sorted, m);
    if selected == [] then Err(IndexError) else Ok(selected[0].time)
  }

  /**
   * Whatever order sort_values leaves equal times in, the head of the selection
   * is a minimum time of the shape's rows of method m, and it raises exactly
   * when there is no such row.
   */
  lemma BestTimeIsMinimum(rows: seq<Row>, s: Shape, sorted: seq<Row>, m: int)
    requires SortedByTime(sorted)
    requires multiset(sorted) == multiset(SelectByArraySize(rows, s.im, s.jm, s.km))
    ensures HeadTime(sorted, m).Ok? <==> HasRow(rows, s, m)
    ensures HeadTime(sorted, m).Ok? ==> IsBestTime(rows, s, m, HeadTime(sorted, m).value)
  {
    var shapeRows := SelectByArraySize(rows, s.im, s.jm, s.km);
    var selected := SelectByMethod(sorted, m);
    forall x ensures x in selected <==> x in rows && OfShapeAndMethod(x, s, m) {
      assert x in sorted <==> x in multiset(sorted);
      assert x in shapeRows <==> x in multiset(shapeRows);
    }
    if selected != [] {
      WhereSorted(sorted, (x: Row) => x.methodType == m);
      assert selected[0] in selected;
      forall x | x in rows && OfShapeAndMethod(x, s, m) ensures selected[0].time <= x.time {
        var j :| 0 <= j < |selected| && selected[j] == x;
        if j > 0 {
          assert selected[0].time <= selected[j].time;
        }
      }
    }
  }

  /** One entry of array_size_best_data: the best time of each method 0 .. 4, left to right. */
  function BestRow(rows: seq<Row>, s: Shape): (r: Result<seq<real>, PyError>)
    ensures r.Ok? ==> |r.value| == 5
  {
    var sorted := SortByTime(SelectByArraySize(rows, s.im, s.jm, s.km));
    var heads := seq(5, m requires 0 <= m < 5 => HeadTime(sorted, m));
    if forall m :: 0 <= m < 5 ==> heads[m].Ok? then Ok(seq(5, m requires 0 <= m < 5 => heads[m].value))
    else Err(IndexError)
  }

  lemma BestRowCorrect(rows: seq<Row>, s: Shape)
    ensures BestRow(rows, s).Ok? <==> forall m :: 0 <= m < 5 ==> HasRow(rows, s, m)
    ensures BestRow(rows, s).Ok? ==>
      |BestRow(rows, s).value| == 5 && forall m :: 0 <= m < 5 ==> IsBestTime(rows, s, m, BestRow(rows, s).value[m])
  {
    var sorted := SortByTime(SelectByArraySize(rows, s.im, s.jm, s.km));
    var heads := seq(5, m requires 0 <= m < 5 => HeadTime(sorted, m));
    assert forall m :: 0 <= m < 5 ==> heads[m] == HeadTime(sorted, m);
    forall m | 0 <= m < 5
      ensures HeadTime(sorted, m).Ok? <==> HasRow(rows, s, m)
      ensures HeadTime(sorted, m).Ok? ==> IsBestTime(rows, s, m, HeadTime(sorted, m).value)
    {
      BestTimeIsMinimum(rows, s, sorted, m);
    }
  }

  /** best holds, for the first |best| shapes, the best time of every method 0 .. 4. */
  predicate BestSoFar(rows: seq<Row>, sizes: seq<Shape>, best: seq<seq<real>>) {
    && |best| <= |sizes|
    && (forall q :: 0 <= q < |best| ==> |best[q]| == 5)
    && (forall q, m :: 0 <= q < |best| && 0 <= m < 5 ==> IsBestTime(rows, sizes[q], m, best[q][m]))
    && (forall q, m :: 0 <= q < |best| && 0 <= m < 5 ==> HasRow(rows, sizes[q], m))
  }

  lemma BestSoFarStep(rows: seq<Row>, sizes: seq<Shape>, best: seq<seq<real>>)
    requires BestSoFar(rows, sizes, best) && |best| < |sizes|
    requires BestRow(rows, sizes[|best|]).Ok?
    ensures BestSoFar(rows, sizes, best + [BestRow(rows, sizes[|best|]).value])
  {
    var row := BestRow(rows, sizes[|best|]).value;
    BestRowCorrect(rows, sizes[|best|]);
    var grown := best + [row];
    forall q | 0 <= q < |grown|
      ensures |grown[q]| == 5
      ensures forall m :: 0 <= m < 5 ==> IsBestTime(rows, sizes[q], m, grown[q][m]) && HasRow(rows, sizes[q], m)
    {
      if q < |best| {
        assert grown[q] == best[q];
      } else {
        assert grown[q] == row;
      }
    }
  }

  /**
   * The loop over all_array_sizes building array_size_best_data: for every
   * shape, the best time of each method, or IndexError as soon as a shape
   * misses a method.
   */
  method ArraySizeBestData(rows: seq<Row>, ims: seq<int>, jms: seq<int>, kms: seq<int>)
    returns (data: Result<seq<seq<real>>, PyError>)
    ensures data.Ok? <==> forall i, m :: 0 <= i < |Enumerate(ims, jms, kms)| && 0 <= m < 5 ==>
      HasRow(rows, Enumerate(ims, jms, kms)[i], m)
    ensures data.Ok? ==> |data.value| == |Enumerate(ims, jms, kms)|
    ensures data.Ok? ==> forall i, m :: 0 <= i < |data.value| && 0 <= m < 5 ==>
      |data.value[i]| == 5 && IsBestTime(rows, Enumerate(ims, jms, kms)[i], m, data.value[i][m])
  {
    var sizes := AllArraySizes(ims, jms, kms);
    var best: seq<seq<real>> := [];
    for i := 0 to |sizes|
      invariant |best| == i && BestSoFar(rows, sizes, best)
    {
      var row := BestRow(rows, sizes[i]);
      if row.Err? {
        BestRowCorrect(rows, sizes[i]);
        var m :| 0 <= m < 5 && !HasRow(rows, sizes[i], m);
        return Err(IndexError);
      }
      BestSoFarStep(rows, sizes, best);
      best := best + [row.value];
    }
    data := Ok(best);
  }
}
