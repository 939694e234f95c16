/**
 * The rows of the analysis script's data frame and its boolean-mask filters
 * (`df[df['im'] == im]` and friends in misc/main.py). A frame is a sequence
 * of rows; a mask keeps the rows it holds for, in their original order.
 */
module Frames {
  /** The result of a float64 division as numpy computes it: a finite quotient, an infinity or NaN. */
  datatype Ratio = Finite(value: real) | PosInf | NegInf | NaN

  /**
   * One row of test-results.csv (the columns the collector writes) plus the
   * two columns the script adds, cpu_time and optimization_boost.
   */
  datatype Row = Row(im: int, jm: int, km: int, methodType: int, optimized: int, nodeCount: int,
                     dsmNx: int, dsmNy: int, time: real, cpuTime: real, boost: Ratio)

  /** `df[mask]`: the rows for which keep holds, in their original order. */
  function Where(rows: seq<Row>, keep: Row -> bool): (r: seq<Row>)
    ensures |r| <= |rows|
    ensures forall x :: x in r <==> x in rows && keep(x)
    decreases |rows|
  {
    if rows == [] then [] else (if keep(rows[0]) then [rows[0]] else []) + Where(rows[1..], keep)
  }

  /** Filtering a concatenation filters each part: the kept rows keep their relative order. */
  lemma {:induction false} WhereAppend(a: seq<Row>, b: seq<Row>, keep: Row -> bool)
    ensures Where(a + b, keep) == Where(a, keep) + Where(b, keep)
    decreases |a|
  {
    if a == [] {
      assert a + b == b;
    } else {
      assert (a + b)[1..] == a[1..] + b;
      WhereAppend(a[1..], b, keep);
    }
  }

  /** A mask that holds for every row keeps the frame as it is. */
  lemma {:induction false} WhereKeepsAll(rows: seq<Row>, keep: Row -> bool)
    requires forall x :: x in rows ==> keep(x)
    ensures Where(rows, keep) == rows
    decreases |rows|
  {
    if rows != [] {
      WhereKeepsAll(rows[1..], keep);
    }
  }

  /** Filtering twice with the same mask is filtering once. */
  lemma WhereIdempotent(rows: seq<Row>, keep: Row -> bool)
    ensures Where(Where(rows, keep), keep) == Where(rows, keep)
  {
    WhereKeepsAll(Where(rows, keep), keep);
  }

  /** Chained filters are one filter with the conjunction of the masks. */
  lemma {:induction false} WhereWhere(rows: seq<Row>, p: Row -> bool, q: Row -> bool)
    ensures Where(Where(rows, p), q) == Where(rows, (x: Row) => p(x) && q(x))
    decreases |rows|
  {
    if rows != [] {
      WhereWhere(rows[1..], p, q);
      var head := if p(rows[0]) then [rows[0]] else [];
      WhereAppend(head, Where(rows[1..], p), q);
      if p(rows[0]) {
        assert head[1..] == [];
      }
    }
  }

  /** Masks that agree on every row select the same rows. */
  lemma {:induction false} WhereExtensional(rows: seq<Row>, p: Row -> bool, q: Row -> bool)
    requires forall x :: p(x) == q(x)
    ensures Where(rows, p) == Where(rows, q)
    decreases |rows|
  {
    if rows != [] {
      WhereExtensional(rows[1..], p, q);
    }
  }

  /** Two disjoint masks select, together, as many rows as their disjunction. */
  lemma {:induction false} WhereCountDisjoint(rows: seq<Row>, p: Row -> bool, q: Row -> bool)
    requires forall x :: !(p(x) && q(x))
    ensures |Where(rows, p)| + |Where(rows, q)| == |Where(rows, (x: Row) => p(x) || q(x))|
    decreases |rows|
  {
    if rows != [] {
      WhereCountDisjoint(rows[1..], p, q);
    }
  }

  /** Three pairwise disjoint masks that together cover a fourth select, together, as many rows as it. */
  lemma {:induction false} WhereCountThree(rows: seq<Row>, p: Row -> bool, q: Row -> bool, r: Row -> bool, all: Row -> bool)
    requires forall x :: !(p(x) && q(x)) && !(p(x) && r(x)) && !(q(x) && r(x))
    requires forall x :: (p(x) || q(x) || r(x)) == all(x)
    ensures |Where(rows, p)| + |Where(rows, q)| + |Where(rows, r)| == |Where(rows, all)|
    decreases |rows|
  {
    if rows != [] {
      WhereCountThree(rows[1..], p, q, r, all);
    }
  }

  /** A row occurs among the kept rows as often as in the frame when the mask holds for it, else never. */
  lemma {:induction false} WhereMultiset(rows: seq<Row>, keep: Row -> bool, x: Row)
    ensures multiset(Where(rows, keep))[x] == if keep(x) then multiset(rows)[x] else 0
    decreases |rows|
  {
    if rows != [] {
      WhereMultiset(rows[1..], keep, x);
      assert rows == [rows[0]] + rows[1..];
    }
  }

  /** Filtering commutes with reordering: permuted frames give permuted selections. */
  lemma WherePermutation(a: seq<Row>, b: seq<Row>, keep: Row -> bool)
    requires multiset(a) == multiset(b)
    ensures multiset(Where(a, keep)) == multiset(Where(b, keep))
  {
    forall x ensures multiset(Where(a, keep))[x] == multiset(Where(b, keep))[x] {
      WhereMultiset(a, keep, x);
      WhereMultiset(b, keep, x);
    }
  }

  function SelectByIm(rows: seq<Row>, im: int): (r: seq<Row>)
    ensures forall x :: x in r <==> x in rows && x.im == im
  {
    Where(rows, (x: Row) => x.im == im)
  }

  function SelectByJm(rows: seq<Row>, jm: int): (r: seq<Row>)
    ensures forall x :: x in r <==> x in rows && x.jm == jm
  {
    Where(rows, (x: Row) => x.jm == jm)
  }

  function SelectByKm(rows: seq<Row>, km: int): (r: seq<Row>)
    ensures forall x :: x in r <==> x in rows && x.km == km
  {
    Where(rows, (x: Row) => x.km == km)
  }

  function SelectByArraySize(rows: seq<Row>, im: int, jm: int, km: int): (r: seq<Row>)
    ensures forall x :: x in r <==> x in rows && x.im == im && x.jm == jm && x.km == km
  {
    Where(rows, (x: Row) => x.im == im && x.jm == jm && x.km == km)
  }

  function SelectByMethod(rows: seq<Row>, methodType: int): (r: seq<Row>)
    ensures forall x :: x in r <==> x in rows && x.methodType == methodType
  {
    Where(rows, (x: Row) => x.methodType == methodType)
  }

  function SelectByNodeCount(rows: seq<Row>, nodeCount: int): (r: seq<Row>)
    ensures forall x :: x in r <==> x in rows && x.nodeCount == nodeCount
  {
    Where(rows, (x: Row) => x.nodeCount == nodeCount)
  }

  function SelectByDsmNx(rows: seq<Row>, dsmNx: int): (r: seq<Row>)
    ensures forall x :: x in r <==> x in rows && x.dsmNx == dsmNx
  {
    Where(rows, (x: Row) => x.dsmNx == dsmNx)
  }

  function SelectByDsmNy(rows: seq<Row>, dsmNy: int): (r: seq<Row>)
    ensures forall x :: x in r <==> x in rows && x.dsmNy == dsmNy
  {
    Where(rows, (x: Row) => x.dsmNy == dsmNy)
  }

  function SelectByDsmNxNy(rows: seq<Row>, dsmNx: int, dsmNy: int): (r: seq<Row>)
    ensures forall x :: x in r <==> x in rows && x.dsmNx == dsmNx && x.dsmNy == dsmNy
  {
    Where(rows, (x: Row) => x.dsmNx == dsmNx && x.dsmNy == dsmNy)
  }

  /** select_by_array_size is select_by_im, then select_by_jm, then select_by_km, row order included. */
  lemma SelectByArraySizeChains(rows: seq<Row>, im: int, jm: int, km: int)
    ensures SelectByArraySize(rows, im, jm, km) == SelectByKm(SelectByJm(SelectByIm(rows, im), jm), km)
  {
    var pIm: Row -> bool := (x: Row) => x.im == im;
    var pJm: Row -> bool := (x: Row) => x.jm == jm;
    var pKm: Row -> bool := (x: Row) => x.km == km;
    var pImJm: Row -> bool := (x: Row) => pIm(x) && pJm(x);
    WhereWhere(rows, pIm, pJm);
    WhereWhere(rows, pImJm, pKm);
    WhereExtensional(rows, (x: Row) => pImJm(x) && pKm(x), (x: Row) => x.im == im && x.jm == jm && x.km == km);
  }

  /** select_by_dsm_nx_ny is select_by_dsm_nx followed by select_by_dsm_ny. */
  lemma SelectByDsmNxNyChains(rows: seq<Row>, dsmNx: int, dsmNy: int)
    ensures SelectByDsmNxNy(rows, dsmNx, dsmNy) == SelectByDsmNy(SelectByDsmNx(rows, dsmNx), dsmNy)
  {
    var pNx: Row -> bool := (x: Row) => x.dsmNx == dsmNx;
    var pNy: Row -> bool := (x: Row) => x.dsmNy == dsmNy;
    WhereWhere(rows, pNx, pNy);
    WhereExtensional(rows, (x: Row) => pNx(x) && pNy(x), (x: Row) => x.dsmNx == dsmNx && x.dsmNy == dsmNy);
  }

  /** The column filters commute: the order of chained selections does not matter. */
  lemma SelectionsCommute(rows: seq<Row>, p: Row -> bool, q: Row -> bool)
    ensures Where(Where(rows, p), q) == Where(Where(rows, q), p)
  {
    WhereWhere(rows, p, q);
    WhereWhere(rows, q, p);
    WhereExtensional(rows, (x: Row) => p(x) && q(x), (x: Row) => q(x) && p(x));
  }
}
