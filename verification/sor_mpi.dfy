/**
 * The domain decomposition of the MPI SOR solver (SOR-MPI/main.cpp): the
 * global k axis holds km + 2 planes (the km interior planes and one boundary
 * plane on each side) and is cut into consecutive blocks, one per rank; each
 * rank stores its block between two ghost planes. Then the sweep kernel, the
 * even/odd buffer alternation of the driver and the final read of one cell.
 *
 * The sizes im, jm, km come from a header that is not part of this model and
 * are parameters here; C's `int` arithmetic is modelled without overflow.
 */
module SorMpi {
  import opened Wrappers

  /** The sizes of sor_params.h: interior points along i, j and k. */
  datatype SorParams = SorParams(im: nat, jm: nat, km: nat)

  /** C's `/` on int: truncation toward zero. */
  function CDiv(a: int, b: int): (q: int)
    requires b > 0
    ensures a >= 0 ==> q == a / b
    ensures a < 0 ==> q == -((-a) / b)
  {
    if a >= 0 then a / b else -((-a) / b)
  }

  /** divide_params: (base_k_size, actual_k_size) of one rank. */
  function DivideParams(p: SorParams, rank: int, size: int): (r: (int, int))
    requires 0 <= rank < size
    ensures r.1 == r.0 + 2
    ensures r.0 >= (p.km + 2) / size
  {
    var base := (p.km + 2) / size;
    var rem := (p.km + 2) % size;
    var baseK := if rank == 0 then base + rem else base;
    (baseK, baseK + 2)
  }

  /** The number of global planes a rank owns. */
  function BaseK(p: SorParams, rank: int, size: int): nat
    requires 0 <= rank < size
  {
    DivideParams(p, rank, size).0
  }

  /** Every rank stores its planes between one ghost plane below and one above. */
  lemma DivideParamsGhostPlanes(p: SorParams, rank: int, size: int)
    requires 0 <= rank < size
    ensures DivideParams(p, rank, size).1 == DivideParams(p, rank, size).0 + 2
    ensures DivideParams(p, rank, size).0 >= 0
    ensures rank > 0 ==> DivideParams(p, rank, size).0 == DivideParams(p, size - 1, size).0
    ensures DivideParams(p, 0, size).0 >= DivideParams(p, rank, size).0
  {
  }

  /** The global planes owned by ranks 0 .. r - 1. */
  function PlanesBefore(p: SorParams, size: int, r: nat): nat
    requires r <= size
  {
    if r == 0 then 0 else PlanesBefore(p, size, r - 1) + BaseK(p, r - 1, size)
  }

  lemma {:induction false} PlanesBeforeClosedForm(p: SorParams, size: int, r: nat)
    requires 1 <= r <= size
    ensures PlanesBefore(p, size, r) == r * ((p.km + 2) / size) + (p.km + 2) % size
  {
    if r > 1 {
      PlanesBeforeClosedForm(p, size, r - 1);
      assert (r - 1) * ((p.km + 2) / size) + (p.km + 2) / size == r * ((p.km + 2) / size);
    }
  }

  /** The blocks of all ranks together hold exactly the km + 2 global planes. */
  lemma PlanesCovered(p: SorParams, size: int)
    requires size >= 1
    ensures PlanesBefore(p, size, size) == p.km + 2
  {
    PlanesBeforeClosedForm(p, size, size);
  }

  /** size_params: (base_2d_size, base_3d_size, actual_3d_size). */
  function SizeParams(p: SorParams, baseK: int, actualK: int): (r: (int, int, int))
    ensures r.0 >= 1
    ensures r.2 - r.1 == r.0 * (actualK - baseK)
  {
    var base2d := (p.im + 2) * (p.jm + 2);
    (base2d, base2d * baseK, base2d * actualK)
  }

  /** The two ghost planes account for the whole difference between the stored and the owned cells. */
  lemma SizeParamsGhostCells(p: SorParams, rank: int, size: int)
    requires 0 <= rank < size
    ensures var (baseK, actualK) := DivideParams(p, rank, size);
      var (base2d, base3d, actual3d) := SizeParams(p, baseK, actualK);
      base2d == (p.im + 2) * (p.jm + 2) && actual3d - base3d == 2 * base2d
  {
  }

  /**
   * divide_location: the rank owning global plane k and the plane's index in
   * that rank's block, assuming every rank owns base_k_size planes; the rank
   * is clamped to the last one. The rank argument of the source is unused.
   */
  function DivideLocation(p: SorParams, size: int, k: int): (r: (int, int))
    requires size >= 1 && (p.km + 2) / size >= 1
    ensures r.0 < size
    ensures r.0 * ((p.km + 2) / size) + r.1 == k
  {
    var base := (p.km + 2) / size;
    var target := CDiv(k, base);
    var rank := if target >= size then size - 1 else target;
    (rank, k - rank * base)
  }

  /**
   * For a plane k >= 0 the rank is a valid rank and the local index is not
   * negative; the rank's block start plus the local index is k again.
   */
  lemma DivideLocationBounds(p: SorParams, size: int, k: int)
    requires size >= 1 && (p.km + 2) / size >= 1
    ensures var (rank, targetK) := DivideLocation(p, size, k);
      && rank < size
      && k == rank * ((p.km + 2) / size) + targetK
      && (k >= 0 ==> 0 <= rank && targetK >= 0)
  {
    var base := (p.km + 2) / size;
    if k >= 0 {
      var q := k / base;
      assert q * base <= k;
      if q >= size {
        assert (size - 1) * base <= q * base;
      }
    }
  }

  /**
   * The owner of global plane k in the layout divide_params builds: rank 0
   * owns the first base + rem planes, every other rank the next base planes.
   */
  function Locate(p: SorParams, size: int, k: int): (r: (int, int))
    requires size >= 1 && (p.km + 2) / size >= 1 && 0 <= k < p.km + 2
    ensures 0 <= r.0 < size && 0 <= r.1 < BaseK(p, r.0, size)
    ensures PlanesBefore(p, size, r.0) + r.1 == k
  {
    var base := (p.km + 2) / size;
    var first := BaseK(p, 0, size);
    if k < first then (0, k)
    else
      LocateAbove(p, size, k);
      (1 + (k - first) / base, (k - first) % base)
  }

  /** The rank and offset Locate computes for a plane past rank 0's block. */
  lemma LocateAbove(p: SorParams, size: int, k: int)
    requires size >= 1 && (p.km + 2) / size >= 1 && BaseK(p, 0, size) <= k < p.km + 2
    ensures var base := (p.km + 2) / size;
      var d := k - BaseK(p, 0, size);
      && 1 + d / base < size
      && 0 <= d % base < BaseK(p, 1 + d / base, size)
      && PlanesBefore(p, size, 1 + d / base) + d % base == k
  {
    var n := p.km + 2;
    var base := n / size;
    var rem := n % size;
    assert n == size * base + rem;
    var d := k - BaseK(p, 0, size);
    SlabArith(n, size, base, rem, d);
    PlanesBeforeClosedForm(p, size, 1 + d / base);
  }

  /** The arithmetic behind Locate, on plain integers. */
  lemma SlabArith(n: int, size: int, base: int, rem: int, d: int)
    requires size >= 1 && base >= 1 && rem >= 0 && n == size * base + rem
    requires 0 <= d && d + base + rem < n
    ensures 0 <= d / base < size - 1
    ensures (1 + d / base) * base + rem + d % base == d + base + rem
  {
    assert size * base == (size - 1) * base + base;
    DivBelow(d, base, size - 1);
    assert (1 + d / base) * base == d / base * base + base;
  }

  lemma DivBelow(a: int, b: int, n: int)
    requires a >= 0 && b >= 1 && a < n * b
    ensures a / b < n
  {
  }

  /** A global plane has one owner: the blocks of different ranks do not overlap. */
  lemma {:induction false} OwnerUnique(p: SorParams, size: int, r1: int, t1: int, r2: int, t2: int)
    requires 0 <= r1 < size && 0 <= r2 < size
    requires 0 <= t1 < BaseK(p, r1, size) && 0 <= t2 < BaseK(p, r2, size)
    requires PlanesBefore(p, size, r1) + t1 == PlanesBefore(p, size, r2) + t2
    ensures r1 == r2 && t1 == t2
  {
    if r1 < r2 {
      PlanesBeforeGrow(p, size, r1 + 1, r2);
    } else if r2 < r1 {
      PlanesBeforeGrow(p, size, r2 + 1, r1);
    }
  }

  lemma {:induction false} PlanesBeforeGrow(p: SorParams, size: int, a: nat, b: nat)
    requires a <= b <= size
    ensures PlanesBefore(p, size, a) <= PlanesBefore(p, size, b)
    decreases b - a
  {
    if a < b {
      PlanesBeforeGrow(p, size, a, b - 1);
    }
  }

  /** Locate names the one rank and local index whose block holds plane k. */
  lemma LocateIsTheOwner(p: SorParams, size: int, k: int, rank: int, targetK: int)
    requires size >= 1 && (p.km + 2) / size >= 1 && 0 <= k < p.km + 2
    requires 0 <= rank < size && 0 <= targetK < BaseK(p, rank, size)
    requires PlanesBefore(p, size, rank) + targetK == k
    ensures Locate(p, size, k) == (rank, targetK)
  {
    var r := Locate(p, size, k);
    OwnerUnique(p, size, r.0, r.1, rank, targetK);
  }

  /** Below the last full block divide_location does not clamp: it is division with remainder. */
  lemma DivideLocationUnclamped(p: SorParams, size: int, k: int)
    requires size >= 1 && (p.km + 2) / size >= 1 && 0 <= k < size * ((p.km + 2) / size)
    ensures var q := k / ((p.km + 2) / size);
      && 0 <= q < size
      && DivideLocation(p, size, k) == (q, k % ((p.km + 2) / size))
  {
    var base := (p.km + 2) / size;
    DivBelow(k, base, size);
    var q := k / base;
    assert CDiv(k, base) == q;
    assert k - q * base == k % base;
  }

  lemma PlanesBeforeEven(p: SorParams, size: int, q: nat)
    requires 1 <= size && q <= size && (p.km + 2) % size == 0
    ensures PlanesBefore(p, size, q) == q * ((p.km + 2) / size)
  {
    if q > 0 {
      PlanesBeforeClosedForm(p, size, q);
    }
  }

  /** When km + 2 divides evenly, divide_location finds the owner of every global plane. */
  lemma DivideLocationAgreesWhenEven(p: SorParams, size: int, k: int)
    requires size >= 1 && (p.km + 2) / size >= 1 && 0 <= k < p.km + 2
    requires (p.km + 2) % size == 0
    ensures DivideLocation(p, size, k) == Locate(p, size, k)
  {
    var base := (p.km + 2) / size;
    assert size * base == p.km + 2;
    DivideLocationUnclamped(p, size, k);
    var q, t := k / base, k % base;
    assert BaseK(p, q, size) == base;
    PlanesBeforeEven(p, size, q);
    assert q * base + t == k;
    LocateIsTheOwner(p, size, k, q, t);
  }

  /**
   * With km = 64 and eight ranks, rank 0 owns ten planes and the others
   * eight each, so global plane 32 belongs to rank 3; divide_location names
   * local plane 0 of rank 4, which is global plane 34.
   */
  lemma DivideLocationMisplaces()
    ensures DivideLocation(SorParams(0, 0, 64), 8, 32) == (4, 0)
    ensures PlanesBefore(SorParams(0, 0, 64), 8, 4) + 0 == 34
    ensures Locate(SorParams(0, 0, 64), 8, 32) == (3, 6)
  {
    var p := SorParams(0, 0, 64);
    assert (p.km + 2) / 8 == 8 && (p.km + 2) % 8 == 2;
    assert CDiv(32, 8) == 4;
    PlanesBeforeClosedForm(p, 8, 4);
    PlanesBeforeClosedForm(p, 8, 3);
    assert PlanesBefore(p, 8, 3) == 26;
    assert BaseK(p, 3, 8) == 8;
    LocateIsTheOwner(p, 8, 32, 3, 6);
  }

  /** MPI_PROC_NULL or a rank. */
  datatype Neighbor = ProcNull | Proc(rank: int)

  /** find_neighbor_proc: the ranks below and above, MPI_PROC_NULL at the ends of the chain. */
  function FindNeighborProc(rank: int, size: int): (r: (Neighbor, Neighbor))
    requires 0 <= rank < size
    ensures r.0 == ProcNull <==> rank == 0
    ensures r.1 == ProcNull <==> rank == size - 1
    ensures r.0.Proc? ==> r.0.rank == rank - 1 && 0 <= r.0.rank < size
    ensures r.1.Proc? ==> r.1.rank == rank + 1 && 0 <= r.1.rank < size
  {
    (if rank > 0 then Proc(rank - 1) else ProcNull,
     if rank < size - 1 then Proc(rank + 1) else ProcNull)
  }

  /** Neighbourhood is symmetric: the rank above a rank has that rank below it. */
  lemma NeighborsSymmetric(rank: int, size: int)
    requires 0 <= rank < size
    ensures var up := FindNeighborProc(rank, size).1;
      up.Proc? ==> FindNeighborProc(up.rank, size).0 == Proc(rank)
  {
  }

  /** A buffer of one rank: actualK planes of (jm + 2) x (im + 2) cells, indexed [k, j, i]. */
  predicate Shaped(a: array3<real>, p: SorParams, actualK: int) {
    a.Length0 == actualK && a.Length1 == p.jm + 2 && a.Length2 == p.im + 2
  }

  /**
   * init_array: p0 and rhs are 1.0 in every cell; p1 is allocated and left
   * uninitialised, so nothing is promised about its contents.
   */
  method InitArray(p: SorParams, actualK: nat) returns (p0: array3<real>, p1: array3<real>, rhs: array3<real>)
    ensures fresh(p0) && fresh(p1) && fresh(rhs) && p0 != p1 && p0 != rhs && p1 != rhs
    ensures Shaped(p0, p, actualK) && Shaped(p1, p, actualK) && Shaped(rhs, p, actualK)
    ensures forall k, j, i :: 0 <= k < actualK && 0 <= j < p.jm + 2 && 0 <= i < p.im + 2 ==>
      p0[k, j, i] == 1.0 && rhs[k, j, i] == 1.0
  {
    p0 := new real[actualK, p.jm + 2, p.im + 2];
    p1 := new real[actualK, p.jm + 2, p.im + 2];
    rhs := new real[actualK, p.jm + 2, p.im + 2];
    for k := 0 to actualK
      invariant forall k', j', i' :: 0 <= k' < k && 0 <= j' < p.jm + 2 && 0 <= i' < p.im + 2 ==>
        p0[k', j', i'] == 1.0 && rhs[k', j', i'] == 1.0
    {
      for j := 0 to p.jm + 2
        invariant forall k', j', i' ::
          (0 <= k' < actualK && 0 <= j' < p.jm + 2 && 0 <= i' < p.im + 2 && (k' < k || (k' == k && j' < j))) ==>
          p0[k', j', i'] == 1.0 && rhs[k', j', i'] == 1.0
      {
        for i := 0 to p.im + 2
          invariant forall k', j', i' ::
            (0 <= k' < actualK && 0 <= j' < p.jm + 2 && 0 <= i' < p.im + 2 &&
             (k' < k || (k' == k && j' < j) || (k' == k && j' == j && i' < i))) ==>
            p0[k', j', i'] == 1.0 && rhs[k', j', i'] == 1.0
        {
          rhs[k, j, i] := 1.0;
          p0[k, j, i] := 1.0;
        }
      }
    }
  }

  /** The coefficients of sor, as exact rationals. */
  const Cn1: real := 1.0 / 3.0
  const Cn2l: real := 0.5
  const Cn2s: real := 0.5
  const Cn3l: real := 0.5
  const Cn3s: real := 0.5
  const Cn4l: real := 0.5
  const Cn4s: real := 0.5
  const Omega: real := 1.0

  /** The assignment sor's loop body makes for a cell, in the order of its if-chain. */
  datatype Branch =
    | PeriodicFromFirst   // i == im + 1: the value of column 1
    | PeriodicFromLast    // i == 0: the value of column im
    | CopyPrevious        // j == jm + 1: the value of column i - 1
    | KeepOriginal        // j == 0: the value itself
    | Relax               // the SOR update
    | Skip                // no assignment

  /**
   * The branch sor takes for cell (k, j, i). Of the cells of a plane, exactly
   * the interior ones are relaxed or skipped; every cell of a boundary row or
   * column gets a copied value.
   */
  function BranchOf(p: SorParams, rank: int, size: int, actualK: int, k: int, j: int, i: int): (b: Branch)
    ensures 0 <= i <= p.im + 1 && 0 <= j <= p.jm + 1 ==>
      ((b == Relax || b == Skip) <==> 1 <= i <= p.im && 1 <= j <= p.jm)
  {
    if i == p.im + 1 then PeriodicFromFirst
    else if i == 0 then PeriodicFromLast
    else if j == p.jm + 1 then CopyPrevious
    else if j == 0 then KeepOriginal
    else if (rank > 0 && rank < size - 1) || (rank == 0 && k > 1) || (rank == size - 1 && k < actualK - 2) then Relax
    else Skip
  }

  /** The value sor assigns to p1[k, j, i] for a cell it writes. */
  function NewValue(p0: array3<real>, rhs: array3<real>, p: SorParams, rank: int, size: int, actualK: int,
                    k: int, j: int, i: int): real
    requires Shaped(p0, p, actualK) && Shaped(rhs, p, actualK)
    requires 1 <= k < actualK - 1 && 0 <= j < p.jm + 2 && 0 <= i < p.im + 2
    reads p0, rhs
  {
    match BranchOf(p, rank, size, actualK, k, j, i)
    case PeriodicFromFirst => p0[k, j, i - p.im]
    case PeriodicFromLast => p0[k, j, i + p.im]
    case CopyPrevious => p0[k, j, i - 1]
    case KeepOriginal => p0[k, j, i]
    case Relax =>
      var relTmp := Omega * (Cn1 * (
        Cn2l * p0[k, j, i + 1] + Cn2s * p0[k, j, i - 1] +
        Cn3l * p0[k, j + 1, i] + Cn3s * p0[k, j - 1, i] +
        Cn4l * p0[k + 1, j, i] + Cn4s * p0[k - 1, j, i] - rhs[k, j, i]) - p0[k, j, i]);
      p0[k, j, i] + relTmp
    case Skip => p0[k, j, i]
  }

  /** With these coefficients the update is the mean of the six neighbours less a third of rhs. */
  lemma RelaxIsNeighbourMean(p0: array3<real>, rhs: array3<real>, p: SorParams, rank: int, size: int, actualK: int,
                             k: int, j: int, i: int)
    requires Shaped(p0, p, actualK) && Shaped(rhs, p, actualK)
    requires 1 <= k < actualK - 1 && 0 <= j < p.jm + 2 && 0 <= i < p.im + 2
    requires BranchOf(p, rank, size, actualK, k, j, i) == Relax
    ensures NewValue(p0, rhs, p, rank, size, actualK, k, j, i) ==
      (p0[k, j, i + 1] + p0[k, j, i - 1] + p0[k, j + 1, i] + p0[k, j - 1, i] + p0[k + 1, j, i] + p0[k - 1, j, i]) / 6.0
      - rhs[k, j, i] / 3.0
  {
  }

  /** The new p1 of one call of sor, for a cell (k, j, i) whose value was `previous`. */
  predicate SweptCell(p1: array3<real>, p0: array3<real>, rhs: array3<real>, p: SorParams, rank: int, size: int,
                      actualK: int, k: int, j: int, i: int, previous: real)
    requires Shaped(p0, p, actualK) && Shaped(rhs, p, actualK) && Shaped(p1, p, actualK)
    requires 0 <= k < actualK && 0 <= j < p.jm + 2 && 0 <= i < p.im + 2
    reads p0, rhs, p1
  {
    if 1 <= k < actualK - 1 && BranchOf(p, rank, size, actualK, k, j, i) != Skip
    then p1[k, j, i] == NewValue(p0, rhs, p, rank, size, actualK, k, j, i)
    else p1[k, j, i] == previous
  }

  /** The innermost loop of sor: the cells of row j of plane k. */
  method SweepRow(p0: array3<real>, p1: array3<real>, rhs: array3<real>, p: SorParams, rank: int, size: int,
                  actualK: int, k: int, j: int)
    requires Shaped(p0, p, actualK) && Shaped(p1, p, actualK) && Shaped(rhs, p, actualK)
    requires p1 != p0 && p1 != rhs
    requires 1 <= k < actualK - 1 && 0 <= j < p.jm + 2
    modifies p1
    ensures forall i :: 0 <= i < p.im + 2 ==> SweptCell(p1, p0, rhs, p, rank, size, actualK, k, j, i, old(p1[k, j, i]))
    ensures forall k', j', i' :: 0 <= k' < actualK && 0 <= j' < p.jm + 2 && 0 <= i' < p.im + 2 && (k' != k || j' != j) ==>
      p1[k', j', i'] == old(p1[k', j', i'])
  {
    for i := 0 to p.im + 2
      invariant forall i' :: 0 <= i' < i ==> SweptCell(p1, p0, rhs, p, rank, size, actualK, k, j, i', old(p1[k, j, i']))
      invariant forall i' :: i <= i' < p.im + 2 ==> p1[k, j, i'] == old(p1[k, j, i'])
      invariant forall k', j', i' :: 0 <= k' < actualK && 0 <= j' < p.jm + 2 && 0 <= i' < p.im + 2 && (k' != k || j' != j) ==>
        p1[k', j', i'] == old(p1[k', j', i'])
    {
      if i == p.im + 1 {
        p1[k, j, i] := p0[k, j, i - p.im];
      } else if i == 0 {
        p1[k, j, i] := p0[k, j, i + p.im];
      } else if j == p.jm + 1 {
        p1[k, j, i] := p0[k, j, i - 1];
      } else if j == 0 {
        p1[k, j, i] := p0[k, j, i];
      } else if (rank > 0 && rank < size - 1) || (rank == 0 && k > 1) || (rank == size - 1 && k < actualK - 2) {
        var relTmp := Omega * (Cn1 * (
          Cn2l * p0[k, j, i + 1] + Cn2s * p0[k, j, i - 1] +
          Cn3l * p0[k, j + 1, i] + Cn3s * p0[k, j - 1, i] +
          Cn4l * p0[k + 1, j, i] + Cn4s * p0[k - 1, j, i] - rhs[k, j, i]) - p0[k, j, i]);
        p1[k, j, i] := p0[k, j, i] + relTmp;
      }
    }
  }

  /** The middle loop of sor: the rows of plane k. */
  method SweepPlane(p0: array3<real>, p1: array3<real>, rhs: array3<real>, p: SorParams, rank: int, size: int,
                    actualK: int, k: int)
    requires Shaped(p0, p, actualK) && Shaped(p1, p, actualK) && Shaped(rhs, p, actualK)
    requires p1 != p0 && p1 != rhs
    requires 1 <= k < actualK - 1
    modifies p1
    ensures forall j, i :: 0 <= j < p.jm + 2 && 0 <= i < p.im + 2 ==>
      SweptCell(p1, p0, rhs, p, rank, size, actualK, k, j, i, old(p1[k, j, i]))
    ensures forall k', j', i' :: 0 <= k' < actualK && 0 <= j' < p.jm + 2 && 0 <= i' < p.im + 2 && k' != k ==>
      p1[k', j', i'] == old(p1[k', j', i'])
  {
    for j := 0 to p.jm + 2
      invariant forall j', i' :: 0 <= j' < j && 0 <= i' < p.im + 2 ==>
        SweptCell(p1, p0, rhs, p, rank, size, actualK, k, j', i', old(p1[k, j', i']))
      invariant forall k', j', i' :: 0 <= k' < actualK && 0 <= j' < p.jm + 2 && 0 <= i' < p.im + 2 && (k' != k || j' >= j) ==>
        p1[k', j', i'] == old(p1[k', j', i'])
    {
      SweepRow(p0, p1, rhs, p, rank, size, actualK, k, j);
    }
  }

  /** dst holds one sweep of src in every cell that the sweep assigns. */
  predicate HoldsSweepOf(dst: array3<real>, src: array3<real>, rhs: array3<real>, p: SorParams, rank: int, size: int,
                         actualK: int)
    requires Shaped(dst, p, actualK) && Shaped(src, p, actualK) && Shaped(rhs, p, actualK)
    reads dst, src, rhs
  {
    forall k, j, i ::
      (1 <= k < actualK - 1 && 0 <= j < p.jm + 2 && 0 <= i < p.im + 2 && BranchOf(p, rank, size, actualK, k, j, i) != Skip) ==>
      dst[k, j, i] == NewValue(src, rhs, p, rank, size, actualK, k, j, i)
  }

  /**
   * sor, after the halo exchange: every cell of planes 1 .. actualK - 2 that
   * takes an assignment gets its new value from p0 and rhs; every other cell
   * of p1, the two ghost planes included, keeps its value.
   */
  method Sor(p0: array3<real>, p1: array3<real>, rhs: array3<real>, p: SorParams, rank: int, size: int, actualK: int)
    requires Shaped(p0, p, actualK) && Shaped(p1, p, actualK) && Shaped(rhs, p, actualK)
    requires p1 != p0 && p1 != rhs && actualK >= 2
    modifies p1
    ensures forall k, j, i :: 0 <= k < actualK && 0 <= j < p.jm + 2 && 0 <= i < p.im + 2 ==>
      SweptCell(p1, p0, rhs, p, rank, size, actualK, k, j, i, old(p1[k, j, i]))
    ensures HoldsSweepOf(p1, p0, rhs, p, rank, size, actualK)
  {
    for k := 1 to actualK - 1
      invariant forall k', j', i' :: 1 <= k' < k && 0 <= j' < p.jm + 2 && 0 <= i' < p.im + 2 ==>
        SweptCell(p1, p0, rhs, p, rank, size, actualK, k', j', i', old(p1[k', j', i']))
      invariant forall k', j', i' :: 0 <= k' < actualK && 0 <= j' < p.jm + 2 && 0 <= i' < p.im + 2 && (k' == 0 || k' >= k) ==>
        p1[k', j', i'] == old(p1[k', j', i'])
    {
      SweepPlane(p0, p1, rhs, p, rank, size, actualK, k);
    }
    forall k, j, i | 0 <= k < actualK && 0 <= j < p.jm + 2 && 0 <= i < p.im + 2
      ensures SweptCell(p1, p0, rhs, p, rank, size, actualK, k, j, i, old(p1[k, j, i]))
    {
      if k == 0 || k == actualK - 1 {
        assert p1[k, j, i] == old(p1[k, j, i]);
      }
    }
    forall k, j, i | 1 <= k < actualK - 1 && 0 <= j < p.jm + 2 && 0 <= i < p.im + 2 && BranchOf(p, rank, size, actualK, k, j, i) != Skip
      ensures p1[k, j, i] == NewValue(p0, rhs, p, rank, size, actualK, k, j, i)
    {
      assert SweptCell(p1, p0, rhs, p, rank, size, actualK, k, j, i, old(p1[k, j, i]));
    }
  }

  /** num_iterations in main. */
  const NumIterations: nat := 5

  /**
   * The iteration loop of main: odd iterations sweep p0 into p1, even ones
   * p1 into p0. After an odd number of iterations the latest sweep is in p1,
   * after an even number (at least two) in p0.
   */
  method RunIterations(p0: array3<real>, p1: array3<real>, rhs: array3<real>, p: SorParams, rank: int, size: int,
                       actualK: int, n: nat)
    requires Shaped(p0, p, actualK) && Shaped(p1, p, actualK) && Shaped(rhs, p, actualK)
    requires p0 != p1 && p0 != rhs && p1 != rhs && actualK >= 2
    modifies p0, p1
    ensures n == 0 ==> unchanged(p0) && unchanged(p1)
    ensures n % 2 == 1 ==> HoldsSweepOf(p1, p0, rhs, p, rank, size, actualK)
    ensures n >= 2 && n % 2 == 0 ==> HoldsSweepOf(p0, p1, rhs, p, rank, size, actualK)
  {
    for iter := 1 to n + 1
      invariant iter == 1 ==> unchanged(p0) && unchanged(p1)
      invariant (iter - 1) % 2 == 1 ==> HoldsSweepOf(p1, p0, rhs, p, rank, size, actualK)
      invariant iter - 1 >= 2 && (iter - 1) % 2 == 0 ==> HoldsSweepOf(p0, p1, rhs, p, rank, size, actualK)
    {
      if iter % 2 == 0 {
        Sor(p1, p0, rhs, p, rank, size, actualK);
      } else {
        Sor(p0, p1, rhs, p, rank, size, actualK);
      }
    }
  }

  /**
   * print_number_from_array: only the owning rank reads, at local plane
   * target_k + 1, one past the ghost plane.
   */
  method PrintNumberFromArray(arr: array3<real>, p: SorParams, rank: int, size: int, actualK: int, k: int, j: int, i: int)
    returns (printed: Option<real>)
    requires Shaped(arr, p, actualK) && size >= 1 && (p.km + 2) / size >= 1
    requires 0 <= j < p.jm + 2 && 0 <= i < p.im + 2
    requires DivideLocation(p, size, k).0 == rank ==> 0 <= DivideLocation(p, size, k).1 + 1 < actualK
    ensures printed.Some? <==> rank == DivideLocation(p, size, k).0
    ensures printed.Some? ==> printed.value == arr[DivideLocation(p, size, k).1 + 1, j, i]
  {
    var (targetRank, targetK) := DivideLocation(p, size, k);
    if rank == targetRank {
      printed := Some(arr[targetK + 1, j, i]);
    } else {
      printed := None;
    }
  }

  /**
   * main prints plane km / 2: divide_location names a valid rank, and the
   * read lies inside that rank's buffer.
   */
  lemma MainPrintInBounds(p: SorParams, size: int)
    requires size >= 1 && (p.km + 2) / size >= 1
    ensures var (rank, targetK) := DivideLocation(p, size, p.km / 2);
      0 <= rank < size && 0 <= targetK + 1 < DivideParams(p, rank, size).1
  {
    var base, rem := (p.km + 2) / size, (p.km + 2) % size;
    var k := p.km / 2;
    assert size * base + rem == p.km + 2;
    MulAtLeast(size, base);
    assert k < size * base;
    DivideLocationUnclamped(p, size, k);
  }

  /**
   * main on one rank, between MPI_Init and MPI_Finalize: allocate and
   * initialise the buffers, run NumIterations sweeps alternating p0 and p1,
   * then print the cell (km / 2, jm / 2, im / 2) from p0. The number of sweeps
   * is odd, so the latest sweep is in p1: p1 holds the sweep of p0's final
   * contents, and the printed value is the one from the sweep before.
   */
  method RunRank(p: SorParams, rank: int, size: int)
    returns (printed: Option<real>, p0: array3<real>, p1: array3<real>, rhs: array3<real>)
    requires 0 <= rank < size && (p.km + 2) / size >= 1
    ensures Shaped(p0, p, DivideParams(p, rank, size).1) && Shaped(p1, p, DivideParams(p, rank, size).1)
    ensures Shaped(rhs, p, DivideParams(p, rank, size).1)
    ensures printed.Some? <==> rank == DivideLocation(p, size, p.km / 2).0
    ensures printed.Some? ==> 0 <= DivideLocation(p, size, p.km / 2).1 + 1 < DivideParams(p, rank, size).1
    ensures printed.Some? ==> printed.value == p0[DivideLocation(p, size, p.km / 2).1 + 1, p.jm / 2, p.im / 2]
    ensures HoldsSweepOf(p1, p0, rhs, p, rank, size, DivideParams(p, rank, size).1)
  {
    var actualK := DivideParams(p, rank, size).1;
    p0, p1, rhs := InitArray(p, actualK);
    RunIterations(p0, p1, rhs, p, rank, size, actualK, NumIterations);
    MainPrintInBounds(p, size);
    printed := PrintNumberFromArray(p0, p, rank, size, actualK, p.km / 2, p.jm / 2, p.im / 2);
  }

  lemma MulAtLeast(a: int, b: int)
    requires a >= 0 && b >= 1
    ensures a * b >= a
  {
  }

  /** The global plane that local plane k (1 .. actualK - 2) of a rank stands for. */
  function GlobalPlane(p: SorParams, size: int, rank: int, k: int): int
    requires 0 <= rank < size
  {
    PlanesBefore(p, size, rank) + k - 1
  }

  /**
   * With more than one rank, the interior cells of rank 0's first plane and
   * of the last rank's last plane are not assigned: those are the global
   * boundary planes 0 and km + 1.
   */
  lemma BoundaryPlanesSkipped(p: SorParams, rank: int, size: int, actualK: int, j: int, i: int)
    requires 0 <= rank < size && size > 1
    requires 1 <= i <= p.im && 1 <= j <= p.jm
    ensures rank == 0 ==> BranchOf(p, rank, size, actualK, 1, j, i) == Skip
    ensures rank == size - 1 ==> BranchOf(p, rank, size, actualK, actualK - 2, j, i) == Skip
  {
  }

  /**
   * With more than one rank, an interior cell of a rank's own planes is
   * relaxed exactly when its global plane is one of the km interior planes.
   */
  lemma RelaxOnInteriorPlanes(p: SorParams, rank: int, size: int, k: int, j: int, i: int)
    requires 2 <= size && (p.km + 2) / size >= 1 && 0 <= rank < size
    requires 1 <= k <= DivideParams(p, rank, size).1 - 2
    requires 1 <= i <= p.im && 1 <= j <= p.jm
    ensures BranchOf(p, rank, size, DivideParams(p, rank, size).1, k, j, i) == Relax <==>
      1 <= GlobalPlane(p, size, rank, k) <= p.km
  {
    var base, rem := (p.km + 2) / size, (p.km + 2) % size;
    var sb := size * base;
    DivMod(p.km + 2, size);
    assert sb + rem == p.km + 2;
    MulMono(size, 2, base);
    var actualK := DivideParams(p, rank, size).1;
    assert BranchOf(p, rank, size, actualK, k, j, i) == Relax <==>
      (rank > 0 && rank < size - 1) || (rank == 0 && k > 1) || (rank == size - 1 && k < actualK - 2);
    if rank == 0 {
      InteriorOfFirstRank(p, size, k, base, rem, sb);
    } else if rank == size - 1 {
      PlanesBeforeClosedForm(p, size, rank);
      MulSub(size, 1, base);
      InteriorOfLastRank(p, size, k, base, rem, sb);
    } else {
      PlanesBeforeClosedForm(p, size, rank);
      MulMono(size - 2, rank, base);
      MulMono(rank, 1, base);
      MulSub(size, 2, base);
      InteriorOfMiddleRank(p, size, rank, k, base, rem, sb);
    }
  }

  lemma InteriorOfFirstRank(p: SorParams, size: int, k: int, base: int, rem: int, sb: int)
    requires 2 <= size && base >= 1 && sb >= 2 * base && sb + rem == p.km + 2 && rem >= 0
    requires DivideParams(p, 0, size).1 == base + rem + 2
    requires 1 <= k <= base + rem
    ensures 1 < k <==> 1 <= GlobalPlane(p, size, 0, k) <= p.km
  {
  }

  lemma InteriorOfLastRank(p: SorParams, size: int, k: int, base: int, rem: int, sb: int)
    requires 2 <= size && base >= 1 && sb >= 2 * base && sb + rem == p.km + 2
    requires DivideParams(p, size - 1, size).1 == base + 2
    requires PlanesBefore(p, size, size - 1) == sb - base + rem
    requires 1 <= k <= base
    ensures k < base <==> 1 <= GlobalPlane(p, size, size - 1, k) <= p.km
  {
  }

  lemma InteriorOfMiddleRank(p: SorParams, size: int, rank: int, k: int, base: int, rem: int, sb: int)
    requires 0 < rank < size - 1 && base >= 1 && sb + rem == p.km + 2 && rem >= 0
    requires base <= rank * base <= sb - 2 * base
    requires PlanesBefore(p, size, rank) == rank * base + rem
    requires 1 <= k <= base
    ensures 1 <= GlobalPlane(p, size, rank, k) <= p.km
  {
  }

  lemma DivMod(a: int, b: int)
    requires b >= 1
    ensures a == b * (a / b) + a % b && 0 <= a % b < b
  {
  }

  lemma MulSub(a: int, c: int, b: int)
    ensures (a - c) * b == a * b - c * b
  {
  }

  lemma MulMono(a: int, b: int, c: int)
    requires b <= a && c >= 0
    ensures b * c <= a * c
  {
  }

  /**
   * With a single rank, rank 0 is also the last rank, and the relaxation
   * guard lets through its first and its last own plane: the global boundary
   * planes 0 and km + 1.
   */
  lemma SingleRankRelaxesBoundary(p: SorParams)
    requires p.im >= 1 && p.jm >= 1
    ensures var actualK := DivideParams(p, 0, 1).1;
      && BranchOf(p, 0, 1, actualK, 1, 1, 1) == Relax && GlobalPlane(p, 1, 0, 1) == 0
      && BranchOf(p, 0, 1, actualK, actualK - 2, 1, 1) == Relax && GlobalPlane(p, 1, 0, actualK - 2) == p.km + 1
  {
  }

  /** The relaxation guard with both end exclusions applied, whatever the number of ranks. */
  predicate IntendedRelaxGuard(rank: int, size: int, actualK: int, k: int) {
    (rank > 0 || k > 1) && (rank < size - 1 || k < actualK - 2)
  }

  function IntendedBranchOf(p: SorParams, rank: int, size: int, actualK: int, k: int, j: int, i: int): Branch {
    if i == p.im + 1 then PeriodicFromFirst
    else if i == 0 then PeriodicFromLast
    else if j == p.jm + 1 then CopyPrevious
    else if j == 0 then KeepOriginal
    else if IntendedRelaxGuard(rank, size, actualK, k) then Relax
    else Skip
  }

  /** With two or more ranks the intended guard is the one written. */
  lemma IntendedAgreesWithMultiRank(p: SorParams, rank: int, size: int, actualK: int, k: int, j: int, i: int)
    requires 2 <= size && 0 <= rank < size
    ensures IntendedBranchOf(p, rank, size, actualK, k, j, i) == BranchOf(p, rank, size, actualK, k, j, i)
  {
  }

  /**
   * With the intended guard, for every number of ranks, an interior cell of a
   * rank's own planes is relaxed exactly when its global plane is interior.
   */
  lemma IntendedRelaxOnInteriorPlanes(p: SorParams, rank: int, size: int, k: int, j: int, i: int)
    requires 1 <= size && (p.km + 2) / size >= 1 && 0 <= rank < size
    requires 1 <= k <= DivideParams(p, rank, size).1 - 2
    requires 1 <= i <= p.im && 1 <= j <= p.jm
    ensures IntendedBranchOf(p, rank, size, DivideParams(p, rank, size).1, k, j, i) == Relax <==>
      1 <= GlobalPlane(p, size, rank, k) <= p.km
  {
    if size >= 2 {
      IntendedAgreesWithMultiRank(p, rank, size, DivideParams(p, rank, size).1, k, j, i);
      RelaxOnInteriorPlanes(p, rank, size, k, j, i);
    }
  }
}
