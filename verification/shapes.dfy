/**
 * The experiment matrix shared by the driver (testing.py) and the analysis
 * script (misc/main.py): the array shapes enumerated from three lists, and the
 * (dsmNX, dsmNY) process grids tried for a node count. Both scripts carry the
 * same table of grids; it is defined once here.
 */
module Shapes {
  import opened Wrappers

  /** An array shape (im, jm, km). */
  datatype Shape = Shape(im: int, jm: int, km: int)

  const ImList: seq<int> := [128, 256, 512]
  const JmList: seq<int> := [128, 256, 512]
  const KmList: seq<int> := [64, 128, 256]
  const NodeCountList: seq<int> := [2, 8, 16]

  /** The shapes of one (im, jm) pair, km varying. */
  function ShapesOfColumn(im: int, jm: int, kms: seq<int>): (r: seq<Shape>)
    ensures |r| == |kms|
    ensures forall c :: 0 <= c < |kms| ==> r[c] == Shape(im, jm, kms[c])
  {
    seq(|kms|, c requires 0 <= c < |kms| => Shape(im, jm, kms[c]))
  }

  /** The shapes of one im, jm outer and km inner. */
  function ShapesOfRow(im: int, jms: seq<int>, kms: seq<int>): seq<Shape>
    decreases |jms|
  {
    if jms == [] then [] else ShapesOfRow(im, jms[..|jms| - 1], kms) + ShapesOfColumn(im, jms[|jms| - 1], kms)
  }

  /** The nested-loop enumeration: im outermost, km innermost. */
  function Enumerate(ims: seq<int>, jms: seq<int>, kms: seq<int>): seq<Shape>
    decreases |ims|
  {
    if ims == [] then [] else Enumerate(ims[..|ims| - 1], jms, kms) + ShapesOfRow(ims[|ims| - 1], jms, kms)
  }

  lemma MulDistrib(x: int, y: int, w: int)
    ensures (x + y) * w == x * w + y * w
  {
  }

  lemma MulNonNegative(x: int, w: int)
    requires x >= 0 && w >= 0
    ensures x * w >= 0
  {
  }

  lemma RowOffset(b: int, c: int, rows: int, width: int)
    requires 0 <= b < rows && 0 <= c < width
    ensures 0 <= b * width + c < rows * width
  {
    MulNonNegative(b, width);
    MulNonNegative(rows - b - 1, width);
    MulDistrib(b, rows - b - 1, width);
    MulDistrib(rows - 1, 1, width);
  }

  lemma RowLength(im: int, jms: seq<int>, kms: seq<int>)
    ensures |ShapesOfRow(im, jms, kms)| == |jms| * |kms|
    decreases |jms|
  {
    if jms != [] {
      RowLength(im, jms[..|jms| - 1], kms);
      assert |jms| * |kms| == (|jms| - 1) * |kms| + |kms|;
    }
  }

  /** The enumeration holds one shape per (im, jm, km) combination. */
  lemma {:induction false} EnumerateLength(ims: seq<int>, jms: seq<int>, kms: seq<int>)
    ensures |Enumerate(ims, jms, kms)| == |ims| * (|jms| * |kms|)
    decreases |ims|
  {
    if ims != [] {
      EnumerateLength(ims[..|ims| - 1], jms, kms);
      RowLength(ims[|ims| - 1], jms, kms);
      assert |ims| * (|jms| * |kms|) == (|ims| - 1) * (|jms| * |kms|) + |jms| * |kms|;
    }
  }

  lemma {:induction false} RowAt(im: int, jms: seq<int>, kms: seq<int>, b: int, c: int)
    requires 0 <= b < |jms| && 0 <= c < |kms|
    ensures b * |kms| + c < |ShapesOfRow(im, jms, kms)|
    ensures ShapesOfRow(im, jms, kms)[b * |kms| + c] == Shape(im, jms[b], kms[c])
    decreases |jms|
  {
    var front := jms[..|jms| - 1];
    RowLength(im, jms, kms);
    RowLength(im, front, kms);
    RowOffset(b, c, |jms|, |kms|);
    if b < |front| {
      RowAt(im, front, kms, b, c);
    } else {
      assert b * |kms| == |front| * |kms|;
    }
  }

  /**
   * all_array_sizes lists im outermost and km innermost: the shape at
   * position a * (|jms| * |kms|) + (b * |kms| + c) is (ims[a], jms[b], kms[c]).
   */
  lemma {:induction false} EnumerateAt(ims: seq<int>, jms: seq<int>, kms: seq<int>, a: int, b: int, c: int)
    requires 0 <= a < |ims| && 0 <= b < |jms| && 0 <= c < |kms|
    ensures a * (|jms| * |kms|) + (b * |kms| + c) < |Enumerate(ims, jms, kms)|
    ensures Enumerate(ims, jms, kms)[a * (|jms| * |kms|) + (b * |kms| + c)] == Shape(ims[a], jms[b], kms[c])
    decreases |ims|
  {
    var front := ims[..|ims| - 1];
    var row := |jms| * |kms|;
    EnumerateLength(ims, jms, kms);
    EnumerateLength(front, jms, kms);
    RowOffset(b, c, |jms|, |kms|);
    RowOffset(a, b * |kms| + c, |ims|, row);
    if a < |front| {
      EnumerateAt(front, jms, kms, a, b, c);
    } else {
      RowAt(ims[a], jms, kms, b, c);
      assert a * row == |front| * row;
    }
  }

  /** all_array_sizes: the nested loops appending each (im, jm, km). */
  method AllArraySizes(ims: seq<int>, jms: seq<int>, kms: seq<int>) returns (result: seq<Shape>)
    ensures result == Enumerate(ims, jms, kms)
  {
    result := [];
    for a := 0 to |ims|
      invariant result == Enumerate(ims[..a], jms, kms)
    {
      result := AppendRow(result, ims[a], jms, kms);
      assert ims[..a + 1][..a] == ims[..a];
    }
    assert ims[..|ims|] == ims;
  }

  /** The two inner loops of all_array_sizes for one im. */
  method AppendRow(prefix: seq<Shape>, im: int, jms: seq<int>, kms: seq<int>) returns (result: seq<Shape>)
    ensures result == prefix + ShapesOfRow(im, jms, kms)
  {
    result := prefix;
    for b := 0 to |jms|
      invariant result == prefix + ShapesOfRow(im, jms[..b], kms)
    {
      result := AppendColumn(result, im, jms[b], kms);
      assert jms[..b + 1][..b] == jms[..b];
      assert prefix + ShapesOfRow(im, jms[..b], kms) + ShapesOfColumn(im, jms[b], kms)
          == prefix + (ShapesOfRow(im, jms[..b], kms) + ShapesOfColumn(im, jms[b], kms));
    }
    assert jms[..|jms|] == jms;
  }

  /** The innermost loop of all_array_sizes for one im and jm. */
  method AppendColumn(prefix: seq<Shape>, im: int, jm: int, kms: seq<int>) returns (result: seq<Shape>)
    ensures result == prefix + ShapesOfColumn(im, jm, kms)
  {
    result := prefix;
    for c := 0 to |kms|
      invariant result == prefix + ShapesOfColumn(im, jm, kms[..c])
    {
      assert ShapesOfColumn(im, jm, kms[..c + 1]) == ShapesOfColumn(im, jm, kms[..c]) + [Shape(im, jm, kms[c])];
      result := result + [Shape(im, jm, kms[c])];
    }
    assert kms[..|kms|] == kms;
  }

  /** A (dsmNX, dsmNY) process grid. */
  datatype Grid = Grid(nx: int, ny: int)

  /** get_nx_ny_list / create_nx_ny_list: the grids tried for a node count; None where the scripts raise. */
  function NxNyList(nodeCount: int): (grids: Option<seq<Grid>>)
  {
    if nodeCount == 1 then Some([Grid(1, 1)])
    else if nodeCount == 2 then Some([Grid(1, 2), Grid(2, 1)])
    else if nodeCount == 4 then Some([Grid(1, 4), Grid(2, 2), Grid(4, 1)])
    else if nodeCount == 8 then Some([Grid(1, 8), Grid(2, 4), Grid(4, 2), Grid(8, 1)])
    else if nodeCount == 16 then Some([Grid(1, 16), Grid(2, 8), Grid(4, 4), Grid(8, 2), Grid(16, 1)])
    else None
  }

  predicate AscendingNx(grids: seq<Grid>) {
    forall a, b :: 0 <= a < b < |grids| ==> grids[a].nx < grids[b].nx
  }

  /** The positive factorisations of n. */
  predicate Factors(g: Grid, n: int) {
    g.nx >= 1 && g.ny >= 1 && g.nx * g.ny == n
  }

  lemma FactorBound(g: Grid, n: int)
    requires Factors(g, n)
    ensures g.nx <= n
  {
    assert g.nx * g.ny == g.nx * (g.ny - 1) + g.nx;
    assert g.nx * (g.ny - 1) >= 0;
  }

  /**
   * For 1, 2, 4, 8 and 16 the table lists every positive factorisation
   * nx * ny = n exactly once, in ascending nx; every other node count raises.
   */
  lemma NxNyListFactorisations(n: int)
    ensures NxNyList(n).Some? <==> n in {1, 2, 4, 8, 16}
    ensures NxNyList(n).Some? ==> AscendingNx(NxNyList(n).value)
    ensures NxNyList(n).Some? ==> forall g :: g in NxNyList(n).value <==> Factors(g, n)
  {
    if NxNyList(n).Some? {
      NxNyListSound(n);
      forall g | Factors(g, n) ensures g in NxNyList(n).value {
        FactorBound(g, n);
        FactorIn(g, n);
      }
    }
  }

  /** Every listed grid factorises the node count, in ascending nx. */
  lemma NxNyListSound(n: int)
    requires NxNyList(n).Some?
    ensures AscendingNx(NxNyList(n).value)
    ensures forall g :: g in NxNyList(n).value ==> Factors(g, n)
  {
    if n == 1 {
    } else if n == 2 {
    } else if n == 4 {
    } else if n == 8 {
    } else {
      assert n == 16;
    }
  }


  lemma FactorIn(g: Grid, n: int)
    requires n in {1, 2, 4, 8, 16} && Factors(g, n) && g.nx <= n
    ensures g in NxNyList(n).value
  {
    var x := g.nx;
    if x == 1 {
    } else if x == 2 {
    } else if x == 3 {
    } else if x == 4 {
    } else if x == 5 {
    } else if x == 6 {
    } else if x == 7 {
    } else if x == 8 {
    } else if x == 9 {
    } else if x == 10 {
    } else if x == 11 {
    } else if x == 12 {
    } else if x == 13 {
    } else if x == 14 {
    } else if x == 15 {
    } else {
    }
  }

  /** The number of cells of a shape, im * jm * km. */
  function Volume(s: Shape): int {
    s.im * s.jm * s.km
  }

  /** The shapes of the given volume, in enumeration order. */
  function WithVolume(sizes: seq<Shape>, v: int): (r: seq<Shape>)
    ensures forall s :: s in r <==> s in sizes && Volume(s) == v
    ensures |r| <= |sizes|
    decreases |sizes|
  {
    if sizes == [] then []
    else
      var last := sizes[|sizes| - 1];
      WithVolume(sizes[..|sizes| - 1], v) + (if Volume(last) == v then [last] else [])
  }

  /** The distinct volumes in order of first appearance: the key order of a Python dict. */
  function VolumeKeys(sizes: seq<Shape>): (keys: seq<int>)
    ensures forall v :: v in keys <==> exists s :: s in sizes && Volume(s) == v
    ensures forall a, b :: 0 <= a < b < |keys| ==> keys[a] != keys[b]
    decreases |sizes|
  {
    if sizes == [] then []
    else
      var front := VolumeKeys(sizes[..|sizes| - 1]);
      var last := sizes[|sizes| - 1];
      assert forall s :: s in sizes <==> s in sizes[..|sizes| - 1] || s == last;
      if Volume(last) in front then front else front + [Volume(last)]
  }

  /** Grouping keeps the enumeration order: the group of a concatenation is the groups of its parts, in order. */
  lemma {:induction false} WithVolumeAppend(a: seq<Shape>, b: seq<Shape>, v: int)
    ensures WithVolume(a + b, v) == WithVolume(a, v) + WithVolume(b, v)
    decreases |b|
  {
    if b == [] {
      assert a + b == a;
    } else {
      var front := b[..|b| - 1];
      var last := b[|b| - 1];
      assert (a + b)[..|a + b| - 1] == a + front;
      assert (a + b)[|a + b| - 1] == last;
      WithVolumeAppend(a, front, v);
      assert WithVolume(a + b, v) == WithVolume(a + front, v) + (if Volume(last) == v then [last] else []);
    }
  }

  /**
   * The keys are in order of first appearance: the keys of the first i shapes
   * come first, in the same order, whatever follows them.
   */
  lemma {:induction false} VolumeKeysPrefix(sizes: seq<Shape>, i: nat)
    requires i <= |sizes|
    ensures VolumeKeys(sizes[..i]) <= VolumeKeys(sizes)
    decreases |sizes| - i
  {
    if i == |sizes| {
      assert sizes[..i] == sizes;
    } else {
      VolumeKeysPrefix(sizes, i + 1);
      WithVolumeStep(sizes, i);
    }
  }

  /**
   * combinitions_with_same_volume: the groups of the enumerated shapes keyed
   * by volume, keys in first-appearance order, each group in enumeration
   * order.
   */
  method CombinationsWithSameVolume(ims: seq<int>, jms: seq<int>, kms: seq<int>)
    returns (keys: seq<int>, groups: map<int, seq<Shape>>)
    ensures keys == VolumeKeys(Enumerate(ims, jms, kms))
    ensures forall v :: v in groups <==> v in keys
    ensures forall v :: v in groups ==> groups[v] == WithVolume(Enumerate(ims, jms, kms), v)
  {
    var sizes := AllArraySizes(ims, jms, kms);
    keys := [];
    groups := map[];
    for i := 0 to |sizes|
      invariant keys == VolumeKeys(sizes[..i])
      invariant forall v :: v in groups <==> v in keys
      invariant forall v :: v in groups ==> groups[v] == WithVolume(sizes[..i], v)
    {
      var size := sizes[i];
      var volume := Volume(size);
      WithVolumeStep(sizes, i);
      if volume !in groups {
        NewVolume(sizes[..i], volume);
        keys := keys + [volume];
        groups := groups[volume := [size]];
      } else {
        groups := groups[volume := groups[volume] + [size]];
      }
      forall v | v in groups
        ensures groups[v] == WithVolume(sizes[..i + 1], v)
      {
        if v != volume {
          assert WithVolume(sizes[..i + 1], v) == WithVolume(sizes[..i], v) + [];
        }
      }
    }
    assert sizes[..|sizes|] == sizes;
  }

  lemma WithVolumeStep(sizes: seq<Shape>, i: int)
    requires 0 <= i < |sizes|
    ensures forall v :: WithVolume(sizes[..i + 1], v)
                        == WithVolume(sizes[..i], v) + (if Volume(sizes[i]) == v then [sizes[i]] else [])
    ensures VolumeKeys(sizes[..i + 1])
            == if Volume(sizes[i]) in VolumeKeys(sizes[..i]) then VolumeKeys(sizes[..i])
               else VolumeKeys(sizes[..i]) + [Volume(sizes[i])]
  {
    assert sizes[..i + 1][..i] == sizes[..i];
  }

  /** A volume not yet among the keys has no shape so far. */
  lemma NewVolume(sizes: seq<Shape>, v: int)
    requires v !in VolumeKeys(sizes)
    ensures WithVolume(sizes, v) == []
  {
    if WithVolume(sizes, v) != [] {
      assert WithVolume(sizes, v)[0] in WithVolume(sizes, v);
    }
  }

  /** Every enumerated shape lies in exactly one group: the one of its volume. */
  lemma ExactlyOneGroup(sizes: seq<Shape>, s: Shape, v: int)
    requires s in sizes
    ensures s in WithVolume(sizes, v) <==> v == Volume(s)
    ensures Volume(s) in VolumeKeys(sizes)
  {
  }

  /** Grouping loses and invents nothing: the group sizes add up to the number of shapes. */
  lemma {:induction false} GroupSizesAddUp(sizes: seq<Shape>)
    ensures GroupTotal(sizes, VolumeKeys(sizes)) == |sizes|
    decreases |sizes|
  {
    if sizes != [] {
      var front := sizes[..|sizes| - 1];
      var last := sizes[|sizes| - 1];
      var keys := VolumeKeys(front);
      assert sizes == front + [last];
      GroupSizesAddUp(front);
      GroupTotalStep(front, last, keys);
      if Volume(last) !in keys {
        GroupTotalAppend(sizes, keys, Volume(last));
        NewVolume(front, Volume(last));
        WithVolumeStep(sizes, |sizes| - 1);
      }
    }
  }

  /** The total size of the groups of the given keys. */
  function GroupTotal(sizes: seq<Shape>, keys: seq<int>): int
    decreases |keys|
  {
    if keys == [] then 0 else GroupTotal(sizes, keys[..|keys| - 1]) + |WithVolume(sizes, keys[|keys| - 1])|
  }

  lemma {:induction false} GroupTotalAppend(sizes: seq<Shape>, keys: seq<int>, v: int)
    ensures GroupTotal(sizes, keys + [v]) == GroupTotal(sizes, keys) + |WithVolume(sizes, v)|
  {
    assert (keys + [v])[..|keys|] == keys;
  }

  /** Adding a shape grows exactly the group of its volume by one, when that key is listed once. */
  lemma {:induction false} GroupTotalStep(front: seq<Shape>, last: Shape, keys: seq<int>)
    requires forall a, b :: 0 <= a < b < |keys| ==> keys[a] != keys[b]
    ensures GroupTotal(front + [last], keys) == GroupTotal(front, keys) + (if Volume(last) in keys then 1 else 0)
    decreases |keys|
  {
    var sizes := front + [last];
    assert sizes[..|sizes| - 1] == front;
    if keys != [] {
      var k := keys[|keys| - 1];
      var init := keys[..|keys| - 1];
      GroupTotalStep(front, last, init);
      assert Volume(last) in keys <==> Volume(last) in init || Volume(last) == k;
    }
  }

  function Pow2(e: nat): (p: nat)
    ensures p >= 1
  {
    if e == 0 then 1 else 2 * Pow2(e - 1)
  }

  lemma {:induction false} Pow2Add(x: nat, y: nat)
    ensures Pow2(x + y) == Pow2(x) * Pow2(y)
    decreases x
  {
    if x > 0 {
      Pow2Add(x - 1, y);
      assert Pow2(x + y) == 2 * Pow2(x - 1 + y);
      assert 2 * (Pow2(x - 1) * Pow2(y)) == (2 * Pow2(x - 1)) * Pow2(y);
    }
  }

  /** int(math.log2(v)) for a positive integer: the position of its highest set bit. */
  function Log2Floor(v: int): nat
    requires v >= 1
    decreases v
  {
    if v == 1 then 0 else 1 + Log2Floor(v / 2)
  }

  lemma {:induction false} Log2OfPow2(e: nat)
    ensures Log2Floor(Pow2(e)) == e
    decreases e
  {
    if e > 0 {
      Log2OfPow2(e - 1);
      assert Pow2(e) / 2 == Pow2(e - 1);
    }
  }

  lemma FixedListsArePowers(a: int, b: int, c: int)
    requires 0 <= a < 3 && 0 <= b < 3 && 0 <= c < 3
    ensures ImList[a] == Pow2(7 + a) && JmList[b] == Pow2(7 + b) && KmList[c] == Pow2(6 + c)
  {
    assert Pow2(6) == 64 && Pow2(7) == 128 && Pow2(8) == 256 && Pow2(9) == 512;
  }

  /** The subplot a volume of the fixed lists is drawn in: volumes_axes[volume - 21]. */
  function SubplotIndex(volume: int): int
    requires volume >= 1
  {
    Log2Floor(volume) - 21
  }

  /**
   * With the fixed lists the 27 shapes have volumes 2^20 .. 2^26, so every
   * group that passes the `> 20` test lands in one of the six subplots 0 .. 5.
   */
  lemma FixedVolumesSubplots(s: Shape)
    requires s in Enumerate(ImList, JmList, KmList)
    ensures Volume(s) >= 1
    ensures 20 <= Log2Floor(Volume(s)) <= 26
    ensures Log2Floor(Volume(s)) > 20 ==> 0 <= SubplotIndex(Volume(s)) <= 5
  {
    forall a | 0 <= a < 3
      ensures ImList[a] == Pow2(7 + a) && JmList[a] == Pow2(7 + a) && KmList[a] == Pow2(6 + a)
    {
      FixedListsArePowers(a, a, a);
    }
    PowerVolumes(ImList, JmList, KmList, s);
  }

  /** An index below 27 written with three base-3 digits. */
  lemma Base3(x: int, a: int, b: int, c: int)
    requires 0 <= x < 27
    requires a == (if x < 9 then 0 else if x < 18 then 1 else 2)
    requires b == (if x - 9 * a < 3 then 0 else if x - 9 * a < 6 then 1 else 2)
    requires c == x - 9 * a - 3 * b
    ensures 0 <= a < 3 && 0 <= b < 3 && 0 <= c < 3
    ensures a * (3 * 3) + (b * 3 + c) == x
  {
  }

  /** The shape of powers 2^(7+a), 2^(7+b), 2^(6+c) has volume 2^(20+a+b+c). */
  lemma PowerShapeVolume(im: int, jm: int, km: int, a: nat, b: nat, c: nat)
    requires im == Pow2(7 + a) && jm == Pow2(7 + b) && km == Pow2(6 + c)
    ensures Volume(Shape(im, jm, km)) == Pow2(20 + a + b + c)
  {
    Pow2Add(7 + a, 7 + b);
    Pow2Add(14 + a + b, 6 + c);
  }

  /** A volume 2^e with 20 <= e <= 26 lands in subplot e - 21 when it passes the `> 20` test. */
  lemma PowerSubplot(v: int, e: nat)
    requires v == Pow2(e) && 20 <= e <= 26
    ensures v >= 1 && 20 <= Log2Floor(v) <= 26
    ensures Log2Floor(v) > 20 ==> 0 <= SubplotIndex(v) <= 5
  {
    Log2OfPow2(e);
  }

  /** Lists of three consecutive powers of two starting at 2^7, 2^7 and 2^6 give volumes 2^20 .. 2^26. */
  lemma {:induction false} PowerVolumes(ims: seq<int>, jms: seq<int>, kms: seq<int>, s: Shape)
    requires |ims| == 3 && |jms| == 3 && |kms| == 3
    requires forall a :: 0 <= a < 3 ==> ims[a] == Pow2(7 + a) && jms[a] == Pow2(7 + a) && kms[a] == Pow2(6 + a)
    requires s in Enumerate(ims, jms, kms)
    ensures Volume(s) >= 1
    ensures 20 <= Log2Floor(Volume(s)) <= 26
    ensures Log2Floor(Volume(s)) > 20 ==> 0 <= SubplotIndex(Volume(s)) <= 5
  {
    EnumerateLength(ims, jms, kms);
    var x :| 0 <= x < |Enumerate(ims, jms, kms)| && Enumerate(ims, jms, kms)[x] == s;
    var a := if x < 9 then 0 else if x < 18 then 1 else 2;
    var b := if x - 9 * a < 3 then 0 else if x - 9 * a < 6 then 1 else 2;
    var c := x - 9 * a - 3 * b;
    Base3(x, a, b, c);
    EnumerateAt(ims, jms, kms, a, b, c);
    PowerShapeVolume(ims[a], jms[b], kms[c], a, b, c);
    PowerSubplot(Volume(s), 20 + a + b + c);
  }


  lemma FixedShapeCount()
    ensures |Enumerate(ImList, JmList, KmList)| == 27
  {
    EnumerateLength(ImList, JmList, KmList);
  }
}
