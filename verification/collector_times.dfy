/**
 * The timing list of one benchmark configuration (Go type SorTimes in
 * collector/main.go) and its cached order statistics.
 *
 * SorTimes is a Go struct that the collector stores BY VALUE in its maps and
 * storage items; its statistics methods take the struct by reference and write the
 * caches `max`, `min` and `mid` of the variable they are called on. Here the
 * struct is a datatype value and each statistics method takes that value and
 * returns the statistic together with the updated value, which is exactly what
 * the caller's variable holds afterwards. Float64 times are modelled as reals.
 */
module CollectorTimes {

  datatype SorTimes = SorTimes(times: seq<real>, max: real, min: real, avg: real, mid: real)

  /** `SorTimes{Times: times}`: all caches zero. */
  function Fresh(times: seq<real>): SorTimes {
    SorTimes(times, 0.0, 0.0, 0.0, 0.0)
  }

  predicate SortedAsc(s: seq<real>) {
    forall i, j :: 0 <= i < j < |s| ==> s[i] <= s[j]
  }

  /** An element no greater than every element of an ascending tail, in front of it, keeps the order. */
  lemma InsertAscStep(h: real, x: real, tail: seq<real>, rest: seq<real>)
    requires SortedAsc([h] + tail) && h < x
    requires SortedAsc(rest) && multiset(rest) == multiset(tail) + multiset{x}
    ensures SortedAsc([h] + rest)
  {
    forall y | y in rest ensures h <= y {
      assert y in multiset(rest);
      if y != x {
        assert y in multiset(tail);
        var k :| 0 <= k < |tail| && tail[k] == y;
        assert ([h] + tail)[0] == h && ([h] + tail)[k + 1] == y;
      }
    }
    var r := [h] + rest;
    forall i, j | 0 <= i < j < |r| ensures r[i] <= r[j] {
      assert r[j] == rest[j - 1];
      if i == 0 {
        assert rest[j - 1] in rest;
      } else {
        assert r[i] == rest[i - 1];
      }
    }
  }

  function InsertAsc(x: real, s: seq<real>): (r: seq<real>)
    requires SortedAsc(s)
    ensures SortedAsc(r)
    ensures multiset(r) == multiset(s) + multiset{x}
    ensures |r| == |s| + 1
    decreases |s|
  {
    if s == [] || x <= s[0] then [x] + s
    else
      assert s == [s[0]] + s[1..];
      var rest := InsertAsc(x, s[1..]);
      InsertAscStep(s[0], x, s[1..], rest);
      [s[0]] + rest
  }


  /**
   * sort.Float64s applied to a copy: an ascending permutation of the input.
   * By SortedPermutationUnique any ascending permutation is this one, so the
   * sorting algorithm the library uses does not matter.
   */
  function SortAscending(s: seq<real>): (r: seq<real>)
    ensures SortedAsc(r)
    ensures multiset(r) == multiset(s)
    ensures |r| == |s|
    decreases |s|
  {
    if s == [] then []
    else
      assert s == [s[0]] + s[1..];
      InsertAsc(s[0], SortAscending(s[1..]))
  }

  /** Two ascending permutations of each other start with the same element. */
  lemma SortedHeads(a: seq<real>, b: seq<real>)
    requires SortedAsc(a) && SortedAsc(b)
    requires multiset(a) == multiset(b) && a != []
    ensures b != [] && a[0] == b[0]
    ensures multiset(a[1..]) == multiset(b[1..])
  {
    assert |multiset(b)| == |multiset(a)| > 0;
    assert b != [];
    assert a[0] in multiset(b);
    var j :| 0 <= j < |b| && b[j] == a[0];
    assert b[0] in multiset(a);
    var i :| 0 <= i < |a| && a[i] == b[0];
    assert a[0] <= a[i] && b[0] <= b[j];
    assert a == [a[0]] + a[1..];
    assert b == [b[0]] + b[1..];
    assert multiset(a[1..]) == multiset(a) - multiset{a[0]};
    assert multiset(b[1..]) == multiset(b) - multiset{b[0]};
  }

  lemma {:induction false} SortedPermutationUnique(a: seq<real>, b: seq<real>)
    requires SortedAsc(a) && SortedAsc(b)
    requires multiset(a) == multiset(b)
    ensures a == b
    decreases |a|
  {
    if a == [] {
      assert |multiset(b)| == 0;
    } else {
      SortedHeads(a, b);
      SortedPermutationUnique(a[1..], b[1..]);
      assert a == [a[0]] + a[1..];
      assert b == [b[0]] + b[1..];
    }
  }

  /** The ends of an ascending sequence are its least and greatest elements, and so of any permutation of it. */
  lemma SortedBounds(r: seq<real>, s: seq<real>)
    requires SortedAsc(r) && multiset(r) == multiset(s) && |s| > 0
    ensures |r| == |s|
    ensures r[0] in s && r[|s| - 1] in s
    ensures forall x :: x in s ==> r[0] <= x <= r[|s| - 1]
  {
    assert |r| == |multiset(r)| == |multiset(s)| == |s|;
    assert r[0] in multiset(r) && r[|s| - 1] in multiset(r);
    forall x | x in s
      ensures r[0] <= x <= r[|s| - 1]
    {
      assert x in multiset(r);
      var i :| 0 <= i < |r| && r[i] == x;
    }
  }

  /** The ends of an ascending permutation are the least and the greatest element. */
  lemma SortedEnds(s: seq<real>)
    requires |s| > 0
    ensures SortAscending(s)[0] in s && SortAscending(s)[|s| - 1] in s
    ensures forall x :: x in s ==> SortAscending(s)[0] <= x <= SortAscending(s)[|s| - 1]
  {
    SortedBounds(SortAscending(s), s);
  }

  /**
   * What Max() returns for a given value of the struct: the cache when it is
   * set, 0 for an empty list, and otherwise the greatest element.
   */
  function MaxTime(t: SorTimes): (m: real)
    ensures t.max != 0.0 ==> m == t.max
    ensures t.max == 0.0 && |t.times| == 0 ==> m == 0.0
    ensures t.max == 0.0 && |t.times| > 0 ==> m in t.times && forall x :: x in t.times ==> x <= m
  {
    if t.max != 0.0 then t.max
    else if |t.times| == 0 then 0.0
    else
      var cpy := SortAscending(t.times);
      SortedEnds(t.times);
      cpy[|cpy| - 1]
  }

  /** What Min() returns: the cache when it is set, 0 for an empty list, and otherwise the least element. */
  function MinTime(t: SorTimes): (m: real)
    ensures t.min != 0.0 ==> m == t.min
    ensures t.min == 0.0 && |t.times| == 0 ==> m == 0.0
    ensures t.min == 0.0 && |t.times| > 0 ==> m in t.times && forall x :: x in t.times ==> m <= x
  {
    if t.min != 0.0 then t.min
    else if |t.times| == 0 then 0.0
    else
      var cpy := SortAscending(t.times);
      SortedEnds(t.times);
      cpy[0]
  }

  /**
   * What Middle() returns: the cache when it is set, 0 for an empty list, and
   * otherwise a value with an element of the list on each side of it.
   */
  function MiddleTime(t: SorTimes): (m: real)
    ensures t.mid != 0.0 ==> m == t.mid
    ensures t.mid == 0.0 && |t.times| == 0 ==> m == 0.0
    ensures t.mid == 0.0 && |t.times| > 0 ==>
      (exists x :: x in t.times && x <= m) && (exists y :: y in t.times && m <= y)
  {
    if t.mid != 0.0 then t.mid
    else if |t.times| == 0 then 0.0
    else
      var cpy := SortAscending(t.times);
      var size := |cpy|;
      SortedEnds(t.times);
      assert cpy[0] in t.times && cpy[size - 1] in t.times;
      assert cpy[0] <= cpy[size / 2] <= cpy[size - 1];
      assert size % 2 == 0 ==> cpy[0] <= cpy[size / 2 - 1] <= cpy[size - 1];
      if size % 2 == 0 then (cpy[size / 2 - 1] + cpy[size / 2]) / 2.0 else cpy[size / 2]
  }

  /** MaxTime without a cache is the greatest element of the list. */
  lemma MaxTimeIsGreatest(t: SorTimes)
    requires t.max == 0.0 && |t.times| > 0
    ensures MaxTime(t) in t.times
    ensures forall x :: x in t.times ==> x <= MaxTime(t)
  {
    SortedEnds(t.times);
  }

  /** MinTime without a cache is the least element of the list. */
  lemma MinTimeIsLeast(t: SorTimes)
    requires t.min == 0.0 && |t.times| > 0
    ensures MinTime(t) in t.times
    ensures forall x :: x in t.times ==> MinTime(t) <= x
  {
    SortedEnds(t.times);
  }

  /**
   * MiddleTime without a cache is the median of the list: in every ascending
   * arrangement s of the times, the middle element when the length is odd and
   * the mean of the two middle elements when it is even. In particular it is
   * an element of the list for odd length.
   */
  lemma MiddleTimeIsMedian(t: SorTimes)
    requires t.mid == 0.0 && |t.times| > 0
    ensures forall s :: SortedAsc(s) && multiset(s) == multiset(t.times) ==>
      |s| == |t.times| &&
      (|s| % 2 == 1 ==> MiddleTime(t) == s[|s| / 2]) &&
      (|s| % 2 == 0 ==> MiddleTime(t) == (s[|s| / 2 - 1] + s[|s| / 2]) / 2.0)
    ensures |t.times| % 2 == 1 ==> MiddleTime(t) in t.times
  {
    var cpy := SortAscending(t.times);
    var size := |cpy|;
    assert size == |multiset(cpy)|;
    assert MiddleTime(t) == if size % 2 == 0 then (cpy[size / 2 - 1] + cpy[size / 2]) / 2.0 else cpy[size / 2];
    forall s | SortedAsc(s) && multiset(s) == multiset(t.times)
      ensures |s| == |t.times|
      ensures s == cpy
    {
      assert |s| == |multiset(s)| == |multiset(t.times)| == |t.times|;
      SortedPermutationUnique(cpy, s);
    }
    assert cpy[size / 2] in multiset(cpy);
  }

  /** The uncached median lies between the least and the greatest element. */
  lemma MiddleTimeBetween(t: SorTimes)
    requires t.mid == 0.0 && |t.times| > 0
    ensures MinTime(Fresh(t.times)) <= MiddleTime(t) <= MaxTime(Fresh(t.times))
  {
    var cpy := SortAscending(t.times);
    var size := |cpy|;
    assert cpy[0] <= cpy[size / 2] <= cpy[size - 1];
    if size % 2 == 0 {
      assert cpy[0] <= cpy[size / 2 - 1] <= cpy[size - 1];
    }
  }

  /**
   * (*SorTimes).Max: a non-zero cache is returned as it is; an empty list
   * gives 0; otherwise the greatest element is computed on a sorted copy and
   * cached. The list itself is never reordered.
   */
  method Max(t: SorTimes) returns (v: real, t': SorTimes)
    ensures v == MaxTime(t)
    ensures t.max != 0.0 ==> v == t.max && t' == t
    ensures t.max == 0.0 && |t.times| == 0 ==> v == 0.0 && t' == t
    ensures t.max == 0.0 && |t.times| > 0 ==>
      t' == t.(max := v) && v in t.times && forall x :: x in t.times ==> x <= v
  {
    if t.max != 0.0 {
      return t.max, t;
    }
    if |t.times| == 0 {
      return 0.0, t;
    }
    var cpy := SortAscending(t.times);
    assert |cpy| == |multiset(cpy)| == |t.times|;
    v := cpy[|cpy| - 1];
    t' := t.(max := v);
    MaxTimeIsGreatest(t);
  }

  /** (*SorTimes).Min: as Max, with the least element and the `min` cache. */
  method Min(t: SorTimes) returns (v: real, t': SorTimes)
    ensures v == MinTime(t)
    ensures t.min != 0.0 ==> v == t.min && t' == t
    ensures t.min == 0.0 && |t.times| == 0 ==> v == 0.0 && t' == t
    ensures t.min == 0.0 && |t.times| > 0 ==>
      t' == t.(min := v) && v in t.times && forall x :: x in t.times ==> v <= x
  {
    if t.min != 0.0 {
      return t.min, t;
    }
    if |t.times| == 0 {
      return 0.0, t;
    }
    var cpy := SortAscending(t.times);
    assert |cpy| == |multiset(cpy)| == |t.times|;
    v := cpy[0];
    t' := t.(min := v);
    MinTimeIsLeast(t);
  }

  /** (*SorTimes).Middle: the median of a sorted copy, cached in `mid`. */
  method Middle(t: SorTimes) returns (v: real, t': SorTimes)
    ensures v == MiddleTime(t)
    ensures t.mid != 0.0 ==> v == t.mid && t' == t
    ensures t.mid == 0.0 && |t.times| == 0 ==> v == 0.0 && t' == t
    ensures t.mid == 0.0 && |t.times| > 0 ==> t' == t.(mid := v)
    ensures t.mid == 0.0 && |t.times| > 0 ==>
      forall s :: SortedAsc(s) && multiset(s) == multiset(t.times) ==>
        |s| == |t.times| &&
        (|s| % 2 == 1 ==> v == s[|s| / 2]) &&
        (|s| % 2 == 0 ==> v == (s[|s| / 2 - 1] + s[|s| / 2]) / 2.0)
    ensures t.mid == 0.0 && |t.times| % 2 == 1 ==> v in t.times
  {
    if t.mid != 0.0 {
      return t.mid, t;
    }
    if |t.times| == 0 {
      return 0.0, t;
    }
    var cpy := SortAscending(t.times);
    var size := |cpy|;
    assert size == |multiset(cpy)| == |t.times|;
    if size % 2 == 0 {
      v := (cpy[size / 2 - 1] + cpy[size / 2]) / 2.0;
    } else {
      v := cpy[size / 2];
    }
    t' := t.(mid := v);
    MiddleTimeIsMedian(t);
  }
}
