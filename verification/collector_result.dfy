/**
 * The collector's result table (type Result in collector/main.go): a nested
 * map ArraySize -> Meta -> SorTimes, filled by joinItem, flattened into a
 * list of storage items sorted by every key field, and rendered as CSV
 * records.
 */
module CollectorResult {
  import opened Wrappers
  import opened Text
  import opened CollectorTimes

  /** Go's MethodType is a uint8; the named codes are 0..4 and MethodEndTag is 5. */
  type MethodType = m: int | 0 <= m < 256

  const MethodRef: MethodType := 0
  const MethodMPI: MethodType := 1
  const MethodArgoV1: MethodType := 2
  const MethodArgoV2: MethodType := 3
  const MethodArgoV3: MethodType := 4
  const MethodEndTag: MethodType := 5

  datatype Meta = Meta(methodType: MethodType, optimized: bool, nodeCount: int, dsmNX: int, dsmNY: int)

  datatype ArraySize = ArraySize(i: int, j: int, k: int)

  datatype StorageItem = StorageItem(size: ArraySize, meta: Meta, times: SorTimes)

  type Items = map<ArraySize, map<Meta, SorTimes>>

  /** The map key an item is stored under. */
  function Key(x: StorageItem): (ArraySize, Meta) {
    (x.size, x.meta)
  }

  function Lookup(items: Items, size: ArraySize, meta: Meta): Option<SorTimes> {
    if size in items && meta in items[size] then Some(items[size][meta]) else None
  }

  /**
   * The effect of joinItem: the inner map of `size` is created when missing,
   * then `meta` is bound to `times`, overwriting an earlier binding.
   */
  function Join(items: Items, size: ArraySize, meta: Meta, times: SorTimes): (r: Items)
    ensures Lookup(r, size, meta) == Some(times)
    ensures forall s, m :: (s, m) != (size, meta) ==> Lookup(r, s, m) == Lookup(items, s, m)
    ensures r.Keys == items.Keys + {size}
  {
    var se := if size in items then items[size] else map[];
    items[size := se[meta := times]]
  }

  /** joinItem folded over a list of storage items, in list order (FromStorage). */
  function JoinAll(items: Items, storage: seq<StorageItem>): Items
    decreases |storage|
  {
    if storage == [] then items
    else
      var last := storage[|storage| - 1];
      Join(JoinAll(items, storage[..|storage| - 1]), last.size, last.meta, last.times)
  }

  /** After FromStorage the binding of a key is the one of the LAST item with that key. */
  lemma {:induction false} JoinAllLastWins(items: Items, storage: seq<StorageItem>, i: nat)
    requires i < |storage|
    requires forall j :: i < j < |storage| ==> Key(storage[j]) != Key(storage[i])
    ensures Lookup(JoinAll(items, storage), storage[i].size, storage[i].meta) == Some(storage[i].times)
    decreases |storage|
  {
    if i < |storage| - 1 {
      var prefix := storage[..|storage| - 1];
      assert forall j :: i < j < |prefix| ==> prefix[j] == storage[j];
      JoinAllLastWins(items, prefix, i);
    }
  }

  /** A key no stored item mentions keeps its earlier binding (or stays unbound). */
  lemma {:induction false} JoinAllUntouched(items: Items, storage: seq<StorageItem>, size: ArraySize, meta: Meta)
    requires forall j :: 0 <= j < |storage| ==> Key(storage[j]) != (size, meta)
    ensures Lookup(JoinAll(items, storage), size, meta) == Lookup(items, size, meta)
    decreases |storage|
  {
    if storage != [] {
      var prefix := storage[..|storage| - 1];
      assert forall j :: 0 <= j < |prefix| ==> prefix[j] == storage[j];
      JoinAllUntouched(items, prefix, size, meta);
    }
  }

  predicate IsEntry(items: Items, x: StorageItem) {
    x.size in items && x.meta in items[x.size] && x.times == items[x.size][x.meta]
  }

  /** One storage item per (size, meta) binding of the nested map. */
  ghost function Entries(items: Items): set<StorageItem> {
    set s, m | s in items && m in items[s] :: StorageItem(s, m, items[s][m])
  }

  lemma EntriesMembership(items: Items)
    ensures forall x :: x in Entries(items) <==> IsEntry(items, x)
  {
    forall x | IsEntry(items, x)
      ensures x in Entries(items)
    {
      assert x == StorageItem(x.size, x.meta, items[x.size][x.meta]);
    }
  }

  /**
   * The comparator of ToStorage's sort.SliceStable, clause by clause: I, J, K,
   * Method, Optimized (false before true), NodeCount, DsmNX, DsmNY.
   */
  predicate Less(x: StorageItem, y: StorageItem)
    ensures Less(x, y) ==> Key(x) != Key(y)
  {
    if x.size.i < y.size.i then true else if x.size.i > y.size.i then false
    else if x.size.j < y.size.j then true else if x.size.j > y.size.j then false
    else if x.size.k < y.size.k then true else if x.size.k > y.size.k then false
    else if x.meta.methodType < y.meta.methodType then true else if x.meta.methodType > y.meta.methodType then false
    else if !x.meta.optimized && y.meta.optimized then true else if x.meta.optimized && !y.meta.optimized then false
    else if x.meta.nodeCount < y.meta.nodeCount then true else if x.meta.nodeCount > y.meta.nodeCount then false
    else if x.meta.dsmNX < y.meta.dsmNX then true else if x.meta.dsmNX > y.meta.dsmNX then false
    else if x.meta.dsmNY < y.meta.dsmNY then true else if x.meta.dsmNY > y.meta.dsmNY then false
    else false
  }

  /**
   * The comparator is a strict total order on keys: it compares every field of
   * the map key, so two items are incomparable exactly when their keys agree.
   */
  lemma LessIsStrictTotalOrderOnKeys(x: StorageItem, y: StorageItem, z: StorageItem)
    ensures !Less(x, x)
    ensures Less(x, y) && Less(y, z) ==> Less(x, z)
    ensures Key(x) != Key(y) <==> Less(x, y) || Less(y, x)
    ensures Key(x) == Key(y) ==> (Less(x, z) <==> Less(y, z)) && (Less(z, x) <==> Less(z, y))
  {
  }

  predicate StrictlySorted(s: seq<StorageItem>) {
    forall i, j :: 0 <= i < j < |s| ==> Less(s[i], s[j])
  }

  predicate DistinctKeys(s: seq<StorageItem>) {
    forall i, j :: 0 <= i < j < |s| ==> Key(s[i]) != Key(s[j])
  }

  /** One insertion step of a stable sort: x goes before the first element not less than it. */
  function InsertItem(x: StorageItem, s: seq<StorageItem>): (r: seq<StorageItem>)
    ensures |r| == |s| + 1
    ensures multiset(r) == multiset(s) + multiset{x}
    decreases |s|
  {
    if s == [] || !Less(s[0], x) then [x] + s
    else
      assert s == [s[0]] + s[1..];
      [s[0]] + InsertItem(x, s[1..])
  }

  lemma {:induction false} InsertItemStrictlySorted(x: StorageItem, s: seq<StorageItem>)
    requires StrictlySorted(s)
    requires forall y :: y in s ==> Key(y) != Key(x)
    ensures StrictlySorted(InsertItem(x, s))
    decreases |s|
  {
    if s == [] {
    } else if !Less(s[0], x) {
      LessIsStrictTotalOrderOnKeys(s[0], x, x);
      forall j | 0 <= j < |s|
        ensures Less(x, s[j])
      {
        LessIsStrictTotalOrderOnKeys(x, s[0], s[j]);
      }
    } else {
      assert s == [s[0]] + s[1..];
      InsertItemStrictlySorted(x, s[1..]);
      var rest := InsertItem(x, s[1..]);
      forall k | 0 <= k < |rest|
        ensures Less(s[0], rest[k])
      {
        assert rest[k] in multiset(rest);
        if rest[k] != x {
          assert rest[k] in multiset(s[1..]);
          var i :| 0 <= i < |s[1..]| && s[1..][i] == rest[k];
          assert s[i + 1] == rest[k];
        }
      }
    }
  }

  /**
   * sort.SliceStable with Less, written as an insertion sort. On items with
   * pairwise distinct keys (the only input ToStorage gives it) every correct
   * sort yields the same list (StrictlySortedUnique).
   */
  function SortItems(s: seq<StorageItem>): (r: seq<StorageItem>)
    ensures |r| == |s|
    ensures multiset(r) == multiset(s)
    decreases |s|
  {
    if s == [] then []
    else
      assert s == [s[0]] + s[1..];
      InsertItem(s[0], SortItems(s[1..]))
  }

  lemma {:induction false} SortItemsStrictlySorted(s: seq<StorageItem>)
    requires DistinctKeys(s)
    ensures StrictlySorted(SortItems(s))
    decreases |s|
  {
    if s != [] {
      assert s == [s[0]] + s[1..];
      var tail := s[1..];
      assert DistinctKeys(tail) by {
        forall i, j | 0 <= i < j < |tail|
          ensures Key(tail[i]) != Key(tail[j])
        {
          assert tail[i] == s[i + 1] && tail[j] == s[j + 1];
        }
      }
      SortItemsStrictlySorted(tail);
      var sorted := SortItems(tail);
      forall y | y in sorted
        ensures Key(y) != Key(s[0])
      {
        assert y in multiset(sorted);
        assert y in multiset(tail);
        var i :| 0 <= i < |tail| && tail[i] == y;
        assert s[i + 1] == y;
      }
      InsertItemStrictlySorted(s[0], sorted);
    }
  }

  /** Two strictly sorted lists with the same elements are the same list. */
  lemma {:induction false} StrictlySortedUnique(a: seq<StorageItem>, b: seq<StorageItem>)
    requires StrictlySorted(a) && StrictlySorted(b)
    requires forall x :: x in a <==> x in b
    ensures a == b
    decreases |a|
  {
    assert a != [] ==> a[0] in b;
    assert b != [] ==> b[0] in a;
    if a != [] {
      var j :| 0 <= j < |b| && b[j] == a[0];
      var i :| 0 <= i < |a| && a[i] == b[0];
      var a0, b0 := a[0], b[0];
      LessIsStrictTotalOrderOnKeys(a0, b0, a0);
      assert b0 == a0 || Less(a0, b0);
      assert a0 == b0 || Less(b0, a0);
      assert a0 == b0;
      forall x
        ensures x in a[1..] <==> x in b[1..]
      {
        if x in a[1..] {
          var k :| 0 <= k < |a[1..]| && a[1..][k] == x;
          assert Less(a[0], a[k + 1]);
          LessIsStrictTotalOrderOnKeys(x, x, x);
          assert x in b;
        }
        if x in b[1..] {
          var k :| 0 <= k < |b[1..]| && b[1..][k] == x;
          assert Less(b[0], b[k + 1]);
          LessIsStrictTotalOrderOnKeys(x, x, x);
          assert x in a;
        }
      }
      StrictlySortedUnique(a[1..], b[1..]);
      assert a == [a[0]] + a[1..];
      assert b == [b[0]] + b[1..];
    }
  }

  lemma {:induction false} StrictlySortedCount(s: seq<StorageItem>)
    requires StrictlySorted(s)
    ensures |set x | x in s| == |s|
    decreases |s|
  {
    if s != [] {
      StrictlySortedCount(s[1..]);
      LessIsStrictTotalOrderOnKeys(s[0], s[0], s[0]);
      forall k | 0 <= k < |s[1..]|
        ensures s[1..][k] != s[0]
      {
        assert Less(s[0], s[k + 1]);
      }
      assert (set x | x in s) == {s[0]} + (set x | x in s[1..]);
    }
  }

  /** Within one table, an item's key determines the item. */
  predicate KeysDetermine(e: set<StorageItem>) {
    forall x, y :: x in e && y in e && Key(x) == Key(y) ==> x == y
  }

  lemma {:induction false} SortedListExists(e: set<StorageItem>)
    requires KeysDetermine(e)
    ensures exists s :: StrictlySorted(s) && forall x :: x in s <==> x in e
    decreases |e|
  {
    if e == {} {
      assert StrictlySorted([]);
    } else {
      var x :| x in e;
      SortedListExists(e - {x});
      var s :| StrictlySorted(s) && forall y :: y in s <==> y in e - {x};
      InsertItemStrictlySorted(x, s);
      var r := InsertItem(x, s);
      forall y
        ensures y in r <==> y in e
      {
        assert y in r <==> y in multiset(r);
        assert y in s <==> y in multiset(s);
      }
    }
  }

  /**
   * The table flattened and sorted: the unique strictly sorted list that holds
   * exactly the bindings of `items`.
   */
  ghost function SortedEntries(items: Items): (s: seq<StorageItem>)
    ensures StrictlySorted(s)
    ensures forall x :: x in s <==> x in Entries(items)
    ensures |s| == |Entries(items)|
  {
    EntriesMembership(items);
    SortedListExists(Entries(items));
    var s :| StrictlySorted(s) && forall x :: x in s <==> x in Entries(items);
    StrictlySortedCount(s);
    assert (set x | x in s) == Entries(items);
    s
  }

  const Header: seq<string> := ["im", "jm", "km", "method", "optimized", "node_count", "dsm_nx", "dsm_ny", "time"]

  /** The CSV helper `optimized`: true is 1, false is 0. */
  function OptimizedFlag(b: bool): int {
    if b then 1 else 0
  }

  /**
   * One CSV record: eight integer columns and the maximum time formatted by
   * `ftoa` (strconv.FormatFloat with 'f' and 6 decimals, not modelled).
   */
  function CsvRow(item: StorageItem, ftoa: real -> string): (record: seq<string>)
    ensures |record| == |Header|
    ensures record[|Header| - 1] == ftoa(MaxTime(item.times))
  {
    [Itoa(item.size.i), Itoa(item.size.j), Itoa(item.size.k),
     Itoa(item.meta.methodType), Itoa(OptimizedFlag(item.meta.optimized)), Itoa(item.meta.nodeCount),
     Itoa(item.meta.dsmNX), Itoa(item.meta.dsmNY), ftoa(MaxTime(item.times))]
  }

  /** The Optimized column is written as "1" or "0". */
  lemma OptimizedText(optimized: bool)
    ensures Itoa(OptimizedFlag(optimized)) == (if optimized then "1" else "0")
  {
    assert DigitChar(1) == '1' && DigitChar(0) == '0';
  }

  /**
   * A record has one column per header name; its integer columns read back
   * as the item's key fields, Optimized as "1"/"0" and Method as its code.
   */
  lemma CsvRowDecodes(item: StorageItem, ftoa: real -> string)
    ensures |CsvRow(item, ftoa)| == |Header|
    ensures Atoi(CsvRow(item, ftoa)[0]) == Some(item.size.i)
    ensures Atoi(CsvRow(item, ftoa)[1]) == Some(item.size.j)
    ensures Atoi(CsvRow(item, ftoa)[2]) == Some(item.size.k)
    ensures Atoi(CsvRow(item, ftoa)[3]) == Some(item.meta.methodType as int)
    ensures CsvRow(item, ftoa)[4] == (if item.meta.optimized then "1" else "0")
    ensures Atoi(CsvRow(item, ftoa)[5]) == Some(item.meta.nodeCount)
    ensures Atoi(CsvRow(item, ftoa)[6]) == Some(item.meta.dsmNX)
    ensures Atoi(CsvRow(item, ftoa)[7]) == Some(item.meta.dsmNY)
  {
    var r := CsvRow(item, ftoa);
    IntColumn(r, 0, item.size.i);
    IntColumn(r, 1, item.size.j);
    IntColumn(r, 2, item.size.k);
    IntColumn(r, 3, item.meta.methodType as int);
    IntColumn(r, 5, item.meta.nodeCount);
    IntColumn(r, 6, item.meta.dsmNX);
    IntColumn(r, 7, item.meta.dsmNY);
    OptimizedText(item.meta.optimized);
  }

  /** A column written with Itoa reads back as its number. */
  lemma IntColumn(r: seq<string>, k: nat, n: int)
    requires k < |r| && r[k] == Itoa(n)
    ensures Atoi(r[k]) == Some(n)
  {
    AtoiItoa(n);
  }


  class Result {
    var items: Items

    /** NewResult: an empty table. */
    constructor ()
      ensures items == map[]
    {
      items := map[];
    }

    /** JoinItem (and the unlocked joinItem it wraps): insert or overwrite one binding. */
    method JoinItem(size: ArraySize, meta: Meta, times: SorTimes)
      modifies this
      ensures items == Join(old(items), size, meta, times)
    {
      var se: map<Meta, SorTimes>;
      if size in items {
        se := items[size];
      } else {
        se := map[];
        items := items[size := se];
      }
      items := items[size := se[meta := times]];
    }

    /** FromStorage: joinItem for every stored item, in order. */
    method FromStorage(storage: seq<StorageItem>)
      modifies this
      ensures items == JoinAll(old(items), storage)
    {
      var i := 0;
      while i < |storage|
        invariant 0 <= i <= |storage|
        invariant items == JoinAll(old(items), storage[..i])
      {
        JoinItem(storage[i].size, storage[i].meta, storage[i].times);
        assert storage[..i + 1][..i] == storage[..i];
        i := i + 1;
      }
      assert storage[..|storage|] == storage;
    }

    /**
     * ToStorage: every binding once, in whatever order the maps are walked,
     * then sorted. The result is strictly sorted and holds exactly the
     * bindings, so it is the same list whatever the walking order.
     */
    method ToStorage() returns (storage: seq<StorageItem>)
      ensures storage == SortedEntries(items)
      ensures StrictlySorted(storage)
      ensures forall x :: x in storage <==> x in Entries(items)
    {
      EntriesMembership(items);
      var collected: seq<StorageItem> := [];
      var sizes := items.Keys;
      while sizes != {}
        invariant sizes <= items.Keys
        invariant forall x :: x in collected <==> IsEntry(items, x) && x.size !in sizes
        invariant DistinctKeys(collected)
        decreases |sizes|
      {
        var size :| size in sizes;
        var metaMap := items[size];
        var metas := metaMap.Keys;
        while metas != {}
          invariant metas <= metaMap.Keys
          invariant forall x :: x in collected <==>
            IsEntry(items, x) && (x.size !in sizes || (x.size == size && x.meta !in metas))
          invariant DistinctKeys(collected)
          decreases |metas|
        {
          var meta :| meta in metas;
          collected := collected + [StorageItem(size, meta, metaMap[meta])];
          metas := metas - {meta};
        }
        sizes := sizes - {size};
      }
      storage := SortItems(collected);
      SortItemsStrictlySorted(collected);
      forall x
        ensures x in storage <==> x in Entries(items)
      {
        assert x in storage <==> x in multiset(storage);
        assert x in collected <==> x in multiset(collected);
      }
      StrictlySortedUnique(storage, SortedEntries(items));
    }

    /**
     * CSV: the header, then one record per item of ToStorage, in that order.
     * The time column is Max() of the item's timing list (computed on the
     * loop's copy of the item, so no cache is kept).
     */
    method CSV(ftoa: real -> string) returns (records: seq<seq<string>>)
      ensures |records| == |Entries(items)| + 1
      ensures records[0] == Header
      ensures forall r :: 0 <= r < |Entries(items)| ==>
        records[r + 1] == CsvRow(SortedEntries(items)[r], ftoa)
    {
      var storage := ToStorage();
      records := [Header];
      var r := 0;
      while r < |storage|
        invariant 0 <= r <= |storage|
        invariant |records| == r + 1 && records[0] == Header
        invariant forall q :: 0 <= q < r ==> records[q + 1] == CsvRow(storage[q], ftoa)
      {
        var item := storage[r];
        var maxTime, _ := Max(item.times);
        var record := [Itoa(item.size.i), Itoa(item.size.j), Itoa(item.size.k),
                       Itoa(item.meta.methodType), Itoa(OptimizedFlag(item.meta.optimized)), Itoa(item.meta.nodeCount),
                       Itoa(item.meta.dsmNX), Itoa(item.meta.dsmNY), ftoa(maxTime)];
        records := records + [record];
        r := r + 1;
      }
    }
  }
}
