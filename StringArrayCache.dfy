/**
 * StringArrayCache: a StringArrayStore with a sliding window of recent rows
 * held in memory. The window is `lastSubList`, starting at store index
 * `lastStartIndex`; clearCache drops it (null, index -1) until the next reload.
 *
 * reloadCache is modelled twice: as written, and corrected so that the
 * window always starts inside the store (see `ReloadedAsWritten`).
 */
module StringArrayCache {
  import opened Wrappers
  import SAS = StringArrayStore

  type Row = seq<string>

  function Max(a: int, b: int): int { if a >= b then a else b }
  function Min(a: int, b: int): int { if a <= b then a else b }

  /** The store's rows, lastStartIndex and lastSubList (None for null). */
  datatype CacheState = CacheState(rows: seq<Row>, lastStartIndex: int, window: Option<seq<Row>>)

  /** A present window is the tail of the store from lastStartIndex; an absent one is marked by -1. */
  ghost predicate Valid(c: CacheState)
  {
    match c.window
    case Some(w) => 0 <= c.lastStartIndex <= |c.rows| && w == c.rows[c.lastStartIndex..]
    case None => c.lastStartIndex == -1
  }

  /** evict: drop the window's oldest window - capacity rows when that is at least step. */
  function Evicted(c: CacheState, capacity: nat, step: nat): (r: CacheState)
    requires c.window.Some?
    ensures r.rows == c.rows && r.window.Some?
    ensures |r.window.value| <= capacity || |r.window.value| < capacity + step
  {
    var w := c.window.value;
    var delta := |w| - capacity;
    if delta >= step then CacheState(c.rows, c.lastStartIndex + delta, Some(w[delta..]))
    else c
  }

  /** add/add(Collection): the rows always reach the store; with no window the append to it throws NullPointerException. */
  function Appended(c: CacheState, xs: seq<Row>, capacity: nat, step: nat): (r: CacheState)
    ensures r.rows == c.rows + xs
    ensures c.window.None? ==> r.window.None? && r.lastStartIndex == c.lastStartIndex
  {
    match c.window
    case None => c.(rows := c.rows + xs)
    case Some(w) => Evicted(CacheState(c.rows + xs, c.lastStartIndex, Some(w + xs)), capacity, step)
  }

  /** What an add throws. */
  function AddThrows(c: CacheState): Option<Exception>
  {
    if c.window.None? then Some(NullPointer) else None
  }

  /** clearCache: no window, index -1. */
  function Invalidated(c: CacheState): (r: CacheState)
    ensures Valid(r) && r.rows == c.rows && r.window.None?
  {
    CacheState(c.rows, -1, None)
  }

  /** reloadCache(startIndex) as written: keep the window iff 0 <= lastStartIndex <= startIndex, else read the store from startIndex. */
  function ReloadedAsWritten(c: CacheState, startIndex: int): (r: CacheState)
    ensures r.rows == c.rows
  {
    if c.lastStartIndex >= 0 && c.lastStartIndex <= startIndex then c
    else CacheState(c.rows, startIndex, Some(SAS.SubListSpec(c.rows, startIndex, |c.rows|)))
  }

  /** reloadCache(startIndex), corrected: a reload starts at startIndex clamped to [0, size]. */
  function Reloaded(c: CacheState, startIndex: int): (r: CacheState)
    ensures r.rows == c.rows
    ensures Valid(c) ==> Valid(r) && r.window.Some? && r.lastStartIndex <= Max(startIndex, 0)
  {
    if c.lastStartIndex >= 0 && c.lastStartIndex <= startIndex then c
    else
      var lsi := Min(Max(startIndex, 0), |c.rows|);
      CacheState(c.rows, lsi, Some(c.rows[lsi..]))
  }

  /** The result of a read and the cache it leaves behind. */
  datatype ReadOutcome<T> = ReadOutcome(result: Result<T>, cache: CacheState)

  /** The window lookup get(index) performs after its reload. */
  function LookUp(c: CacheState, index: int): Result<Row>
  {
    match c.window
    case None => Err(NullPointer)
    case Some(w) =>
      var k := index - c.lastStartIndex;
      if 0 <= k < |w| then Ok(w[k]) else Err(IndexOutOfBounds)
  }

  /** get(index) as written. */
  function GetAsWritten(c: CacheState, index: int): ReadOutcome<Row>
  {
    var c' := ReloadedAsWritten(c, index);
    ReadOutcome(LookUp(c', index), c')
  }

  /** get(index), with the corrected reload. */
  function GetSpec(c: CacheState, index: int): ReadOutcome<Row>
  {
    var c' := Reloaded(c, index);
    ReadOutcome(LookUp(c', index), c')
  }

  /** subList(startIndex, maxCount): straight from the store when more than capacity rows follow startIndex, else from the window. */
  function SubListSpec(c: CacheState, startIndex: int, maxCount: int, capacity: nat): ReadOutcome<seq<Row>>
  {
    if |c.rows| - startIndex > capacity then
      ReadOutcome(Ok(SAS.SubListSpec(c.rows, startIndex, maxCount)), c)
    else
      var c' := Reloaded(c, startIndex);
      match c'.window
      case None => ReadOutcome(Err(NullPointer), c')
      case Some(w) =>
        var startIncl := startIndex - c'.lastStartIndex;
        var endExcl := Min(|w|, startIncl + maxCount);
        if startIncl >= endExcl then ReadOutcome(Err(IllegalState), c')
        else if startIncl < 0 then ReadOutcome(Err(IndexOutOfBounds), c')
        else ReadOutcome(Ok(w[startIncl..endExcl]), c')
  }

  /** Reading the store from a start inside it up to its size is the store's tail. */
  lemma StoreTail(rows: seq<Row>, lo: int)
    requires 0 <= lo <= |rows|
    ensures SAS.SubListSpec(rows, lo, |rows|) == rows[lo..]
  {
  }

  /** Adds keep the window a tail of the store, bounded by capacity + step. */
  lemma AppendedKeepsValid(c: CacheState, xs: seq<Row>, capacity: nat, step: nat)
    requires Valid(c)
    ensures Valid(Appended(c, xs, capacity, step))
    ensures c.window.Some? ==> var w := Appended(c, xs, capacity, step).window.value;
                               |w| <= capacity || |w| < capacity + step
  {
    if c.window.Some? {
      assert (c.rows + xs)[c.lastStartIndex..] == c.rows[c.lastStartIndex..] + xs;
      var grown := CacheState(c.rows + xs, c.lastStartIndex, Some(c.window.value + xs));
      var delta := |grown.window.value| - capacity;
      if delta >= step {
        assert grown.window.value[delta..] == (c.rows + xs)[c.lastStartIndex + delta..];
      }
    }
  }

  /** With the corrected reload, get(index) is the store's row at index, or IndexOutOfBoundsException outside it. */
  lemma GetCorrect(c: CacheState, index: int)
    requires Valid(c)
    ensures var o := GetSpec(c, index);
            && Valid(o.cache) && o.cache.rows == c.rows
            && o.result == (if 0 <= index < |c.rows| then Ok(c.rows[index]) else Err(IndexOutOfBounds))
  {
    var c' := Reloaded(c, index);
    var w := c'.window.value;
    assert w == c.rows[c'.lastStartIndex..];
    if 0 <= index < |c.rows| {
      assert w[index - c'.lastStartIndex] == c.rows[index];
    }
  }

  /** With the corrected reload, subList(startIndex, maxCount) inside the store is the store's rows from startIndex, at most maxCount of them, by either path. */
  lemma SubListCorrect(c: CacheState, startIndex: int, maxCount: int, capacity: nat)
    requires Valid(c)
    ensures var o := SubListSpec(c, startIndex, maxCount, capacity);
            && Valid(o.cache) && o.cache.rows == c.rows
            && (0 <= startIndex < |c.rows| && maxCount >= 1 ==>
                  o.result == Ok(c.rows[startIndex..Min(startIndex + maxCount, |c.rows|)]))
            && (startIndex >= |c.rows| ==> o.result == Err(IllegalState))
            && (0 <= startIndex && maxCount <= 0 && |c.rows| - startIndex <= capacity ==>
                  o.result == Err(IllegalState))
  {
    var n := |c.rows|;
    if n - startIndex <= capacity {
      var c' := Reloaded(c, startIndex);
      var w := c'.window.value;
      assert w == c.rows[c'.lastStartIndex..];
      if 0 <= startIndex < n && maxCount >= 1 {
        var hi := Min(startIndex + maxCount, n);
        assert w[startIndex - c'.lastStartIndex..hi - c'.lastStartIndex] == c.rows[startIndex..hi];
      }
    } else if 0 <= startIndex < n && maxCount >= 1 {
      SAS.SubListWindow(c.rows, startIndex, maxCount);
    }
  }

  /** get() is subList(0, 1): the first row of a non-empty store, IllegalStateException on an empty one. */
  lemma FirstRow(c: CacheState, capacity: nat)
    requires Valid(c)
    ensures |c.rows| > 0 ==> SubListSpec(c, 0, 1, capacity).result == Ok([c.rows[0]])
    ensures |c.rows| == 0 ==> SubListSpec(c, 0, 1, capacity).result == Err(IllegalState)
  {
    SubListCorrect(c, 0, 1, capacity);
    if |c.rows| > 0 {
      assert c.rows[0..1] == [c.rows[0]];
    }
  }

  /**
   * As written, get(7) on five rows after clearCache moves the window past the
   * end of the store; three more rows later, get(7) returns the row at index 5.
   */
  lemma ReloadPastEndAsWritten(rows: seq<Row>, x5: Row, x6: Row, x7: Row)
    requires |rows| == 5 && x5 != x7
    ensures var c0 := Invalidated(CacheState(rows, 0, Some(rows)));
            var o1 := GetAsWritten(c0, 7);
            var c2 := Appended(o1.cache, [x5, x6, x7], 10, 1);
            var o3 := GetAsWritten(c2, 7);
            && o1.result == Err(IndexOutOfBounds)
            && c2.rows[7] == x7
            && o3.result == Ok(x5)
            && o3.result != Ok(c2.rows[7])
  {
    var c0 := Invalidated(CacheState(rows, 0, Some(rows)));
    var c1 := GetAsWritten(c0, 7).cache;
    assert c1 == CacheState(rows, 7, Some([]));
    assert [] + [x5, x6, x7] == [x5, x6, x7];
    var c2 := Appended(c1, [x5, x6, x7], 10, 1);
    assert c2 == CacheState(rows + [x5, x6, x7], 7, Some([x5, x6, x7]));
  }

  /** As written, get(-1) on a fresh cache reloads from -1 and returns the first row instead of failing. */
  lemma NegativeGetAsWritten(rows: seq<Row>)
    requires |rows| > 0
    ensures GetAsWritten(CacheState(rows, 0, Some(rows)), -1).result == Ok(rows[0])
    ensures GetSpec(CacheState(rows, 0, Some(rows)), -1).result == Err(IndexOutOfBounds)
  {
    GetCorrect(CacheState(rows, 0, Some(rows)), -1);
  }

  /** Corrected, the same steps as in ReloadPastEndAsWritten end with get(7) returning the row at index 7. */
  lemma ReloadPastEndCorrected(rows: seq<Row>, x5: Row, x6: Row, x7: Row)
    requires |rows| == 5
    ensures var c0 := Invalidated(CacheState(rows, 0, Some(rows)));
            var o1 := GetSpec(c0, 7);
            var c2 := Appended(o1.cache, [x5, x6, x7], 10, 1);
            && o1.result == Err(IndexOutOfBounds)
            && GetSpec(c2, 7).result == Ok(x7)
  {
    var c0 := Invalidated(CacheState(rows, 0, Some(rows)));
    GetCorrect(c0, 7);
    var c1 := GetSpec(c0, 7).cache;
    AppendedKeepsValid(c1, [x5, x6, x7], 10, 1);
    var c2 := Appended(c1, [x5, x6, x7], 10, 1);
    GetCorrect(c2, 7);
    assert c2.rows[7] == x7;
  }

  class StringArrayCache {
    const step: nat
    const cacheCapacity: nat
    const stringArrayStore: SAS.StringArrayStore
    var lastStartIndex: int
    var lastSubList: Option<seq<Row>>

    ghost predicate Valid()
      reads this, stringArrayStore
    {
      stringArrayStore.Valid()
    }

    function State(): CacheState
      reads this, stringArrayStore
    {
      CacheState(stringArrayStore.rows, lastStartIndex, lastSubList)
    }

    constructor (id: string, cacheCapacity: nat, step: nat)
      ensures Valid() && fresh(stringArrayStore)
      ensures State() == CacheState([], 0, Some([]))
      ensures this.cacheCapacity == cacheCapacity && this.step == step
    {
      this.cacheCapacity := cacheCapacity;
      this.step := step;
      stringArrayStore := new SAS.StringArrayStore(id);
      lastStartIndex := 0;
      lastSubList := Some([]);
    }

    method GetCachedSize() returns (r: Result<nat>)
      ensures r == (if lastSubList.Some? then Ok(|lastSubList.value|) else Err(NullPointer))
    {
      if lastSubList.None? {
        return Err(NullPointer);
      }
      return Ok(|lastSubList.value|);
    }

    method ClearCache()
      modifies this
      ensures State() == Invalidated(old(State()))
    {
      lastStartIndex := -1;
      lastSubList := None;
    }

    method Evict()
      requires lastSubList.Some?
      modifies this
      ensures State() == Evicted(old(State()), cacheCapacity, step)
    {
      var w := lastSubList.value;
      var delta := |w| - cacheCapacity;
      if delta >= step {
        lastSubList := Some(w[delta..]);
        lastStartIndex := lastStartIndex + delta;
      }
    }

    /** add(Collection): the store's addAll, then the window's; no window throws NullPointerException. */
    method AddAll(strings: seq<Row>) returns (thrown: Option<Exception>)
      requires Valid()
      modifies this, stringArrayStore
      ensures Valid() && State() == Appended(old(State()), strings, cacheCapacity, step)
      ensures thrown == AddThrows(old(State()))
    {
      var _ := stringArrayStore.AddAll(strings);
      if lastSubList.None? {
        return Some(NullPointer);
      }
      lastSubList := Some(lastSubList.value + strings);
      Evict();
      return None;
    }

    /** add(String[]): one row to the store, then to the window; no window throws NullPointerException. */
    method Add(strings: Row) returns (thrown: Option<Exception>)
      requires Valid()
      modifies this, stringArrayStore
      ensures Valid() && State() == Appended(old(State()), [strings], cacheCapacity, step)
      ensures thrown == AddThrows(old(State()))
    {
      var _ := stringArrayStore.Add(strings);
      if lastSubList.None? {
        return Some(NullPointer);
      }
      lastSubList := Some(lastSubList.value + [strings]);
      Evict();
      return None;
    }

    method ReloadCache(startIndex: int)
      requires Valid()
      modifies this
      ensures State() == Reloaded(old(State()), startIndex)
    {
      if lastStartIndex >= 0 && lastStartIndex <= startIndex {
        return;
      }
      var n := stringArrayStore.Size();
      lastStartIndex := Min(Max(startIndex, 0), n);
      var w := stringArrayStore.SubList(lastStartIndex, n);
      StoreTail(stringArrayStore.rows, lastStartIndex);
      lastSubList := Some(w);
    }

    method Get(index: int) returns (r: Result<Row>)
      requires Valid()
      modifies this
      ensures ReadOutcome(r, State()) == GetSpec(old(State()), index)
    {
      ReloadCache(index);
      if lastSubList.None? {
        return Err(NullPointer);
      }
      var k := index - lastStartIndex;
      if 0 <= k < |lastSubList.value| {
        r := Ok(lastSubList.value[k]);
      } else {
        r := Err(IndexOutOfBounds);
      }
    }

    method SubList(startIndex: int, maxCount: int) returns (r: Result<seq<Row>>)
      requires Valid()
      modifies this
      ensures ReadOutcome(r, State()) == SubListSpec(old(State()), startIndex, maxCount, cacheCapacity)
    {
      var n := stringArrayStore.Size();
      if n - startIndex > cacheCapacity {
        var rows := stringArrayStore.SubList(startIndex, maxCount);
        return Ok(rows);
      }
      ReloadCache(startIndex);
      if lastSubList.None? {
        return Err(NullPointer);
      }
      var startIncl := startIndex - lastStartIndex;
      var endExcl := Min(|lastSubList.value|, startIncl + maxCount);
      if startIncl >= endExcl {
        return Err(IllegalState);
      }
      if startIncl < 0 {
        return Err(IndexOutOfBounds);
      }
      r := Ok(lastSubList.value[startIncl..endExcl]);
    }

    /** get(): subList(0, 1). */
    method GetFirst() returns (r: Result<seq<Row>>)
      requires Valid()
      modifies this
      ensures ReadOutcome(r, State()) == SubListSpec(old(State()), 0, 1, cacheCapacity)
    {
      r := SubList(0, 1);
    }

    method Size() returns (n: int)
      requires Valid()
      ensures n == |stringArrayStore.rows|
    {
      n := stringArrayStore.Size();
    }
  }

  /** Rows added to a fresh cache are read back by index from the window. */
  method AddAndRead(batch: seq<Row>, capacity: nat, step: nat, index: int) returns (r: Result<Row>)
    ensures r == (if 0 <= index < |batch| then Ok(batch[index]) else Err(IndexOutOfBounds))
  {
    var cache := new StringArrayCache("rows", capacity, step);
    AppendedKeepsValid(cache.State(), batch, capacity, step);
    var _ := cache.AddAll(batch);
    GetCorrect(cache.State(), index);
    r := cache.Get(index);
  }
}
