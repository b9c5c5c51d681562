/**
 * CachedList: a list kept in a backing store, with a sliding window of its
 * most recent entries held in memory. The window is `lastSubList` and starts
 * at store index `lastStartIndex`; -1 marks the window as invalid.
 *
 * The backing store is modelled as the sequence of its entries.
 * The window update on add is modelled in two versions: as written, and
 * corrected so that adds leave an invalid window alone (see `AppendedAsWritten`).
 */
module CachedList {
  import opened Wrappers

  function Max(a: int, b: int): int { if a >= b then a else b }
  function Min(a: int, b: int): int { if a <= b then a else b }

  /** The fields that change: the store's entries, lastStartIndex and lastSubList. */
  datatype Cache<T> = Cache(store: seq<T>, lastStartIndex: int, window: seq<T>)

  /** The window mirrors the tail of the store from lastStartIndex, or is marked invalid and empty. */
  ghost predicate Valid<T>(c: Cache<T>)
  {
    if c.lastStartIndex >= 0 then
      c.lastStartIndex <= |c.store| && c.window == c.store[c.lastStartIndex..]
    else
      c.lastStartIndex == -1 && c.window == []
  }

  /** After every add the window holds at most capacity entries, or fewer than capacity + step. */
  ghost predicate Bounded<T>(c: Cache<T>, capacity: nat, step: nat)
  {
    |c.window| <= capacity || |c.window| < capacity + step
  }

  /** evict: drop the max(window - capacity, 0) oldest entries when that is at least step. */
  function Evicted<T>(c: Cache<T>, capacity: nat, step: nat): (r: Cache<T>)
    ensures r.store == c.store
    ensures Bounded(r, capacity, step)
    ensures |r.window| <= |c.window|
  {
    var delta := Max(|c.window| - capacity, 0);
    if delta >= step then
      c.(window := c.window[delta..], lastStartIndex := c.lastStartIndex + delta)
    else c
  }

  /** add/addAll as written: the entries go to the store and to the window, then evict. */
  function AppendedAsWritten<T>(c: Cache<T>, xs: seq<T>, capacity: nat, step: nat): (r: Cache<T>)
    ensures r.store == c.store + xs
  {
    Evicted(c.(store := c.store + xs, window := c.window + xs), capacity, step)
  }

  /** add/addAll, corrected: an invalid window stays invalid until the next reload. */
  function Appended<T>(c: Cache<T>, xs: seq<T>, capacity: nat, step: nat): (r: Cache<T>)
    ensures r.store == c.store + xs
    ensures c.lastStartIndex < 0 ==> r.lastStartIndex == c.lastStartIndex && r.window == c.window
  {
    if c.lastStartIndex >= 0 then AppendedAsWritten(c, xs, capacity, step)
    else c.(store := c.store + xs)
  }

  /** clearCache: the window is marked invalid. */
  function Invalidated<T>(c: Cache<T>): (r: Cache<T>)
    ensures Valid(r) && r.store == c.store && r.lastStartIndex < 0
  {
    c.(lastStartIndex := -1, window := [])
  }

  /** reloadCacheIfRequired: keep a window that starts in range and at most capacity from the end, else reload the last capacity entries. */
  function Reloaded<T>(c: Cache<T>, capacity: nat): (r: Cache<T>)
    ensures Valid(c) ==> Valid(r)
    ensures r.store == c.store
    ensures 0 <= r.lastStartIndex <= Max(|c.store| - capacity, 0)
    ensures c.lastStartIndex >= 0 && c.lastStartIndex <= |c.store| - capacity ==> r == c
  {
    if c.lastStartIndex >= 0 && c.lastStartIndex <= |c.store| - capacity then c
    else
      var lsi := Max(|c.store| - capacity, 0);
      c.(lastStartIndex := lsi, window := c.store[lsi..])
  }

  /** get(index): the entry the backing store holds at index; a read past the end fails. */
  function GetOf<T>(store: seq<T>, index: int): (r: Result<T>)
    ensures r.Ok? <==> 0 <= index < |store|
  {
    if 0 <= index < |store| then Ok(store[index]) else Err(Runtime)
  }

  /** The result of subList and the cache it leaves behind. */
  datatype SubListOutcome<T> = SubListOutcome(result: Result<seq<T>>, cache: Cache<T>)

  /** subList(startIndex, toIndex) as the source computes it. */
  function SubListSpec<T>(c: Cache<T>, startIndex: int, toIndex: int, capacity: nat): SubListOutcome<T>
  {
    var size := |c.store|;
    if toIndex < startIndex then SubListOutcome(Err(IllegalArgument), c)
    else if startIndex >= size then SubListOutcome(Ok([]), c)
    else
      var to := Min(size, toIndex);
      if size - startIndex > capacity then
        // straight from the backing store
        if startIndex < 0 then SubListOutcome(Err(IndexOutOfBounds), c)
        else SubListOutcome(Ok(c.store[startIndex..to]), c)
      else
        var c' := Reloaded(c, capacity);
        var startIncl := startIndex - c'.lastStartIndex;
        var endExcl := Min(|c'.window|, startIncl + to - startIndex);
        if startIncl >= endExcl then SubListOutcome(Err(IllegalState), c')
        else if startIncl < 0 then SubListOutcome(Err(IndexOutOfBounds), c')
        else SubListOutcome(Ok(c'.window[startIncl..endExcl]), c')
  }

  /** clear: empty store, empty window, start index 0. */
  function Cleared<T>(c: Cache<T>): (r: Cache<T>)
    ensures Valid(r) && r.store == []
  {
    Cache([], 0, [])
  }

  /** Eviction keeps the window a tail of the store. */
  lemma EvictKeepsValid<T>(c: Cache<T>, capacity: nat, step: nat)
    requires Valid(c) && c.lastStartIndex >= 0
    ensures Valid(Evicted(c, capacity, step))
  {
    var delta := Max(|c.window| - capacity, 0);
    if delta >= step {
      assert c.store[c.lastStartIndex..][delta..] == c.store[c.lastStartIndex + delta..];
    }
  }

  /** The corrected add keeps the window a tail of the store and keeps it bounded. */
  lemma AddAllKeepsValid<T>(c: Cache<T>, xs: seq<T>, capacity: nat, step: nat)
    requires Valid(c)
    ensures Valid(Appended(c, xs, capacity, step))
    ensures c.lastStartIndex >= 0 ==> Bounded(Appended(c, xs, capacity, step), capacity, step)
  {
    if c.lastStartIndex >= 0 {
      var grown := c.(store := c.store + xs, window := c.window + xs);
      assert (c.store + xs)[c.lastStartIndex..] == c.store[c.lastStartIndex..] + xs;
      assert Valid(grown);
      EvictKeepsValid(grown, capacity, step);
    }
  }

  /** Every add ends with a window below capacity + step, as written or corrected. */
  lemma AddAllBounded<T>(c: Cache<T>, xs: seq<T>, capacity: nat, step: nat)
    requires Valid(c)
    ensures Bounded(AppendedAsWritten(c, xs, capacity, step), capacity, step)
    ensures Bounded(Appended(c, xs, capacity, step), capacity, step)
  {
  }

  /** subList through a valid cache returns exactly the requested slice of the store, or the exception the source throws. */
  lemma SubListCorrect<T>(c: Cache<T>, startIndex: int, toIndex: int, capacity: nat)
    requires Valid(c)
    ensures var o := SubListSpec(c, startIndex, toIndex, capacity);
            && Valid(o.cache) && o.cache.store == c.store
            && (toIndex < startIndex ==> o.result == Err(IllegalArgument))
            && (toIndex >= startIndex >= |c.store| ==> o.result == Ok([]))
            && (0 <= startIndex < |c.store| && toIndex > startIndex ==>
                  o.result == Ok(c.store[startIndex..Min(toIndex, |c.store|)]))
            && (0 <= startIndex < |c.store| && toIndex == startIndex ==>
                  o.result == (if |c.store| - startIndex > capacity then Ok([]) else Err(IllegalState)))
  {
    var size := |c.store|;
    if startIndex <= toIndex && 0 <= startIndex < size && size - startIndex <= capacity {
      var c' := Reloaded(c, capacity);
      var lsi := c'.lastStartIndex;
      assert lsi <= startIndex;
      var to := Min(size, toIndex);
      assert c'.window == c.store[lsi..];
      assert Min(|c'.window|, startIndex - lsi + to - startIndex) == to - lsi;
      if to > startIndex {
        assert c'.window[startIndex - lsi..to - lsi] == c.store[startIndex..to];
      }
    }
  }

  /** The window is written back only by reload, add and clear: subList reads never disturb the store. */
  lemma SubListKeepsStore<T>(c: Cache<T>, startIndex: int, toIndex: int, capacity: nat)
    requires Valid(c)
    ensures SubListSpec(c, startIndex, toIndex, capacity).cache.store == c.store
  {
    SubListCorrect(c, startIndex, toIndex, capacity);
  }

  /** As written, entries added after clearCache go into a window that no longer matches the store, and subList(1, 2) returns the wrong entry. */
  lemma AddAfterClearCacheAsWritten()
    ensures var c0 := Invalidated(Cache([], 0, []));
            var c1 := AppendedAsWritten(AppendedAsWritten(AppendedAsWritten(c0, [10], 2, 1), [11], 2, 1), [12], 2, 1);
            && c1.store == [10, 11, 12]
            && !Valid(c1)
            && SubListSpec(c1, 1, 2, 2).result == Ok([12])
            && c1.store[1..2] == [11]
  {
    var c0 := Invalidated(Cache([], 0, []));
    var c1 := AppendedAsWritten(AppendedAsWritten(AppendedAsWritten(c0, [10], 2, 1), [11], 2, 1), [12], 2, 1);
    assert c1 == Cache([10, 11, 12], 0, [11, 12]);
    assert c1.store[0..] == [10, 11, 12];
    var c := Cache([10, 11, 12], 0, [11, 12]);
    assert Reloaded(c, 2) == c;
    assert c.window[1..2] == [12];
  }

  /** Corrected, the same adds leave the window invalid and subList(1, 2) reloads and returns the entry at index 1. */
  lemma AddAfterClearCacheCorrected()
    ensures var c0 := Invalidated(Cache([], 0, []));
            var c1 := Appended(Appended(Appended(c0, [10], 2, 1), [11], 2, 1), [12], 2, 1);
            && Valid(c1)
            && SubListSpec(c1, 1, 2, 2).result == Ok([11])
  {
    var c0 := Invalidated(Cache([], 0, []));
    var c1 := Appended(Appended(Appended(c0, [10], 2, 1), [11], 2, 1), [12], 2, 1);
    AddAllKeepsValid(c0, [10], 2, 1);
    AddAllKeepsValid(Appended(c0, [10], 2, 1), [11], 2, 1);
    AddAllKeepsValid(Appended(Appended(c0, [10], 2, 1), [11], 2, 1), [12], 2, 1);
    assert c1.store == [10, 11, 12];
    SubListCorrect(c1, 1, 2, 2);
    assert c1.store[1..2] == [11];
  }

  class CachedList<T> {
    const step: nat
    const cacheCapacity: nat
    /** The backing store's entries. */
    var store: seq<T>
    var lastStartIndex: int
    var lastSubList: seq<T>

    function State(): Cache<T>
      reads this
    {
      Cache(store, lastStartIndex, lastSubList)
    }

    constructor (cacheCapacity: nat, step: nat)
      ensures State() == Cache([], 0, []) && Valid(State())
      ensures this.cacheCapacity == cacheCapacity && this.step == step
    {
      this.cacheCapacity := cacheCapacity;
      this.step := step;
      store := [];
      lastStartIndex := 0;
      lastSubList := [];
    }

    method GetCachedSize() returns (n: nat)
      ensures n == |lastSubList|
    {
      n := |lastSubList|;
    }

    method ClearCache()
      modifies this
      ensures State() == Invalidated(old(State()))
    {
      lastStartIndex := -1;
      lastSubList := [];
    }

    method Evict()
      modifies this
      ensures State() == Evicted(old(State()), cacheCapacity, step)
    {
      var delta := Max(|lastSubList| - cacheCapacity, 0);
      if delta >= step {
        lastSubList := lastSubList[delta..];
        lastStartIndex := lastStartIndex + delta;
      }
    }

    /** addAll: append to the store and, while the window is valid, to the window; then evict. */
    method AddAll(strings: seq<T>) returns (b: bool)
      modifies this
      ensures State() == Appended(old(State()), strings, cacheCapacity, step) && b
    {
      store := store + strings;
      if lastStartIndex >= 0 {
        lastSubList := lastSubList + strings;
        Evict();
      }
      return true;
    }

    /** add: addAll of a single entry. */
    method Add(x: T) returns (b: bool)
      modifies this
      ensures State() == Appended(old(State()), [x], cacheCapacity, step) && b
    {
      store := store + [x];
      if lastStartIndex >= 0 {
        lastSubList := lastSubList + [x];
        Evict();
      }
      return true;
    }

    method ReloadCacheIfRequired()
      modifies this
      ensures State() == Reloaded(old(State()), cacheCapacity)
    {
      if lastStartIndex >= 0 && lastStartIndex <= |store| - cacheCapacity {
        return;
      }
      lastStartIndex := Max(|store| - cacheCapacity, 0);
      lastSubList := store[lastStartIndex..];
    }

    /** get(index): read through to the store; the cache fields are untouched. */
    method Get(index: int) returns (r: Result<T>)
      ensures r == GetOf(store, index)
    {
      if 0 <= index < |store| {
        r := Ok(store[index]);
      } else {
        r := Err(Runtime);
      }
    }

    method SubList(startIndex: int, toIndex: int) returns (r: Result<seq<T>>)
      modifies this
      ensures SubListOutcome(r, State()) == SubListSpec(old(State()), startIndex, toIndex, cacheCapacity)
    {
      if toIndex < startIndex {
        return Err(IllegalArgument);
      }
      if startIndex >= |store| {
        return Ok([]);
      }
      var to := Min(|store|, toIndex);
      if |store| - startIndex > cacheCapacity {
        if startIndex < 0 {
          return Err(IndexOutOfBounds);
        }
        return Ok(store[startIndex..to]);
      }
      ReloadCacheIfRequired();
      var startIncl := startIndex - lastStartIndex;
      var endExcl := Min(|lastSubList|, startIncl + to - startIndex);
      if startIncl >= endExcl {
        return Err(IllegalState);
      }
      if startIncl < 0 {
        return Err(IndexOutOfBounds);
      }
      r := Ok(lastSubList[startIncl..endExcl]);
    }

    method Size() returns (n: nat)
      ensures n == |store|
    {
      n := |store|;
    }

    method Clear()
      modifies this
      ensures State() == Cleared(old(State()))
    {
      store := [];
      lastSubList := [];
      lastStartIndex := 0;
    }
  }

  /** A cache filled one entry at a time answers every in-range subList with the store's own slice. */
  method FillAndRead<T>(xs: seq<T>, capacity: nat, step: nat, startIndex: int, toIndex: int)
    returns (r: Result<seq<T>>)
    requires 0 <= startIndex < toIndex && startIndex < |xs|
    ensures r == Ok(xs[startIndex..Min(toIndex, |xs|)])
  {
    var cl := new CachedList(capacity, step);
    var i := 0;
    while i < |xs|
      invariant 0 <= i <= |xs|
      invariant cl.store == xs[..i] && Valid(cl.State())
      invariant cl.cacheCapacity == capacity && cl.step == step
    {
      AddAllKeepsValid(cl.State(), [xs[i]], capacity, step);
      var _ := cl.Add(xs[i]);
      assert xs[..i + 1] == xs[..i] + [xs[i]];
      i := i + 1;
    }
    assert xs[..i] == xs;
    SubListCorrect(cl.State(), startIndex, toIndex, capacity);
    r := cl.SubList(startIndex, toIndex);
  }
}
