/**
 * StringArrayStore: rows of strings appended to a temporary file and read
 * back by scanning it. The file is modelled as the sequence of rows it
 * holds once every pending write has completed; `size` is the separate
 * counter the store keeps.
 */
module StringArrayStore {
  import opened Wrappers

  /** One stored row (a String[]). */
  type Row = seq<string>

  function Max(a: int, b: int): int { if a >= b then a else b }
  function Min(a: int, b: int): int { if a <= b then a else b }

  /**
   * What subList(startIndex, maxCount) collects: rows from max(startIndex, 0)
   * up to, not including, the index where the scan stops, which is
   * startIndex + maxCount but never before the first row is read.
   */
  function SubListSpec(rows: seq<Row>, startIndex: int, maxCount: int): (r: seq<Row>)
    ensures |r| <= |rows|
  {
    var lo := Max(startIndex, 0);
    var hi := Min(Max(startIndex + maxCount, 1), |rows|);
    if lo >= hi then [] else rows[lo..hi]
  }

  /** With a positive count, subList is the rows from startIndex, at most maxCount of them. */
  lemma SubListWindow(rows: seq<Row>, startIndex: nat, maxCount: int)
    requires maxCount >= 1
    ensures var r := SubListSpec(rows, startIndex, maxCount);
            && |r| == Max(0, Min(startIndex + maxCount, |rows|) - startIndex)
            && forall k :: 0 <= k < |r| ==> r[k] == rows[startIndex + k]
  {
  }

  /** A count of zero or less still returns the first row of a non-empty store, because the bound test follows the add. */
  lemma SubListZeroCount(rows: seq<Row>, maxCount: int)
    requires |rows| > 0 && maxCount <= 0
    ensures SubListSpec(rows, 0, maxCount) == [rows[0]]
  {
  }

  /** A start past the last row gives nothing. */
  lemma SubListPastEnd(rows: seq<Row>, startIndex: int, maxCount: int)
    requires startIndex >= |rows|
    ensures SubListSpec(rows, startIndex, maxCount) == []
  {
  }

  class StringArrayStore {
    const id: string
    /** The rows in the file, in the order they were appended. */
    var rows: seq<Row>
    /** The size counter. */
    var size: int

    ghost predicate Valid()
      reads this
    {
      size == |rows|
    }

    constructor (id: string)
      ensures Valid() && rows == [] && this.id == id
    {
      this.id := id;
      rows := [];
      size := 0;
    }

    /** addAll: appends the rows, writing only when there are some, and adds their number to the size. */
    method AddAll(strings: seq<Row>) returns (b: bool)
      requires Valid()
      modifies this
      ensures Valid() && rows == old(rows) + strings && size == old(size) + |strings| && b
    {
      if |strings| > 0 {
        rows := rows + strings;
      }
      size := size + |strings|;
      return true;
    }

    /** add: one more row and one more in the size. */
    method Add(strings: Row) returns (b: bool)
      requires Valid()
      modifies this
      ensures Valid() && rows == old(rows) + [strings] && size == old(size) + 1 && b
    {
      size := size + 1;
      rows := rows + [strings];
      return true;
    }

    /** get(index): scans the file for the index-th row; a scan that runs out throws IndexOutOfBoundsException. */
    method Get(index: int) returns (r: Result<Row>)
      ensures 0 <= index < |rows| ==> r == Ok(rows[index])
      ensures !(0 <= index < |rows|) ==> r == Err(IndexOutOfBounds)
    {
      var i := 0;
      while i < |rows|
        invariant 0 <= i <= |rows|
        invariant index < 0 || index >= i
      {
        if i == index {
          return Ok(rows[i]);
        }
        i := i + 1;
      }
      return Err(IndexOutOfBounds);
    }

    /** subList(startIndex, maxCount): the scan that collects rows from startIndex and stops once startIndex + maxCount rows are read. */
    method SubList(startIndex: int, maxCount: int) returns (ret: seq<Row>)
      ensures ret == SubListSpec(rows, startIndex, maxCount)
    {
      ret := [];
      var index := 0;
      while index < |rows|
        invariant 0 <= index <= |rows|
        invariant ret == (if Max(startIndex, 0) >= index then [] else rows[Max(startIndex, 0)..index])
        invariant index == 0 || index < startIndex + maxCount
      {
        var data := rows[index];
        if index >= startIndex {
          ret := ret + [data];
        }
        index := index + 1;
        if index >= startIndex + maxCount {
          break;
        }
      }
    }

    /** get(): every row, in insertion order. */
    method GetAll() returns (r: seq<Row>)
      ensures r == rows
    {
      r := rows;
    }

    method Size() returns (n: int)
      requires Valid()
      ensures n == |rows|
    {
      n := size;
    }

    /** clear: a new empty file and a zero size. */
    method Clear()
      modifies this
      ensures Valid() && rows == []
    {
      rows := [];
      size := 0;
    }
  }

  /** Rows added one by one and in batches come back from get() and get(index) in insertion order. */
  method StoreScenario(batch: seq<Row>, single: Row) returns (all: seq<Row>, last: Result<Row>, count: int)
    ensures all == batch + [single]
    ensures last == Ok(single)
    ensures count == |batch| + 1
  {
    var store := new StringArrayStore("scenario");
    var _ := store.AddAll(batch);
    var _ := store.Add(single);
    all := store.GetAll();
    last := store.Get(|batch|);
    count := store.Size();
  }
}
