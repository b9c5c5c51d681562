/**
 * StringArraySimple: the in-memory row list, a LinkedList of String[] that
 * is appended in place and read with java.util.List's bounds checks.
 */
module StringArraySimple {
  import opened Wrappers

  type Row = seq<string>

  /** List.get(index): the row, or IndexOutOfBoundsException outside [0, size). */
  function GetOf(list: seq<Row>, index: int): (r: Result<Row>)
    ensures r.Ok? <==> 0 <= index < |list|
    ensures r.Err? ==> r.error == IndexOutOfBounds
  {
    if 0 <= index < |list| then Ok(list[index]) else Err(IndexOutOfBounds)
  }

  /**
   * List.subList(startIndex, startIndex + maxCount): IndexOutOfBoundsException
   * for a negative start or an end past the size, IllegalArgumentException
   * for an end before the start.
   */
  function SubListOf(list: seq<Row>, startIndex: int, maxCount: int): (r: Result<seq<Row>>)
    ensures r.Ok? <==> 0 <= startIndex && 0 <= maxCount && startIndex + maxCount <= |list|
    ensures r.Ok? ==> |r.value| == maxCount
  {
    var toIndex := startIndex + maxCount;
    if startIndex < 0 then Err(IndexOutOfBounds)
    else if toIndex > |list| then Err(IndexOutOfBounds)
    else if startIndex > toIndex then Err(IllegalArgument)
    else Ok(list[startIndex..toIndex])
  }

  /** Every row of a successful subList is the row get returns at the same position. */
  lemma SubListAgreesWithGet(list: seq<Row>, startIndex: int, maxCount: int)
    requires SubListOf(list, startIndex, maxCount).Ok?
    ensures forall k :: 0 <= k < maxCount ==>
              GetOf(list, startIndex + k) == Ok(SubListOf(list, startIndex, maxCount).value[k])
  {
  }

  /** A range that does not fit fails with the exception java.util.List picks. */
  lemma SubListErrors(list: seq<Row>, startIndex: int, maxCount: int)
    ensures startIndex < 0 ==> SubListOf(list, startIndex, maxCount) == Err(IndexOutOfBounds)
    ensures startIndex >= 0 && startIndex + maxCount > |list| ==>
              SubListOf(list, startIndex, maxCount) == Err(IndexOutOfBounds)
    ensures startIndex >= 0 && maxCount < 0 && startIndex + maxCount <= |list| ==> SubListOf(list, startIndex, maxCount) == Err(IllegalArgument)
  {
  }

  class StringArraySimple {
    var list: seq<Row>

    constructor ()
      ensures list == []
    {
      list := [];
    }

    /** add(Collection): appends every row, in order. */
    method AddAll(strings: seq<Row>)
      modifies this
      ensures list == old(list) + strings
    {
      list := list + strings;
    }

    /** add(String[]): appends one row. */
    method Add(strings: Row)
      modifies this
      ensures list == old(list) + [strings]
    {
      list := list + [strings];
    }

    method Get(index: int) returns (r: Result<Row>)
      ensures r == GetOf(list, index)
    {
      if 0 <= index < |list| {
        r := Ok(list[index]);
      } else {
        r := Err(IndexOutOfBounds);
      }
    }

    method SubList(startIndex: int, maxCount: int) returns (r: Result<seq<Row>>)
      ensures r == SubListOf(list, startIndex, maxCount)
    {
      var toIndex := startIndex + maxCount;
      if startIndex < 0 || toIndex > |list| {
        r := Err(IndexOutOfBounds);
      } else if startIndex > toIndex {
        r := Err(IllegalArgument);
      } else {
        r := Ok(list[startIndex..toIndex]);
      }
    }

    /** get(): every row, in insertion order. */
    method GetAll() returns (r: seq<Row>)
      ensures r == list
    {
      r := list;
    }

    method Size() returns (n: int)
      ensures n == |list|
    {
      n := |list|;
    }
  }

  /** Rows added in a batch and one by one are read back by index in the order they were added. */
  method SimpleScenario(batch: seq<Row>, single: Row) returns (all: seq<Row>, first: Result<Row>, last: Result<Row>, n: int)
    requires |batch| > 0
    ensures all == batch + [single]
    ensures first == Ok(batch[0]) && last == Ok(single)
    ensures n == |batch| + 1
  {
    var s := new StringArraySimple();
    s.AddAll(batch);
    s.Add(single);
    all := s.GetAll();
    first := s.Get(0);
    last := s.Get(|batch|);
    n := s.Size();
  }
}
