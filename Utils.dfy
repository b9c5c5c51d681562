/** Utils.valOrNull, Utils.convert and Utils.slice. */
module Utils {
  import opened Wrappers
  import opened Arith

  /** valOrNull: null and "" become null, anything else is returned as is. */
  function ValOrNull(val: Option<string>): (r: Option<string>)
    ensures r.None? <==> val.None? || val == Some("")
    ensures r.Some? ==> r == val
  {
    if val.None? || val.value == "" then None else val
  }

  /**
   * convert(rcs, converter, startFrom): the elements the returned iterable
   * yields. The first startFrom elements are skipped by a counting loop
   * (none when startFrom <= 0, all when there are fewer), and the converter
   * is applied to each remaining one in order.
   */
  method Convert<T, R>(rcs: seq<T>, converter: T -> R, startFrom: int) returns (r: seq<R>)
    ensures startFrom <= 0 ==> |r| == |rcs| && forall i :: 0 <= i < |r| ==> r[i] == converter(rcs[i])
    ensures 0 <= startFrom <= |rcs| ==>
              |r| == |rcs| - startFrom && forall i :: 0 <= i < |r| ==> r[i] == converter(rcs[startFrom + i])
    ensures startFrom >= |rcs| ==> r == []
  {
    var index := 0;
    var pos := 0;
    while index < startFrom && pos < |rcs|
      invariant 0 <= index == pos <= |rcs|
      invariant index <= startFrom || index == 0
    {
      pos := pos + 1;
      index := index + 1;
    }
    r := [];
    var skipped := pos;
    while pos < |rcs|
      invariant skipped <= pos <= |rcs| && |r| == pos - skipped
      invariant forall i :: 0 <= i < |r| ==> r[i] == converter(rcs[skipped + i])
    {
      r := r + [converter(rcs[pos])];
      pos := pos + 1;
    }
  }

  /** convert(rcs, converter) is convert(rcs, converter, 0): a plain element-wise map. */
  method ConvertAll<T, R>(rcs: seq<T>, converter: T -> R) returns (r: seq<R>)
    ensures |r| == |rcs| && forall i :: 0 <= i < |r| ==> r[i] == converter(rcs[i])
  {
    r := Convert(rcs, converter, 0);
  }

  /** The blocks of `s`: consecutive pieces of `size` elements, the last one possibly shorter. */
  function Blocks<T>(s: seq<T>, size: nat): (r: seq<seq<T>>)
    requires size > 0
    ensures |r| > 0 <==> |s| > 0
    decreases |s|
  {
    if |s| == 0 then []
    else if |s| <= size then [s]
    else [s[..size]] + Blocks(s[size..], size)
  }

  function Flatten<T>(blocks: seq<seq<T>>): seq<T> {
    if |blocks| == 0 then [] else blocks[0] + Flatten(blocks[1..])
  }

  /** Appending one element either opens a new block (at a multiple of the size) or extends the last. */
  lemma {:induction false} BlocksSnoc<T>(s: seq<T>, x: T, size: nat)
    requires size > 0
    ensures var b := Blocks(s, size);
            Blocks(s + [x], size)
            == if |s| % size == 0 then b + [[x]] else b[..|b| - 1] + [b[|b| - 1] + [x]]
    decreases |s|
  {
    if |s| <= size {
      BlocksSnocShort(s, x, size);
    } else {
      var t := s[size..];
      BlocksSnoc(t, x, size);
      ModMinusDivisor(|s|, size);
      BlocksSnocLong(s, x, size);
      var full := |s| % size == 0;
      assert full == (|t| % size == 0);
      if !full {
        LastExtended(s[..size], Blocks(t, size), x);
      }
    }
  }

  /** Within the first block: an empty input gets a block of its own, a shorter one is extended, a full one is followed by a new block. */
  lemma BlocksSnocShort<T>(s: seq<T>, x: T, size: nat)
    requires 0 < size && |s| <= size
    ensures var b := Blocks(s, size);
            Blocks(s + [x], size)
            == if |s| % size == 0 then b + [[x]] else b[..|b| - 1] + [b[|b| - 1] + [x]]
  {
    if |s| == 0 {
      assert s + [x] == [x];
    } else if |s| < size {
      DivModUnique(|s|, size, 0, |s|);
      assert Blocks(s + [x], size) == [s + [x]];
      assert Blocks(s, size) == [s];
    } else {
      DivModUnique(|s|, size, 1, 0);
      assert (s + [x])[..size] == s;
      assert (s + [x])[size..] == [x];
      assert Blocks(s + [x], size) == [s] + Blocks([x], size) == [s, [x]];
      assert Blocks(s, size) == [s];
    }
  }

  /** Past the first block, appending works on the rest. */
  lemma BlocksSnocLong<T>(s: seq<T>, x: T, size: nat)
    requires 0 < size < |s|
    ensures Blocks(s + [x], size) == [s[..size]] + Blocks(s[size..] + [x], size)
    ensures Blocks(s, size) == [s[..size]] + Blocks(s[size..], size)
  {
    assert (s + [x])[..size] == s[..size];
    assert (s + [x])[size..] == s[size..] + [x];
  }

  /** Extending the last block commutes with putting a block in front. */
  lemma LastExtended<T>(h: seq<T>, bt: seq<seq<T>>, x: T)
    requires |bt| > 0
    ensures var b := [h] + bt;
            b[..|b| - 1] + [b[|b| - 1] + [x]] == [h] + (bt[..|bt| - 1] + [bt[|bt| - 1] + [x]])
  {
    var b := [h] + bt;
    assert b[..|b| - 1] == [h] + bt[..|bt| - 1];
  }

  /** Concatenating the blocks gives the input back in order. */
  lemma {:induction false} BlocksFlatten<T>(s: seq<T>, size: nat)
    requires size > 0
    ensures Flatten(Blocks(s, size)) == s
    decreases |s|
  {
    if |s| > size {
      BlocksFlatten(s[size..], size);
      assert ([s[..size]] + Blocks(s[size..], size))[1..] == Blocks(s[size..], size);
    }
  }

  /** Every block but the last has exactly `size` elements, the last has 1..size, and there are ceil(n/size) blocks. */
  lemma {:induction false} BlocksShape<T>(s: seq<T>, size: nat)
    requires size > 0
    ensures var b := Blocks(s, size);
            && |s| <= |b| * size < |s| + size
            && (forall k :: 0 <= k < |b| - 1 ==> |b[k]| == size)
            && (|b| > 0 ==> 0 < |b[|b| - 1]| <= size)
    decreases |s|
  {
    if |s| > size {
      var t := s[size..];
      BlocksShape(t, size);
      var b, bt := Blocks(s, size), Blocks(t, size);
      assert b == [s[..size]] + bt;
      assert |b| * size == size + |bt| * size;
      forall k | 0 <= k < |b| - 1
        ensures |b[k]| == size
      {
        if k > 0 {
          assert b[k] == bt[k - 1];
        }
      }
    }
  }

  /**
   * slice(list, blockSize): rejects a non-positive block size; otherwise
   * walks the list with a counter, opening a new block whenever the counter
   * is a multiple of the block size.
   */
  method Slice<T>(list: seq<T>, blockSize: int) returns (r: Result<seq<seq<T>>>)
    ensures blockSize <= 0 ==> r == Err(IllegalArgument)
    ensures blockSize > 0 ==> r == Ok(Blocks(list, blockSize))
  {
    if blockSize <= 0 {
      return Err(IllegalArgument);
    }
    var blocks: seq<seq<T>> := [];
    var i := 0;
    while i < |list|
      invariant 0 <= i <= |list|
      invariant blocks == Blocks(list[..i], blockSize)
    {
      BlocksSnoc(list[..i], list[i], blockSize);
      if i % blockSize == 0 {
        blocks := blocks + [[list[i]]];
      } else {
        blocks := blocks[..|blocks| - 1] + [blocks[|blocks| - 1] + [list[i]]];
      }
      assert list[..i + 1] == list[..i] + [list[i]];
      i := i + 1;
    }
    assert list[..i] == list;
    return Ok(blocks);
  }
}
