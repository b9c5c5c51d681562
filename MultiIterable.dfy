/**
 * A k-way merge over several sources under the natural order of int.
 *
 * A source is wrapped in a PeekIterator that buffers one element and treats
 * a null element as its end. The merge keeps the sources in a list, draws
 * from the first one while its head is not greater than the second-ranked
 * head, and otherwise stable-sorts the list by head (exhausted sources
 * last) and drops exhausted sources.
 */
module MultiIterable {
  import opened Wrappers

  /** create(iterables...): the null iterables are removed, the rest kept in order. */
  function Create(iterables: seq<Option<seq<int>>>): (r: seq<seq<int>>)
    ensures |r| <= |iterables|
    ensures forall i :: 0 <= i < |r| ==> Some(r[i]) in iterables
    ensures forall i :: 0 <= i < |iterables| && iterables[i].Some? ==> iterables[i].value in r
    ensures (forall i :: 0 <= i < |iterables| ==> iterables[i].Some?) ==> |r| == |iterables|
  {
    if |iterables| == 0 then []
    else (if iterables[0].Some? then [iterables[0].value] else []) + Create(iterables[1..])
  }

  /**
   * Order: the iterables of a concatenation come out as those of the first
   * part followed by those of the second; a null one contributes nothing and
   * a present one contributes itself. Together these fix the whole result.
   */
  lemma {:induction false} CreateAppend(a: seq<Option<seq<int>>>, b: seq<Option<seq<int>>>)
    ensures Create(a + b) == Create(a) + Create(b)
    ensures Create([None]) == []
    ensures forall x :: Create([Some(x)]) == [x]
    decreases |a|
  {
    if |a| > 0 {
      CreateAppend(a[1..], b);
      AppendFirst(a, b);
    } else {
      assert a + b == b;
    }
  }

  lemma AppendFirst<T>(a: seq<T>, b: seq<T>)
    requires |a| > 0
    ensures (a + b)[0] == a[0] && (a + b)[1..] == a[1..] + b
  {
  }

  /** The PeekIterator wrapped around one source; `next` is the buffered element (null when None). */
  class PeekIterator<T> {
    const items: seq<Option<T>>
    var pos: nat
    var next: Option<T>

    ghost predicate Valid()
      reads this
    {
      pos <= |items|
    }

    /** What the iterator still yields, for a source without null elements. */
    ghost function Remaining(): seq<Option<T>>
      reads this
      requires Valid()
    {
      (if next.Some? then [next] else []) + items[pos..]
    }

    constructor (items: seq<Option<T>>)
      ensures Valid() && this.items == items && pos == 0 && next == None
    {
      this.items := items;
      pos, next := 0, None;
    }

    /**
     * hasNext: reads one element into the buffer when it is empty. The
     * answer is whether the buffer now holds a non-null element, so a null
     * element read from the source reports the end.
     */
    method HasNext() returns (b: bool)
      requires Valid()
      modifies this
      ensures Valid() && b == next.Some?
      ensures old(next).Some? ==> next == old(next) && pos == old(pos)
      ensures old(next).None? && old(pos) < |items| ==> next == items[old(pos)] && pos == old(pos) + 1
      ensures old(next).None? && old(pos) == |items| ==> !b && pos == old(pos)
      ensures old(Remaining()) == Remaining() || (old(next).None? && items[old(pos)].None? && !b)
    {
      if next.None? && pos < |items| {
        next := items[pos];
        pos := pos + 1;
      }
      b := next.Some?;
    }

    /** next: the buffered (or freshly read) element, emptying the buffer; null at the end. */
    method Next() returns (r: Option<T>)
      requires Valid()
      modifies this
      ensures Valid() && next == None
      ensures old(next).Some? ==> r == old(next) && pos == old(pos)
      ensures old(next).None? && old(pos) < |items| ==> r == items[old(pos)] && pos == old(pos) + 1
      ensures old(next).None? && old(pos) == |items| ==> r == None
      ensures r.Some? ==> old(Remaining()) == [r] + Remaining()
    {
      var _ := HasNext();
      r := next;
      next := None;
    }

    /** peekNext: the element the next call of next would return, without consuming it. */
    method PeekNext() returns (r: Option<T>)
      requires Valid()
      modifies this
      ensures Valid() && r == next
      ensures r.Some? ==> Remaining() == old(Remaining()) && Remaining()[0] == r
    {
      var _ := HasNext();
      r := next;
    }
  }

  // ----- the merge, over null-free sources each abstracted to what it still yields -----

  /** The comparator of `sort`, as "a does not rank after b": exhausted sources rank last. */
  predicate LeqHead(a: seq<int>, b: seq<int>) {
    |b| == 0 || (|a| > 0 && a[0] <= b[0])
  }

  predicate SortedByHead(s: seq<seq<int>>) {
    forall i, j :: 0 <= i < j < |s| ==> LeqHead(s[i], s[j])
  }

  predicate Ascending(s: seq<int>) {
    forall i, j :: 0 <= i < j < |s| ==> s[i] <= s[j]
  }

  predicate AllAscending(ss: seq<seq<int>>) {
    forall k :: 0 <= k < |ss| ==> Ascending(ss[k])
  }

  /** All elements of all sources. */
  function Elements(ss: seq<seq<int>>): multiset<int> {
    if |ss| == 0 then multiset{} else multiset(ss[0]) + Elements(ss[1..])
  }

  /** Stable insertion: `x` goes after every element that does not rank after it. */
  function Insert(s: seq<seq<int>>, x: seq<int>): (r: seq<seq<int>>)
    ensures |r| == |s| + 1
    ensures forall y :: y in r <==> y in s || y == x
  {
    if |s| == 0 then [x]
    else if LeqHead(s[0], x) then [s[0]] + Insert(s[1..], x)
    else [x] + s
  }

  /** Collections.sort with the comparator of `sort`: a stable sort by head. */
  function SortByHead(s: seq<seq<int>>): (r: seq<seq<int>>)
    ensures |r| == |s|
    ensures forall y :: y in r <==> y in s
  {
    if |s| == 0 then [] else Insert(SortByHead(s[..|s| - 1]), s[|s| - 1])
  }

  /** removeIf(!hasNext): drops the exhausted sources. */
  function RemoveExhausted(s: seq<seq<int>>): (r: seq<seq<int>>)
    ensures forall y :: y in r <==> y in s && |y| > 0
    ensures |r| <= |s|
  {
    if |s| == 0 then []
    else (if |s[0]| > 0 then [s[0]] else []) + RemoveExhausted(s[1..])
  }

  /**
   * sort: the comparator sees a null head (and requests the removal) only
   * if some source is exhausted, and it is called at all only when there
   * are at least two sources.
   */
  function Sort(s: seq<seq<int>>): seq<seq<int>> {
    var sorted := SortByHead(s);
    if |s| >= 2 && exists k :: 0 <= k < |s| && |s[k]| == 0 then RemoveExhausted(sorted) else sorted
  }

  lemma {:induction false} InsertSorted(s: seq<seq<int>>, x: seq<int>)
    requires SortedByHead(s)
    ensures SortedByHead(Insert(s, x))
    decreases |s|
  {
    if |s| > 0 && LeqHead(s[0], x) {
      InsertSorted(s[1..], x);
      var r := Insert(s, x);
      assert r == [s[0]] + Insert(s[1..], x);
      forall i, j | 0 <= i < j < |r|
        ensures LeqHead(r[i], r[j])
      {
        if i == 0 {
          assert r[j] in Insert(s[1..], x);
          assert r[j] in s[1..] || r[j] == x;
        }
      }
    }
  }

  lemma {:induction false} ElementsAppend(a: seq<seq<int>>, b: seq<seq<int>>)
    ensures Elements(a + b) == Elements(a) + Elements(b)
    decreases |a|
  {
    if |a| > 0 {
      assert (a + b)[1..] == a[1..] + b;
      ElementsAppend(a[1..], b);
    } else {
      assert a + b == b;
    }
  }

  lemma {:induction false} InsertElements(s: seq<seq<int>>, x: seq<int>)
    ensures Elements(Insert(s, x)) == Elements(s) + multiset(x)
    decreases |s|
  {
    if |s| > 0 {
      if LeqHead(s[0], x) {
        InsertElements(s[1..], x);
        assert ([s[0]] + Insert(s[1..], x))[1..] == Insert(s[1..], x);
      } else {
        assert ([x] + s)[1..] == s;
      }
    }
  }

  /** Sorting keeps every element of every source, and gives a list sorted by head. */
  lemma SortByHeadProps(s: seq<seq<int>>)
    ensures SortedByHead(SortByHead(s))
    ensures Elements(SortByHead(s)) == Elements(s)
  {
    SortByHeadSorted(s);
    SortByHeadElements(s);
  }

  lemma {:induction false} SortByHeadSorted(s: seq<seq<int>>)
    ensures SortedByHead(SortByHead(s))
    decreases |s|
  {
    if |s| > 0 {
      var init := s[..|s| - 1];
      SortByHeadSorted(init);
      InsertSorted(SortByHead(init), s[|s| - 1]);
    }
  }

  lemma {:induction false} SortByHeadElements(s: seq<seq<int>>)
    ensures Elements(SortByHead(s)) == Elements(s)
    decreases |s|
  {
    if |s| > 0 {
      var init, last := s[..|s| - 1], s[|s| - 1];
      var sortedInit := SortByHead(init);
      assert SortByHead(s) == Insert(sortedInit, last);
      SortByHeadElements(init);
      InsertElements(sortedInit, last);
      ElementsLast(s);
    }
  }

  /** The elements of a list are those of all but its last source, and the last source's. */
  lemma ElementsLast(s: seq<seq<int>>)
    requires |s| > 0
    ensures Elements(s) == Elements(s[..|s| - 1]) + multiset(s[|s| - 1])
  {
    var init, last := s[..|s| - 1], s[|s| - 1];
    assert s == init + [last];
    ElementsAppend(init, [last]);
    assert Elements([last]) == multiset(last) + Elements([]);
  }

  lemma {:induction false} RemoveExhaustedProps(s: seq<seq<int>>)
    requires SortedByHead(s)
    ensures SortedByHead(RemoveExhausted(s))
    ensures Elements(RemoveExhausted(s)) == Elements(s)
    decreases |s|
  {
    if |s| > 0 {
      RemoveExhaustedProps(s[1..]);
      var r := RemoveExhausted(s);
      if |s[0]| > 0 {
        assert r == [s[0]] + RemoveExhausted(s[1..]);
        forall i, j | 0 <= i < j < |r|
          ensures LeqHead(r[i], r[j])
        {
          if i == 0 {
            assert r[j] in RemoveExhausted(s[1..]);
            assert r[j] in s[1..];
          }
        }
        assert r[1..] == RemoveExhausted(s[1..]);
      } else {
        assert multiset(s[0]) == multiset{};
      }
    }
  }

  /** After `sort` the list is sorted by head, holds the same elements and only sources it had before. */
  lemma SortProps(s: seq<seq<int>>)
    ensures SortedByHead(Sort(s))
    ensures Elements(Sort(s)) == Elements(s)
    ensures forall y :: y in Sort(s) ==> y in s
  {
    SortByHeadProps(s);
    RemoveExhaustedProps(SortByHead(s));
  }

  /** With two or more sources, `sort` leaves no exhausted source in the list. */
  lemma SortDropsExhausted(s: seq<seq<int>>)
    ensures |s| >= 2 ==> forall k :: 0 <= k < |Sort(s)| ==> |Sort(s)[k]| > 0
  {
    var sorted := SortByHead(s);
    if |s| < 2 {
    } else if !exists k :: 0 <= k < |s| && |s[k]| == 0 {
      forall k | 0 <= k < |sorted|
        ensures |sorted[k]| > 0
      {
        assert sorted[k] in s;
      }
    } else {
      forall k | 0 <= k < |Sort(s)|
        ensures |Sort(s)[k]| > 0
      {
        assert Sort(s)[k] in RemoveExhausted(sorted);
      }
    }
  }

  /** A source with an element survives `sort`, and then the first source has an element too. */
  lemma SortKeepsLive(s: seq<seq<int>>, x: seq<int>)
    requires x in s && |x| > 0
    ensures |Sort(s)| > 0 && |Sort(s)[0]| > 0
  {
    SortByHeadProps(s);
    RemoveExhaustedProps(SortByHead(s));
    assert x in Sort(s);
    var m :| 0 <= m < |Sort(s)| && Sort(s)[m] == x;
    if m > 0 {
      assert LeqHead(Sort(s)[0], Sort(s)[m]);
    }
  }

  /** The state of the merged iterator: the source list, and whether `iter` is set (it is then the first source). */
  datatype MergeState = MergeState(sources: seq<seq<int>>, current: bool)

  /** While `iter` is set it is the first source, and the others are sorted by head and not exhausted. */
  predicate Inv(st: MergeState) {
    st.current ==> |st.sources| > 0 && SortedByHead(st.sources[1..])
                   && forall j :: 1 <= j < |st.sources| ==> |st.sources[j]| > 0
  }

  /** The state after hasNext: drop `iter` if it is exhausted or ranks after the second source, then re-sort if it is unset. */
  function HasNextState(st: MergeState): (r: MergeState)
    requires Inv(st)
    ensures Inv(r) && Elements(r.sources) == Elements(st.sources)
  {
    var keep := st.current && |st.sources[0]| > 0
                && !(|st.sources| > 1 && st.sources[0][0] > st.sources[1][0]);
    if keep then st
    else
      SortProps(st.sources);
      SortDropsExhausted(st.sources);
      var sorted := Sort(st.sources);
      assert |sorted| > 0 ==> SortedByHead(sorted[1..]);
      MergeState(sorted, |sorted| > 0)
  }

  /** The answer of hasNext. */
  function HasNextAnswer(st: MergeState): bool
    requires Inv(st)
  {
    var r := HasNextState(st);
    r.current && |r.sources[0]| > 0
  }

  /** next: null pointer when `iter` is unset, null when it is exhausted, else its head. */
  function NextStep(st: MergeState): (Result<Option<int>>, MergeState)
    requires Inv(st)
  {
    if !st.current then (Err(NullPointer), st)
    else if |st.sources[0]| == 0 then (Ok(None), st)
    else (Ok(Some(st.sources[0][0])), st.(sources := st.sources[0 := st.sources[0][1..]]))
  }

  /** Ready to emit: `iter` is set, not exhausted, and its head is not greater than any other head. */
  predicate Ready(st: MergeState) {
    && st.current && |st.sources| > 0 && |st.sources[0]| > 0
    && forall j :: 1 <= j < |st.sources| ==> |st.sources[j]| > 0 && st.sources[0][0] <= st.sources[j][0]
  }

  /** hasNext is true iff some source still has an element. */
  lemma HasNextIff(st: MergeState)
    requires Inv(st)
    ensures HasNextAnswer(st) <==> exists k :: 0 <= k < |st.sources| && |st.sources[k]| > 0
  {
    var r := HasNextState(st);
    if exists k :: 0 <= k < |st.sources| && |st.sources[k]| > 0 {
      var k :| 0 <= k < |st.sources| && |st.sources[k]| > 0;
      if r != st {
        SortKeepsLive(st.sources, st.sources[k]);
      }
    }
  }

  /** When hasNext is true, the source `next` draws from has the smallest head of all. */
  lemma HasNextReady(st: MergeState)
    requires Inv(st) && HasNextAnswer(st)
    ensures Ready(HasNextState(st))
  {
    var r := HasNextState(st);
    var keep := st.current && |st.sources[0]| > 0
                && !(|st.sources| > 1 && st.sources[0][0] > st.sources[1][0]);
    if keep {
      forall j | 1 <= j < |st.sources|
        ensures st.sources[0][0] <= st.sources[j][0]
      {
        if j > 1 {
          assert LeqHead(st.sources[1..][0], st.sources[1..][j - 1]);
        }
      }
    } else {
      SortProps(st.sources);
      forall j | 1 <= j < |r.sources|
        ensures |r.sources[j]| > 0 && r.sources[0][0] <= r.sources[j][0]
      {
        assert LeqHead(r.sources[0], r.sources[j]);
        assert |r.sources[j]| > 0;
      }
    }
  }

  /** Emitting from a ready state keeps the invariant and removes exactly the emitted element. */
  lemma NextFromReady(st: MergeState)
    requires Inv(st) && Ready(st)
    ensures var (res, r) := NextStep(st);
            && res == Ok(Some(st.sources[0][0]))
            && Inv(r)
            && Elements(r.sources) + multiset{st.sources[0][0]} == Elements(st.sources)
            && (AllAscending(st.sources) ==> AllAscending(r.sources))
  {
    var (res, r) := NextStep(st);
    var s := st.sources;
    assert r.sources[1..] == s[1..];
    assert s[0] == [s[0][0]] + s[0][1..];
  }

  /** In a ready state with ascending sources the emitted head is a minimum of all remaining elements. */
  lemma ReadyHeadIsMinimum(st: MergeState)
    requires Ready(st) && AllAscending(st.sources)
    ensures forall e :: e in Elements(st.sources) ==> st.sources[0][0] <= e
  {
    ElementsBound(st.sources, st.sources[0][0]);
  }

  lemma {:induction false} ElementsBound(ss: seq<seq<int>>, m: int)
    requires AllAscending(ss)
    requires forall k :: 0 <= k < |ss| && |ss[k]| > 0 ==> m <= ss[k][0]
    ensures forall e :: e in Elements(ss) ==> m <= e
    decreases |ss|
  {
    if |ss| > 0 {
      ElementsBound(ss[1..], m);
      forall e | e in multiset(ss[0])
        ensures m <= e
      {
        var i :| 0 <= i < |ss[0]| && ss[0][i] == e;
        assert ss[0][0] <= ss[0][i];
      }
    }
  }

  lemma {:induction false} AscendingAfterSort(s: seq<seq<int>>)
    requires AllAscending(s)
    ensures AllAscending(Sort(s))
  {
    SortProps(s);
    forall k | 0 <= k < |Sort(s)|
      ensures Ascending(Sort(s)[k])
    {
      assert Sort(s)[k] in s;
    }
  }

  /** The iterator returned by iterator(): the source list and the `iter` field. */
  class MergeIterator {
    var sources: seq<seq<int>>
    var current: bool

    function State(): MergeState
      reads this
    {
      MergeState(sources, current)
    }

    constructor (sources: seq<seq<int>>)
      ensures State() == MergeState(sources, false) && Inv(State())
    {
      this.sources := sources;
      current := false;
    }

    method HasNext() returns (b: bool)
      requires Inv(State())
      modifies this
      ensures State() == HasNextState(old(State())) && b == HasNextAnswer(old(State()))
    {
      var keep := current && |sources[0]| > 0 && !(|sources| > 1 && sources[0][0] > sources[1][0]);
      if !keep {
        current := false;
        sources := Sort(sources);
        if |sources| > 0 {
          current := true;
        }
      }
      b := current && |sources[0]| > 0;
    }

    method Next() returns (r: Result<Option<int>>)
      requires Inv(State())
      modifies this
      ensures (r, State()) == NextStep(old(State()))
    {
      if !current {
        return Err(NullPointer);
      }
      if |sources[0]| == 0 {
        return Ok(None);
      }
      r := Ok(Some(sources[0][0]));
      sources := sources[0 := sources[0][1..]];
    }
  }

  /** What draining has established: `out` plus what the sources still hold is the input, in order when the input is. */
  ghost predicate Drained(st: MergeState, out: seq<int>, inputs: seq<seq<int>>) {
    && Inv(st)
    && multiset(out) + Elements(st.sources) == Elements(inputs)
    && (AllAscending(inputs) ==> AllAscending(st.sources) && Ascending(out))
    && (AllAscending(inputs) && |out| > 0 ==> forall e :: e in Elements(st.sources) ==> out[|out| - 1] <= e)
  }

  lemma HasNextKeepsDrained(st: MergeState, out: seq<int>, inputs: seq<seq<int>>)
    requires Drained(st, out, inputs)
    ensures Drained(HasNextState(st), out, inputs)
    ensures HasNextAnswer(st) ==> Ready(HasNextState(st))
    ensures !HasNextAnswer(st) ==> Elements(HasNextState(st).sources) == multiset{}
  {
    var r := HasNextState(st);
    HasNextIff(st);
    if HasNextAnswer(st) {
      HasNextReady(st);
    } else {
      EmptySourcesHaveNoElements(st.sources);
    }
    if AllAscending(inputs) && r != st {
      AscendingAfterSort(st.sources);
    }
  }

  lemma NextKeepsDrained(st: MergeState, out: seq<int>, inputs: seq<seq<int>>)
    requires Drained(st, out, inputs) && Ready(st)
    ensures var (res, r) := NextStep(st);
            && res == Ok(Some(st.sources[0][0]))
            && Drained(r, out + [st.sources[0][0]], inputs)
            && |Elements(r.sources)| < |Elements(st.sources)|
  {
    var r := NextStep(st).1;
    var x := st.sources[0][0];
    NextFromReady(st);
    assert multiset(out + [x]) == multiset(out) + multiset{x};
    if AllAscending(inputs) {
      ReadyHeadIsMinimum(st);
      AppendMinimum(out, x, Elements(st.sources));
      forall e | e in Elements(r.sources)
        ensures x <= e
      {
        assert e in Elements(r.sources) + multiset{x};
      }
    }
  }

  /** Appending an element that is at least the last output and at most everything left keeps the output ascending. */
  lemma AppendMinimum(out: seq<int>, x: int, rest: multiset<int>)
    requires Ascending(out) && x in rest
    requires |out| > 0 ==> forall e :: e in rest ==> out[|out| - 1] <= e
    ensures Ascending(out + [x])
  {
    var out' := out + [x];
    forall i, j | 0 <= i < j < |out'|
      ensures out'[i] <= out'[j]
    {
      if j == |out| && i < |out| - 1 {
        assert out[i] <= out[|out| - 1];
      }
    }
  }

  /**
   * Draining the merged iterator with hasNext/next yields every element of
   * every source exactly once, and when each source is ascending the
   * output is ascending too.
   */
  method Merge(inputs: seq<seq<int>>) returns (out: seq<int>)
    ensures multiset(out) == Elements(inputs)
    ensures AllAscending(inputs) ==> Ascending(out)
  {
    var it := new MergeIterator(inputs);
    out := [];
    HasNextKeepsDrained(it.State(), out, inputs);
    var more := it.HasNext();
    while more
      invariant Drained(it.State(), out, inputs)
      invariant more ==> Ready(it.State())
      invariant !more ==> Elements(it.sources) == multiset{}
      decreases |Elements(it.sources)|
    {
      NextKeepsDrained(it.State(), out, inputs);
      var r := it.Next();
      out := out + [r.value.value];
      HasNextKeepsDrained(it.State(), out, inputs);
      more := it.HasNext();
    }
  }

  lemma {:induction false} EmptySourcesHaveNoElements(ss: seq<seq<int>>)
    requires forall k :: 0 <= k < |ss| ==> |ss[k]| == 0
    ensures Elements(ss) == multiset{}
    decreases |ss|
  {
    if |ss| > 0 {
      EmptySourcesHaveNoElements(ss[1..]);
      assert ss[0] == [];
    }
  }
}
