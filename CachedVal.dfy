/** A lazily filled memo cell: the getter runs only while the stored value is null. */
module CachedVal {
  import opened Wrappers

  class CachedVal<T> {
    var val: Option<T>
    /** How many times the getter has been called. */
    var getterCalls: nat

    constructor ()
      ensures val == None && getterCalls == 0
    {
      val, getterCalls := None, 0;
    }

    /** get(): `fetched` is what the getter would answer on this call (None for null). */
    method Get(fetched: Option<T>) returns (r: Option<T>)
      modifies this
      ensures old(val).Some? ==> r == old(val) && val == old(val) && getterCalls == old(getterCalls)
      ensures old(val).None? ==> r == fetched && val == fetched && getterCalls == old(getterCalls) + 1
    {
      if val.None? {
        getterCalls := getterCalls + 1;
        val := fetched;
      }
      r := val;
    }

    method Set(v: Option<T>)
      modifies this
      ensures val == v && getterCalls == old(getterCalls)
    {
      val := v;
    }
  }

  /** The first non-null answer among `answers`, or null. */
  function FirstSome<T>(answers: seq<Option<T>>): (r: Option<T>)
    ensures r.None? <==> forall i :: 0 <= i < |answers| ==> answers[i].None?
    ensures r.Some? ==> r in answers
  {
    if |answers| == 0 then None
    else if answers[0].Some? then answers[0]
    else FirstSome(answers[1..])
  }

  /** How many answers up to and including the first non-null one (all of them if none is). */
  function CallsUntilSome<T>(answers: seq<Option<T>>): (n: nat)
    ensures n <= |answers|
    ensures forall i :: 0 <= i < n - 1 ==> answers[i].None?
    ensures n < |answers| ==> n > 0 && answers[n - 1].Some?
  {
    if |answers| == 0 then 0
    else if answers[0].Some? then 1
    else 1 + CallsUntilSome(answers[1..])
  }

  lemma {:induction false} FirstSomeSnoc<T>(answers: seq<Option<T>>, a: Option<T>)
    ensures FirstSome(answers + [a]) == if FirstSome(answers).Some? then FirstSome(answers) else a
    ensures CallsUntilSome(answers + [a])
            == CallsUntilSome(answers) + (if FirstSome(answers).Some? then 0 else 1)
  {
    if |answers| > 0 {
      assert (answers + [a])[1..] == answers[1..] + [a];
      FirstSomeSnoc(answers[1..], a);
    }
  }

  /** What successive get() calls return when the getter answers `answers` in turn: the first non-null answer so far. */
  function Replies<T>(answers: seq<Option<T>>): (r: seq<Option<T>>)
    ensures |r| == |answers|
  {
    if |answers| == 0 then [] else Replies(answers[..|answers| - 1]) + [FirstSome(answers)]
  }

  lemma {:induction false} RepliesSpec<T>(answers: seq<Option<T>>)
    ensures forall i :: 0 <= i < |answers| ==> Replies(answers)[i] == FirstSome(answers[..i + 1])
  {
    if |answers| > 0 {
      var init := answers[..|answers| - 1];
      RepliesSpec(init);
      forall i | 0 <= i < |answers|
        ensures Replies(answers)[i] == FirstSome(answers[..i + 1])
      {
        if i < |init| {
          assert init[..i + 1] == answers[..i + 1];
        } else {
          assert answers[..i + 1] == answers;
        }
      }
    }
  }

  /**
   * A sequence of get() calls on a fresh cell, the getter answering
   * `answers[i]` if called at step i: each call returns the first non-null
   * answer so far, and the getter stops being called once one was non-null
   * (a null answer is not cached).
   */
  method GetMany<T>(answers: seq<Option<T>>) returns (results: seq<Option<T>>, calls: nat)
    ensures results == Replies(answers)
    ensures calls == CallsUntilSome(answers)
  {
    var cell := new CachedVal<T>();
    results := [];
    var i := 0;
    while i < |answers|
      invariant 0 <= i <= |answers|
      invariant results == Replies(answers[..i])
      invariant cell.val == FirstSome(answers[..i]) && cell.getterCalls == CallsUntilSome(answers[..i])
    {
      var prefix := answers[..i + 1];
      assert prefix == answers[..i] + [answers[i]] && prefix[..i] == answers[..i];
      FirstSomeSnoc(answers[..i], answers[i]);
      var r := cell.Get(answers[i]);
      results := results + [r];
      i := i + 1;
    }
    assert answers[..i] == answers;
    calls := cell.getterCalls;
  }

  /** After set(v) with v non-null, get returns v without calling the getter. */
  method SetThenGet<T>(v: T, fetched: Option<T>) returns (r: Option<T>, calls: nat)
    ensures r == Some(v) && calls == 0
  {
    var cell := new CachedVal<T>();
    cell.Set(Some(v));
    r := cell.Get(fetched);
    calls := cell.getterCalls;
  }
}
