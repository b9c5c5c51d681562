/**
 * A conflating queue: pending keys are taken in first-offer order, and a key
 * offered again while still pending keeps its place but carries the latest
 * value. Sequential semantics: the compare-and-set retries and the blocking
 * of `take` on an empty queue are not modelled (an empty `take` gives None).
 */
module ConflatingQueue {
  import opened Wrappers

  datatype KeyValue<K, V> = KeyValue(key: K, value: V)

  class ConflatingQueueImpl<K(==, !new), V> {
    /** The pending keys, in the order they were first offered. */
    var keyQueue: seq<K>
    /** The latest entry offered for each pending key. */
    var latest: map<K, KeyValue<K, V>>

    /** Queued keys are distinct, and every stored entry belongs to a queued key and carries that key. */
    ghost predicate Consistent()
      reads this
    {
      ConsistentState(keyQueue, latest)
    }

    /** Moreover every queued key has a stored entry: the state offer and take maintain. */
    ghost predicate Valid()
      reads this
    {
      ValidState(keyQueue, latest)
    }

    constructor ()
      ensures Valid() && keyQueue == [] && latest == map[]
    {
      keyQueue, latest := [], map[];
    }

    /**
     * offer: null throws NullPointerException and changes nothing. A key
     * that is not pending goes to the back of the queue; a pending key keeps
     * its place and its entry is replaced.
     */
    method Offer(kv: Option<KeyValue<K, V>>) returns (r: Result<bool>)
      requires Valid()
      modifies this
      ensures Valid()
      ensures kv.None? ==> r == Err(NullPointer) && keyQueue == old(keyQueue) && latest == old(latest)
      ensures kv.Some? ==> r == Ok(true) && latest == old(latest)[kv.value.key := kv.value]
      ensures kv.Some? && kv.value.key in old(latest) ==> keyQueue == old(keyQueue)
      ensures kv.Some? && kv.value.key !in old(latest) ==> keyQueue == old(keyQueue) + [kv.value.key]
    {
      if kv.None? {
        return Err(NullPointer);
      }
      var e := kv.value;
      if e.key !in latest {
        keyQueue := keyQueue + [e.key];
      }
      latest := latest[e.key := e];
      return Ok(true);
    }

    /**
     * take: removes queued keys from the front until one has a stored entry,
     * removes that entry and returns it. While Valid holds this is the front
     * key, so exactly one key is removed.
     */
    method Take() returns (r: Option<KeyValue<K, V>>)
      requires Consistent()
      modifies this
      ensures Consistent() && (old(Valid()) ==> Valid())
      ensures var i := FirstLive(old(keyQueue), old(latest));
              if i == |old(keyQueue)| then r == None && keyQueue == [] && latest == old(latest)
              else && r == Some(old(latest)[old(keyQueue)[i]])
                   && keyQueue == old(keyQueue)[i + 1..]
                   && latest == old(latest) - {old(keyQueue)[i]}
      ensures old(Valid()) && old(keyQueue) != [] ==>
                && r == Some(old(latest)[old(keyQueue)[0]])
                && r.value.key == old(keyQueue)[0]
                && keyQueue == old(keyQueue)[1..]
    {
      ghost var skipped := 0;
      while true
        invariant 0 <= skipped <= |old(keyQueue)| && keyQueue == old(keyQueue)[skipped..]
        invariant latest == old(latest)
        invariant forall i :: 0 <= i < skipped ==> old(keyQueue)[i] !in latest
        decreases |keyQueue|
      {
        if keyQueue == [] {
          FirstLiveNone(old(keyQueue), latest);
          TakeKeeps(old(keyQueue), latest, skipped);
          return None;
        }
        var k := keyQueue[0];
        keyQueue := keyQueue[1..];
        if k in latest {
          FirstLiveAt(old(keyQueue), latest, skipped);
          TakeKeeps(old(keyQueue), latest, skipped);
          r := Some(latest[k]);
          latest := latest - {k};
          return;
        }
        skipped := skipped + 1;
      }
    }

    method IsEmpty() returns (b: bool)
      requires Valid()
      ensures b <==> keyQueue == []
      ensures b <==> latest == map[]
    {
      b := keyQueue == [];
      if !b {
        assert keyQueue[0] in latest;
      }
    }
  }

  ghost predicate ConsistentState<K, V>(keyQueue: seq<K>, latest: map<K, KeyValue<K, V>>)
  {
    && (forall i, j :: 0 <= i < j < |keyQueue| ==> keyQueue[i] != keyQueue[j])
    && (forall k :: k in latest ==> k in keyQueue && latest[k].key == k)
  }

  ghost predicate ValidState<K, V>(keyQueue: seq<K>, latest: map<K, KeyValue<K, V>>)
  {
    ConsistentState(keyQueue, latest) && forall k :: k in keyQueue ==> k in latest
  }

  /**
   * Taking past the first i keys, none of which has an entry, keeps the
   * state consistent; with no key left nothing is stored, and in a valid
   * state the first key is the one taken and validity is kept.
   */
  lemma TakeKeeps<K, V>(q: seq<K>, latest: map<K, KeyValue<K, V>>, i: nat)
    requires ConsistentState(q, latest) && i <= |q|
    requires forall j :: 0 <= j < i ==> q[j] !in latest
    requires i < |q| ==> q[i] in latest
    ensures i == |q| ==> latest == map[] && ConsistentState([], latest)
    ensures i < |q| ==> ConsistentState(q[i + 1..], latest - {q[i]})
    ensures i < |q| && ValidState(q, latest) ==> i == 0 && ValidState(q[1..], latest - {q[0]})
  {
    if i == |q| {
      assert forall k :: k in q ==> k !in latest;
      assert latest.Keys == {};
    } else {
      var rest := q[i + 1..];
      var l' := latest - {q[i]};
      forall k | k in l'
        ensures k in rest
      {
        var j :| 0 <= j < |q| && q[j] == k;
        assert j > i;
        assert rest[j - i - 1] == k;
      }
      assert i > 0 ==> q[0] in q && q[0] !in latest;
    }
  }

  /** The position of the first queued key that has a stored entry, or the queue length. */
  function FirstLive<K, V>(q: seq<K>, latest: map<K, V>): (i: nat)
    ensures i <= |q| && (i < |q| ==> q[i] in latest)
    ensures forall j :: 0 <= j < i ==> q[j] !in latest
  {
    if |q| == 0 || q[0] in latest then 0 else 1 + FirstLive(q[1..], latest)
  }

  lemma FirstLiveAt<K, V>(q: seq<K>, latest: map<K, V>, i: nat)
    requires i < |q| && q[i] in latest && forall j :: 0 <= j < i ==> q[j] !in latest
    ensures FirstLive(q, latest) == i
  {
  }

  lemma FirstLiveNone<K, V>(q: seq<K>, latest: map<K, V>)
    requires forall j :: 0 <= j < |q| ==> q[j] !in latest
    ensures FirstLive(q, latest) == |q|
  {
  }

  /**
   * The conflation test: BTC 7001, ETH 250 and BTC 7002 are taken as
   * BTC 7002, then ETH 250, and the queue is then empty.
   */
  method ConflationScenario() returns (first: Option<KeyValue<string, int>>, second: Option<KeyValue<string, int>>,
                                      empty: bool)
    ensures first == Some(KeyValue("BTCUSD", 7002))
    ensures second == Some(KeyValue("ETHUSD", 250))
    ensures empty
  {
    var q := new ConflatingQueueImpl<string, int>();
    var _ := q.Offer(Some(KeyValue("BTCUSD", 7001)));
    var _ := q.Offer(Some(KeyValue("ETHUSD", 250)));
    var _ := q.Offer(Some(KeyValue("BTCUSD", 7002)));
    first := q.Take();
    second := q.Take();
    empty := q.IsEmpty();
  }
}
