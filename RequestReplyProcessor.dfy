/**
 * RequestReplyProcessor: matches replies to open requests. Each request gets
 * a waiter that, once a matching reply is attached, reports it through
 * onResult, or reports onError after its deadline; either way the request is
 * then closed.
 *
 * The waiter threads are modelled as a list of pending waiters that the
 * caller steps one at a time at an explicit time; the callbacks as the list
 * of outcomes reported. `request` is modelled twice: as written, and
 * corrected so that a request already open is rejected untouched (see
 * `RequestAsWritten`).
 */
module RequestReplyProcessor {
  import opened Wrappers

  /** A waiting thread: its request and the time after which it gives up. */
  datatype Waiter<T> = Waiter(request: T, upTime: int)

  /** What a waiter reports. */
  datatype Outcome<T> = OnResult(request: T, reply: T) | OnError(request: T)

  /** The result of request and the reply table it leaves. */
  datatype Registration<T> = Registration(result: Result<()>, replies: map<T, Option<T>>)

  /**
   * request as written: the request is put with no reply first, and the
   * check only fails when the value it replaced was a reply.
   */
  function RequestAsWritten<T>(replies: map<T, Option<T>>, request: T): (r: Registration<T>)
    ensures r.replies == replies[request := None]
  {
    var previous := if request in replies then replies[request] else None;
    Registration(if previous.Some? then Err(IllegalArgument) else Ok(()), replies[request := None])
  }

  /** request, corrected: a request already open throws IllegalArgumentException and changes nothing. */
  function Registered<T>(replies: map<T, Option<T>>, request: T): (r: Registration<T>)
    ensures r.result.Ok? <==> request !in replies
    ensures r.result.Ok? ==> r.replies == replies[request := None]
    ensures r.result.Err? ==> r.result.error == IllegalArgument && r.replies == replies
  {
    if request in replies then Registration(Err(IllegalArgument), replies)
    else Registration(Ok(()), replies[request := None])
  }

  /**
   * As written, registering an open request again is accepted while it has no
   * reply, and wipes the reply while rejecting it when it has one.
   */
  lemma DuplicateRequestAsWritten<T>(request: T, reply: T)
    ensures var first := RequestAsWritten(map[], request);
            && first.result == Ok(())
            && RequestAsWritten(first.replies, request).result == Ok(())
    ensures var answered := map[request := Some(reply)];
            && RequestAsWritten(answered, request).result == Err(IllegalArgument)
            && RequestAsWritten(answered, request).replies[request] == None
  {
  }

  /** Corrected, both duplicates are rejected and the reply table is kept. */
  lemma DuplicateRequestCorrected<T>(request: T, reply: T)
    ensures var first := Registered(map[], request);
            && first.result == Ok(())
            && Registered(first.replies, request) == Registration(Err(IllegalArgument), first.replies)
    ensures var answered := map[request := Some(reply)];
            Registered(answered, request) == Registration(Err(IllegalArgument), answered)
  {
  }

  /** One poll of a waiter at time now: a reply wins, else an expired deadline gives an error, else it keeps waiting. */
  function Progress<T>(replies: map<T, Option<T>>, w: Waiter<T>, now: int): (r: Option<Outcome<T>>)
    ensures r.Some? ==> r.value.request == w.request
    ensures r.Some? && r.value.OnResult? <==> w.request in replies && replies[w.request].Some?
    ensures r.None? <==> (w.request !in replies || replies[w.request].None?) && now <= w.upTime
  {
    if w.request in replies && replies[w.request].Some? then Some(OnResult(w.request, replies[w.request].value))
    else if now > w.upTime then Some(OnError(w.request))
    else None
  }

  /** The requests the waiters are waiting for. */
  ghost function Pending<T>(ws: seq<Waiter<T>>): set<T>
  {
    set i | 0 <= i < |ws| :: ws[i].request
  }

  ghost predicate DistinctRequests<T>(ws: seq<Waiter<T>>)
  {
    forall i, j :: 0 <= i < j < |ws| ==> ws[i].request != ws[j].request
  }

  /** A new waiter adds its request. */
  lemma PendingSnoc<T>(ws: seq<Waiter<T>>, w: Waiter<T>)
    requires DistinctRequests(ws) && w.request !in Pending(ws)
    ensures Pending(ws + [w]) == Pending(ws) + {w.request}
    ensures DistinctRequests(ws + [w])
  {
    var ext := ws + [w];
    assert forall i :: 0 <= i < |ws| ==> ext[i] == ws[i];
    assert ext[|ws|] == w;
    forall i | 0 <= i < |ws|
      ensures ws[i].request != w.request
    {
      assert ws[i].request in Pending(ws);
    }
  }

  /** Removing a waiter of distinct requests removes exactly its request. */
  lemma PendingRemove<T>(ws: seq<Waiter<T>>, i: nat)
    requires DistinctRequests(ws) && i < |ws|
    ensures Pending(ws[..i] + ws[i + 1..]) == Pending(ws) - {ws[i].request}
    ensures DistinctRequests(ws[..i] + ws[i + 1..])
  {
    var rest := ws[..i] + ws[i + 1..];
    assert |rest| == |ws| - 1;
    assert forall j :: 0 <= j < |rest| ==> rest[j] == ws[if j < i then j else j + 1];
    forall k | k in Pending(ws) - {ws[i].request}
      ensures k in Pending(rest)
    {
      var j :| 0 <= j < |ws| && ws[j].request == k;
      if j < i {
        assert rest[j].request == k;
      } else {
        assert rest[j - 1].request == k;
      }
    }
    forall k | k in Pending(rest)
      ensures k in Pending(ws) - {ws[i].request}
    {
      var j :| 0 <= j < |rest| && rest[j].request == k;
      if j < i {
        assert ws[j].request == k;
      } else {
        assert ws[j + 1].request == k;
      }
    }
  }

  class RequestReplyProcessor<T(==)> {
    /** The predicate telling whether a reply answers a request. */
    const replyByRequestFunction: (T, T) -> bool
    /** The open requests and the reply attached to each, if any. */
    var repliesByRequest: map<T, Option<T>>
    /** The waiters still running. */
    var waiters: seq<Waiter<T>>
    /** What onResult and onError have been called with, in order. */
    var outcomes: seq<Outcome<T>>

    /** Every open request has exactly one waiter, and every waiter's request is open. */
    ghost predicate Valid()
      reads this
    {
      repliesByRequest.Keys == Pending(waiters) && DistinctRequests(waiters)
    }

    constructor (replyByRequestFunction: (T, T) -> bool)
      ensures Valid() && repliesByRequest == map[] && waiters == [] && outcomes == []
      ensures this.replyByRequestFunction == replyByRequestFunction
    {
      this.replyByRequestFunction := replyByRequestFunction;
      repliesByRequest := map[];
      waiters := [];
      outcomes := [];
    }

    /** openRequest: the number of open requests. */
    method OpenRequest() returns (n: nat)
      ensures n == |repliesByRequest.Keys|
    {
      n := |repliesByRequest.Keys|;
    }

    /** reply: attach the reply to one open request it answers, replacing any earlier reply. */
    method Reply(reply: T)
      requires Valid()
      modifies this
      ensures Valid() && waiters == old(waiters) && outcomes == old(outcomes)
      ensures (exists k :: k in old(repliesByRequest) && replyByRequestFunction(k, reply)) ==>
                exists k :: k in old(repliesByRequest) && replyByRequestFunction(k, reply)
                            && repliesByRequest == old(repliesByRequest)[k := Some(reply)]
      ensures !(exists k :: k in old(repliesByRequest) && replyByRequestFunction(k, reply)) ==>
                repliesByRequest == old(repliesByRequest)
    {
      if exists k :: k in repliesByRequest && replyByRequestFunction(k, reply) {
        var k :| k in repliesByRequest && replyByRequestFunction(k, reply);
        repliesByRequest := repliesByRequest[k := Some(reply)];
      }
    }

    /** request: open the request with no reply and start its waiter, whose deadline is now + timeout. */
    method Request(request: T, timeout: int, now: int) returns (r: Result<()>)
      requires Valid()
      modifies this
      ensures Valid() && outcomes == old(outcomes)
      ensures Registration(r, repliesByRequest) == Registered(old(repliesByRequest), request)
      ensures r.Ok? ==> waiters == old(waiters) + [Waiter(request, now + timeout)]
      ensures r.Err? ==> waiters == old(waiters)
    {
      if request in repliesByRequest {
        return Err(IllegalArgument);
      }
      PendingSnoc(waiters, Waiter(request, now + timeout));
      repliesByRequest := repliesByRequest[request := None];
      waiters := waiters + [Waiter(request, now + timeout)];
      return Ok(());
    }

    /** One poll of waiter i at time now; a waiter that finishes reports its outcome and closes its request. */
    method Step(i: nat, now: int) returns (outcome: Option<Outcome<T>>)
      requires Valid() && i < |waiters|
      modifies this
      ensures Valid()
      ensures outcome == Progress(old(repliesByRequest), old(waiters)[i], now)
      ensures outcome.Some? ==>
                && outcomes == old(outcomes) + [outcome.value]
                && repliesByRequest == old(repliesByRequest) - {old(waiters)[i].request}
                && waiters == old(waiters)[..i] + old(waiters)[i + 1..]
      ensures outcome.None? ==>
                outcomes == old(outcomes) && repliesByRequest == old(repliesByRequest) && waiters == old(waiters)
    {
      var w := waiters[i];
      outcome := Progress(repliesByRequest, w, now);
      if outcome.Some? {
        PendingRemove(waiters, i);
        outcomes := outcomes + [outcome.value];
        repliesByRequest := repliesByRequest - {w.request};
        waiters := waiters[..i] + waiters[i + 1..];
      }
    }
  }

  /** Test messages: requests and replies carrying an id. */
  datatype Msg = Req(id: int) | Rep(id: int)

  function Answers(request: Msg, reply: Msg): bool
  {
    request.Req? && reply.Rep? && request.id == reply.id
  }

  /** Two requests and a reply to the first: the first gets its reply, the second times out, and nothing stays open. */
  method TwoRequestsOneReply() returns (outcomes: seq<Outcome<Msg>>, open: nat)
    ensures outcomes == [OnResult(Req(1), Rep(1)), OnError(Req(2))]
    ensures open == 0
  {
    var p := new RequestReplyProcessor(Answers);
    OpenTwo(p);
    AnswerFirst(p);
    outcomes, open := Drain(p);
  }

  /** Both requests are accepted, each with its waiter and no reply yet. */
  method OpenTwo(p: RequestReplyProcessor<Msg>)
    requires p.Valid() && p.outcomes == [] && p.waiters == [] && p.repliesByRequest == map[]
    modifies p
    ensures p.Valid() && p.outcomes == []
    ensures p.waiters == [Waiter(Req(1), 1_000), Waiter(Req(2), 1_000)]
    ensures p.repliesByRequest == map[Req(1) := None, Req(2) := None]
  {
    var r1 := p.Request(Req(1), 1_000, 0);
    assert r1.Ok?;
    var r2 := p.Request(Req(2), 1_000, 0);
    assert r2.Ok?;
  }

  /** The reply answers the first request only. */
  method AnswerFirst(p: RequestReplyProcessor<Msg>)
    requires p.Valid() && p.outcomes == [] && p.replyByRequestFunction == Answers
    requires p.waiters == [Waiter(Req(1), 1_000), Waiter(Req(2), 1_000)]
    requires p.repliesByRequest == map[Req(1) := None, Req(2) := None]
    modifies p
    ensures p.Valid() && p.outcomes == [] && p.waiters == old(p.waiters)
    ensures p.repliesByRequest == map[Req(1) := Some(Rep(1)), Req(2) := None]
  {
    assert forall k :: k in p.repliesByRequest && p.replyByRequestFunction(k, Rep(1)) ==> k == Req(1);
    assert Req(1) in p.repliesByRequest && p.replyByRequestFunction(Req(1), Rep(1));
    p.Reply(Rep(1));
  }

  /** After the reply, the first waiter reports it at once. */
  method Drain(p: RequestReplyProcessor<Msg>) returns (outcomes: seq<Outcome<Msg>>, open: nat)
    requires p.Valid() && p.outcomes == []
    requires p.waiters == [Waiter(Req(1), 1_000), Waiter(Req(2), 1_000)]
    requires p.repliesByRequest == map[Req(1) := Some(Rep(1)), Req(2) := None]
    modifies p
    ensures outcomes == [OnResult(Req(1), Rep(1)), OnError(Req(2))]
    ensures open == 0
  {
    ghost var replied := p.repliesByRequest;
    var first := p.Step(0, 100);
    assert first == Some(OnResult(Req(1), Rep(1)));
    assert p.repliesByRequest == replied - {Req(1)};
    assert Req(2) in replied - {Req(1)} && (replied - {Req(1)})[Req(2)] == None;
    assert p.waiters == [Waiter(Req(2), 1_000)];
    outcomes, open := Expire(p);
  }

  /** The second waiter, never answered, reports an error after its deadline and closes the last request. */
  method Expire(p: RequestReplyProcessor<Msg>) returns (outcomes: seq<Outcome<Msg>>, open: nat)
    requires p.Valid() && p.outcomes == [OnResult(Req(1), Rep(1))]
    requires p.waiters == [Waiter(Req(2), 1_000)]
    requires Req(2) in p.repliesByRequest && p.repliesByRequest[Req(2)] == None
    modifies p
    ensures outcomes == [OnResult(Req(1), Rep(1)), OnError(Req(2))]
    ensures open == 0
  {
    ghost var left := p.repliesByRequest;
    var second := p.Step(0, 2_001);
    assert second == Some(OnError(Req(2)));
    outcomes := p.outcomes;
    assert p.repliesByRequest == left - {Req(2)};
    assert p.repliesByRequest.Keys == {};
    open := p.OpenRequest();
  }
}
