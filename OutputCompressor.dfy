/**
 * OutputCompressor: collects the distinct messages a chat bot is about to
 * send, in first-insertion order (a LinkedHashSet), remembers the last one,
 * and renders them joined by newlines, keeping only the tail when too long.
 */
module OutputCompressor {
  import opened Wrappers
  import Text

  /** No message appears twice. */
  predicate Distinct(s: seq<string>)
  {
    forall i, j :: 0 <= i < j < |s| ==> s[i] != s[j]
  }

  /** LinkedHashSet.add: a new message goes to the end, a known one stays where it is. */
  function Buffered(buf: seq<string>, m: string): (r: seq<string>)
    ensures m in r
    ensures forall x :: x in r <==> x in buf || x == m
    ensures Distinct(buf) ==> Distinct(r)
  {
    if m in buf then buf else buf + [m]
  }

  /** The buffer after adding the messages ms, in order, to an empty one. */
  function BufferAfter(ms: seq<string>): seq<string>
  {
    if |ms| == 0 then [] else Buffered(BufferAfter(ms[..|ms| - 1]), ms[|ms| - 1])
  }

  /** The position of the first occurrence of x in ms. */
  function FirstIndex(ms: seq<string>, x: string): (i: nat)
    requires x in ms
    ensures i < |ms| && ms[i] == x
    ensures forall j :: 0 <= j < i ==> ms[j] != x
  {
    if ms[0] == x then 0 else 1 + FirstIndex(ms[1..], x)
  }

  /** Appending a message does not move the first occurrence of one already present. */
  lemma FirstIndexSnoc(ms: seq<string>, m: string, x: string)
    requires x in ms + [m]
    ensures x in ms ==> FirstIndex(ms + [m], x) == FirstIndex(ms, x)
    ensures x !in ms ==> FirstIndex(ms + [m], x) == |ms|
  {
    if x in ms {
      var k := FirstIndex(ms, x);
      assert (ms + [m])[k] == x;
      assert forall j :: 0 <= j < k ==> (ms + [m])[j] == ms[j];
    } else {
      assert (ms + [m])[|ms|] == x;
      assert forall j :: 0 <= j < |ms| ==> (ms + [m])[j] == ms[j];
    }
  }

  /**
   * The buffer holds each message once, exactly the messages added, ordered
   * by when each was first added.
   */
  lemma {:induction false} BufferIsFirstOccurrences(ms: seq<string>)
    ensures var r := BufferAfter(ms);
            && Distinct(r)
            && (forall x :: x in r <==> x in ms)
            && (forall i, j :: 0 <= i < j < |r| ==> FirstIndex(ms, r[i]) < FirstIndex(ms, r[j]))
  {
    if |ms| > 0 {
      var init := ms[..|ms| - 1];
      var m := ms[|ms| - 1];
      assert ms == init + [m];
      BufferIsFirstOccurrences(init);
      var b := BufferAfter(init);
      var r := BufferAfter(ms);
      forall x | x in b
        ensures FirstIndex(ms, x) == FirstIndex(init, x)
      {
        FirstIndexSnoc(init, m, x);
      }
      if m !in b {
        FirstIndexSnoc(init, m, m);
        forall i, j | 0 <= i < j < |r|
          ensures FirstIndex(ms, r[i]) < FirstIndex(ms, r[j])
        {
          assert r[i] in b;
          if j < |b| {
            assert r[j] in b;
          } else {
            assert r[j] == m;
          }
        }
      }
    }
  }

  /** A message already buffered leaves the buffer as it is. */
  lemma ReAddKeepsOrder(buf: seq<string>, m: string)
    requires m in buf
    ensures Buffered(buf, m) == buf
  {
  }

  /** getStr's cut: a join longer than the limit keeps "..." and its last limit characters; a negative limit makes the substring throw. */
  function Compressed(join: string, limit: int): (r: Result<string>)
    ensures r.Err? <==> |join| > limit && limit < 0
  {
    if |join| > limit then
      if limit < 0 then Err(IndexOutOfBounds)
      else Ok("..." + join[|join| - limit..])
    else Ok(join)
  }

  /** A cut result is limit + 3 characters long, "..." then the join's tail; an uncut one is the join itself. */
  lemma CompressedShape(join: string, limit: int)
    ensures |join| > limit >= 0 ==>
              var r := Compressed(join, limit).value;
              && |r| == limit + 3 && r[..3] == "..." && r[3..] == join[|join| - limit..]
    ensures |join| <= limit ==> Compressed(join, limit) == Ok(join)
  {
  }

  class OutputCompressor {
    const masOutputMessageLength: int
    var lastMessage: string
    var messagesBuf: seq<string>

    ghost predicate Valid()
      reads this
    {
      Distinct(messagesBuf)
    }

    constructor (masOutputMessageLength: int)
      ensures Valid() && lastMessage == "" && messagesBuf == []
      ensures this.masOutputMessageLength == masOutputMessageLength
    {
      this.masOutputMessageLength := masOutputMessageLength;
      lastMessage := "";
      messagesBuf := [];
    }

    /** addStr: buffers the message unless already there, and always makes it the last message. */
    method AddStr(messageToSend: string)
      requires Valid()
      modifies this
      ensures Valid()
      ensures messagesBuf == Buffered(old(messagesBuf), messageToSend) && lastMessage == messageToSend
    {
      if messageToSend !in messagesBuf {
        messagesBuf := messagesBuf + [messageToSend];
      }
      lastMessage := messageToSend;
    }

    method GetLastMessage() returns (r: string)
      ensures r == lastMessage
    {
      r := lastMessage;
    }

    /** clear: empties the buffer; the last message is kept. */
    method Clear()
      modifies this
      ensures Valid() && messagesBuf == [] && lastMessage == old(lastMessage)
    {
      messagesBuf := [];
    }

    /** getStr: the buffered messages joined by newlines, cut to the limit. */
    method GetStr() returns (r: Result<string>)
      ensures r == Compressed(Text.Join(messagesBuf, "\n"), masOutputMessageLength)
    {
      var join := Text.Join(messagesBuf, "\n");
      if |join| > masOutputMessageLength {
        if masOutputMessageLength < 0 {
          return Err(IndexOutOfBounds);
        }
        join := "..." + join[|join| - masOutputMessageLength..];
      }
      return Ok(join);
    }
  }

  /** Messages sent through a fresh compressor: the last one is remembered, and getStr renders the distinct ones in first-seen order. */
  method CompressAll(limit: int, ms: seq<string>) returns (last: string, out: Result<string>)
    requires |ms| > 0
    ensures last == ms[|ms| - 1]
    ensures out == Compressed(Text.Join(BufferAfter(ms), "\n"), limit)
  {
    var c := new OutputCompressor(limit);
    var i := 0;
    while i < |ms|
      invariant 0 <= i <= |ms|
      invariant c.Valid() && c.messagesBuf == BufferAfter(ms[..i])
      invariant c.masOutputMessageLength == limit
      invariant i > 0 ==> c.lastMessage == ms[i - 1]
    {
      c.AddStr(ms[i]);
      assert ms[..i + 1][..i] == ms[..i];
      i := i + 1;
    }
    assert ms[..i] == ms;
    last := c.GetLastMessage();
    out := c.GetStr();
  }
}
