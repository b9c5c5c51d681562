/**
 * CustomErrorLogAppender: a log appender that forwards ERROR events to a
 * chat bot, suppressing repeats of an error (same thread and raw message)
 * while it is among the last 20 distinct errors seen.
 *
 * The bot is modelled as the list of messages it was given; the clock
 * reading that goes into the text is a parameter.
 */
module CustomErrorLogAppender {
  import opened Wrappers
  import Text

  /** Logback's ERROR level. */
  const ErrorInt := 40000
  /** The size of the evicting queue of recent error ids. */
  const QueueCapacity := 20

  /** What reaches append: a logging event, or some other object (the cast to LoggingEvent fails). */
  datatype Event =
    | LoggingEvent(levelInt: int, levelName: string, threadName: string, message: string,
                   formattedMessage: string, callerData: seq<string>)
    | OtherEvent(description: string, castError: string)

  /** The id under which an error is de-duplicated. */
  function MessageId(threadName: string, message: string): string
  {
    threadName + message
  }

  /** EvictingQueue.add: append, dropping the oldest id once the queue is full. */
  function Enqueued(q: seq<string>, id: string): (r: seq<string>)
    requires |q| <= QueueCapacity
    ensures 0 < |r| <= QueueCapacity && r[|r| - 1] == id
    ensures |q| < QueueCapacity ==> r == q + [id]
    ensures |q| == QueueCapacity ==> r == q[1..] + [id]
  {
    if |q| == QueueCapacity then q[1..] + [id] else q + [id]
  }

  /** The text sent for an error. */
  function ErrorText(e: Event, now: string): string
    requires e.LoggingEvent?
  {
    e.levelName + " thread " + e.threadName + " at " + now + ": " + e.formattedMessage + ":\n"
    + Text.Join(e.callerData, "\n\t")
  }

  /** The text sent when handling the event throws. */
  function FallbackText(description: string, error: string): string
  {
    "Didn't manage to show log '" + description + "'. Error message: " + error
  }

  /** The queue after an event, and the message handed to the bot, if any. */
  datatype Step = Step(queue: seq<string>, forwarded: Option<string>)

  /** append(event): the queue after the event and what the bot receives. */
  function AppendSpec(q: seq<string>, e: Event, now: string): (r: Step)
    requires |q| <= QueueCapacity
    ensures |r.queue| <= QueueCapacity
  {
    match e
    case OtherEvent(d, err) => Step(q, Some(FallbackText(d, err)))
    case LoggingEvent(_, _, _, _, _, _) =>
      if e.levelInt < ErrorInt then Step(q, None)
      else
        var id := MessageId(e.threadName, e.message);
        if id in q then Step(q, None)
        else Step(Enqueued(q, id), Some(ErrorText(e, now)))
  }

  /** An error text is never empty, so every new error reaches the bot. */
  lemma ErrorTextNonEmpty(e: Event, now: string)
    requires e.LoggingEvent?
    ensures |ErrorText(e, now)| > 0
  {
    assert (e.levelName + " thread ")[|e.levelName|] == ' ';
  }

  /** What append forwards: nothing below ERROR or for a recent id; the error text for a new error id, which is then recorded. */
  lemma AppendForwards(q: seq<string>, e: Event, now: string)
    requires |q| <= QueueCapacity && e.LoggingEvent?
    ensures var s := AppendSpec(q, e, now);
            && (e.levelInt < ErrorInt ==> s == Step(q, None))
            && (e.levelInt >= ErrorInt && MessageId(e.threadName, e.message) in q ==> s == Step(q, None))
            && (e.levelInt >= ErrorInt && MessageId(e.threadName, e.message) !in q ==>
                  s.forwarded == Some(ErrorText(e, now)) && MessageId(e.threadName, e.message) in s.queue)
  {
  }

  /** A full queue forgets its oldest id when a new one arrives, so that error can be reported again. */
  lemma OldestIsForgotten(q: seq<string>, id: string)
    requires |q| == QueueCapacity && id !in q
    requires forall i, j :: 0 <= i < j < |q| ==> q[i] != q[j]
    ensures q[0] !in Enqueued(q, id)
    ensures forall k :: 1 <= k < |q| ==> q[k] in Enqueued(q, id)
  {
    var r := Enqueued(q, id);
    assert forall k :: 0 <= k < |r| - 1 ==> r[k] == q[k + 1];
  }

  class CustomErrorLogAppender {
    /** The recent error ids, oldest first. */
    var queue: seq<string>
    /** Every message handed to the bot, in order. */
    var sent: seq<string>

    ghost predicate Valid()
      reads this
    {
      |queue| <= QueueCapacity && forall i, j :: 0 <= i < j < |queue| ==> queue[i] != queue[j]
    }

    constructor ()
      ensures Valid() && queue == [] && sent == []
    {
      queue := [];
      sent := [];
    }

    /** addMessage: the error text for a new error id, recorded in the queue; otherwise nothing. */
    method AddMessage(e: Event, now: string) returns (r: Result<Option<string>>)
      requires Valid()
      modifies this
      ensures Valid() && sent == old(sent)
      ensures e.OtherEvent? ==> r == Err(ClassCast) && queue == old(queue)
      ensures e.LoggingEvent? ==> r == Ok(AppendSpec(old(queue), e, now).forwarded)
                                  && queue == AppendSpec(old(queue), e, now).queue
    {
      if e.OtherEvent? {
        return Err(ClassCast);
      }
      if e.levelInt >= ErrorInt {
        var msgId := MessageId(e.threadName, e.message);
        if msgId in queue {
          return Ok(None);
        }
        if |queue| == QueueCapacity {
          queue := queue[1..];
        }
        queue := queue + [msgId];
        return Ok(Some(ErrorText(e, now)));
      }
      return Ok(None);
    }

    /** append: forward the message when there is one, or the fallback when handling threw. */
    method Append(e: Event, now: string)
      requires Valid()
      modifies this
      ensures Valid()
      ensures var s := AppendSpec(old(queue), e, now);
              queue == s.queue && sent == old(sent) + (if s.forwarded.Some? then [s.forwarded.value] else [])
    {
      if e.LoggingEvent? {
        ErrorTextNonEmpty(e, now);
      }
      var r := AddMessage(e, now);
      match r {
        case Err(_) =>
          sent := sent + [FallbackText(e.description, e.castError)];
        case Ok(message) =>
          if message.Some? && |message.value| > 0 {
            sent := sent + [message.value];
          }
      }
    }
  }

  /** The same error logged n times from one thread reaches the bot once. */
  method RepeatError(e: Event, n: nat, now: string) returns (sent: seq<string>)
    requires e.LoggingEvent? && e.levelInt >= ErrorInt && n >= 1
    ensures sent == [ErrorText(e, now)]
  {
    var appender := new CustomErrorLogAppender();
    var i := 0;
    while i < n
      invariant 0 <= i <= n
      invariant appender.Valid()
      invariant i == 0 ==> appender.sent == [] && appender.queue == []
      invariant i > 0 ==> appender.sent == [ErrorText(e, now)] && MessageId(e.threadName, e.message) in appender.queue
    {
      AppendForwards(appender.queue, e, now);
      assert [] + [ErrorText(e, now)] == [ErrorText(e, now)];
      appender.Append(e, now);
      i := i + 1;
    }
    sent := appender.sent;
  }
}
