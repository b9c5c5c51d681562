# kpa utils, modelled in Dafny

This project models the sequential core of the `org.kpa.util` Java utilities and of the small Python echo agent in the same repository. It covers these groups:

- **Echo agent** (`zmq_echo.py`): a poll loop that picks a token from each message, dispatches it through a command table (`TEST`, `CLOSE`, or the default echo handler), and shuts down with `BYE`.
- **Text parsing**: the bracket-aware CSV splitter `RomasCsv`, the currency-pair parser `CcyPair.parseSpot`, the file-path-to-ticker mapping `Pscap`, and the property lookup chain `Props`.
- **Containers and caches**: the conflating queue, the k-way merge `MultiIterable`, and the sliding-window caches `CachedList` and `StringArrayCache` over a backing store. Also the stores `StringArrayStore` and `StringArraySimple`, the message buffer `OutputCompressor`, the error de-duplication window of `CustomErrorLogAppender`, and the request/reply matcher `RequestReplyProcessor`.
- **Small state machines**: `RunOnce`, `CachedVal`, `FileRef`, `SimulatorDateSource`, the ms/ns conversions of `DateSourceHelper`, the decaying rate limiter `TurnoverCounter`, and the `Utils` helpers `valOrNull`, `convert` and `slice`.
- **Trading values**: the multi-account amount `Amnt`, the bar `Ohlc` and its producer `OhlcProducer`, the funding-rate follower `FundingCalculator`, the quote `BidAsk`, and the order lifecycle `Order`.
- **Chat bot routing**: `TelegramBot`.

There is one Dafny module per source file, plus shared helpers:

- `Wrappers` holds `Option`, `Result` and the Java and Python exceptions the model raises.
- `Arith` holds division lemmas and Java's truncating remainder.
- `Text` holds Java/Guava string operations: trim, split, join, case mapping and `compareTo`.

Modelling conventions:

- Objects whose fields the source updates are classes. Their methods are specified by pure step functions over a state datatype, so lemmas can reason about several calls.
- Value objects are datatypes.
- A thrown exception is an `Err` of a `Result`; a null is `None`.
- Doubles and `BigDecimal`s are exact reals, except `Amnt`, which keeps integer units of 10^-scale with the HALF_EVEN rounding of its source.
- Times are integers: milliseconds for `ZonedDateTime` values, nanoseconds for the date sources.
- Clocks, consumers, callbacks and sockets become parameters, flags or logs of what they would receive.

## Model

| member | source | states |
|---|---|---|
| ZmqEcho.PySplit | src/test/python/zmq_echo.py:46 | the tokens of `bytes.split()`: non-empty, free of whitespace, and none at all exactly when the payload is all whitespace |
| ZmqEcho.Read | src/test/python/zmq_echo.py:44-48 | a received payload gives its tokens; nothing queued gives the pair `(None, None)` |
| ZmqEcho.SelectMessage | src/test/python/zmq_echo.py:26-29 | two elements select the second, any other non-zero count the first, and an empty list is an IndexError |
| ZmqEcho.CommandName | src/test/python/zmq_echo.py:32 | the command is the prefix of the message before its first space, holding no space |
| ZmqEcho.CommandNameIsFirstPiece | src/test/python/zmq_echo.py:32 | that prefix is element 0 of splitting the message on `" "` |
| ZmqEcho.PollStep | src/test/python/zmq_echo.py:25-38 | one iteration never changes the command table, appends at most one message to the outbox and can only set close_code to 1 |
| ZmqEcho.Java.constructor | src/test/python/zmq_echo.py:16-21 | a new agent has the TEST and CLOSE commands, close_code 0, an empty outbox and the given default handler |
| ZmqEcho.Java.AddCmd | src/test/python/zmq_echo.py:13-14 | add_cmd overwrites any handler under the same name and changes nothing else |
| ZmqEcho.Java.Send | src/test/python/zmq_echo.py:50-51 | send appends exactly one message to the outbox |
| ZmqEcho.Java.Close | src/test/python/zmq_echo.py:53-54 | close sets close_code to 1 and sends nothing |
| ZmqEcho.Java.Term | src/test/python/zmq_echo.py:66-68 | term sets close_code to 1 and then sends "BYE" once |
| ZmqEcho.Java.Poll | src/test/python/zmq_echo.py:25-38 | one loop iteration on the object does what PollStep says |
| ZmqEcho.Java.Run | src/test/python/zmq_echo.py:23-42 | run polls while close_code is 0 and stops at the first escaping exception, as RunSpec says |
| ZmqEcho.Register | src/test/python/zmq_echo.py:88-95 | any argument count other than two (after the script name) exits with status 101 before an agent exists; otherwise a fresh agent |
| ZmqEcho.Session | src/test/python/zmq_echo.py:98-100 | the script's outcome is that of run, and "BYE" follows everything run published, however run ended |
| ZmqEcho.SelectedToken | src/test/python/zmq_echo.py:26-29 | with exactly two tokens the second is acted on, otherwise the first |
| ZmqEcho.BlankPayloadFails | src/test/python/zmq_echo.py:26-29 | a whitespace-only payload raises IndexError and changes nothing |
| ZmqEcho.EmptyPollIsNoOp | src/test/python/zmq_echo.py:30 | with nothing queued an iteration does nothing and sends nothing |
| ZmqEcho.TokenIsCommandName | src/test/python/zmq_echo.py:32 | a token holds no space, so its command name is the whole token |
| ZmqEcho.PollDispatch | src/test/python/zmq_echo.py:25-38 | a poll of a non-blank payload acts on the selected token, which is its own command name: a token that is a key of the table runs that handler on it, any other token runs the default handler on it |
| ZmqEcho.DropWhitespace | src/test/python/zmq_echo.py:46 | the payload's non-whitespace characters: no longer than the payload and free of whitespace |
| ZmqEcho.PySplitKeepsText | src/test/python/zmq_echo.py:46 | the tokens of `bytes.split()`, concatenated, are exactly the payload's non-whitespace characters in their order |
| ZmqEcho.PySplitAtWhitespace | src/test/python/zmq_echo.py:46 | the tokens of `s1 c s2` with `c` whitespace are those of `s1` followed by those of `s2`: every whitespace character is a token boundary |
| ZmqEcho.SingleWord | src/test/python/zmq_echo.py:32 | a one-word payload splits to that word, which is also its command name |
| ZmqEcho.TestSendsHeartbeat | src/test/python/zmq_echo.py:19 | TEST sends exactly one "HB" and leaves close_code alone |
| ZmqEcho.EchoOfPair | src/test/python/zmq_echo.py:16 | the default handler on "p m" sends only "m" |
| ZmqEcho.CloseExits | src/test/python/zmq_echo.py:20 | CLOSE raises SystemExit(0) and does not set the flag |
| ZmqEcho.CloseExitsThenBye | src/test/python/zmq_echo.py:61-68 | after CLOSE no further poll is made and the run ends with SystemExit(0) |
| ZmqEcho.RunAppend | src/test/python/zmq_echo.py:24 | running on two batches of polls is running on the first, then on the second from where it left off |
| ZmqEcho.RunEndsOnFlagOrInput | src/test/python/zmq_echo.py:24 | run returns normally only once close_code is set or every poll was made |
| ZmqEcho.RunOnlyAppends | src/test/python/zmq_echo.py:50-51 | what has been published stays published, in order |
| RomasCsv.ColumnNames | src/main/java/org/kpa/util/RomasCsv.java:21-24 | a null or empty header gives no columns; otherwise one column per comma-separated piece, each trimmed |
| RomasCsv.Find | src/main/java/org/kpa/util/RomasCsv.java:27-29 | CharMatcher.indexIn: -1, or an index at or after the start holding one of the characters |
| RomasCsv.FindSkips | src/main/java/org/kpa/util/RomasCsv.java:27-29 | the search passes over a stretch holding none of the characters |
| RomasCsv.FindNone | src/main/java/org/kpa/util/RomasCsv.java:27-29 | -1 means no such character remains |
| RomasCsv.LookupOpen | src/main/java/org/kpa/util/RomasCsv.java:26-43 | lookupOpen returns an index at or after the start that is either the line length or a comma |
| RomasCsv.LookupAt | src/main/java/org/kpa/util/RomasCsv.java:30-42 | the branch of lookupOpen taken once the three indexes are known, with the same result bounds |
| RomasCsv.NoCommaGivesLength | src/main/java/org/kpa/util/RomasCsv.java:29-31 | with no comma at or after the start the result is the line length |
| RomasCsv.FirstCommaBeforeBrackets | src/main/java/org/kpa/util/RomasCsv.java:39-41 | outside any group, the first comma before any opening bracket ends the field |
| RomasCsv.SkipsBalancedGroup | src/main/java/org/kpa/util/RomasCsv.java:33-42 | a balanced `{...}` or `[...]` group is skipped whole, commas inside and all |
| RomasCsv.OnlyFinalComma | src/main/java/org/kpa/util/RomasCsv.java:26-43 | a single comma at the very end ends the field whatever brackets precede it |
| RomasCsv.SplitFields | src/main/java/org/kpa/util/RomasCsv.java:50-56 | the field list parse's loop builds; empty exactly for the empty line |
| RomasCsv.FieldsAt | src/main/java/org/kpa/util/RomasCsv.java:51-55 | a non-empty line always yields at least one field |
| RomasCsv.SplitFieldsStep | src/main/java/org/kpa/util/RomasCsv.java:51-55 | one turn of the loop: no comma gives the whole line; otherwise the field before it (plus "" if only blanks follow), then the fields of the trimmed, shorter remainder |
| RomasCsv.Regroup | src/main/java/org/kpa/util/RomasCsv.java:51 | moving fields from the pending list to the found list keeps their concatenation |
| RomasCsv.TrailingComma | src/main/java/org/kpa/util/RomasCsv.java:53-55 | a trailing comma yields a final empty field |
| RomasCsv.FieldThenTrimmedRest | src/main/java/org/kpa/util/RomasCsv.java:53 | after a comma the remainder is trimmed before it is split further |
| RomasCsv.CollapseQuotes | src/main/java/org/kpa/util/RomasCsv.java:64 | replace("\"\"", "\"") never lengthens the value |
| RomasCsv.EscapeQuotes | src/main/java/org/kpa/util/RomasCsv.java:62-66 | the RFC 4180 escape never shortens a value and leaves quote-free values alone |
| RomasCsv.CollapseEscape | src/main/java/org/kpa/util/RomasCsv.java:64 | collapsing doubled quotes undoes the escape |
| RomasCsv.UnquoteAsWritten | src/main/java/org/kpa/util/RomasCsv.java:63-66 | the clean-up as written leaves quote-free values alone |
| RomasCsv.Unquote | src/main/java/org/kpa/util/RomasCsv.java:63-66 | the corrected clean-up leaves quote-free values alone and never lengthens a value |
| RomasCsv.UnquoteRoundTrip | src/main/java/org/kpa/util/RomasCsv.java:63-66 | every value, escaped and quoted as RFC 4180 section 2 says, comes back unchanged |
| RomasCsv.EmptyQuotedThrows | src/main/java/org/kpa/util/RomasCsv.java:64-65 | as written, the quoted empty value `""` makes substring throw; corrected, it gives "" |
| RomasCsv.QuotedQuoteLost | src/main/java/org/kpa/util/RomasCsv.java:64-65 | as written, `""""` comes out empty; corrected, it gives one quote |
| RomasCsv.Put | src/main/java/org/kpa/util/RomasCsv.java:67 | LinkedHashMap.put: the pair is present afterwards and the row grows by at most one entry |
| RomasCsv.Cleaned | src/main/java/org/kpa/util/RomasCsv.java:62-66 | corrected (see Findings): every field is cleaned of its quotes by the corrected `Unquote`, position by position; as written, the field `""` throws (UnquoteAsWritten) |
| RomasCsv.ParseSpec | src/main/java/org/kpa/util/RomasCsv.java:58-59 | corrected (see Findings): parse fails with IllegalArgumentException exactly when the field count differs from the column count, and otherwise gives the fields cleaned by the corrected `Unquote` |
| RomasCsv.BuildRowInOrder | src/main/java/org/kpa/util/RomasCsv.java:60-68 | with distinct column names, entry i of the row is column i with value i, in header order |
| RomasCsv.PutNewKey | src/main/java/org/kpa/util/RomasCsv.java:67 | putting a key not yet present appends it |
| RomasCsv.RomasCsv.constructor | src/main/java/org/kpa/util/RomasCsv.java:21-24 | the column names are those ColumnNames gives |
| RomasCsv.RomasCsv.ParseFields | src/main/java/org/kpa/util/RomasCsv.java:45-56 | the loop collects exactly the fields SplitFields gives |
| RomasCsv.RomasCsv.Parse | src/main/java/org/kpa/util/RomasCsv.java:45-70 | corrected (see Findings): parse returns what ParseSpec gives, with quotes removed by the corrected `Unquote` rather than UnquoteAsWritten |
| RomasCsv.RomasCsv.FillRow | src/main/java/org/kpa/util/RomasCsv.java:60-68 | the filling loop puts column i with value i for every i, in order |
| ConflatingQueue.ConflatingQueueImpl.constructor | src/main/java/org/kpa/util/queue/ConflatingQueueImpl.java:10-11 | a new queue has no pending key and no stored entry |
| ConflatingQueue.ConflatingQueueImpl.Offer | src/main/java/org/kpa/util/queue/ConflatingQueueImpl.java:13-29 | null throws NullPointerException and changes nothing; a new key goes to the back with its entry; a pending key keeps its place and only its entry is replaced; the queue stays valid |
| ConflatingQueue.ConflatingQueueImpl.Take | src/main/java/org/kpa/util/queue/ConflatingQueueImpl.java:31-42 | keys without an entry are skipped; the first key with one is removed with its entry, which is returned; in a valid queue that is the front key and the queue stays valid |
| ConflatingQueue.ConflatingQueueImpl.IsEmpty | src/main/java/org/kpa/util/queue/ConflatingQueueImpl.java:44-47 | empty iff no key is pending, iff no entry is stored |
| ConflatingQueue.TakeKeeps | src/main/java/org/kpa/util/queue/ConflatingQueueImpl.java:34-41 | removing the first live key and its entry keeps keys distinct and entries matched to pending keys |
| ConflatingQueue.FirstLive | src/main/java/org/kpa/util/queue/ConflatingQueueImpl.java:34-36 | the first pending key with an entry, with none before it |
| ConflatingQueue.FirstLiveAt | src/main/java/org/kpa/util/queue/ConflatingQueueImpl.java:34-36 | a live key with no live key before it is the one found |
| ConflatingQueue.FirstLiveNone | src/main/java/org/kpa/util/queue/ConflatingQueueImpl.java:34-36 | with no live key the search runs off the end |
| ConflatingQueue.ConflationScenario | src/test/java/org/kpa/util/queue/ConflatingQueueImplTest.java:43-50 | BTC 7001, ETH 250, BTC 7002 are taken as BTC 7002 then ETH 250, and the queue is then empty |
| MultiIterable.Create | src/main/java/org/kpa/util/MultiIterable.java:21-25 | create drops the null iterables and keeps the others: its length is at most the input's, and an iterable is in the result exactly when it is present in the input |
| MultiIterable.CreateAppend | src/main/java/org/kpa/util/MultiIterable.java:21-25 | order: create of a concatenation is create of each part, concatenated; a null iterable gives nothing and a present one gives itself |
| MultiIterable.PeekIterator.constructor | src/main/java/org/kpa/util/MultiIterable.java:98-100 | a new PeekIterator has read nothing and buffers nothing |
| MultiIterable.PeekIterator.HasNext | src/main/java/org/kpa/util/MultiIterable.java:102-108 | an empty buffer is filled with the next element; the answer is whether the buffer holds a non-null element, so a null element reads as the end |
| MultiIterable.PeekIterator.Next | src/main/java/org/kpa/util/MultiIterable.java:110-116 | next returns the buffered (or freshly read) element and empties the buffer |
| MultiIterable.PeekIterator.PeekNext | src/main/java/org/kpa/util/MultiIterable.java:118-121 | peekNext returns what next would return, without consuming it |
| MultiIterable.Insert | src/main/java/org/kpa/util/MultiIterable.java:66-84 | one step of the stable sort: one more source, the same sources plus the new one |
| MultiIterable.SortByHead | src/main/java/org/kpa/util/MultiIterable.java:66-84 | Collections.sort keeps the same sources |
| MultiIterable.RemoveExhausted | src/main/java/org/kpa/util/MultiIterable.java:86 | removeIf keeps exactly the sources with an element left |
| MultiIterable.InsertSorted | src/main/java/org/kpa/util/MultiIterable.java:66-84 | stable insertion keeps the list sorted by head |
| MultiIterable.ElementsAppend | src/main/java/org/kpa/util/MultiIterable.java:34-36 | the elements of two source lists together are those of each |
| MultiIterable.InsertElements | src/main/java/org/kpa/util/MultiIterable.java:66-84 | insertion adds the new source's elements and loses none |
| MultiIterable.SortByHeadProps | src/main/java/org/kpa/util/MultiIterable.java:66-84 | the sort gives a list sorted by head (exhausted sources last) with the same elements |
| MultiIterable.SortByHeadSorted | src/main/java/org/kpa/util/MultiIterable.java:66-84 | the sorted list is sorted by head |
| MultiIterable.SortByHeadElements | src/main/java/org/kpa/util/MultiIterable.java:66-84 | the sorted list holds the same elements |
| MultiIterable.ElementsLast | src/main/java/org/kpa/util/MultiIterable.java:34-36 | the elements of a list are those of all but its last source plus the last source's |
| MultiIterable.RemoveExhaustedProps | src/main/java/org/kpa/util/MultiIterable.java:85-87 | removing exhausted sources keeps the list sorted and loses no element |
| MultiIterable.SortProps | src/main/java/org/kpa/util/MultiIterable.java:64-88 | after sort the list is sorted by head, has the same elements and only sources it had |
| MultiIterable.SortDropsExhausted | src/main/java/org/kpa/util/MultiIterable.java:70-87 | with two or more sources no exhausted source is left after sort |
| MultiIterable.SortKeepsLive | src/main/java/org/kpa/util/MultiIterable.java:64-88 | a source with an element survives sort, and then the first source has one |
| MultiIterable.HasNextState | src/main/java/org/kpa/util/MultiIterable.java:42-55 | hasNext keeps the iterator's invariant and loses no element |
| MultiIterable.HasNextIff | src/main/java/org/kpa/util/MultiIterable.java:42-55 | hasNext is true iff some source still has an element |
| MultiIterable.HasNextReady | src/main/java/org/kpa/util/MultiIterable.java:43-53 | when hasNext is true the current source's head is not greater than any other head, so ties stay with the current source |
| MultiIterable.NextFromReady | src/main/java/org/kpa/util/MultiIterable.java:57-60 | next then returns that head and removes exactly it |
| MultiIterable.ReadyHeadIsMinimum | src/main/java/org/kpa/util/MultiIterable.java:43-53 | with ascending sources that head is a minimum of everything left |
| MultiIterable.ElementsBound | src/main/java/org/kpa/util/MultiIterable.java:43-53 | a bound on the heads of ascending sources bounds all their elements |
| MultiIterable.AscendingAfterSort | src/main/java/org/kpa/util/MultiIterable.java:64-88 | sorting the list keeps every source ascending |
| MultiIterable.MergeIterator.constructor | src/main/java/org/kpa/util/MultiIterable.java:33-39 | iterator() starts with every source and no current one |
| MultiIterable.MergeIterator.HasNext | src/main/java/org/kpa/util/MultiIterable.java:41-55 | hasNext does what HasNextState and HasNextAnswer say |
| MultiIterable.MergeIterator.Next | src/main/java/org/kpa/util/MultiIterable.java:57-60 | next throws NullPointerException with no current source, gives null for an exhausted one, else its head |
| MultiIterable.HasNextKeepsDrained | src/main/java/org/kpa/util/MultiIterable.java:42-55 | a hasNext call keeps the drain invariant; false means nothing is left |
| MultiIterable.NextKeepsDrained | src/main/java/org/kpa/util/MultiIterable.java:57-60 | a next after a true hasNext moves exactly one element to the output, in order |
| MultiIterable.AppendMinimum | src/main/java/org/kpa/util/MultiIterable.java:57-60 | appending an element between the last output and everything left keeps the output ascending |
| MultiIterable.Merge | src/main/java/org/kpa/util/MultiIterable.java:32-62 | draining the iterator yields a permutation of all the elements, ascending when each source is |
| MultiIterable.EmptySourcesHaveNoElements | src/main/java/org/kpa/util/MultiIterable.java:85-87 | sources that are all exhausted hold no element |
| CachedList.Evicted | src/main/java/org/kpa/util/CachedList.java:62-71 | eviction never touches the store, never grows the window, and leaves it at most capacity or below capacity + step |
| CachedList.AppendedAsWritten | src/main/java/org/kpa/util/CachedList.java:52-60 | add/addAll as written append the entries to the store |
| CachedList.Appended | src/main/java/org/kpa/util/CachedList.java:52-60 | corrected add/addAll append to the store and leave an invalid window invalid and empty |
| CachedList.Invalidated | src/main/java/org/kpa/util/CachedList.java:44-50 | clearCache marks the window invalid (-1, empty) and keeps the store |
| CachedList.Reloaded | src/main/java/org/kpa/util/CachedList.java:87-96 | a window starting in range and at least capacity from the end is kept; otherwise the last capacity entries are reloaded; a valid cache stays valid |
| CachedList.GetOf | src/main/java/org/kpa/util/CachedList.java:98-105 | get reads the store's entry and fails exactly outside the store |
| CachedList.Cleared | src/main/java/org/kpa/util/CachedList.java:160-167 | clear leaves an empty store and a valid empty window at index 0 |
| CachedList.EvictKeepsValid | src/main/java/org/kpa/util/CachedList.java:62-71 | eviction keeps the window equal to the store's tail from lastStartIndex |
| CachedList.AddAllKeepsValid | src/main/java/org/kpa/util/CachedList.java:52-60 | the corrected add keeps the window a tail of the store and, while valid, bounded |
| CachedList.AddAllBounded | src/main/java/org/kpa/util/CachedList.java:62-71 | after every add the window is below capacity + step (or at most capacity) |
| CachedList.SubListCorrect | src/main/java/org/kpa/util/CachedList.java:107-133 | through a valid cache subList returns exactly the store's slice [startIndex, min(toIndex, size)); toIndex < startIndex throws IllegalArgumentException; startIndex past the end gives []; toIndex == startIndex throws IllegalStateException unless the store is read directly |
| CachedList.SubListKeepsStore | src/main/java/org/kpa/util/CachedList.java:107-133 | subList never changes the store |
| CachedList.AddAfterClearCacheAsWritten | src/main/java/org/kpa/util/CachedList.java:44-60 | as written, adds after clearCache leave a window that does not match the store, and subList(1, 2) returns entry 2 instead of entry 1 |
| CachedList.AddAfterClearCacheCorrected | src/main/java/org/kpa/util/CachedList.java:44-60 | corrected, the same adds leave a valid cache and subList(1, 2) returns entry 1 |
| CachedList.CachedList.constructor | src/main/java/org/kpa/util/CachedList.java:34-38 | a new list has an empty store and a valid empty window at index 0 |
| CachedList.CachedList.GetCachedSize | src/main/java/org/kpa/util/CachedList.java:40-42 | the window's length |
| CachedList.CachedList.ClearCache | src/main/java/org/kpa/util/CachedList.java:44-50 | the new state is Invalidated's |
| CachedList.CachedList.Evict | src/main/java/org/kpa/util/CachedList.java:62-71 | the new state is Evicted's |
| CachedList.CachedList.AddAll | src/main/java/org/kpa/util/CachedList.java:52-60 | the new state is the corrected Appended's, and the result is true |
| CachedList.CachedList.Add | src/main/java/org/kpa/util/CachedList.java:77-85 | corrected (see Findings): the new state is that of the corrected Appended for one entry, which leaves a cleared window alone (AppendedAsWritten does not), and the result is true |
| CachedList.CachedList.ReloadCacheIfRequired | src/main/java/org/kpa/util/CachedList.java:87-96 | the new state is Reloaded's |
| CachedList.CachedList.Get | src/main/java/org/kpa/util/CachedList.java:98-105 | get returns GetOf's result and changes nothing |
| CachedList.CachedList.SubList | src/main/java/org/kpa/util/CachedList.java:107-133 | result and new state are those of SubListSpec |
| CachedList.CachedList.Size | src/main/java/org/kpa/util/CachedList.java:141-146 | size is the store's size |
| CachedList.CachedList.Clear | src/main/java/org/kpa/util/CachedList.java:160-167 | the new state is Cleared's |
| CachedList.FillAndRead | src/test/java/org/kpa/util/CachedListTest.java:33-48 | a list filled one entry at a time answers every in-range subList with the store's own slice, whatever capacity and step |
| StringArrayCache.Evicted | src/main/java/org/kpa/util/StringArrayCache.java:52-61 | eviction keeps the store and a window, and leaves it at most capacity or below capacity + step |
| StringArrayCache.Appended | src/main/java/org/kpa/util/StringArrayCache.java:42-50 | the rows always reach the store; with no window the cache stays windowless at index -1 |
| StringArrayCache.Invalidated | src/main/java/org/kpa/util/StringArrayCache.java:34-40 | clearCache leaves a valid, windowless cache over the same store |
| StringArrayCache.ReloadedAsWritten | src/main/java/org/kpa/util/StringArrayCache.java:77-86 | reloadCache as written never changes the store |
| StringArrayCache.Reloaded | src/main/java/org/kpa/util/StringArrayCache.java:77-86 | corrected reload keeps the store, and from a valid cache leaves a window that is the store's tail starting at or before the requested index |
| StringArrayCache.StoreTail | src/main/java/org/kpa/util/StringArrayCache.java:84 | reading the store from a start inside it up to its size is the store's tail |
| StringArrayCache.AppendedKeepsValid | src/main/java/org/kpa/util/StringArrayCache.java:42-75 | adds keep the window a tail of the store, bounded by capacity + step |
| StringArrayCache.GetCorrect | src/main/java/org/kpa/util/StringArrayCache.java:88-94 | with the corrected reload, get(index) is the store's row at index, IndexOutOfBoundsException outside it, and the cache stays valid |
| StringArrayCache.SubListCorrect | src/main/java/org/kpa/util/StringArrayCache.java:96-116 | corrected (see Findings): with the corrected Reloaded, subList inside the store returns the store's rows from startIndex, at most maxCount, by either path; a start past the end or a non-positive count on the window path throws IllegalStateException |
| StringArrayCache.FirstRow | src/main/java/org/kpa/util/StringArrayCache.java:118-121 | get() is the first row of a non-empty store and IllegalStateException on an empty one |
| StringArrayCache.ReloadPastEndAsWritten | src/main/java/org/kpa/util/StringArrayCache.java:77-94 | as written, get(7) after clearCache on five rows, then three adds, returns the row at index 5, not 7 |
| StringArrayCache.NegativeGetAsWritten | src/main/java/org/kpa/util/StringArrayCache.java:77-94 | as written, get(-1) returns the first row; corrected, it throws IndexOutOfBoundsException |
| StringArrayCache.ReloadPastEndCorrected | src/main/java/org/kpa/util/StringArrayCache.java:77-94 | corrected, the same steps end with get(7) returning the row at index 7 |
| StringArrayCache.StringArrayCache.constructor | src/main/java/org/kpa/util/StringArrayCache.java:13-28 | a new cache has an empty store, window [] at index 0, and the given capacity and step |
| StringArrayCache.StringArrayCache.GetCachedSize | src/main/java/org/kpa/util/StringArrayCache.java:30-32 | the window's size, NullPointerException when there is none |
| StringArrayCache.StringArrayCache.ClearCache | src/main/java/org/kpa/util/StringArrayCache.java:34-40 | the new state is Invalidated of the old |
| StringArrayCache.StringArrayCache.Evict | src/main/java/org/kpa/util/StringArrayCache.java:52-61 | the new state is Evicted of the old |
| StringArrayCache.StringArrayCache.AddAll | src/main/java/org/kpa/util/StringArrayCache.java:42-50 | the new state is Appended of the old; NullPointerException exactly when there was no window |
| StringArrayCache.StringArrayCache.Add | src/main/java/org/kpa/util/StringArrayCache.java:67-75 | the new state is Appended of the old with one row; NullPointerException exactly when there was no window |
| StringArrayCache.StringArrayCache.ReloadCache | src/main/java/org/kpa/util/StringArrayCache.java:77-86 | the new state is the corrected Reloaded of the old |
| StringArrayCache.StringArrayCache.Get | src/main/java/org/kpa/util/StringArrayCache.java:88-94 | result and new state are GetSpec of the old state, so GetCorrect applies |
| StringArrayCache.StringArrayCache.SubList | src/main/java/org/kpa/util/StringArrayCache.java:96-116 | corrected (see Findings): result and new state are SubListSpec of the old state, which reloads through the corrected Reloaded, so SubListCorrect applies |
| StringArrayCache.StringArrayCache.GetFirst | src/main/java/org/kpa/util/StringArrayCache.java:118-121 | corrected (see Findings): result and new state are those of the corrected subList(0, 1) |
| StringArrayCache.StringArrayCache.Size | src/main/java/org/kpa/util/StringArrayCache.java:123-128 | the number of rows in the store |
| StringArrayCache.AddAndRead | src/test/java/org/kpa/util/StringArrayCacheTest.java:25-37 | corrected (see Findings): rows added to a fresh cache are read back by index, IndexOutOfBoundsException outside them, including for a negative index (as written, `get(-1)` can return row 0: NegativeGetAsWritten) |
| StringArrayStore.SubListSpec | src/main/java/org/kpa/util/StringArrayStore.java:94-115 | subList never returns more rows than the store holds |
| StringArrayStore.SubListWindow | src/main/java/org/kpa/util/StringArrayStore.java:94-115 | with a positive count, subList is the rows from startIndex, at most maxCount of them |
| StringArrayStore.SubListZeroCount | src/main/java/org/kpa/util/StringArrayStore.java:105-112 | a count of zero or less still returns the first row of a non-empty store, because the bound test follows the add |
| StringArrayStore.SubListPastEnd | src/main/java/org/kpa/util/StringArrayStore.java:94-115 | a start past the last row gives nothing |
| StringArrayStore.StringArrayStore.constructor | src/main/java/org/kpa/util/StringArrayStore.java:41-45 | a new store is empty, with size 0 and the given id |
| StringArrayStore.StringArrayStore.AddAll | src/main/java/org/kpa/util/StringArrayStore.java:47-58 | the rows are appended in order and the size grows by their number |
| StringArrayStore.StringArrayStore.Add | src/main/java/org/kpa/util/StringArrayStore.java:60-67 | one row appended and the size one larger |
| StringArrayStore.StringArrayStore.Get | src/main/java/org/kpa/util/StringArrayStore.java:75-92 | the scan returns the row at index, IndexOutOfBoundsException outside the store |
| StringArrayStore.StringArrayStore.SubList | src/main/java/org/kpa/util/StringArrayStore.java:94-115 | the scan returns SubListSpec, whose properties the lemmas above state |
| StringArrayStore.StringArrayStore.GetAll | src/main/java/org/kpa/util/StringArrayStore.java:117-126 | every row in insertion order |
| StringArrayStore.StringArrayStore.Size | src/main/java/org/kpa/util/StringArrayStore.java:128-131 | the size counter equals the number of rows |
| StringArrayStore.StringArrayStore.Clear | src/main/java/org/kpa/util/StringArrayStore.java:139-150 | the store is empty and the size 0 |
| StringArrayStore.StoreScenario | src/test/java/org/kpa/util/StringArrayStoreTest.java:19-54 | rows added in a batch and singly come back from get() and get(index) in order, with the right size |
| StringArraySimple.GetOf | src/main/java/org/kpa/util/StringArraySimple.java:23-27 | a row exactly for an index in [0, size), IndexOutOfBoundsException otherwise |
| StringArraySimple.SubListOf | src/main/java/org/kpa/util/StringArraySimple.java:29-32 | succeeds exactly when 0 <= start, 0 <= count and start + count <= size, with count rows |
| StringArraySimple.SubListAgreesWithGet | src/main/java/org/kpa/util/StringArraySimple.java:23-32 | each row of a successful subList is what get returns at that position |
| StringArraySimple.SubListErrors | src/main/java/org/kpa/util/StringArraySimple.java:29-32 | a range that does not fit fails with IndexOutOfBounds or IllegalArgument as java.util.List does |
| StringArraySimple.StringArraySimple.constructor | src/main/java/org/kpa/util/StringArraySimple.java:9 | a new list is empty |
| StringArraySimple.StringArraySimple.AddAll | src/main/java/org/kpa/util/StringArraySimple.java:11-15 | the rows are appended in order |
| StringArraySimple.StringArraySimple.Add | src/main/java/org/kpa/util/StringArraySimple.java:17-21 | one row appended |
| StringArraySimple.StringArraySimple.Get | src/main/java/org/kpa/util/StringArraySimple.java:23-27 | the result is GetOf of the list |
| StringArraySimple.StringArraySimple.SubList | src/main/java/org/kpa/util/StringArraySimple.java:29-32 | the result is SubListOf of the list |
| StringArraySimple.StringArraySimple.GetAll | src/main/java/org/kpa/util/StringArraySimple.java:34-37 | the whole list in order |
| StringArraySimple.StringArraySimple.Size | src/main/java/org/kpa/util/StringArraySimple.java:39-42 | the number of rows |
| StringArraySimple.SimpleScenario | src/main/java/org/kpa/util/StringArraySimple.java:11-42 | rows added in a batch and singly are read back by index in insertion order, with the right size |
| OutputCompressor.Buffered | src/main/java/org/kpa/util/telegram/OutputCompressor.java:17-20 | adding a message to the LinkedHashSet leaves exactly the old messages plus the new one, and keeps them distinct |
| OutputCompressor.FirstIndex | src/main/java/org/kpa/util/telegram/OutputCompressor.java:11 | the first position at which a message occurs |
| OutputCompressor.FirstIndexSnoc | src/main/java/org/kpa/util/telegram/OutputCompressor.java:17-20 | a later message never moves the first occurrence of an earlier one |
| OutputCompressor.BufferIsFirstOccurrences | src/main/java/org/kpa/util/telegram/OutputCompressor.java:11-20 | after any sequence of addStr the buffer holds each message sent exactly once, ordered by first insertion |
| OutputCompressor.ReAddKeepsOrder | src/main/java/org/kpa/util/telegram/OutputCompressor.java:17-20 | re-adding a buffered message leaves the buffer unchanged |
| OutputCompressor.Compressed | src/main/java/org/kpa/util/telegram/OutputCompressor.java:30-36 | getStr's cut fails exactly when the join is too long and the limit negative |
| OutputCompressor.CompressedShape | src/main/java/org/kpa/util/telegram/OutputCompressor.java:30-36 | a cut result is "..." followed by the join's last limit characters; a join within the limit is returned as is |
| OutputCompressor.OutputCompressor.constructor | src/main/java/org/kpa/util/telegram/OutputCompressor.java:9-15 | an empty buffer, an empty last message and the given limit |
| OutputCompressor.OutputCompressor.AddStr | src/main/java/org/kpa/util/telegram/OutputCompressor.java:17-20 | the buffer becomes Buffered of the old one and the last message is the new one |
| OutputCompressor.OutputCompressor.GetLastMessage | src/main/java/org/kpa/util/telegram/OutputCompressor.java:22-24 | the last message added |
| OutputCompressor.OutputCompressor.Clear | src/main/java/org/kpa/util/telegram/OutputCompressor.java:26-28 | the buffer is emptied and the last message kept |
| OutputCompressor.OutputCompressor.GetStr | src/main/java/org/kpa/util/telegram/OutputCompressor.java:30-36 | the buffered messages joined by newlines, cut by Compressed |
| OutputCompressor.CompressAll | src/test/java/org/kpa/util/telegram/OutputCompressorTest.java:10-18 | after a run of addStr the last message is the final one sent and getStr renders the distinct messages in first-seen order |
| CustomErrorLogAppender.Enqueued | src/main/java/org/kpa/util/CustomErrorLogAppender.java:28 | the evicting queue keeps at most 20 ids, ends with the new one, and drops the oldest only when full |
| CustomErrorLogAppender.AppendSpec | src/main/java/org/kpa/util/CustomErrorLogAppender.java:34-61 | an append never lets the queue exceed 20 ids |
| CustomErrorLogAppender.ErrorTextNonEmpty | src/main/java/org/kpa/util/CustomErrorLogAppender.java:38-57 | an error text is never empty, so the emptiness test never suppresses a new error |
| CustomErrorLogAppender.AppendForwards | src/main/java/org/kpa/util/CustomErrorLogAppender.java:47-61 | nothing is forwarded below ERROR or for an id in the queue; a new error id is forwarded with its text and recorded |
| CustomErrorLogAppender.OldestIsForgotten | src/main/java/org/kpa/util/CustomErrorLogAppender.java:28-54 | a full queue forgets its oldest id and keeps the other 19 when a new id arrives |
| CustomErrorLogAppender.CustomErrorLogAppender.constructor | src/main/java/org/kpa/util/CustomErrorLogAppender.java:28-32 | an empty queue and nothing sent |
| CustomErrorLogAppender.CustomErrorLogAppender.AddMessage | src/main/java/org/kpa/util/CustomErrorLogAppender.java:47-61 | a non-logging event throws ClassCastException; otherwise the result and the queue are those of AppendSpec |
| CustomErrorLogAppender.CustomErrorLogAppender.Append | src/main/java/org/kpa/util/CustomErrorLogAppender.java:34-45 | the queue is AppendSpec's and the bot receives exactly the message AppendSpec forwards, or the fallback text |
| CustomErrorLogAppender.RepeatError | src/test/java/org/kpa/util/CustomErrorLogAppenderTest.java:17-29 | the same error logged n times from one thread reaches the bot once |
| DateSourceHelper.NsToMs | src/main/java/org/kpa/util/DateSourceHelper.java:23-25 | Java's truncating division: for non-negative nanos the whole milliseconds not exceeding it, for negative nanos rounded toward zero |
| DateSourceHelper.MsToNs | src/main/java/org/kpa/util/DateSourceHelper.java:33-35 | a whole number of milliseconds in nanoseconds, which nsToMs maps back to the same millis |
| DateSourceHelper.MsToNsRoundTrip | src/main/java/org/kpa/util/DateSourceHelper.java:23-35 | nsToMs(msToNs(m)) == m, and msToNs is injective |
| DateSourceHelper.NsToMsMonotone | src/main/java/org/kpa/util/DateSourceHelper.java:23-25 | nsToMs is monotone |
| DateSourceHelper.NsToMsToNs | src/main/java/org/kpa/util/DateSourceHelper.java:23-35 | nanos to millis and back loses less than a millisecond and never rounds up |
| DateSourceHelper.MillisOfSmallNanos | src/test/java/org/kpa/util/SimulatorDateSourceTest.java:15-19 | 1_000 ns is 0 ms, 1_000_000 ns is 1 ms, and -1_000 ns is 0 ms |
| SimulatorDateSource.SimulatorDateSource.constructor | src/main/java/org/kpa/util/SimulatorDateSource.java:17 | the clock starts at 0 |
| SimulatorDateSource.SimulatorDateSource.AddNanos | src/main/java/org/kpa/util/SimulatorDateSource.java:19-21 | the clock advances by the given nanoseconds |
| SimulatorDateSource.SimulatorDateSource.AddMillis | src/main/java/org/kpa/util/SimulatorDateSource.java:23-25 | the clock advances by millis times 1_000_000 |
| SimulatorDateSource.SimulatorDateSource.SetNanos | src/main/java/org/kpa/util/SimulatorDateSource.java:27-31 | a negative time throws IllegalArgumentException and leaves the clock; otherwise the clock is set |
| SimulatorDateSource.SimulatorDateSource.SetMillis | src/main/java/org/kpa/util/SimulatorDateSource.java:33-35 | succeeds exactly for non-negative millis, after which the clock reads those millis back |
| SimulatorDateSource.SimulatorDateSource.Nanos | src/main/java/org/kpa/util/SimulatorDateSource.java:37-40 | the clock's nanoseconds |
| SimulatorDateSource.SimulatorDateSource.Millis | src/main/java/org/kpa/util/DateSource.java:18-20 | the clock in whole milliseconds, truncated: never more than the clock and less than a millisecond below it |
| SimulatorDateSource.ClockScenario | src/test/java/org/kpa/util/SimulatorDateSourceTest.java:12-20 | after 1_000 ns the clock reads 0 ms, after 999_000 ns more it reads 1 ms |
| TurnoverCounter.DecayIsLinear | src/main/java/org/kpa/util/TurnoverCounter.java:35-38 | the recorded turnover decays linearly: full at the recording time, zero once the range has passed, between 0 and the value in between |
| TurnoverCounter.AddRecordsUndecayed | src/main/java/org/kpa/util/TurnoverCounter.java:48-52 | the value addValue records is read back undecayed at the same instant |
| TurnoverCounter.CanAddIffAddAccepted | src/main/java/org/kpa/util/TurnoverCounter.java:48-61 | for a positive value, canAddValue holds exactly when addValue at the same instant would not throw ValidationException |
| TurnoverCounter.TurnoverCounter.constructor | src/main/java/org/kpa/util/TurnoverCounter.java:19-22 | the range is kept in nanoseconds, with nothing recorded |
| TurnoverCounter.TurnoverCounter.GetLastVal | src/main/java/org/kpa/util/TurnoverCounter.java:35-38 | the decayed turnover at the clock's reading |
| TurnoverCounter.TurnoverCounter.AddValue | src/main/java/org/kpa/util/TurnoverCounter.java:48-56 | a non-positive value throws IllegalArgumentException and changes nothing; otherwise the decayed value plus v is recorded now, and ValidationException is thrown exactly when that exceeds the maximum |
| TurnoverCounter.TurnoverCounter.CanAddValue | src/main/java/org/kpa/util/TurnoverCounter.java:58-61 | IllegalArgumentException for a non-positive value, otherwise whether decayed turnover plus the value stays within the maximum |
| TurnoverCounter.TurnoverCounter.RunIfCan | src/main/java/org/kpa/util/TurnoverCounter.java:24-33 | runs exactly when a unit fits, and then records it without exceeding the maximum; otherwise nothing changes |
| TurnoverCounter.TurnoverCounter.SetDateSource | src/main/java/org/kpa/util/TurnoverCounter.java:84-90 | null throws NullPointerException and keeps the clock; otherwise the clock is replaced; the turnover is untouched |
| TurnoverCounter.TurnoverScenario | src/test/java/org/kpa/util/TurnoverCounterTest.java:42-59 | with a limit of 2 per second, a third unit does not fit, one does after half a second, and a rejected add still counts |
| RunOnce.RunOnce.constructor | src/main/java/org/kpa/util/RunOnce.java:6-7 | a fresh guard has not started and nothing has run |
| RunOnce.RunOnce.Run | src/main/java/org/kpa/util/RunOnce.java:9-24 | the first call runs the action once and returns true (or propagates its exception), marking completion either way; every later call returns false, runs onUnable when given, and never the action |
| RunOnce.RunOnce.IsActed | src/main/java/org/kpa/util/RunOnce.java:26-28 | true exactly when the action has run |
| RunOnce.RunMany | src/main/java/org/kpa/util/RunOnce.java:9-28 | over any sequence of calls only the first returns true or throws, the action runs at most once, and isActed holds iff there was a call |
| CachedVal.CachedVal.constructor | src/main/java/org/kpa/util/CachedVal.java:12-14 | the cell is empty and the getter not yet called |
| CachedVal.CachedVal.Get | src/main/java/org/kpa/util/CachedVal.java:16-22 | a stored value is returned without calling the getter; an empty cell calls it once and stores its answer, even a null one |
| CachedVal.CachedVal.Set | src/main/java/org/kpa/util/CachedVal.java:24-26 | the stored value is replaced and the getter not called |
| CachedVal.FirstSome | src/main/java/org/kpa/util/CachedVal.java:16-22 | the first non-null answer, null exactly when all answers are null |
| CachedVal.CallsUntilSome | src/main/java/org/kpa/util/CachedVal.java:18-20 | the getter is called until and including its first non-null answer |
| CachedVal.FirstSomeSnoc | src/main/java/org/kpa/util/CachedVal.java:16-22 | one more get keeps an earlier non-null answer and costs a getter call only while none was non-null |
| CachedVal.Replies | src/main/java/org/kpa/util/CachedVal.java:16-22 | one reply per get call |
| CachedVal.RepliesSpec | src/main/java/org/kpa/util/CachedVal.java:16-22 | each get returns the first non-null answer seen so far |
| CachedVal.GetMany | src/main/java/org/kpa/util/CachedVal.java:16-22 | successive gets on a fresh cell return Replies, and the getter runs exactly CallsUntilSome times |
| CachedVal.SetThenGet | src/main/java/org/kpa/util/CachedVal.java:16-26 | after set(v), get returns v without calling the getter |
| Props.FirstAnswer | src/main/java/org/kpa/util/Props.java:39-42 | the first non-null provider answer in registration order, null iff every provider answers null |
| Props.Props.constructor | src/main/java/org/kpa/util/Props.java:12 | no custom providers |
| Props.Props.SetCustomProps | src/main/java/org/kpa/util/Props.java:14-16 | the provider is registered after the existing ones |
| Props.Props.Lookup | src/main/java/org/kpa/util/Props.java:36-43 | a non-empty system property wins, then a non-empty environment variable, then the first provider answer |
| Props.Props.GetProperty | src/main/java/org/kpa/util/Props.java:35-54 | IllegalArgumentException exactly when the lookup is empty and throwOnAbsent; otherwise the found value, or the default when empty |
| Props.Props.GetPropertyOrDefault | src/main/java/org/kpa/util/Props.java:31-33 | throws exactly when the default is null and nothing is found; otherwise non-null iff a default or a value exists |
| Props.Props.GetSilentOr | src/main/java/org/kpa/util/Props.java:18-20 | never throws; the found value, else the default |
| Props.Props.GetSilent | src/main/java/org/kpa/util/Props.java:26-28 | never throws; null exactly when nothing non-empty is found, else the found value |
| Props.Props.GetList | src/main/java/org/kpa/util/Props.java:22-24 | an absent property throws NullPointerException; otherwise the value split on ';', trimmed, empty pieces dropped, each piece non-empty and free of ';' |
| Props.TrimOmitEmptyKeepsNoSeparator | src/main/java/org/kpa/util/Props.java:22-24 | trimming and dropping empty pieces never brings back a separator |
| Props.TrimmedIsInfix | src/main/java/org/kpa/util/Props.java:23 | trimming keeps only characters of the original piece |
| Props.EarlierProviderWins | src/main/java/org/kpa/util/Props.java:14-42 | registering a provider later never overrides an earlier provider's answer |
| FileRef.Reasoned | src/main/java/org/kpa/util/FileRef.java:23-26 | a reasoned ref keeps the path, has no second path, and files every entry under the reason |
| FileRef.ReasonKeepsLines | src/main/java/org/kpa/util/FileRef.java:23-26 | exactly the same line numbers, all under the new reason |
| FileRef.JoinIsUnion | src/main/java/org/kpa/util/FileRef.java:73-85 | a join keeps the receiver's path, takes the other path as second iff it differs, and holds the union of both entry sets |
| FileRef.JoinSelf | src/main/java/org/kpa/util/FileRef.java:73-85 | joining a ref with its own contents changes nothing but the second path |
| FileRef.FileRef.constructor | src/main/java/org/kpa/util/FileRef.java:16-17 | no path, no second path, no entries |
| FileRef.FileRef.WithPath | src/main/java/org/kpa/util/FileRef.java:19-21 | the given path and no entries |
| FileRef.FileRef.ForReason | src/main/java/org/kpa/util/FileRef.java:23-26 | the contents are Reasoned of the source ref |
| FileRef.FileRef.AtLine | src/main/java/org/kpa/util/FileRef.java:28-31 | the path with one entry, the line under the empty key |
| FileRef.FileRef.SetSecondPath | src/main/java/org/kpa/util/FileRef.java:33-35 | only the second path changes |
| FileRef.FileRef.SetPath | src/main/java/org/kpa/util/FileRef.java:37-39 | only the path changes |
| FileRef.FileRef.GetSecondPath | src/main/java/org/kpa/util/FileRef.java:41-43 | the second path |
| FileRef.FileRef.GetPath | src/main/java/org/kpa/util/FileRef.java:60-62 | the path |
| FileRef.FileRef.GetLineNo | src/main/java/org/kpa/util/FileRef.java:45-47 | the entries |
| FileRef.FileRef.SetLineNo | src/main/java/org/kpa/util/FileRef.java:49-53 | every given entry is added, existing ones kept once, the paths untouched |
| FileRef.FileRef.Reason | src/main/java/org/kpa/util/FileRef.java:55-58 | a fresh ref with Reasoned contents; the receiver untouched |
| FileRef.FileRef.Add | src/main/java/org/kpa/util/FileRef.java:73-85 | the receiver itself past 100 entries, NullPointerException for a null path, else a fresh ref holding Join of both |
| Utils.ValOrNull | src/main/java/org/kpa/util/Utils.java:207-209 | null and "" become null; any other value is returned unchanged |
| Utils.Convert | src/main/java/org/kpa/util/Utils.java:215-235 | the converter applied in order to the elements after the first startFrom, all of them for startFrom <= 0, nothing when there are fewer |
| Utils.ConvertAll | src/main/java/org/kpa/util/Utils.java:211-213 | a plain element-wise map |
| Utils.Blocks | src/main/java/org/kpa/util/Utils.java:339-348 | there are blocks exactly when the input is non-empty |
| Utils.BlocksSnoc | src/main/java/org/kpa/util/Utils.java:343-346 | one more element opens a new block when the count is a multiple of the size, and otherwise extends the last block |
| Utils.BlocksSnocShort | src/main/java/org/kpa/util/Utils.java:343-346 | the same within the first block |
| Utils.BlocksSnocLong | src/main/java/org/kpa/util/Utils.java:343-346 | past the first block, appending works on the rest |
| Utils.LastExtended | src/main/java/org/kpa/util/Utils.java:345 | extending the last block commutes with putting a block in front |
| Utils.BlocksFlatten | src/main/java/org/kpa/util/Utils.java:343-346 | concatenating the blocks gives the input back in order |
| Utils.BlocksShape | src/main/java/org/kpa/util/Utils.java:341-347 | every block but the last has exactly the block size, the last 1..size, and there are ceil(n / size) blocks |
| Utils.Slice | src/main/java/org/kpa/util/Utils.java:339-348 | a non-positive block size throws IllegalArgumentException; otherwise the counting loop builds exactly Blocks of the input |
| Pscap.LastIndexOfAny | src/main/java/org/kpa/util/algo/Pscap.java:61 | the last position holding one of the characters, -1 when none does |
| Pscap.GetName | src/main/java/org/kpa/util/algo/Pscap.java:61 | the file name is a suffix of the path containing no separator |
| Pscap.RemoveExtension | src/main/java/org/kpa/util/algo/Pscap.java:61 | the base name is a prefix of the name, shorter by exactly the extension and its dot |
| Pscap.Found | src/main/java/org/kpa/util/algo/Pscap.java:63 | a parsed pair becomes a non-null result and a parse failure stays a failure |
| Pscap.TickerName | src/main/java/org/kpa/util/algo/Pscap.java:59-64 | null exactly for a path without '_' |
| Pscap.TickerNameOfTokens | src/main/java/org/kpa/util/algo/Pscap.java:59-64 | fewer than two tokens throw NoSuchElementException; an exchange token and a pair token of six or more letters give exactly that pair |
| Pscap.RomasBidAskTickersPrecedence | src/main/java/org/kpa/util/algo/Pscap.java:109-126 | never throws; a pair needs "L1"; bitfinex, bitmex and binance are tried in that order, each mapping to its pair exactly when the base name starts with its ticker |
| Pscap.BitmexTickerCases | src/main/java/org/kpa/util/algo/Pscap.java:131-145 | a plain base name maps to BMEX:XBTUSD iff its first '.'-piece is XBTUSD in any case; an index name maps to one of the index pairs; only a nameless index file throws |
| Pscap.TradesTickerPrecedence | src/main/java/org/kpa/util/algo/Pscap.java:128-152 | a pair needs a trades path; bitmex is tried before binance; binance maps to BNNC:BTCUSD iff the first '.'-piece is BTCUSDT in any case |
| TelegramBot.ChatEqualsSpec | src/main/java/org/kpa/util/telegram/TelegramBot.java:283-290 | chat equality is an equivalence on chat id and user id alone, ignoring names and flags |
| TelegramBot.IndexOf | src/main/java/org/kpa/util/telegram/TelegramBot.java:145-150 | the first chat equal to the given one, -1 when none is |
| TelegramBot.AppendUnknown | src/main/java/org/kpa/util/telegram/TelegramBot.java:145-146 | an unknown chat appended is found at the end, and the list keeps no two equal chats |
| TelegramBot.RemoveFirstSpec | src/main/java/org/kpa/util/telegram/TelegramBot.java:59 | removing a chat leaves none equal to it, one fewer when it was there, and every other chat |
| TelegramBot.PutSpec | src/main/java/org/kpa/util/telegram/TelegramBot.java:88-98 | registering maps the key to the new handler even over an old one, appends a new key only, keeps every other entry, and reports whether the key existed |
| TelegramBot.InitialTablesValid | src/main/java/org/kpa/util/telegram/TelegramBot.java:58-82 | the built-in tables hold bye, me, sync and ? in public and all in secret, each key once |
| TelegramBot.Quoted | src/main/java/org/kpa/util/telegram/TelegramBot.java:71-75 | one quoted name per command |
| TelegramBot.EmptyUpdateIgnored | src/main/java/org/kpa/util/telegram/TelegramBot.java:140-143 | an update without a message changes nothing |
| TelegramBot.UnknownChatGreeted | src/main/java/org/kpa/util/telegram/TelegramBot.java:144-148 | an unknown chat is appended, greeted and stored, its text runs nothing, and it is known afterwards |
| TelegramBot.KnownChatRouted | src/main/java/org/kpa/util/telegram/TelegramBot.java:149-165 | for a known chat the lower-cased text runs a public command first, a secret one only for an enabled chat ("Not permitted" otherwise), and other text gets the public command list |
| TelegramBot.ByeForgetsChat | src/main/java/org/kpa/util/telegram/TelegramBot.java:58-62 | bye removes the chat, says "Bye!", stores the list and keeps every other chat |
| TelegramBot.UpdateKeepsDistinct | src/main/java/org/kpa/util/telegram/TelegramBot.java:137-166 | handling an update never puts two equal chats in the list |
| TelegramBot.TelegramBot.constructor | src/main/java/org/kpa/util/telegram/TelegramBot.java:47-86 | the saved chats restored without duplicates (so the chat list starts distinct), the built-in tables, and "I'm up!" sent to each restored chat in order |
| TelegramBot.Restored | src/main/java/org/kpa/util/telegram/TelegramBot.java:100-108 | loadState through a HashSet: the restored chats never hold two equal chats |
| TelegramBot.RestoredKeepsChats | src/main/java/org/kpa/util/telegram/TelegramBot.java:100-108 | every saved chat is found among the restored ones, and nothing else is restored |
| TelegramBot.RestoredDuplicateKeptOnce | src/main/java/org/kpa/util/telegram/TelegramBot.java:100-108 | two saved copies of one chat are restored as one |
| TelegramBot.TelegramBot.Cmd | src/main/java/org/kpa/util/telegram/TelegramBot.java:88-92 | the public table becomes Put of the lower-cased, trimmed key; IllegalArgumentException exactly when the key was already there |
| TelegramBot.TelegramBot.SecretCmd | src/main/java/org/kpa/util/telegram/TelegramBot.java:94-98 | the same for the secret table |
| TelegramBot.TelegramBot.Send | src/main/java/org/kpa/util/telegram/TelegramBot.java:169-174 | one message appended to the outbox, nothing else changed |
| TelegramBot.TelegramBot.OnUpdateReceived | src/main/java/org/kpa/util/telegram/TelegramBot.java:137-166 | the new state and any exception are UpdateStep of the old state |
| CcyPair.ParseSpot | src/main/java/org/kpa/util/algo/CcyPair.java:58-67 | a parsed pair keeps the whole symbol and two three-letter currencies; failures are NoSuchElementException or IndexOutOfBoundsException |
| CcyPair.ParseSpotFields | src/main/java/org/kpa/util/algo/CcyPair.java:58-67 | NoSuchElementException exactly when there is no ':'; a parsed pair's exchange is the text before the first ':' and its currencies and modifier the segment up to the next ':' or the end |
| CcyPair.ParseSpotSegment | src/main/java/org/kpa/util/algo/CcyPair.java:58-67 | an exchange, ':' and a segment of six or more characters, none holding ':', parse into the segment cut at 3 and 6 |
| CcyPair.ParseSpotRoundTrip | src/main/java/org/kpa/util/algo/CcyPair.java:58-67 | parsing the symbol built from an exchange, two three-letter currencies and a modifier gives them back |
| CcyPair.ToInt32 | src/main/java/org/kpa/util/algo/CcyPair.java:36-39 | a 32-bit value congruent to its argument modulo 2^32 |
| CcyPair.StringHash | src/main/java/org/kpa/util/algo/CcyPair.java:36-39 | String.hashCode stays within the 32-bit range |
| CcyPair.HashCode | src/main/java/org/kpa/util/algo/CcyPair.java:36-39 | Objects.hash(symbol) stays within the 32-bit range |
| CcyPair.EqualsContract | src/main/java/org/kpa/util/algo/CcyPair.java:27-39 | equals is an equivalence on the symbol that hashCode respects; parsed pairs are equal iff their strings are; toString gives the parsed string back |
| CcyPair.ParsesBmexXbtusd | src/main/java/org/kpa/util/algo/Tickers.java:17 | BMEX:XBTUSD parses into BMEX, XBT, USD and no modifier |
| CcyPair.ParsesBfnxBtcusd | src/main/java/org/kpa/util/algo/Tickers.java:18 | BFNX:BTCUSD parses into BFNX, BTC, USD and no modifier |
| CcyPair.ParsesBnncBtcusd | src/main/java/org/kpa/util/algo/Tickers.java:22 | BNNC:BTCUSD parses into BNNC, BTC, USD and no modifier |
| CcyPair.ParsesBmexUsdbon8h | src/main/java/org/kpa/util/algo/Tickers.java:23 | BMEX:USDBON8H parses into BMEX, USD, BON and modifier 8H |
| CcyPair.ParsesBmexXbtbon8h | src/main/java/org/kpa/util/algo/Tickers.java:24 | BMEX:XBTBON8H parses into BMEX, XBT, BON and modifier 8H |
| CcyPair.ParsesBmexXbtusdpi8h | src/main/java/org/kpa/util/algo/Tickers.java:25 | BMEX:XBTUSDPI8H parses into BMEX, XBT, USD and modifier PI8H |
| RequestReplyProcessor.RequestAsWritten | src/main/java/org/kpa/util/interop/RequestReplyProcessor.java:36-39 | as written, request always leaves the request open with no reply, whatever it reports |
| RequestReplyProcessor.Registered | src/main/java/org/kpa/util/interop/RequestReplyProcessor.java:36-39 | corrected, a request succeeds exactly when it is not open, then opening it with no reply; an open one throws IllegalArgumentException and changes nothing |
| RequestReplyProcessor.DuplicateRequestAsWritten | src/main/java/org/kpa/util/interop/RequestReplyProcessor.java:36-39 | as written, a duplicate of an unanswered request is accepted, and a duplicate of an answered one is rejected after wiping its reply |
| RequestReplyProcessor.DuplicateRequestCorrected | src/main/java/org/kpa/util/interop/RequestReplyProcessor.java:36-39 | corrected, both duplicates are rejected with the reply table unchanged |
| RequestReplyProcessor.Progress | src/main/java/org/kpa/util/interop/RequestReplyProcessor.java:40-57 | a waiter reports onResult exactly when its request has a reply, onError when it has none past the deadline, and keeps waiting otherwise |
| RequestReplyProcessor.PendingSnoc | src/main/java/org/kpa/util/interop/RequestReplyProcessor.java:38-59 | a new waiter adds its request to those waited for, keeping them distinct |
| RequestReplyProcessor.PendingRemove | src/main/java/org/kpa/util/interop/RequestReplyProcessor.java:53-56 | a finished waiter removes exactly its request, keeping the rest distinct |
| RequestReplyProcessor.RequestReplyProcessor.constructor | src/main/java/org/kpa/util/interop/RequestReplyProcessor.java:13-24 | no open requests, no waiters, nothing reported |
| RequestReplyProcessor.RequestReplyProcessor.OpenRequest | src/main/java/org/kpa/util/interop/RequestReplyProcessor.java:16-20 | the number of open requests |
| RequestReplyProcessor.RequestReplyProcessor.Reply | src/main/java/org/kpa/util/interop/RequestReplyProcessor.java:26-34 | a reply answering some open request is attached to one such request, replacing an earlier reply; otherwise nothing changes |
| RequestReplyProcessor.RequestReplyProcessor.Request | src/main/java/org/kpa/util/interop/RequestReplyProcessor.java:36-60 | the reply table becomes Registered of the old one, and an accepted request gets a waiter with deadline now + timeout; every open request keeps exactly one waiter |
| RequestReplyProcessor.RequestReplyProcessor.Step | src/main/java/org/kpa/util/interop/RequestReplyProcessor.java:40-57 | one poll reports Progress; a finished waiter's outcome is recorded and its request closed and removed |
| RequestReplyProcessor.TwoRequestsOneReply | src/test/java/org/kpa/util/interop/RequestReplyProcessorTest.java:30-41 | two requests and a reply to the first give one onResult for the first, one onError for the second, and no open request |
| RequestReplyProcessor.OpenTwo | src/test/java/org/kpa/util/interop/RequestReplyProcessorTest.java:35-36 | both requests are accepted with a one-second deadline and no reply |
| RequestReplyProcessor.AnswerFirst | src/test/java/org/kpa/util/interop/RequestReplyProcessorTest.java:37 | the reply is attached to the first request only |
| RequestReplyProcessor.Drain | src/test/java/org/kpa/util/interop/RequestReplyProcessorTest.java:38-40 | the first waiter reports its reply at once, and then the second expires |
| RequestReplyProcessor.Expire | src/test/java/org/kpa/util/interop/RequestReplyProcessorTest.java:38-40 | the unanswered waiter reports an error after its deadline and no request stays open |
| BidAsk.MidSpec | src/main/java/org/kpa/util/algo/BidAsk.java:92-96 | mid exists exactly when bid and ask are positive (IllegalArgumentException otherwise) and lies halfway between them |
| BidAsk.LiquidSpec | src/main/java/org/kpa/util/algo/BidAsk.java:98-113 | liquid exists exactly for an alive quote; it prices a long position at the bid, a short one at the ask, and a flat one at mid |
| BidAsk.QuoteOfAlive | src/main/java/org/kpa/util/algo/BidAsk.java:54-80 | a quote built from bid and ask alone has unit sizes and no flag, so it is alive and liquid |
| BidAsk.CloneFlagsSpec | src/main/java/org/kpa/util/algo/BidAsk.java:236-246 | a clone is alive iff sizes are positive and neither reorder nor price leap is set; cloning keeps an alive quote alive and is idempotent |
| BidAsk.DateCmpSpec | src/main/java/org/kpa/util/algo/BidAsk.java:200-201 | DATE_CMP orders by local time, then by symbol; it is zero only for equal time and symbol, and antisymmetric |
| BidAsk.BestQuoteOrder | src/main/java/org/kpa/util/algo/BidAsk.java:203-206 | BEST_BID puts the higher bid first and BEST_ASK the lower ask; each is zero only on equal prices and antisymmetric |
| BidAsk.Last | src/main/java/org/kpa/util/algo/BidAsk.java:208-210 | the later of the two times, the first on a tie |
| BidAsk.BidAsk.constructor | src/main/java/org/kpa/util/algo/BidAsk.java:58-75 | the given quote with no flag set |
| BidAsk.BidAsk.Of | src/main/java/org/kpa/util/algo/BidAsk.java:54-56 | unit sizes, no exchange time, no flag set |
| BidAsk.BidAsk.SetStale | src/main/java/org/kpa/util/algo/BidAsk.java:87-90 | only the stale flag changes |
| BidAsk.BidAsk.SetReorder | src/main/java/org/kpa/util/algo/BidAsk.java:212-214 | only the reorder flag changes |
| BidAsk.BidAsk.SetInconsistent | src/main/java/org/kpa/util/algo/BidAsk.java:216-218 | only the inconsistent flag changes |
| BidAsk.BidAsk.SetPriceLeap | src/main/java/org/kpa/util/algo/BidAsk.java:220-222 | only the price-leap flag changes |
| BidAsk.BidAsk.Clone | src/main/java/org/kpa/util/algo/BidAsk.java:236-246 | a fresh object with the same quote and CloneFlags of the flags |
| Order.ValidateSpec | src/main/java/org/kpa/util/algo/Order.java:48-68 | the constructor refuses a missing price source (NullPointerException) and a dependent maker order (IllegalArgumentException); a taker trades at the ask when buying and at the bid when selling; a maker needs the step and quotes exactly one step inside the touch |
| Order.ExecuteSpec | src/main/java/org/kpa/util/algo/Order.java:125-143 | executeAt adds the quantity and records price and time even when the quote is missing (then it throws); with a quote it reports isExecuted, which holds iff exactly the remaining quantity was executed; onExecuted gets the quantity; getExecutedPrice answers only a positive price |
| Order.ExecuteAllSum | src/main/java/org/kpa/util/algo/Order.java:125-143 | over several executions the executed quantity is the sum of the parts, and the order is executed iff they sum to what was left |
| Order.PullOnce | src/main/java/org/kpa/util/algo/Order.java:253-266 | the first pull cancels the order, calls onPull once and makes it inactive; a second pull is refused and changes nothing |
| Order.InactiveStays | src/main/java/org/kpa/util/algo/Order.java:264-266 | a rejected or cancelled order stays inactive through any execution |
| Order.Order.constructor | src/main/java/org/kpa/util/algo/Order.java:48-68 | symbol from the quote, price by the taker/maker rule, exchange quantity from the caller's conversion, nothing placed, executed or cancelled, executed price -1 |
| Order.Order.Place | src/main/java/org/kpa/util/algo/Order.java:70-72 | only the placement time changes |
| Order.Order.IsPlaced | src/main/java/org/kpa/util/algo/Order.java:74-76 | true iff a placement time is set |
| Order.Order.OnExecuted | src/main/java/org/kpa/util/algo/Order.java:86-89 | only the onExecuted callback changes |
| Order.Order.OnPull | src/main/java/org/kpa/util/algo/Order.java:91-94 | only the onPull callback changes |
| Order.Order.Reject | src/main/java/org/kpa/util/algo/Order.java:117-119 | only the rejected flag changes, to true |
| Order.Order.SetExecutedPrice | src/main/java/org/kpa/util/algo/Order.java:109-111 | only the executed price changes |
| Order.Order.IsExecuted | src/main/java/org/kpa/util/algo/Order.java:141-143 | true iff the executed quantity equals the ordered one |
| Order.Order.ExecuteAt | src/main/java/org/kpa/util/algo/Order.java:125-133 | the new lifecycle and answer are ExecuteStep of the old lifecycle |
| Order.Order.GetExecutedPrice | src/main/java/org/kpa/util/algo/Order.java:136-139 | the executed price if positive, IllegalArgumentException otherwise |
| Order.Order.Pull | src/main/java/org/kpa/util/algo/Order.java:253-258 | the new lifecycle and error are PullStep of the old lifecycle |
| Order.Order.IsCancelled | src/main/java/org/kpa/util/algo/Order.java:260-262 | true iff a cancellation time is set |
| Order.Order.IsInactive | src/main/java/org/kpa/util/algo/Order.java:264-266 | true iff rejected, executed or cancelled |
| Order.Create | src/main/java/org/kpa/util/algo/Order.java:48-68 | fails exactly when Validate does, with its exception; otherwise a fresh order at Validate's price with a fresh lifecycle |
| Ohlc.New | src/main/java/org/kpa/util/algo/Ohlc.java:44-55 | a bar is built iff high is at least open and close and low at most both; otherwise IllegalArgumentException; a built bar is valid with an empty payload |
| Ohlc.Single | src/main/java/org/kpa/util/algo/Ohlc.java:36-38 | a one-price bar is always accepted, with open, high, low and close all that price |
| Ohlc.AddValid | src/main/java/org/kpa/util/algo/Ohlc.java:75-78 | add fails iff the symbols differ; otherwise it keeps the receiver's open, takes the argument's close and time, and the widest high and lowest low, giving a valid bar again |
| Ohlc.AddAssociative | src/main/java/org/kpa/util/algo/Ohlc.java:75-78 | merging three bars of one symbol does not depend on grouping |
| Ohlc.GetTypeSpec | src/main/java/org/kpa/util/algo/Ohlc.java:121-128 | for positive prices and a non-negative margin, RAISE iff close exceeds open by more than the margin, DOWN iff open exceeds close by more than the margin; a RAISE bar went up and a DOWN bar down |
| Ohlc.PredictedPnlSpec | src/main/java/org/kpa/util/algo/Ohlc.java:130-139 | for positive prices the predicted pnl never falls back to -1: it is the larger of rise and fall and not negative |
| Ohlc.RangeWithinSpan | src/main/java/org/kpa/util/algo/Ohlc.java:110-112 | the range of a valid bar lies between 0 and high minus low, and is 0 iff open equals close |
| Ohlc.CloneSpec | src/main/java/org/kpa/util/algo/Ohlc.java:114-119 | cloning a valid bar succeeds and gives the same bar, payload included |
| OhlcProducer.BarOf | src/main/java/org/kpa/util/algo/OhlcProducer.java:44-57 | the bar made of the producer's prices is a valid bar |
| OhlcProducer.AddPriceSpec | src/main/java/org/kpa/util/algo/OhlcProducer.java:65-78 | addPrice keeps the prices consistent; a clear or a first price sets all four to the price; otherwise the open stays, high and low widen to the price and the close becomes the price |
| OhlcProducer.UpdateCompletes | src/main/java/org/kpa/util/algo/OhlcProducer.java:40-48 | update keeps the prices consistent and returns a bar exactly when a bar is open and the tick aligns after it; that bar has the open bar's time and prices |
| OhlcProducer.UpdateOpens | src/main/java/org/kpa/util/algo/OhlcProducer.java:49-58 | a tick that opens a bar sets the bar time to its aligned time; on a boundary the bar is the tick's price alone; off a boundary it opens at the previous close, or at the price if there is none, then takes the tick; the created bar is the bar as opened |
| OhlcProducer.UpdateFolds | src/main/java/org/kpa/util/algo/OhlcProducer.java:59-61 | a tick aligned no later than the open bar is folded into it, with no bar completed or created |
| OhlcProducer.OhlcProducer.constructor | src/main/java/org/kpa/util/algo/OhlcProducer.java:35-38 | no prices, no open bar, no consumers |
| OhlcProducer.OhlcProducer.SetOnBarCreated | src/main/java/org/kpa/util/algo/OhlcProducer.java:92-94 | only the bar-created consumer changes |
| OhlcProducer.OhlcProducer.SetOnBarCompleted | src/main/java/org/kpa/util/algo/OhlcProducer.java:96-98 | only the bar-completed consumer changes |
| OhlcProducer.OhlcProducer.AddPrice | src/main/java/org/kpa/util/algo/OhlcProducer.java:65-78 | the new prices are AddPriceState of the old |
| OhlcProducer.OhlcProducer.Update | src/main/java/org/kpa/util/algo/OhlcProducer.java:40-63 | the new prices and the returned bar are UpdateStep of the old prices at the aligned time; registered consumers receive the completed and the created bar; the prices stay consistent |
| OhlcProducer.MinutesAligned | src/main/java/org/kpa/util/algo/OhlcProducer.java:100-106 | an aligner exists iff 60 is a multiple of minutes (a zero divides by zero, anything else is IllegalArgumentException) and it is Align |
| OhlcProducer.AlignSpec | src/main/java/org/kpa/util/algo/OhlcProducer.java:100-106 | the aligner maps a time to the start of its slot: a whole minute, a multiple of the slot into the hour, at most the time and less than one slot before it; aligning twice changes nothing |
| FundingCalculator.NextFundingTimeSpec | src/main/java/org/kpa/util/algo/FundingCalculator.java:46-53 | the first funding instant not before a time is an 04:00, 12:00 or 20:00 UTC instant, not before the time and less than eight hours after it |
| FundingCalculator.FundingTimeUnique | src/main/java/org/kpa/util/algo/FundingCalculator.java:46-53 | at most one funding instant lies in the eight hours from a time, so that instant is well defined |
| FundingCalculator.NearestFundingTime | src/main/java/org/kpa/util/algo/FundingCalculator.java:46-53 | the loop from 04:00 of the day ends at the funding instant for the time, which is NextFundingTime |
| FundingCalculator.DerivedSymbolsSlots | src/main/java/org/kpa/util/algo/FundingCalculator.java:25-34 | the premium and right-rate symbols each reach their own slot; the left-rate symbol reaches its slot iff the two currencies differ, because a later put under the same key replaces the earlier one |
| FundingCalculator.FundingRateSpec | src/main/java/org/kpa/util/algo/FundingCalculator.java:88-98 | the rate exists iff all three ticks are known (IllegalArgumentException otherwise); it lies within 0.0005 of the premium index, equals the interest rate when that is within 0.0005, and otherwise is the premium moved 0.0005 towards it |
| FundingCalculator.ObserveTimes | src/main/java/org/kpa/util/algo/FundingCalculator.java:56-64 | a time-stamped input becomes the last time and schedules the first funding instant not before it only when none is scheduled; anything else leaves both times alone |
| FundingCalculator.ObserveSlots | src/main/java/org/kpa/util/algo/FundingCalculator.java:65-73 | a tick of a followed symbol replaces that slot only and, with a state consumer, sends one snapshot; any other input changes no slot and sends nothing |
| FundingCalculator.AcceptEmits | src/main/java/org/kpa/util/algo/FundingCalculator.java:74-79 | a funding is emitted only when the last time is past the scheduled instant, carrying that instant, the pair's symbol and the rate; emitting or having no consumer unschedules it; an incomplete calculator throws and keeps it scheduled |
| FundingCalculator.EmittedAtFundingInstant | src/main/java/org/kpa/util/algo/FundingCalculator.java:55-80 | every emitted funding is at a funding instant strictly before the last time, and the schedule stays on funding instants |
| FundingCalculator.SetStateRestores | src/main/java/org/kpa/util/algo/FundingCalculator.java:82-86 | restoring a snapshot gives back the slots, so the funding rate is unchanged |
| FundingCalculator.SetStateAsWrittenLosesRate | src/main/java/org/kpa/util/algo/FundingCalculator.java:82-86 | as written, restoring a snapshot with distinct rates 0.0003 and 0.0006 and a zero premium turns the rate 0.0001 into 0 |
| FundingCalculator.FundingCalculator.constructor | src/main/java/org/kpa/util/algo/FundingCalculator.java:25-34 | the followed symbols derived from the parsed pair; no ticks, no times, no consumers |
| FundingCalculator.FundingCalculator.OnNewFunding | src/main/java/org/kpa/util/algo/FundingCalculator.java:36-39 | only the funding consumer changes |
| FundingCalculator.FundingCalculator.OnNewState | src/main/java/org/kpa/util/algo/FundingCalculator.java:41-44 | only the state consumer changes |
| FundingCalculator.FundingCalculator.IsComplete | src/main/java/org/kpa/util/algo/FundingCalculator.java:96-98 | true iff all three ticks are known |
| FundingCalculator.FundingCalculator.GetFundingRate | src/main/java/org/kpa/util/algo/FundingCalculator.java:88-94 | the result is FundingRate of the known ticks |
| FundingCalculator.FundingCalculator.Record | src/main/java/org/kpa/util/algo/FundingCalculator.java:56-73 | the new state is Observe of the old state and the input |
| FundingCalculator.FundingCalculator.Accept | src/main/java/org/kpa/util/algo/FundingCalculator.java:55-80 | the new state and the exception are AcceptStep of the old state and the input |
| FundingCalculator.FundingCalculator.SetState | src/main/java/org/kpa/util/algo/FundingCalculator.java:82-86 | the three ticks are restored from their own fields of the state, and nothing else changes |
| FundingCalculator.FundingCalculator.SetStateAsWritten | src/main/java/org/kpa/util/algo/FundingCalculator.java:82-86 | as written: the right rate is taken from the state's left rate, and nothing else changes |
| FundingCalculator.Create | src/main/java/org/kpa/util/algo/FundingCalculator.java:25-27 | fails exactly when the symbol does not parse as a spot pair, with that exception; otherwise a fresh calculator with no ticks |
| Amnt.SetValueSpec | src/main/java/org/kpa/util/algo/Amnt.java:113-122 | implSetVal stores the value rounded to the scale, removes the account when that is zero, changes no other account, and never leaves a zero behind |
| Amnt.SetValueNear | src/main/java/org/kpa/util/algo/Amnt.java:115 | the stored units are exact for a value with no more decimals than the scale, and otherwise within half a unit of it, with ties going to the even unit (HALF_EVEN) |
| Amnt.AddUnitsExact | src/main/java/org/kpa/util/algo/Amnt.java:108-111 | adding whole units at the amount's own scale moves the account by exactly that many |
| Amnt.ReceivedSpec | src/main/java/org/kpa/util/algo/Amnt.java:88-97 | rcv of zero gives the amount back unchanged; a nonzero value below minVal is refused with IllegalArgumentException; otherwise the account grows by the value |
| Amnt.ReceivedWholeUnits | src/main/java/org/kpa/util/algo/Amnt.java:92-97 | a nonzero value with no more decimals than the scale is at least minVal, so rcv accepts it |
| Amnt.AddZeroIdentity | src/main/java/org/kpa/util/algo/Amnt.java:108-122 | adding zero to an account changes nothing in an amount without zero entries |
| Amnt.MergedSpec | src/main/java/org/kpa/util/algo/Amnt.java:170-178 | add is refused for another symbol or scale; otherwise every account holds the sum of both operands, no zero is introduced, the argument's payload entries win, and the total is the sum of both totals |
| Amnt.NegatedSpec | src/main/java/org/kpa/util/algo/Amnt.java:180-185 | negate keeps the accounts and payload and negates every value; negating twice is the identity and the total negates |
| Amnt.TotalsSpec | src/main/java/org/kpa/util/algo/Amnt.java:135-168 | the total is the rest plus the position; totals over a filter and its complement add up to the total; clone(filter) keeps exactly the accepted accounts unchanged, so its total is total(filter) |
| Amnt.FlatWhenEmpty | src/main/java/org/kpa/util/algo/Amnt.java:160-168 | an amount with no accounts is flat, both in total and in position |
| Amnt.Amnt.constructor | src/main/java/org/kpa/util/algo/Amnt.java:44-54 | the given symbol, scale, values and payload, with a null map read as empty |
| Amnt.Amnt.Clone | src/main/java/org/kpa/util/algo/Amnt.java:291-294 | a fresh amount with the same contents |
| Amnt.Amnt.GetMinVal | src/main/java/org/kpa/util/algo/Amnt.java:76-78 | one unit, 10^-scale |
| Amnt.Amnt.ImplSetVal | src/main/java/org/kpa/util/algo/Amnt.java:113-122 | the new contents are SetValue of the old |
| Amnt.Amnt.ImplAdd | src/main/java/org/kpa/util/algo/Amnt.java:108-111 | the new contents are AddValue of the old |
| Amnt.Amnt.RcvPos | src/main/java/org/kpa/util/algo/Amnt.java:63-66 | a fresh clone with the value added to the position |
| Amnt.Amnt.Rcv | src/main/java/org/kpa/util/algo/Amnt.java:92-97 | the receiver itself for zero, IllegalArgumentException as Received refuses, otherwise a fresh clone holding Received's contents |
| Amnt.Amnt.Pay | src/main/java/org/kpa/util/algo/Amnt.java:84-86 | as rcv of the negated value |
| Amnt.Amnt.Set | src/main/java/org/kpa/util/algo/Amnt.java:99-106 | the receiver itself when the account already holds the same number, else a fresh clone holding the value rounded to the scale |
| Amnt.Amnt.SetProp | src/main/java/org/kpa/util/algo/Amnt.java:68-70 | a fresh clone with the payload entry put |
| Amnt.Amnt.GetProp | src/main/java/org/kpa/util/algo/Amnt.java:72-74 | the payload entry, None if absent |
| Amnt.Amnt.Get | src/main/java/org/kpa/util/algo/Amnt.java:150-153 | the account's value, zero if absent |
| Amnt.Amnt.Pos | src/main/java/org/kpa/util/algo/Amnt.java:155-158 | the position account's value, zero if absent |
| Amnt.Amnt.SumOver | src/main/java/org/kpa/util/algo/Amnt.java:36-41 | the loop over the accounts gives their sum |
| Amnt.Amnt.Total | src/main/java/org/kpa/util/algo/Amnt.java:135-138 | the sum of all accounts |
| Amnt.Amnt.Rest | src/main/java/org/kpa/util/algo/Amnt.java:140-148 | the sum of all accounts but the position |
| Amnt.Amnt.TotalFiltered | src/main/java/org/kpa/util/algo/Amnt.java:203-208 | the sum of the accounts the filter accepts |
| Amnt.Amnt.IsFlat | src/main/java/org/kpa/util/algo/Amnt.java:160-163 | true iff the total is zero |
| Amnt.Amnt.IsFlatPos | src/main/java/org/kpa/util/algo/Amnt.java:165-168 | true iff the position is zero |
| Amnt.Amnt.FoldIn | src/main/java/org/kpa/util/algo/Amnt.java:175 | adding the accounts one by one gives the account-wise sum |
| Amnt.Amnt.Add | src/main/java/org/kpa/util/algo/Amnt.java:170-178 | IllegalArgumentException when Merged refuses, otherwise a fresh amount holding Merged's contents |
| Amnt.Amnt.Negate | src/main/java/org/kpa/util/algo/Amnt.java:180-185 | a fresh amount holding Negated's contents |
| Amnt.Amnt.CloneWhere | src/main/java/org/kpa/util/algo/Amnt.java:281-289 | a fresh amount holding only the accounts the filter accepts |

## Left out

- Sockets, threads and timers: the ZeroMQ sockets, sleep, signal handling and stdout of the echo agent. Also the waiter threads of `RequestReplyProcessor`, which are stepped explicitly; the compare-and-set loop and blocking `take` of the conflating queue; and every `synchronized` block. All of these are concurrency or I/O.
- The files behind `StringArrayStore` and `CachedList`: a store is the sequence of rows it holds once its asynchronous writes complete, so write ordering and I/O failures are not modelled. `CachedList` reads its store directly, not through a loading cache.
- `FileStoredList` is not part of this model: it is asynchronous batching to files.
- Files, CSV and JSON I/O in `Utils` and `Pscap` (`readCsv`, `stringIterator`, `getInputStream`, `getFreePorts`, `awaitCompletion`, `getHostName`, `Pscap.bidAsks`, `ticks`, `getFromUtc`, `romasFunding`): thin wrappers over I/O libraries.
- `TelegramBot`: sending goes to an outbox, not the network. Asynchronous send failures that drop a chat are not modelled. `loadState`/`storeState` file persistence is modelled as the last chat list stored. `get` with proxy parsing, `send` and `broadcast` are left out. The replies of the `me`, `sync` and `all` handlers ("Your info", "States reloaded", the chat list) and the chat-list reload of `sync` and `all` are not modelled: the model records only which handler a message selects.
- `CustomErrorLogAppender`: `registerErrorHandler` and the logging framework's lifecycle are left out, and the clock reading placed in the message is a parameter.
- `Amnt`: `prcSrc`, `toRef`, `toString`, `flatCopy` and the static filter helpers (`with`, `not`, `woDepo`, ...) are left out. The filters are plain predicates passed to `total`/`clone`.
- `Amnt`: a value given as a double is a `Decimal` with a non-negative scale, and `stripTrailingZeros` does not change the number held.
- `Ohlc`: `toString`, `toMap` and `fromMap` (formatting) are left out.
- `Ohlc.GetTypeSpec`, `Ohlc.PredictedPnlSpec`: `raisePnl`/`downPnl` divide exactly rather than at 8 decimal places with HALF_EVEN rounding, so a ratio within 10^-8 of the margin may be classified differently.
- `OhlcProducer.wrap`, which keys producers by symbol over a stream of quotes, is left out.
- `FundingCalculator.FundingRateSpec`: the rate is not rounded to 6 decimal places, and the doubles are exact reals.
- `FundingCalculator.NearestFundingTime`: times are UTC only. The source takes the day in the system time zone, which matters only when that zone is not UTC.
- `BidAsk`: `toCsv`, the size converters `getBidSize`/`getAskSize` for a currency, `srcFile`, and time-zone tie-breaks in the comparators are left out.
- `Order`: positions, slippage, `toCsv` and the `Tickers` registry are left out; the fee, the price step and the exchange-quantity conversion are parameters.
- `Order.ExecuteSpec`: `isExecuted` compares exact reals, while `BigDecimal.equals` in the source also compares scales, so `1.0` and `1.00` would count as different there.
- `TurnoverCounter.TurnoverCounter.constructor`: requires a positive range. With a zero range the source divides by zero in doubles and relies on NaN comparisons.
- `DateSourceHelper.MsToNsRoundTrip`: 64-bit `long` overflow of `msToNs` is not modelled, so the round trip holds for all integers here.
- `MultiIterable`: the merge is over `int` sources without null elements, in their natural order. `PeekIterator`, which ends a source at a null element, is modelled on its own. An arbitrary comparator and the order of the library sort's comparisons are left out.
- `ZmqEcho.Handler`: handlers are limited to those the script registers (send a fixed text, echo, exit, close). An arbitrary Python callable is not modelled. `cmds` is a class attribute of `Java`, shared by every instance, while the model gives each agent its own table.
- Java integer and floating-point edges: the 32-bit wrap of `startIndex + maxCount` in `StringArrayStore.subList` and `StringArraySimple.subList` (`subList(1, Integer.MAX_VALUE)` gives `[]` there); `Double.compare` on -0.0 and NaN in `BidAsk`; the `doubleValue()` rounding in `Amnt.implAdd`; `long` overflow in `SimulatorDateSource.addNanos`/`addMillis`; the NullPointerException `OutputCompressor` gets from Guava's Joiner on a null message; and `CachedList.subList` returning a live view rather than a copy.
- `OutputCompressor.Compressed`, `OutputCompressor.CompressedShape`, `OutputCompressor.OutputCompressor.GetStr`, `CcyPair.StringHash`, `CcyPair.ParseSpot`: strings are sequences of Unicode characters, not of UTF-16 code units. Java's `length()`, `substring` and `String.hashCode` count code units, so for text holding a character outside the Basic Multilingual Plane (an emoji, say) the source cuts, measures and hashes differently, and may cut a surrogate pair in half. This affects the cut at `limit` and the `limit + 3` length in `OutputCompressor`, the hash of `CcyPair`, and the `substring` cuts of `CcyPair.parseSpot`.
- `TelegramBot.Restored`: the order of the restored chats is that of their first saved copy; the source's HashSet gives an unspecified order.
- `Pscap` and `TelegramBot`: case mapping covers ASCII letters only. Paths are Unix paths.
- Java `HashMap` iteration order: maps are Dafny maps, and `Amnt`'s sums are proved not to depend on the order.

## Findings

| source | as written | input that shows it | evidently intended | confidence | as-written member | corrected member |
|---|---|---|---|---|---|---|
| src/main/java/org/kpa/util/RomasCsv.java:63-66 | doubled quotes are collapsed before the enclosing quotes are stripped | the field `""` throws StringIndexOutOfBoundsException; the field `""""` gives the empty string | strip the enclosing quotes, then collapse `""` to `"`: `""` is empty and `""""` is one quote | not executed | RomasCsv.UnquoteAsWritten (RomasCsv.EmptyQuotedThrows, RomasCsv.QuotedQuoteLost) | RomasCsv.Unquote (RomasCsv.UnquoteRoundTrip) |
| src/main/java/org/kpa/util/CachedList.java:44-60 | after `clearCache` (index -1, empty window) an add appends to the window and eviction advances the index from -1 | capacity 2, step 1: clear the cache, add 10, 11, 12; `subList(1, 2)` gives `[12]` where the store holds `[11]` | adds leave an invalid window alone until the next reload | not executed | CachedList.AppendedAsWritten (CachedList.AddAfterClearCacheAsWritten) | CachedList.Appended (CachedList.AddAfterClearCacheCorrected) |
| src/main/java/org/kpa/util/StringArrayCache.java:77-94 | `reloadCache` accepts any start index, past the end or negative | 5 rows, cache cleared: `get(7)` throws but leaves the window at index 7; after adding three rows `get(7)` returns row 5. With the window at 0, `get(-1)` returns row 0 | reload only from an index inside the store, so the window always starts inside it | not executed | StringArrayCache.ReloadedAsWritten (StringArrayCache.ReloadPastEndAsWritten, StringArrayCache.NegativeGetAsWritten) | StringArrayCache.Reloaded (StringArrayCache.GetCorrect, StringArrayCache.ReloadPastEndCorrected) |
| src/main/java/org/kpa/util/interop/RequestReplyProcessor.java:36-39 | the duplicate check tests the old value of `put(request, null)`, which is null for an open unanswered request | requesting the same open request twice succeeds; requesting an answered one throws but has already erased its reply | reject any request already open, leaving it untouched | not executed | RequestReplyProcessor.RequestAsWritten (RequestReplyProcessor.DuplicateRequestAsWritten) | RequestReplyProcessor.Registered (RequestReplyProcessor.DuplicateRequestCorrected) |
| src/main/java/org/kpa/util/algo/FundingCalculator.java:82-86 | `setState` fills the right-currency rate from the state's left-currency rate | premium 0, rates 0.0003 and 0.0006: the rate 0.0001 becomes 0 after restoring | restore each rate from its own field | not executed | FundingCalculator.FundingCalculator.SetStateAsWritten (FundingCalculator.SetStateAsWrittenLosesRate) | FundingCalculator.FundingCalculator.SetState (FundingCalculator.SetStateRestores) |
