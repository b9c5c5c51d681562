/**
 * The echo/command agent used by the interop tests: it polls a subscriber
 * socket, picks one whitespace-separated token of each message, runs the
 * command registered under the token's first word (or the default handler),
 * and publishes replies. Sockets are abstracted away: a poll receives an
 * optional payload, and publishing appends to an outbox.
 */
module ZmqEcho {
  import opened Wrappers
  import opened Text

  /** The command handlers of the agent (the lambdas registered with add_cmd). */
  datatype Handler =
    | SendText(text: string)  // send a fixed text, as TEST does with "HB"
    | Echo                    // send the message itself: the default handler
    | Exit(status: int)       // raise SystemExit(status), as CLOSE does with 0
    | CloseFlag               // call close(), ending the loop through the flag

  /** The bytes bytes.split() treats as whitespace. */
  const PyWhitespace: set<char> := {' ', '\t', '\n', '\r', '\U{0B}', '\U{0C}'}

  predicate IsPyWhitespace(c: char) { c in PyWhitespace }

  /** Every token is non-empty and holds no whitespace. */
  predicate Words(tokens: seq<string>) {
    forall k :: 0 <= k < |tokens| ==> |tokens[k]| > 0 && NoneIn(tokens[k], PyWhitespace)
  }

  /** Every character of `s` is whitespace (so is the empty string). */
  predicate Blank(s: string) {
    forall j :: 0 <= j < |s| ==> IsPyWhitespace(s[j])
  }

  /** The end of the word starting at `from`: the next whitespace index, or the length. */
  function WordEnd(s: string, from: nat): (e: nat)
    requires from <= |s|
    ensures from <= e <= |s| && NoneIn(s[from..e], PyWhitespace)
    ensures e < |s| ==> IsPyWhitespace(s[e])
  {
    var i := IndexOfAny(s, from, PyWhitespace);
    if i < 0 then |s| else i
  }

  /** bytes.split() with no separator: the maximal runs of non-whitespace, in order. */
  function PySplit(s: string): (r: seq<string>)
    ensures Words(r)
    ensures r == [] <==> Blank(s)
    decreases |s|
  {
    if |s| == 0 then []
    else if IsPyWhitespace(s[0]) then
      var r := PySplit(s[1..]);
      assert forall j :: 1 <= j < |s| ==> s[j] == s[1..][j - 1];
      r
    else
      var e := WordEnd(s, 0);
      assert s[..e] == s[0..e];
      [s[..e]] + PySplit(s[e..])
  }

  /** Every token wrapped as a present value. */
  function Present(tokens: seq<string>): (val: seq<Option<string>>)
    ensures |val| == |tokens| && forall k :: 0 <= k < |val| ==> val[k] == Some(tokens[k])
  {
    if |tokens| == 0 then [] else [Some(tokens[0])] + Present(tokens[1..])
  }

  /** read(): the split payload, or the pair (None, None) when nothing is queued. */
  function Read(received: Option<string>): (val: seq<Option<string>>)
    ensures received.None? ==> val == [None, None]
    ensures received.Some? ==> val == Present(PySplit(received.value))
  {
    match received
    case None => [None, None]
    case Some(payload) => Present(PySplit(payload))
  }

  /** The message a poll acts on: the second element of a pair, otherwise the first; none at all is an IndexError. */
  function SelectMessage(val: seq<Option<string>>): (r: Result<Option<string>>)
    ensures |val| == 2 ==> r == Ok(val[1])
    ensures |val| != 2 && |val| > 0 ==> r == Ok(val[0])
    ensures r.Err? <==> |val| == 0
  {
    if |val| == 2 then Ok(val[1])
    else if |val| == 0 then Err(PythonIndexError)
    else Ok(val[0])
  }

  /** msg.split(" ")[0]: the text before the first space. */
  function CommandName(msg: string): (cmd: string)
    ensures |cmd| <= |msg| && cmd == msg[..|cmd|] && NoneIn(cmd, {' '})
    ensures |cmd| < |msg| ==> msg[|cmd|] == ' '
  {
    var i := IndexOfAny(msg, 0, {' '});
    if i < 0 then msg else msg[..i]
  }

  /** The command name is the first piece of splitting the message on single spaces. */
  lemma CommandNameIsFirstPiece(msg: string)
    ensures CommandName(msg) == Split(msg, ' ')[0]
  {
  }

  /** The part of the agent a poll can change. */
  datatype AgentState = AgentState(cmds: map<string, Handler>, closeCode: int, outbox: seq<string>)

  /** The table a new agent starts with: TEST answers "HB" and CLOSE exits with status 0. */
  const InitialCmds: map<string, Handler> := map["TEST" := SendText("HB"), "CLOSE" := Exit(0)]

  /** Running one handler on a message. */
  function Dispatch(st: AgentState, h: Handler, msg: string): (Result<()>, AgentState) {
    match h
    case SendText(text) => (Ok(()), st.(outbox := st.outbox + [text]))
    case Echo => (Ok(()), st.(outbox := st.outbox + [msg]))
    case Exit(status) => (Err(SystemExit(status)), st)
    case CloseFlag => (Ok(()), st.(closeCode := 1))
  }

  /** The handler a message selects: the table's entry for its command name, else the default. */
  function HandlerFor(cmds: map<string, Handler>, defaultCmd: Handler, msg: string): Handler {
    var cmd := CommandName(msg);
    if cmd in cmds then cmds[cmd] else defaultCmd
  }

  /** One iteration of run(): read, select, dispatch. */
  function PollStep(st: AgentState, defaultCmd: Handler, received: Option<string>): (r: (Result<()>, AgentState))
    ensures r.1.cmds == st.cmds
    ensures r.1.outbox == st.outbox || (r.0.Ok? && |r.1.outbox| == |st.outbox| + 1 && r.1.outbox[..|st.outbox|] == st.outbox)
    ensures r.1.closeCode == st.closeCode || (r.0.Ok? && r.1.closeCode == 1)
  {
    match SelectMessage(Read(received))
    case Err(e) => (Err(e), st)
    case Ok(None) => (Ok(()), st)
    case Ok(Some(msg)) => Dispatch(st, HandlerFor(st.cmds, defaultCmd, msg), msg)
  }

  /** How run() ended: the exception that escaped (if any), the final state, and the number of polls made. */
  datatype RunOutcome = RunOutcome(result: Result<()>, state: AgentState, polled: nat)

  /**
   * run() over a finite sequence of polls: it stops when close_code is no
   * longer 0, when an exception escapes a poll, or when the polls run out.
   * The result also counts the polls made.
   */
  function RunSpec(st: AgentState, defaultCmd: Handler, inputs: seq<Option<string>>): RunOutcome
    decreases |inputs|
  {
    if st.closeCode != 0 || |inputs| == 0 then RunOutcome(Ok(()), st, 0)
    else
      var p := PollStep(st, defaultCmd, inputs[0]);
      if p.0.Err? then RunOutcome(p.0, p.1, 1)
      else
        var rest := RunSpec(p.1, defaultCmd, inputs[1..]);
        rest.(polled := rest.polled + 1)
  }

  class Java {
    var cmds: map<string, Handler>
    var closeCode: int
    /** Everything published, in order. */
    var outbox: seq<string>
    const defaultCmd: Handler

    function State(): AgentState
      reads this
    {
      AgentState(cmds, closeCode, outbox)
    }

    /** The agent registers TEST and CLOSE and keeps the default handler it is given. */
    constructor (defaultCmd: Handler)
      ensures State() == AgentState(InitialCmds, 0, []) && this.defaultCmd == defaultCmd
    {
      this.defaultCmd := defaultCmd;
      cmds := map[];
      closeCode := 0;
      outbox := [];
      new;
      AddCmd("TEST", SendText("HB"));
      AddCmd("CLOSE", Exit(0));
    }

    /** add_cmd: registers a handler, replacing any earlier one under the same name. */
    method AddCmd(cmd: string, h: Handler)
      modifies this
      ensures cmds == old(cmds)[cmd := h]
      ensures closeCode == old(closeCode) && outbox == old(outbox)
    {
      cmds := cmds[cmd := h];
    }

    /** send: publishes one message. */
    method Send(msg: string)
      modifies this
      ensures outbox == old(outbox) + [msg]
      ensures cmds == old(cmds) && closeCode == old(closeCode)
    {
      outbox := outbox + [msg];
    }

    /** close: sets the flag that ends run(). */
    method Close()
      modifies this
      ensures closeCode == 1 && cmds == old(cmds) && outbox == old(outbox)
    {
      closeCode := 1;
    }

    /** term: close, then publish "BYE". */
    method Term()
      modifies this
      ensures closeCode == 1 && outbox == old(outbox) + ["BYE"] && cmds == old(cmds)
    {
      Close();
      Send("BYE");
    }

    /** One iteration of the run() loop on what the poll received. */
    method Poll(received: Option<string>) returns (r: Result<()>)
      modifies this
      ensures (r, State()) == PollStep(old(State()), defaultCmd, received)
    {
      var val := Read(received);
      var sel := SelectMessage(val);
      if sel.Err? {
        return Err(sel.error);
      }
      r := Ok(());
      if sel.value.Some? {
        var msg := sel.value.value;
        var h := HandlerFor(cmds, defaultCmd, msg);
        match h
        case SendText(text) => Send(text);
        case Echo => Send(msg);
        case Exit(status) => r := Err(SystemExit(status));
        case CloseFlag => Close();
      }
    }

    /** run(): polls while close_code is 0, as long as there are polls to make. */
    method Run(inputs: seq<Option<string>>) returns (r: Result<()>, polled: nat)
      modifies this
      ensures RunOutcome(r, State(), polled) == RunSpec(old(State()), defaultCmd, inputs)
    {
      ghost var spec := RunSpec(State(), defaultCmd, inputs);
      var i := 0;
      while closeCode == 0 && i < |inputs|
        invariant 0 <= i <= |inputs|
        invariant var rest := RunSpec(State(), defaultCmd, inputs[i..]);
                  rest.result == spec.result && rest.state == spec.state && i + rest.polled == spec.polled
      {
        assert inputs[i..][1..] == inputs[i + 1..];
        var res := Poll(inputs[i]);
        i := i + 1;
        if res.Err? {
          return res, i;
        }
      }
      return Ok(()), i;
    }
  }

  /** register(): anything but two arguments after the script name exits with status 101 before an agent exists. */
  method Register(argv: seq<string>, defaultCmd: Handler) returns (r: Result<Java>)
    ensures r.Err? <==> |argv| != 3
    ensures r.Err? ==> r.error == SystemExit(101)
    ensures r.Ok? ==> fresh(r.value) && r.value.State() == AgentState(InitialCmds, 0, []) && r.value.defaultCmd == defaultCmd
  {
    if |argv| != 3 {
      return Err(SystemExit(101));
    }
    var java := new Java(defaultCmd);
    return Ok(java);
  }

  /**
   * The script's main block: register, run inside the with-block, and on
   * leaving it (normally or by an exception) call term, which publishes
   * "BYE". The outcome is the exception that ends the script, if any.
   */
  method Session(argv: seq<string>, inputs: seq<Option<string>>) returns (outcome: Result<()>, sent: seq<string>)
    ensures |argv| != 3 ==> outcome == Err(SystemExit(101)) && sent == []
    ensures |argv| == 3 ==>
              var run := RunSpec(AgentState(InitialCmds, 0, []), Echo, inputs);
              outcome == run.result && sent == run.state.outbox + ["BYE"]
  {
    var reg := Register(argv, Echo);
    if reg.Err? {
      return Err(reg.error), [];
    }
    var java := reg.value;
    var r, _ := java.Run(inputs);
    java.Term();
    return r, java.outbox;
  }

  /** With exactly two tokens the second is the message; with one or more than two, the first. */
  lemma SelectedToken(payload: string)
    requires |PySplit(payload)| > 0
    ensures var tokens := PySplit(payload);
            SelectMessage(Read(Some(payload)))
              == Ok(Some(if |tokens| == 2 then tokens[1] else tokens[0]))
  {
  }

  /** A whitespace-only payload splits to nothing, and indexing the empty list raises IndexError. */
  lemma BlankPayloadFails(st: AgentState, defaultCmd: Handler, payload: string)
    requires forall j :: 0 <= j < |payload| ==> IsPyWhitespace(payload[j])
    ensures PollStep(st, defaultCmd, Some(payload)) == (Err(PythonIndexError), st)
  {
  }

  /** With nothing queued a poll sends nothing and changes nothing. */
  lemma EmptyPollIsNoOp(st: AgentState, defaultCmd: Handler)
    ensures PollStep(st, defaultCmd, None) == (Ok(()), st)
  {
  }

  /** A selected token is a single word, so its command name is the whole token. */
  lemma {:induction false} TokenIsCommandName(payload: string, k: nat)
    requires k < |PySplit(payload)|
    ensures CommandName(PySplit(payload)[k]) == PySplit(payload)[k]
  {
    var tok := PySplit(payload)[k];
    assert NoneIn(tok, {' '});
    assert IndexOfAny(tok, 0, {' '}) == -1 by {
      NoSeparatorNoIndex(tok, 0, {' '});
    }
  }

  lemma {:induction false} NoSeparatorNoIndex(s: string, from: nat, cs: set<char>)
    requires from <= |s| && NoneIn(s, cs)
    ensures IndexOfAny(s, from, cs) == -1
    decreases |s| - from
  {
    if from < |s| {
      NoSeparatorNoIndex(s, from + 1, cs);
    }
  }

  /**
   * A poll of a non-blank payload acts on the selected token, which is a
   * single word and so is its own command name: a token that is a key of the
   * table runs that handler on it, any other token runs the default handler.
   */
  lemma PollDispatch(st: AgentState, defaultCmd: Handler, payload: string)
    requires |PySplit(payload)| > 0
    ensures var tokens := PySplit(payload);
            var msg := if |tokens| == 2 then tokens[1] else tokens[0];
            PollStep(st, defaultCmd, Some(payload))
              == Dispatch(st, if msg in st.cmds then st.cmds[msg] else defaultCmd, msg)
  {
    var tokens := PySplit(payload);
    SelectedToken(payload);
    if |tokens| == 2 {
      TokenIsCommandName(payload, 1);
    } else {
      TokenIsCommandName(payload, 0);
    }
  }

  /** A payload that is one word splits to that word, which is also its command name. */
  lemma {:induction false} SingleWord(w: string)
    requires |w| > 0 && NoneIn(w, PyWhitespace)
    ensures PySplit(w) == [w] && CommandName(w) == w
  {
    NoSeparatorNoIndex(w, 0, PyWhitespace);
    assert w[..|w|] == w;
    NoSeparatorNoIndex(w, 0, {' '});
  }

  /** The payload with its whitespace removed. */
  function DropWhitespace(s: string): (r: string)
    ensures |r| <= |s| && NoneIn(r, PyWhitespace)
    decreases |s|
  {
    if |s| == 0 then ""
    else (if IsPyWhitespace(s[0]) then "" else [s[0]]) + DropWhitespace(s[1..])
  }

  lemma {:induction false} DropWhitespaceAppend(a: string, b: string)
    ensures DropWhitespace(a + b) == DropWhitespace(a) + DropWhitespace(b)
    decreases |a|
  {
    if |a| > 0 {
      assert (a + b)[0] == a[0] && (a + b)[1..] == a[1..] + b;
      DropWhitespaceAppend(a[1..], b);
    } else {
      assert a + b == b;
    }
  }

  lemma {:induction false} DropWhitespaceOfWord(w: string)
    requires NoneIn(w, PyWhitespace)
    ensures DropWhitespace(w) == w
    decreases |w|
  {
    if |w| > 0 {
      DropWhitespaceOfWord(w[1..]);
    }
  }

  /** Gluing tokens together: the first token, then the rest glued. */
  lemma JoinFirst(w: string, rest: seq<string>)
    ensures Join([w] + rest, "") == w + Join(rest, "")
  {
    if |rest| > 0 {
      assert ([w] + rest)[1..] == rest;
    }
  }

  /** The tokens, glued back together, are exactly the payload's non-whitespace characters in order. */
  lemma {:induction false} PySplitKeepsText(s: string)
    ensures Join(PySplit(s), "") == DropWhitespace(s)
    decreases |s|
  {
    if |s| == 0 {
    } else if IsPyWhitespace(s[0]) {
      PySplitKeepsText(s[1..]);
    } else {
      var e := WordEnd(s, 0);
      PySplitWordFirst(s);
      PySplitKeepsText(s[e..]);
      JoinFirst(s[..e], PySplit(s[e..]));
      assert s[..e] == s[0..e];
      assert s == s[..e] + s[e..];
      DropWhitespaceAppend(s[..e], s[e..]);
      DropWhitespaceOfWord(s[..e]);
    }
  }

  /** The word that starts a payload ends where it would end in any longer payload that follows it with whitespace. */
  lemma WordEndBeforeWhitespace(s1: string, c: char, s2: string)
    requires IsPyWhitespace(c)
    ensures WordEnd(s1 + [c] + s2, 0) == WordEnd(s1, 0)
  {
    var x := s1 + [c] + s2;
    var e1 := WordEnd(s1, 0);
    assert x[e1] == (if e1 < |s1| then s1[e1] else c);
    forall j | 0 <= j < e1
      ensures x[j] !in PyWhitespace
    {
      assert x[j] == s1[0..e1][j];
    }
    IndexOfAnyFirst(x, 0, PyWhitespace, e1);
  }

  /**
   * Splitting distributes over a whitespace character: the tokens of
   * `s1 c s2` are those of `s1` followed by those of `s2`. With PySplit of a
   * single word being that word, this pins down every token boundary.
   */
  lemma {:induction false} PySplitAtWhitespace(s1: string, c: char, s2: string)
    requires IsPyWhitespace(c)
    ensures PySplit(s1 + [c] + s2) == PySplit(s1) + PySplit(s2)
    decreases |s1|
  {
    if |s1| == 0 {
      assert s1 + [c] + s2 == [c] + s2;
      WhitespaceConsSplit(c, s2);
    } else if IsPyWhitespace(s1[0]) {
      PySplitAtWhitespace(s1[1..], c, s2);
      BlankFirstAppend(s1, c, s2);
      PySplitWhitespaceFirst(s1);
    } else {
      var e := WordEnd(s1, 0);
      PySplitAtWhitespace(s1[e..], c, s2);
      WordFirstAppend(s1, c, s2);
      PySplitWordFirst(s1);
    }
  }

  /** Leading whitespace of `s1` is dropped from `s1 c s2` as from `s1` alone. */
  lemma BlankFirstAppend(s1: string, c: char, s2: string)
    requires |s1| > 0 && IsPyWhitespace(s1[0])
    ensures PySplit(s1 + [c] + s2) == PySplit(s1[1..] + [c] + s2)
  {
    assert s1 + [c] + s2 == [s1[0]] + (s1[1..] + [c] + s2) by {
      assert s1 == [s1[0]] + s1[1..];
    }
    WhitespaceConsSplit(s1[0], s1[1..] + [c] + s2);
  }

  /** The first word of `s1` is the first token of `s1 c s2`; the rest of `s1` is split on with `c s2`. */
  lemma WordFirstAppend(s1: string, c: char, s2: string)
    requires IsPyWhitespace(c) && |s1| > 0 && !IsPyWhitespace(s1[0])
    ensures var e := WordEnd(s1, 0);
            PySplit(s1 + [c] + s2) == [s1[..e]] + PySplit(s1[e..] + [c] + s2)
  {
    var e := WordEnd(s1, 0);
    WordEndBeforeWhitespace(s1, c, s2);
    SlicesAroundWord(s1, [c] + s2, e);
    assert s1 + [c] + s2 == s1 + ([c] + s2);
    assert s1[e..] + [c] + s2 == s1[e..] + ([c] + s2);
    PySplitWordFirst(s1 + [c] + s2);
  }

  lemma SlicesAroundWord(s1: string, rest: string, e: nat)
    requires 0 < e <= |s1|
    ensures (s1 + rest)[0] == s1[0]
    ensures (s1 + rest)[..e] == s1[..e] && (s1 + rest)[e..] == s1[e..] + rest
  {
  }

  /** A whitespace character in front yields no token. */
  lemma WhitespaceConsSplit(w: char, t: string)
    requires IsPyWhitespace(w)
    ensures PySplit([w] + t) == PySplit(t)
  {
    assert ([w] + t)[1..] == t;
  }

  /** Leading whitespace yields no token. */
  lemma PySplitWhitespaceFirst(s: string)
    requires |s| > 0 && IsPyWhitespace(s[0])
    ensures PySplit(s) == PySplit(s[1..])
  {
  }

  /** A payload that starts with a word splits to that word followed by the tokens of the rest. */
  lemma PySplitWordFirst(s: string)
    requires |s| > 0 && !IsPyWhitespace(s[0])
    ensures PySplit(s) == [s[..WordEnd(s, 0)]] + PySplit(s[WordEnd(s, 0)..])
  {
  }

  /** TEST publishes exactly one "HB" and leaves close_code alone. */
  lemma TestSendsHeartbeat(st: AgentState, defaultCmd: Handler)
    requires st.cmds == InitialCmds
    ensures PollStep(st, defaultCmd, Some("TEST")) == (Ok(()), st.(outbox := st.outbox + ["HB"]))
  {
    SingleWord("TEST");
    assert Read(Some("TEST")) == [Some("TEST")];
  }

  lemma PairSplit()
    ensures PySplit("p m") == ["p", "m"]
  {
    assert IndexOfAny("p m", 0, PyWhitespace) == 1;
    assert "p m"[..1] == "p" && "p m"[1..] == " m";
    assert " m"[1..] == "m";
    SingleWord("m");
  }

  /** The default echo of "p m" publishes only "m": the second of two tokens. */
  lemma EchoOfPair(st: AgentState)
    requires "m" !in st.cmds
    ensures PollStep(st, Echo, Some("p m")) == (Ok(()), st.(outbox := st.outbox + ["m"]))
  {
    PairSplit();
    SingleWord("m");
    assert Read(Some("p m")) == [Some("p"), Some("m")];
    assert SelectMessage(Read(Some("p m"))) == Ok(Some("m"));
    assert HandlerFor(st.cmds, Echo, "m") == Echo;
  }

  /** CLOSE leaves run() through SystemExit(0). */
  lemma CloseExits(st: AgentState)
    requires st.cmds == InitialCmds
    ensures PollStep(st, Echo, Some("CLOSE")) == (Err(SystemExit(0)), st)
  {
    SingleWord("CLOSE");
    assert Read(Some("CLOSE")) == [Some("CLOSE")];
  }

  /**
   * CLOSE ends run() through SystemExit(0) rather than through the flag, so
   * the polls after it are never made; the with-block then calls term, which
   * sends "BYE" after everything published before.
   */
  lemma CloseExitsThenBye(argv: seq<string>, earlier: seq<Option<string>>, later: seq<Option<string>>)
    requires var before := RunSpec(AgentState(InitialCmds, 0, []), Echo, earlier);
             before.result.Ok? && before.state.closeCode == 0 && before.state.cmds == InitialCmds
    ensures var before := RunSpec(AgentState(InitialCmds, 0, []), Echo, earlier);
            var run := RunSpec(AgentState(InitialCmds, 0, []), Echo, earlier + [Some("CLOSE")] + later);
            run == RunOutcome(Err(SystemExit(0)), before.state, before.polled + 1)
  {
    var st0 := RunSpec(AgentState(InitialCmds, 0, []), Echo, earlier).state;
    RunAppend(AgentState(InitialCmds, 0, []), Echo, earlier, [Some("CLOSE")] + later);
    assert earlier + [Some("CLOSE")] + later == earlier + ([Some("CLOSE")] + later);
    CloseExits(st0);
    assert ([Some("CLOSE")] + later)[0] == Some("CLOSE");
  }

  /** Running on a concatenation of polls is running on the first part, then (if still open and no exception escaped) on the rest. */
  lemma {:induction false} RunAppend(st: AgentState, d: Handler, xs: seq<Option<string>>, ys: seq<Option<string>>)
    requires var first := RunSpec(st, d, xs); first.result.Ok? && first.state.closeCode == 0
    ensures var first := RunSpec(st, d, xs);
            var second := RunSpec(first.state, d, ys);
            RunSpec(st, d, xs + ys) == second.(polled := first.polled + second.polled)
    decreases |xs|
  {
    if |xs| > 0 {
      var p := PollStep(st, d, xs[0]);
      assert (xs + ys)[0] == xs[0];
      assert (xs + ys)[1..] == xs[1..] + ys;
      assert st.closeCode == 0 && p.0.Ok?;
      RunAppend(p.1, d, xs[1..], ys);

    } else {
      assert xs + ys == ys;
    }
  }

  /** run() returns normally only when the flag is set or every poll was made. */
  lemma {:induction false} RunEndsOnFlagOrInput(st: AgentState, d: Handler, inputs: seq<Option<string>>)
    ensures var run := RunSpec(st, d, inputs);
            run.polled <= |inputs| && (run.result.Ok? ==> run.state.closeCode != 0 || run.polled == |inputs|)
    decreases |inputs|
  {
    if st.closeCode == 0 && |inputs| > 0 {
      var p := PollStep(st, d, inputs[0]);
      if p.0.Ok? {
        RunEndsOnFlagOrInput(p.1, d, inputs[1..]);
      }
    }
  }

  /** The outbox only grows: everything published stays published, in order. */
  lemma {:induction false} RunOnlyAppends(st: AgentState, d: Handler, inputs: seq<Option<string>>)
    ensures var run := RunSpec(st, d, inputs);
            |st.outbox| <= |run.state.outbox| && run.state.outbox[..|st.outbox|] == st.outbox
    decreases |inputs|
  {
    if st.closeCode == 0 && |inputs| > 0 {
      var p := PollStep(st, d, inputs[0]);
      var st' := p.1;
      if p.0.Ok? {
        RunOnlyAppends(st', d, inputs[1..]);
        var st1 := RunSpec(st, d, inputs).state;
        assert st1.outbox[..|st'.outbox|] == st'.outbox;
        assert st'.outbox[..|st.outbox|] == st.outbox;
      }
    }
  }
}
