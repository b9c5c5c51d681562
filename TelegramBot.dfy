/**
 * TelegramBot: a chat bot that keeps a list of known chats and two command
 * tables (public and secret), and routes each incoming message to a
 * handler. Messages the bot sends are appended to an outbox, the persisted
 * chat list is the last list stored, and handlers whose effect lies outside
 * the bot are recorded as dispatched.
 */
module TelegramBot {
  import opened Wrappers
  import Text

  /** ChatInfo: a chat and its user; subscribed and enabled come from the persisted state. */
  datatype ChatInfo = ChatInfo(chatId: int, userId: int, userName: string, userFirstName: string,
                               userLastName: string, subscribed: bool, enabled: bool)

  /** An incoming message: its chat, its sender and its text (null for a message without text). */
  datatype Message = Message(chatId: int, userId: int, userName: string, firstName: string, lastName: string,
                             text: Option<string>)

  /** new ChatInfo(message): not subscribed, not enabled. */
  function ChatInfoOf(m: Message): ChatInfo
  {
    ChatInfo(m.chatId, m.userId, m.userName, m.firstName, m.lastName, false, false)
  }

  /** ChatInfo.equals: the same chat id and user id; names and flags are ignored. */
  predicate ChatEquals(a: ChatInfo, b: ChatInfo)
  {
    a.chatId == b.chatId && a.userId == b.userId
  }

  /**
   * equals is an equivalence; two messages come from the same chat iff
   * their chat and user ids agree, whatever the names, and a persisted
   * chat equals the chat built from its message.
   */
  lemma ChatEqualsSpec(a: ChatInfo, b: ChatInfo, c: ChatInfo, m1: Message, m2: Message)
    ensures ChatEquals(a, a)
    ensures ChatEquals(a, b) ==> ChatEquals(b, a)
    ensures ChatEquals(a, b) && ChatEquals(b, c) ==> ChatEquals(a, c)
    ensures ChatEquals(ChatInfoOf(m1), ChatInfoOf(m2)) <==> m1.chatId == m2.chatId && m1.userId == m2.userId
    ensures ChatEquals(a, ChatInfoOf(m1)) <==> a.chatId == m1.chatId && a.userId == m1.userId
  {
  }

  /** List.indexOf under equals: the first equal chat, or -1. */
  function IndexOf(chats: seq<ChatInfo>, c: ChatInfo): (i: int)
    ensures -1 <= i < |chats|
    ensures i >= 0 ==> ChatEquals(chats[i], c)
    ensures forall j :: 0 <= j < |chats| && (i < 0 || j < i) ==> !ChatEquals(chats[j], c)
  {
    if |chats| == 0 then -1
    else if ChatEquals(chats[0], c) then 0
    else
      var i := IndexOf(chats[1..], c);
      if i < 0 then -1 else i + 1
  }

  /** List.remove(Object): the first equal chat removed, if any. */
  function RemoveFirst(chats: seq<ChatInfo>, c: ChatInfo): seq<ChatInfo>
  {
    var i := IndexOf(chats, c);
    if i < 0 then chats else chats[..i] + chats[i + 1..]
  }

  /** No two chats in the list are equal. */
  predicate Distinct(chats: seq<ChatInfo>)
  {
    forall i, j :: 0 <= i < j < |chats| ==> !ChatEquals(chats[i], chats[j])
  }

  /** A chat not found in a list is found at the end once appended, and the list stays without equal chats. */
  lemma {:induction false} AppendUnknown(chats: seq<ChatInfo>, c: ChatInfo)
    requires IndexOf(chats, c) < 0
    ensures IndexOf(chats + [c], c) == |chats|
    ensures Distinct(chats) ==> Distinct(chats + [c])
  {
    if |chats| > 0 {
      assert (chats + [c])[1..] == chats[1..] + [c];
      AppendUnknown(chats[1..], c);
    }
    var r := chats + [c];
    if Distinct(chats) {
      forall i, j | 0 <= i < j < |r|
        ensures !ChatEquals(r[i], r[j])
      {
        if j == |chats| {
          assert r[i] == chats[i] && r[j] == c;
        }
      }
    }
  }

  /** A chat already found keeps its place when another chat is appended. */
  lemma {:induction false} IndexOfAppend(chats: seq<ChatInfo>, c: ChatInfo, x: ChatInfo)
    requires IndexOf(chats, x) >= 0
    ensures IndexOf(chats + [c], x) == IndexOf(chats, x)
  {
    if !ChatEquals(chats[0], x) {
      assert (chats + [c])[1..] == chats[1..] + [c];
      IndexOfAppend(chats[1..], c, x);
    }
  }

  /**
   * loadState: the saved chats put through a HashSet, so that no two equal
   * chats are restored; the first of each group of equal chats is kept.
   */
  function Restored(saved: seq<ChatInfo>): (r: seq<ChatInfo>)
    ensures Distinct(r)
    decreases |saved|
  {
    if |saved| == 0 then []
    else
      var d := Restored(saved[..|saved| - 1]);
      var c := saved[|saved| - 1];
      if IndexOf(d, c) >= 0 then d
      else
        AppendUnknown(d, c);
        d + [c]
  }

  /** Every saved chat is found among the restored ones, and only saved chats are restored. */
  lemma {:induction false} RestoredKeepsChats(saved: seq<ChatInfo>)
    ensures forall k :: 0 <= k < |saved| ==> IndexOf(Restored(saved), saved[k]) >= 0
    ensures forall k :: 0 <= k < |Restored(saved)| ==> Restored(saved)[k] in saved
    decreases |saved|
  {
    if |saved| > 0 {
      var init := saved[..|saved| - 1];
      var d := Restored(init);
      var c := saved[|saved| - 1];
      RestoredKeepsChats(init);
      assert saved == init + [c];
      if IndexOf(d, c) < 0 {
        AppendUnknown(d, c);
        forall k | 0 <= k < |init|
          ensures IndexOf(d + [c], saved[k]) >= 0
        {
          assert saved[k] == init[k];
          IndexOfAppend(d, c, init[k]);
        }
      }
    }
  }

  /** Two saved copies of one chat are restored as a single chat. */
  lemma RestoredDuplicateKeptOnce(a: ChatInfo, b: ChatInfo)
    requires ChatEquals(a, b)
    ensures Restored([a, b]) == [a]
  {
    assert [a][..0] == [];
    assert Restored([a]) == [a];
    assert [a, b][..1] == [a];
    assert IndexOf([a], b) == 0;
  }

  /** In a list without equal chats, removing a chat leaves none equal to it and the rest in order. */
  lemma RemoveFirstSpec(chats: seq<ChatInfo>, c: ChatInfo)
    requires Distinct(chats)
    ensures var r := RemoveFirst(chats, c);
            && Distinct(r) && IndexOf(r, c) < 0
            && (IndexOf(chats, c) < 0 ==> r == chats)
            && (IndexOf(chats, c) >= 0 ==> |r| == |chats| - 1)
            && forall k :: 0 <= k < |chats| && !ChatEquals(chats[k], c) ==> chats[k] in r
  {
    var i := IndexOf(chats, c);
    if i >= 0 {
      var r := chats[..i] + chats[i + 1..];
      assert forall k :: 0 <= k < |r| ==> r[k] == chats[if k < i then k else k + 1];
      forall k, l | 0 <= k < l < |r|
        ensures !ChatEquals(r[k], r[l])
      {
        var k', l' := if k < i then k else k + 1, if l < i then l else l + 1;
        assert r[k] == chats[k'] && r[l] == chats[l'] && k' < l';
      }
      forall k | 0 <= k < |r|
        ensures !ChatEquals(r[k], c)
      {
        var k' := if k < i then k else k + 1;
        assert r[k] == chats[k'] && k' != i;
      }
      forall k | 0 <= k < |chats| && !ChatEquals(chats[k], c)
        ensures chats[k] in r
      {
        if k < i {
          assert r[k] == chats[k];
        } else {
          assert r[k - 1] == chats[k];
        }
      }
    }
  }

  /** What a registered command does: the built-in bye and ?, or a handler recorded by name. */
  datatype Handler = Bye | Help | Custom(name: string)

  /** A LinkedHashMap of commands: the keys in insertion order and the handler of each. */
  datatype Table = Table(keys: seq<string>, handlers: map<string, Handler>)

  predicate ValidTable(t: Table)
  {
    && (forall i, j :: 0 <= i < j < |t.keys| ==> t.keys[i] != t.keys[j])
    && t.handlers.Keys == set k | k in t.keys
  }

  /** put: a new key goes last, an existing one keeps its place; whether the key was there before. */
  function Put(t: Table, key: string, h: Handler): (Table, bool)
  {
    if key in t.handlers then (t.(handlers := t.handlers[key := h]), true)
    else (Table(t.keys + [key], t.handlers[key := h]), false)
  }

  /** The key cmd and secretCmd register a command under: lower-cased, then trimmed. */
  function CommandKey(command: string): string
  {
    Text.Trim(Text.ToLower(command))
  }

  /**
   * Registering a command maps its key to the handler, even over an old
   * one; the key is appended only if new, and the table stays valid. The
   * result says whether an old handler was replaced (the duplicate that
   * throws).
   */
  lemma PutSpec(t: Table, key: string, h: Handler)
    requires ValidTable(t)
    ensures var (r, existed) := Put(t, key, h);
            && ValidTable(r) && key in r.handlers && r.handlers[key] == h
            && (existed <==> key in t.handlers)
            && (existed ==> r.keys == t.keys)
            && (!existed ==> r.keys == t.keys + [key])
            && (forall k :: k != key && k in t.handlers ==> k in r.handlers && r.handlers[k] == t.handlers[k])
            && (forall k :: k in r.handlers ==> k == key || k in t.handlers)
  {
  }

  /** The commands the constructor registers: bye, me, sync and ? in public, all in secret. */
  const InitialPublic := Table(["bye", "me", "sync", "?"], map["bye" := Bye, "me" := Custom("me"), "sync" := Custom("sync"), "?" := Help])
  const InitialSecret := Table(["all"], map["all" := Custom("all")])

  lemma InitialTablesValid()
    ensures ValidTable(InitialPublic) && ValidTable(InitialSecret)
  {
  }

  /** A message sent: the chat id and the text. */
  datatype Outgoing = Outgoing(chatId: int, text: string)

  /** A handler run outside the model: its name, the known chat and the message text. */
  datatype Dispatch = Dispatch(name: string, chat: ChatInfo, text: string)

  /** What update handling changes: the chats, the outbox, the stored chat list and the dispatched handlers. */
  datatype Bot = Bot(chats: seq<ChatInfo>, outbox: seq<Outgoing>, store: seq<ChatInfo>, dispatched: seq<Dispatch>)

  const Greeting := "You are new to me. Type ? to list commands."

  function Quoted(keys: seq<string>): (r: seq<string>)
    ensures |r| == |keys|
  {
    if |keys| == 0 then [] else ["'" + keys[0] + "'"] + Quoted(keys[1..])
  }

  /** The ? reply: the public commands, and for an enabled chat the secret ones too. */
  function HelpText(pub: Table, secret: Table, enabled: bool): string
  {
    "Commands are:\n" + Text.Join(Quoted(pub.keys), ",\n")
    + (if enabled then "\nSecret commands are:\n" + Text.Join(Quoted(secret.keys), ",\n") else "")
  }

  /** The reply to text that is no command. */
  function UnknownText(pub: Table): string
  {
    "What??\U{8}Commands are: " + Text.Join(pub.keys, ", ")
  }

  /** Running a handler for a known chat: bye forgets the chat and stores the list, ? lists the commands. */
  function Run(pub: Table, secret: Table, s: Bot, h: Handler, chat: ChatInfo, text: string): Bot
  {
    match h
    case Bye =>
      var chats := RemoveFirst(s.chats, chat);
      s.(chats := chats, outbox := s.outbox + [Outgoing(chat.chatId, "Bye!")], store := chats)
    case Help => s.(outbox := s.outbox + [Outgoing(chat.chatId, HelpText(pub, secret, chat.enabled))])
    case Custom(name) => s.(dispatched := s.dispatched + [Dispatch(name, chat, text)])
  }

  /**
   * onUpdateReceived: an update without a message is ignored. A message from
   * an unknown chat adds, greets and stores it. For a known chat, the
   * lower-cased text is looked up among the public commands, then the
   * secret ones (refused to a chat not enabled); other text gets the list
   * of public commands. A known chat's message without text throws.
   */
  function UpdateStep(pub: Table, secret: Table, s: Bot, update: Option<Message>): (Bot, Option<Exception>)
  {
    if update.None? then (s, None)
    else
      var m := update.value;
      var info := ChatInfoOf(m);
      var i := IndexOf(s.chats, info);
      if i < 0 then
        var chats := s.chats + [info];
        (s.(chats := chats, outbox := s.outbox + [Outgoing(info.chatId, Greeting)], store := chats), None)
      else
        var known := s.chats[i];
        if m.text.None? then (s, Some(NullPointer))
        else
          var command := Text.ToLower(m.text.value);
          if command in pub.handlers then (Run(pub, secret, s, pub.handlers[command], known, m.text.value), None)
          else if command in secret.handlers then
            if !known.enabled then (s.(outbox := s.outbox + [Outgoing(known.chatId, "Not permitted")]), None)
            else (Run(pub, secret, s, secret.handlers[command], known, m.text.value), None)
          else (s.(outbox := s.outbox + [Outgoing(known.chatId, UnknownText(pub))]), None)
  }

  /** An update without a message changes nothing. */
  lemma EmptyUpdateIgnored(pub: Table, secret: Table, s: Bot)
    ensures UpdateStep(pub, secret, s, None) == (s, None)
  {
  }

  /**
   * A message from a chat not in the list adds that chat at the end, sends
   * it the greeting and stores the list; its text runs no command. The chat
   * is known from then on.
   */
  lemma UnknownChatGreeted(pub: Table, secret: Table, s: Bot, m: Message)
    requires IndexOf(s.chats, ChatInfoOf(m)) < 0
    ensures var (r, err) := UpdateStep(pub, secret, s, Some(m));
            && err.None?
            && r.chats == s.chats + [ChatInfoOf(m)]
            && r.outbox == s.outbox + [Outgoing(m.chatId, Greeting)]
            && r.store == r.chats && r.dispatched == s.dispatched
            && IndexOf(r.chats, ChatInfoOf(m)) == |s.chats|
  {
    AppendUnknown(s.chats, ChatInfoOf(m));
  }

  /**
   * For a known chat's text: a public command runs, even if a secret one
   * has the same key; a secret command runs only for an enabled chat, any
   * other chat being told it is not permitted with nothing else changed;
   * text matching neither gets the public command list. The handler sees
   * the chat as stored, not as rebuilt from the message.
   */
  lemma KnownChatRouted(pub: Table, secret: Table, s: Bot, m: Message)
    requires IndexOf(s.chats, ChatInfoOf(m)) >= 0 && m.text.Some?
    ensures var (r, err) := UpdateStep(pub, secret, s, Some(m));
            var known := s.chats[IndexOf(s.chats, ChatInfoOf(m))];
            var command := Text.ToLower(m.text.value);
            && err.None? && known.chatId == m.chatId && known.userId == m.userId
            && (command in pub.handlers ==> r == Run(pub, secret, s, pub.handlers[command], known, m.text.value))
            && (command !in pub.handlers && command in secret.handlers && !known.enabled ==>
                  r == s.(outbox := s.outbox + [Outgoing(m.chatId, "Not permitted")]))
            && (command !in pub.handlers && command in secret.handlers && known.enabled ==>
                  r == Run(pub, secret, s, secret.handlers[command], known, m.text.value))
            && (command !in pub.handlers && command !in secret.handlers ==>
                  r == s.(outbox := s.outbox + [Outgoing(m.chatId, UnknownText(pub))]))
  {
  }

  /** bye from a known chat removes it from the list, says goodbye and stores the list; no other chat is lost. */
  lemma ByeForgetsChat(pub: Table, secret: Table, s: Bot, m: Message)
    requires Distinct(s.chats) && IndexOf(s.chats, ChatInfoOf(m)) >= 0 && m.text.Some?
    requires Text.ToLower(m.text.value) in pub.handlers && pub.handlers[Text.ToLower(m.text.value)] == Bye
    ensures var (r, _) := UpdateStep(pub, secret, s, Some(m));
            && IndexOf(r.chats, ChatInfoOf(m)) < 0
            && |r.chats| == |s.chats| - 1 && r.store == r.chats
            && r.outbox == s.outbox + [Outgoing(m.chatId, "Bye!")]
            && forall k :: 0 <= k < |s.chats| && !ChatEquals(s.chats[k], ChatInfoOf(m)) ==> s.chats[k] in r.chats
  {
    var known := s.chats[IndexOf(s.chats, ChatInfoOf(m))];
    RemoveFirstSpec(s.chats, known);
  }

  /** Handling an update never puts two equal chats in the list. */
  lemma UpdateKeepsDistinct(pub: Table, secret: Table, s: Bot, update: Option<Message>)
    requires Distinct(s.chats)
    ensures Distinct(UpdateStep(pub, secret, s, update).0.chats)
  {
    if update.Some? {
      var info := ChatInfoOf(update.value);
      var i := IndexOf(s.chats, info);
      if i >= 0 {
        RemoveFirstSpec(s.chats, s.chats[i]);
      } else {
        AppendUnknown(s.chats, info);
      }
    }
  }

  class TelegramBot {
    var pub: Table
    var secret: Table
    var chats: seq<ChatInfo>
    var outbox: seq<Outgoing>
    var store: seq<ChatInfo>
    var dispatched: seq<Dispatch>

    function State(): Bot
      reads this
    {
      Bot(chats, outbox, store, dispatched)
    }

    /** The bot with the chats its stored state restores: the built-in commands registered and "I'm up!" sent to each chat. */
    constructor (saved: seq<ChatInfo>)
      ensures pub == InitialPublic && secret == InitialSecret
      ensures Distinct(chats)
      ensures var restored := Restored(saved);
              State() == Bot(restored, seq(|restored|, i requires 0 <= i < |restored| => Outgoing(restored[i].chatId, "I'm up!")), saved, [])
    {
      pub := InitialPublic;
      secret := InitialSecret;
      var restored := Restored(saved);
      chats := restored;
      store := saved;
      dispatched := [];
      var sent := [];
      var i := 0;
      while i < |restored|
        invariant 0 <= i <= |restored|
        invariant sent == seq(i, k requires 0 <= k < i => Outgoing(restored[k].chatId, "I'm up!"))
      {
        sent := sent + [Outgoing(restored[i].chatId, "I'm up!")];
        i := i + 1;
      }
      outbox := sent;
    }

    /** cmd: the handler is put under the command's key; a key already present is replaced and then reported. */
    method Cmd(command: string, h: Handler) returns (err: Option<Exception>)
      modifies this
      ensures pub == Put(old(pub), CommandKey(command), h).0 && secret == old(secret) && State() == old(State())
      ensures err.Some? <==> Put(old(pub), CommandKey(command), h).1
      ensures err.Some? ==> err.value == IllegalArgument
    {
      var existed;
      pub, existed := Put(pub, CommandKey(command), h).0, CommandKey(command) in pub.handlers;
      err := if existed then Some(IllegalArgument) else None;
    }

    /** secretCmd: the same, in the secret table. */
    method SecretCmd(command: string, h: Handler) returns (err: Option<Exception>)
      modifies this
      ensures secret == Put(old(secret), CommandKey(command), h).0 && pub == old(pub) && State() == old(State())
      ensures err.Some? <==> Put(old(secret), CommandKey(command), h).1
      ensures err.Some? ==> err.value == IllegalArgument
    {
      var existed;
      secret, existed := Put(secret, CommandKey(command), h).0, CommandKey(command) in secret.handlers;
      err := if existed then Some(IllegalArgument) else None;
    }

    method Send(chat: ChatInfo, text: string)
      modifies this
      ensures State() == old(State()).(outbox := old(outbox) + [Outgoing(chat.chatId, text)])
      ensures pub == old(pub) && secret == old(secret)
    {
      outbox := outbox + [Outgoing(chat.chatId, text)];
    }

    method OnUpdateReceived(update: Option<Message>) returns (err: Option<Exception>)
      modifies this
      ensures (State(), err) == UpdateStep(pub, secret, old(State()), update)
      ensures pub == old(pub) && secret == old(secret)
    {
      err := None;
      if update.None? {
        return;
      }
      var m := update.value;
      var info := ChatInfoOf(m);
      var i := IndexOf(chats, info);
      if i < 0 {
        chats := chats + [info];
        Send(info, Greeting);
        store := chats;
        return;
      }
      info := chats[i];
      if m.text.None? {
        return Some(NullPointer);
      }
      var command := Text.ToLower(m.text.value);
      var cons: Option<Handler> := if command in pub.handlers then Some(pub.handlers[command]) else None;
      if cons.None? {
        cons := if command in secret.handlers then Some(secret.handlers[command]) else None;
        if cons.Some? && !info.enabled {
          Send(info, "Not permitted");
          return;
        }
      }
      if cons.Some? {
        match cons.value {
          case Bye =>
            chats := RemoveFirst(chats, info);
            Send(info, "Bye!");
            store := chats;
          case Help =>
            Send(info, HelpText(pub, secret, info.enabled));
          case Custom(name) =>
            dispatched := dispatched + [Dispatch(name, info, m.text.value)];
        }
      } else {
        Send(info, UnknownText(pub));
      }
    }
  }
}
