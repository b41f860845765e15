/** The `Command` decorator of `decorators.py`: what a decorated bot command
    does around its body. For an update it finds or creates the chat in the
    bot's registry, records the caller as a member, applies the main-chat and
    chat-admin checks, files the message and then either runs the body or
    denies it; the bot's state is saved afterwards in every case. A call
    made by the bot itself (no update) runs the body with none of this.
    That is the evident intent (`Invoke`); the code as written raises
    before any of it for new callers, main-only commands outside the main
    chat and chat-admin commands (`InvokeAsWritten`).

    The body's own effect is not part of this model: the outcome says
    whether it ran, in which state. */
module Decorators {
  import opened Wrappers
  import opened Ordinals
  import opened Users
  import opened Events
  import opened Chats
  import opened Bot

  /** `Command(chat_admin, main_admin)`. */
  datatype Command = Command(chatAdmin: bool, mainAdmin: bool)

  /** What the decorator reads from a Telegram update: the effective chat
      (id, title, type), the effective user (id, first name) and the
      effective message, if any. */
  datatype Update = Update(
    chatId: ChatId,
    title: Option<string>,
    chatType: ChatType,
    userId: UserId,
    firstName: string,
    message: Option<Message>)

  /** The state the body runs in (or would have run in), and what the
      decorator did around it. */
  datatype CommandOutcome = CommandOutcome(
    state: BotState,
    ran: bool,
    muteRequested: bool,
    deniedReply: bool,
    saved: bool)

  /** `_add_chat`: the registry's chat for the id, or a new one stored under
      it; either way title and type are taken from the update. */
  function AddChat(s: BotState, u: Update, today: Ordinal): (c: Chat)
    requires forall k :: k in s.chats ==> s.chats[k].id == k
    ensures c.id == u.chatId && c.title == u.title && c.chatType == u.chatType
    ensures u.chatId in s.chats ==> c == s.chats[u.chatId].(title := u.title, chatType := u.chatType)
    ensures u.chatId !in s.chats ==> c == NewChat(u.chatId, today).(title := u.title, chatType := u.chatType)
  {
    var base := if u.chatId in s.chats then s.chats[u.chatId] else NewChat(u.chatId, today);
    base.(title := u.title, chatType := u.chatType)
  }

  /** The chat the command works on. A chat already held in the context's
      chat data only gets its type refreshed; otherwise `_add_chat` runs. */
  function ResolveChat(s: BotState, u: Update, cached: Option<Chat>, today: Ordinal): (c: Chat)
    requires forall k :: k in s.chats ==> s.chats[k].id == k
    requires cached.Some? ==> cached.value.id == u.chatId
    ensures c.id == u.chatId && c.chatType == u.chatType
    ensures cached.Some? ==> c == cached.value.(chatType := u.chatType)
    ensures cached.None? ==> c.title == u.title
  {
    match cached
    case Some(c) => c.(chatType := u.chatType)
    case None => AddChat(s, u, today)
  }

  /** The chat-admin check: a private chat passes, otherwise the caller must
      be among the chat's administrators (`fetched` is what Telegram lists,
      `None` for a failed request). */
  predicate ChatAdminPasses(c: Chat, userId: UserId, fetched: Option<set<UserId>>)
  {
    c.chatType == Private
    || (Administrators(c, fetched).Ran? && userId in Administrators(c, fetched).value)
  }

  /** The caller is in the chat and `add_message` finds them. */
  function FileMessage(c: Chat, u: Update): (r: Chat)
    requires u.userId in c.users
    ensures r.users.Keys == c.users.Keys
    ensures u.message.None? ==> r == c
    ensures u.message.Some? ==> r.users[u.userId].messages == c.users[u.userId].messages + {u.message.value}
    ensures r.users[u.userId] == c.users[u.userId].(messages := r.users[u.userId].messages)
    ensures forall k :: k in c.users && k != u.userId ==> r.users[k] == c.users[k]
    ensures r == c.(users := r.users)
  {
    match u.message
    case None => c
    case Some(m) =>
      match AddMessage(c, u.userId, m)
      case Success(r) => r
      case Failure(_) => c
  }

  /** `chat.add_user(user)` for the caller: a member with that id is kept
      as it is, anyone else joins as `from_tuser`'s new user. */
  function Enrol(c: Chat, u: Update): (r: Chat)
    ensures r.users.Keys == c.users.Keys + {u.userId}
    ensures forall k :: k in c.users ==> r.users[k] == c.users[k]
    ensures u.userId !in c.users ==> r.users[u.userId] == NewUser(u.firstName, u.userId)
    ensures r == c.(users := r.users)
  {
    if u.userId in c.users then c else AddUser(c, NewUser(u.firstName, u.userId))
  }

  /** The chat after the bookkeeping: resolved, with the caller as a member
      and the message filed. */
  function Visit(s: BotState, u: Update, cached: Option<Chat>, today: Ordinal): (c: Chat)
    requires forall k :: k in s.chats ==> s.chats[k].id == k
    requires cached.Some? ==> cached.value.id == u.chatId
    ensures var before := ResolveChat(s, u, cached, today);
            && c.id == u.chatId && c.chatType == u.chatType && c.title == before.title
            && c.users.Keys == before.users.Keys + {u.userId}
            && (forall k :: k in before.users ==> c.users[k].name == before.users[k].name)
            && (forall k :: k in before.users && k != u.userId ==> c.users[k] == before.users[k])
            && (u.userId !in before.users ==> c.users[u.userId].name == u.firstName)
            && c == before.(users := c.users)
  {
    var chat := ResolveChat(s, u, cached, today);
    var enrolled := Enrol(chat, u);
    FileMessage(enrolled, u)
  }

  /** `wrapped_f` for a command invoked with `update` (`None` for a call from
      the bot itself), `cached` being what the context's chat data holds
      under `"chat"`, `fetched` the administrators Telegram reports and
      `today` the date a new chat's first event is taken from. A cached chat
      is the registry's object for its id whenever the registry has one. */
  function Invoke(cmd: Command, s: BotState, update: Option<Update>, cached: Option<Chat>,
                  fetched: Option<set<UserId>>, today: Ordinal): (r: CommandOutcome)
    requires forall k :: k in s.chats ==> s.chats[k].id == k
    requires update.Some? && cached.Some? ==> cached.value.id == update.value.chatId
    requires update.Some? && cached.Some? && update.value.chatId in s.chats ==>
               s.chats[update.value.chatId] == cached.value
    ensures update.None? ==> r == CommandOutcome(s, true, false, false, false)
    ensures update.Some? ==> r.saved
    ensures update.Some? ==> r.state.chats.Keys == s.chats.Keys + {update.value.chatId}
    ensures update.Some? ==> forall k :: k in s.chats && k != update.value.chatId ==> r.state.chats[k] == s.chats[k]
    ensures update.Some? ==> r.state == s.(chats := r.state.chats)
    ensures update.Some? ==> update.value.userId in r.state.chats[update.value.chatId].users
    ensures update.Some? ==> (r.muteRequested <==> cmd.mainAdmin && s.mainId != Some(update.value.chatId))
    ensures update.Some? ==> (r.deniedReply <==> !r.ran && update.value.message.Some?)
    ensures update.Some? ==> r.state.chats[update.value.chatId] == Visit(s, update.value, cached, today)
  {
    match update
    case None => CommandOutcome(s, true, false, false, false)
    case Some(u) =>
      var chat := ResolveChat(s, u, cached, today);
      var withUser := Enrol(chat, u);
      var mainOk := !cmd.mainAdmin || s.mainId == Some(chat.id);
      var adminOk := !cmd.chatAdmin || ChatAdminPasses(withUser, u.userId, fetched);
      var ran := mainOk && adminOk;
      CommandOutcome(s.(chats := s.chats[u.chatId := Visit(s, u, cached, today)]), ran, !mainOk,
                     !ran && u.message.Some?, true)
  }

  /** Where `wrapped_f` as written raises before its `try` (at line 99):
      - `_add_user` calls `User.from_tuser`, but the file imports only the
        module `user`, so a caller not yet in the chat meets a `NameError`
        (line 36, reached from line 72);
      - a main-only command outside the main chat calls `clazz.mute_user`,
        which no class defines (line 83);
      - a chat-admin command reads `chat.ChatType` on the local `chat`, a
        `Chat` object without that attribute (line 87). */
  predicate RaisesAsWritten(cmd: Command, s: BotState, u: Update, c: Chat)
  {
    || u.userId !in c.users
    || (cmd.mainAdmin && s.mainId != Some(u.chatId))
    || cmd.chatAdmin
  }

  /** `wrapped_f` as written. When it raises before the `try`
      (`RaisesAsWritten`), the resolved chat is already in the registry,
      but the caller is not added, the message is not filed, no refusal is
      sent, the body does not run and the `finally` that saves the state
      is never reached; `clazz.mute_user` is called only when the caller
      was already a member. Every other call is `Invoke`. */
  function InvokeAsWritten(cmd: Command, s: BotState, update: Option<Update>, cached: Option<Chat>,
                           fetched: Option<set<UserId>>, today: Ordinal): (r: CommandOutcome)
    requires forall k :: k in s.chats ==> s.chats[k].id == k
    requires update.Some? && cached.Some? ==> cached.value.id == update.value.chatId
    requires update.Some? && cached.Some? && update.value.chatId in s.chats ==>
               s.chats[update.value.chatId] == cached.value
    ensures update.Some? && RaisesAsWritten(cmd, s, update.value, ResolveChat(s, update.value, cached, today)) ==>
              && !r.ran && !r.deniedReply && !r.saved
              && (r.muteRequested <==> && update.value.userId in ResolveChat(s, update.value, cached, today).users
                                       && cmd.mainAdmin && s.mainId != Some(update.value.chatId))
              && r.state == s.(chats := s.chats[update.value.chatId := ResolveChat(s, update.value, cached, today)])
    ensures update.None? || !RaisesAsWritten(cmd, s, update.value, ResolveChat(s, update.value, cached, today)) ==>
              r == Invoke(cmd, s, update, cached, fetched, today)
  {
    match update
    case Some(u) =>
      var chat := ResolveChat(s, u, cached, today);
      if RaisesAsWritten(cmd, s, u, chat) then
        var mute := u.userId in chat.users && cmd.mainAdmin && s.mainId != Some(u.chatId);
        CommandOutcome(s.(chats := s.chats[u.chatId := chat]), false, mute, false, false)
      else Invoke(cmd, s, update, cached, fetched, today)
    case None => Invoke(cmd, s, update, cached, fetched, today)
  }

  /** As written, a decorated command runs exactly when it comes from the
      bot itself, or from a caller already in the chat with no chat-admin
      check and, for a main-only command, from the main chat. The intended
      wrapper runs it for new callers as well, and lets chat-admin commands
      through in private chats and for administrators. */
  lemma {:induction false} RunsAsWritten(cmd: Command, s: BotState, update: Option<Update>, cached: Option<Chat>,
                                         fetched: Option<set<UserId>>, today: Ordinal)
    requires forall k :: k in s.chats ==> s.chats[k].id == k
    requires update.Some? && cached.Some? ==> cached.value.id == update.value.chatId
    requires update.Some? && cached.Some? && update.value.chatId in s.chats ==>
               s.chats[update.value.chatId] == cached.value
    ensures InvokeAsWritten(cmd, s, update, cached, fetched, today).ran <==>
              || update.None?
              || (&& update.value.userId in ResolveChat(s, update.value, cached, today).users
                  && !cmd.chatAdmin
                  && (cmd.mainAdmin ==> s.mainId == Some(update.value.chatId)))
    ensures InvokeAsWritten(cmd, s, update, cached, fetched, today).ran ==>
              Invoke(cmd, s, update, cached, fetched, today).ran
  {
    if update.Some? {
      InvokeDecision(cmd, s, update.value, cached, fetched, today);
    }
  }

  /** A main-only command from another chat: as written nothing is saved,
      no refusal is sent and the message stays unfiled, while the evident
      intent refuses a command that came with a message and saves. */
  lemma MainOnlyElsewhereRaises(cmd: Command, s: BotState, u: Update, cached: Option<Chat>,
                                fetched: Option<set<UserId>>, today: Ordinal, m: Message)
    requires forall k :: k in s.chats ==> s.chats[k].id == k
    requires cached.Some? ==> cached.value.id == u.chatId
    requires cached.Some? && u.chatId in s.chats ==> s.chats[u.chatId] == cached.value
    requires cmd.mainAdmin && s.mainId != Some(u.chatId) && u.message == Some(m)
    ensures var asWritten := InvokeAsWritten(cmd, s, Some(u), cached, fetched, today);
            && !asWritten.saved && !asWritten.deniedReply && !asWritten.ran
            && asWritten.state == s.(chats := s.chats[u.chatId := ResolveChat(s, u, cached, today)])
    ensures var intended := Invoke(cmd, s, Some(u), cached, fetched, today);
            && intended.saved && intended.deniedReply && !intended.ran
            && m in intended.state.chats[u.chatId].users[u.userId].messages
  {
  }

  /** A caller the chat does not know yet: as written the `NameError` of
      `User.from_tuser` leaves them out of the chat and nothing is saved,
      while the evident intent adds them under their first name and saves. */
  lemma NewCallerRaises(cmd: Command, s: BotState, u: Update, cached: Option<Chat>,
                        fetched: Option<set<UserId>>, today: Ordinal)
    requires forall k :: k in s.chats ==> s.chats[k].id == k
    requires cached.Some? ==> cached.value.id == u.chatId
    requires cached.Some? && u.chatId in s.chats ==> s.chats[u.chatId] == cached.value
    requires u.userId !in ResolveChat(s, u, cached, today).users
    ensures var asWritten := InvokeAsWritten(cmd, s, Some(u), cached, fetched, today);
            && !asWritten.saved && !asWritten.ran && !asWritten.deniedReply && !asWritten.muteRequested
            && u.userId !in asWritten.state.chats[u.chatId].users
    ensures var intended := Invoke(cmd, s, Some(u), cached, fetched, today);
            && intended.saved
            && u.userId in intended.state.chats[u.chatId].users
            && intended.state.chats[u.chatId].users[u.userId].name == u.firstName
  {
  }

  /** A chat-admin command from a member: as written the `AttributeError`
      at line 87 stops it even in a private chat, while the evident intent
      runs it there and saves. */
  lemma ChatAdminRaises(cmd: Command, s: BotState, u: Update, cached: Option<Chat>,
                        fetched: Option<set<UserId>>, today: Ordinal)
    requires forall k :: k in s.chats ==> s.chats[k].id == k
    requires cached.Some? ==> cached.value.id == u.chatId
    requires cached.Some? && u.chatId in s.chats ==> s.chats[u.chatId] == cached.value
    requires cmd.chatAdmin && u.userId in ResolveChat(s, u, cached, today).users
    ensures var asWritten := InvokeAsWritten(cmd, s, Some(u), cached, fetched, today);
            && !asWritten.saved && !asWritten.ran && !asWritten.deniedReply
    ensures var intended := Invoke(cmd, s, Some(u), cached, fetched, today);
            && intended.saved
            && (u.chatType == Private && (cmd.mainAdmin ==> s.mainId == Some(u.chatId)) ==> intended.ran)
  {
    InvokeDecision(cmd, s, u, cached, fetched, today);
  }

  /** The command body runs exactly when every check the command asks for
      passes: the main-chat check compares the chat with the state's main
      chat, the chat-admin check lets private chats and administrators
      through. Denied callers are still recorded as members. */
  lemma {:induction false} InvokeDecision(cmd: Command, s: BotState, u: Update, cached: Option<Chat>,
                                          fetched: Option<set<UserId>>, today: Ordinal)
    requires forall k :: k in s.chats ==> s.chats[k].id == k
    requires cached.Some? ==> cached.value.id == u.chatId
    requires cached.Some? && u.chatId in s.chats ==> s.chats[u.chatId] == cached.value
    ensures var r := Invoke(cmd, s, Some(u), cached, fetched, today);
            r.ran <==> && (cmd.mainAdmin ==> s.mainId == Some(u.chatId))
                       && (cmd.chatAdmin ==> u.chatType == Private
                                             || (fetched.Some? && u.userId in fetched.value))
  {
    var chat := ResolveChat(s, u, cached, today);
    var withUser := Enrol(chat, u);
    assert u.userId in withUser.users && withUser.chatType == u.chatType;
    if u.chatType != Private {
      var a := Administrators(withUser, fetched);
      assert a.Ran?;
      assert fetched.Some? ==> (u.userId in a.value <==> u.userId in fetched.value);
    }
  }

  /** The chat a command leaves behind: the registry's chat (or a new one)
      with the update's type, the caller as a member and the message filed
      with them. Members already present keep their records. */
  lemma InvokeKeepsMembers(cmd: Command, s: BotState, u: Update, fetched: Option<set<UserId>>, today: Ordinal)
    requires forall k :: k in s.chats ==> s.chats[k].id == k
    requires u.chatId in s.chats
    ensures var c := Invoke(cmd, s, Some(u), Some(s.chats[u.chatId]), fetched, today).state.chats[u.chatId];
            && c.chatType == u.chatType
            && c.users.Keys == s.chats[u.chatId].users.Keys + {u.userId}
            && (forall k :: k in s.chats[u.chatId].users && k != u.userId ==>
                  c.users[k] == s.chats[u.chatId].users[k])
            && c.currentEvent == s.chats[u.chatId].currentEvent
            && c.events == s.chats[u.chatId].events
            && c.title == s.chats[u.chatId].title
  {
  }

  /** Whether the chat came from the context's cache or from the registry
      only changes the title: a cached chat keeps its old one. */
  lemma CacheOnlyAffectsTitle(cmd: Command, s: BotState, u: Update, fetched: Option<set<UserId>>, today: Ordinal)
    requires forall k :: k in s.chats ==> s.chats[k].id == k
    requires u.chatId in s.chats
    ensures var viaCache := Invoke(cmd, s, Some(u), Some(s.chats[u.chatId]), fetched, today);
            var viaRegistry := Invoke(cmd, s, Some(u), None, fetched, today);
            && viaCache.ran == viaRegistry.ran
            && viaCache.deniedReply == viaRegistry.deniedReply
            && viaRegistry.state.chats[u.chatId] ==
                 viaCache.state.chats[u.chatId].(title := u.title)
  {
    var old_ := s.chats[u.chatId];
    assert ResolveChat(s, u, None, today) == ResolveChat(s, u, Some(old_), today).(title := u.title);
  }

  /** Invoking the same command again from the same update, with the chat
      now cached, adds nothing more to the registry or to the chat's
      members. */
  lemma InvokeTwice(cmd: Command, s: BotState, u: Update, fetched: Option<set<UserId>>, today: Ordinal)
    requires forall k :: k in s.chats ==> s.chats[k].id == k
    requires u.message.None?
    ensures var first := Invoke(cmd, s, Some(u), None, fetched, today);
            && (forall k :: k in first.state.chats ==> first.state.chats[k].id == k)
            && Invoke(cmd, first.state, Some(u), Some(first.state.chats[u.chatId]), fetched, today).state == first.state
  {
    var c := Visit(s, u, None, today);
    var st := s.(chats := s.chats[u.chatId := c]);
    assert Invoke(cmd, s, Some(u), None, fetched, today).state == st;
    assert Visit(st, u, Some(c), today) == c by {
      assert ResolveChat(st, u, Some(c), today) == c;
      assert Enrol(c, u) == c;
    }
    assert st.chats[u.chatId := c] == st.chats;
  }
}
