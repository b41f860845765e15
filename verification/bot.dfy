/** The `Bot` class of `bot.py`: the registry of chat ids that asked for
    reminders, the main chat, and the per-chat attendance records kept in
    `state["attendees"]["current"]`, together with the two callback handlers
    and the two message builders that read those records.

    The records of one chat form a Python dict keyed by `str(user.id)`; its
    insertion order decides the order of names in the messages, so it is an
    `OrderedMap`. The chat key `str(chat_id)` is modelled by the id itself. */
module Bot {
  import opened Wrappers
  import opened Strings
  import opened Seqs
  import opened OrderedMaps
  import opened Users
  import opened Chats

  // ---------------------------------------------------------------------
  // State
  // ---------------------------------------------------------------------

  /** One entry of a chat's records. An attend callback writes a full
      `Vote`; a dice callback from a user without an entry creates the empty
      dict `{}` and fills in one key, which is a `Stub`. */
  datatype Record =
    | Vote(attends: bool, name: string, roll: int, jumbo: bool)
    | Stub(stubRoll: Option<int>, stubJumbo: Option<bool>)

  type Records = OrderedMap<UserId, Record>

  /** `self.chats`, `self.user_ids`, `self.state["main_id"]` and
      `self.state["attendees"]["current"]` (a missing `"current"` behaves as
      an empty one). This reads `state["attendees"]` as a dict; the list the
      constructor actually leaves there is `AttendeesSlot`. */
  datatype BotState = BotState(
    chats: map<ChatId, Chat>,
    userIds: set<ChatId>,
    mainId: Option<ChatId>,
    current: map<ChatId, Records>)

  /** Every chat's records have unique keys, as a dict's do. */
  ghost predicate StateValid(s: BotState)
  {
    forall c :: c in s.current ==> Valid(s.current[c])
  }

  /** The replies `register`, `unregister` and `register_main` send. */
  datatype Reply = RegisteredTwice | Registered | Unregistered | NotRegistered | MainRegistered

  function ReplyText(r: Reply): string
  {
    match r
    case RegisteredTwice => "Why would you register twice, dumbass!"
    case Registered => "You have been registered."
    case Unregistered => "You have been unregistered."
    case NotRegistered => "You weren't registered in the first place!"
    case MainRegistered => "You have been registered as the main chat."
  }

  /** A state after a command, and the reply sent to the chat, if any. */
  datatype Step = Step(state: BotState, reply: Option<Reply>)

  // ---------------------------------------------------------------------
  // Registration
  // ---------------------------------------------------------------------

  /** `register(update, send_success)` for the chat `id`. Writing `users.json`
      is left out; the call then returns `True`. */
  function Register(s: BotState, id: ChatId, sendSuccess: bool): (r: Step)
    ensures r.state == s.(userIds := s.userIds + {id})
    ensures !sendSuccess ==> r.reply == None
    ensures sendSuccess ==> r.reply == Some(if id in s.userIds then RegisteredTwice else Registered)
  {
    var after := s.userIds + {id};
    var reply := if |after| == |s.userIds| then RegisteredTwice else Registered;
    assert id !in s.userIds ==> |after| == |s.userIds| + 1;
    assert id in s.userIds ==> after == s.userIds;
    Step(s.(userIds := after), if sendSuccess then Some(reply) else None)
  }

  /** Registering is idempotent: a second registration changes nothing more
      and is answered with the "twice" reply. */
  lemma RegisterIdempotent(s: BotState, id: ChatId, sendSuccess: bool)
    ensures var once := Register(s, id, sendSuccess).state;
            && Register(once, id, sendSuccess).state == once
            && (sendSuccess ==> Register(once, id, sendSuccess).reply == Some(RegisteredTwice))
  {
  }

  /** `unregister(update)` as written: an id that is not registered makes
      `set.remove` raise `KeyError`, which returns at once without a reply;
      otherwise the id is removed, the main chat is cleared when it was this
      one, and the reply depends on whether the set shrank. */
  function Unregister(s: BotState, id: ChatId): (r: Step)
    ensures id !in s.userIds ==> r == Step(s, None)
    ensures id in s.userIds ==> r.state.userIds == s.userIds - {id}
    ensures id in s.userIds ==> r.state.mainId == if s.mainId == Some(id) then None else s.mainId
    ensures r.state.chats == s.chats && r.state.current == s.current
  {
    if id !in s.userIds then Step(s, None)
    else
      var after := s.userIds - {id};
      var state := s.(userIds := after, mainId := if s.mainId == Some(id) then None else s.mainId);
      Step(state, Some(if |after| == |s.userIds| then NotRegistered else Unregistered))
  }

  /** The "weren't registered" reply of `unregister` is never sent: the only
      input that would reach it returns early. */
  lemma UnregisterNeverSaysNotRegistered(s: BotState, id: ChatId)
    ensures Unregister(s, id).reply != Some(NotRegistered)
    ensures id in s.userIds <==> Unregister(s, id).reply == Some(Unregistered)
  {
    if id in s.userIds {
      assert |s.userIds - {id}| == |s.userIds| - 1;
    }
  }

  /** `unregister` as its replies intend it: an unknown id is told so and
      nothing changes; a known id is removed as before. */
  function UnregisterIntended(s: BotState, id: ChatId): (r: Step)
    ensures id !in s.userIds <==> r.reply == Some(NotRegistered)
    ensures id in s.userIds <==> r.reply == Some(Unregistered)
    ensures id !in s.userIds ==> r.state == s
    ensures id !in r.state.userIds && r.state.userIds == s.userIds - {id}
    ensures id in s.userIds ==> r.state.mainId == if s.mainId == Some(id) then None else s.mainId
  {
    if id !in s.userIds then Step(s, Some(NotRegistered)) else Unregister(s, id)
  }

  /** On a registered id the intended and the written `unregister` agree. */
  lemma UnregisterAgrees(s: BotState, id: ChatId)
    requires id in s.userIds
    ensures UnregisterIntended(s, id) == Unregister(s, id)
  {
  }

  /** Unregistering undoes registering an id that was not registered, as long
      as the main chat is another one. */
  lemma RegisterThenUnregister(s: BotState, id: ChatId)
    requires id !in s.userIds && s.mainId != Some(id)
    ensures UnregisterIntended(Register(s, id, true).state, id).state == s
  {
    assert (s.userIds + {id}) - {id} == s.userIds;
  }

  // ---------------------------------------------------------------------
  // The main chat
  // ---------------------------------------------------------------------

  /** `Bot.admin_user_id`, a `str`. */
  const AdminUserId: string := "139656428"

  /** A Python value as far as `==` between a chat id and `admin_user_id`
      needs one: an `int` never equals a `str`. */
  datatype PyValue = PyInt(i: int) | PyStr(s: string)

  predicate PyEq(a: PyValue, b: PyValue)
  {
    match (a, b)
    case (PyInt(x), PyInt(y)) => x == y
    case (PyStr(x), PyStr(y)) => x == y
    case _ => false
  }

  /** `register_main(update)` as written: the Telegram chat id is an `int`,
      compared with the `str` constant. */
  function RegisterMain(s: BotState, id: ChatId): (r: Step)
    ensures PyEq(PyInt(id), PyStr(AdminUserId)) ==> r.state.mainId == Some(id) && id in r.state.userIds
    ensures !PyEq(PyInt(id), PyStr(AdminUserId)) ==> r == Step(s, None)
  {
    if PyEq(PyInt(id), PyStr(AdminUserId)) then
      Step(Register(s, id, false).state.(mainId := Some(id)), Some(MainRegistered))
    else Step(s, None)
  }

  /** No chat can become the main chat through `register_main` as written. */
  lemma RegisterMainNeverRegisters(s: BotState, id: ChatId)
    ensures RegisterMain(s, id) == Step(s, None)
  {
  }

  /** The admin's chat id as a number. */
  const AdminChatId: int := 139656428

  /** One more digit at the end multiplies by ten and adds it. */
  lemma DigitsSnoc(s: string, c: char)
    requires AllDigits(s) && IsDigit(c)
    ensures AllDigits(s + [c]) && DigitsValue(s + [c]) == DigitsValue(s) * 10 + DigitValue(c)
  {
    assert (s + [c])[..|s|] == s;
  }

  /** `int(admin_user_id)` is the admin's chat id. */
  lemma AdminChatIdParses()
    ensures ParseInt(AdminUserId) == Some(AdminChatId)
  {
    DigitsSnoc("", '1');
    assert "" + ['1'] == "1";
    assert DigitsValue("1") == 1;
    DigitsSnoc("1", '3');
    assert "1" + ['3'] == "13";
    assert DigitsValue("13") == 13;
    DigitsSnoc("13", '9');
    assert "13" + ['9'] == "139";
    assert DigitsValue("139") == 139;
    DigitsSnoc("139", '6');
    assert "139" + ['6'] == "1396";
    assert DigitsValue("1396") == 1396;
    DigitsSnoc("1396", '5');
    assert "1396" + ['5'] == "13965";
    assert DigitsValue("13965") == 13965;
    DigitsSnoc("13965", '6');
    assert "13965" + ['6'] == "139656";
    assert DigitsValue("139656") == 139656;
    DigitsSnoc("139656", '4');
    assert "139656" + ['4'] == "1396564";
    assert DigitsValue("1396564") == 1396564;
    DigitsSnoc("1396564", '2');
    assert "1396564" + ['2'] == "13965642";
    assert DigitsValue("13965642") == 13965642;
    DigitsSnoc("13965642", '8');
    assert "13965642" + ['8'] == AdminUserId;
    assert DigitsValue(AdminUserId) == AdminChatId;
    assert AdminUserId[0] == '1';
  }

  /** `register_main` comparing like with like: the admin's chat is
      registered silently and becomes the main chat; every other chat is
      ignored. */
  function RegisterMainIntended(s: BotState, id: ChatId): (r: Step)
    ensures id == AdminChatId <==> r.reply == Some(MainRegistered)
    ensures id == AdminChatId ==> r.state == s.(userIds := s.userIds + {id}, mainId := Some(id))
    ensures id != AdminChatId ==> r == Step(s, None)
  {
    if PyEq(PyInt(id), PyInt(AdminChatId)) then
      Step(Register(s, id, false).state.(mainId := Some(id)), Some(MainRegistered))
    else Step(s, None)
  }

  /** After the intended `register_main`, `unregister` of the main chat
      clears it again. */
  lemma MainThenUnregister(s: BotState)
    ensures var main := RegisterMainIntended(s, AdminChatId).state;
            && main.mainId == Some(AdminChatId)
            && Unregister(main, AdminChatId).state.mainId == None
  {
  }

  // ---------------------------------------------------------------------
  // Reading the records
  // ---------------------------------------------------------------------

  predicate IsPositive(r: Record) { r.Vote? && r.attends }

  /** Reading `user["attends"]` fails with `KeyError` on a stub. */
  predicate NoStubs(rs: seq<Record>) { forall i :: 0 <= i < |rs| ==> rs[i].Vote? }

  /** `positive_attendees(chat_id)`: the records with `attends` true, in
      dict order (`PositiveInOrder`); `None` stands for the `KeyError` of a
      chat without records or of a stub among them. */
  function PositiveAttendees(s: BotState, chatId: ChatId): (r: Option<seq<Record>>)
    ensures r.Some? <==> chatId in s.current && NoStubs(Values(s.current[chatId]))
    ensures r.Some? ==> forall x :: multiset(r.value)[x] ==
                          if IsPositive(x) then multiset(Values(s.current[chatId]))[x] else 0
    ensures r.Some? ==> forall i :: 0 <= i < |r.value| ==> r.value[i].Vote? && r.value[i].attends
  {
    if chatId !in s.current then None
    else
      var rs := Values(s.current[chatId]);
      if NoStubs(rs) then Some(Filter(IsPositive, rs)) else None
  }

  /** The positive attendees keep the records' dict order: those among the
      first records come before those among the rest. */
  lemma PositiveInOrder(s: BotState, chatId: ChatId, front: seq<Record>, back: seq<Record>)
    requires PositiveAttendees(s, chatId).Some?
    requires Values(s.current[chatId]) == front + back
    ensures PositiveAttendees(s, chatId).value == Filter(IsPositive, front) + Filter(IsPositive, back)
  {
    FilterAppend(IsPositive, front, back);
  }

  function RecordName(r: Record): string
  {
    if r.Vote? then r.name else ""
  }

  const AttendBase: string := "Wer ist dabei?"
  const DiceBase: string := "Was hast du gewürfelt?"
  const Bisher: string := " Bisher: "

  /** `build_message(chat_id)`. */
  function BuildMessage(s: BotState, chatId: ChatId): (m: string)
    ensures var ps := PositiveAttendees(s, chatId);
            (ps.None? || |ps.value| == 0) <==> m == AttendBase
    ensures var ps := PositiveAttendees(s, chatId);
            ps.Some? && |ps.value| > 0 ==>
              StartsWith(m, AttendBase + Bisher)
              && m[|AttendBase + Bisher|..] == Join(Map(RecordName, ps.value), ", ")
  {
    match PositiveAttendees(s, chatId)
    case None => AttendBase
    case Some(ps) =>
      if |ps| == 0 then AttendBase
      else
        var m := AttendBase + Bisher + Join(Map(RecordName, ps), ", ");
        StartsWithConcat(AttendBase + Bisher, Join(Map(RecordName, ps), ", "));
        m
  }

  /** A record shows in the dice message once it holds a roll. */
  predicate HasRoll(r: Record) { r.Vote? && r.roll != -1 }

  /** `"{} ({}{})".format(name, roll, "+1" if jumbo else "")`: the name, then
      in parentheses the roll, followed by `+1` exactly for a jumbo drink. */
  function RollEntry(r: Record): (e: string)
    ensures r.Vote? ==> StartsWith(e, r.name + " (") && EndsWith(e, ")")
    ensures r.Vote? ==> (EndsWith(e, "+1)") <==> r.jumbo)
    ensures r.Vote? ==> && |r.name| + 2 < |e| - (if r.jumbo then 3 else 1)
                        && ParseInt(e[|r.name| + 2..|e| - (if r.jumbo then 3 else 1)]) == Some(r.roll)
  {
    if r.Vote? then
      var t := IntToString(r.roll);
      var mid := t + (if r.jumbo then "+1" else "");
      var e := r.name + " (" + mid + ")";
      Framed(r.name + " (", mid, ")");
      IntRoundTrip(r.roll);
      NoPlusSign(r.roll);
      assert e[|r.name| + 2..|e| - (if r.jumbo then 3 else 1)] == t;
      JumboSuffix(r.name + " (", t, r.jumbo, e);
      e
    else ""
  }

  /** `str(n)` holds no plus sign. */
  lemma NoPlusSign(n: int)
    ensures '+' !in IntToString(n)
  {
    var t := IntToString(n);
    var d := NatToString(if n < 0 then -n else n);
    assert t == if n < 0 then "-" + d else d;
    forall i | 0 <= i < |t| ensures t[i] != '+' {
      if n < 0 && i > 0 { assert t[i] == d[i - 1]; }
    }
  }

  /** After an opening parenthesis and a roll without a plus sign, the
      entry ends in `+1)` exactly when `+1` was written. */
  lemma JumboSuffix(head: string, t: string, jumbo: bool, e: string)
    requires |head| > 0 && head[|head| - 1] == '(' && |t| > 0 && '+' !in t
    requires e == head + t + (if jumbo then "+1" else "") + ")"
    ensures EndsWith(e, "+1)") <==> jumbo
  {
    if !jumbo {
      assert e == head + t + ")";
      if |t| == 1 {
        assert e[|e| - 3] == head[|head| - 1];
      } else {
        assert e[|e| - 3] == t[|t| - 2];
      }
    }
  }

  /** `build_dice_roll_message(chat_id)`: with positive attendees the
      `" Bisher: "` part is present even when nobody has rolled yet. */
  function BuildDiceRollMessage(s: BotState, chatId: ChatId): (m: string)
    ensures var ps := PositiveAttendees(s, chatId);
            (ps.None? || |ps.value| == 0) <==> m == DiceBase
    ensures var ps := PositiveAttendees(s, chatId);
            ps.Some? && |ps.value| > 0 ==>
              StartsWith(m, DiceBase + Bisher)
              && m[|DiceBase + Bisher|..] == Join(Map(RollEntry, Filter(HasRoll, ps.value)), ", ")
  {
    match PositiveAttendees(s, chatId)
    case None => DiceBase
    case Some(ps) =>
      if |ps| == 0 then DiceBase
      else
        var tail := Join(Map(RollEntry, Filter(HasRoll, ps)), ", ");
        StartsWithConcat(DiceBase + Bisher, tail);
        DiceBase + Bisher + tail
  }

  /** Nobody having rolled leaves just the label. */
  lemma NoRollsYet(s: BotState, chatId: ChatId)
    requires PositiveAttendees(s, chatId).Some?
    requires |PositiveAttendees(s, chatId).value| > 0
    requires forall i :: 0 <= i < |PositiveAttendees(s, chatId).value| ==>
               !HasRoll(PositiveAttendees(s, chatId).value[i])
    ensures BuildDiceRollMessage(s, chatId) == DiceBase + Bisher
  {
  }

  // ---------------------------------------------------------------------
  // The attend callback
  // ---------------------------------------------------------------------

  /** What `handle_attend_callback` leaves behind: the state, whether a
      calendar event was requested and whether the callback was answered. */
  datatype AttendOutcome = AttendOutcome(state: BotState, calendar: bool, answered: bool)

  /** The chat's records, `{}` when it has none yet. */
  function RecordsOf(s: BotState, chatId: ChatId): (rs: Records)
    ensures chatId !in s.current ==> rs == Empty()
  {
    if chatId in s.current then s.current[chatId] else Empty()
  }

  /** The state update of an attend callback: the caller's record is
      overwritten (in place when present) with a fresh vote. */
  function RecordVote(s: BotState, chatId: ChatId, userId: UserId, firstName: string, data: string): (r: BotState)
    requires StateValid(s)
    ensures StateValid(r)
    ensures chatId in r.current
    ensures OrderedMaps.Get(r.current[chatId], userId) == Some(Vote(data == "attend_True", firstName, -1, false))
    ensures forall k :: k != userId ==> OrderedMaps.Get(r.current[chatId], k) == OrderedMaps.Get(RecordsOf(s, chatId), k)
    ensures forall c :: c in s.current && c != chatId ==> c in r.current && r.current[c] == s.current[c]
    ensures r.current.Keys == s.current.Keys + {chatId}
    ensures r == s.(current := r.current)
  {
    var rs := Put(RecordsOf(s, chatId), userId, Vote(data == "attend_True", firstName, -1, false));
    s.(current := s.current[chatId := rs])
  }

  /** The calendar check and the answer at the end of the callback, once
      the edit, unpin and pin calls are behind it. The check reads the
      records, which fails on a stub; the callback is then not answered. */
  function AttendFollowUp(s: BotState, chatId: ChatId): (r: AttendOutcome)
    ensures r.state == s
    ensures r.calendar <==> (s.mainId == Some(chatId)
                             && PositiveAttendees(s, chatId).Some? && |PositiveAttendees(s, chatId).value| > 0)
    ensures r.answered <==> !(s.mainId == Some(chatId) && PositiveAttendees(s, chatId).None?)
  {
    if s.mainId == Some(chatId) then
      match PositiveAttendees(s, chatId)
      case None => AttendOutcome(s, false, false)
      case Some(ps) => AttendOutcome(s, |ps| > 0, true)
    else AttendOutcome(s, false, true)
  }

  /** `handle_attend_callback` as written, once `state["attendees"]` is a
      dict (on the constructor's list nothing is written: see
      `AttendCallbackOnSlot`). The records are written and saved; then the
      edit reads `self.attend_markup`, which no code ever
      assigns, so it raises `AttributeError`. That escapes the `BadRequest`
      handler and is swallowed by the outer handler: no message is edited,
      unpinned or pinned, no calendar event is requested and the callback
      is never answered, whatever the input. */
  function HandleAttendCallback(s: BotState, chatId: ChatId, userId: UserId, firstName: string, data: string): (r: AttendOutcome)
    requires StateValid(s)
    ensures StateValid(r.state)
    ensures r.state == RecordVote(s, chatId, userId, firstName, data)
    ensures !r.answered && !r.calendar
  {
    AttendOutcome(RecordVote(s, chatId, userId, firstName, data), false, false)
  }

  /** As written, no attend callback is answered, not even one in the main
      chat that a positive vote would have made eligible for the calendar
      event, although the vote itself is recorded once `state["attendees"]`
      is a dict. */
  lemma AttendCallbackUnanswered(s: BotState, chatId: ChatId, userId: UserId, firstName: string)
    requires StateValid(s) && s.mainId == Some(chatId)
    requires NoStubs(Values(RecordsOf(s, chatId)))
    ensures var r := HandleAttendCallback(s, chatId, userId, firstName, "attend_True");
            && !r.answered && !r.calendar
            && r.state == RecordVote(s, chatId, userId, firstName, "attend_True")
            && PositiveAttendees(r.state, chatId).Some?
            && Vote(true, firstName, -1, false) in PositiveAttendees(r.state, chatId).value
            && HandleAttendCallbackIntended(s, chatId, userId, firstName, "attend_True").answered
            && HandleAttendCallbackIntended(s, chatId, userId, firstName, "attend_True").calendar
  {
    AttendThenMessage(s, chatId, userId, firstName);
  }

  /** `handle_attend_callback` with a defined attend keyboard and the pin
      given the callback message's own id: whether the edit, unpin and pin
      succeed or raise `BadRequest`, the calendar check and the answer
      follow. */
  function HandleAttendCallbackIntended(s: BotState, chatId: ChatId, userId: UserId, firstName: string,
                                        data: string): (r: AttendOutcome)
    requires StateValid(s)
    ensures StateValid(r.state)
    ensures r.state == RecordVote(s, chatId, userId, firstName, data)
    ensures s.mainId != Some(chatId) ==> r.answered && !r.calendar
  {
    AttendFollowUp(RecordVote(s, chatId, userId, firstName, data), chatId)
  }

  /** A positive vote in a chat without stubs shows up in the attend message:
      the message then lists at least one name and the voter is among the
      positive records. */
  lemma {:induction false} AttendThenMessage(s: BotState, chatId: ChatId, userId: UserId, firstName: string)
    requires StateValid(s)
    requires NoStubs(Values(RecordsOf(s, chatId)))
    ensures var after := RecordVote(s, chatId, userId, firstName, "attend_True");
            && PositiveAttendees(after, chatId).Some?
            && Vote(true, firstName, -1, false) in PositiveAttendees(after, chatId).value
            && BuildMessage(after, chatId) != AttendBase
  {
    var after := RecordVote(s, chatId, userId, firstName, "attend_True");
    var rs := after.current[chatId];
    var vote := Vote(true, firstName, -1, false);
    VoteKeepsNoStubs(RecordsOf(s, chatId), rs, userId, vote);
    var vals := Values(rs);
    var j := Find(rs, userId);
    assert j < |rs.entries| && rs.entries[j].1 == vote;
    assert vals[j] == vote;
    assert multiset(vals)[vote] > 0;
    var ps := PositiveAttendees(after, chatId).value;
    assert multiset(ps)[vote] > 0;
  }

  /** Records that differ from stub-free ones only in one key, which now
      holds a vote, are still stub-free. */
  lemma VoteKeepsNoStubs(old_: Records, rs: Records, userId: UserId, vote: Record)
    requires Valid(old_) && Valid(rs) && NoStubs(Values(old_)) && vote.Vote?
    requires OrderedMaps.Get(rs, userId) == Some(vote)
    requires forall k :: k != userId ==> OrderedMaps.Get(rs, k) == OrderedMaps.Get(old_, k)
    ensures NoStubs(Values(rs))
  {
    var vals := Values(rs);
    forall i | 0 <= i < |vals| ensures vals[i].Vote? {
      var k := rs.entries[i].0;
      GetAt(rs, i);
      if k != userId {
        var j := Find(old_, k);
        assert j < |old_.entries| && old_.entries[j].1 == vals[i];
        assert Values(old_)[j] == vals[i];
      }
    }
  }

  // ---------------------------------------------------------------------
  // The dice callback
  // ---------------------------------------------------------------------

  /** `re.match("dice_(.*)", data).groups()[0]`: what follows the prefix, up
      to the first line break (`.` does not match one). `None` stands for
      the failed match, whose `.groups()` raises. */
  function DicePayload(data: string): (p: Option<string>)
    ensures p.Some? <==> StartsWith(data, "dice_")
    ensures p.Some? ==> '\n' !in p.value && StartsWith(data, "dice_" + p.value)
  {
    if StartsWith(data, "dice_") then Some(UpToNewline(data[5..])) else None
  }

  /** The longest prefix of `s` without a line break. */
  function UpToNewline(s: string): (r: string)
    ensures '\n' !in r && StartsWith(s, r)
    ensures |r| < |s| ==> s[|r|] == '\n'
  {
    if |s| == 0 || s[0] == '\n' then ""
    else
      var rest := UpToNewline(s[1..]);
      assert s[..|rest| + 1] == [s[0]] + s[1..][..|rest|];
      [s[0]] + rest
  }

  /** The caller's record with the dice payload applied: `"-1"` and `"+1"`
      set `jumbo`, anything else must parse as an integer roll. A missing
      record first becomes `{}`; when the payload does not parse, that
      `{}` stays behind. */
  function ApplyDice(existing: Option<Record>, payload: string): (r: Record)
    ensures existing.Some? && existing.value.Vote? ==>
              && r.Vote? && r.name == existing.value.name && r.attends == existing.value.attends
              && (payload == "-1" ==> r == existing.value.(jumbo := false))
              && (payload == "+1" ==> r == existing.value.(jumbo := true))
              && (payload != "-1" && payload != "+1" && ParseInt(payload).Some? ==>
                    r == existing.value.(roll := ParseInt(payload).value))
              && (payload != "-1" && payload != "+1" && ParseInt(payload).None? ==> r == existing.value)
    ensures existing.None? ==> r.Stub?
    ensures r.Stub? ==>
              && (payload == "-1" ==> r.stubJumbo == Some(false))
              && (payload == "+1" ==> r.stubJumbo == Some(true))
              && (payload != "-1" && payload != "+1" && ParseInt(payload).Some? ==>
                    r.stubRoll == ParseInt(payload))
  {
    var rec := existing.GetOr(Stub(None, None));
    if payload == "-1" then
      (if rec.Vote? then rec.(jumbo := false) else rec.(stubJumbo := Some(false)))
    else if payload == "+1" then
      (if rec.Vote? then rec.(jumbo := true) else rec.(stubJumbo := Some(true)))
    else
      match ParseInt(payload)
      case Some(n) => if rec.Vote? then rec.(roll := n) else rec.(stubRoll := Some(n))
      case None => rec
  }

  /** The dice callback goes on to change the records: the payload matched
      and the caller's first name is among the positive attendees' names. */
  predicate DiceAccepted(s: BotState, chatId: ChatId, firstName: string, data: string)
  {
    && DicePayload(data).Some?
    && PositiveAttendees(s, chatId).Some?
    && firstName in Map(RecordName, PositiveAttendees(s, chatId).value)
  }

  /** `handle_dice_callback`: nothing changes when the payload does not
      match, when the chat's records cannot be read, or when the caller's
      first name is not among the positive attendees' names. Otherwise the
      caller's record takes the payload. Both message edits read
      `self.dice_markup`, which no code assigns, so each raises
      `AttributeError` and neither `callback.answer()` is reached; the
      state is saved before the second one, so the effect modelled here
      stands. */
  function HandleDiceCallback(s: BotState, chatId: ChatId, userId: UserId, firstName: string, data: string): (r: BotState)
    requires StateValid(s)
    ensures StateValid(r)
    ensures r.chats == s.chats && r.userIds == s.userIds && r.mainId == s.mainId
    ensures DicePayload(data).None? || PositiveAttendees(s, chatId).None? ==> r == s
    ensures PositiveAttendees(s, chatId).Some? && firstName !in Map(RecordName, PositiveAttendees(s, chatId).value) ==> r == s
    ensures DiceAccepted(s, chatId, firstName, data) ==>
              && chatId in s.current && r.current.Keys == s.current.Keys
              && OrderedMaps.Get(r.current[chatId], userId) ==
                   Some(ApplyDice(OrderedMaps.Get(s.current[chatId], userId), DicePayload(data).value))
              && (forall k :: k != userId ==> OrderedMaps.Get(r.current[chatId], k) == OrderedMaps.Get(s.current[chatId], k))
              && (forall c :: c in s.current && c != chatId ==> r.current[c] == s.current[c])
    ensures DiceAccepted(s, chatId, firstName, data) ==>
              Keys(r.current[chatId]) == Keys(s.current[chatId])
                                         + (if userId in Keys(s.current[chatId]) then [] else [userId])
  {
    match DicePayload(data)
    case None => s
    case Some(payload) =>
      match PositiveAttendees(s, chatId)
      case None => s
      case Some(ps) =>
        if firstName !in Map(RecordName, ps) then s
        else DiceUpdate(s, chatId, userId, payload)
  }

  /** The records after an accepted dice callback: only the caller's
      record changes, taking the payload; a new caller comes last. */
  function DiceUpdate(s: BotState, chatId: ChatId, userId: UserId, payload: string): (r: BotState)
    requires StateValid(s) && chatId in s.current
    ensures StateValid(r)
    ensures r == s.(current := r.current) && r.current.Keys == s.current.Keys
    ensures OrderedMaps.Get(r.current[chatId], userId) ==
              Some(ApplyDice(OrderedMaps.Get(s.current[chatId], userId), payload))
    ensures forall k :: k != userId ==> OrderedMaps.Get(r.current[chatId], k) == OrderedMaps.Get(s.current[chatId], k)
    ensures forall c :: c in s.current && c != chatId ==> r.current[c] == s.current[c]
    ensures Keys(r.current[chatId]) == Keys(s.current[chatId])
                                       + (if userId in Keys(s.current[chatId]) then [] else [userId])
  {
    var rs := s.current[chatId];
    s.(current := s.current[chatId := Put(rs, userId, ApplyDice(OrderedMaps.Get(rs, userId), payload))])
  }

  /** A string without a line break is its own longest break-free prefix. */
  lemma {:induction false} UpToNewlineWhole(t: string)
    requires '\n' !in t
    ensures UpToNewline(t) == t
  {
    if |t| > 0 {
      assert t[0] != '\n';
      assert '\n' !in t[1..];
      UpToNewlineWhole(t[1..]);
    }
  }

  /** The button `"dice_" + str(n)` carries the payload `str(n)`. */
  lemma PayloadOfRoll(n: int)
    ensures DicePayload("dice_" + IntToString(n)) == Some(IntToString(n))
    ensures IntToString(n) != "+1"
    ensures IntToString(n) == "-1" <==> n == -1
  {
    var t := IntToString(n);
    var d := NatToString(if n < 0 then -n else n);
    assert t == if n < 0 then "-" + d else d;
    assert forall i :: 0 <= i < |t| ==> t[i] != '\n' by {
      forall i | 0 <= i < |t| ensures t[i] != '\n' {
        if n < 0 && i > 0 { assert t[i] == d[i - 1]; }
      }
    }
    assert ("dice_" + t)[5..] == t;
    UpToNewlineWhole(t);
    StartsWithConcat("dice_", t);
    assert t[0] == '-' || IsDigit(t[0]);
    IntRoundTrip(n);
    if t == "-1" {
      assert ParseInt("-1") == Some(-1) by { assert "-1"[1..] == "1"; DigitsSnoc("", '1'); }
    }
    if n == -1 {
      assert NatToString(1) == "1";
    }
  }

  /** A positive record of a readable chat is among its positive attendees. */
  lemma PositiveListed(s: BotState, chatId: ChatId, v: Record)
    requires PositiveAttendees(s, chatId).Some?
    requires v in Values(s.current[chatId]) && IsPositive(v)
    ensures v in PositiveAttendees(s, chatId).value
  {
    assert multiset(Values(s.current[chatId]))[v] > 0;
    assert multiset(PositiveAttendees(s, chatId).value)[v] > 0;
  }

  /** The name of a listed vote is among the listed names. */
  lemma NameListed(ps: seq<Record>, v: Record)
    requires v in ps && v.Vote?
    ensures v.name in Map(RecordName, ps)
  {
    var i :| 0 <= i < |ps| && ps[i] == v;
    assert Map(RecordName, ps)[i] == v.name;
  }

  /** A roll button pressed by a positive attendee lands in their own
      record: the roll replaces the roll. The button for -1 carries `"-1"`
      and so clears the jumbo flag instead. */
  lemma DiceButtonRecorded(s: BotState, chatId: ChatId, userId: UserId, v: Record, n: int)
    requires StateValid(s)
    requires PositiveAttendees(s, chatId).Some?
    requires OrderedMaps.Get(s.current[chatId], userId) == Some(v) && IsPositive(v)
    ensures var after := HandleDiceCallback(s, chatId, userId, v.name, "dice_" + IntToString(n));
            OrderedMaps.Get(after.current[chatId], userId) ==
              Some(if n == -1 then v.(jumbo := false) else v.(roll := n))
  {
    PayloadOfRoll(n);
    PositiveNamed(s, chatId, userId, v);
    IntRoundTrip(n);
  }

  /** The `+1` button sets the jumbo flag of a positive attendee's record. */
  lemma JumboButtonRecorded(s: BotState, chatId: ChatId, userId: UserId, v: Record)
    requires StateValid(s)
    requires PositiveAttendees(s, chatId).Some?
    requires OrderedMaps.Get(s.current[chatId], userId) == Some(v) && IsPositive(v)
    ensures var after := HandleDiceCallback(s, chatId, userId, v.name, "dice_+1");
            OrderedMaps.Get(after.current[chatId], userId) == Some(v.(jumbo := true))
  {
    PositiveNamed(s, chatId, userId, v);
    JumboPayload();
  }

  /** The `+1` button carries the payload `"+1"`. */
  lemma JumboPayload()
    ensures DicePayload("dice_+1") == Some("+1")
  {
    assert "dice_+1"[5..] == "+1";
    UpToNewlineWhole("+1");
  }

  /** The name of a positive record of a readable chat is among the names
      the dice callback checks against. */
  lemma PositiveNamed(s: BotState, chatId: ChatId, userId: UserId, v: Record)
    requires StateValid(s)
    requires PositiveAttendees(s, chatId).Some?
    requires OrderedMaps.Get(s.current[chatId], userId) == Some(v) && IsPositive(v)
    ensures v.name in Map(RecordName, PositiveAttendees(s, chatId).value)
  {
    GetInValues(s.current[chatId], userId);
    PositiveListed(s, chatId, v);
    NameListed(PositiveAttendees(s, chatId).value, v);
  }

  /** The entries the dice message lists for the records `vals`. */
  function RollEntries(vals: seq<Record>): seq<string>
  {
    Map(RollEntry, Filter(HasRoll, Filter(IsPositive, vals)))
  }

  lemma RollEntriesAppend(a: seq<Record>, b: seq<Record>)
    ensures RollEntries(a + b) == RollEntries(a) + RollEntries(b)
  {
    FilterAppend(IsPositive, a, b);
    FilterAppend(HasRoll, Filter(IsPositive, a), Filter(IsPositive, b));
    MapAppend(RollEntry, Filter(HasRoll, Filter(IsPositive, a)), Filter(HasRoll, Filter(IsPositive, b)));
  }

  /** With positive attendees, the dice message lists the entries of their
      records in dict order. */
  lemma DiceMessageEntries(s: BotState, chatId: ChatId)
    requires PositiveAttendees(s, chatId).Some? && |PositiveAttendees(s, chatId).value| > 0
    ensures BuildDiceRollMessage(s, chatId) == DiceBase + Bisher + Join(RollEntries(Values(s.current[chatId])), ", ")
  {
  }

  /** The dice callback and the message it shows: when the caller already
      has a record, the message before and after lists the same entries
      around the caller's, whose entry changes as the record does. A caller
      without a record gets an empty `{}` one, and the message falls back
      to its base text. */
  lemma DiceCallbackMessage(s: BotState, chatId: ChatId, userId: UserId, firstName: string, data: string)
    requires StateValid(s)
    requires DiceAccepted(s, chatId, firstName, data)
    ensures var was := OrderedMaps.Get(s.current[chatId], userId);
            var after := HandleDiceCallback(s, chatId, userId, firstName, data);
            was.Some? ==>
              exists front, back ::
                && BuildDiceRollMessage(s, chatId) ==
                     DiceBase + Bisher + Join(front + RollEntries([was.value]) + back, ", ")
                && BuildDiceRollMessage(after, chatId) ==
                     DiceBase + Bisher + Join(front + RollEntries([ApplyDice(was, DicePayload(data).value)]) + back, ", ")
    ensures OrderedMaps.Get(s.current[chatId], userId).None? ==>
              BuildDiceRollMessage(HandleDiceCallback(s, chatId, userId, firstName, data), chatId) == DiceBase
  {
    var rs := s.current[chatId];
    var after := HandleDiceCallback(s, chatId, userId, firstName, data);
    var was := OrderedMaps.Get(rs, userId);
    var now := ApplyDice(was, DicePayload(data).value);
    assert after.current[chatId] == Put(rs, userId, now);
    if was.Some? {
      DiceRecordReplaced(s, after, chatId, userId, was.value, now);
    } else {
      DiceRecordAdded(s, after, chatId, userId, now);
    }
  }

  /** A caller with a record: the dice message keeps the entries around
      the caller's, whose entry follows the record. */
  lemma DiceRecordReplaced(s: BotState, after: BotState, chatId: ChatId, userId: UserId, v: Record, now: Record)
    requires StateValid(s) && PositiveAttendees(s, chatId).Some? && |PositiveAttendees(s, chatId).value| > 0
    requires OrderedMaps.Get(s.current[chatId], userId) == Some(v)
    requires now.Vote? && IsPositive(now) == IsPositive(v)
    requires chatId in after.current && after.current[chatId] == Put(s.current[chatId], userId, now)
    ensures exists front, back ::
              && BuildDiceRollMessage(s, chatId) == DiceBase + Bisher + Join(front + RollEntries([v]) + back, ", ")
              && BuildDiceRollMessage(after, chatId) == DiceBase + Bisher + Join(front + RollEntries([now]) + back, ", ")
  {
    var rs := s.current[chatId];
    var rs2 := after.current[chatId];
    var j := Find(rs, userId);
    PutInPlace(rs, userId, now);
    var vals := Values(rs);
    assert vals[j] == v;
    SplitAt(vals, j, v);
    SplitAt(Values(rs2), j, now);
    assert Values(rs2)[..j] == vals[..j] && Values(rs2)[j + 1..] == vals[j + 1..];
    DiceMessagesAround(s, after, chatId, vals[..j], v, now, vals[j + 1..]);
    var front, back := RollEntries(vals[..j]), RollEntries(vals[j + 1..]);
    assert BuildDiceRollMessage(s, chatId) == DiceBase + Bisher + Join(front + RollEntries([v]) + back, ", ");
  }

  /** A caller without a record: the `{}` record added for them is a stub,
      so the records can no longer be read. */
  lemma DiceRecordAdded(s: BotState, after: BotState, chatId: ChatId, userId: UserId, now: Record)
    requires StateValid(s) && chatId in s.current
    requires OrderedMaps.Get(s.current[chatId], userId).None? && now.Stub?
    requires chatId in after.current && after.current[chatId] == Put(s.current[chatId], userId, now)
    ensures BuildDiceRollMessage(after, chatId) == DiceBase
  {
    var rs2 := after.current[chatId];
    assert Keys(rs2) == Keys(s.current[chatId]) + [userId];
    var vals2 := Values(rs2);
    assert vals2[|vals2| - 1] == now;
    assert PositiveAttendees(after, chatId).None?;
  }

  /** A sequence is its part before `j`, the element at `j`, and the rest. */
  lemma SplitAt<T>(vals: seq<T>, j: nat, x: T)
    requires j < |vals| && vals[j] == x
    ensures vals == vals[..j] + [x] + vals[j + 1..]
  {
  }

  /** Two readable chats whose records differ in one vote of the same kind:
      their dice messages list the same entries around that vote's. */
  lemma DiceMessagesAround(s: BotState, after: BotState, chatId: ChatId,
                           a: seq<Record>, x: Record, y: Record, b: seq<Record>)
    requires PositiveAttendees(s, chatId).Some? && |PositiveAttendees(s, chatId).value| > 0
    requires Values(s.current[chatId]) == a + [x] + b
    requires chatId in after.current && Values(after.current[chatId]) == a + [y] + b
    requires y.Vote? && IsPositive(y) == IsPositive(x)
    ensures BuildDiceRollMessage(s, chatId) == DiceBase + Bisher + Join(RollEntries(a) + RollEntries([x]) + RollEntries(b), ", ")
    ensures BuildDiceRollMessage(after, chatId) == DiceBase + Bisher + Join(RollEntries(a) + RollEntries([y]) + RollEntries(b), ", ")
  {
    SwapKeepsReadable(a, x, y, b);
    assert PositiveAttendees(after, chatId).Some? && |PositiveAttendees(after, chatId).value| > 0;
    RollEntriesSplit(a, x, b);
    RollEntriesSplit(a, y, b);
    DiceMessageEntries(s, chatId);
    DiceMessageEntries(after, chatId);
  }

  /** The entries of `a + [x] + b` are those of its three parts. */
  lemma RollEntriesSplit(a: seq<Record>, x: Record, b: seq<Record>)
    ensures RollEntries(a + [x] + b) == RollEntries(a) + RollEntries([x]) + RollEntries(b)
  {
    RollEntriesAppend(a + [x], b);
    RollEntriesAppend(a, [x]);
  }

  /** Records with one vote swapped for another of the same kind: still no
      stubs, and as many positive ones. */
  lemma SwapKeepsReadable(a: seq<Record>, x: Record, y: Record, b: seq<Record>)
    requires NoStubs(a + [x] + b)
    requires y.Vote? && IsPositive(y) == IsPositive(x)
    ensures NoStubs(a + [y] + b)
    ensures |Filter(IsPositive, a + [y] + b)| == |Filter(IsPositive, a + [x] + b)|
  {
    forall i | 0 <= i < |a + [y] + b| ensures (a + [y] + b)[i].Vote? {
      if i != |a| { assert (a + [y] + b)[i] == (a + [x] + b)[i]; }
    }
    SwapCount(a, x, y, b);
  }

  /** Swapping one record for another of the same kind keeps the number of
      positive ones. */
  lemma SwapCount(a: seq<Record>, x: Record, y: Record, b: seq<Record>)
    requires IsPositive(y) == IsPositive(x)
    ensures |Filter(IsPositive, a + [y] + b)| == |Filter(IsPositive, a + [x] + b)|
  {
    FilterAppend(IsPositive, a + [x], b);
    FilterAppend(IsPositive, a, [x]);
    FilterAppend(IsPositive, a + [y], b);
    FilterAppend(IsPositive, a, [y]);
    assert |Filter(IsPositive, [x])| == |Filter(IsPositive, [y])| by {
      assert [x][1..] == [] && [y][1..] == [];
    }
  }

  // ---------------------------------------------------------------------
  // The attendees slot as the constructor leaves it
  // ---------------------------------------------------------------------

  /** What `self.state["attendees"]` holds. `Bot.__init__` puts the list
      `[]` there and no code replaces it; everything above reads it as the
      dict it is evidently meant to be, whose `"current"` entry maps each
      chat to its records (a missing `"current"` being an empty one). */
  datatype AttendeesSlot = ListSlot | DictSlot(current: map<ChatId, Records>)

  /** `"attendees": []` in `Bot.__init__`. */
  const InitialSlot: AttendeesSlot := ListSlot

  /** Subscripting a list with a string. */
  datatype TypeError = TypeError

  /** Every chat's records in a dict slot have unique keys. */
  ghost predicate SlotValid(slot: AttendeesSlot)
  {
    slot.DictSlot? ==> StateValid(BotState(map[], {}, None, slot.current))
  }

  /** `handle_attend_callback` on the slot. On the list,
      `self.state["attendees"]["current"]` raises `TypeError`, which the
      `except KeyError` around it does not catch and the outer handler
      swallows: no vote is written, nothing is saved, edited or answered.
      On a dict it is `HandleAttendCallback`. */
  function AttendCallbackOnSlot(s: BotState, slot: AttendeesSlot, chatId: ChatId, userId: UserId,
                                firstName: string, data: string): (r: (AttendeesSlot, AttendOutcome))
    requires SlotValid(slot)
    ensures SlotValid(r.0)
    ensures slot.ListSlot? ==> r.0 == ListSlot && r.1 == AttendOutcome(s, false, false)
    ensures slot.DictSlot? ==>
              && r.1 == HandleAttendCallback(s.(current := slot.current), chatId, userId, firstName, data)
              && r.0 == DictSlot(r.1.state.current)
  {
    match slot
    case ListSlot => (ListSlot, AttendOutcome(s, false, false))
    case DictSlot(current) =>
      var out := HandleAttendCallback(s.(current := current), chatId, userId, firstName, data);
      (DictSlot(out.state.current), out)
  }

  /** `handle_dice_callback` on the slot. On the list, reading the
      positive attendees raises `TypeError`, which the outer handler
      swallows, so nothing changes. On a dict it is `HandleDiceCallback`. */
  function DiceCallbackOnSlot(s: BotState, slot: AttendeesSlot, chatId: ChatId, userId: UserId,
                              firstName: string, data: string): (r: AttendeesSlot)
    requires SlotValid(slot)
    ensures SlotValid(r)
    ensures slot.ListSlot? ==> r == ListSlot
    ensures slot.DictSlot? ==>
              r == DictSlot(HandleDiceCallback(s.(current := slot.current), chatId, userId, firstName, data).current)
  {
    match slot
    case ListSlot => ListSlot
    case DictSlot(current) => DictSlot(HandleDiceCallback(s.(current := current), chatId, userId, firstName, data).current)
  }

  /** `build_message` on the slot: the `TypeError` of the list escapes its
      `except KeyError`, so the call raises instead of returning the base
      text. */
  function BuildMessageOnSlot(s: BotState, slot: AttendeesSlot, chatId: ChatId): (r: Result<string, TypeError>)
    ensures r.Failure? <==> slot.ListSlot?
    ensures slot.DictSlot? ==> r == Success(BuildMessage(s.(current := slot.current), chatId))
  {
    match slot
    case ListSlot => Failure(TypeError)
    case DictSlot(current) => Success(BuildMessage(s.(current := current), chatId))
  }

  /** `build_dice_roll_message` on the slot, raising on the list as
      `build_message` does. */
  function BuildDiceRollMessageOnSlot(s: BotState, slot: AttendeesSlot, chatId: ChatId): (r: Result<string, TypeError>)
    ensures r.Failure? <==> slot.ListSlot?
    ensures slot.DictSlot? ==> r == Success(BuildDiceRollMessage(s.(current := slot.current), chatId))
  {
    match slot
    case ListSlot => Failure(TypeError)
    case DictSlot(current) => Success(BuildDiceRollMessage(s.(current := current), chatId))
  }

  /** One callback the bot can receive. */
  datatype Callback =
    | AttendPress(chatId: ChatId, userId: UserId, firstName: string, data: string)
    | DicePress(chatId: ChatId, userId: UserId, firstName: string, data: string)

  /** The slot after a run of callbacks, and how many were answered. */
  function RunCallbacks(s: BotState, slot: AttendeesSlot, cbs: seq<Callback>): (r: (AttendeesSlot, nat))
    requires SlotValid(slot)
    ensures SlotValid(r.0)
    ensures r.1 <= |cbs|
    decreases |cbs|
  {
    if |cbs| == 0 then (slot, 0)
    else
      match cbs[0]
      case AttendPress(c, u, n, d) =>
        var step := AttendCallbackOnSlot(s, slot, c, u, n, d);
        var rest := RunCallbacks(s, step.0, cbs[1..]);
        (rest.0, rest.1 + (if step.1.answered then 1 else 0))
      case DicePress(c, u, n, d) =>
        RunCallbacks(s, DiceCallbackOnSlot(s, slot, c, u, n, d), cbs[1..])
  }

  /** As constructed, the bot never records anything: whatever callbacks
      arrive, the slot stays the list, no attend callback is answered, and
      both message builders raise. */
  lemma {:induction false} ListSlotStays(s: BotState, cbs: seq<Callback>)
    ensures RunCallbacks(s, InitialSlot, cbs) == (ListSlot, 0)
    decreases |cbs|
  {
    if |cbs| > 0 {
      ListSlotStays(s, cbs[1..]);
    }
  }

  /** The slot as written against the slot as intended: from the
      constructor's list a positive vote leaves no trace and the attend
      message cannot be built; read as an empty dict, the same vote is
      recorded and named in the attend message. */
  lemma FreshBotRecordsNothing(s: BotState, chatId: ChatId, userId: UserId, firstName: string)
    ensures var asWritten := AttendCallbackOnSlot(s, InitialSlot, chatId, userId, firstName, "attend_True").0;
            && asWritten == ListSlot
            && BuildMessageOnSlot(s, asWritten, chatId).Failure?
            && BuildDiceRollMessageOnSlot(s, asWritten, chatId).Failure?
    ensures var intended := AttendCallbackOnSlot(s, DictSlot(map[]), chatId, userId, firstName, "attend_True").0;
            && intended.DictSlot?
            && BuildMessageOnSlot(s, intended, chatId).Success?
            && BuildMessageOnSlot(s, intended, chatId).value != AttendBase
  {
    var empty := s.(current := map[]);
    assert RecordsOf(empty, chatId) == Empty();
    AttendThenMessage(empty, chatId, userId, firstName);
  }

  // ---------------------------------------------------------------------
  // Resetting
  // ---------------------------------------------------------------------

  /** `reset_attendees`: every registered chat closes its current event. */
  function ResetAttendees(s: BotState): (r: BotState)
    ensures r.chats.Keys == s.chats.Keys
    ensures forall c :: c in r.chats ==> r.chats[c].currentEvent.None?
    ensures forall c :: c in s.chats && s.chats[c].currentEvent.Some? ==>
              r.chats[c].events == s.chats[c].events + [s.chats[c].currentEvent.value]
    ensures forall c :: c in s.chats && s.chats[c].currentEvent.None? ==> r.chats[c] == s.chats[c]
    ensures r == s.(chats := r.chats)
  {
    s.(chats := map c | c in s.chats :: CloseCurrentEvent(s.chats[c]))
  }

  /** Resetting twice is resetting once. */
  lemma ResetAttendeesIdempotent(s: BotState)
    ensures ResetAttendees(ResetAttendees(s)) == ResetAttendees(s)
  {
  }
}
