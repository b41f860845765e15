/** One Telegram chat the bot serves (`dicers_bot/chat.py`): its users, the
    open event and the history of closed ones, the keyboard on screen and the
    pinned message. Telegram calls are replaced by the success value they
    return, passed in as a parameter. The `group` decorator of
    `dicers_bot/decorators.py` is modelled here, next to the chat types it
    dispatches on. */
module Chats {
  import opened Wrappers
  import opened Strings
  import opened Seqs
  import opened Sorting
  import opened Ordinals
  import opened Users
  import opened Events

  type ChatId = int

  /** `Keyboard`: which inline keyboard the bot showed last. */
  datatype Keyboard = NoKeyboard | AttendKeyboard | DiceKeyboard

  /** `ChatType`, plus `Channel`: Telegram's chat type strings are stored in
      the same attribute, and "channel" is one of them. */
  datatype ChatType = Undefined | Private | Group | Supergroup | Channel

  /** The string each chat type stands for (`ChatType.value` and Telegram's
      `Chat.PRIVATE`, `Chat.GROUP`, ...). */
  function TypeName(t: ChatType): string
  {
    match t
    case Undefined => ""
    case Private => "private"
    case Group => "group"
    case Supergroup => "supergroup"
    case Channel => "channel"
  }

  lemma TypeNamesDistinct(a: ChatType, b: ChatType)
    ensures TypeName(a) == TypeName(b) <==> a == b
  {
  }

  datatype Chat = Chat(
    id: ChatId,
    title: Option<string>,
    chatType: ChatType,
    users: map<UserId, User>,
    currentEvent: Option<Event>,
    events: seq<Event>,
    pinnedMessageId: Option<int>,
    keyboard: Keyboard,
    spamDetection: bool)

  /** Every user is stored under its own id. */
  ghost predicate UsersKeyed(c: Chat)
  {
    forall k :: k in c.users ==> c.users[k].id == k
  }

  /** `Chat(id, bot)` on day `today`: the constructor's `start_event` already
      opens an event; there are no users, no history, no pin and no
      keyboard, and spam detection is on. */
  function NewChat(id: ChatId, today: Ordinal): (c: Chat)
    ensures c.id == id && c.title == None && c.chatType == Undefined
    ensures c.currentEvent == Some(NewEvent(today)) && c.events == []
    ensures c.users == map[] && c.pinnedMessageId == None
    ensures c.keyboard == NoKeyboard && c.spamDetection
  {
    Chat(id, None, Undefined, map[], Some(NewEvent(today)), [], None, NoKeyboard, true)
  }

  // ---------------------------------------------------------------------
  // The group decorator
  // ---------------------------------------------------------------------

  /** What the `group` decorator finds in its target's `type` attribute. */
  datatype TypeAttr = Missing | OfStr(s: string) | OfChatType(t: ChatType) | OfOther

  /** What a `group`-decorated call does: raise `TypeError`, return `False`
      without running the body (private chats), or run the body. */
  datatype Gated<T> = GateTypeError | SkippedPrivate | Ran(value: T)

  /** `type == ChatType.PRIVATE`: `ChatType.__eq__` compares the enum's value
      with a string, and two enum members by value. */
  predicate IsPrivate(attr: TypeAttr)
  {
    match attr
    case OfStr(s) => s == TypeName(Private)
    case OfChatType(t) => TypeName(t) == TypeName(Private)
    case _ => false
  }

  /** `group(function)(target)`, `body` standing for what the wrapped function
      would return. */
  function GroupGate<T>(attr: TypeAttr, body: T): (r: Gated<T>)
    ensures r.GateTypeError? <==> attr.Missing? || attr.OfOther?
    ensures r.SkippedPrivate? <==> IsPrivate(attr)
    ensures r.Ran? ==> r.value == body
  {
    match attr
    case Missing => GateTypeError
    case OfOther => GateTypeError
    case _ => if IsPrivate(attr) then SkippedPrivate else Ran(body)
  }

  /** A chat's `type` is always a `ChatType` or a Telegram type string. */
  function ChatAttr(c: Chat): TypeAttr
  {
    OfChatType(c.chatType)
  }

  /** On a chat the gate never raises, and it skips exactly the private
      chats, whether the type is held as the enum or as its string. */
  lemma ChatGate<T>(c: Chat, body: T)
    ensures !GroupGate(ChatAttr(c), body).GateTypeError?
    ensures GroupGate(ChatAttr(c), body).SkippedPrivate? <==> c.chatType == Private
    ensures GroupGate(OfStr(TypeName(c.chatType)), body) == GroupGate(ChatAttr(c), body)
  {
    TypeNamesDistinct(c.chatType, Private);
  }

  // ---------------------------------------------------------------------
  // Users
  // ---------------------------------------------------------------------

  /** `get_user_by_id`: the member with that id, if any. */
  function GetUserById(c: Chat, id: UserId): (r: Option<User>)
    requires UsersKeyed(c)
    ensures r.Some? <==> id in c.users
    ensures r.Some? ==> r.value.id == id && r.value in c.users.Values
  {
    if id in c.users then Some(c.users[id]) else None
  }

  /** `add_user`: a member with the same id is kept as it is. */
  function AddUser(c: Chat, u: User): (r: Chat)
    ensures r.users.Keys == c.users.Keys + {u.id}
    ensures forall k :: k in c.users ==> r.users[k] == c.users[k]
    ensures r == c.(users := r.users)
  {
    c.(users := Insert(c.users, u))
  }

  /** After `add_user(u)`, looking up `u.id` finds a user, `u` itself unless
      a member with that id was there already. */
  lemma AddUserThenGet(c: Chat, u: User)
    requires UsersKeyed(c)
    ensures UsersKeyed(AddUser(c, u))
    ensures GetUserById(AddUser(c, u), u.id) == Some(if u.id in c.users then c.users[u.id] else u)
    ensures forall k :: k != u.id ==> GetUserById(AddUser(c, u), k) == GetUserById(c, k)
  {
  }

  /** `add_message` looked up a user that is not in the chat (`None.messages`). */
  datatype AttributeError = AttributeError

  /** `add_message`: records the message with the sender, who must be a member. */
  function AddMessage(c: Chat, sender: UserId, m: Message): (r: Result<Chat, AttributeError>)
    ensures r.Failure? <==> sender !in c.users
    ensures r.Success? ==> && r.value.users.Keys == c.users.Keys
                           && r.value.users[sender].messages == c.users[sender].messages + {m}
                           && r.value.users[sender] == c.users[sender].(messages := r.value.users[sender].messages)
                           && r.value == c.(users := r.value.users)
                           && (forall k :: k in c.users && k != sender ==> r.value.users[k] == c.users[k])
  {
    if sender !in c.users then Failure(AttributeError)
    else
      var u := c.users[sender];
      Success(c.(users := c.users[sender := u.(messages := u.messages + {m})]))
  }

  /** `administrators`: the chat's members whose ids Telegram lists as
      administrators; `None` for a failed request (no administrators). */
  function Administrators(c: Chat, fetched: Option<set<UserId>>): (r: Gated<set<UserId>>)
    ensures r.SkippedPrivate? <==> c.chatType == Private
    ensures r.Ran? ==> r.value <= c.users.Keys
    ensures r.Ran? && fetched.Some? ==> forall k :: k in r.value <==> k in c.users && k in fetched.value
    ensures r.Ran? && fetched.None? ==> r.value == {}
  {
    ChatGate(c, 0);
    var admins := match fetched
      case None => {}
      case Some(ids) => set k | k in c.users && k in ids;
    match GroupGate(ChatAttr(c), admins)
    case Ran(s) => Ran(s)
    case _ => SkippedPrivate
  }

  // ---------------------------------------------------------------------
  // Event lifecycle
  // ---------------------------------------------------------------------

  /** `close_current_event`: an open event moves to the end of the history. */
  function CloseCurrentEvent(c: Chat): (r: Chat)
    ensures r.currentEvent == None
    ensures c.currentEvent.Some? ==> r.events == c.events + [c.currentEvent.value]
    ensures c.currentEvent.None? ==> r.events == c.events
    ensures |c.events| <= |r.events| <= |c.events| + 1
    ensures r == c.(currentEvent := None, events := r.events)
  {
    match c.currentEvent
    case Some(e) => c.(events := c.events + [e], currentEvent := None)
    case None => c
  }

  /** `start_event(event)`: installs the given event, or a fresh one for
      `None` (an `Event` object is always true). */
  function StartEvent(c: Chat, event: Option<Event>, today: Ordinal): (r: Chat)
    ensures event.Some? ==> r.currentEvent == event
    ensures event.None? ==> r.currentEvent == Some(NewEvent(today))
    ensures r == c.(currentEvent := r.currentEvent)
  {
    c.(currentEvent := Some(event.GetOr(NewEvent(today))))
  }

  /** Re-starting with the open event keeps it: only a chat without one gets
      a fresh event. */
  lemma StartOpenEventKeepsIt(c: Chat, today: Ordinal)
    ensures c.currentEvent.Some? ==> StartEvent(c, c.currentEvent, today) == c
    ensures StartEvent(c, c.currentEvent, today).currentEvent.Some?
  {
  }

  /** Closing then starting leaves a fresh event open and the closed one last
      in the history. */
  lemma CloseThenStart(c: Chat, today: Ordinal)
    requires c.currentEvent.Some?
    ensures var r := StartEvent(CloseCurrentEvent(c), None, today);
            && r.currentEvent == Some(NewEvent(today))
            && r.events[|r.events| - 1] == c.currentEvent.value
            && r.events[..|c.events|] == c.events
  {
  }

  // ---------------------------------------------------------------------
  // Pinned message
  // ---------------------------------------------------------------------

  /** A chat after a `group`-decorated call, and what the call returned. */
  datatype Outcome = Outcome(chat: Chat, ok: bool)

  /** `unpin_message`, `unpinned` being what Telegram's unpin returned
      (`False` on an error). */
  function UnpinMessage(c: Chat, unpinned: bool): (r: Outcome)
    ensures r.ok <==> c.chatType != Private && unpinned
    ensures r.ok ==> r.chat == c.(pinnedMessageId := None)
    ensures !r.ok ==> r.chat == c
  {
    ChatGate(c, Outcome(c, false));
    var body := if unpinned then Outcome(c.(pinnedMessageId := None), true) else Outcome(c, false);
    match GroupGate(ChatAttr(c), body)
    case Ran(o) => o
    case _ => Outcome(c, false)
  }

  /** `pin_message(message_id, unpin=unpin)`: optionally unpins first, then
      records the message as pinned if Telegram's pin succeeded. */
  function PinMessage(c: Chat, messageId: int, unpin: bool, unpinned: bool, pinned: bool): (r: Outcome)
    ensures r.ok <==> c.chatType != Private && pinned
    ensures r.ok ==> r.chat.pinnedMessageId == Some(messageId)
    ensures c.chatType == Private ==> r.chat == c
    ensures !unpin && !r.ok ==> r.chat == c
    ensures r.chat == c.(pinnedMessageId := r.chat.pinnedMessageId)
  {
    ChatGate(c, Outcome(c, false));
    var afterUnpin := if unpin then UnpinMessage(c, unpinned).chat else c;
    var body := if pinned then Outcome(afterUnpin.(pinnedMessageId := Some(messageId)), true)
                else Outcome(afterUnpin, false);
    match GroupGate(ChatAttr(c), body)
    case Ran(o) => o
    case _ => Outcome(c, false)
  }

  /** The pinned id changes only to the message just pinned, or to `None`
      after a successful unpin. */
  lemma PinnedIdChanges(c: Chat, messageId: int, unpin: bool, unpinned: bool, pinned: bool)
    ensures var p := PinMessage(c, messageId, unpin, unpinned, pinned).chat.pinnedMessageId;
            p == c.pinnedMessageId || p == Some(messageId)
            || (p == None && unpin && UnpinMessage(c, unpinned).ok)
    ensures var p := UnpinMessage(c, unpinned).chat.pinnedMessageId;
            p == c.pinnedMessageId || p == None
  {
  }

  // ---------------------------------------------------------------------
  // The attend message
  // ---------------------------------------------------------------------

  /** `m[k]`, and a placeholder for an id that is not in `m`; the model looks
      up only ids it knows are present. */
  function Get(m: map<UserId, User>, k: UserId): User
  {
    if k in m then m[k] else NewUser("", k)
  }

  function Getter(m: map<UserId, User>): UserId -> User
  {
    k => Get(m, k)
  }

  /** The members of `m` in the order `order` lists their ids. */
  function Members(m: map<UserId, User>, order: seq<UserId>): (r: seq<User>)
    requires forall i :: 0 <= i < |order| ==> order[i] in m
    ensures |r| == |order|
    ensures forall i :: 0 <= i < |order| ==> r[i] == m[order[i]]
  {
    Map(Getter(m), order)
  }

  function NameOf(u: User): string { u.name }

  /** The names of the members listed by `order`. */
  function NamesOf(m: map<UserId, User>, order: seq<UserId>): (r: seq<string>)
    requires forall i :: 0 <= i < |order| ==> order[i] in m
    ensures |r| == |order|
    ensures forall i :: 0 <= i < |order| ==> r[i] == m[order[i]].name
  {
    Map(NameOf, Members(m, order))
  }

  /** Two listings of the same members give the same names, up to order. */
  lemma NamesPermute(m: map<UserId, User>, a: seq<UserId>, b: seq<UserId>)
    requires Enumerates(a, m.Keys) && Enumerates(b, m.Keys)
    ensures forall i :: 0 <= i < |a| ==> a[i] in m
    ensures forall i :: 0 <= i < |b| ==> b[i] in m
    ensures multiset(NamesOf(m, a)) == multiset(NamesOf(m, b))
  {
    EnumeratedKeys(a, m.Keys);
    EnumeratedKeys(b, m.Keys);
    EnumerationsPermute(a, b, m.Keys);
    MapPermutation(Getter(m), a, b);
    MapPermutation(NameOf, Members(m, a), Members(m, b));
  }

  /** The two names whose joint attendance the message celebrates. */
  const Kurzen: seq<string> := ["nadine", "tashina"]

  predicate IsKurz(name: string) { name in Kurzen }

  predicate NotKurz(name: string) { name !in Kurzen }

  const AttendHeader: string := "Wer ist dabei?" + "\nBisher: "
  const NobodyText: string := "Niemand :("
  /** The program's own literal: the UTF-8 bytes of a party emoji decoded in
      another code page, which is what the chat receives. */
  const EverybodyText: string := "Alle \U{11F}\U{178}\U{2030}"
  const KurzenTag: string := " #dieKurzenSindDabei"

  /** The order Python iterates the three sets the attend message lists. */
  datatype AttendListing = AttendListing(attendees: seq<UserId>, absentees: seq<UserId>, notVoted: seq<UserId>)

  /** Members who neither attend nor declined (`users.difference(...)`). */
  function NotVoted(e: Event, users: map<UserId, User>): set<UserId>
  {
    users.Keys - (e.attendees.Keys + e.absentees.Keys)
  }

  ghost predicate ListsAttend(l: AttendListing, e: Event, users: map<UserId, User>)
  {
    && Enumerates(l.attendees, e.attendees.Keys)
    && Enumerates(l.absentees, e.absentees.Keys)
    && Enumerates(l.notVoted, NotVoted(e, users))
  }

  /** Exactly two attendees are called "nadine" or "tashina". */
  predicate KurzenAttend(names: seq<string>)
  {
    |Filter(IsKurz, names)| == 2
  }

  /** The attendee names the message shows: all of them, or all but the two
      when both attend. */
  function ShownNames(names: seq<string>): (r: seq<string>)
    ensures KurzenAttend(names) ==> forall x :: multiset(r)[x] == if x in Kurzen then 0 else multiset(names)[x]
    ensures KurzenAttend(names) ==> forall i :: 0 <= i < |r| ==> r[i] !in Kurzen
    ensures !KurzenAttend(names) ==> r == names
  {
    if KurzenAttend(names) then Filter(NotKurz, names) else names
  }

  /** `user_string`: the shown names sorted and joined, tagged when both
      "nadine" and "tashina" attend. */
  function UserString(names: seq<string>): (s: string)
    ensures KurzenAttend(names) ==> s != "" && EndsWith(s, KurzenTag)
  {
    Join(SortStrings(ShownNames(names)), ", ") + (if KurzenAttend(names) then KurzenTag else "")
  }

  /** The user string is the shown names in ascending order, joined by
      `", "`, and tagged when "nadine" and "tashina" both attend: any sorted
      arrangement of the shown names gives it. */
  lemma UserStringSorted(names: seq<string>, ss: seq<string>)
    requires SortedBy(ss, Identity) && multiset(ss) == multiset(ShownNames(names))
    ensures UserString(names) == Join(ss, ", ") + (if KurzenAttend(names) then KurzenTag else "")
  {
    SortedUnique(SortStrings(ShownNames(names)), ss);
  }

  /** The part after "Bisher: ". */
  function AttendSummary(userString: string, attendeeCount: nat, userCount: nat): (s: string)
    ensures userString == "" ==> s == NobodyText
    ensures userString != "" && attendeeCount == userCount ==> s == EverybodyText
    ensures userString != "" && attendeeCount != userCount ==> s == userString
  {
    if userString != "" then (if attendeeCount == userCount then EverybodyText else userString)
    else NobodyText
  }

  /** A labelled line listing `names`, or nothing when there are none. */
  function NamesLine(heading: string, names: seq<string>): (s: string)
    requires |heading| > 0
    ensures |names| == 0 <==> s == ""
    ensures |names| > 0 ==> StartsWith(s, heading) && s[|heading|..] == Join(names, ", ")
  {
    if |names| > 0 then heading + Join(names, ", ") else ""
  }

  /** The ids among `keys` whose member in `m` is called `x`. */
  ghost function Bearers(m: map<UserId, User>, keys: set<UserId>, x: string): set<UserId>
  {
    set k | k in keys && k in m && m[k].name == x
  }

  /** `names` holds the name of every member of `m` whose id is in `keys`,
      once per member, and nothing else. */
  ghost predicate NamesEach(names: seq<string>, m: map<UserId, User>, keys: set<UserId>)
  {
    forall x :: multiset(names)[x] == |Bearers(m, keys, x)|
  }

  /** Listing the members of `keys` in any order yields each one's name. */
  lemma {:induction false} NamesCounted(m: map<UserId, User>, order: seq<UserId>, keys: set<UserId>)
    requires Enumerates(order, keys) && keys <= m.Keys
    ensures forall i :: 0 <= i < |order| ==> order[i] in m
    ensures NamesEach(NamesOf(m, order), m, keys)
    decreases |order|
  {
    EnumeratedKeys(order, keys);
    if |order| == 0 {
      assert keys == {} by { assert forall k :: k in keys ==> k in order; }
      forall x ensures multiset(NamesOf(m, order))[x] == |Bearers(m, keys, x)| {
        assert Bearers(m, keys, x) == {};
      }
    } else {
      var k0, rest := order[0], order[1..];
      EnumeratesTail(order, keys);
      NamesCounted(m, rest, keys - {k0});
      NamesCons(m, order);
      forall x ensures multiset(NamesOf(m, order))[x] == |Bearers(m, keys, x)| {
        BearersSplit(m, keys, k0, x);
      }
    }
  }

  /** The names of a listing are its first member's name and the rest's. */
  lemma NamesCons(m: map<UserId, User>, order: seq<UserId>)
    requires |order| > 0 && forall i :: 0 <= i < |order| ==> order[i] in m
    ensures multiset(NamesOf(m, order)) == multiset{m[order[0]].name} + multiset(NamesOf(m, order[1..]))
  {
    assert NamesOf(m, order) == [m[order[0]].name] + NamesOf(m, order[1..]);
  }

  /** Taking one member out of `keys` takes one bearer out when it is
      called `x`. */
  lemma BearersSplit(m: map<UserId, User>, keys: set<UserId>, k0: UserId, x: string)
    requires k0 in keys && k0 in m
    ensures |Bearers(m, keys, x)| == |Bearers(m, keys - {k0}, x)| + (if m[k0].name == x then 1 else 0)
  {
    if m[k0].name == x {
      assert Bearers(m, keys, x) == Bearers(m, keys - {k0}, x) + {k0};
    } else {
      assert Bearers(m, keys, x) == Bearers(m, keys - {k0}, x);
    }
  }

  const AbsenteeLabel: string := "\nNicht dabei: "
  const WarningLabel: string := "\nincoming warnings: "

  /** The summary after "Bisher: ", the attendees listed in `order`. */
  function AttendeesPart(e: Event, users: map<UserId, User>, order: seq<UserId>): (s: string)
    requires Enumerates(order, e.attendees.Keys)
  {
    EnumeratedKeys(order, e.attendees.Keys);
    AttendSummary(UserString(NamesOf(e.attendees, order)), |e.attendees|, |users|)
  }

  /** The line naming the absentees listed in `order`: there exactly when
      someone declined, and then the label followed by every absentee's
      name, joined by `", "`. */
  function AbsenteesPart(e: Event, order: seq<UserId>): (s: string)
    requires Enumerates(order, e.absentees.Keys)
    ensures s == "" <==> |e.absentees| == 0
    ensures |e.absentees| > 0 ==> StartsWith(s, AbsenteeLabel)
    ensures |e.absentees| > 0 ==> exists ns :: s[|AbsenteeLabel|..] == Join(ns, ", ")
                                               && NamesEach(ns, e.absentees, e.absentees.Keys)
  {
    EnumerationSize(order, e.absentees.Keys);
    NamesCounted(e.absentees, order, e.absentees.Keys);
    NamesLine(AbsenteeLabel, NamesOf(e.absentees, order))
  }

  /** The line naming the members listed in `order` who have not answered:
      there exactly when some member has not, and then the label followed by
      the name of every such member, joined by `", "`. */
  function WarningsPart(e: Event, users: map<UserId, User>, order: seq<UserId>): (s: string)
    requires Enumerates(order, NotVoted(e, users))
    ensures s == "" <==> NotVoted(e, users) == {}
    ensures NotVoted(e, users) != {} ==> StartsWith(s, WarningLabel)
    ensures NotVoted(e, users) != {} ==> exists ns :: s[|WarningLabel|..] == Join(ns, ", ")
                                                      && NamesEach(ns, users, NotVoted(e, users))
  {
    EnumerationSize(order, NotVoted(e, users));
    NamesCounted(users, order, NotVoted(e, users));
    NamesLine(WarningLabel, NamesOf(users, order))
  }

  /** `_build_attend_message` on the open event `e` and the chat's users:
      the header and the summary, then the absentee line and the warning
      line, each present exactly when its set is non-empty. */
  function AttendMessage(e: Event, users: map<UserId, User>, l: AttendListing): (s: string)
    requires ListsAttend(l, e, users)
    ensures StartsWith(s, AttendHeader)
    ensures StartsWith(s, AttendHeader + AttendeesPart(e, users, l.attendees))
    ensures EndsWith(s, AbsenteesPart(e, l.absentees) + WarningsPart(e, users, l.notVoted))
    ensures |s| == |AttendHeader| + |AttendeesPart(e, users, l.attendees)|
                   + |AbsenteesPart(e, l.absentees)| + |WarningsPart(e, users, l.notVoted)|
  {
    var summary := AttendeesPart(e, users, l.attendees);
    var lines := AbsenteesPart(e, l.absentees) + WarningsPart(e, users, l.notVoted);
    ConcatEnds(AttendHeader, summary, lines);
    StartsWithConcat(AttendHeader, summary + lines);
    AttendHeader + (summary + lines)
  }

  /** A three-part text opens with its first two parts and closes with its
      last. */
  lemma ConcatEnds(a: string, b: string, c: string)
    ensures StartsWith(a + (b + c), a + b) && EndsWith(a + (b + c), c)
  {
    var m := a + (b + c);
    assert m[..|a + b|] == a + b;
    assert m[|m| - |c|..] == c;
  }

  lemma UserStringEmpty()
    ensures UserString([]) == ""
  {
    assert |SortStrings([])| == |multiset(SortStrings([]))| == 0;
    assert |Filter(IsKurz, [])| == 0;
  }

  /** Nobody attends: the summary reads "Niemand :(". */
  lemma NobodyAttends(e: Event, users: map<UserId, User>, l: AttendListing)
    requires ListsAttend(l, e, users) && |e.attendees| == 0
    ensures l.attendees == []
    ensures AttendeesPart(e, users, l.attendees) == NobodyText
    ensures StartsWith(AttendMessage(e, users, l), AttendHeader + NobodyText)
  {
    EnumeratedKeys(l.attendees, e.attendees.Keys);
    EnumerationSize(l.attendees, e.attendees.Keys);
    assert NamesOf(e.attendees, l.attendees) == [];
    UserStringEmpty();
  }

  /** `sorted` makes the attendee part independent of the order the set is
      iterated in. */
  lemma {:induction false} UserStringOrderFree(names1: seq<string>, names2: seq<string>)
    requires multiset(names1) == multiset(names2)
    ensures UserString(names1) == UserString(names2)
  {
    FilterPermutation(IsKurz, names1, names2);
    assert |Filter(IsKurz, names1)| == |multiset(Filter(IsKurz, names1))|
        == |multiset(Filter(IsKurz, names2))| == |Filter(IsKurz, names2)|;
    if KurzenAttend(names1) {
      FilterPermutation(NotKurz, names1, names2);
    }
    SortStringsPermutation(ShownNames(names1), ShownNames(names2));
  }

  /** Listing the attendees in another order gives the same message. */
  lemma AttendMessageOrderFree(e: Event, users: map<UserId, User>, l1: AttendListing, l2: AttendListing)
    requires ListsAttend(l1, e, users)
    requires ListsAttend(l2, e, users)
    requires l1.absentees == l2.absentees && l1.notVoted == l2.notVoted
    ensures AttendMessage(e, users, l1) == AttendMessage(e, users, l2)
  {
    NamesPermute(e.attendees, l1.attendees, l2.attendees);
    UserStringOrderFree(NamesOf(e.attendees, l1.attendees), NamesOf(e.attendees, l2.attendees));
  }

  // ---------------------------------------------------------------------
  // The dice message
  // ---------------------------------------------------------------------

  /** These literals, like `EverybodyText`, are the program's mis-decoded
      text as it is sent: "gewürfelt", a broken heart, "Σ" and "€" each
      appear as the characters their UTF-8 bytes give in another code
      page. */
  const DiceHeader: string := "Was hast du gew\U{C3}\U{BC}rfelt?\n"
  const BrokenHeart: string := "\U{11F}\U{178}\U{2019}\U{201D}"
  const Euro: string := "\U{E2}\U{201A}\U{AC}"

  predicate HasRolled(u: User) { u.roll != NoRoll }

  function LowerName(u: User): string { Lower(u.name) }

  /** What a user pays: the roll, one more for a jumbo drink. */
  function Cost(u: User): int { if u.jumbo then u.roll + 1 else u.roll + 0 }

  /** `"{} ({}{}{})".format(name, roll, "+1" if jumbo else "", "" if alcoholic else " " + heart)`. */
  function DiceEntry(u: User): string
  {
    u.name + " (" + IntToString(u.roll) + (if u.jumbo then "+1" else "")
      + (if u.alcoholic then "" else " " + BrokenHeart) + ")"
  }

  /** The closing line: the total and the tip of one euro per listed roll. */
  function TotalLine(total: int, tip: nat): string
  {
    "\n\U{CE}\U{A3}: " + IntToString(total) + Euro + " + " + IntToString(tip) + Euro + " Trinkgeld"
  }

  /** The attendees who have rolled, in set order. */
  function Rolled(e: Event, order: seq<UserId>): (r: seq<User>)
    requires Enumerates(order, e.attendees.Keys)
    ensures forall i :: 0 <= i < |r| ==> r[i].roll != NoRoll && r[i] in e.attendees.Values
  {
    EnumeratedKeys(order, e.attendees.Keys);
    var rs := Filter(HasRolled, Members(e.attendees, order));
    forall i | 0 <= i < |rs| ensures rs[i] in e.attendees.Values {
      var j :| 0 <= j < |order| && Members(e.attendees, order)[j] == rs[i];
    }
    rs
  }

  /** The closing line for a list of rolled attendees. */
  function DiceTail(rolled: seq<User>): string
  {
    TotalLine(Sum(Map(Cost, rolled)), |rolled|)
  }

  /** `_build_dice_message` on the open event `e`: the header, then the
      rolled attendees sorted by lower-cased name with their rolls, then the
      total of their costs and the tip; just the header when nobody has
      rolled. */
  function DiceMessage(e: Event, order: seq<UserId>): (s: string)
    requires Enumerates(order, e.attendees.Keys)
    ensures |Rolled(e, order)| == 0 ==> s == DiceHeader
    ensures |Rolled(e, order)| > 0 ==> StartsWith(s, DiceHeader) && EndsWith(s, DiceTail(Rolled(e, order)))
  {
    var rolled := Rolled(e, order);
    if |rolled| == 0 then DiceHeader
    else
      var listed := SortBy(rolled, LowerName);
      var body := Join(Map(DiceEntry, listed), ", ");
      SortedCosts(rolled);
      assert DiceTail(listed) == DiceTail(rolled);
      Framed(DiceHeader, body, DiceTail(listed));
      DiceHeader + body + DiceTail(listed)
  }

  /** Sorting the rolled attendees keeps their total and their number. */
  lemma SortedCosts(rolled: seq<User>)
    ensures Sum(Map(Cost, SortBy(rolled, LowerName))) == Sum(Map(Cost, rolled))
    ensures |SortBy(rolled, LowerName)| == |rolled|
  {
    MapPermutation(Cost, SortBy(rolled, LowerName), rolled);
    SumPermutation(Map(Cost, SortBy(rolled, LowerName)), Map(Cost, rolled));
  }

  /** The entries of the dice message, in the order it lists them: sorted by
      lower-cased name, and exactly the attendees who rolled. */
  lemma DiceEntriesSorted(e: Event, order: seq<UserId>)
    requires Enumerates(order, e.attendees.Keys)
    ensures var listed := SortBy(Rolled(e, order), LowerName);
            && SortedBy(listed, LowerName)
            && multiset(listed) == multiset(Rolled(e, order))
            && (forall u :: u in listed <==> u in e.attendees.Values && u.roll != NoRoll)
            && (|Rolled(e, order)| > 0 ==>
                  DiceMessage(e, order) == DiceHeader + Join(Map(DiceEntry, listed), ", ") + DiceTail(Rolled(e, order)))
  {
    var rolled := Rolled(e, order);
    var listed := SortBy(rolled, LowerName);
    EnumeratedKeys(order, e.attendees.Keys);
    forall u ensures u in listed <==> u in e.attendees.Values && u.roll != NoRoll {
      assert u in listed <==> u in multiset(listed);
      assert u in rolled <==> u in multiset(rolled);
      if u in e.attendees.Values && u.roll != NoRoll {
        var k :| k in e.attendees && e.attendees[k] == u;
        assert k in order;
        var j :| 0 <= j < |order| && order[j] == k;
        assert Members(e.attendees, order)[j] == u;
        assert u in multiset(Members(e.attendees, order));
      }
    }
    SortedCosts(rolled);
  }

  /** The total and the tip are the same whatever order the attendees are
      iterated in; the tip counts the attendees who rolled. */
  lemma DiceTotalOrderFree(e: Event, o1: seq<UserId>, o2: seq<UserId>)
    requires Enumerates(o1, e.attendees.Keys) && Enumerates(o2, e.attendees.Keys)
    ensures Sum(Map(Cost, Rolled(e, o1))) == Sum(Map(Cost, Rolled(e, o2)))
    ensures |Rolled(e, o1)| == |Rolled(e, o2)|
  {
    EnumeratedKeys(o1, e.attendees.Keys);
    EnumeratedKeys(o2, e.attendees.Keys);
    EnumerationsPermute(o1, o2, e.attendees.Keys);
    MapPermutation(Getter(e.attendees), o1, o2);
    FilterPermutation(HasRolled, Members(e.attendees, o1), Members(e.attendees, o2));
    MapPermutation(Cost, Rolled(e, o1), Rolled(e, o2));
    SumPermutation(Map(Cost, Rolled(e, o1)), Map(Cost, Rolled(e, o2)));
    assert |Rolled(e, o1)| == |multiset(Rolled(e, o1))| == |multiset(Rolled(e, o2))| == |Rolled(e, o2)|;
  }

  // ---------------------------------------------------------------------
  // Showing keyboards
  // ---------------------------------------------------------------------

  const NoEventNotice: string := "There is no event right now, unable to provide a dice."

  /** The chat after a `show_*` call, the text it sent, and the message id it
      returns (`None` when it sent nothing usable). */
  datatype Shown = Shown(chat: Chat, text: string, result: Option<int>)

  /** `show_dice`: without an open event only the notice is sent; otherwise
      the dice message, and on a successful send the keyboard becomes DICE
      and the message is pinned after a forced unpin. `sent` is the id of
      the sent message, `None` if sending returned nothing. */
  function ShowDice(c: Chat, order: seq<UserId>, sent: Option<int>, unpinned: bool, pinned: bool): (r: Shown)
    requires c.currentEvent.Some? ==> Enumerates(order, c.currentEvent.value.attendees.Keys)
    ensures c.currentEvent.None? ==> r == Shown(c, NoEventNotice, None)
    ensures c.currentEvent.Some? ==> && r.text == DiceMessage(c.currentEvent.value, order)
                                     && r.result == sent
    ensures c.currentEvent.Some? && sent.Some? ==> r.chat.keyboard == DiceKeyboard
    ensures (c.currentEvent.Some? && sent.Some? && c.chatType != Private && pinned) ==>
              r.chat.pinnedMessageId == Some(sent.value)
    ensures sent.None? ==> r.chat == c
    ensures r.chat.currentEvent == c.currentEvent && r.chat.users == c.users && r.chat.events == c.events
  {
    match c.currentEvent
    case None => Shown(c, NoEventNotice, None)
    case Some(e) =>
      var text := DiceMessage(e, order);
      match sent
      case None => Shown(c, text, None)
      case Some(id) =>
        var withKeyboard := c.(keyboard := DiceKeyboard);
        Shown(PinMessage(withKeyboard, id, true, unpinned, pinned).chat, text, sent)
  }

  /** `show_attend_keyboard`: opens an event if none is open, sends the
      attend message, and on a successful send sets the ATTEND keyboard and
      pins the message. */
  function ShowAttendKeyboard(c: Chat, today: Ordinal, l: AttendListing, sent: Option<int>, pinned: bool): (r: Shown)
    requires ListsAttend(l, StartEvent(c, c.currentEvent, today).currentEvent.value, c.users)
    ensures r.chat.currentEvent == (if c.currentEvent.Some? then c.currentEvent else Some(NewEvent(today)))
    ensures r.text == AttendMessage(r.chat.currentEvent.value, c.users, l)
    ensures r.result == sent
    ensures sent.Some? ==> r.chat.keyboard == AttendKeyboard
    ensures sent.Some? && c.chatType != Private && pinned ==> r.chat.pinnedMessageId == Some(sent.value)
    ensures sent.None? ==> r.chat == StartEvent(c, c.currentEvent, today)
    ensures r.chat.users == c.users && r.chat.events == c.events
  {
    var started := StartEvent(c, c.currentEvent, today);
    var text := AttendMessage(started.currentEvent.value, c.users, l);
    match sent
    case None => Shown(started, text, None)
    case Some(id) =>
      var withKeyboard := started.(keyboard := AttendKeyboard);
      Shown(PinMessage(withKeyboard, id, false, false, pinned).chat, text, sent)
  }

  // ---------------------------------------------------------------------
  // Reset
  // ---------------------------------------------------------------------

  /** A user as `reset` leaves them: no roll, normal size, not muted. */
  function Cleared(u: User): (r: User)
    ensures r.roll == NoRoll && !r.jumbo && !r.muted
    ensures r.name == u.name && r.id == u.id && r.alcoholic == u.alcoholic
    ensures r.drink == u.drink && r.spamming == u.spamming && r.messages == u.messages
  {
    u.(roll := NoRoll, jumbo := false, muted := false)
  }

  /** `reset`: closes the open event, unpins (`unpinned` being Telegram's
      answer), clears the keyboard and every user's roll, size and mute. */
  function Reset(c: Chat, unpinned: bool): (r: Chat)
    ensures r.currentEvent == None && r.keyboard == NoKeyboard
    ensures r.events == CloseCurrentEvent(c).events
    ensures r.users.Keys == c.users.Keys
    ensures forall k :: k in c.users ==> r.users[k] == Cleared(c.users[k])
    ensures r.pinnedMessageId == (if c.chatType != Private && unpinned then None else c.pinnedMessageId)
    ensures r.id == c.id && r.title == c.title && r.chatType == c.chatType && r.spamDetection == c.spamDetection
  {
    var closed := CloseCurrentEvent(c);
    var unpinnedChat := UnpinMessage(closed, unpinned).chat;
    unpinnedChat.(keyboard := NoKeyboard, users := map k | k in unpinnedChat.users :: Cleared(unpinnedChat.users[k]))
  }

  /** Resetting twice is resetting once, when the second unpin changes nothing. */
  lemma ResetIdempotent(c: Chat, unpinned: bool)
    ensures Reset(Reset(c, unpinned), unpinned) == Reset(c, unpinned)
  {
    var r := Reset(c, unpinned);
    assert Reset(r, unpinned).users == r.users;
  }

  // ---------------------------------------------------------------------
  // Snapshot form
  // ---------------------------------------------------------------------

  /** The chat dictionary. A missing or null `current_event`,
      `pinned_message_id` or `title` is `None`; `spam_detection` is `None`
      only when the key is missing (an explicit null is outside the model);
      a missing list is empty. */
  datatype ChatJson = ChatJson(
    id: ChatId,
    currentEvent: Option<EventJson>,
    pinnedMessageId: Option<int>,
    events: seq<EventJson>,
    users: seq<UserJson>,
    title: Option<string>,
    spamDetection: Option<bool>)

  function SerializeEvents(events: seq<Event>, ls: seq<Listing>): (r: seq<EventJson>)
    requires |ls| == |events| && forall i :: 0 <= i < |events| ==> Lists(ls[i], events[i])
    ensures |r| == |events|
  {
    if |events| == 0 then []
    else
      var evs, lss := events[1..], ls[1..];
      assert forall i :: 0 <= i < |evs| ==> evs[i] == events[i + 1] && lss[i] == ls[i + 1];
      [SerializeEvent(events[0], ls[0])] + SerializeEvents(evs, lss)
  }

  /** The order Python iterates each set of a chat in. */
  datatype ChatListing = ChatListing(users: seq<UserId>, current: Listing, history: seq<Listing>)

  ghost predicate ListsChat(l: ChatListing, c: Chat)
  {
    && Enumerates(l.users, c.users.Keys)
    && (c.currentEvent.Some? ==> Lists(l.current, c.currentEvent.value))
    && |l.history| == |c.events|
    && (forall i :: 0 <= i < |c.events| ==> Lists(l.history[i], c.events[i]))
  }

  /** `Chat.serialize`: everything but the chat type and the keyboard. */
  function SerializeChat(c: Chat, l: ChatListing): (j: ChatJson)
    requires ListsChat(l, c)
    ensures j.id == c.id && j.title == c.title && j.pinnedMessageId == c.pinnedMessageId
    ensures j.spamDetection == Some(c.spamDetection)
    ensures |j.events| == |c.events| && |j.users| == |c.users|
    ensures j.currentEvent.Some? <==> c.currentEvent.Some?
  {
    EnumeratedKeys(l.users, c.users.Keys);
    EnumerationSize(l.users, c.users.Keys);
    var current := match c.currentEvent
      case None => None
      case Some(e) => Some(SerializeEvent(e, l.current));
    ChatJson(c.id, current, c.pinnedMessageId, SerializeEvents(c.events, l.history),
             SerializeMembers(c.users, l.users), c.title, Some(c.spamDetection))
  }

  /** The stored history: the first event that fails to load stops loading. */
  function LoadEvents(js: seq<EventJson>): (r: Result<seq<Event>, LoadError>)
    ensures r.Success? ==> |r.value| == |js|
    ensures r.Success? ==> forall i :: 0 <= i < |js| ==> DeserializeEvent(Some(js[i])) == Success(Some(r.value[i]))
    ensures r.Failure? <==> exists i :: 0 <= i < |js| && DeserializeEvent(Some(js[i])).Failure?
  {
    if |js| == 0 then Success([])
    else
      match DeserializeEvent(Some(js[0]))
      case Failure(err) => Failure(err)
      case Success(loaded) =>
        match LoadEvents(js[1..])
        case Failure(err) =>
          var i :| 0 <= i < |js[1..]| && DeserializeEvent(Some(js[1..][i])).Failure?;
          assert DeserializeEvent(Some(js[i + 1])).Failure?;
          Failure(err)
        case Success(rest) =>
          assert forall i :: 1 <= i < |js| ==> js[i] == js[1..][i - 1];
          Success([loaded.value] + rest)
  }

  /** `Chat.deserialize`: the type is left `UNDEFINED` and the keyboard
      `NONE`; spam detection defaults to on. */
  function DeserializeChat(j: ChatJson): (r: Result<Chat, LoadError>)
    ensures r.Success? ==> && r.value.id == j.id && r.value.title == j.title
                           && r.value.chatType == Undefined && r.value.keyboard == NoKeyboard
                           && r.value.pinnedMessageId == j.pinnedMessageId
                           && r.value.spamDetection == j.spamDetection.GetOr(true)
                           && UsersKeyed(r.value)
  {
    match DeserializeEvent(j.currentEvent)
    case Failure(err) => Failure(err)
    case Success(current) =>
      match LoadEvents(j.events)
      case Failure(err) => Failure(err)
      case Success(events) =>
        Success(Chat(j.id, j.title, Undefined, LoadMembers(j.users), current, events,
                     j.pinnedMessageId, NoKeyboard, j.spamDetection.GetOr(true)))
  }

  /** What of a chat a snapshot keeps. */
  function PersistedChat(c: Chat): Chat
  {
    c.(chatType := Undefined, keyboard := NoKeyboard,
       users := PersistedMembers(c.users),
       currentEvent := match c.currentEvent case None => None case Some(e) => Some(PersistedEvent(e)),
       events := Map(PersistedEvent, c.events))
  }

  ghost predicate ChatWellFormed(c: Chat)
  {
    && UsersKeyed(c)
    && (c.currentEvent.Some? ==> WellFormed(c.currentEvent.value))
    && (forall i :: 0 <= i < |c.events| ==> WellFormed(c.events[i]))
  }

  lemma {:induction false} HistoryRoundTrip(events: seq<Event>, ls: seq<Listing>)
    requires |ls| == |events|
    requires forall i :: 0 <= i < |events| ==> Lists(ls[i], events[i]) && WellFormed(events[i])
    ensures LoadEvents(SerializeEvents(events, ls)) == Success(Map(PersistedEvent, events))
    decreases |events|
  {
    if |events| > 0 {
      EventRoundTrip(events[0], ls[0]);
      HistoryRoundTrip(events[1..], ls[1..]);
      assert SerializeEvents(events, ls)[1..] == SerializeEvents(events[1..], ls[1..]);
      assert Map(PersistedEvent, events) == [PersistedEvent(events[0])] + Map(PersistedEvent, events[1..]);
    }
  }

  /** Loading a saved chat gives back the chat as a snapshot keeps it. */
  lemma ChatRoundTrip(c: Chat, l: ChatListing)
    requires ChatWellFormed(c) && ListsChat(l, c)
    ensures DeserializeChat(SerializeChat(c, l)) == Success(PersistedChat(c))
  {
    if c.currentEvent.Some? {
      EventRoundTrip(c.currentEvent.value, l.current);
    }
    HistoryRoundTrip(c.events, l.history);
    LoadSerializedMembers(c.users, l.users);
  }
}
