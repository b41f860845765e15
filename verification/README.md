# regular_dicers_bot in Dafny

A model of the in-memory core of the regular_dicers_bot Telegram bot. Each
week a group chat gets a round: first the members say whether they attend,
then the attendees report what they rolled and the bot totals the cost.
These parts are covered:

- **Users** (`dicers_bot/user.py`): a user's defaults, setters, equality by
  id, `str()` form, snapshot form and attended-event history.
- **Events** (`dicers_bot/event.py`): attendee and absentee membership, the
  event date and the snapshot form.
- **Chats** (`dicers_bot/chat.py`): the event lifecycle, the keyboard state
  (none, attend, dice) and pinned-message bookkeeping. It also covers the
  attend and dice messages, `reset` and the snapshot form.
- **Decorators** (`dicers_bot/decorators.py`): the `group` gate and the
  `Command` wrapper. The wrapper finds or creates the chat, records the
  caller and applies the main-chat and chat-admin checks. It files the
  message, runs or denies the body and saves the state.
- **Bot** (`dicers_bot/bot.py`, the `Bot` class only):
  - registration of chat ids and the main chat;
  - the per-chat records written by the attend and dice callbacks;
  - the two message builders that read those records;
  - `reset_attendees`.
- **Cocktails** (`dicers_bot/cocktails.py`): `from_dict`, `__str__` and the
  mapping of a parsed GraphQL response.
- **Insults** (`dicers_bot/insult.py`): reading the insult file, adding with
  de-duplication, and the index bound of a random draw.

Everything is immutable datatypes and pure functions. Helper modules supply
the Python behaviour the core relies on:

- `Wrappers`: `Option` and `Result`.
- `Strings`: `str.join`, `int()` and `str()` of integers, `strip`, `lower`
  and string ordering.
- `Seqs`: map, filter, sum and permutations.
- `Sorting`: stable `sorted` by a key.
- `Ordinals`: proleptic Gregorian day numbers, weekdays, and
  `strftime`/`strptime` with `"%d.%m.%Y"`.
- `OrderedMaps`: a `dict` with insertion order.

Modelling choices:

- Python hashes users by name but compares them by id. The model keys every
  set of users by id: a member set is a `map<UserId, User>`.
- Where Python iterates a `set`, its unspecified order is a parameter (an
  enumeration of the keys). The order-independence lemmas show which results
  do not depend on it.
- Telegram, Google Calendar and GraphQL calls are parameters: a success
  flag, a sent message id or a fetched id set. So are today's date and the
  random draw.

Where the code and its documentation disagree, the model follows the code:

- `_next_monday` returns the Monday on or before today, because
  `days_ahead` is minus today's weekday. The documentation calls it the next
  Monday.
- `Events.NextMonday` states what the code computes.

## Model

| member | source | states |
|---|---|---|
| Users.NewUser | dicers_bot/user.py:12-22 | a new user has the given name and id, roll -1, no jumbo, an alcoholic preference, is neither muted nor spamming, and has no drink and no messages |
| Users.SetRoll | dicers_bot/user.py:24-25 | `set_roll` sets the roll and changes no other field |
| Users.SetJumbo | dicers_bot/user.py:27-28 | `set_jumbo` sets the jumbo flag and changes no other field |
| Users.SetAlcoholic | dicers_bot/user.py:30-31 | `set_alcoholic` sets the preference and changes no other field |
| Users.SettersIndependent | dicers_bot/user.py:24-31 | the three setters commute pairwise, each leaves the other two fields alone, and no setter changes which user it is under `==` |
| Users.EqualsIsIdentity | dicers_bot/user.py:36-40 | two users are equal exactly when their ids are equal, whatever their other fields; a non-user is never equal; equality is reflexive, symmetric and transitive |
| Users.DescribeShape | dicers_bot/user.py:45-54 | `str(user)` is `<`, the name, ` \| `, the roll part, ` \| `, the muted part and `>` |
| Users.DescribeShowsMuted | dicers_bot/user.py:45-54 | `str(user)` starts with `<name \| ` and ends in `\| muted>` exactly when the user is muted, and in `not muted>` exactly when not |
| Users.DescribeShowsRoll | dicers_bot/user.py:45-54 | an unset roll shows as `no roll` (plus ` (+1)` for jumbo); a set roll shows as digits that parse back to the roll |
| Users.Serialize | dicers_bot/user.py:73-82 | the saved dictionary carries the name and id and has roll, jumbo, muted and alcoholic all present |
| Users.Deserialize | dicers_bot/user.py:62-71 | a loaded user has the dictionary's name and id, no messages and no spam flag |
| Users.Persisted | dicers_bot/user.py:73-82 | what a snapshot keeps of a user has no messages and no spam flag |
| Users.SerializeRoundTrip | dicers_bot/user.py:62-82 | loading a saved user gives back every field except messages and the spam flag; the result is `==` the original |
| Users.DeserializeRoundTrip | dicers_bot/user.py:62-82 | saving a loaded dictionary gives the same dictionary with each missing field filled with its default |
| Users.DefaultsMatchConstructor | dicers_bot/user.py:62-71 | a dictionary holding only name and id loads as exactly the constructor's new user, so the load defaults (muted false, roll -1, jumbo false, alcoholic true, no drink) are the constructor's |
| Events.NextMonday | dicers_bot/event.py:64-73 | the event date is a Monday no more than six days before today, and is today when today is a Monday |
| Events.NextMondayUnique | dicers_bot/event.py:64-73 | the Monday of the last seven days is unique, so any Monday in that window is the result; applying it twice changes nothing |
| Events.NewEvent | dicers_bot/event.py:11-18 | a new event is dated by `_next_monday` and has empty attendee and absentee sets |
| Events.Insert | dicers_bot/event.py:36 | `set.add` of a user adds its id and keeps an already-present member's record |
| Events.AddAbsentee | dicers_bot/event.py:20-23 | `add_absentee` adds the user to the absentees only; the attendees and the date are untouched |
| Events.RemoveAbsentee | dicers_bot/event.py:25-28 | `remove_absentee` fails with `KeyError` exactly when the user is no absentee; otherwise the user ends as an attendee and no absentee (the mutual recursion with `add_attendee` ends) |
| Events.AddAttendee | dicers_bot/event.py:30-36 | after `add_attendee` the user is an attendee and no absentee, whether or not they were absent; the absentees lose only that user; other attendees keep their records |
| Events.RemoveAttendee | dicers_bot/event.py:38-40 | `remove_attendee` fails with `KeyError` exactly when the user is no attendee; otherwise only that user leaves the attendees and the absentees are unchanged |
| Events.OthersUnchanged | dicers_bot/event.py:20-40 | each of the four membership operations leaves every other user's attendee and absentee membership as it was |
| Events.AddAttendeeKeepsDisjoint | dicers_bot/event.py:30-36 | `add_attendee` keeps attendees and absentees disjoint |
| Events.RemoveAttendeeKeepsDisjoint | dicers_bot/event.py:38-40 | `remove_attendee` keeps attendees and absentees disjoint |
| Events.AddAbsenteeDisjointIff | dicers_bot/event.py:20-23 | `add_absentee` keeps the two sets disjoint if and only if the user was not an attendee |
| Events.OperationsKeepWellFormed | dicers_bot/event.py:20-40 | every membership operation keeps each member stored under its own id |
| Events.AttendToggleRoundTrip | dicers_bot/event.py:20-40 | attending, then withdrawing and declaring absence, then attending again puts the user where each step says, keeps the two sets disjoint and moves nobody else |
| Events.SerializeMembers | dicers_bot/event.py:46-47 | a member list holds one saved dictionary per enumerated member, in the enumeration's order |
| Events.SerializeEvent | dicers_bot/event.py:42-50 | the saved event carries the date formatted as `%d.%m.%Y` and one entry per attendee and per absentee |
| Events.LoadMembers | dicers_bot/event.py:59-60 | the loaded set holds exactly the ids that occur in the list, each user under its own id |
| Events.DeserializeEvent | dicers_bot/event.py:52-62 | no object loads as `None`; a missing timestamp is an error; a loaded event is well formed |
| Events.LoadSerializedMembers | dicers_bot/event.py:46-60 | loading a saved member set, in any enumeration order, gives back the persisted form of each member |
| Events.EventRoundTrip | dicers_bot/event.py:42-62 | loading a saved event gives back its date (via `%d.%m.%Y`) and the persisted form of its members |
| Events.AttendedEvents | dicers_bot/user.py:84-87 | `get_attended_events` yields exactly the events whose attendees include the user, no more than were given |
| Events.AttendedEventsAppend | dicers_bot/user.py:84-87 | the history filter distributes over concatenation, so it keeps the original order |
| Events.AttendedEventsSingle | dicers_bot/user.py:84-87 | one event is yielded exactly when the user attends it |
| Ordinals.OrdinalRoundTrip | dicers_bot/event.py:45-58 | every valid date maps to a day number and back |
| Ordinals.FormatParseRoundTrip | dicers_bot/event.py:45-58 | `strptime` with `%d.%m.%Y` reads back the day that `strftime` wrote |
| Sorting.SortByStable | dicers_bot/chat.py:297 | `sorted` with a key is stable: the elements sharing a key come out in the order they went in |
| OrderedMaps.PutInPlace | dicers_bot/bot.py:177-183 | assigning to a key a `dict` already holds replaces its value where it stands, so the order of the values is kept |
| Chats.TypeNamesDistinct | dicers_bot/chat.py:23-36 | the chat types have distinct string values, so comparing a type with a string name is comparing types |
| Chats.NewChat | dicers_bot/chat.py:40-55 | a new chat already has a current event, an empty history, no users, no title, an undefined type, no pinned message, keyboard NONE and spam detection on |
| Chats.GroupGate | dicers_bot/decorators.py:121-137 | `group` raises `TypeError` exactly when the target's `type` is missing or neither a string nor a chat type; it returns `False` without running the body exactly in a private chat; otherwise it returns the body's result |
| Chats.ChatGate | dicers_bot/decorators.py:125-132 | a chat object always passes the type test, and is skipped exactly when it is private, whether its type is held as a string or a chat type |
| Chats.GetUserById | dicers_bot/chat.py:57-60 | the lookup finds a user exactly when one with that id is a member, and the user it returns has that id |
| Chats.AddUser | dicers_bot/chat.py:79-80 | `add_user` adds the user's id; a member already present is kept as it was |
| Chats.AddUserThenGet | dicers_bot/chat.py:57-80 | after `add_user`, looking up its id finds the kept or the new user; other lookups are unchanged |
| Chats.AddMessage | dicers_bot/chat.py:412-415 | filing a message fails exactly when the sender is no member; otherwise only the sender's messages grow by that message |
| Chats.Administrators | dicers_bot/chat.py:366-389 | `administrators` is skipped in a private chat; otherwise it gives the members that Telegram lists as administrators, or none when the request fails |
| Chats.CloseCurrentEvent | dicers_bot/chat.py:136-140 | the current event, if any, is appended to the history, which grows by at most one; afterwards there is no current event |
| Chats.StartEvent | dicers_bot/chat.py:142-149 | a given event is installed as it is; a fresh event is made only when none is given |
| Chats.StartOpenEventKeepsIt | dicers_bot/chat.py:142-149 | starting with the chat's own open event changes nothing, so showing the attend keyboard never replaces an open event |
| Chats.CloseThenStart | dicers_bot/chat.py:136-149 | closing and then starting archives the old event and opens a fresh one |
| Chats.UnpinMessage | dicers_bot/chat.py:120-134 | unpinning succeeds exactly outside private chats when Telegram agrees; only a success clears the pinned id |
| Chats.PinMessage | dicers_bot/chat.py:97-118 | pinning succeeds exactly outside private chats when Telegram agrees, and then records the message id; a private chat is unchanged |
| Chats.PinnedIdChanges | dicers_bot/chat.py:97-134 | the pinned id becomes a message id only by a successful pin and becomes empty only by a successful unpin |
| Chats.NamesPermute | dicers_bot/chat.py:218-256 | the names of a member set are the same multiset under any enumeration order |
| Chats.ShownNames | dicers_bot/chat.py:226-231 | when both short ones attend, the names shown are the given names with every occurrence of theirs removed and every other name kept as often as it occurs; otherwise the names are shown as given |
| Chats.UserString | dicers_bot/chat.py:226-234 | when both short ones attend, the attendee text is not empty and ends in the ` #dieKurzenSindDabei` tag |
| Chats.UserStringSorted | dicers_bot/chat.py:226-234 | the attendee text is the names shown, in sorted order and each as often as it occurs, joined by `, `, followed by the tag exactly when both short ones attend |
| Chats.AttendSummary | dicers_bot/chat.py:236-242 | an empty attendee text reads `Niemand :(`; a non-empty one reads `Alle` with the party emoji when every user attends, and is shown as it is otherwise |
| Chats.NamesLine | dicers_bot/chat.py:243-253 | the absentee and not-voted lines are empty exactly when they have no names; otherwise they are the heading followed by the names joined by `, ` |
| Chats.NamesCounted | dicers_bot/chat.py:243-253 | listing a member set in any enumeration of its ids names each name exactly as often as members carry it |
| Chats.AbsenteesPart | dicers_bot/chat.py:243-247 | the absentee line is there exactly when someone declined; then it is `Nicht dabei: ` followed by the absentees' names joined by `, `, each name as often as absentees carry it |
| Chats.WarningsPart | dicers_bot/chat.py:249-253 | the warning line is there exactly when some member neither attends nor declined; then it is `incoming warnings: ` followed by those members' names joined by `, `, each name as often as they carry it |
| Chats.AttendMessage | dicers_bot/chat.py:218-256 | the attend message opens with the header and the attendee summary, closes with the absentee line followed by the warning line, and holds nothing else |
| Chats.UserStringEmpty | dicers_bot/chat.py:231-234 | no attendees give an empty attendee text |
| Chats.NobodyAttends | dicers_bot/chat.py:236-242 | an event without attendees is summarised as `Niemand :(`, right after the header |
| Chats.UserStringOrderFree | dicers_bot/chat.py:231-234 | the attendee text depends only on the multiset of names, because the names are sorted |
| Chats.AttendMessageOrderFree | dicers_bot/chat.py:218-256 | the attend message does not depend on the order in which the attendee set is iterated |
| Chats.Rolled | dicers_bot/chat.py:290-307 | the dice message lists only attendees who have rolled |
| Chats.DiceMessage | dicers_bot/chat.py:290-307 | with nobody rolled the dice message is its header only; otherwise it is the header followed by the sorted entries and the total line |
| Chats.SortedCosts | dicers_bot/chat.py:290-307 | sorting the entries by lower-cased name changes neither their number nor the cost total |
| Chats.DiceEntriesSorted | dicers_bot/chat.py:290-307 | the listed entries are sorted by lower-cased name, all have rolled, and are a permutation of the rolled attendees |
| Chats.DiceTotalOrderFree | dicers_bot/chat.py:290-307 | the cost total (each roll, plus one for a jumbo) and the tip (one per listed attendee) do not depend on the set's iteration order |
| Chats.ShowDice | dicers_bot/chat.py:324-341 | with no current event the chat gets an explanation and nothing changes; a sent dice message sets keyboard DICE and, when pinned, the pinned id; a failed send changes nothing |
| Chats.ShowAttendKeyboard | dicers_bot/chat.py:343-364 | the attend keyboard keeps an open event or opens a new one; a sent message sets keyboard ATTEND and, when pinned, the pinned id; users and history stay |
| Chats.Cleared | dicers_bot/chat.py:424-433 | `reset` clears a user's roll, jumbo and muted flags and keeps name, id, preference, drink and messages |
| Chats.Reset | dicers_bot/chat.py:424-433 | after `reset` there is no current event, the keyboard is NONE, the old event is archived, every member is cleared and the pin is dropped only by a successful unpin |
| Chats.ResetIdempotent | dicers_bot/chat.py:424-433 | resetting twice is resetting once |
| Chats.SerializeEvents | dicers_bot/chat.py:71 | the saved history holds one entry per event of the chat's history |
| Chats.SerializeChat | dicers_bot/chat.py:62-77 | the saved chat carries id, title, pinned id and spam flag, one entry per event and per user, and a current event exactly when there is one |
| Chats.LoadEvents | dicers_bot/chat.py:90 | a history loads exactly when every entry loads, and then entry by entry |
| Chats.DeserializeChat | dicers_bot/chat.py:82-95 | a loaded chat has the saved id, title and pin, an undefined type, keyboard NONE, spam detection on when the flag is missing, and each member under its own id |
| Chats.HistoryRoundTrip | dicers_bot/chat.py:71-90 | loading a saved history gives back the persisted form of every event, in order |
| Chats.ChatRoundTrip | dicers_bot/chat.py:62-95 | loading a saved chat gives back its persisted form |
| Decorators.AddChat | dicers_bot/decorators.py:20-32 | `_add_chat` reuses the registry's chat for the id or makes a new one, and sets the title and type from the update |
| Decorators.ResolveChat | dicers_bot/decorators.py:62-65 | a chat cached in the context only gets its type refreshed; without one, `_add_chat` supplies it |
| Decorators.FileMessage | dicers_bot/decorators.py:95-96 | a message, when present, is filed with the caller and nothing else changes |
| Decorators.Enrol | dicers_bot/decorators.py:70-74 | a member with the caller's id is kept as it is; otherwise the caller joins as a new user with their first name |
| Decorators.Visit | dicers_bot/decorators.py:62-96 | the command's chat ends up with the update's type, the caller as a member and other members' records unchanged |
| Decorators.Invoke | dicers_bot/decorators.py:38-118 | the intended wrapper: without an update the body runs on the state as it is, with no bookkeeping and no save; with one, the registry gains at most that chat, the caller is a member, a main-only command outside the main chat requests a mute, a denied command with a message gets the refusal reply, and the state is saved |
| Decorators.InvokeAsWritten | dicers_bot/decorators.py:36-118 | as written, a caller not yet in the chat, a main-only command outside the main chat and any chat-admin command all raise before the `try`: the resolved chat is registered, but the caller is not added, nothing runs, no refusal is sent and nothing is saved, and the mute is requested only for a known caller outside the main chat; every other call behaves as the intended wrapper |
| Decorators.RunsAsWritten | dicers_bot/decorators.py:36-118 | as written a command runs exactly when it comes from the bot itself, or from a caller already in the chat, without the chat-admin check, and from the main chat if it is main-only; whenever it runs as written, the intended wrapper runs it too |
| Decorators.MainOnlyElsewhereRaises | dicers_bot/decorators.py:76-118 | for a main-only command with a message from another chat, the code as written leaves only the resolved chat in the registry, files no message, sends no refusal and saves nothing, where the intended wrapper files the message, refuses and saves |
| Decorators.NewCallerRaises | dicers_bot/decorators.py:34-74 | for a caller the chat does not know yet, the code as written does not add them, runs nothing, requests no mute and saves nothing, where the intended wrapper adds them under their first name and saves |
| Decorators.ChatAdminRaises | dicers_bot/decorators.py:86-93 | for a chat-admin command from a member, the code as written runs nothing, sends no refusal and saves nothing, where the intended wrapper saves and runs it in a private chat (outside a failing main-chat check) |
| Decorators.InvokeDecision | dicers_bot/decorators.py:77-103 | the body runs exactly when the main-chat check (if asked) finds the state's main chat and the chat-admin check (if asked) finds a private chat or a listed administrator |
| Decorators.InvokeKeepsMembers | dicers_bot/decorators.py:62-75 | a command keeps the chat's events, title and other members, and adds the caller before any check, so a denied caller is still recorded |
| Decorators.CacheOnlyAffectsTitle | dicers_bot/decorators.py:62-68 | taking the chat from the context cache or from the registry decides the same and differs only in whether the title is refreshed |
| Decorators.InvokeTwice | dicers_bot/decorators.py:62-75 | repeating a command from the same update without a message changes nothing more |
| Bot.Register | dicers_bot/bot.py:55-71 | `register` adds the id; the "register twice" reply is sent exactly when it was already registered, and no reply when success messages are off |
| Bot.RegisterIdempotent | dicers_bot/bot.py:55-71 | a second registration changes nothing and always answers "register twice" |
| Bot.Unregister | dicers_bot/bot.py:73-95 | an unknown id changes nothing and gets no reply; a known id is removed, and the main chat is cleared when it was that id |
| Bot.UnregisterNeverSaysNotRegistered | dicers_bot/bot.py:77-91 | as written, "weren't registered" is never sent, and "unregistered" is sent exactly for a known id |
| Bot.UnregisterIntended | dicers_bot/bot.py:73-95 | with the reply the code intends, an unknown id is told "weren't registered" and a known one "unregistered"; the id is gone afterwards either way |
| Bot.UnregisterAgrees | dicers_bot/bot.py:73-95 | for a registered id the written and intended `unregister` agree |
| Bot.RegisterThenUnregister | dicers_bot/bot.py:55-95 | registering a new id that is not the main chat and then unregistering it restores the state |
| Bot.RegisterMain | dicers_bot/bot.py:97-105 | `register_main` registers the chat as main exactly when the chat id `==` `admin_user_id`, and changes nothing otherwise |
| Bot.RegisterMainNeverRegisters | dicers_bot/bot.py:34-105 | as written no chat ever becomes the main chat, because an `int` chat id never equals the `str` admin id |
| Bot.AdminChatIdParses | dicers_bot/bot.py:34 | a fact about two constants, not about behaviour: the number that `Bot.RegisterMainIntended` compares with is what `int()` makes of the configured admin id string |
| Bot.RegisterMainIntended | dicers_bot/bot.py:97-105 | comparing numbers, exactly the admin's chat becomes the main chat (and is registered); every other chat is left alone with no reply |
| Bot.MainThenUnregister | dicers_bot/bot.py:73-105 | unregistering the main chat after the intended `register_main` clears the main chat |
| Bot.PositiveAttendees | dicers_bot/bot.py:196-198 | the records can be read exactly when the chat has records and none is a stub; then they are exactly the records with `attends` true, each kept as often as it occurs |
| Bot.PositiveInOrder | dicers_bot/bot.py:196-198 | the positive records keep the records' insertion order: splitting the records splits the positive ones at the same place |
| Bot.BuildMessage | dicers_bot/bot.py:212-220 | with no positive attendee the message is `Wer ist dabei?`; otherwise it adds ` Bisher: ` and their names joined by `, ` |
| Bot.RollEntry | dicers_bot/bot.py:207 | a roll entry is the name, ` (`, the roll and `)`: the roll reads back as an integer from between the parentheses, and the entry ends in `+1)` exactly when the record has jumbo |
| Bot.BuildDiceRollMessage | dicers_bot/bot.py:200-210 | with no positive attendee the message is the question only; otherwise it adds ` Bisher: ` and the entries of those who rolled |
| Bot.DiceMessageEntries | dicers_bot/bot.py:200-210 | with readable records the dice message is the question, ` Bisher: ` and the entries of the positive attendees who rolled, in record order, joined by `, ` |
| Bot.NoRollsYet | dicers_bot/bot.py:200-210 | when no positive attendee has rolled the dice message is the question followed by ` Bisher: ` |
| Bot.RecordsOf | dicers_bot/bot.py:123-134 | a chat without records starts with an empty dict |
| Bot.RecordVote | dicers_bot/bot.py:134-143 | an attend callback writes the caller's record as attends = (data is `attend_True`), their first name, roll -1 and no jumbo; other records and chats are untouched |
| Bot.AttendFollowUp | dicers_bot/bot.py:155-158 | once the messaging is behind it, a calendar event is requested exactly for the main chat with positive attendees, and the callback is answered unless reading the records fails; as written this point is never reached |
| Bot.HandleAttendCallback | dicers_bot/bot.py:117-160 | once `state["attendees"]` is a dict, the vote is recorded and saved as written, then the read of the never-assigned `attend_markup` at :147 raises, so no callback is ever answered and no calendar event is ever requested |
| Bot.AttendCallbackUnanswered | dicers_bot/bot.py:144-158 | once `state["attendees"]` is a dict, even a positive vote in the main chat, which is recorded, goes unanswered as written and requests no calendar event, where the intended handler does both |
| Bot.HandleAttendCallbackIntended | dicers_bot/bot.py:117-160 | with a defined attend keyboard and the pin given the message's own id, the vote is recorded and, outside the main chat, the callback is always answered and no calendar event is made |
| Bot.AttendThenMessage | dicers_bot/bot.py:136-220 | after a positive vote in a chat without stubs, the vote is among the positive attendees and the attend message names someone |
| Bot.DicePayload | dicers_bot/bot.py:166 | the pattern matches exactly data starting with `dice_`, and captures what follows up to the first line break |
| Bot.UpToNewline | dicers_bot/bot.py:166 | the capture is the longest prefix without a line break |
| Bot.ApplyDice | dicers_bot/bot.py:173-183 | `-1` clears jumbo, `+1` sets it, anything else sets the roll to its integer value; a missing record starts as `{}`, and a payload that is no integer leaves it as it was |
| Bot.HandleDiceCallback | dicers_bot/bot.py:162-194 | when the pattern matches, the records can be read and the caller's first name is a positive attendee's name, the caller's record becomes the payload applied to it and every other record and chat is unchanged, a new caller going last; in every other case nothing changes |
| Bot.DiceUpdate | dicers_bot/bot.py:172-183 | writing the payload into a chat's records changes the caller's record only, keeps the other chats, and keeps the order of records with a new caller last |
| Bot.PayloadOfRoll | dicers_bot/bot.py:166-183 | the button for roll n carries `str(n)`, which is never `+1` and is `-1` exactly for n = -1 |
| Bot.PositiveNamed | dicers_bot/bot.py:168 | any caller whose own record is a positive vote passes the name check |
| Bot.DiceButtonRecorded | dicers_bot/bot.py:162-194 | a positive attendee pressing the button for n, including a roll they already made, ends with their record taking n as the roll, or with jumbo cleared for n = -1; nothing else of it changes |
| Bot.JumboButtonRecorded | dicers_bot/bot.py:162-194 | a positive attendee pressing `+1` ends with jumbo set and the rest of their record unchanged |
| Bot.DiceCallbackMessage | dicers_bot/bot.py:162-210 | after an accepted dice callback from a caller with a record, the dice message changes only in the caller's entry, which now shows the updated record; a caller without a record gets the `{}` record, after which the records cannot be read and the message is the question alone |
| Bot.ResetAttendees | dicers_bot/bot.py:231-235 | every chat in the registry closes its current event, archiving it; nothing else changes |
| Bot.ResetAttendeesIdempotent | dicers_bot/bot.py:231-235 | resetting twice is resetting once |
| Bot.AttendCallbackOnSlot | dicers_bot/bot.py:39-160 | on the constructor's list, the attend callback fails at :124 with a `TypeError` that is swallowed: the list stays, the state is unchanged and nothing is answered; on a dict it is `handle_attend_callback` |
| Bot.DiceCallbackOnSlot | dicers_bot/bot.py:162-198 | on the constructor's list, the dice callback's read of the records raises a swallowed `TypeError` and nothing changes; on a dict it is `handle_dice_callback` |
| Bot.BuildMessageOnSlot | dicers_bot/bot.py:196-220 | `build_message` raises exactly when `state["attendees"]` is still the list, since `except KeyError` does not catch the `TypeError`; on a dict it gives the attend message |
| Bot.BuildDiceRollMessageOnSlot | dicers_bot/bot.py:196-210 | `build_dice_roll_message` raises exactly when `state["attendees"]` is still the list; on a dict it gives the dice message |
| Bot.ListSlotStays | dicers_bot/bot.py:39-198 | from the constructor's `[]`, any run of attend and dice callbacks leaves the list in place and answers none of them |
| Bot.FreshBotRecordsNothing | dicers_bot/bot.py:39-220 | from the constructor's list a positive vote leaves no trace and both messages raise, where the same vote on an empty dict is recorded and named in the attend message |
| Cocktails.FromDict | dicers_bot/cocktails.py:15-17 | `from_dict` copies name, jumbo and alcoholic, with a missing key becoming `None` |
| Cocktails.ToDict | dicers_bot/cocktails.py:15-17 | the dictionary a cocktail is read from holds its three fields |
| Cocktails.FromDictRoundTrip | dicers_bot/cocktails.py:15-17 | reading a dictionary loses nothing, and nothing is added |
| Cocktails.Str | dicers_bot/cocktails.py:19-23 | `str()` fails exactly when the name is `None`; otherwise it is the name, the jumbo mark and the heart joined by single spaces |
| Cocktails.JumboPart | dicers_bot/cocktails.py:20 | `(Jumbo)` appears exactly when jumbo is true, otherwise the part is empty |
| Cocktails.AlcoholPart | dicers_bot/cocktails.py:21 | the broken heart appears exactly when the cocktail is not alcoholic (including `None`), otherwise the part is empty |
| Cocktails.StrParses | dicers_bot/cocktails.py:19-23 | the three parts can be read back from `str()`, so the name, the jumbo flag and the alcohol flag are recoverable from the text |
| Cocktails.GetCocktails | dicers_bot/cocktails.py:41-48 | an error response or a failed call gives `None`; otherwise the cocktails of `data.cocktails` in order, an empty list when a key is missing, and `None` when `data` or its list is null |
| Cocktails.GetCocktailsRoundTrip | dicers_bot/cocktails.py:41-48 | a response without errors yields one cocktail per listed dictionary, in order, each reading back as its dictionary |
| Insults.LastNewline | dicers_bot/insult.py:16 | the last line break of a text, when there is one |
| Insults.Lines | dicers_bot/insult.py:16 | `readlines` splits the file into at least one line, none holding a line break |
| Insults.LinesJoin | dicers_bot/insult.py:16 | joining the lines with line breaks gives back the file |
| Insults.LinesAppend | dicers_bot/insult.py:35 | appending a line break and a one-line text adds exactly that line |
| Insults.ReadAll | dicers_bot/insult.py:14-19 | `read_all` gives the lines that are not blank, stripped of every character Python counts as white space, in file order |
| Insults.UnicodeBlankDropped | dicers_bot/insult.py:16 | a line holding only a no-break space or an ideographic space is blank and is dropped |
| Insults.StripIdempotent | dicers_bot/insult.py:16 | stripping a stripped line changes nothing |
| Insults.ReadAllAppend | dicers_bot/insult.py:14-35 | after the file grows by one new stripped line, `read_all` gives the old insults followed by that one |
| Insults.Add | dicers_bot/insult.py:27-39 | an empty cache is reloaded first; text already cached returns `False` and changes neither cache nor file; new text is appended to the cache, written as a line break plus the text, and returns `True` |
| Insults.AddKeepsSync | dicers_bot/insult.py:27-39 | adding a stripped one-line insult keeps the cache equal to what `read_all` gives for the file |
| Insults.AddTwice | dicers_bot/insult.py:27-39 | adding the same text twice makes the second call return `False` and change nothing |
| Insults.Random | dicers_bot/insult.py:21-25 | a draw reloads the cache from the file, even when it then fails; a draw from an empty file fails, as `randint(0, -1)` does; otherwise it is the insult at the drawn index |
| Insults.RandomThenAdd | dicers_bot/insult.py:14-39 | after a draw the cache mirrors the file, and adding the drawn insult is refused and changes nothing |
| Insults.AddedCanBeDrawn | dicers_bot/insult.py:21-39 | after an insult is added, some draw returns it |

## Left out

- Telegram transport: sending, editing, pinning and unpinning messages, inline keyboards, and fetching administrators. Each becomes a parameter: a success flag, a sent message id or an id set.
- `update_attend_message` and `update_dice_message` (dicers_bot/chat.py:188-216, 258-288): they only send messages built by the modelled builders.
- `hide_attend`, `set_attend_callback`, `set_dice_callback` and `messages` of `Chat`: transport state, not part of the round's rules.
- `Command`'s body and `mute_user`: the body's effect is not modelled. No class defines `mute_user`, so the call at dicers_bot/decorators.py:83 raises before the `try`; `Decorators.InvokeAsWritten` models that and `Decorators.Invoke` the evident intent (see Findings). No command in this file set applies the decorator.
- `save_state`, `users.json` and every other JSON file write: persistence I/O. The model records that a save happens.
- Exceptions from file I/O inside `register` and `unregister`: I/O failures.
- The Google Calendar call (`dicers_bot/calendar.py`): a foreign network call, reduced to whether one is requested.
- `dicers_bot/partyamt.py`, `main.py`, `dicers_bot/logger.py` and `dicers_bot/config.py`: network I/O, scheduling, logging and configuration.
- `remind_users` and `remind_user` (dicers_bot/bot.py:107-115, 222-229): only send messages.
- The legacy `Event`, `Chat` and `User` classes (dicers_bot/bot.py:238-445): superseded by `event.py` and `chat.py`. The legacy `Event.__init__` reads `timestamp` before setting it.
- The GraphQL request itself (dicers_bot/cocktails.py:27-42): network I/O. The model starts from the parsed response, or from its failure.
- Object aliasing: in Python, `chat.users`, event members, the registry and the context cache may hold the same mutable objects. The model keeps values, so a change through one alias is not seen through another.
- Hashing by name (dicers_bot/user.py:42-43): two users with the same id but different names would be two set entries in Python. The model keys by id, so it holds one.
- Set iteration order: an explicit enumeration parameter.
- `state["attendees"]` is the list `[]` that `Bot.__init__` sets (dicers_bot/bot.py:42), and nothing in this file set replaces it. `self.state["attendees"]["current"]` on it raises `TypeError`, which none of the `except KeyError` clauses catch. So as written no attend or dice callback records anything, and `build_message` and `build_dice_roll_message` raise. `Bot.AttendeesSlot` and `Bot.ListSlotStays` model this (see Findings). The rest of the `Bot` model reads the slot as the evidently intended dict, with a missing `"current"` read as empty. The chat and user keys `str(chat_id)` and `str(user.id)` are modelled by the ids themselves.
- The shadowing of the `chat` module by the local `chat` at dicers_bot/decorators.py:87, and the undefined `User` at dicers_bot/decorators.py:36. As written both raise before the `try`: every chat-admin command stops with `AttributeError`, and every caller not yet in the chat stops with `NameError` before being added. `Decorators.InvokeAsWritten` models that. `Decorators.Invoke` gives both lines their evident meaning, `chat.ChatType.PRIVATE` and `user.User.from_tuser` (see Findings).
- A `null` or empty entry inside a chat's saved `"events"` list loads as `None` in Python. The model's history holds events only, so such an entry is a load error.
- The emoji and euro literals at dicers_bot/chat.py:238, 292, 300 and 305 are stored in the file mis-decoded. The model copies them character by character as the program sends them; what they were meant to show is not modelled.
- Events.NextMonday: the date is a day number and `datetime.today()` is a parameter. The time of day is dropped, as the code's `strptime` of the date alone does.
- Ordinals.FormatDate: the year is always written with four digits. The platform-dependent padding of `strftime` for years below 1000 is not modelled.
- Strings.ParseInt accepts ASCII decimal digits with an optional sign only. Python's `int()` also accepts surrounding whitespace, underscores and non-ASCII digits.
- Insults.Lines splits at `\n` only. The universal-newline translation of `\r` and `\r\n` is not modelled.
- The insult file is modelled as its whole text, not as a list of lines, so `readlines` and the `"\n" + text` append are modelled exactly.
- Insults.AddKeepsSync: it holds for a stripped one-line text only. The code appends `text` itself to the cache, so for other text the cache and the file diverge.
- Insults.Random: the random index is a parameter, not a distribution.
- A missing insult file: `read_all`, `random` and `add` raise `FileNotFoundError` (dicers_bot/insult.py:15, 30). This is a file I/O failure; the model takes the file's text as given.
- HandleAttendCallbackIntended: it assumes an attend keyboard that the code never defines, and an edit, unpin and pin that either succeed or raise `BadRequest`. The keyboard itself is transport and is not modelled.
- HandleDiceCallback: whether the callback is answered is not part of its result. As written, both edits read the never-assigned `dice_markup` (dicers_bot/bot.py:169, 188) and raise, so neither answer at :170 or :191 is reached. The state is saved before :188, so the modelled state change stands.
- Strings.Lower lower-cases ASCII letters only. Python's `str.lower()` also lower-cases other scripts, and `İ` becomes two characters.
- DiceMessage: entries are sorted by the ASCII-only `Strings.Lower`. Names with non-ASCII capitals, such as "Борис" next to "анна", can come out in a different order than in Python.
- DiceEntriesSorted: the order it proves is by the ASCII-only `Strings.Lower`, for the reason in the previous line.
- DeserializeChat: an explicit `null` for `spam_detection` loads as `None` in Python (dicers_bot/chat.py:93), which is falsy. The model's dictionary cannot hold that null, and a missing key loads as `true`.
- Users.Deserialize: `name` and `id` are required fields of the model's dictionary. `deserialize` reads them with `.get` (dicers_bot/user.py:64), so in Python a missing one loads as `None`; `serialize` always writes both. Explicit nulls are not modelled either. In Python, `"muted": null` loads as `None`, `"jumbo": null` and `"alcoholic": null` load as `False`, and `"roll": null` raises `TypeError` (dicers_bot/user.py:65-68). Only `drink_name` treats a null like a missing key.

## Findings

| source | as written | input that shows it | evidently intended | confidence | as-written member | corrected member |
|---|---|---|---|---|---|---|
| dicers_bot/bot.py:99 | `register_main` compares the `int` chat id with the `str` `admin_user_id`, which is never equal | a `/register_main` from chat 139656428 leaves the state unchanged and sends no reply | compare with the number 139656428, so the admin's chat becomes the main chat | high, not executed | Bot.RegisterMainNeverRegisters | Bot.RegisterMainIntended |
| dicers_bot/bot.py:77-91 | `unregister` returns at the `KeyError` for an unknown id, so the "You weren't registered in the first place!" reply is unreachable | `/unregister` from any chat that never registered gets no reply | an unknown id is told it was not registered | medium, not executed | Bot.UnregisterNeverSaysNotRegistered | Bot.UnregisterIntended |
| dicers_bot/bot.py:147 | the edit reads `self.attend_markup`, which no code assigns, so it raises `AttributeError`; `except BadRequest` does not catch it and the outer handler swallows it, so the edit, unpin, pin, calendar check and `callback.answer()` never run. The pin at :149 would also fail, since `data['message_id']` indexes the `str` payload | any attend callback once `state["attendees"]` is a dict, for example `attend_True` in the main chat: the vote is saved, but the callback is never answered and no calendar event is requested | edit with the attend keyboard, pin the callback's own message, then run the calendar check and answer | high, not executed | Bot.AttendCallbackUnanswered | Bot.HandleAttendCallbackIntended |
| dicers_bot/decorators.py:83 | a main-only command outside the main chat calls `clazz.mute_user`, which no class defines; the `AttributeError` is raised before the `try`, so the message is not filed, no refusal is sent and the `finally` that saves the state never runs | a main-only command with a message, sent from any chat other than the main chat | mute the caller, refuse with a reply, file the message and save | high, not executed | Decorators.MainOnlyElsewhereRaises | Decorators.Invoke |
| dicers_bot/decorators.py:36 | `_add_user` calls `User.from_tuser`, but the file imports only the module `user`, so it raises `NameError` before the `try`, and before `chat.add_user` at :74 | any decorated command from a caller the chat does not know yet | build the new member with `user.User.from_tuser`, add them, and go on to the checks | high, not executed | Decorators.NewCallerRaises | Decorators.Invoke |
| dicers_bot/decorators.py:87 | `chat.ChatType.PRIVATE` reads `ChatType` on the local `chat`, a `Chat` object that has no such attribute, so every chat-admin command raises `AttributeError` before the `try` | a chat-admin command from a member, even in a private chat | compare with the `chat` module's `ChatType.PRIVATE` | high, not executed | Decorators.ChatAdminRaises | Decorators.Invoke |
| dicers_bot/bot.py:42 | `Bot.__init__` sets `"attendees": []`, and nothing replaces it. `[]["current"]` raises `TypeError`, which the `except KeyError` clauses at :125, :209 and :219 do not catch | any attend callback on a freshly constructed bot: the `TypeError` is swallowed at :159 and no vote is ever recorded; `build_message` raises instead of returning `Wer ist dabei?` | start the records as a dict, `"attendees": {}` | high, not executed | Bot.FreshBotRecordsNothing | Bot.AttendThenMessage |
