/** One week's round (`dicers_bot/event.py`): the Monday it belongs to and
    who said they attend or do not. Members are keyed by user id and hold
    the member's own record, as a loaded snapshot does. `get_attended_events`
    of `dicers_bot/user.py` lives here because it needs `Event`. */
module Events {
  import opened Wrappers
  import opened Strings
  import opened Ordinals
  import opened Users
  import opened Seqs

  datatype Event = Event(
    timestamp: Ordinal,
    attendees: map<UserId, User>,
    absentees: map<UserId, User>)

  /** Python's `KeyError` from `set.remove` of a missing member. */
  datatype KeyError = KeyError

  /** Every member is stored under its own id. */
  ghost predicate WellFormed(e: Event)
  {
    && (forall k :: k in e.attendees ==> e.attendees[k].id == k)
    && (forall k :: k in e.absentees ==> e.absentees[k].id == k)
  }

  /** Nobody both attends and is absent. */
  predicate Disjoint(e: Event)
  {
    e.attendees.Keys !! e.absentees.Keys
  }

  // ---------------------------------------------------------------------
  // _next_monday and the constructor
  // ---------------------------------------------------------------------

  /** `Event._next_monday` with `today` passed in: `days_ahead` is minus the
      weekday, so the result is the Monday on or before `today`. */
  function NextMonday(today: Ordinal): (d: Ordinal)
    ensures Weekday(d) == Monday
    ensures today - 6 <= d <= today
    ensures Weekday(today) == Monday ==> d == today
  {
    var daysAhead := Monday - Weekday(today);
    assert (today + 6) - (today + 6) % 7 >= 7;
    today + daysAhead
  }

  /** There is exactly one Monday among the seven days ending with `today`,
      and `NextMonday` returns it; applying it twice changes nothing. */
  lemma NextMondayUnique(today: Ordinal, m: Ordinal)
    requires Weekday(m) == Monday && today - 6 <= m <= today
    ensures NextMonday(today) == m
    ensures NextMonday(NextMonday(today)) == NextMonday(today)
  {
    var d: int := NextMonday(today);
    var n: int := m;
    assert (d + 6) % 7 == 0 && (n + 6) % 7 == 0;
    assert -6 <= n - d <= 6;
  }

  /** `Event()` created on day `today`: dated `NextMonday(today)`, nobody in
      either set. */
  function NewEvent(today: Ordinal): (e: Event)
    ensures e.timestamp == NextMonday(today)
    ensures e.attendees == map[] && e.absentees == map[]
    ensures WellFormed(e) && Disjoint(e)
  {
    Event(NextMonday(today), map[], map[])
  }

  // ---------------------------------------------------------------------
  // Membership
  // ---------------------------------------------------------------------

  /** `set.add`: an existing member with the same id is kept as it is. */
  function Insert(m: map<UserId, User>, u: User): (r: map<UserId, User>)
    ensures r.Keys == m.Keys + {u.id}
    ensures forall k :: k in m ==> r[k] == m[k]
    ensures u.id !in m ==> r[u.id] == u
  {
    if u.id in m then m else m[u.id := u]
  }

  /** `add_absentee`: only inserts into the absentees; the user stays an
      attendee if they were one. */
  function AddAbsentee(e: Event, u: User): (r: Event)
    ensures r.timestamp == e.timestamp && r.attendees == e.attendees
    ensures r.absentees.Keys == e.absentees.Keys + {u.id}
    ensures forall k :: k in e.absentees ==> r.absentees[k] == e.absentees[k]
  {
    e.(absentees := Insert(e.absentees, u))
  }

  /** How many more calls the `add_attendee`/`remove_absentee` recursion can
      make: one while the user is still an absentee, none afterwards. */
  function AbsentRank(e: Event, u: User): nat
  {
    if u.id in e.absentees then 1 else 0
  }

  /** `remove_absentee`: `KeyError` when the user is not an absentee;
      otherwise drops them from the absentees and calls `add_attendee`. */
  function RemoveAbsentee(e: Event, u: User): (r: Result<Event, KeyError>)
    ensures r.Failure? <==> u.id !in e.absentees
    ensures r.Success? ==> && r.value.timestamp == e.timestamp
                           && u.id in r.value.attendees && u.id !in r.value.absentees
                           && r.value.absentees == e.absentees - {u.id}
                           && r.value.attendees.Keys == e.attendees.Keys + {u.id}
                           && (forall k :: k in e.attendees ==> r.value.attendees[k] == e.attendees[k])
                           && (u.id !in e.attendees ==> r.value.attendees[u.id] == u)
    decreases AbsentRank(e, u), 0
  {
    if u.id !in e.absentees then Failure(KeyError)
    else Success(AddAttendee(e.(absentees := e.absentees - {u.id}), u))
  }

  /** `add_attendee`: tries `remove_absentee` (ignoring its `KeyError`), then
      adds the user to the attendees. When the user was an absentee,
      `remove_absentee` calls back into `add_attendee`, whose own
      `remove_absentee` then fails because the user is gone: the recursion
      stops after that one extra round, as `AbsentRank` drops from 1 to 0. */
  function AddAttendee(e: Event, u: User): (r: Event)
    ensures r.timestamp == e.timestamp
    ensures u.id in r.attendees && u.id !in r.absentees
    ensures r.absentees == e.absentees - {u.id}
    ensures r.attendees.Keys == e.attendees.Keys + {u.id}
    ensures forall k :: k in e.attendees ==> r.attendees[k] == e.attendees[k]
    ensures u.id !in e.attendees ==> r.attendees[u.id] == u
    decreases AbsentRank(e, u), 1
  {
    var afterRemove := match RemoveAbsentee(e, u)
      case Success(e') => e'
      case Failure(_) => e;
    afterRemove.(attendees := Insert(afterRemove.attendees, u))
  }

  /** `remove_attendee`: `KeyError` unless the user attends; afterwards they
      do not, and the absentees are untouched. */
  function RemoveAttendee(e: Event, u: User): (r: Result<Event, KeyError>)
    ensures r.Failure? <==> u.id !in e.attendees
    ensures r.Success? ==> && r.value.timestamp == e.timestamp
                           && r.value.absentees == e.absentees
                           && r.value.attendees == e.attendees - {u.id}
  {
    if u.id !in e.attendees then Failure(KeyError)
    else Success(e.(attendees := e.attendees - {u.id}))
  }

  /** The membership of user `k` in `e`: attending, absent, both or neither. */
  function Membership(e: Event, k: UserId): (bool, bool)
  {
    (k in e.attendees, k in e.absentees)
  }

  /** Each membership operation changes the membership of its own user only,
      and keeps every other member's record. */
  lemma {:induction false} OthersUnchanged(e: Event, u: User, k: UserId)
    requires k != u.id
    ensures Membership(AddAttendee(e, u), k) == Membership(e, k)
    ensures Membership(AddAbsentee(e, u), k) == Membership(e, k)
    ensures RemoveAbsentee(e, u).Success? ==> Membership(RemoveAbsentee(e, u).value, k) == Membership(e, k)
    ensures RemoveAttendee(e, u).Success? ==> Membership(RemoveAttendee(e, u).value, k) == Membership(e, k)
    ensures k in e.absentees ==> AddAttendee(e, u).absentees[k] == e.absentees[k]
    ensures k in e.absentees ==> AddAbsentee(e, u).absentees[k] == e.absentees[k]
  {
  }

  /** `add_attendee` keeps the two sets disjoint. */
  lemma AddAttendeeKeepsDisjoint(e: Event, u: User)
    requires Disjoint(e)
    ensures Disjoint(AddAttendee(e, u))
  {
  }

  /** `remove_attendee` keeps the two sets disjoint. */
  lemma RemoveAttendeeKeepsDisjoint(e: Event, u: User)
    requires Disjoint(e) && u.id in e.attendees
    ensures Disjoint(RemoveAttendee(e, u).value)
  {
  }

  /** `add_absentee` keeps the sets disjoint exactly when the user did not
      attend beforehand. */
  lemma AddAbsenteeDisjointIff(e: Event, u: User)
    requires Disjoint(e)
    ensures Disjoint(AddAbsentee(e, u)) <==> u.id !in e.attendees
  {
    if u.id in e.attendees {
      assert u.id in AddAbsentee(e, u).attendees.Keys * AddAbsentee(e, u).absentees.Keys;
    }
  }

  /** The operations keep every member under its own id. */
  lemma OperationsKeepWellFormed(e: Event, u: User)
    requires WellFormed(e)
    ensures WellFormed(AddAttendee(e, u)) && WellFormed(AddAbsentee(e, u))
    ensures RemoveAttendee(e, u).Success? ==> WellFormed(RemoveAttendee(e, u).value)
    ensures RemoveAbsentee(e, u).Success? ==> WellFormed(RemoveAbsentee(e, u).value)
  {
  }

  /** Attending, then withdrawing and declaring absence, then attending again:
      the user ends where each step put them, the sets stay disjoint and
      nobody else moves. */
  lemma AttendToggleRoundTrip(e: Event, u: User, k: UserId)
    requires Disjoint(e) && k != u.id
    ensures var e1 := AddAttendee(e, u);
            var e2 := AddAbsentee(RemoveAttendee(e1, u).value, u);
            var e3 := AddAttendee(e2, u);
            && u.id in e1.attendees && u.id !in e1.absentees
            && u.id !in e2.attendees && u.id in e2.absentees && Disjoint(e2)
            && u.id in e3.attendees && u.id !in e3.absentees && Disjoint(e3)
            && Membership(e3, k) == Membership(e, k)
  {
    var e1 := AddAttendee(e, u);
    AddAttendeeKeepsDisjoint(e, u);
    var e1r := RemoveAttendee(e1, u).value;
    RemoveAttendeeKeepsDisjoint(e1, u);
    AddAbsenteeDisjointIff(e1r, u);
    var e2 := AddAbsentee(e1r, u);
    AddAttendeeKeepsDisjoint(e2, u);
  }

  // ---------------------------------------------------------------------
  // Snapshot form
  // ---------------------------------------------------------------------

  /** The `date_format` timestamps are written and read with. */
  const DateFormat: string := "%d.%m.%Y"

  /** A non-empty event dictionary; a missing `timestamp` is `None`, a missing
      list is empty (`json_object.get("attendees", [])`). */
  datatype EventJson = EventJson(
    timestamp: Option<string>,
    attendees: seq<UserJson>,
    absentees: seq<UserJson>)

  /** Why a stored event could not be loaded: `strptime` of `None` raises
      `TypeError`, of a malformed date `ValueError`. */
  datatype LoadError = MissingTimestamp | BadTimestamp(text: string)

  function SerializeMembers(m: map<UserId, User>, order: seq<UserId>): (r: seq<UserJson>)
    requires forall i :: 0 <= i < |order| ==> order[i] in m
    ensures |r| == |order|
    ensures forall i :: 0 <= i < |order| ==> r[i] == Serialize(m[order[i]])
  {
    if |order| == 0 then [] else [Serialize(m[order[0]])] + SerializeMembers(m, order[1..])
  }

  /** The order in which Python iterates an event's two sets. */
  datatype Listing = Listing(attendeeOrder: seq<UserId>, absenteeOrder: seq<UserId>)

  ghost predicate Lists(l: Listing, e: Event)
  {
    Enumerates(l.attendeeOrder, e.attendees.Keys) && Enumerates(l.absenteeOrder, e.absentees.Keys)
  }

  /** `Event.serialize`, the sets written in the order `l` gives. */
  function SerializeEvent(e: Event, l: Listing): (j: EventJson)
    requires Lists(l, e)
    ensures j.timestamp == Some(FormatDate(e.timestamp))
    ensures |j.attendees| == |e.attendees| && |j.absentees| == |e.absentees|
  {
    EnumerationSize(l.attendeeOrder, e.attendees.Keys);
    EnumerationSize(l.absenteeOrder, e.absentees.Keys);
    EnumeratedKeys(l.attendeeOrder, e.attendees.Keys);
    EnumeratedKeys(l.absenteeOrder, e.absentees.Keys);
    EventJson(Some(FormatDate(e.timestamp)),
              SerializeMembers(e.attendees, l.attendeeOrder),
              SerializeMembers(e.absentees, l.absenteeOrder))
  }

  /** `set([User.deserialize(d) for d in ds])`: one member per id, the first
      dictionary with that id winning. */
  function LoadMembers(ds: seq<UserJson>): (m: map<UserId, User>)
    ensures forall k :: k in m <==> exists i :: 0 <= i < |ds| && ds[i].id == k
    ensures forall k :: k in m ==> m[k].id == k
  {
    if |ds| == 0 then map[]
    else
      var rest := LoadMembers(ds[1..]);
      assert forall k :: k in rest ==> exists i :: 0 <= i < |ds| && ds[i].id == k by {
        forall k | k in rest ensures exists i :: 0 <= i < |ds| && ds[i].id == k {
          var i :| 0 <= i < |ds[1..]| && ds[1..][i].id == k;
          assert ds[i + 1].id == k;
        }
      }
      rest[ds[0].id := Deserialize(ds[0])]
  }

  /** `Event.deserialize`: `None` for a missing or empty dictionary; the
      timestamp parsed with `DateFormat`; errors as Python raises them. */
  function DeserializeEvent(j: Option<EventJson>): (r: Result<Option<Event>, LoadError>)
    ensures j.None? ==> r == Success(None)
    ensures j.Some? && j.value.timestamp.None? ==> r == Failure(MissingTimestamp)
    ensures r.Success? && r.value.Some? ==> WellFormed(r.value.value)
  {
    match j
    case None => Success(None)
    case Some(EventJson(ts, attendees, absentees)) =>
      match ts
      case None => Failure(MissingTimestamp)
      case Some(text) =>
        match ParseDate(text)
        case None => Failure(BadTimestamp(text))
        case Some(day) => Success(Some(Event(day, LoadMembers(attendees), LoadMembers(absentees))))
  }

  /** The members as a snapshot keeps them. */
  function PersistedMembers(m: map<UserId, User>): map<UserId, User>
  {
    map k | k in m :: Persisted(m[k])
  }

  function PersistedEvent(e: Event): Event
  {
    e.(attendees := PersistedMembers(e.attendees), absentees := PersistedMembers(e.absentees))
  }

  /** Serializing under a listing that avoids key `k` does not look at `k`. */
  lemma SerializeMembersFrame(m: map<UserId, User>, k: UserId, order: seq<UserId>)
    requires forall i :: 0 <= i < |order| ==> order[i] in m && order[i] != k
    ensures SerializeMembers(m - {k}, order) == SerializeMembers(m, order)
  {
    var a := SerializeMembers(m - {k}, order);
    var b := SerializeMembers(m, order);
    forall i | 0 <= i < |order| ensures a[i] == b[i] {
      assert (m - {k})[order[i]] == m[order[i]];
    }
  }

  /** Loading a list that starts with `x` puts `x` over the rest. */
  lemma LoadMembersCons(x: UserJson, ds: seq<UserJson>)
    ensures LoadMembers([x] + ds) == LoadMembers(ds)[x.id := Deserialize(x)]
  {
    assert ([x] + ds)[1..] == ds;
  }

  /** Taking one member out and putting its snapshot back. */
  lemma PersistedMembersSplit(m: map<UserId, User>, k: UserId)
    requires k in m
    ensures PersistedMembers(m) == PersistedMembers(m - {k})[k := Persisted(m[k])]
  {
  }

  lemma {:induction false} LoadSerializedMembers(m: map<UserId, User>, order: seq<UserId>)
    requires forall k :: k in m ==> m[k].id == k
    requires Enumerates(order, m.Keys)
    ensures forall i :: 0 <= i < |order| ==> order[i] in m
    ensures LoadMembers(SerializeMembers(m, order)) == PersistedMembers(m)
    decreases |order|
  {
    EnumeratedKeys(order, m.Keys);
    if |order| == 0 {
      EnumerationSize(order, m.Keys);
      assert m == map[];
    } else {
      var k0 := order[0];
      var rest := m - {k0};
      EnumeratesTail(order, m.Keys);
      assert rest.Keys == m.Keys - {k0};
      var tail := order[1..];
      assert forall i :: 0 <= i < |tail| ==> tail[i] in m && tail[i] != k0 by {
        forall i | 0 <= i < |tail| ensures tail[i] in m && tail[i] != k0 {
          assert tail[i] == order[i + 1];
        }
      }
      SerializeMembersFrame(m, k0, tail);
      assert SerializeMembers(m, order) == [Serialize(m[k0])] + SerializeMembers(rest, tail);
      LoadSerializedMembers(rest, tail);
      LoadMembersCons(Serialize(m[k0]), SerializeMembers(rest, tail));
      SerializeRoundTrip(m[k0]);
      PersistedMembersSplit(m, k0);
    }
  }

  /** Loading a saved event gives back the same Monday and the same members,
      minus their messages and spam flags, whatever order the sets were
      written in. */
  lemma EventRoundTrip(e: Event, l: Listing)
    requires WellFormed(e) && Lists(l, e)
    ensures DeserializeEvent(Some(SerializeEvent(e, l))) == Success(Some(PersistedEvent(e)))
  {
    FormatParseRoundTrip(e.timestamp);
    LoadSerializedMembers(e.attendees, l.attendeeOrder);
    LoadSerializedMembers(e.absentees, l.absenteeOrder);
  }

  // ---------------------------------------------------------------------
  // User.get_attended_events
  // ---------------------------------------------------------------------

  /** `user.get_attended_events(events)`: the events the user attends, in the
      order given. */
  function AttendedEvents(u: User, events: seq<Event>): (r: seq<Event>)
    ensures |r| <= |events|
    ensures forall x :: x in r <==> x in events && u.id in x.attendees
  {
    if |events| == 0 then []
    else
      var rest := AttendedEvents(u, events[1..]);
      assert forall x :: x in events <==> x == events[0] || x in events[1..];
      if u.id in events[0].attendees then [events[0]] + rest else rest
  }

  /** Filtering a joined history is joining the filtered parts, so the result
      keeps the history's order. */
  lemma {:induction false} AttendedEventsAppend(u: User, a: seq<Event>, b: seq<Event>)
    ensures AttendedEvents(u, a + b) == AttendedEvents(u, a) + AttendedEvents(u, b)
    decreases |a|
  {
    if |a| == 0 {
      assert a + b == b;
    } else {
      assert (a + b)[1..] == a[1..] + b;
      AttendedEventsAppend(u, a[1..], b);
    }
  }

  /** The events a user attends are exactly those of a one-event history
      that lists them. */
  lemma AttendedEventsSingle(u: User, e: Event)
    ensures AttendedEvents(u, [e]) == (if u.id in e.attendees then [e] else [])
  {
    assert [e][1..] == [];
  }
}
