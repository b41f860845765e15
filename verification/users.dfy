/** A participant of one chat (`dicers_bot/user.py`): identity, the roll of
    the running event, drink preference and moderation flags. */
module Users {
  import opened Wrappers
  import opened Strings

  /** Telegram user ids. */
  type UserId = int

  /** A chat message the bot has seen from a user. */
  datatype Message = Message(messageId: int, text: string)

  /** `User`. `roll` is -1 while unset. The wrapped Telegram user object is
      not modelled. */
  datatype User = User(
    name: string,
    id: UserId,
    roll: int,
    jumbo: bool,
    alcoholic: bool,
    muted: bool,
    spamming: bool,
    drink: Option<string>,
    messages: set<Message>)

  /** The roll value meaning "has not rolled". */
  const NoRoll: int := -1

  /** `User(name, id)`: a user with no roll, a normal-size, alcoholic drink
      preference, not muted, not spamming, no drink chosen and no messages. */
  function NewUser(name: string, id: UserId): (u: User)
    ensures u.name == name && u.id == id
    ensures u.roll == NoRoll && !u.jumbo && u.alcoholic
    ensures !u.muted && !u.spamming && u.drink == None && u.messages == {}
  {
    User(name, id, NoRoll, false, true, false, false, None, {})
  }

  /** `set_roll`. */
  function SetRoll(u: User, roll: int): (r: User)
    ensures r.roll == roll
    ensures r.(roll := u.roll) == u
  {
    u.(roll := roll)
  }

  /** `set_jumbo`. */
  function SetJumbo(u: User, jumbo: bool): (r: User)
    ensures r.jumbo == jumbo
    ensures r.(jumbo := u.jumbo) == u
  {
    u.(jumbo := jumbo)
  }

  /** `set_alcoholic`. */
  function SetAlcoholic(u: User, alcoholic: bool): (r: User)
    ensures r.alcoholic == alcoholic
    ensures r.(alcoholic := u.alcoholic) == u
  {
    u.(alcoholic := alcoholic)
  }

  /** Each setter changes its own field only: the three setters commute, and
      none changes who the user is. */
  lemma SettersIndependent(u: User, roll: int, jumbo: bool, alcoholic: bool)
    ensures SetRoll(SetJumbo(u, jumbo), roll) == SetJumbo(SetRoll(u, roll), jumbo)
    ensures SetRoll(SetAlcoholic(u, alcoholic), roll) == SetAlcoholic(SetRoll(u, roll), alcoholic)
    ensures SetJumbo(SetAlcoholic(u, alcoholic), jumbo) == SetAlcoholic(SetJumbo(u, jumbo), alcoholic)
    ensures SetRoll(u, roll).jumbo == u.jumbo && SetRoll(u, roll).alcoholic == u.alcoholic
    ensures SetJumbo(u, jumbo).roll == u.roll && SetJumbo(u, jumbo).alcoholic == u.alcoholic
    ensures SetAlcoholic(u, alcoholic).roll == u.roll && SetAlcoholic(u, alcoholic).jumbo == u.jumbo
    ensures Equals(u, AUser(SetRoll(SetJumbo(SetAlcoholic(u, alcoholic), jumbo), roll)))
  {
  }

  /** The right-hand side of `==`: a `User` or some other Python object. */
  datatype Operand = AUser(user: User) | NotAUser

  /** `User.__eq__`: equal exactly when the other side is a user with the
      same id. */
  predicate Equals(u: User, other: Operand)
  {
    match other
    case AUser(v) => v.id == u.id
    case NotAUser => false
  }

  /** `__eq__` is an equivalence on users that ignores every field but `id`,
      and a non-user is never equal to a user. */
  lemma EqualsIsIdentity(a: User, b: User, c: User)
    ensures Equals(a, AUser(b)) <==> a.id == b.id
    ensures !Equals(a, NotAUser)
    ensures Equals(a, AUser(a))
    ensures Equals(a, AUser(b)) ==> Equals(b, AUser(a))
    ensures Equals(a, AUser(b)) && Equals(b, AUser(c)) ==> Equals(a, AUser(c))
    ensures Equals(a, AUser(a.(name := b.name, roll := b.roll, muted := b.muted)))
  {
  }

  // ---------------------------------------------------------------------
  // __str__
  // ---------------------------------------------------------------------

  function RollText(u: User): string
  {
    (if u.roll != NoRoll then IntToString(u.roll) else "no roll") + (if u.jumbo then " (+1)" else "")
  }

  function MutedText(u: User): string
  {
    if u.muted then "muted" else "not muted"
  }

  /** `str(user)`: `<name | roll | muted>`. */
  function Describe(u: User): string
  {
    "<" + Join([u.name, RollText(u), MutedText(u)], " | ") + ">"
  }

  /** `str(user)` is the name and roll part followed by the muted part. */
  lemma DescribeShape(u: User)
    ensures Describe(u) == ("<" + u.name + " | " + RollText(u)) + (" | " + MutedText(u) + ">")
  {
    Join3(u.name, RollText(u), MutedText(u), " | ");
  }

  /** `str(user)` opens with the name and closes with the muted part. */
  lemma DescribeFrame(u: User)
    ensures StartsWith(Describe(u), "<" + u.name + " | ")
    ensures EndsWith(Describe(u), " | " + MutedText(u) + ">")
  {
    DescribeShape(u);
    var pre := "<" + u.name + " | " + RollText(u);
    var tail := " | " + MutedText(u) + ">";
    assert Describe(u)[..|"<" + u.name + " | "|] == pre[..|"<" + u.name + " | "|];
    assert Describe(u)[|Describe(u)| - |tail|..] == tail;
  }

  /** The text of `str(user)` starts with the name and tells whether the user
      is muted: it ends in `| muted>` exactly when they are. */
  lemma DescribeShowsMuted(u: User)
    ensures StartsWith(Describe(u), "<" + u.name + " | ")
    ensures u.muted <==> EndsWith(Describe(u), "| muted>")
    ensures !u.muted <==> EndsWith(Describe(u), "not muted>")
  {
    DescribeFrame(u);
    if u.muted {
      MutedSuffixes(Describe(u));
    } else {
      NotMutedSuffixes(Describe(u));
    }
  }

  lemma MutedSuffixes(s: string)
    requires EndsWith(s, " | " + "muted" + ">")
    ensures EndsWith(s, "| muted>") && !EndsWith(s, "not muted>")
  {
    assert " | " + "muted" + ">" == " | muted>";
    EndsWithWithin(s, " | muted>", "| muted>");
    assert s[|s| - 9] == ' ';
  }

  lemma NotMutedSuffixes(s: string)
    requires EndsWith(s, " | " + "not muted" + ">")
    ensures !EndsWith(s, "| muted>") && EndsWith(s, "not muted>")
  {
    assert " | " + "not muted" + ">" == " | not muted>";
    EndsWithWithin(s, " | not muted>", "not muted>");
    assert s[|s| - 8] == 't';
  }

  /** An unset roll is shown as `no roll`, a set one by its value; `(+1)`
      marks a jumbo drink. */
  lemma DescribeShowsRoll(u: User)
    ensures u.roll == NoRoll ==> RollText(u) == "no roll" + (if u.jumbo then " (+1)" else "")
    ensures u.roll != NoRoll ==> ParseInt(RollText(u)[..|IntToString(u.roll)|]) == Some(u.roll)
  {
    if u.roll != NoRoll {
      IntRoundTrip(u.roll);
      assert RollText(u)[..|IntToString(u.roll)|] == IntToString(u.roll);
    }
  }

  // ---------------------------------------------------------------------
  // Snapshot form
  // ---------------------------------------------------------------------

  /** The dictionary `serialize` writes and `deserialize` reads. A field that
      is missing from a loaded dictionary is `None`; `drink_name` is `None`
      both when missing and when null. An explicit null in any other field
      is outside the model. `name` and `id` are always present here, as
      `serialize` writes them; `deserialize` would load a missing one as
      `None`. */
  datatype UserJson = UserJson(
    name: string,
    id: UserId,
    roll: Option<int>,
    jumbo: Option<bool>,
    muted: Option<bool>,
    alcoholic: Option<bool>,
    drinkName: Option<string>)

  /** `User.serialize`: every field but the messages and the spam flag. */
  function Serialize(u: User): (j: UserJson)
    ensures j.name == u.name && j.id == u.id
    ensures j.roll.Some? && j.jumbo.Some? && j.muted.Some? && j.alcoholic.Some?
  {
    UserJson(u.name, u.id, Some(u.roll), Some(u.jumbo), Some(u.muted), Some(u.alcoholic), u.drink)
  }

  /** `User.deserialize`: a missing field takes the constructor's default. */
  function Deserialize(j: UserJson): (u: User)
    ensures u.name == j.name && u.id == j.id
    ensures u.messages == {} && !u.spamming
  {
    var base := NewUser(j.name, j.id);
    base.(
      muted := j.muted.GetOr(false),
      roll := j.roll.GetOr(NoRoll),
      jumbo := j.jumbo.GetOr(false),
      alcoholic := j.alcoholic.GetOr(true),
      drink := j.drinkName)
  }

  /** What of a user survives a snapshot: everything but messages and the
      spam flag. */
  function Persisted(u: User): (p: User)
    ensures p.messages == {} && !p.spamming
  {
    u.(messages := {}, spamming := false)
  }

  /** Loading what was saved gives back the user minus messages and spam flag. */
  lemma SerializeRoundTrip(u: User)
    ensures Deserialize(Serialize(u)) == Persisted(u)
    ensures Equals(u, AUser(Deserialize(Serialize(u))))
  {
  }

  /** The same dictionary with every missing field filled with its default. */
  function Completed(j: UserJson): UserJson
  {
    j.(roll := Some(j.roll.GetOr(NoRoll)),
       jumbo := Some(j.jumbo.GetOr(false)),
       muted := Some(j.muted.GetOr(false)),
       alcoholic := Some(j.alcoholic.GetOr(true)))
  }

  /** Saving what was loaded fills in the defaults and changes nothing else. */
  lemma DeserializeRoundTrip(j: UserJson)
    ensures Serialize(Deserialize(j)) == Completed(j)
  {
  }

  /** A dictionary with only `name` and `id` loads as a freshly constructed
      user: the loading defaults are the constructor's defaults. */
  lemma DefaultsMatchConstructor(name: string, id: UserId)
    ensures Deserialize(UserJson(name, id, None, None, None, None, None)) == NewUser(name, id)
  {
  }
}
