/** `cocktails.py`: the `Cocktail` record read from the backend's GraphQL
    response, its one-line rendering, and the mapping from a parsed response
    to a list of cocktails. The request itself is not part of this model: the
    parsed response is an input, `None` when the request or the JSON parse
    failed. */
module Cocktails {
  import opened Wrappers
  import opened Strings
  import opened Seqs

  /** A `Cocktail`. Nothing checks the annotated types, so each field holds
      whatever the response held, `None` for a missing or null one. */
  datatype Cocktail = Cocktail(name: Option<string>, jumbo: Option<bool>, alcoholic: Option<bool>)

  /** One element of `data.cocktails` as a JSON object, each `get` already
      applied: `None` for a key that is missing or null. */
  datatype CocktailDict = CocktailDict(name: Option<string>, jumbo: Option<bool>, alcoholic: Option<bool>)

  /** `Cocktail.from_dict`: copies the three keys. */
  function FromDict(d: CocktailDict): (c: Cocktail)
    ensures c.name == d.name && c.jumbo == d.jumbo && c.alcoholic == d.alcoholic
  {
    Cocktail(d.name, d.jumbo, d.alcoholic)
  }

  /** The object a cocktail is read from, key for key. */
  function ToDict(c: Cocktail): (d: CocktailDict)
    ensures d.name == c.name && d.jumbo == c.jumbo && d.alcoholic == c.alcoholic
  {
    CocktailDict(c.name, c.jumbo, c.alcoholic)
  }

  /** `from_dict` loses nothing: it is a bijection between objects and
      cocktails. */
  lemma FromDictRoundTrip(d: CocktailDict, c: Cocktail)
    ensures ToDict(FromDict(d)) == d
    ensures FromDict(ToDict(c)) == c
  {
  }

  const JumboMark: string := "(Jumbo)"
  const NonAlcoholicMark: string := "💔"

  /** `str(cocktail)`: name, jumbo mark and non-alcoholic mark joined by
      single spaces, an absent mark being the empty string. Only `True`
      counts as jumbo, while anything but `True` (including a missing value)
      counts as non-alcoholic. A missing name makes `join` raise `TypeError`,
      which is `None`. */
  function Str(c: Cocktail): (r: Option<string>)
    ensures r.None? <==> c.name.None?
    ensures r.Some? ==> r.value == Join([c.name.value, JumboPart(c), AlcoholPart(c)], " ")
  {
    match c.name
    case None => None
    case Some(n) => Some(Join([n, JumboPart(c), AlcoholPart(c)], " "))
  }

  function JumboPart(c: Cocktail): (p: string)
    ensures p == JumboMark <==> c.jumbo == Some(true)
    ensures p == "" <==> c.jumbo != Some(true)
  {
    if c.jumbo == Some(true) then JumboMark else ""
  }

  function AlcoholPart(c: Cocktail): (p: string)
    ensures p == NonAlcoholicMark <==> c.alcoholic != Some(true)
    ensures p == "" <==> c.alcoholic == Some(true)
  {
    if c.alcoholic == Some(true) then "" else NonAlcoholicMark
  }

  /** Reads a rendering back into its name and its two flags: the last
      space-separated part is the non-alcoholic mark or empty, the one
      before it the jumbo mark or empty, and the rest is the name (which may
      itself hold spaces). */
  function ParseStr(s: string): (r: Option<(string, bool, bool)>)
  {
    var alcoholic := !EndsWith(s, " " + NonAlcoholicMark);
    if !alcoholic || EndsWith(s, " ") then
      var rest := if alcoholic then s[..|s| - 1] else s[..|s| - 2];
      var jumbo := EndsWith(rest, " " + JumboMark);
      if jumbo then Some((rest[..|rest| - 8], true, alcoholic))
      else if EndsWith(rest, " ") then Some((rest[..|rest| - 1], false, alcoholic))
      else None
    else None
  }

  /** The rendering of a named cocktail says what its name is, whether it is
      a jumbo and whether it is alcoholic: "(Jumbo)" appears exactly for a
      jumbo and the heart exactly for a non-alcoholic one. */
  lemma StrParses(c: Cocktail)
    requires c.name.Some?
    ensures ParseStr(Str(c).value) == Some((c.name.value, c.jumbo == Some(true), c.alcoholic == Some(true)))
  {
    var n := c.name.value;
    var j := JumboPart(c);
    var a := AlcoholPart(c);
    Join3(n, j, a, " ");
    var s := n + " " + j + " " + a;
    assert Str(c).value == s;
    var rest := n + " " + j;
    if a == "" {
      assert s == rest + " ";
      assert s[..|s| - 1] == rest;
      assert !EndsWith(s, " " + NonAlcoholicMark) by {
        assert s[|s| - 1] == ' ';
      }
    } else {
      assert s == rest + " " + NonAlcoholicMark;
      assert s[|s| - 2..] == " " + NonAlcoholicMark;
      assert s[..|s| - 2] == rest;
    }
    if j == "" {
      assert rest == n + " ";
      assert rest[..|rest| - 1] == n;
      assert !EndsWith(rest, " " + JumboMark) by {
        assert rest[|rest| - 1] == ' ';
      }
    } else {
      assert rest[|rest| - 8..] == " " + JumboMark;
      assert rest[..|rest| - 8] == n;
    }
  }

  /** A value in a JSON object: missing, `null`, or present. */
  datatype Field<T> = Absent | Null | Present(value: T)

  /** The parsed response: whether `errors` is truthy, and `data`, whose
      `cocktails` key is itself a field. */
  datatype Response = Response(errors: bool, data: Field<Field<seq<CocktailDict>>>)

  /** `get_cocktails` from the parsed response on: `None` when the response
      reports errors, when there was no response, or when `data` or
      `cocktails` is `null` (the `AttributeError` and `TypeError` the `except`
      swallows); a missing key counts as empty. */
  function GetCocktails(resp: Option<Response>): (r: Option<seq<Cocktail>>)
    ensures resp.None? ==> r.None?
    ensures resp.Some? && resp.value.errors ==> r.None?
    ensures resp.Some? && !resp.value.errors ==>
              match resp.value.data
              case Absent => r == Some([])
              case Null => r.None?
              case Present(Absent) => r == Some([])
              case Present(Null) => r.None?
              case Present(Present(ds)) =>
                r.Some? && |r.value| == |ds| && forall i :: 0 <= i < |ds| ==> r.value[i] == FromDict(ds[i])
  {
    match resp
    case None => None
    case Some(res) =>
      if res.errors then None
      else
        var cocktails := match res.data
          case Absent => Present([])
          case Null => Null
          case Present(d) => if d.Absent? then Present([]) else d;
        match cocktails
        case Present(ds) => Some(Map(FromDict, ds))
        case _ => None
  }

  /** The cocktails come back in the response's order and read back to its
      objects. */
  lemma GetCocktailsRoundTrip(ds: seq<CocktailDict>)
    ensures GetCocktails(Some(Response(false, Present(Present(ds))))).Some?
    ensures Map(ToDict, GetCocktails(Some(Response(false, Present(Present(ds))))).value) == ds
  {
    var r := GetCocktails(Some(Response(false, Present(Present(ds))))).value;
    assert Map(ToDict, r) == ds by {
      forall i | 0 <= i < |ds| ensures Map(ToDict, r)[i] == ds[i] {
        FromDictRoundTrip(ds[i], r[i]);
      }
    }
  }
}
