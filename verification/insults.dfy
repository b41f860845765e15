/** `insult.py`: the insult list kept in the file `insults`, one insult per
    line, and the class-level cache of it. The file is modelled by its text;
    reading and appending are functions of that text, and the random choice
    is an input. */
module Insults {
  import opened Wrappers
  import opened Strings
  import opened Seqs

  /** Position of the last line break in `s`, if there is one. */
  function LastNewline(s: string): (r: Option<nat>)
    ensures r.None? <==> '\n' !in s
    ensures r.Some? ==> r.value < |s| && s[r.value] == '\n' && '\n' !in s[r.value + 1..]
  {
    if |s| == 0 then None
    else if s[|s| - 1] == '\n' then Some(|s| - 1)
    else
      var r := LastNewline(s[..|s| - 1]);
      assert s == s[..|s| - 1] + [s[|s| - 1]];
      if r.Some? then
        assert s[r.value + 1..] == s[..|s| - 1][r.value + 1..] + [s[|s| - 1]];
        r
      else r
  }

  /** The text split at line breaks. `readlines` keeps each break at the end
      of its line and yields no empty last line; both differences vanish once
      every line is stripped and blank ones are dropped. */
  function Lines(s: string): (ls: seq<string>)
    ensures |ls| > 0
    ensures forall i :: 0 <= i < |ls| ==> '\n' !in ls[i]
    decreases |s|
  {
    match LastNewline(s)
    case None => [s]
    case Some(i) => Lines(s[..i]) + [s[i + 1..]]
  }

  /** Putting the lines back together with line breaks gives the text. */
  lemma {:induction false} LinesJoin(s: string)
    ensures Join(Lines(s), "\n") == s
    decreases |s|
  {
    match LastNewline(s)
    case None =>
    case Some(i) =>
      var head, last := s[..i], s[i + 1..];
      LinesJoin(head);
      assert s == head + "\n" + last;
      JoinLine(Lines(head), head, last, s);
  }

  /** One more line joined after lines that make up `head`. */
  lemma JoinLine(ls: seq<string>, head: string, last: string, s: string)
    requires |ls| > 0 && Join(ls, "\n") == head && s == head + "\n" + last
    ensures Join(ls + [last], "\n") == s
  {
    JoinSnoc(ls, last, "\n");
  }

  /** Appending a line break and a line without one adds that line. */
  lemma LinesAppend(file: string, text: string)
    requires '\n' !in text
    ensures Lines(file + "\n" + text) == Lines(file) + [text]
  {
    var s := file + "\n" + text;
    assert s[|file|] == '\n';
    assert s[|file| + 1..] == text;
    assert s[..|file|] == file;
    assert LastNewline(s) == Some(|file|);
  }

  predicate NonBlank(line: string) { line != "" }

  /** `read_all`: the stripped, non-blank lines in file order (the new
      cache). */
  function ReadAll(file: string): (insults: seq<string>)
    ensures forall i :: 0 <= i < |insults| ==> insults[i] != "" && Strip(insults[i]) == insults[i]
  {
    StrippedKept(Lines(file));
    Filter(NonBlank, Map(Strip, Lines(file)))
  }

  /** The stripped, non-blank lines are non-empty and stripped. */
  lemma StrippedKept(lines: seq<string>)
    ensures var ins := Filter(NonBlank, Map(Strip, lines));
            forall i :: 0 <= i < |ins| ==> ins[i] != "" && Strip(ins[i]) == ins[i]
  {
    var stripped := Map(Strip, lines);
    var ins := Filter(NonBlank, stripped);
    forall i | 0 <= i < |ins| ensures ins[i] != "" && Strip(ins[i]) == ins[i] {
      assert NonBlank(ins[i]) && ins[i] in stripped;
      var j :| 0 <= j < |stripped| && stripped[j] == ins[i];
      assert stripped[j] == Strip(lines[j]);
      StripIdempotent(lines[j]);
    }
  }

  /** White space beyond ASCII counts as blank: a file of a no-break space
      and, on the next line, an ideographic space holds no insult. */
  lemma UnicodeBlankDropped()
    ensures ReadAll("\U{A0}\n\U{3000}") == []
  {
    var first, second := "\U{A0}", "\U{3000}";
    assert first + "\n" + second == "\U{A0}\n\U{3000}";
    LinesAppend(first, second);
    assert Lines(first) == [first];
    assert Strip(first) == "" && Strip(second) == "";
    assert Map(Strip, [first, second]) == ["", ""];
  }

  /** Stripping a stripped string changes nothing. */
  lemma StripIdempotent(s: string)
    ensures Strip(Strip(s)) == Strip(s)
  {
    var t := Strip(s);
    if |t| > 0 {
      var l := TrimLeft(s);
      assert t == l[..|t|];
      assert t[0] == l[0];
    }
    StripStripped(t);
  }

  /** An insult written as its own line is read back at the end. */
  lemma ReadAllAppend(file: string, text: string)
    requires '\n' !in text && text != "" && Strip(text) == text
    ensures ReadAll(file + "\n" + text) == ReadAll(file) + [text]
  {
    LinesAppend(file, text);
    MapAppend(Strip, Lines(file), [text]);
    FilterAppend(NonBlank, Map(Strip, Lines(file)), [text]);
    assert Map(Strip, [text]) == [text];
  }

  /** The cache and the file after `add`, and what `add` returned. */
  datatype Added = Added(cache: seq<string>, file: string, added: bool)

  /** `Insult.add(text)`: an empty cache is first reloaded from the file;
      text already in the cache is refused; new text goes to the end of the
      cache and, after a line break, to the end of the file. */
  function Add(cache: seq<string>, file: string, text: string): (r: Added)
    ensures var loaded := if |cache| == 0 then ReadAll(file) else cache;
            && (text in loaded ==> r == Added(loaded, file, false))
            && (text !in loaded ==> r == Added(loaded + [text], file + "\n" + text, true))
  {
    var loaded := if |cache| == 0 then ReadAll(file) else cache;
    if text in loaded then Added(loaded, file, false)
    else Added(loaded + [text], file + "\n" + text, true)
  }

  /** The cache mirrors the file, or has not been loaded yet. */
  predicate InSync(cache: seq<string>, file: string)
  {
    |cache| == 0 || cache == ReadAll(file)
  }

  /** `add` keeps the cache in step with the file for an insult that is one
      stripped, non-empty line, and afterwards the cache is loaded. */
  lemma AddKeepsSync(cache: seq<string>, file: string, text: string)
    requires InSync(cache, file)
    requires '\n' !in text && text != "" && Strip(text) == text
    ensures Add(cache, file, text).cache == ReadAll(Add(cache, file, text).file)
  {
    var r := Add(cache, file, text);
    if r.added {
      ReadAllAppend(file, text);
    }
  }

  /** Adding the same text twice: the second call refuses it and changes
      nothing. */
  lemma AddTwice(cache: seq<string>, file: string, text: string)
    ensures var once := Add(cache, file, text);
            Add(once.cache, once.file, text) == Added(once.cache, once.file, false)
  {
    var once := Add(cache, file, text);
    assert |once.cache| > 0 && text in once.cache;
  }

  /** `randint(0, len - 1)` on an empty list raises `ValueError`. */
  datatype EmptyRange = EmptyRange

  /** What `Insult.random()` leaves behind: the reloaded cache and the
      drawn insult, or the failure of the draw. */
  datatype Drawn = Drawn(cache: seq<string>, insult: Result<string, EmptyRange>)

  /** `Insult.random()`: reloads the list, which replaces the cache even
      when the draw then fails, and returns the entry at the drawn index,
      `draw` standing for what `randint` picked. */
  function Random(file: string, draw: nat): (r: Drawn)
    requires |ReadAll(file)| > 0 ==> draw < |ReadAll(file)|
    ensures r.cache == ReadAll(file)
    ensures r.insult.Failure? <==> |ReadAll(file)| == 0
    ensures r.insult.Success? ==> r.insult.value in ReadAll(file) && r.insult.value == ReadAll(file)[draw]
  {
    var insults := ReadAll(file);
    Drawn(insults, if |insults| == 0 then Failure(EmptyRange) else Success(insults[draw]))
  }

  /** After a draw the cache mirrors the file, and adding the drawn insult
      again is refused and changes nothing. */
  lemma RandomThenAdd(file: string, draw: nat)
    requires |ReadAll(file)| > 0 ==> draw < |ReadAll(file)|
    ensures InSync(Random(file, draw).cache, file)
    ensures var r := Random(file, draw);
            r.insult.Success? ==> Add(r.cache, file, r.insult.value) == Added(r.cache, file, false)
  {
  }

  /** An insult that was added can be drawn. */
  lemma AddedCanBeDrawn(cache: seq<string>, file: string, text: string)
    requires InSync(cache, file)
    requires '\n' !in text && text != "" && Strip(text) == text
    ensures var r := Add(cache, file, text);
            exists i :: 0 <= i < |ReadAll(r.file)| && Random(r.file, i).insult == Success(text)
  {
    var r := Add(cache, file, text);
    AddKeepsSync(cache, file, text);
    var all := ReadAll(r.file);
    assert text in r.cache;
    var i :| 0 <= i < |all| && all[i] == text;
    var drawn := Random(r.file, i);
    assert drawn.insult.Success? && drawn.insult.value == all[i];
  }
}
