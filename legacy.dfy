/** The older parser of dictionaryparser/__init__.py. It has no inflection
    lists, and it nests every indented Definition inside the entry before it
    (`alternate_forms`) instead of linking it back through a `parent` field.

    `Classify`, `Attach` and `Run` are the pure specification; the class
    `Parser` drains its lines the way the source drains its deque and is
    proved to compute `ParseLines` of the lines it started with. */
module LegacyParser {
  import opened Text
  import opened Values
  import opened Lexicon

  /** One parsed dictionary record, with the alternate forms nested in it. */
  datatype Definition = Definition(
    isAlternateForm: bool,
    word: string,
    pos: string,
    wordClass: string,
    definition: string,
    notes: seq<string>,
    alternateForms: seq<Definition>)

  /** What `next_line` returns: a Definition or a note (a plain `str`). */
  datatype Line = Entry(def: Definition) | Note(text: string)

  /** Lower-case first letters of a section heading: a-z, the apostrophe, ï
      and ö (this variant does not know ä and æ). */
  const HeadingAlphabet: string := "abcdefghijklmnopqrstuvwxyz'\U{EF}\U{F6}"

  /** The heading test of `parse`: the stripped, lower-cased first character
      is a substring of the alphabet and the stripped line is shorter than
      four characters. */
  predicate IsHeading(line: string)
    requires line != ""
  {
    Contains(HeadingAlphabet, HeadingKey(line[0])) && |Strip(line)| < 4
  }

  /** Lines that `parse` discards before classifying them. */
  predicate Skipped(line: string) {
    line == "" || IsHeading(line)
  }

  /** A line starting with whitespace is a heading exactly when it is
      shorter than four characters once stripped: the stripped first
      character is "", which is a substring of every string. */
  lemma WhitespaceHeading(line: string)
    requires line != "" && IsSpace(line[0])
    ensures IsHeading(line) <==> |Strip(line)| < 4
  {
    ContainsEmpty(HeadingAlphabet);
  }

  /** The heading test of this variant is the stricter one: a line of four
      characters once stripped, or one whose first character lower-cases to
      ä or æ, is not a heading. */
  lemma HeadingBounds(line: string)
    requires line != "" && !IsSpace(line[0])
    ensures IsHeading(line) <==> Lower(line[0]) in HeadingAlphabet && |Strip(line)| < 4
    ensures IsHeading(line) ==> Lower(line[0]) != '\U{E4}' && Lower(line[0]) != '\U{E6}'
  {
    ContainsChar(HeadingAlphabet, Lower(line[0]));
  }

  /** `next_line` as a function. A line containing " // " is a Definition,
      or the fatal unknown-part-of-speech error naming the line; any other
      line is a note. */
  function Classify(line: string): (r: Result<Line>)
    requires line != ""
    ensures !Contains(line, Delimiter) ==> r.Success? && r.value.Note?
    ensures Contains(line, Delimiter) ==> r.Failure? || r.value.Entry?
    ensures r.Failure? ==> r.error == UnknownPartOfSpeech(line)
  {
    if !Contains(line, Delimiter) then
      Success(Note(Strip(line)))
    else
      var mods := Modifiers(line);
      var key := LastPosKey(mods);
      if key in PosTable then
        Success(Entry(Definition(IsIndented(line), Tokens(line)[0], PosTable[key], LastWordClass(mods),
                                 Sides(line).1, [], [])))
      else
        Failure(UnknownPartOfSpeech(line))
  }

  /** Every line without " // " is a note equal to the stripped line, even
      one holding "inflections: ". */
  lemma ClassifyNote(line: string)
    requires line != "" && !Contains(line, Delimiter)
    ensures Classify(line) == Success(Note(Strip(line)))
  {
  }

  /** A line with " // " is a Definition exactly when one of its modifier
      tokens is a key of the table. */
  lemma ClassifyResolves(line: string)
    requires line != "" && Contains(line, Delimiter)
    ensures Classify(line).Success? <==> !NoPosKey(Modifiers(line))
  {
  }

  /** The fields of a classified Definition follow the same rules as in the
      newer parser: the first token of the stripped left-hand side, the
      untrimmed text after the first " // ", the last table key's part of
      speech, the last class token or "", and the indentation as the
      alternate-form flag; notes and alternate forms start empty. */
  lemma ClassifyEntry(line: string)
    requires line != "" && Classify(line).Success? && Classify(line).value.Entry?
    ensures var d := Classify(line).value.def;
      && line == Sides(line).0 + Delimiter + d.definition
      && !Contains(Sides(line).0, Delimiter)
      && d.word == Tokens(line)[0]
      && d.pos == PosTable[Modifiers(line)[LastMatch(Modifiers(line), PosTable.Keys).value]]
      && d.wordClass == (match LastMatch(Modifiers(line), ClassTokens)
                         case None => ""
                         case Some(k) => Modifiers(line)[k])
      && d.isAlternateForm == IsIndented(line)
      && d.notes == [] && d.alternateForms == []
  {
    SplitOnceFirst(line, Delimiter);
  }

  /** The kinds of line that need an entry before them: a note or an
      alternate form. */
  predicate NeedsEntry(l: Line) {
    l.Note? || l.def.isAlternateForm
  }

  /** The dispatch of `parse` on a classified line: a note is appended to
      the last top-level entry's notes, an alternate form to its alternate
      forms, and any other Definition is appended to the list. */
  function Attach(res: seq<Definition>, l: Line): (r: Result<seq<Definition>>)
    // the IndexError of res[len(res) - 1]
    ensures r.Failure? <==> res == [] && NeedsEntry(l)
    ensures r.Failure? ==> r.error == NoPreviousEntry
    // only a top-level Definition adds an element, at the end
    ensures r.Success? ==> |r.value| == |res| + (if NeedsEntry(l) then 0 else 1)
    ensures r.Success? && !NeedsEntry(l) ==> r.value == res + [l.def]
    // a continuation changes nothing but the last element
    ensures r.Success? && NeedsEntry(l) ==> r.value[..|res| - 1] == res[..|res| - 1]
    ensures r.Success? && l.Note? ==>
      r.value[|res| - 1] == res[|res| - 1].(notes := res[|res| - 1].notes + [l.text])
    ensures r.Success? && l.Entry? && l.def.isAlternateForm ==>
      r.value[|res| - 1] == res[|res| - 1].(alternateForms := res[|res| - 1].alternateForms + [l.def])
  {
    match l
    case Note(text) =>
      if res == [] then Failure(NoPreviousEntry)
      else
        var prev := res[|res| - 1];
        Success(res[|res| - 1 := prev.(notes := prev.notes + [text])])
    case Entry(d) =>
      if d.isAlternateForm then
        if res == [] then Failure(NoPreviousEntry)
        else
          var prev := res[|res| - 1];
          Success(res[|res| - 1 := prev.(alternateForms := prev.alternateForms + [d])])
      else Success(res + [d])
  }

  /** What the loop of `parse` makes of one line before dispatching on it. */
  datatype Scanned = Discarded | Classified(result: Result<Line>)

  function Scan(line: string): Scanned {
    if Skipped(line) then Discarded else Classified(Classify(line))
  }

  function Scans(lines: seq<string>): (r: seq<Scanned>)
    ensures |r| == |lines|
    decreases |lines|
  {
    if lines == [] then [] else [Scan(lines[0])] + Scans(lines[1..])
  }

  lemma {:induction false} ScansAt(lines: seq<string>, i: nat)
    requires i < |lines|
    ensures Scans(lines)[i] == Scan(lines[i])
    decreases i
  {
    assert Scans(lines) == [Scan(lines[0])] + Scans(lines[1..]);
    if i > 0 {
      ScansAt(lines[1..], i - 1);
      assert lines[1..][i - 1] == lines[i];
    }
  }

  lemma ScansIndex(lines: seq<string>)
    ensures forall i :: 0 <= i < |lines| ==> Scans(lines)[i] == Scan(lines[i])
  {
    forall i | 0 <= i < |lines| ensures Scans(lines)[i] == Scan(lines[i]) {
      ScansAt(lines, i);
    }
  }

  /** One iteration of the loop of `parse` on the result list `res`. */
  function Step(res: seq<Definition>, s: Scanned): Result<seq<Definition>> {
    match s
    case Discarded => Success(res)
    case Classified(Failure(e)) => Failure(e)
    case Classified(Success(l)) => Attach(res, l)
  }

  /** The rest of the loop of `parse`, from the result list `res` on; it
      stops at the first fatal error. */
  function Run(res: seq<Definition>, ss: seq<Scanned>): Result<seq<Definition>>
    decreases |ss|
  {
    if ss == [] then Success(res)
    else match Step(res, ss[0])
      case Failure(e) => Failure(e)
      case Success(next) => Run(next, ss[1..])
  }

  lemma RunCons(res: seq<Definition>, s: Scanned, ss: seq<Scanned>)
    ensures Run(res, [s] + ss) ==
      (if Step(res, s).Failure? then Failure(Step(res, s).error) else Run(Step(res, s).value, ss))
  {
    assert ([s] + ss)[1..] == ss;
  }

  /** What `parse` returns (or the fatal error it stops with) for `lines`. */
  function ParseLines(lines: seq<string>): Result<seq<Definition>> {
    Run([], Scans(lines))
  }

  /** The Definitions among the scanned lines, in order, as `next_line`
      creates them. */
  function Entries(ss: seq<Scanned>): seq<Definition>
    decreases |ss|
  {
    if ss == [] then [] else EntryOf(ss[0]) + Entries(ss[1..])
  }

  function EntryOf(s: Scanned): (r: seq<Definition>)
    ensures |r| <= 1
  {
    if s.Classified? && s.result.Success? && s.result.value.Entry? then [s.result.value.def] else []
  }

  /** The Definition lines of `lines`, top-level and alternate, in source
      order. */
  function EntryLines(lines: seq<string>): seq<Definition> {
    Entries(Scans(lines))
  }

  /** A Definition as `next_line` creates it. */
  predicate Fresh(d: Definition) {
    && d.notes == [] && d.alternateForms == []
    && d.pos in PosTable.Values && d.wordClass in WordClasses
  }

  predicate AllFresh(ss: seq<Scanned>) {
    forall i :: 0 <= i < |ss| && ss[i].Classified? && ss[i].result.Success? && ss[i].result.value.Entry? ==>
      Fresh(ss[i].result.value.def)
  }

  lemma ClassifiedFresh(line: string)
    requires line != "" && Classify(line).Success? && Classify(line).value.Entry?
    ensures Fresh(Classify(line).value.def)
  {
    assert LastPosKey(Modifiers(line)) in PosTable;
  }

  lemma ScansFresh(lines: seq<string>)
    ensures AllFresh(Scans(lines))
  {
    ScansIndex(lines);
    forall i | 0 <= i < |lines| && Scan(lines[i]).Classified? && Scan(lines[i]).result.Success?
                                && Scan(lines[i]).result.value.Entry?
      ensures Fresh(Scan(lines[i]).result.value.def)
    {
      ClassifiedFresh(lines[i]);
    }
  }

  /** A top-level entry as `parse` leaves it: not an alternate form, with
      alternate forms that are fresh alternate forms themselves (one level
      deep, no notes of their own). */
  predicate TopLevel(d: Definition) {
    && !d.isAlternateForm
    && d.pos in PosTable.Values && d.wordClass in WordClasses
    && forall j :: 0 <= j < |d.alternateForms| ==>
         d.alternateForms[j].isAlternateForm && Fresh(d.alternateForms[j])
  }

  predicate Nested(res: seq<Definition>) {
    forall i :: 0 <= i < |res| ==> TopLevel(res[i])
  }

  /** A top-level entry with its notes dropped, followed by its alternate
      forms: the Definition lines it was built from. */
  function Group(d: Definition): (r: seq<Definition>)
    ensures |r| == 1 + |d.alternateForms|
  {
    [d.(notes := [], alternateForms := [])] + d.alternateForms
  }

  /** The result list read back as the sequence of Definition lines. */
  function Flatten(res: seq<Definition>): seq<Definition>
    decreases |res|
  {
    if res == [] then [] else Flatten(res[..|res| - 1]) + Group(res[|res| - 1])
  }

  lemma AttachNested(res: seq<Definition>, l: Line)
    requires Nested(res)
    requires l.Entry? ==> Fresh(l.def)
    ensures Attach(res, l).Success? ==> Nested(Attach(res, l).value)
  {
    if Attach(res, l).Success? {
      var next := Attach(res, l).value;
      if NeedsEntry(l) {
        var last := |res| - 1;
        forall i | 0 <= i < |next| ensures TopLevel(next[i]) {
          if i < last {
            assert next[..last][i] == res[..last][i];
          } else {
            assert TopLevel(res[last]);
          }
        }
      } else {
        forall i | 0 <= i < |next| ensures TopLevel(next[i]) {
          if i < |res| {
            assert TopLevel(res[i]);
          }
        }
      }
    }
  }

  /** Attaching a line extends the flattened list by the new Definition and
      leaves it alone for a note. */
  lemma AttachFlatten(res: seq<Definition>, l: Line)
    requires l.Entry? ==> Fresh(l.def)
    ensures Attach(res, l).Success? ==>
      Flatten(Attach(res, l).value) == Flatten(res) + (if l.Entry? then [l.def] else [])
  {
    if Attach(res, l).Success? {
      var next := Attach(res, l).value;
      if NeedsEntry(l) {
        var last := |res| - 1;
        assert next[..last] == res[..last];
        if l.Entry? {
          assert Group(next[last]) == Group(res[last]) + [l.def];
        }
      } else {
        assert next[..|res|] == res;
      }
    }
  }

  lemma {:induction false} RunNested(res0: seq<Definition>, ss: seq<Scanned>)
    requires Nested(res0) && AllFresh(ss)
    ensures Run(res0, ss).Success? ==> Nested(Run(res0, ss).value)
    decreases |ss|
  {
    if ss != [] && Step(res0, ss[0]).Success? {
      if ss[0].Classified? {
        AttachNested(res0, ss[0].result.value);
      }
      RunNested(Step(res0, ss[0]).value, ss[1..]);
    }
  }

  lemma {:induction false} RunFlatten(res0: seq<Definition>, ss: seq<Scanned>)
    requires AllFresh(ss)
    ensures Run(res0, ss).Success? ==> Flatten(Run(res0, ss).value) == Flatten(res0) + Entries(ss)
    decreases |ss|
  {
    if ss != [] && Step(res0, ss[0]).Success? {
      var next := Step(res0, ss[0]).value;
      if ss[0].Classified? {
        AttachFlatten(res0, ss[0].result.value);
      }
      assert Flatten(next) == Flatten(res0) + EntryOf(ss[0]);
      RunFlatten(next, ss[1..]);
      assert Flatten(res0) + EntryOf(ss[0]) + Entries(ss[1..]) == Flatten(res0) + Entries(ss);
    }
  }

  /** What a successful parse returns: no element is an alternate form,
      every alternate form sits one level deep under the entry before it
      with no notes and no alternate forms of its own, and reading the
      entries and their alternate forms in order gives back the Definition
      lines in source order. */
  lemma ParseShape(lines: seq<string>)
    ensures ParseLines(lines).Success? ==>
      && Nested(ParseLines(lines).value)
      && Flatten(ParseLines(lines).value) == EntryLines(lines)
  {
    ScansFresh(lines);
    RunNested([], Scans(lines));
    RunFlatten([], Scans(lines));
  }

  lemma {:induction false} RunLeadingContinuation(ss: seq<Scanned>, i: nat)
    requires i < |ss| && ss[i].Classified? && ss[i].result.Success? && NeedsEntry(ss[i].result.value)
    requires forall j :: 0 <= j < i ==> ss[j] == Discarded
    ensures Run([], ss) == Failure(NoPreviousEntry)
    decreases i
  {
    if i > 0 {
      RunLeadingContinuation(ss[1..], i - 1);
    }
  }

  /** A note or an alternate form that comes before any top-level entry
      (only empty or heading lines before it) is the fatal `NoPreviousEntry`
      error. */
  lemma LeadingContinuationFails(lines: seq<string>, i: nat)
    requires i < |lines| && !Skipped(lines[i])
    requires Classify(lines[i]).Success? && NeedsEntry(Classify(lines[i]).value)
    requires forall j :: 0 <= j < i ==> Skipped(lines[j])
    ensures ParseLines(lines) == Failure(NoPreviousEntry)
  {
    ScansIndex(lines);
    RunLeadingContinuation(Scans(lines), i);
  }

  /** A run stops either on a missing entry or on the failure of one of its
      classified lines. */
  lemma {:induction false} RunFailure(res: seq<Definition>, ss: seq<Scanned>)
    ensures Run(res, ss).Failure? ==>
      || Run(res, ss).error == NoPreviousEntry
      || exists i :: 0 <= i < |ss| && ss[i] == Classified(Failure(Run(res, ss).error))
    decreases |ss|
  {
    if ss != [] && Step(res, ss[0]).Success? {
      var rest := ss[1..];
      RunFailure(Step(res, ss[0]).value, rest);
      if Run(res, ss).Failure? && Run(res, ss).error != NoPreviousEntry {
        var i :| 0 <= i < |rest| && rest[i] == Classified(Failure(Run(res, ss).error));
        assert ss[i + 1] == rest[i];
      }
    }
  }

  /** The two ways `parse` fails: a note or alternate form before any entry,
      or a line with " // " none of whose modifiers is in the table, which
      the error names. */
  lemma ParseFailure(lines: seq<string>)
    ensures ParseLines(lines).Failure? ==>
      var e := ParseLines(lines).error;
      || e == NoPreviousEntry
      || (&& e.UnknownPartOfSpeech? && e.line in lines && !Skipped(e.line)
          && Contains(e.line, Delimiter) && NoPosKey(Modifiers(e.line)))
  {
    ScansIndex(lines);
    RunFailure([], Scans(lines));
    if ParseLines(lines).Failure? && ParseLines(lines).error != NoPreviousEntry {
      var e := ParseLines(lines).error;
      var i :| 0 <= i < |lines| && Scans(lines)[i] == Classified(Failure(e));
      assert Scan(lines[i]) == Classified(Failure(e));
      ClassifyResolves(lines[i]);
    }
  }

  /** The loop over the first `i` scanned lines, then over the rest: a run
      that failed within the prefix is the failure of the whole run. */
  lemma {:induction false} RunSplit(res: seq<Definition>, ss: seq<Scanned>, i: nat)
    requires i <= |ss|
    ensures Run(res, ss) ==
      (if Run(res, ss[..i]).Failure? then Run(res, ss[..i]) else Run(Run(res, ss[..i]).value, ss[i..]))
    decreases i
  {
    if i == 0 {
      assert ss[..0] == [] && ss[0..] == ss;
    } else {
      assert ss[..i] == [ss[0]] + ss[1..][..i - 1];
      assert ss == [ss[0]] + ss[1..];
      RunCons(res, ss[0], ss[1..][..i - 1]);
      RunCons(res, ss[0], ss[1..]);
      if Step(res, ss[0]).Success? {
        RunSplit(Step(res, ss[0]).value, ss[1..], i - 1);
        assert ss[1..][i - 1..] == ss[i..];
      }
    }
  }

  /** The scan of two blocks of lines is the scan of the first followed by
      the scan of the second. */
  lemma {:induction false} ScansAppend(a: seq<string>, b: seq<string>)
    ensures Scans(a + b) == Scans(a) + Scans(b)
    decreases |a|
  {
    if a != [] {
      assert (a + b)[1..] == a[1..] + b;
      ScansAppend(a[1..], b);
    } else {
      assert a + b == b;
    }
  }

  /** The scan of a prefix or a suffix of the lines is that part of the
      scan of all of them. */
  lemma ScansSlices(lines: seq<string>, i: nat)
    requires i <= |lines|
    ensures Scans(lines[..i]) == Scans(lines)[..i]
    ensures Scans(lines[i..]) == Scans(lines)[i..]
  {
    assert lines == lines[..i] + lines[i..];
    ScansAppend(lines[..i], lines[i..]);
  }

  /** A line with " // " none of whose modifiers is a table key aborts the
      whole parse: the result is that line's error, unless the parse already
      stopped at an earlier line with an error of its own. */
  lemma BadLineFails(lines: seq<string>, i: nat)
    requires i < |lines| && !Skipped(lines[i]) && Classify(lines[i]).Failure?
    ensures ParseLines(lines).Failure?
    ensures ParseLines(lines[..i]).Failure? ==> ParseLines(lines) == ParseLines(lines[..i])
    ensures ParseLines(lines[..i]).Success? ==> ParseLines(lines) == Failure(UnknownPartOfSpeech(lines[i]))
  {
    ScansSlices(lines, i);
    ScansAt(lines, i);
    RunSplit([], Scans(lines), i);
    var tail := Scans(lines)[i..];
    assert tail == [tail[0]] + tail[1..];
    if ParseLines(lines[..i]).Success? {
      RunCons(ParseLines(lines[..i]).value, tail[0], tail[1..]);
    }
  }

  /** How many lines the loop of `parse` pops before it returns: all of
      them on success, up to and including the offending one on a fatal
      error. */
  function Consumed(res: seq<Definition>, ss: seq<Scanned>): (n: nat)
    ensures n <= |ss|
    decreases |ss|
  {
    if ss == [] then 0
    else match Step(res, ss[0])
      case Failure(_) => 1
      case Success(next) => 1 + Consumed(next, ss[1..])
  }

  lemma ConsumedCons(res: seq<Definition>, s: Scanned, ss: seq<Scanned>)
    ensures Consumed(res, [s] + ss) ==
      (if Step(res, s).Failure? then 1 else 1 + Consumed(Step(res, s).value, ss))
  {
    assert ([s] + ss)[1..] == ss;
  }

  /** The lines `parse` pops from `lines`. */
  function Popped(lines: seq<string>): nat {
    Consumed([], Scans(lines))
  }

  lemma {:induction false} ConsumedStops(res: seq<Definition>, ss: seq<Scanned>)
    ensures Run(res, ss).Success? ==> Consumed(res, ss) == |ss|
    ensures Run(res, ss).Failure? ==>
      && 0 < Consumed(res, ss)
      && Run(res, ss[..Consumed(res, ss) - 1]).Success?
      && Step(Run(res, ss[..Consumed(res, ss) - 1]).value, ss[Consumed(res, ss) - 1]) == Run(res, ss)
    decreases |ss|
  {
    if ss != [] {
      if Step(res, ss[0]).Success? {
        var next := Step(res, ss[0]).value;
        ConsumedStops(next, ss[1..]);
        if Run(res, ss).Failure? {
          var m := Consumed(next, ss[1..]);
          assert ss[..m] == [ss[0]] + ss[1..][..m - 1];
          RunCons(res, ss[0], ss[1..][..m - 1]);
          assert ss[m] == ss[1..][m - 1];
        }
      } else {
        assert ss[..0] == [];
      }
    }
  }

  /** Where `parse` stops: on success after the last line; on a fatal error
      right after the first line whose step fails, with every line before it
      parsed without error. */
  lemma PoppedLines(lines: seq<string>)
    ensures ParseLines(lines).Success? ==> Popped(lines) == |lines|
    ensures ParseLines(lines).Failure? ==>
      && 0 < Popped(lines) <= |lines|
      && ParseLines(lines[..Popped(lines) - 1]).Success?
      && Step(ParseLines(lines[..Popped(lines) - 1]).value, Scan(lines[Popped(lines) - 1])) == ParseLines(lines)
  {
    ConsumedStops([], Scans(lines));
    if ParseLines(lines).Failure? {
      ScansSlices(lines, Popped(lines) - 1);
      ScansAt(lines, Popped(lines) - 1);
    }
  }

  /** The keys of the interchange record of this variant. */
  const DefinitionKeys: set<string> :=
    {"is_alternate_form", "word", "pos", "word_class", "definition", "notes", "alternate_forms"}

  /** `to_dict`: the seven keys, with the alternate forms serialised in
      order by the same function. */
  function ToDict(d: Definition): (v: Value)
    ensures v.Object? && v.fields.Keys == DefinitionKeys
    ensures v.fields["alternate_forms"].List? && |v.fields["alternate_forms"].items| == |d.alternateForms|
    ensures forall j :: 0 <= j < |d.alternateForms| ==>
      v.fields["alternate_forms"].items[j] == ToDict(d.alternateForms[j])
    decreases d
  {
    Object(map[
      "is_alternate_form" := Bool(d.isAlternateForm),
      "word" := Str(d.word),
      "pos" := Str(d.pos),
      "word_class" := Str(d.wordClass),
      "definition" := Str(d.definition),
      "notes" := StrList(d.notes),
      "alternate_forms" := List(seq(|d.alternateForms|, j requires 0 <= j < |d.alternateForms| =>
                                      ToDict(d.alternateForms[j])))])
  }

  /** Two Definitions with the same record are the same Definition: the
      record loses nothing, however deep the alternate forms go. */
  lemma {:induction false} ToDictInjective(a: Definition, b: Definition)
    requires ToDict(a) == ToDict(b)
    ensures a == b
    decreases a
  {
    var va, vb := ToDict(a), ToDict(b);
    assert va.fields["notes"] == vb.fields["notes"];
    AsStringsStrList(a.notes);
    AsStringsStrList(b.notes);
    assert |a.alternateForms| == |b.alternateForms|;
    forall j | 0 <= j < |a.alternateForms|
      ensures a.alternateForms[j] == b.alternateForms[j]
    {
      assert va.fields["alternate_forms"].items[j] == vb.fields["alternate_forms"].items[j];
      ToDictInjective(a.alternateForms[j], b.alternateForms[j]);
    }
    assert va.fields["word"] == vb.fields["word"] && va.fields["pos"] == vb.fields["pos"];
    assert va.fields["word_class"] == vb.fields["word_class"];
    assert va.fields["definition"] == vb.fields["definition"];
    assert va.fields["is_alternate_form"] == vb.fields["is_alternate_form"];
  }

  /** `parse_to_dict` on a parsed list: {"items": [to_dict of each entry]}. */
  function ItemsDict(res: seq<Definition>): (v: Value)
    ensures v.Object? && v.fields.Keys == {"items"}
    ensures v.fields["items"].List? && |v.fields["items"].items| == |res|
    ensures forall i :: 0 <= i < |res| ==> v.fields["items"].items[i] == ToDict(res[i])
  {
    Object(map["items" := List(seq(|res|, i requires 0 <= i < |res| => ToDict(res[i])))])
  }

  /** The `Parser` object: the lines still to be read, front first. */
  class Parser {
    var lines: seq<string>

    /** `Parser(file)`: the text split on "\n". */
    constructor(file: string)
      ensures lines == Split(file, "\n")
      ensures Join(lines, "\n") == file
    {
      lines := Split(file, "\n");
      SplitJoin(file, "\n");
    }

    /** `next_line`, with its token loop. */
    method NextLine(line: string) returns (r: Result<Line>)
      requires line != ""
      ensures r == Classify(line)
    {
      var isAltForm := line[0] == ' ' || line[0] == '\t';
      match SplitOnce(line, Delimiter) {
        case None =>
          return Success(Note(Strip(line)));
        case Some((lhs, rhs)) =>
          var tokens := Split(Strip(lhs), " ");
          var term, rem := tokens[0], tokens[1..];
          var pos, wclass := ScanModifiers(rem);
          if pos !in PosTable {
            return Failure(UnknownPartOfSpeech(line));
          }
          return Success(Entry(Definition(isAltForm, term, PosTable[pos], wclass, rhs, [], [])));
      }
    }

    /** One pass of the loop of `parse` on the line it pops: skip an empty
        or heading line, classify any other with `next_line`, and dispatch
        on the kind of line. `rest` stands for the lines still queued. */
    method ReadLine(res: seq<Definition>, line: string, ghost rest: seq<string>) returns (r: Result<seq<Definition>>)
      ensures r == Step(res, Scan(line))
      ensures Run(res, Scans([line] + rest)) == (if r.Failure? then r else Run(r.value, Scans(rest)))
      ensures Consumed(res, Scans([line] + rest)) == (if r.Failure? then 1 else 1 + Consumed(r.value, Scans(rest)))
    {
      assert ([line] + rest)[1..] == rest;
      RunCons(res, Scan(line), Scans(rest));
      ConsumedCons(res, Scan(line), Scans(rest));
      if line == "" {
        return Success(res);
      }
      if IsHeading(line) {
        return Success(res);
      }
      var next := NextLine(line);
      match next {
        case Failure(e) =>
          return Failure(e);
        case Success(Note(text)) =>
          if res == [] {
            return Failure(NoPreviousEntry);
          }
          var prev := res[|res| - 1];
          return Success(res[|res| - 1 := prev.(notes := prev.notes + [text])]);
        case Success(Entry(d)) =>
          if d.isAlternateForm {
            if res == [] {
              return Failure(NoPreviousEntry);
            }
            var prev := res[|res| - 1];
            return Success(res[|res| - 1 := prev.(alternateForms := prev.alternateForms + [d])]);
          }
          return Success(res + [d]);
      }
    }

    /** `parse`: drains `lines` front to back. On success every line has
        been consumed; a fatal error leaves the lines after the offending
        one. */
    method Parse() returns (r: Result<seq<Definition>>)
      modifies this
      ensures r == ParseLines(old(lines))
      ensures lines == old(lines)[Popped(old(lines))..]
      ensures r.Success? ==> lines == []
    {
      var res: seq<Definition> := [];
      ghost var consumed := 0;
      while |lines| != 0
        invariant consumed <= |old(lines)| && lines == old(lines)[consumed..]
        invariant Run(res, Scans(lines)) == ParseLines(old(lines))
        invariant consumed + Consumed(res, Scans(lines)) == Popped(old(lines))
        decreases |lines|
      {
        var line := lines[0];
        var rest := lines[1..];
        assert lines == [line] + rest;
        lines := rest;
        consumed := consumed + 1;
        var stepped := ReadLine(res, line, rest);
        match stepped {
          case Failure(e) =>
            return Failure(e);
          case Success(updated) =>
            res := updated;
        }
      }
      return Success(res);
    }

    /** `parse_to_dict`. */
    method ParseToDict() returns (r: Result<Value>)
      modifies this
      ensures ParseLines(old(lines)).Failure? ==> r == Failure(ParseLines(old(lines)).error)
      ensures ParseLines(old(lines)).Success? ==> r == Success(ItemsDict(ParseLines(old(lines)).value))
      ensures lines == old(lines)[Popped(old(lines))..]
      ensures r.Success? ==> lines == []
    {
      var res := Parse();
      match res {
        case Failure(e) =>
          return Failure(e);
        case Success(items) =>
          return Success(ItemsDict(items));
      }
    }
  }
}
