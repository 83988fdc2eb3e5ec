/** The dictionary parser of dictionaryparser/parser/__init__.py: a line
    classifier, a single pass that drains the lines and attaches every
    continuation line to the entry parsed last, and the `to_dict` /
    `from_dict` serialiser.

    `Classify` and `Step`/`Run` are the pure specification; the class
    `Parser` is the stateful object of the source, whose `Parse` drains
    `lines` the way the source drains its deque and is proved to compute
    `ParseLines` of the lines it started with. */
module DictionaryParser {
  import opened Text
  import opened Values
  import opened Lexicon

  /** One parsed dictionary record. */
  datatype Definition = Definition(
    word: string,
    pos: string,
    wordClass: string,
    definition: string,
    notes: seq<string>,
    isDerivedTerm: bool,
    parent: string,
    irregularInflections: seq<string>)

  /** What `next_line` returns: a Definition, a note (a plain `str`) or an
      inflection list (a `list[str]`). */
  datatype Line = Entry(def: Definition) | Note(text: string) | Inflections(forms: seq<string>)

  const InflectionsMarker: string := "inflections: "
  const InflectionSeparator: string := ", "

  /** Lower-case first letters of a section heading: a-z, the apostrophe,
      ï, ö, ä and æ. */
  const HeadingAlphabet: string := "abcdefghijklmnopqrstuvwxyz'\U{EF}\U{F6}\U{E4}\U{E6}"

  /** The heading test of `parse`: a Python substring test of the stripped,
      lower-cased first character against the alphabet, and a stripped
      length of at most 4. */
  predicate IsHeading(line: string)
    requires line != ""
  {
    Contains(HeadingAlphabet, HeadingKey(line[0])) && |Strip(line)| <= 4
  }

  /** Lines that `parse` discards before classifying them. */
  predicate Skipped(line: string) {
    line == "" || IsHeading(line)
  }

  /** A line starting with whitespace (an indented line, or one starting
      with "\r" or any other Python whitespace) is a heading exactly when it
      is at most four characters long once stripped: the stripped first
      character is "", which is a substring of every string. */
  lemma IndentedHeading(line: string)
    requires line != "" && IsSpace(line[0])
    ensures IsHeading(line) <==> |Strip(line)| <= 4
  {
    ContainsEmpty(HeadingAlphabet);
  }

  /** A line starting with a non-whitespace character is a heading exactly
      when that character, lower-cased, is a letter of the alphabet and the
      stripped line is at most four characters long. */
  lemma UnindentedHeading(line: string)
    requires line != "" && !IsSpace(line[0])
    ensures IsHeading(line) <==> Lower(line[0]) in HeadingAlphabet && |Strip(line)| <= 4
  {
    ContainsChar(HeadingAlphabet, Lower(line[0]));
  }

  /** `next_line` as a function. A line containing " // " is a Definition,
      or the fatal unknown-part-of-speech error naming the line; any other
      line is an inflection list or a note. */
  function Classify(line: string): (r: Result<Line>)
    requires line != ""
    ensures !Contains(line, Delimiter) ==> r.Success? && !r.value.Entry?
    ensures Contains(line, Delimiter) ==> r.Failure? || r.value.Entry?
    ensures r.Failure? ==> r.error == UnknownPartOfSpeech(line)
  {
    if !Contains(line, Delimiter) then
      var stripped := Strip(line);
      if Contains(stripped, InflectionsMarker) then
        Success(Inflections(Split(stripped[|InflectionsMarker|..], InflectionSeparator)))
      else
        Success(Note(stripped))
    else
      var mods := Modifiers(line);
      var key := LastPosKey(mods);
      if key in PosTable then
        Success(Entry(Definition(Tokens(line)[0], PosTable[key], LastWordClass(mods), Sides(line).1,
                                 [], IsIndented(line), "", [])))
      else
        Failure(UnknownPartOfSpeech(line))
  }

  /** A line without " // " is a note equal to the stripped line unless the
      stripped line contains "inflections: " anywhere. */
  lemma ClassifyNote(line: string)
    requires line != "" && !Contains(line, Delimiter)
    ensures Classify(line).value.Note? <==> !Contains(Strip(line), InflectionsMarker)
    ensures Classify(line).value.Note? ==> Classify(line).value.text == Strip(line)
  {
  }

  /** An inflection list is the stripped line without its first 13
      characters, cut at every ", ": joining the forms with ", " gives that
      text back, and no form contains ", ". */
  lemma ClassifyInflections(line: string)
    requires line != "" && Classify(line).Success? && Classify(line).value.Inflections?
    ensures |Strip(line)| >= |InflectionsMarker|
    ensures |Classify(line).value.forms| >= 1
    ensures Join(Classify(line).value.forms, InflectionSeparator) == Strip(line)[|InflectionsMarker|..]
    ensures forall k :: 0 <= k < |Classify(line).value.forms| ==>
      !Contains(Classify(line).value.forms[k], InflectionSeparator)
  {
    var rest := Strip(line)[|InflectionsMarker|..];
    SplitJoin(rest, InflectionSeparator);
    SplitPieces(rest, InflectionSeparator);
  }

  /** A line with " // " is a Definition exactly when one of its modifier
      tokens is a key of the table; otherwise it is the fatal error. */
  lemma ClassifyResolves(line: string)
    requires line != "" && Contains(line, Delimiter)
    ensures Classify(line).Success? <==> !NoPosKey(Modifiers(line))
  {
  }

  /** The fields of a classified Definition: the headword is the first token
      of the stripped left-hand side, the definition is the untrimmed text
      after the first " // " (it may hold further " // "), the part of
      speech is the table's name for the last modifier that is a key, the
      word class the last class token (dot kept) or "", and the derived flag
      is the indentation; notes, parent and inflections start empty. */
  lemma ClassifyEntry(line: string)
    requires line != "" && Classify(line).Success? && Classify(line).value.Entry?
    ensures var d := Classify(line).value.def;
      && line == Sides(line).0 + Delimiter + d.definition
      && !Contains(Sides(line).0, Delimiter)
      && d.word == Tokens(line)[0]
      && d.pos == PosTable[Modifiers(line)[LastMatch(Modifiers(line), PosTable.Keys).value]]
      && d.wordClass == (match LastMatch(Modifiers(line), ClassTokens)
                         case None => ""
                         case Some(k) => Modifiers(line)[k])
      && d.isDerivedTerm == IsIndented(line)
      && d.notes == [] && d.parent == "" && d.irregularInflections == []
  {
    SplitOnceFirst(line, Delimiter);
  }


  /** The record with everything a continuation line can change cleared. */
  function Head(d: Definition): Definition {
    d.(notes := [], parent := "", irregularInflections := [])
  }

  function Heads(ds: seq<Definition>): (r: seq<Definition>)
    ensures |r| == |ds| && forall i :: 0 <= i < |ds| ==> r[i] == Head(ds[i])
  {
    seq(|ds|, i requires 0 <= i < |ds| => Head(ds[i]))
  }

  /** The kinds of line that need an entry before them: a note, an
      inflection list or a derived term. */
  predicate NeedsEntry(l: Line) {
    !l.Entry? || l.def.isDerivedTerm
  }

  /** The dispatch of `parse` on a classified line: a note is appended to the
      last entry's notes, an inflection list overwrites its inflections, a
      derived term takes its word as `parent` and is appended, any other
      Definition is appended. */
  function Attach(res: seq<Definition>, l: Line): (r: Result<seq<Definition>>)
    // the structural error: nothing to attach to
    ensures r.Failure? <==> res == [] && NeedsEntry(l)
    ensures r.Failure? ==> r.error == NoPreviousEntry
    // a Definition adds one element at the end; a note or inflection list none
    ensures r.Success? ==> |r.value| == |res| + (if l.Entry? then 1 else 0)
    ensures r.Success? && l.Entry? ==> r.value[..|res|] == res
    ensures r.Success? && l.Entry? ==>
      r.value[|res|] == l.def.(parent := if l.def.isDerivedTerm then res[|res| - 1].word else l.def.parent)
    // a continuation changes nothing but the last element's notes or inflections
    ensures r.Success? && !l.Entry? ==> r.value[..|res| - 1] == res[..|res| - 1]
    ensures r.Success? && l.Note? ==>
      r.value[|res| - 1] == res[|res| - 1].(notes := res[|res| - 1].notes + [l.text])
    ensures r.Success? && l.Inflections? ==>
      r.value[|res| - 1] == res[|res| - 1].(irregularInflections := l.forms)
  {
    match l
    case Note(text) =>
      if res == [] then Failure(NoPreviousEntry)
      else
        var prev := res[|res| - 1];
        Success(res[|res| - 1 := prev.(notes := prev.notes + [text])])
    case Inflections(forms) =>
      if res == [] then Failure(NoPreviousEntry)
      else
        var prev := res[|res| - 1];
        Success(res[|res| - 1 := prev.(irregularInflections := forms)])
    case Entry(d) =>
      if d.isDerivedTerm then
        if res == [] then Failure(NoPreviousEntry)
        else Success(res + [d.(parent := res[|res| - 1].word)])
      else Success(res + [d])
  }

  /** What the loop of `parse` makes of one line before dispatching on it:
      an empty or heading line is discarded, any other line classified. */
  datatype Scanned = Discarded | Classified(result: Result<Line>)

  function Scan(line: string): Scanned {
    if Skipped(line) then Discarded else Classified(Classify(line))
  }

  function Scans(lines: seq<string>): (r: seq<Scanned>)
    ensures |r| == |lines|
    decreases |lines|
  {
    if lines == [] then [] else [Scan(lines[0])] + Scans(lines[1..])
  }

  lemma {:induction false} ScansAt(lines: seq<string>, i: nat)
    requires i < |lines|
    ensures Scans(lines)[i] == Scan(lines[i])
    decreases i
  {
    assert Scans(lines) == [Scan(lines[0])] + Scans(lines[1..]);
    if i > 0 {
      ScansAt(lines[1..], i - 1);
      assert lines[1..][i - 1] == lines[i];
    }
  }

  lemma ScansIndex(lines: seq<string>)
    ensures forall i :: 0 <= i < |lines| ==> Scans(lines)[i] == Scan(lines[i])
  {
    forall i | 0 <= i < |lines| ensures Scans(lines)[i] == Scan(lines[i]) {
      ScansAt(lines, i);
    }
  }

  /** A line that needs an entry before it: a note, an inflection list or a
      derived term. */
  predicate IsContinuation(line: string) {
    Scan(line).Classified? && Scan(line).result.Success? && NeedsEntry(Scan(line).result.value)
  }

  /** One iteration of the loop of `parse` on the result list `res`. */
  function Step(res: seq<Definition>, s: Scanned): Result<seq<Definition>> {
    match s
    case Discarded => Success(res)
    case Classified(Failure(e)) => Failure(e)
    case Classified(Success(l)) => Attach(res, l)
  }

  /** The rest of the loop of `parse`, from the result list `res` on; it
      stops at the first fatal error. */
  function Run(res: seq<Definition>, ss: seq<Scanned>): Result<seq<Definition>>
    decreases |ss|
  {
    if ss == [] then Success(res)
    else match Step(res, ss[0])
      case Failure(e) => Failure(e)
      case Success(next) => Run(next, ss[1..])
  }

  lemma RunCons(res: seq<Definition>, s: Scanned, ss: seq<Scanned>)
    ensures Run(res, [s] + ss) ==
      (if Step(res, s).Failure? then Failure(Step(res, s).error) else Run(Step(res, s).value, ss))
  {
    assert ([s] + ss)[1..] == ss;
  }

  /** What `parse` returns (or the fatal error it stops with) for `lines`. */
  function ParseLines(lines: seq<string>): Result<seq<Definition>> {
    Run([], Scans(lines))
  }

  /** The Definitions among the scanned lines, in order, as `next_line`
      creates them (before any continuation line is attached). */
  function Entries(ss: seq<Scanned>): seq<Definition>
    decreases |ss|
  {
    if ss == [] then [] else EntryOf(ss[0]) + Entries(ss[1..])
  }

  function EntryOf(s: Scanned): (r: seq<Definition>)
    ensures |r| <= 1
  {
    if s.Classified? && s.result.Success? && s.result.value.Entry? then [s.result.value.def] else []
  }

  /** The Definition lines of `lines`, in source order. */
  function EntryLines(lines: seq<string>): seq<Definition> {
    Entries(Scans(lines))
  }

  /** A Definition as `next_line` creates it: nothing attached yet, a part
      of speech from the table, a word class from the class tokens. */
  predicate Fresh(d: Definition) {
    && d.notes == [] && d.parent == "" && d.irregularInflections == []
    && d.pos in PosTable.Values && d.wordClass in WordClasses
  }

  predicate AllFresh(ss: seq<Scanned>) {
    forall i :: 0 <= i < |ss| && ss[i].Classified? && ss[i].result.Success? && ss[i].result.value.Entry? ==>
      Fresh(ss[i].result.value.def)
  }

  lemma ClassifiedFresh(line: string)
    requires line != "" && Classify(line).Success? && Classify(line).value.Entry?
    ensures Fresh(Classify(line).value.def)
  {
    assert LastPosKey(Modifiers(line)) in PosTable;
  }

  lemma ScansFresh(lines: seq<string>)
    ensures AllFresh(Scans(lines))
  {
    ScansIndex(lines);
    forall i | 0 <= i < |lines| && Scan(lines[i]).Classified? && Scan(lines[i]).result.Success?
                                && Scan(lines[i]).result.value.Entry?
      ensures Fresh(Scan(lines[i]).result.value.def)
    {
      ClassifiedFresh(lines[i]);
    }
  }

  /** Every derived term names the entry just before it as its parent, and
      only derived terms have a parent; every part of speech comes from the
      table and every word class is one of the class tokens or "". */
  predicate Linked(res: seq<Definition>) {
    forall i :: 0 <= i < |res| ==> LinkedAt(res, i)
  }

  predicate LinkedAt(res: seq<Definition>, i: nat)
    requires i < |res|
  {
    && (res[i].isDerivedTerm ==> 0 < i && res[i].parent == res[i - 1].word)
    && (!res[i].isDerivedTerm ==> res[i].parent == "")
    && res[i].pos in PosTable.Values
    && res[i].wordClass in WordClasses
  }

  /** Attaching a line keeps every head and adds the new Definition's. */
  lemma AttachHeads(res: seq<Definition>, l: Line)
    requires l.Entry? ==> Fresh(l.def)
    ensures Attach(res, l).Success? ==>
      Heads(Attach(res, l).value) == Heads(res) + (if l.Entry? then [l.def] else [])
  {
    if Attach(res, l).Success? {
      var next := Attach(res, l).value;
      if l.Entry? {
        forall i | 0 <= i < |res| ensures next[i] == res[i] {
          assert next[..|res|][i] == res[i];
        }
      } else {
        forall i | 0 <= i < |res| - 1 ensures next[i] == res[i] {
          assert next[..|res| - 1][i] == res[..|res| - 1][i];
        }
      }
    }
  }

  lemma {:induction false} RunHeads(res0: seq<Definition>, ss: seq<Scanned>)
    requires AllFresh(ss)
    ensures Run(res0, ss).Success? ==> Heads(Run(res0, ss).value) == Heads(res0) + Entries(ss)
    decreases |ss|
  {
    if ss != [] && Step(res0, ss[0]).Success? {
      var next := Step(res0, ss[0]).value;
      if ss[0].Classified? {
        AttachHeads(res0, ss[0].result.value);
      }
      assert Heads(next) == Heads(res0) + EntryOf(ss[0]);
      RunHeads(next, ss[1..]);
      assert Heads(res0) + EntryOf(ss[0]) + Entries(ss[1..]) == Heads(res0) + Entries(ss);
    }
  }

  lemma AttachLinked(res: seq<Definition>, l: Line)
    requires Linked(res)
    requires l.Entry? ==> Fresh(l.def)
    ensures Attach(res, l).Success? ==> Linked(Attach(res, l).value)
  {
    if Attach(res, l).Success? {
      var next := Attach(res, l).value;
      if l.Entry? {
        forall i | 0 <= i < |res| ensures next[i] == res[i] {
          assert next[..|res|][i] == res[i];
        }
        forall i | 0 <= i < |next| ensures LinkedAt(next, i) {
          if i < |res| {
            assert LinkedAt(res, i);
          }
        }
      } else {
        var last := |res| - 1;
        forall i | 0 <= i < |next|
          ensures next[i].word == res[i].word && next[i].parent == res[i].parent
          ensures next[i].isDerivedTerm == res[i].isDerivedTerm
          ensures next[i].pos == res[i].pos && next[i].wordClass == res[i].wordClass
        {
          if i < last {
            assert next[..last][i] == res[..last][i];
          }
        }
        forall i | 0 <= i < |next| ensures LinkedAt(next, i) {
          assert LinkedAt(res, i);
        }
      }
    }
  }

  lemma {:induction false} RunLinked(res0: seq<Definition>, ss: seq<Scanned>)
    requires Linked(res0) && AllFresh(ss)
    ensures Run(res0, ss).Success? ==> Linked(Run(res0, ss).value)
    decreases |ss|
  {
    if ss != [] && Step(res0, ss[0]).Success? {
      if ss[0].Classified? {
        AttachLinked(res0, ss[0].result.value);
      }
      RunLinked(Step(res0, ss[0]).value, ss[1..]);
    }
  }

  /** What a successful parse returns: one element per Definition line, in
      source order, each carrying that line's word, part of speech, word
      class, definition and derived flag; every derived term is linked to
      the element just before it, so the first element is not one. */
  lemma ParseShape(lines: seq<string>)
    ensures ParseLines(lines).Success? ==>
      var res := ParseLines(lines).value;
      && |res| == |EntryLines(lines)|
      && Heads(res) == EntryLines(lines)
      && Linked(res)
      && (res != [] ==> !res[0].isDerivedTerm)
  {
    ScansFresh(lines);
    RunHeads([], Scans(lines));
    RunLinked([], Scans(lines));
    if ParseLines(lines).Success? && ParseLines(lines).value != [] {
      var res := ParseLines(lines).value;
      assert Linked(res);
      assert LinkedAt(res, 0);
    }
  }

  lemma {:induction false} RunLeadingContinuation(ss: seq<Scanned>, i: nat)
    requires i < |ss| && ss[i].Classified? && ss[i].result.Success? && NeedsEntry(ss[i].result.value)
    requires forall j :: 0 <= j < i ==> ss[j] == Discarded
    ensures Run([], ss) == Failure(NoPreviousEntry)
    decreases i
  {
    if i > 0 {
      RunLeadingContinuation(ss[1..], i - 1);
    }
  }

  /** A note, an inflection list or a derived term that comes before any
      Definition line (only empty or heading lines before it) is the fatal
      `NoPreviousEntry` error. */
  lemma LeadingContinuationFails(lines: seq<string>, i: nat)
    requires i < |lines| && IsContinuation(lines[i])
    requires forall j :: 0 <= j < i ==> Skipped(lines[j])
    ensures ParseLines(lines) == Failure(NoPreviousEntry)
  {
    ScansIndex(lines);
    RunLeadingContinuation(Scans(lines), i);
  }

  /** A run stops either on a missing entry or on the failure of one of its
      classified lines. */
  lemma {:induction false} RunFailure(res: seq<Definition>, ss: seq<Scanned>)
    ensures Run(res, ss).Failure? ==>
      || Run(res, ss).error == NoPreviousEntry
      || exists i :: 0 <= i < |ss| && ss[i] == Classified(Failure(Run(res, ss).error))
    decreases |ss|
  {
    if ss != [] && Step(res, ss[0]).Success? {
      var rest := ss[1..];
      RunFailure(Step(res, ss[0]).value, rest);
      if Run(res, ss).Failure? && Run(res, ss).error != NoPreviousEntry {
        var i :| 0 <= i < |rest| && rest[i] == Classified(Failure(Run(res, ss).error));
        assert ss[i + 1] == rest[i];
      }
    }
  }

  /** The two ways `parse` fails: a continuation line before any entry, or a
      line with " // " none of whose modifiers is in the table, which the
      error names. */
  lemma ParseFailure(lines: seq<string>)
    ensures ParseLines(lines).Failure? ==>
      var e := ParseLines(lines).error;
      || e == NoPreviousEntry
      || (&& e.UnknownPartOfSpeech? && e.line in lines && !Skipped(e.line)
          && Contains(e.line, Delimiter) && NoPosKey(Modifiers(e.line)))
  {
    ScansIndex(lines);
    RunFailure([], Scans(lines));
    if ParseLines(lines).Failure? && ParseLines(lines).error != NoPreviousEntry {
      var e := ParseLines(lines).error;
      var i :| 0 <= i < |lines| && Scans(lines)[i] == Classified(Failure(e));
      assert Scan(lines[i]) == Classified(Failure(e));
      ClassifyResolves(lines[i]);
    }
  }

  /** The loop over the first `i` scanned lines, then over the rest: a run
      that failed within the prefix is the failure of the whole run. */
  lemma {:induction false} RunSplit(res: seq<Definition>, ss: seq<Scanned>, i: nat)
    requires i <= |ss|
    ensures Run(res, ss) ==
      (if Run(res, ss[..i]).Failure? then Run(res, ss[..i]) else Run(Run(res, ss[..i]).value, ss[i..]))
    decreases i
  {
    if i == 0 {
      assert ss[..0] == [] && ss[0..] == ss;
    } else {
      assert ss[..i] == [ss[0]] + ss[1..][..i - 1];
      assert ss == [ss[0]] + ss[1..];
      RunCons(res, ss[0], ss[1..][..i - 1]);
      RunCons(res, ss[0], ss[1..]);
      if Step(res, ss[0]).Success? {
        RunSplit(Step(res, ss[0]).value, ss[1..], i - 1);
        assert ss[1..][i - 1..] == ss[i..];
      }
    }
  }

  /** The scan of two blocks of lines is the scan of the first followed by
      the scan of the second. */
  lemma {:induction false} ScansAppend(a: seq<string>, b: seq<string>)
    ensures Scans(a + b) == Scans(a) + Scans(b)
    decreases |a|
  {
    if a != [] {
      assert (a + b)[1..] == a[1..] + b;
      ScansAppend(a[1..], b);
    } else {
      assert a + b == b;
    }
  }

  /** The scan of a prefix or a suffix of the lines is that part of the
      scan of all of them. */
  lemma ScansSlices(lines: seq<string>, i: nat)
    requires i <= |lines|
    ensures Scans(lines[..i]) == Scans(lines)[..i]
    ensures Scans(lines[i..]) == Scans(lines)[i..]
  {
    assert lines == lines[..i] + lines[i..];
    ScansAppend(lines[..i], lines[i..]);
  }

  /** A line with " // " none of whose modifiers is a table key aborts the
      whole parse: the result is that line's error, unless the parse already
      stopped at an earlier line with an error of its own. */
  lemma BadLineFails(lines: seq<string>, i: nat)
    requires i < |lines| && !Skipped(lines[i]) && Classify(lines[i]).Failure?
    ensures ParseLines(lines).Failure?
    ensures ParseLines(lines[..i]).Failure? ==> ParseLines(lines) == ParseLines(lines[..i])
    ensures ParseLines(lines[..i]).Success? ==> ParseLines(lines) == Failure(UnknownPartOfSpeech(lines[i]))
  {
    ScansSlices(lines, i);
    ScansAt(lines, i);
    RunSplit([], Scans(lines), i);
    var tail := Scans(lines)[i..];
    assert tail == [tail[0]] + tail[1..];
    if ParseLines(lines[..i]).Success? {
      RunCons(ParseLines(lines[..i]).value, tail[0], tail[1..]);
    }
  }

  /** How many lines the loop of `parse` pops before it returns: all of
      them on success, up to and including the offending one on a fatal
      error. */
  function Consumed(res: seq<Definition>, ss: seq<Scanned>): (n: nat)
    ensures n <= |ss|
    decreases |ss|
  {
    if ss == [] then 0
    else match Step(res, ss[0])
      case Failure(_) => 1
      case Success(next) => 1 + Consumed(next, ss[1..])
  }

  lemma ConsumedCons(res: seq<Definition>, s: Scanned, ss: seq<Scanned>)
    ensures Consumed(res, [s] + ss) ==
      (if Step(res, s).Failure? then 1 else 1 + Consumed(Step(res, s).value, ss))
  {
    assert ([s] + ss)[1..] == ss;
  }

  /** The lines `parse` pops from `lines`. */
  function Popped(lines: seq<string>): nat {
    Consumed([], Scans(lines))
  }

  lemma {:induction false} ConsumedStops(res: seq<Definition>, ss: seq<Scanned>)
    ensures Run(res, ss).Success? ==> Consumed(res, ss) == |ss|
    ensures Run(res, ss).Failure? ==>
      && 0 < Consumed(res, ss)
      && Run(res, ss[..Consumed(res, ss) - 1]).Success?
      && Step(Run(res, ss[..Consumed(res, ss) - 1]).value, ss[Consumed(res, ss) - 1]) == Run(res, ss)
    decreases |ss|
  {
    if ss != [] {
      if Step(res, ss[0]).Success? {
        var next := Step(res, ss[0]).value;
        ConsumedStops(next, ss[1..]);
        if Run(res, ss).Failure? {
          var m := Consumed(next, ss[1..]);
          assert ss[..m] == [ss[0]] + ss[1..][..m - 1];
          RunCons(res, ss[0], ss[1..][..m - 1]);
          assert ss[m] == ss[1..][m - 1];
        }
      } else {
        assert ss[..0] == [];
      }
    }
  }

  /** Where `parse` stops: on success after the last line; on a fatal error
      right after the first line whose step fails, with every line before it
      parsed without error. */
  lemma PoppedLines(lines: seq<string>)
    ensures ParseLines(lines).Success? ==> Popped(lines) == |lines|
    ensures ParseLines(lines).Failure? ==>
      && 0 < Popped(lines) <= |lines|
      && ParseLines(lines[..Popped(lines) - 1]).Success?
      && Step(ParseLines(lines[..Popped(lines) - 1]).value, Scan(lines[Popped(lines) - 1])) == ParseLines(lines)
  {
    ConsumedStops([], Scans(lines));
    if ParseLines(lines).Failure? {
      ScansSlices(lines, Popped(lines) - 1);
      ScansAt(lines, Popped(lines) - 1);
    }
  }

  /** `to_dict`: exactly the eight keys of the interchange record. */
  const DefinitionKeys: set<string> :=
    {"word", "pos", "word_class", "definition", "notes", "is_derived_term", "parent", "irregular_inflections"}

  function ToDict(d: Definition): (v: Value)
    ensures v.Object? && v.fields.Keys == DefinitionKeys
    ensures FromDict(v) == Some(d)
  {
    AsStringsStrList(d.notes);
    AsStringsStrList(d.irregularInflections);
    Object(map[
      "word" := Str(d.word),
      "pos" := Str(d.pos),
      "word_class" := Str(d.wordClass),
      "definition" := Str(d.definition),
      "notes" := StrList(d.notes),
      "is_derived_term" := Bool(d.isDerivedTerm),
      "parent" := Str(d.parent),
      "irregular_inflections" := StrList(d.irregularInflections)])
  }

  /** A record that holds the eight keys, each with a value of the kind
      the field has; other keys may be present too. */
  predicate RecordShape(v: Value) {
    && v.Object? && DefinitionKeys <= v.fields.Keys
    && v.fields["word"].Str? && v.fields["pos"].Str? && v.fields["word_class"].Str?
    && v.fields["definition"].Str? && IsStrList(v.fields["notes"])
    && v.fields["is_derived_term"].Bool? && v.fields["parent"].Str?
    && IsStrList(v.fields["irregular_inflections"])
  }

  /** `from_dict`: `None` when a key is missing (the KeyError) or holds a
      value of the wrong kind; otherwise every field is read from its key,
      and keys beyond the eight are ignored. */
  function FromDict(v: Value): (r: Option<Definition>)
    ensures r.Some? <==> RecordShape(v)
    ensures r.Some? ==>
      && v.fields["word"] == Str(r.value.word)
      && v.fields["pos"] == Str(r.value.pos)
      && v.fields["word_class"] == Str(r.value.wordClass)
      && v.fields["definition"] == Str(r.value.definition)
      && v.fields["notes"] == StrList(r.value.notes)
      && v.fields["is_derived_term"] == Bool(r.value.isDerivedTerm)
      && v.fields["parent"] == Str(r.value.parent)
      && v.fields["irregular_inflections"] == StrList(r.value.irregularInflections)
  {
    var word, pos, wordClass, definition :=
      LookupStr(v, "word"), LookupStr(v, "pos"), LookupStr(v, "word_class"), LookupStr(v, "definition");
    var notes, derived, parent, inflections :=
      LookupStrings(v, "notes"), LookupBool(v, "is_derived_term"), LookupStr(v, "parent"),
      LookupStrings(v, "irregular_inflections");
    if word.Some? && pos.Some? && wordClass.Some? && definition.Some?
       && notes.Some? && derived.Some? && parent.Some? && inflections.Some?
    then
      Some(Definition(word.value, pos.value, wordClass.value, definition.value,
                      notes.value, derived.value, parent.value, inflections.value))
    else None
  }

  /** A record that `from_dict` accepts and that has exactly the eight keys
      is the `to_dict` of what it reads. */
  lemma FromDictExact(v: Value)
    requires FromDict(v).Some? && v.Object? && v.fields.Keys == DefinitionKeys
    ensures ToDict(FromDict(v).value) == v
  {
    var w := ToDict(FromDict(v).value);
    forall key | key in DefinitionKeys
      ensures w.fields[key] == v.fields[key]
    {
    }
    assert w.fields == v.fields;
  }

  /** `parse_to_dict` on a parsed list: {"items": [to_dict of each entry]}. */
  function ItemsDict(res: seq<Definition>): (v: Value)
    ensures v.Object? && v.fields.Keys == {"items"}
    ensures v.fields["items"].List? && |v.fields["items"].items| == |res|
    ensures forall i :: 0 <= i < |res| ==> v.fields["items"].items[i] == ToDict(res[i])
    ensures forall i :: 0 <= i < |res| ==> FromDict(v.fields["items"].items[i]) == Some(res[i])
  {
    Object(map["items" := List(seq(|res|, i requires 0 <= i < |res| => ToDict(res[i])))])
  }

  /** The `Parser` object: the lines still to be read, front first. */
  class Parser {
    var lines: seq<string>

    /** `Parser(file)`: the text split on "\n". */
    constructor(file: string)
      ensures lines == Split(file, "\n")
      ensures Join(lines, "\n") == file
    {
      lines := Split(file, "\n");
      SplitJoin(file, "\n");
    }

    /** `next_line`, with its token loop. */
    method NextLine(line: string) returns (r: Result<Line>)
      requires line != ""
      ensures r == Classify(line)
    {
      var isAltForm := line[0] == ' ' || line[0] == '\t';
      match SplitOnce(line, Delimiter) {
        case None =>
          var stripped := Strip(line);
          if Contains(stripped, InflectionsMarker) {
            return Success(Inflections(Split(stripped[|InflectionsMarker|..], InflectionSeparator)));
          }
          return Success(Note(stripped));
        case Some((lhs, rhs)) =>
          var tokens := Split(Strip(lhs), " ");
          var term, rem := tokens[0], tokens[1..];
          var pos, wclass := ScanModifiers(rem);
          if pos !in PosTable {
            return Failure(UnknownPartOfSpeech(line));
          }
          return Success(Entry(Definition(term, PosTable[pos], wclass, rhs, [], isAltForm, "", [])));
      }
    }

    /** One pass of the loop of `parse` on the line it pops: skip an empty
        or heading line, classify any other with `next_line`, and dispatch
        on the kind of line. `rest` stands for the lines still queued. */
    method ReadLine(res: seq<Definition>, line: string, ghost rest: seq<string>) returns (r: Result<seq<Definition>>)
      ensures r == Step(res, Scan(line))
      ensures Run(res, Scans([line] + rest)) == (if r.Failure? then r else Run(r.value, Scans(rest)))
      ensures Consumed(res, Scans([line] + rest)) == (if r.Failure? then 1 else 1 + Consumed(r.value, Scans(rest)))
    {
      assert ([line] + rest)[1..] == rest;
      RunCons(res, Scan(line), Scans(rest));
      ConsumedCons(res, Scan(line), Scans(rest));
      if line == "" {
        return Success(res);
      }
      if IsHeading(line) {
        return Success(res);
      }
      var next := NextLine(line);
      match next {
        case Failure(e) =>
          return Failure(e);
        case Success(Note(text)) =>
          if res == [] {
            return Failure(NoPreviousEntry);
          }
          var prev := res[|res| - 1];
          return Success(res[|res| - 1 := prev.(notes := prev.notes + [text])]);
        case Success(Entry(d)) =>
          if d.isDerivedTerm {
            if res == [] {
              return Failure(NoPreviousEntry);
            }
            return Success(res + [d.(parent := res[|res| - 1].word)]);
          }
          return Success(res + [d]);
        case Success(Inflections(forms)) =>
          if res == [] {
            return Failure(NoPreviousEntry);
          }
          var prev := res[|res| - 1];
          return Success(res[|res| - 1 := prev.(irregularInflections := forms)]);
      }
    }

    /** `parse`: drains `lines` front to back. On success every line has
        been consumed, so a second call returns an empty list; a fatal
        error leaves the lines after the offending one. */
    method Parse() returns (r: Result<seq<Definition>>)
      modifies this
      ensures r == ParseLines(old(lines))
      ensures lines == old(lines)[Popped(old(lines))..]
      ensures r.Success? ==> lines == []
    {
      var res: seq<Definition> := [];
      ghost var consumed := 0;
      while |lines| != 0
        invariant consumed <= |old(lines)| && lines == old(lines)[consumed..]
        invariant Run(res, Scans(lines)) == ParseLines(old(lines))
        invariant consumed + Consumed(res, Scans(lines)) == Popped(old(lines))
        decreases |lines|
      {
        var line := lines[0];
        var rest := lines[1..];
        assert lines == [line] + rest;
        lines := rest;
        consumed := consumed + 1;
        var stepped := ReadLine(res, line, rest);
        match stepped {
          case Failure(e) =>
            return Failure(e);
          case Success(updated) =>
            res := updated;
        }
      }
      return Success(res);
    }

    /** `parse_to_dict`. */
    method ParseToDict() returns (r: Result<Value>)
      modifies this
      ensures ParseLines(old(lines)).Failure? ==> r == Failure(ParseLines(old(lines)).error)
      ensures ParseLines(old(lines)).Success? ==> r == Success(ItemsDict(ParseLines(old(lines)).value))
      ensures lines == old(lines)[Popped(old(lines))..]
      ensures r.Success? ==> lines == []
    {
      var res := Parse();
      match res {
        case Failure(e) =>
          return Failure(e);
        case Success(items) =>
          return Success(ItemsDict(items));
      }
    }
  }
}
