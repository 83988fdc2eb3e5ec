# dictionaryparser, modelled in Dafny

This project models the core of `dictionaryparser`, a converter from a
plain-text dictionary of Rikatisyï into structured records. A dictionary
file holds lines of the form `term POS [class] // definition`. Three kinds
of continuation line follow an entry:

- notes;
- indented derived terms (called alternate forms in the older variant);
- `inflections: a, b, c` lists.

The parser reads the file line by line. It drops empty lines and section
headings, classifies every other line, and attaches each continuation line
to the last entry of the result list. In the older variant that is the last
top-level entry, since alternate forms are nested inside it rather than
appended. Two fatal conditions stop it:

- a modifier list that names no known part of speech;
- a continuation line that has no entry before it.

The model covers three source files:

- `dictionaryparser/parser/__init__.py`, the current parser (module
  `DictionaryParser`, file `parser.dfy`): the part-of-speech table, the
  line classifier `next_line`, the draining loop `parse`, and the
  `to_dict` / `from_dict` / `parse_to_dict` serialiser.
- `dictionaryparser/__init__.py`, the older parser (module
  `LegacyParser`, file `legacy.dfy`). It has no inflection lists, and it
  nests each alternate form inside the entry before it instead of giving
  it a `parent` back-reference.
- `dictionaryparser/dictionary/__init__.py`, the searches (module
  `DictionarySearch`, file `search.dfy`): `search_word` and
  `search_definition` over a list of parsed records.

Supporting modules:

- `Text` (`text.dfy`) gives the Python string operations the parser relies
  on. These are `sub in s` (leftmost search), `s.split(sep)` (which keeps
  empty pieces), `s.split(sep, maxsplit=1)` unpacked into two names,
  `s.strip()` (over Python's whitespace set) and the one-character
  `lower()` of the heading test.
- `Values` (`values.dfy`) gives the `dict`/`list`/`str`/`bool` trees that
  `to_dict` builds.
- `Lexicon` (`lexicon.dfy`) holds what both parsers share:
  - `POS_TABLE`;
  - the word-class tokens;
  - the token loop of `next_line`;
  - the split of an entry line into its left side, tokens and definition;
  - the error datatype that stands for the two fatal exits.

Each parser has two layers.

The first layer is a pure specification:

- `Classify` is `next_line` as a function.
- `Attach` is the dispatch of `parse` on one classified line.
- `Scan` / `Step` / `Run` / `ParseLines` are the whole loop over a list of
  lines.

The second layer is a class `Parser` with a field `lines: seq<string>`
that stands for the deque. Its methods are:

- `NextLine`, with the token loop (`ScanModifiers`);
- `ReadLine`, one pass of the loop body;
- `Parse`, the draining `while` loop;
- `ParseToDict`.

Each method is proved to compute the specification. The lemmas then state
what the source promises about that specification.

Both parsers follow their code as written:

- `word_class` keeps its trailing dot (`"ii."`).
- `POS_TABLE` maps `irr.v.` to `irregular verb`, with a space, while the
  `PartOfSpeech` annotation of the `pos` field
  (`dictionaryparser/parser/__init__.py:43`) lists `irregular_verb`. The
  table decides what a parsed record holds.
- In the current parser, a line that contains no `" // "` counts as an
  inflection list when `inflections: ` occurs anywhere in it once stripped,
  not only at its start. A line with `" // "` is always an entry line or
  the fatal error. The first 13 characters are
  then dropped wherever the marker was found.
- The definition is the untrimmed text after the first `" // "`. The
  separator includes both spaces, so `awa n. // water` has the definition
  `water`, not ` water`.
- The heading test is a Python substring test of the stripped,
  lower-cased first character against the alphabet. For a line that
  starts with any whitespace character (a space, a tab, the `"\r"` of a
  CRLF file, and so on) this is `"" in alphabet`, which always holds. So
  such a line of at most four characters once stripped (fewer than four in
  the older variant) is dropped as a heading, even when it is meant as a
  derived term or a note.

## Model

| member | source | states |
|---|---|---|
| Text.Contains | dictionaryparser/parser/__init__.py:132 | `sub in s` holds only if `sub` fits in `s`; with `ContainsIff`, exactly when `sub` occurs at some index |
| Text.ContainsIff | dictionaryparser/dictionary/__init__.py:11 | `sub in s` holds exactly when some index of `s` starts an occurrence of `sub` |
| Text.ContainsEmpty | dictionaryparser/parser/__init__.py:173 | the empty string is in every string, which makes the heading test true for any indented short line |
| Text.ContainsSelf | dictionaryparser/dictionary/__init__.py:11 | every string contains itself, so the `== word` disjunct of `search_word` is implied by `in` |
| Text.ContainsChar | dictionaryparser/parser/__init__.py:173 | a one-character needle occurs exactly when that character is an element of the string |
| Text.FindFrom | dictionaryparser/parser/__init__.py:128 | the result is the leftmost occurrence at or after the start index, and `None` means there is no occurrence there at all |
| Text.Find | dictionaryparser/parser/__init__.py:128 | the leftmost occurrence of `sub`, or `None` exactly when there is none |
| Text.SplitOnce | dictionaryparser/parser/__init__.py:128 | `line.split(" // ", maxsplit=1)` unpacks exactly when the separator occurs; then `line == lhs + sep + rhs` and `lhs` ends at the first occurrence |
| Text.SplitOnceFirst | dictionaryparser/parser/__init__.py:128 | the left part of a `maxsplit=1` split never contains the separator |
| Text.NoMatchInPrefix | dictionaryparser/parser/__init__.py:128 | a prefix that ends before the first occurrence does not contain the separator |
| Text.Split | dictionaryparser/parser/__init__.py:140 | `split(sep)` always returns at least one piece, which makes the `_die` at line 143 unreachable |
| Text.SplitJoin | dictionaryparser/parser/__init__.py:117 | joining the pieces of `split(sep)` with `sep` gives back the original string, so `file.split("\n")` loses no text |
| Text.SplitPieces | dictionaryparser/parser/__init__.py:134 | no piece of `split(sep)` contains `sep` |
| Text.TrimStart | dictionaryparser/parser/__init__.py:130 | the result is a suffix of the input, only whitespace was removed, and it does not start with whitespace |
| Text.TrimEnd | dictionaryparser/parser/__init__.py:130 | the result is a prefix of the input, only whitespace was removed, and it does not end with whitespace |
| Text.Strip | dictionaryparser/parser/__init__.py:130 | `strip()` never lengthens a string |
| Text.StripSpec | dictionaryparser/parser/__init__.py:130 | `strip()` returns a slice of its input that starts and ends with non-whitespace, with only whitespace around it |
| Text.Lower | dictionaryparser/parser/__init__.py:173 | `lower()` never leaves an ASCII capital, and it changes only A–Z, Ï, Ö, Ä, Æ and the Kelvin sign |
| Values.AsStrings | dictionaryparser/parser/__init__.py:80 | a value read back as a list of strings is exactly the list value of those strings; it fails only on a non-list or a non-string element |
| Values.AsStringsStrList | dictionaryparser/parser/__init__.py:80 | reading the list value of a `list[str]` gives that list back |
| Lexicon.LastMatch | dictionaryparser/parser/__init__.py:148-152 | the index of the last token in a key set: `None` exactly when no token is in the set; otherwise that token is in the set and none after it is |
| Lexicon.LastPosKey | dictionaryparser/parser/__init__.py:146-155 | `pos` after the loop is a table key exactly when some modifier is one, and it is then one of the modifiers; otherwise it is `""` |
| Lexicon.LastWordClass | dictionaryparser/parser/__init__.py:147-152 | `wclass` after the loop is one of `i.`, `ii.`, `iii.` or `""`, and it is non-empty exactly when some modifier is a class token |
| Lexicon.ScanModifiers | dictionaryparser/parser/__init__.py:146-152 | the token loop leaves `pos` at the last table key and `wclass` at the last class token (last match wins) |
| Lexicon.Sides | dictionaryparser/parser/__init__.py:128 | an entry line is its left-hand side, then `" // "`, then its definition text |
| Lexicon.Tokens | dictionaryparser/parser/__init__.py:140-141 | the stripped left-hand side split on `" "` always has a first token, the term (possibly `""`) |
| Lexicon.HeadingKey | dictionaryparser/parser/__init__.py:173 | `line[0].strip().lower()` is `""` exactly when the first character is whitespace, and otherwise that character lower-cased |
| Lexicon.PosTableNames | dictionaryparser/parser/__init__.py:19-57 | every abbreviation of `POS_TABLE` has its own name; every name is one the `PartOfSpeech` annotation lists, except that of `irr.v.`; `irregular_verb` is never produced |
| DictionaryParser.IndentedHeading | dictionaryparser/parser/__init__.py:172-175 | a line starting with any whitespace character (space, tab, `"\r"`, ...) is a heading exactly when its stripped length is at most 4 |
| DictionaryParser.UnindentedHeading | dictionaryparser/parser/__init__.py:172-175 | a line starting with a non-whitespace character is a heading exactly when that character, lower-cased, is in `abc…z'ïöäæ` and the stripped line has at most 4 characters |
| DictionaryParser.IsHeading | dictionaryparser/parser/__init__.py:172-175 | the heading test itself, a substring test of the stripped, lower-cased first character and a bound of 4 on the stripped length; `IndentedHeading` (whitespace first) and `UnindentedHeading` (non-whitespace first) together cover every line |
| DictionaryParser.Classify | dictionaryparser/parser/__init__.py:120-159 | a line without `" // "` is a note or an inflection list and never fails; a line with it is a Definition or the fatal error; the only error is the unknown-part-of-speech error naming the unstripped line |
| DictionaryParser.ClassifyNote | dictionaryparser/parser/__init__.py:129-137 | without `" // "`, the result is a note exactly when the stripped line does not contain `"inflections: "`, and the note is the stripped line |
| DictionaryParser.ClassifyInflections | dictionaryparser/parser/__init__.py:130-135 | an inflection list comes from a stripped line of at least 13 characters; it is non-empty; joined with `", "` it gives back the stripped line minus its first 13 characters; no form contains `", "` |
| DictionaryParser.ClassifyResolves | dictionaryparser/parser/__init__.py:146-157 | a line with `" // "` yields a Definition exactly when one of its modifier tokens is a key of `POS_TABLE` |
| DictionaryParser.ClassifyEntry | dictionaryparser/parser/__init__.py:123-159 | fields of a new Definition: the word is the first token of the stripped left side (which holds no `" // "`); the definition is the untrimmed text after the first `" // "`; the part of speech is the table name of the last key among the modifiers; the word class is the last class token, dot kept, or `""`; the derived flag is the indentation; notes, parent and inflections are empty |
| DictionaryParser.ClassifiedFresh | dictionaryparser/parser/__init__.py:159 | a new Definition has no notes, no parent and no inflections, a part of speech from the table's values and a word class among the class tokens or `""` |
| DictionaryParser.Attach | dictionaryparser/parser/__init__.py:182-200 | a note, an inflection list or a derived term on an empty list is the `NoPreviousEntry` error, and nothing else fails; a note appends to the last element's notes; an inflection list replaces its inflections; both keep the length and every other element; a derived term is appended with `parent` set to the last word; any other Definition is appended as is |
| DictionaryParser.ScansIndex | dictionaryparser/parser/__init__.py:165-180 | the i-th scanned line is what the loop makes of the i-th line |
| DictionaryParser.Step | dictionaryparser/parser/__init__.py:166-200 | one pass of the loop: an empty or heading line leaves the list alone, a fatal line stops, any other line is dispatched by `Attach`; `Parser.ReadLine` is proved to compute it |
| DictionaryParser.Run | dictionaryparser/parser/__init__.py:165-201 | the loop from a given list over the scanned lines, stopping at the first failing step; `RunCons` and `RunSplit` state how it composes |
| DictionaryParser.ParseLines | dictionaryparser/parser/__init__.py:161-201 | the result of `parse` on a list of lines; `Parser.Parse` is proved to compute it, and `ParseShape`, `ParseFailure` and `BadLineFails` state what it is |
| DictionaryParser.RunCons | dictionaryparser/parser/__init__.py:165-201 | the loop stops at the first line whose step fails and otherwise continues from the updated list |
| DictionaryParser.AttachHeads | dictionaryparser/parser/__init__.py:182-200 | dispatching a line keeps the heads of all earlier elements and adds the new Definition's head, if there is one |
| DictionaryParser.RunHeads | dictionaryparser/parser/__init__.py:165-201 | after a successful run, the heads of the result are the heads of the starting list followed by the Definition lines in order |
| DictionaryParser.AttachLinked | dictionaryparser/parser/__init__.py:186-192 | dispatching a line preserves the parent links and the well-formedness of part of speech and word class |
| DictionaryParser.RunLinked | dictionaryparser/parser/__init__.py:165-201 | the run preserves those links and that well-formedness |
| DictionaryParser.ParseShape | dictionaryparser/parser/__init__.py:161-201 | a successful `parse` returns one element per Definition line, in source order, with that line's word, part of speech, word class, definition and derived flag; every derived term's parent is the word of the element before it; only derived terms have a parent; the first element is not derived |
| DictionaryParser.RunLeadingContinuation | dictionaryparser/parser/__init__.py:182-198 | a continuation line with only dropped lines before it ends the run with `NoPreviousEntry` |
| DictionaryParser.LeadingContinuationFails | dictionaryparser/parser/__init__.py:182-198 | a note, inflection list or derived term with only empty or heading lines before it makes `parse` fail with `NoPreviousEntry` (the `IndexError` of `res[len(res) - 1]`) |
| DictionaryParser.RunFailure | dictionaryparser/parser/__init__.py:154-157 | a failed run failed either for a missing entry or with the error of one of its classified lines |
| DictionaryParser.ParseFailure | dictionaryparser/parser/__init__.py:154-157 | `parse` fails either with `NoPreviousEntry` or with the unknown-part-of-speech error. That error names one of the input lines: one that is not dropped, that contains `" // "` and none of whose modifiers is in the table |
| DictionaryParser.RunSplit | dictionaryparser/parser/__init__.py:165-201 | running over a prefix and then the rest equals running over the whole, and a failure within the prefix is the failure of the whole |
| DictionaryParser.BadLineFails | dictionaryparser/parser/__init__.py:154-157 | a line that is not dropped and whose classification fails makes `parse` fail; the error is that line's unless the lines before it already fail on their own |
| DictionaryParser.ConsumedStops | dictionaryparser/parser/__init__.py:165-201 | the loop pops every line when it succeeds; when it fails it pops lines up to and including the first one whose step fails, with every line before it processed without error |
| DictionaryParser.PoppedLines | dictionaryparser/parser/__init__.py:165-201 | `parse` pops all lines on success; on failure it stops right after the first line whose step fails, and the lines before that one parse without error |
| DictionaryParser.ToDict | dictionaryparser/parser/__init__.py:82-92 | `to_dict` has exactly the eight keys and `from_dict` of it gives back the Definition |
| DictionaryParser.FromDict | dictionaryparser/parser/__init__.py:79-80 | `from_dict` succeeds exactly on a dict that holds the eight keys, each with a value of the field's kind; each field of the result is read from its own key, and other keys are ignored |
| DictionaryParser.FromDictExact | dictionaryparser/parser/__init__.py:79-92 | a dict with exactly the eight keys that `from_dict` accepts is the `to_dict` of what it reads |
| DictionaryParser.ItemsDict | dictionaryparser/parser/__init__.py:203-210 | `{"items": [...]}` has the single key `items` and one record per entry in order; each record is `to_dict` of its entry, and `from_dict` reads it back as that entry |
| DictionaryParser.Parser.constructor | dictionaryparser/parser/__init__.py:116-118 | the queued lines are `file.split("\n")`, and joining them with `"\n"` gives back the file |
| DictionaryParser.Parser.NextLine | dictionaryparser/parser/__init__.py:120-159 | `next_line` with its token loop computes `Classify` |
| DictionaryParser.Parser.ReadLine | dictionaryparser/parser/__init__.py:166-200 | one pass of the loop body performs `Step` on the popped line: it drops empty and heading lines, classifies the rest and dispatches. Continuing from its result is the same as running over the popped line and the rest |
| DictionaryParser.Parser.Parse | dictionaryparser/parser/__init__.py:161-201 | `parse` returns `ParseLines` of the lines queued at the call. On success it has drained the queue, so a second call returns `[]`. After an error, exactly the lines after the offending one remain queued |
| DictionaryParser.Parser.ParseToDict | dictionaryparser/parser/__init__.py:203-210 | `parse_to_dict` fails exactly as `parse` does, and otherwise returns `ItemsDict` of its result; it leaves the queue as `parse` does |
| LegacyParser.HeadingBounds | dictionaryparser/__init__.py:141-145 | in this variant a non-whitespace first character makes a heading exactly when that character, lower-cased, is in `abc…z'ïö` (ä and æ excluded) and the stripped length is below 4 |
| LegacyParser.IsHeading | dictionaryparser/__init__.py:141-145 | the heading test of this variant, with the alphabet `abc…z'ïö` and a strict bound `< 4`; `WhitespaceHeading` (whitespace first) and `HeadingBounds` (non-whitespace first) together cover every line |
| LegacyParser.WhitespaceHeading | dictionaryparser/__init__.py:141-145 | a line starting with any whitespace character is a heading exactly when its stripped length is below 4 |
| LegacyParser.Classify | dictionaryparser/__init__.py:98-131 | a line without `" // "` is a note; a line with it is a Definition or the unknown-part-of-speech error naming the line |
| LegacyParser.ClassifyNote | dictionaryparser/__init__.py:104-109 | without `" // "`, every line is the note of its stripped text, even one that holds `"inflections: "` |
| LegacyParser.ClassifyResolves | dictionaryparser/__init__.py:117-129 | a line with `" // "` yields a Definition exactly when one of its modifiers is a key of the table |
| LegacyParser.ClassifyEntry | dictionaryparser/__init__.py:101-131 | the fields follow the same rules as the current parser: first token, untrimmed definition, last table key, last class token with its dot, indentation as the alternate-form flag; no notes and no alternate forms |
| LegacyParser.ClassifiedFresh | dictionaryparser/__init__.py:131 | a new Definition has no notes, no alternate forms, a part of speech from the table's values and a word class among the class tokens or `""` |
| LegacyParser.Attach | dictionaryparser/__init__.py:149-161 | a note or alternate form on an empty list is `NoPreviousEntry`, and nothing else fails; a note goes to the last top-level entry's notes, even after an alternate form; an alternate form is appended to that entry's `alternate_forms`; only a non-indented Definition lengthens the list |
| LegacyParser.ScansIndex | dictionaryparser/__init__.py:135-147 | the i-th scanned line is what the loop makes of the i-th line |
| LegacyParser.Step | dictionaryparser/__init__.py:136-161 | one pass of the loop: an empty or heading line leaves the list alone, a fatal line stops, any other line is dispatched by `Attach`; `Parser.ReadLine` is proved to compute it |
| LegacyParser.Run | dictionaryparser/__init__.py:135-161 | the loop from a given list over the scanned lines, stopping at the first failing step; `RunCons` and `RunSplit` state how it composes |
| LegacyParser.ParseLines | dictionaryparser/__init__.py:133-162 | the result of `parse` on a list of lines; `Parser.Parse` is proved to compute it, and `ParseShape`, `ParseFailure` and `BadLineFails` state what it is |
| LegacyParser.RunCons | dictionaryparser/__init__.py:135-161 | the loop stops at the first failing step and otherwise continues from the updated list |
| LegacyParser.AttachNested | dictionaryparser/__init__.py:149-161 | dispatching a line keeps every element a non-alternate top-level entry whose alternate forms are fresh, one level deep |
| LegacyParser.AttachFlatten | dictionaryparser/__init__.py:149-161 | dispatching a Definition adds it at the end of the flattened list; a note leaves the flattened list unchanged |
| LegacyParser.RunNested | dictionaryparser/__init__.py:135-161 | the run keeps the nesting invariant |
| LegacyParser.RunFlatten | dictionaryparser/__init__.py:135-161 | after a successful run, the flattened result is the flattened start followed by the Definition lines in order |
| LegacyParser.ParseShape | dictionaryparser/__init__.py:133-162 | a successful `parse` returns only non-indented entries. Each alternate form sits exactly one level deep under the entry before it, with no notes or alternate forms of its own. Reading entries and their alternate forms in order gives the Definition lines in source order |
| LegacyParser.RunLeadingContinuation | dictionaryparser/__init__.py:149-159 | a note or alternate form with only dropped lines before it ends the run with `NoPreviousEntry` |
| LegacyParser.LeadingContinuationFails | dictionaryparser/__init__.py:149-159 | a note or alternate form before any top-level entry makes `parse` fail with `NoPreviousEntry` (the `IndexError`) |
| LegacyParser.RunFailure | dictionaryparser/__init__.py:126-129 | a failed run failed either for a missing entry or with the error of one of its classified lines |
| LegacyParser.ParseFailure | dictionaryparser/__init__.py:126-129 | `parse` fails either with `NoPreviousEntry` or with the unknown-part-of-speech error, which names an input line that has `" // "` and no table key among its modifiers |
| LegacyParser.RunSplit | dictionaryparser/__init__.py:135-161 | running over a prefix and then the rest equals running over the whole, and a failure within the prefix is the failure of the whole |
| LegacyParser.BadLineFails | dictionaryparser/__init__.py:126-129 | a line that is not dropped and whose classification fails makes `parse` fail; the error is that line's unless the lines before it already fail on their own |
| LegacyParser.ConsumedStops | dictionaryparser/__init__.py:135-161 | the loop pops every line when it succeeds; when it fails it pops lines up to and including the first one whose step fails, with every line before it processed without error |
| LegacyParser.PoppedLines | dictionaryparser/__init__.py:135-161 | `parse` pops all lines on success; on failure it stops right after the first line whose step fails, and the lines before that one parse without error |
| LegacyParser.ToDict | dictionaryparser/__init__.py:78-87 | `to_dict` has exactly seven keys, and `alternate_forms` holds the `to_dict` of each alternate form, in order |
| LegacyParser.ToDictInjective | dictionaryparser/__init__.py:78-87 | equal records come from equal Definitions, however deep the nesting: `to_dict` loses nothing |
| LegacyParser.ItemsDict | dictionaryparser/__init__.py:164-169 | `{"items": [...]}` has one record per top-level entry, in order |
| LegacyParser.Parser.constructor | dictionaryparser/__init__.py:94-96 | the queued lines are `file.split("\n")`, and joining them gives back the file |
| LegacyParser.Parser.NextLine | dictionaryparser/__init__.py:98-131 | `next_line` with its token loop computes `Classify` |
| LegacyParser.Parser.ReadLine | dictionaryparser/__init__.py:136-161 | one pass of the loop body performs `Step` on the popped line, and continuing from its result equals running over that line and the rest |
| LegacyParser.Parser.Parse | dictionaryparser/__init__.py:133-162 | `parse` returns `ParseLines` of the queued lines and drains the queue on success; after an error, exactly the lines after the offending one remain queued |
| LegacyParser.Parser.ParseToDict | dictionaryparser/__init__.py:164-169 | `parse_to_dict` fails exactly as `parse` does, and otherwise returns `ItemsDict` of its result; it leaves the queue as `parse` does |
| DictionarySearch.WordMatchesIff | dictionaryparser/dictionary/__init__.py:11 | the `search_word` predicate holds exactly when the word contains the term |
| DictionarySearch.Matches | dictionaryparser/dictionary/__init__.py:11-24 | the test each search applies: `term in word or term == word` for `search_word`, `term in definition` for `search_definition` |
| DictionarySearch.Select | dictionaryparser/dictionary/__init__.py:13-15 | a filtered list is never longer than the list it comes from |
| DictionarySearch.SelectPositions | dictionaryparser/dictionary/__init__.py:9-27 | the result is a subsequence of the list, taken at strictly increasing positions, and those are exactly the positions of the matching Definitions |
| DictionarySearch.SelectMembers | dictionaryparser/dictionary/__init__.py:9-27 | a Definition is in the result exactly when it is in the list and matches |
| DictionarySearch.SelectEmptyTerm | dictionaryparser/dictionary/__init__.py:11-21 | an empty search term returns the whole list, for both searches |
| DictionarySearch.Dictionary.constructor | dictionaryparser/dictionary/__init__.py:4-6 | the dictionary holds exactly the given list |
| DictionarySearch.Dictionary.SearchWord | dictionaryparser/dictionary/__init__.py:9-17 | `search_word` returns `Select` by word over the stored list, without changing the dictionary |
| DictionarySearch.Dictionary.SearchDefinition | dictionaryparser/dictionary/__init__.py:19-27 | `search_definition` returns `Select` by definition text over the stored list, without changing the dictionary |

## Left out

- The command-line program in `dictionaryparser/__main__.py` is not part of this model. That covers argument handling, file reading and writing, `json.load` and the choice of output.
- `Definition.pretty_print` is left out. It only prints coloured text to the console.
- `parse_to_json` in both variants is left out. It is `json.dumps` of `parse_to_dict`, and JSON text is not modelled.
- The printing and `exit(1)` of `_die` / `die` are not modelled. The exits become the `UnknownPartOfSpeech` error, which carries the offending line.
- The `IndexError` of `res[len(res) - 1]` is not modelled as an exception. It becomes the `NoPreviousEntry` error.
- The `_die` after the left-hand-side split (`could not split LHS`) has no counterpart. `split(" ")` always yields a first token, which `Text.Split` proves, so that exit cannot be taken.
- The unused `Parser.len` field is left out.
- `str.lower()` covers only the characters whose lower case lies in the heading alphabet: A–Z, Ï, Ö, Ä, Æ and the Kelvin sign. Every other character is left unchanged, which gives the same answer to the heading test.
- Definitions are values, not shared objects. The source's in-place updates (`prev.notes.append`, `prev.alternate_forms.append`, `next_line.parent = ...`) become updates of the last list element. Every Definition object is created fresh by `next_line` and is referenced from one place only, so no aliasing is lost.
- Python's `deque` is a sequence field: `popleft` takes the head of the sequence.
- Each `parse` loop body is a separate method, `ReadLine`. Its `continue` statements return the unchanged list.
- DictionaryParser.FromDict: `from_dict` does not check value types in the source. It would store whatever the dict holds. The model reads only strings, booleans and lists of strings, and fails otherwise, so a record of the wrong shape is an error here.
- Key order of the produced dicts is not modelled: a dict is a map.
- `Parser.NextLine` requires a non-empty line, as in the source: the source indexes `line[0]`, and `parse` drops empty lines before calling it.
- Text is handled as sequences of Unicode scalar values. File decoding is not modelled.
