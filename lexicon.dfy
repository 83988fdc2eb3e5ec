/** What both parser variants share: the part-of-speech table, the
    word-class tokens, the scan over an entry line's modifier tokens, and
    the two ways a parse can fail. */
module Lexicon {
  import opened Text

  /** The abbreviation table of dictionaryparser/parser/__init__.py, kept as
      written: "irr.v." resolves to "irregular verb" with a space. The legacy
      module dictionaryparser/__init__.py holds an identical copy. */
  const PosTable: map<string, string> := map[
    "n." := "noun",
    "v." := "verb",
    "aff." := "affix",
    "irr.v." := "irregular verb",
    "num." := "number",
    "stv." := "stative_verb",
    "adv." := "adverb",
    "pron." := "pronoun",
    "part." := "particle",
    "conj." := "conjunction",
    "hon." := "honorific",
    "intj." := "interjection",
    "inte." := "interrogative",
    "prep." := "preposition",
    "pos." := "postposition",
    "phr." := "phrase",
    "aux." := "auxiliary"
  ]

  /** The names listed by the `PartOfSpeech` annotation of the `pos` field. */
  const PartOfSpeechNames: set<string> := {
    "noun", "verb", "affix", "irregular_verb", "stative_verb", "adverb", "pronoun", "particle",
    "conjunction", "honorific", "interjection", "interrogative", "preposition", "postposition",
    "phrase", "auxiliary", "number"}

  /** Every abbreviation of the table has a name of its own, and every name
      is one the `PartOfSpeech` annotation lists except that of "irr.v.":
      the table gives "irregular verb", so "irregular_verb" never reaches a
      parsed record. */
  lemma PosTableNames()
    ensures forall a, b :: a in PosTable && b in PosTable && PosTable[a] == PosTable[b] ==> a == b
    ensures forall k :: k in PosTable ==> (PosTable[k] in PartOfSpeechNames <==> k != "irr.v.")
    ensures "irregular_verb" !in PosTable.Values
  {
  }

  /** The word-class tokens; the stored word class keeps the trailing dot. */
  const ClassTokens: set<string> := {"i.", "ii.", "iii."}

  /** Every value a word class can take, "" meaning "none given". */
  const WordClasses: set<string> := ClassTokens + {""}

  /** The fatal conditions of a parse. `UnknownPartOfSpeech` is the exit
      with "cannot find POS in table: <line>"; `NoPreviousEntry` is the
      IndexError of `res[len(res) - 1]` on an empty result list. */
  datatype ParseError = UnknownPartOfSpeech(line: string) | NoPreviousEntry

  datatype Result<+T> = Success(value: T) | Failure(error: ParseError)

  /** The index of the last token that belongs to `keys`, if any. */
  function LastMatch(mods: seq<string>, keys: set<string>): (r: Option<nat>)
    ensures r.None? <==> forall k :: 0 <= k < |mods| ==> mods[k] !in keys
    ensures r.Some? ==> r.value < |mods| && mods[r.value] in keys
    ensures r.Some? ==> forall j :: r.value < j < |mods| ==> mods[j] !in keys
    decreases |mods|
  {
    if mods == [] then None
    else if mods[|mods| - 1] in keys then Some(|mods| - 1)
    else
      var init := mods[..|mods| - 1];
      assert forall k :: 0 <= k < |init| ==> init[k] == mods[k];
      LastMatch(init, keys)
  }

  /** The value of `pos` after the token loop: the last modifier token that
      is a key of the table, or "" if none is. */
  function LastPosKey(mods: seq<string>): (r: string)
    ensures r in PosTable <==> exists k :: 0 <= k < |mods| && mods[k] in PosTable
    ensures r !in PosTable <==> r == ""
    ensures r in PosTable ==> exists k :: 0 <= k < |mods| && mods[k] == r
  {
    assert "" !in PosTable;
    match LastMatch(mods, PosTable.Keys)
    case None => ""
    case Some(k) => mods[k]
  }

  /** The value of `wclass` after the token loop: the last modifier token
      that is `i.`, `ii.` or `iii.`, or "" if none is. */
  function LastWordClass(mods: seq<string>): (r: string)
    ensures r in WordClasses
    ensures r != "" <==> exists k :: 0 <= k < |mods| && mods[k] in ClassTokens
  {
    match LastMatch(mods, ClassTokens)
    case None => ""
    case Some(k) => mods[k]
  }

  /** No word-class token is a key of the table, so the `elif` of the token
      loop never hides a word class. */
  lemma ClassTokensAreNotKeys()
    ensures forall t :: t in ClassTokens ==> t !in PosTable
  {
  }

  /** The token loop of `next_line`: every table key overwrites `pos`, every
      word-class token overwrites `wclass`, so the last of each kind wins. */
  method ScanModifiers(mods: seq<string>) returns (pos: string, wclass: string)
    ensures pos == LastPosKey(mods) && wclass == LastWordClass(mods)
  {
    pos, wclass := "", "";
    ClassTokensAreNotKeys();
    for i := 0 to |mods|
      invariant pos == LastPosKey(mods[..i])
      invariant wclass == LastWordClass(mods[..i])
    {
      var elem := mods[i];
      assert mods[..i + 1][..i] == mods[..i];
      if elem in PosTable {
        pos := elem;
      } else if elem in ClassTokens {
        wclass := elem;
      }
    }
    assert mods[..|mods|] == mods;
  }

  /** The separator between an entry's left-hand side and its definition. */
  const Delimiter: string := " // "

  /** A line whose first character is a space or a tab holds a derived term. */
  predicate IsIndented(line: string)
    requires line != ""
  {
    line[0] == ' ' || line[0] == '\t'
  }

  /** `c.strip().lower()` for the one-character string `c`. */
  function HeadingKey(c: char): (r: string)
    ensures r == "" <==> IsSpace(c)
    ensures |r| <= 1 && (r != "" ==> r[0] == Lower(c))
  {
    if IsSpace(c) then "" else [Lower(c)]
  }

  /** The text before and after the first " // " of an entry line. */
  function Sides(line: string): (r: (string, string))
    requires Contains(line, Delimiter)
    ensures line == r.0 + Delimiter + r.1
  {
    SplitOnce(line, Delimiter).value
  }

  /** The tokens of an entry line: its stripped left-hand side split on
      single spaces; the first one is the headword, the rest are modifiers. */
  function Tokens(line: string): (r: seq<string>)
    requires Contains(line, Delimiter)
    ensures |r| >= 1
  {
    Split(Strip(Sides(line).0), " ")
  }

  function Modifiers(line: string): seq<string>
    requires Contains(line, Delimiter)
  {
    Tokens(line)[1..]
  }

  /** No modifier token is a key of the table. */
  predicate NoPosKey(mods: seq<string>) {
    forall k :: 0 <= k < |mods| ==> mods[k] !in PosTable
  }
}
