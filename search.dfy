/** The searches of dictionaryparser/dictionary/__init__.py: two linear
    filters over a list of parsed Definitions, one on the headword and one
    on the definition text. */
module DictionarySearch {
  import opened Text
  import opened DictionaryParser

  /** What a search looks at: `search_word` or `search_definition`, with
      its search term. */
  datatype Query = ByWord(term: string) | ByDefinition(term: string)

  /** The predicate each search applies to one Definition. `search_word`
      tests `term in word or term == word`; `search_definition` tests
      `term in definition`. */
  predicate Matches(q: Query, d: Definition) {
    match q
    case ByWord(term) => Contains(d.word, term) || term == d.word
    case ByDefinition(term) => Contains(d.definition, term)
  }

  /** The equality disjunct of `search_word` adds nothing: a word contains
      itself. */
  lemma WordMatchesIff(term: string, d: Definition)
    ensures Matches(ByWord(term), d) <==> Contains(d.word, term)
  {
    ContainsSelf(d.word);
  }

  /** The Definitions of `ds` that match `q`, in their order in `ds`. */
  function Select(q: Query, ds: seq<Definition>): (r: seq<Definition>)
    ensures |r| <= |ds|
    decreases |ds|
  {
    if ds == [] then []
    else Select(q, ds[..|ds| - 1]) + (if Matches(q, ds[|ds| - 1]) then [ds[|ds| - 1]] else [])
  }

  /** `idx` picks the elements of `sub` out of `s` at strictly increasing
      positions. */
  predicate Embeds(idx: seq<nat>, sub: seq<Definition>, s: seq<Definition>) {
    && |idx| == |sub|
    && (forall k :: 0 <= k < |idx| ==> idx[k] < |s| && sub[k] == s[idx[k]])
    && (forall k, l :: 0 <= k < l < |idx| ==> idx[k] < idx[l])
  }

  /** A search returns a subsequence of the list, taking exactly the
      positions whose Definition matches. */
  lemma {:induction false} SelectPositions(q: Query, ds: seq<Definition>) returns (idx: seq<nat>)
    ensures Embeds(idx, Select(q, ds), ds)
    ensures forall i :: 0 <= i < |ds| ==> (Matches(q, ds[i]) <==> i in idx)
    decreases |ds|
  {
    if ds == [] {
      return [];
    }
    var init := ds[..|ds| - 1];
    var last := |ds| - 1;
    var prefix := SelectPositions(q, init);
    assert forall i :: 0 <= i < |init| ==> init[i] == ds[i];
    assert forall k :: 0 <= k < |prefix| ==> prefix[k] < last;
    if Matches(q, ds[last]) {
      idx := prefix + [last];
    } else {
      idx := prefix;
    }
  }

  /** Membership: a Definition is in the result exactly when it is in the
      list and matches. */
  lemma SelectMembers(q: Query, ds: seq<Definition>, d: Definition)
    ensures d in Select(q, ds) <==> d in ds && Matches(q, d)
  {
    var idx := SelectPositions(q, ds);
    var r := Select(q, ds);
    if d in r {
      var k :| 0 <= k < |r| && r[k] == d;
      assert ds[idx[k]] == d;
    }
    if d in ds && Matches(q, d) {
      var i :| 0 <= i < |ds| && ds[i] == d;
      assert i in idx;
      var k :| 0 <= k < |idx| && idx[k] == i;
      assert r[k] == d;
    }
  }

  /** An empty search term matches every Definition, so the search returns
      the whole list. */
  lemma {:induction false} SelectEmptyTerm(q: Query, ds: seq<Definition>)
    requires q.term == ""
    ensures Select(q, ds) == ds
    decreases |ds|
  {
    if ds != [] {
      ContainsEmpty(ds[|ds| - 1].word);
      ContainsEmpty(ds[|ds| - 1].definition);
      SelectEmptyTerm(q, ds[..|ds| - 1]);
    }
  }

  /** The `Dictionary` object over a list of parsed Definitions. */
  class Dictionary {
    var definitions: seq<Definition>

    constructor(definitions: seq<Definition>)
      ensures this.definitions == definitions
    {
      this.definitions := definitions;
    }

    /** `search_word`: the Definitions whose word contains the term. */
    method SearchWord(term: string) returns (res: seq<Definition>)
      ensures res == Select(ByWord(term), definitions)
    {
      res := [];
      for i := 0 to |definitions|
        invariant res == Select(ByWord(term), definitions[..i])
      {
        var definition := definitions[i];
        assert definitions[..i + 1][..i] == definitions[..i];
        if Contains(definition.word, term) || term == definition.word {
          res := res + [definition];
        }
      }
      assert definitions[..|definitions|] == definitions;
    }

    /** `search_definition`: the Definitions whose definition text contains
        the term. */
    method SearchDefinition(term: string) returns (res: seq<Definition>)
      ensures res == Select(ByDefinition(term), definitions)
    {
      res := [];
      for i := 0 to |definitions|
        invariant res == Select(ByDefinition(term), definitions[..i])
      {
        var definition := definitions[i];
        assert definitions[..i + 1][..i] == definitions[..i];
        if Contains(definition.definition, term) {
          res := res + [definition];
        }
      }
      assert definitions[..|definitions|] == definitions;
    }
  }
}
