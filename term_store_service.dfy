/** The term store service: term stores, a term set, its terms, and
    searches by label and by name. Each step awaits the one before it
    inside a promise's executor, so a step that does not resolve leaves
    every later step unsettled. The term store's answers are parameters,
    and every call to it is an entry of the request log. */
module TermStoreService {
  import opened Wrappers
  import opened Seqs
  import opened Strings
  import opened JsValues
  import opened Schema
  import opened ServiceErrors

  /** How a label search compares labels. */
  datatype StringMatchOption = StartsWith | ExactMatch

  /** A call to the term store; stores and term sets are named by id. */
  datatype TaxonomyRequest =
    | TermStores(webUrl: string)
    | TermSetById(store: string, termSetId: string)
    | TermsOfSet(termSet: string)
    | TermsByLabel(store: string, termLabel: string, matchOption: StringMatchOption)

  /** `getTermStores`: the stores; a failure rejects with the mapped
      message. */
  function GetTermStores(webUrl: string, stores: Result<seq<string>, Value>): (r: Call<TaxonomyRequest, seq<string>>)
    ensures r.requests == [TermStores(webUrl)]
    ensures r.outcome == SettleMapped(webUrl, stores)
  {
    Call([TermStores(webUrl)], SettleMapped(webUrl, stores))
  }

  /** `getTermSet`: the term set with the given id in the first store. */
  function GetTermSet(webUrl: string, termSetId: string, stores: Result<seq<string>, Value>,
                      termSet: Result<string, Value>): (r: Call<TaxonomyRequest, string>)
    ensures |r.requests| >= 1 && r.requests[0] == TermStores(webUrl)
    ensures r.outcome.Resolved? ==>
      termSet == Success(r.outcome.value) && stores.Success? && stores.value != [] &&
      r.requests == [TermStores(webUrl), TermSetById(stores.value[0], termSetId)]
    ensures stores.Failure? || stores.value == [] ==> r == Call([TermStores(webUrl)], Unsettled)
  {
    var c := GetTermStores(webUrl, stores);
    if !c.outcome.Resolved? || c.outcome.value == [] then Call(c.requests, Unsettled)
    else Call(c.requests + [TermSetById(c.outcome.value[0], termSetId)], SettleMapped(webUrl, termSet))
  }

  /** `getAllTerms`: the terms of the term set. */
  function GetAllTerms(webUrl: string, termSetId: string, stores: Result<seq<string>, Value>,
                       termSet: Result<string, Value>, terms: Result<seq<Term>, Value>): (r: Call<TaxonomyRequest, seq<Term>>)
    ensures |r.requests| >= 1 && r.requests[0] == TermStores(webUrl)
    ensures r.outcome.Resolved? ==>
      terms == Success(r.outcome.value) && termSet.Success? &&
      r.requests == GetTermSet(webUrl, termSetId, stores, termSet).requests + [TermsOfSet(termSet.value)]
    ensures r.outcome.Rejected? ==> terms.Failure? && termSet.Success? && stores.Success?
    ensures stores.Failure? || termSet.Failure? ==> r.outcome.Unsettled?
  {
    var c := GetTermSet(webUrl, termSetId, stores, termSet);
    if !c.outcome.Resolved? then Call(c.requests, Unsettled)
    else Call(c.requests + [TermsOfSet(c.outcome.value)], SettleMapped(webUrl, terms))
  }

  /** `searchTermsByName`: the terms of the first store whose label starts
      with the text. */
  function SearchTermsByName(webUrl: string, searchText: string, stores: Result<seq<string>, Value>,
                             found: Result<seq<Term>, Value>): (r: Call<TaxonomyRequest, seq<Term>>)
    ensures |r.requests| >= 1 && r.requests[0] == TermStores(webUrl)
    ensures stores.Success? && stores.value != [] ==>
      r.requests == [TermStores(webUrl), TermsByLabel(stores.value[0], searchText, StartsWith)] &&
      r.outcome == SettleMapped(webUrl, found)
    ensures stores.Failure? || stores.value == [] ==> r.outcome.Unsettled?
  {
    var c := GetTermStores(webUrl, stores);
    if !c.outcome.Resolved? || c.outcome.value == [] then Call(c.requests, Unsettled)
    else Call(c.requests + [TermsByLabel(c.outcome.value[0], searchText, StartsWith)], SettleMapped(webUrl, found))
  }

  /** The terms whose names contain the text, ignoring case, in order. */
  function MatchingTerms(terms: seq<Term>, searchText: string): seq<Term>
  {
    if terms == [] then []
    else
      var last := terms[|terms| - 1];
      MatchingTerms(terms[..|terms| - 1], searchText) +
        (if ContainsIgnoreCase(last.name, searchText) then [last] else [])
  }

  /** The matching terms are exactly those whose names contain the text
      once both are lower-cased, in their original order. */
  lemma {:induction false} MatchingTermsIsFilter(terms: seq<Term>, searchText: string)
    ensures MatchingTerms(terms, searchText) ==
            Filter(terms, (t: Term) => ContainsIgnoreCase(t.name, searchText))
  {
    if terms != [] {
      var init := terms[..|terms| - 1];
      MatchingTermsIsFilter(init, searchText);
      assert terms == init + [terms[|terms| - 1]];
      FilterSnoc(init, terms[|terms| - 1], (t: Term) => ContainsIgnoreCase(t.name, searchText));
    }
  }

  /** An empty text matches every term. */
  lemma {:induction false} EmptySearchKeepsAll(terms: seq<Term>)
    ensures MatchingTerms(terms, "") == terms
  {
    if terms != [] {
      var last := terms[|terms| - 1];
      assert OccursAt(ToLower(last.name), ToLower(""), 0);
      IndexOfIsFirst(ToLower(last.name), ToLower(""), 0);
      EmptySearchKeepsAll(terms[..|terms| - 1]);
    }
  }

  lemma LowerTwice(s: string)
    ensures ToLower(ToLower(s)) == ToLower(s)
  {
  }

  /** The case of the search text does not matter. */
  lemma {:induction false} SearchIgnoresCase(terms: seq<Term>, searchText: string)
    ensures MatchingTerms(terms, ToLower(searchText)) == MatchingTerms(terms, searchText)
  {
    if terms != [] {
      LowerTwice(searchText);
      SearchIgnoresCase(terms[..|terms| - 1], searchText);
    }
  }

  /** `searchTermsByTermSet`: all terms of the set are fetched and those
      whose names contain the text, ignoring case, are kept in order. It
      never rejects: when fetching the terms does not resolve, it never
      settles. */
  method SearchTermsByTermSet(webUrl: string, termSetId: string, searchText: string,
                              stores: Result<seq<string>, Value>, termSet: Result<string, Value>,
                              terms: Result<seq<Term>, Value>)
    returns (r: Call<TaxonomyRequest, seq<Term>>)
    ensures var all := GetAllTerms(webUrl, termSetId, stores, termSet, terms);
      r.requests == all.requests &&
      r.outcome == (if all.outcome.Resolved? then Resolved(MatchingTerms(all.outcome.value, searchText))
                    else Unsettled)
    ensures !r.outcome.Rejected?
  {
    var all := GetAllTerms(webUrl, termSetId, stores, termSet, terms);
    if !all.outcome.Resolved? {
      return Call(all.requests, Unsettled);
    }
    var allTerms := all.outcome.value;
    var returnTerms: seq<Term> := [];
    var i := 0;
    while i < |allTerms|
      invariant 0 <= i <= |allTerms|
      invariant returnTerms == MatchingTerms(allTerms[..i], searchText)
    {
      assert allTerms[..i + 1][..i] == allTerms[..i];
      if Contains(ToLower(allTerms[i].name), ToLower(searchText)) {
        returnTerms := returnTerms + [allTerms[i]];
      }
      i := i + 1;
    }
    assert allTerms[..i] == allTerms;
    r := Call(all.requests, Resolved(returnTerms));
  }

  /** A search whose stores are not found, or whose term set cannot be
      read, never answers. */
  lemma SearchHangsOnEarlierFailure(webUrl: string, termSetId: string, searchText: string,
                                    storeError: Value, termSet: Result<string, Value>,
                                    terms: Result<seq<Term>, Value>)
    ensures GetAllTerms(webUrl, termSetId, Failure(storeError), termSet, terms).outcome == Unsettled
    ensures GetAllTerms(webUrl, termSetId, Success([]), termSet, terms).outcome == Unsettled
    ensures GetAllTerms(webUrl, termSetId, Success(["store"]), Failure(storeError), terms).outcome == Unsettled
  {
  }
}
