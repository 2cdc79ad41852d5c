/** The term picker: suggests terms of a term set whose names contain the
    typed text, leaving out disabled terms, children of disabled parents and
    terms already picked. The whole term set, needed only for the parent
    check, is fetched once and kept. Every answer of the term store is a
    parameter of the method that awaits it (an outcome: resolved,
    rejected, or never settled), and every call to the store is
    appended to `requests`. */
module TermPicker {
  import opened Wrappers
  import opened Seqs
  import opened Strings
  import opened JsValues
  import opened Schema
  import opened StringOrder

  /** The picker's properties that its logic reads. */
  datatype TermPickerProps = TermPickerProps(
    webUrl: string,
    termSet: string,
    disabledTermIds: Option<seq<string>>,
    disableChildrenOfDisabledParents: bool,
    value: seq<Term>,
    allowMultipleSelections: bool)

  /** A call to the term store. */
  datatype TermRequest =
    | SearchTerms(webUrl: string, termSet: string, searchText: string)
    | AllTerms(webUrl: string, termSet: string)

  /** Some term id is disabled (`disabledTermIds && disabledTermIds.length > 0`). */
  predicate HasDisabledIds(ids: Option<seq<string>>)
  {
    ids.Some? && |ids.value| > 0
  }

  /** The term is checked against the disabled parents, which needs the
      whole term set. */
  predicate ChecksParents(t: Term, props: TermPickerProps)
  {
    HasDisabledIds(props.disabledTermIds) && t.id !in props.disabledTermIds.value
    && props.disableChildrenOfDisabledParents
  }

  /** Some term of the set is disabled and its path occurs in the term's path. */
  predicate UnderDisabledParent(t: Term, ids: seq<string>, all: seq<Term>)
  {
    exists k :: 0 <= k < |all| && all[k].id in ids && Contains(t.pathOfTerm, all[k].pathOfTerm)
  }

  /** Neither the term nor, when asked for, any of its disabled parents is
      disabled. */
  predicate CanBePicked(t: Term, props: TermPickerProps, all: seq<Term>)
  {
    var ids := props.disabledTermIds;
    !HasDisabledIds(ids) ||
    (t.id !in ids.value && !(props.disableChildrenOfDisabledParents && UnderDisabledParent(t, ids.value, all)))
  }

  /** No picked term has the term's id. */
  predicate Untagged(t: Term, tagList: seq<Term>)
  {
    forall k :: 0 <= k < |tagList| ==> tagList[k].id != t.id
  }

  function Suggestible(props: TermPickerProps, all: seq<Term>, tagList: seq<Term>): Term -> bool
  {
    (t: Term) => CanBePicked(t, props, all) && Untagged(t, tagList)
  }

  /** The suggestions offered for the search result `found`: the
      suggestions for all but its last term, then that term if it can be
      picked and is not picked yet. */
  function Suggestions(found: seq<Term>, props: TermPickerProps, all: seq<Term>, tagList: seq<Term>): seq<Term>
    decreases |found|
  {
    if found == [] then []
    else
      var t := found[|found| - 1];
      Suggestions(found[..|found| - 1], props, all, tagList) +
      (if CanBePicked(t, props, all) && Untagged(t, tagList) then [t] else [])
  }

  /** The suggestions are the search results that can be picked and are not
      picked yet (`filter`). */
  lemma {:induction false} SuggestionsAreFilter(found: seq<Term>, props: TermPickerProps, all: seq<Term>, tagList: seq<Term>)
    ensures Suggestions(found, props, all, tagList) == Filter(found, Suggestible(props, all, tagList))
    decreases |found|
  {
    if found != [] {
      var n := |found| - 1;
      SuggestionsAreFilter(found[..n], props, all, tagList);
      FilterSnoc(found[..n], found[n], Suggestible(props, all, tagList));
      assert found[..n] + [found[n]] == found;
    }
  }

  /** Some term of the search result needs the whole term set. */
  predicate NeedsAllTerms(found: seq<Term>, props: TermPickerProps)
  {
    exists k :: 0 <= k < |found| && ChecksParents(found[k], props)
  }

  lemma NeedsAllTermsSnoc(found: seq<Term>, t: Term, props: TermPickerProps)
    ensures NeedsAllTerms(found + [t], props) <==> NeedsAllTerms(found, props) || ChecksParents(t, props)
  {
    var s := found + [t];
    if NeedsAllTerms(s, props) && !ChecksParents(t, props) {
      var k :| 0 <= k < |s| && ChecksParents(s[k], props);
      assert k < |found| && s[k] == found[k];
    }
    if NeedsAllTerms(found, props) {
      var k :| 0 <= k < |found| && ChecksParents(found[k], props);
      assert s[k] == found[k];
    }
    if ChecksParents(t, props) {
      assert s[|found|] == t;
    }
  }

  /** The terms the cache holds, or none. */
  function CachedOrEmpty(cache: Option<seq<Term>>): seq<Term>
  {
    if cache.Some? then cache.value else []
  }

  function IsDisabledTerm(ids: seq<string>): Term -> bool
  {
    (t: Term) => t.id in ids
  }

  function PathWithin(path: string): Term -> bool
  {
    (pt: Term) => Contains(path, pt.pathOfTerm)
  }

  function SameId(t: Term): Term -> bool
  {
    (tag: Term) => tag.id == t.id
  }

  /** A disabled term whose path occurs in the term's path passes both
      filters over the term set. */
  lemma ParentCheckComplete(t: Term, ids: seq<string>, all: seq<Term>, k: int)
    requires 0 <= k < |all| && all[k].id in ids && Contains(t.pathOfTerm, all[k].pathOfTerm)
    ensures |Filter(Filter(all, IsDisabledTerm(ids)), PathWithin(t.pathOfTerm))| > 0
  {
    var parents := Filter(all, IsDisabledTerm(ids));
    assert IsDisabledTerm(ids)(all[k]);
    assert all[k] in parents;
    var j :| 0 <= j < |parents| && parents[j] == all[k];
    assert PathWithin(t.pathOfTerm)(parents[j]);
  }

  /** Whatever passes both filters is a disabled term whose path occurs in
      the term's path. */
  lemma ParentCheckSound(t: Term, ids: seq<string>, all: seq<Term>)
    requires |Filter(Filter(all, IsDisabledTerm(ids)), PathWithin(t.pathOfTerm))| > 0
    ensures UnderDisabledParent(t, ids, all)
  {
    var parents := Filter(all, IsDisabledTerm(ids));
    var found := Filter(parents, PathWithin(t.pathOfTerm));
    var p := found[0];
    assert p in parents && Contains(t.pathOfTerm, p.pathOfTerm);
    var j :| 0 <= j < |parents| && parents[j] == p;
    assert p in all && p.id in ids;
    var k :| 0 <= k < |all| && all[k] == p;
  }

  /** The two filters over the term set find something exactly when the
      term lies under a disabled parent. */
  lemma ParentCheck(t: Term, ids: seq<string>, all: seq<Term>)
    ensures |Filter(Filter(all, IsDisabledTerm(ids)), PathWithin(t.pathOfTerm))| > 0
        <==> UnderDisabledParent(t, ids, all)
  {
    if UnderDisabledParent(t, ids, all) {
      var k :| 0 <= k < |all| && all[k].id in ids && Contains(t.pathOfTerm, all[k].pathOfTerm);
      ParentCheckComplete(t, ids, all, k);
    } else if |Filter(Filter(all, IsDisabledTerm(ids)), PathWithin(t.pathOfTerm))| > 0 {
      ParentCheckSound(t, ids, all);
    }
  }

  /** No tag has the term's id exactly when filtering the tags by id finds
      nothing. */
  lemma TagCheck(t: Term, tagList: seq<Term>)
    ensures |Filter(tagList, SameId(t))| == 0 <==> Untagged(t, tagList)
  {
    var same := Filter(tagList, SameId(t));
    if |same| > 0 {
      assert same[0] in tagList;
    }
  }

  /** Looks for a disabled term of the set whose path occurs in the term's
      path. */
  method FindDisabledParent(term: Term, ids: seq<string>, allTerms: seq<Term>) returns (found: bool)
    ensures found == UnderDisabledParent(term, ids, allTerms)
  {
    found := false;
    if |allTerms| > 0 {
      var disabledParents := Filter(allTerms, IsDisabledTerm(ids));
      if |disabledParents| > 0 {
        var findTerm := Filter(disabledParents, PathWithin(term.pathOfTerm));
        if |findTerm| > 0 {
          found := true;
        }
      }
    }
    ParentCheck(term, ids, allTerms);
  }

  /** A term that is not checked against the disabled parents is pickable
      or not whatever the term set. */
  lemma PickableWithoutTermSet(t: Term, props: TermPickerProps, a: seq<Term>, b: seq<Term>)
    requires !ChecksParents(t, props)
    ensures CanBePicked(t, props, a) == CanBePicked(t, props, b)
  {
  }

  /** Tells whether a picked term has the term's id. */
  method IsTagged(term: Term, tagList: seq<Term>) returns (tagged: bool)
    ensures tagged == !Untagged(term, tagList)
  {
    TagCheck(term, tagList);
    tagged := |Filter(tagList, SameId(term))| != 0;
  }

  /** `itemLimit`: one term unless several may be picked. */
  function ItemLimit(allowMultipleSelections: bool): (r: Option<int>)
    ensures r.None? <==> allowMultipleSelections
    ensures r.Some? ==> r.value == 1
  {
    if !allowMultipleSelections then Some(1) else None
  }

  /** The ids of the terms, in order. */
  function Ids(terms: seq<Term>): seq<string>
  {
    MapSeq(terms, (t: Term) => t.id)
  }

  /** `value.map(a => a.Id).sort().join(',')`. */
  function IdKey(terms: seq<Term>): string
  {
    Join(Sort(Ids(terms)), ",")
  }

  /** Ids that are non-empty and free of ','. */
  predicate PlainIds(terms: seq<Term>)
  {
    forall k :: 0 <= k < |terms| ==> terms[k].id != "" && !Contains(terms[k].id, ",")
  }

  lemma SortedIdsPlain(terms: seq<Term>)
    requires PlainIds(terms)
    ensures forall k :: 0 <= k < |Sort(Ids(terms))| ==>
      Sort(Ids(terms))[k] != "" && !Contains(Sort(Ids(terms))[k], ",")
  {
    var ids := Ids(terms);
    var s := Sort(ids);
    SortSpec(ids);
    forall k | 0 <= k < |s| ensures s[k] != "" && !Contains(s[k], ",") {
      assert s[k] in multiset(s);
      assert s[k] in ids;
      var j :| 0 <= j < |ids| && ids[j] == s[k];
      assert ids[j] == terms[j].id;
    }
  }

  /** Comparing the joined, sorted ids tells apart exactly the selections
      that differ as collections of ids, whatever their order, as long as no
      id is empty or contains ','. */
  lemma IdKeyChangedIff(a: seq<Term>, b: seq<Term>)
    requires PlainIds(a) && PlainIds(b)
    ensures IdKey(a) != IdKey(b) <==> multiset(Ids(a)) != multiset(Ids(b))
  {
    var sa := Sort(Ids(a));
    var sb := Sort(Ids(b));
    SortDeterminedByMultiset(Ids(a), Ids(b));
    if sa != sb {
      SortedIdsPlain(a);
      SortedIdsPlain(b);
      SortSpec(Ids(a));
      SortSpec(Ids(b));
      if |sa| > 0 && |sb| > 0 {
        SplitJoin(sa, ",");
        SplitJoin(sb, ",");
      } else if |sa| > 0 {
        JoinLength(sa, ",");
      } else {
        JoinLength(sb, ",");
      }
    }
  }

  /** The loop of `onFilterChanged` over the search result `found`, with
      the cached term set `allTerms` as a local: a term is dropped when its
      id is disabled or, when asked for, when it lies under a disabled term
      of the set, which is fetched at the first term that needs it unless
      it is cached; a term not dropped is kept unless a tag has its id.
      `fetchedAll` tells whether the term set was requested. */
  method FilterSearchResult(found: seq<Term>, props: TermPickerProps, tagList: seq<Term>,
                            cache: Option<seq<Term>>, fetched: Outcome<seq<Term>, Value>)
    returns (r: Outcome<seq<Term>, Value>, allTerms: Option<seq<Term>>, fetchedAll: bool)
    ensures fetchedAll == (cache.None? && NeedsAllTerms(found, props))
    ensures fetchedAll && !fetched.Resolved? ==> r == fetched && allTerms == None
    ensures !(fetchedAll && !fetched.Resolved?) ==>
      allTerms == (if fetchedAll then Some(fetched.value) else cache) &&
      r == Resolved(Suggestions(found, props, CachedOrEmpty(allTerms), tagList))
  {
    ghost var all := if cache.Some? then cache.value
                     else if NeedsAllTerms(found, props) && fetched.Resolved? then fetched.value else [];
    allTerms := cache;
    fetchedAll := false;
    var ids := props.disabledTermIds;
    var filtered: seq<Term> := [];
    var i := 0;
    while i < |found|
      invariant 0 <= i <= |found|
      invariant fetchedAll == (cache.None? && NeedsAllTerms(found[..i], props))
      invariant fetchedAll ==> fetched.Resolved?
      invariant allTerms == (if fetchedAll then Some(fetched.value) else cache)
      invariant filtered == Suggestions(found[..i], props, all, tagList)
    {
      var term := found[i];
      assert found[..i + 1] == found[..i] + [term];
      NeedsAllTermsSnoc(found[..i], term, props);
      var canBePicked := true;
      if ids.Some? && |ids.value| > 0 {
        if term.id in ids.value {
          canBePicked := false;
        } else if props.disableChildrenOfDisabledParents {
          assert NeedsAllTerms(found, props) by {
            assert ChecksParents(found[i], props);
          }
          if allTerms.None? {
            fetchedAll := true;
            if !fetched.Resolved? {
              return fetched, None, true;
            }
            allTerms := Some(fetched.value);
          }
          var underParent := FindDisabledParent(term, ids.value, allTerms.value);
          if underParent {
            canBePicked := false;
          }
        }
      }
      assert canBePicked == CanBePicked(term, props, all);
      assert found[..i + 1][..i] == found[..i];
      if canBePicked {
        var tagged := IsTagged(term, tagList);
        if !tagged {
          filtered := filtered + [term];
        }
      }
      i := i + 1;
    }
    assert found[..i] == found;
    assert CachedOrEmpty(allTerms) == all;
    r := Resolved(filtered);
  }

  /** The picker (`TermPicker`): its properties, the picked terms and the
      cached term set. */
  class TermPickerComponent {
    var props: TermPickerProps
    var terms: seq<Term>
    var allTerms: Option<seq<Term>>
    var requests: seq<TermRequest>

    /** Starts with the given value picked and no term set cached. */
    constructor (p: TermPickerProps)
      ensures props == p && terms == p.value
      ensures allTerms == None && requests == []
    {
      props := p;
      terms := p.value;
      allTerms := None;
      requests := [];
    }

    /** `onFilterChanged`: searches the term set for the text, then keeps, in
        the order found, the terms that can be picked and are not picked
        yet. The whole term set is fetched at the first term that needs it,
        unless it is already cached; a search or fetch that rejects rejects
        this call with the same reason, one that never settles leaves this
        call unsettled too. */
    method OnFilterChanged(filterText: string, tagList: seq<Term>,
                           search: Outcome<seq<Term>, Value>, fetched: Outcome<seq<Term>, Value>)
      returns (r: Outcome<seq<Term>, Value>)
      modifies this
      ensures props == old(props) && terms == old(terms)
      ensures filterText == "" ==>
        r == Resolved([]) && allTerms == old(allTerms) && requests == old(requests)
      ensures filterText != "" && !search.Resolved? ==>
        r == search && allTerms == old(allTerms) &&
        requests == old(requests) + [SearchTerms(props.webUrl, props.termSet, filterText)]
      ensures filterText != "" && search.Resolved? ==>
        var fetches := old(allTerms).None? && NeedsAllTerms(search.value, props);
        requests == old(requests) + [SearchTerms(props.webUrl, props.termSet, filterText)] +
          (if fetches then [AllTerms(props.webUrl, props.termSet)] else []) &&
        if fetches && !fetched.Resolved? then
          r == fetched && allTerms == None
        else
          allTerms == (if fetches then Some(fetched.value) else old(allTerms)) &&
          r == Resolved(Suggestions(search.value, props, CachedOrEmpty(allTerms), tagList))
    {
      if filterText == "" {
        return Resolved([]);
      }
      requests := requests + [SearchTerms(props.webUrl, props.termSet, filterText)];
      if !search.Resolved? {
        return search;
      }
      var cache, fetchedAll;
      r, cache, fetchedAll := FilterSearchResult(search.value, props, tagList, allTerms, fetched);
      if fetchedAll {
        requests := requests + [AllTerms(props.webUrl, props.termSet)];
      }
      allTerms := cache;
    }

    /** `componentWillReceiveProps`: the picked terms are replaced by the new
        value exactly when the sorted, comma-joined ids differ; the
        component then holds the new properties. */
    method ReceiveProps(nextProps: TermPickerProps)
      modifies this
      ensures props == nextProps
      ensures terms == (if IdKey(nextProps.value) != IdKey(old(terms)) then nextProps.value else old(terms))
      ensures allTerms == old(allTerms) && requests == old(requests)
    {
      var newKeys := Join(Sort(Ids(nextProps.value)), ",");
      var currentKeys := Join(Sort(Ids(terms)), ",");
      if newKeys != currentKeys {
        terms := nextProps.value;
      }
      props := nextProps;
    }
  }

  /** Every suggestion comes from the search result, is not disabled, does
      not lie under a disabled parent when children are disabled, and is not
      picked yet; every search result with those properties is suggested;
      and the suggestions keep the search order. */
  lemma SuggestionsExact(found: seq<Term>, props: TermPickerProps, all: seq<Term>, tagList: seq<Term>)
    ensures var r := Suggestions(found, props, all, tagList);
      var ids := props.disabledTermIds;
      IsSubsequence(r, found) &&
      (forall t :: t in r ==>
        t in found && Untagged(t, tagList) &&
        (HasDisabledIds(ids) ==> t.id !in ids.value) &&
        (HasDisabledIds(ids) && props.disableChildrenOfDisabledParents ==> !UnderDisabledParent(t, ids.value, all))) &&
      (forall t :: t in found && CanBePicked(t, props, all) && Untagged(t, tagList) ==> t in r)
  {
    var r := Suggestions(found, props, all, tagList);
    SuggestionsAreFilter(found, props, all, tagList);
    FilterIsSubsequence(found, Suggestible(props, all, tagList));
    forall t | t in r ensures CanBePicked(t, props, all) && Untagged(t, tagList) {
      var k :| 0 <= k < |r| && r[k] == t;
    }
  }

  /** A term under a disabled term of the set is never suggested when
      children of disabled parents are disabled, even if it is not itself
      disabled. */
  lemma ChildOfDisabledParentHidden(t: Term, props: TermPickerProps, all: seq<Term>, tagList: seq<Term>, k: int)
    requires props.disabledTermIds.Some? && props.disableChildrenOfDisabledParents
    requires 0 <= k < |all| && all[k].id in props.disabledTermIds.value
    requires Contains(t.pathOfTerm, all[k].pathOfTerm)
    ensures t !in Suggestions([t], props, all, tagList)
  {
    assert |props.disabledTermIds.value| > 0;
  }
}
