/** The term tree under a term set or an anchor term: it keeps the anchor's
    subtree with depths relative to the anchor, marks disabled terms (or,
    when asked for, terms under a disabled term listed before them) and
    expands or collapses on a click. */
module TermParent {
  import opened Wrappers
  import opened Seqs
  import opened Strings
  import opened Schema

  /** The properties the tree's logic reads. */
  datatype TermParentProps = TermParentProps(
    anchorId: Option<string>,
    disabledTermIds: Option<seq<string>>,
    disableChildrenOfDisabledParents: bool)

  /** What the tree shows under its header. */
  datatype TermsView =
    | Spinner
    | NoTermsMessage
    | TermRows(terms: seq<Term>, disabled: seq<bool>)

  /** `props.anchorId` is truthy. */
  predicate HasAnchor(anchorId: Option<string>)
  {
    anchorId.Some? && anchorId.value != ""
  }

  /** The number of times `c` occurs in `s`. */
  function CountChar(s: string, c: char): nat
  {
    if s == [] then 0 else (if s[0] == c then 1 else 0) + CountChar(s[1..], c)
  }

  lemma {:induction false} CountCharConcat(a: string, b: string, c: char)
    ensures CountChar(a + b, c) == CountChar(a, c) + CountChar(b, c)
  {
    if a != [] {
      CountCharConcat(a[1..], b, c);
      assert (a + b)[1..] == a[1..] + b;
    } else {
      assert a + b == b;
    }
  }

  lemma {:induction false} CountCharAbsent(s: string, c: char)
    requires forall k :: 0 <= k < |s| ==> s[k] != c
    ensures CountChar(s, c) == 0
  {
    if s != [] {
      CountCharAbsent(s[1..], c);
    }
  }

  /** Before the first occurrence of a one-character string, no character
      is that one. */
  lemma CharsBeforeIndexOf(s: string, c: char, n: int)
    requires 0 <= n <= |s|
    requires forall k :: 0 <= k < n ==> !OccursAt(s, [c], k)
    ensures CountChar(s[..n], c) == 0
  {
    forall k | 0 <= k < n ensures s[..n][k] != c {
      assert !OccursAt(s, [c], k);
      assert s[k..k + 1] == [s[k]];
      assert s[..n][k] == s[k];
    }
    CountCharAbsent(s[..n], c);
  }

  /** Splitting at a one-character separator gives one piece more than
      there are separators. */
  lemma {:induction false} SplitCount(s: string, c: char)
    ensures |Split(s, [c])| == CountChar(s, c) + 1
    decreases |s|
  {
    var i := IndexOf(s, [c]);
    if i < 0 {
      CharsBeforeIndexOf(s, c, |s|);
      assert s[..|s|] == s;
    } else {
      var rest := s[i + 1..];
      assert Split(s, [c]) == [s[..i]] + Split(rest, [c]);
      SplitCount(rest, c);
      CharsBeforeIndexOf(s, c, i);
      assert s[i..i + 1] == [c];
      assert s == s[..i] + [c] + rest;
      CountCharConcat(s[..i] + [c], rest, c);
      CountCharConcat(s[..i], [c], c);
    }
  }

  /** The term's id equals `id` once both are lower-cased. */
  function SameIdIgnoringCase(id: string): Term -> bool
  {
    (t: Term) => ToLower(t.id) == ToLower(id)
  }

  /** Index of the anchor term: the first term whose id matches `anchorId`
      case-insensitively, or -1. */
  function AnchorIndex(terms: seq<Term>, anchorId: string): int
  {
    FirstIndex(terms, SameIdIgnoringCase(anchorId))
  }

  /** `s.substring(0, n)`: the first `n` characters, or all of them. */
  function PathStart(s: string, n: nat): (r: string)
    ensures r <= s
    ensures |r| == if n <= |s| then n else |s|
  {
    if n <= |s| then s[..n] else s
  }

  /** The term lies in the anchor's subtree: its path starts with the
      anchor's path, and it is not the anchor itself. */
  function InSubtree(anchor: Term): Term -> bool
  {
    (t: Term) => PathStart(t.pathOfTerm, |anchor.pathOfTerm|) == anchor.pathOfTerm && t.id != anchor.id
  }

  /** The term's depth below the anchor: the difference of their numbers of
      ';'-separated path segments. */
  function Depth(t: Term, anchor: Term): int
  {
    |Split(t.pathOfTerm, ";")| - |Split(anchor.pathOfTerm, ";")|
  }

  function WithDepth(anchor: Term): Term -> Term
  {
    (t: Term) => t.(pathDepth := Some(Depth(t, anchor)))
  }

  /** The terms kept under the anchor, in order, with their depths set. */
  function Subtree(terms: seq<Term>, anchor: Term): seq<Term>
  {
    MapSeq(Filter(terms, InSubtree(anchor)), WithDepth(anchor))
  }

  /** The subtree test is a prefix test on the paths. */
  lemma InSubtreeIsPrefix(anchor: Term, t: Term)
    ensures InSubtree(anchor)(t) <==> anchor.pathOfTerm <= t.pathOfTerm && t.id != anchor.id
  {
    var n := |anchor.pathOfTerm|;
    if n > |t.pathOfTerm| {
      assert PathStart(t.pathOfTerm, n) != anchor.pathOfTerm;
    }
  }

  /** The depth is the difference of the numbers of ';' in the paths. */
  lemma DepthCountsSeparators(t: Term, anchor: Term)
    ensures Depth(t, anchor) == CountChar(t.pathOfTerm, ';') - CountChar(anchor.pathOfTerm, ';')
  {
    SplitCount(t.pathOfTerm, ';');
    SplitCount(anchor.pathOfTerm, ';');
  }

  /** A term whose path extends the anchor's is at depth zero or more. */
  lemma DepthNonNegative(t: Term, anchor: Term)
    requires anchor.pathOfTerm <= t.pathOfTerm
    ensures Depth(t, anchor) >= 0
  {
    var a := anchor.pathOfTerm;
    var p := t.pathOfTerm;
    assert p == a + p[|a|..];
    CountCharConcat(a, p[|a|..], ';');
    DepthCountsSeparators(t, anchor);
  }

  /** A direct child of the anchor, whose path adds one segment, is at
      depth one. */
  lemma ChildDepth(t: Term, anchor: Term, name: string)
    requires forall k :: 0 <= k < |name| ==> name[k] != ';'
    requires t.pathOfTerm == anchor.pathOfTerm + ";" + name
    ensures Depth(t, anchor) == 1
  {
    CountCharConcat(anchor.pathOfTerm + ";", name, ';');
    CountCharConcat(anchor.pathOfTerm, ";", ';');
    CountCharAbsent(name, ';');
    DepthCountsSeparators(t, anchor);
  }

  /** The subtree holds, in order, exactly the terms whose path extends the
      anchor's, other than the anchor, each with its depth below the anchor,
      which is never negative. */
  lemma SubtreeExact(terms: seq<Term>, anchor: Term)
    ensures var r := Subtree(terms, anchor);
      (forall k :: 0 <= k < |r| ==>
        r[k].pathDepth.Some? && r[k].pathDepth.value >= 0 &&
        exists j :: 0 <= j < |terms| && r[k] == terms[j].(pathDepth := Some(Depth(terms[j], anchor))) &&
          anchor.pathOfTerm <= terms[j].pathOfTerm && terms[j].id != anchor.id) &&
      (forall j :: 0 <= j < |terms| && anchor.pathOfTerm <= terms[j].pathOfTerm && terms[j].id != anchor.id ==>
        terms[j].(pathDepth := Some(Depth(terms[j], anchor))) in r)
  {
    var kept := Filter(terms, InSubtree(anchor));
    var r := Subtree(terms, anchor);
    forall k | 0 <= k < |r|
      ensures r[k].pathDepth.Some? && r[k].pathDepth.value >= 0
      ensures exists j :: (0 <= j < |terms| && r[k] == terms[j].(pathDepth := Some(Depth(terms[j], anchor))) &&
          anchor.pathOfTerm <= terms[j].pathOfTerm && terms[j].id != anchor.id)
    {
      assert kept[k] in terms;
      var j :| 0 <= j < |terms| && terms[j] == kept[k];
      InSubtreeIsPrefix(anchor, terms[j]);
      DepthNonNegative(terms[j], anchor);
    }
    forall j | 0 <= j < |terms| && anchor.pathOfTerm <= terms[j].pathOfTerm && terms[j].id != anchor.id
      ensures terms[j].(pathDepth := Some(Depth(terms[j], anchor))) in r
    {
      InSubtreeIsPrefix(anchor, terms[j]);
      assert terms[j] in kept;
      var k :| 0 <= k < |kept| && kept[k] == terms[j];
      assert r[k] == WithDepth(anchor)(kept[k]);
    }
  }

  /** The term's id is among the disabled ids. */
  predicate IsDisabledId(t: Term, props: TermParentProps)
  {
    props.disabledTermIds.Some? && |props.disabledTermIds.value| > 0 && t.id in props.disabledTermIds.value
  }

  /** The paths of the disabled terms among `terms`, in order: what the
      rendering loop has collected once it has seen `terms`. */
  function DisabledPaths(terms: seq<Term>, props: TermParentProps): seq<string>
    decreases |terms|
  {
    if terms == [] then []
    else
      var t := terms[|terms| - 1];
      DisabledPaths(terms[..|terms| - 1], props) + (if IsDisabledId(t, props) then [t.pathOfTerm] else [])
  }

  /** Whether a term is shown disabled, given the paths collected so far
      (its own included): with children of disabled parents disabled, when
      its path contains one of them; otherwise when its id is disabled. */
  predicate ShownDisabled(t: Term, props: TermParentProps, paths: seq<string>)
  {
    if props.disableChildrenOfDisabledParents then
      exists k :: 0 <= k < |paths| && Contains(t.pathOfTerm, paths[k])
    else
      IsDisabledId(t, props)
  }

  /** The disabled flag of every term, in order: the flags of all but the
      last term, then the last term's flag given every path collected. */
  function DisabledFlags(terms: seq<Term>, props: TermParentProps): (r: seq<bool>)
    ensures |r| == |terms|
    decreases |terms|
  {
    if terms == [] then []
    else
      var n := |terms| - 1;
      DisabledFlags(terms[..n], props) + [ShownDisabled(terms[n], props, DisabledPaths(terms, props))]
  }

  /** Each term's flag depends on the paths collected up to and including
      that term. */
  lemma {:induction false} DisabledFlagAt(terms: seq<Term>, props: TermParentProps, i: int)
    requires 0 <= i < |terms|
    ensures DisabledFlags(terms, props)[i] == ShownDisabled(terms[i], props, DisabledPaths(terms[..i + 1], props))
    decreases |terms|
  {
    var n := |terms| - 1;
    if i < n {
      DisabledFlagAt(terms[..n], props, i);
      assert terms[..n][..i + 1] == terms[..i + 1];
    } else {
      assert terms[..i + 1] == terms;
    }
  }

  /** A collected path is the path of a disabled term, and every disabled
      term's path is collected. */
  lemma {:induction false} DisabledPathsMembers(terms: seq<Term>, props: TermParentProps, p: string)
    ensures p in DisabledPaths(terms, props) <==>
      exists j :: 0 <= j < |terms| && IsDisabledId(terms[j], props) && terms[j].pathOfTerm == p
    decreases |terms|
  {
    if terms != [] {
      var n := |terms| - 1;
      DisabledPathsMembers(terms[..n], props, p);
      if exists j :: 0 <= j < |terms| && IsDisabledId(terms[j], props) && terms[j].pathOfTerm == p {
        var j :| 0 <= j < |terms| && IsDisabledId(terms[j], props) && terms[j].pathOfTerm == p;
        if j < n {
          assert terms[..n][j] == terms[j];
        }
      }
      if p in DisabledPaths(terms[..n], props) {
        var j :| 0 <= j < n && IsDisabledId(terms[..n][j], props) && terms[..n][j].pathOfTerm == p;
        assert terms[j] == terms[..n][j];
      }
    }
  }

  /** With children of disabled parents disabled, a term is shown disabled
      exactly when its path contains the path of a disabled term listed
      no later than it; otherwise exactly when its own id is disabled. */
  lemma ShownDisabledIff(terms: seq<Term>, props: TermParentProps, i: int)
    requires 0 <= i < |terms|
    ensures props.disableChildrenOfDisabledParents ==>
      (DisabledFlags(terms, props)[i] <==>
        exists j :: 0 <= j <= i && IsDisabledId(terms[j], props) && Contains(terms[i].pathOfTerm, terms[j].pathOfTerm))
    ensures !props.disableChildrenOfDisabledParents ==>
      (DisabledFlags(terms, props)[i] <==> IsDisabledId(terms[i], props))
  {
    var prefix := terms[..i + 1];
    var paths := DisabledPaths(prefix, props);
    DisabledFlagAt(terms, props, i);
    if props.disableChildrenOfDisabledParents {
      if DisabledFlags(terms, props)[i] {
        var k :| 0 <= k < |paths| && Contains(terms[i].pathOfTerm, paths[k]);
        DisabledPathsMembers(prefix, props, paths[k]);
        var j :| 0 <= j < |prefix| && IsDisabledId(prefix[j], props) && prefix[j].pathOfTerm == paths[k];
        assert prefix[j] == terms[j];
      }
      if exists j :: 0 <= j <= i && IsDisabledId(terms[j], props) && Contains(terms[i].pathOfTerm, terms[j].pathOfTerm) {
        var j :| 0 <= j <= i && IsDisabledId(terms[j], props) && Contains(terms[i].pathOfTerm, terms[j].pathOfTerm);
        assert prefix[j] == terms[j];
        DisabledPathsMembers(prefix, props, terms[j].pathOfTerm);
        var k :| 0 <= k < |paths| && paths[k] == terms[j].pathOfTerm;
      }
    }
  }

  /** A term whose id is disabled is shown disabled in both modes. */
  lemma DisabledTermShownDisabled(terms: seq<Term>, props: TermParentProps, i: int)
    requires 0 <= i < |terms| && IsDisabledId(terms[i], props)
    ensures DisabledFlags(terms, props)[i]
  {
    ShownDisabledIff(terms, props, i);
    ContainsSelf(terms[i].pathOfTerm);
  }

  /** The flags depend on the order of the terms: a child listed before its
      disabled parent is not shown disabled, one listed after it is. */
  lemma ChildBeforeDisabledParent(parent: Term, child: Term, props: TermParentProps)
    requires props.disableChildrenOfDisabledParents
    requires props.disabledTermIds == Some([parent.id]) && child.id != parent.id
    requires Contains(child.pathOfTerm, parent.pathOfTerm)
    ensures !DisabledFlags([child, parent], props)[0]
    ensures DisabledFlags([parent, child], props)[1]
  {
    ShownDisabledIff([child, parent], props, 0);
    ShownDisabledIff([parent, child], props, 1);
    assert [parent, child][0] == parent;
  }

  /** Looks for a collected path that occurs in the term's path. */
  method UnderDisabledPath(path: string, disabledPaths: seq<string>) returns (found: bool)
    ensures found == exists k :: 0 <= k < |disabledPaths| && Contains(path, disabledPaths[k])
  {
    var parentPath := Filter(disabledPaths, (p: string) => Contains(path, p));
    found := |parentPath| > 0;
    if found {
      assert parentPath[0] in disabledPaths;
    }
  }

  /** The rendering loop over the terms: a term whose id is disabled has
      its path collected; its flag is whether its id is disabled or, with
      children of disabled parents disabled, whether its path contains a
      path collected so far. */
  method CollectDisabledFlags(terms: seq<Term>, props: TermParentProps) returns (flags: seq<bool>)
    ensures flags == DisabledFlags(terms, props)
  {
    var ids := props.disabledTermIds;
    var disabledPaths: seq<string> := [];
    flags := [];
    var i := 0;
    while i < |terms|
      invariant 0 <= i <= |terms|
      invariant disabledPaths == DisabledPaths(terms[..i], props)
      invariant flags == DisabledFlags(terms[..i], props)
    {
      var term := terms[i];
      assert terms[..i + 1][..i] == terms[..i];
      var disabled := false;
      if ids.Some? && |ids.value| > 0 {
        disabled := term.id in ids.value;
        if disabled {
          disabledPaths := disabledPaths + [term.pathOfTerm];
        }
      }
      if props.disableChildrenOfDisabledParents {
        disabled := UnderDisabledPath(term.pathOfTerm, disabledPaths);
      }
      flags := flags + [disabled];
      i := i + 1;
    }
    assert terms[..i] == terms;
  }

  /** The tree component (`TermParent`). `terms` is absent until the term
      set's terms arrive. */
  class TermParentComponent {
    var props: TermParentProps
    var terms: Option<seq<Term>>
    var anchorName: Option<string>
    var loaded: bool
    var expanded: bool

    /** Loaded terms are present. */
    predicate Valid()
      reads this
    {
      loaded ==> terms.Some?
    }

    /** Starts not loaded and expanded. */
    constructor (p: TermParentProps)
      ensures Valid()
      ensures props == p && terms == None && anchorName == None
      ensures !loaded && expanded
    {
      props := p;
      terms := None;
      anchorName := None;
      loaded := false;
      expanded := true;
    }

    /** The term set's terms arrive. */
    method TermsLoaded(res: seq<Term>)
      modifies this
      ensures Valid()
      ensures terms == Some(res) && loaded
      ensures props == old(props) && anchorName == old(anchorName) && expanded == old(expanded)
    {
      terms := Some(res);
      loaded := true;
    }

    /** `componentWillMount`: with an anchor id, the first term whose id
        matches it case-insensitively becomes the anchor, and the terms are
        narrowed to its subtree with depths below it; without a match
        nothing changes. Reading the terms before they arrive throws a
        TypeError, reported as `ok == false`. */
    method WillMount() returns (ok: bool)
      requires Valid()
      modifies this
      ensures Valid()
      ensures props == old(props) && loaded == old(loaded) && expanded == old(expanded)
      ensures ok <==> !(HasAnchor(props.anchorId) && old(terms).None?)
      ensures !HasAnchor(props.anchorId) || old(terms).None? ==>
        terms == old(terms) && anchorName == old(anchorName)
      ensures HasAnchor(props.anchorId) && old(terms).Some? ==>
        var k := AnchorIndex(old(terms).value, props.anchorId.value);
        if k < 0 then terms == old(terms) && anchorName == old(anchorName)
        else
          anchorName == Some(old(terms).value[k].name) &&
          terms == Some(Subtree(old(terms).value, old(terms).value[k]))
    {
      ok := true;
      if props.anchorId.Some? && props.anchorId.value != "" {
        if terms.None? {
          return false;
        }
        var all := terms.value;
        var k := FirstIndex(all, SameIdIgnoringCase(props.anchorId.value));
        if k >= 0 {
          var anchorTerm := all[k];
          anchorName := Some(anchorTerm.name);
          var anchorTerms := Filter(all, InSubtree(anchorTerm));
          anchorTerms := MapSeq(anchorTerms, WithDepth(anchorTerm));
          terms := Some(anchorTerms);
        }
      }
    }

    /** `render`, below the header: a spinner until the terms arrive, a
        message for an empty term set, else every term with its disabled
        flag, collected in one pass. */
    method Render() returns (v: TermsView)
      requires Valid()
      ensures !loaded ==> v == Spinner
      ensures loaded && terms.value == [] ==> v == NoTermsMessage
      ensures loaded && terms.value != [] ==> v == TermRows(terms.value, DisabledFlags(terms.value, props))
    {
      if !loaded {
        return Spinner;
      }
      var all := terms.value;
      if |all| == 0 {
        return NoTermsMessage;
      }
      var flags := CollectDisabledFlags(all, props);
      return TermRows(all, flags);
    }

    /** `_handleClick`: expands a collapsed tree and collapses an expanded
        one. */
    method HandleClick()
      modifies this
      ensures expanded == !old(expanded)
      ensures props == old(props) && terms == old(terms) && anchorName == old(anchorName) && loaded == old(loaded)
    {
      expanded := !expanded;
    }
  }
}
