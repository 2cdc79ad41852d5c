/** The taxonomy field editor: picks terms from the field's term set and
    writes them back as `Name|guid;` entries, the GUID being the first
    8-4-4-4-12 hexadecimal group found in the term's id. */
module TaxonomyEdit {
  import opened Wrappers
  import opened Strings
  import opened Seqs
  import opened Schema

  /** A hexadecimal digit of either case (the pattern is case-insensitive). */
  predicate IsHex(c: char)
  {
    '0' <= c <= '9' || 'a' <= c <= 'f' || 'A' <= c <= 'F'
  }

  /** The offsets inside a GUID that hold a dash. */
  predicate DashOffset(k: int)
  {
    k == 8 || k == 13 || k == 18 || k == 23
  }

  /** A GUID (8-4-4-4-12 hexadecimal digits) starts at index `i` of `s`. */
  predicate GuidAt(s: string, i: int)
  {
    0 <= i && i + 36 <= |s| &&
    forall k :: 0 <= k < 36 ==> if DashOffset(k) then s[i + k] == '-' else IsHex(s[i + k])
  }

  /** The whole string is one GUID. */
  predicate IsGuid(g: string)
  {
    |g| == 36 && GuidAt(g, 0)
  }

  /** The first index at or after `from` where a GUID starts, or -1. */
  function GuidIndexFrom(s: string, from: nat): (r: int)
    ensures r == -1 || (from <= r && GuidAt(s, r))
    ensures forall i :: from <= i && (r < 0 || i < r) ==> !GuidAt(s, i)
    decreases |s| - from
  {
    if from + 36 > |s| then -1
    else if GuidAt(s, from) then from
    else GuidIndexFrom(s, from + 1)
  }

  /** The 36 characters starting at a GUID position form a GUID. */
  lemma GuidSlice(s: string, i: int)
    requires GuidAt(s, i)
    ensures IsGuid(s[i..i + 36])
  {
    var g := s[i..i + 36];
    forall k | 0 <= k < 36 ensures g[k] == s[i + k] {
    }
  }

  /** `extractGuid`: the leftmost GUID in the value, as written (the
      pattern ignores case but the match keeps it), or none. */
  function ExtractGuid(value: string): (r: Option<string>)
    ensures r.None? <==> forall i :: !GuidAt(value, i)
    ensures r.Some? ==> IsGuid(r.value)
    ensures r.Some? ==>
      exists i :: GuidAt(value, i) && r.value == value[i..i + 36] &&
        forall j :: 0 <= j < i ==> !GuidAt(value, j)
  {
    var i := GuidIndexFrom(value, 0);
    if i < 0 then None
    else
      GuidSlice(value, i);
      Some(value[i..i + 36])
  }

  /** A GUID on its own is extracted whole. */
  lemma ExtractWholeGuid(g: string)
    requires IsGuid(g)
    ensures ExtractGuid(g) == Some(g)
  {
    assert g[0..36] == g;
  }

  /** A GUID behind a prefix without hexadecimal digits is the one
      extracted, whatever follows it. */
  lemma ExtractGuidAfterPrefix(p: string, g: string, q: string)
    requires IsGuid(g)
    requires forall k :: 0 <= k < |p| ==> !IsHex(p[k])
    ensures ExtractGuid(p + g + q) == Some(g)
  {
    var s := p + g + q;
    forall k | 0 <= k < 36 ensures s[|p| + k] == g[k] {
    }
    assert GuidAt(s, |p|);
    forall j | 0 <= j < |p| ensures !GuidAt(s, j) {
      assert s[j + 0] == p[j];
      assert !DashOffset(0);
    }
    assert s[|p|..|p| + 36] == g;
  }

  /** The text string concatenation gives an extraction result: the GUID, or
      "null" when there was none. */
  function GuidText(g: Option<string>): (r: string)
    ensures g.Some? ==> r == g.value
    ensures g.None? ==> r == "null"
  {
    match g
    case None => "null"
    case Some(x) => x
  }

  /** Neither '|' nor ';' occurs in the GUID text of any id. */
  lemma GuidTextFree(id: string)
    ensures !Contains(GuidText(ExtractGuid(id)), "|")
    ensures !Contains(GuidText(ExtractGuid(id)), ";")
  {
    var t := GuidText(ExtractGuid(id));
    forall i | 0 <= i < |t| ensures t[i] != '|' && t[i] != ';' {
      if ExtractGuid(id).Some? {
        if DashOffset(i) {
        } else {
          assert IsHex(t[0 + i]);
        }
      }
    }
    CharAbsent(t, '|');
    CharAbsent(t, ';');
  }

  /** One term's entry without its closing ';'. */
  function EntryBody(t: Term): string
  {
    t.name + "|" + GuidText(ExtractGuid(t.id))
  }

  /** One term's entry in the field value. */
  function TermEntry(t: Term): string
  {
    EntryBody(t) + ";"
  }

  /** The value written for a selection of terms: their entries, in order,
      with nothing between them. */
  function TaxonomyValue(terms: seq<Term>): string
  {
    if terms == [] then "" else TermEntry(terms[0]) + TaxonomyValue(terms[1..])
  }

  /** Appending a term appends its entry. */
  lemma {:induction false} TaxonomyValueSnoc(terms: seq<Term>, t: Term)
    ensures TaxonomyValue(terms + [t]) == TaxonomyValue(terms) + TermEntry(t)
  {
    if terms == [] {
      assert [t][1..] == [];
    } else {
      assert (terms + [t])[1..] == terms[1..] + [t];
      TaxonomyValueSnoc(terms[1..], t);
    }
  }

  /** The value of one more term of a selection. */
  lemma TaxonomyValueStep(terms: seq<Term>, i: int)
    requires 0 <= i < |terms|
    ensures TaxonomyValue(terms[..i + 1]) == TaxonomyValue(terms[..i]) + TermEntry(terms[i])
  {
    assert terms[..i + 1] == terms[..i] + [terms[i]];
    TaxonomyValueSnoc(terms[..i], terms[i]);
  }

  /** The `onChange` handler: appends each picked term's entry to a string
      builder and hands the result on. */
  method OnChange(terms: seq<Term>) returns (value: string)
    ensures value == TaxonomyValue(terms)
  {
    value := "";
    var i := 0;
    while i < |terms|
      invariant 0 <= i <= |terms|
      invariant value == TaxonomyValue(terms[..i])
    {
      TaxonomyValueStep(terms, i);
      value := value + TermEntry(terms[i]);
      i := i + 1;
    }
    assert terms[..i] == terms;
  }

  /** A term name that the value can carry unambiguously. */
  predicate PlainName(name: string)
  {
    !Contains(name, "|") && !Contains(name, ";")
  }

  /** A term as read back from a field value: its name and GUID text. */
  datatype TermValue = TermValue(name: string, guid: string)

  /** Reads one `name|guid` entry. */
  function ParseEntry(e: string): TermValue
  {
    var kv := Split(e, "|");
    TermValue(kv[0], Join(kv[1..], "|"))
  }

  /** Reads a field value back into its entries. */
  function ParseTaxonomyValue(s: string): seq<TermValue>
  {
    MapSeq(DropLast(Split(s, ";")), ParseEntry)
  }

  /** What a term should read back as. */
  function Expected(t: Term): TermValue
  {
    TermValue(t.name, GuidText(ExtractGuid(t.id)))
  }

  /** An entry body of a plain name holds no ';'. */
  lemma EntryBodyFree(t: Term)
    requires PlainName(t.name)
    ensures !Contains(EntryBody(t), ";")
  {
    GuidTextFree(t.id);
    CharAbsent("|", ';');
    CharAbsentConcat(t.name, "|", ';');
    CharAbsentConcat(t.name + "|", GuidText(ExtractGuid(t.id)), ';');
  }

  /** Splitting the value at ';' yields the entry bodies and a final empty
      piece. */
  lemma {:induction false} SplitTaxonomyValue(terms: seq<Term>)
    requires forall k :: 0 <= k < |terms| ==> PlainName(terms[k].name)
    ensures Split(TaxonomyValue(terms), ";") == MapSeq(terms, EntryBody) + [""]
  {
    if terms == [] {
      assert IndexOf("", ";") < 0;
    } else {
      var t := terms[0];
      var b := EntryBody(t);
      var rest := TaxonomyValue(terms[1..]);
      assert TaxonomyValue(terms) == b + ";" + rest;
      EntryBodyFree(t);
      SplitAfterPart(b, ";", rest);
      SplitTaxonomyValue(terms[1..]);
      MapSeqCons(terms, EntryBody);
    }
  }

  /** One entry reads back as its term's name and GUID text. */
  lemma EntryRoundTrip(t: Term)
    requires PlainName(t.name)
    ensures ParseEntry(EntryBody(t)) == Expected(t)
  {
    var g := GuidText(ExtractGuid(t.id));
    SplitAfterPart(t.name, "|", g);
    JoinSplit(g, "|");
  }

  /** Reading the written value back gives every picked term's name and
      GUID text, in order, provided no name contains '|' or ';'. */
  lemma TaxonomyRoundTrip(terms: seq<Term>)
    requires forall k :: 0 <= k < |terms| ==> PlainName(terms[k].name)
    ensures ParseTaxonomyValue(TaxonomyValue(terms)) == MapSeq(terms, Expected)
  {
    SplitTaxonomyValue(terms);
    var bodies := MapSeq(terms, EntryBody);
    assert DropLast(bodies + [""]) == bodies;
    forall k | 0 <= k < |terms| ensures ParseEntry(bodies[k]) == Expected(terms[k]) {
      EntryRoundTrip(terms[k]);
    }
  }

  /** What the editor hands the taxonomy picker. */
  datatype PickerSettings = PickerSettings(
    termSet: string, panelTitle: string, labelText: string,
    allowMultipleSelections: bool, webUrl: string)

  /** The picker draws from the field's term set and allows several terms
      exactly when the field holds several values. */
  function Settings(schema: FieldSchema, webUrl: string): (r: PickerSettings)
    ensures r.termSet == schema.termSetId
    ensures r.allowMultipleSelections <==> schema.allowMultipleValues
    ensures r.webUrl == webUrl
  {
    PickerSettings(schema.termSetId, "Select Term", "Select a Term", schema.allowMultipleValues, webUrl)
  }
}
