/** The lookup field editor. SharePoint stores a lookup value as the text
    `id;#text`; a multi-valued lookup stores several such pairs. The editor
    offers one dropdown option per lookup choice, reads the selection out of
    the stored text and writes the new selection back. */
module LookupEdit {
  import opened Wrappers
  import opened Seqs
  import opened Strings
  import opened Numbers
  import opened JsValues
  import opened Schema

  /** A dropdown option: the looked-up item's id and its text. */
  datatype DropdownOption = DropdownOption(key: int, text: string)

  /** One selected lookup value as the editor reads it from the stored text. */
  datatype LookupEntry = LookupEntry(key: JsNumber, text: string)

  /** The option the dropdown reports as changed, and whether it is now selected. */
  datatype ChangedItem = ChangedItem(key: int, text: string, selected: bool)

  const Separator: string := ";#"
  const NoneOption: DropdownOption := DropdownOption(0, "(None)")

  lemma SeparatorUnbordered()
    ensures |Separator| > 0 && Unbordered(Separator)
  {
    forall k | 0 < k < |Separator| ensures Separator[..k] != Separator[|Separator| - k..] {
      assert Separator[..k][0] == ';' && Separator[|Separator| - k..][0] == '#';
    }
  }

  /** A text without ';' cannot contain the separator. */
  lemma SeparatorNeedsSemicolon(s: string)
    requires ';' !in s
    ensures !Contains(s, Separator)
  {
    forall i | 0 <= i ensures !OccursAt(s, Separator, i) {
      if i + |Separator| <= |s| {
        assert s[i..i + |Separator|][0] == s[i];
        assert s[i] in s;
      }
    }
    ContainsIff(s, Separator);
  }

  /** The options: one per lookup choice, in order, behind a "(None)" option
      with key 0 when the field is single-valued and not required. */
  function Options(schema: FieldSchema, required: bool): (r: seq<DropdownOption>)
    ensures var offset := if schema.fieldType != "LookupMulti" && !required then 1 else 0;
      |r| == |schema.choices| + offset
      && (offset == 1 ==> r[0] == NoneOption)
      && forall i :: 0 <= i < |schema.choices| ==>
           r[i + offset] == DropdownOption(schema.choices[i].lookupId, schema.choices[i].lookupValue)
  {
    var options := MapSeq(schema.choices, (c: LookupChoice) => DropdownOption(c.lookupId, c.lookupValue));
    if schema.fieldType != "LookupMulti" && !required then [NoneOption] + options else options
  }

  /** The key a single-valued lookup shows as selected: the number before
      the first separator, or 0 for an empty value. A value that is not a
      string has no `split` and throws. */
  function SelectedKey(v: Value): (r: Result<JsNumber, string>)
    ensures !Truthy(v) ==> r == Success(Finite(0))
    ensures Truthy(v) && !v.Str? ==> r.Failure?
    ensures Truthy(v) && v.Str? ==> r.Success?
    ensures Truthy(v) && v.Str? && !Contains(v.s, Separator) ==> r == Success(ToNumber(v.s))
  {
    if !Truthy(v) then Success(Finite(0))
    else if v.Str? then Success(ToNumber(Split(v.s, Separator)[0]))
    else Failure("TypeError")
  }

  /** The text one entry is written as: `id;#text`. */
  function EntryText(key: JsNumber, text: string): string
  {
    NumberToString(key) + Separator + text
  }

  /** A selection in a single-valued lookup writes the chosen option. */
  function EmitSingle(o: DropdownOption): string
  {
    EntryText(Finite(o.key), o.text)
  }

  /** The decimal text of a number never contains the separator. */
  lemma NumberTextFree(x: JsNumber)
    ensures !Contains(NumberToString(x), Separator)
  {
    NumberTextCharacters(x, ';');
    SeparatorNeedsSemicolon(NumberToString(x));
  }

  /** The segment before the first separator of `id;#text` is `id`. */
  lemma FirstSegment(x: JsNumber, text: string)
    ensures Split(EntryText(x, text), Separator)[0] == NumberToString(x)
  {
    var p := NumberToString(x);
    NumberTextFree(x);
    SeparatorUnbordered();
    FirstSeparatorAfter(p, Separator, text);
    var s := EntryText(x, text);
    assert s[..|p|] == p;
  }

  /** A stored `id;#text` selects the number that `id` reads as, whatever
      the text holds. */
  lemma SelectedKeyOfEntry(id: string, text: string)
    requires !Contains(id, Separator)
    ensures SelectedKey(Str(id + Separator + text)) == Success(ToNumber(id))
  {
    SeparatorUnbordered();
    SplitAfterPart(id, Separator, text);
  }

  /** Reading back what a single-valued selection wrote gives the selected key. */
  lemma SingleRoundTrip(o: DropdownOption)
    ensures SelectedKey(Str(EmitSingle(o))) == Success(Finite(o.key))
  {
    FirstSegment(Finite(o.key), o.text);
    NumberTextRoundTrip(Finite(o.key));
  }

  /** The segments at even positions (`filter((_, idx) => idx % 2 === 0)`). */
  function EvenSegments(parts: seq<string>): (r: seq<string>)
    ensures |r| == (|parts| + 1) / 2
    ensures forall j :: 0 <= j < |r| ==> r[j] == parts[2 * j]
  {
    seq((|parts| + 1) / 2, j requires 0 <= j < (|parts| + 1) / 2 => parts[2 * j])
  }

  /** The entries of a multi-valued lookup value as the editor reads them:
      the keys are the even segments, but entry `j` takes its text from
      segment `j + 1` (its position among the keys, plus one) instead of
      segment `2 * j + 1`. */
  function ParseMultiAsWritten(v: Value): (r: Result<seq<LookupEntry>, string>)
    ensures !Truthy(v) ==> r == Success([])
    ensures Truthy(v) && !v.Str? ==> r.Failure?
  {
    if !Truthy(v) then Success([])
    else if v.Str? then
      var parts := Split(v.s, Separator);
      var keys := EvenSegments(parts);
      Success(seq(|keys|, j requires 0 <= j < |keys| =>
        LookupEntry(ToNumber(keys[j]), if |parts| > j + 1 then parts[j + 1] else "")))
    else Failure("TypeError")
  }

  /** The entries of a multi-valued lookup value, each key paired with the
      segment that follows it. */
  function ParseMulti(v: Value): (r: Result<seq<LookupEntry>, string>)
    ensures !Truthy(v) ==> r == Success([])
    ensures Truthy(v) && !v.Str? ==> r.Failure?
    ensures Truthy(v) && v.Str? ==>
      r.Success?
      && var parts := Split(v.s, Separator);
         |r.value| == (|parts| + 1) / 2
         && forall j :: 0 <= j < |r.value| ==>
              r.value[j].key == ToNumber(parts[2 * j])
              && r.value[j].text == (if 2 * j + 1 < |parts| then parts[2 * j + 1] else "")
  {
    if !Truthy(v) then Success([])
    else if v.Str? then
      var parts := Split(v.s, Separator);
      var keys := EvenSegments(parts);
      Success(seq(|keys|, j requires 0 <= j < |keys| =>
        LookupEntry(ToNumber(keys[j]), if 2 * j + 1 < |parts| then parts[2 * j + 1] else "")))
    else Failure("TypeError")
  }

  /** The test the deselect branch keeps an entry by: its key is not
      strictly equal to `key`. */
  function OtherKey(key: int): LookupEntry -> bool
  {
    (e: LookupEntry) => !StrictEquals(e.key, Finite(key))
  }

  /** The new selection after an option changed: a selected option is added
      at the end; a deselected one is removed, with every entry of its key,
      and every other entry is kept, as often as it occurs, in order. */
  function GetUpdatedValue(entries: seq<LookupEntry>, item: ChangedItem): (r: seq<LookupEntry>)
    ensures item.selected ==> r == entries + [LookupEntry(Finite(item.key), item.text)]
    ensures !item.selected ==> IsFilterOf(r, entries, OtherKey(item.key))
    ensures !item.selected ==>
      (forall i :: 0 <= i < |r| ==> !StrictEquals(r[i].key, Finite(item.key)))
      && (forall i :: 0 <= i < |entries| && !StrictEquals(entries[i].key, Finite(item.key)) ==> entries[i] in r)
  {
    if item.selected then entries + [LookupEntry(Finite(item.key), item.text)]
    else
      FilterIsFilterOf(entries, OtherKey(item.key));
      Filter(entries, OtherKey(item.key))
  }

  /** Deselecting an option that was just selected, and held no entry
      before, restores the earlier selection. */
  lemma SelectThenDeselect(entries: seq<LookupEntry>, key: int, text: string)
    requires forall i :: 0 <= i < |entries| ==> !StrictEquals(entries[i].key, Finite(key))
    ensures GetUpdatedValue(GetUpdatedValue(entries, ChangedItem(key, text, true)), ChangedItem(key, text, false)) == entries
  {
    FilterSnoc(entries, LookupEntry(Finite(key), text), OtherKey(key));
    FilterAll(entries, OtherKey(key));
  }

  /** The value the editor writes: every entry as `id;#text`, concatenated
      with nothing in between. */
  function EmitAsWritten(entries: seq<LookupEntry>): (r: string)
    ensures entries == [] ==> r == ""
  {
    if entries == [] then "" else EntryText(entries[0].key, entries[0].text) + EmitAsWritten(entries[1..])
  }

  /** The value with the entries separated: `id;#text;#id;#text...`. */
  function EmitMulti(entries: seq<LookupEntry>): (r: string)
    ensures entries == [] ==> r == ""
  {
    Join(MapSeq(entries, (e: LookupEntry) => EntryText(e.key, e.text)), Separator)
  }

  /** The segments the separated value consists of: each key's text, then
      the entry's text. */
  function Segments(entries: seq<LookupEntry>): (r: seq<string>)
    ensures |r| == 2 * |entries|
  {
    if entries == [] then []
    else [NumberToString(entries[0].key), entries[0].text] + Segments(entries[1..])
  }

  /** Entry `j` sits at segments `2 * j` and `2 * j + 1`. */
  lemma {:induction false} SegmentsAt(entries: seq<LookupEntry>, j: nat)
    requires j < |entries|
    ensures Segments(entries)[2 * j] == NumberToString(entries[j].key)
    ensures Segments(entries)[2 * j + 1] == entries[j].text
  {
    var head := [NumberToString(entries[0].key), entries[0].text];
    var rest := Segments(entries[1..]);
    assert Segments(entries) == head + rest;
    if j > 0 {
      SegmentsAt(entries[1..], j - 1);
      var i := 2 * (j - 1);
      assert (head + rest)[i + 2] == rest[i] && (head + rest)[i + 3] == rest[i + 1];
    }
  }

  lemma {:induction false} EmitMultiSegments(entries: seq<LookupEntry>)
    ensures EmitMulti(entries) == Join(Segments(entries), Separator)
  {
    if |entries| >= 1 {
      var rest := entries[1..];
      var f := (e: LookupEntry) => EntryText(e.key, e.text);
      var texts := MapSeq(entries, f);
      assert texts[1..] == MapSeq(rest, f);
      var n := NumberToString(entries[0].key);
      var t := entries[0].text;
      assert Segments(entries) == [n, t] + Segments(rest);
      assert Join([n, t] + Segments(rest), Separator) == n + Separator + Join([t] + Segments(rest), Separator) by {
        assert ([n, t] + Segments(rest))[1..] == [t] + Segments(rest);
      }
      if rest == [] {
        assert [t] + Segments(rest) == [t];
      } else {
        EmitMultiSegments(rest);
        assert ([t] + Segments(rest))[1..] == Segments(rest);
      }
    }
  }

  /** Entries the separated format can carry: integer keys, texts without
      the separator. */
  predicate Writable(entries: seq<LookupEntry>)
  {
    forall j :: 0 <= j < |entries| ==> entries[j].key.Finite? && !Contains(entries[j].text, Separator)
  }

  /** Splitting a separated value gives back its segments. */
  lemma SplitEmitMulti(entries: seq<LookupEntry>)
    requires entries != [] && Writable(entries)
    ensures Split(EmitMulti(entries), Separator) == Segments(entries)
  {
    var segs := Segments(entries);
    EmitMultiSegments(entries);
    forall k | 0 <= k < |segs| ensures !Contains(segs[k], Separator) {
      var j := k / 2;
      SegmentsAt(entries, j);
      if k % 2 == 0 {
        assert k == 2 * j;
        assert segs[2 * j] == NumberToString(entries[j].key);
        NumberTextFree(entries[j].key);
      } else {
        assert k == 2 * j + 1;
        assert segs[2 * j + 1] == entries[j].text;
      }
    }
    SeparatorUnbordered();
    SplitJoin(segs, Separator);
  }

  /** Reading back a separated value gives the entries that were written. */
  lemma MultiRoundTrip(entries: seq<LookupEntry>)
    requires Writable(entries)
    ensures ParseMulti(Str(EmitMulti(entries))) == Success(entries)
  {
    if entries != [] {
      SplitEmitMulti(entries);
      var s := EmitMulti(entries);
      var parts := Split(s, Separator);
      assert parts == Segments(entries);
      JoinLength(MapSeq(entries, (e: LookupEntry) => EntryText(e.key, e.text)), Separator);
      assert Truthy(Str(s));
      var r := ParseMulti(Str(s)).value;
      assert |r| == |entries|;
      forall j | 0 <= j < |entries| ensures r[j] == entries[j] {
        NumberTextRoundTrip(entries[j].key);
        SegmentsAt(entries, j);
        assert parts[2 * j] == NumberToString(entries[j].key);
        assert parts[2 * j + 1] == entries[j].text;
      }
      assert r == entries;
    }
  }

  /** The separated value of the updated selection: what a change in a
      multi-valued lookup writes once the separator is kept between entries. */
  function MultiChange(v: Value, item: ChangedItem): (r: Result<string, string>)
    ensures r.Success? <==> ParseMulti(v).Success?
  {
    match ParseMulti(v)
    case Failure(e) => Failure(e)
    case Success(entries) => Success(EmitMulti(GetUpdatedValue(entries, item)))
  }

  /** A change followed by a read gives the updated selection. */
  lemma MultiChangeRoundTrip(v: Value, item: ChangedItem)
    requires ParseMulti(v).Success? && Writable(ParseMulti(v).value)
    requires !Contains(item.text, Separator)
    ensures ParseMulti(Str(MultiChange(v, item).value)) == Success(GetUpdatedValue(ParseMulti(v).value, item))
  {
    var entries := ParseMulti(v).value;
    var updated := GetUpdatedValue(entries, item);
    assert Writable(updated) by {
      if !item.selected {
        forall j | 0 <= j < |updated| ensures updated[j].key.Finite? && !Contains(updated[j].text, Separator) {
          assert updated[j] in entries;
        }
      }
    }
    MultiRoundTrip(updated);
  }

  /** Reading a separated value of two entries as written keeps the first
      entry but gives the second one its own key text ("2" for the entry
      written "2;#B") as its text. */
  lemma ParseMultiAsWrittenMisreads(a: LookupEntry, b: LookupEntry)
    requires Writable([a, b])
    ensures var r := ParseMultiAsWritten(Str(EmitMulti([a, b])));
      r.Success? && r.value == [a, LookupEntry(b.key, NumberToString(b.key))]
    ensures b.text != NumberToString(b.key) ==> ParseMultiAsWritten(Str(EmitMulti([a, b]))) != Success([a, b])
    ensures ParseMulti(Str(EmitMulti([a, b]))) == Success([a, b])
  {
    var es := [a, b];
    SplitEmitMulti(es);
    MultiRoundTrip(es);
    var parts := Segments(es);
    SegmentsAt(es, 0);
    SegmentsAt(es, 1);
    NumberTextRoundTrip(a.key);
    NumberTextRoundTrip(b.key);
    var r := ParseMultiAsWritten(Str(EmitMulti(es))).value;
    assert r[0] == a && r[1] == LookupEntry(b.key, NumberToString(b.key));
  }

  /** The concatenated value of two entries is one text: the first key, the
      separator, the first text directly followed by the second key, the
      separator and the second text. */
  lemma EmitAsWrittenPair(a: LookupEntry, b: LookupEntry)
    ensures EmitAsWritten([a, b]) ==
      NumberToString(a.key) + Separator + (a.text + NumberToString(b.key)) + Separator + b.text
  {
    assert [a, b][1..] == [b] && [b][1..] == [];
  }

  /** The concatenated value of two entries splits into three segments:
      the first key, the first text run into the second key, and the second
      text. */
  lemma SplitEmitAsWrittenPair(a: LookupEntry, b: LookupEntry)
    requires ';' !in a.text && ';' !in b.text
    ensures Split(EmitAsWritten([a, b]), Separator) ==
      [NumberToString(a.key), a.text + NumberToString(b.key), b.text]
  {
    var n1 := NumberToString(a.key);
    var middle := a.text + NumberToString(b.key);
    EmitAsWrittenPair(a, b);
    JoinThree(n1, middle, b.text, Separator);
    NumberTextFree(a.key);
    NumberTextCharacters(b.key, ';');
    assert ';' !in middle;
    SeparatorNeedsSemicolon(middle);
    SeparatorNeedsSemicolon(b.text);
    SeparatorUnbordered();
    SplitJoin([n1, middle, b.text], Separator);
  }

  /** Written as concatenated pairs, two selected entries cannot be read
      back: the first text swallows the second key. */
  lemma EmitAsWrittenLosesEntries(a: LookupEntry, b: LookupEntry)
    requires ';' !in a.text && ';' !in b.text
    ensures ParseMulti(Str(EmitAsWritten([a, b]))) != Success([a, b])
  {
    SplitEmitAsWrittenPair(a, b);
    var r := ParseMulti(Str(EmitAsWritten([a, b]))).value;
    assert r[0].text == a.text + NumberToString(b.key);
  }
}
