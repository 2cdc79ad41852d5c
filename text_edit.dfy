/** The text field editor: shows the field's text (empty for a missing
    value), is multiline for notes, and validates required fields and
    document file names. */
module TextEdit {
  import opened Wrappers
  import opened Strings
  import opened JsValues
  import opened Schema

  const BlankMessage: string := "You can't leave this blank."
  const FileNameMessage: string :=
    "File names can't begin or end with a period, or contain any of these characters: / \\  < > : * \" ? |."

  /** The characters a document file name may not contain. */
  const IllegalFileNameCharacters: seq<char> := ['/', '\\', '<', '>', ':', '*', '"', '?', '|', '.']

  /** The value the text box shows: the field's value, or the empty string
      for a falsy one. */
  function ShownValue(v: Value): (r: Value)
    ensures !Truthy(v) ==> r == Str("")
    ensures Truthy(v) ==> r == v
  {
    if Truthy(v) then v else Str("")
  }

  /** Some illegal character occurs in the text. */
  predicate HasIllegalCharacter(text: string)
  {
    exists c :: c in IllegalFileNameCharacters && Contains(text, [c])
  }

  /** The validation message for the shown text: a required field may not
      be blank; a document's file name may not contain an illegal character;
      the first rule takes precedence. */
  function ErrorMessage(schema: FieldSchema, text: string): (r: Option<string>)
    ensures r == Some(BlankMessage) <==> schema.required && IsBlank(text)
    ensures r == Some(FileNameMessage) <==>
      !(schema.required && IsBlank(text)) && schema.internalName == "FileLeafRef" && HasIllegalCharacter(text)
    ensures r.None? <==>
      !(schema.required && IsBlank(text)) && !(schema.internalName == "FileLeafRef" && HasIllegalCharacter(text))
  {
    if schema.required && IsBlank(text) then Some(BlankMessage)
    else if schema.internalName == "FileLeafRef" && HasIllegalCharacter(text) then Some(FileNameMessage)
    else None
  }

  /** The text box is multiline exactly for notes. */
  predicate Multiline(schema: FieldSchema)
  {
    schema.fieldType == "Note"
  }

  /** A file name with a character from the list is rejected wherever the
      character sits, unless the blank rule fires first. */
  lemma IllegalCharacterRejected(schema: FieldSchema, text: string, i: int)
    requires schema.internalName == "FileLeafRef" && !schema.required
    requires 0 <= i < |text| && text[i] in IllegalFileNameCharacters
    ensures ErrorMessage(schema, text) == Some(FileNameMessage)
  {
    ContainsSlice(text, i, i + 1);
    assert text[i..i + 1] == [text[i]];
  }

  /** A file name free of the listed characters passes when it is not a
      blank required value. */
  lemma CleanFileNameAccepted(schema: FieldSchema, text: string)
    requires forall i :: 0 <= i < |text| ==> text[i] !in IllegalFileNameCharacters
    requires !(schema.required && IsBlank(text))
    ensures ErrorMessage(schema, text).None?
  {
    forall c | c in IllegalFileNameCharacters ensures !Contains(text, [c]) {
      CharAbsent(text, c);
    }
  }

  /** White space in front of a value never changes whether the blank rule
      fires: padding a text with blanks leaves it blank exactly when it was. */
  lemma BlankPaddingIrrelevant(schema: FieldSchema, pad: string, text: string)
    requires IsBlank(pad)
    ensures ErrorMessage(schema, pad + text) == Some(BlankMessage) <==> ErrorMessage(schema, text) == Some(BlankMessage)
  {
    var s := pad + text;
    if IsBlank(text) {
      forall i | 0 <= i < |s| ensures IsWhiteSpace(s[i]) {
        if i >= |pad| {
          assert s[i] == text[i - |pad|];
        }
      }
    } else {
      var i :| 0 <= i < |text| && !IsWhiteSpace(text[i]);
      assert s[|pad| + i] == text[i];
    }
  }
}
