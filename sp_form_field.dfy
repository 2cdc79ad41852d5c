/** The form field dispatcher: picks the editor or display component for a
    field's type and the form's mode, pre-processes display values, falls
    back to a plain text rendering for unsupported types, and wraps the
    control with its label, description and required marker. */
module SPFormField {
  import opened Wrappers
  import opened JsValues
  import opened Schema
  import Strings

  /** The properties a form field is rendered with (`ISPFormFieldProps`);
      `required` is false where the caller leaves it undefined. */
  datatype FormFieldProps = FormFieldProps(
    fieldSchema: FieldSchema,
    controlMode: ControlMode,
    value: Value,
    extraData: Value,
    errorMessage: Option<string>,
    hideIfFieldUnsupported: bool,
    fieldLabel: Option<string>,
    description: Option<string>,
    required: bool,
    webUrl: string)

  /** The edit components. */
  datatype Editor = TextEditor | LookupEditor | ChoiceEditor | NumberEditor | DateEditor
                  | BooleanEditor | TaxonomyEditor | UserEditor

  /** The display components. */
  datatype Display = TextDisplay | LookupDisplay | UserDisplay | UrlDisplay

  /** The value pre-processors of the display table. */
  datatype PreProcess = AsIs | JoinChoices | TermLabel | TermLabels

  /** The edit table: the component for each supported field type. */
  function EditorFor(fieldType: string): Option<Editor>
  {
    match fieldType
    case "Text" => Some(TextEditor)
    case "Note" => Some(TextEditor)
    case "Lookup" => Some(LookupEditor)
    case "LookupMulti" => Some(LookupEditor)
    case "Choice" => Some(ChoiceEditor)
    case "MultiChoice" => Some(ChoiceEditor)
    case "Number" => Some(NumberEditor)
    case "Currency" => Some(NumberEditor)
    case "DateTime" => Some(DateEditor)
    case "Boolean" => Some(BooleanEditor)
    case "File" => Some(TextEditor)
    case "TaxonomyFieldType" => Some(TaxonomyEditor)
    case "TaxonomyFieldTypeMulti" => Some(TaxonomyEditor)
    case "User" => Some(UserEditor)
    case "UserMulti" => Some(UserEditor)
    case _ => None
  }

  /** The display table: the component and value pre-processor for each
      supported field type. */
  function DisplayFor(fieldType: string): Option<(Display, PreProcess)>
  {
    match fieldType
    case "Text" => Some((TextDisplay, AsIs))
    case "Note" => Some((TextDisplay, AsIs))
    case "Lookup" => Some((LookupDisplay, AsIs))
    case "LookupMulti" => Some((LookupDisplay, AsIs))
    case "Choice" => Some((TextDisplay, AsIs))
    case "MultiChoice" => Some((TextDisplay, JoinChoices))
    case "Number" => Some((TextDisplay, AsIs))
    case "Currency" => Some((TextDisplay, AsIs))
    case "DateTime" => Some((TextDisplay, AsIs))
    case "Boolean" => Some((TextDisplay, AsIs))
    case "User" => Some((UserDisplay, AsIs))
    case "UserMulti" => Some((UserDisplay, AsIs))
    case "URL" => Some((UrlDisplay, AsIs))
    case "File" => Some((TextDisplay, AsIs))
    case "TaxonomyFieldType" => Some((TextDisplay, TermLabel))
    case "TaxonomyFieldTypeMulti" => Some((TextDisplay, TermLabels))
    case _ => None
  }

  const EditTypes: seq<string> := ["Text", "Note", "Lookup", "LookupMulti", "Choice", "MultiChoice",
    "Number", "Currency", "DateTime", "Boolean", "File", "TaxonomyFieldType",
    "TaxonomyFieldTypeMulti", "User", "UserMulti"]

  /** Edit mode supports exactly fifteen field types; URL and Attachments
      are not among them. */
  lemma EditSupport(fieldType: string)
    ensures EditorFor(fieldType).Some? <==> fieldType in EditTypes
    ensures EditorFor("URL").None? && EditorFor("Attachments").None?
  {
  }

  /** Display mode supports the edit types and URL, and not Attachments. */
  lemma DisplaySupport(fieldType: string)
    ensures DisplayFor(fieldType).Some? <==> fieldType in EditTypes || fieldType == "URL"
    ensures DisplayFor("Attachments").None?
  {
  }

  /** `val.map(v => v.Label)`: every element's label, or the TypeError of
      the first null or undefined element. */
  function Labels(items: seq<Value>): (r: Result<seq<Value>, string>)
    ensures r.Success? <==> forall i :: 0 <= i < |items| ==> Prop(items[i], "Label").Success?
    ensures r.Success? ==>
      |r.value| == |items| && forall i :: 0 <= i < |items| ==> Success(r.value[i]) == Prop(items[i], "Label")
  {
    if items == [] then Success([])
    else match Prop(items[0], "Label")
      case Failure(e) => Failure(e)
      case Success(l) =>
        match Labels(items[1..])
        case Failure(e) => Failure(e)
        case Success(ls) => Success([l] + ls)
  }

  /** A display pre-processor applied to a field value. A falsy value
      becomes the empty string; a truthy value that is not an array cannot
      be joined or mapped and throws. */
  function PreProcessValue(pre: PreProcess, v: Value): (r: Result<Value, string>)
    ensures pre == AsIs ==> r == Success(v)
    ensures pre != AsIs && !Truthy(v) ==> r == Success(Str(""))
    ensures (pre == JoinChoices || pre == TermLabels) && Truthy(v) && !v.Arr? ==> r.Failure?
    ensures pre == TermLabel && Truthy(v) ==> r == Prop(v, "Label")
  {
    match pre
    case AsIs => Success(v)
    case JoinChoices =>
      if !Truthy(v) then Success(Str(""))
      else if v.Arr? then Success(Str(JoinValues(v.items, ", ")))
      else Failure("TypeError")
    case TermLabel =>
      if !Truthy(v) then Success(Str("")) else Prop(v, "Label")
    case TermLabels =>
      if !Truthy(v) then Success(Str(""))
      else if v.Arr? then
        match Labels(v.items)
        case Failure(e) => Failure(e)
        case Success(ls) => Success(Str(JoinValues(ls, ", ")))
      else Failure("TypeError")
  }

  /** Strings as array elements. */
  function Strs(texts: seq<string>): (r: seq<Value>)
    ensures |r| == |texts| && forall i :: 0 <= i < |texts| ==> r[i] == Str(texts[i])
  {
    seq(|texts|, i requires 0 <= i < |texts| => Str(texts[i]))
  }

  /** Selected choices are displayed comma-separated. */
  lemma ChoicesDisplay(choices: seq<string>)
    ensures PreProcessValue(JoinChoices, Arr(Strs(choices))) == Success(Str(Strings.Join(choices, ", ")))
  {
    JoinValuesIsJoin(Strs(choices), ", ");
    assert ElementTexts(Strs(choices)) == choices;
  }

  /** Taxonomy values with the given labels. */
  function LabelledTerms(labels: seq<string>): (r: seq<Value>)
    ensures |r| == |labels| && forall i :: 0 <= i < |labels| ==> r[i] == Obj(map["Label" := Str(labels[i])])
  {
    seq(|labels|, i requires 0 <= i < |labels| => Obj(map["Label" := Str(labels[i])]))
  }

  /** Terms with labels are displayed as their labels, comma-separated. */
  lemma TermLabelsDisplay(labels: seq<string>)
    ensures PreProcessValue(TermLabels, Arr(LabelledTerms(labels))) == Success(Str(Strings.Join(labels, ", ")))
  {
    var terms := LabelledTerms(labels);
    forall i | 0 <= i < |terms| ensures Prop(terms[i], "Label") == Success(Str(labels[i])) {
      assert terms[i].props["Label"] == Str(labels[i]);
    }
    var r := Labels(terms);
    assert r.Success?;
    var ls := r.value;
    assert ls == Strs(labels);
    JoinValuesIsJoin(ls, ", ");
    assert ElementTexts(ls) == labels;
  }

  /** The text an unsupported field shows: nothing for a falsy value, a
      string as it is, anything else as JSON (`json` is `JSON.stringify`). */
  function ValueText(v: Value, json: Value -> string): (r: string)
    ensures !Truthy(v) ==> r == ""
    ensures Truthy(v) && v.Str? ==> r == v.s
    ensures Truthy(v) && !v.Str? ==> r == json(v)
  {
    if !Truthy(v) then "" else if v.Str? then v.s else json(v)
  }

  /** The notice shown for an unsupported field type. */
  function UnsupportedNotice(fieldType: string): string
  {
    "\"Unsupported field type\" \"" + fieldType + "\""
  }

  /** The control inside the form field wrapper. */
  datatype Control =
    | EditControl(editor: Editor, props: FormFieldProps)
    | DisplayControl(display: Display, props: FormFieldProps)
    | UnsupportedDisplay(text: string, notice: string)
    | UnsupportedEdit(text: string, multiline: bool, notice: string)

  /** What a form field renders: nothing, or a control wrapped with its
      label, description, required marker and error message. */
  datatype Rendered =
    | Nothing
    | Wrapped(labelText: string, description: string, required: bool, errorMessage: Option<string>, control: Control)

  /** `a || b` on optional strings. */
  function OrElse(a: Option<string>, b: string): string
  {
    if a.Some? && a.value != "" then a.value else b
  }

  /** The control for `p`, or nothing when its type is unsupported in its
      mode and unsupported fields are hidden. */
  function ControlFor(p: FormFieldProps, json: Value -> string): Result<Option<Control>, string>
  {
    var t := p.fieldSchema.fieldType;
    if p.controlMode == Display then
      match DisplayFor(t)
      case Some((d, pre)) =>
        (match PreProcessValue(pre, p.value)
         case Failure(e) => Failure(e)
         case Success(v) => Success(Some(DisplayControl(d, p.(value := v)))))
      case None =>
        if p.hideIfFieldUnsupported then Success(None)
        else Success(Some(UnsupportedDisplay(ValueText(p.value, json), UnsupportedNotice(t))))
    else
      match EditorFor(t)
      case Some(e) => Success(Some(EditControl(e, p)))
      case None =>
        if p.hideIfFieldUnsupported then Success(None)
        else Success(Some(UnsupportedEdit(ValueText(p.value, json), Truthy(p.value) && !p.value.Str?,
                                          UnsupportedNotice(t))))
  }

  /** Renders one form field. */
  function RenderField(p: FormFieldProps, json: Value -> string): (r: Result<Rendered, string>)
    ensures r.Success? && r.value.Wrapped? ==>
      r.value.labelText == OrElse(p.fieldLabel, p.fieldSchema.title)
      && r.value.description == OrElse(p.description, p.fieldSchema.description)
      && r.value.required == p.fieldSchema.required
      && r.value.errorMessage == p.errorMessage
  {
    match ControlFor(p, json)
    case Failure(e) => Failure(e)
    case Success(None) => Success(Nothing)
    case Success(Some(c)) =>
      Success(Wrapped(OrElse(p.fieldLabel, p.fieldSchema.title), OrElse(p.description, p.fieldSchema.description),
                      p.fieldSchema.required, p.errorMessage, c))
  }

  /** The field type is supported in the field's mode. */
  predicate Supported(p: FormFieldProps)
  {
    if p.controlMode == Display then DisplayFor(p.fieldSchema.fieldType).Some?
    else EditorFor(p.fieldSchema.fieldType).Some?
  }

  /** A field renders nothing exactly when its type is unsupported in its
      mode and unsupported fields are hidden. */
  lemma HiddenIffUnsupported(p: FormFieldProps, json: Value -> string)
    ensures RenderField(p, json) == Success(Nothing) <==> !Supported(p) && p.hideIfFieldUnsupported
  {
  }

  /** An unsupported field that is shown displays its value text and the
      unsupported-type notice; in edit mode the text box is multiline
      exactly when the value is truthy and not a string. */
  lemma UnsupportedFallback(p: FormFieldProps, json: Value -> string)
    requires !Supported(p) && !p.hideIfFieldUnsupported
    ensures RenderField(p, json).Success? && RenderField(p, json).value.Wrapped?
    ensures var c := RenderField(p, json).value.control;
      var notice := "\"Unsupported field type\" \"" + p.fieldSchema.fieldType + "\"";
      if p.controlMode == Display then c == UnsupportedDisplay(ValueText(p.value, json), notice)
      else c == UnsupportedEdit(ValueText(p.value, json), Truthy(p.value) && !p.value.Str?, notice)
  {
  }

  /** A supported edit field gets its editor with the unchanged properties. */
  lemma EditDispatch(p: FormFieldProps, json: Value -> string)
    requires p.controlMode != Display && EditorFor(p.fieldSchema.fieldType).Some?
    ensures RenderField(p, json).Success?
    ensures RenderField(p, json).value.Wrapped?
    ensures RenderField(p, json).value.control == EditControl(EditorFor(p.fieldSchema.fieldType).value, p)
  {
  }

  /** A supported display field gets its display component with the value
      pre-processed, and fails only when the pre-processor throws. */
  lemma DisplayDispatch(p: FormFieldProps, json: Value -> string)
    requires p.controlMode == Display && DisplayFor(p.fieldSchema.fieldType).Some?
    ensures var (d, pre) := DisplayFor(p.fieldSchema.fieldType).value;
      var r := RenderField(p, json);
      (r.Failure? <==> PreProcessValue(pre, p.value).Failure?)
      && (r.Success? ==>
            r.value.Wrapped? && r.value.control == DisplayControl(d, p.(value := PreProcessValue(pre, p.value).value)))
  {
  }
}
