/** The list form component: it reads the field schemas of a list form,
    keeps the value entered for every field together with a per-field error
    message, and hands each configured field to the form field dispatcher. */
module ListForm {
  import opened Wrappers
  import opened Seqs
  import opened JsValues
  import opened Schema
  import opened SPFormField
  import Strings

  /** One field to show (`IFieldConfiguration`). */
  datatype FieldConfiguration = FieldConfiguration(key: string, fieldName: string)

  /** The component's properties (`IListFormProps`) that its logic reads;
      `hasUpdateCallback` says whether `onUpdateFields` was given. */
  datatype ListFormProps = ListFormProps(
    webUrl: string,
    listName: string,
    formType: ControlMode,
    fields: Option<seq<FieldConfiguration>>,
    showUnsupportedFields: bool,
    hasUpdateCallback: bool)

  /** A call to the list form service. */
  datatype FormRequest = GetFieldSchemasForForm(webUrl: string, listName: string, formType: ControlMode)

  /** What `onUpdateFields` receives: the schema and the values. */
  datatype FieldsUpdate = FieldsUpdate(fieldsSchema: Option<seq<FieldSchema>>, data: map<string, Value>)

  const MissingListMessage: string := "Please configure a list in the web part's editor first."
  const RequiredMessage: string := "Please enter a value!"

  function SchemaErrorText(listName: string, error: string): string
  {
    "Error loading for list with name: " + listName + ": " + error
  }

  /** The first schema entry with the given internal name. */
  function SchemaFor(schema: seq<FieldSchema>, fieldName: string): (r: Option<FieldSchema>)
    ensures r.None? <==> forall i :: 0 <= i < |schema| ==> schema[i].internalName != fieldName
    ensures r.Some? ==>
      exists i :: 0 <= i < |schema| && schema[i] == r.value && (forall j :: 0 <= j < i ==> schema[j].internalName != fieldName)
    ensures r.Some? ==> r.value.internalName == fieldName
  {
    var k := FirstIndex(schema, (f: FieldSchema) => f.internalName == fieldName);
    if k < 0 then None else Some(schema[k])
  }

  /** The error a new value gives its field: the required message for a
      falsy value of a required field, otherwise none (the empty string). */
  function FieldError(schema: FieldSchema, v: Value): (r: string)
    ensures r == RequiredMessage <==> schema.required && !Truthy(v)
    ensures r == "" <==> !(schema.required && !Truthy(v))
  {
    if schema.required && !Truthy(v) then RequiredMessage else ""
  }

  /** The fields to show: the configured ones when given, otherwise one per
      schema field keyed and named by its internal name, in schema order,
      and none at all without a schema. */
  function GetFields(configured: Option<seq<FieldConfiguration>>, fieldsSchema: Option<seq<FieldSchema>>)
    : (r: Option<seq<FieldConfiguration>>)
    ensures configured.Some? ==> r == configured
    ensures configured.None? ==> (r.Some? <==> fieldsSchema.Some?)
    ensures configured.None? && fieldsSchema.Some? ==>
      |r.value| == |fieldsSchema.value|
      && forall i :: 0 <= i < |r.value| ==>
           r.value[i].key == fieldsSchema.value[i].internalName
           && r.value[i].fieldName == fieldsSchema.value[i].internalName
  {
    if configured.Some? then configured
    else if fieldsSchema.Some? then
      Some(MapSeq(fieldsSchema.value, (f: FieldSchema) => FieldConfiguration(f.internalName, f.internalName)))
    else None
  }

  /** `key.indexOf(prefix) === 0`. */
  predicate StartsWith(key: string, prefix: string)
  {
    |prefix| <= |key| && key[..|prefix|] == prefix
  }

  /** The values of the keys under `prefix`, with the prefix stripped. */
  function Collect(data: map<string, Value>, prefix: string): (r: map<string, Value>)
    ensures forall k :: k in data && StartsWith(k, prefix) ==> k[|prefix|..] in r && r[k[|prefix|..]] == data[k]
    ensures forall s :: s in r ==> prefix + s in data && data[prefix + s] == r[s]
  {
    var suffixes := set k | k in data && StartsWith(k, prefix) :: k[|prefix|..];
    assert forall k :: k in data && StartsWith(k, prefix) ==> k == prefix + k[|prefix|..];
    map s | s in suffixes && prefix + s in data :: data[prefix + s]
  }

  /** The extra data handed to field `fieldName`: the value stored under
      `fieldName + "."` when that key exists, otherwise an object of every
      key under that prefix, with the prefix stripped. */
  function ExtraData(data: map<string, Value>, fieldName: string): (r: Value)
    ensures fieldName + "." in data ==> r == data[fieldName + "."]
    ensures fieldName + "." !in data ==>
      r.Obj?
      && (forall s :: fieldName + "." + s in data ==> s in r.props && r.props[s] == data[fieldName + "." + s])
      && (forall s :: s in r.props ==> fieldName + "." + s in data && r.props[s] == data[fieldName + "." + s])
  {
    var prefix := fieldName + ".";
    if prefix in data then data[prefix]
    else
      var m := Collect(data, prefix);
      assert forall s :: prefix + s in data ==> StartsWith(prefix + s, prefix) && (prefix + s)[|prefix|..] == s;
      Obj(m)
  }

  /** What the form shows in place of its fields. */
  datatype FieldsView =
    | NoFieldsAvailable
    | FieldList(entries: seq<Option<FormFieldProps>>)

  /** The properties of the form field for configuration `c`, or nothing
      when the schema has no field of that name. */
  function FieldEntry(c: FieldConfiguration, schema: seq<FieldSchema>, data: map<string, Value>,
                      fieldErrors: map<string, string>, p: ListFormProps): (r: Option<FormFieldProps>)
    ensures r.None? <==> SchemaFor(schema, c.fieldName).None?
    ensures r.Some? ==>
      r.value.fieldSchema == SchemaFor(schema, c.fieldName).value
      && r.value.controlMode == p.formType
      && r.value.value == (if c.fieldName in data then data[c.fieldName] else Undefined)
      && r.value.extraData == ExtraData(data, c.fieldName)
      && r.value.errorMessage == (if c.fieldName in fieldErrors then Some(fieldErrors[c.fieldName]) else None)
      && r.value.hideIfFieldUnsupported == !p.showUnsupportedFields
      && !r.value.required && r.value.webUrl == p.webUrl
  {
    match SchemaFor(schema, c.fieldName)
    case None => None
    case Some(f) =>
      Some(FormFieldProps(f, p.formType,
                          if c.fieldName in data then data[c.fieldName] else Undefined,
                          ExtraData(data, c.fieldName),
                          if c.fieldName in fieldErrors then Some(fieldErrors[c.fieldName]) else None,
                          !p.showUnsupportedFields, None, None, false, p.webUrl))
  }

  /** The form's fields once a schema is loaded: one entry per field to
      show, in order, or a notice when there are none. */
  function RenderFields(p: ListFormProps, schema: seq<FieldSchema>, data: map<string, Value>,
                        fieldErrors: map<string, string>): (r: FieldsView)
    ensures var fields := GetFields(p.fields, Some(schema));
      (r.NoFieldsAvailable? <==> fields.None? || |fields.value| == 0)
      && (r.FieldList? ==>
            |r.entries| == |fields.value|
            && forall i :: 0 <= i < |r.entries| ==> r.entries[i] == FieldEntry(fields.value[i], schema, data, fieldErrors, p))
  {
    var fields := GetFields(p.fields, Some(schema));
    if fields.None? || |fields.value| == 0 then NoFieldsAvailable
    else FieldList(MapSeq(fields.value, (c: FieldConfiguration) => FieldEntry(c, schema, data, fieldErrors, p)))
  }

  /** Without configured fields every schema field is shown, with its own
      schema entry, in schema order. */
  lemma SchemaFieldsShown(p: ListFormProps, schema: seq<FieldSchema>, data: map<string, Value>,
                          fieldErrors: map<string, string>, i: int)
    requires p.fields.None? && 0 <= i < |schema|
    requires forall j :: 0 <= j < i ==> schema[j].internalName != schema[i].internalName
    ensures var r := RenderFields(p, schema, data, fieldErrors);
      r.FieldList? && |r.entries| == |schema| && r.entries[i].Some?
      && r.entries[i].value.fieldSchema == schema[i]
  {
    var fields := GetFields(p.fields, Some(schema));
    assert fields.value[i].fieldName == schema[i].internalName;
    var found := SchemaFor(schema, schema[i].internalName);
    assert found.Some?;
    var k :| 0 <= k < |schema| && schema[k] == found.value
      && (forall j :: 0 <= j < k ==> schema[j].internalName != schema[i].internalName);
    assert k == i;
  }

  class ListFormComponent {
    var props: ListFormProps
    var isLoadingSchema: bool
    var fieldsSchema: Option<seq<FieldSchema>>
    var data: map<string, Value>
    var fieldErrors: map<string, string>
    var errors: seq<string>
    /** Every call made to the list form service, oldest first. */
    var requests: seq<FormRequest>
    /** Every call made to `onUpdateFields`, oldest first. */
    var updates: seq<FieldsUpdate>

    /** Every recorded field error is the one the field's current value
        gives under the current schema. */
    predicate Valid()
      reads this
    {
      fieldsSchema.Some? ==>
        forall f :: f in fieldErrors ==>
          f in data && SchemaFor(fieldsSchema.value, f).Some?
          && fieldErrors[f] == FieldError(SchemaFor(fieldsSchema.value, f).value, data[f])
    }

    constructor (p: ListFormProps)
      ensures props == p && !isLoadingSchema && fieldsSchema == None
      ensures data == map[] && fieldErrors == map[] && errors == []
      ensures requests == [] && updates == []
      ensures Valid()
    {
      props := p;
      isLoadingSchema := false;
      fieldsSchema := None;
      data := map[];
      fieldErrors := map[];
      errors := [];
      requests := [];
      updates := [];
    }

    /** Reads the field schemas of the `formType` form of `listName`. */
    method ReadSchema(listName: string, formType: ControlMode, response: Result<seq<FieldSchema>, string>)
      modifies this
      ensures !isLoadingSchema
      ensures props == old(props) && data == old(data) && fieldErrors == old(fieldErrors) && updates == old(updates)
      ensures listName == "" ==>
        errors == [MissingListMessage] && requests == old(requests) && fieldsSchema == old(fieldsSchema)
      ensures listName != "" ==>
        requests == old(requests) + [GetFieldSchemasForForm(props.webUrl, listName, formType)]
      ensures listName != "" && response.Success? ==>
        fieldsSchema == Some(response.value) && errors == old(errors)
      ensures listName != "" && response.Failure? ==>
        fieldsSchema == old(fieldsSchema) && errors == old(errors) + [SchemaErrorText(listName, response.error)]
      ensures (listName == "" || response.Failure?) && old(Valid()) ==> Valid()
    {
      if listName == "" {
        isLoadingSchema := false;
        errors := [MissingListMessage];
        return;
      }
      isLoadingSchema := true;
      requests := requests + [GetFieldSchemasForForm(props.webUrl, listName, formType)];
      match response {
        case Success(schema) =>
          fieldsSchema := Some(schema);
        case Failure(e) =>
          errors := errors + [SchemaErrorText(listName, e)];
      }
      isLoadingSchema := false;
    }

    /** Field `fieldName` now holds `v`: the state updater stores the value
        and recomputes the field's error, then the setState callback calls
        `onUpdateFields`. `thrown` reports a TypeError: without a schema, or
        without a schema entry for the field, the updater throws and nothing
        changes; without `onUpdateFields` the callback throws after the new
        state is committed, because the optional callback is called
        unguarded. */
    method ValueChanged(fieldName: string, v: Value) returns (thrown: bool)
      modifies this
      ensures props == old(props) && fieldsSchema == old(fieldsSchema) && errors == old(errors)
      ensures requests == old(requests)
      ensures var entry := if fieldsSchema.Some? then SchemaFor(fieldsSchema.value, fieldName) else None;
        if entry.None? then
          thrown && data == old(data) && fieldErrors == old(fieldErrors) && updates == old(updates)
        else
          data == old(data)[fieldName := v]
          && fieldErrors == old(fieldErrors)[fieldName := FieldError(entry.value, v)]
          && (thrown <==> !props.hasUpdateCallback)
          && updates == old(updates) + (if props.hasUpdateCallback then [FieldsUpdate(fieldsSchema, data)] else [])
      ensures old(Valid()) ==> Valid()
    {
      if fieldsSchema.None? {
        return true;
      }
      var entry := SchemaFor(fieldsSchema.value, fieldName);
      if entry.None? {
        return true;
      }
      data := data[fieldName := v];
      fieldErrors := fieldErrors[fieldName := FieldError(entry.value, v)];
      if !props.hasUpdateCallback {
        return true;
      }
      updates := updates + [FieldsUpdate(fieldsSchema, data)];
      thrown := false;
    }
  }

  /** Filling a required field with a truthy value clears its error, and
      emptying it sets the required message. */
  lemma RequiredFieldError(schema: FieldSchema, v: Value)
    requires schema.required
    ensures FieldError(schema, v) == "" <==> Truthy(v)
    ensures FieldError(schema, Str("")) == RequiredMessage
    ensures FieldError(schema, Undefined) == RequiredMessage
  {
  }
}
