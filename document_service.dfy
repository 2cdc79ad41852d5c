/** The document service: writes form values to a list item found by its
    unique id. The SharePoint calls are parameters (their answers) and
    entries of the request log. */
module DocumentService {
  import opened Wrappers
  import opened Seqs
  import opened JsValues
  import opened Schema
  import opened ServiceErrors

  /** One value sent to `validateUpdateListItem`, or one per-field result
      it answers with. */
  datatype FormValue = FormValue(
    fieldName: string, fieldValue: Value, hasException: bool, errorMessage: Option<string>)

  /** A call to SharePoint. */
  datatype DocumentRequest =
    | FileBlob(webUrl: string, fileRelativeUrl: string)
    | AddChunked(webUrl: string, listName: string, url: string)
    | ItemsByQuery(webUrl: string, listName: string, viewXml: string)
    | ValidateUpdate(webUrl: string, listName: string, itemId: Value,
                     values: seq<FormValue>, newDocumentUpdate: Option<bool>)

  /** A field whose value is sent: writable, present in the data (even as
      undefined) and not null. */
  predicate Sent(data: map<string, Value>, f: FieldSchema)
  {
    !f.readOnlyField && f.internalName in data && data[f.internalName] != Null
  }

  /** `data[name]`: undefined when the data has no such key. */
  function DataValue(data: map<string, Value>, name: string): Value
  {
    if name in data then data[name] else Undefined
  }

  /** The value sent for one field: no exception, no error message. */
  function ValueOf(data: map<string, Value>, f: FieldSchema): FormValue
  {
    FormValue(f.internalName, DataValue(data, f.internalName), false, None)
  }

  /** `GetFormValues`: the sent fields, in schema order, with their values. */
  function FormValues(schemas: seq<FieldSchema>, data: map<string, Value>): seq<FormValue>
  {
    MapSeq(Filter(schemas, (f: FieldSchema) => Sent(data, f)),
           (f: FieldSchema) => ValueOf(data, f))
  }

  /** Every value sent belongs to a writable field present in the data with
      a non-null value, and carries that value; every such field is sent. */
  lemma FormValuesExact(schemas: seq<FieldSchema>, data: map<string, Value>)
    ensures |FormValues(schemas, data)| <= |schemas|
    ensures forall v :: v in FormValues(schemas, data) ==>
      !v.hasException && v.errorMessage.None? &&
      exists f :: f in schemas && Sent(data, f) && v.fieldName == f.internalName &&
        v.fieldValue == data[f.internalName]
    ensures forall f :: f in schemas && Sent(data, f) ==>
      FormValue(f.internalName, data[f.internalName], false, None) in FormValues(schemas, data)
  {
    var p := (f: FieldSchema) => Sent(data, f);
    var m := (f: FieldSchema) => ValueOf(data, f);
    var kept := Filter(schemas, p);
    var r := MapSeq(kept, m);
    forall v | v in r
      ensures !v.hasException && v.errorMessage.None? &&
        exists f :: f in schemas && Sent(data, f) && v.fieldName == f.internalName &&
          v.fieldValue == data[f.internalName]
    {
      var k :| 0 <= k < |r| && r[k] == v;
      assert kept[k] in schemas && p(kept[k]);
    }
    forall f | f in schemas && Sent(data, f)
      ensures FormValue(f.internalName, data[f.internalName], false, None) in r
    {
      var j :| 0 <= j < |schemas| && schemas[j] == f;
      assert p(schemas[j]);
      var k :| 0 <= k < |kept| && kept[k] == f;
      assert r[k] == m(f);
    }
  }

  /** Values are sent in schema order: the values for two runs of fields
      are those of the first run followed by those of the second. */
  lemma FormValuesConcat(a: seq<FieldSchema>, b: seq<FieldSchema>, data: map<string, Value>)
    ensures FormValues(a + b, data) == FormValues(a, data) + FormValues(b, data)
  {
    var p := (f: FieldSchema) => Sent(data, f);
    var m := (f: FieldSchema) => ValueOf(data, f);
    FilterConcat(a, b, p);
    MapConcat(Filter(a, p), Filter(b, p), m);
  }

  /** A field whose value is explicitly undefined is sent (as undefined);
      one whose value is null is not. */
  lemma UndefinedSentNullDropped(f: FieldSchema, data: map<string, Value>)
    requires !f.readOnlyField && f.internalName in data
    ensures data[f.internalName] == Undefined ==>
      FormValues([f], data) == [FormValue(f.internalName, Undefined, false, None)]
    ensures data[f.internalName] == Null ==> FormValues([f], data) == []
  {
    var p := (g: FieldSchema) => Sent(data, g);
    FilterSnoc([], f, p);
    assert [] + [f] == [f];
  }

  const QueryStart: string :=
    "<View Scope='RecursiveAll'><Query><Where><Eq><FieldRef Name='UniqueId' /><Value Type='Guid'>"
  const QueryEnd: string := "</Value></Eq></Where></Query></View>"

  /** The CAML view that selects, in every folder, the item whose unique id
      equals the given id. */
  function ItemQuery(stringId: string): (r: string)
    ensures |r| == |QueryStart| + |stringId| + |QueryEnd|
    ensures r[..|QueryStart|] == QueryStart && r[|r| - |QueryEnd|..] == QueryEnd
  {
    QueryStart + stringId + QueryEnd
  }

  /** The id sits between the fixed parts of the query, so the query names
      exactly one id. */
  lemma ItemQueryNamesId(a: string, b: string)
    ensures ItemQuery(a)[|QueryStart|..|ItemQuery(a)| - |QueryEnd|] == a
    ensures ItemQuery(a) == ItemQuery(b) <==> a == b
  {
    var q := ItemQuery(a);
    assert q[|QueryStart|..|q| - |QueryEnd|] == a;
    if ItemQuery(a) == ItemQuery(b) {
      var r := ItemQuery(b);
      assert r[|QueryStart|..|r| - |QueryEnd|] == b;
    }
  }

  /** `getFileFromListAsBlob`: the file's contents; a failure rejects with
      the error as it came. */
  function GetFileFromListAsBlob<T>(webUrl: string, fileRelativeUrl: string,
                                    response: Result<T, Value>): (r: Call<DocumentRequest, T>)
    ensures r.requests == [FileBlob(webUrl, fileRelativeUrl)]
    ensures response.Success? ==> r.outcome == Resolved(response.value)
    ensures response.Failure? ==> r.outcome == Rejected(response.error)
  {
    Call([FileBlob(webUrl, fileRelativeUrl)], SettleRaw(response))
  }

  /** `addFileBlob`: the upload result; a failure rejects with the mapped
      message. */
  function AddFileBlob<T>(webUrl: string, listName: string, url: string,
                          response: Result<T, Value>): (r: Call<DocumentRequest, T>)
    ensures r.requests == [AddChunked(webUrl, listName, url)]
    ensures response.Success? ==> r.outcome == Resolved(response.value)
    ensures response.Failure? && ErrorMessage(webUrl, response.error).Success? ==>
      r.outcome == Rejected(ErrorMessage(webUrl, response.error).value)
  {
    Call([AddChunked(webUrl, listName, url)], SettleMapped(webUrl, response))
  }

  /** The list item the query answered with first, or none when reading
      `res[0].ID` throws. */
  function FirstItemId(rows: seq<Value>): (r: Option<Value>)
    ensures r.Some? <==> rows != [] && rows[0] != Null && rows[0] != Undefined
    ensures r.Some? ==> Prop(rows[0], "ID") == Success(r.value)
  {
    if rows == [] then None
    else
      var id := Prop(rows[0], "ID");
      if id.Success? then Some(id.value) else None
  }

  /** `updateItem`, as written: the item is looked up by a CAML query and
      then validated and updated with the form values. The lookup is
      awaited inside the promise's executor, so a failed lookup, or one
      that finds no item, leaves the promise unsettled. */
  function UpdateItem(webUrl: string, listName: string, stringId: string,
                      schemas: seq<FieldSchema>, data: map<string, Value>,
                      newDocumentUpdate: Option<bool>,
                      queried: Result<seq<Value>, Value>,
                      updated: Result<seq<FormValue>, Value>): (r: Call<DocumentRequest, seq<FormValue>>)
    ensures |r.requests| >= 1 && r.requests[0] == ItemsByQuery(webUrl, listName, ItemQuery(stringId))
    ensures r.outcome.Resolved? ==> queried.Success? && updated.Success? && r.outcome.value == updated.value
    ensures queried.Success? && FirstItemId(queried.value).Some? ==>
      r.requests == [ItemsByQuery(webUrl, listName, ItemQuery(stringId)),
                     ValidateUpdate(webUrl, listName, FirstItemId(queried.value).value,
                                    FormValues(schemas, data), newDocumentUpdate)] &&
      r.outcome == SettleMapped(webUrl, updated)
    ensures queried.Failure? || FirstItemId(queried.value).None? ==>
      |r.requests| == 1 && r.outcome == Unsettled
  {
    var query := [ItemsByQuery(webUrl, listName, ItemQuery(stringId))];
    if queried.Failure? then Call(query, Unsettled)
    else
      var id := FirstItemId(queried.value);
      if id.None? then Call(query, Unsettled)
      else
        Call(query + [ValidateUpdate(webUrl, listName, id.value, FormValues(schemas, data), newDocumentUpdate)],
             SettleMapped(webUrl, updated))
  }

  /** A lookup that fails, or that finds no item, is never reported: the
      caller waits forever. */
  lemma UpdateItemHangsWithoutItem(webUrl: string, listName: string, stringId: string,
                                   schemas: seq<FieldSchema>, data: map<string, Value>,
                                   updated: Result<seq<FormValue>, Value>)
    ensures UpdateItem(webUrl, listName, stringId, schemas, data, None,
                       Failure(Str("Not Found")), updated).outcome == Unsettled
    ensures UpdateItem(webUrl, listName, stringId, schemas, data, None,
                       Success([]), updated).outcome == Unsettled
  {
  }

  /** `updateItem` as evidently intended: a failed lookup rejects with the
      mapped message, as every other failure of the service does, and a
      lookup that finds no item rejects too. */
  function UpdateItemSettled(webUrl: string, listName: string, stringId: string,
                             schemas: seq<FieldSchema>, data: map<string, Value>,
                             newDocumentUpdate: Option<bool>,
                             queried: Result<seq<Value>, Value>,
                             updated: Result<seq<FormValue>, Value>): (r: Call<DocumentRequest, seq<FormValue>>)
    ensures r.outcome.Unsettled? ==>
      (queried.Failure? && ErrorMessage(webUrl, queried.error).Failure?) ||
      (updated.Failure? && ErrorMessage(webUrl, updated.error).Failure?)
  {
    var query := [ItemsByQuery(webUrl, listName, ItemQuery(stringId))];
    if queried.Failure? then Call(query, SettleMapped(webUrl, Failure(queried.error)))
    else
      var id := FirstItemId(queried.value);
      if id.None? then Call(query, Rejected(Str(NotFoundMessage(RelativeUrl(webUrl)))))
      else
        Call(query + [ValidateUpdate(webUrl, listName, id.value, FormValues(schemas, data), newDocumentUpdate)],
             SettleMapped(webUrl, updated))
  }

  /** The intended update settles whenever its errors can be described,
      and agrees with the code as written whenever the item is found. */
  lemma UpdateItemSettledAgrees(webUrl: string, listName: string, stringId: string,
                                schemas: seq<FieldSchema>, data: map<string, Value>,
                                newDocumentUpdate: Option<bool>,
                                queried: Result<seq<Value>, Value>,
                                updated: Result<seq<FormValue>, Value>)
    ensures var fixed := UpdateItemSettled(webUrl, listName, stringId, schemas, data, newDocumentUpdate, queried, updated);
      (queried.Failure? ==> ErrorMessage(webUrl, queried.error).Success? ==> fixed.outcome.Rejected?) &&
      (queried.Success? && FirstItemId(queried.value).None? ==> fixed.outcome.Rejected?) &&
      (queried.Success? && FirstItemId(queried.value).Some? ==>
        fixed == UpdateItem(webUrl, listName, stringId, schemas, data, newDocumentUpdate, queried, updated))
  {
  }
}
