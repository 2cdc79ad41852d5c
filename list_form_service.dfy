/** The list form service: reads a view's fields and items, and the field
    schemas of a list's new or edit form. The SharePoint calls are
    parameters (their answers) and entries of the request log. */
module ListFormService {
  import opened Wrappers
  import opened JsValues
  import opened Schema
  import opened ServiceErrors

  /** What `renderListDataAsStream` is asked to render. */
  datatype RenderOptions =
    | ListSchema
    | ListData(allowMultipleValueFilterForTaxonomyFields: bool, paging: Option<string>, overrideParameters: Value)
    | ClientFormSchema

  /** A call to SharePoint. */
  datatype ListRequest =
    | GetView(webUrl: string, listName: string, viewId: string)
    | RenderListData(webUrl: string, listName: string, viewXml: string, options: RenderOptions)

  /** The view asked for when only the form schemas are wanted. */
  const FormSchemaViewXml: string := "<View><ViewFields><FieldRef Name=\"ID\"/></ViewFields></View>"

  /** The schemas of one kind of form, per content type, in key order. */
  type Forms = seq<(string, seq<FieldSchema>)>

  /** The `ClientForms` part of a form-schema answer. */
  datatype ClientForms = ClientForms(newForms: Forms, editForms: Forms)

  /** The rendering of a view: its `HtmlSchemaXml` is fetched first (an
      await inside the promise's executor: a failure there leaves the
      promise unsettled), then the list data is rendered with it; a failure
      of the rendering rejects with the error as it came. */
  function RenderView<T>(webUrl: string, listName: string, viewId: string, options: RenderOptions,
                         view: Result<string, Value>, data: Result<T, Value>): (r: Call<ListRequest, T>)
    ensures view.Failure? ==> r == Call([GetView(webUrl, listName, viewId)], Unsettled)
    ensures view.Success? ==>
      r.requests == [GetView(webUrl, listName, viewId),
                     RenderListData(webUrl, listName, view.value, options)] &&
      r.outcome == SettleRaw(data)
  {
    if view.Failure? then Call([GetView(webUrl, listName, viewId)], Unsettled)
    else
      Call([GetView(webUrl, listName, viewId), RenderListData(webUrl, listName, view.value, options)],
           SettleRaw(data))
  }

  /** `getViewFields`: the `Field` part of the view's list schema. */
  function GetViewFields(webUrl: string, listName: string, viewId: string,
                         view: Result<string, Value>, fields: Result<seq<ViewField>, Value>): (r: Call<ListRequest, seq<ViewField>>)
    ensures |r.requests| >= 1 && r.requests[0] == GetView(webUrl, listName, viewId)
    ensures r.outcome.Resolved? ==>
      (view.Success? && fields == Success(r.outcome.value) && |r.requests| == 2 &&
       r.requests[1] == RenderListData(webUrl, listName, view.value, ListSchema))
    ensures r.outcome.Rejected? ==> view.Success? && fields == Failure(r.outcome.reason)
    ensures r.outcome.Unsettled? <==> view.Failure?
  {
    RenderView(webUrl, listName, viewId, ListSchema, view, fields)
  }

  /** `getViewItems`: the view's list data, with taxonomy fields allowed to
      filter on several values, the given paging and override parameters. */
  function GetViewItems<T>(webUrl: string, listName: string, viewId: string,
                           overrideParameters: Value, paging: Option<string>,
                           view: Result<string, Value>, rows: Result<T, Value>): (r: Call<ListRequest, T>)
    ensures |r.requests| >= 1 && r.requests[0] == GetView(webUrl, listName, viewId)
    ensures view.Success? ==>
      |r.requests| == 2 && r.requests[1] == RenderListData(webUrl, listName, view.value, ListData(true, paging, overrideParameters))
    ensures r.outcome.Resolved? ==> view.Success? && rows == Success(r.outcome.value)
    ensures r.outcome.Rejected? ==> view.Success? && rows == Failure(r.outcome.reason)
    ensures r.outcome.Unsettled? <==> view.Failure?
  {
    RenderView(webUrl, listName, viewId, ListData(true, paging, overrideParameters), view, rows)
  }

  /** `form[Object.keys(form)[0]]`: the schemas under the first key, or
      undefined for a form without keys. */
  function FirstForm(forms: Forms): (r: Option<seq<FieldSchema>>)
    ensures r.None? <==> forms == []
    ensures r.Some? ==> r.value == forms[0].1
  {
    if forms == [] then None else Some(forms[0].1)
  }

  /** The forms a control mode reads: the new forms for a new item, the
      edit forms otherwise (display included). */
  function FormsFor(formType: ControlMode, clientForms: ClientForms): (r: Forms)
    ensures formType == New ==> r == clientForms.newForms
    ensures formType != New ==> r == clientForms.editForms
  {
    if formType == New then clientForms.newForms else clientForms.editForms
  }

  /** `getFieldSchemasForForm`: the schemas of the first form of the kind
      the mode needs; a failure rejects with the mapped message. */
  function GetFieldSchemasForForm(webUrl: string, listName: string, formType: ControlMode,
                                  response: Result<ClientForms, Value>): (r: Call<ListRequest, Option<seq<FieldSchema>>>)
    ensures r.requests == [RenderListData(webUrl, listName, FormSchemaViewXml, ClientFormSchema)]
    ensures response.Success? ==> r.outcome == Resolved(FirstForm(FormsFor(formType, response.value)))
    ensures response.Failure? ==> r.outcome == SettleMapped(webUrl, Failure(response.error))
  {
    var request := [RenderListData(webUrl, listName, FormSchemaViewXml, ClientFormSchema)];
    match response
    case Success(clientForms) => Call(request, Resolved(FirstForm(FormsFor(formType, clientForms))))
    case Failure(e) => Call(request, SettleMapped(webUrl, Failure(e)))
  }

  /** Display and edit forms read the same schemas; a new form reads its
      own. */
  lemma DisplayUsesEditSchemas(webUrl: string, listName: string, response: Result<ClientForms, Value>)
    ensures GetFieldSchemasForForm(webUrl, listName, Display, response) ==
            GetFieldSchemasForForm(webUrl, listName, Edit, response)
    ensures response.Success? && response.value.newForms != [] ==>
      GetFieldSchemasForForm(webUrl, listName, New, response).outcome ==
        Resolved(Some(response.value.newForms[0].1))
  {
  }

  /** Only the first content type's schemas are read: the later ones never
      change the answer. */
  lemma LaterFormsIgnored(webUrl: string, listName: string, formType: ControlMode,
                          first: (string, seq<FieldSchema>), rest1: Forms, rest2: Forms)
    ensures GetFieldSchemasForForm(webUrl, listName, formType, Success(ClientForms([first] + rest1, [first] + rest1))) ==
            GetFieldSchemasForForm(webUrl, listName, formType, Success(ClientForms([first] + rest2, [first] + rest2)))
  {
  }
}
