/** The records the SharePoint services hand to the components: form field
    schemas, view fields and taxonomy terms. */
module Schema {
  import opened Wrappers

  /** The mode a list form is shown in. */
  datatype ControlMode = Display | Edit | New

  /** One choice of a lookup field: the id of the looked-up item and its text. */
  datatype LookupChoice = LookupChoice(lookupId: int, lookupValue: string)

  /** The schema of one field of a list form (`IFieldSchema`), restricted to
      the properties the components read. */
  datatype FieldSchema = FieldSchema(
    internalName: string,
    title: string,
    description: string,
    fieldType: string,
    required: bool,
    readOnlyField: bool,
    choices: seq<LookupChoice>,
    termSetId: string,
    allowMultipleValues: bool,
    listFormUrl: string,
    userInfoListId: string)

  /** One field of a list view (`IField`). */
  datatype ViewField = ViewField(id: string, displayName: string, realFieldName: string, fieldType: string)

  /** A taxonomy term as the pickers hold it (`IPickerTerm`); `pathOfTerm`
      lists the term's ancestors and itself separated by ';'. */
  datatype Term = Term(id: string, name: string, pathOfTerm: string, pathDepth: Option<int>)
}
