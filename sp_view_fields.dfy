/** The columns of the list view: one column per view field, built by a
    builder chosen from the field's type. */
module SPViewFields {
  import opened Wrappers
  import opened Schema

  /** What a column shows in its cells (its `onRender`). */
  datatype CellRender =
    | DefaultCell     // no renderer: the list shows the raw value
    | FieldText       // the item's value for the column's field, as text
    | DocumentIcon    // a file-type icon for the item's `FileRef`
    | EmptyText       // an empty text (lookup columns)
    | FieldLink       // a link whose address and text are the item's value
    | FirstUserTitle  // the title of the first user in the item's value

  /** A list column (`IColumn`) as the builders fill it. The sort flags are
      `None` where a builder leaves them undefined; the other flags are
      false where a builder leaves them out. Every builder also installs
      the same column click handler, which the model does not carry. */
  datatype Column = Column(
    key: string,
    name: string,
    fieldName: string,
    minWidth: nat,
    maxWidth: nat,
    isSorted: Option<bool>,
    isSortedDescending: Option<bool>,
    data: Option<string>,
    isRowHeader: bool,
    isResizable: bool,
    isPadded: bool,
    isCollapsable: bool,
    isIconOnly: bool,
    iconName: Option<string>,
    onRender: CellRender)

  /** The column builders of the view fields helper. */
  datatype Builder =
    | StringBuilder
    | ComputedBuilder
    | DateBuilder
    | UserBuilder
    | NumberBuilder
    | CurrencyBuilder
    | LookupBuilder
    | UrlBuilder

  /** The builder the switch on the field type picks; every type without a
      case of its own (and Note, Text, Choice, Boolean, OutcomeChoice and
      TaxonomyFieldType explicitly) gets the string builder. */
  function BuilderFor(fieldType: string): Builder
  {
    match fieldType
    case "Computed" => ComputedBuilder
    case "DateTime" => DateBuilder
    case "User" => UserBuilder
    case "Number" => NumberBuilder
    case "Currency" => CurrencyBuilder
    case "Lookup" => LookupBuilder
    case "URL" => UrlBuilder
    case _ => StringBuilder
  }

  /** A sortable, padded row-header column with both sort flags false: the
      shape shared by every builder except the number and icon columns. */
  function SortableColumn(f: ViewField, minWidth: nat, maxWidth: nat, data: string, cell: CellRender): Column
  {
    Column(f.id, f.displayName, f.realFieldName, minWidth, maxWidth, Some(false), Some(false),
           Some(data), true, true, true, false, false, None, cell)
  }

  /** The text builder: a wide string column with the default renderer. */
  function GenerateColumnText(f: ViewField): Column
  {
    SortableColumn(f, 70, 350, "string", DefaultCell)
  }

  function GenerateColumnString(f: ViewField): Column
  {
    SortableColumn(f, 70, 120, "string", FieldText)
  }

  /** The document icon gets a narrow icon-only column with no sort flags
      and no data tag; any other computed field a string-like column. */
  function GenerateColumnComputed(f: ViewField): Column
  {
    if f.realFieldName == "DocIcon" then
      Column(f.id, f.displayName, f.realFieldName, 16, 16, None, None, None,
             false, false, false, false, true, Some("Page"), DocumentIcon)
    else SortableColumn(f, 100, 150, "string", FieldText)
  }

  function GenerateColumnLookup(f: ViewField): Column
  {
    SortableColumn(f, 70, 120, "string", EmptyText)
  }

  function GenerateColumnUrl(f: ViewField): Column
  {
    SortableColumn(f, 70, 120, "Url", FieldLink)
  }

  function GenerateColumnUser(f: ViewField): Column
  {
    SortableColumn(f, 70, 90, "string", FirstUserTitle)
  }

  function GenerateColumnCurrency(f: ViewField): Column
  {
    SortableColumn(f, 70, 90, "string", FieldText)
  }

  function GenerateColumnDate(f: ViewField): Column
  {
    SortableColumn(f, 70, 90, "number", FieldText)
  }

  /** The number column is collapsable, neither a row header nor padded, and
      leaves both sort flags undefined. */
  function GenerateColumnNumber(f: ViewField): Column
  {
    Column(f.id, f.displayName, f.realFieldName, 70, 90, None, None, Some("number"),
           false, true, false, true, false, None, FieldText)
  }

  /** The column for one view field: it is keyed by the field's id, titled by
      its display name, reads the field's real name, and its minimum width
      never exceeds its maximum. */
  function GenerateColumn(f: ViewField): (c: Column)
    ensures c.key == f.id && c.name == f.displayName && c.fieldName == f.realFieldName
    ensures 16 <= c.minWidth <= c.maxWidth <= 150
  {
    match BuilderFor(f.fieldType)
    case ComputedBuilder => GenerateColumnComputed(f)
    case DateBuilder => GenerateColumnDate(f)
    case UserBuilder => GenerateColumnUser(f)
    case NumberBuilder => GenerateColumnNumber(f)
    case CurrencyBuilder => GenerateColumnCurrency(f)
    case LookupBuilder => GenerateColumnLookup(f)
    case UrlBuilder => GenerateColumnUrl(f)
    case StringBuilder => GenerateColumnString(f)
  }

  /** Exactly seven field types have a builder of their own. */
  lemma DedicatedBuilders(fieldType: string)
    ensures BuilderFor(fieldType) != StringBuilder <==>
      fieldType in ["Computed", "DateTime", "User", "Number", "Currency", "Lookup", "URL"]
  {
  }

  /** The widths of each kind of column. */
  lemma ColumnWidths(f: ViewField)
    ensures var c := GenerateColumn(f);
      (c.minWidth, c.maxWidth) ==
        if f.fieldType == "Computed" && f.realFieldName == "DocIcon" then (16, 16)
        else if f.fieldType == "Computed" then (100, 150)
        else if f.fieldType in ["DateTime", "User", "Number", "Currency"] then (70, 90)
        else (70, 120)
  {
  }

  /** The sort-type tag: "Url" for links, "number" for dates and numbers,
      none for the document icon and "string" for everything else. */
  lemma ColumnDataTag(f: ViewField)
    ensures var c := GenerateColumn(f);
      c.data ==
        if f.fieldType == "URL" then Some("Url")
        else if f.fieldType in ["DateTime", "Number"] then Some("number")
        else if f.fieldType == "Computed" && f.realFieldName == "DocIcon" then None
        else Some("string")
  {
  }

  /** Only number columns and the document icon leave the sort flags
      undefined; every other column starts unsorted and ascending. */
  lemma ColumnSortFlags(f: ViewField)
    ensures var c := GenerateColumn(f);
      var unset := f.fieldType == "Number" || (f.fieldType == "Computed" && f.realFieldName == "DocIcon");
      (c.isSorted.None? <==> unset) && (c.isSortedDescending.None? <==> unset)
      && (!unset ==> c.isSorted == Some(false) && c.isSortedDescending == Some(false))
  {
  }

  /** What the cells of each kind of column show. */
  lemma ColumnCells(f: ViewField)
    ensures var c := GenerateColumn(f);
      c.onRender ==
        if f.fieldType == "Computed" && f.realFieldName == "DocIcon" then DocumentIcon
        else if f.fieldType == "Lookup" then EmptyText
        else if f.fieldType == "URL" then FieldLink
        else if f.fieldType == "User" then FirstUserTitle
        else FieldText
  {
  }

  /** The text builder is never chosen: no field gets its 350-pixel column. */
  lemma TextBuilderUnused(f: ViewField)
    ensures GenerateColumn(f) != GenerateColumnText(f)
    ensures GenerateColumnText(f).maxWidth == 350
  {
  }
}
