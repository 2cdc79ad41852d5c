/** The list view component: it reads a view's fields, turns them into
    columns, loads the view's rows page by page behind a trailing "more rows"
    placeholder, and re-sorts on a column click. Every answer of the list
    service is a parameter of the method that awaits it, and every call to
    the service is appended to `requests`. */
module ListView {
  import opened Wrappers
  import opened Seqs
  import opened JsValues
  import opened Schema
  import opened SPViewFields
  import Strings

  /** One row of view data: field name to value. */
  type Row = map<string, Value>

  /** A page of view data (`IRowData`): the rows and the continuation cursor. */
  datatype RowData = RowData(row: seq<Row>, nextHref: Option<string>)

  /** The override parameters of a data request. */
  datatype Overrides =
    | NoOverrides
    | InplaceSearch(query: Option<string>)
    | SortBy(sortField: string, sortDir: string)

  /** A call to the list service. */
  datatype Request =
    | GetViewFields(webUrl: string, listName: string, viewId: string)
    | GetViewItems(webUrl: string, listName: string, viewId: string, overrides: Overrides, paging: Option<string>)

  /** The component's properties (`IListViewProps`) that its logic reads. */
  datatype Props = Props(webUrl: string, listName: string, viewId: string, searchTerms: Option<string>)

  const MissingListMessage: string := "Please configure pass a list as a parameter."

  function SchemaErrorText(listName: string, error: string): string
  {
    "Error loading for list with name: " + listName + ": " + error
  }

  function DataErrorText(listName: string, error: string): string
  {
    "Error loading for data list with name: " + listName + ": " + error
  }

  /** A first-page data request with the given overrides, as issued with `p`. */
  function DataRequest(p: Props, overrides: Overrides): Request
  {
    GetViewItems(p.webUrl, p.listName, p.viewId, overrides, None)
  }

  /** The continuation cursor is present (truthy). */
  predicate HasNextPage(nextHref: Option<string>)
  {
    nextHref.Some? && nextHref.value != ""
  }

  /** Rows as list items: every row is present. */
  function Present(rows: seq<Row>): (r: seq<Option<Row>>)
    ensures |r| == |rows|
    ensures forall i :: 0 <= i < |rows| ==> r[i] == Some(rows[i])
  {
    seq(|rows|, i requires 0 <= i < |rows| => Some(rows[i]))
  }

  /** The items a loaded page contributes: its rows, then one `null`
      placeholder when there is a next page. */
  function PageItems(d: RowData): seq<Option<Row>>
  {
    Present(d.row) + (if HasNextPage(d.nextHref) then [None] else [])
  }

  /** The items after the next page has loaded: the placeholder is dropped
      and the new page appended. */
  function NextPageItems(items: seq<Option<Row>>, d: RowData): seq<Option<Row>>
  {
    DropLast(items) + PageItems(d)
  }

  /** The rows among the items, in order, without placeholders. */
  function Rows(items: seq<Option<Row>>): (r: seq<Row>)
    ensures |r| <= |items|
  {
    if items == [] then []
    else (if items[0].Some? then [items[0].value] else []) + Rows(items[1..])
  }

  /** The paging invariant: no placeholder except possibly a single last
      one, and that one is there exactly when a next page exists. */
  predicate PagingInvariant(items: seq<Option<Row>>, nextHref: Option<string>)
  {
    (forall i :: 0 <= i < |items| - 1 ==> items[i].Some?)
    && ((|items| > 0 && items[|items| - 1].None?) <==> HasNextPage(nextHref))
  }

  lemma {:induction false} RowsConcat(a: seq<Option<Row>>, b: seq<Option<Row>>)
    ensures Rows(a + b) == Rows(a) + Rows(b)
  {
    if a == [] {
      assert a + b == b;
    } else {
      var ab := a + b;
      assert ab[0] == a[0];
      assert ab[1..] == a[1..] + b;
      RowsConcat(a[1..], b);
    }
  }

  lemma {:induction false} RowsPresent(rows: seq<Row>)
    ensures Rows(Present(rows)) == rows
  {
    if rows != [] {
      RowsPresent(rows[1..]);
      assert Present(rows)[1..] == Present(rows[1..]);
    }
  }

  /** A loaded first page satisfies the paging invariant and holds exactly
      the page's rows. */
  lemma FirstPageWellFormed(d: RowData)
    ensures PagingInvariant(PageItems(d), d.nextHref)
    ensures Rows(PageItems(d)) == d.row
    ensures |PageItems(d)| == |d.row| + (if HasNextPage(d.nextHref) then 1 else 0)
  {
    RowsPresent(d.row);
    RowsConcat(Present(d.row), if HasNextPage(d.nextHref) then [None] else []);
    assert Rows([None]) == [];
  }

  /** Placeholder-free items followed by well-formed items are well-formed. */
  lemma PagingAfterRows(shown: seq<Option<Row>>, page: seq<Option<Row>>, nextHref: Option<string>)
    requires forall i :: 0 <= i < |shown| ==> shown[i].Some?
    requires PagingInvariant(page, nextHref)
    ensures PagingInvariant(shown + page, nextHref)
  {
    var n := shown + page;
    forall i | 0 <= i < |n| - 1 ensures n[i].Some? {
      if i >= |shown| {
        assert n[i] == page[i - |shown|];
      }
    }
    if page == [] {
      assert n == shown;
    } else {
      assert n[|n| - 1] == page[|page| - 1];
    }
  }

  /** Loading the next page keeps the paging invariant, keeps the rows
      already shown in place and appends the new page's rows after them. */
  lemma NextPageWellFormed(items: seq<Option<Row>>, nextHref: Option<string>, d: RowData)
    requires PagingInvariant(items, nextHref) && HasNextPage(nextHref)
    ensures PagingInvariant(NextPageItems(items, d), d.nextHref)
    ensures Rows(NextPageItems(items, d)) == Rows(items) + d.row
  {
    var shown := DropLast(items);
    var page := PageItems(d);
    assert items == shown + [None];
    assert NextPageItems(items, d) == shown + page;
    FirstPageWellFormed(d);
    PagingAfterRows(shown, page, d.nextHref);
    assert Rows(items) == Rows(shown) by {
      RowsConcat(shown, [None]);
      assert Rows([None]) == [];
    }
    RowsConcat(shown, page);
  }

  /** Loading the next page leaves every item before the placeholder in
      place. */
  lemma NextPageKeepsShown(items: seq<Option<Row>>, d: RowData)
    requires items != []
    ensures |NextPageItems(items, d)| >= |items| - 1
    ensures NextPageItems(items, d)[..|items| - 1] == items[..|items| - 1]
  {
    var shown := DropLast(items);
    assert (shown + PageItems(d))[..|shown|] == shown;
  }

  /** JavaScript `!!flag` on an optional boolean. */
  predicate IsTrue(flag: Option<bool>)
  {
    flag == Some(true)
  }

  /** The index of the column a click on `key` makes current: the first
      column with that key, or -1. */
  function ClickTarget(cols: seq<Column>, key: string): (k: int)
    ensures -1 <= k < |cols|
    ensures k >= 0 ==> cols[k].key == key
    ensures forall j :: 0 <= j < |cols| && (k < 0 || j < k) ==> cols[j].key != key
  {
    FirstIndex(cols, (c: Column) => c.key == key)
  }

  /** The clicked column: sorted, with its descending flag negated. */
  function Clicked(c: Column): Column
  {
    c.(isSorted := Some(true), isSortedDescending := Some(!IsTrue(c.isSortedDescending)))
  }

  /** Any other column: unsorted and descending. */
  function Unclicked(c: Column): Column
  {
    c.(isSorted := Some(false), isSortedDescending := Some(true))
  }

  /** The columns after a click on `key`: the same columns in the same order,
      only the current one sorted, its direction flipped, and every other
      one unsorted and descending; nothing but the two sort flags changes. */
  function ColumnsAfterClick(cols: seq<Column>, key: string): (r: seq<Column>)
    ensures |r| == |cols|
    ensures forall j :: 0 <= j < |cols| ==>
      r[j].(isSorted := cols[j].isSorted, isSortedDescending := cols[j].isSortedDescending) == cols[j]
    ensures forall j :: 0 <= j < |cols| ==> r[j].isSorted == Some(j == ClickTarget(cols, key))
    ensures forall j :: 0 <= j < |cols| && j != ClickTarget(cols, key) ==> r[j].isSortedDescending == Some(true)
    ensures var k := ClickTarget(cols, key);
      k >= 0 ==> r[k].isSortedDescending == Some(!IsTrue(cols[k].isSortedDescending))
  {
    var k := ClickTarget(cols, key);
    seq(|cols|, j requires 0 <= j < |cols| => if j == k then Clicked(cols[j]) else Unclicked(cols[j]))
  }

  /** The sort request a click on `key` issues: by the clicked column's
      field, "Desc" exactly when its new flag is descending. No column with
      the key means the click handler throws and nothing is requested. */
  function SortAfterClick(cols: seq<Column>, key: string): (r: Option<Overrides>)
    ensures r.None? <==> ClickTarget(cols, key) < 0
    ensures r.Some? ==> var k := ClickTarget(cols, key);
      var after := ColumnsAfterClick(cols, key);
      r.value == SortBy(cols[k].fieldName, if IsTrue(after[k].isSortedDescending) then "Desc" else "Asc")
  {
    var k := ClickTarget(cols, key);
    if k < 0 then None
    else Some(SortBy(cols[k].fieldName, if !IsTrue(cols[k].isSortedDescending) then "Desc" else "Asc"))
  }

  /** A click leaves the keys alone, so it does not move the click target. */
  lemma ClickKeepsTarget(cols: seq<Column>, key: string, other: string)
    ensures ClickTarget(ColumnsAfterClick(cols, key), other) == ClickTarget(cols, other)
  {
    var after := ColumnsAfterClick(cols, key);
    var k0 := ClickTarget(cols, other);
    var k1 := ClickTarget(after, other);
    assert forall j :: 0 <= j < |cols| ==> after[j].key == cols[j].key by {
      forall j | 0 <= j < |cols| ensures after[j].key == cols[j].key {
        assert after[j].(isSorted := cols[j].isSorted, isSortedDescending := cols[j].isSortedDescending) == cols[j];
      }
    }
  }

  /** A column that is not yet sorted descending (as every column starts)
      sorts descending on its first click. */
  lemma FirstClickSortsDescending(cols: seq<Column>, key: string)
    requires ClickTarget(cols, key) >= 0
    requires !IsTrue(cols[ClickTarget(cols, key)].isSortedDescending)
    ensures SortAfterClick(cols, key) == Some(SortBy(cols[ClickTarget(cols, key)].fieldName, "Desc"))
  {
  }

  /** Clicking the same column twice reverses the sort direction. */
  lemma SecondClickReverses(cols: seq<Column>, key: string)
    requires ClickTarget(cols, key) >= 0
    ensures var first := SortAfterClick(cols, key);
      var second := SortAfterClick(ColumnsAfterClick(cols, key), key);
      first.Some? && second.Some? && first.value.sortField == second.value.sortField
      && (first.value.sortDir == "Desc" <==> second.value.sortDir == "Asc")
  {
    ClickKeepsTarget(cols, key, key);
  }

  /** Once another column has been clicked, going back to a column sorts it
      ascending: a newly current column sorts descending only while its flag
      still has its initial value. */
  lemma ReturningToColumnSortsAscending(cols: seq<Column>, a: string, b: string)
    requires ClickTarget(cols, a) >= 0 && ClickTarget(cols, b) >= 0
    requires ClickTarget(cols, a) != ClickTarget(cols, b)
    ensures var afterB := ColumnsAfterClick(ColumnsAfterClick(cols, a), b);
      SortAfterClick(afterB, a) == Some(SortBy(cols[ClickTarget(cols, a)].fieldName, "Asc"))
  {
    var afterA := ColumnsAfterClick(cols, a);
    ClickKeepsTarget(cols, a, a);
    ClickKeepsTarget(cols, a, b);
    ClickKeepsTarget(afterA, b, a);
  }

  /** What a change of properties reloads. */
  datatype Reload =
    | ReloadSchema(listName: string, viewId: string)
    | ReloadData(request: Request)

  /** A new list or view re-reads the schema of the new one; new search
      terms reload the data with an in-place search, issued with the
      properties still current when the change arrives. */
  function ReloadsOnPropsChange(current: Props, next: Props): (r: seq<Reload>)
    ensures ReloadSchema(next.listName, next.viewId) in r <==>
      current.listName != next.listName || current.viewId != next.viewId
    ensures ReloadData(DataRequest(current, InplaceSearch(next.searchTerms))) in r <==>
      current.searchTerms != next.searchTerms
    ensures forall i :: 0 <= i < |r| ==>
      r[i] == ReloadSchema(next.listName, next.viewId)
      || r[i] == ReloadData(DataRequest(current, InplaceSearch(next.searchTerms)))
    ensures |r| == 2 ==> r[0].ReloadSchema?
  {
    (if current.listName != next.listName || current.viewId != next.viewId
     then [ReloadSchema(next.listName, next.viewId)] else [])
    + (if current.searchTerms != next.searchTerms
       then [ReloadData(DataRequest(current, InplaceSearch(next.searchTerms)))] else [])
  }

  /** `errors.splice(idx, 1)` as the dismiss handler assigns it: the value of
      `splice` is the list of removed elements. */
  function SpliceResult(errors: seq<string>, idx: int): (r: seq<string>)
    requires 0 <= idx < |errors|
    ensures |r| == 1 && r[0] == errors[idx]
  {
    errors[idx..idx + 1]
  }

  /** The dismissed error removed, the others kept in order. */
  function WithoutError(errors: seq<string>, idx: int): (r: seq<string>)
    requires 0 <= idx < |errors|
    ensures |r| == |errors| - 1
    ensures forall j :: 0 <= j < idx ==> r[j] == errors[j]
    ensures forall j :: idx <= j < |r| ==> r[j] == errors[j + 1]
  {
    errors[..idx] + errors[idx + 1..]
  }

  /** Removing an error loses that error and nothing else. */
  lemma WithoutErrorPermutation(errors: seq<string>, idx: int)
    requires 0 <= idx < |errors|
    ensures multiset(WithoutError(errors, idx)) + multiset{errors[idx]} == multiset(errors)
  {
    assert errors == errors[..idx] + [errors[idx]] + errors[idx + 1..];
  }

  /** Dismissing the first of two errors keeps the dismissed one and drops
      the other. */
  lemma DismissKeepsOnlyDismissed()
    ensures SpliceResult(["a", "b"], 0) == ["a"]
    ensures WithoutError(["a", "b"], 0) == ["b"]
  {
  }

  /** The `forEach` of `readSchema` that pushes one generated column per
      view field, in order. */
  method BuildColumns(fields: seq<ViewField>) returns (cols: array<Column>)
    ensures fresh(cols) && cols[..] == MapSeq(fields, GenerateColumn)
  {
    cols := new Column[|fields|];
    var i := 0;
    while i < |fields|
      modifies cols
      invariant 0 <= i <= |fields|
      invariant forall j :: 0 <= j < i ==> cols[j] == GenerateColumn(fields[j])
    {
      cols[i] := GenerateColumn(fields[i]);
      i := i + 1;
    }
  }

  /** The `forEach` of `_onColumnClick`: column `k` becomes the clicked
      column and every other one an unclicked column, in place. */
  method RewriteSortFlags(cols: array<Column>, k: int)
    modifies cols
    ensures forall j :: 0 <= j < cols.Length ==>
      cols[j] == if j == k then Clicked(old(cols[j])) else Unclicked(old(cols[j]))
  {
    var i := 0;
    while i < cols.Length
      invariant 0 <= i <= cols.Length
      invariant forall j :: 0 <= j < i ==>
        cols[j] == if j == k then Clicked(old(cols[j])) else Unclicked(old(cols[j]))
      invariant forall j :: i <= j < cols.Length ==> cols[j] == old(cols[j])
    {
      if i == k {
        cols[i] := Clicked(cols[i]);
      } else {
        cols[i] := Unclicked(cols[i]);
      }
      i := i + 1;
    }
  }

  class ListViewComponent {
    var props: Props
    var isLoadingFields: bool
    var isLoadingData: bool
    var errors: seq<string>
    var items: seq<Option<Row>>
    var nextHref: Option<string>
    var viewSchema: Option<seq<ViewField>>
    var columns: array<Column>
    /** Every call made to the list service, oldest first. */
    var requests: seq<Request>

    /** The rows shown keep the paging invariant. */
    predicate Valid()
      reads this
    {
      PagingInvariant(items, nextHref)
    }

    constructor (p: Props)
      ensures props == p && !isLoadingFields && !isLoadingData
      ensures errors == [] && items == [] && nextHref == None && viewSchema == None
      ensures columns.Length == 0 && requests == []
      ensures Valid()
    {
      props := p;
      isLoadingFields := false;
      isLoadingData := false;
      errors := [];
      items := [];
      nextHref := None;
      viewSchema := None;
      columns := new Column[0];
      requests := [];
    }

    /** The state after a first-page load that started from `errorsBefore`,
        `itemsBefore` and `nextBefore` has finished with `response`. */
    predicate FirstPageLoaded(response: Result<RowData, string>, errorsBefore: seq<string>,
                              itemsBefore: seq<Option<Row>>, nextBefore: Option<string>)
      reads this
    {
      !isLoadingData
      && match response
         case Success(d) => items == PageItems(d) && nextHref == d.nextHref && errors == errorsBefore
         case Failure(e) =>
           items == itemsBefore && nextHref == nextBefore
           && errors == errorsBefore + [DataErrorText(props.listName, e)]
    }

    /** Loads the first page of the current view. */
    method ReadListData(overrides: Overrides, response: Result<RowData, string>)
      modifies this
      ensures requests == old(requests) + [DataRequest(props, overrides)]
      ensures FirstPageLoaded(response, old(errors), old(items), old(nextHref))
      ensures props == old(props) && isLoadingFields == old(isLoadingFields)
      ensures viewSchema == old(viewSchema) && columns == old(columns)
      ensures old(Valid()) ==> Valid()
      ensures response.Success? ==> Valid() && Rows(items) == response.value.row
    {
      isLoadingData := true;
      requests := requests + [DataRequest(props, overrides)];
      match response {
        case Success(d) =>
          FirstPageWellFormed(d);
          items := PageItems(d);
          nextHref := d.nextHref;
        case Failure(e) =>
          errors := errors + [DataErrorText(props.listName, e)];
      }
      isLoadingData := false;
    }

    /** Reads the fields of `viewId` in `listName`, builds one column per
        field and then loads the first page. */
    method ReadSchema(listName: string, viewId: string,
                      schemaResponse: Result<seq<ViewField>, string>, dataResponse: Result<RowData, string>)
      modifies this
      ensures props == old(props) && !isLoadingFields
      ensures listName == "" ==>
        errors == [MissingListMessage] && requests == old(requests)
        && items == old(items) && nextHref == old(nextHref) && isLoadingData == old(isLoadingData)
        && viewSchema == old(viewSchema) && columns == old(columns)
      ensures listName != "" && schemaResponse.Failure? ==>
        errors == old(errors) + [SchemaErrorText(listName, schemaResponse.error)]
        && requests == old(requests) + [GetViewFields(props.webUrl, listName, viewId)]
        && items == old(items) && nextHref == old(nextHref) && isLoadingData == old(isLoadingData)
        && viewSchema == old(viewSchema) && columns == old(columns)
      ensures listName != "" && schemaResponse.Success? ==>
        viewSchema == Some(schemaResponse.value)
        && fresh(columns) && columns[..] == MapSeq(schemaResponse.value, GenerateColumn)
        && requests == old(requests) + [GetViewFields(props.webUrl, listName, viewId), DataRequest(props, NoOverrides)]
        && FirstPageLoaded(dataResponse, old(errors), old(items), old(nextHref))
      ensures old(Valid()) ==> Valid()
    {
      if listName == "" {
        isLoadingFields := false;
        errors := [MissingListMessage];
        return;
      }
      isLoadingFields := true;
      requests := requests + [GetViewFields(props.webUrl, listName, viewId)];
      match schemaResponse {
        case Failure(e) =>
          isLoadingFields := false;
          errors := errors + [SchemaErrorText(listName, e)];
        case Success(fields) =>
          var cols := BuildColumns(fields);
          isLoadingFields := false;
          viewSchema := Some(fields);
          columns := cols;
          ReadListData(NoOverrides, dataResponse);
      }
    }

    /** The placeholder row has come into view: loads the next page, passing
        the cursor without its first character as the paging token. Without
        a cursor, taking its substring throws after the loading flag is set. */
    method LoadNextPage(response: Result<RowData, string>)
      modifies this
      ensures props == old(props) && isLoadingFields == old(isLoadingFields)
      ensures viewSchema == old(viewSchema) && columns == old(columns)
      ensures old(nextHref).None? ==>
        isLoadingData && requests == old(requests)
        && items == old(items) && nextHref == old(nextHref) && errors == old(errors)
      ensures old(nextHref).Some? ==>
        !isLoadingData
        && requests == old(requests) + [GetViewItems(props.webUrl, props.listName, props.viewId,
                                                     NoOverrides, Some(Strings.DropFirst(old(nextHref).value)))]
      ensures old(nextHref).Some? && response.Success? ==>
        items == NextPageItems(old(items), response.value) && nextHref == response.value.nextHref
        && errors == old(errors)
      ensures old(nextHref).Some? && response.Failure? ==>
        items == old(items) && nextHref == old(nextHref)
        && errors == old(errors) + [DataErrorText(props.listName, response.error)]
      ensures old(Valid()) && HasNextPage(old(nextHref)) && response.Success? ==>
        Valid() && Rows(items) == Rows(old(items)) + response.value.row
      ensures old(Valid()) && response.Failure? ==> Valid()
    {
      isLoadingData := true;
      if nextHref.None? {
        return;
      }
      var paging := Strings.DropFirst(nextHref.value);
      requests := requests + [GetViewItems(props.webUrl, props.listName, props.viewId, NoOverrides, Some(paging))];
      match response {
        case Success(d) =>
          if PagingInvariant(items, nextHref) && HasNextPage(nextHref) {
            NextPageWellFormed(items, nextHref, d);
          }
          items := NextPageItems(items, d);
          nextHref := d.nextHref;
        case Failure(e) =>
          errors := errors + [DataErrorText(props.listName, e)];
      }
      isLoadingData := false;
    }

    /** A click on the column with key `key`: rewrites every column's sort
        flags in place and reloads the first page sorted by the clicked
        column. When no column has the key, the handler throws after
        rewriting the flags, so no request is made. */
    method OnColumnClick(key: string, response: Result<RowData, string>) returns (sort: Option<Overrides>)
      modifies this, columns
      ensures columns == old(columns) && props == old(props)
      ensures columns[..] == ColumnsAfterClick(old(columns[..]), key)
      ensures sort == SortAfterClick(old(columns[..]), key)
      ensures sort.None? ==>
        requests == old(requests) && items == old(items) && nextHref == old(nextHref)
        && errors == old(errors) && isLoadingData == old(isLoadingData)
      ensures sort.Some? ==>
        requests == old(requests) + [DataRequest(props, sort.value)]
        && FirstPageLoaded(response, old(errors), old(items), old(nextHref))
      ensures old(Valid()) ==> Valid()
    {
      var cols := columns;
      ghost var before := cols[..];
      var k := ClickTarget(cols[..], key);
      RewriteSortFlags(cols, k);
      assert cols[..] == ColumnsAfterClick(before, key);
      if k < 0 {
        sort := None;
        return;
      }
      var current := cols[k];
      sort := Some(SortBy(current.fieldName, if IsTrue(current.isSortedDescending) then "Desc" else "Asc"));
      ReadListData(sort.value, response);
    }

    /** The dismiss button of error `idx`: the errors become what `splice`
        returns, which is the dismissed error alone. */
    method ClearError(idx: int)
      requires 0 <= idx < |errors|
      modifies this
      ensures errors == SpliceResult(old(errors), idx)
      ensures items == old(items) && nextHref == old(nextHref) && requests == old(requests)
    {
      errors := errors[idx..idx + 1];
    }
  }
}
