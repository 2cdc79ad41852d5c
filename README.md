# SharePoint REST React components — a Dafny model

This project models the logic of a set of React components for SharePoint
lists and forms, and of the services they call:

- **List view** (`ListView`): reads a view's fields and turns each one into a
  column. It loads the view's rows a page at a time, with one placeholder row
  that stands for "more to come". A click on a column header re-sorts the
  list.
- **List form** (`ListForm`): reads the field schemas of a list form and shows
  one form field per configured field. It keeps the values the user enters,
  with a per-field "required" error.
- **Form field dispatch** (`SPFormField`): picks the editor or display
  component for a field type, pre-processes display values, and falls back
  to a notice for unsupported types.
- **View columns** (`SPViewFields`): the column builders, chosen per field
  type.
- **Field editors and displays:**
  - the lookup editor, single- and multi-valued, with its `id;#text` encoding;
  - the text editor and its validation;
  - the taxonomy editor, with its `Name|guid;` encoding;
  - the user editor, with its `[{'Key':'login'},…]` encoding;
  - the user display.
- **People picker:**
  - loads site users filtered by principal type and visibility;
  - suggests personas whose name or e-mail matches the typed text;
  - resolves default users from e-mail addresses.
- **Term picker and term tree** (`TermPicker`, `TermParent`):
  - suggest the terms of a term set while hiding disabled terms, their
    children and terms already picked;
  - show a term's subtree with depths and disabled flags.
- **Services:**
  - `ListFormService`: view fields and items, form schemas;
  - `DocumentService`: files, uploads, list item updates;
  - `SPTermStorePickerService`: term stores, term sets and term search;
  - the error message each of them rejects with.

## How the model is built

- **Values:** JavaScript values are the datatype `JsValues.Value`. Truthiness,
  property reads (a read on `null` or `undefined` is a `TypeError`, modelled
  as `Failure`), `String(n)` on integers and `Number(s)` on decimal integer
  texts are written out in `js_values.dfy` and `numbers.dfy`.
- **Components as classes:** every component whose state React updates
  (`ListView`, `ListForm`, `PeoplePicker`, `TermPicker`, `TermParent`) is a
  Dafny class.
  - Its fields are the state the logic reads.
  - Each handler is a method whose `ensures` gives the whole new state.
  - The calls the component made to its service are recorded in a
    `requests` sequence.
  - A service's answer is a parameter of the method: the result, or the error
    it rejected with.
- **Pure components as functions:** the function components (field editors
  and displays, `SPFormField`, `SPViewFields`) are functions of their
  properties.
- **Loops:** where the source loops, the model is a method with a loop,
  proved against a specification function. Examples: the taxonomy `onChange`,
  the user editor's `selectedItems`, `_thisLoadUsers`, `getDefaultUsers`,
  `onFilterChanged`, `searchTermsByTermSet` and `_onColumnClick`.
- **Service calls:** each is a `ServiceErrors.Call`: the requests sent, in
  order, and how the returned promise ends (`Outcome`). It can resolve, reject,
  or never settle. The last happens when the code awaits a rejected promise
  inside a `new Promise(async …)` executor, or throws there.

## Model

| member | source | states |
|---|---|---|
| ListView.FirstPageWellFormed | src/components/ListView.tsx:212-222 | a loaded first page shows exactly its rows plus one placeholder iff it has a continuation cursor, and keeps the paging invariant (no placeholder except a single last one, present iff there is a cursor) |
| ListView.NextPageWellFormed | src/components/ListView.tsx:243-256 | loading the next page keeps the paging invariant and appends exactly the new rows after the old ones |
| ListView.NextPageKeepsShown | src/components/ListView.tsx:243-256 | loading the next page leaves every item before the placeholder in place |
| ListView.ClickTarget | src/components/ListView.tsx:278-280 | the clicked column is the first column with the clicked key, or none (-1) when no column has it |
| ListView.ColumnsAfterClick | src/components/ListView.tsx:281-289 | after a click the same columns stay in the same order with the same keys; exactly the clicked one is sorted, its descending flag negated; every other column is unsorted and descending |
| ListView.SortAfterClick | src/components/ListView.tsx:290-293 | a click issues a sort request iff a column has the key, ordered by that column's field, descending iff it was not sorted descending before |
| ListView.ClickKeepsTarget | src/components/ListView.tsx:278-289 | a click does not change which column any later click finds |
| ListView.FirstClickSortsDescending | src/components/ListView.tsx:281-293 | the first click on a column (not yet sorted descending) sorts it descending |
| ListView.SecondClickReverses | src/components/ListView.tsx:281-293 | clicking the same column twice reverses the sort direction |
| ListView.ReturningToColumnSortsAscending | src/components/ListView.tsx:281-293 | after another column was clicked, going back to a column sorts it ascending |
| ListView.ReloadsOnPropsChange | src/components/ListView.tsx:94-104 | the schema is re-read iff the list or view changed, the data is re-read with the new search terms iff they changed, and the schema reload comes first |
| ListView.SpliceResult | src/components/ListView.tsx:302 | what the dismiss handler assigns: the one-element array `splice` returns, holding the dismissed error |
| ListView.WithoutError | src/components/ListView.tsx:298-305 | the dismissed error is removed and the others are kept in order |
| ListView.WithoutErrorPermutation | src/components/ListView.tsx:298-305 | removing an error loses that error and nothing else (multiset) |
| ListView.DismissKeepsOnlyDismissed | src/components/ListView.tsx:302 | dismissing the first of two errors keeps the dismissed one as written, whereas the intended removal keeps the other |
| ListView.ListViewComponent.constructor | src/components/ListView.tsx:43-48 | starts not loading, with no errors, no items, no columns and no calls made |
| ListView.ListViewComponent.ReadListData | src/components/ListView.tsx:198-234 | sends one first-page request; on success the items are the page's rows plus the placeholder, the cursor is the page's, and the paging invariant holds; on failure an error naming the list is appended and the items are kept |
| ListView.BuildColumns | src/components/ListView.tsx:172-175 | a new array holding one generated column per view field, in order |
| ListView.ListViewComponent.ReadSchema | src/components/ListView.tsx:155-195 | an empty list name only records an error; otherwise the view fields are read, one column per field is built by GenerateColumn and the first page is loaded; a failure appends the schema error |
| ListView.ListViewComponent.LoadNextPage | src/components/ListView.tsx:236-268 | without a cursor only the loading flag is set; otherwise the cursor's query (without its leading character) is requested and the new rows replace the placeholder, or the error is appended and the items stay |
| ListView.RewriteSortFlags | src/components/ListView.tsx:281-289 | the clicked column gets its sort flag set and its direction flipped, every other column becomes unsorted and descending, in place |
| ListView.ListViewComponent.OnColumnClick | src/components/ListView.tsx:275-296 | the columns array is rewritten in place to ColumnsAfterClick and the list is reloaded with SortAfterClick's order when a column has the key |
| ListView.ListViewComponent.ClearError | src/components/ListView.tsx:298-305 | the errors become what `splice` returns, as written; nothing else changes |
| ListForm.SchemaFor | src/components/ListForm.tsx:143-145 | the first schema entry with the field's internal name, none iff no entry has it |
| ListForm.FieldError | src/components/ListForm.tsx:224-231 | the required message iff the field is required and the new value is falsy, else the empty text |
| ListForm.GetFields | src/components/ListForm.tsx:249-258 | the configured fields when given, otherwise one per schema entry with its internal name, or none without a schema |
| ListForm.Collect | src/components/ListForm.tsx:147-157 | the keys under `field.` with the prefix stripped, and exactly those, with their values |
| ListForm.ExtraData | src/components/ListForm.tsx:147-157 | the value under `field.` when present, otherwise the collected sub-keys |
| ListForm.FieldEntry | src/components/ListForm.tsx:137-177 | a field is rendered iff its schema entry exists, with that schema, the stored value, the recorded error and the extra data |
| ListForm.RenderFields | src/components/ListForm.tsx:137-177 | one entry per field to show, in order, each as FieldEntry gives it |
| ListForm.SchemaFieldsShown | src/components/ListForm.tsx:137-177 | without configured fields every schema field is shown with its own schema |
| ListForm.ListFormComponent.constructor | src/components/ListForm.tsx:40-56 | starts with no schema, no data, no errors and no calls made |
| ListForm.ListFormComponent.ReadSchema | src/components/ListForm.tsx:180-212 | an empty list name only records an error; otherwise the form schema is requested and stored on success, or an error naming the list is appended |
| ListForm.ListFormComponent.ValueChanged | src/components/ListForm.tsx:215-238 | without a schema entry for the field the updater throws a TypeError and nothing changes; otherwise only that field's value and error change (the error is FieldError of its entry), then onUpdateFields receives the schema and the new data, or, when it was not given, calling it throws a TypeError after the state was committed |
| ListForm.RequiredFieldError | src/components/ListForm.tsx:224-231 | for a required field the error is empty iff the value is truthy; the empty string and undefined give the required message |
| SPFormField.EditSupport | src/components/SPFormField.tsx:31-54 | edit mode supports exactly the fifteen listed field types; URL and Attachments have no editor |
| SPFormField.DisplaySupport | src/components/SPFormField.tsx:56-116 | display mode supports the edit types and URL, and not Attachments |
| SPFormField.Labels | src/components/SPFormField.tsx:107 | the labels of all elements, or a TypeError iff some element has no readable `Label` |
| SPFormField.PreProcessValue | src/components/SPFormField.tsx:79-111 | a falsy value displays as ""; choices and term lists need an array (otherwise a TypeError); a single term shows its Label; other types pass the value on |
| SPFormField.ChoicesDisplay | src/components/SPFormField.tsx:79 | selected choices display comma-separated |
| SPFormField.TermLabelsDisplay | src/components/SPFormField.tsx:107 | taxonomy values display as their labels, comma-separated |
| SPFormField.ValueText | src/components/SPFormField.tsx:138-140 | an unsupported field's value text: "" when falsy, the string itself for a string, JSON otherwise |
| SPFormField.RenderField | src/components/SPFormField.tsx:124-178 | a rendered control is wrapped with the field's title, description and error message |
| SPFormField.HiddenIffUnsupported | src/components/SPFormField.tsx:124-178 | a field renders nothing iff its type is unsupported in its mode and hiding unsupported fields is asked for |
| SPFormField.UnsupportedFallback | src/components/SPFormField.tsx:138-162 | an unsupported field that is shown displays its value text and a notice naming its type, multiline iff the value is truthy and not a string |
| SPFormField.EditDispatch | src/components/SPFormField.tsx:150-166 | a supported edit field gets its editor with unchanged properties |
| SPFormField.DisplayDispatch | src/components/SPFormField.tsx:127-149 | a supported display field gets its display component with the pre-processed value |
| SPViewFields.GenerateColumn | src/components/SPViewFields.tsx:9-57 | every column is keyed by the field's id, titled by its display name, reads its real field name and has widths between 16 and 150 |
| SPViewFields.DedicatedBuilders | src/components/SPViewFields.tsx:13-55 | exactly seven field types get a builder of their own; every other type gets the string column |
| SPViewFields.ColumnWidths | src/components/SPViewFields.tsx:79-259 | the minimum and maximum width of each kind of column |
| SPViewFields.ColumnDataTag | src/components/SPViewFields.tsx:158-259 | links are tagged "Url", dates and numbers "number", the document icon has no tag, all others "string" |
| SPViewFields.ColumnSortFlags | src/components/SPViewFields.tsx:100-259 | only number columns and the document icon leave the sort flags unset; all others start unsorted and ascending |
| SPViewFields.ColumnCells | src/components/SPViewFields.tsx:100-241 | what the cells of each kind of column render (icon, link, user, currency, date, plain) |
| SPViewFields.TextBuilderUnused | src/components/SPViewFields.tsx:60-77 | the 350-pixel text builder is never chosen by the switch |
| LookupEdit.Options | src/components/formFields/SPFieldLookupEdit.tsx:15-24 | one option per lookup choice, in order, behind a "(None)" option with key 0 exactly for an optional single-valued field |
| LookupEdit.SelectedKey | src/components/formFields/SPFieldLookupEdit.tsx:25 | a falsy value selects key 0; a non-string value throws; a string never throws, and one without `;#` is read whole as a number |
| LookupEdit.SelectedKeyOfEntry | src/components/formFields/SPFieldLookupEdit.tsx:25 | a stored `id;#text` selects the number `id` reads as, whatever the text holds |
| LookupEdit.FirstSegment | src/components/formFields/SPFieldLookupEdit.tsx:25-31 | the segment before the first separator of `id;#text` is the id |
| LookupEdit.SingleRoundTrip | src/components/formFields/SPFieldLookupEdit.tsx:25-31 | reading back what a single selection wrote gives the selected key |
| LookupEdit.EvenSegments | src/components/formFields/SPFieldLookupEdit.tsx:41 | the segments at even positions, in order |
| LookupEdit.ParseMultiAsWritten | src/components/formFields/SPFieldLookupEdit.tsx:39-45 | the stored value as the editor reads it: each even segment's number paired with the segment after the even-filtered index |
| LookupEdit.ParseMulti | src/components/formFields/SPFieldLookupEdit.tsx:39-45 | each key paired with the segment that follows it; empty for a falsy value, a TypeError for a non-string |
| LookupEdit.GetUpdatedValue | src/components/formFields/SPFieldLookupEdit.tsx:69-78 | a selected option is appended; a deselected one removes exactly the entries with its key and keeps every other entry, as often as it occurs, in order (Seqs.IsFilterOf, which only the filter result meets) |
| LookupEdit.SelectThenDeselect | src/components/formFields/SPFieldLookupEdit.tsx:69-78 | selecting then deselecting a new option restores the selection |
| LookupEdit.EmitAsWritten | src/components/formFields/SPFieldLookupEdit.tsx:80 | the entries as `id;#text` pairs concatenated with nothing between them |
| LookupEdit.EmitMulti | src/components/formFields/SPFieldLookupEdit.tsx:80 | the entries written `id;#text;#id;#text…`, as the reader expects |
| LookupEdit.EmitMultiSegments | src/components/formFields/SPFieldLookupEdit.tsx:80 | the separated value is the entries' segments joined by `;#` |
| LookupEdit.SplitEmitMulti | src/components/formFields/SPFieldLookupEdit.tsx:40-80 | splitting a separated value gives back its segments |
| LookupEdit.MultiRoundTrip | src/components/formFields/SPFieldLookupEdit.tsx:39-80 | reading back a separated value gives the entries written |
| LookupEdit.MultiChange | src/components/formFields/SPFieldLookupEdit.tsx:52 | with the corrected reader and writer (ParseMulti, EmitMulti), a change succeeds iff the stored value can be read |
| LookupEdit.MultiChangeRoundTrip | src/components/formFields/SPFieldLookupEdit.tsx:39-80 | a change followed by a read gives the updated selection |
| LookupEdit.ParseMultiAsWrittenMisreads | src/components/formFields/SPFieldLookupEdit.tsx:41-44 | for any two writable entries the reader as written gets the first entry right but gives the second its own key's digits as text, so it misreads every second entry whose text is not its key; the corrected reader gets both entries |
| LookupEdit.EmitAsWrittenLosesEntries | src/components/formFields/SPFieldLookupEdit.tsx:80 | any two entries without ';' in their texts, written as written, run the first text into the second key and do not read back as those entries |
| TextEdit.ShownValue | src/components/formFields/SPFieldTextEdit.tsx:9 | a falsy value shows as "", any other value as itself |
| TextEdit.ErrorMessage | src/components/formFields/SPFieldTextEdit.tsx:21-28 | the blank message iff the field is required and the text is blank; the file-name message iff not that and a file name holds an illegal character; none otherwise |
| TextEdit.IllegalCharacterRejected | src/components/formFields/SPFieldTextEdit.tsx:10-26 | a file name holding any listed character anywhere is rejected |
| TextEdit.CleanFileNameAccepted | src/components/formFields/SPFieldTextEdit.tsx:10-27 | a text free of the listed characters that is not a blank required value passes |
| TextEdit.BlankPaddingIrrelevant | src/components/formFields/SPFieldTextEdit.tsx:22 | white space in front of a value never changes whether the blank message is given |
| TaxonomyEdit.GuidIndexFrom | src/components/formFields/SPFieldTaxonomyEdit.tsx:9-19 | the first position at or after the start where a GUID begins, or -1 iff there is none |
| TaxonomyEdit.ExtractGuid | src/components/formFields/SPFieldTaxonomyEdit.tsx:9-19 | the leftmost GUID in the id, kept as written, or none iff the id holds no GUID |
| TaxonomyEdit.ExtractWholeGuid | src/components/formFields/SPFieldTaxonomyEdit.tsx:9-19 | a GUID on its own is extracted whole |
| TaxonomyEdit.ExtractGuidAfterPrefix | src/components/formFields/SPFieldTaxonomyEdit.tsx:9-19 | a GUID behind a prefix without hexadecimal digits is the one extracted |
| TaxonomyEdit.GuidText | src/components/formFields/SPFieldTaxonomyEdit.tsx:29 | the GUID, or "null" when none was found, as string concatenation writes it |
| TaxonomyEdit.GuidTextFree | src/components/formFields/SPFieldTaxonomyEdit.tsx:29 | the GUID text never contains '\|' or ';' |
| TaxonomyEdit.TaxonomyValueSnoc | src/components/formFields/SPFieldTaxonomyEdit.tsx:26-32 | appending a term appends its `Name\|guid;` entry |
| TaxonomyEdit.OnChange | src/components/formFields/SPFieldTaxonomyEdit.tsx:26-32 | the builder loop writes every picked term's entry, in order |
| TaxonomyEdit.SplitTaxonomyValue | src/components/formFields/SPFieldTaxonomyEdit.tsx:26-32 | splitting the value at ';' gives the entry bodies and a final empty piece |
| TaxonomyEdit.EntryRoundTrip | src/components/formFields/SPFieldTaxonomyEdit.tsx:29 | one entry reads back as its term's name and GUID text |
| TaxonomyEdit.TaxonomyRoundTrip | src/components/formFields/SPFieldTaxonomyEdit.tsx:26-32 | reading the value back gives each picked term's name and GUID, in order, for names without '\|' or ';' |
| TaxonomyEdit.Settings | src/components/formFields/SPFieldTaxonomyEdit.tsx:23-33 | the picker draws from the field's term set and allows several terms iff the field holds several values |
| UserEdit.SelectedItems | src/components/formFields/SPUserEdit.tsx:14-20 | the loop writes one `{'Key':'login'}` entry per user, joined with ",", in brackets |
| UserEdit.EmptySelection | src/components/formFields/SPUserEdit.tsx:14-20 | no selection is written as "[]" |
| UserEdit.UsersRoundTrip | src/components/formFields/SPUserEdit.tsx:14-20 | reading the value back gives every user's login, in order, for logins without ',' |
| UserEdit.SelectionLimit | src/components/formFields/SPUserEdit.tsx:8 | fifteen people for a multi-valued field, no limit given otherwise |
| UserEdit.Settings | src/components/formFields/SPUserEdit.tsx:10-26 | required as the field is, the three principal types, hidden users excluded, the selection callback set, the limit as SelectionLimit |
| UserEdit.PickCount | src/components/formFields/SPUserEdit.tsx:8 | one person for a single-valued field, fifteen for a multi-valued one |
| UserEdit.LoadsVisiblePrincipals | src/components/formFields/SPUserEdit.tsx:13-25 | the picker keeps exactly the visible users, security groups and SharePoint groups |
| UserEdit.QueriesPrincipalTypes | src/components/formFields/SPUserEdit.tsx:13 | the user query asks for principal types 4, 8 and 1, joined with " or " |
| UserDisplay.UserLinkFor | src/components/formFields/SPFieldUserDisplay.tsx:10-14 | one link per entry, to the profile address with its id, showing its title; a TypeError iff the entry is null or undefined |
| UserDisplay.LinksFor | src/components/formFields/SPFieldUserDisplay.tsx:10-14 | one link per entry, in order, or a TypeError iff some entry is null or undefined |
| UserDisplay.Render | src/components/formFields/SPFieldUserDisplay.tsx:5-20 | an empty container iff the value is falsy or has no length; otherwise one link per entry of an array |
| UserDisplay.LinkCarriesId | src/components/formFields/SPFieldUserDisplay.tsx:7-12 | a user entry with a numeric id links to the user information form followed by `&ID=` and that id |
| PeoplePicker.ValidateInput | src/components/peoplepicker/PeoplePickerComponent.tsx:250-258 | valid iff the input holds '@', a warning iff not and longer than one character, invalid otherwise |
| PeoplePicker.PersonaMatchesIff | src/components/peoplepicker/PeoplePickerComponent.tsx:297-335 | a persona matches iff its non-empty name or e-mail, lower-cased, starts with or contains the lower-cased filter |
| PeoplePicker.FilterPersons | src/components/peoplepicker/PeoplePickerComponent.tsx:297-305 | exactly the loaded personas that match, each as often as it occurs, in menu order (Seqs.IsFilterOf) |
| PeoplePicker.RemoveDuplicates | src/components/peoplepicker/PeoplePickerComponent.tsx:313-315 | exactly the personas whose text no current entry carries, each as often as it occurs, in their order (Seqs.IsFilterOf) |
| PeoplePicker.RemoveNoDuplicates | src/components/peoplepicker/PeoplePickerComponent.tsx:313-315 | without possible duplicates nothing is removed |
| PeoplePicker.LimitResults | src/components/peoplepicker/PeoplePickerComponent.tsx:277-290 | a prefix of the personas: all of them without a limit or with 0, the first n for a positive n, none for a negative n |
| PeoplePicker.OnPersonFilterChanged | src/components/peoplepicker/PeoplePickerComponent.tsx:277-290 | an empty filter suggests nothing; otherwise it fails iff no users were loaded |
| PeoplePicker.SuggestionsSound | src/components/peoplepicker/PeoplePickerComponent.tsx:277-290 | every suggestion is a loaded persona that matches, is not yet picked, in menu order, within the limit |
| PeoplePicker.SuggestionsComplete | src/components/peoplepicker/PeoplePickerComponent.tsx:277-290 | with no limit every matching persona not yet picked is suggested |
| PeoplePicker.UserFilter | src/components/peoplepicker/PeoplePickerComponent.tsx:163-175 | the principal-type clauses joined by " or ", with the hidden-users clause appended or alone |
| PeoplePicker.UserFilterNamesTypes | src/components/peoplepicker/PeoplePickerComponent.tsx:163-168 | the filter names every listed principal type |
| PeoplePicker.TypeIndex | src/components/peoplepicker/PeoplePickerComponent.tsx:195-196 | not -1 iff some listed type has the user's code |
| PeoplePicker.LoadedPersonas | src/components/peoplepicker/PeoplePickerComponent.tsx:188-208 | the personas of the kept users, in order |
| PeoplePicker.KeptUserLoaded | src/components/peoplepicker/PeoplePickerComponent.tsx:188-208 | every kept user is loaded |
| PeoplePicker.LoadedFromKeptUser | src/components/peoplepicker/PeoplePickerComponent.tsx:188-208 | every loaded persona comes from a kept user |
| PeoplePicker.CollectUsers | src/components/peoplepicker/PeoplePickerComponent.tsx:188-208 | the loop builds exactly LoadedPersonas |
| PeoplePicker.GetDefaultUsers | src/components/peoplepicker/PeoplePickerComponent.tsx:357-387 | the loop builds, per e-mail in order, the matching users or one placeholder |
| PeoplePicker.DefaultUsersCoverEmails | src/components/peoplepicker/PeoplePickerComponent.tsx:357-387 | every e-mail contributes at least one persona |
| PeoplePicker.DefaultUsersSound | src/components/peoplepicker/PeoplePickerComponent.tsx:357-396 | every default is a user whose e-mail holds one of the addresses, or the placeholder of an unmatched one |
| PeoplePicker.ResolveSound | src/components/peoplepicker/PeoplePickerComponent.tsx:363-396 | what one address resolves to is a user whose e-mail holds it, or its placeholder when no user matched |
| PeoplePicker.ResolveUnmatched | src/components/peoplepicker/PeoplePickerComponent.tsx:363-383 | an address no user matches resolves to its placeholder alone |
| PeoplePicker.DefaultUsersFrom | src/components/peoplepicker/PeoplePickerComponent.tsx:357-387 | every default comes from the resolution of one of the addresses |
| PeoplePicker.DefaultUsersInclude | src/components/peoplepicker/PeoplePickerComponent.tsx:357-387 | everything one address resolves to is among the defaults |
| PeoplePicker.DefaultUsersPrefix | src/components/peoplepicker/PeoplePickerComponent.tsx:357-387 | the defaults of a prefix of the addresses are a prefix of the defaults |
| PeoplePicker.DefaultUsersGrow | src/components/peoplepicker/PeoplePickerComponent.tsx:357-387 | the defaults of fewer addresses stay among the defaults |
| PeoplePicker.DefaultUsersIncludeMatches | src/components/peoplepicker/PeoplePickerComponent.tsx:392-396 | every user whose e-mail holds an address, ignoring case, is a default |
| PeoplePicker.DefaultUsersIncludePlaceholders | src/components/peoplepicker/PeoplePickerComponent.tsx:357-387 | every unmatched address has its placeholder among the defaults |
| PeoplePicker.PeoplePickerComponent.constructor | src/components/peoplepicker/PeoplePickerComponent.tsx:22-36 | starts with nothing selected, loaded or reported and no error shown |
| PeoplePicker.PeoplePickerComponent.LoadUsers | src/components/peoplepicker/PeoplePickerComponent.tsx:157-227 | sends one query with UserFilter; a non-empty answer sets all and menu personas to LoadedPersonas and the recent ones to its first five; otherwise nothing changes |
| PeoplePicker.PeoplePickerComponent.OnPersonItemsChange | src/components/peoplepicker/PeoplePickerComponent.tsx:232-243 | the selection is replaced, the error shows iff it is empty, and the callback receives it when set |
| PeoplePicker.ItemLimit | src/components/peoplepicker/PeoplePickerComponent.tsx:114 | the selection limit, or 1 when it is absent or 0 |
| PeoplePicker.ReturnMostRecentlyUsed | src/components/peoplepicker/PeoplePickerComponent.tsx:265-268 | exactly the recently used personas whose text no picked persona carries, each as often as it occurs, in their order (Seqs.IsFilterOf) |
| StringOrder.SortSpec | src/components/taxonomyPicker/TermPicker.tsx:49-51 | sorting strings gives an ascending rearrangement of its input |
| StringOrder.SortDeterminedByMultiset | src/components/taxonomyPicker/TermPicker.tsx:49-51 | two lists sort alike iff they hold the same strings the same number of times |
| TermPicker.SuggestionsAreFilter | src/components/taxonomyPicker/TermPicker.tsx:151-188 | the suggestions are the search results that can be picked and are not yet picked, in order |
| TermPicker.ParentCheckComplete | src/components/taxonomyPicker/TermPicker.tsx:161-176 | a disabled term whose path occurs in the term's path passes both filters |
| TermPicker.ParentCheckSound | src/components/taxonomyPicker/TermPicker.tsx:161-176 | whatever passes both filters is a disabled term whose path occurs in the term's path |
| TermPicker.ParentCheck | src/components/taxonomyPicker/TermPicker.tsx:161-176 | the two filters find something iff the term lies under a disabled term |
| TermPicker.TagCheck | src/components/taxonomyPicker/TermPicker.tsx:181-186 | filtering the picked terms by id finds nothing iff the term is not picked |
| TermPicker.FindDisabledParent | src/components/taxonomyPicker/TermPicker.tsx:161-176 | the loop finds a disabled parent iff one exists |
| TermPicker.PickableWithoutTermSet | src/components/taxonomyPicker/TermPicker.tsx:145-161 | a term not checked against disabled parents is pickable regardless of the term set |
| TermPicker.IsTagged | src/components/taxonomyPicker/TermPicker.tsx:181-186 | tagged iff some picked term has the term's id |
| TermPicker.ItemLimit | src/components/taxonomyPicker/TermPicker.tsx:71 | one term unless several may be picked, then no limit |
| TermPicker.SortedIdsPlain | src/components/taxonomyPicker/TermPicker.tsx:49-51 | sorted plain ids stay non-empty and free of ',' |
| TermPicker.IdKeyChangedIff | src/components/taxonomyPicker/TermPicker.tsx:47-54 | the joined sorted ids differ iff the two selections hold different ids |
| TermPicker.FilterSearchResult | src/components/taxonomyPicker/TermPicker.tsx:151-188 | the term set is fetched iff not cached and some result needs it; a failed fetch is passed on with nothing cached; otherwise the result is the Suggestions |
| TermPicker.TermPickerComponent.constructor | src/components/taxonomyPicker/TermPicker.tsx:32-42 | starts with the given value picked, nothing cached and no calls made |
| TermPicker.TermPickerComponent.OnFilterChanged | src/components/taxonomyPicker/TermPicker.tsx:130-192 | an empty text resolves to no terms without a call; otherwise one search is sent and the outcome is the search's failure or FilterSearchResult's |
| TermPicker.TermPickerComponent.ReceiveProps | src/components/taxonomyPicker/TermPicker.tsx:47-54 | the picked terms are replaced iff the id keys differ |
| TermPicker.SuggestionsExact | src/components/taxonomyPicker/TermPicker.tsx:151-188 | a term is suggested iff it is found, not disabled, not under a disabled parent when asked, and not picked |
| TermPicker.ChildOfDisabledParentHidden | src/components/taxonomyPicker/TermPicker.tsx:161-176 | a term under a disabled term is never suggested when children of disabled parents are disabled |
| TermParent.SplitCount | src/components/taxonomyPicker/TermParent.tsx:50-54 | splitting at ';' gives one piece more than there are separators |
| TermParent.PathStart | src/components/taxonomyPicker/TermParent.tsx:44-48 | the first n characters of the path, a prefix of it |
| TermParent.InSubtreeIsPrefix | src/components/taxonomyPicker/TermParent.tsx:44-48 | a term is in the subtree iff its path starts with the anchor's and it is not the anchor |
| TermParent.DepthCountsSeparators | src/components/taxonomyPicker/TermParent.tsx:50-54 | a term's depth is its path's separators minus the anchor's |
| TermParent.DepthNonNegative | src/components/taxonomyPicker/TermParent.tsx:50-54 | a term below the anchor has a non-negative depth |
| TermParent.ChildDepth | src/components/taxonomyPicker/TermParent.tsx:50-54 | a direct child has depth 1 |
| TermParent.SubtreeExact | src/components/taxonomyPicker/TermParent.tsx:36-59 | the shown terms are exactly the subtree's terms, in order, each with its depth |
| TermParent.DisabledFlags | src/components/taxonomyPicker/TermParent.tsx:75-93 | one disabled flag per term |
| TermParent.DisabledFlagAt | src/components/taxonomyPicker/TermParent.tsx:75-93 | each flag is computed from the disabled paths collected up to and including that term |
| TermParent.DisabledPathsMembers | src/components/taxonomyPicker/TermParent.tsx:80-87 | a path is collected iff it is the path of a disabled term seen so far |
| TermParent.ShownDisabledIff | src/components/taxonomyPicker/TermParent.tsx:80-93 | a term shows disabled iff it is disabled or, when asked, its path holds an earlier-or-same disabled path |
| TermParent.DisabledTermShownDisabled | src/components/taxonomyPicker/TermParent.tsx:80-93 | a disabled term always shows disabled |
| TermParent.ChildBeforeDisabledParent | src/components/taxonomyPicker/TermParent.tsx:80-93 | a child listed before its disabled parent is not shown disabled, one listed after it is |
| TermParent.UnderDisabledPath | src/components/taxonomyPicker/TermParent.tsx:89-93 | the loop finds a collected path inside the term's path iff one exists |
| TermParent.CollectDisabledFlags | src/components/taxonomyPicker/TermParent.tsx:75-93 | the loop over the terms builds exactly DisabledFlags |
| TermParent.TermParentComponent.constructor | src/components/taxonomyPicker/TermParent.tsx:26-29 | starts not loaded, expanded, with no terms |
| TermParent.TermParentComponent.TermsLoaded | src/components/taxonomyPicker/TermParent.tsx:19-25 | the loaded terms are stored and the tree is marked loaded |
| TermParent.TermParentComponent.WillMount | src/components/taxonomyPicker/TermParent.tsx:36-59 | with an anchor whose term is found, the terms become its subtree with depths and its name is recorded; an anchor that is not found changes nothing; an anchor before the terms are loaded throws |
| TermParent.TermParentComponent.Render | src/components/taxonomyPicker/TermParent.tsx:64-134 | a spinner until loaded, the empty message for no terms, otherwise the terms with their DisabledFlags |
| TermParent.TermParentComponent.HandleClick | src/components/taxonomyPicker/TermParent.tsx:139-143 | the tree toggles between expanded and collapsed; nothing else changes |
| ServiceErrors.ErrorMessage | src/common/services/ListFormService.ts:109-132 | fails iff the error is null or undefined; status 403 and 404 give fixed messages naming the relative url |
| ServiceErrors.FallbackChain | src/common/services/ListFormService.ts:110-114 | any other status gives the status text when truthy, else the status message when truthy, else the error itself |
| ServiceErrors.StringErrorKept | src/common/services/DocumentService.ts:130-153 | a plain string error is its own message |
| ServiceErrors.StatusOverridesText | src/common/services/SPTermStorePickerService.ts:132-155 | status 403 and 404 override any status text; a status that is the string "403" is not 403 |
| ServiceErrors.StatusMessagesNameUrl | src/common/services/ListFormService.ts:118-130 | both messages contain the relative url and differ from each other |
| ServiceErrors.RelativeUrlKeepsAbsoluteUrl | src/common/services/ListFormService.ts:115-116 | a url without '{' is never shortened: the origin stays in the message |
| ServiceErrors.ServerRelativeUrlStripsOrigin | src/common/services/ListFormService.ts:115-116 | the intended replacement removes exactly the page's origin from a url on the same server |
| ServiceErrors.SettleMapped | src/common/services/DocumentService.ts:39-61 | resolves with the answer; a failure rejects with the mapped message, or never settles when mapping it throws |
| ServiceErrors.SettleRaw | src/common/services/DocumentService.ts:13-26 | resolves with the answer or rejects with the error unchanged |
| DocumentService.FormValuesExact | src/common/services/DocumentService.ts:109-128 | exactly the writable fields present in the data with a non-null value are sent, with their values, no exception and no error message |
| DocumentService.FormValuesConcat | src/common/services/DocumentService.ts:119-127 | values are sent in schema order |
| DocumentService.UndefinedSentNullDropped | src/common/services/DocumentService.ts:119 | an explicitly undefined value is sent, a null one is dropped |
| DocumentService.ItemQuery | src/common/services/DocumentService.ts:83-88 | the fixed query text with the id between its two parts |
| DocumentService.ItemQueryNamesId | src/common/services/DocumentService.ts:83-88 | the query holds the id, and two queries are equal iff their ids are |
| DocumentService.GetFileFromListAsBlob | src/common/services/DocumentService.ts:13-26 | one file request; resolves with the file or rejects with the error unchanged |
| DocumentService.AddFileBlob | src/common/services/DocumentService.ts:39-61 | one chunked-upload request; resolves with the result or rejects with the mapped message |
| DocumentService.FirstItemId | src/common/services/DocumentService.ts:97 | the first row's ID, or none iff there is no row or it is null or undefined |
| DocumentService.UpdateItem | src/common/services/DocumentService.ts:74-107 | the item is queried first; with a first item its values are validated and the result passed on; a failed or empty query never settles |
| DocumentService.UpdateItemHangsWithoutItem | src/common/services/DocumentService.ts:95-105 | a failed query and an empty answer both leave the update unsettled |
| DocumentService.UpdateItemSettled | src/common/services/DocumentService.ts:74-107 | the intended update: a failed query rejects with its mapped message, an empty answer with the not-found message |
| DocumentService.UpdateItemSettledAgrees | src/common/services/DocumentService.ts:74-107 | the intended update agrees with the code wherever that settles, and settles whenever the error can be described |
| ListFormService.RenderView | src/common/services/ListFormService.ts:17-35 | the view is read first (its failure never settles); then its rendering is requested and passed on |
| ListFormService.GetViewFields | src/common/services/ListFormService.ts:17-35 | resolves with the view's fields; rejects with the rendering error; never settles iff the view cannot be read |
| ListFormService.GetViewItems | src/common/services/ListFormService.ts:45-74 | asks for the list data with the paging and overrides given and passes its rows on; never settles iff the view cannot be read |
| ListFormService.FirstForm | src/common/services/ListFormService.ts:93-96 | the schemas under the first key, or none iff there are no keys |
| ListFormService.FormsFor | src/common/services/ListFormService.ts:93-96 | new items read the new forms, all other modes the edit forms |
| ListFormService.GetFieldSchemasForForm | src/common/services/ListFormService.ts:83-103 | one form-schema request; resolves with the first form of the mode's kind or rejects with the mapped message |
| ListFormService.DisplayUsesEditSchemas | src/common/services/ListFormService.ts:93-96 | display and edit forms read the same schemas; a new form reads the new ones |
| ListFormService.LaterFormsIgnored | src/common/services/ListFormService.ts:93-96 | only the first content type's schemas are read |
| TermStoreService.GetTermStores | src/common/services/SPTermStorePickerService.ts:25-37 | one store request; resolves with the stores or rejects with the mapped message |
| TermStoreService.GetTermSet | src/common/services/SPTermStorePickerService.ts:46-60 | the term set is read from the first store; with no store, or a failed store request, it never settles |
| TermStoreService.GetAllTerms | src/common/services/SPTermStorePickerService.ts:68-80 | resolves with the set's terms; rejects only for a failed term request; never settles when stores or term set fail |
| TermStoreService.SearchTermsByName | src/common/services/SPTermStorePickerService.ts:88-106 | searches the first store's terms by label, starting with the text; never settles without a store |
| TermStoreService.MatchingTermsIsFilter | src/common/services/SPTermStorePickerService.ts:123-127 | the matches are exactly the terms whose names contain the text ignoring case, in order |
| TermStoreService.EmptySearchKeepsAll | src/common/services/SPTermStorePickerService.ts:123-127 | an empty text matches every term |
| TermStoreService.SearchIgnoresCase | src/common/services/SPTermStorePickerService.ts:123-127 | the case of the search text does not matter |
| TermStoreService.SearchTermsByTermSet | src/common/services/SPTermStorePickerService.ts:115-130 | the loop keeps exactly the matching terms; the call sends GetAllTerms's requests and never rejects |
| TermStoreService.SearchHangsOnEarlierFailure | src/common/services/SPTermStorePickerService.ts:115-130 | a failed store request, no store, or a failed term set request leaves the search unsettled |

## Left out

- Rendering: markup, styles, tooltips, spinners and the form field wrapper's
  layout. The model keeps only what each component decides to show.
- The date, number and plain-text display and edit components. They only pass
  the value through and are not part of this model.
- `ListView` selection handling and `_isMounted`. The model has no unmounting
  and runs handlers one after another, so races between overlapping requests
  are not modelled.
- `ListForm.clearError`. It is the same `splice` assignment as the list view's,
  which `ListView.SpliceResult` models.
- `ListForm`'s `componentDidMount` and `componentWillReceiveProps` only call
  `ReadSchema`. They have no member of their own.
- The people picker's `componentDidUpdate` re-binding of default users and the
  `isEqual` deep comparison it relies on. `GetDefaultUsers` models what it
  computes.
- `PrincipalType.ts` is not part of this model. Its codes (User 1,
  DistributionList 2, SecurityGroup 4, SharePointGroup 8) follow SharePoint's
  enumeration.
- A persona's `null` name or e-mail is modelled as the empty text.
- Numbers are integers (`JsNumber` has no fractions) and `String(n)` is
  written for integers only. Floating-point formatting is not modelled.
- Numbers.ToNumber: reads only "", decimal digits and a minus sign followed by
  digits; every other text is NaN. JavaScript's `Number()` also trims white
  space, accepts a `+` sign, `0x`/`0o`/`0b` prefixes, fractions, exponents and
  `Infinity` (`Number(" 3")` is 3, `Number("0x1A")` is 26). The lookup editor
  reads back ids that `String(n)` wrote, which never take those forms, but a
  stored lookup value written by something else in such a form is read as NaN
  here.
- Case folding is ASCII only. JavaScript's `toLowerCase` on other scripts is
  not modelled.
- JavaScript's `sort()` compares UTF-16 code units, while `StringOrder`
  compares characters. The two agree below U+10000.
- `in` on objects ignores inherited properties.
- The order of keys of an object is not modelled: `ListFormService.FirstForm`
  takes the content types in the order the answer lists them.
- `String.Format` in the error messages is modelled as concatenation.
- File contents, blobs and upload progress are opaque values. The services are
  modelled by the requests they send and how their promise ends.
- `TermParent`'s constructor promise is modelled by the separate
  `TermsLoaded` step.
- `TermParent` writes `PathDepth` into the cached term objects, which are shared
  with the picker. The model works on values, so that aliasing is not
  captured.
- `ListView.ListViewComponent.ReadListData` and `LoadNextPage` take the
  service's answer as a parameter. The network, timing and `console` output
  are left out.
- The view and form schema rows are records of the fields the logic reads.
  Everything else in SharePoint's answers is left out.

## Findings

| source | as written | input that shows it | evidently intended | confidence | as-written member | corrected member |
|---|---|---|---|---|---|---|
| src/components/ListView.tsx:302 | the dismiss handler assigns `errors.splice(idx, 1)`, which is the removed element, so only the dismissed error remains (the same line is at src/components/ListForm.tsx:244) | errors ["a", "b"], dismiss 0: ["a"] remains | remove the dismissed error, keep the others | not executed | ListView.DismissKeepsOnlyDismissed | ListView.WithoutErrorPermutation |
| src/components/formFields/SPFieldLookupEdit.tsx:41-44 | the text of each key is read at `idx + 1` of the whole split array, but `idx` counts the even-filtered array | "1;#A;#2;#B": the second entry's text is read as "2" | pair each key with the segment after it (`2 * idx + 1`) | not executed | LookupEdit.ParseMultiAsWrittenMisreads | LookupEdit.MultiRoundTrip |
| src/components/formFields/SPFieldLookupEdit.tsx:80 | the new value concatenates `id;#text` pairs with no separator between them | entries (1, "A") and (2, "B") give "1;#A2;#B" | join the pairs with `;#` | not executed | LookupEdit.EmitAsWrittenLosesEntries | LookupEdit.MultiChangeRoundTrip |
| src/common/services/ListFormService.ts:115-116 | the server url is a plain string with no `$`, so nothing is substituted and a real web url is never shortened | "https://contoso.sharepoint.com/sites/a" stays whole | strip the page's protocol and host | not executed | ServiceErrors.RelativeUrlKeepsAbsoluteUrl | ServiceErrors.ServerRelativeUrlStripsOrigin |
| src/common/services/DocumentService.ts:95-105 | a failed item query, or one that finds no item, is awaited inside a `new Promise(async …)` executor: the rejection or the `TypeError` on `res[0].ID` escapes the executor and the returned promise never settles | an item id that no list item has | reject with the mapped error, or a not-found message | not executed | DocumentService.UpdateItemHangsWithoutItem | DocumentService.UpdateItemSettledAgrees |
