/** The people picker: loads the site's users once, suggests the ones whose
    name or e-mail contains the typed text, resolves default users from
    e-mail addresses and reports selections. */
module PeoplePicker {
  import opened Wrappers
  import opened Strings
  import opened Seqs
  import opened Numbers
  import opened JsValues

  /** The kinds of principal a user entry can be, with SharePoint's codes. */
  datatype PrincipalType = User | DistributionList | SecurityGroup | SharePointGroup

  function Code(t: PrincipalType): nat
  {
    match t
    case User => 1
    case DistributionList => 2
    case SecurityGroup => 4
    case SharePointGroup => 8
  }

  /** A site user as the REST service returns it. */
  datatype SiteUser = SiteUser(
    id: nat, title: string, email: string, loginName: string,
    isHiddenInUI: bool, principalType: int)

  /** A suggestion or selection: the id (text for loaded users, a number for
      placeholders), the name, the e-mail and the login when known. */
  datatype Persona = Persona(id: Value, text: string, secondaryText: string, loginName: Option<string>)

  /** The picker's settings. */
  datatype PickerProps = PickerProps(
    principleTypes: Option<seq<PrincipalType>>,
    showHiddenInUI: bool,
    isRequired: bool,
    groupName: Option<string>,
    personSelectionLimit: Option<int>,
    hasSelectedItemsCallback: bool)

  /** The user query: the filter string and the optional group login. */
  datatype UsersRequest = UsersRequest(filter: string, groupName: Option<string>)

  datatype ValidationState = Valid | Warning | Invalid

  /** `_validateInputPeople`: an '@' makes the input valid; otherwise more
      than one character is a warning and anything shorter is invalid. */
  function ValidateInput(input: string): (r: ValidationState)
    ensures r == Valid <==> Contains(input, "@")
    ensures r == Warning <==> !Contains(input, "@") && |input| > 1
    ensures r == Invalid <==> !Contains(input, "@") && |input| <= 1
  {
    if IndexOf(input, "@") != -1 then Valid
    else if |input| > 1 then Warning
    else Invalid
  }

  /** `_doesTextStartWith`: a non-empty text whose lower-cased form starts
      with the lower-cased filter. */
  predicate TextStartsWith(text: string, filterText: string)
  {
    text != "" && IndexOf(ToLower(text), ToLower(filterText)) == 0
  }

  /** `_doesTextContains`: a non-empty text whose lower-cased form holds the
      lower-cased filter somewhere after its start. */
  predicate TextContainsLater(text: string, filterText: string)
  {
    text != "" && IndexOf(ToLower(text), ToLower(filterText)) > 0
  }

  /** The test `_filterPersons` applies to one persona. */
  predicate PersonaMatches(p: Persona, filterText: string)
  {
    TextStartsWith(p.text, filterText) || TextContainsLater(p.text, filterText)
    || TextStartsWith(p.secondaryText, filterText) || TextContainsLater(p.secondaryText, filterText)
  }

  /** A persona matches exactly when its non-empty name or non-empty e-mail
      contains the filter, ignoring case. */
  lemma PersonaMatchesIff(p: Persona, filterText: string)
    ensures PersonaMatches(p, filterText) <==>
      (p.text != "" && ContainsIgnoreCase(p.text, filterText))
      || (p.secondaryText != "" && ContainsIgnoreCase(p.secondaryText, filterText))
  {
  }

  function Matcher(filterText: string): Persona -> bool
  {
    (p: Persona) => PersonaMatches(p, filterText)
  }

  /** `_filterPersons` over the loaded personas: the matching ones, each as
      often as it occurs, in menu order. */
  function FilterPersons(menu: seq<Persona>, filterText: string): (r: seq<Persona>)
    ensures IsFilterOf(r, menu, Matcher(filterText))
    ensures forall i :: 0 <= i < |r| ==> r[i] in menu && PersonaMatches(r[i], filterText)
    ensures forall i :: 0 <= i < |menu| && PersonaMatches(menu[i], filterText) ==> menu[i] in r
  {
    FilterIsFilterOf(menu, Matcher(filterText));
    Filter(menu, Matcher(filterText))
  }

  /** `_listContainsPersona`: some entry carries the same display text. */
  predicate ListContainsPersona(p: Persona, personas: seq<Persona>)
  {
    |personas| != 0 && exists i :: 0 <= i < |personas| && personas[i].text == p.text
  }

  function NotListed(possibleDupes: seq<Persona>): Persona -> bool
  {
    (p: Persona) => !ListContainsPersona(p, possibleDupes)
  }

  /** `_removeDuplicates`: drops every persona whose text some entry of
      `possibleDupes` has, keeping the order of the rest. */
  function RemoveDuplicates(personas: seq<Persona>, possibleDupes: seq<Persona>): (r: seq<Persona>)
    ensures IsFilterOf(r, personas, NotListed(possibleDupes))
    ensures forall i :: 0 <= i < |r| ==> r[i] in personas && !ListContainsPersona(r[i], possibleDupes)
    ensures forall i :: 0 <= i < |personas| && !ListContainsPersona(personas[i], possibleDupes) ==> personas[i] in r
  {
    FilterIsFilterOf(personas, NotListed(possibleDupes));
    Filter(personas, NotListed(possibleDupes))
  }

  /** Without possible duplicates nothing is removed. */
  lemma RemoveNoDuplicates(personas: seq<Persona>)
    ensures RemoveDuplicates(personas, []) == personas
  {
    FilterAll(personas, NotListed([]));
  }

  /** `limitResults ? personas.splice(0, limitResults) : personas`: no limit
      and a zero limit keep everything, a positive one keeps that many from
      the front, a negative one removes nothing from the array and so keeps
      nothing. */
  function LimitResults(personas: seq<Persona>, limitResults: Option<int>): (r: seq<Persona>)
    ensures r <= personas
    ensures limitResults.None? || limitResults == Some(0) ==> r == personas
    ensures limitResults.Some? && limitResults.value > 0 ==> |r| == if limitResults.value < |personas| then limitResults.value else |personas|
    ensures limitResults.Some? && limitResults.value < 0 ==> r == []
  {
    match limitResults
    case None => personas
    case Some(n) => if n == 0 then personas else if n > 0 then Take(personas, n) else []
  }

  /** `_onPersonFilterChanged`: an empty filter suggests nothing; otherwise the
      loaded personas are filtered, those already picked are removed and the
      rest is cut to the limit. Before any users were loaded the persona menu
      does not exist and the filter throws. */
  function OnPersonFilterChanged(
    menu: Option<seq<Persona>>, filterText: string,
    currentPersonas: seq<Persona>, limitResults: Option<int>): (r: Result<seq<Persona>, string>)
    ensures filterText == "" ==> r == Success([])
    ensures filterText != "" ==> (r.Failure? <==> menu.None?)
  {
    if filterText == "" then Success([])
    else if menu.None? then Failure("TypeError: the persona menu is undefined")
    else Success(LimitResults(RemoveDuplicates(FilterPersons(menu.value, filterText), currentPersonas), limitResults))
  }

  /** Every suggestion comes from the menu, matches the filter, is not yet
      picked, the limit is respected, and the suggestions keep the menu's
      order. */
  lemma SuggestionsSound(menu: seq<Persona>, filterText: string, current: seq<Persona>, limit: Option<int>)
    requires filterText != ""
    ensures OnPersonFilterChanged(Some(menu), filterText, current, limit).Success?
    ensures var r := OnPersonFilterChanged(Some(menu), filterText, current, limit).value;
      (forall i :: 0 <= i < |r| ==>
        r[i] in menu && PersonaMatches(r[i], filterText) && !ListContainsPersona(r[i], current))
      && (limit.Some? && limit.value > 0 ==> |r| <= limit.value)
      && IsSubsequence(r, menu)
  {
    var f := FilterPersons(menu, filterText);
    var d := RemoveDuplicates(f, current);
    var r := LimitResults(d, limit);
    FilterIsSubsequence(menu, Matcher(filterText));
    FilterIsSubsequence(f, NotListed(current));
    PrefixIsSubsequence(r, d);
    SubsequenceTrans(r, d, f);
    SubsequenceTrans(r, f, menu);
    forall i | 0 <= i < |r| ensures r[i] in d {
      assert r[i] == d[i];
    }
  }

  /** With no limit, every matching persona not yet picked is suggested. */
  lemma SuggestionsComplete(menu: seq<Persona>, filterText: string, current: seq<Persona>, p: Persona)
    requires filterText != ""
    requires p in menu && PersonaMatches(p, filterText) && !ListContainsPersona(p, current)
    ensures p in OnPersonFilterChanged(Some(menu), filterText, current, None).value
  {
    var f := FilterPersons(menu, filterText);
    var k :| 0 <= k < |menu| && menu[k] == p;
    assert p in f;
    var j :| 0 <= j < |f| && f[j] == p;
    assert p in RemoveDuplicates(f, current);
  }

  /** A prefix is a subsequence. */
  lemma {:induction false} PrefixIsSubsequence<T>(r: seq<T>, s: seq<T>)
    requires r <= s
    ensures IsSubsequence(r, s)
  {
    if r != [] {
      assert r[1..] <= s[1..];
      PrefixIsSubsequence(r[1..], s[1..]);
    }
  }

  /** Being a subsequence is transitive. */
  lemma {:induction false} SubsequenceTrans<T>(a: seq<T>, b: seq<T>, c: seq<T>)
    requires IsSubsequence(a, b) && IsSubsequence(b, c)
    ensures IsSubsequence(a, c)
    decreases |c|
  {
    if a != [] {
      assert b != [] && c != [];
      if b[0] == c[0] && IsSubsequence(b[1..], c[1..]) {
        if a[0] == b[0] && IsSubsequence(a[1..], b[1..]) {
          SubsequenceTrans(a[1..], b[1..], c[1..]);
        } else {
          SubsequenceTrans(a, b[1..], c[1..]);
        }
      } else {
        SubsequenceTrans(a, b, c[1..]);
      }
    }
  }

  /** The filter text for the principal types: one `(PrincipalType eq n)` per
      listed type, joined with " or "; no list gives the empty text. */
  function PrincipalFilter(types: Option<seq<PrincipalType>>): string
  {
    match types
    case None => ""
    case Some(ts) => Join(MapSeq(ts, TypeClause), " or ")
  }

  function TypeClause(t: PrincipalType): string
  {
    "(PrincipalType eq " + NatToString(Code(t)) + ")"
  }

  /** The `filterVal` built in `_thisLoadUsers`: the principal filter, and
      when hidden users are wanted a hidden-user clause, appended with
      " and " or, after an empty principal filter, as a `?$filter=` query. */
  function UserFilter(types: Option<seq<PrincipalType>>, showHiddenInUI: bool): (r: string)
    ensures !showHiddenInUI ==> r == PrincipalFilter(types)
    ensures showHiddenInUI && PrincipalFilter(types) == "" ==> r == "?$filter=IsHiddenInUI eq true"
    ensures showHiddenInUI && PrincipalFilter(types) != "" ==>
      r == PrincipalFilter(types) + " and (IsHiddenInUI eq true)"
  {
    var f := PrincipalFilter(types);
    if showHiddenInUI then
      if f != "" then f + " and (IsHiddenInUI eq true)" else "?$filter=IsHiddenInUI eq true"
    else f
  }

  /** The filter names every listed principal type. */
  lemma UserFilterNamesTypes(ts: seq<PrincipalType>, showHiddenInUI: bool, k: nat)
    requires k < |ts|
    ensures Contains(UserFilter(Some(ts), showHiddenInUI), TypeClause(ts[k]))
  {
    var parts := MapSeq(ts, TypeClause);
    JoinContainsPart(parts, " or ", k);
    var f := Join(parts, " or ");
    if showHiddenInUI {
      assert f != "";
      var i := IndexOf(f, parts[k]);
      var g := f + " and (IsHiddenInUI eq true)";
      assert g[i..i + |parts[k]|] == f[i..i + |parts[k]|];
      assert OccursAt(g, parts[k], i);
    }
  }

  /** A loaded user is kept when it is not hidden (or hidden users are
      wanted) and its principal type is listed (or no list is given). */
  predicate KeepUser(props: PickerProps, u: SiteUser)
  {
    (!u.isHiddenInUI || (props.showHiddenInUI && u.isHiddenInUI))
    && (props.principleTypes.None?
        || exists i :: 0 <= i < |props.principleTypes.value| && Code(props.principleTypes.value[i]) == u.principalType)
  }

  /** `types.indexOf(code)` over the listed principal types. */
  function TypeIndex(types: seq<PrincipalType>, code: int): (r: int)
    ensures r != -1 <==> exists i :: 0 <= i < |types| && Code(types[i]) == code
  {
    FirstIndex(types, (t: PrincipalType) => Code(t) == code)
  }

  function Keeps(props: PickerProps): SiteUser -> bool
  {
    (u: SiteUser) => KeepUser(props, u)
  }

  /** The persona made from a site user: its id as text, its title as the
      name, its e-mail and its login. */
  function ToPersona(u: SiteUser): Persona
  {
    Persona(Str(NatToString(u.id)), u.title, u.email, Some(u.loginName))
  }

  /** The personas the loaded users give: the kept ones, in order. */
  function LoadedPersonas(props: PickerProps, users: seq<SiteUser>): (r: seq<Persona>)
    ensures |r| <= |users|
  {
    MapSeq(Filter(users, Keeps(props)), ToPersona)
  }

  /** Every kept user is loaded. */
  lemma KeptUserLoaded(props: PickerProps, users: seq<SiteUser>, u: SiteUser)
    requires u in users && KeepUser(props, u)
    ensures ToPersona(u) in LoadedPersonas(props, users)
  {
    var f := Filter(users, Keeps(props));
    var k :| 0 <= k < |users| && users[k] == u;
    assert u in f;
    var j :| 0 <= j < |f| && f[j] == u;
    assert LoadedPersonas(props, users)[j] == ToPersona(u);
  }

  /** Every loaded persona comes from a kept user. */
  lemma LoadedFromKeptUser(props: PickerProps, users: seq<SiteUser>, i: nat)
    requires i < |LoadedPersonas(props, users)|
    ensures exists v :: v in users && KeepUser(props, v) && LoadedPersonas(props, users)[i] == ToPersona(v)
  {
    var f := Filter(users, Keeps(props));
    assert f[i] in users && Keeps(props)(f[i]);
    assert LoadedPersonas(props, users)[i] == ToPersona(f[i]);
  }

  /** The placeholder for the `i`-th default e-mail no user matched. */
  function Placeholder(email: string, i: nat): Persona
  {
    Persona(Num(Finite(1000 + i)), email, email, None)
  }

  /** `filterUsers`: the persona's lower-cased e-mail holds the lower-cased
      address. */
  function EmailMatcher(email: string): Persona -> bool
  {
    (p: Persona) => ContainsIgnoreCase(p.secondaryText, email)
  }

  /** The personas one default e-mail resolves to: the matching users, or
      its placeholder when there are none. */
  function Resolve(users: seq<Persona>, email: string, i: nat): seq<Persona>
  {
    var matched := Filter(users, EmailMatcher(email));
    if matched == [] then [Placeholder(email, i)] else matched
  }

  /** What `getDefaultUsers` returns: the resolutions of the e-mails, in
      order. */
  function DefaultUsers(users: seq<Persona>, emails: seq<string>): seq<Persona>
  {
    if emails == [] then []
    else DefaultUsers(users, emails[..|emails| - 1]) + Resolve(users, emails[|emails| - 1], |emails| - 1)
  }

  /** The defaults of one more address. */
  lemma DefaultUsersStep(users: seq<Persona>, emails: seq<string>, i: nat)
    requires i < |emails|
    ensures DefaultUsers(users, emails[..i + 1]) == DefaultUsers(users, emails[..i]) + Resolve(users, emails[i], i)
  {
    var e := emails[..i + 1];
    assert |e| - 1 == i && e[|e| - 1] == emails[i];
    assert e[..|e| - 1] == emails[..i];
    assert DefaultUsers(users, e) == DefaultUsers(users, e[..|e| - 1]) + Resolve(users, e[|e| - 1], |e| - 1);
  }

  /** `getDefaultUsers`: for each e-mail, appends the matching users, and a
      placeholder when the array did not grow. */
  method GetDefaultUsers(users: seq<Persona>, selectedUsers: seq<string>) returns (r: seq<Persona>)
    ensures r == DefaultUsers(users, selectedUsers)
  {
    r := [];
    var i := 0;
    while i < |selectedUsers|
      invariant 0 <= i <= |selectedUsers|
      invariant r == DefaultUsers(users, selectedUsers[..i])
    {
      DefaultUsersStep(users, selectedUsers, i);
      ghost var before := r;
      var matched := Filter(users, EmailMatcher(selectedUsers[i]));
      var length := |r|;
      r := if |r| != 0 then r + matched else matched;
      assert r == before + matched;
      if length == |r| {
        var unknown := [Placeholder(selectedUsers[i], i)];
        r := if |r| != 0 then r + unknown else unknown;
        assert r == before + unknown;
      }
      i := i + 1;
    }
    assert selectedUsers[..i] == selectedUsers;
  }

  /** No user matches the address. */
  predicate Unmatched(users: seq<Persona>, email: string)
  {
    forall k :: 0 <= k < |users| ==> !ContainsIgnoreCase(users[k].secondaryText, email)
  }

  /** Every e-mail contributes at least one persona. */
  lemma {:induction false} DefaultUsersCoverEmails(users: seq<Persona>, emails: seq<string>)
    ensures |DefaultUsers(users, emails)| >= |emails|
  {
    if emails != [] {
      DefaultUsersCoverEmails(users, emails[..|emails| - 1]);
    }
  }

  /** What one address resolves to is a matching user, or its placeholder
      when no user matched. */
  lemma ResolveSound(users: seq<Persona>, email: string, i: nat, p: Persona)
    requires p in Resolve(users, email, i)
    ensures (p in users && ContainsIgnoreCase(p.secondaryText, email))
      || (p == Placeholder(email, i) && Unmatched(users, email))
  {
    var matched := Filter(users, EmailMatcher(email));
    if matched == [] {
      forall k | 0 <= k < |users| ensures !EmailMatcher(email)(users[k]) {
      }
    } else {
      var j :| 0 <= j < |matched| && matched[j] == p;
      assert EmailMatcher(email)(p);
    }
  }

  /** An address no user matched resolves to its placeholder alone. */
  lemma ResolveUnmatched(users: seq<Persona>, email: string, i: nat)
    requires Unmatched(users, email)
    ensures Resolve(users, email, i) == [Placeholder(email, i)]
  {
    forall k | 0 <= k < |users| ensures !EmailMatcher(email)(users[k]) {
    }
    FilterNone(users, EmailMatcher(email));
  }

  /** Every default persona comes from the resolution of one address. */
  lemma {:induction false} DefaultUsersFrom(users: seq<Persona>, emails: seq<string>, p: Persona)
    requires p in DefaultUsers(users, emails)
    ensures exists i :: 0 <= i < |emails| && p in Resolve(users, emails[i], i)
  {
    var n := |emails| - 1;
    var init := emails[..n];
    if p in DefaultUsers(users, init) {
      DefaultUsersFrom(users, init, p);
      var i :| 0 <= i < |init| && p in Resolve(users, init[i], i);
      assert init[i] == emails[i];
    } else {
      assert p in Resolve(users, emails[n], n);
    }
  }

  /** The defaults of a prefix of the addresses start the defaults. */
  lemma {:induction false} DefaultUsersPrefix(users: seq<Persona>, emails: seq<string>, m: nat)
    requires m <= |emails|
    ensures DefaultUsers(users, emails[..m]) <= DefaultUsers(users, emails)
  {
    if m == |emails| {
      assert emails[..m] == emails;
    } else {
      var n := |emails| - 1;
      var init := emails[..n];
      assert init[..m] == emails[..m];
      DefaultUsersPrefix(users, init, m);
      assert DefaultUsers(users, emails) == DefaultUsers(users, init) + Resolve(users, emails[n], n);
    }
  }

  /** An element of the last part is an element of the whole. */
  lemma InLast(d: seq<Persona>, r: seq<Persona>, p: Persona)
    requires p in r
    ensures p in d + r
  {
  }

  /** An element of a prefix is an element of the whole. */
  lemma InPrefix(a: seq<Persona>, b: seq<Persona>, p: Persona)
    requires a <= b && p in a
    ensures p in b
  {
    var k :| 0 <= k < |a| && a[k] == p;
    assert b[k] == p;
  }

  /** The resolution of every address is among the defaults. */
  lemma DefaultUsersInclude(users: seq<Persona>, emails: seq<string>, i: nat, p: Persona)
    requires i < |emails| && p in Resolve(users, emails[i], i)
    ensures p in DefaultUsers(users, emails)
  {
    var e := emails[..i + 1];
    assert |e| - 1 == i && e[i] == emails[i];
    var d := DefaultUsers(users, e[..|e| - 1]);
    var r := Resolve(users, e[|e| - 1], |e| - 1);
    assert DefaultUsers(users, e) == d + r;
    InLast(d, r, p);
    DefaultUsersPrefix(users, emails, i + 1);
    InPrefix(DefaultUsers(users, e), DefaultUsers(users, emails), p);
  }

  /** Every default persona is a user whose e-mail holds one of the
      addresses, or the placeholder of an address no user matched. */
  lemma DefaultUsersSound(users: seq<Persona>, emails: seq<string>, p: Persona)
    requires p in DefaultUsers(users, emails)
    ensures (p in users && exists i :: 0 <= i < |emails| && ContainsIgnoreCase(p.secondaryText, emails[i]))
      || (exists i :: 0 <= i < |emails| && p == Placeholder(emails[i], i) && Unmatched(users, emails[i]))
  {
    DefaultUsersFrom(users, emails, p);
    var i :| 0 <= i < |emails| && p in Resolve(users, emails[i], i);
    ResolveSound(users, emails[i], i, p);
  }

  /** The defaults of a prefix of the addresses stay among the defaults. */
  lemma DefaultUsersGrow(users: seq<Persona>, emails: seq<string>, p: Persona)
    requires emails != [] && p in DefaultUsers(users, emails[..|emails| - 1])
    ensures p in DefaultUsers(users, emails)
  {
  }

  /** Every user whose e-mail holds an address is among the defaults. */
  lemma DefaultUsersIncludeMatches(users: seq<Persona>, emails: seq<string>, i: nat, k: nat)
    requires i < |emails| && k < |users|
    requires ContainsIgnoreCase(users[k].secondaryText, emails[i])
    ensures users[k] in DefaultUsers(users, emails)
  {
    assert EmailMatcher(emails[i])(users[k]);
    assert users[k] in Resolve(users, emails[i], i);
    DefaultUsersInclude(users, emails, i, users[k]);
  }

  /** Every address no user matched has its placeholder among the defaults. */
  lemma DefaultUsersIncludePlaceholders(users: seq<Persona>, emails: seq<string>, i: nat)
    requires i < |emails| && Unmatched(users, emails[i])
    ensures Placeholder(emails[i], i) in DefaultUsers(users, emails)
  {
    ResolveUnmatched(users, emails[i], i);
    DefaultUsersInclude(users, emails, i, Placeholder(emails[i], i));
  }

  /** The personas of one more user. */
  lemma LoadedPersonasStep(p: PickerProps, users: seq<SiteUser>, i: nat)
    requires i < |users|
    ensures LoadedPersonas(p, users[..i + 1]) ==
      LoadedPersonas(p, users[..i]) + (if KeepUser(p, users[i]) then [ToPersona(users[i])] else [])
  {
    assert users[..i + 1] == users[..i] + [users[i]];
    FilterSnoc(users[..i], users[i], Keeps(p));
    MapConcat(Filter(users[..i], Keeps(p)), if KeepUser(p, users[i]) then [users[i]] else [], ToPersona);
  }

  /** The loop of `_thisLoadUsers` that turns every kept user into a
      persona, in order. */
  method CollectUsers(p: PickerProps, users: seq<SiteUser>) returns (userValues: seq<Persona>)
    ensures userValues == LoadedPersonas(p, users)
  {
    userValues := [];
    var i := 0;
    while i < |users|
      invariant 0 <= i <= |users|
      invariant userValues == LoadedPersonas(p, users[..i])
    {
      LoadedPersonasStep(p, users, i);
      var item := users[i];
      if !item.isHiddenInUI || (p.showHiddenInUI && item.isHiddenInUI) {
        if p.principleTypes.None? || TypeIndex(p.principleTypes.value, item.principalType) != -1 {
          userValues := userValues + [ToPersona(item)];
        }
      }
      i := i + 1;
    }
    assert users[..i] == users;
  }

  /** The picker's state. */
  class PeoplePickerComponent {
    var props: PickerProps
    var selectedPersons: seq<Persona>
    var mostRecentlyUsedPersons: seq<Persona>
    var allPersons: seq<Persona>
    /** The suggestion source; absent until users were loaded. */
    var peoplePersonaMenu: Option<seq<Persona>>
    var showMessageError: bool
    /** The user queries sent, oldest first. */
    var requests: seq<UsersRequest>
    /** The selections handed to the `selectedItems` callback, oldest first. */
    var reported: seq<seq<Persona>>

    constructor(props: PickerProps)
      ensures this.props == props
      ensures selectedPersons == [] && mostRecentlyUsedPersons == [] && allPersons == []
      ensures peoplePersonaMenu.None? && !showMessageError
      ensures requests == [] && reported == []
    {
      this.props := props;
      selectedPersons := [];
      mostRecentlyUsedPersons := [];
      allPersons := [];
      peoplePersonaMenu := None;
      showMessageError := false;
      requests := [];
      reported := [];
    }

    /** `_thisLoadUsers`: queries the users with the filter built from the
        settings; a non-empty answer replaces the loaded personas with the
        kept users and the most recently used ones with the first five of
        them; an empty answer or a failure changes nothing else. */
    method LoadUsers(response: Result<seq<SiteUser>, string>)
      modifies this
      ensures requests == old(requests) + [UsersRequest(UserFilter(props.principleTypes, props.showHiddenInUI), props.groupName)]
      ensures response.Success? && |response.value| > 0 ==>
        allPersons == LoadedPersonas(props, response.value)
        && peoplePersonaMenu == Some(allPersons)
        && mostRecentlyUsedPersons == Take(allPersons, 5)
      ensures !(response.Success? && |response.value| > 0) ==>
        allPersons == old(allPersons) && peoplePersonaMenu == old(peoplePersonaMenu)
        && mostRecentlyUsedPersons == old(mostRecentlyUsedPersons)
      ensures props == old(props) && selectedPersons == old(selectedPersons)
      ensures showMessageError == old(showMessageError) && reported == old(reported)
    {
      var p := props;
      var filterVal := "";
      if p.principleTypes.Some? {
        filterVal := PrincipalFilter(p.principleTypes);
      }
      if p.showHiddenInUI {
        filterVal := if filterVal != "" then filterVal + " and (IsHiddenInUI eq true)" else "?$filter=IsHiddenInUI eq true";
      }
      requests := requests + [UsersRequest(filterVal, p.groupName)];
      if response.Success? && |response.value| > 0 {
        var userValues := CollectUsers(p, response.value);
        allPersons := userValues;
        peoplePersonaMenu := Some(userValues);
        mostRecentlyUsedPersons := Take(userValues, 5);
      }
    }

    /** `_onPersonItemsChange`: the new selection replaces the old one, the
        required-field message shows exactly when it is empty, and the
        selection is handed to the callback when there is one. */
    method OnPersonItemsChange(items: seq<Persona>)
      modifies this
      ensures selectedPersons == items
      ensures showMessageError <==> items == []
      ensures reported == old(reported) + (if props.hasSelectedItemsCallback then [items] else [])
      ensures props == old(props) && allPersons == old(allPersons)
      ensures peoplePersonaMenu == old(peoplePersonaMenu)
      ensures mostRecentlyUsedPersons == old(mostRecentlyUsedPersons) && requests == old(requests)
    {
      selectedPersons := items;
      showMessageError := if |items| > 0 then false else true;
      if props.hasSelectedItemsCallback {
        reported := reported + [items];
      }
    }
  }

  /** The number of people the picker lets one pick
      (`personSelectionLimit || 1`): no limit or a zero limit allows one. */
  function ItemLimit(personSelectionLimit: Option<int>): (r: int)
    ensures personSelectionLimit.None? || personSelectionLimit == Some(0) ==> r == 1
    ensures personSelectionLimit.Some? && personSelectionLimit.value != 0 ==> r == personSelectionLimit.value
  {
    match personSelectionLimit
    case None => 1
    case Some(n) => if n != 0 then n else 1
  }

  /** `_returnMostRecentlyUsedPerson`: the recently used personas not yet
      picked, each as often as it occurs, in their order. */
  function ReturnMostRecentlyUsed(mostRecentlyUsed: seq<Persona>, currentPersonas: seq<Persona>): (r: seq<Persona>)
    ensures IsFilterOf(r, mostRecentlyUsed, NotListed(currentPersonas))
    ensures forall i :: 0 <= i < |r| ==> r[i] in mostRecentlyUsed && !ListContainsPersona(r[i], currentPersonas)
    ensures forall i :: 0 <= i < |mostRecentlyUsed| && !ListContainsPersona(mostRecentlyUsed[i], currentPersonas) ==>
      mostRecentlyUsed[i] in r
  {
    RemoveDuplicates(mostRecentlyUsed, currentPersonas)
  }
}
