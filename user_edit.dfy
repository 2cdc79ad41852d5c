/** The user field editor: a people picker restricted to visible users,
    security groups and SharePoint groups, whose selection is written as a
    list of `{'Key':'login'}` entries. */
module UserEdit {
  import opened Wrappers
  import opened Strings
  import opened Seqs
  import opened Schema
  import opened Numbers
  import opened PeoplePicker

  /** The login as string concatenation writes it: a placeholder persona has
      none and is written "undefined". */
  function LoginText(p: Persona): string
  {
    match p.loginName
    case None => "undefined"
    case Some(l) => l
  }

  /** One selected user's entry. */
  function UserKey(p: Persona): string
  {
    "{'Key':'" + LoginText(p) + "'}"
  }

  /** The value written for a selection: the entries joined with ",", in
      brackets. */
  function UsersValue(users: seq<Persona>): string
  {
    "[" + Join(MapSeq(users, UserKey), ",") + "]"
  }

  /** The `selectedItems` callback: pushes one entry per user, then joins. */
  method SelectedItems(users: seq<Persona>) returns (value: string)
    ensures value == UsersValue(users)
  {
    var conArray: seq<string> := [];
    var i := 0;
    while i < |users|
      invariant 0 <= i <= |users|
      invariant conArray == MapSeq(users[..i], UserKey)
    {
      conArray := conArray + [UserKey(users[i])];
      i := i + 1;
    }
    assert users[..i] == users;
    value := "[" + Join(conArray, ",") + "]";
  }

  /** Reads a written value back into logins: the text between the brackets,
      split at ",", each entry stripped of its `{'Key':'` and `'}`. */
  function ParseUsersValue(s: string): Option<seq<string>>
  {
    if |s| < 2 || s[0] != '[' || s[|s| - 1] != ']' then None
    else
      var inner := s[1..|s| - 1];
      if inner == "" then Some([])
      else Some(MapSeq(Split(inner, ","), KeyLogin))
  }

  function KeyLogin(entry: string): string
  {
    if |entry| >= 10 then entry[8..|entry| - 2] else ""
  }

  /** No selection is written as "[]". */
  lemma EmptySelection()
    ensures UsersValue([]) == "[]"
  {
    assert MapSeq([], UserKey) == [];
  }

  /** Reading the written value back gives every selected user's login, in
      order, provided no login contains ','. */
  lemma UsersRoundTrip(users: seq<Persona>)
    requires forall k :: 0 <= k < |users| ==> !Contains(LoginText(users[k]), ",")
    ensures ParseUsersValue(UsersValue(users)) == Some(MapSeq(users, LoginText))
  {
    var keys := MapSeq(users, UserKey);
    var s := UsersValue(users);
    assert s[1..|s| - 1] == Join(keys, ",");
    if users != [] {
      JoinLength(keys, ",");
      forall k | 0 <= k < |keys| ensures !Contains(keys[k], ",") {
        CharAbsent("{'Key':'", ',');
        CharAbsent("'}", ',');
        CharAbsentConcat("{'Key':'", LoginText(users[k]), ',');
        CharAbsentConcat("{'Key':'" + LoginText(users[k]), "'}", ',');
      }
      SplitJoin(keys, ",");
      forall k | 0 <= k < |keys| ensures KeyLogin(keys[k]) == LoginText(users[k]) {
        assert keys[k][8..|keys[k]| - 2] == LoginText(users[k]);
      }
      assert s[0] == '[' && s[|s| - 1] == ']';
      assert MapSeq(Split(Join(keys, ","), ","), KeyLogin) == MapSeq(users, LoginText);
    }
  }

  /** At most fifteen people for a multi-valued field, otherwise no limit. */
  function SelectionLimit(schema: FieldSchema): (r: Option<int>)
    ensures r.Some? <==> schema.allowMultipleValues
    ensures r.Some? ==> r.value == 15
  {
    if schema.allowMultipleValues then Some(15) else None
  }

  /** The people picker's settings for a user field: required as the field
      is, the three principal types, no hidden users. */
  function Settings(schema: FieldSchema): (r: PickerProps)
    ensures r.isRequired <==> schema.required
    ensures r.principleTypes == Some([SecurityGroup, SharePointGroup, User])
    ensures !r.showHiddenInUI && r.hasSelectedItemsCallback
    ensures r.personSelectionLimit == SelectionLimit(schema)
  {
    PickerProps(Some([SecurityGroup, SharePointGroup, User]), false, schema.required, None, SelectionLimit(schema), true)
  }

  /** A single-valued user field lets one person be picked, a multi-valued
      one fifteen. */
  lemma PickCount(schema: FieldSchema)
    ensures ItemLimit(Settings(schema).personSelectionLimit) == if schema.allowMultipleValues then 15 else 1
  {
  }

  /** The picker of a user field loads exactly the visible users, security
      groups and SharePoint groups. */
  lemma LoadsVisiblePrincipals(schema: FieldSchema, u: SiteUser)
    ensures KeepUser(Settings(schema), u) <==>
      !u.isHiddenInUI && (u.principalType == 1 || u.principalType == 4 || u.principalType == 8)
  {
    var ts := [SecurityGroup, SharePointGroup, User];
    if u.principalType == 4 {
      assert Code(ts[0]) == u.principalType;
    } else if u.principalType == 8 {
      assert Code(ts[1]) == u.principalType;
    } else if u.principalType == 1 {
      assert Code(ts[2]) == u.principalType;
    }
  }

  /** The user query of a user field asks for the three principal types,
      security groups (code 4), SharePoint groups (8) and users (1), joined
      with " or ". */
  lemma QueriesPrincipalTypes(schema: FieldSchema)
    ensures UserFilter(Settings(schema).principleTypes, Settings(schema).showHiddenInUI)
      == TypeClause(SecurityGroup) + " or " + TypeClause(SharePointGroup) + " or " + TypeClause(User)
    ensures TypeClause(SecurityGroup) == "(PrincipalType eq 4)"
    ensures TypeClause(SharePointGroup) == "(PrincipalType eq 8)"
    ensures TypeClause(User) == "(PrincipalType eq 1)"
  {
    var ts := [SecurityGroup, SharePointGroup, User];
    assert MapSeq(ts, TypeClause) == [TypeClause(SecurityGroup), TypeClause(SharePointGroup), TypeClause(User)];
    JoinThree(TypeClause(SecurityGroup), TypeClause(SharePointGroup), TypeClause(User), " or ");
    assert NatToString(4) == "4" && NatToString(8) == "8" && NatToString(1) == "1";
  }
}
