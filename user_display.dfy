/** The user field display: one link per user of the value, each to the
    user's entry in the site's user information list. */
module UserDisplay {
  import opened Wrappers
  import opened Numbers
  import opened JsValues
  import opened Schema

  /** A rendered link: its target and the value shown as its text. */
  datatype UserLink = UserLink(href: string, text: Value)

  /** What the display renders. */
  datatype UserDisplayView = EmptyContainer | Links(links: seq<UserLink>)

  /** The address of the user information list's display form. */
  function ProfileBase(schema: FieldSchema): string
  {
    schema.listFormUrl + "?PageType=4&ListId=" + schema.userInfoListId
  }

  /** `v.length` where it is a number: the length of a string or an array,
      or an object's numeric `length` property. */
  function LengthOf(v: Value): Option<int>
  {
    match v
    case Str(s) => Some(|s|)
    case Arr(items) => Some(|items|)
    case Obj(props) =>
      if "length" in props && props["length"].Num? && props["length"].n.Finite?
      then Some(props["length"].n.value) else None
    case _ => None
  }

  /** `props.value && props.value.length > 0`. */
  predicate HasUsers(v: Value)
  {
    Truthy(v) && LengthOf(v).Some? && LengthOf(v).value > 0
  }

  /** The link for one entry: the profile address with `&ID=` and the
      entry's id, showing the entry's title. */
  function UserLinkFor(schema: FieldSchema, item: Value): (r: Result<UserLink, string>)
    ensures r.Failure? <==> item == Null || item == Undefined
  {
    match Prop(item, "id")
    case Failure(e) => Failure(e)
    case Success(id) =>
      match Prop(item, "title")
      case Failure(e) => Failure(e)
      case Success(title) => Success(UserLink(ProfileBase(schema) + "&ID=" + TemplateText(id), title))
  }

  /** The links for all entries, in order; a null or undefined entry throws. */
  function LinksFor(schema: FieldSchema, items: seq<Value>): (r: Result<seq<UserLink>, string>)
    ensures r.Success? <==> forall i :: 0 <= i < |items| ==> items[i] != Null && items[i] != Undefined
    ensures r.Success? ==> |r.value| == |items|
    ensures r.Success? ==> forall i :: 0 <= i < |items| ==> Success(r.value[i]) == UserLinkFor(schema, items[i])
  {
    if items == [] then Success([])
    else
      match UserLinkFor(schema, items[0])
      case Failure(e) => Failure(e)
      case Success(link) =>
        match LinksFor(schema, items[1..])
        case Failure(e) => Failure(e)
        case Success(rest) =>
          assert forall i :: 1 <= i < |items| ==> items[i] == items[1..][i - 1];
          Success([link] + rest)
  }

  /** The display: nothing for a falsy or empty value, otherwise one link
      per entry; a non-empty value that is not an array has no `map` and
      throws. */
  function Render(schema: FieldSchema, value: Value): (r: Result<UserDisplayView, string>)
    ensures r == Success(EmptyContainer) <==> !HasUsers(value)
    ensures value.Arr? ==> (r == Success(EmptyContainer) <==> value.items == [])
    ensures HasUsers(value) && !value.Arr? ==> r.Failure?
    ensures HasUsers(value) && value.Arr? ==> (r.Success? <==> LinksFor(schema, value.items).Success?)
    ensures r.Success? && r.value.Links? ==> value.Arr? && |r.value.links| == |value.items|
  {
    if !HasUsers(value) then Success(EmptyContainer)
    else if !value.Arr? then Failure("TypeError: value.map is not a function")
    else
      match LinksFor(schema, value.items)
      case Failure(e) => Failure(e)
      case Success(links) => Success(Links(links))
  }

  /** A user entry with a numeric id gets a link that starts with the
      profile address and whose `ID` parameter reads back as that id. */
  lemma LinkCarriesId(schema: FieldSchema, value: Value, i: nat, n: int, title: Value)
    requires value.Arr? && i < |value.items|
    requires value.items[i] == Obj(map["id" := Num(Finite(n)), "title" := title])
    requires Render(schema, value).Success?
    ensures Render(schema, value).value.Links?
    ensures var href := Render(schema, value).value.links[i].href;
      var base := ProfileBase(schema) + "&ID=";
      |base| <= |href| && href[..|base|] == base && ToNumber(href[|base|..]) == Finite(n)
    ensures Render(schema, value).value.links[i].text == title
  {
    var base := ProfileBase(schema) + "&ID=";
    var href := Render(schema, value).value.links[i].href;
    assert Success(Render(schema, value).value.links[i]) == UserLinkFor(schema, value.items[i]);
    assert href == base + NumberToString(Finite(n));
    assert href[|base|..] == NumberToString(Finite(n));
    NumberTextRoundTrip(Finite(n));
  }
}
