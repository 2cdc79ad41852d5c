/** The error text the SharePoint services reject with: a fixed message for
    HTTP 403 and 404 naming the web url with the server part removed, else
    the error's status text, else its status message, else the error
    itself. The three services carry identical copies of this rule. */
module ServiceErrors {
  import opened Wrappers
  import opened Strings
  import opened Numbers
  import opened JsValues

  /** The text removed from the web url: written without `$`, so nothing is
      interpolated and these exact characters are looked for (written in two
      pieces only so that its first character is visible to proofs). */
  const ServerUrlText: string := "{" + "window.location.protocol}//{window.location.hostname}"

  /** `webUrl.replace(serverUrl, '')`. */
  function RelativeUrl(webUrl: string): string
  {
    ReplaceFirst(webUrl, ServerUrlText, "")
  }

  const AccessDeniedStart: string := "You do not have access to the previously configured web url '"
  const NotFoundStart: string := "The previously configured web url '"
  const MessageEnd: string := "'. Either leave the WebPart properties as is or select another web url."
  const NotFoundEnd: string := "' is not found anymore. Either leave the WebPart properties as is or select another web url."

  function AccessDeniedMessage(url: string): string
  {
    AccessDeniedStart + url + MessageEnd
  }

  function NotFoundMessage(url: string): string
  {
    NotFoundStart + url + NotFoundEnd
  }

  /** `error.status === code`: only the number itself matches. */
  predicate StatusIs(error: Value, code: int)
  {
    Prop(error, "status") == Success(Num(Finite(code)))
  }

  /** `getErrorMessage`: reading a property of a null or undefined error
      throws a TypeError. */
  function ErrorMessage(webUrl: string, error: Value): (r: Result<Value, string>)
    ensures r.Failure? <==> error == Null || error == Undefined
    ensures r.Success? && StatusIs(error, 403) ==> r.value == Str(AccessDeniedMessage(RelativeUrl(webUrl)))
    ensures r.Success? && StatusIs(error, 404) ==> r.value == Str(NotFoundMessage(RelativeUrl(webUrl)))
  {
    if error == Null || error == Undefined then Failure("TypeError")
    else
      var statusText := Prop(error, "statusText").value;
      var statusMessage := Prop(error, "statusMessage").value;
      var errorMessage := if Truthy(statusText) then statusText
                          else if Truthy(statusMessage) then statusMessage
                          else error;
      var url := RelativeUrl(webUrl);
      if StatusIs(error, 403) then Success(Str(AccessDeniedMessage(url)))
      else if StatusIs(error, 404) then Success(Str(NotFoundMessage(url)))
      else Success(errorMessage)
  }

  /** Any other status keeps the error's own text: its status text when
      truthy, else its status message when truthy, else the error itself. */
  lemma FallbackChain(webUrl: string, props: map<string, Value>)
    requires !StatusIs(Obj(props), 403) && !StatusIs(Obj(props), 404)
    ensures "statusText" in props && Truthy(props["statusText"]) ==>
      ErrorMessage(webUrl, Obj(props)) == Success(props["statusText"])
    ensures !("statusText" in props && Truthy(props["statusText"])) ==>
      ("statusMessage" in props && Truthy(props["statusMessage"]) ==>
        ErrorMessage(webUrl, Obj(props)) == Success(props["statusMessage"]))
    ensures !("statusText" in props && Truthy(props["statusText"])) ==>
      (!("statusMessage" in props && Truthy(props["statusMessage"])) ==>
        ErrorMessage(webUrl, Obj(props)) == Success(Obj(props)))
  {
  }

  /** An error that is a plain string is its own message, whatever the url. */
  lemma StringErrorKept(webUrl: string, text: string)
    ensures ErrorMessage(webUrl, Str(text)) == Success(Str(text))
  {
    assert !Truthy(Undefined);
  }

  /** Status 403 and 404 override whatever text the error carries, and 403
      is the one checked first; a status given as text is no status. */
  lemma StatusOverridesText(webUrl: string, props: map<string, Value>, text: Value)
    ensures var e := Obj(props["statusText" := text]);
      (StatusIs(Obj(props), 403) ==> ErrorMessage(webUrl, e) == ErrorMessage(webUrl, Obj(props))) &&
      (StatusIs(Obj(props), 404) ==> ErrorMessage(webUrl, e) == ErrorMessage(webUrl, Obj(props)))
    ensures "status" in props && props["status"] == Str("403") ==> !StatusIs(Obj(props), 403)
  {
    var e := Obj(props["statusText" := text]);
    assert Prop(e, "status") == Prop(Obj(props), "status");
  }

  /** The 403 and 404 messages name the relative url and differ from each
      other. */
  lemma StatusMessagesNameUrl(webUrl: string)
    ensures Contains(AccessDeniedMessage(RelativeUrl(webUrl)), RelativeUrl(webUrl))
    ensures Contains(NotFoundMessage(RelativeUrl(webUrl)), RelativeUrl(webUrl))
    ensures AccessDeniedMessage(RelativeUrl(webUrl)) != NotFoundMessage(RelativeUrl(webUrl))
  {
    var url := RelativeUrl(webUrl);
    ContainsMiddle(AccessDeniedStart, url, MessageEnd);
    ContainsMiddle(NotFoundStart, url, NotFoundEnd);
    assert AccessDeniedMessage(url)[0] == AccessDeniedStart[0];
    assert NotFoundMessage(url)[0] == NotFoundStart[0];
  }

  lemma ContainsMiddle(p: string, x: string, q: string)
    ensures Contains(p + x + q, x)
  {
    var s := p + x + q;
    assert s[|p|..|p| + |x|] == x;
    ContainsSlice(s, |p|, |p| + |x|);
  }

  /** No url without a '{' is shortened: a real absolute url reaches the
      message whole. */
  lemma RelativeUrlKeepsAbsoluteUrl(webUrl: string)
    requires forall k :: 0 <= k < |webUrl| ==> webUrl[k] != '{'
    ensures RelativeUrl(webUrl) == webUrl
  {
    assert ServerUrlText[0] == '{';
    FirstCharAbsent(webUrl, ServerUrlText);
  }

  /** A text whose first character never occurs is nowhere in a string. */
  lemma FirstCharAbsent(s: string, sub: string)
    requires sub != [] && forall k :: 0 <= k < |s| ==> s[k] != sub[0]
    ensures !Contains(s, sub)
  {
  }

  /** The server-relative url the code evidently aims at: the url with the
      page's own protocol and host name removed from its start. */
  function ServerRelativeUrl(webUrl: string, protocol: string, hostname: string): string
  {
    ReplaceFirst(webUrl, protocol + "//" + hostname, "")
  }

  /** A url on the page's own server loses exactly its origin. */
  lemma ServerRelativeUrlStripsOrigin(protocol: string, hostname: string, path: string)
    ensures ServerRelativeUrl(protocol + "//" + hostname + path, protocol, hostname) == path
  {
    var origin := protocol + "//" + hostname;
    var s := origin + path;
    assert s[0..|origin|] == origin;
    assert OccursAt(s, origin, 0);
    IndexOfIsFirst(s, origin, 0);
    assert s[|origin|..] == path;
  }

  /** What a service call did: the requests it sent, in order, and how the
      promise it returned ends. */
  datatype Call<R, T> = Call(requests: seq<R>, outcome: Outcome<T, Value>)

  /** How a service call ends that rejects with the mapped message: the
      answer itself, or the message for its error; when mapping the error
      throws, the promise never settles. */
  function SettleMapped<T>(webUrl: string, response: Result<T, Value>): (r: Outcome<T, Value>)
    ensures response.Success? ==> r == Resolved(response.value)
    ensures response.Failure? && ErrorMessage(webUrl, response.error).Success? ==>
      r == Rejected(ErrorMessage(webUrl, response.error).value)
    ensures response.Failure? && ErrorMessage(webUrl, response.error).Failure? ==> r == Unsettled
  {
    match response
    case Success(v) => Resolved(v)
    case Failure(e) =>
      var m := ErrorMessage(webUrl, e);
      if m.Success? then Rejected(m.value) else Unsettled
  }

  /** How a service call ends that passes its error on unchanged. */
  function SettleRaw<T>(response: Result<T, Value>): (r: Outcome<T, Value>)
    ensures response.Success? ==> r == Resolved(response.value)
    ensures response.Failure? ==> r == Rejected(response.error)
  {
    match response
    case Success(v) => Resolved(v)
    case Failure(e) => Rejected(e)
  }
}
