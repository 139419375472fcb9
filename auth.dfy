/**
 * The decisions of the OAuth helper (src/auth.js): which scope `auth` asks
 * for, the authorize URL `redirect` sends the browser to, the access level a
 * granted scope list means, and the plain-text answer of `authCallback`.
 * The token request to Twitch and the user lookup are not modelled; their
 * combined result is the parameter `exchange` of `AuthCallback`.
 */
module Auth {
  import opened Wrappers
  import opened JsText
  import UriComponent

  const ManageScope := "moderator:manage:unban_requests"
  const ReadScope := "moderator:read:unban_requests"
  const AuthorizeEndpoint := "https://id.twitch.tv/oauth2/authorize"

  /** The scope list `auth` requests: one scope, the manage scope exactly when `manage`. */
  function RequestedScopes(manage: bool): (r: seq<string>)
    ensures |r| == 1
    ensures ManageScope in r <==> manage
    ensures ReadScope in r <==> !manage
  {
    if manage then [ManageScope] else [ReadScope]
  }

  /** The `scope` query value: the scopes joined by one space, then URI-encoded. */
  function ScopeParameter(scopes: seq<string>): string {
    UriComponent.Encode(Join(scopes, " "))
  }

  /**
   * The URL `redirect` sends the browser to. Client id and redirect URI are
   * inserted as they are (an unset one renders as "undefined"); only the
   * scope list is encoded.
   */
  function AuthorizeUrl(clientId: Option<string>, redirectUri: Option<string>, scopes: seq<string>): (r: string)
    ensures var pre := AuthorizeEndpoint + "?client_id=" + Template(clientId) + "&redirect_uri=";
      var suf := "&response_type=code&scope=" + ScopeParameter(scopes);
      |r| >= |pre| + |suf| && r[..|pre|] == pre && r[|r| - |suf|..] == suf
    ensures var mid := |r| - |"&response_type=code&scope=" + ScopeParameter(scopes)|;
      var start := |AuthorizeEndpoint + "?client_id=" + Template(clientId) + "&redirect_uri="|;
      start <= mid && r[start..mid] == Template(redirectUri)
  {
    var pre := AuthorizeEndpoint + "?client_id=" + Template(clientId) + "&redirect_uri=";
    var suf := "&response_type=code&scope=" + ScopeParameter(scopes);
    var r := pre + Template(redirectUri) + suf;
    assert r[..|pre|] == pre && r[|r| - |suf|..] == suf && r[|pre|..|r| - |suf|] == Template(redirectUri);
    r
  }

  /**
   * The URL `auth` redirects to: the authorize URL for the client, whose
   * `scope` value decodes to the one scope the flag chose.
   */
  function AuthUrl(clientId: Option<string>, redirectUri: Option<string>, manage: bool): (r: string)
    ensures var pre := AuthorizeEndpoint + "?client_id=" + Template(clientId) + "&redirect_uri=";
      |r| >= |pre| && r[..|pre|] == pre
    ensures UriComponent.Decode(AfterLast(r, '=')) == Some(if manage then ManageScope else ReadScope)
  {
    AuthorizeUrlScopeValue(clientId, redirectUri, RequestedScopes(manage));
    AuthScopesRecoverable(manage);
    AuthorizeUrl(clientId, redirectUri, RequestedScopes(manage))
  }

  /**
   * The authorize URL ends in the scope parameter: what follows its last `=`
   * is exactly the encoded scope list.
   */
  lemma AuthorizeUrlScopeValue(clientId: Option<string>, redirectUri: Option<string>, scopes: seq<string>)
    ensures AfterLast(AuthorizeUrl(clientId, redirectUri, scopes), '=') == ScopeParameter(scopes)
  {
    var v := ScopeParameter(scopes);
    UriComponent.EncodeQuerySafe(Join(scopes, " "));
    assert '=' !in v;
    var t := "&response_type=code&scope";
    assert t + ['='] + v == "&response_type=code&scope=" + v;
    AfterLastOfSuffix(AuthorizeUrl(clientId, redirectUri, scopes), t, '=', v);
  }

  /**
   * The scope value cannot end the parameter early (it holds only unreserved
   * characters and `%`), and an OAuth server that decodes it and splits it at
   * spaces gets back exactly the requested scopes.
   */
  lemma ScopeParameterRoundTrip(scopes: seq<string>)
    requires |scopes| >= 1
    requires forall i | 0 <= i < |scopes| :: ' ' !in scopes[i]
    ensures UriComponent.QuerySafe(ScopeParameter(scopes))
    ensures UriComponent.Decode(ScopeParameter(scopes)) == Some(Join(scopes, " "))
    ensures Split(Join(scopes, " "), ' ') == scopes
  {
    UriComponent.EncodeQuerySafe(Join(scopes, " "));
    UriComponent.DecodeEncode(Join(scopes, " "));
    SplitJoin(scopes, ' ');
  }

  /** What the server reads back from the URL `auth` produces is the one scope it chose. */
  lemma AuthScopesRecoverable(manage: bool)
    ensures UriComponent.Decode(ScopeParameter(RequestedScopes(manage))) == Some(if manage then ManageScope else ReadScope)
  {
    UriComponent.DecodeEncode(Join(RequestedScopes(manage), " "));
  }

  /** `getAccessLevel`: "Manage" exactly when the manage scope was granted, otherwise "Read". */
  function AccessLevel(scopes: seq<string>): (r: string)
    ensures r == "Manage" <==> ManageScope in scopes
    ensures r == "Read" <==> ManageScope !in scopes
  {
    if ManageScope in scopes then "Manage" else "Read"
  }

  /** Granting what `auth` requested yields the access level its flag asked for. */
  lemma RequestedAccessLevel(manage: bool)
    ensures AccessLevel(RequestedScopes(manage)) == (if manage then "Manage" else "Read")
  {
  }

  /** The query parameters Twitch redirects back with (absent ones are None). */
  datatype CallbackQuery = CallbackQuery(code: Option<string>, error: Option<string>, errorDescription: Option<string>)

  /**
   * The outcome of exchanging an authorization code: the token response was
   * OK, giving the granted scopes and the user the token belongs to; or it was
   * not, giving the text of Twitch's response; or one of the awaited steps
   * threw: the token request or the user lookup rejected, the body was not
   * JSON, or it lacked the `scope` list or the user's `display_name`.
   */
  datatype TokenExchange =
    | Granted(scope: seq<string>, displayName: string, login: string)
    | Refused(responseText: string)
    | Failed

  datatype TextResponse = TextResponse(contentType: string, body: string)

  const NotRedirectedText := "This endpoint is intended to be redirected from Twitch's auth flow. It is not meant to be called directly"
  const ErrorHeading := "The following error occured:"

  /**
   * The success text. The login is added in parentheses unless it is just the
   * lower-cased display name.
   */
  function GrantedText(level: string, displayName: string, login: string): (r: string)
    ensures r == "Got " + level + " Tokens for " + displayName <==> Lower(displayName) == login
    ensures Lower(displayName) != login ==>
      r == "Got " + level + " Tokens for " + displayName + " (" + login + ")"
  {
    var stem := "Got " + level + " Tokens for " + displayName;
    if Lower(displayName) == login then stem
    else
      var r := stem + " (" + login + ")";
      assert |r| > |stem|;
      r
  }

  /** The error text: a heading line, the error, and the description only when one is given. */
  function ErrorText(error: string, description: Option<string>): (r: string)
    ensures var head := ErrorHeading + "\n" + error;
      |r| >= |head| && r[..|head|] == head
    ensures Truthy(description) <==> |r| > |ErrorHeading + "\n" + error|
    ensures Truthy(description) ==> r[|ErrorHeading + "\n" + error|..] == "\n" + description.value
  {
    if Truthy(description) then ErrorHeading + "\n" + error + "\n" + description.value
    else ErrorHeading + "\n" + error
  }

  /**
   * Read line by line, the error text is the heading, the error, and then the
   * description exactly when it is given.
   */
  lemma ErrorTextLines(error: string, description: Option<string>)
    requires '\n' !in error
    requires description.Some? ==> '\n' !in description.value
    ensures Split(ErrorText(error, description), '\n') ==
      [ErrorHeading, error] + (if Truthy(description) then [description.value] else [])
  {
    assert '\n' !in ErrorHeading;
    if Truthy(description) {
      var lines := [ErrorHeading, error, description.value];
      assert lines[1..][1..] == [description.value];
      assert Join(lines[1..], "\n") == error + "\n" + description.value;
      assert Join(lines, "\n") == ErrorText(error, description);
      SplitJoin(lines, '\n');
    } else {
      var lines := [ErrorHeading, error];
      assert Join(lines, "\n") == ErrorText(error, description);
      SplitJoin(lines, '\n');
    }
  }

  /**
   * `authCallback`'s answer, always plain text, or None where the handler
   * throws and sends nothing. A truthy `code` wins: the exchange for that code
   * decides the text. Otherwise a truthy `error` is reported, and with neither
   * the fixed "not meant to be called directly" text.
   */
  function AuthCallback(q: CallbackQuery, exchange: string -> TokenExchange): (r: Option<TextResponse>)
    ensures r.Some? ==> r.value.contentType == "text/plain"
    ensures r.None? <==> Truthy(q.code) && exchange(q.code.value).Failed?
    ensures !Truthy(q.code) && !Truthy(q.error) ==> r == Some(TextResponse("text/plain", NotRedirectedText))
    ensures !Truthy(q.code) && Truthy(q.error) ==>
      r == Some(TextResponse("text/plain", ErrorText(q.error.value, q.errorDescription)))
  {
    if Truthy(q.code) then
      match exchange(q.code.value)
      case Granted(scope, displayName, login) => Some(TextResponse("text/plain", GrantedText(AccessLevel(scope), displayName, login)))
      case Refused(text) => Some(TextResponse("text/plain", text))
      case Failed => None
    else if Truthy(q.error) then Some(TextResponse("text/plain", ErrorText(q.error.value, q.errorDescription)))
    else Some(TextResponse("text/plain", NotRedirectedText))
  }

  /** Without a code the token exchange is never consulted. */
  lemma CallbackWithoutCodeIgnoresExchange(q: CallbackQuery, f: string -> TokenExchange, g: string -> TokenExchange)
    requires !Truthy(q.code)
    ensures AuthCallback(q, f) == AuthCallback(q, g)
  {
  }

  /**
   * With a code, the answer is the exchange's: the success text for the
   * granted scopes and user, Twitch's own response text, or nothing at all
   * when a step of the exchange threw.
   */
  lemma CallbackWithCode(q: CallbackQuery, exchange: string -> TokenExchange)
    requires Truthy(q.code)
    ensures var x := exchange(q.code.value);
      x.Granted? ==> AuthCallback(q, exchange) == Some(TextResponse("text/plain", GrantedText(AccessLevel(x.scope), x.displayName, x.login)))
    ensures var x := exchange(q.code.value);
      x.Refused? ==> AuthCallback(q, exchange) == Some(TextResponse("text/plain", x.responseText))
    ensures exchange(q.code.value).Failed? ==> AuthCallback(q, exchange) == None
  {
  }
}
