/** The authorizer: the URL the browser is sent to for the user's consent
    (`get_auth_url`) and the exchange of the returned code for an access
    token (`get_access_token`). */
module Authorizer {
  import opened Common

  const AuthorizeEndpoint: string := "https://accounts.spotify.com/authorize"

  /** The five permissions asked for, space separated as the code writes them. */
  const Scopes: string := "user-read-private user-read-email playlist-read-private playlist-modify-private user-follow-read"

  /** The fixed callback address registered with the service. */
  const RedirectUri: string := "http://127.0.0.1:5000/generate-playlist"

  /** Status of a successful token exchange. */
  const Ok: int := 200

  /** Everything of the authorization URL before the client id. */
  const UrlHead: string := AuthorizeEndpoint + "?response_type=code" + "&client_id="

  /** Everything of the authorization URL after the client id. */
  const UrlTail: string := "&scope=" + Scopes + "&redirect_uri=" + RedirectUri

  /** `get_auth_url`: the authorize endpoint with the response type, the
      configured client id (an unset variable prints as "None"), the scopes
      and the redirect URI, in that order. */
  function GetAuthUrl(clientId: Option<string>): (url: string)
    ensures |url| == |UrlHead| + |Format(clientId)| + |UrlTail|
  {
    AuthorizeEndpoint + "?response_type=code" + "&client_id=" + Format(clientId)
      + "&scope=" + Scopes + "&redirect_uri=" + RedirectUri
  }

  /** Reads the client id back out of an authorization URL: the text between
      the fixed head and the fixed tail, if the URL has both. */
  function ClientIdOf(url: string): (id: Option<string>)
    ensures id.Some? ==> |id.value| + |UrlHead| + |UrlTail| == |url|
  {
    if |url| >= |UrlHead| + |UrlTail| && url[..|UrlHead|] == UrlHead && url[|url| - |UrlTail|..] == UrlTail
    then Some(url[|UrlHead|..|url| - |UrlTail|])
    else None
  }

  /** The URL starts at the authorize endpoint, ends with the redirect URI,
      and carries exactly the configured client id between its fixed parts,
      so different client ids give different URLs. */
  lemma AuthUrlRoundTrip(clientId: Option<string>)
    ensures GetAuthUrl(clientId)[..|AuthorizeEndpoint|] == AuthorizeEndpoint
    ensures ClientIdOf(GetAuthUrl(clientId)) == Some(Format(clientId))
  {
    var url := GetAuthUrl(clientId);
    assert url == UrlHead + Format(clientId) + UrlTail;
    assert url[..|UrlHead|] == UrlHead;
    assert url[|url| - |UrlTail|..] == UrlTail;
    assert url[|UrlHead|..|url| - |UrlTail|] == Format(clientId);
    assert UrlHead[..|AuthorizeEndpoint|] == AuthorizeEndpoint;
  }

  /** The token endpoint's reply: status and the `access_token` of its body. */
  datatype TokenResponse = TokenResponse(status: int, accessToken: string)

  /** `get_access_token`: the token of a 200 reply, `None` for any other status. */
  function GetAccessToken(response: TokenResponse): (token: Option<string>)
    ensures token.Some? <==> response.status == Ok
    ensures token.Some? ==> token.value == response.accessToken
  {
    if response.status == Ok then Some(response.accessToken) else None
  }
}
