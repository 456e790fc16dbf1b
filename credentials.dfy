/**
 * The kintone connection credentials (models/kintone_credentials.py):
 * domain normalisation, the choice between API-token and password
 * authentication, the base URL, the authentication header, and the
 * connection summary built from them.
 */
module Credentials {
  import opened Wrappers
  import opened Text
  import opened Encoding
  import Json
  import FieldModels
  import RequestModels

  /** The `ValueError`s raised while validating or using credentials. */
  datatype CredentialsError =
    | DomainMissing
    | DomainMalformed
    | TokenWithPassword
    | PasswordMissing
    | UsernameMissing
    | CredentialsMissing
    | NoValidAuth

  /** `v.startswith(('http://', 'https://'))`; the test is case-sensitive. */
  predicate HasScheme(v: string)
  {
    "http://" <= v || "https://" <= v
  }

  /** A character that ends the network location of a URL. */
  predicate EndsHost(c: char)
  {
    c == '/' || c == '?' || c == '#'
  }

  /** The position of the first character that ends the network location, or the length. */
  function HostEnd(s: string): (i: nat)
    ensures i <= |s| && (i < |s| ==> EndsHost(s[i]))
    ensures forall j :: 0 <= j < i ==> !EndsHost(s[j])
  {
    if s == [] || EndsHost(s[0]) then 0 else 1 + HostEnd(s[1..])
  }

  /** `urlparse(v).netloc` for a URL with an `http` or `https` scheme: what follows `//` up to the path, query or fragment. */
  function Netloc(v: string): (r: string)
    requires HasScheme(v)
    ensures forall i :: 0 <= i < |r| ==> !EndsHost(r[i])
  {
    var rest := if "http://" <= v then v[7..] else v[8..];
    rest[..HostEnd(rest)]
  }

  /** The host part `validate_domain` goes on with: the network location when a scheme is given, else the whole value. */
  function Host(v: string): string
  {
    if HasScheme(v) then Netloc(v) else v
  }

  /**
   * `KintoneCredentials.validate_domain`: an empty value is refused; a URL
   * is cut to its network location; what remains must contain a dot, and it
   * is stored in lower case.
   */
  function ValidateDomain(v: string): (r: Result<string, CredentialsError>)
    ensures v == [] ==> r == Err(DomainMissing)
    ensures r.Ok? <==> v != [] && '.' in Host(v)
    ensures r.Ok? ==> r.value == LowerAsciiString(Host(v))
  {
    if v == [] then Err(DomainMissing)
    else
      var host := Host(v);
      if host == [] || '.' !in host then Err(DomainMalformed)
      else Ok(LowerAsciiString(host))
  }

  /** Lower-casing keeps the dots and leaves no upper-case letter; lower-casing again changes nothing. */
  lemma LowerAsciiFacts(s: string)
    ensures '.' in s ==> '.' in LowerAsciiString(s)
    ensures forall i :: 0 <= i < |s| ==> !IsAsciiUpper(LowerAsciiString(s)[i])
    ensures LowerAsciiString(LowerAsciiString(s)) == LowerAsciiString(s)
  {
    if '.' in s {
      var i :| 0 <= i < |s| && s[i] == '.';
      assert LowerAsciiString(s)[i] == '.';
    }
  }

  /** An accepted domain contains a dot and no upper-case ASCII letter; one cut from a URL has no `/`, `?` or `#`. */
  lemma AcceptedDomainShape(v: string)
    requires ValidateDomain(v).Ok?
    ensures var d := ValidateDomain(v).value; '.' in d && forall i :: 0 <= i < |d| ==> !IsAsciiUpper(d[i])
    ensures HasScheme(v) ==> forall i :: 0 <= i < |ValidateDomain(v).value| ==> !EndsHost(ValidateDomain(v).value[i])
  {
    LowerAsciiFacts(Host(v));
  }

  /** A stored domain that does not itself look like a URL is stored again unchanged. */
  lemma DomainSettles(v: string)
    requires ValidateDomain(v).Ok? && !HasScheme(ValidateDomain(v).value)
    ensures ValidateDomain(ValidateDomain(v).value) == ValidateDomain(v)
  {
    LowerAsciiFacts(Host(v));
  }

  /**
   * The scheme test is case-sensitive: a domain given as `HTTP://...` keeps
   * its scheme, lower-cased, so the stored domain is itself a URL.
   */
  lemma UpperCaseSchemeKept(v: string)
    requires "HTTP://" <= v && '.' in v
    ensures ValidateDomain(v).Ok? && "http://" <= ValidateDomain(v).value
  {
    assert !HasScheme(v) by { assert v[0] != "http://"[0]; }
    var d := LowerAsciiString(v);
    assert d[..7] == "http://" by {
      forall i | 0 <= i < 7 ensures d[i] == "http://"[i] {
        assert v[i] == "HTTP://"[i];
      }
    }
  }

  /** An `https` scheme is cut off together with any path, query or fragment after the host. */
  lemma SchemeAndPathCut(host: string, tail: string)
    requires '.' in host && forall i :: 0 <= i < |host| ==> !EndsHost(host[i])
    requires tail == [] || EndsHost(tail[0])
    ensures ValidateDomain("https://" + host + tail) == Ok(LowerAsciiString(host))
  {
    HttpsNetloc(host, tail);
  }

  lemma HttpsNetloc(host: string, tail: string)
    requires forall i :: 0 <= i < |host| ==> !EndsHost(host[i])
    requires tail == [] || EndsHost(tail[0])
    ensures HasScheme("https://" + host + tail) && Host("https://" + host + tail) == host
  {
    var rest := host + tail;
    var v := "https://" + rest;
    assert "https://" + host + tail == v;
    assert !("http://" <= v) by { assert v[4] != "http://"[4]; }
    assert v[8..] == rest;
    HostEndBefore(host, tail);
    assert rest[..|host|] == host;
  }

  lemma {:induction false} HostEndBefore(host: string, tail: string)
    requires forall i :: 0 <= i < |host| ==> !EndsHost(host[i])
    requires tail == [] || EndsHost(tail[0])
    ensures HostEnd(host + tail) == |host|
  {
    if host != [] {
      assert (host + tail)[1..] == host[1..] + tail;
      HostEndBefore(host[1..], tail);
    } else {
      assert host + tail == tail;
    }
  }

  /** The fields of `KintoneCredentials`; `domain` is the validated one. */
  datatype KintoneCredentials = KintoneCredentials(domain: string, username: Option<string>, password: Option<string>, apiToken: Option<string>)

  /** `is_api_token_auth`: a non-empty API token. */
  predicate IsApiTokenAuth(c: KintoneCredentials)
  {
    FieldModels.Given(c.apiToken)
  }

  /** `is_basic_auth`: a non-empty user name and a non-empty password. */
  predicate IsBasicAuth(c: KintoneCredentials)
  {
    FieldModels.Given(c.username) && FieldModels.Given(c.password)
  }

  /**
   * `KintoneCredentials.validate_auth_method`: a token alone, or a user name
   * with a password; every other combination is refused with its own error.
   */
  function ValidateAuthMethod(c: KintoneCredentials): (r: Result<KintoneCredentials, CredentialsError>)
    ensures r.Ok? <==> (IsApiTokenAuth(c) && !FieldModels.Given(c.username) && !FieldModels.Given(c.password)) || (!IsApiTokenAuth(c) && IsBasicAuth(c))
    ensures r.Ok? ==> r.value == c
    ensures r == Err(TokenWithPassword) <==> IsApiTokenAuth(c) && (FieldModels.Given(c.username) || FieldModels.Given(c.password))
    ensures r == Err(PasswordMissing) <==> !IsApiTokenAuth(c) && FieldModels.Given(c.username) && !FieldModels.Given(c.password)
    ensures r == Err(UsernameMissing) <==> !IsApiTokenAuth(c) && !FieldModels.Given(c.username) && FieldModels.Given(c.password)
    ensures r == Err(CredentialsMissing) <==> !IsApiTokenAuth(c) && !FieldModels.Given(c.username) && !FieldModels.Given(c.password)
  {
    var user := FieldModels.Given(c.username);
    var pass := FieldModels.Given(c.password);
    if FieldModels.Given(c.apiToken) then
      if user || pass then Err(TokenWithPassword) else Ok(c)
    else if user && pass then Ok(c)
    else if user && !pass then Err(PasswordMissing)
    else if pass && !user then Err(UsernameMissing)
    else Err(CredentialsMissing)
  }

  /** Accepted credentials use exactly one authentication method. */
  lemma ExactlyOneAuthMethod(c: KintoneCredentials)
    requires ValidateAuthMethod(c).Ok?
    ensures IsApiTokenAuth(c) != IsBasicAuth(c)
  {
  }

  /**
   * The request models check credentials more loosely: whatever the
   * credentials model accepts, they accept, and they also accept a token
   * sent together with a password.
   */
  lemma RequestAuthLooser(c: KintoneCredentials)
    ensures ValidateAuthMethod(c).Ok? ==> RequestModels.ValidateAuth(c.apiToken, c.username, c.password).Ok?
    ensures IsApiTokenAuth(c) && IsBasicAuth(c) ==> ValidateAuthMethod(c) == Err(TokenWithPassword) && RequestModels.ValidateAuth(c.apiToken, c.username, c.password).Ok?
  {
  }

  /** `base_url`: the domain behind the `https` scheme. */
  function BaseUrl(c: KintoneCredentials): (r: string)
    ensures "https://" <= r && r[8..] == c.domain
  {
    "https://" + c.domain
  }

  /** Validating the base URL of a validated domain gives the domain back. */
  lemma BaseUrlRoundTrip(v: string, c: KintoneCredentials)
    requires ValidateDomain(v) == Ok(c.domain)
    requires forall i :: 0 <= i < |c.domain| ==> !EndsHost(c.domain[i])
    ensures ValidateDomain(BaseUrl(c)) == Ok(c.domain)
  {
    var u := BaseUrl(c);
    assert !("http://" <= u) by { assert u[4] != "http://"[4]; }
    assert u[8..] == c.domain;
    HostEndBefore(c.domain, []);
    assert c.domain + [] == c.domain;
    assert Host(u) == c.domain;
    LowerAsciiFacts(Host(v));
  }

  /** The credentials of a basic-authentication header: base 64 of the UTF-8 bytes of `user:password` (section 2 of RFC 7617). */
  function BasicToken(user: string, password: string): string
  {
    EncodeBase64(EncodeUtf8(user + ":" + password))
  }

  /**
   * `get_auth_headers`: the API-token header when a token is given, else
   * the basic-authentication header when a user name and password are.
   */
  function GetAuthHeaders(c: KintoneCredentials): (r: Result<Json.Members, CredentialsError>)
    ensures r.Ok? <==> IsApiTokenAuth(c) || IsBasicAuth(c)
    ensures IsApiTokenAuth(c) ==> r == Ok([("X-Cybozu-API-Token", Json.JStr(c.apiToken.value))])
    ensures !IsApiTokenAuth(c) && IsBasicAuth(c) ==>
      r == Ok([("Authorization", Json.JStr("Basic " + BasicToken(c.username.value, c.password.value)))])
  {
    if IsApiTokenAuth(c) then Ok([("X-Cybozu-API-Token", Json.JStr(c.apiToken.value))])
    else if IsBasicAuth(c) then
      Ok([("Authorization", Json.JStr("Basic " + BasicToken(c.username.value, c.password.value)))])
    else Err(NoValidAuth)
  }

  /** Accepted credentials always produce a header. */
  lemma AcceptedCredentialsHaveHeader(c: KintoneCredentials)
    requires ValidateAuthMethod(c).Ok?
    ensures GetAuthHeaders(c).Ok? && |GetAuthHeaders(c).value| == 1
  {
  }

  /** A user id and password read back from `user:password` at its first colon. */
  function SplitAtColon(s: string): (string, string)
  {
    var k := FindChar(s, ':');
    (s[..k], if k < |s| then s[k + 1..] else [])
  }

  /**
   * The receiver of a basic-authentication header recovers the user name
   * and password: decoding the token gives `user:password` back, and since
   * a user id contains no colon (section 2 of RFC 7617) the first colon
   * separates the two.
   */
  lemma BasicTokenRoundTrip(user: string, password: string)
    requires ':' !in user
    ensures DecodeBase64(BasicToken(user, password)) == Some(EncodeUtf8(user + ":" + password))
    ensures DecodeUtf8(EncodeUtf8(user + ":" + password)) == Some(user + ":" + password)
    ensures SplitAtColon(user + ":" + password) == (user, password)
  {
    var s := user + ":" + password;
    Base64RoundTrip(EncodeUtf8(s));
    Utf8RoundTrip(s);
    FindFirstColon(user, password);
    assert s[..|user|] == user && s[|user| + 1..] == password;
  }

  lemma FindFirstColon(user: string, password: string)
    requires ':' !in user
    ensures FindChar(user + ":" + password, ':') == |user|
  {
    var s := user + ":" + password;
    var k := FindChar(s, ':');
    assert s[|user|] == ':';
    assert forall j :: 0 <= j < |user| ==> s[j] == user[j];
  }

  /** The fields of `KintoneConnectionInfo`. */
  datatype ConnectionInfo = ConnectionInfo(domain: string, authMethod: string, baseUrl: string, isConnected: bool)

  /** `KintoneConnectionInfo.from_credentials`. */
  function FromCredentials(c: KintoneCredentials, isConnected: bool): (r: ConnectionInfo)
    ensures r.authMethod == "api_token" <==> IsApiTokenAuth(c)
    ensures r.authMethod in {"api_token", "basic_auth"}
    ensures r.domain == c.domain && r.baseUrl == BaseUrl(c) && r.isConnected == isConnected
  {
    ConnectionInfo(c.domain, if IsApiTokenAuth(c) then "api_token" else "basic_auth", BaseUrl(c), isConnected)
  }

  /** For accepted credentials the summary names the method the header uses. */
  lemma ConnectionMethodMatchesHeader(c: KintoneCredentials, isConnected: bool)
    requires ValidateAuthMethod(c).Ok?
    ensures FromCredentials(c, isConnected).authMethod == "basic_auth" <==> IsBasicAuth(c)
    ensures FromCredentials(c, isConnected).authMethod == "basic_auth" <==> GetAuthHeaders(c).value[0].0 == "Authorization"
  {
  }
}
