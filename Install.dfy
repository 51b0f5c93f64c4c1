/** GitHub App credentials: the JSON Web Token that identifies the App
    (claims per RFC 7519 sections 4.1.1, 4.1.4 and 4.1.6, signed RS256 per
    RFC 7518 section 3.3), the exchange of that token for an installation
    token, and the client that caches the installation token and attaches it
    to every API request. */
module Install {
  import opened Wrappers
  import opened Text
  import opened Config
  import Endpoints

  // ---------------------------------------------------------------------
  // generate_jwt

  /** The registered claims the App token carries. */
  datatype Claims = Claims(iat: int, exp: int, iss: string)

  /** RS256 signing of a claim set with a PEM private key: `None` when the key
      does not parse or signing fails. A parameter of the model. */
  type Signer = (Claims, string) -> Option<string>

  datatype JwtError = MissingCredentials | SigningFailed

  /** Issued 60 seconds in the past to allow for clock drift, expiring 600
      seconds in the future. */
  function JwtClaims(appId: string, now: int): (c: Claims)
    ensures c.iss == appId
    ensures c.iat < now < c.exp
    ensures now - c.iat == 60 && c.exp - c.iat == 660
  {
    Claims(now - 60, now + 10 * 60, appId)
  }

  /** `str.replace("\\n", "\n")`: every literal backslash-n, scanned left to
      right, becomes a newline. It never lengthens the text, and text holding
      no literal backslash-n comes back unchanged. */
  function UnescapeNewlines(s: string): (r: string)
    ensures |r| <= |s|
    ensures NoLiteralEscape(s) ==> r == s
    decreases |s|
  {
    if |s| < 2 then s
    else if s[0] == '\\' && s[1] == 'n' then "\n" + UnescapeNewlines(s[2..])
    else
      assert NoLiteralEscape(s) ==> NoLiteralEscape(s[1..]) by {
        if NoLiteralEscape(s) {
          forall i | 0 <= i < |s[1..]| - 1
            ensures !(s[1..][i] == '\\' && s[1..][i + 1] == 'n')
          {
            assert s[1..][i] == s[i + 1] && s[1..][i + 1] == s[i + 2];
          }
        }
      }
      assert [s[0]] + s[1..] == s;
      [s[0]] + UnescapeNewlines(s[1..])
  }

  /** The inverse direction: how a multi-line key is flattened into one line. */
  function EscapeNewlines(s: string): string
    decreases |s|
  {
    if s == [] then []
    else if s[0] == '\n' then "\\n" + EscapeNewlines(s[1..])
    else [s[0]] + EscapeNewlines(s[1..])
  }

  /** No backslash is immediately followed by the letter `n`. */
  predicate NoLiteralEscape(s: string) {
    forall i | 0 <= i < |s| - 1 :: !(s[i] == '\\' && s[i + 1] == 'n')
  }

  lemma NoLiteralEscapeIsNotContains(s: string)
    ensures NoLiteralEscape(s) <==> !Contains(s, "\\n")
  {
    if !NoLiteralEscape(s) {
      var i :| 0 <= i < |s| - 1 && s[i] == '\\' && s[i + 1] == 'n';
      assert OccursAt(s, "\\n", i);
    }
    if Contains(s, "\\n") {
      var k :| 0 <= k <= |s| - 2 && OccursAt(s, "\\n", k);
      assert s[k..k + 2][0] == s[k] && s[k..k + 2][1] == s[k + 1];
    }
  }

  /** What the first character of an unescaped string comes from. */
  lemma UnescapeHead(s: string)
    requires |s| > 0
    ensures |UnescapeNewlines(s)| > 0
    ensures UnescapeNewlines(s)[0] == 'n' ==> s[0] == 'n'
  {
  }

  /** After unescaping, no literal backslash-n is left. */
  lemma {:induction false} UnescapeLeavesNoEscape(s: string)
    ensures NoLiteralEscape(UnescapeNewlines(s))
    decreases |s|
  {
    if |s| < 2 {
    } else if s[0] == '\\' && s[1] == 'n' {
      UnescapeLeavesNoEscape(s[2..]);
      var r := UnescapeNewlines(s[2..]);
      assert UnescapeNewlines(s) == "\n" + r;
      assert forall i | 1 <= i < |r| :: ("\n" + r)[i] == r[i - 1] && ("\n" + r)[i + 1] == r[i];
    } else {
      UnescapeLeavesNoEscape(s[1..]);
      UnescapeHead(s[1..]);
      var r := UnescapeNewlines(s[1..]);
      assert UnescapeNewlines(s) == [s[0]] + r;
      assert forall i | 1 <= i < |r| :: ([s[0]] + r)[i] == r[i - 1] && ([s[0]] + r)[i + 1] == r[i];
    }
  }

  /** The replace of `\\n` alone, without the `-----` guard in front of it:
      a key with real newlines and no literal backslash-n survives being
      flattened into one line and restored. */
  lemma {:induction false} UnescapeInvertsEscape(s: string)
    requires NoLiteralEscape(s)
    ensures UnescapeNewlines(EscapeNewlines(s)) == s
    decreases |s|
  {
    if s != [] {
      assert NoLiteralEscape(s[1..]) by {
        forall i | 0 <= i < |s[1..]| - 1 ensures !(s[1..][i] == '\\' && s[1..][i + 1] == 'n') {
          assert s[1..][i] == s[i + 1] && s[1..][i + 1] == s[i + 2];
        }
      }
      UnescapeInvertsEscape(s[1..]);
      var e := EscapeNewlines(s[1..]);
      if s[0] == '\n' {
        assert EscapeNewlines(s) == "\\n" + e;
        assert ("\\n" + e)[2..] == e;
      } else if s[0] == '\\' && |s| > 1 {
        assert s[1] != 'n';
        assert EscapeNewlines(s) == [s[0]] + e;
        assert |e| > 0 && e[0] != 'n';
        assert ([s[0]] + e)[1..] == e;
      } else {
        assert EscapeNewlines(s) == [s[0]] + e;
        assert ([s[0]] + e)[1..] == e;
      }
    }
  }

  /** The private key is unescaped only when it holds a literal backslash-n and
      does not start with `-----`; otherwise it is used as given. */
  function NormalizeKey(key: string): (k: string)
    ensures Contains(key, "\\n") && !StartsWith(key, "-----") ==>
              k == UnescapeNewlines(key) && !Contains(k, "\\n")
    ensures !Contains(key, "\\n") || StartsWith(key, "-----") ==> k == key
  {
    if Contains(key, "\\n") && !StartsWith(key, "-----") then
      UnescapeLeavesNoEscape(key);
      NoLiteralEscapeIsNotContains(UnescapeNewlines(key));
      UnescapeNewlines(key)
    else
      key
  }

  lemma {:induction false} EscapeConcat(a: string, b: string)
    ensures EscapeNewlines(a + b) == EscapeNewlines(a) + EscapeNewlines(b)
    decreases |a|
  {
    if a == [] {
      assert a + b == b;
    } else {
      assert (a + b)[1..] == a[1..] + b;
      EscapeConcat(a[1..], b);
    }
  }

  /** Flattening never shortens a key, and lengthens one that has a newline. */
  lemma {:induction false} EscapeLengthens(s: string)
    ensures |EscapeNewlines(s)| >= |s|
    ensures '\n' in s ==> |EscapeNewlines(s)| > |s|
    decreases |s|
  {
    if s != [] {
      EscapeLengthens(s[1..]);
      assert '\n' in s ==> s[0] == '\n' || '\n' in s[1..];
    }
  }

  /** A multi-line PEM key flattened to one line with literal `\\n` starts
      with `-----`, so the guard skips the replace and the key stays
      flattened: normalisation does not give the original key back. */
  lemma FlattenedPemKeyNotRestored(key: string)
    requires StartsWith(key, "-----") && '\n' in key
    ensures NormalizeKey(EscapeNewlines(key)) == EscapeNewlines(key) != key
  {
    assert key == "-----" + key[5..];
    EscapeConcat("-----", key[5..]);
    assert EscapeNewlines("-----") == "-----";
    StartsWithConcat("-----", EscapeNewlines(key[5..]));
    EscapeLengthens(key);
  }

  /** `generate_jwt` with the clock reading `now` and the signer as parameters:
      missing credentials are rejected before any signing. */
  function GenerateJwt(cfg: Config, now: int, sign: Signer): (r: Result<string, JwtError>)
    ensures r == Failure(MissingCredentials) <==> !NonEmpty(cfg.appId) || !NonEmpty(cfg.privateKey)
    ensures r.Success? ==>
              sign(JwtClaims(cfg.appId.value, now), NormalizeKey(cfg.privateKey.value)) == Some(r.value)
    ensures r == Failure(SigningFailed) ==>
              sign(JwtClaims(cfg.appId.value, now), NormalizeKey(cfg.privateKey.value)) == None
  {
    if !NonEmpty(cfg.appId) || !NonEmpty(cfg.privateKey) then
      Failure(MissingCredentials)
    else
      match sign(JwtClaims(cfg.appId.value, now), NormalizeKey(cfg.privateKey.value))
      case Some(token) => Success(token)
      case None => Failure(SigningFailed)
  }

  // ---------------------------------------------------------------------
  // get_installation_token, up to the request it sends

  const AcceptHeader: string := "application/vnd.github.v3+json"

  datatype HttpRequest = HttpRequest(verb: string, url: string, headers: map<string, string>)

  /** The token exchange is a POST to the installation's access-token URL with
      the App token as bearer; no request exists when the App token cannot be made. */
  function InstallationTokenRequest(cfg: Config, now: int, sign: Signer, installationId: int)
    : (r: Result<HttpRequest, JwtError>)
    ensures r.Failure? <==> GenerateJwt(cfg, now, sign).Failure?
    ensures r.Failure? ==> r.error == GenerateJwt(cfg, now, sign).error
    ensures r.Success? ==>
              && r.value.verb == "POST"
              && r.value.url == Endpoints.AccessTokenUrl(ApiBase(cfg), installationId)
              && r.value.headers.Keys == {"Authorization", "Accept"}
              && r.value.headers["Authorization"] == "Bearer " + GenerateJwt(cfg, now, sign).value
              && r.value.headers["Accept"] == AcceptHeader
  {
    var jwt :- GenerateJwt(cfg, now, sign);
    Success(HttpRequest("POST", Endpoints.AccessTokenUrl(ApiBase(cfg), installationId),
                        map["Authorization" := "Bearer " + jwt, "Accept" := AcceptHeader]))
  }

  // ---------------------------------------------------------------------
  // GitHubClient

  /** The fields of a successful exchange response. */
  datatype TokenData = TokenData(token: string, expiresAt: string)

  /** `ValueError` for a client with neither token nor installation, or the
      exception the exchange raised. */
  datatype AuthError = NoCredentials | ExchangeFailed(reason: string)

  /** `get_installation_token`: App token, POST, status check, JSON body. The
      outcome is an external result the model takes as a parameter. */
  type Exchange = int -> Result<TokenData, string>

  /** Python truthiness of the installation id. */
  predicate HasInstallation(id: Option<int>) {
    id.Some? && id.value != 0
  }

  /** What `ensure_token` returns for a client holding `token` and `installationId`. */
  function TokenOutcome(token: Option<string>, installationId: Option<int>, exchange: Exchange)
    : Result<string, AuthError>
  {
    if !NonEmpty(token) && HasInstallation(installationId) then
      match exchange(installationId.value)
      case Success(data) => Success(data.token)
      case Failure(reason) => Failure(ExchangeFailed(reason))
    else if !NonEmpty(token) then
      Failure(NoCredentials)
    else
      Success(token.value)
  }

  /** The caller's headers with the bearer token and the API media type laid
      over them; every other caller header is kept. */
  function AuthorizedHeaders(headers: map<string, string>, token: string): (h: map<string, string>)
    ensures h.Keys == headers.Keys + {"Authorization", "Accept"}
    ensures h["Authorization"] == "Bearer " + token && h["Accept"] == AcceptHeader
    ensures forall k | k in headers && k != "Authorization" && k != "Accept" :: h[k] == headers[k]
  {
    headers + map["Authorization" := "Bearer " + token, "Accept" := AcceptHeader]
  }

  class GitHubClient {
    var token: Option<string>
    var installationId: Option<int>
    var tokenExpiresAt: Option<string>
    /** The installation ids this client has exchanged a token for, in order:
        the observable trace of the exchange calls. */
    ghost var exchanges: seq<int>

    constructor (token: Option<string>, installationId: Option<int>)
      ensures this.token == token && this.installationId == installationId
      ensures tokenExpiresAt == None && exchanges == []
    {
      this.token := token;
      this.installationId := installationId;
      tokenExpiresAt := None;
      exchanges := [];
    }

    /** The state `ensure_token` leaves, given the state it started from. */
    ghost predicate TokenStateAfter(
      token0: Option<string>, installationId0: Option<int>, expiresAt0: Option<string>,
      exchanges0: seq<int>, exchange: Exchange)
      reads this
    {
      && installationId == installationId0
      && if !NonEmpty(token0) && HasInstallation(installationId0) then
           && exchanges == exchanges0 + [installationId0.value]
           && match exchange(installationId0.value)
              case Success(data) => token == Some(data.token) && tokenExpiresAt == Some(data.expiresAt)
              case Failure(_) => token == token0 && tokenExpiresAt == expiresAt0
         else
           token == token0 && tokenExpiresAt == expiresAt0 && exchanges == exchanges0
    }

    /** A held token is returned as is; without one, a client with an
        installation exchanges exactly once and keeps the result; a client with
        neither raises and changes nothing. The expiry time is never consulted. */
    method EnsureToken(exchange: Exchange) returns (r: Result<string, AuthError>)
      modifies this
      ensures r == TokenOutcome(old(token), old(installationId), exchange)
      ensures TokenStateAfter(old(token), old(installationId), old(tokenExpiresAt), old(exchanges), exchange)
    {
      if !NonEmpty(token) && HasInstallation(installationId) {
        exchanges := exchanges + [installationId.value];
        var data := exchange(installationId.value);
        if data.Failure? {
          return Failure(ExchangeFailed(data.error));
        }
        token := Some(data.value.token);
        tokenExpiresAt := Some(data.value.expiresAt);
      } else if !NonEmpty(token) {
        return Failure(NoCredentials);
      }
      r := Success(token.value);
    }

    /** `request` up to the call it makes: obtain the token, then lay the
        authorization headers over the caller's (none given means `{}`). */
    method Request(verb: string, url: string, headers: Option<map<string, string>>, exchange: Exchange)
      returns (r: Result<HttpRequest, AuthError>)
      modifies this
      ensures TokenOutcome(old(token), old(installationId), exchange).Failure? ==>
                r == Failure(TokenOutcome(old(token), old(installationId), exchange).error)
      ensures TokenOutcome(old(token), old(installationId), exchange).Success? ==>
                r == Success(HttpRequest(verb, url, AuthorizedHeaders(headers.GetOr(map[]),
                                         TokenOutcome(old(token), old(installationId), exchange).value)))
      ensures TokenStateAfter(old(token), old(installationId), old(tokenExpiresAt), old(exchanges), exchange)
    {
      var t := EnsureToken(exchange);
      if t.Failure? {
        return Failure(t.error);
      }
      var merged := headers.GetOr(map[]);
      merged := merged["Authorization" := "Bearer " + t.value];
      merged := merged["Accept" := AcceptHeader];
      assert merged == AuthorizedHeaders(headers.GetOr(map[]), t.value);
      r := Success(HttpRequest(verb, url, merged));
    }
  }

  /** Two `ensure_token` calls in a row: once the first has produced a
      non-empty token, the second returns it without another exchange. */
  method EnsureTokenTwice(client: GitHubClient, exchange: Exchange)
    returns (first: Result<string, AuthError>, second: Result<string, AuthError>)
    modifies client
    ensures first == TokenOutcome(old(client.token), old(client.installationId), exchange)
    ensures first.Success? && first.value != "" ==>
              && second == first
              && client.token == Some(first.value)
              && |client.exchanges| == |old(client.exchanges)| + (if NonEmpty(old(client.token)) then 0 else 1)
  {
    first := client.EnsureToken(exchange);
    ghost var afterFirst := client.exchanges;
    second := client.EnsureToken(exchange);
    assert first.Success? && first.value != "" ==> client.exchanges == afterFirst;
  }
}
