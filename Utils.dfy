/** The webhook signature gate and the lookups that pull repository, pull
    request and installation data out of a webhook payload. */
module Utils {
  import opened Wrappers
  import opened Json
  import opened Config

  type Bytes = seq<bv8>

  /** Lower-case hexadecimal of HMAC-SHA256 (RFC 2104 over FIPS 180-4 SHA-256)
      keyed with the UTF-8 encoding of the secret, over the raw body. The
      model takes it as a parameter and assumes nothing about it. */
  type HexHmac = (string, Bytes) -> string

  const SignatureHeader: string := "X-Hub-Signature-256"

  /** The one header value a delivery signed with `secret` carries. */
  function ExpectedSignature(secret: string, body: Bytes, hexHmac: HexHmac): string {
    "sha256=" + hexHmac(secret, body)
  }

  /** An explicit secret argument wins; only `None` falls back to the configuration. */
  function ResolveSecret(secretArg: Option<string>, configured: Option<string>): Option<string> {
    if secretArg.None? then configured else secretArg
  }

  /** `is_github_signature_valid`: accept when no secret is in force, reject a
      missing or empty signature header, otherwise compare the header with the
      expected signature (a constant-time comparison in the source). */
  function IsGithubSignatureValid(
    headers: map<string, string>, body: Bytes,
    secretArg: Option<string>, configured: Option<string>, hexHmac: HexHmac): (valid: bool)
    ensures !NonEmpty(ResolveSecret(secretArg, configured)) ==> valid
    ensures secretArg == Some("") ==> valid
    ensures NonEmpty(ResolveSecret(secretArg, configured)) && SignatureHeader !in headers ==> !valid
    ensures NonEmpty(ResolveSecret(secretArg, configured)) ==>
              (SignatureHeader in headers && headers[SignatureHeader] == "" ==> !valid)
    ensures NonEmpty(ResolveSecret(secretArg, configured)) ==>
              (valid <==> SignatureHeader in headers
                          && headers[SignatureHeader]
                             == ExpectedSignature(ResolveSecret(secretArg, configured).value, body, hexHmac))
  {
    var secret := ResolveSecret(secretArg, configured);
    if !NonEmpty(secret) then
      true
    else if SignatureHeader !in headers || headers[SignatureHeader] == "" then
      false
    else
      headers[SignatureHeader] == ExpectedSignature(secret.value, body, hexHmac)
  }

  /** With a secret in force, the signature header value that is accepted is
      unique: any other value, however close, is rejected. */
  lemma OnlyExpectedSignatureAccepted(
    headers: map<string, string>, other: map<string, string>, body: Bytes,
    secretArg: Option<string>, configured: Option<string>, hexHmac: HexHmac)
    requires NonEmpty(ResolveSecret(secretArg, configured))
    requires IsGithubSignatureValid(headers, body, secretArg, configured, hexHmac)
    requires SignatureHeader in other && other[SignatureHeader] != headers[SignatureHeader]
    ensures !IsGithubSignatureValid(other, body, secretArg, configured, hexHmac)
  {
  }

  // ---------------------------------------------------------------------
  // Payload extraction. An empty payload or a missing top-level key gives
  // `None`; a missing or mistyped nested field raises, as in the source.

  datatype RepoInfo = RepoInfo(owner: Json, name: Json)

  datatype PrInfo = PrInfo(
    number: Json, title: Json, body: Json, user: Json,
    headSha: Json, baseBranch: Json, headBranch: Json, htmlUrl: Json)

  /** `x[k1][k2]...` on a JSON value, raising at the first failing step. */
  function Lookup(j: Json, path: seq<string>): Result<Json, PyError>
    decreases |path|
  {
    if path == [] then Success(j)
    else
      var next :- Index(j, path[0]);
      Lookup(next, path[1..])
  }

  function ExtractRepoInfo(payload: Payload): (r: Result<Option<RepoInfo>, PyError>)
    ensures r == Success(None) <==> payload == map[] || "repository" !in payload
    ensures r.Success? && r.value.Some? ==>
              && Lookup(payload["repository"], ["owner", "login"]) == Success(r.value.value.owner)
              && Lookup(payload["repository"], ["name"]) == Success(r.value.value.name)
    ensures r.Failure? ==>
              || Lookup(payload["repository"], ["owner", "login"]).Failure?
              || Lookup(payload["repository"], ["name"]).Failure?
  {
    if payload == map[] || "repository" !in payload then Success(None)
    else
      var repo := payload["repository"];
      var ownerObject :- Index(repo, "owner");
      var owner :- Index(ownerObject, "login");
      var name :- Index(repo, "name");
      Success(Some(RepoInfo(owner, name)))
  }

  /** The fields of `extract_pr_info`, in the order the source reads them;
      a falsy body becomes `""`. */
  function ExtractPrInfo(payload: Payload): (r: Result<Option<PrInfo>, PyError>)
    ensures r == Success(None) <==> payload == map[] || "pull_request" !in payload
    ensures r.Success? && r.value.Some? ==>
              var pr, info := payload["pull_request"], r.value.value;
              && Lookup(pr, ["number"]) == Success(info.number)
              && Lookup(pr, ["title"]) == Success(info.title)
              && Lookup(pr, ["body"]).Success?
              && info.body == (if Truthy(Lookup(pr, ["body"]).value) then Lookup(pr, ["body"]).value else Str(""))
              && Lookup(pr, ["user", "login"]) == Success(info.user)
              && Lookup(pr, ["head", "sha"]) == Success(info.headSha)
              && Lookup(pr, ["base", "ref"]) == Success(info.baseBranch)
              && Lookup(pr, ["head", "ref"]) == Success(info.headBranch)
              && Lookup(pr, ["html_url"]) == Success(info.htmlUrl)
    ensures r.Failure? ==>
              var pr := payload["pull_request"];
              || Lookup(pr, ["number"]).Failure?
              || Lookup(pr, ["title"]).Failure?
              || Lookup(pr, ["body"]).Failure?
              || Lookup(pr, ["user", "login"]).Failure?
              || Lookup(pr, ["head", "sha"]).Failure?
              || Lookup(pr, ["base", "ref"]).Failure?
              || Lookup(pr, ["head", "ref"]).Failure?
              || Lookup(pr, ["html_url"]).Failure?
  {
    if payload == map[] || "pull_request" !in payload then Success(None)
    else
      var pr := payload["pull_request"];
      var number :- Index(pr, "number");
      var title :- Index(pr, "title");
      var body :- Index(pr, "body");
      var userObject :- Index(pr, "user");
      var user :- Index(userObject, "login");
      var head :- Index(pr, "head");
      var headSha :- Index(head, "sha");
      var base :- Index(pr, "base");
      var baseBranch :- Index(base, "ref");
      var headBranch :- Index(head, "ref");
      var htmlUrl :- Index(pr, "html_url");
      Success(Some(PrInfo(number, title, if Truthy(body) then body else Str(""),
                          user, headSha, baseBranch, headBranch, htmlUrl)))
  }

  function ExtractInstallationId(payload: Payload): (r: Result<Option<Json>, PyError>)
    ensures r == Success(None) <==> payload == map[] || "installation" !in payload
    ensures r.Success? && r.value.Some? ==> Lookup(payload["installation"], ["id"]) == Success(r.value.value)
    ensures r.Failure? ==> Lookup(payload["installation"], ["id"]).Failure?
  {
    if payload == map[] || "installation" !in payload then Success(None)
    else
      var id :- Index(payload["installation"], "id");
      Success(Some(id))
  }

  // ---------------------------------------------------------------------
  // Round trips: a payload built from the values gives the values back.

  function RepositoryPayload(info: RepoInfo): Payload {
    map["repository" := Object(map["owner" := Object(map["login" := info.owner]), "name" := info.name])]
  }

  function PullRequestPayload(info: PrInfo): Payload {
    map["pull_request" := Object(map[
      "number" := info.number, "title" := info.title, "body" := info.body,
      "user" := Object(map["login" := info.user]),
      "head" := Object(map["sha" := info.headSha, "ref" := info.headBranch]),
      "base" := Object(map["ref" := info.baseBranch]),
      "html_url" := info.htmlUrl])]
  }

  lemma ExtractRepoInfoRoundTrip(info: RepoInfo, rest: Payload)
    requires "repository" !in rest
    ensures ExtractRepoInfo(rest + RepositoryPayload(info)) == Success(Some(info))
  {
    var payload := rest + RepositoryPayload(info);
    assert "repository" in payload;
  }

  /** Every field comes back; a falsy body comes back as `""`. */
  lemma ExtractPrInfoRoundTrip(info: PrInfo, rest: Payload)
    requires "pull_request" !in rest
    ensures ExtractPrInfo(rest + PullRequestPayload(info))
         == Success(Some(info.(body := if Truthy(info.body) then info.body else Str(""))))
  {
    var payload := rest + PullRequestPayload(info);
    assert payload["pull_request"] == PullRequestPayload(info)["pull_request"];
    PullRequestObjectFields(info);
  }

  lemma PullRequestObjectFields(info: PrInfo)
    ensures var pr := PullRequestPayload(info)["pull_request"];
      && Index(pr, "number") == Success(info.number)
      && Index(pr, "title") == Success(info.title)
      && Index(pr, "body") == Success(info.body)
      && Index(pr, "user") == Success(Object(map["login" := info.user]))
      && Index(pr, "head") == Success(Object(map["sha" := info.headSha, "ref" := info.headBranch]))
      && Index(pr, "base") == Success(Object(map["ref" := info.baseBranch]))
      && Index(pr, "html_url") == Success(info.htmlUrl)
  {
  }
}
