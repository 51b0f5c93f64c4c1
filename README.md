# GitHub pull-request bot, modelled in Dafny

The bot is a GitHub App behind one webhook endpoint. For each delivery it
checks the `X-Hub-Signature-256` HMAC, matches the event and the
pull-request action against its configuration, and queues up to two
background jobs: a review job and a description job.

- The review job computes file statistics and posts a Markdown comment.
- The description job rewrites a pull-request description so that it has
  Summary, Changes and Testing sections.

The App authenticates with a JSON Web Token. It exchanges that token for an
installation token and builds its REST URLs from a configurable API base.

## Modules

| module | what it models |
|---|---|
| `Wrappers` | `Option` and `Result`. |
| `Text` | String helpers taken from `str`: substring tests, `str(int)` rendering, ASCII case folding, and the `\s` class. |
| `Json` | A decoded JSON value. It carries Python truthiness, and `value[key]` raising `KeyError` or `TypeError`. |
| `Config` | The configuration record, with one field per key and the set of keys the configuration leaves out. |
| `Endpoints` | Every URL builder. The API base is a parameter. |
| `Utils` | The signature gate and the three payload extractors. |
| `Install` | Token claims, private-key normalisation, and the request that exchanges the App token for an installation token. The `GitHubClient` class caches the installation token and lays the auth headers over each request. |
| `PullRequest` | The file analysis, the comment it renders, and the description check and formatter. |
| `Webhook` | The dispatch decision of the webhook handler, and the `BackgroundTasks` queue it appends to. |

## Modelling choices

- **Opaque primitives become parameters.** The model does not compute these;
  each is a function-typed parameter:
  - HMAC-SHA256 (`Utils.HexHmac`);
  - RS256 signing (`Install.Signer`);
  - the token-exchange POST (`Install.Exchange`).
- **The clock becomes a parameter.** The clock reading is the parameter `now`.
- **Python exceptions become `Result` values.** A missing key or a
  non-object value in a payload lookup raises in the source. Here it gives a
  `Failure` carrying `KeyError` or `TypeError`, propagated the way the source
  propagates it.
- **The file-type dictionary keeps its order.** `file_types` is a sequence of
  (extension, count) pairs. This keeps the insertion order the comment lists
  them in.
- **A bad signature returns 401 by value.** Where the signature is invalid,
  the handler *returns* the 401 `HTTPException` object rather than raising
  it. The model keeps that as a response value, `ReturnedHttpException`.
  - Returning the object means the framework serialises it with status 200.
    An intended HTTP 401 rejection would need the exception raised.
  - The model follows the code.
- **The cached token is never refreshed.** `ensure_token` never reads the
  stored expiry time. A held token is returned even after it has expired,
  and the model follows the code.
- **A flattened PEM key is never unescaped.** The key is unescaped only when
  it does not start with `-----`. A PEM key always starts with `-----BEGIN`,
  so a PEM key flattened to one line with literal `\n` reaches the signer
  still flattened. The model follows the code, and
  `Install.FlattenedPemKeyNotRestored` proves the key is not restored.
- **Formatting check and formatter disagree.**
  - `needs_description_formatting` looks for the exact headings
    `## Summary`, `## Changes` and `## Testing`.
  - The formatter searches `##\s*Name` ignoring case.
  - So a description with lower-case headings is sent for formatting, and
    the formatter returns it unchanged. `PullRequest.CheckAndFormatDisagree`
    proves this.

## Model

| member | source | states |
|---|---|---|
| Endpoints.AccessTokenUrl | helpers/endpoints.py:9-11 | The token-exchange URL starts with `<base>/app/installations/` and ends with `/access_tokens`. Exactly the decimal id lies in between. |
| Endpoints.RepoUrl | helpers/endpoints.py:14-16 | The repository URL starts with `<base>/repos/` and ends with `/<repo>`. Exactly the owner lies in between. |
| Endpoints.PullsUrl | helpers/endpoints.py:19-21 | The repository URL followed by exactly `/pulls`. |
| Endpoints.PullUrl | helpers/endpoints.py:23-25 | The pulls URL and a slash, then exactly the decimal pull-request number. |
| Endpoints.PullFilesUrl | helpers/endpoints.py:27-29 | The pull-request URL followed by exactly `/files`. |
| Endpoints.PullCommentsUrl | helpers/endpoints.py:31-34 | Starts with the repository URL and `/issues/`, and ends with `/comments`. Exactly the decimal number lies in between. |
| Endpoints.PullReviewsUrl | helpers/endpoints.py:36-38 | The pull-request URL followed by exactly `/reviews`. |
| Endpoints.CommitsUrl | helpers/endpoints.py:41-43 | The repository URL followed by exactly `/commits`. |
| Endpoints.CommitUrl | helpers/endpoints.py:45-47 | The commits URL and a slash, then exactly the sha. |
| Endpoints.StatusUrl | helpers/endpoints.py:49-51 | The repository URL and `/statuses/`, then exactly the sha. |
| Endpoints.ContentsUrl | helpers/endpoints.py:54-59 | Starts with the repository URL and `/contents`. An empty path adds nothing more; any other path follows as `/<path>`. |
| Endpoints.AccessTokenUrlInjective | helpers/endpoints.py:9-11 | Equal token-exchange URLs mean equal installation ids. |
| Endpoints.RepoScopedUrlsExtendRepoUrl | helpers/endpoints.py:14-59 | Every repository-scoped URL starts with the repository URL: pulls, pull, files, comments, reviews, commits, commit, status, contents. |
| Endpoints.RepoScopedUrlsDecompose | helpers/endpoints.py:19-59 | Gives each URL's exact suffix over the repository URL. Comments go through `/issues/`, never under the pulls URL. An empty contents path adds no segment. |
| Endpoints.PullUrlInjective | helpers/endpoints.py:23-25 | A pull-request URL determines the pull-request number. |
| Utils.IsGithubSignatureValid | helpers/utils.py:8-42 | Accepts when no non-empty secret is in force, and an explicit empty secret also accepts. Otherwise a missing or empty header rejects. Otherwise it accepts iff the header equals `sha256=` + HMAC of the body under the resolved secret. |
| Utils.OnlyExpectedSignatureAccepted | helpers/utils.py:34-42 | With a secret in force, any other header value than an accepted one is rejected. |
| Utils.ExtractRepoInfo | helpers/utils.py:44-61 | `None` iff the payload is empty or has no `repository`. On success the values are those at `repository.owner.login` and `repository.name`. A failure means one of those lookups fails. |
| Utils.ExtractPrInfo | helpers/utils.py:63-86 | `None` iff the payload is empty or has no `pull_request`. On success each field is the value at its path. A falsy body becomes `""`. A failure means one of the eight lookups fails. |
| Utils.ExtractInstallationId | helpers/utils.py:88-101 | `None` iff the payload is empty or has no `installation`. Otherwise it gives the `installation.id` lookup, or fails exactly when that lookup fails. |
| Utils.ExtractRepoInfoRoundTrip | helpers/utils.py:54-61 | A payload built from an owner and a name gives them back. |
| Utils.ExtractPrInfoRoundTrip | helpers/utils.py:73-86 | A payload built from pull-request fields gives every field back. A falsy body comes back as `""`. |
| Install.JwtClaims | helpers/install.py:28-34 | The issuer is the App id, and the token is issued 60 s before `now`. It expires 600 s after `now`, so `now` lies strictly inside the validity window. |
| Install.UnescapeNewlines | helpers/install.py:26 | `replace("\\n", "\n")` never lengthens the key, and a key with no literal backslash-n comes back unchanged. |
| Install.UnescapeLeavesNoEscape | helpers/install.py:25-26 | After `replace("\\n", "\n")` no literal backslash-n is left. |
| Install.UnescapeInvertsEscape | helpers/install.py:26 | The replace on its own, without the guard before it: a multi-line key flattened to one line with literal `\n` is restored exactly, provided it had no literal backslash-n. |
| Install.FlattenedPemKeyNotRestored | helpers/install.py:25-26 | A multi-line key starting with `-----`, as every PEM key does, flattened to one line is left flattened by normalisation, so it differs from the original key. |
| Install.NormalizeKey | helpers/install.py:24-26 | A key is unescaped iff it holds a literal backslash-n and does not start with `-----`. The result then holds no literal backslash-n. Otherwise the key is unchanged. |
| Install.GenerateJwt | helpers/install.py:10-42 | Fails with missing credentials iff the App id or the key is empty or absent. Otherwise the result is the signer's output on the claims and the normalised key, and signing failure becomes `SigningFailed`. |
| Install.InstallationTokenRequest | helpers/install.py:44-64 | Fails iff the App token cannot be made. Otherwise it is a POST to the access-token URL with exactly the bearer and Accept headers. |
| Install.AuthorizedHeaders | helpers/install.py:131-136 | The caller's headers with `Authorization: Bearer <token>` and the API media type laid over them. Every other caller header is kept. |
| Install.GitHubClient.constructor | helpers/install.py:87-97 | Stores the token and the installation id. No expiry time is held. |
| Install.GitHubClient.EnsureToken | helpers/install.py:99-114 | A held non-empty token is returned unchanged with no exchange. Without one, a client with an installation exchanges exactly once, caching the token and expiry when the exchange succeeds. A client with neither fails with `NoCredentials` and changes nothing. |
| Install.GitHubClient.Request | helpers/install.py:116-140 | Obtains the token as `EnsureToken` does, then sends the caller's headers with the auth headers merged over them. A token failure is passed on. |
| Install.EnsureTokenTwice | helpers/install.py:99-114 | A second `ensure_token` after one that produced a token returns the same token, with no further exchange. |
| PullRequest.Extension | helpers/pr.py:139 | `no_extension` when the name has no dot. Otherwise it is the dot-free text the name ends with after its last dot. |
| PullRequest.BumpCount | helpers/pr.py:140 | Updating the dictionary adds one to that extension's count and leaves every other count alone. |
| PullRequest.BumpKeys | helpers/pr.py:140 | A known extension keeps the key order, and a new one is appended last. |
| PullRequest.TallyCounts | helpers/pr.py:137-140 | Each extension's count is the number of files with that extension: the multiset count. |
| PullRequest.TallyTotal | helpers/pr.py:137-140 | The counts add up to the number of files. |
| PullRequest.TallyKeysMembers | helpers/pr.py:137-140 | The dictionary has a key for exactly the extensions that occur. |
| PullRequest.TallyKeysDistinct | helpers/pr.py:137-140 | No extension appears twice among the keys. |
| PullRequest.TallyKeysOrdered | helpers/pr.py:137-140 | The keys are in the order of the extensions' first occurrences. |
| PullRequest.AnalyzePrContent | helpers/pr.py:117-162 | The file count is the number of records, and the histogram is the tally of the extensions. Additions, deletions and changes are the exact sums. The large flag holds iff total changes exceed 500. The test flag holds iff some lower-cased name contains `test`. |
| PullRequest.FileTypesDescribeFiles | helpers/pr.py:137-140 | The histogram's counts sum to the file count, and its keys are distinct. Each count is the multiset count, and its keys are exactly the extensions that occur. |
| PullRequest.CreatePrComment | helpers/pr.py:164-195 | Builds the comment: header, statistics, one line per histogram entry in order, the suggestions heading, then the warnings. |
| PullRequest.CommentOpensWithHeader | helpers/pr.py:174 | The comment starts with `## PR Analysis Results` and a blank line. |
| PullRequest.CommentListsFileTypes | helpers/pr.py:182-184 | Every histogram entry has its `- ext: count` line in the comment. Each line sits at a strictly later offset than the one before. |
| PullRequest.CommentSuggestions | helpers/pr.py:187-193 | The body ends with the suggestions heading. The large-PR warning follows it iff the PR is large. The comment ends with the no-tests warning iff there are no test files and more than one file. |
| PullRequest.FormatPrDescription | helpers/pr.py:214-254 | Reassigns the description step by step to exactly the formatted description. |
| PullRequest.TemplateHasAllSections | helpers/pr.py:225-235 | The empty-description template has all three sections. |
| PullRequest.HeadingIsSection | helpers/pr.py:238-240 | A heading spelled in any ASCII case is found by the case-insensitive search. |
| PullRequest.ExactHeadingIsSection | helpers/pr.py:238-240 | A heading spelled exactly, `## Name`, is found by the case-insensitive search. |
| PullRequest.HeadingsInBlocks | helpers/pr.py:245-252 | Each block the formatter adds carries its own section. |
| PullRequest.FormattedDescriptionKeepsText | helpers/pr.py:242-254 | A non-empty description is kept whole, shifted only by a Summary block when one is added. The result is exactly as long as the description plus the blocks for the sections not found. |
| PullRequest.FormattedDescriptionAddsSummary | helpers/pr.py:245-246 | Without a Summary section, the Summary block opens the result. |
| PullRequest.FormattedDescriptionAddsChanges | helpers/pr.py:248-249 | Without a Changes section, the Changes block directly follows the original text. |
| PullRequest.FormattedDescriptionAddsTesting | helpers/pr.py:251-252 | Without a Testing section, the Testing block ends the result. |
| PullRequest.FormattedHasAllSections | helpers/pr.py:214-254 | Every formatted description is non-empty and has all three sections. |
| PullRequest.FormatIdempotent | helpers/pr.py:214-254 | Formatting twice equals formatting once. The empty description becomes the template, and a description with all three sections is unchanged. |
| PullRequest.NeedsDescriptionFormatting | helpers/pr.py:197-212 | Formatting is needed iff the description is empty or lacks one of the exact, case-sensitive substrings `## Summary`, `## Changes`, `## Testing`. When the exact-heading check says none is needed, the formatter's search finds all three sections and the formatter returns the description unchanged. |
| PullRequest.LowerCaseHeadingsNeedFormatting | helpers/pr.py:207-212 | Lower-case headings fail the exact-case check. |
| PullRequest.LowerCaseHeadingsAreSections | helpers/pr.py:238-240 | Lower-case headings pass the case-insensitive search. |
| PullRequest.CheckAndFormatDisagree | helpers/pr.py:197-254 | A description can be flagged for formatting and still come back unchanged from the formatter. |
| Webhook.Dispatch | main.py:19-58 | At most two tasks, each carrying the delivery's payload. The 401 queues nothing. A raise after a queued job happens only on a missing `edit_pr_desc` key, with just the review job queued. |
| Webhook.BackgroundTasks.AddTask | main.py:47 | Appends the job to the end of the queue. |
| Webhook.HandleWebhook | main.py:19-58 | The response and the jobs appended to the queue are exactly those of `Dispatch`. |
| Webhook.RejectsExactlyBadSignatures | main.py:33-37 | The 401 comes back iff the gate's configuration keys are present, checking is on and the signature is invalid. It then has detail `Invalid signature` and queues nothing. |
| Webhook.MissingSecretRaises | main.py:33-34 | With checking on and no `webhook_secret` key, `config["webhook_secret"]` raises `KeyError` and nothing is queued. |
| Webhook.SignatureIgnoredWhenCheckOff | main.py:33-35 | With checking off, the outcome depends on neither the body nor the HMAC, and there is never a 401. |
| Webhook.OtherEventsQueueNothing | main.py:40-58 | An accepted delivery that is not a `pull_request` event is acknowledged and queues nothing, whether or not the feature keys are present. |
| Webhook.TaskIffConditions | main.py:44-52 | The review job is queued iff the gate passes, the event is `pull_request`, the `auto_pr_review` key is present and true, the action is opened, synchronize or reopened, and the number lookup succeeds. The description job is queued likewise for opened or edited, and needs both feature keys present. |
| Webhook.TasksInOrder | main.py:44-52 | For an accepted pull-request delivery with a number, under a configuration holding every key the handler reads, the queue gets the review job then the description job, each only when wanted. |
| Webhook.OpenedQueuesBoth | main.py:45-52 | With every key present and both features on, `opened` queues both jobs, review first. |
| Webhook.MissingActionQueuesNothing | main.py:41 | A missing action reads as `""` and queues nothing. The handler can then raise only `KeyError` on a configuration key it reads. |
| Webhook.RaisesOnMissingKeyOrNumber | main.py:33-52 | The handler raises iff a configuration key it reads is missing, or the delivery passes the gate, is a `pull_request` event, wants a job, and its log line fails to look up `pull_request.number`. The error is that `KeyError` or the lookup's error. |

## Left out

**I/O, libraries and concurrency**
- Network I/O. These are not modelled:
  - the token POST with its status handling (`raise_for_status`);
  - the `GitHubClient.request` call itself and the response decoding;
  - `get`, `post`, `patch`, `put` and `delete`, which only forward to `request`.

  The exchange outcome is the `Exchange` parameter.
- Cryptography. HMAC-SHA256 and RS256 are parameters.
  - The constant-time property of `hmac.compare_digest` is not expressible, so the comparison is string equality.
  - Its `TypeError` on non-ASCII strings is library behaviour and is not modelled.
- The async orchestration in `process_pull_request` and `process_pr_desc` is not modelled. It consists of the API calls, the comment posting, the description update and their logging.
- `helpers/config.py` reads environment variables and a JSON file. It is replaced by the `Config` record.
- Config.ApiBase: a JSON `null` for `api_base_url` reads as the default here. The source's `get` returns `None` for it, and the f-strings would render `None` as the base.
- Configuration values are typed. A JSON config whose `check_signature`, `auto_pr_review` or `edit_pr_desc` is not a boolean is read through Python truthiness in the source; here it must be a boolean.
- FastAPI and uvicorn are not modelled: routing, request decoding, and the serialisation of the returned response.
- `health_check` is not modelled. It returns a constant message.
- Logging is not modelled. The exception is the number lookup in the handler's log line, which can raise and is modelled.

**Weaker than the source**
- Utils.IsGithubSignatureValid: headers are a plain map with case-sensitive names. The source's request headers match names ignoring case.
- Webhook.Dispatch: the `X-GitHub-Event` header is looked up by its exact name. The source's Starlette headers match names ignoring case, so a delivery that spells the name in another case is a `pull_request` event there and not here.
- Webhook.Dispatch: the payload is a JSON object. A body that is not valid JSON raises when it is decoded, before the signature gate. A body that decodes to a list, a string, a number or `null` passes the gate; it raises `AttributeError` at `payload.get` only for a `pull_request` event, and any other event is acknowledged. Neither path is modelled.
- PullRequest.HeadingIsSection: the case-insensitive search is modelled with ASCII case folding. Python's `re.IGNORECASE` also matches a few non-ASCII letters, such as the long s for `s` and the dotless i for `i`. So the model can miss a heading the source would find.
- PullRequest.AnalyzePrContent: lower-casing is ASCII-only. For the test `'test' in name.lower()` this gives the same answer, because no non-ASCII character lower-cases to `t`, `e` or `s`.
- PullRequest.AnalyzePrContent: file records are typed. A missing `filename`, `additions`, `deletions` or `changes` key, or a non-numeric value, would raise in the source and is not modelled. The unused `client`, `owner`, `repo` and `pr_info` parameters are dropped.
- Install.GitHubClient.Request: the caller's headers are taken by value. The source's `headers.update` writes the auth headers into the dict the caller passed, which the model does not show. No call site in the core passes headers.
- Install.GenerateJwt: the App id is a string. A JSON config may hold it as a number, which the source accepts when truthy (so `0` is rejected) and puts into `iss` as a number; that case is not modelled.
- Install.GitHubClient.EnsureToken: an exchange yields both the token and its expiry, or fails. In the source the token is cached before `token_data['expires_at']` is read, so a response without `expires_at` raises `KeyError` and leaves the token cached. The model cannot express that state.
- Install.GenerateJwt: any exception from the signer becomes `SigningFailed`, without its message.
