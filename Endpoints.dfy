/** The GitHub REST URLs the bot calls, composed from the API base URL
    (`https://api.github.com` unless configured otherwise), with numeric ids
    rendered in decimal as an f-string renders an `int`. */
module Endpoints {
  import opened Text

  /** The token-exchange URL: the installation path, with the id in decimal
      as its last segment but one. */
  function AccessTokenUrl(base: string, installationId: int): (url: string)
    ensures StartsWith(url, base + "/app/installations/")
    ensures EndsWith(url, "/access_tokens")
    ensures |url| == |base| + |"/app/installations/"| + |IntToString(installationId)| + |"/access_tokens"|
    ensures url[|base| + |"/app/installations/"|..|url| - |"/access_tokens"|] == IntToString(installationId)
  {
    var head, id := base + "/app/installations/", IntToString(installationId);
    StartsWithConcat(head, id);
    StartsWithAppend(head + id, head, "/access_tokens");
    EndsWithConcat(head + id, "/access_tokens");
    OccursBetween(head, id, "/access_tokens");
    head + id + "/access_tokens"
  }

  /** The repository URL, from which the owner and the name read back. */
  function RepoUrl(base: string, owner: string, repo: string): (url: string)
    ensures StartsWith(url, base + "/repos/")
    ensures EndsWith(url, "/" + repo)
    ensures |url| == |base| + |"/repos/"| + |owner| + 1 + |repo|
    ensures url[|base| + |"/repos/"|..|url| - |"/" + repo|] == owner
  {
    var head := base + "/repos/";
    assert head + owner + "/" + repo == head + owner + ("/" + repo);
    StartsWithConcat(head, owner);
    StartsWithAppend(head + owner, head, "/" + repo);
    EndsWithConcat(head + owner, "/" + repo);
    OccursBetween(head, owner, "/" + repo);
    head + owner + "/" + repo
  }

  /** The pull-request listing of a repository. */
  function PullsUrl(base: string, owner: string, repo: string): (url: string)
    ensures StartsWith(url, RepoUrl(base, owner, repo))
    ensures EndsWith(url, "/pulls")
    ensures |url| == |RepoUrl(base, owner, repo)| + |"/pulls"|
  {
    StartsWithConcat(RepoUrl(base, owner, repo), "/pulls");
    EndsWithConcat(RepoUrl(base, owner, repo), "/pulls");
    RepoUrl(base, owner, repo) + "/pulls"
  }

  /** One pull request: its number, in decimal, is the last segment. */
  function PullUrl(base: string, owner: string, repo: string, number: int): (url: string)
    ensures StartsWith(url, PullsUrl(base, owner, repo) + "/")
    ensures url[|PullsUrl(base, owner, repo)| + 1..] == IntToString(number)
  {
    var head := PullsUrl(base, owner, repo) + "/";
    StartsWithConcat(head, IntToString(number));
    assert (head + IntToString(number))[|head|..] == IntToString(number);
    head + IntToString(number)
  }

  function PullFilesUrl(base: string, owner: string, repo: string, number: int): (url: string)
    ensures StartsWith(url, PullUrl(base, owner, repo, number))
    ensures EndsWith(url, "/files")
    ensures |url| == |PullUrl(base, owner, repo, number)| + |"/files"|
  {
    StartsWithConcat(PullUrl(base, owner, repo, number), "/files");
    EndsWithConcat(PullUrl(base, owner, repo, number), "/files");
    PullUrl(base, owner, repo, number) + "/files"
  }

  /** Comments on a pull request go through the issues API: the number sits
      between `/issues/` and `/comments`. */
  function PullCommentsUrl(base: string, owner: string, repo: string, number: int): (url: string)
    ensures StartsWith(url, RepoUrl(base, owner, repo) + "/issues/")
    ensures EndsWith(url, "/comments")
    ensures |url| == |RepoUrl(base, owner, repo)| + |"/issues/"| + |IntToString(number)| + |"/comments"|
    ensures url[|RepoUrl(base, owner, repo)| + |"/issues/"|..|url| - |"/comments"|] == IntToString(number)
  {
    var head, id := base + "/repos/" + owner + "/" + repo + "/issues/", IntToString(number);
    assert head == RepoUrl(base, owner, repo) + "/issues/";
    StartsWithConcat(head, id);
    StartsWithAppend(head + id, head, "/comments");
    EndsWithConcat(head + id, "/comments");
    OccursBetween(head, id, "/comments");
    base + "/repos/" + owner + "/" + repo + "/issues/" + IntToString(number) + "/comments"
  }

  function PullReviewsUrl(base: string, owner: string, repo: string, number: int): (url: string)
    ensures StartsWith(url, PullUrl(base, owner, repo, number))
    ensures EndsWith(url, "/reviews")
    ensures |url| == |PullUrl(base, owner, repo, number)| + |"/reviews"|
  {
    StartsWithConcat(PullUrl(base, owner, repo, number), "/reviews");
    EndsWithConcat(PullUrl(base, owner, repo, number), "/reviews");
    PullUrl(base, owner, repo, number) + "/reviews"
  }

  function CommitsUrl(base: string, owner: string, repo: string): (url: string)
    ensures StartsWith(url, RepoUrl(base, owner, repo))
    ensures EndsWith(url, "/commits")
    ensures |url| == |RepoUrl(base, owner, repo)| + |"/commits"|
  {
    StartsWithConcat(RepoUrl(base, owner, repo), "/commits");
    EndsWithConcat(RepoUrl(base, owner, repo), "/commits");
    RepoUrl(base, owner, repo) + "/commits"
  }

  /** One commit: its sha is the last segment. */
  function CommitUrl(base: string, owner: string, repo: string, sha: string): (url: string)
    ensures StartsWith(url, CommitsUrl(base, owner, repo) + "/")
    ensures url[|CommitsUrl(base, owner, repo)| + 1..] == sha
  {
    var head := CommitsUrl(base, owner, repo) + "/";
    StartsWithConcat(head, sha);
    assert (head + sha)[|head|..] == sha;
    head + sha
  }

  /** The statuses of a commit: its sha follows `/statuses/`. */
  function StatusUrl(base: string, owner: string, repo: string, sha: string): (url: string)
    ensures StartsWith(url, RepoUrl(base, owner, repo) + "/statuses/")
    ensures url[|RepoUrl(base, owner, repo)| + |"/statuses/"|..] == sha
  {
    var head := RepoUrl(base, owner, repo) + "/statuses/";
    StartsWithConcat(head, sha);
    assert (head + sha)[|head|..] == sha;
    head + sha
  }

  /** An empty `path` is falsy, so it adds no trailing segment; any other
      path follows `/contents/`. */
  function ContentsUrl(base: string, owner: string, repo: string, path: string): (url: string)
    ensures StartsWith(url, RepoUrl(base, owner, repo) + "/contents")
    ensures path == "" ==> |url| == |RepoUrl(base, owner, repo) + "/contents"|
    ensures path != "" ==> url[|RepoUrl(base, owner, repo) + "/contents"|..] == "/" + path
  {
    var contents := RepoUrl(base, owner, repo) + "/contents";
    assert contents + "/" + path == contents + ("/" + path);
    StartsWithConcat(contents, "/" + path);
    assert (contents + ("/" + path))[|contents|..] == "/" + path;
    if path != "" then contents + "/" + path else contents
  }

  // ---------------------------------------------------------------------
  // Properties of the URL scheme.

  /** Different installations get different token-exchange URLs. */
  lemma AccessTokenUrlInjective(base: string, a: int, b: int)
    requires AccessTokenUrl(base, a) == AccessTokenUrl(base, b)
    ensures a == b
  {
    IntToStringInjective(a, b);
  }

  /** Every repository-scoped URL extends the repository URL. */
  lemma RepoScopedUrlsExtendRepoUrl(base: string, owner: string, repo: string, number: int, sha: string, path: string)
    ensures var r := RepoUrl(base, owner, repo);
      && StartsWith(PullsUrl(base, owner, repo), r)
      && StartsWith(PullUrl(base, owner, repo, number), r)
      && StartsWith(PullFilesUrl(base, owner, repo, number), r)
      && StartsWith(PullCommentsUrl(base, owner, repo, number), r)
      && StartsWith(PullReviewsUrl(base, owner, repo, number), r)
      && StartsWith(CommitsUrl(base, owner, repo), r)
      && StartsWith(CommitUrl(base, owner, repo, sha), r)
      && StartsWith(StatusUrl(base, owner, repo, sha), r)
      && StartsWith(ContentsUrl(base, owner, repo, path), r)
  {
    var r := RepoUrl(base, owner, repo);
    var n := IntToString(number);
    var pulls := PullsUrl(base, owner, repo);
    StartsWithConcat(r, "/pulls");
    StartsWithAppend(pulls, r, "/");
    StartsWithAppend(pulls + "/", r, n);
    var pull := PullUrl(base, owner, repo, number);
    StartsWithAppend(pull, r, "/files");
    StartsWithAppend(pull, r, "/reviews");
    StartsWithConcat(r, "/issues/");
    StartsWithAppend(r + "/issues/", r, n);
    StartsWithAppend(r + "/issues/" + n, r, "/comments");
    var commits := CommitsUrl(base, owner, repo);
    StartsWithConcat(r, "/commits");
    StartsWithAppend(commits, r, "/");
    StartsWithAppend(commits + "/", r, sha);
    StartsWithConcat(r, "/statuses/");
    StartsWithAppend(r + "/statuses/", r, sha);
    StartsWithConcat(r, "/contents");
    StartsWithAppend(r + "/contents", r, "/");
    StartsWithAppend(r + "/contents" + "/", r, path);
  }

  /** How the pull-request, commit, status and contents URLs decompose over the
      repository URL; comments take the issues path, not the pulls path. */
  lemma RepoScopedUrlsDecompose(base: string, owner: string, repo: string, number: int, sha: string, path: string)
    ensures PullUrl(base, owner, repo, number) == RepoUrl(base, owner, repo) + "/pulls/" + IntToString(number)
    ensures PullFilesUrl(base, owner, repo, number) == PullUrl(base, owner, repo, number) + "/files"
    ensures PullReviewsUrl(base, owner, repo, number) == PullUrl(base, owner, repo, number) + "/reviews"
    ensures PullCommentsUrl(base, owner, repo, number)
         == RepoUrl(base, owner, repo) + "/issues/" + IntToString(number) + "/comments"
    ensures !StartsWith(PullCommentsUrl(base, owner, repo, number), PullsUrl(base, owner, repo))
    ensures CommitUrl(base, owner, repo, sha) == RepoUrl(base, owner, repo) + "/commits/" + sha
    ensures StatusUrl(base, owner, repo, sha) == RepoUrl(base, owner, repo) + "/statuses/" + sha
    ensures path == "" ==> ContentsUrl(base, owner, repo, path) == RepoUrl(base, owner, repo) + "/contents"
    ensures path != "" ==> ContentsUrl(base, owner, repo, path) == RepoUrl(base, owner, repo) + "/contents/" + path
  {
    var r := RepoUrl(base, owner, repo);
    var comments := PullCommentsUrl(base, owner, repo, number);
    assert comments == r + ("/issues/" + IntToString(number) + "/comments");
    assert comments[|r| + 1] == 'i';
    assert PullsUrl(base, owner, repo)[|r| + 1] == 'p';
  }

  /** A pull-request URL determines the pull-request number. */
  lemma PullUrlInjective(base: string, owner: string, repo: string, a: int, b: int)
    requires PullUrl(base, owner, repo, a) == PullUrl(base, owner, repo, b)
    ensures a == b
  {
    IntToStringInjective(a, b);
  }
}
