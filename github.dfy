/**
 * The GitHub version source: which release or tag counts as the latest version of a
 * repository, the commit messages between two tags, and `check_for_updates`.
 *
 * The REST API is not called: what each endpoint answered for the repository is an
 * input (`Feeds`), already decoded by the service's request helper. `None` stands for
 * a failed or 404 request and for a body of the wrong shape or an empty one, all of
 * which the service treats alike.
 */
module GitHub {
  import opened Wrappers
  import opened Text
  import opened Versions

  /** One commit of a compare response: its message, when the commit carries one. */
  type RawCommit = Option<string>

  /** The fields of a `/compare/{base}...{head}` response the service reads. */
  datatype RawCompare = RawCompare(aheadBy: Option<int>, behindBy: Option<int>, totalCommits: Option<int>,
                                   commits: seq<RawCommit>, htmlUrl: Option<string>)

  /** The dictionary `compare_commits` returns. */
  datatype Comparison = Comparison(aheadBy: int, behindBy: int, totalCommits: int,
                                   commitMessages: seq<string>, htmlUrl: Option<string>)

  /** What the endpoints answered for one repository. */
  datatype Feeds = Feeds(
    releases: Option<seq<ReleaseEntry>>,              // GET /repos/{owner}/{repo}/releases
    latestRelease: Option<ReleaseEntry>,              // GET /repos/{owner}/{repo}/releases/latest
    tags: Option<seq<string>>,                        // GET /repos/{owner}/{repo}/tags (names)
    compare: (string, string) -> Option<RawCompare>)  // GET /repos/{owner}/{repo}/compare/{base}...{head}

  const Host := "https://github.com/"

  /** `parse_repo_name`: `owner/repo` with exactly one `/`; None stands for the `ValueError`. */
  function ParseRepoName(name: string): (r: Option<(string, string)>)
    ensures r.Some? <==> Count(name, '/') == 1
    ensures r.Some? ==> name == r.value.0 + "/" + r.value.1 && '/' !in r.value.0 && '/' !in r.value.1
  {
    var parts := Split(name, '/');
    SplitCount(name, '/');
    if |parts| != 2 then None
    else
      assert Join(parts, "/") == parts[0] + "/" + parts[1];
      Some((parts[0], parts[1]))
  }

  /** Joining an owner and a repository without slashes parses back to the pair. */
  lemma ParseRepoNameJoin(owner: string, repo: string)
    requires '/' !in owner && '/' !in repo
    ensures ParseRepoName(owner + "/" + repo) == Some((owner, repo))
  {
    SplitJoin([owner, repo], '/');
    assert Join([owner, repo], "/") == owner + "/" + repo;
  }

  /** The release loop's test: the tag passes the filter and the release is final. */
  predicate Eligible(filters: TagFilters, repoName: string, r: ReleaseEntry) {
    MatchesTagFilter(filters, repoName, r.tagName) && !r.prerelease
  }

  /** `get_latest_release`: with a filter entry, the first eligible entry of the release
      list; without one, the `latest` endpoint's answer. */
  function GetLatestRelease(filters: TagFilters, repoName: string, feeds: Feeds): (r: Option<Candidate>)
    ensures repoName in filters ==>
      (r.Some? <==> feeds.releases.Some? && exists i :: 0 <= i < |feeds.releases.value| && Eligible(filters, repoName, feeds.releases.value[i]))
    ensures repoName in filters && r.Some? ==>
      exists i :: 0 <= i < |feeds.releases.value| && r.value == FromRelease(feeds.releases.value[i])
        && Eligible(filters, repoName, feeds.releases.value[i])
        && forall j :: 0 <= j < i ==> !Eligible(filters, repoName, feeds.releases.value[j])
    ensures repoName !in filters ==> r == (if feeds.latestRelease.Some? then Some(FromRelease(feeds.latestRelease.value)) else None)
    ensures r.Some? ==> r.value.kind == Release
  {
    if repoName in filters then
      match feeds.releases
      case None => None
      case Some(list) =>
        match FirstMatch(list, (rel: ReleaseEntry) => Eligible(filters, repoName, rel))
        case None => None
        case Some(rel) => Some(FromRelease(rel))
    else
      match feeds.latestRelease
      case None => None
      case Some(rel) => Some(FromRelease(rel))
  }

  /** `get_latest_version`: a final release wins; otherwise the latest tag. */
  function GetLatestVersion(filters: TagFilters, repoName: string, feeds: Feeds): (r: Option<Candidate>)
    ensures var rel := GetLatestRelease(filters, repoName, feeds);
      r == if rel.Some? && !rel.value.prerelease then rel else GetLatestTag(filters, repoName, feeds.tags)
    ensures r.Some? ==> !r.value.prerelease
  {
    var rel := GetLatestRelease(filters, repoName, feeds);
    if rel.Some? && !rel.value.prerelease then rel else GetLatestTag(filters, repoName, feeds.tags)
  }

  /** With a filter entry the `latest` endpoint is never consulted. */
  lemma FilteredIgnoresLatestEndpoint(filters: TagFilters, repoName: string, feeds: Feeds, other: Option<ReleaseEntry>)
    requires repoName in filters
    ensures GetLatestVersion(filters, repoName, feeds) == GetLatestVersion(filters, repoName, feeds.(latestRelease := other))
  {
  }

  /** A repository whose `latest` release is a pre-release falls back to its tags. */
  lemma PrereleaseFallsBackToTags(filters: TagFilters, repoName: string, feeds: Feeds)
    requires repoName !in filters && feeds.latestRelease.Some? && feeds.latestRelease.value.prerelease
    ensures GetLatestVersion(filters, repoName, feeds) == GetLatestTag(filters, repoName, feeds.tags)
  {
  }

  /** `commit.get("commit", {}).get("message", "")`. */
  function MessageOf(c: RawCommit): string {
    c.GetOr("")
  }

  /** `compare_commits`: the counts as the API gave them (0 when absent) and one message
      per commit, in commit order. */
  function CompareCommits(raw: Option<RawCompare>): (r: Option<Comparison>)
    ensures r.Some? <==> raw.Some?
    ensures r.Some? ==>
      && |r.value.commitMessages| == |raw.value.commits|
      && (forall i :: 0 <= i < |raw.value.commits| ==> r.value.commitMessages[i] == MessageOf(raw.value.commits[i]))
      && r.value.aheadBy == raw.value.aheadBy.GetOr(0)
      && r.value.behindBy == raw.value.behindBy.GetOr(0)
      && r.value.totalCommits == raw.value.totalCommits.GetOr(0)
      && r.value.htmlUrl == raw.value.htmlUrl
  {
    match raw
    case None => None
    case Some(d) =>
      var messages := seq(|d.commits|, i requires 0 <= i < |d.commits| => MessageOf(d.commits[i]));
      Some(Comparison(d.aheadBy.GetOr(0), d.behindBy.GetOr(0), d.totalCommits.GetOr(0), messages, d.htmlUrl))
  }

  /** `get_commit_messages_between_tags`: the comparison's messages, or none when the
      comparison failed. */
  function CommitMessagesBetweenTags(feeds: Feeds, oldTag: string, newTag: string): (r: seq<string>)
    ensures feeds.compare(oldTag, newTag).None? ==> r == []
    ensures feeds.compare(oldTag, newTag).Some? ==>
      var commits := feeds.compare(oldTag, newTag).value.commits;
      |r| == |commits| && forall i :: 0 <= i < |commits| ==> r[i] == MessageOf(commits[i])
  {
    match CompareCommits(feeds.compare(oldTag, newTag))
    case None => []
    case Some(c) => c.commitMessages
  }

  /** `check_for_updates(repo_name, last_version)`. */
  function CheckForUpdates(filters: TagFilters, name: string, last: Option<string>, feeds: Feeds): (r: UpdateInfo)
    ensures Count(name, '/') != 1 <==> r.NameRejected?
    ensures r.NameRejected? ==> r.message == InvalidNameMessage(name)
    ensures Count(name, '/') == 1 ==>
      r == ClassifyUpdate(GetLatestVersion(filters, name, feeds), last,
                          (b, h) => CommitMessagesBetweenTags(feeds, b, h))
  {
    match ParseRepoName(name)
    case None => NameRejected(InvalidNameMessage(name))
    case Some((owner, repo)) =>
      ClassifyUpdate(GetLatestVersion(filters, owner + "/" + repo, feeds), last,
                     (b, h) => CommitMessagesBetweenTags(feeds, b, h))
  }

  /** Commit messages are requested only for a changed tag without notes, from the stored
      version to the new tag, and never on a first check. */
  lemma CommitsOnlyForBareTags(filters: TagFilters, name: string, last: Option<string>, feeds: Feeds)
    requires CheckForUpdates(filters, name, last, feeds).NewVersion?
    ensures var r := CheckForUpdates(filters, name, last, feeds);
      && (r.isFirstCheck ==> r.commitMessages == [])
      && (r.commitMessages != [] ==>
            !r.isFirstCheck && r.versionType == Tag && r.releaseNotes == ""
            && r.commitMessages == CommitMessagesBetweenTags(feeds, last.value, r.newVersion))
  {
  }

  /** `get_repo_url`: the repository's page on github.com. */
  function RepoUrl(name: string): (r: string)
    ensures Host <= r && r[|Host|..] == name
  {
    Host + name
  }
}
