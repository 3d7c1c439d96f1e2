# Blockchain release watcher — a verified model of its decision core

The release watcher follows a list of GitHub and GitLab repositories. For each repository it
does four things:

- It picks the latest version, from releases first and semver-shaped tags second, narrowed by
  optional per-repository tag filters.
- It compares that version with the one it stored last time.
- It asks a language model to classify the change, then checks or replaces the model's answer
  with a fixed fallback.
- It sends an email and/or a Slack message when the change matters. The store keeps the
  repository table and an append-only alert history.

A GitHub webhook can start the same check for a single repository.

This project models that logic in Dafny. The model has one module per source file, plus shared
helper modules.

| module | file | models |
|---|---|---|
| `Wrappers`, `Text`, `JsonValue` | wrappers.dfy, text.dfy, json.dfy | `Option`; Python string operations (`strip`, `split`, `lower` on ASCII letters, `lstrip`, `in`, `replace`); decoded JSON values with Python truthiness, `dict.get` and `str()` |
| `Versions` | versions.dfy | what both platform services share: the semver shape test, the tag filter, `_extract_version`, first-match selection, `get_latest_tag` and the four-way update classification |
| `GitHub`, `GitLab` | github.dfy, gitlab.dfy | the two platform services, including where they differ |
| `Routing` | routing.dfy | the `gitlab:`/`github:` prefix dispatch of the repository service |
| `Config` | config.dfy | `MONITORED_REPOS`, the `REPO_TAG_FILTERS` parser, boolean flags and `validate` |
| `Classifier` | classifier.dfy | the analysis prompt, the order of the JSON extraction stages, validation, the fallback analysis and `should_send_alert` |
| `AlertFields` | alerts.dfy | the severity and mandatory defaults and the recommendation precedence that email and Slack share |
| `EmailAlert`, `SlackAlert` | email.dfy, slack.dfy | message composition and the result of sending |
| `Store` | store.dfy | the repositories table (a map) and the alert history (a sequence) as table-level functions, and a class `Database` whose methods are proved against them |
| `Monitor` | monitor.dfy | `check_repository_updates` as a method on a `Database`, proved against a pure decision `Step` and a trace of effects, plus the `check_all_repositories` loop and its tallies |
| `Webhook` | webhook.dfy | the decision logic of `github_webhook` |

Everything outside the program is passed in as a value:

- **Fetched data.** Release lists, the latest release, tag lists and compare results come in as
  `Option` values. `None` means the request failed.
- **The language model.** Modelled as a function from prompt to reply.
- **JSON and regex parsing.** Three partial functions, one per extraction stage.
- **Message delivery.** Sending an email is a function from the composed message to success.
  The Slack POST is a function from payload to HTTP status.
- **Clock readings.** Passed in as strings.
- **Environment variables.** Passed in as raw strings.

The monitor receives its collaborators as an `Env` of functions, just as `check_repository_updates`
receives its service objects. `Monitor.Services` builds that `Env` from the real models of the
routing, classifier and notification services (`Monitor.UpdateCheck`, `Monitor.PageUrl`,
`Monitor.EmailChannel`).

## Model

| member | source | states |
|---|---|---|
| Routing.DetectPlatform | app/services/repository_service.py:24-41 | the platform is GitLab exactly when the name starts with `gitlab:`; every other name, `github:`-prefixed or bare, is GitHub |
| Routing.CleanRepoName | app/services/repository_service.py:43-57 | drops exactly the first 7 characters when the name starts with `gitlab:` or `github:`, and returns the name unchanged otherwise |
| Routing.GetPlatform | app/services/repository_service.py:97-108 | the result is "GitLab" iff the detected platform is GitLab, and otherwise "GitHub" |
| Routing.PrefixRoundTrip | app/services/repository_service.py:35-38 | for every `n`, cleaning `gitlab:`+n or `github:`+n gives `n`, and detection gives "gitlab" or "github" respectively |
| Routing.OnlyOnePrefixRemoved | app/services/repository_service.py:53-57 | `gitlab:gitlab:x` cleans to `gitlab:x`, so cleaning is not idempotent |
| Routing.RoutedByPrefix | app/services/repository_service.py:59-77 | an update check for a prefixed name is the GitLab or GitHub service's check on the bare name, with `last_version` unchanged; an unprefixed name goes to GitHub |
| Routing.RepoUrlByPrefix | app/services/repository_service.py:79-95 | with the default API base, the URL of `gitlab:`+n is `https://gitlab.com/`+n and the URL of `github:`+n is `https://github.com/`+n |
| Versions.SemanticVersionShape | app/services/github_service.py:65-77 | a tag is semver-shaped iff it is an optional `v`, then three non-empty digit runs separated by `.`, then any suffix |
| Versions.SemanticVersionExamples | app/services/github_service.py:75-77 | `v1.2.3`, `1.2.3` and `v1.2.3-beta` are accepted; `latest` and `op-node` are not |
| Versions.PrereleaseSuffixAccepted | app/services/gitlab_service.py:64-66 | a prerelease suffix after the three numbers is accepted |
| Versions.NoLeadingNumber | app/services/github_service.py:75-77 | a tag that starts with neither `v` nor a digit is never semver-shaped |
| Versions.MatchesTagFilterMeaning | app/services/github_service.py:79-103 | a repository without a filter entry accepts every tag; otherwise a tag matches iff some lowercased pattern is a substring of the lowercased tag, so an empty pattern list rejects every tag |
| Versions.TagFilterTestCases | app/services/gitlab_service.py:68-92 | the tag-filter cases from the repository's tests hold for the `op-geth,op-node` filter |
| Versions.ExtractVersion | app/services/github_service.py:105-116 | the result is a suffix of the tag, everything removed was `v`, and the result does not start with `v` |
| Versions.FirstIndex | app/services/github_service.py:132-149 | returns the least index whose entry satisfies the predicate, or None when no entry does |
| Versions.FirstMatch | app/services/github_service.py:168-196 | returns an entry iff some entry satisfies the predicate, and then it is the first one that does, in list order |
| Versions.GetLatestTag | app/services/github_service.py:168-196 | returns a tag iff the fetched list has one that is semver-shaped and passes the filter, and then the first such tag; the result is of kind tag, not a prerelease, with its name as the version |
| Versions.ClassifyUpdate | app/services/github_service.py:306-344 | no latest version gives the fetch error; no prior version (None or "") gives a first check with no old version and no commits; an equal tag gives no change; any other tag gives an update from the last version to the new tag |
| GitHub.ParseRepoName | app/services/github_service.py:273-287 | succeeds iff the name holds exactly one `/`, and then yields the owner and repository on either side |
| GitHub.ParseRepoNameJoin | app/services/github_service.py:283-287 | `owner/repo` without further slashes parses back to `(owner, repo)` |
| GitHub.GetLatestRelease | app/services/github_service.py:118-166 | with a filter, the result is the first listed release that matches and is not a prerelease, or None; without a filter, it is whatever the latest-release endpoint gave |
| GitHub.GetLatestVersion | app/services/github_service.py:198-216 | the release is used only when it exists and is not a prerelease; otherwise the result is the first eligible tag; it is never a prerelease |
| GitHub.FilteredIgnoresLatestEndpoint | app/services/github_service.py:132-149 | with a filter, the result does not depend on the latest-release endpoint |
| GitHub.PrereleaseFallsBackToTags | app/services/github_service.py:210-216 | without a filter, a prerelease from the latest endpoint is skipped in favour of the tags |
| GitHub.CompareCommits | app/services/github_service.py:218-250 | a failed request gives None; otherwise the messages are those of the commits, in commit order |
| GitHub.CommitMessagesBetweenTags | app/services/github_service.py:252-271 | a failed comparison gives `[]`; otherwise the comparison's messages |
| GitHub.CheckForUpdates | app/services/github_service.py:289-353 | a name without exactly one `/` is rejected with the ValueError text; otherwise the result is the four-way classification of the latest version |
| GitHub.CommitsOnlyForBareTags | app/services/github_service.py:347-351 | commit messages are non-empty only for a non-first update whose version is a tag with empty notes, and then they are the messages between the last version and the new tag |
| GitHub.RepoUrl | app/services/github_service.py:355-365 | the URL is `https://github.com/` followed by the name |
| GitLab.ParseRepoName | app/services/gitlab_service.py:263-277 | succeeds iff the name holds a `/`, and then splits at the first one |
| GitLab.ParseNestedProject | app/services/gitlab_service.py:273-277 | `group/sub/project` gives `("group", "sub/project")` |
| GitLab.ParseFirstSlash | app/services/gitlab_service.py:273-277 | a slash-free group followed by `/` and any project parses back to that pair |
| GitLab.DefaultRepoUrl | app/services/gitlab_service.py:345-357 | with the default API base, every `/api/v4` is removed, so the URL is `https://gitlab.com/` followed by the name |
| GitLab.PlainHostRepoUrl | app/services/gitlab_service.py:356-357 | a base without `/api/v4` is used as it is, followed by `/` and the name |
| GitLab.GetLatestRelease | app/services/gitlab_service.py:107-155 | with a filter, the first listed release whose tag matches, with no prerelease test; without one, the head of a non-empty list, whatever its tag |
| GitLab.GetLatestVersion | app/services/gitlab_service.py:188-206 | any release found is used; the tags are consulted only when there is none |
| GitLab.UnfilteredHeadWins | app/services/gitlab_service.py:141-155 | without a filter, a non-empty release list always yields its first element |
| GitLab.CompareCommits | app/services/gitlab_service.py:208-240 | `ahead_by` and `total_commits` both equal the number of commits, and the messages keep commit order |
| GitLab.CommitMessagesBetweenTags | app/services/gitlab_service.py:242-261 | a failed comparison gives `[]`; otherwise the comparison's messages |
| GitLab.CheckForUpdates | app/services/gitlab_service.py:279-343 | a name without `/` is rejected; otherwise the same four-way classification as GitHub's, with the same tag-only, empty-notes commit fetch |
| Config.CleanPieces | app/config.py:51-55 | every kept piece is stripped and non-empty, and no more pieces come out than went in |
| Config.CleanPiecesKept | app/config.py:51-55 | the cleaned list is exactly the stripped pieces that are non-empty, in their original order: an increasing index map picks each kept piece, and every non-empty stripped piece is picked |
| Config.ParseMonitoredRepos | app/config.py:51-55 | every listed repository is non-empty, stripped and free of commas |
| Config.MonitoredReposRoundTrip | app/config.py:51-55 | a list of clean names written comma-separated parses back to the same list, in the same order |
| Config.NoMonitoredRepos | app/config.py:51-55 | an unset variable gives the empty list |
| Config.MessyRepoList | app/config.py:51-55 | spaces around the names and an empty entry are dropped: an input shaped like ` a , ,b ` gives `[a, b]` |
| Config.SegmentEntry | app/config.py:73-85 | a segment without `:`, or blank once stripped, contributes nothing; any entry has a non-empty, stripped key without `:` and a non-empty list of clean patterns |
| Config.SegmentEntryStrips | app/config.py:74-85 | for a segment holding `:`, the entry is the stripped text before its first `:` with the comma list after it, when both are non-empty, and nothing otherwise; whitespace around the segment, the name or the patterns changes nothing |
| Config.CommaListPadRight | app/config.py:83 | whitespace after the last pattern does not change the pattern list |
| Config.PaddedSegment | app/config.py:74-85 | a segment shaped like ` r : x ` gives the entry `(r, [x])` |
| Config.ParseTagFilters | app/config.py:61-88 | the dictionary built by the loop is the fold of the segments, in order |
| Config.AddSegments | app/config.py:73-85 | the loop over the segments leaves exactly the fold of their entries, in order |
| Config.AddSegment | app/config.py:74-85 | one loop pass assigns the segment's entry, or leaves the dictionary alone when the segment contributes nothing |
| Config.TagFiltersWellFormed | app/config.py:69-85 | for every input, keys are non-empty and free of `:` and `;`, every list is non-empty, every pattern is non-empty, stripped and comma-free; an empty string gives no filters |
| Config.LaterSegmentWins | app/config.py:85 | a later segment for a repository replaces the earlier list, and a segment that contributes nothing changes nothing |
| Config.SegmentRoundTrip | app/config.py:80-85 | `name:pat,pat` with a clean name and clean patterns parses back to that entry; the split is at the first `:` |
| Config.ExampleFilter | app/config.py:57-59 | the documented example parses to one entry with two patterns |
| Config.Flag | app/config.py:36 | an unset flag is true, and a value that cannot lower-case to `true` is false |
| Config.FlagExamples | app/config.py:36-40 | `TRUE`, `True` and unset are true; `false`, `1`, `yes` and "" are false |
| Config.Validate | app/config.py:90-122 | each entry is reported iff its condition holds (GitHub token for an unprefixed repository, GitLab token for a prefixed one, the Gemini key, no configured channel, no repositories), at most once, in the order checked |
| Config.EmptyRepoListNeedsNoToken | app/config.py:100-106 | with no repositories, neither platform is in use, so neither token is required |
| Classifier.FirstCommits | app/services/gemini_service.py:60-64 | at most 20 messages, taken from the front of the list, and the whole list when it is short enough |
| Classifier.PromptNamesBothVersions | app/services/gemini_service.py:47-52 | the prompt always holds the old-version line and the new-version line |
| Classifier.NotesSectionIff | app/services/gemini_service.py:54-58 | the prompt with empty notes is the prompt without the notes section |
| Classifier.CommitsSectionIff | app/services/gemini_service.py:60-64 | the prompt with no commits is the prompt without the commit section |
| Classifier.OnlyFirstCommitsCount | app/services/gemini_service.py:60-64 | messages after the twentieth do not change the prompt |
| Classifier.BothSectionsPresent | app/services/gemini_service.py:54-64 | non-empty notes and commits put both sections in the prompt |
| Classifier.Stages | app/services/gemini_service.py:100-124 | there are exactly three parse stages: the raw text, the fenced block and the brace object |
| Classifier.ExtractJson | app/services/gemini_service.py:90-124 | the result is None iff every stage fails; otherwise it is the result of a succeeding stage (the first one) |
| Classifier.ValidateAnalysis | app/services/gemini_service.py:126-150 | an object is valid iff it has all four keys, a known severity and a boolean mandatory flag; an object never raises |
| Classifier.AllFieldsInObject | app/services/gemini_service.py:136-140 | on an object, the key test is true iff every required key is present |
| Classifier.Fallback | app/services/gemini_service.py:185-216 | the fallback is a usable analysis with MEDIUM severity, no mandatory upgrade and a summary opening with `Update from {old} to {new}.` |
| Classifier.AnalyzeReply | app/services/gemini_service.py:152-216 | a parsed, valid reply is returned unchanged; any other reply gives the fallback; an exception puts its text in the reasoning |
| Classifier.AnalyzeVersionChange | app/services/gemini_service.py:152-216 | the analysis is always usable, whatever the model answers |
| Classifier.UsableAlertIff | app/services/gemini_service.py:218-233 | on a usable analysis, an alert is due iff the mandatory flag is true or the severity is HIGH or CRITICAL |
| Classifier.MissingSeverityNoAlert | app/services/gemini_service.py:229-233 | a missing severity counts as MEDIUM, so without a truthy flag there is no alert |
| Classifier.AlertNeedsAcceptedReply | app/services/gemini_service.py:185-233 | the fallback never calls for an alert, so an alert needs a parsed and valid reply |
| AlertFields.MissingFieldsDefaults | app/services/email_service.py:43-44 | a missing severity reads as MEDIUM and a missing flag as false, which gives the routine recommendation |
| AlertFields.MandatoryTakesPrecedence | app/services/email_service.py:85-109 | a mandatory upgrade gets the mandatory recommendation whatever the severity |
| AlertFields.SeverityDecidesOtherwise | app/services/slack_service.py:118-125 | without the flag, CRITICAL, HIGH and everything else get their own recommendations, each iff its severity |
| AlertFields.AlertIffNotRoutine | app/services/gemini_service.py:218-233 | an alert is due iff the recommendation is not the routine one |
| EmailAlert.SubjectPrefix | app/services/email_service.py:47-50 | the LOW prefix is used iff the severity is not CRITICAL, HIGH or MEDIUM |
| EmailAlert.SubjectDefaults | app/services/email_service.py:43-54 | an empty analysis gives the MEDIUM prefix, no flag, then the repository and the new version |
| EmailAlert.SubjectMarksMandatory | app/services/email_service.py:52-54 | for equal severities, two subjects are equal iff the mandatory flags are equal |
| EmailAlert.RepositoryLink | app/services/email_service.py:117 | an empty repository URL falls back to `https://github.com/` followed by the name |
| EmailAlert.CreateAlertEmail | app/services/email_service.py:25-128 | the message goes from the sender to the recipient; its subject opens with the severity's prefix, the `[MANDATORY]` marker when the upgrade is mandatory, and the repository name; its body holds the recommendation the precedence selects and the links section |
| EmailAlert.SubjectOpens | app/services/email_service.py:43-54 | the subject starts with the severity prefix, the flag and the repository name, and a mandatory upgrade's subject contains `[MANDATORY]` |
| EmailAlert.BodyRecommends | app/services/email_service.py:85-109 | the body holds the recommendation that the precedence selects |
| EmailAlert.BodyLinks | app/services/email_service.py:111-120 | the body holds the links section, which starts with the repository link |
| EmailAlert.SendAlert | app/services/email_service.py:130-162 | the result is the transport's verdict on the composed message |
| SlackAlert.Emoji | app/services/slack_service.py:36-45 | the lookup fails only for a severity that cannot be a dictionary key |
| SlackAlert.Color | app/services/slack_service.py:46-55 | the lookup fails only for a severity that cannot be a dictionary key |
| SlackAlert.UnknownSeverityDefaults | app/services/slack_service.py:36-55 | an unknown severity gets 📢 and `#2eb886`; a missing one is treated as MEDIUM |
| SlackAlert.AssembleLayout | app/services/slack_service.py:62-162 | the list is the four head blocks, the optional reasoning, a divider, the recommendation, the optional actions and the context |
| SlackAlert.BlockLayout | app/services/slack_service.py:20-164 | there are 7 to 9 blocks in the fixed order; the reasoning block is present iff the reasoning is non-empty, and the actions block iff the URL is non-empty |
| SlackAlert.FallbackMarksMandatory | app/services/slack_service.py:192-199 | for equal severities, two fallback texts are equal iff the mandatory flags are equal |
| SlackAlert.SendAlert | app/services/slack_service.py:166-218 | a disabled service sends nothing and fails; otherwise the result is true iff the POST answers 200 |
| Store.Coalesce | app/db/database.py:176-178 | a given value replaces the stored one, and None keeps it |
| Store.Upsert | app/db/database.py:147-199 | only the named row is added or changed, and the history is untouched |
| Store.UpsertRow | app/db/database.py:174-199 | a new name gets a row with the given fields; an existing name keeps its prior version, alerted version and severity where the argument is None, and always takes the URL, check time and mandatory flag, so an omitted flag resets it to false |
| Store.UpsertWellFormed | app/db/database.py:58 | an upsert keeps one row per name, keyed by that name |
| Store.LastAlertedNeverCleared | app/db/database.py:177 | a stored alerted version survives an upsert that omits it, and is only ever replaced by another value |
| Store.AddAlert | app/db/database.py:201-223 | exactly one row is appended with the given fields, earlier rows are unchanged, and the repositories table is untouched |
| Store.Lookup | app/db/database.py:88-118 | an absent name gives None; a present one gives its row |
| Store.AllRepositories | app/db/database.py:120-145 | every stored row is listed once, sorted by name |
| Store.Filter | app/db/database.py:237-256 | keeps exactly the rows of the named repository, or every row when the name is missing or empty |
| Store.SortNewestFirst | app/db/database.py:237-256 | a permutation of the rows, ordered by alert time, newest first |
| Store.Limit | app/db/database.py:237-256 | a prefix of at most `limit` rows; a negative limit keeps them all |
| Store.AlertHistoryQuery | app/db/database.py:225-258 | the answer holds only rows of the named repository, newest first, at most `limit` of them, and every omitted matching row is no newer than the ones kept |
| Store.Database.constructor | app/db/database.py:17-26 | the store starts with the given tables |
| Store.Database.GetRepository | app/db/database.py:88-118 | the stored row for the name, or None |
| Store.Database.UpsertRepository | app/db/database.py:147-199 | the new tables are the table-level upsert of the old ones |
| Store.Database.AddAlertHistory | app/db/database.py:201-223 | the new tables are the old ones with one history row appended |
| Store.Database.GetAlertHistory | app/db/database.py:225-258 | the rows returned are the filtered, sorted, limited query over the stored history |
| Monitor.UpdateCheck | app/services/repository_service.py:59-77 | the monitor's update check sends a `gitlab:` name to GitLab and a `github:` name to GitHub, each without its prefix and with the last version unchanged, and a bare name to GitHub as it is |
| Monitor.PageUrl | app/services/repository_service.py:79-95 | the monitor's repository URL is GitLab's page of the bare name for a `gitlab:` name, and GitHub's for a `github:` or bare name |
| Monitor.EmailChannel | app/services/email_service.py:130-162 | the monitor's e-mail attempt succeeds iff the transport delivers the message composed for that repository, versions, analysis and URL |
| Monitor.Analysis | app/monitor.py:92-98 | the analysis the monitor acts on is always usable |
| Monitor.UpdateErrorWritesNothing | app/monitor.py:45-51 | an error from the update check, or a rejected name, gives status `error` and writes nothing |
| Monitor.NoUpdateTouchesOnlyCheckTime | app/monitor.py:53-63 | no update gives status `no_update` and one upsert that sets the check time, resets the mandatory flag and keeps the version, alerted version, severity and history |
| Monitor.NewVersionRecordedFirst | app/monitor.py:66-77 | every detected version is stored as the last version by the first write, before any analysis, and later writes keep it |
| Monitor.FirstCheckSkipsAnalysis | app/monitor.py:80-87 | a first check records the version and returns `first_check`, without analysis or any channel |
| Monitor.ClassifiedUpdate | app/monitor.py:89-98 | a later update is analysed with the stored old version (`N/A` when there is none), the new version, the notes and the commits |
| Monitor.ConcludeShape | app/monitor.py:100-198 | after the analysis, the version is never written again, and the alerted version is written only for an alert that was sent |
| Monitor.SeverityStoredBeforeDecision | app/monitor.py:104-115 | severity and mandatory flag are stored first whatever follows; when no alert is due, the status is `update_detected_no_alert`, with no channel and no history row |
| Monitor.ChannelsAttempted | app/monitor.py:117-148 | when an alert is due, email is attempted iff email alerts are enabled and Slack iff Slack alerts and the service are enabled, each independently |
| Monitor.AlertSentIffSomeChannel | app/monitor.py:149-188 | when an alert is due, the status is `alert_sent` iff some channel succeeded (and the summary is a string), and `alert_failed` iff none did |
| Monitor.AlertSentWrites | app/monitor.py:151-179 | a sent alert sets the alerted version to the new version, resets the mandatory flag, and appends exactly one history row with the repository, version, severity, flag, summary and time |
| Monitor.AlertFailedKeepsAlertState | app/monitor.py:180-188 | a failed alert keeps the alerted version and appends no history row |
| Monitor.StepAppends | app/monitor.py:149-198 | a check appends one history row if its status is `alert_sent`, and none otherwise |
| Monitor.HistoryGrowsOnlyWhenSent | app/monitor.py:14-206 | after a check, the history is the old history extended by exactly one row iff the status is `alert_sent` |
| Monitor.CheckRepositoryUpdates | app/monitor.py:14-206 | the outcome and the effects are the decision `Step` on the old tables; the new tables are those effects replayed in order |
| Monitor.NewVersionFound | app/monitor.py:66-198 | for a detected version, the outcome and the writes are the decision `Decide` |
| Monitor.Deliver | app/monitor.py:100-198 | after the analysis, the outcome and the writes are the decision `Conclude` |
| Monitor.SendAlert | app/monitor.py:117-188 | for a due alert, the outcome and the writes are the decision `Alert` |
| Monitor.Notify | app/monitor.py:117-148 | each channel's result is its own attempt, false when it is switched off |
| Monitor.MarkAlerted | app/monitor.py:151-179 | the alerted version is stored, and the history row is appended iff the summary is a string |
| Monitor.RunAll | app/monitor.py:229-236 | one result per repository, in list order |
| Monitor.CountStatus | app/monitor.py:242-244 | a tally never exceeds the number of results |
| Monitor.TallyBounded | app/monitor.py:242-244 | the `alert_sent`, `no_update` and `error` tallies together never exceed the number of repositories |
| Monitor.BatchHistory | app/monitor.py:209-250 | over a batch, the history grows by exactly the number of `alert_sent` results, and earlier rows are kept |
| Monitor.CheckAllRepositories | app/monitor.py:209-250 | the results and the tables are those of checking each repository in order, and the tallies count the statuses |
| Monitor.RunEach | app/monitor.py:229-236 | the loop leaves the results and the tables of checking each repository in list order |
| Monitor.CountSent | app/monitor.py:242-244 | the loop counts the results with the given status |
| Webhook.Route | app/routes/api.py:212-300 | a check runs iff the payload names a monitored repository and is a published non-prerelease release or a created tag; an empty payload gives 400; "not monitored" is answered exactly for a truthy name outside the list |
| Webhook.MissingNameRejected | app/routes/api.py:235-242 | a payload without a usable `repository.full_name` gets 400, whatever the event |
| Webhook.PrefixedEntriesNeverMatch | app/routes/api.py:245-249 | when every monitored entry carries the `gitlab:` prefix and the payload name does not, no check runs |
| Webhook.OtherEventsNotProcessed | app/routes/api.py:291-294 | any other event type for a monitored repository gets 200 "not processed" and no check |
| Webhook.GithubWebhook | app/routes/api.py:223-300 | the route's decision is taken, and exactly when it is a check, the monitor's check runs once; otherwise the store is unchanged |

## Left out

- Network access is left out: `_make_request` and its rate-limit fields, Flask request parsing, SMTP, the Slack POST and the Gemini client. Their results are inputs to the model.
- JSON decoding and the regular expressions of `_extract_json_from_response` are left out. They are three partial functions, and only their order is modelled.
- SQLite connection, schema and transaction code is left out. The tables are a map and a sequence. The database-assigned `id` is modelled as the row count plus one.
- Wall-clock readings are inputs. There is one reading per check, so `last_checked` and `alerted_at` agree within a check.
- Rows with the same `alerted_at` come back from SQLite in an unspecified order. `Store.SortNewestFirst` fixes one order, and `Store.AlertHistoryQuery` states only what every order satisfies.
- `Store.AllRepositories` is a ghost function. It states the sorted listing but is not an executable query.
- The test helpers `send_test_email` and `send_test_message` are left out, as are the other Flask routes, the scheduler and start-up code in `main.py`, and environment reading.
- Console output is left out, but the one place where it can fail is kept. The summary slice in the status print raises on a non-sliceable summary, and the model returns an error there.
- Exception texts are left out. A list summary makes `add_alert_history` raise, and each such case is an error outcome (`Monitor.Failure`) rather than Python's message. A request body that is not JSON is `Webhook.BodyNotJson`.
- `str()` of a JSON array or object is approximated by a fixed placeholder. Only `str()` of strings, numbers, booleans and null matters to the model.
- JSON numbers are integers. The source never reads a floating-point value.
- Concurrency is left out. The scheduler and webhook can run checks at the same time without locking, but each check is modelled as running alone.
- Tag names are assumed not to contain newlines, which `$` in the semver regular expression would treat specially.
- Text.Lower, Versions.MatchesTagFilter and Versions.IsSemanticVersion are ASCII-only: `Text.Lower` lowercases only `A`-`Z` and `Text.IsDigit` accepts only `0`-`9`. Python's `str.lower()` lowercases every Unicode letter and `\d` matches every Unicode decimal digit, so tags and filter patterns are assumed to be ASCII.
- SemanticVersionShape: the three numbers are runs of ASCII digits; a tag whose numbers use other Unicode decimal digits (such as `١.٢.٣`) is semver-shaped to Python but not to the model.
- NoLeadingNumber: "does not start with a number" means no leading ASCII digit; a tag opening with another Unicode decimal digit is outside what the lemma covers.
- MatchesTagFilterMeaning: the case-insensitive comparison folds only ASCII letters; a tag such as `ÉTH-1.0.0` matches the pattern `éth` in Python but not in the model.

Where the code and the repository's own description differ, the model follows the code:

- The analysis prompt includes both the release notes and the commit messages when both are present. The description says notes take precedence.
- The upsert that records the alerted version omits `mandatory_upgrade`, so the flag is reset to false right after an alert. The description reads as if the flag were kept.
- When the summary is a list, the alerted version has already advanced by the time `add_alert_history` raises. So the check reports an error with `last_alerted_version` updated and no history row.
