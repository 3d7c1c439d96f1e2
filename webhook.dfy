/**
 * The GitHub webhook route: which inbound events start a check of a repository, and
 * what the route answers otherwise. Only the decision is modelled; the check it starts
 * is the monitor's `CheckRepositoryUpdates`.
 */
module Webhook {
  import opened Wrappers
  import opened JsonValue
  import Store
  import Monitor
  import Routing

  /** The route's answer. `RunCheck` answers 200 with the check's result; the others
      answer with their text under `error` or `message`. */
  datatype Decision =
    | BadRequest(error: string)
    | NotMonitored(message: string)
    | RunCheck(event: string, repo: string)
    | NotProcessed(message: string)
    | ServerError(error: string)

  /** The HTTP status of the answer. */
  function StatusCode(d: Decision): int {
    match d
    case BadRequest(_) => 400
    case ServerError(_) => 500
    case _ => 200
  }

  /** The answer's `success` field. */
  predicate Success(d: Decision) {
    d.RunCheck? || d.NotProcessed?
  }

  const NoPayload := "No payload received"
  const NoRepositoryName := "Repository name not found in payload"
  /** What the route reports when the request body is not JSON. */
  const BodyNotJson := "request body is not JSON"

  /** Python's name for the type of a decoded JSON value. */
  function TypeName(j: Json): string {
    match j
    case JNull => "NoneType"
    case JBool(_) => "bool"
    case JNumber(_) => "int"
    case JString(_) => "str"
    case JArray(_) => "list"
    case JObject(_) => "dict"
  }

  /** The `AttributeError` text of calling `.get` on a value that is not a dict. */
  function NoGet(j: Json): string {
    "'" + TypeName(j) + "' object has no attribute 'get'"
  }

  /** How `event_type` reads inside an f-string. */
  function EventText(eventType: Option<string>): string {
    if eventType.Some? then eventType.value else "None"
  }

  function Ignored(eventType: Option<string>): Decision {
    NotProcessed("Event " + EventText(eventType) + " received but not processed")
  }

  const EmptyObject: Json := JObject(map[])

  /** A release event that starts a check: action "published", a dict `release` (the
      default when absent) and no truthy `prerelease`. */
  predicate PublishedRelease(payload: map<string, Json>) {
    && Get(payload, "action", JNull) == JString("published")
    && Get(payload, "release", EmptyObject).JObject?
    && !Truthy(Get(Get(payload, "release", EmptyObject).fields, "prerelease", JNull))
  }

  /** A create event that starts a check. */
  predicate CreatedTag(payload: map<string, Json>) {
    Get(payload, "ref_type", JNull) == JString("tag")
  }

  /** The repository's `full_name` in a payload, when payload and repository are dicts. */
  predicate NamedBy(body: Option<Json>, name: string) {
    && body.Some? && body.value.JObject?
    && Get(body.value.fields, "repository", EmptyObject).JObject?
    && Get(Get(body.value.fields, "repository", EmptyObject).fields, "full_name", JNull) == JString(name)
  }

  /** `github_webhook()`: the answer to an event of type `eventType` (the `X-GitHub-Event`
      header) with body `body` (None when it is not JSON), given `MONITORED_REPOS`. */
  function Route(eventType: Option<string>, body: Option<Json>, monitored: seq<string>): (d: Decision)
    ensures d.RunCheck? <==>
      exists name :: name != "" && name in monitored && NamedBy(body, name)
        && ((eventType == Some("release") && PublishedRelease(body.value.fields))
            || (eventType == Some("create") && CreatedTag(body.value.fields)))
    ensures d.RunCheck? ==> NamedBy(body, d.repo) && d.repo in monitored
    ensures body.Some? && !Truthy(body.value) ==> d == BadRequest(NoPayload)
    ensures d.NotMonitored? <==>
      && body.Some? && body.value.JObject? && Truthy(body.value)
      && Get(body.value.fields, "repository", EmptyObject).JObject?
      && var fullName := Get(Get(body.value.fields, "repository", EmptyObject).fields, "full_name", JNull);
      && Truthy(fullName) && !(fullName.JString? && fullName.s in monitored)
  {
    if body.None? then ServerError(BodyNotJson)
    else
      var payload := body.value;
      if !Truthy(payload) then BadRequest(NoPayload)
      else if !payload.JObject? then ServerError(NoGet(payload))
      else
        var repository := Get(payload.fields, "repository", EmptyObject);
        if !repository.JObject? then ServerError(NoGet(repository))
        else
          var fullName := Get(repository.fields, "full_name", JNull);
          if !Truthy(fullName) then BadRequest(NoRepositoryName)
          else if !(fullName.JString? && fullName.s in monitored) then
            NotMonitored("Repository " + Str(fullName) + " is not monitored")
          else if eventType == Some("release") then
            if Get(payload.fields, "action", JNull) != JString("published") then Ignored(eventType)
            else
              var release := Get(payload.fields, "release", EmptyObject);
              if !release.JObject? then ServerError(NoGet(release))
              else if !Truthy(Get(release.fields, "prerelease", JNull)) then RunCheck("release_published", fullName.s)
              else Ignored(eventType)
          else if eventType == Some("create") && CreatedTag(payload.fields) then RunCheck("tag_created", fullName.s)
          else Ignored(eventType)
  }

  /** A payload without a usable repository name is refused with 400, never checked. */
  lemma MissingNameRejected(eventType: Option<string>, payload: map<string, Json>, monitored: seq<string>)
    requires |payload| > 0
    requires Get(payload, "repository", EmptyObject).JObject?
    requires !Truthy(Get(Get(payload, "repository", EmptyObject).fields, "full_name", JNull))
    ensures Route(eventType, Some(JObject(payload)), monitored) == BadRequest(NoRepositoryName)
    ensures StatusCode(Route(eventType, Some(JObject(payload)), monitored)) == 400
  {
  }

  /** Only exact members of the list are checked: a name configured with the GitLab
      prefix is never matched by a GitHub payload's plain `owner/repo` name. */
  lemma PrefixedEntriesNeverMatch(eventType: Option<string>, body: Option<Json>, monitored: seq<string>)
    requires forall i :: 0 <= i < |monitored| ==> Routing.GitLabPrefix <= monitored[i]
    requires forall name :: NamedBy(body, name) ==> !(Routing.GitLabPrefix <= name)
    ensures !Route(eventType, body, monitored).RunCheck?
  {
  }

  /** A prerelease, another action, another event type, or a non-tag ref: answered 200
      "not processed" (once the name is known and monitored), never checked. */
  lemma OtherEventsNotProcessed(eventType: Option<string>, payload: map<string, Json>, monitored: seq<string>, name: string)
    requires name != "" && name in monitored && NamedBy(Some(JObject(payload)), name)
    requires eventType != Some("release") && eventType != Some("create")
    ensures Route(eventType, Some(JObject(payload)), monitored) == Ignored(eventType)
    ensures Success(Route(eventType, Some(JObject(payload)), monitored))
  {
  }

  /** The route on a database: the one check it starts, if any, is the monitor's. */
  method GithubWebhook(db: Store.Database, env: Monitor.Env, eventType: Option<string>, body: Option<Json>,
                       monitored: seq<string>)
    returns (d: Decision, result: Option<Monitor.CheckResult>)
    requires db.Valid()
    modifies db
    ensures db.Valid()
    ensures d == Route(eventType, body, monitored)
    ensures result.Some? <==> d.RunCheck?
    ensures d.RunCheck? ==> result.value == Monitor.CheckResult(d.repo, Monitor.Step(old(db.Contents()), env, d.repo).0)
                            && db.Contents() == Monitor.After(old(db.Contents()), env, d.repo)
    ensures !d.RunCheck? ==> db.Contents() == old(db.Contents())
  {
    d := Route(eventType, body, monitored);
    if d.RunCheck? {
      var r, effects := Monitor.CheckRepositoryUpdates(db, env, d.repo);
      result := Some(r);
    } else {
      result := None;
    }
  }
}
