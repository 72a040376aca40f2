/**
 * The GitHub webhook handler (src/backends/github/http/mod.rs): dispatch on
 * the `X-GitHub-Event` header, parse the body, and for a push synchronise the
 * pushed repository into its target directory.
 */
module GitHubWebhook {

  import opened Wrappers
  import opened Http
  import opened ErrorCodes
  import opened Events
  import GitErrors
  import RefTypes
  import RepositoryPaths
  import opened GitBackends
  import opened GitServices
  import opened Configuration
  import opened RepoCloner

  const EventHeader: string := "x-github-event"

  /** A successful answer: response headers and the JSON body. */
  datatype Reply = Reply(headers: map<string, string>, body: string)

  /** Every successful answer is labelled as JSON. */
  const JsonHeaders: map<string, string> := map["content-type" := "application/json"]

  /** The event name: the header must be present and be text. */
  function EventName(headers: Headers): (r: Result<string, ErrorCode>)
    ensures EventHeader !in headers <==> r == Failure(MissingEventHeader)
    ensures r == Failure(MalformedEventHeader) <==>
      EventHeader in headers && ToStr(headers[EventHeader]).None?
    ensures r.Success? <==> EventHeader in headers && ToStr(headers[EventHeader]).Some?
    ensures r.Success? ==> r.value == ToStr(headers[EventHeader]).value
  {
    if EventHeader !in headers then Failure(MissingEventHeader)
    else match ToStr(headers[EventHeader])
      case None => Failure(MalformedEventHeader)
      case Some(name) => Success(name)
  }

  /** `parse_body`: a parser error becomes `MalformedEventBody` with the parser's text. */
  function ParseBody<T>(parse: string -> Result<T, string>, body: string): (r: Result<T, ErrorCode>)
    ensures r.Success? <==> parse(body).Success?
    ensures r.Success? ==> r.value == parse(body).value
    ensures r.Failure? ==> r.error == MalformedEventBody(parse(body).error)
  {
    match parse(body)
    case Success(v) => Success(v)
    case Failure(msg) => Failure(MalformedEventBody(msg))
  }

  /**
   * The two field checks of a push, `ref` first: the reference must be a
   * branch or tag reference and the full name must be `owner/name`.
   */
  function ValidatePush(ev: PushEvent): (r: Result<(RefTypes.RefType, RepositoryPaths.RepositoryPath), ErrorCode>)
    ensures r.Success? <==>
      RefTypes.TryFrom(ev.reference).Success? && RepositoryPaths.New(ev.repository.fullName).Success?
    ensures r.Success? ==>
      r.value.0 == RefTypes.TryFrom(ev.reference).value &&
      r.value.1 == RepositoryPaths.New(ev.repository.fullName).value
    ensures RefTypes.TryFrom(ev.reference).Failure? ==>
      r == Failure(MalformedEventBodyField("ref",
        GitErrors.Message(GitErrors.UnsupportedRefType(ev.reference))))
    ensures RefTypes.TryFrom(ev.reference).Success? && RepositoryPaths.New(ev.repository.fullName).Failure? ==>
      r == Failure(MalformedEventBodyField("repository.full_name",
        GitErrors.Message(GitErrors.MalformedRepositoryPath(ev.repository.fullName))))
  {
    match RefTypes.TryFrom(ev.reference)
    case Failure(e) => Failure(MalformedEventBodyField("ref", GitErrors.Message(e)))
    case Success(reference) =>
      match RepositoryPaths.New(ev.repository.fullName)
      case Failure(e) => Failure(MalformedEventBodyField("repository.full_name", GitErrors.Message(e)))
      case Success(repo) => Success((reference, repo))
  }

  /** `handle_ping_event`: echo the event back as JSON. */
  function PingReply(codec: JsonCodec, ev: PingEvent): (r: Reply)
    ensures r.headers == JsonHeaders
    ensures PingRoundTrips(codec) ==> codec.parsePing(r.body) == Success(ev)
  {
    Reply(JsonHeaders, codec.showPing(ev))
  }

  /**
   * `handle_push_event` as a function of the configuration, the directories
   * that exist and the git service's answers: the git calls made and the result.
   */
  function PushEffect(mapping: map<string, Path>, workingDir: Option<Path>, cwd: Path, disk: set<Path>,
                      resp: Responses, codec: JsonCodec, ev: PushEvent): (seq<GitCall>, Result<Reply, ErrorCode>)
  {
    match ValidatePush(ev)
    case Failure(e) => ([], Failure(e))
    case Success((reference, repo)) =>
      var target := TargetDir(mapping, workingDir, cwd, repo);
      var run := SyncRun(GitHub, repo, reference, target, disk, resp);
      if run.1.Failure? then (run.0, Failure(UnhandledError(GitErrors.Message(run.1.error))))
      else (run.0, Success(Reply(JsonHeaders, codec.showPush(ev))))
  }

  /** `webhook` as a function of the request and the environment: git calls made and the answer. */
  function WebhookEffect(headers: Headers, body: string, codec: JsonCodec,
                         mapping: map<string, Path>, workingDir: Option<Path>, cwd: Path,
                         disk: set<Path>, resp: Responses): (seq<GitCall>, Result<Reply, ErrorCode>)
  {
    match EventName(headers)
    case Failure(e) => ([], Failure(e))
    case Success(name) =>
      if name == "ping" then
        match ParseBody(codec.parsePing, body)
        case Failure(e) => ([], Failure(e))
        case Success(ev) => ([], Success(PingReply(codec, ev)))
      else if name == "push" then
        match ParseBody(codec.parsePush, body)
        case Failure(e) => ([], Failure(e))
        case Success(ev) => PushEffect(mapping, workingDir, cwd, disk, resp, codec, ev)
      else ([], Failure(UnsupportedEventHeader(name)))
  }

  /** `handle_push_event`. */
  method HandlePushEvent(config: Config, git: GitService, codec: JsonCodec, ev: PushEvent,
                         disk: set<Path>, cwd: Path) returns (r: Result<Reply, ErrorCode>)
    modifies git`log
    ensures var effect := PushEffect(config.repoMapping, config.workingDir, cwd, disk, git.responses, codec, ev);
      git.log == old(git.log) + effect.0 && r == effect.1
  {
    var checked := ValidatePush(ev);
    if checked.Failure? {
      return Failure(checked.error);
    }
    var (reference, repo) := checked.value;
    var res := CreateOrUpdateUsingConfig(config, git, GitHub, repo, reference, disk, cwd);
    if res.Failure? {
      return Failure(UnhandledError(GitErrors.Message(res.error)));
    }
    return Success(Reply(JsonHeaders, codec.showPush(ev)));
  }

  /** `webhook`. */
  method Webhook(config: Config, git: GitService, codec: JsonCodec, headers: Headers, body: string,
                 disk: set<Path>, cwd: Path) returns (r: Result<Reply, ErrorCode>)
    modifies git`log
    ensures var effect := WebhookEffect(headers, body, codec, config.repoMapping, config.workingDir,
                                        cwd, disk, git.responses);
      git.log == old(git.log) + effect.0 && r == effect.1
  {
    var name := EventName(headers);
    if name.Failure? {
      return Failure(name.error);
    }
    if name.value == "ping" {
      var ev := ParseBody(codec.parsePing, body);
      if ev.Failure? {
        return Failure(ev.error);
      }
      return Success(PingReply(codec, ev.value));
    } else if name.value == "push" {
      var ev := ParseBody(codec.parsePush, body);
      if ev.Failure? {
        return Failure(ev.error);
      }
      r := HandlePushEvent(config, git, codec, ev.value, disk, cwd);
    } else {
      return Failure(UnsupportedEventHeader(name.value));
    }
  }

  // ---------------------------------------------------------------------
  // Properties of the handler.

  /** Header problems are reported before the body is looked at, and touch no repository. */
  lemma HeaderCheckedBeforeBody(headers: Headers, body: string, codec: JsonCodec,
                                mapping: map<string, Path>, workingDir: Option<Path>, cwd: Path,
                                disk: set<Path>, resp: Responses)
    requires EventName(headers).Failure?
    ensures WebhookEffect(headers, body, codec, mapping, workingDir, cwd, disk, resp) ==
      ([], Failure(if EventHeader !in headers then MissingEventHeader else MalformedEventHeader))
  {
  }

  /** Any other event name is refused by name, whatever the body. */
  lemma OtherEventsUnsupported(headers: Headers, body: string, codec: JsonCodec,
                               mapping: map<string, Path>, workingDir: Option<Path>, cwd: Path,
                               disk: set<Path>, resp: Responses)
    requires EventName(headers).Success?
    requires EventName(headers).value != "ping" && EventName(headers).value != "push"
    ensures WebhookEffect(headers, body, codec, mapping, workingDir, cwd, disk, resp) ==
      ([], Failure(UnsupportedEventHeader(EventName(headers).value)))
  {
  }

  /**
   * Only a well-formed push event can reach git: every other request makes
   * no git call at all.
   */
  lemma OnlyValidPushesCallGit(headers: Headers, body: string, codec: JsonCodec,
                               mapping: map<string, Path>, workingDir: Option<Path>, cwd: Path,
                               disk: set<Path>, resp: Responses)
    requires WebhookEffect(headers, body, codec, mapping, workingDir, cwd, disk, resp).0 != []
    ensures EventName(headers) == Success("push")
    ensures codec.parsePush(body).Success?
    ensures ValidatePush(codec.parsePush(body).value).Success?
  {
  }

  /** A body the parser refuses is reported with the parser's own message, as a bad request. */
  lemma MalformedBodyReported(headers: Headers, body: string, codec: JsonCodec,
                              mapping: map<string, Path>, workingDir: Option<Path>, cwd: Path,
                              disk: set<Path>, resp: Responses)
    requires EventName(headers) == Success("ping") || EventName(headers) == Success("push")
    requires EventName(headers) == Success("ping") ==> codec.parsePing(body).Failure?
    requires EventName(headers) == Success("push") ==> codec.parsePush(body).Failure?
    ensures var r := WebhookEffect(headers, body, codec, mapping, workingDir, cwd, disk, resp);
      r.0 == [] && r.1.Failure? &&
      r.1.error == MalformedEventBody(
        if EventName(headers) == Success("ping") then codec.parsePing(body).error
        else codec.parsePush(body).error) &&
      StatusCode(Details(r.1.error)) == BadRequest && InternalCode(Details(r.1.error)) == 6
  {
  }

  /** A ping is answered with the event written back, and never touches git. */
  lemma PingEchoes(headers: Headers, body: string, codec: JsonCodec,
                   mapping: map<string, Path>, workingDir: Option<Path>, cwd: Path,
                   disk: set<Path>, resp: Responses)
    requires EventName(headers) == Success("ping")
    requires PingRoundTrips(codec)
    requires codec.parsePing(body).Success?
    ensures var r := WebhookEffect(headers, body, codec, mapping, workingDir, cwd, disk, resp);
      r.0 == [] && r.1.Success? && r.1.value.headers == JsonHeaders &&
      codec.parsePing(r.1.value.body) == codec.parsePing(body)
  {
  }

  /**
   * A valid push is answered with the event written back exactly when the
   * synchronisation succeeds; a git failure is an unhandled error (status 500)
   * carrying the git error's text.
   */
  lemma {:induction false} PushOutcome(mapping: map<string, Path>, workingDir: Option<Path>, cwd: Path,
                                        disk: set<Path>, resp: Responses, codec: JsonCodec, ev: PushEvent)
    requires PushRoundTrips(codec)
    requires ValidatePush(ev).Success?
    ensures var reference := ValidatePush(ev).value.0;
      var repo := ValidatePush(ev).value.1;
      var target := TargetDir(mapping, workingDir, cwd, repo);
      var plan := SyncPlan(target in disk, target, RefTypes.ToString(reference), RemoteUrl(GitHub, repo));
      var r := PushEffect(mapping, workingDir, cwd, disk, resp, codec, ev);
      && r.0 <= plan
      && (r.1.Success? <==> forall i :: 0 <= i < |plan| ==> ResponseTo(resp, plan[i]).Success?)
      && (r.1.Success? ==> r.0 == plan && r.1.value.headers == JsonHeaders &&
                           codec.parsePush(r.1.value.body) == Success(ev))
      && (r.1.Failure? ==>
            |r.0| > 0 && ResponseTo(resp, r.0[|r.0| - 1]).Failure? &&
            r.1.error == UnhandledError(GitErrors.Message(ResponseTo(resp, r.0[|r.0| - 1]).error)) &&
            StatusCode(Details(r.1.error)) == InternalServerError)
  {
    var reference := ValidatePush(ev).value.0;
    var repo := ValidatePush(ev).value.1;
    var target := TargetDir(mapping, workingDir, cwd, repo);
    var plan := SyncPlan(target in disk, target, RefTypes.ToString(reference), RemoteUrl(GitHub, repo));
    RunStopsAtFirstFailure(plan, resp);
  }

  /** When both fields are malformed, the reference is the one reported. */
  lemma RefReportedFirst(ev: PushEvent)
    requires RefTypes.TryFrom(ev.reference).Failure?
    requires RepositoryPaths.New(ev.repository.fullName).Failure?
    ensures ValidatePush(ev).error.field == "ref"
  {
  }

  // ---------------------------------------------------------------------
  // The handler's test scenarios, on a push request carrying `ev`.

  function SamplePush(reference: string, fullName: string): PushEvent
  {
    PushEvent(reference, reference, Commit("sample", "sample"),
              Repository(fullName, "sample"), CommitUser("sample", "sample"))
  }

  function PushHeaders(): Headers
  {
    map[EventHeader := FromText("push"), "user-agent" := FromText("GitHub-Hookshot/value")]
  }

  /** A reference that is neither a branch nor a tag is refused by field name, before any git call. */
  lemma PushWithBareReference(body: string, codec: JsonCodec, cwd: Path, disk: set<Path>, resp: Responses)
    requires codec.parsePush(body) == Success(SamplePush("sample", "sample"))
    ensures WebhookEffect(PushHeaders(), body, codec, map[], None, cwd, disk, resp) ==
      ([], Failure(MalformedEventBodyField("ref", "Unsupported Git reference type: sample")))
  {
    assert EventName(PushHeaders()) == Success("push");
    assert !(RefTypes.TagPrefix <= "sample") && !(RefTypes.BranchPrefix <= "sample");
    assert RefTypes.TryFrom("sample") == Failure(GitErrors.UnsupportedRefType("sample"));
    assert GitErrors.Message(GitErrors.UnsupportedRefType("sample")) == "Unsupported Git reference type: sample";
    assert ValidatePush(SamplePush("sample", "sample")) ==
      Failure(MalformedEventBodyField("ref", "Unsupported Git reference type: sample"));
  }

  /** A full name without a slash is refused by field name, before any git call. */
  lemma PushWithMalformedRepository(body: string, codec: JsonCodec, cwd: Path, disk: set<Path>, resp: Responses)
    requires codec.parsePush(body) == Success(SamplePush("refs/branches/sample", "sample"))
    ensures WebhookEffect(PushHeaders(), body, codec, map[], None, cwd, disk, resp) ==
      ([], Failure(MalformedEventBodyField("repository.full_name", "Malformed repository path: sample")))
  {
    assert EventName(PushHeaders()) == Success("push");
    SampleRepositoryRefused();
  }

  lemma SampleRepositoryRefused()
    ensures ValidatePush(SamplePush("refs/branches/sample", "sample")) ==
      Failure(MalformedEventBodyField("repository.full_name", "Malformed repository path: sample"))
  {
    SampleBranchParses();
    RepositoryPaths.MalformedExamples();
    assert GitErrors.Message(GitErrors.MalformedRepositoryPath("sample")) == "Malformed repository path: sample";
  }

  lemma SampleBranchParses()
    ensures RefTypes.TryFrom("refs/branches/sample") == Success(RefTypes.Branch("sample"))
  {
    RefTypes.ParseBranch("sample");
    assert RefTypes.BranchPrefix + "sample" == "refs/branches/sample";
  }

  /** The push of `refs/branches/sample` to `Srynetix/things`. */
  function ThingsPush(): PushEvent
  {
    PushEvent("refs/branches/sample", "refs/branches/sample", Commit("sample", "sample"),
              Repository("Srynetix/things", "things"), CommitUser("sample", "sample"))
  }

  lemma ThingsPushValid()
    ensures ValidatePush(ThingsPush()) ==
      Success((RefTypes.Branch("sample"), RepositoryPaths.RepositoryPath("Srynetix", "things")))
  {
    SampleBranchParses();
    var p := RepositoryPaths.RepositoryPath("Srynetix", "things");
    RepositoryPaths.NewOfFullName(p);
    assert RepositoryPaths.FullName(p) == "Srynetix/things";
  }

  lemma ThingsRemoteUrl()
    ensures RemoteUrl(GitHub, RepositoryPaths.RepositoryPath("Srynetix", "things")) ==
      "https://github.com/Srynetix/things"
  {
  }

  /**
   * No mapping and no working directory, and the repository's folder does not
   * exist under the current directory: one clone from GitHub, no fetch,
   * checkout or pull, and the event is echoed back.
   */
  lemma PushClonesMissingRepository(body: string, codec: JsonCodec, cwd: Path, disk: set<Path>)
    requires codec.parsePush(body) == Success(ThingsPush())
    requires PushRoundTrips(codec)
    requires Join(cwd, "things") !in disk
    ensures var target := Join(cwd, "things");
      var r := WebhookEffect(PushHeaders(), body, codec, map[], None, cwd, disk, AllOk);
      r.0 == [GitCall.CloneRepository(Parent(target), "sample", "https://github.com/Srynetix/things",
                                      CloneFolderAsWritten(target))] &&
      r.1.Success? && codec.parsePush(r.1.value.body) == Success(ThingsPush())
  {
    assert EventName(PushHeaders()) == Success("push");
    ThingsPushValid();
    ThingsRemoteUrl();
    AbsentClonesOnce(Join(cwd, "things"), "sample", "https://github.com/Srynetix/things", AllOk);
  }

  /**
   * A working directory is configured and the repository's folder exists in
   * it: fetch, checkout of the bare branch name and pull in that folder, no
   * clone, and the event is echoed back.
   */
  lemma PushUpdatesExistingRepository(body: string, codec: JsonCodec, workingDir: Path, cwd: Path,
                                      disk: set<Path>)
    requires codec.parsePush(body) == Success(ThingsPush())
    requires PushRoundTrips(codec)
    requires Join(workingDir, "things") in disk
    ensures var target := Join(workingDir, "things");
      var r := WebhookEffect(PushHeaders(), body, codec, map[], Some(workingDir), cwd, disk, AllOk);
      r.0 == [GitCall.Fetch(target), GitCall.Checkout(target, "sample"), GitCall.Pull(target)] &&
      r.1.Success? && codec.parsePush(r.1.value.body) == Success(ThingsPush())
  {
    assert EventName(PushHeaders()) == Success("push");
    ThingsPushValid();
    var repo := RepositoryPaths.RepositoryPath("Srynetix", "things");
    PresentUpdatesInOrder(Join(workingDir, "things"), "sample", RemoteUrl(GitHub, repo), AllOk);
  }
}
