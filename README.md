# hookrunner: the webhook-to-synchronisation pipeline in Dafny

hookrunner is a small server. It receives GitHub webhook deliveries and keeps
a local working copy of each pushed repository up to date. It also installs
and removes its own webhook through the GitHub API. This project models the
decision logic of that pipeline, one Dafny module per source file, and proves
what each piece promises:

- `RefTypes`, `RepositoryPaths` and `GitBackends` model the parsers of
  `refs/branches/X` and `refs/tags/X` references, of `owner/name` repository
  paths and of backend names.
- `Configuration` models the configuration object (a class whose setters
  update its fields) and the repository-mapping syntax
  `owner/name=path,owner2/name2=path2`.
- `RepoCloner` models the synchronisation orchestrator.
  - It resolves the target directory and builds the clone URL.
  - If the directory is absent, it clones.
  - If the directory is present, it fetches, checks out and pulls, stopping at
    the first failing call.
  - `GitServices` stands in for the git capability: a class that records every
    call and answers with canned results, like the fake in the source's tests.
- `ErrorCodes` maps each request error to its HTTP status, internal code and
  message.
- `SignatureGuard` models the middleware that checks the User-Agent and the
  `X-Hub-Signature-256` signature.
  - A `Request` class holds the body as a stream of chunks, which the guard
    drains in a loop and puts back as one buffer.
  - `Http` holds the header-value and body types the guard reads.
- `GitHubWebhook` models the event router: it dispatches on the event header,
  parses the body, validates the push fields and calls the orchestrator.
  `Events` holds the payload records.
- `WebhookRegistry` models webhook installation: find a hook by URL, create
  it when missing, delete it when present. The hosting side is a `HostingApi`
  class holding one repository's `(id, url)` hooks.

`Wrappers` (Option and Result) and `Strings` (split, join, last index,
ASCII lower-casing) are shared helpers.

Parameters stand in for the things the core only calls into:

- The HMAC-SHA256 check is a function parameter.
- The JSON reader and writer are a record of function parameters.
- The existence of directories on disk is a set of paths.
- The current directory is a path parameter.

## Model

| member | source | states |
|---|---|---|
| RefTypes.TryFrom | src/git/ref_type.rs:20-34 | accepts exactly the inputs starting with `refs/tags/` or `refs/branches/`; the variant's prefix followed by the stored name gives back the input; any other input fails with `UnsupportedRefType` carrying the input |
| RefTypes.FromStrIsTryFrom | src/git/ref_type.rs:36-50 | `FromStr` and `TryFrom` agree on every input |
| RefTypes.ParseTag | src/git/ref_type.rs:24-25 | `refs/tags/X` parses to `Tag(X)` |
| RefTypes.ParseBranch | src/git/ref_type.rs:26-29 | `refs/branches/X` parses to `Branch(X)` |
| RefTypes.PrintParse | src/git/ref_type.rs:11-34 | prefix plus `to_string` of any reference parses back to that reference |
| RefTypes.EmptyTagAccepted | src/git/ref_type.rs:24-25 | the suffix is not validated: `refs/tags/` alone is the empty tag |
| RefTypes.BranchAndTagPrintAlike | src/git/ref_type.rs:11-17 | `to_string` gives the bare name, the same for a branch and a tag |
| RefTypes.ToString | src/git/ref_type.rs:11-17 | the result is the stored name: the reference is the branch or the tag of that name |
| RepositoryPaths.New | src/git/repository_path.rs:12-41 | `new(s)` succeeds iff `s` holds exactly one `/`; then owner and name are the slash-free texts on either side; otherwise the error carries `s` |
| RepositoryPaths.FullName | src/git/repository_path.rs:29-31 | the owner, one `/`, then the name |
| RepositoryPaths.FullNameOfNew | src/git/repository_path.rs:29-31 | `full_name(new(s)) == s` for every accepted `s` |
| RepositoryPaths.NewOfFullName | src/git/repository_path.rs:12-41 | slash-free owner and name survive `full_name` and `new` |
| RepositoryPaths.EmptySegmentsAccepted | src/git/repository_path.rs:33-41 | `a/` and `/b` are accepted, with an empty name or owner |
| RepositoryPaths.MalformedExamples | src/git/repository_path.rs:33-41 | `sample` and `a/b/c` fail with `MalformedRepositoryPath` carrying the input |
| RepositoryPaths.FromStr | src/git/repository_path.rs:44-50 | `from_str` is `new` |
| GitBackends.FromStr | src/git/backend.rs:25-34 | `github` and `gitlab` in any case; otherwise a case-sensitive `custom:` prefix whose remainder is the URL; otherwise `UnsupportedGitBackend` with the lower-cased input |
| GitBackends.RootUrl | src/git/backend.rs:13-19 | `https://github.com` for GitHub, `https://gitlab.com` for GitLab, the given URL for a custom backend |
| GitBackends.CustomRoundTrip | src/git/backend.rs:13-34 | the root URL of `custom:u` is `u` |
| GitBackends.NamesIgnoreCase | src/git/backend.rs:26-28 | `GitHub` and `GITLAB` are recognised |
| GitBackends.CustomPrefixIsCaseSensitive | src/git/backend.rs:29-31 | `Custom:x` is refused, and the error carries `custom:x` |
| Strings.JoinSplit | src/config.rs:172-173 | the pieces of `split` joined with the separator give back the text |
| Strings.SplitCount | src/git/repository_path.rs:34 | `split` yields one more piece than there are separators |
| Strings.ToLower | src/git/backend.rs:26 | lower-casing keeps the length and maps each ASCII capital to its small letter |
| Configuration.IndexableIffEquals | src/config.rs:173-174 | an entry can be indexed at `[1]` iff it holds a `=`; the key and value are then free of `=` and `key=value` starts the entry |
| Configuration.ParseRepoMapping | src/config.rs:171-176 | fails (the source panics) iff some comma-separated entry has no `=`; otherwise the keys of the map are exactly the entries' keys |
| Configuration.ExtraEqualsIgnored | src/config.rs:173-174 | text after a second `=` is ignored |
| Configuration.CollectFailsIffUnindexable | src/config.rs:171-176 | parsing fails (the source panics) exactly when some entry has no `=` |
| Configuration.CollectKeys | src/config.rs:171-176 | the keys of the parsed map are exactly the entries' keys |
| Configuration.LaterEntryWins | src/config.rs:172 | with duplicate keys, the last entry carrying a key decides its path |
| Configuration.EmptyConfigurationFails | src/config.rs:171-176 | the empty string is one entry without `=`: parsing fails |
| Configuration.SingleEntry | src/config.rs:171-176 | `k=v` parses to `{k: v}` |
| Configuration.TwoEntries | src/config.rs:171-176 | `k1=v1,k2=v2` maps both keys, the second winning on a clash |
| Configuration.EnvToStr | src/config.rs:146-148 | an empty value is treated as absent, any other is kept |
| Configuration.EnvToRepoMapping | src/config.rs:164-169 | an absent or empty value gives the empty map, any other is parsed |
| Configuration.Config.Empty | src/config.rs:43-51 | no telemetry URL, no secret, no working directory, an empty mapping, the default API URL |
| Configuration.Config.SetGithubApiUrl | src/config.rs:73-75 | sets the API URL and nothing else |
| Configuration.Config.SetWorkingDir | src/config.rs:77-79 | sets the working directory and nothing else |
| Configuration.Config.SetTelemetryUrl | src/config.rs:81-83 | sets the telemetry URL and nothing else |
| Configuration.Config.SetWebhookSecret | src/config.rs:85-87 | sets the secret and nothing else |
| Configuration.Config.SetRepoMapping | src/config.rs:89-91 | replaces the whole mapping by the parsed one; reports the parse failure instead of panicking |
| Configuration.SettersAreIndependent | src/config.rs:73-91 | two setters in a row leave the other fields as they were |
| GitServices.GitService.CloneRepository | src/backends/github/http/mod.rs:143-156 | records the call with its arguments and answers the canned clone result |
| GitServices.GitService.Fetch | src/backends/github/http/mod.rs:167-169 | records the call and answers the canned fetch result |
| GitServices.GitService.Checkout | src/backends/github/http/mod.rs:162-165 | records the call and answers the canned checkout result |
| GitServices.GitService.Pull | src/backends/github/http/mod.rs:158-160 | records the call and answers the canned pull result |
| RepoCloner.GetWorkingDir | src/git/repo_cloner.rs:67-73 | the configured working directory, else the current one |
| RepoCloner.GetRepositoryTargetDir | src/git/repo_cloner.rs:75-85 | the mapped path when the full name is a key, else the working directory joined with the folder name |
| RepoCloner.TargetDirUsesFullName | src/git/repo_cloner.rs:18-19 | for a parsed mapping, a repository whose `owner/name` is a key of some entry syncs into that entry's path, any other into `<working dir>/<name>` |
| RepoCloner.RemoteUrlOfParsedPath | src/git/repo_cloner.rs:39-42 | the clone URL is the backend root, `/`, and the repository path as received |
| RepoCloner.Parent | src/git/repo_cloner.rs:52 | `parent()`: a prefix of the path as its components read it, empty exactly when it has no `/` |
| RepoCloner.FileName | src/git/repo_cloner.rs:46 | `file_name()`: the slash-free end of the path as its components read it |
| RepoCloner.FileStem | src/git/repo_cloner.rs:46 | `file_stem()`: a prefix of the name; when shorter, non-empty and cut just before a `.` |
| RepoCloner.Join | src/git/repo_cloner.rs:83 | `join()`: the base, at most one added `/`, then the name |
| RepoCloner.TrailingSlashIgnored | src/git/repo_cloner.rs:46-52 | `parent()` and `file_name()` read `p/` as `p` |
| RepoCloner.RepeatedSlashIgnored | src/git/repo_cloner.rs:46-52 | `parent()` and `file_name()` read `a//b` as `a/b` |
| RepoCloner.StemOfName | src/git/repo_cloner.rs:46 | `file_stem()` shortens exactly the names with a `.` after their first character (other than `..`), and keeps every other name |
| RepoCloner.StemCloneMissesTarget | src/git/repo_cloner.rs:46 | as written, for every normal target whose file name holds a `.` after its first character, the clone folder joined to the parent is not the target |
| RepoCloner.SiteIoClonedAsSite | src/git/repo_cloner.rs:46 | as written, target `/w/site.io` is cloned into `/w/site` |
| RepoCloner.PlainNameFoldersAgree | src/git/repo_cloner.rs:46 | without such a `.`, the folder as written is the file name |
| RepoCloner.CloneCreatesTarget | src/git/repo_cloner.rs:44-57 | with the file name as the folder, the clone creates exactly the target, for every normal target |
| RepoCloner.RunStopsAtFirstFailure | src/git/repo_cloner.rs:57-61 | the calls made are a prefix of the plan; success iff every planned call succeeds; otherwise the last call made is the first failure and its error is returned unchanged |
| RepoCloner.AsWrittenCloneMissesTarget | src/git/repo_cloner.rs:44-57 | the clone planned for an absent dotted target lands beside the target |
| RepoCloner.IntendedCloneCreatesTarget | src/git/repo_cloner.rs:44-57 | the clone of the intended plan lands on its target |
| RepoCloner.PlansAgreeOnPlainNames | src/git/repo_cloner.rs:44-61 | the plan as written and the intended one are equal iff the directory is present or the file name has no `.` after its first character |
| RepoCloner.AbsentClonesOnce | src/git/repo_cloner.rs:44-57 | absent directory: exactly one clone call, into the parent, with the bare reference name and the `file_stem` of the target as folder, and no fetch, checkout or pull |
| RepoCloner.PresentUpdatesInOrder | src/git/repo_cloner.rs:58-61 | present directory: fetch, checkout of the bare name, pull, in this order and never a clone, cut short at the first failure |
| RepoCloner.BranchAndTagSyncAlike | src/git/repo_cloner.rs:41 | a branch and a tag of one name drive git identically |
| RepoCloner.CreateOrUpdateInDirectory | src/git/repo_cloner.rs:32-65 | appends exactly the calls of the sync run as written (clone folder from `file_stem`) to the service's log and returns its result |
| RepoCloner.CreateOrUpdateUsingConfig | src/git/repo_cloner.rs:11-29 | the same run as written, in the directory the configuration resolves for the repository |
| ErrorCodes.WithStatusCode | src/error.rs:32-58 | the accessors return the status, code and message given |
| ErrorCodes.Display | src/error.rs:87-92 | `Display` writes exactly the detail message |
| ErrorCodes.CodeIdentifiesVariant | src/error.rs:61-85 | reading the internal code back gives the variant |
| ErrorCodes.CodesDistinct | src/error.rs:61-85 | two errors share an internal code iff they are the same variant |
| ErrorCodes.Details | src/error.rs:44-85 | status 400 for every variant except `UnhandledError`, which is 500; internal codes are 1 to 7, and 99 only for `UnhandledError` |
| ErrorCodes.MessagesQuoteTheirData | src/error.rs:70-79 | the unsupported-event and malformed-field messages quote their data as written |
| Http.ToStr | src/backends/github/http/middleware.rs:76 | a header value is text iff every byte is visible ASCII or a tab, and the text has the bytes' values |
| Http.BodyFrom | src/backends/github/http/middleware.rs:103 | a body re-made from a buffer holds the buffer's bytes |
| SignatureGuard.ExtractSignature | src/backends/github/http/middleware.rs:86-91 | the header text minus `sha256=`, or empty when the value is not text or lacks the prefix |
| SignatureGuard.Guard | src/backends/github/http/middleware.rs:66-116 | forwards iff the request is not a POST, or it comes from `GitHub-Hookshot/` and either no secret is set or the signature header is present and checks over the whole body; refuses the agent first, then the signature; a forwarded body holds the same bytes |
| SignatureGuard.Request.DrainBody | src/backends/github/http/middleware.rs:93-97 | the buffer holds every byte of the body, in order, and the stream is left empty |
| SignatureGuard.Call | src/backends/github/http/middleware.rs:66-116 | the verdict and the request's new body are those of `Guard` |
| SignatureGuard.UserAgentCheckedFirst | src/backends/github/http/middleware.rs:74-81 | a POST without GitHub's agent is refused for its agent, whatever the secret and signature |
| SignatureGuard.NoSecretSkipsSignature | src/backends/github/http/middleware.rs:84 | with no secret, GitHub's POST passes with its body untouched |
| SignatureGuard.MissingSignatureRejected | src/backends/github/http/middleware.rs:104-106 | with a secret and no signature header: `InvalidSignature` |
| SignatureGuard.PrefixStripped | src/backends/github/http/middleware.rs:86-91 | `sha256=` followed by text yields that text |
| SignatureGuard.SignedRequestVerdict | src/backends/github/http/middleware.rs:93-103 | a signed request passes iff the check accepts the signature over the whole body, and then keeps the same bytes; otherwise `InvalidSignature` |
| SignatureGuard.OtherMethodsPass | src/backends/github/http/middleware.rs:70 | requests other than POST pass unchanged |
| GitHubWebhook.EventName | src/backends/github/http/mod.rs:32-38 | a missing event header gives `MissingEventHeader`, a non-text one `MalformedEventHeader`, otherwise its text |
| GitHubWebhook.ParseBody | src/backends/github/http/mod.rs:46-48 | the parsed value, or `MalformedEventBody` with the parser's message |
| GitHubWebhook.ValidatePush | src/backends/github/http/mod.rs:61-65 | valid iff the reference and the full name both parse; a bad reference is reported on field `ref` first, then a bad full name on `repository.full_name`, each with the git error's text |
| GitHubWebhook.PingReply | src/backends/github/http/mod.rs:80-92 | a JSON reply whose body reads back as the ping event |
| GitHubWebhook.HandlePushEvent | src/backends/github/http/mod.rs:50-78 | the git calls and the answer are those of the push effect, with the sync run as written, for the configuration's mapping and working directory |
| GitHubWebhook.Webhook | src/backends/github/http/mod.rs:25-44 | the git calls and the answer are those of the webhook effect, with the sync run as written |
| GitHubWebhook.HeaderCheckedBeforeBody | src/backends/github/http/mod.rs:32-38 | header errors come before the body is read, and no git call is made |
| GitHubWebhook.OtherEventsUnsupported | src/backends/github/http/mod.rs:42 | any event other than `ping` and `push` is refused by name, whatever the body |
| GitHubWebhook.OnlyValidPushesCallGit | src/backends/github/http/mod.rs:40-75 | git is called only for a `push` whose body parses and whose fields are valid |
| GitHubWebhook.MalformedBodyReported | src/backends/github/http/mod.rs:40-48 | a body the parser refuses gives `MalformedEventBody` with its message, code 6 and status 400, and no git call |
| GitHubWebhook.PingEchoes | src/backends/github/http/mod.rs:80-92 | a ping is answered as JSON with the event written back, and makes no git call |
| GitHubWebhook.PushOutcome | src/backends/github/http/mod.rs:56-77 | a valid push succeeds iff every git call of the plan as written does, and then answers as JSON with the event written back; a git failure becomes `UnhandledError` with the git error's text, status 500 |
| GitHubWebhook.RefReportedFirst | src/backends/github/http/mod.rs:61-65 | when both fields are bad, `ref` is reported |
| GitHubWebhook.PushWithBareReference | src/backends/github/http/mod.rs:377-423 | ref `sample` gives `MalformedEventBodyField("ref", "Unsupported Git reference type: sample")` |
| GitHubWebhook.PushWithMalformedRepository | src/backends/github/http/mod.rs:425-471 | full name `sample` gives `MalformedEventBodyField("repository.full_name", "Malformed repository path: sample")` |
| GitHubWebhook.PushClonesMissingRepository | src/backends/github/http/mod.rs:473-519 | with an empty configuration and no folder: one clone of `https://github.com/Srynetix/things` at `sample`, nothing else, and the event echoed |
| GitHubWebhook.PushUpdatesExistingRepository | src/backends/github/http/mod.rs:521-572 | with the folder present in the working directory: fetch, checkout `sample`, pull, no clone, and the event echoed |
| WebhookRegistry.Decimal | src/backends/github/apiclient.rs:193 | the id's decimal text: digits that spell the id, with no leading zero |
| WebhookRegistry.Payload | src/backends/github/apiclient.rs:106-114 | a `web` hook with JSON content, no secret and push events only, for the given URL |
| WebhookRegistry.HooksUrl | src/backends/github/apiclient.rs:119 | the request goes under the configured API root and ends in `/hooks` |
| WebhookRegistry.HookUrl | src/backends/github/apiclient.rs:193 | the hooks URL, `/`, then a segment of digits spelling the id |
| WebhookRegistry.HookUrlIdentifiesHook | src/backends/github/apiclient.rs:193 | two hooks of one repository share a delete URL iff they share an id |
| WebhookRegistry.RequestPaths | src/backends/github/apiclient.rs:119 | `{root}/repos/owner/repo/hooks` and `{root}/repos/owner/repo/hooks/1234` |
| WebhookRegistry.FindWebhook | src/backends/github/apiclient.rs:168-181 | `None` iff no hook has the URL; otherwise the id of the first hook listed with it |
| WebhookRegistry.RemoveId | src/backends/github/apiclient.rs:183-210 | deleting an id keeps exactly the hooks with other ids |
| WebhookRegistry.RegisterPresent | src/backends/github/apiclient.rs:43-51 | a matching hook's id is returned and nothing is created |
| WebhookRegistry.RegisterAbsent | src/backends/github/apiclient.rs:52-53 | without a match, exactly one hook is created, with the fresh id returned, keeping ids unique |
| WebhookRegistry.RegisterIdempotent | src/backends/github/apiclient.rs:36-55 | a second registration of the same URL changes nothing and returns the same id |
| WebhookRegistry.TwoRegistrationsOneHook | src/backends/github/apiclient.rs:36-55 | two registrations of a new URL leave exactly one hook with it |
| WebhookRegistry.UnregisterAbsent | src/backends/github/apiclient.rs:66-74 | without a match, unregistering changes nothing |
| WebhookRegistry.UnregisterPresent | src/backends/github/apiclient.rs:64-65 | with a match and unique ids, exactly the first matching hook is deleted, the others kept in order |
| WebhookRegistry.RemoveListedId | src/backends/github/apiclient.rs:183-210 | deleting a listed id with unique ids removes that one position |
| WebhookRegistry.RegisterThenUnregister | src/backends/github/apiclient.rs:36-75 | unregistering a URL just registered restores the hooks |
| WebhookRegistry.HostingApi.List | src/backends/github/apiclient.rs:144-166 | records the list request; answers the hooks or the canned failure |
| WebhookRegistry.HostingApi.Create | src/backends/github/apiclient.rs:85-142 | records the create request; on success appends one hook with the fresh id and the payload's URL, keeping ids unique |
| WebhookRegistry.HostingApi.Delete | src/backends/github/apiclient.rs:183-210 | records the delete request; removes the hooks with that id, or fails on an unknown id or a canned failure |
| WebhookRegistry.CheckWebhookUrl | src/backends/github/apiclient.rs:168-181 | one list request, then the first hook with the URL; a list failure is returned as is |
| WebhookRegistry.TryRegisterWebhook | src/backends/github/apiclient.rs:36-55 | a list failure stops before any create; a match returns its id with no create; otherwise one create of the payload, returning the new id; the fresh-id counter moves only when a hook is created |
| WebhookRegistry.TryUnregisterWebhook | src/backends/github/apiclient.rs:57-75 | a list failure stops before any delete; no match is `Ok` with nothing changed; otherwise one delete of that id at `{root}/repos/{owner}/{repo}/hooks/{id}` |

## Left out

- HMAC-SHA256 (src/crypto.rs) is a function parameter, so the guard's verdict is stated relative to it. The panic of `hex::decode(...).unwrap()` on a non-hex signature lies inside that parameter and is not modelled.
- The git subprocess implementation (`GitExecutable`, src/git/service.rs) is not modelled. Only the capability and a recording service with canned answers are.
- The reqwest transport of the API client is not modelled: the client construction, timeout, basic authentication, status check and JSON decoding. Transport errors are the canned failures of `HostingApi`.
- `WebhookRegistry.HostingApi.Delete` treats an unknown id as a `404 Not Found` bad status. That is the hosting side's behaviour, not hookrunner's.
- JSON reading and writing are parameters, and `pretty_print_json` (logging only) is not modelled. `PushRoundTrips` and `PingRoundTrips` state what the echo lemmas assume of them.
- The handler receives the body as text. The UTF-8 check of the framework's `String` extractor happens before the handler and is not modelled.
- Startup is not modelled: `Config::from_env`, URL parsing of environment values, `ServerConfig`, `validate_configuration`, the command line, src/main.rs, logging, telemetry, the router and the server.
- The uninstall command in src/main.rs:48 passes the owner twice to `try_unregister_webhook`. The registry is modelled with its own contract; this call site is not.
- Async execution, the tower service plumbing and concurrent deliveries to one working directory are not modelled.
- The body-chunk errors that the middleware unwraps (src/backends/github/http/middleware.rs:96) are not modelled: chunks are plain byte sequences.
- Paths are `/`-separated strings. `Parent` and `FileName` read them as `Path::components` does for repeated and trailing `/` (`Components`); `Parent` returns that normalised text where Rust returns a slice of the original, which names the same directory. `.` and `..` components and the panics of `parent().unwrap()` and `file_stem().unwrap()` are not modelled. The existence check compares the path as given with the set of existing paths.
- `GitBackends.FromStr` lower-cases ASCII letters only; Rust's `to_lowercase` also folds non-ASCII letters.
- Ids and internal codes are unbounded naturals, not `u32`.
- URLs are their text; `Url` parsing and normalisation are not modelled.
- `Configuration.Config.SetRepoMapping` reports a malformed mapping with `false` and keeps the old map. The source panics there.
- The registry is one repository's hook list; the owner and repository appear only in the request URLs.

The code decides where it and its documentation differ: `RepositoryPath::new`
checks only that there are two pieces, so empty owners and names are accepted
(`RepositoryPaths.EmptySegmentsAccepted`).

## Findings

| source | as written | input that shows it | evidently intended | confidence | as-written member | corrected member |
|---|---|---|---|---|---|---|
| src/git/repo_cloner.rs:46 | the clone folder is `working_dir.file_stem()`, which drops the extension | target `/w/site.io` (repository `owner/site.io`): the clone creates `/w/site`, while later pushes find `/w/site.io` still absent and try to clone again | clone into the target's file name, so that the directory checked for existence is the one created | not executed | RepoCloner.AsWrittenCloneMissesTarget | RepoCloner.IntendedCloneCreatesTarget |

The orchestrator (`SyncPlan` and everything built on it: `CreateOrUpdateInDirectory`,
`CreateOrUpdateUsingConfig`, `HandlePushEvent`, `Webhook`) runs the code as
written. `SyncPlanIntended` is the corrected plan beside it, and
`PlansAgreeOnPlainNames` shows the two differ only for an absent target whose
file name holds a `.` after its first character (`SiteIoClonedAsSite` is that
input).
