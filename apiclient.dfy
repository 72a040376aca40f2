/**
 * Webhook installation on GitHub (src/backends/github/apiclient.rs): list the
 * hooks of a repository, find one by URL, create it when missing, delete it
 * when present. The hosting side is a registry of `(id, url)` hooks that
 * answers the three requests; the HTTP transport is not modelled.
 */
module WebhookRegistry {

  import opened Wrappers
  import opened Configuration

  /** `GitHubError`; each variant carries the transport's error text. */
  datatype GitHubError =
    | CouldNotRegisterWebhook(cause: string)
    | CouldNotListWebhooks(cause: string)
    | CouldNotUnregisterWebhook(cause: string)
    | BadStatusCode(cause: string)
    | MalformedResponse(cause: string)

  /** A listed hook: its id and its `config.url`. */
  datatype Webhook = Webhook(id: nat, url: string)

  datatype HookConfig = HookConfig(url: string, contentType: string, secret: Option<string>)

  /** The body of the create request. */
  datatype RegisterPayload = RegisterPayload(name: string, config: HookConfig, events: seq<string>)

  /** A request sent to the hosting API. */
  datatype ApiRequest =
    | ListHooks(url: string)
    | CreateHook(url: string, payload: RegisterPayload)
    | DeleteHook(url: string)

  /** The payload registering `url`: a `web` hook, JSON content, no secret, push events only. */
  function Payload(url: string): (p: RegisterPayload)
    ensures p.name == "web" && p.events == ["push"]
    ensures p.config == HookConfig(url, "json", None)
  {
    RegisterPayload("web", HookConfig(url, "json", None), ["push"])
  }

  /** `{root}/repos/{owner}/{repo}/hooks`: under the configured API root, ending in `/hooks`. */
  function HooksUrl(root: Url, owner: string, repo: string): (u: Url)
    ensures root <= u && |u| >= |root| + 6 && u[|u| - 6..] == "/hooks"
  {
    root + "/repos/" + owner + "/" + repo + "/hooks"
  }

  /** `{root}/repos/{owner}/{repo}/hooks/{id}`: the hooks URL, then a segment of digits spelling the id. */
  function HookUrl(root: Url, owner: string, repo: string, id: nat): (u: Url)
    ensures var prefix := HooksUrl(root, owner, repo) + "/";
      && prefix <= u
      && (forall i :: |prefix| <= i < |u| ==> '0' <= u[i] <= '9')
      && DigitsValue(u[|prefix|..]) == id
  {
    HooksUrl(root, owner, repo) + "/" + Decimal(id)
  }

  function Digit(d: nat): (c: char)
    requires d < 10
    ensures '0' <= c <= '9'
  {
    (48 + d) as char
  }

  /** The number a text of decimal digits spells. */
  function DigitsValue(s: string): nat
    requires forall i :: 0 <= i < |s| ==> '0' <= s[i] <= '9'
  {
    if s == [] then 0
    else DigitsValue(s[..|s| - 1]) * 10 + (s[|s| - 1] as int - 48)
  }

  /**
   * The decimal text of a number, as `format!` writes it: digits that spell
   * the number, with no leading zero.
   */
  function Decimal(n: nat): (s: string)
    ensures |s| >= 1
    ensures forall i :: 0 <= i < |s| ==> '0' <= s[i] <= '9'
    ensures DigitsValue(s) == n
    ensures n > 0 ==> s[0] != '0'
  {
    if n < 10 then [Digit(n)] else Decimal(n / 10) + [Digit(n % 10)]
  }

  /** The request paths of the client's tests. */
  lemma RequestPaths(root: Url)
    ensures HooksUrl(root, "owner", "repo") == root + "/repos/owner/repo/hooks"
    ensures HookUrl(root, "owner", "repo", 1234) == root + "/repos/owner/repo/hooks/1234"
  {
    DecimalExample();
  }

  /** Distinct hooks of one repository are deleted at distinct URLs. */
  lemma HookUrlIdentifiesHook(root: Url, owner: string, repo: string, a: nat, b: nat)
    ensures HookUrl(root, owner, repo, a) == HookUrl(root, owner, repo, b) <==> a == b
  {
    var prefix := HooksUrl(root, owner, repo) + "/";
    if HookUrl(root, owner, repo, a) == HookUrl(root, owner, repo, b) {
      assert HookUrl(root, owner, repo, a)[|prefix|..] == HookUrl(root, owner, repo, b)[|prefix|..];
    }
  }

  lemma DecimalExample()
    ensures Decimal(1234) == "1234"
  {
    assert Decimal(1) == "1";
    assert Decimal(12) == Decimal(1) + ['2'];
    assert Decimal(123) == Decimal(12) + ['3'];
    assert Decimal(1234) == Decimal(123) + ['4'];
  }

  // ---------------------------------------------------------------------
  // The decisions, on the listed hooks.

  /** `check_webhook_url`'s search: the id of the first hook listed with this URL. */
  function FindWebhook(hooks: seq<Webhook>, url: string): (r: Option<nat>)
    ensures r.None? <==> forall i :: 0 <= i < |hooks| ==> hooks[i].url != url
    ensures r.Some? ==> exists i :: 0 <= i < |hooks| && hooks[i] == Webhook(r.value, url) &&
                                    forall j :: 0 <= j < i ==> hooks[j].url != url
  {
    if hooks == [] then None
    else if hooks[0].url == url then Some(hooks[0].id)
    else
      var r := FindWebhook(hooks[1..], url);
      if r.Some? then
        ghost var i :| 0 <= i < |hooks[1..]| && hooks[1..][i] == Webhook(r.value, url) &&
                       forall j :: 0 <= j < i ==> hooks[1..][j].url != url;
        assert hooks[i + 1] == Webhook(r.value, url);
        r
      else r
  }

  /** How many hooks are listed with this URL. */
  function CountUrl(hooks: seq<Webhook>, url: string): nat
  {
    if hooks == [] then 0 else (if hooks[0].url == url then 1 else 0) + CountUrl(hooks[1..], url)
  }

  /** Hooks with this id removed, the others kept in order. */
  function RemoveId(hooks: seq<Webhook>, id: nat): (r: seq<Webhook>)
    ensures forall w :: w in r <==> w in hooks && w.id != id
  {
    if hooks == [] then []
    else if hooks[0].id == id then RemoveId(hooks[1..], id)
    else [hooks[0]] + RemoveId(hooks[1..], id)
  }

  /** No two listed hooks share an id, and every id is below `nextId`. */
  predicate IdsBelow(hooks: seq<Webhook>, nextId: nat)
  {
    && (forall i :: 0 <= i < |hooks| ==> hooks[i].id < nextId)
    && (forall i, j :: 0 <= i < j < |hooks| ==> hooks[i].id != hooks[j].id)
  }

  /**
   * `try_register_webhook` against hooks whose next fresh id is `nextId`:
   * the hooks afterwards and the id returned.
   */
  function RegisterEffect(hooks: seq<Webhook>, nextId: nat, url: string): (seq<Webhook>, nat)
  {
    match FindWebhook(hooks, url)
    case Some(id) => (hooks, id)
    case None => (hooks + [Webhook(nextId, url)], nextId)
  }

  /** `try_unregister_webhook`: the hooks afterwards. */
  function UnregisterEffect(hooks: seq<Webhook>, url: string): seq<Webhook>
  {
    match FindWebhook(hooks, url)
    case Some(id) => RemoveId(hooks, id)
    case None => hooks
  }

  // ---------------------------------------------------------------------
  // Properties of the decisions.

  lemma {:induction false} CountUrlZero(hooks: seq<Webhook>, url: string)
    ensures CountUrl(hooks, url) == 0 <==> forall i :: 0 <= i < |hooks| ==> hooks[i].url != url
  {
    if hooks != [] {
      CountUrlZero(hooks[1..], url);
      assert forall i :: 1 <= i < |hooks| ==> hooks[i] == hooks[1..][i - 1];
    }
  }

  lemma {:induction false} CountUrlAppend(hooks: seq<Webhook>, w: Webhook, url: string)
    ensures CountUrl(hooks + [w], url) == CountUrl(hooks, url) + (if w.url == url then 1 else 0)
  {
    if hooks == [] {
      assert [] + [w] == [w];
    } else {
      assert (hooks + [w])[1..] == hooks[1..] + [w];
      CountUrlAppend(hooks[1..], w, url);
    }
  }

  /** A matching hook is returned as is and nothing is created. */
  lemma RegisterPresent(hooks: seq<Webhook>, nextId: nat, url: string)
    requires exists i :: 0 <= i < |hooks| && hooks[i].url == url
    ensures RegisterEffect(hooks, nextId, url).0 == hooks
    ensures RegisterEffect(hooks, nextId, url).1 == FindWebhook(hooks, url).value
  {
  }

  /** Without a match, exactly one hook is created, with the fresh id that is returned. */
  lemma {:induction false} RegisterAbsent(hooks: seq<Webhook>, nextId: nat, url: string)
    requires forall i :: 0 <= i < |hooks| ==> hooks[i].url != url
    requires IdsBelow(hooks, nextId)
    ensures RegisterEffect(hooks, nextId, url) == (hooks + [Webhook(nextId, url)], nextId)
    ensures IdsBelow(RegisterEffect(hooks, nextId, url).0, nextId + 1)
    ensures CountUrl(RegisterEffect(hooks, nextId, url).0, url) == 1
  {
    CountUrlZero(hooks, url);
    CountUrlAppend(hooks, Webhook(nextId, url), url);
  }

  /**
   * Registering twice is registering once: the second call finds the hook the
   * first one left and returns the same id, so at most one hook per URL is
   * ever created.
   */
  lemma {:induction false} RegisterIdempotent(hooks: seq<Webhook>, nextId: nat, nextId2: nat, url: string)
    ensures var (after, id) := RegisterEffect(hooks, nextId, url);
      RegisterEffect(after, nextId2, url) == (after, id)
  {
    match FindWebhook(hooks, url)
    case Some(id) =>
    case None =>
      var after := hooks + [Webhook(nextId, url)];
      assert after[|hooks|].url == url;
      assert FindWebhook(after, url) == Some(nextId) by {
        var r := FindWebhook(after, url);
        assert r.Some?;
        var i :| 0 <= i < |after| && after[i] == Webhook(r.value, url) &&
                 forall j :: 0 <= j < i ==> after[j].url != url;
        assert i == |hooks|;
      }
  }

  /** Two registrations of a new URL leave exactly one hook with that URL. */
  lemma TwoRegistrationsOneHook(hooks: seq<Webhook>, nextId: nat, nextId2: nat, url: string)
    requires forall i :: 0 <= i < |hooks| ==> hooks[i].url != url
    requires IdsBelow(hooks, nextId)
    ensures var first := RegisterEffect(hooks, nextId, url).0;
      CountUrl(RegisterEffect(first, nextId2, url).0, url) == 1
  {
    RegisterAbsent(hooks, nextId, url);
    RegisterIdempotent(hooks, nextId, nextId2, url);
  }

  /** Without a match, unregistering changes nothing. */
  lemma UnregisterAbsent(hooks: seq<Webhook>, url: string)
    requires forall i :: 0 <= i < |hooks| ==> hooks[i].url != url
    ensures UnregisterEffect(hooks, url) == hooks
  {
  }

  /** Removing a listed id with unique ids drops exactly that one hook. */
  lemma {:induction false} RemoveListedId(hooks: seq<Webhook>, k: nat)
    requires k < |hooks|
    requires forall i, j :: 0 <= i < j < |hooks| ==> hooks[i].id != hooks[j].id
    ensures RemoveId(hooks, hooks[k].id) == hooks[..k] + hooks[k + 1..]
  {
    var rest := hooks[1..];
    TailIdsDistinct(hooks);
    if k == 0 {
      forall j | 0 <= j < |rest| ensures rest[j].id != hooks[0].id {
        assert rest[j] == hooks[j + 1];
      }
      RemoveAbsentId(rest, hooks[0].id);
    } else {
      assert rest[k - 1] == hooks[k];
      assert hooks[0].id != hooks[k].id;
      RemoveListedId(rest, k - 1);
      assert RemoveId(hooks, hooks[k].id) == [hooks[0]] + (rest[..k - 1] + rest[k..]);
      SpliceTail(hooks, k);
    }
  }

  lemma TailIdsDistinct(hooks: seq<Webhook>)
    requires hooks != []
    requires forall i, j :: 0 <= i < j < |hooks| ==> hooks[i].id != hooks[j].id
    ensures forall i, j :: 0 <= i < j < |hooks[1..]| ==> hooks[1..][i].id != hooks[1..][j].id
  {
    forall i, j | 0 <= i < j < |hooks[1..]| ensures hooks[1..][i].id != hooks[1..][j].id {
      assert hooks[1..][i] == hooks[i + 1] && hooks[1..][j] == hooks[j + 1];
    }
  }

  lemma SpliceTail<T>(s: seq<T>, k: nat)
    requires 0 < k < |s|
    ensures [s[0]] + (s[1..][..k - 1] + s[1..][k..]) == s[..k] + s[k + 1..]
  {
    assert [s[0]] + s[1..][..k - 1] == s[..k];
    assert s[1..][k..] == s[k + 1..];
  }

  lemma {:induction false} RemoveAbsentId(hooks: seq<Webhook>, id: nat)
    requires forall i :: 0 <= i < |hooks| ==> hooks[i].id != id
    ensures RemoveId(hooks, id) == hooks
  {
    if hooks != [] {
      assert forall i :: 0 <= i < |hooks[1..]| ==> hooks[1..][i].id != id by {
        forall i | 0 <= i < |hooks[1..]| ensures hooks[1..][i].id != id {
          assert hooks[1..][i] == hooks[i + 1];
        }
      }
      RemoveAbsentId(hooks[1..], id);
      assert hooks == [hooks[0]] + hooks[1..];
    }
  }

  /**
   * With a match and unique ids, unregistering deletes exactly the first
   * matching hook and keeps the others in order.
   */
  lemma UnregisterPresent(hooks: seq<Webhook>, url: string)
    requires FindWebhook(hooks, url).Some?
    requires forall i, j :: 0 <= i < j < |hooks| ==> hooks[i].id != hooks[j].id
    ensures exists k :: (0 <= k < |hooks| && hooks[k] == Webhook(FindWebhook(hooks, url).value, url) &&
                         UnregisterEffect(hooks, url) == hooks[..k] + hooks[k + 1..])
  {
    var id := FindWebhook(hooks, url).value;
    var k :| 0 <= k < |hooks| && hooks[k] == Webhook(id, url) &&
             forall j :: 0 <= j < k ==> hooks[j].url != url;
    RemoveListedId(hooks, k);
  }

  /** Unregistering what was just registered restores the hooks. */
  lemma RegisterThenUnregister(hooks: seq<Webhook>, nextId: nat, url: string)
    requires forall i :: 0 <= i < |hooks| ==> hooks[i].url != url
    requires IdsBelow(hooks, nextId)
    ensures UnregisterEffect(RegisterEffect(hooks, nextId, url).0, url) == hooks
  {
    var after := hooks + [Webhook(nextId, url)];
    RegisterIdempotent(hooks, nextId, nextId, url);
    assert FindWebhook(after, url) == Some(nextId);
    RemoveListedId(after, |hooks|);
    assert after[..|hooks|] == hooks;
  }

  // ---------------------------------------------------------------------
  // The hosting side and the client.

  /** Canned failures for each kind of request; `None` lets the request through. */
  datatype Failures = Failures(list: Option<GitHubError>, create: Option<GitHubError>,
                               delete: Option<GitHubError>)

  /** One repository's hooks as the hosting API holds them, and the requests it received. */
  class HostingApi {
    var hooks: seq<Webhook>
    var nextId: nat
    var requests: seq<ApiRequest>
    const failures: Failures

    predicate Valid()
      reads this`hooks, this`nextId
    {
      IdsBelow(hooks, nextId)
    }

    constructor (hooks: seq<Webhook>, nextId: nat, failures: Failures)
      requires IdsBelow(hooks, nextId)
      ensures this.hooks == hooks && this.nextId == nextId && this.failures == failures
      ensures requests == [] && Valid()
    {
      this.hooks := hooks;
      this.nextId := nextId;
      this.failures := failures;
      requests := [];
    }

    /** `GET .../hooks`. */
    method List(url: Url) returns (r: Result<seq<Webhook>, GitHubError>)
      modifies this`requests
      ensures requests == old(requests) + [ListHooks(url)]
      ensures r == if failures.list.Some? then Failure(failures.list.value) else Success(hooks)
    {
      requests := requests + [ListHooks(url)];
      if failures.list.Some? {
        return Failure(failures.list.value);
      }
      return Success(hooks);
    }

    /** `POST .../hooks`: a new hook with a fresh id. */
    method Create(url: Url, payload: RegisterPayload) returns (r: Result<Webhook, GitHubError>)
      requires Valid()
      modifies this`requests, this`hooks, this`nextId
      ensures requests == old(requests) + [CreateHook(url, payload)]
      ensures failures.create.Some? ==>
        r == Failure(failures.create.value) && hooks == old(hooks) && nextId == old(nextId)
      ensures failures.create.None? ==>
        && r == Success(Webhook(old(nextId), payload.config.url))
        && hooks == old(hooks) + [Webhook(old(nextId), payload.config.url)]
        && nextId == old(nextId) + 1
      ensures Valid()
    {
      requests := requests + [CreateHook(url, payload)];
      if failures.create.Some? {
        return Failure(failures.create.value);
      }
      var w := Webhook(nextId, payload.config.url);
      hooks := hooks + [w];
      nextId := nextId + 1;
      return Success(w);
    }

    /** `DELETE .../hooks/{id}`; an unknown id is a bad status. */
    method Delete(url: Url, id: nat) returns (r: Result<(), GitHubError>)
      requires Valid()
      modifies this`requests, this`hooks
      ensures requests == old(requests) + [DeleteHook(url)]
      ensures failures.delete.Some? ==> r == Failure(failures.delete.value) && hooks == old(hooks)
      ensures failures.delete.None? && (exists i :: 0 <= i < |old(hooks)| && old(hooks)[i].id == id) ==>
        r == Success(()) && hooks == RemoveId(old(hooks), id)
      ensures failures.delete.None? && (forall i :: 0 <= i < |old(hooks)| ==> old(hooks)[i].id != id) ==>
        r == Failure(BadStatusCode("404 Not Found")) && hooks == old(hooks)
      ensures Valid()
    {
      requests := requests + [DeleteHook(url)];
      if failures.delete.Some? {
        return Failure(failures.delete.value);
      }
      if exists i :: 0 <= i < |hooks| && hooks[i].id == id {
        RemoveKeepsIds(hooks, id, nextId);
        hooks := RemoveId(hooks, id);
        return Success(());
      }
      return Failure(BadStatusCode("404 Not Found"));
    }
  }

  lemma {:induction false} RemoveKeepsIds(hooks: seq<Webhook>, id: nat, nextId: nat)
    requires IdsBelow(hooks, nextId)
    ensures IdsBelow(RemoveId(hooks, id), nextId)
  {
    if hooks != [] {
      var rest := hooks[1..];
      assert IdsBelow(rest, nextId) by {
        forall i, j | 0 <= i < j < |rest| ensures rest[i].id != rest[j].id {
          assert rest[i] == hooks[i + 1] && rest[j] == hooks[j + 1];
        }
      }
      RemoveKeepsIds(rest, id, nextId);
      if hooks[0].id != id {
        var r := RemoveId(rest, id);
        assert forall w :: w in rest ==> w.id != hooks[0].id;
        var s := [hooks[0]] + r;
        forall i, j | 0 <= i < j < |s| ensures s[i].id != s[j].id {
          if i == 0 {
            assert s[j] == r[j - 1] && s[j] in rest;
          }
        }
      }
    }
  }

  /** `check_webhook_url`: list the repository's hooks and look for the URL. */
  method CheckWebhookUrl(config: Config, api: HostingApi, owner: string, repo: string, url: string)
    returns (r: Result<Option<nat>, GitHubError>)
    modifies api`requests
    ensures api.requests == old(api.requests) + [ListHooks(HooksUrl(config.githubApiUrl, owner, repo))]
    ensures r == if api.failures.list.Some? then Failure(api.failures.list.value)
                 else Success(FindWebhook(api.hooks, url))
  {
    var listed := api.List(HooksUrl(config.GithubApiUrl(), owner, repo));
    if listed.Failure? {
      return Failure(listed.error);
    }
    return Success(FindWebhook(listed.value, url));
  }

  /** `try_register_webhook`: reuse a hook with this URL, else create one. */
  method TryRegisterWebhook(config: Config, api: HostingApi, owner: string, repo: string, url: string)
    returns (r: Result<nat, GitHubError>)
    requires api.Valid()
    modifies api`requests, api`hooks, api`nextId
    ensures api.Valid()
    ensures var hooksUrl := HooksUrl(config.githubApiUrl, owner, repo);
      var effect := RegisterEffect(old(api.hooks), old(api.nextId), url);
      if api.failures.list.Some? then
        r == Failure(api.failures.list.value) && api.hooks == old(api.hooks) &&
        api.nextId == old(api.nextId) && api.requests == old(api.requests) + [ListHooks(hooksUrl)]
      else if FindWebhook(old(api.hooks), url).Some? then
        r == Success(effect.1) && api.hooks == effect.0 && api.nextId == old(api.nextId) &&
        api.requests == old(api.requests) + [ListHooks(hooksUrl)]
      else
        api.requests == old(api.requests) + [ListHooks(hooksUrl), CreateHook(hooksUrl, Payload(url))] &&
        if api.failures.create.Some? then
          r == Failure(api.failures.create.value) && api.hooks == old(api.hooks) &&
          api.nextId == old(api.nextId)
        else
          r == Success(effect.1) && api.hooks == effect.0 && api.nextId == old(api.nextId) + 1
  {
    var found := CheckWebhookUrl(config, api, owner, repo, url);
    if found.Failure? {
      return Failure(found.error);
    }
    if found.value.Some? {
      return Success(found.value.value);
    }
    var created := api.Create(HooksUrl(config.GithubApiUrl(), owner, repo), Payload(url));
    if created.Failure? {
      return Failure(created.error);
    }
    return Success(created.value.id);
  }

  /** `try_unregister_webhook`: delete the hook with this URL, if there is one. */
  method TryUnregisterWebhook(config: Config, api: HostingApi, owner: string, repo: string, url: string)
    returns (r: Result<(), GitHubError>)
    requires api.Valid()
    modifies api`requests, api`hooks
    ensures api.Valid()
    ensures var hooksUrl := HooksUrl(config.githubApiUrl, owner, repo);
      var found := FindWebhook(old(api.hooks), url);
      if api.failures.list.Some? then
        r == Failure(api.failures.list.value) && api.hooks == old(api.hooks) &&
        api.requests == old(api.requests) + [ListHooks(hooksUrl)]
      else if found.None? then
        r == Success(()) && api.hooks == old(api.hooks) &&
        api.requests == old(api.requests) + [ListHooks(hooksUrl)]
      else
        api.requests == old(api.requests) +
          [ListHooks(hooksUrl), DeleteHook(HookUrl(config.githubApiUrl, owner, repo, found.value))] &&
        if api.failures.delete.Some? then
          r == Failure(api.failures.delete.value) && api.hooks == old(api.hooks)
        else
          r == Success(()) && api.hooks == UnregisterEffect(old(api.hooks), url)
  {
    var found := CheckWebhookUrl(config, api, owner, repo, url);
    if found.Failure? {
      return Failure(found.error);
    }
    if found.value.None? {
      return Success(());
    }
    r := api.Delete(HookUrl(config.GithubApiUrl(), owner, repo, found.value.value), found.value.value);
  }
}
