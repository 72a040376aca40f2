/**
 * The configuration value object and the repository-mapping syntax
 * `owner/name=path,owner2/name2=path2` (src/config.rs).
 */
module Configuration {

  import opened Wrappers
  import opened Strings

  /** Filesystem paths, `/`-separated. */
  type Path = string
  /** URLs, as their serialised text. */
  type Url = string

  /** `DEFAULT_URL`, the API root of an empty configuration. */
  const DefaultUrl: Url := "http://localhost"

  /** `entry_split[0]`: the text of an entry before its first `=`. */
  function Key(entry: string): string
  {
    Split(entry, '=')[0]
  }

  /** `entry_split[1]`: the text between the first and second `=`, if there is a first. */
  function Value(entry: string): Path
  {
    var parts := Split(entry, '=');
    if |parts| >= 2 then parts[1] else ""
  }

  /** An entry the source can index: it has at least one `=`. */
  predicate Indexable(entry: string)
  {
    |Split(entry, '=')| >= 2
  }

  /**
   * `HashMap::from_iter` over the parsed entries, in order: a later entry
   * overwrites an earlier one with the same key. `None` stands for the panic
   * of `entry_split[1]` on an entry without `=`.
   */
  function Collect(entries: seq<string>): Option<map<string, Path>>
  {
    if entries == [] then Some(map[])
    else
      var last := entries[|entries| - 1];
      match Collect(entries[..|entries| - 1])
      case Some(m) => if Indexable(last) then Some(m[Key(last) := Value(last)]) else None
      case None => None
  }

  /**
   * `parse_repo_mapping`: fails (the source panics) exactly when some
   * comma-separated entry has no `=`; otherwise the keys are exactly the
   * entries' keys.
   */
  function ParseRepoMapping(conf: string): (r: Option<map<string, Path>>)
    ensures r.None? <==> exists i :: 0 <= i < |Split(conf, ',')| && !Indexable(Split(conf, ',')[i])
    ensures r.Some? ==> forall k :: k in r.value <==>
      exists i :: 0 <= i < |Split(conf, ',')| && Key(Split(conf, ',')[i]) == k
  {
    var entries := Split(conf, ',');
    CollectFailsIffUnindexable(entries);
    if Collect(entries).Some? then CollectKeys(entries, Collect(entries).value); Collect(entries)
    else Collect(entries)
  }

  /** An entry is indexable exactly when it holds a `=`; key and value then have none. */
  lemma {:induction false} IndexableIffEquals(entry: string)
    ensures Indexable(entry) <==> '=' in entry
    ensures Indexable(entry) ==>
      '=' !in Key(entry) && '=' !in Value(entry) && Key(entry) + "=" + Value(entry) <= entry
  {
    SplitCount(entry, '=');
    SplitPartsAvoidSeparator(entry, '=');
    JoinSplit(entry, '=');
    var parts := Split(entry, '=');
    assert '=' in entry <==> Occurrences(entry, '=') > 0 by {
      OccurrencesPositive(entry, '=');
    }
    if |parts| >= 2 {
      assert Join(parts, '=') == parts[0] + ['='] + Join(parts[1..], '=');
      var tail := parts[1..];
      if |tail| == 1 {
        assert Join(tail, '=') == parts[1];
      } else {
        assert Join(tail, '=') == parts[1] + ['='] + Join(tail[1..], '=');
      }
      assert parts[0] + "=" + parts[1] <= entry;
    }
  }

  lemma {:induction false} OccurrencesPositive(s: string, c: char)
    ensures c in s <==> Occurrences(s, c) > 0
  {
    if s != [] {
      OccurrencesPositive(s[1..], c);
      assert s == [s[0]] + s[1..];
    }
  }

  /** Text after a second `=` is ignored. */
  lemma ExtraEqualsIgnored(k: string, v: string, rest: string)
    requires '=' !in k && '=' !in v
    ensures Indexable(k + "=" + v + "=" + rest)
    ensures Key(k + "=" + v + "=" + rest) == k && Value(k + "=" + v + "=" + rest) == v
  {
    var e := k + "=" + v + "=" + rest;
    assert e == k + ['='] + (v + ['='] + rest);
    SplitAtFirst(k, v + ['='] + rest, '=');
    SplitAtFirst(v, rest, '=');
  }

  /** Parsing fails exactly when some entry has no `=`. */
  lemma {:induction false} CollectFailsIffUnindexable(entries: seq<string>)
    ensures Collect(entries).None? <==> exists i :: 0 <= i < |entries| && !Indexable(entries[i])
  {
    if entries != [] {
      var init := entries[..|entries| - 1];
      CollectFailsIffUnindexable(init);
      assert forall i :: 0 <= i < |init| ==> init[i] == entries[i];
    }
  }

  /** The keys of the result are exactly the keys of the entries. */
  lemma {:induction false} CollectKeys(entries: seq<string>, m: map<string, Path>)
    requires Collect(entries) == Some(m)
    ensures forall k :: k in m <==> exists i :: 0 <= i < |entries| && Key(entries[i]) == k
  {
    if entries != [] {
      var init := entries[..|entries| - 1];
      var last := entries[|entries| - 1];
      var m0 := Collect(init).value;
      CollectKeys(init, m0);
      assert forall i :: 0 <= i < |init| ==> init[i] == entries[i];
      forall k
        ensures k in m <==> exists i :: 0 <= i < |entries| && Key(entries[i]) == k
      {
        if k in m && k != Key(last) {
          assert k in m0;
          var i :| 0 <= i < |init| && Key(init[i]) == k;
          assert Key(entries[i]) == k;
        }
      }
    }
  }

  /** With duplicate keys, the last entry carrying a key decides its path. */
  lemma {:induction false} LaterEntryWins(entries: seq<string>, m: map<string, Path>, i: nat)
    requires Collect(entries) == Some(m)
    requires i < |entries|
    requires forall j :: i < j < |entries| ==> Key(entries[j]) != Key(entries[i])
    ensures Key(entries[i]) in m && m[Key(entries[i])] == Value(entries[i])
  {
    var init := entries[..|entries| - 1];
    var last := entries[|entries| - 1];
    var m0 := Collect(init).value;
    if i < |entries| - 1 {
      assert forall j :: i < j < |init| ==> init[j] == entries[j];
      LaterEntryWins(init, m0, i);
      assert init[i] == entries[i];
    }
  }

  /** The empty string is one empty entry, which has no `=`: the source panics. */
  lemma EmptyConfigurationFails()
    ensures ParseRepoMapping("") == None
  {
    assert Split("", ',') == [""];
    assert !Indexable("");
  }

  /** Round trip for one entry whose key and path hold neither `,` nor `=`. */
  lemma SingleEntry(k: string, v: Path)
    requires ',' !in k && ',' !in v && '=' !in k && '=' !in v
    ensures ParseRepoMapping(k + "=" + v) == Some(map[k := v])
  {
    var e := k + "=" + v;
    assert ',' !in e;
    SplitWithoutSeparator(e, ',');
    assert e == k + ['='] + v;
    SplitAtFirst(k, v, '=');
    SplitWithoutSeparator(v, '=');
    assert Split(e, '=') == [k, v];
    assert Key(e) == k && Value(e) == v;
    assert [e][..0] == [];
    assert Collect([e]) == Some(map[][k := v]);
  }

  /** Two entries: both keys are mapped, and the second wins when they coincide. */
  lemma TwoEntries(k1: string, v1: Path, k2: string, v2: Path)
    requires ',' !in k1 && ',' !in v1 && '=' !in k1 && '=' !in v1
    requires ',' !in k2 && ',' !in v2 && '=' !in k2 && '=' !in v2
    ensures ParseRepoMapping(k1 + "=" + v1 + "," + k2 + "=" + v2) == Some(map[k1 := v1][k2 := v2])
  {
    var e1 := k1 + "=" + v1;
    var e2 := k2 + "=" + v2;
    assert ',' !in e1 && ',' !in e2;
    assert k1 + "=" + v1 + "," + k2 + "=" + v2 == e1 + [','] + e2;
    SplitAtFirst(e1, e2, ',');
    SplitWithoutSeparator(e2, ',');
    assert e1 == k1 + ['='] + v1 && e2 == k2 + ['='] + v2;
    SplitAtFirst(k1, v1, '=');
    SplitWithoutSeparator(v1, '=');
    SplitAtFirst(k2, v2, '=');
    SplitWithoutSeparator(v2, '=');
    assert Split(e1, '=') == [k1, v1] && Split(e2, '=') == [k2, v2];
    assert Key(e1) == k1 && Value(e1) == v1 && Key(e2) == k2 && Value(e2) == v2;
    assert [e1, e2][..1] == [e1];
    assert [e1][..0] == [];
    assert Collect([e1]) == Some(map[][k1 := v1]);
    assert Collect([e1, e2]) == Some(map[][k1 := v1][k2 := v2]);
  }

  /** `env_to_str`: an empty value counts as absent. */
  function EnvToStr(value: Option<string>): (r: Option<string>)
    ensures r.Some? <==> value.Some? && value.value != ""
    ensures r.Some? ==> r.value == value.value
  {
    match value
    case Some(s) => if s != "" then Some(s) else None
    case None => None
  }

  /** `env_to_repo_mapping`: absent or empty gives the empty map. */
  function EnvToRepoMapping(value: Option<string>): (r: Option<map<string, Path>>)
    ensures value.None? || value == Some("") ==> r == Some(map[])
    ensures value.Some? && value.value != "" ==> r == ParseRepoMapping(value.value)
  {
    match EnvToStr(value)
    case Some(v) => ParseRepoMapping(v)
    case None => Some(map[])
  }

  /** The configuration consumed by the core, set field by field at startup. */
  class Config {
    var telemetryUrl: Option<Url>
    var githubApiUrl: Url
    var webhookSecret: Option<string>
    var workingDir: Option<Path>
    var repoMapping: map<string, Path>

    /** `Config::empty`. */
    constructor Empty()
      ensures telemetryUrl == None && githubApiUrl == DefaultUrl
      ensures webhookSecret == None && workingDir == None && repoMapping == map[]
    {
      telemetryUrl := None;
      githubApiUrl := DefaultUrl;
      webhookSecret := None;
      workingDir := None;
      repoMapping := map[];
    }

    function GithubApiUrl(): Url reads this { githubApiUrl }

    function RepoMapping(): map<string, Path> reads this { repoMapping }

    function WorkingDir(): Option<Path> reads this { workingDir }

    function TelemetryUrl(): Option<Url> reads this { telemetryUrl }

    function WebhookSecret(): Option<string> reads this { webhookSecret }

    method SetGithubApiUrl(value: Url)
      modifies this`githubApiUrl
      ensures GithubApiUrl() == value
    {
      githubApiUrl := value;
    }

    method SetWorkingDir(value: Path)
      modifies this`workingDir
      ensures WorkingDir() == Some(value)
    {
      workingDir := Some(value);
    }

    method SetTelemetryUrl(value: Url)
      modifies this`telemetryUrl
      ensures TelemetryUrl() == Some(value)
    {
      telemetryUrl := Some(value);
    }

    method SetWebhookSecret(value: string)
      modifies this`webhookSecret
      ensures WebhookSecret() == Some(value)
    {
      webhookSecret := Some(value);
    }

    /**
     * `set_repo_mapping` replaces the whole map. `ok` is false where the
     * source panics; the configuration is then left as it was.
     */
    method SetRepoMapping(conf: string) returns (ok: bool)
      modifies this`repoMapping
      ensures ok <==> ParseRepoMapping(conf).Some?
      ensures ok ==> RepoMapping() == ParseRepoMapping(conf).value
      ensures !ok ==> RepoMapping() == old(RepoMapping())
    {
      match ParseRepoMapping(conf)
      case Some(m) =>
        repoMapping := m;
        ok := true;
      case None =>
        ok := false;
    }
  }

  /** A client of the setters: each one leaves the other fields alone. */
  method SettersAreIndependent(c: Config, secret: string, dir: Path)
    modifies c
    ensures c.WebhookSecret() == Some(secret) && c.WorkingDir() == Some(dir)
    ensures c.GithubApiUrl() == old(c.GithubApiUrl()) && c.TelemetryUrl() == old(c.TelemetryUrl())
    ensures c.RepoMapping() == old(c.RepoMapping())
  {
    c.SetWebhookSecret(secret);
    c.SetWorkingDir(dir);
  }
}
