/**
 * The synchronisation orchestrator (src/git/repo_cloner.rs): choose the
 * working-copy directory, build the clone URL, then clone when the directory
 * is absent or fetch, checkout and pull when it is present, stopping at the
 * first failing call.
 */
module RepoCloner {

  import opened Wrappers
  import opened Strings
  import opened GitErrors
  import opened Configuration
  import opened RefTypes
  import opened RepositoryPaths
  import opened GitBackends
  import opened GitServices

  // ---------------------------------------------------------------------
  // Paths: the parts of Rust's `Path` the orchestrator uses.

  /** Every run of `/` shortened to one `/`. */
  function Collapse(p: string): string
  {
    if |p| <= 1 then p
    else if p[0] == '/' && p[1] == '/' then Collapse(p[1..])
    else [p[0]] + Collapse(p[1..])
  }

  /**
   * The path as `Path::components` reads it: repeated separators count as
   * one, and a trailing separator is ignored (the root `/` stays).
   */
  function Components(p: Path): Path
  {
    var c := Collapse(p);
    if |c| > 1 && c[|c| - 1] == '/' then c[..|c| - 1] else c
  }

  /** `parent()`: the text before the last `/` (`/` itself for a child of the root). */
  function Parent(p: Path): (d: Path)
    ensures d <= Components(p)
    ensures d == "" <==> '/' !in Components(p)
  {
    var q := Components(p);
    match LastIndexOf(q, '/')
    case None => ""
    case Some(i) => if i == 0 then "/" else q[..i]
  }

  /** `file_name()`: the text after the last `/`. */
  function FileName(p: Path): (n: string)
    ensures '/' !in n
    ensures |n| <= |Components(p)| && Components(p)[|Components(p)| - |n|..] == n
  {
    var q := Components(p);
    match LastIndexOf(q, '/')
    case None => q
    case Some(i) => q[i + 1..]
  }

  /** `file_stem()` of a file name: drop the text from the last `.` on, unless that `.` leads. */
  function FileStem(name: string): (s: string)
    ensures s <= name
    ensures s != name ==> 0 < |s| && name[|s|] == '.'
  {
    if name == ".." then name
    else match LastIndexOf(name, '.')
      case None => name
      case Some(i) => if i == 0 then name else name[..i]
  }

  /** `join()` of a relative name onto a base. */
  function Join(base: Path, name: string): (j: Path)
    ensures base <= j && |base| + |name| <= |j| <= |base| + |name| + 1
    ensures j[|j| - |name|..] == name
    ensures |j| > |base| + |name| ==> j[|base|] == '/'
  {
    if base == "" then name
    else if base[|base| - 1] == '/' then base + name
    else base + "/" + name
  }

  /** A path without repeated separators, whose last component is not empty. */
  predicate Normal(p: Path)
  {
    && p != []
    && p[|p| - 1] != '/'
    && forall j :: 0 < j < |p| ==> !(p[j - 1] == '/' && p[j] == '/')
  }

  /** A normal path is read as written. */
  lemma NormalComponents(p: Path)
    requires Normal(p)
    ensures Components(p) == p
  {
    CollapseKeeps(p);
  }

  lemma {:induction false} CollapseKeeps(p: string)
    requires forall j :: 0 < j < |p| ==> !(p[j - 1] == '/' && p[j] == '/')
    ensures Collapse(p) == p
  {
    if |p| > 1 {
      assert !(p[0] == '/' && p[1] == '/');
      forall j | 0 < j < |p[1..]| ensures !(p[1..][j - 1] == '/' && p[1..][j] == '/') {
        assert p[1..][j - 1] == p[j] && p[1..][j] == p[j + 1];
      }
      CollapseKeeps(p[1..]);
      assert p == [p[0]] + p[1..];
    }
  }

  lemma {:induction false} CollapseLast(p: string)
    requires p != []
    ensures Collapse(p) != [] && Collapse(p)[|Collapse(p)| - 1] == p[|p| - 1]
  {
    if |p| > 1 {
      CollapseLast(p[1..]);
    }
  }

  lemma {:induction false} CollapseTrailingSlash(p: string)
    requires p != [] && p[|p| - 1] != '/'
    ensures Collapse(p + "/") == Collapse(p) + "/"
  {
    var q := p + "/";
    assert q[1..] == p[1..] + "/";
    if |p| == 1 {
      assert q[1..] == "/";
    } else {
      CollapseTrailingSlash(p[1..]);
      if !(p[0] == '/' && p[1] == '/') {
        assert Collapse(q) == [p[0]] + (Collapse(p[1..]) + "/");
      }
    }
  }

  lemma {:induction false} CollapseDoubleSlash(a: string, b: string)
    ensures Collapse(a + "//" + b) == Collapse(a + "/" + b)
  {
    var x := a + "//" + b;
    var y := a + "/" + b;
    if a == [] {
      assert x[1..] == y;
    } else {
      assert x[1..] == a[1..] + "//" + b && y[1..] == a[1..] + "/" + b;
      assert x[0] == y[0] && x[1] == y[1];
      CollapseDoubleSlash(a[1..], b);
    }
  }

  /** A trailing separator names the same directory: `/srv/site/` is `/srv/site`. */
  lemma TrailingSlashIgnored(p: Path)
    requires p != [] && p[|p| - 1] != '/'
    ensures Components(p + "/") == Components(p)
    ensures Parent(p + "/") == Parent(p) && FileName(p + "/") == FileName(p)
  {
    CollapseTrailingSlash(p);
    CollapseLast(p);
    var c := Collapse(p);
    assert (c + "/")[..|c + "/"| - 1] == c;
  }

  /** A repeated separator counts once: `a//b` is `a/b`. */
  lemma RepeatedSlashIgnored(a: Path, b: Path)
    ensures Components(a + "//" + b) == Components(a + "/" + b)
    ensures Parent(a + "//" + b) == Parent(a + "/" + b) && FileName(a + "//" + b) == FileName(a + "/" + b)
  {
    CollapseDoubleSlash(a, b);
  }

  /** A file name whose `.` is not its first character, which `file_stem` cuts. */
  predicate Dotted(name: string)
  {
    name != ".." && exists i :: 0 < i < |name| && name[i] == '.'
  }

  /** `file_stem` cuts exactly the dotted names, and then only shortens them. */
  lemma StemOfName(name: string)
    ensures Dotted(name) ==> |FileStem(name)| < |name|
    ensures !Dotted(name) ==> FileStem(name) == name
  {
    if name != ".." {
      match LastIndexOf(name, '.')
      case None =>
      case Some(k) =>
        if Dotted(name) {
          var i :| 0 < i < |name| && name[i] == '.';
          assert i <= k;
        }
    }
  }

  // ---------------------------------------------------------------------
  // Resolution of the target directory and of the remote URL.

  /** `get_working_dir`: the configured working directory, else the current one. */
  function GetWorkingDir(workingDir: Option<Path>, cwd: Path): (d: Path)
    ensures workingDir.Some? ==> d == workingDir.value
    ensures workingDir.None? ==> d == cwd
  {
    match workingDir
    case Some(w) => w
    case None => cwd
  }

  /**
   * `get_repository_target_dir`: the mapped path when the full name is a key
   * of the mapping, otherwise the working directory joined with the folder name.
   */
  function GetRepositoryTargetDir(
    mapping: map<string, Path>, workingDir: Option<Path>, cwd: Path,
    repoFullName: string, folderName: string): (d: Path)
    ensures repoFullName in mapping ==> d == mapping[repoFullName]
    ensures repoFullName !in mapping ==> d == Join(GetWorkingDir(workingDir, cwd), folderName)
  {
    if repoFullName in mapping then mapping[repoFullName]
    else Join(GetWorkingDir(workingDir, cwd), folderName)
  }

  /** The directory `create_or_update_using_config` works in for `repo`. */
  function TargetDir(mapping: map<string, Path>, workingDir: Option<Path>, cwd: Path, repo: RepositoryPath): Path
  {
    GetRepositoryTargetDir(mapping, workingDir, cwd, FullName(repo), Name(repo))
  }

  /** The clone URL, `{root_url}/{full_name}`. */
  function RemoteUrl(backend: GitBackend, repo: RepositoryPath): string
  {
    RootUrl(backend) + "/" + FullName(repo)
  }

  /** A repository named on the wire as `s` is cloned from the backend root followed by `/s`. */
  lemma RemoteUrlOfParsedPath(backend: GitBackend, s: string)
    requires New(s).Success?
    ensures RemoteUrl(backend, New(s).value) == RootUrl(backend) + "/" + s
  {
    FullNameOfNew(s);
  }

  /**
   * The mapping is consulted under the `owner/name` key: a repository listed
   * in a parsed mapping syncs into the listed path, any other into
   * `<working dir>/<name>`.
   */
  lemma {:induction false} TargetDirUsesFullName(
    conf: string, m: map<string, Path>, workingDir: Option<Path>, cwd: Path, repo: RepositoryPath)
    requires ParseRepoMapping(conf) == Some(m)
    ensures (exists i :: 0 <= i < |Split(conf, ',')| && Key(Split(conf, ',')[i]) == FullName(repo))
      ==> FullName(repo) in m && TargetDir(m, workingDir, cwd, repo) == m[FullName(repo)]
    ensures (forall i :: 0 <= i < |Split(conf, ',')| ==> Key(Split(conf, ',')[i]) != FullName(repo))
      ==> TargetDir(m, workingDir, cwd, repo) == Join(GetWorkingDir(workingDir, cwd), repo.name)
  {
    CollectKeys(Split(conf, ','), m);
  }

  // ---------------------------------------------------------------------
  // The clone folder (see the findings of the README).

  /** As written: `working_dir.file_stem()`. */
  function CloneFolderAsWritten(target: Path): string
  {
    FileStem(FileName(target))
  }

  /** As intended: the last component of the target, so that the clone lands on it. */
  function CloneFolder(target: Path): string
  {
    FileName(target)
  }

  /** With the file name, cloning into `parent/folder` creates exactly the target. */
  lemma CloneCreatesTarget(target: Path)
    requires Normal(target)
    ensures Join(Parent(target), CloneFolder(target)) == target
  {
    NormalComponents(target);
    match LastIndexOf(target, '/')
    case None =>
      assert Parent(target) == "" && FileName(target) == target;
    case Some(i) =>
      PartsAtLastSlash(target, i);
      if i == 0 {
        assert target == "/" + target[1..];
      } else {
        NoSlashBefore(target, i);
        RejoinAt(target, i);
      }
  }

  lemma NoSlashBefore(p: Path, i: nat)
    requires Normal(p) && 0 < i < |p| && p[i] == '/'
    ensures p[..i][i - 1] != '/'
  {
    assert p[..i][i - 1] == p[i - 1];
  }

  lemma RejoinAt(p: Path, i: nat)
    requires 0 < i < |p| && p[i] == '/' && p[..i][i - 1] != '/'
    ensures Join(p[..i], p[i + 1..]) == p
  {
    JoinAddsSlash(p[..i], p[i + 1..]);
    assert p == p[..i] + "/" + p[i + 1..];
  }

  lemma PartsAtLastSlash(p: Path, i: nat)
    requires Components(p) == p && LastIndexOf(p, '/') == Some(i)
    ensures Parent(p) == (if i == 0 then "/" else p[..i]) && FileName(p) == p[i + 1..]
  {
  }

  lemma JoinAddsSlash(base: Path, name: string)
    requires base != "" && base[|base| - 1] != '/'
    ensures Join(base, name) == base + "/" + name
  {
  }

  /**
   * With `file_stem`, a target whose file name holds a `.` after its first
   * character is never the directory the clone creates.
   */
  lemma StemCloneMissesTarget(target: Path)
    requires Normal(target) && Dotted(FileName(target))
    ensures Join(Parent(target), CloneFolderAsWritten(target)) != target
  {
    CloneCreatesTarget(target);
    StemOfName(FileName(target));
  }

  /** Without such a `.`, both folders are the file name. */
  lemma PlainNameFoldersAgree(target: Path)
    requires !Dotted(FileName(target))
    ensures CloneFolderAsWritten(target) == CloneFolder(target)
  {
    StemOfName(FileName(target));
  }

  /** Target `/w/site.io` (repository `owner/site.io`) is cloned into `/w/site`. */
  lemma SiteIoClonedAsSite()
    ensures Join(Parent("/w/site.io"), CloneFolderAsWritten("/w/site.io")) == "/w/site"
  {
    SampleParent();
    SampleFileName();
    SampleStem();
    SampleJoin();
  }

  lemma SampleJoin()
    ensures Join("/w", "site") == "/w/site"
  {
    assert "/w"[1] == 'w';
  }

  lemma SampleLastSlash()
    ensures LastIndexOf("/w/site.io", '/') == Some(2)
  {
    var t := "/w/site.io";
    assert t[2] == '/' && '/' !in t[3..];
  }

  lemma SampleParent()
    ensures Parent("/w/site.io") == "/w"
  {
    SampleComponents();
    SampleLastSlash();
    assert "/w/site.io"[..2] == "/w";
  }

  lemma SampleFileName()
    ensures FileName("/w/site.io") == "site.io"
  {
    SampleComponents();
    SampleLastSlash();
    assert "/w/site.io"[3..] == "site.io";
  }

  lemma SampleComponents()
    ensures Components("/w/site.io") == "/w/site.io"
  {
    var t := "/w/site.io";
    assert Normal(t) by {
      assert forall j :: 2 < j < |t| ==> t[j] != '/';
    }
    NormalComponents(t);
  }

  lemma SampleStem()
    ensures FileStem("site.io") == "site"
  {
    assert LastIndexOf("site.io", '.') == Some(4) by {
      assert "site.io"[4] == '.' && '.' !in "site.io"[5..];
    }
  }

  // ---------------------------------------------------------------------
  // The decision and its execution.

  /** The calls to make, in order, for a target that is absent or present, as the source makes them. */
  function SyncPlan(present: bool, target: Path, refName: string, url: string): seq<GitCall>
  {
    if !present then [GitCall.CloneRepository(Parent(target), refName, url, CloneFolderAsWritten(target))]
    else [GitCall.Fetch(target), GitCall.Checkout(target, refName), GitCall.Pull(target)]
  }

  /** The same plan with the intended clone folder. */
  function SyncPlanIntended(present: bool, target: Path, refName: string, url: string): seq<GitCall>
  {
    if !present then [GitCall.CloneRepository(Parent(target), refName, url, CloneFolder(target))]
    else [GitCall.Fetch(target), GitCall.Checkout(target, refName), GitCall.Pull(target)]
  }

  /** As written, the clone of a dotted target lands beside it, not on it. */
  lemma AsWrittenCloneMissesTarget(target: Path, refName: string, url: string)
    requires Normal(target) && Dotted(FileName(target))
    ensures var c := SyncPlan(false, target, refName, url)[0];
      c.CloneRepository? && Join(c.workingDir, c.folderName) != target
  {
    StemCloneMissesTarget(target);
  }

  /** With the intended folder, the clone lands on the target it was planned for. */
  lemma IntendedCloneCreatesTarget(target: Path, refName: string, url: string)
    requires Normal(target)
    ensures var c := SyncPlanIntended(false, target, refName, url)[0];
      c.CloneRepository? && Join(c.workingDir, c.folderName) == target
  {
    CloneCreatesTarget(target);
  }

  /** The two plans coincide unless the target's file name holds a `.` after its first character. */
  lemma PlansAgreeOnPlainNames(present: bool, target: Path, refName: string, url: string)
    ensures SyncPlan(present, target, refName, url) == SyncPlanIntended(present, target, refName, url)
      <==> present || !Dotted(FileName(target))
  {
    StemOfName(FileName(target));
  }

  /**
   * Issuing `plan` one call at a time with `?` after each: the calls actually
   * made and the overall result.
   */
  function Run(plan: seq<GitCall>, resp: Responses): (seq<GitCall>, Result<(), GitError>)
  {
    if plan == [] then ([], Success(()))
    else match ResponseTo(resp, plan[0])
      case Failure(e) => ([plan[0]], Failure(e))
      case Success(_) =>
        var rest := Run(plan[1..], resp);
        ([plan[0]] + rest.0, rest.1)
  }

  /**
   * The calls made are a prefix of the plan. The run succeeds exactly when
   * every planned call does, and then makes them all; otherwise it stops right
   * after the first failing call and returns that call's error unchanged.
   */
  lemma {:induction false} RunStopsAtFirstFailure(plan: seq<GitCall>, resp: Responses)
    ensures Run(plan, resp).0 <= plan
    ensures Run(plan, resp).1.Success? <==>
      forall i :: 0 <= i < |plan| ==> ResponseTo(resp, plan[i]).Success?
    ensures Run(plan, resp).1.Success? ==> Run(plan, resp).0 == plan
    ensures Run(plan, resp).1.Failure? ==>
      var made := Run(plan, resp).0;
      && |made| > 0
      && ResponseTo(resp, made[|made| - 1]) == Failure(Run(plan, resp).1.error)
      && forall i :: 0 <= i < |made| - 1 ==> ResponseTo(resp, made[i]).Success?
  {
    if plan != [] {
      RunStopsAtFirstFailure(plan[1..], resp);
      var rest := Run(plan[1..], resp);
      if ResponseTo(resp, plan[0]).Success? {
        var made := [plan[0]] + rest.0;
        assert forall i :: 0 < i < |made| ==> made[i] == rest.0[i - 1];
        assert forall i :: 0 < i < |plan| ==> plan[i] == plan[1..][i - 1];
        if rest.1.Success? {
          assert plan == [plan[0]] + plan[1..];
        }
      }
    }
  }

  /** Directory absent: exactly one clone call, into the parent, with the bare reference name. */
  lemma AbsentClonesOnce(target: Path, refName: string, url: string, resp: Responses)
    ensures Run(SyncPlan(false, target, refName, url), resp).0 ==
      [GitCall.CloneRepository(Parent(target), refName, url, CloneFolderAsWritten(target))]
    ensures Run(SyncPlan(false, target, refName, url), resp).1 ==
      if resp.clone.Success? then Success(()) else Failure(resp.clone.error)
  {
  }

  /**
   * Directory present: fetch, checkout and pull on the directory, in this
   * order and never a clone; the first failure ends the sequence and its error
   * is the result.
   */
  lemma PresentUpdatesInOrder(target: Path, refName: string, url: string, resp: Responses)
    ensures Run(SyncPlan(true, target, refName, url), resp) ==
      if resp.fetch.Failure? then
        ([GitCall.Fetch(target)], Failure(resp.fetch.error))
      else if resp.checkout.Failure? then
        ([GitCall.Fetch(target), GitCall.Checkout(target, refName)], Failure(resp.checkout.error))
      else
        ([GitCall.Fetch(target), GitCall.Checkout(target, refName), GitCall.Pull(target)],
         if resp.pull.Failure? then Failure(resp.pull.error) else Success(()))
  {
    var p3 := [GitCall.Pull(target)];
    var p2 := [GitCall.Checkout(target, refName)] + p3;
    var p1 := [GitCall.Fetch(target)] + p2;
    assert p3[1..] == [] && p2[1..] == p3 && p1[1..] == p2;
    assert SyncPlan(true, target, refName, url) == p1;
    if resp.pull.Failure? {
      assert Run(p3, resp) == (p3, Failure(resp.pull.error));
    } else {
      assert Run(p3[1..], resp) == ([], Success(()));
      assert [p3[0]] + [] == p3;
      assert Run(p3, resp) == (p3, Success(()));
    }
    if resp.checkout.Success? {
      assert Run(p2, resp) == ([p2[0]] + Run(p3, resp).0, Run(p3, resp).1);
    }
    if resp.fetch.Success? {
      assert Run(p1, resp) == ([p1[0]] + Run(p2, resp).0, Run(p2, resp).1);
      if resp.checkout.Success? {
        assert [p1[0]] + ([p2[0]] + p3) == p1;
      } else {
        assert [p1[0]] + [p2[0]] == [GitCall.Fetch(target), GitCall.Checkout(target, refName)];
      }
    }
  }

  /** What synchronising `repo` at `reference` into `target` does against the service. */
  function SyncRun(backend: GitBackend, repo: RepositoryPath, reference: RefType,
                   target: Path, disk: set<Path>, resp: Responses): (seq<GitCall>, Result<(), GitError>)
  {
    Run(SyncPlan(target in disk, target, ToString(reference), RemoteUrl(backend, repo)), resp)
  }

  /** Branch and tag of one name drive git identically: only the bare name is passed on. */
  lemma BranchAndTagSyncAlike(backend: GitBackend, repo: RepositoryPath, x: string,
                              target: Path, disk: set<Path>, resp: Responses)
    ensures SyncRun(backend, repo, Branch(x), target, disk, resp) ==
            SyncRun(backend, repo, Tag(x), target, disk, resp)
  {
  }

  /** `create_or_update_in_directory`. */
  method CreateOrUpdateInDirectory(
    git: GitService, backend: GitBackend, repo: RepositoryPath, reference: RefType,
    workingDir: Path, disk: set<Path>) returns (r: Result<(), GitError>)
    modifies git`log
    ensures git.log == old(git.log) + SyncRun(backend, repo, reference, workingDir, disk, git.responses).0
    ensures r == SyncRun(backend, repo, reference, workingDir, disk, git.responses).1
  {
    var rootUrl := RootUrl(backend);
    var repoFullName := FullName(repo);
    var refName := ToString(reference);
    var repoUrl := rootUrl + "/" + repoFullName;

    if workingDir !in disk {
      var folderName := CloneFolderAsWritten(workingDir);
      AbsentClonesOnce(workingDir, refName, repoUrl, git.responses);
      var res := git.CloneRepository(Parent(workingDir), refName, repoUrl, folderName);
      if res.Failure? {
        return Failure(res.error);
      }
    } else {
      PresentUpdatesInOrder(workingDir, refName, repoUrl, git.responses);
      var res := git.Fetch(workingDir);
      if res.Failure? {
        return Failure(res.error);
      }
      res := git.Checkout(workingDir, refName);
      if res.Failure? {
        return Failure(res.error);
      }
      res := git.Pull(workingDir);
      assert git.log == old(git.log) +
        [GitCall.Fetch(workingDir), GitCall.Checkout(workingDir, refName), GitCall.Pull(workingDir)];
      if res.Failure? {
        return Failure(res.error);
      }
    }
    return Success(());
  }

  /** `create_or_update_using_config`: resolve the target, then synchronise into it. */
  method CreateOrUpdateUsingConfig(
    config: Config, git: GitService, backend: GitBackend, repo: RepositoryPath,
    reference: RefType, disk: set<Path>, cwd: Path) returns (r: Result<(), GitError>)
    modifies git`log
    ensures var target := TargetDir(config.repoMapping, config.workingDir, cwd, repo);
      && git.log == old(git.log) + SyncRun(backend, repo, reference, target, disk, git.responses).0
      && r == SyncRun(backend, repo, reference, target, disk, git.responses).1
  {
    var target := GetRepositoryTargetDir(config.RepoMapping(), config.WorkingDir(), cwd, FullName(repo), Name(repo));
    r := CreateOrUpdateInDirectory(git, backend, repo, reference, target, disk);
  }
}
