/** `owner/name` repository paths (src/git/repository_path.rs). */
module RepositoryPaths {

  import opened Wrappers
  import opened Strings
  import opened GitErrors

  /** Immutable once built; the fields are only reachable through the accessors. */
  datatype RepositoryPath = RepositoryPath(owner: string, name: string)

  function Owner(p: RepositoryPath): string { p.owner }

  function Name(p: RepositoryPath): string { p.name }

  /** `full_name`: `format!("{}/{}", owner, name)`. */
  function FullName(p: RepositoryPath): (s: string)
    ensures |s| == |p.owner| + 1 + |p.name|
    ensures s[..|p.owner|] == p.owner && s[|p.owner|] == '/' && s[|p.owner| + 1..] == p.name
  {
    p.owner + "/" + p.name
  }

  /** `split_repo_path`: exactly two pieces when split on `/`. */
  function SplitRepoPath(path: string): (r: Result<(string, string), GitError>)
  {
    var split := Split(path, '/');
    if |split| == 2 then Success((split[0], split[1]))
    else Failure(MalformedRepositoryPath(path))
  }

  /**
   * `RepositoryPath::new` accepts exactly the strings with one `/`; then the
   * owner is the text before it, the name the text after it, and neither
   * holds a `/`. Otherwise the error carries the input unchanged.
   */
  function New(path: string): (r: Result<RepositoryPath, GitError>)
    ensures r.Success? <==> Occurrences(path, '/') == 1
    ensures r.Success? ==> '/' !in r.value.owner && '/' !in r.value.name &&
                           path == r.value.owner + "/" + r.value.name
    ensures r.Failure? ==> r.error == MalformedRepositoryPath(path)
  {
    SplitCount(path, '/');
    SplitPartsAvoidSeparator(path, '/');
    JoinSplit(path, '/');
    var split := Split(path, '/');
    assert |split| == 2 ==>
      Join(split, '/') == split[0] + ['/'] + Join(split[1..], '/') && split[1..] == [split[1]];
    match SplitRepoPath(path)
    case Success((owner, name)) => Success(RepositoryPath(owner, name))
    case Failure(e) => Failure(e)
  }

  /** `FromStr` delegates to `new`. */
  function FromStr(s: string): (r: Result<RepositoryPath, GitError>)
    ensures r == New(s)
  {
    New(s)
  }

  /** Round trip: the full name of a parsed path is the parsed text. */
  lemma FullNameOfNew(s: string)
    requires New(s).Success?
    ensures FullName(New(s).value) == s
  {
  }

  /** Round trip the other way: slash-free parts survive printing and parsing. */
  lemma {:induction false} NewOfFullName(p: RepositoryPath)
    requires '/' !in p.owner && '/' !in p.name
    ensures New(FullName(p)) == Success(p)
  {
    SplitAtFirst(p.owner, p.name, '/');
    SplitWithoutSeparator(p.name, '/');
    assert FullName(p) == p.owner + ['/'] + p.name;
  }

  /** Only the number of pieces is checked: empty owners and names pass. */
  lemma EmptySegmentsAccepted()
    ensures New("a/") == Success(RepositoryPath("a", ""))
    ensures New("/b") == Success(RepositoryPath("", "b"))
  {
    NewOfFullName(RepositoryPath("a", ""));
    NewOfFullName(RepositoryPath("", "b"));
  }

  /** No slash, or two slashes, is a malformed path carrying the input. */
  lemma MalformedExamples()
    ensures New("sample") == Failure(MalformedRepositoryPath("sample"))
    ensures New("a/b/c") == Failure(MalformedRepositoryPath("a/b/c"))
  {
  }
}
