/** Git hosting backends and their root URLs (src/git/backend.rs). */
module GitBackends {

  import opened Wrappers
  import opened Strings
  import opened GitErrors

  const CustomPrefix: string := "custom:"

  datatype GitBackend = GitHub | GitLab | Custom(url: string)

  /** `root_url`. */
  function RootUrl(b: GitBackend): (u: string)
    ensures b == GitHub ==> u == "https://github.com"
    ensures b == GitLab ==> u == "https://gitlab.com"
    ensures b.Custom? ==> u == b.url
  {
    match b
    case GitHub => "https://github.com"
    case GitLab => "https://gitlab.com"
    case Custom(url) => url
  }

  /**
   * `FromStr`: the names `github` and `gitlab` in any case, then a
   * case-sensitive `custom:` prefix on the original text; the error carries
   * the lower-cased input.
   */
  function FromStr(s: string): (r: Result<GitBackend, GitError>)
    ensures r == Success(GitHub) <==> ToLower(s) == "github"
    ensures r == Success(GitLab) <==> ToLower(s) == "gitlab"
    ensures r.Success? && r.value.Custom? ==> CustomPrefix + r.value.url == s
    ensures r.Failure? <==> ToLower(s) != "github" && ToLower(s) != "gitlab" && !(CustomPrefix <= s)
    ensures r.Failure? ==> r.error == UnsupportedGitBackend(ToLower(s))
  {
    var lower := ToLower(s);
    if lower == "github" then Success(GitHub)
    else if lower == "gitlab" then Success(GitLab)
    else if CustomPrefix <= s then Success(Custom(s[|CustomPrefix|..]))
    else Failure(UnsupportedGitBackend(lower))
  }

  /** Round trip: the root URL of `custom:u` is `u`. */
  lemma CustomRoundTrip(u: string)
    ensures FromStr(CustomPrefix + u) == Success(Custom(u))
    ensures RootUrl(FromStr(CustomPrefix + u).value) == u
  {
    var s := CustomPrefix + u;
    assert |ToLower(s)| >= 7;
    assert CustomPrefix <= s;
    assert s[|CustomPrefix|..] == u;
  }

  /** The names are matched in any case. */
  lemma NamesIgnoreCase()
    ensures FromStr("GitHub") == Success(GitHub)
    ensures FromStr("GITLAB") == Success(GitLab)
  {
    assert ToLower("GitHub") == "github";
    assert ToLower("GITLAB") == "gitlab";
  }

  /** The `custom:` prefix is case-sensitive, and the error is lower-cased. */
  lemma CustomPrefixIsCaseSensitive()
    ensures FromStr("Custom:x") == Failure(UnsupportedGitBackend("custom:x"))
  {
    var s := "Custom:x";
    assert ToLower(s) == "custom:x";
    assert s[0] != CustomPrefix[0];
  }
}
