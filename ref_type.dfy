/** Git references named by a push event or the command line (src/git/ref_type.rs). */
module RefTypes {

  import opened Wrappers
  import opened GitErrors

  const TagPrefix: string := "refs/tags/"
  const BranchPrefix: string := "refs/branches/"

  datatype RefType = Branch(name: string) | Tag(name: string)

  /** `to_string`: the bare stored name, whatever the variant. */
  function ToString(r: RefType): (s: string)
    ensures r == Branch(s) || r == Tag(s)
  {
    match r
    case Branch(b) => b
    case Tag(t) => t
  }

  /** The wire prefix that introduces each variant. */
  function PrefixOf(r: RefType): string
  {
    match r
    case Branch(_) => BranchPrefix
    case Tag(_) => TagPrefix
  }

  /** `TryFrom<&str>`: strip `refs/tags/` or `refs/branches/`, anything else is unsupported. */
  function TryFrom(value: string): (r: Result<RefType, GitError>)
    ensures r.Success? <==> TagPrefix <= value || BranchPrefix <= value
    ensures r.Success? ==> PrefixOf(r.value) + ToString(r.value) == value
    ensures r.Failure? ==> r.error == UnsupportedRefType(value)
  {
    if TagPrefix <= value then
      Success(Tag(value[|TagPrefix|..]))
    else if BranchPrefix <= value then
      Success(Branch(value[|BranchPrefix|..]))
    else
      Failure(UnsupportedRefType(value))
  }

  /** `FromStr`: the second, textually identical, parser of the source. */
  function FromStr(value: string): (r: Result<RefType, GitError>)
  {
    if TagPrefix <= value then
      Success(Tag(value[|TagPrefix|..]))
    else if BranchPrefix <= value then
      Success(Branch(value[|BranchPrefix|..]))
    else
      Failure(UnsupportedRefType(value))
  }

  /** Both parsers agree on every input. */
  lemma FromStrIsTryFrom(value: string)
    ensures FromStr(value) == TryFrom(value)
  {
  }

  /** `refs/tags/X` parses to `Tag(X)`. */
  lemma ParseTag(x: string)
    ensures TryFrom(TagPrefix + x) == Success(Tag(x))
  {
    assert TagPrefix <= TagPrefix + x;
    assert (TagPrefix + x)[|TagPrefix|..] == x;
  }

  /** `refs/branches/X` parses to `Branch(X)`; the two prefixes never overlap. */
  lemma ParseBranch(x: string)
    ensures TryFrom(BranchPrefix + x) == Success(Branch(x))
  {
    var s := BranchPrefix + x;
    assert s[5] == 'b';
    assert !(TagPrefix <= s);
    assert BranchPrefix <= s;
    assert s[|BranchPrefix|..] == x;
  }

  /** Printing and re-parsing a reference gives the same reference back. */
  lemma PrintParse(r: RefType)
    ensures TryFrom(PrefixOf(r) + ToString(r)) == Success(r)
  {
    match r
    case Branch(b) => ParseBranch(b);
    case Tag(t) => ParseTag(t);
  }

  /** The suffix is not validated: the bare prefix names the empty tag. */
  lemma EmptyTagAccepted()
    ensures TryFrom("refs/tags/") == Success(Tag(""))
  {
    ParseTag("");
  }

  /** The variant is lost by `to_string`: a branch and a tag of one name print alike. */
  lemma BranchAndTagPrintAlike(x: string)
    ensures ToString(Branch(x)) == ToString(Tag(x)) == x
  {
  }
}
