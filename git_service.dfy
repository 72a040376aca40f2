/**
 * The `GitService` capability (src/git/service.rs:11-25) in the form the
 * source's tests give it: a service that records every call it receives and
 * answers each kind of call with a canned result (the `FakeGitService` of
 * src/backends/github/http/mod.rs:122-174).
 */
module GitServices {

  import opened Wrappers
  import opened GitErrors
  import opened Configuration

  /** One invocation of the capability, with its arguments. */
  datatype GitCall =
    | CloneRepository(workingDir: Path, reference: string, url: string, folderName: string)
    | Fetch(workingDir: Path)
    | Checkout(workingDir: Path, reference: string)
    | Pull(workingDir: Path)

  /** The canned result of each operation (captured output or error). */
  datatype Responses = Responses(
    clone: Result<string, GitError>,
    fetch: Result<string, GitError>,
    checkout: Result<string, GitError>,
    pull: Result<string, GitError>)

  /** Every operation succeeds with output `OK`, as in `FakeGitService::new`. */
  const AllOk: Responses :=
    Responses(Success("OK"), Success("OK"), Success("OK"), Success("OK"))

  /** What the service answers to `call`. */
  function ResponseTo(resp: Responses, call: GitCall): Result<string, GitError>
  {
    match call
    case CloneRepository(_, _, _, _) => resp.clone
    case Fetch(_) => resp.fetch
    case Checkout(_, _) => resp.checkout
    case Pull(_) => resp.pull
  }

  class GitService {
    const responses: Responses
    /** The calls received so far, oldest first. */
    var log: seq<GitCall>

    constructor (responses: Responses)
      ensures this.responses == responses && log == []
    {
      this.responses := responses;
      log := [];
    }

    method CloneRepository(workingDir: Path, reference: string, url: string, folderName: string)
      returns (r: Result<string, GitError>)
      modifies this`log
      ensures log == old(log) + [GitCall.CloneRepository(workingDir, reference, url, folderName)]
      ensures r == responses.clone
    {
      log := log + [GitCall.CloneRepository(workingDir, reference, url, folderName)];
      r := responses.clone;
    }

    method Fetch(workingDir: Path) returns (r: Result<string, GitError>)
      modifies this`log
      ensures log == old(log) + [GitCall.Fetch(workingDir)]
      ensures r == responses.fetch
    {
      log := log + [GitCall.Fetch(workingDir)];
      r := responses.fetch;
    }

    method Checkout(workingDir: Path, reference: string) returns (r: Result<string, GitError>)
      modifies this`log
      ensures log == old(log) + [GitCall.Checkout(workingDir, reference)]
      ensures r == responses.checkout
    {
      log := log + [GitCall.Checkout(workingDir, reference)];
      r := responses.checkout;
    }

    method Pull(workingDir: Path) returns (r: Result<string, GitError>)
      modifies this`log
      ensures log == old(log) + [GitCall.Pull(workingDir)]
      ensures r == responses.pull
    {
      log := log + [GitCall.Pull(workingDir)];
      r := responses.pull;
    }
  }
}
