/**
 * The request guard placed in front of the GitHub webhook route
 * (src/backends/github/http/middleware.rs): POST requests must come from
 * GitHub's user agent and, when a webhook secret is configured, carry a
 * valid `X-Hub-Signature-256` HMAC of the body.
 */
module SignatureGuard {

  import opened Wrappers
  import opened Http
  import opened ErrorCodes

  /** Header names are kept lower-case in `Headers`. */
  const SignatureHeader: string := "x-hub-signature-256"
  const UserAgentHeader: string := "user-agent"
  const SignaturePrefix: string := "sha256="
  const GitHubUserAgent: string := "GitHub-Hookshot/"

  /**
   * `is_valid_signature(signature, body, secret)`: the HMAC-SHA256 check,
   * left opaque and passed in by the caller.
   */
  type SignatureCheck = (string, seq<byte>, string) -> bool

  /** The user agent header is present, is text, and starts with `GitHub-Hookshot/`. */
  predicate UserAgentAccepted(headers: Headers)
  {
    UserAgentHeader in headers &&
    var text := ToStr(headers[UserAgentHeader]);
    text.Some? && GitHubUserAgent <= text.value
  }

  /**
   * The signature text: the header value without its `sha256=` prefix, or
   * the empty string when the value is not text or lacks the prefix.
   */
  function ExtractSignature(v: HeaderValue): (signature: string)
    ensures (ToStr(v).Some? && SignaturePrefix <= ToStr(v).value) ==>
      SignaturePrefix + signature == ToStr(v).value
    ensures !(ToStr(v).Some? && SignaturePrefix <= ToStr(v).value) ==> signature == ""
  {
    match ToStr(v)
    case Some(text) => if SignaturePrefix <= text then text[|SignaturePrefix|..] else ""
    case None => ""
  }

  /** What the guard does with a request: pass it on, or answer with an error. */
  datatype Verdict = Forward | Reject(code: ErrorCode)

  /** The signature branch runs: a POST from GitHub's agent while a secret is set. */
  predicate ChecksSignature(verb: Method, headers: Headers, secret: Option<string>)
  {
    verb == Post && UserAgentAccepted(headers) && secret.Some?
  }

  /**
   * The guard as a function of the request: its verdict, and the body the
   * request holds afterwards (drained and re-filled as one buffer when the
   * signature was checked).
   */
  function Guard(verb: Method, headers: Headers, secret: Option<string>,
                 body: seq<seq<byte>>, isValid: SignatureCheck): (r: (Verdict, seq<seq<byte>>))
    ensures r.0.Forward? <==>
      verb != Post ||
      (UserAgentAccepted(headers) &&
       (secret.None? ||
        (SignatureHeader in headers &&
         isValid(ExtractSignature(headers[SignatureHeader]), Flatten(body), secret.value))))
    ensures r.0.Reject? ==>
      r.0.code == (if !UserAgentAccepted(headers) then InvalidUserAgent else InvalidSignature)
    ensures r.0.Forward? ==> Flatten(r.1) == Flatten(body)
    ensures !ChecksSignature(verb, headers, secret) ==> r.1 == body
  {
    if verb != Post then (Forward, body)
    else if !UserAgentAccepted(headers) then (Reject(InvalidUserAgent), body)
    else if secret.None? then (Forward, body)
    else if SignatureHeader !in headers then (Reject(InvalidSignature), body)
    else
      var bytes := Flatten(body);
      if !isValid(ExtractSignature(headers[SignatureHeader]), bytes, secret.value) then
        (Reject(InvalidSignature), [])
      else (Forward, BodyFrom(bytes))
  }

  /** The request as the guard sees it: its body is a stream of chunks consumed in place. */
  class Request {
    const verb: Method
    const headers: Headers
    var body: seq<seq<byte>>

    constructor(verb: Method, headers: Headers, body: seq<seq<byte>>)
      ensures this.verb == verb && this.headers == headers && this.body == body
    {
      this.verb := verb;
      this.headers := headers;
      this.body := body;
    }

    /** Read every chunk of the body into one buffer, leaving the stream empty. */
    method DrainBody() returns (bytes: seq<byte>)
      modifies this`body
      ensures bytes == Flatten(old(body))
      ensures body == []
    {
      bytes := [];
      while body != []
        invariant bytes + Flatten(body) == Flatten(old(body))
        decreases |body|
      {
        var chunk := body[0];
        assert Flatten(body) == chunk + Flatten(body[1..]);
        bytes := bytes + chunk;
        body := body[1..];
      }
    }
  }

  /**
   * `VerifyGitHubSignatureMiddleware::call`: `None` when the request is
   * passed on to the inner service, `Some(code)` for the error response.
   */
  method Call(request: Request, secret: Option<string>, isValid: SignatureCheck)
    returns (rejected: Option<ErrorCode>)
    modifies request`body
    ensures var r := Guard(request.verb, request.headers, secret, old(request.body), isValid);
      (rejected.None? <==> r.0.Forward?) &&
      (r.0.Reject? ==> rejected == Some(r.0.code)) &&
      request.body == r.1
  {
    if request.verb == Post {
      var headers := request.headers;
      if !UserAgentAccepted(headers) {
        return Some(InvalidUserAgent);
      }
      if secret.Some? {
        if SignatureHeader in headers {
          var signature := ExtractSignature(headers[SignatureHeader]);
          var bytes := request.DrainBody();
          if !isValid(signature, bytes, secret.value) {
            return Some(InvalidSignature);
          }
          request.body := BodyFrom(bytes);
        } else {
          return Some(InvalidSignature);
        }
      }
    }
    return None;
  }

  /** The user agent is checked before anything else, whatever the secret and signature. */
  lemma UserAgentCheckedFirst(headers: Headers, secret: Option<string>,
                              body: seq<seq<byte>>, isValid: SignatureCheck)
    requires !UserAgentAccepted(headers)
    ensures Guard(Post, headers, secret, body, isValid).0 == Reject(InvalidUserAgent)
  {
  }

  /** Without a secret, a POST from GitHub's agent passes with its body untouched. */
  lemma NoSecretSkipsSignature(headers: Headers, body: seq<seq<byte>>, isValid: SignatureCheck)
    requires UserAgentAccepted(headers)
    ensures Guard(Post, headers, None, body, isValid) == (Forward, body)
  {
  }

  /** With a secret, a request without the signature header is rejected. */
  lemma MissingSignatureRejected(headers: Headers, secret: string,
                                 body: seq<seq<byte>>, isValid: SignatureCheck)
    requires UserAgentAccepted(headers) && SignatureHeader !in headers
    ensures Guard(Post, headers, Some(secret), body, isValid).0 == Reject(InvalidSignature)
  {
  }

  /** A `sha256=`-prefixed text header yields exactly the text after the prefix. */
  lemma PrefixStripped(signature: string)
    requires forall i :: 0 <= i < |signature| ==> 32 <= signature[i] as int < 127
    ensures ExtractSignature(FromText(SignaturePrefix + signature)) == signature
  {
    var text := SignaturePrefix + signature;
    assert forall i :: 0 <= i < |text| ==> 32 <= text[i] as int < 127;
    assert text[|SignaturePrefix|..] == signature;
  }

  /**
   * A signed GitHub request passes exactly when the check accepts the hex
   * text after `sha256=` over the whole body, and then reaches the inner
   * service with the same bytes.
   */
  lemma SignedRequestVerdict(headers: Headers, signature: string, secret: string,
                             body: seq<seq<byte>>, isValid: SignatureCheck)
    requires UserAgentAccepted(headers)
    requires forall i :: 0 <= i < |signature| ==> 32 <= signature[i] as int < 127
    requires SignatureHeader in headers
    requires headers[SignatureHeader] == FromText(SignaturePrefix + signature)
    ensures var r := Guard(Post, headers, Some(secret), body, isValid);
      (r.0.Forward? <==> isValid(signature, Flatten(body), secret)) &&
      (r.0.Forward? ==> Flatten(r.1) == Flatten(body)) &&
      (r.0.Reject? ==> r.0 == Reject(InvalidSignature))
  {
    PrefixStripped(signature);
  }

  /** Requests other than POST pass untouched, signed or not. */
  lemma OtherMethodsPass(verb: Method, headers: Headers, secret: Option<string>,
                         body: seq<seq<byte>>, isValid: SignatureCheck)
    requires verb != Post
    ensures Guard(verb, headers, secret, body, isValid) == (Forward, body)
  {
  }
}
