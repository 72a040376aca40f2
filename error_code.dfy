/** Request-facing errors and their HTTP rendering details (src/error.rs). */
module ErrorCodes {

  import opened Wrappers

  const BadRequest: nat := 400
  const InternalServerError: nat := 500

  datatype ErrorCode =
    | MissingEventHeader
    | InvalidSignature
    | InvalidUserAgent
    | MalformedEventHeader
    | UnsupportedEventHeader(event: string)
    /** Carries the text of the JSON parser's error. */
    | MalformedEventBody(parseError: string)
    | MalformedEventBodyField(field: string, reason: string)
    | UnhandledError(message: string)

  /** `ErrorCodeDetail`: status code, machine-readable code and message. */
  datatype ErrorCodeDetail = ErrorCodeDetail(statusCode: nat, internalCode: nat, message: string)

  /** `with_status_code`. */
  function WithStatusCode(statusCode: nat, internalCode: nat, message: string): (d: ErrorCodeDetail)
    ensures StatusCode(d) == statusCode && InternalCode(d) == internalCode && d.message == message
  {
    ErrorCodeDetail(statusCode, internalCode, message)
  }

  function BadRequestDetail(internalCode: nat, message: string): ErrorCodeDetail
  {
    WithStatusCode(BadRequest, internalCode, message)
  }

  function ServerErrorDetail(internalCode: nat, message: string): ErrorCodeDetail
  {
    WithStatusCode(InternalServerError, internalCode, message)
  }

  function StatusCode(d: ErrorCodeDetail): nat { d.statusCode }

  function InternalCode(d: ErrorCodeDetail): nat { d.internalCode }

  /**
   * `From<&ErrorCode> for ErrorCodeDetail`: every variant is a bad request
   * except the unhandled error, a server error; internal codes run from 1 to
   * 7, and 99 is the unhandled error's alone.
   */
  function Details(e: ErrorCode): (d: ErrorCodeDetail)
    ensures StatusCode(d) == (if e.UnhandledError? then InternalServerError else BadRequest)
    ensures 1 <= InternalCode(d) <= 7 || InternalCode(d) == 99
    ensures InternalCode(d) == 99 <==> e.UnhandledError?
  {
    match e
    case MissingEventHeader => BadRequestDetail(1, "Missing X-GitHub-Event header")
    case InvalidSignature => BadRequestDetail(2, "Invalid X-Hub-Signature-256 signature")
    case InvalidUserAgent => BadRequestDetail(3, "Invalid User-Agent")
    case MalformedEventHeader => BadRequestDetail(4, "Malformed event header")
    case UnsupportedEventHeader(event) =>
      BadRequestDetail(5, "Unsupported event header: '" + event + "'")
    case MalformedEventBody(err) =>
      BadRequestDetail(6, "Malformed event body: '" + err + "'")
    case MalformedEventBodyField(field, err) =>
      BadRequestDetail(7, "Malformed event body field '" + field + "': '" + err + "'")
    case UnhandledError(err) =>
      ServerErrorDetail(99, "Unhandled error: '" + err + "'")
  }

  /** `Display`: the detail's message and nothing else. */
  function Display(e: ErrorCode): (s: string)
    ensures s == Details(e).message
  {
    Details(e).message
  }

  /** The variant names, as a plain enumeration. */
  datatype Kind =
    | KMissingEventHeader | KInvalidSignature | KInvalidUserAgent | KMalformedEventHeader
    | KUnsupportedEventHeader | KMalformedEventBody | KMalformedEventBodyField | KUnhandledError

  function KindOf(e: ErrorCode): Kind
  {
    match e
    case MissingEventHeader => KMissingEventHeader
    case InvalidSignature => KInvalidSignature
    case InvalidUserAgent => KInvalidUserAgent
    case MalformedEventHeader => KMalformedEventHeader
    case UnsupportedEventHeader(_) => KUnsupportedEventHeader
    case MalformedEventBody(_) => KMalformedEventBody
    case MalformedEventBodyField(_, _) => KMalformedEventBodyField
    case UnhandledError(_) => KUnhandledError
  }

  /** What a client reads back from an internal code. */
  function KindOfCode(code: nat): Option<Kind>
  {
    if code == 1 then Some(KMissingEventHeader)
    else if code == 2 then Some(KInvalidSignature)
    else if code == 3 then Some(KInvalidUserAgent)
    else if code == 4 then Some(KMalformedEventHeader)
    else if code == 5 then Some(KUnsupportedEventHeader)
    else if code == 6 then Some(KMalformedEventBody)
    else if code == 7 then Some(KMalformedEventBodyField)
    else if code == 99 then Some(KUnhandledError)
    else None
  }

  /** The internal code identifies the variant: reading it back gives the variant. */
  lemma CodeIdentifiesVariant(e: ErrorCode)
    ensures KindOfCode(InternalCode(Details(e))) == Some(KindOf(e))
  {
  }

  /** Hence codes are distinct across variants. */
  lemma CodesDistinct(a: ErrorCode, b: ErrorCode)
    ensures InternalCode(Details(a)) == InternalCode(Details(b)) <==> KindOf(a) == KindOf(b)
  {
    CodeIdentifiesVariant(a);
    CodeIdentifiesVariant(b);
  }

  /** The messages that carry data quote it between single quotes. */
  lemma MessagesQuoteTheirData(event: string, field: string, reason: string)
    ensures Display(UnsupportedEventHeader(event)) == "Unsupported event header: '" + event + "'"
    ensures Display(MalformedEventBodyField(field, reason)) ==
      "Malformed event body field '" + field + "': '" + reason + "'"
  {
  }
}
