// GlobalExceptionHandler: the HTTP status and JSON body the REST layer sends
// for a domain exception and for an error status returned by Kramerius.
module ErrorHandler {
  import opened Wrappers
  import opened JavaText

  const InternalServerError: int := 500
  const BadGateway: int := 502
  const MaxBodySnippet: nat := 2000
  const NoBody: string := "(no body)"
  const UpstreamError: string := "Upstream error"

  /** The JSON error body; the upstream fields are present only for upstream errors. */
  datatype ErrorBody = ErrorBody(status: int, message: string,
                                 upstreamStatus: Option<int>, upstreamBody: Option<string>)

  datatype ErrorResponse = ErrorResponse(status: int, body: ErrorBody)

  datatype HandlerError =
    | NullMessage          // Map.of refuses the null value of a message-less exception
    | UnknownStatus(code: int)   // HttpStatus.valueOf refuses a code it has no constant for

  /**
   * The framework's status table (HttpStatus): the reason phrase of every
   * code it has a constant for.  It is a parameter because it is the
   * framework's, not this code's.
   */
  type StatusTable = map<int, string>

  /** handleAltoEditorException: always 500 with the exception's message. */
  function HandleAltoEditorException(message: Option<string>): (r: Result<ErrorResponse, HandlerError>)
    ensures message.None? ==> r == Err(NullMessage)
    ensures message.Some? ==>
      (r.Ok? && r.value.status == InternalServerError
       && r.value.body.status == InternalServerError && r.value.body.message == message.value
       && r.value.body.upstreamStatus.None?)
  {
    match message
    case None => Err(NullMessage)
    case Some(m) => Ok(ErrorResponse(InternalServerError, ErrorBody(InternalServerError, m, None, None)))
  }

  predicate IsServerError(code: int)
  {
    500 <= code < 600
  }

  /** The body excerpt: "(no body)" for a null or blank body, long bodies cut at 2000 chars. */
  function BodySnippet(body: Option<string>): (r: string)
    ensures body.None? || IsBlank(body.value) ==> r == NoBody
    ensures body.Some? && !IsBlank(body.value) && |body.value| <= MaxBodySnippet ==> r == body.value
    ensures body.Some? && !IsBlank(body.value) && |body.value| > MaxBodySnippet ==>
      |r| == MaxBodySnippet + 3 && r[..MaxBodySnippet] == body.value[..MaxBodySnippet] && r[MaxBodySnippet..] == "..."
  {
    match body
    case None => NoBody
    case Some(b) =>
      if IsBlank(b) then NoBody
      else if |b| > MaxBodySnippet then b[..MaxBodySnippet] + "..."
      else b
  }

  /**
   * handleUpstreamHttpError: any 5xx becomes 502 Bad Gateway, every other code
   * is passed on (through HttpStatus.valueOf, which refuses unknown codes);
   * the body keeps the original code, its reason phrase and the body excerpt.
   */
  function HandleUpstreamHttpError(table: StatusTable, code: int, body: Option<string>)
    : (r: Result<ErrorResponse, HandlerError>)
    ensures r.Err? <==> !IsServerError(code) && code !in table
    ensures r.Ok? ==>
      (r.value.status == r.value.body.status
       && r.value.body.upstreamStatus == Some(code)
       && r.value.body.upstreamBody == Some(BodySnippet(body))
       && r.value.body.message == (if code in table then table[code] else UpstreamError))
  {
    var status := if IsServerError(code) then BadGateway else code;
    if !IsServerError(code) && code !in table then Err(UnknownStatus(code))
    else
      var message := if code in table then table[code] else UpstreamError;
      Ok(ErrorResponse(status, ErrorBody(status, message, Some(code), Some(BodySnippet(body)))))
  }

  // ---------------------------------------------------------------------
  // Properties

  /** Every upstream 5xx, known to the table or not, is reported as 502. */
  lemma ServerErrorsBecomeBadGateway(table: StatusTable, code: int, body: Option<string>)
    requires IsServerError(code)
    ensures var r := HandleUpstreamHttpError(table, code, body);
      r.Ok? && r.value.status == BadGateway && r.value.body.upstreamStatus == Some(code)
  {
  }

  /** A known code outside 5xx is passed through unchanged. */
  lemma OtherStatusPassedThrough(table: StatusTable, code: int, body: Option<string>)
    requires !IsServerError(code) && code in table
    ensures var r := HandleUpstreamHttpError(table, code, body);
      r.Ok? && r.value.status == code && r.value.body.message == table[code]
  {
  }

  /** The excerpt never exceeds 2003 chars, and a non-blank body's excerpt starts with the body. */
  lemma BodySnippetBounded(body: Option<string>)
    ensures |BodySnippet(body)| <= MaxBodySnippet + 3
    ensures body.Some? && !IsBlank(body.value) ==>
      var n := if |body.value| < MaxBodySnippet then |body.value| else MaxBodySnippet;
      BodySnippet(body)[..n] == body.value[..n]
  {
  }
}
