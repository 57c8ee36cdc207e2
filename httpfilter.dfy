/**
 * The global exception filter: every exception a request handler throws is
 * turned into a JSON error response and one log line.
 */
module HttpFilter {
  import opened Common

  /** A JavaScript value as far as the filter looks at it. */
  datatype Value = Text(s: string) | List(items: seq<Value>) | Number(n: int) | Null | Undefined

  /** What `HttpException.getResponse()` returns: a string, an object, or some other value. */
  datatype Body = NoBody | BodyText(text: string) | BodyObject(fields: map<string, Value>) | BodyOther(value: Value)

  /**
   * What was thrown: an HttpException (an Error with a status and a response
   * body), any other Error, or a value that is not an Error at all.
   */
  datatype Exception =
    | HttpError(status: nat, response: Body, message: string, stack: string)
    | PlainError(message: string, stack: string)
    | Thrown(value: Value)
  {
    predicate IsError()
    {
      HttpError? || PlainError?
    }
  }

  datatype Request = Request(httpMethod: string, url: string)

  datatype Payload = Payload(statusCode: nat, message: Value, path: string, timestamp: string)

  datatype LogEntry = ErrorLog(text: string, trace: Option<string>) | WarnLog(text: string)

  /** The response status, the JSON body sent with it, and the log line. */
  datatype Outcome = Outcome(status: nat, payload: Payload, log: LogEntry)

  const InternalServerError: nat := 500
  const DefaultMessage := "Internal server error"

  /** An HttpException's own status; 500 for anything else. */
  function StatusOf(exception: Exception): nat
  {
    if exception.HttpError? then exception.status else InternalServerError
  }

  /** An HttpException's response body; null for anything else. */
  function ResponseBodyOf(exception: Exception): Body
  {
    if exception.HttpError? then exception.response else NoBody
  }

  /**
   * The message, in order of preference: a string body as it is; the
   * `message` property of an object body that has one, whatever it holds;
   * the Error's own message; a fixed text.
   */
  function ExtractMessage(body: Body, exception: Exception): (m: Value)
    ensures body.BodyText? ==> m == Text(body.text)
    ensures body.BodyObject? && "message" in body.fields ==> m == body.fields["message"]
    ensures !body.BodyText? && !(body.BodyObject? && "message" in body.fields) ==>
      m == (if exception.IsError() then Text(exception.message) else Text(DefaultMessage))
  {
    if body.BodyText? then Text(body.text)
    else if body.BodyObject? && "message" in body.fields then body.fields["message"]
    else if exception.IsError() then Text(exception.message)
    else Text(DefaultMessage)
  }

  /** `${method} ${url} -> ${status}`. */
  function LogText(request: Request, status: nat): string
  {
    request.httpMethod + " " + request.url + " -> " + Decimal(status)
  }

  /** A server error is logged as an error, with the stack when an Error was thrown; anything else as a warning. */
  function LogFor(request: Request, status: nat, exception: Exception): LogEntry
  {
    if status >= 500 then ErrorLog(LogText(request, status), if exception.IsError() then Some(exception.stack) else None)
    else WarnLog(LogText(request, status))
  }

  /** `catch`: the clock's reading is a parameter. */
  function Catch(exception: Exception, request: Request, timestamp: string): (o: Outcome)
    ensures exception.HttpError? ==> o.status == exception.status
    ensures !exception.HttpError? ==> o.status == InternalServerError
    ensures o.payload.statusCode == o.status && o.payload.path == request.url && o.payload.timestamp == timestamp
    ensures o.payload.message == ExtractMessage(ResponseBodyOf(exception), exception)
    ensures o.log.ErrorLog? <==> o.status >= 500
    ensures o.log.ErrorLog? ==> (o.log.trace.Some? <==> exception.IsError())
    ensures o.log.text == LogText(request, o.status)
  {
    var status := StatusOf(exception);
    var message := ExtractMessage(ResponseBodyOf(exception), exception);
    Outcome(status, Payload(status, message, request.url, timestamp), LogFor(request, status, exception))
  }

  /** The status sent is the one in the payload, the path is the request's URL, the timestamp the clock's. */
  lemma PayloadEchoesRequest(exception: Exception, request: Request, timestamp: string)
    ensures var o := Catch(exception, request, timestamp);
            o.payload.statusCode == o.status && o.payload.path == request.url && o.payload.timestamp == timestamp
    ensures exception.HttpError? ==> Catch(exception, request, timestamp).status == exception.status
  {
  }

  /** Anything but an HttpException is a 500 logged as an error: an Error with its message and stack, any other value with the fixed text. */
  lemma UnexpectedExceptionIs500(exception: Exception, request: Request, timestamp: string)
    requires !exception.HttpError?
    ensures var o := Catch(exception, request, timestamp);
            && o.status == 500 && o.log.ErrorLog?
            && (exception.PlainError? ==> o.payload.message == Text(exception.message) && o.log.trace == Some(exception.stack))
            && (exception.Thrown? ==> o.payload.message == Text(DefaultMessage) && o.log.trace.None?)
  {
  }

  /** An HttpException with a string body answers with that string, even an empty one. */
  lemma StringBodyIsTheMessage(status: nat, text: string, message: string, stack: string, request: Request, timestamp: string)
    ensures Catch(HttpError(status, BodyText(text), message, stack), request, timestamp).payload.message == Text(text)
  {
  }

  /** An object body's `message` passes through unchanged, a list of validation messages included. */
  lemma ObjectMessagePassesThrough(status: nat, fields: map<string, Value>, message: string, stack: string,
                                   request: Request, timestamp: string)
    requires "message" in fields
    ensures Catch(HttpError(status, BodyObject(fields), message, stack), request, timestamp).payload.message == fields["message"]
  {
  }

  /** An HttpException whose body has no `message` falls back to the exception's own message. */
  lemma BodyWithoutMessageUsesErrorMessage(status: nat, body: Body, message: string, stack: string,
                                           request: Request, timestamp: string)
    requires !body.BodyText? && !(body.BodyObject? && "message" in body.fields)
    ensures Catch(HttpError(status, body, message, stack), request, timestamp).payload.message == Text(message)
  {
  }

  /** The log level follows the status alone: an error from 500 up, a warning below. */
  lemma LogLevelFollowsStatus(exception: Exception, request: Request, timestamp: string)
    ensures var o := Catch(exception, request, timestamp);
            o.log.ErrorLog? <==> o.status >= 500
    ensures var o := Catch(exception, request, timestamp);
            o.log.WarnLog? <==> o.status < 500
  {
  }

  /** The log line ends with the status in decimal, so the status reads back from it. */
  lemma LogLineNamesStatus(exception: Exception, request: Request, timestamp: string)
    ensures var o := Catch(exception, request, timestamp);
            var prefix := request.httpMethod + " " + request.url + " -> ";
            var text := o.log.text;
            && prefix <= text
            && (forall i :: |prefix| <= i < |text| ==> '0' <= text[i] <= '9')
            && ParseDecimal(text[|prefix|..]) == o.status
  {
    var o := Catch(exception, request, timestamp);
    var prefix := request.httpMethod + " " + request.url + " -> ";
    var text := LogText(request, o.status);
    assert text[|prefix|..] == Decimal(o.status);
    DecimalRoundTrip(o.status);
  }
}
