/** The HTTP helper of utils/network.js: how `fetchJsonWithTimeout` turns a response into a
    parsed body or an error, and how `getErrorMessage` picks the text shown to the user.
    The network, the timer and `JSON.parse` are parameters: the transport outcome says
    whether the request was aborted by the timer, failed, or received a response. */
module Network {
  import opened Wrappers
  import opened Truthiness
  import opened Text

  /** The fields of a parsed JSON body the error path reads. */
  datatype Body = Body(error: Option<string>, message: Option<string>)

  datatype HttpResponse = HttpResponse(ok: bool, status: int, statusText: string, rawBody: string)

  /** What became of the request: aborted when the timer fired first, failed with the
      error `fetch` threw, or a response was received. */
  datatype Transport = Aborted | Failed(reason: string) | Received(response: HttpResponse)

  /** The error thrown to the caller, with the status and body when there was a response. */
  datatype RequestError = RequestError(message: string, status: Option<int>, body: Option<Body>)

  /** The parsed body: `null` for an empty body, else what `JSON.parse` gives, `null` when it
      throws (`parse` returns `None` for text that is not JSON). */
  function ParsedBody(rawBody: string, parse: string -> Option<Body>): (r: Option<Body>)
    ensures rawBody == "" ==> r.None?
    ensures rawBody != "" ==> r == parse(rawBody)
  {
    if rawBody == "" then None else parse(rawBody)
  }

  /** The message of a failed response: the body's `error`, else its `message`, else
      'HTTP <status> <statusText>' trimmed. It is never empty. */
  function ErrorMessage(body: Option<Body>, status: int, statusText: string): (m: string)
    ensures m != ""
    ensures body.Some? && TruthyStr(body.value.error) ==> m == body.value.error.value
    ensures body.Some? && !TruthyStr(body.value.error) && TruthyStr(body.value.message) ==>
              m == body.value.message.value
    ensures (body.None? || (!TruthyStr(body.value.error) && !TruthyStr(body.value.message))) ==>
              m == Trim("HTTP " + IntToString(status) + " " + statusText)
  {
    if body.Some? && TruthyStr(body.value.error) then body.value.error.value
    else if body.Some? && TruthyStr(body.value.message) then body.value.message.value
    else
      var line := "HTTP " + IntToString(status) + " " + statusText;
      assert line[0] == 'H';
      TrimStartOfUnspaced(line);
      TrimEndOfUnspacedStart(line);
      Trim(line)
  }

  /** Text that does not start with white space is its own `trimStart`. */
  lemma TrimStartOfUnspaced(s: string)
    requires s != [] && !IsSpace(s[0])
    ensures TrimStart(s) == s
  {
  }

  /** Trimming the end of text that does not start with white space leaves it non-empty. */
  lemma TrimEndOfUnspacedStart(s: string)
    requires s != [] && !IsSpace(s[0])
    ensures TrimEnd(s) != []
  {
  }

  /** Without a body and a status text, the message is 'HTTP <status>'. */
  lemma {:induction false} StatusOnlyMessage(status: nat)
    ensures ErrorMessage(None, status, "") == "HTTP " + NatToString(status)
  {
    var digits := NatToString(status);
    var head := "HTTP " + digits;
    assert "HTTP " + IntToString(status) + " " + "" == head + " ";
    assert head[0] == 'H' && head[|head| - 1] == digits[|digits| - 1];
    TrimOneTrailingSpace(head);
  }

  /** `fetchJsonWithTimeout(url, options, timeoutMs)`, after the transport outcome is known:
      a timer abort becomes a timed-out error, a failure is rethrown, an ok response gives
      its parsed body and any other response an error carrying its message, status and
      body. */
  method FetchJsonWithTimeout(transport: Transport, parse: string -> Option<Body>, timeoutMs: int)
    returns (r: Result<Option<Body>, RequestError>)
    ensures transport.Aborted? ==>
              r == Err(RequestError("Request timed out after " + IntToString(timeoutMs) + " ms", None, None))
    ensures transport.Failed? ==> r == Err(RequestError(transport.reason, None, None))
    ensures transport.Received? && transport.response.ok ==>
              r == Ok(ParsedBody(transport.response.rawBody, parse))
    ensures transport.Received? && !transport.response.ok ==>
              var body := ParsedBody(transport.response.rawBody, parse);
              r == Err(RequestError(ErrorMessage(body, transport.response.status, transport.response.statusText),
                                    Some(transport.response.status), body))
    ensures r.Ok? <==> transport.Received? && transport.response.ok
  {
    match transport {
      case Aborted =>
        return Err(RequestError("Request timed out after " + IntToString(timeoutMs) + " ms", None, None));
      case Failed(reason) =>
        return Err(RequestError(reason, None, None));
      case Received(response) =>
        var parsedBody: Option<Body> := None;
        if response.rawBody != "" {
          parsedBody := parse(response.rawBody);
        }
        if !response.ok {
          var errorMessage := ErrorMessage(parsedBody, response.status, response.statusText);
          return Err(RequestError(errorMessage, Some(response.status), parsedBody));
        }
        return Ok(parsedBody);
    }
  }

  /** A thrown value as `getErrorMessage` sees it: something falsy, a string, or an object
      with an optional `message`. */
  datatype Thrown = Falsy | ThrownString(text: string) | ThrownObject(message: Option<string>)

  /** `getErrorMessage(error, fallback)`: the fallback for a falsy error, a string error
      itself, else the error's message when it is truthy and the fallback otherwise. With a
      non-empty fallback the result is never empty. */
  function GetErrorMessage(error: Thrown, fallback: string): (r: string)
    ensures error.Falsy? ==> r == fallback
    ensures error.ThrownString? ==> r == if error.text == "" then fallback else error.text
    ensures error.ThrownObject? ==> r == if TruthyStr(error.message) then error.message.value else fallback
    ensures fallback != "" ==> r != ""
  {
    match error
    case Falsy => fallback
    case ThrownString(text) => if text == "" then fallback else text
    case ThrownObject(message) => if TruthyStr(message) then message.value else fallback
  }

  /** The message of an HTTP error always reaches the user: `getErrorMessage` on the error
      `fetchJsonWithTimeout` throws for a failed response is that error's message. */
  lemma HttpErrorsAreReported(response: HttpResponse, parse: string -> Option<Body>, fallback: string)
    requires !response.ok
    ensures var m := ErrorMessage(ParsedBody(response.rawBody, parse), response.status, response.statusText);
            GetErrorMessage(ThrownObject(Some(m)), fallback) == m
  {
  }
}
