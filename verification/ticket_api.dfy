/** The request-handling decisions of the timestamp service's HTTP API
    (index.js, and the same handlers in timestamp/index.js): the length of
    a ticket request's query, the answer to an oversized query, the
    shaping of a verification result into an error text, the answer of the
    verify route, and the error handler's choice of answer. Express itself,
    the schema library and the signature check are outside the model: the
    schema verdict and the signature verdict are inputs. */
module TicketApi {
  import opened Wrappers
  import opened JsText

  /** The content type a response goes out with: `type('text/plain')`,
      `res.json`, or the HTML type Express picks for a string sent without
      one. */
  datatype ContentType = TextPlain | Html | Json

  /** The HTML pages loaded at startup. */
  datatype Page = HomePage | Error404Page | Error500Page

  datatype Body = Text(text: string) | TicketJson | PageBody(page: Page)

  /** A response as the client receives it. Express answers 200 unless a
      handler sets another status. */
  datatype Response = Response(status: int, contentType: ContentType, body: Body)

  const PayloadTooLarge := "Request error: payload too large"
  const InvalidLine := "invalid\n\n"

  // ---------------------------------------------------------------------
  // The ticket route

  /** `req.url.length - (queryBegin < 0 ? req.url.length : queryBegin + 1)`. */
  function QueryLength(url: string): (n: int)
    ensures n >= 0
  {
    var queryBegin := IndexOf(url, '?');
    |url| - (if queryBegin < 0 then |url| else queryBegin + 1)
  }

  /** The query length counts the characters after the first `?`. */
  lemma QueryLengthAfterMark(path: string, query: string)
    requires '?' !in path
    ensures QueryLength(path + "?" + query) == |query|
  {
    var url := path + "?" + query;
    assert url[|path|] == '?' && url[..|path|] == path;
    IndexOfAt(url, '?', |path|);
  }

  /** A URL without `?` has an empty query. */
  lemma QueryLengthWithoutMark(url: string)
    requires '?' !in url
    ensures QueryLength(url) == 0
  {
  }

  /** `queryLength > maxNumCustomDataBytes`, where the limit is
      `parseInt(CUSTOM_DATA_LIMIT)`: `None` stands for NaN, which no
      comparison satisfies. */
  function QueryTooLong(url: string, limit: Option<int>): (b: bool)
    ensures limit.Some? && limit.value < 0 ==> b
    ensures limit.Some? && limit.value >= 0 && b ==> '?' in url
  {
    if '?' !in url then
      QueryLengthWithoutMark(url);
      limit.Some? && QueryLength(url) > limit.value
    else limit.Some? && QueryLength(url) > limit.value
  }

  /** The 414 answer to an oversized query. */
  const QueryTooLongResponse := Response(414, TextPlain, Text(InvalidLine + PayloadTooLarge))

  /** The signed ticket, sent with `res.json`. */
  const TicketResponse := Response(200, Json, TicketJson)

  /** What one call of the ticket handler does: the sends it attempts, in
      order, and whether it signed a ticket. Only the first send reaches the
      client; a second one raises Express's "headers already sent" error,
      which goes to the error handler. */
  datatype TicketRun = TicketRun(sends: seq<Response>, signed: bool)
  {
    predicate Raises() { |sends| > 1 }
  }

  /** The handler as written: after the 414 answer it does not return, so it
      still signs a ticket and tries to send it. */
  function TicketAsWritten(url: string, limit: Option<int>): (r: TicketRun)
    ensures r.signed && |r.sends| >= 1 && r.sends[|r.sends| - 1] == TicketResponse
    ensures r.Raises() <==> QueryTooLong(url, limit)
    ensures QueryTooLong(url, limit) ==> r.sends[0] == QueryTooLongResponse
  {
    if QueryTooLong(url, limit) then TicketRun([QueryTooLongResponse, TicketResponse], true)
    else TicketRun([TicketResponse], true)
  }

  /** The handler returning after the 414 answer. */
  function Ticket(url: string, limit: Option<int>): (r: TicketRun)
    ensures |r.sends| == 1 && !r.Raises()
    ensures r.signed <==> !QueryTooLong(url, limit)
    ensures r.sends[0] == (if QueryTooLong(url, limit) then QueryTooLongResponse else TicketResponse)
  {
    if QueryTooLong(url, limit) then TicketRun([QueryTooLongResponse], false)
    else TicketRun([TicketResponse], true)
  }

  /** As written, an oversized query is answered 414, yet a ticket is signed
      for it and the attempt to send that ticket raises an error. */
  lemma OversizedQueryStillSigned(path: string, query: string, limit: int)
    requires '?' !in path && |query| > limit
    ensures var r := TicketAsWritten(path + "?" + query, Some(limit));
            r.sends[0] == QueryTooLongResponse && r.signed && r.Raises()
  {
    QueryLengthAfterMark(path, query);
  }

  /** With the early return the handler signs a ticket exactly when it
      answers with one. */
  lemma TicketSignedIffSent(url: string, limit: Option<int>)
    ensures Ticket(url, limit).signed <==> Ticket(url, limit).sends == [TicketResponse]
  {
  }

  /** Both handlers agree on every query within the limit. */
  lemma TicketAgreesWithinLimit(url: string, limit: Option<int>)
    requires !QueryTooLong(url, limit)
    ensures TicketAsWritten(url, limit) == Ticket(url, limit)
  {
  }

  /** A limit that reads as NaN never refuses a query. */
  lemma UnsetLimitNeverRefuses(url: string)
    ensures Ticket(url, None).sends == [TicketResponse]
  {
  }

  // ---------------------------------------------------------------------
  // Verification

  /** The schema library's verdict on a ticket: valid, or the messages of
      the details it reports. */
  datatype SchemaResult = SchemaValid | SchemaInvalid(details: seq<string>)

  const SchemaErrorPrefix := "Schema error: "
  const SignatureError := "Signature error"

  /** The text after `Schema error: `: the detail messages joined by line
      breaks, or `unknown error` when there are none. */
  function SchemaMessage(details: seq<string>): (m: string)
    ensures details == [] ==> m == "unknown error"
    ensures details != [] ==> StartsWith(m, details[0])
    ensures |details| == 1 ==> m == details[0]
  {
    if |details| > 0 then Join(details, "\n") else "unknown error"
  }

  /** `verifyTicket` of index.js: a schema error first; otherwise the
      signature verdict. `None` stands for `error: null`. */
  function VerifyTicket(schema: SchemaResult, signatureValid: bool): (error: Option<string>)
    ensures error.None? <==> schema.SchemaValid? && signatureValid
    ensures schema.SchemaInvalid? ==> error == Some(SchemaErrorPrefix + SchemaMessage(schema.details))
    ensures schema.SchemaValid? && !signatureValid ==> error == Some(SignatureError)
  {
    match schema
    case SchemaInvalid(details) => Some(SchemaErrorPrefix + SchemaMessage(details))
    case SchemaValid => if signatureValid then None else Some(SignatureError)
  }

  /** The verify route's answer: 422 with the error under an `invalid`
      line, or 200 `ok`. */
  function VerifyResponse(error: Option<string>): (r: Response)
    ensures r.contentType == TextPlain && r.body.Text?
    ensures r.status == 200 <==> error.None?
    ensures r.status == 422 <==> error.Some?
    ensures error.Some? ==> StartsWith(r.body.text, InvalidLine) && r.body.text[|InvalidLine|..] == error.value
  {
    match error
    case None => Response(200, TextPlain, Text("ok"))
    case Some(e) =>
      var text := InvalidLine + e;
      assert text[|InvalidLine|..] == e;
      Response(422, TextPlain, Text(text))
  }

  /** A client can tell the failures apart: a schema error never reads as a
      signature error, and an accepted ticket is answered `ok`. */
  lemma VerifyOutcomes(schema: SchemaResult, signatureValid: bool)
    ensures var r := VerifyResponse(VerifyTicket(schema, signatureValid));
            && (r.body == Text("ok") <==> schema.SchemaValid? && signatureValid)
            && (r.body == Text(InvalidLine + SignatureError) <==> schema.SchemaValid? && !signatureValid)
            && (schema.SchemaInvalid? ==> StartsWith(r.body.text, InvalidLine + SchemaErrorPrefix))
  {
    if schema.SchemaInvalid? {
      SchemaTextDistinct(SchemaMessage(schema.details));
    }
  }

  /** A schema error's text, whatever its message, keeps its prefix and
      differs from the signature error and from `ok`. */
  lemma SchemaTextDistinct(m: string)
    ensures var text := InvalidLine + SchemaErrorPrefix + m;
            && StartsWith(text, InvalidLine + SchemaErrorPrefix)
            && text != InvalidLine + SignatureError
            && text != "ok"
  {
    var text := InvalidLine + SchemaErrorPrefix + m;
    assert text[..|InvalidLine + SchemaErrorPrefix|] == InvalidLine + SchemaErrorPrefix;
    assert text[|InvalidLine| + 7] == 'e' != (InvalidLine + SignatureError)[|InvalidLine| + 7];
    assert |text| > 2;
  }

  // ---------------------------------------------------------------------
  // Unknown routes and the error handler

  /** The answer to a GET under `/v1/` that no route takes. */
  function UnknownApiRoute(url: string): (r: Response)
    ensures r.status == 404 && r.contentType == TextPlain
    ensures r.body == Text("Error: Unknown api route \"" + url + "\"")
  {
    Response(404, TextPlain, Text("Error: Unknown api route \"" + url + "\""))
  }

  /** Any other GET no route takes gets the 404 page, sent without a status. */
  const UnknownPage := Response(200, Html, PageBody(Error404Page))

  /** The error a handler or middleware passes on: an `HttpError` with its
      status (the body parser's 413 among them) or any other error. */
  datatype HandlerError = HttpError(status: int) | OtherError

  /** What the error handler does: its answer, and whether it then calls
      `next(err)`. */
  datatype ErrorOutcome = ErrorOutcome(response: Response, passedOn: bool)

  /** The error handler: an oversized body under `/v1/api` gets 413, with the
      `invalid` line only for the verify route, and is handled; any other
      error under `/v1/api` gets 500 `internal error`; anything else gets the
      500 page sent without a status. Both of those pass the error on. */
  function HandleError(url: string, err: HandlerError): (o: ErrorOutcome)
    ensures o.response.status == 413 <==> StartsWith(url, "/v1/api") && err == HttpError(413)
    ensures !o.passedOn <==> o.response.status == 413
    ensures o.response.status == 413 ==>
              o.response == Response(413, TextPlain,
                Text((if StartsWith(url, "/v1/api/verify") then InvalidLine else "") + PayloadTooLarge))
    ensures StartsWith(url, "/v1/api") && err != HttpError(413) ==>
              o.response == Response(500, Html, Text("internal error"))
    ensures !StartsWith(url, "/v1/api") ==> o.response == Response(200, Html, PageBody(Error500Page))
  {
    if StartsWith(url, "/v1/api") then
      if err.HttpError? && err.status == 413 then
        var resultLine := if StartsWith(url, "/v1/api/verify") then InvalidLine else "";
        ErrorOutcome(Response(err.status, TextPlain, Text(resultLine + PayloadTooLarge)), false)
      else ErrorOutcome(Response(500, Html, Text("internal error")), true)
    else ErrorOutcome(Response(200, Html, PageBody(Error500Page)), true)
  }

  /** An oversized verify request reads like a failed verification whose
      error is the size: the same text as a 422 answer, under status 413;
      and it is the text of the ticket route's 414 answer. */
  lemma OversizedVerifyReadsInvalid(url: string)
    requires StartsWith(url, "/v1/api/verify")
    ensures HandleError(url, HttpError(413)).response.body == VerifyResponse(Some(PayloadTooLarge)).body
    ensures HandleError(url, HttpError(413)).response.body == QueryTooLongResponse.body
    ensures HandleError(url, HttpError(413)).response.status == 413
  {
    assert StartsWith(url, "/v1/api") by {
      assert url[..7] == url[..14][..7];
    }
  }

  /** The error the as-written ticket handler raises on an oversized query
      reaches the error handler under `/v1/api` as a plain error, whose
      branch answers 500. The 414 has already been sent, so that send throws
      `ERR_HTTP_HEADERS_SENT` in turn and `next(err)` is not reached; the
      model stops at the branch taken. */
  lemma OversizedTicketErrorHandled(url: string, limit: Option<int>)
    requires StartsWith(url, "/v1/api") && QueryTooLong(url, limit)
    ensures TicketAsWritten(url, limit).Raises()
    ensures HandleError(url, OtherError) == ErrorOutcome(Response(500, Html, Text("internal error")), true)
  {
  }
}
