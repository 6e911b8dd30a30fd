/** The FastAPI integration: the `APIToolkit` client, the request and response
    objects it touches, `set_body`/`get_body`, `build_payload` and the middleware. */
module Toolkit {
  import opened Wrappers
  import opened Dicts
  import Utf8
  import Base64
  import opened Json
  import opened JsonPath
  import opened Redact

  type byte = Utf8.byte
  type Chunk = seq<byte>

  /** `b''.join(chunks)`. */
  function Concat(chunks: seq<Chunk>): seq<byte> {
    if chunks == [] then [] else chunks[0] + Concat(chunks[1..])
  }

  /** Joining a list of chunks split anywhere gives the two parts' bytes one after the
      other, so the bytes drained so far followed by the bytes still pending are the
      whole body. */
  lemma {:induction false} ConcatAppend(a: seq<Chunk>, b: seq<Chunk>)
    ensures Concat(a + b) == Concat(a) + Concat(b)
    decreases |a|
  {
    if a == [] {
      assert a + b == b;
    } else {
      assert (a + b)[0] == a[0];
      assert (a + b)[1..] == a[1..] + b;
      ConcatAppend(a[1..], b);
    }
  }

  // ------------------------------------------------------------------ URLs

  /** Position of the first `c` in `s`, or `|s|` when there is none. */
  function FirstIndex(s: string, c: char): (r: nat)
    ensures r <= |s|
    ensures forall j :: 0 <= j < r ==> s[j] != c
    ensures r < |s| ==> s[r] == c
  {
    if s == [] || s[0] == c then 0 else 1 + FirstIndex(s[1..], c)
  }

  /** `raw_url`: the path, followed by `?query` only when the query is not empty. */
  function RawUrl(path: string, query: string): string {
    if query == "" then path else path + "?" + query
  }

  /** Reads a raw URL back as path and query, splitting at the first `?`. */
  function SplitRawUrl(u: string): (string, string) {
    var i := FirstIndex(u, '?');
    if i == |u| then (u, "") else (u[..i], u[i + 1..])
  }

  /** Path and query are recovered from `raw_url` whenever the path has no `?` of its own. */
  lemma RawUrlSplits(path: string, query: string)
    requires '?' !in path
    ensures SplitRawUrl(RawUrl(path, query)) == (path, query)
  {
    var u := RawUrl(path, query);
    if query == "" {
      assert u == path;
    } else {
      assert u[|path|] == '?';
      var i := FirstIndex(u, '?');
      assert forall j :: 0 <= j < |path| ==> u[j] == path[j];
      assert i == |path|;
      assert u[..i] == path;
      assert u[i + 1..] == query;
    }
  }

  /** `host`: the scheme and the network location joined by `://`. */
  function Host(scheme: string, netloc: string): string {
    scheme + "://" + netloc
  }

  /** Reads a host back as scheme and network location, at the first `:`. */
  function SplitHost(h: string): Option<(string, string)> {
    var i := FirstIndex(h, ':');
    if i + 3 <= |h| && h[i..i + 3] == "://" then Some((h[..i], h[i + 3..])) else None
  }

  /** Scheme and network location are recovered from `host` whenever the scheme has no `:`. */
  lemma HostSplits(scheme: string, netloc: string)
    requires ':' !in scheme
    ensures SplitHost(Host(scheme, netloc)) == Some((scheme, netloc))
  {
    var h := Host(scheme, netloc);
    assert h[|scheme|] == ':';
    var i := FirstIndex(h, ':');
    assert forall j :: 0 <= j < |scheme| ==> h[j] == scheme[j];
    assert i == |scheme|;
    assert h[i..i + 3] == "://";
    assert h[..i] == scheme;
    assert h[i + 3..] == netloc;
  }

  // ------------------------------------------------------------- messages

  /** Where `request._receive` gets the body from. */
  datatype Receive =
    | /** The server: these chunks, then either the end of the body or a client disconnect. */
      Channel(chunks: seq<Chunk>, disconnects: bool)
    | /** The closure `set_body` installs: one message carrying the whole body, every time. */
      Replay(body: seq<byte>)

  /** What reading the whole body from `r` yields; `None` when the read raises
      (the client disconnected). */
  function Delivered(r: Receive): Option<seq<byte>> {
    match r
    case Channel(chunks, disconnects) => if disconnects then None else Some(Concat(chunks))
    case Replay(body) => Some(body)
  }

  /** `r` once it has been read to the end: the server has no more chunks to give,
      the replaying closure still replays. */
  function Consumed(r: Receive): Receive {
    match r
    case Channel(_, disconnects) => Channel([], disconnects)
    case Replay(body) => Replay(body)
  }

  /** Header names and values as `dict(...)` holds them: each name at most once. */
  type Headers = d: Dict<string> | DistinctKeys(d) witness []

  /** `request.state.apitoolkit_errors`: not set, set to `None`, or a list. */
  datatype ErrorsState = Unset | Null | Errors(list: seq<Json>)

  /** The incoming request, as far as the middleware reads and changes it. */
  class Request {
    const httpMethod: string
    const scheme: string
    const netloc: string
    const path: string
    const query: string
    /** `dict(request.headers)`. */
    const headers: Headers
    const queryParams: Dict<string>
    const pathParams: Dict<string>
    /** `request.scope["route"].path`; `None` when no route matched. */
    const route: Option<string>
    /** `request._receive`. */
    var receive: Receive
    /** The body cached by the first full read (`request._body`). */
    var cachedBody: Option<seq<byte>>
    /** `request.state.apitoolkit_message_id`; `None` while it is not set. */
    var messageId: Option<string>
    var errors: ErrorsState
    /** `request.state.apitoolkit_client`. */
    var client: APIToolkit?

    constructor(httpMethod: string, scheme: string, netloc: string, path: string, query: string,
                headers: Headers, queryParams: Dict<string>, pathParams: Dict<string>,
                route: Option<string>, receive: Receive)
      ensures this.httpMethod == httpMethod && this.scheme == scheme && this.netloc == netloc
      ensures this.path == path && this.query == query && this.headers == headers
      ensures this.queryParams == queryParams && this.pathParams == pathParams && this.route == route
      ensures this.receive == receive && cachedBody == None
      ensures messageId == None && errors == Unset && client == null
    {
      this.httpMethod := httpMethod;
      this.scheme := scheme;
      this.netloc := netloc;
      this.path := path;
      this.query := query;
      this.headers := headers;
      this.queryParams := queryParams;
      this.pathParams := pathParams;
      this.route := route;
      this.receive := receive;
      cachedBody := None;
      messageId := None;
      errors := Unset;
      client := null;
    }

    /** What `await request.body()` returns now. */
    function Pending(): Option<seq<byte>>
      reads this`cachedBody, this`receive
    {
      if cachedBody.Some? then cachedBody else Delivered(receive)
    }

    /** `await request.body()`: the cached body if there is one, otherwise everything
        `receive` delivers, which is then cached. */
    method Body() returns (body: Option<seq<byte>>)
      modifies this
      ensures body == old(Pending())
      ensures old(cachedBody).Some? ==> cachedBody == old(cachedBody) && receive == old(receive)
      ensures old(cachedBody).None? ==> cachedBody == body && receive == Consumed(old(receive))
      ensures messageId == old(messageId) && errors == old(errors) && client == old(client)
    {
      if cachedBody.Some? {
        return cachedBody;
      }
      body := Delivered(receive);
      receive := Consumed(receive);
      cachedBody := body;
    }
  }

  /** `set_body`: from now on `receive` hands out `body`. */
  method SetBody(request: Request, body: seq<byte>)
    modifies request
    ensures request.receive == Replay(body)
    ensures Delivered(request.receive) == Some(body)
    ensures request.cachedBody == old(request.cachedBody)
    ensures request.messageId == old(request.messageId) && request.errors == old(request.errors)
    ensures request.client == old(request.client)
  {
    request.receive := Replay(body);
  }

  /** `get_body`: reads the body and installs a replay of it, so that the body can be
      read again downstream. */
  method GetBody(request: Request) returns (body: Option<seq<byte>>)
    modifies request
    ensures body == old(request.Pending())
    ensures body.Some? ==> request.receive == Replay(body.value) && request.cachedBody == body
    ensures body.Some? ==> request.Pending() == body && Delivered(request.receive) == body
    ensures request.messageId == old(request.messageId) && request.errors == old(request.errors)
    ensures request.client == old(request.client)
  {
    body := request.Body();
    if body.Some? {
      SetBody(request, body.value);
    }
  }

  /** A response body iterator: it yields `chunks`, then raises if `fails`. */
  datatype BodyStream = BodyStream(chunks: seq<Chunk>, fails: bool)

  /** An iterator that has nothing left to yield. */
  const Exhausted: BodyStream := BodyStream([], false)

  class Response {
    const statusCode: int
    /** `dict(response.headers)`. */
    const headers: Headers
    var bodyIterator: BodyStream

    constructor(statusCode: int, headers: Headers, bodyIterator: BodyStream)
      ensures this.statusCode == statusCode && this.headers == headers
      ensures this.bodyIterator == bodyIterator
    {
      this.statusCode := statusCode;
      this.headers := headers;
      this.bodyIterator := bodyIterator;
    }

    /** `[chunk async for chunk in response.body_iterator]`: every chunk in order, or
        `ok == false` when the iterator raises; either way the iterator is used up. */
    method Drain() returns (chunks: seq<Chunk>, ok: bool)
      modifies this
      ensures ok == !old(bodyIterator).fails
      ensures ok ==> chunks == old(bodyIterator).chunks
      ensures bodyIterator == Exhausted
    {
      chunks := [];
      ConcatAppend(chunks, bodyIterator.chunks);
      while bodyIterator.chunks != []
        invariant old(bodyIterator).chunks == chunks + bodyIterator.chunks
        invariant Concat(old(bodyIterator).chunks) == Concat(chunks) + Concat(bodyIterator.chunks)
        invariant bodyIterator.fails == old(bodyIterator).fails
        decreases |bodyIterator.chunks|
      {
        chunks := chunks + [bodyIterator.chunks[0]];
        bodyIterator := BodyStream(bodyIterator.chunks[1..], bodyIterator.fails);
        ConcatAppend(chunks, bodyIterator.chunks);
      }
      ok := !bodyIterator.fails;
      bodyIterator := Exhausted;
    }
  }

  /** What `call_next(request)` comes back with, given the body the handler reads:
      a response (with the errors the handler reported on `request.state`), or an
      exception. */
  datatype HandlerOutcome =
    | Responded(statusCode: int, headers: Headers, body: BodyStream, reported: seq<Json>)
    | Failed(error: string)

  /** What the middleware coroutine ends with. */
  datatype MiddlewareResult = NoResponse | Respond(response: Response) | Raise(error: string)

  /** The exception a client disconnect raises while the body is read. */
  const ClientDisconnect: string := "ClientDisconnect"

  /** The `sdk_type` the middleware reports. */
  const SdkType: string := "PythonFastApi"

  /** The record published for one request, field for field. */
  datatype Payload = Payload(
    requestHeaders: Dict<string>,
    queryParams: Dict<string>,
    pathParams: Dict<string>,
    responseHeaders: Dict<string>,
    httpMethod: string,
    sdkType: string,
    protoMajor: int,
    protoMinor: int,
    host: string,
    rawUrl: string,
    referer: string,
    projectId: string,
    urlPath: string,
    responseBody: string,
    requestBody: string,
    statusCode: int,
    duration: int,
    timestamp: string,
    serviceVersion: Option<string>,
    tags: seq<string>,
    msgId: string,
    errors: seq<Json>,
    parentId: Option<string>)

  /** The client. Its settings never change after construction; `projectId` is the
      `project_id` of the metadata returned by the startup handshake. */
  class APIToolkit {
    const debug: bool
    const redactHeaders: seq<string>
    const redactRequestBody: seq<string>
    const redactResponseBody: seq<string>
    const serviceVersion: Option<string>
    const tags: seq<string>
    const projectId: string

    constructor(projectId: string, debug: bool := false,
                redactHeaders: seq<string> := ["authorization", "cookie"],
                redactRequestBody: seq<string> := [], redactResponseBody: seq<string> := [],
                serviceVersion: Option<string> := None, tags: seq<string> := [])
      ensures this.projectId == projectId && this.debug == debug
      ensures this.redactHeaders == redactHeaders
      ensures this.redactRequestBody == redactRequestBody
      ensures this.redactResponseBody == redactResponseBody
      ensures this.serviceVersion == serviceVersion && this.tags == tags
    {
      this.projectId := projectId;
      this.debug := debug;
      this.redactHeaders := redactHeaders;
      this.redactRequestBody := redactRequestBody;
      this.redactResponseBody := redactResponseBody;
      this.serviceVersion := serviceVersion;
      this.tags := tags;
    }

    /** `redact_headers_func`: copies the headers one by one into a new dict, putting
        the sentinel in place of every listed header's value. */
    method RedactHeaders(headers: Dict<string>) returns (redacted: Dict<string>)
      requires DistinctKeys(headers)
      ensures redacted == RedactedHeaders(headers, redactHeaders)
    {
      redacted := [];
      var i := 0;
      while i < |headers|
        invariant 0 <= i <= |headers|
        invariant redacted == RedactedHeaders(headers[..i], redactHeaders)
      {
        var (name, value) := headers[i];
        RedactedHeadersKeys(headers[..i], redactHeaders);
        KeyNotBefore(headers, i);
        if Lower(name) in redactHeaders || name in redactHeaders {
          PutFresh(redacted, name, Sentinel);
          redacted := Put(redacted, name, Sentinel);
        } else {
          PutFresh(redacted, name, value);
          redacted := Put(redacted, name, value);
        }
        RedactedHeadersSnoc(headers, redactHeaders, i);
        i := i + 1;
      }
      assert headers[..i] == headers;
    }

    /** `redact_fields`: parses the body, applies the selectors one after the other and
        serialises the result; the original bytes when anything raises. */
    method RedactFields(codec: Codec, body: Body, paths: seq<string>) returns (r: seq<byte>)
      ensures r == RedactedBody(codec, body, paths)
    {
      var loaded := LoadBody(codec, body);
      if loaded.None? {
        return OriginalBytes(body);
      }
      var data := loaded.value;
      var i := 0;
      assert paths[..0] == [];
      while i < |paths|
        invariant 0 <= i <= |paths|
        invariant ParseAll(paths[..i]).Some?
        invariant data == UpdateAll(loaded.value, ParseAll(paths[..i]).value, RedactedValue)
      {
        var expr := Parse(paths[i]);
        if expr.None? {
          ParseAllFails(paths);
          return OriginalBytes(body);
        }
        ParseAllSnoc(paths, i);
        UpdateAllSnoc(loaded.value, ParseAll(paths[..i]).value, expr.value, RedactedValue);
        data := UpdateDocument(data, expr.value, RedactedValue);
        i := i + 1;
      }
      assert paths[..i] == paths;
      return Utf8.Encode(codec.dumps(data));
    }

    /** `build_payload`; `None` where it raises: no matched route, a request body that
        is not UTF-8, or a message id or error list that was never set. */
    function BuildPayload(codec: Codec, sdkType: string, request: Request, response: Response,
                          requestBody: seq<byte>, responseBody: seq<byte>,
                          duration: int, timestamp: string): (r: Option<Payload>)
      reads request
      ensures r.Some? <==>
        && request.route.Some?
        && Utf8.Decode(requestBody).Some?
        && request.messageId.Some?
        && !request.errors.Unset?
    {
      if request.route.None? then None
      else match Utf8.Decode(requestBody)
        case None => None
        case Some(text) =>
          if request.messageId.None? || request.errors.Unset? then None
          else Some(Payload(
            requestHeaders := RedactedHeaders(request.headers, redactHeaders),
            queryParams := request.queryParams,
            pathParams := request.pathParams,
            responseHeaders := RedactedHeaders(response.headers, redactHeaders),
            httpMethod := request.httpMethod,
            sdkType := sdkType,
            protoMajor := 1,
            protoMinor := 1,
            host := Host(request.scheme, request.netloc),
            rawUrl := RawUrl(request.path, request.query),
            referer := GetOr(request.headers, "referer", ""),
            projectId := projectId,
            urlPath := request.route.value,
            responseBody := Base64.Encode(RedactedBody(codec, Bytes(responseBody), redactResponseBody)),
            requestBody := Base64.Encode(RedactedBody(codec, Text(text), redactRequestBody)),
            statusCode := response.statusCode,
            duration := duration,
            timestamp := timestamp,
            serviceVersion := serviceVersion,
            tags := tags,
            msgId := request.messageId.value,
            errors := if request.errors.Null? then [] else request.errors.list,
            parentId := None))
    }

    /** The header maps of the payload are the request's and the response's headers,
        redacted: the same names, the sentinel exactly for the listed names. */
    lemma PayloadHeaders(codec: Codec, sdkType: string, request: Request, response: Response,
                         requestBody: seq<byte>, responseBody: seq<byte>, duration: int,
                         timestamp: string, name: string)
      requires BuildPayload(codec, sdkType, request, response, requestBody, responseBody, duration, timestamp).Some?
      ensures var p := BuildPayload(codec, sdkType, request, response, requestBody, responseBody, duration, timestamp).value;
        && Keys(p.requestHeaders) == Keys(request.headers)
        && Keys(p.responseHeaders) == Keys(response.headers)
        && Get(p.requestHeaders, name) ==
             (match Get(request.headers, name)
              case None => None
              case Some(v) => Some(if IsRedactedName(name, redactHeaders) then Sentinel else v))
        && Get(p.responseHeaders, name) ==
             (match Get(response.headers, name)
              case None => None
              case Some(v) => Some(if IsRedactedName(name, redactHeaders) then Sentinel else v))
    {
      RedactedHeadersKeys(request.headers, redactHeaders);
      RedactedHeadersKeys(response.headers, redactHeaders);
      RedactedHeadersGet(request.headers, redactHeaders, name);
      RedactedHeadersGet(response.headers, redactHeaders, name);
    }

    /** The payload's bodies decode from base64 to what `redact_fields` returns; when a
        body is not JSON, or a selector does not parse, that is the body exactly as it
        was read. */
    lemma PayloadBodies(codec: Codec, sdkType: string, request: Request, response: Response,
                        requestBody: seq<byte>, responseBody: seq<byte>, duration: int,
                        timestamp: string)
      requires BuildPayload(codec, sdkType, request, response, requestBody, responseBody, duration, timestamp).Some?
      ensures var p := BuildPayload(codec, sdkType, request, response, requestBody, responseBody, duration, timestamp).value;
        var text := Utf8.Decode(requestBody).value;
        && Base64.Decode(p.requestBody) == Some(RedactedBody(codec, Text(text), redactRequestBody))
        && Base64.Decode(p.responseBody) == Some(RedactedBody(codec, Bytes(responseBody), redactResponseBody))
        && (LoadBody(codec, Text(text)).None? || ParseAll(redactRequestBody).None? ==>
              Base64.Decode(p.requestBody) == Some(requestBody))
        && (LoadBody(codec, Bytes(responseBody)).None? || ParseAll(redactResponseBody).None? ==>
              Base64.Decode(p.responseBody) == Some(responseBody))
    {
      var text := Utf8.Decode(requestBody).value;
      Base64.DecodeEncode(RedactedBody(codec, Text(text), redactRequestBody));
      Base64.DecodeEncode(RedactedBody(codec, Bytes(responseBody), redactResponseBody));
      Utf8.EncodeDecode(requestBody);
    }

    /** `raw_url` and `host` give back the parts they were built from; `referer` is read
        from the headers before redaction, so it is sent as is even when listed. */
    lemma PayloadUrl(codec: Codec, sdkType: string, request: Request, response: Response,
                     requestBody: seq<byte>, responseBody: seq<byte>, duration: int,
                     timestamp: string)
      requires BuildPayload(codec, sdkType, request, response, requestBody, responseBody, duration, timestamp).Some?
      ensures var p := BuildPayload(codec, sdkType, request, response, requestBody, responseBody, duration, timestamp).value;
        && ('?' !in request.path ==> SplitRawUrl(p.rawUrl) == (request.path, request.query))
        && (':' !in request.scheme ==> SplitHost(p.host) == Some((request.scheme, request.netloc)))
        && (Get(request.headers, "referer").None? ==> p.referer == "")
        && (Get(request.headers, "referer").Some? ==> p.referer == Get(request.headers, "referer").value)
    {
      if '?' !in request.path {
        RawUrlSplits(request.path, request.query);
      }
      if ':' !in request.scheme {
        HostSplits(request.scheme, request.netloc);
      }
    }

    /** The fixed fields: HTTP/1.1, no parent id, the message id that was set, and an
        error list that is never `None`. */
    lemma PayloadConstants(codec: Codec, sdkType: string, request: Request, response: Response,
                           requestBody: seq<byte>, responseBody: seq<byte>, duration: int,
                           timestamp: string)
      requires BuildPayload(codec, sdkType, request, response, requestBody, responseBody, duration, timestamp).Some?
      ensures var p := BuildPayload(codec, sdkType, request, response, requestBody, responseBody, duration, timestamp).value;
        && p.protoMajor == 1 && p.protoMinor == 1
        && p.parentId == None
        && Some(p.msgId) == request.messageId
        && p.urlPath == request.route.value
        && (request.errors.Null? ==> p.errors == [])
        && (request.errors.Errors? ==> p.errors == request.errors.list)
    {
    }

    /** `middleware`. With `debug` off it does nothing at all and returns `None`, without
        calling the handler. With `debug` on it tags the request, reads the body and
        installs a replay of it, calls the handler on that body, drains the response body
        and puts the same chunks back, builds the payload and publishes it. A failure while
        draining, building or publishing still returns the response; a failure while
        reading the request body or in the handler propagates. */
    method Middleware(request: Request, callNext: seq<byte> -> HandlerOutcome, codec: Codec,
                      messageId: string, startTime: int, endTime: int, timestamp: string,
                      publish: Payload -> bool)
      returns (result: MiddlewareResult, attempted: Option<Payload>, published: bool)
      modifies request
      ensures !debug ==> result == NoResponse && attempted == None && !published && unchanged(request)
      ensures debug ==> request.messageId == Some(messageId) && request.client == this
      ensures debug && old(request.Pending()).None? ==>
        result == Raise(ClientDisconnect) && attempted == None && !published
      ensures debug && old(request.Pending()).Some? ==>
        var body := old(request.Pending()).value;
        && request.receive == Replay(body)
        && request.cachedBody == Some(body)
        && match callNext(body)
           case Failed(e) => result == Raise(e) && attempted == None && !published
           case Responded(status, headers, stream, reported) =>
             && result.Respond?
             && fresh(result.response)
             && result.response.statusCode == status
             && result.response.headers == headers
             && request.errors == Errors(reported)
             && (stream.fails ==> result.response.bodyIterator == Exhausted && attempted == None)
             && (!stream.fails ==>
                   && result.response.bodyIterator == stream
                   && attempted == BuildPayload(codec, SdkType, request, result.response, body,
                                                Concat(stream.chunks), endTime - startTime, timestamp))
             && published == (attempted.Some? && publish(attempted.value))
    {
      if !debug {
        return NoResponse, None, false;
      }
      request.messageId := Some(messageId);
      request.errors := Errors([]);
      request.client := this;
      var first := request.Body();
      if first.None? {
        return Raise(ClientDisconnect), None, false;
      }
      SetBody(request, first.value);
      var requestBody := GetBody(request);
      assert requestBody == first;
      var outcome := callNext(Delivered(request.receive).value);
      assert outcome == callNext(first.value);
      match outcome {
        case Failed(e) =>
          return Raise(e), None, false;
        case Responded(status, headers, stream, reported) =>
          request.errors := Errors(request.errors.list + reported);
          var response := new Response(status, headers, stream);
          attempted, published := ReportResponse(request, response, requestBody.value, codec,
                                                 startTime, endTime, timestamp, publish);
          return Respond(response), attempted, published;
      }
    }

    /** The `try` block of `middleware`: drain the response body, put the same chunks
        back, build the payload and publish it. When draining raises, the exception is
        swallowed: nothing is built or published and the response keeps its spent
        iterator. A payload that cannot be built is not published. */
    method ReportResponse(request: Request, response: Response, requestBody: seq<byte>, codec: Codec,
                          startTime: int, endTime: int, timestamp: string, publish: Payload -> bool)
      returns (attempted: Option<Payload>, published: bool)
      modifies response
      ensures old(response.bodyIterator).fails ==>
        response.bodyIterator == Exhausted && attempted == None
      ensures !old(response.bodyIterator).fails ==>
        && response.bodyIterator == old(response.bodyIterator)
        && attempted == BuildPayload(codec, SdkType, request, response, requestBody,
                                     Concat(old(response.bodyIterator).chunks), endTime - startTime, timestamp)
      ensures published == (attempted.Some? && publish(attempted.value))
    {
      var chunks, ok := response.Drain();
      if !ok {
        return None, false;
      }
      response.bodyIterator := BodyStream(chunks, false);
      var duration := endTime - startTime;
      attempted := BuildPayload(codec, SdkType, request, response, requestBody,
                                Concat(chunks), duration, timestamp);
      published := attempted.Some? && publish(attempted.value);
    }
  }
}
