# apitoolkit-fastapi: redaction, payload assembly and body capture

This project models the FastAPI middleware of apitoolkit-fastapi
(`apitoolkit_fastapi/__init__.py`). For each request, the middleware:

- reads the request body and installs a replay of it for the handler;
- calls the handler;
- drains the response body and puts the same chunks back;
- builds a telemetry record;
- hands the record to a publisher.

Before the record leaves the process, listed headers are replaced by `"[CLIENT_REDACTED]"`. The same happens to JSON body fields chosen by JSONPath selectors.

Modules:

- `Wrappers`, `Dicts`: `Option`, and Python dicts as ordered sequences of entries.
  - `Put` is `d[k] = v`.
  - `Get` and `GetOr` are `d.get(k)` and `d.get(k, default)`.
- `Utf8`: Python's strict UTF-8 codec (`str.encode`, `bytes.decode`), with both round trips.
- `Base64`: `base64.b64encode`, the padded encoding of section 4 of RFC 4648, with a strict decoder and both round trips.
- `Json`: JSON values.
  - Null, booleans, integers, strings, arrays, and objects with ordered keys.
  - The text codec (`json.loads`/`json.dumps`) is a pair of functions given as a parameter.
- `JsonPath`: the selectors.
  - Syntax: `$`, then `.name` and `[*]` steps, where a name is a `jsonpath_ng` identifier token. The reserved words `where` and `wherenot` are keyword tokens, so a selector using them as a name fails to parse.
  - Semantics: `parse(path).update(data, value)`.
  - Location lemmas: which nodes an update overwrites and which it leaves alone.
  - Idempotence of applying a whole selector list.
- `Redact`: what `redact_headers_func` and `redact_fields` compute, as functions.
- `Toolkit`:
  - the `APIToolkit` class (settings, the loop methods `RedactHeaders` and `RedactFields`, `BuildPayload`, `Middleware` and its `try` block `ReportResponse`);
  - the `Request` and `Response` objects the middleware changes;
  - `set_body`/`get_body`.
- `Scenario`: the redaction that `test_apitoolkit.py` expects of its example response, proved on the model.

Where the code and the library's intended design disagree, the model follows the code:

- Header matching is not fully case-insensitive. A header is redacted when its lowercased name or its name as given is listed. The list itself is never lowercased, so a listed `Authorization` matches only a header spelled exactly that way.
- Everything sits under `if self.debug:`. With `debug` off, the middleware returns `None` and never calls the handler.
- Some inputs make `build_payload` raise, and the middleware swallows the exception, so nothing is published:
  - there is no matched route, because there is no fallback to the literal path;
  - the request body is not UTF-8, because it is decoded outside `redact_fields`' `try`.
- Handler exceptions propagate before anything is recorded. There is no default status 200, no record of the error and no record published.
- If draining the response body fails, the response is still returned, but its iterator is exhausted and nothing is published.
- `referer` is read from the headers before redaction, so it is sent even when `referer` is a listed header.

## Model

| member | source | states |
|---|---|---|
| Dicts.PutFresh | apitoolkit_fastapi/__init__.py:84-86 | storing under a key the dict does not hold appends one entry at the end (insertion order) |
| Dicts.PutAtIndexOf | apitoolkit_fastapi/__init__.py:84-86 | storing under a key the dict holds overwrites that entry in place |
| Dicts.GetPutSame | apitoolkit_fastapi/__init__.py:84-86 | after `d[k] = v`, `d.get(k)` is `v` |
| Dicts.GetPutOther | apitoolkit_fastapi/__init__.py:84-86 | `d[k] = v` leaves every other key's value unchanged |
| Dicts.PutExistingKeys | apitoolkit_fastapi/__init__.py:84-86 | overwriting an existing key keeps the key sequence |
| Dicts.GetSomeIffKey | apitoolkit_fastapi/__init__.py:138 | `d.get(k)` finds a value exactly when `k` is a key |
| Dicts.GetIndexOf | apitoolkit_fastapi/__init__.py:138 | `d.get(k)` returns the value of the first entry with key `k` |
| Utf8.DecodeEncode | apitoolkit_fastapi/__init__.py:95-99 | decoding the UTF-8 encoding of any text gives back that text |
| Utf8.EncodeDecode | apitoolkit_fastapi/__init__.py:117-118 | bytes that decode as UTF-8 are exactly the encoding of what they decode to |
| Base64.EncodeLength | apitoolkit_fastapi/__init__.py:141-142 | the encoding has 4 characters per started group of 3 bytes |
| Base64.DecodeEncode | apitoolkit_fastapi/__init__.py:141-142 | base64-decoding the encoding of any bytes gives back those bytes |
| Base64.EncodeDecode | apitoolkit_fastapi/__init__.py:141-142 | every string the strict decoder accepts is the encoding of what it decodes to |
| Base64.ValueSymbol | apitoolkit_fastapi/__init__.py:141-142 | each 6-bit value's alphabet symbol reads back as that value |
| Base64.SymbolValue | apitoolkit_fastapi/__init__.py:141-142 | each alphabet symbol is the symbol of the value it reads as |
| JsonPath.NameRun | apitoolkit_fastapi/__init__.py:93 | the lexer reads the longest run of name characters, and the character after it cannot continue a name |
| JsonPath.ParsePrint | apitoolkit_fastapi/__init__.py:93 | every well-formed selector written out as text parses back to the same steps |
| JsonPath.PrintParse | apitoolkit_fastapi/__init__.py:93 | every string `parse` accepts is well formed and is the printed form of its parse, so the parser accepts exactly the printed selectors |
| JsonPath.KeywordStepFails | apitoolkit_fastapi/__init__.py:93 | a `.` step naming the reserved word `where` or `wherenot` does not parse, whatever follows it |
| JsonPath.WhereIsNotAName | apitoolkit_fastapi/__init__.py:93 | the selector `$.where` does not parse |
| JsonPath.UpdateReplacesMatches | apitoolkit_fastapi/__init__.py:94 | every existing node a selector describes holds the sentinel after the update, whatever it held before (scalar, object or array) |
| JsonPath.UpdateEachReplacesElements | apitoolkit_fastapi/__init__.py:94 | a selector ending in `[*]` turns the array it reaches into an array of the same length whose every element is the new value |
| JsonPath.UpdateBelowPrefix | apitoolkit_fastapi/__init__.py:94 | below every node a selector's prefix reaches, the rest of the selector is applied to that node |
| JsonPath.UpdateFrame | apitoolkit_fastapi/__init__.py:94 | every location that leaves the selector's track at some step keeps its value (the ancestors and descendants of a match are not covered, since they can change) |
| JsonPath.UpdateChangesOnlyAtMatch | apitoolkit_fastapi/__init__.py:94 | an update that changes the document has an existing location matching the selector, so a selector that matches nothing changes nothing |
| JsonPath.UpdateAddsNothing | apitoolkit_fastapi/__init__.py:94 | with a scalar sentinel, every location present after the update was present before, so no key is added |
| JsonPath.UpdateScalar | apitoolkit_fastapi/__init__.py:94 | a non-empty selector leaves a scalar document unchanged |
| JsonPath.UpdateIdempotent | apitoolkit_fastapi/__init__.py:94 | applying one selector twice equals applying it once |
| JsonPath.UpdateKeepsFixed | apitoolkit_fastapi/__init__.py:92-94 | with a scalar sentinel, a document already redacted for one selector stays so after any other selector |
| JsonPath.UpdateAllKeepsFixed | apitoolkit_fastapi/__init__.py:92-94 | with a scalar sentinel, a document already redacted for one selector stays so after a whole selector list |
| JsonPath.UpdateAllFixesEach | apitoolkit_fastapi/__init__.py:92-94 | after the selector loop, the document is redacted for every selector in the list |
| JsonPath.UpdateAllOnFixed | apitoolkit_fastapi/__init__.py:92-94 | the selector loop leaves unchanged a document that is already redacted for each selector |
| JsonPath.UpdateAllFrame | apitoolkit_fastapi/__init__.py:92-94 | after the selector loop, every location that leaves the track of each non-root selector at some step keeps its value |
| JsonPath.UpdateAllReplacesMatches | apitoolkit_fastapi/__init__.py:92-94 | after the selector loop with a scalar sentinel, every existing location that some non-root selector describes holds the sentinel (the bare `$` changes nothing) |
| JsonPath.UpdateAllIdempotent | apitoolkit_fastapi/__init__.py:92-94 | with a scalar sentinel, running the selector loop twice equals running it once |
| Redact.Lower | apitoolkit_fastapi/__init__.py:83 | lowercasing keeps the length and maps each character on its own |
| Redact.LowercaseListIgnoresCase | apitoolkit_fastapi/__init__.py:83 | when every listed name is lowercase, two spellings of one header name get the same verdict |
| Redact.ListIsCaseSensitive | apitoolkit_fastapi/__init__.py:83 | `cookie` in the list catches `Cookie`, but `Authorization` in the list catches neither `authorization` nor `AUTHORIZATION` |
| Redact.RedactedHeadersEntries | apitoolkit_fastapi/__init__.py:80-87 | entry by entry: same name in the same place; the value is the sentinel where the name (lowercased or as given) is listed, and the original value otherwise |
| Redact.RedactedHeadersKeys | apitoolkit_fastapi/__init__.py:80-87 | the redacted dict has exactly the input's keys, in order |
| Redact.RedactedHeadersGet | apitoolkit_fastapi/__init__.py:80-87 | looking a header up after redaction gives nothing where there was nothing, the sentinel for a listed name, and the original value otherwise |
| Redact.RedactedHeadersIdempotent | apitoolkit_fastapi/__init__.py:80-87 | redacting headers twice equals redacting once |
| Redact.RedactedHeadersSnoc | apitoolkit_fastapi/__init__.py:82-86 | each loop iteration appends the redacted form of one more header |
| Redact.ParseAllFails | apitoolkit_fastapi/__init__.py:92-93 | the selector list fails to parse if and only if some selector fails to parse |
| Redact.ParseAllSucceeds | apitoolkit_fastapi/__init__.py:92-93 | when every selector parses, the parsed list is their parses in order |
| Redact.ParseAllSnoc | apitoolkit_fastapi/__init__.py:92-93 | parsing one more selector extends the parsed list by its parse |
| Redact.UpdateAllSnoc | apitoolkit_fastapi/__init__.py:92-94 | one more loop iteration applies one more selector to the document so far |
| Redact.RedactedBodyLocations | apitoolkit_fastapi/__init__.py:91-95 | for a JSON body and parsable selectors, the bytes are the serialised redacted document, which keeps every location that leaves each non-root selector's track at some step and holds the sentinel at every existing location a non-root selector describes |
| Redact.RedactedBodyFallback | apitoolkit_fastapi/__init__.py:96-100 | when the body is not JSON or a selector does not parse, the original bytes come back (a text body UTF-8 encoded), and edits by earlier selectors are dropped |
| Redact.OriginalTextDecodes | apitoolkit_fastapi/__init__.py:98-99 | the bytes returned for a text body decode back to that text |
| Redact.RedactedBodyText | apitoolkit_fastapi/__init__.py:95 | for a JSON body the result is UTF-8 text that decodes to the serialised redacted document |
| Redact.RedactedBodyIdempotent | apitoolkit_fastapi/__init__.py:89-100 | redacting the output of `redact_fields` again with the same selectors gives the same bytes, on success and on every failure path |
| Toolkit.RawUrlSplits | apitoolkit_fastapi/__init__.py:107-111 | splitting `raw_url` at its first `?` gives back the path and the query (the query empty when none was appended), for every path without a `?`; the split uses the helper `FirstIndex`, the first position of a character |
| Toolkit.HostSplits | apitoolkit_fastapi/__init__.py:112-114 | splitting `host` at `://` gives back the scheme and the network location, for every scheme without a `:` (split with the same helper) |
| Toolkit.Request.Body | apitoolkit_fastapi/__init__.py:25 | the first read returns what the body source delivers and caches it; later reads return the cache |
| Toolkit.SetBody | apitoolkit_fastapi/__init__.py:18-21 | afterwards the request's body source delivers exactly the given bytes; nothing else changes |
| Toolkit.GetBody | apitoolkit_fastapi/__init__.py:24-27 | returns the body a read gives, and leaves the request replaying exactly those bytes, to a new reader and from the cache |
| Toolkit.ConcatAppend | apitoolkit_fastapi/__init__.py:178 | `b''.join` of a chunk list split anywhere is the join of the first part followed by the join of the rest |
| Toolkit.Response.Drain | apitoolkit_fastapi/__init__.py:166 | collects every chunk in order, or reports failure when the iterator raises; either way the iterator is used up, and throughout the loop the chunks drained so far joined with the pending ones give the whole body |
| Toolkit.APIToolkit.constructor | apitoolkit_fastapi/__init__.py:37-58 | the settings are the arguments, with the defaults `["authorization", "cookie"]`, empty selector lists, no service version and no tags |
| Toolkit.APIToolkit.RedactHeaders | apitoolkit_fastapi/__init__.py:80-87 | the dict filled by the loop is the redaction of the headers, so it has the properties of `Redact.RedactedHeaders*`; request and response headers are of type `Toolkit.Headers` (each name once, as in a `dict`), so the record's header maps are what this loop builds |
| Toolkit.APIToolkit.RedactFields | apitoolkit_fastapi/__init__.py:89-100 | the bytes produced by the load, the selector loop and the dump (or the fallback) are those of `Redact.RedactedBody` |
| Toolkit.APIToolkit.BuildPayload | apitoolkit_fastapi/__init__.py:102-152 | a record is built if and only if a route matched, the request body is UTF-8, and a message id and an error list are set |
| Toolkit.APIToolkit.PayloadHeaders | apitoolkit_fastapi/__init__.py:115-131 | both header maps in the record have the original keys, with the sentinel exactly for listed names |
| Toolkit.APIToolkit.PayloadBodies | apitoolkit_fastapi/__init__.py:117-142 | both bodies base64-decode to the output of `redact_fields`; a body that is not JSON decodes to the bytes as read |
| Toolkit.APIToolkit.PayloadUrl | apitoolkit_fastapi/__init__.py:107-138 | `raw_url` and `host` split back into their parts; `referer` is the unredacted header, or `""` when it is absent |
| Toolkit.APIToolkit.PayloadConstants | apitoolkit_fastapi/__init__.py:122-150 | HTTP/1.1, no parent id, the message id that was set, the route pattern, and an error list that is never `None` |
| Toolkit.APIToolkit.ReportResponse | apitoolkit_fastapi/__init__.py:165-186 | the `try` block: when draining raises, nothing is built or published and the iterator stays spent; otherwise the same chunks are put back, the record is built from their concatenation, and publishing is attempted exactly when it could be built |
| Toolkit.APIToolkit.Middleware | apitoolkit_fastapi/__init__.py:154-186 | with debug off nothing changes; with debug on the handler sees exactly the bytes first read, a handler or body-read exception propagates, and otherwise the same response comes back with its chunks reinstalled in order, whether building or publishing the record fails (details below) |
| Scenario.ExampleSelectorsParse | apitoolkit_fastapi/test_apitoolkit.py:87-92 | the five selector strings of `exampleDataRedaction` all parse, to two member steps, two three-member paths and a three-member path ending in `[*]` |
| Scenario.RedactionOfShape | apitoolkit_fastapi/test_apitoolkit.py:87-113 | the parsed selectors applied to any document shaped like the example response redact `status`, `account_type`, `possible_account_types` and each element of `possible_account_types2`, and add no `non_existent` member |
| Scenario.ExampleRedaction | apitoolkit_fastapi/test_apitoolkit.py:66-113 | parsing the strings of `exampleDataRedaction` succeeds, and applying the result turns `exampleResponseData` into `exampleDataRedacted` |
| Scenario.ExampleResponseBody | apitoolkit_fastapi/test_apitoolkit.py:43-44 | `redact_fields` with the test's selector strings, on any body that loads as `exampleResponseData`, returns the UTF-8 bytes of the serialised `exampleDataRedacted`, the value `publish_message` expects (base64-encoded) as `response_body` |

What `Toolkit.APIToolkit.Middleware` states:

- With debug off, nothing changes and nothing is published.
- With debug on:
  - the request is tagged with the message id and the client;
  - a body-read failure propagates;
  - the handler is called on exactly the bytes first read, and the request keeps replaying them;
  - a handler exception propagates, and nothing is published;
  - otherwise the fresh response has the handler's status and headers, and its iterator yields the drained chunks in the same order;
  - the record is built from those chunks' concatenation and the replayed body;
  - the response is returned whether building or publishing fails.

## Left out

- The startup handshake (apitoolkit_fastapi/__init__.py:51-66) is not modelled: the HTTP request for client metadata and the Google credentials. `projectId` is a constructor argument; `api_key` and `root_url` have no effect in the model.
- `getInfo` (apitoolkit_fastapi/__init__.py:68-69) is not modelled: it only returns three settings.
- `publish_message` (apitoolkit_fastapi/__init__.py:71-78) is not modelled: the JSON encoding, the Pub/Sub call and `future.result()`. Publishing is a parameter `Payload -> bool` that reports whether it returned normally.
- The `Payload` class (apitoolkit_fastapi/__init__.py:30-33) is not modelled, because `build_payload` returns a plain dict. The record is the `Payload` datatype.
- Only the `$`, `.name` and `[*]` fragment of `jsonpath_ng` is modelled. Other selectors, whitespace and the keyword forms of the full grammar (`where` and `wherenot` clauses) are treated as parse failures.
- `.name` on a non-object, or `[*]` on a non-array, matches nothing. `jsonpath_ng`'s own handling of these cases is not part of this model.
- The JSON text codec is a parameter, so these are not modelled:
  - floating-point numbers;
  - textual formatting;
  - `json.loads` detecting UTF-16/32 and byte-order marks (bytes are decoded as UTF-8);
  - `json.loads` decoding bytes with `surrogatepass`. The model decodes them with strict UTF-8, so a body whose bytes encode a lone surrogate (such as `ED A0 80`) is not loaded: the model returns it unredacted where Python would redact it.
- Redact.RedactedBodyIdempotent: assumes the JSON codec reads back what it wrote for the redacted document, because the codec is abstract. Python's codec does this except for objects with repeated keys.
- `str.lower()` is modelled on ASCII letters only.
- Timestamps (`datetime`, `pytz`), `uuid.uuid4()` and `time.perf_counter_ns()` are inputs to the middleware and to `BuildPayload`. The duration is their difference in nanoseconds.
- Async scheduling and `iterate_in_threadpool` are not modelled. A response body is a sequence of chunks plus whether the iterator raises at the end.
- Toolkit.APIToolkit.Middleware: the handler is modelled as a function of the body it reads. It returns a response (with the errors it reported on `request.state`) or an exception. Other effects of the handler on the request are not modelled.
- Toolkit.Request.Body: Starlette's error for a stream read twice without caching is not modelled. Only the caching read the middleware performs is.
- Debug `print` calls are not modelled.
- `apitoolkit/__init__.py`, the older package, is not part of this model. Neither is `setup.py`.
