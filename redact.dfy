/** What `redact_headers_func` and `redact_fields` compute, as functions of their inputs. */
module Redact {
  import opened Wrappers
  import opened Dicts
  import Utf8
  import opened Json
  import opened JsonPath

  /** The value written over every redacted header and JSON field. */
  const Sentinel: string := "[CLIENT_REDACTED]"

  // --------------------------------------------------------------- headers

  /** `str.lower()` on one character; only ASCII letters are mapped. */
  function LowerChar(c: char): char {
    if 'A' <= c <= 'Z' then (c as int - 'A' as int + 'a' as int) as char else c
  }

  /** `str.lower()`, restricted to ASCII letters. */
  function Lower(s: string): (r: string)
    ensures |r| == |s| && forall i :: 0 <= i < |s| ==> r[i] == LowerChar(s[i])
  {
    if s == [] then [] else [LowerChar(s[0])] + Lower(s[1..])
  }

  /** The test of `redact_headers_func`: the lowercased name or the name as given is
      in the list. The list itself is not lowercased, so an entry with capitals only
      matches a header spelled exactly that way. */
  predicate IsRedactedName(name: string, list: seq<string>) {
    Lower(name) in list || name in list
  }

  /** When every listed name is already in lower case the test ignores case: two
      spellings of one header name get the same verdict. */
  lemma LowercaseListIgnoresCase(list: seq<string>, a: string, b: string)
    requires forall e :: e in list ==> Lower(e) == e
    requires Lower(a) == Lower(b)
    ensures IsRedactedName(a, list) == IsRedactedName(b, list)
  {
    if a in list {
      assert Lower(a) == a;
    }
    if b in list {
      assert Lower(b) == b;
    }
  }

  /** Only the header name is lowercased, never the list: `cookie` in the list catches
      `Cookie`, but `Authorization` in the list catches neither `authorization` nor
      `AUTHORIZATION`. */
  lemma ListIsCaseSensitive()
    ensures IsRedactedName("Cookie", ["cookie"])
    ensures !IsRedactedName("authorization", ["Authorization"])
    ensures !IsRedactedName("AUTHORIZATION", ["Authorization"])
  {
    LowerCookie();
    LowerAuthorizationMissed();
    UpperAuthorizationMissed();
  }

  lemma LowerAuthorizationMissed()
    ensures !IsRedactedName("authorization", ["Authorization"])
  {
    NotAuthorization("authorization");
  }

  lemma UpperAuthorizationMissed()
    ensures !IsRedactedName("AUTHORIZATION", ["Authorization"])
  {
    NotAuthorization("AUTHORIZATION");
  }

  lemma LowerCookie()
    ensures Lower("Cookie") == "cookie"
  {
    var lc := Lower("Cookie");
    assert lc[0] == 'c' && lc[1] == 'o' && lc[2] == 'o' && lc[3] == 'k' && lc[4] == 'i' && lc[5] == 'e';
  }

  lemma NotAuthorization(name: string)
    requires |name| > 1 && (name[0] == 'a' || (name[0] == 'A' && name[1] == 'U'))
    ensures !IsRedactedName(name, ["Authorization"])
  {
    var entry := "Authorization";
    assert entry[0] == 'A' && entry[1] == 'u';
    assert Lower(name)[0] == 'a';
    assert Lower(name) != entry && name != entry;
  }

  /** The dict `redact_headers_func` returns for `headers`. */
  function RedactedHeaders(headers: Dict<string>, list: seq<string>): Dict<string> {
    if headers == [] then []
    else
      var (name, value) := headers[0];
      [(name, if IsRedactedName(name, list) then Sentinel else value)] + RedactedHeaders(headers[1..], list)
  }

  /** Entry by entry: same name in the same place; the sentinel exactly where the name
      is listed, the original value everywhere else. */
  lemma {:induction false} RedactedHeadersEntries(headers: Dict<string>, list: seq<string>)
    ensures var r := RedactedHeaders(headers, list);
      && |r| == |headers|
      && forall i :: 0 <= i < |headers| ==>
           && r[i].0 == headers[i].0
           && (IsRedactedName(headers[i].0, list) ==> r[i].1 == Sentinel)
           && (!IsRedactedName(headers[i].0, list) ==> r[i].1 == headers[i].1)
  {
    if headers != [] {
      RedactedHeadersEntries(headers[1..], list);
      var r := RedactedHeaders(headers, list);
      forall i | 0 < i < |headers| ensures r[i] == RedactedHeaders(headers[1..], list)[i - 1] {
      }
    }
  }

  /** The redacted dict has exactly the keys of the input, in the same order. */
  lemma RedactedHeadersKeys(headers: Dict<string>, list: seq<string>)
    ensures Keys(RedactedHeaders(headers, list)) == Keys(headers)
  {
    RedactedHeadersEntries(headers, list);
  }

  /** Looking a header up in the redacted dict: absent where it was absent, the sentinel
      where its name is listed, the original value otherwise. */
  lemma {:induction false} RedactedHeadersGet(headers: Dict<string>, list: seq<string>, k: string)
    ensures Get(RedactedHeaders(headers, list), k) ==
      match Get(headers, k)
      case None => None
      case Some(v) => Some(if IsRedactedName(k, list) then Sentinel else v)
  {
    if headers != [] && headers[0].0 != k {
      RedactedHeadersGet(headers[1..], list, k);
    }
  }

  /** Redacting twice is redacting once. */
  lemma {:induction false} RedactedHeadersIdempotent(headers: Dict<string>, list: seq<string>)
    ensures RedactedHeaders(RedactedHeaders(headers, list), list) == RedactedHeaders(headers, list)
  {
    if headers != [] {
      RedactedHeadersIdempotent(headers[1..], list);
    }
  }

  /** The redaction of a prefix grows by one entry per header. */
  lemma {:induction false} RedactedHeadersSnoc(headers: Dict<string>, list: seq<string>, i: nat)
    requires i < |headers|
    ensures RedactedHeaders(headers[..i + 1], list) ==
      RedactedHeaders(headers[..i], list)
        + [(headers[i].0, if IsRedactedName(headers[i].0, list) then Sentinel else headers[i].1)]
  {
    if i > 0 {
      assert headers[..i + 1][1..] == headers[1..][..i];
      assert headers[..i][1..] == headers[1..][..i - 1];
      RedactedHeadersSnoc(headers[1..], list, i - 1);
    }
  }

  // ---------------------------------------------------------------- bodies

  /** The argument of `redact_fields`: a `str` (the decoded request body) or `bytes`
      (the response body). */
  datatype Body = Text(text: string) | Bytes(bytes: seq<Utf8.byte>)

  /** What the `except` branch returns: the bytes, or the UTF-8 encoding of the text. */
  function OriginalBytes(body: Body): seq<Utf8.byte> {
    match body
    case Text(s) => Utf8.Encode(s)
    case Bytes(b) => b
  }

  /** `json.loads(body)`: text is parsed as it is, bytes are decoded as UTF-8 first. */
  function LoadBody(codec: Codec, body: Body): Option<Json> {
    match body
    case Text(s) => codec.loads(s)
    case Bytes(b) =>
      match Utf8.Decode(b)
      case None => None
      case Some(s) => codec.loads(s)
  }

  /** `parse(path)` for every selector, in order; `None` as soon as one fails. */
  function ParseAll(paths: seq<string>): Option<seq<Path>> {
    if paths == [] then Some([])
    else
      match (Parse(paths[0]), ParseAll(paths[1..]))
      case (Some(p), Some(ps)) => Some([p] + ps)
      case _ => None
  }

  /** The JSON value written over every selected field. */
  const RedactedValue: Json := Str(Sentinel)

  /** The bytes `redact_fields(body, paths)` returns: the re-serialised redacted
      document, or the original bytes if parsing the body or any selector raises. */
  function RedactedBody(codec: Codec, body: Body, paths: seq<string>): seq<Utf8.byte> {
    match (LoadBody(codec, body), ParseAll(paths))
    case (Some(data), Some(ps)) => Utf8.Encode(codec.dumps(UpdateAll(data, ps, RedactedValue)))
    case _ => OriginalBytes(body)
  }

  /** Selector parsing fails exactly when some selector fails to parse. */
  lemma {:induction false} ParseAllFails(paths: seq<string>)
    ensures ParseAll(paths).None? <==> exists i :: 0 <= i < |paths| && Parse(paths[i]).None?
  {
    if paths != [] {
      ParseAllFails(paths[1..]);
      if ParseAll(paths[1..]).None? {
        var i :| 0 <= i < |paths[1..]| && Parse(paths[1..][i]).None?;
        assert Parse(paths[i + 1]).None?;
      }
      if exists i :: 0 <= i < |paths| && Parse(paths[i]).None? {
        var i :| 0 <= i < |paths| && Parse(paths[i]).None?;
        if i > 0 { assert Parse(paths[1..][i - 1]).None?; }
      }
    }
  }

  /** When every selector parses, the parsed list is the selectors' parses in order. */
  lemma {:induction false} ParseAllSucceeds(paths: seq<string>, ps: seq<Path>)
    requires |paths| == |ps|
    requires forall i :: 0 <= i < |paths| ==> Parse(paths[i]) == Some(ps[i])
    ensures ParseAll(paths) == Some(ps)
  {
    if paths != [] {
      ParseAllSucceeds(paths[1..], ps[1..]);
      assert ps == [ps[0]] + ps[1..];
    }
  }

  /** Selectors parse one by one: a prefix one longer adds one parsed selector. */
  lemma {:induction false} ParseAllSnoc(paths: seq<string>, i: nat)
    requires i < |paths| && ParseAll(paths[..i]).Some? && Parse(paths[i]).Some?
    ensures ParseAll(paths[..i + 1]) == Some(ParseAll(paths[..i]).value + [Parse(paths[i]).value])
  {
    if i > 0 {
      assert paths[..i + 1][1..] == paths[1..][..i];
      assert paths[..i][1..] == paths[1..][..i - 1];
      var head := Parse(paths[0]).value;
      assert ParseAll(paths[..i]).value == [head] + ParseAll(paths[1..][..i - 1]).value;
      var rest := ParseAll(paths[1..][..i - 1]).value;
      var last := Parse(paths[i]).value;
      assert paths[1..][i - 1] == paths[i];
      ParseAllSnoc(paths[1..], i - 1);
      assert ParseAll(paths[1..][..i]) == Some(rest + [last]);
      assert paths[..i + 1][0] == paths[0];
      assert ParseAll(paths[..i + 1]) == Some([head] + (rest + [last]));
      assert [head] + (rest + [last]) == ([head] + rest) + [last];
    } else {
      assert paths[..1][1..] == [];
      assert ParseAll(paths[..1][1..]) == Some([]);
      assert ParseAll(paths[..0]) == Some([]);
      var p := Parse(paths[0]).value;
      assert paths[..1][0] == paths[0];
      assert ParseAll(paths[..1]) == Some([p] + []);
      assert [p] + [] == [] + [p];
    }
  }

  /** Applying one more selector after a list of them. */
  lemma {:induction false} UpdateAllSnoc(data: Json, ps: seq<Path>, p: Path, v: Json)
    ensures UpdateAll(data, ps + [p], v) == UpdateDocument(UpdateAll(data, ps, v), p, v)
    decreases |ps|
  {
    if ps != [] {
      assert (ps + [p])[1..] == ps[1..] + [p];
      UpdateAllSnoc(UpdateDocument(data, ps[0], v), ps[1..], p, v);
    } else {
      assert [] + [p] == [p];
    }
  }

  /** On the JSON path, the document that is serialised keeps every member no selector
      reaches, and holds the sentinel at every remaining location a selector describes. */
  lemma RedactedBodyLocations(codec: Codec, body: Body, paths: seq<string>, locs: seq<Loc>)
    requires LoadBody(codec, body).Some? && ParseAll(paths).Some?
    ensures var data, ps := LoadBody(codec, body).value, ParseAll(paths).value;
      var out := UpdateAll(data, ps, RedactedValue);
      && RedactedBody(codec, body, paths) == Utf8.Encode(codec.dumps(out))
      && ((forall i :: 0 <= i < |ps| ==> ps[i] == [] || Diverges(ps[i], locs)) ==>
            Lookup(out, locs) == Lookup(data, locs))
      && ((exists i :: 0 <= i < |ps| && ps[i] != [] && Matches(ps[i], locs)) && Lookup(out, locs).Some? ==>
            Lookup(out, locs) == Some(RedactedValue))
  {
    var data, ps := LoadBody(codec, body).value, ParseAll(paths).value;
    if forall i :: 0 <= i < |ps| ==> ps[i] == [] || Diverges(ps[i], locs) {
      UpdateAllFrame(data, ps, RedactedValue, locs);
    }
    if exists i :: 0 <= i < |ps| && ps[i] != [] && Matches(ps[i], locs) {
      var i :| 0 <= i < |ps| && ps[i] != [] && Matches(ps[i], locs);
      if Lookup(UpdateAll(data, ps, RedactedValue), locs).Some? {
        UpdateAllReplacesMatches(data, ps, RedactedValue, locs, i);
      }
    }
  }

  /** A body that is not valid JSON is returned unchanged (for text: its UTF-8 bytes),
      and so is any body when a selector does not parse. */
  lemma RedactedBodyFallback(codec: Codec, body: Body, paths: seq<string>)
    requires LoadBody(codec, body).None? || ParseAll(paths).None?
    ensures RedactedBody(codec, body, paths) == OriginalBytes(body)
  {
  }

  /** The UTF-8 bytes returned for a text body decode back to that very text. */
  lemma OriginalTextDecodes(s: string)
    ensures Utf8.Decode(OriginalBytes(Text(s))) == Some(s)
  {
    Utf8.DecodeEncode(s);
  }

  /** For a redacted document the result is the UTF-8 form of its serialisation, and it
      decodes back to that text. */
  lemma RedactedBodyText(codec: Codec, body: Body, paths: seq<string>)
    requires LoadBody(codec, body).Some? && ParseAll(paths).Some?
    ensures var text := codec.dumps(UpdateAll(LoadBody(codec, body).value, ParseAll(paths).value, RedactedValue));
      Utf8.Decode(RedactedBody(codec, body, paths)) == Some(text)
  {
    Utf8.DecodeEncode(codec.dumps(UpdateAll(LoadBody(codec, body).value, ParseAll(paths).value, RedactedValue)));
  }

  /** Redacting the output of `redact_fields` again with the same selectors gives the
      same bytes, provided the JSON codec reads back what it wrote for the redacted
      document. */
  lemma RedactedBodyIdempotent(codec: Codec, body: Body, paths: seq<string>)
    requires LoadBody(codec, body).Some? && ParseAll(paths).Some? ==>
      RoundTrips(codec, UpdateAll(LoadBody(codec, body).value, ParseAll(paths).value, RedactedValue))
    ensures var once := RedactedBody(codec, body, paths);
      RedactedBody(codec, Bytes(once), paths) == once
  {
    var once := RedactedBody(codec, body, paths);
    if ParseAll(paths).Some? {
      var ps := ParseAll(paths).value;
      match LoadBody(codec, body)
      case Some(data) =>
        var redacted := UpdateAll(data, ps, RedactedValue);
        Utf8.DecodeEncode(codec.dumps(redacted));
        assert LoadBody(codec, Bytes(once)) == Some(redacted);
        UpdateAllIdempotent(data, ps, RedactedValue);
      case None =>
        if body.Text? {
          Utf8.DecodeEncode(body.text);
        }
    }
  }
}
