/**
 * The positional-argument request shaper (lib/easy-fetch.js): every helper
 * takes `(url, query, body, additional)`, writes `Accept` (and, for GET
 * JSON requests with a body, `content-length`) into the caller's headers,
 * and builds a fresh option object for the transport.
 */
module EasyFetch {
  import opened Wrappers
  import opened Http
  import opened Json
  import opened QueryString
  import Utf8
  import UriEncoding

  /** `additional.headers`: absent, null, a value that is not an object
      (a string, a number, a boolean), or a header object. */
  datatype Headers = Missing | NullHeaders | NotAnObject | HeaderObject(entries: HeaderMap)

  /** The fields of `additional` other than `headers`, each an object passed
      through by reference. */
  type Fields = m: map<string, object> | "headers" !in m

  /** The caller's `additional` object, which the helpers change in place. */
  class Additional {
    var headers: Headers
    var fields: Fields

    constructor (headers: Headers, fields: Fields)
      ensures this.headers == headers && this.fields == fields
    {
      this.headers, this.fields := headers, fields;
    }
  }

  /** `option.body`: unset, the JSON text of the body argument, or a `body`
      field passed through from `additional`. */
  datatype BodyField = Unset | JsonText(text: string) | Passed(value: object)

  /** The option object `_getOption` builds. */
  datatype Descriptor = Descriptor(headers: HeaderMap, httpMethod: string, body: BodyField, fields: map<string, object>)

  /** The exception a helper throws. */
  datatype JsError = TypeError

  /** The URL and option object handed to the transport. */
  datatype Call = Call(url: string, option: Descriptor)

  /** `_getContentLength(body)`: the UTF-8 byte length of `JSON.stringify(body)`,
      computed, as in a browser, by collapsing the escapes of its percent-encoding. */
  function GetContentLength(body: JsonValue): (n: nat)
    ensures n == Utf8.ByteLength(Json.Stringify(body))
  {
    var bodyStr := Json.Stringify(body);
    var encoded := UriEncoding.EncodeURIComponent(bodyStr);
    assert encoded + [] == encoded;
    UriEncoding.CollapseEncoded(bodyStr, []);
    |UriEncoding.CollapseEscapes(encoded)|
  }

  /** The option object built from the caller's header entries and fields:
      the default Content-Type overwrites the caller's, every other header
      and field is kept, `method` is the helper's verb and `body` the JSON
      text of a non-null body argument. */
  function Merged(verb: Verb, body: JsonValue, entries: HeaderMap, fields: Fields): (d: Descriptor)
    ensures CONTENT_TYPE in d.headers && d.headers[CONTENT_TYPE] == Text(JSON_TYPE)
    ensures d.headers.Keys == entries.Keys + {CONTENT_TYPE}
    ensures forall k :: k in entries && k != CONTENT_TYPE ==> d.headers[k] == entries[k]
    ensures d.httpMethod == verb.Name()
    ensures d.body.JsonText? <==> body != JNull
    ensures body != JNull ==> d.body.text == Json.Stringify(body)
    ensures body == JNull ==> (d.body.Passed? <==> "body" in fields)
    ensures body == JNull && "body" in fields ==> d.body.value == fields["body"]
    ensures d.fields.Keys == fields.Keys - {"method", "body"}
    ensures forall k :: k in d.fields ==> d.fields[k] == fields[k]
  {
    Descriptor(
      entries + map[CONTENT_TYPE := Text(JSON_TYPE)],
      verb.Name(),
      if body != JNull then JsonText(Json.Stringify(body))
      else if "body" in fields then Passed(fields["body"])
      else Unset,
      fields - {"method", "body"})
  }

  /** `_getOption(method, body, additional)`. The loop runs over the keys of
      `additional`; for `headers` it merges the default into the caller's
      header object, which becomes the option's header object, and every
      other field is copied. */
  method GetOption(verb: Verb, body: JsonValue, additional: Additional) returns (option: Descriptor)
    requires additional.headers.HeaderObject?
    modifies additional
    ensures option == Merged(verb, body, old(additional.headers.entries), additional.fields)
    ensures additional.headers == HeaderObject(option.headers)
    ensures additional.fields == old(additional.fields)
  {
    var defaults := map[CONTENT_TYPE := Text(JSON_TYPE)];
    var headers := defaults;
    var copied: map<string, object> := map[];
    var keys := {"headers"} + additional.fields.Keys;
    while keys != {}
      invariant keys <= {"headers"} + additional.fields.Keys
      invariant additional.fields == old(additional.fields)
      invariant copied == map k | k in additional.fields.Keys - keys :: additional.fields[k]
      invariant "headers" in keys ==> headers == defaults && additional.headers == old(additional.headers)
      invariant "headers" !in keys ==>
        headers == old(additional.headers.entries) + defaults && additional.headers == HeaderObject(headers)
      decreases keys
    {
      var key :| key in keys;
      if key == "headers" {
        // Object.assign(additional.headers, option.headers)
        headers := additional.headers.entries + headers;
        additional.headers := HeaderObject(headers);
      } else {
        copied := copied[key := additional.fields[key]];
      }
      keys := keys - {key};
    }
    assert copied == additional.fields;
    var bodyField :=
      if body != JNull then JsonText(Json.Stringify(body))
      else if "body" in copied then Passed(copied["body"])
      else Unset;
    option := Descriptor(headers, verb.Name(), bodyField, copied - {"method", "body"});
  }

  /** The caller's header entries once a helper has set `Accept` (and, for a
      JSON GET with a body, `content-length`); a null `headers` throws. */
  function CallerHeaders(verb: Verb, format: Format, body: JsonValue, h: Headers): (r: Result<HeaderMap, JsError>)
    ensures r.Failure? <==> h.NullHeaders?
  {
    match h
    case NullHeaders => Failure(TypeError)
    case _ =>
      var accepted := EntriesOf(h)[ACCEPT := Text(format.Accept())];
      if format == AsJson && verb == GET && body != JNull then
        Success(accepted[CONTENT_LENGTH := Number(GetContentLength(body))])
      else
        Success(accepted)
  }

  /** The caller's header entries, or none when `headers` is not an object. */
  function EntriesOf(h: Headers): HeaderMap
  {
    if h.HeaderObject? then h.entries else map[]
  }

  /** What a helper hands to the transport. */
  function Requested(verb: Verb, format: Format, url: string, query: Option<Pairs>, body: JsonValue,
                     h: Headers, fields: Fields): (r: Result<Call, JsError>)
    // a null header object throws; anything else is replaced by or used as an object
    ensures r.Failure? <==> h.NullHeaders?
    ensures r.Success? ==> r.value.url == AddQuery(url, query)
    // the fixed Accept, the default Content-Type and the verb always win
    ensures r.Success? ==> ACCEPT in r.value.option.headers && r.value.option.headers[ACCEPT] == Text(format.Accept())
    ensures r.Success? ==> CONTENT_TYPE in r.value.option.headers && r.value.option.headers[CONTENT_TYPE] == Text(JSON_TYPE)
    ensures r.Success? ==> r.value.option.httpMethod == verb.Name()
    // every other caller header survives
    ensures r.Success? ==> forall k :: k in EntriesOf(h) && k != ACCEPT && k != CONTENT_TYPE && k != CONTENT_LENGTH ==>
      k in r.value.option.headers && r.value.option.headers[k] == EntriesOf(h)[k]
    // content-length is computed only for a JSON GET with a non-null body
    ensures r.Success? && format == AsJson && verb == GET && body != JNull ==>
      CONTENT_LENGTH in r.value.option.headers &&
      r.value.option.headers[CONTENT_LENGTH] == Number(Utf8.ByteLength(Json.Stringify(body)))
    ensures r.Success? && !(format == AsJson && verb == GET && body != JNull) ==>
      (CONTENT_LENGTH in r.value.option.headers <==> CONTENT_LENGTH in EntriesOf(h)) &&
      (CONTENT_LENGTH in EntriesOf(h) ==> r.value.option.headers[CONTENT_LENGTH] == EntriesOf(h)[CONTENT_LENGTH])
    // a non-object `headers` is replaced by `{}`, and only these three headers are added
    ensures r.Success? ==>
      r.value.option.headers.Keys ==
        EntriesOf(h).Keys + {ACCEPT, CONTENT_TYPE} + (if format == AsJson && verb == GET && body != JNull then {CONTENT_LENGTH} else {})
  {
    match CallerHeaders(verb, format, body, h)
    case Failure(e) => Failure(e)
    case Success(entries) => Success(Call(AddQuery(url, query), Merged(verb, body, entries, fields)))
  }

  /** `_getText(method, url, query, body, additional)` and
      `_getJson(method, url, query, body, additional)`; the response handling
      that follows is not part of this model. */
  method Get(verb: Verb, format: Format, url: string, query: Option<Pairs>, body: JsonValue, additional: Additional)
    returns (r: Result<Call, JsError>)
    modifies additional
    ensures r == Requested(verb, format, url, query, body, old(additional.headers), old(additional.fields))
    ensures r.Failure? ==> additional.headers == old(additional.headers)
    ensures r.Success? ==> additional.headers == HeaderObject(r.value.option.headers)
    ensures additional.fields == old(additional.fields)
  {
    if additional.headers.NullHeaders? {
      // `additional.headers.Accept = ...` on null
      return Failure(TypeError);
    }
    if !additional.headers.HeaderObject? {
      additional.headers := HeaderObject(map[]);
    }
    additional.headers := HeaderObject(additional.headers.entries[ACCEPT := Text(format.Accept())]);
    if format == AsJson && verb == GET && body != JNull {
      var n := GetContentLength(body);
      additional.headers := HeaderObject(additional.headers.entries[CONTENT_LENGTH := Number(n)]);
    }
    assert CallerHeaders(verb, format, body, old(additional.headers)) == Success(additional.headers.entries);
    var target := AddQuery(url, query);
    var option := GetOption(verb, body, additional);
    r := Success(Call(target, option));
  }

  /** The verb table: `get`, `post`, `put` and `delete`, each with `.text` and
      `.json`, taking `(url, query = {}, body = null, opt = {})`. A `query` of
      `None` (undefined or null) gives the same URL as the default `{}`; a
      `body` of `None` is undefined and becomes null; an `opt` of `None`
      becomes a fresh `{}`. */
  method Shortcut(verb: Verb, format: Format, url: string, query: Option<Pairs>, body: Option<JsonValue>,
                  opt: Option<Additional>) returns (r: Result<Call, JsError>, additional: Additional)
    modifies if opt.Some? then {opt.value} else {}
    ensures opt.Some? ==> additional == opt.value
    ensures opt.None? ==> fresh(additional)
    ensures r == Requested(verb, format, url, query, body.GetOr(JNull),
                           if opt.Some? then old(opt.value.headers) else Missing,
                           if opt.Some? then old(opt.value.fields) else map[])
    ensures r.Failure? ==> additional.headers == (if opt.Some? then old(opt.value.headers) else Missing)
    ensures r.Success? ==> additional.headers == HeaderObject(r.value.option.headers)
    ensures additional.fields == (if opt.Some? then old(opt.value.fields) else map[])
  {
    if opt.Some? {
      additional := opt.value;
    } else {
      additional := new Additional(Missing, map[]);
    }
    r := Get(verb, format, url, query, body.GetOr(JNull), additional);
  }

  /** Options are not copied: a GET JSON call leaves its computed
      `content-length` in the caller's header object, so a later call with
      the same object sends that stale value whatever its own body is. */
  lemma ReusedHeadersKeepContentLength(url: string, query: Option<Pairs>, first: JsonValue, second: JsonValue,
                                       verb: Verb, format: Format, h: Headers, fields: Fields)
    requires first != JNull && !h.NullHeaders?
    requires !(format == AsJson && verb == GET && second != JNull)
    ensures var r1 := Requested(GET, AsJson, url, query, first, h, fields);
      var r2 := Requested(verb, format, url, query, second, HeaderObject(r1.value.option.headers), fields);
      r2.Success? && CONTENT_LENGTH in r2.value.option.headers &&
      r2.value.option.headers[CONTENT_LENGTH] == Number(Utf8.ByteLength(Json.Stringify(first)))
  {
  }

  lemma HeadersKeyBytes(s: string)
    requires s == "headers"
    ensures Utf8.ByteLength(Quote(s)) == 9
  {
    PlainQuoteBytes(s);
    Utf8.AsciiByteLength(s);
  }

  lemma ContentLengthKeyBytes(s: string)
    requires s == "content-length"
    ensures Utf8.ByteLength(Quote(s)) == 16
  {
    PlainQuoteBytes(s);
    Utf8.AsciiByteLength(s);
  }

  lemma NumberBytes(v: JsonValue)
    requires v == JNumber(33)
    ensures Utf8.ByteLength(Json.Stringify(v)) == 2
  {
    assert Json.Stringify(v) == "33";
  }

  /** The byte count the test expects for `{headers: {'content-length': 33}}`,
      whose text is `{"headers":{"content-length":33}}`. */
  lemma ContentLengthExample(v: JsonValue, key: string, inner: JsonValue, innerKey: string, n: JsonValue)
    requires key == "headers" && innerKey == "content-length" && n == JNumber(33)
    requires inner == JObject([(innerKey, n)]) && v == JObject([(key, inner)])
    ensures GetContentLength(v) == 33
  {
    SingleMemberBytes(innerKey, n);
    ContentLengthKeyBytes(innerKey);
    NumberBytes(n);
    SingleMemberBytes(key, inner);
    HeadersKeyBytes(key);
  }
}
