/**
 * The options-object request shaper (lib/wrap-fetch.js). Every entry point
 * takes the caller's options object and changes it in place before it is
 * handed, with the final URL, to the transport.
 */
module WrapFetch {
  import opened Wrappers
  import opened Http
  import opened Json
  import opened QueryString
  import Utf8
  import UriEncoding

  /** The `headers` field: absent, something that is not a usable object
      (null, a string, a number, ...), or a header object. */
  datatype Headers = NoHeaders | NotAnObject | HeaderObject(entries: HeaderMap)

  /** The `body` field: absent (undefined) or a value. */
  datatype Body = NoBody | Body(value: JsonValue)

  /** The options' other object-valued fields (an `agent`, a `signal` and
      the like), which are passed through by reference. */
  type Extras = m: map<string, object> | "headers" !in m && "body" !in m && "method" !in m && "query" !in m

  /** A snapshot of an options object. `query == None` is a query that is
      absent, null or not an object; after `fetch` it is the deleted key. */
  datatype Request = Request(headers: Headers, body: Body, httpMethod: Option<string>, query: Option<Pairs>, extras: Extras)

  /** The caller's options object, which the shaper changes in place. */
  class Options {
    var headers: Headers
    var body: Body
    var httpMethod: Option<string>
    var query: Option<Pairs>
    var extras: Extras

    constructor (r: Request)
      ensures State() == r
    {
      headers, body, httpMethod, query, extras := r.headers, r.body, r.httpMethod, r.query, r.extras;
    }

    function State(): Request
      reads this
    {
      Request(headers, body, httpMethod, query, extras)
    }
  }

  /** `_getContentLength(bodyStr)`: the length of the percent-encoded body
      once every `%XY` is collapsed to one character, which is the UTF-8
      byte length of the body. */
  function GetContentLength(bodyStr: string): (n: nat)
    ensures n == Utf8.ByteLength(bodyStr)
  {
    var encoded := UriEncoding.EncodeURIComponent(bodyStr);
    assert encoded + [] == encoded;
    UriEncoding.CollapseEncoded(bodyStr, []);
    |UriEncoding.CollapseEscapes(encoded)|
  }

  /** The header object after the Content-Type default is applied. */
  function WithContentType(h: Headers): (m: HeaderMap)
    ensures TruthyAt(m, CONTENT_TYPE)
    ensures !h.HeaderObject? ==> m == map[CONTENT_TYPE := Text(JSON_TYPE)]
    ensures h.HeaderObject? ==> m.Keys == h.entries.Keys + {CONTENT_TYPE}
    ensures h.HeaderObject? ==> forall k :: k in h.entries && (k != CONTENT_TYPE || TruthyAt(h.entries, k)) ==> m[k] == h.entries[k]
    ensures h.HeaderObject? && !TruthyAt(h.entries, CONTENT_TYPE) ==> m[CONTENT_TYPE] == Text(JSON_TYPE)
  {
    if !h.HeaderObject? then map[CONTENT_TYPE := Text(JSON_TYPE)]
    else if TruthyAt(h.entries, CONTENT_TYPE) then h.entries
    else h.entries[CONTENT_TYPE := Text(JSON_TYPE)]
  }

  /** The body after an object body is replaced by its JSON text. */
  function Serialized(b: Body): (b': Body)
    ensures !(b'.Body? && b'.value.IsObject())
    ensures b.Body? && b.value.IsObject() ==> b' == Body(JString(Json.Stringify(b.value)))
    ensures !(b.Body? && b.value.IsObject()) ==> b' == b
  {
    if b.Body? && b.value.IsObject() then Body(JString(Json.Stringify(b.value))) else b
  }

  /** The three-part guard for adding `content-length`. */
  predicate NeedsContentLength(headers: HeaderMap, httpMethod: Option<string>, b: Body)
  {
    && !TruthyAt(headers, CONTENT_LENGTH)
    && (httpMethod == Some("GET") || httpMethod == None)
    && b.Body? && b.value.JString?
  }

  /** The header object after the content-length step. */
  function WithContentLength(headers: HeaderMap, httpMethod: Option<string>, b: Body): (m: HeaderMap)
    ensures NeedsContentLength(headers, httpMethod, b) ==>
      m.Keys == headers.Keys + {CONTENT_LENGTH} && m[CONTENT_LENGTH] == Number(Utf8.ByteLength(b.value.s))
    ensures !NeedsContentLength(headers, httpMethod, b) ==> m == headers
    ensures forall k :: k in headers && k != CONTENT_LENGTH ==> k in m && m[k] == headers[k]
  {
    if NeedsContentLength(headers, httpMethod, b) then
      headers[CONTENT_LENGTH := Number(GetContentLength(b.value.s))]
    else headers
  }

  /** The caller's header entries, or none when `headers` is not an object. */
  function EntriesOf(h: Headers): HeaderMap
  {
    if h.HeaderObject? then h.entries else map[]
  }

  /** What `_reform` leaves in the options object. */
  function Reformed(r: Request): (out: Request)
    ensures out.headers.HeaderObject? && TruthyAt(out.headers.entries, CONTENT_TYPE)
    ensures out.httpMethod == r.httpMethod && out.query == r.query && out.extras == r.extras
    ensures out.body == Serialized(r.body)
    // a caller's header object keeps every entry (a truthy Content-Type included);
    // a missing or unusable one becomes exactly the default (plus content-length)
    ensures forall k :: k in EntriesOf(r.headers) && k != CONTENT_LENGTH && (k != CONTENT_TYPE || TruthyAt(r.headers.entries, k)) ==>
      k in out.headers.entries && out.headers.entries[k] == r.headers.entries[k]
    ensures !r.headers.HeaderObject? ==>
      out.headers.entries.Keys <= {CONTENT_TYPE, CONTENT_LENGTH} && out.headers.entries[CONTENT_TYPE] == Text(JSON_TYPE)
    ensures !TruthyAt(EntriesOf(r.headers), CONTENT_TYPE) ==> out.headers.entries[CONTENT_TYPE] == Text(JSON_TYPE)
    // content-length is added exactly under the three-part guard, and otherwise left as it was
    ensures NeedsContentLength(EntriesOf(r.headers), r.httpMethod, Serialized(r.body)) ==>
      CONTENT_LENGTH in out.headers.entries && out.headers.entries[CONTENT_LENGTH] == Number(Utf8.ByteLength(out.body.value.s))
    ensures !NeedsContentLength(EntriesOf(r.headers), r.httpMethod, Serialized(r.body)) ==>
      (CONTENT_LENGTH in out.headers.entries <==> CONTENT_LENGTH in EntriesOf(r.headers)) &&
      (CONTENT_LENGTH in EntriesOf(r.headers) ==> out.headers.entries[CONTENT_LENGTH] == r.headers.entries[CONTENT_LENGTH])
    // no header other than these two is ever added
    ensures out.headers.entries.Keys <= EntriesOf(r.headers).Keys + {CONTENT_TYPE, CONTENT_LENGTH}
  {
    var headers := WithContentType(r.headers);
    var b := Serialized(r.body);
    assert TruthyAt(headers, CONTENT_LENGTH) == TruthyAt(EntriesOf(r.headers), CONTENT_LENGTH);
    r.(headers := HeaderObject(WithContentLength(headers, r.httpMethod, b)), body := b)
  }

  /** `_reform(option)`. */
  method Reform(opt: Options)
    modifies opt
    ensures opt.State() == Reformed(old(opt.State()))
  {
    if !opt.headers.HeaderObject? {
      opt.headers := HeaderObject(map[CONTENT_TYPE := Text(JSON_TYPE)]);
    } else if !TruthyAt(opt.headers.entries, CONTENT_TYPE) {
      opt.headers := HeaderObject(opt.headers.entries[CONTENT_TYPE := Text(JSON_TYPE)]);
    }
    if opt.body.Body? && opt.body.value.IsObject() {
      opt.body := Body(JString(Json.Stringify(opt.body.value)));
    }
    if && !TruthyAt(opt.headers.entries, CONTENT_LENGTH)
       && (opt.httpMethod == Some("GET") || opt.httpMethod == None)
       && opt.body.Body? && opt.body.value.JString?
    {
      var n := GetContentLength(opt.body.value.s);
      opt.headers := HeaderObject(opt.headers.entries[CONTENT_LENGTH := Number(n)]);
    }
  }

  /** `opt.query || {}`: the query `fetch` builds the URL from. */
  function QueryOrEmpty(query: Option<Pairs>): Option<Pairs>
  {
    if query.Some? then query else Some([])
  }

  /** What `fetch` hands to the transport: the options with `query` deleted
      (`None` here is the deleted key), reformed. */
  function Sent(r: Request): (out: Request)
    ensures out.query == None
  {
    Reformed(r.(query := None))
  }

  /** `fetch(url, opt)`: returns the URL handed to the transport. */
  method Fetch(url: string, opt: Options) returns (target: string)
    modifies opt
    ensures target == AddQuery(url, QueryOrEmpty(old(opt.query)))
    ensures opt.State() == Sent(old(opt.State()))
  {
    var query := QueryOrEmpty(opt.query);
    opt.query := None;
    target := AddQuery(url, query);
    Reform(opt);
  }

  /** The options as a verb helper leaves them before calling `fetch`. */
  function Prepared(r: Request, verb: Verb, format: Format): Request
  {
    var r1 := Reformed(r);
    r1.(headers := HeaderObject(r1.headers.entries[ACCEPT := Text(format.Accept())]),
        httpMethod := Some(verb.Name()))
  }

  /** What a verb helper hands to the transport. */
  function Dispatched(r: Request, verb: Verb, format: Format): Request
  {
    Sent(Prepared(r, verb, format))
  }

  /** `_getText(method, url, opt)` and `_getJson(method, url, opt)`; the
      response handling that follows is not part of this model. */
  method Get(verb: Verb, format: Format, url: string, opt: Options) returns (target: string)
    modifies opt
    ensures target == AddQuery(url, QueryOrEmpty(old(opt.query)))
    ensures opt.State() == Dispatched(old(opt.State()), verb, format)
  {
    Reform(opt);
    opt.headers := HeaderObject(opt.headers.entries[ACCEPT := Text(format.Accept())]);
    opt.httpMethod := Some(verb.Name());
    target := Fetch(url, opt);
  }

  const EMPTY: Request := Request(NoHeaders, NoBody, None, None, map[])

  /** The verb table: `get`, `post`, `put` and `delete`, each with `.text`
      and `.json`, whose options default to a fresh `{}`. */
  method Shortcut(verb: Verb, format: Format, url: string, opt: Option<Options>) returns (target: string, sent: Options)
    modifies if opt.Some? then {opt.value} else {}
    ensures opt.Some? ==> sent == opt.value
    ensures opt.None? ==> fresh(sent)
    ensures target == AddQuery(url, QueryOrEmpty(if opt.Some? then old(opt.value.query) else None))
    ensures sent.State() == Dispatched(if opt.Some? then old(opt.value.State()) else EMPTY, verb, format)
  {
    if opt.Some? {
      sent := opt.value;
    } else {
      sent := new Options(EMPTY);
    }
    target := Get(verb, format, url, sent);
  }

  /** `_reform` applied to its own output changes nothing, which is what lets
      `fetch` reform options a verb helper has already reformed. */
  lemma ReformIdempotent(r: Request)
    ensures Reformed(Reformed(r)) == Reformed(r)
  {
    var r1 := Reformed(r);
    var h := r1.headers.entries;
    assert WithContentType(r1.headers) == h;
    if NeedsContentLength(h, r1.httpMethod, r1.body) {
      assert NeedsContentLength(EntriesOf(r.headers), r.httpMethod, Serialized(r.body));
      assert h[CONTENT_LENGTH] == Number(0);
      assert h[CONTENT_LENGTH := Number(GetContentLength(r1.body.value.s))] == h;
    }
  }

  /** The guard under which a verb helper's request carries a computed
      `content-length`: the first reform sees the caller's method, the second
      the helper's verb. */
  predicate HelperAddsContentLength(r: Request, verb: Verb)
  {
    && !TruthyAt(EntriesOf(r.headers), CONTENT_LENGTH)
    && Serialized(r.body).Body? && Serialized(r.body).value.JString?
    && (r.httpMethod == Some("GET") || r.httpMethod == None || verb == GET)
  }

  /** A verb helper always sends the fixed `Accept` and the fixed verb, drops
      `query`, serialises an object body and keeps a Content-Type. */
  lemma DispatchedOverrides(r: Request, verb: Verb, format: Format)
    ensures var out := Dispatched(r, verb, format);
      && out.headers.HeaderObject?
      && ACCEPT in out.headers.entries && out.headers.entries[ACCEPT] == Text(format.Accept())
      && TruthyAt(out.headers.entries, CONTENT_TYPE)
      && out.httpMethod == Some(verb.Name())
      && out.query == None
      && out.body == Serialized(r.body)
      && out.extras == r.extras
  {
    var p := Prepared(r, verb, format);
    assert p.headers.entries[ACCEPT] == Text(format.Accept());
  }

  /** The `content-length` a verb helper sends: computed from the serialised
      body when `HelperAddsContentLength` holds, otherwise the caller's own
      (present or absent) untouched. */
  lemma DispatchedContentLength(r: Request, verb: Verb, format: Format)
    ensures var out := Dispatched(r, verb, format);
      && (HelperAddsContentLength(r, verb) ==>
            CONTENT_LENGTH in out.headers.entries &&
            out.headers.entries[CONTENT_LENGTH] == Number(Utf8.ByteLength(Serialized(r.body).value.s)))
      && (!HelperAddsContentLength(r, verb) ==>
            (CONTENT_LENGTH in out.headers.entries <==> CONTENT_LENGTH in EntriesOf(r.headers)) &&
            (CONTENT_LENGTH in EntriesOf(r.headers) ==>
               out.headers.entries[CONTENT_LENGTH] == r.headers.entries[CONTENT_LENGTH]))
  {
    DispatchedHeaders(r, verb, format);
    if HelperAddsContentLength(r, verb) {
      AddedContentLength(r, verb, format);
    } else {
      KeptContentLength(r, verb, format);
    }
  }

  /** The headers a verb helper sends: the second reform's content-length
      step applied to the first reform's headers with `Accept` set. */
  lemma DispatchedHeaders(r: Request, verb: Verb, format: Format)
    ensures Dispatched(r, verb, format).headers.entries ==
      WithContentLength(Reformed(r).headers.entries[ACCEPT := Text(format.Accept())], Some(verb.Name()), Serialized(r.body))
  {
    var r1 := Reformed(r);
    var q := Prepared(r, verb, format).(query := None);
    var h := r1.headers.entries[ACCEPT := Text(format.Accept())];
    assert EntriesOf(q.headers) == h;
    assert WithContentType(q.headers) == h;
    assert Serialized(q.body) == r1.body;
  }

  lemma AddedContentLength(r: Request, verb: Verb, format: Format)
    requires HelperAddsContentLength(r, verb)
    ensures var h := WithContentLength(Reformed(r).headers.entries[ACCEPT := Text(format.Accept())], Some(verb.Name()), Serialized(r.body));
      CONTENT_LENGTH in h && h[CONTENT_LENGTH] == Number(Utf8.ByteLength(Serialized(r.body).value.s))
  {
    var b := Serialized(r.body);
    var h1 := Reformed(r).headers.entries;
    if r.httpMethod == Some("GET") || r.httpMethod == None {
      assert NeedsContentLength(EntriesOf(r.headers), r.httpMethod, b);
      assert h1[CONTENT_LENGTH] == Number(Utf8.ByteLength(b.value.s));
    } else {
      assert !NeedsContentLength(EntriesOf(r.headers), r.httpMethod, b);
      assert NeedsContentLength(h1[ACCEPT := Text(format.Accept())], Some(verb.Name()), b);
    }
  }

  lemma KeptContentLength(r: Request, verb: Verb, format: Format)
    requires !HelperAddsContentLength(r, verb)
    ensures var h := WithContentLength(Reformed(r).headers.entries[ACCEPT := Text(format.Accept())], Some(verb.Name()), Serialized(r.body));
      (CONTENT_LENGTH in h <==> CONTENT_LENGTH in EntriesOf(r.headers)) &&
      (CONTENT_LENGTH in EntriesOf(r.headers) ==> h[CONTENT_LENGTH] == r.headers.entries[CONTENT_LENGTH])
  {
    var b := Serialized(r.body);
    var h1 := Reformed(r).headers.entries;
    assert !NeedsContentLength(EntriesOf(r.headers), r.httpMethod, b);
    assert !NeedsContentLength(h1[ACCEPT := Text(format.Accept())], Some(verb.Name()), b);
  }

  /** The body of the verb-helper test: `{req: 'json'}`. */
  const REQ_JSON: JsonValue := JObject([("req", JString("json"))])

  /** Header objects are not copied: when a later request reuses the header
      object a verb helper sent, with a nonzero computed `content-length` in
      it, that stale value is sent again whatever the later body is. */
  lemma ReusedHeadersKeepContentLength(first: Request, verb: Verb, format: Format,
                                       second: Request, verb': Verb, format': Format)
    requires HelperAddsContentLength(first, verb)
    requires Utf8.ByteLength(Serialized(first.body).value.s) > 0
    requires second.headers == Dispatched(first, verb, format).headers
    ensures var out := Dispatched(second, verb', format').headers.entries;
      CONTENT_LENGTH in out && out[CONTENT_LENGTH] == Number(Utf8.ByteLength(Serialized(first.body).value.s))
  {
    DispatchedContentLength(first, verb, format);
    assert TruthyAt(EntriesOf(second.headers), CONTENT_LENGTH);
    assert !HelperAddsContentLength(second, verb');
    DispatchedContentLength(second, verb', format');
  }

  lemma QuotedBytes(s: string, n: nat)
    requires (s == "req" && n == 5) || (s == "json" && n == 6)
    ensures Utf8.ByteLength(Quote(s)) == n
  {
    PlainQuoteBytes(s);
    Utf8.AsciiByteLength(s);
  }

  /** `JSON.stringify({req: 'json'})` is the 14-byte text `{"req":"json"}`. */
  lemma ReqJsonBytes(v: JsonValue)
    requires v == REQ_JSON
    ensures Utf8.ByteLength(Json.Stringify(v)) == 14
  {
    var key, value := "req", "json";
    SingleMemberBytes(key, JString(value));
    QuotedBytes(key, 5);
    QuotedBytes(value, 6);
  }

  /** For options holding only an object body, `post.json(url, opt)` sends a
      `content-length`, because the helper reforms before it sets the method,
      while `fetch(url, opt)` with `method: 'PUT'` added sends none. */
  lemma HelperVersusFetch(r: Request)
    requires r.headers == NoHeaders && r.httpMethod == None && r.body.Body? && r.body.value.IsObject()
    ensures var viaHelper := Dispatched(r, POST, AsJson);
      CONTENT_LENGTH in viaHelper.headers.entries &&
      viaHelper.headers.entries[CONTENT_LENGTH] == Number(Utf8.ByteLength(Json.Stringify(r.body.value)))
    ensures CONTENT_LENGTH !in Sent(r.(httpMethod := Some("PUT"))).headers.entries
  {
    assert HelperAddsContentLength(r, POST);
    DispatchedContentLength(r, POST, AsJson);
    var put := r.(httpMethod := Some("PUT"));
    assert !NeedsContentLength(EntriesOf(put.(query := None).headers), put.httpMethod, Serialized(put.body));
  }

  /** The test's `post.json(url, {body: {req: 'json'}})` sends `content-length: 14`. */
  lemma PostJsonExample(r: Request)
    requires r == Request(NoHeaders, Body(REQ_JSON), None, None, map[])
    ensures var viaHelper := Dispatched(r, POST, AsJson);
      CONTENT_LENGTH in viaHelper.headers.entries && viaHelper.headers.entries[CONTENT_LENGTH] == Number(14)
  {
    HelperVersusFetch(r);
    ReqJsonBytes(r.body.value);
  }

  lemma KanaParts(kana: string)
    requires kana == "{\"Daiki Arai\":\"アライダイキ\"}"
    ensures kana == "{\"Daiki Arai\":\"" + "アライダイキ" + "\"}" && |kana| == 23
  {
  }

  lemma KatakanaBytes(k: string)
    requires k == "アライダイキ"
    ensures Utf8.ByteLength(k) == 18
  {
    Utf8.ThreeByteLength(k);
  }

  lemma KanaPrefixBytes(p: string)
    requires p == "{\"Daiki Arai\":\""
    ensures Utf8.ByteLength(p) == 15
  {
    Utf8.AsciiByteLength(p);
  }

  lemma KanaSuffixBytes(p: string)
    requires p == "\"}"
    ensures Utf8.ByteLength(p) == 2
  {
    Utf8.AsciiByteLength(p);
  }

  lemma HeadersBodyBytes(a: string)
    requires a == "{\"headers\":{\"content-length\":33}}"
    ensures Utf8.ByteLength(a) == 33
  {
    Utf8.AsciiByteLength(a);
  }

  /** The byte counts the tests expect: 33 for an ASCII body of 33 characters,
      35 for a 23-character body holding six katakana. */
  lemma ContentLengthExamples(ascii: string, kana: string)
    requires ascii == "{\"headers\":{\"content-length\":33}}"
    requires kana == "{\"Daiki Arai\":\"アライダイキ\"}"
    ensures GetContentLength(ascii) == 33
    ensures |kana| == 23 && GetContentLength(kana) == 35
  {
    HeadersBodyBytes(ascii);
    KanaParts(kana);
    var prefix, katakana, suffix := "{\"Daiki Arai\":\"", "アライダイキ", "\"}";
    KatakanaBytes(katakana);
    KanaPrefixBytes(prefix);
    KanaSuffixBytes(suffix);
    Utf8.ByteLengthAppend(prefix, katakana);
    Utf8.ByteLengthAppend(prefix + katakana, suffix);
  }
}
