# easy-fetch request shapers in Dafny

This project models the two request shapers of `easy-fetch`. Both are thin
layers over an injected `fetch` function.

- `lib/wrap-fetch.js` is the options-object style. `fetch(url, opt)` and the
  verb helpers `get`/`post`/`put`/`delete` × `.text`/`.json` take the
  caller's options object and change it in place. `_reform` defaults the
  `Content-Type`, serialises an object body and adds a `content-length`.
  `_addQuery` appends the query string.
- `lib/easy-fetch.js` is the positional style. Every helper takes
  `(url, query = {}, body = null, opt = {})`. It writes `Accept`, and for a
  JSON GET with a body also `content-length`, into the caller's headers.
  `_getOption` then builds a fresh option object.

The modules follow that structure:

- `Wrappers`: `Option` and `Result`.
- `Utf8`: the UTF-8 encoding of RFC 3629, its byte count and a decoder.
- `UriEncoding`: `encodeURIComponent` as in section 18.2.6.5 of ECMA-262,
  6th edition. It also holds the `.replace(/%../g, 'z')` collapse and a
  reference percent-decoder.
- `Json`: a reference `JSON.stringify` for null, booleans, integers,
  strings, arrays and objects.
- `QueryString`: `querystring.stringify` on flat string-valued objects,
  the `//host` normalisation of `_addQuery`, and a reference query reader.
- `Http`: header values, JavaScript truthiness, verbs and the fixed header
  names and values.
- `WrapFetch`: the options object is the class `Options`. `_reform`,
  `fetch`, `_getText`/`_getJson` and the verb table are methods that take
  it and change it in place. Each
  is proved against a function (`Reformed`, `Sent`, `Dispatched`) on a
  `Request` snapshot.
- `EasyFetch`: the `additional` object is the class `Additional`.
  `_getOption` is a loop over its keys. `_getText`/`_getJson` and the verb
  table are methods. They are proved against `Merged` and `Requested`.

`_getContentLength` is modelled exactly as the browser branch writes it:
percent-encode, collapse every `%XY` to one character, take the length.
The proof shows that this always equals the UTF-8 byte length of the body.
easy-fetch's Node branch calls `Buffer.byteLength` instead; that it returns
the same UTF-8 count is assumed, not proved.

Behaviour of the code that is easy to miss, which the model reproduces:

- The wrap-fetch verb helpers reform the options before they set `method`
  (lib/wrap-fetch.js:69-71 and 84-86).
  When the caller gave no method and no truthy `content-length`, and the
  body is a string or an object, even `post.json`, `put.json` and
  `delete.json` send a computed `content-length`. In that case
  `fetch(url, {method: 'PUT', ...})` sends none. So the two are not
  identical requests.
- The "already present" test for `Content-Type` and `content-length` is
  JavaScript truthiness (lib/wrap-fetch.js:113 and 118). An empty string or
  `0` counts as absent. Such a `Content-Type` is always replaced. Such a
  `content-length` is replaced only under the rest of the guard: the method
  is GET or undefined and the body is a string after serialisation
  (lib/wrap-fetch.js:119-120).
- A `null` body stays `null` in the options (lib/wrap-fetch.js:116). It is
  not removed.
- easy-fetch overwrites a caller's `Content-Type` with `application/json`
  (lib/easy-fetch.js:117).
- easy-fetch `headers: null` passes the `typeof === 'object'` test and then
  throws a `TypeError` (lib/easy-fetch.js:54-56 and 74-76).

## Model

| member | source | states |
|---|---|---|
| Utf8.EncodeLength | lib/wrap-fetch.js:125-134 | the UTF-8 encoding of a string has exactly `ByteLength` octets; the `Buffer.byteLength` branch of easy-fetch is assumed to report this count |
| Utf8.DecodeEncode | lib/wrap-fetch.js:125-134 | decoding the UTF-8 encoding gives the string back, so `ByteLength` counts a faithful encoding |
| Utf8.AsciiByteLength | lib/wrap-fetch.js:125-134 | an ASCII-only body has as many bytes as characters |
| Utf8.NonAsciiIsLonger | lib/wrap-fetch.js:125-134 | a body with any non-ASCII character has strictly more bytes than characters |
| Utf8.ThreeByteLength | test/wrap-fetch.test.js:38 | characters from U+0800 to U+FFFF (katakana among them) take three bytes each |
| UriEncoding.CollapseEncoded | lib/wrap-fetch.js:132-134 | collapsing every `%XY` of `encodeURIComponent(s)` leaves exactly as many characters as `s` has UTF-8 octets |
| UriEncoding.EncodedIsAscii | lib/wrap-fetch.js:133 | the percent-encoded text is ASCII, so its JavaScript `.length` is its length in characters |
| UriEncoding.DecodeEncoded | lib/wrap-fetch.js:133 | a reference percent-decoder followed by UTF-8 decoding inverts `encodeURIComponent` |
| UriEncoding.UnescapeEncoded | lib/wrap-fetch.js:133 | un-escaping the encoded text yields exactly the UTF-8 octets of the string |
| WrapFetch.GetContentLength | lib/wrap-fetch.js:132-134 | `_getContentLength(bodyStr)` is the UTF-8 byte length of `bodyStr` |
| WrapFetch.ContentLengthExamples | test/wrap-fetch.test.js:36-39 | the tested bodies give 33 (33 ASCII characters) and 35 (23 characters with six katakana) |
| QueryString.Normalise | lib/wrap-fetch.js:98 | a `//host` URL gains `http:`; any other URL is unchanged; the result is never protocol-relative |
| QueryString.Stringify | lib/wrap-fetch.js:99-100 | the query string is empty exactly when the query is absent, null, not an object or has no keys |
| QueryString.AddQuery | lib/wrap-fetch.js:97-102 | the result begins with the normalised URL; it equals that URL iff the query is empty; otherwise `?` and the joined `key=value` fields follow |
| QueryString.ParseJoin | lib/wrap-fetch.js:99-100 | reading the serialised query back (split at `&`, then at the first `=`) gives the entries in order, when keys hold no `&`/`=` and values no `&` |
| QueryString.SplitAddQuery | lib/wrap-fetch.js:97-102 | for a URL without `?`, splitting the result at its first `?` gives back the normalised URL and the query string |
| QueryString.EmptyQueryExample | test/wrap-fetch.test.js:29-31 | `{}` and a missing query leave `http://test.co.jp` unchanged |
| QueryString.OneFieldExample | test/wrap-fetch.test.js:32 | `{a: 1}` gives `http://test.co.jp?a=1` |
| QueryString.ProtocolRelativeExample | test/wrap-fetch.test.js:33 | `//test.co.jp` with `{a: 1, b: 2}` gives `http://test.co.jp?a=1&b=2` |
| WrapFetch.WithContentType | lib/wrap-fetch.js:111-114 | a missing or non-object `headers` becomes exactly `{Content-Type: application/json}`; an object keeps every entry, a truthy Content-Type included, and gains the default Content-Type only when its own is falsy |
| WrapFetch.Serialized | lib/wrap-fetch.js:116-117 | an object or array body becomes its JSON text; any other body (null, string, number, boolean, absent) is unchanged; no object body remains |
| WrapFetch.WithContentLength | lib/wrap-fetch.js:118-121 | `content-length` is set to the body's UTF-8 byte length exactly when it is falsy, the method is GET or undefined and the body is a string; otherwise the headers are unchanged; other headers always survive |
| WrapFetch.Reformed | lib/wrap-fetch.js:110-123 | after `_reform`: Content-Type is truthy; method, query and other fields are kept; the body is serialised; caller headers survive; content-length is added exactly under the three-part guard and otherwise left as the caller had it; no header other than Content-Type and content-length is added |
| WrapFetch.Reform | lib/wrap-fetch.js:110-123 | the in-place `_reform` leaves the options object in the state `Reformed` describes |
| WrapFetch.ReformIdempotent | lib/wrap-fetch.js:110-123 | reforming reformed options changes nothing: content-length is recomputed only when the stored value is 0 (an empty string body), and then to the same 0 |
| WrapFetch.Sent | lib/wrap-fetch.js:51-58 | the options `fetch` hands to the transport never carry `query` |
| WrapFetch.Fetch | lib/wrap-fetch.js:51-58 | `fetch` builds the URL from `opt.query` (or `{}` when that is falsy), deletes `query` and reforms the caller's object in place |
| WrapFetch.Get | lib/wrap-fetch.js:68-88 | `_getText`/`_getJson` reform, set `Accept` and `method`, then `fetch`; the URL and the final object state are given by `Dispatched` |
| WrapFetch.DispatchedOverrides | lib/wrap-fetch.js:68-88 | a verb helper always sends its own `Accept` and verb, a truthy Content-Type, the serialised body and the caller's other fields, and never `query` |
| WrapFetch.DispatchedContentLength | lib/wrap-fetch.js:68-88 | a verb helper sends a computed content-length exactly when the caller's is falsy, the body is a string after serialisation, and the caller's method or the helper's verb is GET/undefined; otherwise the caller's own is left untouched |
| WrapFetch.HelperVersusFetch | test/wrap-fetch.test.js:49-55 | for an object body with no headers or method, `post.json` sends content-length = the body's JSON byte count, while `fetch` with `method: 'PUT'` sends none |
| WrapFetch.PostJsonExample | test/wrap-fetch.test.js:49 | `post.json(url, {body: {req: 'json'}})` sends `content-length: 14` |
| WrapFetch.Shortcut | lib/wrap-fetch.js:18-41 | every verb × format entry dispatches with its own verb and format, on the caller's object or on a fresh `{}` |
| EasyFetch.GetContentLength | lib/easy-fetch.js:129-135 | `_getContentLength(body)` is the UTF-8 byte length of `JSON.stringify(body)` on the percent-encoding branch; the `Buffer.byteLength` branch is assumed equal |
| EasyFetch.ContentLengthExample | test/easy-fetch.test.js:37-44 | `{headers: {'content-length': 33}}` has a content-length of 33 |
| EasyFetch.Merged | lib/easy-fetch.js:107-123 | the option object: Content-Type forced to `application/json`, every other caller header and field kept, `method` is the verb, `body` is the JSON text of a non-null body, else a passed-through `body` field |
| EasyFetch.GetOption | lib/easy-fetch.js:107-123 | the loop over the keys of `additional` builds `Merged` and leaves the merged headers in the caller's object |
| EasyFetch.CallerHeaders | lib/easy-fetch.js:53-81 | the helpers fail (TypeError) exactly when `headers` is null |
| EasyFetch.Requested | lib/easy-fetch.js:53-97 | a helper throws iff `headers` is null; otherwise it uses the `_addQuery` URL, sends the fixed Accept, Content-Type and verb, keeps other caller headers, and computes content-length exactly for a JSON GET with a non-null body, else keeps the caller's; the sent header names are exactly the caller's (none for a non-object `headers`, which becomes `{}`) plus Accept, Content-Type and that content-length |
| EasyFetch.Get | lib/easy-fetch.js:53-83 | `_getText`/`_getJson` return `Requested` and leave the sent headers in the caller's object, or leave it unchanged when they throw |
| EasyFetch.Shortcut | lib/easy-fetch.js:17-40 | every verb × format entry applies the defaults query `{}`, body `null` and opt `{}`, dispatches with its own verb and format, and leaves the sent headers (Accept, Content-Type, content-length) in the caller's object, or leaves it unchanged when it throws; its other fields are unchanged |
| WrapFetch.ReusedHeadersKeepContentLength | lib/wrap-fetch.js:118-121 | a request that reuses the header object a verb helper sent, holding a nonzero computed content-length, sends that stale value again whatever its own body |
| EasyFetch.ReusedHeadersKeepContentLength | lib/easy-fetch.js:73-81 | a JSON GET leaves its content-length in the caller's headers, and a later call that does not recompute it sends that stale value |

## Left out

- The transport: calling the injected `fetch`, the promise chain and `res.text()`/`res.json()` are not modelled. `Get` returns the URL and the option state handed to the transport instead.
- The constructor's re-exports of `Response`, `Headers` and `Request` are left out, because they only copy references.
- `index.js` is not part of this model, because it only selects a shaper.
- `JSON.stringify` beyond the modelled values is left out: non-integer numbers, `undefined` or function members, `toJSON`, and cyclic values.
- Json.Stringify: integers are unbounded and written with every digit. JavaScript numbers hold integers exactly only up to 2^53, and `JSON.stringify` writes magnitudes of 1e21 and above in exponent form (`1e+21`). Bodies holding such numbers get a different text and byte count in the model.
- WrapFetch.Request: `method` is absent or a string. A `null` or other non-string method is not modelled. The source treats it as neither `'GET'` nor undefined, so it adds no content-length.
- WrapFetch.Options: each options object owns its header object. A JavaScript header object shared by two options objects, or reused across calls, is not modelled as one shared object; the model passes its value along instead. So aliasing of a header object is not captured. `WrapFetch.ReusedHeadersKeepContentLength` covers the reuse of a header object a helper has already sent. The same holds for `EasyFetch.Additional` and its `headers`.
- `querystring.stringify` on arrays, numbers or booleans, and on components containing `%`, is left out. Numbers are modelled as their decimal strings, for example `{a: 1}` as `a=1`. `querystring.unescape` is the identity on components without `%`.
- `_getContentLength`'s `typeof self` test is left out. The percent-encoding branch is proved equal to the UTF-8 byte length. That `Buffer.byteLength` gives the same count is assumed.
- Lone UTF-16 surrogates are not modelled. A Dafny `char` is a Unicode scalar value, and on a lone surrogate `encodeURIComponent` throws.
- `Object.assign` on a primitive or null field of `additional` is left out. Fields are objects passed by reference.
- A `null` options object is left out.
- Array-valued `headers` are left out.
- Header values other than strings and numbers are left out.
- Header key order is not modelled.
- Header names are case-sensitive map keys, as in the source's property accesses.
- WrapFetch.Fetch: the `opt = {}` default is not a separate parameter. Passing `new Options(EMPTY)` is that default.
- EasyFetch.GetOption: it requires `headers` to be an object. Every caller ensures this first, and it is the only case the source's `Object.assign` handles.
