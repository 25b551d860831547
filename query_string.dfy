/**
 * Query-string building shared by both request shapers: Node's
 * `querystring.stringify(query, null, null, {encodeURIComponent: querystring.unescape})`
 * on a flat object of string values, and the URL normalisation of `_addQuery`.
 */
module QueryString {
  import opened Wrappers

  /** A query key or value. It holds no `%`, so `querystring.unescape`
      (a percent-decoder) leaves it as it is and it is written verbatim. */
  type Component = s: string | '%' !in s

  /** The entries of a query object in `Object.keys` order. */
  type Pairs = seq<(Component, Component)>

  /** `key=value` for one entry. */
  function Field(entry: (Component, Component)): string
  {
    entry.0 + "=" + entry.1
  }

  /** The entries joined with `&`. */
  function Join(entries: Pairs): string
  {
    if entries == [] then ""
    else if |entries| == 1 then Field(entries[0])
    else Field(entries[0]) + "&" + Join(entries[1..])
  }

  /** The serialised query. `None` is a query that is absent, null or not an
      object, all of which serialise to the empty string. */
  function Stringify(query: Option<Pairs>): (qs: string)
    ensures qs == "" <==> query == None || query == Some([])
  {
    match query
    case None => ""
    case Some(entries) =>
      assert entries != [] ==> '=' in Field(entries[0]) && '=' in Join(entries) by {
        if entries != [] {
          assert Field(entries[0])[|entries[0].0|] == '=';
          assert Join(entries)[|entries[0].0|] == '=';
        }
      }
      Join(entries)
  }

  /** A protocol-relative URL: one that begins with `//`. */
  predicate ProtocolRelative(url: string)
  {
    |url| >= 2 && url[0] == '/' && url[1] == '/'
  }

  /** `/^\/\//.test(url) ? 'http:' + url : url` */
  function Normalise(url: string): (u: string)
    ensures !ProtocolRelative(u)
    ensures ProtocolRelative(url) ==> u == "http:" + url
    ensures !ProtocolRelative(url) ==> u == url
  {
    if ProtocolRelative(url) then "http:" + url else url
  }

  /** `_addQuery(url, query)`: the normalised URL, followed by `?` and the
      serialised query when that is not empty. */
  function AddQuery(url: string, query: Option<Pairs>): (r: string)
    ensures |r| >= |Normalise(url)| && r[..|Normalise(url)|] == Normalise(url)
    ensures r == Normalise(url) <==> query == None || query == Some([])
    ensures query != None && query != Some([]) ==>
      r[|Normalise(url)|..] == "?" + Join(query.value)
  {
    var u := Normalise(url);
    var qs := Stringify(query);
    if qs == "" then u else u + "?" + qs
  }

  /** The index of the first `c` in `s`, or `|s|` when there is none. */
  function Find(s: string, c: char): (i: nat)
    ensures i <= |s|
    ensures forall j :: 0 <= j < i ==> s[j] != c
    ensures i < |s| ==> s[i] == c
  {
    if s == [] then 0 else if s[0] == c then 0 else 1 + Find(s[1..], c)
  }

  /** Splits a URL at its first `?` into the part before and the query after. */
  function SplitUrl(r: string): (string, string)
  {
    var i := Find(r, '?');
    if i < |r| then (r[..i], r[i + 1..]) else (r, "")
  }

  /** One `key=value` field read back, split at its first `=`. */
  function ParseField(f: string): (string, string)
  {
    var i := Find(f, '=');
    if i < |f| then (f[..i], f[i + 1..]) else (f, "")
  }

  /** A reference query-string reader: fields split at `&`, each at its first `=`. */
  function Parse(qs: string): seq<(string, string)>
    decreases |qs|
  {
    if qs == "" then []
    else
      var i := Find(qs, '&');
      [ParseField(qs[..i])] + (if i < |qs| then Parse(qs[i + 1..]) else [])
  }

  /** Entries that a reader can split unambiguously. */
  predicate Separable(entries: Pairs)
  {
    forall i :: 0 <= i < |entries| ==>
      '&' !in entries[i].0 && '=' !in entries[i].0 && '&' !in entries[i].1
  }

  lemma FindAfterPrefix(a: string, c: char, b: string)
    requires c !in a
    ensures Find(a + [c] + b, c) == |a|
  {
    var s := a + [c] + b;
    assert s[|a|] == c;
    assert forall j :: 0 <= j < |a| ==> s[j] == a[j];
  }

  lemma FindAbsent(s: string, c: char)
    requires c !in s
    ensures Find(s, c) == |s|
  {
  }

  lemma ParseOneField(entry: (Component, Component))
    requires '=' !in entry.0
    ensures ParseField(Field(entry)) == (entry.0, entry.1)
  {
    FindAfterPrefix(entry.0, '=', entry.1);
    var f := Field(entry);
    assert f == entry.0 + ['='] + entry.1;
    assert f[..|entry.0|] == entry.0;
    assert f[|entry.0| + 1..] == entry.1;
  }

  /** Round trip: reading the serialised query gives back its entries. */
  lemma {:induction false} ParseJoin(entries: Pairs)
    requires Separable(entries)
    ensures Parse(Join(entries)) == entries
  {
    if entries != [] {
      var e := entries[0];
      var f := Field(e);
      ParseOneField(e);
      assert '&' !in f;
      if |entries| == 1 {
        FindAbsent(f, '&');
        assert f[..|f|] == f;
      } else {
        var rest := Join(entries[1..]);
        assert Join(entries) == f + ['&'] + rest;
        FindAfterPrefix(f, '&', rest);
        assert (f + ['&'] + rest)[..|f|] == f;
        assert (f + ['&'] + rest)[|f| + 1..] == rest;
        assert Separable(entries[1..]) by {
          forall i | 0 <= i < |entries| - 1
            ensures '&' !in entries[1..][i].0 && '=' !in entries[1..][i].0 && '&' !in entries[1..][i].1
          {
            assert entries[1..][i] == entries[i + 1];
          }
        }
        ParseJoin(entries[1..]);
        assert Stringify(Some(entries[1..])) != "";
      }
    }
  }

  /** For a URL without `?`, splitting the result at its first `?` recovers
      the normalised URL and the serialised query. */
  lemma SplitAddQuery(url: string, query: Option<Pairs>)
    requires '?' !in url
    ensures SplitUrl(AddQuery(url, query)) == (Normalise(url), Stringify(query))
  {
    var u := Normalise(url);
    assert '?' !in u;
    var r := AddQuery(url, query);
    var qs := Stringify(query);
    if qs == "" {
      FindAbsent(u, '?');
    } else {
      assert r == u + ['?'] + qs;
      FindAfterPrefix(u, '?', qs);
      assert r[..|u|] == u;
      assert r[|u| + 1..] == qs;
    }
  }

  /** The tests' `_addQuery` cases with an empty or missing query. */
  lemma EmptyQueryExample(base: string)
    requires base == "http://test.co.jp"
    ensures AddQuery(base, Some([])) == base
    ensures AddQuery(base, None) == base
  {
    assert !ProtocolRelative(base);
  }

  /** The tests' `_addQuery('http://test.co.jp', {a: 1})`. */
  lemma OneFieldExample(base: string, entries: Pairs)
    requires base == "http://test.co.jp" && entries == [("a", "1")]
    ensures AddQuery(base, Some(entries)) == base + "?a=1"
  {
    assert !ProtocolRelative(base);
    assert Join(entries) == "a" + "=" + "1";
  }

  /** The tests' `_addQuery('//test.co.jp', {a: 1, b: 2})`. */
  lemma ProtocolRelativeExample(host: string, entries: Pairs)
    requires host == "//test.co.jp" && entries == [("a", "1"), ("b", "2")]
    ensures AddQuery(host, Some(entries)) == "http://test.co.jp?a=1&b=2"
  {
    assert ProtocolRelative(host);
    var a, b := "a" + "=" + "1", "b" + "=" + "2";
    assert Join(entries) == a + "&" + b by {
      assert Join(entries[1..]) == Field(entries[1]);
    }
  }
}
