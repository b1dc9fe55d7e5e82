/**
 * The query-string serialisation the client inlines in each wrapper:
 * the entries of `config.query`, in order, written `key=value` and joined
 * by `&`, appended to the url after a `?`. Nothing is percent-encoded.
 *
 * `Parse` is a plain split-based reading of such a string (split on `&`,
 * then at the first `=`, with no percent-decoding and no nesting); it is
 * the round-trip partner that shows what the serialisation preserves and
 * what it loses.
 */
module QueryString {

  /** `Object.entries(config.query)`: keys and values in entry order. */
  type Query = seq<(string, string)>

  /** `${key}=${value}` */
  function Entry(key: string, value: string): (s: string)
    ensures |s| == |key| + 1 + |value|
    ensures s[..|key|] == key && s[|key|] == '=' && s[|key| + 1..] == value
  {
    key + "=" + value
  }

  /** `.map(([key, value]) => `${key}=${value}`).join('&')` */
  function Serialize(q: Query): (s: string)
    ensures s == [] <==> q == []
  {
    if q == [] then ""
    else if |q| == 1 then Entry(q[0].0, q[0].1)
    else Entry(q[0].0, q[0].1) + "&" + Serialize(q[1..])
  }

  /** The url the wrapper builds when `config.query` is present, the
      empty query included. */
  function WithQuery(url: string, q: Query): (r: string)
    ensures |r| > |url| && r[..|url|] == url && r[|url|] == '?'
  {
    url + "?" + Serialize(q)
  }

  // ---------------------------------------------------------------------
  // The reading side

  /** Position of the first `c` in `s`. */
  function IndexOf(s: string, c: char): (i: nat)
    requires c in s
    ensures i < |s| && s[i] == c && c !in s[..i]
  {
    if s[0] == c then 0
    else
      assert c in s[1..] by {
        var k :| 0 <= k < |s| && s[k] == c;
        assert s[1..][k - 1] == c;
      }
      var j := IndexOf(s[1..], c);
      assert s[1..][..j] == s[1..j + 1];
      1 + j
  }

  /** The `&`-separated fields of `s`. */
  function Fields(s: string): (r: seq<string>)
    ensures |r| >= 1
    decreases |s|
  {
    if '&' in s then
      var i := IndexOf(s, '&');
      [s[..i]] + Fields(s[i + 1..])
    else [s]
  }

  /** One field split at its first `=`; a field without `=` has an empty value. */
  function Pair(f: string): (string, string) {
    if '=' in f then
      var i := IndexOf(f, '=');
      (f[..i], f[i + 1..])
    else (f, "")
  }

  /** Reading a query string back into entries; the empty string holds none. */
  function Parse(s: string): (q: Query)
    ensures s == [] <==> q == []
  {
    if s == [] then [] else PairsOf(Fields(s))
  }

  function PairsOf(fs: seq<string>): (q: Query)
    ensures |q| == |fs|
  {
    if fs == [] then [] else [Pair(fs[0])] + PairsOf(fs[1..])
  }

  /** Keys free of `&` and `=`, values free of `&`: the entries the
      unescaped serialisation can carry. */
  predicate Plain(q: Query) {
    forall i :: 0 <= i < |q| ==> '&' !in q[i].0 && '=' !in q[i].0 && '&' !in q[i].1
  }

  lemma FieldsOfPlain(s: string)
    requires '&' !in s
    ensures Fields(s) == [s]
  {
  }

  lemma FieldsCons(a: string, b: string)
    requires '&' !in a
    ensures Fields(a + "&" + b) == [a] + Fields(b)
  {
    var s := a + "&" + b;
    assert s[|a|] == '&';
    var i := IndexOf(s, '&');
    assert forall k :: 0 <= k < |a| ==> s[k] == a[k];
    assert i <= |a| by {
      assert forall k :: 0 <= k < i ==> s[..i][k] == s[k];
    }
    assert s[..i] == a && s[i + 1..] == b;
  }

  lemma PairOfEntry(key: string, value: string)
    requires '=' !in key
    ensures Pair(Entry(key, value)) == (key, value)
  {
    var e := Entry(key, value);
    var i := IndexOf(e, '=');
    assert forall k :: 0 <= k < |key| ==> e[k] == key[k];
    assert i <= |key| by {
      assert forall k :: 0 <= k < i ==> e[..i][k] == e[k];
    }
  }

  lemma EntryHasNoAmp(key: string, value: string)
    requires '&' !in key && '&' !in value
    ensures '&' !in Entry(key, value)
  {
    var e := Entry(key, value);
    forall k | 0 <= k < |e| ensures e[k] != '&' {
      if k < |key| {
        assert e[k] == key[k];
      } else if k > |key| {
        assert e[k] == value[k - |key| - 1];
      }
    }
  }

  lemma PlainTail(q: Query)
    requires q != [] && Plain(q)
    ensures Plain(q[1..])
  {
    forall i | 0 <= i < |q[1..]|
      ensures '&' !in q[1..][i].0 && '=' !in q[1..][i].0 && '&' !in q[1..][i].1
    {
      assert q[1..][i] == q[i + 1];
    }
  }

  lemma PairsOfCons(f: string, fs: seq<string>)
    ensures PairsOf([f] + fs) == [Pair(f)] + PairsOf(fs)
  {
    assert ([f] + fs)[1..] == fs;
  }

  lemma ParseSingle(key: string, value: string)
    requires '&' !in key && '=' !in key && '&' !in value
    ensures Parse(Entry(key, value)) == [(key, value)]
  {
    var e := Entry(key, value);
    EntryHasNoAmp(key, value);
    PairOfEntry(key, value);
    FieldsOfPlain(e);
    PairsOfCons(e, []);
  }

  lemma ParseCons(key: string, value: string, rest: string)
    requires '&' !in key && '=' !in key && '&' !in value && rest != []
    ensures Parse(Entry(key, value) + "&" + rest) == [(key, value)] + Parse(rest)
  {
    var e := Entry(key, value);
    EntryHasNoAmp(key, value);
    PairOfEntry(key, value);
    FieldsCons(e, rest);
    PairsOfCons(e, Fields(rest));
  }

  /** Read back, the serialised entries come out as they went in, in
      order, as long as no key holds `&` or `=` and no value holds `&`. */
  lemma {:induction false} ParseSerialize(q: Query)
    requires Plain(q)
    ensures Parse(Serialize(q)) == q
  {
    if q != [] {
      assert '&' !in q[0].0 && '=' !in q[0].0 && '&' !in q[0].1;
      if |q| == 1 {
        ParseSingle(q[0].0, q[0].1);
        assert q == [q[0]];
      } else {
        PlainTail(q);
        ParseSerialize(q[1..]);
        ParseCons(q[0].0, q[0].1, Serialize(q[1..]));
        assert q == [q[0]] + q[1..];
      }
    }
  }

  /** What the wrapper appends can be read back from behind the `?`. */
  lemma WithQueryRoundTrip(url: string, q: Query)
    requires Plain(q)
    ensures WithQuery(url, q)[..|url|] == url
    ensures Parse(WithQuery(url, q)[|url| + 1..]) == q
  {
    assert WithQuery(url, q)[|url| + 1..] == Serialize(q);
    ParseSerialize(q);
  }

  /** An empty query object still appends the `?`. */
  lemma EmptyQueryAppendsMark(url: string)
    ensures WithQuery(url, []) == url + "?"
  {
  }

  /** Without escaping, one entry whose value holds `&` and `=` is written
      exactly as two entries are. */
  lemma AmpersandIsAmbiguous(a: string, b: string, c: string, d: string)
    ensures Serialize([(a, b + "&" + c + "=" + d)]) == Serialize([(a, b), (c, d)])
  {
    assert [(a, b), (c, d)][1..] == [(c, d)];
  }
}
