/**
 * Path-template substitution (`replaceParams` in src/client.ts).
 *
 * The source scans the ORIGINAL url with the global regular expression
 * `/\/:([a-zA-Z-]*)/g` and, for each match in turn, checks that the
 * parameter is truthy, replaces the FIRST occurrence of the matched text in
 * the working url with `/` + encodeURIComponent(value), and deletes the key
 * from the caller's own map.  `ReplaceParams` is that loop; `Resolve` is an
 * independent, positional definition (each placeholder replaced where it
 * stands), and the loop is proved to compute it.
 */
module PathTemplate {
  import opened Results
  import opened UriEncoding

  /** The error `replaceParams` throws: `Missing path parameters: <name>`.
      `UrlUndefined` is the TypeError of scanning an undefined `config.url`. */
  datatype Error = MissingPathParameter(name: string) | UrlUndefined
  {
    function Message(): string {
      match this
      case MissingPathParameter(n) => "Missing path parameters: " + n
      case UrlUndefined => "Cannot read properties of undefined (reading 'matchAll')"
    }
  }

  // ---------------------------------------------------------------------
  // The regular expression /\/:([a-zA-Z-]*)/g

  /** The character class `[a-zA-Z-]`. */
  predicate IsNameChar(c: char) {
    ('a' <= c <= 'z') || ('A' <= c <= 'Z') || c == '-'
  }

  /** Where the greedy `[a-zA-Z-]*` starting at `i` stops. */
  function NameEnd(s: string, i: nat): (j: nat)
    requires i <= |s|
    ensures i <= j <= |s|
    ensures forall k :: i <= k < j ==> IsNameChar(s[k])
    ensures j == |s| || !IsNameChar(s[j])
    decreases |s| - i
  {
    if i < |s| && IsNameChar(s[i]) then NameEnd(s, i + 1) else i
  }

  /** `/:` starts at position `i`. */
  predicate PairAt(s: string, i: nat) {
    i + 1 < |s| && s[i] == '/' && s[i + 1] == ':'
  }

  /** No `/:` starts anywhere in `s`. */
  predicate NoPair(s: string) {
    forall i :: 0 <= i < |s| ==> !PairAt(s, i)
  }

  /** No `/:` starts in positions `lo .. hi - 1` of `s`. */
  predicate NoPairIn(s: string, lo: nat, hi: nat) {
    forall q :: lo <= q < hi ==> !PairAt(s, q)
  }

  /** One regex match: `match.index` and the capture group `match[1]`. */
  datatype Match = Match(index: nat, name: string)
  {
    /** `match[0]`, the whole matched text. */
    function Text(): string { "/:" + name }
    /** The position just past the match, where the scan resumes. */
    function End(): nat { index + 2 + |name| }
  }

  /** `m` is the greedy match of the regex at its own index in `s`. */
  predicate IsMatchAt(s: string, m: Match) {
    PairAt(s, m.index) && m.End() <= |s| && NameEnd(s, m.index + 2) == m.End() &&
    s[m.index + 2 .. m.End()] == m.name
  }

  /** `s.matchAll(/\/:([a-zA-Z-]*)/g)` from position `i`: the regex is tried
      at each position; after a match the scan resumes at its end. */
  function MatchesFrom(s: string, i: nat): seq<Match>
    requires i <= |s|
    decreases |s| - i
  {
    if i + 1 >= |s| then []
    else if PairAt(s, i) then
      var j := NameEnd(s, i + 2);
      [Match(i, s[i + 2 .. j])] + MatchesFrom(s, j)
    else MatchesFrom(s, i + 1)
  }

  function Matches(s: string): seq<Match> {
    MatchesFrom(s, 0)
  }

  /** Each of `ms` is a greedy match in `s` at or after position `i`. */
  predicate AllMatchesFrom(s: string, i: nat, ms: seq<Match>) {
    forall k :: 0 <= k < |ms| ==> i <= ms[k].index && IsMatchAt(s, ms[k])
  }

  /** Each match ends before the next one starts. */
  predicate InOrder(ms: seq<Match>) {
    forall k :: 0 < k < |ms| ==> ms[k - 1].End() <= ms[k].index
  }

  /** Every match the scan finds is a greedy match at its own index, at or
      after the start, and the matches come in order without overlapping. */
  lemma {:induction false} MatchesSound(s: string, i: nat)
    requires i <= |s|
    ensures AllMatchesFrom(s, i, MatchesFrom(s, i)) && InOrder(MatchesFrom(s, i))
    decreases |s| - i
  {
    if i + 1 < |s| {
      if PairAt(s, i) {
        var j := NameEnd(s, i + 2);
        var head := Match(i, s[i + 2 .. j]);
        MatchesSound(s, j);
        assert IsMatchAt(s, head);
        MatchesCons(s, i, head, MatchesFrom(s, j));
      } else {
        MatchesSound(s, i + 1);
      }
    }
  }

  /** A greedy match followed by the matches behind it is again sound. */
  lemma MatchesCons(s: string, i: nat, head: Match, rest: seq<Match>)
    requires i <= head.index && IsMatchAt(s, head)
    requires AllMatchesFrom(s, head.End(), rest) && InOrder(rest)
    ensures AllMatchesFrom(s, i, [head] + rest) && InOrder([head] + rest)
  {
    var ms := [head] + rest;
    forall k | 0 <= k < |ms| ensures i <= ms[k].index && IsMatchAt(s, ms[k]) {
      if k > 0 {
        assert ms[k] == rest[k - 1];
      }
    }
    forall k | 0 < k < |ms| ensures ms[k - 1].End() <= ms[k].index {
      assert ms[k] == rest[k - 1];
      if k > 1 {
        assert ms[k - 1] == rest[k - 2];
      }
    }
  }

  /** What the scan from `c` finds first: no `/:` before it, a greedy match
      at its index, and the rest of the scan resumes at its end. */
  lemma {:induction false} MatchesFromHead(s: string, c: nat)
    requires c <= |s|
    ensures var ms := MatchesFrom(s, c);
      (ms == [] ==> NoPairIn(s, c, |s|)) &&
      (ms != [] ==> c <= ms[0].index && NoPairIn(s, c, ms[0].index) && IsMatchAt(s, ms[0]) &&
                    ms[1..] == MatchesFrom(s, ms[0].End()))
    decreases |s| - c
  {
    if c + 1 >= |s| {
    } else if PairAt(s, c) {
    } else {
      MatchesFromHead(s, c + 1);
    }
  }

  /** A string without any `/:` holds no placeholder. */
  lemma {:induction false} NoPairNoMatches(s: string, c: nat)
    requires c <= |s| && NoPairIn(s, c, |s|)
    ensures MatchesFrom(s, c) == []
    decreases |s| - c
  {
    if c + 1 < |s| {
      NoPairNoMatches(s, c + 1);
    }
  }

  // ---------------------------------------------------------------------
  // String.prototype.replace with a string pattern

  /** `needle` occurs in `s` at position `q`. */
  predicate OccursAt(s: string, needle: string, q: nat) {
    q + |needle| <= |s| && s[q .. q + |needle|] == needle
  }

  /** `s.indexOf(needle, i)`: the first occurrence at or after `i`, or -1. */
  function IndexOfFrom(s: string, needle: string, i: nat): (r: int)
    requires i <= |s|
    ensures r == -1 || (i <= r && OccursAt(s, needle, r))
    ensures r == -1 ==> forall q :: i <= q ==> !OccursAt(s, needle, q)
    ensures r != -1 ==> forall q :: i <= q < r ==> !OccursAt(s, needle, q)
    decreases |s| - i
  {
    if i + |needle| > |s| then -1
    else if s[i .. i + |needle|] == needle then i
    else if i == |s| then -1
    else IndexOfFrom(s, needle, i + 1)
  }

  /** The `$` patterns of a replacement string (ECMA-262 GetSubstitution,
      string pattern, so no capture groups): `$$`, `$&`, `` $` `` and `$'`. */
  function Substitution(matched: string, str: string, position: nat, replacement: string): (r: string)
    requires position + |matched| <= |str|
    ensures (forall i :: 0 <= i < |replacement| ==> replacement[i] != '$') ==> r == replacement
  {
    if replacement == [] then []
    else if replacement[0] == '$' && |replacement| >= 2 then
      var next := replacement[1];
      if next == '$' then "$" + Substitution(matched, str, position, replacement[2..])
      else if next == '&' then matched + Substitution(matched, str, position, replacement[2..])
      else if next == '`' then str[..position] + Substitution(matched, str, position, replacement[2..])
      else if next == '\'' then str[position + |matched|..] + Substitution(matched, str, position, replacement[2..])
      else "$" + Substitution(matched, str, position, replacement[1..])
    else [replacement[0]] + Substitution(matched, str, position, replacement[1..])
  }

  /** `s.replace(pattern, replacement)`: only the first occurrence is replaced. */
  function ReplaceFirst(s: string, pattern: string, replacement: string): string
  {
    var p := IndexOfFrom(s, pattern, 0);
    if p < 0 then s
    else s[..p] + Substitution(pattern, s, p, replacement) + s[p + |pattern|..]
  }

  /** Without an occurrence the string is returned as it is; otherwise
      exactly the first occurrence is replaced, verbatim when the
      replacement holds no `$`. */
  lemma ReplaceFirstSpec(s: string, pattern: string, replacement: string, p: nat)
    ensures (forall q :: !OccursAt(s, pattern, q)) ==> ReplaceFirst(s, pattern, replacement) == s
    ensures OccursAt(s, pattern, p) && (forall q: nat :: q < p ==> !OccursAt(s, pattern, q)) &&
            (forall i :: 0 <= i < |replacement| ==> replacement[i] != '$') ==>
      ReplaceFirst(s, pattern, replacement) == s[..p] + replacement + s[p + |pattern|..]
  {
  }

  /** In the working url, the first occurrence of a match's text is the
      match itself: nothing before it can start with `/:`. */
  lemma FirstOccurrence(a: string, b: string, text: string)
    requires NoPair(a)
    requires |text| >= 2 && text[0] == '/' && text[1] == ':'
    requires |text| <= |b| && b[..|text|] == text
    ensures IndexOfFrom(a + b, text, 0) == |a|
  {
    var s := a + b;
    assert s[|a| .. |a| + |text|] == b[..|text|];
    assert OccursAt(s, text, |a|);
    forall q | 0 <= q < |a| ensures !OccursAt(s, text, q) {
      assert s[q] != '/' || s[q + 1] != ':' by {
        if q + 1 < |a| {
          assert !PairAt(a, q);
        } else {
          assert s[q + 1] == b[0] == '/';
        }
      }
      if q + |text| <= |s| {
        assert s[q .. q + |text|][0] == s[q] && s[q .. q + |text|][1] == s[q + 1];
      }
    }
  }

  // ---------------------------------------------------------------------
  // The reference definition

  /** `!params[name]` is false: the key is present with a non-empty value. */
  predicate Truthy(m: map<string, string>, name: string) {
    name in m && m[name] != ""
  }

  /** The url (or the error) and the caller's map as the substitution leaves it. */
  datatype Resolution = Resolution(url: Result<string, Error>, rest: map<string, string>)

  function Prepend(prefix: string, r: Resolution): Resolution {
    if r.url.Ok? then Resolution(Ok(prefix + r.url.value), r.rest) else r
  }

  /** Positional substitution from position `i`: literal characters are kept,
      each placeholder is replaced where it stands by `/` + the encoded
      value, its key consumed; the first placeholder without a truthy value
      in the map as it then is ends the walk with an error. */
  function ResolveAt(url: string, i: nat, m: map<string, string>): (r: Resolution)
    requires i <= |url|
    decreases |url| - i
  {
    if i == |url| then Resolution(Ok(""), m)
    else if PairAt(url, i) then
      var j := NameEnd(url, i + 2);
      var name := url[i + 2 .. j];
      if !Truthy(m, name) then Resolution(Err(MissingPathParameter(name)), m)
      else Prepend("/" + EncodeComponent(m[name]), ResolveAt(url, j, m - {name}))
    else Prepend([url[i]], ResolveAt(url, i + 1, m))
  }

  /** The reference result for the whole template. */
  function Resolve(url: string, m: map<string, string>): (r: Resolution)
  {
    ResolveAt(url, 0, m)
  }

  lemma PrependPrepend(a: string, b: string, r: Resolution)
    ensures Prepend(a, Prepend(b, r)) == Prepend(a + b, r)
  {
    if r.url.Ok? {
      assert a + (b + r.url.value) == (a + b) + r.url.value;
    }
  }

  /** A stretch without `/:` is copied through unchanged. */
  lemma {:induction false} SkipLiteral(url: string, c: nat, p: nat, m: map<string, string>)
    requires c <= p <= |url| && NoPairIn(url, c, p)
    ensures ResolveAt(url, c, m) == Prepend(url[c..p], ResolveAt(url, p, m))
    decreases p - c
  {
    if c == p {
      var r := ResolveAt(url, p, m);
      if r.url.Ok? {
        assert url[c..p] + r.url.value == r.url.value;
      }
    } else {
      SkipLiteral(url, c + 1, p, m);
      PrependPrepend([url[c]], url[c + 1..p], ResolveAt(url, p, m));
      assert [url[c]] + url[c + 1..p] == url[c..p];
    }
  }

  // ---------------------------------------------------------------------
  // The caller's parameter object and the substitution loop

  /** The caller-supplied `params` object, which `replaceParams` mutates. */
  class ParamMap {
    var entries: map<string, string>

    constructor (entries: map<string, string>)
      ensures this.entries == entries
    {
      this.entries := entries;
    }

    /** `delete params[key]`. */
    method Delete(key: string)
      modifies this
      ensures entries == old(entries) - {key}
    {
      entries := entries - {key};
    }
  }

  /** The replacement for one placeholder holds no `/:`, does not end in `/`
      and starts with `/`. */
  lemma ReplacementShape(value: string)
    requires value != ""
    ensures var rep := "/" + EncodeComponent(value);
      NoPair(rep) && rep[|rep| - 1] != '/' && rep[0] == '/' && |rep| >= 2 &&
      forall i :: 0 <= i < |rep| ==> rep[i] != '$'
  {
    var enc := EncodeComponent(value);
    var rep := "/" + enc;
    forall i | 0 <= i < |rep| ensures !PairAt(rep, i) && (i > 0 ==> rep[i] != '/' && rep[i] != ':' && rep[i] != '$') {
      if i > 0 {
        assert rep[i] == enc[i - 1] && IsEncodedChar(enc[i - 1]);
      }
      if i + 1 < |rep| {
        assert rep[i + 1] == enc[i] && IsEncodedChar(enc[i]);
      }
    }
  }

  /** Concatenation creates a `/:` only across the seam. */
  lemma NoPairConcat(a: string, b: string)
    requires NoPair(a) && NoPair(b)
    requires a == [] || b == [] || a[|a| - 1] != '/' || b[0] != ':'
    ensures NoPair(a + b)
  {
    var s := a + b;
    forall i | 0 <= i < |s| ensures !PairAt(s, i) {
      if PairAt(s, i) {
        if i + 1 < |a| {
          assert PairAt(a, i);
        } else if i >= |a| {
          assert PairAt(b, i - |a|);
        }
      }
    }
  }

  lemma NoPairSlice(s: string, c: nat, p: nat)
    requires c <= p <= |s| && NoPairIn(s, c, p)
    ensures NoPair(s[c..p])
  {
    var t := s[c..p];
    forall i | 0 <= i < |t| ensures !PairAt(t, i) {
      if PairAt(t, i) {
        assert PairAt(s, c + i);
      }
    }
  }

  /** `replace` with a replacement free of `$` splices it in at the first
      occurrence of the pattern. */
  lemma ReplaceAt(s: string, pattern: string, replacement: string, p: nat)
    requires IndexOfFrom(s, pattern, 0) == p
    requires forall i :: 0 <= i < |replacement| ==> replacement[i] != '$'
    ensures p + |pattern| <= |s|
    ensures ReplaceFirst(s, pattern, replacement) == s[..p] + replacement + s[p + |pattern|..]
  {
  }

  /** The working url splits at the match into the part already handled
      and the untouched rest of the original url. */
  lemma WorkingSplit(url: string, done: string, cursor: nat, found: Match)
    requires cursor <= found.index && IsMatchAt(url, found)
    ensures var prefix := done + url[cursor..found.index];
      && done + url[cursor..] == prefix + url[found.index..]
      && url[found.index..][..|found.Text()|] == found.Text()
      && (done + url[cursor..])[|prefix| + |found.Text()|..] == url[found.End()..]
  {
    var literal := url[cursor..found.index];
    var tail := url[found.index..];
    assert url[cursor..] == literal + tail;
    assert tail[..|found.Text()|] == url[found.index..found.End()];
    assert tail[|found.Text()|..] == url[found.End()..];
  }

  /** One iteration of the loop in `replaceParams`, on the working url:
      `replace` lands on the match itself, so the resolved prefix grows by
      the literal text before the match and the replacement. */
  lemma ReplaceStep(url: string, done: string, cursor: nat, found: Match, rep: string)
    requires cursor <= found.index && IsMatchAt(url, found) && NoPairIn(url, cursor, found.index)
    requires NoPair(done) && (done == [] || done[|done| - 1] != '/')
    requires forall i :: 0 <= i < |rep| ==> rep[i] != '$'
    ensures ReplaceFirst(done + url[cursor..], found.Text(), rep) ==
      done + url[cursor..found.index] + rep + url[found.End()..]
  {
    var prefix := done + url[cursor..found.index];
    var working := done + url[cursor..];
    WorkingSplit(url, done, cursor, found);
    assert NoPair(prefix) by {
      NoPairSlice(url, cursor, found.index);
      NoPairConcat(done, url[cursor..found.index]);
    }
    FirstOccurrence(prefix, url[found.index..], found.Text());
    ReplaceAt(working, found.Text(), rep, |prefix|);
    assert working[..|prefix|] == prefix;
  }

  /** The resolved prefix never holds `/:` nor ends in `/`, so the next
      match's text cannot be found inside it. */
  lemma DoneStep(url: string, done: string, cursor: nat, p: nat, rep: string)
    requires cursor <= p <= |url| && NoPairIn(url, cursor, p)
    requires NoPair(done) && (done == [] || done[|done| - 1] != '/')
    requires NoPair(rep) && |rep| > 0 && rep[0] == '/' && rep[|rep| - 1] != '/'
    ensures var done' := done + url[cursor..p] + rep;
      NoPair(done') && done'[|done'| - 1] != '/'
  {
    NoPairSlice(url, cursor, p);
    NoPairConcat(done, url[cursor..p]);
    NoPairConcat(done + url[cursor..p], rep);
    var done' := done + url[cursor..p] + rep;
    assert done'[|done'| - 1] == rep[|rep| - 1];
  }

  /** One iteration of the loop in `replaceParams`, on the reference walk:
      it advances past the match with the key consumed. */
  lemma ResolveStep(url: string, done: string, cursor: nat, m: map<string, string>, found: Match)
    requires cursor <= found.index && IsMatchAt(url, found) && NoPairIn(url, cursor, found.index)
    requires Truthy(m, found.name)
    ensures Prepend(done, ResolveAt(url, cursor, m)) ==
      Prepend(done + url[cursor..found.index] + ("/" + EncodeComponent(m[found.name])),
              ResolveAt(url, found.End(), m - {found.name}))
  {
    var rep := "/" + EncodeComponent(m[found.name]);
    var literal := url[cursor..found.index];
    SkipLiteral(url, cursor, found.index, m);
    var next := ResolveAt(url, found.End(), m - {found.name});
    assert ResolveAt(url, found.index, m) == Prepend(rep, next);
    PrependPrepend(literal, rep, next);
    PrependPrepend(done, literal + rep, next);
    assert done + literal + rep == done + (literal + rep);
  }

  /** The loop stops at a placeholder without a truthy value. */
  lemma MissingStep(url: string, done: string, cursor: nat, m: map<string, string>, found: Match)
    requires cursor <= |url| && MatchesFrom(url, cursor) != [] && found == MatchesFrom(url, cursor)[0]
    requires !Truthy(m, found.name)
    ensures Prepend(done, ResolveAt(url, cursor, m)) == Resolution(Err(MissingPathParameter(found.name)), m)
  {
    MatchesFromHead(url, cursor);
    SkipLiteral(url, cursor, found.index, m);
  }

  /** After the last match the rest of the url is copied. */
  lemma FinalStep(url: string, done: string, cursor: nat, m: map<string, string>)
    requires cursor <= |url| && MatchesFrom(url, cursor) == []
    ensures Prepend(done, ResolveAt(url, cursor, m)) == Resolution(Ok(done + url[cursor..]), m)
  {
    MatchesFromHead(url, cursor);
    SkipLiteral(url, cursor, |url|, m);
    assert url[cursor..|url|] + "" == url[cursor..];
  }

  /** One iteration of the loop in `replaceParams` for a truthy value, in
      terms of the loop's own state: the working url `done + url[cursor..]`,
      the caller's map `m` and the scan position `cursor`. */
  lemma LoopStep(url: string, done: string, cursor: nat, m: map<string, string>, found: Match)
    requires cursor <= |url| && MatchesFrom(url, cursor) != [] && found == MatchesFrom(url, cursor)[0]
    requires NoPair(done) && (done == [] || done[|done| - 1] != '/')
    requires Truthy(m, found.name)
    ensures cursor <= found.index && found.End() <= |url|
    ensures MatchesFrom(url, cursor)[1..] == MatchesFrom(url, found.End())
    ensures var rep := "/" + EncodeComponent(m[found.name]);
      var done' := done + url[cursor..found.index] + rep;
      && ReplaceFirst(done + url[cursor..], found.Text(), rep) == done' + url[found.End()..]
      && NoPair(done') && done'[|done'| - 1] != '/'
      && Prepend(done, ResolveAt(url, cursor, m)) == Prepend(done', ResolveAt(url, found.End(), m - {found.name}))
  {
    MatchesFromHead(url, cursor);
    var rep := "/" + EncodeComponent(m[found.name]);
    ReplacementShape(m[found.name]);
    ReplaceStep(url, done, cursor, found, rep);
    DoneStep(url, done, cursor, found.index, rep);
    ResolveStep(url, done, cursor, m, found);
  }

  /** `replaceParams(url, params)`: returns the resolved url (or throws) and
      the same map object, from which every consumed key has been deleted. */
  method ReplaceParams(url: string, params: ParamMap) returns (result: Result<string, Error>, newParams: ParamMap)
    modifies params
    ensures newParams == params
    ensures result == Resolve(url, old(params.entries)).url
    ensures params.entries == Resolve(url, old(params.entries)).rest
  {
    var newUrl := url;
    newParams := params;
    var matches := Matches(url);
    ghost var m0 := params.entries;
    ghost var done: string := "";
    ghost var cursor: nat := 0;
    assert Prepend(done, Resolve(url, m0)) == Resolve(url, m0) by {
      if Resolve(url, m0).url.Ok? {
        assert done + Resolve(url, m0).url.value == Resolve(url, m0).url.value;
      }
    }
    for k := 0 to |matches|
      invariant cursor <= |url|
      invariant matches[k..] == MatchesFrom(url, cursor)
      invariant newUrl == done + url[cursor..]
      invariant NoPair(done) && (done == [] || done[|done| - 1] != '/')
      invariant Resolve(url, m0) == Prepend(done, ResolveAt(url, cursor, newParams.entries))
      invariant newParams == params
    {
      var found := matches[k];
      if !(found.name in newParams.entries && newParams.entries[found.name] != "") {
        MissingStep(url, done, cursor, newParams.entries, found);
        return Err(MissingPathParameter(found.name)), newParams;
      }
      var replacement := "/" + EncodeComponent(newParams.entries[found.name]);
      LoopStep(url, done, cursor, newParams.entries, found);
      newUrl := ReplaceFirst(newUrl, found.Text(), replacement);
      done := done + url[cursor..found.index] + replacement;
      newParams.Delete(found.name);
      cursor := found.End();
    }
    FinalStep(url, done, cursor, newParams.entries);
    result := Ok(newUrl);
  }
}
