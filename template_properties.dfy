/**
 * What the path-template substitution promises, stated over the regex
 * matches of the template and proved about the reference walk `Resolve`
 * (which `ReplaceParams` computes).
 */
module TemplateProperties {
  import opened Results
  import opened UriEncoding
  import opened PathTemplate

  /** The parameter names a list of matches refers to. */
  function NamesOf(ms: seq<Match>): set<string> {
    set k | 0 <= k < |ms| :: ms[k].name
  }

  /** Every placeholder has a truthy value and no name is used twice. */
  predicate Resolvable(ms: seq<Match>, m: map<string, string>) {
    && (forall k :: 0 <= k < |ms| ==> Truthy(m, ms[k].name))
    && (forall i, j :: 0 <= i < j < |ms| ==> ms[i].name != ms[j].name)
  }

  /** Placeholder `k` cannot be served: its key is missing or empty, or an
      earlier placeholder with the same name has already consumed it. */
  predicate Fails(ms: seq<Match>, m: map<string, string>, k: nat)
    requires k < |ms|
  {
    !Truthy(m, ms[k].name) || exists j :: 0 <= j < k && ms[j].name == ms[k].name
  }

  /** `k` is the left-most placeholder that cannot be served. */
  predicate FirstFailure(ms: seq<Match>, m: map<string, string>, k: nat) {
    k < |ms| && Fails(ms, m, k) && forall j :: 0 <= j < k ==> !Fails(ms, m, j)
  }

  lemma NamesOfCons(ms: seq<Match>)
    requires ms != []
    ensures NamesOf(ms) == {ms[0].name} + NamesOf(ms[1..])
  {
    forall x | x in NamesOf(ms) ensures x in {ms[0].name} + NamesOf(ms[1..]) {
      var k :| 0 <= k < |ms| && ms[k].name == x;
      if k > 0 {
        assert ms[1..][k - 1].name == x;
      }
    }
    forall x | x in NamesOf(ms[1..]) ensures x in NamesOf(ms) {
      var k :| 0 <= k < |ms[1..]| && ms[1..][k].name == x;
      assert ms[k + 1].name == x;
    }
  }

  /** Consuming the first placeholder's key shifts the success condition by one. */
  lemma ResolvableShift(ms: seq<Match>, m: map<string, string>)
    requires ms != [] && Truthy(m, ms[0].name)
    ensures Resolvable(ms, m) <==> Resolvable(ms[1..], m - {ms[0].name})
  {
    var n0 := ms[0].name;
    var tail := ms[1..];
    if Resolvable(tail, m - {n0}) {
      forall k | 0 <= k < |ms| ensures Truthy(m, ms[k].name) {
        if k > 0 {
          assert tail[k - 1] == ms[k];
        }
      }
      forall i, j | 0 <= i < j < |ms| ensures ms[i].name != ms[j].name {
        assert tail[j - 1] == ms[j];
        if i > 0 {
          assert tail[i - 1] == ms[i];
        } else {
          assert Truthy(m - {n0}, tail[j - 1].name);
        }
      }
    }
    if Resolvable(ms, m) {
      forall k | 0 <= k < |tail| ensures Truthy(m - {n0}, tail[k].name) {
        assert tail[k] == ms[k + 1];
        assert ms[0].name != ms[k + 1].name;
      }
      forall i, j | 0 <= i < j < |tail| ensures tail[i].name != tail[j].name {
        assert tail[i] == ms[i + 1] && tail[j] == ms[j + 1];
      }
    }
  }

  /** Consuming the first placeholder's key shifts the failure position by one. */
  lemma FailsShift(ms: seq<Match>, m: map<string, string>, k: nat)
    requires ms != [] && Truthy(m, ms[0].name) && k < |ms| - 1
    ensures Fails(ms, m, k + 1) <==> Fails(ms[1..], m - {ms[0].name}, k)
  {
    var n0 := ms[0].name;
    var tail := ms[1..];
    assert tail[k] == ms[k + 1];
    var x := ms[k + 1].name;
    if exists j :: 0 <= j < k + 1 && ms[j].name == x {
      var j :| 0 <= j < k + 1 && ms[j].name == x;
      if j > 0 {
        assert tail[j - 1].name == x;
      }
    }
    if exists j :: 0 <= j < k && tail[j].name == x {
      var j :| 0 <= j < k && tail[j].name == x;
      assert ms[j + 1].name == x;
    }
  }

  lemma FirstFailureShift(ms: seq<Match>, m: map<string, string>, k: nat)
    requires ms != [] && Truthy(m, ms[0].name)
    requires FirstFailure(ms[1..], m - {ms[0].name}, k)
    ensures FirstFailure(ms, m, k + 1)
  {
    FailsShift(ms, m, k);
    forall j | 0 <= j < k + 1 ensures !Fails(ms, m, j) {
      if j > 0 {
        FailsShift(ms, m, j - 1);
      }
    }
  }

  lemma RestShift(ms: seq<Match>, m: map<string, string>, k: nat)
    requires ms != [] && k <= |ms| - 1
    ensures (m - {ms[0].name}) - NamesOf(ms[1..][..k]) == m - NamesOf(ms[..k + 1])
  {
    NamesOfCons(ms[..k + 1]);
    assert ms[..k + 1][1..] == ms[1..][..k];
  }

  /** The reference walk from a scan position: it succeeds exactly when every
      remaining placeholder can be served; the map then loses exactly their
      names; otherwise it fails on the left-most placeholder that cannot be
      served, having consumed the keys of the placeholders before it. */
  lemma {:induction false} OutcomeAt(url: string, c: nat, m: map<string, string>)
    requires c <= |url|
    ensures var ms := MatchesFrom(url, c);
      var r := ResolveAt(url, c, m);
      && (r.url.Ok? <==> Resolvable(ms, m))
      && (r.url.Ok? ==> r.rest == m - NamesOf(ms))
      && (r.url.Err? ==> exists k: nat :: (FirstFailure(ms, m, k) &&
            r.url.error == MissingPathParameter(ms[k].name) && r.rest == m - NamesOf(ms[..k])))
    decreases |url| - c
  {
    var ms := MatchesFrom(url, c);
    MatchesFromHead(url, c);
    if ms == [] {
      SkipLiteral(url, c, |url|, m);
      assert NamesOf(ms) == {};
    } else {
      var found := ms[0];
      SkipLiteral(url, c, found.index, m);
      if !Truthy(m, found.name) {
        assert FirstFailure(ms, m, 0);
        assert NamesOf(ms[..0]) == {};
      } else {
        var m' := m - {found.name};
        OutcomeAt(url, found.End(), m');
        ResolvableShift(ms, m);
        var r' := ResolveAt(url, found.End(), m');
        if r'.url.Ok? {
          NamesOfCons(ms);
        } else {
          var k: nat :| FirstFailure(ms[1..], m', k) &&
            r'.url.error == MissingPathParameter(ms[1..][k].name) && r'.rest == m' - NamesOf(ms[1..][..k]);
          FirstFailureShift(ms, m, k);
          RestShift(ms, m, k);
        }
      }
    }
  }

  /** Success condition of `replaceParams`: it returns a url exactly when
      every placeholder of the template has a truthy value and no name
      repeats; the caller's map then loses exactly the placeholder names,
      and every other key keeps its value. */
  lemma SuccessCondition(url: string, m: map<string, string>)
    ensures Resolve(url, m).url.Ok? <==> Resolvable(Matches(url), m)
    ensures Resolve(url, m).url.Ok? ==> Resolve(url, m).rest == m - NamesOf(Matches(url))
  {
    OutcomeAt(url, 0, m);
  }

  /** Failure of `replaceParams`: the error names the left-most placeholder
      that cannot be served, no url is returned, and the keys of the
      placeholders before it are already gone from the caller's map. */
  lemma FailureCondition(url: string, m: map<string, string>)
    requires Resolve(url, m).url.Err?
    ensures exists k: nat :: (FirstFailure(Matches(url), m, k) &&
      Resolve(url, m).url.error == MissingPathParameter(Matches(url)[k].name) &&
      Resolve(url, m).rest == m - NamesOf(Matches(url)[..k]))
  {
    OutcomeAt(url, 0, m);
    var ms := MatchesFrom(url, 0);
    var r := ResolveAt(url, 0, m);
    var k: nat :| FirstFailure(ms, m, k) &&
      r.url.error == MissingPathParameter(ms[k].name) && r.rest == m - NamesOf(ms[..k]);
    assert FirstFailure(Matches(url), m, k);
  }

  /** A template naming one placeholder twice always fails: the first use
      deletes the key, so the second finds it missing. */
  lemma RepeatedPlaceholderFails(url: string, m: map<string, string>, i: nat, j: nat)
    requires i < j < |Matches(url)| && Matches(url)[i].name == Matches(url)[j].name
    ensures Resolve(url, m).url.Err?
  {
    SuccessCondition(url, m);
  }

  /** The walk's output keeps its first character from the template, and
      never holds `/:`. */
  lemma {:induction false} OutputHasNoPair(url: string, i: nat, m: map<string, string>)
    requires i <= |url|
    ensures var r := ResolveAt(url, i, m);
      r.url.Ok? ==> NoPair(r.url.value) && (r.url.value != [] ==> i < |url| && r.url.value[0] == url[i])
    decreases |url| - i
  {
    if i < |url| {
      if PairAt(url, i) {
        var j := NameEnd(url, i + 2);
        var name := url[i + 2 .. j];
        if Truthy(m, name) {
          OutputHasNoPair(url, j, m - {name});
          ReplacementShape(m[name]);
          var r' := ResolveAt(url, j, m - {name});
          if r'.url.Ok? {
            NoPairConcat("/" + EncodeComponent(m[name]), r'.url.value);
          }
        }
      } else {
        OutputHasNoPair(url, i + 1, m);
        var r' := ResolveAt(url, i + 1, m);
        if r'.url.Ok? {
          assert NoPair([url[i]]);
          NoPairConcat([url[i]], r'.url.value);
        }
      }
    }
  }

  /** A resolved url holds no placeholder any more: the encoded values hold
      neither `/` nor `:`, so no substitution can form a new `/:`. */
  lemma ResolvedHasNoPlaceholder(url: string, m: map<string, string>)
    requires Resolve(url, m).url.Ok?
    ensures NoPair(Resolve(url, m).url.value)
    ensures Matches(Resolve(url, m).url.value) == []
  {
    OutputHasNoPair(url, 0, m);
    NoPairNoMatches(Resolve(url, m).url.value, 0);
  }

  /** Without placeholders the url is returned as it is and the map is left
      whole: the remainder is never appended to the url. */
  lemma NoPlaceholderKeepsUrl(url: string, m: map<string, string>)
    requires Matches(url) == []
    ensures Resolve(url, m) == Resolution(Ok(url), m)
  {
    MatchesFromHead(url, 0);
    SkipLiteral(url, 0, |url|, m);
    assert url[0..|url|] + "" == url;
  }
  /** The template of the client example with any non-empty value: the
      value is escaped into the path and the params object is emptied. */
  lemma HelloTemplate(v: string)
    requires v != ""
    ensures Resolve("/hello/:name", map["name" := v]) ==
            Resolution(Ok("/hello/" + EncodeComponent(v)), map[])
  {
    var url := "/hello/:name";
    var m := map["name" := v];
    assert NoPairIn(url, 0, 6);
    SkipLiteral(url, 0, 6, m);
    assert PairAt(url, 6);
    assert NameEnd(url, 8) == 12 by {
      assert NameEnd(url, 12) == 12;
      assert NameEnd(url, 11) == 12;
      assert NameEnd(url, 10) == 12;
      assert NameEnd(url, 9) == 12;
    }
    assert url[8..12] == "name";
    assert m - {"name"} == map[];
    var e := EncodeComponent(v);
    assert ResolveAt(url, 12, map[]) == Resolution(Ok(""), map[]);
    assert ResolveAt(url, 6, m) == Resolution(Ok("/" + e + ""), map[]);
    assert url[0..6] == "/hello";
    assert "/hello" + ("/" + e + "") == "/hello/" + e;
  }

  /** The same template when the params object has no usable `name`: the
      call fails on `name` and the map is left as it was. */
  lemma HelloTemplateMissing(m: map<string, string>)
    requires !Truthy(m, "name")
    ensures Resolve("/hello/:name", m) == Resolution(Err(MissingPathParameter("name")), m)
  {
    var url := "/hello/:name";
    assert NoPairIn(url, 0, 6);
    SkipLiteral(url, 0, 6, m);
    assert PairAt(url, 6);
    assert NameEnd(url, 8) == 12 by {
      assert NameEnd(url, 12) == 12;
      assert NameEnd(url, 11) == 12;
      assert NameEnd(url, 10) == 12;
      assert NameEnd(url, 9) == 12;
    }
    assert url[8..12] == "name";
  }

  /** Three words of unreserved characters joined by spaces encode as the
      same words joined by `%20`. */
  lemma ThreeWords(w1: string, w2: string, w3: string)
    requires forall i :: 0 <= i < |w1| ==> IsUnreserved(w1[i])
    requires forall i :: 0 <= i < |w2| ==> IsUnreserved(w2[i])
    requires forall i :: 0 <= i < |w3| ==> IsUnreserved(w3[i])
    ensures EncodeComponent(w1 + " " + w2 + " " + w3) == w1 + "%20" + w2 + "%20" + w3
  {
    EncodeUnreserved(w1);
    EncodeUnreserved(w2);
    EncodeUnreserved(w3);
    SpaceJoin(w1, w2);
    SpaceJoin(w1 + " " + w2, w3);
  }

  /** The client example `post('/hello/:name', {}, { params: { name:
      'brave new World' } })`, for any three words of unreserved
      characters: the spaces travel as `%20`, so the request goes to
      `/hello/brave%20new%20World`, and the params object is left empty. */
  lemma HelloExample(w1: string, w2: string, w3: string)
    requires forall i :: 0 <= i < |w1| ==> IsUnreserved(w1[i])
    requires forall i :: 0 <= i < |w2| ==> IsUnreserved(w2[i])
    requires forall i :: 0 <= i < |w3| ==> IsUnreserved(w3[i])
    ensures Resolve("/hello/:name", map["name" := w1 + " " + w2 + " " + w3]) ==
            Resolution(Ok("/hello/" + w1 + "%20" + w2 + "%20" + w3), map[])
  {
    ThreeWords(w1, w2, w3);
    HelloTemplate(w1 + " " + w2 + " " + w3);
    assert "/hello/" + (w1 + "%20" + w2 + "%20" + w3) == "/hello/" + w1 + "%20" + w2 + "%20" + w3;
  }

  /** `/a/:x/:y` with only `x` given: the error names `y`, and `x` has
      already been deleted from the caller's map. */
  lemma MissingSecondExample()
    ensures Resolve("/a/:x/:y", map["x" := "1"]) ==
            Resolution(Err(MissingPathParameter("y")), map[])
  {
    var url := "/a/:x/:y";
    var m := map["x" := "1"];
    assert NoPairIn(url, 0, 2);
    SkipLiteral(url, 0, 2, m);
    assert PairAt(url, 2);
    assert NameEnd(url, 4) == 5 by {
      assert NameEnd(url, 5) == 5;
    }
    assert url[4..5] == "x";
    assert m - {"x"} == map[];
    assert PairAt(url, 5);
    assert NameEnd(url, 7) == 8 by {
      assert NameEnd(url, 8) == 8;
    }
    assert url[7..8] == "y";
  }

  /** A bare `/:` is a placeholder with the empty name, served by the key
      `""`. */
  lemma EmptyNameExample()
    ensures Resolve("/:", map["" := "v"]) == Resolution(Ok("/v"), map[])
  {
    var url := "/:";
    assert PairAt(url, 0);
    assert NameEnd(url, 2) == 2;
    assert url[2..2] == "";
    var m := map["" := "v"];
    assert Truthy(m, "");
    assert m - {""} == map[];
    EncodeUnreserved("v");
    assert ResolveAt(url, 2, map[]) == Resolution(Ok(""), map[]);
    assert "/" + "v" + "" == "/v";
  }
}
