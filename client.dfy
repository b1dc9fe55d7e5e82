/**
 * The client side of typed-http: an axios instance whose ten request entry
 * points are replaced by interception wrappers.  Each wrapper substitutes
 * the path parameters of the url from `config.params` (leaving the unused
 * ones in that same object), appends `config.query` after a `?`, and then
 * calls the original axios function.  That function is not modelled; each
 * call to it is recorded as a `Delivery`.
 */
module TypedClient {
  import opened Results
  import opened UriEncoding
  import opened PathTemplate
  import opened QueryString
  import opened TemplateProperties

  /** The ten request entry points of an axios instance. */
  datatype Verb = Request | Get | Delete | Head | Post | PostForm | Put | PutForm | Patch | PatchForm

  /** How an entry point takes its arguments: `request(config)`,
      `get(url, config)` or `post(url, data, config)`. */
  datatype Signature = ConfigOnly | UrlConfig | UrlDataConfig

  /** The argument list each entry point declares in the typed interface. */
  function SignatureOf(v: Verb): Signature {
    match v
    case Request => ConfigOnly
    case Get | Delete | Head => UrlConfig
    case Post | PostForm | Put | PutForm | Patch | PatchForm => UrlDataConfig
  }

  /** A request body, forwarded without being looked at. */
  datatype Payload = Payload(id: nat)

  /** The request config object the caller passes and the wrappers mutate.
      `options` stands for every other field (headers, baseURL, ...). */
  class Config {
    var url: Option<string>
    var params: ParamMap?
    var query: Option<Query>
    var options: map<string, string>

    constructor (url: Option<string>, params: ParamMap?, query: Option<Query>, options: map<string, string>)
      ensures this.url == url && this.params == params && this.query == query && this.options == options
    {
      this.url := url;
      this.params := params;
      this.query := query;
      this.options := options;
    }
  }

  /** The contents of a config at one moment; `params` is the contents of
      the params object it refers to. */
  datatype ConfigView = ConfigView(url: Option<string>, params: Option<map<string, string>>,
                                   query: Option<Query>, options: map<string, string>)

  /** The params object a config refers to, if any. */
  function ParamsObject(c: Config?): set<object>
    reads c
  {
    if c != null && c.params != null then {c.params} else {}
  }

  /** The contents of an optional config (`None` for an undefined config). */
  function View(c: Config?): Option<ConfigView>
    reads c, ParamsObject(c)
  {
    if c == null then None
    else Some(ConfigView(c.url, if c.params == null then None else Some(c.params.entries), c.query, c.options))
  }

  function ParamsOf(v: Option<ConfigView>): Option<map<string, string>> {
    if v.Some? then v.value.params else None
  }

  function QueryOf(v: Option<ConfigView>): Option<Query> {
    if v.Some? then v.value.query else None
  }

  /** One call of an original axios function: which entry point, the url
      and data arguments (for the entry points that take them), which
      config object, and what that config held at the moment of the call. */
  datatype Delivery = Delivery(verb: Verb, url: Option<string>, data: Option<Payload>,
                               config: Config?, view: Option<ConfigView>)

  // ---------------------------------------------------------------------
  // What the wrappers compute

  /** The url a `(url, config)` or `(url, data, config)` wrapper passes on:
      path parameters substituted when `params` is present, then the query
      string appended when `query` is present. */
  function RewriteUrl(url: string, params: Option<map<string, string>>, query: Option<Query>): Result<string, Error> {
    var base := if params.None? then Ok(url) else Resolve(url, params.value).url;
    match base
    case Err(e) => Err(e)
    case Ok(u) => Ok(if query.Some? then WithQuery(u, query.value) else u)
  }

  /** What is left in the params object after the substitution ran (on
      failure too: the keys consumed before the throw stay deleted). */
  function Remainder(url: string, params: Option<map<string, string>>): Option<map<string, string>> {
    if params.None? then None else Some(Resolve(url, params.value).rest)
  }

  /** `${config.url}`: an undefined url prints as `undefined`. */
  function Stringify(url: Option<string>): string {
    if url.Some? then url.value else "undefined"
  }

  /** The `config.url` that `request(config)` passes on.  Substituting into
      an undefined url is the TypeError `UrlUndefined`; appending a query to
      it writes `undefined?...`. */
  function RewriteConfigUrl(v: ConfigView): Result<Option<string>, Error> {
    if v.params.Some? then
      if v.url.None? then Err(UrlUndefined)
      else
        match RewriteUrl(v.url.value, v.params, v.query)
        case Err(e) => Err(e)
        case Ok(u) => Ok(Some(u))
    else if v.query.Some? then Ok(Some(WithQuery(Stringify(v.url), v.query.value)))
    else Ok(v.url)
  }

  /** The params object after `request(config)`. */
  function ConfigRemainder(v: ConfigView): Option<map<string, string>> {
    if v.url.None? then v.params else Remainder(v.url.value, v.params)
  }

  function Replace(v: Option<ConfigView>, params: Option<map<string, string>>): Option<ConfigView> {
    if v.None? then None else Some(v.value.(params := params))
  }

  // ---------------------------------------------------------------------
  // Properties of the rewriting

  /** A wrapper fails exactly when a path parameter cannot be served. */
  lemma RewriteFailsOnlyOnParams(url: string, params: Option<map<string, string>>, query: Option<Query>)
    ensures RewriteUrl(url, params, query).Ok? <==>
            params.None? || Resolvable(Matches(url), params.value)
    ensures RewriteUrl(url, params, query).Err? ==>
            RewriteUrl(url, params, query).error == Resolve(url, params.value).url.error
  {
    if params.Some? {
      SuccessCondition(url, params.value);
    }
  }

  /** With neither `params` nor `query` the url goes through untouched and
      no params object is involved. */
  lemma UntouchedWithoutParamsOrQuery(url: string)
    ensures RewriteUrl(url, None, None) == Ok(url)
    ensures Remainder(url, None) == None
  {
  }

  /** The rewritten url, up to the `?`, holds no placeholder; behind the `?`
      the query entries can be read back. */
  lemma RewrittenUrlShape(url: string, m: map<string, string>, q: Query)
    requires Plain(q)
    requires RewriteUrl(url, Some(m), Some(q)).Ok?
    ensures var r := RewriteUrl(url, Some(m), Some(q)).value;
      exists cut :: 0 <= cut < |r| && r[cut] == '?' && Matches(r[..cut]) == [] && Parse(r[cut + 1..]) == q
  {
    var u := Resolve(url, m).url.value;
    ResolvedHasNoPlaceholder(url, m);
    WithQueryRoundTrip(u, q);
    var r := WithQuery(u, q);
    assert r[..|u|] == u;
  }

  /** `request(config)` rewrites `config.url` exactly as the url-taking
      entry points rewrite their url argument. */
  lemma ConfigFormAgrees(v: ConfigView)
    requires v.url.Some?
    ensures RewriteConfigUrl(v).Ok? <==> RewriteUrl(v.url.value, v.params, v.query).Ok?
    ensures RewriteConfigUrl(v).Ok? ==> RewriteConfigUrl(v).value == Some(RewriteUrl(v.url.value, v.params, v.query).value)
    ensures ConfigRemainder(v) == Remainder(v.url.value, v.params)
  {
  }

  /** `request(config)` with an undefined url: substitution throws, while a
      query alone is appended to the text `undefined`. */
  lemma UndefinedConfigUrl(params: Option<map<string, string>>, q: Query, options: map<string, string>)
    ensures params.Some? ==> RewriteConfigUrl(ConfigView(None, params, Some(q), options)) == Err(UrlUndefined)
    ensures params.None? ==> RewriteConfigUrl(ConfigView(None, params, Some(q), options)) == Ok(Some("undefined?" + Serialize(q)))
  {
    assert "undefined" + "?" + Serialize(q) == "undefined?" + Serialize(q);
  }

  // ---------------------------------------------------------------------
  // The intercepted axios instance

  /** The original axios functions behind the wrappers; the model keeps
      only the calls they receive, in order. */
  class Transport {
    var deliveries: seq<Delivery>

    constructor ()
      ensures deliveries == []
    {
      deliveries := [];
    }

    /** `originalFn(...)`. */
    method Deliver(d: Delivery)
      modifies this
      ensures deliveries == old(deliveries) + [d]
    {
      deliveries := deliveries + [d];
    }
  }

  /** What an entry point of an instance currently is: the original axios
      function, or the wrapper of the given shape around it. */
  datatype EntryPoint = Original | Wrapped(shape: Signature)

  class Client {
    var request: EntryPoint
    var get: EntryPoint
    var delete: EntryPoint
    var head: EntryPoint
    var post: EntryPoint
    var postForm: EntryPoint
    var put: EntryPoint
    var putForm: EntryPoint
    var patch: EntryPoint
    var patchForm: EntryPoint
    /** The original axios functions the wrappers call. */
    const transport: Transport

    function EntryOf(v: Verb): EntryPoint
      reads this
    {
      match v
      case Request => request
      case Get => get
      case Delete => delete
      case Head => head
      case Post => post
      case PostForm => postForm
      case Put => put
      case PutForm => putForm
      case Patch => patch
      case PatchForm => patchForm
    }

    /** Every entry point carries the wrapper matching its signature. */
    predicate Intercepted()
      reads this
    {
      forall v: Verb :: EntryOf(v) == Wrapped(SignatureOf(v))
    }

    /** `create(config)`: a fresh axios instance whose entry points are
        then overwritten with their wrappers. */
    constructor Create()
      ensures Intercepted() && fresh(transport) && transport.deliveries == []
    {
      request, get, delete, head := Original, Original, Original, Original;
      post, postForm, put, putForm, patch, patchForm := Original, Original, Original, Original, Original, Original;
      transport := new Transport();
      new;
      Install();
    }

    /** `modifiedAxios`, the default object: the same wrappers around the
        default axios functions. */
    constructor ModifiedAxios()
      ensures Intercepted() && fresh(transport) && transport.deliveries == []
    {
      request, get, delete, head := Original, Original, Original, Original;
      post, postForm, put, putForm, patch, patchForm := Original, Original, Original, Original, Original, Original;
      transport := new Transport();
      new;
      Install();
    }

    /** Overwrites the ten entry points one by one. */
    method Install()
      modifies this
      ensures Intercepted()
    {
      request := Wrapped(ConfigOnly);
      get := Wrapped(UrlConfig);
      delete := Wrapped(UrlConfig);
      head := Wrapped(UrlConfig);
      post := Wrapped(UrlDataConfig);
      postForm := Wrapped(UrlDataConfig);
      put := Wrapped(UrlDataConfig);
      putForm := Wrapped(UrlDataConfig);
      patch := Wrapped(UrlDataConfig);
      patchForm := Wrapped(UrlDataConfig);
      forall v: Verb ensures EntryOf(v) == Wrapped(SignatureOf(v)) {
        match v
        case Request =>
        case Get | Delete | Head =>
        case Post | PostForm | Put | PutForm | Patch | PatchForm =>
      }
    }

    /** `passParamsUrlConfig`: `get`, `delete` and `head`. */
    method PassParamsUrlConfig(verb: Verb, url: string, config: Config?) returns (outcome: Outcome<Error>)
      requires EntryOf(verb) == Wrapped(UrlConfig)
      modifies transport, config, ParamsObject(config)
      ensures config != null ==> config.params == old(config.params)
      ensures View(config) == Replace(old(View(config)), Remainder(url, ParamsOf(old(View(config)))))
      ensures var r := RewriteUrl(url, ParamsOf(old(View(config))), QueryOf(old(View(config))));
        && (r.Ok? ==> (outcome == Pass &&
              transport.deliveries == old(transport.deliveries) + [Delivery(verb, Some(r.value), None, config, View(config))]))
        && (r.Err? ==> outcome == Fail(r.error) && transport.deliveries == old(transport.deliveries))
    {
      outcome := Forward(verb, url, None, config);
    }

    /** `passParamsUrlDataConfig`: `post`, `put`, `patch` and their form
        variants; `data` is forwarded unchanged. */
    method PassParamsUrlDataConfig(verb: Verb, url: string, data: Option<Payload>, config: Config?)
      returns (outcome: Outcome<Error>)
      requires EntryOf(verb) == Wrapped(UrlDataConfig)
      modifies transport, config, ParamsObject(config)
      ensures config != null ==> config.params == old(config.params)
      ensures View(config) == Replace(old(View(config)), Remainder(url, ParamsOf(old(View(config)))))
      ensures var r := RewriteUrl(url, ParamsOf(old(View(config))), QueryOf(old(View(config))));
        && (r.Ok? ==> (outcome == Pass &&
              transport.deliveries == old(transport.deliveries) + [Delivery(verb, Some(r.value), data, config, View(config))]))
        && (r.Err? ==> outcome == Fail(r.error) && transport.deliveries == old(transport.deliveries))
    {
      outcome := Forward(verb, url, data, config);
    }

    /** The body the two url-taking wrappers share. */
    method Forward(verb: Verb, url: string, data: Option<Payload>, config: Config?) returns (outcome: Outcome<Error>)
      modifies transport, config, ParamsObject(config)
      ensures config != null ==> config.params == old(config.params)
      ensures View(config) == Replace(old(View(config)), Remainder(url, ParamsOf(old(View(config)))))
      ensures var r := RewriteUrl(url, ParamsOf(old(View(config))), QueryOf(old(View(config))));
        && (r.Ok? ==> (outcome == Pass &&
              transport.deliveries == old(transport.deliveries) + [Delivery(verb, Some(r.value), data, config, View(config))]))
        && (r.Err? ==> outcome == Fail(r.error) && transport.deliveries == old(transport.deliveries))
    {
      var replacedUrl := url;
      if config != null && config.params != null {
        var result, newParams := ReplaceParams(url, config.params);
        if result.Err? {
          outcome := Fail(result.error);
          return;
        }
        replacedUrl := result.value;
        config.params := newParams;
      }
      if config != null && config.query.Some? {
        replacedUrl := WithQuery(replacedUrl, config.query.value);
      }
      transport.Deliver(Delivery(verb, Some(replacedUrl), data, config, View(config)));
      outcome := Pass;
    }

    /** `passParamsConfig`: `request(config)`, which rewrites `config.url`
        in place and forwards the same config object. */
    method PassParamsConfig(config: Config?) returns (outcome: Outcome<Error>)
      requires request == Wrapped(ConfigOnly)
      modifies transport, config, ParamsObject(config)
      ensures config != null ==> config.params == old(config.params)
      ensures config == null ==> outcome == Pass && transport.deliveries == old(transport.deliveries) + [Delivery(Request, None, None, null, None)]
      ensures config != null ==>
        var v := old(View(config)).value;
        var r := RewriteConfigUrl(v);
        && (r.Ok? ==> (outcome == Pass &&
              View(config) == Some(v.(url := r.value, params := ConfigRemainder(v))) &&
              transport.deliveries == old(transport.deliveries) + [Delivery(Request, None, None, config, View(config))]))
        && (r.Err? ==> (outcome == Fail(r.error) &&
              View(config) == Some(v.(params := ConfigRemainder(v))) &&
              transport.deliveries == old(transport.deliveries)))
    {
      if config != null && config.params != null {
        if config.url.None? {
          outcome := Fail(UrlUndefined);
          return;
        }
        var result, newParams := ReplaceParams(config.url.value, config.params);
        if result.Err? {
          outcome := Fail(result.error);
          return;
        }
        config.url := Some(result.value);
        config.params := newParams;
      }
      if config != null && config.query.Some? {
        config.url := Some(WithQuery(Stringify(config.url), config.query.value));
      }
      transport.Deliver(Delivery(Request, None, None, config, View(config)));
      outcome := Pass;
    }
  }

  // ---------------------------------------------------------------------
  // Scenarios

  /** The example client's `post('/hello/:name', {}, { params: { name: v } })`
      on a fresh instance: axios receives `/hello/` + the escaped value and
      the body unchanged, and the params object it sees is empty. */
  method ExamplePost(v: string) returns (delivered: Delivery)
    requires v != ""
    ensures delivered.verb == Post && delivered.url == Some("/hello/" + EncodeComponent(v))
    ensures delivered.data == Some(Payload(0))
    ensures delivered.view.Some? && delivered.view.value.params == Some(map[]) && delivered.view.value.query == None
  {
    var client := new Client.Create();
    var params := new ParamMap(map["name" := v]);
    var config := new Config(None, params, None, map[]);
    HelloTemplate(v);
    var outcome := client.PassParamsUrlDataConfig(Post, "/hello/:name", Some(Payload(0)), config);
    delivered := client.transport.deliveries[0];
  }

  /** Passing the same config object twice: the first call deletes `name`
      from the caller's params object, so the second call throws. */
  method ReusedConfigFails(v: string) returns (first: Outcome<Error>, second: Outcome<Error>)
    requires v != ""
    ensures first == Pass && second == Fail(MissingPathParameter("name"))
  {
    var client := new Client.Create();
    var params := new ParamMap(map["name" := v]);
    var config := new Config(None, params, None, map[]);
    HelloTemplate(v);
    first := client.PassParamsUrlDataConfig(Post, "/hello/:name", None, config);
    HelloTemplateMissing(map[]);
    second := client.PassParamsUrlDataConfig(Post, "/hello/:name", None, config);
  }
}
