# typed-http, modelled in Dafny

typed-http puts type-checked routes on both ends of an HTTP API. Most of it
exists only at the type level. The two parts that run are modelled here.

- **The client** (`src/client.ts`) is an axios object whose ten entry
  points (`request`, `get`, `delete`, `head`, `post`, `postForm`, `put`,
  `putForm`, `patch`, `patchForm`) are wrapped.
  - Before the call reaches axios, the wrapper substitutes `/:name` path
    placeholders from `config.params`. Each value is escaped with
    `encodeURIComponent`, and each consumed key is deleted from the caller's
    object.
  - If `config.query` is present, the wrapper then appends `?k=v&k=v`
    without escaping.
  - A placeholder with no usable value throws `Missing path parameters: <name>`.
- **The server** (`src/server.ts`) wraps an Express app.
  - `route(path, method, handler, middlewares)` and its seven verb
    shortcuts flatten the middleware arguments one level into a fresh
    handler chain.
  - The business handler is appended last, and one registration
    `app[method](path, chain)` is made.

## Files

| file | module | contents |
|---|---|---|
| `results.dfy` | `Results` | `Option`, `Result` and `Outcome` (pass, or the error thrown) |
| `uri_encoding.dfy` | `UriEncoding` | `encodeURIComponent` over all Unicode scalar values, with UTF-8 `%XX` escapes. A decoder serves as its round-trip partner. |
| `path_template.dfy` | `PathTemplate` | The placeholder scan of `/\/:([a-zA-Z-]*)/g`, `String.prototype.replace` with a string pattern, and the params object as a class. `ReplaceParams` is the loop itself. `Resolve` is a positional reference definition, and the loop is proved equal to it. |
| `template_properties.dfy` | `TemplateProperties` | When substitution succeeds or fails, what is left in the params object, and concrete templates |
| `query_string.dfy` | `QueryString` | The inline query serialisation, with a parser as its round-trip partner |
| `client.dfy` | `TypedClient` | The config object, the axios transport as a log of delegate calls, the three wrappers and the installing constructors |
| `server.dfy` | `TypedServer` | Middleware flattening, the registration log of the app, `route` and the seven shortcuts |

The modelling choices are these.
- Strings are `seq<char>`, and a `char` is a Unicode scalar value.
- The params object is a `ParamMap` whose `entries` map is changed in place.
  `config.params` holds a reference to that object.
- A `throw` becomes `Outcome.Fail(error)` for a wrapper and `Result.Err` for
  `ReplaceParams`.
- A wrapper's call into axios is appended to `Transport.deliveries` as a
  `Delivery` record. The record holds the verb, the url passed, the data,
  the config object and the contents of that object at the time of the call.
- On the server, handlers are opaque ids.
- A middleware argument is either a single handler or a Dafny `array` of
  handlers. The app is a log of `Registration(path, verb, chain)`.

Two behaviours of the code may not match what one expects, and the model
follows the code.
- A `query` object that is present but empty still appends `?` (see
  `QueryString.EmptyQueryAppendsMark`).
- The parameters left over after substitution are not added to the query
  string. They are stored back into `config.params` and handed to axios
  untouched.

## Model

| member | source | states |
|---|---|---|
| UriEncoding.Utf8 | src/client.ts:135 | A code point is encoded as one to four octets, each below 256 |
| UriEncoding.EncodeChar | src/client.ts:135 | One input character becomes a non-empty run of unreserved marks and `%XX` escapes |
| UriEncoding.EncodeComponent | src/client.ts:135 | Every output character of `encodeURIComponent` is unreserved or `%`, so no `/`, `:` or `$` appears. The output is empty exactly when the input is, and it is never shorter. |
| UriEncoding.EncodeRoundTrip | src/client.ts:135 | Decoding the encoding of any string gives the string back, so no two values are encoded alike |
| UriEncoding.EncodeConcat | src/client.ts:135 | Encoding works character by character: the encoding of a concatenation is the concatenation of the encodings |
| UriEncoding.EncodeUnreserved | src/client.ts:135 | Text made only of unreserved characters is left unchanged |
| UriEncoding.SpaceJoin | src/client.ts:135 | A space is written `%20` between the encodings of its neighbours |
| PathTemplate.NameEnd | src/client.ts:120 | The greedy `[a-zA-Z-]*` name ends at the first character outside that class, or at the end of the text |
| PathTemplate.MatchesFromHead | src/client.ts:120 | The first match from a position is at the first `/:` pair, with the greedy name behind it. The scan then resumes after the match, and no match starts before it. |
| PathTemplate.MatchesFrom | src/client.ts:120 | The `g`-flagged scan from a position: the regex is tried at each position, and after a match the scan resumes at its end (no contract of its own; see `MatchesSound` and `MatchesFromHead`) |
| PathTemplate.Matches | src/client.ts:128 | `url.matchAll(...)`: the scan over the whole url (no contract of its own; see `MatchesSound`) |
| PathTemplate.MatchesSound | src/client.ts:120 | Every match the scan finds is a greedy `/:[a-zA-Z-]*` match at its own index, at or after the start. Successive matches come in order and do not overlap. |
| PathTemplate.ReplaceFirst | src/client.ts:133-136 | `String.prototype.replace` with a string pattern (no contract of its own; see `ReplaceFirstSpec`) |
| PathTemplate.ReplaceFirstSpec | src/client.ts:133-136 | Without an occurrence the string is returned unchanged. Otherwise exactly the first occurrence is replaced, verbatim when the replacement has no `$`. |
| PathTemplate.Truthy | src/client.ts:130 | `!params[name]` is false exactly when the key is present with a non-empty string value (no contract of its own; used by the lemmas below) |
| PathTemplate.ResolveAt | src/client.ts:128-138 | Reference definition: a left-to-right walk that copies literal characters, replaces each placeholder where it stands and consumes its key, and stops at the first placeholder without a truthy value. Its meaning is given by `TemplateProperties.SuccessCondition` and `FailureCondition` (no contract of its own). |
| PathTemplate.Resolve | src/client.ts:122-141 | Reference definition for the whole url, which `PathTemplate.ReplaceParams` is proved equal to (no contract of its own) |
| PathTemplate.NoPairNoMatches | src/client.ts:120 | Text without a `/:` pair has no placeholder match |
| PathTemplate.IndexOfFrom | src/client.ts:133-136 | The result is the first occurrence at or after the start position, or -1 exactly when there is none |
| PathTemplate.Substitution | src/client.ts:133-136 | A replacement string without `$` is inserted verbatim |
| PathTemplate.FirstOccurrence | src/client.ts:133-136 | In the working url, the first occurrence of a match's text is the match's own position, because the rewritten part before it holds no `/:` |
| PathTemplate.ReplacementShape | src/client.ts:135 | `/` + the encoded value starts with `/`, does not end with `/`, has no `$` and contains no `/:` pair |
| PathTemplate.SkipLiteral | src/client.ts:128-138 | A stretch of the template without placeholders is copied through unchanged |
| PathTemplate.ParamMap.Delete | src/client.ts:137 | `delete params[name]` removes exactly that key and keeps the others |
| PathTemplate.LoopStep | src/client.ts:129-137 | One iteration replaces the match where it stands, keeps the rewritten prefix free of `/:`, and deletes the key. Afterwards the reference result is unchanged. |
| PathTemplate.ReplaceParams | src/client.ts:122-141 | The loop returns the very object it was given. On success and on failure, its url and the keys left in the caller's object are those of the reference `Resolve`. |
| TemplateProperties.OutcomeAt | src/client.ts:129-137 | From any match onward, success means every later placeholder is truthy and none repeats. Failure names the first one that is not, with the keys consumed before it deleted. |
| TemplateProperties.SuccessCondition | src/client.ts:129-140 | Substitution succeeds iff every placeholder has a non-empty value and no name repeats. On success, exactly the placeholder names are removed and every other key keeps its value. |
| TemplateProperties.FailureCondition | src/client.ts:129-132 | On failure the error names the left-most placeholder that cannot be served. The keys of the placeholders before it are already deleted, and the rest is untouched. |
| TemplateProperties.RepeatedPlaceholderFails | src/client.ts:129-137 | A template naming the same placeholder twice always fails |
| TemplateProperties.OutputHasNoPair | src/client.ts:133-136 | The substituted url contains no `/:` pair |
| TemplateProperties.ResolvedHasNoPlaceholder | src/client.ts:120-140 | A successful result has no placeholder match left |
| TemplateProperties.NoPlaceholderKeepsUrl | src/client.ts:126-140 | A url without placeholders is returned as it is, and the object is left whole |
| TemplateProperties.HelloTemplate | src/client.ts:128-136 | `/hello/:name` with a non-empty `name` becomes `/hello/` + the encoded value, and `name` is consumed |
| TemplateProperties.HelloTemplateMissing | src/client.ts:130-132 | `/hello/:name` without a truthy `name` throws for `name`, and nothing is deleted |
| TemplateProperties.ThreeWords | src/example/client.ts:18 | Three unreserved words joined by spaces encode to the words joined by `%20` |
| TemplateProperties.HelloExample | src/example/client.ts:18 | The example client's `/hello/:name` with `name` = three words separated by spaces becomes `/hello/w1%20w2%20w3`, and the object ends up empty |
| TemplateProperties.MissingSecondExample | src/client.ts:129-137 | With only the first of two placeholders given, the call throws for the second, and the first key is already deleted |
| TemplateProperties.EmptyNameExample | src/client.ts:120 | A bare `/:` is a placeholder with the empty name, served by the key `""` |
| QueryString.Entry | src/client.ts:153 | An entry is written as the key, `=`, then the value, without escaping |
| QueryString.Serialize | src/client.ts:152-154 | The entries are joined by `&`, and the result is empty exactly when there are no entries |
| QueryString.WithQuery | src/client.ts:151-155 | The url is kept as a prefix, followed by `?` |
| QueryString.ParseSerialize | src/client.ts:152-154 | Entries whose keys hold no `&` or `=`, and whose values hold no `&`, are read back exactly, in order |
| QueryString.WithQueryRoundTrip | src/client.ts:151-155 | Behind the appended `?`, the url's query reads back as the entries given |
| QueryString.EmptyQueryAppendsMark | src/client.ts:151-152 | An empty query object still appends a bare `?` |
| QueryString.AmpersandIsAmbiguous | src/client.ts:153 | Without escaping, a value holding `&` and `=` serialises exactly like two entries |
| TypedClient.SignatureOf | src/client.ts:36-92 | `request` takes a config, `get`/`delete`/`head` take a url and a config, and the other six take a url, data and a config |
| TypedClient.RewriteUrl | src/client.ts:145-155 | The url a url-taking wrapper passes on: substituted when `params` is present, then `?` and the query appended when `query` is present; the substitution's error otherwise (no contract of its own; see `RewriteFailsOnlyOnParams` and `RewrittenUrlShape`) |
| TypedClient.Remainder | src/client.ts:147-149 | What the params object holds after the call: the reference remainder when `params` is present, none otherwise (no contract of its own) |
| TypedClient.Stringify | src/client.ts:186 | `${config.url}` prints an undefined url as `undefined` (no contract of its own) |
| TypedClient.RewriteConfigUrl | src/client.ts:181-189 | The `config.url` that `request(config)` leaves: a TypeError for params with an undefined url, else as `RewriteUrl` (no contract of its own; see `ConfigFormAgrees` and `UndefinedConfigUrl`) |
| TypedClient.ConfigRemainder | src/client.ts:181-183 | The params object after `request(config)`; untouched when the url is undefined, because the call throws before any key is deleted (no contract of its own) |
| TypedClient.RewriteFailsOnlyOnParams | src/client.ts:143-159 | A wrapper fails iff `params` is given and cannot serve the template. The error is the substitution's error. A query never causes a failure. |
| TypedClient.UntouchedWithoutParamsOrQuery | src/client.ts:143-159 | With neither `params` nor `query`, the url passes through unchanged and no params object is involved |
| TypedClient.RewrittenUrlShape | src/client.ts:161-177 | The url passed on has no placeholder before its `?`, and its query parses back to the entries given |
| TypedClient.ConfigFormAgrees | src/client.ts:179-193 | `request(config)` rewrites `config.url` exactly as the url-taking wrappers rewrite their url argument |
| TypedClient.UndefinedConfigUrl | src/client.ts:181-188 | With `config.url` undefined, `params` causes a TypeError, while a query alone produces `undefined?…` |
| TypedClient.Transport.Deliver | src/client.ts:157 | A delegate call is recorded once, after all earlier ones |
| TypedClient.Client.Install | src/client.ts:199-208 | All ten entry points now hold the wrapper that matches their signature |
| TypedClient.Client.Create | src/client.ts:197-210 | A new instance is fully intercepted and has made no call yet |
| TypedClient.Client.ModifiedAxios | src/client.ts:211-220 | The default object is fully intercepted, in the same way as an instance from `create` |
| TypedClient.Client.Forward | src/client.ts:145-157 | The shared wrapper body. The params object stays the same reference and holds what substitution leaves. On success exactly one call reaches axios, with the rewritten url. On failure the error is returned and axios is not called. |
| TypedClient.Client.PassParamsUrlConfig | src/client.ts:143-159 | `get`/`delete`/`head` behave as `Forward` with no data |
| TypedClient.Client.PassParamsUrlDataConfig | src/client.ts:161-177 | `post`/`put`/`patch` and their form variants behave as `Forward`, passing `data` on unchanged |
| TypedClient.Client.PassParamsConfig | src/client.ts:179-193 | `config.url` is rewritten in place and the same config object is passed on. On failure axios is not called, and the consumed keys stay deleted. |
| TypedClient.ExamplePost | src/example/client.ts:18 | The example `post` reaches axios with `/hello/` + the encoded name and the body unchanged. The params object it sees is empty. |
| TypedClient.ReusedConfigFails | src/client.ts:127-137 | Reusing one config object fails the second time, because the first call deleted `name` from it |
| TypedServer.Snapshot | src/server.ts:48 | One entry per middleware argument |
| TypedServer.SnapshotAt | src/server.ts:51-52 | The entry for an argument is that argument's current contents |
| TypedServer.Items | src/server.ts:52 | The handlers one argument contributes: an array spread, a single handler as it is (no contract of its own) |
| TypedServer.Flatten | src/server.ts:50-53 | The middleware arguments flattened one level, in order (no contract of its own; see `FlattenLength`, `FlattenOrder`, `FlattenAppend`) |
| TypedServer.TotalWidth | src/server.ts:50-53 | The number of handlers the arguments contribute: an array its length, a single handler one (no contract of its own) |
| TypedServer.Chain | src/server.ts:50-54 | The registered chain: the flattened middleware followed by the business handler (no contract of its own; see `ChainShape`) |
| TypedServer.TotalWidthAppend | src/server.ts:50-53 | The handler counts of consecutive argument lists add up |
| TypedServer.FlattenAppend | src/server.ts:50-53 | Flattening concatenated argument lists concatenates their flattenings |
| TypedServer.FlattenLength | src/server.ts:50-53 | The flattened middleware has one entry per single handler and one per array element |
| TypedServer.FlattenOrder | src/server.ts:50-53 | The handlers of each argument appear in their own order, right after those of the arguments before it |
| TypedServer.ChainShape | src/server.ts:50-54 | The business handler is last, with the flattened middleware before it. The length is the total width + 1, and with no middleware the chain is exactly `[handler]`. |
| TypedServer.App.Register | src/server.ts:56-57 | `app[method](path, handlers)` appends exactly one registration |
| TypedServer.Router.constructor | src/server.ts:37 | The router is bound to the app it was given |
| TypedServer.Router.Route | src/server.ts:38-58 | Exactly one registration is made, with the given path and method and the chain built from the middleware as it was at the call. The caller's arrays are unchanged. |
| TypedServer.Router.Get | src/server.ts:67-73 | Registers with method `get`, passing the path, handler and middleware through |
| TypedServer.Router.Post | src/server.ts:75-84 | Registers with method `post`, passing the path, handler and middleware through |
| TypedServer.Router.Put | src/server.ts:86-92 | Registers with method `put`, passing the path, handler and middleware through |
| TypedServer.Router.Delete | src/server.ts:94-103 | Registers with method `delete`, passing the path, handler and middleware through |
| TypedServer.Router.Patch | src/server.ts:105-114 | Registers with method `patch`, passing the path, handler and middleware through |
| TypedServer.Router.Options | src/server.ts:116-125 | Registers with method `options`, passing the path, handler and middleware through |
| TypedServer.Router.Head | src/server.ts:127-136 | Registers with method `head`, passing the path, handler and middleware through |
| TypedServer.ExampleServer | src/example/server.ts:13-29 | The example server's three routes register chains that hold only their handler |
| TypedServer.MiddlewareExample | src/server.ts:50-54 | A single middleware followed by an array of two spreads into three handlers, and the business handler comes last |

## Left out

- The axios transport: the promises, responses and network I/O behind each delegate. A delegate call is recorded, not performed.
- Axios's own serialisation of the parameters left in `config.params` happens inside axios and is not part of this model.
- `axios.create(config)`'s defaults, such as `baseURL`, belong to axios. `TypedClient.Client.Create` takes no config.
- The type-level declarations (`src/client.ts:11-118`, `src/server.ts:12-26`, all of `src/base.ts`) have no run-time behaviour.
- Express dispatch: `router(req, res, next)` and the rebinding of `use` and `route` (`src/server.ts:60-65`). The app is only a registration log. `route` itself is `TypedServer.Router.Route`.
- The example programs' network calls, `app.listen` and console output are left out. Only their route table and the one client call are kept.
- TypedClient.Config: `query` is a value (`Option<Query>`) read when the call starts, not an object. In the source `Object.entries(config.query)` runs after `replaceParams` has deleted keys from `config.params`, so a caller passing one object as both `params` and `query` loses the consumed keys from the query string too (`get('/hello/:name', {params: o, query: o})` with `o = {name: 'v'}` sends `/hello/v?`). That aliasing between `params` and `query` is not modelled.
- Values in `params` and `query` are strings. JavaScript's conversion of non-string values to text, and keys inherited through the prototype, are not modelled.
- `Object.entries` lists integer-like keys first. The query is modelled as an ordered sequence of pairs, in the order they are given.
- `encodeURIComponent` throws `URIError` on a lone surrogate. Dafny's `char` is a Unicode scalar value, so no such input can be written.
- `handlers.push(...m)` with an array too large for an argument list throws `RangeError` in JavaScript. That limit is not modelled.
- A thrown error's message text is kept as the error value `MissingPathParameter(name)`, with its `Message()`. The JavaScript `Error` object is not modelled.
