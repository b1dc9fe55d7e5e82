/**
 * The server side of typed-http: `server(app)` returns a router whose verb
 * methods register a route on the Express app (or router) it wraps.  The
 * handler chain of each route is the middleware arguments flattened one
 * level, followed by the business handler.  The app is modelled as the log
 * of registrations it receives; handlers are opaque ids.
 */
module TypedServer {

  /** The methods a route can be registered for. */
  datatype HttpMethod = Get | Post | Put | Patch | Head | Delete | Options

  /** A request handler `(req, res, next) => void`, known only by identity. */
  datatype Handler = Handler(id: nat)

  /** One middleware argument: a single handler or an array of handlers. */
  datatype Middleware = Single(handler: Handler) | Group(handlers: array<Handler>)

  /** One `app[method](path, handlers)` call. */
  datatype Registration = Registration(path: string, verb: HttpMethod, chain: seq<Handler>)

  /** The arrays among the middleware arguments. */
  function Arrays(ms: seq<Middleware>): set<array<Handler>> {
    set i | 0 <= i < |ms| && ms[i].Group? :: ms[i].handlers
  }

  /** A middleware argument's contents at one moment. */
  datatype Arg = One(handler: Handler) | Many(handlers: seq<Handler>)

  function ArgOf(m: Middleware): (r: Arg)
    reads if m.Group? then {m.handlers} else {}
  {
    if m.Single? then One(m.handler) else Many(m.handlers[..])
  }

  /** The contents of all middleware arguments, argument by argument. */
  function Snapshot(ms: seq<Middleware>): (r: seq<Arg>)
    reads Arrays(ms)
    ensures |r| == |ms|
  {
    if ms == [] then []
    else
      assert ms[0] in ms;
      assert Arrays(ms[1..]) <= Arrays(ms) by {
        forall a | a in Arrays(ms[1..]) ensures a in Arrays(ms) {
          var i :| 0 <= i < |ms[1..]| && ms[1..][i].Group? && ms[1..][i].handlers == a;
          assert ms[i + 1] == ms[1..][i];
        }
      }
      [ArgOf(ms[0])] + Snapshot(ms[1..])
  }

  lemma {:induction false} SnapshotAt(ms: seq<Middleware>, i: nat)
    requires i < |ms|
    ensures Snapshot(ms)[i] == ArgOf(ms[i])
    decreases i
  {
    if i > 0 {
      SnapshotAt(ms[1..], i - 1);
      assert ms[1..][i - 1] == ms[i];
    }
  }

  /** The handlers one argument contributes: an array is spread, a single
      handler kept as it is. */
  function Items(a: Arg): seq<Handler> {
    if a.One? then [a.handler] else a.handlers
  }

  /** The arguments flattened one level, in order (the `forEach` of
      `createAsyncRoute`, one `push` per argument). */
  function Flatten(args: seq<Arg>): seq<Handler> {
    if args == [] then [] else Flatten(args[..|args| - 1]) + Items(args[|args| - 1])
  }

  /** The chain `createAsyncRoute` registers. */
  function Chain(args: seq<Arg>, handler: Handler): seq<Handler> {
    Flatten(args) + [handler]
  }

  /** How many handlers one argument contributes: an array its length, a
      single handler one. */
  function Width(a: Arg): nat {
    if a.One? then 1 else |a.handlers|
  }

  function TotalWidth(args: seq<Arg>): nat {
    if args == [] then 0 else Width(args[0]) + TotalWidth(args[1..])
  }

  lemma {:induction false} TotalWidthAppend(a: seq<Arg>, b: seq<Arg>)
    ensures TotalWidth(a + b) == TotalWidth(a) + TotalWidth(b)
    decreases |a|
  {
    if a == [] {
      assert a + b == b;
    } else {
      assert (a + b)[1..] == a[1..] + b;
      TotalWidthAppend(a[1..], b);
    }
  }

  lemma {:induction false} FlattenAppend(a: seq<Arg>, b: seq<Arg>)
    ensures Flatten(a + b) == Flatten(a) + Flatten(b)
    decreases |b|
  {
    if b == [] {
      assert a + b == a;
    } else {
      var ab := a + b;
      var init := b[..|b| - 1];
      var last := b[|b| - 1];
      assert ab[..|ab| - 1] == a + init;
      assert ab[|ab| - 1] == last;
      FlattenAppend(a, init);
      calc {
        Flatten(ab);
        Flatten(a + init) + Items(last);
        (Flatten(a) + Flatten(init)) + Items(last);
        Flatten(a) + (Flatten(init) + Items(last));
        Flatten(a) + Flatten(b);
      }
    }
  }

  lemma FlattenStep(args: seq<Arg>, i: nat)
    requires i < |args|
    ensures Flatten(args[..i + 1]) == Flatten(args[..i]) + Items(args[i])
  {
    assert args[..i + 1][..i] == args[..i];
  }

  /** The chain before the business handler has one entry per single
      handler and one per array element. */
  lemma {:induction false} FlattenLength(args: seq<Arg>)
    ensures |Flatten(args)| == TotalWidth(args)
    decreases |args|
  {
    if args != [] {
      var init := args[..|args| - 1];
      var last := args[|args| - 1];
      FlattenLength(init);
      assert args == init + [last];
      TotalWidthAppend(init, [last]);
      assert TotalWidth([last]) == Width(last) by {
        assert [last][1..] == [];
      }
    }
  }

  /** The handlers of the `i`-th argument sit, in their own order, right
      after those of the arguments before it. */
  lemma FlattenOrder(args: seq<Arg>, i: nat)
    requires i < |args|
    ensures var offset := TotalWidth(args[..i]);
      offset + Width(args[i]) <= |Flatten(args)| &&
      Flatten(args)[offset .. offset + Width(args[i])] == Items(args[i])
  {
    var before := args[..i];
    var after := args[i + 1..];
    assert args == before + [args[i]] + after;
    FlattenAppend(before + [args[i]], after);
    FlattenAppend(before, [args[i]]);
    assert Flatten([args[i]]) == Items(args[i]) by {
      assert [args[i]][..0] == [];
    }
    FlattenLength(before);
  }

  /** The business handler closes the chain; the chain holds one entry per
      middleware handler plus that one; without middleware it is exactly
      the handler. */
  lemma ChainShape(args: seq<Arg>, handler: Handler)
    ensures |Chain(args, handler)| == TotalWidth(args) + 1
    ensures Chain(args, handler)[|Chain(args, handler)| - 1] == handler
    ensures Chain(args, handler)[..|Chain(args, handler)| - 1] == Flatten(args)
    ensures args == [] ==> Chain(args, handler) == [handler]
  {
    FlattenLength(args);
  }

  /** The Express app (or router) the routes are registered on. */
  class App {
    var registrations: seq<Registration>

    constructor ()
      ensures registrations == []
    {
      registrations := [];
    }

    /** `app[method](path, handlers)`. */
    method Register(path: string, verb: HttpMethod, chain: seq<Handler>)
      modifies this
      ensures registrations == old(registrations) + [Registration(path, verb, chain)]
    {
      registrations := registrations + [Registration(path, verb, chain)];
    }
  }

  /** The router `server(app)` returns. */
  class Router {
    const app: App

    constructor (app: App)
      ensures this.app == app
    {
      this.app := app;
    }

    /** `createAsyncRoute`: the middleware arguments flattened into a new
        chain, the business handler appended, one registration made.  The
        caller's arrays are left as they were. */
    method Route(path: string, verb: HttpMethod, handler: Handler, middlewares: seq<Middleware>)
      modifies app
      ensures app.registrations == old(app.registrations) + [Registration(path, verb, Chain(old(Snapshot(middlewares)), handler))]
      ensures forall a :: a in Arrays(middlewares) ==> a[..] == old(a[..])
    {
      ghost var args := Snapshot(middlewares);
      var handlers: seq<Handler> := [];
      for i := 0 to |middlewares|
        invariant handlers == Flatten(args[..i])
        invariant args == Snapshot(middlewares)
        modifies {}
      {
        var m := middlewares[i];
        SnapshotAt(middlewares, i);
        FlattenStep(args, i);
        if m.Group? {
          handlers := handlers + m.handlers[..];
        } else {
          handlers := handlers + [m.handler];
        }
      }
      assert args[..|middlewares|] == args;
      handlers := handlers + [handler];
      assert handlers == Chain(args, handler);
      app.Register(path, verb, handlers);
    }

    method Get(path: string, handler: Handler, middlewares: seq<Middleware>)
      modifies app
      ensures app.registrations == old(app.registrations) + [Registration(path, HttpMethod.Get, Chain(old(Snapshot(middlewares)), handler))]
    {
      Route(path, HttpMethod.Get, handler, middlewares);
    }

    method Post(path: string, handler: Handler, middlewares: seq<Middleware>)
      modifies app
      ensures app.registrations == old(app.registrations) + [Registration(path, HttpMethod.Post, Chain(old(Snapshot(middlewares)), handler))]
    {
      Route(path, HttpMethod.Post, handler, middlewares);
    }

    method Put(path: string, handler: Handler, middlewares: seq<Middleware>)
      modifies app
      ensures app.registrations == old(app.registrations) + [Registration(path, HttpMethod.Put, Chain(old(Snapshot(middlewares)), handler))]
    {
      Route(path, HttpMethod.Put, handler, middlewares);
    }

    method Delete(path: string, handler: Handler, middlewares: seq<Middleware>)
      modifies app
      ensures app.registrations == old(app.registrations) + [Registration(path, HttpMethod.Delete, Chain(old(Snapshot(middlewares)), handler))]
    {
      Route(path, HttpMethod.Delete, handler, middlewares);
    }

    method Patch(path: string, handler: Handler, middlewares: seq<Middleware>)
      modifies app
      ensures app.registrations == old(app.registrations) + [Registration(path, HttpMethod.Patch, Chain(old(Snapshot(middlewares)), handler))]
    {
      Route(path, HttpMethod.Patch, handler, middlewares);
    }

    method Options(path: string, handler: Handler, middlewares: seq<Middleware>)
      modifies app
      ensures app.registrations == old(app.registrations) + [Registration(path, HttpMethod.Options, Chain(old(Snapshot(middlewares)), handler))]
    {
      Route(path, HttpMethod.Options, handler, middlewares);
    }

    method Head(path: string, handler: Handler, middlewares: seq<Middleware>)
      modifies app
      ensures app.registrations == old(app.registrations) + [Registration(path, HttpMethod.Head, Chain(old(Snapshot(middlewares)), handler))]
    {
      Route(path, HttpMethod.Head, handler, middlewares);
    }
  }

  /** The example server: three routes without middleware, each chain
      holding just its handler. */
  method ExampleServer() returns (log: seq<Registration>)
    ensures log == [Registration("/hello", Get, [Handler(0)]),
                    Registration("/hello", Post, [Handler(1)]),
                    Registration("/hello/:name", Post, [Handler(2)])]
  {
    var app := new App();
    var router := new Router(app);
    ChainShape([], Handler(0));
    ChainShape([], Handler(1));
    ChainShape([], Handler(2));
    router.Get("/hello", Handler(0), []);
    router.Post("/hello", Handler(1), []);
    router.Post("/hello/:name", Handler(2), []);
    log := app.registrations;
  }

  /** A single middleware and an array of two before the handler: the
      array is spread in place and the handler comes last. */
  method MiddlewareExample() returns (chain: seq<Handler>)
    ensures chain == [Handler(1), Handler(2), Handler(3), Handler(0)]
  {
    var group := new Handler[2];
    group[0], group[1] := Handler(2), Handler(3);
    var app := new App();
    var router := new Router(app);
    var middlewares := [Single(Handler(1)), Group(group)];
    assert group[..] == [Handler(2), Handler(3)];
    assert Snapshot(middlewares) == [One(Handler(1)), Many([Handler(2), Handler(3)])] by {
      SnapshotAt(middlewares, 0);
      SnapshotAt(middlewares, 1);
    }
    var args := [One(Handler(1)), Many([Handler(2), Handler(3)])];
    assert Flatten(args) == [Handler(1), Handler(2), Handler(3)] by {
      assert args[..1] == [One(Handler(1))];
      assert args[..1][..0] == [];
    }
    router.Get("/", Handler(0), middlewares);
    chain := app.registrations[0].chain;
  }
}
