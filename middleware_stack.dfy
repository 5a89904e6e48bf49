/**
 * `build_route_middleware_stack`: the chain of wrappers put around a route's terminal
 * handler. The wrappers are opaque; the composed application is modelled as the tree
 * of wrapper constructions, so that the order in which they are layered is visible.
 */
module MiddlewareStack {
  import opened Common
  import opened Handlers
  import opened Routes

  /** The application settings the builder reads. A configuration is present or absent
      (`None` when not configured). */
  datatype AppConfig = AppConfig(
    debug: bool,
    csrfConfig: Option<string>,
    compressionConfig: Option<string>,
    allowedHosts: Option<string>)

  /** A composed ASGI application: the route's `handle` wrapped in middleware. */
  datatype Asgi =
    | RouteHandle(route: Route)
    | ExceptionHandlerMiddleware(debug: bool, exceptionHandlers: map<ExceptionKey, ExceptionHandler>, app: Asgi)
    | CsrfMiddleware(csrfConfig: string, app: Asgi)
    | CompressionMiddleware(compressionConfig: string, app: Asgi)
    | AllowedHostsMiddleware(allowedHostsConfig: string, app: Asgi)
    | UserMiddleware(factory: string, kwargs: map<string, string>, app: Asgi)

  /** One layer of a composed application, with the settings it was built with. */
  datatype LayerTag =
    | HandleLayer(route: Route)
    | ExceptionLayer(debug: bool, exceptionHandlers: map<ExceptionKey, ExceptionHandler>)
    | CsrfLayer(csrfConfig: string)
    | CompressionLayer(compressionConfig: string)
    | AllowedHostsLayer(allowedHostsConfig: string)
    | MiddlewareLayer(factory: string, kwargs: map<string, string>)

  /** The layers a request passes through, outermost first, ending at the handler. */
  function LayerOrder(a: Asgi): seq<LayerTag>
  {
    match a
    case RouteHandle(route) => [HandleLayer(route)]
    case ExceptionHandlerMiddleware(debug, handlers, inner) => [ExceptionLayer(debug, handlers)] + LayerOrder(inner)
    case CsrfMiddleware(config, inner) => [CsrfLayer(config)] + LayerOrder(inner)
    case CompressionMiddleware(config, inner) => [CompressionLayer(config)] + LayerOrder(inner)
    case AllowedHostsMiddleware(config, inner) => [AllowedHostsLayer(config)] + LayerOrder(inner)
    case UserMiddleware(factory, kwargs, inner) => [MiddlewareLayer(factory, kwargs)] + LayerOrder(inner)
  }

  /** Applies one `middleware` entry: `factory(app=inner, **kwargs)` for a pair,
      `factory(app=inner)` otherwise. */
  function Apply(m: Middleware, inner: Asgi): Asgi
  {
    match m
    case WithKwargs(factory, kwargs) => UserMiddleware(factory, kwargs, inner)
    case Plain(factory) => UserMiddleware(factory, map[], inner)
  }

  function Tag(m: Middleware): LayerTag
  {
    match m
    case WithKwargs(factory, kwargs) => MiddlewareLayer(factory, kwargs)
    case Plain(factory) => MiddlewareLayer(factory, map[])
  }

  function Tags(ms: seq<Middleware>): seq<LayerTag>
  {
    seq(|ms|, i requires 0 <= i < |ms| => Tag(ms[i]))
  }

  /** Applies the entries of `ms` in list order: the first becomes the innermost. */
  function ApplyAll(ms: seq<Middleware>, inner: Asgi): Asgi
  {
    if ms == [] then inner else Apply(ms[|ms| - 1], ApplyAll(ms[..|ms| - 1], inner))
  }

  /** The application-wide wrappers, each only when configured: CSRF innermost, then
      compression, then allowed hosts. */
  function WithAppMiddleware(app: AppConfig, inner: Asgi): Asgi
  {
    WithAllowedHosts(app, WithCompression(app, WithCsrf(app, inner)))
  }

  function WithCsrf(app: AppConfig, inner: Asgi): Asgi
  {
    if app.csrfConfig.Some? then CsrfMiddleware(app.csrfConfig.value, inner) else inner
  }

  function WithCompression(app: AppConfig, inner: Asgi): Asgi
  {
    if app.compressionConfig.Some? then CompressionMiddleware(app.compressionConfig.value, inner) else inner
  }

  function WithAllowedHosts(app: AppConfig, inner: Asgi): Asgi
  {
    if app.allowedHosts.Some? then AllowedHostsMiddleware(app.allowedHosts.value, inner) else inner
  }

  function AppLayerTags(app: AppConfig): seq<LayerTag>
  {
    (if app.allowedHosts.Some? then [AllowedHostsLayer(app.allowedHosts.value)] else [])
    + (if app.compressionConfig.Some? then [CompressionLayer(app.compressionConfig.value)] else [])
    + (if app.csrfConfig.Some? then [CsrfLayer(app.csrfConfig.value)] else [])
  }

  /** The stack built for `route` by a handler whose ownership layers are `ls`. */
  function ComposedStackOf(app: AppConfig, route: Route, ls: seq<Layer>): Asgi
  {
    var handlers := ResolvedExceptionHandlers(ls);
    var inner := WithAppMiddleware(app, ExceptionHandlerMiddleware(app.debug, handlers, RouteHandle(route)));
    ExceptionHandlerMiddleware(app.debug, handlers, ApplyAll(ResolvedMiddleware(ls), inner))
  }

  /** The stack `build_route_middleware_stack` builds for `route` and handler `h`. */
  function ComposedStack(app: AppConfig, route: Route, h: RouteHandler): Asgi
    reads h
  {
    ComposedStackOf(app, route, h.Layers())
  }

  /** Applying a list of middleware puts its LAST entry outermost. */
  lemma {:induction false} ApplyAllOrder(ms: seq<Middleware>, inner: Asgi)
    ensures LayerOrder(ApplyAll(ms, inner)) == Tags(Reversed(ms)) + LayerOrder(inner)
    decreases |ms|
  {
    if ms != [] {
      var n := |ms| - 1;
      ApplyAllOrder(ms[..n], inner);
      var r := Reversed(ms);
      assert Tags(r) == [Tag(ms[n])] + Tags(Reversed(ms[..n]));
    }
  }

  lemma AppMiddlewareOrder(app: AppConfig, inner: Asgi)
    ensures LayerOrder(WithAppMiddleware(app, inner)) == AppLayerTags(app) + LayerOrder(inner)
  {
    var hosts := if app.allowedHosts.Some? then [AllowedHostsLayer(app.allowedHosts.value)] else [];
    var compression := if app.compressionConfig.Some? then [CompressionLayer(app.compressionConfig.value)] else [];
    var csrf := if app.csrfConfig.Some? then [CsrfLayer(app.csrfConfig.value)] else [];
    var a := WithCsrf(app, inner);
    var b := WithCompression(app, a);
    assert LayerOrder(a) == csrf + LayerOrder(inner);
    assert LayerOrder(b) == compression + LayerOrder(a);
    assert LayerOrder(WithAllowedHosts(app, b)) == hosts + LayerOrder(b);
    Regroup(hosts, compression, csrf, LayerOrder(inner));
  }

  lemma Regroup<T>(a: seq<T>, b: seq<T>, c: seq<T>, d: seq<T>)
    ensures a + (b + (c + d)) == a + b + c + d
  {
  }

  /** The composed stack, for any resolved handlers and middleware list. */
  lemma StackOrder(app: AppConfig, route: Route, handlers: map<ExceptionKey, ExceptionHandler>, ms: seq<Middleware>)
    ensures LayerOrder(ExceptionHandlerMiddleware(app.debug, handlers,
        ApplyAll(Reversed(ms), WithAppMiddleware(app, ExceptionHandlerMiddleware(app.debug, handlers, RouteHandle(route)))))) ==
      [ExceptionLayer(app.debug, handlers)] + Tags(ms) + AppLayerTags(app)
      + [ExceptionLayer(app.debug, handlers), HandleLayer(route)]
  {
    var base := ExceptionHandlerMiddleware(app.debug, handlers, RouteHandle(route));
    var framed := WithAppMiddleware(app, base);
    var wrapped := ApplyAll(Reversed(ms), framed);
    var outer := [ExceptionLayer(app.debug, handlers)];
    var inner := [ExceptionLayer(app.debug, handlers), HandleLayer(route)];
    assert LayerOrder(base) == inner;
    AppMiddlewareOrder(app, base);
    ApplyAllOrder(Reversed(ms), framed);
    ReversedReversed(ms);
    assert LayerOrder(wrapped) == Tags(ms) + (AppLayerTags(app) + inner);
    assert LayerOrder(ExceptionHandlerMiddleware(app.debug, handlers, wrapped)) == outer + LayerOrder(wrapped);
    Regroup(outer, Tags(ms), AppLayerTags(app), inner);
  }

  /**
   * The order of the composed stack, outermost first: the outer exception wrapper;
   * the middleware of all ownership layers in declaration order, application first
   * (so the application's first middleware is the outermost of them); allowed hosts,
   * compression and CSRF when configured; the inner exception wrapper; the route's
   * handler. Both exception wrappers carry the resolved exception handlers.
   */
  lemma ComposedStackOrder(app: AppConfig, route: Route, ls: seq<Layer>)
    ensures LayerOrder(ComposedStackOf(app, route, ls)) ==
      [ExceptionLayer(app.debug, ResolvedExceptionHandlers(ls))]
      + Tags(Flatten(MiddlewareLists(ls)))
      + AppLayerTags(app)
      + [ExceptionLayer(app.debug, ResolvedExceptionHandlers(ls)), HandleLayer(route)]
  {
    StackOrder(app, route, ResolvedExceptionHandlers(ls), Flatten(MiddlewareLists(ls)));
  }

  /** `build_route_middleware_stack`. */
  method BuildRouteMiddlewareStack(app: AppConfig, route: Route, routeHandler: RouteHandler) returns (stack: Asgi)
    ensures stack == ComposedStack(app, route, routeHandler)
    ensures LayerOrder(stack) ==
      [ExceptionLayer(app.debug, ResolvedExceptionHandlers(routeHandler.Layers()))]
      + Tags(Flatten(MiddlewareLists(routeHandler.Layers())))
      + AppLayerTags(app)
      + [ExceptionLayer(app.debug, ResolvedExceptionHandlers(routeHandler.Layers())), HandleLayer(route)]
  {
    var handlers := routeHandler.ResolveExceptionHandlers();
    var asgiHandler := ExceptionHandlerMiddleware(app.debug, handlers, RouteHandle(route));
    ghost var base := asgiHandler;
    if app.csrfConfig.Some? {
      asgiHandler := CsrfMiddleware(app.csrfConfig.value, asgiHandler);
    }
    if app.compressionConfig.Some? {
      asgiHandler := CompressionMiddleware(app.compressionConfig.value, asgiHandler);
    }
    if app.allowedHosts.Some? {
      asgiHandler := AllowedHostsMiddleware(app.allowedHosts.value, asgiHandler);
    }
    assert asgiHandler == WithAppMiddleware(app, base);
    ghost var framed := asgiHandler;
    var middleware := routeHandler.ResolveMiddleware();
    for i := 0 to |middleware|
      invariant asgiHandler == ApplyAll(middleware[..i], framed)
    {
      assert middleware[..i + 1][..i] == middleware[..i];
      match middleware[i]
      case WithKwargs(factory, kwargs) =>
        asgiHandler := UserMiddleware(factory, kwargs, asgiHandler);
      case Plain(factory) =>
        asgiHandler := UserMiddleware(factory, map[], asgiHandler);
    }
    assert middleware[..|middleware|] == middleware;
    var outerHandlers := routeHandler.ResolveExceptionHandlers();
    stack := ExceptionHandlerMiddleware(app.debug, outerHandlers, asgiHandler);
    ComposedStackOrder(app, route, routeHandler.Layers());
  }
}
