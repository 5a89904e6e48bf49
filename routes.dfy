/**
 * Route descriptors, as the routing-trie builder receives them. A route has a path,
 * the path split into components (literal segments and parameter definitions) and a
 * kind: an HTTP route binds several methods to handlers, a WebSocket route and an
 * ASGI route bind one handler each, and an ASGI route may be a mount.
 */
module Routes {
  import opened Handlers

  /** The declared type of a path parameter; the builder only asks whether it is `Path`. */
  datatype ParamType = PathType | OtherType(typeName: string)

  /** `PathParameterDefinition`: the parameter's name, its full template text and its type. */
  datatype PathParameterDefinition = PathParameterDefinition(name: string, full: string, paramType: ParamType)

  datatype PathComponent = Segment(text: string) | Parameter(definition: PathParameterDefinition)

  datatype RouteKind =
    | HttpRoute(routeHandlerMap: map<string, RouteHandler>)
    | WebSocketRoute(routeHandler: RouteHandler)
    | AsgiRoute(routeHandler: RouteHandler, isMount: bool, isStatic: bool)

  datatype Route = Route(path: string, pathComponents: seq<PathComponent>, kind: RouteKind)
  {
    /** `route.path_parameters`: the parameter definitions of the path, in order. */
    function PathParameters(): seq<PathParameterDefinition>
    {
      Parameters(pathComponents)
    }

    /** `route.route_handler.is_mount`: only an ASGI route handler can be a mount. */
    predicate IsMount()
    {
      kind.AsgiRoute? && kind.isMount
    }

    /** The shape every route path has once normalised: it starts with '/', it is "/"
        exactly when it has no components, and no literal component contains '/'. */
    predicate WellFormed()
    {
      && |path| > 0 && path[0] == '/'
      && (path == "/" <==> pathComponents == [])
      && forall c :: c in pathComponents && c.Segment? ==> '/' !in c.text
    }
  }

  function Parameters(cs: seq<PathComponent>): seq<PathParameterDefinition>
  {
    if cs == [] then []
    else (if cs[0].Parameter? then [cs[0].definition] else []) + Parameters(cs[1..])
  }

  /** A path has parameters exactly when one of its components is a parameter. */
  lemma {:induction false} ParametersEmpty(cs: seq<PathComponent>)
    ensures Parameters(cs) == [] <==> forall c :: c in cs ==> c.Segment?
  {
    if cs != [] {
      ParametersEmpty(cs[1..]);
      assert forall c :: c in cs <==> c == cs[0] || c in cs[1..];
      if cs[0].Parameter? {
        assert Parameters(cs)[0] == cs[0].definition;
        assert cs[0] in cs && !cs[0].Segment?;
      } else {
        assert Parameters(cs) == Parameters(cs[1..]);
      }
    }
  }
}
