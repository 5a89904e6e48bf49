/**
 * The routing-trie builder: `add_route_to_trie`, `add_mount_route` and
 * `configure_node`. The trie is an arena of nodes, `nodes[0]` being the root, and a
 * node's `children` map keys to indices of other nodes.
 */
module RoutingTrie {
  import opened Common
  import opened Handlers
  import opened Routes
  import opened MiddlewareStack
  import opened TrieShape
  import opened TrieNodes

  /** `ASGIHandlerTuple(asgi_app=build_route_middleware_stack(...), handler=handler)`. */
  method BuildEntry(app: AppConfig, route: Route, key: string, ghost layers: seq<Layer>) returns (entry: HandlerTuple)
    requires key in Written(route.kind) && HandlerOf(route.kind, key).Layers() == layers
    ensures entry == HandlerTuple(ComposedStackOf(app, route, layers), HandlerOf(route.kind, key))
  {
    var handler := HandlerOf(route.kind, key);
    var stack := BuildRouteMiddlewareStack(app, route, handler);
    entry := HandlerTuple(stack, handler);
  }

  /**
   * Lines 143-149 for one key: the entry for `key` is built and written over `r`,
   * which holds the `expected` entries of the keys `done`.
   */
  method ConfigureMethod(app: AppConfig, route: Route, key: string, node: TrieNode, r: TrieNode, ghost done: set<string>,
                         ghost layers: map<string, seq<Layer>>, ghost expected: map<string, HandlerTuple>)
    returns (next: TrieNode)
    requires Expects(app, route, layers, expected) && key in Written(route.kind)
    requires HandlerOf(route.kind, key).Layers() == layers[key]
    requires r == Overwritten(node, route, Restrict(expected, done))
    ensures next == Overwritten(node, route, Restrict(expected, done + {key}))
  {
    var entry := BuildEntry(app, route, key, layers[key]);
    OverwrittenStep(node, route, expected, done, key);
    next := WithEntry(r, key, entry, route);
  }

  /** Lines 142-149: an entry per HTTP method of an HTTP route. */
  method ConfigureMethods(app: AppConfig, route: Route, handlerMap: map<string, RouteHandler>, node: TrieNode,
                          ghost layers: map<string, seq<Layer>>, ghost expected: map<string, HandlerTuple>)
    returns (r: TrieNode)
    requires route.kind == HttpRoute(handlerMap) && Expects(app, route, layers, expected)
    requires forall key :: key in handlerMap ==> handlerMap[key].Layers() == layers[key]
    ensures r == Overwritten(node, route, expected)
  {
    var pending := handlerMap.Keys;
    r := node;
    OverwrittenNothing(node, route, expected);
    while pending != {}
      invariant pending <= handlerMap.Keys
      invariant r == Overwritten(node, route, Restrict(expected, handlerMap.Keys - pending))
      decreases pending
    {
      var httpMethod :| httpMethod in pending;
      assert handlerMap[httpMethod].Layers() == old(handlerMap[httpMethod].Layers());
      r := ConfigureMethod(app, route, httpMethod, node, r, handlerMap.Keys - pending, layers, expected);
      DoneStep(handlerMap.Keys, pending, httpMethod);
      pending := pending - {httpMethod};
    }
    RestrictAll(expected, handlerMap.Keys - pending);
  }

  /** Lines 151-156: the "websocket" entry of a websocket route. */
  method ConfigureWebSocket(app: AppConfig, route: Route, node: TrieNode,
                            ghost layers: map<string, seq<Layer>>, ghost expected: map<string, HandlerTuple>)
    returns (r: TrieNode)
    requires route.kind.WebSocketRoute? && Expects(app, route, layers, expected)
    requires HandlerOf(route.kind, "websocket").Layers() == layers["websocket"]
    ensures r == Configuration(route, expected, node)
  {
    OverwrittenNothing(node, route, expected);
    r := ConfigureMethod(app, route, "websocket", node, node, {}, layers, expected);
    assert Written(route.kind) == {"websocket"};
    assert expected.Keys == {"websocket"};
    assert {} + {"websocket"} == {"websocket"};
    RestrictAll(expected, {"websocket"});
    assert r == Overwritten(node, route, expected);
    ConfigurationIs(route, expected, node);
  }

  /** Lines 158-164: the "asgi" entry of an ASGI route, and `is_asgi`. */
  method ConfigureAsgi(app: AppConfig, route: Route, node: TrieNode,
                       ghost layers: map<string, seq<Layer>>, ghost expected: map<string, HandlerTuple>)
    returns (r: TrieNode)
    requires route.kind.AsgiRoute? && Expects(app, route, layers, expected)
    requires HandlerOf(route.kind, "asgi").Layers() == layers["asgi"]
    ensures r == Configuration(route, expected, node)
  {
    OverwrittenNothing(node, route, expected);
    r := ConfigureMethod(app, route, "asgi", node, node, {}, layers, expected);
    assert Written(route.kind) == {"asgi"};
    assert expected.Keys == {"asgi"};
    assert {} + {"asgi"} == {"asgi"};
    RestrictAll(expected, {"asgi"});
    assert r == Overwritten(node, route, expected);
    ConfigurationIs(route, expected, node);
    r := r.(isAsgi := true);
  }

  /**
   * The body of `configure_node` on the node's value: an entry per HTTP method of an
   * HTTP route, one "websocket" entry, or one "asgi" entry and `is_asgi`.
   */
  method Configure(app: AppConfig, route: Route, node: TrieNode,
                   ghost layers: map<string, seq<Layer>>, ghost expected: map<string, HandlerTuple>)
    returns (r: TrieNode)
    requires Expects(app, route, layers, expected)
    requires forall key :: key in Written(route.kind) ==> HandlerOf(route.kind, key).Layers() == layers[key]
    ensures r == Configuration(route, expected, node)
  {
    match route.kind {
      case HttpRoute(handlerMap) =>
        r := ConfigureMethods(app, route, handlerMap, node, layers, expected);
        ConfigurationIs(route, expected, node);
      case WebSocketRoute(_) =>
        r := ConfigureWebSocket(app, route, node, layers, expected);
      case AsgiRoute(_, _, _) =>
        r := ConfigureAsgi(app, route, node, layers, expected);
    }
  }

  /** Changing a node's attributes but not its children keeps the shape. */
  lemma ShapeOfUpdate(nodes: seq<TrieNode>, j: nat, node: TrieNode)
    requires j < |nodes| && node.children == nodes[j].children
    ensures ShapeOf(nodes[j := node]) == ShapeOf(nodes)
  {
  }

  /** The whole-path key of a mount is not the key of its first component, so walking
      the components never occupies it. */
  lemma MountPathKeyIsFree(route: Route)
    requires route.WellFormed() && route.path != "/"
    ensures route.pathComponents != [] && MountKey(route.pathComponents[0]) != Lit(route.path)
  {
    var c := route.pathComponents[0];
    if c.Segment? {
      assert c in route.pathComponents;
      assert route.path[0] == '/';
      assert '/' in route.path;
    }
  }

  /**
   * What inserting `route` (`add_route_to_trie` before `configure_node`) does to a trie
   * whose nodes are `before` and whose plain and mount routes are `plainBefore` and
   * `mountBefore`: the result `after`, `plain`, `mount` and the route's node `n`.
   * The trie only grows, `n` is where the route's path leads, a route already present
   * finds its node without changing the shape; a mount route is recorded under its
   * whole path and its node marked, a plain route is recorded in the plain routes and
   * a parameterised one in neither; the shape changes only as `InsertedShape` and the
   * node flags only as `InsertedAttributes` describe, a new mount is reachable along
   * its components, and `is_path_param_node` keeps marking the nodes with a
   * parameter child.
   */
  ghost predicate RouteInserted(before: seq<TrieNode>, plainBefore: set<string>, mountBefore: map<string, nat>,
                                after: seq<TrieNode>, plain: set<string>, mount: map<string, nat>,
                                route: Route, n: nat)
  {
    && 0 < |before| && n < |after|
    && Grows(ShapeOf(before), ShapeOf(after))
    && Located(ShapeOf(after), route) == Some(n)
    && (Located(ShapeOf(before), route).Some? ==>
          n == Located(ShapeOf(before), route).value && ShapeOf(after) == ShapeOf(before))
    && (route.IsMount() ==>
          && mount == mountBefore[route.path := n] && plain == plainBefore
          && after[n].isMount && after[n].isStatic == route.kind.isStatic)
    && (!route.IsMount() && route.PathParameters() == [] ==>
          plain == plainBefore + {route.path} && mount == mountBefore)
    && (!route.IsMount() && route.PathParameters() != [] ==>
          plain == plainBefore && mount == mountBefore)
    && (route.IsMount() && route.path != "/" && Lit(route.path) !in before[0].children ==>
          Follow(ShapeOf(after), 0, MountKeys(route.pathComponents)) == Some(n))
    && InsertedShape(ShapeOf(before), ShapeOf(after), route, n)
    && InsertedAttributes(before, after, route, n)
    && (ParamFlags(before) ==> ParamFlags(after))
  }

  /** The trie builder's state: the node arena, `plain_routes` and `mount_routes`. */
  class RouteTrie {
    var nodes: seq<TrieNode>
    var plainRoutes: set<string>
    var mountRoutes: map<string, nat>

    ghost predicate Valid()
      reads this
    {
      && |nodes| > 0
      && Ordered(ShapeOf(nodes))
      && forall p :: p in mountRoutes ==> mountRoutes[p] < |nodes|
    }

    /** An empty trie: just the root. */
    constructor ()
      ensures Valid()
      ensures nodes == [CreateNode()] && plainRoutes == {} && mountRoutes == map[]
      ensures ParamFlags(nodes)
    {
      nodes := [CreateNode()];
      plainRoutes := {};
      mountRoutes := map[];
    }

    /** `if key not in node.children: node.children[key] = create_node()`, then the child. */
    method EnsureChild(parent: nat, key: Key) returns (child: nat)
      requires Valid() && parent < |nodes|
      modifies this`nodes
      ensures Valid()
      ensures AddsChild(ShapeOf(old(nodes)), ShapeOf(nodes), parent, key, child)
      ensures KeepsAttributes(old(nodes), nodes)
      ensures parent < child < |nodes| && key in nodes[parent].children && nodes[parent].children[key] == child
      ensures key in old(nodes[parent].children) ==> nodes == old(nodes)
      ensures key !in old(nodes[parent].children) ==>
        && child == |old(nodes)|
        && nodes == old(nodes)[parent := old(nodes[parent]).(children := old(nodes[parent].children)[key := child])]
                    + [CreateNode()]
    {
      ghost var s := ShapeOf(nodes);
      if key !in nodes[parent].children {
        var created := |nodes|;
        nodes := nodes[parent := nodes[parent].(children := nodes[parent].children[key := created])] + [CreateNode()];
        assert ShapeOf(nodes) == s[parent := s[parent][key := created]] + [map[]];
      }
      child := nodes[parent].children[key];
      AddsChildGrows(s, ShapeOf(nodes), parent, key, child);
    }

    /**
     * Lines 41-44: the walk over a mount path's components, creating missing children.
     * `trail[m]` is the node the m-th component is descended from.
     */
    method WalkMountComponents(components: seq<PathComponent>) returns (n: nat, ghost trail: seq<nat>)
      requires Valid()
      modifies this`nodes
      ensures Valid() && n < |nodes|
      ensures |trail| == |components| + 1 && trail[|components|] == n
      ensures Walk(ShapeOf(old(nodes)), ShapeOf(nodes), MountKeys(components), trail)
      ensures Follow(ShapeOf(nodes), 0, MountKeys(components)) == Some(n)
      ensures KeepsAttributes(old(nodes), nodes)
      ensures components == [] ==> nodes == old(nodes)
    {
      ghost var keys := MountKeys(components);
      var current := 0;
      trail := [0];
      WalkStart(ShapeOf(nodes), keys);
      for i := 0 to |components|
        invariant Valid() && current < |nodes|
        invariant |trail| == i + 1 && trail[i] == current
        invariant Walk(ShapeOf(old(nodes)), ShapeOf(nodes), keys, trail)
        invariant KeepsAttributes(old(nodes), nodes)
        invariant i == 0 ==> nodes == old(nodes)
      {
        ghost var before := nodes;
        var child := EnsureChild(current, MountKey(components[i]));
        WalkStep(ShapeOf(old(nodes)), ShapeOf(before), ShapeOf(nodes), keys, trail, child);
        KeepsAttributesTransitive(old(nodes), before, nodes);
        trail := trail + [child];
        current := child;
      }
      n := current;
      WalkEnd(ShapeOf(old(nodes)), ShapeOf(nodes), keys, trail);
    }

    /**
     * Lines 101-116, one component: mark the node when the component is a parameter,
     * descend by the component's key creating the child when missing, refresh
     * `child_keys`, and mark the child when the parameter is `Path`-typed.
     */
    method Descend(current: nat, component: PathComponent) returns (child: nat)
      requires Valid() && current < |nodes|
      modifies this`nodes
      ensures Valid()
      ensures AddsChild(ShapeOf(old(nodes)), ShapeOf(nodes), current, ComponentKey(component), child)
      ensures DescendedBy(old(nodes), nodes, current, component, child)
    {
      ghost var before := nodes;
      var key := ComponentKey(component);
      ShapeOfUpdate(nodes, current, Marked(nodes, current, component)[current]);
      nodes := Marked(nodes, current, component);
      child := EnsureChild(current, key);
      ghost var grown := nodes;
      ShapeOfUpdate(nodes, current, Refreshed(nodes, current)[current]);
      nodes := Refreshed(nodes, current);
      ShapeOfUpdate(nodes, child, Tagged(nodes, child, component)[child]);
      nodes := Tagged(nodes, child, component);
      DescentSteps(before, grown, current, component, child);
    }

    /**
     * Lines 100-116: the walk over a parameterised route's components. `trail[m]` is the
     * node the m-th component is descended from; `trail[m + 1]` the node it leads to.
     */
    method InsertPathComponents(components: seq<PathComponent>) returns (n: nat, ghost trail: seq<nat>)
      requires Valid()
      modifies this`nodes
      ensures Valid() && n < |nodes|
      ensures |trail| == |components| + 1 && trail[|components|] == n
      ensures Walk(ShapeOf(old(nodes)), ShapeOf(nodes), ComponentKeys(components), trail)
      ensures Follow(ShapeOf(nodes), 0, ComponentKeys(components)) == Some(n)
      ensures Follow(ShapeOf(old(nodes)), 0, ComponentKeys(components)).Some? ==> ShapeOf(nodes) == ShapeOf(old(nodes))
      ensures FlagsAlong(old(nodes), nodes, components, trail)
    {
      ghost var keys := ComponentKeys(components);
      ghost var start := ShapeOf(nodes);
      var current := 0;
      trail := [0];
      WalkStart(start, keys);
      for i := 0 to |components|
        invariant Valid() && current < |nodes|
        invariant |trail| == i + 1 && trail[i] == current
        invariant Walk(start, ShapeOf(nodes), keys, trail)
        invariant Follow(start, 0, keys).Some? ==> ShapeOf(nodes) == start
        invariant FlagsAlong(old(nodes), nodes, components, trail)
      {
        ghost var before := nodes;
        var child := Descend(current, components[i]);
        assert keys[i] == ComponentKey(components[i]);
        WalkStep(start, ShapeOf(before), ShapeOf(nodes), keys, trail, child);
        if Follow(start, 0, keys).Some? {
          WalkStepExisting(start, ShapeOf(nodes), keys, trail, child);
        }
        FlagsStep(old(nodes), before, nodes, components, trail, child);
        trail := trail + [child];
        current := child;
      }
      n := current;
      WalkEnd(start, ShapeOf(nodes), keys, trail);
    }

    /** Lines 94-98: a plain route is one child of the root, keyed by its whole path. */
    method AddPlainRoute(route: Route) returns (n: nat)
      requires Valid()
      modifies this`nodes, this`plainRoutes
      ensures Valid() && n < |nodes|
      ensures plainRoutes == old(plainRoutes) + {route.path}
      ensures AddsChild(ShapeOf(old(nodes)), ShapeOf(nodes), 0, Lit(route.path), n)
      ensures Grows(ShapeOf(old(nodes)), ShapeOf(nodes))
      ensures Lit(route.path) in nodes[0].children && nodes[0].children[Lit(route.path)] == n
      ensures KeepsAttributes(old(nodes), nodes)
    {
      plainRoutes := plainRoutes + {route.path};
      n := EnsureChild(0, Lit(route.path));
      AddsChildGrows(ShapeOf(old(nodes)), ShapeOf(nodes), 0, Lit(route.path), n);
    }

    /** Lines 41-44: the walk for a mount whose whole path is not a child of the root. */
    method WalkMount(route: Route) returns (n: nat)
      requires Valid() && route.WellFormed() && Lit(route.path) !in nodes[0].children
      modifies this`nodes
      ensures Valid() && n < |nodes|
      ensures Grows(ShapeOf(old(nodes)), ShapeOf(nodes)) && KeepsAttributes(old(nodes), nodes)
      ensures Follow(ShapeOf(nodes), 0, MountKeys(route.pathComponents)) == Some(n)
      ensures Walk(ShapeOf(old(nodes)), ShapeOf(nodes), MountKeys(route.pathComponents),
                   TrailOf(ShapeOf(nodes), MountKeys(route.pathComponents)))
      ensures route.path != "/" <==> n != 0
      ensures Lit(route.path) !in nodes[0].children
      ensures route.path == "/" ==> nodes == old(nodes)
    {
      ghost var trail;
      n, trail := WalkMountComponents(route.pathComponents);
      WalkTrail(ShapeOf(old(nodes)), ShapeOf(nodes), MountKeys(route.pathComponents), trail);
      if route.path != "/" {
        MountPathKeyIsFree(route);
        assert trail[1] == nodes[0].children[MountKey(route.pathComponents[0])];
      }
    }

    /**
     * Lines 39-44: the node a mount is put at. A mount at "/" is the root: the walk over
     * no components stays there, and so does skipping it. For another path that is not
     * a child of the root, the walk over its components finds or creates a node other
     * than the root, and the whole path is still not a child of the root. Otherwise, in
     * the corrected builder, it is that child.
     */
    method MountNode(route: Route) returns (n: nat)
      requires Valid() && route.WellFormed()
      modifies this`nodes
      ensures Valid() && n < |nodes|
      ensures Grows(ShapeOf(old(nodes)), ShapeOf(nodes)) && KeepsAttributes(old(nodes), nodes)
      ensures route.path == "/" ==> n == 0 && nodes == old(nodes)
      ensures route.path != "/" && Lit(route.path) in old(nodes[0].children) ==>
        nodes == old(nodes) && n == old(nodes[0].children[Lit(route.path)]) && n != 0
      ensures route.path != "/" && Lit(route.path) !in old(nodes[0].children) ==>
        && Follow(ShapeOf(nodes), 0, MountKeys(route.pathComponents)) == Some(n)
        && Walk(ShapeOf(old(nodes)), ShapeOf(nodes), MountKeys(route.pathComponents),
                TrailOf(ShapeOf(nodes), MountKeys(route.pathComponents)))
        && n != 0
        && Lit(route.path) !in nodes[0].children
    {
      if route.path == "/" {
        n := 0;
      } else if Lit(route.path) !in nodes[0].children {
        n := WalkMount(route);
      } else {
        n := nodes[0].children[Lit(route.path)];
        assert 0 < n by {
          assert ShapeOf(nodes)[0][Lit(route.path)] == n;
        }
      }
    }

    /** Lines 46-47: `is_mount` and `is_static` of node `n`. */
    method MarkMount(n: nat, isStatic: bool)
      requires Valid() && n < |nodes|
      modifies this`nodes
      ensures Valid() && ShapeOf(nodes) == ShapeOf(old(nodes))
      ensures nodes == old(nodes)[n := old(nodes[n]).(isMount := true, isStatic := isStatic)]
    {
      ShapeOfUpdate(nodes, n, nodes[n].(isMount := true, isStatic := isStatic));
      nodes := nodes[n := nodes[n].(isMount := true, isStatic := isStatic)];
    }

    /** Line 50: `root_node.children[path] = node`. */
    method SetRootChild(key: Key, n: nat)
      requires |nodes| > 0
      modifies this`nodes
      ensures |nodes| > 0 && ShapeOf(nodes) == WithEdge(ShapeOf(old(nodes)), 0, key, n)
      ensures nodes == old(nodes)[0 := old(nodes[0]).(children := old(nodes[0].children)[key := n])]
      ensures forall j :: 0 <= j < |nodes| ==> Attributes(nodes[j]) == Attributes(old(nodes)[j])
    {
      nodes := nodes[0 := nodes[0].(children := nodes[0].children[key := n])];
      assert ShapeOf(nodes) == WithEdge(ShapeOf(old(nodes)), 0, key, n);
    }

    /**
     * `add_mount_route`, corrected: a mount whose path other than "/" is already a
     * child of the root reuses that child; a mount at "/" is the root. The mount node is
     * flagged, recorded in `mount_routes` and, unless the path is "/", put under the
     * whole path at the root. No other attribute of any node changes.
     */
    method AddMountRoute(route: Route) returns (n: nat)
      requires Valid() && route.IsMount() && route.WellFormed()
      modifies this`nodes, this`mountRoutes
      ensures Valid() && n < |nodes|
      ensures Grows(ShapeOf(old(nodes)), ShapeOf(nodes))
      ensures mountRoutes == old(mountRoutes)[route.path := n]
      ensures MountMarked(old(nodes), nodes, n, route.kind.isStatic)
      ensures route.path == "/" ==> n == 0 && ShapeOf(nodes) == ShapeOf(old(nodes))
      ensures route.path != "/" ==> n != 0 && Lit(route.path) in nodes[0].children && nodes[0].children[Lit(route.path)] == n
      ensures route.path != "/" && Lit(route.path) !in old(nodes[0].children) ==>
        Follow(ShapeOf(nodes), 0, MountKeys(route.pathComponents)) == Some(n)
      ensures InsertedShape(ShapeOf(old(nodes)), ShapeOf(nodes), route, n)
      ensures Located(ShapeOf(nodes), route) == Some(n)
      ensures Located(ShapeOf(old(nodes)), route).Some? ==>
        n == Located(ShapeOf(old(nodes)), route).value && ShapeOf(nodes) == ShapeOf(old(nodes))
    {
      var path := route.path;
      n := MountNode(route);
      ghost var kept := nodes;
      ghost var walked := ShapeOf(nodes);
      MarkMount(n, route.kind.isStatic);
      if path != "/" {
        AddEdge(ShapeOf(nodes), 0, Lit(path), n);
        SetRootChild(Lit(path), n);
        if Lit(path) !in old(nodes[0].children) {
          RootEdge(walked, Lit(path), n);
          GrowsTransitive(ShapeOf(old(nodes)), walked, ShapeOf(nodes));
          FollowGrows(walked, ShapeOf(nodes), 0, MountKeys(route.pathComponents));
        }
      }
      MountMarkedBy(old(nodes), kept, nodes, n, route.kind.isStatic);
      mountRoutes := mountRoutes[path := n];
    }

    /**
     * `add_mount_route` as written: when the path is already a child of the root, the
     * walk is skipped and the ROOT is flagged as the mount and, for a path other than
     * "/", put under the path as a child of itself. When the path is not yet a child of
     * the root, the code takes the same steps as the corrected `AddMountRoute`.
     */
    method AddMountRouteAsWritten(route: Route) returns (n: nat)
      requires Valid() && route.IsMount() && route.WellFormed()
      modifies this`nodes, this`mountRoutes
      ensures |nodes| > 0 && n < |nodes|
      ensures mountRoutes == old(mountRoutes)[route.path := n]
      ensures nodes[n].isMount && nodes[n].isStatic == route.kind.isStatic
      ensures route.path != "/" ==> Lit(route.path) in nodes[0].children && nodes[0].children[Lit(route.path)] == n
      ensures MountMarked(old(nodes), nodes, n, route.kind.isStatic)
      ensures route.path == "/" ==> n == 0 && ShapeOf(nodes) == ShapeOf(old(nodes))
      ensures Lit(route.path) !in old(nodes[0].children) ==>
        Valid() && Follow(ShapeOf(nodes), 0, MountKeys(route.pathComponents)) == Some(n) && (route.path != "/" <==> n != 0)
      ensures Lit(route.path) !in old(nodes[0].children) ==>
        && Grows(ShapeOf(old(nodes)), ShapeOf(nodes))
        && InsertedShape(ShapeOf(old(nodes)), ShapeOf(nodes), route, n)
        && Located(ShapeOf(nodes), route) == Some(n)
      ensures Lit(route.path) in old(nodes[0].children) ==> n == 0
    {
      var path := route.path;
      if Lit(path) !in nodes[0].children {
        n := AddMountRoute(route);
      } else {
        n := 0;
        MarkMount(0, route.kind.isStatic);
        if path != "/" {
          SetRootChild(Lit(path), 0);
        }
        MountMarkedBy(old(nodes), old(nodes), nodes, 0, route.kind.isStatic);
        mountRoutes := mountRoutes[path := 0];
      }
    }

    /** Lines 100-116 for a route with path parameters: the walk over its components. */
    method InsertParameterised(route: Route) returns (n: nat)
      requires Valid() && !route.IsMount() && route.PathParameters() != []
      modifies this`nodes
      ensures Valid() && n < |nodes|
      ensures Grows(ShapeOf(old(nodes)), ShapeOf(nodes))
      ensures Located(ShapeOf(nodes), route) == Some(n)
      ensures Located(ShapeOf(old(nodes)), route).Some? ==>
        n == Located(ShapeOf(old(nodes)), route).value && ShapeOf(nodes) == ShapeOf(old(nodes))
      ensures InsertedShape(ShapeOf(old(nodes)), ShapeOf(nodes), route, n)
      ensures InsertedAttributes(old(nodes), nodes, route, n)
    {
      ghost var trail;
      n, trail := InsertPathComponents(route.pathComponents);
      WalkTrail(ShapeOf(old(nodes)), ShapeOf(nodes), ComponentKeys(route.pathComponents), trail);
    }

    /**
     * Lines 81-117: the insertion part of `add_route_to_trie`. Insertion only adds
     * missing children: a route that is already in the trie is found at the same node
     * and the shape does not change.
     */
    method InsertRoute(route: Route) returns (n: nat)
      requires Valid()
      requires route.IsMount() ==> route.WellFormed()
      modifies this`nodes, this`plainRoutes, this`mountRoutes
      ensures Valid()
      ensures RouteInserted(old(nodes), old(plainRoutes), old(mountRoutes), nodes, plainRoutes, mountRoutes, route, n)
    {
      var isMount := route.IsMount();
      var hasPathParameters := route.PathParameters() != [];
      if isMount {
        n := AddMountRoute(route);
      } else if !hasPathParameters {
        n := AddPlainRoute(route);
      } else {
        n := InsertParameterised(route);
      }
      if ParamFlags(old(nodes)) {
        InsertedParamFlags(old(nodes), nodes, route, n);
      }
    }

    /** Stores `node` at index `n`; the handlers of `route`, and so the stacks composed
        for them, are not touched. */
    method SetNode(n: nat, node: TrieNode, ghost app: AppConfig, ghost route: Route)
      requires Valid() && n < |nodes| && node.children == nodes[n].children
      modifies this`nodes
      ensures Valid() && ShapeOf(nodes) == ShapeOf(old(nodes))
      ensures nodes == old(nodes)[n := node]
      ensures forall key :: key in Written(route.kind) ==>
        ComposedStack(app, route, HandlerOf(route.kind, key)) == old(ComposedStack(app, route, HandlerOf(route.kind, key)))
    {
      ShapeOfUpdate(nodes, n, node);
      nodes := nodes[n := node];
    }

    /**
     * `configure_node`: for each key the route writes, the handler tuple with the
     * handler's composed stack and the route's path parameters; `is_asgi` for an ASGI
     * route. Other keys, other attributes and other nodes are unchanged.
     */
    method ConfigureNode(app: AppConfig, route: Route, n: nat)
      requires Valid() && n < |nodes|
      modifies this`nodes
      ensures Valid() && ShapeOf(nodes) == ShapeOf(old(nodes))
      ensures nodes == old(nodes)[n := nodes[n]]
      ensures Untouched(nodes[n]) == Untouched(old(nodes[n]))
      ensures nodes[n].isAsgi == (old(nodes[n].isAsgi) || route.kind.AsgiRoute?)
      ensures nodes[n].asgiHandlers.Keys == old(nodes[n].asgiHandlers.Keys) + Written(route.kind)
      ensures nodes[n].pathParameters.Keys == old(nodes[n].pathParameters.Keys) + Written(route.kind)
      ensures forall key :: key in old(nodes[n].asgiHandlers) && key !in Written(route.kind) ==>
        nodes[n].asgiHandlers[key] == old(nodes[n].asgiHandlers[key])
      ensures forall key :: key in old(nodes[n].pathParameters) && key !in Written(route.kind) ==>
        nodes[n].pathParameters[key] == old(nodes[n].pathParameters[key])
      ensures Serves(app, route, nodes[n])
      ensures ParamFlags(old(nodes)) ==> ParamFlags(nodes)
    {
      ghost var layers := LayersByKey(route);
      ghost var expected := EntriesOf(app, route, layers);
      var node := Configure(app, route, nodes[n], layers, expected);
      ConfigurationMeaning(route, expected, nodes[n]);
      ConfiguredStacks(app, route, layers, expected, nodes[n]);
      StacksOfLayers(app, route);
      SetNode(n, node, app, route);
    }

    /**
     * `add_route_to_trie`: a mount, a plain route or a parameterised route is inserted,
     * then its node is configured. `inserted` is the trie between the two steps: it has
     * the final shape and the attributes insertion sets, and configuring changes only
     * the handlers, path parameters and `is_asgi` of node `n`.
     */
    method AddRouteToTrie(app: AppConfig, route: Route) returns (n: nat, ghost inserted: seq<TrieNode>)
      requires Valid()
      requires route.IsMount() ==> route.WellFormed()
      modifies this`nodes, this`plainRoutes, this`mountRoutes
      ensures Valid() && n < |nodes|
      ensures RouteInserted(old(nodes), old(plainRoutes), old(mountRoutes), inserted, plainRoutes, mountRoutes, route, n)
      ensures ShapeOf(nodes) == ShapeOf(inserted)
      ensures Grows(ShapeOf(old(nodes)), ShapeOf(nodes))
      ensures Located(ShapeOf(nodes), route) == Some(n)
      ensures ParamFlags(old(nodes)) ==> ParamFlags(nodes)
      ensures nodes == inserted[n := nodes[n]]
      ensures Untouched(nodes[n]) == Untouched(inserted[n])
      ensures nodes[n].isAsgi == (inserted[n].isAsgi || route.kind.AsgiRoute?)
      ensures Serves(app, route, nodes[n])
      ensures nodes[n].asgiHandlers.Keys == inserted[n].asgiHandlers.Keys + Written(route.kind)
      ensures nodes[n].pathParameters.Keys == inserted[n].pathParameters.Keys + Written(route.kind)
      ensures forall key :: key in inserted[n].asgiHandlers && key !in Written(route.kind) ==>
        key in nodes[n].asgiHandlers && nodes[n].asgiHandlers[key] == inserted[n].asgiHandlers[key]
      ensures forall key :: key in inserted[n].pathParameters && key !in Written(route.kind) ==>
        key in nodes[n].pathParameters && nodes[n].pathParameters[key] == inserted[n].pathParameters[key]
    {
      n := InsertRoute(route);
      inserted := nodes;
      ConfigureNode(app, route, n);
    }
  }

  /** Mounting the same path twice with `add_mount_route` as written: the second call
      returns the root, not the node the first call created. */
  method MountTwiceAsWritten(handler: RouteHandler) returns (first: nat, second: nat)
    ensures first != 0 && second == 0
  {
    var trie := new RouteTrie();
    var mount := Route("/static", [Segment("static")], AsgiRoute(handler, true, true));
    assert mount.WellFormed();
    first := trie.AddMountRouteAsWritten(mount);
    second := trie.AddMountRouteAsWritten(mount);
  }

  /** The corrected builder: adding the same mount twice yields the same, non-root node. */
  method MountTwice(handler: RouteHandler) returns (first: nat, second: nat)
    ensures first == second && first != 0
  {
    var trie := new RouteTrie();
    var mount := Route("/static", [Segment("static")], AsgiRoute(handler, true, true));
    assert mount.WellFormed();
    first := trie.AddMountRoute(mount);
    second := trie.AddMountRoute(mount);
  }

  /** Adding any route twice to a trie returns the same node both times. */
  method AddRouteTwice(app: AppConfig, route: Route) returns (first: nat, second: nat)
    requires route.IsMount() ==> route.WellFormed()
    ensures first == second
  {
    var trie := new RouteTrie();
    ghost var inserted;
    first, inserted := trie.AddRouteToTrie(app, route);
    second, inserted := trie.AddRouteToTrie(app, route);
  }
}
