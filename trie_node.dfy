/**
 * The nodes of the routing trie and what building the trie promises about them: the
 * node attributes inserting a path may set, and what `configure_node` writes.
 */
module TrieNodes {
  import opened Common
  import opened Handlers
  import opened Routes
  import opened MiddlewareStack
  import opened TrieShape

  /** `ASGIHandlerTuple`: the composed application and the handler it serves. */
  datatype HandlerTuple = HandlerTuple(asgiApp: Asgi, handler: RouteHandler)

  /** `RouteTrieNode`, with its children as arena indices. */
  datatype TrieNode = TrieNode(
    asgiHandlers: map<string, HandlerTuple>,
    childKeys: set<Key>,
    children: map<Key, nat>,
    isAsgi: bool,
    isMount: bool,
    isPathParamNode: bool,
    isPathType: bool,
    isStatic: bool,
    pathParameters: map<string, seq<PathParameterDefinition>>)

  /** `create_node()`: no children, no handlers, every flag off. */
  function CreateNode(): TrieNode
  {
    TrieNode(map[], {}, map[], false, false, false, false, false, map[])
  }

  /** A parameter whose declared type is `Path`. */
  predicate IsPathParameter(c: PathComponent)
  {
    c.Parameter? && c.definition.paramType.PathType?
  }

  /** The children maps of all nodes. */
  function ShapeOf(nodes: seq<TrieNode>): (r: Shape)
    ensures |r| == |nodes|
    ensures forall j :: 0 <= j < |nodes| ==> r[j] == nodes[j].children
  {
    seq(|nodes|, j requires 0 <= j < |nodes| => nodes[j].children)
  }

  /** The node at index `j` before an update, or a new node if it did not exist yet. */
  function Prior(before: seq<TrieNode>, j: nat): TrieNode
  {
    if j < |before| then before[j] else CreateNode()
  }

  /** A node without its children: what inserting a mount or plain path leaves alone. */
  function Attributes(node: TrieNode): TrieNode
  {
    node.(children := map[])
  }

  /** A node without what the walk over a parameterised path may change. */
  function WalkUntouched(node: TrieNode): TrieNode
  {
    node.(children := map[], childKeys := {}, isPathParamNode := false, isPathType := false)
  }

  /** `after` is `before` with possibly more nodes and other children, nothing else. */
  ghost predicate KeepsAttributes(before: seq<TrieNode>, after: seq<TrieNode>)
  {
    |before| <= |after| && forall j :: 0 <= j < |after| ==> Attributes(after[j]) == Attributes(Prior(before, j))
  }

  /**
   * The flags the walk over a parameterised path sets, `trail` being the nodes it went
   * through: a node descended from by the m-th component has `child_keys` equal to its
   * children's keys and is a parameter node when it already was or the component is a
   * parameter; the node reached by it is a `Path` node when it already was or the
   * component is a `Path` parameter; nothing else differs from `before` except children.
   */
  ghost predicate FlagsAlong(before: seq<TrieNode>, after: seq<TrieNode>, components: seq<PathComponent>, trail: seq<nat>)
  {
    && 0 < |trail| <= |components| + 1
    && |before| <= |after|
    && (forall m :: 0 <= m < |trail| ==> trail[m] < |after|)
    && (forall m :: 0 <= m < |trail| - 1 ==> after[trail[m]].childKeys == after[trail[m]].children.Keys)
    && (forall m :: 0 <= m < |trail| - 1 ==>
          after[trail[m]].isPathParamNode == (Prior(before, trail[m]).isPathParamNode || components[m].Parameter?))
    && (forall m :: 0 <= m < |trail| - 1 ==>
          after[trail[m + 1]].isPathType == (Prior(before, trail[m + 1]).isPathType || IsPathParameter(components[m])))
    && (forall j :: 0 <= j < |after| && j !in trail[..|trail| - 1] ==>
          after[j].childKeys == Prior(before, j).childKeys
          && after[j].isPathParamNode == Prior(before, j).isPathParamNode)
    && (forall j :: 0 <= j < |after| && j !in trail[1..] ==> after[j].isPathType == Prior(before, j).isPathType)
    && (forall j :: 0 <= j < |after| ==> WalkUntouched(after[j]) == WalkUntouched(Prior(before, j)))
  }

  /** Line 103: a parameter component marks the node it is descended from. */
  function Marked(nodes: seq<TrieNode>, current: nat, component: PathComponent): seq<TrieNode>
    requires current < |nodes|
  {
    if component.Parameter? then nodes[current := nodes[current].(isPathParamNode := true)] else nodes
  }

  /** Line 112: `child_keys` of node `current` is refreshed from its children. */
  function Refreshed(nodes: seq<TrieNode>, current: nat): seq<TrieNode>
    requires current < |nodes|
  {
    nodes[current := nodes[current].(childKeys := nodes[current].children.Keys)]
  }

  /** Lines 115-116: the child reached by a `Path`-typed parameter is marked. */
  function Tagged(nodes: seq<TrieNode>, child: nat, component: PathComponent): seq<TrieNode>
    requires child < |nodes|
  {
    if IsPathParameter(component) then nodes[child := nodes[child].(isPathType := true)] else nodes
  }

  /** Marking, descending (reusing or creating the child) and refreshing is a descent. */
  lemma DescentSteps(before: seq<TrieNode>, grown: seq<TrieNode>, current: nat, component: PathComponent, child: nat)
    requires current < |before| && current < child < |grown|
    requires var marked := Marked(before, current, component);
      || (grown == marked && ComponentKey(component) in marked[current].children &&
          child == marked[current].children[ComponentKey(component)])
      || (child == |marked| &&
          grown == marked[current := marked[current].(children := marked[current].children[ComponentKey(component) := child])]
                   + [CreateNode()])
    ensures DescendedBy(before, Tagged(Refreshed(grown, current), child, component), current, component, child)
  {
    var marked := Marked(before, current, component);
    var after := Tagged(Refreshed(grown, current), child, component);
    assert |after| == |grown|;
    assert after[current].childKeys == after[current].children.Keys;
    assert WalkUntouched(after[current]) == WalkUntouched(before[current]);
    assert after[child].isPathType == (Prior(before, child).isPathType || IsPathParameter(component));
    assert WalkUntouched(after[child]) == WalkUntouched(Prior(before, child));
  }

  /** What one step of the parameterised walk does to the attributes of the nodes. */
  ghost predicate DescendedBy(before: seq<TrieNode>, after: seq<TrieNode>, current: nat, component: PathComponent, child: nat)
  {
    && current < child < |after|
    && |before| <= |after| <= |before| + 1
    && (|after| == |before| + 1 ==> child == |before|)
    && after[current].childKeys == after[current].children.Keys
    && after[current].isPathParamNode == (before[current].isPathParamNode || component.Parameter?)
    && after[current].isPathType == before[current].isPathType
    && WalkUntouched(after[current]) == WalkUntouched(before[current])
    && after[child].childKeys == Prior(before, child).childKeys
    && after[child].isPathParamNode == Prior(before, child).isPathParamNode
    && after[child].isPathType == (Prior(before, child).isPathType || IsPathParameter(component))
    && WalkUntouched(after[child]) == WalkUntouched(Prior(before, child))
    && forall j :: 0 <= j < |before| && j != current && j != child ==> after[j] == before[j]
  }

  lemma KeepsAttributesTransitive(a: seq<TrieNode>, b: seq<TrieNode>, c: seq<TrieNode>)
    requires KeepsAttributes(a, b) && KeepsAttributes(b, c)
    ensures KeepsAttributes(a, c)
  {
    forall j | 0 <= j < |c|
      ensures Attributes(c[j]) == Attributes(Prior(a, j))
    {
      assert Attributes(c[j]) == Attributes(Prior(b, j));
      if j >= |b| {
        assert Prior(b, j) == CreateNode() == Prior(a, j);
      }
    }
  }

  /** One more step keeps the flags of the walk as described. */
  lemma FlagsStep(start: seq<TrieNode>, before: seq<TrieNode>, after: seq<TrieNode>,
                  components: seq<PathComponent>, trail: seq<nat>, child: nat)
    requires 0 < |trail| <= |components| && |start| <= |before|
    requires FlagsAlong(start, before, components, trail)
    requires forall m :: 0 <= m < |trail| - 1 ==> trail[m] < trail[|trail| - 1]
    requires DescendedBy(before, after, trail[|trail| - 1], components[|trail| - 1], child)
    ensures FlagsAlong(start, after, components, trail + [child])
  {
    var current := trail[|trail| - 1];
    var next := trail + [child];
    assert next[..|next| - 1] == trail;
    assert trail == trail[..|trail| - 1] + [current];
    assert next[1..] == trail[1..] + [child];
    forall j | 0 <= j < |after|
      ensures WalkUntouched(after[j]) == WalkUntouched(Prior(start, j))
    {
      if j != current && j != child {
        assert after[j] == before[j];
      } else if j == child && child >= |before| {
        assert Prior(before, j) == CreateNode() == Prior(start, j);
      }
    }
    forall j | 0 <= j < |after| && j !in next[..|next| - 1]
      ensures after[j].childKeys == Prior(start, j).childKeys
      ensures after[j].isPathParamNode == Prior(start, j).isPathParamNode
    {
      if j != child {
        assert after[j] == before[j];
      } else if child >= |before| {
        assert Prior(before, j) == CreateNode() == Prior(start, j);
      }
    }
    forall j | 0 <= j < |after| && j !in next[1..]
      ensures after[j].isPathType == Prior(start, j).isPathType
    {
      if j != current {
        assert after[j] == before[j];
      }
    }
    forall m | 0 <= m < |next| - 1
      ensures after[next[m]].childKeys == after[next[m]].children.Keys
      ensures after[next[m]].isPathParamNode == (Prior(start, next[m]).isPathParamNode || components[m].Parameter?)
      ensures after[next[m + 1]].isPathType == (Prior(start, next[m + 1]).isPathType || IsPathParameter(components[m]))
    {
      if m < |trail| - 1 {
        assert next[m] != current && next[m] != child;
        assert after[next[m]] == before[next[m]];
        if m + 1 < |trail| - 1 {
          assert after[next[m + 1]] == before[next[m + 1]];
        }
      } else {
        assert current !in trail[..|trail| - 1];
        assert current !in trail[1..] || current == trail[|trail| - 1];
      }
    }
  }

  /**
   * The node a route is registered at, found without inserting anything: a mount at
   * "/" is the root itself; another mount or a plain route is under its whole path at
   * the root; a parameterised route is found by walking its component keys.
   */
  function Located(s: Shape, route: Route): Option<nat>
  {
    if s == [] then None
    else if route.IsMount() && route.path == "/" then Some(0)
    else if route.IsMount() || route.PathParameters() == [] then
      if Lit(route.path) in s[0] then Some(s[0][Lit(route.path)]) else None
    else Follow(s, 0, ComponentKeys(route.pathComponents))
  }

  /** Only node `n` changed attributes: it is flagged as a mount, static or not. */
  ghost predicate MountMarked(before: seq<TrieNode>, after: seq<TrieNode>, n: nat, isStatic: bool)
  {
    && |before| <= |after| && n < |after|
    && Attributes(after[n]) == Attributes(Prior(before, n)).(isMount := true, isStatic := isStatic)
    && forall j :: 0 <= j < |after| && j != n ==> Attributes(after[j]) == Attributes(Prior(before, j))
  }

  /** Flagging node `n` of a trie whose attributes were kept is marking a mount. */
  lemma MountMarkedBy(before: seq<TrieNode>, kept: seq<TrieNode>, after: seq<TrieNode>, n: nat, isStatic: bool)
    requires KeepsAttributes(before, kept) && n < |kept| && |after| == |kept|
    requires forall j :: 0 <= j < |after| ==>
      Attributes(after[j]) == Attributes(kept[n := kept[n].(isMount := true, isStatic := isStatic)][j])
    ensures MountMarked(before, after, n, isStatic)
  {
    forall j | 0 <= j < |after| && j != n ensures Attributes(after[j]) == Attributes(Prior(before, j)) {
      assert Attributes(after[j]) == Attributes(kept[j]);
    }
    assert Attributes(after[n]) == Attributes(kept[n]).(isMount := true, isStatic := isStatic);
  }

  /** The three ways `add_route_to_trie` inserts a route (lines 86-117). */
  datatype Insertion = MountInsertion | PlainInsertion | WalkInsertion

  /** A mount is inserted by `add_mount_route`, a route without path parameters as a
      plain route, any other route component by component. */
  function InsertionOf(route: Route): Insertion
  {
    if route.IsMount() then MountInsertion
    else if route.PathParameters() == [] then PlainInsertion
    else WalkInsertion
  }

  /**
   * What inserting `route` at node `n` does to the attributes of the nodes: a mount
   * flags `n` and nothing else; a plain route changes no attribute; a parameterised
   * route sets the flags of its walk (`FlagsAlong`) on the nodes its component keys
   * lead through.
   */
  ghost predicate InsertedAttributes(before: seq<TrieNode>, after: seq<TrieNode>, route: Route, n: nat)
  {
    match InsertionOf(route)
    case MountInsertion => MountMarked(before, after, n, route.kind.isStatic)
    case PlainInsertion => KeepsAttributes(before, after)
    case WalkInsertion =>
      FlagsAlong(before, after, route.pathComponents, TrailOf(ShapeOf(after), ComponentKeys(route.pathComponents)))
  }

  /**
   * What inserting `route` at node `n` does to the shape. A mount at "/" is the root,
   * and a mount whose whole path is already a child of the root is that child; neither
   * adds a child. Another mount walks its component keys from the root, adding children
   * only along the walk, and its node is then put under its whole path at the root. A
   * plain route is the root's child under its whole path, added when missing. A
   * parameterised route walks its component keys, adding children only along the walk.
   */
  ghost predicate InsertedShape(before: Shape, after: Shape, route: Route, n: nat)
  {
    match InsertionOf(route)
    case MountInsertion =>
      && |before| > 0
      && if route.path == "/" then after == before && n == 0
         else if Lit(route.path) in before[0] then after == before && n == before[0][Lit(route.path)]
         else
           var keys := MountKeys(route.pathComponents);
           && |after| > 0
           && var walked := WithoutRootKey(after, Lit(route.path));
              && Walk(before, walked, keys, TrailOf(walked, keys))
              && Follow(walked, 0, keys) == Some(n)
              && after == WithEdge(walked, 0, Lit(route.path), n)
    case PlainInsertion => AddsChild(before, after, 0, Lit(route.path), n)
    case WalkInsertion =>
      var keys := ComponentKeys(route.pathComponents);
      |before| > 0 && Walk(before, after, keys, TrailOf(after, keys)) && Follow(after, 0, keys) == Some(n)
  }

  /** An insertion that changes the shape as `InsertedShape` says only grows the trie,
      and leaves the route where `Located` finds it. */
  lemma InsertedShapeLocated(before: Shape, after: Shape, route: Route, n: nat)
    requires InsertedShape(before, after, route, n)
    ensures Grows(before, after)
    ensures Located(after, route) == Some(n)
  {
    if route.IsMount() && route.path != "/" && Lit(route.path) !in before[0] {
      var walked := WithoutRootKey(after, Lit(route.path));
      RootEdge(walked, Lit(route.path), n);
      GrowsTransitive(before, walked, after);
    }
  }

  /** The node invariant of the trie: a node is a parameter node exactly when the
      parameter sentinel is among its children's keys. */
  ghost predicate ParamFlags(nodes: seq<TrieNode>)
  {
    forall j :: 0 <= j < |nodes| ==> (nodes[j].isPathParamNode <==> Sentinel in nodes[j].children)
  }

  /** A node's children before an update are those of its prior value. */
  lemma PriorChildrenOf(before: seq<TrieNode>, j: nat)
    ensures PriorChildren(ShapeOf(before), j) == Prior(before, j).children
  {
  }

  /** After a new mount path is walked, node `j` is a parameter node exactly when it has
      a sentinel child: neither the walk nor the root edge uses the sentinel, and the
      mount sets no parameter flag. */
  lemma MountNodeParamFlag(before: seq<TrieNode>, after: seq<TrieNode>, route: Route, n: nat, j: nat)
    requires ParamFlags(before) && route.IsMount() && j < |after|
    requires InsertedShape(ShapeOf(before), ShapeOf(after), route, n) && MountMarked(before, after, n, route.kind.isStatic)
    requires route.path != "/" && Lit(route.path) !in ShapeOf(before)[0]
    ensures after[j].isPathParamNode <==> Sentinel in after[j].children
  {
    var s, t := ShapeOf(before), ShapeOf(after);
    assert Attributes(after[j]).isPathParamNode == Attributes(Prior(before, j)).isPathParamNode;
    PriorChildrenOf(before, j);
    var keys := MountKeys(route.pathComponents);
    var walked := WithoutRootKey(t, Lit(route.path));
    var trail := TrailOf(walked, keys);
    WalkKey(s, walked, keys, trail, j, Sentinel);
    if j in trail[..|keys|] {
      var m :| 0 <= m < |keys| && trail[m] == j;
      assert keys[m] == MountKey(route.pathComponents[m]);
    }
    assert t == WithEdge(walked, 0, Lit(route.path), n);
  }

  /** Inserting a mount keeps the node invariant. */
  lemma MountParamFlags(before: seq<TrieNode>, after: seq<TrieNode>, route: Route, n: nat)
    requires ParamFlags(before) && route.IsMount()
    requires InsertedShape(ShapeOf(before), ShapeOf(after), route, n) && MountMarked(before, after, n, route.kind.isStatic)
    ensures ParamFlags(after)
  {
    var s, t := ShapeOf(before), ShapeOf(after);
    forall j | 0 <= j < |after| ensures after[j].isPathParamNode <==> Sentinel in after[j].children {
      if route.path != "/" && Lit(route.path) !in s[0] {
        MountNodeParamFlag(before, after, route, n, j);
      } else {
        assert Attributes(after[j]).isPathParamNode == Attributes(Prior(before, j)).isPathParamNode;
        PriorChildrenOf(before, j);
      }
    }
  }

  /** Inserting a plain route keeps the node invariant: its root edge is a literal key. */
  lemma PlainParamFlags(before: seq<TrieNode>, after: seq<TrieNode>, route: Route, n: nat)
    requires ParamFlags(before) && !route.IsMount() && route.PathParameters() == []
    requires InsertedShape(ShapeOf(before), ShapeOf(after), route, n) && KeepsAttributes(before, after)
    ensures ParamFlags(after)
  {
    var s, t := ShapeOf(before), ShapeOf(after);
    forall j | 0 <= j < |after| ensures after[j].isPathParamNode <==> Sentinel in after[j].children {
      assert Attributes(after[j]).isPathParamNode == Attributes(Prior(before, j)).isPathParamNode;
      PriorChildrenOf(before, j);
      if j == 0 && Lit(route.path) !in s[0] {
        assert t[0] == WithEdge(s, 0, Lit(route.path), n)[0];
      } else if j < |before| {
        assert t[j] == s[j];
      }
    }
  }

  /** After the walk of a parameterised route, node `j` is a parameter node exactly when
      it has a sentinel child: the walk marks a node when it descends from it by the
      sentinel. */
  lemma WalkNodeParamFlag(before: seq<TrieNode>, after: seq<TrieNode>, components: seq<PathComponent>,
                          trail: seq<nat>, j: nat)
    requires ParamFlags(before) && |trail| == |components| + 1 && j < |after|
    requires Walk(ShapeOf(before), ShapeOf(after), ComponentKeys(components), trail)
    requires FlagsAlong(before, after, components, trail)
    ensures after[j].isPathParamNode <==> Sentinel in after[j].children
  {
    var keys := ComponentKeys(components);
    PriorChildrenOf(before, j);
    WalkKey(ShapeOf(before), ShapeOf(after), keys, trail, j, Sentinel);
    if j in trail[..|keys|] {
      var m :| 0 <= m < |keys| && trail[m] == j;
      assert keys[m] == ComponentKey(components[m]);
    }
  }

  /** The walk of a parameterised route keeps the node invariant. */
  lemma WalkParamFlags(before: seq<TrieNode>, after: seq<TrieNode>, route: Route, n: nat)
    requires ParamFlags(before) && !route.IsMount() && route.PathParameters() != []
    requires InsertedShape(ShapeOf(before), ShapeOf(after), route, n)
    requires InsertedAttributes(before, after, route, n)
    ensures ParamFlags(after)
  {
    var keys := ComponentKeys(route.pathComponents);
    var trail := TrailOf(ShapeOf(after), keys);
    forall j | 0 <= j < |after| ensures after[j].isPathParamNode <==> Sentinel in after[j].children {
      WalkNodeParamFlag(before, after, route.pathComponents, trail, j);
    }
  }

  /** Inserting any route keeps the node invariant. */
  lemma InsertedParamFlags(before: seq<TrieNode>, after: seq<TrieNode>, route: Route, n: nat)
    requires ParamFlags(before)
    requires InsertedShape(ShapeOf(before), ShapeOf(after), route, n) && InsertedAttributes(before, after, route, n)
    ensures ParamFlags(after)
  {
    if route.IsMount() {
      MountParamFlags(before, after, route, n);
    } else if route.PathParameters() == [] {
      PlainParamFlags(before, after, route, n);
    } else {
      WalkParamFlags(before, after, route, n);
    }
  }

  /** The keys `configure_node` writes for a route: its methods, "websocket" or "asgi". */
  function Written(kind: RouteKind): set<string>
  {
    match kind
    case HttpRoute(handlerMap) => handlerMap.Keys
    case WebSocketRoute(_) => {"websocket"}
    case AsgiRoute(_, _, _) => {"asgi"}
  }

  function HandlerOf(kind: RouteKind, key: string): RouteHandler
    requires key in Written(kind)
  {
    match kind
    case HttpRoute(handlerMap) => handlerMap[key]
    case WebSocketRoute(h) => h
    case AsgiRoute(h, _, _) => h
  }

  /** The handlers a route's entries are built for. */
  function HandlersOf(kind: RouteKind): set<RouteHandler>
  {
    set key | key in Written(kind) :: HandlerOf(kind, key)
  }

  /** The ownership layers of the handlers a route's entries are built for, by key. */
  ghost function LayersByKey(route: Route): (r: map<string, seq<Layer>>)
    reads HandlersOf(route.kind)
    ensures r.Keys == Written(route.kind)
  {
    map key | key in Written(route.kind) :: HandlerOf(route.kind, key).Layers()
  }

  /**
   * The handler tuples `configure_node` writes for a route whose handlers have the
   * ownership layers `layers`: under each key, the stack composed for the route from
   * that key's handler, and the handler.
   */
  function EntriesOf(app: AppConfig, route: Route, layers: map<string, seq<Layer>>): (r: map<string, HandlerTuple>)
    requires layers.Keys == Written(route.kind)
    ensures r.Keys == Written(route.kind)
  {
    map key | key in Written(route.kind) ::
      HandlerTuple(ComposedStackOf(app, route, layers[key]), HandlerOf(route.kind, key))
  }

  /** The path parameters `configure_node` records under `keys`. */
  function ParameterEntries(route: Route, keys: set<string>): map<string, seq<PathParameterDefinition>>
  {
    map key | key in keys :: route.PathParameters()
  }

  /** The attributes `configure_node` does not touch. */
  function Untouched(node: TrieNode): TrieNode
  {
    node.(asgiHandlers := map[], pathParameters := map[], isAsgi := false)
  }

  /** `node` with the handler tuples `entries` put over its handlers and the route's
      path parameters recorded under the same keys. */
  function Overwritten(node: TrieNode, route: Route, entries: map<string, HandlerTuple>): TrieNode
  {
    node.(asgiHandlers := node.asgiHandlers + entries,
          pathParameters := node.pathParameters + ParameterEntries(route, entries.Keys))
  }

  /** The entries of `m` under `keys`. */
  function Restrict(m: map<string, HandlerTuple>, keys: set<string>): (r: map<string, HandlerTuple>)
    ensures r.Keys == m.Keys * keys
  {
    map key | key in m && key in keys :: m[key]
  }

  /**
   * `node` serves `route`: under each key the route writes it holds the stack composed
   * for that key's handler, paired with the handler, and the route's path parameters.
   */
  ghost predicate Serves(app: AppConfig, route: Route, node: TrieNode)
    reads HandlersOf(route.kind)
  {
    forall key :: key in Written(route.kind) ==>
      && key in node.asgiHandlers
      && node.asgiHandlers[key] == HandlerTuple(ComposedStack(app, route, HandlerOf(route.kind, key)), HandlerOf(route.kind, key))
      && key in node.pathParameters
      && node.pathParameters[key] == route.PathParameters()
  }

  /** The node `configure_node` leaves behind when it writes the handler tuples `entries`. */
  function Configuration(route: Route, entries: map<string, HandlerTuple>, node: TrieNode): TrieNode
  {
    Overwritten(node, route, entries).(isAsgi := node.isAsgi || route.kind.AsgiRoute?)
  }

  /**
   * What `configure_node` does to a node when it writes the handler tuples `entries`:
   * each key the route writes gets its entry, with the route's path parameters under
   * the same key; other keys keep theirs; `is_asgi` is set for an ASGI route; nothing
   * else changes.
   */
  ghost predicate ConfiguredWith(route: Route, entries: map<string, HandlerTuple>, before: TrieNode, after: TrieNode)
    requires entries.Keys == Written(route.kind)
  {
    && after.asgiHandlers.Keys == before.asgiHandlers.Keys + Written(route.kind)
    && (forall key :: key in Written(route.kind) ==> after.asgiHandlers[key] == entries[key])
    && (forall key :: key in before.asgiHandlers && key !in Written(route.kind) ==>
          after.asgiHandlers[key] == before.asgiHandlers[key])
    && after.pathParameters.Keys == before.pathParameters.Keys + Written(route.kind)
    && (forall key :: key in Written(route.kind) ==> after.pathParameters[key] == route.PathParameters())
    && (forall key :: key in before.pathParameters && key !in Written(route.kind) ==>
          after.pathParameters[key] == before.pathParameters[key])
    && after.isAsgi == (before.isAsgi || route.kind.AsgiRoute?)
    && Untouched(after) == Untouched(before)
  }

  /** The node `Configuration` describes is configured as `configure_node` promises. */
  lemma ConfigurationMeaning(route: Route, entries: map<string, HandlerTuple>, node: TrieNode)
    requires entries.Keys == Written(route.kind)
    ensures ConfiguredWith(route, entries, node, Configuration(route, entries, node))
  {
    var after := Configuration(route, entries, node);
    var parameters := ParameterEntries(route, Written(route.kind));
    assert after.asgiHandlers == node.asgiHandlers + entries;
    assert after.pathParameters == node.pathParameters + parameters;
    UnionMeaning(node.asgiHandlers, entries);
    UnionMeaning(node.pathParameters, parameters);
    assert Untouched(after) == Untouched(node);
  }

  /** The keys and values of `m + e`: those of `e` win. */
  lemma UnionMeaning<V>(m: map<string, V>, e: map<string, V>)
    ensures (m + e).Keys == m.Keys + e.Keys
    ensures forall key :: key in e ==> (m + e)[key] == e[key]
    ensures forall key :: key in m && key !in e ==> (m + e)[key] == m[key]
  {
  }

  /** The entries a route's handlers expect: for each key, the stack composed from
      the layers in `layers` and the key's handler. */
  ghost predicate Expects(app: AppConfig, route: Route, layers: map<string, seq<Layer>>,
                          entries: map<string, HandlerTuple>)
  {
    && layers.Keys == Written(route.kind) && entries.Keys == Written(route.kind)
    && forall key {:trigger entries[key]} :: key in Written(route.kind) ==>
         entries[key] == HandlerTuple(ComposedStackOf(app, route, layers[key]), HandlerOf(route.kind, key))
  }

  /** `node.asgi_handlers[key] = entry` and `node.path_parameters[key] = route.path_parameters`. */
  function WithEntry(node: TrieNode, key: string, entry: HandlerTuple, route: Route): (r: TrieNode)
    ensures r.asgiHandlers == node.asgiHandlers[key := entry]
    ensures r.pathParameters == node.pathParameters[key := route.PathParameters()]
    ensures r.isAsgi == node.isAsgi && Untouched(r) == Untouched(node)
  {
    node.(asgiHandlers := node.asgiHandlers[key := entry],
          pathParameters := node.pathParameters[key := route.PathParameters()])
  }

  /** Writing the entry for one more key extends the entries written so far. */
  lemma OverwrittenStep(node: TrieNode, route: Route, expected: map<string, HandlerTuple>,
                        done: set<string>, key: string)
    requires key in expected
    ensures WithEntry(Overwritten(node, route, Restrict(expected, done)), key, expected[key], route) ==
            Overwritten(node, route, Restrict(expected, done + {key}))
  {
    var before := Restrict(expected, done);
    var after := Restrict(expected, done + {key});
    assert after == before[key := expected[key]];
    assert (node.asgiHandlers + before)[key := expected[key]] == node.asgiHandlers + after;
    assert ParameterEntries(route, after.Keys) == ParameterEntries(route, before.Keys)[key := route.PathParameters()];
    assert (node.pathParameters + ParameterEntries(route, before.Keys))[key := route.PathParameters()] ==
      node.pathParameters + ParameterEntries(route, after.Keys);
  }

  /** Nothing written yet. */
  lemma OverwrittenNothing(node: TrieNode, route: Route, expected: map<string, HandlerTuple>)
    ensures Overwritten(node, route, Restrict(expected, {})) == node
  {
    assert Restrict(expected, {}) == map[];
    assert ParameterEntries(route, {}) == map[];
    assert node.asgiHandlers + map[] == node.asgiHandlers;
    assert node.pathParameters + map[] == node.pathParameters;
  }

  /** Once every key is done, the entries written are all of them. */
  lemma RestrictAll(m: map<string, HandlerTuple>, keys: set<string>)
    requires m.Keys <= keys
    ensures Restrict(m, keys) == m
  {
  }

  /** `Configuration` spelled out: `is_asgi` is only ever switched on, by an ASGI route. */
  lemma ConfigurationIs(route: Route, entries: map<string, HandlerTuple>, node: TrieNode)
    ensures route.kind.AsgiRoute? ==> Configuration(route, entries, node) == Overwritten(node, route, entries).(isAsgi := true)
    ensures !route.kind.AsgiRoute? ==> Configuration(route, entries, node) == Overwritten(node, route, entries)
  {
  }

  /** One more key done. */
  lemma DoneStep(all: set<string>, pending: set<string>, key: string)
    requires pending <= all && key in pending
    ensures all - pending + {key} == all - (pending - {key})
  {
  }

  /** Configuring a node with the entries its handlers expect stores, under each key
      the route writes, the stack composed from that key's layers paired with its
      handler, and the route's path parameters. */
  lemma ConfiguredStacks(app: AppConfig, route: Route, layers: map<string, seq<Layer>>,
                         expected: map<string, HandlerTuple>, node: TrieNode)
    requires Expects(app, route, layers, expected)
    ensures var after := Configuration(route, expected, node);
      forall key :: key in Written(route.kind) ==>
        && key in after.asgiHandlers
        && after.asgiHandlers[key] == HandlerTuple(ComposedStackOf(app, route, layers[key]), HandlerOf(route.kind, key))
        && key in after.pathParameters
        && after.pathParameters[key] == route.PathParameters()
  {
    ConfigurationMeaning(route, expected, node);
  }

  /** The stack composed for a handler is the one composed from its layers. */
  lemma StacksOfLayers(app: AppConfig, route: Route)
    ensures forall key :: key in Written(route.kind) ==>
      ComposedStack(app, route, HandlerOf(route.kind, key)) == ComposedStackOf(app, route, LayersByKey(route)[key])
  {
  }
}
