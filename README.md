# Starlite routing-trie builder and layered handler configuration, in Dafny

This project models two pieces of Starlite at application start-up.

The first is the **routing-trie builder** (`starlite/asgi/routing_trie/mapping.py`).
It inserts routes into a prefix tree of nodes, one route at a time:

- A **mount** route is walked component by component from the root, when its whole
  path is not yet a child of the root. Its node is flagged `is_mount` and
  `is_static`. Unless the path is "/", the node is also put under the whole path at
  the root. It is recorded in `mount_routes`.
- A **plain** route (no path parameters) is one child of the root, keyed by its whole
  path, and the path is recorded in `plain_routes`.
- A **parameterised** route descends one node per component. All parameters use the
  shared parameter sentinel as their key. The walk sets `is_path_param_node`,
  `child_keys` and `is_path_type` on the way.

The node reached is then configured by `configure_node`: for each HTTP method (or
"websocket", or "asgi") it stores an `ASGIHandlerTuple` and the route's path
parameters. The tuple holds the handler and the middleware stack
`build_route_middleware_stack` composes for it.

The second is the **layered configuration of a route handler**
(`starlite/handlers/base.py`). A handler belongs to a controller or router, which
belongs to a router or the application. The handler resolves its effective
middleware, guards, dependencies, exception handlers, type encoders and `opt` by
walking this ownership chain from the application down to itself.

Modules, one file each:

- `common.dfy` (`Common`): `Option`/`Result`, reversal, flattening of lists of
  lists, and the left-to-right merge of mappings (`dict.update` in a loop).
- `routes.dfy` (`Routes`): route descriptors: path, components and kind (HTTP,
  WebSocket, ASGI/mount).
- `handlers.dfy` (`Handlers`): ownership layers as values, the specification
  functions of each `resolve_*`, and the class `RouteHandler`, whose memo fields
  (`_resolved_*`) its methods update in place.
- `middleware_stack.dfy` (`MiddlewareStack`): the composed application as a tree of
  wrapper constructions, and `BuildRouteMiddlewareStack`.
- `trie_shape.dfy` (`TrieShape`): the trie's shape, i.e. every node's children map.
  It defines walks (`Follow`), growth (`Grows`), and the step lemmas of a walk that
  creates missing children.
- `trie_node.dfy` (`TrieNodes`): the node record, the flags a walk sets, and what
  `configure_node` writes (`Configuration`, `ConfiguredWith`).
- `routing_trie.dfy` (`RoutingTrie`): the class `RouteTrie` and the builder's
  methods. Its fields are the node arena, `plain_routes` and `mount_routes`.

The trie is an arena: `nodes[0]` is the root, and a child is an index into `nodes`.
`Valid()` says every child has a larger index than its parent, so the trie is
acyclic. The arena only ever grows.

Where the code and its documentation differ, the model follows the code:

- `resolve_exception_handlers` is documented as memoised but recomputes its mapping
  on every call. `ResolveExceptionHandlers` changes nothing.
- `_validate_dependency_is_unique` reports "already defined under the different
  key". It also raises when an equal provider is registered again under the same
  key. `DependencyPairFails` covers that case too.

## Model

| member | source | states |
|---|---|---|
| RoutingTrie.RouteTrie.AddRouteToTrie | starlite/asgi/routing_trie/mapping.py:57-119 | Uses the corrected mount insertion (see Findings). The trie between insertion and configuration (`inserted`) is what `InsertRoute` promises (`RouteInserted`): the route is found at `n`, the trie only grows, the shape changes only as `InsertedShape` says (children added only along the route's walk, plus the whole-path root edge of a plain route or a new mount other than "/"), a new mount is reachable along its components, the bookkeeping sets and attributes change only as stated, and `is_path_param_node` keeps marking exactly the nodes with a parameter child. Configuration keeps the shape and every other node, and changes only the handlers, path parameters and `is_asgi` of node `n`: the handler and path-parameter key sets grow by exactly the keys the route writes, every written key holds the handler tuple (composed stack and handler) and the route's path parameters, other keys keep their entries, and `is_asgi` is set for an ASGI route. So the final trie also only grows, finds the route at `n`, and keeps the parameter-node invariant. |
| RoutingTrie.RouteTrie.InsertRoute | starlite/asgi/routing_trie/mapping.py:81-117 | The three-way dispatch of `add_route_to_trie` (mount, plain, parameterised), with the corrected mount insertion, before configuration (`RouteInserted`). The route is found at `n` (`Located`) and the trie only grows; a route already present is found at the same node with the shape unchanged. A mount is recorded in `mount_routes` and flagged `is_mount`/`is_static`; a plain path is added to `plain_routes`; a parameterised route changes neither. The shape changes exactly as `InsertedShape` says: a plain route adds at most its root edge, a parameterised route adds children only along its walk, and a new mount other than "/" adds its walk and one root edge under its whole path, and is reachable along its components. Attributes change only as `InsertedAttributes` says. `is_path_param_node` holds exactly at nodes with a parameter-sentinel child afterwards when it did before. |
| RoutingTrie.RouteTrie.constructor | starlite/asgi/routing_trie/mapping.py:97 | A fresh trie is one node as `create_node` makes it (the root), with no children, no handlers and no flags set, with empty `plain_routes` and `mount_routes`. Its node flags hold: no node is a parameter node, and none has a parameter child. |
| TrieNodes.InsertedShapeLocated | starlite/asgi/routing_trie/mapping.py:39-116 | Any change of shape of the kind an insertion makes (a mount's walk plus its root edge, a plain root edge, or a parameterised walk) only grows the trie and leaves the route at the node its lookup finds. |
| TrieNodes.InsertedParamFlags | starlite/asgi/routing_trie/mapping.py:39-113 | Inserting any route, with the shape and attribute changes insertion makes, keeps the node invariant: `is_path_param_node` is set exactly on the nodes that have a parameter-sentinel child. |
| TrieNodes.MountParamFlags | starlite/asgi/routing_trie/mapping.py:39-50 | Inserting a mount keeps that invariant. Mount keys never use the sentinel, and the mount marks only `is_mount` and `is_static`. |
| TrieNodes.MountNodeParamFlag | starlite/asgi/routing_trie/mapping.py:40-50 | After a new mount path is walked and put under the root, each node is a parameter node exactly when it has a sentinel child. |
| TrieNodes.PlainParamFlags | starlite/asgi/routing_trie/mapping.py:94-98 | Inserting a plain route keeps the invariant: its only new edge is a literal key at the root, and no flag changes. |
| TrieNodes.WalkParamFlags | starlite/asgi/routing_trie/mapping.py:100-113 | The walk of a parameterised route keeps the invariant. |
| TrieNodes.WalkNodeParamFlag | starlite/asgi/routing_trie/mapping.py:101-113 | After that walk, a node is a parameter node exactly when it has a sentinel child: the walk marks a node exactly when it descends from it by the sentinel. |
| RoutingTrie.RouteTrie.AddPlainRoute | starlite/asgi/routing_trie/mapping.py:94-98 | `plain_routes` gains the path. The root has a child under the whole path, created only if missing, and that child is returned. No node attribute changes. |
| RoutingTrie.RouteTrie.EnsureChild | starlite/asgi/routing_trie/mapping.py:109-110 | If the key is missing, exactly one new empty node is appended under it. Otherwise nothing changes. Either way the child under the key is returned, and its index is larger than the parent's. |
| RoutingTrie.RouteTrie.Descend | starlite/asgi/routing_trie/mapping.py:101-116 | One component of the parameterised walk. It adds at most the child under the component's key (the sentinel for a parameter). The parent's `child_keys` equal its children's keys afterwards. The parent becomes a parameter node iff it was one or the component is a parameter. The child becomes a `Path` node iff it was one or the component is a `Path` parameter. No other node changes. |
| TrieNodes.DescentSteps | starlite/asgi/routing_trie/mapping.py:102-116 | Marking the parent (line 103), reusing or creating the child, refreshing `child_keys` (line 112) and marking a `Path` child (line 116) together make one descent step. |
| TrieNodes.FlagsStep | starlite/asgi/routing_trie/mapping.py:100-116 | One more descent keeps the flag invariant of the whole walk: each node descended from has fresh `child_keys` and the parameter flag of its component, each node reached has the `Path` flag of its component, and nodes off the walk keep their flags. |
| RoutingTrie.RouteTrie.InsertPathComponents | starlite/asgi/routing_trie/mapping.py:100-116 | The walk ends at the node that following the component keys from the root reaches. Children are added only along the walk. If the path was already present, the shape is unchanged. The flags are set as described for `FlagsStep`. |
| RoutingTrie.RouteTrie.InsertParameterised | starlite/asgi/routing_trie/mapping.py:100-116 | A route with path parameters is inserted by the component walk. It ends where `Located` finds the route, the trie only grows, and re-insertion changes no shape. Children are added only along the walk of its keys (`InsertedShape`, through `Walk`), and the walk flags are set on the nodes its keys lead through (`InsertedAttributes`). |
| RoutingTrie.RouteTrie.WalkMountComponents | starlite/asgi/routing_trie/mapping.py:41-44 | The mount walk from the root creates the missing children, keyed by the components themselves. It ends where following those keys leads. It adds children only along the walk and changes no node attribute. |
| RoutingTrie.RouteTrie.WalkMount | starlite/asgi/routing_trie/mapping.py:39-44 | For a mount whose whole path is not a child of the root, the walk follows the mount keys from the root to `n`, adding children only along that walk (`Walk`) and changing no attribute. It reaches a node other than the root exactly when the path is not "/". The whole path is still not a child of the root afterwards. |
| RoutingTrie.RouteTrie.MountNode | starlite/asgi/routing_trie/mapping.py:39-44 | The node a mount is put at. A mount at "/" is the root, and nothing changes. For another path that is already a root child, the node is that (non-root) child, and nothing changes. Otherwise it is the end of the component walk, a node other than the root, and children are added only along that walk (`Walk`). No attribute changes. |
| RoutingTrie.MountPathKeyIsFree | starlite/asgi/routing_trie/mapping.py:39-50 | For a well-formed mount path other than "/", the key of its first component differs from the whole-path key, so the walk cannot occupy the key line 50 writes. |
| RoutingTrie.RouteTrie.MarkMount | starlite/asgi/routing_trie/mapping.py:46-47 | Only node `n` changes: it gets `is_mount` set and `is_static` copied from the handler. |
| RoutingTrie.RouteTrie.SetRootChild | starlite/asgi/routing_trie/mapping.py:49-50 | Only the root's children change, gaining or replacing the one key. |
| RoutingTrie.RouteTrie.AddMountRoute | starlite/asgi/routing_trie/mapping.py:19-54 | Corrected `add_mount_route`. A mount at "/" is the root, and the shape does not change. For another path, the node is not the root and is the root's child under the whole path. A new mount ends where its component walk leads, and the shape changes by that walk plus the single root edge under the whole path (`InsertedShape`). The node is what `Located` finds and is recorded in `mount_routes`. Only that node changes attributes: it gets `is_mount` and `is_static` (`MountMarked`). A mount already present is found at the same node with the shape unchanged. The trie stays acyclic and only grows. |
| RoutingTrie.RouteTrie.AddMountRouteAsWritten | starlite/asgi/routing_trie/mapping.py:19-54 | `add_mount_route` as written. Only the mount node changes attributes, gaining `is_mount` and `is_static`. A mount at "/" is the root, and the shape does not change. When the whole path is not yet a root child, it behaves like the corrected version: the node is reachable along its components, the shape changes as `InsertedShape` says, the trie only grows and stays acyclic, and `Located` finds the node. When the path is already a root child, it returns the root itself and flags the root as the mount. For a path other than "/", it also puts the root under the path as its own child. |
| RoutingTrie.MountTwiceAsWritten | starlite/asgi/routing_trie/mapping.py:39-54 | Mounting "/static" twice on a fresh trie with the code as written: the first call returns a non-root node, the second returns the root. |
| RoutingTrie.MountTwice | starlite/asgi/routing_trie/mapping.py:39-54 | With the corrected builder, mounting "/static" twice returns the same non-root node both times. |
| RoutingTrie.AddRouteTwice | starlite/asgi/routing_trie/mapping.py:57-119 | Adding any route twice to a fresh trie, with the corrected mount insertion, returns the same node both times. |
| RoutingTrie.RouteTrie.ConfigureNode | starlite/asgi/routing_trie/mapping.py:122-164 | For each key the route writes (its HTTP methods, "websocket" or "asgi"), the node holds the tuple of the handler's composed stack and the handler, plus the route's path parameters (`Serves`). Keys the route does not write keep their entries. `is_asgi` is set exactly for an ASGI route (or stays set). Children, flags and all other nodes are unchanged, so the parameter-node invariant is kept. |
| RoutingTrie.Configure | starlite/asgi/routing_trie/mapping.py:137-164 | The three branches of `configure_node`, on the node's value, produce `Configuration` of the expected entries. |
| RoutingTrie.ConfigureMethods | starlite/asgi/routing_trie/mapping.py:142-149 | After the loop over the route handler map, every HTTP method's entry has been written over the node's mappings. |
| RoutingTrie.ConfigureMethod | starlite/asgi/routing_trie/mapping.py:143-149 | One method's iteration extends the entries written so far by that method's entry and path parameters. |
| RoutingTrie.ConfigureWebSocket | starlite/asgi/routing_trie/mapping.py:151-156 | A WebSocket route writes exactly the "websocket" entry and its path parameters. |
| RoutingTrie.ConfigureAsgi | starlite/asgi/routing_trie/mapping.py:158-164 | An ASGI route writes exactly the "asgi" entry and its path parameters, and sets `is_asgi`. |
| RoutingTrie.BuildEntry | starlite/asgi/routing_trie/mapping.py:145-148 | The tuple holds the stack composed from the handler's ownership layers, together with the handler. |
| TrieNodes.WithEntry | starlite/asgi/routing_trie/mapping.py:145-149 | Writing one key sets that key's handler tuple and path parameters and touches nothing else of the node. |
| TrieNodes.OverwrittenStep | starlite/asgi/routing_trie/mapping.py:143-149 | Writing one more key's entry equals writing the entries of all keys done so far plus that key. |
| TrieNodes.ConfigurationMeaning | starlite/asgi/routing_trie/mapping.py:139-164 | The configured node has the old keys plus the written ones in both mappings. Written keys hold the new entries and the route's path parameters. Other keys keep theirs. `is_asgi` is set only by an ASGI route. Nothing else changes. |
| TrieNodes.ConfiguredStacks | starlite/asgi/routing_trie/mapping.py:142-164 | With the expected entries, every written key holds the stack composed from that key's handler layers paired with the handler, and the route's path parameters. |
| TrieNodes.StacksOfLayers | starlite/asgi/routing_trie/mapping.py:145-148 | The stack built for a key's handler is the one composed from that handler's ownership layers. |
| TrieShape.AddsChildGrows | starlite/asgi/routing_trie/mapping.py:109-110 | Adding a missing child keeps the trie acyclic (children after parents). No existing edge changes, and at most one node is added. |
| TrieShape.FollowGrows | starlite/asgi/routing_trie/mapping.py:57-119 | Any path reachable before an insertion is still reachable afterwards, at the same node. |
| TrieShape.WalkStep | starlite/asgi/routing_trie/mapping.py:101-113 | A step of a creating walk keeps the trail linked and ascending, and keeps the growth only along the trail. |
| TrieShape.WalkStepExisting | starlite/asgi/routing_trie/mapping.py:109-110 | Walking a path that already exists adds no child. |
| TrieShape.WalkEnd | starlite/asgi/routing_trie/mapping.py:101-113 | A finished walk ends at the node that following its keys from the root reaches. |
| TrieShape.WalkTrail | starlite/asgi/routing_trie/mapping.py:101-113 | The nodes a finished walk went through are exactly those that following each prefix of its keys from the root reaches. |
| TrieShape.AddEdge | starlite/asgi/routing_trie/mapping.py:50 | Putting a later node under a new key at the root keeps the trie acyclic and growing. Re-putting the same edge changes nothing. |
| TrieShape.RootEdge | starlite/asgi/routing_trie/mapping.py:49-50 | Adding a child under a key the root lacks grows the shape, and removing that key again gives back the shape before. |
| TrieShape.WalkKey | starlite/asgi/routing_trie/mapping.py:101-113 | After a finished walk, a node the walk did not descend from keeps its children. A node it descended from has a child under a key exactly when it had one before or the walk descended by that key. |
| Routes.ParametersEmpty | starlite/asgi/routing_trie/mapping.py:84 | A route has no path parameters exactly when every component is a literal segment. |
| MiddlewareStack.BuildRouteMiddlewareStack | starlite/asgi/routing_trie/mapping.py:167-211 | The stack, outermost first: the exception-handler wrapper; every ownership layer's middleware in declaration order, application first; allowed hosts, compression and CSRF, each only when configured; the inner exception-handler wrapper; the route's `handle`. Both exception wrappers carry the resolved exception handlers and the app's `debug`. |
| MiddlewareStack.ComposedStackOrder | starlite/asgi/routing_trie/mapping.py:186-211 | The same layer order, stated for the stack composed from any list of ownership layers. |
| MiddlewareStack.StackOrder | starlite/asgi/routing_trie/mapping.py:186-211 | For any resolved handlers and middleware list, applying the reversed list around the application wrappers gives the list's middleware in its original order. |
| MiddlewareStack.ApplyAllOrder | starlite/asgi/routing_trie/mapping.py:199-204 | Applying middleware in list order puts the last entry outermost. A pair is applied with its keyword arguments. |
| MiddlewareStack.AppMiddlewareOrder | starlite/asgi/routing_trie/mapping.py:191-197 | The application-wide wrappers sit with allowed hosts outermost, then compression, then CSRF, each present only when configured. |
| Handlers.RouteHandler.constructor | starlite/handlers/base.py:105-124 | The settings are stored as given. `opt` is the given `opt` updated by `kwargs` (keyword arguments win). `paths` is `HandlerPaths`. There is no owner and no function, and every memo starts empty. |
| Handlers.HandlerPaths | starlite/handlers/base.py:118-122 | `paths` is never empty. A non-empty list gives exactly the normalised entries. A non-empty string gives its normalised form alone. No path, "" or [] gives the normalised "/". |
| Handlers.RouteHandler.HandlerName | starlite/handlers/base.py:126-139 | Fails with "handler function not set" exactly when there is no function. Otherwise it returns the function's name. |
| Handlers.RouteHandler.DependencyNameSet | starlite/handlers/base.py:141-145 | A name is in the set iff some ownership layer provides a dependency under it. |
| Handlers.DependencyNamesOf | starlite/handlers/base.py:141-145 | The names in the flattened dependency entries are exactly the names some layer declares. |
| Handlers.RouteHandler.OwnershipLayers | starlite/handlers/base.py:147-160 | The layers start with one that has no owner and end with the handler itself. Each layer is the owner of the next. |
| Handlers.LayersOfShape | starlite/handlers/base.py:147-160 | The reversed owner chain ends with the handler, starts with an ownerless layer and is linked by `owner`. |
| Handlers.ChainLinks | starlite/handlers/base.py:153-158 | The `while cur` loop collects the handler first, and each collected layer's owner is the next one, until a layer without an owner. |
| Handlers.RouteHandler.ResolveTypeEncoders | starlite/handlers/base.py:162-176 | The first call stores and returns the merge of every layer's type encoders, the closest layer winning. Later calls return the stored mapping. |
| Handlers.RouteHandler.ResolveGuards | starlite/handlers/base.py:195-205 | The first call stores and returns every layer's guards in ownership order, each wrapped in `AsyncCallable`. Later calls return the stored list. |
| Handlers.ResolvedGuardsPosition | starlite/handlers/base.py:197-203 | Guard `j` of layer `i` is resolved, wrapped, at its layer's offset plus `j`, after every guard of the layers above it. |
| Handlers.RouteHandler.ResolveDependencies | starlite/handlers/base.py:207-219 | The first call succeeds iff no entry repeats a provider that is already resolved, and then returns the fold of all layers' entries. A failure is a duplicate-provider error, and the memo keeps the entries resolved before the failing one. Later calls return the memo. |
| Handlers.RouteHandler.ResolveLayerDependencies | starlite/handlers/base.py:212-217 | One layer's entries extend the fold in order, stopping at the first duplicate provider. |
| Handlers.RouteHandler.ValidateDependencyIsUnique | starlite/handlers/base.py:259-267 | Raises exactly when the provider is already among the resolved values. The error names the new key and a key the provider is already resolved under. |
| Handlers.DependencyFoldStep | starlite/handlers/base.py:213-217 | A new provider is added under its key, overriding the key. A provider already resolved stops the resolution and keeps the mapping as it was. |
| Handlers.DependencyFoldKeys | starlite/handlers/base.py:207-219 | On success, the resolved keys are exactly the keys of all layers' entries. |
| Handlers.DependencyFoldOverrides | starlite/handlers/base.py:207-219 | On success, each key maps to the provider of its last entry, so closer layers override outer ones. |
| Handlers.DependencyPairFails | starlite/handlers/base.py:207-219 | If an entry repeats the provider of an earlier entry whose key has not been given again since, the resolution raises. |
| Handlers.DependencyFailureWitness | starlite/handlers/base.py:207-219 | Conversely, whenever the resolution raises, such a pair of entries exists. |
| Handlers.FoldFailedExtends | starlite/handlers/base.py:209-219 | Once an entry raises, the later entries change neither the outcome nor the resolved mapping. |
| Handlers.RouteHandler.ResolveMiddleware | starlite/handlers/base.py:221-229 | Returns the reversal of all layers' middleware concatenated in ownership order, application first. Nothing changes. |
| Handlers.ResolvedMiddlewarePosition | starlite/handlers/base.py:221-229 | Item `j` of layer `i` sits at its layer's offset plus `j`, counted from the end of the resolved list. |
| Handlers.ResolvedMiddlewareEnds | starlite/handlers/base.py:221-229 | The resolved list starts with the handler's last middleware and ends with the outermost layer's first middleware. |
| Handlers.RouteHandler.ResolveExceptionHandlers | starlite/handlers/base.py:231-239 | A key is resolved iff some layer declares it, and the handler's own entries win. Nothing changes. |
| Handlers.ExceptionHandlersMerged | starlite/handlers/base.py:231-239 | The merge holds exactly the keys some layer declares, and the last (closest) layer's entries win. |
| Handlers.RouteHandler.ResolveOpts | starlite/handlers/base.py:241-252 | `opt` becomes the merge of every layer's `opt`, the closest layer winning. Nothing else changes. |
| Common.MergeMapsKeys | starlite/handlers/base.py:236-238 | A key is in the left-to-right merge of mappings iff one of the mappings has it. |
| Common.MergeMapsLastWins | starlite/handlers/base.py:248-250 | A key takes its value from the last mapping that has it. |
| Common.FlattenAt | starlite/handlers/base.py:226-228 | Item `j` of list `i` sits at offset `i` plus `j` in the concatenation. |
| Common.OffsetMonotone | starlite/handlers/base.py:200-201 | Each list's items come before those of every later list in the concatenation. |
| Common.FlattenContains | starlite/handlers/base.py:144-145 | An item is in the concatenation iff one of the lists holds it. |
| Common.ReversedReversed | starlite/handlers/base.py:229 | Reversing twice gives the original list. The stack builder's loop undoes the reversal `resolve_middleware` makes. |

## Left out

- `starlite/asgi/routing_trie/types.py` is not part of this model. `RouteTrieNode`,
  `create_node` and `PathParameterSentinel` are modelled from how the builder uses
  them.
- The trie nodes are stored in an arena (a `seq` of node values with child indices)
  rather than as mutable objects that alias one another. Updating a node in place is
  modelled as replacing the arena entry.
- `configure_node` computes the new node from the node's value (`Configure`), and
  `ConfigureNode` writes it back.
- RoutingTrie.RouteTrie.AddRouteToTrie, RoutingTrie.RouteTrie.InsertRoute and
  RoutingTrie.AddRouteTwice use the corrected mount insertion (`AddMountRoute`). With
  `add_mount_route` as written, a second mount of a path other than "/" returns the
  root (`MountTwiceAsWritten`), so those contracts do not hold for the code as
  written.
- Middleware classes (`ExceptionHandlerMiddleware` via `wrap_in_exception_handler`,
  CSRF, compression, allowed hosts, user middleware) and `route.handle` are
  represented as opaque constructor tags. Only the order and settings of wrapping are
  modelled, not what they do to requests.
- The application's CSRF, compression and allowed-hosts settings are modelled as
  present or absent (`Option`). Python truthiness of an empty but present value is
  not distinguished.
- The routes' handle logic, path parsing and `normalize_path` are outside the model.
  `normalize_path` is a parameter of the constructor.
- `get_name(unwrap_partial(fn))` is abstracted as the handler function's `name`
  field.
- Request-time behaviour is not modelled: path resolution through the trie,
  `authorize_connection` (running the guards) and the middleware running.
- `resolve_layered_parameters`, `signature_model`, `_validate_handler_function` and
  `__str__` are not modelled: they depend on the signature-parsing code, which is not
  part of this model.
- The owner chain is a value (`Layer.owner`) rather than a chain of mutable
  controllers and routers. Each layer's `None` settings are treated as empty, as the
  source does with `or {}` / `or []`.
- Providers, guards, encoders and exception handlers are opaque values compared by
  equality. Python `==` on `Provide` objects is modelled as value equality.
- `RoutingTrie.ConfigureMethods`: the HTTP methods of a route are visited in an
  arbitrary order rather than dict insertion order. This makes no difference, since
  each method writes its own key.
- `child_keys` is refreshed only by the parameterised walk, as in the source. The
  plain and mount insertions leave it as it was, and the model states that they do
  not change it.
- Concurrency and the immutability of the trie after start-up are not modelled; the
  trie is built by sequential calls.

## Findings

| source | as written | input that shows it | evidently intended | confidence | as-written member | corrected member |
|---|---|---|---|---|---|---|
| starlite/asgi/routing_trie/mapping.py:39-54 | When the mount's whole path, other than "/", is already a child of the root, the component walk is skipped and `current_node` is still the root. The root is then flagged `is_mount` and `is_static`, recorded in `mount_routes`, and stored under the path as its own child (`root.children[path] = root`). | Add the mount route "/static" (one component "static") to a fresh trie twice. The second call returns the root instead of the node the first call created. | For a path other than "/", reuse the existing child `root.children[path]` as the mount node, so a repeated mount returns the same node and the trie stays acyclic. A mount at "/" is the root either way, and that case has no bug. | not executed | RoutingTrie.MountTwiceAsWritten | RoutingTrie.MountTwice |
