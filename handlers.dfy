/**
 * The layered configuration of a route handler (`BaseRouteHandler`).
 *
 * A handler is owned by a controller or router, which is owned by a router or the
 * application, and so on. Each of these layers may declare middleware, guards,
 * dependencies, exception handlers, type encoders and `opt` values; the handler
 * resolves the effective settings by walking the owner chain from the application
 * down to itself. The owner chain is modelled as a value (`Layer.owner`), the
 * handler itself as a class whose memo fields (`_resolved_*`) are updated in place.
 */
module Handlers {
  import opened Common

  /** An entry of a `middleware` list: a factory called as `factory(app=...)`,
      or a `(factory, kwargs)` pair called as `factory(app=..., **kwargs)`. */
  datatype Middleware = Plain(factory: string) | WithKwargs(factory: string, kwargs: map<string, string>)

  /** Keys of an exception-handlers mapping: a status code or an exception class. */
  datatype ExceptionKey = StatusCode(code: int) | ExceptionType(className: string)

  /** Opaque callables and values, compared by identity (Python `==` on them). */
  type ExceptionHandler = string
  type Guard = string
  type Provider = string
  type TypeTag = string
  type Encoder = string
  type OptValue = string

  /** `AsyncCallable(guard)`: the wrapper every resolved guard is put in. */
  datatype AsyncGuard = AsyncCallable(guard: Guard)

  /** The function a handler decorates; `name` stands for `get_name(unwrap_partial(fn.value))`. */
  datatype HandlerFn = HandlerFn(name: string)

  /** `ImproperlyConfiguredException`, with the two causes raised here. */
  datatype ImproperlyConfigured =
    | HandlerFnNotSet
    | DuplicateProvider(key: string, definedUnder: string)

  datatype Outcome<+E> = Pass | Fail(error: E)

  /**
   * The settings of one ownership layer (application, router, controller or the
   * handler itself) and its owner. A `None` setting in the source behaves as the
   * empty list or mapping everywhere it is read (`layer.x or {}`), so it is modelled
   * as one. A layer's `dependencies` mapping keeps its insertion order, which
   * decides which duplicate provider is reported first.
   */
  datatype Layer = Layer(
    dependencies: seq<(string, Provider)>,
    exceptionHandlers: map<ExceptionKey, ExceptionHandler>,
    guards: seq<Guard>,
    middleware: seq<Middleware>,
    opt: map<string, OptValue>,
    typeEncoders: map<TypeTag, Encoder>,
    owner: Option<Layer>)

  /** The layers met by following `owner` links from `o` until there is none, closest first. */
  function Chain(o: Option<Layer>): seq<Layer>
    decreases o
  {
    match o
    case None => []
    case Some(l) => [l] + Chain(l.owner)
  }

  /** `ownership_layers` of a handler whose own settings are `own`: outermost layer first. */
  function LayersOf(own: Layer): seq<Layer>
  {
    Reversed(Chain(Some(own)))
  }

  lemma {:induction false} ChainLinks(o: Option<Layer>)
    ensures o.Some? ==> |Chain(o)| >= 1 && Chain(o)[0] == o.value
    ensures |Chain(o)| >= 1 ==> Chain(o)[|Chain(o)| - 1].owner == None
    ensures forall i :: 0 <= i < |Chain(o)| - 1 ==> Chain(o)[i].owner == Some(Chain(o)[i + 1])
    decreases o
  {
    match o
    case None =>
    case Some(l) =>
      ChainLinks(l.owner);
  }

  /** `ownership_layers` ends with the handler itself, starts with a layer that has no
      owner, and every layer is the owner of the one after it. */
  lemma {:induction false} LayersOfShape(own: Layer)
    ensures |LayersOf(own)| == |Chain(Some(own))| >= 1
    ensures LayersOf(own)[|LayersOf(own)| - 1] == own
    ensures LayersOf(own)[0].owner == None
    ensures forall i :: 0 <= i < |LayersOf(own)| - 1 ==> LayersOf(own)[i + 1].owner == Some(LayersOf(own)[i])
  {
    ChainLinks(Some(own));
    var c := Chain(Some(own));
    var ls := LayersOf(own);
    forall i | 0 <= i < |ls| - 1 ensures ls[i + 1].owner == Some(ls[i]) {
      assert ls[i + 1] == c[|c| - 2 - i] && ls[i] == c[|c| - 1 - i];
    }
  }

  function MiddlewareLists(ls: seq<Layer>): seq<seq<Middleware>>
  {
    seq(|ls|, i requires 0 <= i < |ls| => ls[i].middleware)
  }

  function GuardLists(ls: seq<Layer>): seq<seq<Guard>>
  {
    seq(|ls|, i requires 0 <= i < |ls| => ls[i].guards)
  }

  function DependencyLists(ls: seq<Layer>): seq<seq<(string, Provider)>>
  {
    seq(|ls|, i requires 0 <= i < |ls| => ls[i].dependencies)
  }

  function ExceptionHandlerMaps(ls: seq<Layer>): seq<map<ExceptionKey, ExceptionHandler>>
  {
    seq(|ls|, i requires 0 <= i < |ls| => ls[i].exceptionHandlers)
  }

  function OptMaps(ls: seq<Layer>): seq<map<string, OptValue>>
  {
    seq(|ls|, i requires 0 <= i < |ls| => ls[i].opt)
  }

  function TypeEncoderMaps(ls: seq<Layer>): seq<map<TypeTag, Encoder>>
  {
    seq(|ls|, i requires 0 <= i < |ls| => ls[i].typeEncoders)
  }

  /** What `resolve_middleware` returns for layers `ls`. */
  function ResolvedMiddleware(ls: seq<Layer>): seq<Middleware>
  {
    Reversed(Flatten(MiddlewareLists(ls)))
  }

  /** Item `j` of layer `i`'s middleware lands at a fixed position counted from the END
      of the resolved list: the application's first middleware is last, the handler's
      last middleware first, and a closer layer's items all precede an outer layer's. */
  lemma ResolvedMiddlewarePosition(ls: seq<Layer>, i: nat, j: nat)
    requires i < |ls| && j < |ls[i].middleware|
    ensures Offset(MiddlewareLists(ls), i) + j < |ResolvedMiddleware(ls)|
    ensures ResolvedMiddleware(ls)[|ResolvedMiddleware(ls)| - 1 - (Offset(MiddlewareLists(ls), i) + j)]
            == ls[i].middleware[j]
  {
    FlattenAt(MiddlewareLists(ls), i, j);
  }

  /** The resolved middleware starts with the handler's last middleware and ends with
      the outermost layer's first middleware. */
  lemma ResolvedMiddlewareEnds(own: Layer)
    ensures var r := ResolvedMiddleware(LayersOf(own));
      own.middleware != [] ==> r != [] && r[0] == own.middleware[|own.middleware| - 1]
    ensures var r := ResolvedMiddleware(LayersOf(own));
      LayersOf(own)[0].middleware != [] ==> r != [] && r[|r| - 1] == LayersOf(own)[0].middleware[0]
  {
    var ls := LayersOf(own);
    LayersOfShape(own);
    var xss := MiddlewareLists(ls);
    var n := |ls| - 1;
    if own.middleware != [] {
      var j := |own.middleware| - 1;
      ResolvedMiddlewarePosition(ls, n, j);
      assert xss[..n + 1] == xss;
      assert Flatten(xss) == Flatten(xss[..n]) + xss[n];
    }
    if ls[0].middleware != [] {
      ResolvedMiddlewarePosition(ls, 0, 0);
      assert xss[..0] == [];
    }
  }

  /** What `resolve_exception_handlers` returns for layers `ls`. */
  function ResolvedExceptionHandlers(ls: seq<Layer>): map<ExceptionKey, ExceptionHandler>
  {
    MergeMaps(ExceptionHandlerMaps(ls))
  }

  /** The merged exception handlers hold every key some layer declares, and the last
      (closest) layer's entries win. */
  lemma ExceptionHandlersMerged(ls: seq<Layer>)
    ensures forall k :: k in ResolvedExceptionHandlers(ls) <==>
      exists i :: 0 <= i < |ls| && k in ls[i].exceptionHandlers
    ensures |ls| > 0 ==> forall k :: k in ls[|ls| - 1].exceptionHandlers ==>
      k in ResolvedExceptionHandlers(ls) && ResolvedExceptionHandlers(ls)[k] == ls[|ls| - 1].exceptionHandlers[k]
  {
    var maps := ExceptionHandlerMaps(ls);
    forall k ensures k in MergeMaps(maps) <==> exists i :: 0 <= i < |ls| && k in ls[i].exceptionHandlers {
      MergeMapsKeys(maps, k);
      if k in MergeMaps(maps) {
        var i :| 0 <= i < |maps| && k in maps[i];
        assert k in ls[i].exceptionHandlers;
      }
      if exists i :: 0 <= i < |ls| && k in ls[i].exceptionHandlers {
        var i :| 0 <= i < |ls| && k in ls[i].exceptionHandlers;
        assert k in maps[i];
      }
    }
    if |ls| > 0 {
      forall k | k in ls[|ls| - 1].exceptionHandlers
        ensures k in MergeMaps(maps) && MergeMaps(maps)[k] == ls[|ls| - 1].exceptionHandlers[k]
      {
        MergeMapsLastWins(maps, |ls| - 1, k);
      }
    }
  }

  /** What `resolve_opts` stores in `opt` for layers `ls`. */
  function ResolvedOpt(ls: seq<Layer>): map<string, OptValue>
  {
    MergeMaps(OptMaps(ls))
  }

  /** What `resolve_type_encoders` computes on its first call for layers `ls`. */
  function ResolvedTypeEncoders(ls: seq<Layer>): map<TypeTag, Encoder>
  {
    MergeMaps(TypeEncoderMaps(ls))
  }

  /** `[AsyncCallable(g) for g in gs]`. */
  function WrapGuards(gs: seq<Guard>): (r: seq<AsyncGuard>)
  {
    seq(|gs|, i requires 0 <= i < |gs| => AsyncCallable(gs[i]))
  }

  /** What `resolve_guards` computes on its first call for layers `ls`. */
  function ResolvedGuards(ls: seq<Layer>): seq<AsyncGuard>
  {
    WrapGuards(Flatten(GuardLists(ls)))
  }

  /** Every guard of every layer is resolved, wrapped, in ownership order: guard `j` of
      layer `i` sits at its offset, after all guards of the layers above it. */
  lemma ResolvedGuardsPosition(ls: seq<Layer>, i: nat, j: nat)
    requires i < |ls| && j < |ls[i].guards|
    ensures Offset(GuardLists(ls), i) + j < |ResolvedGuards(ls)|
    ensures ResolvedGuards(ls)[Offset(GuardLists(ls), i) + j] == AsyncCallable(ls[i].guards[j])
    ensures forall k :: 0 <= k < i ==> Offset(GuardLists(ls), k) + |ls[k].guards| <= Offset(GuardLists(ls), i)
  {
    FlattenAt(GuardLists(ls), i, j);
    forall k | 0 <= k < i ensures Offset(GuardLists(ls), k) + |ls[k].guards| <= Offset(GuardLists(ls), i) {
      OffsetMonotone(GuardLists(ls), k, i);
    }
  }

  /** The `(key, provider)` pairs of all layers, in the order `resolve_dependencies` visits them. */
  function DependencyEntries(ls: seq<Layer>): seq<(string, Provider)>
  {
    Flatten(DependencyLists(ls))
  }

  /**
   * The state of `resolve_dependencies` after visiting `es`: the dependencies resolved
   * so far, and whether every entry passed `_validate_dependency_is_unique`. The loop
   * stops at the first entry whose provider is already among the resolved values
   * (under any key, its own included), leaving the map as it was before that entry.
   */
  function DependencyFold(es: seq<(string, Provider)>): (map<string, Provider>, bool)
  {
    if es == [] then (map[], true)
    else
      var prev := DependencyFold(es[..|es| - 1]);
      var entry := es[|es| - 1];
      if !prev.1 || entry.1 in prev.0.Values then (prev.0, false)
      else (prev.0[entry.0 := entry.1], true)
  }

  /** `i` is the last entry of `es` for its key. */
  ghost predicate LastForKey(es: seq<(string, Provider)>, i: int)
  {
    0 <= i < |es| && forall m :: i < m < |es| ==> es[m].0 != es[i].0
  }

  /** One step of the fold: an entry whose provider is new is added (overriding its key);
      one whose provider is already resolved stops the fold, keeping the map as it was. */
  lemma DependencyFoldStep(es: seq<(string, Provider)>, e: (string, Provider), acc: map<string, Provider>)
    requires DependencyFold(es) == (acc, true)
    ensures e.1 !in acc.Values ==> DependencyFold(es + [e]) == (acc[e.0 := e.1], true)
    ensures e.1 in acc.Values ==> DependencyFold(es + [e]) == (acc, false)
  {
    assert (es + [e])[..|es|] == es;
  }

  /** When no duplicate is met, the result holds exactly the keys of all entries. */
  lemma {:induction false} DependencyFoldKeys(es: seq<(string, Provider)>)
    requires DependencyFold(es).1
    ensures forall k :: k in DependencyFold(es).0 <==> exists i :: 0 <= i < |es| && es[i].0 == k
    decreases |es|
  {
    if es != [] {
      var n := |es| - 1;
      var init := es[..n];
      assert es == init + [es[n]];
      DependencyFoldKeys(init);
      var acc := DependencyFold(init).0;
      DependencyFoldStep(init, es[n], acc);
      forall k ensures k in DependencyFold(es).0 <==> exists i :: 0 <= i < |es| && es[i].0 == k {
        if k in acc {
          var i :| 0 <= i < |init| && init[i].0 == k;
          assert es[i].0 == k;
        }
        if exists i :: 0 <= i < |es| && es[i].0 == k {
          var i :| 0 <= i < |es| && es[i].0 == k;
          if i < n {
            assert init[i].0 == k;
          }
        }
      }
    }
  }

  /** When no duplicate is met, each key maps to the provider of its last entry: closer
      layers override outer ones by key. */
  lemma {:induction false} DependencyFoldOverrides(es: seq<(string, Provider)>)
    requires DependencyFold(es).1
    ensures forall i :: LastForKey(es, i) ==> es[i].0 in DependencyFold(es).0 && DependencyFold(es).0[es[i].0] == es[i].1
    decreases |es|
  {
    if es != [] {
      var n := |es| - 1;
      var init := es[..n];
      assert es == init + [es[n]];
      DependencyFoldOverrides(init);
      var acc := DependencyFold(init).0;
      DependencyFoldStep(init, es[n], acc);
      var res := DependencyFold(es).0;
      forall i | LastForKey(es, i) ensures es[i].0 in res && res[es[i].0] == es[i].1 {
        if i < n {
          assert es[n].0 != es[i].0;
          assert LastForKey(init, i);
        }
      }
    }
  }

  /** An entry that repeats the provider of an earlier entry whose key has not been
      given again in between makes `resolve_dependencies` raise; so does re-registering
      an equal provider under the same key. */
  lemma DependencyPairFails(es: seq<(string, Provider)>, i: nat, j: nat)
    requires i < j < |es| && es[i].1 == es[j].1 && LastForKey(es[..j], i)
    ensures !DependencyFold(es).1
  {
    var upto := es[..j + 1];
    assert upto == es[..j] + [es[j]];
    if DependencyFold(es[..j]).1 {
      DependencyFoldOverrides(es[..j]);
      DependencyFoldStep(es[..j], es[j], DependencyFold(es[..j]).0);
    } else {
      assert upto[..j] == es[..j];
    }
    assert !DependencyFold(upto).1;
    FoldFailedExtends(upto, es);
  }

  /** Conversely, whenever `resolve_dependencies` raises, such a pair of entries exists. */
  lemma {:induction false} DependencyFailureWitness(es: seq<(string, Provider)>)
    requires !DependencyFold(es).1
    ensures exists i, j :: 0 <= i < j < |es| && es[i].1 == es[j].1 && LastForKey(es[..j], i)
    decreases |es|
  {
    var n := |es| - 1;
    var init := es[..n];
    if !DependencyFold(init).1 {
      DependencyFailureWitness(init);
      var i, j :| 0 <= i < j < |init| && init[i].1 == init[j].1 && LastForKey(init[..j], i);
      assert es[..j] == init[..j];
      assert es[i].1 == es[j].1 && LastForKey(es[..j], i);
    } else {
      assert es == init + [es[n]];
      DependencyFoldStep(init, es[n], DependencyFold(init).0);
      var i := RepeatedProviderEntry(init, es[n].1);
      assert es[..n] == init;
      assert es[i].1 == es[n].1 && LastForKey(es[..n], i);
    }
  }

  /** A provider among the values resolved from `es` is that of the last entry for some key. */
  lemma RepeatedProviderEntry(es: seq<(string, Provider)>, provider: Provider) returns (i: nat)
    requires DependencyFold(es).1 && provider in DependencyFold(es).0.Values
    ensures LastForKey(es, i) && es[i].1 == provider
  {
    DependencyFoldKeys(es);
    DependencyFoldOverrides(es);
    var acc := DependencyFold(es).0;
    var k :| k in acc && acc[k] == provider;
    var i0 :| 0 <= i0 < |es| && es[i0].0 == k;
    i := LastIndexForKey(es, i0);
  }

  /** The last entry of `es` with the same key as entry `i`. */
  lemma {:induction false} LastIndexForKey(es: seq<(string, Provider)>, i: nat) returns (last: nat)
    requires i < |es|
    ensures i <= last && LastForKey(es, last) && es[last].0 == es[i].0
    decreases |es| - i
  {
    if exists m :: i < m < |es| && es[m].0 == es[i].0 {
      var m :| i < m < |es| && es[m].0 == es[i].0;
      last := LastIndexForKey(es, m);
    } else {
      last := i;
    }
  }

  /** The `path` argument of the constructor: absent, one string, or a list of strings. */
  datatype PathArg = NoPath | Single(path: string) | Many(paths: seq<string>)

  /** The `paths` set the constructor computes, `normalize` standing for `normalize_path`.
      It is never empty; a non-empty list gives the normalised form of each entry, a
      non-empty string its normalised form, and anything else (no path, an empty string
      or an empty list) the normalised "/". */
  function HandlerPaths(path: PathArg, normalize: string -> string): (r: set<string>)
    ensures r != {}
    ensures path.Many? && path.paths != [] ==>
      (forall q :: q in path.paths ==> normalize(q) in r) && (forall p :: p in r ==> exists q :: q in path.paths && p == normalize(q))
    ensures !(path.Many? && path.paths != []) ==> |r| == 1
    ensures path.Single? && path.path != "" ==> r == {normalize(path.path)}
    ensures path.NoPath? || path == Single("") || path == Many([]) ==> r == {normalize("/")}
  {
    if path.Many? && path.paths != [] then
      var r := set q | q in path.paths :: normalize(q);
      assert normalize(path.paths[0]) in r;
      r
    else
      var given := if path.Single? && path.path != "" then path.path else "/";
      {normalize(given)}
  }

  class RouteHandler {
    var dependencies: seq<(string, Provider)>
    var exceptionHandlers: map<ExceptionKey, ExceptionHandler>
    var guards: seq<Guard>
    var middleware: seq<Middleware>
    var name: Option<string>
    var opt: map<string, OptValue>
    var owner: Option<Layer>
    var paths: set<string>
    var typeEncoders: map<TypeTag, Encoder>
    var fn: Option<HandlerFn>
    var resolvedDependencies: Option<map<string, Provider>>
    var resolvedGuards: Option<seq<AsyncGuard>>
    var resolvedTypeEncoders: Option<map<TypeTag, Encoder>>

    /** This handler's own settings as a layer. */
    function AsLayer(): Layer
      reads this
    {
      Layer(dependencies, exceptionHandlers, guards, middleware, opt, typeEncoders, owner)
    }

    /** The specification of `ownership_layers`. */
    function Layers(): seq<Layer>
      reads this
    {
      LayersOf(AsLayer())
    }

    /** `__init__`: stores the settings, merges `kwargs` into `opt` (keyword arguments
        win) and computes `paths`; the memo fields start out `Empty`. */
    constructor (path: PathArg, dependencies: seq<(string, Provider)>,
                 exceptionHandlers: map<ExceptionKey, ExceptionHandler>, guards: seq<Guard>,
                 middleware: seq<Middleware>, name: Option<string>, opt: map<string, OptValue>,
                 typeEncoders: map<TypeTag, Encoder>, kwargs: map<string, OptValue>,
                 normalize: string -> string)
      ensures this.dependencies == dependencies && this.exceptionHandlers == exceptionHandlers
      ensures this.guards == guards && this.middleware == middleware && this.name == name
      ensures this.typeEncoders == typeEncoders
      ensures this.opt.Keys == opt.Keys + kwargs.Keys
      ensures forall k :: k in kwargs ==> this.opt[k] == kwargs[k]
      ensures forall k :: k in opt && k !in kwargs ==> this.opt[k] == opt[k]
      ensures paths == HandlerPaths(path, normalize)
      ensures owner == None && fn == None
      ensures resolvedDependencies == None && resolvedGuards == None && resolvedTypeEncoders == None
    {
      this.resolvedDependencies := None;
      this.resolvedGuards := None;
      this.resolvedTypeEncoders := None;
      this.dependencies := dependencies;
      this.exceptionHandlers := exceptionHandlers;
      this.guards := guards;
      this.middleware := middleware;
      this.name := name;
      this.opt := opt;
      this.owner := None;
      this.fn := None;
      this.paths := HandlerPaths(path, normalize);
      this.opt := this.opt + kwargs;
      this.typeEncoders := typeEncoders;
    }

    /** `handler_name`: raises when the handler function is not set. */
    function HandlerName(): (r: Result<string, ImproperlyConfigured>)
      reads this
      ensures r.Failure? <==> fn.None?
      ensures r.Failure? ==> r.error == HandlerFnNotSet
      ensures r.Success? ==> r.value == fn.value.name
    {
      match fn
      case None => Failure(HandlerFnNotSet)
      case Some(f) => Success(f.name)
    }

    /** `dependency_name_set`: the names provided by any ownership layer. */
    function DependencyNameSet(): (r: set<string>)
      reads this
      ensures forall name :: name in r <==>
        exists i, e :: 0 <= i < |Layers()| && e in Layers()[i].dependencies && e.0 == name
    {
      var ls := Layers();
      DependencyNamesOf(ls);
      DependencyNames(ls)
    }

    /** `ownership_layers`: follows `owner` links from the handler, then reverses. */
    method OwnershipLayers() returns (layers: seq<Layer>)
      ensures layers == Layers()
      ensures |layers| >= 1 && layers[|layers| - 1] == AsLayer() && layers[0].owner == None
      ensures forall i :: 0 <= i < |layers| - 1 ==> layers[i + 1].owner == Some(layers[i])
    {
      var collected: seq<Layer> := [];
      var cur: Option<Layer> := Some(AsLayer());
      while cur.Some?
        invariant collected + Chain(cur) == Chain(Some(AsLayer()))
        decreases cur
      {
        collected := collected + [cur.value];
        cur := cur.value.owner;
      }
      layers := Reversed(collected);
      LayersOfShape(AsLayer());
    }

    /** `resolve_middleware`: every layer's middleware, application first, then reversed. */
    method ResolveMiddleware() returns (resolved: seq<Middleware>)
      ensures resolved == ResolvedMiddleware(Layers())
    {
      var layers := OwnershipLayers();
      var acc: seq<Middleware> := [];
      var lists := MiddlewareLists(layers);
      for i := 0 to |layers|
        invariant acc == Flatten(lists[..i])
      {
        assert lists[..i + 1][..i] == lists[..i];
        acc := acc + layers[i].middleware;
      }
      assert lists[..|layers|] == lists;
      resolved := Reversed(acc);
    }

    /** `resolve_exception_handlers`: the merge of every layer's mapping; every key of
        every layer is present, and the handler's own entries win. */
    method ResolveExceptionHandlers() returns (resolved: map<ExceptionKey, ExceptionHandler>)
      ensures resolved == ResolvedExceptionHandlers(Layers())
      ensures forall k :: k in resolved <==> exists i :: 0 <= i < |Layers()| && k in Layers()[i].exceptionHandlers
      ensures forall k :: k in exceptionHandlers ==> k in resolved && resolved[k] == exceptionHandlers[k]
    {
      var layers := OwnershipLayers();
      var maps := ExceptionHandlerMaps(layers);
      resolved := map[];
      for i := 0 to |layers|
        invariant resolved == MergeMaps(maps[..i])
      {
        assert maps[..i + 1][..i] == maps[..i];
        resolved := resolved + layers[i].exceptionHandlers;
      }
      assert maps[..|layers|] == maps;
      ExceptionHandlersMerged(layers);
    }

    /** `resolve_opts`: replaces `opt` with the merge of every layer's `opt`, the closest
        layer winning; nothing else changes. */
    method ResolveOpts()
      modifies this`opt
      ensures opt == ResolvedOpt(old(Layers()))
    {
      var layers := OwnershipLayers();
      var maps := OptMaps(layers);
      var merged: map<string, OptValue> := map[];
      for i := 0 to |layers|
        invariant merged == MergeMaps(maps[..i])
      {
        assert maps[..i + 1][..i] == maps[..i];
        merged := merged + layers[i].opt;
      }
      assert maps[..|layers|] == maps;
      opt := merged;
    }

    /** `resolve_type_encoders`: computed on the first call only; later calls return the
        stored mapping unchanged. */
    method ResolveTypeEncoders() returns (resolved: map<TypeTag, Encoder>)
      modifies this`resolvedTypeEncoders
      ensures old(resolvedTypeEncoders).Some? ==> resolved == old(resolvedTypeEncoders).value
      ensures old(resolvedTypeEncoders).None? ==> resolved == ResolvedTypeEncoders(Layers())
      ensures resolvedTypeEncoders == Some(resolved)
    {
      if resolvedTypeEncoders.None? {
        var layers := OwnershipLayers();
        var maps := TypeEncoderMaps(layers);
        var merged: map<TypeTag, Encoder> := map[];
        for i := 0 to |layers|
          invariant merged == MergeMaps(maps[..i])
        {
          assert maps[..i + 1][..i] == maps[..i];
          merged := merged + layers[i].typeEncoders;
        }
        assert maps[..|layers|] == maps;
        resolvedTypeEncoders := Some(merged);
      }
      resolved := resolvedTypeEncoders.value;
    }

    /** `resolve_guards`: every layer's guards in ownership order, each wrapped in
        `AsyncCallable`; computed on the first call only. */
    method ResolveGuards() returns (resolved: seq<AsyncGuard>)
      modifies this`resolvedGuards
      ensures old(resolvedGuards).Some? ==> resolved == old(resolvedGuards).value
      ensures old(resolvedGuards).None? ==> resolved == ResolvedGuards(Layers())
      ensures resolvedGuards == Some(resolved)
    {
      if resolvedGuards.None? {
        var layers := OwnershipLayers();
        var lists := GuardLists(layers);
        var collected: seq<Guard> := [];
        for i := 0 to |layers|
          invariant collected == Flatten(lists[..i])
        {
          assert lists[..i + 1][..i] == lists[..i];
          collected := collected + layers[i].guards;
        }
        assert lists[..|layers|] == lists;
        resolvedGuards := Some(WrapGuards(collected));
      }
      resolved := resolvedGuards.value;
    }

    /** `resolve_dependencies`: computed on the first call only. The first call raises
        when an entry repeats a provider already resolved; the memo field then keeps the
        dependencies resolved before that entry, and later calls return them. */
    method ResolveDependencies() returns (resolved: Result<map<string, Provider>, ImproperlyConfigured>)
      modifies this`resolvedDependencies
      ensures old(resolvedDependencies).Some? ==>
        resolved == Success(old(resolvedDependencies).value) && resolvedDependencies == old(resolvedDependencies)
      ensures old(resolvedDependencies).None? ==>
        var (acc, ok) := DependencyFold(DependencyEntries(Layers()));
        && resolvedDependencies == Some(acc)
        && (resolved.Success? <==> ok)
        && (resolved.Success? ==> resolved.value == acc)
        && (resolved.Failure? ==> resolved.error.DuplicateProvider?)
    {
      if resolvedDependencies.Some? {
        return Success(resolvedDependencies.value);
      }
      var layers := OwnershipLayers();
      var lists := DependencyLists(layers);
      var acc: map<string, Provider> := map[];
      for i := 0 to |layers|
        invariant DependencyFold(Flatten(lists[..i])) == (acc, true)
      {
        assert lists[..i + 1][..i] == lists[..i];
        ghost var done := Flatten(lists[..i]);
        var raised;
        acc, raised := ResolveLayerDependencies(acc, layers[i].dependencies, done);
        if raised.Fail? {
          resolvedDependencies := Some(acc);
          FoldStaysFailed(done + layers[i].dependencies, DependencyEntries(layers), lists, i);
          return Failure(raised.error);
        }
      }
      assert lists[..|layers|] == lists;
      resolvedDependencies := Some(acc);
      resolved := Success(acc);
    }

    /** The inner loop of `resolve_dependencies`: validates and adds one layer's entries
        in order, stopping at the first duplicate provider. */
    static method ResolveLayerDependencies(acc: map<string, Provider>, entries: seq<(string, Provider)>,
                                           ghost done: seq<(string, Provider)>)
      returns (acc': map<string, Provider>, raised: Outcome<ImproperlyConfigured>)
      requires DependencyFold(done) == (acc, true)
      ensures DependencyFold(done + entries) == (acc', raised.Pass?)
      ensures raised.Fail? ==> raised.error.DuplicateProvider?
    {
      acc' := acc;
      assert done + entries[..0] == done;
      for j := 0 to |entries|
        invariant DependencyFold(done + entries[..j]) == (acc', true)
      {
        var (key, provider) := entries[j];
        assert done + entries[..j + 1] == (done + entries[..j]) + [entries[j]];
        DependencyFoldStep(done + entries[..j], entries[j], acc');
        raised := ValidateDependencyIsUnique(acc', key, provider);
        if raised.Fail? {
          FoldFailedExtends(done + entries[..j + 1], done + entries);
          return;
        }
        acc' := acc'[key := provider];
      }
      assert entries[..|entries|] == entries;
      raised := Pass;
    }

    /** `_validate_dependency_is_unique`: raises exactly when `provider` is already one of
        the resolved providers, naming a key it is resolved under. */
    static method ValidateDependencyIsUnique(dependencies: map<string, Provider>, key: string, provider: Provider)
      returns (raised: Outcome<ImproperlyConfigured>)
      ensures raised.Fail? <==> provider in dependencies.Values
      ensures raised.Fail? ==>
        && raised.error.DuplicateProvider? && raised.error.key == key
        && raised.error.definedUnder in dependencies && dependencies[raised.error.definedUnder] == provider
    {
      var unchecked := dependencies.Keys;
      while unchecked != {}
        invariant unchecked <= dependencies.Keys
        invariant forall k :: k in dependencies && k !in unchecked ==> dependencies[k] != provider
        decreases unchecked
      {
        var dependencyKey :| dependencyKey in unchecked;
        if dependencies[dependencyKey] == provider {
          return Fail(DuplicateProvider(key, dependencyKey));
        }
        unchecked := unchecked - {dependencyKey};
      }
      return Pass;
    }
  }

  /** The names under which the layers `ls` provide dependencies. */
  function DependencyNames(ls: seq<Layer>): set<string>
  {
    set e | e in DependencyEntries(ls) :: e.0
  }

  lemma DependencyNamesOf(ls: seq<Layer>)
    ensures forall name :: name in DependencyNames(ls) <==>
      exists i, e :: 0 <= i < |ls| && e in ls[i].dependencies && e.0 == name
  {
    forall name ensures name in DependencyNames(ls) <==>
      exists i, e :: 0 <= i < |ls| && e in ls[i].dependencies && e.0 == name
    {
      if name in DependencyNames(ls) {
        var e :| e in DependencyEntries(ls) && e.0 == name;
        FlattenContains(DependencyLists(ls), e);
        var i :| 0 <= i < |ls| && e in DependencyLists(ls)[i];
        assert e in ls[i].dependencies;
      }
      if exists i, e :: 0 <= i < |ls| && e in ls[i].dependencies && e.0 == name {
        var i, e :| 0 <= i < |ls| && e in ls[i].dependencies && e.0 == name;
        assert e in DependencyLists(ls)[i];
        FlattenContains(DependencyLists(ls), e);
      }
    }
  }

  /** Once the fold has failed on a prefix of the entries, it has failed on all of them,
      and the map it reports is the one of the prefix. */
  lemma {:induction false} FoldFailedExtends(prefix: seq<(string, Provider)>, es: seq<(string, Provider)>)
    requires prefix <= es
    requires !DependencyFold(prefix).1
    ensures DependencyFold(es) == DependencyFold(prefix)
    decreases |es|
  {
    if |es| > |prefix| {
      var init := es[..|es| - 1];
      assert init[..|prefix|] == prefix;
      FoldFailedExtends(prefix, init);
      assert !DependencyFold(init).1;
    } else {
      assert es == prefix;
    }
  }

  lemma FoldStaysFailed(seen: seq<(string, Provider)>, all: seq<(string, Provider)>,
                        lists: seq<seq<(string, Provider)>>, i: nat)
    requires i < |lists|
    requires all == Flatten(lists)
    requires seen == Flatten(lists[..i]) + lists[i]
    requires !DependencyFold(seen).1
    ensures DependencyFold(all) == DependencyFold(seen)
  {
    FlattenPrefix(lists, i, |lists[i]|);
    assert lists[i][..|lists[i]|] == lists[i];
    FoldFailedExtends(seen, all);
  }

  /** A prefix of the layers followed by a prefix of the next layer is a prefix of the whole concatenation. */
  lemma {:induction false} FlattenPrefix<T>(xss: seq<seq<T>>, i: nat, j: nat)
    requires i < |xss| && j <= |xss[i]|
    ensures Flatten(xss[..i]) + xss[i][..j] <= Flatten(xss)
    decreases |xss|
  {
    var n := |xss| - 1;
    assert Flatten(xss) == Flatten(xss[..n]) + xss[n];
    if i == n {
      assert xss[..n] == xss[..i];
    } else {
      assert xss[..n][..i] == xss[..i];
      FlattenPrefix(xss[..n], i, j);
    }
  }
}
