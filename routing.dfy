/**
 * Route registration: the two-way route map (`MauxNavigationMap`) and the
 * fluent builder that composes nested route strings (`MauxNavigationBuilder`).
 */
module Routing {
  import opened Wrappers
  import opened Text

  /** A .NET type: its full name and the simple name that serves as its default route. */
  datatype TypeRef = TypeRef(fullName: string, name: string)

  /** The routes registered for `t` in a type-to-routes table, none when `t` is absent. */
  function RoutesOf(typeToRoute: map<TypeRef, set<string>>, t: TypeRef): set<string>
  {
    if t in typeToRoute then typeToRoute[t] else {}
  }

  /**
   * Route string -> page type, and page type -> set of route strings.
   * Write-once per route: there is no removal.
   */
  class MauxNavigationMap {
    var routeToType: map<string, TypeRef>
    var typeToRoute: map<TypeRef, set<string>>

    /** The two directions agree, and every type present has at least one route. */
    ghost predicate Valid()
      reads this
    {
      && (forall route :: route in routeToType ==>
            routeToType[route] in typeToRoute && route in typeToRoute[routeToType[route]])
      && (forall t, route :: t in typeToRoute && route in typeToRoute[t] ==>
            route in routeToType && routeToType[route] == t)
      && (forall t :: t in typeToRoute ==> typeToRoute[t] != {})
    }

    constructor()
      ensures Valid()
      ensures routeToType == map[] && typeToRoute == map[]
    {
      routeToType := map[];
      typeToRoute := map[];
    }

    /**
     * The effect of `Add(route, t)` with outcome `o`: a route already present
     * fails and changes nothing; otherwise both directions gain the entry.
     */
    twostate predicate Added(route: string, t: TypeRef, o: Outcome)
      reads this
    {
      if route in old(routeToType) then
        && o == Fail(ArgumentError)
        && routeToType == old(routeToType)
        && typeToRoute == old(typeToRoute)
      else
        && o == Pass
        && routeToType == old(routeToType)[route := t]
        && typeToRoute == old(typeToRoute)[t := RoutesOf(old(typeToRoute), t) + {route}]
    }

    method Add(route: string, t: TypeRef) returns (o: Outcome)
      requires Valid()
      modifies this
      ensures Valid()
      ensures Added(route, t, o)
      ensures o == Pass <==> route !in old(routeToType)
      ensures o == Pass ==> routeToType[route] == t && route in typeToRoute[t]
      ensures o == Pass ==> RoutesOf(old(typeToRoute), t) <= typeToRoute[t]
    {
      if route in routeToType {
        return Fail(ArgumentError);
      }
      routeToType := routeToType[route := t];
      if t in typeToRoute {
        typeToRoute := typeToRoute[t := typeToRoute[t] + {route}];
      } else {
        assert RoutesOf(typeToRoute, t) + {route} == {route};
        typeToRoute := typeToRoute[t := {route}];
      }
      o := Pass;
    }

    method GetRouteType(route: string) returns (r: Result<TypeRef>)
      ensures r.Success? <==> route in routeToType
      ensures r.Success? ==> r.value == routeToType[route]
      ensures r.Failure? ==> r.error == KeyNotFound
    {
      if route !in routeToType {
        return Failure(KeyNotFound);
      }
      r := Success(routeToType[route]);
    }

    /**
     * The routes registered for `t`: exactly those whose type is `t`, never
     * an empty set; a type never added is a not-found failure.
     */
    method GetRoutes(t: TypeRef) returns (r: Result<set<string>>)
      requires Valid()
      ensures r.Success? <==> t in typeToRoute
      ensures r.Failure? ==> r.error == KeyNotFound
      ensures r.Success? ==> r.value == typeToRoute[t] && r.value != {}
      ensures r.Success? ==> forall route :: route in r.value <==> route in routeToType && routeToType[route] == t
    {
      if t in typeToRoute {
        r := Success(typeToRoute[t]);
      } else {
        r := Failure(KeyNotFound);
      }
    }
  }

  /** The DI service collection and the Shell route registry of the host. */
  class Host {
    var scopedServices: set<TypeRef>
    var shellRoutes: seq<string>

    constructor()
      ensures scopedServices == {} && shellRoutes == []
    {
      scopedServices := {};
      shellRoutes := [];
    }

    /** `TryAddScoped<T>()`: registers `t` unless it is registered already. */
    method TryAddScoped(t: TypeRef)
      modifies this`scopedServices
      ensures scopedServices == old(scopedServices) + {t}
    {
      scopedServices := scopedServices + {t};
    }

    /** `Routing.RegisterRoute(route, factory)`, recorded in call order. */
    method RegisterRoute(route: string)
      modifies this`shellRoutes
      ensures shellRoutes == old(shellRoutes) + [route]
    {
      shellRoutes := shellRoutes + [route];
    }
  }

  /** The route an element gets under `baseRoute`: `"{base}/{route}"` with leading `/` trimmed. */
  function ElementRoute(baseRoute: string, route: string): string
  {
    TrimStart(baseRoute + "/" + route, '/')
  }

  /** A composed route never starts with `/`. */
  lemma ElementRouteIsRelative(baseRoute: string, route: string)
    ensures var r := ElementRoute(baseRoute, route); r == [] || r[0] != '/'
  {
    TrimStartSpec(baseRoute + "/" + route, '/');
  }

  /** Under the empty root base the composed route is the route name with leading `/` trimmed. */
  lemma RootElementRoute(route: string)
    ensures ElementRoute("", route) == TrimStart(route, '/')
    ensures route == [] || route[0] != '/' ==> ElementRoute("", route) == route
  {
    assert "" + "/" + route == ['/'] + route;
    assert (['/'] + route)[1..] == route;
  }

  /** Under a non-empty base that does not start with `/` the route is `base/route`. */
  lemma NestedElementRoute(baseRoute: string, route: string)
    requires baseRoute != [] && baseRoute[0] != '/'
    ensures ElementRoute(baseRoute, route) == baseRoute + "/" + route
  {
    TrimStartNoop(baseRoute + "/" + route, '/');
  }

  /** The name a registration uses: the given route, or the page type's simple name. */
  function RouteName(page: TypeRef, route: Option<string>): string
  {
    if route.Some? then route.value else page.name
  }

  function ViewModelTypes(viewModel: Option<TypeRef>): set<TypeRef>
  {
    if viewModel.Some? then {viewModel.value} else {}
  }

  /**
   * Fluent registration of pages under a base route. `AddContent` and
   * `AddRoute` return `nested`, the builder their `navigation` callback
   * receives: its base is the route just registered. The source returns
   * `this` for chaining; here the caller keeps its own reference.
   */
  class MauxNavigationBuilder {
    const host: Host
    const navigationMap: MauxNavigationMap
    const baseRoute: string

    constructor(host: Host, navigationMap: MauxNavigationMap, baseRoute: string)
      ensures this.host == host && this.navigationMap == navigationMap && this.baseRoute == baseRoute
    {
      this.host := host;
      this.navigationMap := navigationMap;
      this.baseRoute := baseRoute;
    }

    /**
     * Registers `page` (and `viewModel`) as scoped services and maps the
     * composed route to `page`; a route registered before makes it fail,
     * after the services were added, and the callback is then never run:
     * the nested builder returned with a failed outcome stands for a
     * callback that never happens and must not be used.
     */
    method AddContent(page: TypeRef, viewModel: Option<TypeRef>, route: Option<string>)
      returns (o: Outcome, nested: MauxNavigationBuilder)
      requires navigationMap.Valid()
      modifies navigationMap, host`scopedServices
      ensures navigationMap.Valid()
      ensures navigationMap.Added(ElementRoute(baseRoute, RouteName(page, route)), page, o)
      ensures host.scopedServices == old(host.scopedServices) + ViewModelTypes(viewModel) + {page}
      ensures fresh(nested)
      ensures nested.host == host && nested.navigationMap == navigationMap
      ensures nested.baseRoute == ElementRoute(baseRoute, RouteName(page, route))
    {
      if viewModel.Some? {
        host.TryAddScoped(viewModel.value);
      }
      host.TryAddScoped(page);
      var elementRoute := ElementRoute(baseRoute, RouteName(page, route));
      o := navigationMap.Add(elementRoute, page);
      nested := new MauxNavigationBuilder(host, navigationMap, elementRoute);
    }

    /**
     * As `AddContent`, and on success also registers the composed route
     * with the Shell router.
     */
    method AddRoute(page: TypeRef, viewModel: Option<TypeRef>, route: Option<string>)
      returns (o: Outcome, nested: MauxNavigationBuilder)
      requires navigationMap.Valid()
      modifies navigationMap, host
      ensures navigationMap.Valid()
      ensures navigationMap.Added(ElementRoute(baseRoute, RouteName(page, route)), page, o)
      ensures host.scopedServices == old(host.scopedServices) + ViewModelTypes(viewModel) + {page}
      ensures host.shellRoutes ==
                old(host.shellRoutes) + if o == Pass then [ElementRoute(baseRoute, RouteName(page, route))] else []
      ensures fresh(nested)
      ensures nested.host == host && nested.navigationMap == navigationMap
      ensures nested.baseRoute == ElementRoute(baseRoute, RouteName(page, route))
    {
      if viewModel.Some? {
        host.TryAddScoped(viewModel.value);
      }
      host.TryAddScoped(page);
      var elementRoute := ElementRoute(baseRoute, RouteName(page, route));
      o := navigationMap.Add(elementRoute, page);
      if o.Fail? {
        nested := new MauxNavigationBuilder(host, navigationMap, elementRoute);
        return;
      }
      host.RegisterRoute(elementRoute);
      nested := new MauxNavigationBuilder(host, navigationMap, elementRoute);
    }
  }
}
