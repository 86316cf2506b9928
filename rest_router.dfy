/**
 * The REST router of the HTTP package: a table of routes with increasing ids,
 * route-pattern validation and normalisation, parameter-name extraction, and
 * a table of named middleware functions.
 */
module RestRouter {
  import opened Text
  import opened Wrappers
  import Rest

  // ---------------------------------------------------------------------------
  // Patterns
  // ---------------------------------------------------------------------------

  /** `IS_VALID_REST_METHOD`. */
  predicate ValidMethod(verb: string)
  {
    verb in {"GET", "POST", "PUT", "DELETE", "PATCH", "HEAD", "OPTIONS"}
  }

  /** '{' count minus '}' count. */
  function Depth(s: string): int
  {
    if s == [] then 0
    else Depth(s[..|s| - 1]) + (if s[|s| - 1] == '{' then 1 else if s[|s| - 1] == '}' then -1 else 0)
  }

  /** A route pattern starts with '/' and its braces balance, never closing more than were opened. */
  predicate ValidPattern(p: string)
  {
    p != [] && p[0] == '/' && (forall j :: 0 <= j <= |p| ==> Depth(p[..j]) >= 0) && Depth(p) == 0
  }

  /** `validate_route_pattern`. */
  method ValidateRoutePattern(pattern: string) returns (ok: bool)
    ensures ok <==> ValidPattern(pattern)
  {
    if pattern == [] || pattern[0] != '/' {
      return false;
    }
    var braceCount := 0;
    for i := 0 to |pattern|
      invariant braceCount == Depth(pattern[..i])
      invariant forall j :: 0 <= j <= i ==> Depth(pattern[..j]) >= 0
    {
      assert pattern[..i + 1][..i] == pattern[..i];
      var c := pattern[i];
      if c == '{' {
        braceCount := braceCount + 1;
      } else if c == '}' {
        braceCount := braceCount - 1;
        if braceCount < 0 {
          assert Depth(pattern[..i + 1]) < 0;
          return false;
        }
      }
    }
    assert pattern[..|pattern|] == pattern;
    return braceCount == 0;
  }

  /** `normalize_route_pattern`: one trailing '/' goes, unless the pattern is the root. */
  function Normalize(p: string): (r: string)
    ensures |p| > 1 && p[|p| - 1] == '/' ==> p == r + "/"
    ensures !(|p| > 1 && p[|p| - 1] == '/') ==> r == p
  {
    if |p| > 1 && p[|p| - 1] == '/' then p[..|p| - 1] else p
  }

  /** A valid pattern stays valid once normalised. */
  lemma NormalizeKeepsValid(p: string)
    requires ValidPattern(p)
    ensures ValidPattern(Normalize(p))
  {
    var r := Normalize(p);
    if r != p {
      assert p[..|r|] == r;
      forall j | 0 <= j <= |r|
        ensures Depth(r[..j]) >= 0
      {
        assert r[..j] == p[..j];
      }
      assert p[..|p|] == p;
      assert p[..|p|][..|p| - 1] == r;
    }
  }

  /** The root "/" and patterns without a trailing '/' are left alone. */
  lemma NormalizeRoot()
    ensures Normalize("/") == "/" && Normalize("/api/users/") == "/api/users"
  {
  }

  /** A parameter name without its optional marker '?'. */
  function StripOptional(n: string): string
  {
    if n != [] && n[|n| - 1] == '?' then n[..|n| - 1] else n
  }

  /**
   * `extract_parameter_names`: for each '{', the text up to the next '}',
   * without a trailing '?'; an unclosed '{' ends the search.
   */
  function NamesFrom(s: string, pos: nat): seq<string>
    decreases |s| - pos
  {
    var open := FindChar(s, '{', pos);
    if open < 0 then []
    else
      var close := FindChar(s, '}', open);
      if close < 0 then []
      else [StripOptional(s[open + 1..close])] + NamesFrom(s, close + 1)
  }

  function ParamNames(s: string): seq<string>
  {
    NamesFrom(s, 0)
  }

  method ExtractParameterNames(pattern: string) returns (names: seq<string>)
    ensures names == ParamNames(pattern)
  {
    names := [];
    var pos := 0;
    var open := FindChar(pattern, '{', pos);
    while open >= 0
      invariant open == FindChar(pattern, '{', pos)
      invariant names + NamesFrom(pattern, pos) == NamesFrom(pattern, 0)
      decreases |pattern| - pos
    {
      var close := FindChar(pattern, '}', open);
      if close < 0 {
        break;
      }
      ghost var names0, pos0 := names, pos;
      NamesStep(pattern, pos, names);
      names := names + [StripOptional(pattern[open + 1..close])];
      pos := close + 1;
      assert names + NamesFrom(pattern, pos) == names0 + NamesFrom(pattern, pos0);
      open := FindChar(pattern, '{', pos);
    }
    assert NamesFrom(pattern, pos) == [];
  }

  /** One turn of the extraction loop. */
  lemma NamesStep(s: string, pos: nat, names: seq<string>)
    requires FindChar(s, '{', pos) >= 0 && FindChar(s, '}', FindChar(s, '{', pos)) >= 0
    ensures var open := FindChar(s, '{', pos);
      var close := FindChar(s, '}', open);
      names + NamesFrom(s, pos) == (names + [StripOptional(s[open + 1..close])]) + NamesFrom(s, close + 1)
  {
  }

  /** A character search in `t + x` past `t` is a search in `x`. */
  lemma {:induction false} FindPast(t: string, x: string, c: char, j: nat)
    ensures var r := FindChar(x, c, j);
      FindChar(t + x, c, |t| + j) == if r < 0 then -1 else |t| + r
    decreases |x| - j
  {
    if j < |x| {
      assert (t + x)[|t| + j] == x[j];
      FindPast(t, x, c, j + 1);
    }
  }

  lemma SliceOfConcat(t: string, x: string, a: nat, b: nat)
    requires a <= b <= |x|
    ensures (t + x)[|t| + a..|t| + b] == x[a..b]
  {
  }

  /** Scans that meet the same first '{' find the same names. */
  lemma SameStart(s: string, a: nat, b: nat)
    requires FindChar(s, '{', a) == FindChar(s, '{', b)
    ensures NamesFrom(s, a) == NamesFrom(s, b)
  {
  }

  lemma PrefixLacks(t: string, x: string, c: char)
    requires c !in t
    ensures forall i :: 0 <= i < |t| ==> (t + x)[i] != c
  {
    forall i | 0 <= i < |t|
      ensures (t + x)[i] != c
    {
      assert (t + x)[i] == t[i];
    }
  }

  /** Scanning `t + x` from inside `x` finds the names `x` has from there. */
  lemma {:induction false} NamesPast(t: string, x: string, j: nat)
    ensures NamesFrom(t + x, |t| + j) == NamesFrom(x, j)
    decreases |x| - j
  {
    var open := FindChar(x, '{', j);
    if open >= 0 && FindChar(x, '}', open) >= 0 {
      var close := FindChar(x, '}', open);
      NamesPast(t, x, close + 1);
      NamesPastPair(t, x, j, open, close);
    } else {
      FindPast(t, x, '{', j);
      if open >= 0 {
        FindPast(t, x, '}', open);
      }
    }
  }

  /** The step of `NamesPast` where `x` has a "{...}" pair from `j` on. */
  lemma NamesPastPair(t: string, x: string, j: nat, open: nat, close: nat)
    requires FindChar(x, '{', j) == open && FindChar(x, '}', open) == close
    requires NamesFrom(t + x, |t| + close + 1) == NamesFrom(x, close + 1)
    ensures NamesFrom(t + x, |t| + j) == NamesFrom(x, j)
  {
    FindPast(t, x, '{', j);
    FindPast(t, x, '}', open);
    SliceOfConcat(t, x, open + 1, close);
    SamePair(t + x, |t| + j, |t| + open, |t| + close, x, j, open, close);
  }

  /** Two scans that read the same name and then agree, agree. */
  lemma SamePair(s: string, a: nat, a0: nat, c0: nat, x: string, j: nat, o: nat, c: nat)
    requires FindChar(s, '{', a) == a0 && FindChar(s, '}', a0) == c0
    requires FindChar(x, '{', j) == o && FindChar(x, '}', o) == c
    requires a0 < c0 < |s| && o < c < |x| && s[a0 + 1..c0] == x[o + 1..c]
    requires NamesFrom(s, c0 + 1) == NamesFrom(x, c + 1)
    ensures NamesFrom(s, a) == NamesFrom(x, j)
  {
    NamesPairStep(s, a, a0, c0);
    NamesPairStep(x, j, o, c);
  }

  /** One "{...}" pair found from `a` on gives its name, then the names after it. */
  lemma NamesPairStep(s: string, a: nat, a0: nat, c0: nat)
    requires FindChar(s, '{', a) == a0 && FindChar(s, '}', a0) == c0
    requires a0 < c0 < |s|
    ensures NamesFrom(s, a) == [StripOptional(s[a0 + 1..c0])] + NamesFrom(s, c0 + 1)
  {
  }

  /** Text without '{' before the rest contributes no names. */
  lemma SkipLiteral(t: string, x: string)
    requires '{' !in t
    ensures ParamNames(t + x) == ParamNames(x)
  {
    PrefixLacks(t, x, '{');
    FindCharSkip(t + x, '{', 0, |t|);
    SameStart(t + x, 0, |t| + 0);
    NamesPast(t, x, 0);
  }

  /** A "{name}" parameter contributes its name. */
  lemma TakeParam(n: string, x: string)
    requires Rest.BraceFree(n)
    ensures ParamNames("{" + n + "}" + x) == [StripOptional(n)] + ParamNames(x)
  {
    var s := "{" + n + "}" + x;
    assert s[0] == '{';
    assert s[|n| + 1] == '}';
    forall i | 0 <= i < |n| + 1
      ensures s[i] != '}'
    {
      if i > 0 {
        assert s[i] == n[i - 1];
      }
    }
    FindCharFirst(s, '}', 0, |n| + 1);
    assert s[1..|n| + 1] == n;
    assert s == ("{" + n + "}") + x;
    NamesPast("{" + n + "}", x, 0);
  }

  /**
   * On a well-formed pattern `extract_parameter_names` finds the same names as
   * `rest_pattern_to_regex`, without optional markers.
   */
  lemma {:induction false} NamesAgree(ps: seq<Rest.Piece>)
    requires Rest.WellFormed(ps)
    ensures ParamNames(Rest.Render(ps)) == StripAll(Rest.NamesOf(ps))
    decreases |ps|
  {
    if ps == [] {
      assert ParamNames([]) == [];
    } else {
      Rest.WellFormedTail(ps);
      NamesAgree(ps[1..]);
      match ps[0] {
        case Literal(t) =>
          SkipLiteral(t, Rest.Render(ps[1..]));
        case Param(n) =>
          TakeParam(n, Rest.Render(ps[1..]));
          assert "{" + n + "}" + Rest.Render(ps[1..]) == Rest.Render(ps);
          StripAllAppend([n], Rest.NamesOf(ps[1..]));
      }
    }
  }

  function StripAll(names: seq<string>): (r: seq<string>)
    ensures |r| == |names| && forall k :: 0 <= k < |r| ==> r[k] == StripOptional(names[k])
  {
    if names == [] then [] else [StripOptional(names[0])] + StripAll(names[1..])
  }

  lemma StripAllAppend(a: seq<string>, b: seq<string>)
    ensures StripAll(a + b) == StripAll(a) + StripAll(b)
  {
  }

  // ---------------------------------------------------------------------------
  // The route table
  // ---------------------------------------------------------------------------

  datatype Route = Route(
    id: int,
    verb: string,
    pattern: string,
    handlerObject: string,
    handlerFunction: string,
    description: string,
    paramNames: seq<string>)

  /** The router's fields: `routes_`, `next_route_id_`, `last_error_`, `middleware_functions_`. */
  datatype Router = Router(routes: seq<Route>, nextId: int, lastError: string, middleware: map<string, string>)

  const NewRouter := Router([], 1, "", map[])

  /** Route ids rise along the table and stay below the next id to hand out. */
  predicate IdsAscending(routes: seq<Route>, nextId: int)
  {
    (forall i, j :: 0 <= i < j < |routes| ==> routes[i].id < routes[j].id) &&
    (forall i :: 0 <= i < |routes| ==> routes[i].id < nextId)
  }

  predicate Valid(r: Router)
  {
    IdsAscending(r.routes, r.nextId)
  }

  /**
   * `add_route`.  `compileError` is what compiling the route's regular
   * expression reports: None when it compiles.
   */
  function RouteAdded(r: Router, verb: string, pattern: string, handlerObject: string,
                    handlerFunction: string, description: string, compileError: Option<string>): (res: (bool, Router))
    ensures !ValidMethod(verb) ==> res == (false, r.(lastError := "Invalid HTTP method: " + verb))
    ensures ValidMethod(verb) && !ValidPattern(pattern) ==> res == (false, r.(lastError := "Invalid route pattern: " + pattern))
    ensures res.0 <==> ValidMethod(verb) && ValidPattern(pattern) && compileError.None?
    ensures res.0 ==> (|res.1.routes| == |r.routes| + 1 &&
      res.1 == r.(routes := r.routes + [res.1.routes[|r.routes|]], nextId := r.nextId + 1))
    ensures res.0 ==> |res.1.routes| == |r.routes| + 1 && var added := res.1.routes[|r.routes|];
      added.id == r.nextId && added.verb == verb && added.pattern == Normalize(pattern) &&
      added.paramNames == ParamNames(Normalize(pattern))
  {
    if !ValidMethod(verb) then (false, r.(lastError := "Invalid HTTP method: " + verb))
    else if !ValidPattern(pattern) then (false, r.(lastError := "Invalid route pattern: " + pattern))
    else
      var normalized := Normalize(pattern);
      var route := Route(r.nextId, verb, normalized, handlerObject, handlerFunction, description, ParamNames(normalized));
      match compileError
      case Some(e) => (false, r.(nextId := r.nextId + 1, lastError := "Failed to compile route pattern: " + e))
      case None => (true, r.(routes := r.routes + [route], nextId := r.nextId + 1))
  }

  /** A failed add leaves the table alone (a failed compile still uses up an id). */
  lemma AddFailureKeepsRoutes(r: Router, verb: string, pattern: string, o: string, f: string, d: string, e: Option<string>)
    requires !RouteAdded(r, verb, pattern, o, f, d, e).0
    ensures RouteAdded(r, verb, pattern, o, f, d, e).1.routes == r.routes
    ensures RouteAdded(r, verb, pattern, o, f, d, e).1.nextId == r.nextId + (if ValidMethod(verb) && ValidPattern(pattern) then 1 else 0)
  {
  }

  /** Every new id is above every id in the table. */
  lemma AddKeepsIdsAscending(r: Router, verb: string, pattern: string, o: string, f: string, d: string, e: Option<string>)
    requires Valid(r)
    ensures Valid(RouteAdded(r, verb, pattern, o, f, d, e).1)
  {
  }

  /** The two ways of selecting routes to remove. */
  datatype Selector = ById(id: int) | ByPattern(verb: string, pattern: string)

  predicate Selects(sel: Selector, route: Route)
  {
    match sel
    case ById(id) => route.id == id
    case ByPattern(verb, pattern) => route.verb == verb && route.pattern == pattern
  }

  /** `std::remove_if` then `erase`: the routes not selected, in order. */
  function RemoveWhere(routes: seq<Route>, sel: Selector): (r: seq<Route>)
    ensures |r| <= |routes|
    ensures forall k :: 0 <= k < |r| ==> !Selects(sel, r[k]) && r[k] in routes
    ensures forall k :: 0 <= k < |routes| && !Selects(sel, routes[k]) ==> routes[k] in r
    ensures (forall k :: 0 <= k < |routes| ==> !Selects(sel, routes[k])) <==> r == routes
  {
    if routes == [] then []
    else
      var rest := RemoveWhere(routes[1..], sel);
      assert forall k :: 1 <= k < |routes| ==> routes[k] == routes[1..][k - 1];
      if Selects(sel, routes[0]) then
        assert |rest| < |routes|;
        rest
      else [routes[0]] + rest
  }

  /** What is kept has ids from the table, so a bound on them still holds. */
  lemma RemoveKeepsIdsAbove(routes: seq<Route>, sel: Selector, bound: int)
    requires forall k :: 0 <= k < |routes| ==> routes[k].id > bound
    ensures forall k :: 0 <= k < |RemoveWhere(routes, sel)| ==> RemoveWhere(routes, sel)[k].id > bound
  {
  }

  lemma TailAscending(routes: seq<Route>, nextId: int)
    requires routes != [] && IdsAscending(routes, nextId)
    ensures IdsAscending(routes[1..], nextId)
    ensures forall k :: 0 <= k < |routes[1..]| ==> routes[1..][k].id > routes[0].id
  {
  }

  lemma PrependAscending(first: Route, rest: seq<Route>, nextId: int)
    requires IdsAscending(rest, nextId) && first.id < nextId
    requires forall k :: 0 <= k < |rest| ==> rest[k].id > first.id
    ensures IdsAscending([first] + rest, nextId)
  {
    var r := [first] + rest;
    assert forall k :: 1 <= k < |r| ==> r[k] == rest[k - 1];
  }

  /** Removing routes keeps the ids ascending. */
  lemma {:induction false} RemoveKeepsIdsAscending(routes: seq<Route>, sel: Selector, nextId: int)
    requires IdsAscending(routes, nextId)
    ensures IdsAscending(RemoveWhere(routes, sel), nextId)
    decreases |routes|
  {
    if routes != [] {
      TailAscending(routes, nextId);
      RemoveKeepsIdsAscending(routes[1..], sel, nextId);
      RemoveKeepsIdsAbove(routes[1..], sel, routes[0].id);
      if !Selects(sel, routes[0]) {
        PrependAscending(routes[0], RemoveWhere(routes[1..], sel), nextId);
      }
    }
  }

  /** `remove_route(route_id)`. */
  function RouteRemovedById(r: Router, id: int): (res: (bool, Router))
    ensures res.0 <==> exists k :: 0 <= k < |r.routes| && r.routes[k].id == id
    ensures !res.0 ==> res.1 == r.(lastError := "Route not found: " + IntToString(id))
    ensures res.0 ==> res.1 == r.(routes := RemoveWhere(r.routes, ById(id)))
    ensures forall k :: 0 <= k < |res.1.routes| ==> res.1.routes[k].id != id
  {
    var kept := RemoveWhere(r.routes, ById(id));
    if kept != r.routes then (true, r.(routes := kept))
    else (false, r.(lastError := "Route not found: " + IntToString(id)))
  }

  /** `remove_route(method, pattern)`: the pattern is normalised first. */
  function RouteRemovedByPattern(r: Router, verb: string, pattern: string): (res: (bool, Router))
    ensures res.0 <==> exists k :: 0 <= k < |r.routes| && Selects(ByPattern(verb, Normalize(pattern)), r.routes[k])
    ensures !res.0 ==> res.1 == r.(lastError := "Route not found: " + verb + " " + pattern)
    ensures res.0 ==> res.1 == r.(routes := RemoveWhere(r.routes, ByPattern(verb, Normalize(pattern))))
  {
    var kept := RemoveWhere(r.routes, ByPattern(verb, Normalize(pattern)));
    if kept != r.routes then (true, r.(routes := kept))
    else (false, r.(lastError := "Route not found: " + verb + " " + pattern))
  }

  /** `clear_all_routes`. */
  function Cleared(r: Router): (res: Router)
    ensures res.routes == [] && res.nextId == 1 && Valid(res)
    ensures res.lastError == r.lastError && res.middleware == r.middleware
  {
    r.(routes := [], nextId := 1)
  }

  /** `add_middleware`. */
  function MiddlewareAdded(r: Router, name: string, fn: string): (res: (bool, Router))
    ensures res.0 <==> name != [] && fn != []
    ensures res.0 ==> res.1 == r.(middleware := r.middleware[name := fn])
    ensures !res.0 ==> res.1 == r.(lastError := "Middleware name and function cannot be empty")
  {
    if name == [] || fn == [] then (false, r.(lastError := "Middleware name and function cannot be empty"))
    else (true, r.(middleware := r.middleware[name := fn]))
  }

  /** `remove_middleware`. */
  function MiddlewareRemoved(r: Router, name: string): (res: (bool, Router))
    ensures res.0 <==> name in r.middleware
    ensures res.0 ==> res.1 == r.(middleware := r.middleware - {name})
    ensures !res.0 ==> res.1 == r.(lastError := "Middleware not found: " + name)
  {
    if name in r.middleware then (true, r.(middleware := r.middleware - {name}))
    else (false, r.(lastError := "Middleware not found: " + name))
  }

  /** Adding a middleware then removing it leaves the table as it was before, if the name was new. */
  lemma MiddlewareAddRemove(r: Router, name: string, fn: string)
    requires name != [] && fn != [] && name !in r.middleware
    ensures var added := MiddlewareAdded(r, name, fn).1;
      MiddlewareRemoved(added, name) == (true, r)
  {
    assert r.middleware[name := fn] - {name} == r.middleware;
  }

  /** `get_route_info`: the route with that id, if any. */
  function FindRoute(routes: seq<Route>, id: int): (res: Option<Route>)
    ensures res.Some? ==> res.value in routes && res.value.id == id
    ensures res.None? <==> forall k :: 0 <= k < |routes| ==> routes[k].id != id
  {
    if routes == [] then None
    else if routes[0].id == id then Some(routes[0])
    else
      assert forall k :: 1 <= k < |routes| ==> routes[k] == routes[1..][k - 1];
      FindRoute(routes[1..], id)
  }

  class RestRouterObject {
    var routes: seq<Route>
    var nextRouteId: int
    var lastError: string
    var middlewareFunctions: map<string, string>

    function State(): Router
      reads this
    {
      Router(routes, nextRouteId, lastError, middlewareFunctions)
    }

    constructor()
      ensures State() == NewRouter
    {
      routes, nextRouteId, lastError, middlewareFunctions := [], 1, "", map[];
    }

    method AddRoute(verb: string, pattern: string, handlerObject: string, handlerFunction: string,
                    description: string, compileError: Option<string>) returns (ok: bool)
      requires Valid(State())
      modifies this
      ensures Valid(State())
      ensures (ok, State()) == RouteAdded(old(State()), verb, pattern, handlerObject, handlerFunction, description, compileError)
    {
      AddKeepsIdsAscending(State(), verb, pattern, handlerObject, handlerFunction, description, compileError);
      if !ValidMethod(verb) {
        lastError := "Invalid HTTP method: " + verb;
        return false;
      }
      var patternOk := ValidateRoutePattern(pattern);
      if !patternOk {
        lastError := "Invalid route pattern: " + pattern;
        return false;
      }
      var id := nextRouteId;
      nextRouteId := nextRouteId + 1;
      var normalized := Normalize(pattern);
      var names := ExtractParameterNames(normalized);
      var route := Route(id, verb, normalized, handlerObject, handlerFunction, description, names);
      if compileError.Some? {
        lastError := "Failed to compile route pattern: " + compileError.value;
        return false;
      }
      routes := routes + [route];
      return true;
    }

    method RemoveRoute(id: int) returns (ok: bool)
      requires Valid(State())
      modifies this
      ensures Valid(State())
      ensures (ok, State()) == RouteRemovedById(old(State()), id)
    {
      RemoveKeepsIdsAscending(routes, ById(id), nextRouteId);
      var kept := RemoveWhere(routes, ById(id));
      if kept != routes {
        routes := kept;
        return true;
      }
      lastError := "Route not found: " + IntToString(id);
      return false;
    }

    method RemoveRouteMatching(verb: string, pattern: string) returns (ok: bool)
      requires Valid(State())
      modifies this
      ensures Valid(State())
      ensures (ok, State()) == RouteRemovedByPattern(old(State()), verb, pattern)
    {
      var normalized := Normalize(pattern);
      RemoveKeepsIdsAscending(routes, ByPattern(verb, normalized), nextRouteId);
      var kept := RemoveWhere(routes, ByPattern(verb, normalized));
      if kept != routes {
        routes := kept;
        return true;
      }
      lastError := "Route not found: " + verb + " " + pattern;
      return false;
    }

    method ClearAllRoutes()
      modifies this
      ensures Valid(State())
      ensures State() == Cleared(old(State()))
    {
      routes := [];
      nextRouteId := 1;
    }

    method AddMiddleware(name: string, fn: string) returns (ok: bool)
      modifies this
      ensures (ok, State()) == MiddlewareAdded(old(State()), name, fn)
    {
      if name == [] || fn == [] {
        lastError := "Middleware name and function cannot be empty";
        return false;
      }
      middlewareFunctions := middlewareFunctions[name := fn];
      return true;
    }

    method RemoveMiddleware(name: string) returns (ok: bool)
      modifies this
      ensures (ok, State()) == MiddlewareRemoved(old(State()), name)
    {
      if name in middlewareFunctions {
        middlewareFunctions := middlewareFunctions - {name};
        return true;
      }
      lastError := "Middleware not found: " + name;
      return false;
    }

    /** `get_route_info`: the first route with the id. */
    method GetRouteInfo(id: int) returns (route: Option<Route>)
      ensures route == FindRoute(routes, id)
    {
      for i := 0 to |routes|
        invariant FindRoute(routes, id) == FindRoute(routes[i..], id)
      {
        assert routes[i..][1..] == routes[i + 1..];
        if routes[i].id == id {
          return Some(routes[i]);
        }
      }
      return None;
    }
  }
}
