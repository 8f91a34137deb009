/** What a mutating relay request means for the route table, apart from files and services. */
module RelayTable {
  import opened Text
  import opened RelayRoutes

  datatype Action = StatusQuery | Install | Update | Apply | Disable | Remove | Uninstall

  datatype File<+T> = Absent | Present(data: T)

  /** The content of routes.json: a list written by the relay, or something else. */
  datatype RoutesText = Encoded(routes: seq<Route>) | Malformed(text: string)

  datatype UnitText = ServiceUnit | OtherUnit(text: string)

  /** The digest of the three files; SHA-256 is taken to be injective, so the digest is their content. */
  datatype Fingerprint = Fingerprint(config: File<string>, unit: File<UnitText>, routes: File<RoutesText>)

  /** An expected fingerprint that is not a digest at all is None. */
  datatype Params = Params(expected: Option<Fingerprint>, route: Option<Route>, routeId: Option<string>)

  datatype Request = Request(action: Action, op: string, params: Params)

  datatype Code =
    | InvalidRequest | Busy | StateFailed | RollbackFailed | RecoveryRequired
    | IdempotencyConflict | FingerprintConflict | NotInstalled | RouteNotFound
    | RouteConflict | ValidationFailed | ApplyFailed | Interrupted

  predicate OperationChar(c: char) {
    IsDigit(c) || 'a' <= c <= 'z' || 'A' <= c <= 'Z' || c in "._:-"
  }

  predicate ValidRequest(r: Request) {
    && 1 <= |r.op| <= 128 && All(OperationChar, r.op)
    && match r.action {
        case StatusQuery => r.params == Params(None, None, None)
        case Apply => r.params.expected.Some? && r.params.route.Some? && ValidRoute(r.params.route.value)
          && r.params.routeId.None?
        case Disable => r.params.expected.Some? && r.params.routeId.Some? && IsUuidV7(r.params.routeId.value)
          && r.params.route.None?
        case Remove => r.params.expected.Some? && r.params.routeId.Some? && IsUuidV7(r.params.routeId.value)
          && r.params.route.None?
        case _ => r.params.expected.Some? && r.params.route.None? && r.params.routeId.None?
      }
  }

  /** What the actions on routes need of their parameters. */
  lemma RequestNeeds(r: Request)
    requires ValidRequest(r)
    ensures r.action.Apply? ==>
      var route := r.params.route; route.Some? && IsUuidV7(route.value.id) && 1024 <= route.value.listenPort <= 65535
    ensures r.action in {Disable, Remove} ==> r.params.routeId.Some? && IsUuidV7(r.params.routeId.value)
  {
    hide IsUuidV7, ValidUpstream;
  }

  /** The routes a routes.json holds; a missing file holds none. */
  function StoredRoutes(f: File<RoutesText>): Option<seq<Route>> {
    match f
    case Absent => Some([])
    case Present(Encoded(routes)) => Some(routes)
    case Present(Malformed(_)) => None
  }

  // The new list -----------------------------------------------------------------------------------

  /** The first route with this id. */
  function Lookup(routes: seq<Route>, id: string): (r: Option<Route>)
    ensures r.Some? ==> r.value in routes && r.value.id == id
  {
    if routes == [] then None
    else if routes[0].id == id then Some(routes[0])
    else Lookup(routes[1..], id)
  }

  predicate HasId(routes: seq<Route>, id: string) {
    Lookup(routes, id).Some?
  }

  function ReplaceRoute(routes: seq<Route>, route: Route): seq<Route> {
    if routes == [] then []
    else [if routes[0].id == route.id then route else routes[0]] + ReplaceRoute(routes[1..], route)
  }

  function DisableRoute(routes: seq<Route>, id: string): seq<Route> {
    if routes == [] then []
    else [if routes[0].id == id then routes[0].(enabled := false) else routes[0]] + DisableRoute(routes[1..], id)
  }

  function DropRoute(routes: seq<Route>, id: string): seq<Route> {
    if routes == [] then []
    else (if routes[0].id == id then [] else [routes[0]]) + DropRoute(routes[1..], id)
  }

  function Target(action: Action, params: Params, routes: seq<Route>): Result<seq<Route>, Code> {
    match action
    case Apply =>
      if params.route.None? then Err(InvalidRequest)
      else if HasId(routes, params.route.value.id) then Ok(ReplaceRoute(routes, params.route.value))
      else Ok(routes + [params.route.value])
    case Disable =>
      if params.routeId.None? then Err(InvalidRequest)
      else if HasId(routes, params.routeId.value) then Ok(DisableRoute(routes, params.routeId.value))
      else Err(RouteNotFound)
    case Remove =>
      if params.routeId.None? then Err(InvalidRequest)
      else if HasId(routes, params.routeId.value) then Ok(DropRoute(routes, params.routeId.value))
      else Err(RouteNotFound)
    case Uninstall => Ok([])
    case _ => Ok(routes)
  }

  lemma TargetError(action: Action, params: Params, routes: seq<Route>)
    requires action.Apply? ==> params.route.Some?
    requires action.Disable? || action.Remove? ==> params.routeId.Some?
    ensures Target(action, params, routes).Err? ==> Target(action, params, routes).error == RouteNotFound
  {
  }

  method ReplaceLoop(routes: seq<Route>, route: Route) returns (next: seq<Route>, found: bool)
    ensures next == ReplaceRoute(routes, route) && found == HasId(routes, route.id)
  {
    next, found := routes, false;
    for i := 0 to |routes|
      invariant |next| == |routes| && next[i..] == routes[i..]
      invariant next[..i] + ReplaceRoute(routes[i..], route) == ReplaceRoute(routes, route)
      invariant HasId(routes, route.id) <==> found || HasId(routes[i..], route.id)
    {
      assert routes[i..][1..] == routes[i + 1..];
      assert next[i] == next[i..][0] == routes[i];
      ghost var before := next;
      if routes[i].id == route.id {
        next, found := next[i := route], true;
      }
      assert next[..i + 1] == before[..i] + [next[i]];
      assert next[i + 1..] == before[i..][1..];
    }
    assert next[..|routes|] == next;
  }

  method DisableLoop(routes: seq<Route>, id: string) returns (next: seq<Route>, found: bool)
    ensures next == DisableRoute(routes, id) && found == HasId(routes, id)
  {
    next, found := [], false;
    for i := 0 to |routes|
      invariant next + DisableRoute(routes[i..], id) == DisableRoute(routes, id)
      invariant HasId(routes, id) <==> found || HasId(routes[i..], id)
    {
      assert routes[i..][1..] == routes[i + 1..];
      var r := routes[i];
      if r.id == id {
        found := true;
        r := r.(enabled := false);
      }
      next := next + [r];
    }
  }

  lemma DropStep(routes: seq<Route>, i: nat, id: string)
    requires i < |routes|
    ensures DropRoute(routes[i..], id) ==
      (if routes[i].id == id then [] else [routes[i]]) + DropRoute(routes[i + 1..], id)
    ensures HasId(routes[i..], id) <==> routes[i].id == id || HasId(routes[i + 1..], id)
  {
    assert routes[i..][0] == routes[i] && routes[i..][1..] == routes[i + 1..];
  }

  lemma DropNothing(id: string)
    ensures DropRoute([], id) == [] && !HasId([], id)
  {
  }

  method DropLoop(routes: seq<Route>, id: string) returns (next: seq<Route>, found: bool)
    ensures next == DropRoute(routes, id) && found == HasId(routes, id)
  {
    hide DropRoute, Lookup;
    next, found := [], false;
    DropNothing(id);
    assert routes[0..] == routes;
    for i := 0 to |routes|
      invariant next + DropRoute(routes[i..], id) == DropRoute(routes, id)
      invariant HasId(routes, id) <==> found || HasId(routes[i..], id)
    {
      DropStep(routes, i, id);
      if routes[i].id == id {
        found := true;
      } else {
        next := next + [routes[i]];
      }
    }
    assert routes[|routes|..] == [] && next + [] == next;
  }

  /** The switch of the original that computes the new list. */
  method ComputeTarget(action: Action, params: Params, routes: seq<Route>) returns (target: Result<seq<Route>, Code>)
    requires action.Apply? ==> params.route.Some?
    requires action.Disable? || action.Remove? ==> params.routeId.Some?
    ensures target == Target(action, params, routes)
  {
    match action {
      case Apply =>
        var next, found := ReplaceLoop(routes, params.route.value);
        if !found {
          next := routes + [params.route.value];
        }
        return Ok(next);
      case Disable =>
        var next, found := DisableLoop(routes, params.routeId.value);
        return if found then Ok(next) else Err(RouteNotFound);
      case Remove =>
        var next, found := DropLoop(routes, params.routeId.value);
        return if found then Ok(next) else Err(RouteNotFound);
      case Uninstall => return Ok([]);
      case _ => return Ok(routes);
    }
  }

  // The table: routes by id ------------------------------------------------------------------------

  type Table = map<string, Route>

  ghost function TableOf(routes: seq<Route>): Table {
    map id | id in Ids(routes) && HasId(routes, id) :: Lookup(routes, id).value
  }

  lemma {:induction false} LookupHas(routes: seq<Route>, id: string)
    ensures HasId(routes, id) <==> id in Ids(routes)
  {
    if routes != [] {
      LookupHas(routes[1..], id);
      assert forall r :: r in routes <==> r == routes[0] || r in routes[1..];
    }
  }

  /** Tables are equal exactly when every lookup agrees. */
  lemma TableEqual(routes: seq<Route>, table: Table)
    requires forall id :: if id in table then Lookup(routes, id) == Some(table[id]) else Lookup(routes, id) == None
    ensures TableOf(routes) == table
  {
    forall id ensures id in TableOf(routes) <==> id in table {
      LookupHas(routes, id);
    }
  }

  lemma TableLookup(routes: seq<Route>, id: string)
    ensures id in TableOf(routes) <==> HasId(routes, id)
    ensures HasId(routes, id) ==> TableOf(routes)[id] == Lookup(routes, id).value
  {
    LookupHas(routes, id);
  }

  /** One operation on the table, independently of how the list is kept. */
  ghost function TableStep(action: Action, params: Params, table: Table): Table {
    match action
    case Apply => if params.route.Some? then table[params.route.value.id := params.route.value] else table
    case Disable =>
      if params.routeId.Some? && params.routeId.value in table
      then table[params.routeId.value := table[params.routeId.value].(enabled := false)] else table
    case Remove => if params.routeId.Some? then table - {params.routeId.value} else table
    case Uninstall => map[]
    case _ => table
  }

  lemma {:induction false} ReplaceLookup(routes: seq<Route>, route: Route, id: string)
    ensures Lookup(ReplaceRoute(routes, route), id) ==
      if id == route.id && HasId(routes, id) then Some(route) else Lookup(routes, id)
  {
    if routes != [] {
      ReplaceLookup(routes[1..], route, id);
    }
  }

  lemma {:induction false} DisableLookup(routes: seq<Route>, x: string, id: string)
    ensures Lookup(DisableRoute(routes, x), id) ==
      if id == x && HasId(routes, id) then Some(Lookup(routes, id).value.(enabled := false)) else Lookup(routes, id)
  {
    if routes != [] {
      DisableLookup(routes[1..], x, id);
    }
  }

  lemma {:induction false} DropLookup(routes: seq<Route>, x: string, id: string)
    ensures Lookup(DropRoute(routes, x), id) == if id == x then None else Lookup(routes, id)
  {
    if routes != [] {
      DropLookup(routes[1..], x, id);
      if routes[0].id != x {
        assert DropRoute(routes, x)[1..] == DropRoute(routes[1..], x);
      } else {
        assert DropRoute(routes, x) == DropRoute(routes[1..], x);
      }
    }
  }

  lemma {:induction false} AppendLookup(routes: seq<Route>, route: Route, id: string)
    ensures Lookup(routes + [route], id) ==
      if HasId(routes, id) then Lookup(routes, id) else if id == route.id then Some(route) else None
  {
    if routes != [] {
      assert (routes + [route])[1..] == routes[1..] + [route];
      AppendLookup(routes[1..], route, id);
    }
  }

  /** The list operations implement the table operations. */
  lemma TargetTable(action: Action, params: Params, routes: seq<Route>)
    requires Target(action, params, routes).Ok?
    ensures TableOf(Target(action, params, routes).value) == TableStep(action, params, TableOf(routes))
  {
    var next := Target(action, params, routes).value;
    var table := TableStep(action, params, TableOf(routes));
    forall id ensures if id in table then Lookup(next, id) == Some(table[id]) else Lookup(next, id) == None {
      TableLookup(routes, id);
      match action {
        case Apply =>
          ReplaceLookup(routes, params.route.value, id);
          AppendLookup(routes, params.route.value, id);
        case Disable =>
          TableLookup(routes, params.routeId.value);
          DisableLookup(routes, params.routeId.value, id);
        case Remove => DropLookup(routes, params.routeId.value, id);
        case _ =>
      }
    }
    TableEqual(next, table);
  }

  lemma {:induction false} LookupUnique(routes: seq<Route>, r: Route)
    requires UniqueIds(routes) && r in routes
    ensures Lookup(routes, r.id) == Some(r)
  {
    if routes[0] != r {
      assert r in routes[1..];
      var i :| 0 < i < |routes| && routes[i] == r;
      LookupUnique(routes[1..], r);
    }
  }

  /** With unique ids, two lists with one table have the same members. */
  lemma TableMembers(a: seq<Route>, b: seq<Route>)
    requires UniqueIds(a) && UniqueIds(b) && TableOf(a) == TableOf(b)
    ensures forall r :: r in a <==> r in b
  {
    forall r ensures r in a <==> r in b {
      TableLookup(a, r.id);
      TableLookup(b, r.id);
      if r in a { LookupUnique(a, r); }
      if r in b { LookupUnique(b, r); }
    }
  }
}
