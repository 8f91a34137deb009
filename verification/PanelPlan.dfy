/** The Panel's local route table, and what it plans for a new relay operation. */
module PanelPlan {
  import opened Text
  import opened Ipv4
  import opened Order
  import opened RelayRoutes
  import opened RelayTable
  import opened RelayEngine

  /** A row of relay_routes: the route as sent over the wire, and the Instance it belongs to. */
  datatype LocalRoute = LocalRoute(wire: Route, instance: string)

  function Wire(rows: seq<LocalRoute>): (routes: seq<Route>)
    ensures |routes| == |rows| && forall i :: 0 <= i < |rows| ==> routes[i] == rows[i].wire
  {
    if rows == [] then [] else [rows[0].wire] + Wire(rows[1..])
  }

  datatype Body = Body(expected: Option<Fingerprint>, instance: string, listenPort: Option<int>, routeId: string)

  datatype OpStatus = Pending | Succeeded | Failed | Uncertain

  /** Errors of a call: a code from the relay, or one of the Panel's own. */
  datatype Error = Remote(code: Code) | StateConflict | InvalidResponse | Transport | Internal | Refused

  /** A row of relay_operations, with the stored request. */
  datatype Operation = Operation(
    action: Action, body: Body, params: Params, routes: seq<LocalRoute>, status: OpStatus, error: Option<Error>)
  {
    predicate Unsettled() {
      status.Pending? || status.Uncertain?
    }
  }

  /** What discovery on the VPN node yields for an apply: the node's address, the UDP port, a fresh route id. */
  datatype Discovery = NoDiscovery | Discovered(host: string, udpPort: int, freshId: string)

  // Addresses -------------------------------------------------------------------------------------

  predicate PublicIpv4(s: string) {
    var o := Octets(s);
    && o.Some?
    && var a, b := o.value[0], o.value[1];
    && a != 0 && a != 10 && a != 127 && a < 224
    && !(a == 169 && b == 254)
    && !(a == 172 && 16 <= b <= 31)
    && !(a == 192 && b == 168)
    && !(a == 100 && 64 <= b <= 127)
  }

  /** Every address the Panel accepts, the relay accepts. */
  lemma PublicIsValidUpstream(s: string)
    requires PublicIpv4(s)
    ensures ValidUpstream(s)
  {
  }

  /** What the Panel takes for a public address, block by block. */
  lemma PublicBlocks(n: int)
    requires 0 <= n < TOP
    ensures PublicIpv4(Dotted(n)) <==>
      && 0x0100_0000 <= n < 0xE000_0000
      && !(0x0A00_0000 <= n < 0x0B00_0000)
      && !(0x6440_0000 <= n < 0x6480_0000)
      && !(0x7F00_0000 <= n < 0x8000_0000)
      && !(0xA9FE_0000 <= n < 0xA9FF_0000)
      && !(0xAC10_0000 <= n < 0xAC20_0000)
      && !(0xC0A8_0000 <= n < 0xC0A9_0000)
  {
    hide Octets, Dotted;
    OctetsOfDotted(n);
  }

  // The local table -------------------------------------------------------------------------------

  function RowId(r: LocalRoute): string {
    r.wire.id
  }

  function RowPort(r: LocalRoute): int {
    r.wire.listenPort
  }

  function RowInstance(r: LocalRoute): string {
    r.instance
  }

  predicate LocalOk(rows: seq<LocalRoute>) {
    && (forall r :: r in rows ==> ValidRoute(r.wire) && PublicIpv4(r.wire.upstreamIPv4))
    && DistinctKeys(RowId, rows)
    && DistinctKeys(RowPort, rows)
    && DistinctKeys(RowInstance, rows)
  }

  lemma LocalWire(rows: seq<LocalRoute>)
    requires LocalOk(rows)
    ensures WellFormed(Wire(rows))
    ensures forall r :: r in Wire(rows) ==> PublicIpv4(r.upstreamIPv4)
  {
    var w := Wire(rows);
    forall r | r in w ensures ValidRoute(r) && PublicIpv4(r.upstreamIPv4) {
      var i :| 0 <= i < |w| && w[i] == r;
      assert rows[i] in rows;
    }
    forall i, j | 0 <= i < j < |w| ensures w[i].id != w[j].id && w[i].listenPort != w[j].listenPort {
      assert RowId(rows[i]) != RowId(rows[j]) && RowPort(rows[i]) != RowPort(rows[j]);
    }
  }

  function RouteKey(r: Route): string {
    r.id
  }

  /** The comparison of the original: both lists sorted by id, then compared by their canonical text. */
  predicate SameRoutes(a: seq<Route>, b: seq<Route>) {
    SortBy(RouteKey, a) == SortBy(RouteKey, b)
  }

  lemma SameRoutesTable(a: seq<Route>, b: seq<Route>)
    requires UniqueIds(a) && UniqueIds(b)
    ensures SameRoutes(a, b) <==> TableOf(a) == TableOf(b)
  {
    SortForgetsOrder(RouteKey, a, b);
    if TableOf(a) == TableOf(b) {
      TableMembers(a, b);
    }
    if forall x :: x in a <==> x in b {
      forall id ensures Lookup(a, id) == Lookup(b, id) {
        if HasId(a, id) { LookupUnique(b, Lookup(a, id).value); }
        if HasId(b, id) { LookupUnique(a, Lookup(b, id).value); }
      }
      forall id ensures id in TableOf(a) <==> id in TableOf(b) {
        TableLookup(a, id);
        TableLookup(b, id);
      }
      forall id | id in TableOf(a) ensures TableOf(a)[id] == TableOf(b)[id] {
        TableLookup(a, id);
        TableLookup(b, id);
      }
    }
  }

  lemma SameRoutesLength(a: seq<Route>, b: seq<Route>)
    requires SameRoutes(a, b)
    ensures |a| == |b|
  {
    SortLength(RouteKey, a);
    SortLength(RouteKey, b);
  }

  // Planning a new operation ------------------------------------------------------------------------

  function InstanceRoute(rows: seq<LocalRoute>, instance: string): Option<LocalRoute> {
    if rows == [] then None
    else if rows[0].instance == instance then Some(rows[0])
    else InstanceRoute(rows[1..], instance)
  }

  function WithoutInstance(rows: seq<LocalRoute>, instance: string): seq<LocalRoute> {
    Keep((r: LocalRoute) => r.instance != instance, rows)
  }

  function WithoutRoute(rows: seq<LocalRoute>, id: string): seq<LocalRoute> {
    Keep((r: LocalRoute) => r.wire.id != id, rows)
  }

  function DisabledRow(r: LocalRoute, id: string): LocalRoute {
    if r.wire.id == id then r.(wire := r.wire.(enabled := false)) else r
  }

  function WithDisabled(rows: seq<LocalRoute>, id: string): (next: seq<LocalRoute>)
    ensures |next| == |rows| && forall i :: 0 <= i < |rows| ==> next[i] == DisabledRow(rows[i], id)
  {
    if rows == [] then [] else [DisabledRow(rows[0], id)] + WithDisabled(rows[1..], id)
  }

  predicate PortTaken(rows: seq<LocalRoute>, port: int, instance: string) {
    exists r :: r in rows && r.wire.listenPort == port && r.instance != instance
  }

  /** The parameters to send and the rows to store once the relay has confirmed them. */
  function Plan(rows: seq<LocalRoute>, action: Action, body: Body, d: Discovery): Result<(Params, seq<LocalRoute>),
    Error>
  {
    match action
    case StatusQuery => Err(Refused)
    case Apply =>
      if d.NoDiscovery? || !PublicIpv4(d.host) || !(1 <= d.udpPort <= 65535) then Err(Refused)
      else
        var previous := InstanceRoute(rows, body.instance);
        var port := if body.listenPort.Some? then body.listenPort.value else d.udpPort;
        if port < 1024 || port > 65535 || PortTaken(rows, port, body.instance) then Err(Refused)
        else
          var id := if previous.Some? then previous.value.wire.id else d.freshId;
          var route := Route(id, port, d.host, d.udpPort, true);
          Ok((Params(body.expected, Some(route), None), WithoutInstance(rows, body.instance) +
            [LocalRoute(route, body.instance)]))
    case Disable =>
      if HasId(Wire(rows), body.routeId)
      then Ok((Params(body.expected, None, Some(body.routeId)), WithDisabled(rows, body.routeId))) else Err(Refused)
    case Remove =>
      if HasId(Wire(rows), body.routeId)
      then Ok((Params(body.expected, None, Some(body.routeId)), WithoutRoute(rows, body.routeId))) else Err(Refused)
    case Uninstall => Ok((Params(body.expected, None, None), []))
    case _ => Ok((Params(body.expected, None, None), rows))
  }

  lemma {:induction false} DisabledWire(rows: seq<LocalRoute>, id: string)
    ensures Wire(WithDisabled(rows, id)) == DisableRoute(Wire(rows), id)
  {
    if rows != [] {
      DisabledWire(rows[1..], id);
      assert WithDisabled(rows, id)[1..] == WithDisabled(rows[1..], id);
      assert Wire(rows)[1..] == Wire(rows[1..]);
    }
  }

  lemma {:induction false} KeepLookup(p: LocalRoute -> bool, rows: seq<LocalRoute>, id: string)
    requires DistinctKeys(RowId, rows)
    ensures Lookup(Wire(Keep(p, rows)), id) ==
      if exists r :: r in rows && p(r) && r.wire.id == id then Lookup(Wire(rows), id) else None
  {
    if rows != [] {
      var tail := rows[1..];
      KeepLookup(p, tail, id);
      assert Wire(rows)[1..] == Wire(tail);
      assert forall r :: r in rows <==> r == rows[0] || r in tail;
      if p(rows[0]) {
        assert Wire(Keep(p, rows)) == [rows[0].wire] + Wire(Keep(p, tail));
      } else {
        assert Keep(p, rows) == Keep(p, tail);
      }
      if rows[0].wire.id == id {
        forall r | r in tail ensures r.wire.id != id {
          var k := TailMember(rows, r);
          assert RowId(rows[0]) != RowId(rows[k]);
        }
      }
    }
  }

  lemma KeepOk(p: LocalRoute -> bool, rows: seq<LocalRoute>)
    requires LocalOk(rows)
    ensures LocalOk(Keep(p, rows))
  {
    KeepDistinct(RowId, p, rows);
    KeepDistinct(RowPort, p, rows);
    KeepDistinct(RowInstance, p, rows);
    forall r | r in Keep(p, rows) ensures r in rows {
      KeepMember(p, rows, r);
    }
  }

  lemma {:induction false} InstanceRouteFacts(rows: seq<LocalRoute>, instance: string)
    ensures var r := InstanceRoute(rows, instance);
      if r.Some? then r.value in rows && r.value.instance == instance
      else forall x :: x in rows ==> x.instance != instance
  {
    if rows != [] {
      InstanceRouteFacts(rows[1..], instance);
      assert forall x :: x in rows <==> x == rows[0] || x in rows[1..];
    }
  }

  lemma {:induction false} WireLookup(rows: seq<LocalRoute>, id: string)
    ensures HasId(Wire(rows), id) <==> exists r :: r in rows && r.wire.id == id
    ensures HasId(Wire(rows), id) ==> exists r :: r in rows && r.wire == Lookup(Wire(rows), id).value
  {
    if rows != [] {
      WireLookup(rows[1..], id);
      assert Wire(rows)[1..] == Wire(rows[1..]);
      assert forall x :: x in rows <==> x == rows[0] || x in rows[1..];
    }
  }

  lemma {:induction false} WireAppend(rows: seq<LocalRoute>, r: LocalRoute)
    ensures Wire(rows + [r]) == Wire(rows) + [r.wire]
  {
    if rows == [] {
      assert rows + [r] == [r];
    } else {
      assert (rows + [r])[1..] == rows[1..] + [r];
      WireAppend(rows[1..], r);
    }
  }

  /** When an operation may begin: the fresh discovery, the port and the route that the action needs are there. */
  ghost predicate MayBegin(rows: seq<LocalRoute>, action: Action, body: Body, d: Discovery) {
    match action
    case StatusQuery => false
    case Apply =>
      && d.Discovered? && PublicIpv4(d.host) && 1 <= d.udpPort <= 65535
      && var port := if body.listenPort.Some? then body.listenPort.value else d.udpPort;
      && 1024 <= port <= 65535
      && forall k :: 0 <= k < |rows| && rows[k].instance != body.instance ==> rows[k].wire.listenPort != port
    case Disable => exists k :: 0 <= k < |rows| && rows[k].wire.id == body.routeId
    case Remove => exists k :: 0 <= k < |rows| && rows[k].wire.id == body.routeId
    case _ => true
  }

  /** What an operation asks of the relay, and which rows it leaves when the relay has done it. */
  ghost predicate Asks(rows: seq<LocalRoute>, action: Action, body: Body, d: Discovery, params: Params,
    next: seq<LocalRoute>)
  {
    && params.expected == body.expected
    && match action {
        case Apply =>
          params.routeId.None? && params.route.Some? && AppliesRoute(rows, body, d, params.route.value, next)
        case Disable =>
          && params == Params(body.expected, None, Some(body.routeId)) && |next| == |rows|
          && forall k :: 0 <= k < |rows| ==>
               next[k] ==
               if rows[k].wire.id == body.routeId then rows[k].(wire := rows[k].wire.(enabled := false)) else rows[k]
        case Remove =>
          && params == Params(body.expected, None, Some(body.routeId))
          && forall r :: r in next <==> r in rows && r.wire.id != body.routeId
        case Uninstall => params == Params(body.expected, None, None) && next == []
        case _ => params == Params(body.expected, None, None) && next == rows
      }
  }

  /** The enabled route from the requested or discovered port to the discovered node, under the instance's old id. */
  ghost predicate AppliesRoute(rows: seq<LocalRoute>, body: Body, d: Discovery, route: Route, next: seq<LocalRoute>) {
    && d.Discovered? && route.enabled
    && route.upstreamIPv4 == d.host && route.upstreamPort == d.udpPort
    && route.listenPort == (if body.listenPort.Some? then body.listenPort.value else d.udpPort)
    && (forall k :: 0 <= k < |rows| && rows[k].instance == body.instance ==> route.id == rows[k].wire.id)
    && ((forall k :: 0 <= k < |rows| ==> rows[k].instance != body.instance) ==> route.id == d.freshId)
    && forall r: LocalRoute :: r in next <==>
         r == LocalRoute(route, body.instance) || (r in rows && r.instance != body.instance)
  }

  lemma ApplyAsks(rows: seq<LocalRoute>, body: Body, d: Discovery)
    requires LocalOk(rows) && Plan(rows, Apply, body, d).Ok?
    ensures var (params, next) := Plan(rows, Apply, body, d).value; Asks(rows, Apply, body, d, params, next)
  {
    hide ValidRoute, PublicIpv4;
    InstanceRouteFacts(rows, body.instance);
    var previous := InstanceRoute(rows, body.instance);
    if previous.Some? {
      var j :| 0 <= j < |rows| && rows[j] == previous.value;
      forall k | 0 <= k < |rows| && rows[k].instance == body.instance ensures k == j {
        assert k != j ==> RowInstance(rows[k]) != RowInstance(rows[j]);
      }
    }
    var kept := WithoutInstance(rows, body.instance);
    forall r ensures r in kept <==> r in rows && r.instance != body.instance {
      KeepMember((r: LocalRoute) => r.instance != body.instance, rows, r);
    }
  }

  lemma ApplyMayBegin(rows: seq<LocalRoute>, body: Body, d: Discovery)
    ensures Plan(rows, Apply, body, d).Ok? <==> MayBegin(rows, Apply, body, d)
  {
    hide PublicIpv4, InstanceRoute, WithoutInstance;
    assert forall r :: r in rows <==> exists k :: 0 <= k < |rows| && rows[k] == r;
  }

  lemma RemoveAsks(rows: seq<LocalRoute>, body: Body, d: Discovery)
    requires Plan(rows, Remove, body, d).Ok?
    ensures var (params, next) := Plan(rows, Remove, body, d).value; Asks(rows, Remove, body, d, params, next)
  {
    hide Wire, Lookup;
    forall r ensures r in WithoutRoute(rows, body.routeId) <==> r in rows && r.wire.id != body.routeId {
      KeepMember((r: LocalRoute) => r.wire.id != body.routeId, rows, r);
    }
  }

  /** Planning refuses exactly what may not begin, and otherwise means what the action says. */
  lemma PlanAsks(rows: seq<LocalRoute>, action: Action, body: Body, d: Discovery)
    requires LocalOk(rows)
    ensures Plan(rows, action, body, d).Ok? <==> MayBegin(rows, action, body, d)
    ensures Plan(rows, action, body, d).Ok? ==>
      var (params, next) := Plan(rows, action, body, d).value; Asks(rows, action, body, d, params, next)
  {
    match action {
      case Apply =>
        hide Plan, MayBegin, Asks, LocalOk;
        ApplyMayBegin(rows, body, d);
        if Plan(rows, action, body, d).Ok? { ApplyAsks(rows, body, d); }
      case Remove =>
        hide Asks, Wire, Lookup, WithoutRoute, LocalOk;
        WireLookup(rows, body.routeId);
        if Plan(rows, action, body, d).Ok? { RemoveAsks(rows, body, d); }
      case _ =>
        hide Wire, Lookup, LocalOk;
        WireLookup(rows, body.routeId);
    }
  }

  predicate FreshFor(rows: seq<LocalRoute>, d: Discovery) {
    d.Discovered? ==> IsUuidV7(d.freshId) && !HasId(Wire(rows), d.freshId)
  }

  /** The row an apply replaces is the only one with its instance, and the only one with its route id. */
  lemma OthersDiffer(rows: seq<LocalRoute>, body: Body, d: Discovery, r: LocalRoute)
    requires LocalOk(rows) && FreshFor(rows, d) && Plan(rows, Apply, body, d).Ok?
    requires r in rows
    ensures r.instance != body.instance <==> r.wire.id != Plan(rows, Apply, body, d).value.0.route.value.id
  {
    hide ValidRoute, PublicIpv4, Plan, Wire, Lookup;
    ApplyAsks(rows, body, d);
    WireLookup(rows, r.wire.id);
    var i :| 0 <= i < |rows| && rows[i] == r;
    if j :| 0 <= j < |rows| && rows[j].instance == body.instance {
      assert i != j ==> RowId(rows[i]) != RowId(rows[j]) && RowInstance(rows[i]) != RowInstance(rows[j]);
    }
  }

  lemma PlanApplyRoute(rows: seq<LocalRoute>, body: Body, d: Discovery)
    requires LocalOk(rows) && FreshFor(rows, d) && Plan(rows, Apply, body, d).Ok?
    ensures var (params, next) := Plan(rows, Apply, body, d).value;
      && params.route.Some? && ValidRoute(params.route.value) && PublicIpv4(params.route.value.upstreamIPv4)
      && next == WithoutInstance(rows, body.instance) + [LocalRoute(params.route.value, body.instance)]
      && !PortTaken(rows, params.route.value.listenPort, body.instance)
  {
    hide Keep, WithoutInstance, PortTaken, PublicIpv4, ValidUpstream;
    InstanceRouteFacts(rows, body.instance);
    PublicIsValidUpstream(d.host);
  }

  lemma PlanApplyOk(rows: seq<LocalRoute>, body: Body, d: Discovery)
    requires LocalOk(rows) && FreshFor(rows, d) && Plan(rows, Apply, body, d).Ok?
    ensures var (params, next) := Plan(rows, Apply, body, d).value;
      LocalOk(next) && params.route.Some? && ValidRoute(params.route.value)
  {
    hide ValidRoute, PublicIpv4, Plan, FreshFor;
    PlanApplyRoute(rows, body, d);
    var (params, next) := Plan(rows, Apply, body, d).value;
    var route := params.route.value;
    var kept := WithoutInstance(rows, body.instance);
    var row := LocalRoute(route, body.instance);
    var p := (r: LocalRoute) => r.instance != body.instance;
    assert kept == Keep(p, rows);
    KeepOk(p, rows);
    forall r | r in kept
      ensures RowInstance(r) != RowInstance(row) && RowId(r) != RowId(row) && RowPort(r) != RowPort(row) {
      KeepMember(p, rows, r);
      OthersDiffer(rows, body, d, r);
    }
    DistinctAppend(RowId, kept, row);
    DistinctAppend(RowPort, kept, row);
    DistinctAppend(RowInstance, kept, row);
    assert forall r :: r in next <==> r in kept || r == row;
  }

  /** Dropping the row of an instance drops exactly its route id. */
  lemma WithoutInstanceLookup(rows: seq<LocalRoute>, instance: string, routeId: string, id: string)
    requires DistinctKeys(RowId, rows)
    requires forall r :: r in rows ==> (r.instance != instance <==> r.wire.id != routeId)
    ensures Lookup(Wire(WithoutInstance(rows, instance)), id) == if id == routeId then None else Lookup(Wire(rows), id)
  {
    var p := (r: LocalRoute) => r.instance != instance;
    assert WithoutInstance(rows, instance) == Keep(p, rows);
    KeepLookup(p, rows, id);
    WireLookup(rows, id);
  }

  /** A planned apply changes exactly the entry of its route. */
  lemma PlanApplyTable(rows: seq<LocalRoute>, body: Body, d: Discovery)
    requires LocalOk(rows) && FreshFor(rows, d) && Plan(rows, Apply, body, d).Ok?
    ensures var (params, next) := Plan(rows, Apply, body, d).value;
      params.route.Some? && TableOf(Wire(next)) == TableOf(Wire(rows))[params.route.value.id := params.route.value]
  {
    var (params, next) := Plan(rows, Apply, body, d).value;
    var route := params.route.value;
    forall r | r in rows ensures r.instance != body.instance <==> r.wire.id != route.id {
      OthersDiffer(rows, body, d, r);
    }
    WireAppend(WithoutInstance(rows, body.instance), LocalRoute(route, body.instance));
    var kept, before := Wire(WithoutInstance(rows, body.instance)), Wire(rows);
    assert Wire(next) == kept + [route];
    LocalRows(rows);
    forall id ensures Lookup(kept, id) == if id == route.id then None else Lookup(before, id) {
      WithoutInstanceLookup(rows, body.instance, route.id, id);
    }
    AppendedTable(before, kept, route);
  }

  lemma AppendedTable(before: seq<Route>, kept: seq<Route>, route: Route)
    requires forall id :: Lookup(kept, id) == if id == route.id then None else Lookup(before, id)
    ensures TableOf(kept + [route]) == TableOf(before)[route.id := route]
  {
    var table := TableOf(before)[route.id := route];
    forall id
      ensures if id in table then Lookup(kept + [route], id) == Some(table[id])
        else Lookup(kept + [route], id) == None {
      TableLookup(before, id);
      AppendLookup(kept, route, id);
    }
    TableEqual(kept + [route], table);
  }

  lemma LocalRows(rows: seq<LocalRoute>)
    requires LocalOk(rows)
    ensures DistinctKeys(RowId, rows) && DistinctKeys(RowPort, rows) && DistinctKeys(RowInstance, rows)
  {
  }

  lemma DisabledRowFacts(r: LocalRoute, id: string)
    ensures RowId(DisabledRow(r, id)) == RowId(r) && RowPort(DisabledRow(r, id)) == RowPort(r)
    ensures RowInstance(DisabledRow(r, id)) == RowInstance(r)
    ensures DisabledRow(r, id).wire.upstreamIPv4 == r.wire.upstreamIPv4
    ensures ValidRoute(r.wire) ==> ValidRoute(DisabledRow(r, id).wire)
  {
  }

  lemma DisabledDistinct<K>(key: LocalRoute -> K, rows: seq<LocalRoute>, id: string)
    requires forall r :: key(DisabledRow(r, id)) == key(r)
    requires DistinctKeys(key, rows)
    ensures DistinctKeys(key, WithDisabled(rows, id))
  {
    hide DisabledRow;
    var next := WithDisabled(rows, id);
    forall i, j | 0 <= i < j < |next| ensures key(next[i]) != key(next[j]) {
      assert key(rows[i]) != key(rows[j]);
    }
  }

  lemma DisabledOk(rows: seq<LocalRoute>, id: string)
    requires LocalOk(rows)
    ensures LocalOk(WithDisabled(rows, id))
  {
    hide ValidRoute, PublicIpv4, DisabledRow;
    forall r ensures RowId(DisabledRow(r, id)) == RowId(r) && RowPort(DisabledRow(r, id)) == RowPort(r)
      && RowInstance(DisabledRow(r, id)) == RowInstance(r)
    {
      DisabledRowFacts(r, id);
    }
    DisabledDistinct(RowId, rows, id);
    DisabledDistinct(RowPort, rows, id);
    DisabledDistinct(RowInstance, rows, id);
    var next := WithDisabled(rows, id);
    forall r | r in next ensures ValidRoute(r.wire) && PublicIpv4(r.wire.upstreamIPv4) {
      var i :| 0 <= i < |next| && next[i] == r;
      DisabledRowFacts(rows[i], id);
      assert rows[i] in rows;
    }
  }

  lemma PlanDisable(rows: seq<LocalRoute>, id: string)
    requires LocalOk(rows) && HasId(Wire(rows), id)
    ensures LocalOk(WithDisabled(rows, id))
    ensures TableOf(Wire(WithDisabled(rows, id))) ==
      TableStep(Disable, Params(None, None, Some(id)), TableOf(Wire(rows)))
  {
    hide LocalOk, WithDisabled, DisableRoute, TableStep, TableOf;
    DisabledWire(rows, id);
    DisabledOk(rows, id);
    TargetTable(Disable, Params(None, None, Some(id)), Wire(rows));
  }

  lemma PlanRemove(rows: seq<LocalRoute>, id: string)
    requires LocalOk(rows)
    ensures LocalOk(WithoutRoute(rows, id))
    ensures TableOf(Wire(WithoutRoute(rows, id))) == TableOf(Wire(rows)) - {id}
  {
    var p := (r: LocalRoute) => r.wire.id != id;
    assert WithoutRoute(rows, id) == Keep(p, rows);
    KeepOk(p, rows);
    var table := TableOf(Wire(rows)) - {id};
    forall x ensures if x in table then Lookup(Wire(Keep(p, rows)), x) == Some(table[x])
      else Lookup(Wire(Keep(p, rows)), x) == None {
      TableLookup(Wire(rows), x);
      KeepLookup(p, rows, x);
      WireLookup(rows, x);
    }
    TableEqual(Wire(Keep(p, rows)), table);
  }

  /** What the Panel plans locally is what the request means for the table. */
  lemma PlanTable(rows: seq<LocalRoute>, action: Action, body: Body, d: Discovery, op: string)
    requires LocalOk(rows) && FreshFor(rows, d) && Plan(rows, action, body, d).Ok?
    requires body.expected.Some? && 1 <= |op| <= 128 && All(OperationChar, op)
    ensures var (params, next) := Plan(rows, action, body, d).value;
      && LocalOk(next)
      && params.expected == body.expected
      && ValidRequest(Request(action, op, params))
      && TableOf(Wire(next)) == TableStep(action, params, TableOf(Wire(rows)))
  {
    LocalWire(rows);
    match action {
      case Apply =>
        PlanApplyOk(rows, body, d);
        PlanApplyTable(rows, body, d);
      case Disable => PlanDisable(rows, body.routeId);
      case Remove => PlanRemove(rows, body.routeId);
      case Uninstall => TableEqual([], map[]);
      case _ =>
    }
  }
}
