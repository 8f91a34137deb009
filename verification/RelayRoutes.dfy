/** The relay's route table and the nginx configuration rendered from it. */
module RelayRoutes {
  import opened Text
  import opened Ipv4

  datatype Route = Route(id: string, listenPort: int, upstreamIPv4: string, upstreamPort: int, enabled: bool)

  // Valid routes ---------------------------------------------------------------------------------

  predicate IsHex(c: char) {
    IsDigit(c) || 'a' <= c <= 'f'
  }

  /** Lower-case UUID of version 7. */
  predicate IsUuidV7(s: string) {
    && |s| == 36
    && s[8] == '-' && s[13] == '-' && s[18] == '-' && s[23] == '-'
    && s[14] == '7'
    && s[19] in "89ab"
    && forall i :: 0 <= i < 36 && i !in [8, 13, 18, 23] ==> IsHex(s[i])
  }

  /** Five groups of hexadecimal digits: the third begins with the version, the fourth with the variant. */
  ghost predicate Groups(s: string, a: string, b: string, c: string, v: char, d: string, e: string) {
    && s == a + "-" + b + "-7" + c + "-" + [v] + d + "-" + e
    && |a| == 8 && |b| == 4 && |c| == 3 && v in "89ab" && |d| == 3 && |e| == 12
    && All(IsHex, a) && All(IsHex, b) && All(IsHex, c) && All(IsHex, d) && All(IsHex, e)
  }

  lemma UuidGroups(s: string)
    ensures IsUuidV7(s) <==> exists a, b, c, v, d, e :: Groups(s, a, b, c, v, d, e)
  {
    hide IsHex, Groups;
    if IsUuidV7(s) {
      UuidIsGroups(s);
    }
    if a, b, c, v, d, e :| Groups(s, a, b, c, v, d, e) {
      GroupsAreUuid(s, a, b, c, v, d, e);
    }
  }

  lemma UuidIsGroups(s: string)
    requires IsUuidV7(s)
    ensures Groups(s, s[..8], s[9..13], s[15..18], s[19], s[20..23], s[24..])
  {
    hide IsHex;
    assert s == s[..8] + "-" + s[9..13] + "-7" + s[15..18] + "-" + [s[19]] + s[20..23] + "-" + s[24..];
  }

  lemma GroupsAreUuid(s: string, a: string, b: string, c: string, v: char, d: string, e: string)
    requires Groups(s, a, b, c, v, d, e)
    ensures IsUuidV7(s)
  {
    hide IsHex;
    assert s[..8] == a && s[9..13] == b && s[15..18] == c && s[20..23] == d && s[24..] == e;
    forall i | 0 <= i < 36 && i !in [8, 13, 18, 23] ensures IsHex(s[i]) {
      if i == 14 || i == 19 { UuidDigits(s[i]); }
    }
  }

  lemma UuidDigits(c: char)
    requires c == '7' || c in "89ab"
    ensures IsHex(c)
  {
  }

  /** Go's IsGlobalUnicast and not IsPrivate, on the four octets of an address. */
  predicate GlobalUnicast(o: seq<nat>)
    requires |o| == 4
  {
    && o != [255, 255, 255, 255]
    && o != [0, 0, 0, 0]
    && o[0] != 127
    && !(224 <= o[0] <= 239)
    && !(o[0] == 169 && o[1] == 254)
    && o[0] != 10
    && !(o[0] == 172 && 16 <= o[1] <= 31)
    && !(o[0] == 192 && o[1] == 168)
  }

  predicate ValidUpstream(s: string) {
    var o := Octets(s);
    o.Some? && GlobalUnicast(o.value)
  }

  /** The relay forwards to every address outside these blocks. */
  lemma UpstreamBlocks(n: int)
    requires 0 <= n < TOP
    ensures ValidUpstream(Dotted(n)) <==>
      && n != 0 && n != 0xFFFF_FFFF
      && !(0x0A00_0000 <= n < 0x0B00_0000)
      && !(0x7F00_0000 <= n < 0x8000_0000)
      && !(0xA9FE_0000 <= n < 0xA9FF_0000)
      && !(0xAC10_0000 <= n < 0xAC20_0000)
      && !(0xC0A8_0000 <= n < 0xC0A9_0000)
      && !(0xE000_0000 <= n < 0xF000_0000)
  {
    hide Octets, Dotted;
    OctetsOfDotted(n);
  }

  predicate ValidRoute(r: Route) {
    && IsUuidV7(r.id)
    && 1024 <= r.listenPort <= 65535
    && 1 <= r.upstreamPort <= 65535
    && ValidUpstream(r.upstreamIPv4)
  }

  predicate UniqueIds(routes: seq<Route>) {
    forall i, j :: 0 <= i < j < |routes| ==> routes[i].id != routes[j].id
  }

  predicate UniquePorts(routes: seq<Route>) {
    forall i, j :: 0 <= i < j < |routes| ==> routes[i].listenPort != routes[j].listenPort
  }

  predicate WellFormed(routes: seq<Route>) {
    && (forall r :: r in routes ==> ValidRoute(r))
    && UniqueIds(routes)
    && UniquePorts(routes)
  }

  // Rendering ------------------------------------------------------------------------------------

  predicate SortedByPort(routes: seq<Route>) {
    |routes| > 1 ==> routes[0].listenPort <= routes[1].listenPort && SortedByPort(routes[1..])
  }

  lemma {:induction false} SortedHead(routes: seq<Route>, i: int)
    requires SortedByPort(routes) && 0 <= i < |routes|
    ensures routes[0].listenPort <= routes[i].listenPort
  {
    if i > 0 { SortedHead(routes[1..], i - 1); }
  }

  function InsertByPort(r: Route, routes: seq<Route>): (s: seq<Route>)
    requires SortedByPort(routes)
    ensures multiset(s) == multiset(routes) + multiset{r}
    ensures |s| == |routes| + 1
    ensures s[0] == r || (routes != [] && s[0] == routes[0])
    ensures SortedByPort(s)
  {
    if routes == [] then [r]
    else if r.listenPort <= routes[0].listenPort then [r] + routes
    else
      assert routes == [routes[0]] + routes[1..];
      [routes[0]] + InsertByPort(r, routes[1..])
  }

  function SortByPort(routes: seq<Route>): (s: seq<Route>)
    ensures SortedByPort(s) && multiset(s) == multiset(routes)
  {
    if routes == [] then []
    else
      assert routes == [routes[0]] + routes[1..];
      InsertByPort(routes[0], SortByPort(routes[1..]))
  }

  /** The fixed parts of the configuration around the rendered values. */
  datatype Template = Template(header: string, listen: string, pass: string, tail: string, footer: string) {
    /** Each fixed part ends the value written before it, and a server cannot be taken for the footer. */
    predicate Delimits() {
      && listen != [] && footer != [] && listen[0] != footer[0]
      && pass != [] && !IsDigit(pass[0])
      && tail != [] && !IsDigit(tail[0])
    }
  }

  const NGINX: Template := Template(
    "# Managed by AWG Control; dedicated UDP relay only.\nload_module /usr/lib/nginx/modules/ngx_stream_module.so;\nworker_processes 1;\nworker_shutdown_timeout 5s;\npid /run/awg-control-relay/nginx.pid;\nerror_log stderr warn;\nevents { worker_connections 4096; }\nstream {\n  access_log off;\n",
    "  server {\n    listen 0.0.0.0:",
    " udp reuseport;\n    proxy_pass ",
    ";" + "\n    proxy_timeout 120s;\n    proxy_requests 0;\n    proxy_protocol off;\n  }\n",
    "}\n")

  /** What one enabled route contributes to the configuration: its id is not part of the text. */
  datatype Listener = Listener(port: int, address: string, upstreamPort: int)

  function ListenerOf(r: Route): Listener {
    Listener(r.listenPort, r.upstreamIPv4, r.upstreamPort)
  }

  function Server(t: Template, l: Listener): string {
    t.listen + Integer(l.port) + t.pass + l.address + ":" + Integer(l.upstreamPort) + t.tail
  }

  function Servers(t: Template, ls: seq<Listener>): string {
    if ls == [] then "" else Server(t, ls[0]) + Servers(t, ls[1..])
  }

  function ConfigText(t: Template, ls: seq<Listener>): string {
    t.header + Servers(t, ls) + t.footer
  }

  function Enabled(routes: seq<Route>): seq<Listener> {
    if routes == [] then []
    else if routes[0].enabled then [ListenerOf(routes[0])] + Enabled(routes[1..])
    else Enabled(routes[1..])
  }

  /** The enabled listeners as a set: what the relay forwards. */
  ghost function EnabledSet(routes: seq<Route>): set<Listener> {
    set r | r in routes && r.enabled :: Listener(r.listenPort, r.upstreamIPv4, r.upstreamPort)
  }

  function RenderWith(t: Template, routes: seq<Route>): Option<string> {
    if WellFormed(routes) then
      Some(ConfigText(t, Enabled(SortByPort(routes))))
    else None
  }

  /** The text installed for a table, or None for an invalid or conflicting one. */
  function Render(routes: seq<Route>): Option<string> {
    RenderWith(NGINX, routes)
  }

  lemma RenderAccepts(routes: seq<Route>)
    ensures Render(routes).Some? <==> WellFormed(routes)
  {
  }

  lemma SameMembers(a: seq<Route>, b: seq<Route>)
    requires multiset(a) == multiset(b)
    ensures forall r :: r in a <==> r in b
  {
    forall r ensures r in a <==> r in b {
      assert r in a <==> r in multiset(a);
      assert r in b <==> r in multiset(b);
    }
  }

  lemma {:induction false} ServersSnoc(t: Template, ls: seq<Listener>, l: Listener)
    ensures Servers(t, ls + [l]) == Servers(t, ls) + Server(t, l)
  {
    if ls == [] {
      assert ls + [l] == [l];
      assert Servers(t, [l]) == Server(t, l) + Servers(t, []);
    } else {
      assert (ls + [l])[1..] == ls[1..] + [l];
      ServersSnoc(t, ls[1..], l);
    }
  }

  lemma {:induction false} EnabledSnoc(routes: seq<Route>, r: Route)
    ensures Enabled(routes + [r]) == Enabled(routes) + if r.enabled then [ListenerOf(r)] else []
  {
    if routes == [] {
      assert routes + [r] == [r];
      assert Enabled([r][1..]) == [];
    } else {
      assert (routes + [r])[1..] == routes[1..] + [r];
      EnabledSnoc(routes[1..], r);
    }
  }

  lemma {:induction false} EnabledMembers(routes: seq<Route>)
    ensures forall l :: l in Enabled(routes) <==> l in EnabledSet(routes)
  {
    if routes != [] {
      EnabledMembers(routes[1..]);
      assert forall r :: r in routes <==> r == routes[0] || r in routes[1..];
      assert forall l :: l in EnabledSet(routes) <==>
          (routes[0].enabled && l == ListenerOf(routes[0])) || l in EnabledSet(routes[1..]);
    }
  }

  lemma EnabledSource(routes: seq<Route>, l: Listener) returns (r: Route)
    requires l in Enabled(routes)
    ensures r in routes && r.enabled && l == Listener(r.listenPort, r.upstreamIPv4, r.upstreamPort)
  {
    hide Enabled;
    EnabledMembers(routes);
    assert l in EnabledSet(routes);
    r :| r in routes && r.enabled && l == Listener(r.listenPort, r.upstreamIPv4, r.upstreamPort);
  }

  ghost function Ids(routes: seq<Route>): set<string> {
    set r | r in routes :: r.id
  }

  ghost function Ports(routes: seq<Route>): set<int> {
    set r | r in routes :: r.listenPort
  }

  lemma IdsSnoc(routes: seq<Route>, r: Route)
    ensures Ids(routes + [r]) == Ids(routes) + {r.id}
    ensures Ports(routes + [r]) == Ports(routes) + {r.listenPort}
  {
    assert forall x :: x in routes + [r] <==> x in routes || x == r;
  }

  lemma UniqueSnoc(routes: seq<Route>, r: Route)
    ensures UniqueIds(routes + [r]) <==> UniqueIds(routes) && r.id !in Ids(routes)
    ensures UniquePorts(routes + [r]) <==> UniquePorts(routes) && r.listenPort !in Ports(routes)
  {
    var all := routes + [r];
    forall i, j | 0 <= i < j < |routes|
      ensures all[i] == routes[i] && all[j] == routes[j]
    {}
    forall i | 0 <= i < |routes|
      ensures all[i] == routes[i] && all[i] in routes && all[|routes|] == r
    {}
  }

  lemma WellFormedSnoc(routes: seq<Route>, r: Route)
    ensures WellFormed(routes + [r]) <==>
      WellFormed(routes) && ValidRoute(r) && r.id !in Ids(routes) && r.listenPort !in Ports(routes)
  {
    UniqueSnoc(routes, r);
    assert forall x :: x in routes + [r] <==> x in routes || x == r;
  }

  lemma WellFormedPrefix(routes: seq<Route>, i: nat)
    requires i <= |routes|
    ensures WellFormed(routes) ==> WellFormed(routes[..i])
  {
  }

  /** The loop of the original: a builder, a set of ids and a set of ports over the sorted routes. */
  lemma RenderStart(t: Template, routes: seq<Route>)
    ensures WellFormed([]) && Ids([]) == {} && Ports([]) == {} && t.header + Servers(t, Enabled([])) == t.header
  {
  }

  method RenderConfig(t: Template, routes: seq<Route>) returns (config: Option<string>)
    ensures config == RenderWith(t, routes)
  {
    hide SortByPort, SortedByPort, ValidRoute, WellFormed, Servers, Server, Enabled, Ids, Ports;
    RenderStart(t, routes);
    var sorted := SortByPort(routes);
    SameMembers(sorted, routes);
    SameWellFormed(sorted, routes);
    var text := t.header;
    var ids: set<string> := {};
    var ports: set<int> := {};
    ghost var done: seq<Route> := [];
    var i := 0;
    while i < |sorted|
      invariant 0 <= i <= |sorted|
      invariant done == sorted[..i]
      invariant WellFormed(done)
      invariant ids == Ids(done) && ports == Ports(done)
      invariant text == t.header + Servers(t, Enabled(done))
    {
      var r := sorted[i];
      assert sorted[..i + 1] == done + [r];
      WellFormedSnoc(done, r);
      IdsSnoc(done, r);
      WellFormedPrefix(sorted, i + 1);
      if !ValidRoute(r) || r.id in ids || r.listenPort in ports {
        return None;
      }
      EnabledSnoc(done, r);
      ids := ids + {r.id};
      ports := ports + {r.listenPort};
      if r.enabled {
        ServersSnoc(t, Enabled(done), ListenerOf(r));
        Assoc(t.header, Servers(t, Enabled(done)), Server(t, ListenerOf(r)));
        text := text + Server(t, ListenerOf(r));
      } else {
        assert Enabled(done) + [] == Enabled(done);
      }
      done := done + [r];
      i := i + 1;
    }
    assert done == sorted;
    return Some(text + t.footer);
  }

  // The text says exactly which listeners are enabled ---------------------------------------------

  lemma TwiceInSequence(s: seq<Route>, x: Route)
    requires multiset(s)[x] >= 2
    ensures exists i, j :: 0 <= i < j < |s| && s[i] == x && s[j] == x
  {
    var i :| 0 <= i < |s| && s[i] == x;
    assert s == s[..i] + [x] + s[i + 1..];
    assert multiset(s) == multiset(s[..i]) + multiset{x} + multiset(s[i + 1..]);
    if x in s[..i] {
      var j :| 0 <= j < i && s[..i][j] == x;
      assert s[j] == x;
    } else {
      assert x in multiset(s[i + 1..]);
      var j :| 0 <= j < |s[i + 1..]| && s[i + 1..][j] == x;
      assert s[i + 1 + j] == x;
    }
  }

  lemma OnceInSequence(s: seq<Route>, i: int, j: int)
    requires 0 <= i < j < |s| && s[i] == s[j]
    ensures multiset(s)[s[i]] >= 2
  {
    assert s == s[..i] + [s[i]] + s[i + 1..j] + [s[j]] + s[j + 1..];
  }

  lemma WellFormedPermuted(a: seq<Route>, b: seq<Route>)
    requires WellFormed(a) && multiset(a) == multiset(b)
    ensures WellFormed(b)
  {
    SameMembers(a, b);
    forall i, j | 0 <= i < j < |b|
      ensures b[i].id != b[j].id && b[i].listenPort != b[j].listenPort
    {
      assert b[i] in a && b[j] in a;
      if b[i] == b[j] {
        OnceInSequence(b, i, j);
        TwiceInSequence(a, b[i]);
        assert false;
      }
      var k :| 0 <= k < |a| && a[k] == b[i];
      var l :| 0 <= l < |a| && a[l] == b[j];
      assert k != l;
    }
  }

  lemma SameWellFormed(a: seq<Route>, b: seq<Route>)
    requires multiset(a) == multiset(b)
    ensures WellFormed(a) <==> WellFormed(b)
  {
    if WellFormed(a) {
      WellFormedPermuted(a, b);
    } else if WellFormed(b) {
      WellFormedPermuted(b, a);
    }
  }

  predicate StrictPorts(ls: seq<Listener>) {
    forall i, j :: 0 <= i < j < |ls| ==> ls[i].port < ls[j].port
  }

  lemma {:induction false} EnabledStrict(routes: seq<Route>)
    requires WellFormed(routes) && SortedByPort(routes)
    ensures StrictPorts(Enabled(routes))
  {
    if routes != [] {
      assert WellFormed(routes[1..]);
      EnabledStrict(routes[1..]);
      forall l | l in Enabled(routes[1..])
        ensures routes[0].listenPort < l.port
      {
        var r := EnabledSource(routes[1..], l);
        var i :| 0 < i < |routes| && routes[i] == r;
        SortedHead(routes, i);
      }
    }
  }

  /** A strictly ordered list is determined by its members. */
  lemma {:induction false} StrictUnique(a: seq<Listener>, b: seq<Listener>)
    requires StrictPorts(a) && StrictPorts(b)
    requires forall l :: l in a <==> l in b
    ensures a == b
  {
    assert a != [] ==> a[0] in b;
    assert b != [] ==> b[0] in a;
    if a != [] {
      assert a[0] == b[0];
      forall l ensures l in a[1..] <==> l in b[1..] {
        if l in a[1..] { assert l in b && l != b[0]; }
        if l in b[1..] { assert l in a && l != a[0]; }
      }
      StrictUnique(a[1..], b[1..]);
      assert a == [a[0]] + a[1..] && b == [b[0]] + b[1..];
    }
  }

  lemma SortedEnabledSet(routes: seq<Route>)
    requires WellFormed(routes)
    ensures WellFormed(SortByPort(routes))
    ensures StrictPorts(Enabled(SortByPort(routes)))
    ensures forall l :: l in Enabled(SortByPort(routes)) <==> l in EnabledSet(routes)
  {
    var sorted := SortByPort(routes);
    SameMembers(sorted, routes);
    WellFormedPermuted(routes, sorted);
    EnabledStrict(sorted);
    EnabledMembers(sorted);
    assert EnabledSet(sorted) == EnabledSet(routes);
  }

  predicate QuadChar(c: char) {
    IsDigit(c) || c == '.'
  }

  lemma {:induction false} JoinChars(parts: seq<string>)
    requires forall i :: 0 <= i < |parts| ==> All(QuadChar, parts[i])
    ensures All(QuadChar, Join(parts, "."))
  {
    if |parts| > 1 {
      JoinChars(parts[1..]);
    }
  }

  lemma UpstreamChars(s: string)
    requires ValidUpstream(s)
    ensures All(QuadChar, s)
  {
    JoinSplit(s, '.');
    JoinChars(Split(s, '.'));
  }

  predicate PlainListener(l: Listener) {
    l.port >= 0 && l.upstreamPort >= 0 && All(QuadChar, l.address)
  }

  lemma ServerUnique(t: Template, l: Listener, m: Listener, x: string, y: string)
    requires t.Delimits()
    requires PlainListener(l) && PlainListener(m)
    requires Server(t, l) + x == Server(t, m) + y
    ensures l == m && x == y
  {
    var l3, m3 := t.tail + x, t.tail + y;
    var l2, m2 := Decimal(l.upstreamPort) + l3, Decimal(m.upstreamPort) + m3;
    var l1, m1 := t.pass + (l.address + (":" + l2)), t.pass + (m.address + (":" + m2));
    ServerParts(t, l, x);
    ServerParts(t, m, y);
    CancelPrefix(t.listen, Decimal(l.port) + l1, Decimal(m.port) + m1);
    DecimalUnique(l.port, m.port, l1, m1);
    CancelPrefix(t.pass, l.address + (":" + l2), m.address + (":" + m2));
    SplitUnique(QuadChar, l.address, m.address, ":" + l2, ":" + m2);
    CancelPrefix(":", l2, m2);
    DecimalUnique(l.upstreamPort, m.upstreamPort, l3, m3);
    CancelPrefix(t.tail, x, y);
  }

  lemma ServerParts(t: Template, l: Listener, x: string)
    requires PlainListener(l)
    ensures Server(t, l) + x ==
      t.listen + (Decimal(l.port) + (t.pass + (l.address + (":" + (Decimal(l.upstreamPort) + (t.tail + x))))))
  {
    var up := Decimal(l.upstreamPort);
    assert t.tail + x == t.tail + x;
    Assoc(Server(t, l)[..|Server(t, l)| - |t.tail|], t.tail, x);
    assert Server(t, l) == t.listen + Decimal(l.port) + t.pass + l.address + ":" + up + t.tail;
    Assoc(t.listen + Decimal(l.port) + t.pass + l.address + ":", up, t.tail + x);
    Assoc(t.listen + Decimal(l.port) + t.pass + l.address, ":", up + (t.tail + x));
    Assoc(t.listen + Decimal(l.port) + t.pass, l.address, ":" + (up + (t.tail + x)));
    Assoc(t.listen + Decimal(l.port), t.pass, l.address + (":" + (up + (t.tail + x))));
    Assoc(t.listen, Decimal(l.port), t.pass + (l.address + (":" + (up + (t.tail + x)))));
    Assoc(t.listen + Decimal(l.port) + t.pass + l.address + ":" + up, t.tail, x);
  }

  lemma {:induction false} ServersUnique(t: Template, a: seq<Listener>, b: seq<Listener>)
    requires t.Delimits()
    requires forall l :: l in a ==> PlainListener(l)
    requires forall l :: l in b ==> PlainListener(l)
    requires Servers(t, a) + t.footer == Servers(t, b) + t.footer
    ensures a == b
  {
    if a != [] {
      Assoc(Server(t, a[0]), Servers(t, a[1..]), t.footer);
      ServerParts(t, a[0], Servers(t, a[1..]) + t.footer);
      assert (Servers(t, a) + t.footer)[0] == t.listen[0];
    }
    if b != [] {
      Assoc(Server(t, b[0]), Servers(t, b[1..]), t.footer);
      ServerParts(t, b[0], Servers(t, b[1..]) + t.footer);
      assert (Servers(t, b) + t.footer)[0] == t.listen[0];
    }
    assert a == [] ==> Servers(t, a) + t.footer == t.footer;
    assert b == [] ==> Servers(t, b) + t.footer == t.footer;
    if a != [] && b != [] {
      ServerUnique(t, a[0], b[0], Servers(t, a[1..]) + t.footer, Servers(t, b[1..]) + t.footer);
      ServersUnique(t, a[1..], b[1..]);
      assert a == [a[0]] + a[1..] && b == [b[0]] + b[1..];
    }
  }

  lemma ConfigTextUnique(t: Template, a: seq<Listener>, b: seq<Listener>)
    requires t.Delimits()
    requires forall l :: l in a ==> PlainListener(l)
    requires forall l :: l in b ==> PlainListener(l)
    requires ConfigText(t, a) == ConfigText(t, b)
    ensures a == b
  {
    Assoc(t.header, Servers(t, a), t.footer);
    Assoc(t.header, Servers(t, b), t.footer);
    CancelPrefix(t.header, Servers(t, a) + t.footer, Servers(t, b) + t.footer);
    ServersUnique(t, a, b);
  }

  lemma EnabledPlain(routes: seq<Route>)
    requires forall r :: r in routes ==> ValidRoute(r)
    ensures forall l :: l in Enabled(routes) ==> PlainListener(l)
  {
    forall l | l in Enabled(routes) ensures PlainListener(l) {
      var r := EnabledSource(routes, l);
      UpstreamChars(r.upstreamIPv4);
    }
  }

  lemma RenderWithExact(t: Template, a: seq<Route>, b: seq<Route>)
    requires t.Delimits()
    requires WellFormed(a) && WellFormed(b)
    ensures RenderWith(t, a) == RenderWith(t, b) <==> EnabledSet(a) == EnabledSet(b)
  {
    var sa, sb := SortByPort(a), SortByPort(b);
    SortedEnabledSet(a);
    SortedEnabledSet(b);
    if EnabledSet(a) == EnabledSet(b) {
      StrictUnique(Enabled(sa), Enabled(sb));
    }
    if RenderWith(t, a) == RenderWith(t, b) {
      EnabledPlain(sa);
      EnabledPlain(sb);
      ConfigTextUnique(t, Enabled(sa), Enabled(sb));
    }
  }

  /** Two valid tables render to the same text exactly when they enable the same listeners. */
  lemma RenderExact(a: seq<Route>, b: seq<Route>)
    requires WellFormed(a) && WellFormed(b)
    ensures Render(a) == Render(b) <==> EnabledSet(a) == EnabledSet(b)
  {
    assert NGINX.listen[0] == ' ' && NGINX.footer[0] == '}' && NGINX.pass[0] == ' ';
    assert NGINX.tail[0] == ';';
    assert NGINX.Delimits();
    RenderWithExact(NGINX, a, b);
  }

  lemma {:induction false} ServersHold(t: Template, ls: seq<Listener>, l: Listener)
    returns (before: string, after: string)
    requires l in ls
    ensures Servers(t, ls) == before + Server(t, l) + after
  {
    hide Server;
    if ls[0] == l {
      before, after := "", Servers(t, ls[1..]);
    } else {
      before, after := ServersHold(t, ls[1..], l);
      Assoc(Server(t, ls[0]), before + Server(t, l), after);
      Assoc(Server(t, ls[0]), before, Server(t, l));
      before := Server(t, ls[0]) + before;
    }
  }

  /** What nginx reads of one listener. */
  function ListenText(port: int, address: string, upstreamPort: int): string {
    "  server {\n    listen 0.0.0.0:" + Integer(port) + " udp reuseport;\n    proxy_pass " + address + ":" +
      Integer(upstreamPort)
  }

  lemma ServerReads(l: Listener)
    ensures Server(NGINX, l) == ListenText(l.port, l.address, l.upstreamPort) + NGINX.tail
  {
    hide Integer;
  }

  lemma Around(header: string, a: string, text: string, tail: string, b: string, footer: string)
    ensures header + (a + (text + tail) + b) + footer == (header + a) + text + (tail + b + footer)
  {
  }

  /** The text of a valid table makes nginx listen on the port of every enabled route and pass on to its upstream. */
  lemma RenderForwards(routes: seq<Route>, r: Route) returns (before: string, after: string)
    requires WellFormed(routes) && r in routes && r.enabled
    ensures Render(routes) == Some(before + ListenText(r.listenPort, r.upstreamIPv4, r.upstreamPort) + after)
  {
    hide SortByPort, Server, Servers, ListenText, ValidRoute;
    SortedEnabledSet(routes);
    var l, ls := Listener(r.listenPort, r.upstreamIPv4, r.upstreamPort), Enabled(SortByPort(routes));
    var a, b := ServersHold(NGINX, ls, l);
    ServerReads(l);
    var text := ListenText(r.listenPort, r.upstreamIPv4, r.upstreamPort);
    before, after := NGINX.header + a, NGINX.tail + b + NGINX.footer;
    Around(NGINX.header, a, text, NGINX.tail, b, NGINX.footer);
  }

  /** The rendered text does not depend on the order of the list. */
  lemma RenderOrderFree(a: seq<Route>, b: seq<Route>)
    requires multiset(a) == multiset(b)
    ensures Render(a) == Render(b)
  {
    SameMembers(a, b);
    SameWellFormed(a, b);
    if WellFormed(a) {
      assert EnabledSet(a) == EnabledSet(b);
      RenderExact(a, b);
    }
  }
}
