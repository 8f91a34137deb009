/** Route lists as JSON: what the Panel's comparison of fingerprints says about the routes. */
module RouteJson {
  import opened Text
  import opened Order
  import opened StableJson
  import opened RelayRoutes
  import opened PanelPlan

  function RouteFields(r: Route): Fields {
    Field("id", Str(r.id),
      Field("listenPort", Number(Integer(r.listenPort)),
        Field("upstreamIpv4", Str(r.upstreamIPv4),
          Field("upstreamPort", Number(Integer(r.upstreamPort)),
            Field("enabled", Bool(r.enabled), NoFields)))))
  }

  function RouteObject(r: Route): Json {
    Object(RouteFields(r))
  }

  function RouteItems(routes: seq<Route>): Items {
    if routes == [] then NoItems else Item(RouteObject(routes[0]), RouteItems(routes[1..]))
  }

  /** The text whose digest is compared: the routes sorted by id. */
  function RoutesText(routes: seq<Route>): string {
    Stable(Array(RouteItems(SortBy(RouteKey, routes))))
  }

  lemma IntegerProper(n: int)
    ensures ProperNumber(Integer(n))
  {
    var s := Integer(n);
    var d := Decimal(if n < 0 then -n else n);
    assert forall i :: 0 <= i < |d| ==> IsDigit(d[i]);
    assert forall i :: 0 <= i < |s| ==> IsDigit(s[i]) || s[i] == '-';
  }

  lemma IntegerUnique(m: int, n: int)
    requires Integer(m) == Integer(n)
    ensures m == n
  {
    assert IsDigit(Decimal(if m < 0 then -m else m)[0]) && IsDigit(Decimal(if n < 0 then -n else n)[0]);
    var a, b := Decimal(if m < 0 then -m else m), Decimal(if n < 0 then -n else n);
    if m < 0 && n < 0 { CancelPrefix("-", a, b); }
    assert a == b;
    DecimalRoundTrip(if m < 0 then -m else m);
    DecimalRoundTrip(if n < 0 then -n else n);
  }

  lemma KeysDiffer()
    ensures |"id"| == 2 && |"enabled"| == 7 && |"listenPort"| == 10 && |"upstreamIpv4"| == |"upstreamPort"| == 12
    ensures "upstreamIpv4" != "upstreamPort"
  {
    assert "upstreamIpv4"[8] != "upstreamPort"[8];
  }

  lemma LookupCons(k: string, v: Json, rest: Fields, key: string)
    ensures Lookup(Field(k, v, rest), key) == if k == key then Some(v) else Lookup(rest, key)
  {
  }

  lemma ProperCons(k: string, v: Json, rest: Fields)
    requires Proper(v) && ProperFields(rest) && Lookup(rest, k).None?
    ensures ProperFields(Field(k, v, rest))
  {
  }

  lemma LookupRoute(r: Route, key: string)
    ensures Lookup(RouteFields(r), key) ==
      if key == "id" then Some(Str(r.id))
      else if key == "listenPort" then Some(Number(Integer(r.listenPort)))
      else if key == "upstreamIpv4" then Some(Str(r.upstreamIPv4))
      else if key == "upstreamPort" then Some(Number(Integer(r.upstreamPort)))
      else if key == "enabled" then Some(Bool(r.enabled))
      else None
  {
    hide Lookup, Integer;
    var f5 := Field("enabled", Bool(r.enabled), NoFields);
    var f4 := Field("upstreamPort", Number(Integer(r.upstreamPort)), f5);
    var f3 := Field("upstreamIpv4", Str(r.upstreamIPv4), f4);
    var f2 := Field("listenPort", Number(Integer(r.listenPort)), f3);
    LookupNothing(key);
    LookupCons("enabled", f5.value, NoFields, key);
    LookupCons("upstreamPort", f4.value, f5, key);
    LookupCons("upstreamIpv4", f3.value, f4, key);
    LookupCons("listenPort", f2.value, f3, key);
    LookupCons("id", Str(r.id), f2, key);
  }

  lemma LookupNothing(key: string)
    ensures Lookup(NoFields, key) == None
  {
  }

  lemma RouteProper(r: Route)
    ensures Proper(RouteObject(r))
  {
    hide Lookup, Integer, ProperNumber, ProperFields;
    KeysDiffer();
    IntegerProper(r.listenPort);
    IntegerProper(r.upstreamPort);
    var f5 := Field("enabled", Bool(r.enabled), NoFields);
    var f4 := Field("upstreamPort", Number(Integer(r.upstreamPort)), f5);
    var f3 := Field("upstreamIpv4", Str(r.upstreamIPv4), f4);
    var f2 := Field("listenPort", Number(Integer(r.listenPort)), f3);
    NothingProper();
    Absent("enabled", NoFields);
    ProperCons("enabled", f5.value, NoFields);
    LookupCons("enabled", f5.value, NoFields, "upstreamPort");
    LookupNothing("upstreamPort");
    ProperCons("upstreamPort", f4.value, f5);
    LookupCons("upstreamPort", f4.value, f5, "upstreamIpv4");
    LookupCons("enabled", f5.value, NoFields, "upstreamIpv4");
    LookupNothing("upstreamIpv4");
    ProperCons("upstreamIpv4", f3.value, f4);
    LookupCons("upstreamIpv4", f3.value, f4, "listenPort");
    LookupCons("upstreamPort", f4.value, f5, "listenPort");
    LookupCons("enabled", f5.value, NoFields, "listenPort");
    LookupNothing("listenPort");
    ProperCons("listenPort", f2.value, f3);
    LookupCons("listenPort", f2.value, f3, "id");
    LookupCons("upstreamIpv4", f3.value, f4, "id");
    LookupCons("upstreamPort", f4.value, f5, "id");
    LookupCons("enabled", f5.value, NoFields, "id");
    LookupNothing("id");
    ProperCons("id", Str(r.id), f2);
  }

  lemma NothingProper()
    ensures ProperFields(NoFields)
  {
  }

  lemma Absent(key: string, f: Fields)
    requires f.NoFields?
    ensures Lookup(f, key) == None
  {
  }

  /** Two routes are equal as JSON values only if they are equal. */
  lemma RouteByValue(r: Route, q: Route)
    requires Same(RouteObject(r), RouteObject(q))
    ensures r == q
  {
    hide Integer, RouteFields, Lookup;
    KeysDiffer();
    SameScalar(r, q, "id");
    SameScalar(r, q, "listenPort");
    SameScalar(r, q, "upstreamIpv4");
    SameScalar(r, q, "upstreamPort");
    SameScalar(r, q, "enabled");
    IntegerUnique(r.listenPort, q.listenPort);
    IntegerUnique(r.upstreamPort, q.upstreamPort);
  }

  lemma SameScalar(r: Route, q: Route, key: string)
    requires Same(RouteObject(r), RouteObject(q))
    ensures Lookup(RouteFields(r), key) == Lookup(RouteFields(q), key)
    ensures key == "id" ==> r.id == q.id
    ensures key == "listenPort" ==> Integer(r.listenPort) == Integer(q.listenPort)
    ensures key == "upstreamIpv4" ==> r.upstreamIPv4 == q.upstreamIPv4
    ensures key == "upstreamPort" ==> Integer(r.upstreamPort) == Integer(q.upstreamPort)
    ensures key == "enabled" ==> r.enabled == q.enabled
  {
    hide Integer, RouteFields, Lookup;
    KeysDiffer();
    LookupRoute(r, key);
    LookupRoute(q, key);
    assert SameAt(RouteFields(r), RouteFields(q), key);
    ScalarsEqual(RouteFields(r), RouteFields(q), key);
  }

  lemma ScalarsEqual(f: Fields, g: Fields, key: string)
    requires SameAt(f, g, key)
      && (Lookup(f, key).Some? ==> !Lookup(f, key).value.Array? && !Lookup(f, key).value.Object?)
    ensures Lookup(f, key) == Lookup(g, key)
  {
    if Lookup(f, key).Some? {
      assert Same(Lookup(f, key).value, Lookup(g, key).value);
    }
  }

  lemma {:induction false} SameLists(a: seq<Route>, b: seq<Route>)
    requires SameItems(RouteItems(a), RouteItems(b))
    ensures a == b
  {
    hide RouteObject, Same;
    if a != [] && b != [] {
      RouteByValue(a[0], b[0]);
      SameLists(a[1..], b[1..]);
      assert a == [a[0]] + a[1..] && b == [b[0]] + b[1..];
    }
  }

  lemma {:induction false} ItemsProper(routes: seq<Route>)
    ensures ProperItems(RouteItems(routes))
  {
    hide RouteObject, Proper;
    if routes != [] {
      RouteProper(routes[0]);
      ItemsProper(routes[1..]);
    }
  }

  /**
   * The texts of two route lists are equal exactly if the lists are the same when sorted: the routes are compared by
   * value.
   */
  lemma RoutesByValue(a: seq<Route>, b: seq<Route>)
    ensures RoutesText(a) == RoutesText(b) <==> SameRoutes(a, b)
  {
    hide Stable, RouteItems, SortBy;
    var x, y := SortBy(RouteKey, a), SortBy(RouteKey, b);
    ItemsProper(x);
    ItemsProper(y);
    if RoutesText(a) == RoutesText(b) {
      StableByValue(Array(RouteItems(x)), Array(RouteItems(y)));
      SameLists(x, y);
    }
  }
}
