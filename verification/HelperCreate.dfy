/** What a creation comes to: the address it is given among active and waiting peers, and the peer it adds. */
module HelperCreate {
  import opened Text
  import Ipv4
  import opened ConfigLines
  import opened ConfigDocument
  import opened AddressPool
  import opened HelperPeers
  import opened HelperModel
  import opened HelperPolicy
  import ClientConfig

  // A new peer ------------------------------------------------------------------------------------------------

  function IssuedText(text: string, key: string, n: uint64, name: string): string
    requires n < SPACE_END
  {
    PrintDoc(Added(Parsed(text), key, AddressText(n), name))
  }

  lemma KeptIssue(p: Peers, i: string, k: string, n: uint64)
    requires Kept(p) && i in p.active
    requires forall a :: 0 <= a < |p.active[i]| ==> k !in p.active[i][a].keys && n !in p.active[i][a].routes
    requires forall c :: c in p.stored && p.stored[c].instance == i ==>
      p.stored[c].key != k
        && (n !in p.stored[c].face.routes || exists a ::
          0 <= a < |p.active[i]| && p.stored[c].key in p.active[i][a].keys)
    ensures Kept(p.(active := p.active[i := p.active[i] + [Face(iset{k}, iset{n})]]))
  {
    var f := Face(iset{k}, iset{n});
    forall c | c in p.stored && p.stored[c].instance == i ensures Matches(f, p.stored[c]) {
      assert p.stored[c].key in p.stored[c].face.keys;
      assert forall a :: 0 <= a < |p.active[i]| ==> Matches(p.active[i][a], p.stored[c]);
      assert n !in p.stored[c].face.routes;
    }
    KeptAdd(p, i, f);
  }

  lemma {:induction false} PeerFromKey(p: Peer, lines: seq<string>)
    ensures PeerFrom(p, lines).publicKey == p.publicKey ||
      exists i :: 0 <= i < |lines| && KeyLine(lines[i], PeerFrom(p, lines).publicKey)
  {
    hide Clip, Property, EqualFold, Split;
    if lines != [] {
      var k := |lines| - 1;
      PeerFromKey(p, lines[..k]);
      var before := PeerFrom(p, lines[..k]);
      if PeerFrom(p, lines).publicKey == before.publicKey {
        if before.publicKey != p.publicKey {
          var i :| 0 <= i < k && KeyLine(lines[..k][i], before.publicKey);
          assert KeyLine(lines[i], before.publicKey);
        }
      } else {
        assert KeyLine(lines[k], PeerFrom(p, lines).publicKey);
      }
    }
  }

  /** The keys listed as peers are keys the document holds. */
  lemma {:induction false} PeersHold(sections: seq<Section>, p: Peer)
    requires p in PeersOf(sections)
    ensures Holds(sections, p.publicKey)
  {
    hide PeerFrom, KeyLine, SectionName;
    var k := |sections| - 1;
    if p in PeersOf(sections[..k]) {
      PeersHold(sections[..k], p);
      var s :| s in sections[..k] && HasKey(s, p.publicKey);
      assert s in sections;
    } else {
      PeerFromKey(Peer([], [], []), sections[k].lines);
      assert sections[k] in sections;
    }
  }

  // The document an address is chosen in -------------------------------------------------------------------------

  ghost predicate Named(w: World) {
    forall c :: c in w.suspended ==> w.suspended[c].publicKey != []
  }

  /** Peers are kept apart, and those put aside have a key. */
  ghost predicate Orderly(v6: string -> bool, w: World) {
    Kept(PeersIn(v6, w)) && Named(w)
  }

  /** This key is among the active peers. */
  ghost predicate ListedKey(w: World, i: string, key: string)
    requires i in w.configs
  {
    exists p :: p in PeersOf(Sections(w, i)) && p.publicKey == key
  }

  /** A peer put aside of this instance that is not active. */
  ghost predicate Waits(w: World, i: string, c: string)
    requires i in w.configs
  {
    c in w.suspended && w.suspended[c].instance == i && !ListedKey(w, i, w.suspended[c].publicKey)
  }

  ghost predicate TakenFrom(w: World, i: string, s: Section, rest: set<string>)
    requires i in w.configs
  {
    exists c :: Waits(w, i, c) && c !in rest && s == w.suspended[c].section
  }

  /** The active sections, followed by those of the peers that wait, these connections left out. */
  ghost predicate ReservesBut(w: World, i: string, sections: seq<Section>, rest: set<string>)
    requires i in w.configs
  {
    && Sections(w, i) <= sections
    && (forall c :: Waits(w, i, c) && c !in rest ==> w.suspended[c].section in sections[|Sections(w, i)|..])
    && forall k :: |Sections(w, i)| <= k < |sections| ==> TakenFrom(w, i, sections[k], rest)
  }

  /** The sections addresses are allocated against: the active ones, then in any order those of the peers that wait. */
  ghost predicate Reserves(w: World, i: string, sections: seq<Section>)
    requires i in w.configs
  {
    ReservesBut(w, i, sections, {})
  }

  lemma ReserveStart(w: World, i: string)
    requires i in w.configs
    ensures ReservesBut(w, i, Sections(w, i), w.suspended.Keys)
  {
    hide Parsed, ListedKey;
  }

  lemma ReserveMore(w: World, i: string, sections: seq<Section>, rest: set<string>, c: string)
    requires i in w.configs && ReservesBut(w, i, sections, rest) && c in rest && Waits(w, i, c)
    ensures ReservesBut(w, i, sections + [w.suspended[c].section], rest - {c})
  {
    hide Parsed, ListedKey;
    var s, n := w.suspended[c].section, |Sections(w, i)|;
    var more := sections + [s];
    assert more[n..] == sections[n..] + [s];
    forall k | n <= k < |more| ensures TakenFrom(w, i, more[k], rest - {c}) {
      if k < |sections| { assert TakenFrom(w, i, sections[k], rest); }
    }
  }

  lemma ReserveSkip(w: World, i: string, sections: seq<Section>, rest: set<string>, c: string)
    requires i in w.configs && ReservesBut(w, i, sections, rest) && !Waits(w, i, c)
    ensures ReservesBut(w, i, sections, rest - {c})
  {
    hide Parsed, Waits;
    forall k | |Sections(w, i)| <= k < |sections| ensures TakenFrom(w, i, sections[k], rest - {c}) {
      assert TakenFrom(w, i, sections[k], rest);
    }
  }

  ghost predicate FreshKey(w: World, i: string, key: string) {
    forall c :: c in w.suspended && w.suspended[c].instance == i ==> w.suspended[c].publicKey != key
  }

  lemma IssueFaces(v6: string -> bool, text: string, key: string, n: uint64, name: string)
    requires Parses(text) && NoBreak(key) && NoBreak(name) && n < SPACE_END
    ensures Parses(IssuedText(text, key, n, name))
    ensures Faces(v6, Parsed(IssuedText(text, key, n, name)).sections) ==
      Faces(v6, Parsed(text).sections) + [Face(iset{Clip(key)}, iset{n})]
  {
    hide Parsed, Clip, Sound, Parses, Alike, NewPeer, Spaced, AddressText, PrintDoc, FaceOf;
    var d := Parsed(text);
    var next := Added(d, key, AddressText(n), name);
    ParsedSound(text);
    ClipAddress(n);
    AddedPrefix(d, key, AddressText(n), name);
    PrintParse(next);
    FacesAlike(v6, next.sections, Parsed(PrintDoc(next)).sections);
    FacesAppend(v6, Spaced(d.sections), NewPeer(key, AddressText(n), name));
    FacesSpaced(v6, d.sections);
    NewPeerFace(v6, key, n, name);
  }

  /** Everything that routes to an address can be read: the configuration's own pool, and the peers that wait. */
  ghost predicate Readable(v6: string -> bool, w: World, i: string)
    requires i in w.configs
  {
    HasPool(v6, Sections(w, i)) && forall c :: Waits(w, i, c) ==>
      AllParse(v6, SectionEntries(w.suspended[c].section))
  }

  /** A host of the pool that is neither the server's nor routed to a peer, active or waiting. */
  ghost predicate Spare(v6: string -> bool, w: World, i: string, n: uint64)
    requires i in w.configs
  {
    && Usable(v6, Sections(w, i), n)
    && forall c :: Waits(w, i, c) ==> n !in FaceOf(v6, w.suspended[c].section).routes
  }

  lemma {:induction false} EntriesParse(v6: string -> bool, sections: seq<Section>)
    ensures AllParse(v6, Entries(sections)) <==> forall s :: s in sections ==> AllParse(v6, SectionEntries(s))
  {
    hide ParsePrefix, Clip, SectionEntries;
    if sections != [] {
      EntriesParse(v6, sections[1..]);
      var first, rest := SectionEntries(sections[0]), Entries(sections[1..]);
      assert forall e :: e in first + rest <==> e in first || e in rest;
      assert forall s :: s in sections <==> s == sections[0] || s in sections[1..];
    }
  }

  /**
   * Whatever the order the waiting peers were put back in: the document's pool is readable, and its free hosts are
   * the spare ones.
   */
  lemma ReservedExactly(v6: string -> bool, w: World, i: string, reserved: seq<Section>)
    requires WorldOk(w) && i in w.configs && Reserves(w, i, reserved)
    ensures PoolIn(v6, reserved).Some? <==> Readable(v6, w, i)
    ensures Readable(v6, w, i) ==> forall n :: Free(PoolIn(v6, reserved).value, n) <==> Spare(v6, w, i, n)
  {
    hide PoolIn, Free, Entries, Parsed, ListedKey, StoredOk, AllParse, FaceOf, SectionEntries, Subnet, Routed,
      HostOf, Reserves;
    var own := Sections(w, i);
    var extra := ExtraSections(w, i, reserved);
    PeersRoute(extra);
    EntriesAppend(own, extra);
    var first, rest := Entries(own), Entries(extra);
    PoolMeans(v6, reserved);
    AllParseAppend(v6, first, rest);
    EntriesParse(v6, extra);
    forall a, b: nat ensures Subnet(v6, first + rest, a, b) <==> Subnet(v6, first, a, b) {
      SubnetRoutes(v6, first, rest, a, b);
    }
    forall n ensures Routed(v6, first + rest, n) <==>
        Routed(v6, first, n) || exists c :: Waits(w, i, c) && n in FaceOf(v6, w.suspended[c].section).routes
    {
      RoutedAppend(v6, first, rest, n);
      ExtraRoutes(v6, w, i, reserved, n);
    }
  }

  lemma AllParseAppend(v6: string -> bool, a: seq<Entry>, b: seq<Entry>)
    ensures AllParse(v6, a + b) <==> AllParse(v6, a) && AllParse(v6, b)
  {
    hide PrefixOf;
    assert forall e :: e in a + b <==> e in a || e in b;
  }

  lemma RoutedAppend(v6: string -> bool, a: seq<Entry>, b: seq<Entry>, n: uint64)
    ensures Routed(v6, a + b, n) <==> Routed(v6, a, n) || Routed(v6, b, n)
  {
    hide RoutedBy;
    assert forall e :: e in a + b <==> e in a || e in b;
  }

  /** Routes of peers do not change what the server's prefix is. */
  lemma SubnetRoutes(v6: string -> bool, a: seq<Entry>, b: seq<Entry>, address: uint64, bits: nat)
    requires RouteEntries(b)
    ensures Subnet(v6, a + b, address, bits) <==> Subnet(v6, a, address, bits)
  {
    hide PrefixOf;
    forall j | |a| <= j < |a + b| ensures !(a + b)[j].server {
      assert (a + b)[j] == b[j - |a|] && b[j - |a|] in b;
    }
    assert forall j :: 0 <= j < |a| ==> (a + b)[j] == a[j];
    assert forall k: nat :: OnlyAt(v6, a + b, k, address, bits) <==> OnlyAt(v6, a, k, address, bits);
  }

  lemma ExtraSections(w: World, i: string, reserved: seq<Section>) returns (extra: seq<Section>)
    requires WorldOk(w) && i in w.configs && Reserves(w, i, reserved)
    ensures reserved == Sections(w, i) + extra
    ensures
      && (forall s :: s in extra <==> exists c :: Waits(w, i, c) && s == w.suspended[c].section)
      && forall k :: 0 <= k < |extra| ==> SectionName(extra[k].header) == PEER
  {
    hide Parsed, ListedKey, StoredOk, SectionName;
    var n := |Sections(w, i)|;
    extra := reserved[n..];
    forall k | 0 <= k < |extra|
      ensures SectionName(extra[k].header) == PEER && exists c :: Waits(w, i, c) && extra[k] == w.suspended[c].section
    {
      assert TakenFrom(w, i, reserved[n + k], {});
      var c :| Waits(w, i, c) && reserved[n + k] == w.suspended[c].section;
      PeerSection(w.suspended[c]);
    }
  }

  lemma ExtraRoutes(v6: string -> bool, w: World, i: string, reserved: seq<Section>, n: uint64)
    requires WorldOk(w) && i in w.configs && Reserves(w, i, reserved)
    ensures |Sections(w, i)| <= |reserved|
    ensures Routed(v6, Entries(reserved[|Sections(w, i)|..]), n) <==>
      exists c :: Waits(w, i, c) && n in FaceOf(v6, w.suspended[c].section).routes
  {
    hide Parsed, ListedKey, StoredOk, FaceOf, Entries, Routed, TakenFrom;
    var extra := ExtraSections(w, i, reserved);
    assert extra == reserved[|Sections(w, i)|..];
    EntriesRouted(v6, extra, n);
    if k :| 0 <= k < |extra| && n in FaceOf(v6, extra[k]).routes {
      assert extra[k] in extra;
    }
    if c :| Waits(w, i, c) && n in FaceOf(v6, w.suspended[c].section).routes {
      assert w.suspended[c].section in extra;
      var k :| 0 <= k < |extra| && extra[k] == w.suspended[c].section;
    }
  }

  /** A new peer with a new key and a spare address keeps the peers apart. */
  lemma IssueKeeps(v6: string -> bool, w: World, i: string, key: string, n: uint64, name: string)
    requires WorldOk(w) && i in w.configs && Parses(w.configs[i]) && Kept(PeersIn(v6, w))
    requires Readable(v6, w, i) && Spare(v6, w, i, n) && n < SPACE_END
    requires Clip(key) == key && NoBreak(key) && NoBreak(name) && FreshKey(w, i, key) && !Holds(Sections(w, i), key)
    ensures Kept(PeersIn(v6, w.(configs := w.configs[i := IssuedText(w.configs[i], key, n, name)])))
  {
    hide Parsed, Parses, Clip, HasKey, SectionEntries, Usable, HasPool, IssuedText, Kept, WorldOk, PeersOf,
      AllParse;
    var text := IssuedText(w.configs[i], key, n, name);
    IssueFaces(v6, w.configs[i], key, n, name);
    PeersIssued(v6, w, i, text);
    UsableIsUnrouted(v6, Sections(w, i), n);
    var p, sections := PeersIn(v6, w), Sections(w, i);
    forall a | 0 <= a < |p.active[i]| ensures key !in p.active[i][a].keys && n !in p.active[i][a].routes {
      assert sections[a] in sections;
    }
    forall c | c in p.stored && p.stored[c].instance == i
      ensures n !in p.stored[c].face.routes || exists a ::
        0 <= a < |p.active[i]| && p.stored[c].key in p.active[i][a].keys
    {
      if !Waits(w, i, c) {
        var peer :| peer in PeersOf(sections) && peer.publicKey == w.suspended[c].publicKey;
        PeersHold(sections, peer);
        var s :| s in sections && HasKey(s, w.suspended[c].publicKey);
        var a :| 0 <= a < |sections| && sections[a] == s;
        assert p.stored[c].key in p.active[i][a].keys;
      }
    }
    KeptIssue(p, i, key, n);
  }

  lemma PeersIssued(v6: string -> bool, w: World, i: string, text: string)
    requires Parses(text)
    ensures PeersIn(v6, w.(configs := w.configs[i := text])) ==
      PeersIn(v6, w).(active := PeersIn(v6, w).active[i := Faces(v6, Parsed(text).sections)])
  {
    hide FaceOf, Parses, Parsed, Faces;
  }

  lemma IssueConserves(v6: string -> bool, w: World, i: string, key: string, n: uint64, name: string)
    requires i in w.configs && Parses(w.configs[i]) && NoBreak(key) && NoBreak(name) && n < SPACE_END
    ensures Conserved(PeersIn(v6, w),
      PeersIn(v6, w.(configs := w.configs[i := IssuedText(w.configs[i], key, n, name)])), iset{})
  {
    hide Parsed, Parses, Clip, FaceOf, IssuedText, Has;
    IssueFaces(v6, w.configs[i], key, n, name);
    PeersIssued(v6, w, i, IssuedText(w.configs[i], key, n, name));
    ConservesPut(PeersIn(v6, w), i, Face(iset{Clip(key)}, iset{n}));
  }

  predicate RouteEntries(entries: seq<Entry>) {
    forall e :: e in entries ==> !e.server
  }

  lemma {:induction false} PeerLinesRoute(lines: seq<string>)
    ensures RouteEntries(LinesEntries(PEER, lines))
  {
    hide Property, EqualFold;
    NotInterface();
    if lines != [] {
      PeerLinesRoute(lines[1..]);
      var p := Property(lines[0]);
      if p.Some? { TaggedRoutes(Split(p.value.1, ',')); }
    }
  }

  lemma {:induction false} TaggedRoutes(parts: seq<string>)
    ensures RouteEntries(Tagged(false, parts))
  {
    if parts != [] { TaggedRoutes(parts[1..]); }
  }

  lemma {:induction false} PeersRoute(sections: seq<Section>)
    requires forall k :: 0 <= k < |sections| ==> SectionName(sections[k].header) == PEER
    ensures RouteEntries(Entries(sections))
  {
    hide SectionName, LinesEntries;
    if sections != [] {
      PeersRoute(sections[1..]);
      assert SectionName(sections[0].header) == PEER;
      PeerLinesRoute(sections[0].lines);
    }
  }

  /** A request for a new connection. */
  datatype Creation = Creation(instance: string, expected: string, connection: string, name: string, address: string,
    host: string)

  /** The text of a network, as it is written out again after parsing; v6 decides about IPv6. */
  predicate CanonicalCidr(v6: string -> bool, s: string) {
    match ParsePrefix(v6, s)
    case None => false
    case Some(Prefix6) => Clip(s) == s
    case Some(Prefix4(address, bits)) => address < SPACE_END && bits <= 32 && s == NetworkText(address, bits)
  }

  function NetworkText(address: uint64, bits: nat): string
    requires address < SPACE_END && bits <= 32
  {
    Ipv4.Dotted(RangeOf(address, bits).first as int) + "/" + Decimal(bits)
  }

  /** An IPv4 network is accepted exactly if its host bits are zero. */
  lemma CanonicalMeans(v6: string -> bool, s: string, n: uint64, bits: nat)
    requires n < SPACE_END && bits <= 32 && ParsePrefix(v6, s) == Some(Prefix4(n, bits))
    ensures CanonicalCidr(v6, s) <==> n as int % Size(32 - bits) == 0
  {
    hide ParsePrefix, Ipv4.Dotted, Size, RangeOf;
    var first := RangeOf(n, bits).first;
    RangeShares(n, bits, n);
    PrefixText(v6, s, n, bits);
    PrefixText(v6, s, first, bits);
    if n as int % Size(32 - bits) == 0 { InBlock(first as int, n as int, Size(32 - bits)); }
  }

  predicate ValidCreation(v6: string -> bool, v6Host: string -> bool, c: Creation) {
    && SafeId(c.instance) && SafeId(c.connection)
    && (c.address == [] || CanonicalCidr(v6, c.address))
    && NoBreak(c.name) && 1 <= |c.name| <= 120
    && ClientConfig.ValidHost(v6Host, c.host)
  }

  lemma NetworkClip(address: uint64, bits: nat)
    requires address < SPACE_END && bits <= 32
    ensures Clip(NetworkText(address, bits)) == NetworkText(address, bits)
  {
    hide Decimal, Clip, RangeOf;
    var s := NetworkText(address, bits);
    assert forall i :: 0 <= i < |s| ==> IsDigit(s[i]) || s[i] == '.' || s[i] == '/';
    ClipTrimmed(s);
  }

  /** An override that is available is the text of its address. */
  lemma HostCidr(v6: string -> bool, sections: seq<Section>, s: string) returns (n: uint64)
    requires CanonicalCidr(v6, s) && Available(v6, sections, s)
    ensures n < SPACE_END && s == AddressText(n) && PoolIn(v6, sections).Some? && Free(PoolIn(v6, sections).value, n)
  {
    hide ParsePrefix, Ipv4.Dotted, PoolIn, Clip, Free;
    var prefix := ParsePrefix(v6, s);
    if prefix.value.Prefix4? { NetworkClip(prefix.value.address, prefix.value.bits); }
    assert Clip(s) == s;
    n := prefix.value.address;
    HostRange(n);
    assert Decimal(32) == "32" by {
      assert Decimal(3) == "3";
    }
  }

  /** Which address a creation gets: the one asked for, if it is spare, or the least spare one. */
  ghost predicate Given(v6: string -> bool, w: World, c: Creation, n: uint64) {
    && c.instance in w.configs && Readable(v6, w, c.instance)
    && n < SPACE_END && Spare(v6, w, c.instance, n)
    && if c.address == [] then forall m :: Spare(v6, w, c.instance, m) ==> n <= m else c.address == AddressText(n)
  }

  /** The same, as the document with the waiting peers says it. */
  ghost predicate Assigned(v6: string -> bool, reserved: seq<Section>, c: Creation, n: uint64) {
    && n < SPACE_END && PoolIn(v6, reserved).Some? && Free(PoolIn(v6, reserved).value, n)
    && if c.address == [] then LeastFree(PoolIn(v6, reserved).value, n) else c.address == AddressText(n)
  }

  /** There is an address to give, among these sections: any, or the one asked for. */
  ghost predicate Assignable(v6: string -> bool, reserved: seq<Section>, address: string) {
    if address == [] then PoolIn(v6, reserved).Some? && !Exhausted(PoolIn(v6, reserved).value)
    else Available(v6, reserved, address)
  }

  lemma AssignedIsGiven(v6: string -> bool, w: World, reserved: seq<Section>, c: Creation, n: uint64)
    requires WorldOk(w) && c.instance in w.configs && Reserves(w, c.instance, reserved)
    ensures Assigned(v6, reserved, c, n) <==> Given(v6, w, c, n)
    ensures Given(v6, w, c, n) ==> Assignable(v6, reserved, c.address)
  {
    hide PoolIn, Readable, Spare, Reserves, WorldOk, AddressText, Free, ParsePrefix, Clip;
    ReservedExactly(v6, w, c.instance, reserved);
    if n < SPACE_END {
      AddressTextRoundTrip(v6, n);
      ClipAddress(n);
      if Readable(v6, w, c.instance) { assert Free(PoolIn(v6, reserved).value, n) <==> Spare(v6, w, c.instance, n); }
    }
  }

  /** A creation adds one peer with a new key and the address it is given to one configuration. */
  ghost predicate Issues(v6: string -> bool, w: World, c: Creation, key: string, n: uint64, now: World) {
    && c.instance in w.configs && Parses(w.configs[c.instance]) && w.configs[c.instance] == c.expected
    && !Holds(Sections(w, c.instance), key) && NoBreak(key) && NoBreak(c.name)
    && Given(v6, w, c, n)
    && now == w.(configs := w.configs[c.instance := IssuedText(w.configs[c.instance], key, n, c.name)])
  }

  lemma IssuesOk(v6: string -> bool, w: World, c: Creation, key: string, n: uint64)
    requires c.instance in w.configs && Parses(w.configs[c.instance]) && w.configs[c.instance] == c.expected
    requires FindPeer(Sections(w, c.instance), key).None? && NoBreak(key) && NoBreak(c.name) && Given(v6, w, c, n)
    ensures n < SPACE_END
    ensures Issues(v6, w, c, key, n,
      w.(configs := w.configs[c.instance := IssuedText(w.configs[c.instance], key, n, c.name)]))
  {
    hide Parses, Parsed, Readable, Spare, Holds, FindPeer, IssuedText, AddressText;
    FindPeerHolds(Sections(w, c.instance), key);
  }

  /**
   * Whoever creates a connection with a new key keeps all peers of the instance apart, loses none, and gets a usable
   * host.
   */
  lemma IssuedSafely(v6: string -> bool, w: World, c: Creation, key: string, n: uint64, now: World)
    requires WorldOk(w) && Issues(v6, w, c, key, n, now)
    ensures Conserved(PeersIn(v6, w), PeersIn(v6, now), iset{}) && WorldOk(now)
    ensures Usable(v6, Sections(w, c.instance), n)
    ensures Kept(PeersIn(v6, w)) && Clip(key) == key && FreshKey(w, c.instance, key) ==> Kept(PeersIn(v6, now))
  {
    hide Kept, PeersIn, Parses, Parsed, Clip, Usable, HasPool, Holds, IssuedText, StoredOk, AllParse, AddressText;
    IssueConserves(v6, w, c.instance, key, n, c.name);
    if Kept(PeersIn(v6, w)) && Clip(key) == key && FreshKey(w, c.instance, key) {
      IssueKeeps(v6, w, c.instance, key, n, c.name);
    }
  }

  /** As long as peers are kept apart, whatever was put aside can be put back into a copy to allocate against. */
  lemma ReserveFits(v6: string -> bool, w: World, i: string, sections: seq<Section>, rest: set<string>, c: string)
    requires WorldOk(w) && Kept(PeersIn(v6, w)) && Named(w) && i in w.configs && Parses(w.configs[i])
    requires ReservesBut(w, i, sections, rest) && c in rest && Waits(w, i, c)
    ensures Restorable(sections, w.suspended[c].section)
  {
    hide Kept, PeersIn, HasKey, Parses, Parsed, PeersOf, Restorable, StoredOk;
    var entry := w.suspended[c];
    StoredUnderKey(v6, w, c);
    SectionsApart(v6, w, i);
    forall k | 0 <= k < |sections| ensures !HasKey(sections[k], entry.publicKey) {
      if k < |Sections(w, i)| {
        assert sections[k] == Sections(w, i)[k];
        if HasKey(sections[k], entry.publicKey) { NamedPeer(Sections(w, i), k, entry.publicKey); }
      } else {
        assert TakenFrom(w, i, sections[k], rest);
        var d :| Waits(w, i, d) && d !in rest && sections[k] == w.suspended[d].section;
        if HasKey(sections[k], entry.publicKey) { StoredApart(v6, w, c, d); }
      }
    }
    RestoredUnder(entry, sections);
  }

  /** Two ids of one instance never stand for the same key. */
  lemma StoredApart(v6: string -> bool, w: World, c: string, d: string)
    requires WorldOk(w) && Kept(PeersIn(v6, w)) && c in w.suspended && d in w.suspended && c != d
    requires w.suspended[c].instance == w.suspended[d].instance
    ensures !HasKey(w.suspended[d].section, w.suspended[c].publicKey)
  {
    hide HasKey, Parses, Parsed, SectionEntries, KeptList, Matches, SoundSection;
    var p, k := PeersIn(v6, w), w.suspended[c].publicKey;
    assert c in p.stored && d in p.stored && Apart(p.stored[c].face, p.stored[d].face);
    assert k in p.stored[c].face.keys;
  }

  /** A section with one key is listed as the peer of this key. */
  lemma {:induction false} NamedPeer(sections: seq<Section>, j: nat, key: string)
    requires j < |sections| && HasKey(sections[j], key) && key != [] && OneEach(sections)
    ensures exists p :: p in PeersOf(sections) && p.publicKey == key
  {
    hide KeyLine, SectionName, PeerFrom;
    var k := |sections| - 1;
    if j < k {
      var start := sections[..k];
      OneEachStart(sections);
      NamedPeer(start, j, key);
    } else {
      var lines := sections[k].lines;
      forall i, l | 0 <= i < |lines| && KeyLine(lines[i], l) ensures l == key {
        assert HasKey(sections[k], l);
      }
      var i :| 0 <= i < |lines| && KeyLine(lines[i], key);
      LastKey(Peer([], [], []), lines, i, key);
    }
  }

  lemma OneEachStart(sections: seq<Section>)
    requires OneEach(sections) && sections != []
    ensures OneEach(sections[..|sections| - 1])
  {
    hide HasKey;
  }

  lemma {:induction false} LastKey(p: Peer, lines: seq<string>, i: nat, key: string)
    requires i < |lines| && KeyLine(lines[i], key) && forall j, l :: 0 <= j < |lines| && KeyLine(lines[j], l) ==>
      l == key
    ensures PeerFrom(p, lines).publicKey == key
  {
    hide Clip, Property, EqualFold, Split, KeyLine;
    var k := |lines| - 1;
    KeyStep(PeerFrom(p, lines[..k]), lines[k]);
    if i < k {
      assert lines[..k][i] == lines[i];
      LastKey(p, lines[..k], i, key);
    }
  }

  lemma KeyStep(p: Peer, line: string)
    ensures PeerStep(p, line).publicKey == p.publicKey || KeyLine(line, PeerStep(p, line).publicKey)
    ensures forall key :: KeyLine(line, key) ==> PeerStep(p, line).publicKey == key
  {
    hide Clip, Property, EqualFold, Split;
  }
}
