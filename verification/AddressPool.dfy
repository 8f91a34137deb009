/** The IPv4 address pool of a configuration: which addresses are taken, and the least free one. */
module AddressPool {
  import opened Text
  import opened Ipv4
  import opened ConfigLines
  import opened ConfigDocument

  /** The machine's 64-bit unsigned numbers: an operation that would wrap around does not verify. */
  newtype uint64 = x: int | 0 <= x < 0x1_0000_0000_0000_0000

  const SPACE_END: uint64 := 0x1_0000_0000

  datatype Range = Range(first: uint64, last: uint64)
  {
    predicate Contains(n: uint64) {
      first <= n <= last
    }
  }

  datatype Prefix = Prefix4(address: uint64, bits: nat) | Prefix6

  // Prefix notation --------------------------------------------------------------------------------

  predicate IsBits(s: string) {
    && 0 < |s| <= 2 && All(IsDigit, s)
    && (|s| > 1 ==> s[0] != '0')
    && DecimalValue(s) <= 32
  }

  /** Where the last separator is, or |s|. */
  function LastIndex(s: string, c: char): (i: nat)
    ensures i <= |s| && (i < |s| ==> s[i] == c)
  {
    if s == [] then 0
    else if s[|s| - 1] == c then |s| - 1
    else
      var i := LastIndex(s[..|s| - 1], c);
      if i == |s| - 1 then |s| else i
  }

  /** Section 3.1 of RFC 4632 for IPv4; whether anything else is an IPv6 prefix is up to v6. */
  function ParsePrefix(v6: string -> bool, s: string): (r: Option<Prefix>)
    ensures r.Some? && r.value.Prefix4? ==> r.value.address < SPACE_END && r.value.bits <= 32
  {
    var i := LastIndex(s, '/');
    if i == |s| then None
    else
      var o := Octets(s[..i]);
      if o.Some? then
        if IsBits(s[i + 1..]) then Some(Prefix4(Number(o.value) as uint64, DecimalValue(s[i + 1..]))) else None
      else if v6(s) then Some(Prefix6)
      else None
  }

  function AddressText(n: uint64): string
    requires n < SPACE_END
  {
    Dotted(n as int) + "/32"
  }

  lemma {:induction false} LastIndexAppend(a: string, b: string, c: char)
    requires c !in b
    ensures LastIndex(a + [c] + b, c) == |a|
  {
    var s := a + [c] + b;
    if b == [] {
      assert s[|s| - 1] == c;
    } else {
      assert s[|s| - 1] == b[|b| - 1];
      assert s[..|s| - 1] == a + [c] + b[..|b| - 1];
      LastIndexAppend(a, b[..|b| - 1], c);
    }
  }

  /** IPv4 prefixes are written in one way only: the dotted address, a slash, and the number of bits. */
  lemma PrefixText(v6: string -> bool, s: string, n: uint64, bits: nat)
    requires n < SPACE_END && bits <= 32
    ensures ParsePrefix(v6, s) == Some(Prefix4(n, bits)) <==> s == Dotted(n as int) + "/" + Decimal(bits)
  {
    hide Dotted, Octets, Number, LastIndex, Decimal, DecimalValue;
    if s == Dotted(n as int) + "/" + Decimal(bits) {
      BitsText(bits);
      LastIndexAppend(Dotted(n as int), Decimal(bits), '/');
      assert s == Dotted(n as int) + ['/'] + Decimal(bits);
      var i := |Dotted(n as int)|;
      assert s[..i] == Dotted(n as int) && s[i + 1..] == Decimal(bits);
      DottedRoundTrip(n as int);
    }
    if ParsePrefix(v6, s) == Some(Prefix4(n, bits)) {
      var i := LastIndex(s, '/');
      DottedCanonical(s[..i]);
      DecimalCanonical(s[i + 1..]);
      assert s == s[..i] + "/" + s[i + 1..];
    }
  }

  lemma BitsText(bits: nat)
    requires bits <= 32
    ensures IsBits(Decimal(bits)) && DecimalValue(Decimal(bits)) == bits && '/' !in Decimal(bits)
  {
    DecimalRoundTrip(bits);
    DecimalNoLeadingZero(bits);
    if bits >= 10 { assert |Decimal(bits / 10)| == 1; }
  }

  /** The text of an address reads back as this address and nothing else. */
  lemma AddressTextRoundTrip(v6: string -> bool, n: uint64)
    requires n < SPACE_END
    ensures ParsePrefix(v6, AddressText(n)) == Some(Prefix4(n, 32))
  {
    hide ParsePrefix, Dotted;
    ThirtyTwo();
    PrefixText(v6, AddressText(n), n, 32);
  }

  // Ranges -----------------------------------------------------------------------------------------

  /** The number of addresses with k free bits. */
  function Size(k: nat): (r: int)
    ensures r >= 1
  {
    if k == 0 then 1 else 2 * Size(k - 1)
  }

  lemma {:induction false} SizeProduct(a: nat, b: nat)
    ensures Size(a + b) == Size(a) * Size(b)
  {
    if a > 0 {
      SizeProduct(a - 1, b);
      assert Size(a + b) == 2 * (Size(a - 1) * Size(b)) == (2 * Size(a - 1)) * Size(b);
    }
  }

  lemma SizeTop()
    ensures Size(32) == SPACE_END as int
  {
    SizeProduct(16, 16);
    SizeProduct(8, 8);
    assert Size(8) == 256;
  }

  lemma BlockInside(x: int, size: int, blocks: int)
    requires size > 0 && 0 <= x < blocks * size
    ensures 0 <= x - x % size <= x < x - x % size + size <= blocks * size
  {
    var q := x / size;
    assert x == q * size + x % size;
    if q >= blocks {
      Monotone(blocks, q, size);
      assert false;
    }
    Monotone(q + 1, blocks, size);
    assert (q + 1) * size == q * size + size;
  }

  lemma Monotone(a: int, b: int, c: int)
    requires a <= b && c >= 0
    ensures a * c <= b * c
  {
  }

  /** A block of addresses ends inside the address space. */
  lemma BlockEnds(address: int, bits: nat)
    requires 0 <= address < SPACE_END as int && bits <= 32
    ensures var size := Size(32 - bits);
      0 <= address - address % size <= address < address - address % size + size <= SPACE_END as int
  {
    hide Size;
    SizeTop();
    SizeProduct(bits, 32 - bits);
    BlockInside(address, Size(32 - bits), Size(bits));
  }

  /** All addresses of a prefix, whatever its host bits say. */
  function RangeOf(address: uint64, bits: nat): (r: Range)
    requires address < SPACE_END && bits <= 32
    ensures r.first <= address <= r.last < SPACE_END
  {
    BlockEnds(address as int, bits);
    var size := Size(32 - bits) as uint64;
    var first := address - address % size;
    Range(first, first + size - 1)
  }

  /** Two addresses agree in the first bits. */
  ghost predicate Shares(address: uint64, bits: nat, n: uint64)
    requires bits <= 32
  {
    n as int / Size(32 - bits) == address as int / Size(32 - bits)
  }

  lemma SameBlock(x: int, y: int, size: int)
    requires size > 0
    ensures x / size == y / size <==> y - y % size <= x < y - y % size + size
  {
    var a, b := x / size, y / size;
    assert x == a * size + x % size && y == b * size + y % size;
    if a < b {
      Monotone(a + 1, b, size);
      assert (a + 1) * size == a * size + size;
    } else if a > b {
      Monotone(b + 1, a, size);
      assert (b + 1) * size == b * size + size;
    }
  }

  /** A prefix has exactly the addresses that share its bits: 2^(32 - bits) of them, from a multiple of this on. */
  lemma RangeShares(address: uint64, bits: nat, n: uint64)
    requires address < SPACE_END && bits <= 32
    ensures var r, size := RangeOf(address, bits), Size(32 - bits);
      && (r.Contains(n) <==> Shares(address, bits, n))
      && r.first as int % size == 0 && r.last as int == r.first as int + size - 1
  {
    hide Size;
    var size := Size(32 - bits);
    BlockEnds(address as int, bits);
    SameBlock(n as int, address as int, size);
    BlockStart(address as int, size);
  }

  lemma BlockStart(x: int, size: int)
    requires size > 0
    ensures (x - x % size) % size == 0
  {
    assert x - x % size == (x / size) * size;
    MultipleOf(x / size, size);
  }

  lemma MultipleOf(q: int, size: int)
    requires size > 0
    ensures (q * size) % size == 0 && (q * size) / size == q
  {
    var r, d := (q * size) % size, (q * size) / size;
    assert q * size == d * size + r;
    assert (q - d) * size == r;
    if q > d { Monotone(1, q - d, size); }
    if q < d { Monotone(q - d, -1, size); }
  }

  lemma HostRange(address: uint64)
    requires address < SPACE_END
    ensures RangeOf(address, 32) == Range(address, address)
  {
  }

  // What a document says about addresses ----------------------------------------------------------

  const INTERFACE := "interface"
  const ADDRESS := "Address"

  /** One item of an address list: of the server's own addresses, or of a peer's routes. */
  datatype Entry = Entry(server: bool, text: string)

  function Tagged(server: bool, parts: seq<string>): seq<Entry> {
    if parts == [] then [] else [Entry(server, parts[0])] + Tagged(server, parts[1..])
  }

  function LineEntries(name: string, line: string): seq<Entry> {
    match Property(line)
    case None => []
    case Some((k, v)) =>
      if name == INTERFACE && EqualFold(k, ADDRESS) then Tagged(true, Split(v, ','))
      else if name == PEER && EqualFold(k, ALLOWED_IPS) then Tagged(false, Split(v, ','))
      else []
  }

  function LinesEntries(name: string, lines: seq<string>): seq<Entry> {
    if lines == [] then [] else LineEntries(name, lines[0]) + LinesEntries(name, lines[1..])
  }

  function SectionEntries(s: Section): seq<Entry> {
    LinesEntries(SectionName(s.header), s.lines)
  }

  function Entries(sections: seq<Section>): seq<Entry> {
    if sections == [] then [] else SectionEntries(sections[0]) + Entries(sections[1..])
  }

  /** An item of the value of an Address line of an interface section, or of an AllowedIPs line of a peer section. */
  ghost predicate Lists(name: string, line: string, e: Entry) {
    var p := Property(line);
    && p.Some? && e.text in Split(p.value.1, ',')
    && if e.server then name == "interface" && EqualFold(p.value.0, "Address")
       else name == "peer" && EqualFold(p.value.0, "AllowedIPs")
  }

  lemma {:induction false} TaggedMembers(server: bool, parts: seq<string>, e: Entry)
    ensures e in Tagged(server, parts) <==> e.server == server && e.text in parts
  {
    if parts != [] {
      TaggedMembers(server, parts[1..], e);
      assert forall x :: x in parts <==> x == parts[0] || x in parts[1..];
    }
  }

  lemma LineMembers(name: string, line: string, e: Entry)
    ensures e in LineEntries(name, line) <==> Lists(name, line, e)
  {
    hide Property, EqualFold, Split;
    if Property(line).Some? {
      var parts := Split(Property(line).value.1, ',');
      TaggedMembers(true, parts, e);
      TaggedMembers(false, parts, e);
    }
    NotInterface();
  }

  lemma NotInterface()
    ensures PEER != INTERFACE
  {
    assert |PEER| != |INTERFACE|;
  }

  lemma {:induction false} LinesMembers(name: string, lines: seq<string>, e: Entry)
    ensures e in LinesEntries(name, lines) <==> exists j :: 0 <= j < |lines| && Lists(name, lines[j], e)
  {
    hide Lists, LineEntries;
    if lines != [] {
      LineMembers(name, lines[0], e);
      LinesMembers(name, lines[1..], e);
      assert forall j :: 0 < j < |lines| ==> lines[j] == lines[1..][j - 1];
    }
  }

  /** The addresses of a document are the items of these lines. */
  lemma {:induction false} EntriesMembers(sections: seq<Section>, e: Entry)
    ensures e in Entries(sections) <==> exists i, j ::
      0 <= i < |sections| && 0 <= j < |sections[i].lines|
        && Lists(SectionName(sections[i].header), sections[i].lines[j], e)
  {
    hide Lists, LinesEntries, SectionName;
    if sections != [] {
      LinesMembers(SectionName(sections[0].header), sections[0].lines, e);
      EntriesMembers(sections[1..], e);
      assert forall i :: 0 < i < |sections| ==> sections[i] == sections[1..][i - 1];
    }
  }

  /** The addresses found so far; None once an item was malformed. */
  datatype Found = Found(servers: seq<Prefix>, occupied: seq<Range>)

  function PrefixOf(v6: string -> bool, e: Entry): Option<Prefix> {
    ParsePrefix(v6, Clip(e.text))
  }

  function Step(v6: string -> bool, found: Found, e: Entry): Option<Found> {
    match PrefixOf(v6, e)
    case None => None
    case Some(Prefix6) => Some(found)
    case Some(Prefix4(address, bits)) =>
      if e.server then Some(found.(servers := found.servers + [Prefix4(address, bits)]))
      else Some(found.(occupied := found.occupied + [RangeOf(address, bits)]))
  }

  function Gather(v6: string -> bool, found: Found, entries: seq<Entry>): Option<Found>
    decreases |entries|
  {
    if entries == [] then Some(found)
    else
      match Step(v6, found, entries[0])
      case None => None
      case Some(next) => Gather(v6, next, entries[1..])
  }

  lemma {:induction false} GatherAppend(v6: string -> bool, found: Found, a: seq<Entry>, b: seq<Entry>)
    ensures Gather(v6, found, a + b) == match Gather(v6, found, a) case None => None case Some(f) => Gather(v6, f, b)
    decreases |a|
  {
    hide Step;
    if a == [] {
      assert a + b == b;
    } else {
      assert (a + b)[0] == a[0] && (a + b)[1..] == a[1..] + b;
      var next := Step(v6, found, a[0]);
      if next.Some? { GatherAppend(v6, next.value, a[1..], b); }
    }
  }

  /** A pool of client addresses: the hosts between first and last that nothing occupies. */
  datatype Pool = Pool(server: uint64, first: uint64, last: uint64, occupied: seq<Range>)

  predicate PoolOk(p: Pool) {
    && p.server < SPACE_END && p.first <= p.last < SPACE_END
    && forall r :: r in p.occupied ==> r.last < SPACE_END
  }

  function PoolOf(found: Found): Option<Pool> {
    if |found.servers| != 1 || !found.servers[0].Prefix4? || found.servers[0].address >= SPACE_END then None
    else
      var server := found.servers[0];
      if server.bits < 1 || server.bits > 30 then None
      else
        var whole := RangeOf(server.address, server.bits);
        HostsInside(server.address, server.bits);
        Some(Pool(server.address, whole.first + 1, whole.last - 1, found.occupied))
  }

  lemma HostsInside(address: uint64, bits: nat)
    requires address < SPACE_END && bits <= 30
    ensures RangeOf(address, bits).first + 3 <= RangeOf(address, bits).last
  {
    assert Size(32 - bits) == 2 * (2 * Size(30 - bits));
  }

  function PoolIn(v6: string -> bool, sections: seq<Section>): Option<Pool> {
    match Gather(v6, Found([], []), Entries(sections))
    case None => None
    case Some(found) => PoolOf(found)
  }

  predicate Covered(ranges: seq<Range>, n: uint64) {
    exists r :: r in ranges && r.Contains(n)
  }

  /** A host of the subnet that is neither the server nor in a peer's route. */
  predicate Free(p: Pool, n: uint64) {
    p.first <= n <= p.last && n != p.server && !Covered(p.occupied, n)
  }

  predicate FoundOk(f: Found) {
    && (forall r :: r in f.occupied ==> r.first <= r.last < SPACE_END)
    && (forall p :: p in f.servers ==> p.Prefix4? && p.address < SPACE_END && p.bits <= 32)
  }

  lemma {:induction false} GatherOk(v6: string -> bool, found: Found, entries: seq<Entry>)
    requires FoundOk(found)
    ensures Gather(v6, found, entries).Some? ==> FoundOk(Gather(v6, found, entries).value)
    decreases |entries|
  {
    hide Step, FoundOk;
    if entries != [] {
      var next := Step(v6, found, entries[0]);
      StepOk(v6, found, entries[0]);
      if next.Some? { GatherOk(v6, next.value, entries[1..]); }
    }
  }

  lemma StepOk(v6: string -> bool, found: Found, e: Entry)
    requires FoundOk(found)
    ensures Step(v6, found, e).Some? ==> FoundOk(Step(v6, found, e).value)
  {
    hide ParsePrefix, RangeOf, Clip;
  }

  lemma PoolInOk(v6: string -> bool, sections: seq<Section>)
    ensures PoolIn(v6, sections).Some? ==> PoolOk(PoolIn(v6, sections).value)
  {
    hide Gather, Entries, RangeOf;
    var start := Found([], []);
    GatherOk(v6, start, Entries(sections));
    var g := Gather(v6, start, Entries(sections));
    if g.Some? && PoolOf(g.value).Some? {
      HostsInside(g.value.servers[0].address, g.value.servers[0].bits);
    }
  }

  // What a pool means, without its ranges -----------------------------------------------------------

  predicate AllParse(v6: string -> bool, entries: seq<Entry>) {
    forall e :: e in entries ==> PrefixOf(v6, e).Some?
  }

  /** An IPv4 address of the server itself. */
  predicate OfServer(v6: string -> bool, e: Entry) {
    e.server && PrefixOf(v6, e).Some? && PrefixOf(v6, e).value.Prefix4?
  }

  /** Only this item is an IPv4 address of the server. */
  ghost predicate OnlyAt(v6: string -> bool, entries: seq<Entry>, k: nat, address: uint64, bits: nat) {
    && k < |entries| && entries[k].server && PrefixOf(v6, entries[k]) == Some(Prefix4(address, bits))
    && forall j :: 0 <= j < |entries| && j != k ==> !OfServer(v6, entries[j])
  }

  /** The one IPv4 prefix of the server. */
  ghost predicate Subnet(v6: string -> bool, entries: seq<Entry>, address: uint64, bits: nat) {
    exists k: nat :: OnlyAt(v6, entries, k, address, bits)
  }

  /** The route of a peer that an address matches. */
  ghost predicate RoutedBy(v6: string -> bool, e: Entry, n: uint64) {
    var prefix := PrefixOf(v6, e);
    !e.server && prefix.Some? && prefix.value.Prefix4? && Shares(prefix.value.address, prefix.value.bits, n)
  }

  ghost predicate Routed(v6: string -> bool, entries: seq<Entry>, n: uint64) {
    exists e :: e in entries && RoutedBy(v6, e, n)
  }

  /** Shares the server's prefix, and is neither the first nor the last address of it nor the server's own. */
  ghost predicate HostOf(address: uint64, bits: nat, n: uint64) {
    && 1 <= bits <= 30 && Shares(address, bits, n) && n != address
    && n as int % Size(32 - bits) != 0 && n as int % Size(32 - bits) != Size(32 - bits) - 1
  }

  /** Every item of the document can be read, and the server has one IPv4 prefix, with room for clients. */
  ghost predicate HasPool(v6: string -> bool, sections: seq<Section>) {
    AllParse(v6, Entries(sections)) && exists a, b: nat :: 1 <= b <= 30 && Subnet(v6, Entries(sections), a, b)
  }

  /** A host of the server's prefix that no peer's prefix matches. */
  ghost predicate Usable(v6: string -> bool, sections: seq<Section>, n: uint64) {
    && AllParse(v6, Entries(sections)) && !Routed(v6, Entries(sections), n)
    && exists a, b: nat :: Subnet(v6, Entries(sections), a, b) && HostOf(a, b, n)
  }

  lemma {:induction false} GatherParses(v6: string -> bool, found: Found, entries: seq<Entry>)
    ensures Gather(v6, found, entries).Some? <==> AllParse(v6, entries)
    decreases |entries|
  {
    hide PrefixOf, RangeOf;
    if entries != [] {
      assert forall e :: e in entries <==> e == entries[0] || e in entries[1..];
      var next := Step(v6, found, entries[0]);
      if next.Some? { GatherParses(v6, next.value, entries[1..]); }
    }
  }

  lemma {:induction false} GatherCovers(v6: string -> bool, found: Found, entries: seq<Entry>, n: uint64)
    requires Gather(v6, found, entries).Some?
    ensures Covered(Gather(v6, found, entries).value.occupied, n) <==>
      Covered(found.occupied, n) || Routed(v6, entries, n)
    decreases |entries|
  {
    hide Step, RoutedBy;
    if entries != [] {
      var next := Step(v6, found, entries[0]).value;
      StepCovers(v6, found, entries[0], n);
      GatherCovers(v6, next, entries[1..], n);
      assert Routed(v6, entries, n) <==> RoutedBy(v6, entries[0], n) || Routed(v6, entries[1..], n) by {
        assert entries[0] in entries;
        assert forall e :: e in entries <==> e == entries[0] || e in entries[1..];
      }
    }
  }

  lemma StepCovers(v6: string -> bool, found: Found, e: Entry, n: uint64)
    requires Step(v6, found, e).Some?
    ensures Covered(Step(v6, found, e).value.occupied, n) <==> Covered(found.occupied, n) || RoutedBy(v6, e, n)
  {
    hide PrefixOf, RangeOf, Shares;
    PrefixSmall(v6, e);
    var next := Step(v6, found, e).value;
    if next.occupied != found.occupied {
      var r := next.occupied[|found.occupied|];
      assert next.occupied == found.occupied + [r];
      RangeShares(PrefixOf(v6, e).value.address, PrefixOf(v6, e).value.bits, n);
      assert forall x :: x in next.occupied <==> x in found.occupied || x == r;
    }
  }

  lemma PrefixSmall(v6: string -> bool, e: Entry)
    ensures PrefixOf(v6, e).Some? && PrefixOf(v6, e).value.Prefix4? ==>
      PrefixOf(v6, e).value.address < SPACE_END && PrefixOf(v6, e).value.bits <= 32
  {
    hide Clip;
  }

  /** The IPv4 prefixes of the server, in order. */
  function ServersOf(v6: string -> bool, entries: seq<Entry>): seq<Prefix> {
    if entries == [] then []
    else (if OfServer(v6, entries[0]) then [PrefixOf(v6, entries[0]).value] else []) + ServersOf(v6, entries[1..])
  }

  lemma {:induction false} GatherServers(v6: string -> bool, found: Found, entries: seq<Entry>)
    requires Gather(v6, found, entries).Some?
    ensures Gather(v6, found, entries).value.servers == found.servers + ServersOf(v6, entries)
    decreases |entries|
  {
    hide PrefixOf, RangeOf;
    if entries != [] {
      GatherServers(v6, Step(v6, found, entries[0]).value, entries[1..]);
    }
  }

  lemma {:induction false} NoServers(v6: string -> bool, entries: seq<Entry>)
    ensures ServersOf(v6, entries) == [] <==> forall j :: 0 <= j < |entries| ==> !OfServer(v6, entries[j])
  {
    hide OfServer;
    if entries != [] {
      NoServers(v6, entries[1..]);
      assert forall j :: 0 < j < |entries| ==> entries[j] == entries[1..][j - 1];
    }
  }

  lemma {:induction false} SubnetIs(v6: string -> bool, entries: seq<Entry>, address: uint64, bits: nat)
    ensures Subnet(v6, entries, address, bits) <==> ServersOf(v6, entries) == [Prefix4(address, bits)]
  {
    hide PrefixOf;
    if entries != [] {
      var rest := entries[1..];
      NoServers(v6, rest);
      assert forall j :: 0 < j < |entries| ==> entries[j] == rest[j - 1];
      if OfServer(v6, entries[0]) {
        assert forall k: nat :: OnlyAt(v6, entries, k, address, bits) ==> k == 0;
        if ServersOf(v6, entries) == [Prefix4(address, bits)] {
          assert ServersOf(v6, entries) == [PrefixOf(v6, entries[0]).value] + ServersOf(v6, rest);
          assert ServersOf(v6, entries)[1..] == ServersOf(v6, rest);
          assert ServersOf(v6, entries)[0] == PrefixOf(v6, entries[0]).value;
          assert OnlyAt(v6, entries, 0, address, bits);
        }
      } else {
        SubnetIs(v6, rest, address, bits);
        OnlyAtRest(v6, entries, address, bits);
      }
    }
  }

  lemma OnlyAtRest(v6: string -> bool, entries: seq<Entry>, address: uint64, bits: nat)
    requires entries != [] && !OfServer(v6, entries[0])
    ensures Subnet(v6, entries, address, bits) <==> Subnet(v6, entries[1..], address, bits)
  {
    hide PrefixOf;
    var rest := entries[1..];
    assert forall j :: 0 < j < |entries| ==> entries[j] == rest[j - 1];
    if k: nat :| OnlyAt(v6, entries, k, address, bits) {
      assert OnlyAt(v6, rest, k - 1, address, bits);
    }
    if k: nat :| OnlyAt(v6, rest, k, address, bits) {
      assert OnlyAt(v6, entries, k + 1, address, bits);
    }
  }

  lemma HostBetween(address: uint64, bits: nat, n: uint64)
    requires address < SPACE_END && 1 <= bits <= 30
    ensures var r := RangeOf(address, bits); HostOf(address, bits, n) <==> r.first < n < r.last && n != address
  {
    hide Size, RangeOf;
    var r, size := RangeOf(address, bits), Size(32 - bits);
    RangeShares(address, bits, n);
    SameBlock(n as int, address as int, size);
    if r.Contains(n) { InBlock(r.first as int, n as int, size); }
  }

  lemma InBlock(first: int, n: int, size: int)
    requires size > 0 && first % size == 0 && first <= n < first + size
    ensures n % size == n - first
  {
    SameBlock(n, first, size);
    assert n == (n / size) * size + n % size && first == (first / size) * size;
  }

  /** What is read from a document is a pool exactly if it has one, and its free hosts are the usable ones. */
  lemma PoolMeans(v6: string -> bool, sections: seq<Section>)
    ensures PoolIn(v6, sections).Some? <==> HasPool(v6, sections)
    ensures forall n :: PoolIn(v6, sections).Some? && Free(PoolIn(v6, sections).value, n) <==> Usable(v6, sections, n)
  {
    hide Gather, Entries, RangeOf, Shares, Size, Subnet, Routed, AllParse, Covered, PrefixOf;
    var start, entries := Found([], []), Entries(sections);
    GatherParses(v6, start, entries);
    forall a, b: nat ensures Subnet(v6, entries, a, b) <==> ServersOf(v6, entries) == [Prefix4(a, b)] {
      SubnetIs(v6, entries, a, b);
    }
    if Gather(v6, start, entries).Some? {
      GatherOk(v6, start, entries);
      GatherServers(v6, start, entries);
      forall n ensures Covered(Gather(v6, start, entries).value.occupied, n) <==> Routed(v6, entries, n) {
        GatherCovers(v6, start, entries, n);
        NothingCovered(n);
      }
      var found := Gather(v6, start, entries).value;
      if PoolOf(found).Some? {
        var p := found.servers[0];
        assert Subnet(v6, entries, p.address, p.bits);
        HostsInside(p.address, p.bits);
        forall n ensures HostOf(p.address, p.bits, n) <==>
            PoolOf(found).value.first <= n <= PoolOf(found).value.last && n != p.address
        {
          HostBetween(p.address, p.bits, n);
        }
      }
    }
  }

  lemma NothingCovered(n: uint64)
    ensures !Covered([], n)
  {
  }

  // Reading the document ---------------------------------------------------------------------------

  /** The items of one line. */
  method GatherParts(v6: string -> bool, start: Found, server: bool, parts: seq<string>, ghost tail: seq<Entry>)
    returns (found: Option<Found>)
    ensures Gather(v6, start, Tagged(server, parts) + tail) ==
      match found case None => None case Some(f) => Gather(v6, f, tail)
  {
    hide ParsePrefix, RangeOf, Clip;
    var now := start;
    for i := 0 to |parts|
      invariant Gather(v6, start, Tagged(server, parts) + tail) == Gather(v6, now, Tagged(server, parts[i..]) + tail)
    {
      var all := Tagged(server, parts[i..]) + tail;
      assert parts[i..][0] == parts[i] && parts[i..][1..] == parts[i + 1..];
      assert all[0] == Entry(server, parts[i]) && all[1..] == Tagged(server, parts[i + 1..]) + tail;
      var prefix := ParsePrefix(v6, Clip(parts[i]));
      if prefix.None? { return None; }
      if prefix.value.Prefix4? {
        if server {
          now := now.(servers := now.servers + [prefix.value]);
        } else {
          now := now.(occupied := now.occupied + [RangeOf(prefix.value.address, prefix.value.bits)]);
        }
      }
    }
    assert Tagged(server, parts[|parts|..]) + tail == tail;
    return Some(now);
  }

  lemma LinesEntriesStep(name: string, lines: seq<string>, i: nat, tail: seq<Entry>)
    requires i < |lines|
    ensures LinesEntries(name, lines[i..]) + tail ==
      LineEntries(name, lines[i]) + (LinesEntries(name, lines[i + 1..]) + tail)
  {
    hide LineEntries;
    assert lines[i..][0] == lines[i] && lines[i..][1..] == lines[i + 1..];
  }

  lemma NoLinesEntries(name: string, lines: seq<string>, tail: seq<Entry>)
    requires lines == []
    ensures LinesEntries(name, lines) + tail == tail
  {
  }

  /** The lines of one section. */
  method GatherLines(v6: string -> bool, start: Found, name: string, lines: seq<string>, ghost tail: seq<Entry>)
    returns (found: Option<Found>)
    ensures Gather(v6, start, LinesEntries(name, lines) + tail) ==
      match found case None => None case Some(f) => Gather(v6, f, tail)
  {
    hide Property, Gather, EqualFold, LinesEntries;
    assert lines[0..] == lines;
    var now := start;
    for i := 0 to |lines|
      invariant Gather(v6, start, LinesEntries(name, lines) + tail) ==
        Gather(v6, now, LinesEntries(name, lines[i..]) + tail)
    {
      ghost var rest := LinesEntries(name, lines[i + 1..]) + tail;
      LinesEntriesStep(name, lines, i, tail);
      assert [] + rest == rest;
      var p := Property(lines[i]);
      if p.None? { continue; }
      var isServer := name == INTERFACE && EqualFold(p.value.0, ADDRESS);
      var isRoute := name == PEER && EqualFold(p.value.0, ALLOWED_IPS);
      if !isServer && !isRoute { continue; }
      var next := GatherParts(v6, now, isServer, Split(p.value.1, ','), rest);
      if next.None? { return None; }
      now := next.value;
    }
    NoLinesEntries(name, lines[|lines|..], tail);
    return Some(now);
  }

  lemma {:induction false} OtherSection(name: string, lines: seq<string>)
    requires name != INTERFACE && name != PEER
    ensures LinesEntries(name, lines) == []
  {
    hide Property;
    if lines != [] { OtherSection(name, lines[1..]); }
  }

  method FindPool(v6: string -> bool, sections: seq<Section>) returns (pool: Option<Pool>)
    ensures pool == PoolIn(v6, sections)
  {
    hide SectionName, Gather, PoolOf;
    var found := Found([], []);
    ghost var goal := Gather(v6, found, Entries(sections));
    for i := 0 to |sections|
      invariant goal == Gather(v6, found, Entries(sections[i..]))
    {
      assert sections[i..][0] == sections[i] && sections[i..][1..] == sections[i + 1..];
      var name := SectionName(sections[i].header);
      if name != INTERFACE && name != PEER {
        OtherSection(name, sections[i].lines);
        assert [] + Entries(sections[i + 1..]) == Entries(sections[i + 1..]);
        continue;
      }
      var next := GatherLines(v6, found, name, sections[i].lines, Entries(sections[i + 1..]));
      if next.None? { return None; }
      found := next.value;
    }
    GatherNone(v6, found);
    return PoolOf(found);
  }

  lemma GatherNone(v6: string -> bool, found: Found)
    ensures Gather(v6, found, []) == Some(found)
  {
  }

  // Sorting the occupied ranges --------------------------------------------------------------------

  predicate RangeLe(a: Range, b: Range) {
    a.first < b.first || (a.first == b.first && a.last <= b.last)
  }

  predicate Sorted(ranges: seq<Range>) {
    forall i, j :: 0 <= i < j < |ranges| ==> RangeLe(ranges[i], ranges[j])
  }

  function Insert(r: Range, ranges: seq<Range>): seq<Range> {
    if ranges == [] then [r]
    else if RangeLe(r, ranges[0]) then [r] + ranges
    else [ranges[0]] + Insert(r, ranges[1..])
  }

  function Sort(ranges: seq<Range>): seq<Range> {
    if ranges == [] then [] else Insert(ranges[0], Sort(ranges[1..]))
  }

  lemma {:induction false} InsertMultiset(r: Range, ranges: seq<Range>)
    ensures multiset(Insert(r, ranges)) == multiset{r} + multiset(ranges)
  {
    hide RangeLe;
    if ranges != [] {
      assert ranges == [ranges[0]] + ranges[1..];
      if !RangeLe(r, ranges[0]) { InsertMultiset(r, ranges[1..]); }
    }
  }

  lemma {:induction false} InsertSorted(r: Range, ranges: seq<Range>)
    requires Sorted(ranges)
    ensures Sorted(Insert(r, ranges))
  {
    if ranges != [] && !RangeLe(r, ranges[0]) {
      var rest := Insert(r, ranges[1..]);
      InsertSorted(r, ranges[1..]);
      InsertMultiset(r, ranges[1..]);
      forall j | 0 <= j < |rest| ensures RangeLe(ranges[0], rest[j]) {
        assert rest[j] in multiset(rest);
      }
    }
  }

  lemma {:induction false} SortIs(ranges: seq<Range>)
    ensures Sorted(Sort(ranges)) && multiset(Sort(ranges)) == multiset(ranges)
  {
    if ranges != [] {
      SortIs(ranges[1..]);
      InsertMultiset(ranges[0], Sort(ranges[1..]));
      InsertSorted(ranges[0], Sort(ranges[1..]));
      assert ranges == [ranges[0]] + ranges[1..];
    }
  }

  lemma SameCover(a: seq<Range>, b: seq<Range>, n: uint64)
    requires multiset(a) == multiset(b)
    ensures Covered(a, n) <==> Covered(b, n)
  {
    forall r ensures r in a <==> r in b {
      assert r in a <==> r in multiset(a);
    }
  }

  // Allocation -------------------------------------------------------------------------------------

  predicate LeastFree(p: Pool, n: uint64) {
    Free(p, n) && forall m :: Free(p, m) ==> n <= m
  }

  predicate Exhausted(p: Pool) {
    forall m :: !Free(p, m)
  }

  /** A range that ends before the candidate, or begins beyond the pool. */
  predicate Passed(r: Range, candidate: uint64, last: uint64) {
    r.last < candidate || r.first > last
  }

  ghost predicate TakenBelow(items: seq<Range>, first: uint64, candidate: uint64) {
    forall n :: first <= n < candidate ==> Covered(items, n)
  }

  lemma CandidateFree(items: seq<Range>, i: nat, candidate: uint64, last: uint64)
    requires Sorted(items) && candidate <= last && i <= |items|
    requires forall k :: 0 <= k < i ==> Passed(items[k], candidate, last)
    requires i < |items| ==> items[i].first > candidate
    ensures !Covered(items, candidate)
  {
    forall r | r in items ensures !r.Contains(candidate) {
      var k :| 0 <= k < |items| && items[k] == r;
      assert k < i ==> Passed(items[k], candidate, last);
      assert k > i ==> RangeLe(items[i], items[k]);
    }
  }

  lemma CandidateMoves(items: seq<Range>, item: Range, first: uint64, candidate: uint64)
    requires item in items && item.first <= candidate <= item.last < SPACE_END && TakenBelow(items, first, candidate)
    ensures TakenBelow(items, first, item.last + 1)
  {
    forall n | first <= n < item.last + 1 ensures Covered(items, n) {
      if n >= candidate { assert item.Contains(n); }
    }
  }

  /** The ranges to sweep over: all that is taken, the server included, in order. */
  method Taken(p: Pool) returns (items: seq<Range>)
    requires PoolOk(p)
    ensures Sorted(items) && forall r :: r in items ==> r.last < SPACE_END
    ensures forall n :: Free(p, n) <==> p.first <= n <= p.last && !Covered(items, n)
  {
    hide Free, Covered, Sorted;
    var taken := p.occupied + [Range(p.server, p.server)];
    items := Sort(taken);
    SortIs(taken);
    forall n ensures Free(p, n) <==> p.first <= n <= p.last && !Covered(items, n) {
      SameCover(items, taken, n);
      FreeIsUncovered(p, n);
    }
    forall r | r in items ensures r.last < SPACE_END {
      assert r in multiset(items);
    }
  }

  method Sweep(p: Pool) returns (found: Option<uint64>)
    requires PoolOk(p)
    ensures found.Some? ==> LeastFree(p, found.value) && found.value < SPACE_END
    ensures found.None? ==> Exhausted(p)
  {
    hide Covered, Sorted, Free;
    var items := Taken(p);
    var candidate := p.first;
    var i := 0;
    while i < |items|
      invariant 0 <= i <= |items|
      invariant p.first <= candidate <= p.last
      invariant TakenBelow(items, p.first, candidate)
      invariant forall k :: 0 <= k < i ==> Passed(items[k], candidate, p.last)
    {
      var item := items[i];
      assert item in items;
      if item.last < candidate || item.first > p.last {
        i := i + 1;
        continue;
      }
      if item.first > candidate {
        CandidateFree(items, i, candidate, p.last);
        return Some(candidate);
      }
      CandidateMoves(items, item, p.first, candidate);
      candidate := item.last + 1;
      if candidate > p.last {
        return None;
      }
      i := i + 1;
    }
    CandidateFree(items, i, candidate, p.last);
    return Some(candidate);
  }

  lemma FreeIsUncovered(p: Pool, n: uint64)
    ensures Free(p, n) <==> p.first <= n <= p.last && !Covered(p.occupied + [Range(p.server, p.server)], n)
  {
    var own := Range(p.server, p.server);
    var taken := p.occupied + [own];
    if n == p.server { assert own in taken && own.Contains(n); }
    forall r | r in p.occupied ensures r in taken {
    }
  }

  method AllocateIPv4AddressCIDR(v6: string -> bool, sections: seq<Section>) returns (address: Option<string>)
    ensures var pool := PoolIn(v6, sections);
      if address.Some? then pool.Some? && exists n ::
        n < SPACE_END && LeastFree(pool.value, n) && address.value == AddressText(n)
      else pool.Some? ==> Exhausted(pool.value)
    ensures if address.Some? then exists n ::
        n < SPACE_END && Usable(v6, sections, n) && address.value == AddressText(n)
          && forall m :: Usable(v6, sections, m) ==> n <= m
      else forall m :: !Usable(v6, sections, m)
  {
    hide PoolIn, AddressText, Usable, HasPool, Free;
    PoolMeans(v6, sections);
    PoolInOk(v6, sections);
    var pool := FindPool(v6, sections);
    if pool.None? { return None; }
    var n := Sweep(pool.value);
    if n.None? { return None; }
    return Some(AddressText(n.value));
  }

  /** What the override of the previous Panel accepts. */
  predicate Available(v6: string -> bool, sections: seq<Section>, value: string) {
    var prefix := ParsePrefix(v6, Clip(value));
    && prefix.Some? && prefix.value.Prefix4? && prefix.value.bits == 32
    && PoolIn(v6, sections).Some? && Free(PoolIn(v6, sections).value, prefix.value.address)
  }

  lemma AvailableMeans(v6: string -> bool, sections: seq<Section>, value: string)
    ensures Available(v6, sections, value) <==>
      exists n :: n < SPACE_END && Usable(v6, sections, n) && Clip(value) == AddressText(n)
  {
    hide PoolIn, ParsePrefix, Clip, Usable, HasPool, Free, Dotted;
    PoolMeans(v6, sections);
    var prefix := ParsePrefix(v6, Clip(value));
    if Available(v6, sections, value) {
      PrefixText(v6, Clip(value), prefix.value.address, 32);
      ThirtyTwo();
    }
    forall n | n < SPACE_END && Clip(value) == AddressText(n) ensures prefix == Some(Prefix4(n, 32)) {
      AddressTextRoundTrip(v6, n);
    }
  }

  lemma ThirtyTwo()
    ensures Decimal(32) == "32"
  {
  }

  method ValidateAvailableIPv4AddressCIDR(v6: string -> bool, sections: seq<Section>, value: string) returns (ok: bool)
    ensures ok <==> Available(v6, sections, value)
    ensures ok <==> exists n :: n < SPACE_END && Usable(v6, sections, n) && Clip(value) == AddressText(n)
  {
    hide PoolIn, ParsePrefix, Clip, Usable, HasPool, AddressText;
    AvailableMeans(v6, sections, value);
    var prefix := ParsePrefix(v6, Clip(value));
    if prefix.None? || !prefix.value.Prefix4? || prefix.value.bits != 32 { return false; }
    var pool := FindPool(v6, sections);
    if pool.None? { return false; }
    var p, n := pool.value, prefix.value.address;
    if n < p.first || n > p.last || n == p.server { return false; }
    for i := 0 to |p.occupied|
      invariant forall k :: 0 <= k < i ==> !p.occupied[k].Contains(n)
    {
      if n >= p.occupied[i].first && n <= p.occupied[i].last {
        assert p.occupied[i] in p.occupied && p.occupied[i].Contains(n);
        return false;
      }
    }
    return true;
  }

  lemma ClipAddress(n: uint64)
    requires n < SPACE_END
    ensures Clip(AddressText(n)) == AddressText(n) && NoBreak(AddressText(n)) && ',' !in AddressText(n)
  {
    hide Decimal, Clip;
    var s := AddressText(n);
    assert forall i :: 0 <= i < |s| ==> IsDigit(s[i]) || s[i] == '.' || s[i] == '/';
    assert |s| > 0;
    assert forall c :: c in s ==> IsDigit(c) || c == '.' || c == '/';
    ClipTrimmed(s);
  }

  /**
   * The allocator refines the validator: what it returns is accepted, everything accepted is at or above it, and it
   * returns nothing exactly when nothing is accepted.
   */
  lemma AllocatorRefinesValidator(v6: string -> bool, sections: seq<Section>, address: Option<string>)
    requires var pool := PoolIn(v6, sections);
      if address.Some? then pool.Some? && exists n ::
        n < SPACE_END && LeastFree(pool.value, n) && address.value == AddressText(n)
      else pool.Some? ==> Exhausted(pool.value)
    ensures address.Some? ==> Available(v6, sections, address.value)
    ensures forall value :: Available(v6, sections, value) ==>
      && address.Some?
      && ParsePrefix(v6, address.value).Some? && ParsePrefix(v6, address.value).value.Prefix4?
      && ParsePrefix(v6, address.value).value.address <= ParsePrefix(v6, Clip(value)).value.address
  {
    hide PoolIn, AddressText, ParsePrefix, Clip, Free;
    if address.Some? {
      var n :| n < SPACE_END && LeastFree(PoolIn(v6, sections).value, n) && address.value == AddressText(n);
      ClipAddress(n);
      AddressTextRoundTrip(v6, n);
    }
  }

  // Allocating again and again -----------------------------------------------------------------------

  lemma {:induction false} LinesEntriesAlike(name: string, a: seq<string>, b: seq<string>)
    requires AlikeLines(a, b)
    ensures LinesEntries(name, a) == LinesEntries(name, b)
  {
    hide Clip, Property, EqualFold;
    if a != [] {
      assert Clip(a[0]) == Clip(b[0]);
      PropertyClip(a[0], b[0]);
      forall i | 0 <= i < |a[1..]| ensures Clip(a[1..][i]) == Clip(b[1..][i]) {
        assert Clip(a[i + 1]) == Clip(b[i + 1]);
      }
      LinesEntriesAlike(name, a[1..], b[1..]);
    }
  }

  lemma SectionEntriesAlike(a: Section, b: Section)
    requires AlikeSection(a, b)
    ensures SectionEntries(a) == SectionEntries(b)
  {
    hide Clip, LinesEntries;
    LinesEntriesAlike(SectionName(a.header), a.lines, b.lines);
  }

  lemma {:induction false} EntriesAlike(a: seq<Section>, b: seq<Section>)
    requires Alike(a, b)
    ensures Entries(a) == Entries(b)
  {
    hide AlikeSection, SectionEntries;
    if a != [] {
      SectionEntriesAlike(a[0], b[0]);
      forall i | 0 <= i < |a[1..]| ensures AlikeSection(a[1..][i], b[1..][i]) {
        assert AlikeSection(a[i + 1], b[i + 1]);
      }
      EntriesAlike(a[1..], b[1..]);
    }
  }

  lemma {:induction false} LinesEntriesAppend(name: string, a: seq<string>, b: seq<string>)
    ensures LinesEntries(name, a + b) == LinesEntries(name, a) + LinesEntries(name, b)
  {
    hide LineEntries;
    if a == [] {
      assert a + b == b;
    } else {
      assert (a + b)[0] == a[0] && (a + b)[1..] == a[1..] + b;
      LinesEntriesAppend(name, a[1..], b);
    }
  }

  lemma {:induction false} EntriesAppend(a: seq<Section>, b: seq<Section>)
    ensures Entries(a + b) == Entries(a) + Entries(b)
  {
    hide SectionEntries;
    if a == [] {
      assert a + b == b;
    } else {
      assert (a + b)[0] == a[0] && (a + b)[1..] == a[1..] + b;
      EntriesAppend(a[1..], b);
    }
  }

  lemma LineEntriesOne(name: string, line: string)
    ensures LinesEntries(name, [line]) == LineEntries(name, line)
  {
    hide LineEntries;
    assert LineEntries(name, line) + [] == LineEntries(name, line);
  }

  lemma EntriesOne(s: Section)
    ensures Entries([s]) == SectionEntries(s)
  {
    hide SectionEntries;
    assert SectionEntries(s) + [] == SectionEntries(s);
  }

  lemma SpacedEntries(sections: seq<Section>)
    ensures Entries(Spaced(sections)) == Entries(sections)
  {
    hide SectionEntries, Clip;
    if sections != [] {
      var k := |sections| - 1;
      var init, last := sections[..k], sections[k];
      var extended := Section(last.header, last.lines + [[]]);
      assert sections == init + [last] && ExtendLast(sections, []) == init + [extended];
      EntriesAppend(init, [last]);
      EntriesAppend(init, [extended]);
      EntriesOne(last);
      EntriesOne(extended);
      BlankEntries(last);
    }
  }

  lemma BlankEntries(s: Section)
    ensures SectionEntries(Section(s.header, s.lines + [[]])) == SectionEntries(s)
  {
    hide SectionName;
    var name := SectionName(s.header);
    LinesEntriesAppend(name, s.lines, [[]]);
    assert Clip([]) == [];
    LineEntriesOne(name, []);
  }

  lemma NewPeerEntries(key: string, n: uint64, name: string)
    requires n < SPACE_END
    ensures SectionEntries(NewPeer(key, AddressText(n), name)) == [Entry(false, AddressText(n))]
  {
    hide Clip, SectionName, Property, EqualFold, AddressText;
    PeerHeaderName();
    LiteralNames();
    ClipAddress(n);
    var address := AddressText(n);
    var keyLine, addressLine := PUBLIC_KEY + [' ', '='] + [' '] + key, ALLOWED_IPS + [' ', '='] + [' '] + address;
    PropertyWritten(PUBLIC_KEY, key);
    PropertyWritten(ALLOWED_IPS, address);
    var tagged: seq<string> := if name == [] then [] else [NAME_TAG + [' '] + name];
    var lines := PeerLines(key, address, name);
    assert lines == tagged + ([keyLine] + [addressLine]);
    LinesEntriesAppend(PEER, tagged, [keyLine] + [addressLine]);
    LinesEntriesAppend(PEER, [keyLine], [addressLine]);
    LineEntriesOne(PEER, keyLine);
    LineEntriesOne(PEER, addressLine);
    SplitNoSeparator(address, ',');
    NotInterface();
    assert Tagged(false, [address]) == [Entry(false, address)];
    if name != [] {
      NameHasNoEntry(name);
      LineEntriesOne(PEER, NAME_TAG + [' '] + name);
    }
    KeyIsNoAddress();
  }

  lemma KeyIsNoAddress()
    ensures !EqualFold(PUBLIC_KEY, ALLOWED_IPS)
  {
  }

  lemma NameHasNoEntry(name: string)
    ensures LineEntries(PEER, NAME_TAG + [' '] + name) == []
  {
    hide Clip;
    LiteralNames();
    ClipTagged(NAME_TAG, name);
    assert Clip(NAME_TAG + [' '] + name)[0] == '#';
  }

  lemma AddedEntries(data: string, key: string, n: uint64, name: string)
    requires Parses(data) && NoBreak(key) && NoBreak(name) && n < SPACE_END
    ensures Entries(Parsed(PrintDoc(Added(Parsed(data), key, AddressText(n), name))).sections) ==
      Entries(Parsed(data).sections) + [Entry(false, AddressText(n))]
  {
    hide Parsed, Clip, Sound, Parses, Alike, NewPeer, Spaced, AddressText, SectionEntries, PrintDoc, Entries;
    var d := Parsed(data);
    var next := Added(d, key, AddressText(n), name);
    ParsedSound(data);
    ClipAddress(n);
    AddedPrefix(d, key, AddressText(n), name);
    PrintParse(next);
    EntriesAlike(next.sections, Parsed(PrintDoc(next)).sections);
    var peer := NewPeer(key, AddressText(n), name);
    EntriesAppend(Spaced(d.sections), [peer]);
    EntriesOne(peer);
    SpacedEntries(d.sections);
    NewPeerEntries(key, n, name);
  }

  /** Adding a peer with an allocated address makes exactly this address taken. */
  lemma AddedPool(v6: string -> bool, data: string, key: string, n: uint64, name: string)
    requires Parses(data) && NoBreak(key) && NoBreak(name) && n < SPACE_END
    requires PoolIn(v6, Parsed(data).sections).Some?
    ensures var text := PrintDoc(Added(Parsed(data), key, AddressText(n), name));
      var p := PoolIn(v6, Parsed(data).sections).value;
      PoolIn(v6, Parsed(text).sections) == Some(p.(occupied := p.occupied + [Range(n, n)]))
  {
    hide Parsed, Parses, Added, PrintDoc, AddressText, Entries, Gather, RangeOf;
    AddedEntries(data, key, n, name);
    AddedGather(v6, Entries(Parsed(data).sections), n);
  }

  lemma AddedGather(v6: string -> bool, entries: seq<Entry>, n: uint64)
    requires n < SPACE_END && Gather(v6, Found([], []), entries).Some?
    ensures var found := Gather(v6, Found([], []), entries).value;
      Gather(v6, Found([], []), entries + [Entry(false, AddressText(n))]) ==
        Some(found.(occupied := found.occupied + [Range(n, n)]))
  {
    hide ParsePrefix, AddressText, RangeOf, Clip;
    var e := Entry(false, AddressText(n));
    var found := Gather(v6, Found([], []), entries).value;
    GatherAppend(v6, Found([], []), entries, [e]);
    ClipAddress(n);
    AddressTextRoundTrip(v6, n);
    HostRange(n);
    var next := found.(occupied := found.occupied + [Range(n, n)]);
    assert Step(v6, found, e) == Some(next);
    assert [e][1..] == [];
    GatherNone(v6, next);
  }

  lemma TakenFree(p: Pool, n: uint64, m: uint64)
    ensures Free(p.(occupied := p.occupied + [Range(n, n)]), m) <==> Free(p, m) && m != n
  {
    var own := Range(n, n);
    var taken := p.occupied + [own];
    assert own in taken && own.Contains(n);
    if Covered(p.occupied, m) {
      var r :| r in p.occupied && r.Contains(m);
      assert r in taken;
    }
  }

  /** Keys that can be added one after another: trimmed, on one line, different, and not there yet. */
  predicate FreshKeys(keys: seq<string>, sections: seq<Section>) {
    && (forall i :: 0 <= i < |keys| ==> NoBreak(keys[i]) && Clip(keys[i]) == keys[i] && !Holds(sections, keys[i]))
    && (forall i, j :: 0 <= i < j < |keys| ==> keys[i] != keys[j])
  }

  /** What has been given out: an increasing sequence that leaves no free host of the first pool behind. */
  ghost predicate Swept(start: Pool, now: Pool, issued: seq<uint64>) {
    && (forall i, j :: 0 <= i < j < |issued| ==> issued[i] < issued[j])
    && (forall n :: n in issued ==> Free(start, n))
    && (forall n :: Free(now, n) <==> Free(start, n) && n !in issued)
    && (forall n, m :: n in issued && Free(now, m) ==> n < m)
  }

  lemma SweptStep(start: Pool, now: Pool, issued: seq<uint64>, n: uint64)
    requires Swept(start, now, issued) && LeastFree(now, n)
    ensures Swept(start, now.(occupied := now.occupied + [Range(n, n)]), issued + [n])
  {
    hide Free;
    var next := now.(occupied := now.occupied + [Range(n, n)]);
    forall m ensures Free(next, m) <==> Free(now, m) && m != n {
      TakenFree(now, n, m);
    }
    assert forall i :: 0 <= i < |issued| ==> issued[i] in issued;
  }

  /**
   * One address after another, each allocated and added to the file: they increase, every one is a free host of the
   * first pool, and when the pool runs dry before the keys do, every free host has been given out.
   */
  method IssueAll(v6: string -> bool, data: string, keys: seq<string>) returns (text: string, issued: seq<uint64>)
    requires Parses(data) && PoolIn(v6, Parsed(data).sections).Some? && FreshKeys(keys, Parsed(data).sections)
    ensures Parses(text) && PoolIn(v6, Parsed(text).sections).Some?
    ensures Swept(PoolIn(v6, Parsed(data).sections).value, PoolIn(v6, Parsed(text).sections).value, issued)
    ensures |issued| <= |keys|
    ensures |issued| < |keys| ==> forall n :: Free(PoolIn(v6, Parsed(data).sections).value, n) <==> n in issued
  {
    hide PoolIn, Parsed, PrintDoc, Parses, Holds, Free, Clip, AddressText, NewPeer, Spaced;
    text, issued := data, [];
    ghost var start := PoolIn(v6, Parsed(data).sections).value;
    for i := 0 to |keys|
      invariant Parses(text) && PoolIn(v6, Parsed(text).sections).Some? && |issued| == i
      invariant Swept(start, PoolIn(v6, Parsed(text).sections).value, issued)
      invariant forall k :: i <= k < |keys| ==> !Holds(Parsed(text).sections, keys[k])
    {
      ghost var now := PoolIn(v6, Parsed(text).sections).value;
      var parsed := Document.Parse(text);
      var document := parsed.value;
      PoolInOk(v6, Parsed(text).sections);
      var pool := FindPool(v6, document.sections);
      var found := Sweep(pool.value);
      if found.None? { return; }
      var n := found.value;
      FindPeerHolds(Parsed(text).sections, keys[i]);
      ClipAddress(n);
      var ok := document.AddPeer(keys[i], AddressText(n), "");
      AddedPool(v6, text, keys[i], n, "");
      forall k | i + 1 <= k < |keys|
        ensures !Holds(Parsed(PrintDoc(Added(Parsed(text), keys[i], AddressText(n), ""))).sections, keys[k])
      {
        AddedKeys(text, keys[i], AddressText(n), "", keys[k]);
      }
      AddedPeers(text, keys[i], AddressText(n), "");
      SweptStep(start, now, issued, n);
      text := document.Bytes();
      issued := issued + [n];
    }
  }
}
