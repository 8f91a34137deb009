/** The client configuration: built by the helper, read by the Panel's browser code, and pointed at a relay there. */
module ClientConfig {
  import opened Text
  import opened Order
  import opened Ipv4
  import ConfigLines

  /** White space as the browser trims it and as its regular expressions match it. */
  predicate JsSpace(c: char) {
    var n := c as int;
    || 9 <= n <= 13 || n == 32 || n == 0xA0 || n == 0x1680 || 0x2000 <= n <= 0x200A
    || n == 0x2028 || n == 0x2029 || n == 0x202F || n == 0x205F || n == 0x3000 || n == 0xFEFF
  }

  /** The browser and the helper differ in two characters only: the next line, and the byte order mark. */
  lemma SpacesDiffer(c: char)
    ensures JsSpace(c) <==> (ConfigLines.Space(c) && c as int != 0x85) || c as int == 0xFEFF
  {
  }

  function JsTrim(s: string): string {
    Trim(JsSpace, s)
  }

  predicate JsTrimmed(s: string) {
    Trimmed(JsSpace, s)
  }

  function LowerAscii(c: char): char {
    if 'A' <= c <= 'Z' then (c as int + 32) as char else if c as int == 0x212A then 'k' else c
  }

  function JsLower(s: string): (r: string)
    ensures |r| == |s| && forall i :: 0 <= i < |s| ==> r[i] == LowerAscii(s[i])
  {
    if s == [] then [] else [LowerAscii(s[0])] + JsLower(s[1..])
  }

  // The text the helper writes -----------------------------------------------------------------------

  datatype Line = Head(name: string) | Field(key: string, value: string) | Blank

  function LineText(l: Line): string {
    match l
    case Head(name) => ['['] + name + [']']
    case Field(key, value) => key + [' ', '=', ' '] + value
    case Blank => []
  }

  function Write(lines: seq<Line>): string {
    if lines == [] then [] else LineText(lines[0]) + ['\n'] + Write(lines[1..])
  }

  /** What the helper knows about an Instance that clients need. */
  datatype Server = Server(adapter: string, udpPort: int, publicKey: string, fields: map<string, string>)

  const WIREGUARD := "wireguard"
  const AWG3 := "awg3"

  predicate IsBracket(c: char) {
    c == '[' || c == ']'
  }

  function StripBrackets(s: string): string {
    Trim(IsBracket, s)
  }

  function HostPort(host: string, port: int): string {
    var bare := StripBrackets(if ':' in host && !(host != [] && host[0] == '[') then ['['] + host + [']'] else host);
    (if ':' in bare then ['['] + bare + [']'] else bare) + [':'] + Integer(port)
  }

  predicate LabelChar(c: char) {
    IsDigit(c) || 'a' <= c <= 'z' || 'A' <= c <= 'Z' || c == '-'
  }

  predicate IsLabel(s: string) {
    1 <= |s| <= 63 && s[0] != '-' && s[|s| - 1] != '-' && All(LabelChar, s)
  }

  /** An address, with v6 saying which texts are IPv6 addresses, or a host name. */
  predicate ValidHost(v6: string -> bool, host: string) {
    || Octets(StripBrackets(host)).Some?
    || v6(StripBrackets(host))
    || (1 <= |host| <= 253 && forall i :: 0 <= i < |Split(host, '.')| ==> IsLabel(Split(host, '.')[i]))
  }

  predicate KeyChar(c: char) {
    IsDigit(c) || 'a' <= c <= 'z' || 'A' <= c <= 'Z' || c == '+' || c == '/'
  }

  predicate ValidKey(s: string) {
    |s| == 44 && s[43] == '=' && All(KeyChar, s[..43])
  }

  function FieldLines(keys: seq<string>, fields: map<string, string>): seq<Line>
    requires forall k :: k in keys ==> k in fields
  {
    if keys == [] then [] else [Field(keys[0], fields[keys[0]])] + FieldLines(keys[1..], fields)
  }

  function InterfaceFields(server: Server, privateKey: string, address: string): seq<Line> {
    [Field("PrivateKey", privateKey), Field("Address", address), Field("DNS", "1.1.1.1")]
    + if server.adapter == AWG3 || server.adapter == WIREGUARD then [Field("MTU", "1280")] else []
  }

  function AllowedIps(server: Server): string {
    if server.adapter == WIREGUARD then "0.0.0.0/0" else "0.0.0.0/0, ::/0"
  }

  function PeerFields(server: Server, endpoint: string): seq<Line> {
    [Field("PublicKey", server.publicKey), Field("Endpoint", endpoint),
     Field("AllowedIPs", AllowedIps(server)), Field("PersistentKeepalive", "25")]
  }

  function InterfaceLines(server: Server, privateKey: string, address: string): seq<Line> {
    [Head("Interface")] + InterfaceFields(server, privateKey, address)
  }

  function PeerLines(server: Server, endpoint: string): seq<Line> {
    [Blank] + ([Head("Peer")] + PeerFields(server, endpoint))
  }

  function Identity(s: string): string {
    s
  }

  ghost predicate SortedKeys(keys: seq<string>, server: Server) {
    && SortedBy(Identity, keys) && DistinctKeys(Identity, keys)
    && forall k :: k in keys <==> k in server.fields && server.adapter != WIREGUARD
  }

  /** The configuration text, field by field; keys are the client fields in their order. */
  function ClientText(server: Server, keys: seq<string>, privateKey: string, address: string, endpoint: string): string
    requires forall k :: k in keys ==> k in server.fields
  {
    Write(InterfaceLines(server, privateKey, address) + FieldLines(keys, server.fields) + PeerLines(server, endpoint))
  }

  lemma {:induction false} WriteAppend(a: seq<Line>, b: seq<Line>)
    ensures Write(a + b) == Write(a) + Write(b)
  {
    hide LineText;
    if a == [] {
      assert a + b == b;
    } else {
      assert (a + b)[0] == a[0] && (a + b)[1..] == a[1..] + b;
      WriteAppend(a[1..], b);
      Assoc(LineText(a[0]) + ['\n'], Write(a[1..]), Write(b));
    }
  }

  lemma WriteSnoc(a: seq<Line>, l: Line)
    ensures Write(a + [l]) == Write(a) + LineText(l) + ['\n']
  {
    hide LineText;
    WriteAppend(a, [l]);
    assert Write([l]) == LineText(l) + ['\n'] + Write([]);
  }

  lemma {:induction false} FieldLinesSnoc(keys: seq<string>, k: string, fields: map<string, string>)
    requires k in fields && forall x :: x in keys ==> x in fields
    ensures FieldLines(keys + [k], fields) == FieldLines(keys, fields) + [Field(k, fields[k])]
  {
    if keys == [] {
      assert keys + [k] == [k];
    } else {
      assert (keys + [k])[0] == keys[0] && (keys + [k])[1..] == keys[1..] + [k];
      FieldLinesSnoc(keys[1..], k, fields);
    }
  }

  /** The keys of a map, in some order and then sorted. */
  method SortedFieldKeys(server: Server) returns (keys: seq<string>)
    ensures SortedKeys(keys, server)
  {
    var rest := server.fields.Keys;
    var found: seq<string> := [];
    while rest != {}
      invariant rest <= server.fields.Keys
      invariant forall k :: k in found <==> k in server.fields && k !in rest && server.adapter != WIREGUARD
      invariant DistinctKeys(Identity, found)
      decreases |rest|
    {
      var k :| k in rest;
      rest := rest - {k};
      if server.adapter == WIREGUARD { continue; }
      DistinctAppend(Identity, found, k);
      found := found + [k];
    }
    keys := SortBy(Identity, found);
    SortSorted(Identity, found);
    SortDistinct(Identity, found);
    forall k ensures k in keys <==> k in found { SortMember(Identity, found, k); }
  }

  method BuildClientConfig(v6: string -> bool, server: Server, privateKey: string, address: string, host: string)
    returns (text: Option<string>, ghost keys: seq<string>)
    ensures text.Some? <==> ValidHost(v6, host) && server.udpPort >= 1 && ValidKey(server.publicKey)
    ensures text.Some? ==>
      SortedKeys(keys, server)
        && text.value == ClientText(server, keys, privateKey, address, HostPort(host, server.udpPort))
  {
    hide ValidHost, HostPort, LineText, SortedBy;
    keys := [];
    if !ValidHost(v6, host) || server.udpPort < 1 || !ValidKey(server.publicKey) { return None, keys; }
    ghost var lines := InterfaceLines(server, privateKey, address);
    var builder := Write(InterfaceLines(server, privateKey, address));
    var sorted := SortedFieldKeys(server);
    keys := sorted;
    assert lines + FieldLines(sorted[..0], server.fields) == lines;
    for i := 0 to |sorted|
      invariant builder == Write(lines + FieldLines(sorted[..i], server.fields))
    {
      var k := sorted[i];
      assert k in sorted;
      assert sorted[..i + 1] == sorted[..i] + [k];
      FieldLinesSnoc(sorted[..i], k, server.fields);
      WriteSnoc(lines + FieldLines(sorted[..i], server.fields), Field(k, server.fields[k]));
      assert lines + FieldLines(sorted[..i + 1], server.fields) ==
        lines + FieldLines(sorted[..i], server.fields) + [Field(k, server.fields[k])];
      builder := builder + LineText(Field(k, server.fields[k])) + ['\n'];
    }
    assert sorted[..|sorted|] == sorted;
    WriteAppend(lines + FieldLines(sorted, server.fields), PeerLines(server, HostPort(host, server.udpPort)));
    builder := builder + Write(PeerLines(server, HostPort(host, server.udpPort)));
    return Some(builder), keys;
  }

  // Reading it back --------------------------------------------------------------------------------

  type Fields = map<string, string>

  /** The sections read so far, and the one being read. */
  datatype Native = Native(sections: map<string, Fields>, current: Option<string>)

  predicate IsSection(line: string) {
    |line| >= 3 && line[0] == '[' && line[|line| - 1] == ']' && ']' !in line[1..|line| - 1]
  }

  /** A section line is a name without a closing bracket, in brackets. */
  lemma SectionMeans(line: string)
    ensures IsSection(line) <==> exists name :: name != [] && ']' !in name && line == "[" + name + "]"
  {
    if IsSection(line) {
      assert line == "[" + line[1..|line| - 1] + "]";
    }
    if name :| name != [] && ']' !in name && line == "[" + name + "]" {
      assert line[1..|line| - 1] == name;
    }
  }

  function IndexOf(s: string, c: char): (i: nat)
    ensures i <= |s| && c !in s[..i] && (i < |s| ==> s[i] == c)
  {
    if s == [] || s[0] == c then 0
    else
      var i := IndexOf(s[1..], c);
      assert s[..i + 1] == [s[0]] + s[1..][..i];
      i + 1
  }

  function NativeStep(n: Native, raw: string): Native {
    var line := JsTrim(raw);
    if line == [] || line[0] == '#' || line[0] == ';' then n
    else if IsSection(line) then
      var name := JsLower(line[1..|line| - 1]);
      Native(n.sections[name := map[]], Some(name))
    else
      var i := IndexOf(line, '=');
      if n.current.None? || i == |line| || i < 1 || n.current.value !in n.sections then n
      else
        var fields := n.sections[n.current.value][JsTrim(line[..i]) := JsTrim(line[i + 1..])];
        n.(sections := n.sections[n.current.value := fields])
  }

  function NativeFrom(n: Native, lines: seq<string>): Native
    decreases |lines|
  {
    if lines == [] then n else NativeFrom(NativeStep(n, lines[0]), lines[1..])
  }

  const NOTHING := Native(map[], None)

  /** A carriage return before a line feed is white space at the end of its line, which trimming removes. */
  method ParseNativeConfig(text: string) returns (interfaceFields: Option<Fields>, peerFields: Option<Fields>)
    ensures var n := NativeFrom(NOTHING, Split(text, '\n'));
      && interfaceFields == (if "interface" in n.sections then Some(n.sections["interface"]) else None)
      && peerFields == (if "peer" in n.sections then Some(n.sections["peer"]) else None)
  {
    hide JsTrim, IsSection;
    var lines := Split(text, '\n');
    var n := NOTHING;
    for k := 0 to |lines|
      invariant NativeFrom(NOTHING, lines) == NativeFrom(n, lines[k..])
    {
      assert lines[k..][0] == lines[k] && lines[k..][1..] == lines[k + 1..];
      var line := JsTrim(lines[k]);
      if line == [] || line[0] == '#' || line[0] == ';' { continue; }
      if IsSection(line) {
        var name := JsLower(SectionText(line));
        n := Native(n.sections[name := map[]], Some(name));
        continue;
      }
      var separator := IndexOf(line, '=');
      if n.current.None? || separator == |line| || separator < 1 || n.current.value !in n.sections { continue; }
      var fields := n.sections[n.current.value];
      n := n.(sections := n.sections[n.current.value := fields[JsTrim(line[..separator]) := JsTrim(line[separator +
        1..])]]);
    }
    interfaceFields := if "interface" in n.sections then Some(n.sections["interface"]) else None;
    peerFields := if "peer" in n.sections then Some(n.sections["peer"]) else None;
  }

  function SectionText(line: string): string
    requires IsSection(line)
  {
    line[1..|line| - 1]
  }

  // What was written is what is read -----------------------------------------------------------------

  predicate CleanName(name: string) {
    name != [] && ']' !in name && '\n' !in name
  }

  predicate CleanKey(key: string) {
    && key != [] && JsTrimmed(key) && '=' !in key && '\n' !in key && '\r' !in key
    && key[0] != '[' && key[0] != '#' && key[0] != ';'
  }

  predicate CleanValue(value: string) {
    '\n' !in value && '\r' !in value
  }

  predicate CleanLine(l: Line) {
    match l
    case Head(name) => CleanName(name)
    case Field(key, value) => CleanKey(key) && CleanValue(value)
    case Blank => true
  }

  predicate CleanLines(lines: seq<Line>) {
    forall l :: l in lines ==> CleanLine(l)
  }

  /** What a line means, whatever its spelling. */
  function MeanStep(n: Native, l: Line): Native {
    match l
    case Head(name) => Native(n.sections[JsLower(name) := map[]], Some(JsLower(name)))
    case Field(key, value) =>
      if n.current.None? || n.current.value !in n.sections then n
      else n.(sections := n.sections[n.current.value := n.sections[n.current.value][key := JsTrim(value)]])
    case Blank => n
  }

  function Meaning(n: Native, lines: seq<Line>): Native
    decreases |lines|
  {
    if lines == [] then n else Meaning(MeanStep(n, lines[0]), lines[1..])
  }

  lemma JsTrimmedSame(s: string)
    requires JsTrimmed(s)
    ensures JsTrim(s) == s
  {
  }

  lemma JsTrimOfTrimRight(s: string)
    ensures JsTrim(TrimRight(JsSpace, s)) == JsTrim(s)
  {
    hide TrimRight, JsSpace;
    var kept := TrimRight(JsSpace, s);
    TrimRightIs(JsSpace, s);
    assert s == kept + s[|kept|..];
    TrimPaddedRight(JsSpace, kept, s[|kept|..]);
  }

  /** A written field, trimmed: its key, the separator, and what trimming leaves of the value. */
  lemma FieldTrimmed(key: string, value: string)
    requires key != [] && JsTrimmed(key)
    ensures JsTrim(LineText(Field(key, value))) == key + [' ', '='] + TrimRight(JsSpace, [' '] + value)
    ensures JsTrim(TrimRight(JsSpace, [' '] + value)) == JsTrim(value)
  {
    hide JsSpace, TrimLeft, TrimRight, JsTrim;
    var line, tag := LineText(Field(key, value)), key + [' ', '='];
    assert line == tag + ([' '] + value);
    assert line[0] == key[0];
    TagKept(key);
    TrimRightAppend(JsSpace, tag, [' '] + value);
    assert tag + [] == tag;
    HeadNotSpace(line);
    JsTrimOfTrimRight([' '] + value);
    JsTrimSpace(value);
  }

  lemma TagKept(key: string)
    ensures TrimRight(JsSpace, key + [' ', '=']) == key + [' ', '=']
  {
    hide JsSpace;
    EqualsNotSpace();
    var tag := key + [' ', '='];
    assert tag[|tag| - 1] == '=';
  }

  lemma JsTrimSpace(value: string)
    ensures JsTrim([' '] + value) == JsTrim(value)
  {
    hide JsSpace, TrimLeft;
    EqualsNotSpace();
    TrimLeftPadded(JsSpace, [' '], value);
  }

  lemma HeadNotSpace(s: string)
    requires s != [] && !JsSpace(s[0])
    ensures JsTrim(s) == TrimRight(JsSpace, s)
  {
  }

  lemma EqualsNotSpace()
    ensures !JsSpace('=') && JsSpace(' ') && !JsSpace('[') && !JsSpace(']')
  {
  }

  lemma {:induction false} IndexOfAt(a: string, c: char, b: string)
    requires c !in a
    ensures IndexOf(a + [c] + b, c) == |a|
  {
    var s := a + [c] + b;
    if a != [] {
      assert s[0] == a[0] && s[1..] == a[1..] + [c] + b;
      IndexOfAt(a[1..], c, b);
    }
  }

  lemma FieldStep(n: Native, key: string, value: string)
    requires CleanKey(key)
    ensures NativeStep(n, LineText(Field(key, value))) == MeanStep(n, Field(key, value))
  {
    hide JsTrim, JsSpace, LineText;
    var raw := LineText(Field(key, value));
    var line, rest := JsTrim(raw), TrimRight(JsSpace, [' '] + value);
    FieldTrimmed(key, value);
    var k := key + [' '];
    assert line == k + ['='] + rest;
    IndexOfAt(k, '=', rest);
    assert line[0] == key[0];
    assert line[..|k|] == k && line[|k| + 1..] == rest;
    EqualsNotSpace();
    TrimPaddedRight(JsSpace, key, [' ']);
    assert JsTrim(k) == JsTrim(key) by { JsTrimIs(k); JsTrimIs(key); }
    JsTrimmedSame(key);
  }

  lemma JsTrimIs(s: string)
    ensures JsTrim(s) == Trim(JsSpace, s)
  {
  }

  lemma HeadStep(n: Native, name: string)
    requires CleanName(name)
    ensures NativeStep(n, LineText(Head(name))) == MeanStep(n, Head(name))
  {
    hide JsTrim, JsSpace;
    var line := LineText(Head(name));
    EqualsNotSpace();
    assert line[0] == '[' && line[|line| - 1] == ']';
    JsTrimmedSame(line);
    assert line[1..|line| - 1] == name;
  }

  lemma BlankLineStep(n: Native)
    ensures NativeStep(n, []) == n
  {
    JsTrimmedSame([]);
  }

  /** Reading a written text gives exactly what its lines mean. */
  lemma {:induction false} ReadsWhatWasWritten(n: Native, lines: seq<Line>)
    requires CleanLines(lines)
    ensures NativeFrom(n, Split(Write(lines), '\n')) == Meaning(n, lines)
    decreases |lines|
  {
    hide NativeStep, MeanStep, LineText, CleanKey, CleanName, CleanValue;
    if lines == [] {
      var one: seq<string> := [[]];
      assert Split([], '\n') == one;
      BlankLineStep(n);
      assert one[0] == [] && one[1..] == [];
    } else {
      var l, rest := lines[0], lines[1..];
      assert l in lines;
      LineHasNoLf(l);
      SplitAt(LineText(l), Write(rest), '\n');
      var all := Split(Write(lines), '\n');
      assert all == [LineText(l)] + Split(Write(rest), '\n');
      assert all[1..] == Split(Write(rest), '\n');
      LineStep(n, l);
      ReadsWhatWasWritten(MeanStep(n, l), rest);
    }
  }

  lemma LineHasNoLf(l: Line)
    requires CleanLine(l)
    ensures '\n' !in LineText(l)
  {
  }

  lemma LineStep(n: Native, l: Line)
    requires CleanLine(l)
    ensures NativeStep(n, LineText(l)) == MeanStep(n, l)
  {
    hide NativeStep, CleanKey, CleanName;
    match l {
      case Head(name) => HeadStep(n, name);
      case Field(key, value) => FieldStep(n, key, value);
      case Blank => BlankLineStep(n);
    }
  }

  // The configuration the helper builds -----------------------------------------------------------

  /** The fields of one section after some of its lines. */
  function AddFields(f: Fields, lines: seq<Line>): Fields
    decreases |lines|
  {
    if lines == [] then f
    else AddFields(if lines[0].Field? then f[lines[0].key := JsTrim(lines[0].value)] else f, lines[1..])
  }

  predicate OnlyFields(lines: seq<Line>) {
    forall l :: l in lines ==> !l.Head?
  }

  lemma {:induction false} SectionMeaning(sections: map<string, Fields>, name: string, lines: seq<Line>,
    rest: seq<Line>)
    requires name in sections && OnlyFields(lines)
    ensures Meaning(Native(sections, Some(name)), lines + rest) ==
      Meaning(Native(sections[name := AddFields(sections[name], lines)], Some(name)), rest)
    decreases |lines|
  {
    hide JsTrim;
    var n := Native(sections, Some(name));
    if lines == [] {
      assert lines + rest == rest;
      assert sections[name := sections[name]] == sections;
    } else {
      var l := lines[0];
      assert l in lines;
      assert (lines + rest)[0] == l && (lines + rest)[1..] == lines[1..] + rest;
      var next := MeanStep(n, l);
      SectionMeaning(next.sections, name, lines[1..], rest);
      var done := AddFields(sections[name], lines);
      assert next.sections[name := done] == sections[name := done];
      assert next.sections[name] == if l.Field? then sections[name][l.key := JsTrim(l.value)] else sections[name];
    }
  }

  lemma {:induction false} AddFieldLines(f: Fields, keys: seq<string>, fields: map<string, string>)
    requires DistinctKeys(Identity, keys) && forall k :: k in keys ==> k in fields
    ensures var r := AddFields(f, FieldLines(keys, fields));
      forall k ::
        if k in keys then k in r && r[k] == JsTrim(fields[k]) else (k in r <==> k in f) && (k in f ==> r[k] == f[k])
    ensures OnlyFields(FieldLines(keys, fields))
    decreases |keys|
  {
    hide JsTrim;
    if keys != [] {
      var k0, rest := keys[0], keys[1..];
      var next := f[k0 := JsTrim(fields[k0])];
      assert FieldLines(keys, fields)[1..] == FieldLines(rest, fields);
      forall i, j | 0 <= i < j < |rest| ensures Identity(rest[i]) != Identity(rest[j]) {
        assert Identity(keys[i + 1]) != Identity(keys[j + 1]);
      }
      AddFieldLines(next, rest, fields);
      assert k0 !in rest by {
        forall j | 0 <= j < |rest| ensures rest[j] != k0 {
          assert Identity(keys[0]) != Identity(keys[j + 1]);
        }
      }
      assert forall k :: k in keys <==> k == k0 || k in rest;
    }
  }

  const RESERVED: set<string> := {"PrivateKey", "Address", "DNS", "MTU"}

  /** Client fields as discovery stores them: one line each, under names the helper does not write itself. */
  predicate CleanServer(server: Server) {
    forall k :: k in server.fields ==> CleanKey(k) && CleanValue(server.fields[k]) && k !in RESERVED
  }

  /** The interface section of a client: the helper's own fields and every client field. */
  predicate InterfaceAsWritten(f: Fields, server: Server, privateKey: string, address: string) {
    && f.Keys == {"PrivateKey", "Address", "DNS"}
        + (if server.adapter == "awg3" || server.adapter == "wireguard" then {"MTU"} else {})
        + (if server.adapter == "wireguard" then {} else server.fields.Keys)
    && f["PrivateKey"] == JsTrim(privateKey) && f["Address"] == JsTrim(address) && f["DNS"] == "1.1.1.1"
    && ("MTU" in f ==> f["MTU"] == "1280")
    && forall k :: k in server.fields && server.adapter != "wireguard" ==> f[k] == JsTrim(server.fields[k])
  }

  function PeerAsWritten(server: Server, endpoint: string): Fields {
    map["PublicKey" := JsTrim(server.publicKey), "Endpoint" := JsTrim(endpoint),
        "AllowedIPs" := if server.adapter == "wireguard" then "0.0.0.0/0" else "0.0.0.0/0, ::/0",
        "PersistentKeepalive" := "25"]
  }

  lemma AddField(f: Fields, key: string, value: string, rest: seq<Line>)
    ensures AddFields(f, [Field(key, value)] + rest) == AddFields(f[key := JsTrim(value)], rest)
  {
    hide JsTrim;
    assert ([Field(key, value)] + rest)[1..] == rest;
  }

  lemma LiteralValues(server: Server)
    ensures JsTrim("25") == "25" && JsTrim("1.1.1.1") == "1.1.1.1" && JsTrim("1280") == "1280"
    ensures JsTrim(AllowedIps(server)) == AllowedIps(server) ==
      if server.adapter == "wireguard" then "0.0.0.0/0" else "0.0.0.0/0, ::/0"
  {
    hide JsTrim;
    JsTrimmedSame("25");
    JsTrimmedSame("1.1.1.1");
    JsTrimmedSame("1280");
    JsTrimmedSame(AllowedIps(server));
  }

  lemma PeerMeaning(server: Server, endpoint: string)
    ensures AddFields(map[], PeerFields(server, endpoint)) == PeerAsWritten(server, endpoint)
    ensures OnlyFields(PeerFields(server, endpoint))
  {
    hide JsTrim, AddFields, AllowedIps;
    LiteralValues(server);
    var a, b := Field("PublicKey", server.publicKey), Field("Endpoint", endpoint);
    var c, d := Field("AllowedIPs", AllowedIps(server)), Field("PersistentKeepalive", "25");
    assert PeerFields(server, endpoint) == [a] + ([b] + ([c] + ([d] + [])));
    AddField(map[], a.key, a.value, [b] + ([c] + ([d] + [])));
    AddField(map[a.key := JsTrim(a.value)], b.key, b.value, [c] + ([d] + []));
    AddField(map[a.key := JsTrim(a.value), b.key := JsTrim(b.value)], c.key, c.value, [d] + []);
    AddField(map[a.key := JsTrim(a.value), b.key := JsTrim(b.value), c.key := JsTrim(c.value)], d.key, d.value, []);
    AddNothing(map[a.key := JsTrim(a.value), b.key := JsTrim(b.value), c.key := JsTrim(c.value),
      d.key := JsTrim(d.value)]);
  }

  lemma AddNothing(f: Fields)
    ensures AddFields(f, []) == f
  {
  }

  function OwnFields(server: Server, privateKey: string, address: string): Fields {
    var f := map["PrivateKey" := JsTrim(privateKey), "Address" := JsTrim(address), "DNS" := "1.1.1.1"];
    if server.adapter == AWG3 || server.adapter == WIREGUARD then f["MTU" := "1280"] else f
  }

  lemma OwnMeaning(server: Server, privateKey: string, address: string)
    ensures AddFields(map[], InterfaceFields(server, privateKey, address)) == OwnFields(server, privateKey, address)
    ensures OnlyFields(InterfaceFields(server, privateKey, address))
  {
    hide JsTrim, AddFields;
    LiteralValues(server);
    var a, b, c := Field("PrivateKey", privateKey), Field("Address", address), Field("DNS", "1.1.1.1");
    var mtu: seq<Line> := if server.adapter == AWG3 || server.adapter == WIREGUARD then [Field("MTU", "1280")] else [];
    assert InterfaceFields(server, privateKey, address) == [a] + ([b] + ([c] + mtu));
    AddField(map[], a.key, a.value, [b] + ([c] + mtu));
    AddField(map[a.key := JsTrim(a.value)], b.key, b.value, [c] + mtu);
    var f := map[a.key := JsTrim(a.value), b.key := JsTrim(b.value), c.key := JsTrim(c.value)];
    AddField(map[a.key := JsTrim(a.value), b.key := JsTrim(b.value)], c.key, c.value, mtu);
    if mtu != [] {
      AddField(f, "MTU", "1280", []);
      assert mtu == [Field("MTU", "1280")] + [];
      AddNothing(f["MTU" := "1280"]);
    } else {
      AddNothing(f);
    }
  }

  lemma {:induction false} AddFieldsAppend(f: Fields, a: seq<Line>, b: seq<Line>)
    ensures AddFields(f, a + b) == AddFields(AddFields(f, a), b)
    decreases |a|
  {
    hide JsTrim;
    if a == [] {
      assert a + b == b;
    } else {
      assert (a + b)[0] == a[0] && (a + b)[1..] == a[1..] + b;
      AddFieldsAppend(if a[0].Field? then f[a[0].key := JsTrim(a[0].value)] else f, a[1..], b);
    }
  }

  lemma SectionNames()
    ensures JsLower("Interface") == "interface" && JsLower("Peer") == "peer"
  {
    hide JsLower;
  }

  lemma TwoSections(one: string, two: string, a: seq<Line>, b: seq<Line>)
    requires OnlyFields(a) && OnlyFields(b) && JsLower(one) != JsLower(two)
    ensures Meaning(NOTHING, [Head(one)] + (a + ([Blank] + ([Head(two)] + b)))).sections ==
      map[JsLower(one) := AddFields(map[], a), JsLower(two) := AddFields(map[], b)]
  {
    hide JsLower, AddFields, Meaning, OnlyFields;
    var none: Fields := map[];
    var tail := [Blank] + ([Head(two)] + b);
    var begun := NOTHING.sections[JsLower(one) := none];
    MeaningHead(NOTHING, one, a + tail);
    SectionMeaning(begun, JsLower(one), a, tail);
    var read := begun[JsLower(one) := AddFields(none, a)];
    MeaningBlank(Native(read, Some(JsLower(one))), [Head(two)] + b);
    MeaningHead(Native(read, Some(JsLower(one))), two, b);
    assert b + [] == b;
    SectionMeaning(read[JsLower(two) := none], JsLower(two), b, []);
    var last := read[JsLower(two) := none][JsLower(two) := AddFields(none, b)];
    MeaningNothing(Native(last, Some(JsLower(two))));
    assert last == map[JsLower(one) := AddFields(none, a), JsLower(two) := AddFields(none, b)];
  }

  lemma MeaningHead(n: Native, name: string, rest: seq<Line>)
    ensures Meaning(n, [Head(name)] + rest) ==
      Meaning(Native(n.sections[JsLower(name) := map[]], Some(JsLower(name))), rest)
  {
    hide JsLower;
    var all := [Head(name)] + rest;
    assert all[0] == Head(name) && all[1..] == rest;
  }

  lemma MeaningBlank(n: Native, rest: seq<Line>)
    ensures Meaning(n, [Blank] + rest) == Meaning(n, rest)
  {
    var all := [Blank] + rest;
    assert all[0] == Blank && all[1..] == rest;
  }

  lemma MeaningNothing(n: Native)
    ensures Meaning(n, []) == n
  {
  }

  /** The two sections that reading a built configuration gives. */
  ghost function BuiltInterface(server: Server, keys: seq<string>, privateKey: string, address: string): Fields
    requires forall k :: k in keys ==> k in server.fields
  {
    AddFields(OwnFields(server, privateKey, address), FieldLines(keys, server.fields))
  }

  lemma BuiltMeaning(server: Server, keys: seq<string>, privateKey: string, address: string, endpoint: string)
    requires SortedKeys(keys, server)
    ensures var n := Meaning(NOTHING, InterfaceLines(server, privateKey, address) + FieldLines(keys, server.fields) +
      PeerLines(server, endpoint));
      n.sections ==
        map["interface" := BuiltInterface(server, keys, privateKey, address), "peer" := PeerAsWritten(server, endpoint)]
  {
    hide JsLower, AddFields, InterfaceFields, PeerFields, OwnFields, PeerAsWritten, SortedBy, Meaning;
    SectionNames();
    var own, more := InterfaceFields(server, privateKey, address), FieldLines(keys, server.fields);
    OwnMeaning(server, privateKey, address);
    PeerMeaning(server, endpoint);
    AddFieldLines(OwnFields(server, privateKey, address), keys, server.fields);
    AddFieldsAppend(map[], own, more);
    assert InterfaceLines(server, privateKey, address) + more + PeerLines(server, endpoint)
      == [Head("Interface")] + ((own + more) + ([Blank] + ([Head("Peer")] + PeerFields(server, endpoint))));
    TwoSections("Interface", "Peer", own + more, PeerFields(server, endpoint));
  }

  predicate IsLetter(c: char) {
    'A' <= c <= 'Z' || 'a' <= c <= 'z'
  }

  lemma LettersClean(s: string)
    requires s != [] && forall i :: 0 <= i < |s| ==> IsLetter(s[i])
    ensures CleanKey(s) && CleanName(s)
  {
  }

  lemma OwnNames()
    ensures CleanName("Interface") && CleanKey("PrivateKey") && CleanKey("Address") && CleanKey("DNS")
      && CleanKey("MTU")
  {
    hide CleanName, CleanKey;
    LettersClean("Interface");
    LettersClean("PrivateKey");
    LettersClean("Address");
    LettersClean("DNS");
    LettersClean("MTU");
  }

  lemma PeerNames()
    ensures CleanName("Peer") && CleanKey("PublicKey") && CleanKey("Endpoint") && CleanKey("AllowedIPs")
      && CleanKey("PersistentKeepalive")
  {
    hide CleanName, CleanKey;
    LettersClean("Peer");
    LettersClean("PublicKey");
    LettersClean("Endpoint");
    LettersClean("AllowedIPs");
    LettersClean("PersistentKeepalive");
  }

  lemma LiteralsClean(server: Server)
    ensures CleanValue("1.1.1.1") && CleanValue("1280") && CleanValue("25") && CleanValue(AllowedIps(server))
  {
  }

  lemma OwnClean(server: Server, privateKey: string, address: string, endpoint: string)
    requires CleanValue(privateKey) && CleanValue(address) && CleanValue(endpoint) && CleanValue(server.publicKey)
    ensures CleanLines(InterfaceLines(server, privateKey, address)) && CleanLines(PeerLines(server, endpoint))
  {
    hide CleanName, CleanKey, CleanValue, AllowedIps;
    OwnNames();
    PeerNames();
    LiteralsClean(server);
  }

  lemma {:induction false} FieldLinesClean(keys: seq<string>, fields: map<string, string>)
    requires forall k :: k in keys ==> k in fields && CleanKey(k) && CleanValue(fields[k])
    ensures CleanLines(FieldLines(keys, fields))
  {
    hide CleanKey, CleanValue;
    if keys != [] {
      assert keys[0] in keys;
      FieldLinesClean(keys[1..], fields);
    }
  }

  /** Reading a built configuration gives back every field that was written, and nothing else. */
  lemma BuiltRoundTrip(server: Server, keys: seq<string>, privateKey: string, address: string, endpoint: string)
    requires SortedKeys(keys, server) && CleanServer(server)
    requires CleanValue(privateKey) && CleanValue(address) && CleanValue(endpoint) && CleanValue(server.publicKey)
    ensures var n := NativeFrom(NOTHING, Split(ClientText(server, keys, privateKey, address, endpoint), '\n'));
      && "interface" in n.sections && InterfaceAsWritten(n.sections["interface"], server, privateKey, address)
      && "peer" in n.sections && n.sections["peer"] == PeerAsWritten(server, endpoint)
  {
    hide CleanKey, CleanValue, AddFields, JsTrim, SortedBy, NativeFrom, Meaning, Write, InterfaceFields, PeerFields,
      PeerAsWritten;
    var lines := InterfaceLines(server, privateKey, address) + FieldLines(keys, server.fields) +
      PeerLines(server, endpoint);
    OwnClean(server, privateKey, address, endpoint);
    FieldLinesClean(keys, server.fields);
    assert CleanLines(lines);
    ReadsWhatWasWritten(NOTHING, lines);
    BuiltMeaning(server, keys, privateKey, address, endpoint);
    AddFieldLines(OwnFields(server, privateKey, address), keys, server.fields);
    InterfaceNotPeer();
  }

  lemma InterfaceNotPeer()
    ensures "interface" != "peer"
  {
    assert |"interface"| != |"peer"|;
  }

  // Endpoints --------------------------------------------------------------------------------------

  /** Line ends that a regular expression's dot does not match, besides CR and LF. */
  predicate IsLineSeparator(c: char) {
    c as int == 0x2028 || c as int == 0x2029
  }

  predicate DotMatches(c: char) {
    c != '\n' && c != '\r' && !IsLineSeparator(c)
  }

  predicate Digits(s: string) {
    s != [] && All(IsDigit, s)
  }

  function LastIndexOf(s: string, c: char): (i: nat)
    ensures i <= |s|
  {
    if s == [] then 0
    else if s[|s| - 1] == c then |s| - 1
    else
      var i := LastIndexOf(s[..|s| - 1], c);
      if i == |s| - 1 then |s| else i
  }

  lemma {:induction false} LastIndexOfIs(s: string, c: char)
    ensures LastIndexOf(s, c) < |s| ==> s[LastIndexOf(s, c)] == c
  {
    if s != [] && s[|s| - 1] != c {
      LastIndexOfIs(s[..|s| - 1], c);
    }
  }

  function PortOf(s: string): Option<int>
    requires Digits(s)
  {
    var port := DecimalValue(s);
    if 1 <= port <= 65535 then Some(port) else None
  }

  /** An address in brackets, or else everything up to the last colon; then a port. */
  function EndpointParts(value: string): Option<(string, int)> {
    var close, colon := IndexOf(value, ']'), LastIndexOf(value, ':');
    if value != [] && value[0] == '[' && 2 <= close < |value| - 1 && value[close + 1] == ':'
      && Digits(value[close + 2..]) then
      match PortOf(value[close + 2..])
      case None => None
      case Some(port) => Some((value[1..close], port))
    else if 1 <= colon < |value| && All(DotMatches, value[..colon]) && Digits(value[colon + 1..]) then
      match PortOf(value[colon + 1..])
      case None => None
      case Some(port) => Some((value[..colon], port))
    else None
  }

  /** Only a host, a colon and a port from 1 to 65535 are taken apart, the host in brackets or not. */
  lemma EndpointPartsMean(value: string)
    requires EndpointParts(value).Some?
    ensures var (host, port) := EndpointParts(value).value;
      && host != [] && 1 <= port <= 65535
      && (exists digits ::
        Digits(digits) && DecimalValue(digits) == port
          && (value == host + ":" + digits || value == "[" + host + "]:" + digits))
  {
    hide DecimalValue, IndexOf, LastIndexOf;
    LastIndexOfIs(value, ':');
    var close, colon := IndexOf(value, ']'), LastIndexOf(value, ':');
    if value[0] == '[' && 2 <= close < |value| - 1 && value[close + 1] == ':' && Digits(value[close + 2..]) {
      assert value == "[" + value[1..close] + "]:" + value[close + 2..];
    } else {
      assert value == value[..colon] + ":" + value[colon + 1..];
    }
  }

  /** Characters of addresses and host names. */
  predicate HostChar(c: char) {
    LabelChar(c) || c == '.' || c == ':'
  }

  /** What is taken of a text that counts as an IPv6 address: hexadecimal digits, colons and dots. */
  ghost predicate V6Texts(v6: string -> bool) {
    forall s :: v6(s) ==> s != [] && All(HostChar, s)
  }

  lemma {:induction false} LastIndexAt(a: string, c: char, b: string)
    requires c !in b
    ensures LastIndexOf(a + [c] + b, c) == |a|
  {
    var s := a + [c] + b;
    if b == [] {
      assert s[|s| - 1] == c;
    } else {
      assert s[|s| - 1] == b[|b| - 1];
      assert s[..|s| - 1] == a + [c] + b[..|b| - 1];
      LastIndexAt(a, c, b[..|b| - 1]);
    }
  }

  lemma {:induction false} PartsChars(s: string, p: char -> bool)
    requires forall part :: part in Split(s, '.') ==> All(p, part)
    ensures forall i :: 0 <= i < |s| ==> p(s[i]) || s[i] == '.'
  {
    if s != [] {
      var parts, rest := Split(s, '.'), Split(s[1..], '.');
      if s[0] == '.' {
        assert parts[1..] == rest;
        forall part | part in rest ensures All(p, part) {
          assert part in parts;
        }
      } else {
        assert parts[0] == [s[0]] + rest[0] && parts[1..] == rest[1..];
        assert parts[0] in parts && p(parts[0][0]);
        forall part | part in rest ensures All(p, part) {
          if part == rest[0] {
            assert forall i :: 0 <= i < |part| ==> part[i] == parts[0][i + 1];
          } else {
            assert part in rest[1..];
            assert part in parts;
          }
        }
      }
      PartsChars(s[1..], p);
    }
  }

  /** A valid host, without brackets, is a non-empty run of host characters. */
  lemma BareHost(v6: string -> bool, host: string)
    requires ValidHost(v6, host) && V6Texts(v6)
    ensures StripBrackets(host) != [] && All(HostChar, StripBrackets(host))
  {
    hide StripBrackets, Octets, Split, HostChar, IsLabel;
    var bare := StripBrackets(host);
    if Octets(bare).Some? {
      OctetChars(bare);
    } else if !v6(bare) {
      NameChars(host);
    }
  }

  lemma NameChars(host: string)
    requires host != [] && forall i :: 0 <= i < |Split(host, '.')| ==> IsLabel(Split(host, '.')[i])
    ensures StripBrackets(host) == host && All(HostChar, host)
  {
    hide Split;
    var parts := Split(host, '.');
    forall part | part in parts ensures All(LabelChar, part) {
      var i :| 0 <= i < |parts| && parts[i] == part;
      assert IsLabel(parts[i]);
    }
    PartsChars(host, LabelChar);
    assert !IsBracket(host[0]) && !IsBracket(host[|host| - 1]);
  }

  lemma OctetChars(s: string)
    requires Octets(s).Some?
    ensures s != [] && All(HostChar, s)
  {
    var parts := Split(s, '.');
    assert |Split("", '.')| == 1;
    forall part | part in parts ensures All(IsDigit, part) {
      var i :| 0 <= i < |parts| && parts[i] == part;
      assert IsOctet(parts[i]);
    }
    PartsChars(s, IsDigit);
  }

  lemma StripTwice(host: string)
    ensures StripBrackets(['['] + host + [']']) == StripBrackets(host)
  {
    assert ['['] + host + [']'] == ['['] + (host + [']']);
    TrimLeftPadded(IsBracket, ['['], host + [']']);
    TrimPaddedRight(IsBracket, host, [']']);
  }

  lemma BracketedParts(bare: string, digits: string)
    requires bare != [] && ']' !in bare && Digits(digits) && PortOf(digits).Some?
    ensures EndpointParts(['['] + bare + [']'] + [':'] + digits) == Some((bare, PortOf(digits).value))
  {
    hide IndexOf, LastIndexOf, PortOf;
    var value := ['['] + bare + [']'] + [':'] + digits;
    assert value == (['['] + bare) + [']'] + ([':'] + digits);
    IndexOfAt(['['] + bare, ']', [':'] + digits);
    assert value[1..|bare| + 1] == bare && value[|bare| + 3..] == digits;
  }

  lemma PlainParts(bare: string, digits: string)
    requires bare != [] && bare[0] != '[' && All(DotMatches, bare) && Digits(digits) && PortOf(digits).Some?
    ensures EndpointParts(bare + [':'] + digits) == Some((bare, PortOf(digits).value))
  {
    hide IndexOf, LastIndexOf, PortOf, DotMatches;
    var value := bare + [':'] + digits;
    assert value[0] == bare[0];
    LastIndexAt(bare, ':', digits);
    assert value[..|bare|] == bare && value[|bare| + 1..] == digits;
  }

  /** Reading a written endpoint gives the host without brackets, and the port. */
  lemma EndpointRoundTrip(v6: string -> bool, host: string, port: int)
    requires ValidHost(v6, host) && V6Texts(v6) && 1 <= port <= 65535
    ensures EndpointParts(HostPort(host, port)) == Some((StripBrackets(host), port))
    ensures CleanValue(HostPort(host, port))
  {
    hide StripBrackets, EndpointParts, Decimal, DecimalValue, ValidHost;
    StripTwice(host);
    BareHost(v6, host);
    var bare, digits := StripBrackets(host), Decimal(port);
    DecimalRoundTrip(port);
    assert forall i :: 0 <= i < |bare| ==> HostChar(bare[i]);
    if ':' in bare {
      BracketedParts(bare, digits);
    } else {
      PlainParts(bare, digits);
    }
  }
}
