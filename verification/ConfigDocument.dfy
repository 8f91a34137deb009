/** The configuration document: sections of lines, parsed without loss and edited in place. */
module ConfigDocument {
  import opened Text
  import opened ConfigLines

  datatype Section = Section(header: string, lines: seq<string>)

  /** The value of a Document. */
  datatype Doc = Doc(preamble: seq<string>, sections: seq<Section>, newline: string, finalEOL: bool)

  datatype Peer = Peer(publicKey: string, addressCIDR: string, name: string)

  const NAME_TAG := "# AWG Control:"
  const PUBLIC_KEY := "PublicKey"
  const ALLOWED_IPS := "AllowedIPs"
  const PEER := "peer"
  const PEER_HEADER := "[Peer]"

  // Headers ----------------------------------------------------------------------------------------

  predicate IsHeader(line: string) {
    var t := Clip(line);
    t != [] && t[0] == '[' && t[|t| - 1] == ']'
  }

  function Unbracket(t: string): string {
    var a := if t != [] && t[0] == '[' then t[1..] else t;
    if a != [] && a[|a| - 1] == ']' then a[..|a| - 1] else a
  }

  function HeaderName(header: string): string {
    Clip(Unbracket(Clip(header)))
  }

  function SectionName(header: string): string {
    Lower(HeaderName(header))
  }

  predicate BadHeader(line: string) {
    IsHeader(line) && HeaderName(line) == []
  }

  /** Every header names its section. */
  predicate Accepted(lines: seq<string>) {
    forall line :: line in lines ==> !BadHeader(line)
  }

  /** A header is a text in brackets; it names its section by what is between them. */
  lemma HeaderMeans(line: string)
    ensures IsHeader(line) <==> exists inner :: Clip(line) == "[" + inner + "]"
    ensures forall inner :: Clip(line) == "[" + inner + "]" ==>
      SectionName(line) == Lower(Clip(inner)) && (BadHeader(line) <==> Clip(inner) == [])
  {
    hide Clip, Lower;
    var t := Clip(line);
    if IsHeader(line) {
      assert t == "[" + t[1..|t| - 1] + "]";
    }
    forall inner | t == "[" + inner + "]" ensures Unbracket(t) == inner {
    }
  }

  // Lines and sections -------------------------------------------------------------------------------

  /** One more line in front: a header takes the lines up to the next header. */
  function Prepend(line: string, rest: (seq<string>, seq<Section>)): (seq<string>, seq<Section>) {
    if IsHeader(line) then ([], [Section(line, rest.0)] + rest.1) else ([line] + rest.0, rest.1)
  }

  /** The lines before the first header, and the sections from there on. */
  function Group(lines: seq<string>): (seq<string>, seq<Section>) {
    if lines == [] then ([], []) else Prepend(lines[0], Group(lines[1..]))
  }

  function SectionLines(s: Section): seq<string> {
    [s.header] + s.lines
  }

  function Flat(sections: seq<Section>): seq<string> {
    if sections == [] then [] else SectionLines(sections[0]) + Flat(sections[1..])
  }

  function Flatten(d: Doc): seq<string> {
    d.preamble + Flat(d.sections)
  }

  predicate PlainLine(line: string) {
    !IsHeader(line) && '\n' !in line
  }

  predicate Plain(lines: seq<string>) {
    forall line :: line in lines ==> PlainLine(line)
  }

  predicate SoundSection(s: Section) {
    IsHeader(s.header) && !BadHeader(s.header) && '\n' !in s.header && Plain(s.lines)
  }

  predicate SoundSections(sections: seq<Section>) {
    forall s :: s in sections ==> SoundSection(s)
  }

  /** A document as parsing leaves it and as the edits keep it. */
  predicate Sound(d: Doc) {
    && Plain(d.preamble)
    && SoundSections(d.sections)
    && (d.newline == ['\n'] || d.newline == ['\r', '\n'])
  }

  lemma {:induction false} FlatAppend(a: seq<Section>, b: seq<Section>)
    ensures Flat(a + b) == Flat(a) + Flat(b)
  {
    hide SectionLines;
    if a == [] {
      assert a + b == b;
    } else {
      assert (a + b)[1..] == a[1..] + b;
      FlatAppend(a[1..], b);
    }
  }

  lemma {:induction false} PlainGroup(preamble: seq<string>, rest: seq<string>)
    requires Plain(preamble)
    ensures Group(preamble + rest) == (preamble + Group(rest).0, Group(rest).1)
  {
    hide IsHeader;
    if preamble == [] {
      assert preamble + rest == rest;
      assert [] + Group(rest).0 == Group(rest).0;
    } else {
      assert (preamble + rest)[1..] == preamble[1..] + rest;
      PlainGroup(preamble[1..], rest);
      assert preamble[0] in preamble;
      assert [preamble[0]] + (preamble[1..] + Group(rest).0) == preamble + Group(rest).0;
    }
  }

  /** Sections are determined by their lines. */
  lemma {:induction false} GroupFlat(sections: seq<Section>)
    requires SoundSections(sections)
    ensures Group(Flat(sections)) == ([], sections)
  {
    hide IsHeader, BadHeader, Plain, Group;
    if sections == [] {
      GroupNothing();
    } else {
      var s := sections[0];
      assert s in sections;
      GroupFlat(sections[1..]);
      GroupHeader(s, Flat(sections[1..]), sections[1..]);
      assert [s] + sections[1..] == sections;
    }
  }

  lemma GroupNothing()
    ensures Group([]) == ([], [])
  {
  }

  lemma GroupHeader(s: Section, rest: seq<string>, sections: seq<Section>)
    requires SoundSection(s) && Group(rest) == ([], sections)
    ensures Group(SectionLines(s) + rest) == ([], [s] + sections)
  {
    hide IsHeader, BadHeader, Plain;
    PlainGroup(s.lines, rest);
    var lines := SectionLines(s) + rest;
    assert lines[0] == s.header && lines[1..] == s.lines + rest;
    assert s.lines + [] == s.lines;
  }

  lemma GroupFlatten(d: Doc)
    requires Sound(d)
    ensures Group(Flatten(d)) == (d.preamble, d.sections)
  {
    hide Group, Plain, SoundSections;
    GroupFlat(d.sections);
    PlainGroup(d.preamble, Flat(d.sections));
    assert d.preamble + [] == d.preamble;
  }

  /** Grouping loses nothing, and puts every header, and only headers, at the head of a section. */
  lemma {:induction false} FlattenGroup(lines: seq<string>)
    requires Accepted(lines) && LfFree(lines)
    ensures Group(lines).0 + Flat(Group(lines).1) == lines
    ensures Plain(Group(lines).0) && SoundSections(Group(lines).1)
  {
    hide IsHeader, BadHeader;
    if lines != [] {
      var rest := Group(lines[1..]);
      FlattenGroup(lines[1..]);
      assert lines == [lines[0]] + (rest.0 + Flat(rest.1));
      assert lines[0] in lines;
      if IsHeader(lines[0]) {
        var s := Section(lines[0], rest.0);
        assert ([s] + rest.1)[1..] == rest.1;
      }
    }
  }

  /** One more line at the end: a header opens a section, another line joins the last one. */
  function Snoc(grouped: (seq<string>, seq<Section>), line: string): (seq<string>, seq<Section>) {
    if IsHeader(line) then (grouped.0, grouped.1 + [Section(line, [])])
    else if grouped.1 == [] then (grouped.0 + [line], [])
    else (grouped.0, ExtendLast(grouped.1, line))
  }

  /** One more line in the last section. */
  function ExtendLast(sections: seq<Section>, line: string): seq<Section>
    requires sections != []
  {
    var k := |sections| - 1;
    sections[k := Section(sections[k].header, sections[k].lines + [line])]
  }

  lemma PrependSnoc(first: string, grouped: (seq<string>, seq<Section>), line: string)
    ensures Prepend(first, Snoc(grouped, line)) == Snoc(Prepend(first, grouped), line)
  {
    hide IsHeader;
    var s := Section(first, grouped.0);
    if IsHeader(line) {
      assert [s] + (grouped.1 + [Section(line, [])]) == [s] + grouped.1 + [Section(line, [])];
    } else if grouped.1 == [] {
      assert [first] + (grouped.0 + [line]) == [first] + grouped.0 + [line];
      assert ExtendLast([s] + [], line) == [Section(first, grouped.0 + [line])] + [];
    } else {
      assert [s] + ExtendLast(grouped.1, line) == ExtendLast([s] + grouped.1, line);
    }
  }

  lemma GroupOne(line: string)
    ensures Prepend(line, ([], [])) == Snoc(([], []), line)
  {
    hide IsHeader;
    assert [line] + [] == [] + [line];
    assert [Section(line, [])] + [] == [] + [Section(line, [])];
  }

  lemma {:induction false} GroupSnoc(lines: seq<string>, line: string)
    ensures Group(lines + [line]) == Snoc(Group(lines), line)
  {
    hide Prepend, Snoc;
    var all := lines + [line];
    if lines == [] {
      assert all[1..] == [];
      GroupOne(line);
    } else {
      assert all[0] == lines[0] && all[1..] == lines[1..] + [line];
      GroupSnoc(lines[1..], line);
      PrependSnoc(lines[0], Group(lines[1..]), line);
    }
  }

  // Texts ------------------------------------------------------------------------------------------

  function Parsed(data: string): Doc {
    var (preamble, sections) := Group(LinesOf(data));
    Doc(preamble, sections, NewlineOf(data), EndsWithLf(data))
  }

  predicate Parses(data: string) {
    Accepted(LinesOf(data))
  }

  function PrintDoc(d: Doc): string {
    Join(Flatten(d), d.newline) + if d.finalEOL || Flatten(d) != [] then d.newline else []
  }

  lemma ParsedSound(data: string)
    requires Parses(data)
    ensures Sound(Parsed(data)) && Flatten(Parsed(data)) == LinesOf(data) && !Hollow(Parsed(data))
  {
    hide Plain, SoundSections, Group;
    FlattenGroup(LinesOf(data));
  }

  /** A document without lines that was terminated: it prints as one empty line. */
  predicate Hollow(d: Doc) {
    Flatten(d) == [] && d.finalEOL
  }

  lemma PrintSound(d: Doc)
    requires Sound(d)
    ensures PrintDoc(d) == Printed(if Hollow(d) then [[]] else Flatten(d), d.newline)
  {
    hide Plain, SoundSections, Flatten;
    assert Join([[]], d.newline) == [];
  }

  /** Printing what was parsed normalises the newlines; it is the identity exactly on uniform texts. */
  lemma ParsePrint(data: string)
    requires Parses(data)
    ensures PrintDoc(Parsed(data)) == Normal(data)
    ensures PrintDoc(Parsed(data)) == data <==> Uniform(data)
  {
    ParsedSound(data);
    PrintSound(Parsed(data));
    PrintedLines(data);
    NormalIdentity(data);
  }

  lemma {:induction false} FlatSound(sections: seq<Section>)
    requires SoundSections(sections)
    ensures Accepted(Flat(sections)) && LfFree(Flat(sections))
  {
    hide IsHeader, HeaderName;
    if sections != [] {
      assert sections[0] in sections;
      FlatSound(sections[1..]);
    }
  }

  lemma FlattenSound(d: Doc)
    requires Sound(d)
    ensures Accepted(Flatten(d)) && LfFree(Flatten(d))
  {
    hide IsHeader, HeaderName, Flat;
    FlatSound(d.sections);
  }

  // Documents that differ only in surrounding white space ------------------------------------------

  predicate AlikeLines(a: seq<string>, b: seq<string>) {
    |a| == |b| && forall i :: 0 <= i < |a| ==> Clip(a[i]) == Clip(b[i])
  }

  predicate AlikeSection(a: Section, b: Section) {
    Clip(a.header) == Clip(b.header) && AlikeLines(a.lines, b.lines)
  }

  predicate Alike(a: seq<Section>, b: seq<Section>) {
    |a| == |b| && forall i :: 0 <= i < |a| ==> AlikeSection(a[i], b[i])
  }

  lemma {:induction false} GroupAlike(a: seq<string>, b: seq<string>)
    requires AlikeLines(a, b)
    ensures AlikeLines(Group(a).0, Group(b).0) && Alike(Group(a).1, Group(b).1)
  {
    hide Clip;
    if a != [] {
      assert Clip(a[0]) == Clip(b[0]);
      assert AlikeLines(a[1..], b[1..]) by {
        forall i | 0 <= i < |a[1..]| ensures Clip(a[1..][i]) == Clip(b[1..][i]) {
          assert Clip(a[i + 1]) == Clip(b[i + 1]);
        }
      }
      GroupAlike(a[1..], b[1..]);
    }
  }

  lemma AcceptedAlike(a: seq<string>, b: seq<string>)
    requires AlikeLines(a, b) && Accepted(a)
    ensures Accepted(b)
  {
    hide Clip;
    forall line | line in b ensures !BadHeader(line) {
      var i :| 0 <= i < |b| && b[i] == line;
      assert Clip(a[i]) == Clip(b[i]) && a[i] in a;
    }
  }

  lemma DropCrsAlike(lines: seq<string>)
    ensures AlikeLines(lines, DropCrs(lines))
  {
    forall i | 0 <= i < |lines| ensures Clip(lines[i]) == Clip(DropCrs(lines)[i]) {
      DropCrClip(lines[i]);
    }
  }

  /**
   * A printed document parses, and to a document alike; it is the very same one exactly when it has lines, or no
   * final newline, and the newline is CR LF or no line ends in a bare CR.
   */
  lemma PrintParse(d: Doc)
    requires Sound(d)
    ensures Parses(PrintDoc(d))
    ensures Alike(d.sections, Parsed(PrintDoc(d)).sections)
    ensures (Parsed(PrintDoc(d)).preamble, Parsed(PrintDoc(d)).sections) == (d.preamble, d.sections) <==>
      !Hollow(d) && (d.newline == ['\r', '\n'] || DropCrs(Flatten(d)) == Flatten(d))
  {
    hide Clip, Group, IsHeader, LinesOf, BadHeader, SoundSection, Plain;
    var lines := if Hollow(d) then [[]] else Flatten(d);
    FlattenSound(d);
    PrintSound(d);
    GroupBlank();
    LinesOfPrinted(lines, d.newline);
    GroupFlatten(d);
    var again := LinesOf(PrintDoc(d));
    DropCrsAlike(lines);
    AlikeRefl(lines);
    AcceptedAlike(lines, again);
    GroupAlike(lines, again);
    FlattenGroup(again);
    if Hollow(d) {
      HollowEmpty(d);
      assert DropCrs([[]]) == [[]];
    }
  }

  lemma GroupBlank()
    ensures Group([[]]) == ([[]], []) && Accepted([[]])
  {
    hide IsHeader;
    BlankPlain();
    var one: seq<string> := [[]];
    assert Group(one[1..]) == ([], []);
    assert one[0] == [];
    assert [[]] + [] == one;
    assert Group(one) == Prepend(one[0], ([], []));
    assert !BadHeader([]);
    forall line | line in one ensures !BadHeader(line) {
      assert line == [];
    }
  }

  lemma HollowEmpty(d: Doc)
    requires Flatten(d) == []
    ensures d.sections == [] && d.preamble == []
  {
    assert |Flatten(d)| == |d.preamble| + |Flat(d.sections)|;
    assert |d.sections| > 0 ==> |Flat(d.sections)| >= 1;
  }

  lemma AlikeRefl(lines: seq<string>)
    ensures AlikeLines(lines, lines)
  {
  }

  // Peers ------------------------------------------------------------------------------------------

  predicate KeyLine(line: string, key: string) {
    match Property(line)
    case None => false
    case Some((k, v)) => EqualFold(k, PUBLIC_KEY) && v == key
  }

  predicate HasKey(s: Section, key: string) {
    SectionName(s.header) == PEER && exists i :: 0 <= i < |s.lines| && KeyLine(s.lines[i], key)
  }

  /** A peer section names a key in a line that reads as its public key. */
  lemma HasKeyMeans(s: Section, key: string)
    ensures HasKey(s, key) <==>
      SectionName(s.header) == "peer" && exists i, a, b ::
        0 <= i < |s.lines| && Reads(s.lines[i], a, b) && EqualFold(Clip(a), "PublicKey") && Clip(b) == key
  {
    hide Reads, Property, Clip, EqualFold, SectionName;
    forall i | 0 <= i < |s.lines|
      ensures KeyLine(s.lines[i], key) <==>
        exists a, b :: Reads(s.lines[i], a, b) && EqualFold(Clip(a), "PublicKey") && Clip(b) == key
    {
      PropertyMeans(s.lines[i]);
    }
  }

  /** The first section with this key. */
  function FindPeer(sections: seq<Section>, key: string): Option<nat> {
    FirstFrom(sections, key, 0)
  }

  function FirstFrom(sections: seq<Section>, key: string, i: nat): Option<nat>
    decreases |sections| - i
  {
    if i >= |sections| then None
    else if HasKey(sections[i], key) then Some(i)
    else FirstFrom(sections, key, i + 1)
  }

  lemma {:induction false} FirstFromIs(sections: seq<Section>, key: string, i: nat)
    ensures var r := FirstFrom(sections, key, i);
      if r.Some? then i <= r.value < |sections| && HasKey(sections[r.value], key) && forall j :: i <= j < r.value ==>
        !HasKey(sections[j], key)
      else forall j :: i <= j < |sections| ==> !HasKey(sections[j], key)
    decreases |sections| - i
  {
    hide HasKey;
    if i < |sections| && !HasKey(sections[i], key) {
      FirstFromIs(sections, key, i + 1);
    }
  }

  lemma FindPeerIs(sections: seq<Section>, key: string)
    ensures var r := FindPeer(sections, key);
      if r.Some? then r.value < |sections| && HasKey(sections[r.value], key) && forall j :: 0 <= j < r.value ==>
        !HasKey(sections[j], key)
      else forall j :: 0 <= j < |sections| ==> !HasKey(sections[j], key)
  {
    FirstFromIs(sections, key, 0);
  }

  /** What one line of a peer section adds to the peer. */
  function PeerStep(p: Peer, line: string): Peer {
    var t := Clip(line);
    var q := if NAME_TAG <= t then p.(name := Clip(t[|NAME_TAG|..])) else p;
    match Property(line)
    case None => q
    case Some((k, v)) =>
      if EqualFold(k, PUBLIC_KEY) then q.(publicKey := v)
      else if EqualFold(k, ALLOWED_IPS) then q.(addressCIDR := Clip(Split(v, ',')[0]))
      else q
  }

  function PeerFrom(p: Peer, lines: seq<string>): Peer {
    if lines == [] then p else PeerStep(PeerFrom(p, lines[..|lines| - 1]), lines[|lines| - 1])
  }

  function PeerOf(s: Section): seq<Peer> {
    var p := PeerFrom(Peer([], [], []), s.lines);
    if SectionName(s.header) == PEER && p.publicKey != [] then [p] else []
  }

  function PeersOf(sections: seq<Section>): seq<Peer> {
    if sections == [] then [] else PeersOf(sections[..|sections| - 1]) + PeerOf(sections[|sections| - 1])
  }

  lemma StepAlike(p: Peer, a: string, b: string)
    requires Clip(a) == Clip(b)
    ensures PeerStep(p, a) == PeerStep(p, b)
  {
    hide Clip, Property, EqualFold;
    PropertyClip(a, b);
  }

  lemma {:induction false} PeerFromAlike(p: Peer, a: seq<string>, b: seq<string>)
    requires AlikeLines(a, b)
    ensures PeerFrom(p, a) == PeerFrom(p, b)
  {
    hide Clip, PeerStep;
    if a != [] {
      var k := |a| - 1;
      PeerFromAlike(p, a[..k], b[..k]);
      assert Clip(a[k]) == Clip(b[k]);
      StepAlike(PeerFrom(p, a[..k]), a[k], b[k]);
    }
  }

  lemma KeyLineClip(a: string, b: string, key: string)
    requires Clip(a) == Clip(b)
    ensures KeyLine(a, key) <==> KeyLine(b, key)
  {
    hide Clip, Property;
    PropertyClip(a, b);
  }

  lemma PeerOfAlike(a: Section, b: Section)
    requires AlikeSection(a, b)
    ensures PeerOf(a) == PeerOf(b)
    ensures forall key :: HasKey(a, key) <==> HasKey(b, key)
  {
    hide Clip, Property, PeerFrom, KeyLine;
    PeerFromAlike(Peer([], [], []), a.lines, b.lines);
    assert SectionName(a.header) == SectionName(b.header);
    forall i, key | 0 <= i < |a.lines| ensures KeyLine(a.lines[i], key) <==> KeyLine(b.lines[i], key) {
      KeyLineClip(a.lines[i], b.lines[i], key);
    }
    forall key ensures HasKey(a, key) <==> HasKey(b, key) {
      if HasKey(a, key) {
        var i :| 0 <= i < |a.lines| && KeyLine(a.lines[i], key);
        assert KeyLine(b.lines[i], key);
      }
      if HasKey(b, key) {
        var i :| 0 <= i < |b.lines| && KeyLine(b.lines[i], key);
        assert KeyLine(a.lines[i], key);
      }
    }
  }

  lemma {:induction false} PeersAlike(a: seq<Section>, b: seq<Section>)
    requires Alike(a, b)
    ensures PeersOf(a) == PeersOf(b)
  {
    hide AlikeSection, PeerOf;
    if a != [] {
      var k := |a| - 1;
      PeersAlike(a[..k], b[..k]);
      PeerOfAlike(a[k], b[k]);
    }
  }

  lemma {:induction false} PeersAppend(a: seq<Section>, b: seq<Section>)
    ensures PeersOf(a + b) == PeersOf(a) + PeersOf(b)
  {
    hide PeerOf;
    if b == [] {
      assert a + b == a;
    } else {
      var k := |b| - 1;
      assert (a + b)[..|a + b| - 1] == a + b[..k];
      PeersAppend(a, b[..k]);
    }
  }

  // Edits ------------------------------------------------------------------------------------------

  function PeerLines(key: string, addressCIDR: string, name: string): seq<string> {
    (if name == [] then [] else [NAME_TAG + [' '] + name])
    + [PUBLIC_KEY + [' ', '='] + [' '] + key, ALLOWED_IPS + [' ', '='] + [' '] + addressCIDR]
  }

  function NewPeer(key: string, addressCIDR: string, name: string): Section {
    Section(PEER_HEADER, PeerLines(key, addressCIDR, name))
  }

  lemma WrittenLines(key: string, addressCIDR: string, name: string)
    ensures PEER_HEADER == "[Peer]" && NAME_TAG + [' '] + name == "# AWG Control: " + name
    ensures PUBLIC_KEY + [' ', '='] + [' '] + key == "PublicKey = " + key
    ensures ALLOWED_IPS + [' ', '='] + [' '] + addressCIDR == "AllowedIPs = " + addressCIDR
  {
    assert NAME_TAG + [' '] == "# AWG Control: ";
    assert PUBLIC_KEY + [' ', '='] + [' '] == "PublicKey = ";
    assert ALLOWED_IPS + [' ', '='] + [' '] == "AllowedIPs = ";
  }

  /** A blank line at the end of the last section, unless there is one. */
  function Spaced(sections: seq<Section>): seq<Section> {
    if sections == [] then []
    else
      var lines := sections[|sections| - 1].lines;
      if lines == [] || Clip(lines[|lines| - 1]) != [] then ExtendLast(sections, []) else sections
  }

  function Added(d: Doc, key: string, addressCIDR: string, name: string): Doc {
    d.(sections := Spaced(d.sections) + [NewPeer(key, addressCIDR, name)])
  }

  predicate NoBreak(s: string) {
    '\r' !in s && '\n' !in s
  }

  function Without(sections: seq<Section>, i: nat): seq<Section>
    requires i < |sections|
  {
    sections[..i] + sections[i + 1..]
  }

  /** The key a stored section is restored under: that of its first PublicKey line. */
  function FirstKey(lines: seq<string>): Option<string> {
    if lines == [] then None
    else
      match Property(lines[0])
      case Some((k, v)) => if EqualFold(k, PUBLIC_KEY) then Some(v) else FirstKey(lines[1..])
      case None => FirstKey(lines[1..])
  }

  lemma FirstKeyStep(lines: seq<string>, i: nat)
    requires i < |lines|
    ensures var p := Property(lines[i]);
      FirstKey(lines[i..]) ==
      if p.Some? && EqualFold(p.value.0, PUBLIC_KEY) then Some(p.value.1) else FirstKey(lines[i + 1..])
  {
    hide Property, EqualFold;
    assert lines[i..][0] == lines[i] && lines[i..][1..] == lines[i + 1..];
  }

  lemma NoFirstKey(lines: seq<string>)
    requires lines == []
    ensures FirstKey(lines) == None
  {
  }

  predicate Restorable(sections: seq<Section>, s: Section) {
    FirstKey(s.lines).Some? && FindPeer(sections, FirstKey(s.lines).value).None?
  }

  // The document -----------------------------------------------------------------------------------

  class Document {
    var preamble: seq<string>
    var sections: seq<Section>
    var newline: string
    var finalEOL: bool

    ghost function Value(): Doc
      reads this
    {
      Doc(preamble, sections, newline, finalEOL)
    }

    constructor (newline: string, finalEOL: bool)
      ensures Value() == Doc([], [], newline, finalEOL)
    {
      preamble, sections, this.newline, this.finalEOL := [], [], newline, finalEOL;
    }

    static method Parse(data: string) returns (document: Option<Document>)
      ensures document.Some? <==> Parses(data)
      ensures document.Some? ==> fresh(document.value) && document.value.Value() == Parsed(data)
    {
      hide IsHeader, HeaderName, LinesOf;
      var lines := LinesOf(data);
      var d := new Document(NewlineOf(data), EndsWithLf(data));
      for i := 0 to |lines|
        invariant Group(lines[..i]) == (d.preamble, d.sections)
        invariant Accepted(lines[..i])
        invariant d.newline == NewlineOf(data) && d.finalEOL == EndsWithLf(data)
      {
        var line := lines[i];
        GroupSnoc(lines[..i], line);
        assert lines[..i + 1] == lines[..i] + [line];
        if IsHeader(line) {
          if HeaderName(line) == [] {
            assert lines[i] in lines && BadHeader(lines[i]);
            return None;
          }
          d.sections := d.sections + [Section(line, [])];
        } else if d.sections == [] {
          d.preamble := d.preamble + [line];
        } else {
          d.sections := ExtendLast(d.sections, line);
        }
      }
      assert lines[..|lines|] == lines;
      return Some(d);
    }

    method Bytes() returns (data: string)
      ensures data == PrintDoc(Value())
    {
      var lines := preamble;
      for i := 0 to |sections|
        invariant lines + Flat(sections[i..]) == Flatten(Value())
      {
        lines := lines + [sections[i].header] + sections[i].lines;
        assert sections[i..][1..] == sections[i + 1..];
      }
      assert Flat(sections[|sections|..]) == [] && lines + [] == lines;
      data := Join(lines, newline);
      if finalEOL || |lines| > 0 {
        data := data + newline;
      }
    }

    /** The index of the first peer section with this key, or -1. */
    method FindIndex(publicKey: string) returns (index: int)
      ensures index == (match FindPeer(sections, publicKey) case None => -1 case Some(i) => i)
      ensures index < |sections|
    {
      hide SectionName, Property;
      index := 0;
      while index < |sections|
        invariant 0 <= index <= |sections|
        invariant FindPeer(sections, publicKey) == FirstFrom(sections, publicKey, index)
      {
        var s := sections[index];
        if SectionName(s.header) == PEER {
          for k := 0 to |s.lines|
            invariant forall j :: 0 <= j < k ==> !KeyLine(s.lines[j], publicKey)
          {
            if KeyLine(s.lines[k], publicKey) {
              assert HasKey(sections[index], publicKey);
              return;
            }
          }
        }
        index := index + 1;
      }
      index := -1;
    }

    method AddPeer(publicKey: string, addressCIDR: string, name: string) returns (ok: bool)
      modifies this
      ensures ok <==>
        FindPeer(old(sections), publicKey).None? && NoBreak(publicKey) && NoBreak(addressCIDR) && NoBreak(name)
      ensures ok ==> forall c :: c in publicKey + addressCIDR + name ==> c != '\r' && c != '\n'
      ensures Value() == if ok then Added(old(Value()), publicKey, addressCIDR, name) else old(Value())
      ensures ok ==> sections != [] && sections[|sections| - 1] == Section("[Peer]",
        (if name == [] then [] else ["# AWG Control: " + name]) +
        ["PublicKey = " + publicKey, "AllowedIPs = " + addressCIDR])
    {
      hide FindPeer, Clip;
      WrittenLines(publicKey, addressCIDR, name);
      var index := FindIndex(publicKey);
      if index >= 0 { return false; }
      if !(NoBreak(publicKey) && NoBreak(addressCIDR) && NoBreak(name)) { return false; }
      if |sections| > 0 {
        var last := sections[|sections| - 1];
        if |last.lines| == 0 || Clip(last.lines[|last.lines| - 1]) != [] {
          sections := ExtendLast(sections, []);
        }
      }
      var lines: seq<string> := [];
      if name != [] {
        lines := [NAME_TAG + [' '] + name];
      }
      lines := lines + [PUBLIC_KEY + [' ', '='] + [' '] + publicKey, ALLOWED_IPS + [' ', '='] + [' '] + addressCIDR];
      sections := sections + [Section(PEER_HEADER, lines)];
      return true;
    }

    method RemovePeer(publicKey: string) returns (removed: Option<Section>)
      modifies this
      ensures removed.Some? <==> FindPeer(old(sections), publicKey).Some?
      ensures removed.Some? ==>
        var i := FindPeer(old(sections), publicKey).value;
        i < |old(sections)| && removed.value == old(sections)[i]
          && Value() == old(Value()).(sections := Without(old(sections), i))
      ensures removed.None? ==> Value() == old(Value())
    {
      hide FindPeer;
      var index := FindIndex(publicKey);
      if index < 0 { return None; }
      removed := Some(sections[index]);
      sections := sections[..index] + sections[index + 1..];
    }

    method RestorePeer(section: Section) returns (ok: bool)
      modifies this
      ensures ok <==> Restorable(old(sections), section)
      ensures Value() == if ok then old(Value()).(sections := old(sections) + [section]) else old(Value())
    {
      hide FindPeer, Property, EqualFold, FirstKey;
      assert section.lines[0..] == section.lines;
      for i := 0 to |section.lines|
        invariant Value() == old(Value())
        invariant FirstKey(section.lines) == FirstKey(section.lines[i..])
      {
        FirstKeyStep(section.lines, i);
        var p := Property(section.lines[i]);
        if p.Some? && EqualFold(p.value.0, PUBLIC_KEY) {
          var existing := FindIndex(p.value.1);
          if existing >= 0 { return false; }
          sections := sections + [section];
          return true;
        }
      }
      NoFirstKey(section.lines[|section.lines|..]);
      return false;
    }

    method Peers() returns (peers: seq<Peer>)
      ensures peers == PeersOf(sections)
    {
      hide SectionName, PeerStep;
      peers := [];
      for i := 0 to |sections|
        invariant peers == PeersOf(sections[..i])
      {
        var s := sections[i];
        assert sections[..i + 1][..i] == sections[..i];
        if SectionName(s.header) == PEER {
          var p := Peer([], [], []);
          for k := 0 to |s.lines|
            invariant p == PeerFrom(Peer([], [], []), s.lines[..k])
          {
            assert s.lines[..k + 1][..k] == s.lines[..k];
            p := PeerStep(p, s.lines[k]);
          }
          assert s.lines[..|s.lines|] == s.lines;
          if p.publicKey != [] {
            peers := peers + [p];
          }
        }
      }
      assert sections[..|sections|] == sections;
    }
  }

  // What adding a peer does ------------------------------------------------------------------------

  lemma LowerPeer()
    ensures Lower("Peer") == PEER
  {
    assert Lower("r") == "r";
    assert Lower("er") == "er";
    assert Lower("eer") == "eer";
  }

  lemma PeerHeaderName()
    ensures IsHeader(PEER_HEADER) && HeaderName(PEER_HEADER) == "Peer" && SectionName(PEER_HEADER) == PEER
  {
    hide Clip, Lower;
    ClipTrimmed(PEER_HEADER);
    assert Unbracket(PEER_HEADER) == "Peer";
    ClipTrimmed("Peer");
    LowerPeer();
  }

  lemma NotHeader(line: string)
    requires line != [] && !Space(line[0]) && line[0] != '['
    ensures !IsHeader(line)
  {
    ClipHead(line);
  }

  lemma NewPeerSound(key: string, addressCIDR: string, name: string)
    requires NoBreak(key) && NoBreak(addressCIDR) && NoBreak(name)
    ensures SoundSection(NewPeer(key, addressCIDR, name))
  {
    hide IsHeader, HeaderName;
    PeerHeaderName();
    var lines := PeerLines(key, addressCIDR, name);
    forall line | line in lines ensures PlainLine(line) {
      assert line[0] in ['#', 'P', 'A'];
      NotHeader(line);
    }
  }

  lemma BlankPlain()
    ensures !IsHeader([])
  {
  }

  lemma ExtendSound(sections: seq<Section>)
    requires SoundSections(sections) && sections != []
    ensures SoundSections(ExtendLast(sections, []))
    ensures Flat(ExtendLast(sections, [])) == Flat(sections) + [[]]
  {
    hide IsHeader, BadHeader, Flat;
    BlankPlain();
    var k := |sections| - 1;
    var init, last := sections[..k], sections[k];
    var extended := Section(last.header, last.lines + [[]]);
    assert last in sections;
    assert sections == init + [last] && ExtendLast(sections, []) == init + [extended];
    FlatAppend(init, [last]);
    FlatAppend(init, [extended]);
    FlatOne(last);
    FlatOne(extended);
    assert SectionLines(extended) == SectionLines(last) + [[]];
    assert Flat(init) + (SectionLines(last) + [[]]) == Flat(sections) + [[]];
  }

  lemma SectionNonEmpty(s: Section)
    ensures SectionLines(s) != []
  {
  }

  lemma FlatOne(s: Section)
    ensures Flat([s]) == SectionLines(s)
  {
    assert SectionLines(s) + Flat([]) == SectionLines(s);
  }

  lemma SpacedSound(sections: seq<Section>)
    requires SoundSections(sections)
    ensures SoundSections(Spaced(sections))
    ensures Flat(Spaced(sections)) == Flat(sections) || Flat(Spaced(sections)) == Flat(sections) + [[]]
  {
    hide SoundSections, ExtendLast, Flat, Clip;
    if sections != [] {
      ExtendSound(sections);
    }
  }

  /** The old text stays as a prefix of the new one, unless it was a hollow document; the result is sound again. */
  lemma AddedPrefix(d: Doc, key: string, addressCIDR: string, name: string)
    requires Sound(d) && NoBreak(key) && NoBreak(addressCIDR) && NoBreak(name)
    ensures Sound(Added(d, key, addressCIDR, name)) && !Hollow(Added(d, key, addressCIDR, name))
    ensures PrintDoc(d) <= PrintDoc(Added(d, key, addressCIDR, name)) <==> !Hollow(d)
  {
    hide SoundSection, Plain, Spaced, NewPeer, SectionLines;
    var peer := NewPeer(key, addressCIDR, name);
    var next := Added(d, key, addressCIDR, name);
    NewPeerSound(key, addressCIDR, name);
    SpacedSound(d.sections);
    FlatAppend(Spaced(d.sections), [peer]);
    FlatOne(peer);
    var blank: seq<string> := if Flat(Spaced(d.sections)) == Flat(d.sections) then [] else [[]];
    assert Flatten(next) == Flatten(d) + (blank + SectionLines(peer));
    SectionNonEmpty(peer);
    PrintSound(d);
    PrintSound(next);
    PrintedAppend(Flatten(d), blank + SectionLines(peer), d.newline);
    if Hollow(d) {
      HollowEmpty(d);
      AddedToHollow(d, key, addressCIDR, name);
    }
  }

  lemma AddedToHollow(d: Doc, key: string, addressCIDR: string, name: string)
    requires d.preamble == [] && d.sections == [] && d.finalEOL && (d.newline == ['\n'] || d.newline == ['\r', '\n'])
    ensures !(PrintDoc(d) <= PrintDoc(Added(d, key, addressCIDR, name)))
  {
    hide PeerLines;
    var peer := NewPeer(key, addressCIDR, name);
    var next := Added(d, key, addressCIDR, name);
    assert next.sections == [peer];
    FlatOne(peer);
    assert Flatten(next) == [PEER_HEADER] + PeerLines(key, addressCIDR, name);
    assert Join(Flatten(next), d.newline)[0] == '[';
    assert PrintDoc(d) == d.newline;
    assert PrintDoc(next)[0] == '[' && d.newline[0] != '[';
  }

  lemma BlankStep(p: Peer)
    ensures PeerStep(p, []) == p
  {
    assert Clip([]) == [];
  }

  lemma BlankPeer(s: Section)
    ensures PeerOf(Section(s.header, s.lines + [[]])) == PeerOf(s)
  {
    hide PeerStep, SectionName;
    var lines := s.lines + [[]];
    assert lines[..|lines| - 1] == s.lines;
    BlankStep(PeerFrom(Peer([], [], []), s.lines));
  }

  lemma SpacedPeers(sections: seq<Section>)
    ensures PeersOf(Spaced(sections)) == PeersOf(sections)
  {
    hide PeerOf, Clip;
    if sections != [] {
      var k := |sections| - 1;
      var extended := ExtendLast(sections, []);
      assert extended[..k] == sections[..k];
      BlankPeer(sections[k]);
    }
  }

  lemma LiteralNames()
    ensures Trimmed(Space, PUBLIC_KEY) && '=' !in PUBLIC_KEY
    ensures Trimmed(Space, ALLOWED_IPS) && '=' !in ALLOWED_IPS
    ensures Trimmed(Space, NAME_TAG)
    ensures EqualFold(PUBLIC_KEY, PUBLIC_KEY) && EqualFold(ALLOWED_IPS, ALLOWED_IPS)
    ensures !EqualFold(ALLOWED_IPS, PUBLIC_KEY)
  {
  }

  lemma NameStep(p: Peer, name: string)
    ensures PeerStep(p, NAME_TAG + [' '] + name) == p.(name := Clip(name))
  {
    hide Clip;
    LiteralNames();
    var line := NAME_TAG + [' '] + name;
    ClipTagged(NAME_TAG, name);
    var rest := TrimRight(Space, [' '] + name);
    assert Clip(line) == NAME_TAG + rest;
    assert (NAME_TAG + rest)[|NAME_TAG|..] == rest;
    assert (NAME_TAG + rest)[0] == '#';
  }

  lemma UntaggedStep(p: Peer, line: string)
    requires Clip(line) != [] && Clip(line)[0] != '#'
    ensures PeerStep(p, line) ==
      match Property(line)
      case None => p
      case Some((k, v)) =>
        if EqualFold(k, PUBLIC_KEY) then p.(publicKey := v)
        else if EqualFold(k, ALLOWED_IPS) then p.(addressCIDR := Clip(Split(v, ',')[0]))
        else p
  {
    hide Property, Clip, EqualFold;
    assert NAME_TAG[0] == '#';
  }

  lemma PropertyStep(p: Peer, name: string, value: string)
    requires name == PUBLIC_KEY || name == ALLOWED_IPS
    ensures PeerStep(p, name + [' ', '='] + [' '] + value) ==
      if name == PUBLIC_KEY then p.(publicKey := Clip(value)) else p.(addressCIDR := Clip(Split(Clip(value), ',')[0]))
  {
    hide Property, PeerStep, Clip, EqualFold, Space;
    LiteralNames();
    var tag := name + [' ', '='];
    assert tag[0] == name[0] && tag[|tag| - 1] == '=' && !Space('=') by { EqualsSign(); }
    PropertyWritten(name, value);
    ClipTagged(tag, value);
    var rest := TrimRight(Space, [' '] + value);
    assert (tag + rest)[0] == name[0];
    UntaggedStep(p, tag + [' '] + value);
  }

  lemma EqualsSign()
    ensures !Space('=')
  {
  }

  lemma NewPeerPeers(key: string, addressCIDR: string, name: string)
    ensures PeerOf(NewPeer(key, addressCIDR, name)) ==
      if Clip(key) == [] then [] else [Peer(Clip(key), Clip(Split(Clip(addressCIDR), ',')[0]), Clip(name))]
  {
    var start := Peer([], [], []);
    var lines := PeerLines(key, addressCIDR, name);
    NewPeerLines(key, addressCIDR, name);
    PeerHeaderName();
    hide PeerFrom, PeerLines, SectionName, Clip, Split;
    assert PeerFrom(start, lines) == Peer(Clip(key), Clip(Split(Clip(addressCIDR), ',')[0]), Clip(name));
  }

  lemma PeerFromSnoc(p: Peer, lines: seq<string>, line: string)
    ensures PeerFrom(p, lines + [line]) == PeerStep(PeerFrom(p, lines), line)
  {
    hide PeerStep;
    var more := lines + [line];
    assert more[..|more| - 1] == lines;
  }

  lemma NamedPeer(name: string)
    ensures PeerFrom(Peer([], [], []), if name == [] then [] else [NAME_TAG + [' '] + name]) == Peer([], [], Clip(name))
  {
    hide PeerStep, Clip;
    var start := Peer([], [], []);
    ClipTrimmed([]);
    if name != [] {
      NameStep(start, name);
      PeerFromSnoc(start, [], NAME_TAG + [' '] + name);
      assert [] + [NAME_TAG + [' '] + name] == [NAME_TAG + [' '] + name];
    }
  }

  /** The lines of a new peer, read one by one. */
  lemma NewPeerLines(key: string, addressCIDR: string, name: string)
    ensures PeerFrom(Peer([], [], []), PeerLines(key, addressCIDR, name)) ==
      Peer(Clip(key), Clip(Split(Clip(addressCIDR), ',')[0]), Clip(name))
  {
    hide PeerFrom, PeerStep, Clip, Split, EqualFold;
    var start, named := Peer([], [], []), Peer([], [], Clip(name));
    var tagged: seq<string> := if name == [] then [] else [NAME_TAG + [' '] + name];
    var keyLine, addressLine := PUBLIC_KEY + [' ', '='] + [' '] + key, ALLOWED_IPS + [' ', '='] + [' '] + addressCIDR;
    NamedPeer(name);
    PropertyStep(named, PUBLIC_KEY, key);
    PropertyStep(named.(publicKey := Clip(key)), ALLOWED_IPS, addressCIDR);
    LiteralNames();
    PeerFromSnoc(start, tagged, keyLine);
    PeerFromSnoc(start, tagged + [keyLine], addressLine);
    assert PeerLines(key, addressCIDR, name) == tagged + [keyLine] + [addressLine];
  }

  /**
   * After a peer was added to any text that parses, the text printed and parsed again has exactly the old peers
   * followed by the new one, with its key, address and name as trimming leaves them.
   */
  lemma AddedPeers(data: string, key: string, addressCIDR: string, name: string)
    requires Parses(data) && NoBreak(key) && NoBreak(addressCIDR) && NoBreak(name)
    ensures var text := PrintDoc(Added(Parsed(data), key, addressCIDR, name));
      && Parses(text)
      && PeersOf(Parsed(text).sections) ==
         PeersOf(Parsed(data).sections) +
         if Clip(key) == [] then [] else [Peer(Clip(key), Clip(Split(Clip(addressCIDR), ',')[0]), Clip(name))]
  {
    hide PeerOf, Parsed, Clip, Sound, Parses, Alike;
    var d := Parsed(data);
    var next := Added(d, key, addressCIDR, name);
    ParsedSound(data);
    AddedPrefix(d, key, addressCIDR, name);
    PrintParse(next);
    PeersAlike(next.sections, Parsed(PrintDoc(next)).sections);
    PeersAppend(Spaced(d.sections), [NewPeer(key, addressCIDR, name)]);
    SpacedPeers(d.sections);
    NewPeerPeers(key, addressCIDR, name);
    assert PeersOf([NewPeer(key, addressCIDR, name)]) == PeerOf(NewPeer(key, addressCIDR, name));
  }

  // Which keys a document holds --------------------------------------------------------------------

  predicate Holds(sections: seq<Section>, key: string) {
    exists s :: s in sections && HasKey(s, key)
  }

  lemma FindPeerHolds(sections: seq<Section>, key: string)
    ensures FindPeer(sections, key).Some? <==> Holds(sections, key)
  {
    hide HasKey, FindPeer;
    FindPeerIs(sections, key);
    if FindPeer(sections, key).Some? {
      assert sections[FindPeer(sections, key).value] in sections;
    }
  }

  lemma HoldsAlike(a: seq<Section>, b: seq<Section>, key: string)
    requires Alike(a, b) && Holds(a, key)
    ensures Holds(b, key)
  {
    hide HasKey, AlikeSection;
    var i :| 0 <= i < |a| && HasKey(a[i], key);
    PeerOfAlike(a[i], b[i]);
    assert b[i] in b;
  }

  lemma AlikeSymmetric(a: seq<Section>, b: seq<Section>)
    requires Alike(a, b)
    ensures Alike(b, a)
  {
    hide Clip;
    forall i | 0 <= i < |a| ensures AlikeSection(b[i], a[i]) {
      assert AlikeSection(a[i], b[i]);
    }
  }

  lemma NoKeyOnBlank(key: string)
    ensures !KeyLine([], key)
  {
    assert Clip([]) == [];
  }

  lemma HasKeyBlank(s: Section, key: string)
    ensures HasKey(Section(s.header, s.lines + [[]]), key) <==> HasKey(s, key)
  {
    hide KeyLine, SectionName;
    NoKeyOnBlank(key);
    var more := s.lines + [[]];
    if HasKey(s, key) {
      var i :| 0 <= i < |s.lines| && KeyLine(s.lines[i], key);
      assert KeyLine(more[i], key);
    }
    if HasKey(Section(s.header, more), key) {
      var i :| 0 <= i < |more| && KeyLine(more[i], key);
      assert KeyLine(s.lines[i], key);
    }
  }

  lemma HoldsSpaced(sections: seq<Section>, key: string)
    ensures Holds(Spaced(sections), key) <==> Holds(sections, key)
  {
    hide HasKey, Clip;
    if sections != [] {
      var k := |sections| - 1;
      HasKeyBlank(sections[k], key);
      var spaced := Spaced(sections);
      if Holds(sections, key) {
        var i :| 0 <= i < |sections| && HasKey(sections[i], key);
        assert spaced[i] in spaced && HasKey(spaced[i], key);
      }
      if Holds(spaced, key) {
        var i :| 0 <= i < |spaced| && HasKey(spaced[i], key);
        assert sections[i] in sections && HasKey(sections[i], key);
      }
    }
  }

  lemma NameHasNoKey(name: string, key: string)
    ensures !KeyLine(NAME_TAG + [' '] + name, key)
  {
    hide Clip;
    LiteralNames();
    ClipTagged(NAME_TAG, name);
    assert Clip(NAME_TAG + [' '] + name)[0] == '#';
  }

  lemma NewPeerKey(key: string, addressCIDR: string, name: string, k: string)
    ensures HasKey(NewPeer(key, addressCIDR, name), k) <==> k == Clip(key)
  {
    hide Clip, SectionName, EqualFold, Property;
    PeerHeaderName();
    LiteralNames();
    PropertyWritten(PUBLIC_KEY, key);
    PropertyWritten(ALLOWED_IPS, addressCIDR);
    NameHasNoKey(name, k);
    var lines := PeerLines(key, addressCIDR, name);
    assert lines[|lines| - 2] == PUBLIC_KEY + [' ', '='] + [' '] + key;
    if k == Clip(key) {
      assert KeyLine(lines[|lines| - 2], k);
    }
  }

  /** After a peer was added, the printed text parsed again holds exactly the old keys and the new one. */
  lemma AddedKeys(data: string, key: string, addressCIDR: string, name: string, k: string)
    requires Parses(data) && NoBreak(key) && NoBreak(addressCIDR) && NoBreak(name)
    ensures Holds(Parsed(PrintDoc(Added(Parsed(data), key, addressCIDR, name))).sections, k) <==>
      Holds(Parsed(data).sections, k) || k == Clip(key)
  {
    hide Parsed, Clip, Sound, Parses, Alike, HasKey, Spaced, NewPeer;
    var d := Parsed(data);
    var next := Added(d, key, addressCIDR, name);
    ParsedSound(data);
    AddedPrefix(d, key, addressCIDR, name);
    PrintParse(next);
    var again := Parsed(PrintDoc(next)).sections;
    AlikeSymmetric(next.sections, again);
    if Holds(again, k) { HoldsAlike(again, next.sections, k); }
    if Holds(next.sections, k) { HoldsAlike(next.sections, again, k); }
    HoldsSpaced(d.sections, k);
    NewPeerKey(key, addressCIDR, name, k);
    var peer := NewPeer(key, addressCIDR, name);
    assert forall s :: s in next.sections <==> s in Spaced(d.sections) || s == peer;
  }

  // Taking a peer out and putting it back ---------------------------------------------------------

  lemma WithoutSound(d: Doc, i: nat)
    requires Sound(d) && i < |d.sections|
    ensures SoundSection(d.sections[i]) && Sound(d.(sections := Without(d.sections, i)))
  {
    hide SoundSection, Plain, Flat;
    assert d.sections[i] in d.sections;
  }

  lemma AppendSound(d: Doc, s: Section)
    requires Sound(d) && SoundSection(s)
    ensures Sound(d.(sections := d.sections + [s]))
  {
    hide SoundSection, Plain, Flat;
  }

  lemma AlikeTransitive(a: seq<Section>, b: seq<Section>, c: seq<Section>)
    requires Alike(a, b) && Alike(b, c)
    ensures Alike(a, c)
  {
    hide Clip;
    forall i | 0 <= i < |a| ensures AlikeSection(a[i], c[i]) {
      assert AlikeSection(a[i], b[i]) && AlikeSection(b[i], c[i]);
    }
  }

  lemma AlikeAppend(a: seq<Section>, b: seq<Section>, s: Section)
    requires Alike(a, b)
    ensures Alike(a + [s], b + [s])
  {
    hide Clip;
    assert AlikeSection(s, s);
  }

  /** The text after the first peer with this key was taken out. */
  function RemovedText(data: string, key: string): string
    requires FindPeer(Parsed(data).sections, key).Some?
  {
    FindPeerIs(Parsed(data).sections, key);
    var d := Parsed(data);
    PrintDoc(d.(sections := Without(d.sections, FindPeer(d.sections, key).value)))
  }

  function RestoredText(data: string, s: Section): string {
    var d := Parsed(data);
    PrintDoc(d.(sections := d.sections + [s]))
  }

  /**
   * Removing a peer from any text and restoring the stored section later, with printing and parsing in between,
   * keeps the lines of every section and the order of the others; the restored one comes last.
   */
  lemma RemoveRestore(data: string, key: string)
    requires Parses(data) && FindPeer(Parsed(data).sections, key).Some?
    ensures var sections, i := Parsed(data).sections, FindPeer(Parsed(data).sections, key).value;
      && i < |sections|
      && Parses(RemovedText(data, key))
      && Alike(Without(sections, i), Parsed(RemovedText(data, key)).sections)
      && var text := RestoredText(RemovedText(data, key), sections[i]);
      && Parses(text)
      && Alike(Without(sections, i) + [sections[i]], Parsed(text).sections)
  {
    hide Parsed, Sound, SoundSection, Alike, FindPeer, PrintDoc, Parses;
    var d, i := Parsed(data), FindPeer(Parsed(data).sections, key).value;
    FindPeerIs(d.sections, key);
    ParsedSound(data);
    WithoutSound(d, i);
    var removed := d.(sections := Without(d.sections, i));
    PrintParse(removed);
    var text := RemovedText(data, key);
    var e := Parsed(text);
    ParsedSound(text);
    AppendSound(e, d.sections[i]);
    PrintParse(e.(sections := e.sections + [d.sections[i]]));
    AlikeAppend(removed.sections, e.sections, d.sections[i]);
    AlikeTransitive(removed.sections + [d.sections[i]], e.sections + [d.sections[i]],
      Parsed(RestoredText(text, d.sections[i])).sections);
  }
}
