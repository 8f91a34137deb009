/** Pointing a client configuration at a relay: one value is replaced, everything else stays as it was. */
module RelayEndpoint {
  import opened Text
  import opened Ipv4
  import opened Order
  import opened ClientConfig

  const ENDPOINT := "Endpoint"

  // Lines as the rewriter sees them ------------------------------------------------------------------

  predicate InLine(c: char) {
    c != '\r' && c != '\n'
  }

  /** The longest run without line ends at the start of s. */
  function Run(s: string): (r: string)
    ensures r <= s && All(InLine, r) && (|r| < |s| ==> !InLine(s[|r|]))
  {
    if s == [] || !InLine(s[0]) then []
    else
      var r := Run(s[1..]);
      assert [s[0]] + r <= s;
      [s[0]] + r
  }

  function SkipSpace(s: string): string {
    TrimLeft(JsSpace, s)
  }

  /** Where a comment would begin. */
  function CommentAt(s: string): (i: nat)
    ensures i <= |s| && '#' !in s[..i] && ';' !in s[..i] && (i < |s| ==> s[i] == '#' || s[i] == ';')
  {
    if s == [] || s[0] == '#' || s[0] == ';' then 0
    else
      var i := CommentAt(s[1..]);
      assert s[..i + 1] == [s[0]] + s[1..][..i];
      i + 1
  }

  /** The name in a section header, which a comment may follow. */
  function SectionMatch(line: string): Option<string> {
    var t := SkipSpace(line);
    var j := IndexOf(t, ']');
    if t == [] || t[0] != '[' || j < 2 || j == |t| then None
    else
      var after := SkipSpace(t[j + 1..]);
      if after == [] || ((after[0] == '#' || after[0] == ';') && All(DotMatches, after[1..])) then Some(t[1..j])
        else None
  }

  /** The spelling of a field up to its value, its value, and what follows. */
  datatype Parts = Parts(before: string, value: string, after: string)

  /** The value ends before the white space in front of a comment or of the line's end. */
  function SplitValue(before: string, rest: string): Option<Parts> {
    var i := CommentAt(rest);
    if i < |rest| && !All(DotMatches, rest[i + 1..]) then None
    else
      var value := TrimRight(JsSpace, rest[..i]);
      Some(Parts(before, value, rest[|value|..]))
  }

  lemma SuffixOfSuffix(s: string, r: string, t: string)
    requires |t| <= |r| <= |s| && r == s[|s| - |r|..] && t == r[|r| - |t|..]
    ensures t == s[|s| - |t|..]
  {
  }

  function AfterName(line: string): Option<string> {
    var named := SkipSpace(line);
    if |named| < |ENDPOINT| || named[..|ENDPOINT|] != ENDPOINT then None else Some(named[|ENDPOINT|..])
  }

  function AfterEquals(tail: string): Option<string> {
    var equals := SkipSpace(tail);
    if equals == [] || equals[0] != '=' then None else Some(SkipSpace(equals[1..]))
  }

  predicate SuffixOf(r: string, s: string) {
    |r| <= |s| && r == s[|s| - |r|..]
  }

  lemma NameSuffix(line: string)
    requires AfterName(line).Some?
    ensures SuffixOf(AfterName(line).value, line)
  {
    hide TrimLeft;
    var named := SkipSpace(line);
    TrimLeftIs(JsSpace, line);
    SuffixOfSuffix(line, named, named[|ENDPOINT|..]);
  }

  lemma EqualsSuffix(tail: string)
    requires AfterEquals(tail).Some?
    ensures SuffixOf(AfterEquals(tail).value, tail)
  {
    hide TrimLeft;
    var equals := SkipSpace(tail);
    TrimLeftIs(JsSpace, tail);
    TrimLeftIs(JsSpace, equals[1..]);
    SuffixOfSuffix(tail, equals, equals[1..]);
    SuffixOfSuffix(tail, equals[1..], SkipSpace(equals[1..]));
  }

  /** What follows the equals sign of an Endpoint field and the white space after it. */
  function FieldTail(line: string): Option<string> {
    match AfterName(line)
    case None => None
    case Some(tail) => AfterEquals(tail)
  }

  lemma FieldTailSuffix(line: string)
    ensures var r := FieldTail(line); r.Some? ==> |r.value| <= |line| && r.value == line[|line| - |r.value|..]
  {
    hide AfterName, AfterEquals;
    if AfterName(line).Some? && FieldTail(line).Some? {
      NameSuffix(line);
      EqualsSuffix(AfterName(line).value);
      SuffixOfSuffix(line, AfterName(line).value, FieldTail(line).value);
    }
  }

  function FieldMatch(line: string): Option<Parts> {
    match FieldTail(line)
    case None => None
    case Some(rest) =>
      FieldTailSuffix(line);
      SplitValue(line[..|line| - |rest|], rest)
  }

  // The scan -----------------------------------------------------------------------------------------

  datatype Scan = Scan(peers: nat, inPeer: bool, count: nat)

  const START := Scan(0, false, 0)

  function ScanStep(st: Scan, line: string): Scan {
    var section := SectionMatch(line);
    if section.Some? then
      if JsLower(section.value) == "peer" then Scan(st.peers + 1, true, st.count) else Scan(st.peers, false, st.count)
    else if st.inPeer && FieldMatch(line).Some? then st.(count := st.count + 1)
    else st
  }

  /** Whether this line's value is the one to replace. */
  predicate Rewrites(st: Scan, line: string) {
    SectionMatch(line).None? && st.inPeer && FieldMatch(line).Some?
  }

  function NewLine(st: Scan, line: string, endpoint: string): string {
    if Rewrites(st, line) then FieldMatch(line).value.before + endpoint + FieldMatch(line).value.after else line
  }

  /** The text from here on, rewritten, and the state at its end. */
  function Rewritten(st: Scan, s: string, endpoint: string): (string, Scan)
    decreases |s|
  {
    if s == [] then ([], st)
    else if !InLine(s[0]) then
      var (text, last) := Rewritten(st, s[1..], endpoint);
      ([s[0]] + text, last)
    else
      var line := Run(s);
      var (text, last) := Rewritten(ScanStep(st, line), s[|line|..], endpoint);
      (NewLine(st, line, endpoint) + text, last)
  }

  datatype Address = Address(host: string, port: int)

  predicate ValidEndpoint(e: Address) {
    Octets(e.host).Some? && 1024 <= e.port <= 65535
  }

  lemma EndpointBounds(e: Address)
    requires ValidEndpoint(e)
    ensures Octets(e.host).Some? && 1024 <= e.port <= 65535
  {
  }

  function EndpointText(e: Address): string {
    e.host + [':'] + Integer(e.port)
  }

  predicate Supported(config: string) {
    var last := Rewritten(START, config, []).1;
    last.peers == 1 && last.count == 1
  }

  method WithRelayEndpoint(config: string, endpoint: Address) returns (result: Option<string>)
    ensures result.Some? <==> ValidEndpoint(endpoint) && Supported(config)
    ensures result.Some? ==> Octets(endpoint.host).Some? && 1024 <= endpoint.port <= 65535
    ensures result.Some? ==> result.value == Rewritten(START, config, EndpointText(endpoint)).0
  {
    hide SectionMatch, FieldMatch, ValidEndpoint, EndpointText;
    if !ValidEndpoint(endpoint) { return None; }
    EndpointBounds(endpoint);
    var peerCount, inPeer, count := 0, false, 0;
    var text, rest := "", config;
    ghost var e := EndpointText(endpoint);
    while rest != []
      invariant peerCount >= 0 && count >= 0
      invariant Rewritten(START, config, e).1 == Rewritten(Scan(peerCount, inPeer, count), rest, e).1
      invariant Rewritten(START, config, e).0 == text + Rewritten(Scan(peerCount, inPeer, count), rest, e).0
      decreases |rest|
    {
      ghost var st := Scan(peerCount, inPeer, count);
      if !InLine(rest[0]) {
        Assoc(text, [rest[0]], Rewritten(st, rest[1..], e).0);
        text := text + [rest[0]];
        rest := rest[1..];
        continue;
      }
      var line := Run(rest);
      Assoc(text, NewLine(st, line, e), Rewritten(ScanStep(st, line), rest[|line|..], e).0);
      rest := rest[|line|..];
      var section := SectionMatch(line);
      if section.Some? {
        inPeer := JsLower(section.value) == "peer";
        if inPeer { peerCount := peerCount + 1; }
        text := text + line;
        continue;
      }
      if !inPeer {
        text := text + line;
        continue;
      }
      var field := FieldMatch(line);
      if field.None? {
        text := text + line;
        continue;
      }
      count := count + 1;
      text := text + (field.value.before + EndpointText(endpoint) + field.value.after);
    }
    assert text + [] == text;
    SameScan(START, config, e, []);
    if peerCount != 1 || count != 1 { return None; }
    return Some(text);
  }

  lemma {:induction false} SameScan(st: Scan, s: string, e: string, f: string)
    ensures Rewritten(st, s, e).1 == Rewritten(st, s, f).1
    decreases |s|
  {
    hide ScanStep, NewLine;
    if s != [] {
      if InLine(s[0]) {
        SameScan(ScanStep(st, Run(s)), s[|Run(s)|..], e, f);
      } else {
        SameScan(st, s[1..], e, f);
      }
    }
  }

  // What changes -----------------------------------------------------------------------------------

  lemma FieldParts(line: string)
    requires FieldMatch(line).Some?
    ensures var p := FieldMatch(line).value; line == p.before + p.value + p.after
  {
    hide FieldTail, SplitValue;
    var rest := FieldTail(line).value;
    FieldTailSuffix(line);
    ValueParts(line[..|line| - |rest|], rest);
    assert line == line[..|line| - |rest|] + rest;
  }

  lemma ValueParts(before: string, rest: string)
    requires SplitValue(before, rest).Some?
    ensures var p := SplitValue(before, rest).value; p.before == before && p.before + p.value + p.after == before + rest
  {
  }

  lemma CountRises(st: Scan, line: string)
    ensures ScanStep(st, line).count == st.count + if Rewrites(st, line) then 1 else 0
  {
  }

  lemma RewrittenLine(st: Scan, s: string, e: string)
    requires s != [] && InLine(s[0])
    ensures var line := Run(s); var (text, last) := Rewritten(ScanStep(st, line), s[|line|..], e);
      Rewritten(st, s, e) == (NewLine(st, line, e) + text, last)
  {
    hide ScanStep, NewLine;
  }

  lemma RewrittenEnd(st: Scan, s: string, e: string)
    requires s != [] && !InLine(s[0])
    ensures var (text, last) := Rewritten(st, s[1..], e); Rewritten(st, s, e) == ([s[0]] + text, last)
  {
  }

  /** Only this stretch of the text changes, whatever it is replaced by. */
  ghost predicate Span(st: Scan, s: string, before: string, value: string, after: string) {
    s == before + value + after && forall e :: Rewritten(st, s, e).0 == before + e + after
  }

  ghost predicate Untouched(st: Scan, s: string) {
    forall e :: Rewritten(st, s, e).0 == s
  }

  lemma SpanEnd(st: Scan, s: string, before: string, value: string, after: string)
    requires s != [] && !InLine(s[0])
    ensures Span(st, s[1..], before, value, after) ==> Span(st, s, [s[0]] + before, value, after)
    ensures Untouched(st, s[1..]) ==> Untouched(st, s)
  {
    hide Rewritten;
    assert s == [s[0]] + s[1..];
    if Span(st, s[1..], before, value, after) {
      forall e ensures Rewritten(st, s, e).0 == [s[0]] + before + e + after {
        RewrittenEnd(st, s, e);
      }
    }
    if Untouched(st, s[1..]) {
      forall e ensures Rewritten(st, s, e).0 == s { RewrittenEnd(st, s, e); }
    }
  }

  lemma Regroup(a: string, b: string, c: string, d: string)
    ensures a + (b + c + d) == (a + b) + c + d
  {
  }

  lemma SpanLine(st: Scan, s: string, before: string, value: string, after: string)
    requires s != [] && InLine(s[0]) && !Rewrites(st, Run(s))
    requires Span(ScanStep(st, Run(s)), s[|Run(s)|..], before, value, after)
    ensures Span(st, s, Run(s) + before, value, after)
  {
    hide Rewritten, ScanStep, Rewrites, InLine, Run;
    var line, rest := Run(s), s[|Run(s)|..];
    assert s == line + rest;
    forall e ensures Rewritten(st, s, e).0 == (line + before) + e + after {
      RewrittenLine(st, s, e);
      Regroup(line, before, e, after);
    }
    Regroup(line, before, value, after);
  }

  lemma UntouchedLine(st: Scan, s: string)
    requires s != [] && InLine(s[0]) && !Rewrites(st, Run(s)) && Untouched(ScanStep(st, Run(s)), s[|Run(s)|..])
    ensures Untouched(st, s)
  {
    hide Rewritten, ScanStep, Rewrites, InLine, Run;
    assert s == Run(s) + s[|Run(s)|..];
    forall e ensures Rewritten(st, s, e).0 == s { RewrittenLine(st, s, e); }
  }

  lemma SpanHere(st: Scan, s: string) returns (p: Parts)
    requires s != [] && InLine(s[0]) && Rewrites(st, Run(s)) && Untouched(ScanStep(st, Run(s)), s[|Run(s)|..])
    ensures Span(st, s, p.before, p.value, p.after)
  {
    hide Rewritten, ScanStep, FieldMatch, SectionMatch, InLine, Run;
    var line, rest := Run(s), s[|Run(s)|..];
    assert s == line + rest;
    FieldParts(line);
    var m := FieldMatch(line).value;
    p := Parts(m.before, m.value, m.after + rest);
    Assoc(m.before + m.value, m.after, rest);
    forall e ensures Rewritten(st, s, e).0 == p.before + e + p.after {
      RewrittenLine(st, s, e);
      Assoc(m.before + e, m.after, rest);
    }
  }

  /** A scan that counts one field replaces one stretch of text; a scan that counts none replaces nothing. */
  lemma {:induction false} OneSpan(st: Scan, s: string) returns (p: Parts)
    requires Rewritten(st, s, []).1.count <= st.count + 1
    ensures Rewritten(st, s, []).1.count == st.count ==> Untouched(st, s)
    ensures Rewritten(st, s, []).1.count == st.count + 1 ==> Span(st, s, p.before, p.value, p.after)
    decreases |s|
  {
    hide Rewritten, ScanStep, Rewrites, Span, Untouched;
    p := Parts([], [], []);
    if s == [] {
      NothingLeft(st);
    } else if !InLine(s[0]) {
      RewrittenEnd(st, s, []);
      p := OneSpan(st, s[1..]);
      SpanEnd(st, s, p.before, p.value, p.after);
      p := p.(before := [s[0]] + p.before);
    } else {
      var line, rest := Run(s), s[|Run(s)|..];
      RewrittenLine(st, s, []);
      CountRises(st, line);
      CountsUp(ScanStep(st, line), rest);
      p := OneSpan(ScanStep(st, line), rest);
      if Rewrites(st, line) {
        p := SpanHere(st, s);
      } else if Untouched(ScanStep(st, line), rest) {
        UntouchedLine(st, s);
        if Span(ScanStep(st, line), rest, p.before, p.value, p.after) {
          SpanLine(st, s, p.before, p.value, p.after);
        }
        p := p.(before := line + p.before);
      } else {
        SpanLine(st, s, p.before, p.value, p.after);
        p := p.(before := line + p.before);
      }
    }
  }

  lemma NothingLeft(st: Scan)
    ensures Untouched(st, []) && Rewritten(st, [], []).1 == st
  {
  }

  lemma {:induction false} CountsUp(st: Scan, s: string)
    ensures Rewritten(st, s, []).1.count >= st.count
    decreases |s|
  {
    hide ScanStep;
    if s != [] {
      if InLine(s[0]) {
        CountRises(st, Run(s));
        CountsUp(ScanStep(st, Run(s)), s[|Run(s)|..]);
      } else {
        CountsUp(st, s[1..]);
      }
    }
  }

  /** On every supported text only one value changes, and always the same one. */
  lemma OnlyTheValueChanges(config: string) returns (p: Parts)
    requires Supported(config)
    ensures Span(START, config, p.before, p.value, p.after)
  {
    hide Rewritten, Span;
    p := OneSpan(START, config);
  }

  // A second rewrite ---------------------------------------------------------------------------------

  predicate EndpointChar(c: char) {
    HostChar(c) || IsBracket(c)
  }

  predicate Written(e: string) {
    e != [] && All(EndpointChar, e)
  }

  lemma EndpointWritten(e: Address)
    requires ValidEndpoint(e)
    ensures Written(EndpointText(e))
  {
    hide Decimal, Octets;
    OctetChars(e.host);
    var digits := Decimal(e.port);
    assert forall i :: 0 <= i < |digits| ==> IsDigit(digits[i]);
  }

  lemma EndpointName()
    ensures !JsSpace(ENDPOINT[0]) && ENDPOINT[0] != '[' && All(InLine, ENDPOINT)
  {
  }

  lemma SkipPad(pad: string, r: string)
    requires All(JsSpace, pad) && StopsAt(JsSpace, r)
    ensures SkipSpace(pad + r) == r
  {
    TrimLeftPadded(JsSpace, pad, r);
  }

  /** The name of a field stays readable whatever follows it. */
  lemma NameKept(line: string, tail: string)
    requires AfterName(line).Some?
    ensures var k := |line| - |AfterName(line).value|;
      0 <= k <= |line| && AfterName(line[..k] + tail) == Some(tail) && SectionMatch(line[..k] + tail).None?
  {
    hide JsSpace, TrimLeft;
    var named := SkipSpace(line);
    TrimLeftIs(JsSpace, line);
    var pad := line[..|line| - |named|];
    var k := |line| - |AfterName(line).value|;
    EndpointName();
    var r := ENDPOINT + tail;
    assert line[..k] + tail == pad + r by {
      assert line == pad + named;
      assert named == ENDPOINT + named[|ENDPOINT|..];
    }
    assert r[0] == ENDPOINT[0] && r[..|ENDPOINT|] == ENDPOINT && r[|ENDPOINT|..] == tail;
    SkipPad(pad, r);
  }

  lemma EqualsOf(pad: string, gap: string, rest: string)
    requires All(JsSpace, pad) && All(JsSpace, gap) && StopsAt(JsSpace, rest)
    ensures AfterEquals(pad + (['='] + (gap + rest))) == Some(rest)
  {
    hide JsSpace, TrimLeft;
    var r := ['='] + (gap + rest);
    EqualsNotSpace();
    SkipPad(pad, r);
    assert r[1..] == gap + rest;
    SkipPad(gap, rest);
  }

  lemma EqualsAt(tail: string) returns (i: nat, k: nat)
    requires AfterEquals(tail).Some?
    ensures i < k <= |tail| && tail[i] == '=' && k == |tail| - |AfterEquals(tail).value|
    ensures All(JsSpace, tail[..i]) && All(JsSpace, tail[i..][1..][..k - i - 1])
  {
    hide JsSpace, TrimLeft;
    var equals := SkipSpace(tail);
    var value := SkipSpace(equals[1..]);
    TrimLeftIs(JsSpace, tail);
    TrimLeftIs(JsSpace, equals[1..]);
    i, k := |tail| - |equals|, |tail| - |value|;
    assert equals == tail[i..];
  }

  lemma EqualsKept(tail: string, rest: string)
    requires AfterEquals(tail).Some? && StopsAt(JsSpace, rest)
    ensures var k := |tail| - |AfterEquals(tail).value|; 0 <= k <= |tail| && AfterEquals(tail[..k] + rest) == Some(rest)
  {
    hide AfterEquals, JsSpace, All;
    var i, k := EqualsAt(tail);
    EqualsSplit(tail, i, k, rest);
    EqualsOf(tail[..i], tail[i..][1..][..k - i - 1], rest);
  }

  lemma EqualsSplit(tail: string, i: nat, k: nat, rest: string)
    requires i < k <= |tail| && tail[i] == '='
    ensures tail[..k] + rest == tail[..i] + (['='] + (tail[i..][1..][..k - i - 1] + rest))
  {
  }

  lemma TakeTwice(s: string, j: nat, m: nat)
    requires j + m <= |s|
    ensures s[..j] + s[j..][..m] == s[..j + m]
  {
  }

  lemma TailKept(line: string, rest: string)
    requires FieldTail(line).Some? && StopsAt(JsSpace, rest)
    ensures var k := |line| - |FieldTail(line).value|;
      0 <= k <= |line| && FieldTail(line[..k] + rest) == Some(rest) && SectionMatch(line[..k] + rest).None?
  {
    hide AfterName, AfterEquals, SectionMatch, JsSpace;
    FieldTailSuffix(line);
    NameSuffix(line);
    var tail := AfterName(line).value;
    EqualsSuffix(tail);
    var j, m := |line| - |tail|, |tail| - |AfterEquals(tail).value|;
    EqualsKept(tail, rest);
    NameKept(line, tail[..m] + rest);
    TakeTwice(line, j, m);
    Assoc(line[..j], tail[..m], rest);
  }

  lemma {:induction false} CommentAfter(a: string, b: string)
    requires '#' !in a && ';' !in a
    ensures CommentAt(a + b) == |a| + CommentAt(b)
  {
    if a == [] {
      assert a + b == b;
    } else {
      assert (a + b)[1..] == a[1..] + b;
      CommentAfter(a[1..], b);
    }
  }

  lemma WrittenNoSpace(e: string)
    requires Written(e)
    ensures StopsAt(JsSpace, e) && TrimRight(JsSpace, e) == e && All(InLine, e) && '#' !in e && ';' !in e
  {
    assert forall i :: 0 <= i < |e| ==> EndpointChar(e[i]);
    assert !JsSpace(e[0]) && !JsSpace(e[|e| - 1]);
  }

  /** A value, white space, and the end or a comment. */
  lemma SplitOf(before: string, value: string, gap: string, tail: string)
    requires '#' !in value && ';' !in value && TrimRight(JsSpace, value) == value && All(JsSpace, gap)
    requires tail == [] || ((tail[0] == '#' || tail[0] == ';') && All(DotMatches, tail[1..]))
    ensures SplitValue(before, value + (gap + tail)) == Some(Parts(before, value, gap + tail))
  {
    hide *;
    var rest, k := value + (gap + tail), |value| + |gap|;
    SpaceIsNoComment(gap);
    NoCommentYet(tail);
    CommentAfter(gap, tail);
    CommentAfter(value, gap + tail);
    TrimRightPadded(JsSpace, value, gap);
    assert rest[..k] == value + gap;
    assert rest[|value|..] == gap + tail;
    if tail != [] { assert rest[k + 1..] == tail[1..]; }
    SplitValueIs(before, rest, k, value);
  }

  lemma SplitValueIs(before: string, rest: string, k: nat, value: string)
    requires CommentAt(rest) == k <= |rest| && TrimRight(JsSpace, rest[..k]) == value && |value| <= |rest|
    requires k < |rest| ==> All(DotMatches, rest[k + 1..])
    ensures SplitValue(before, rest) == Some(Parts(before, value, rest[|value|..]))
  {
    hide CommentAt, TrimRight;
  }

  lemma SpaceIsNoComment(gap: string)
    requires All(JsSpace, gap)
    ensures '#' !in gap && ';' !in gap
  {
    assert !JsSpace('#') && !JsSpace(';');
  }

  lemma NoCommentYet(tail: string)
    requires tail == [] || tail[0] == '#' || tail[0] == ';'
    ensures CommentAt(tail) == 0
  {
  }

  lemma ValueKept(before: string, rest: string, e: string)
    requires SplitValue(before, rest).Some? && Written(e)
    ensures var p := SplitValue(before, rest).value; SplitValue(before, e + p.after) == Some(Parts(before, e, p.after))
  {
    hide JsSpace, EndpointChar, CommentAt, TrimRight, DotMatches;
    var p, i := SplitValue(before, rest).value, CommentAt(rest);
    TrimRightIs(JsSpace, rest[..i]);
    var gap := rest[..i][|p.value|..];
    assert p.after == gap + rest[i..];
    WrittenNoSpace(e);
    if i < |rest| { assert rest[i..][1..] == rest[i + 1..]; }
    SplitOf(before, e, gap, rest[i..]);
  }

  /** A rewritten line is read as the same field, with the new value. */
  lemma LineAgain(st: Scan, line: string, e: string, f: string)
    requires Rewrites(st, line) && All(InLine, line) && Written(e)
    ensures var again := NewLine(st, line, e);
      && again != [] && All(InLine, again)
      && ScanStep(st, again) == ScanStep(st, line) && NewLine(st, again, f) == NewLine(st, line, f)
  {
    hide FieldTail, SplitValue, SectionMatch, EndpointChar, InLine;
    var rest := FieldTail(line).value;
    FieldTailSuffix(line);
    var k := |line| - |rest|;
    var p := FieldMatch(line).value;
    FieldParts(line);
    ValueParts(line[..k], rest);
    WrittenNoSpace(e);
    var next := e + p.after;
    assert next[0] == e[0];
    TailKept(line, next);
    ValueKept(line[..k], rest, e);
    var again := NewLine(st, line, e);
    assert again == line[..k] + next;
    assert again[..|again| - |next|] == line[..k];
    forall i | 0 <= i < |again| ensures InLine(again[i]) {
      if i < |p.before| {
        assert again[i] == line[i];
      } else if i >= |p.before| + |e| {
        assert again[i] == line[i - |e| + |p.value|];
      } else {
        assert again[i] == e[i - |p.before|];
      }
    }
  }

  lemma RunOf(line: string, rest: string)
    requires All(InLine, line) && StopsAt(InLine, rest)
    ensures Run(line + rest) == line
  {
    var r, s := Run(line + rest), line + rest;
    assert r + s[|r|..] == line + rest;
    SplitUnique(InLine, r, line, s[|r|..], rest);
  }

  lemma EndsKept(st: Scan, s: string, e: string)
    requires StopsAt(InLine, s)
    ensures StopsAt(InLine, Rewritten(st, s, e).0)
  {
  }

  /** Rewriting a rewritten text is rewriting the original: the second value overrides the first. */
  lemma {:induction false} SecondOverrides(st: Scan, s: string, e: string, f: string)
    requires Written(e)
    ensures Rewritten(st, Rewritten(st, s, e).0, f) == Rewritten(st, s, f)
    decreases |s|
  {
    hide Rewritten, ScanStep, Written, NewLine, InLine, Rewrites;
    if s == [] {
      RewrittenNothing(st, e);
    } else if !InLine(s[0]) {
      var next := Rewritten(st, s[1..], e).0;
      SecondOverrides(st, s[1..], e, f);
      RewrittenEnd(st, s, e);
      RewrittenEnd(st, s, f);
      assert ([s[0]] + next)[1..] == next;
      RewrittenEnd(st, [s[0]] + next, f);
    } else {
      var line, rest := Run(s), s[|Run(s)|..];
      var after := ScanStep(st, line);
      var next, again := Rewritten(after, rest, e).0, NewLine(st, line, e);
      SecondOverrides(after, rest, e, f);
      RewrittenLine(st, s, e);
      RewrittenLine(st, s, f);
      assert line != [] by { assert InLine(s[0]); }
      if Rewrites(st, line) {
        LineAgain(st, line, e, f);
      } else {
        PlainLine(st, line, e);
        PlainLine(st, line, f);
      }
      EndsKept(after, rest, e);
      RunOf(again, next);
      assert (again + next)[0] == again[0] && (again + next)[|again|..] == next;
      RewrittenLine(st, again + next, f);
    }
  }

  lemma PlainLine(st: Scan, line: string, e: string)
    requires !Rewrites(st, line)
    ensures NewLine(st, line, e) == line
  {
  }

  lemma RewrittenNothing(st: Scan, e: string)
    ensures Rewritten(st, [], e) == ([], st)
  {
  }

  /** A supported text stays supported, and a second rewrite gives what it would have given alone. */
  lemma RewriteTwice(config: string, first: Address, second: Address)
    requires Supported(config) && ValidEndpoint(first)
    ensures var once := Rewritten(START, config, EndpointText(first)).0;
      Supported(once)
        && Rewritten(START, once, EndpointText(second)).0 == Rewritten(START, config, EndpointText(second)).0
  {
    hide Rewritten, ValidEndpoint, EndpointText;
    EndpointWritten(first);
    var once := Rewritten(START, config, EndpointText(first)).0;
    SecondOverrides(START, config, EndpointText(first), EndpointText(second));
    SecondOverrides(START, config, EndpointText(first), []);
  }

  // The configuration the helper builds is supported -------------------------------------------------

  function LineScan(st: Scan, l: Line): Scan {
    if LineText(l) == [] then st else ScanStep(st, LineText(l))
  }

  function LineNew(st: Scan, l: Line, e: string): string {
    if LineText(l) == [] then [] else NewLine(st, LineText(l), e)
  }

  lemma OneLine(st: Scan, l: Line, rest: string, e: string)
    requires All(InLine, LineText(l))
    ensures var (text, last) := Rewritten(LineScan(st, l), rest, e);
      Rewritten(st, LineText(l) + ['\n'] + rest, e) == (LineNew(st, l, e) + ['\n'] + text, last)
  {
    hide Rewritten, ScanStep, NewLine, LineText;
    var line, next := LineText(l), ['\n'] + rest;
    var s := line + ['\n'] + rest;
    assert next[1..] == rest && !InLine(next[0]);
    assert s == line + next;
    var after := LineScan(st, l);
    var (text, last) := Rewritten(after, rest, e);
    RewrittenEnd(after, next, e);
    if line == [] {
      assert s == next;
    } else {
      RunOf(line, next);
      assert s[0] == line[0] && s[|line|..] == next;
      RewrittenLine(st, s, e);
      Assoc(NewLine(st, line, e), ['\n'], text);
    }
  }

  lemma HeadScan(st: Scan, name: string)
    requires CleanName(name)
    ensures LineScan(st, Head(name)) ==
      if JsLower(name) == "peer" then Scan(st.peers + 1, true, st.count) else Scan(st.peers, false, st.count)
    ensures forall e :: LineNew(st, Head(name), e) == LineText(Head(name))
  {
    hide JsLower, JsSpace;
    var line := LineText(Head(name));
    EqualsNotSpace();
    assert line[0] == '[';
    assert SkipSpace(line) == line;
    assert line == (['['] + name) + [']'] + [];
    IndexOfAt(['['] + name, ']', []);
    assert line[|name| + 2..] == [] && line[1..|name| + 1] == name;
    assert SkipSpace([]) == [];
    assert SectionMatch(line) == Some(name);
  }

  /** A field line is no header, and outside the peer section it stays as it is. */
  lemma FieldScan(st: Scan, key: string, value: string)
    requires CleanKey(key) && (!st.inPeer || key[0] != ENDPOINT[0])
    ensures LineScan(st, Field(key, value)) == st
    ensures forall e :: LineNew(st, Field(key, value), e) == LineText(Field(key, value))
  {
    hide JsSpace, CommentAt, TrimRight;
    var line := LineText(Field(key, value));
    assert line[0] == key[0];
    assert SkipSpace(line) == line;
    assert SectionMatch(line).None?;
    if key[0] != ENDPOINT[0] {
      assert AfterName(line).None?;
    }
  }

  lemma EndpointTail(value: string)
    requires Written(value)
    ensures var line := LineText(Field(ENDPOINT, value)); FieldTail(line) == Some(value) && SectionMatch(line).None?
  {
    hide JsSpace, EndpointChar, AfterEquals;
    var line, tail := LineText(Field(ENDPOINT, value)), [' '] + (['='] + ([' '] + value));
    assert line == ENDPOINT + tail;
    EndpointName();
    assert line[0] == ENDPOINT[0] && line[..|ENDPOINT|] == ENDPOINT && line[|ENDPOINT|..] == tail;
    assert SkipSpace(line) == line;
    WrittenNoSpace(value);
    EqualsNotSpace();
    EqualsOf([' '], [' '], value);
  }

  lemma EndpointField(value: string)
    requires Written(value)
    ensures var line := LineText(Field(ENDPOINT, value));
      FieldMatch(line) == Some(Parts(ENDPOINT + [' ', '=', ' '], value, [])) && SectionMatch(line).None?
  {
    hide FieldTail, SectionMatch, SplitValue, EndpointChar;
    var line := LineText(Field(ENDPOINT, value));
    EndpointTail(value);
    WrittenNoSpace(value);
    assert line[..|line| - |value|] == ENDPOINT + [' ', '=', ' '];
    SplitOf(ENDPOINT + [' ', '=', ' '], value, [], []);
    assert value + ([] + []) == value;
  }

  lemma EndpointScan(st: Scan, value: string)
    requires st.inPeer && Written(value)
    ensures LineScan(st, Field(ENDPOINT, value)) == st.(count := st.count + 1)
    ensures forall e :: LineNew(st, Field(ENDPOINT, value), e) == LineText(Field(ENDPOINT, e))
  {
    hide FieldMatch, SectionMatch;
    EndpointField(value);
    forall e ensures LineNew(st, Field(ENDPOINT, value), e) == LineText(Field(ENDPOINT, e)) {
      assert ENDPOINT + [' ', '=', ' '] + e + [] == LineText(Field(ENDPOINT, e));
    }
  }

  lemma CleanInLine(l: Line)
    requires CleanLine(l) && (l.Head? ==> '\r' !in l.name)
    ensures All(InLine, LineText(l))
  {
    hide JsSpace;
  }

  lemma WriteCons(l: Line, rest: seq<Line>)
    ensures Write([l] + rest) == LineText(l) + ['\n'] + Write(rest)
  {
    hide LineText;
    assert ([l] + rest)[1..] == rest;
  }

  predicate FieldsOnly(lines: seq<Line>) {
    forall l :: l in lines ==> l.Field? && CleanLine(l)
  }

  /** Fields that are not in a peer section, or cannot be endpoints, are copied. */
  lemma {:induction false} CopiesFields(st: Scan, lines: seq<Line>, rest: string, e: string)
    requires FieldsOnly(lines) && (!st.inPeer || forall l :: l in lines ==> l.Field? && l.key[0] != ENDPOINT[0])
    ensures Rewritten(st, Write(lines) + rest, e) == (Write(lines) + Rewritten(st, rest, e).0, Rewritten(st, rest, e).1)
  {
    hide Rewritten, CleanKey, CleanValue, LineText, LineScan, LineNew;
    if lines == [] {
      assert Write([]) + rest == rest;
      assert Write([]) + Rewritten(st, rest, e).0 == Rewritten(st, rest, e).0;
    } else {
      var l, more := lines[0], lines[1..];
      assert l in lines && lines == [l] + more;
      WriteCons(l, more);
      CopiesFields(st, more, rest, e);
      CleanInLine(l);
      Assoc(LineText(l) + ['\n'], Write(more), rest);
      OneLine(st, l, Write(more) + rest, e);
      FieldScan(st, l.key, l.value);
      assert LineNew(st, l, e) == LineText(l);
      Assoc(LineText(l) + ['\n'], Write(more), Rewritten(st, rest, e).0);
    }
  }

  lemma EndpointLine(st: Scan, value: string, rest: string, e: string)
    requires st.inPeer && Written(value)
    ensures var (text, last) := Rewritten(st.(count := st.count + 1), rest, e);
      Rewritten(st, LineText(Field(ENDPOINT, value)) + ['\n'] + rest, e) ==
        (LineText(Field(ENDPOINT, e)) + ['\n'] + text, last)
  {
    hide Rewritten, LineScan, LineNew, CleanKey, LineText;
    PeerNames();
    WrittenNoSpace(value);
    assert CleanValue(value);
    CleanInLine(Field(ENDPOINT, value));
    OneLine(st, Field(ENDPOINT, value), rest, e);
    EndpointScan(st, value);
    assert LineNew(st, Field(ENDPOINT, value), e) == LineText(Field(ENDPOINT, e));
  }

  lemma HeadLine(st: Scan, name: string, rest: string, e: string)
    requires CleanName(name) && '\r' !in name
    ensures var next := if JsLower(name) == "peer" then Scan(st.peers + 1, true, st.count)
      else Scan(st.peers, false, st.count);
      Rewritten(st, LineText(Head(name)) + ['\n'] + rest, e) ==
      (LineText(Head(name)) + ['\n'] + Rewritten(next, rest, e).0, Rewritten(next, rest, e).1)
  {
    hide Rewritten, LineScan, LineNew, CleanName, LineText, JsLower;
    CleanInLine(Head(name));
    OneLine(st, Head(name), rest, e);
    HeadScan(st, name);
    assert LineNew(st, Head(name), e) == LineText(Head(name));
  }

  lemma BlankLine(st: Scan, rest: string, e: string)
    ensures Rewritten(st, ['\n'] + rest, e) == (['\n'] + Rewritten(st, rest, e).0, Rewritten(st, rest, e).1)
  {
    hide Rewritten;
    assert (['\n'] + rest)[1..] == rest;
    RewrittenEnd(st, ['\n'] + rest, e);
  }

  lemma LetterHeads()
    ensures "PublicKey"[0] != ENDPOINT[0] && "AllowedIPs"[0] != ENDPOINT[0] && "PersistentKeepalive"[0] != ENDPOINT[0]
    ensures '\r' !in "Interface" && '\r' !in "Peer"
  {
  }

  lemma RestOfPeer(server: Server, rest: string, e: string, st: Scan)
    requires st.inPeer
    ensures var lines := [Field("AllowedIPs", AllowedIps(server)), Field("PersistentKeepalive", "25")];
      Rewritten(st, Write(lines) + rest, e) == (Write(lines) + Rewritten(st, rest, e).0, Rewritten(st, rest, e).1)
  {
    hide Rewritten, CleanKey, CleanValue, Write, AllowedIps;
    PeerNames();
    LiteralsClean(server);
    LetterHeads();
    CopiesFields(st, [Field("AllowedIPs", AllowedIps(server)), Field("PersistentKeepalive", "25")], rest, e);
  }

  /** Rewriting the peer section of a built configuration replaces its endpoint. */
  lemma PeerRewritten(server: Server, previous: string, e: string, st: Scan)
    requires st.inPeer && Written(previous) && CleanValue(server.publicKey)
    ensures Rewritten(st, Write(PeerFields(server, previous)), e) ==
      (Write(PeerFields(server, e)), st.(count := st.count + 1))
  {
    hide Rewritten, CleanKey, CleanValue, LineText, AllowedIps, Written;
    PeerNames();
    LetterHeads();
    var last := [Field("AllowedIPs", AllowedIps(server)), Field("PersistentKeepalive", "25")];
    var first := [Field("PublicKey", server.publicKey)];
    var counted := st.(count := st.count + 1);
    assert PeerFields(server, previous) == first + ([Field(ENDPOINT, previous)] + last);
    assert PeerFields(server, e) == first + ([Field(ENDPOINT, e)] + last);
    WriteAppend(first, [Field(ENDPOINT, previous)] + last);
    WriteAppend(first, [Field(ENDPOINT, e)] + last);
    WriteCons(Field(ENDPOINT, previous), last);
    WriteCons(Field(ENDPOINT, e), last);
    CopiesFields(st, first, LineText(Field(ENDPOINT, previous)) + ['\n'] + Write(last), e);
    EndpointLine(st, previous, Write(last), e);
    RestOfPeer(server, [], e, counted);
    RewrittenNothing(counted, e);
    assert Write(last) + [] == Write(last);
  }

  /**
   * The configuration the helper builds is always supported, and pointing it at a relay gives the configuration the
   * helper would have built for that endpoint.
   */
  lemma BuiltRewritten(server: Server, keys: seq<string>, privateKey: string, address: string, endpoint: string,
    e: string)
    requires SortedKeys(keys, server) && CleanServer(server) && Written(endpoint)
    requires CleanValue(privateKey) && CleanValue(address) && CleanValue(server.publicKey)
    ensures Supported(ClientText(server, keys, privateKey, address, endpoint))
    ensures Rewritten(START, ClientText(server, keys, privateKey, address, endpoint), e).0 ==
      ClientText(server, keys, privateKey, address, e)
  {
    hide Rewritten, CleanKey, CleanValue, Write, PeerFields, InterfaceFields, SortedBy, Written, LineText;
    BuiltScan(server, keys, privateKey, address, endpoint, e);
    BuiltScan(server, keys, privateKey, address, endpoint, []);
  }

  lemma BuiltScan(server: Server, keys: seq<string>, privateKey: string, address: string, endpoint: string, e: string)
    requires SortedKeys(keys, server) && CleanServer(server) && Written(endpoint)
    requires CleanValue(privateKey) && CleanValue(address) && CleanValue(server.publicKey)
    ensures Rewritten(START, ClientText(server, keys, privateKey, address, endpoint), e) ==
      (ClientText(server, keys, privateKey, address, e), Scan(1, true, 1))
  {
    hide Rewritten, CleanKey, CleanValue, PeerFields, InterfaceFields, SortedBy, Written, LineText, JsLower;
    var fields := InterfaceFields(server, privateKey, address) + FieldLines(keys, server.fields);
    InterfaceFieldsOnly(server, keys, privateKey, address);
    TextParts(server, keys, privateKey, address, endpoint);
    TextParts(server, keys, privateKey, address, e);
    OwnNames();
    PeerNames();
    LetterHeads();
    SectionNames();
    InterfaceNotPeer();
    var quiet, peer := Scan(0, false, 0), Scan(1, true, 0);
    var head := LineText(Head("Peer")) + ['\n'] + Write(PeerFields(server, endpoint));
    PeerRewritten(server, endpoint, e, peer);
    HeadLine(quiet, "Peer", Write(PeerFields(server, endpoint)), e);
    BlankLine(quiet, head, e);
    CopiesFields(quiet, fields, ['\n'] + head, e);
    HeadLine(START, "Interface", Write(fields) + (['\n'] + head), e);
  }

  lemma InterfaceFieldsOnly(server: Server, keys: seq<string>, privateKey: string, address: string)
    requires SortedKeys(keys, server) && CleanServer(server) && CleanValue(privateKey) && CleanValue(address)
    ensures FieldsOnly(InterfaceFields(server, privateKey, address) + FieldLines(keys, server.fields))
  {
    hide CleanKey, CleanValue, SortedBy;
    OwnNames();
    LiteralsClean(server);
    FieldLinesClean(keys, server.fields);
    FieldLinesFields(keys, server.fields);
  }

  lemma {:induction false} FieldLinesFields(keys: seq<string>, fields: map<string, string>)
    requires forall k :: k in keys ==> k in fields
    ensures forall l :: l in FieldLines(keys, fields) ==> l.Field?
  {
    if keys != [] { FieldLinesFields(keys[1..], fields); }
  }

  lemma TextParts(server: Server, keys: seq<string>, privateKey: string, address: string, endpoint: string)
    requires forall k :: k in keys ==> k in server.fields
    ensures ClientText(server, keys, privateKey, address, endpoint) ==
      LineText(Head("Interface")) + ['\n']
      + (Write(InterfaceFields(server, privateKey, address) + FieldLines(keys, server.fields))
      + (['\n'] + (LineText(Head("Peer")) + ['\n'] + Write(PeerFields(server, endpoint)))))
  {
    hide InterfaceFields, PeerFields, LineText, FieldLines;
    var own, more, peer := InterfaceFields(server, privateKey, address), FieldLines(keys, server.fields),
      PeerFields(server, endpoint);
    assert InterfaceLines(server, privateKey, address) + more + PeerLines(server, endpoint)
      == [Head("Interface")] + ((own + more) + ([Blank] + ([Head("Peer")] + peer)));
    WriteCons(Head("Interface"), (own + more) + ([Blank] + ([Head("Peer")] + peer)));
    WriteAppend(own + more, [Blank] + ([Head("Peer")] + peer));
    WriteCons(Blank, [Head("Peer")] + peer);
    WriteCons(Head("Peer"), peer);
    assert LineText(Blank) + ['\n'] == ['\n'] by { BlankText(); }
  }

  lemma BlankText()
    ensures LineText(Blank) == []
  {
  }

  lemma HostPortWritten(v6: string -> bool, host: string, port: int)
    requires ValidHost(v6, host) && V6Texts(v6) && port >= 1
    ensures Written(HostPort(host, port))
  {
    hide StripBrackets, Decimal, ValidHost;
    StripTwice(host);
    BareHost(v6, host);
    var bare, digits := StripBrackets(host), Decimal(port);
    assert forall i :: 0 <= i < |bare| ==> HostChar(bare[i]);
    assert forall i :: 0 <= i < |digits| ==> IsDigit(digits[i]);
  }

  /**
   * The whole pipeline, for every valid host and every client: the built configuration parses back to what was
   * written, its endpoint to the host and port, and it can be pointed at any relay, the last one given.
   */
  lemma ClientPipeline(v6: string -> bool, server: Server, keys: seq<string>, privateKey: string, address: string,
    host: string,
    first: Address, second: Address)
    requires V6Texts(v6) && ValidHost(v6, host) && 1 <= server.udpPort <= 65535
    requires SortedKeys(keys, server) && CleanServer(server)
    requires CleanValue(privateKey) && CleanValue(address) && CleanValue(server.publicKey)
    requires ValidEndpoint(first) && ValidEndpoint(second)
    ensures var text := ClientText(server, keys, privateKey, address, HostPort(host, server.udpPort));
      var n := NativeFrom(NOTHING, Split(text, '\n'));
      && "interface" in n.sections && InterfaceAsWritten(n.sections["interface"], server, privateKey, address)
      && "peer" in n.sections
      && n.sections["peer"].Keys == {"PublicKey", "Endpoint", "AllowedIPs", "PersistentKeepalive"}
      && EndpointParts(n.sections["peer"]["Endpoint"]) == Some((StripBrackets(host), server.udpPort))
      && Supported(text)
      && var once := Rewritten(START, text, EndpointText(first)).0;
      && once == ClientText(server, keys, privateKey, address, EndpointText(first))
      && Supported(once)
      && Rewritten(START, once, EndpointText(second)).0 ==
        ClientText(server, keys, privateKey, address, EndpointText(second))
  {
    hide *;
    PipelineText(v6, server, keys, privateKey, address, host);
    PipelineRewrites(v6, server, keys, privateKey, address, host, first, second);
  }

  lemma PipelineText(v6: string -> bool, server: Server, keys: seq<string>, privateKey: string, address: string,
    host: string)
    requires V6Texts(v6) && ValidHost(v6, host) && 1 <= server.udpPort <= 65535
    requires SortedKeys(keys, server) && CleanServer(server)
    requires CleanValue(privateKey) && CleanValue(address) && CleanValue(server.publicKey)
    ensures var text := ClientText(server, keys, privateKey, address, HostPort(host, server.udpPort));
      var n := NativeFrom(NOTHING, Split(text, '\n'));
      && "interface" in n.sections && InterfaceAsWritten(n.sections["interface"], server, privateKey, address)
      && "peer" in n.sections
      && n.sections["peer"].Keys == {"PublicKey", "Endpoint", "AllowedIPs", "PersistentKeepalive"}
      && EndpointParts(n.sections["peer"]["Endpoint"]) == Some((StripBrackets(host), server.udpPort))
  {
    hide NativeFrom, ClientText, EndpointParts, HostPort, StripBrackets, ValidHost, JsTrim, CleanValue,
      InterfaceAsWritten, SortedBy, Written, V6Texts;
    var endpoint := HostPort(host, server.udpPort);
    EndpointRoundTrip(v6, host, server.udpPort);
    HostPortWritten(v6, host, server.udpPort);
    WrittenTrim(endpoint);
    BuiltRoundTrip(server, keys, privateKey, address, endpoint);
  }

  lemma WrittenTrim(e: string)
    requires Written(e)
    ensures JsTrim(e) == e
  {
    hide JsSpace;
    WrittenNoSpace(e);
  }

  lemma PipelineRewrites(v6: string -> bool, server: Server, keys: seq<string>, privateKey: string, address: string,
    host: string,
    first: Address, second: Address)
    requires V6Texts(v6) && ValidHost(v6, host) && 1 <= server.udpPort <= 65535
    requires SortedKeys(keys, server) && CleanServer(server)
    requires CleanValue(privateKey) && CleanValue(address) && CleanValue(server.publicKey)
    requires ValidEndpoint(first) && ValidEndpoint(second)
    ensures var text := ClientText(server, keys, privateKey, address, HostPort(host, server.udpPort));
      && Supported(text)
      && var once := Rewritten(START, text, EndpointText(first)).0;
      && once == ClientText(server, keys, privateKey, address, EndpointText(first))
      && Supported(once)
      && Rewritten(START, once, EndpointText(second)).0 ==
        ClientText(server, keys, privateKey, address, EndpointText(second))
  {
    hide Rewritten, Supported, ClientText, HostPort, EndpointText, ValidEndpoint, ValidHost, V6Texts, CleanServer,
      CleanValue, Written, SortedBy;
    HostPortWritten(v6, host, server.udpPort);
    EndpointWritten(first);
    BuiltRewritten(server, keys, privateKey, address, HostPort(host, server.udpPort), EndpointText(first));
    BuiltRewritten(server, keys, privateKey, address, HostPort(host, server.udpPort), EndpointText(second));
    RewriteTwice(ClientText(server, keys, privateKey, address, HostPort(host, server.udpPort)), first, second);
  }

  // What the lines mean -------------------------------------------------------------------------------

  /** Nothing, or a comment up to the end of the line. */
  predicate IsComment(s: string) {
    s == [] || ((s[0] == '#' || s[0] == ';') && All(DotMatches, s[1..]))
  }

  /** White space, the name in brackets, white space, and perhaps a comment. */
  ghost predicate HeaderParts(line: string, pad: string, name: string, gap: string, comment: string) {
    && line == pad + ("[" + name + "]" + (gap + comment)) && All(JsSpace, pad) && All(JsSpace, gap)
    && name != [] && ']' !in name && IsComment(comment)
  }

  /** A header line, and the name in it, are these and no others. */
  lemma HeaderMeans(line: string, name: string)
    ensures SectionMatch(line) == Some(name) <==> exists pad, gap, comment :: HeaderParts(line, pad, name, gap, comment)
  {
    hide SectionMatch, HeaderParts;
    if SectionMatch(line) == Some(name) {
      var pad, gap, comment := HeaderRead(line, name);
    }
    if pad, gap, comment :| HeaderParts(line, pad, name, gap, comment) {
      HeaderFound(line, pad, name, gap, comment);
    }
  }

  lemma HeaderRead(line: string, name: string) returns (pad: string, gap: string, comment: string)
    requires SectionMatch(line) == Some(name)
    ensures HeaderParts(line, pad, name, gap, comment)
  {
    hide TrimLeft, JsSpace;
    var t := SkipSpace(line);
    var j := IndexOf(t, ']');
    TrimLeftIs(JsSpace, line);
    TrimLeftIs(JsSpace, t[j + 1..]);
    comment := SkipSpace(t[j + 1..]);
    pad, gap := line[..|line| - |t|], t[j + 1..][..|t[j + 1..]| - |comment|];
    assert t[j + 1..] == gap + comment;
    assert t == "[" + t[1..j] + "]" + t[j + 1..];
    assert line == pad + t;
  }

  lemma HeaderFound(line: string, pad: string, name: string, gap: string, comment: string)
    requires HeaderParts(line, pad, name, gap, comment)
    ensures SectionMatch(line) == Some(name)
  {
    hide TrimLeft, JsSpace, IndexOf;
    EqualsNotSpace();
    CommentNotSpace();
    var t := "[" + name + "]" + (gap + comment);
    SkipPad(pad, t);
    IndexOfAt("[" + name, ']', gap + comment);
    assert t == "[" + name + [']'] + (gap + comment);
    assert t[|name| + 2..] == gap + comment && t[1..|name| + 1] == name;
    SkipPad(gap, comment);
  }

  lemma CommentNotSpace()
    ensures !JsSpace('#') && !JsSpace(';')
  {
  }

  /** White space, the field's name, white space, an equals sign, white space. */
  ghost predicate BeforeValue(before: string, pad: string, gap: string, space: string) {
    && before == pad + (ENDPOINT + (gap + (['='] + space)))
    && All(JsSpace, pad) && All(JsSpace, gap) && All(JsSpace, space)
  }

  /** A value without comment signs, as short as can be after as much white space as can be, and what follows it. */
  ghost predicate AfterValue(p: Parts, end: string, comment: string) {
    && p.after == end + comment && All(JsSpace, end) && IsComment(comment)
    && '#' !in p.value && ';' !in p.value
    && StopsAt(JsSpace, p.value + p.after) && TrimRight(JsSpace, p.value) == p.value
  }

  /** A field line, and its parts, are these and no others. */
  lemma FieldMeans(line: string, p: Parts)
    ensures FieldMatch(line) == Some(p) <==>
      && line == p.before + (p.value + p.after)
      && (exists pad, gap, space :: BeforeValue(p.before, pad, gap, space))
      && exists end, comment :: AfterValue(p, end, comment)
  {
    hide FieldMatch, BeforeValue, AfterValue;
    if FieldMatch(line) == Some(p) {
      FieldRead(line, p);
    }
    if line == p.before + (p.value + p.after) {
      if pad, gap, space :| BeforeValue(p.before, pad, gap, space) {
        if end, comment :| AfterValue(p, end, comment) {
          FieldFound(line, p, pad, gap, space, end, comment);
        }
      }
    }
  }

  lemma FieldFound(line: string, p: Parts, pad: string, gap: string, space: string, end: string, comment: string)
    requires line == p.before + (p.value + p.after)
    requires BeforeValue(p.before, pad, gap, space) && AfterValue(p, end, comment)
    ensures FieldMatch(line) == Some(p)
  {
    hide JsSpace, TrimLeft, TrimRight, SplitValue, AfterName, AfterEquals, All;
    var rest := p.value + p.after;
    var tail := gap + (['='] + (space + rest));
    assert line == pad + (ENDPOINT + tail);
    NameFound(pad, tail);
    EqualsOf(gap, space, rest);
    assert line[..|line| - |rest|] == p.before;
    ValueFound(p, end, comment);
  }

  lemma NameFound(pad: string, tail: string)
    requires All(JsSpace, pad)
    ensures AfterName(pad + (ENDPOINT + tail)) == Some(tail)
  {
    hide JsSpace, TrimLeft, All;
    EndpointName();
    var r := ENDPOINT + tail;
    assert r[0] == ENDPOINT[0] && r[..|ENDPOINT|] == ENDPOINT && r[|ENDPOINT|..] == tail;
    SkipPad(pad, r);
  }

  lemma ValueFound(p: Parts, end: string, comment: string)
    requires AfterValue(p, end, comment)
    ensures SplitValue(p.before, p.value + p.after) == Some(p)
  {
    hide JsSpace, TrimRight, SplitValue, All;
    SplitOf(p.before, p.value, end, comment);
  }

  lemma FieldRead(line: string, p: Parts)
    requires FieldMatch(line) == Some(p)
    ensures line == p.before + (p.value + p.after)
    ensures exists pad, gap, space :: BeforeValue(p.before, pad, gap, space)
    ensures exists end, comment :: AfterValue(p, end, comment)
  {
    hide JsSpace, TrimLeft, TrimRight, SplitValue, AfterName, AfterEquals, AfterValue, BeforeValue;
    var tail := AfterName(line).value;
    var rest := AfterEquals(tail).value;
    FieldTailSuffix(line);
    var before := line[..|line| - |rest|];
    assert line == before + rest;
    var gap, space := EqualsRead(tail, rest);
    ValueRead(before, rest, p);
    var pad := NameRead(line, tail);
    BeforeRead(before, rest, pad, gap, space);
  }

  lemma BeforeRead(before: string, rest: string, pad: string, gap: string, space: string)
    requires before + rest == pad + (ENDPOINT + (gap + (['='] + (space + rest))))
    requires All(JsSpace, pad) && All(JsSpace, gap) && All(JsSpace, space)
    ensures BeforeValue(before, pad, gap, space)
  {
    hide All;
    var text := pad + (ENDPOINT + (gap + (['='] + space)));
    assert before + rest == text + rest;
    assert before == (before + rest)[..|before + rest| - |rest|] == text;
  }

  lemma NameRead(line: string, tail: string) returns (pad: string)
    requires AfterName(line) == Some(tail)
    ensures line == pad + (ENDPOINT + tail) && All(JsSpace, pad)
  {
    hide TrimLeft, JsSpace;
    var named := SkipSpace(line);
    TrimLeftIs(JsSpace, line);
    pad := line[..|line| - |named|];
    assert named == ENDPOINT + tail;
  }

  lemma EqualsRead(tail: string, rest: string) returns (gap: string, space: string)
    requires AfterEquals(tail) == Some(rest)
    ensures tail == gap + (['='] + (space + rest)) && All(JsSpace, gap) && All(JsSpace, space) && StopsAt(JsSpace, rest)
  {
    hide TrimLeft, JsSpace;
    var equals := SkipSpace(tail);
    TrimLeftIs(JsSpace, tail);
    TrimLeftIs(JsSpace, equals[1..]);
    gap, space := tail[..|tail| - |equals|], equals[1..][..|equals| - 1 - |rest|];
    assert equals == ['='] + (space + rest);
  }

  lemma ValueRead(before: string, rest: string, p: Parts)
    requires SplitValue(before, rest) == Some(p) && StopsAt(JsSpace, rest)
    ensures p.before == before && rest == p.value + p.after
    ensures exists end, comment :: AfterValue(p, end, comment)
  {
    hide JsSpace, CommentAt, TrimRight;
    var i := CommentAt(rest);
    TrimRightIs(JsSpace, rest[..i]);
    var end, comment := rest[..i][|p.value|..], rest[i..];
    assert rest == p.value + p.after;
    assert p.after == end + comment;
    assert i < |rest| ==> comment[1..] == rest[i + 1..];
    TrimmedTwice(rest[..i]);
    assert AfterValue(p, end, comment);
  }

  lemma TrimmedTwice(s: string)
    ensures TrimRight(JsSpace, TrimRight(JsSpace, s)) == TrimRight(JsSpace, s)
  {
    hide JsSpace;
    TrimRightIs(JsSpace, s);
  }
}
