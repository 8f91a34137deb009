/** Canonical JSON: the text that request hashes and route comparisons are taken of. */
module StableJson {
  import opened Text
  import opened Order

  /** Values as JSON.parse gives them; a number is its shortest text, which determines it. */
  datatype Json =
    | Null | Bool(value: bool) | Number(text: string) | Str(chars: string)
    | Array(items: Items) | Object(fields: Fields)

  datatype Items = NoItems | Item(head: Json, tail: Items)

  /** The properties of an object in the order they were added. */
  datatype Fields = NoFields | Field(key: string, value: Json, rest: Fields)

  predicate NumberChar(c: char) {
    IsDigit(c) || c in "-+.e"
  }

  predicate ProperNumber(s: string) {
    s != [] && All(NumberChar, s) && (IsDigit(s[0]) || s[0] == '-')
  }

  function Lookup(f: Fields, key: string): (r: Option<Json>)
    ensures r.Some? ==> r.value < f
  {
    match f
    case NoFields => None
    case Field(k, v, rest) => if k == key then Some(v) else Lookup(rest, key)
  }

  predicate Proper(v: Json) {
    match v
    case Number(text) => ProperNumber(text)
    case Array(items) => ProperItems(items)
    case Object(fields) => ProperFields(fields)
    case _ => true
  }

  predicate ProperItems(items: Items) {
    items.Item? ==> Proper(items.head) && ProperItems(items.tail)
  }

  /** No key occurs twice. */
  predicate ProperFields(f: Fields) {
    f.Field? ==> Proper(f.value) && Lookup(f.rest, f.key).None? && ProperFields(f.rest)
  }

  // Equal values -------------------------------------------------------------------------------------------------

  /** Equal up to the order of keys: the objects of section 4 of RFC 8259 are unordered. */
  ghost predicate Same(a: Json, b: Json) {
    if a.Array? && b.Array? then SameItems(a.items, b.items)
    else if a.Object? && b.Object? then forall key :: SameAt(a.fields, b.fields, key)
    else !a.Array? && !a.Object? && a == b
  }

  ghost predicate SameAt(f: Fields, g: Fields, key: string) {
    var x, y := Lookup(f, key), Lookup(g, key);
    if x.Some? && y.Some? then Same(x.value, y.value) else x.None? && y.None?
  }

  ghost predicate SameItems(x: Items, y: Items) {
    if x.Item? && y.Item? then Same(x.head, y.head) && SameItems(x.tail, y.tail) else x.NoItems? && y.NoItems?
  }

  // Texts --------------------------------------------------------------------------------------------------------

  function HexDigit(d: nat): char
    requires d < 16
  {
    "0123456789abcdef"[d]
  }

  function EscapeChar(c: char): string {
    if c == '"' then ['\\', '"']
    else if c == '\\' then ['\\', '\\']
    else if c as int == 8 then ['\\', 'b']
    else if c as int == 12 then ['\\', 'f']
    else if c == '\n' then ['\\', 'n']
    else if c == '\r' then ['\\', 'r']
    else if c == '\t' then ['\\', 't']
    else if c < ' ' then ['\\', 'u', '0', '0', HexDigit(c as int / 16), HexDigit(c as int % 16)]
    else [c]
  }

  function Escape(s: string): string {
    if s == [] then [] else EscapeChar(s[0]) + Escape(s[1..])
  }

  function Quote(s: string): string {
    ['"'] + Escape(s) + ['"']
  }

  type Pair = (string, string)

  function KeyOf(p: Pair): string {
    p.0
  }

  function PairText(p: Pair): string {
    Quote(p.0) + [':'] + p.1
  }

  function Texts(pairs: seq<Pair>): (r: seq<string>)
    ensures |r| == |pairs|
  {
    if pairs == [] then [] else [PairText(pairs[0])] + Texts(pairs[1..])
  }

  function Stable(v: Json): string {
    match v
    case Null => "null"
    case Bool(b) => if b then "true" else "false"
    case Number(text) => text
    case Str(chars) => Quote(chars)
    case Array(items) => ['['] + Join(StableItems(items), [',']) + [']']
    case Object(fields) => ['{'] + Join(Texts(SortBy(KeyOf, Pairs(fields))), [',']) + ['}']
  }

  function StableItems(items: Items): seq<string> {
    match items
    case NoItems => []
    case Item(head, tail) => [Stable(head)] + StableItems(tail)
  }

  function Pairs(f: Fields): seq<Pair> {
    match f
    case NoFields => []
    case Field(k, v, rest) => [(k, Stable(v))] + Pairs(rest)
  }

  // Pairs and fields ---------------------------------------------------------------------------------------------

  lemma {:induction false} PairIn(f: Fields, key: string, text: string)
    requires ProperFields(f)
    ensures (key, text) in Pairs(f) <==> Lookup(f, key).Some? && Stable(Lookup(f, key).value) == text
  {
    match f {
      case NoFields =>
      case Field(k, v, rest) =>
        PairIn(rest, key, text);
    }
  }

  lemma {:induction false} PairsDistinct(f: Fields)
    requires ProperFields(f)
    ensures DistinctKeys(KeyOf, Pairs(f))
  {
    match f {
      case NoFields =>
      case Field(k, v, rest) =>
        PairsDistinct(rest);
        var tail := Pairs(rest);
        forall j | 0 <= j < |tail| ensures KeyOf(tail[j]) != k {
          assert (tail[j].0, tail[j].1) in tail;
          PairIn(rest, tail[j].0, tail[j].1);
        }
    }
  }

  lemma {:induction false} LookupProper(f: Fields, key: string)
    requires ProperFields(f) && Lookup(f, key).Some?
    ensures Proper(Lookup(f, key).value)
  {
    if f.key != key { LookupProper(f.rest, key); }
  }

  // Equal values have equal texts ----------------------------------------------------------------------------------

  lemma {:induction false} SameText(a: Json, b: Json)
    requires Proper(a) && Proper(b) && Same(a, b)
    ensures Stable(a) == Stable(b)
    decreases a, 1
  {
    match a {
      case Array(x) => SameItemsText(x, b.items);
      case Object(f) =>
        var g := b.fields;
        forall p ensures p in Pairs(f) <==> p in Pairs(g) {
          assert SameAt(f, g, p.0);
          PairIn(f, p.0, p.1);
          PairIn(g, p.0, p.1);
          assert p == (p.0, p.1);
          if Lookup(f, p.0).Some? && Lookup(g, p.0).Some? {
            LookupProper(f, p.0);
            LookupProper(g, p.0);
            SameText(Lookup(f, p.0).value, Lookup(g, p.0).value);
          }
        }
        PairsDistinct(f);
        PairsDistinct(g);
        SortForgetsOrder(KeyOf, Pairs(f), Pairs(g));
      case _ =>
    }
  }

  lemma {:induction false} SameItemsText(x: Items, y: Items)
    requires ProperItems(x) && ProperItems(y) && SameItems(x, y)
    ensures StableItems(x) == StableItems(y)
    decreases x, 0
  {
    if x.Item? {
      SameText(x.head, y.head);
      SameItemsText(x.tail, y.tail);
    }
  }

  // Texts are unambiguous --------------------------------------------------------------------------------------------

  lemma EscapeCharUnique(c: char, d: char, s: string, t: string)
    requires EscapeChar(c) + s == EscapeChar(d) + t
    ensures c == d && s == t
  {
    var whole := EscapeChar(c) + s;
    assert EscapeChar(c)[0] == whole[0] == EscapeChar(d)[0];
    if whole[0] == '\\' {
      assert EscapeChar(c)[1] == whole[1] == EscapeChar(d)[1];
      if whole[1] == 'u' {
        assert EscapeChar(c)[4] == whole[4] == EscapeChar(d)[4];
        assert EscapeChar(c)[5] == whole[5] == EscapeChar(d)[5];
        HexUnique(c as int / 16, d as int / 16);
        HexUnique(c as int % 16, d as int % 16);
      }
    }
    CancelPrefix(EscapeChar(c), s, t);
  }

  lemma HexUnique(a: nat, b: nat)
    requires a < 16 && b < 16 && HexDigit(a) == HexDigit(b)
    ensures a == b
  {
  }

  lemma {:induction false} QuoteTail(x: string, y: string, s: string, t: string)
    requires Escape(x) + (['"'] + s) == Escape(y) + (['"'] + t)
    ensures x == y && s == t
  {
    hide EscapeChar;
    if x == [] && y == [] {
      assert Escape(x) + (['"'] + s) == ['"'] + s && Escape(y) + (['"'] + t) == ['"'] + t;
      CancelPrefix(['"'], s, t);
    } else if x == [] {
      QuoteEnds(y, s, t);
      assert false;
    } else if y == [] {
      QuoteEnds(x, t, s);
      assert false;
    } else {
      var p, q := Escape(x[1..]) + (['"'] + s), Escape(y[1..]) + (['"'] + t);
      Assoc(EscapeChar(x[0]), Escape(x[1..]), ['"'] + s);
      Assoc(EscapeChar(y[0]), Escape(y[1..]), ['"'] + t);
      EscapeCharUnique(x[0], y[0], p, q);
      QuoteTail(x[1..], y[1..], s, t);
      assert x == [x[0]] + x[1..] && y == [y[0]] + y[1..];
    }
  }

  lemma QuoteEnds(y: string, s: string, t: string)
    requires y != []
    ensures Escape([]) + (['"'] + s) != Escape(y) + (['"'] + t)
  {
    hide EscapeChar;
    EscapeStart(y[0]);
    assert (Escape(y) + (['"'] + t))[0] == EscapeChar(y[0])[0];
    assert (Escape([]) + (['"'] + s))[0] == '"';
  }

  // Reading it back, by section 7 of RFC 8259

  function HexValue(c: char): Option<nat> {
    if '0' <= c <= '9' then Some(c as int - '0' as int)
    else if 'a' <= c <= 'f' then Some(c as int - 'a' as int + 10)
    else if 'A' <= c <= 'F' then Some(c as int - 'A' as int + 10)
    else None
  }

  /** The character at the front of an escaped text, and the rest of the text. */
  function ReadChar(s: string): Option<(char, string)> {
    if s == [] || s[0] == '"' || s[0] < ' ' then None
    else if s[0] != '\\' then Some((s[0], s[1..]))
    else if |s| < 2 then None
    else match s[1]
      case '"' => Some(('"', s[2..]))
      case '\\' => Some(('\\', s[2..]))
      case '/' => Some(('/', s[2..]))
      case 'b' => Some((8 as char, s[2..]))
      case 'f' => Some((12 as char, s[2..]))
      case 'n' => Some((10 as char, s[2..]))
      case 'r' => Some((13 as char, s[2..]))
      case 't' => Some((9 as char, s[2..]))
      case 'u' =>
        if |s| < 6 || s[2] != '0' || s[3] != '0' || HexValue(s[4]).None? || HexValue(s[5]).None? then None
        else Some(((HexValue(s[4]).value * 16 + HexValue(s[5]).value) as char, s[6..]))
      case _ => None
  }

  /** The string before the closing quotation mark, and what follows it. */
  function Unquote(s: string): Option<(string, string)>
    decreases |s|
  {
    if s != [] && s[0] == '"' then Some(([], s[1..]))
    else
      match ReadChar(s)
      case None => None
      case Some((c, rest)) =>
        if |rest| >= |s| then None
        else
          match Unquote(rest)
          case None => None
          case Some((chars, tail)) => Some(([c] + chars, tail))
  }

  lemma HexRead(d: nat)
    requires d < 16
    ensures HexValue(HexDigit(d)) == Some(d)
  {
  }

  lemma EscapedChar(c: char, rest: string)
    ensures ReadChar(EscapeChar(c) + rest) == Some((c, rest)) && EscapeChar(c) != [] && EscapeChar(c)[0] != '"'
  {
    hide HexValue, HexDigit;
    var s, e := EscapeChar(c) + rest, EscapeChar(c);
    assert s[|e|..] == rest;
    assert forall i :: 0 <= i < |e| ==> s[i] == e[i];
    if c < ' ' {
      HexRead(c as int / 16);
      HexRead(c as int % 16);
    }
  }

  /** A quoted string in front of any text reads back as the string and the text. */
  lemma {:induction false} QuoteReads(chars: string, tail: string)
    ensures Quote(chars) + tail == ['"'] + (Escape(chars) + (['"'] + tail))
    ensures Unquote(Escape(chars) + (['"'] + tail)) == Some((chars, tail))
  {
    hide EscapeChar, ReadChar;
    if chars == [] {
      assert [] + (['"'] + tail) == ['"'] + tail;
      assert (['"'] + tail)[1..] == tail;
    } else {
      var rest := Escape(chars[1..]) + (['"'] + tail);
      QuoteReads(chars[1..], tail);
      EscapedChar(chars[0], rest);
      assert Escape(chars) + (['"'] + tail) == EscapeChar(chars[0]) + rest;
      assert [chars[0]] + chars[1..] == chars;
    }
  }

  lemma EscapeStart(c: char)
    ensures EscapeChar(c) != [] && EscapeChar(c)[0] != '"'
  {
  }

  /** A quoted text ends where it ends, whatever follows. */
  lemma QuoteUnique(x: string, y: string, s: string, t: string)
    requires Quote(x) + s == Quote(y) + t
    ensures x == y && s == t
  {
    hide Escape;
    assert Quote(x) + s == ['"'] + (Escape(x) + (['"'] + s));
    assert Quote(y) + t == ['"'] + (Escape(y) + (['"'] + t));
    CancelPrefix(['"'], Escape(x) + (['"'] + s), Escape(y) + (['"'] + t));
    QuoteTail(x, y, s, t);
  }

  /** What may follow a value: nothing, or the end of an item or of its container. */
  predicate Delimited(s: string) {
    s == [] || s[0] == ',' || s[0] == ']' || s[0] == '}'
  }

  predicate Starts(v: Json, c: char) {
    match v
    case Null => c == 'n'
    case Bool(b) => c == if b then 't' else 'f'
    case Number(_) => IsDigit(c) || c == '-'
    case Str(_) => c == '"'
    case Array(_) => c == '['
    case Object(_) => c == '{'
  }

  lemma FirstChar(v: Json)
    requires Proper(v)
    ensures Stable(v) != [] && Starts(v, Stable(v)[0])
  {
    hide Join, Escape, SortBy;
  }

  /** Equal texts, with what follows, are of values of one kind. */
  lemma SameKind(a: Json, b: Json, s: string, t: string)
    requires Proper(a) && Proper(b) && Stable(a) + s == Stable(b) + t
    ensures match a {
      case Null => b.Null?
      case Bool(x) => b == Bool(x)
      case Number(_) => b.Number?
      case Str(_) => b.Str?
      case Array(_) => b.Array?
      case Object(_) => b.Object?
    }
  {
    hide Stable, Proper;
    FirstChar(a);
    FirstChar(b);
    assert (Stable(a) + s)[0] == Stable(a)[0] && (Stable(b) + t)[0] == Stable(b)[0];
  }

  lemma NumberUnique(x: string, y: string, s: string, t: string)
    requires ProperNumber(x) && ProperNumber(y) && Delimited(s) && Delimited(t) && x + s == y + t
    ensures x == y && s == t
  {
    SplitUnique(NumberChar, x, y, s, t);
  }

  /** The text of an object from its pairs. */
  function ObjectText(pairs: seq<Pair>): string {
    Join(Texts(pairs), [','])
  }

  function ItemsText(items: Items): string {
    Join(StableItems(items), [','])
  }

  lemma ItemsCons(head: Json, tail: Items)
    ensures ItemsText(Item(head, tail)) == Stable(head) + if tail.NoItems? then [] else [','] + ItemsText(tail)
  {
    var all := StableItems(Item(head, tail));
    assert all[0] == Stable(head) && all[1..] == StableItems(tail);
    if tail.Item? { Assoc(Stable(head), [','], ItemsText(tail)); }
  }

  lemma ObjectCons(pairs: seq<Pair>)
    requires pairs != []
    ensures ObjectText(pairs) == PairText(pairs[0]) + if |pairs| == 1 then [] else [','] + ObjectText(pairs[1..])
  {
    var all := Texts(pairs);
    assert all[0] == PairText(pairs[0]) && all[1..] == Texts(pairs[1..]);
    if |pairs| > 1 { Assoc(PairText(pairs[0]), [','], ObjectText(pairs[1..])); }
  }

  /** These are texts of values of these fields. */
  ghost predicate TextsOf(pairs: seq<Pair>, f: Fields) {
    forall i :: 0 <= i < |pairs| ==> Lookup(f, pairs[i].0).Some? && Stable(Lookup(f, pairs[i].0).value) == pairs[i].1
  }

  lemma SortedTextsOf(f: Fields)
    requires ProperFields(f)
    ensures TextsOf(SortBy(KeyOf, Pairs(f)), f)
  {
    hide Stable;
    var pairs := SortBy(KeyOf, Pairs(f));
    forall i | 0 <= i < |pairs|
      ensures Lookup(f, pairs[i].0).Some? && Stable(Lookup(f, pairs[i].0).value) == pairs[i].1 {
      assert pairs[i] in pairs && pairs[i] == (pairs[i].0, pairs[i].1);
      SortMember(KeyOf, Pairs(f), pairs[i]);
      PairIn(f, pairs[i].0, pairs[i].1);
    }
  }

  /** The heart: a value's text, where it ends, and the value are determined by any text that begins with it. */
  lemma {:induction false} Unambiguous(a: Json, b: Json, s: string, t: string)
    requires Proper(a) && Proper(b) && Delimited(s) && Delimited(t) && Stable(a) + s == Stable(b) + t
    ensures Same(a, b) && s == t
    decreases a, 2, 0
  {
    SameKind(a, b, s, t);
    match a {
      case Null => CancelPrefix(Stable(a), s, t);
      case Bool(_) => CancelPrefix(Stable(a), s, t);
      case Number(x) => NumberUnique(x, b.text, s, t);
      case Str(x) => QuoteUnique(x, b.chars, s, t);
      case Array(x) => ArrayUnambiguous(x, b.items, s, t);
      case Object(f) => ObjectUnambiguous(f, b.fields, s, t);
    }
  }

  lemma {:induction false} ArrayUnambiguous(x: Items, y: Items, s: string, t: string)
    requires ProperItems(x) && ProperItems(y)
    requires Stable(Array(x)) + s == Stable(Array(y)) + t
    ensures SameItems(x, y) && s == t
    decreases x, 1, 0
  {
    hide Join, StableItems, Proper;
    assert Stable(Array(x)) + s == ['['] + (ItemsText(x) + ([']'] + s));
    assert Stable(Array(y)) + t == ['['] + (ItemsText(y) + ([']'] + t));
    CancelPrefix(['['], ItemsText(x) + ([']'] + s), ItemsText(y) + ([']'] + t));
    ItemsUnambiguous(x, y, s, t);
  }

  /** What follows the first item. */
  function AfterItem(tail: Items, s: string): string {
    if tail.NoItems? then [']'] + s else [','] + (ItemsText(tail) + ([']'] + s))
  }

  lemma ItemsSplit(head: Json, tail: Items, s: string)
    ensures ItemsText(Item(head, tail)) + ([']'] + s) == Stable(head) + AfterItem(tail, s)
    ensures Delimited(AfterItem(tail, s))
  {
    hide ItemsText, Stable;
    ItemsCons(head, tail);
    if tail.Item? {
      Assoc(Stable(head), [','] + ItemsText(tail), [']'] + s);
      Assoc([','], ItemsText(tail), [']'] + s);
    }
  }

  lemma NoItemsText()
    ensures ItemsText(NoItems) == []
  {
  }

  lemma EmptyOrNot(head: Json, tail: Items, s: string, t: string)
    requires Proper(head)
    ensures ItemsText(NoItems) + ([']'] + s) != ItemsText(Item(head, tail)) + ([']'] + t)
  {
    hide ItemsText, Stable;
    NoItemsText();
    ItemsSplit(head, tail, t);
    FirstChar(head);
    assert ([] + ([']'] + s))[0] == ']';
    assert (Stable(head) + AfterItem(tail, t))[0] == Stable(head)[0];
  }

  lemma {:induction false} ItemsUnambiguous(x: Items, y: Items, s: string, t: string)
    requires ProperItems(x) && ProperItems(y)
    requires ItemsText(x) + ([']'] + s) == ItemsText(y) + ([']'] + t)
    ensures SameItems(x, y) && s == t
    decreases x, 0, 0
  {
    hide ItemsText, Stable, Proper, Same;
    if x.NoItems? && y.NoItems? {
      CancelPrefix(ItemsText(NoItems), [']'] + s, [']'] + t);
      CancelPrefix([']'], s, t);
    } else if x.NoItems? {
      EmptyOrNot(y.head, y.tail, s, t);
      assert false;
    } else if y.NoItems? {
      EmptyOrNot(x.head, x.tail, t, s);
      assert false;
    } else {
      var p, q := AfterItem(x.tail, s), AfterItem(y.tail, t);
      ItemsSplit(x.head, x.tail, s);
      ItemsSplit(y.head, y.tail, t);
      Unambiguous(x.head, y.head, p, q);
      assert p[0] == q[0];
      if x.tail.NoItems? {
        CancelPrefix([']'], s, t);
      } else {
        CancelPrefix([','], ItemsText(x.tail) + ([']'] + s), ItemsText(y.tail) + ([']'] + t));
        ItemsUnambiguous(x.tail, y.tail, s, t);
      }
    }
  }

  function AfterPair(pairs: seq<Pair>, s: string): string {
    if pairs == [] then ['}'] + s else [','] + (ObjectText(pairs) + (['}'] + s))
  }

  lemma PairsSplit(pairs: seq<Pair>, s: string)
    requires pairs != []
    ensures ObjectText(pairs) + (['}'] + s) == Quote(pairs[0].0) + ([':'] + (pairs[0].1 + AfterPair(pairs[1..], s)))
    ensures Delimited(AfterPair(pairs[1..], s))
  {
    hide ObjectText, Quote;
    ObjectCons(pairs);
    var key, text, after := Quote(pairs[0].0), pairs[0].1, AfterPair(pairs[1..], s);
    assert PairText(pairs[0]) + after == key + ([':'] + (text + after));
    if |pairs| > 1 {
      Assoc(PairText(pairs[0]), [','] + ObjectText(pairs[1..]), ['}'] + s);
      Assoc([','], ObjectText(pairs[1..]), ['}'] + s);
    }
  }

  lemma NoPairsText()
    ensures ObjectText([]) == []
  {
  }

  lemma EndOrPair(pairs: seq<Pair>, s: string, t: string)
    requires pairs != []
    ensures ObjectText([]) + (['}'] + s) != ObjectText(pairs) + (['}'] + t)
  {
    hide ObjectText;
    NoPairsText();
    PairsSplit(pairs, t);
    assert ([] + (['}'] + s))[0] == '}';
    assert (Quote(pairs[0].0) + ([':'] + (pairs[0].1 + AfterPair(pairs[1..], t))))[0] == '"';
  }

  lemma CancelSuffix(a: string, b: string, s: string)
    requires a + s == b + s
    ensures a == b
  {
    assert |a| == |b|;
    assert a == (a + s)[..|a|] && b == (b + s)[..|b|];
  }

  lemma {:induction false} PairsUnambiguous(f: Fields, g: Fields, ps: seq<Pair>, qs: seq<Pair>, s: string, t: string)
    requires ProperFields(f) && ProperFields(g) && TextsOf(ps, f) && TextsOf(qs, g)
    requires ObjectText(ps) + (['}'] + s) == ObjectText(qs) + (['}'] + t)
    ensures ps == qs && s == t
    decreases f, 0, |ps|
  {
    hide ObjectText, Stable, Proper, Same, Quote, ProperFields;
    if ps == [] && qs == [] {
      CancelPrefix(ObjectText([]), ['}'] + s, ['}'] + t);
      CancelPrefix(['}'], s, t);
    } else if ps == [] {
      EndOrPair(qs, s, t);
      assert false;
    } else if qs == [] {
      EndOrPair(ps, t, s);
      assert false;
    } else {
      var p, q := AfterPair(ps[1..], s), AfterPair(qs[1..], t);
      PairsSplit(ps, s);
      PairsSplit(qs, t);
      QuoteUnique(ps[0].0, qs[0].0, [':'] + (ps[0].1 + p), [':'] + (qs[0].1 + q));
      CancelPrefix([':'], ps[0].1 + p, qs[0].1 + q);
      LookupProper(f, ps[0].0);
      LookupProper(g, qs[0].0);
      Unambiguous(Lookup(f, ps[0].0).value, Lookup(g, qs[0].0).value, p, q);
      CancelSuffix(ps[0].1, qs[0].1, p);
      assert p[0] == q[0];
      if |ps| == 1 {
        CancelPrefix(['}'], s, t);
      } else {
        CancelPrefix([','], ObjectText(ps[1..]) + (['}'] + s), ObjectText(qs[1..]) + (['}'] + t));
        PairsUnambiguous(f, g, ps[1..], qs[1..], s, t);
      }
      assert ps == [ps[0]] + ps[1..] && qs == [qs[0]] + qs[1..];
    }
  }

  lemma {:induction false} ObjectUnambiguous(f: Fields, g: Fields, s: string, t: string)
    requires ProperFields(f) && ProperFields(g)
    requires Stable(Object(f)) + s == Stable(Object(g)) + t
    ensures Same(Object(f), Object(g)) && s == t
    decreases f, 1, 0
  {
    hide Join, SortBy, Pairs, Texts, Proper, ProperFields;
    var ps, qs := SortBy(KeyOf, Pairs(f)), SortBy(KeyOf, Pairs(g));
    assert Stable(Object(f)) + s == ['{'] + (ObjectText(ps) + (['}'] + s));
    assert Stable(Object(g)) + t == ['{'] + (ObjectText(qs) + (['}'] + t));
    CancelPrefix(['{'], ObjectText(ps) + (['}'] + s), ObjectText(qs) + (['}'] + t));
    SortedTextsOf(f);
    SortedTextsOf(g);
    PairsUnambiguous(f, g, ps, qs, s, t);
    forall key ensures SameAt(f, g, key) {
      SameAtKey(f, g, key);
    }
  }

  /** Fields with the same sorted pairs agree at every key. */
  lemma {:induction false} SameAtKey(f: Fields, g: Fields, key: string)
    requires ProperFields(f) && ProperFields(g) && SortBy(KeyOf, Pairs(f)) == SortBy(KeyOf, Pairs(g))
    ensures SameAt(f, g, key)
    decreases f, 0, 0
  {
    hide Stable, Proper, ProperFields, SortBy, Pairs, Same;
    var x, y := Lookup(f, key), Lookup(g, key);
    if x.Some? {
      PairShared(f, g, key, Stable(x.value));
      LookupProper(f, key);
      LookupProper(g, key);
      assert Stable(x.value) + [] == Stable(y.value) + [];
      Unambiguous(x.value, y.value, [], []);
    } else if y.Some? {
      PairShared(g, f, key, Stable(y.value));
    }
  }

  lemma PairShared(f: Fields, g: Fields, key: string, text: string)
    requires ProperFields(f) && ProperFields(g) && SortBy(KeyOf, Pairs(f)) == SortBy(KeyOf, Pairs(g))
    requires Lookup(f, key).Some? && Stable(Lookup(f, key).value) == text
    ensures Lookup(g, key).Some? && Stable(Lookup(g, key).value) == text
  {
    hide Stable, SortBy, ProperFields;
    PairIn(f, key, text);
    SortMember(KeyOf, Pairs(f), (key, text));
    SortMember(KeyOf, Pairs(g), (key, text));
    PairIn(g, key, text);
  }

  /** The canonical text decides by value: it is equal exactly for values equal up to the order of keys. */
  lemma StableByValue(a: Json, b: Json)
    requires Proper(a) && Proper(b)
    ensures Stable(a) == Stable(b) <==> Same(a, b)
  {
    hide Stable, Same, Proper;
    if Stable(a) == Stable(b) {
      Unambiguous(a, b, [], []);
    }
    if Same(a, b) { SameText(a, b); }
  }
}
