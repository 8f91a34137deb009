/** Strings as the model needs them: trimming, splitting and joining lines, decimal numbers. */
module Text {

  datatype Option<+T> = None | Some(value: T)

  datatype Result<+T, +E> = Ok(value: T) | Err(error: E)

  predicate IsDigit(c: char) {
    '0' <= c <= '9'
  }

  predicate All(p: char -> bool, s: string) {
    forall i :: 0 <= i < |s| ==> p(s[i])
  }

  /** s is empty or begins with a character outside p. */
  predicate StopsAt(p: char -> bool, s: string) {
    s == [] || !p(s[0])
  }

  /** A run of p-characters that ends at a non-p character is determined by the whole string. */
  lemma SplitUnique(p: char -> bool, a: string, b: string, s: string, t: string)
    requires All(p, a) && All(p, b) && StopsAt(p, s) && StopsAt(p, t)
    requires a + s == b + t
    ensures a == b && s == t
  {
    var whole := a + s;
    assert forall i :: 0 <= i < |a| ==> whole[i] == a[i];
    assert forall i :: 0 <= i < |b| ==> whole[i] == b[i];
    assert a == (a + s)[..|a|] == (b + t)[..|b|] == b;
    assert s == (a + s)[|a|..] == (b + t)[|b|..] == t;
  }

  /** Equal first parts can be cancelled. */
  lemma CancelPrefix(a: string, s: string, t: string)
    requires a + s == a + t
    ensures s == t
  {
    assert s == (a + s)[|a|..];
    assert t == (a + t)[|a|..];
  }

  lemma Assoc(a: string, b: string, c: string)
    ensures a + b + c == a + (b + c)
  {
  }

  // Decimal numbers ------------------------------------------------------------------------------

  function Digit(d: nat): (c: char)
    requires d < 10
    ensures IsDigit(c) && (c as int) - ('0' as int) == d
  {
    (d + '0' as int) as char
  }

  /** The decimal text of n, without leading zeros. */
  function Decimal(n: nat): (s: string)
    ensures |s| > 0 && All(IsDigit, s)
  {
    if n < 10 then [Digit(n)] else Decimal(n / 10) + [Digit(n % 10)]
  }

  function Integer(n: int): string {
    if n < 0 then "-" + Decimal(-n) else Decimal(n)
  }

  function DecimalValue(s: string): nat
    requires All(IsDigit, s)
  {
    if s == [] then 0
    else DecimalValue(s[..|s| - 1]) * 10 + (s[|s| - 1] as int - '0' as int)
  }

  lemma {:induction false} DecimalRoundTrip(n: nat)
    ensures DecimalValue(Decimal(n)) == n
  {
    if n >= 10 {
      var head := Decimal(n / 10);
      DecimalRoundTrip(n / 10);
      assert (head + [Digit(n % 10)])[..|head|] == head;
    } else {
      assert DecimalValue([Digit(n)][..0]) == 0;
    }
  }

  /** Digits without a leading zero are the text of the number they stand for. */
  lemma {:induction false} DecimalCanonical(s: string)
    requires s != [] && All(IsDigit, s) && (|s| > 1 ==> s[0] != '0')
    ensures Decimal(DecimalValue(s)) == s && (s[0] != '0' ==> DecimalValue(s) > 0)
  {
    var k := |s| - 1;
    var d := s[k] as int - '0' as int;
    assert s == s[..k] + [s[k]];
    if k == 0 {
      assert DecimalValue(s[..0]) == 0;
    } else {
      DecimalCanonical(s[..k]);
      assert (DecimalValue(s[..k]) * 10 + d) / 10 == DecimalValue(s[..k]);
    }
  }

  lemma DecimalNoLeadingZero(n: nat)
    ensures n > 0 ==> Decimal(n)[0] != '0'
    ensures n == 0 ==> Decimal(n) == "0"
  {
    if n >= 10 {
      DecimalNoLeadingZero(n / 10);
    }
  }

  /** Decimal text followed by something that is not a digit determines the number. */
  lemma DecimalUnique(m: nat, n: nat, s: string, t: string)
    requires StopsAt(IsDigit, s) && StopsAt(IsDigit, t)
    requires Decimal(m) + s == Decimal(n) + t
    ensures m == n && s == t
  {
    SplitUnique(IsDigit, Decimal(m), Decimal(n), s, t);
    DecimalRoundTrip(m);
    DecimalRoundTrip(n);
  }

  // Trimming -------------------------------------------------------------------------------------

  /** The first index from i on that does not hold white space. */
  function Lead(space: char -> bool, s: string, i: nat): (k: nat)
    requires i <= |s|
    ensures i <= k <= |s|
    decreases |s| - i
  {
    if i < |s| && space(s[i]) then Lead(space, s, i + 1) else i
  }

  /** The end of s[..n] without the white space before it. */
  function Tail(space: char -> bool, s: string, n: nat): (k: nat)
    requires n <= |s|
    ensures k <= n
  {
    if n > 0 && space(s[n - 1]) then Tail(space, s, n - 1) else n
  }

  function TrimLeft(space: char -> bool, s: string): string {
    s[Lead(space, s, 0)..]
  }

  function TrimRight(space: char -> bool, s: string): string {
    s[..Tail(space, s, |s|)]
  }

  function Trim(space: char -> bool, s: string): string {
    TrimRight(space, TrimLeft(space, s))
  }

  predicate Trimmed(space: char -> bool, s: string) {
    s == [] || (!space(s[0]) && !space(s[|s| - 1]))
  }

  /** Lead stops at the first index that does not hold white space. */
  lemma {:induction false} LeadIs(space: char -> bool, s: string, i: nat, k: nat)
    requires i <= k <= |s|
    ensures Lead(space, s, i) == k <==> (k == |s| || !space(s[k])) && forall j :: i <= j < k ==> space(s[j])
    decreases |s| - i
  {
    if i < k && space(s[i]) {
      LeadIs(space, s, i + 1, k);
    }
  }

  /** Tail stops behind the last character before n that is not white space. */
  lemma {:induction false} TailIs(space: char -> bool, s: string, n: nat, k: nat)
    requires k <= n <= |s|
    ensures Tail(space, s, n) == k <==> (k == 0 || !space(s[k - 1])) && forall j :: k <= j < n ==> space(s[j])
  {
    if k < n && space(s[n - 1]) {
      TailIs(space, s, n - 1, k);
    }
  }

  /** Trimming on the left drops white space up to the first other character. */
  lemma TrimLeftIs(space: char -> bool, s: string)
    ensures var r := TrimLeft(space, s);
      |r| <= |s| && r == s[|s| - |r|..] && StopsAt(space, r) && All(space, s[..|s| - |r|])
  {
    LeadIs(space, s, 0, Lead(space, s, 0));
  }

  /** Trimming on the right drops white space down to the last other character. */
  lemma TrimRightIs(space: char -> bool, s: string)
    ensures var r := TrimRight(space, s); r <= s && (r == [] || !space(r[|r| - 1])) && All(space, s[|r|..])
  {
    TailIs(space, s, |s|, Tail(space, s, |s|));
  }

  lemma TrimLeftPadded(space: char -> bool, pad: string, s: string)
    requires All(space, pad)
    ensures TrimLeft(space, pad + s) == TrimLeft(space, s)
  {
    var k := Lead(space, s, 0);
    LeadIs(space, s, 0, k);
    assert forall j :: |pad| <= j < |pad| + k ==> (pad + s)[j] == s[j - |pad|];
    LeadIs(space, pad + s, 0, |pad| + k);
  }

  lemma TrimRightPadded(space: char -> bool, s: string, pad: string)
    requires All(space, pad)
    ensures TrimRight(space, s + pad) == TrimRight(space, s)
  {
    var k := Tail(space, s, |s|);
    TailIs(space, s, |s|, k);
    assert forall j :: |s| <= j < |s + pad| ==> (s + pad)[j] == pad[j - |s|];
    TailIs(space, s + pad, |s + pad|, k);
  }

  lemma TrimLeftAllSpace(space: char -> bool, s: string)
    requires All(space, s)
    ensures TrimLeft(space, s) == []
  {
    LeadIs(space, s, 0, |s|);
  }

  lemma TrimRightAppend(space: char -> bool, a: string, b: string)
    ensures TrimRight(space, a + b) ==
      if TrimRight(space, b) == [] then TrimRight(space, a) else a + TrimRight(space, b)
  {
    var k := Tail(space, b, |b|);
    TailIs(space, b, |b|, k);
    if k == 0 {
      TrimRightPadded(space, a, b);
    } else {
      assert forall j :: |a| <= j < |a + b| ==> (a + b)[j] == b[j - |a|];
      TailIs(space, a + b, |a + b|, |a| + k);
    }
  }

  /** White space after a text does not change what trimming leaves of it. */
  lemma TrimPaddedRight(space: char -> bool, s: string, pad: string)
    requires All(space, pad)
    ensures Trim(space, s + pad) == Trim(space, s)
  {
    var k := Lead(space, s, 0);
    TrimLeftIs(space, s);
    assert s + pad == s[..k] + (s[k..] + pad);
    TrimLeftPadded(space, s[..k], s[k..] + pad);
    var rest := s[k..];
    if rest == [] {
      assert rest + pad == pad;
      TrimLeftAllSpace(space, pad);
    } else {
      assert (rest + pad)[0] == rest[0];
      assert TrimLeft(space, rest + pad) == rest + pad;
      assert s[..k] + rest == s;
      TrimRightPadded(space, rest, pad);
    }
  }

  // Splitting and joining ------------------------------------------------------------------------

  function Split(s: string, sep: char): (parts: seq<string>)
    ensures |parts| > 0
    ensures forall i :: 0 <= i < |parts| ==> sep !in parts[i]
  {
    if s == [] then [[]]
    else if s[0] == sep then [[]] + Split(s[1..], sep)
    else
      var rest := Split(s[1..], sep);
      [[s[0]] + rest[0]] + rest[1..]
  }

  function Join(parts: seq<string>, sep: string): string {
    if parts == [] then []
    else if |parts| == 1 then parts[0]
    else parts[0] + sep + Join(parts[1..], sep)
  }

  lemma {:induction false} JoinSplit(s: string, sep: char)
    ensures Join(Split(s, sep), [sep]) == s
  {
    if s == [] {
    } else {
      var rest := Split(s[1..], sep);
      JoinSplit(s[1..], sep);
      assert s == [s[0]] + s[1..];
      if s[0] == sep {
        assert ([[]] + rest)[1..] == rest;
      } else {
        var parts := [[s[0]] + rest[0]] + rest[1..];
        assert parts[1..] == rest[1..];
        if |rest| > 1 {
          assert Join(parts, [sep]) == [s[0]] + (rest[0] + [sep] + Join(rest[1..], [sep]));
        }
      }
    }
  }

  lemma {:induction false} SplitNoSeparator(s: string, sep: char)
    requires sep !in s
    ensures Split(s, sep) == [s]
  {
    if s != [] {
      SplitNoSeparator(s[1..], sep);
      assert [s[0]] + s[1..] == s;
    }
  }

  lemma {:induction false} SplitAt(a: string, b: string, sep: char)
    requires sep !in a
    ensures Split(a + [sep] + b, sep) == [a] + Split(b, sep)
  {
    var whole := a + [sep] + b;
    if a == [] {
      assert whole[1..] == b;
    } else {
      assert whole[1..] == a[1..] + [sep] + b;
      SplitAt(a[1..], b, sep);
      assert [whole[0]] + a[1..] == a;
    }
  }

  lemma {:induction false} SplitJoin(parts: seq<string>, sep: char)
    requires |parts| > 0 && forall i :: 0 <= i < |parts| ==> sep !in parts[i]
    ensures Split(Join(parts, [sep]), sep) == parts
  {
    if |parts| == 1 {
      SplitNoSeparator(parts[0], sep);
    } else {
      SplitAt(parts[0], Join(parts[1..], [sep]), sep);
      SplitJoin(parts[1..], sep);
    }
  }

  lemma {:induction false} JoinAppend(a: seq<string>, b: seq<string>, sep: string)
    requires |a| > 0 && |b| > 0
    ensures Join(a + b, sep) == Join(a, sep) + sep + Join(b, sep)
  {
    if |a| == 1 {
      assert (a + b)[1..] == b;
    } else {
      assert (a + b)[1..] == a[1..] + b;
      JoinAppend(a[1..], b, sep);
      assert Join(a + b, sep) == a[0] + sep + (Join(a[1..], sep) + sep + Join(b, sep));
    }
  }
}
