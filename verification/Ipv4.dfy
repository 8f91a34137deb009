/** Dotted-quad IPv4 addresses and the numbers they stand for. */
module Ipv4 {
  import opened Text

  predicate IsOctet(s: string) {
    && 0 < |s| <= 3
    && All(IsDigit, s)
    && (|s| > 1 ==> s[0] != '0')
    && DecimalValue(s) <= 255
  }

  /** The four numbers of a canonical dotted-quad address. */
  function Octets(s: string): (o: Option<seq<nat>>)
    ensures o.Some? ==> |o.value| == 4 && forall i :: 0 <= i < 4 ==> o.value[i] < 0x100
  {
    var parts := Split(s, '.');
    if |parts| == 4 && forall i :: 0 <= i < 4 ==> IsOctet(parts[i])
    then Some([DecimalValue(parts[0]), DecimalValue(parts[1]), DecimalValue(parts[2]), DecimalValue(parts[3])])
    else None
  }

  const TOP: int := 0x1_0000_0000

  /** An address as the 32-bit number with its first octet highest. */
  function Number(o: seq<nat>): int
    requires |o| == 4
  {
    o[0] * 0x100_0000 + o[1] * 0x1_0000 + o[2] * 0x100 + o[3]
  }

  function Dotted(n: int): string
    requires 0 <= n < TOP
  {
    Decimal(n / 0x100_0000) + "." + Decimal(n / 0x1_0000 % 0x100) + "." + Decimal(n / 0x100 % 0x100) + "." +
      Decimal(n % 0x100)
  }

  lemma OctetText(n: nat)
    requires n < 0x100
    ensures IsOctet(Decimal(n)) && DecimalValue(Decimal(n)) == n && '.' !in Decimal(n)
  {
    DecimalRoundTrip(n);
    DecimalNoLeadingZero(n);
    if n >= 10 { assert |Decimal(n / 10)| <= 2; }
  }

  lemma NumberOfParts(n: int)
    requires 0 <= n < TOP
    ensures 0 <= n / 0x100_0000 < 0x100
    ensures Number([n / 0x100_0000, n / 0x1_0000 % 0x100, n / 0x100 % 0x100, n % 0x100]) == n
  {
  }

  lemma JoinFour(a: string, b: string, c: string, d: string, sep: string)
    ensures Join([a, b, c, d], sep) == a + sep + b + sep + c + sep + d
  {
    assert [a, b, c, d][1..] == [b, c, d];
    assert [b, c, d][1..] == [c, d];
    assert [c, d][1..] == [d];
    assert b + sep + Join([c, d], sep) == b + sep + c + sep + d;
    assert a + sep + Join([b, c, d], sep) == a + sep + b + sep + c + sep + d;
  }

  lemma DottedParts(a: nat, b: nat, c: nat, d: nat)
    requires a < 0x100 && b < 0x100 && c < 0x100 && d < 0x100
    ensures Octets(Decimal(a) + "." + Decimal(b) + "." + Decimal(c) + "." + Decimal(d)) == Some([a, b, c, d])
  {
    hide Decimal, Join, Split, DecimalValue, IsOctet;
    OctetText(a);
    OctetText(b);
    OctetText(c);
    OctetText(d);
    var parts := [Decimal(a), Decimal(b), Decimal(c), Decimal(d)];
    JoinFour(parts[0], parts[1], parts[2], parts[3], ".");
    SplitJoin(parts, '.');
  }

  lemma OctetsOfDotted(n: int)
    requires 0 <= n < TOP
    ensures Octets(Dotted(n)) == Some([n / 0x100_0000, n / 0x1_0000 % 0x100, n / 0x100 % 0x100, n % 0x100])
  {
    hide Decimal, Octets;
    NumberOfParts(n);
    DottedParts(n / 0x100_0000, n / 0x1_0000 % 0x100, n / 0x100 % 0x100, n % 0x100);
  }

  /** Formatting an address and reading it back gives the number. */
  lemma DottedRoundTrip(n: int)
    requires 0 <= n < TOP
    ensures Octets(Dotted(n)).Some? && Number(Octets(Dotted(n)).value) == n
  {
    hide Octets, Number, Dotted;
    NumberOfParts(n);
    OctetsOfDotted(n);
  }

  /** Only the formatted addresses are read as addresses. */
  lemma DottedCanonical(s: string)
    requires Octets(s).Some?
    ensures var n := Number(Octets(s).value); 0 <= n < TOP && Dotted(n) == s
  {
    hide Decimal, DecimalValue, Join;
    var o, p := Octets(s).value, Split(s, '.');
    forall i | 0 <= i < 4 ensures Decimal(o[i]) == p[i] {
      DecimalCanonical(p[i]);
    }
    JoinSplit(s, '.');
    JoinFour(p[0], p[1], p[2], p[3], ".");
    assert p == [p[0], p[1], p[2], p[3]];
    NumberParts(o[0], o[1], o[2], o[3]);
  }

  lemma NumberParts(a: nat, b: nat, c: nat, d: nat)
    requires a < 0x100 && b < 0x100 && c < 0x100 && d < 0x100
    ensures var n := Number([a, b, c, d]);
      && 0 <= n < TOP && n / 0x100_0000 == a && n / 0x1_0000 % 0x100 == b && n / 0x100 % 0x100 == c && n % 0x100 == d
  {
    LastDigit(a, b);
    LastDigit(a * 0x100 + b, c);
    LastDigit((a * 0x100 + b) * 0x100 + c, d);
    NumberOfParts(Number([a, b, c, d]));
  }

  lemma LastDigit(high: nat, low: nat)
    requires low < 0x100
    ensures (high * 0x100 + low) / 0x100 == high && (high * 0x100 + low) % 0x100 == low
  {
  }
}
