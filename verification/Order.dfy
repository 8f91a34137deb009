/** Lexicographic order on strings and sorting by a string key. */
module Order {

  predicate StrLe(a: string, b: string) {
    a == [] || (b != [] && (a[0] < b[0] || (a[0] == b[0] && StrLe(a[1..], b[1..]))))
  }

  lemma {:induction false} StrTotal(a: string, b: string)
    ensures StrLe(a, b) || StrLe(b, a)
  {
    if a != [] && b != [] && a[0] == b[0] { StrTotal(a[1..], b[1..]); }
  }

  lemma {:induction false} StrAntisymmetric(a: string, b: string)
    requires StrLe(a, b) && StrLe(b, a)
    ensures a == b
  {
    if a != [] && b != [] {
      StrAntisymmetric(a[1..], b[1..]);
      assert a == [a[0]] + a[1..] && b == [b[0]] + b[1..];
    }
  }

  lemma {:induction false} StrTransitive(a: string, b: string, c: string)
    requires StrLe(a, b) && StrLe(b, c)
    ensures StrLe(a, c)
  {
    if a != [] && b != [] && c != [] && a[0] == b[0] == c[0] {
      StrTransitive(a[1..], b[1..], c[1..]);
    }
  }

  predicate SortedBy<T>(key: T -> string, s: seq<T>) {
    |s| > 1 ==> StrLe(key(s[0]), key(s[1])) && SortedBy(key, s[1..])
  }

  function InsertBy<T>(key: T -> string, x: T, s: seq<T>): seq<T> {
    if s == [] then [x]
    else if StrLe(key(x), key(s[0])) then [x] + s
    else [s[0]] + InsertBy(key, x, s[1..])
  }

  function SortBy<T>(key: T -> string, s: seq<T>): seq<T> {
    if s == [] then [] else InsertBy(key, s[0], SortBy(key, s[1..]))
  }

  lemma {:induction false} InsertSorted<T>(key: T -> string, x: T, s: seq<T>)
    requires SortedBy(key, s)
    ensures SortedBy(key, InsertBy(key, x, s))
    ensures var r := InsertBy(key, x, s); r[0] == x || (s != [] && r[0] == s[0])
  {
    if s != [] && !StrLe(key(x), key(s[0])) {
      StrTotal(key(x), key(s[0]));
      InsertSorted(key, x, s[1..]);
      assert InsertBy(key, x, s)[1..] == InsertBy(key, x, s[1..]);
    } else if s != [] {
      assert ([x] + s)[1..] == s;
    }
  }

  lemma {:induction false} SortSorted<T>(key: T -> string, s: seq<T>)
    ensures SortedBy(key, SortBy(key, s))
  {
    if s != [] {
      SortSorted(key, s[1..]);
      InsertSorted(key, s[0], SortBy(key, s[1..]));
    }
  }

  lemma {:induction false} SortedHead<T>(key: T -> string, s: seq<T>, i: nat)
    requires SortedBy(key, s) && i < |s|
    ensures StrLe(key(s[0]), key(s[i]))
  {
    if i == 0 {
      StrTotal(key(s[0]), key(s[0]));
    } else if i > 1 {
      SortedHead(key, s[1..], i - 1);
      StrTransitive(key(s[0]), key(s[1]), key(s[i]));
    }
  }

  /** No two positions share a key. */
  predicate DistinctKeys<T, K(==)>(key: T -> K, s: seq<T>) {
    forall i, j :: 0 <= i < j < |s| ==> key(s[i]) != key(s[j])
  }

  lemma {:induction false} InsertMember<T>(key: T -> string, x: T, s: seq<T>, y: T)
    ensures y in InsertBy(key, x, s) <==> y == x || y in s
  {
    if s != [] && !StrLe(key(x), key(s[0])) {
      InsertMember(key, x, s[1..], y);
      assert y in s <==> y == s[0] || y in s[1..];
    }
  }

  lemma {:induction false} SortMember<T>(key: T -> string, s: seq<T>, y: T)
    ensures y in SortBy(key, s) <==> y in s
  {
    if s != [] {
      SortMember(key, s[1..], y);
      InsertMember(key, s[0], SortBy(key, s[1..]), y);
      assert y in s <==> y == s[0] || y in s[1..];
    }
  }

  lemma TailMember<T>(s: seq<T>, y: T) returns (k: nat)
    requires s != [] && y in s[1..]
    ensures 1 <= k < |s| && s[k] == y
  {
    var tail := s[1..];
    var i :| 0 <= i < |tail| && tail[i] == y;
    k := i + 1;
  }

  lemma {:induction false} InsertDistinct<T>(key: T -> string, x: T, s: seq<T>)
    requires DistinctKeys(key, s) && forall y :: y in s ==> key(y) != key(x)
    ensures DistinctKeys(key, InsertBy(key, x, s))
  {
    if s == [] {
    } else if StrLe(key(x), key(s[0])) {
      assert forall j :: 0 <= j < |s| ==> s[j] in s;
    } else {
      var rest := InsertBy(key, x, s[1..]);
      InsertDistinct(key, x, s[1..]);
      assert s[0] in s;
      forall j | 0 <= j < |rest| ensures key(rest[j]) != key(s[0]) {
        assert rest[j] in rest;
        InsertMember(key, x, s[1..], rest[j]);
        if rest[j] != x {
          var k := TailMember(s, rest[j]);
        }
      }
    }
  }

  lemma {:induction false} SortDistinct<T>(key: T -> string, s: seq<T>)
    requires DistinctKeys(key, s)
    ensures DistinctKeys(key, SortBy(key, s))
  {
    if s != [] {
      SortDistinct(key, s[1..]);
      forall y | y in SortBy(key, s[1..]) ensures key(y) != key(s[0]) {
        SortMember(key, s[1..], y);
        var k := TailMember(s, y);
      }
      InsertDistinct(key, s[0], SortBy(key, s[1..]));
    }
  }

  lemma SameHead<T>(key: T -> string, a: seq<T>, b: seq<T>)
    requires SortedBy(key, a) && SortedBy(key, b) && DistinctKeys(key, a)
    requires a != [] && a[0] in b && b != [] && b[0] in a
    ensures a[0] == b[0]
  {
    var i :| 0 <= i < |b| && b[i] == a[0];
    var j :| 0 <= j < |a| && a[j] == b[0];
    SortedHead(key, b, i);
    SortedHead(key, a, j);
    StrAntisymmetric(key(a[0]), key(b[0]));
  }

  lemma TailMembers<T>(key: T -> string, a: seq<T>, b: seq<T>, x: T)
    requires DistinctKeys(key, a) && a != [] && b != [] && a[0] == b[0]
    requires x in a[1..] && forall y :: y in a ==> y in b
    ensures x in b[1..]
  {
    var i :| 1 <= i < |a| && a[i] == x;
    assert a[i] in b && x != b[0];
  }

  /** A sorted sequence with distinct keys is determined by its members. */
  lemma {:induction false} SortedUnique<T>(key: T -> string, a: seq<T>, b: seq<T>)
    requires SortedBy(key, a) && SortedBy(key, b) && DistinctKeys(key, a) && DistinctKeys(key, b)
    requires forall x :: x in a <==> x in b
    ensures a == b
  {
    assert a != [] ==> a[0] in b;
    assert b != [] ==> b[0] in a;
    if a != [] {
      SameHead(key, a, b);
      forall x ensures x in a[1..] <==> x in b[1..] {
        if x in a[1..] { TailMembers(key, a, b, x); }
        if x in b[1..] { TailMembers(key, b, a, x); }
      }
      SortedUnique(key, a[1..], b[1..]);
      assert a == [a[0]] + a[1..] && b == [b[0]] + b[1..];
    }
  }

  /** With distinct keys, sorting forgets exactly the order. */
  lemma SortForgetsOrder<T>(key: T -> string, a: seq<T>, b: seq<T>)
    requires DistinctKeys(key, a) && DistinctKeys(key, b)
    ensures SortBy(key, a) == SortBy(key, b) <==> forall x :: x in a <==> x in b
  {
    if SortBy(key, a) == SortBy(key, b) {
      forall x ensures x in a <==> x in b {
        SortMember(key, a, x);
        SortMember(key, b, x);
      }
    } else if forall x :: x in a <==> x in b {
      forall x ensures x in SortBy(key, a) <==> x in SortBy(key, b) {
        SortMember(key, a, x);
        SortMember(key, b, x);
      }
      SortSorted(key, a);
      SortSorted(key, b);
      SortDistinct(key, a);
      SortDistinct(key, b);
      SortedUnique(key, SortBy(key, a), SortBy(key, b));
    }
  }

  lemma {:induction false} InsertLength<T>(key: T -> string, x: T, s: seq<T>)
    ensures |InsertBy(key, x, s)| == |s| + 1
  {
    if s != [] && !StrLe(key(x), key(s[0])) { InsertLength(key, x, s[1..]); }
  }

  lemma {:induction false} SortLength<T>(key: T -> string, s: seq<T>)
    ensures |SortBy(key, s)| == |s|
  {
    if s != [] {
      SortLength(key, s[1..]);
      InsertLength(key, s[0], SortBy(key, s[1..]));
    }
  }

  // Filtering ------------------------------------------------------------------------------------

  function Keep<T>(p: T -> bool, s: seq<T>): seq<T> {
    if s == [] then [] else (if p(s[0]) then [s[0]] else []) + Keep(p, s[1..])
  }

  lemma {:induction false} KeepMember<T>(p: T -> bool, s: seq<T>, y: T)
    ensures y in Keep(p, s) <==> y in s && p(y)
  {
    if s != [] {
      KeepMember(p, s[1..], y);
      assert y in s <==> y == s[0] || y in s[1..];
    }
  }

  lemma {:induction false} KeepDistinct<T, K>(key: T -> K, p: T -> bool, s: seq<T>)
    requires DistinctKeys(key, s)
    ensures DistinctKeys(key, Keep(p, s))
  {
    if s != [] {
      var rest := Keep(p, s[1..]);
      KeepDistinct(key, p, s[1..]);
      forall y | y in rest ensures key(y) != key(s[0]) {
        KeepMember(p, s[1..], y);
        var k := TailMember(s, y);
      }
      if p(s[0]) {
        assert Keep(p, s)[1..] == rest;
        forall j | 0 <= j < |rest| ensures key(rest[j]) != key(s[0]) {
          assert rest[j] in rest;
        }
      }
    }
  }

  lemma DistinctAppend<T, K>(key: T -> K, s: seq<T>, x: T)
    requires DistinctKeys(key, s)
    requires forall y :: y in s ==> key(y) != key(x)
    ensures DistinctKeys(key, s + [x])
  {
    assert forall i :: 0 <= i < |s| ==> s[i] in s;
  }
}
