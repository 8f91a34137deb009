/** The text of a configuration file: its newlines, its lines, and the properties on them. */
module ConfigLines {
  import opened Text

  /** Unicode white space, as Go trims it. */
  predicate Space(c: char) {
    var n := c as int;
    || 9 <= n <= 13 || n == 32 || n == 0x85 || n == 0xA0 || n == 0x1680
    || 0x2000 <= n <= 0x200A || n == 0x2028 || n == 0x2029 || n == 0x202F || n == 0x205F || n == 0x3000
  }

  function Clip(s: string): string {
    Trim(Space, s)
  }

  // Newlines -------------------------------------------------------------------------------------

  /** Every CR LF replaced by LF. */
  function Unix(s: string): string {
    if s == [] then []
    else if |s| >= 2 && s[0] == '\r' && s[1] == '\n' then ['\n'] + Unix(s[2..])
    else [s[0]] + Unix(s[1..])
  }

  /** Every LF replaced by CR LF. */
  function Dos(s: string): string {
    if s == [] then [] else (if s[0] == '\n' then ['\r', '\n'] else [s[0]]) + Dos(s[1..])
  }

  predicate HasCrLf(s: string) {
    exists i :: 0 <= i < |s| - 1 && s[i] == '\r' && s[i + 1] == '\n'
  }

  predicate EndsWithLf(s: string) {
    s != [] && s[|s| - 1] == '\n'
  }

  /** Every LF has a CR before it. */
  predicate AllCrLf(s: string) {
    forall i :: 0 <= i < |s| && s[i] == '\n' ==> i > 0 && s[i - 1] == '\r'
  }

  function WithoutFinalLf(s: string): string {
    if EndsWithLf(s) then s[..|s| - 1] else s
  }

  function NewlineOf(s: string): string {
    if HasCrLf(s) then ['\r', '\n'] else ['\n']
  }

  predicate LfFree(lines: seq<string>) {
    forall line :: line in lines ==> '\n' !in line
  }

  function LinesOf(text: string): (lines: seq<string>)
    ensures LfFree(lines)
  {
    if text == [] then [] else Split(WithoutFinalLf(Unix(text)), '\n')
  }

  /** A printed document: every line terminated by the newline of the document. */
  function Printed(lines: seq<string>, newline: string): string {
    if lines == [] then [] else Join(lines, newline) + newline
  }

  lemma {:induction false} UnixWithoutCrLf(s: string)
    requires !HasCrLf(s)
    ensures Unix(s) == s
  {
    if s != [] {
      assert !HasCrLf(s[1..]) by {
        forall i | 0 <= i < |s[1..]| - 1 ensures !(s[1..][i] == '\r' && s[1..][i + 1] == '\n') {
          assert !(s[i + 1] == '\r' && s[i + 2] == '\n');
        }
      }
      assert |s| >= 2 ==> !(s[0] == '\r' && s[0 + 1] == '\n');
      UnixWithoutCrLf(s[1..]);
    }
  }

  lemma {:induction false} UnixEnd(s: string)
    ensures EndsWithLf(Unix(s)) <==> EndsWithLf(s)
    ensures s != [] ==> Unix(s) != []
  {
    if s != [] {
      var n := if |s| >= 2 && s[0] == '\r' && s[1] == '\n' then 2 else 1;
      var rest, head := s[n..], [s[n - 1]];
      UnixEnd(rest);
      assert Unix(s) == head + Unix(rest);
      UnixNothing();
      hide Unix;
      EndAppend(head, Unix(rest));
      EndAppend(s[..n], rest);
      assert s == s[..n] + rest;
    } else {
      UnixNothing();
    }
  }

  lemma UnixNothing()
    ensures Unix([]) == []
  {
  }

  lemma EndAppend(a: string, b: string)
    ensures EndsWithLf(a + b) <==> if b == [] then EndsWithLf(a) else EndsWithLf(b)
  {
    if b == [] {
      assert a + b == a;
    } else {
      assert (a + b)[|a + b| - 1] == b[|b| - 1];
    }
  }

  lemma DosCons(c: char, s: string)
    ensures Dos([c] + s) == (if c == '\n' then ['\r', '\n'] else [c]) + Dos(s)
  {
    assert ([c] + s)[1..] == s;
  }

  /** Going to LF and back is the identity exactly when every LF had its CR. */
  lemma {:induction false} DosUnix(s: string)
    ensures Dos(Unix(s)) == s <==> AllCrLf(s)
  {
    hide Dos;
    if s == [] {
      DosNothing();
    } else if |s| >= 2 && s[0] == '\r' && s[1] == '\n' {
      var rest := s[2..];
      DosUnix(rest);
      DosCons('\n', Unix(rest));
      assert s == ['\r', '\n'] + rest;
      CancelPrefix2(['\r', '\n'], Dos(Unix(rest)), rest);
      AllCrLfTail(s, 2);
    } else {
      var rest := s[1..];
      DosUnix(rest);
      DosCons(s[0], Unix(rest));
      assert s == [s[0]] + rest;
      if s[0] == '\n' {
        assert (['\r', '\n'] + Dos(Unix(rest)))[0] != s[0];
      } else {
        CancelPrefix2([s[0]], Dos(Unix(rest)), rest);
        AllCrLfTail(s, 1);
      }
    }
  }

  lemma DosNothing()
    ensures Dos([]) == []
  {
  }

  lemma CancelPrefix2(p: string, a: string, b: string)
    ensures p + a == p + b <==> a == b
  {
    if p + a == p + b { CancelPrefix(p, a, b); }
  }

  lemma AllCrLfTail(s: string, n: nat)
    requires n <= |s| && AllCrLf(s[..n]) && (0 < n < |s| && s[n] == '\n' ==> s[n - 1] != '\r')
    ensures AllCrLf(s) <==> AllCrLf(s[n..])
  {
    if AllCrLf(s[n..]) {
      forall i | 0 <= i < |s| && s[i] == '\n' ensures i > 0 && s[i - 1] == '\r' {
        if i < n {
          assert s[..n][i] == '\n';
          assert s[..n][i - 1] == '\r';
        } else {
          assert s[n..][i - n] == '\n';
          assert s[n..][i - n - 1] == '\r';
        }
      }
    }
    if AllCrLf(s) {
      forall i | 0 <= i < |s[n..]| && s[n..][i] == '\n' ensures i > 0 && s[n..][i - 1] == '\r' {
        assert s[n + i] == '\n';
        assert s[n + i - 1] == '\r';
      }
    }
  }

  lemma {:induction false} DosAllCrLf(s: string)
    ensures AllCrLf(Dos(s)) && (EndsWithLf(Dos(s)) <==> EndsWithLf(s))
    ensures EndsWithLf(s) ==> HasCrLf(Dos(s))
  {
    if s != [] {
      var head := if s[0] == '\n' then ['\r', '\n'] else [s[0]];
      var rest := Dos(s[1..]);
      DosAllCrLf(s[1..]);
      var d := head + rest;
      forall i | 0 <= i < |d| && d[i] == '\n' ensures i > 0 && d[i - 1] == '\r' {
        if i >= |head| {
          assert rest[i - |head|] == '\n';
          assert rest[i - |head| - 1] == '\r';
        }
      }
      if EndsWithLf(s) {
        assert d[|d| - 1] == '\n';
        assert d[|d| - 2] == '\r' && d[|d| - 2 + 1] == '\n';
      }
    }
  }

  lemma {:induction false} UnixDos(s: string)
    ensures Unix(Dos(s)) == s
  {
    if s != [] {
      UnixDos(s[1..]);
      if s[0] == '\n' {
        assert Dos(s)[2..] == Dos(s[1..]);
      } else {
        assert Dos(s)[1..] == Dos(s[1..]);
        assert s[0] == '\r' && Dos(s[1..]) != [] ==> Dos(s[1..])[0] != '\n';
      }
      assert s == [s[0]] + s[1..];
    }
  }

  lemma {:induction false} DosAppend(a: string, b: string)
    ensures Dos(a + b) == Dos(a) + Dos(b)
  {
    if a == [] {
      assert a + b == b;
    } else {
      DosAppend(a[1..], b);
      assert (a + b)[0] == a[0] && (a + b)[1..] == a[1..] + b;
      var head := if a[0] == '\n' then ['\r', '\n'] else [a[0]];
      Assoc(head, Dos(a[1..]), Dos(b));
    }
  }

  lemma {:induction false} DosLine(s: string)
    requires '\n' !in s
    ensures Dos(s) == s
  {
    if s != [] {
      DosLine(s[1..]);
      assert s == [s[0]] + s[1..];
    }
  }

  lemma LineDos(line: string, rest: string)
    requires '\n' !in line
    ensures Dos(line + ['\n'] + rest) == line + ['\r', '\n'] + Dos(rest)
  {
    hide Dos;
    DosAppend(line, ['\n'] + rest);
    Assoc(line, ['\n'], rest);
    DosLine(line);
    DosCons('\n', rest);
    Assoc(line, ['\r', '\n'], Dos(rest));
  }

  lemma {:induction false} JoinDos(lines: seq<string>)
    requires LfFree(lines)
    ensures Join(lines, ['\r', '\n']) == Dos(Join(lines, ['\n']))
  {
    hide Dos;
    if lines == [] {
      DosNothing();
    } else {
      assert lines[0] in lines;
      DosLine(lines[0]);
      if |lines| > 1 {
        JoinDos(lines[1..]);
        LineDos(lines[0], Join(lines[1..], ['\n']));
      }
    }
  }

  lemma PrintedDos(lines: seq<string>)
    requires LfFree(lines)
    ensures Printed(lines, ['\r', '\n']) == Dos(Printed(lines, ['\n']))
  {
    if lines != [] {
      JoinDos(lines);
      DosAppend(Join(lines, ['\n']), ['\n']);
      assert Dos(['\n']) == ['\r', '\n'] + Dos([]);
    }
  }

  /** What reading a file and printing it again makes of it. */
  function Normal(text: string): string {
    var unix := Unix(text);
    var closed := if text == [] || EndsWithLf(unix) then unix else unix + ['\n'];
    if HasCrLf(text) then Dos(closed) else closed
  }

  lemma PrintedLines(text: string)
    ensures Printed(LinesOf(text), NewlineOf(text)) == Normal(text)
  {
    if text != [] {
      UnixEnd(text);
      var body := WithoutFinalLf(Unix(text));
      JoinSplit(body, '\n');
      var lines := Split(body, '\n');
      assert Printed(lines, ['\n']) == body + ['\n'];
      assert EndsWithLf(Unix(text)) ==> body + ['\n'] == Unix(text);
      PrintedDos(lines);
    }
  }

  /** Ends with a newline, and has only one kind of newline. */
  predicate Uniform(text: string) {
    text == [] || (EndsWithLf(text) && (HasCrLf(text) ==> AllCrLf(text)))
  }

  lemma NormalIdentity(text: string)
    ensures Normal(text) == text <==> Uniform(text)
  {
    if text != [] {
      UnixEnd(text);
      if HasCrLf(text) {
        DosUnix(text);
        DosAllCrLf(Unix(text));
        DosAllCrLf(Unix(text) + ['\n']);
      } else {
        UnixWithoutCrLf(text);
      }
    }
  }

  // Reading a printed document again -----------------------------------------------------------------

  function DropCr(line: string): (r: string)
    ensures '\n' !in line ==> '\n' !in r
  {
    if line != [] && line[|line| - 1] == '\r' then line[..|line| - 1] else line
  }

  function DropCrs(lines: seq<string>): (r: seq<string>)
    ensures |r| == |lines| && forall i :: 0 <= i < |lines| ==> r[i] == DropCr(lines[i])
  {
    if lines == [] then [] else [DropCr(lines[0])] + DropCrs(lines[1..])
  }

  lemma {:induction false} UnixLine(line: string, rest: string)
    requires '\n' !in line
    ensures Unix(line + ['\n'] + rest) == DropCr(line) + ['\n'] + Unix(rest)
  {
    var whole := line + ['\n'] + rest;
    if line == [] {
      assert whole[1..] == rest;
    } else if line == ['\r'] {
      assert whole[0] == '\r' && whole[1] == '\n';
      assert whole[2..] == rest;
    } else {
      assert whole[1..] == line[1..] + ['\n'] + rest;
      UnixLine(line[1..], rest);
      if |line| > 1 {
        assert whole[1] == line[1];
        assert DropCr(line) == [line[0]] + DropCr(line[1..]);
      }
    }
  }

  lemma {:induction false} UnixPrinted(lines: seq<string>)
    requires LfFree(lines)
    ensures Unix(Printed(lines, ['\n'])) == Printed(DropCrs(lines), ['\n'])
  {
    hide Unix, Printed, DropCr;
    if lines == [] {
      NothingPrinted();
      UnixNothing();
    } else {
      var rest := lines[1..];
      UnixPrinted(rest);
      UnixLine(lines[0], Printed(rest, ['\n']));
      assert DropCrs(lines)[1..] == DropCrs(rest);
      PrintedCons(lines);
      PrintedCons(DropCrs(lines));
    }
  }

  lemma NothingPrinted()
    ensures Printed([], ['\n']) == []
  {
  }

  lemma PrintedCons(lines: seq<string>)
    requires lines != []
    ensures Printed(lines, ['\n']) == lines[0] + ['\n'] + Printed(lines[1..], ['\n'])
  {
    if |lines| == 1 {
      assert lines[0] + ['\n'] + [] == lines[0] + ['\n'];
    } else {
      Assoc(lines[0] + ['\n'], Join(lines[1..], ['\n']), ['\n']);
    }
  }

  lemma SplitOfPrinted(lines: seq<string>)
    requires LfFree(lines) && lines != []
    ensures Split(WithoutFinalLf(Printed(lines, ['\n'])), '\n') == lines
  {
    assert WithoutFinalLf(Printed(lines, ['\n'])) == Join(lines, ['\n']);
    assert forall i :: 0 <= i < |lines| ==> lines[i] in lines;
    SplitJoin(lines, '\n');
  }

  lemma LinesOfPrinted(lines: seq<string>, newline: string)
    requires LfFree(lines)
    requires newline == ['\n'] || newline == ['\r', '\n']
    ensures LinesOf(Printed(lines, newline)) == if newline == ['\n'] then DropCrs(lines) else lines
  {
    if lines != [] {
      hide Printed, Join, Split, WithoutFinalLf;
      if newline == ['\n'] {
        UnixPrinted(lines);
        SplitOfPrinted(DropCrs(lines));
      } else {
        PrintedDos(lines);
        UnixDos(Printed(lines, ['\n']));
        SplitOfPrinted(lines);
      }
    }
  }

  lemma DropCrClip(line: string)
    ensures Clip(DropCr(line)) == Clip(line)
  {
    if DropCr(line) != line {
      assert line == DropCr(line) + ['\r'];
      TrimPaddedRight(Space, DropCr(line), ['\r']);
    }
  }

  lemma PrintedAppend(a: seq<string>, b: seq<string>, newline: string)
    ensures Printed(a + b, newline) == Printed(a, newline) + Printed(b, newline)
  {
    if a == [] {
      assert a + b == b;
    } else if b == [] {
      assert a + b == a;
    } else {
      JoinAppend(a, b, newline);
      Assoc(Join(a, newline) + newline, Join(b, newline), newline);
    }
  }

  // Properties -------------------------------------------------------------------------------------

  /** The text before and after the first separator. */
  function Cut(s: string, sep: char): Option<(string, string)> {
    if s == [] then None
    else if s[0] == sep then Some(([], s[1..]))
    else
      match Cut(s[1..], sep)
      case None => None
      case Some((a, b)) => Some(([s[0]] + a, b))
  }

  lemma {:induction false} CutAt(a: string, b: string, sep: char)
    requires sep !in a
    ensures Cut(a + [sep] + b, sep) == Some((a, b))
  {
    var s := a + [sep] + b;
    if a == [] {
      assert s[1..] == b;
    } else {
      assert s[1..] == a[1..] + [sep] + b;
      CutAt(a[1..], b, sep);
      assert a == [a[0]] + a[1..];
    }
  }

  function Property(line: string): Option<(string, string)> {
    var t := Clip(line);
    if t == [] || t[0] == '#' || t[0] == ';' then None
    else
      match Cut(t, '=')
      case None => None
      case Some((k, v)) => Some((Clip(k), Clip(v)))
  }

  lemma {:induction false} CutParts(s: string, sep: char)
    ensures match Cut(s, sep) case None => sep !in s case Some((a, b)) => s == a + [sep] + b && sep !in a
  {
    if s != [] && s[0] != sep {
      CutParts(s[1..], sep);
      assert s == [s[0]] + s[1..];
    }
  }

  /** The text of a line, no comment, is a name, the first equals sign, and a value; both count without spaces. */
  ghost predicate Reads(line: string, a: string, b: string) {
    var t := Clip(line);
    t == a + "=" + b && '=' !in a && t[0] != '#' && t[0] != ';'
  }

  /** A line has a property exactly if it reads as one. */
  lemma PropertyMeans(line: string)
    ensures Property(line).Some? <==> exists a, b :: Reads(line, a, b)
    ensures forall a, b :: Reads(line, a, b) ==> Property(line) == Some((Clip(a), Clip(b)))
  {
    hide Clip, Cut;
    CutParts(Clip(line), '=');
    if Property(line).Some? {
      var (a, b) := Cut(Clip(line), '=').value;
      assert Reads(line, a, b);
    }
    forall a, b | Reads(line, a, b) ensures Property(line) == Some((Clip(a), Clip(b))) {
      CutAt(a, b, '=');
      assert a + ['='] + b == Clip(line);
    }
  }

  /** Simple case folding onto ASCII letters: the Kelvin sign folds to k and the long s to s. */
  function FoldChar(c: char): char {
    if 'A' <= c <= 'Z' then (c as int + 32) as char
    else if c as int == 0x212A then 'k'
    else if c as int == 0x17F then 's'
    else c
  }

  /** Lower case, as far as ASCII results go: the Kelvin sign and the dotted capital I have ASCII lower cases. */
  function LowerChar(c: char): char {
    if 'A' <= c <= 'Z' then (c as int + 32) as char
    else if c as int == 0x212A then 'k'
    else if c as int == 0x130 then 'i'
    else c
  }

  function Fold(s: string): (r: string)
    ensures |r| == |s|
  {
    if s == [] then [] else [FoldChar(s[0])] + Fold(s[1..])
  }

  function Lower(s: string): (r: string)
    ensures |r| == |s|
  {
    if s == [] then [] else [LowerChar(s[0])] + Lower(s[1..])
  }

  predicate EqualFold(s: string, t: string) {
    Fold(s) == Fold(t)
  }

  /** Equal but for the case of ASCII letters, the Kelvin sign being a k and the long s an s. */
  predicate SameLetter(c: char, d: char) {
    || c == d
    || ('a' <= c <= 'z' && d as int + 32 == c as int) || ('a' <= d <= 'z' && c as int + 32 == d as int)
    || {c, d} <= {'k', 'K', 0x212A as char} || {c, d} <= {'s', 'S', 0x17F as char}
  }

  lemma FoldedLetter(c: char, d: char)
    ensures FoldChar(c) == FoldChar(d) <==> SameLetter(c, d)
  {
  }

  lemma {:induction false} FoldAt(s: string, i: nat)
    requires i < |s|
    ensures Fold(s)[i] == FoldChar(s[i])
  {
    if i > 0 { FoldAt(s[1..], i - 1); }
  }

  /** Names are compared letter by letter, whatever their case. */
  lemma EqualFoldMeans(s: string, t: string)
    ensures EqualFold(s, t) <==> |s| == |t| && forall i :: 0 <= i < |s| ==> SameLetter(s[i], t[i])
  {
    hide Fold, FoldChar, SameLetter;
    assert |Fold(s)| == |s| && |Fold(t)| == |t|;
    if |s| == |t| {
      forall i | 0 <= i < |s| ensures Fold(s)[i] == Fold(t)[i] <==> SameLetter(s[i], t[i]) {
        FoldAt(s, i);
        FoldAt(t, i);
        FoldedLetter(s[i], t[i]);
      }
    }
  }

  /** Lower case letter by letter; the Kelvin sign and the dotted capital I have ASCII lower cases. */
  lemma {:induction false} LowerMeans(s: string, i: nat)
    requires i < |s|
    ensures |Lower(s)| == |s|
    ensures if 'A' <= s[i] <= 'Z' then 'a' <= Lower(s)[i] <= 'z' && SameLetter(Lower(s)[i], s[i])
      else Lower(s)[i] == if s[i] as int == 0x212A then 'k' else if s[i] as int == 0x130 then 'i' else s[i]
  {
    if i > 0 { LowerMeans(s[1..], i - 1); }
  }

  lemma ClipTrimRight(s: string)
    ensures Clip(TrimRight(Space, s)) == Clip(s)
  {
    var kept := TrimRight(Space, s);
    TrimRightIs(Space, s);
    assert s == kept + s[|kept|..];
    TrimPaddedRight(Space, kept, s[|kept|..]);
  }

  lemma ClipSpace(s: string)
    ensures Clip([' '] + s) == Clip(s)
  {
    TrimLeftPadded(Space, [' '], s);
  }

  lemma ClipHead(s: string)
    requires s != [] && !Space(s[0])
    ensures Clip(s) == TrimRight(Space, s)
  {
  }

  /** A line that begins with a trimmed text, a space and a value keeps that text; only the value's own spaces go. */
  lemma ClipTagged(tag: string, value: string)
    requires tag != [] && Trimmed(Space, tag)
    ensures Clip(tag + [' '] + value) == tag + TrimRight(Space, [' '] + value)
    ensures Clip(TrimRight(Space, [' '] + value)) == Clip(value)
  {
    hide TrimLeft, Space, Clip;
    var line := tag + [' '] + value;
    assert line == tag + ([' '] + value);
    assert line[0] == tag[0];
    ClipHead(line);
    TrimRightAppend(Space, tag, [' '] + value);
    ClipTrimRight([' '] + value);
    ClipSpace(value);
  }

  lemma PropertyOf(line: string, k: string, v: string)
    requires k != [] && k[0] != '#' && k[0] != ';' && '=' !in k && Clip(line) == k + ['='] + v
    ensures Property(line) == Some((Clip(k), Clip(v)))
  {
    hide Clip;
    CutAt(k, v, '=');
    assert Clip(line)[0] == k[0];
  }

  lemma ClipPadded(s: string)
    requires Trimmed(Space, s)
    ensures Clip(s + [' ']) == s
  {
    TrimPaddedRight(Space, s, [' ']);
    ClipTrimmed(s);
  }

  /** A line written as a property reads back as this property, with its value trimmed. */
  lemma PropertyWritten(name: string, value: string)
    requires name != [] && Trimmed(Space, name) && '=' !in name && name[0] != '#' && name[0] != ';'
    ensures Property(name + [' ', '='] + [' '] + value) == Some((name, Clip(value)))
  {
    hide Property, TrimRight, TrimLeft, Clip;
    var tag, rest := name + [' ', '='], TrimRight(Space, [' '] + value);
    assert Trimmed(Space, tag) by {
      assert tag[0] == name[0] && tag[|tag| - 1] == '=';
    }
    ClipTagged(tag, value);
    assert tag == name + [' '] + ['='];
    var k := name + [' '];
    assert k[0] == name[0];
    PropertyOf(tag + [' '] + value, k, rest);
    ClipPadded(name);
  }

  lemma ClipTrimmed(s: string)
    requires Trimmed(Space, s)
    ensures Clip(s) == s
  {
  }

  /** Properties depend on a line only up to surrounding white space. */
  lemma PropertyClip(a: string, b: string)
    requires Clip(a) == Clip(b)
    ensures Property(a) == Property(b)
  {
  }
}
