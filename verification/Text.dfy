/** Lines, decimal numbers and substrings: the text operations the other modules share. */
module Text {

  datatype Option<T> = None | Some(value: T) {
    function GetOr(default: T): T { if Some? then value else default }
  }

  /******* Lines *******/

  predicate OneLine(s: string) { '\n' !in s }

  /** The text cut at every newline; never empty. */
  function Lines(s: string): (r: seq<string>)
    ensures |r| >= 1
  {
    if s == "" then [""] else Prepend(s[0], Lines(s[1..]))
  }

  /** The lines of a text that begins with `c` and goes on with these lines. */
  function Prepend(c: char, lines: seq<string>): (r: seq<string>)
    requires |lines| >= 1
    ensures |r| >= 1
  {
    if c == '\n' then [""] + lines else [[c] + lines[0]] + lines[1..]
  }

  function Join(lines: seq<string>): string {
    if lines == [] then ""
    else if |lines| == 1 then lines[0]
    else lines[0] + "\n" + Join(lines[1..])
  }

  /** Lines of several texts one after the other. */
  function AllLines(parts: seq<string>): seq<string> {
    if parts == [] then [] else Lines(parts[0]) + AllLines(parts[1..])
  }

  lemma {:induction false} LinesOfOneLine(s: string)
    requires OneLine(s)
    ensures Lines(s) == [s]
  {
    if s != "" {
      assert s[0] in s;
      LinesOfOneLine(s[1..]);
      assert [s[0]] + s[1..] == s;
    }
  }

  lemma {:induction false} LinesAreOneLine(s: string)
    ensures forall l :: l in Lines(s) ==> OneLine(l)
  {
    if s != "" {
      LinesAreOneLine(s[1..]);
      assert Lines(s[1..])[0] in Lines(s[1..]);
    }
  }

  lemma {:induction false} LinesOfConcat(a: string, b: string)
    ensures Lines(a + "\n" + b) == Lines(a) + Lines(b)
  {
    var s := a + "\n" + b;
    if a == "" {
      assert s[1..] == b && s[0] == '\n';
    } else {
      LinesOfConcat(a[1..], b);
      assert s[1..] == a[1..] + "\n" + b && s[0] == a[0];
      PrependConcat(a[0], Lines(a[1..]), Lines(b));
    }
  }

  lemma PrependConcat(c: char, x: seq<string>, y: seq<string>)
    requires |x| >= 1
    ensures Prepend(c, x + y) == Prepend(c, x) + y
  {
  }

  lemma {:induction false} LinesOfJoin(parts: seq<string>)
    requires parts != []
    ensures Lines(Join(parts)) == AllLines(parts)
  {
    if |parts| == 1 {
      assert AllLines(parts) == Lines(parts[0]) + AllLines([]);
    } else {
      LinesOfJoin(parts[1..]);
      LinesOfConcat(parts[0], Join(parts[1..]));
    }
  }

  lemma {:induction false} AllLinesOfOneLines(parts: seq<string>)
    requires forall p :: p in parts ==> OneLine(p)
    ensures AllLines(parts) == parts
  {
    if parts != [] {
      LinesOfOneLine(parts[0]);
      AllLinesOfOneLines(parts[1..]);
    }
  }

  lemma {:induction false} AllLinesOfConcat(a: seq<string>, b: seq<string>)
    ensures AllLines(a + b) == AllLines(a) + AllLines(b)
  {
    if a == [] {
      assert a + b == b;
    } else {
      AllLinesOfConcat(a[1..], b);
      assert (a + b)[1..] == a[1..] + b && (a + b)[0] == a[0];
      Associate(Lines(a[0]), AllLines(a[1..]), AllLines(b));
    }
  }

  lemma Associate(a: seq<string>, b: seq<string>, c: seq<string>)
    ensures a + (b + c) == a + b + c
  {
  }

  /** Joining newline-free lines and splitting again gives them back. */
  lemma LinesRoundTrip(lines: seq<string>)
    requires lines != [] && forall l :: l in lines ==> OneLine(l)
    ensures Lines(Join(lines)) == lines
  {
    LinesOfJoin(lines);
    AllLinesOfOneLines(lines);
  }

  lemma {:induction false} JoinOfLines(s: string)
    ensures Join(Lines(s)) == s
  {
    if s != "" {
      JoinOfLines(s[1..]);
      var rest := Lines(s[1..]);
      if s[0] == '\n' {
        assert ([""] + rest)[1..] == rest;
        assert Join([""] + rest) == "" + "\n" + Join(rest);
      } else {
        assert ([[s[0]] + rest[0]] + rest[1..])[1..] == rest[1..];
        assert Join(rest) == if |rest| == 1 then rest[0] else rest[0] + "\n" + Join(rest[1..]);
      }
    }
  }

  /******* Prefixes *******/

  predicate StartsWith(s: string, prefix: string) { prefix <= s }

  function Skip(s: string, prefix: string): Option<string> {
    if prefix <= s then Some(s[|prefix|..]) else None
  }

  lemma SkipPrefix(prefix: string, rest: string)
    ensures Skip(prefix + rest, prefix) == Some(rest)
  {
    assert (prefix + rest)[|prefix|..] == rest;
  }

  /******* Decimal numbers *******/

  predicate IsDigit(c: char) { '0' <= c <= '9' }

  function DigitOf(d: nat): (c: char)
    requires d < 10
    ensures IsDigit(c) && DigitValue(c) == d
  {
    '0' + d as char
  }

  function DigitValue(c: char): nat
    requires IsDigit(c)
  {
    (c - '0') as nat
  }

  function Decimal(n: nat): (s: string)
    ensures |s| >= 1 && forall c :: c in s ==> IsDigit(c)
  {
    if n < 10 then [DigitOf(n)] else Decimal(n / 10) + [DigitOf(n % 10)]
  }

  /** Read digits greedily: the number they spell after `acc`, and what is left. */
  function ReadDigits(s: string, acc: nat): (nat, string) {
    if s != "" && IsDigit(s[0]) then ReadDigits(s[1..], acc * 10 + DigitValue(s[0])) else (acc, s)
  }

  /** A number with at least one digit at the front of the text. */
  function ReadNat(s: string): Option<(nat, string)> {
    if s != "" && IsDigit(s[0]) then Some(ReadDigits(s, 0)) else None
  }

  lemma {:induction false} ReadDecimal(n: nat, rest: string)
    ensures ReadDigits(Decimal(n) + rest, 0) == ReadDigits(rest, n)
  {
    if n < 10 {
      assert ([DigitOf(n)] + rest)[1..] == rest;
    } else {
      var last := [DigitOf(n % 10)];
      assert Decimal(n) + rest == Decimal(n / 10) + (last + rest);
      ReadDecimal(n / 10, last + rest);
      assert (last + rest)[1..] == rest;
    }
  }

  /** What was written in decimal is read back, whatever follows, as long as that is no digit. */
  lemma DecimalRoundTrip(n: nat, rest: string)
    requires rest == "" || !IsDigit(rest[0])
    ensures ReadNat(Decimal(n) + rest) == Some((n, rest))
  {
    ReadDecimal(n, rest);
    assert (Decimal(n) + rest)[0] == Decimal(n)[0] && Decimal(n)[0] in Decimal(n);
  }

  /******* Occurrences *******/

  predicate OccursAt(s: string, part: string, i: nat) {
    i + |part| <= |s| && s[i..i + |part|] == part
  }

  predicate Occurs(s: string, part: string) {
    exists i: nat :: i <= |s| && OccursAt(s, part, i)
  }

  /** An occurrence in a concatenation begins in the first text or lies in the second. */
  lemma OccursInConcat(a: string, b: string, part: string, i: nat)
    requires part != "" && OccursAt(a + b, part, i)
    ensures if i < |a| then a[i] == part[0] else OccursAt(b, part, i - |a|)
  {
    var s := a + b;
    if i < |a| {
      assert s[i..i + |part|][0] == s[i];
    } else {
      assert b[i - |a|..i - |a| + |part|] == s[i..i + |part|];
    }
  }

  lemma OccursChar(s: string, part: string, i: nat, k: nat)
    requires k < |part|
    ensures OccursAt(s, part, i) ==> s[i + k] == part[k]
  {
    if OccursAt(s, part, i) {
      assert s[i..i + |part|][k] == s[i + k];
    }
  }

  lemma OccursBegins(s: string, part: string, i: nat)
    requires part != ""
    ensures OccursAt(s, part, i) ==> part[0] in s
  {
    if OccursAt(s, part, i) {
      assert s[i..i + |part|][0] == s[i];
    }
  }

  /** A character foreign to the part keeps occurrences on one side of it. */
  lemma OccursBeside(a: string, c: char, b: string, part: string)
    requires c !in part
    ensures Occurs(a + [c] + b, part) ==> Occurs(a, part) || Occurs(b, part)
  {
    var s := a + [c] + b;
    if i: nat :| OccursAt(s, part, i) {
      forall k | i <= k < i + |part| ensures s[k] in part {
        assert s[k] == s[i..i + |part|][k - i];
      }
      assert s[|a|] == c;
      if i + |part| <= |a| {
        assert a[i..i + |part|] == s[i..i + |part|];
        assert OccursAt(a, part, i);
      } else if i > |a| {
        assert b[i - |a| - 1..i - |a| - 1 + |part|] == s[i..i + |part|];
        assert OccursAt(b, part, i - |a| - 1);
      }
    }
  }

  /** What occurs in a line of a text occurs in the text. */
  lemma {:induction false} LineOccurs(s: string, line: string, part: string, i: nat)
    requires line in Lines(s)
    ensures OccursAt(line, part, i) ==> Occurs(s, part)
  {
    FirstLineIsPrefix(s);
    if OccursAt(line, part, i) {
      if line == Lines(s)[0] {
        assert s[i..i + |part|] == line[i..i + |part|];
        assert OccursAt(s, part, i);
      } else {
        assert line in Lines(s[1..]);
        LineOccurs(s[1..], line, part, i);
        var j: nat :| j < |s| && OccursAt(s[1..], part, j);
        assert s[j + 1..j + 1 + |part|] == s[1..][j..j + |part|];
        assert OccursAt(s, part, j + 1);
      }
    }
  }

  lemma {:induction false} FirstLineIsPrefix(s: string)
    ensures Lines(s)[0] <= s
  {
    if s != "" {
      FirstLineIsPrefix(s[1..]);
    }
  }

  /******* Trimming *******/

  /** White space and line terminators as the language's trim understands them. */
  predicate IsSpace(c: char) {
    || '\t' <= c <= '\r' || c == ' ' || c == '\U{00A0}' || c == '\U{1680}'
    || '\U{2000}' <= c <= '\U{200A}' || c == '\U{2028}' || c == '\U{2029}'
    || c == '\U{202F}' || c == '\U{205F}' || c == '\U{3000}' || c == '\U{FEFF}'
  }

  function TrimLeft(s: string): string {
    if s != "" && IsSpace(s[0]) then TrimLeft(s[1..]) else s
  }

  function TrimRight(s: string): string {
    if s != "" && IsSpace(s[|s| - 1]) then TrimRight(s[..|s| - 1]) else s
  }

  function Trim(s: string): string { TrimRight(TrimLeft(s)) }

  predicate Blank(s: string) { forall c :: c in s ==> IsSpace(c) }

  lemma {:induction false} TrimKeeps(s: string)
    ensures forall c :: c in Trim(s) ==> c in s
  {
    TrimLeftKeeps(s);
    TrimRightKeeps(TrimLeft(s));
  }

  lemma {:induction false} TrimLeftKeeps(s: string)
    ensures forall c :: c in TrimLeft(s) ==> c in s
  {
    if s != "" && IsSpace(s[0]) {
      TrimLeftKeeps(s[1..]);
    }
  }

  lemma {:induction false} TrimRightKeeps(s: string)
    ensures forall c :: c in TrimRight(s) ==> c in s
  {
    if s != "" && IsSpace(s[|s| - 1]) {
      TrimRightKeeps(s[..|s| - 1]);
    }
  }
}
