/** The few string functions of the standard library the program leans on, on sequences of characters. */
module Text {

  // strings.Split(s, "\n")
  function Split(s: string): (lines: seq<string>)
    ensures |lines| >= 1
  {
    if s == [] then [[]]
    else
      var rest := Split(s[1..]);
      if s[0] == '\n' then [[]] + rest else [[s[0]] + rest[0]] + rest[1..]
  }

  predicate HasSuffixNewline(s: string) {
    s != [] && s[|s| - 1] == '\n'
  }

  // strings.TrimSuffix(s, "\n")
  function TrimNewline(s: string): string {
    if HasSuffixNewline(s) then s[..|s| - 1] else s
  }

  // Every line followed by a newline.
  function Unlines(lines: seq<string>): string {
    if lines == [] then [] else lines[0] + "\n" + Unlines(lines[1..])
  }

  predicate OneLine(s: string) {
    '\n' !in s
  }

  predicate HasPrefix(s: string, prefix: string) {
    prefix <= s
  }

  // unicode.IsSpace
  predicate IsSpace(c: char) {
    c in {'\t', '\n', '\U{0B}', '\U{0C}', '\r', ' ', '\U{85}', '\U{A0}', '\U{1680}',
          '\U{2028}', '\U{2029}', '\U{202F}', '\U{205F}', '\U{3000}'}
    || '\U{2000}' <= c <= '\U{200A}'
  }

  function TrimLeft(s: string, cut: char -> bool): string {
    if s != [] && cut(s[0]) then TrimLeft(s[1..], cut) else s
  }

  function TrimRight(s: string, cut: char -> bool): string {
    if s != [] && cut(s[|s| - 1]) then TrimRight(s[..|s| - 1], cut) else s
  }

  function TrimSpace(s: string): string {
    TrimRight(TrimLeft(s, IsSpace), IsSpace)
  }

  /** The white space of Unicode, by code point. */
  lemma SpacesByCodePoint(c: char)
    ensures IsSpace(c) <==>
      var n := c as int;
      || 0x09 <= n <= 0x0D || n == 0x20 || n == 0x85 || n == 0xA0 || n == 0x1680 || 0x2000 <= n <= 0x200A
      || n == 0x2028 || n == 0x2029 || n == 0x202F || n == 0x205F || n == 0x3000
  {}

  lemma {:induction false} SplitLinesAreOneLine(s: string)
    ensures forall i | 0 <= i < |Split(s)| :: OneLine(Split(s)[i])
  {
    if s != [] { SplitLinesAreOneLine(s[1..]); }
  }

  lemma {:induction false} SplitOfOneLine(s: string)
    requires OneLine(s)
    ensures Split(s) == [s]
  {
    if s != [] {
      SplitOfOneLine(s[1..]);
      assert [s[0]] + s[1..] == s;
    }
  }

  lemma {:induction false} SplitAfterLine(line: string, rest: string)
    requires OneLine(line)
    ensures Split(line + "\n" + rest) == [line] + Split(rest)
  {
    var s := line + "\n" + rest;
    if line == [] {
      assert s[1..] == rest;
    } else {
      SplitAfterLine(line[1..], rest);
      assert s[1..] == line[1..] + "\n" + rest;
      assert [line[0]] + line[1..] == line;
    }
  }

  // The lines of a text with one more character in front.
  function Prepend(c: char, lines: seq<string>): seq<string>
    requires lines != []
  {
    if c == '\n' then [[]] + lines else [[c] + lines[0]] + lines[1..]
  }

  lemma PrependIsLocal(c: char, lines: seq<string>, more: seq<string>)
    requires lines != []
    ensures Prepend(c, lines + more) == Prepend(c, lines) + more
  {
    assert (lines + more)[1..] == lines[1..] + more;
  }

  /** Lines split apart at a newline are the lines of the two sides. */
  lemma {:induction false} SplitAtNewline(a: string, b: string)
    ensures Split(a + "\n" + b) == Split(a) + Split(b)
  {
    var s := a + "\n" + b;
    if a == [] {
      assert s[1..] == b;
    } else {
      SplitAtNewline(a[1..], b);
      assert s[1..] == a[1..] + "\n" + b;
      assert Split(s) == Prepend(a[0], Split(s[1..]));
      PrependIsLocal(a[0], Split(a[1..]), Split(b));
    }
  }

  predicate Contains(s: string, part: string) {
    part <= s || (s != [] && Contains(s[1..], part))
  }

  lemma {:induction false} UnlinesEndsInNewline(lines: seq<string>)
    requires lines != []
    ensures HasSuffixNewline(Unlines(lines))
  {
    if |lines| > 1 { UnlinesEndsInNewline(lines[1..]); }
  }

  /** Splitting a text written line by line gives those lines back. */
  lemma {:induction false} SplitUnlines(lines: seq<string>)
    requires lines != [] && forall i | 0 <= i < |lines| :: OneLine(lines[i])
    ensures Split(TrimNewline(Unlines(lines))) == lines
  {
    UnlinesEndsInNewline(lines);
    if |lines| == 1 {
      assert Unlines(lines[1..]) == [];
      assert Unlines(lines) == lines[0] + "\n";
      assert TrimNewline(Unlines(lines)) == lines[0];
      SplitOfOneLine(lines[0]);
    } else {
      UnlinesEndsInNewline(lines[1..]);
      SplitUnlines(lines[1..]);
      assert TrimNewline(Unlines(lines)) == lines[0] + "\n" + TrimNewline(Unlines(lines[1..]));
      SplitAfterLine(lines[0], TrimNewline(Unlines(lines[1..])));
    }
  }

  lemma {:induction false} UnlinesConcat(a: seq<string>, b: seq<string>)
    ensures Unlines(a + b) == Unlines(a) + Unlines(b)
  {
    if a == [] {
      assert a + b == b;
    } else {
      UnlinesConcat(a[1..], b);
      assert (a + b)[1..] == a[1..] + b && (a + b)[0] == a[0];
    }
  }

  // ----- Decimal numbers -----

  function Itoa(n: int): (s: string)
    decreases if n < 0 then 1 else 0, if n < 0 then -n else n
  {
    if n < 0 then "-" + Itoa(-n)
    else if n < 10 then [Digit(n)]
    else Itoa(n / 10) + [Digit(n % 10)]
  }

  function Digit(n: int): char
    requires 0 <= n < 10
  {
    '0' + n as char
  }

  lemma {:induction false} ItoaIsPlain(n: int)
    ensures Itoa(n) != [] && forall c | c in Itoa(n) :: !IsSpace(c)
    ensures Itoa(n) == "0" <==> n == 0
    decreases if n < 0 then 1 else 0, if n < 0 then -n else n
  {
    if n < 0 { ItoaIsPlain(-n); }
    else if n >= 10 { ItoaIsPlain(n / 10); }
  }

  // The number a run of decimal digits stands for.
  function Reads(s: string): int {
    if s == [] then 0
    else if s[0] == '-' then -Reads(s[1..])
    else 10 * Reads(s[..|s| - 1]) + (s[|s| - 1] as int - '0' as int)
  }

  /** A number written out reads back as itself. */
  lemma {:induction false} ItoaReadsBack(n: int)
    ensures Reads(Itoa(n)) == n && (n >= 0 ==> Itoa(n)[0] != '-') && Itoa(n) != []
    decreases if n < 0 then 1 else 0, if n < 0 then -n else n
  {
    if n < 0 {
      ItoaReadsBack(-n);
      assert ("-" + Itoa(-n))[1..] == Itoa(-n);
    } else if n >= 10 {
      ItoaReadsBack(n / 10);
      var s := Itoa(n);
      assert s[..|s| - 1] == Itoa(n / 10) && s[0] == Itoa(n / 10)[0];
    } else {
      assert Itoa(n)[..0] == [];
    }
  }

  /** A part is contained where the text goes on with it. */
  lemma {:induction false} ContainsMeans(s: string, part: string)
    ensures Contains(s, part) <==> exists i: nat :: i <= |s| && part <= s[i..]
  {
    if part <= s { assert part <= s[0..]; }
    if s != [] {
      ContainsMeans(s[1..], part);
      if i: nat :| i <= |s[1..]| && part <= s[1..][i..] { assert s[1..][i..] == s[i + 1..]; }
      if i: nat :| 0 < i <= |s| && part <= s[i..] { assert s[i..] == s[1..][i - 1..]; }
    }
    assert s[0..] == s;
  }
}
