/**
 What the repair of `internal/model/reply.go` does with each byte and each escape of a string literal,
 against the grammar of section 7 of RFC 8259 written out character by character.
 */
module JsonGrammar {
  import opened Wrappers
  import opened JsonRepair

  const LOWER := "0123456789abcdef"
  const UPPER := "0123456789ABCDEF"

  // The character is the hexadecimal digit of that value, in either case.
  predicate DigitOf(c: char, v: nat) {
    v < 16 && (c == LOWER[v] || c == UPPER[v])
  }

  ghost predicate IsDigit(c: char) {
    exists v: nat :: DigitOf(c, v)
  }

  ghost predicate FourDigits(s: Text) {
    |s| >= 4 && forall i | 0 <= i < 4 :: IsDigit(s[i])
  }

  lemma HexOf(c: char, v: nat)
    requires DigitOf(c, v)
    ensures IsHex(c) && HexValue(c) == v
  {
    if v < 10 {
      assert LOWER[v] == UPPER[v] == '0' + v as char;
    } else {
      assert LOWER[v] == 'a' + (v - 10) as char && UPPER[v] == 'A' + (v - 10) as char;
    }
  }

  lemma DigitOfHex(c: char)
    requires IsHex(c)
    ensures DigitOf(c, HexValue(c))
  {
    var v := HexValue(c);
    if v < 10 {
      assert LOWER[v] == '0' + v as char;
    } else {
      assert LOWER[v] == 'a' + (v - 10) as char && UPPER[v] == 'A' + (v - 10) as char;
    }
  }

  /** Four hexadecimal digits are four characters of 0-9, a-f and A-F. */
  lemma FourHexMeans(s: Text)
    ensures HasFourHexDigits(s) <==> FourDigits(s)
  {
    if HasFourHexDigits(s) {
      forall i | 0 <= i < 4 ensures IsDigit(s[i]) { DigitOfHex(s[i]); }
    }
    if FourDigits(s) {
      forall i | 0 <= i < 4 ensures IsHex(s[i]) {
        assert IsDigit(s[i]);
        var v: nat :| DigitOf(s[i], v);
        HexOf(s[i], v);
      }
    }
  }

  /** A backslash starts an escape exactly before one of eight characters, or a u and four such digits. */
  lemma EscapeMeans(rest: Text)
    requires rest != []
    ensures StartsEscape(rest) <==>
      || rest[0] == '"' || rest[0] == '\\' || rest[0] == '/' || rest[0] == 'b' || rest[0] == 'f'
      || rest[0] == 'n' || rest[0] == 'r' || rest[0] == 't'
      || (rest[0] == 'u' && FourDigits(rest[1..]))
  {
    FourHexMeans(rest[1..]);
  }

  /** The character each one-letter escape stands for. */
  lemma LettersMean(rest: Text)
    ensures Strict(['\\', '"'] + rest, true) == Then(Unit(0x22), Strict(rest, true))
    ensures Strict(['\\', '\\'] + rest, true) == Then(Unit(0x5C), Strict(rest, true))
    ensures Strict(['\\', '/'] + rest, true) == Then(Unit(0x2F), Strict(rest, true))
    ensures Strict(['\\', 'b'] + rest, true) == Then(Unit(0x08), Strict(rest, true))
    ensures Strict(['\\', 'f'] + rest, true) == Then(Unit(0x0C), Strict(rest, true))
    ensures Strict(['\\', 'n'] + rest, true) == Then(Unit(0x0A), Strict(rest, true))
    ensures Strict(['\\', 'r'] + rest, true) == Then(Unit(0x0D), Strict(rest, true))
    ensures Strict(['\\', 't'] + rest, true) == Then(Unit(0x09), Strict(rest, true))
  {
    StrictOfLetter('"', rest);
    StrictOfLetter('\\', rest);
    StrictOfLetter('/', rest);
    StrictOfLetter('b', rest);
    StrictOfLetter('f', rest);
    StrictOfLetter('n', rest);
    StrictOfLetter('r', rest);
    StrictOfLetter('t', rest);
  }

  /** A u and four digits of either case are read as their value, and come through the repair as they are. */
  lemma UnicodeEscapeIsKept(d: Text, rest: Text, a: nat, b: nat, c: nat, e: nat)
    requires |d| == 4 && DigitOf(d[0], a) && DigitOf(d[1], b) && DigitOf(d[2], c) && DigitOf(d[3], e)
    ensures Strict(['\\', 'u'] + d + rest, true) == Then(Unit(4096 * a + 256 * b + 16 * c + e), Strict(rest, true))
    ensures Repaired(['\\', 'u'] + d + rest, true) == ['\\', 'u'] + d + Repaired(rest, true)
  {
    HexOf(d[0], a); HexOf(d[1], b); HexOf(d[2], c); HexOf(d[3], e);
    StrictOfUnicode(d, rest);
    var s := ['\\', 'u'] + d + rest;
    assert s[1..][1..] == d + rest && (d + rest)[..4] == d && (d + rest)[4..] == rest;
    FourHexPass(d + rest);
    assert s[1..][0] == 'u';
  }

  // A string literal of plain characters with one such escape among them.
  function Literal(head: Text, d: Text, tail: Text): Text {
    ['"'] + (head + (['\\', 'u'] + d + (tail + ['"'])))
  }

  ghost predicate Plain(s: Text) {
    forall i | 0 <= i < |s| :: s[i] as int >= 0x20 && s[i] != '"' && s[i] != '\\'
  }

  lemma {:induction false} PlainReads(head: Text, rest: Text)
    requires Plain(head)
    ensures Strict(head + rest, true).Some? <==> Strict(rest, true).Some?
  {
    if head == [] {
      assert head + rest == rest;
    } else {
      assert head + rest == [head[0]] + (head[1..] + rest);
      StrictOfPlain(head[0], head[1..] + rest);
      PlainReads(head[1..], rest);
    }
  }

  /** So a literal with an escape of digits of either case is legal, and the repair leaves it alone. */
  lemma LiteralWithUnicodeIsUnchanged(head: Text, d: Text, tail: Text)
    requires Plain(head) && Plain(tail) && |d| == 4 && FourDigits(d)
    ensures Legal(Literal(head, d, tail)) && Repair(Literal(head, d, tail)) == Literal(head, d, tail)
  {
    var s, rest := Literal(head, d, tail), tail + ['"'];
    var a: nat :| DigitOf(d[0], a);
    var b: nat :| DigitOf(d[1], b);
    var c: nat :| DigitOf(d[2], c);
    var e: nat :| DigitOf(d[3], e);
    assert s[1..] == head + (['\\', 'u'] + d + rest);
    PlainReads(head, ['\\', 'u'] + d + rest);
    UnicodeEscapeIsKept(d, rest, a, b, c, e);
    PlainReads(tail, ['"']);
    ClosingQuote();
    RepairIsMinimal(s);
  }

  lemma ClosingQuote()
    ensures Strict(['"'], true).Some?
  {
    assert ['"'][1..] == [];
  }

  /** A backslash before anything else is doubled, and what follows it is repaired as it stands. */
  lemma StrayBackslashIsDoubled(rest: Text)
    requires rest == [] || (rest[0] !in "\"\\/bfnrtu") || (rest[0] == 'u' && !FourDigits(rest[1..]))
    ensures Repaired(['\\'] + rest, true) == ['\\', '\\'] + Repaired(rest, true)
  {
    assert (['\\'] + rest)[1..] == rest;
    if rest != [] {
      EscapeMeans(rest);
      assert rest[0] in "\"\\/bfnrtu" <==>
        rest[0] == '"' || rest[0] == '\\' || rest[0] == '/' || rest[0] == 'b' || rest[0] == 'f'
        || rest[0] == 'n' || rest[0] == 'r' || rest[0] == 't' || rest[0] == 'u';
    }
  }

  /** A byte below 0x20 inside a string is written as \n, \r, \t, or \u00 and two lower-case digits. */
  lemma ControlByteIsWritten(c: char, rest: Text)
    requires c as int < 0x20
    ensures Repaired([c] + rest, true) ==
            (if c as int == 0x0A then ['\\', 'n']
             else if c as int == 0x0D then ['\\', 'r']
             else if c as int == 0x09 then ['\\', 't']
             else ['\\', 'u', '0', '0', LOWER[c as int / 16], LOWER[c as int % 16]]) + Repaired(rest, true)
  {
    assert ([c] + rest)[1..] == rest;
    DigitOfHex(HexDigit(c as int / 16));
    DigitOfHex(HexDigit(c as int % 16));
    LowerDigit(c as int / 16);
    LowerDigit(c as int % 16);
  }

  lemma LowerDigit(n: nat)
    requires n < 16
    ensures HexDigit(n) == LOWER[n]
  {
    if n < 10 { assert LOWER[n] == '0' + n as char; } else { assert LOWER[n] == 'a' + (n - 10) as char; }
  }

  /** An ASCII byte stands for itself, and a byte of a longer sequence is passed on as it is. */
  lemma OrdinaryBytesMean(c: char, rest: Text)
    requires c as int >= 0x20 && c != '"' && c != '\\'
    ensures c as int < 0x80 ==> Strict([c] + rest, true) == Then(Unit(c as int), Strict(rest, true))
    ensures c as int >= 0x80 ==> Strict([c] + rest, true) == Then(HighByte(c), Strict(rest, true))
  {
    StrictOfPlain(c, rest);
  }

  /** Outside a string nothing changes; a quote opens one, and inside it a bare quote closes it. */
  lemma OtherBytesAreKept(c: char, rest: Text)
    ensures Repaired([c] + rest, false) == [c] + Repaired(rest, c == '"')
    ensures c == '"' ==> Repaired([c] + rest, true) == [c] + Repaired(rest, false)
    ensures c as int >= 0x20 && c != '"' && c != '\\' ==> Repaired([c] + rest, true) == [c] + Repaired(rest, true)
    ensures Repaired([], false) == [] && Repaired([], true) == []
  {
    assert ([c] + rest)[1..] == rest;
  }
}
