/**
 Repairing the JSON a model wrote (`internal/model/reply.go`).

 Text is a sequence of bytes, written as characters; nothing depends on the values from 0x80 up.
 The rules for string literals are those of section 7 of RFC 8259.
 */
module JsonRepair {
  import opened Wrappers

  type Text = seq<char>

  // ----- The scanner -----

  predicate IsHex(c: char) {
    '0' <= c <= '9' || 'a' <= c <= 'f' || 'A' <= c <= 'F'
  }

  predicate HasFourHexDigits(s: Text) {
    |s| >= 4 && IsHex(s[0]) && IsHex(s[1]) && IsHex(s[2]) && IsHex(s[3])
  }

  // Whether rest opens with a character that may follow a backslash.
  predicate StartsEscape(rest: Text)
    requires rest != []
  {
    || rest[0] in {'"', '\\', '/', 'b', 'f', 'n', 'r', 't'}
    || (rest[0] == 'u' && HasFourHexDigits(rest[1..]))
  }

  function HexDigit(n: int): (c: char)
    requires 0 <= n < 16
    ensures IsHex(c) && HexValue(c) == n
  {
    if n < 10 then '0' + n as char else 'a' + (n - 10) as char
  }

  function HexValue(c: char): int
    requires IsHex(c)
  {
    if c <= '9' then c as int - '0' as int
    else if c <= 'F' then c as int - 'A' as int + 10
    else c as int - 'a' as int + 10
  }

  // How one byte below 0x20 is written inside a string.
  function EscapeControl(c: char): Text
    requires c < ' '
  {
    if c == '\n' then "\\n"
    else if c == '\r' then "\\r"
    else if c == '\t' then "\\t"
    else "\\u00" + [HexDigit(c as int / 16), HexDigit(c as int % 16)]
  }

  // What the scanner makes of s when it stands inside or outside a string.
  function Repaired(s: Text, inString: bool): Text
    decreases |s|
  {
    if s == [] then []
    else
      var c, rest := s[0], s[1..];
      if !inString then [c] + Repaired(rest, c == '"')
      else if c == '\\' then
        if rest != [] && StartsEscape(rest) then [c, rest[0]] + Repaired(rest[1..], true)
        else "\\\\" + Repaired(rest, true)
      else if c == '"' then [c] + Repaired(rest, false)
      else if c < ' ' then EscapeControl(c) + Repaired(rest, true)
      else [c] + Repaired(rest, true)
  }

  function Repair(s: Text): Text {
    Repaired(s, false)
  }

  // The two bytes an accepted escape opens with, or a doubled backslash; and how much was consumed.
  method WriteEscape(b: Text, rest: Text) returns (b': Text, consumed: nat)
    ensures if rest != [] && StartsEscape(rest) then b' == b + ['\\', rest[0]] && consumed == 1
            else b' == b + "\\\\" && consumed == 0
  {
    if rest == [] {
      return b + "\\\\", 0;
    }
    if !StartsEscape(rest) {
      return b + "\\\\", 0;
    }
    b' := b + ['\\'];
    b' := b' + [rest[0]];
    assert b' == b + ['\\', rest[0]];
    return b', 1;
  }

  // One byte, or one escape's opening two, of the scan.
  method ScanOne(b: Text, s: Text, i: nat, inString: bool) returns (b': Text, i': nat, inString': bool)
    requires i < |s|
    ensures i < i' <= |s|
    ensures b' + Repaired(s[i'..], inString') == b + Repaired(s[i..], inString)
  {
    var c := s[i];
    b', i', inString' := b, i, inString;
    assert s[i..][1..] == s[i + 1..];
    if !inString {
      b' := b + [c];
      if c == '"' { inString' := true; }
      Reassociate(b, [c], Repaired(s[i + 1..], inString'));
    } else if c == '\\' {
      var consumed;
      b', consumed := WriteEscape(b, s[i + 1..]);
      i' := i + consumed;
      assert s[i + 1..][consumed..] == s[i' + 1..];
      Reassociate(b, ['\\', if consumed == 1 then s[i + 1] else '\\'], Repaired(s[i' + 1..], true));
    } else if c == '"' {
      b' := b + [c];
      inString' := false;
      Reassociate(b, [c], Repaired(s[i + 1..], false));
    } else if c < ' ' {
      b' := b + EscapeControl(c);
      Reassociate(b, EscapeControl(c), Repaired(s[i + 1..], true));
    } else {
      b' := b + [c];
      Reassociate(b, [c], Repaired(s[i + 1..], true));
    }
    i' := i' + 1;
  }

  lemma Reassociate<T>(a: seq<T>, b: seq<T>, c: seq<T>)
    ensures a + (b + c) == a + b + c
  {}

  method EscapeControlCharsInStrings(s: Text) returns (b: Text)
    ensures b == Repair(s)
  {
    b := [];
    var inString, i := false, 0;
    while i < |s|
      invariant i <= |s|
      invariant b + Repaired(s[i..], inString) == Repair(s)
    {
      b, i, inString := ScanOne(b, s, i, inString);
    }
  }

  // ----- What a text says -----

  /** A text as its reader sees it: bytes outside strings as they are, and inside each string the
      characters its literal stands for. A byte from 0x80 up is part of some UTF-8 sequence. */
  datatype Event = Outside(byte: char) | Open | Unit(code: int) | HighByte(byte: char) | Close | Unterminated

  function Raw(c: char): Event {
    if c as int < 0x80 then Unit(c as int) else HighByte(c)
  }

  // The character a one-letter escape stands for.
  function Letter(c: char): (code: int)
    requires c in {'"', '\\', '/', 'b', 'f', 'n', 'r', 't'}
  {
    if c == 'b' then 8 else if c == 'f' then 12 else if c == 'n' then 10
    else if c == 'r' then 13 else if c == 't' then 9 else c as int
  }

  function FourHex(s: Text): int
    requires HasFourHexDigits(s)
  {
    ((HexValue(s[0]) * 16 + HexValue(s[1])) * 16 + HexValue(s[2])) * 16 + HexValue(s[3])
  }

  function Then(e: Event, rest: Option<seq<Event>>): Option<seq<Event>> {
    if rest.Some? then Some([e] + rest.value) else None
  }

  /** The strict reading: None as soon as a string literal breaks section 7 of RFC 8259. */
  function Strict(s: Text, inString: bool): Option<seq<Event>>
    decreases |s|
  {
    if s == [] then Some(if inString then [Unterminated] else [])
    else
      var c, rest := s[0], s[1..];
      if !inString then Then(if c == '"' then Open else Outside(c), Strict(rest, c == '"'))
      else if c == '"' then Then(Close, Strict(rest, false))
      else if c == '\\' then
        if rest == [] then None
        else if rest[0] in {'"', '\\', '/', 'b', 'f', 'n', 'r', 't'} then
          Then(Unit(Letter(rest[0])), Strict(rest[1..], true))
        else if rest[0] == 'u' && HasFourHexDigits(rest[1..]) then
          Then(Unit(FourHex(rest[1..])), Strict(rest[5..], true))
        else None
      else if c < ' ' then None
      else Then(Raw(c), Strict(rest, true))
  }

  /** The lenient reading: a control byte stands for itself, and so does a backslash that escapes nothing. */
  function Lenient(s: Text, inString: bool): seq<Event>
    decreases |s|
  {
    if s == [] then if inString then [Unterminated] else []
    else
      var c, rest := s[0], s[1..];
      if !inString then [if c == '"' then Open else Outside(c)] + Lenient(rest, c == '"')
      else if c == '"' then [Close] + Lenient(rest, false)
      else if c == '\\' && rest != [] && rest[0] in {'"', '\\', '/', 'b', 'f', 'n', 'r', 't'} then
        [Unit(Letter(rest[0]))] + Lenient(rest[1..], true)
      else if c == '\\' && rest != [] && rest[0] == 'u' && HasFourHexDigits(rest[1..]) then
        [Unit(FourHex(rest[1..]))] + Lenient(rest[5..], true)
      else [Raw(c)] + Lenient(rest, true)
  }

  predicate Legal(s: Text) {
    Strict(s, false).Some?
  }

  // ----- Soundness -----

  // A string's plain characters pass through unchanged.
  lemma {:induction false} PlainPasses(c: char, rest: Text)
    requires c >= ' ' && c != '"' && c != '\\'
    ensures Repaired([c] + rest, true) == [c] + Repaired(rest, true)
  {
    assert ([c] + rest)[1..] == rest;
  }

  lemma HexIsPlain(c: char)
    requires IsHex(c)
    ensures c >= ' ' && c != '"' && c != '\\'
  {}

  lemma {:induction false} PlainPrefixPasses(s: Text, n: nat)
    requires n <= |s| && forall i | 0 <= i < n :: s[i] >= ' ' && s[i] != '"' && s[i] != '\\'
    ensures Repaired(s, true) == s[..n] + Repaired(s[n..], true)
  {
    if n > 0 {
      PlainPrefixPasses(s[1..], n - 1);
      assert s == [s[0]] + s[1..];
      PlainPasses(s[0], s[1..]);
      assert s[1..][n - 1..] == s[n..];
      assert s[..n] == [s[0]] + s[1..][..n - 1];
      Reassociate([s[0]], s[1..][..n - 1], Repaired(s[n..], true));
    } else {
      assert s[0..] == s && s[..0] == [];
    }
  }

  lemma FourHexPass(s: Text)
    requires HasFourHexDigits(s)
    ensures Repaired(s, true) == s[..4] + Repaired(s[4..], true)
  {
    HexIsPlain(s[0]); HexIsPlain(s[1]); HexIsPlain(s[2]); HexIsPlain(s[3]);
    PlainPrefixPasses(s, 4);
  }

  lemma StrictOfLetter(letter: char, rest: Text)
    requires letter in {'"', '\\', '/', 'b', 'f', 'n', 'r', 't'}
    ensures Strict(['\\', letter] + rest, true) == Then(Unit(Letter(letter)), Strict(rest, true))
  {
    assert (['\\', letter] + rest)[1..] == [letter] + rest;
    assert ([letter] + rest)[1..] == rest;
  }

  lemma StrictOfUnicode(digits: Text, rest: Text)
    requires |digits| == 4 && HasFourHexDigits(digits)
    ensures Strict(['\\', 'u'] + digits + rest, true) == Then(Unit(FourHex(digits)), Strict(rest, true))
  {
    var s := ['\\', 'u'] + digits + rest;
    assert s[1..][1..] == digits + rest;
    assert s[1..][5..] == rest;
    assert FourHex(s[1..][1..]) == FourHex(digits);
  }

  lemma StrictOfPlain(c: char, rest: Text)
    requires c >= ' ' && c != '"' && c != '\\'
    ensures Strict([c] + rest, true) == Then(Raw(c), Strict(rest, true))
  {
    assert ([c] + rest)[1..] == rest;
  }

  lemma StrictOfControl(c: char, rest: Text)
    requires c < ' '
    ensures Strict(EscapeControl(c) + rest, true) == Then(Unit(c as int), Strict(rest, true))
  {
    if c == '\n' { StrictOfLetter('n', rest); }
    else if c == '\r' { StrictOfLetter('r', rest); }
    else if c == '\t' { StrictOfLetter('t', rest); }
    else {
      var digits := ['0', '0', HexDigit(c as int / 16), HexDigit(c as int % 16)];
      assert EscapeControl(c) == ['\\', 'u'] + digits;
      StrictOfUnicode(digits, rest);
      assert FourHex(digits) == c as int;
    }
  }

  /**
   Repair is sound: whatever the bytes, the output's string literals are legal, and reading the
   output strictly gives exactly what a lenient reader makes of the input.
   */
  lemma {:induction false} RepairKeepsTheReading(s: Text, inString: bool)
    ensures Strict(Repaired(s, inString), inString) == Some(Lenient(s, inString))
    decreases |s|
  {
    if s == [] {
    } else {
      var c, rest := s[0], s[1..];
      if !inString {
        RepairKeepsTheReading(rest, c == '"');
        assert ([c] + Repaired(rest, c == '"'))[1..] == Repaired(rest, c == '"');
      } else if c == '"' {
        RepairKeepsTheReading(rest, false);
        assert ([c] + Repaired(rest, false))[1..] == Repaired(rest, false);
      } else if c == '\\' {
        BackslashKeepsTheReading(s);
      } else if c < ' ' {
        RepairKeepsTheReading(rest, true);
        StrictOfControl(c, Repaired(rest, true));
      } else {
        RepairKeepsTheReading(rest, true);
        StrictOfPlain(c, Repaired(rest, true));
      }
    }
  }

  lemma {:induction false} BackslashKeepsTheReading(s: Text)
    requires s != [] && s[0] == '\\'
    ensures Strict(Repaired(s, true), true) == Some(Lenient(s, true))
    decreases |s|, 1
  {
    var rest := s[1..];
    if rest != [] && rest[0] in {'"', '\\', '/', 'b', 'f', 'n', 'r', 't'} {
      RepairKeepsTheReading(rest[1..], true);
      StrictOfLetter(rest[0], Repaired(rest[1..], true));
    } else if rest != [] && StartsEscape(rest) {
      UnicodeKeepsTheReading(s);
    } else {
      RepairKeepsTheReading(rest, true);
      StrictOfLetter('\\', Repaired(rest, true));
      assert Raw('\\') == Unit(Letter('\\'));
    }
  }

  lemma {:induction false} UnicodeKeepsTheReading(s: Text)
    requires |s| > 1 && s[0] == '\\' && s[1] == 'u' && StartsEscape(s[1..])
    ensures Strict(Repaired(s, true), true) == Some(Lenient(s, true))
    decreases |s|, 0
  {
    var rest := s[1..];
    RepairKeepsTheReading(rest[5..], true);
    FourHexPass(rest[1..]);
    var digits := rest[1..][..4];
    assert rest[1..][4..] == rest[5..];
    assert Repaired(s, true) == ['\\', 'u'] + digits + Repaired(rest[5..], true);
    StrictOfUnicode(digits, Repaired(rest[5..], true));
  }

  // ----- Minimality -----

  lemma {:induction false} LegalIsUnchanged(s: Text, inString: bool)
    requires Strict(s, inString).Some?
    ensures Repaired(s, inString) == s
    decreases |s|
  {
    if s != [] {
      var c, rest := s[0], s[1..];
      assert s == [c] + rest;
      if !inString {
        LegalIsUnchanged(rest, c == '"');
      } else if c == '"' {
        LegalIsUnchanged(rest, false);
      } else if c == '\\' {
        assert rest == [rest[0]] + rest[1..];
        if rest[0] == 'u' {
          LegalIsUnchanged(rest[5..], true);
          FourHexPass(rest[1..]);
          assert rest[1..] == rest[1..][..4] + rest[1..][4..];
          assert rest[1..][4..] == rest[5..];
        } else {
          LegalIsUnchanged(rest[1..], true);
        }
      } else {
        LegalIsUnchanged(rest, true);
      }
    }
  }

  /** Repair changes a text exactly when some string literal in it is illegal. */
  lemma RepairIsMinimal(s: Text)
    ensures Repair(s) == s <==> Legal(s)
  {
    RepairKeepsTheReading(s, false);
    if Legal(s) { LegalIsUnchanged(s, false); }
  }

  lemma RepairIsIdempotent(s: Text)
    ensures Legal(Repair(s)) && Repair(Repair(s)) == Repair(s)
  {
    RepairKeepsTheReading(s, false);
    LegalIsUnchanged(Repair(s), false);
  }

  /** Repair changes no reading at all: the bytes outside strings, the strings and what they say. */
  lemma RepairChangesNoReading(s: Text)
    ensures Lenient(Repair(s), false) == Lenient(s, false)
    ensures Legal(s) ==> Strict(s, false) == Some(Lenient(s, false))
  {
    RepairKeepsTheReading(s, false);
    RepairIsIdempotent(s);
    RepairKeepsTheReading(Repair(s), false);
    if Legal(s) { LegalIsUnchanged(s, false); }
  }

  // ----- DecodeJSON -----

  /** Strict first; then the repaired text; and the original error if that fails too. */
  method DecodeJSON<T(==), E(==)>(payload: Text, decode: Text -> Result<T, E>) returns (r: Result<T, E>)
    ensures decode(payload).Ok? ==> r == decode(payload)
    ensures decode(payload).Err? && decode(Repair(payload)).Ok? ==> r == decode(Repair(payload))
    ensures decode(payload).Err? && decode(Repair(payload)).Err? ==> r == decode(payload)
    ensures Legal(payload) ==> r == decode(payload)
  {
    RepairIsMinimal(payload);
    r := decode(payload);
    if r.Ok? { return; }
    var repaired := EscapeControlCharsInStrings(payload);
    if repaired == payload { return; }
    var again := decode(repaired);
    if again.Ok? { return again; }
  }
}
