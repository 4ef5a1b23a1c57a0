/**
 Shell quoting (`internal/forge/script.go`), against a reader of the POSIX.1-2017 Shell Command
 Language, sections 2.2.1 (escape character) and 2.2.2 (single-quotes). The reader breaks on every
 character whose meaning it does not model, so a script it reads means what it reads.
 */
module Shell {
  import opened Wrappers

  // ReplaceAll(s, "'", "'\''")
  function Escape(s: string): string {
    if s == "" then "" else (if s[0] == '\'' then "'\\''" else [s[0]]) + Escape(s[1..])
  }

  function Quote(s: string): string {
    "'" + Escape(s) + "'"
  }

  // ----- Reading a script -----

  datatype Token = Word(text: string) | Into   // Into: the > operator

  datatype Mode = Bare | Quoted | Escaped

  /** `word` is the word being read, `line` the tokens before it, `lines` the finished commands. */
  datatype Reader = Broken | Reader(mode: Mode, word: Option<string>, line: seq<Token>, lines: seq<seq<Token>>)

  // Characters that stand for themselves outside quotes.
  predicate Plain(c: char) {
    'a' <= c <= 'z' || 'A' <= c <= 'Z' || '0' <= c <= '9' || c in {'-', '_', '.', '/', '%', ','}
  }

  /** Letters, digits and six signs stand for themselves, by code point; nothing else does. */
  lemma PlainByCodePoint(c: char)
    ensures Plain(c) <==>
      var n := c as int;
      || 0x61 <= n <= 0x7A || 0x41 <= n <= 0x5A || 0x30 <= n <= 0x39
      || n == 0x2D || n == 0x5F || n == 0x2E || n == 0x2F || n == 0x25 || n == 0x2C
  {}

  function Started(word: Option<string>): string {
    if word.Some? then word.value else ""
  }

  function WordEnded(r: Reader): Reader
    requires r.Reader?
  {
    if r.word.None? then r else r.(word := None, line := r.line + [Word(r.word.value)])
  }

  function LineEnded(r: Reader): Reader
    requires r.Reader?
  {
    var w := WordEnded(r);
    if w.line == [] then w else w.(line := [], lines := w.lines + [w.line])
  }

  function Next(r: Reader, c: char): Reader {
    if r.Broken? || c == '\0' then Broken
    else
      match r.mode
      case Quoted => if c == '\'' then r.(mode := Bare) else r.(word := Some(Started(r.word) + [c]))
      case Escaped =>
        if c == '\n' then r.(mode := Bare) else r.(mode := Bare, word := Some(Started(r.word) + [c]))
      case Bare =>
        if c == '\'' then r.(mode := Quoted, word := Some(Started(r.word)))
        else if c == '\\' then r.(mode := Escaped)
        else if c == ' ' || c == '\t' then WordEnded(r)
        else if c == '\n' then LineEnded(r)
        else if c == '>' && r.word.None? then r.(line := r.line + [Into])
        else if Plain(c) then r.(word := Some(Started(r.word) + [c]))
        else Broken
  }

  function Read(r: Reader, s: string): Reader
    decreases |s|
  {
    if s == "" then r else Read(Next(r, s[0]), s[1..])
  }

  function At(lines: seq<seq<Token>>): Reader {
    Reader(Bare, None, [], lines)
  }

  // The commands of a script, or None when some of it is outside the model or left open.
  function Parsed(script: string): Option<seq<seq<Token>>> {
    var r := Read(At([]), script);
    if r.Reader? && r.mode.Bare? then Some(LineEnded(r).lines) else None
  }

  lemma {:induction false} ReadComposes(r: Reader, a: string, b: string)
    ensures Read(r, a + b) == Read(Read(r, a), b)
    decreases |a|
  {
    if a == "" {
      assert a + b == b;
    } else {
      assert (a + b)[0] == a[0] && (a + b)[1..] == a[1..] + b;
      ReadComposes(Next(r, a[0]), a[1..], b);
    }
  }

  lemma {:induction false} BrokenStaysBroken(s: string)
    ensures Read(Broken, s) == Broken
  {
    if s != "" { BrokenStaysBroken(s[1..]); }
  }

  predicate NulFree(s: string) {
    '\0' !in s
  }

  // One escaped apostrophe inside quotes reads as an apostrophe.
  lemma ApostropheReads(r: Reader)
    requires r.Reader? && r.mode.Quoted? && r.word.Some?
    ensures Read(r, "'\\''") == r.(word := Some(r.word.value + "'"))
  {
    var s := "'\\''";
    var r1, r2, r3 := Next(r, '\''), Next(Next(r, '\''), '\\'), Next(Next(Next(r, '\''), '\\'), '\'');
    assert s[1..] == "\\''" && s[1..][1..] == "''" && s[1..][1..][1..] == "'" && s[1..][1..][1..][1..] == "";
    assert Read(r3, "'") == Next(r3, '\'');
    assert Read(r2, "''") == Read(r3, "'");
    assert Read(r1, "\\''") == Read(r2, "''");
  }

  lemma {:induction false} EscapeReads(r: Reader, s: string)
    requires r.Reader? && r.mode.Quoted? && r.word.Some?
    ensures Read(r, Escape(s)) == if NulFree(s) then r.(word := Some(r.word.value + s)) else Broken
    decreases |s|
  {
    if s == "" {
      assert r.word.value + s == r.word.value;
    } else {
      var head := if s[0] == '\'' then "'\\''" else [s[0]];
      ReadComposes(r, head, Escape(s[1..]));
      assert s == [s[0]] + s[1..];
      if s[0] == '\'' { ApostropheReads(r); } else { assert [s[0]][1..] == ""; }
      if s[0] == '\0' {
        BrokenStaysBroken(Escape(s[1..]));
      } else {
        var q := r.(word := Some(r.word.value + [s[0]]));
        assert Read(r, head) == q;
        EscapeReads(q, s[1..]);
        assert (r.word.value + [s[0]]) + s[1..] == r.word.value + s;
      }
    }
  }

  /** Quoted text reads as one word, the text itself, exactly when it holds no NUL. */
  lemma QuoteReadsBackExactlyWhen(s: string)
    ensures Parsed(Quote(s)) == Some([[Word(s)]]) <==> NulFree(s)
    ensures !NulFree(s) ==> Parsed(Quote(s)) == None
  {
    QuoteExtendsTheWord(At([]), s);
    assert "" + s == s;
    var r := At([]).(word := Some(s));
    assert LineEnded(r).lines == [[Word(s)]] by { assert [] + [Word(s)] == [Word(s)]; }
  }

  // Wherever it stands outside quotes, it only extends the word being read.
  lemma QuoteExtendsTheWord(r: Reader, s: string)
    requires r.Reader? && r.mode.Bare?
    ensures Read(r, Quote(s)) == if NulFree(s) then r.(word := Some(Started(r.word) + s)) else Broken
  {
    var open := r.(mode := Quoted, word := Some(Started(r.word)));
    ReadComposes(r, "'" + Escape(s), "'");
    ReadComposes(r, "'", Escape(s));
    EscapeReads(open, s);
    assert "'"[1..] == "";
    assert Read(r, "'") == open;
  }

  lemma {:induction false} PlainReads(r: Reader, s: string)
    requires r.Reader? && r.mode.Bare? && s != "" && forall c | c in s :: Plain(c)
    ensures Read(r, s) == r.(word := Some(Started(r.word) + s))
    decreases |s|
  {
    var q := Next(r, s[0]);
    assert s[0] in s;
    assert s == [s[0]] + s[1..];
    if s[1..] != "" {
      PlainReads(q, s[1..]);
      assert (Started(r.word) + [s[0]]) + s[1..] == Started(r.word) + s;
    } else {
      assert s == [s[0]];
    }
  }
}
