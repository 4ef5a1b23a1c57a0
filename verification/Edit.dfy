/**
 Turning an agent's description of a change into a line range of a file, and applying it
 (`internal/edit/edit.go`).
 */
module Edit {
  import opened Wrappers
  import opened Text

  datatype Edit = Edit(path: string, oldStr: string, decl: string, startLine: int, endLine: int, replace: string)

  datatype Mode = ByText | ByDecl | ByLines | WholeFile

  /** An inclusive, 1-indexed line range, or the end of the file. */
  datatype Span = Span(from: int, to: int, append: bool)

  /** What addressing by text comes to. */
  datatype Resolution =
    | Found(from: nat, to: nat)
    | NothingQuoted
    | Diverges(start: nat, agreed: nat)  // the first `agreed` lines match at line `start`, the next does not
    | Absent                             // "not even its first line" appears
    | Ambiguous(at: seq<nat>)

  // Exactly one way of saying where; anything else is refused.
  function Address(e: Edit): Option<Mode> {
    if e.oldStr != "" && e.decl == "" then Some(ByText)
    else if e.decl != "" && e.oldStr == "" then Some(ByDecl)
    else if e.oldStr == "" && e.decl == "" && e.startLine > 0 then Some(ByLines)
    else if e.oldStr == "" && e.decl == "" && e.startLine == 0 && e.endLine == 0 then Some(WholeFile)
    else None
  }

  // split: the lines of a file, its trailing newline aside.
  function Lines(s: string): (lines: seq<string>)
    ensures |lines| >= 1
  {
    Split(TrimNewline(s))
  }

  predicate IsBlank(c: char) {
    c == ' ' || c == '\t'
  }

  // The two ways of comparing lines.
  function Strict(s: string): string {
    TrimRight(s, IsBlank)
  }

  function Loose(s: string): string {
    TrimSpace(s)
  }

  /** Strict comparison ignores blanks and tabs at the end of a line, and nothing else. */
  lemma {:induction false} StrictMeans(s: string)
    ensures Strict(s) <= s && forall i | |Strict(s)| <= i < |s| :: s[i] == ' ' || s[i] == '\t'
    ensures Strict(s) != "" ==> Strict(s)[|Strict(s)| - 1] != ' ' && Strict(s)[|Strict(s)| - 1] != '\t'
    decreases |s|
  {
    if s != [] && IsBlank(s[|s| - 1]) { StrictMeans(s[..|s| - 1]); }
  }

  // ----- Occurrences of a quote -----

  predicate OccursAt(lines: seq<string>, quote: seq<string>, norm: string -> string, i: nat) {
    i + |quote| <= |lines| && forall j | 0 <= j < |quote| :: norm(lines[i + j]) == norm(quote[j])
  }

  // The 1-indexed lines below n where the quote occurs.
  function OccurrencesBelow(lines: seq<string>, quote: seq<string>, norm: string -> string, n: nat): seq<nat> {
    if n == 0 then []
    else OccurrencesBelow(lines, quote, norm, n - 1) + if OccursAt(lines, quote, norm, n - 1) then [n] else []
  }

  function Occurrences(lines: seq<string>, quote: seq<string>, norm: string -> string): seq<nat> {
    OccurrencesBelow(lines, quote, norm, |lines|)
  }

  method Matches(lines: seq<string>, quote: seq<string>, norm: string -> string) returns (at: seq<nat>)
    requires quote != []
    ensures at == Occurrences(lines, quote, norm)
  {
    at := [];
    var i := 0;
    while i + |quote| <= |lines|
      invariant i <= |lines|
      invariant at == OccurrencesBelow(lines, quote, norm, i)
    {
      var found, j := true, 0;
      while j < |quote|
        invariant j <= |quote|
        invariant found && forall k | 0 <= k < j :: norm(lines[i + k]) == norm(quote[k])
      {
        if norm(lines[i + j]) != norm(quote[j]) {
          found := false;
          break;
        }
        j := j + 1;
      }
      assert found <==> OccursAt(lines, quote, norm, i);
      if found { at := at + [i + 1]; }
      i := i + 1;
    }
    NothingPastTheEnd(lines, quote, norm, i);
  }

  lemma {:induction false} NothingPastTheEnd(lines: seq<string>, quote: seq<string>, norm: string -> string, n: nat)
    requires n <= |lines| && n + |quote| > |lines|
    ensures Occurrences(lines, quote, norm) == OccurrencesBelow(lines, quote, norm, n)
    decreases |lines| - n
  {
    if n < |lines| { NothingPastTheEnd(lines, quote, norm, n + 1); }
  }

  lemma {:induction false} OccurrencesAreComplete(lines: seq<string>, quote: seq<string>, norm: string -> string,
                                                  n: nat)
    ensures forall k: nat ::
      k in OccurrencesBelow(lines, quote, norm, n) <==> 1 <= k <= n && OccursAt(lines, quote, norm, k - 1)
    ensures forall i, j | 0 <= i < j < |OccurrencesBelow(lines, quote, norm, n)| ::
      OccurrencesBelow(lines, quote, norm, n)[i] < OccurrencesBelow(lines, quote, norm, n)[j]
  {
    if n > 0 {
      OccurrencesAreComplete(lines, quote, norm, n - 1);
      var below := OccurrencesBelow(lines, quote, norm, n - 1);
      assert forall i | 0 <= i < |below| :: below[i] in below;
    }
  }

  ghost predicate OccursOnlyAt(lines: seq<string>, quote: seq<string>, norm: string -> string, i: nat) {
    OccursAt(lines, quote, norm, i) && forall k: nat | OccursAt(lines, quote, norm, k) :: k == i
  }

  ghost predicate OccursNowhere(lines: seq<string>, quote: seq<string>, norm: string -> string) {
    forall k: nat :: !OccursAt(lines, quote, norm, k)
  }

  lemma OccurrencesAll(lines: seq<string>, quote: seq<string>, norm: string -> string, k: nat)
    requires quote != []
    ensures OccursAt(lines, quote, norm, k) <==> k + 1 in Occurrences(lines, quote, norm)
  {
    OccurrencesAreComplete(lines, quote, norm, |lines|);
  }

  // How the number of occurrences found tells none, one and several apart.
  lemma CountingOccurrences(lines: seq<string>, quote: seq<string>, norm: string -> string)
    requires quote != []
    ensures |Occurrences(lines, quote, norm)| == 0 <==> OccursNowhere(lines, quote, norm)
    ensures |Occurrences(lines, quote, norm)| == 1 ==>
      var k := Occurrences(lines, quote, norm)[0];
      k >= 1 && OccursOnlyAt(lines, quote, norm, k - 1)
    ensures forall i: nat | OccursOnlyAt(lines, quote, norm, i) :: Occurrences(lines, quote, norm) == [i + 1]
  {
    var at := Occurrences(lines, quote, norm);
    OccurrencesAreComplete(lines, quote, norm, |lines|);
    forall k: nat ensures OccursAt(lines, quote, norm, k) <==> k + 1 in at { OccurrencesAll(lines, quote, norm, k); }
    if |at| > 0 { assert at[0] in at; assert OccursAt(lines, quote, norm, at[0] - 1); }
    forall i: nat | OccursOnlyAt(lines, quote, norm, i) ensures at == [i + 1] {
      assert i + 1 in at;
      forall m | 0 <= m < |at| ensures at[m] == i + 1 {
        assert at[m] in at && OccursAt(lines, quote, norm, at[m] - 1);
      }
      SecondIsLater(at);
    }
  }

  lemma SecondIsLater(at: seq<nat>)
    requires forall i, j | 0 <= i < j < |at| :: at[i] < at[j]
    ensures |at| > 1 ==> at[0] < at[1]
  {}

  // ----- Where a quote stops matching -----

  // How many leading lines of the quote, from the k-th on, agree with the file from line i on.
  function Agreement(lines: seq<string>, quote: seq<string>, norm: string -> string, i: nat, k: nat): (n: nat)
    requires k <= |quote|
    ensures k <= n <= |quote|
    decreases |quote| - k
  {
    if k < |quote| && i + k < |lines| && norm(lines[i + k]) == norm(quote[k]) then
      Agreement(lines, quote, norm, i, k + 1)
    else k
  }

  // The first of the lines below n with the longest agreement, 1-indexed, and that agreement.
  function BestBelow(lines: seq<string>, quote: seq<string>, norm: string -> string, n: nat): (nat, nat) {
    if n == 0 then (0, 0)
    else
      var (at, best) := BestBelow(lines, quote, norm, n - 1);
      var k := Agreement(lines, quote, norm, n - 1, 0);
      if k > best then (n, k) else (at, best)
  }

  function PrefixMatch(lines: seq<string>, quote: seq<string>, norm: string -> string): (nat, nat) {
    var (at, best) := BestBelow(lines, quote, norm, |lines|);
    if best == 0 || best == |quote| then (0, 0) else (at, best)
  }

  // The inner loop of LongestPrefixMatch.
  method CountAgreeing(lines: seq<string>, quote: seq<string>, norm: string -> string, i: nat) returns (k: nat)
    ensures k == Agreement(lines, quote, norm, i, 0)
  {
    k := 0;
    while k < |quote| && i + k < |lines| && norm(lines[i + k]) == norm(quote[k])
      invariant k <= |quote|
      invariant Agreement(lines, quote, norm, i, k) == Agreement(lines, quote, norm, i, 0)
    {
      k := k + 1;
    }
  }

  // The source always compares lines trimmed on both sides here.
  method LongestPrefixMatch(lines: seq<string>, quote: seq<string>, norm: string -> string) returns (at: nat, n: nat)
    ensures (at, n) == PrefixMatch(lines, quote, norm)
  {
    var best, bestAt := 0, 0;
    for i := 0 to |lines|
      invariant (bestAt, best) == BestBelow(lines, quote, norm, i)
    {
      var k := CountAgreeing(lines, quote, norm, i);
      if k > best { best, bestAt := k, i + 1; }
    }
    if best == 0 || best == |quote| { return 0, 0; }
    return bestAt, best;
  }

  lemma {:induction false} BestIsLongest(lines: seq<string>, quote: seq<string>, norm: string -> string, n: nat)
    ensures var (at, best) := BestBelow(lines, quote, norm, n);
      && best <= |quote|
      && (forall i: nat | i < n :: Agreement(lines, quote, norm, i, 0) <= best)
      && (best > 0 ==> 1 <= at <= n && Agreement(lines, quote, norm, at - 1, 0) == best
                       && forall i: nat | i < at - 1 :: Agreement(lines, quote, norm, i, 0) < best)
  {
    if n > 0 { BestIsLongest(lines, quote, norm, n - 1); }
  }

  lemma {:induction false} AgreementAgrees(lines: seq<string>, quote: seq<string>, norm: string -> string,
                                           i: nat, k: nat)
    requires k <= |quote|
    ensures var n := Agreement(lines, quote, norm, i, k);
      && (n > k ==> i + n <= |lines|)
      && (forall j | k <= j < n :: norm(lines[i + j]) == norm(quote[j]))
      && (n < |quote| && i + n < |lines| ==> norm(lines[i + n]) != norm(quote[n]))
    decreases |quote| - k
  {
    if k < |quote| && i + k < |lines| && norm(lines[i + k]) == norm(quote[k]) {
      AgreementAgrees(lines, quote, norm, i, k + 1);
    }
  }

  lemma {:induction false} OccurrenceAgrees(lines: seq<string>, quote: seq<string>, norm: string -> string,
                                            i: nat, k: nat)
    requires k <= |quote| && OccursAt(lines, quote, norm, i)
    ensures Agreement(lines, quote, norm, i, k) == |quote|
    decreases |quote| - k
  {
    if k < |quote| { OccurrenceAgrees(lines, quote, norm, i, k + 1); }
  }

  ghost predicate DivergesAt(lines: seq<string>, quote: seq<string>, norm: string -> string, start: nat, n: nat) {
    && 1 <= start <= |lines| && 0 < n < |quote|
    && (forall j | 0 <= j < n :: start - 1 + j < |lines| && norm(lines[start - 1 + j]) == norm(quote[j]))
    && (start - 1 + n < |lines| ==> norm(lines[start - 1 + n]) != norm(quote[n]))
    && (forall i: nat | i < |lines| :: Agreement(lines, quote, norm, i, 0) <= n)
    && (forall i: nat | i < start - 1 :: Agreement(lines, quote, norm, i, 0) < n)
  }

  // What PrefixMatch says about the file, both when it finds a divergence and when it does not.
  lemma PrefixMatchIsReal(lines: seq<string>, quote: seq<string>, norm: string -> string)
    requires quote != []
    ensures var (start, n) := PrefixMatch(lines, quote, norm);
      if n > 0 then DivergesAt(lines, quote, norm, start, n)
      else
        || (forall i: nat | i < |lines| :: Agreement(lines, quote, norm, i, 0) == 0)
        || (exists i: nat :: OccursAt(lines, quote, norm, i))
  {
    BestIsLongest(lines, quote, norm, |lines|);
    var (at, best) := BestBelow(lines, quote, norm, |lines|);
    if best > 0 {
      AgreementAgrees(lines, quote, norm, at - 1, 0);
      assert best == |quote| ==> OccursAt(lines, quote, norm, at - 1);
    }
  }

  lemma AgreementStartsWithTheFirstLine(lines: seq<string>, quote: seq<string>, norm: string -> string, i: nat)
    requires quote != [] && i < |lines|
    ensures Agreement(lines, quote, norm, i, 0) == 0 <==> norm(lines[i]) != norm(quote[0])
  {
    assert lines[i + 0] == lines[i];
    assert Agreement(lines, quote, norm, i, 1) >= 1;
  }

  // ----- Addressing by text -----

  // The strict matches, or the one loose match when there is no strict one.
  function Candidates(lines: seq<string>, quote: seq<string>, strict: string -> string, loose: string -> string)
    : seq<nat>
  {
    var at, tolerant := Occurrences(lines, quote, strict), Occurrences(lines, quote, loose);
    if |at| == 0 && |tolerant| == 1 then tolerant else at
  }

  function Locate(before: string, quoted: string): Resolution {
    if quoted == "" then NothingQuoted
    else
      var lines, quote := Lines(before), Lines(quoted);
      var at := Candidates(lines, quote, Strict, Loose);
      if |at| == 1 then Found(at[0], at[0] + |quote| - 1)
      else if |at| == 0 then
        var (start, n) := PrefixMatch(lines, quote, Loose);
        if n > 0 then Diverges(start, n) else Absent
      else Ambiguous(at)
  }

  method ResolveText(before: string, quoted: string) returns (r: Resolution)
    ensures r == Locate(before, quoted)
  {
    if quoted == "" { return NothingQuoted; }
    var lines, quote := Lines(before), Lines(quoted);
    var at := Matches(lines, quote, Strict);
    if |at| == 0 {
      var loose := Matches(lines, quote, Loose);
      if |loose| == 1 { at := loose; }
    }
    if |at| == 1 { return Found(at[0], at[0] + |quote| - 1); }
    if |at| > 1 { return Ambiguous(at); }
    var start, n := LongestPrefixMatch(lines, quote, Loose);
    if n > 0 { return Diverges(start, n); }
    return Absent;
  }

  // The span a quote names: its one strict match, or its one loose match when there is no strict one.
  ghost predicate Names(lines: seq<string>, quote: seq<string>, strict: string -> string, loose: string -> string,
                        from: nat)
  {
    && from >= 1
    && (|| OccursOnlyAt(lines, quote, strict, from - 1)
        || (OccursNowhere(lines, quote, strict) && OccursOnlyAt(lines, quote, loose, from - 1)))
  }

  lemma OneOccurrence(lines: seq<string>, quote: seq<string>, norm: string -> string, from: nat)
    requires quote != []
    ensures Occurrences(lines, quote, norm) == [from] <==> from >= 1 && OccursOnlyAt(lines, quote, norm, from - 1)
    ensures Occurrences(lines, quote, norm) == [from] ==> from + |quote| - 1 <= |lines|
    ensures Occurrences(lines, quote, norm) == [] <==> OccursNowhere(lines, quote, norm)
  {
    CountingOccurrences(lines, quote, norm);
  }

  lemma OneCandidateIsTheOneNamed(lines: seq<string>, quote: seq<string>,
                                  strict: string -> string, loose: string -> string, from: nat)
    requires quote != []
    ensures Candidates(lines, quote, strict, loose) == [from] <==> Names(lines, quote, strict, loose, from)
    ensures Candidates(lines, quote, strict, loose) == [from] ==> 1 <= from && from + |quote| - 1 <= |lines|
  {
    OneOccurrence(lines, quote, strict, from);
    OneOccurrence(lines, quote, loose, from);
  }

  /** A text address resolves to a span exactly when the quote names it, and then the span is inside the file. */
  lemma ResolvedSpanIsTheOneNamed(before: string, quoted: string, from: nat, to: nat)
    ensures Locate(before, quoted) == Found(from, to) <==>
      quoted != "" && Names(Lines(before), Lines(quoted), Strict, Loose, from) && to == from + |Lines(quoted)| - 1
    ensures Locate(before, quoted) == Found(from, to) ==> 1 <= from <= to <= |Lines(before)|
  {
    OneCandidateIsTheOneNamed(Lines(before), Lines(quoted), Strict, Loose, from);
  }

  /** Ambiguity lists exactly the strict matches, of which there are several. */
  lemma AmbiguityListsTheMatches(before: string, quoted: string)
    requires Locate(before, quoted).Ambiguous?
    ensures |Locate(before, quoted).at| >= 2
    ensures forall k: nat :: k + 1 in Locate(before, quoted).at <==> OccursAt(Lines(before), Lines(quoted), Strict, k)
  {
    forall k: nat ensures k + 1 in Locate(before, quoted).at <==> OccursAt(Lines(before), Lines(quoted), Strict, k) {
      OccurrencesAll(Lines(before), Lines(quoted), Strict, k);
    }
  }

  /**
   A reported divergence is real: the quote's first `agreed` lines do match at `start`, no place in
   the file agrees for longer and none before it as long, and the next line differs or is not there.
   */
  lemma DivergenceIsReal(before: string, quoted: string)
    requires Locate(before, quoted).Diverges?
    ensures DivergesAt(Lines(before), Lines(quoted), Loose, Locate(before, quoted).start, Locate(before, quoted).agreed)
  {
    PrefixMatchIsReal(Lines(before), Lines(quoted), Loose);
  }

  /**
   "Not even its first line does" is true unless the quote matches loosely in several places: the
   longest prefix is then the whole quote, which the search takes for no match at all.
   */
  lemma AbsentIsTrueExactlyWhen(before: string, quoted: string)
    requires Locate(before, quoted).Absent?
    ensures var lines, quote := Lines(before), Lines(quoted);
      && |Occurrences(lines, quote, Loose)| != 1
      && ((forall i: nat | i < |lines| :: Loose(lines[i]) != Loose(quote[0])) <==>
            |Occurrences(lines, quote, Loose)| == 0)
  {
    PrefixMatchIsReal(Lines(before), Lines(quoted), Loose);
    AbsenceOrSeveral(Lines(before), Lines(quoted), Loose);
  }

  /** Two loose matches and no strict one: the refusal says that not even the first line appears. */
  lemma AbsentAlthoughThere()
    ensures Locate("\ta\n\ta\n", "a") == Absent
    ensures Occurrences(Lines("\ta\n\ta\n"), Lines("a"), Loose) == [1, 2]
  {
    TwoIndentedLines();
    IndentIsLoose();
    TwoLooseOccurrences(["\ta", "\ta"], ["a"], Strict, Loose);
  }

  lemma TwoIndentedLines()
    ensures Lines("\ta\n\ta\n") == ["\ta", "\ta"] && Lines("a") == ["a"]
  {
    var s := "\ta\n\ta\n";
    assert TrimNewline(s) == "\ta" + "\n" + "\ta";
    SplitAfterLine("\ta", "\ta");
    SplitOfOneLine("\ta");
    SplitOfOneLine("a");
  }

  lemma IndentIsLoose()
    ensures Strict("\ta") == "\ta" && Strict("a") == "a" && Loose("\ta") == "a" && Loose("a") == "a"
  {
    assert "\ta"[1..] == "a";
  }

  lemma TwoLooseOccurrences(lines: seq<string>, quote: seq<string>, strict: string -> string, loose: string -> string)
    requires |lines| == 2 && |quote| == 1
    requires forall i | 0 <= i < 2 :: strict(lines[i]) != strict(quote[0]) && loose(lines[i]) == loose(quote[0])
    ensures Candidates(lines, quote, strict, loose) == [] && Occurrences(lines, quote, loose) == [1, 2]
    ensures PrefixMatch(lines, quote, loose) == (0, 0)
  {
    forall i: nat | i < 2 ensures !OccursAt(lines, quote, strict, i) && OccursAt(lines, quote, loose, i) {
      assert strict(lines[i + 0]) != strict(quote[0]);
    }
    TwoPlaces(lines, quote, strict);
    TwoPlaces(lines, quote, loose);
    BestIsLongest(lines, quote, loose, 2);
    AgreementStartsWithTheFirstLine(lines, quote, loose, 0);
  }

  lemma TwoPlaces(lines: seq<string>, quote: seq<string>, norm: string -> string)
    requires |lines| == 2
    ensures Occurrences(lines, quote, norm) ==
            (if OccursAt(lines, quote, norm, 0) then [1] else []) + if OccursAt(lines, quote, norm, 1) then [2] else []
  {
    assert OccurrencesBelow(lines, quote, norm, 0) == [];
    assert OccurrencesBelow(lines, quote, norm, 1) == [] + if OccursAt(lines, quote, norm, 0) then [1] else [];
  }

  lemma AbsenceOrSeveral(lines: seq<string>, quote: seq<string>, norm: string -> string)
    requires quote != [] && PrefixMatch(lines, quote, norm).1 == 0
    ensures (forall i: nat | i < |lines| :: norm(lines[i]) != norm(quote[0])) <==>
            |Occurrences(lines, quote, norm)| == 0
  {
    PrefixMatchIsReal(lines, quote, norm);
    CountingOccurrences(lines, quote, norm);
    if k: nat :| OccursAt(lines, quote, norm, k) {
      assert norm(lines[k + 0]) == norm(quote[0]);
      assert lines[k + 0] == lines[k];
    } else {
      forall i: nat | i < |lines| ensures norm(lines[i]) != norm(quote[0]) {
        AgreementStartsWithTheFirstLine(lines, quote, norm, i);
      }
    }
  }

  // ----- Applying an edit -----

  function WithTrailingNewline(content: string): string {
    if content == "" || HasSuffixNewline(content) then content else content + "\n"
  }

  datatype ApplyError = StartOutside | Inverted | PastTheEnd

  function Applied(before: string, s: Span, replace: string): Result<string, ApplyError> {
    if s.append then Ok(WithTrailingNewline(WithTrailingNewline(before) + replace))
    else
      var lines := Lines(before);
      if s.from == 0 && s.to == 0 then Ok(WithTrailingNewline(replace))
      else if s.from < 1 || s.from > |lines| then Err(StartOutside)
      else if s.to < s.from then Err(Inverted)
      else if s.to > |lines| then Err(PastTheEnd)
      else Ok(Unlines(lines[..s.from - 1])
              + (if replace == "" then "" else TrimNewline(replace) + "\n")
              + Unlines(lines[s.to..]))
  }

  method WriteLines(b: string, lines: seq<string>) returns (b': string)
    ensures b' == b + Unlines(lines)
  {
    b' := b;
    for i := 0 to |lines|
      invariant b' == b + Unlines(lines[..i])
    {
      assert lines[..i + 1] == lines[..i] + [lines[i]];
      UnlinesConcat(lines[..i], [lines[i]]);
      assert Unlines([lines[i]]) == lines[i] + "\n" by { assert [lines[i]][1..] == []; }
      b' := b' + lines[i];
      b' := b' + "\n";
    }
    assert lines[..|lines|] == lines;
  }

  method Apply(before: string, s: Span, replace: string) returns (r: Result<string, ApplyError>)
    ensures r == Applied(before, s, replace)
  {
    if s.append {
      return Ok(WithTrailingNewline(WithTrailingNewline(before) + replace));
    }
    var lines := Lines(before);
    if s.from == 0 && s.to == 0 { return Ok(WithTrailingNewline(replace)); }
    if s.from < 1 || s.from > |lines| { return Err(StartOutside); }
    if s.to < s.from { return Err(Inverted); }
    if s.to > |lines| { return Err(PastTheEnd); }
    var b := WriteLines("", lines[..s.from - 1]);
    if replace != "" {
      b := b + TrimNewline(replace);
      b := b + "\n";
    }
    assert b == Unlines(lines[..s.from - 1]) + if replace == "" then "" else TrimNewline(replace) + "\n";
    b := WriteLines(b, lines[s.to..]);
    return Ok(b);
  }

  // The lines that take a span's place.
  function ReplacementLines(replace: string): seq<string> {
    if replace == "" then [] else Lines(replace)
  }

  lemma LinesAreOneLine(s: string)
    ensures forall i | 0 <= i < |Lines(s)| :: OneLine(Lines(s)[i])
  {
    SplitLinesAreOneLine(TrimNewline(s));
  }

  lemma UnlinesOfPrepend(c: char, lines: seq<string>)
    requires lines != []
    ensures Unlines(Prepend(c, lines)) == [c] + Unlines(lines)
  {
    if c == '\n' {
      assert Prepend(c, lines)[1..] == lines;
    } else {
      assert Prepend(c, lines)[1..] == lines[1..];
    }
  }

  // A text written out and ended with a newline is its lines written out.
  lemma {:induction false} UnlinesOfSplit(s: string)
    ensures Unlines(Split(s)) == s + "\n"
  {
    if s == [] {
      assert Split(s)[1..] == [];
    } else {
      UnlinesOfSplit(s[1..]);
      UnlinesOfPrepend(s[0], Split(s[1..]));
      assert s + "\n" == [s[0]] + (s[1..] + "\n");
    }
  }

  /**
   An edit of a line range touches only what it names: the lines before and after the range come out
   as they were, with the replacement's lines between them.
   */
  lemma ApplyTouchesOnlyItsSpan(before: string, s: Span, replace: string)
    requires !s.append && 1 <= s.from <= s.to <= |Lines(before)|
    ensures Applied(before, s, replace).Ok?
    ensures var kept := Lines(before)[..s.from - 1] + ReplacementLines(replace) + Lines(before)[s.to..];
      && (Applied(before, s, replace).value == "" <==> kept == [])
      && (kept != [] ==> Lines(Applied(before, s, replace).value) == kept)
  {
    var head, middle, tail := Lines(before)[..s.from - 1], ReplacementLines(replace), Lines(before)[s.to..];
    LinesAreOneLine(before);
    LinesAreOneLine(replace);
    UnlinesOfSplit(TrimNewline(replace));
    UnlinesConcat(head, middle);
    UnlinesConcat(head + middle, tail);
    var kept := head + middle + tail;
    assert Applied(before, s, replace).value == Unlines(kept);
    if kept != [] {
      UnlinesEndsInNewline(kept);
      SplitUnlines(kept);
    }
  }

  /** A resolved quote always applies. */
  lemma ResolvedEditsApply(before: string, quoted: string, replace: string, from: nat, to: nat)
    requires Locate(before, quoted) == Found(from, to)
    ensures Applied(before, Span(from, to, false), replace).Ok?
  {
    ResolvedSpanIsTheOneNamed(before, quoted, from, to);
  }

  /** What Apply returns ends in a newline or is empty, so storing it adds nothing to what was checked. */
  lemma AppliedIsStoredAsChecked(before: string, s: Span, replace: string)
    requires Applied(before, s, replace).Ok?
    ensures WithTrailingNewline(Applied(before, s, replace).value) == Applied(before, s, replace).value
  {
    if !s.append && !(s.from == 0 && s.to == 0) {
      var head, tail := Lines(before)[..s.from - 1], Lines(before)[s.to..];
      if head != [] { UnlinesEndsInNewline(head); }
      if tail != [] { UnlinesEndsInNewline(tail); }
    }
  }
}
