/**
 What an edit does to the file it names, line by line, and why it is refused when it is
 (`ApplyEdit` in `internal/tools/workspace.go`, `Resolve` and `Apply` in `internal/edit/edit.go`).
 */
module StoredEdits {
  import opened Wrappers
  import opened Text
  import opened Edit
  import opened Workspace

  // ----- Plain terms -----

  ghost predicate Blank(s: string) {
    forall c | c in s :: IsSpace(c)
  }

  function Ended(s: string): string {
    if s == "" || s[|s| - 1] == '\n' then s else s + "\n"
  }

  function Held(files: map<string, string>, path: string): string {
    if path in files then files[path] else ""
  }

  predicate Quotes(e: Edit) {
    e.oldStr != "" && e.decl == ""
  }

  predicate Declares(e: Edit) {
    e.decl != "" && e.oldStr == ""
  }

  predicate Ranges(e: Edit) {
    e.oldStr == "" && e.decl == "" && e.startLine > 0
  }

  predicate Whole(e: Edit) {
    e.oldStr == "" && e.decl == "" && e.startLine == 0 && e.endLine == 0
  }

  // Text that Go's parser takes where the edit puts it.
  predicate Parses(tc: Toolchain, e: Edit, text: string) {
    if Whole(e) then TrimSpace(text) == "" || tc.parses(text) else !tc.malformed(text)
  }

  // The text the edit writes: what was sent, or for Go what was inside a fence when only that parses.
  predicate Sent(tc: Toolchain, path: string, e: Edit, text: string) {
    if !IsGo(path) || Parses(tc, e, e.replace) then text == e.replace
    else text == tc.unfence(e.replace) && text != "" && Parses(tc, e, text)
  }

  // The lines from..to of the file replaced by the text's, every other line as it was.
  ghost predicate ReplacesLines(before: string, from: int, to: int, text: string, after: string) {
    && 1 <= from <= to <= |Lines(before)|
    && var kept := Lines(before)[..from - 1] + (if text == "" then [] else Lines(text)) + Lines(before)[to..];
       && (after == "" <==> kept == []) && after == Ended(after)
       && (kept != [] ==> Lines(after) == kept)
  }

  // What the edit makes of the file, given the text it writes.
  ghost predicate Makes(tc: Toolchain, e: Edit, before: string, text: string, after: string) {
    if Quotes(e) then
      exists from: nat, to: nat ::
        Locate(before, e.oldStr) == Found(from, to) && ReplacesLines(before, from, to, text, after)
    else if Declares(e) then
      match tc.resolveDecl(before, e.decl)
      case Some(span) =>
        if span == (0, 0) then after == Ended(text) else ReplacesLines(before, span.0, span.1, text, after)
      case None => tc.declCount(text) >= 1 && after == Ended(Ended(before) + text)
    else if Ranges(e) then ReplacesLines(before, e.startLine, e.endLine, text, after)
    else Whole(e) && after == Ended(text)
  }

  // The place the edit is reported to have been made at.
  ghost predicate Reports(tc: Toolchain, e: Edit, before: string, span: Span)
    requires Quotes(e) ==> span.from >= 0 && span.to >= 0
  {
    if Quotes(e) then Locate(before, e.oldStr) == Found(span.from as nat, span.to as nat) && !span.append
    else if Declares(e) then
      match tc.resolveDecl(before, e.decl)
      case Some(at) => span == Span(at.0, at.1, false)
      case None => span == Span(0, 0, true)
    else span == Span(e.startLine, e.endLine, false)
  }

  // ----- What the helpers come to -----

  lemma {:induction false} TrimLeftOfBlank(s: string)
    ensures Blank(s) ==> TrimLeft(s, IsSpace) == ""
    ensures !Blank(s) ==> TrimLeft(s, IsSpace) != "" && !Blank(TrimLeft(s, IsSpace))
  {
    if s != [] {
      TrimLeftOfBlank(s[1..]);
      assert s == [s[0]] + s[1..];
    }
  }

  lemma {:induction false} TrimRightOfText(s: string)
    requires !Blank(s)
    ensures TrimRight(s, IsSpace) != ""
    decreases |s|
  {
    if IsSpace(s[|s| - 1]) {
      assert s == s[..|s| - 1] + [s[|s| - 1]];
      TrimRightOfText(s[..|s| - 1]);
    }
  }

  /** A text trims to nothing exactly when all of it is white space. */
  lemma TrimmedToNothing(s: string)
    ensures TrimSpace(s) == "" <==> Blank(s)
  {
    TrimLeftOfBlank(s);
    if !Blank(s) { TrimRightOfText(TrimLeft(s, IsSpace)); }
  }

  /** A Go file is named by something that ends in .go. */
  lemma GoFilesByName(stem: string, path: string)
    ensures IsGo(stem + ".go")
    ensures IsGo(path) ==> path == path[..|path| - 3] + ".go"
  {}

  /** The directory of a path is what comes before its last slash, or nothing. */
  lemma DirectoryOf(dir: string, name: string)
    requires '/' !in name
    ensures ParentDir(name) == ""
    ensures dir != "" ==> ParentDir(dir + "/" + name) == dir
  {
    var path := dir + "/" + name;
    assert path[|dir|] == '/';
    forall k | |dir| < k < |path| ensures path[k] != '/' { assert path[k] == name[k - |dir| - 1]; }
    assert LastSlash(path, |path|) == |dir|;
    assert forall k | 0 <= k < |name| :: name[k] in name;
  }

  lemma AppliedReplaces(before: string, from: int, to: int, text: string)
    requires Applied(before, Span(from, to, false), text).Ok? && !(from == 0 && to == 0)
    ensures ReplacesLines(before, from, to, text, Applied(before, Span(from, to, false), text).value)
  {
    ApplyTouchesOnlyItsSpan(before, Span(from, to, false), text);
    AppliedIsStoredAsChecked(before, Span(from, to, false), text);
  }

  lemma ResolvedMakes(tc: Toolchain, before: string, e: Edit, text: string)
    requires Address(e) != None && Resolve(tc, before, e, text).Ok?
    requires Applied(before, Resolve(tc, before, e, text).value, text).Ok?
    ensures Makes(tc, e, before, text, Applied(before, Resolve(tc, before, e, text).value, text).value)
  {
    var span := Resolve(tc, before, e, text).value;
    if Quotes(e) {
      ResolvedSpanIsTheOneNamed(before, e.oldStr, span.from as nat, span.to as nat);
      AppliedReplaces(before, span.from, span.to, text);
    } else if !span.append && !(span.from == 0 && span.to == 0) {
      AppliedReplaces(before, span.from, span.to, text);
    }
  }

  // The whole-file gate and the syntax gate together let through the text that was sent.
  lemma PreparedIsSent(tc: Toolchain, flags: Flags, files: map<string, string>, path: string, e: Edit)
    requires Address(e) != None && Prepared(tc, flags, files, path, e).Ok?
    ensures var (span, text) := Prepared(tc, flags, files, path, e).value;
      Sent(tc, path, e, text) && Resolve(tc, Held(files, path), e, text) == Ok(span)
  {}

  // ----- Accepted -----

  // The gates a whole-file write over a file with content passes.
  ghost predicate MayRewrite(tc: Toolchain, flags: Flags, path: string, before: string, text: string) {
    && !flags.editInPlace && |Lines(before)| <= 150
    && (IsGo(path) && !flags.looseRewrites ==> tc.names(before).declared <= tc.names(text).declared)
  }

  // No other Go file of the directory and package declares a name the content declares.
  ghost predicate SharesNoName(tc: Toolchain, files: map<string, string>, path: string, after: string) {
    forall other | other in files && other != path && IsGo(other) && ParentDir(other) == ParentDir(path)
                   && tc.names(files[other]).pkg == tc.names(after).pkg ::
      forall name | name in tc.names(files[other]).declared :: name !in tc.names(after).declared
  }

  ghost predicate Stores(tc: Toolchain, flags: Flags, files: map<string, string>, e: Edit, a: Accepted, text: string) {
    var before := Held(files, a.path);
    && tc.validate(e.path) == Some(a.path) && tc.permits(a.path)
    && Sent(tc, a.path, e, text) && Makes(tc, e, before, text, a.after)
    && (Quotes(e) ==> a.span.from >= 0 && a.span.to >= 0) && Reports(tc, e, before, a.span)
    && a.after != before && !(e.oldStr != "" && e.oldStr == e.replace)
    && (Whole(e) && a.path in files && !Blank(before) ==> MayRewrite(tc, flags, a.path, before, text))
    && (IsGo(a.path) ==>
          !tc.redeclares(a.after) && SharesNoName(tc, files, a.path, a.after) && tc.vets(a.path, a.after))
  }

  lemma NoneShared(a: set<string>, b: set<string>)
    requires a * b == {}
    ensures forall x | x in a :: x !in b
  {
    forall x | x in a ensures x !in b { assert x !in a * b; }
  }

  // The two halves of a decision, once the path and the address are in order.
  lemma DecidedInParts(tc: Toolchain, flags: Flags, files: map<string, string>, e: Edit)
    requires Decide(tc, flags, files, e).Ok?
    ensures tc.validate(e.path).Some? && tc.permits(tc.validate(e.path).value) && Address(e) != None
    ensures !(e.oldStr != "" && e.oldStr == e.replace)
    ensures var path := tc.validate(e.path).value; var ready := Prepared(tc, flags, files, path, e);
      ready.Ok? && Decide(tc, flags, files, e) == Concluded(tc, files, path, ready.value.0, ready.value.1)
  {}

  lemma ConcludedIsApplied(tc: Toolchain, files: map<string, string>, path: string, span: Span, text: string)
    requires Concluded(tc, files, path, span, text).Ok?
    ensures var a := Concluded(tc, files, path, span, text).value;
      && a.path == path && Applied(Held(files, path), span, text) == Ok(a.after) && a.after != Held(files, path)
  {}

  /**
   An accepted edit stores the lines before, its own, and the lines after the place it names -- by quote,
   by declaration or by number -- or its text as the whole file; and it has passed every gate.
   */
  lemma AcceptedEditStores(tc: Toolchain, flags: Flags, files: map<string, string>, e: Edit)
    requires Decide(tc, flags, files, e).Ok?
    ensures exists text :: Stores(tc, flags, files, e, Decide(tc, flags, files, e).value, text)
  {
    DecidedInParts(tc, flags, files, e);
    var a, path := Decide(tc, flags, files, e).value, tc.validate(e.path).value;
    var (span, text) := Prepared(tc, flags, files, path, e).value;
    PartsStore(tc, flags, files, e, a, path, span, text);
  }

  lemma PartsStore(tc: Toolchain, flags: Flags, files: map<string, string>, e: Edit, a: Accepted,
                   path: string, span: Span, text: string)
    requires tc.validate(e.path) == Some(path) && tc.permits(path) && Address(e) != None
    requires !(e.oldStr != "" && e.oldStr == e.replace)
    requires Prepared(tc, flags, files, path, e) == Ok((span, text))
    requires Concluded(tc, files, path, span, text) == Ok(a)
    ensures Stores(tc, flags, files, e, a, text)
  {
    PreparedIsSent(tc, flags, files, path, e);
    ConcludedIsApplied(tc, files, path, span, text);
    ResolvedMakes(tc, Held(files, path), e, text);
    TrimmedToNothing(Held(files, path));
    if Whole(e) && path in files && !Blank(files[path]) { PreparedMayRewrite(tc, flags, files, path, e); }
    if IsGo(path) { ConcludedSharesNoName(tc, files, path, span, text); }
  }

  lemma PreparedMayRewrite(tc: Toolchain, flags: Flags, files: map<string, string>, path: string, e: Edit)
    requires Prepared(tc, flags, files, path, e).Ok? && Whole(e) && path in files && TrimSpace(files[path]) != ""
    ensures MayRewrite(tc, flags, path, files[path], Prepared(tc, flags, files, path, e).value.1)
  {
    assert files[path] != "" by { assert TrimSpace("") == ""; }
  }

  lemma ConcludedSharesNoName(tc: Toolchain, files: map<string, string>, path: string, span: Span, text: string)
    requires Concluded(tc, files, path, span, text).Ok? && IsGo(path)
    ensures var after := Concluded(tc, files, path, span, text).value.after;
      !tc.redeclares(after) && SharesNoName(tc, files, path, after) && tc.vets(path, after)
  {
    var after := Concluded(tc, files, path, span, text).value.after;
    forall other | other in files && other != path && IsGo(other) && ParentDir(other) == ParentDir(path)
                   && tc.names(files[other]).pkg == tc.names(after).pkg
      ensures forall name | name in tc.names(files[other]).declared :: name !in tc.names(after).declared
    {
      assert !CollidesWith(tc, files, path, after, other);
      NoneShared(tc.names(files[other]).declared, tc.names(after).declared);
    }
  }

  // ----- Refused -----

  predicate Rewrites(files: map<string, string>, path: string, e: Edit) {
    Whole(e) && path in files && TrimSpace(files[path]) != ""
  }

  predicate InRange(before: string, from: int, to: int) {
    1 <= from <= to <= |Lines(before)|
  }

  // Neither what was sent nor what is inside its fence parses.
  ghost predicate Unparsable(tc: Toolchain, path: string, e: Edit) {
    IsGo(path) && forall text :: !Sent(tc, path, e, text)
  }

  // The reason given is the case, on a path that was in order.
  ghost predicate Deserved(tc: Toolchain, flags: Flags, files: map<string, string>, path: string, e: Edit, r: Refusal) {
    var before := Held(files, path);
    match r
    case InPlaceOnly => Rewrites(files, path, e) && flags.editInPlace
    case TooLong => Rewrites(files, path, e) && |Lines(before)| > 150
    case DropsNames => Rewrites(files, path, e) && IsGo(path) && !flags.looseRewrites
      && exists text :: Sent(tc, path, e, text) && !(tc.names(before).declared <= tc.names(text).declared)
    case DoesNotParse => Whole(e) && Unparsable(tc, path, e)
    case Malformed => !Whole(e) && Unparsable(tc, path, e)
    case Unresolved =>
      || (Quotes(e) && !Locate(before, e.oldStr).Found?)
      || (Declares(e) && tc.resolveDecl(before, e.decl) == None
          && exists text :: Sent(tc, path, e, text) && tc.declCount(text) == 0)
    case OutOfRange =>
      || (Ranges(e) && !InRange(before, e.startLine, e.endLine))
      || (Declares(e) && tc.resolveDecl(before, e.decl).Some?
          && var span := tc.resolveDecl(before, e.decl).value; span != (0, 0) && !InRange(before, span.0, span.1))
    case NoChange => exists text :: Sent(tc, path, e, text) && Makes(tc, e, before, text, before)
    case Redeclares => exists text, after ::
      Sent(tc, path, e, text) && Makes(tc, e, before, text, after) && IsGo(path) && tc.redeclares(after)
    case DeclaredElsewhere => exists text, after ::
      Sent(tc, path, e, text) && Makes(tc, e, before, text, after)
      && IsGo(path) && !SharesNoName(tc, files, path, after)
    case VetFails => exists text, after ::
      Sent(tc, path, e, text) && Makes(tc, e, before, text, after) && IsGo(path) && !tc.vets(path, after)
    case _ => false
  }

  lemma RefusedBeforeItResolves(tc: Toolchain, flags: Flags, files: map<string, string>, path: string, e: Edit)
    requires Address(e) != None && Prepared(tc, flags, files, path, e).Err?
    ensures Deserved(tc, flags, files, path, e, Prepared(tc, flags, files, path, e).error)
  {
    var before := Held(files, path);
    var kept := if Whole(e) && path in files && TrimSpace(before) != ""
                then RewriteGate(tc, flags, path, before, e.replace) else Ok(e.replace);
    if kept.Err? {
      RefusedRewrite(tc, flags, files, path, e);
    } else if SyntaxGate(tc, path, Whole(e), kept.value).Err? {
      assert kept.value == e.replace;
      assert Unparsable(tc, path, e);
    } else {
      SyntaxGateSends(tc, flags, files, path, e, kept.value);
    }
  }

  lemma RefusedRewrite(tc: Toolchain, flags: Flags, files: map<string, string>, path: string, e: Edit)
    requires Rewrites(files, path, e) && RewriteGate(tc, flags, path, files[path], e.replace).Err?
    ensures Deserved(tc, flags, files, path, e, RewriteGate(tc, flags, path, files[path], e.replace).error)
  {
    var r := RewriteGate(tc, flags, path, files[path], e.replace).error;
    if r == DropsNames {
      var fixed := Unfenced(tc, src => ParsesAsFile(tc, src), e.replace);
      assert Sent(tc, path, e, fixed.value);
    }
    if r == DoesNotParse { assert Unparsable(tc, path, e); }
  }

  lemma SyntaxGateSends(tc: Toolchain, flags: Flags, files: map<string, string>, path: string, e: Edit, kept: string)
    requires Address(e) != None && SyntaxGate(tc, path, Whole(e), kept).Ok?
    requires kept == e.replace || (Rewrites(files, path, e)
             && RewriteGate(tc, flags, path, files[path], e.replace) == Ok(kept))
    ensures Sent(tc, path, e, SyntaxGate(tc, path, Whole(e), kept).value)
  {}

  lemma RefusedAfterItResolved(tc: Toolchain, flags: Flags, files: map<string, string>, path: string, e: Edit)
    requires Address(e) != None && Prepared(tc, flags, files, path, e).Ok?
    requires var (span, text) := Prepared(tc, flags, files, path, e).value; Concluded(tc, files, path, span, text).Err?
    ensures var (span, text) := Prepared(tc, flags, files, path, e).value;
      Deserved(tc, flags, files, path, e, Concluded(tc, files, path, span, text).error)
  {
    var (span, text) := Prepared(tc, flags, files, path, e).value;
    PreparedIsSent(tc, flags, files, path, e);
    if Applied(Held(files, path), span, text).Ok? {
      ResolvedMakes(tc, Held(files, path), e, text);
      ConcludedRefuses(tc, flags, files, path, e, span, text);
    } else if Quotes(e) {
      ResolvedSpanIsTheOneNamed(Held(files, path), e.oldStr, span.from as nat, span.to as nat);
    }
  }

  lemma CollisionSharesAName(tc: Toolchain, files: map<string, string>, path: string, after: string, other: string)
    requires other in files && CollidesWith(tc, files, path, after, other)
    ensures !SharesNoName(tc, files, path, after)
  {
    var name :| name in tc.names(files[other]).declared * tc.names(after).declared;
    assert name in tc.names(files[other]).declared && name in tc.names(after).declared;
  }

  // What is wrong with a result that applies and is refused all the same.
  lemma GateReason(tc: Toolchain, files: map<string, string>, path: string, span: Span, text: string)
    requires Applied(Held(files, path), span, text).Ok? && Concluded(tc, files, path, span, text).Err?
    ensures var after := Applied(Held(files, path), span, text).value;
      match Concluded(tc, files, path, span, text).error
      case NoChange => after == Held(files, path)
      case Redeclares => IsGo(path) && tc.redeclares(after)
      case DeclaredElsewhere => IsGo(path) && !SharesNoName(tc, files, path, after)
      case VetFails => IsGo(path) && !tc.vets(path, after)
      case _ => false
  {
    var after := Applied(Held(files, path), span, text).value;
    if Concluded(tc, files, path, span, text).error == DeclaredElsewhere {
      var other :| other in files && CollidesWith(tc, files, path, after, other);
      CollisionSharesAName(tc, files, path, after, other);
    }
  }

  lemma ConcludedRefuses(tc: Toolchain, flags: Flags, files: map<string, string>, path: string, e: Edit,
                         span: Span, text: string)
    requires Applied(Held(files, path), span, text).Ok? && Concluded(tc, files, path, span, text).Err?
    requires Sent(tc, path, e, text)
    requires Makes(tc, e, Held(files, path), text, Applied(Held(files, path), span, text).value)
    ensures Deserved(tc, flags, files, path, e, Concluded(tc, files, path, span, text).error)
  {
    GateReason(tc, files, path, span, text);
    ReasonDeserved(tc, flags, files, path, e, text, Applied(Held(files, path), span, text).value,
                   Concluded(tc, files, path, span, text).error);
  }

  lemma ReasonDeserved(tc: Toolchain, flags: Flags, files: map<string, string>, path: string, e: Edit,
                       text: string, after: string, r: Refusal)
    requires Sent(tc, path, e, text) && Makes(tc, e, Held(files, path), text, after)
    requires match r
      case NoChange => after == Held(files, path)
      case Redeclares => IsGo(path) && tc.redeclares(after)
      case DeclaredElsewhere => IsGo(path) && !SharesNoName(tc, files, path, after)
      case VetFails => IsGo(path) && !tc.vets(path, after)
      case _ => false
    ensures Deserved(tc, flags, files, path, e, r)
  {}

  /** A refusal gives a reason that is the case: the path, the address, the text, the place or the result. */
  lemma RefusalIsDeserved(tc: Toolchain, flags: Flags, files: map<string, string>, e: Edit)
    requires Decide(tc, flags, files, e).Err?
    ensures match Decide(tc, flags, files, e).error
      case BadPath => tc.validate(e.path) == None
      case Guarded => tc.validate(e.path).Some? && !tc.permits(tc.validate(e.path).value)
      case NoSingleAddress => !Quotes(e) && !Declares(e) && !Ranges(e) && !Whole(e)
      case Identical => e.oldStr != "" && e.oldStr == e.replace
      case r => tc.validate(e.path).Some? && Deserved(tc, flags, files, tc.validate(e.path).value, e, r)
  {
    var clean := tc.validate(e.path);
    if clean.Some? && tc.permits(clean.value) && Address(e) != None && !(e.oldStr != "" && e.oldStr == e.replace) {
      if Prepared(tc, flags, files, clean.value, e).Err? {
        RefusedBeforeItResolves(tc, flags, files, clean.value, e);
      } else {
        RefusedAfterItResolved(tc, flags, files, clean.value, e);
      }
    }
  }
}
