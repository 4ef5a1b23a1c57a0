/**
 The file tree an agent edits, held in memory (`internal/tools/workspace.go`).

 What comes from Go's parser, and the cleaning of a path, are uninterpreted functions collected in
 Toolchain; text that does not parse declares nothing.
 */
module Workspace {
  import opened Wrappers
  import opened Text
  import opened Edit

  datatype Names = Names(declared: set<string>, pkg: string)

  datatype Toolchain = Toolchain(
    validate: string -> Option<string>,     // the cleaned path, or None when it leaves the checkout
    permits: string -> bool,                // the stage's write guard
    parses: string -> bool,
    malformed: string -> bool,              // valid Go in no position
    names: string -> Names,                 // top-level names and package
    redeclares: string -> bool,             // one file declares a name twice
    vets: (string, string) -> bool,
    unfence: string -> string,
    resolveDecl: (string, string) -> Option<(int, int)>,
    declCount: string -> nat)

  datatype Flags = Flags(looseRewrites: bool, editInPlace: bool)

  datatype Refusal =
    | BadPath | Guarded | NoSingleAddress | Identical
    | InPlaceOnly | DoesNotParse | DropsNames | TooLong | Malformed
    | Unresolved | OutOfRange | NoChange | Redeclares | DeclaredElsewhere | VetFails

  datatype UndoRecord = UndoRecord(path: string, before: string, existed: bool)

  /** `known` lists the paths read or written, least recently used first. */
  datatype Space = Space(files: map<string, string>, last: Option<UndoRecord>, known: seq<string>, writes: nat)

  const MAX_WHOLE_REWRITE_LINES := 150

  predicate IsGo(path: string) {
    |path| >= 3 && path[|path| - 3..] == ".go"
  }

  function LastSlash(path: string, n: nat): (i: int)
    requires n <= |path|
    ensures -1 <= i < n && (i >= 0 ==> path[i] == '/')
    ensures forall k | i < k < n :: path[k] != '/'
  {
    if n == 0 then -1 else if path[n - 1] == '/' then n - 1 else LastSlash(path, n - 1)
  }

  function ParentDir(path: string): string {
    var i := LastSlash(path, |path|);
    if i <= 0 then "" else path[..i]
  }

  function LineCount(s: string): nat {
    if s == "" then 0 else |Lines(s)|
  }

  predicate ParsesAsFile(tc: Toolchain, src: string) {
    TrimSpace(src) == "" || tc.parses(src)
  }

  // A code fence around the text is taken off, but only when that is what makes it acceptable.
  function Unfenced(tc: Toolchain, acceptable: string -> bool, text: string): Option<string> {
    if acceptable(text) then Some(text)
    else
      var fixed := tc.unfence(text);
      if fixed != "" && acceptable(fixed) then Some(fixed) else None
  }

  // ----- Deciding an edit -----

  // The checks on a whole-file write over a file that already has content.
  function RewriteGate(tc: Toolchain, flags: Flags, path: string, before: string, replace: string)
    : Result<string, Refusal>
  {
    var allowed := !flags.editInPlace;
    :- Check(allowed, InPlaceOnly);
    var kept :- if IsGo(path) then RewriteOfSource(tc, flags, before, replace) else Ok(replace);
    :- Check(LineCount(before) <= MAX_WHOLE_REWRITE_LINES, TooLong);
    Ok(kept)
  }

  function RewriteOfSource(tc: Toolchain, flags: Flags, before: string, replace: string): Result<string, Refusal> {
    var fixed := Unfenced(tc, src => ParsesAsFile(tc, src), replace);
    if fixed == None then Err(DoesNotParse)
    else if !flags.looseRewrites && !(tc.names(before).declared <= tc.names(fixed.value).declared) then Err(DropsNames)
    else Ok(fixed.value)
  }

  function SyntaxGate(tc: Toolchain, path: string, whole: bool, replace: string): Result<string, Refusal> {
    if !IsGo(path) then Ok(replace)
    else
      var fixed := if whole then Unfenced(tc, src => ParsesAsFile(tc, src), replace)
                   else Unfenced(tc, src => !tc.malformed(src), replace);
      if fixed == None then Err(if whole then DoesNotParse else Malformed) else Ok(fixed.value)
  }

  function Resolve(tc: Toolchain, before: string, e: Edit, replace: string): Result<Span, Refusal> {
    if e.oldStr != "" then
      match Locate(before, e.oldStr)
      case Found(from, to) => Ok(Span(from, to, false))
      case _ => Err(Unresolved)
    else if e.decl != "" then
      match tc.resolveDecl(before, e.decl)
      case Some(span) => Ok(Span(span.0, span.1, false))
      case None => if tc.declCount(replace) >= 1 then Ok(Span(0, 0, true)) else Err(Unresolved)
    else Ok(Span(e.startLine, e.endLine, false))
  }

  // Another Go file of the same directory and package declares one of the content's names.
  predicate CollidesWith(tc: Toolchain, files: map<string, string>, path: string, content: string, other: string) {
    && other in files && other != path && IsGo(other) && ParentDir(other) == ParentDir(path)
    && tc.names(files[other]).pkg == tc.names(content).pkg
    && tc.names(files[other]).declared * tc.names(content).declared != {}
  }

  function SourceGate(tc: Toolchain, files: map<string, string>, path: string, after: string): Verdict<Refusal> {
    if !IsGo(path) then Pass
    else if tc.redeclares(after) then Fail(Redeclares)
    else if exists other | other in files :: CollidesWith(tc, files, path, after, other) then Fail(DeclaredElsewhere)
    else Check(tc.vets(path, after), VetFails)
  }

  datatype Accepted = Accepted(path: string, after: string, span: Span)

  function Content(files: map<string, string>, path: string): string {
    if path in files then files[path] else ""
  }

  // Where the edit lands and with what text, once its replacement has passed the gates.
  function Prepared(tc: Toolchain, flags: Flags, files: map<string, string>, path: string, e: Edit)
    : Result<(Span, string), Refusal>
  {
    var before := Content(files, path);
    var whole := Address(e) == Some(WholeFile);
    var kept :- if whole && path in files && TrimSpace(before) != ""
                then RewriteGate(tc, flags, path, before, e.replace)
                else Ok(e.replace);
    var replace :- SyntaxGate(tc, path, whole, kept);
    var span :- Resolve(tc, before, e, replace);
    Ok((span, replace))
  }

  // The edited content, if it applies, changes something and fits among the other files.
  function Concluded(tc: Toolchain, files: map<string, string>, path: string, span: Span, replace: string)
    : Result<Accepted, Refusal>
  {
    var before := Content(files, path);
    var applied := Applied(before, span, replace);
    :- Check(applied.Ok?, OutOfRange);
    :- Check(applied.value != before, NoChange);
    :- SourceGate(tc, files, path, applied.value);
    Ok(Accepted(path, applied.value, span))
  }

  // What ApplyEdit makes of an edit: the content it will store, or why it refuses.
  function Decide(tc: Toolchain, flags: Flags, files: map<string, string>, e: Edit): Result<Accepted, Refusal> {
    var clean := tc.validate(e.path);
    :- Check(clean != None, BadPath);
    var path := clean.value;
    :- Check(tc.permits(path), Guarded);
    :- Check(Address(e) != None, NoSingleAddress);
    :- Check(!(e.oldStr != "" && e.oldStr == e.replace), Identical);
    var ready :- Prepared(tc, flags, files, path, e);
    Concluded(tc, files, path, ready.0, ready.1)
  }

  // ----- The transitions -----

  function RemoveFirst(s: seq<string>, x: string): seq<string> {
    if s == [] then [] else if s[0] == x then s[1..] else [s[0]] + RemoveFirst(s[1..], x)
  }

  function Promote(known: seq<string>, path: string): seq<string> {
    RemoveFirst(known, path) + [path]
  }

  function Commit(sp: Space, a: Accepted): Space {
    Space(sp.files[a.path := WithTrailingNewline(a.after)],
          Some(UndoRecord(a.path, Content(sp.files, a.path), a.path in sp.files)),
          Promote(sp.known, a.path),
          sp.writes + 1)
  }

  function Restored(files: map<string, string>, u: UndoRecord): map<string, string> {
    if u.existed then files[u.path := u.before] else files - {u.path}
  }

  function Undone(sp: Space): Space {
    if sp.last == None then sp
    else Space(Restored(sp.files, sp.last.value), None, sp.known, if sp.writes > 0 then sp.writes - 1 else 0)
  }

  datatype Op = Write(e: Edit) | UndoEdit | Use(path: string)

  function Perform(tc: Toolchain, flags: Flags, sp: Space, op: Op): Space {
    match op
    case Write(e) =>
      var d := Decide(tc, flags, sp.files, e);
      if d.Ok? then Commit(sp, d.value) else sp
    case UndoEdit => Undone(sp)
    case Use(path) => sp.(known := Promote(sp.known, path))
  }

  function PerformAll(tc: Toolchain, flags: Flags, sp: Space, ops: seq<Op>): Space
    decreases |ops|
  {
    if ops == [] then sp else PerformAll(tc, flags, Perform(tc, flags, sp, ops[0]), ops[1..])
  }

  function Opened(files: map<string, string>): Space {
    Space(files, None, [], 0)
  }

  // ----- Over every run of edits and undos -----

  lemma ConcludedMeans(tc: Toolchain, files: map<string, string>, path: string, span: Span, replace: string)
    requires Concluded(tc, files, path, span, replace).Ok?
    ensures var a := Concluded(tc, files, path, span, replace).value;
      && a.path == path && WithTrailingNewline(a.after) == a.after && a.after != Content(files, path)
      && (IsGo(path) ==> forall other | other in files :: !CollidesWith(tc, files, path, a.after, other))
  {
    AppliedIsStoredAsChecked(Content(files, path), span, replace);
  }

  lemma DecideMeans(tc: Toolchain, flags: Flags, files: map<string, string>, e: Edit)
    requires Decide(tc, flags, files, e).Ok?
    ensures var a := Decide(tc, flags, files, e).value;
      && tc.validate(e.path) == Some(a.path) && tc.permits(a.path)
      && WithTrailingNewline(a.after) == a.after && a.after != Content(files, a.path)
      && (IsGo(a.path) ==> forall other | other in files :: !CollidesWith(tc, files, a.path, a.after, other))
  {
    var path := tc.validate(e.path).value;
    var ready := Prepared(tc, flags, files, path, e).value;
    ConcludedMeans(tc, files, path, ready.0, ready.1);
  }

  // The tree an undo would go back to.
  function Before(sp: Space): map<string, string> {
    if sp.last == None then sp.files else Restored(sp.files, sp.last.value)
  }

  // Undo goes back exactly to the tree the last accepted edit was made on.
  lemma CommitRemembers(sp: Space, a: Accepted)
    ensures Before(Commit(sp, a)) == sp.files
    ensures Undone(Commit(sp, a)).files == sp.files && Undone(Commit(sp, a)).writes == sp.writes
  {}

  predicate SameAt(a: map<string, string>, b: map<string, string>, path: string) {
    if path in b then path in a && a[path] == b[path] else path !in a
  }

  // The guard's part of the invariant: a refused path is as it was, now and after an undo.
  ghost predicate Kept(sp: Space, start: map<string, string>, path: string) {
    SameAt(sp.files, start, path) && SameAt(Before(sp), start, path)
  }

  lemma PerformKeeps(tc: Toolchain, flags: Flags, sp: Space, op: Op, start: map<string, string>, path: string)
    requires !tc.permits(path) && Kept(sp, start, path)
    ensures Kept(Perform(tc, flags, sp, op), start, path)
  {
    match op
    case Write(e) =>
      if Decide(tc, flags, sp.files, e).Ok? {
        DecideMeans(tc, flags, sp.files, e);
        CommitRemembers(sp, Decide(tc, flags, sp.files, e).value);
      }
    case UndoEdit =>
    case Use(_) =>
  }

  /** A path the guard refuses keeps its initial content, or its absence, over every run. */
  lemma {:induction false} GuardedPathsNeverChange(tc: Toolchain, flags: Flags, sp: Space, ops: seq<Op>,
                                                  start: map<string, string>, path: string)
    requires !tc.permits(path) && Kept(sp, start, path)
    ensures SameAt(PerformAll(tc, flags, sp, ops).files, start, path)
    decreases |ops|
  {
    if ops != [] {
      PerformKeeps(tc, flags, sp, ops[0], start, path);
      GuardedPathsNeverChange(tc, flags, Perform(tc, flags, sp, ops[0]), ops[1..], start, path);
    }
  }

  lemma GuardedFromTheStart(tc: Toolchain, flags: Flags, files: map<string, string>, ops: seq<Op>, path: string)
    requires !tc.permits(path)
    ensures SameAt(PerformAll(tc, flags, Opened(files), ops).files, files, path)
  {
    GuardedPathsNeverChange(tc, flags, Opened(files), ops, files, path);
  }

  // Two files of one directory and package that share a top-level name.
  predicate Collide(tc: Toolchain, files: map<string, string>, p: string, q: string) {
    p in files && IsGo(p) && CollidesWith(tc, files, p, files[p], q)
  }

  ghost predicate NoNewCollisions(tc: Toolchain, files: map<string, string>, start: map<string, string>) {
    forall p, q | Collide(tc, files, p, q) :: Collide(tc, start, p, q)
  }

  // The stored file collides with no other, from either side.
  lemma StoredCollidesWithNone(tc: Toolchain, files: map<string, string>, path: string, after: string, q: string)
    requires IsGo(path) ==> forall other | other in files :: !CollidesWith(tc, files, path, after, other)
    ensures !Collide(tc, files[path := after], path, q)
    ensures !Collide(tc, files[path := after], q, path)
  {
    assert Collide(tc, files[path := after], path, q) ==> CollidesWith(tc, files, path, after, q);
    assert Collide(tc, files[path := after], q, path) ==> CollidesWith(tc, files, path, after, q);
  }

  lemma CommitAddsNoCollision(tc: Toolchain, flags: Flags, sp: Space, e: Edit, start: map<string, string>)
    requires Decide(tc, flags, sp.files, e).Ok? && NoNewCollisions(tc, sp.files, start)
    ensures NoNewCollisions(tc, Commit(sp, Decide(tc, flags, sp.files, e).value).files, start)
  {
    var a := Decide(tc, flags, sp.files, e).value;
    DecideMeans(tc, flags, sp.files, e);
    var files := Commit(sp, a).files;
    forall p, q | Collide(tc, files, p, q) ensures Collide(tc, start, p, q) {
      StoredCollidesWithNone(tc, sp.files, a.path, a.after, p);
      StoredCollidesWithNone(tc, sp.files, a.path, a.after, q);
      assert Collide(tc, sp.files, p, q);
    }
  }

  lemma PerformAddsNoCollision(tc: Toolchain, flags: Flags, sp: Space, op: Op, start: map<string, string>)
    requires NoNewCollisions(tc, sp.files, start) && NoNewCollisions(tc, Before(sp), start)
    ensures NoNewCollisions(tc, Perform(tc, flags, sp, op).files, start)
    ensures NoNewCollisions(tc, Before(Perform(tc, flags, sp, op)), start)
  {
    match op
    case Write(e) =>
      if Decide(tc, flags, sp.files, e).Ok? {
        CommitAddsNoCollision(tc, flags, sp, e, start);
        CommitRemembers(sp, Decide(tc, flags, sp.files, e).value);
      }
    case UndoEdit =>
    case Use(_) =>
  }

  /**
   No run of edits and undos makes two same-directory, same-package Go files share a top-level name
   that did not share one at the start.
   */
  lemma {:induction false} CollisionsNeverGrow(tc: Toolchain, flags: Flags, sp: Space, ops: seq<Op>,
                                              start: map<string, string>)
    requires NoNewCollisions(tc, sp.files, start) && NoNewCollisions(tc, Before(sp), start)
    ensures NoNewCollisions(tc, PerformAll(tc, flags, sp, ops).files, start)
    decreases |ops|
  {
    if ops != [] {
      PerformAddsNoCollision(tc, flags, sp, ops[0], start);
      CollisionsNeverGrow(tc, flags, Perform(tc, flags, sp, ops[0]), ops[1..], start);
    }
  }

  // Operations that neither write nor undo: reads, and edits that are refused.
  ghost predicate Harmless(tc: Toolchain, flags: Flags, sp: Space, ops: seq<Op>) {
    forall i | 0 <= i < |ops| ::
      ops[i].Use? || (ops[i].Write? && Decide(tc, flags, sp.files, ops[i].e).Err?)
  }

  lemma {:induction false} HarmlessOpsChangeNoFile(tc: Toolchain, flags: Flags, sp: Space, ops: seq<Op>)
    requires Harmless(tc, flags, sp, ops)
    ensures var t := PerformAll(tc, flags, sp, ops);
      t.files == sp.files && t.last == sp.last && t.writes == sp.writes
    decreases |ops|
  {
    if ops != [] {
      HarmlessOpsChangeNoFile(tc, flags, Perform(tc, flags, sp, ops[0]), ops[1..]);
    }
  }

  /** Undo restores exactly the tree the last accepted edit found, whatever was read or refused since. */
  lemma UndoRestoresTheTreeBeforeTheLastEdit(tc: Toolchain, flags: Flags, sp: Space, e: Edit, ops: seq<Op>)
    requires Decide(tc, flags, sp.files, e).Ok?
    requires Harmless(tc, flags, Perform(tc, flags, sp, Write(e)), ops)
    ensures var t := Undone(PerformAll(tc, flags, Perform(tc, flags, sp, Write(e)), ops));
      t.files == sp.files && t.writes == sp.writes && t.last == None
  {
    CommitRemembers(sp, Decide(tc, flags, sp.files, e).value);
    HarmlessOpsChangeNoFile(tc, flags, Perform(tc, flags, sp, Write(e)), ops);
  }

  // Accepted edits less effective undos.
  function Net(tc: Toolchain, flags: Flags, sp: Space, ops: seq<Op>): int
    decreases |ops|
  {
    if ops == [] then 0
    else
      var here := match ops[0]
        case Write(e) => if Decide(tc, flags, sp.files, e).Ok? then 1 else 0
        case UndoEdit => if sp.last == None then 0 else -1
        case Use(_) => 0;
      here + Net(tc, flags, Perform(tc, flags, sp, ops[0]), ops[1..])
  }

  /** The write count is accepted edits less undone ones: an undo always has a write to take back. */
  lemma {:induction false} WritesCountNetEdits(tc: Toolchain, flags: Flags, sp: Space, ops: seq<Op>)
    requires sp.last != None ==> sp.writes > 0
    ensures PerformAll(tc, flags, sp, ops).writes == sp.writes + Net(tc, flags, sp, ops)
    ensures PerformAll(tc, flags, sp, ops).last != None ==> PerformAll(tc, flags, sp, ops).writes > 0
    decreases |ops|
  {
    if ops != [] { WritesCountNetEdits(tc, flags, Perform(tc, flags, sp, ops[0]), ops[1..]); }
  }

  ghost predicate Distinct(s: seq<string>) {
    forall i, j | 0 <= i < j < |s| :: s[i] != s[j]
  }

  lemma {:induction false} RemoveFirstRemoves(s: seq<string>, x: string)
    requires Distinct(s)
    ensures x !in RemoveFirst(s, x)
    ensures forall y :: y in RemoveFirst(s, x) <==> y in s && y != x
  {
    if s != [] {
      assert s == [s[0]] + s[1..];
      if s[0] != x {
        RemoveFirstRemoves(s[1..], x);
      } else {
        assert forall i | 0 < i < |s| :: s[i] != s[0];
      }
    }
  }

  lemma {:induction false} RemovalKeepsDistinct(s: seq<string>, x: string)
    requires Distinct(s)
    ensures Distinct(RemoveFirst(s, x))
  {
    if s != [] && s[0] != x {
      RemovalKeepsDistinct(s[1..], x);
      RemoveFirstRemoves(s[1..], x);
      assert s[0] !in s[1..];
      assert s[0] !in RemoveFirst(s[1..], x);
    }
  }

  /** Using a path makes it the most recent one, keeps the others, and lists nothing twice. */
  lemma PromotionIsMostRecent(known: seq<string>, path: string)
    requires Distinct(known)
    ensures Distinct(Promote(known, path)) && Promote(known, path)[|Promote(known, path)| - 1] == path
    ensures forall p :: p in Promote(known, path) <==> p in known || p == path
  {
    RemoveFirstRemoves(known, path);
    RemovalKeepsDistinct(known, path);
  }

  // ----- The workspace itself -----

  class Workspace {
    const tc: Toolchain
    var files: map<string, string>
    var last: Option<UndoRecord>
    var knownOrder: seq<string>
    var writes: nat
    var looseRewrites: bool
    var editInPlace: bool

    ghost function View(): Space
      reads this
    {
      Space(files, last, knownOrder, writes)
    }

    ghost function Settings(): Flags
      reads this
    {
      Flags(looseRewrites, editInPlace)
    }

    constructor (files: map<string, string>, tc: Toolchain, flags: Flags)
      ensures View() == Opened(files) && this.tc == tc && Settings() == flags
    {
      this.tc := tc;
      this.files := files;
      last, knownOrder, writes := None, [], 0;
      looseRewrites, editInPlace := flags.looseRewrites, flags.editInPlace;
    }

    method Seen(path: string)
      modifies this`knownOrder
      ensures knownOrder == Promote(old(knownOrder), path)
    {
      for i := 0 to |knownOrder|
        invariant knownOrder == old(knownOrder)
        invariant RemoveFirst(knownOrder, path) == knownOrder[..i] + RemoveFirst(knownOrder[i..], path)
      {
        assert knownOrder[i..][1..] == knownOrder[i + 1..];
        if knownOrder[i] == path {
          knownOrder := knownOrder[..i] + knownOrder[i + 1..];
          assert knownOrder == RemoveFirst(old(knownOrder), path);
          break;
        }
        assert knownOrder[..i + 1] == knownOrder[..i] + [knownOrder[i]];
      }
      assert knownOrder == RemoveFirst(old(knownOrder), path);
      knownOrder := knownOrder + [path];
    }

    // Known: the used paths that still exist, least recent first.
    method Known() returns (out: seq<string>)
      ensures forall p :: p in out <==> p in knownOrder && p in files
      ensures |out| <= |knownOrder|
    {
      out := [];
      for i := 0 to |knownOrder|
        invariant |out| <= i
        invariant forall p :: p in out <==> p in knownOrder[..i] && p in files
      {
        assert knownOrder[..i + 1] == knownOrder[..i] + [knownOrder[i]];
        if knownOrder[i] in files { out := out + [knownOrder[i]]; }
      }
      assert knownOrder[..|knownOrder|] == knownOrder;
    }

    // A name the content declares that another file of its directory and package already declares.
    method DuplicateAcrossFiles(path: string, content: string) returns (hit: Option<(string, string)>)
      ensures hit == None <==> forall other | other in files :: !CollidesWith(tc, files, path, content, other)
      ensures hit.Some? ==>
        && CollidesWith(tc, files, path, content, hit.value.1)
        && hit.value.0 in tc.names(content).declared && hit.value.0 in tc.names(files[hit.value.1]).declared
    {
      var names := tc.names(content);
      if names.declared == {} { return None; }
      var rest := files.Keys;
      while rest != {}
        invariant rest <= files.Keys
        invariant forall other | other in files && other !in rest :: !CollidesWith(tc, files, path, content, other)
      {
        var p :| p in rest;
        rest := rest - {p};
        if p == path || !IsGo(p) || ParentDir(p) != ParentDir(path) { continue; }
        var theirs := tc.names(files[p]);
        if theirs.pkg != names.pkg { continue; }
        var shared := theirs.declared * names.declared;
        if shared != {} {
          var n :| n in shared;
          return Some((n, p));
        }
      }
      return None;
    }

    method CheckSource(path: string, after: string) returns (r: Verdict<Refusal>)
      ensures r == SourceGate(tc, files, path, after)
    {
      if !IsGo(path) { return Pass; }
      if tc.redeclares(after) { return Fail(Redeclares); }
      var hit := DuplicateAcrossFiles(path, after);
      if hit.Some? { return Fail(DeclaredElsewhere); }
      return Check(tc.vets(path, after), VetFails);
    }

    method ResolveSpan(before: string, e: Edit, replace: string) returns (r: Result<Span, Refusal>)
      ensures r == Resolve(tc, before, e, replace)
    {
      if e.oldStr != "" {
        var found := ResolveText(before, e.oldStr);
        match found {
          case Found(from, to) => return Ok(Span(from, to, false));
          case _ => return Err(Unresolved);
        }
      }
      return Resolve(tc, before, e, replace);
    }

    method ApplyEdit(e: Edit) returns (r: Result<Accepted, Refusal>)
      modifies this
      ensures r == Decide(tc, old(Settings()), old(files), e)
      ensures View() == if r.Ok? then Commit(old(View()), r.value) else old(View())
      ensures Settings() == old(Settings())
    {
      var clean := tc.validate(e.path);
      if clean == None { return Err(BadPath); }
      var path := clean.value;
      if !tc.permits(path) { return Err(Guarded); }
      var mode := Address(e);
      if mode == None { return Err(NoSingleAddress); }
      if e.oldStr != "" && e.oldStr == e.replace { return Err(Identical); }
      var existed := path in files;
      var before := if existed then files[path] else "";
      var whole := mode == Some(WholeFile);
      var replace := e.replace;
      if whole && existed && TrimSpace(before) != "" {
        replace :- RewriteGate(tc, Flags(looseRewrites, editInPlace), path, before, replace);
      }
      replace :- SyntaxGate(tc, path, whole, replace);
      var span :- ResolveSpan(before, e, replace);
      var applied := Apply(before, span, replace);
      if applied.Err? { return Err(OutOfRange); }
      var after := applied.value;
      if after == before { return Err(NoChange); }
      :- CheckSource(path, after);
      var a := Accepted(path, after, span);
      Store(a);
      return Ok(a);
    }

    method Store(a: Accepted)
      modifies this
      ensures View() == Commit(old(View()), a) && Settings() == old(Settings())
    {
      var existed := a.path in files;
      last := Some(UndoRecord(a.path, if existed then files[a.path] else "", existed));
      files := files[a.path := WithTrailingNewline(a.after)];
      writes := writes + 1;
      Seen(a.path);
    }

    method Undo() returns (path: Option<string>)
      modifies this
      ensures View() == Undone(old(View())) && Settings() == old(Settings())
      ensures path == if old(last) == None then None else Some(old(last).value.path)
    {
      if last == None { return None; }
      var u := last.value;
      last := None;
      if writes > 0 { writes := writes - 1; }
      if !u.existed {
        files := files - {u.path};
      } else {
        files := files[u.path := u.before];
      }
      return Some(u.path);
    }
  }
}
