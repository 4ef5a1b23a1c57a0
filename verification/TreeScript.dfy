/**
 Laying a file tree down on disk by a shell script (`internal/tools/sandbox.go`), against an
 interpreter of the two utilities the script uses.
 */
module TreeScript {
  import opened Wrappers
  import opened Shell
  import opened Sorting
  import W = Workspace

  function MkdirLine(dir: string): string {
    "mkdir" + " " + ("-p" + " " + (Quote(dir) + "\n" + ""))
  }

  function PrintfLine(body: string, path: string): string {
    "printf" + " " + ("%s" + " " + (Quote(body) + " " + (">" + (" " + (Quote(path) + "\n" + "")))))
  }

  function Lines(body: string, path: string): string {
    var dir := W.ParentDir(path);
    (if dir != "" then MkdirLine(dir) else "") + PrintfLine(body, path)
  }

  function ScriptOf(files: map<string, string>, paths: seq<string>): string
    requires forall p | p in paths :: p in files
  {
    if paths == [] then ""
    else
      var last := paths[|paths| - 1];
      ScriptOf(files, paths[..|paths| - 1]) + Lines(files[last], last)
  }

  // ----- What a script does to an empty directory -----

  datatype Tree = Tree(dirs: set<string>, files: map<string, string>)

  predicate Component(p: string, i: nat, j: nat) {
    && i <= j <= |p| && (i == 0 || p[i - 1] == '/') && (j == |p| || p[j] == '/')
    && forall k | i <= k < j :: p[k] != '/'
  }

  // Relative, with no empty, "." or ".." component, or the directory itself: what ValidatePaths makes
  // of a path.
  ghost predicate Clean(p: string) {
    p == "." || Ordinary(p)
  }

  ghost predicate Ordinary(p: string) {
    p != "" && forall i: nat, j: nat | Component(p, i, j) :: p[i..j] != "" && p[i..j] != "." && p[i..j] != ".."
  }

  /** A single name is in order unless it is empty, "." or "..". */
  lemma OrdinaryName(s: string)
    requires '/' !in s
    ensures Ordinary(s) <==> s != "" && s != "." && s != ".."
  {
    assert s[0..|s|] == s && Component(s, 0, |s|);
    assert forall k | 0 <= k < |s| :: s[k] in s;
    assert forall i: nat, j: nat | Component(s, i, j) :: i == 0 && j == |s|;
  }

  /** A path is in order exactly when both sides of any of its slashes are. */
  lemma OrdinaryPath(a: string, b: string)
    ensures Ordinary(a + "/" + b) <==> Ordinary(a) && Ordinary(b)
  {
    var p := a + "/" + b;
    assert p[|a|] == '/';
    if Ordinary(p) {
      LeftSideInOrder(a, b);
      RightSideInOrder(a, b);
    }
    if Ordinary(a) && Ordinary(b) { BothSidesInOrder(a, b); }
  }

  lemma NoSlashAtTheEnds(p: string)
    ensures p != "" && (p[0] == '/' || p[|p| - 1] == '/') ==> !Ordinary(p)
  {
    if p != "" {
      assert p[0..0] == "" && p[|p|..|p|] == "";
      assert p[0] == '/' ==> Component(p, 0, 0);
      assert p[|p| - 1] == '/' ==> Component(p, |p|, |p|);
    }
  }

  lemma LeftSideInOrder(a: string, b: string)
    requires Ordinary(a + "/" + b)
    ensures Ordinary(a)
  {
    var p := a + "/" + b;
    assert p[|a|] == '/' && p[..|a|] == a;
    forall i: nat, j: nat | Component(a, i, j) ensures a[i..j] != "" && a[i..j] != "." && a[i..j] != ".." {
      assert Component(p, i, j) && p[i..j] == a[i..j];
    }
    NoSlashAtTheEnds(p);
  }

  lemma RightSideInOrder(a: string, b: string)
    requires Ordinary(a + "/" + b)
    ensures Ordinary(b)
  {
    var p, n := a + "/" + b, |a| + 1;
    assert p[|a|] == '/' && p[n..] == b;
    forall i: nat, j: nat | Component(b, i, j) ensures b[i..j] != "" && b[i..j] != "." && b[i..j] != ".." {
      assert Component(p, n + i, n + j) && p[n + i..n + j] == b[i..j];
    }
    NoSlashAtTheEnds(p);
  }

  lemma BothSidesInOrder(a: string, b: string)
    requires Ordinary(a) && Ordinary(b)
    ensures Ordinary(a + "/" + b)
  {
    var p, n := a + "/" + b, |a| + 1;
    assert p[|a|] == '/' && p[..|a|] == a && p[n..] == b;
    forall i: nat, j: nat | Component(p, i, j) ensures p[i..j] != "" && p[i..j] != "." && p[i..j] != ".." {
      if j <= |a| {
        assert Component(a, i, j) && p[i..j] == a[i..j];
      } else {
        assert i >= n;
        assert Component(b, i - n, j - n) && p[i..j] == b[i - n..j - n];
      }
    }
  }

  function Ancestors(p: string): set<string> {
    set i | 0 < i < |p| && p[i] == '/' :: p[..i]
  }

  /** Outside: the script says something this interpreter does not model. Fails: a command of it fails. */
  datatype Effect = Outside | Fails | Leaves(tree: Tree)

  // Anything longer than a dash that begins with one is taken for options: the directory is not made,
  // and the write into it cannot succeed.
  predicate LooksLikeOptions(operand: string) {
    |operand| > 1 && operand[0] == '-'
  }

  // mkdir -p
  ghost function MkdirP(t: Tree, dir: string): Effect {
    if !LooksLikeOptions(dir) && (Ancestors(dir) + {dir}) !! t.files.Keys then
      Leaves(Tree(t.dirs + Ancestors(dir) + {dir}, t.files))
    else Fails
  }

  // printf %s body > path
  ghost function WriteTo(t: Tree, path: string, body: string): Effect {
    if path != "." && path !in t.dirs && Ancestors(path) <= t.dirs then Leaves(Tree(t.dirs, t.files[path := body]))
    else Fails
  }

  predicate IsMkdir(command: seq<Token>) {
    |command| == 3 && command == [Word("mkdir"), Word("-p"), command[2]] && command[2].Word?
  }

  predicate IsPrintf(command: seq<Token>) {
    && |command| == 5 && command == [Word("printf"), Word("%s"), command[2], Into, command[4]]
    && command[2].Word? && command[4].Word?
  }

  // One of the two utilities, on a cleaned path.
  ghost predicate Modelled(command: seq<Token>) {
    (IsMkdir(command) && Ordinary(command[2].text)) || (IsPrintf(command) && Clean(command[4].text))
  }

  ghost function Execute(t: Tree, command: seq<Token>): Effect {
    if IsMkdir(command) then MkdirP(t, command[2].text)
    else if IsPrintf(command) then WriteTo(t, command[4].text, command[2].text)
    else Outside
  }

  // The commands one after the other, up to the first that fails.
  ghost function ExecuteAll(t: Tree, commands: seq<seq<Token>>): Effect {
    if commands == [] then Leaves(t)
    else
      var before := ExecuteAll(t, commands[..|commands| - 1]);
      if before.Leaves? then Execute(before.tree, commands[|commands| - 1]) else before
  }

  const EMPTY := Tree({}, map[])

  // What running the script in an empty directory comes to.
  ghost function EffectOf(script: string): Effect {
    var commands := Parsed(script);
    if commands == None || exists c | c in commands.value :: !Modelled(c) then Outside
    else ExecuteAll(EMPTY, commands.value)
  }

  // ----- Reading the script -----

  function Mkdir(dir: string): seq<Token> {
    [Word("mkdir"), Word("-p"), Word(dir)]
  }

  function Printf(body: string, path: string): seq<Token> {
    [Word("printf"), Word("%s"), Word(body), Into, Word(path)]
  }

  function Commands(body: string, path: string): seq<seq<Token>> {
    var dir := W.ParentDir(path);
    (if dir != "" then [Mkdir(dir)] else []) + [Printf(body, path)]
  }

  function CommandsOf(files: map<string, string>, paths: seq<string>): seq<seq<Token>>
    requires forall p | p in paths :: p in files
  {
    if paths == [] then []
    else
      var last := paths[|paths| - 1];
      CommandsOf(files, paths[..|paths| - 1]) + Commands(files[last], last)
  }

  lemma PlainWord(r: Reader, w: string, rest: string)
    requires r.Reader? && r.mode.Bare? && r.word.None? && w != "" && forall c | c in w :: Plain(c)
    ensures Read(r, w + " " + rest) == Read(r.(line := r.line + [Word(w)]), rest)
  {
    PlainReads(r, w);
    assert "" + w == w;
    assert w + " " + rest == w + (" " + rest);
    ReadComposes(r, w, " " + rest);
    assert (" " + rest)[1..] == rest;
  }

  lemma QuotedWord(r: Reader, s: string, end: char, rest: string)
    requires r.Reader? && r.mode.Bare? && r.word.None? && end in {' ', '\n'}
    ensures var q := r.(line := r.line + [Word(s)]);
      Read(r, Quote(s) + [end] + rest) ==
      if !NulFree(s) then Broken else Read(if end == ' ' then q else LineEnded(q), rest)
  {
    QuoteExtendsTheWord(r, s);
    assert "" + s == s;
    assert Quote(s) + [end] + rest == Quote(s) + ([end] + rest);
    ReadComposes(r, Quote(s), [end] + rest);
    if NulFree(s) { WordEnds(r, s, end, rest); } else { BrokenStaysBroken([end] + rest); }
  }

  lemma WordEnds(r: Reader, s: string, end: char, rest: string)
    requires r.Reader? && r.mode.Bare? && end in {' ', '\n'}
    ensures var q := r.(word := None, line := r.line + [Word(s)]);
      Read(r.(word := Some(s)), [end] + rest) == Read(if end == ' ' then q else LineEnded(q), rest)
  {
    assert ([end] + rest)[0] == end && ([end] + rest)[1..] == rest;
  }

  lemma MkdirReads(lines: seq<seq<Token>>, dir: string)
    ensures Read(At(lines), MkdirLine(dir)) == if NulFree(dir) then At(lines + [Mkdir(dir)]) else Broken
  {
    var tail := Quote(dir) + "\n" + "";
    var r := At(lines);
    var r1 := Reader(Bare, None, [] + [Word("mkdir")], lines);
    var r2 := r1.(line := r1.line + [Word("-p")]);
    PlainWord(r, "mkdir", "-p" + " " + tail);
    PlainWord(r1, "-p", tail);
    QuotedWord(r2, dir, '\n', "");
    assert r2.line + [Word(dir)] == Mkdir(dir);
  }

  lemma IntoReads(r: Reader, rest: string)
    requires r.Reader? && r.mode.Bare? && r.word.None?
    ensures Read(r, ">" + (" " + rest)) == Read(r.(line := r.line + [Into]), rest)
  {
    ReadComposes(r, ">", " " + rest);
    ReadComposes(r.(line := r.line + [Into]), " ", rest);
    assert ">"[1..] == "" && " "[1..] == "";
  }

  lemma PrintfReads(lines: seq<seq<Token>>, body: string, path: string)
    ensures Read(At(lines), PrintfLine(body, path)) ==
            if NulFree(body) && NulFree(path) then At(lines + [Printf(body, path)]) else Broken
  {
    var target := Quote(path) + "\n" + "";
    var redirect := ">" + (" " + target);
    var operand := Quote(body) + " " + redirect;
    var r1 := Reader(Bare, None, [] + [Word("printf")], lines);
    var r2 := r1.(line := r1.line + [Word("%s")]);
    var r3 := r2.(line := r2.line + [Word(body)]);
    var r4 := r3.(line := r3.line + [Into]);
    PlainWord(At(lines), "printf", "%s" + " " + operand);
    PlainWord(r1, "%s", operand);
    QuotedWord(r2, body, ' ', redirect);
    IntoReads(r3, target);
    QuotedWord(r4, path, '\n', "");
    assert r4.line + [Word(path)] == Printf(body, path);
  }

  lemma ParentOfNulFree(path: string)
    requires NulFree(path)
    ensures NulFree(W.ParentDir(path))
  {}

  lemma LinesRead(lines: seq<seq<Token>>, body: string, path: string)
    ensures Read(At(lines), Lines(body, path)) ==
            if NulFree(body) && NulFree(path) then At(lines + Commands(body, path)) else Broken
  {
    var dir := W.ParentDir(path);
    if dir != "" {
      ReadComposes(At(lines), MkdirLine(dir), PrintfLine(body, path));
      MkdirReads(lines, dir);
      if NulFree(dir) {
        PrintfReads(lines + [Mkdir(dir)], body, path);
        assert lines + [Mkdir(dir)] + [Printf(body, path)] == lines + Commands(body, path);
      } else {
        BrokenStaysBroken(PrintfLine(body, path));
        assert NulFree(path) ==> NulFree(dir) by { if NulFree(path) { ParentOfNulFree(path); } }
      }
    } else {
      PrintfReads(lines, body, path);
      assert "" + PrintfLine(body, path) == PrintfLine(body, path);
      assert [] + [Printf(body, path)] == Commands(body, path);
    }
  }

  predicate Readable(files: map<string, string>, p: string)
    requires p in files
  {
    NulFree(p) && NulFree(files[p])
  }

  ghost predicate AllReadable(files: map<string, string>, paths: seq<string>)
    requires forall p | p in paths :: p in files
  {
    forall p | p in paths :: Readable(files, p)
  }

  lemma AllReadableOfSnoc(files: map<string, string>, init: seq<string>, last: string)
    requires forall p | p in init + [last] :: p in files
    ensures forall p | p in init :: p in files
    ensures last in files
    ensures AllReadable(files, init + [last]) <==> AllReadable(files, init) && Readable(files, last)
  {
    assert last in init + [last];
    assert forall p | p in init :: p in init + [last];
  }

  lemma {:induction false} ScriptReads(files: map<string, string>, paths: seq<string>)
    requires forall p | p in paths :: p in files
    ensures Read(At([]), ScriptOf(files, paths)) ==
            if AllReadable(files, paths) then At(CommandsOf(files, paths)) else Broken
    decreases |paths|
  {
    if paths != [] {
      var init, last := paths[..|paths| - 1], paths[|paths| - 1];
      assert paths == init + [last];
      AllReadableOfSnoc(files, init, last);
      ScriptReads(files, init);
      var text := Lines(files[last], last);
      ReadComposes(At([]), ScriptOf(files, init), text);
      BrokenStaysBroken(text);
      if AllReadable(files, init) { LinesRead(CommandsOf(files, init), files[last], last); }
    }
  }

  // ----- Running the script -----

  lemma ParentIsTheLastAncestor(p: string)
    requires Clean(p)
    ensures var dir := W.ParentDir(p);
      if dir == "" then Ancestors(p) == {} else dir[0] == p[0] && Ancestors(p) == Ancestors(dir) + {dir}
  {
    var i := W.LastSlash(p, |p|);
    assert i != 0 by { assert Component(p, 0, 0) || p[0] != '/'; }
    if i > 0 {
      var dir := p[..i];
      forall d | d in Ancestors(p) ensures d in Ancestors(dir) + {dir} {
        var k :| 0 < k < |p| && p[k] == '/' && d == p[..k];
        assert k < i ==> dir[k] == '/' && dir[..k] == d;
      }
      forall d | d in Ancestors(dir) ensures d in Ancestors(p) {
        var k :| 0 < k < |dir| && dir[k] == '/' && d == dir[..k];
        assert p[k] == '/' && p[..k] == d;
      }
    }
  }

  lemma SliceOfPrefix<T>(s: seq<T>, n: nat, i: nat, j: nat)
    requires i <= j <= n <= |s|
    ensures s[..n][i..j] == s[i..j]
  {}

  lemma ParentIsClean(p: string)
    requires Clean(p) && W.ParentDir(p) != ""
    ensures Ordinary(W.ParentDir(p))
  {
    var dir := W.ParentDir(p);
    assert dir == p[..|dir|] && p[|dir|] == '/';
    forall i: nat, j: nat | Component(dir, i, j) ensures dir[i..j] != "" && dir[i..j] != "." && dir[i..j] != ".." {
      assert Component(p, i, j);
      SliceOfPrefix(p, |dir|, i, j);
    }
  }

  // The directory the script makes for a file is not taken for options.
  predicate NoOptions(p: string) {
    !LooksLikeOptions(W.ParentDir(p))
  }

  ghost predicate Placeable(t: Tree, p: string) {
    p != "." && NoOptions(p) && Ancestors(p) !! t.files.Keys && p !in t.dirs
  }

  function Placed(t: Tree, body: string, p: string): Tree {
    Tree(t.dirs + Ancestors(p), t.files[p := body])
  }

  lemma NotItsOwnAncestor(p: string)
    ensures p !in Ancestors(p)
  {}

  lemma WriteOutcome(t: Tree, body: string, p: string)
    ensures Execute(t, Printf(body, p)) == WriteTo(t, p, body)
  {}

  lemma MkdirOutcome(t: Tree, dir: string)
    ensures Execute(t, Mkdir(dir)) == MkdirP(t, dir)
  {}

  // The commands for one file succeed exactly when the file can be placed.
  lemma PlaceOutcome(t: Tree, body: string, p: string)
    requires Clean(p)
    ensures ExecuteAll(t, Commands(body, p)) == if Placeable(t, p) then Leaves(Placed(t, body, p)) else Fails
  {
    var dir, commands := W.ParentDir(p), Commands(body, p);
    ParentIsTheLastAncestor(p);
    NotItsOwnAncestor(p);
    if dir == "" {
      WriteOutcome(t, body, p);
      assert commands == [Printf(body, p)] && commands[..0] == [];
      assert ExecuteAll(t, []) == Leaves(t);
      assert t.dirs + {} == t.dirs;
      assert ExecuteAll(t, commands) == Execute(t, Printf(body, p));
    } else {
      ParentIsClean(p);
      assert commands == [Mkdir(dir), Printf(body, p)] && commands[..1] == [Mkdir(dir)] && [Mkdir(dir)][..0] == [];
      MkdirOutcome(t, dir);
      assert ExecuteAll(t, [Mkdir(dir)]) == MkdirP(t, dir);
      if MkdirP(t, dir).Leaves? {
        WriteOutcome(MkdirP(t, dir).tree, body, p);
        assert t.dirs + Ancestors(dir) + {dir} == t.dirs + (Ancestors(dir) + {dir});
      }
    }
  }

  lemma {:induction false} ExecuteComposes(t: Tree, a: seq<seq<Token>>, b: seq<seq<Token>>)
    ensures ExecuteAll(t, a + b) ==
            if ExecuteAll(t, a).Leaves? then ExecuteAll(ExecuteAll(t, a).tree, b) else ExecuteAll(t, a)
    decreases |b|
  {
    if b == [] {
      assert a + b == a;
    } else {
      var init := b[..|b| - 1];
      assert (a + b)[..|a + b| - 1] == a + init;
      ExecuteComposes(t, a, init);
    }
  }

  ghost predicate Good(paths: seq<string>) {
    && (forall p | p in paths :: p != "." && NoOptions(p))
    && forall p, q | p in paths && q in paths :: p !in Ancestors(q)
  }

  // The tree with exactly these files, and the directories above them.
  function Laid(files: map<string, string>, paths: seq<string>): Tree
    requires forall p | p in paths :: p in files
  {
    Tree(set p, d | p in paths && d in Ancestors(p) :: d, map p | p in paths :: files[p])
  }

  // A path fits with those already there.
  ghost predicate Fits(init: seq<string>, last: string) {
    && last != "." && NoOptions(last)
    && forall p | p in init :: p !in Ancestors(last) && last !in Ancestors(p)
  }

  lemma GoodMeansFits(init: seq<string>, last: string)
    ensures Good(init + [last]) <==> Good(init) && Fits(init, last)
  {
    var paths := init + [last];
    assert last in paths && forall p | p in init :: p in paths;
    NotItsOwnAncestor(last);
    if Good(init) && Fits(init, last) {
      forall p, q | p in paths && q in paths ensures p !in Ancestors(q) {
        assert p in init || p == last;
        assert q in init || q == last;
      }
    }
  }

  lemma FitsMeansPlaceable(files: map<string, string>, init: seq<string>, last: string)
    requires forall p | p in init :: p in files
    ensures Fits(init, last) <==> Placeable(Laid(files, init), last)
  {
    var t := Laid(files, init);
    assert last in t.dirs <==> exists q | q in init :: last in Ancestors(q);
    assert forall p :: p in t.files.Keys <==> p in init;
  }

  lemma GoodOfSnoc(files: map<string, string>, init: seq<string>, last: string)
    requires forall p | p in init :: p in files
    ensures Good(init + [last]) <==> Good(init) && Placeable(Laid(files, init), last)
  {
    GoodMeansFits(init, last);
    FitsMeansPlaceable(files, init, last);
  }

  lemma LaidOfSnoc(files: map<string, string>, init: seq<string>, last: string)
    requires last in files && forall p | p in init :: p in files
    ensures forall p | p in init + [last] :: p in files
    ensures Laid(files, init + [last]) == Placed(Laid(files, init), files[last], last)
  {
    var paths := init + [last];
    assert forall p :: p in paths <==> p in init || p == last;
    assert Laid(files, paths).dirs == Laid(files, init).dirs + Ancestors(last);
    assert Laid(files, paths).files == Laid(files, init).files[last := files[last]];
  }

  ghost predicate AllClean(paths: seq<string>) {
    forall p | p in paths :: Clean(p)
  }

  lemma {:induction false} ModelledExactlyWhenClean(files: map<string, string>, paths: seq<string>)
    requires forall p | p in paths :: p in files
    ensures (forall c | c in CommandsOf(files, paths) :: Modelled(c)) <==> AllClean(paths)
    decreases |paths|
  {
    if paths != [] {
      var init, last := paths[..|paths| - 1], paths[|paths| - 1];
      assert paths == init + [last];
      ModelledExactlyWhenClean(files, init);
      OneFileModelled(files[last], last);
      assert forall c ::
        c in CommandsOf(files, paths) <==> c in CommandsOf(files, init) || c in Commands(files[last], last);
      assert forall p :: p in paths <==> p in init || p == last;
    }
  }

  lemma OneFileModelled(body: string, p: string)
    ensures (forall c | c in Commands(body, p) :: Modelled(c)) <==> Clean(p)
  {
    var dir := W.ParentDir(p);
    assert Printf(body, p) in Commands(body, p) && (Modelled(Printf(body, p)) <==> Clean(p));
    assert forall c | c in Commands(body, p) :: c == Printf(body, p) || (dir != "" && c == Mkdir(dir));
    if dir != "" && Clean(p) { ParentIsClean(p); }
  }

  lemma {:induction false} CommandsOutcome(files: map<string, string>, paths: seq<string>)
    requires AllClean(paths) && forall p | p in paths :: p in files
    ensures ExecuteAll(EMPTY, CommandsOf(files, paths)) == if Good(paths) then Leaves(Laid(files, paths)) else Fails
    decreases |paths|
  {
    if paths == [] {
      assert Laid(files, paths) == EMPTY;
    } else {
      var init, last := paths[..|paths| - 1], paths[|paths| - 1];
      assert paths == init + [last];
      CommandsOutcome(files, init);
      ExecuteComposes(EMPTY, CommandsOf(files, init), Commands(files[last], last));
      PlaceOutcome(Laid(files, init), files[last], last);
      GoodOfSnoc(files, init, last);
      LaidOfSnoc(files, init, last);
    }
  }

  /**
   Run in an empty directory, the script leaves exactly the given files and the directories above them
   when no path is the directory itself or a directory prefix of another, and no directory reads as
   options; otherwise a command of it fails. A NUL takes the script outside the shell language, a path
   that has not been cleaned outside this model. The order of the paths is immaterial.
   */
  lemma ScriptLaysTheTreeExactlyWhen(files: map<string, string>, paths: seq<string>)
    requires forall p :: p in paths <==> p in files
    ensures EffectOf(ScriptOf(files, paths)) ==
            if !AllReadable(files, paths) || !AllClean(paths) then Outside
            else if Good(paths) then Leaves(Laid(files, paths)) else Fails
    ensures Laid(files, paths).files == files
  {
    ScriptReads(files, paths);
    ModelledExactlyWhenClean(files, paths);
    if AllClean(paths) { CommandsOutcome(files, paths); }
    assert Laid(files, paths).files == files;
  }

  /** A lone dash is a name like any other. */
  lemma DashIsADirectory(body: string)
    requires NulFree(body)
    ensures EffectOf(ScriptOf(map["-/f" := body], ["-/f"])) == Leaves(Tree({"-"}, map["-/f" := body]))
  {
    var p, files := "-/f", map["-/f" := body];
    DashPath();
    assert NoOptions(p) && p !in Ancestors(p) by { ParentIsTheLastAncestor(p); NotItsOwnAncestor(p); }
    assert Laid(files, [p]).dirs == {"-"} by { assert forall q :: q in [p] <==> q == p; }
    ScriptLaysTheTreeExactlyWhen(files, [p]);
  }

  /** A directory that begins with a dash and goes on is taken for options, and the script fails. */
  lemma DashedDirectoryFails(body: string)
    requires NulFree(body)
    ensures EffectOf(ScriptOf(map["-x/f" := body], ["-x/f"])) == Fails
  {
    var p, files := "-x/f", map["-x/f" := body];
    DashedPath();
    assert !NoOptions(p) && p in [p];
    ScriptLaysTheTreeExactlyWhen(files, [p]);
  }

  lemma DashedPath()
    ensures Clean("-x/f") && W.ParentDir("-x/f") == "-x"
  {
    OrdinaryName("-x");
    OrdinaryName("f");
    OrdinaryPath("-x", "f");
    assert "-x" + "/" + "f" == "-x/f";
    assert "-x/f"[2] == '/' && "-x/f"[3] == 'f' && "-x/f"[..2] == "-x";
    assert W.LastSlash("-x/f", 4) == 2;
  }

  /** What reads as options: a dash and something after it. */
  lemma OptionsBegin(rest: string)
    ensures LooksLikeOptions("-" + rest) <==> rest != ""
    ensures rest == "" || rest[0] != '-' ==> !LooksLikeOptions(rest)
  {}

  lemma DashPath()
    ensures Clean("-/f") && Ancestors("-/f") == {"-"} && W.ParentDir("-/f") == "-"
  {
    var p := "-/f";
    assert p[0] == '-' && p[1] == '/' && p[2] == 'f' && |p| == 3;
    forall i: nat, j: nat | Component(p, i, j) ensures p[i..j] != "" && p[i..j] != "." && p[i..j] != ".." {
      assert (i == 0 && j == 1) || (i == 2 && j == 3);
      assert p[i..j][0] == p[i];
    }
    assert p[..1] == "-";
    assert W.LastSlash(p, 3) == 1;
    forall d | d in Ancestors(p) ensures d == "-" {
      var k :| 0 < k < |p| && p[k] == '/' && d == p[..k];
      assert k == 1;
    }
  }

  // ----- One tree, one script -----

  // The order of sort.Strings.
  predicate NotAfter(a: string, b: string)
    decreases |a|
  {
    a == "" || (b != "" && (a[0] < b[0] || (a[0] == b[0] && NotAfter(a[1..], b[1..]))))
  }

  lemma {:induction false} StringsAreTotal(a: string, b: string)
    ensures NotAfter(a, b) || NotAfter(b, a)
    decreases |a|
  {
    if a != "" && b != "" { StringsAreTotal(a[1..], b[1..]); }
  }

  lemma {:induction false} StringsAreTransitive(a: string, b: string, c: string)
    requires NotAfter(a, b) && NotAfter(b, c)
    ensures NotAfter(a, c)
    decreases |a|
  {
    if a != "" && a[0] == b[0] && b[0] == c[0] { StringsAreTransitive(a[1..], b[1..], c[1..]); }
  }

  lemma {:induction false} StringsAreAntisymmetric(a: string, b: string)
    requires NotAfter(a, b) && NotAfter(b, a)
    ensures a == b
    decreases |a|
  {
    if a != "" {
      StringsAreAntisymmetric(a[1..], b[1..]);
      assert a == [a[0]] + a[1..] && b == [b[0]] + b[1..];
    }
  }

  lemma StringsAreOrdered()
    ensures TotalPreorder(NotAfter)
  {
    forall a, b ensures NotAfter(a, b) || NotAfter(b, a) { StringsAreTotal(a, b); }
    forall a, b, c | NotAfter(a, b) && NotAfter(b, c) ensures NotAfter(a, c) { StringsAreTransitive(a, b, c); }
  }

  // The tree's paths in order.
  ghost predicate Lists(files: map<string, string>, paths: seq<string>) {
    SortedBy(paths, NotAfter) && multiset(paths) == multiset(files.Keys)
  }

  lemma SmallestFirst(a: seq<string>, x: string)
    requires SortedBy(a, NotAfter) && x in multiset(a)
    ensures a != [] && NotAfter(a[0], x)
  {
    StringsAreTotal(a[0], a[0]);
  }

  lemma SameRest(a: seq<string>, b: seq<string>)
    requires a != [] && b != [] && a[0] == b[0] && multiset(a) == multiset(b)
    ensures multiset(a[1..]) == multiset(b[1..])
  {
    assert a == [a[0]] + a[1..] && b == [b[0]] + b[1..];
    assert multiset(a[1..]) == multiset(a) - multiset{a[0]} && multiset(b[1..]) == multiset(b) - multiset{a[0]};
  }

  lemma {:induction false} OneSortedOrder(a: seq<string>, b: seq<string>)
    requires SortedBy(a, NotAfter) && SortedBy(b, NotAfter) && multiset(a) == multiset(b)
    ensures a == b
    decreases |a|
  {
    assert |a| == |multiset(a)| == |multiset(b)| == |b|;
    if a != [] {
      assert a[0] in multiset(a) && b[0] in multiset(b);
      SmallestFirst(a, b[0]);
      SmallestFirst(b, a[0]);
      StringsAreAntisymmetric(a[0], b[0]);
      SameRest(a, b);
      OneSortedOrder(a[1..], b[1..]);
      assert a == [a[0]] + a[1..] && b == [b[0]] + b[1..];
    }
  }

  /** Two listings of identical trees give the identical script. */
  lemma OneTreeOneScript(files: map<string, string>, a: seq<string>, b: seq<string>)
    requires Lists(files, a) && Lists(files, b)
    ensures forall p :: p in a <==> p in files
    ensures forall p :: p in b <==> p in files
    ensures ScriptOf(files, a) == ScriptOf(files, b)
  {
    OneSortedOrder(a, b);
    forall p ensures p in a <==> p in files { assert p in multiset(a) <==> p in multiset(files.Keys); }
  }

  method SortedPaths(files: map<string, string>) returns (paths: seq<string>)
    ensures Lists(files, paths) && forall p :: p in paths <==> p in files
  {
    var listed, rest := [], files.Keys;
    while rest != {}
      invariant rest <= files.Keys && multiset(listed) + multiset(rest) == multiset(files.Keys)
    {
      var p :| p in rest;
      listed, rest := listed + [p], rest - {p};
    }
    paths := Sort(listed, NotAfter);
    StringsAreOrdered();
    SortSorts(listed, NotAfter);
    OneTreeOneScript(files, paths, paths);
  }

  lemma ScriptOfNext(files: map<string, string>, paths: seq<string>, i: nat)
    requires i < |paths| && forall p | p in paths :: p in files
    ensures ScriptOf(files, paths[..i + 1]) == ScriptOf(files, paths[..i]) + Lines(files[paths[i]], paths[i])
  {
    assert paths[..i + 1][..i] == paths[..i];
  }

  method WriteTreeScript(files: map<string, string>) returns (b: string)
    ensures exists paths ::
      Lists(files, paths) && (forall p :: p in paths <==> p in files) && b == ScriptOf(files, paths)
  {
    var paths := SortedPaths(files);
    b := "";
    for i := 0 to |paths|
      invariant b == ScriptOf(files, paths[..i])
    {
      var dir, line := W.ParentDir(paths[i]), PrintfLine(files[paths[i]], paths[i]);
      ScriptOfNext(files, paths, i);
      Appended(b, dir, line);
      if dir != "" { b := b + MkdirLine(dir); }
      b := b + line;
    }
    assert paths[..|paths|] == paths;
  }

  lemma Appended(b: string, dir: string, line: string)
    ensures b + ((if dir != "" then MkdirLine(dir) else "") + line)
         == (if dir != "" then b + MkdirLine(dir) else b) + line
  {
    assert "" + line == line;
  }
}
