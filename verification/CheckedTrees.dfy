/**
 Whether the tree a turn leaves has been checked (`Run` in `internal/agents/agent.go`). The loop runs
 the check by itself after a turn that wrote, unless the turn already ran it, at whatever point.
 */
module CheckedTrees {
  import opened Wrappers
  import opened Text
  import opened Edit
  import opened Workspace
  import opened Toolbox
  import opened AgentLoop

  // The tree of the last execution.
  function LastTree(t: Tools): map<string, string>
    requires t.executions != []
  {
    t.executions[|t.executions| - 1].files
  }

  // The last execution was over the tree as it stands.
  ghost predicate TreeWasRun(t: Tools) {
    t.executions != [] && LastTree(t) == t.space.files
  }

  // ----- What changed since the last run of the check -----

  // The path whose file an accepted write or undo changed.
  function Touched(env: Env, t: Tools, call: Call): seq<string> {
    var (after, answer) := Invoked(env, t, call);
    if answer == None || Refused(answer.value) then []
    else if call.tool.WriteFile? && after.space.last.Some? then [after.space.last.value.path]
    else if call.tool.UndoEdit? && t.space.last.Some? then [t.space.last.value.path]
    else []
  }

  // The paths changed since the last run_command among the calls, in order.
  function Since(env: Env, p: Progress, calls: seq<Call>, since: seq<string>): seq<string>
    decreases |calls|
  {
    if calls == [] then since
    else
      var s := Handle(env, p, calls[0]);
      var now := if calls[0].tool.RunCommand? then [] else since + Touched(env, p.tools, calls[0]);
      if s.Going? then Since(env, s.at, calls[1..], now) else now
  }

  // Only what was changed since can differ from what was run, and what was changed once does.
  ghost predicate Tracks(t: Tools, since: seq<string>) {
    && t.executions != []
    && (forall path: string | path !in since :: SameAt(t.space.files, LastTree(t), path))
    && (Distinct(since) ==> forall path | path in since :: !SameAt(t.space.files, LastTree(t), path))
  }

  // An edit that can be undone did change its file.
  predicate UndoIsReal(sp: Space) {
    sp.last.Some? ==>
      var u := sp.last.value;
      u.path in sp.files && (u.existed ==> sp.files[u.path] != u.before)
  }

  // ----- One call -----

  ghost predicate ChangesOnly(files: map<string, string>, after: map<string, string>, path: string) {
    && (forall q: string | q != path :: SameAt(after, files, q))
    && !SameAt(after, files, path)
  }

  lemma CommitChangesOnly(sp: Space, a: Accepted)
    requires WithTrailingNewline(a.after) == a.after && a.after != Content(sp.files, a.path)
    ensures ChangesOnly(sp.files, Commit(sp, a).files, a.path) && UndoIsReal(Commit(sp, a))
  {}

  lemma UndoChangesOnly(sp: Space)
    requires UndoIsReal(sp) && sp.last.Some?
    ensures ChangesOnly(sp.files, Undone(sp).files, sp.last.value.path) && UndoIsReal(Undone(sp))
  {}

  // A write either changes exactly the file it names, or is refused and changes nothing.
  lemma WriteTouches(env: Env, t: Tools, args: string)
    ensures var call := Call(WriteFile, args); var after := Invoked(env, t, call).0;
      if Touched(env, t, call) == [] then after.space == t.space
      else Touched(env, t, call) == [after.space.last.value.path] && after.space.last.Some?
           && ChangesOnly(t.space.files, after.space.files, after.space.last.value.path) && UndoIsReal(after.space)
  {
    var call := Call(WriteFile, args);
    AcceptanceIsInTheText(env, t, call);
    if WriteFile in env.offered && env.decode(args).Ok? {
      var e := env.decode(args).value.0;
      if Decide(env.tc, env.flags, t.space.files, e).Ok? {
        DecideMeans(env.tc, env.flags, t.space.files, e);
        CommitChangesOnly(t.space, Decide(env.tc, env.flags, t.space.files, e).value);
      }
    }
  }

  lemma UndoTouches(env: Env, t: Tools, args: string)
    requires UndoIsReal(t.space)
    ensures var call := Call(Tool.UndoEdit, args); var after := Invoked(env, t, call).0;
      if Touched(env, t, call) == [] then after.space == t.space
      else t.space.last.Some? && Touched(env, t, call) == [t.space.last.value.path]
           && ChangesOnly(t.space.files, after.space.files, t.space.last.value.path) && UndoIsReal(after.space)
  {
    AcceptanceIsInTheText(env, t, Call(Tool.UndoEdit, args));
    if t.space.last.Some? { UndoChangesOnly(t.space); }
  }

  // One more changed path: different from what was run unless it had been changed before.
  lemma TracksOneMore(t: Tools, after: Tools, since: seq<string>, path: string)
    requires Tracks(t, since) && after.executions == t.executions
    requires ChangesOnly(t.space.files, after.space.files, path)
    ensures Tracks(after, since + [path])
  {
    var now := since + [path];
    forall q: string | q !in now ensures SameAt(after.space.files, LastTree(t), q) {
      assert q !in since && q != path;
      assert SameAt(after.space.files, t.space.files, q);
    }
    if Distinct(now) {
      DistinctSnoc(since, path);
      assert SameAt(t.space.files, LastTree(t), path);
      forall q | q in now ensures !SameAt(after.space.files, LastTree(t), q) {
        if q != path { assert q in since && SameAt(after.space.files, t.space.files, q); }
      }
    }
  }

  lemma DistinctSnoc(s: seq<string>, x: string)
    requires Distinct(s + [x])
    ensures Distinct(s) && x !in s
  {
    var all := s + [x];
    forall i, j | 0 <= i < j < |s| ensures s[i] != s[j] { assert all[i] == s[i] && all[j] == s[j]; }
    forall i | 0 <= i < |s| ensures s[i] != x { assert all[i] == s[i] && all[|s|] == x; }
  }

  // What a call other than run_command touches is what it changed.
  lemma CallTouches(env: Env, t: Tools, call: Call)
    requires UndoIsReal(t.space) && !call.tool.RunCommand?
    ensures var after, touched := Invoked(env, t, call).0, Touched(env, t, call);
      && after.executions == t.executions && UndoIsReal(after.space)
      && if touched == [] then after.space == t.space
         else |touched| == 1 && ChangesOnly(t.space.files, after.space.files, touched[0])
  {
    if call.tool.Other? { OthersDeliverNothing(env, t, call); } else { AcceptanceIsInTheText(env, t, call); }
    if call.tool.WriteFile? { WriteTouches(env, t, call.args); }
    if call.tool.UndoEdit? { UndoTouches(env, t, call.args); }
  }

  lemma CallTracks(env: Env, t: Tools, call: Call, since: seq<string>)
    requires UndoIsReal(t.space) && !call.tool.RunCommand? && Tracks(t, since)
    ensures Tracks(Invoked(env, t, call).0, since + Touched(env, t, call))
  {
    CallTouches(env, t, call);
    var after, touched := Invoked(env, t, call).0, Touched(env, t, call);
    if touched == [] {
      TracksStays(t, after, since);
      assert since + touched == since;
    } else {
      TracksOneMore(t, after, since, touched[0]);
      assert touched == [touched[0]];
    }
  }

  lemma TracksStays(t: Tools, after: Tools, since: seq<string>)
    requires Tracks(t, since) && after.executions == t.executions && after.space == t.space
    ensures Tracks(after, since)
  {}

  // run_command that did not end the stage has just run over the tree as it stands.
  lemma CheckTracks(env: Env, p: Progress, args: string)
    requires Runs(env) && Handle(env, p, Call(RunCommand, args)).Going?
    ensures var q := Handle(env, p, Call(RunCommand, args)).at;
      Tracks(q.tools, []) && q.tools.space == p.tools.space && q.ranCheck
  {
    ExecutionIsRecorded(env, p.tools, args);
  }

  lemma HandleTracks(env: Env, p: Progress, call: Call, since: seq<string>)
    requires Runs(env) && UndoIsReal(p.tools.space) && Handle(env, p, call).Going?
    requires p.ranCheck ==> Tracks(p.tools, since)
    ensures var q := Handle(env, p, call).at;
      && UndoIsReal(q.tools.space)
      && (q.ranCheck ==> Tracks(q.tools, if call.tool.RunCommand? then [] else since + Touched(env, p.tools, call)))
  {
    if call.tool.RunCommand? {
      CheckTracks(env, p, call.args);
    } else {
      CallTouches(env, p.tools, call);
      if p.ranCheck { CallTracks(env, p.tools, call, since); }
    }
  }

  lemma {:induction false} CallsTrack(env: Env, p: Progress, calls: seq<Call>, since: seq<string>)
    requires Runs(env) && UndoIsReal(p.tools.space) && HandleAll(env, p, calls).Going?
    requires p.ranCheck ==> Tracks(p.tools, since)
    ensures var q := HandleAll(env, p, calls).at;
      UndoIsReal(q.tools.space) && (q.ranCheck ==> Tracks(q.tools, Since(env, p, calls, since)))
    decreases |calls|
  {
    if calls != [] {
      HandleTracks(env, p, calls[0], since);
      var now := if calls[0].tool.RunCommand? then [] else since + Touched(env, p.tools, calls[0]);
      CallsTrack(env, Handle(env, p, calls[0]).at, calls[1..], now);
    }
  }

  // ----- A whole turn -----

  function Blank(p: Progress): Progress {
    p.(wrote := false, ranCheck := false)
  }

  lemma TurnTracks(env: Env, p: Progress, reply: Reply)
    requires Runs(env) && env.check != "" && UndoIsReal(p.tools.space) && Turn(env, p, reply).Next?
    ensures var t := Turn(env, p, reply).at;
      && UndoIsReal(t.tools.space)
      && (t.ranCheck ==> Tracks(t.tools, Since(env, Blank(p), reply.calls, [])))
      && (t.wrote && !t.ranCheck ==> TreeWasRun(t.tools))
  {
    CallsTrack(env, Blank(p), reply.calls, []);
    var q := HandleAll(env, Blank(p), reply.calls).at;
    if OwesACheck(env, q) { ExecutionIsRecorded(env, q.tools, "{}"); }
  }

  // The progress after these turns, if the stage is still going.
  function AfterTurns(env: Env, p: Progress, history: seq<Reply>): Option<Progress>
    decreases |history|
  {
    if history == [] then Some(p)
    else
      var t := Turn(env, p, history[0]);
      if t.Next? then AfterTurns(env, t.at, history[1..]) else None
  }

  // Undo takes back a real change, and nothing has run where nothing can.
  ghost predicate Plausible(env: Env, t: Tools) {
    UndoIsReal(t.space) && (!Runs(env) ==> t.executions == [])
  }

  lemma CallKeepsPlausible(env: Env, t: Tools, call: Call)
    requires Plausible(env, t)
    ensures Plausible(env, Invoked(env, t, call).0)
  {
    if !call.tool.RunCommand? {
      CallTouches(env, t, call);
    } else if Runs(env) {
      CheckDeliversNothing(env, t, call.args);
    } else {
      RefusedCheckIsNoPass(env, t, call.args);
    }
  }

  lemma {:induction false} CallsKeepPlausible(env: Env, p: Progress, calls: seq<Call>)
    requires Plausible(env, p.tools)
    ensures Plausible(env, HandleAll(env, p, calls).at.tools)
    decreases |calls|
  {
    if calls != [] {
      CallKeepsPlausible(env, p.tools, calls[0]);
      var s := Handle(env, p, calls[0]);
      if s.Going? { CallsKeepPlausible(env, s.at, calls[1..]); }
    }
  }

  lemma TurnKeepsPlausible(env: Env, p: Progress, reply: Reply)
    requires Plausible(env, p.tools)
    ensures Plausible(env, Turn(env, p, reply).at.tools)
  {
    CallsKeepPlausible(env, Blank(p), reply.calls);
    CallKeepsPlausible(env, HandleAll(env, Blank(p), reply.calls).at.tools, AUTO);
  }

  /**
   In every progress a stage reaches, the edit that can be undone did change its file, and without a
   sandbox or the tool to use it nothing has run.
   */
  lemma {:induction false} EveryProgressIsPlausible(env: Env, p: Progress, history: seq<Reply>)
    requires Plausible(env, p.tools)
    ensures AfterTurns(env, p, history).Some? ==> Plausible(env, AfterTurns(env, p, history).value.tools)
    decreases |history|
  {
    if history != [] && Turn(env, p, history[0]).Next? {
      TurnKeepsPlausible(env, p, history[0]);
      EveryProgressIsPlausible(env, Turn(env, p, history[0]).at, history[1..]);
    }
  }

  lemma TracksMeans(t: Tools, since: seq<string>)
    requires Tracks(t, since)
    ensures TreeWasRun(t) <==> forall path | path in since :: SameAt(t.space.files, LastTree(t), path)
  {
    if forall path | path in since :: SameAt(t.space.files, LastTree(t), path) {
      forall path: string ensures SameAt(t.space.files, LastTree(t), path) {}
      assert t.space.files.Keys == LastTree(t).Keys by {
        forall path: string ensures path in t.space.files <==> path in LastTree(t) {
          assert SameAt(t.space.files, LastTree(t), path);
        }
      }
      forall path | path in t.space.files ensures t.space.files[path] == LastTree(t)[path] {
        assert SameAt(t.space.files, LastTree(t), path);
      }
    }
  }

  // A turn that wrote and went on, of a stage with a check that had come this far.
  ghost predicate WroteAndWentOn(env: Env, files: map<string, string>, history: seq<Reply>, reply: Reply) {
    && env.check != "" && AfterTurns(env, Started(files), history).Some?
    && var t := Turn(env, AfterTurns(env, Started(files), history).value, reply);
       t.Next? && t.at.wrote
  }

  // The progress such a turn leaves, and the paths changed since the last run_command in it.
  ghost function Left(env: Env, files: map<string, string>, history: seq<Reply>, reply: Reply): (Progress, seq<string>)
    requires WroteAndWentOn(env, files, history, reply)
  {
    var p := AfterTurns(env, Started(files), history).value;
    (Turn(env, p, reply).at, Since(env, Blank(p), reply.calls, []))
  }

  lemma LeftTracks(env: Env, files: map<string, string>, history: seq<Reply>, reply: Reply)
    requires WroteAndWentOn(env, files, history, reply)
    ensures var (q, since) := Left(env, files, history, reply);
      if !Runs(env) then !TreeWasRun(q.tools)
      else if q.ranCheck then Tracks(q.tools, since)
      else TreeWasRun(q.tools)
  {
    EveryProgressIsPlausible(env, Started(files), history);
    var p := AfterTurns(env, Started(files), history).value;
    if Runs(env) { TurnTracks(env, p, reply); } else { TurnKeepsPlausible(env, p, reply); }
  }

  /**
   In every run, a turn that wrote goes on with a tree no check has seen exactly when nothing can run
   the check, or the turn ran it itself and some path written or undone after its last run_command now
   holds something else than then.
   */
  lemma TreeGoesUncheckedExactlyWhen(env: Env, files: map<string, string>, history: seq<Reply>, reply: Reply)
    requires WroteAndWentOn(env, files, history, reply)
    ensures var (q, since) := Left(env, files, history, reply);
      !TreeWasRun(q.tools) <==>
      !Runs(env) ||
      (q.ranCheck && q.tools.executions != []
       && exists path | path in since :: !SameAt(q.tools.space.files, LastTree(q.tools), path))
  {
    LeftTracks(env, files, history, reply);
    var (q, since) := Left(env, files, history, reply);
    if Runs(env) && q.ranCheck { TracksMeans(q.tools, since); }
  }

  /**
   In terms of the calls alone: when no path is changed twice after the last run_command, the tree goes
   on unchecked exactly when nothing can run the check, or the turn ran it and an accepted write or undo
   came after it.
   */
  lemma ChangeAfterCheckGoesUnchecked(env: Env, files: map<string, string>, history: seq<Reply>, reply: Reply)
    requires WroteAndWentOn(env, files, history, reply) && Distinct(Left(env, files, history, reply).1)
    ensures var (q, since) := Left(env, files, history, reply);
      !TreeWasRun(q.tools) <==> !Runs(env) || (q.ranCheck && since != [])
  {
    LeftTracks(env, files, history, reply);
    var (q, since) := Left(env, files, history, reply);
    if Runs(env) && q.ranCheck {
      TracksMeans(q.tools, since);
      if since != [] { assert since[0] in since; }
    }
  }

  /**
   A turn that wrote and did not run the check itself has its tree run before the next turn exactly
   when run_command is offered and a sandbox is attached.
   */
  lemma WritingTurnIsChecked(env: Env, files: map<string, string>, history: seq<Reply>, reply: Reply)
    requires WroteAndWentOn(env, files, history, reply) && !Left(env, files, history, reply).0.ranCheck
    ensures TreeWasRun(Left(env, files, history, reply).0.tools) <==> Runs(env)
  {
    LeftTracks(env, files, history, reply);
  }

  // ----- A stage in which it happens -----

  // No file is Go, every path is permitted, every write puts one line into one new file, `make` fails.
  function Sample(): Env {
    var tc := Toolchain(p => Some(p), _ => true, _ => true, _ => false, _ => Names({}, ""), _ => false,
                        (_, _) => true, text => text, (_, _) => None, _ => 0);
    Env(tc, Flags(false, false), {WriteFile, Tool.UndoEdit, RunCommand}, "make", true,
        (_, _) => Some(Ran(1, "", "")), _ => Ok((Edit("f", "", "", 0, 0, "x"), "")), _ => "refused",
        (_, _) => Err("no board"), (_, _) => Err("no merge"), (_, _) => None)
  }

  const WRITE := Call(WriteFile, "")
  const UNDO := Call(Tool.UndoEdit, "")

  lemma SampleCheckFails(p: Progress)
    ensures var s := Handle(Sample(), p, AUTO);
      && s.Going? && s.at.ranCheck && s.at.wrote == p.wrote && s.at.idle == 0
      && s.at.tools.space == p.tools.space && s.at.tools.executions != [] && LastTree(s.at.tools) == p.tools.space.files
  {
    var env := Sample();
    OneLineChecksAreUnambiguous(env.check);
    PassIsAGreenExecution(env, p.tools, AUTO.args);
    ExecutionIsRecorded(env, p.tools, AUTO.args);
    assert Invoked(env, p.tools, AUTO).0.executions[|p.tools.executions|].code == 1;
  }

  lemma SampleDecides()
    ensures Decide(Sample().tc, Sample().flags, map[], Edit("f", "", "", 0, 0, "x"))
         == Ok(Accepted("f", "x" + "\n", Span(0, 0, false)))
  {
    assert !IsGo("f");
  }

  lemma SampleWriteLands(p: Progress)
    requires p.tools.space == Opened(map[])
    ensures var s := Handle(Sample(), p, WRITE);
      && s.Going? && s.at.wrote && s.at.ranCheck == p.ranCheck && s.at.idle == 0
      && s.at.tools.space.last.Some? && "f" in s.at.tools.space.files && Undone(s.at.tools.space).files == map[]
      && s.at.tools.executions == p.tools.executions
  {
    var env := Sample();
    SampleDecides();
    AcceptanceIsInTheText(env, p.tools, WRITE);
    CommitRemembers(p.tools.space, Accepted("f", "x" + "\n", Span(0, 0, false)));
  }

  lemma SampleUndoLands(p: Progress)
    requires p.tools.space.last.Some?
    ensures var s := Handle(Sample(), p, UNDO);
      && s.Going? && s.at.wrote && s.at.ranCheck == p.ranCheck && s.at.idle == 0
      && s.at.tools.space == Undone(p.tools.space) && s.at.tools.executions == p.tools.executions
  {
    AcceptanceIsInTheText(Sample(), p.tools, UNDO);
  }

  lemma HandleAllOf(env: Env, p: Progress, call: Call, calls: seq<Call>)
    requires Handle(env, p, call).Going?
    ensures HandleAll(env, p, [call] + calls) == HandleAll(env, Handle(env, p, call).at, calls)
  {
    assert ([call] + calls)[1..] == calls;
  }

  // A turn that has run the check goes on as its calls leave it.
  lemma CheckedTurnGoesOn(env: Env, p: Progress, reply: Reply)
    requires reply.calls != [] && HandleAll(env, Blank(p), reply.calls).Going?
    requires var q := HandleAll(env, Blank(p), reply.calls).at; q.ranCheck && q.idle == 0
    ensures Turn(env, p, reply) == Next(HandleAll(env, Blank(p), reply.calls).at.(idle := 1))
  {}

  /** Checking first and writing second leaves a tree no check has seen. */
  lemma CheckThenWriteGoesUnchecked(reply: Reply)
    requires reply.calls == [AUTO] + [WRITE]
    ensures WroteAndWentOn(Sample(), map[], [], reply) && !TreeWasRun(Left(Sample(), map[], [], reply).0.tools)
  {
    var env, p := Sample(), Started(map[]);
    var start := Blank(p);
    SampleCheckFails(start);
    var checked := Handle(env, start, AUTO).at;
    SampleWriteLands(checked);
    HandleAllOf(env, start, AUTO, [WRITE]);
    HandleAllOf(env, checked, WRITE, []);
    assert [WRITE] + [] == [WRITE];
    CheckedTurnGoesOn(env, p, reply);
  }

  /** Taking the write back leaves the checked tree: a change after the check is not enough. */
  lemma CheckThenWriteAndUndoIsChecked(reply: Reply)
    requires reply.calls == [AUTO] + ([WRITE] + [UNDO])
    ensures WroteAndWentOn(Sample(), map[], [], reply) && Left(Sample(), map[], [], reply).0.ranCheck
    ensures TreeWasRun(Left(Sample(), map[], [], reply).0.tools)
  {
    var env, p := Sample(), Started(map[]);
    var start := Blank(p);
    SampleCheckFails(start);
    var checked := Handle(env, start, AUTO).at;
    SampleWriteLands(checked);
    var written := Handle(env, checked, WRITE).at;
    SampleUndoLands(written);
    HandleAllOf(env, start, AUTO, [WRITE] + [UNDO]);
    HandleAllOf(env, checked, WRITE, [UNDO]);
    HandleAllOf(env, written, UNDO, []);
    assert [UNDO] + [] == [UNDO];
    CheckedTurnGoesOn(env, p, reply);
  }
}
