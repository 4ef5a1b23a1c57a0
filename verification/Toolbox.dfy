/**
 The tools a stage may call (`internal/tools/tools.go`), for a stage that is not offered next_task.

 A call's answer is text for the model to read: a refusal begins with "Error:", and only an
 unreachable sandbox is an error. Everything outside the process (the sandbox, the ticket board, the
 merge) is a function of the call's turn on the clock, so two equal calls may be answered differently.
 */
module Toolbox {
  import opened Wrappers
  import opened Text
  import opened Edit
  import opened Workspace

  datatype Tool = WriteFile | UndoEdit | RunCommand | FileTicket | MergeFix | Other(title: string) {
    function Name(): string {
      match this
      case WriteFile => "write_file"
      case UndoEdit => "undo_edit"
      case RunCommand => "run_command"
      case FileTicket => "file_ticket"
      case MergeFix => "merge_fix"
      case Other(title) => title
    }
  }

  /** The names the model calls the tools by. */
  lemma ToolsByName(title: string)
    ensures WriteFile.Name() == "write_file" && Tool.UndoEdit.Name() == "undo_edit"
    ensures RunCommand.Name() == "run_command"
    ensures FileTicket.Name() == "file_ticket" && MergeFix.Name() == "merge_fix" && Other(title).Name() == title
  {}

  datatype Call = Call(tool: Tool, args: string)

  datatype Ran = Ran(code: int, stdout: string, stderr: string)

  datatype Env = Env(
    tc: Toolchain, flags: Flags, offered: set<Tool>,
    check: string, attached: bool,
    sandbox: (nat, map<string, string>) -> Option<Ran>,       // None: unreachable
    decode: string -> Result<(Edit, string), string>,         // write_file's edit and summary
    wording: Refusal -> string,
    board: (nat, string) -> Result<string, string>,
    merge: (nat, string) -> Result<string, string>,
    others: (nat, Call) -> Option<string>)

  // One execution of the check: over which tree, and how it exited.
  datatype Execution = Execution(files: map<string, string>, code: int)

  /** `executions`, `tickets` and `merges` record what the tools have done outside the process. */
  datatype Tools = Tools(
    space: Space, lastCall: string, repeats: nat, clock: nat,
    executions: seq<Execution>, tickets: nat, merges: nat)

  type Answer = (Tools, Option<string>)

  const MAX_REPEATED_CALLS := 3

  predicate Refused(result: string) {
    HasPrefix(result, "Error:")
  }

  function Fault(why: string): string {
    "Error: " + why
  }

  function Render(check: string, r: Ran): string {
    "$ " + check + "\nexit " + Itoa(r.code) + "\n" + (r.stdout + r.stderr)
  }

  function Written(env: Env, t: Tools, args: string): Answer {
    match env.decode(args)
    case Err(why) => (t, Some(Fault(why)))
    case Ok(asked) =>
      match Decide(env.tc, env.flags, t.space.files, asked.0)
      case Err(refusal) => (t, Some(Fault(env.wording(refusal))))
      case Ok(a) => (t.(space := Commit(t.space, a)), Some("Edited: " + a.path + ". " + asked.1))
  }

  function TakenBack(t: Tools): Answer {
    if t.space.last == None then (t, Some(Fault("nothing to undo")))
    else (t.(space := Undone(t.space)), Some("Restored " + t.space.last.value.path))
  }

  function Executed(env: Env, t: Tools): Answer {
    if !env.attached then (t, Some(Fault("no sandbox")))
    else
      match env.sandbox(t.clock, t.space.files)
      case None => (t, None)
      case Some(r) =>
        (t.(executions := t.executions + [Execution(t.space.files, r.code)]), Some(Render(env.check, r)))
  }

  function Filed(env: Env, t: Tools, args: string): Answer {
    match env.board(t.clock, args)
    case Err(why) => (t, Some(Fault(why)))
    case Ok(id) => (t.(tickets := t.tickets + 1), Some("Filed " + id))
  }

  function Merged(env: Env, t: Tools, args: string): Answer {
    match env.merge(t.clock, args)
    case Err(why) => (t, Some(Fault(why)))
    case Ok(what) => (t.(merges := t.merges + 1), Some("Approved and merged to dev: " + what))
  }

  function Attempted(env: Env, t: Tools, call: Call): Answer {
    if call.tool !in env.offered then (t, Some(Fault("no tool " + call.tool.Name())))
    else
      match call.tool
      case WriteFile => Written(env, t, call.args)
      case UndoEdit => TakenBack(t)
      case RunCommand => Executed(env, t)
      case FileTicket => Filed(env, t, call.args)
      case MergeFix => Merged(env, t, call.args)
      case Other(_) => (t, env.others(t.clock, call))
  }

  function Advice(env: Env): string {
    if WriteFile in env.offered && RunCommand in env.offered then "Write or run."
    else if WriteFile in env.offered then "Write."
    else "Change something."
  }

  function NoticeLine(env: Env, times: nat, name: string): string {
    "NOTE: " + (Itoa(times) + (" times: " + (name + Advice(env))))
  }

  // What an answer gets appended, given how often it has been repeated.
  function Notice(env: Env, repeats: nat, name: string, result: string): string {
    if repeats < MAX_REPEATED_CALLS || Contains(result, "NOTE: you already had") then ""
    else "\n\n" + NoticeLine(env, repeats + 1, name)
  }

  function Key(call: Call, result: string): string {
    call.tool.Name() + "\0" + call.args + "\0" + result
  }

  // noteRepetition: a warning on a call that keeps returning exactly what it did before.
  function Noted(env: Env, t: Tools, call: Call, result: string): (Tools, string) {
    if Key(call, result) != t.lastCall then (t.(lastCall := Key(call, result), repeats := 0), result)
    else (t.(repeats := t.repeats + 1), result + Notice(env, t.repeats + 1, call.tool.Name(), result))
  }

  /**
   The notice comes with the third repetition of a call and its answer: at the first two, and when the
   answer carries the notice already, the answer is passed on as it is; anything else starts over.
   */
  lemma RepetitionByCount(env: Env, t: Tools, call: Call, result: string)
    ensures var (after, text) := Noted(env, t, call, result);
      && after == t.(lastCall := Key(call, result), repeats := after.repeats)
      && (Key(call, result) != t.lastCall ==> after.repeats == 0 && text == result)
      && (Key(call, result) == t.lastCall ==>
            && after.repeats == t.repeats + 1
            && (t.repeats < 2 || Contains(result, "NOTE: you already had") ==> text == result)
            && (t.repeats >= 2 && !Contains(result, "NOTE: you already had") ==>
                  text == result + ("\n\n" + NoticeLine(env, t.repeats + 2, call.tool.Name()))))
  {
    assert result + "" == result;
  }

  /** What the notice advises can be done: it names a tool only where the tool is offered. */
  lemma AdviceIsFollowable(env: Env)
    ensures Advice(env) == "Write or run." <==> {WriteFile, RunCommand} <= env.offered
    ensures Advice(env) == "Write." <==> WriteFile in env.offered && RunCommand !in env.offered
    ensures Advice(env) == "Change something." <==> WriteFile !in env.offered
  {
    assert |Advice(env)| == (if WriteFile !in env.offered then 17 else if RunCommand in env.offered then 13 else 6);
  }

  function Invoked(env: Env, t: Tools, call: Call): Answer {
    var (after, answer) := Attempted(env, t, call);
    var ticked := after.(clock := t.clock + 1);
    if answer == None then (ticked, None)
    else
      var (noted, text) := Noted(env, ticked, call, answer.value);
      (noted, Some(text))
  }

  /**
   What the tools do to the tree: write_file performs the edit its arguments decode to, under the stage's
   own flags, undo_edit takes the last one back, and every other call leaves the tree alone.
   */
  lemma TreeByTool(env: Env, t: Tools, call: Call)
    ensures var after := Invoked(env, t, call).0.space;
      if call.tool !in env.offered then after == t.space
      else match call.tool
           case WriteFile =>
             after == (match env.decode(call.args)
                       case Ok(asked) => Perform(env.tc, env.flags, t.space, Write(asked.0))
                       case Err(_) => t.space)
           case UndoEdit => after == Perform(env.tc, env.flags, t.space, Op.UndoEdit)
           case _ => after == t.space
  {}

  // ----- What an answer tells its reader -----

  lemma PrefixDecidesRefusal(s: string, t: string)
    requires s <= t && |s| >= 6
    ensures Refused(t) <==> Refused(s)
  {
    assert t[..6] == s[..6];
    assert Refused(t) <==> t[..6] == "Error:";
    assert Refused(s) <==> s[..6] == "Error:";
  }

  // The heads of the answers are told apart by their first letters.
  lemma Heads(rest: string)
    ensures Refused(Fault(rest))
    ensures !Refused("Edited: " + rest) && !Refused("Restored " + rest) && !Refused("Filed " + rest)
    ensures !Refused("Approved and merged to dev: " + rest)
  {
    assert Fault(rest)[..6] == "Error:";
    assert ("Edited: " + rest)[1] == 'd' && "Error:"[1] == 'r';
    assert ("Restored " + rest)[0] == 'R' && ("Filed " + rest)[0] == 'F' && "Error:"[0] == 'E';
    assert ("Approved and merged to dev: " + rest)[0] == 'A';
  }

  // What one call did to the deliverables, given whether its answer was not a refusal.
  ghost predicate Delivered(t: Tools, after: Tools, tool: Tool, accepted: bool) {
    && after.tickets == t.tickets + (if accepted && tool.FileTicket? then 1 else 0)
    && after.merges == t.merges + (if accepted && tool.MergeFix? then 1 else 0)
    && after.executions == t.executions
    && if accepted && tool.WriteFile? then
         after.space.writes == t.space.writes + 1 && after.space.files != t.space.files
       else if accepted && tool.UndoEdit? then
         t.space.last != None && after.space == Undone(t.space)
       else after.space == t.space
  }

  ghost predicate AnswerDelivers(t: Tools, a: Answer, tool: Tool) {
    a.1.Some? && |a.1.value| >= 6 && Delivered(t, a.0, tool, !Refused(a.1.value))
  }

  lemma CommitChangesTheTree(sp: Space, a: Accepted)
    requires WithTrailingNewline(a.after) == a.after
    requires a.after != Content(sp.files, a.path)
    requires a.path in sp.files || a.after != ""
    ensures Commit(sp, a).files != sp.files
  {
    assert Commit(sp, a).files[a.path] == a.after;
  }

  lemma WriteDelivers(env: Env, t: Tools, args: string)
    ensures AnswerDelivers(t, Written(env, t, args), WriteFile)
  {
    match env.decode(args)
    case Err(why) => Heads(why);
    case Ok(asked) =>
      match Decide(env.tc, env.flags, t.space.files, asked.0)
      case Err(refusal) => Heads(env.wording(refusal));
      case Ok(a) =>
        DecideMeans(env.tc, env.flags, t.space.files, asked.0);
        CommitChangesTheTree(t.space, a);
        Heads(a.path + ". " + asked.1);
        assert "Edited: " + a.path + ". " + asked.1 == "Edited: " + (a.path + ". " + asked.1);
  }

  lemma UndoDelivers(t: Tools)
    ensures AnswerDelivers(t, TakenBack(t), Tool.UndoEdit)
  {
    Heads(if t.space.last == None then "nothing to undo" else t.space.last.value.path);
  }

  lemma BoardDelivers(env: Env, t: Tools, args: string)
    ensures AnswerDelivers(t, Filed(env, t, args), FileTicket)
  {
    match env.board(t.clock, args)
    case Err(why) => Heads(why);
    case Ok(id) => Heads(id);
  }

  lemma MergeDelivers(env: Env, t: Tools, args: string)
    ensures AnswerDelivers(t, Merged(env, t, args), MergeFix)
  {
    match env.merge(t.clock, args)
    case Err(why) => Heads(why);
    case Ok(what) => Heads(what);
  }

  lemma AttemptDelivers(env: Env, t: Tools, call: Call)
    requires !call.tool.Other? && !call.tool.RunCommand?
    ensures AnswerDelivers(t, Attempted(env, t, call), call.tool)
  {
    if call.tool !in env.offered {
      Heads("no tool " + call.tool.Name());
    } else {
      match call.tool
      case WriteFile => WriteDelivers(env, t, call.args);
      case UndoEdit => UndoDelivers(t);
      case FileTicket => BoardDelivers(env, t, call.args);
      case MergeFix => MergeDelivers(env, t, call.args);
    }
  }

  /** The text alone says whether a call was accepted, and the counters moved exactly when it says so. */
  lemma AcceptanceIsInTheText(env: Env, t: Tools, call: Call)
    requires !call.tool.Other? && !call.tool.RunCommand?
    ensures var (after, answer) := Invoked(env, t, call);
      answer.Some? && Delivered(t, after, call.tool, !Refused(answer.value))
  {
    AttemptDelivers(env, t, call);
    var (after, answer) := Attempted(env, t, call);
    var ticked := after.(clock := t.clock + 1);
    PrefixDecidesRefusal(answer.value, Noted(env, ticked, call, answer.value).1);
  }

  // Reading, searching and listing deliver nothing.
  lemma OthersDeliverNothing(env: Env, t: Tools, call: Call)
    requires call.tool.Other?
    ensures var after := Invoked(env, t, call).0;
      && after.space == t.space && after.tickets == t.tickets && after.merges == t.merges
      && after.executions == t.executions
  {}

  // Whether run_command gets as far as the sandbox.
  predicate Runs(env: Env) {
    RunCommand in env.offered && env.attached
  }

  /** A run of the check is recorded with the tree it ran over, and answered with its rendering. */
  lemma ExecutionIsRecorded(env: Env, t: Tools, args: string)
    requires Runs(env)
    ensures var (after, answer) := Invoked(env, t, Call(RunCommand, args));
      && after.space == t.space && after.tickets == t.tickets && after.merges == t.merges
      && match env.sandbox(t.clock, t.space.files)
         case None => answer == None && after.executions == t.executions
         case Some(r) =>
           && answer.Some? && Render(env.check, r) <= answer.value
           && after.executions == t.executions + [Execution(t.space.files, r.code)]
  {}

  // ----- The tool set itself -----

  class ToolSet {
    const env: Env
    const workspace: Workspace
    var lastCall: string
    var repeats: nat
    var clock: nat
    ghost var executions: seq<Execution>
    ghost var tickets: nat
    ghost var merges: nat

    ghost predicate Valid()
      reads this, workspace
    {
      workspace.tc == env.tc && workspace.Settings() == env.flags
    }

    ghost function View(): Tools
      reads this, workspace
    {
      Tools(workspace.View(), lastCall, repeats, clock, executions, tickets, merges)
    }

    constructor (env: Env, workspace: Workspace)
      requires workspace.tc == env.tc && workspace.Settings() == env.flags
      ensures Valid() && this.env == env && this.workspace == workspace
      ensures View() == Tools(workspace.View(), "", 0, 0, [], 0, 0)
    {
      this.env, this.workspace := env, workspace;
      lastCall, repeats, clock := "", 0, 0;
      executions, tickets, merges := [], 0, 0;
    }

    method Write(args: string) returns (answer: string)
      requires Valid()
      modifies workspace
      ensures Valid() && (View(), Some(answer)) == Written(env, old(View()), args)
    {
      var asked := env.decode(args);
      if asked.Err? { return Fault(asked.error); }
      var r := workspace.ApplyEdit(asked.value.0);
      if r.Err? { return Fault(env.wording(r.error)); }
      return "Edited: " + r.value.path + ". " + asked.value.1;
    }

    method TakeBack() returns (answer: string)
      requires Valid()
      modifies workspace
      ensures Valid() && (View(), Some(answer)) == TakenBack(old(View()))
    {
      var path := workspace.Undo();
      if path == None { return Fault("nothing to undo"); }
      return "Restored " + path.value;
    }

    method Execute() returns (answer: Option<string>)
      requires Valid()
      modifies this`executions
      ensures Valid() && (View(), answer) == Executed(env, old(View()))
    {
      if !env.attached { return Some(Fault("no sandbox")); }
      var out := env.sandbox(clock, workspace.files);
      if out == None { return None; }
      executions := executions + [Execution(workspace.files, out.value.code)];
      return Some(Render(env.check, out.value));
    }

    method File(args: string) returns (answer: string)
      requires Valid()
      modifies this`tickets
      ensures Valid() && (View(), Some(answer)) == Filed(env, old(View()), args)
    {
      var r := env.board(clock, args);
      if r.Err? { return Fault(r.error); }
      tickets := tickets + 1;
      return "Filed " + r.value;
    }

    method Merge(args: string) returns (answer: string)
      requires Valid()
      modifies this`merges
      ensures Valid() && (View(), Some(answer)) == Merged(env, old(View()), args)
    {
      var r := env.merge(clock, args);
      if r.Err? { return Fault(r.error); }
      merges := merges + 1;
      return "Approved and merged to dev: " + r.value;
    }

    method Attempt(call: Call) returns (answer: Option<string>)
      requires Valid()
      modifies this, workspace
      ensures Valid() && (View(), answer) == Attempted(env, old(View()), call)
    {
      if call.tool !in env.offered { return Some(Fault("no tool " + call.tool.Name())); }
      var text: string;
      match call.tool {
        case WriteFile => text := Write(call.args);
        case UndoEdit => text := TakeBack();
        case RunCommand => answer := Execute(); return;
        case FileTicket => text := File(call.args);
        case MergeFix => text := Merge(call.args);
        case Other(_) => return env.others(clock, call);
      }
      return Some(text);
    }

    method NoteRepetition(call: Call, result: string) returns (text: string)
      modifies this`lastCall, this`repeats
      ensures (View(), text) == Noted(env, old(View()), call, result)
    {
      assert result + "" == result;
      var key := Key(call, result);
      if key != lastCall {
        lastCall, repeats := key, 0;
        return result;
      }
      repeats := repeats + 1;
      if repeats < MAX_REPEATED_CALLS { return result; }
      if Contains(result, "NOTE: you already had") { return result; }
      return result + ("\n\n" + NoticeLine(env, repeats + 1, call.tool.Name()));
    }

    method Invoke(call: Call) returns (answer: Option<string>)
      requires Valid()
      modifies this, workspace
      ensures Valid() && (View(), answer) == Invoked(env, old(View()), call)
    {
      answer := Attempt(call);
      clock := clock + 1;
      if answer == None { return None; }
      var text := NoteRepetition(call, answer.value);
      return Some(text);
    }
  }
}
