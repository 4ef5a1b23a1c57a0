/**
 The bounded loop that runs a stage (`internal/agents/agent.go`), for a stage that is not offered
 next_task. The model's reply to turn i, and whether it can be reached at all, is a function of i.
 */
module AgentLoop {
  import opened Wrappers
  import opened Text
  import opened Workspace
  import opened Toolbox

  const MAX_IDLE_TURNS := 15

  datatype Reply = Reply(calls: seq<Call>, content: string, truncated: bool)

  // ----- Reading the verdict out of run_command's answer -----

  const EXIT := "exit "

  function FirstExit(lines: seq<string>): Option<string> {
    if lines == [] then None
    else if HasPrefix(lines[0], EXIT) then Some(lines[0])
    else FirstExit(lines[1..])
  }

  predicate SaysZero(line: Option<string>) {
    line.Some? && TrimSpace(line.value) == "exit 0"
  }

  predicate CheckPassed(result: string) {
    SaysZero(FirstExit(Split(result)))
  }

  // checkPassed, as the source scans the lines.
  method ScanVerdict(result: string) returns (passed: bool)
    ensures passed == CheckPassed(result)
  {
    var lines := Split(result);
    for i := 0 to |lines|
      invariant FirstExit(lines) == FirstExit(lines[i..])
    {
      assert lines[i..][1..] == lines[i + 1..];
      if HasPrefix(lines[i], EXIT) { return TrimSpace(lines[i]) == "exit 0"; }
    }
    return false;
  }

  lemma {:induction false} FirstExitOfConcat(a: seq<string>, b: seq<string>)
    ensures FirstExit(a + b) == if FirstExit(a).Some? then FirstExit(a) else FirstExit(b)
  {
    if a == [] {
      assert a + b == b;
    } else {
      assert (a + b)[1..] == a[1..] + b;
      FirstExitOfConcat(a[1..], b);
    }
  }

  lemma {:induction false} FirstExitIsALine(lines: seq<string>)
    ensures FirstExit(lines).Some? <==> exists i | 0 <= i < |lines| :: HasPrefix(lines[i], EXIT)
  {
    if lines != [] {
      FirstExitIsALine(lines[1..]);
      assert lines == [lines[0]] + lines[1..];
    }
  }

  lemma TrimOfPlainEnds(s: string)
    requires s != [] && !IsSpace(s[0]) && !IsSpace(s[|s| - 1])
    ensures TrimSpace(s) == s
  {}

  lemma ExitLineSaysItsCode(code: int)
    ensures HasPrefix(EXIT + Itoa(code), EXIT)
    ensures SaysZero(Some(EXIT + Itoa(code))) <==> code == 0
  {
    ItoaIsPlain(code);
    var line := EXIT + Itoa(code);
    assert line[0] == 'e' && line[|line| - 1] == Itoa(code)[|Itoa(code)| - 1];
    TrimOfPlainEnds(line);
    assert line[5..] == Itoa(code) && "exit 0"[5..] == "0";
    assert EXIT + "0" == "exit 0";
  }

  // No line of the command after its first could be taken for an exit status.
  predicate Unambiguous(check: string) {
    FirstExit(Split(check)[1..]) == None
  }

  lemma OneLineChecksAreUnambiguous(check: string)
    requires OneLine(check)
    ensures Unambiguous(check)
  {
    SplitOfOneLine(check);
  }

  lemma EchoedCommand(check: string)
    ensures FirstExit(Split("$ " + check)) == FirstExit(Split(check)[1..])
  {
    var s := "$ " + check;
    assert s[1..] == " " + check && (" " + check)[1..] == check;
    var inner := Split(" " + check);
    assert Split(s) == Prepend('$', inner) && inner == Prepend(' ', Split(check));
    assert Split(s)[1..] == Split(check)[1..];
    assert Split(s)[0][0] == '$';
  }

  // The verdict over a rendering, whatever follows it.
  lemma VerdictOfRendering(check: string, r: Ran, more: string)
    ensures FirstExit(Split(Render(check, r) + more)) ==
            if Unambiguous(check) then Some(EXIT + Itoa(r.code)) else FirstExit(Split(check)[1..])
  {
    var line := EXIT + Itoa(r.code);
    var tail := (r.stdout + r.stderr) + more;
    RenderingInLines(check, r, more);
    ItoaIsPlain(r.code);
    SplitAtNewline("$ " + check, line + "\n" + tail);
    SplitAfterLine(line, tail);
    EchoedCommand(check);
    ExitLineSaysItsCode(r.code);
    FirstExitOfConcat(Split("$ " + check), [line] + Split(tail));
  }

  lemma RenderingInLines(check: string, r: Ran, more: string)
    ensures Render(check, r) + more
         == "$ " + check + "\n" + (EXIT + Itoa(r.code) + "\n" + ((r.stdout + r.stderr) + more))
  {
    var code, output := Itoa(r.code), r.stdout + r.stderr;
    calc {
      "$ " + check + "\nexit " + code + "\n" + output + more;
      { assert "\nexit " == "\n" + EXIT; }
      "$ " + check + ("\n" + EXIT) + code + "\n" + output + more;
      "$ " + check + "\n" + (EXIT + code + "\n" + (output + more));
    }
  }

  /**
   Reading the verdict inverts the rendering, for every exit code, every output and everything
   appended, exactly when no later line of the command itself begins like an exit status.
   */
  lemma VerdictInvertsRenderingExactlyWhen(check: string)
    ensures Unambiguous(check) <==>
            forall r: Ran, more: string :: CheckPassed(Render(check, r) + more) <==> r.code == 0
  {
    forall r: Ran, more: string
      ensures Unambiguous(check) ==> (CheckPassed(Render(check, r) + more) <==> r.code == 0)
      ensures !Unambiguous(check) ==>
              CheckPassed(Render(check, r) + more) == SaysZero(FirstExit(Split(check)[1..]))
    {
      VerdictOfRendering(check, r, more);
      ExitLineSaysItsCode(r.code);
    }
    if !Unambiguous(check) {
      var good, bad := Ran(0, "", ""), Ran(1, "", "");
      assert CheckPassed(Render(check, good) + "") == CheckPassed(Render(check, bad) + "");
    }
  }

  // A command whose second line is an exit line reads as that line says.
  lemma SecondLineIsTheVerdict(first: string, second: string, code: int, r: Ran)
    requires OneLine(first) && OneLine(second) && second == EXIT + Itoa(code)
    ensures FirstExit(Split(first + "\n" + second)[1..]) == Some(second)
    ensures CheckPassed(Render(first + "\n" + second, r)) <==> code == 0
  {
    var check := first + "\n" + second;
    SplitAfterLine(first, second);
    SplitOfOneLine(second);
    assert Split(check)[1..] == [second];
    ExitLineSaysItsCode(code);
    VerdictOfRendering(check, r, "");
    assert Render(check, r) + "" == Render(check, r);
  }

  /** The command of the lines `a` and `exit 0` reads as passed however it exits. */
  lemma AmbiguousCheckHidesAFailure(check: string, r: Ran)
    requires check == "a" + "\n" + "exit 0"
    ensures !Unambiguous(check) && CheckPassed(Render(check, r))
  {
    ItoaIsPlain(0);
    SecondLineIsTheVerdict("a", "exit 0", 0, r);
  }

  // A line that is no exit status, with or without a notice after it.
  lemma PlainTextIsNoPass(line: string, notice: string)
    requires OneLine(line) && line != [] && line[0] != 'e'
    requires OneLine(notice) && notice != [] && notice[0] != 'e'
    ensures !CheckPassed(line) && !CheckPassed(line + ("\n\n" + notice))
  {
    SplitOfOneLine(line);
    SplitOfOneLine(notice);
    SplitAfterLine(line, "\n" + notice);
    SplitAfterLine("", notice);
    assert line + ("\n\n" + notice) == line + "\n" + ("\n" + notice);
    assert "" + "\n" + notice == "\n" + notice;
    var lines := [line, "", notice];
    assert Split(line + ("\n\n" + notice)) == lines;
    assert lines[1..] == ["", notice] && lines[1..][1..] == [notice];
    assert FirstExit(lines) == FirstExit([notice]);
  }

  lemma Joined(a: string, b: string)
    requires OneLine(a) && OneLine(b)
    ensures OneLine(a + b)
  {}

  lemma AdviceIsOneLine(env: Env)
    ensures OneLine(Advice(env))
  {}

  lemma NoticeLineIsPlain(env: Env, times: nat, name: string)
    requires OneLine(name)
    ensures OneLine(NoticeLine(env, times, name)) && NoticeLine(env, times, name)[0] == 'N'
  {
    ItoaIsPlain(times);
    AdviceIsOneLine(env);
    var advice, count := Advice(env), Itoa(times);
    Joined(name, advice);
    Joined(" times: ", name + advice);
    Joined(count, " times: " + (name + advice));
    Joined("NOTE: ", count + (" times: " + (name + advice)));
  }

  // An answer that is one plain line still is no pass once it has been noted as a repetition.
  lemma NotedIsNoPass(env: Env, t: Tools, call: Call, said: string)
    requires OneLine(call.tool.Name()) && OneLine(said) && said != [] && said[0] != 'e'
    ensures !CheckPassed(Noted(env, t, call, said).1)
  {
    NoticeLineIsPlain(env, t.repeats + 2, call.tool.Name());
    PlainTextIsNoPass(said, NoticeLine(env, t.repeats + 2, call.tool.Name()));
    assert said + "" == said;
  }

  lemma RefusalIsPlain(env: Env, t: Tools, args: string)
    requires !Runs(env)
    ensures var (after, answer) := Attempted(env, t, Call(RunCommand, args));
      after == t && answer.Some? && OneLine(answer.value) && answer.value[0] == 'E'
  {
    var why := if RunCommand !in env.offered then "no tool " + RunCommand.Name() else "no sandbox";
    Joined("no tool ", RunCommand.Name());
    Joined("Error: ", why);
  }

  // run_command refused, because it is not offered or there is no sandbox, never reads as a pass.
  lemma RefusedCheckIsNoPass(env: Env, t: Tools, args: string)
    requires !Runs(env)
    ensures var (after, answer) := Invoked(env, t, Call(RunCommand, args));
      && answer.Some? && !CheckPassed(answer.value) && after.executions == t.executions
      && after.space == t.space && after.tickets == t.tickets && after.merges == t.merges
  {
    var call := Call(RunCommand, args);
    RefusalIsPlain(env, t, args);
    assert OneLine(RunCommand.Name());
    NotedIsNoPass(env, t.(clock := t.clock + 1), call, Attempted(env, t, call).1.value);
  }

  /** Whatever run_command answers, it reads as a pass exactly when the command ran and exited 0. */
  lemma PassIsAGreenExecution(env: Env, t: Tools, args: string)
    requires Unambiguous(env.check)
    ensures var (after, answer) := Invoked(env, t, Call(RunCommand, args));
      && after.space == t.space && after.tickets == t.tickets && after.merges == t.merges
      && (answer == None || !Runs(env) ==> after.executions == t.executions)
      && (answer.Some? && Runs(env) ==> |after.executions| == |t.executions| + 1 && exists code ::
            && after.executions == t.executions + [Execution(t.space.files, code)]
            && (CheckPassed(answer.value) <==> code == 0))
      && (answer.Some? && !Runs(env) ==> !CheckPassed(answer.value))
  {
    if !Runs(env) {
      RefusedCheckIsNoPass(env, t, args);
    } else {
      ExecutionIsRecorded(env, t, args);
      match env.sandbox(t.clock, t.space.files)
      case None =>
      case Some(r) =>
        var text := Invoked(env, t, Call(RunCommand, args)).1.value;
        var more := text[|Render(env.check, r)|..];
        assert text == Render(env.check, r) + more;
        VerdictOfRendering(env.check, r, more);
        ExitLineSaysItsCode(r.code);
        assert CheckPassed(text) <==> r.code == 0;
    }
  }

  // ----- The loop -----

  /** What carries from one tool call to the next; `wrote` and `ranCheck` are of the current turn. */
  datatype Progress = Progress(
    tools: Tools, idle: nat, produced: nat, wrote: bool, ranCheck: bool, lastCheck: string)

  predicate Progressed(tool: Tool, result: string) {
    match tool
    case WriteFile => !Refused(result)
    case UndoEdit => !Refused(result)
    case FileTicket => !Refused(result)
    case MergeFix => !Refused(result)
    case RunCommand => true
    case Other(_) => false
  }

  function Counted(p: Progress, tool: Tool, result: string): Progress {
    if !Progressed(tool, result) then p
    else
      var q := p.(idle := 0);
      if tool.WriteFile? || tool.FileTicket? || tool.MergeFix? then q.(wrote := true, produced := p.produced + 1)
      else if tool.UndoEdit? then q.(wrote := true, produced := if p.produced > 0 then p.produced - 1 else 0)
      else q
  }

  datatype Step = Going(at: Progress) | Finished(at: Progress) | Unreachable(at: Progress)

  function Handle(env: Env, p: Progress, call: Call): Step {
    var (after, answer) := Invoked(env, p.tools, call);
    if answer == None then Unreachable(p.(tools := after))
    else Judged(Counted(p.(tools := after), call.tool, answer.value), call.tool, answer.value)
  }

  function Judged(p: Progress, tool: Tool, result: string): Step {
    if tool.RunCommand? then
      var q := p.(ranCheck := true, lastCheck := result);
      if CheckPassed(result) then Finished(q) else Going(q)
    else if tool.MergeFix? && !Refused(result) then Finished(p)
    else Going(p)
  }

  function HandleAll(env: Env, p: Progress, calls: seq<Call>): Step
    decreases |calls|
  {
    if calls == [] then Going(p)
    else
      var s := Handle(env, p, calls[0]);
      if s.Going? then HandleAll(env, s.at, calls[1..]) else s
  }

  const AUTO := Call(RunCommand, "{}")

  predicate OwesACheck(env: Env, p: Progress) {
    p.wrote && !p.ranCheck && env.check != "" && RunCommand in env.offered
  }

  function AutoCheck(env: Env, p: Progress): Step {
    if !OwesACheck(env, p) then Going(p)
    else
      var (after, answer) := Invoked(env, p.tools, AUTO);
      if answer == None then Unreachable(p.(tools := after))
      else
        var q := p.(tools := after, lastCheck := answer.value);
        if CheckPassed(answer.value) then Finished(q) else Going(q)
  }

  datatype Turned = Next(at: Progress) | Passed(at: Progress) | Stalled(at: Progress) | Failed(at: Progress)

  // A prose answer ends a stage that has nothing else outstanding.
  predicate Answers(env: Env, p: Progress, reply: Reply) {
    && reply.calls == [] && env.check == "" && !reply.truncated
    && !(WriteFile in env.offered && p.produced == 0)
  }

  function Turn(env: Env, p: Progress, reply: Reply): Turned {
    var blank := p.(wrote := false, ranCheck := false);
    if Answers(env, blank, reply) then Passed(blank)
    else
      match HandleAll(env, blank, reply.calls)
      case Unreachable(q) => Failed(q)
      case Finished(q) => Passed(q)
      case Going(q) =>
        match AutoCheck(env, q)
        case Unreachable(r) => Failed(r)
        case Finished(r) => Passed(r)
        case Going(r) => Idled(r)
  }

  function Idled(p: Progress): Turned {
    var q := p.(idle := p.idle + 1);
    if q.idle >= MAX_IDLE_TURNS then Stalled(q) else Next(q)
  }

  /** How a stage ended: `failed` is an error, of the model or of a tool. */
  datatype Outcome = Outcome(at: Progress, iterations: nat, passed: bool, stalled: bool, failed: bool, answer: string)

  predicate DeliveredUnchecked(env: Env, p: Progress) {
    env.check == "" && p.produced > 0
  }

  function Turns(env: Env, chat: nat -> Option<Reply>, max: nat, i: nat, p: Progress): Outcome
    requires i <= max
    decreases max - i
  {
    if i == max then Outcome(p, i, DeliveredUnchecked(env, p), false, false, "")
    else if chat(i) == None then Outcome(p, i + 1, false, false, true, "")
    else
      var t := Turn(env, p, chat(i).value);
      if t.Next? then Turns(env, chat, max, i + 1, t.at) else EndOf(env, i, chat(i).value, t)
  }

  // How a turn that ends the stage ends it.
  function EndOf(env: Env, i: nat, reply: Reply, t: Turned): Outcome
    requires !t.Next?
  {
    match t
    case Passed(q) => Outcome(q, i + 1, true, false, false, if reply.calls == [] then reply.content else "")
    case Stalled(q) => Outcome(q, i + 1, DeliveredUnchecked(env, q), true, false, "")
    case Failed(q) => Outcome(q, i + 1, false, false, true, "")
  }

  // A new agent owns a new workspace and a new set of tools.
  function Started(files: map<string, string>): Progress {
    Progress(Tools(Opened(files), "", 0, 0, [], 0, 0), 0, 0, false, false, "")
  }

  function RunOf(env: Env, chat: nat -> Option<Reply>, max: nat, files: map<string, string>): Outcome {
    Turns(env, chat, max, 0, Started(files))
  }

  // ----- The loop and the workspace count the same thing -----

  // Also: an edit that can be undone has been counted.
  ghost predicate Agrees(p: Progress) {
    && p.produced == p.tools.space.writes + p.tools.tickets + p.tools.merges
    && (p.tools.space.last != None ==> p.tools.space.writes > 0)
  }

  /** Wherever the two counts agree, an undo that succeeds has a delivery to take back: the clamp never fires. */
  lemma UndoTakesBackADelivery(env: Env, p: Progress, args: string)
    requires Agrees(p)
    ensures var answer := Invoked(env, p.tools, Call(Tool.UndoEdit, args)).1;
      answer.Some? && !Refused(answer.value) ==> p.produced > 0
  {
    AcceptanceIsInTheText(env, p.tools, Call(Tool.UndoEdit, args));
  }

  lemma CheckDeliversNothing(env: Env, t: Tools, args: string)
    ensures var after := Invoked(env, t, Call(RunCommand, args)).0;
      after.space == t.space && after.tickets == t.tickets && after.merges == t.merges
  {}

  lemma DeliveryAgrees(env: Env, p: Progress, call: Call)
    requires Agrees(p) && !call.tool.Other? && !call.tool.RunCommand?
    ensures Agrees(Handle(env, p, call).at)
  {
    AcceptanceIsInTheText(env, p.tools, call);
  }

  lemma HandleAgrees(env: Env, p: Progress, call: Call)
    requires Agrees(p)
    ensures Agrees(Handle(env, p, call).at)
  {
    match call.tool
    case RunCommand => CheckDeliversNothing(env, p.tools, call.args);
    case Other(_) => OthersDeliverNothing(env, p.tools, call);
    case _ => DeliveryAgrees(env, p, call);
  }

  lemma {:induction false} CallsAgree(env: Env, p: Progress, calls: seq<Call>)
    requires Agrees(p)
    ensures Agrees(HandleAll(env, p, calls).at)
    decreases |calls|
  {
    if calls != [] {
      HandleAgrees(env, p, calls[0]);
      var s := Handle(env, p, calls[0]);
      if s.Going? { CallsAgree(env, s.at, calls[1..]); }
    }
  }

  lemma AutoCheckAgrees(env: Env, p: Progress)
    requires Agrees(p)
    ensures Agrees(AutoCheck(env, p).at)
  {
    CheckDeliversNothing(env, p.tools, "{}");
  }

  lemma TurnAgrees(env: Env, p: Progress, reply: Reply)
    requires Agrees(p)
    ensures Agrees(Turn(env, p, reply).at)
  {
    var blank := p.(wrote := false, ranCheck := false);
    CallsAgree(env, blank, reply.calls);
    AutoCheckAgrees(env, HandleAll(env, blank, reply.calls).at);
  }

  lemma {:induction false} TurnsAgree(env: Env, chat: nat -> Option<Reply>, max: nat, i: nat, p: Progress)
    requires i <= max && Agrees(p)
    ensures Agrees(Turns(env, chat, max, i, p).at)
    decreases max - i
  {
    if i < max && chat(i).Some? {
      TurnAgrees(env, p, chat(i).value);
      var t := Turn(env, p, chat(i).value);
      if t.Next? { TurnsAgree(env, chat, max, i + 1, t.at); }
    }
  }

  /** However a run ends, the loop's count is the workspace's net writes, plus tickets, plus merges. */
  lemma LoopCountsTheDeliverables(env: Env, chat: nat -> Option<Reply>, max: nat, files: map<string, string>)
    ensures var o := RunOf(env, chat, max, files);
      o.at.produced == o.at.tools.space.writes + o.at.tools.tickets + o.at.tools.merges
  {
    TurnsAgree(env, chat, max, 0, Started(files));
  }

  // ----- What a pass means -----

  // No execution has passed.
  ghost predicate Red(executions: seq<Execution>) {
    forall i | 0 <= i < |executions| :: executions[i].code != 0
  }

  // The last execution, and only it, passed, and it ran over the tree as it stands.
  ghost predicate JustWentGreen(t: Tools) {
    var n := |t.executions|;
    n > 0 && t.executions[n - 1] == Execution(t.space.files, 0) && Red(t.executions[..n - 1])
  }

  ghost predicate WellEnded(env: Env, merges: nat, s: Step) {
    && (!s.Finished? ==> Red(s.at.tools.executions) && s.at.tools.merges == merges)
    && (s.Finished? ==>
          (JustWentGreen(s.at.tools) && CheckPassed(s.at.lastCheck) && s.at.tools.merges == merges)
          || (MergeFix in env.offered && s.at.tools.merges == merges + 1 && Red(s.at.tools.executions)))
  }

  lemma RedGrows(executions: seq<Execution>, e: Execution)
    requires Red(executions) && e.code != 0
    ensures Red(executions + [e])
  {}

  // One run of the check: it reads as a pass exactly when it went green over the tree as it stands.
  lemma CheckTurnsOut(env: Env, t: Tools, args: string)
    requires Red(t.executions) && Unambiguous(env.check)
    ensures var (after, answer) := Invoked(env, t, Call(RunCommand, args));
      && after.space == t.space && after.tickets == t.tickets && after.merges == t.merges
      && if answer.Some? && CheckPassed(answer.value) then JustWentGreen(after) else Red(after.executions)
  {
    var (after, answer) := Invoked(env, t, Call(RunCommand, args));
    PassIsAGreenExecution(env, t, args);
    if answer.Some? && Runs(env) {
      var code :| after.executions == t.executions + [Execution(t.space.files, code)]
                  && (CheckPassed(answer.value) <==> code == 0);
      if code != 0 {
        RedGrows(t.executions, Execution(t.space.files, code));
      } else {
        assert after.executions[..|t.executions|] == t.executions;
      }
    }
  }

  lemma CheckEndsWell(env: Env, p: Progress, args: string)
    requires Red(p.tools.executions) && Unambiguous(env.check)
    ensures WellEnded(env, p.tools.merges, Handle(env, p, Call(RunCommand, args)))
  {
    CheckTurnsOut(env, p.tools, args);
  }

  lemma AutoCheckEndsWell(env: Env, p: Progress)
    requires Red(p.tools.executions) && Unambiguous(env.check)
    ensures WellEnded(env, p.tools.merges, AutoCheck(env, p))
  {
    CheckTurnsOut(env, p.tools, "{}");
  }

  lemma DeliveryEndsWell(env: Env, p: Progress, call: Call)
    requires Red(p.tools.executions) && !call.tool.Other? && !call.tool.RunCommand?
    ensures WellEnded(env, p.tools.merges, Handle(env, p, call))
  {
    AcceptanceIsInTheText(env, p.tools, call);
  }

  lemma HandleEndsWell(env: Env, p: Progress, call: Call)
    requires Red(p.tools.executions) && Unambiguous(env.check)
    ensures WellEnded(env, p.tools.merges, Handle(env, p, call))
  {
    match call.tool
    case RunCommand => CheckEndsWell(env, p, call.args);
    case Other(_) => OthersDeliverNothing(env, p.tools, call);
    case _ => DeliveryEndsWell(env, p, call);
  }

  lemma {:induction false} CallsEndWell(env: Env, p: Progress, calls: seq<Call>)
    requires Red(p.tools.executions) && Unambiguous(env.check)
    ensures WellEnded(env, p.tools.merges, HandleAll(env, p, calls))
    decreases |calls|
  {
    if calls != [] {
      HandleEndsWell(env, p, calls[0]);
      var s := Handle(env, p, calls[0]);
      if s.Going? { CallsEndWell(env, s.at, calls[1..]); }
    }
  }

  // Why a stage may be reported as passed.
  ghost predicate Earned(env: Env, p: Progress) {
    || (JustWentGreen(p.tools) && CheckPassed(p.lastCheck))
    || (MergeFix in env.offered && p.tools.merges > 0)
    || (env.check == "" && (WriteFile in env.offered ==> p.produced > 0))
  }

  lemma TurnEndsWell(env: Env, p: Progress, reply: Reply)
    requires Red(p.tools.executions) && Unambiguous(env.check)
    ensures var t := Turn(env, p, reply);
      if t.Passed? then Earned(env, t.at) else Red(t.at.tools.executions)
  {
    var blank := p.(wrote := false, ranCheck := false);
    if !Answers(env, blank, reply) {
      CallsEndWell(env, blank, reply.calls);
      var s := HandleAll(env, blank, reply.calls);
      if s.Going? { AutoCheckEndsWell(env, s.at); }
    }
  }

  ghost predicate Sound(env: Env, max: nat, o: Outcome) {
    && o.iterations <= max
    && (o.passed ==> !o.failed && Earned(env, o.at))
    && (!o.passed ==> Red(o.at.tools.executions))
    && (!o.passed && !o.failed ==>
          (o.stalled || o.iterations == max) && (env.check == "" ==> o.at.produced == 0))
  }

  // One turn's end is carried over to the run's, when the run ends there.
  lemma LastTurnIsSound(env: Env, chat: nat -> Option<Reply>, max: nat, i: nat, p: Progress)
    requires i < max && Red(p.tools.executions) && Unambiguous(env.check) && chat(i).Some?
    requires !Turn(env, p, chat(i).value).Next?
    ensures Sound(env, max, Turns(env, chat, max, i, p))
  {
    TurnEndsWell(env, p, chat(i).value);
  }

  lemma {:induction false} TurnsEndWell(env: Env, chat: nat -> Option<Reply>, max: nat, i: nat, p: Progress)
    requires i <= max && Red(p.tools.executions) && Unambiguous(env.check)
    ensures Sound(env, max, Turns(env, chat, max, i, p))
    decreases max - i
  {
    if i < max && chat(i).Some? {
      var t := Turn(env, p, chat(i).value);
      if t.Next? {
        TurnEndsWell(env, p, chat(i).value);
        TurnsEndWell(env, chat, max, i + 1, t.at);
      } else {
        LastTurnIsSound(env, chat, max, i, p);
      }
    }
  }

  /**
   "Passed" means this tree passed: a stage with a check and no merge passes only right after its
   check exited 0 over exactly the files it leaves behind, and never before; what it reports as its
   last check is then that passing output.
   */
  lemma PassedMeansThisTreePassed(env: Env, chat: nat -> Option<Reply>, max: nat, files: map<string, string>)
    requires env.check != "" && Unambiguous(env.check) && MergeFix !in env.offered
    ensures var o := RunOf(env, chat, max, files);
      if o.passed then JustWentGreen(o.at.tools) && CheckPassed(o.at.lastCheck) else Red(o.at.tools.executions)
  {
    TurnsEndWell(env, chat, max, 0, Started(files));
  }

  /** The same for every check that is one line, as those of the repository are. */
  lemma OneLineCheckPassedMeansThisTreePassed(env: Env, chat: nat -> Option<Reply>, max: nat,
                                              files: map<string, string>)
    requires env.check != "" && OneLine(env.check) && MergeFix !in env.offered
    ensures var o := RunOf(env, chat, max, files);
      if o.passed then JustWentGreen(o.at.tools) && CheckPassed(o.at.lastCheck) else Red(o.at.tools.executions)
  {
    OneLineChecksAreUnambiguous(env.check);
    PassedMeansThisTreePassed(env, chat, max, files);
  }

  /**
   A checkless stage that may write passes only with a net deliverable, a green run of its command,
   or a merge; and one that neither passed nor failed has no net deliverable at all.
   */
  lemma ChecklessStageIsJudgedByItsDeliverables(env: Env, chat: nat -> Option<Reply>, max: nat,
                                                files: map<string, string>)
    requires env.check == "" && WriteFile in env.offered
    ensures var o := RunOf(env, chat, max, files);
      var net: int := o.at.tools.space.writes + o.at.tools.tickets + o.at.tools.merges;
      && (o.passed ==> net > 0 || JustWentGreen(o.at.tools))
      && (!o.passed && !o.failed ==> net == 0 && (o.stalled || o.iterations == max))
  {
    TurnsAgree(env, chat, max, 0, Started(files));
    TurnsEndWell(env, chat, max, 0, Started(files));
  }

  ghost predicate FinalWords(env: Env, chat: nat -> Option<Reply>, i: nat, o: Outcome) {
    && o.passed && env.check == "" && i < o.iterations && chat(o.iterations - 1).Some?
    && var last := chat(o.iterations - 1).value;
       last.calls == [] && !last.truncated && last.content == o.answer
  }

  lemma LastTurnAnswers(env: Env, chat: nat -> Option<Reply>, max: nat, i: nat, p: Progress)
    requires i < max && chat(i).Some? && !Turn(env, p, chat(i).value).Next?
    requires Turns(env, chat, max, i, p).answer != ""
    ensures FinalWords(env, chat, i, Turns(env, chat, max, i, p))
  {
    SilentTurnsOnlyAnswer(env, p, chat(i).value);
  }

  /**
   An answer is reported only by a stage without a check, and it is what the model said, whole, in the
   last turn, in which it called no tool.
   */
  lemma {:induction false} AnswersAreFinalWords(env: Env, chat: nat -> Option<Reply>, max: nat, i: nat, p: Progress)
    requires i <= max && Turns(env, chat, max, i, p).answer != ""
    ensures FinalWords(env, chat, i, Turns(env, chat, max, i, p))
    decreases max - i
  {
    if Turn(env, p, chat(i).value).Next? {
      AnswersAreFinalWords(env, chat, max, i + 1, Turn(env, p, chat(i).value).at);
    } else {
      LastTurnAnswers(env, chat, max, i, p);
    }
  }

  // A turn without calls ends a stage as passed only by answering.
  lemma SilentTurnsOnlyAnswer(env: Env, p: Progress, reply: Reply)
    ensures reply.calls == [] && Turn(env, p, reply).Passed? ==> env.check == "" && !reply.truncated
  {}

  // ----- The loop stops -----

  // Whether some call of the turn moved the stage forward.
  predicate Moves(env: Env, p: Progress, calls: seq<Call>)
    decreases |calls|
  {
    if calls == [] then false
    else
      var answer := Invoked(env, p.tools, calls[0]).1;
      var s := Handle(env, p, calls[0]);
      || (answer.Some? && Progressed(calls[0].tool, answer.value))
      || (s.Going? && Moves(env, s.at, calls[1..]))
  }

  // For each turn of a run, whether it moved.
  function Log(env: Env, chat: nat -> Option<Reply>, max: nat, i: nat, p: Progress): seq<bool>
    requires i <= max
    decreases max - i
  {
    if i == max || chat(i) == None then []
    else
      var moved := Moves(env, p.(wrote := false, ranCheck := false), chat(i).value.calls);
      var t := Turn(env, p, chat(i).value);
      [moved] + if t.Next? then Log(env, chat, max, i + 1, t.at) else []
  }

  function LeadingIdle(log: seq<bool>): nat {
    if log == [] || log[0] then 0 else 1 + LeadingIdle(log[1..])
  }

  ghost predicate NoLongIdle(log: seq<bool>) {
    forall k | 0 <= k <= |log| :: LeadingIdle(log[k..]) <= MAX_IDLE_TURNS
  }

  lemma {:induction false} IdleIsSinceTheLastMove(env: Env, p: Progress, calls: seq<Call>)
    ensures var s := HandleAll(env, p, calls);
      s.at.idle == if Moves(env, p, calls) then 0 else p.idle
    decreases |calls|
  {
    if calls != [] {
      var s := Handle(env, p, calls[0]);
      if s.Going? { IdleIsSinceTheLastMove(env, s.at, calls[1..]); }
    }
  }

  lemma TurnCountsIdleness(env: Env, p: Progress, reply: Reply)
    ensures var t := Turn(env, p, reply);
      var moved := Moves(env, p.(wrote := false, ranCheck := false), reply.calls);
      && (t.Next? ==> t.at.idle == (if moved then 1 else p.idle + 1) && t.at.idle < MAX_IDLE_TURNS)
      && (t.Stalled? ==> t.at.idle == (if moved then 1 else p.idle + 1) && t.at.idle >= MAX_IDLE_TURNS)
  {
    IdleIsSinceTheLastMove(env, p.(wrote := false, ranCheck := false), reply.calls);
  }

  lemma OneMoreTurn(moved: bool, rest: seq<bool>)
    requires NoLongIdle(rest)
    ensures var log := [moved] + rest;
      && LeadingIdle(log) == (if moved then 0 else 1 + LeadingIdle(rest))
      && (LeadingIdle(log) <= MAX_IDLE_TURNS ==> NoLongIdle(log))
  {
    var log := [moved] + rest;
    assert log[1..] == rest && log[0..] == log;
    forall k | 0 < k <= |log| ensures log[k..] == rest[k - 1..] {}
  }

  // The idle count before a turn, given the count after it and the turns that follow.
  lemma IdleSum(idle: nat, moved: bool, rest: seq<bool>)
    requires idle < MAX_IDLE_TURNS && NoLongIdle(rest)
    requires (if moved then 1 else idle + 1) + LeadingIdle(rest) <= MAX_IDLE_TURNS
    ensures var log := [moved] + rest;
      |log| == 1 + |rest| && idle + LeadingIdle(log) <= MAX_IDLE_TURNS && NoLongIdle(log)
  {
    OneMoreTurn(moved, rest);
  }

  lemma {:induction false} IdlenessIsBounded(env: Env, chat: nat -> Option<Reply>, max: nat, i: nat, p: Progress)
    requires i <= max && p.idle < MAX_IDLE_TURNS
    ensures var log := Log(env, chat, max, i, p);
      && |log| <= max - i && p.idle + LeadingIdle(log) <= MAX_IDLE_TURNS && NoLongIdle(log)
    decreases max - i
  {
    if i < max && chat(i).Some? {
      TurnCountsIdleness(env, p, chat(i).value);
      var moved := Moves(env, p.(wrote := false, ranCheck := false), chat(i).value.calls);
      var t := Turn(env, p, chat(i).value);
      if t.Next? {
        IdlenessIsBounded(env, chat, max, i + 1, t.at);
        IdleSum(p.idle, moved, Log(env, chat, max, i + 1, t.at));
      } else {
        IdleSum(p.idle, moved, []);
      }
    }
  }

  /** At most `max` turns are taken, and no more than fifteen in a row move nothing. */
  lemma TheLoopStops(env: Env, chat: nat -> Option<Reply>, max: nat, files: map<string, string>)
    ensures var log := Log(env, chat, max, 0, Started(files));
      |log| <= max && NoLongIdle(log)
  {
    IdlenessIsBounded(env, chat, max, 0, Started(files));
  }

  function TrailingIdle(log: seq<bool>): nat {
    if log == [] || log[|log| - 1] then 0 else 1 + TrailingIdle(log[..|log| - 1])
  }

  lemma {:induction false} TrailingOfCons(moved: bool, rest: seq<bool>)
    ensures TrailingIdle(rest) <= |rest|
    ensures TrailingIdle([moved] + rest) ==
            if TrailingIdle(rest) == |rest| && !moved then |rest| + 1 else TrailingIdle(rest)
  {
    var log := [moved] + rest;
    if rest == [] {
      assert log == [moved] && log[..0] == [];
    } else {
      TrailingOfCons(moved, rest[..|rest| - 1]);
      assert log[..|log| - 1] == [moved] + rest[..|rest| - 1];
    }
  }

  lemma {:induction false} StallFollowsIdleness(env: Env, chat: nat -> Option<Reply>, max: nat, i: nat, p: Progress)
    requires i <= max && p.idle < MAX_IDLE_TURNS && Turns(env, chat, max, i, p).stalled
    ensures var log := Log(env, chat, max, i, p);
      || (TrailingIdle(log) == |log| && p.idle + |log| == MAX_IDLE_TURNS)
      || (TrailingIdle(log) == MAX_IDLE_TURNS - 1 && |log| > MAX_IDLE_TURNS - 1)
    decreases max - i
  {
    TurnCountsIdleness(env, p, chat(i).value);
    var log := Log(env, chat, max, i, p);
    var t := Turn(env, p, chat(i).value);
    TrailingOfCons(log[0], log[1..]);
    assert log == [log[0]] + log[1..];
    if t.Next? {
      StallFollowsIdleness(env, chat, max, i + 1, t.at);
      assert log[1..] == Log(env, chat, max, i + 1, t.at);
    } else {
      assert log[1..] == [];
    }
  }

  /** A stage is stopped for looping only when its last fourteen turns moved nothing. */
  lemma StalledMeansNothingMoved(env: Env, chat: nat -> Option<Reply>, max: nat, files: map<string, string>)
    requires RunOf(env, chat, max, files).stalled
    ensures TrailingIdle(Log(env, chat, max, 0, Started(files))) >= MAX_IDLE_TURNS - 1
  {
    StallFollowsIdleness(env, chat, max, 0, Started(files));
  }

  // ----- The agent itself -----

  // The loop's own variables.
  datatype Counters = Counters(idle: nat, produced: nat, wrote: bool, ranCheck: bool, lastCheck: string)

  datatype Report = Report(
    passed: bool, stalled: bool, failed: bool, iterations: nat, answer: string, lastCheck: string)

  datatype Signal = GoOn | Finish | Abort

  function At(t: Tools, c: Counters): Progress {
    Progress(t, c.idle, c.produced, c.wrote, c.ranCheck, c.lastCheck)
  }

  function Signalled(s: Signal, p: Progress): Step {
    match s
    case GoOn => Going(p)
    case Finish => Finished(p)
    case Abort => Unreachable(p)
  }

  function ReportOf(o: Outcome): Report {
    Report(o.passed, o.stalled, o.failed, o.iterations, o.answer, o.at.lastCheck)
  }

  class Agent {
    const tools: ToolSet
    const chat: nat -> Option<Reply>
    const maxIterations: nat

    constructor (tools: ToolSet, chat: nat -> Option<Reply>, maxIterations: nat)
      ensures this.tools == tools && this.chat == chat && this.maxIterations == maxIterations
    {
      this.tools, this.chat, this.maxIterations := tools, chat, maxIterations;
    }

    method Count(ghost t: Tools, c: Counters, tool: Tool, result: string) returns (c': Counters)
      ensures At(t, c') == Counted(At(t, c), tool, result)
    {
      c' := c;
      if Progressed(tool, result) {
        c' := c'.(idle := 0);
        match tool {
          case WriteFile | FileTicket | MergeFix =>
            c' := c'.(wrote := true, produced := c'.produced + 1);
          case UndoEdit =>
            c' := c'.(wrote := true, produced := if c'.produced > 0 then c'.produced - 1 else 0);
          case _ =>
        }
      }
    }

    method HandleCall(c: Counters, call: Call) returns (c': Counters, signal: Signal)
      requires tools.Valid()
      modifies tools, tools.workspace
      ensures tools.Valid()
      ensures Signalled(signal, At(tools.View(), c')) == Handle(tools.env, At(old(tools.View()), c), call)
    {
      var answer := tools.Invoke(call);
      if answer == None { return c, Abort; }
      var result := answer.value;
      c' := Count(tools.View(), c, call.tool, result);
      if call.tool.RunCommand? {
        c' := c'.(ranCheck := true, lastCheck := result);
        var green := ScanVerdict(result);
        return c', if green then Finish else GoOn;
      }
      return c', if call.tool.MergeFix? && !Refused(result) then Finish else GoOn;
    }

    method HandleCalls(c: Counters, calls: seq<Call>) returns (c': Counters, signal: Signal)
      requires tools.Valid()
      modifies tools, tools.workspace
      ensures tools.Valid()
      ensures Signalled(signal, At(tools.View(), c')) == HandleAll(tools.env, At(old(tools.View()), c), calls)
    {
      c', signal := c, GoOn;
      for i := 0 to |calls|
        invariant tools.Valid() && signal == GoOn
        invariant HandleAll(tools.env, At(old(tools.View()), c), calls)
               == HandleAll(tools.env, At(tools.View(), c'), calls[i..])
      {
        assert calls[i..][0] == calls[i] && calls[i..][1..] == calls[i + 1..];
        c', signal := HandleCall(c', calls[i]);
        if signal != GoOn { return; }
      }
    }

    method CheckByItself(c: Counters) returns (c': Counters, signal: Signal)
      requires tools.Valid()
      modifies tools, tools.workspace
      ensures tools.Valid()
      ensures Signalled(signal, At(tools.View(), c')) == AutoCheck(tools.env, At(old(tools.View()), c))
    {
      c' := c;
      if !(c.wrote && !c.ranCheck && tools.env.check != "" && RunCommand in tools.env.offered) { return c', GoOn; }
      var answer := tools.Invoke(AUTO);
      if answer == None { return c', Abort; }
      c' := c'.(lastCheck := answer.value);
      var green := ScanVerdict(answer.value);
      return c', if green then Finish else GoOn;
    }

    // What a turn leaves for the idle bound to judge, or how it ended the stage.
    method TakeTurn(c: Counters, reply: Reply) returns (c': Counters, signal: Signal)
      requires tools.Valid()
      modifies tools, tools.workspace
      ensures tools.Valid()
      ensures Turn(tools.env, At(old(tools.View()), c), reply) ==
              match signal
              case GoOn => Idled(At(tools.View(), c'))
              case Finish => Passed(At(tools.View(), c'))
              case Abort => Failed(At(tools.View(), c'))
    {
      c' := c.(wrote := false, ranCheck := false);
      if reply.calls == [] && tools.env.check == "" && !reply.truncated
         && !(WriteFile in tools.env.offered && c'.produced == 0) {
        return c', Finish;
      }
      c', signal := HandleCalls(c', reply.calls);
      if signal == GoOn { c', signal := CheckByItself(c'); }
    }

    ghost function Fresh(): Progress
      reads tools, tools.workspace
    {
      At(tools.View(), Counters(0, 0, false, false, ""))
    }

    // One turn with its exits: None when the loop goes on.
    method OneTurn(c: Counters, i: nat) returns (c': Counters, done: Option<Report>)
      requires tools.Valid() && i < maxIterations
      modifies tools, tools.workspace
      ensures tools.Valid()
      ensures var o := Turns(tools.env, chat, maxIterations, i, At(old(tools.View()), c));
        match done
        case None => o == Turns(tools.env, chat, maxIterations, i + 1, At(tools.View(), c'))
        case Some(out) => out == ReportOf(o) && tools.View() == o.at.tools
    {
      var said := chat(i);
      if said == None { return c, Some(Report(false, false, true, i + 1, "", c.lastCheck)); }
      var signal;
      c', signal := TakeTurn(c, said.value);
      match signal {
        case Abort => return c', Some(Report(false, false, true, i + 1, "", c'.lastCheck));
        case Finish =>
          var answer := if said.value.calls == [] then said.value.content else "";
          return c', Some(Report(true, false, false, i + 1, answer, c'.lastCheck));
        case GoOn =>
      }
      c' := c'.(idle := c'.idle + 1);
      if c'.idle < MAX_IDLE_TURNS { return c', None; }
      return c', Some(Report(tools.env.check == "" && c'.produced > 0, true, false, i + 1, "", c'.lastCheck));
    }

    method Run() returns (out: Report)
      requires tools.Valid()
      modifies tools, tools.workspace
      ensures var o := Turns(tools.env, chat, maxIterations, 0, old(Fresh()));
        tools.Valid() && out == ReportOf(o) && tools.View() == o.at.tools
    {
      var c := Counters(0, 0, false, false, "");
      for i := 0 to maxIterations
        invariant tools.Valid()
        invariant Turns(tools.env, chat, maxIterations, 0, old(Fresh()))
               == Turns(tools.env, chat, maxIterations, i, At(tools.View(), c))
      {
        var done;
        c, done := OneTurn(c, i);
        if done.Some? { return done.value; }
      }
      return Report(tools.env.check == "" && c.produced > 0, false, false, maxIterations, "", c.lastCheck);
    }
  }
}
