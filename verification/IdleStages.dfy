/**
 What one tool call does to a stage's counters, told by tool and answer, and what becomes of a stage
 whose calls get nothing done (`Run` in `internal/agents/agent.go`).
 */
module IdleStages {
  import opened Wrappers
  import opened Workspace
  import opened Toolbox
  import opened AgentLoop

  // The answer takes the call.
  predicate Takes(answer: string) {
    !("Error:" <= answer)
  }

  /**
   One call by tool: a write, a ticket and a merge that are taken count one deliverable, an undo takes
   one back, run_command is noted with its verdict, and each of these starts the idle count again. A
   refusal, and any other tool, changes nothing but the tools. A green check and a merge end the stage.
   */
  lemma CallByTool(env: Env, p: Progress, call: Call)
    ensures var (after, answer) := Invoked(env, p.tools, call); var q := p.(tools := after);
      if answer == None then Handle(env, p, call) == Unreachable(q)
      else
        var r := answer.value;
        match call.tool
        case WriteFile => Handle(env, p, call) ==
          Going(if Takes(r) then q.(idle := 0, wrote := true, produced := p.produced + 1) else q)
        case FileTicket => Handle(env, p, call) ==
          Going(if Takes(r) then q.(idle := 0, wrote := true, produced := p.produced + 1) else q)
        case MergeFix => Handle(env, p, call) ==
          if Takes(r) then Finished(q.(idle := 0, wrote := true, produced := p.produced + 1)) else Going(q)
        case UndoEdit => Handle(env, p, call) ==
          Going(if !Takes(r) then q
                else q.(idle := 0, wrote := true, produced := if p.produced > 0 then p.produced - 1 else 0))
        case RunCommand =>
          var ran := q.(idle := 0, ranCheck := true, lastCheck := r);
          Handle(env, p, call) == if CheckPassed(r) then Finished(ran) else Going(ran)
        case Other(_) => Handle(env, p, call) == Going(q)
  {}

  // ----- A turn -----

  /** A turn that calls nothing answers the stage exactly when nothing else is wanted of it, and else idles. */
  lemma SilentTurn(env: Env, p: Progress, reply: Reply)
    requires reply.calls == []
    ensures var t := Turn(env, p, reply); var q := p.(wrote := false, ranCheck := false);
      if env.check == "" && !reply.truncated && (WriteFile !in env.offered || p.produced > 0) then t == Passed(q)
      else t == if p.idle + 1 >= 15 then Stalled(q.(idle := p.idle + 1)) else Next(q.(idle := p.idle + 1))
  {}

  /** What a silent turn that passed said is what the run reports. */
  lemma SilentPassIsReported(env: Env, chat: nat -> Option<Reply>, max: nat, i: nat, p: Progress)
    requires i < max && chat(i).Some? && chat(i).value.calls == [] && Turn(env, p, chat(i).value).Passed?
    ensures Turns(env, chat, max, i, p) ==
            Outcome(p.(wrote := false, ranCheck := false), i + 1, true, false, false, chat(i).value.content)
  {
    SilentTurn(env, p, chat(i).value);
  }

  /** The check runs by itself only after a turn that changed something and did not run it. */
  lemma NothingOwedNothingRun(env: Env, p: Progress, reply: Reply)
    requires HandleAll(env, p.(wrote := false, ranCheck := false), reply.calls).Going? && reply.calls != []
    requires var q := HandleAll(env, p.(wrote := false, ranCheck := false), reply.calls).at;
      !q.wrote || q.ranCheck || env.check == "" || RunCommand !in env.offered
    ensures var q := HandleAll(env, p.(wrote := false, ranCheck := false), reply.calls).at;
      Turn(env, p, reply) == if q.idle + 1 >= 15 then Stalled(q.(idle := q.idle + 1)) else Next(q.(idle := q.idle + 1))
  {}

  // ----- A run -----

  /** A stage starts with nothing done, nothing counted and nothing run. */
  lemma StartsAfresh(files: map<string, string>)
    ensures var p := Started(files);
      && p.tools.space.files == files && p.tools.space.last == None && p.tools.space.writes == 0
      && p.tools.executions == [] && p.tools.tickets == 0 && p.tools.merges == 0
      && p.tools.lastCall == "" && p.tools.repeats == 0
      && p.idle == 0 && p.produced == 0 && !p.wrote && !p.ranCheck && p.lastCheck == ""
  {}

  /** How a run goes on or ends, turn by turn, and which turn it says it ended in. */
  lemma RunByTurn(env: Env, chat: nat -> Option<Reply>, max: nat, i: nat, p: Progress)
    requires i <= max
    ensures var unchecked := env.check == "";
      if i == max then Turns(env, chat, max, i, p) == Outcome(p, max, unchecked && p.produced > 0, false, false, "")
      else if chat(i) == None then Turns(env, chat, max, i, p) == Outcome(p, i + 1, false, false, true, "")
      else
        var said := if chat(i).value.calls == [] then chat(i).value.content else "";
        match Turn(env, p, chat(i).value)
        case Next(q) => Turns(env, chat, max, i, p) == Turns(env, chat, max, i + 1, q)
        case Passed(q) => Turns(env, chat, max, i, p) == Outcome(q, i + 1, true, false, false, said)
        case Stalled(q) =>
          Turns(env, chat, max, i, p) == Outcome(q, i + 1, unchecked && q.produced > 0, true, false, "")
        case Failed(q) => Turns(env, chat, max, i, p) == Outcome(q, i + 1, false, false, true, "")
  {}

  // ----- Calls that get nothing done -----

  // Reading and listing, whatever they answer, and anything else that is refused.
  ghost predicate Useless(env: Env, t: Tools, call: Call) {
    var answer := Invoked(env, t, call).1;
    answer.Some? && !call.tool.RunCommand? && (call.tool.Other? || !Takes(answer.value))
  }

  ghost predicate AllUseless(env: Env, t: Tools, calls: seq<Call>)
    decreases |calls|
  {
    calls == [] || (Useless(env, t, calls[0]) && AllUseless(env, Invoked(env, t, calls[0]).0, calls[1..]))
  }

  ghost function Used(env: Env, t: Tools, calls: seq<Call>): Tools
    decreases |calls|
  {
    if calls == [] then t else Used(env, Invoked(env, t, calls[0]).0, calls[1..])
  }

  lemma {:induction false} UselessCallsMoveNothing(env: Env, p: Progress, calls: seq<Call>)
    requires AllUseless(env, p.tools, calls)
    ensures HandleAll(env, p, calls) == Going(p.(tools := Used(env, p.tools, calls)))
    decreases |calls|
  {
    if calls != [] {
      CallByTool(env, p, calls[0]);
      UselessCallsMoveNothing(env, p.(tools := Invoked(env, p.tools, calls[0]).0), calls[1..]);
    }
  }

  // A stage that still owes a green check, or a file.
  predicate Owes(env: Env) {
    env.check != "" || WriteFile in env.offered
  }

  // The progress after a turn that got nothing done.
  ghost function Idled(env: Env, p: Progress, calls: seq<Call>): Progress {
    p.(tools := Used(env, p.tools, calls), wrote := false, ranCheck := false, idle := p.idle + 1)
  }

  lemma UselessTurnIdles(env: Env, p: Progress, reply: Reply)
    requires AllUseless(env, p.tools, reply.calls) && Owes(env) && p.produced == 0
    ensures var q := Idled(env, p, reply.calls);
      Turn(env, p, reply) == if q.idle >= 15 then Stalled(q) else Next(q)
  {
    UselessCallsMoveNothing(env, p.(wrote := false, ranCheck := false), reply.calls);
    if reply.calls == [] { SilentTurn(env, p, reply); } else { NothingOwedNothingRun(env, p, reply); }
  }

  // How a run goes on after such a turn.
  lemma UselessTurnGoesOn(env: Env, chat: nat -> Option<Reply>, max: nat, i: nat, p: Progress, q: Progress)
    requires i < max && chat(i).Some? && AllUseless(env, p.tools, chat(i).value.calls) && Owes(env) && p.produced == 0
    requires q == Idled(env, p, chat(i).value.calls)
    ensures Turns(env, chat, max, i, p) ==
            if q.idle >= 15 then Outcome(q, i + 1, false, true, false, "") else Turns(env, chat, max, i + 1, q)
  {
    UselessTurnIdles(env, p, chat(i).value);
  }

  // The turns get nothing done; `at` are the tools before each of them, and after the last.
  ghost predicate UselessTurns(env: Env, chat: nat -> Option<Reply>, at: seq<Tools>) {
    at != [] && forall i: nat | i + 1 < |at| ::
      chat(i).Some? && AllUseless(env, at[i], chat(i).value.calls) && at[i + 1] == Used(env, at[i], chat(i).value.calls)
  }

  lemma OneUselessTurn(env: Env, chat: nat -> Option<Reply>, max: nat, i: nat, p: Progress, at: seq<Tools>)
    returns (q: Progress)
    requires UselessTurns(env, chat, at) && i + 1 < |at| && i < max && p.tools == at[i]
    requires Owes(env) && p.produced == 0
    ensures q.idle == p.idle + 1 && q.produced == 0 && q.tools == at[i + 1]
    ensures Turns(env, chat, max, i, p) ==
            if q.idle >= 15 then Outcome(q, i + 1, false, true, false, "") else Turns(env, chat, max, i + 1, q)
  {
    q := Idled(env, p, chat(i).value.calls);
    UselessTurnGoesOn(env, chat, max, i, p, q);
  }

  lemma {:induction false} UselessTurnsStall(env: Env, chat: nat -> Option<Reply>, max: nat, i: nat, p: Progress,
                                             at: seq<Tools>)
    returns (end: Progress)
    requires UselessTurns(env, chat, at) && |at| == 16 && i < 15 <= max && p.tools == at[i]
    requires p.idle == i && p.produced == 0 && Owes(env)
    ensures end.produced == 0 && Turns(env, chat, max, i, p) == Outcome(end, 15, false, true, false, "")
    decreases 15 - i
  {
    end := OneUselessTurn(env, chat, max, i, p, at);
    if i < 14 { end := UselessTurnsStall(env, chat, max, i + 1, end, at); }
  }

  /**
   A stage that owes a check or a file and whose first fifteen turns are all refusals, readings and
   listings is stopped for looping after the fifteenth, with nothing delivered.
   */
  lemma UselessStageStalls(env: Env, chat: nat -> Option<Reply>, max: nat, files: map<string, string>, at: seq<Tools>)
    requires max >= 15 && Owes(env)
    requires UselessTurns(env, chat, at) && |at| == 16 && at[0] == Started(files).tools
    ensures var o := RunOf(env, chat, max, files);
      o.stalled && !o.passed && !o.failed && o.iterations == 15 && o.at.produced == 0
  {
    var _ := UselessTurnsStall(env, chat, max, 0, Started(files), at);
  }

  lemma {:induction false} ReadingIsUseless(env: Env, t: Tools, calls: seq<Call>)
    requires forall c | c in calls :: c.tool.Other?
    requires forall clock: nat, c: Call :: env.others(clock, c).Some?
    ensures AllUseless(env, t, calls)
    decreases |calls|
  {
    if calls != [] {
      assert calls[0] in calls && forall c | c in calls[1..] :: c in calls;
      ReadingIsUseless(env, Invoked(env, t, calls[0]).0, calls[1..]);
    }
  }

  lemma {:induction false} ReadingTurnsAreUseless(env: Env, chat: nat -> Option<Reply>, n: nat, t: Tools)
    returns (at: seq<Tools>)
    requires forall j: nat | j < n :: chat(j).Some? && forall c | c in chat(j).value.calls :: c.tool.Other?
    requires forall clock: nat, c: Call :: env.others(clock, c).Some?
    ensures UselessTurns(env, chat, at) && |at| == n + 1 && at[0] == t
  {
    if n == 0 {
      at := [t];
    } else {
      var before := ReadingTurnsAreUseless(env, chat, n - 1, t);
      ReadingIsUseless(env, before[n - 1], chat(n - 1).value.calls);
      at := before + [Used(env, before[n - 1], chat(n - 1).value.calls)];
    }
  }

  /** In particular a stage that only reads and lists. */
  lemma ReadingStageStalls(env: Env, chat: nat -> Option<Reply>, max: nat, files: map<string, string>)
    requires max >= 15 && Owes(env) && forall clock: nat, c: Call :: env.others(clock, c).Some?
    requires forall j: nat | j < 15 :: chat(j).Some? && forall c | c in chat(j).value.calls :: c.tool.Other?
    ensures RunOf(env, chat, max, files).stalled && RunOf(env, chat, max, files).iterations == 15
  {
    var at := ReadingTurnsAreUseless(env, chat, 15, Started(files).tools);
    UselessStageStalls(env, chat, max, files, at);
  }
}
