/**
 When a restarted dispatcher may take a ticket for its own (`Reconcile` in
 `internal/dispatch/dispatch.go`). On a ticket it listed a moment earlier it compares the host of the
 standing claim, whatever its role, and otherwise looks only at its own table of running work, which is
 empty after a restart.
 */
module Reconcile {
  import opened Wrappers
  import opened Record
  import opened Stages
  import opened ConditionalClaims

  // ----- Runs between two worlds -----

  // A run in which no reconcile takes anything over, and handlers place tickets only if `placing`.
  ghost predicate Quiet(w: World, steps: seq<Step>, placing: bool)
    decreases |steps|
  {
    steps == [] ||
    (&& Enabled(w, steps[0]) && !TakesOver(w, steps[0]) && (placing || !steps[0].Place?)
     && Quiet(Apply(w, steps[0]), steps[1..], placing))
  }

  ghost predicate Reaches(w: World, t: World, placing: bool) {
    exists steps :: Quiet(w, steps, placing) && Run(w, steps) == t
  }

  // A run in which every reconcile checks its own host's dispatchers.
  ghost predicate Leads(w: World, t: World) {
    exists steps :: Checked(w, steps) && Run(w, steps) == t
  }

  lemma StartsHere(w: World, placing: bool)
    ensures Reaches(w, w, placing)
  {
    assert Quiet(w, [], placing) && Run(w, []) == w;
  }

  lemma {:induction false} QuietThenStep(w: World, steps: seq<Step>, s: Step, placing: bool)
    requires Quiet(w, steps, placing) && Enabled(Run(w, steps), s) && !TakesOver(Run(w, steps), s)
    requires placing || !s.Place?
    ensures Quiet(w, steps + [s], placing) && Run(w, steps + [s]) == Apply(Run(w, steps), s)
    decreases |steps|
  {
    if steps == [] {
      assert [] + [s] == [s] && [s][1..] == [];
    } else {
      assert (steps + [s])[1..] == steps[1..] + [s];
      QuietThenStep(Apply(w, steps[0]), steps[1..], s, placing);
    }
  }

  lemma StepReaches(w: World, v: World, s: Step, placing: bool)
    requires Reaches(w, v, placing) && Enabled(v, s) && !TakesOver(v, s) && (placing || !s.Place?)
    ensures Reaches(w, Apply(v, s), placing)
  {
    var steps :| Quiet(w, steps, placing) && Run(w, steps) == v;
    QuietThenStep(w, steps, s, placing);
  }

  // Such a run checks whatever it is asked to.
  lemma {:induction false} QuietIsChecked(w: World, steps: seq<Step>)
    requires Quiet(w, steps, false)
    ensures Checked(w, steps)
    decreases |steps|
  {
    if steps != [] { QuietIsChecked(Apply(w, steps[0]), steps[1..]); }
  }

  lemma ReachesLeads(w: World, t: World)
    requires Reaches(w, t, false)
    ensures Leads(w, t)
  {
    var steps :| Quiet(w, steps, false) && Run(w, steps) == t;
    QuietIsChecked(w, steps);
  }

  function AtWork(v: World, a: Agent, id: nat): World {
    var c := ClaimOf(a, Stamp(id, id, true), "");
    World(WorkingOf(a.role), v.version + 2, v.log + [c], v.pc[a := Working(c)])
  }

  lemma ClaimReaches(w: World, v: World, a: Agent, id: nat, placing: bool)
    requires Reaches(w, v, placing) && v.At(a).Idle? && v.column == ReadyOf(a.role)
    requires Fits(v, ClaimOf(a, Stamp(id, id, true), ""))
    ensures Reaches(w, AtWork(v, a, id), placing)
  {
    var at := Stamp(id, id, true);
    StepReaches(w, v, Look(a), placing);
    var v1 := Apply(v, Look(a));
    StepReaches(w, v1, Swap(a), placing);
    var v2 := Apply(v1, Swap(a));
    StepReaches(w, v2, Attribute(a, at, ""), placing);
    var c := ClaimOf(a, at, "");
    assert v.pc[a := Seen(v.version)][a := Swapped][a := Working(c)] == v.pc[a := Working(c)];
  }

  lemma HandOverReaches(w: World, v: World, a: Agent, id: nat, to: Column, placing: bool)
    requires Reaches(w, v, placing) && v.At(a).Working? && Fits(v, CloseOf(a, Stamp(id, id, true)))
    ensures Reaches(w, World(to, v.version + 2, v.log + [CloseOf(a, Stamp(id, id, true))], v.pc[a := Idle]), placing)
  {
    var at := Stamp(id, id, true);
    StepReaches(w, v, Close(a, at), placing);
    var v1 := Apply(v, Close(a, at));
    StepReaches(w, v1, Move(a, to), placing);
    assert v.pc[a := Closed][a := Idle] == v.pc[a := Idle];
  }

  lemma RestartReaches(w: World, v: World, a: Agent, placing: bool)
    requires Reaches(w, v, placing) && v.column == WorkingOf(a.role)
    ensures Reaches(w, v.Put(a, Listed), placing)
  {
    StepReaches(w, v, Crash(a), placing);
    var v1 := Apply(v, Crash(a));
    StepReaches(w, v1, List(a), placing);
    assert v.pc[a := Down][a := Listed] == v.pc[a := Listed];
  }

  // ----- What goes wrong -----

  /**
   A reconcile that listed the ticket in its own Working column, but re-reads it after another role
   on the same host has claimed it, takes that live claim for a dead one of its own: the worker
   keeps working while the ticket is back in the reconciling stage's queue.
   */
  lemma StaleListingStealsLiveWork(w: World, a: Agent, worker: Agent, at: Stamp)
    requires Invariant(w) && w.At(worker).Working? && w.At(a).Listed?
    requires worker.host == a.host && worker.role != a.role && Fits(w, HandBack(at))
    ensures var s1 := Apply(w, Inspect(a)); var s2 := Apply(s1, Clear(a, at)); var s3 := Apply(s2, Return(a));
      && Enabled(w, Inspect(a)) && Enabled(s1, Clear(a, at)) && Enabled(s2, Return(a))
      && s3.At(worker).Working? && s3.column == ReadyOf(a.role) && Named(s3.log) == None
  {
    WorkerIsHolder(w, worker);
    LiveAfterAppend(w.log, HandBack(at), "");
  }

  /** A run gets there: a developer restarts while a peer hands the ticket to the tester on the developer's own host. */
  lemma StaleListingIsReachable(a: Agent, peer: Agent, tester: Agent)
    requires peer.role == a.role && peer.host != a.host && tester.host == a.host && tester.role != a.role
    ensures exists w :: Reaches(Fresh(a.role), w, false) && w.At(a).Listed? && w.At(tester).Working?
  {
    var w0 := Fresh(a.role);
    StartsHere(w0, false);
    var w1 := AtWork(w0, peer, 1);
    ClaimReaches(w0, w0, peer, 1, false);
    var w2 := w1.Put(a, Listed);
    RestartReaches(w0, w1, a, false);
    var close := CloseOf(peer, Stamp(2, 2, true));
    HandOverReaches(w0, w2, peer, 2, ReadyOf(tester.role), false);
    var w3 := World(ReadyOf(tester.role), w2.version + 2, w2.log + [close], w2.pc[peer := Idle]);
    ClaimReaches(w0, w3, tester, 3, false);
    var w4 := AtWork(w3, tester, 3);
    assert w4.At(a).Listed? && w4.At(tester).Working?;
  }

  // ----- Exactly when it does -----

  ghost predicate NobodyRobbed(w: World) {
    forall x | w.At(x).Working? :: w.column == WorkingOf(x.role)
  }

  ghost predicate CanRob(w: World) {
    exists t :: Reaches(w, t, false) && !NobodyRobbed(t)
  }

  // From a match to the end of the reconcile, whoever works meanwhile.
  lemma ReturnRobs(w: World, v: World, a: Agent, b: Agent)
    requires Reaches(w, v, false) && Increasing(v.log) && v.At(a).Matched? && v.At(b).Working?
    ensures CanRob(w)
  {
    var at := NextStamp(v.log);
    NextStampFits(v.log, HandBack(at));
    StepReaches(w, v, Clear(a, at), false);
    var v1 := Apply(v, Clear(a, at));
    StepReaches(w, v1, Return(a), false);
    var v2 := Apply(v1, Return(a));
    assert v2.At(b).Working? && v2.column == ReadyOf(a.role);
  }

  // From w, by way of v, to a world in which this agent works and the others are as in v.
  ghost predicate GetsToWork(w: World, v: World, b: Agent) {
    exists t :: Reaches(w, t, false) && Increasing(t.log) && t.At(b).Working? && SameElsewhere(v, t, b)
  }

  lemma SameElsewhereTwice(u: World, v: World, w: World, b: Agent)
    requires SameElsewhere(u, v, b) && SameElsewhere(v, w, b)
    ensures SameElsewhere(u, w, b)
  {
    forall x | x != b ensures w.At(x) == u.At(x) { assert v.At(x) == u.At(x); }
  }

  lemma FirstToWork(w: World, u: World, v: World, b: Agent)
    requires GetsToWork(w, v, b) && SameElsewhere(u, v, b)
    ensures GetsToWork(w, u, b)
  {
    var t :| Reaches(w, t, false) && Increasing(t.log) && t.At(b).Working? && SameElsewhere(v, t, b);
    SameElsewhereTwice(u, v, t, b);
  }

  lemma SwappedGetsToWork(w: World, v: World, b: Agent)
    requires Reaches(w, v, false) && Increasing(v.log) && v.At(b).Swapped?
    ensures GetsToWork(w, v, b)
  {
    var at := NextStamp(v.log);
    NextStampFits(v.log, ClaimOf(b, at, ""));
    StepReaches(w, v, Attribute(b, at, ""), false);
    PutElsewhere(v, Apply(v, Attribute(b, at, "")), b, Working(ClaimOf(b, at, "")));
  }

  // An idle agent claims a ticket that waits for it.
  lemma IdleGetsToWork(w: World, v: World, b: Agent)
    requires Reaches(w, v, false) && Increasing(v.log) && v.At(b).Idle? && v.column == ReadyOf(b.role)
    ensures GetsToWork(w, v, b)
  {
    StepReaches(w, v, Look(b), false);
    var v1 := Apply(v, Look(b));
    StepReaches(w, v1, Swap(b), false);
    var v2 := Apply(v1, Swap(b));
    SwappedGetsToWork(w, v2, b);
    FirstToWork(w, v, v2, b);
  }

  // An agent about to move the ticket may move it back into its own queue.
  lemma ClosedGetsToWork(w: World, v: World, b: Agent)
    requires Reaches(w, v, false) && Increasing(v.log) && v.At(b).Closed?
    ensures GetsToWork(w, v, b)
  {
    StepReaches(w, v, Move(b, ReadyOf(b.role)), false);
    var v1 := Apply(v, Move(b, ReadyOf(b.role)));
    IdleGetsToWork(w, v1, b);
    FirstToWork(w, v, v1, b);
  }

  lemma ForgivenGetsToWork(w: World, v: World, b: Agent)
    requires Reaches(w, v, false) && Increasing(v.log) && v.At(b).Forgiven?
    ensures GetsToWork(w, v, b)
  {
    var at := NextStamp(v.log);
    NextStampFits(v.log, CloseOf(b, at));
    StepReaches(w, v, Close(b, at), false);
    var v1 := Apply(v, Close(b, at));
    ClosedGetsToWork(w, v1, b);
    FirstToWork(w, v, v1, b);
  }

  lemma ClearedGetsToWork(w: World, v: World, b: Agent)
    requires Reaches(w, v, false) && Increasing(v.log) && v.At(b).Cleared?
    ensures GetsToWork(w, v, b)
  {
    StepReaches(w, v, Return(b), false);
    var v1 := Apply(v, Return(b));
    IdleGetsToWork(w, v1, b);
    FirstToWork(w, v, v1, b);
  }

  lemma MatchedGetsToWork(w: World, v: World, b: Agent)
    requires Reaches(w, v, false) && Increasing(v.log) && v.At(b).Matched?
    ensures GetsToWork(w, v, b)
  {
    var at := NextStamp(v.log);
    NextStampFits(v.log, HandBack(at));
    StepReaches(w, v, Clear(b, at), false);
    var v1 := Apply(v, Clear(b, at));
    ClearedGetsToWork(w, v1, b);
    FirstToWork(w, v, v1, b);
  }

  // Whoever owns the ticket can get to work on it.
  lemma OwnerGetsToWork(v: World, b: Agent)
    requires Increasing(v.log) && v.At(b).Owns()
    ensures GetsToWork(v, v, b)
  {
    StartsHere(v, false);
    match v.At(b)
    case Swapped => SwappedGetsToWork(v, v, b);
    case Working(_) => assert SameElsewhere(v, v, b);
    case Forgiven => ForgivenGetsToWork(v, v, b);
    case Closed => ClosedGetsToWork(v, v, b);
    case Matched => MatchedGetsToWork(v, v, b);
    case Cleared => ClearedGetsToWork(v, v, b);
  }

  // A match beside an agent that can get to work ends with that agent robbed.
  lemma MatchRobs(v: World, u: World, a: Agent, b: Agent)
    requires a != b && u.At(a).Matched? && GetsToWork(v, u, b)
    ensures CanRob(v)
  {
    var t :| Reaches(v, t, false) && Increasing(t.log) && t.At(b).Working? && SameElsewhere(u, t, b);
    assert t.At(a) == u.At(a);
    ReturnRobs(v, t, a, b);
  }

  lemma TheftFollows(w: World, a: Agent, b: Agent)
    requires Increasing(w.log) && w.At(a).Listed? && NamesHost(w.log, a.host) && w.At(b).Owns()
    ensures CanRob(Apply(w, Inspect(a)))
  {
    var v := Apply(w, Inspect(a));
    PutElsewhere(w, v, a, Matched);
    assert v.log == w.log && a != b && v.At(b) == w.At(b);
    OwnerGetsToWork(v, b);
    MatchRobs(v, v, a, b);
  }

  lemma CheckedRunsRobNobody(w: World, t: World)
    requires Invariant(w) && Leads(w, t)
    ensures NobodyRobbed(t)
  {
    var steps :| Checked(w, steps) && Run(w, steps) == t;
    ConditionalClaimsExclude(w, steps);
    assert forall x | t.At(x).Working? :: t.At(x).InStage();
  }

  /**
   Taking over a standing claim of its own host is safe, whatever happens afterwards, exactly when no
   dispatcher of that host owns the ticket: otherwise some continuation takes a worker's ticket away.
   */
  lemma ReconcileIsSafeExactlyWhen(w: World, a: Agent)
    requires Invariant(w) && w.At(a).Listed? && NamesHost(w.log, a.host)
    ensures (forall t | Leads(Apply(w, Inspect(a)), t) :: NobodyRobbed(t)) <==> HostVacant(w, a.host)
  {
    FirstLiveIsAClaim(w.log);
    if HostVacant(w, a.host) {
      StepKeepsInvariant(w, Inspect(a));
      forall t | Leads(Apply(w, Inspect(a)), t) ensures NobodyRobbed(t) {
        CheckedRunsRobNobody(Apply(w, Inspect(a)), t);
      }
    } else {
      var role: string :| w.At(Agent(a.host, role)).Owns();
      TheftFollows(w, a, Agent(a.host, role));
      var t :| Reaches(Apply(w, Inspect(a)), t, false) && !NobodyRobbed(t);
      ReachesLeads(Apply(w, Inspect(a)), t);
    }
  }

  // ----- Over every run -----

  // A run of the steps as they are, without handler-placed tickets.
  ghost predicate CanRun(w: World, steps: seq<Step>)
    decreases |steps|
  {
    steps == [] || (Enabled(w, steps[0]) && !steps[0].Place? && CanRun(Apply(w, steps[0]), steps[1..]))
  }

  ghost predicate NeverRobs(w: World) {
    forall t | Leads(w, t) :: NobodyRobbed(t)
  }

  // Nowhere along the run has it become possible that a worker is robbed by steps that are themselves checked.
  ghost predicate SafeAlong(w: World, steps: seq<Step>)
    decreases |steps|
  {
    NeverRobs(w) && (steps != [] ==> SafeAlong(Apply(w, steps[0]), steps[1..]))
  }

  /**
   A run of the program as it is endangers nobody's work exactly when every reconcile that took a ticket
   over in it would have passed a check of its own host's dispatchers.
   */
  lemma {:induction false} RunIsSafeExactlyWhen(w: World, steps: seq<Step>)
    requires Invariant(w) && CanRun(w, steps)
    ensures SafeAlong(w, steps) <==> Checked(w, steps)
    decreases |steps|
  {
    forall t | Leads(w, t) ensures NobodyRobbed(t) { CheckedRunsRobNobody(w, t); }
    if steps != [] {
      StepKeepsInvariant(w, steps[0]);
      if TakesOver(w, steps[0]) { ReconcileIsSafeExactlyWhen(w, steps[0].a); }
      if Invariant(Apply(w, steps[0])) { RunIsSafeExactlyWhen(Apply(w, steps[0]), steps[1..]); }
    }
  }

  /**
   In a host's own terms: the agent named by the standing claim is not working, and no other
   reconcile of the host has already taken the ticket.
   */
  lemma HostVacantMeans(w: World, host: string)
    requires Invariant(w) && NamesHost(w.log, host)
    ensures HostVacant(w, host) <==>
      !w.At(Named(w.log).value).Working? && forall role: string :: !w.At(Agent(host, role)).Matched?
  {
    FirstLiveIsAClaim(w.log);
    forall role: string
      ensures w.At(Agent(host, role)).Owns() ==>
        || w.At(Agent(host, role)).Matched?
        || (w.At(Agent(host, role)).Working? && Named(w.log) == Some(Agent(host, role)))
    {
      OwnerIsOnTheHost(w, host, Agent(host, role));
    }
    assert Named(w.log).value == Agent(host, Named(w.log).value.role);
  }
}
