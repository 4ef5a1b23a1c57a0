/**
 Handlers that place their ticket themselves (`internal/agent/scope/scope.go`): the move comes first,
 and the round is closed only after it (`work` in `internal/dispatch/dispatch.go`). Ownership stays
 exclusive, as every claim is a conditional write; what the log says about the owner does not.
 */
module PlacedTickets {
  import opened Wrappers
  import opened Record
  import opened Stages
  import opened ConditionalClaims
  import opened Reconcile

  // A run, placing included, in which reconcile takes over only tickets that nobody owns.
  ghost predicate Careful(w: World, steps: seq<Step>)
    decreases |steps|
  {
    steps == [] ||
    (&& Enabled(w, steps[0]) && (TakesOver(w, steps[0]) ==> Vacant(w))
     && Careful(Apply(w, steps[0]), steps[1..]))
  }

  /** Over every such run at most one agent owns the ticket, and its column is the owner's Working column. */
  lemma {:induction false} OwnershipIsExclusive(w: World, steps: seq<Step>)
    requires Owned(w) && Careful(w, steps)
    ensures Owned(Run(w, steps))
    decreases |steps|
  {
    if steps != [] {
      StepKeepsOwned(w, steps[0]);
      OwnershipIsExclusive(Apply(w, steps[0]), steps[1..]);
    }
  }

  // A run of the steps as they are.
  ghost predicate Possible(w: World, steps: seq<Step>)
    decreases |steps|
  {
    steps == [] || (Enabled(w, steps[0]) && Possible(Apply(w, steps[0]), steps[1..]))
  }

  ghost predicate OwnedAlong(w: World, steps: seq<Step>)
    decreases |steps|
  {
    Owned(w) && (steps != [] ==> OwnedAlong(Apply(w, steps[0]), steps[1..]))
  }

  /** A run keeps ownership exclusive all along exactly when its reconciles take over only what nobody owns. */
  lemma {:induction false} OwnershipHoldsAlongExactlyWhen(w: World, steps: seq<Step>)
    requires Owned(w) && Possible(w, steps)
    ensures OwnedAlong(w, steps) <==> Careful(w, steps)
    decreases |steps|
  {
    if steps != [] {
      StepKeepsOwned(w, steps[0]);
      if Owned(Apply(w, steps[0])) { OwnershipHoldsAlongExactlyWhen(Apply(w, steps[0]), steps[1..]); }
    }
  }

  // ----- When a ticket may be taken over -----

  ghost predicate Goes(w: World, t: World) {
    exists steps :: Careful(w, steps) && Run(w, steps) == t
  }

  lemma {:induction false} QuietIsCareful(w: World, steps: seq<Step>, placing: bool)
    requires Quiet(w, steps, placing)
    ensures Careful(w, steps)
    decreases |steps|
  {
    if steps != [] { QuietIsCareful(Apply(w, steps[0]), steps[1..], placing); }
  }

  lemma RobbedByCareful(w: World)
    requires CanRob(w)
    ensures exists t :: Goes(w, t) && !NobodyRobbed(t)
  {
    var t :| Reaches(w, t, false) && !NobodyRobbed(t);
    var steps :| Quiet(w, steps, false) && Run(w, steps) == t;
    QuietIsCareful(w, steps, false);
    assert Goes(w, t);
  }

  lemma OwnedRobsNobody(w: World)
    requires Owned(w)
    ensures NobodyRobbed(w)
  {
    forall x | w.At(x).Working? ensures w.column == WorkingOf(x.role) { assert Knows(w, x) && w.At(x).InStage(); }
  }

  // A reconcile has taken over a ticket that had left the board's stages: nobody else can get at it.
  ghost predicate Shelved(w: World, a: Agent) {
    && Increasing(w.log) && w.column.Elsewhere? && (w.At(a).Matched? || w.At(a).Cleared?)
    && forall b | b != a :: !w.At(b).Owns() && Knows(w, b)
  }

  // Anybody else only gives up, or comes back to find it gone.
  lemma OthersLeaveItShelved(w: World, t: World, a: Agent, b: Agent)
    requires Shelved(w, a) && SameElsewhere(w, t, b) && b != a && (t.At(b).Idle? || t.At(b).Down?)
    requires t.column == w.column && w.version <= t.version && Increasing(t.log)
    ensures Shelved(t, a)
  {
    assert t.At(a) == w.At(a);
    forall x | x != a ensures !t.At(x).Owns() && Knows(t, x) {
      if x != b { assert t.At(x) == w.At(x) && Knows(w, x); }
    }
  }

  // Its taker resets the attempt, then puts the ticket back into its queue, or dies.
  lemma TakerEndsShelved(w: World, step: Step, a: Agent)
    requires Shelved(w, a) && Enabled(w, step) && !step.Remark? && step.a == a
    ensures Shelved(Apply(w, step), a) || Owned(Apply(w, step))
  {
    var t := Apply(w, step);
    PutElsewhere(w, t, a, t.At(a));
    forall x | x != a ensures !t.At(x).Owns() && Knows(t, x) { assert t.At(x) == w.At(x) && Knows(w, x); }
  }

  lemma RemarkLeavesItShelved(w: World, c: Comment, bumps: bool, a: Agent)
    requires Shelved(w, a) && Enabled(w, Remark(c, bumps))
    ensures Shelved(Apply(w, Remark(c, bumps)), a)
  {
    var t := Apply(w, Remark(c, bumps));
    assert forall b {:trigger t.At(b)} :: t.At(b) == w.At(b);
    forall x | x != a ensures !t.At(x).Owns() && Knows(t, x) { assert t.At(x) == w.At(x) && Knows(w, x); }
  }

  lemma StepFromShelved(w: World, step: Step, a: Agent)
    requires Shelved(w, a) && Enabled(w, step) && (TakesOver(w, step) ==> Vacant(w))
    ensures Shelved(Apply(w, step), a) || Owned(Apply(w, step))
  {
    if step.Remark? {
      RemarkLeavesItShelved(w, step.c, step.bumps, a);
    } else if step.a == a {
      TakerEndsShelved(w, step, a);
    } else {
      assert Knows(w, step.a) && !w.At(step.a).Owns();
      PutElsewhere(w, Apply(w, step), step.a, Apply(w, step).At(step.a));
      OthersLeaveItShelved(w, Apply(w, step), a, step.a);
    }
  }

  lemma {:induction false} ShelvedRobsNobody(w: World, steps: seq<Step>, a: Agent)
    requires Shelved(w, a) && Careful(w, steps)
    ensures NobodyRobbed(Run(w, steps))
    decreases |steps|
  {
    if steps == [] {
      assert forall x | w.At(x).Working? :: x != a;
    } else {
      StepFromShelved(w, steps[0], a);
      if Owned(Apply(w, steps[0])) {
        OwnershipIsExclusive(Apply(w, steps[0]), steps[1..]);
        OwnedRobsNobody(Run(w, steps));
      } else {
        ShelvedRobsNobody(Apply(w, steps[0]), steps[1..], a);
      }
    }
  }

  lemma VacantTakeoverIsSafe(w: World, a: Agent, t: World)
    requires Owned(w) && w.At(a).Listed? && NamesHost(w.log, a.host) && (Vacant(w) || w.column.Elsewhere?)
    requires Goes(Apply(w, Inspect(a)), t)
    ensures NobodyRobbed(t)
  {
    var v := Apply(w, Inspect(a));
    PutElsewhere(w, v, a, Matched);
    var steps :| Careful(v, steps) && Run(v, steps) == t;
    StepKeepsOwned(w, Inspect(a));
    if Vacant(w) {
      OwnershipIsExclusive(v, steps);
      OwnedRobsNobody(t);
    } else {
      forall x | x != a ensures !v.At(x).Owns() && Knows(v, x) { assert v.At(x) == w.At(x) && Knows(w, x); }
      ShelvedRobsNobody(v, steps, a);
    }
  }

  // A match on a ticket that waits for some role: whoever claims it is robbed by the return.
  lemma WaitingTicketRobs(w: World, a: Agent)
    requires Owned(w) && w.At(a).Listed? && NamesHost(w.log, a.host) && w.column.ReadyOf?
    ensures CanRob(Apply(w, Inspect(a)))
  {
    var v, b := Apply(w, Inspect(a)), Agent(a.host + "'", w.column.role);
    assert |b.host| != |a.host|;
    PutElsewhere(w, v, a, Matched);
    StartsHere(v, false);
    StepReaches(v, v, Crash(b), false);
    var v1 := Apply(v, Crash(b));
    StepReaches(v, v1, List(b), false);
    var v2 := Apply(v1, List(b));
    IdleGetsToWork(v, v2, b);
    FirstToWork(v, v, v2, b);
    MatchRobs(v, v, a, b);
  }

  /**
   With placed tickets, taking over a standing claim of the host is safe, whatever careful steps follow,
   exactly when nobody at all owns the ticket and it is in a Working column, or outside every stage.
   */
  lemma TakingOverIsSafeExactlyWhen(w: World, a: Agent)
    requires Owned(w) && w.At(a).Listed? && NamesHost(w.log, a.host)
    ensures (forall t | Goes(Apply(w, Inspect(a)), t) :: NobodyRobbed(t)) <==> Vacant(w) || w.column.Elsewhere?
  {
    if Vacant(w) || w.column.Elsewhere? {
      forall t | Goes(Apply(w, Inspect(a)), t) ensures NobodyRobbed(t) { VacantTakeoverIsSafe(w, a, t); }
    } else {
      if w.column.ReadyOf? {
        WaitingTicketRobs(w, a);
      } else {
        var b :| w.At(b).Owns();
        TheftFollows(w, a, b);
      }
      RobbedByCareful(Apply(w, Inspect(a)));
    }
  }

  // ----- Who the log names -----

  ghost predicate FirstLive(w: World, m: Comment) {
    Live(w) != [] && Live(w)[0] == m
  }

  predicate ByOthers(steps: seq<Step>, a: Agent) {
    forall i | 0 <= i < |steps| :: steps[i].Remark? || steps[i].a != a
  }

  predicate LateClose(w: World, step: Step) {
    step.Close? && w.At(step.a).Placed?
  }

  // An agent whose handler placed the ticket closes its round somewhere in the run.
  ghost predicate LateCloses(w: World, steps: seq<Step>)
    decreases |steps|
  {
    steps != [] && (LateClose(w, steps[0]) || LateCloses(Apply(w, steps[0]), steps[1..]))
  }

  // While an agent works, only the late close of a placed ticket changes which claim stands.
  lemma StepNames(w: World, step: Step, a: Agent, m: Comment)
    requires Owned(w) && w.At(a) == Working(m) && Enabled(w, step) && (TakesOver(w, step) ==> Vacant(w))
    requires step.Remark? || step.a != a
    ensures Apply(w, step).At(a) == Working(m)
    ensures FirstLive(Apply(w, step), m) <==> FirstLive(w, m) && !LateClose(w, step)
  {
    OwnerIsAlone(w, a);
    match step
    case Close(b, at) => LiveAfterAppend(w.log, CloseOf(b, at), "");
    case Remark(c, _) => LiveAfterAppend(w.log, c, "");
    case _ =>
  }

  lemma {:induction false} RunNames(w: World, steps: seq<Step>, a: Agent, m: Comment)
    requires Owned(w) && w.At(a) == Working(m) && Careful(w, steps) && ByOthers(steps, a)
    ensures Run(w, steps).At(a) == Working(m) && Owned(Run(w, steps))
    ensures FirstLive(Run(w, steps), m) <==> FirstLive(w, m) && !LateCloses(w, steps)
    decreases |steps|
  {
    if steps != [] {
      StepNames(w, steps[0], a, m);
      StepKeepsOwned(w, steps[0]);
      RunNames(Apply(w, steps[0]), steps[1..], a, m);
    }
  }

  lemma StandsWhenFirstLive(w: World, m: Comment)
    requires Increasing(w.log)
    ensures Oldest(w.log, "") == Some(m) <==> FirstLive(w, m)
  {
    OldestOfIncreasing(w.log, "");
  }

  // The claim just recorded stands exactly when none stood before.
  lemma AttributedStands(w: World, a: Agent, at: Stamp, runId: string)
    requires Owned(w) && Enabled(w, Attribute(a, at, runId))
    ensures FirstLive(Apply(w, Attribute(a, at, runId)), ClaimOf(a, at, runId)) <==> Live(w) == []
  {
    var m := ClaimOf(a, at, runId);
    LiveAfterAppend(w.log, m, "");
    AppendedIsLast(w.log, m);
    LiveClaimsIncrease(w.log, "");
    if Live(w) != [] { assert Live(w)[0] in Live(w); }
  }

  /**
   A worker is the holder the log names exactly when no claim stood when it recorded its own and no
   placed ticket's round has been closed since, whatever else has happened.
   */
  lemma WorkerIsNamedExactlyWhen(w: World, a: Agent, at: Stamp, runId: string, steps: seq<Step>)
    requires Owned(w) && Enabled(w, Attribute(a, at, runId))
    requires Careful(Apply(w, Attribute(a, at, runId)), steps) && ByOthers(steps, a)
    ensures var v := Apply(w, Attribute(a, at, runId)); var m := ClaimOf(a, at, runId);
      && Run(v, steps).At(a) == Working(m)
      && (Oldest(Run(v, steps).log, "") == Some(m) <==> Live(w) == [] && !LateCloses(v, steps))
  {
    var v, m := Apply(w, Attribute(a, at, runId)), ClaimOf(a, at, runId);
    StepKeepsOwned(w, Attribute(a, at, runId));
    AttributedStands(w, a, at, runId);
    PutElsewhere(w, v, a, Working(m));
    RunNames(v, steps, a, m);
    StandsWhenFirstLive(Run(v, steps), m);
  }

  // ----- Who it will go on naming -----

  ghost predicate NobodyPlaced(w: World) {
    forall x :: !w.At(x).Placed?
  }

  // While an agent works nobody else can place the ticket.
  lemma {:induction false} NobodyPlacesMeanwhile(w: World, steps: seq<Step>, a: Agent, m: Comment)
    requires Owned(w) && w.At(a) == Working(m) && Careful(w, steps) && ByOthers(steps, a) && NobodyPlaced(w)
    ensures !LateCloses(w, steps)
    decreases |steps|
  {
    if steps != [] {
      OwnerIsAlone(w, a);
      StepNames(w, steps[0], a, m);
      StepKeepsOwned(w, steps[0]);
      PlacingNeedsTheOwner(w, steps[0], a);
      NobodyPlacesMeanwhile(Apply(w, steps[0]), steps[1..], a, m);
    }
  }

  lemma PlacingNeedsTheOwner(w: World, step: Step, a: Agent)
    requires NoOtherOwner(w, a) && Enabled(w, step) && (step.Remark? || step.a != a) && NobodyPlaced(w)
    ensures NobodyPlaced(Apply(w, step))
  {
    if step.Remark? {
      assert forall b {:trigger Apply(w, step).At(b)} :: Apply(w, step).At(b) == w.At(b);
    } else {
      PutElsewhere(w, Apply(w, step), step.a, Apply(w, step).At(step.a));
    }
  }

  /**
   A worker stays the named holder for as long as it works, in every continuation, exactly when no
   claim stood and no placed ticket's round was open at the moment it recorded its claim.
   */
  lemma WorkerStaysNamedExactlyWhen(w: World, a: Agent, at: Stamp, runId: string)
    requires Owned(w) && Enabled(w, Attribute(a, at, runId))
    ensures var v := Apply(w, Attribute(a, at, runId)); var m := ClaimOf(a, at, runId);
      (forall steps | Careful(v, steps) && ByOthers(steps, a) :: Oldest(Run(v, steps).log, "") == Some(m))
      <==> Live(w) == [] && NobodyPlaced(w)
  {
    var v, m := Apply(w, Attribute(a, at, runId)), ClaimOf(a, at, runId);
    StepKeepsOwned(w, Attribute(a, at, runId));
    PutElsewhere(w, v, a, Working(m));
    if Live(w) == [] && NobodyPlaced(w) {
      assert NobodyPlaced(v) by { forall x ensures !v.At(x).Placed? { assert x != a ==> v.At(x) == w.At(x); } }
      forall steps | Careful(v, steps) && ByOthers(steps, a) ensures Oldest(Run(v, steps).log, "") == Some(m) {
        NobodyPlacesMeanwhile(v, steps, a, m);
        WorkerIsNamedExactlyWhen(w, a, at, runId, steps);
      }
    } else {
      var steps := SomeoneUnnames(w, a, at, runId);
      WorkerIsNamedExactlyWhen(w, a, at, runId, steps);
      assert Oldest(Run(v, steps).log, "") != Some(m);
    }
  }

  // A run after which the worker is not the named holder.
  lemma SomeoneUnnames(w: World, a: Agent, at: Stamp, runId: string) returns (steps: seq<Step>)
    requires Owned(w) && Enabled(w, Attribute(a, at, runId)) && !(Live(w) == [] && NobodyPlaced(w))
    ensures var v := Apply(w, Attribute(a, at, runId));
      Careful(v, steps) && ByOthers(steps, a) && !(Live(w) == [] && !LateCloses(v, steps))
  {
    var v := Apply(w, Attribute(a, at, runId));
    if Live(w) != [] {
      steps := [];
    } else {
      var x :| w.At(x).Placed?;
      PutElsewhere(w, v, a, v.At(a));
      var close := Close(x, NextStamp(v.log));
      NextStampFits(v.log, CloseOf(x, NextStamp(v.log)));
      steps := [close];
      assert steps[1..] == [] && v.At(x) == w.At(x);
      assert LateClose(v, steps[0]);
    }
  }

  // ----- A ticket that is placed -----

  function WorkAndPlace(a: Agent, b: Agent): World {
    var w := AtWork(Fresh(a.role), a, 1);
    AtWork(World(ReadyOf(b.role), w.version + 1, w.log, w.pc[a := Placed]), b, 2)
  }

  // The second agent works while the first, whose handler placed the ticket, has its round open and
  // is the one the log names.
  ghost predicate PlacedFor(w: World, a: Agent, b: Agent) {
    && w.At(a).Placed? && w.At(b).Working? && (forall x | x != a && x != b :: w.At(x).Idle?)
    && w.column == WorkingOf(b.role) && Fits(w, CloseOf(a, Stamp(3, 3, true)))
    && Increasing(w.log) && Named(w.log) == Some(a)
  }

  lemma WorkAndPlaceIs(a: Agent, b: Agent)
    requires a != b
    ensures PlacedFor(WorkAndPlace(a, b), a, b)
  {
    var w := WorkAndPlace(a, b);
    var first, second := ClaimOf(a, Stamp(1, 1, true), ""), ClaimOf(b, Stamp(2, 2, true), "");
    assert w.log == [first] + [second];
    FirstClaimIsNamed(w.log, first, second);
  }

  lemma FirstClaimIsNamed(log: seq<Comment>, first: Comment, second: Comment)
    requires log == [first] + [second] && Before(first, second) && !first.resets && !second.resets
    requires first.kind.ClaimNote? && second.kind.ClaimNote?
    ensures Increasing(log) && Named(log) == Some(Agent(first.kind.claim.host, first.kind.claim.role))
  {
    OneClaimIsNamed(first);
    NamedAfterAppend([first], second);
  }

  lemma OneClaimIsNamed(c: Comment)
    requires c.kind.ClaimNote? && !c.resets
    ensures LiveClaims([c], "") != [] && Named([c]) == Some(Agent(c.kind.claim.host, c.kind.claim.role))
  {
    assert [] + [c] == [c];
    LiveAfterAppend([], c, "");
  }

  lemma PlacingIsReachable(a: Agent, b: Agent)
    requires a != b
    ensures Reaches(Fresh(a.role), WorkAndPlace(a, b), true)
  {
    var w0 := Fresh(a.role);
    StartsHere(w0, true);
    ClaimReaches(w0, w0, a, 1, true);
    var w1 := AtWork(w0, a, 1);
    StepReaches(w0, w1, Place(a, ReadyOf(b.role)), true);
    var w2 := Apply(w1, Place(a, ReadyOf(b.role)));
    ClaimReaches(w0, w2, b, 2, true);
  }

  /** Until the first closes its round the log names the first, and once it has, the log names nobody. */
  ghost predicate NamedWrongly(w: World, a: Agent, b: Agent) {
    var close := Close(a, Stamp(3, 3, true));
    && w.At(b).Working? && Named(w.log) == Some(a)
    && Enabled(w, close) && Apply(w, close).At(b).Working? && Named(Apply(w, close).log) == None
  }

  lemma PlacedForIsNamedWrongly(w: World, a: Agent, b: Agent)
    requires a != b && PlacedFor(w, a, b)
    ensures NamedWrongly(w, a, b)
  {
    LiveAfterAppend(w.log, CloseOf(a, Stamp(3, 3, true)), "");
  }

  /**
   From a fresh ticket: one agent's handler places it for another, which claims it and works, and the
   log names first the wrong holder and then none.
   */
  lemma LateCloseErasesTheNextHolder(a: Agent, b: Agent)
    requires a != b
    ensures exists w :: Reaches(Fresh(a.role), w, true) && NamedWrongly(w, a, b)
  {
    var w := WorkAndPlace(a, b);
    PlacingIsReachable(a, b);
    WorkAndPlaceIs(a, b);
    PlacedForIsNamedWrongly(w, a, b);
  }

  // A restarted dispatcher that its host's check lets take a ticket somebody else works, and that then
  // returns it to its own queue under that worker's hands.
  ghost predicate Misled(w: World, b: Agent, c: Agent) {
    var clear := Clear(c, NextStamp(w.log));
    var s1 := Apply(w, Inspect(c)); var s2 := Apply(s1, clear); var s3 := Apply(s2, Return(c));
    && Enabled(w, Inspect(c)) && TakesOver(w, Inspect(c)) && HostVacant(w, c.host)
    && Enabled(s1, clear) && Enabled(s2, Return(c))
    && s3.At(b).Working? && s3.column == ReadyOf(c.role) && !NobodyRobbed(s3)
  }

  lemma DeadPlacerMisleads(w: World, a: Agent, b: Agent, c: Agent)
    requires a.host == c.host && b.host != a.host && a != c && PlacedFor(w, a, b)
    ensures Misled(w.Put(a, Down).Put(c, Listed), b, c)
  {
    var t := w.Put(a, Down).Put(c, Listed);
    NextStampFits(t.log, HandBack(NextStamp(t.log)));
    forall role: string ensures !t.At(Agent(c.host, role)).Owns() {
      var x := Agent(c.host, role);
      assert x != a && x != c ==> t.At(x) == w.At(x);
    }
    MisledOnce(t, b, c);
  }

  lemma MisledOnce(w: World, b: Agent, c: Agent)
    requires b != c && w.At(b).Working? && w.At(c).Listed? && NamesHost(w.log, c.host) && HostVacant(w, c.host)
    requires Fits(w, HandBack(NextStamp(w.log)))
    ensures Misled(w, b, c)
  {
    var s1 := Apply(w, Inspect(c));
    var s2 := Apply(s1, Clear(c, NextStamp(w.log)));
    var s3 := Apply(s2, Return(c));
    assert s3.At(b).Working? && s3.column == ReadyOf(c.role);
  }

  /**
   If the host that placed it dies before closing its round, asking a host's own dispatchers is no
   longer enough: another stage's restart on that host takes the ticket from a worker elsewhere.
   */
  lemma DeadPlacerMisleadsReconcile(a: Agent, b: Agent, c: Agent)
    requires a.host == c.host && b.host != a.host && c.role == b.role && a.role != c.role
    ensures exists w :: Reaches(Fresh(a.role), w, true) && Misled(w, b, c)
  {
    var w0, w := Fresh(a.role), WorkAndPlace(a, b);
    PlacingIsReachable(a, b);
    WorkAndPlaceIs(a, b);
    DeadPlacerMisleads(w, a, b, c);
    StepReaches(w0, w, Crash(a), true);
    RestartReaches(w0, Apply(w, Crash(a)), c, true);
  }
}
