/**
 Claiming by append rests on time (`claimByAppend` in `internal/platform/claim.go`): a claim is appended
 while the ticket still waits for it, and read back before it is too old to count. For each the exact
 condition, and a run that ends badly without it.
 */
module AppendRuns {
  import opened Wrappers
  import opened Record
  import opened Stages
  import opened Arbitration
  import opened AppendClaims

  // ----- Runs between two worlds -----

  ghost predicate Leads(w: World, t: World) {
    exists steps :: CanRun(w, steps) && Run(w, steps) == t
  }

  lemma StartsHere(w: World)
    ensures Leads(w, w)
  {
    assert CanRun(w, []) && Run(w, []) == w;
  }

  lemma {:induction false} RunThenStep(w: World, steps: seq<Step>, s: Step)
    requires CanRun(w, steps) && Enabled(Run(w, steps), s) && !TakesOver(Run(w, steps), s)
    ensures CanRun(w, steps + [s]) && Run(w, steps + [s]) == Apply(Run(w, steps), s)
    decreases |steps|
  {
    if steps == [] {
      assert [] + [s] == [s] && [s][1..] == [];
    } else {
      assert (steps + [s])[1..] == steps[1..] + [s];
      RunThenStep(Apply(w, steps[0]), steps[1..], s);
    }
  }

  lemma StepLeads(w: World, v: World, s: Step)
    requires Leads(w, v) && Enabled(v, s) && !TakesOver(v, s)
    ensures Leads(w, Apply(v, s))
  {
    var steps :| CanRun(w, steps) && Run(w, steps) == v;
    RunThenStep(w, steps, s);
  }

  // A claim with no live claim of its role before it reads itself back.
  lemma LoneClaimWins(log: seq<Comment>, role: string, c: Comment, now: int)
    requires Increasing(log + [c]) && Tidy(log + [c]) && LiveClaims(log, role) == []
    requires c.Claims(role) && !c.Closes(role) && !Stale(c, now)
    ensures OldestIsFresh(log + [c], role, now) && Oldest(Pruned(log + [c], now), role) == Some(c)
  {
    LiveAfterAppend(log, c, role);
    WinnerSurvivesPruningExactlyWhen(log + [c], role, now);
    FirstLiveIsOldest(log + [c], role);
  }

  lemma TidyAfter(log: seq<Comment>, c: Comment)
    requires Tidy(log) && (c.IsClaim() ==> !c.resets)
    ensures Tidy(log + [c])
  {
    assert forall k :: k in log + [c] <==> k in log || k == c;
  }

  // An idle agent takes a ticket that waits for it with no live claim: the run of an undisputed claim.
  lemma UndisputedClaim(w: World, v: World, a: Agent, at: Stamp)
    requires Leads(w, v) && v.At(a).Idle? && v.column == ReadyOf(a.role) && a.role != ""
    requires Tidy(v.log) && Fits(v, ClaimOf(a, at, "")) && LiveClaims(v.log, a.role) == []
    ensures Leads(w, Taken(v, a, ClaimOf(a, at, "")))
  {
    var c := ClaimOf(a, at, "");
    AppendLeads(w, v, a, at);
    var v1 := World(v.column, v.log + [c], v.pc[a := Appended(c)], v.taken);
    LoneReadBackLeads(w, v1, v.log, a, c);
    TakeLeads(w, v1.Put(a, Won(c)), a, c);
    assert v.pc[a := Appended(c)][a := Won(c)][a := Held(c)] == v.pc[a := Held(c)];
  }

  function Taken(v: World, a: Agent, c: Comment): World {
    World(WorkingOf(a.role), v.log + [c], v.pc[a := Held(c)], v.taken + {c})
  }

  lemma AppendLeads(w: World, v: World, a: Agent, at: Stamp)
    requires Leads(w, v) && v.At(a).Idle? && v.column == ReadyOf(a.role) && a.role != ""
    requires Fits(v, ClaimOf(a, at, ""))
    ensures var c := ClaimOf(a, at, "");
      Leads(w, World(v.column, v.log + [c], v.pc[a := Appended(c)], v.taken))
  {
    StepLeads(w, v, Check(a));
    var v1 := Apply(v, Check(a));
    StepLeads(w, v1, Append(a, at, ""));
    assert v.pc[a := Checked(|v.log|)][a := Appended(ClaimOf(a, at, ""))] == v.pc[a := Appended(ClaimOf(a, at, ""))];
  }

  lemma LoneReadBackLeads(w: World, v: World, log: seq<Comment>, a: Agent, c: Comment)
    requires Leads(w, v) && v.At(a) == Appended(c) && v.log == log + [c]
    requires Increasing(v.log) && Tidy(log) && LiveClaims(log, a.role) == [] && IsClaimOf(c, a) && !c.resets
    ensures Leads(w, v.Put(a, Won(c)))
  {
    TidyAfter(log, c);
    LoneClaimWins(log, a.role, c, c.createdAt);
    ReadBackLeads(w, v, a, c, c.createdAt);
  }

  lemma ReadBackLeads(w: World, v: World, a: Agent, c: Comment, now: int)
    requires Leads(w, v) && v.At(a) == Appended(c) && OldestIsFresh(v.log, a.role, now)
    requires Oldest(Pruned(v.log, now), a.role) == Some(c)
    ensures Leads(w, v.Put(a, Won(c)))
  {
    ReadBackCases(v, a, now);
    StepLeads(w, v, ReadBack(a, now));
  }

  lemma TakeLeads(w: World, v: World, a: Agent, c: Comment)
    requires Leads(w, v) && v.At(a) == Won(c)
    ensures Leads(w, World(WorkingOf(a.role), v.log, v.pc[a := Held(c)], v.taken + {c}))
  {
    StepLeads(w, v, Take(a));
  }

  // ----- Appending in time -----

  // Append, read back and take, without asking whether the append is in time.
  function ClaimedUnasked(w: World, a: Agent, at: Stamp, runId: string, now: int): World {
    Apply(Apply(Apply(w, Append(a, at, runId)), ReadBack(a, now)), Take(a))
  }

  lemma SameElsewhereTwice(u: World, v: World, w: World, a: Agent)
    requires SameElsewhere(u, v, a) && SameElsewhere(v, w, a)
    ensures SameElsewhere(u, w, a)
  {
    forall b | b != a ensures w.At(b) == u.At(b) { assert v.At(b) == u.At(b); }
  }

  lemma AppendPuts(w: World, a: Agent, at: Stamp, runId: string)
    ensures var c := ClaimOf(a, at, runId); var t := Apply(w, Append(a, at, runId));
      t.At(a) == Appended(c) && t.log == w.log + [c] && SameElsewhere(w, t, a)
  {
    PutElsewhere(w, Apply(w, Append(a, at, runId)), a, Appended(ClaimOf(a, at, runId)));
  }

  lemma ReadBackPuts(v: World, a: Agent, c: Comment, now: int)
    requires v.At(a) == Appended(c)
    ensures var t := Apply(v, ReadBack(a, now));
      t.At(a) == (if Oldest(Pruned(v.log, now), a.role) == Some(c) then Won(c) else Idle) && SameElsewhere(v, t, a)
  {
    ReadBackCases(v, a, now);
    var t := Apply(v, ReadBack(a, now));
    PutElsewhere(v, t, a, if Oldest(Pruned(v.log, now), a.role) == Some(c) then Won(c) else Idle);
  }

  lemma TakePuts(v: World, a: Agent)
    ensures var t := Apply(v, Take(a));
      && (t.At(a).Held? <==> v.At(a).Won? || v.At(a).Held?) && SameElsewhere(v, t, a)
      && (v.At(a).Won? ==> t.column == WorkingOf(a.role))
  {
    if v.At(a).Won? { PutElsewhere(v, Apply(v, Take(a)), a, Held(v.At(a).mine)); }
  }

  lemma AppendedReadsBack(w: World, a: Agent, at: Stamp, runId: string, now: int)
    ensures var c := ClaimOf(a, at, runId); var t := Apply(Apply(w, Append(a, at, runId)), ReadBack(a, now));
      && t.At(a) == (if Oldest(Pruned(w.log + [c], now), a.role) == Some(c) then Won(c) else Idle)
      && SameElsewhere(w, t, a)
  {
    var v := Apply(w, Append(a, at, runId));
    AppendPuts(w, a, at, runId);
    ReadBackPuts(v, a, ClaimOf(a, at, runId), now);
    SameElsewhereTwice(w, v, Apply(v, ReadBack(a, now)), a);
  }

  lemma ClaimedUnaskedIs(w: World, a: Agent, at: Stamp, runId: string, now: int)
    ensures var c := ClaimOf(a, at, runId); var t := ClaimedUnasked(w, a, at, runId, now);
      && (t.At(a).Held? <==> Oldest(Pruned(w.log + [c], now), a.role) == Some(c))
      && (t.At(a).Held? ==> t.column == WorkingOf(a.role)) && SameElsewhere(w, t, a)
  {
    var v := Apply(Apply(w, Append(a, at, runId)), ReadBack(a, now));
    AppendedReadsBack(w, a, at, runId, now);
    TakePuts(v, a);
    SameElsewhereTwice(w, v, Apply(v, Take(a)), a);
  }

  /**
   An append that is not in time takes a ticket that is not waiting for its role, and takes it from
   whoever owns it; an append that is in time never does.
   */
  lemma LateAppendTakesExactlyWhen(w: World, a: Agent, at: Stamp, runId: string, now: int)
    requires Invariant(w) && Fits(w, ClaimOf(a, at, runId))
    requires OldestIsFresh(w.log + [ClaimOf(a, at, runId)], a.role, now)
    ensures var t := ClaimedUnasked(w, a, at, runId, now);
      && (t.At(a).Held? && w.column != ReadyOf(a.role) <==> !InTime(w, a.role))
      && (t.At(a).Held? ==> t.column == WorkingOf(a.role))
      && forall b | b != a :: t.At(b) == w.At(b)
  {
    ClaimedUnaskedIs(w, a, at, runId, now);
    AppendedWins(w.log, a.role, ClaimOf(a, at, runId), now);
  }

  // On an ordered log the last claim wins exactly when it is the only live one of its role.
  lemma AppendedWins(log: seq<Comment>, role: string, c: Comment, now: int)
    requires Increasing(log + [c]) && Tidy(log) && !c.resets && OldestIsFresh(log + [c], role, now)
    requires c.Claims(role) && !c.Closes(role)
    ensures Oldest(Pruned(log + [c], now), role) == Some(c) <==> LiveClaims(log, role) == []
  {
    TidyAfter(log, c);
    LiveAfterAppend(log, c, role);
    WinnerSurvivesPruningExactlyWhen(log + [c], role, now);
    FirstLiveIsOldest(log + [c], role);
    AppendedIsLast(log, c);
    LiveClaimsIncrease(log, role);
    if LiveClaims(log, role) != [] { assert LiveClaims(log, role)[0] in LiveClaims(log, role); }
  }

  lemma LeadsKeepsInvariant(w: World, t: World)
    requires Invariant(w) && Leads(w, t)
    ensures Invariant(t) && Exclusive(t)
  {
    var steps :| CanRun(w, steps) && Run(w, steps) == t;
    AppendClaimsExclude(w, steps);
  }

  lemma HandOverLeads(w: World, v: World, a: Agent, at: Stamp, to: Column)
    requires Leads(w, v) && v.At(a).Held? && Fits(v, CloseOf(a, at))
    ensures Leads(w, World(to, v.log + [CloseOf(a, at)], v.pc[a := Idle], v.taken))
  {
    StepLeads(w, v, Close(a, at));
    var v1 := Apply(v, Close(a, at));
    StepLeads(w, v1, Move(a, to));
    assert v.pc[a := Closed][a := Idle] == v.pc[a := Idle];
  }

  lemma ClosedRoundIsEmpty(log: seq<Comment>, a: Agent, at: Stamp)
    ensures LiveClaims(log + [CloseOf(a, at)], a.role) == []
  {
    LiveAfterAppend(log, CloseOf(a, at), a.role);
  }

  lemma OtherRolesClaimsDoNotCount(log: seq<Comment>, c: Comment, role: string)
    requires c.kind.ClaimNote? && !c.resets && role != "" && c.kind.claim.role != role
    ensures LiveClaims(log + [c], role) == LiveClaims(log, role)
  {
    LiveAfterAppend(log, c, role);
  }

  // Somebody still means to append, but the ticket has gone on and another stage works it.
  ghost predicate LeftBehind(w: World, late: Agent, worker: Agent) {
    w.At(late).Checked? && w.At(worker).Held? && worker != late && !InTime(w, late.role)
  }

  // Its own stage has handed the ticket on to another, which has not claimed it yet.
  ghost predicate HandedOn(w: World, late: Agent, next: Agent) {
    && w.At(late).Checked? && w.At(next).Idle? && w.column == ReadyOf(next.role)
    && LiveClaims(w.log, late.role) == [] && LiveClaims(w.log, next.role) == []
  }

  lemma HandingOnIsReachable(late: Agent, first: Agent, next: Agent)
    requires first != late && first.role == late.role && next.role != late.role && late.role != "" && next.role != ""
    ensures exists w :: Leads(Fresh(late.role), w) && HandedOn(w, late, next)
  {
    var w0 := Fresh(late.role);
    StartsHere(w0);
    StepLeads(w0, w0, Check(late));
    var w1 := Apply(w0, Check(late));
    var c1, close := ClaimOf(first, Stamp(0, 0, true), ""), CloseOf(first, Stamp(1, 1, true));
    UndisputedClaim(w0, w1, first, Stamp(0, 0, true));
    var w2 := Taken(w1, first, c1);
    HandOverLeads(w0, w2, first, Stamp(1, 1, true), ReadyOf(next.role));
    var w3 := World(ReadyOf(next.role), w2.log + [close], w2.pc[first := Idle], w2.taken);
    ClosedRoundIsEmpty(w2.log, first, Stamp(1, 1, true));
    OtherRolesClaimsDoNotCount([], c1, next.role);
    LiveAfterAppend(w2.log, close, next.role);
    assert HandedOn(w3, late, next);
  }

  lemma LeavingBehindIsReachable(late: Agent, first: Agent, tester: Agent)
    requires first != late && first.role == late.role && tester.role != late.role
    requires late.role != "" && tester.role != ""
    ensures exists w :: Leads(Fresh(late.role), w) && LeftBehind(w, late, tester)
  {
    HandingOnIsReachable(late, first, tester);
    var w :| Leads(Fresh(late.role), w) && HandedOn(w, late, tester);
    FreshIsInvariant(late.role);
    LeadsKeepsInvariant(Fresh(late.role), w);
    var at := NextStamp(w.log);
    var c := ClaimOf(tester, at, "");
    NextStampFits(w.log, c);
    UndisputedClaim(Fresh(late.role), w, tester, at);
    OtherRolesClaimsDoNotCount(w.log, c, late.role);
    assert LeftBehind(Taken(w, tester, c), late, tester);
  }

  // An agent that saw the ticket waiting appends, reads itself back and takes it; both then work.
  ghost predicate BothWork(w: World, late: Agent, worker: Agent, at: Stamp) {
    var t := ClaimedUnasked(w, late, at, "", at.createdAt);
    w.At(late).Checked? && late != worker && t.At(late).Held? && t.At(worker).Held?
  }

  /** From a fresh ticket, one append that is not in time ends with two agents at work on it. */
  lemma LateAppendMakesTwoWorkers(late: Agent, first: Agent, tester: Agent)
    requires first != late && first.role == late.role && tester.role != late.role
    requires late.role != "" && tester.role != ""
    ensures exists w, at: Stamp :: Leads(Fresh(late.role), w) && BothWork(w, late, tester, at)
  {
    LeavingBehindIsReachable(late, first, tester);
    var w :| Leads(Fresh(late.role), w) && LeftBehind(w, late, tester);
    FreshIsInvariant(late.role);
    LeadsKeepsInvariant(Fresh(late.role), w);
    var at := NextStamp(w.log);
    var c := ClaimOf(late, at, "");
    NextStampFits(w.log, c);
    LiveAfterAppend(w.log, c, late.role);
    LateAppendTakesExactlyWhen(w, late, at, "", at.createdAt);
    assert BothWork(w, late, tester, at);
  }

  // ----- Claims too old to be read back -----

  // What stands once a claim ends an ordered log: that claim, and before it what stood already.
  lemma StandingWithTheLast(log: seq<Comment>, role: string, c: Comment, k: Comment)
    requires Increasing(log + [c]) && c.Claims(role) && !c.Closes(role)
    ensures Standing(log + [c], role, k) <==> k in LiveClaims(log, role) || k == c
    ensures k in LiveClaims(log, role) ==> Before(k, c)
  {
    LiveAfterAppend(log, c, role);
    AppendedIsLast(log, c);
    LiveClaimsStand(log + [c], role, k);
    LiveClaimsIncrease(log, role);
  }

  // The last claim of an ordered log wins exactly when every other live one has been pruned.
  lemma LastClaimWinsExactlyWhen(log: seq<Comment>, role: string, c: Comment, now: int)
    requires Increasing(log + [c]) && Tidy(log + [c]) && c.Claims(role) && !c.Closes(role) && !Stale(c, now)
    ensures Oldest(Pruned(log + [c], now), role) == Some(c) <==> forall k | k in LiveClaims(log, role) :: Stale(k, now)
  {
    DistinctWhenIncreasing(log + [c]);
    WinnerOfPruned(log + [c], role, now, c);
    forall k
      ensures Standing(log + [c], role, k) <==> k in LiveClaims(log, role) || k == c
      ensures k in LiveClaims(log, role) ==> Before(k, c)
    {
      StandingWithTheLast(log, role, c, k);
    }
  }

  /**
   When the oldest live claim may be old enough to be pruned, a claim appended in time beside an owner
   wins as well exactly when every live claim of its round is.
   */
  lemma OwnerIsOutlivedExactlyWhen(w: World, a: Agent, b: Agent, at: Stamp, runId: string, now: int)
    requires Invariant(w) && (w.At(a).Won? || w.At(a).Held?) && w.At(b).Checked? && b.role == a.role
    requires Fits(w, ClaimOf(b, at, runId)) && !Stale(ClaimOf(b, at, runId), now)
    ensures var t := Apply(Apply(w, Append(b, at, runId)), ReadBack(b, now));
      && InTime(w, b.role) && t.At(a) == w.At(a)
      && (t.At(b).Won? <==> forall k | k in LiveClaims(w.log, b.role) :: Stale(k, now))
  {
    assert Knows(w, a);
    TidyAfter(w.log, ClaimOf(b, at, runId));
    AppendedReadsBack(w, b, at, runId, now);
    LastClaimWinsExactlyWhen(w.log, b.role, ClaimOf(b, at, runId), now);
  }

  // The owner has been at work for longer than a claim is believed, and a second claim wins.
  ghost predicate Outlived(w: World, a: Agent, b: Agent, at: Stamp) {
    var t := Apply(Apply(w, Append(b, at, "")), ReadBack(b, at.createdAt));
    w.At(b).Checked? && InTime(w, b.role) && t.At(a).Held? && t.At(b).Won?
  }

  predicate HasHeld(w: World, a: Agent, b: Agent, c: Comment) {
    w.log == [c] && w.At(a) == Held(c) && w.At(b).Checked?
  }

  lemma HeldWhileAnotherWaits(a: Agent, b: Agent, at: Stamp)
    requires a != b && a.role == b.role && a.role != ""
    ensures exists w :: Leads(Fresh(a.role), w) && HasHeld(w, a, b, ClaimOf(a, at, ""))
  {
    var w0, c := Fresh(a.role), ClaimOf(a, at, "");
    StartsHere(w0);
    StepLeads(w0, w0, Check(b));
    var w1 := Apply(w0, Check(b));
    UndisputedClaim(w0, w1, a, at);
    assert HasHeld(Taken(w1, a, c), a, b, c);
  }

  lemma MuchLaterClaimWins(w: World, a: Agent, b: Agent)
    requires Invariant(w) && b.role == a.role && HasHeld(w, a, b, ClaimOf(a, Stamp(0, YEAR_2000, true), ""))
    ensures Outlived(w, a, b, Stamp(0, YEAR_2000 + STALE_AFTER + 1, true))
  {
    var at := Stamp(0, YEAR_2000 + STALE_AFTER + 1, true);
    assert w.log == [] + [w.At(a).mine];
    LiveAfterAppend([], w.At(a).mine, b.role);
    PairFits(w, w.At(a).mine, ClaimOf(b, at, ""));
    OwnerIsOutlivedExactlyWhen(w, a, b, at, "", at.createdAt);
  }

  lemma PairFits(w: World, first: Comment, second: Comment)
    requires w.log == [first] && Before(first, second)
    ensures Fits(w, second)
  {}

  /** From a fresh ticket: an attempt that lasts longer than the stale window is joined by a second owner. */
  lemma LongAttemptIsOutlived(a: Agent, b: Agent)
    requires a != b && a.role == b.role && a.role != ""
    ensures exists w, at: Stamp :: Leads(Fresh(a.role), w) && Outlived(w, a, b, at)
  {
    HeldWhileAnotherWaits(a, b, Stamp(0, YEAR_2000, true));
    var w :| Leads(Fresh(a.role), w) && HasHeld(w, a, b, ClaimOf(a, Stamp(0, YEAR_2000, true), ""));
    FreshIsInvariant(a.role);
    LeadsKeepsInvariant(Fresh(a.role), w);
    MuchLaterClaimWins(w, a, b);
  }
}
