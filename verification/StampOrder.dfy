/**
 Claiming by append rests on the store's stamps: comment keys that follow append order
 (`claimByAppend` in `internal/platform/claim.go`, `OldestForRole` in `internal/record/claim.go`).
 The exact ways in which one comment stamped out of order gives a ticket two owners, and a run for each.
 */
module StampOrder {
  import opened Wrappers
  import opened Record
  import opened Stages
  import opened Arbitration
  import opened AppendClaims
  import opened AppendRuns

  // ----- Reading back, whatever the keys -----

  lemma ReadBackWins(w: World, b: Agent, now: int)
    requires w.At(b).Appended?
    ensures var t := Apply(w, ReadBack(b, now)); var m := w.At(b).mine;
      && t.At(b) == (if Oldest(Pruned(w.log, now), b.role) == Some(m) then Won(m) else Idle)
      && SameElsewhere(w, t, b)
  {
    ReadBackPuts(w, b, w.At(b).mine, now);
  }

  /** In any world at all, a claim reads itself back exactly when it is the earliest that stands and is fresh. */
  lemma ReadBackWinsExactlyWhen(w: World, b: Agent, now: int)
    requires w.At(b).Appended? && DistinctKeys(w.log) && Tidy(w.log)
    ensures var m := w.At(b).mine;
      Apply(w, ReadBack(b, now)).At(b).Won? <==>
      && Standing(w.log, b.role, m) && !Stale(m, now)
      && forall c | Standing(w.log, b.role, c) && !Stale(c, now) :: c == m || Before(m, c)
  {
    ReadBackWins(w, b, now);
    WinnerOfPruned(w.log, b.role, now, w.At(b).mine);
  }

  // ----- A claim whose key is too early -----

  // Whether a claim wins over a round that already has a winner, whatever its key.
  lemma SecondClaimWinsExactlyWhen(w: World, role: string, c: Comment, now: int)
    requires LogHolds(w) && role != "" && LiveClaims(w.log, role) != [] && DistinctKeys(w.log + [c])
    requires c.Claims(role) && !c.resets && !c.Closes(role)
    requires OldestIsFresh(w.log, role, now) && !Stale(c, now)
    ensures Oldest(Pruned(w.log + [c], now), role) == Some(c) <==>
      Before(c, LiveClaims(w.log, role)[0]) && forall k | k in w.log && k.Closes(role) :: Before(k, c)
  {
    TidyAfter(w.log, c);
    WinnerOfPruned(w.log + [c], role, now, c);
    assert forall k :: k in w.log + [c] <==> k in w.log || k == c;
    if forall k | k in w.log && k.Closes(role) :: Before(k, c) {
      WinnerSurvivesPruningExactlyWhen(w.log, role, now);
      FirstLiveIsOldest(w.log, role);
      SecondWinnerExactlyWhen(w.log, role, LiveClaims(w.log, role)[0], c, now, now);
    }
  }

  /**
   When the store's keys need not follow append order, a claim appended after another agent has won
   wins as well, giving the ticket two owners, exactly when its key comes before the winner's and
   after every close of the role.
   */
  lemma TieGivesTwoOwnersExactlyWhen(w: World, a: Agent, b: Agent, at: Stamp, runId: string, now: int)
    requires Invariant(w) && w.At(a).Won? && w.At(b).Checked? && b.role == a.role
    requires DistinctKeys(w.log + [ClaimOf(b, at, runId)])
    requires !Stale(w.At(a).mine, now) && !Stale(ClaimOf(b, at, runId), now)
    ensures var c := ClaimOf(b, at, runId); var t := Apply(Apply(w, Append(b, at, runId)), ReadBack(b, now));
      && (t.At(b).Won? <==> Before(c, w.At(a).mine) && forall k | k in w.log && k.Closes(b.role) :: Before(k, c))
      && t.At(a) == w.At(a)
  {
    assert Knows(w, a);
    AppendedReadsBack(w, b, at, runId, now);
    SecondClaimWinsExactlyWhen(w, b.role, ClaimOf(b, at, runId), now);
  }

  // ----- One comment out of order -----

  // The comment a step writes.
  function NoteOf(step: Step): Comment
    requires Writes(step)
  {
    match step
    case Append(a, at, run) => ClaimOf(a, at, run)
    case Forgive(_, at) => HandBack(at)
    case Close(a, at) => CloseOf(a, at)
    case Clear(_, at) => HandBack(at)
    case Remark(c) => c
  }

  predicate Writes(step: Step) {
    step.Append? || step.Forgive? || step.Close? || step.Clear? || step.Remark?
  }

  // As Enabled, for a step that writes, but the store may put the comment anywhere.
  ghost predicate EnabledAnywhere(w: World, step: Step) {
    && Writes(step) && DistinctKeys(w.log + [NoteOf(step)])
    && match step
       case Append(a, _, _) => w.At(a).Checked? && InTime(w, a.role)
       case Forgive(a, _) => w.At(a).Held?
       case Close(a, _) => w.At(a).Held? || w.At(a).Forgiven?
       case Clear(a, _) => w.At(a).Matched?
       case Remark(c) => !c.Closes("") && !c.Claims("")
       case _ => false
  }

  ghost predicate IsOwned(w: World) {
    exists a :: w.At(a).Owns()
  }

  // A claim on an owned ticket is put before the claim that won it, and after every end of a round.
  ghost predicate ClaimTooEarly(w: World, step: Step, b: Agent, now: int) {
    && step.Append? && step.a == b && IsOwned(w)
    && var c, live := NoteOf(step), LiveClaims(w.log, b.role);
       live != [] && !Stale(c, now) && Before(c, live[0]) && forall k | k in w.log && k.Closes(b.role) :: Before(k, c)
  }

  // The end of a round is put before a claim that waits to be read back, and before no fresh one ahead of it.
  ghost predicate EndTooEarly(w: World, step: Step, b: Agent, now: int) {
    && (step.Forgive? || step.Close? || step.Clear?) && w.At(b).Appended?
    && var end, m, live := NoteOf(step), w.At(b).mine, LiveClaims(w.log, b.role);
       && m in live && !Stale(m, now) && Before(end, m)
       && forall k | k in live && !Stale(k, now) && Before(end, k) :: k == m || Before(m, k)
  }

  lemma OneOwnerUnless(w: World, t: World, b: Agent)
    requires OneOwner(w) && SameElsewhere(w, t, b) && !w.At(b).Owns()
    ensures OneOwner(t) <==> !(t.At(b).Owns() && IsOwned(w))
  {
    if t.At(b).Owns() && IsOwned(w) {
      var a :| w.At(a).Owns();
      assert t.At(a).Owns() && a != b;
    } else {
      forall x, y | t.At(x).Owns() && t.At(y).Owns() ensures x == y {
        assert x != b ==> w.At(x).Owns();
        assert y != b ==> w.At(y).Owns();
      }
    }
  }

  // A ticket with no live claim is not owned while it waits in a Ready column.
  lemma UnclaimedIsNotOwned(w: World, role: string)
    requires Invariant(w) && Live(w) == [] && w.column == ReadyOf(role)
    ensures !IsOwned(w)
  {
    forall a ensures !w.At(a).Owns() { assert Knows(w, a); }
  }

  // Whether the claim wins, on a ticket somebody owns.
  lemma EarlyClaimWins(w: World, step: Step, b: Agent, now: int)
    requires Invariant(w) && step.Append? && step.a == b && EnabledAnywhere(w, step)
    requires OldestIsFresh(w.log, b.role, now)
    ensures IsOwned(w) ==>
      (Oldest(Pruned(w.log + [NoteOf(step)], now), b.role) == Some(NoteOf(step)) <==> ClaimTooEarly(w, step, b, now))
  {
    var c := NoteOf(step);
    assert b.role != "" by { assert Knows(w, b); }
    ClaimJoinsItsRound(w, b.role);
    if LiveClaims(w.log, b.role) == [] {
      assert Live(w) == [];
      UnclaimedIsNotOwned(w, b.role);
    } else if Stale(c, now) {
      StaleNeverWins(w, b.role, c, now);
    } else {
      SecondClaimWinsExactlyWhen(w, b.role, c, now);
    }
  }

  lemma EarlyClaim(w: World, step: Step, b: Agent, now: int)
    requires Invariant(w) && step.Append? && step.a == b && EnabledAnywhere(w, step)
    requires OldestIsFresh(w.log, b.role, now)
    ensures OneOwner(Apply(Apply(w, step), ReadBack(b, now))) <==> !ClaimTooEarly(w, step, b, now)
  {
    AppendedReadsBack(w, b, step.at, step.runId, now);
    OneOwnerUnless(w, Apply(Apply(w, step), ReadBack(b, now)), b);
    EarlyClaimWins(w, step, b, now);
  }

  lemma StaleNeverWins(w: World, role: string, c: Comment, now: int)
    requires Tidy(w.log) && !c.resets && DistinctKeys(w.log + [c]) && Stale(c, now)
    ensures Oldest(Pruned(w.log + [c], now), role) != Some(c)
  {
    TidyAfter(w.log, c);
    WinnerOfPruned(w.log + [c], role, now, c);
  }

  // Where an owner ends its round: it keeps the ticket, and everybody else stays as they are.
  lemma EnderKeepsTheTicket(w: World, step: Step)
    requires Invariant(w) && EnabledAnywhere(w, step) && (step.Forgive? || step.Close? || step.Clear?)
    ensures var t := Apply(w, step);
      && t.At(step.a).Owns() && w.At(step.a).Owns() && SameElsewhere(w, t, step.a) && t.log == w.log + [NoteOf(step)]
  {
    PutElsewhere(w, Apply(w, step), step.a, Apply(w, step).At(step.a));
  }

  // Whose claims the end of an owner's round ends: those of every role that has any.
  lemma EndClosesWhatIsLive(w: World, step: Step, role: string)
    requires Invariant(w) && EnabledAnywhere(w, step) && (step.Forgive? || step.Close? || step.Clear?) && role != ""
    ensures NoteOf(step).Closes(role) || LiveClaims(w.log, role) == []
  {
    if step.Close? { OwnerInItsRound(w, step.a); }
  }

  lemma EndReadBack(w: World, step: Step, b: Agent, now: int)
    requires Invariant(w) && EnabledAnywhere(w, step) && (step.Forgive? || step.Close? || step.Clear?)
    requires w.At(b).Appended? && b.role != ""
    ensures Oldest(Pruned(w.log + [NoteOf(step)], now), b.role) == Some(w.At(b).mine) <==> EndTooEarly(w, step, b, now)
  {
    var end, m := NoteOf(step), w.At(b).mine;
    EndClosesWhatIsLive(w, step, b.role);
    assert IsClaimOf(m, b) && !end.IsClaim() by { assert Knows(w, b); }
    if end.Closes(b.role) {
      PendingClaimWinsExactlyWhen(w.log, b.role, end, m, now);
    } else {
      NobodyWinsBesideNote(w, b.role, end, m, now);
    }
  }

  lemma NobodyWinsBesideNote(w: World, role: string, note: Comment, m: Comment, now: int)
    requires LogHolds(w) && LiveClaims(w.log, role) == [] && DistinctKeys(w.log + [note])
    requires !note.Closes(role) && !note.IsClaim() && m != note
    ensures Oldest(Pruned(w.log + [note], now), role) != Some(m)
  {
    TidyAfter(w.log, note);
    if Oldest(Pruned(w.log + [note], now), role) == Some(m) {
      WinnerBesideNote(w.log, role, note, m, now);
      NobodyWinsWithoutClaims(w.log, role, now);
    }
  }

  lemma EndThenReadBack(w: World, step: Step, b: Agent, now: int)
    requires Invariant(w) && EnabledAnywhere(w, step) && (step.Forgive? || step.Close? || step.Clear?)
    requires w.At(b).Appended? && b != step.a
    ensures var v := Apply(w, step); var t := Apply(v, ReadBack(b, now));
      && t.At(b) == (if EndTooEarly(w, step, b, now) then Won(w.At(b).mine) else Idle)
      && SameElsewhere(v, t, b) && v.At(b) == w.At(b)
  {
    var v := Apply(w, step);
    EnderKeepsTheTicket(w, step);
    assert v.At(b) == w.At(b);
    assert b.role != "" by { assert Knows(w, b); }
    ReadBackWins(v, b, now);
    EndReadBack(w, step, b, now);
  }

  lemma EnderIsAlone(w: World, step: Step)
    requires Invariant(w) && EnabledAnywhere(w, step) && (step.Forgive? || step.Close? || step.Clear?)
    ensures OneOwner(Apply(w, step)) && IsOwned(Apply(w, step))
  {
    var a, v := step.a, Apply(w, step);
    EnderKeepsTheTicket(w, step);
    OwnerIsAlone(w, a);
    forall x, y | v.At(x).Owns() && v.At(y).Owns() ensures x == y {
      assert x != a ==> v.At(x) == w.At(x);
      assert y != a ==> v.At(y) == w.At(y);
    }
  }

  lemma EarlyEnd(w: World, step: Step, b: Agent, now: int)
    requires Invariant(w) && EnabledAnywhere(w, step) && (step.Forgive? || step.Close? || step.Clear?)
    requires Apply(w, step).At(b).Appended?
    ensures OneOwner(Apply(Apply(w, step), ReadBack(b, now))) <==> !EndTooEarly(w, step, b, now)
  {
    var v := Apply(w, step);
    EnderKeepsTheTicket(w, step);
    assert b != step.a && v.At(b) == w.At(b);
    EndThenReadBack(w, step, b, now);
    EnderIsAlone(w, step);
    OneOwnerUnless(v, Apply(v, ReadBack(b, now)), b);
  }

  lemma WinnerBesideNoteIsAlone(w: World, note: Comment, b: Agent, m: Comment, now: int)
    requires Invariant(w) && w.At(b) == Appended(m) && OldestIsFresh(w.log, b.role, now)
    requires DistinctKeys(w.log + [note]) && !note.resets && !note.Closes(b.role) && m != note
    requires Oldest(Pruned(w.log + [note], now), b.role) == Some(m)
    ensures NoOtherOwner(w, b)
  {
    assert Knows(w, b);
    TidyAfter(w.log, note);
    WinnerBesideNote(w.log, b.role, note, m, now);
    ReadBackNamesTheFirst(w, b.role, m, now);
    UntakenHasNoOwner(w, b, m);
  }

  // It is not the waiting claim, and it ends no round of its role.
  lemma NoteIsAnothers(w: World, step: Step, b: Agent)
    requires Invariant(w) && EnabledAnywhere(w, step) && w.At(b).Appended?
    requires step.Remark? || (step.Append? && step.a != b)
    ensures !NoteOf(step).resets && !NoteOf(step).Closes(b.role) && w.At(b).mine != NoteOf(step)
  {
    assert Knows(w, b);
  }

  lemma NotesPutNobody(w: World, step: Step, b: Agent)
    requires OneOwner(w) && EnabledAnywhere(w, step) && (step.Remark? || (step.Append? && step.a != b))
    ensures var v := Apply(w, step);
      && v.At(b) == w.At(b) && v.log == w.log + [NoteOf(step)] && OneOwner(v)
      && forall x :: v.At(x).Owns() ==> w.At(x).Owns()
  {
    var v := Apply(w, step);
    if step.Append? { PutElsewhere(w, v, step.a, v.At(step.a)); }
    forall x ensures v.At(x).Owns() ==> w.At(x).Owns() {
      assert step.Remark? || x != step.a ==> v.At(x) == w.At(x);
    }
    forall x, y | v.At(x).Owns() && v.At(y).Owns() ensures x == y { assert w.At(x).Owns() && w.At(y).Owns(); }
  }

  lemma ReadBackBesideNote(w: World, v: World, note: Comment, b: Agent, m: Comment, now: int)
    requires Invariant(w) && w.At(b) == Appended(m) && OldestIsFresh(w.log, b.role, now)
    requires DistinctKeys(w.log + [note]) && !note.resets && !note.Closes(b.role) && m != note
    requires v.log == w.log + [note] && v.At(b) == Appended(m) && OneOwner(v)
    requires forall x :: v.At(x).Owns() ==> w.At(x).Owns()
    ensures OneOwner(Apply(v, ReadBack(b, now)))
  {
    var t := Apply(v, ReadBack(b, now));
    ReadBackWins(v, b, now);
    OneOwnerUnless(v, t, b);
    if t.At(b).Won? {
      WinnerBesideNoteIsAlone(w, note, b, m, now);
      assert forall x :: v.At(x).Owns() ==> x != b;
    }
  }

  // Somebody else's claim, or a remark, gives nobody a second owner wherever it is put.
  lemma OtherNotesDoNoHarm(w: World, step: Step, b: Agent, now: int)
    requires Invariant(w) && EnabledAnywhere(w, step) && OldestIsFresh(w.log, b.role, now)
    requires step.Remark? || (step.Append? && step.a != b)
    requires Apply(w, step).At(b).Appended?
    ensures OneOwner(Apply(Apply(w, step), ReadBack(b, now)))
  {
    NotesPutNobody(w, step, b);
    NoteIsAnothers(w, step, b);
    ReadBackBesideNote(w, Apply(w, step), NoteOf(step), b, w.At(b).mine, now);
  }

  /**
   From any world of the protocol, one comment that the store stamps out of order lets a claim read back
   next make a second owner in exactly two ways: the claim itself is put before the winner's, or the end
   of the owner's round is put before the claim.
   */
  lemma OneStampGivesTwoOwnersExactlyWhen(w: World, step: Step, b: Agent, now: int)
    requires Invariant(w) && EnabledAnywhere(w, step) && OldestIsFresh(w.log, b.role, now)
    requires Apply(w, step).At(b).Appended?
    ensures !OneOwner(Apply(Apply(w, step), ReadBack(b, now))) <==>
            ClaimTooEarly(w, step, b, now) || EndTooEarly(w, step, b, now)
  {
    if step.Append? && step.a == b {
      EarlyClaim(w, step, b, now);
    } else if step.Append? || step.Remark? {
      OtherNotesDoNoHarm(w, step, b, now);
    } else {
      EarlyEnd(w, step, b, now);
    }
  }

  // ----- Two claims of one instant -----

  predicate HasWon(w: World, a: Agent, b: Agent, c: Comment) {
    w.log == [c] && w.At(a) == Won(c) && w.At(b).Checked?
  }

  // One agent has won, and another's claim with the same time reads itself back too.
  ghost predicate BothWin(w: World, a: Agent, b: Agent, at: Stamp) {
    var t := Apply(Apply(w, Append(b, at, "")), ReadBack(b, 0));
    w.At(a).Won? && at.createdAt == w.At(a).mine.createdAt && t.At(a).Won? && t.At(b).Won?
  }

  lemma WonAgainstTheClock(a: Agent, b: Agent)
    requires a != b && a.role == b.role && a.role != ""
    ensures exists w :: Leads(Fresh(a.role), w) && HasWon(w, a, b, ClaimOf(a, Stamp(1, 0, true), ""))
  {
    var w0, c := Fresh(a.role), ClaimOf(a, Stamp(1, 0, true), "");
    StartsHere(w0);
    StepLeads(w0, w0, Check(b));
    var w1 := Apply(w0, Check(b));
    AppendLeads(w0, w1, a, Stamp(1, 0, true));
    var w2 := World(w1.column, w1.log + [c], w1.pc[a := Appended(c)], w1.taken);
    LoneReadBackLeads(w0, w2, w1.log, a, c);
    assert HasWon(w2.Put(a, Won(c)), a, b, c);
  }

  /** From a fresh ticket: two claims of one instant, the later written with the smaller id, and two winners. */
  lemma TieMakesTwoWinners(a: Agent, b: Agent)
    requires a != b && a.role == b.role && a.role != ""
    ensures exists w :: Leads(Fresh(a.role), w) && BothWin(w, a, b, Stamp(0, 0, true))
  {
    WonAgainstTheClock(a, b);
    var w :| Leads(Fresh(a.role), w) && HasWon(w, a, b, ClaimOf(a, Stamp(1, 0, true), ""));
    FreshIsInvariant(a.role);
    LeadsKeepsInvariant(Fresh(a.role), w);
    EarlierKeyWinsToo(w, a, b);
  }

  lemma EarlierKeyWinsToo(w: World, a: Agent, b: Agent)
    requires Invariant(w) && b.role == a.role && HasWon(w, a, b, ClaimOf(a, Stamp(1, 0, true), ""))
    ensures BothWin(w, a, b, Stamp(0, 0, true))
  {
    TieGivesTwoOwnersExactlyWhen(w, a, b, Stamp(0, 0, true), "", 0);
  }

  // ----- A close put before a claim that waits -----

  predicate HeldAndPending(w: World, a: Agent, b: Agent, first: Comment, second: Comment) {
    w.log == [first] + [second] && w.At(a) == Held(first) && w.At(b) == Appended(second)
  }

  lemma PendingBesideHolder(a: Agent, b: Agent, first: Comment, second: Comment)
    requires a != b && a.role == b.role && a.role != ""
    requires first == ClaimOf(a, Stamp(1, 0, true), "") && second == ClaimOf(b, Stamp(7, 5, true), "")
    ensures exists w :: Leads(Fresh(a.role), w) && HeldAndPending(w, a, b, first, second)
  {
    HeldWhileAnotherWaits(a, b, Stamp(1, 0, true));
    var w :| Leads(Fresh(a.role), w) && HasHeld(w, a, b, first);
    assert w.log == [] + [first];
    LiveAfterAppend([], first, b.role);
    PairFits(w, first, second);
    StepLeads(Fresh(a.role), w, Append(b, Stamp(7, 5, true), ""));
    var t := Apply(w, Append(b, Stamp(7, 5, true), ""));
    PutElsewhere(w, t, b, Appended(second));
    assert t.log == [first] + [second];
    assert HeldAndPending(t, a, b, first, second);
  }

  // The holder closes its round with a stamp below the pending claim's, which then reads itself back.
  ghost predicate ClosedUnderneath(w: World, a: Agent, b: Agent, at: Stamp) {
    var t := Apply(Apply(w, Close(a, at)), ReadBack(b, 6));
    && w.At(a).Held? && w.At(b).Appended? && Before(w.At(a).mine, w.At(b).mine)
    && EnabledAnywhere(w, Close(a, at)) && t.At(a).Closed? && t.At(b).Won?
  }

  lemma LiveOfTwo(w: World, a: Agent, b: Agent, first: Comment, second: Comment)
    requires HeldAndPending(w, a, b, first, second) && IsClaimOf(first, a) && IsClaimOf(second, b) && a.role == b.role
    requires !first.resets && !second.resets
    ensures LiveClaims(w.log, b.role) == [first, second]
  {
    assert [first] == [] + [first];
    LiveAfterAppend([], first, b.role);
    LiveAfterAppend([first], second, b.role);
  }

  lemma CloseBetween(w: World, a: Agent, b: Agent, first: Comment, second: Comment, at: Stamp, now: int)
    requires Invariant(w) && a != b && a.role == b.role && HeldAndPending(w, a, b, first, second)
    requires Before(first, CloseOf(a, at)) && Before(CloseOf(a, at), second) && !Stale(second, now)
    ensures EnabledAnywhere(w, Close(a, at)) && EndTooEarly(w, Close(a, at), b, now)
  {
    assert Knows(w, a) && Knows(w, b);
    assert !first.resets && !second.resets by { assert first in w.log && second in w.log; }
    LiveOfTwo(w, a, b, first, second);
  }

  lemma EndTooEarlyIsClosedUnderneath(w: World, a: Agent, b: Agent, at: Stamp)
    requires Invariant(w) && w.At(a).Held? && w.At(b).Appended? && Before(w.At(a).mine, w.At(b).mine)
    requires EnabledAnywhere(w, Close(a, at)) && EndTooEarly(w, Close(a, at), b, 6)
    ensures ClosedUnderneath(w, a, b, at)
  {
    EndThenReadBack(w, Close(a, at), b, 6);
    PutElsewhere(w, Apply(w, Close(a, at)), a, Closed);
  }

  /** From a fresh ticket: every claim is in order, the holder's close is not, and the ticket has two owners. */
  lemma EarlyCloseMakesTwoOwners(a: Agent, b: Agent)
    requires a != b && a.role == b.role && a.role != ""
    ensures exists w :: Leads(Fresh(a.role), w) && ClosedUnderneath(w, a, b, Stamp(3, 5, true))
  {
    var first, second := ClaimOf(a, Stamp(1, 0, true), ""), ClaimOf(b, Stamp(7, 5, true), "");
    PendingBesideHolder(a, b, first, second);
    var w :| Leads(Fresh(a.role), w) && HeldAndPending(w, a, b, first, second);
    FreshIsInvariant(a.role);
    LeadsKeepsInvariant(Fresh(a.role), w);
    CloseBetween(w, a, b, first, second, Stamp(3, 5, true), 6);
    EndTooEarlyIsClosedUnderneath(w, a, b, Stamp(3, 5, true));
  }
}
