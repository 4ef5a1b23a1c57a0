/**
 What one more comment at the end of a ticket's log does to each of the questions asked of it
 (`internal/record/claim.go`), kind of comment by kind of comment.
 */
module LogSteps {
  import opened Wrappers
  import opened Record
  import opened Arbitration

  // The comment comes after everything said before.
  ghost predicate ComesLast(log: seq<Comment>, k: Comment) {
    DistinctKeys(log + [k]) && forall c | c in log :: Before(c, k)
  }

  lemma StandingAfterLast(log: seq<Comment>, k: Comment, role: string, c: Comment)
    requires ComesLast(log, k)
    ensures k.Closes(role) ==> !Standing(log + [k], role, c)
    ensures !k.Closes(role) && c != k ==> (Standing(log + [k], role, c) <==> Standing(log, role, c))
    ensures !k.Closes(role) && c == k ==> (Standing(log + [k], role, c) <==> k.Claims(role))
  {
    var all := log + [k];
    assert forall x :: x in all <==> x in log || x == k;
    if k.Closes(role) { assert k in all; }
    DistinctOfPrefix(log, k);
  }

  // The earliest claim that stands, or nobody.
  ghost predicate Wins(comments: seq<Comment>, role: string, w: Option<Comment>) {
    if w.Some? then
      Standing(comments, role, w.value) && forall c | Standing(comments, role, c) :: c == w.value || Before(w.value, c)
    else forall c :: !Standing(comments, role, c)
  }

  lemma OldestWins(comments: seq<Comment>, role: string)
    requires DistinctKeys(comments)
    ensures Wins(comments, role, Oldest(comments, role))
  {
    OldestIsEarliestStanding(comments, role);
  }

  lemma OneWins(comments: seq<Comment>, role: string, v: Option<Comment>, w: Option<Comment>)
    requires Wins(comments, role, v) && Wins(comments, role, w)
    ensures v == w
  {}

  lemma WinnerIsOldest(comments: seq<Comment>, role: string, w: Option<Comment>)
    requires DistinctKeys(comments) && Wins(comments, role, w)
    ensures Oldest(comments, role) == w
  {
    OldestWins(comments, role);
    OneWins(comments, role, Oldest(comments, role), w);
  }

  // In terms of the two questions asked of a comment.
  function After(before: Option<Comment>, k: Comment, role: string): Option<Comment> {
    if k.Closes(role) then None
    else if before.Some? || !k.Claims(role) then before
    else Some(k)
  }

  lemma WinsAfterLast(log: seq<Comment>, k: Comment, role: string, before: Option<Comment>)
    requires ComesLast(log, k) && Wins(log, role, before)
    ensures Wins(log + [k], role, After(before, k, role))
  {
    DistinctOfPrefix(log, k);
    forall c
      ensures k.Closes(role) ==> !Standing(log + [k], role, c)
      ensures !k.Closes(role) && c != k ==> (Standing(log + [k], role, c) <==> Standing(log, role, c))
      ensures !k.Closes(role) && c == k ==> (Standing(log + [k], role, c) <==> k.Claims(role))
    {
      StandingAfterLast(log, k, role, c);
    }
  }

  lemma OldestAfterLast(log: seq<Comment>, k: Comment, role: string)
    requires ComesLast(log, k)
    ensures Oldest(log + [k], role) == After(Oldest(log, role), k, role)
  {
    DistinctOfPrefix(log, k);
    var before := Oldest(log, role);
    OldestWins(log, role);
    WinsAfterLast(log, k, role, before);
    WinnerIsOldest(log + [k], role, After(before, k, role));
  }

  /**
   For one role: a hand-back or that role's readable close leaves no winner; that role's readable claim
   wins if nobody else does; and everything else -- text, another role's close, an unreadable close,
   another role's claim, an unreadable claim -- leaves the winner as it was.
   */
  lemma OneMoreCommentForARole(log: seq<Comment>, k: Comment, role: string)
    requires ComesLast(log, k) && role != ""
    ensures Oldest(log + [k], role) ==
            if k.resets then None
            else match k.kind
                 case CloseNote(r) => if r == role then None else Oldest(log, role)
                 case ClaimNote(c) => if c.role == role && Oldest(log, role) == None then Some(k) else Oldest(log, role)
                 case UnreadableClose => Oldest(log, role)
                 case UnreadableClaim => Oldest(log, role)
                 case Text => Oldest(log, role)
  {
    OldestAfterLast(log, k, role);
  }

  /** For the ticket as a whole every close ends the round, readable or not, and every readable claim counts. */
  lemma OneMoreCommentForAnyRole(log: seq<Comment>, k: Comment)
    requires ComesLast(log, k)
    ensures Oldest(log + [k], "") ==
            if k.resets then None
            else match k.kind
                 case CloseNote(_) => None
                 case UnreadableClose => None
                 case ClaimNote(_) => if Oldest(log, "") == None then Some(k) else Oldest(log, "")
                 case UnreadableClaim => Oldest(log, "")
                 case Text => Oldest(log, "")
  {
    OldestAfterLast(log, k, "");
  }

  /** A note that ends nothing for the role leaves its winner as it was, wherever its stamp puts it. */
  lemma OtherNotesChangeNoWinner(log: seq<Comment>, k: Comment, role: string)
    requires DistinctKeys(log + [k]) && role != "" && !k.resets
    requires k.kind == Text || k.kind == UnreadableClose || k.kind == UnreadableClaim
             || (k.kind.CloseNote? && k.kind.role != role) || (k.kind.ClaimNote? && k.kind.claim.role != role)
    ensures Oldest(log + [k], role) == Oldest(log, role)
  {
    DistinctOfPrefix(log, k);
    OldestWins(log, role);
    WinsBesideInert(log, k, role, Oldest(log, role));
    WinnerIsOldest(log + [k], role, Oldest(log, role));
  }

  lemma WinsBesideInert(log: seq<Comment>, k: Comment, role: string, w: Option<Comment>)
    requires Wins(log, role, w) && !k.Closes(role) && !k.Claims(role)
    ensures Wins(log + [k], role, w)
  {
    assert forall x :: x in log + [k] <==> x in log || x == k;
    forall c ensures Standing(log + [k], role, c) <==> Standing(log, role, c) {}
  }

  /** An empty log has no winner, so the steps above say who wins any log. */
  lemma NobodyWinsAnEmptyLog(role: string)
    ensures Oldest([], role) == None
  {
    OldestIsEarliestStanding([], role);
  }

  /** Of two claims of a role the earlier wins, and of two of one instant the one with the smaller id. */
  lemma EarlierOfTwoWins(a: Comment, b: Comment, role: string)
    requires role != "" && !a.resets && !b.resets
    requires a.kind.ClaimNote? && a.kind.claim.role == role && b.kind.ClaimNote? && b.kind.claim.role == role
    requires a.createdAt < b.createdAt || (a.createdAt == b.createdAt && a.id < b.id)
    ensures Oldest([a, b], role) == Some(a) && Oldest([b, a], role) == Some(a)
  {
    EarlierWins([a, b], a, b, role);
    EarlierWins([b, a], a, b, role);
  }

  lemma EarlierWins(both: seq<Comment>, a: Comment, b: Comment, role: string)
    requires (both == [a, b] || both == [b, a]) && Before(a, b) && a.Claims(role) && !a.Closes(role) && !b.Closes(role)
    ensures Oldest(both, role) == Some(a)
  {
    assert DistinctKeys(both);
    assert a in both && forall c :: c in both <==> c == a || c == b;
    WinnerIsOldest(both, role, Some(a));
  }

  // ----- Who holds the ticket -----

  /** The holder is what the winning claim of any role says, and nobody holds a ticket parked in no such column. */
  lemma HolderIsTheWinner(comments: seq<Comment>, held: bool)
    requires DistinctKeys(comments)
    ensures HeldBy(comments, held).Some? <==> held && Oldest(comments, "").Some?
    ensures HeldBy(comments, held).Some? ==>
      var w := Oldest(comments, "").value;
      w in comments && w.kind == ClaimNote(HeldBy(comments, held).value)
  {
    OldestIsEarliestStanding(comments, "");
  }

  // ----- Attempts -----

  /** A hand-back starts the count again, a readable claim of the role adds one, nothing else counts. */
  lemma OneMoreAttempt(log: seq<Comment>, k: Comment, role: string)
    requires Increasing(log + [k])
    ensures AttemptsOf(log + [k], role) ==
            if k.resets then 0
            else match k.kind
                 case ClaimNote(c) => AttemptsOf(log, role) + if c.role == role then 1 else 0
                 case UnreadableClaim => AttemptsOf(log, role)
                 case CloseNote(_) => AttemptsOf(log, role)
                 case UnreadableClose => AttemptsOf(log, role)
                 case Text => AttemptsOf(log, role)
  {
    AppendedIsLast(log, k);
    InOrder(log, role);
    InOrder(log + [k], role);
    AttemptsInLonger(log, k, role);
  }

  lemma NothingAttempted(role: string)
    ensures AttemptsOf([], role) == 0
  {
    InOrder([], role);
  }

  lemma InOrder(log: seq<Comment>, role: string)
    requires Increasing(log)
    ensures AttemptsOf(log, role) == AttemptsIn(log, role)
  {
    OrderedOfIncreasing(log);
  }

  lemma AttemptsInLonger(log: seq<Comment>, k: Comment, role: string)
    ensures AttemptsIn(log + [k], role) ==
            if k.resets then 0
            else AttemptsIn(log, role) + if k.kind.ClaimNote? && k.kind.claim.role == role then 1 else 0
  {
    assert (log + [k])[..|log|] == log;
  }

  // ----- Staleness -----

  /**
   Pruning drops exactly the comments that open as claims, readable or not, are dated after the year 1999,
   and are more than 45 minutes old.
   */
  lemma PruningDrops(comments: seq<Comment>, now: int, c: Comment)
    ensures c in Pruned(comments, now) <==>
      && c in comments
      && !(&& (c.kind.ClaimNote? || c.kind.UnreadableClaim?)
           && c.createdAt >= 946_684_800_000_000_000
           && now - c.createdAt > 2_700_000_000_000)
  {
    PrunedKeepsTheFresh(comments, now, c);
  }
}
