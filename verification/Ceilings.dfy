/**
 The two places that ask whether a ticket has attempts left (`internal/dispatch/dispatch.go`):
 selection refuses a ticket whose spent attempts reach the ceiling, and `Destination` escalates a
 failed one at the same point. The routing itself is `internal/workflow/outcome.go`.
 */
module Ceilings {
  import opened Wrappers
  import opened Record

  datatype Outcome = Success | Failed | Abandoned | Conflicted | Blocked | Returned | Handled

  datatype Stage = Stage(ready: string, working: string, success: string, exhausted: string, handsBack: string) {
    // "" means: do not move the ticket.
    function Destination(outcome: Outcome, retriesLeft: bool): string {
      match outcome
      case Success => success
      case Handled => ""
      case Conflicted => "conflicted"
      case Blocked => exhausted
      case Returned => if handsBack == "" then exhausted else handsBack
      case Abandoned => ready
      case Failed => if retriesLeft then ready else exhausted
    }
  }

  /** Where each outcome sends the ticket; the empty column means that it stays. */
  lemma DestinationByOutcome(st: Stage, retriesLeft: bool)
    ensures st.Destination(Success, retriesLeft) == st.success
    ensures st.Destination(Handled, retriesLeft) == ""
    ensures st.Destination(Conflicted, retriesLeft) == "conflicted"
    ensures st.Destination(Blocked, retriesLeft) == st.exhausted
    ensures st.handsBack != "" ==> st.Destination(Returned, retriesLeft) == st.handsBack
    ensures st.handsBack == "" ==> st.Destination(Returned, retriesLeft) == st.exhausted
    ensures st.Destination(Abandoned, retriesLeft) == st.ready
    ensures st.Destination(Failed, true) == st.ready
    ensures st.Destination(Failed, false) == st.exhausted
  {}

  // Attempts really used: claims minus the ones whose process is gone.
  function Spent(log: seq<Comment>, role: string, now: int): nat {
    AttemptsOf(Pruned(log, now), role)
  }

  // The half of eligibility that depends on the log.
  predicate UnderCeiling(log: seq<Comment>, role: string, max: nat, now: int) {
    Spent(log, role, now) < max
  }

  function Destination(st: Stage, log: seq<Comment>, role: string, max: nat, now: int, outcome: Outcome): string {
    st.Destination(outcome, UnderCeiling(log, role, max, now))
  }

  // ----- Later polls -----

  lemma SpentCounts(log: seq<Comment>, role: string, now: int)
    requires Increasing(log)
    ensures Spent(log, role, now) == |Record.Spent(Pruned(log, now), role)|
  {
    PrunedIncreases(log, now);
    DistinctWhenIncreasing(Pruned(log, now));
    AttemptsCountsSpent(Pruned(log, now), role);
  }

  lemma InPruned(log: seq<Comment>, now: int)
    ensures forall c :: c in Pruned(log, now) <==> c in log && !Stale(c, now)
  {
    forall c ensures c in Pruned(log, now) <==> c in log && !Stale(c, now) { PrunedKeepsTheFresh(log, now, c); }
  }

  lemma Subset(a: set<Comment>, b: set<Comment>)
    requires a <= b
    ensures |a| <= |b|
  {
    assert b == a + (b - a);
  }

  /**
   Whatever is said on the ticket afterwards -- closes, hand-backs, remarks, other roles' claims --
   and however much time passes, no attempt is charged until this role claims again.
   */
  lemma LaterPollsChargeNothing(log: seq<Comment>, more: seq<Comment>, role: string, now: int, later: int)
    requires Increasing(log + more) && now <= later
    requires forall c | c in log + more && c.IsClaim() :: !c.resets
    requires forall c | c in more :: !CountsFor(c, role)
    ensures Spent(log + more, role, later) <= Spent(log, role, now)
  {
    assert Increasing(log) by { PrefixIncreases(log, more); }
    SpentCounts(log, role, now);
    SpentCounts(log + more, role, later);
    InPruned(log, now);
    InPruned(log + more, later);
    Subset(Record.Spent(Pruned(log + more, later), role), Record.Spent(Pruned(log, now), role));
  }

  lemma PrefixIncreases(log: seq<Comment>, more: seq<Comment>)
    requires Increasing(log + more)
    ensures Increasing(log)
  {
    forall i, j | 0 <= i < j < |log| ensures Before(log[i], log[j]) {
      assert (log + more)[i] == log[i] && (log + more)[j] == log[j];
    }
  }

  /**
   The two ceilings agree: a failed attempt goes back to its queue exactly when a later poll will
   still take it, as long as nothing is handed back and no claim ages out in between.
   */
  lemma CeilingsAgree(st: Stage, log: seq<Comment>, more: seq<Comment>, role: string, max: nat, now: int, later: int)
    requires Increasing(log + more) && now <= later && st.ready != st.exhausted
    requires forall c | c in log + more && c.IsClaim() :: !c.resets
    requires forall c | c in more :: !CountsFor(c, role) && !c.resets
    requires forall c | c in log && CountsFor(c, role) :: Stale(c, later) ==> Stale(c, now)
    ensures Destination(st, log, role, max, now, Failed) == st.ready <==> UnderCeiling(log + more, role, max, later)
    ensures Destination(st, log, role, max, now, Failed) == st.exhausted <==>
            !UnderCeiling(log + more, role, max, later)
  {
    LaterPollsChargeNothing(log, more, role, now, later);
    PrefixIncreases(log, more);
    SpentCounts(log, role, now);
    SpentCounts(log + more, role, later);
    InPruned(log, now);
    InPruned(log + more, later);
    Subset(Record.Spent(Pruned(log, now), role), Record.Spent(Pruned(log + more, later), role));
  }

  lemma PrunedOneMore(log: seq<Comment>, c: Comment, now: int)
    ensures Pruned(log + [c], now) == Pruned(log, now) + if Stale(c, now) then [] else [c]
  {
    assert (log + [c])[..|log|] == log;
  }

  lemma AttemptsAfter(log: seq<Comment>, c: Comment, role: string)
    ensures AttemptsIn(log + [c], role) ==
      if c.resets then 0 else AttemptsIn(log, role) + if CountsFor(c, role) then 1 else 0
  {
    assert (log + [c])[..|log|] == log;
  }

  /**
   Why LaterPollsChargeNothing asks of a claim that it carries no hand-back marker: pruning such a
   comment at a later time would revive an attempt it had wiped out. The program writes none: a claim
   is rendered as JSON, which escapes angle brackets, and a marker without them would have to be the
   name of a host or a role.
   */
  lemma PrunedResetRevivesAttempts(first: Comment, both: Comment, role: string, now: int, later: int)
    requires CountsFor(first, role) && !first.resets && first.createdAt < YEAR_2000
    requires both.resets && Before(first, both) && !Stale(both, now) && Stale(both, later)
    ensures Spent([first, both], role, now) == 0
    ensures Spent([first, both], role, later) == 1
  {
    PrunedOfTwo(first, both, now);
    PrunedOfTwo(first, both, later);
    OrderedOfIncreasing([first, both]);
    OrderedOfIncreasing([first]);
    assert [] + [first] == [first] && [first] + [both] == [first, both];
    AttemptsAfter([], first, role);
    AttemptsAfter([first], both, role);
  }

  lemma PrunedOfTwo(first: Comment, both: Comment, now: int)
    requires !Stale(first, now)
    ensures Pruned([first, both], now) == if Stale(both, now) then [first] else [first, both]
  {
    assert [] + [first] == [first] && [first] + [both] == [first, both];
    PrunedOneMore([], first, now);
    PrunedOneMore([first], both, now);
  }

  // ----- The whole budget -----

  datatype Board = Board(column: string, log: seq<Comment>)

  /** One poll of a ticket that always fails: the claim, when it was judged, and the close. */
  datatype Round = Round(claim: Comment, close: Comment, now: int)

  // One poll: refused at the ceiling, otherwise claimed, failed, closed and routed.
  function Poll(b: Board, st: Stage, role: string, max: nat, r: Round): Board {
    if b.column != st.ready || !UnderCeiling(b.log, role, max, r.now) then b
    else
      var claimed := b.log + [r.claim];
      Board(Destination(st, claimed, role, max, r.now, Failed), claimed + [r.close])
  }

  function Polls(b: Board, st: Stage, role: string, max: nat, rounds: seq<Round>): Board
    decreases |rounds|
  {
    if rounds == [] then b else Polls(Poll(b, st, role, max, rounds[0]), st, role, max, rounds[1..])
  }

  function Written(rounds: seq<Round>): seq<Comment> {
    if rounds == [] then [] else [rounds[0].claim, rounds[0].close] + Written(rounds[1..])
  }

  ghost predicate OrdinaryRound(r: Round, role: string) {
    CountsFor(r.claim, role) && !r.claim.resets && r.close.kind == CloseNote(role) && !r.close.resets
  }

  // Nothing in the log is old enough to be pruned at the time of any of these polls.
  ghost predicate AllFresh(log: seq<Comment>, rounds: seq<Round>) {
    forall c, r | c in log && r in rounds :: !Stale(c, r.now)
  }

  lemma {:induction false} NothingPruned(log: seq<Comment>, now: int)
    requires forall c | c in log :: !Stale(c, now)
    ensures Pruned(log, now) == log
  {
    if log != [] {
      NothingPruned(log[..|log| - 1], now);
      assert log == log[..|log| - 1] + [log[|log| - 1]];
    }
  }

  lemma SpentOfFresh(log: seq<Comment>, role: string, now: int)
    requires Increasing(log) && forall c | c in log :: !Stale(c, now)
    ensures Spent(log, role, now) == AttemptsIn(log, role)
  {
    NothingPruned(log, now);
    OrderedOfIncreasing(log);
  }

  lemma FirstPoll(b: Board, st: Stage, role: string, max: nat, r: Round)
    requires b.column == st.ready && OrdinaryRound(r, role) && AttemptsIn(b.log, role) < max
    requires Increasing(b.log + [r.claim])
    requires forall c | c in b.log + [r.claim] :: !Stale(c, r.now)
    ensures Poll(b, st, role, max, r) ==
      Board(if AttemptsIn(b.log, role) + 1 < max then st.ready else st.exhausted, b.log + [r.claim] + [r.close])
    ensures AttemptsIn(b.log + [r.claim] + [r.close], role) == AttemptsIn(b.log, role) + 1
  {
    PrefixIncreases(b.log, [r.claim]);
    SpentOfFresh(b.log, role, r.now);
    SpentOfFresh(b.log + [r.claim], role, r.now);
    AttemptsAfter(b.log, r.claim, role);
    AttemptsAfter(b.log + [r.claim], r.close, role);
  }

  lemma WrittenFirst(log: seq<Comment>, rounds: seq<Round>)
    requires rounds != []
    ensures log + Written(rounds) == log + [rounds[0].claim] + [rounds[0].close] + Written(rounds[1..])
    ensures log + Written(rounds) == log + [rounds[0].claim] + ([rounds[0].close] + Written(rounds[1..]))
  {
    TwoMore(log, rounds[0].claim, rounds[0].close, Written(rounds[1..]));
  }

  lemma TwoMore<T>(s: seq<T>, x: T, y: T, more: seq<T>)
    ensures s + ([x, y] + more) == s + [x] + [y] + more
    ensures s + ([x, y] + more) == s + [x] + ([y] + more)
  {
    assert [x, y] + more == [x] + ([y] + more);
  }

  /**
   With conditional claims, no hand-back and no ageing, a ticket that fails every time is worked on
   exactly the first `max - spent` polls and is in front of a person from then on.
   */
  lemma {:induction false} BudgetIsExact(b: Board, st: Stage, role: string, max: nat, rounds: seq<Round>)
    requires st.ready != st.exhausted && b.column == st.ready
    requires Increasing(b.log + Written(rounds)) && AllFresh(b.log + Written(rounds), rounds)
    requires forall r | r in rounds :: OrdinaryRound(r, role)
    requires AttemptsIn(b.log, role) < max
    ensures Polls(b, st, role, max, rounds) == AfterPolls(b, st, role, max, rounds)
    decreases |rounds|
  {
    if rounds == [] {
      assert b.log + [] == b.log;
    } else {
      var r, rest, log := rounds[0], rounds[1..], b.log;
      WrittenFirst(log, rounds);
      PrefixIncreases(log + [r.claim], [r.close] + Written(rest));
      assert forall c | c in log + [r.claim] :: c in log + Written(rounds);
      FirstPoll(b, st, role, max, r);
      var next := Poll(b, st, role, max, r);
      if AttemptsIn(log, role) + 1 < max {
        BudgetIsExact(next, st, role, max, rest);
      } else {
        RefusedForGood(next, st, role, max, rest);
      }
      AfterFirstPoll(b, st, role, max, rounds, next);
    }
  }

  ghost function AfterPolls(b: Board, st: Stage, role: string, max: nat, rounds: seq<Round>): Board
    requires AttemptsIn(b.log, role) < max
  {
    var left := max - AttemptsIn(b.log, role);
    if |rounds| < left then Board(st.ready, b.log + Written(rounds))
    else Board(st.exhausted, b.log + Written(rounds[..left]))
  }

  lemma AfterFirstPoll(b: Board, st: Stage, role: string, max: nat, rounds: seq<Round>, next: Board)
    requires rounds != [] && AttemptsIn(b.log, role) < max
    requires next.log == b.log + [rounds[0].claim] + [rounds[0].close]
    requires AttemptsIn(next.log, role) == AttemptsIn(b.log, role) + 1
    ensures AttemptsIn(next.log, role) < max ==>
      AfterPolls(b, st, role, max, rounds) == AfterPolls(next, st, role, max, rounds[1..])
    ensures AttemptsIn(next.log, role) == max ==>
      AfterPolls(b, st, role, max, rounds) == Board(st.exhausted, next.log)
  {
    var left := max - AttemptsIn(b.log, role);
    WrittenFirst(b.log, rounds);
    if |rounds| >= left {
      WrittenFirst(b.log, rounds[..left]);
      assert rounds[..left][1..] == rounds[1..][..left - 1];
    }
  }

  lemma {:induction false} RefusedForGood(b: Board, st: Stage, role: string, max: nat, rounds: seq<Round>)
    requires b.column != st.ready
    ensures Polls(b, st, role, max, rounds) == b
    decreases |rounds|
  {
    if rounds != [] { RefusedForGood(b, st, role, max, rounds[1..]); }
  }
}
