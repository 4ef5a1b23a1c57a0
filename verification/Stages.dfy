/**
 What both ways of claiming share: the columns of the board, the agents that move tickets between
 them, and the comments they write (`internal/workflow`, `internal/record/claim.go`).

 An agent is one host's dispatcher for one role. Every role has a Ready and a Working column of its own.
 */
module Stages {
  import opened Wrappers
  import opened Record

  datatype Column = ReadyOf(role: string) | WorkingOf(role: string) | Elsewhere(name: string)

  datatype Agent = Agent(host: string, role: string)

  /** Where the store puts a comment, and whether writing it bumps the ticket's version. */
  datatype Stamp = Stamp(id: nat, createdAt: int, bumps: bool)

  function ClaimOf(a: Agent, at: Stamp, runId: string): Comment {
    Comment(at.id, at.createdAt, false, ClaimNote(Claim(a.host, a.role, runId)))
  }

  function CloseOf(a: Agent, at: Stamp): Comment {
    Comment(at.id, at.createdAt, false, CloseNote(a.role))
  }

  // The note of an interrupted attempt, and any other hand-back: it ends the round of every role.
  function HandBack(at: Stamp): Comment {
    Comment(at.id, at.createdAt, true, Text)
  }

  predicate IsClaimOf(m: Comment, a: Agent) {
    m.kind.ClaimNote? && m.kind.claim.host == a.host && m.kind.claim.role == a.role
  }

  // The agent whose claim stands on an ordered log: what HeldBy says of it.
  function Named(log: seq<Comment>): Option<Agent> {
    var live := LiveClaims(log, "");
    if live == [] || !live[0].kind.ClaimNote? then None
    else Some(Agent(live[0].kind.claim.host, live[0].kind.claim.role))
  }

  // Reconcile compares the HOST of the standing claim, whichever role made it.
  predicate NamesHost(log: seq<Comment>, host: string) {
    Named(log).Some? && Named(log).value.host == host
  }

  // A stamp later than everything in an ordered log.
  function NextStamp(log: seq<Comment>): Stamp {
    Stamp(0, if log == [] then 0 else log[|log| - 1].createdAt + 1, true)
  }

  lemma NextStampFits(log: seq<Comment>, c: Comment)
    requires Increasing(log) && c.id == 0 && c.createdAt == NextStamp(log).createdAt
    ensures Increasing(log + [c])
  {
    forall k | k in log ensures Before(k, c) {
      if k != log[|log| - 1] { assert log == log[..|log| - 1] + [log[|log| - 1]]; LastIsLatest(log, k); }
    }
    var all := log + [c];
    forall i, j | 0 <= i < j < |all| ensures Before(all[i], all[j]) {
      if j == |log| { assert all[i] in log; }
    }
  }

  /** On a log kept in append order, the holder query answers with the maker of the first live claim. */
  lemma NamedIsHeldBy(log: seq<Comment>)
    requires Increasing(log)
    ensures HeldBy(log, true).None? <==> Named(log).None?
    ensures HeldBy(log, true).Some? ==>
      Named(log) == Some(Agent(HeldBy(log, true).value.host, HeldBy(log, true).value.role))
    ensures LiveClaims(log, "") != [] <==> Named(log).Some?
  {
    OldestOfIncreasing(log, "");
    FirstLiveIsAClaim(log);
  }

  // How one more comment changes who is named: the first claim of a round stays the one.
  lemma NamedAfterAppend(log: seq<Comment>, c: Comment)
    ensures Named(log + [c]) ==
            if c.Closes("") then None
            else if LiveClaims(log, "") != [] then Named(log)
            else if c.kind.ClaimNote? then Some(Agent(c.kind.claim.host, c.kind.claim.role))
            else None
  {
    LiveAfterAppend(log, c, "");
  }

  /** A close ends its own role's round and no other's, and gives no attempt back. */
  lemma CloseEndsOnlyItsRole(log: seq<Comment>, a: Agent, at: Stamp, role: string)
    requires role != ""
    ensures LiveClaims(log + [CloseOf(a, at)], role) == if role == a.role then [] else LiveClaims(log, role)
    ensures AttemptsIn(log + [CloseOf(a, at)], role) == AttemptsIn(log, role)
  {
    LiveAfterAppend(log, CloseOf(a, at), role);
    assert (log + [CloseOf(a, at)])[..|log|] == log;
  }

  /** A hand-back ends every role's round and starts every role's count again. */
  lemma HandBackEndsAll(log: seq<Comment>, at: Stamp, role: string)
    ensures LiveClaims(log + [HandBack(at)], role) == [] && AttemptsIn(log + [HandBack(at)], role) == 0
  {
    LiveAfterAppend(log, HandBack(at), role);
  }

  lemma FirstLiveIsAClaim(log: seq<Comment>)
    ensures LiveClaims(log, "") != [] ==> LiveClaims(log, "")[0].kind.ClaimNote?
  {
    LiveClaimsAreClaims(log, "");
    var live := LiveClaims(log, "");
    if live != [] { assert live[0] in live; }
  }

  lemma {:induction false} LiveClaimsAreClaims(ordered: seq<Comment>, role: string)
    ensures forall c | c in LiveClaims(ordered, role) :: c.Claims(role)
  {
    if ordered != [] { LiveClaimsAreClaims(ordered[..|ordered| - 1], role); }
  }
}
