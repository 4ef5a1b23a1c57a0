/**
 The comment log of a ticket and the questions asked of it (`internal/record/claim.go`): which claim
 wins arbitration, who holds the ticket, how many attempts a role has spent, and which claims are
 too old to be live.

 A comment body is modelled by what the parsers read out of it. A comment id is a number, standing
 for the id's place in the ids' string order.
 */
module Record {
  import opened Wrappers
  import opened Sorting

  datatype Claim = Claim(host: string, role: string, runId: string)

  /** What a body's prefix and payload say. */
  datatype Kind =
    | ClaimNote(claim: Claim)
    | UnreadableClaim
    | CloseNote(role: string)
    | UnreadableClose
    | Text

  /** `resets`: the body contains a hand-back marker, which it may do whatever its prefix is. */
  datatype Comment = Comment(id: nat, createdAt: int, resets: bool, kind: Kind) {
    predicate IsClaim() { kind.ClaimNote? || kind.UnreadableClaim? }

    // An empty role matches any close, even an unreadable one; a role only its own.
    predicate Closes(role: string) {
      || resets
      || (if role == "" then kind.CloseNote? || kind.UnreadableClose? else kind == CloseNote(role))
    }

    predicate Claims(role: string) {
      kind.ClaimNote? && (role == "" || kind.claim.role == role)
    }
  }

  predicate Before(a: Comment, b: Comment) {
    if a.createdAt != b.createdAt then a.createdAt < b.createdAt else a.id < b.id
  }

  predicate NotAfter(a: Comment, b: Comment) {
    !Before(b, a)
  }

  function Ordered(comments: seq<Comment>): seq<Comment> {
    Sort(comments, NotAfter)
  }

  ghost predicate DistinctKeys(comments: seq<Comment>) {
    forall i, j | 0 <= i < j < |comments| ::
      comments[i].createdAt != comments[j].createdAt || comments[i].id != comments[j].id
  }

  ghost predicate Increasing(log: seq<Comment>) {
    forall i, j | 0 <= i < j < |log| :: Before(log[i], log[j])
  }

  lemma OrderedIsSorted(comments: seq<Comment>)
    ensures SortedBy(Ordered(comments), NotAfter)
  {
    SortSorts(comments, NotAfter);
  }

  lemma OrderedOfIncreasing(log: seq<Comment>)
    requires Increasing(log)
    ensures Ordered(log) == log
  {
    SortOfSorted(log, NotAfter);
  }

  lemma CommentsAreUnique(comments: seq<Comment>, a: Comment)
    requires DistinctKeys(comments)
    ensures multiset(comments)[a] <= 1
  {
    if a in comments {
      var k :| 0 <= k < |comments| && comments[k] == a;
      assert comments == comments[..k] + [a] + comments[k + 1..];
      assert a !in comments[..k] && a !in comments[k + 1..];
    }
  }

  lemma EqualElementsCountTwice(s: seq<Comment>, i: nat, j: nat)
    requires i < j < |s|
    ensures s[i] == s[j] ==> multiset(s)[s[i]] >= 2
  {
    assert s == s[..i] + [s[i]] + s[i + 1..j] + [s[j]] + s[j + 1..];
  }

  lemma KeysIdentify(comments: seq<Comment>, a: Comment, b: Comment)
    requires DistinctKeys(comments) && a in comments && b in comments
    requires a.createdAt == b.createdAt && a.id == b.id
    ensures a == b
  {
    var k :| 0 <= k < |comments| && comments[k] == a;
    var l :| 0 <= l < |comments| && comments[l] == b;
    assert k == l;
  }

  // Sorting comments with distinct keys leaves them strictly increasing.
  lemma OrderedIncreases(comments: seq<Comment>)
    requires DistinctKeys(comments)
    ensures Increasing(Ordered(comments))
  {
    OrderedIsSorted(comments);
    var s := Ordered(comments);
    forall i, j | 0 <= i < j < |s| ensures Before(s[i], s[j]) {
      SameElements(comments, NotAfter, s[i]);
      SameElements(comments, NotAfter, s[j]);
      CommentsAreUnique(comments, s[i]);
      EqualElementsCountTwice(s, i, j);
      if s[i].createdAt == s[j].createdAt && s[i].id == s[j].id { KeysIdentify(comments, s[i], s[j]); }
    }
  }

  lemma LastIsLatest(log: seq<Comment>, k: Comment)
    requires log != [] && Increasing(log) && k in log[..|log| - 1]
    ensures Before(k, log[|log| - 1])
  {}

  lemma DistinctWhenIncreasing(log: seq<Comment>)
    requires Increasing(log)
    ensures DistinctKeys(log)
  {
    forall i, j | 0 <= i < j < |log|
      ensures log[i].createdAt != log[j].createdAt || log[i].id != log[j].id
    {
      assert Before(log[i], log[j]);
    }
  }

  lemma AppendedIsLast(log: seq<Comment>, c: Comment)
    requires Increasing(log + [c])
    ensures Increasing(log) && c !in log
  {
    var all := log + [c];
    forall i, j | 0 <= i < j < |log| ensures Before(log[i], log[j]) { assert Before(all[i], all[j]); }
    forall i | 0 <= i < |log| ensures log[i] != c { assert Before(all[i], all[|log|]); }
  }

  // ----- Arbitration -----

  /** The claims of the round still open at the end of an ordered log. */
  function LiveClaims(ordered: seq<Comment>, role: string): seq<Comment> {
    if ordered == [] then []
    else
      var rest, last := ordered[..|ordered| - 1], ordered[|ordered| - 1];
      if last.Closes(role) then []
      else if last.Claims(role) then LiveClaims(rest, role) + [last]
      else LiveClaims(rest, role)
  }

  function Oldest(comments: seq<Comment>, role: string): Option<Comment> {
    var claims := Ordered(LiveClaims(Ordered(comments), role));
    if claims == [] then None else Some(claims[0])
  }

  method OldestForRole(comments: seq<Comment>, role: string) returns (winner: Option<Comment>)
    ensures winner == Oldest(comments, role)
  {
    var ordered := Ordered(comments);
    var claims: seq<Comment> := [];
    for i := 0 to |ordered|
      invariant claims == LiveClaims(ordered[..i], role)
    {
      var cm := ordered[i];
      assert ordered[..i + 1][..i] == ordered[..i];
      if cm.Closes(role) { claims := []; continue; }
      if !cm.IsClaim() { continue; }
      if cm.kind.UnreadableClaim? { continue; }
      if role != "" && cm.kind.claim.role != role { continue; }
      claims := claims + [cm];
    }
    assert ordered[..|ordered|] == ordered;
    if |claims| == 0 { return None; }
    var sorted := Ordered(claims);
    return Some(sorted[0]);
  }

  /** A claim stands when it is readable, is this role's, and no close or hand-back comes at it or after it. */
  ghost predicate Standing(comments: seq<Comment>, role: string, c: Comment) {
    && c in comments && c.Claims(role) && !c.Closes(role)
    && forall k | k in comments && k.Closes(role) :: Before(k, c)
  }

  lemma {:induction false} LiveClaimsStand(ordered: seq<Comment>, role: string, c: Comment)
    requires Increasing(ordered)
    ensures c in LiveClaims(ordered, role) <==> Standing(ordered, role, c)
  {
    if ordered != [] {
      var rest, last := ordered[..|ordered| - 1], ordered[|ordered| - 1];
      LiveClaimsStand(rest, role, c);
      assert ordered == rest + [last];
      assert last in ordered;
      forall k | k in rest ensures Before(k, last) { LastIsLatest(ordered, k); }
    }
  }

  lemma {:induction false} LiveClaimsIncrease(ordered: seq<Comment>, role: string)
    requires Increasing(ordered)
    ensures Increasing(LiveClaims(ordered, role))
    ensures forall c | c in LiveClaims(ordered, role) :: c in ordered
  {
    if ordered != [] {
      LiveClaimsIncrease(ordered[..|ordered| - 1], role);
      var last := ordered[|ordered| - 1];
      forall k | k in ordered[..|ordered| - 1] ensures Before(k, last) { LastIsLatest(ordered, k); }
    }
  }

  lemma OldestOfIncreasing(log: seq<Comment>, role: string)
    requires Increasing(log)
    ensures Oldest(log, role) == if LiveClaims(log, role) == [] then None else Some(LiveClaims(log, role)[0])
  {
    OrderedOfIncreasing(log);
    LiveClaimsIncrease(log, role);
    OrderedOfIncreasing(LiveClaims(log, role));
  }

  lemma StandingIsLive(comments: seq<Comment>, role: string, c: Comment)
    requires DistinctKeys(comments)
    ensures Standing(comments, role, c) <==> c in LiveClaims(Ordered(comments), role)
  {
    var s := Ordered(comments);
    OrderedIncreases(comments);
    LiveClaimsStand(s, role, c);
    StandingIgnoresOrder(comments, s, role, c);
  }

  lemma OldestIsFirstLive(comments: seq<Comment>, role: string)
    requires DistinctKeys(comments)
    ensures var live := LiveClaims(Ordered(comments), role);
      Increasing(live) && Oldest(comments, role) == if live == [] then None else Some(live[0])
  {
    var s := Ordered(comments);
    OrderedIncreases(comments);
    OrderedOfIncreasing(s);
    OldestOfIncreasing(s, role);
    LiveClaimsIncrease(s, role);
    assert Oldest(comments, role) == Oldest(s, role);
  }

  /** The winner is the earliest standing claim, and there is none exactly when no claim stands. */
  lemma OldestIsEarliestStanding(comments: seq<Comment>, role: string)
    requires DistinctKeys(comments)
    ensures Oldest(comments, role).None? ==> forall c :: !Standing(comments, role, c)
    ensures Oldest(comments, role).Some? ==>
      var w := Oldest(comments, role).value;
      Standing(comments, role, w) && forall c | Standing(comments, role, c) :: c == w || Before(w, c)
  {
    OldestIsFirstLive(comments, role);
    forall c ensures Standing(comments, role, c) <==> c in LiveClaims(Ordered(comments), role) {
      StandingIsLive(comments, role, c);
    }
  }

  lemma StandingIgnoresOrder(a: seq<Comment>, b: seq<Comment>, role: string, c: Comment)
    requires multiset(a) == multiset(b)
    ensures Standing(a, role, c) <==> Standing(b, role, c)
  {
    assert forall k :: k in a <==> k in multiset(a);
    assert forall k :: k in b <==> k in multiset(b);
  }

  /** The winner does not depend on the order in which the store lists the comments. */
  lemma OldestIgnoresListingOrder(a: seq<Comment>, b: seq<Comment>, role: string)
    requires multiset(a) == multiset(b) && DistinctKeys(a) && DistinctKeys(b)
    ensures Oldest(a, role) == Oldest(b, role)
  {
    OldestIsEarliestStanding(a, role);
    OldestIsEarliestStanding(b, role);
    if Oldest(a, role).Some? { StandingIgnoresOrder(a, b, role, Oldest(a, role).value); }
    if Oldest(b, role).Some? { StandingIgnoresOrder(a, b, role, Oldest(b, role).value); }
  }

  lemma LiveAfterAppend(log: seq<Comment>, c: Comment, role: string)
    ensures LiveClaims(log + [c], role) ==
      if c.Closes(role) then [] else LiveClaims(log, role) + if c.Claims(role) then [c] else []
  {
    assert (log + [c])[..|log|] == log;
  }

  /** The claim standing on a ticket, when its column is one a stage parks held work in. */
  function HeldBy(comments: seq<Comment>, held: bool): Option<Claim> {
    if !held then None
    else match Oldest(comments, "")
      case None => None
      case Some(w) => if w.kind.ClaimNote? then Some(w.kind.claim) else None
  }

  // ----- Attempts -----

  function AttemptsIn(ordered: seq<Comment>, role: string): nat {
    if ordered == [] then 0
    else
      var rest, last := ordered[..|ordered| - 1], ordered[|ordered| - 1];
      if last.resets then 0
      else AttemptsIn(rest, role) + if CountsFor(last, role) then 1 else 0
  }

  function AttemptsOf(comments: seq<Comment>, role: string): nat {
    AttemptsIn(Ordered(comments), role)
  }

  method Attempts(comments: seq<Comment>, role: string) returns (n: nat)
    ensures n == AttemptsOf(comments, role)
  {
    var ordered := Ordered(comments);
    n := 0;
    for i := 0 to |ordered|
      invariant n == AttemptsIn(ordered[..i], role)
    {
      var cm := ordered[i];
      assert ordered[..i + 1][..i] == ordered[..i];
      if cm.resets { n := 0; continue; }
      if !cm.IsClaim() { continue; }
      if cm.kind.ClaimNote? && cm.kind.claim.role == role { n := n + 1; }
    }
    assert ordered[..|ordered|] == ordered;
  }

  /** The role's claims after the last hand-back. */
  ghost function Spent(comments: seq<Comment>, role: string): set<Comment> {
    set c | c in comments && CountsFor(c, role) && !c.resets
            && forall k | k in comments && k.resets :: Before(k, c)
  }

  predicate CountsFor(c: Comment, role: string) {
    c.kind.ClaimNote? && c.kind.claim.role == role
  }

  lemma SpentAfterOneMore(rest: seq<Comment>, last: Comment, role: string)
    requires Increasing(rest + [last])
    ensures last.resets ==> Spent(rest + [last], role) == {}
    ensures !last.resets ==>
      Spent(rest + [last], role) == Spent(rest, role) + if CountsFor(last, role) then {last} else {}
    ensures last !in Spent(rest, role)
  {
    var all := rest + [last];
    forall k | k in rest ensures Before(k, last) {
      var i :| 0 <= i < |rest| && rest[i] == k;
      assert Before(all[i], all[|rest|]);
    }
    assert all[|rest|] == last;
    assert forall c :: c in all <==> c in rest || c == last;
  }

  lemma {:induction false} AttemptsInCounts(ordered: seq<Comment>, role: string)
    requires Increasing(ordered)
    ensures AttemptsIn(ordered, role) == |Spent(ordered, role)|
  {
    if ordered != [] {
      var rest, last := ordered[..|ordered| - 1], ordered[|ordered| - 1];
      AttemptsInCounts(rest, role);
      assert ordered == rest + [last];
      SpentAfterOneMore(rest, last, role);
    }
  }

  /** Attempts counts the role's claims after the last hand-back, in whatever order they are listed. */
  lemma AttemptsCountsSpent(comments: seq<Comment>, role: string)
    requires DistinctKeys(comments)
    ensures AttemptsOf(comments, role) == |Spent(comments, role)|
  {
    var s := Ordered(comments);
    OrderedIncreases(comments);
    AttemptsInCounts(s, role);
    assert forall k :: k in s <==> k in multiset(s);
    assert forall k :: k in comments <==> k in multiset(comments);
    assert Spent(s, role) == Spent(comments, role);
  }

  // ----- Staleness -----

  const STALE_AFTER := 45 * 60 * 1_000_000_000
  // The first instant of the year 2000, in nanoseconds.
  const YEAR_2000 := 946_684_800 * 1_000_000_000

  // A timestamp before the year 2000 says nothing about liveness.
  predicate Stale(c: Comment, now: int) {
    c.IsClaim() && c.createdAt >= YEAR_2000 && now - c.createdAt > STALE_AFTER
  }

  function Pruned(comments: seq<Comment>, now: int): seq<Comment> {
    if comments == [] then []
    else
      var rest, last := comments[..|comments| - 1], comments[|comments| - 1];
      Pruned(rest, now) + if Stale(last, now) then [] else [last]
  }

  method PruneStale(comments: seq<Comment>, now: int) returns (kept: seq<Comment>)
    ensures kept == Pruned(comments, now)
  {
    kept := [];
    for i := 0 to |comments|
      invariant kept == Pruned(comments[..i], now)
    {
      var cm := comments[i];
      assert comments[..i + 1][..i] == comments[..i];
      if cm.IsClaim() && cm.createdAt >= YEAR_2000 && now - cm.createdAt > STALE_AFTER { continue; }
      kept := kept + [cm];
    }
    assert comments[..|comments|] == comments;
  }

  lemma {:induction false} PrunedKeepsTheFresh(comments: seq<Comment>, now: int, c: Comment)
    ensures c in Pruned(comments, now) <==> c in comments && !Stale(c, now)
  {
    if comments != [] {
      PrunedKeepsTheFresh(comments[..|comments| - 1], now, c);
      assert comments == comments[..|comments| - 1] + [comments[|comments| - 1]];
    }
  }

  lemma {:induction false} PrunedIncreases(log: seq<Comment>, now: int)
    requires Increasing(log)
    ensures Increasing(Pruned(log, now))
    ensures forall c | c in Pruned(log, now) :: c in log
  {
    if log != [] {
      PrunedIncreases(log[..|log| - 1], now);
      var last := log[|log| - 1];
      forall k | k in log[..|log| - 1] ensures Before(k, last) { LastIsLatest(log, k); }
    }
  }
}
