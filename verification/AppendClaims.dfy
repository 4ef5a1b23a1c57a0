/**
 Claiming by append (`claimByAppend` in `internal/platform/claim.go`): every host appends a claim,
 reads the log back, and yields unless the oldest live claim of its role is its own; together with the
 steps of the dispatcher around it, every stage's hosts, crashes and restarts.

 Comment keys strictly increase in append order, comment writes succeed, and nobody outside the
 protocol moves the ticket, closes a round or hands the ticket back.
 */
module AppendClaims {
  import opened Wrappers
  import opened Record
  import opened Stages
  import opened Arbitration

  /** Where an agent stands with the ticket. */
  datatype Pc =
    | Idle
    | Checked(at: nat)        // saw the ticket in its Ready column, the log being this long
    | Appended(mine: Comment)
    | Won(mine: Comment)      // read itself back
    | Held(mine: Comment)     // moved the ticket to Working; the handler runs
    | Forgiven                // said on the ticket that the attempt costs nothing, or handed it back
    | Closed                  // round closed, ticket not yet moved
    | Down                    // crashed
    | Listed                  // restarted; reconcile found the ticket listed in its Working column
    | Matched                 // reconcile re-read the ticket and took it for its own
    | Cleared                 // reconcile reset the interrupted attempt
  {
    predicate Owns() {
      Won? || Held? || Forgiven? || Closed? || Matched? || Cleared?
    }
  }

  /** `taken` remembers the claims whose agents moved the ticket to Working. */
  datatype World = World(column: Column, log: seq<Comment>, pc: map<Agent, Pc>, taken: set<Comment>) {
    function At(a: Agent): Pc {
      if a in pc then pc[a] else Idle
    }

    function Put(a: Agent, to: Pc): World {
      this.(pc := pc[a := to])
    }

    function Say(c: Comment): World {
      this.(log := log + [c])
    }
  }

  datatype Step =
    | Check(a: Agent)
    | Append(a: Agent, at: Stamp, runId: string)
    | ReadBack(a: Agent, now: int)
    | Take(a: Agent)
    | Forgive(a: Agent, at: Stamp)
    | Close(a: Agent, at: Stamp)
    | Move(a: Agent, to: Column)
    | Crash(a: Agent)
    | List(a: Agent)
    | Inspect(a: Agent)
    | Clear(a: Agent, at: Stamp)
    | Return(a: Agent)
    | Remark(c: Comment)

  ghost predicate Fits(w: World, c: Comment) {
    Increasing(w.log + [c])
  }

  // The claim joins a round that is open, or opens one on a ticket that waits for its role.
  predicate InTime(w: World, role: string) {
    LiveClaims(w.log, role) != [] || w.column == ReadyOf(role)
  }

  ghost predicate Enabled(w: World, step: Step) {
    match step
    case Check(a) => w.At(a).Idle? && w.column == ReadyOf(a.role) && a.role != ""
    case Append(a, at, run) => w.At(a).Checked? && InTime(w, a.role) && Fits(w, ClaimOf(a, at, run))
    case ReadBack(a, now) => w.At(a).Appended? && OldestIsFresh(w.log, a.role, now)
    case Take(a) => w.At(a).Won?
    case Forgive(a, at) => w.At(a).Held? && Fits(w, HandBack(at))
    case Close(a, at) => (w.At(a).Held? || w.At(a).Forgiven?) && Fits(w, CloseOf(a, at))
    case Move(a, to) => w.At(a).Closed?
    case Crash(a) => true
    case List(a) => w.At(a).Down? && a.role != ""
    case Inspect(a) => w.At(a).Listed?
    case Clear(a, at) => w.At(a).Matched? && Fits(w, HandBack(at))
    case Return(a) => w.At(a).Cleared?
    case Remark(c) => !c.Closes("") && !c.Claims("") && Fits(w, c)
  }

  ghost predicate TakesOver(w: World, step: Step) {
    step.Inspect? && NamesHost(w.log, step.a.host)
  }

  // What a host can check before it takes a ticket over: the ticket read again is still in a Working
  // column, and none of its own dispatchers owns it.
  ghost predicate HostVacant(w: World, host: string) {
    w.column.WorkingOf? && forall role: string :: !w.At(Agent(host, role)).Owns()
  }

  function Apply(w: World, step: Step): World {
    match step
    case Check(a) => w.Put(a, Checked(|w.log|))
    case Append(a, at, run) => w.Put(a, Appended(ClaimOf(a, at, run))).Say(ClaimOf(a, at, run))
    case ReadBack(a, now) =>
      var pc := w.At(a);
      if pc.Appended? && Oldest(Pruned(w.log, now), a.role) == Some(pc.mine) then w.Put(a, Won(pc.mine))
      else w.Put(a, Idle)
    case Take(a) =>
      var pc := w.At(a);
      if pc.Won? then w.Put(a, Held(pc.mine)).(column := WorkingOf(a.role), taken := w.taken + {pc.mine}) else w
    case Forgive(a, at) => w.Put(a, Forgiven).Say(HandBack(at))
    case Close(a, at) => w.Put(a, Closed).Say(CloseOf(a, at))
    case Move(a, to) => w.Put(a, Idle).(column := to)
    case Crash(a) => w.Put(a, Down)
    case List(a) => w.Put(a, if w.column == WorkingOf(a.role) then Listed else Idle)
    case Inspect(a) => w.Put(a, if NamesHost(w.log, a.host) then Matched else Idle)
    case Clear(a, at) => w.Put(a, Cleared).Say(HandBack(at))
    case Return(a) => w.Put(a, Idle).(column := ReadyOf(a.role))
    case Remark(c) => w.Say(c)
  }

  // ----- The invariant -----

  function Live(w: World): seq<Comment> {
    LiveClaims(w.log, "")
  }

  predicate FirstLive(w: World, m: Comment) {
    Live(w) != [] && Live(w)[0] == m
  }

  // The role whose round is open.
  function OpenRole(log: seq<Comment>): Option<string> {
    if Named(log).Some? then Some(Named(log).value.role) else None
  }

  // At most one role has live claims: those of the stage the ticket is in.
  ghost predicate OneRound(log: seq<Comment>) {
    forall role: string | role != "" ::
      LiveClaims(log, role) == if OpenRole(log) == Some(role) then LiveClaims(log, "") else []
  }

  ghost predicate ColumnAgrees(w: World) {
    Live(w) != [] && Live(w)[0].kind.ClaimNote? ==>
      var role := Live(w)[0].kind.claim.role;
      w.column == if Live(w)[0] in w.taken then WorkingOf(role) else ReadyOf(role)
  }

  ghost predicate RoundEndedSince(log: seq<Comment>, role: string, at: nat) {
    exists k | at <= k < |log| :: log[k].Closes(role)
  }

  ghost predicate Knows(w: World, a: Agent) {
    && (!w.At(a).Idle? && !w.At(a).Down? ==> a.role != "")
    && match w.At(a)
       case Checked(p) =>
         && p <= |w.log|
         && (!RoundEndedSince(w.log, a.role, p) && LiveClaims(w.log, a.role) == [] ==> w.column == ReadyOf(a.role))
       case Appended(m) => IsClaimOf(m, a) && m !in w.taken
       case Won(m) => FirstLive(w, m) && IsClaimOf(m, a) && m !in w.taken
       case Held(m) => FirstLive(w, m) && IsClaimOf(m, a) && m in w.taken
       case Forgiven | Closed => Live(w) == [] && w.column == WorkingOf(a.role)
       case Matched => Live(w) != [] && Live(w)[0] in w.taken && NamesHost(w.log, a.host)
       case Cleared => Live(w) == [] && w.column.WorkingOf?
       case _ => true
  }

  ghost predicate OneOwner(w: World) {
    forall a, b | w.At(a).Owns() && w.At(b).Owns() :: a == b
  }

  ghost predicate NoOtherOwner(w: World, a: Agent) {
    forall b | b != a :: !w.At(b).Owns()
  }

  ghost predicate LogHolds(w: World) {
    && Increasing(w.log) && Tidy(w.log) && OneRound(w.log) && OpenRole(w.log) != Some("")
    && ColumnAgrees(w) && forall m | m in w.taken :: m in w.log
  }

  ghost predicate Invariant(w: World) {
    LogHolds(w) && OneOwner(w) && forall a :: Knows(w, a)
  }

  function Fresh(role: string): World {
    World(ReadyOf(role), [], map[], {})
  }

  lemma FreshIsInvariant(role: string)
    ensures Invariant(Fresh(role))
  {}

  ghost predicate SameElsewhere(w: World, t: World, a: Agent) {
    forall b {:trigger t.At(b)} :: b != a ==> t.At(b) == w.At(b)
  }

  lemma PutElsewhere(w: World, t: World, a: Agent, to: Pc)
    requires t.pc == w.pc[a := to]
    ensures t.At(a) == to && SameElsewhere(w, t, a)
  {}

  lemma OwnerIsAlone(w: World, a: Agent)
    requires OneOwner(w) && w.At(a).Owns()
    ensures NoOtherOwner(w, a)
  {}

  // Whatever one agent does, the invariant holds if the log does and everybody still knows what they know.
  lemma InvariantAfter(w: World, t: World, a: Agent)
    requires Invariant(w) && LogHolds(t) && SameElsewhere(w, t, a) && Knows(t, a)
    requires forall b | b != a :: Knows(t, b)
    requires t.At(a).Owns() ==> NoOtherOwner(w, a)
    ensures Invariant(t)
  {
    forall b, c | t.At(b).Owns() && t.At(c).Owns() ensures b == c {
      assert b != a ==> t.At(b) == w.At(b);
      assert c != a ==> t.At(c) == w.At(c);
    }
  }

  // ----- Steps that leave the log and the column alone -----

  lemma QuietKeeps(w: World, t: World, a: Agent, to: Pc)
    requires Invariant(w) && t == w.Put(a, to) && Knows(t, a) && (to.Owns() ==> NoOtherOwner(w, a))
    ensures Invariant(t)
  {
    PutElsewhere(w, t, a, to);
    forall b | b != a ensures Knows(t, b) { assert Knows(w, b) && t.At(b) == w.At(b); }
    InvariantAfter(w, t, a);
  }

  // The column tells who can own a ticket on which a claim is live and not yet taken.
  lemma UntakenHasNoOwner(w: World, a: Agent, m: Comment)
    requires Invariant(w) && FirstLive(w, m) && IsClaimOf(m, a) && m !in w.taken
    ensures NoOtherOwner(w, a)
  {
    forall b | b != a ensures !w.At(b).Owns() { assert Knows(w, b); }
  }

  lemma ReadBackCases(w: World, a: Agent, now: int)
    requires w.At(a).Appended?
    ensures Apply(w, ReadBack(a, now)) ==
            if Oldest(Pruned(w.log, now), a.role) == Some(w.At(a).mine) then w.Put(a, Won(w.At(a).mine))
            else w.Put(a, Idle)
  {}

  // Reading the pruned log back names the oldest live claim, as long as that one is fresh.
  lemma ReadBackNamesTheFirst(w: World, role: string, m: Comment, now: int)
    requires LogHolds(w) && role != "" && OldestIsFresh(w.log, role, now) && Oldest(Pruned(w.log, now), role) == Some(m)
    ensures FirstLive(w, m)
  {
    WinnerSurvivesPruningExactlyWhen(w.log, role, now);
    OldestOfIncreasing(w.log, role);
  }

  lemma ReadBackKeeps(w: World, a: Agent, now: int)
    requires Invariant(w) && Enabled(w, ReadBack(a, now))
    ensures Invariant(Apply(w, ReadBack(a, now)))
  {
    ReadBackCases(w, a, now);
    var m := w.At(a).mine;
    assert Knows(w, a);
    if Oldest(Pruned(w.log, now), a.role) == Some(m) {
      ReadBackNamesTheFirst(w, a.role, m, now);
      UntakenHasNoOwner(w, a, m);
      QuietKeeps(w, w.Put(a, Won(m)), a, Won(m));
    } else {
      QuietKeeps(w, w.Put(a, Idle), a, Idle);
    }
  }

  // While a claim is live, whoever owns the ticket is its maker, or has taken it over on the same host.
  lemma OwnerIsOnTheHost(w: World, host: string, a: Agent)
    requires Invariant(w) && NamesHost(w.log, host)
    ensures w.At(a).Owns() ==> a.host == host
  {
    assert Knows(w, a);
  }

  lemma HostCheckSuffices(w: World, host: string)
    requires Invariant(w) && NamesHost(w.log, host) && HostVacant(w, host)
    ensures forall a :: !w.At(a).Owns()
    ensures Live(w)[0] in w.taken
  {
    forall a ensures !w.At(a).Owns() {
      OwnerIsOnTheHost(w, host, a);
      assert a == Agent(a.host, a.role);
    }
  }

  // Taking over what is owned on the host, or not in a Working column, breaks the invariant.
  lemma OtherMatchBreaks(w: World, a: Agent)
    requires Invariant(w) && w.At(a).Listed? && !HostVacant(w, a.host)
    ensures !Invariant(w.Put(a, Matched))
  {
    var t := w.Put(a, Matched);
    PutElsewhere(w, t, a, Matched);
    FirstLiveIsAClaim(t.log);
    if w.column.WorkingOf? {
      var role: string :| w.At(Agent(a.host, role)).Owns();
      var b := Agent(a.host, role);
      assert t.At(b).Owns() && t.At(a).Owns() && a != b;
    } else {
      assert ColumnAgrees(t) ==> !Knows(t, a);
    }
  }

  lemma InspectKeeps(w: World, a: Agent)
    requires Invariant(w) && Enabled(w, Inspect(a))
    ensures Invariant(Apply(w, Inspect(a))) <==> (TakesOver(w, Inspect(a)) ==> HostVacant(w, a.host))
  {
    assert Knows(w, a);
    if NamesHost(w.log, a.host) && !HostVacant(w, a.host) {
      OtherMatchBreaks(w, a);
    } else if NamesHost(w.log, a.host) {
      HostCheckSuffices(w, a.host);
      QuietKeeps(w, w.Put(a, Matched), a, Matched);
    } else {
      QuietKeeps(w, w.Put(a, Idle), a, Idle);
    }
  }

  // ----- Appending a claim -----

  lemma ClaimJoinsItsRound(w: World, role: string)
    requires LogHolds(w) && InTime(w, role) && role != ""
    ensures Live(w) == [] || OpenRole(w.log) == Some(role)
    ensures Live(w) == [] ==> w.column == ReadyOf(role)
  {
    FirstLiveIsAClaim(w.log);
  }

  lemma RoundAfterClaim(log: seq<Comment>, c: Comment, role: string)
    requires OneRound(log) && c.kind.ClaimNote? && c.kind.claim.role == role && !c.resets && role != ""
    requires LiveClaims(log, "") == [] || OpenRole(log) == Some(role)
    ensures OneRound(log + [c]) && LiveClaims(log + [c], "") == LiveClaims(log, "") + [c]
    ensures LiveClaims(log + [c], role) == LiveClaims(log, "") + [c] && OpenRole(log + [c]) == Some(role)
    ensures forall r: string | r != role && r != "" :: LiveClaims(log + [c], r) == LiveClaims(log, r)
  {
    LiveAfterAppend(log, c, "");
    NamedAfterAppend(log, c);
    forall r: string | r != ""
      ensures LiveClaims(log + [c], r) == if r == role then LiveClaims(log, "") + [c] else []
      ensures r != role ==> LiveClaims(log, r) == []
    {
      LiveAfterAppend(log, c, r);
    }
    FirstLiveIsAClaim(log);
  }

  lemma EndedAfterAppend(log: seq<Comment>, c: Comment, role: string, at: nat)
    requires at <= |log|
    ensures RoundEndedSince(log + [c], role, at) <==> RoundEndedSince(log, role, at) || c.Closes(role)
  {
    var all := log + [c];
    if RoundEndedSince(log, role, at) {
      var k :| at <= k < |log| && log[k].Closes(role);
      assert all[k].Closes(role);
    }
    if c.Closes(role) { assert all[|log|].Closes(role); }
  }

  lemma AppendKeepsLog(w: World, t: World, a: Agent, c: Comment)
    requires LogHolds(w) && InTime(w, a.role) && a.role != "" && IsClaimOf(c, a) && !c.resets && Fits(w, c)
    requires t.log == w.log + [c] && t.column == w.column && t.taken == w.taken
    ensures LogHolds(t) && Live(t) == Live(w) + [c] && c !in t.taken
  {
    AppendedIsLast(w.log, c);
    ClaimJoinsItsRound(w, a.role);
    RoundAfterClaim(w.log, c, a.role);
  }

  lemma AppendKeepsOthers(w: World, t: World, a: Agent, c: Comment, b: Agent)
    requires Invariant(w) && InTime(w, a.role) && a.role != "" && IsClaimOf(c, a) && !c.resets && Fits(w, c)
    requires t.log == w.log + [c] && t.column == w.column && t.taken == w.taken && t.At(b) == w.At(b)
    ensures Knows(t, b)
  {
    assert Knows(w, b);
    ClaimJoinsItsRound(w, a.role);
    RoundAfterClaim(w.log, c, a.role);
    NamedAfterAppend(w.log, c);
    if w.At(b).Checked? { EndedAfterAppend(w.log, c, b.role, w.At(b).at); }
  }

  lemma AppendKeeps(w: World, step: Step)
    requires step.Append? && Invariant(w) && Enabled(w, step)
    ensures Invariant(Apply(w, step))
  {
    var t, a, c := Apply(w, step), step.a, ClaimOf(step.a, step.at, step.runId);
    PutElsewhere(w, t, a, Appended(c));
    assert Knows(w, a);
    AppendKeepsLog(w, t, a, c);
    forall b | b != a ensures Knows(t, b) { AppendKeepsOthers(w, t, a, c, b); }
    InvariantAfter(w, t, a);
  }

  // ----- Ending the round -----

  // A close of the open round's role, or a hand-back, leaves no role a live claim.
  lemma NoRoundAfter(log: seq<Comment>, c: Comment, role: string)
    requires OneRound(log) && (c.resets || c.kind == CloseNote(role))
    requires c.resets || LiveClaims(log, "") == [] || OpenRole(log) == Some(role)
    ensures LiveClaims(log + [c], "") == [] && OneRound(log + [c])
    ensures forall r: string :: LiveClaims(log + [c], r) == []
  {
    LiveAfterAppend(log, c, "");
    FirstLiveIsAClaim(log);
    forall r: string ensures LiveClaims(log + [c], r) == [] { LiveAfterAppend(log, c, r); }
  }

  // Whoever saw the ticket in its Ready column before has now seen its round end.
  lemma EndKeepsOthers(w: World, t: World, a: Agent, c: Comment, b: Agent)
    requires Invariant(w) && NoOtherOwner(w, a) && b != a && w.column.WorkingOf?
    requires c.resets || (c.kind == CloseNote(a.role) && (Live(w) == [] || OpenRole(w.log) == Some(a.role)))
    requires t.log == w.log + [c] && t.column == w.column && t.taken == w.taken && t.At(b) == w.At(b)
    ensures Knows(t, b)
  {
    assert Knows(w, b);
    if w.At(b).Checked? {
      EndedAfterAppend(w.log, c, b.role, w.At(b).at);
      assert !c.resets && b.role != a.role ==> LiveClaims(w.log, b.role) == [];
    }
  }

  lemma EndKeeps(w: World, t: World, a: Agent, to: Pc, c: Comment)
    requires Invariant(w) && w.At(a).Owns() && w.column.WorkingOf? && Fits(w, c) && t == w.Put(a, to).Say(c)
    requires to.Cleared? || ((to.Forgiven? || to.Closed?) && w.column == WorkingOf(a.role))
    requires c.resets || (c.kind == CloseNote(a.role) && (Live(w) == [] || OpenRole(w.log) == Some(a.role)))
    requires !c.IsClaim()
    ensures Invariant(t)
  {
    PutElsewhere(w, t, a, to);
    OwnerIsAlone(w, a);
    assert Knows(w, a);
    NoRoundAfter(w.log, c, a.role);
    forall b | b != a ensures Knows(t, b) { EndKeepsOthers(w, t, a, c, b); }
    InvariantAfter(w, t, a);
  }

  // Where an owner that may end the round stands.
  lemma OwnerInItsRound(w: World, a: Agent)
    requires Invariant(w) && w.At(a).Owns() && !w.At(a).Won?
    ensures w.column.WorkingOf?
    ensures w.At(a).Held? || w.At(a).Forgiven? || w.At(a).Closed? ==>
      w.column == WorkingOf(a.role) && (Live(w) == [] || OpenRole(w.log) == Some(a.role))
  {
    assert Knows(w, a);
    FirstLiveIsAClaim(w.log);
  }

  // ----- Moving the ticket -----

  // Move and Return take the ticket out of its Working column once no claim is live.
  lemma LeavingKeeps(w: World, t: World, a: Agent, column: Column)
    requires Invariant(w) && (w.At(a).Closed? || w.At(a).Cleared?) && t == w.Put(a, Idle).(column := column)
    ensures Invariant(t)
  {
    PutElsewhere(w, t, a, Idle);
    OwnerIsAlone(w, a);
    assert Knows(w, a);
    forall b | b != a ensures Knows(t, b) { assert Knows(w, b) && t.At(b) == w.At(b); }
    InvariantAfter(w, t, a);
  }

  lemma TakeKeeps(w: World, a: Agent)
    requires Invariant(w) && Enabled(w, Take(a))
    ensures Invariant(Apply(w, Take(a)))
  {
    var t := Apply(w, Take(a));
    PutElsewhere(w, t, a, Held(w.At(a).mine));
    OwnerIsAlone(w, a);
    assert Knows(w, a);
    LiveClaimsIncrease(w.log, "");
    assert w.At(a).mine in Live(w);
    forall b | b != a ensures Knows(t, b) { TakeKeepsOthers(w, a, b); }
    InvariantAfter(w, t, a);
  }

  lemma TakeKeepsOthers(w: World, a: Agent, b: Agent)
    requires Invariant(w) && w.At(a).Won? && b != a
    ensures Knows(Apply(w, Take(a)), b)
  {
    PutElsewhere(w, Apply(w, Take(a)), a, Held(w.At(a).mine));
    OwnerIsAlone(w, a);
    assert Knows(w, a) && Knows(w, b);
  }

  lemma RemarkKeeps(w: World, c: Comment)
    requires Invariant(w) && Enabled(w, Remark(c))
    ensures Invariant(Apply(w, Remark(c)))
  {
    var t, a := Apply(w, Remark(c)), Agent("", "");
    forall r: string ensures LiveClaims(t.log, r) == LiveClaims(w.log, r) { LiveAfterAppend(w.log, c, r); }
    assert forall b {:trigger t.At(b)} :: t.At(b) == w.At(b);
    forall b ensures Knows(t, b) { RemarkKeepsKnowing(w, c, b); }
    if t.At(a).Owns() { OwnerIsAlone(w, a); }
    InvariantAfter(w, t, a);
  }

  lemma RemarkKeepsKnowing(w: World, c: Comment, b: Agent)
    requires Invariant(w) && Enabled(w, Remark(c))
    ensures Knows(Apply(w, Remark(c)), b)
  {
    assert Knows(w, b);
    LiveAfterAppend(w.log, c, "");
    LiveAfterAppend(w.log, c, b.role);
    if w.At(b).Checked? { EndedAfterAppend(w.log, c, b.role, w.At(b).at); }
  }

  lemma CheckKeeps(w: World, a: Agent)
    requires Invariant(w) && Enabled(w, Check(a))
    ensures Invariant(Apply(w, Check(a)))
  {
    var t := Apply(w, Check(a));
    PutElsewhere(w, t, a, Checked(|w.log|));
    QuietKeeps(w, t, a, Checked(|w.log|));
  }

  /** Every step keeps the invariant, except a reconcile that its own host's dispatchers could have stopped. */
  lemma StepKeepsInvariant(w: World, step: Step)
    requires Invariant(w) && Enabled(w, step)
    ensures Invariant(Apply(w, step)) <==> (TakesOver(w, step) ==> HostVacant(w, step.a.host))
  {
    var t := Apply(w, step);
    match step
    case Check(a) => CheckKeeps(w, a);
    case Append(_, _, _) => AppendKeeps(w, step);
    case ReadBack(a, now) => ReadBackKeeps(w, a, now);
    case Take(a) => TakeKeeps(w, a);
    case Forgive(a, at) =>
      OwnerInItsRound(w, a);
      EndKeeps(w, t, a, Forgiven, HandBack(at));
    case Close(a, at) =>
      OwnerInItsRound(w, a);
      EndKeeps(w, t, a, Closed, CloseOf(a, at));
    case Move(a, to) => LeavingKeeps(w, t, a, to);
    case Crash(a) => LosingKeeps(w, a, Down);
    case List(a) => LosingKeeps(w, a, if w.column == WorkingOf(a.role) then Listed else Idle);
    case Inspect(a) => InspectKeeps(w, a);
    case Clear(a, at) =>
      OwnerInItsRound(w, a);
      EndKeeps(w, t, a, Cleared, HandBack(at));
    case Return(a) => LeavingKeeps(w, t, a, ReadyOf(a.role));
    case Remark(c) => RemarkKeeps(w, c);
  }

  lemma LosingKeeps(w: World, a: Agent, to: Pc)
    requires Invariant(w) && (to.Down? || (to.Listed? && a.role != "") || to.Idle?)
    ensures Invariant(w.Put(a, to))
  {
    PutElsewhere(w, w.Put(a, to), a, to);
    QuietKeeps(w, w.Put(a, to), a, to);
  }

  // ----- Over every run -----

  ghost predicate CanRun(w: World, steps: seq<Step>)
    decreases |steps|
  {
    steps == [] ||
    (&& Enabled(w, steps[0]) && (TakesOver(w, steps[0]) ==> HostVacant(w, steps[0].a.host))
     && CanRun(Apply(w, steps[0]), steps[1..]))
  }

  function Run(w: World, steps: seq<Step>): World
    decreases |steps|
  {
    if steps == [] then w else Run(Apply(w, steps[0]), steps[1..])
  }

  /** At most one agent has won or owns the ticket; its claim is the one that wins, and the column says where it is. */
  ghost predicate Exclusive(w: World) {
    && OneOwner(w)
    && (forall a | w.At(a).Won? || w.At(a).Held? ::
          && w.column == (if w.At(a).Won? then ReadyOf(a.role) else WorkingOf(a.role))
          && Named(w.log) == Some(a) && Oldest(w.log, a.role) == Some(w.At(a).mine))
    && (forall a | w.At(a).Owns() && !w.At(a).Won? :: w.column.WorkingOf?)
  }

  lemma ClaimantIsNamed(w: World, a: Agent)
    requires Invariant(w) && (w.At(a).Won? || w.At(a).Held?)
    ensures Named(w.log) == Some(a) && Oldest(w.log, a.role) == Some(w.At(a).mine)
    ensures w.column == if w.At(a).Won? then ReadyOf(a.role) else WorkingOf(a.role)
  {
    assert Knows(w, a);
    FirstLiveIsOldest(w.log, a.role);
  }

  lemma InvariantExcludes(w: World)
    requires Invariant(w)
    ensures Exclusive(w)
  {
    forall a | w.At(a).Won? || w.At(a).Held?
      ensures Named(w.log) == Some(a) && Oldest(w.log, a.role) == Some(w.At(a).mine)
      ensures w.column == if w.At(a).Won? then ReadyOf(a.role) else WorkingOf(a.role)
    {
      ClaimantIsNamed(w, a);
    }
    forall a | w.At(a).Owns() && !w.At(a).Won? ensures w.column.WorkingOf? { OwnerInItsRound(w, a); }
  }

  /**
   Append claims exclude, over every run of any agents of any stages, with crashes, restarts,
   hand-backs, and reconciles that check their own host: at most one has won or owns the ticket, its
   own claim is the oldest live one and the one the log names, and the column is Working while it works.
   */
  lemma {:induction false} AppendClaimsExclude(w: World, steps: seq<Step>)
    requires Invariant(w) && CanRun(w, steps)
    ensures Invariant(Run(w, steps)) && Exclusive(Run(w, steps))
    decreases |steps|
  {
    if steps != [] {
      StepKeepsInvariant(w, steps[0]);
      AppendClaimsExclude(Apply(w, steps[0]), steps[1..]);
    } else {
      InvariantExcludes(w);
    }
  }

  /** A host that appends in the round in which it saw the ticket waiting for it appends in time. */
  lemma SameRoundIsInTime(w: World, a: Agent)
    requires Invariant(w) && w.At(a).Checked? && !RoundEndedSince(w.log, a.role, w.At(a).at)
    ensures InTime(w, a.role)
  {
    assert Knows(w, a);
  }
}
