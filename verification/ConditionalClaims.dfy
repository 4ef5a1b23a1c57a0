/**
 Claiming by conditional write (`Claim` in `internal/platform/claim.go`) together with the steps of
 the dispatcher that surround it (`start`, `release`, `work` and `Reconcile` in
 `internal/dispatch/dispatch.go`): every stage's hosts, one ticket, crashes and restarts.

 Every store request is one atomic step, comment keys strictly increase in append order, comment
 writes succeed, and nobody outside the protocol moves the ticket, closes a round or hands the ticket
 back. A comment may or may not bump the version.
 */
module ConditionalClaims {
  import opened Wrappers
  import opened Record
  import opened Stages

  datatype Pc =
    | Idle
    | Seen(version: nat)      // read the ticket in its Ready column
    | Swapped                 // won the conditional write, claim not yet recorded
    | Working(mine: Comment)  // claim recorded; the handler runs
    | Forgiven                // said on the ticket that the attempt costs nothing, or handed it back
    | Closed                  // round closed, ticket not yet moved
    | Placed                  // the handler moved the ticket itself; the round is still open
    | Down                    // crashed
    | Listed                  // restarted; reconcile found the ticket listed in its Working column
    | Matched                 // reconcile re-read the ticket and took it for its own
    | Cleared                 // reconcile reset the interrupted attempt
  {
    // By a claim of its own stage.
    predicate InStage() {
      Swapped? || Working? || Forgiven? || Closed?
    }

    predicate Owns() {
      InStage() || Matched? || Cleared?
    }
  }

  datatype World = World(column: Column, version: nat, log: seq<Comment>, pc: map<Agent, Pc>) {
    function At(a: Agent): Pc {
      if a in pc then pc[a] else Idle
    }

    function Put(a: Agent, to: Pc): World {
      this.(pc := pc[a := to])
    }

    function Write(to: Column): World {
      this.(column := to, version := version + 1)
    }

    function Say(c: Comment, bumps: bool): World {
      this.(log := log + [c], version := if bumps then version + 1 else version)
    }
  }

  datatype Step =
    | Look(a: Agent)
    | Swap(a: Agent)
    | Attribute(a: Agent, at: Stamp, runId: string)
    | Forgive(a: Agent, at: Stamp)
    | Close(a: Agent, at: Stamp)
    | Move(a: Agent, to: Column)
    | Place(a: Agent, to: Column)   // by the handler, which then answers that it handled the ticket
    | Crash(a: Agent)
    | List(a: Agent)
    | Inspect(a: Agent)
    | Clear(a: Agent, at: Stamp)
    | Return(a: Agent)
    | Remark(c: Comment, bumps: bool)

  ghost predicate Fits(w: World, c: Comment) {
    Increasing(w.log + [c])
  }

  ghost predicate Enabled(w: World, step: Step) {
    match step
    case Look(a) => w.At(a).Idle? && w.column == ReadyOf(a.role)
    case Swap(a) => w.At(a).Seen?
    case Attribute(a, at, run) => w.At(a).Swapped? && Fits(w, ClaimOf(a, at, run))
    case Forgive(a, at) => w.At(a).Working? && Fits(w, HandBack(at))
    case Close(a, at) => (w.At(a).Working? || w.At(a).Forgiven? || w.At(a).Placed?) && Fits(w, CloseOf(a, at))
    case Move(a, to) => w.At(a).Closed?
    case Place(a, to) => w.At(a).Working?
    case Crash(a) => true
    case List(a) => w.At(a).Down?
    case Inspect(a) => w.At(a).Listed?
    case Clear(a, at) => w.At(a).Matched? && Fits(w, HandBack(at))
    case Return(a) => w.At(a).Cleared?
    case Remark(c, bumps) => !c.Closes("") && !c.Claims("") && Fits(w, c)
  }

  function Apply(w: World, step: Step): World {
    match step
    case Look(a) => w.Put(a, Seen(w.version))
    case Swap(a) =>
      if w.At(a) == Seen(w.version) then w.Put(a, Swapped).Write(WorkingOf(a.role)) else w.Put(a, Idle)
    case Attribute(a, at, run) => w.Put(a, Working(ClaimOf(a, at, run))).Say(ClaimOf(a, at, run), at.bumps)
    case Forgive(a, at) => w.Put(a, Forgiven).Say(HandBack(at), at.bumps)
    case Close(a, at) => w.Put(a, if w.At(a).Placed? then Idle else Closed).Say(CloseOf(a, at), at.bumps)
    case Move(a, to) => w.Put(a, Idle).Write(to)
    case Place(a, to) => w.Put(a, Placed).Write(to)
    case Crash(a) => w.Put(a, Down)
    case List(a) => w.Put(a, if w.column == WorkingOf(a.role) then Listed else Idle)
    case Inspect(a) => w.Put(a, if NamesHost(w.log, a.host) then Matched else Idle)
    case Clear(a, at) => w.Put(a, Cleared).Say(HandBack(at), at.bumps)
    case Return(a) => w.Put(a, Idle).Write(ReadyOf(a.role))
    case Remark(c, bumps) => w.Say(c, bumps)
  }

  // What a reconcile would have to know before it takes a ticket: that the ticket it read again is
  // still in a Working column and that nobody owns it.
  ghost predicate Vacant(w: World) {
    w.column.WorkingOf? && forall a :: !w.At(a).Owns()
  }

  // The part of it a host can look up in its own dispatchers.
  ghost predicate HostVacant(w: World, host: string) {
    w.column.WorkingOf? && forall role: string :: !w.At(Agent(host, role)).Owns()
  }

  ghost predicate TakesOver(w: World, step: Step) {
    step.Inspect? && NamesHost(w.log, step.a.host)
  }

  // ----- Ownership, whoever places tickets -----

  ghost predicate NoOtherOwner(w: World, a: Agent) {
    forall b | b != a :: !w.At(b).Owns()
  }

  ghost predicate Knows(w: World, a: Agent) {
    && (w.At(a).Owns() ==> w.column.WorkingOf?)
    && (w.At(a).InStage() ==> w.column == WorkingOf(a.role))
    && (w.At(a).Seen? ==>
          w.At(a).version <= w.version && (w.At(a).version == w.version ==> w.column == ReadyOf(a.role)))
    && (w.At(a).Working? ==> IsClaimOf(w.At(a).mine, a))
  }

  ghost predicate OneOwner(w: World) {
    forall a, b | w.At(a).Owns() && w.At(b).Owns() :: a == b
  }

  ghost predicate Owned(w: World) {
    Increasing(w.log) && OneOwner(w) && forall a :: Knows(w, a)
  }

  ghost predicate SameElsewhere(w: World, t: World, a: Agent) {
    forall b {:trigger t.At(b)} :: b != a ==> t.At(b) == w.At(b)
  }

  lemma PutElsewhere(w: World, t: World, a: Agent, to: Pc)
    requires t.pc == w.pc[a := to]
    ensures t.At(a) == to && SameElsewhere(w, t, a)
  {}

  lemma OwnerIsAlone(w: World, a: Agent)
    requires OneOwner(w) && w.At(a).Owns()
    ensures NoOtherOwner(w, a)
  {}

  // Whatever one agent does, ownership holds if it holds for that agent.
  lemma OwnedAfter(w: World, t: World, a: Agent)
    requires Owned(w) && SameElsewhere(w, t, a) && Increasing(t.log) && Knows(t, a)
    requires w.version <= t.version
    requires t.column == w.column || (w.version < t.version && NoOtherOwner(w, a))
    requires t.At(a).Owns() ==> NoOtherOwner(w, a)
    ensures Owned(t)
  {
    forall b ensures Knows(t, b) {
      assert Knows(w, b);
      if b != a { assert t.At(b) == w.At(b); }
    }
    forall b, c | t.At(b).Owns() && t.At(c).Owns() ensures b == c {
      assert b != a ==> t.At(b) == w.At(b);
      assert c != a ==> t.At(c) == w.At(c);
    }
  }

  lemma LookKeepsOwned(w: World, a: Agent)
    requires Owned(w) && Enabled(w, Look(a))
    ensures Owned(Apply(w, Look(a)))
  {
    var t := Apply(w, Look(a));
    PutElsewhere(w, t, a, Seen(w.version));
    OwnedAfter(w, t, a);
  }

  lemma SwapKeepsOwned(w: World, a: Agent)
    requires Owned(w) && Enabled(w, Swap(a))
    ensures Owned(Apply(w, Swap(a)))
  {
    var t := Apply(w, Swap(a));
    PutElsewhere(w, t, a, t.At(a));
    assert Knows(w, a);
    if w.At(a) == Seen(w.version) {
      forall b | b != a ensures !w.At(b).Owns() { assert Knows(w, b); }
    }
    OwnedAfter(w, t, a);
  }

  // An owner that says something keeps the ticket where it is.
  lemma SayingKeepsOwned(w: World, t: World, a: Agent, to: Pc, c: Comment, bumps: bool)
    requires Owned(w) && Fits(w, c) && t == w.Put(a, to).Say(c, bumps)
    requires (w.At(a).Owns() && (to.Owns() ==> to.Cleared? || (w.At(a).InStage() && to.InStage()))) || to.Idle?
    requires !to.Seen? && (to.Working? ==> IsClaimOf(to.mine, a))
    ensures Owned(t)
  {
    PutElsewhere(w, t, a, to);
    assert Knows(w, a);
    if to.Owns() { OwnerIsAlone(w, a); }
    OwnedAfter(w, t, a);
  }

  // An owner that moves the ticket gives it up.
  lemma MovingKeepsOwned(w: World, t: World, a: Agent, to: Pc, column: Column)
    requires Owned(w) && w.At(a).Owns() && (to.Idle? || to.Placed?) && t == w.Put(a, to).Write(column)
    ensures Owned(t)
  {
    PutElsewhere(w, t, a, to);
    OwnerIsAlone(w, a);
    OwnedAfter(w, t, a);
  }

  lemma LosingKeepsOwned(w: World, t: World, a: Agent, to: Pc)
    requires Owned(w) && t == w.Put(a, to) && (to.Down? || to.Listed? || to.Idle?)
    ensures Owned(t)
  {
    PutElsewhere(w, t, a, to);
    OwnedAfter(w, t, a);
  }

  lemma InspectKeepsOwned(w: World, a: Agent)
    requires Owned(w) && Enabled(w, Inspect(a))
    ensures Owned(Apply(w, Inspect(a))) <==> (TakesOver(w, Inspect(a)) ==> Vacant(w))
  {
    if TakesOver(w, Inspect(a)) {
      if Vacant(w) { VacantMatchKeepsOwned(w, a); } else { OtherMatchBreaksOwned(w, a); }
    } else {
      LosingKeepsOwned(w, Apply(w, Inspect(a)), a, Idle);
    }
  }

  lemma VacantMatchKeepsOwned(w: World, a: Agent)
    requires Owned(w) && Vacant(w)
    ensures Owned(w.Put(a, Matched))
  {
    var t := w.Put(a, Matched);
    PutElsewhere(w, t, a, Matched);
    OwnedAfter(w, t, a);
  }

  lemma OtherMatchBreaksOwned(w: World, a: Agent)
    requires Owned(w) && w.At(a).Listed? && !Vacant(w)
    ensures !Owned(w.Put(a, Matched))
  {
    var t := w.Put(a, Matched);
    PutElsewhere(w, t, a, Matched);
    if w.column.WorkingOf? {
      var b :| w.At(b).Owns();
      assert t.At(b).Owns() && t.At(a).Owns() && a != b;
    } else {
      assert !Knows(t, a);
    }
  }

  lemma RemarkKeepsOwned(w: World, c: Comment, bumps: bool)
    requires Owned(w) && Enabled(w, Remark(c, bumps))
    ensures Owned(Apply(w, Remark(c, bumps)))
  {
    var t, a := Apply(w, Remark(c, bumps)), Agent("", "");
    assert forall b {:trigger t.At(b)} :: t.At(b) == w.At(b);
    assert Knows(w, a);
    if t.At(a).Owns() { OwnerIsAlone(w, a); }
    OwnedAfter(w, t, a);
  }

  /**
   Every step of every agent keeps ownership exclusive, a handler's own placing of the ticket included,
   except a reconcile that takes over a ticket somebody owns or that has left the Working columns.
   */
  lemma StepKeepsOwned(w: World, step: Step)
    requires Owned(w) && Enabled(w, step)
    ensures Owned(Apply(w, step)) <==> (TakesOver(w, step) ==> Vacant(w))
  {
    var t := Apply(w, step);
    match step
    case Look(a) => LookKeepsOwned(w, a);
    case Swap(a) => SwapKeepsOwned(w, a);
    case Attribute(a, at, run) =>
      SayingKeepsOwned(w, t, a, Working(ClaimOf(a, at, run)), ClaimOf(a, at, run), at.bumps);
    case Forgive(a, at) => SayingKeepsOwned(w, t, a, Forgiven, HandBack(at), at.bumps);
    case Close(a, at) => SayingKeepsOwned(w, t, a, if w.At(a).Placed? then Idle else Closed, CloseOf(a, at), at.bumps);
    case Move(a, to) => MovingKeepsOwned(w, t, a, Idle, to);
    case Place(a, to) => MovingKeepsOwned(w, t, a, Placed, to);
    case Crash(a) => LosingKeepsOwned(w, t, a, Down);
    case List(a) => LosingKeepsOwned(w, t, a, if w.column == WorkingOf(a.role) then Listed else Idle);
    case Inspect(a) => InspectKeepsOwned(w, a);
    case Clear(a, at) => SayingKeepsOwned(w, t, a, Cleared, HandBack(at), at.bumps);
    case Return(a) => MovingKeepsOwned(w, t, a, Idle, ReadyOf(a.role));
    case Remark(c, bumps) => RemarkKeepsOwned(w, c, bumps);
  }

  // ----- The log agrees, when no handler places a ticket itself -----

  function Live(w: World): seq<Comment> {
    LiveClaims(w.log, "")
  }

  // At most one claim is live, and it keeps the ticket in its stage's Working column.
  ghost predicate RoundAgrees(w: World) {
    Live(w) == [] || (|Live(w)| == 1 && Live(w)[0].kind.ClaimNote? && w.column == WorkingOf(Live(w)[0].kind.claim.role))
  }

  ghost predicate SaysSo(w: World, a: Agent) {
    match w.At(a)
    case Working(m) => Live(w) == [m]
    case Matched => |Live(w)| == 1 && Live(w)[0].kind.ClaimNote? && Live(w)[0].kind.claim.host == a.host
    case Swapped | Forgiven | Closed | Cleared => Live(w) == []
    case Placed => false
    case _ => true
  }

  ghost predicate Invariant(w: World) {
    Owned(w) && RoundAgrees(w) && forall a :: SaysSo(w, a)
  }

  // A ticket that waits for its first claim.
  function Fresh(role: string): World {
    World(ReadyOf(role), 0, [], map[])
  }

  lemma FreshIsInvariant(role: string)
    ensures Invariant(Fresh(role))
  {}

  lemma RoundAfter(w: World, t: World, a: Agent)
    requires Invariant(w) && Owned(t) && SameElsewhere(w, t, a) && RoundAgrees(t) && SaysSo(t, a)
    requires Live(t) == Live(w) || NoOtherOwner(w, a)
    ensures Invariant(t)
  {
    forall b ensures SaysSo(t, b) {
      assert SaysSo(w, b);
      if b != a { assert t.At(b) == w.At(b); }
    }
  }

  lemma AttributeKeeps(w: World, step: Step)
    requires step.Attribute? && Invariant(w) && Enabled(w, step) && Owned(Apply(w, step))
    ensures Invariant(Apply(w, step))
  {
    var t, mine := Apply(w, step), ClaimOf(step.a, step.at, step.runId);
    PutElsewhere(w, t, step.a, Working(mine));
    LiveAfterAppend(w.log, mine, "");
    assert SaysSo(w, step.a) && Knows(w, step.a);
    OwnerIsAlone(w, step.a);
    RoundAfter(w, t, step.a);
  }

  // Forgive, Close and Clear all end the round and keep the ticket where it is.
  lemma EndOfRoundKeeps(w: World, t: World, a: Agent, to: Pc, c: Comment, bumps: bool)
    requires Invariant(w) && w.At(a).Owns() && c.Closes("") && (to.Forgiven? || to.Closed? || to.Cleared?)
    requires t == w.Put(a, to).Say(c, bumps) && Owned(t)
    ensures Invariant(t)
  {
    PutElsewhere(w, t, a, to);
    LiveAfterAppend(w.log, c, "");
    OwnerIsAlone(w, a);
    RoundAfter(w, t, a);
  }

  // Move and Return take the ticket out of its Working column once no claim is live.
  lemma HandOverKeeps(w: World, t: World, a: Agent, column: Column)
    requires Invariant(w) && (w.At(a).Closed? || w.At(a).Cleared?) && t == w.Put(a, Idle).Write(column) && Owned(t)
    ensures Invariant(t)
  {
    PutElsewhere(w, t, a, Idle);
    assert SaysSo(w, a);
    RoundAfter(w, t, a);
  }

  lemma SwapKeeps(w: World, a: Agent)
    requires Invariant(w) && Enabled(w, Swap(a)) && Owned(Apply(w, Swap(a)))
    ensures Invariant(Apply(w, Swap(a)))
  {
    var t := Apply(w, Swap(a));
    PutElsewhere(w, t, a, t.At(a));
    assert Knows(w, a);
    RoundAfter(w, t, a);
  }

  // Looking, crashing and listing say nothing and own nothing.
  lemma BystandingKeeps(w: World, t: World, a: Agent, to: Pc)
    requires Invariant(w) && t == w.Put(a, to) && Owned(t) && (to.Seen? || to.Down? || to.Listed? || to.Idle?)
    ensures Invariant(t)
  {
    PutElsewhere(w, t, a, to);
    RoundAfter(w, t, a);
  }

  lemma MatchKeeps(w: World, a: Agent)
    requires Invariant(w) && NamesHost(w.log, a.host) && Owned(w.Put(a, Matched))
    ensures Invariant(w.Put(a, Matched))
  {
    var t := w.Put(a, Matched);
    PutElsewhere(w, t, a, Matched);
    FirstLiveIsAClaim(w.log);
    RoundAfter(w, t, a);
  }

  lemma RemarkKeeps(w: World, c: Comment, bumps: bool)
    requires Invariant(w) && Enabled(w, Remark(c, bumps)) && Owned(Apply(w, Remark(c, bumps)))
    ensures Invariant(Apply(w, Remark(c, bumps)))
  {
    var t, a := Apply(w, Remark(c, bumps)), Agent("", "");
    LiveAfterAppend(w.log, c, "");
    assert forall b {:trigger t.At(b)} :: t.At(b) == w.At(b);
    assert SaysSo(w, a);
    RoundAfter(w, t, a);
  }

  // While the log agrees, asking the host's own dispatchers is asking everybody.
  lemma HostCheckSuffices(w: World, host: string)
    requires Invariant(w) && NamesHost(w.log, host) && HostVacant(w, host)
    ensures Vacant(w)
  {
    forall a ensures !w.At(a).Owns() {
      OwnerIsOnTheHost(w, host, a);
      assert a == Agent(a.host, a.role);
    }
  }

  // While a claim is live, whoever owns the ticket is its maker, or has taken it over on the same host.
  lemma OwnerIsOnTheHost(w: World, host: string, a: Agent)
    requires Invariant(w) && NamesHost(w.log, host)
    ensures w.At(a).Owns() ==> a.host == host && (w.At(a).Matched? || (w.At(a).Working? && Named(w.log) == Some(a)))
  {
    FirstLiveIsAClaim(w.log);
    assert SaysSo(w, a);
    assert w.At(a).Working? ==> IsClaimOf(w.At(a).mine, a) by { assert Knows(w, a); }
  }

  /**
   Every step keeps the ticket's owner, its column and its log in agreement, except a handler's placing
   of the ticket and a reconcile that its own host's dispatchers could have stopped.
   */
  lemma StepKeepsInvariant(w: World, step: Step)
    requires Invariant(w) && Enabled(w, step)
    ensures Invariant(Apply(w, step)) <==> !step.Place? && (TakesOver(w, step) ==> HostVacant(w, step.a.host))
  {
    if TakesOver(w, step) && HostVacant(w, step.a.host) { HostCheckSuffices(w, step.a.host); }
    StepKeepsOwned(w, step);
    if step.Place? {
      PutElsewhere(w, Apply(w, step), step.a, Placed);
      assert !SaysSo(Apply(w, step), step.a);
    } else if Owned(Apply(w, step)) {
      RoundStep(w, step);
    }
  }

  lemma RoundStep(w: World, step: Step)
    requires Invariant(w) && Enabled(w, step) && !step.Place? && Owned(Apply(w, step))
    ensures Invariant(Apply(w, step))
  {
    var t := Apply(w, step);
    match step
    case Look(a) => BystandingKeeps(w, t, a, Seen(w.version));
    case Swap(a) => SwapKeeps(w, a);
    case Attribute(_, _, _) => AttributeKeeps(w, step);
    case Forgive(a, at) => EndOfRoundKeeps(w, t, a, Forgiven, HandBack(at), at.bumps);
    case Close(a, at) =>
      assert SaysSo(w, a);
      EndOfRoundKeeps(w, t, a, Closed, CloseOf(a, at), at.bumps);
    case Move(a, to) => HandOverKeeps(w, t, a, to);
    case Crash(a) => BystandingKeeps(w, t, a, Down);
    case List(a) => BystandingKeeps(w, t, a, if w.column == WorkingOf(a.role) then Listed else Idle);
    case Inspect(a) =>
      if NamesHost(w.log, a.host) { MatchKeeps(w, a); } else { BystandingKeeps(w, t, a, Idle); }
    case Clear(a, at) => EndOfRoundKeeps(w, t, a, Cleared, HandBack(at), at.bumps);
    case Return(a) => HandOverKeeps(w, t, a, ReadyOf(a.role));
    case Remark(c, bumps) => RemarkKeeps(w, c, bumps);
  }

  // ----- Over every run -----

  function Run(w: World, steps: seq<Step>): World
    decreases |steps|
  {
    if steps == [] then w else Run(Apply(w, steps[0]), steps[1..])
  }

  // A run without handler-placed tickets, in which reconcile checks its own host's dispatchers.
  ghost predicate Checked(w: World, steps: seq<Step>)
    decreases |steps|
  {
    steps == [] ||
    (&& Enabled(w, steps[0]) && !steps[0].Place?
     && (TakesOver(w, steps[0]) ==> HostVacant(w, steps[0].a.host))
     && Checked(Apply(w, steps[0]), steps[1..]))
  }

  /** At most one agent owns the ticket; while one works, the column and the log both say so. */
  ghost predicate Exclusive(w: World) {
    && OneOwner(w)
    && (forall a | w.At(a).InStage() :: w.column == WorkingOf(a.role))
    && (forall a | w.At(a).Working? :: Named(w.log) == Some(a))
  }

  lemma WorkerIsHolder(w: World, a: Agent)
    requires Invariant(w) && w.At(a).Working?
    ensures Named(w.log) == Some(a) && Oldest(w.log, "") == Some(w.At(a).mine)
  {
    assert SaysSo(w, a) && Knows(w, a);
    FirstLiveIsAClaim(w.log);
    OldestOfIncreasing(w.log, "");
  }

  lemma InvariantExcludes(w: World)
    requires Invariant(w)
    ensures Exclusive(w)
  {
    forall a | w.At(a).InStage() ensures w.column == WorkingOf(a.role) { assert Knows(w, a); }
    forall a | w.At(a).Working? ensures Named(w.log) == Some(a) { WorkerIsHolder(w, a); }
  }

  /**
   Conditional claims exclude, over every run of any agents with crashes and restarts in which a
   reconcile that takes a ticket finds it still in a Working column and owned by nobody on its host.
   */
  lemma {:induction false} ConditionalClaimsExclude(w: World, steps: seq<Step>)
    requires Invariant(w) && Checked(w, steps)
    ensures Invariant(Run(w, steps)) && Exclusive(Run(w, steps))
    decreases |steps|
  {
    if steps != [] {
      StepKeepsInvariant(w, steps[0]);
      ConditionalClaimsExclude(Apply(w, steps[0]), steps[1..]);
    } else {
      InvariantExcludes(w);
    }
  }
}
