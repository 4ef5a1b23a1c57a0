/**
 When a restarted dispatcher may take a ticket for its own, on the append path (`Reconcile` in
 `internal/dispatch/dispatch.go`).
 */
module AppendReconcile {
  import opened Wrappers
  import opened Record
  import opened Stages
  import opened Arbitration
  import opened AppendClaims
  import opened AppendRuns

  // ----- A reconcile that checks its own host -----

  ghost predicate NobodyRobbed(w: World) {
    forall x | w.At(x).Held? :: w.column == WorkingOf(x.role)
  }

  lemma ReturnRobs(w: World, v: World, a: Agent, b: Agent)
    requires Leads(w, v) && v.At(a).Cleared? && v.At(b).Held?
    ensures exists t :: Leads(w, t) && !NobodyRobbed(t)
  {
    StepLeads(w, v, Return(a));
    var t := Apply(v, Return(a));
    assert t.At(b).Held? && t.column == ReadyOf(a.role);
  }

  function ClearedBy(v: World, a: Agent): World {
    World(v.column, v.log + [HandBack(NextStamp(v.log))], v.pc[a := Cleared], v.taken)
  }

  lemma ClearLeads(w: World, v: World, a: Agent)
    requires Leads(w, v) && v.At(a).Matched? && Increasing(v.log) && Tidy(v.log)
    ensures Leads(w, ClearedBy(v, a)) && Increasing(ClearedBy(v, a).log) && Tidy(ClearedBy(v, a).log)
    ensures forall role: string :: LiveClaims(ClearedBy(v, a).log, role) == []
  {
    var note := HandBack(NextStamp(v.log));
    NextStampFits(v.log, note);
    TidyAfter(v.log, note);
    StepLeads(w, v, Clear(a, NextStamp(v.log)));
    forall role: string ensures LiveClaims(v.log + [note], role) == [] { LiveAfterAppend(v.log, note, role); }
  }

  // Two reconciles of one host that both matched: the second returns what the first let out again.
  lemma DoubleMatchRobs(w: World, v: World, a: Agent, b: Agent)
    requires Leads(w, v) && Increasing(v.log) && Tidy(v.log) && a != b && b.role != ""
    requires v.At(a).Matched? && v.At(b).Matched?
    ensures exists t :: Leads(w, t) && !NobodyRobbed(t)
  {
    ClearLeads(w, v, b);
    var v1 := ClearedBy(v, b);
    StepLeads(w, v1, Return(b));
    var v2 := Apply(v1, Return(b));
    var at := NextStamp(v2.log);
    NextStampFits(v2.log, ClaimOf(b, at, ""));
    UndisputedClaim(w, v2, b, at);
    MatchRobsWorker(w, Taken(v2, b, ClaimOf(b, at, "")), a, b);
  }

  lemma MatchRobsWorker(w: World, v: World, a: Agent, b: Agent)
    requires Leads(w, v) && Increasing(v.log) && Tidy(v.log) && a != b && v.At(a).Matched? && v.At(b).Held?
    ensures exists t :: Leads(w, t) && !NobodyRobbed(t)
  {
    ClearLeads(w, v, a);
    ReturnRobs(w, ClearedBy(v, a), a, b);
  }

  // A match on a ticket that waits in a Ready column: whoever takes it once it is cleared is robbed.
  lemma MatchOnReadyRobs(w: World, v: World, a: Agent, b: Agent)
    requires Leads(w, v) && Increasing(v.log) && Tidy(v.log) && a != b && b.role != ""
    requires v.At(a).Matched? && v.column == ReadyOf(b.role)
    ensures exists t :: Leads(w, t) && !NobodyRobbed(t)
  {
    ClearLeads(w, v, a);
    var v1 := ClearedBy(v, a);
    StepLeads(w, v1, Crash(b));
    var v2 := Apply(v1, Crash(b));
    StepLeads(w, v2, List(b));
    var v3 := Apply(v2, List(b));
    var at := NextStamp(v3.log);
    NextStampFits(v3.log, ClaimOf(b, at, ""));
    UndisputedClaim(w, v3, b, at);
    ReturnRobs(w, Taken(v3, b, ClaimOf(b, at, "")), a, b);
  }

  // Who can own a ticket in a Working column on which a claim of this host is live.
  lemma OwnerOfTakenTicket(w: World, b: Agent)
    requires Invariant(w) && Live(w) != [] && w.column.WorkingOf? && w.At(b).Owns()
    ensures (w.At(b).Held? || w.At(b).Matched?) && b.role != ""
  {
    assert Knows(w, b);
    FirstLiveIsAClaim(w.log);
  }

  lemma WaitingTicketIsReady(w: World)
    requires Invariant(w) && Named(w.log).Some? && !w.column.WorkingOf?
    ensures w.column == ReadyOf(Named(w.log).value.role) && Named(w.log).value.role != ""
  {
    FirstLiveIsAClaim(w.log);
  }

  lemma TheftFollows(w: World, a: Agent)
    requires Invariant(w) && w.At(a).Listed? && NamesHost(w.log, a.host) && !HostVacant(w, a.host)
    ensures exists t :: Leads(Apply(w, Inspect(a)), t) && !NobodyRobbed(t)
  {
    var v := Apply(w, Inspect(a));
    PutElsewhere(w, v, a, Matched);
    StartsHere(v);
    if w.column.WorkingOf? {
      var role: string :| w.At(Agent(a.host, role)).Owns();
      var b := Agent(a.host, role);
      OwnerOfTakenTicket(w, b);
      assert v.At(b) == w.At(b);
      if w.At(b).Held? { MatchRobsWorker(v, v, a, b); } else { DoubleMatchRobs(v, v, a, b); }
    } else {
      WaitingTicketIsReady(w);
      var b := Agent(a.host + "'", Named(w.log).value.role);
      assert |b.host| != |a.host|;
      MatchOnReadyRobs(v, v, a, b);
    }
  }

  lemma CheckedRunsRobNobody(w: World, t: World)
    requires Invariant(w) && Leads(w, t)
    ensures NobodyRobbed(t)
  {
    LeadsKeepsInvariant(w, t);
  }

  /**
   Taking over a standing claim of its own host is safe, whatever happens afterwards, exactly when the
   ticket is still in a Working column and no dispatcher of that host owns it: otherwise some
   continuation takes a worker's ticket away.
   */
  lemma ReconcileIsSafeExactlyWhen(w: World, a: Agent)
    requires Invariant(w) && w.At(a).Listed? && NamesHost(w.log, a.host)
    ensures (forall t | Leads(Apply(w, Inspect(a)), t) :: NobodyRobbed(t)) <==> HostVacant(w, a.host)
  {
    if HostVacant(w, a.host) {
      StepKeepsInvariant(w, Inspect(a));
      forall t | Leads(Apply(w, Inspect(a)), t) ensures NobodyRobbed(t) {
        CheckedRunsRobNobody(Apply(w, Inspect(a)), t);
      }
    } else {
      TheftFollows(w, a);
    }
  }

  // ----- Over every run -----

  // A run in which a reconcile takes over whatever names its host.
  ghost predicate Possible(w: World, steps: seq<Step>)
    decreases |steps|
  {
    steps == [] || (Enabled(w, steps[0]) && Possible(Apply(w, steps[0]), steps[1..]))
  }

  ghost predicate NeverRobs(w: World) {
    forall t | Leads(w, t) :: NobodyRobbed(t)
  }

  // Nowhere along the run has it become possible that a worker is robbed by steps that are themselves checked.
  ghost predicate SafeAlong(w: World, steps: seq<Step>)
    decreases |steps|
  {
    NeverRobs(w) && (steps != [] ==> SafeAlong(Apply(w, steps[0]), steps[1..]))
  }

  /**
   A run endangers nobody's work exactly when every reconcile that took a ticket over in it would have
   passed a check of its own host's dispatchers.
   */
  lemma {:induction false} RunIsSafeExactlyWhen(w: World, steps: seq<Step>)
    requires Invariant(w) && Possible(w, steps)
    ensures SafeAlong(w, steps) <==> CanRun(w, steps)
    decreases |steps|
  {
    forall t | Leads(w, t) ensures NobodyRobbed(t) { CheckedRunsRobNobody(w, t); }
    if steps != [] {
      StepKeepsInvariant(w, steps[0]);
      if TakesOver(w, steps[0]) { ReconcileIsSafeExactlyWhen(w, steps[0].a); }
      if Invariant(Apply(w, steps[0])) { RunIsSafeExactlyWhen(Apply(w, steps[0]), steps[1..]); }
    }
  }

  // ----- A listing that has gone stale -----

  // A restarted agent has the ticket listed; another role on its host works the ticket by now.
  ghost predicate StaleListing(w: World, a: Agent, worker: Agent) {
    && w.At(a).Listed? && w.At(worker).Held? && worker.host == a.host && worker.role != a.role
    && NamesHost(w.log, a.host) && !HostVacant(w, a.host)
  }

  lemma ListedWhileWorked(a: Agent, peer: Agent)
    requires peer.role == a.role && peer.host != a.host && a.role != ""
    ensures exists w :: Leads(Fresh(a.role), w) && w.At(a).Listed? && w.At(peer).Held?
  {
    var w0, c := Fresh(a.role), ClaimOf(peer, Stamp(0, 0, true), "");
    StartsHere(w0);
    UndisputedClaim(w0, w0, peer, Stamp(0, 0, true));
    var w1 := Taken(w0, peer, c);
    StepLeads(w0, w1, Crash(a));
    var w2 := Apply(w1, Crash(a));
    StepLeads(w0, w2, List(a));
    var w3 := Apply(w2, List(a));
    assert w3.At(a).Listed? && w3.At(peer).Held?;
  }

  // The peer hands the ticket over while the restarted agent still has it listed.
  lemma HandedOverBehindTheListing(start: World, w: World, a: Agent, peer: Agent, role: string)
    requires Leads(start, w) && Invariant(w) && w.At(a).Listed? && w.At(peer).Held? && peer.role == a.role != role
    requires role != ""
    ensures exists t :: Leads(start, t) && t.At(a).Listed? && t.column == ReadyOf(role) && LiveClaims(t.log, role) == []
  {
    var at := NextStamp(w.log);
    NextStampFits(w.log, CloseOf(peer, at));
    HandOverLeads(start, w, peer, at, ReadyOf(role));
    var t := World(ReadyOf(role), w.log + [CloseOf(peer, at)], w.pc[peer := Idle], w.taken);
    assert Knows(w, peer);
    NoRoundAfter(w.log, CloseOf(peer, at), peer.role);
    assert t.At(a) == w.At(a);
  }

  lemma ClaimedBehindTheListing(start: World, w: World, a: Agent, worker: Agent)
    requires Leads(start, w) && Invariant(w) && w.At(a).Listed? && w.column == ReadyOf(worker.role)
    requires LiveClaims(w.log, worker.role) == [] && worker.host == a.host && worker.role != a.role && worker.role != ""
    ensures exists t :: Leads(start, t) && t.At(a).Listed? && t.At(worker).Held?
  {
    StepLeads(start, w, Crash(worker));
    var w1 := Apply(w, Crash(worker));
    StepLeads(start, w1, List(worker));
    var w2 := Apply(w1, List(worker));
    var at := NextStamp(w2.log);
    NextStampFits(w2.log, ClaimOf(worker, at, ""));
    UndisputedClaim(start, w2, worker, at);
    var t := Taken(w2, worker, ClaimOf(worker, at, ""));
    assert t.At(a) == w.At(a) && t.At(worker).Held?;
  }

  lemma HeldIsStaleListing(w: World, a: Agent, worker: Agent)
    requires Invariant(w) && w.At(a).Listed? && w.At(worker).Held? && worker.host == a.host && worker.role != a.role
    ensures StaleListing(w, a, worker)
  {
    ClaimantIsNamed(w, worker);
    assert worker == Agent(a.host, worker.role);
  }

  /** A run gets there: a developer restarts while a peer hands the ticket to the tester on the developer's own host. */
  lemma StaleListingIsReachable(a: Agent, peer: Agent, tester: Agent)
    requires peer.role == a.role && peer.host != a.host && tester.host == a.host && tester.role != a.role
    requires a.role != "" && tester.role != ""
    ensures exists w :: Leads(Fresh(a.role), w) && StaleListing(w, a, tester)
  {
    var w0 := Fresh(a.role);
    FreshIsInvariant(a.role);
    ListedWhileWorked(a, peer);
    var w1 :| Leads(w0, w1) && w1.At(a).Listed? && w1.At(peer).Held?;
    LeadsKeepsInvariant(w0, w1);
    HandedOverBehindTheListing(w0, w1, a, peer, tester.role);
    var w2 :| Leads(w0, w2) && w2.At(a).Listed? && w2.column == ReadyOf(tester.role)
              && LiveClaims(w2.log, tester.role) == [];
    LeadsKeepsInvariant(w0, w2);
    ClaimedBehindTheListing(w0, w2, a, tester);
    var w3 :| Leads(w0, w3) && w3.At(a).Listed? && w3.At(tester).Held?;
    LeadsKeepsInvariant(w0, w3);
    HeldIsStaleListing(w3, a, tester);
  }

  /** From there the restarted host returns the ticket to its own queue while the other role works it. */
  lemma StaleListingStealsLiveWork(w: World, a: Agent, worker: Agent)
    requires Invariant(w) && StaleListing(w, a, worker)
    ensures var clear := Clear(a, NextStamp(w.log));
      var s1 := Apply(w, Inspect(a)); var s2 := Apply(s1, clear); var s3 := Apply(s2, Return(a));
      && Enabled(w, Inspect(a)) && Enabled(s1, clear) && Enabled(s2, Return(a))
      && s3.At(worker).Held? && s3.column == ReadyOf(a.role) && Named(s3.log) == None
  {
    NextStampFits(w.log, HandBack(NextStamp(w.log)));
    NamedAfterAppend(w.log, HandBack(NextStamp(w.log)));
  }
}
