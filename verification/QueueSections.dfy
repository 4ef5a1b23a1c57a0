/**
 What each critical section of the admission queue does with the requests (`internal/queue/queue.go`),
 told in the queue's fields alone: who leaves, who stays, who was granted, and with which priority.
 */
module QueueSections {
  import opened AdmissionQueue

  // ----- The order -----

  /** Critical before high before normal before low, and within a priority the older request. */
  lemma BetterMeans(a: Waiter, b: Waiter)
    ensures Better(a, b) <==>
      || (a.prio == b.prio && a.order < b.order)
      || (a.prio.Critical? && !b.prio.Critical?)
      || (a.prio.High? && (b.prio.Normal? || b.prio.Low?))
      || (a.prio.Normal? && b.prio.Low?)
  {}

  /** The names the board uses, and everything else, which is low. */
  lemma PrioritiesByName(name: string)
    ensures ParsePriority(name).Critical? <==> name == "critical" || name == "urgent" || name == "p0"
    ensures ParsePriority(name).High? <==> name == "high" || name == "p1"
    ensures ParsePriority(name).Normal? <==> name == "normal" || name == "medium" || name == "p2"
  {
    assert "critical"[0] == 'c' && "urgent"[0] == 'u' && "high"[0] == 'h' && "normal"[0] == 'n' && "medium"[0] == 'm';
    assert "p0"[1] == '0' && "p1"[1] == '1' && "p2"[1] == '2' && "p0"[0] == 'p' && "p1"[0] == 'p' && "p2"[0] == 'p';
  }

  /** A new queue has at least one slot and room for one waiter, and as many as asked for beyond that. */
  lemma NewIsClamped(slots: nat, bound: nat)
    ensures New(slots, bound).slots >= 1 && New(slots, bound).bound >= 1
    ensures slots >= 1 ==> New(slots, bound).slots == slots
    ensures bound >= 1 ==> New(slots, bound).bound == bound
    ensures slots == 0 ==> New(slots, bound).slots == 1
    ensures bound == 0 ==> New(slots, bound).bound == 1
    ensures New(slots, bound).waiters == [] && New(slots, bound).granted == map[] && New(slots, bound).running == 0
  {}

  // ----- Who can be admitted -----

  /** A waiter of a settled queue waits for a reason: the box is critical's, drains for one, or is full. */
  lemma SettledMeans(s: State, w: Waiter)
    requires Accounted(s) && Settled(s) && w in s.waiters
    ensures w.prio.Critical? ==> s.running > 0
    ensures !w.prio.Critical? ==>
      s.runningCritical || s.running == s.slots || exists c | c in s.waiters :: c.prio.Critical?
  {
    var i :| 0 <= i < |s.waiters| && s.waiters[i] == w;
    assert !s.CanAdmit(s.waiters[i].prio);
    if s.CriticalWaiting() {
      var j :| 0 <= j < |s.waiters| && s.waiters[j].prio.Critical?;
      assert s.waiters[j] in s.waiters;
    }
  }

  // ----- Leaving -----

  /** A cancel takes out the request cancelled and nobody else. */
  lemma CancelRemovesThatRequest(s: State, i: nat)
    requires Accounted(s) && i < |s.waiters|
    ensures Next(s, Cancel(s.waiters[i].order)) == s.(waiters := s.waiters[..i] + s.waiters[i + 1..])
  {
    assert s.IndexOf(s.waiters[i].order) == i;
  }

  /** A cancel of a request that neither waits nor was granted changes nothing. */
  lemma CancelOfAStranger(s: State, order: nat)
    requires order !in s.granted && forall w | w in s.waiters :: w.order != order
    ensures Next(s, Cancel(order)) == s && Next(s, Release(order)) == s
  {
    assert forall j | 0 <= j < |s.waiters| :: s.waiters[j] in s.waiters;
    assert s.IndexOf(order) == -1;
  }

  ghost predicate NewlyReleased(s: State, t: State) {
    exists o :: o in s.granted && o !in s.released && o in t.released
  }

  /** A step frees a slot exactly when a request that held one has been released by it. */
  lemma FreesMeans(s: State, step: Step)
    requires Invariant(s)
    ensures Frees(s, step) <==> NewlyReleased(s, Next(s, step))
  {
    match step
    case Arrive(prio) => ArrivalIsAccountedFor(s, prio);
    case Release(order) =>
      if order in s.Holders() { ReleaseIsAccountedFor(s, order); }
      else if order in s.granted { assert Next(s, step) == s; }
    case Cancel(order) => CancelFrees(s, order);
  }

  lemma CancelFrees(s: State, order: nat)
    requires Invariant(s)
    ensures Frees(s, Cancel(order)) <==> NewlyReleased(s, Next(s, Cancel(order)))
  {
    if order in s.Holders() {
      assert s.IndexOf(order) == -1;
      RacedCancelReturnsTheSlot(s, order);
      assert Next(s, Cancel(order)) == Next(s, Release(order));
      ReleaseIsAccountedFor(s, order);
    } else {
      assert Next(s, Cancel(order)).released == s.released;
    }
  }

  // ----- Dispatch -----

  // Who a dispatch leaves waiting, and whom it granted with which priority.
  ghost predicate Moved(s: State, t: State) {
    && (forall w | w in t.waiters :: w in s.waiters)
    && (forall w | w in s.waiters :: w in t.waiters || (w.order in t.granted && t.granted[w.order] == w.prio))
    && (forall g | g in t.granted ::
          (g in s.granted && t.granted[g] == s.granted[g]) || Waiter(t.granted[g], g) in s.waiters)
    && s.granted.Keys <= t.granted.Keys
    && t.running - s.running == |s.waiters| - |t.waiters|
    && t.released == s.released && t.nextOrder == s.nextOrder && t.slots == s.slots && t.bound == s.bound
  }

  lemma GrantMoves(s: State, k: nat)
    requires Accounted(s) && k < |s.waiters|
    ensures Moved(s, s.Grant(k))
  {
    var t, x := s.Grant(k), s.waiters[k];
    forall w | w in s.waiters ensures w in t.waiters || w == x {
      var i :| 0 <= i < |s.waiters| && s.waiters[i] == w;
      if i != k { assert t.waiters[if i < k then i else i - 1] == w; }
    }
    forall g | g in t.granted
      ensures (g in s.granted && t.granted[g] == s.granted[g]) || Waiter(t.granted[g], g) in s.waiters
    {
      if g == x.order { assert Waiter(t.granted[g], g) == x; }
    }
  }

  lemma GrantedElsewhere(s: State, t: State, u: State, w: Waiter)
    requires Accounted(s) && Moved(s, t) && Moved(t, u) && w in s.waiters && w !in t.waiters
    requires forall x | x in t.waiters :: x.order !in t.granted
    ensures w.order in u.granted && u.granted[w.order] == w.prio
  {
    assert w.order in t.granted && w.order in u.granted;
    assert Waiter(u.granted[w.order], w.order) !in t.waiters;
  }

  lemma MovedTwice(s: State, t: State, u: State)
    requires Accounted(s) && Accounted(t) && Moved(s, t) && Moved(t, u)
    ensures Moved(s, u)
  {
    forall x | x in t.waiters ensures x.order !in t.granted {
      var i :| 0 <= i < |t.waiters| && t.waiters[i] == x;
      assert t.waiters[i].order !in t.granted;
    }
    forall w | w in s.waiters ensures w in u.waiters || (w.order in u.granted && u.granted[w.order] == w.prio) {
      if w !in t.waiters { GrantedElsewhere(s, t, u, w); }
    }
    forall g | g in u.granted
      ensures (g in s.granted && u.granted[g] == s.granted[g]) || Waiter(u.granted[g], g) in s.waiters
    {
      if !(g in t.granted && u.granted[g] == t.granted[g]) { assert Waiter(u.granted[g], g) in t.waiters; }
    }
  }

  /** Dispatch grants waiters, each once and with its own priority, and does nothing else. */
  lemma {:induction false} DispatchConserves(s: State)
    requires Accounted(s)
    ensures Moved(s, s.Dispatch())
    decreases |s.waiters|
  {
    var k := s.Pick(|s.waiters|);
    if k != -1 {
      GrantAccounts(s, k);
      GrantMoves(s, k);
      DispatchConserves(s.Grant(k));
      MovedTwice(s, s.Grant(k), s.Dispatch());
    }
  }

  // ----- Arriving and releasing -----

  /**
   An arrival waits, or was granted, or is turned away because the queue was full; and everybody who
   waited still waits or was granted, with the priority asked for.
   */
  lemma ArrivalIsAccountedFor(s: State, prio: Priority)
    requires Invariant(s)
    ensures var t, came := Next(s, Arrive(prio)), Waiter(prio, s.nextOrder);
      && t.nextOrder == s.nextOrder + 1 && t.released == s.released && t.slots == s.slots && t.bound == s.bound
      && (|| came in t.waiters
          || (came.order in t.granted && t.granted[came.order] == prio)
          || (came.order !in t.granted && |s.waiters| == s.bound))
      && (forall w | w in s.waiters :: w in t.waiters || (w.order in t.granted && t.granted[w.order] == w.prio))
      && (forall w | w in t.waiters :: w in s.waiters || w == came)
      && (forall g | g in t.granted ::
            || (g in s.granted && t.granted[g] == s.granted[g])
            || Waiter(t.granted[g], g) in s.waiters || Waiter(t.granted[g], g) == came)
  {
    var q, came := s.Queued(prio), Waiter(prio, s.nextOrder);
    var d := q.Dispatch();
    QueuedAccounts(s, prio);
    DispatchConserves(q);
    DispatchSettles(q);
    DispatchShrinks(q);
    assert q.waiters == s.waiters + [came] && q.granted == s.granted;
    ShedTakesTheArrival(d, came);
    assert Next(s, Arrive(prio)) == d.Shed(came.order);
    assert came in q.waiters;
    ArrivalMoves(s, d, d.Shed(came.order), came);
  }

  lemma ArrivalMoves(s: State, d: State, t: State, came: Waiter)
    requires Moved(s.Queued(came.prio), d) && came == Waiter(came.prio, s.nextOrder)
    requires forall w | w in s.waiters :: w.order != came.order
    requires t.granted == d.granted && (forall x | x in t.waiters :: x in d.waiters)
    requires forall x | x in d.waiters && x.order != came.order :: x in t.waiters
    ensures forall w | w in s.waiters :: w in t.waiters || (w.order in t.granted && t.granted[w.order] == w.prio)
    ensures forall w | w in t.waiters :: w in s.waiters || w == came
    ensures forall g | g in t.granted ::
      || (g in s.granted && t.granted[g] == s.granted[g])
      || Waiter(t.granted[g], g) in s.waiters || Waiter(t.granted[g], g) == came
  {
    var q := s.Queued(came.prio);
    assert q.waiters == s.waiters + [came] && q.granted == s.granted;
    assert forall w :: w in q.waiters <==> w in s.waiters || w == came;
  }

  // Past the bound the arrival leaves, if it still waits; otherwise nothing happens.
  lemma ShedTakesTheArrival(d: State, w: Waiter)
    requires Accounted(d)
    ensures var t := d.Shed(w.order);
      && t.granted == d.granted && t.released == d.released && t.slots == d.slots && t.bound == d.bound
      && t.nextOrder == d.nextOrder
      && (forall x | x in t.waiters :: x in d.waiters)
      && (forall x | x in d.waiters && x.order != w.order :: x in t.waiters)
      && (w in d.waiters ==> w in t.waiters || |d.waiters| > d.bound)
  {
    forall x | x in d.waiters && x.order != w.order ensures x in d.Shed(w.order).waiters {
      ShedKeepsOthers(d, w.order, x);
    }
    ShedDropsOnly(d, w.order);
  }

  /** A release gives back its own slot, once, and hands the freed slots to waiters. */
  lemma ReleaseIsAccountedFor(s: State, order: nat)
    requires Invariant(s) && order in s.Holders()
    ensures var t := Next(s, Release(order));
      && t.released == s.released + {order} && t.nextOrder == s.nextOrder && t.slots == s.slots && t.bound == s.bound
      && t.running == s.running - 1 + (|s.waiters| - |t.waiters|)
      && s.granted.Keys <= t.granted.Keys
      && (forall w | w in s.waiters :: w in t.waiters || (w.order in t.granted && t.granted[w.order] == w.prio))
      && (forall w | w in t.waiters :: w in s.waiters)
      && (forall g | g in t.granted ::
            (g in s.granted && t.granted[g] == s.granted[g]) || Waiter(t.granted[g], g) in s.waiters)
  {
    ReturnedAccounts(s, order);
    DispatchConserves(s.Returned(order));
  }
}
