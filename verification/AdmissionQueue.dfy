/**
 The admission control in front of one model class's serving slots (`internal/queue/queue.go`).

 Every critical section of the queue's mutex is one atomic step of a state machine over State;
 the class at the end performs the same steps on its fields, as the source does.
 A request is known by the order in which it arrived, which is unique to it.
 */
module AdmissionQueue {

  datatype Priority = Low | Normal | High | Critical {
    function Rank(): nat {
      match this
      case Low => 0
      case Normal => 1
      case High => 2
      case Critical => 3
    }
  }

  function ParsePriority(name: string): Priority {
    if name in {"critical", "urgent", "p0"} then Critical
    else if name in {"high", "p1"} then High
    else if name in {"normal", "medium", "p2"} then Normal
    else Low
  }

  datatype Waiter = Waiter(prio: Priority, order: nat)

  // Higher priority first, and within a priority the older request first.
  predicate Better(a: Waiter, b: Waiter) {
    if a.prio != b.prio then a.prio.Rank() > b.prio.Rank() else a.order < b.order
  }

  /** `granted` holds the requests whose channel has been closed, `released` those of them whose
      once-only release has run. */
  datatype State = State(
    slots: nat, bound: nat,
    running: int, runningCritical: bool, waiters: seq<Waiter>, nextOrder: nat,
    granted: map<nat, Priority>, released: set<nat>)
  {
    predicate CriticalWaiting() {
      exists i | 0 <= i < |waiters| :: waiters[i].prio.Critical?
    }

    predicate CanAdmit(prio: Priority) {
      if runningCritical then false
      else if prio.Critical? then running == 0
      else if CriticalWaiting() then false
      else running < slots
    }

    // The best admissible waiter among the first n, or -1.
    function Pick(n: nat): (k: int)
      requires n <= |waiters|
      ensures -1 <= k < n
      ensures k >= 0 ==> CanAdmit(waiters[k].prio)
    {
      if n == 0 then -1
      else
        var best := Pick(n - 1);
        if CanAdmit(waiters[n - 1].prio) && (best == -1 || Better(waiters[n - 1], waiters[best])) then n - 1
        else best
    }

    function Without(k: nat): seq<Waiter>
      requires k < |waiters|
    {
      waiters[..k] + waiters[k + 1..]
    }

    function Grant(k: nat): State
      requires k < |waiters|
    {
      this.(waiters := Without(k),
            running := running + 1,
            runningCritical := runningCritical || waiters[k].prio.Critical?,
            granted := granted[waiters[k].order := waiters[k].prio])
    }

    function Dispatch(): State
      decreases |waiters|
    {
      var k := Pick(|waiters|);
      if k == -1 then this else Grant(k).Dispatch()
    }

    function IndexOf(order: nat): (i: int)
      ensures -1 <= i < |waiters|
      ensures i >= 0 ==> waiters[i].order == order
      ensures i == -1 ==> forall j | 0 <= j < |waiters| :: waiters[j].order != order
    {
      if exists i | 0 <= i < |waiters| :: waiters[i].order == order
      then FirstIndex(order, 0) else -1
    }

    function FirstIndex(order: nat, from: nat): (i: nat)
      requires exists j | from <= j < |waiters| :: waiters[j].order == order
      ensures from <= i < |waiters| && waiters[i].order == order
      decreases |waiters| - from
    {
      if waiters[from].order == order then from else FirstIndex(order, from + 1)
    }

    function Queued(prio: Priority): State {
      this.(waiters := waiters + [Waiter(prio, nextOrder)], nextOrder := nextOrder + 1)
    }

    // THE ARRIVAL is what is shed past the bound, never somebody already waiting.
    function Shed(order: nat): State {
      var i := IndexOf(order);
      if i != -1 && |waiters| > bound then Left(i) else this
    }

    // The arrival section of Acquire.
    function Arrive(prio: Priority): State {
      Queued(prio).Dispatch().Shed(nextOrder)
    }

    function Returned(order: nat): State
      requires order in granted
    {
      this.(running := running - 1,
            runningCritical := if granted[order].Critical? then false else runningCritical,
            released := released + {order})
    }

    // The once-only body of a release.
    function Release(order: nat): State
      requires order in granted
    {
      if order in released then this else Returned(order).Dispatch()
    }

    function Left(i: nat): State
      requires i < |waiters|
    {
      this.(waiters := Without(i))
    }

    // The cancelled arm of Acquire: leave the queue, or give back the slot granted meanwhile. In the
    // second case the section that looked changed nothing, and the release is a section of its own:
    // a run in which others come in between has their steps before this one.
    function Cancel(order: nat): State {
      var i := IndexOf(order);
      if i != -1 then Left(i)
      else if order in granted then Release(order)
      else this
    }

    function Holders(): set<nat> {
      granted.Keys - released
    }
  }

  function New(slots: nat, bound: nat): State {
    State(if slots < 1 then 1 else slots, if bound < 1 then 1 else bound, 0, false, [], 0, map[], {})
  }

  datatype Step = Arrive(prio: Priority) | Cancel(order: nat) | Release(order: nat)

  function Next(s: State, step: Step): State {
    match step
    case Arrive(prio) => s.Arrive(prio)
    case Cancel(order) => s.Cancel(order)
    case Release(order) => if order in s.granted then s.Release(order) else s
  }

  function Run(s: State, steps: seq<Step>): State
    decreases |steps|
  {
    if steps == [] then s else Run(Next(s, steps[0]), steps[1..])
  }

  // ----- What every section keeps -----

  ghost predicate Accounted(s: State) {
    && s.slots >= 1 && s.bound >= 1
    && (forall i, j | 0 <= i < j < |s.waiters| :: s.waiters[i].order < s.waiters[j].order)
    && (forall i | 0 <= i < |s.waiters| :: s.waiters[i].order < s.nextOrder && s.waiters[i].order !in s.granted)
    && (forall o | o in s.granted :: o < s.nextOrder)
    && s.released <= s.granted.Keys
    && s.running == |s.Holders()|
    && s.running <= s.slots
    && (s.runningCritical <==> exists o | o in s.Holders() :: s.granted[o].Critical?)
    && (s.runningCritical ==> s.running == 1)
  }

  ghost predicate Settled(s: State) {
    forall i | 0 <= i < |s.waiters| :: !s.CanAdmit(s.waiters[i].prio)
  }

  ghost predicate Invariant(s: State) {
    && Accounted(s)
    && |s.waiters| <= s.bound
    && (s.waiters != [] ==> s.running > 0)
  }

  lemma BetterIsTransitive(a: Waiter, b: Waiter, c: Waiter)
    requires Better(a, b) && Better(b, c)
    ensures Better(a, c)
  {}

  lemma BetterThanCritical(a: Waiter, c: Waiter)
    requires Better(a, c) && c.prio.Critical?
    ensures a.prio.Critical? && a.order < c.order
  {}

  lemma {:induction false} PickIsNotWorse(s: State, n: nat, i: nat)
    requires i < n <= |s.waiters| && s.CanAdmit(s.waiters[i].prio) && Accounted(s)
    ensures s.Pick(n) >= 0
    ensures i == s.Pick(n) || Better(s.waiters[s.Pick(n)], s.waiters[i])
  {
    if i < n - 1 {
      PickIsNotWorse(s, n - 1, i);
      var best, last := s.waiters[s.Pick(n - 1)], s.waiters[n - 1];
      if Better(last, best) && i != s.Pick(n - 1) { BetterIsTransitive(last, best, s.waiters[i]); }
    } else {
      var k := s.Pick(n - 1);
      if k != -1 && !Better(s.waiters[i], s.waiters[k]) { assert s.waiters[k].order < s.waiters[i].order; }
    }
  }

  lemma PickIsBestAdmissible(s: State, n: nat)
    requires Accounted(s) && n <= |s.waiters|
    ensures s.Pick(n) == -1 ==> forall i | 0 <= i < n :: !s.CanAdmit(s.waiters[i].prio)
    ensures s.Pick(n) >= 0 ==>
      forall i | 0 <= i < n && s.CanAdmit(s.waiters[i].prio) ::
        i == s.Pick(n) || Better(s.waiters[s.Pick(n)], s.waiters[i])
  {
    forall i | 0 <= i < n && s.CanAdmit(s.waiters[i].prio)
      ensures s.Pick(n) >= 0 && (i == s.Pick(n) || Better(s.waiters[s.Pick(n)], s.waiters[i]))
    {
      PickIsNotWorse(s, n, i);
    }
  }

  /** The waiter dispatch picks is better than every other waiter, admissible or not. */
  lemma PickIsBestOfAll(s: State)
    requires Accounted(s) && s.Pick(|s.waiters|) >= 0
    ensures forall i | 0 <= i < |s.waiters| ::
      i == s.Pick(|s.waiters|) || Better(s.waiters[s.Pick(|s.waiters|)], s.waiters[i])
  {
    PickIsBestAdmissible(s, |s.waiters|);
  }

  lemma GrantAccounts(s: State, k: nat)
    requires Accounted(s) && k < |s.waiters| && s.CanAdmit(s.waiters[k].prio)
    ensures Accounted(s.Grant(k))
  {
    var w := s.waiters[k];
    var t := s.Grant(k);
    assert w.order !in s.released;
    assert t.Holders() == s.Holders() + {w.order};
    if w.prio.Critical? {
      assert s.Holders() == {};
    }
  }

  lemma {:induction false} DispatchSettles(s: State)
    requires Accounted(s)
    ensures Accounted(s.Dispatch()) && Settled(s.Dispatch())
    ensures s.Dispatch().slots == s.slots && s.Dispatch().bound == s.bound
    ensures s.Dispatch().nextOrder == s.nextOrder && s.Dispatch().released == s.released
    decreases |s.waiters|
  {
    var k := s.Pick(|s.waiters|);
    PickIsBestAdmissible(s, |s.waiters|);
    if k != -1 {
      GrantAccounts(s, k);
      DispatchSettles(s.Grant(k));
    }
  }

  lemma {:induction false} DispatchKeepsGranted(s: State, order: nat)
    requires order in s.granted && forall i | 0 <= i < |s.waiters| :: s.waiters[i].order != order
    ensures order in s.Dispatch().granted && s.Dispatch().granted[order] == s.granted[order]
    decreases |s.waiters|
  {
    var k := s.Pick(|s.waiters|);
    if k != -1 { DispatchKeepsGranted(s.Grant(k), order); }
  }

  // Dispatch moves requests from the waiting list to the granted ones and does nothing else with them.
  lemma {:induction false} DispatchMoves(s: State, w: Waiter)
    requires Accounted(s)
    ensures w in s.Dispatch().waiters ==> w in s.waiters
    ensures w in s.waiters ==> w in s.Dispatch().waiters || w.order in s.Dispatch().granted
    decreases |s.waiters|
  {
    var k := s.Pick(|s.waiters|);
    if k != -1 {
      var t := s.Grant(k);
      GrantAccounts(s, k);
      assert s.waiters == s.waiters[..k] + [s.waiters[k]] + s.waiters[k + 1..];
      if w.order == s.waiters[k].order { DispatchKeepsGranted(t, w.order); }
      DispatchMoves(t, w);
    }
  }

  lemma IdleAdmitsSomebody(s: State)
    requires Accounted(s) && s.running == 0 && s.waiters != []
    ensures !Settled(s)
  {
    assert s.Holders() == {};
    if s.CriticalWaiting() {
      var i :| 0 <= i < |s.waiters| && s.waiters[i].prio.Critical?;
      assert s.CanAdmit(s.waiters[i].prio);
    } else {
      assert s.CanAdmit(s.waiters[0].prio);
    }
  }

  // Dispatch leaves nobody waiting on an idle box.
  lemma SettledIsBusy(s: State)
    requires Accounted(s) && Settled(s) && s.waiters != []
    ensures s.running > 0
  {
    assert s.running == 0 ==> !Settled(s) by {
      if s.running == 0 { IdleAdmitsSomebody(s); }
    }
  }

  lemma {:induction false} DispatchShrinks(s: State)
    ensures |s.Dispatch().waiters| <= |s.waiters|
    ensures |s.Dispatch().waiters| == |s.waiters| ==> s.Dispatch() == s
    decreases |s.waiters|
  {
    var k := s.Pick(|s.waiters|);
    if k != -1 { DispatchShrinks(s.Grant(k)); }
  }

  lemma QueuedAccounts(s: State, prio: Priority)
    requires Accounted(s)
    ensures Accounted(s.Queued(prio))
  {
    assert s.Queued(prio).Holders() == s.Holders();
  }

  lemma LeftAccounts(s: State, i: nat)
    requires Accounted(s) && i < |s.waiters|
    ensures Accounted(s.Left(i))
  {
    assert s.Left(i).Holders() == s.Holders();
  }

  lemma Subset<T>(a: set<T>, b: set<T>)
    requires a <= b
    ensures |a| <= |b|
  {
    assert b == a + (b - a);
  }

  lemma CriticalRunsAlone(s: State, a: nat, b: nat)
    requires Accounted(s) && s.runningCritical && a in s.Holders() && b in s.Holders()
    ensures a == b
  {
    Subset({a, b}, s.Holders());
    assert a != b ==> |{a, b}| == 2;
  }

  lemma ReturnedAccounts(s: State, order: nat)
    requires Accounted(s) && order in s.Holders()
    ensures Accounted(s.Returned(order))
  {
    var t := s.Returned(order);
    assert t.Holders() == s.Holders() - {order};
    if s.runningCritical {
      var o :| o in s.Holders() && s.granted[o].Critical?;
      CriticalRunsAlone(s, o, order);
    }
  }

  lemma ArriveKeepsInvariant(s: State, prio: Priority)
    requires Invariant(s)
    ensures Invariant(s.Arrive(prio))
  {
    var q := s.Queued(prio);
    QueuedAccounts(s, prio);
    DispatchSettles(q);
    DispatchShrinks(q);
    ShedKeepsInvariant(s, prio, q.Dispatch());
  }

  lemma ShedKeepsInvariant(s: State, prio: Priority, d: State)
    requires Invariant(s) && Accounted(d) && Settled(d) && d.bound == s.bound
    requires |d.waiters| <= |s.waiters| + 1
    requires |d.waiters| == |s.waiters| + 1 ==> d == s.Queued(prio)
    ensures Invariant(d.Shed(s.nextOrder))
  {
    if d.waiters != [] { SettledIsBusy(d); }
    if |d.waiters| > d.bound {
      assert d.waiters[|s.waiters|].order == s.nextOrder;
      LeftAccounts(d, d.IndexOf(s.nextOrder));
    }
  }

  lemma ReleaseKeepsInvariant(s: State, order: nat)
    requires Invariant(s) && order in s.granted
    ensures Invariant(s.Release(order))
  {
    if order !in s.released {
      var t := s.Returned(order);
      ReturnedAccounts(s, order);
      DispatchSettles(t);
      DispatchShrinks(t);
      if t.Dispatch().waiters != [] { SettledIsBusy(t.Dispatch()); }
    }
  }

  lemma CancelKeepsInvariant(s: State, order: nat)
    requires Invariant(s)
    ensures Invariant(s.Cancel(order))
  {
    var i := s.IndexOf(order);
    if i != -1 { LeftAccounts(s, i); }
    else if order in s.granted { ReleaseKeepsInvariant(s, order); }
  }

  lemma StepKeepsInvariant(s: State, step: Step)
    requires Invariant(s)
    ensures Invariant(Next(s, step))
  {
    match step
    case Arrive(prio) => ArriveKeepsInvariant(s, prio);
    case Cancel(order) => CancelKeepsInvariant(s, order);
    case Release(order) => if order in s.granted { ReleaseKeepsInvariant(s, order); }
  }

  /**
   Slots are conserved and the queue never stalls, over every run: `running` counts the grants not
   yet released, stays within the slots and is exactly one while a critical request runs; no more
   than `bound` requests wait; and whenever somebody waits, somebody runs whose release will
   dispatch again.
   */
  lemma {:induction false} EveryRunKeepsInvariant(s: State, steps: seq<Step>)
    requires Invariant(s)
    ensures Invariant(Run(s, steps))
    decreases |steps|
  {
    if steps != [] {
      StepKeepsInvariant(s, steps[0]);
      EveryRunKeepsInvariant(Next(s, steps[0]), steps[1..]);
    }
  }

  lemma RunsFromNew(slots: nat, bound: nat, steps: seq<Step>)
    ensures Invariant(Run(New(slots, bound), steps))
  {
    assert New(slots, bound).Holders() == {};
    EveryRunKeepsInvariant(New(slots, bound), steps);
  }

  lemma ReleasedOnce(s: State, order: nat)
    requires Invariant(s) && order in s.granted
    ensures Invariant(s.Release(order))
    ensures order in s.Release(order).granted && order in s.Release(order).released
  {
    ReleaseKeepsInvariant(s, order);
    if order !in s.released {
      ReturnedAccounts(s, order);
      DispatchSettles(s.Returned(order));
    }
  }

  // A second release, and a cancel after the slot was given back, do nothing.
  lemma SecondReleaseIsNothing(s: State, order: nat)
    requires Invariant(s) && order in s.granted
    ensures Next(s.Release(order), Release(order)) == s.Release(order)
    ensures Next(s.Release(order), Cancel(order)) == s.Release(order)
  {
    ReleasedOnce(s, order);
    assert s.Release(order).IndexOf(order) == -1;
  }

  /** A cancel that races a grant gives back exactly the slot its request held. */
  lemma RacedCancelReturnsTheSlot(s: State, order: nat)
    requires Invariant(s) && order in s.Holders()
    ensures Next(s, Cancel(order)) == s.Release(order)
    ensures order !in Next(s, Cancel(order)).Holders()
    ensures forall o | o in s.Holders() && o != order :: o in Next(s, Cancel(order)).Holders()
  {
    assert s.IndexOf(order) == -1;
    ReleasedOnce(s, order);
    var t := s.Returned(order);
    ReturnedAccounts(s, order);
    DispatchSettles(t);
    forall o | o in s.Holders() && o != order ensures o in t.Dispatch().Holders() { DispatchKeepsGranted(t, o); }
  }

  /** A full queue sheds the arrival and nobody else: whoever waited still waits or was granted. */
  lemma ArriveShedsOnlyTheArrival(s: State, prio: Priority, w: Waiter)
    requires Invariant(s) && w in s.waiters
    ensures w in s.Arrive(prio).waiters || w.order in s.Arrive(prio).granted
  {
    var q := s.Queued(prio);
    QueuedAccounts(s, prio);
    DispatchMoves(q, w);
    assert w in q.waiters;
    if w in q.Dispatch().waiters { ShedKeepsOthers(q.Dispatch(), s.nextOrder, w); }
  }

  lemma ShedKeepsOthers(d: State, order: nat, w: Waiter)
    requires w in d.waiters && w.order != order
    ensures w in d.Shed(order).waiters
  {
    var i := d.IndexOf(order);
    if i != -1 {
      var j :| 0 <= j < |d.waiters| && d.waiters[j] == w;
      assert d.Left(i).waiters[if j < i then j else j - 1] == w;
    }
  }

  // An arrival that is shed was never admitted, so it leaves the queue as settled as it was.
  lemma ArriveSettles(s: State, prio: Priority)
    requires Invariant(s) && Settled(s)
    ensures Settled(s.Arrive(prio))
  {
    var q := s.Queued(prio);
    QueuedAccounts(s, prio);
    DispatchSettles(q);
    DispatchShrinks(q);
    var d := q.Dispatch();
    if d.IndexOf(s.nextOrder) != -1 && |d.waiters| > d.bound {
      ShedIsUndone(s, prio);
      assert s.Arrive(prio) == s.(nextOrder := s.nextOrder + 1);
    } else {
      assert s.Arrive(prio) == d;
    }
  }

  /** Releases, and arrivals at a settled queue, leave nobody waiting who could have been admitted. */
  lemma StepSettles(s: State, step: Step)
    requires Invariant(s)
    requires match step case Arrive(_) => Settled(s) case Cancel(_) => false case Release(o) => o in s.Holders()
    ensures Settled(Next(s, step))
  {
    match step
    case Arrive(prio) => ArriveSettles(s, prio);
    case Release(order) =>
      ReturnedAccounts(s, order);
      DispatchSettles(s.Returned(order));
  }

  lemma ShedIsUndone(s: State, prio: Priority)
    requires Accounted(s) && s.Queued(prio).IndexOf(s.nextOrder) != -1
    ensures s.Queued(prio).Left(s.Queued(prio).IndexOf(s.nextOrder)) == s.(nextOrder := s.nextOrder + 1)
  {
    assert s.Queued(prio).IndexOf(s.nextOrder) == |s.waiters|;
  }

  // ----- No overtaking -----

  // Every request granted between s and t is better than everybody still waiting in t.
  ghost predicate NobodyOvertaken(s: State, t: State) {
    forall g, w | g in t.granted && g !in s.granted && w in t.waiters :: Better(Waiter(t.granted[g], g), w)
  }

  lemma LeftWasThere(s: State, k: nat, w: Waiter)
    requires k < |s.waiters| && w in s.Without(k)
    ensures exists i | 0 <= i < |s.waiters| && i != k :: s.waiters[i] == w
  {
    var i :| 0 <= i < |s.Without(k)| && s.Without(k)[i] == w;
    assert w == s.waiters[if i < k then i else i + 1];
  }

  lemma PickedBeforeTheRest(s: State, w: Waiter)
    requires Accounted(s) && s.Pick(|s.waiters|) >= 0 && w in s.Without(s.Pick(|s.waiters|))
    ensures w in s.waiters && Better(s.waiters[s.Pick(|s.waiters|)], w)
  {
    PickIsBestOfAll(s);
    LeftWasThere(s, s.Pick(|s.waiters|), w);
  }

  lemma {:induction false} DispatchOvertakesNobody(s: State, g: nat, w: Waiter)
    requires Accounted(s)
    requires g in s.Dispatch().granted && g !in s.granted && w in s.Dispatch().waiters
    ensures Better(Waiter(s.Dispatch().granted[g], g), w)
    decreases |s.waiters|
  {
    var k := s.Pick(|s.waiters|);
    if k != -1 {
      var t := s.Grant(k);
      GrantAccounts(s, k);
      if g == s.waiters[k].order {
        DispatchKeepsGranted(t, g);
        DispatchMoves(t, w);
        PickedBeforeTheRest(s, w);
      } else {
        DispatchOvertakesNobody(t, g, w);
      }
    }
  }

  /** Whatever a step grants, it grants ahead of nobody better. */
  lemma StepOvertakesNobody(s: State, step: Step)
    requires Invariant(s)
    ensures NobodyOvertaken(s, Next(s, step))
  {
    match step
    case Arrive(prio) => ArriveOvertakesNobody(s, prio);
    case Cancel(order) =>
      if s.IndexOf(order) == -1 && order in s.granted { ReleaseOvertakesNobody(s, order); }
    case Release(order) =>
      if order in s.granted { ReleaseOvertakesNobody(s, order); }
  }

  lemma ArriveOvertakesNobody(s: State, prio: Priority)
    requires Invariant(s)
    ensures NobodyOvertaken(s, s.Arrive(prio))
  {
    var q := s.Queued(prio);
    QueuedAccounts(s, prio);
    var d := q.Dispatch();
    forall g, w | g in d.granted && g !in s.granted && w in d.waiters
      ensures Better(Waiter(d.granted[g], g), w)
    {
      DispatchOvertakesNobody(q, g, w);
    }
    ShedDropsOnly(d, s.nextOrder);
  }

  lemma ShedDropsOnly(d: State, order: nat)
    ensures d.Shed(order).granted == d.granted
    ensures forall w | w in d.Shed(order).waiters :: w in d.waiters
  {}

  lemma ReleaseOvertakesNobody(s: State, order: nat)
    requires Invariant(s) && order in s.granted
    ensures NobodyOvertaken(s, s.Release(order))
  {
    if order !in s.released {
      var t := s.Returned(order);
      ReturnedAccounts(s, order);
      var d := t.Dispatch();
      forall g, w | g in d.granted && g !in s.granted && w in d.waiters
        ensures Better(Waiter(d.granted[g], g), w)
      {
        DispatchOvertakesNobody(t, g, w);
      }
    }
  }

  /** While a critical request waits, only critical requests older than it are granted. */
  lemma CriticalDrains(s: State, step: Step, c: Waiter, g: nat)
    requires Invariant(s) && c.prio.Critical? && c in Next(s, step).waiters
    requires g in Next(s, step).granted && g !in s.granted
    ensures Next(s, step).granted[g].Critical? && g < c.order
  {
    StepOvertakesNobody(s, step);
    BetterThanCritical(Waiter(Next(s, step).granted[g], g), c);
  }

  // ----- Bounded waiting -----

  ghost function OlderCriticals(s: State, c: Waiter): set<Waiter> {
    set w | w in s.waiters && w.prio.Critical? && w.order < c.order
  }

  // How many releases can still come before c runs.
  ghost function Ahead(s: State, c: Waiter): int {
    s.running + |OlderCriticals(s, c)|
  }

  predicate Frees(s: State, step: Step) {
    match step
    case Arrive(_) => false
    case Cancel(order) => s.IndexOf(order) == -1 && order in s.Holders()
    case Release(order) => order in s.Holders()
  }

  function Freed(s: State, steps: seq<Step>): nat
    decreases |steps|
  {
    if steps == [] then 0
    else (if Frees(s, steps[0]) then 1 else 0) + Freed(Next(s, steps[0]), steps[1..])
  }

  // Granting an older critical request moves it from one count to the other.
  lemma GrantKeepsAhead(s: State, k: nat, c: Waiter)
    requires Accounted(s) && k < |s.waiters| && c in s.waiters && c.prio.Critical?
    requires s.waiters[k].prio.Critical? && s.waiters[k].order < c.order
    ensures Ahead(s.Grant(k), c) == Ahead(s, c)
  {
    var t, x := s.Grant(k), s.waiters[k];
    forall w ensures w in OlderCriticals(t, c) <==> w in OlderCriticals(s, c) - {x} {
      if w in s.waiters && w != x {
        var j :| 0 <= j < |s.waiters| && s.waiters[j] == w;
        assert w == t.waiters[if j < k then j else j - 1];
      }
    }
    assert OlderCriticals(t, c) == OlderCriticals(s, c) - {x};
  }

  lemma {:induction false} DispatchKeepsAhead(s: State, c: Waiter)
    requires Accounted(s) && c.prio.Critical? && c in s.Dispatch().waiters
    ensures c in s.waiters && Ahead(s.Dispatch(), c) == Ahead(s, c)
    decreases |s.waiters|
  {
    var k := s.Pick(|s.waiters|);
    if k != -1 {
      var t := s.Grant(k);
      GrantAccounts(s, k);
      DispatchKeepsAhead(t, c);
      PickedBeforeTheRest(s, c);
      BetterThanCritical(s.waiters[k], c);
      GrantKeepsAhead(s, k, c);
    }
  }

  lemma LeavingLowersAhead(s: State, i: nat, c: Waiter)
    requires i < |s.waiters| && c in s.Left(i).waiters
    ensures c in s.waiters && Ahead(s.Left(i), c) <= Ahead(s, c)
  {
    Subset(OlderCriticals(s.Left(i), c), OlderCriticals(s, c));
  }

  lemma ReleaseLowersAhead(s: State, order: nat, c: Waiter)
    requires Invariant(s) && order in s.Holders() && c.prio.Critical? && c in s.Release(order).waiters
    ensures c in s.waiters && Ahead(s.Release(order), c) + 1 == Ahead(s, c)
  {
    var t := s.Returned(order);
    ReturnedAccounts(s, order);
    DispatchKeepsAhead(t, c);
    assert OlderCriticals(t, c) == OlderCriticals(s, c);
  }

  lemma ArriveKeepsAhead(s: State, prio: Priority, c: Waiter)
    requires Invariant(s) && c.prio.Critical? && c in s.Arrive(prio).waiters && c.order < s.nextOrder
    ensures c in s.waiters && Ahead(s.Arrive(prio), c) <= Ahead(s, c)
  {
    var q := s.Queued(prio);
    QueuedAccounts(s, prio);
    ShedLowersAhead(q.Dispatch(), s.nextOrder, c);
    DispatchKeepsAhead(q, c);
    QueuedKeepsAhead(s, prio, c);
  }

  lemma QueuedKeepsAhead(s: State, prio: Priority, c: Waiter)
    requires c.order < s.nextOrder && c in s.Queued(prio).waiters
    ensures c in s.waiters && Ahead(s.Queued(prio), c) == Ahead(s, c)
  {
    assert OlderCriticals(s.Queued(prio), c) == OlderCriticals(s, c);
  }

  lemma ShedLowersAhead(d: State, order: nat, c: Waiter)
    requires c in d.Shed(order).waiters
    ensures c in d.waiters && Ahead(d.Shed(order), c) <= Ahead(d, c)
  {
    var i := d.IndexOf(order);
    if i != -1 && |d.waiters| > d.bound { LeavingLowersAhead(d, i, c); }
  }

  lemma StepLowersAhead(s: State, step: Step, c: Waiter)
    requires Invariant(s) && c.prio.Critical? && c in Next(s, step).waiters && c.order < s.nextOrder
    ensures c in s.waiters
    ensures Ahead(Next(s, step), c) + (if Frees(s, step) then 1 else 0) <= Ahead(s, c)
  {
    match step
    case Arrive(prio) => ArriveKeepsAhead(s, prio, c);
    case Cancel(order) =>
      var i := s.IndexOf(order);
      if i != -1 { LeavingLowersAhead(s, i, c); }
      else if order in s.Holders() { ReleaseLowersAhead(s, order, c); }
    case Release(order) =>
      if order in s.Holders() { ReleaseLowersAhead(s, order, c); }
  }

  lemma {:induction false} DispatchKeepsNextOrder(s: State)
    ensures s.Dispatch().nextOrder == s.nextOrder
    decreases |s.waiters|
  {
    var k := s.Pick(|s.waiters|);
    if k != -1 { DispatchKeepsNextOrder(s.Grant(k)); }
  }

  lemma NextOrderGrows(s: State, step: Step)
    ensures s.nextOrder <= Next(s, step).nextOrder
  {
    match step
    case Arrive(prio) => DispatchKeepsNextOrder(s.Queued(prio));
    case Cancel(order) => if order in s.granted { DispatchKeepsNextOrder(s.Returned(order)); }
    case Release(order) => if order in s.granted { DispatchKeepsNextOrder(s.Returned(order)); }
  }

  /**
   A waiting critical request is granted (or cancelled) after at most as many releases as there were
   requests running plus older critical requests waiting: as long as it still waits, fewer releases
   than that have happened, whatever else arrived, was shed or was cancelled in between.
   */
  lemma {:induction false} CriticalWaitIsBounded(s: State, steps: seq<Step>, c: Waiter)
    requires Invariant(s) && c.prio.Critical? && c.order < s.nextOrder && c in Run(s, steps).waiters
    ensures c in s.waiters
    ensures Freed(s, steps) + Ahead(Run(s, steps), c) <= Ahead(s, c)
    ensures Freed(s, steps) < Ahead(s, c)
    decreases |steps|
  {
    if steps == [] {
    } else {
      var t := Next(s, steps[0]);
      StepKeepsInvariant(s, steps[0]);
      NextOrderGrows(s, steps[0]);
      CriticalWaitIsBounded(t, steps[1..], c);
      StepLowersAhead(s, steps[0], c);
    }
    EveryRunKeepsInvariant(s, steps);
  }

  // ----- What the cancel path does not do -----

  // The criticals among those left are the criticals there were, but for the one that left.
  lemma LeavingKeepsOtherCriticals(s: State, i: nat)
    requires i < |s.waiters|
    ensures !s.Left(i).CriticalWaiting() ==> forall m | 0 <= m < |s.waiters| && m != i :: !s.waiters[m].prio.Critical?
  {
    var t := s.Left(i);
    forall m | 0 <= m < |s.waiters| && m != i && s.waiters[m].prio.Critical? ensures t.CriticalWaiting() {
      assert t.waiters[if m < i then m else m - 1].prio.Critical?;
    }
  }

  /**
   In every reachable state somebody admissible is left waiting exactly when nothing critical runs or
   waits, a slot is free, and others wait.
   */
  lemma UnsettledExactlyWhen(s: State)
    requires Invariant(s)
    ensures !Settled(s) <==>
            !s.runningCritical && !s.CriticalWaiting() && s.running < s.slots && s.waiters != []
  {
    if !s.runningCritical && !s.CriticalWaiting() && s.running < s.slots && s.waiters != [] {
      assert s.CanAdmit(s.waiters[0].prio);
    }
  }

  /** Once somebody admissible waits, further cancels leave it so exactly as long as others wait. */
  lemma StrandingLasts(s: State, order: nat)
    requires Invariant(s) && !Settled(s) && s.IndexOf(order) != -1
    ensures !Settled(Next(s, Cancel(order))) <==> |s.waiters| > 1
  {
    UnsettledExactlyWhen(s);
    StepKeepsInvariant(s, Cancel(order));
    UnsettledExactlyWhen(Next(s, Cancel(order)));
  }

  /**
   A cancel removes its waiter without dispatching, so it can leave somebody admissible waiting. From a
   queue that has nobody admissible waiting it does so exactly when it removes the last waiting critical
   request while the box runs nothing critical, has a free slot, and others wait.
   */
  lemma CancelStrandsExactlyWhen(s: State, order: nat)
    requires Invariant(s) && Settled(s) && s.IndexOf(order) != -1
    ensures var t := Next(s, Cancel(order));
      !Settled(t) <==>
        && s.waiters[s.IndexOf(order)].prio.Critical? && !t.CriticalWaiting()
        && !s.runningCritical && s.running < s.slots && t.waiters != []
  {
    var i := s.IndexOf(order);
    var t := Next(s, Cancel(order));
    if !Settled(t) {
      var j :| 0 <= j < |t.waiters| && t.CanAdmit(t.waiters[j].prio);
      var k := if j < i then j else j + 1;
      assert s.waiters[k] == t.waiters[j];
      assert !s.CanAdmit(s.waiters[k].prio);
      var m :| 0 <= m < |s.waiters| && s.waiters[m].prio.Critical?;
      LeavingKeepsOtherCriticals(s, i);
    }
    if !t.CriticalWaiting() && !s.runningCritical && s.running < s.slots && t.waiters != [] {
      assert t.CanAdmit(t.waiters[0].prio);
    }
  }

  // Two slots: one runs, a critical request waits for the drain, an ordinary one waits behind it.
  const ONE_RUNS := New(2, 8).(running := 1, granted := map[0 := Low], nextOrder := 1)
  const ONE_WAITS := ONE_RUNS.(waiters := [Waiter(Critical, 1)], nextOrder := 2)
  const TWO_WAIT := ONE_WAITS.(waiters := [Waiter(Critical, 1), Waiter(Low, 2)], nextOrder := 3)

  lemma FirstArrivalRuns()
    ensures Next(New(2, 8), Arrive(Low)) == ONE_RUNS
  {
    var q := New(2, 8).(waiters := [Waiter(Low, 0)], nextOrder := 1);
    assert q.Pick(1) == 0 by { assert q.Pick(0) == -1; }
    assert q.Grant(0) == ONE_RUNS;
    assert ONE_RUNS.Dispatch() == ONE_RUNS;
  }

  lemma CriticalArrivalWaits()
    ensures Next(ONE_RUNS, Arrive(Critical)) == ONE_WAITS
  {
    assert ONE_WAITS.waiters[0].prio.Critical?;
    assert ONE_WAITS.Pick(1) == -1 by { assert ONE_WAITS.Pick(0) == -1; }
    assert ONE_RUNS.waiters + [Waiter(Critical, 1)] == [Waiter(Critical, 1)];
  }

  lemma NobodyOfTwoIsAdmissible()
    ensures TWO_WAIT.Pick(2) == -1
  {
    assert TWO_WAIT.waiters[0].prio.Critical?;
    assert TWO_WAIT.Pick(1) == -1 by { assert TWO_WAIT.Pick(0) == -1; }
  }

  lemma ThirdArrivalWaits()
    ensures Next(ONE_WAITS, Arrive(Low)) == TWO_WAIT
  {
    NobodyOfTwoIsAdmissible();
    assert ONE_WAITS.waiters + [Waiter(Low, 2)] == TWO_WAIT.waiters;
  }

  lemma CancelStrandsAnExample()
    ensures Run(New(2, 8), [Arrive(Low), Arrive(Critical), Arrive(Low)]) == TWO_WAIT
    ensures Settled(TWO_WAIT) && !Settled(Next(TWO_WAIT, Cancel(1)))
  {
    FirstArrivalRuns();
    CriticalArrivalWaits();
    ThirdArrivalWaits();
    NobodyOfTwoIsAdmissible();
    RunOfThree(New(2, 8), Arrive(Low), Arrive(Critical), Arrive(Low));
    CancelLeavesTheLow();
  }

  lemma RunOfThree(s: State, a: Step, b: Step, c: Step)
    ensures Run(s, [a, b, c]) == Next(Next(Next(s, a), b), c)
  {
    assert [a, b, c][1..] == [b, c] && [b, c][1..] == [c] && [c][1..] == [];
    var t := Next(Next(s, a), b);
    assert Run(t, [c]) == Next(t, c);
    assert Run(Next(s, a), [b, c]) == Run(t, [c]);
  }

  lemma CancelLeavesTheLow()
    ensures !Settled(Next(TWO_WAIT, Cancel(1)))
  {
    var t := Next(TWO_WAIT, Cancel(1));
    assert TWO_WAIT.waiters[0].order == 1;
    assert TWO_WAIT.IndexOf(1) == 0;
    assert t.waiters == [Waiter(Low, 2)];
    assert t.CanAdmit(t.waiters[0].prio);
  }

  /** The queue itself: the fields of the source's `Queue`, changed one critical section at a time. */
  class Queue {
    const slots: nat
    const bound: nat
    var running: int
    var runningCritical: bool
    var waiters: seq<Waiter>
    var nextOrder: nat
    var granted: map<nat, Priority>
    var released: set<nat>

    ghost function View(): State
      reads this
    {
      State(slots, bound, running, runningCritical, waiters, nextOrder, granted, released)
    }

    ghost predicate Valid()
      reads this
    {
      Invariant(View())
    }

    constructor (slots: nat, bound: nat)
      ensures Valid() && View() == New(slots, bound)
    {
      this.slots := if slots < 1 then 1 else slots;
      this.bound := if bound < 1 then 1 else bound;
      running, runningCritical, waiters, nextOrder := 0, false, [], 0;
      granted, released := map[], {};
      new;
      RunsFromNew(slots, bound, []);
    }

    predicate CanAdmitLocked(prio: Priority)
      reads this
      ensures CanAdmitLocked(prio) <==> View().CanAdmit(prio)
    {
      if runningCritical then false
      else if prio == Critical then running == 0
      else if exists i | 0 <= i < |waiters| :: waiters[i].prio == Critical then false
      else running < slots
    }

    // The scan inside dispatchLocked.
    method BestLocked() returns (best: int)
      ensures best == View().Pick(|waiters|)
    {
      best := -1;
      for i := 0 to |waiters|
        invariant best == View().Pick(i)
      {
        if !CanAdmitLocked(waiters[i].prio) { continue; }
        if best == -1 || Better(waiters[i], waiters[best]) { best := i; }
      }
    }

    // The admission inside dispatchLocked.
    method GrantLocked(best: nat)
      requires best < |waiters|
      modifies this
      ensures View() == old(View()).Grant(best)
    {
      var w := waiters[best];
      waiters := waiters[..best] + waiters[best + 1..];
      running := running + 1;
      if w.prio == Critical { runningCritical := true; }
      granted := granted[w.order := w.prio];
    }

    // Admit the best admissible waiter until there is none.
    method DispatchLocked()
      modifies this
      ensures View() == old(View()).Dispatch()
    {
      while true
        invariant View().Dispatch() == old(View()).Dispatch()
        decreases |waiters|
      {
        var best := BestLocked();
        if best == -1 { return; }
        GrantLocked(best);
      }
    }

    method IndexOfLocked(order: nat) returns (i: int)
      ensures i == View().IndexOf(order)
    {
      for k := 0 to |waiters|
        invariant forall j | 0 <= j < k :: waiters[j].order != order
      {
        if waiters[k].order == order {
          FirstIndexIs(View(), order, 0, k);
          return k;
        }
      }
      return -1;
    }

    method RemoveLocked(order: nat) returns (removed: bool)
      modifies this
      ensures removed <==> old(View()).IndexOf(order) != -1
      ensures View() == if removed then old(View()).Left(old(View()).IndexOf(order)) else old(View())
    {
      var i := IndexOfLocked(order);
      removed := i != -1;
      if removed { waiters := waiters[..i] + waiters[i + 1..]; }
    }

    // The first section of Acquire. `full` is ErrFull: the arrival was shed.
    method Arrive(prio: Priority) returns (order: nat, full: bool)
      requires Valid()
      modifies this
      ensures Valid() && View() == old(View()).Arrive(prio) && order == old(nextOrder)
      ensures full <==> order !in granted && View().IndexOf(order) == -1
    {
      ghost var before := View();
      ArriveKeepsInvariant(before, prio);
      ArrivalIsShedExactlyWhen(before, prio);
      order := EnqueueLocked(prio);
      DispatchLocked();
      full := ShedLocked(order);
    }

    method EnqueueLocked(prio: Priority) returns (order: nat)
      modifies this
      ensures View() == old(View()).Queued(prio) && order == old(nextOrder)
    {
      order := nextOrder;
      waiters := waiters + [Waiter(prio, nextOrder)];
      nextOrder := nextOrder + 1;
    }

    method ShedLocked(order: nat) returns (full: bool)
      modifies this
      ensures View() == old(View()).Shed(order)
      ensures full <==> old(View()).IndexOf(order) != -1 && |old(waiters)| > bound
    {
      full := false;
      var i := IndexOfLocked(order);
      if i != -1 && |waiters| > bound {
        full := RemoveLocked(order);
      }
    }

    // The section Acquire runs when its context ends first.
    method Cancel(order: nat)
      requires Valid()
      modifies this
      ensures Valid() && View() == old(View()).Cancel(order)
      ensures forall i | 0 <= i < |old(waiters)| && old(waiters)[i].order == order ::
        waiters == old(waiters)[..i] + old(waiters)[i + 1..] && running == old(running) && granted == old(granted)
    {
      CancelKeepsInvariant(View(), order);
      var queued := RemoveLocked(order);
      if !queued && order in granted { Release(order); }
    }

    // The closure Acquire returns.
    method Release(order: nat)
      requires Valid() && order in granted
      modifies this
      ensures Valid() && View() == old(View()).Release(order)
    {
      ReleaseKeepsInvariant(View(), order);
      if order !in released {
        ReturnLocked(order);
        DispatchLocked();
      }
    }

    method ReturnLocked(order: nat)
      requires order in granted
      modifies this
      ensures View() == old(View()).Returned(order)
    {
      released := released + {order};
      running := running - 1;
      if granted[order] == Critical { runningCritical := false; }
    }
  }

  // An arrival is told ErrFull exactly when it is neither running nor waiting afterwards.
  lemma ArrivalIsShedExactlyWhen(s: State, prio: Priority)
    requires Invariant(s)
    ensures var d, order := s.Queued(prio).Dispatch(), s.nextOrder;
      d.IndexOf(order) != -1 && |d.waiters| > d.bound <==>
      order !in s.Arrive(prio).granted && s.Arrive(prio).IndexOf(order) == -1
  {
    var q, d, w := s.Queued(prio), s.Queued(prio).Dispatch(), Waiter(prio, s.nextOrder);
    QueuedAccounts(s, prio);
    assert q.waiters[|s.waiters|] == w;
    DispatchMoves(q, w);
    DispatchSettles(q);
    ShedExactlyWhen(d, w);
  }

  lemma ShedExactlyWhen(d: State, w: Waiter)
    requires Accounted(d) && (w in d.waiters || w.order in d.granted)
    ensures d.IndexOf(w.order) != -1 && |d.waiters| > d.bound <==>
      w.order !in d.Shed(w.order).granted && d.Shed(w.order).IndexOf(w.order) == -1
  {}

  lemma {:induction false} FirstIndexIs(s: State, order: nat, from: nat, k: nat)
    requires from <= k < |s.waiters| && s.waiters[k].order == order
    requires forall j | from <= j < k :: s.waiters[j].order != order
    ensures s.FirstIndex(order, from) == k
    decreases k - from
  {
    if from < k { FirstIndexIs(s, order, from + 1, k); }
  }
}
