/**
 A stage's run loop (`internal/dispatch/dispatch.go`): which tickets a poll starts, and how many are in
 flight. Workers run beside the loop and report on a channel whose capacity is the concurrency.
 */
module Dispatcher {
  import opened Wrappers
  import opened Sorting
  import AdmissionQueue

  datatype Ticket = Ticket(id: string, priority: string, createdAt: int)

  const MAX_HYDRATE_PER_POLL := 50

  // ----- Which tickets to start -----

  // A higher priority first, and within a priority the older ticket.
  predicate NotBelow(a: Ticket, b: Ticket) {
    var pa, pb := AdmissionQueue.ParsePriority(a.priority).Rank(), AdmissionQueue.ParsePriority(b.priority).Rank();
    pa > pb || (pa == pb && a.createdAt <= b.createdAt)
  }

  function Plan(candidates: seq<Ticket>, inFlight: nat, max: nat): seq<Ticket> {
    if candidates == [] || inFlight >= max then []
    else
      var ordered, room := Sort(candidates, NotBelow), max - inFlight;
      if room > |ordered| then ordered else ordered[..room]
  }

  lemma RanksAreOrdered()
    ensures TotalPreorder(NotBelow)
  {}

  // The candidates a plan leaves.
  function Passed(candidates: seq<Ticket>, inFlight: nat, max: nat): seq<Ticket> {
    Sort(candidates, NotBelow)[|Plan(candidates, inFlight, max)|..]
  }

  // A plan and what it passes over are the candidates in order, split where the room ends.
  lemma PlanSplitsTheOrder(candidates: seq<Ticket>, inFlight: nat, max: nat)
    ensures var plan, passed := Plan(candidates, inFlight, max), Passed(candidates, inFlight, max);
      && plan + passed == Sort(candidates, NotBelow)
      && multiset(plan) + multiset(passed) == multiset(candidates)
      && |plan| == if inFlight >= max then 0 else if |candidates| < max - inFlight then |candidates| else max - inFlight
  {
    var plan, ordered := Plan(candidates, inFlight, max), Sort(candidates, NotBelow);
    assert plan == ordered[..|plan|];
    assert ordered == ordered[..|plan|] + ordered[|plan|..];
    assert multiset(ordered) == multiset(candidates);
  }

  lemma SplitOfSorted(a: seq<Ticket>, b: seq<Ticket>)
    requires SortedBy(a + b, NotBelow)
    ensures SortedBy(a, NotBelow)
    ensures forall i, j | 0 <= i < |a| && 0 <= j < |b| :: NotBelow(a[i], b[j])
  {
    var s := a + b;
    forall i, j | 0 <= i < |a| && 0 <= j < |b| ensures NotBelow(a[i], b[j]) {
      assert s[i] == a[i] && s[|a| + j] == b[j];
    }
    forall i, j | 0 <= i < j < |a| ensures NotBelow(a[i], a[j]) {
      assert s[i] == a[i] && s[j] == a[j];
    }
  }

  /**
   A plan fills the room there is, in order, and no candidate it leaves outranks one it takes;
   candidates of one rank and age keep the order they were listed in.
   */
  lemma PlanTakesTheBest(candidates: seq<Ticket>, inFlight: nat, max: nat, a: Ticket)
    ensures var plan, passed := Plan(candidates, inFlight, max), Passed(candidates, inFlight, max);
      && SortedBy(plan, NotBelow)
      && (forall i, j | 0 <= i < |plan| && 0 <= j < |passed| :: NotBelow(plan[i], passed[j]))
      && Ties(plan + passed, a, NotBelow) == Ties(candidates, a, NotBelow)
  {
    RanksAreOrdered();
    SortSorts(candidates, NotBelow);
    SortIsStable(candidates, a, NotBelow);
    PlanSplitsTheOrder(candidates, inFlight, max);
    SplitOfSorted(Plan(candidates, inFlight, max), Passed(candidates, inFlight, max));
  }

  // What a poll finds outside: which listed tickets are ready, what reading one gives, and which of
  // those read are still this stage's.
  datatype Board = Board(ready: Ticket -> bool, get: string -> Option<Ticket>, eligible: Ticket -> bool)

  function Candidates(listed: seq<Ticket>, busy: set<string>, b: Board, looked: nat): seq<Ticket> {
    if listed == [] then []
    else if listed[0].id in busy || !b.ready(listed[0]) then Candidates(listed[1..], busy, b, looked)
    else if looked >= MAX_HYDRATE_PER_POLL then []
    else
      var full := b.get(listed[0].id);
      (if full.Some? && b.eligible(full.value) then [full.value] else []) + Candidates(listed[1..], busy, b, looked + 1)
  }

  // ----- The candidates, as a pipeline -----

  // The listed tickets that are ready and not in flight already.
  function Waiting(listed: seq<Ticket>, busy: set<string>, b: Board): seq<Ticket> {
    if listed == [] then []
    else (if listed[0].id !in busy && b.ready(listed[0]) then [listed[0]] else []) + Waiting(listed[1..], busy, b)
  }

  // What reading them gives, where it gives a ticket that may be started.
  function Startable(some: seq<Ticket>, b: Board): seq<Ticket> {
    if some == [] then []
    else
      var full := b.get(some[0].id);
      (if full.Some? && b.eligible(full.value) then [full.value] else []) + Startable(some[1..], b)
  }

  lemma {:induction false} CandidatesFrom(listed: seq<Ticket>, busy: set<string>, b: Board, looked: nat)
    requires looked <= 50
    ensures var waiting := Waiting(listed, busy, b);
      Candidates(listed, busy, b, looked) ==
      Startable(if |waiting| <= 50 - looked then waiting else waiting[..50 - looked], b)
  {
    if listed != [] {
      var rest := Waiting(listed[1..], busy, b);
      var waiting := Waiting(listed, busy, b);
      if listed[0].id in busy || !b.ready(listed[0]) {
        CandidatesFrom(listed[1..], busy, b, looked);
        assert waiting == rest;
      } else {
        assert waiting == [listed[0]] + rest && waiting[1..] == rest;
        if looked < 50 {
          CandidatesFrom(listed[1..], busy, b, looked + 1);
          assert |rest| > 50 - (looked + 1) ==> waiting[..50 - looked][1..] == rest[..50 - (looked + 1)];
        } else {
          assert waiting[..0] == [];
        }
      }
    }
  }

  /**
   A poll's candidates are the first fifty listed tickets that are ready and not in flight, read again,
   less those that cannot be read or may not be started; in the order listed.
   */
  lemma CandidatesAreTheStartable(listed: seq<Ticket>, busy: set<string>, b: Board)
    ensures var waiting := Waiting(listed, busy, b);
      Candidates(listed, busy, b, 0) == Startable(if |waiting| <= 50 then waiting else waiting[..50], b)
  {
    CandidatesFrom(listed, busy, b, 0);
  }

  lemma {:induction false} StartableMeans(some: seq<Ticket>, b: Board, t: Ticket)
    ensures t in Startable(some, b) <==> b.eligible(t) && exists s | s in some :: b.get(s.id) == Some(t)
  {
    if some != [] {
      StartableMeans(some[1..], b, t);
      assert some == [some[0]] + some[1..];
    }
  }

  lemma {:induction false} WaitingMeans(listed: seq<Ticket>, busy: set<string>, b: Board, t: Ticket)
    ensures t in Waiting(listed, busy, b) <==> t in listed && t.id !in busy && b.ready(t)
  {
    if listed != [] {
      WaitingMeans(listed[1..], busy, b, t);
      assert listed == [listed[0]] + listed[1..];
    }
  }

  /** A plan prefers by the board's priorities, named as they are read, and then by age. */
  lemma PreferredMeans(a: Ticket, b: Ticket)
    ensures var pa, pb := AdmissionQueue.ParsePriority(a.priority), AdmissionQueue.ParsePriority(b.priority);
      NotBelow(a, b) <==>
        || (pa == pb && a.createdAt <= b.createdAt)
        || (pa.Critical? && !pb.Critical?)
        || (pa.High? && (pb.Normal? || pb.Low?))
        || (pa.Normal? && pb.Low?)
  {}

  ghost predicate NoneHas(s: seq<Ticket>, id: string) {
    forall t | t in s :: t.id != id
  }

  ghost predicate DistinctIds(s: seq<Ticket>) {
    s == [] || (NoneHas(s[1..], s[0].id) && DistinctIds(s[1..]))
  }

  // Reading a ticket gives the ticket asked for.
  ghost predicate Faithful(b: Board) {
    forall id: string | b.get(id).Some? :: b.get(id).value.id == id
  }

  // No candidate is busy, or carries an id that was not listed.
  lemma {:induction false} CandidatesWereListed(listed: seq<Ticket>, busy: set<string>, b: Board, looked: nat,
                                                id: string)
    requires Faithful(b) && (id in busy || NoneHas(listed, id))
    ensures NoneHas(Candidates(listed, busy, b, looked), id)
  {
    if listed != [] {
      assert listed == [listed[0]] + listed[1..];
      CandidatesWereListed(listed[1..], busy, b, looked, id);
      CandidatesWereListed(listed[1..], busy, b, looked + 1, id);
    }
  }

  lemma {:induction false} CandidatesAreDistinct(listed: seq<Ticket>, busy: set<string>, b: Board, looked: nat)
    requires DistinctIds(listed) && Faithful(b)
    ensures DistinctIds(Candidates(listed, busy, b, looked))
  {
    if listed != [] {
      CandidatesAreDistinct(listed[1..], busy, b, looked);
      CandidatesAreDistinct(listed[1..], busy, b, looked + 1);
      var rest := Candidates(listed[1..], busy, b, looked + 1);
      CandidatesWereListed(listed[1..], busy, b, looked + 1, listed[0].id);
      var full := b.get(listed[0].id);
      if full.Some? { OneMoreIsDistinct(full.value, rest); }
      assert [] + rest == rest;
    }
  }

  lemma OneMoreIsDistinct(t: Ticket, rest: seq<Ticket>)
    requires DistinctIds(rest) && NoneHas(rest, t.id)
    ensures DistinctIds([t] + rest)
  {
    assert ([t] + rest)[1..] == rest;
  }

  lemma InsertAddsOneId(x: Ticket, s: seq<Ticket>, id: string)
    ensures NoneHas(Insert(x, s, NotBelow), id) <==> x.id != id && NoneHas(s, id)
  {
    var r := Insert(x, s, NotBelow);
    assert forall t :: t in r <==> t in multiset(r);
    assert forall t :: t in multiset([x] + s) <==> t == x || t in s;
  }

  lemma {:induction false} InsertKeepsIdsApart(x: Ticket, s: seq<Ticket>)
    requires NoneHas(s, x.id) && DistinctIds(s)
    ensures DistinctIds(Insert(x, s, NotBelow))
  {
    if s == [] || NotBelow(x, s[0]) {
      assert ([x] + s)[1..] == s;
    } else {
      var tail := Insert(x, s[1..], NotBelow);
      assert s[0] in s && forall t | t in s[1..] :: t in s;
      InsertKeepsIdsApart(x, s[1..]);
      InsertAddsOneId(x, s[1..], s[0].id);
      assert ([s[0]] + tail)[1..] == tail;
    }
  }

  lemma SortKeepsAbsence(s: seq<Ticket>, id: string)
    requires NoneHas(s, id)
    ensures NoneHas(Sort(s, NotBelow), id)
  {
    forall t | t in Sort(s, NotBelow) ensures t.id != id { SameElements(s, NotBelow, t); }
  }

  lemma {:induction false} SortKeepsIdsApart(s: seq<Ticket>)
    requires DistinctIds(s)
    ensures DistinctIds(Sort(s, NotBelow))
  {
    if s != [] {
      SortKeepsIdsApart(s[1..]);
      SortKeepsAbsence(s[1..], s[0].id);
      InsertKeepsIdsApart(s[0], Sort(s[1..], NotBelow));
    }
  }

  lemma {:induction false} PrefixKeepsIdsApart(s: seq<Ticket>, n: nat)
    requires DistinctIds(s) && n <= |s|
    ensures DistinctIds(s[..n])
  {
    if n > 0 {
      PrefixKeepsIdsApart(s[1..], n - 1);
      assert s[..n][1..] == s[1..][..n - 1];
      assert forall t | t in s[1..][..n - 1] :: t in s[1..];
    }
  }

  lemma PlanIsFree(cs: seq<Ticket>, inFlight: nat, max: nat, id: string)
    requires NoneHas(cs, id)
    ensures NoneHas(Plan(cs, inFlight, max), id)
  {
    SortKeepsAbsence(cs, id);
    var plan := Plan(cs, inFlight, max);
    PlanSplitsTheOrder(cs, inFlight, max);
    assert forall t | t in plan :: t in plan + Passed(cs, inFlight, max);
  }

  // ----- The loop and its workers -----

  datatype Phase =
    | Polling                       // about to fill
    | Filling(todo: seq<Ticket>)    // starting what the plan named
    | Selecting
    | Draining(left: nat)
    | Returned

  /** `working` holds the tickets whose handler still runs, `channel` those reported and not received. */
  datatype State = State(max: nat, inFlight: set<string>, working: set<string>, channel: seq<string>, phase: Phase) {
    function Received(next: Phase): State
      requires channel != []
    {
      this.(inFlight := inFlight - {channel[0]}, channel := channel[1..], phase := next)
    }
  }

  datatype Step =
    | Fill(listed: seq<Ticket>, board: Board)
    | Start(won: bool)     // the next planned ticket: claimed and still this stage's, or not
    | EndFill
    | Receive
    | Tick                 // the timer, or another stage's signal
    | Stop
    | DrainOne
    | GiveUp               // the drain is done, or has waited long enough
    | Report(id: string)   // a worker's send

  ghost predicate Enabled(s: State, step: Step) {
    match step
    case Fill(listed, board) => s.phase.Polling? && DistinctIds(listed) && Faithful(board)
    case Start(_) => s.phase.Filling? && s.phase.todo != []
    case EndFill => s.phase.Filling? && s.phase.todo == []
    case Receive => s.phase.Selecting? && s.channel != []
    case Tick => s.phase.Selecting?
    case Stop => s.phase.Selecting?
    case DrainOne => s.phase.Draining? && s.phase.left > 0 && s.channel != []
    case GiveUp => s.phase.Draining?
    case Report(id) => id in s.working && |s.channel| < s.max
  }

  function After(s: State, step: Step): State {
    match step
    case Fill(listed, board) =>
      s.(phase := Filling(Plan(Candidates(listed, s.inFlight, board, 0), |s.inFlight|, s.max)))
    case Start(won) =>
      if !s.phase.Filling? || s.phase.todo == [] then s
      else
        var id := s.phase.todo[0].id;
        var t := s.(phase := Filling(s.phase.todo[1..]));
        if won then t.(inFlight := s.inFlight + {id}, working := s.working + {id}) else t
    case EndFill => s.(phase := Selecting)
    case Receive => if s.channel == [] then s else s.Received(Polling)
    case Tick => s.(phase := Polling)
    case Stop => s.(phase := Draining(|s.inFlight|))
    case DrainOne =>
      if s.channel == [] || !s.phase.Draining? || s.phase.left == 0 then s else s.Received(Draining(s.phase.left - 1))
    case GiveUp => s.(phase := Returned)
    case Report(id) => s.(working := s.working - {id}, channel := s.channel + [id])
  }

  function Opened(concurrency: int): State {
    State(if concurrency < 1 then 1 else concurrency, {}, {}, [], Polling)
  }

  ghost predicate Run(from: State, steps: seq<Step>, to: State)
    decreases |steps|
  {
    if steps == [] then from == to
    else Enabled(from, steps[0]) && Run(After(from, steps[0]), steps[1..], to)
  }

  function Todo(s: State): seq<Ticket> {
    if s.phase.Filling? then s.phase.todo else []
  }

  // Every ticket in flight is either being worked or has been reported, once.
  ghost predicate Accounted(s: State) {
    && |s.inFlight| == |s.working| + |s.channel|
    && s.working <= s.inFlight
    && (forall i | 0 <= i < |s.channel| :: s.channel[i] in s.inFlight && s.channel[i] !in s.working)
    && forall i, j | 0 <= i < j < |s.channel| :: s.channel[i] != s.channel[j]
  }

  ghost predicate Roomy(s: State) {
    && |s.inFlight| + |Todo(s)| <= s.max
    && DistinctIds(Todo(s))
    && forall id | id in s.inFlight :: NoneHas(Todo(s), id)
  }

  ghost predicate Inv(s: State) {
    Accounted(s) && Roomy(s)
  }

  lemma FillIsRoomy(s: State, listed: seq<Ticket>, board: Board)
    requires Inv(s) && Enabled(s, Fill(listed, board))
    ensures Roomy(After(s, Fill(listed, board)))
  {
    var cs := Candidates(listed, s.inFlight, board, 0);
    CandidatesAreDistinct(listed, s.inFlight, board, 0);
    SortKeepsIdsApart(cs);
    PlanSplitsTheOrder(cs, |s.inFlight|, s.max);
    PrefixKeepsIdsApart(Sort(cs, NotBelow), |Plan(cs, |s.inFlight|, s.max)|);
    forall id | id in s.inFlight ensures NoneHas(Plan(cs, |s.inFlight|, s.max), id) {
      CandidatesWereListed(listed, s.inFlight, board, 0, id);
      PlanIsFree(cs, |s.inFlight|, s.max, id);
    }
  }

  lemma StartKeepsInv(s: State, won: bool)
    requires Inv(s) && Enabled(s, Start(won))
    ensures Inv(After(s, Start(won)))
  {
    var todo := s.phase.todo;
    assert todo[0] in todo && forall t | t in todo[1..] :: t in todo;
    assert forall id | id in s.inFlight :: NoneHas(todo[1..], id);
  }

  lemma ReceivedKeepsInv(s: State, next: Phase)
    requires Inv(s) && s.channel != [] && !next.Filling?
    ensures Inv(s.Received(next))
  {}

  lemma ReportKeepsInv(s: State, id: string)
    requires Inv(s) && id in s.working
    ensures Inv(After(s, Report(id)))
  {}

  lemma StepKeepsInv(s: State, step: Step)
    requires Inv(s) && Enabled(s, step)
    ensures Inv(After(s, step))
  {
    match step
    case Fill(listed, board) => FillIsRoomy(s, listed, board);
    case Start(won) => StartKeepsInv(s, won);
    case Receive => ReceivedKeepsInv(s, Polling);
    case DrainOne => ReceivedKeepsInv(s, Draining(s.phase.left - 1));
    case Report(id) => ReportKeepsInv(s, id);
    case _ =>
  }

  lemma {:induction false} RunsKeepInv(from: State, steps: seq<Step>, to: State)
    requires Inv(from) && Run(from, steps, to)
    ensures Inv(to) && to.max == from.max
    decreases |steps|
  {
    if steps != [] {
      StepKeepsInv(from, steps[0]);
      RunsKeepInv(After(from, steps[0]), steps[1..], to);
    }
  }

  /** In every reachable state, tickets in flight stay within the concurrency. */
  lemma ConcurrencyIsRespected(concurrency: int, steps: seq<Step>, s: State)
    requires Run(Opened(concurrency), steps, s)
    ensures |s.inFlight| <= if concurrency < 1 then 1 else concurrency
    ensures s.working <= s.inFlight
  {
    RunsKeepInv(Opened(concurrency), steps, s);
  }

  /** A worker's report never blocks: there is room for it in every reachable state, after Run has returned too. */
  lemma ReportsNeverBlock(concurrency: int, steps: seq<Step>, s: State, id: string)
    requires Run(Opened(concurrency), steps, s) && id in s.working
    ensures Enabled(s, Report(id))
  {
    RunsKeepInv(Opened(concurrency), steps, s);
    assert |s.working| > 0 by { assert s.working != {}; }
  }

  /**
   What the loop finishes is work that has ended: in every reachable state, receiving a report frees
   exactly one slot, for a ticket nobody here is still working and that is not reported again.
   */
  lemma FinishFreesOneSlot(concurrency: int, steps: seq<Step>, s: State)
    requires Run(Opened(concurrency), steps, s) && s.channel != [] && (Enabled(s, Receive) || Enabled(s, DrainOne))
    ensures var id, t := s.channel[0], After(s, if s.phase.Selecting? then Receive else DrainOne);
      && id in s.inFlight && t.inFlight == s.inFlight - {id} && |t.inFlight| + 1 == |s.inFlight|
      && t.working == s.working && id !in s.working && id !in t.channel
  {
    RunsKeepInv(Opened(concurrency), steps, s);
    var id := s.channel[0];
    assert s.inFlight == (s.inFlight - {id}) + {id};
  }

  // While it drains, the loop still waits for exactly the tickets in flight.
  ghost predicate DrainCounts(s: State) {
    s.phase.Draining? ==> s.phase.left == |s.inFlight|
  }

  lemma StepKeepsDrainCounts(s: State, step: Step)
    requires Inv(s) && DrainCounts(s) && Enabled(s, step)
    ensures DrainCounts(After(s, step))
  {
    if step.DrainOne? {
      var id := s.channel[0];
      assert s.inFlight == (s.inFlight - {id}) + {id};
    }
  }

  lemma {:induction false} RunsKeepDrainCounts(from: State, steps: seq<Step>, to: State)
    requires Inv(from) && DrainCounts(from) && Run(from, steps, to)
    ensures DrainCounts(to)
    decreases |steps|
  {
    if steps != [] {
      StepKeepsInv(from, steps[0]);
      StepKeepsDrainCounts(from, steps[0]);
      RunsKeepDrainCounts(After(from, steps[0]), steps[1..], to);
    }
  }

  /** Stopping waits for as many reports as there are tickets in flight, no more and no less, at every moment. */
  lemma DrainWaitsForTheRest(concurrency: int, steps: seq<Step>, s: State)
    requires Run(Opened(concurrency), steps, s) && s.phase.Draining?
    ensures s.phase.left == |s.inFlight| == |s.working| + |s.channel|
  {
    RunsKeepInv(Opened(concurrency), steps, s);
    RunsKeepDrainCounts(Opened(concurrency), steps, s);
  }

  /** A report, a tick and a signal all lead to the next fill; only the end of the context leads to the drain. */
  lemma LoopByEvent(s: State)
    ensures Enabled(s, Receive) ==> After(s, Receive).phase == Polling
    ensures Enabled(s, Tick) ==> After(s, Tick) == s.(phase := Polling)
    ensures Enabled(s, Stop) ==> After(s, Stop).phase.Draining? && After(s, Stop).inFlight == s.inFlight
    ensures Enabled(s, GiveUp) ==> After(s, GiveUp) == s.(phase := Returned)
  {}

  // ----- The dispatcher's own record of what is in flight -----

  // The planned tickets this host won and still wants.
  function Won(plan: seq<Ticket>, claims: string -> bool): set<string> {
    set t | t in plan && claims(t.id) :: t.id
  }

  function Starts(plan: seq<Ticket>, claims: string -> bool): seq<Step> {
    if plan == [] then [] else [Start(claims(plan[0].id))] + Starts(plan[1..], claims)
  }

  // The loop about to select, with these tickets started.
  function Selected(s: State, won: set<string>): State {
    s.(phase := Selecting, inFlight := s.inFlight + won, working := s.working + won)
  }

  lemma OneStartFirst(s: State, claims: string -> bool)
    requires s.phase.Filling? && s.phase.todo != []
    ensures var plan := s.phase.todo;
      Selected(After(s, Start(claims(plan[0].id))), Won(plan[1..], claims)) == Selected(s, Won(plan, claims))
  {
    var plan := s.phase.todo;
    var first := if claims(plan[0].id) then {plan[0].id} else {};
    WonOfFirst(plan, claims);
    assert s.inFlight + first + Won(plan[1..], claims) == s.inFlight + Won(plan, claims);
    assert s.working + first + Won(plan[1..], claims) == s.working + Won(plan, claims);
    assert s.inFlight + {} == s.inFlight && s.working + {} == s.working;
  }

  lemma {:induction false} StartsRun(s: State, claims: string -> bool)
    requires s.phase.Filling?
    ensures Run(s, Starts(s.phase.todo, claims) + [EndFill], Selected(s, Won(s.phase.todo, claims)))
    decreases |s.phase.todo|
  {
    var plan := s.phase.todo;
    var steps := Starts(plan, claims) + [EndFill];
    if plan == [] {
      assert Won(plan, claims) == {};
      assert s.inFlight + {} == s.inFlight && s.working + {} == s.working;
      assert steps == [EndFill] && steps[1..] == [];
    } else {
      StartsRun(After(s, Start(claims(plan[0].id))), claims);
      OneStartFirst(s, claims);
      assert steps[0] == Start(claims(plan[0].id)) && steps[1..] == Starts(plan[1..], claims) + [EndFill];
    }
  }

  lemma WonOfFirst(plan: seq<Ticket>, claims: string -> bool)
    requires plan != []
    ensures Won(plan, claims) == (if claims(plan[0].id) then {plan[0].id} else {}) + Won(plan[1..], claims)
  {
    assert plan == [plan[0]] + plan[1..];
  }

  /** One fill of the loop is the steps it stands for: the plan in order, each start won or lost, and on. */
  lemma FillIsItsSteps(s: State, listed: seq<Ticket>, board: Board, claims: string -> bool)
    requires Enabled(s, Fill(listed, board))
    ensures var plan := Plan(Candidates(listed, s.inFlight, board, 0), |s.inFlight|, s.max);
      Run(s, [Fill(listed, board)] + (Starts(plan, claims) + [EndFill]), Selected(s, Won(plan, claims)))
  {
    var next := After(s, Fill(listed, board));
    StartsRun(next, claims);
    var rest := Starts(next.phase.todo, claims) + [EndFill];
    assert ([Fill(listed, board)] + rest)[1..] == rest;
  }

  lemma WonOfNext(plan: seq<Ticket>, i: nat, claims: string -> bool)
    requires i < |plan|
    ensures Won(plan[..i + 1], claims) ==
            Won(plan[..i], claims) + if claims(plan[i].id) then {plan[i].id} else {}
  {
    assert forall t :: t in plan[..i + 1] <==> t in plan[..i] || t == plan[i] by {
      assert plan[..i + 1] == plan[..i] + [plan[i]];
    }
  }

  class Dispatcher {
    const concurrency: nat
    var inFlight: set<string>

    constructor (concurrency: int)
      ensures this.concurrency == Opened(concurrency).max && inFlight == {}
    {
      this.concurrency := if concurrency < 1 then 1 else concurrency;
      inFlight := {};
    }

    method Gather(listed: seq<Ticket>, board: Board) returns (candidates: seq<Ticket>)
      ensures candidates == Candidates(listed, inFlight, board, 0)
    {
      candidates := [];
      var looked := 0;
      for i := 0 to |listed|
        invariant Candidates(listed, inFlight, board, 0) ==
                  candidates + Candidates(listed[i..], inFlight, board, looked)
      {
        var t := listed[i];
        assert listed[i..][0] == t && listed[i..][1..] == listed[i + 1..];
        if t.id in inFlight || !board.ready(t) { continue; }
        if looked >= MAX_HYDRATE_PER_POLL { return; }
        looked := looked + 1;
        var full := board.get(t.id);
        var taken := if full.Some? && board.eligible(full.value) then [full.value] else [];
        assert candidates + (taken + Candidates(listed[i + 1..], inFlight, board, looked))
            == (candidates + taken) + Candidates(listed[i + 1..], inFlight, board, looked);
        candidates := candidates + taken;
      }
    }

    method Fill(listed: seq<Ticket>, board: Board, claims: string -> bool)
      modifies this`inFlight
      ensures var plan := Plan(Candidates(listed, old(inFlight), board, 0), |old(inFlight)|, concurrency);
        && inFlight == old(inFlight) + Won(plan, claims)
        && (|old(inFlight)| <= concurrency ==> |inFlight| <= concurrency)
    {
      var candidates := Gather(listed, board);
      var plan := Plan(candidates, |inFlight|, concurrency);
      PlanSplitsTheOrder(candidates, |inFlight|, concurrency);
      StartAll(plan, claims);
    }

    method StartAll(plan: seq<Ticket>, claims: string -> bool)
      modifies this`inFlight
      ensures inFlight == old(inFlight) + Won(plan, claims)
      ensures |inFlight| <= |old(inFlight)| + |plan|
    {
      for i := 0 to |plan|
        invariant inFlight == old(inFlight) + Won(plan[..i], claims)
        invariant |inFlight| <= |old(inFlight)| + i
      {
        WonOfNext(plan, i, claims);
        if claims(plan[i].id) { inFlight := inFlight + {plan[i].id}; }
      }
      assert plan[..|plan|] == plan;
    }

    method Finish(id: string)
      modifies this`inFlight
      ensures inFlight == old(inFlight) - {id}
      ensures |inFlight| == |old(inFlight)| - if id in old(inFlight) then 1 else 0
    {
      inFlight := inFlight - {id};
    }
  }
}
