/**
 A renewing login shared by every stage (`internal/transport/session.go`).

 Callers interleave at the mutex and at the channel: entering Renew, storing a login's result,
 closing its channel, and reading the shared result are separate steps, so a newer login may overwrite
 the result before a waiter has read it. A login is known by the call that performs it.
 */
module Session {
  import opened Wrappers

  datatype Outcome = Token(token: string) | Error

  datatype Grant = Grant(login: nat, outcome: Outcome)

  // What the mutex guards.
  datatype Shared = Shared(inflight: Option<nat>, result: Option<Grant>, token: Option<Grant>) {
    // The section at the head of Renew: the login to wait for, or none when this call must log in.
    function Entered(call: nat): Shared {
      if inflight.Some? then this else this.(inflight := Some(call))
    }

    function Stored(g: Grant): Shared {
      Shared(None, Some(g), if g.outcome.Token? then Some(g) else token)
    }
  }

  datatype Phase =
    | Running                   // its login is under way
    | Closing(outcome: Outcome) // the result is stored, the channel still open
    | Done(outcome: Outcome)    // the channel is closed, the call has returned
    | Waiting(on: nat)
    | Took(taken: Grant)        // a waiter that returned the shared result
    | Cancelled
    | Cached(held: Grant)       // Token returned the session it already had

  datatype Call = Call(began: nat, phase: Phase)

  /** `ends` records when each login finished. */
  datatype State = State(clock: nat, shared: Shared, ends: map<nat, nat>, calls: map<nat, Call>) {
    function Moved(c: nat, p: Phase): State
      requires c in calls
    {
      this.(clock := clock + 1, calls := calls[c := calls[c].(phase := p)])
    }
  }

  datatype Step =
    | Ask(c: nat)
    | Renew(c: nat)
    | Store(c: nat, outcome: Outcome)
    | Close(c: nat)
    | Wake(c: nat)
    | Cancel(c: nat)

  predicate Enabled(s: State, step: Step) {
    match step
    case Ask(c) => c !in s.calls
    case Renew(c) => c !in s.calls
    case Store(c, _) => c in s.calls && s.calls[c].phase.Running?
    case Close(c) => c in s.calls && s.calls[c].phase.Closing?
    case Wake(c) => c in s.calls && s.calls[c].phase.Waiting? && s.calls[c].phase.on in s.calls
      && s.calls[s.calls[c].phase.on].phase.Done? && s.shared.result.Some?
    case Cancel(c) => c in s.calls && s.calls[c].phase.Waiting?
  }

  function Entering(s: State, c: nat): State {
    var phase := if s.shared.inflight.Some? then Waiting(s.shared.inflight.value) else Running;
    s.(clock := s.clock + 1, shared := s.shared.Entered(c), calls := s.calls[c := Call(s.clock, phase)])
  }

  function After(s: State, step: Step): State
    requires Enabled(s, step)
  {
    match step
    case Ask(c) =>
      if s.shared.token.Some? then
        s.(clock := s.clock + 1, calls := s.calls[c := Call(s.clock, Cached(s.shared.token.value))])
      else Entering(s, c)
    case Renew(c) => Entering(s, c)
    case Store(c, outcome) =>
      s.Moved(c, Closing(outcome)).(shared := s.shared.Stored(Grant(c, outcome)), ends := s.ends[c := s.clock])
    case Close(c) => s.Moved(c, Done(s.calls[c].phase.outcome))
    case Wake(c) => s.Moved(c, Took(s.shared.result.value))
    case Cancel(c) => s.Moved(c, Cancelled)
  }

  function Opened(): State {
    State(0, Shared(None, None, None), map[], map[])
  }

  ghost predicate Run(from: State, steps: seq<Step>, to: State)
    decreases |steps|
  {
    if steps == [] then from == to
    else Enabled(from, steps[0]) && Run(After(from, steps[0]), steps[1..], to)
  }

  // ----- The invariant -----

  predicate Leads(p: Phase) {
    p.Running? || p.Closing? || p.Done?
  }

  predicate IsRunning(s: State, login: nat) {
    login in s.calls && s.calls[login].phase.Running?
  }

  // The login has finished, with this outcome.
  ghost predicate Ended(s: State, g: Grant) {
    && g.login in s.ends && s.ends[g.login] < s.clock && g.login in s.calls
    && (s.calls[g.login].phase == Closing(g.outcome) || s.calls[g.login].phase == Done(g.outcome))
  }

  // The login has finished after this time, or is still under way.
  ghost predicate EndsAfter(s: State, login: nat, time: nat) {
    && login in s.calls && Leads(s.calls[login].phase)
    && (s.calls[login].phase.Running? || (login in s.ends && time < s.ends[login]))
  }

  ghost predicate CallHolds(s: State, c: nat)
    requires c in s.calls
  {
    && s.calls[c].began < s.clock
    && match s.calls[c].phase
       case Running => s.shared.inflight == Some(c) && c !in s.ends
       case Closing(outcome) => Ended(s, Grant(c, outcome)) && s.calls[c].began < s.ends[c]
       case Done(outcome) => Ended(s, Grant(c, outcome)) && s.calls[c].began < s.ends[c]
       case Waiting(on) => EndsAfter(s, on, s.calls[c].began)
       case Took(g) => Ended(s, g) && s.calls[c].began < s.ends[g.login]
       case Cancelled => true
       case Cached(g) => Ended(s, g) && g.outcome.Token?
  }

  ghost predicate SharedHolds(s: State) {
    && (s.shared.inflight.Some? ==> IsRunning(s, s.shared.inflight.value))
    && (s.shared.token.Some? ==> Ended(s, s.shared.token.value) && s.shared.token.value.outcome.Token?)
    && (s.shared.result.Some? ==> Ended(s, s.shared.result.value))
    && forall e | e in s.ends ::
         e in s.calls && s.shared.result.Some? && s.ends[e] <= s.ends[s.shared.result.value.login]
  }

  // The token held is of the login that succeeded last.
  ghost predicate TokenIsLatest(s: State) {
    forall e | e in s.ends && Succeeded(s, e) ::
      s.shared.token.Some? && s.shared.token.value.login in s.ends && s.ends[e] <= s.ends[s.shared.token.value.login]
  }

  predicate Succeeded(s: State, login: nat) {
    && login in s.calls
    && match s.calls[login].phase
       case Closing(outcome) => outcome.Token?
       case Done(outcome) => outcome.Token?
       case _ => false
  }

  // No two logins finished at once.
  ghost predicate EndsApart(s: State) {
    && (forall e | e in s.ends :: s.ends[e] < s.clock)
    && forall e, f | e in s.ends && f in s.ends && s.ends[e] == s.ends[f] :: e == f
  }

  ghost predicate Inv(s: State) {
    SharedHolds(s) && EndsApart(s) && TokenIsLatest(s) && forall c | c in s.calls :: CallHolds(s, c)
  }

  // ----- Every step keeps it -----

  lemma EndedStays(s: State, step: Step, g: Grant)
    requires Inv(s) && Enabled(s, step) && Ended(s, g)
    ensures Ended(After(s, step), g) && After(s, step).ends[g.login] == s.ends[g.login]
  {
    assert CallHolds(s, g.login);
  }

  lemma EndsAfterStays(s: State, step: Step, login: nat, time: nat)
    requires Inv(s) && Enabled(s, step) && EndsAfter(s, login, time) && time < s.clock
    ensures EndsAfter(After(s, step), login, time)
  {
    assert CallHolds(s, login);
  }

  // Calls that did not move.
  lemma OthersHold(s: State, step: Step, c: nat)
    requires Inv(s) && Enabled(s, step) && c in s.calls && After(s, step).calls[c] == s.calls[c]
    ensures CallHolds(After(s, step), c)
  {
    assert CallHolds(s, c);
    match s.calls[c].phase
    case Running => RunningHolds(s, step, c);
    case Closing(outcome) => EndedStays(s, step, Grant(c, outcome));
    case Done(outcome) => EndedStays(s, step, Grant(c, outcome));
    case Waiting(on) => EndsAfterStays(s, step, on, s.calls[c].began);
    case Took(g) => EndedStays(s, step, g);
    case Cancelled =>
    case Cached(g) => EndedStays(s, step, g);
  }

  lemma RunningHolds(s: State, step: Step, c: nat)
    requires Inv(s) && Enabled(s, step) && c in s.calls && s.calls[c].phase.Running?
    requires After(s, step).calls[c] == s.calls[c]
    ensures CallHolds(After(s, step), c)
  {
    assert CallHolds(s, c);
    assert step.Store? ==> CallHolds(s, step.c);
  }

  lemma EntrantHolds(s: State, c: nat)
    requires Inv(s) && c !in s.calls
    ensures CallHolds(Entering(s, c), c)
  {}

  lemma CallerHolds(s: State, step: Step)
    requires Inv(s) && Enabled(s, step) && !step.Ask? && !step.Renew?
    ensures CallHolds(After(s, step), step.c)
  {
    assert CallHolds(s, step.c);
    if step.Wake? { ResultIsNoOlder(s, s.calls[step.c].phase.on); }
    if step.Close? { EndedStays(s, step, Grant(step.c, s.calls[step.c].phase.outcome)); }
  }

  // The shared result is of the login that finished last.
  lemma ResultIsNoOlder(s: State, login: nat)
    requires SharedHolds(s) && login in s.ends
    ensures s.shared.result.Some? && s.ends[login] <= s.ends[s.shared.result.value.login]
  {}

  lemma CallsHold(s: State, step: Step)
    requires Inv(s) && Enabled(s, step)
    ensures var t := After(s, step); forall c | c in t.calls :: CallHolds(t, c)
  {
    var t := After(s, step);
    forall c | c in t.calls ensures CallHolds(t, c) {
      if c != step.c { OthersHold(s, step, c); }
      else if !step.Ask? && !step.Renew? { CallerHolds(s, step); }
      else if step.Renew? || s.shared.token.None? { EntrantHolds(s, c); }
      else { EndedStays(s, step, s.shared.token.value); }
    }
  }

  lemma SharedStays(s: State, step: Step)
    requires Inv(s) && Enabled(s, step)
    ensures SharedHolds(After(s, step))
  {
    if s.shared.token.Some? { EndedStays(s, step, s.shared.token.value); }
    if s.shared.result.Some? { EndedStays(s, step, s.shared.result.value); }
    assert step.c in s.calls ==> CallHolds(s, step.c);
  }

  lemma EndsStayApart(s: State, step: Step)
    requires Inv(s) && Enabled(s, step)
    ensures EndsApart(After(s, step))
  {}

  lemma TokenStaysLatest(s: State, step: Step)
    requires Inv(s) && Enabled(s, step)
    ensures TokenIsLatest(After(s, step))
  {
    var t := After(s, step);
    if s.shared.token.Some? { EndedStays(s, step, s.shared.token.value); }
    forall e | e in t.ends && Succeeded(t, e)
      ensures t.shared.token.Some? && t.ends[e] <= t.ends[t.shared.token.value.login]
    {
      if e in s.ends {
        assert e in s.calls && CallHolds(s, e);
        assert Succeeded(s, e);
      }
    }
  }

  lemma {:induction false} RunsKeepInv(from: State, steps: seq<Step>, to: State)
    requires Inv(from) && Run(from, steps, to)
    ensures Inv(to)
    decreases |steps|
  {
    if steps != [] {
      CallsHold(from, steps[0]);
      SharedStays(from, steps[0]);
      EndsStayApart(from, steps[0]);
      TokenStaysLatest(from, steps[0]);
      RunsKeepInv(After(from, steps[0]), steps[1..], to);
    }
  }

  // ----- What callers get -----

  /** At most one login is under way, in every state any interleaving of callers reaches. */
  lemma OneLoginAtATime(steps: seq<Step>, s: State, a: nat, b: nat)
    requires Run(Opened(), steps, s) && IsRunning(s, a) && IsRunning(s, b)
    ensures a == b
  {
    RunsKeepInv(Opened(), steps, s);
    assert CallHolds(s, a) && CallHolds(s, b);
  }

  // What a finished call returned, when it came from a login.
  function Returned(p: Phase, c: nat): Option<Grant> {
    match p
    case Done(outcome) => Some(Grant(c, outcome))
    case Took(g) => Some(g)
    case _ => None
  }

  /**
   Whatever a call to Renew returns, a token or an error, is the outcome of a login that finished
   after that call began, even when a newer login replaced the one it waited for.
   */
  lemma RenewalIsFresh(steps: seq<Step>, s: State, c: nat)
    requires Run(Opened(), steps, s) && c in s.calls && Returned(s.calls[c].phase, c).Some?
    ensures var g := Returned(s.calls[c].phase, c).value;
      Ended(s, g) && s.calls[c].began < s.ends[g.login]
  {
    RunsKeepInv(Opened(), steps, s);
    assert CallHolds(s, c);
  }

  /** The session Token hands out without asking is the newest one any login has obtained so far. */
  lemma HeldTokenIsNewest(steps: seq<Step>, s: State, c: nat)
    requires Run(Opened(), steps, s) && Enabled(s, Ask(c)) && s.shared.token.Some?
    ensures var g := s.shared.token.value;
      && After(s, Ask(c)).calls[c].phase == Cached(g)
      && Ended(s, g) && g.outcome.Token?
      && (forall e | e in s.ends && Succeeded(s, e) :: s.ends[e] <= s.ends[g.login])
      && forall e, token | e in s.ends && e in s.calls && s.calls[e].phase == Done(Token(token)) ::
           s.ends[e] <= s.ends[g.login]
  {
    RunsKeepInv(Opened(), steps, s);
  }

  /** Which logins have succeeded: those that got a token, from the moment their result is stored. */
  lemma SucceededByPhase(s: State, login: nat)
    ensures Succeeded(s, login) <==>
      && login in s.calls
      && exists token :: s.calls[login].phase == Done(Token(token)) || s.calls[login].phase == Closing(Token(token))
  {
    if Succeeded(s, login) {
      var token := s.calls[login].phase.outcome.token;
      assert s.calls[login].phase == Done(Token(token)) || s.calls[login].phase == Closing(Token(token));
    }
  }

  /** A waiter is never stranded: the login it waits for is under way, about to close its channel, or closed it. */
  lemma WaitersAreWoken(steps: seq<Step>, s: State, c: nat)
    requires Run(Opened(), steps, s) && c in s.calls && s.calls[c].phase.Waiting?
    ensures var login := s.calls[c].phase.on;
      || Enabled(s, Wake(c)) || Enabled(s, Close(login))
      || Enabled(s, Store(login, Error))
  {
    RunsKeepInv(Opened(), steps, s);
    assert CallHolds(s, c);
    var login := s.calls[c].phase.on;
    assert CallHolds(s, login);
  }

  /**
   The outcome a waiter returns is that of the login it waited for exactly when no other login has
   stored its own since.
   */
  lemma WaiterGetsItsLoginExactlyWhen(steps: seq<Step>, s: State, c: nat)
    requires Run(Opened(), steps, s) && Enabled(s, Wake(c))
    ensures var login := s.calls[c].phase.on;
      Returned(After(s, Wake(c)).calls[c].phase, c).value.login == login
      <==> login in s.ends && forall e | e in s.ends :: s.ends[e] <= s.ends[login]
  {
    RunsKeepInv(Opened(), steps, s);
    var login := s.calls[c].phase.on;
    assert CallHolds(s, c) && CallHolds(s, login);
  }

  lemma {:induction false} RunsCompose(a: State, first: seq<Step>, b: State, second: seq<Step>, c: State)
    requires Run(a, first, b) && Run(b, second, c)
    ensures Run(a, first + second, c)
    decreases |first|
  {
    if first == [] {
      assert first + second == second;
    } else {
      assert (first + second)[1..] == first[1..] + second;
      RunsCompose(After(a, first[0]), first[1..], b, second, c);
    }
  }

  // Two calls overlap on a login that succeeds; before the second has read the result, a third fails.
  const OVERLAP := [Renew(0), Renew(1), Store(0, Token("t")), Close(0)]
  const OVERTAKE := [Renew(2), Store(2, Error), Wake(1)]

  const OVERLAPPED := State(4, Shared(None, Some(Grant(0, Token("t"))), Some(Grant(0, Token("t")))), map[0 := 2],
                            map[0 := Call(0, Done(Token("t"))), 1 := Call(1, Waiting(0))])

  const OVERTAKEN := State(7, Shared(None, Some(Grant(2, Error)), OVERLAPPED.shared.token), map[0 := 2, 2 := 5],
                           map[0 := Call(0, Done(Token("t"))), 1 := Call(1, Took(Grant(2, Error))),
                               2 := Call(4, Closing(Error))])

  lemma OverlapRuns()
    ensures Run(Opened(), OVERLAP, OVERLAPPED)
  {
    var s1 := After(Opened(), OVERLAP[0]);
    var s2 := After(s1, OVERLAP[1]);
    var s3 := After(s2, OVERLAP[2]);
    assert OVERLAP[1..][1..] == OVERLAP[2..] && OVERLAP[2..][1..] == OVERLAP[3..] && OVERLAP[3..][1..] == [];
    assert After(s3, OVERLAP[3]) == OVERLAPPED;
    assert Run(s3, OVERLAP[3..], OVERLAPPED);
    assert Run(s2, OVERLAP[2..], OVERLAPPED);
  }

  lemma OvertakeRuns()
    ensures Run(OVERLAPPED, OVERTAKE, OVERTAKEN)
  {
    var s1 := After(OVERLAPPED, OVERTAKE[0]);
    var s2 := After(s1, OVERTAKE[1]);
    assert OVERTAKE[1..][1..] == OVERTAKE[2..] && OVERTAKE[2..][1..] == [];
    assert After(s2, OVERTAKE[2]) == OVERTAKEN;
    assert Run(s2, OVERTAKE[2..], OVERTAKEN);
    assert Run(s1, OVERTAKE[1..], OVERTAKEN);
  }

  /** So a waiter can return an error although the login it waited for succeeded. */
  lemma OvertakenWaiterFails()
    ensures Run(Opened(), OVERLAP + OVERTAKE, OVERTAKEN)
    ensures OVERTAKEN.calls[1].phase == Took(Grant(2, Error)) && OVERTAKEN.calls[0].phase == Done(Token("t"))
  {
    OverlapRuns();
    OvertakeRuns();
    RunsCompose(Opened(), OVERLAP, OVERLAPPED, OVERTAKE, OVERTAKEN);
  }

  // ----- The session itself -----

  /** Each method is one section of the source's code between two points where other callers may run. */
  class Session {
    var token: Option<Grant>
    var inflight: Option<nat>
    var result: Option<Grant>

    ghost function View(): Shared
      reads this
    {
      Shared(inflight, result, token)
    }

    constructor ()
      ensures View() == Opened().shared
    {
      token, inflight, result := None, None, None;
    }

    // The head of Renew: the login to wait for, or None when this call must log in.
    method Enter(call: nat) returns (wait: Option<nat>)
      modifies this`inflight
      ensures View() == old(View()).Entered(call) && wait == old(inflight)
    {
      if inflight.Some? { return inflight; }
      inflight := Some(call);
      return None;
    }

    // The login is over; its channel is closed after this section.
    method Store(call: nat, outcome: Outcome)
      modifies this
      ensures View() == old(View()).Stored(Grant(call, outcome))
    {
      result := Some(Grant(call, outcome));
      if outcome.Token? { token := Some(Grant(call, outcome)); }
      inflight := None;
    }
  }
}
