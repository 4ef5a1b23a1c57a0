/**
 Sandbox leases (`internal/forge/sandbox.go`): acquired per ticket, replaced once when the forge has
 reaped one, given back at the end. Leases are numbered in the order the forge creates them; what the
 forge answers is part of each operation.
 */
module Lease {
  import opened Wrappers

  // What becomes of one attempt to acquire: no lease is made, one is made but never ready, or one is ready.
  datatype Boot = NotCreated | NeverReady | Ready

  datatype Reply = Completed | Gone | Failed

  /** `releases` counts the releases issued for a lease, `submitted` the lease each command named. */
  datatype Forge = Forge(created: nat, releases: map<nat, nat>, submitted: seq<nat>) {
    function Releases(lease: nat): nat {
      if lease in releases then releases[lease] else 0
    }

    function Released(lease: nat): Forge {
      this.(releases := releases[lease := Releases(lease) + 1])
    }

    function Submitted(lease: nat): Forge {
      this.(submitted := submitted + [lease])
    }

    // A lease that never became usable still has to be given back.
    function Acquired(boot: Boot): (Forge, Option<nat>) {
      var made := this.(created := created + 1);
      match boot
      case NotCreated => (this, None)
      case NeverReady => (made.Released(created), None)
      case Ready => (made, Some(created))
    }
  }

  // A sandbox: the lease it holds, and the lease its command spec names.
  datatype Box = Box(lease: Option<nat>, spec: nat)

  datatype RunError = NoLease | LeaseGone | NotReplaced | OtherFailure

  function Answered(r: Reply): Result<(), RunError> {
    match r
    case Completed => Ok(())
    case Gone => Err(LeaseGone)
    case Failed => Err(OtherFailure)
  }

  function Reacquired(f: Forge, b: Box, boot: Boot): (Forge, Box)
    requires b.lease.Some?
  {
    var (g, made) := f.Released(b.lease.value).Acquired(boot);
    (g, if made.Some? then Box(made, made.value) else b.(lease := None))
  }

  function Ran(f: Forge, b: Box, first: Reply, boot: Boot, second: Reply): (Forge, Box, Result<(), RunError>) {
    if b.lease.None? then (f, b, Err(NoLease))
    else
      var once := f.Submitted(b.spec);
      if !first.Gone? then (once, b, Answered(first))
      else
        var (g, fixed) := Reacquired(once, b, boot);
        if fixed.lease.None? then (g, fixed, Err(NotReplaced))
        else (g.Submitted(fixed.lease.value), fixed, Answered(second))
  }

  function GivenBack(f: Forge, b: Box): (Forge, Box) {
    if b.lease.None? then (f, b) else (f.Released(b.lease.value), b.(lease := None))
  }

  /**
   A command by the forge's replies: without a lease nothing is submitted; a reply other than that the
   lease is gone is the answer; and otherwise the lease is given back, and the reply over a replacement
   is the answer if there is one.
   */
  lemma RunByReply(f: Forge, b: Box, first: Reply, boot: Boot, second: Reply)
    ensures var (g, c, r) := Ran(f, b, first, boot, second);
      if b.lease == None then r == Err(NoLease) && g == f && c == b
      else if first != Gone then
        r == (if first == Completed then Ok(()) else Err(OtherFailure)) && c == b
        && g == f.(submitted := f.submitted + [b.spec])
      else
        && (boot == Ready <==> c.lease == Some(f.created)) && (boot != Ready <==> c.lease == None)
        && (boot == Ready ==> c.spec == f.created && g.submitted == f.submitted + [b.spec] + [f.created])
        && (boot != Ready ==> c.spec == b.spec && g.submitted == f.submitted + [b.spec])
        && r == (if boot != Ready then Err(NotReplaced)
                 else if second == Completed then Ok(())
                 else if second == Gone then Err(LeaseGone)
                 else Err(OtherFailure))
        && g.created == f.created + (if boot == NotCreated then 0 else 1)
        && (b.lease.value != f.created ==> g.Releases(b.lease.value) == f.Releases(b.lease.value) + 1)
  {}

  // ----- Many sandboxes over one forge -----

  datatype World = World(forge: Forge, boxes: seq<Box>)

  datatype Op =
    | Acquire(boot: Boot)
    | Run(box: nat, first: Reply, boot: Boot, second: Reply)
    | Release(box: nat)

  function Step(w: World, op: Op): World {
    match op
    case Acquire(boot) =>
      var (f, made) := w.forge.Acquired(boot);
      World(f, if made.Some? then w.boxes + [Box(made, made.value)] else w.boxes)
    case Run(i, first, boot, second) =>
      if i >= |w.boxes| then w
      else
        var (f, b, _) := Ran(w.forge, w.boxes[i], first, boot, second);
        World(f, w.boxes[i := b])
    case Release(i) =>
      if i >= |w.boxes| then w
      else
        var (f, b) := GivenBack(w.forge, w.boxes[i]);
        World(f, w.boxes[i := b])
  }

  function Steps(w: World, ops: seq<Op>): World
    decreases |ops|
  {
    if ops == [] then w else Steps(Step(w, ops[0]), ops[1..])
  }

  const EMPTY := World(Forge(0, map[], []), [])

  function Holds(b: Box, lease: nat): nat {
    if b.lease == Some(lease) then 1 else 0
  }

  function Holders(boxes: seq<Box>, lease: nat): nat {
    if boxes == [] then 0 else Holds(boxes[0], lease) + Holders(boxes[1..], lease)
  }

  // A held sandbox's command spec names the lease it holds.
  ghost predicate NamesItsLease(b: Box) {
    b.lease.Some? ==> b.spec == b.lease.value
  }

  /** Every lease created is held by one sandbox or has been released once, never both. */
  ghost predicate Conserved(w: World) {
    && (forall i | 0 <= i < |w.boxes| :: NamesItsLease(w.boxes[i]))
    && forall lease: nat ::
         Holders(w.boxes, lease) + w.forge.Releases(lease) == if lease < w.forge.created then 1 else 0
  }

  lemma {:induction false} HoldersOfUpdate(boxes: seq<Box>, i: nat, b: Box, lease: nat)
    requires i < |boxes|
    ensures Holders(boxes[i := b], lease) == Holders(boxes, lease) - Holds(boxes[i], lease) + Holds(b, lease)
    ensures Holders(boxes, lease) >= Holds(boxes[i], lease)
  {
    if i == 0 {
      assert boxes[0 := b][1..] == boxes[1..];
    } else {
      assert boxes[i := b][1..] == boxes[1..][i - 1 := b];
      HoldersOfUpdate(boxes[1..], i - 1, b, lease);
    }
  }

  lemma {:induction false} HoldersOfAppend(boxes: seq<Box>, b: Box, lease: nat)
    ensures Holders(boxes + [b], lease) == Holders(boxes, lease) + Holds(b, lease)
  {
    if boxes == [] {
      assert (boxes + [b])[1..] == [];
    } else {
      assert (boxes + [b])[1..] == boxes[1..] + [b];
      HoldersOfAppend(boxes[1..], b, lease);
    }
  }

  // What an operation on one sandbox does to one lease: what was held and is not any more is released once.
  ghost predicate Balanced(f: Forge, b: Box, g: Forge, c: Box, lease: nat) {
    && f.created <= g.created
    && Holds(c, lease) + g.Releases(lease) - Holds(b, lease) - f.Releases(lease)
       == if f.created <= lease < g.created then 1 else 0
  }

  lemma RunBalances(f: Forge, b: Box, first: Reply, boot: Boot, second: Reply, lease: nat)
    requires NamesItsLease(b) && (b.lease.Some? ==> b.lease.value < f.created)
    ensures var (g, c, _) := Ran(f, b, first, boot, second);
      NamesItsLease(c) && Balanced(f, b, g, c, lease)
  {}

  lemma ReleaseBalances(f: Forge, b: Box, lease: nat)
    ensures var (g, c) := GivenBack(f, b); Balanced(f, b, g, c, lease)
  {}

  // An operation on sandbox i that balances keeps every lease accounted for.
  lemma BalancedStepConserves(w: World, i: nat, g: Forge, c: Box)
    requires Conserved(w) && i < |w.boxes| && NamesItsLease(c)
    requires forall lease: nat :: Balanced(w.forge, w.boxes[i], g, c, lease)
    ensures Conserved(World(g, w.boxes[i := c]))
  {
    forall lease: nat
      ensures Holders(w.boxes[i := c], lease) + g.Releases(lease) == if lease < g.created then 1 else 0
    {
      HoldersOfUpdate(w.boxes, i, c, lease);
      assert Balanced(w.forge, w.boxes[i], g, c, lease);
    }
  }

  lemma HeldWasCreated(w: World, i: nat)
    requires Conserved(w) && i < |w.boxes| && w.boxes[i].lease.Some?
    ensures w.boxes[i].lease.value < w.forge.created && w.forge.Releases(w.boxes[i].lease.value) == 0
  {
    var lease := w.boxes[i].lease.value;
    HoldersOfUpdate(w.boxes, i, w.boxes[i], lease);
    assert Holders(w.boxes, lease) + w.forge.Releases(lease) == if lease < w.forge.created then 1 else 0;
  }

  lemma AcquireConserves(w: World, boot: Boot)
    requires Conserved(w)
    ensures Conserved(Step(w, Acquire(boot)))
  {
    var t := Step(w, Acquire(boot));
    forall lease: nat
      ensures Holders(t.boxes, lease) + t.forge.Releases(lease) == if lease < t.forge.created then 1 else 0
    {
      HoldersOfAppend(w.boxes, Box(Some(w.forge.created), w.forge.created), lease);
      assert Holders(w.boxes, lease) + w.forge.Releases(lease) == if lease < w.forge.created then 1 else 0;
    }
  }

  lemma RunConserves(w: World, op: Op)
    requires Conserved(w) && op.Run? && op.box < |w.boxes|
    ensures Conserved(Step(w, op))
  {
    var b := w.boxes[op.box];
    var (g, c, _) := Ran(w.forge, b, op.first, op.boot, op.second);
    if b.lease.Some? { HeldWasCreated(w, op.box); }
    forall lease: nat ensures Balanced(w.forge, b, g, c, lease) {
      RunBalances(w.forge, b, op.first, op.boot, op.second, lease);
    }
    RunBalances(w.forge, b, op.first, op.boot, op.second, 0);
    BalancedStepConserves(w, op.box, g, c);
  }

  lemma StepConserves(w: World, op: Op)
    requires Conserved(w)
    ensures Conserved(Step(w, op))
  {
    match op
    case Acquire(boot) => AcquireConserves(w, boot);
    case Run(i, _, _, _) => if i < |w.boxes| { RunConserves(w, op); }
    case Release(i) =>
      if i < |w.boxes| {
        var (g, c) := GivenBack(w.forge, w.boxes[i]);
        forall lease: nat ensures Balanced(w.forge, w.boxes[i], g, c, lease) {
          ReleaseBalances(w.forge, w.boxes[i], lease);
        }
        BalancedStepConserves(w, i, g, c);
      }
  }

  /** Leases are conserved over every sequence of operations on any number of sandboxes. */
  lemma {:induction false} LeasesAreConserved(w: World, ops: seq<Op>)
    requires Conserved(w)
    ensures Conserved(Steps(w, ops))
    decreases |ops|
  {
    if ops != [] {
      StepConserves(w, ops[0]);
      LeasesAreConserved(Step(w, ops[0]), ops[1..]);
    }
  }

  lemma {:induction false} NoHolders(boxes: seq<Box>, lease: nat)
    requires forall i | 0 <= i < |boxes| :: boxes[i].lease.None?
    ensures Holders(boxes, lease) == 0
  {
    if boxes != [] { NoHolders(boxes[1..], lease); }
  }

  /** Once every sandbox has been released, every lease ever created has had exactly one release. */
  lemma AllReleasedMeansNoneLeaks(ops: seq<Op>)
    requires forall i | 0 <= i < |Steps(EMPTY, ops).boxes| :: Steps(EMPTY, ops).boxes[i].lease.None?
    ensures var f := Steps(EMPTY, ops).forge;
      forall lease: nat :: f.Releases(lease) == if lease < f.created then 1 else 0
  {
    var w := Steps(EMPTY, ops);
    LeasesAreConserved(EMPTY, ops);
    forall lease: nat ensures w.forge.Releases(lease) == if lease < w.forge.created then 1 else 0 {
      NoHolders(w.boxes, lease);
      assert Holders(w.boxes, lease) + w.forge.Releases(lease) == if lease < w.forge.created then 1 else 0;
    }
  }

  function Resubmitted(first: Reply, boot: Boot, after: Box): seq<nat> {
    if first.Gone? && boot.Ready? && after.lease.Some? then [after.lease.value] else []
  }

  /**
   A command is submitted at most twice: to the lease the sandbox held, and if that was gone, to the
   replacement it holds afterwards. In every reachable world neither has been released.
   */
  lemma CommandsNameLiveLeases(ops: seq<Op>, i: nat, first: Reply, boot: Boot, second: Reply)
    requires i < |Steps(EMPTY, ops).boxes|
    ensures var w := Steps(EMPTY, ops);
      var b := w.boxes[i];
      var (g, c, r) := Ran(w.forge, b, first, boot, second);
      && (b.lease.None? ==> g == w.forge && r == Err(NoLease))
      && (b.lease.Some? ==> w.forge.Releases(b.lease.value) == 0)
      && (b.lease.Some? ==> g.submitted == w.forge.submitted + [b.lease.value] + Resubmitted(first, boot, c))
      && (c.lease.Some? ==> g.Releases(c.lease.value) == 0)
  {
    var w := Steps(EMPTY, ops);
    LeasesAreConserved(EMPTY, ops);
    if w.boxes[i].lease.Some? { HeldWasCreated(w, i); }
    var after := Step(w, Run(i, first, boot, second));
    StepConserves(w, Run(i, first, boot, second));
    if after.boxes[i].lease.Some? { HeldWasCreated(after, i); }
  }

  // ----- The client and the sandbox themselves -----

  class Client {
    var created: nat
    var releases: map<nat, nat>
    var submitted: seq<nat>

    ghost function View(): Forge
      reads this
    {
      Forge(created, releases, submitted)
    }

    constructor ()
      ensures View() == EMPTY.forge
    {
      created, releases, submitted := 0, map[], [];
    }

    method ReleaseQuietly(lease: nat)
      modifies this
      ensures View() == old(View()).Released(lease)
    {
      releases := releases[lease := (if lease in releases then releases[lease] else 0) + 1];
    }

    method Submit(lease: nat)
      modifies this
      ensures View() == old(View()).Submitted(lease)
    {
      submitted := submitted + [lease];
    }

    method Acquire(boot: Boot) returns (lease: Option<nat>)
      modifies this
      ensures (View(), lease) == old(View()).Acquired(boot)
    {
      if boot.NotCreated? { return None; }
      var id := created;
      created := created + 1;
      if boot.NeverReady? {
        ReleaseQuietly(id);
        return None;
      }
      return Some(id);
    }
  }

  class Sandbox {
    const client: Client
    var leaseID: Option<nat>
    var specLease: nat

    ghost function View(): Box
      reads this
    {
      Box(leaseID, specLease)
    }

    constructor (client: Client, lease: nat)
      ensures this.client == client && View() == Box(Some(lease), lease)
    {
      this.client, leaseID, specLease := client, Some(lease), lease;
    }

    method Reacquire(boot: Boot)
      requires leaseID.Some?
      modifies this, client
      ensures (client.View(), View()) == Reacquired(old(client.View()), old(View()), boot)
    {
      client.ReleaseQuietly(leaseID.value);
      leaseID := None;
      var made := client.Acquire(boot);
      if made.Some? { leaseID, specLease := made, made.value; }
    }

    method Run(first: Reply, boot: Boot, second: Reply) returns (r: Result<(), RunError>)
      modifies this, client
      ensures (client.View(), View(), r) == Ran(old(client.View()), old(View()), first, boot, second)
    {
      if leaseID.None? { return Err(NoLease); }
      client.Submit(specLease);
      if !first.Gone? { return Answered(first); }
      Reacquire(boot);
      if leaseID.None? { return Err(NotReplaced); }
      client.Submit(leaseID.value);
      return Answered(second);
    }

    method Release()
      modifies this, client
      ensures (client.View(), View()) == GivenBack(old(client.View()), old(View())) && leaseID == None
    {
      if leaseID.None? { return; }
      client.ReleaseQuietly(leaseID.value);
      leaseID := None;
    }
  }
}
