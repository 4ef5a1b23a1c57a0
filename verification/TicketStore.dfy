/**
 The store's view of one ticket, and `Claim` as the sequence of requests it is
 (`internal/platform/claim.go`). What other hosts write between two of those requests is a parameter,
 so every contract below holds for every interleaving.
 */
module TicketStore {
  import opened Wrappers
  import opened Record

  datatype Stage = Stage(ready: string, working: string)

  /** What happens to the ticket outside this claim: writes by somebody else, and time passing. */
  datatype Foreign = Moved(column: string, assignee: string) | Said(resets: bool, kind: Kind) | Passed(time: nat)

  datatype Outcome =
    | Won
    | NotReady                     // the ticket had left the Ready column when it was read
    | Overtaken                    // the conditional write lost
    | Invisible                    // the claim is missing from the read-back
    | Beaten(winner: Comment)      // somebody's claim is older

  /** `clock` and `nextId` are the store's own: it stamps comments with them in arrival order. */
  datatype Ticket = Ticket(
    column: string, assignee: string, version: nat, comments: seq<Comment>, clock: int, nextId: nat)
  {
    ghost predicate Valid() {
      && (forall i, j | 0 <= i < j < |comments| ::
            comments[i].createdAt <= comments[j].createdAt && comments[i].id < comments[j].id)
      && forall i | 0 <= i < |comments| :: comments[i].createdAt <= clock && comments[i].id < nextId
    }

    function Update(column: string, assignee: string): Ticket {
      this.(column := column, assignee := assignee, version := version + 1)
    }

    function Stamped(resets: bool, kind: Kind): Comment {
      Comment(nextId, clock, resets, kind)
    }

    function Say(resets: bool, kind: Kind): Ticket {
      this.(comments := comments + [Stamped(resets, kind)], nextId := nextId + 1, version := version + 1)
    }

    function Land(writes: seq<Foreign>): Ticket
      decreases |writes|
    {
      if writes == [] then this
      else
        var rest := Land(writes[..|writes| - 1]);
        match writes[|writes| - 1]
        case Moved(column, assignee) => rest.Update(column, assignee)
        case Said(resets, kind) => rest.Say(resets, kind)
        case Passed(time) => rest.(clock := rest.clock + time)
    }
  }

  /** An update moves and assigns the ticket, a comment is stamped and added last; both bump the version. */
  lemma WritesByField(t: Ticket, column: string, assignee: string, resets: bool, kind: Kind)
    ensures t.Update(column, assignee) ==
            Ticket(column, assignee, t.version + 1, t.comments, t.clock, t.nextId)
    ensures t.Say(resets, kind) ==
            Ticket(t.column, t.assignee, t.version + 1, t.comments + [Comment(t.nextId, t.clock, resets, kind)],
                   t.clock, t.nextId + 1)
  {}

  predicate Quiet(writes: seq<Foreign>) {
    forall i | 0 <= i < |writes| :: writes[i].Passed?
  }

  lemma SayKeepsValid(t: Ticket, resets: bool, kind: Kind)
    requires t.Valid()
    ensures t.Say(resets, kind).Valid()
  {}

  lemma {:induction false} LandKeepsValid(t: Ticket, writes: seq<Foreign>)
    requires t.Valid()
    ensures t.Land(writes).Valid()
    ensures t.version <= t.Land(writes).version && t.comments <= t.Land(writes).comments
    ensures t.version == t.Land(writes).version <==> Quiet(writes)
    decreases |writes|
  {
    if writes != [] {
      LandKeepsValid(t, writes[..|writes| - 1]);
    }
  }

  lemma ValidIncreases(t: Ticket)
    requires t.Valid()
    ensures Increasing(t.comments)
  {}

  // A comment is known by its id.
  lemma WinnerById(t: Ticket, role: string, now: int, mine: Comment)
    requires t.Valid() && mine in t.comments && Oldest(Pruned(t.comments, now), role).Some?
    ensures Oldest(Pruned(t.comments, now), role).value.id == mine.id <==>
      Oldest(Pruned(t.comments, now), role) == Some(mine)
  {
    WinnerIsListed(t, role, now);
    SameIdSameComment(t, Oldest(Pruned(t.comments, now), role).value, mine);
  }

  lemma WinnerIsListed(t: Ticket, role: string, now: int)
    requires t.Valid() && Oldest(Pruned(t.comments, now), role).Some?
    ensures Oldest(Pruned(t.comments, now), role).value in t.comments
  {
    ValidIncreases(t);
    PrunedIncreases(t.comments, now);
    DistinctWhenIncreasing(Pruned(t.comments, now));
    OldestIsEarliestStanding(Pruned(t.comments, now), role);
  }

  lemma SameIdSameComment(t: Ticket, a: Comment, b: Comment)
    requires t.Valid() && a in t.comments && b in t.comments
    ensures a.id == b.id ==> a == b
  {
    var i :| 0 <= i < |t.comments| && t.comments[i] == a;
    var j :| 0 <= j < |t.comments| && t.comments[j] == b;
  }

  class Store {
    // Whether the store serves an ETag and honours If-Match.
    const versioned: bool
    var ticket: Ticket

    constructor (versioned: bool, ticket: Ticket)
      ensures this.versioned == versioned && this.ticket == ticket
    {
      this.versioned := versioned;
      this.ticket := ticket;
    }

    method GetWithVersion() returns (column: string, version: Option<nat>)
      ensures column == ticket.column
      ensures version == if versioned then Some(ticket.version) else None
    {
      column := ticket.column;
      version := if versioned then Some(ticket.version) else None;
    }

    method UpdateIfVersion(column: string, assignee: string, version: nat) returns (ok: bool)
      modifies this
      ensures ok <==> old(ticket).version == version
      ensures ticket == if ok then old(ticket).Update(column, assignee) else old(ticket)
    {
      ok := ticket.version == version;
      if ok { ticket := ticket.Update(column, assignee); }
    }

    method AddComment(resets: bool, kind: Kind) returns (c: Comment)
      modifies this
      ensures c == old(ticket).Stamped(resets, kind) && ticket == old(ticket).Say(resets, kind)
    {
      c := ticket.Stamped(resets, kind);
      ticket := ticket.Say(resets, kind);
    }

    method Interfere(writes: seq<Foreign>)
      modifies this
      ensures ticket == old(ticket).Land(writes)
    {
      ticket := ticket.Land(writes);
    }

    /**
     Claim over a versioned store: it wins exactly when the ticket was Ready and nobody wrote in the
     window, and losing writes nothing; `meanwhile` lands before the claim is recorded. Over an
     unversioned one: `between` lands before the append, `meanwhile` before the read-back and `late`
     before the final move.
     */
    method Claim(st: Stage, c: Record.Claim, between: seq<Foreign>, meanwhile: seq<Foreign>, late: seq<Foreign>,
                 now: int)
      returns (r: Outcome)
      requires ticket.Valid()
      modifies this
      ensures ticket.Valid()
      ensures r == NotReady <==> old(ticket).column != st.ready
      ensures versioned ==> (r == Won <==> old(ticket).column == st.ready && Quiet(between))
      ensures versioned && r == Won ==>
        var claimed := old(ticket).Land(between).Update(st.working, c.role + "@" + c.host);
        ticket == claimed.Land(meanwhile).Say(false, ClaimNote(c))
      ensures versioned && r != Won ==> r in {NotReady, Overtaken} && ticket == old(ticket).Land(between)
      ensures !versioned && r != NotReady ==>
        var appended := old(ticket).Land(between);
        var seen := appended.Say(false, ClaimNote(c)).Land(meanwhile);
        && (r == Won <==> Oldest(Pruned(seen.comments, now), c.role) == Some(appended.Stamped(false, ClaimNote(c))))
        && ticket == if r == Won then seen.Land(late).Update(st.working, c.role + "@" + c.host) else seen
    {
      var column, version := GetWithVersion();
      LandKeepsValid(ticket, between);
      Interfere(between);
      if column != st.ready {
        return NotReady;
      }
      if version == None {
        r := ClaimByAppend(st, c, meanwhile, late, now);
        return;
      }
      var swapped := UpdateIfVersion(st.working, c.role + "@" + c.host, version.value);
      if !swapped {
        return Overtaken;
      }
      LandKeepsValid(ticket, meanwhile);
      Interfere(meanwhile);
      SayKeepsValid(ticket, false, ClaimNote(c));
      var _ := AddComment(false, ClaimNote(c));
      return Won;
    }

    // Reads the log back and arbitrates among this role's claims.
    method ReadBack(role: string, mine: Comment, now: int) returns (r: Outcome)
      requires ticket.Valid() && mine in ticket.comments
      ensures r == Won <==> Oldest(Pruned(ticket.comments, now), role) == Some(mine)
      ensures r == Invisible <==> Oldest(Pruned(ticket.comments, now), role) == None
      ensures r.Won? || r.Invisible? || (r.Beaten? && Oldest(Pruned(ticket.comments, now), role) == Some(r.winner))
    {
      var live := PruneStale(ticket.comments, now);
      var winner := OldestForRole(live, role);
      if winner == None { return Invisible; }
      WinnerById(ticket, role, now, mine);
      if winner.value.id != mine.id { return Beaten(winner.value); }
      return Won;
    }

    method ClaimByAppend(st: Stage, c: Record.Claim, meanwhile: seq<Foreign>, late: seq<Foreign>, now: int)
      returns (r: Outcome)
      requires ticket.Valid()
      modifies this
      ensures ticket.Valid() && (r.Won? || r.Invisible? || r.Beaten?)
      ensures var seen := old(ticket).Say(false, ClaimNote(c)).Land(meanwhile);
        && (r == Won <==> Oldest(Pruned(seen.comments, now), c.role) == Some(old(ticket).Stamped(false, ClaimNote(c))))
        && ticket == if r == Won then seen.Land(late).Update(st.working, c.role + "@" + c.host) else seen
    {
      SayKeepsValid(ticket, false, ClaimNote(c));
      var mine := AddComment(false, ClaimNote(c));
      LandKeepsValid(ticket, meanwhile);
      Interfere(meanwhile);
      assert mine in ticket.comments by {
        assert old(ticket).Say(false, ClaimNote(c)).comments[|old(ticket).comments|] == mine;
      }
      r := ReadBack(c.role, mine, now);
      if r != Won { return; }
      LandKeepsValid(ticket, late);
      Interfere(late);
      ticket := ticket.Update(st.working, c.role + "@" + c.host);
      return Won;
    }
  }

}
