/**
 What makes reading the log back arbitrate (`claimByAppend` in `internal/platform/claim.go` over
 `OldestForRole` and `PruneStale` in `internal/record/claim.go`): facts about listings alone.
 */
module Arbitration {
  import opened Wrappers
  import opened Record

  // A claim body written by this program never carries a hand-back marker.
  ghost predicate Tidy(comments: seq<Comment>) {
    forall c | c in comments :: c.IsClaim() ==> !c.resets
  }

  // The oldest live claim is too young to be pruned.
  predicate OldestIsFresh(log: seq<Comment>, role: string, now: int) {
    LiveClaims(log, role) == [] || !Stale(LiveClaims(log, role)[0], now)
  }

  lemma OldestIsEarliest(seen: seq<Comment>, role: string, w: Comment)
    requires DistinctKeys(seen)
    ensures Oldest(seen, role) == Some(w) <==>
      Standing(seen, role, w) && forall c | Standing(seen, role, c) :: c == w || Before(w, c)
  {
    OldestIsEarliestStanding(seen, role);
  }

  // Pruning drops stale claims and never the end of a round.
  lemma StandingOfPruned(seen: seq<Comment>, now: int, role: string, c: Comment)
    requires Tidy(seen)
    ensures Standing(Pruned(seen, now), role, c) <==> Standing(seen, role, c) && !Stale(c, now)
  {
    forall k ensures k in Pruned(seen, now) <==> k in seen && !Stale(k, now) { PrunedKeepsTheFresh(seen, now, k); }
    assert forall k | k in seen && k.Closes(role) :: !Stale(k, now);
  }

  lemma {:induction false} PrunedKeepsDistinct(seen: seq<Comment>, now: int)
    requires DistinctKeys(seen)
    ensures DistinctKeys(Pruned(seen, now))
  {
    if seen != [] {
      var rest, last := seen[..|seen| - 1], seen[|seen| - 1];
      PrunedKeepsDistinct(rest, now);
      forall k | k in Pruned(rest, now) ensures k.createdAt != last.createdAt || k.id != last.id {
        PrunedKeepsTheFresh(rest, now, k);
      }
    }
  }

  // The winner of a pruned listing, in terms of the listing itself.
  lemma WinnerOfPruned(seen: seq<Comment>, role: string, now: int, w: Comment)
    requires DistinctKeys(seen) && Tidy(seen)
    ensures Oldest(Pruned(seen, now), role) == Some(w) <==>
      && Standing(seen, role, w) && !Stale(w, now)
      && forall c | Standing(seen, role, c) && !Stale(c, now) :: c == w || Before(w, c)
  {
    PrunedKeepsDistinct(seen, now);
    OldestIsEarliest(Pruned(seen, now), role, w);
    forall c ensures Standing(Pruned(seen, now), role, c) <==> Standing(seen, role, c) && !Stale(c, now) {
      StandingOfPruned(seen, now, role, c);
    }
  }

  /**
   Of two claims with no close or hand-back between them, the younger never reads itself back as
   the winner while the older is fresh -- whatever else the listing holds and in whatever order.
   */
  lemma YoungerClaimNeverWins(seen: seq<Comment>, role: string, older: Comment, younger: Comment, now: int)
    requires DistinctKeys(Pruned(seen, now))
    requires older in seen && older.Claims(role) && !older.Closes(role) && !Stale(older, now)
    requires Before(older, younger)
    requires forall k | k in seen && k.Closes(role) :: Before(k, older) || !Before(k, younger)
    ensures Oldest(Pruned(seen, now), role) != Some(younger)
  {
    var live := Pruned(seen, now);
    OldestIsEarliestStanding(live, role);
    forall c ensures c in live <==> c in seen && !Stale(c, now) { PrunedKeepsTheFresh(seen, now, c); }
    if Oldest(live, role) == Some(younger) {
      assert Standing(live, role, younger);
      assert Standing(live, role, older);
    }
  }

  lemma FirstLiveIsOldest(log: seq<Comment>, role: string)
    requires Increasing(log) && LiveClaims(log, role) != []
    ensures Oldest(log, role) == Some(LiveClaims(log, role)[0])
  {
    OldestOfIncreasing(log, role);
  }

  /** Pruning leaves the winner as it was exactly when the winner itself is not pruned. */
  lemma WinnerSurvivesPruningExactlyWhen(log: seq<Comment>, role: string, now: int)
    requires Increasing(log) && Tidy(log)
    ensures Oldest(Pruned(log, now), role) == Oldest(log, role) <==> OldestIsFresh(log, role, now)
  {
    DistinctWhenIncreasing(log);
    OldestOfIncreasing(log, role);
    if LiveClaims(log, role) == [] {
      NobodyWinsWithoutClaims(log, role, now);
    } else {
      var first := LiveClaims(log, role)[0];
      WinnerOfPruned(log, role, now, first);
      OldestIsEarliest(log, role, first);
    }
  }

  lemma NobodyWinsWithoutClaims(log: seq<Comment>, role: string, now: int)
    requires Increasing(log) && Tidy(log) && LiveClaims(log, role) == []
    ensures Oldest(Pruned(log, now), role) == None
  {
    DistinctWhenIncreasing(log);
    PrunedKeepsDistinct(log, now);
    OldestIsEarliestStanding(Pruned(log, now), role);
    forall c ensures !Standing(Pruned(log, now), role, c) {
      StandingOfPruned(log, now, role, c);
      LiveClaimsStand(log, role, c);
    }
  }

  // A claim stands after another was written exactly if it stood before, or is that other one.
  lemma StandingOfAppended(seen: seq<Comment>, role: string, added: Comment, c: Comment)
    requires added !in seen && !added.Closes(role)
    ensures c != added ==> (Standing(seen + [added], role, c) <==> Standing(seen, role, c))
  {
    assert forall k :: k in seen + [added] <==> k in seen || k == added;
  }

  /**
   After one claim has read itself back, a second one written to its round reads itself back too
   exactly when its key is the smaller one: with equal times, when its id is.
   */
  lemma SecondWinnerExactlyWhen(seen: seq<Comment>, role: string, first: Comment, second: Comment, now: int, later: int)
    requires DistinctKeys(seen + [second]) && Tidy(seen + [second]) && now <= later
    requires Oldest(Pruned(seen, now), role) == Some(first)
    requires Standing(seen + [second], role, second) && !Stale(first, later) && !Stale(second, later)
    ensures Oldest(Pruned(seen + [second], later), role) == Some(second) <==> Before(second, first)
  {
    DistinctOfPrefix(seen, second);
    FirstWinnerStays(seen, role, first, second, now, later);
    WinnerOfPruned(seen + [second], role, later, second);
    KeysDiffer(seen, first, second);
  }

  // Of what stands after the second claim, everything but that claim comes no earlier than the first.
  lemma FirstWinnerStays(seen: seq<Comment>, role: string, first: Comment, second: Comment, now: int, later: int)
    requires DistinctKeys(seen) && Tidy(seen + [second]) && now <= later && second !in seen && !second.Closes(role)
    requires Oldest(Pruned(seen, now), role) == Some(first)
    ensures first in seen && Standing(seen + [second], role, first)
    ensures forall c | Standing(seen + [second], role, c) && !Stale(c, later) ::
              c == second || c == first || Before(first, c)
  {
    assert Tidy(seen) by { assert forall k | k in seen :: k in seen + [second]; }
    WinnerOfPruned(seen, role, now, first);
    StandingOfAppended(seen, role, second, first);
    forall c | Standing(seen + [second], role, c) && !Stale(c, later) && c != second
      ensures c == first || Before(first, c)
    {
      StandingOfAppended(seen, role, second, c);
    }
  }

  // What stands once a round's end is written, wherever its key puts it: the live claims after that.
  lemma StandingAfterEnd(log: seq<Comment>, role: string, end: Comment, c: Comment)
    requires Increasing(log) && DistinctKeys(log + [end]) && end.Closes(role)
    ensures Standing(log + [end], role, c) <==> c in LiveClaims(log, role) && Before(end, c)
  {
    DistinctOfPrefix(log, end);
    LiveClaimsStand(log, role, c);
    assert forall k :: k in log + [end] <==> k in log || k == end;
  }

  /**
   A claim written before the end of its round reads itself back after it exactly when the end's key
   comes before it, and before no earlier live claim that is fresh.
   */
  lemma PendingClaimWinsExactlyWhen(log: seq<Comment>, role: string, end: Comment, m: Comment, now: int)
    requires Increasing(log) && Tidy(log) && DistinctKeys(log + [end]) && end.Closes(role) && !end.IsClaim()
    ensures Oldest(Pruned(log + [end], now), role) == Some(m) <==>
      && m in LiveClaims(log, role) && !Stale(m, now) && Before(end, m)
      && forall k | k in LiveClaims(log, role) && !Stale(k, now) && Before(end, k) :: k == m || Before(m, k)
  {
    assert Tidy(log + [end]) by { assert forall k :: k in log + [end] <==> k in log || k == end; }
    WinnerOfPruned(log + [end], role, now, m);
    forall c ensures Standing(log + [end], role, c) <==> c in LiveClaims(log, role) && Before(end, c) {
      StandingAfterEnd(log, role, end, c);
    }
  }

  // Any other note leaves standing what stood.
  lemma StandingBesideNote(log: seq<Comment>, role: string, note: Comment, c: Comment)
    requires !note.Closes(role) && c != note
    ensures Standing(log + [note], role, c) <==> Standing(log, role, c)
  {
    assert forall k :: k in log + [note] <==> k in log || k == note;
  }

  // So a claim that wins beside such a note would have won without it.
  lemma WinnerBesideNote(log: seq<Comment>, role: string, note: Comment, m: Comment, now: int)
    requires DistinctKeys(log + [note]) && Tidy(log + [note]) && !note.Closes(role) && m != note
    requires Oldest(Pruned(log + [note], now), role) == Some(m)
    ensures Oldest(Pruned(log, now), role) == Some(m)
  {
    DistinctOfPrefix(log, note);
    assert Tidy(log) by { assert forall k | k in log :: k in log + [note]; }
    WinnerOfPruned(log + [note], role, now, m);
    WinnerOfPruned(log, role, now, m);
    StandingBesideNote(log, role, note, m);
    forall c | Standing(log, role, c) && !Stale(c, now) ensures c == m || Before(m, c) {
      StandingBesideNote(log, role, note, c);
    }
  }

  lemma DistinctOfPrefix(seen: seq<Comment>, c: Comment)
    requires DistinctKeys(seen + [c])
    ensures DistinctKeys(seen) && c !in seen
  {
    var all := seen + [c];
    forall i, j | 0 <= i < j < |seen| ensures seen[i].createdAt != seen[j].createdAt || seen[i].id != seen[j].id {
      assert all[i] == seen[i] && all[j] == seen[j];
    }
    forall i | 0 <= i < |seen| ensures seen[i] != c { assert all[i] == seen[i] && all[|seen|] == c; }
  }

  lemma KeysDiffer(seen: seq<Comment>, a: Comment, c: Comment)
    requires DistinctKeys(seen + [c]) && a in seen
    ensures a != c && (Before(a, c) <==> !Before(c, a))
  {
    var i :| 0 <= i < |seen| && seen[i] == a;
    assert (seen + [c])[i] == a && (seen + [c])[|seen|] == c;
  }
}
