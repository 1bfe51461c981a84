/** Duplicate detection for webhooks with a bounded memory. */
module WebhookReplay {

  /** The newest `max` elements, oldest first. */
  function Recent(accepted: seq<string>, max: nat): (r: seq<string>)
    ensures |r| == if |accepted| <= max then |accepted| else max
  {
    if |accepted| <= max then accepted else accepted[|accepted| - max..]
  }

  /** The manager's ordered dictionary, as the sequence of its keys. */
  class IntegrationManager {
    const maxSeen: nat
    var seen: seq<string>

    constructor (maxSeen: nat := 10_000)
      ensures this.maxSeen == maxSeen && seen == []
    {
      this.maxSeen := maxSeen;
      seen := [];
    }

    /** Says whether the id is remembered; if not, remembers it, and forgets the oldest ids beyond the bound. */
    method CheckReplay(id: string) returns (replay: bool)
      modifies this`seen
      ensures replay <==> id in old(seen)
      ensures seen == if replay then old(seen) else Recent(old(seen) + [id], maxSeen)
    {
      if id in seen {
        return true;
      }
      seen := seen + [id];
      ghost var all := seen;
      while |seen| > maxSeen
        invariant |seen| <= |all| && seen == all[|all| - |seen|..]
        invariant |seen| >= maxSeen || seen == all
      {
        seen := seen[1..];
      }
      replay := false;
    }
  }

  // ----- any sequence of calls -----

  /** The memory after a sequence of calls, and the ids that were accepted (not replays) in it. */
  function Memory(ids: seq<string>, max: nat): seq<string> {
    if ids == [] then []
    else
      var seen, id := Memory(ids[..|ids| - 1], max), ids[|ids| - 1];
      if id in seen then seen else Recent(seen + [id], max)
  }

  function Accepted(ids: seq<string>, max: nat): seq<string> {
    if ids == [] then []
    else
      var last := |ids| - 1;
      Accepted(ids[..last], max) + if ids[last] in Memory(ids[..last], max) then [] else [ids[last]]
  }

  predicate Distinct(s: seq<string>) {
    forall i, j :: 0 <= i < j < |s| ==> s[i] != s[j]
  }

  /** The bounded memory refines the full history: it holds exactly the most recent accepted ids, in the order in which
      they were accepted and without duplicates. Hence a call is reported as a replay exactly when its id is among
      the `max` most recently accepted ones; hits do not refresh an entry. */
  lemma {:induction false} MemoryIsRecentHistory(ids: seq<string>, max: nat)
    ensures Memory(ids, max) == Recent(Accepted(ids, max), max)
    ensures |Memory(ids, max)| <= max && Distinct(Memory(ids, max))
  {
    if ids != [] {
      var last := |ids| - 1;
      MemoryIsRecentHistory(ids[..last], max);
      RecentOfRecent(Accepted(ids[..last], max), ids[last], max);
      DistinctRecent(Memory(ids[..last], max), ids[last], max);
    }
  }

  lemma RecentOfRecent(s: seq<string>, id: string, max: nat)
    ensures Recent(Recent(s, max) + [id], max) == Recent(s + [id], max)
  {
  }

  lemma DistinctRecent(s: seq<string>, id: string, max: nat)
    requires Distinct(s)
    ensures id !in s ==> Distinct(Recent(s + [id], max))
  {
  }

  /** A call is accepted exactly if its id is not among the most recently accepted ones. */
  lemma AcceptedNext(ids: seq<string>, id: string, max: nat)
    ensures var before := Accepted(ids, max);
      Accepted(ids + [id], max) == before + if id in Recent(before, max) then [] else [id]
  {
    MemoryIsRecentHistory(ids, max);
    assert (ids + [id])[..|ids|] == ids;
  }

  lemma RecentIsPart(s: seq<string>, max: nat, id: string)
    requires id in Recent(s, max)
    ensures id in s
  {
  }

  /** Within the bound nothing is forgotten: as long as at most `max` ids have been accepted, none is accepted twice. */
  lemma {:induction false} NothingForgottenWithinBound(ids: seq<string>, max: nat)
    requires |Accepted(ids, max)| <= max
    ensures Distinct(Accepted(ids, max)) && forall i :: 0 <= i < |ids| ==> ids[i] in Accepted(ids, max)
  {
    if ids != [] {
      var before, id := ids[..|ids| - 1], ids[|ids| - 1];
      assert ids == before + [id];
      AcceptedNext(before, id, max);
      NothingForgottenWithinBound(before, max);
      hide Accepted;
      forall i | 0 <= i < |ids| ensures ids[i] in Accepted(ids, max) {
        assert i < |before| ==> before[i] in Accepted(before, max);
      }
    }
  }

  lemma {:induction false} DifferentIdsAreAccepted(ids: seq<string>, max: nat)
    requires Distinct(ids)
    ensures Accepted(ids, max) == ids
  {
    if ids != [] {
      var before, id := ids[..|ids| - 1], ids[|ids| - 1];
      assert ids == before + [id];
      AcceptedNext(before, id, max);
      DifferentIdsAreAccepted(before, max);
      hide Accepted;
      if id in Recent(before, max) {
        RecentIsPart(before, max, id);
        assert false;
      }
    }
  }

  /** Beyond the bound something is: of any number of different ids, one that is delivered again is accepted again
      exactly if at least `max` others have been accepted after it. */
  lemma AcceptedAgainExactly(ids: seq<string>, max: nat, i: nat)
    requires Distinct(ids) && i < |ids|
    ensures Accepted(ids + [ids[i]], max) == ids + if |ids| - 1 - i >= max then [ids[i]] else []
  {
    hide Accepted;
    DifferentIdsAreAccepted(ids, max);
    AcceptedNext(ids, ids[i], max);
    RecentExactly(ids, max, i);
  }

  lemma RecentExactly(s: seq<string>, max: nat, i: nat)
    requires Distinct(s) && i < |s|
    ensures s[i] in Recent(s, max) <==> |s| - 1 - i < max
  {
    var r := Recent(s, max);
    if |s| - 1 - i < max {
      assert r[i - (|s| - |r|)] == s[i];
    }
  }
}
