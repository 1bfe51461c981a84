/** Making room for one more conversation by closing those that were not updated for the longest time. */
module Eviction {
  import opened Options

  datatype Conversation = Conversation(id: string, lastUpdated: Option<real>)

  /** `_last_updated_at_key`: a missing timestamp counts as the oldest. */
  function Age(c: Conversation): real {
    if c.lastUpdated.None? then 0.0 else c.lastUpdated.value
  }

  predicate NewestFirst(s: seq<Conversation>) {
    forall i, j :: 0 <= i < j < |s| ==> Age(s[i]) >= Age(s[j])
  }

  /** Where `c` belongs: before the first older element, so that elements of the same age keep their order. */
  function Slot(s: seq<Conversation>, c: Conversation): (k: nat)
    ensures k <= |s| && forall i :: 0 <= i < k ==> Age(s[i]) >= Age(c)
    ensures k < |s| ==> Age(s[k]) < Age(c)
  {
    if s == [] || Age(s[0]) < Age(c) then 0 else 1 + Slot(s[1..], c)
  }

  function Insert(s: seq<Conversation>, c: Conversation): seq<Conversation> {
    s[..Slot(s, c)] + [c] + s[Slot(s, c)..]
  }

  lemma InsertAdds(s: seq<Conversation>, c: Conversation)
    ensures multiset(Insert(s, c)) == multiset(s) + multiset{c}
  {
    assert s == s[..Slot(s, c)] + s[Slot(s, c)..];
  }

  lemma InsertedAt(s: seq<Conversation>, c: Conversation, i: nat)
    requires i <= |s|
    ensures |Insert(s, c)| == |s| + 1
    ensures Insert(s, c)[i] == if i < Slot(s, c) then s[i] else if i == Slot(s, c) then c else s[i - 1]
  {
  }

  lemma InsertKeepsOrder(s: seq<Conversation>, c: Conversation)
    requires NewestFirst(s)
    ensures NewestFirst(Insert(s, c))
  {
    hide Insert;
    hide Slot;
    var k, r := Slot(s, c), Insert(s, c);
    InsertedAt(s, c, 0);
    forall i, j | 0 <= i < j < |r| ensures Age(r[i]) >= Age(r[j]) {
      InsertedAt(s, c, i);
      InsertedAt(s, c, j);
      if i == k {
        OlderFrom(s, c, j - 1);
      }
    }
  }

  /** From its place on, everything is older than the new element. */
  lemma OlderFrom(s: seq<Conversation>, c: Conversation, i: nat)
    requires NewestFirst(s) && Slot(s, c) <= i < |s|
    ensures Age(s[i]) < Age(c)
  {
    assert Age(s[Slot(s, c)]) < Age(c);
  }

  /** The stable sort, newest first. */
  function Sorted(s: seq<Conversation>): (r: seq<Conversation>)
    ensures NewestFirst(r) && multiset(r) == multiset(s)
  {
    if s == [] then []
    else
      var last := |s| - 1;
      assert s == s[..last] + [s[last]];
      InsertKeepsOrder(Sorted(s[..last]), s[last]);
      InsertAdds(Sorted(s[..last]), s[last]);
      Insert(Sorted(s[..last]), s[last])
  }

  function Reversed<T>(s: seq<T>): (r: seq<T>)
    ensures |r| == |s| && forall i :: 0 <= i < |s| ==> r[i] == s[|s| - 1 - i]
  {
    seq(|s|, i requires 0 <= i < |s| => s[|s| - 1 - i])
  }

  /** How many conversations may stay, out of `n`. */
  function Allowed(n: nat, limit: int): nat {
    if n < limit then n else if limit >= 1 then limit - 1 else 0
  }

  /** The loop: pops from the end of the sorted list until there is room. With a limit below one there never is, and
      popping from the empty list raises an error. */
  method Trim(sorted: seq<Conversation>, limit: int)
    returns (kept: seq<Conversation>, closed: seq<Conversation>, raised: bool)
    ensures kept + Reversed(closed) == sorted && |kept| == Allowed(|sorted|, limit)
    ensures raised <==> limit < 1
  {
    kept, closed, raised := sorted, [], false;
    while |kept| >= limit
      invariant kept + Reversed(closed) == sorted
      invariant |sorted| < limit ==> closed == []
      invariant |sorted| >= limit ==> |kept| >= limit - 1
      decreases |kept|
    {
      if kept == [] {
        raised := true;
        return;
      }
      var last := kept[|kept| - 1];
      PopStep(kept, closed);
      closed := closed + [last];
      kept := kept[..|kept| - 1];
    }
  }

  lemma PopStep(kept: seq<Conversation>, closed: seq<Conversation>)
    requires kept != []
    ensures kept + Reversed(closed) == kept[..|kept| - 1] + Reversed(closed + [kept[|kept| - 1]])
  {
  }

  lemma SortedLength(s: seq<Conversation>)
    ensures |Sorted(s)| == |s|
  {
    assert |multiset(Sorted(s))| == |multiset(s)|;
  }

  /** `ensure_num_conversations_below_limit`: of the conversations, sorted by age, it keeps the front and closes the
      rest, oldest first. */
  method MakeRoom(running: nat, conversations: seq<Conversation>, limit: int)
    returns (kept: seq<Conversation>, closed: seq<Conversation>, raised: bool)
    ensures raised <==> limit < 1
    ensures if running < limit then kept == conversations && closed == []
            else kept + Reversed(closed) == Sorted(conversations) && |kept| == Allowed(|conversations|, limit)
  {
    hide Sorted;
    if running < limit {
      return conversations, [], false;
    }
    kept, closed, raised := Trim(Sorted(conversations), limit);
    SortedLength(conversations);
  }

  /** What the method's result means, for a limit of at least one: exactly as many are closed as are too many, each
      once; kept and closed together are what there was; and no closed conversation is newer than a kept one. */
  lemma ClosesTheOldest(conversations: seq<Conversation>, limit: int, kept: seq<Conversation>,
      closed: seq<Conversation>)
    requires kept + Reversed(closed) == Sorted(conversations) && |kept| == Allowed(|conversations|, limit)
    ensures limit >= 1 ==>
        |kept| < limit && |closed| == if |conversations| < limit then 0 else |conversations| - limit + 1
    ensures multiset(kept) + multiset(closed) == multiset(conversations)
    ensures forall i, j :: 0 <= i < |kept| && 0 <= j < |closed| ==> Age(closed[j]) <= Age(kept[i])
  {
    hide Sorted;
    SortedLength(conversations);
    ReversedSameElements(closed);
    BackIsOlder(kept, closed);
  }

  lemma BackIsOlder(kept: seq<Conversation>, closed: seq<Conversation>)
    requires NewestFirst(kept + Reversed(closed))
    ensures forall i, j :: 0 <= i < |kept| && 0 <= j < |closed| ==> Age(closed[j]) <= Age(kept[i])
  {
    var sorted := kept + Reversed(closed);
    forall i, j | 0 <= i < |kept| && 0 <= j < |closed| ensures Age(closed[j]) <= Age(kept[i]) {
      assert sorted[i] == kept[i];
      assert sorted[|sorted| - 1 - j] == closed[j];
    }
  }

  lemma {:induction false} ReversedSameElements(s: seq<Conversation>)
    ensures multiset(Reversed(s)) == multiset(s)
  {
    if s != [] {
      var last := |s| - 1;
      ReversedSameElements(s[..last]);
      assert Reversed(s) == [s[last]] + Reversed(s[..last]);
      assert s == s[..last] + [s[last]];
    } else {
      assert Reversed(s) == s;
    }
  }

  /** A missing timestamp counts as older than any timestamp after the epoch, and timestamps count as they are. */
  lemma MissingCountsAsOldest(c: Conversation, d: Conversation)
    ensures c.lastUpdated.None? && (d.lastUpdated.Some? ==> d.lastUpdated.value >= 0.0) ==> Age(c) <= Age(d)
    ensures c.lastUpdated.Some? && d.lastUpdated.Some? ==>
      (Age(c) < Age(d) <==> c.lastUpdated.value < d.lastUpdated.value)
    ensures c.lastUpdated.None? && d.lastUpdated.Some? && d.lastUpdated.value > 0.0 ==> Age(c) < Age(d)
  {
  }

  /** So if a conversation with a timestamp is closed, none without one is kept. */
  lemma MissingAreClosedFirst(conversations: seq<Conversation>, limit: int, kept: seq<Conversation>,
      closed: seq<Conversation>, i: nat, j: nat)
    requires kept + Reversed(closed) == Sorted(conversations) && |kept| == Allowed(|conversations|, limit)
    requires i < |kept| && j < |closed| && closed[j].lastUpdated.Some? && closed[j].lastUpdated.value > 0.0
    ensures kept[i].lastUpdated.Some? && kept[i].lastUpdated.value >= closed[j].lastUpdated.value
  {
    hide Sorted;
    ClosesTheOldest(conversations, limit, kept, closed);
    assert Age(closed[j]) <= Age(kept[i]);
  }
}
