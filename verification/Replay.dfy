/** Replaying a trajectory: which of its events are replayed, and in which order. */
module Replay {
  import opened Events
  import opened Sequences

  predicate Loadable(e: Event) {
    e.source != Environment && !e.body.NullObservation?
  }

  function WithoutWaiting(e: Event): Event {
    if e.body.Message? && e.body.wait then e.(body := e.body.(wait := false)) else e
  }

  /** Every event but the last stops waiting for a response. */
  function ClearWaits(s: seq<Event>): (r: seq<Event>)
    ensures |r| == |s|
    ensures forall i :: 0 <= i < |s| ==> r[i] == if i < |s| - 1 then WithoutWaiting(s[i]) else s[i]
  {
    seq(|s|, i requires 0 <= i < |s| => if i < |s| - 1 then WithoutWaiting(s[i]) else s[i])
  }

  /** The actions that a replay of the trajectory performs. */
  function Replayed(trajectory: seq<Event>): seq<Event> {
    Filter(ClearWaits(Filter(trajectory, Loadable)), IsAction)
  }

  class ReplayManager {
    var events: seq<Event>
    var replayMode: bool
    var index: nat

    ghost predicate Valid()
      reads this
    {
      index <= |events| && (replayMode <==> events != [])
    }

    /** What is still to be replayed. */
    ghost function Remaining(): seq<Event>
      reads this
      requires Valid()
    {
      Filter(events[index..], IsAction)
    }

    constructor (trajectory: seq<Event>)
      ensures Valid() && index == 0
      ensures events == ClearWaits(Filter(trajectory, Loadable))
      ensures Remaining() == Replayed(trajectory)
    {
      var loaded: seq<Event> := [];
      for i := 0 to |trajectory|
        invariant loaded == Filter(trajectory[..i], Loadable)
      {
        assert trajectory[..i + 1][..i] == trajectory[..i];
        if Loadable(trajectory[i]) {
          loaded := loaded + [trajectory[i]];
        }
      }
      assert trajectory[..|trajectory|] == trajectory;
      ghost var original := loaded;
      if loaded != [] {
        for i := 0 to |loaded| - 1
          invariant |loaded| == |original|
          invariant forall k :: 0 <= k < |loaded| ==>
              loaded[k] == if k < i then WithoutWaiting(original[k]) else original[k]
        {
          if loaded[i].body.Message? && loaded[i].body.wait {
            loaded := loaded[i := loaded[i].(body := loaded[i].body.(wait := false))];
          }
        }
      }
      assert loaded == ClearWaits(original);
      events := loaded;
      replayMode := loaded != [];
      index := 0;
      new;
      assert events[0..] == events;
    }

    /** Moves to the next action, if there is one. */
    method ShouldReplay() returns (r: bool)
      requires Valid()
      modifies this`index
      ensures Valid() && old(index) <= index
      ensures r <==> Remaining() != []
      ensures Remaining() == old(Remaining())
      ensures r ==> index < |events| && IsAction(events[index])
    {
      if !replayMode {
        return false;
      }
      while index < |events| && !IsAction(events[index])
        invariant Valid() && old(index) <= index
        invariant Remaining() == old(Remaining())
      {
        DropFirst(events, index);
        index := index + 1;
      }
      r := index < |events| && IsAction(events[index]);
      if r {
        DropFirst(events, index);
      }
    }

    method Step() returns (action: Event)
      requires Valid() && index < |events| && IsAction(events[index])
      modifies this`index
      ensures Valid() && index == old(index) + 1
      ensures old(Remaining()) == [action] + Remaining()
    {
      DropFirst(events, index);
      action := events[index];
      index := index + 1;
    }
  }

  lemma DropFirst(s: seq<Event>, i: nat)
    requires i < |s|
    ensures Filter(s[i..], IsAction) == (if IsAction(s[i]) then [s[i]] else []) + Filter(s[i + 1..], IsAction)
  {
    assert s[i..] == [s[i]] + s[i + 1..];
    FilterConcat([s[i]], s[i + 1..], IsAction);
    assert [s[i]][..0] == [];
  }

  /** The controller's use of the manager: step as long as there is something to replay. It ends, and it has
      performed exactly the actions of the trajectory that are to be replayed, in order, once each. */
  method ReplayAll(trajectory: seq<Event>) returns (performed: seq<Event>)
    ensures performed == Replayed(trajectory)
  {
    var manager := new ReplayManager(trajectory);
    performed := [];
    var more := manager.ShouldReplay();
    while more
      invariant manager.Valid()
      invariant performed + manager.Remaining() == Replayed(trajectory)
      invariant more <==> manager.Remaining() != []
      invariant more ==> manager.index < |manager.events| && IsAction(manager.events[manager.index])
      decreases |manager.events| - manager.index, more
    {
      ghost var before := performed + manager.Remaining();
      var action := manager.Step();
      performed := performed + [action];
      assert performed + manager.Remaining() == before;
      more := manager.ShouldReplay();
    }
  }

  /** The performed actions are the trajectory's own, apart from the flag, and none but possibly the last event
      of the trajectory waits for the user. */
  lemma {:induction false} ReplayedFaithfully(trajectory: seq<Event>, i: nat)
    requires i < |Replayed(trajectory)|
    ensures var loaded := Filter(trajectory, Loadable);
      var p := Positions(ClearWaits(loaded), IsAction);
      && p == Positions(loaded, IsAction)
      && (Replayed(trajectory)[i] == loaded[p[i]] || Replayed(trajectory)[i] == WithoutWaiting(loaded[p[i]]))
      && (Replayed(trajectory)[i].body.Message? && Replayed(trajectory)[i].body.wait ==> p[i] == |loaded| - 1)
  {
    var loaded := Filter(trajectory, Loadable);
    SamePositions(ClearWaits(loaded), loaded);
  }

  lemma {:induction false} SamePositions(a: seq<Event>, b: seq<Event>)
    requires |a| == |b| && forall i :: 0 <= i < |a| ==> (IsAction(a[i]) <==> IsAction(b[i]))
    ensures Positions(a, IsAction) == Positions(b, IsAction)
  {
    if a != [] {
      SamePositions(a[..|a| - 1], b[..|b| - 1]);
    }
  }

  /** The actions of the trajectory that did not come from the environment. */
  predicate IssuedAction(e: Event) {
    IsAction(e) && e.source != Environment
  }

  function WithoutFlags(s: seq<Event>): (r: seq<Event>)
    ensures |r| == |s| && forall i :: 0 <= i < |s| ==> r[i] == WithoutWaiting(s[i])
  {
    seq(|s|, i requires 0 <= i < |s| => WithoutWaiting(s[i]))
  }

  /** Apart from the flags, exactly the actions of the agent and of the user are replayed, all of them, in order. */
  lemma ReplaysWhatWasIssued(trajectory: seq<Event>)
    ensures WithoutFlags(Replayed(trajectory)) == WithoutFlags(Filter(trajectory, IssuedAction))
  {
    var loaded := Filter(trajectory, Loadable);
    FlagsDoNotMatter(ClearWaits(loaded), loaded);
    FilterTwice(trajectory);
  }

  predicate EqualButFlags(a: seq<Event>, b: seq<Event>) {
    |a| == |b| && forall i :: 0 <= i < |a| ==> WithoutWaiting(a[i]) == WithoutWaiting(b[i])
  }

  lemma {:induction false} FlagsDoNotMatter(a: seq<Event>, b: seq<Event>)
    requires EqualButFlags(a, b)
    ensures EqualButFlags(Filter(a, IsAction), Filter(b, IsAction))
  {
    if a != [] {
      var last := |a| - 1;
      FlagsDoNotMatter(a[..last], b[..last]);
      assert WithoutWaiting(a[last]) == WithoutWaiting(b[last]);
      assert IsAction(a[last]) == IsAction(b[last]);
      hide WithoutWaiting;
    }
  }

  lemma {:induction false} FilterTwice(s: seq<Event>)
    ensures Filter(Filter(s, Loadable), IsAction) == Filter(s, IssuedAction)
  {
    if s != [] {
      var last := |s| - 1;
      FilterTwice(s[..last]);
      var one := if Loadable(s[last]) then [s[last]] else [];
      FilterConcat(Filter(s[..last], Loadable), one, IsAction);
      assert one != [] ==> one[..0] == [];
    }
  }

  /** After position `k` there is nothing but events of the environment and null observations. */
  predicate NothingIssuedAfter(trajectory: seq<Event>, k: nat) {
    forall m :: k < m < |trajectory| ==> trajectory[m].source == Environment || trajectory[m].body.NullObservation?
  }

  /** A flag that survives belongs to the last event that is neither from the environment nor a null observation. */
  lemma OnlyTheLastMayWait(trajectory: seq<Event>, i: nat) returns (k: nat)
    requires i < |Replayed(trajectory)| && Replayed(trajectory)[i].body.Message? && Replayed(trajectory)[i].body.wait
    ensures k < |trajectory| && trajectory[k] == Replayed(trajectory)[i] && NothingIssuedAfter(trajectory, k)
  {
    ReplayedFaithfully(trajectory, i);
    hide Replayed;
    hide Filter;
    hide Positions;
    hide NothingIssuedAfter;
    k := LastLoaded(trajectory);
  }

  lemma LastLoaded(trajectory: seq<Event>) returns (k: nat)
    requires Filter(trajectory, Loadable) != []
    ensures k < |trajectory| && NothingIssuedAfter(trajectory, k)
    ensures var loaded := Filter(trajectory, Loadable); trajectory[k] == loaded[|loaded| - 1]
  {
    hide Filter;
    hide Positions;
    var p := Positions(trajectory, Loadable);
    k := p[|p| - 1];
    forall m | k < m < |trajectory| ensures !Loadable(trajectory[m]) {
      if Loadable(trajectory[m]) {
        PositionsComplete(trajectory, Loadable, m);
        assert false;
      }
    }
  }

  /** And that event keeps its flag, whatever comes after it. */
  lemma TheLastKeepsWaiting(trajectory: seq<Event>, k: nat)
    requires k < |trajectory| && NothingIssuedAfter(trajectory, k)
    requires IsAction(trajectory[k]) && trajectory[k].source != Environment
    ensures trajectory[k] in Replayed(trajectory)
  {
    var loaded := Filter(trajectory, Loadable);
    LastIsLoadedLast(trajectory, k);
    var cleared := ClearWaits(loaded);
    assert cleared[|cleared| - 1] == trajectory[k];
    PositionsComplete(cleared, IsAction, |cleared| - 1);
    hide Filter;
    hide Positions;
    var q :| 0 <= q < |Positions(cleared, IsAction)| && Positions(cleared, IsAction)[q] == |cleared| - 1;
    assert Filter(cleared, IsAction)[q] == cleared[|cleared| - 1];
  }

  lemma LastIsLoadedLast(trajectory: seq<Event>, k: nat)
    requires k < |trajectory| && NothingIssuedAfter(trajectory, k) && Loadable(trajectory[k])
    ensures var loaded := Filter(trajectory, Loadable); loaded != [] && loaded[|loaded| - 1] == trajectory[k]
  {
    PositionsComplete(trajectory, Loadable, k);
    hide Filter;
    hide Positions;
    var p := Positions(trajectory, Loadable);
    var q :| 0 <= q < |p| && p[q] == k;
    assert p[q] <= p[|p| - 1] && trajectory[p[|p| - 1]] == Filter(trajectory, Loadable)[|p| - 1];
  }
}
