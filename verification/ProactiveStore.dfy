/** Deciding, once per commit, that all workflow runs of a pull request have finished and some have failed. */
module ProactiveStore {
  import opened Options

  datatype Status = Failure | Completed | Pending

  type Runs = map<string, Status>

  /** The row of one repository, pull request and commit. */
  datatype Entry = Entry(runs: Runs, sent: bool)

  /** One delivery: the workflow run that changed, and what a fetch of all runs would return at that time. */
  datatype Delivery = Delivery(id: string, status: Status, all: Runs)

  predicate Ready(runs: Runs) {
    (forall id :: id in runs ==> runs[id] != Pending) && (exists id :: id in runs && runs[id] == Failure)
  }

  function Store(entry: Option<Entry>, d: Delivery): (Option<Entry>, Option<Runs>) {
    if entry.Some? && entry.value.sent then (entry, None)
    else
      var runs := (if entry.None? then d.all else entry.value.runs)[d.id := d.status];
      (Some(Entry(runs, Ready(runs))), if Ready(runs) then Some(runs) else None)
  }

  class ProactiveConversationStore {
    var entry: Option<Entry>

    method StoreWorkflowInformation(d: Delivery) returns (group: Option<Runs>)
      modifies this
      ensures (entry, group) == Store(old(entry), d)
    {
      var shouldSend := false;
      group := None;
      if entry.Some? && entry.value.sent {
        return;
      }
      var runs := if entry.None? then d.all else entry.value.runs;
      runs := runs[d.id := d.status];
      var nonePending, failure := true, false;
      var todo := runs.Keys;
      while todo != {}
        invariant todo <= runs.Keys
        invariant nonePending <==> forall id :: id in runs && id !in todo ==> runs[id] != Pending
        invariant failure <==> exists id :: id in runs && id !in todo && runs[id] == Failure
      {
        var id :| id in todo;
        if runs[id] == Pending {
          nonePending := false;
        }
        if runs[id] == Failure {
          failure := true;
        }
        todo := todo - {id};
      }
      if nonePending {
        shouldSend := failure;
      }
      if shouldSend {
        group := Some(runs);
      }
      entry := Some(Entry(runs, shouldSend));
    }
  }

  // ----- any sequence of deliveries -----

  ghost function EntryAfter(ds: seq<Delivery>): Option<Entry> {
    if ds == [] then None else Store(EntryAfter(ds[..|ds| - 1]), ds[|ds| - 1]).0
  }

  ghost function Result(ds: seq<Delivery>, i: nat): Option<Runs>
    requires i < |ds|
  {
    Store(EntryAfter(ds[..i]), ds[i]).1
  }

  /** The runs fetched at the first delivery, with all deliveries written over them, the last one wins. */
  function Folded(ds: seq<Delivery>): Runs
    requires ds != []
  {
    var last := |ds| - 1;
    (if last == 0 then ds[0].all else Folded(ds[..last]))[ds[last].id := ds[last].status]
  }

  ghost predicate ReadyAt(ds: seq<Delivery>, i: nat)
    requires i < |ds|
  {
    Ready(Folded(ds[..i + 1]))
  }

  /** The delivery number `i` is the first one after which the folded runs are ready. */
  ghost predicate FirstReady(ds: seq<Delivery>, i: nat)
    requires i < |ds|
  {
    ReadyAt(ds, i) && forall j :: 0 <= j < i ==> !ReadyAt(ds, j)
  }

  lemma ReadyAtPrefix(ds: seq<Delivery>, n: nat, i: nat)
    requires i < n <= |ds|
    ensures ReadyAt(ds[..n], i) <==> ReadyAt(ds, i)
  {
    assert ds[..n][..i + 1] == ds[..i + 1];
  }

  /** Before anything is ready, the row holds the folded runs. */
  lemma {:induction false} NothingSentYet(ds: seq<Delivery>)
    requires forall j :: 0 <= j < |ds| ==> !ReadyAt(ds, j)
    ensures EntryAfter(ds) == if ds == [] then None else Some(Entry(Folded(ds), false))
  {
    if ds != [] {
      var last := |ds| - 1;
      forall j | 0 <= j < last ensures !ReadyAt(ds[..last], j) {
        ReadyAtPrefix(ds, last, j);
      }
      NothingSentYet(ds[..last]);
      assert ds[..last + 1] == ds && !ReadyAt(ds, last);
    }
  }

  /** Afterwards it is frozen. */
  lemma {:induction false} FrozenOnceSent(ds: seq<Delivery>, i: nat)
    requires i < |ds| && FirstReady(ds, i)
    ensures EntryAfter(ds) == Some(Entry(Folded(ds[..i + 1]), true))
    decreases |ds|
  {
    var last := |ds| - 1;
    var before := ds[..last];
    forall j | 0 <= j < last ensures ReadyAt(before, j) <==> ReadyAt(ds, j) {
      ReadyAtPrefix(ds, last, j);
    }
    if i == last {
      NothingSentYet(before);
      assert ds[..last + 1] == ds;
    } else {
      assert FirstReady(before, i);
      FrozenOnceSent(before, i);
      assert before[..i + 1] == ds[..i + 1];
    }
  }

  /** Exactly the first delivery that makes the folded runs ready returns them; every other one returns nothing; and
      from then on the stored runs are frozen. */
  lemma NotifiesExactlyOnce(ds: seq<Delivery>, i: nat)
    requires i < |ds|
    ensures Result(ds, i) == if FirstReady(ds, i) then Some(Folded(ds[..i + 1])) else None
    ensures FirstReady(ds, i) ==> EntryAfter(ds) == Some(Entry(Folded(ds[..i + 1]), true))
  {
    hide Folded;
    hide Ready;
    hide EntryAfter;
    if FirstReady(ds, i) {
      FrozenOnceSent(ds, i);
    }
    var before := ds[..i];
    forall j | 0 <= j < i ensures ReadyAt(before, j) <==> ReadyAt(ds, j) {
      ReadyAtPrefix(ds, i, j);
    }
    FoldStep(ds, i);
    if j :| 0 <= j < i && ReadyAt(ds, j) {
      var k := Least(before, j);
      FrozenOnceSent(before, k);
    } else {
      NothingSentYet(before);
    }
  }

  lemma FoldStep(ds: seq<Delivery>, i: nat)
    requires i < |ds|
    ensures Folded(ds[..i + 1]) == (if i == 0 then ds[0].all else Folded(ds[..i]))[ds[i].id := ds[i].status]
  {
    assert ds[..i + 1][..i] == ds[..i];
  }

  lemma {:induction false} Least(ds: seq<Delivery>, j: nat) returns (k: nat)
    requires j < |ds| && ReadyAt(ds, j)
    ensures k <= j && FirstReady(ds, k)
    decreases j
  {
    if m :| 0 <= m < j && ReadyAt(ds, m) {
      k := Least(ds, m);
    } else {
      k := j;
    }
  }

  /** So at most one delivery of a sequence returns something. */
  lemma AtMostOneNotification(ds: seq<Delivery>, i: nat, j: nat)
    requires i < j < |ds| && Result(ds, i).Some?
    ensures Result(ds, j).None?
  {
    NotifiesExactlyOnce(ds, i);
    NotifiesExactlyOnce(ds, j);
  }

  /** Ready means that nothing is pending any more and something has failed. */
  lemma ReadyMeans(runs: Runs)
    ensures Ready(runs) <==> Pending !in runs.Values && Failure in runs.Values
  {
  }
}
