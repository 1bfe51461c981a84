/** The lease protocol by which clustered conversation managers share agent loops.

    A node claims a conversation with `SET NX EX 15`, registers the loop locally, refreshes the keys of its
    loops in two phases (snapshot, then pipeline execution), closes a loop in two phases (pop, then delete)
    or vanishes. The model is a timed transition system over all nodes, Redis and the commands in flight. */
module Cluster {
  import opened Lease

  type Sid = string
  type NodeId = nat

  const TTL: nat := 15_000

  /** Upper bounds on scheduling and network delays, in milliseconds. */
  datatype Timing = Timing(start: nat, period: nat, flush: nat, delete: nat) {
    /** The whole timing assumption: registering a claimed loop, missing one refresh, waiting for the
        next and landing it, and then deleting the key, all fit into one lease. */
    predicate Fits() {
      start + period + 2 * flush + delete < TTL
    }
  }

  /** Where the refresh task of a node is: asleep since its last run, or waiting for a pipeline that was
      built from the loops registered at time `at`. */
  datatype Phase = Idle(since: Time) | Flushing(batch: set<Sid>, at: Time)

  /** `starting` holds loops whose key was claimed (and when) and that are not registered yet. */
  datatype Node = Node(starting: map<Sid, Time>, loops: set<Sid>, phase: Phase)

  /** A delete command sent by a close, together with the time the loop was popped. */
  datatype Deletion = Deletion(node: NodeId, sid: Sid, at: Time)

  /** `orphans` are the pipelines of nodes that vanished while waiting for them; they may still land. */
  datatype State = State(now: Time, redis: Store<Sid>, nodes: map<NodeId, Node>,
                         deletions: set<Deletion>, orphans: seq<set<Sid>>)

  datatype Step =
    | Tick(dt: nat)
    | Boot(n: NodeId)
    | Acquire(n: NodeId, sid: Sid)
    | Register(n: NodeId, sid: Sid)
    | AbortStart(n: NodeId, sid: Sid)
    | Snapshot(n: NodeId)
    | Execute(n: NodeId)
    | Pop(n: NodeId, sid: Sid)
    | Delete(d: Deletion)
    | LoseDelete(d: Deletion)
    | Crash(n: NodeId)
    | OrphanLands(i: nat)
    | OrphanLost(i: nat)

  // ----- operations of one node -----

  /** The keys that one refresh puts into its pipeline. */
  function Batch(node: Node): set<Sid> {
    node.loops - {""}
  }

  function StartClaim(node: Node, sid: Sid, now: Time): Node {
    node.(starting := node.starting[sid := now])
  }

  function RegisterLoop(node: Node, sid: Sid): Node {
    node.(starting := node.starting - {sid}, loops := node.loops + {sid})
  }

  function PopLoop(node: Node, sid: Sid): Node {
    node.(loops := node.loops - {sid})
  }

  // ----- the transition system -----

  predicate OnTime(node: Node, t: Time, timing: Timing) {
    && (match node.phase
        case Idle(since) => t <= since + timing.period
        case Flushing(_, at) => t <= at + timing.flush)
    && (forall sid :: sid in node.starting ==> t <= node.starting[sid] + timing.start)
  }

  predicate Enabled(s: State, step: Step, timing: Timing) {
    match step
    case Tick(dt) =>
      && (forall n :: n in s.nodes ==> OnTime(s.nodes[n], s.now + dt, timing))
      && (forall d :: d in s.deletions ==> s.now + dt <= d.at + timing.delete)
    case Boot(n) => n !in s.nodes
    case Acquire(n, sid) => n in s.nodes && sid != ""
    case Register(n, sid) => n in s.nodes && sid in s.nodes[n].starting
    case AbortStart(n, sid) => n in s.nodes && sid in s.nodes[n].starting
    case Snapshot(n) => n in s.nodes && s.nodes[n].phase.Idle?
    case Execute(n) => n in s.nodes && s.nodes[n].phase.Flushing?
    case Pop(n, sid) => n in s.nodes && sid in s.nodes[n].loops
    case Delete(d) => d in s.deletions
    case LoseDelete(d) => d in s.deletions
    case Crash(n) => n in s.nodes
    case OrphanLands(i) => i < |s.orphans|
    case OrphanLost(i) => i < |s.orphans|
  }

  function SetNode(s: State, n: NodeId, node: Node): State {
    s.(nodes := s.nodes[n := node])
  }

  function DropOrphan(s: State, i: nat): State
    requires i < |s.orphans|
  {
    s.(orphans := s.orphans[..i] + s.orphans[i + 1..])
  }

  function Next(s: State, step: Step, timing: Timing): State
    requires Enabled(s, step, timing)
  {
    match step
    case Tick(dt) => s.(now := s.now + dt)
    case Boot(n) => SetNode(s, n, Node(map[], {}, Idle(s.now)))
    case Acquire(n, sid) =>
      var (redis, created) := SetIfAbsent(s.redis, sid, s.now, TTL);
      if created then SetNode(s, n, StartClaim(s.nodes[n], sid, s.now)).(redis := redis) else s
    case Register(n, sid) => SetNode(s, n, RegisterLoop(s.nodes[n], sid))
    case AbortStart(n, sid) => SetNode(s, n, s.nodes[n].(starting := s.nodes[n].starting - {sid}))
    case Snapshot(n) => SetNode(s, n, s.nodes[n].(phase := Flushing(Batch(s.nodes[n]), s.now)))
    case Execute(n) =>
      SetNode(s, n, s.nodes[n].(phase := Idle(s.now)))
      .(redis := SetAll(s.redis, s.nodes[n].phase.batch, s.now, TTL))
    case Pop(n, sid) =>
      SetNode(s, n, PopLoop(s.nodes[n], sid)).(deletions := s.deletions + {Deletion(n, sid, s.now)})
    case Delete(d) => s.(redis := Remove(s.redis, d.sid), deletions := s.deletions - {d})
    case LoseDelete(d) => s.(deletions := s.deletions - {d})
    case Crash(n) =>
      var phase := s.nodes[n].phase;
      s.(nodes := s.nodes - {n}, orphans := if phase.Flushing? then s.orphans + [phase.batch] else s.orphans)
    case OrphanLands(i) => DropOrphan(s, i).(redis := SetAll(s.redis, s.orphans[i], s.now, TTL))
    case OrphanLost(i) => DropOrphan(s, i)
  }

  /** A run is a sequence of enabled steps. */
  ghost predicate Run(s: State, steps: seq<Step>, timing: Timing)
    decreases |steps|
  {
    steps == [] || (Enabled(s, steps[0], timing) && Run(Next(s, steps[0], timing), steps[1..], timing))
  }

  ghost function After(s: State, steps: seq<Step>, timing: Timing): State
    requires Run(s, steps, timing)
    decreases |steps|
  {
    if steps == [] then s else After(Next(s, steps[0], timing), steps[1..], timing)
  }

  const INITIAL := State(0, map[], map[], {}, [])

  // ----- the invariant -----

  /** Everything that entitles someone to the key of a conversation: a loop being started, a registered
      loop, or the deletion that a close still has in flight. */
  datatype Claim = Starting(n: NodeId) | Running(n: NodeId) | Closing(d: Deletion)

  ghost predicate Claims(s: State, c: Claim, sid: Sid) {
    match c
    case Starting(n) => n in s.nodes && sid in s.nodes[n].starting
    case Running(n) => n in s.nodes && sid in s.nodes[n].loops
    case Closing(d) => d in s.deletions && d.sid == sid
  }

  /** The latest time at which the next command that concerns the key of `sid` is sent by the claimant. */
  ghost function Due(s: State, c: Claim, sid: Sid, timing: Timing): Time
    requires Claims(s, c, sid)
  {
    match c
    case Starting(n) => s.nodes[n].starting[sid] + timing.start + timing.period + 2 * timing.flush
    case Running(n) =>
      (match s.nodes[n].phase
       case Idle(since) => since + timing.period + timing.flush
       case Flushing(batch, at) =>
         if sid in batch then at + timing.flush else at + timing.flush + timing.period + timing.flush)
    case Closing(d) => d.at
  }

  /** Nothing a node remembers lies in the future. */
  predicate Past(node: Node, now: Time) {
    && (match node.phase case Idle(since) => since <= now case Flushing(_, at) => at <= now)
    && (forall sid :: sid in node.starting ==> node.starting[sid] <= now)
  }

  ghost predicate Clocked(s: State, timing: Timing) {
    && (forall n :: n in s.nodes ==> OnTime(s.nodes[n], s.now, timing) && Past(s.nodes[n], s.now))
    && (forall d :: d in s.deletions ==> d.at <= s.now <= d.at + timing.delete)
    && (forall k :: k in s.redis ==> s.redis[k] <= s.now + TTL)
  }

  ghost predicate Named(s: State) {
    forall c, sid :: Claims(s, c, sid) ==> sid != ""
  }

  /** Every claim is backed by a key that outlives the claim's next command and a deletion after it. */
  ghost predicate Backed(s: State, timing: Timing) {
    forall c, sid :: Claims(s, c, sid) ==> sid in s.redis && Due(s, c, sid, timing) + timing.delete < s.redis[sid]
  }

  ghost predicate Exclusive(s: State) {
    forall c, c', sid :: Claims(s, c, sid) && Claims(s, c', sid) ==> c == c'
  }

  ghost predicate Inv(s: State, timing: Timing) {
    Clocked(s, timing) && Named(s) && Backed(s, timing) && Exclusive(s)
  }

  /** While anybody is entitled to a key, the key is live. */
  lemma ClaimKeepsKeyLive(s: State, timing: Timing, c: Claim, sid: Sid)
    requires timing.Fits() && Inv(s, timing) && Claims(s, c, sid)
    ensures Live(s.redis, sid, s.now)
  {
  }

  /** The claim before a step from which a claim after the step stems. */
  ghost function Origin(s: State, step: Step, c: Claim, sid: Sid): Claim {
    match step
    case Register(n, started) => if c == Running(n) && sid == started then Starting(n) else c
    case Pop(n, popped) => if c == Closing(Deletion(n, popped, s.now)) then Running(n) else c
    case _ => c
  }

  /** No step invents a claim, except a successful `SET NX`. */
  lemma ClaimsStem(s: State, step: Step, timing: Timing, c: Claim, sid: Sid)
    requires timing.Fits() && Inv(s, timing) && Enabled(s, step, timing)
    requires Claims(Next(s, step, timing), c, sid)
    ensures Claims(s, Origin(s, step, c, sid), sid)
         || (step == Acquire(step.n, sid) && c == Starting(step.n) && !Live(s.redis, sid, s.now))
  {
  }

  lemma StepKeepsExclusive(s: State, step: Step, timing: Timing)
    requires timing.Fits() && Inv(s, timing) && Enabled(s, step, timing)
    ensures Named(Next(s, step, timing)) && Exclusive(Next(s, step, timing))
  {
    var t := Next(s, step, timing);
    forall c, sid | Claims(t, c, sid) ensures sid != "" {
      ClaimsStem(s, step, timing, c, sid);
    }
    forall c, c', sid | Claims(t, c, sid) && Claims(t, c', sid) ensures c == c' {
      ClaimsStem(s, step, timing, c, sid);
      ClaimsStem(s, step, timing, c', sid);
      var o, o' := Origin(s, step, c, sid), Origin(s, step, c', sid);
      if step.Acquire? && step.sid == sid && !Live(s.redis, sid, s.now) {
        assert !Claims(s, o, sid) && !Claims(s, o', sid);
      } else {
        assert o == o';
      }
    }
  }

  /** No step takes a key away from a claim or shortens its lease. */
  lemma KeyIsKept(s: State, step: Step, timing: Timing, c: Claim, sid: Sid)
    requires timing.Fits() && Inv(s, timing) && Enabled(s, step, timing)
    requires Claims(s, c, sid) && !(step.Delete? && c == Closing(step.d))
    ensures var t := Next(s, step, timing); sid in t.redis && s.redis[sid] <= t.redis[sid]
  {
    ClaimKeepsKeyLive(s, timing, c, sid);
    assert step.Delete? ==> Claims(s, Closing(step.d), step.d.sid);
  }

  /** A claim that has just been refreshed is due well before the end of a new lease. */
  predicate Refreshes(s: State, step: Step, n: NodeId, sid: Sid) {
    step == Execute(n) && n in s.nodes && s.nodes[n].phase.Flushing? && sid in s.nodes[n].phase.batch
  }

  lemma DueIsMet(s: State, step: Step, timing: Timing, c: Claim, sid: Sid)
    requires timing.Fits() && Inv(s, timing) && Enabled(s, step, timing)
    requires Claims(Next(s, step, timing), c, sid) && Claims(s, Origin(s, step, c, sid), sid)
    ensures var t := Next(s, step, timing); var o := Origin(s, step, c, sid);
      || Due(t, c, sid, timing) <= Due(s, o, sid, timing)
      || (c.Running? && Refreshes(s, step, c.n, sid) && Due(t, c, sid, timing) == s.now + timing.period + timing.flush)
  {
    assert Live(s.redis, sid, s.now) && sid != "" by {
      ClaimKeepsKeyLive(s, timing, Origin(s, step, c, sid), sid);
    }
    hide Backed;
    hide Exclusive;
    hide Named;
    if Origin(s, step, c, sid) != c {
      ChangedDueIsMet(s, step, timing, c, sid);
    } else if c.Running? {
      RunningDueIsMet(s, step, timing, c.n, sid);
    }
  }

  lemma ChangedDueIsMet(s: State, step: Step, timing: Timing, c: Claim, sid: Sid)
    requires Clocked(s, timing) && Enabled(s, step, timing)
    requires Claims(Next(s, step, timing), c, sid) && Claims(s, Origin(s, step, c, sid), sid)
    requires Origin(s, step, c, sid) != c
    ensures Due(Next(s, step, timing), c, sid, timing) <= Due(s, Origin(s, step, c, sid), sid, timing)
  {
    assert step.Register? || step.Pop?;
    assert OnTime(s.nodes[step.n], s.now, timing) && Past(s.nodes[step.n], s.now);
    hide Clocked;
  }

  lemma RunningDueIsMet(s: State, step: Step, timing: Timing, n: NodeId, sid: Sid)
    requires Clocked(s, timing) && Enabled(s, step, timing) && sid != ""
    requires Claims(Next(s, step, timing), Running(n), sid) && Claims(s, Running(n), sid)
    ensures var t := Next(s, step, timing);
      || Due(t, Running(n), sid, timing) <= Due(s, Running(n), sid, timing)
      || (Refreshes(s, step, n, sid) && Due(t, Running(n), sid, timing) == s.now + timing.period + timing.flush)
  {
    assert OnTime(s.nodes[n], s.now, timing);
    hide Clocked;
    if step == Snapshot(n) || step == Execute(n) {
      assert sid in Batch(s.nodes[n]);
    } else {
      assert Next(s, step, timing).nodes[n].phase == s.nodes[n].phase;
    }
  }

  lemma StepKeepsBacking(s: State, step: Step, timing: Timing, c: Claim, sid: Sid)
    requires timing.Fits() && Inv(s, timing) && Enabled(s, step, timing)
    requires Claims(Next(s, step, timing), c, sid)
    ensures var t := Next(s, step, timing);
      sid in t.redis && Due(t, c, sid, timing) + timing.delete < t.redis[sid]
  {
    ClaimsStem(s, step, timing, c, sid);
    var o := Origin(s, step, c, sid);
    if Claims(s, o, sid) {
      KeyIsKept(s, step, timing, o, sid);
      DueIsMet(s, step, timing, c, sid);
      if c.Running? && Refreshes(s, step, c.n, sid) {
        assert Next(s, step, timing).redis[sid] == s.now + TTL;
      }
    }
  }

  lemma StepKeepsClocked(s: State, step: Step, timing: Timing)
    requires Clocked(s, timing) && Enabled(s, step, timing)
    ensures Clocked(Next(s, step, timing), timing)
  {
    hide Next;
    hide Enabled;
    var t := Next(s, step, timing);
    forall n | n in t.nodes ensures OnTime(t.nodes[n], t.now, timing) && Past(t.nodes[n], t.now) {
      NodeStaysOnTime(s, step, timing, n);
    }
    forall d | d in t.deletions ensures d.at <= t.now <= d.at + timing.delete {
      DeletionStaysOnTime(s, step, timing, d);
    }
    forall k | k in t.redis ensures t.redis[k] <= t.now + TTL {
      StepSetsExpiry(s, step, timing, k);
    }
  }

  lemma NodeStaysOnTime(s: State, step: Step, timing: Timing, n: NodeId)
    requires Enabled(s, step, timing) && n in Next(s, step, timing).nodes
    requires n in s.nodes ==> OnTime(s.nodes[n], s.now, timing) && Past(s.nodes[n], s.now)
    ensures var t := Next(s, step, timing); OnTime(t.nodes[n], t.now, timing) && Past(t.nodes[n], t.now)
  {
  }

  lemma DeletionStaysOnTime(s: State, step: Step, timing: Timing, d: Deletion)
    requires Enabled(s, step, timing) && d in Next(s, step, timing).deletions
    requires d in s.deletions ==> d.at <= s.now <= d.at + timing.delete
    ensures var t := Next(s, step, timing); d.at <= t.now <= d.at + timing.delete
  {
  }

  /** Every step of the protocol keeps the invariant. */
  lemma StepKeepsInvariant(s: State, step: Step, timing: Timing)
    requires timing.Fits() && Inv(s, timing) && Enabled(s, step, timing)
    ensures Inv(Next(s, step, timing), timing)
  {
    hide Clocked;
    hide Exclusive;
    hide Named;
    hide Next;
    StepKeepsClocked(s, step, timing);
    StepKeepsExclusive(s, step, timing);
    forall c, sid | Claims(Next(s, step, timing), c, sid) {
      StepKeepsBacking(s, step, timing, c, sid);
    }
  }

  // ----- safety of every run -----

  lemma {:induction false} RunKeepsInvariant(s: State, steps: seq<Step>, timing: Timing)
    requires timing.Fits() && Inv(s, timing) && Run(s, steps, timing)
    ensures Inv(After(s, steps, timing), timing)
    decreases |steps|
  {
    if steps != [] {
      StepKeepsInvariant(s, steps[0], timing);
      RunKeepsInvariant(Next(s, steps[0], timing), steps[1..], timing);
    }
  }

  /** A node holds a conversation from the successful `SET NX` until the loop is popped. */
  predicate Holds(s: State, n: NodeId, sid: Sid) {
    n in s.nodes && (sid in s.nodes[n].starting || sid in s.nodes[n].loops)
  }

  /** At most one node holds a conversation, and the key of a held conversation is live. */
  predicate OneOwner(s: State, sid: Sid) {
    && (forall n, n' :: n in s.nodes && n' in s.nodes && Holds(s, n, sid) && Holds(s, n', sid) ==> n == n')
    && (forall n :: n in s.nodes && Holds(s, n, sid) ==> Live(s.redis, sid, s.now))
  }

  lemma InvariantGivesOneOwner(s: State, timing: Timing, sid: Sid)
    requires timing.Fits() && Inv(s, timing)
    ensures OneOwner(s, sid)
  {
    forall n | n in s.nodes && Holds(s, n, sid)
      ensures Claims(s, Starting(n), sid) || Claims(s, Running(n), sid)
      ensures Live(s.redis, sid, s.now)
    {
      ClaimKeepsKeyLive(s, timing, if sid in s.nodes[n].starting then Starting(n) else Running(n), sid);
    }
  }

  /** Exclusion in every reachable state: stale refreshes, late deletes and crashes included. */
  lemma EveryRunHasOneOwner(steps: seq<Step>, timing: Timing, sid: Sid)
    requires timing.Fits() && Run(INITIAL, steps, timing)
    ensures OneOwner(After(INITIAL, steps, timing), sid)
  {
    RunKeepsInvariant(INITIAL, steps, timing);
    InvariantGivesOneOwner(After(INITIAL, steps, timing), timing, sid);
  }

  // ----- restarts -----

  /** The steps by which node `n` gives up a conversation. */
  predicate Releases(step: Step, n: NodeId, sid: Sid) {
    step == Pop(n, sid) || step == AbortStart(n, sid) || step == Crash(n)
  }

  lemma {:induction false} HeldUntilReleased(s: State, steps: seq<Step>, timing: Timing, n: NodeId, sid: Sid)
    requires timing.Fits() && Inv(s, timing) && Run(s, steps, timing)
    requires Holds(s, n, sid)
    requires forall k :: 0 <= k < |steps| ==> !Releases(steps[k], n, sid)
    ensures Holds(After(s, steps, timing), n, sid)
    decreases |steps|
  {
    if steps != [] {
      assert !Releases(steps[0], n, sid);
      StepKeepsInvariant(s, steps[0], timing);
      HeldUntilReleased(Next(s, steps[0], timing), steps[1..], timing, n, sid);
    }
  }

  /** Of all the nodes that race to restart a conversation at most one succeeds: between two successful
      claims the first winner has closed the loop, given up starting it, or vanished. */
  lemma RestartsAreSeparated(s: State, n: NodeId, middle: seq<Step>, m: NodeId, sid: Sid, timing: Timing)
    requires timing.Fits() && Inv(s, timing)
    requires Enabled(s, Acquire(n, sid), timing) && !Live(s.redis, sid, s.now)
    requires var s1 := Next(s, Acquire(n, sid), timing);
      && Run(s1, middle, timing)
      && var s2 := After(s1, middle, timing);
      Enabled(s2, Acquire(m, sid), timing) && !Live(s2.redis, sid, s2.now)
    ensures exists k :: 0 <= k < |middle| && Releases(middle[k], n, sid)
  {
    if forall k :: 0 <= k < |middle| ==> !Releases(middle[k], n, sid) {
      var s1 := Next(s, Acquire(n, sid), timing);
      StepKeepsInvariant(s, Acquire(n, sid), timing);
      HeldUntilReleased(s1, middle, timing, n, sid);
      RunKeepsInvariant(s1, middle, timing);
      InvariantGivesOneOwner(After(s1, middle, timing), timing, sid);
      assert false;
    }
  }

  /** Nobody is entitled to the key. */
  ghost predicate Unclaimed(s: State, sid: Sid) {
    forall c :: !Claims(s, c, sid)
  }

  /** Moreover no refresh that mentions it is in flight. */
  ghost predicate Abandoned(s: State, sid: Sid) {
    && Unclaimed(s, sid)
    && (forall n :: n in s.nodes && s.nodes[n].phase.Flushing? ==> sid !in s.nodes[n].phase.batch)
    && (forall i :: 0 <= i < |s.orphans| ==> sid !in s.orphans[i])
  }

  /** When the holder vanishes, no claim is left; only its pipeline may still be in flight. */
  lemma VanishedHolderLeavesNoClaim(s: State, n: NodeId, sid: Sid, timing: Timing, c: Claim)
    requires timing.Fits() && Inv(s, timing) && Holds(s, n, sid)
    ensures !Claims(Next(s, Crash(n), timing), c, sid)
  {
    var mine := if sid in s.nodes[n].starting then Starting(n) else Running(n);
    assert Claims(s, mine, sid);
    assert Claims(Next(s, Crash(n), timing), c, sid) ==> Claims(s, c, sid);
  }

  /** No `SET NX` on the key succeeds during the run. */
  ghost predicate NoRestart(s: State, steps: seq<Step>, timing: Timing, sid: Sid)
    requires Run(s, steps, timing)
    decreases |steps|
  {
    steps == [] ||
    (&& (steps[0].Acquire? && steps[0].sid == sid ==> Live(s.redis, sid, s.now))
     && NoRestart(Next(s, steps[0], timing), steps[1..], timing, sid))
  }

  lemma {:induction false} AbandonedKeyIsFrozen(s: State, steps: seq<Step>, timing: Timing, sid: Sid)
    requires Run(s, steps, timing) && NoRestart(s, steps, timing, sid)
    requires Abandoned(s, sid)
    ensures var t := After(s, steps, timing);
      && Abandoned(t, sid) && s.now <= t.now
      && (sid in t.redis <==> sid in s.redis)
      && (sid in s.redis ==> t.redis[sid] == s.redis[sid])
    decreases |steps|
  {
    if steps != [] {
      var t := Next(s, steps[0], timing);
      AbandonedStep(s, steps[0], timing, sid);
      AbandonedKeyIsFrozen(t, steps[1..], timing, sid);
    }
  }

  lemma AbandonedStep(s: State, step: Step, timing: Timing, sid: Sid)
    requires Enabled(s, step, timing) && Abandoned(s, sid)
    requires step.Acquire? && step.sid == sid ==> Live(s.redis, sid, s.now)
    ensures var t := Next(s, step, timing);
      && Abandoned(t, sid) && s.now <= t.now
      && (sid in t.redis <==> sid in s.redis)
      && (sid in s.redis ==> t.redis[sid] == s.redis[sid])
  {
    var t := Next(s, step, timing);
    assert step.Delete? ==> !Claims(s, Closing(step.d), sid);
    assert step.Snapshot? ==> !Claims(s, Running(step.n), sid);
    assert step.Register? ==> !Claims(s, Starting(step.n), sid);
    assert step.Pop? ==> !Claims(s, Running(step.n), sid);
    forall c ensures !Claims(t, c, sid) {
      assert !Claims(s, c, sid);
    }
  }

  // ----- the key of a vanished owner -----

  /** The step sets the key of `sid`: a successful claim, a refresh, or the late pipeline of a vanished node. */
  predicate Sets(s: State, step: Step, sid: Sid) {
    match step
    case Acquire(_, claimed) => claimed == sid && !Live(s.redis, sid, s.now)
    case Execute(n) => Refreshes(s, step, n, sid)
    case OrphanLands(i) => i < |s.orphans| && sid in s.orphans[i]
    case _ => false
  }

  /** When the key of `sid` was last set, by the run or, if not, at `before`. */
  ghost function LastSet(s: State, steps: seq<Step>, timing: Timing, sid: Sid, before: Time): Time
    requires Run(s, steps, timing)
    decreases |steps|
  {
    if steps == [] then before
    else LastSet(Next(s, steps[0], timing), steps[1..], timing, sid, if Sets(s, steps[0], sid) then s.now else before)
  }

  lemma StepSetsExpiry(s: State, step: Step, timing: Timing, sid: Sid)
    requires Enabled(s, step, timing)
    ensures var t := Next(s, step, timing);
      && s.now <= t.now
      && (Sets(s, step, sid) ==> sid in t.redis && t.redis[sid] == s.now + TTL)
      && (!Sets(s, step, sid) && sid in t.redis ==> sid in s.redis && t.redis[sid] == s.redis[sid])
      && (sid in s.redis && sid !in t.redis ==> step.Delete? && Claims(s, Closing(step.d), sid))
  {
  }

  /** In every run a key that is there expires 15 seconds after it was last set. */
  lemma {:induction false} ExpiryFollowsLastSet(s: State, steps: seq<Step>, timing: Timing, sid: Sid, before: Time)
    requires Run(s, steps, timing) && (sid in s.redis ==> s.redis[sid] == before + TTL)
    ensures var t := After(s, steps, timing);
      sid in t.redis ==> t.redis[sid] == LastSet(s, steps, timing, sid, before) + TTL
    decreases |steps|
  {
    hide Next;
    hide Enabled;
    if steps != [] {
      StepSetsExpiry(s, steps[0], timing, sid);
      var now := Sets(s, steps[0], sid);
      ExpiryFollowsLastSet(Next(s, steps[0], timing), steps[1..], timing, sid, if now then s.now else before);
    }
  }

  lemma UnclaimedStep(s: State, step: Step, timing: Timing, sid: Sid)
    requires Enabled(s, step, timing) && Unclaimed(s, sid)
    requires step.Acquire? && step.sid == sid ==> Live(s.redis, sid, s.now)
    ensures Unclaimed(Next(s, step, timing), sid)
    ensures sid in s.redis ==> sid in Next(s, step, timing).redis
  {
    var t := Next(s, step, timing);
    assert step.Delete? ==> !Claims(s, Closing(step.d), sid);
    assert step.Register? ==> !Claims(s, Starting(step.n), sid);
    assert step.Pop? ==> !Claims(s, Running(step.n), sid);
    forall c ensures !Claims(t, c, sid) {
      assert !Claims(s, c, sid);
    }
  }

  lemma {:induction false} StaysUnclaimed(s: State, steps: seq<Step>, timing: Timing, sid: Sid)
    requires Run(s, steps, timing) && NoRestart(s, steps, timing, sid) && Unclaimed(s, sid)
    ensures Unclaimed(After(s, steps, timing), sid)
    ensures sid in s.redis ==> sid in After(s, steps, timing).redis
    decreases |steps|
  {
    hide Next;
    hide Enabled;
    if steps != [] {
      UnclaimedStep(s, steps[0], timing, sid);
      StaysUnclaimed(Next(s, steps[0], timing), steps[1..], timing, sid);
    }
  }

  /** Whatever led to the state in which an owner vanishes, and whatever is still in flight then: until somebody
      restarts the conversation nobody is entitled to its key, and the key is live exactly for the 15 seconds
      after it was last set, be it before the owner vanished or by a pipeline that landed afterwards. */
  lemma AbandonedKeyExpires(before: seq<Step>, n: NodeId, after: seq<Step>, timing: Timing, sid: Sid)
    requires timing.Fits() && Run(INITIAL, before, timing) && Holds(After(INITIAL, before, timing), n, sid)
    requires var crashed := Next(After(INITIAL, before, timing), Crash(n), timing);
      Run(crashed, after, timing) && NoRestart(crashed, after, timing, sid)
    ensures var crashed := Next(After(INITIAL, before, timing), Crash(n), timing);
      var t := After(crashed, after, timing);
      && Unclaimed(t, sid)
      && (Live(t.redis, sid, t.now) <==>
            t.now < LastSet(crashed, after, timing, sid, LastSet(INITIAL, before, timing, sid, 0)) + 15_000)
  {
    var s := After(INITIAL, before, timing);
    var crashed := Next(s, Crash(n), timing);
    RunKeepsInvariant(INITIAL, before, timing);
    InvariantGivesOneOwner(s, timing, sid);
    forall c ensures !Claims(crashed, c, sid) {
      VanishedHolderLeavesNoClaim(s, n, sid, timing, c);
    }
    hide Next;
    hide Enabled;
    ExpiryFollowsLastSet(INITIAL, before, timing, sid, 0);
    ExpiryFollowsLastSet(crashed, after, timing, sid, LastSet(INITIAL, before, timing, sid, 0));
    StaysUnclaimed(crashed, after, timing, sid);
  }

  // ----- the timing assumption is necessary -----

  lemma {:induction false} RunExtends(s: State, steps: seq<Step>, timing: Timing, step: Step)
    requires Run(s, steps, timing) && Enabled(After(s, steps, timing), step, timing)
    ensures Run(s, steps + [step], timing)
    ensures After(s, steps + [step], timing) == Next(After(s, steps, timing), step, timing)
    decreases |steps|
  {
    if steps == [] {
      assert steps + [step] == [step];
    } else {
      RunExtends(Next(s, steps[0], timing), steps[1..], timing, step);
      assert (steps + [step])[1..] == steps[1..] + [step];
    }
  }

  /** Extends a run from the initial state that has reached `t` by one step. */
  lemma Then(steps: seq<Step>, t: State, step: Step, timing: Timing) returns (steps': seq<Step>, t': State)
    requires Run(INITIAL, steps, timing) && After(INITIAL, steps, timing) == t
    requires Enabled(t, step, timing)
    ensures Run(INITIAL, steps', timing) && After(INITIAL, steps', timing) == t' == Next(t, step, timing)
  {
    RunExtends(INITIAL, steps, timing, step);
    steps', t' := steps + [step], Next(t, step, timing);
  }

  /** The only node is starting `sid`, has no loops, and its refresh task has just run. */
  function Lonely(now: Time, sid: Sid): State {
    State(now, map[sid := TTL], map[0 := Node(map[sid := 0], {}, Idle(now))], {}, [])
  }

  /** Refreshing an empty set of loops, the node can let time pass until the start delay is used up. */
  lemma {:induction false} PassTime(steps: seq<Step>, now: nat, sid: Sid, timing: Timing) returns (steps': seq<Step>)
    requires 1 <= timing.period && now <= timing.start
    requires Run(INITIAL, steps, timing) && After(INITIAL, steps, timing) == Lonely(now, sid)
    ensures Run(INITIAL, steps', timing) && After(INITIAL, steps', timing) == Lonely(timing.start, sid)
    decreases timing.start - now
  {
    steps' := steps;
    if now < timing.start {
      hide Run;
      hide After;
      hide Next;
      hide Enabled;
      LonelyCycle(now, sid, timing);
      var t := Lonely(now, sid);
      steps', t := Then(steps', t, Tick(1), timing);
      steps', t := Then(steps', t, Snapshot(0), timing);
      steps', t := Then(steps', t, Execute(0), timing);
      steps' := PassTime(steps', now + 1, sid, timing);
    }
  }

  lemma LonelyCycle(now: nat, sid: Sid, timing: Timing)
    requires 1 <= timing.period && now < timing.start
    ensures var s := Lonely(now, sid);
      && Enabled(s, Tick(1), timing)
      && var s1 := Next(s, Tick(1), timing);
      && Enabled(s1, Snapshot(0), timing)
      && var s2 := Next(s1, Snapshot(0), timing);
      && Enabled(s2, Execute(0), timing)
      && Next(s2, Execute(0), timing) == Lonely(now + 1, sid)
  {
    var s2 := Next(Next(Lonely(now, sid), Tick(1), timing), Snapshot(0), timing);
    assert s2.nodes[0].phase == Flushing({}, now + 1);
    assert SetAll(s2.redis, {}, now + 1, TTL) == s2.redis;
  }

  /** The only node runs `sid`, whose key has not been refreshed since it was claimed at time 0. */
  function Unrefreshed(now: Time, sid: Sid, phase: Phase): State {
    State(now, map[sid := TTL], map[0 := Node(map[], {sid}, phase)], {}, [])
  }

  /** A snapshot taken just before the registration misses the loop. */
  lemma RegisterTooLate(timing: Timing, sid: Sid) returns (steps: seq<Step>)
    requires 1 <= timing.period && sid != ""
    ensures Run(INITIAL, steps, timing)
    ensures After(INITIAL, steps, timing) == Unrefreshed(timing.start, sid, Flushing({}, timing.start))
  {
    var t: State;
    steps, t := Then([], INITIAL, Boot(0), timing);
    steps, t := Then(steps, t, Acquire(0, sid), timing);
    assert t == Lonely(0, sid);
    steps := PassTime(steps, 0, sid, timing);
    steps, t := Then(steps, Lonely(timing.start, sid), Snapshot(0), timing);
    steps, t := Then(steps, t, Register(0, sid), timing);
    assert t.nodes[0].phase.batch == {} && t.nodes[0].loops == {sid} && t.nodes[0].starting == map[];
    assert t.nodes == map[0 := Node(map[], {sid}, Flushing({}, timing.start))];
  }

  /** One refresh later the loop is due. */
  lemma MissOneRefresh(timing: Timing, sid: Sid) returns (steps: seq<Step>)
    requires 1 <= timing.period && sid != ""
    ensures Run(INITIAL, steps, timing)
    ensures var now := timing.start + timing.flush + timing.period;
      After(INITIAL, steps, timing) == Unrefreshed(now, sid, Flushing({sid}, now))
  {
    hide Run;
    hide After;
    hide Next;
    hide Enabled;
    steps := RegisterTooLate(timing, sid);
    var t := After(INITIAL, steps, timing);
    UnrefreshedCycle(t.now, sid, timing);
    steps, t := Then(steps, t, Tick(timing.flush), timing);
    steps, t := Then(steps, t, Execute(0), timing);
    steps, t := Then(steps, t, Tick(timing.period), timing);
    steps, t := Then(steps, t, Snapshot(0), timing);
  }

  lemma UnrefreshedCycle(now: Time, sid: Sid, timing: Timing)
    requires sid != ""
    ensures var s := Unrefreshed(now, sid, Flushing({}, now));
      && Enabled(s, Tick(timing.flush), timing)
      && var s1 := Next(s, Tick(timing.flush), timing);
      && Enabled(s1, Execute(0), timing)
      && var s2 := Next(s1, Execute(0), timing);
      && Enabled(s2, Tick(timing.period), timing)
      && var s3 := Next(s2, Tick(timing.period), timing);
      && Enabled(s3, Snapshot(0), timing)
      && var later := now + timing.flush + timing.period;
      Next(s3, Snapshot(0), timing) == Unrefreshed(later, sid, Flushing({sid}, later))
  {
    var s1 := Next(Unrefreshed(now, sid, Flushing({}, now)), Tick(timing.flush), timing);
    var s2 := Next(s1, Execute(0), timing);
    assert s2 == Unrefreshed(s1.now, sid, Idle(s1.now));
    var s3 := Next(s2, Tick(timing.period), timing);
    assert Batch(s3.nodes[0]) == {sid};
  }

  /** The loop is popped when the refresh is due, its node vanishes, and the deletion is as late as can be. */
  lemma PopAsLateAsPossible(timing: Timing, sid: Sid) returns (steps: seq<Step>)
    requires 1 <= timing.period && sid != ""
    ensures Run(INITIAL, steps, timing)
    ensures var due := timing.start + timing.period + 2 * timing.flush;
      After(INITIAL, steps, timing)
      == State(due + timing.delete, map[sid := TTL], map[], {Deletion(0, sid, due)}, [{sid}])
  {
    hide Run;
    hide After;
    hide Next;
    hide Enabled;
    steps := MissOneRefresh(timing, sid);
    var t := After(INITIAL, steps, timing);
    PopAndVanish(t.now, sid, timing);
    steps, t := Then(steps, t, Tick(timing.flush), timing);
    steps, t := Then(steps, t, Pop(0, sid), timing);
    steps, t := Then(steps, t, Crash(0), timing);
    steps, t := Then(steps, t, Tick(timing.delete), timing);
  }

  lemma PopAndVanish(now: Time, sid: Sid, timing: Timing)
    ensures var s := Unrefreshed(now, sid, Flushing({sid}, now));
      && Enabled(s, Tick(timing.flush), timing)
      && var s1 := Next(s, Tick(timing.flush), timing);
      && Enabled(s1, Pop(0, sid), timing)
      && var s2 := Next(s1, Pop(0, sid), timing);
      && Enabled(s2, Crash(0), timing)
      && var s3 := Next(s2, Crash(0), timing);
      && Enabled(s3, Tick(timing.delete), timing)
      && var due := now + timing.flush;
      Next(s3, Tick(timing.delete), timing)
      == State(due + timing.delete, map[sid := TTL], map[], {Deletion(0, sid, due)}, [{sid}])
  {
    var s1 := Next(Unrefreshed(now, sid, Flushing({sid}, now)), Tick(timing.flush), timing);
    var s2 := Next(s1, Pop(0, sid), timing);
    assert s2.deletions == {Deletion(0, sid, now + timing.flush)};
    assert Next(s2, Crash(0), timing).nodes == map[];
  }

  /** If the delays do not fit into one lease, some run has two owners: node 1 takes over the expired key,
      the late deletion removes it, and node 2 takes over as well. */
  lemma TwoOwnersWhenTooSlow(timing: Timing, sid: Sid) returns (steps: seq<Step>)
    requires 1 <= timing.period && !timing.Fits() && sid != ""
    ensures Run(INITIAL, steps, timing) && !OneOwner(After(INITIAL, steps, timing), sid)
  {
    steps := PopAsLateAsPossible(timing, sid);
    var t := After(INITIAL, steps, timing);
    var late := Deletion(0, sid, timing.start + timing.period + 2 * timing.flush);
    steps, t := Then(steps, t, Boot(1), timing);
    steps, t := Then(steps, t, Acquire(1, sid), timing);
    steps, t := Then(steps, t, Delete(late), timing);
    steps, t := Then(steps, t, Boot(2), timing);
    steps, t := Then(steps, t, Acquire(2, sid), timing);
    assert Holds(t, 1, sid) && Holds(t, 2, sid);
  }

  /** The exact condition for mutual exclusion. */
  lemma ExclusionExactlyWhenTimingFits(timing: Timing, sid: Sid)
    requires 1 <= timing.period && sid != ""
    ensures timing.start + timing.period + 2 * timing.flush + timing.delete < 15_000 <==>
            forall steps :: Run(INITIAL, steps, timing) ==> OneOwner(After(INITIAL, steps, timing), sid)
  {
    if timing.Fits() {
      forall steps | Run(INITIAL, steps, timing) {
        EveryRunHasOneOwner(steps, timing, sid);
      }
    } else {
      var steps := TwoOwnersWhenTooSlow(timing, sid);
    }
  }

  // ----- what giving up means -----

  /** A node that closes a conversation, gives up starting it, or vanishes does not hold it any more. */
  lemma ReleasedIsNotHeld(s: State, step: Step, timing: Timing, n: NodeId, sid: Sid)
    requires timing.Fits() && Inv(s, timing) && Enabled(s, step, timing) && Releases(step, n, sid)
    ensures !Holds(Next(s, step, timing), n, sid)
    ensures step.Pop? ==> Deletion(n, sid, s.now) in Next(s, step, timing).deletions
  {
    if step.Pop? {
      assert Claims(s, Running(n), sid);
      assert !Claims(s, Starting(n), sid);
    } else if step.AbortStart? {
      assert Claims(s, Starting(n), sid);
      assert !Claims(s, Running(n), sid);
    }
  }

  /** Once the key is not live, any node can take the conversation over, and then holds it. */
  lemma TakeoverSucceeds(s: State, timing: Timing, n: NodeId, sid: Sid)
    requires n in s.nodes && sid != "" && !Live(s.redis, sid, s.now)
    ensures Enabled(s, Acquire(n, sid), timing)
    ensures var t := Next(s, Acquire(n, sid), timing);
      && Holds(t, n, sid) && Live(t.redis, sid, t.now)
      && Enabled(t, Register(n, sid), timing) && sid in Next(t, Register(n, sid), timing).nodes[n].loops
  {
  }

  /** As long as it is live, nobody can. */
  lemma TakeoverFails(s: State, timing: Timing, n: NodeId, sid: Sid)
    requires Enabled(s, Acquire(n, sid), timing) && Live(s.redis, sid, s.now)
    ensures Next(s, Acquire(n, sid), timing) == s
  {
  }

  /** Commands that land, or are lost, are no longer in flight; a new node starts with nothing. */
  lemma CommandsLaw(s: State, step: Step, timing: Timing)
    requires Enabled(s, step, timing)
    ensures var t := Next(s, step, timing);
      && (step.Delete? ==> t.deletions == s.deletions - {step.d} && step.d.sid !in t.redis)
      && (step.LoseDelete? ==> t.deletions == s.deletions - {step.d} && t.redis == s.redis)
      && (step.OrphanLost? ==> |t.orphans| == |s.orphans| - 1 && t.redis == s.redis)
      && (step.OrphanLands? ==> |t.orphans| == |s.orphans| - 1)
      && (step.Boot? ==> step.n in t.nodes && t.nodes[step.n] == Node(map[], {}, Idle(s.now)))
      && (step.Crash? ==> t.nodes == s.nodes - {step.n} && t.redis == s.redis && t.deletions == s.deletions)
  {
  }
}
