/** Looking up a user, migrating the user from the old settings on the way, under the 30-second creation lock.
    The lock is the lease of module Lease; releasing it deletes the key without checking who set it. */
module UserCreation {
  import opened Lease

  type UserId = nat
  type Process = nat

  const TTL: nat := 30_000

  /** How a lookup ends. */
  datatype Answer = Found | Missing | Raised

  /** The stages of `get_user_by_id_async`; those from `Checking` to `Vanished` are the critical section. `Vanished`:
      the process is gone, and the delete that it may have sent is still in flight. */
  datatype Stage = Waiting | Checking(since: Time) | Reading(since: Time) | Migrating(since: Time)
                 | Releasing(since: Time, answer: Answer) | Vanished(since: Time) | Returned(answer: Answer)

  datatype Lookup = Lookup(user: UserId, stage: Stage)

  /** `migrated` maps users with old settings to their `already_migrated` flag. `limit` is the longest time a process
      spends in its critical section, up to the landing of its delete. */
  datatype State = State(now: Time, limit: nat, locks: Store<UserId>, users: set<UserId>, migrated: map<UserId, bool>,
                         lookups: map<Process, Lookup>)

  datatype Step =
    | Tick(dt: nat)
    | Call(p: Process, u: UserId)
    | TryLock(p: Process)
    | Recheck(p: Process)
    | ReadSettings(p: Process)
    | CommitMigration(p: Process)
    | FailMigration(p: Process)
    | Release(p: Process)
    | Vanish(p: Process)
    | DeleteLands(p: Process)
    | DeleteLost(p: Process)
    | Downgrade(u: UserId)
    | SignUp(u: UserId)

  predicate Critical(stage: Stage) {
    !stage.Waiting? && !stage.Returned?
  }

  predicate Decided(stage: Stage) {
    stage.Releasing? || stage.Returned?
  }

  predicate Enabled(s: State, step: Step) {
    match step
    case Tick(dt) => forall p :: p in s.lookups && Critical(s.lookups[p].stage) ==>
        s.now + dt < s.lookups[p].stage.since + s.limit
    case Call(p, _) => p !in s.lookups
    case TryLock(p) => p in s.lookups && s.lookups[p].stage.Waiting?
    case Recheck(p) => p in s.lookups && s.lookups[p].stage.Checking?
    case ReadSettings(p) => p in s.lookups && s.lookups[p].stage.Reading?
    case CommitMigration(p) => p in s.lookups && s.lookups[p].stage.Migrating?
    case FailMigration(p) => p in s.lookups && s.lookups[p].stage.Migrating?
    case Release(p) => p in s.lookups && s.lookups[p].stage.Releasing?
    case Vanish(p) => p in s.lookups && !s.lookups[p].stage.Vanished?
    case DeleteLands(p) => p in s.lookups && s.lookups[p].stage.Vanished?
    case DeleteLost(p) => p in s.lookups && s.lookups[p].stage.Vanished?
    case Downgrade(u) => u in s.users
    // `create_user` serves people that have neither a user row nor old settings
    case SignUp(u) => u !in s.users && u !in s.migrated
  }

  function Go(s: State, p: Process, stage: Stage): State
    requires p in s.lookups
  {
    s.(lookups := s.lookups[p := s.lookups[p].(stage := stage)])
  }

  /** Whether the insertion of the user row collides with an existing one. */
  predicate Collides(s: State, p: Process)
    requires p in s.lookups
  {
    s.lookups[p].user in s.users
  }

  function Next(s: State, step: Step): State
    requires Enabled(s, step)
  {
    match step
    case Tick(dt) => s.(now := s.now + dt)
    case Call(p, u) => s.(lookups := s.lookups[p := Lookup(u, if u in s.users then Returned(Found) else Waiting)])
    case TryLock(p) =>
      var (locks, acquired) := SetIfAbsent(s.locks, s.lookups[p].user, s.now, TTL);
      if acquired then Go(s, p, Checking(s.now)).(locks := locks) else s
    case Recheck(p) =>
      var since := s.lookups[p].stage.since;
      Go(s, p, if s.lookups[p].user in s.users then Releasing(since, Found) else Reading(since))
    case ReadSettings(p) =>
      var u, since := s.lookups[p].user, s.lookups[p].stage.since;
      Go(s, p, if u in s.migrated && !s.migrated[u] then Migrating(since) else Releasing(since, Missing))
    case CommitMigration(p) =>
      var u, since := s.lookups[p].user, s.lookups[p].stage.since;
      if Collides(s, p) then Go(s, p, Releasing(since, Raised))
      else Go(s, p, Releasing(since, Found)).(users := s.users + {u}, migrated := s.migrated[u := true])
    case FailMigration(p) => Go(s, p, Releasing(s.lookups[p].stage.since, Raised))
    case Release(p) => Go(s, p, Returned(s.lookups[p].stage.answer)).(locks := Remove(s.locks, s.lookups[p].user))
    case Vanish(p) =>
      if s.lookups[p].stage.Releasing? then Go(s, p, Vanished(s.lookups[p].stage.since))
      else s.(lookups := s.lookups - {p})
    case DeleteLands(p) => s.(lookups := s.lookups - {p}, locks := Remove(s.locks, s.lookups[p].user))
    case DeleteLost(p) => s.(lookups := s.lookups - {p})
    case Downgrade(u) => s.(users := s.users - {u}, migrated := s.migrated[u := false])
    case SignUp(u) => s.(users := s.users + {u})
  }

  ghost predicate Run(s: State, steps: seq<Step>)
    decreases |steps|
  {
    steps == [] || (Enabled(s, steps[0]) && Run(Next(s, steps[0]), steps[1..]))
  }

  ghost function After(s: State, steps: seq<Step>): State
    requires Run(s, steps)
    decreases |steps|
  {
    if steps == [] then s else After(Next(s, steps[0]), steps[1..])
  }

  /** A database before anybody looks anything up: nobody has both a user row and settings still to be migrated. */
  predicate Initial(s: State) {
    && s.locks == map[] && s.lookups == map[]
    && forall u :: u in s.migrated && !s.migrated[u] ==> u !in s.users
  }

  // ----- the invariant -----

  predicate InSection(s: State, p: Process, u: UserId) {
    p in s.lookups && s.lookups[p].user == u && Critical(s.lookups[p].stage)
  }

  ghost predicate Exclusive(s: State) {
    forall p, q, u :: InSection(s, p, u) && InSection(s, q, u) ==> p == q
  }

  ghost predicate Inv(s: State) {
    && Exclusive(s)
    && (forall u :: u in s.migrated && !s.migrated[u] ==> u !in s.users)
    && (forall p, u :: InSection(s, p, u) ==> Covered(s, p, u))
    && (forall p :: (p in s.lookups && s.lookups[p].stage.Migrating?) ==>
        s.lookups[p].user in s.migrated && !s.migrated[s.lookups[p].user])
  }

  /** Nobody gets into a critical section except by a successful `SET NX`. */
  lemma EnteringTakesTheLock(s: State, step: Step, p: Process, u: UserId)
    requires Enabled(s, step) && InSection(Next(s, step), p, u)
    ensures InSection(s, p, u) || (step == TryLock(p) && !Live(s.locks, u, s.now))
    ensures InSection(s, p, u) ==> Next(s, step).lookups[p].stage.since == s.lookups[p].stage.since
    ensures !InSection(s, p, u) ==>
        Next(s, step).lookups[p].stage.since == s.now && Next(s, step).locks == s.locks[u := s.now + TTL]
  {
  }

  /** A process in its section holds the lock, for as long as it may stay. */
  ghost predicate Covered(s: State, p: Process, u: UserId)
    requires InSection(s, p, u)
  {
    && s.lookups[p].stage.since <= s.now < s.lookups[p].stage.since + s.limit
    && u in s.locks && s.locks[u] == s.lookups[p].stage.since + TTL
  }

  lemma StepKeepsLocks(s: State, step: Step, p: Process, u: UserId)
    requires 0 < s.limit <= TTL && Inv(s) && Enabled(s, step) && InSection(Next(s, step), p, u)
    ensures Covered(Next(s, step), p, u)
    ensures forall q :: InSection(Next(s, step), q, u) ==> q == p
  {
    EnteringTakesTheLock(s, step, p, u);
    assert step.Release? || step.DeleteLands? ==> InSection(s, step.p, s.lookups[step.p].user);
    forall q | InSection(Next(s, step), q, u) ensures q == p {
      EnteringTakesTheLock(s, step, q, u);
    }
  }

  lemma StepKeepsInv(s: State, step: Step)
    requires 0 < s.limit <= TTL && Inv(s) && Enabled(s, step)
    ensures Inv(Next(s, step)) && Next(s, step).limit == s.limit
  {
    var t := Next(s, step);
    forall p, u | InSection(t, p, u) ensures Covered(t, p, u) {
      StepKeepsLocks(s, step, p, u);
    }
    forall p, q, u | InSection(t, p, u) && InSection(t, q, u) ensures p == q {
      StepKeepsLocks(s, step, p, u);
    }
    assert step.CommitMigration? ==> InSection(s, step.p, s.lookups[step.p].user);
    forall p | p in t.lookups && t.lookups[p].stage.Migrating?
      ensures t.lookups[p].user in t.migrated && !t.migrated[t.lookups[p].user]
    {
      assert InSection(s, p, t.lookups[p].user);
    }
  }

  lemma {:induction false} RunKeepsInv(s: State, steps: seq<Step>)
    requires 0 < s.limit <= TTL && Inv(s) && Run(s, steps)
    ensures Inv(After(s, steps)) && After(s, steps).limit == s.limit
    decreases |steps|
  {
    if steps != [] {
      StepKeepsInv(s, steps[0]);
      RunKeepsInv(Next(s, steps[0]), steps[1..]);
    }
  }

  // ----- results -----

  /** With critical sections no longer than the lease, at most one process per user is in its critical section, and
      no migration ever runs into an existing user row. */
  lemma OneMigrationAtATime(s: State, steps: seq<Step>, p: Process, q: Process, u: UserId)
    requires Initial(s) && 0 < s.limit <= 30_000 && Run(s, steps)
    ensures var t := After(s, steps);
      && (InSection(t, p, u) && InSection(t, q, u) ==> p == q)
      && ((p in t.lookups && t.lookups[p].stage.Migrating?) ==> !Collides(t, p))
  {
    RunKeepsInv(s, steps);
  }

  /** Without that bound two processes may be in the section at once. */
  lemma TwoInSectionWhenTooSlow(s: State, u: UserId)
    requires Initial(s) && TTL < s.limit && u !in s.users
    ensures var s2 := Next(Next(s, Call(0, u)), Call(1, u));
      && Enabled(s2, TryLock(0))
      && var s3 := Next(s2, TryLock(0));
      && Enabled(s3, Tick(TTL))
      && var s4 := Next(s3, Tick(TTL));
      && Enabled(s4, TryLock(1))
      && var s5 := Next(s4, TryLock(1));
      && InSection(s5, 0, u) && InSection(s5, 1, u)
  {
    var s3 := Next(Next(Next(s, Call(0, u)), Call(1, u)), TryLock(0));
    assert s3.locks == map[u := s.now + TTL];
  }

  predicate Commits(s: State, step: Step, u: UserId) {
    step.CommitMigration? && Enabled(s, step) && s.lookups[step.p].user == u && !Collides(s, step.p)
  }

  lemma {:induction false} StaysMigrated(s: State, steps: seq<Step>, u: UserId)
    requires Run(s, steps) && u in s.migrated && s.migrated[u]
    requires forall k :: 0 <= k < |steps| ==> steps[k] != Downgrade(u)
    ensures var t := After(s, steps); u in t.migrated && t.migrated[u]
    decreases |steps|
  {
    if steps != [] {
      assert steps[0] != Downgrade(u);
      StaysMigrated(Next(s, steps[0]), steps[1..], u);
    }
  }

  /** `migrate_user` commits at most once per user between downgrades. */
  lemma CommitsAreSeparated(s: State, first: Step, middle: seq<Step>, second: Step, u: UserId)
    requires 0 < s.limit <= TTL && Inv(s) && Commits(s, first, u)
    requires Run(Next(s, first), middle) && Commits(After(Next(s, first), middle), second, u)
    ensures exists k :: 0 <= k < |middle| && middle[k] == Downgrade(u)
  {
    var s1 := Next(s, first);
    StepKeepsInv(s, first);
    RunKeepsInv(s1, middle);
    if forall k :: 0 <= k < |middle| ==> middle[k] != Downgrade(u) {
      StaysMigrated(s1, middle, u);
    }
  }

  /** The second look at the user row, under the lock: only a process that sees no row goes on to read old settings. */
  lemma ReadingSawNoRow(s: State, step: Step, p: Process)
    requires Enabled(s, step) && (p in s.lookups ==> !s.lookups[p].stage.Reading?)
    requires p in Next(s, step).lookups && Next(s, step).lookups[p].stage.Reading?
    ensures step == Recheck(p) && s.lookups[p].user !in s.users
  {
  }

  /** What a lookup reports is so when it makes up its mind: a found user has a row, a missing one has no unmigrated
      settings, and by `ReadingSawNoRow` it had no row when the lock holder looked; errors come from failed migrations
      only. */
  lemma AnswersAreTrue(s: State, step: Step, p: Process, answer: Answer)
    requires 0 < s.limit <= TTL && Inv(s) && Enabled(s, step)
    requires p in s.lookups ==> !Decided(s.lookups[p].stage)
    requires p in Next(s, step).lookups && Decided(Next(s, step).lookups[p].stage)
    requires Next(s, step).lookups[p].stage.answer == answer
    ensures var t := Next(s, step); var u := t.lookups[p].user;
      match answer
      case Found => u in t.users
      case Missing => step == ReadSettings(p) && !(u in t.migrated && !t.migrated[u])
      case Raised => step == FailMigration(p)
  {
  }

  // ----- whole lookups -----

  lemma RunCons(s: State, step: Step, rest: seq<Step>)
    requires Enabled(s, step) && Run(Next(s, step), rest)
    ensures Run(s, [step] + rest) && After(s, [step] + rest) == After(Next(s, step), rest)
  {
    assert ([step] + rest)[1..] == rest;
  }

  /** What a lookup that nobody interrupts does, step by step. */
  function LookupSteps(s: State, p: Process, u: UserId): seq<Step> {
    if u in s.users then [Call(p, u)] else [Call(p, u)] + LockedSteps(s, p, u)
  }

  function LockedSteps(s: State, p: Process, u: UserId): seq<Step> {
    [TryLock(p), Recheck(p), ReadSettings(p)] +
    if u in s.migrated && !s.migrated[u] then [CommitMigration(p), Release(p)] else [Release(p)]
  }

  /** Whenever the lock is free, an uninterrupted lookup succeeds. It finds an existing user; it migrates a user with
      old settings and finds them; it reports anybody else as missing. It leaves the lock free and changes nothing
      else. */
  lemma UninterruptedLookup(s: State, p: Process, u: UserId)
    requires p !in s.lookups && !Live(s.locks, u, s.now)
    ensures Run(s, LookupSteps(s, p, u))
    ensures var t := After(s, LookupSteps(s, p, u));
      var migratable := u in s.migrated && !s.migrated[u];
      && p in t.lookups
      && t.lookups[p] == Lookup(u, Returned(if u in s.users || migratable then Found else Missing))
      && t.users == (if migratable && u !in s.users then s.users + {u} else s.users)
      && t.migrated == (if migratable && u !in s.users then s.migrated[u := true] else s.migrated)
      && !Live(t.locks, u, t.now)
  {
    var s1 := Next(s, Call(p, u));
    if u in s.users {
      RunCons(s, Call(p, u), []);
      assert LookupSteps(s, p, u) == [Call(p, u)] + [];
    } else {
      assert LockedSteps(s1, p, u) == LockedSteps(s, p, u);
      hide LockedSteps;
      UnderTheLock(s1, p, u);
      RunCons(s, Call(p, u), LockedSteps(s, p, u));
    }
  }

  lemma UnderTheLock(s: State, p: Process, u: UserId)
    requires p in s.lookups && s.lookups[p] == Lookup(u, Waiting) && u !in s.users && !Live(s.locks, u, s.now)
    ensures Run(s, LockedSteps(s, p, u))
    ensures var t := After(s, LockedSteps(s, p, u));
      var migratable := u in s.migrated && !s.migrated[u];
      && p in t.lookups && t.lookups[p] == Lookup(u, Returned(if migratable then Found else Missing))
      && t.users == (if migratable then s.users + {u} else s.users)
      && t.migrated == (if migratable then s.migrated[u := true] else s.migrated)
      && !Live(t.locks, u, t.now)
  {
    var s1 := Next(s, TryLock(p));
    var s2 := Next(s1, Recheck(p));
    var s3 := Next(s2, ReadSettings(p));
    var rest := LockedSteps(s, p, u)[3..];
    if u in s.migrated && !s.migrated[u] {
      var s4 := Next(s3, CommitMigration(p));
      RunCons(s4, Release(p), []);
      RunCons(s3, CommitMigration(p), [Release(p)] + []);
      assert rest == [CommitMigration(p)] + ([Release(p)] + []);
    } else {
      RunCons(s3, Release(p), []);
      assert rest == [Release(p)] + [];
    }
    RunCons(s2, ReadSettings(p), rest);
    RunCons(s1, Recheck(p), [ReadSettings(p)] + rest);
    RunCons(s, TryLock(p), [Recheck(p)] + ([ReadSettings(p)] + rest));
    assert LockedSteps(s, p, u) == [TryLock(p)] + ([Recheck(p)] + ([ReadSettings(p)] + rest));
  }

  /** A downgraded user is gone, and the next lookup migrates them again. */
  lemma DowngradedUserComesBack(s: State, p: Process, u: UserId)
    requires Enabled(s, Downgrade(u)) && p !in s.lookups && !Live(s.locks, u, s.now)
    ensures var d := Next(s, Downgrade(u));
      && u !in d.users
      && Run(d, [Call(p, u), TryLock(p), Recheck(p), ReadSettings(p), CommitMigration(p), Release(p)])
      && var t := After(d, [Call(p, u), TryLock(p), Recheck(p), ReadSettings(p), CommitMigration(p), Release(p)]);
      && u in t.users && p in t.lookups && t.lookups[p].stage == Returned(Found)
  {
    var d := Next(s, Downgrade(u));
    UninterruptedLookup(d, p, u);
    assert LookupSteps(d, p, u) ==
        [Call(p, u), TryLock(p), Recheck(p), ReadSettings(p), CommitMigration(p), Release(p)];
  }

  /** A sign-up leaves a user whom every lookup finds at once. */
  lemma SignedUpUserIsFound(s: State, p: Process, u: UserId)
    requires Enabled(s, SignUp(u)) && p !in s.lookups
    ensures var t := Next(Next(s, SignUp(u)), Call(p, u)); t.lookups[p] == Lookup(u, Returned(Found))
  {
  }

  /** A migration that fails leaves no trace but its answer, and can be tried again. */
  lemma FailedMigrationLeavesNoTrace(s: State, p: Process)
    requires Enabled(s, FailMigration(p))
    ensures var t := Next(s, FailMigration(p));
      && t.users == s.users && t.migrated == s.migrated && t.locks == s.locks
      && t.lookups[p].stage == Releasing(s.lookups[p].stage.since, Raised)
  {
  }

  /** A migration that runs into an existing row raises an error and changes nothing; by `OneMigrationAtATime` this does
      not happen while sections are shorter than the lease. */
  lemma CollisionLaw(s: State, p: Process)
    requires Enabled(s, CommitMigration(p)) && s.lookups[p].user in s.users
    ensures var t := Next(s, CommitMigration(p));
      && t.users == s.users && t.migrated == s.migrated && t.locks == s.locks
      && t.lookups[p].stage == Releasing(s.lookups[p].stage.since, Raised)
  {
  }

  /** A process that vanishes leaves the lock as it is. If it was about to release it, its delete may still land and
      free the lock, or be lost; otherwise it is just gone. */
  lemma VanishLaw(s: State, p: Process)
    requires Enabled(s, Vanish(p))
    ensures var t := Next(s, Vanish(p));
      && t.locks == s.locks && t.users == s.users && t.migrated == s.migrated
      && if s.lookups[p].stage.Releasing? then
           && Enabled(t, DeleteLands(p)) && Enabled(t, DeleteLost(p))
           && s.lookups[p].user !in Next(t, DeleteLands(p)).locks && p !in Next(t, DeleteLands(p)).lookups
           && Next(t, DeleteLost(p)).locks == s.locks && p !in Next(t, DeleteLost(p)).lookups
         else p !in t.lookups
  {
  }
}
