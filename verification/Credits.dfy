/** The LiteLLM side of migrating a user to a personal organisation and back: budgets, spending and key teams.
    Money is modelled by reals. */
module Credits {
  import opened Options

  const UNLIMITED: real := 1000000000.0

  datatype User = User(maxBudget: Option<real>, spend: Option<real>)
  datatype Member = Member(maxInTeam: Option<real>, spend: real)
  datatype Team = Team(maxBudget: real, spend: real, member: Option<Member>)
  datatype KeyTeam = DefaultTeam | OrgTeam

  /** `team` is the personal organisation's team, if it exists. */
  datatype Account = Account(user: User, team: Option<Team>, keys: map<string, KeyTeam>)

  datatype Settings = Settings(version: int, margin: Option<real>)

  function Max(a: real, b: real): real {
    if a >= b then a else b
  }

  function OrZero(r: Option<real>): real {
    if r.Some? then r.value else 0.0
  }

  /** Before version 4 the billing margin was applied outside LiteLLM; migrating folds it into the budget. */
  function Factor(settings: Settings): real {
    if settings.version < 4 && settings.margin.Some? && settings.margin.value != 0.0 && settings.margin.value != 1.0
    then settings.margin.value else 1.0
  }

  function AllTo(keys: map<string, KeyTeam>, team: KeyTeam): (r: map<string, KeyTeam>)
    ensures r.Keys == keys.Keys && forall k :: k in keys ==> r[k] == team
  {
    map k | k in keys :: team
  }

  // ----- migrate_entries, request by request -----

  predicate AlreadyMigrated(a: Account) {
    a.user.maxBudget.None? || a.user.maxBudget.value == UNLIMITED
  }

  function CreditsOf(a: Account, settings: Settings): real {
    Max(OrZero(a.user.maxBudget) * Factor(settings) - OrZero(a.user.spend) * Factor(settings), 0.0)
  }

  /** `/team/new`, or `/team/update` if the team exists; the latter leaves the spending alone. */
  function CreateTeam(a: Account, budget: real): Account {
    a.(team := Some(if a.team.None? then Team(budget, 0.0, None) else a.team.value.(maxBudget := budget)))
  }

  function SetUnlimited(a: Account): Account {
    a.(user := a.user.(maxBudget := Some(UNLIMITED)))
  }

  /** `/team/member_add`; somebody who is in the team already stays as they are. */
  function AddMember(a: Account, budget: real): Account {
    if a.team.None? || a.team.value.member.Some? then a
    else a.(team := Some(a.team.value.(member := Some(Member(Some(budget), 0.0)))))
  }

  /** The first `n` of the four requests. */
  function MigrateSteps(a: Account, settings: Settings, n: nat): Account {
    if AlreadyMigrated(a) || n == 0 then a
    else
      var credits := CreditsOf(a, settings);
      var a1 := CreateTeam(a, credits);
      var a2 := if n >= 2 then SetUnlimited(a1) else a1;
      var a3 := if n >= 3 then AddMember(a2, credits) else a2;
      if n >= 4 then a3.(keys := AllTo(a3.keys, OrgTeam)) else a3
  }

  function Migrate(a: Account, settings: Settings): Account {
    MigrateSteps(a, settings, 4)
  }

  // ----- downgrade_entries -----

  /** Budget and spending of the user within the team, or of the team if the membership has no budget. */
  function TeamBudget(team: Team): (real, real) {
    if team.member.Some? && team.member.value.maxInTeam.Some?
    then (team.member.value.maxInTeam.value, team.member.value.spend)
    else (team.maxBudget, team.spend)
  }

  function Downgrade(a: Account): Account {
    if a.team.None? then a
    else
      var (budget, spend) := TeamBudget(a.team.value);
      Account(User(Some(budget), Some(spend)), None, AllTo(a.keys, DefaultTeam))
  }

  // ----- what LiteLLM itself does -----

  /** A request that costs `x` is charged to the team and the membership if there is a team, else to the user. */
  function Spend(a: Account, x: real): Account {
    match a.team
    case None => a.(user := a.user.(spend := Some(OrZero(a.user.spend) + x)))
    case Some(team) =>
      var member := if team.member.Some? then Some(team.member.value.(spend := team.member.value.spend + x)) else None;
      a.(team := Some(team.(spend := team.spend + x, member := member)))
  }

  function Remaining(a: Account): real {
    match a.team
    case None => Max(OrZero(a.user.maxBudget) - OrZero(a.user.spend), 0.0)
    case Some(team) => var (budget, spend) := TeamBudget(team); Max(budget - spend, 0.0)
  }

  // ----- single operations -----

  lemma ScaledMax(f: real, b: real, s: real)
    requires f >= 0.0
    ensures Max(b * f - s * f, 0.0) == f * Max(b - s, 0.0)
  {
    assert b * f - s * f == f * (b - s);
    if b >= s {
      assert f * (b - s) >= 0.0;
    } else {
      assert f * (b - s) <= 0.0;
    }
  }

  /** A first migration multiplies the credit by the margin; a second one changes nothing. */
  lemma MigrateScales(a: Account, settings: Settings)
    requires a.team.None? && Factor(settings) >= 0.0
    ensures Remaining(Migrate(a, settings)) == (if AlreadyMigrated(a) then 1.0 else Factor(settings)) * Remaining(a)
    ensures Migrate(Migrate(a, settings), settings) == Migrate(a, settings)
  {
    ScaledMax(Factor(settings), OrZero(a.user.maxBudget), OrZero(a.user.spend));
  }

  /** A migration that breaks off after any of its requests and is tried again gives the same credit, and, unless it
      broke off after the user was marked as migrated, the same account. */
  lemma InterruptedMigration(a: Account, settings: Settings, n: nat)
    requires a.team.None? && n <= 4
    ensures Remaining(Migrate(MigrateSteps(a, settings, n), settings)) == Remaining(Migrate(a, settings))
    ensures n < 2 ==> Migrate(MigrateSteps(a, settings, n), settings) == Migrate(a, settings)
  {
  }

  /** Undoing a migration removes the team and moves all keys back. */
  lemma CycleRestoresKeys(a: Account, settings: Settings)
    requires a.team.None? && !AlreadyMigrated(a)
    ensures var b := Downgrade(Migrate(a, settings));
      b.team.None? && (forall k :: k in b.keys ==> b.keys[k] == DefaultTeam) && b.keys.Keys == a.keys.Keys
  {
  }

  /** One cycle conserves the credit exactly when the margin does not apply or there is nothing to scale. */
  lemma CycleConservesExactly(a: Account, settings: Settings)
    requires a.team.None? && !AlreadyMigrated(a) && Factor(settings) >= 0.0
    ensures var b := Downgrade(Migrate(a, settings));
      && Remaining(b) == Factor(settings) * Remaining(a)
      && (Remaining(b) == Remaining(a) <==> Factor(settings) == 1.0 || Remaining(a) == 0.0)
  {
    CycleScales(a, settings);
    FixedByScaling(Factor(settings), Remaining(a), Remaining(Downgrade(Migrate(a, settings))));
  }

  lemma CycleScales(a: Account, settings: Settings)
    requires a.team.None? && !AlreadyMigrated(a) && Factor(settings) >= 0.0
    ensures Remaining(Downgrade(Migrate(a, settings))) == Factor(settings) * Remaining(a)
  {
    MigrateScales(a, settings);
    DowngradeKeepsCredit(Migrate(a, settings));
  }

  lemma DowngradeKeepsCredit(a: Account)
    ensures Remaining(Downgrade(a)) == Remaining(a)
  {
  }

  lemma FixedByScaling(f: real, c: real, r: real)
    requires r == f * c
    ensures r == c <==> f == 1.0 || c == 0.0
  {
    if r == c && c != 0.0 {
      assert (f * c) / c == f;
      assert c / c == 1.0;
    }
  }

  // ----- any number of cycles -----

  datatype Op = DoMigrate | DoDowngrade | DoSpend(x: real)

  function Apply(a: Account, settings: Settings, op: Op): Account {
    match op
    case DoMigrate => Migrate(a, settings)
    case DoDowngrade => Downgrade(a)
    case DoSpend(x) => Spend(a, x)
  }

  function ApplyAll(a: Account, settings: Settings, ops: seq<Op>): Account
    decreases |ops|
  {
    if ops == [] then a else ApplyAll(Apply(a, settings, ops[0]), settings, ops[1..])
  }

  function TotalSpent(ops: seq<Op>): real {
    if ops == [] then 0.0 else (if ops[0].DoSpend? then ops[0].x else 0.0) + TotalSpent(ops[1..])
  }

  predicate NothingNegative(ops: seq<Op>) {
    forall i :: 0 <= i < |ops| && ops[i].DoSpend? ==> ops[i].x >= 0.0
  }

  /** A team exists only while the user is marked as migrated. */
  predicate Consistent(a: Account) {
    a.team.Some? ==> a.user.maxBudget == Some(UNLIMITED)
  }

  lemma OneOperation(a: Account, settings: Settings, op: Op)
    requires Consistent(a) && Factor(settings) == 1.0 && (op.DoSpend? ==> op.x >= 0.0)
    ensures Consistent(Apply(a, settings, op))
    ensures Remaining(Apply(a, settings, op)) == if op.DoSpend? then Max(Remaining(a) - op.x, 0.0) else Remaining(a)
  {
  }

  /** Conservation: over any sequence of migrations, downgrades and requests, the credit shrinks by exactly what was
      spent, and never below zero. */
  lemma {:induction false} CreditIsConserved(a: Account, settings: Settings, ops: seq<Op>)
    requires Consistent(a) && Factor(settings) == 1.0 && NothingNegative(ops)
    ensures Remaining(ApplyAll(a, settings, ops)) == Max(Remaining(a) - TotalSpent(ops), 0.0)
    decreases |ops|
  {
    if ops != [] {
      OneOperation(a, settings, ops[0]);
      CreditIsConserved(Apply(a, settings, ops[0]), settings, ops[1..]);
      SpentIsNotNegative(ops[1..]);
    }
  }

  lemma {:induction false} SpentIsNotNegative(ops: seq<Op>)
    requires NothingNegative(ops)
    ensures TotalSpent(ops) >= 0.0
  {
    if ops != [] {
      SpentIsNotNegative(ops[1..]);
    }
  }

  // ----- where the keys are -----

  /** A first migration moves every key to the organisation's team, a downgrade moves every key back. */
  lemma KeysAreMoved(a: Account, settings: Settings)
    ensures Migrate(a, settings).keys.Keys == a.keys.Keys && Downgrade(a).keys.Keys == a.keys.Keys
    ensures !AlreadyMigrated(a) ==> forall k :: k in a.keys ==> Migrate(a, settings).keys[k] == OrgTeam
    ensures a.team.Some? ==> forall k :: k in a.keys ==> Downgrade(a).keys[k] == DefaultTeam
  {
  }

  /** All keys are where the budget is. */
  predicate KeysFollowTeam(a: Account) {
    forall k :: k in a.keys ==> a.keys[k] == if a.team.Some? then OrgTeam else DefaultTeam
  }

  /** So it is after any sequence of migrations, downgrades and requests, and no key is lost. */
  lemma {:induction false} KeysAlwaysFollowTeam(a: Account, settings: Settings, ops: seq<Op>)
    requires KeysFollowTeam(a)
    ensures KeysFollowTeam(ApplyAll(a, settings, ops)) && ApplyAll(a, settings, ops).keys.Keys == a.keys.Keys
    decreases |ops|
  {
    if ops != [] {
      KeysAreMoved(a, settings);
      KeysAlwaysFollowTeam(Apply(a, settings, ops[0]), settings, ops[1..]);
    }
  }

  // ----- the amounts -----

  /** What a first migration leaves: the user unlimited, and a team and a membership with the same fresh budget. */
  lemma MigratedAmounts(a: Account, settings: Settings)
    requires a.team.None? && a.user.maxBudget.Some? && a.user.maxBudget.value != UNLIMITED
    ensures var r := Migrate(a, settings);
      var budget := Factor(settings) * Max(a.user.maxBudget.value - OrZero(a.user.spend), 0.0);
      && r.user == User(Some(1000000000.0), a.user.spend)
      && (Factor(settings) >= 0.0 ==> r.team == Some(Team(budget, 0.0, Some(Member(Some(budget), 0.0)))))
  {
    if Factor(settings) >= 0.0 {
      ScaledMax(Factor(settings), a.user.maxBudget.value, OrZero(a.user.spend));
      assert CreditsOf(a, settings) == Factor(settings) * Max(a.user.maxBudget.value - OrZero(a.user.spend), 0.0);
    }
    hide CreditsOf;
  }

  /** Before version 4 a margin other than 0 and 1 is applied, later none. */
  lemma FactorLaw(settings: Settings)
    ensures settings.version >= 4 || settings.margin.None? || settings.margin.value == 0.0 ==> Factor(settings) == 1.0
    ensures settings.version < 4 && settings.margin.Some? && settings.margin.value != 0.0 ==>
      Factor(settings) == settings.margin.value
  {
  }

  /** Once the second request, which marks the user, is through, an interrupted migration is not tried again; the keys
      move with the fourth and last. */
  lemma RequestsLaw(a: Account, settings: Settings, n: nat)
    requires !AlreadyMigrated(a)
    ensures AlreadyMigrated(MigrateSteps(a, settings, n)) <==> n >= 2
    ensures n >= 1 ==> MigrateSteps(a, settings, n).team.Some?
    ensures n < 4 ==> MigrateSteps(a, settings, n).keys == a.keys
    ensures a.team.None? && 1 <= n < 3 ==> MigrateSteps(a, settings, n).team.value.member.None?
  {
  }

  /** What a downgrade leaves: budget and spending of the membership if it has a budget of its own, else of the team. */
  lemma DowngradedAmounts(a: Account, team: Team)
    requires a.team == Some(team)
    ensures var r := Downgrade(a);
      && r.team.None?
      && match team.member
         case Some(Member(Some(budget), spend)) => r.user == User(Some(budget), Some(spend))
         case _ => r.user == User(Some(team.maxBudget), Some(team.spend))
  {
  }

  /** A migration that finds a team renews its budget, and leaves its spending and its membership alone. */
  lemma ExistingTeamIsRenewed(a: Account, settings: Settings, team: Team)
    requires a.team == Some(team) && !AlreadyMigrated(a)
    ensures var r := Migrate(a, settings);
      && r.team.Some? && r.team.value.spend == team.spend
      && r.team.value.maxBudget == CreditsOf(a, settings)
      && (team.member.Some? ==> r.team.value.member == team.member)
  {
  }

  // ----- the imperative form -----

  class LiteLlm {
    var user: User
    var team: Option<Team>
    var keys: map<string, KeyTeam>

    function View(): Account
      reads this
    {
      Account(user, team, keys)
    }

    method UpdateUserKeys(to: KeyTeam)
      modifies this`keys
      ensures keys == AllTo(old(keys), to)
    {
      var todo := keys.Keys;
      while todo != {}
        invariant todo <= old(keys).Keys && keys.Keys == old(keys).Keys
        invariant forall k :: k in keys && k !in todo ==> keys[k] == to
      {
        var key :| key in todo;
        keys := keys[key := to];
        todo := todo - {key};
      }
    }

    method MigrateEntries(settings: Settings) returns (done: bool)
      modifies this
      ensures View() == Migrate(old(View()), settings)
      ensures done <==> !AlreadyMigrated(old(View()))
    {
      var maxBudget := OrZero(user.maxBudget);
      var spend := OrZero(user.spend);
      if settings.version < 4 && settings.margin.Some? && settings.margin.value != 0.0 && settings.margin.value != 1.0 {
        maxBudget := maxBudget * settings.margin.value;
        spend := spend * settings.margin.value;
      }
      if user.maxBudget.None? || user.maxBudget.value == UNLIMITED {
        return false;
      }
      var credits := Max(maxBudget - spend, 0.0);
      if team.None? {
        team := Some(Team(credits, 0.0, None));
      } else {
        team := Some(team.value.(maxBudget := credits));
      }
      user := user.(maxBudget := Some(UNLIMITED));
      if team.value.member.None? {
        team := Some(team.value.(member := Some(Member(Some(credits), 0.0))));
      }
      UpdateUserKeys(OrgTeam);
      done := true;
    }

    method DowngradeEntries() returns (done: bool)
      modifies this
      ensures View() == Downgrade(old(View()))
      ensures done <==> old(team).Some?
    {
      if team.None? {
        return false;
      }
      var maxBudget, spend := team.value.maxBudget, team.value.spend;
      var membership := team.value.member;
      if membership.Some? && membership.value.maxInTeam.Some? {
        maxBudget, spend := membership.value.maxInTeam.value, membership.value.spend;
      }
      user := User(Some(maxBudget), Some(spend));
      UpdateUserKeys(DefaultTeam);
      team := None;
      done := true;
    }
  }
}
