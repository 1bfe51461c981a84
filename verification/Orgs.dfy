/** Organisations, memberships and each user's current organisation: cascade deletion of an organisation and what all
    operations together keep true. */
module Orgs {
  import opened Options

  type OrgId = nat
  type UserId = nat
  type ConversationId = nat
  type RowId = nat

  /** The tables with a nullable organisation column. */
  datatype Table = BillingSessions | CustomSecrets | ApiKeys | SlackConversation | SlackUsers | StripeCustomers

  datatype Saas = Saas(user: UserId, org: OrgId)

  /** `users` maps each user to the current organisation; `tasks` are the start tasks, by conversation. */
  datatype Db = Db(orgs: set<OrgId>, users: map<UserId, OrgId>, members: set<(OrgId, UserId)>,
                   owned: map<(Table, RowId), Option<OrgId>>, saas: map<ConversationId, Saas>,
                   metadata: set<ConversationId>, tasks: map<RowId, ConversationId>)

  // ----- what deleting an organisation means -----

  predicate ConversationOf(db: Db, c: ConversationId, org: OrgId) {
    c in db.saas && db.saas[c].org == org
  }

  /** No row mentions the organisation any more. */
  ghost predicate Unmentioned(db: Db, org: OrgId) {
    && org !in db.orgs
    && (forall u :: u in db.users ==> db.users[u] != org)
    && (forall m :: m in db.members ==> m.0 != org)
    && (forall r :: r in db.owned ==> db.owned[r] != Some(org))
    && (forall c :: c in db.saas ==> db.saas[c].org != org)
  }

  /** Everything that belongs to other organisations, or to none, is as before. */
  ghost predicate OthersUntouched(before: Db, org: OrgId, after: Db) {
    && after.orgs == before.orgs - {org}
    && (forall m: (OrgId, UserId) :: m.0 != org ==> (m in after.members <==> m in before.members))
    && (forall r :: r in after.owned ==> r in before.owned && after.owned[r] == before.owned[r])
    && (forall r :: r in before.owned && before.owned[r] != Some(org) ==> r in after.owned)
    && (forall c :: c in after.saas ==> c in before.saas && after.saas[c] == before.saas[c])
    && (forall c :: c in before.saas && before.saas[c].org != org ==> c in after.saas)
    && (forall c :: c in after.metadata <==> c in before.metadata && !ConversationOf(before, c, org))
    && (forall t :: t in after.tasks <==> t in before.tasks && !ConversationOf(before, before.tasks[t], org))
    && (forall t :: t in after.tasks ==> after.tasks[t] == before.tasks[t])
  }

  /** Users of the organisation have moved to another organisation of theirs; all other users stay. */
  ghost predicate UsersMoved(before: Db, org: OrgId, after: Db) {
    && after.users.Keys == before.users.Keys
    && (forall u :: u in before.users && before.users[u] != org ==> after.users[u] == before.users[u])
    && (forall u :: u in before.users && before.users[u] == org ==>
        after.users[u] != org && (after.users[u], u) in before.members)
  }

  ghost predicate Deleted(before: Db, org: OrgId, after: Db) {
    Unmentioned(after, org) && OthersUntouched(before, org, after) && UsersMoved(before, org, after)
  }

  /** Users who would be left without an organisation. */
  ghost predicate Orphan(db: Db, org: OrgId, u: UserId) {
    u in db.users && db.users[u] == org && forall m :: m in db.members && m.1 == u ==> m.0 == org
  }

  // ----- the cascade, statement by statement -----

  datatype Outcome = Gone | NotFound | Orphaned(users: set<UserId>) | Error

  /** `teams` are the organisations that have a team in LiteLLM, which no rollback brings back. */
  class OrgStore {
    var db: Db
    var teams: set<OrgId>

    /** `delete_org_cascade`. `failing` is the statement that fails, if any; number 13 is the call to LiteLLM and
        number 14 the commit. The session is private until it is committed, so a rollback just drops it. */
    method DeleteOrgCascade(org: OrgId, failing: Option<nat>) returns (outcome: Outcome)
      modifies this`db, this`teams
      ensures teams == if outcome.Gone? || (outcome.Error? && failing == Some(14)) then old(teams) - {org}
                       else old(teams)
      ensures outcome.Gone? ==> Deleted(old(db), org, db)
      ensures !outcome.Gone? ==> db == old(db)
      ensures outcome.NotFound? <==> org !in old(db).orgs
      ensures outcome.Orphaned? ==> outcome.users != {} && forall u :: u in outcome.users <==> Orphan(db, org, u)
      ensures outcome.Gone? ==> failing.None? || failing.value > 14
      ensures org in old(db).orgs && (failing.None? || failing.value > 14) ==>
                (forall u :: !Orphan(old(db), org, u)) ==> outcome.Gone?
    {
      hide Deleted;
      hide UsersMoved;
      hide Statement;
      if org !in db.orgs {
        return NotFound;
      }
      var session := db;
      for n := 0 to 9
        invariant session == DeleteRows(db, org, n)
        invariant failing.Some? ==> failing.value >= n
      {
        if failing == Some(n) { return Error; }
        session := Statement(session, org, n);
      }
      ConversationsAreGone(db, org, 9);
      var orphans := set u |
        u in session.users && session.users[u] == org && forall m :: m in session.members && m.1 == u ==> m.0 == org;
      assert forall u :: u in orphans <==> Orphan(session, org, u);
      if failing == Some(9) { return Error; }
      if orphans != {} {
        return Orphaned(orphans);
      }
      if failing == Some(10) { return Error; }
      session := ReassignUsers(session, org);
      CascadeDeletes(db, org, session);
      if failing == Some(11) { return Error; }
      session := session.(members := (set m | m in session.members && m.0 != org));
      if failing == Some(12) { return Error; }
      session := session.(orgs := session.orgs - {org});
      if failing == Some(13) { return Error; }
      teams := teams - {org};
      if failing == Some(14) { return Error; }
      db := session;
      outcome := Gone;
    }
  }

  function DropOwned(db: Db, table: Table, org: OrgId): (r: Db)
    ensures r == db.(owned := r.owned)
  {
    db.(owned := map r | r in db.owned && !(r.0 == table && db.owned[r] == Some(org)) :: db.owned[r])
  }

  /** The nine delete statements, in order. The first two look up the conversations of the organisation, so they come
      before the conversations' own rows are deleted. */
  function Statement(db: Db, org: OrgId, n: nat): Db {
    match n
    case 0 => db.(metadata := set c | c in db.metadata && !ConversationOf(db, c, org))
    case 1 => db.(tasks := map t | t in db.tasks && !ConversationOf(db, db.tasks[t], org) :: db.tasks[t])
    case 2 => DropOwned(db, BillingSessions, org)
    case 3 => db.(saas := map c | c in db.saas && db.saas[c].org != org :: db.saas[c])
    case 4 => DropOwned(db, CustomSecrets, org)
    case 5 => DropOwned(db, ApiKeys, org)
    case 6 => DropOwned(db, SlackConversation, org)
    case 7 => DropOwned(db, SlackUsers, org)
    case 8 => DropOwned(db, StripeCustomers, org)
    case _ => db
  }

  function DeleteRows(db: Db, org: OrgId, n: nat): Db {
    if n == 0 then db else Statement(DeleteRows(db, org, n - 1), org, n - 1)
  }

  /** The number of the statement that clears a table. */
  function StatementFor(table: Table): nat {
    match table
    case BillingSessions => 2
    case CustomSecrets => 4
    case ApiKeys => 5
    case SlackConversation => 6
    case SlackUsers => 7
    case StripeCustomers => 8
  }

  /** What is left of the tables after the first `n` statements. */
  ghost predicate OwnedLeft(db: Db, org: OrgId, n: nat, d: Db) {
    && (forall r :: r in d.owned ==> r in db.owned && d.owned[r] == db.owned[r])
    && (forall r :: r in db.owned ==> (r in d.owned <==> !(StatementFor(r.0) < n && db.owned[r] == Some(org))))
  }

  lemma DropLeaves(db: Db, org: OrgId, d: Db, table: Table)
    requires OwnedLeft(db, org, StatementFor(table), d)
    ensures OwnedLeft(db, org, StatementFor(table) + 1, DropOwned(d, table, org))
  {
    var e := DropOwned(d, table, org);
    forall r | r in db.owned
      ensures r in e.owned <==> !(StatementFor(r.0) < StatementFor(table) + 1 && db.owned[r] == Some(org))
    {
      assert StatementFor(r.0) == StatementFor(table) <==> r.0 == table;
    }
  }

  lemma {:induction false} OwnedRowsAreGone(db: Db, org: OrgId, n: nat)
    requires n <= 9
    ensures OwnedLeft(db, org, n, DeleteRows(db, org, n))
  {
    if n != 0 {
      OwnedRowsAreGone(db, org, n - 1);
      var d := DeleteRows(db, org, n - 1);
      match n - 1 {
        case 2 => DropLeaves(db, org, d, BillingSessions);
        case 4 => DropLeaves(db, org, d, CustomSecrets);
        case 5 => DropLeaves(db, org, d, ApiKeys);
        case 6 => DropLeaves(db, org, d, SlackConversation);
        case 7 => DropLeaves(db, org, d, SlackUsers);
        case 8 => DropLeaves(db, org, d, StripeCustomers);
        case _ =>
          assert DeleteRows(db, org, n).owned == d.owned;
          assert forall t :: StatementFor(t) != n - 1;
      }
    }
  }

  lemma {:induction false} ConversationsAreGone(db: Db, org: OrgId, n: nat)
    requires n <= 9
    ensures var d := DeleteRows(db, org, n);
      && d.orgs == db.orgs && d.users == db.users && d.members == db.members
      && d.metadata == (if n > 0 then set c | c in db.metadata && !ConversationOf(db, c, org) else db.metadata)
      && d.tasks == (if n > 1
                     then map t | t in db.tasks && !ConversationOf(db, db.tasks[t], org) :: db.tasks[t]
                     else db.tasks)
      && d.saas == (if n > 3 then map c | c in db.saas && db.saas[c].org != org :: db.saas[c] else db.saas)
  {
    hide DropOwned;
    if n != 0 {
      ConversationsAreGone(db, org, n - 1);
      var d := DeleteRows(db, org, n - 1);
      assert n <= 4 ==> forall c :: ConversationOf(d, c, org) <==> ConversationOf(db, c, org);
    }
  }

  /** The batch update: each affected user gets some other membership's organisation. */
  method ReassignUsers(db: Db, org: OrgId) returns (r: Db)
    requires forall u :: !Orphan(db, org, u)
    ensures r == db.(users := r.users) && UsersMoved(db, org, r)
  {
    var todo := set u | u in db.users && db.users[u] == org;
    var users := db.users;
    while todo != {}
      invariant todo <= db.users.Keys && users.Keys == db.users.Keys
      invariant forall u :: u in todo ==> db.users[u] == org
      invariant forall u :: u in db.users && (db.users[u] != org || u in todo) ==> users[u] == db.users[u]
      invariant forall u :: u in db.users && db.users[u] == org && u !in todo ==>
          users[u] != org && (users[u], u) in db.members
    {
      var u :| u in todo;
      assert !Orphan(db, org, u);
      var m :| m in db.members && m.1 == u && m.0 != org;
      users := users[u := m.0];
      todo := todo - {u};
    }
    r := db.(users := users);
  }

  /** The last statements, which remove the memberships and the organisation, complete the deletion. */
  lemma CascadeDeletes(db: Db, org: OrgId, moved: Db)
    requires moved == DeleteRows(db, org, 9).(users := moved.users) && UsersMoved(DeleteRows(db, org, 9), org, moved)
    ensures Deleted(db, org, moved.(members := (set m | m in moved.members && m.0 != org), orgs := moved.orgs - {org}))
  {
    hide DeleteRows;
    OwnedRowsAreGone(db, org, 9);
    ConversationsAreGone(db, org, 9);
  }

  // ----- all operations together -----

  /** `switching` are membership checks of `switch_org` whose update is still to come. `taken` are all organisation ids
      ever used; new ids are fresh. */
  datatype State = State(db: Db, switching: set<(UserId, OrgId)>, taken: set<OrgId>)

  datatype Op =
    | CreateUser(u: UserId)
    | PersistOrg(org: OrgId, owner: UserId)
    | Join(org: OrgId, u: UserId)
    | Attach(row: (Table, RowId), org: OrgId)
    | Converse(c: ConversationId, u: UserId)
    | StartTask(t: RowId, c: ConversationId)
    | CheckSwitch(u: UserId, org: OrgId)
    | UpdateCurrent(u: UserId, org: OrgId)
    | DeleteOrg(org: OrgId, result: Db)

  ghost predicate Enabled(s: State, op: Op) {
    match op
    case CreateUser(u) => u !in s.db.users && u !in s.taken
    case PersistOrg(org, owner) => org !in s.taken && owner in s.db.users
    case Join(org, u) => org in s.db.orgs && u in s.db.users
    case Attach(_, org) => org in s.db.orgs
    case Converse(c, u) => c !in s.db.saas && u in s.db.users
    case StartTask(t, c) => t !in s.db.tasks && c in s.db.metadata
    case CheckSwitch(u, org) => org in s.db.orgs && (org, u) in s.db.members
    case UpdateCurrent(u, org) => (u, org) in s.switching
    case DeleteOrg(org, result) => org in s.db.orgs && Deleted(s.db, org, result)
  }

  ghost function Next(s: State, op: Op): State
    requires Enabled(s, op)
  {
    var db := s.db;
    match op
    // the personal organisation has the id of its user
    case CreateUser(u) =>
      s.(db := db.(orgs := db.orgs + {u}, users := db.users[u := u], members := db.members + {(u, u)}),
         taken := s.taken + {u})
    case PersistOrg(org, owner) =>
      s.(db := db.(orgs := db.orgs + {org}, members := db.members + {(org, owner)}), taken := s.taken + {org})
    case Join(org, u) => s.(db := db.(members := db.members + {(org, u)}))
    case Attach(row, org) => s.(db := db.(owned := db.owned[row := Some(org)]))
    // a conversation belongs to its user's current organisation
    case Converse(c, u) => s.(db := db.(saas := db.saas[c := Saas(u, db.users[u])], metadata := db.metadata + {c}))
    case StartTask(t, c) => s.(db := db.(tasks := db.tasks[t := c]))
    case CheckSwitch(u, org) => s.(switching := s.switching + {(u, org)})
    // the foreign key rejects an organisation that is gone by now, and an unknown user is reported
    case UpdateCurrent(u, org) =>
      var s1 := s.(switching := s.switching - {(u, org)});
      if org in db.orgs && u in db.users then s1.(db := db.(users := db.users[u := org])) else s1
    case DeleteOrg(_, result) => s.(db := result)
  }

  const INITIAL := State(Db({}, map[], {}, map[], map[], {}, map[]), {}, {})

  ghost predicate CurrentIsMember(db: Db) {
    forall u :: u in db.users ==> (db.users[u], u) in db.members
  }

  /** The foreign keys. */
  ghost predicate References(db: Db) {
    && (forall u :: u in db.users ==> db.users[u] in db.orgs)
    && (forall m :: m in db.members ==> m.0 in db.orgs && m.1 in db.users)
    && (forall r :: r in db.owned && db.owned[r].Some? ==> db.owned[r].value in db.orgs)
    && (forall c :: c in db.saas ==> db.saas[c].org in db.orgs && db.saas[c].user in db.users)
  }

  /** All data of a conversation comes with the row that says whose it is, although no foreign key demands it. */
  ghost predicate ConversationsOwned(db: Db) {
    && (forall c :: c in db.metadata <==> c in db.saas)
    && (forall t :: t in db.tasks ==> db.tasks[t] in db.saas)
  }

  ghost predicate Inv(s: State) {
    && CurrentIsMember(s.db) && References(s.db) && ConversationsOwned(s.db)
    && s.db.orgs <= s.taken
    && (forall x :: x in s.switching ==> x.1 in s.taken)
    && (forall x :: x in s.switching && x.1 in s.db.orgs ==> (x.1, x.0) in s.db.members)
  }

  /** Deleting an organisation leaves no dangling reference and keeps everybody in an organisation of theirs. */
  lemma DeletionKeepsInv(db: Db, org: OrgId, after: Db)
    requires CurrentIsMember(db) && References(db) && Deleted(db, org, after)
    ensures CurrentIsMember(after) && References(after)
  {
  }

  /** It leaves no conversation data without an owner either. */
  lemma DeletionKeepsConversationsOwned(db: Db, org: OrgId, after: Db)
    requires ConversationsOwned(db) && Deleted(db, org, after)
    ensures ConversationsOwned(after)
  {
    forall c ensures c in after.metadata <==> c in after.saas {
      assert c in db.metadata <==> c in db.saas;
    }
    forall t | t in after.tasks ensures after.tasks[t] in after.saas {
      assert t in db.tasks && !ConversationOf(db, db.tasks[t], org);
    }
  }

  lemma OpKeepsInv(s: State, op: Op)
    requires Inv(s) && Enabled(s, op)
    ensures Inv(Next(s, op))
  {
    if op.DeleteOrg? {
      DeletionKeepsInv(s.db, op.org, op.result);
      DeletionKeepsConversationsOwned(s.db, op.org, op.result);
    }
  }

  ghost predicate Run(s: State, ops: seq<Op>)
    decreases |ops|
  {
    ops == [] || (Enabled(s, ops[0]) && Run(Next(s, ops[0]), ops[1..]))
  }

  ghost function After(s: State, ops: seq<Op>): State
    requires Run(s, ops)
    decreases |ops|
  {
    if ops == [] then s else After(Next(s, ops[0]), ops[1..])
  }

  lemma {:induction false} RunKeepsInv(s: State, ops: seq<Op>)
    requires Inv(s) && Run(s, ops)
    ensures Inv(After(s, ops))
    decreases |ops|
  {
    if ops != [] {
      OpKeepsInv(s, ops[0]);
      RunKeepsInv(Next(s, ops[0]), ops[1..]);
    }
  }

  /** In every reachable state each user's current organisation exists and is one of the user's memberships, although
      switching checks the membership before, and not together with, the update. */
  lemma CurrentOrgIsAlwaysAMembership(ops: seq<Op>, u: UserId)
    requires Run(INITIAL, ops)
    ensures var db := After(INITIAL, ops).db;
      u in db.users ==> db.users[u] in db.orgs && (db.users[u], u) in db.members
  {
    RunKeepsInv(INITIAL, ops);
  }

  /** And no row is left that refers to an organisation, a user or a conversation that is gone. */
  lemma NothingDangles(ops: seq<Op>)
    requires Run(INITIAL, ops)
    ensures References(After(INITIAL, ops).db) && ConversationsOwned(After(INITIAL, ops).db)
  {
    RunKeepsInv(INITIAL, ops);
  }

  /** Removing a membership, as `remove_user_from_org` does, keeps the invariant exactly when it is not the current
      organisation of that user. */
  lemma RemovingMembership(db: Db, org: OrgId, u: UserId)
    requires CurrentIsMember(db) && u in db.users
    ensures CurrentIsMember(db.(members := db.members - {(org, u)})) <==> db.users[u] != org
  {
    var after := db.(members := db.members - {(org, u)});
    if db.users[u] == org {
      assert (after.users[u], u) !in after.members;
    }
  }

  // ----- what the operations do -----

  /** A member who switches gets the organisation as current; only the update changes anything. */
  lemma SwitchTakesEffect(s: State, u: UserId, org: OrgId)
    requires Inv(s) && org in s.db.orgs && (org, u) in s.db.members
    ensures Enabled(s, CheckSwitch(u, org))
    ensures var s1 := Next(s, CheckSwitch(u, org));
      && s1.db == s.db && Enabled(s1, UpdateCurrent(u, org))
      && Next(s1, UpdateCurrent(u, org)).db == s.db.(users := s.db.users[u := org])
  {
  }

  /** A switch to an organisation that was deleted in the meantime has no effect. */
  lemma LateSwitchFails(s: State, u: UserId, org: OrgId)
    requires Enabled(s, UpdateCurrent(u, org)) && org !in s.db.orgs
    ensures Next(s, UpdateCurrent(u, org)).db == s.db
  {
  }

  /** A new user is the member of an organisation of their own, which is current; the owner of a new organisation is its
      member and keeps the current one; a conversation belongs to the current organisation of its user. */
  lemma CreationLaw(s: State, op: Op)
    requires Enabled(s, op)
    ensures var db, after := s.db, Next(s, op).db;
      match op
      case CreateUser(u) =>
        && after.users == db.users[u := u] && after.orgs == db.orgs + {u} && after.members == db.members + {(u, u)}
      case PersistOrg(org, owner) =>
        && after.users == db.users && after.orgs == db.orgs + {org} && after.members == db.members + {(org, owner)}
      case Join(org, u) =>
        && after.users == db.users && after.orgs == db.orgs && after.members == db.members + {(org, u)}
      case Attach(row, org) => after == db.(owned := db.owned[row := Some(org)])
      case Converse(c, u) =>
        && after.saas == db.saas[c := Saas(u, db.users[u])] && after.metadata == db.metadata + {c}
        && after.users == db.users && after.tasks == db.tasks
      case StartTask(t, c) => after == db.(tasks := db.tasks[t := c])
      case _ => true
  {
  }
}
