/**
 "FORGE-X needs at least one active administrator" and "every user needs at least one role"
 (app/users/services.py), with any number of transactions interleaved.

 Deactivating a user and revoking the administrator role first run a locking read over the
 administrators' rows. It goes row by row, in any order: it waits while another transaction holds the
 row, locks it, and reads it as it is then. It is over when no active administrator is left that it
 has not passed; under REPEATABLE READ the range it has passed takes no new rows. A transaction can fail
 at any moment (a deadlock, for one). Activations, role additions and new users only add, so they are
 given no locks at all: they may commit at any moment.
 */
module Administrators {
  import opened Wrappers

  type UserId = nat
  type RoleId = nat
  type Tid = nat

  const ADMINISTRATOR: RoleId := 1

  datatype Account = Account(active: bool, roles: set<RoleId>)

  /** A row of `users`, and the rows of one user in `user_roles`. */
  datatype Lock = UserRow(user: UserId) | RoleRows(user: UserId)

  datatype Work = Deactivate(target: UserId) | Revoke(target: UserId, role: RoleId)

  /** `Ready` carries what the reads under lock returned: the roles held, and the active administrators. */
  datatype Phase =
    | Started
    | HeldRead(held: set<RoleId>)
    | Ready(held: set<RoleId>, admins: set<UserId>)
    | Finished

  /** `scanned`: the users whose rows the locking read has passed; `found`: those it returned. */
  datatype Txn = Txn(work: Work, phase: Phase, locks: set<Lock>, scanned: set<UserId>, found: set<UserId>)

  datatype Sys = Sys(accounts: map<UserId, Account>, txns: map<Tid, Txn>)

  predicate IsActiveAdmin(accounts: map<UserId, Account>, u: UserId) {
    u in accounts && accounts[u].active && ADMINISTRATOR in accounts[u].roles
  }

  /** The rows the locking read of _lock_active_admins returns. */
  function ActiveAdmins(accounts: map<UserId, Account>): set<UserId> {
    set u | u in accounts && IsActiveAdmin(accounts, u)
  }

  // ---------------------------------------------------------------------------
  // Steps
  // ---------------------------------------------------------------------------

  function At(s: Sys, tid: Tid, p: Phase): Sys
    requires tid in s.txns
  {
    s.(txns := s.txns[tid := s.txns[tid].(phase := p)])
  }

  /** COMMIT or ROLLBACK: the locks are released. */
  function End(s: Sys, tid: Tid): Sys
    requires tid in s.txns
  {
    s.(txns := s.txns[tid := s.txns[tid].(phase := Finished, locks := {})])
  }

  ghost predicate Begin(s: Sys, s': Sys, tid: Tid, w: Work) {
    tid !in s.txns && s' == s.(txns := s.txns[tid := Txn(w, Started, {}, {}, {})])
  }

  ghost predicate Acquire(s: Sys, s': Sys, tid: Tid, l: Lock) {
    && tid in s.txns && !s.txns[tid].phase.Finished?
    && (forall other | other in s.txns && other != tid :: l !in s.txns[other].locks)
    && s' == s.(txns := s.txns[tid := s.txns[tid].(locks := s.txns[tid].locks + {l})])
  }

  function Held(s: Sys, u: UserId): set<RoleId> {
    if u in s.accounts then s.accounts[u].roles else {}
  }

  /** SELECT role_id FROM user_roles WHERE user_id = ... FOR UPDATE, and the two checks on it. */
  ghost predicate ReadHeld(s: Sys, s': Sys, tid: Tid) {
    && tid in s.txns
    && var t := s.txns[tid];
    && t.phase.Started? && t.work.Revoke? && RoleRows(t.work.target) in t.locks
    && var held := Held(s, t.work.target);
    && s' == if t.work.role !in held || |held| == 1 then End(s, tid)
             else if t.work.role == ADMINISTRATOR then At(s, tid, HeldRead(held))
             else At(s, tid, Ready(held, {}))
  }

  /** In the locking read of _lock_active_admins. */
  predicate Scanning(t: Txn) {
    (t.phase.Started? && t.work.Deactivate?) || t.phase.HeldRead?
  }

  /** The locking read passes the rows of one user. */
  ghost predicate ScanRow(s: Sys, s': Sys, tid: Tid, u: UserId) {
    && tid in s.txns && Scanning(s.txns[tid])
    && UserRow(u) in s.txns[tid].locks && RoleRows(u) in s.txns[tid].locks
    && var t := s.txns[tid];
    && s' == s.(txns := s.txns[tid := t.(
                 scanned := t.scanned + {u},
                 found := if IsActiveAdmin(s.accounts, u) then t.found + {u} else t.found)])
  }

  /** It is over, and the check is made on what it returned. */
  ghost predicate ReadAdmins(s: Sys, s': Sys, tid: Tid) {
    && tid in s.txns
    && var t := s.txns[tid];
    && Scanning(t) && ActiveAdmins(s.accounts) <= t.scanned
    && s' == if t.found == {t.work.target} then End(s, tid)
             else At(s, tid, Ready(if t.phase.HeldRead? then t.phase.held else {}, t.found))
  }

  /** UPDATE users SET account_status = 'Deactivated': it needs the row itself. */
  ghost predicate CommitDeactivation(s: Sys, s': Sys, tid: Tid) {
    && tid in s.txns
    && var t := s.txns[tid];
    && t.phase.Ready? && t.work.Deactivate? && t.work.target in s.accounts && UserRow(t.work.target) in t.locks
    && s' == End(s, tid).(
               accounts := s.accounts[t.work.target := s.accounts[t.work.target].(active := false)])
  }

  /** DELETE FROM user_roles */
  ghost predicate CommitRevocation(s: Sys, s': Sys, tid: Tid) {
    && tid in s.txns
    && var t := s.txns[tid];
    && t.phase.Ready? && t.work.Revoke? && t.work.target in s.accounts && RoleRows(t.work.target) in t.locks
    && var a := s.accounts[t.work.target];
    && s' == End(s, tid).(accounts := s.accounts[t.work.target := a.(roles := a.roles - {t.work.role})])
  }

  ghost predicate Fail(s: Sys, s': Sys, tid: Tid) {
    tid in s.txns && s' == End(s, tid)
  }

  ghost predicate Activate(s: Sys, s': Sys, u: UserId) {
    u in s.accounts && s' == s.(accounts := s.accounts[u := s.accounts[u].(active := true)])
  }

  ghost predicate AddRole(s: Sys, s': Sys, u: UserId, role: RoleId) {
    u in s.accounts && s' == s.(accounts := s.accounts[u := s.accounts[u].(roles := s.accounts[u].roles + {role})])
  }

  /** A new user comes with a role. */
  ghost predicate CreateUser(s: Sys, s': Sys, u: UserId, role: RoleId) {
    u !in s.accounts && s' == s.(accounts := s.accounts[u := Account(true, {role})])
  }

  ghost predicate TxnStep(s: Sys, s': Sys, tid: Tid) {
    || ReadHeld(s, s', tid)
    || (exists u :: ScanRow(s, s', tid, u))
    || ReadAdmins(s, s', tid)
    || CommitDeactivation(s, s', tid)
    || CommitRevocation(s, s', tid)
    || Fail(s, s', tid)
  }

  ghost predicate Adds(s: Sys, s': Sys, u: UserId, role: RoleId) {
    Activate(s, s', u) || AddRole(s, s', u, role) || CreateUser(s, s', u, role)
  }

  ghost predicate Next(s: Sys, s': Sys) {
    || (exists tid, w :: Begin(s, s', tid, w))
    || (exists tid, l :: Acquire(s, s', tid, l))
    || (exists tid :: TxnStep(s, s', tid))
    || (exists u, role :: Adds(s, s', u, role))
  }

  ghost predicate StepAt(run: seq<Sys>, i: nat)
    requires i + 1 < |run|
  {
    Next(run[i], run[i + 1])
  }

  /** Any interleaving, from a state with an active administrator and a role for everyone. */
  ghost predicate IsRun(run: seq<Sys>) {
    && run != []
    && run[0].txns == map[] && Safe(run[0].accounts)
    && forall i | 0 <= i < |run| - 1 :: StepAt(run, i)
  }

  ghost predicate Safe(accounts: map<UserId, Account>) {
    && (exists u :: IsActiveAdmin(accounts, u))
    && (forall u | u in accounts :: accounts[u].roles != {})
  }

  // ---------------------------------------------------------------------------
  // The invariant
  // ---------------------------------------------------------------------------

  ghost predicate Exclusive(s: Sys) {
    forall a, b | a in s.txns && b in s.txns && a != b :: s.txns[a].locks !! s.txns[b].locks
  }

  /** What a transaction read under its locks can only have grown since. */
  ghost predicate ReadsHold(accounts: map<UserId, Account>, t: Txn) {
    && (t.work.Revoke? && (t.phase.HeldRead? || t.phase.Ready?) ==>
          && RoleRows(t.work.target) in t.locks
          && t.work.target in accounts && t.phase.held <= accounts[t.work.target].roles
          && t.work.role in t.phase.held && |t.phase.held| >= 2)
    && (t.phase.HeldRead? ==> t.work.Revoke? && t.work.role == ADMINISTRATOR)
    && (t.phase.Started? || t.phase.HeldRead? ==> ScanHolds(accounts, t))
    && (t.phase.Ready? && (t.work.Deactivate? || t.work.role == ADMINISTRATOR) ==>
          && t.phase.admins != {} && t.phase.admins != {t.work.target}
          && forall u | u in t.phase.admins ::
               IsActiveAdmin(accounts, u) && UserRow(u) in t.locks && RoleRows(u) in t.locks)
  }

  /** Whoever it returned is still locked and an administrator; if nobody yet, there is one it has not passed. */
  ghost predicate ScanHolds(accounts: map<UserId, Account>, t: Txn) {
    && (forall u | u in t.scanned :: UserRow(u) in t.locks && RoleRows(u) in t.locks)
    && t.found <= t.scanned
    && (forall u | u in t.found :: IsActiveAdmin(accounts, u))
    && (t.found != {} || exists w :: IsActiveAdmin(accounts, w) && w !in t.scanned)
  }

  ghost predicate Inv(s: Sys) {
    && Safe(s.accounts)
    && Exclusive(s)
    && forall tid | tid in s.txns :: ReadsHold(s.accounts, s.txns[tid])
  }

  /** Somebody else is among the locked administrators. */
  lemma AnotherAdmin(admins: set<UserId>, target: UserId) returns (u: UserId)
    requires admins != {} && admins != {target}
    ensures u in admins && u != target
  {
    assert admins == (admins - {target}) + (admins * {target});
    u :| u in admins - {target};
  }

  lemma OneOfTwo(held: set<RoleId>, role: RoleId)
    requires role in held && |held| >= 2
    ensures held - {role} != {}
  {
    assert held == (held - {role}) + {role};
  }

  /** A scan that has found nobody still has somebody ahead: who let the other transaction go on is locked by it. */
  lemma SomebodyAhead(accounts: map<UserId, Account>, after: map<UserId, Account>, t: Txn, o: Txn)
    requires t.locks !! o.locks && ReadsHold(accounts, t) && ScanHolds(accounts, o)
    requires t.phase.Ready? && (t.work.Deactivate? || t.work.role == ADMINISTRATOR)
    requires forall u | IsActiveAdmin(accounts, u) && u != t.work.target :: IsActiveAdmin(after, u)
    ensures exists w :: IsActiveAdmin(after, w) && w !in o.scanned
  {
    var w := AnotherAdmin(t.phase.admins, t.work.target);
    assert UserRow(w) in t.locks && UserRow(w) !in o.locks;
    assert IsActiveAdmin(after, w) && w !in o.scanned;
  }

  /** Another transaction's reads survive a change of one account, as far as it may touch what they locked. */
  lemma DeactivationKeepsReads(s: Sys, s': Sys, tid: Tid, other: Tid)
    requires Inv(s) && CommitDeactivation(s, s', tid) && other in s.txns && other != tid
    ensures ReadsHold(s'.accounts, s'.txns[other])
  {
    var t, o := s.txns[tid], s.txns[other];
    assert t.locks !! o.locks;
    assert ReadsHold(s.accounts, t) && ReadsHold(s.accounts, o);
    if o.phase.Started? || o.phase.HeldRead? {
      SomebodyAhead(s.accounts, s'.accounts, t, o);
    }
  }

  lemma RevocationKeepsReads(s: Sys, s': Sys, tid: Tid, other: Tid)
    requires Inv(s) && CommitRevocation(s, s', tid) && other in s.txns && other != tid
    ensures ReadsHold(s'.accounts, s'.txns[other])
  {
    var t, o := s.txns[tid], s.txns[other];
    assert t.locks !! o.locks;
    assert ReadsHold(s.accounts, t) && ReadsHold(s.accounts, o);
    assert forall u | IsActiveAdmin(s.accounts, u) && u != t.work.target :: IsActiveAdmin(s'.accounts, u);
    if t.work.role == ADMINISTRATOR {
      if o.phase.Started? || o.phase.HeldRead? {
        SomebodyAhead(s.accounts, s'.accounts, t, o);
      }
    } else {
      assert forall u | IsActiveAdmin(s.accounts, u) :: IsActiveAdmin(s'.accounts, u);
    }
  }

  lemma DeactivationKeepsInv(s: Sys, s': Sys, tid: Tid)
    requires Inv(s) && CommitDeactivation(s, s', tid)
    ensures Inv(s')
  {
    var t := s.txns[tid];
    assert ReadsHold(s.accounts, t);
    var u := AnotherAdmin(t.phase.admins, t.work.target);
    assert IsActiveAdmin(s'.accounts, u);
    forall other | other in s'.txns ensures ReadsHold(s'.accounts, s'.txns[other]) {
      if other != tid { DeactivationKeepsReads(s, s', tid, other); }
    }
  }

  lemma RevocationKeepsInv(s: Sys, s': Sys, tid: Tid)
    requires Inv(s) && CommitRevocation(s, s', tid)
    ensures Inv(s')
  {
    var t := s.txns[tid];
    assert ReadsHold(s.accounts, t);
    OneOfTwo(t.phase.held, t.work.role);
    assert s'.accounts[t.work.target].roles != {} by {
      var r :| r in t.phase.held - {t.work.role};
      assert r in s'.accounts[t.work.target].roles;
    }
    if t.work.role == ADMINISTRATOR {
      var u := AnotherAdmin(t.phase.admins, t.work.target);
      assert IsActiveAdmin(s'.accounts, u);
    } else {
      var u :| IsActiveAdmin(s.accounts, u);
      assert IsActiveAdmin(s'.accounts, u);
    }
    forall other | other in s'.txns ensures ReadsHold(s'.accounts, s'.txns[other]) {
      if other != tid { RevocationKeepsReads(s, s', tid, other); }
    }
  }

  /** A step that changes one transaction only, and takes no lock. */
  lemma OwnStepKeepsInv(s: Sys, s': Sys, tid: Tid)
    requires Inv(s) && tid in s.txns && s'.accounts == s.accounts && s'.txns.Keys == s.txns.Keys
    requires s'.txns[tid].locks <= s.txns[tid].locks && ReadsHold(s.accounts, s'.txns[tid])
    requires forall other | other in s.txns && other != tid :: s'.txns[other] == s.txns[other]
    ensures Inv(s')
  {
  }

  lemma ScanKeepsReads(s: Sys, s': Sys, tid: Tid, u: UserId)
    requires Inv(s) && ScanRow(s, s', tid, u)
    ensures ReadsHold(s'.accounts, s'.txns[tid])
  {
    assert ReadsHold(s.accounts, s.txns[tid]);
  }

  lemma ReadAdminsHolds(s: Sys, s': Sys, tid: Tid)
    requires Inv(s) && ReadAdmins(s, s', tid)
    ensures ReadsHold(s'.accounts, s'.txns[tid])
  {
    var t := s.txns[tid];
    assert ReadsHold(s.accounts, t);
    forall w | IsActiveAdmin(s.accounts, w) ensures w in t.scanned {
      assert w in ActiveAdmins(s.accounts);
    }
  }

  lemma ReadKeepsInv(s: Sys, s': Sys, tid: Tid)
    requires Inv(s) && TxnStep(s, s', tid) && !CommitDeactivation(s, s', tid) && !CommitRevocation(s, s', tid)
    ensures Inv(s')
  {
    if ReadHeld(s, s', tid) {
      ReadHeldHolds(s, s', tid);
    } else if u :| ScanRow(s, s', tid, u) {
      ScanKeepsReads(s, s', tid, u);
    } else if ReadAdmins(s, s', tid) {
      ReadAdminsHolds(s, s', tid);
    }
    OwnStepKeepsInv(s, s', tid);
  }

  lemma ReadHeldHolds(s: Sys, s': Sys, tid: Tid)
    requires Inv(s) && ReadHeld(s, s', tid)
    ensures ReadsHold(s'.accounts, s'.txns[tid])
  {
    var t := s.txns[tid];
    var held := Held(s, t.work.target);
    assert t.work.role in held ==> |held - {t.work.role}| == |held| - 1;
  }

  lemma AddsKeepsInv(s: Sys, s': Sys, u: UserId, role: RoleId)
    requires Inv(s) && Adds(s, s', u, role)
    ensures Inv(s')
  {
    var a :| IsActiveAdmin(s.accounts, a);
    assert IsActiveAdmin(s'.accounts, a);
    forall tid | tid in s'.txns ensures ReadsHold(s'.accounts, s'.txns[tid]) {
      assert ReadsHold(s.accounts, s.txns[tid]);
      assert forall b | IsActiveAdmin(s.accounts, b) :: IsActiveAdmin(s'.accounts, b);
    }
  }

  lemma NextKeepsInv(s: Sys, s': Sys)
    requires Inv(s) && Next(s, s')
    ensures Inv(s')
  {
    if tid, w :| Begin(s, s', tid, w) {
    } else if tid, l :| Acquire(s, s', tid, l) {
      assert ReadsHold(s.accounts, s.txns[tid]);
    } else if tid :| TxnStep(s, s', tid) {
      if CommitDeactivation(s, s', tid) {
        DeactivationKeepsInv(s, s', tid);
      } else if CommitRevocation(s, s', tid) {
        RevocationKeepsInv(s, s', tid);
      } else {
        ReadKeepsInv(s, s', tid);
      }
    } else {
      var u, role :| Adds(s, s', u, role);
      AddsKeepsInv(s, s', u, role);
    }
  }

  lemma {:induction false} RunInv(run: seq<Sys>, i: nat)
    requires IsRun(run) && i < |run|
    ensures Inv(run[i])
  {
    if i > 0 {
      RunInv(run, i - 1);
      assert StepAt(run, i - 1);
      NextKeepsInv(run[i - 1], run[i]);
    }
  }

  /**
   In every interleaving of deactivations, revocations, activations, role additions and new users,
   an active administrator remains, and every user keeps a role.
   */
  lemma AnAdministratorRemains(run: seq<Sys>, i: nat)
    requires IsRun(run) && i < |run|
    ensures ActiveAdmins(run[i].accounts) != {}
    ensures forall u | u in run[i].accounts :: run[i].accounts[u].roles != {}
  {
    RunInv(run, i);
    var u :| IsActiveAdmin(run[i].accounts, u);
    assert u in ActiveAdmins(run[i].accounts);
  }

  /** Plain reads would not do: of two administrators, each may be deactivated on what was read before either was. */
  lemma PlainReadsAreNotEnough()
    ensures var before := map[1 := Account(true, {ADMINISTRATOR}), 2 := Account(true, {ADMINISTRATOR})];
            && Safe(before) && ActiveAdmins(before) != {1} && ActiveAdmins(before) != {2}
            && !Safe(before[1 := Account(false, {ADMINISTRATOR})][2 := Account(false, {ADMINISTRATOR})])
  {
    var before := map[1 := Account(true, {ADMINISTRATOR}), 2 := Account(true, {ADMINISTRATOR})];
    assert IsActiveAdmin(before, 1) && IsActiveAdmin(before, 2);
    assert 1 in ActiveAdmins(before) && 2 in ActiveAdmins(before);
  }

  // ---------------------------------------------------------------------------
  // The service, one call at a time
  // ---------------------------------------------------------------------------

  datatype AdminError = OwnAccount | AlreadyHeld | NotHeld | LastRole | LastAdministrator | NotFound

  /** Taking `role` from a user leaves the users safe exactly when neither check objects. */
  lemma RevocationIsSafeIff(accounts: map<UserId, Account>, u: UserId, role: RoleId)
    requires Safe(accounts) && u in accounts && role in accounts[u].roles
    ensures var a := accounts[u];
            Safe(accounts[u := a.(roles := a.roles - {role})])
            <==> |a.roles| != 1 && !(role == ADMINISTRATOR && ActiveAdmins(accounts) == {u})
  {
    var a := accounts[u];
    var after := accounts[u := a.(roles := a.roles - {role})];
    assert |a.roles - {role}| == |a.roles| - 1;
    if role == ADMINISTRATOR && ActiveAdmins(accounts) == {u} {
      forall w ensures !IsActiveAdmin(after, w) {
        assert IsActiveAdmin(accounts, w) ==> w in ActiveAdmins(accounts);
      }
    } else if |a.roles| != 1 {
      var w: UserId :| IsActiveAdmin(accounts, w);
      assert w in ActiveAdmins(accounts);
      if role == ADMINISTRATOR { w := AnotherAdmin(ActiveAdmins(accounts), u); }
      assert IsActiveAdmin(after, w);
      assert a.roles - {role} != {};
    } else {
      assert after[u].roles == {};
    }
  }

  lemma DeactivationIsSafeIff(accounts: map<UserId, Account>, u: UserId)
    requires Safe(accounts) && u in accounts
    ensures Safe(accounts[u := accounts[u].(active := false)]) <==> ActiveAdmins(accounts) != {u}
  {
    var after := accounts[u := accounts[u].(active := false)];
    if ActiveAdmins(accounts) == {u} {
      forall w ensures !IsActiveAdmin(after, w) {
        assert IsActiveAdmin(accounts, w) ==> w in ActiveAdmins(accounts);
      }
    } else {
      var w: UserId :| IsActiveAdmin(accounts, w);
      assert w in ActiveAdmins(accounts);
      w := AnotherAdmin(ActiveAdmins(accounts), u);
      assert IsActiveAdmin(after, w);
    }
  }

  class UserService {
    var accounts: map<UserId, Account>

    ghost predicate Valid()
      reads this
    {
      Safe(accounts)
    }

    constructor (accounts: map<UserId, Account>)
      requires Safe(accounts)
      ensures Valid() && this.accounts == accounts
    {
      this.accounts := accounts;
    }

    method GiveRole(target: UserId, role: RoleId, admin: UserId) returns (r: Option<AdminError>)
      requires Valid()
      modifies this
      ensures Valid()
      ensures r.None? <==> target != admin && target in old(accounts) && role !in old(accounts)[target].roles
      ensures accounts == if r.Some? then old(accounts)
                          else old(accounts)[target := old(accounts)[target].(roles := old(accounts)[target].roles + {role})]
    {
      if target == admin {
        return Some(OwnAccount);
      }
      if target !in accounts {
        return Some(NotFound);
      }
      if role in accounts[target].roles {
        return Some(AlreadyHeld);
      }
      ghost var u :| IsActiveAdmin(accounts, u);
      accounts := accounts[target := accounts[target].(roles := accounts[target].roles + {role})];
      assert IsActiveAdmin(accounts, u);
      return None;
    }

    /** Refused exactly when it is one's own account, the role is not held, or the users would not stay safe. */
    method RevokeRole(target: UserId, role: RoleId, admin: UserId) returns (r: Option<AdminError>)
      requires Valid()
      modifies this
      ensures Valid()
      ensures r.None? <==>
        && target != admin && target in old(accounts) && role in old(accounts)[target].roles
        && var a := old(accounts)[target]; Safe(old(accounts)[target := a.(roles := a.roles - {role})])
      ensures accounts == if r.Some? then old(accounts)
                          else old(accounts)[target := old(accounts)[target].(roles := old(accounts)[target].roles - {role})]
    {
      if target == admin {
        return Some(OwnAccount);
      }
      if target !in accounts || role !in accounts[target].roles {
        return Some(NotHeld);
      }
      var a := accounts[target];
      RevocationIsSafeIff(accounts, target, role);
      if |a.roles| == 1 {
        return Some(LastRole);
      }
      if role == ADMINISTRATOR && ActiveAdmins(accounts) == {target} {
        return Some(LastAdministrator);
      }
      accounts := accounts[target := a.(roles := a.roles - {role})];
      return None;
    }

    method SetActive(target: UserId, active: bool, admin: UserId) returns (r: Option<AdminError>)
      requires Valid()
      modifies this
      ensures Valid()
      ensures r.None? <==>
        && target != admin && target in old(accounts)
        && Safe(old(accounts)[target := old(accounts)[target].(active := active)])
      ensures accounts == if r.Some? then old(accounts)
                          else old(accounts)[target := old(accounts)[target].(active := active)]
    {
      if target == admin {
        return Some(OwnAccount);
      }
      if !active && ActiveAdmins(accounts) == {target} {
        assert target in ActiveAdmins(accounts);
        DeactivationIsSafeIff(accounts, target);
        return Some(LastAdministrator);
      }
      if target !in accounts {
        return Some(NotFound);
      }
      ghost var u :| IsActiveAdmin(accounts, u);
      if !active { DeactivationIsSafeIff(accounts, target); }
      accounts := accounts[target := accounts[target].(active := active)];
      assert active ==> IsActiveAdmin(accounts, u);
      return None;
    }
  }
}
