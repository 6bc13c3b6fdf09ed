/**
 Session versions (app/auth/routes.py, app/auth/services.py, app/users/services.py): a session cookie
 carries the user's session_version, and logging out, changing or resetting the password and
 deactivating the account each count it up.

 Requests overlap: a login reads the user's row, spends its time checking the password, and sets the
 cookie later; a logout or password change has its cookie checked first (load_logged_in_user), a
 change then reads the password it is checked against, and its transaction comes last.
 */
module Sessions {
  import opened Wrappers

  /** `password` stands for what the stored hash accepts. */
  datatype User = User(active: bool, version: nat, password: nat, mustChange: bool)

  datatype Cookie = Cookie(uid: nat, sv: nat)

  datatype Change = Change(uid: nat, chosen: nat)

  datatype State = State(
    users: map<nat, User>,
    loaded: map<nat, nat>,          // requests whose cookie was accepted, and the user
    logins: map<nat, Cookie>,       // logins that passed their checks and have not answered yet
    changes: map<nat, Change>,      // password changes that passed their checks and have not committed yet
    issued: set<Cookie>)

  /** `request` names a request in flight. */
  datatype Event =
    | Create(uid: nat, first: nat)
    | LoginRead(request: nat, uid: nat, password: nat)
    | LoginAnswer(request: nat)
    | Load(request: nat, cookie: Cookie)
    | Logout(request: nat)
    | ChangeRead(request: nat, current: nat, chosen: nat)
    | ChangeCommit(request: nat)
    | Reset(uid: nat, temporary: nat)
    | Deactivate(uid: nat)
    | Activate(uid: nat)

  /** load_logged_in_user */
  predicate Accepted(users: map<nat, User>, c: Cookie) {
    c.uid in users && users[c.uid].active && users[c.uid].version == c.sv
  }

  function Bumped(u: User): User {
    u.(version := u.version + 1)
  }

  /** The request is one of a signed-in user. */
  predicate LoadedUser(s: State, request: nat) {
    request in s.loaded && s.loaded[request] in s.users
  }

  function Step(s: State, e: Event): State {
    match e
    case Create(uid, first) =>
      if uid in s.users then s else s.(users := s.users[uid := User(true, 0, first, false)])
    case LoginRead(request, uid, password) =>
      if uid in s.users && s.users[uid].password == password && s.users[uid].active
      then s.(logins := s.logins[request := Cookie(uid, s.users[uid].version)]) else s
    case LoginAnswer(request) =>
      if request in s.logins then s.(issued := s.issued + {s.logins[request]}) else s
    case Load(request, c) =>
      if Accepted(s.users, c) then s.(loaded := s.loaded[request := c.uid]) else s
    case Logout(request) =>
      if LoadedUser(s, request)
      then s.(users := s.users[s.loaded[request] := Bumped(s.users[s.loaded[request]])]) else s
    case ChangeRead(request, current, chosen) =>
      if LoadedUser(s, request) && s.users[s.loaded[request]].password == current != chosen
      then s.(changes := s.changes[request := Change(s.loaded[request], chosen)]) else s
    case ChangeCommit(request) =>
      if request in s.changes && s.changes[request].uid in s.users then
        var ch := s.changes[request];
        var u := s.users[ch.uid].(password := ch.chosen, mustChange := false);
        s.(users := s.users[ch.uid := Bumped(u)], changes := s.changes - {request},
           issued := s.issued + {Cookie(ch.uid, u.version + 1)})
      else s
    case Reset(uid, temporary) =>
      if uid in s.users
      then s.(users := s.users[uid := Bumped(s.users[uid]).(password := temporary, mustChange := true)]) else s
    case Deactivate(uid) =>
      if uid in s.users then s.(users := s.users[uid := Bumped(s.users[uid]).(active := false)]) else s
    case Activate(uid) =>
      if uid in s.users then s.(users := s.users[uid := s.users[uid].(active := true)]) else s
  }

  function Run(s: State, es: seq<Event>): State {
    if es == [] then s else Step(Run(s, es[..|es| - 1]), es[|es| - 1])
  }

  const EMPTY := State(map[], map[], map[], map[], {})

  /** The state after the first i events. */
  function After(es: seq<Event>, i: nat): State
    requires i <= |es|
  {
    Run(EMPTY, es[..i])
  }

  lemma AfterNext(es: seq<Event>, i: nat)
    requires i < |es|
    ensures After(es, i + 1) == Step(After(es, i), es[i])
  {
    assert es[..i + 1][..i] == es[..i];
  }

  /** The event ends the sessions of this user: a logout, a password change or reset, a deactivation. */
  predicate Revokes(s: State, e: Event, uid: nat) {
    && uid in s.users
    && match e
       case Logout(request) => request in s.loaded && s.loaded[request] == uid
       case ChangeCommit(request) => request in s.changes && s.changes[request].uid == uid
       case Reset(u, _) => u == uid
       case Deactivate(u) => u == uid
       case _ => false
  }

  function Revocations(es: seq<Event>, i: nat, j: nat, uid: nat): nat
    requires i <= j <= |es|
  {
    if i == j then 0
    else Revocations(es, i, j - 1, uid) + if Revokes(After(es, j - 1), es[j - 1], uid) then 1 else 0
  }

  lemma StepCounts(s: State, e: Event, uid: nat)
    requires uid in s.users
    ensures uid in Step(s, e).users
    ensures Step(s, e).users[uid].version == s.users[uid].version + if Revokes(s, e, uid) then 1 else 0
  {
  }

  /** The version counts the revocations, and nothing else moves it. */
  lemma {:induction false} VersionCounts(es: seq<Event>, i: nat, j: nat, uid: nat)
    requires i <= j <= |es| && uid in After(es, i).users
    ensures uid in After(es, j).users
    ensures After(es, j).users[uid].version == After(es, i).users[uid].version + Revocations(es, i, j, uid)
  {
    if i < j {
      VersionCounts(es, i, j - 1, uid);
      var before, e, after := After(es, j - 1), es[j - 1], After(es, j);
      assert after == Step(before, e) by { AfterNext(es, j - 1); }
      StepCounts(before, e, uid);
    }
  }

  /**
   A cookie made from the version read at moment i is accepted at a later moment j exactly when the
   account is active then and nothing revoked its sessions in between, whatever else happened:
   reactivation does not bring it back, and nothing but a revocation or deactivation ends it.
   */
  lemma AcceptedIff(es: seq<Event>, i: nat, j: nat, uid: nat)
    requires i <= j <= |es| && uid in After(es, i).users
    ensures uid in After(es, j).users
    ensures Accepted(After(es, j).users, Cookie(uid, After(es, i).users[uid].version))
       <==> After(es, j).users[uid].active && Revocations(es, i, j, uid) == 0
  {
    VersionCounts(es, i, j, uid);
  }

  predicate NotAhead(users: map<nat, User>, c: Cookie) {
    c.uid in users && c.sv <= users[c.uid].version
  }

  /** No cookie, handed out or about to be, carries a version its user has not reached. */
  ghost predicate NoneAhead(s: State) {
    && (forall c | c in s.issued :: NotAhead(s.users, c))
    && (forall r | r in s.logins :: NotAhead(s.users, s.logins[r]))
  }

  lemma StaysNotAhead(s: State, e: Event, c: Cookie)
    requires NotAhead(s.users, c)
    ensures NotAhead(Step(s, e).users, c)
  {
    StepCounts(s, e, c.uid);
  }

  lemma StepIssues(s: State, e: Event, c: Cookie)
    requires c in Step(s, e).issued && c !in s.issued
    ensures (e.LoginAnswer? && e.request in s.logins && c == s.logins[e.request]) || NotAhead(Step(s, e).users, c)
  {
  }

  lemma StepLogins(s: State, e: Event, r: nat)
    requires r in Step(s, e).logins
    ensures (r in s.logins && Step(s, e).logins[r] == s.logins[r]) || NotAhead(Step(s, e).users, Step(s, e).logins[r])
  {
  }

  lemma StepKeepsNoneAhead(s: State, e: Event)
    requires NoneAhead(s)
    ensures NoneAhead(Step(s, e))
  {
    var t := Step(s, e);
    forall c | c in t.issued ensures NotAhead(t.users, c) {
      if c in s.issued {
        StaysNotAhead(s, e, c);
      } else {
        StepIssues(s, e, c);
        if e.LoginAnswer? { StaysNotAhead(s, e, c); }
      }
    }
    forall r | r in t.logins ensures NotAhead(t.users, t.logins[r]) {
      StepLogins(s, e, r);
      if r in s.logins && t.logins[r] == s.logins[r] { StaysNotAhead(s, e, s.logins[r]); }
    }
  }

  lemma {:induction false} RunKeepsNoneAhead(es: seq<Event>, i: nat)
    requires i <= |es|
    ensures NoneAhead(After(es, i))
  {
    if i > 0 {
      RunKeepsNoneAhead(es, i - 1);
      assert After(es, i) == Step(After(es, i - 1), es[i - 1]) by { AfterNext(es, i - 1); }
      StepKeepsNoneAhead(After(es, i - 1), es[i - 1]);
    }
  }

  lemma {:induction false} SomeRevocation(es: seq<Event>, i: nat, k: nat, j: nat, uid: nat)
    requires i <= k < j <= |es| && Revokes(After(es, k), es[k], uid)
    ensures Revocations(es, i, j, uid) > 0
  {
    if k < j - 1 {
      SomeRevocation(es, i, k, j - 1, uid);
    }
  }

  /**
   A cookie issued before a logout, password change, reset or deactivation of its user is never
   accepted again, at any later moment of any run.
   */
  lemma RevokedForGood(es: seq<Event>, k: nat, j: nat, c: Cookie)
    requires k < j <= |es| && c in After(es, k).issued && Revokes(After(es, k), es[k], c.uid)
    ensures !Accepted(After(es, j).users, c)
  {
    RunKeepsNoneAhead(es, k);
    VersionCounts(es, k, j, c.uid);
    SomeRevocation(es, k, k, j, c.uid);
  }

  // Where sessions come from.

  /** Event i is a login of this user that gave the right password while the account was active, and read this version. */
  predicate LogsIn(es: seq<Event>, i: nat, c: Cookie)
    requires i < |es|
  {
    var s, e := After(es, i), es[i];
    && e.LoginRead? && e.uid == c.uid && c.uid in s.users
    && s.users[c.uid].password == e.password && s.users[c.uid].active && s.users[c.uid].version == c.sv
  }

  /** Event i commits a password change of this user, and the version becomes this one. */
  predicate ChangesTo(es: seq<Event>, i: nat, c: Cookie)
    requires i < |es|
  {
    var s, e := After(es, i), es[i];
    && e.ChangeCommit? && e.request in s.changes && s.changes[e.request].uid == c.uid
    && c.uid in s.users && c.sv == s.users[c.uid].version + 1
  }

  /** Event i is a request whose cookie of this user was accepted. */
  predicate Loads(es: seq<Event>, i: nat, request: nat, uid: nat)
    requires i < |es|
  {
    es[i].Load? && es[i].request == request && es[i].cookie.uid == uid && Accepted(After(es, i).users, es[i].cookie)
  }

  lemma {:induction false} LoginOrigin(es: seq<Event>, j: nat, request: nat) returns (i: nat)
    requires j <= |es| && request in After(es, j).logins
    ensures i < j && LogsIn(es, i, After(es, j).logins[request])
  {
    var before, e, c := After(es, j - 1), es[j - 1], After(es, j).logins[request];
    assert After(es, j) == Step(before, e) by { AfterNext(es, j - 1); }
    if request in before.logins && before.logins[request] == c {
      i := LoginOrigin(es, j - 1, request);
    } else {
      i := j - 1;
    }
  }

  /** Every cookie handed out is of a login with the right password of an active account, or of a committed password change. */
  lemma {:induction false} CookieOrigin(es: seq<Event>, j: nat, c: Cookie) returns (i: nat)
    requires j <= |es| && c in After(es, j).issued
    ensures i < j && (LogsIn(es, i, c) || ChangesTo(es, i, c))
  {
    var before, e := After(es, j - 1), es[j - 1];
    assert After(es, j) == Step(before, e) by { AfterNext(es, j - 1); }
    if c in before.issued {
      i := CookieOrigin(es, j - 1, c);
    } else if e.LoginAnswer? {
      i := LoginOrigin(es, j - 1, e.request);
    } else {
      i := j - 1;
    }
  }

  /** Every request that acts for a user had an accepted cookie of that user. */
  lemma {:induction false} RequestOrigin(es: seq<Event>, j: nat, request: nat) returns (i: nat)
    requires j <= |es| && request in After(es, j).loaded
    ensures i < j && Loads(es, i, request, After(es, j).loaded[request])
  {
    var before, e, uid := After(es, j - 1), es[j - 1], After(es, j).loaded[request];
    assert After(es, j) == Step(before, e) by { AfterNext(es, j - 1); }
    if request in before.loaded && before.loaded[request] == uid {
      i := RequestOrigin(es, j - 1, request);
    } else {
      i := j - 1;
    }
  }

  /** A right login that answers at once is let in. */
  lemma RightLoginIsLetIn(s: State, request: nat, uid: nat, password: nat)
    requires uid in s.users && s.users[uid].active && s.users[uid].password == password
    ensures var t := Step(Step(s, LoginRead(request, uid, password)), LoginAnswer(request));
            var c := Cookie(uid, s.users[uid].version);
            c in t.issued && Accepted(t.users, c)
  {
  }

  predicate DeactivatedAt(es: seq<Event>, k: nat, j: nat, uid: nat)
    requires k < j <= |es|
  {
    es[k] == Deactivate(uid) && uid in After(es, k).users && forall i | k < i < j :: es[i] != Activate(uid)
  }

  lemma StepActive(s: State, e: Event, uid: nat)
    requires uid in s.users
    ensures uid in Step(s, e).users
    ensures Step(s, e).users[uid].active
         <==> e == Activate(uid) || (s.users[uid].active && e != Deactivate(uid))
  {
  }

  /** A user who is not there has not been there. */
  lemma {:induction false} NotThereBefore(es: seq<Event>, j: nat, uid: nat)
    requires j <= |es| && uid !in After(es, j).users
    ensures forall k | 0 <= k <= j :: uid !in After(es, k).users
  {
    if j > 0 {
      assert After(es, j) == Step(After(es, j - 1), es[j - 1]) by { AfterNext(es, j - 1); }
      if uid in After(es, j - 1).users { StepActive(After(es, j - 1), es[j - 1], uid); }
      NotThereBefore(es, j - 1, uid);
    }
  }

  ghost predicate WasDeactivated(es: seq<Event>, j: nat, uid: nat)
    requires j <= |es|
  {
    exists k: nat | k < j :: DeactivatedAt(es, k, j, uid)
  }

  lemma WasDeactivatedNext(es: seq<Event>, j: nat, uid: nat)
    requires j < |es| && uid in After(es, j).users
    ensures WasDeactivated(es, j + 1, uid)
       <==> es[j] == Deactivate(uid) || (WasDeactivated(es, j, uid) && es[j] != Activate(uid))
  {
    if k: nat :| k < j && DeactivatedAt(es, k, j, uid) {
      assert es[j] != Activate(uid) ==> DeactivatedAt(es, k, j + 1, uid);
    }
    if WasDeactivated(es, j + 1, uid) {
      var n := j + 1;
      var k: nat :| k < n && DeactivatedAt(es, k, n, uid);
      assert k < j ==> DeactivatedAt(es, k, j, uid);
    }
    if es[j] == Deactivate(uid) { assert DeactivatedAt(es, j, j + 1, uid); }
  }

  /** An account is inactive exactly when it has been deactivated and not activated again since. */
  lemma {:induction false} InactiveIff(es: seq<Event>, j: nat, uid: nat)
    requires j <= |es| && uid in After(es, j).users
    ensures !After(es, j).users[uid].active <==> WasDeactivated(es, j, uid)
  {
    if j > 0 {
      var before, e := After(es, j - 1), es[j - 1];
      assert After(es, j) == Step(before, e) by { AfterNext(es, j - 1); }
      if uid in before.users {
        InactiveIff(es, j - 1, uid);
        StepActive(before, e, uid);
        WasDeactivatedNext(es, j - 1, uid);
      } else {
        NotThereBefore(es, j - 1, uid);
      }
    }
  }

  /** A login overtaken by a revocation ends with a cookie that is refused from the start. */
  lemma OvertakenLoginIsRefused(es: seq<Event>, i: nat, k: nat, j: nat)
    requires i < k < j <= |es| && es[i].LoginRead?
    requires var e := es[i]; e.uid in After(es, i).users && Revokes(After(es, k), es[k], e.uid)
    ensures !Accepted(After(es, j).users, Cookie(es[i].uid, After(es, i).users[es[i].uid].version))
  {
    AcceptedIff(es, i, j, es[i].uid);
    SomeRevocation(es, i, k, j, es[i].uid);
  }

  /** The session that changes its own password carries on, under the new version and no other. */
  lemma OwnChangeCarriesOn(s: State, request: nat)
    requires NoneAhead(s) && request in s.changes && s.changes[request].uid in s.users
    ensures var uid, t := s.changes[request].uid, Step(s, ChangeCommit(request));
            && Cookie(uid, t.users[uid].version) in t.issued
            && (Accepted(t.users, Cookie(uid, t.users[uid].version)) <==> s.users[uid].active)
            && forall c | c in s.issued && c.uid == uid :: !Accepted(t.users, c)
  {
  }

  /**
   A password change that passed its checks before a reset and commits after it undoes the reset: the
   password is the one chosen, nothing has to be changed at the next login, and the session that was
   open before the reset carries on.
   */
  lemma ChangeInFlightUndoesReset(s: State, request: nat, temporary: nat)
    requires request in s.changes && s.changes[request].uid in s.users && s.users[s.changes[request].uid].active
    ensures var uid, chosen := s.changes[request].uid, s.changes[request].chosen;
            var t := Step(Step(s, Reset(uid, temporary)), ChangeCommit(request));
            && uid in t.users && t.users[uid].password == chosen && !t.users[uid].mustChange
            && var c := Cookie(uid, s.users[uid].version + 2);
            && c in t.issued && Accepted(t.users, c)
  {
    var uid := s.changes[request].uid;
    var r := Step(s, Reset(uid, temporary));
    assert r.users[uid].version == s.users[uid].version + 1 && r.changes == s.changes;
  }

  predicate ChangesOf(s: State, e: Event, uid: nat) {
    e.ChangeCommit? && e.request in s.changes && s.changes[e.request].uid == uid
  }

  function Changes(es: seq<Event>, i: nat, j: nat, uid: nat): nat
    requires i <= j <= |es|
  {
    if i == j then 0
    else Changes(es, i, j - 1, uid) + if ChangesOf(After(es, j - 1), es[j - 1], uid) then 1 else 0
  }

  lemma StepMustChange(s: State, e: Event, uid: nat)
    requires uid in s.users && !ChangesOf(s, e, uid)
    requires s.users[uid].mustChange || (e.Reset? && e.uid == uid)
    ensures uid in Step(s, e).users && Step(s, e).users[uid].mustChange
  {
  }

  /** After a reset the user has to choose a new password until a password change commits. */
  lemma {:induction false} MustChangeUntil(es: seq<Event>, k: nat, j: nat)
    requires k < j <= |es| && es[k].Reset? && es[k].uid in After(es, k).users
    requires Changes(es, k + 1, j, es[k].uid) == 0
    ensures es[k].uid in After(es, j).users && After(es, j).users[es[k].uid].mustChange
  {
    var before, e := After(es, j - 1), es[j - 1];
    if k + 1 < j {
      MustChangeUntil(es, k, j - 1);
    }
    assert After(es, j) == Step(before, e) by { AfterNext(es, j - 1); }
    StepMustChange(before, e, es[k].uid);
  }

  // When the reset's promise holds: every change that commits first after it has passed its checks
  // after it, against the temporary password.

  /** The event is a password change request of a signed-in user that passes its checks. */
  predicate Passes(s: State, e: Event) {
    e.ChangeRead? && LoadedUser(s, e.request) && s.users[s.loaded[e.request]].password == e.current != e.chosen
  }

  /** Event m is the last password change request named `request` that passed its checks before moment j. */
  ghost predicate LastRead(es: seq<Event>, m: nat, j: nat, request: nat)
    requires j <= |es|
  {
    && m < j && Passes(After(es, m), es[m]) && es[m].request == request
    && forall i: nat | m < i < j :: ReadsOther(es, i, request)
  }

  predicate ReadsOther(es: seq<Event>, i: nat, request: nat)
    requires i < |es|
  {
    !(Passes(After(es, i), es[i]) && es[i].request == request)
  }

  /** No password change of the user is past its checks. */
  predicate NoneInFlight(s: State, uid: nat) {
    forall r | r in s.changes :: s.changes[r].uid != uid
  }

  /** The temporary password of the latest reset of the user among the events k to j - 1; the first is one. */
  function Temporary(es: seq<Event>, k: nat, j: nat, uid: nat): nat
    requires k < j <= |es| && es[k].Reset?
    decreases j
  {
    if k + 1 == j then es[k].temporary
    else if es[j - 1].Reset? && es[j - 1].uid == uid then es[j - 1].temporary
    else Temporary(es, k, j - 1, uid)
  }

  /** What is in flight was in flight before, or its request passed its checks since. */
  lemma {:induction false} InFlightSince(es: seq<Event>, k: nat, j: nat, request: nat) returns (m: nat)
    requires k <= j <= |es| && request in After(es, j).changes
    ensures || (k <= m && LastRead(es, m, j, request)
                && After(es, j).changes[request] == Change(After(es, m).loaded[request], es[m].chosen))
            || (request in After(es, k).changes && After(es, k).changes[request] == After(es, j).changes[request])
    decreases j
  {
    m := 0;
    if k < j {
      var before, e := After(es, j - 1), es[j - 1];
      assert After(es, j) == Step(before, e) by { AfterNext(es, j - 1); }
      if Passes(before, e) && e.request == request {
        m := j - 1;
      } else {
        ChangesKept(before, e, request);
        m := InFlightSince(es, k, j - 1, request);
        if k <= m && LastRead(es, m, j - 1, request) {
          assert ReadsOther(es, j - 1, request);
          assert LastRead(es, m, j, request);
        }
      }
    }
  }

  lemma ChangesKept(s: State, e: Event, request: nat)
    requires request in Step(s, e).changes && !(Passes(s, e) && e.request == request)
    ensures request in s.changes && s.changes[request] == Step(s, e).changes[request]
  {
  }

  lemma StepPassword(s: State, e: Event, uid: nat)
    requires uid in s.users && !ChangesOf(s, e, uid)
    ensures uid in Step(s, e).users
    ensures Step(s, e).users[uid].password
         == if e.Reset? && e.uid == uid then e.temporary else s.users[uid].password
  {
  }

  /** Until a change commits, the password is the temporary one of the latest reset. */
  lemma {:induction false} PasswordIsTemporary(es: seq<Event>, k: nat, j: nat)
    requires k < j <= |es| && es[k].Reset? && es[k].uid in After(es, k).users
    requires Changes(es, k + 1, j, es[k].uid) == 0
    ensures var uid := es[k].uid;
            uid in After(es, j).users && After(es, j).users[uid].password == Temporary(es, k, j, uid)
    decreases j
  {
    var before, e := After(es, j - 1), es[j - 1];
    if k + 1 < j {
      PasswordIsTemporary(es, k, j - 1);
    }
    assert After(es, j) == Step(before, e) by { AfterNext(es, j - 1); }
    StepPassword(before, e, es[k].uid);
  }

  /** Event j commits a change of the user, the first since event k. */
  ghost predicate FirstChange(es: seq<Event>, k: nat, j: nat, uid: nat) {
    k < j < |es| && Changes(es, k + 1, j, uid) == 0 && ChangesOf(After(es, j), es[j], uid)
  }

  /** It passed its checks after event k, and the current password it gave was the temporary one. */
  ghost predicate KnewTemporary(es: seq<Event>, k: nat, j: nat, uid: nat)
    requires k < j < |es| && es[k].Reset? && es[j].ChangeCommit?
  {
    exists m: nat | k < m < j ::
      && LastRead(es, m, j, es[j].request)
      && After(es, m).loaded[es[m].request] == uid && es[m].current == Temporary(es, k, m, uid)
  }

  lemma FirstChangeKnew(es: seq<Event>, k: nat, j: nat)
    requires k < |es| && es[k].Reset? && es[k].uid in After(es, k).users
    requires NoneInFlight(After(es, k), es[k].uid) && FirstChange(es, k, j, es[k].uid)
    ensures KnewTemporary(es, k, j, es[k].uid)
  {
    var uid := es[k].uid;
    var m := InFlightSince(es, k, j, es[j].request);
    assert k <= m && LastRead(es, m, j, es[j].request);
    ChangesSplit(es, k + 1, m, j, uid);
    PasswordIsTemporary(es, k, m);
  }

  lemma {:induction false} ChangesSplit(es: seq<Event>, i: nat, m: nat, j: nat, uid: nat)
    requires i <= m <= j <= |es|
    ensures Changes(es, i, m, uid) <= Changes(es, i, j, uid)
    decreases j
  {
    if m < j {
      ChangesSplit(es, i, m, j - 1, uid);
    }
  }

  /** The continuation that commits at once what was in flight. */
  lemma InFlightCommits(es: seq<Event>, k: nat, request: nat) returns (fs: seq<Event>)
    requires k < |es| && es[k].Reset? && es[k].uid in After(es, k).users
    requires request in After(es, k).changes && After(es, k).changes[request].uid == es[k].uid
    ensures |fs| == k + 2 && fs[..k + 1] == es[..k + 1]
    ensures FirstChange(fs, k, k + 1, es[k].uid) && !KnewTemporary(fs, k, k + 1, es[k].uid)
  {
    fs := es[..k + 1] + [ChangeCommit(request)];
    assert fs[..k] == es[..k];
    AfterNext(fs, k);
    assert After(fs, k) == After(es, k);
  }

  /**
   After a reset, in every continuation of the run the first password change that commits was checked
   after the reset, against the temporary password, if and only if no change of that user was past its
   checks when the reset committed.
   */
  lemma ResetHoldsIff(es: seq<Event>, k: nat)
    requires k < |es| && es[k].Reset? && es[k].uid in After(es, k).users
    ensures NoneInFlight(After(es, k), es[k].uid) <==>
              forall fs, j: nat | k < |fs| && fs[..k + 1] == es[..k + 1] && FirstChange(fs, k, j, es[k].uid) ::
                KnewTemporary(fs, k, j, es[k].uid)
  {
    var uid := es[k].uid;
    if NoneInFlight(After(es, k), uid) {
      forall fs, j: nat | k < |fs| && fs[..k + 1] == es[..k + 1] && FirstChange(fs, k, j, uid)
        ensures KnewTemporary(fs, k, j, uid)
      {
        SamePrefix(fs, es, k);
        FirstChangeKnew(fs, k, j);
      }
    } else {
      var r :| r in After(es, k).changes && After(es, k).changes[r].uid == uid;
      var fs := InFlightCommits(es, k, r);
      assert FirstChange(fs, k, k + 1, uid);
    }
  }

  lemma SamePrefix(fs: seq<Event>, es: seq<Event>, k: nat)
    requires k < |fs| && k < |es| && fs[..k + 1] == es[..k + 1]
    ensures After(fs, k) == After(es, k) && fs[k] == es[k]
  {
    assert fs[..k] == fs[..k + 1][..k] && es[..k] == es[..k + 1][..k];
    assert fs[..k + 1][k] == fs[k] && es[..k + 1][k] == es[k];
  }

  const BEFORE_RESET: seq<Event> :=
    [Create(7, 1), LoginRead(0, 7, 1), LoginAnswer(0), Load(1, Cookie(7, 0)), ChangeRead(1, 1, 2)]

  /** User 7 has logged in, and asked to change password 1 to 2; request 1 has passed its checks. */
  const AT_RESET := State(map[7 := User(true, 0, 1, false)], map[1 := 7], map[0 := Cookie(7, 0)], map[1 := Change(7, 2)], {Cookie(7, 0)})

  lemma ReachesReset()
    ensures Run(EMPTY, BEFORE_RESET) == AT_RESET
  {
    var es := BEFORE_RESET;
    var users := map[7 := User(true, 0, 1, false)];
    assert es[..4][..3] == es[..3] && es[..3][..2] == es[..2] && es[..2][..1] == es[..1] && es[..1][..0] == [];
    assert Run(EMPTY, es[..1]) == State(users, map[], map[], map[], {});
    assert Run(EMPTY, es[..2]) == State(users, map[], map[0 := Cookie(7, 0)], map[], {});
    assert Run(EMPTY, es[..3]) == State(users, map[], map[0 := Cookie(7, 0)], map[], {Cookie(7, 0)});
    assert Run(EMPTY, es[..4]) == State(users, map[1 := 7], map[0 := Cookie(7, 0)], map[], {Cookie(7, 0)});
  }

  /** A run in which a change in flight undoes a reset: nobody who knew the temporary password 9 took part. */
  lemma ResetUndone()
    ensures var es := BEFORE_RESET + [Reset(7, 9), ChangeCommit(1)];
            && FirstChange(es, 5, 6, 7) && !KnewTemporary(es, 5, 6, 7)
            && var u := After(es, 7).users;
            && 7 in u && u[7].password == 2 && !u[7].mustChange && Accepted(u, Cookie(7, 2))
  {
    var es := BEFORE_RESET + [Reset(7, 9), ChangeCommit(1)];
    ReachesReset();
    assert es[..5] == BEFORE_RESET && es[..7] == es;
    assert After(es, 5) == AT_RESET;
    ChangeInFlightUndoesReset(AT_RESET, 1, 9);
    AfterNext(es, 5);
    AfterNext(es, 6);
  }

  // ---------------------------------------------------------------------------
  // One browser session
  // ---------------------------------------------------------------------------

  class AuthRoutes {
    var users: map<nat, User>
    var session: Option<Cookie>
    var user: Option<nat>               // g.user

    constructor (users: map<nat, User>)
      ensures this.users == users && session == None && user == None
    {
      this.users := users;
      session := None;
      user := None;
    }

    /** Before every request: the session is kept exactly while its cookie is accepted. */
    method LoadLoggedInUser()
      modifies this
      ensures users == old(users)
      ensures session == if old(session).Some? && Accepted(users, old(session).value) then old(session) else None
      ensures user == if session.Some? then Some(session.value.uid) else None
    {
      user := None;
      if session.None? {
        return;
      }
      var c := session.value;
      if c.uid !in users || !users[c.uid].active || users[c.uid].version != c.sv {
        session := None;
        return;
      }
      user := Some(c.uid);
    }

    method StartSession(uid: nat, version: nat)
      modifies this
      ensures session == Some(Cookie(uid, version)) && users == old(users) && user == old(user)
    {
      session := None;
      session := Some(Cookie(uid, version));
    }

    /** Every cookie of the user, this one and any copy, is dead afterwards. */
    method LogOut()
      requires user.Some? ==> user.value in users
      modifies this
      ensures session == None
      ensures user == old(user)
      ensures user.Some? ==>
        && users == old(users)[user.value := Bumped(old(users)[user.value])]
        && forall sv: nat | sv <= old(users)[user.value].version :: !Accepted(users, Cookie(user.value, sv))
      ensures user.None? ==> users == old(users)
    {
      if user.Some? {
        users := users[user.value := Bumped(users[user.value])];
      }
      session := None;
    }

    /** This session carries on under the new version; every other session of the user is dead. */
    method ChangePassword(current: nat, chosen: nat) returns (ok: bool)
      requires user.Some? && user.value in users
      modifies this
      ensures user == old(user)
      ensures ok <==> old(users)[user.value].password == current && chosen != current
      ensures !ok ==> users == old(users) && session == old(session)
      ensures ok ==>
        && users.Keys == old(users).Keys && (forall u | u in users && u != user.value :: users[u] == old(users)[u])
        && users[user.value].password == chosen && !users[user.value].mustChange
        && users[user.value].active == old(users)[user.value].active
        && session == Some(Cookie(user.value, old(users)[user.value].version + 1))
        && (Accepted(users, session.value) <==> old(users)[user.value].active)
        && forall sv: nat | sv <= old(users)[user.value].version :: !Accepted(users, Cookie(user.value, sv))
    {
      var uid := user.value;
      if users[uid].password != current || users[uid].password == chosen {
        return false;
      }
      users := users[uid := Bumped(users[uid]).(password := chosen, mustChange := false)];
      session := Some(Cookie(uid, users[uid].version));
      return true;
    }
  }
}
