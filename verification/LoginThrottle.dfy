/**
 Login throttling counted from the append-only login_attempts table (app/auth/services.py). Calls are
 serial, the clock does not go back, and a username or e-mail address keeps naming the same user.
 */
module LoginThrottle {
  import opened Wrappers

  type Seconds = nat

  datatype Reason = NoReason | InvalidCredentials | AccountInactive | RateLimited

  /** A row of login_attempts. */
  datatype Attempt = Attempt(
    identifier: string, user: Option<nat>, success: bool, reason: Reason, ip: string, at: Seconds)

  const LOCK_WINDOW: Seconds := 15 * 60

  function Count(rows: seq<Attempt>, p: Attempt -> bool): nat {
    if rows == [] then 0 else Count(rows[..|rows| - 1], p) + if p(rows[|rows| - 1]) then 1 else 0
  }

  /** The rows of an account: the identifier as typed, or the user it resolved to. */
  predicate Matches(a: Attempt, identifier: string, user: Option<nat>) {
    a.identifier == identifier || (user.Some? && a.user == user)
  }

  /** MAX(attempted_at) of the successes of the account; 0 is '1970-01-01'. */
  function LastSuccess(rows: seq<Attempt>, identifier: string, user: Option<nat>): Seconds {
    if rows == [] then 0
    else
      var a, m := rows[|rows| - 1], LastSuccess(rows[..|rows| - 1], identifier, user);
      if a.success && Matches(a, identifier, user) && a.at > m then a.at else m
  }

  predicate RecentWrong(a: Attempt, now: Seconds, after: Seconds) {
    !a.success && a.reason == InvalidCredentials && a.at + LOCK_WINDOW >= now && a.at > after
  }

  function MatchingWrong(identifier: string, user: Option<nat>, now: Seconds, after: Seconds): Attempt -> bool {
    (a: Attempt) => Matches(a, identifier, user) && RecentWrong(a, now, after)
  }

  function OwnWrong(user: nat, now: Seconds, after: Seconds): Attempt -> bool {
    (a: Attempt) => a.user == Some(user) && RecentWrong(a, now, after)
  }

  function FromAddress(ip: string, now: Seconds): Attempt -> bool {
    (a: Attempt) => a.ip == ip && !a.success && a.at + LOCK_WINDOW >= now
  }

  /** The first query of _is_rate_limited. */
  function AccountFailures(rows: seq<Attempt>, identifier: string, user: Option<nat>, now: Seconds): nat {
    Count(rows, MatchingWrong(identifier, user, now, LastSuccess(rows, identifier, user)))
  }

  /** The second query. */
  function IpFailures(rows: seq<Attempt>, ip: string, now: Seconds): nat {
    Count(rows, FromAddress(ip, now))
  }

  /**
   The rows that lock an account: wrong passwords of the last 15 minutes, given for this identifier or by
   the user it names, later than every success of either.
   */
  ghost function LockingRows(rows: seq<Attempt>, identifier: string, user: Option<nat>, now: Seconds): set<nat> {
    set i | 0 <= i < |rows| && (rows[i].identifier == identifier || (user.Some? && rows[i].user == user))
      && !rows[i].success && rows[i].reason == InvalidCredentials && now <= rows[i].at + 15 * 60 && rows[i].at > 0
      && forall j | 0 <= j < |rows| && rows[j].success ::
           rows[j].identifier == identifier || (user.Some? && rows[j].user == user) ==> rows[i].at > rows[j].at
  }

  /** The rows that block an address: failures of the last 15 minutes, for any reason. */
  ghost function BlockingRows(rows: seq<Attempt>, ip: string, now: Seconds): set<nat> {
    set i | 0 <= i < |rows| && rows[i].ip == ip && !rows[i].success && now <= rows[i].at + 15 * 60
  }

  function Indices(rows: seq<Attempt>, p: Attempt -> bool): set<nat> {
    set i | 0 <= i < |rows| && p(rows[i])
  }

  lemma {:induction false} CountIsSize(rows: seq<Attempt>, p: Attempt -> bool)
    ensures Count(rows, p) == |Indices(rows, p)|
  {
    if rows != [] {
      var n := |rows| - 1;
      CountIsSize(rows[..n], p);
      assert Indices(rows, p) == Indices(rows[..n], p) + if p(rows[n]) then {n} else {};
    }
  }

  lemma {:induction false} LastSuccessIs(rows: seq<Attempt>, identifier: string, user: Option<nat>, t: Seconds)
    ensures t > LastSuccess(rows, identifier, user)
       <==> t > 0 && forall j | 0 <= j < |rows| && rows[j].success :: Matches(rows[j], identifier, user) ==> t > rows[j].at
  {
    if rows != [] {
      var n := |rows| - 1;
      LastSuccessIs(rows[..n], identifier, user, t);
      assert forall j | 0 <= j < n :: rows[..n][j] == rows[j];
    }
  }

  /** Both queries count exactly the rows that are meant. */
  lemma FailuresAre(rows: seq<Attempt>, identifier: string, user: Option<nat>, ip: string, now: Seconds)
    ensures AccountFailures(rows, identifier, user, now) == |LockingRows(rows, identifier, user, now)|
    ensures IpFailures(rows, ip, now) == |BlockingRows(rows, ip, now)|
  {
    var p := MatchingWrong(identifier, user, now, LastSuccess(rows, identifier, user));
    CountIsSize(rows, p);
    forall i | 0 <= i < |rows| ensures i in Indices(rows, p) <==> i in LockingRows(rows, identifier, user, now) {
      LastSuccessIs(rows, identifier, user, rows[i].at);
    }
    assert Indices(rows, p) == LockingRows(rows, identifier, user, now);
    CountIsSize(rows, FromAddress(ip, now));
    assert Indices(rows, FromAddress(ip, now)) == BlockingRows(rows, ip, now);
  }

  // ---------------------------------------------------------------------------
  // What the lock promises
  // ---------------------------------------------------------------------------

  function LastSuccessOf(rows: seq<Attempt>, user: nat): Seconds {
    if rows == [] then 0
    else
      var a, m := rows[|rows| - 1], LastSuccessOf(rows[..|rows| - 1], user);
      if a.success && a.user == Some(user) && a.at > m then a.at else m
  }

  /** Wrong passwords of a user in the last 15 minutes, strictly later than the user's last success. */
  function WrongPasswords(rows: seq<Attempt>, user: nat, now: Seconds): nat {
    Count(rows, OwnWrong(user, now, LastSuccessOf(rows, user)))
  }

  /** Rows were written by `authenticate`: times in order, and each identifier resolved by the directory. */
  ghost predicate Recorded(rows: seq<Attempt>, directory: map<string, nat>, clock: Seconds) {
    && (forall i | 0 <= i < |rows| :: rows[i].at <= clock)
    && (forall i | 0 <= i < |rows| ::
          rows[i].user == if rows[i].identifier in directory then Some(directory[rows[i].identifier]) else None)
    && (forall i | 0 <= i < |rows| && rows[i].success :: rows[i].user.Some?)
  }

  ghost predicate Throttled(rows: seq<Attempt>, clock: Seconds, limit: nat) {
    forall user, now | clock <= now :: WrongPasswords(rows, user, now) <= limit
  }

  lemma {:induction false} CountMonotone(rows: seq<Attempt>, p: Attempt -> bool, q: Attempt -> bool)
    requires forall i | 0 <= i < |rows| :: p(rows[i]) ==> q(rows[i])
    ensures Count(rows, p) <= Count(rows, q)
  {
    if rows != [] {
      CountMonotone(rows[..|rows| - 1], p, q);
    }
  }

  lemma {:induction false} CountNone(rows: seq<Attempt>, p: Attempt -> bool)
    requires forall i | 0 <= i < |rows| :: !p(rows[i])
    ensures Count(rows, p) == 0
  {
    if rows != [] {
      CountNone(rows[..|rows| - 1], p);
    }
  }

  lemma {:induction false} LastSuccessAgrees(
    rows: seq<Attempt>, directory: map<string, nat>, clock: Seconds, identifier: string)
    requires Recorded(rows, directory, clock) && identifier in directory
    ensures var user := directory[identifier];
            LastSuccess(rows, identifier, Some(user)) == LastSuccessOf(rows, user)
  {
    if rows != [] {
      LastSuccessAgrees(rows[..|rows| - 1], directory, clock, identifier);
    }
  }

  lemma {:induction false} LastSuccessBelow(rows: seq<Attempt>, user: nat, clock: Seconds)
    requires forall i | 0 <= i < |rows| :: rows[i].at <= clock
    ensures LastSuccessOf(rows, user) <= clock
  {
    if rows != [] {
      LastSuccessBelow(rows[..|rows| - 1], user, clock);
    }
  }

  lemma CountSnoc(rows: seq<Attempt>, a: Attempt, p: Attempt -> bool)
    ensures Count(rows + [a], p) == Count(rows, p) + if p(a) then 1 else 0
  {
    assert (rows + [a])[..|rows|] == rows;
  }

  lemma LastSuccessSnoc(rows: seq<Attempt>, a: Attempt, user: nat)
    ensures LastSuccessOf(rows + [a], user)
         == var m := LastSuccessOf(rows, user); if a.success && a.user == Some(user) && a.at > m then a.at else m
  {
    assert (rows + [a])[..|rows|] == rows;
  }

  /** The count a user is locked by is at least the user's own wrong passwords. */
  lemma LockCountsOwn(
    rows: seq<Attempt>, directory: map<string, nat>, clock: Seconds, identifier: string, now: Seconds)
    requires Recorded(rows, directory, clock) && identifier in directory
    ensures var user := directory[identifier];
            WrongPasswords(rows, user, now) <= AccountFailures(rows, identifier, Some(user), now)
  {
    var user := directory[identifier];
    LastSuccessAgrees(rows, directory, clock, identifier);
    var after := LastSuccessOf(rows, user);
    CountMonotone(rows, OwnWrong(user, now, after), MatchingWrong(identifier, Some(user), now, after));
  }

  lemma WindowSlides(rows: seq<Attempt>, user: nat, now: Seconds, later: Seconds)
    requires now <= later
    ensures WrongPasswords(rows, user, later) <= WrongPasswords(rows, user, now)
  {
    var after := LastSuccessOf(rows, user);
    CountMonotone(rows, OwnWrong(user, later, after), OwnWrong(user, now, after));
  }

  /** One row more: a wrong password counts one, a success clears the account, any other row nothing. */
  lemma OneMoreRow(rows: seq<Attempt>, a: Attempt, user: nat, now: Seconds)
    requires forall i | 0 <= i < |rows| :: rows[i].at <= a.at
    requires a.at <= now
    ensures WrongPasswords(rows + [a], user, now)
         <= WrongPasswords(rows, user, now) + if a.user == Some(user) && a.reason == InvalidCredentials then 1 else 0
    ensures a.success && a.user == Some(user) ==> WrongPasswords(rows + [a], user, now) == 0
  {
    LastSuccessSnoc(rows, a, user);
    var m, after := LastSuccessOf(rows, user), LastSuccessOf(rows + [a], user);
    LastSuccessBelow(rows, user, a.at);
    var p := OwnWrong(user, now, after);
    CountSnoc(rows, a, p);
    if a.success && a.user == Some(user) {
      CountNone(rows, p);
    } else {
      assert after == m;
    }
  }

  lemma RowKeepsThrottled(rows: seq<Attempt>, clock: Seconds, limit: nat, a: Attempt)
    requires forall i | 0 <= i < |rows| :: rows[i].at <= clock
    requires Throttled(rows, clock, limit) && clock <= a.at
    requires a.reason == InvalidCredentials && a.user.Some? ==> WrongPasswords(rows, a.user.value, a.at) < limit
    ensures Throttled(rows + [a], a.at, limit)
  {
    forall user, now | a.at <= now ensures WrongPasswords(rows + [a], user, now) <= limit {
      OneMoreRow(rows, a, user, now);
      WindowSlides(rows, user, a.at, now);
      assert WrongPasswords(rows, user, now) <= limit;
    }
  }

  /**
   A rate-limited row never extends the lock of any account, though it does count towards the limit
   of its address.
   */
  lemma RateLimitedRowsDoNotExtendTheLock(
    rows: seq<Attempt>, a: Attempt, identifier: string, user: Option<nat>, now: Seconds)
    requires !a.success && a.reason == RateLimited && a.at + LOCK_WINDOW >= now
    ensures AccountFailures(rows + [a], identifier, user, now) == AccountFailures(rows, identifier, user, now)
    ensures IpFailures(rows + [a], a.ip, now) == IpFailures(rows, a.ip, now) + 1
  {
    assert (rows + [a])[..|rows|] == rows;
    assert LastSuccess(rows + [a], identifier, user) == LastSuccess(rows, identifier, user);
    var after := LastSuccess(rows, identifier, user);
    CountSnoc(rows, a, MatchingWrong(identifier, user, now, after));
    CountSnoc(rows, a, FromAddress(a.ip, now));
  }

  datatype AuthResult = Accepted(user: nat) | Rejected(reason: Reason)

  class LoginService {
    const directory: map<string, nat>         // username or e-mail address to user id
    const accountLimit: nat                   // LOGIN_MAX_FAILURES_PER_ACCOUNT
    const ipLimit: nat                        // LOGIN_MAX_FAILURES_PER_IP
    var attempts: seq<Attempt>
    ghost var clock: Seconds

    ghost predicate Valid()
      reads this
    {
      && Recorded(attempts, directory, clock)
      && Throttled(attempts, clock, accountLimit)
    }

    constructor (directory: map<string, nat>, accountLimit: nat, ipLimit: nat)
      ensures Valid() && attempts == [] && this.directory == directory
      ensures this.accountLimit == accountLimit && this.ipLimit == ipLimit
    {
      this.directory := directory;
      this.accountLimit := accountLimit;
      this.ipLimit := ipLimit;
      attempts := [];
      clock := 0;
    }

    predicate IsRateLimited(identifier: string, user: Option<nat>, ip: string, now: Seconds)
      reads this
    {
      || AccountFailures(attempts, identifier, user, now) >= accountLimit
      || IpFailures(attempts, ip, now) >= ipLimit
    }

    method Record(a: Attempt)
      requires Valid() && clock <= a.at
      requires a.user == if a.identifier in directory then Some(directory[a.identifier]) else None
      requires a.success ==> a.user.Some?
      requires a.reason == InvalidCredentials && a.user.Some? ==>
        AccountFailures(attempts, a.identifier, a.user, a.at) < accountLimit
      modifies this
      ensures Valid() && attempts == old(attempts) + [a] && clock == a.at
    {
      if a.reason == InvalidCredentials && a.user.Some? {
        LockCountsOwn(attempts, directory, clock, a.identifier, a.at);
      }
      RowKeepsThrottled(attempts, clock, accountLimit, a);
      attempts := attempts + [a];
      clock := a.at;
    }

    /** Every attempt leaves exactly one row; in every state each account is within its limit (Valid). */
    method Authenticate(identifier: string, passwordIsRight: bool, isActive: bool, ip: string, now: Seconds)
      returns (r: AuthResult)
      requires Valid() && clock <= now
      modifies this
      ensures Valid() && clock == now && |attempts| == |old(attempts)| + 1 && old(attempts) <= attempts
      ensures var row, user := attempts[|old(attempts)|], if identifier in directory then Some(directory[identifier]) else None;
        && row.identifier == identifier && row.ip == ip && row.at == now && row.user == user
        && (row.success <==> r.Accepted?) && row.reason == (if r.Rejected? then r.reason else NoReason)
        && r == if |LockingRows(old(attempts), identifier, user, now)| >= accountLimit
                   || |BlockingRows(old(attempts), ip, now)| >= ipLimit then Rejected(RateLimited)
                else if user.None? || !passwordIsRight then Rejected(InvalidCredentials)
                else if !isActive then Rejected(AccountInactive)
                else Accepted(user.value)
      ensures r.Accepted? ==> WrongPasswords(attempts, r.user, now) == 0
    {
      FailuresAre(attempts, identifier, if identifier in directory then Some(directory[identifier]) else None, ip, now);
      var user := if identifier in directory then Some(directory[identifier]) else None;
      if IsRateLimited(identifier, user, ip, now) {
        Record(Attempt(identifier, user, false, RateLimited, ip, now));
        return Rejected(RateLimited);
      }
      if user.None? || !passwordIsRight {
        Record(Attempt(identifier, user, false, InvalidCredentials, ip, now));
        return Rejected(InvalidCredentials);
      }
      if !isActive {
        Record(Attempt(identifier, user, false, AccountInactive, ip, now));
        return Rejected(AccountInactive);
      }
      OneMoreRow(attempts, Attempt(identifier, user, true, NoReason, ip, now), user.value, now);
      Record(Attempt(identifier, user, true, NoReason, ip, now));
      return Accepted(user.value);
    }
  }
}
