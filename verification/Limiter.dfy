/**
 The sliding-window limiter of the REST API (app/api/routes.py): one deque of request times per key,
 pruned from the front. Calls are serial and the clock does not go back; time is real, so the
 rounding of floating point is left out.
 */
module Limiter {

  ghost predicate Sorted(h: seq<real>) {
    forall i, j | 0 <= i <= j < |h| :: h[i] <= h[j]
  }

  /** The admissions still inside the window that ends now: later than now - window. */
  function Recent(h: seq<real>, now: real, window: real): seq<real> {
    if h == [] then []
    else Recent(h[..|h| - 1], now, window) + if h[|h| - 1] > now - window then [h[|h| - 1]] else []
  }

  /** Any limit + 1 consecutive admissions span at least one window. */
  ghost predicate Spread(h: seq<real>, limit: nat, window: real) {
    forall i | 0 <= i && i + limit < |h| :: h[i + limit] - h[i] >= window
  }

  lemma {:induction false} AllRecent(h: seq<real>, now: real, window: real)
    requires forall i | 0 <= i < |h| :: h[i] > now - window
    ensures Recent(h, now, window) == h
  {
    if h != [] {
      AllRecent(h[..|h| - 1], now, window);
    }
  }

  /** On a sorted history the recent admissions are what is left when the old front is dropped. */
  lemma {:induction false} RecentIsSuffix(h: seq<real>, d: nat, now: real, window: real)
    requires Sorted(h) && d <= |h|
    requires forall i | 0 <= i < d :: h[i] <= now - window
    requires d < |h| ==> h[d] > now - window
    ensures Recent(h, now, window) == h[d..]
  {
    if d < |h| {
      var n := |h| - 1;
      assert h[d] <= h[n];
      if d == n {
        RecentOfOld(h[..n], now, window);
        assert h[d..] == [h[n]];
      } else {
        RecentIsSuffix(h[..n], d, now, window);
        assert h[..n][d..] + [h[n]] == h[d..];
      }
    } else {
      RecentOfOld(h, now, window);
    }
  }

  lemma {:induction false} RecentOfOld(h: seq<real>, now: real, window: real)
    requires forall i | 0 <= i < |h| :: h[i] <= now - window
    ensures Recent(h, now, window) == []
  {
    if h != [] {
      RecentOfOld(h[..|h| - 1], now, window);
    }
  }

  /** How many old admissions come first. */
  function Old(h: seq<real>, now: real, window: real): (d: nat)
    ensures d <= |h|
    ensures forall i | 0 <= i < d :: h[i] <= now - window
    ensures d < |h| ==> h[d] > now - window
  {
    if h == [] || h[0] > now - window then 0 else 1 + Old(h[1..], now, window)
  }

  ghost predicate AllAtMost(h: seq<real>, d: nat, t: real)
    requires d <= |h|
  {
    forall i | 0 <= i < d :: h[i] <= t
  }

  /** A deque q is the history h of its key, less admissions that have left the window. */
  ghost predicate Follows(h: seq<real>, q: seq<real>, clock: real, window: real) {
    && |q| <= |h|
    && Sorted(h)
    && h == h[..|h| - |q|] + q
    && AllAtMost(h, |h| - |q|, clock - window)
    && AllAtMost(h, |h|, clock)
  }

  lemma FollowsLater(h: seq<real>, q: seq<real>, clock: real, later: real, window: real)
    requires Follows(h, q, clock, window) && clock <= later
    ensures Follows(h, q, later, window)
  {
  }

  lemma FollowsPop(h: seq<real>, q: seq<real>, now: real, window: real)
    requires Follows(h, q, now, window) && q != [] && q[0] <= now - window
    ensures Follows(h, q[1..], now, window)
  {
    var d := |h| - |q|;
    assert h[d] == q[0];
    assert h[..d + 1] == h[..d] + [q[0]];
  }

  lemma FollowsPush(h: seq<real>, q: seq<real>, clock: real, now: real, window: real)
    requires Follows(h, q, clock, window) && clock <= now
    ensures Follows(h + [now], q + [now], now, window)
  {
    var g := h + [now];
    var d := |h| - |q|;
    assert g[..d] == h[..d];
    assert g == g[..d] + (q + [now]);
    forall i, j | 0 <= i <= j < |g| ensures g[i] <= g[j] {
      if i < |h| { assert h[i] <= clock; }
    }
  }

  /** while hits and hits[0] <= now - window: hits.popleft() */
  method PopOld(hits: seq<real>, now: real, window: real, ghost h: seq<real>) returns (q: seq<real>)
    requires Follows(h, hits, now, window)
    ensures Follows(h, q, now, window) && q == Recent(h, now, window) && |q| <= |hits|
    ensures q != [] ==> now - window < q[0] <= now
  {
    q := hits;
    while q != [] && q[0] <= now - window
      invariant Follows(h, q, now, window) && |q| <= |hits|
      decreases |q|
    {
      FollowsPop(h, q, now, window);
      q := q[1..];
    }
    PrunedIsRecent(h, q, now, window);
  }

  function SecondsToWait(oldest: real, now: real, window: real): int {
    (window - (now - oldest)).Floor + 1
  }

  /** At least one second, and at most a second more than the window: 1 to 61 for the default of 60 s. */
  lemma WaitIsGood(oldest: real, now: real, window: real)
    requires now - window < oldest <= now
    ensures GoodWait(oldest + window - now, SecondsToWait(oldest, now, window))
    ensures 1 <= SecondsToWait(oldest, now, window) && SecondsToWait(oldest, now, window) as real <= window + 1.0
    ensures oldest <= now + SecondsToWait(oldest, now, window) as real - window
  {
  }

  lemma PrunedIsRecent(h: seq<real>, q: seq<real>, now: real, window: real)
    requires Follows(h, q, now, window) && (q != [] ==> q[0] > now - window)
    ensures Recent(h, now, window) == q
    ensures q != [] ==> q[0] <= now
  {
    var d := |h| - |q|;
    if q != [] { assert h[d] == q[0]; }
    RecentIsSuffix(h, d, now, window);
    assert h[d..] == q;
  }

  // ---------------------------------------------------------------------------
  // The class
  // ---------------------------------------------------------------------------

  /** "api-fail:<address>" and "api-user:<id>" */
  datatype Key = FailuresFrom(address: string) | RequestsBy(user: nat)

  /** No token: a signed-in session. A good token may be of a user who has to change the password first. */
  datatype Token = NoToken | BadToken | GoodToken | GoodButMustChange

  /** A request, whose session or good token is of this user, and its two looks at the clock. */
  datatype Call = Call(address: string, user: nat, token: Token, t1: real, t2: real)

  /** Let through; 401; 403; or 429 with seconds to wait. */
  datatype Answer = Admitted | Unauthorized | Forbidden | TooMany(wait: int)

  /** A missing key reads as an empty deque. */
  function Under(m: map<Key, seq<real>>, key: Key): seq<real> {
    if key in m then m[key] else []
  }

  /** A bad token counts for its address, and an admitted request for its user. */
  predicate CountsFor(c: Call, r: Answer, key: Key) {
    match key
    case FailuresFrom(address) => r == Unauthorized && c.address == address
    case RequestsBy(user) => r == Admitted && c.user == user
  }

  ghost predicate Counts(before: map<Key, seq<real>>, after: map<Key, seq<real>>, c: Call, r: Answer) {
    forall k :: Under(after, k) == if CountsFor(c, r, k) then Under(before, k) + [c.t2] else Under(before, k)
  }

  /**
   What `authenticate` answers. `bad` and `own` are the recent bad tokens of the address and requests of
   the user: an address with `failures` bad ones is refused with a wait, whatever its token.
   */
  ghost predicate Answers(bad: seq<real>, own: seq<real>, c: Call, r: Answer, failures: nat, requests: nat, window: real)
    requires failures >= 1 && requests >= 1
  {
    if c.token != NoToken && |bad| >= failures then r.TooMany? && WaitOf(r.wait, bad[0], c.t1, window)
    else if c.token == BadToken then r == Unauthorized
    else if c.token == GoodButMustChange then r == Forbidden
    else if |own| >= requests then r.TooMany? && WaitOf(r.wait, own[0], c.t2, window)
    else r == Admitted
  }

  predicate WaitOf(wait: int, oldest: real, now: real, window: real) {
    GoodWait(oldest + window - now, wait) && wait as real <= window + 1.0
  }

  /** Only the history of this key changes, and is now h. */
  ghost predicate NowHas(before: map<Key, seq<real>>, after: map<Key, seq<real>>, key: Key, h: seq<real>) {
    forall k :: Under(after, k) == if k == key then h else Under(before, k)
  }

  ghost predicate FollowsAt(
    hits: map<Key, seq<real>>, history: map<Key, seq<real>>, clock: real, window: real, key: Key)
  {
    Follows(Under(history, key), Under(hits, key), clock, window)
  }

  lemma OtherFollows(
    hits: map<Key, seq<real>>, history: map<Key, seq<real>>, clock: real, window: real, now: real, k: Key)
    requires FollowsAt(hits, history, clock, window, k) && clock <= now
    ensures FollowsAt(hits, history, now, window, k)
  {
    FollowsLater(Under(history, k), Under(hits, k), clock, now, window);
  }

  lemma UnderSet(m: map<Key, seq<real>>, key: Key, q: seq<real>, k: Key)
    ensures Under(m[key := q], k) == if k == key then q else Under(m, k)
  {
  }

  lemma SetFollows(
    hits: map<Key, seq<real>>, history: map<Key, seq<real>>, clock: real, window: real,
    key: Key, q: seq<real>, h: seq<real>, now: real, k: Key)
    requires FollowsAt(hits, history, clock, window, k) && Follows(h, q, now, window) && clock <= now
    ensures FollowsAt(hits[key := q], history[key := h], now, window, k)
  {
    UnderSet(hits, key, q, k);
    UnderSet(history, key, h, k);
    if k != key {
      OtherFollows(hits, history, clock, window, now, k);
    }
  }

  class Limiter {
    const window: real
    var hits: map<Key, seq<real>>          // _HITS
    ghost var history: map<Key, seq<real>> // every admission ever made, by key
    ghost var clock: real                  // the latest time a call has read

    function Deque(key: Key): seq<real>
      reads this
    {
      Under(hits, key)
    }

    ghost function History(key: Key): seq<real>
      reads this
    {
      Under(history, key)
    }

    ghost predicate Tracks(key: Key)
      reads this
    {
      FollowsAt(hits, history, clock, window, key)
    }

    ghost predicate Valid()
      reads this
    {
      window > 0.0 && forall key {:trigger Tracks(key)} :: Tracks(key)
    }

    /** No more than `limit` admissions of the key in any window, and no more in its deque. */
    ghost predicate Fair(key: Key, limit: nat)
      reads this
    {
      Spread(History(key), limit, window) && |Deque(key)| <= limit
    }

    twostate predicate OthersAlone(key: Key)
      reads this
    {
      forall k | k != key :: Deque(k) == old(Deque(k))
    }

    constructor (window: real)
      requires window > 0.0
      ensures Valid() && this.window == window && hits == map[] && history == map[]
    {
      this.window := window;
      hits := map[];
      history := map[];
      clock := 0.0;
    }

    /** The deque and the history of one key, and the clock; the other keys keep what they track. */
    method Set(key: Key, q: seq<real>, ghost h: seq<real>, now: real)
      requires Valid() && now >= clock && Follows(h, q, now, window)
      modifies this
      ensures Valid() && clock == now && OthersAlone(key) && NowHas(old(history), history, key, h)
      ensures Deque(key) == q && History(key) == h
    {
      ghost var oldHits, oldHistory, before := hits, history, clock;
      hits := hits[key := q];
      history := history[key := h];
      clock := now;
      forall k ensures Tracks(k) {
        assert old(Tracks(k));
        SetFollows(oldHits, oldHistory, before, window, key, q, h, now, k);
      }
    }

    /** _prune */
    method Prune(key: Key, now: real)
      requires Valid() && now >= clock
      modifies this
      ensures Valid() && clock == now && OthersAlone(key) && NowHas(old(history), history, key, old(History(key)))
      ensures Deque(key) == Recent(History(key), now, window)
      ensures |Deque(key)| <= |old(Deque(key))|
      ensures Deque(key) != [] ==> now - window < Deque(key)[0] <= now
    {
      assert Tracks(key);
      FollowsLater(History(key), Deque(key), clock, now, window);
      var q := PopOld(Deque(key), now, window, History(key));
      Set(key, q, History(key), now);
    }

    /** Append one admission to the deque, and to the history it is read from. */
    method Push(key: Key, now: real)
      requires Valid() && now >= clock
      modifies this
      ensures Valid() && clock == now && OthersAlone(key)
      ensures NowHas(old(history), history, key, old(History(key)) + [now])
      ensures Deque(key) == old(Deque(key)) + [now]
    {
      assert Tracks(key);
      FollowsPush(History(key), Deque(key), clock, now, window);
      Set(key, Deque(key) + [now], History(key) + [now], now);
    }

    /** int(window - (now - hits[0])) + 1 */
    method WaitFor(q: seq<real>, now: real) returns (wait: int)
      requires q != [] && now - window < q[0] <= now
      ensures GoodWait(q[0] + window - now, wait) && 1 <= wait && wait as real <= window + 1.0
      ensures q[0] <= now + wait as real - window
    {
      WaitIsGood(q[0], now, window);
      return SecondsToWait(q[0], now, window);
    }

    /** hits.append(now), with fewer than `limit` in the pruned deque. */
    method Admit(key: Key, now: real, ghost limit: nat)
      requires Valid() && now >= clock && Deque(key) == Recent(History(key), now, window) && |Deque(key)| < limit
      modifies this
      ensures Valid() && clock == now && OthersAlone(key)
      ensures NowHas(old(history), history, key, old(History(key)) + [now])
      ensures Deque(key) == Recent(History(key), now, window)
      ensures old(Fair(key, limit)) ==> Fair(key, limit)
    {
      ghost var h := History(key);
      assert Tracks(key);
      RecentSnoc(h, now, window);
      if Spread(h, limit, window) {
        SpreadSnoc(h, now, limit, window);
      }
      Push(key, now);
    }

    /** With at least `limit` in the pruned deque; with no more than that, the wait is enough for the next lone call. */
    method Refuse(key: Key, now: real, ghost limit: nat) returns (wait: int)
      requires Valid() && now == clock && limit >= 1 && |Deque(key)| >= limit
      requires Deque(key) == Recent(History(key), now, window) && now - window < Deque(key)[0] <= now
      ensures GoodWait(Deque(key)[0] + window - now, wait) && 1 <= wait && wait as real <= window + 1.0
      ensures |Deque(key)| == limit ==> |Recent(History(key), now + wait as real, window)| < limit
    {
      wait := WaitFor(Deque(key), now);
      assert Tracks(key);
      if |Deque(key)| == limit {
        RoomAfterWaiting(History(key), Deque(key), now, now + wait as real, window);
      }
    }

    /** Count this request, or say how many seconds to wait. `limit >= 1`: the code reads hits[0]. */
    method OverLimit(key: Key, now: real, limit: nat) returns (wait: int)
      requires Valid() && now >= clock && limit >= 1
      modifies this
      ensures Valid() && clock == now && OthersAlone(key)
      ensures Deque(key) == Recent(History(key), now, window)
      ensures var recent := Recent(old(History(key)), now, window);
        && (wait == 0 <==> |recent| < limit)
        && (wait == 0 ==> NowHas(old(history), history, key, old(History(key)) + [now]))
        && (wait != 0 ==> NowHas(old(history), history, key, old(History(key))) && GoodWait(recent[0] + window - now, wait))
      ensures 0 <= wait && wait as real <= window + 1.0
      ensures old(Fair(key, limit)) ==> Fair(key, limit)
      ensures old(Fair(key, limit)) && wait != 0 ==> |Recent(History(key), now + wait as real, window)| < limit
    {
      Prune(key, now);
      if |Deque(key)| >= limit {
        wait := Refuse(key, now, limit);
        return;
      }
      Admit(key, now, limit);
      return 0;
    }

    /** Seconds to wait if the key has already reached its limit; the request itself is not counted. */
    method Blocked(key: Key, now: real, limit: nat) returns (wait: int)
      requires Valid() && now >= clock && limit >= 1
      modifies this
      ensures Valid() && clock == now && OthersAlone(key) && NowHas(old(history), history, key, old(History(key)))
      ensures Deque(key) == Recent(History(key), now, window)
      ensures wait == 0 <==> |Deque(key)| < limit
      ensures wait != 0 ==> GoodWait(Deque(key)[0] + window - now, wait)
      ensures 0 <= wait && wait as real <= window + 1.0
      ensures old(Fair(key, limit)) ==> Fair(key, limit)
    {
      Prune(key, now);
      ghost var h := History(key);
      var q := Deque(key);
      if |q| >= limit {
        wait := WaitFor(q, now);
      } else {
        wait := 0;
      }
    }

    /** _note: counted without a check. It stays fair when the recent admissions were below the limit. */
    method Note(key: Key, now: real, ghost limit: nat)
      requires Valid() && now >= clock
      modifies this
      ensures Valid() && clock == now && OthersAlone(key)
      ensures NowHas(old(history), history, key, old(History(key)) + [now])
      ensures Deque(key) == old(Deque(key)) + [now]
      ensures old(Fair(key, limit)) && |old(Deque(key))| < limit ==> Fair(key, limit)
    {
      ghost var h := History(key);
      assert Tracks(key);
      if Spread(h, limit, window) && |Deque(key)| < limit {
        RecentBelowDeque(h, Deque(key), clock, now, window);
        SpreadSnoc(h, now, limit, window);
      }
      Push(key, now);
    }

    /** The limiter's part of `authenticate`. */
    method Authenticate(c: Call, failures: nat, requests: nat) returns (r: Answer)
      requires Valid() && clock <= c.t1 <= c.t2 && failures >= 1 && requests >= 1
      modifies this
      ensures Valid() && clock <= c.t2
      ensures Answers(Recent(old(History(FailuresFrom(c.address))), c.t1, window),
                      Recent(old(History(RequestsBy(c.user))), c.t2, window), c, r, failures, requests, window)
      ensures Counts(old(history), history, c, r)
      ensures old(Fair(FailuresFrom(c.address), failures)) ==> Fair(FailuresFrom(c.address), failures)
      ensures old(Fair(RequestsBy(c.user), requests)) ==> Fair(RequestsBy(c.user), requests)
      ensures forall k | k != FailuresFrom(c.address) && k != RequestsBy(c.user) :: Deque(k) == old(Deque(k))
    {
      if c.token != NoToken {
        var blocked := Blocked(FailuresFrom(c.address), c.t1, failures);
        if blocked != 0 {
          return TooMany(blocked);
        }
      }
      if c.token == BadToken {
        Note(FailuresFrom(c.address), c.t2, failures);
        return Unauthorized;
      }
      if c.token == GoodButMustChange {
        return Forbidden;
      }
      var wait := OverLimit(RequestsBy(c.user), c.t2, requests);
      if wait != 0 {
        return TooMany(wait);
      }
      return Admitted;
    }
  }

  /**
   What a returned wait promises: the oldest admission in the window leaves it in `remaining` seconds;
   the wait is later than that by at most one second.
   */
  predicate GoodWait(remaining: real, wait: int) {
    remaining > 0.0 && wait >= 1 && remaining < wait as real <= remaining + 1.0
  }

  // ---------------------------------------------------------------------------
  // Windows
  // ---------------------------------------------------------------------------

  lemma RecentSnoc(h: seq<real>, now: real, window: real)
    requires window > 0.0
    ensures Recent(h + [now], now, window) == Recent(h, now, window) + [now]
  {
    assert (h + [now])[..|h|] == h;
  }

  lemma RecentBelowDeque(h: seq<real>, q: seq<real>, clock: real, now: real, window: real)
    requires Follows(h, q, clock, window) && clock <= now
    ensures |Recent(h, now, window)| <= |q|
  {
    var d := Old(h, now, window);
    RecentIsSuffix(h, d, now, window);
  }

  /** An admission made while fewer than `limit` are recent keeps the history spread out. */
  lemma SpreadSnoc(h: seq<real>, now: real, limit: nat, window: real)
    requires Sorted(h) && Spread(h, limit, window) && limit >= 1 && |Recent(h, now, window)| < limit
    ensures Spread(h + [now], limit, window)
  {
    var g := h + [now];
    if limit <= |h| {
      var i := |h| - limit;
      var d := Old(h, now, window);
      RecentIsSuffix(h, d, now, window);
      assert i < d && h[i] <= now - window;
    }
    forall i | 0 <= i && i + limit < |g| ensures g[i + limit] - g[i] >= window {
      if i + limit < |h| {
        assert h[i + limit] - h[i] >= window;
      }
    }
  }

  lemma RoomAfterWaiting(h: seq<real>, q: seq<real>, now: real, later: real, window: real)
    requires Follows(h, q, now, window) && q != [] && now <= later && q[0] <= later - window
    ensures |Recent(h, later, window)| < |q|
  {
    FollowsLater(h, q, now, later, window);
    FollowsPop(h, q, later, window);
    RecentBelowDeque(h, q[1..], later, later, window);
  }

  /** How many times of h lie in the window (t - window, t]. */
  function CountIn(h: seq<real>, t: real, window: real): nat {
    if h == [] then 0
    else CountIn(h[..|h| - 1], t, window) + if t - window < h[|h| - 1] <= t then 1 else 0
  }

  lemma {:induction false} CountIsBetween(h: seq<real>, t: real, window: real, d: nat, e: nat)
    requires Sorted(h) && d <= e <= |h|
    requires forall i | 0 <= i < d :: h[i] <= t - window
    requires forall i | e <= i < |h| :: h[i] > t
    ensures CountIn(h, t, window) <= e - d
  {
    if h != [] {
      var n := |h| - 1;
      if e == |h| {
        if d == e {
          CountIsBetween(h[..n], t, window, n, n);
        } else {
          CountIsBetween(h[..n], t, window, d, n);
        }
      } else {
        CountIsBetween(h[..n], t, window, d, e);
      }
    }
  }

  function UpTo(h: seq<real>, t: real): (e: nat)
    ensures e <= |h|
    ensures forall i | 0 <= i < e :: h[i] <= t
    ensures e < |h| ==> h[e] > t
  {
    if h == [] || h[0] > t then 0 else 1 + UpTo(h[1..], t)
  }

  /** No window of that length, wherever it ends, ever holds more than `limit` admissions. */
  lemma NoWindowHoldsMore(h: seq<real>, t: real, limit: nat, window: real)
    requires Sorted(h) && Spread(h, limit, window) && window > 0.0
    ensures CountIn(h, t, window) <= limit
  {
    var d, e := Old(h, t, window), UpTo(h, t);
    assert d + limit < |h| ==> h[d + limit] - h[d] >= window;
    assert e < |h| ==> e >= d;
    CountIsBetween(h, t, window, d, e);
  }

  /** How many times of h lie in the closed window [t - window, t]. */
  function CountClosed(h: seq<real>, t: real, window: real): nat {
    if h == [] then 0
    else CountClosed(h[..|h| - 1], t, window) + if t - window <= h[|h| - 1] <= t then 1 else 0
  }

  lemma {:induction false} CountClosedIs(h: seq<real>, t: real, window: real, d: nat, e: nat)
    requires Sorted(h) && d <= e <= |h|
    requires forall i | 0 <= i < d :: h[i] < t - window
    requires forall i | d <= i < e :: t - window <= h[i] <= t
    requires forall i | e <= i < |h| :: h[i] > t
    ensures CountClosed(h, t, window) == e - d
  {
    if h != [] {
      var n := |h| - 1;
      if e == |h| {
        if d == e {
          CountClosedIs(h[..n], t, window, n, n);
        } else {
          CountClosedIs(h[..n], t, window, d, n);
        }
      } else {
        CountClosedIs(h[..n], t, window, d, e);
      }
    }
  }

  function Before(h: seq<real>, t: real): (d: nat)
    ensures d <= |h|
    ensures forall i | 0 <= i < d :: h[i] < t
    ensures d < |h| ==> h[d] >= t
  {
    if h == [] || h[0] >= t then 0 else 1 + Before(h[1..], t)
  }

  /**
   With both its ends, a window holds more than `limit` admissions exactly when one lies on its right
   end and the admission `limit` places before it on its left end.
   */
  lemma ClosedWindowHoldsMoreIff(h: seq<real>, t: real, limit: nat, window: real)
    requires Sorted(h) && Spread(h, limit, window) && window > 0.0
    ensures CountClosed(h, t, window) > limit
       <==> exists i :: 0 <= i && i + limit < |h| && h[i] == t - window && h[i + limit] == t
  {
    var d, e := Before(h, t - window), UpTo(h, t);
    assert e < |h| ==> e >= d;
    CountClosedIs(h, t, window, d, e);
    if d + limit < e {
      assert h[d + limit] - h[d] >= window;
      assert h[d] == t - window && h[d + limit] == t;
    }
    if i :| 0 <= i && i + limit < |h| && h[i] == t - window && h[i + limit] == t {
      assert i >= d && i + limit < e;
    }
  }

  /** The window is half-open: with both ends included it can hold one more. */
  lemma ClosedWindowMayHoldMore()
    ensures var h := [0.0, 60.0];
            Sorted(h) && Spread(h, 1, 60.0) && CountIn(h, 60.0, 60.0) == 1 && h[0] >= 60.0 - 60.0 && h[1] <= 60.0
  {
    var h := [0.0, 60.0];
    assert h[..1] == [0.0] && h[..1][..0] == [];
    assert CountIn(h[..1], 60.0, 60.0) == 0;
  }

  /** The same as one function: the admissions of a series of calls. */
  function Admissions(calls: seq<real>, limit: nat, window: real): seq<real> {
    if calls == [] then []
    else
      var h := Admissions(calls[..|calls| - 1], limit, window);
      var now := calls[|calls| - 1];
      if |Recent(h, now, window)| < limit then h + [now] else h
  }

  lemma SortedSnoc(h: seq<real>, now: real)
    requires Sorted(h) && (h != [] ==> h[|h| - 1] <= now)
    ensures Sorted(h + [now])
  {
    var g := h + [now];
    forall i, j | 0 <= i <= j < |g| ensures g[i] <= g[j] {
      if i < |h| { assert h[i] <= h[|h| - 1]; }
    }
  }

  lemma {:induction false} RecentIsPart(h: seq<real>, now: real, window: real)
    ensures |Recent(h, now, window)| <= |h|
  {
    if h != [] {
      RecentIsPart(h[..|h| - 1], now, window);
    }
  }

  /** The admissions h of these calls: no window holds too many, and the first `limit` calls are all admitted. */
  ghost predicate FairTo(calls: seq<real>, h: seq<real>, limit: nat, window: real) {
    && Sorted(h) && Spread(h, limit, window)
    && (h != [] ==> calls != [] && h[|h| - 1] <= calls[|calls| - 1])
    && |h| <= |calls| && (|calls| <= limit ==> h == calls)
  }

  lemma FairNext(calls: seq<real>, h: seq<real>, now: real, limit: nat, window: real)
    requires FairTo(calls, h, limit, window) && (calls != [] ==> calls[|calls| - 1] <= now) && limit >= 1
    ensures FairTo(calls + [now], if |Recent(h, now, window)| < limit then h + [now] else h, limit, window)
  {
    RecentIsPart(h, now, window);
    if |Recent(h, now, window)| < limit {
      SpreadSnoc(h, now, limit, window);
      SortedSnoc(h, now);
    }
  }

  /** For any series of calls with a clock that does not go back. */
  lemma {:induction false} AdmissionsAreFair(calls: seq<real>, limit: nat, window: real)
    requires Sorted(calls) && limit >= 1 && window > 0.0
    ensures FairTo(calls, Admissions(calls, limit, window), limit, window)
  {
    if calls != [] {
      var n := |calls| - 1;
      AdmissionsAreFair(calls[..n], limit, window);
      FairNext(calls[..n], Admissions(calls[..n], limit, window), calls[n], limit, window);
      assert calls[..n] + [calls[n]] == calls;
    }
  }

  // ---------------------------------------------------------------------------
  // A series of requests
  // ---------------------------------------------------------------------------

  ghost predicate AnswersAt(
    calls: seq<Call>, answers: seq<Answer>, hs: seq<map<Key, seq<real>>>, failures: nat, requests: nat, window: real, i: nat)
    requires failures >= 1 && requests >= 1 && i < |calls| == |answers| && |hs| == |calls| + 1
  {
    var c, r := calls[i], answers[i];
    && Answers(Recent(Under(hs[i], FailuresFrom(c.address)), c.t1, window),
               Recent(Under(hs[i], RequestsBy(c.user)), c.t2, window), c, r, failures, requests, window)
    && Counts(hs[i], hs[i + 1], c, r)
  }

  /** Requests one after the other from an empty limiter: their answers, and the histories between them. */
  ghost predicate IsSeries(
    calls: seq<Call>, answers: seq<Answer>, hs: seq<map<Key, seq<real>>>, failures: nat, requests: nat, window: real)
    requires failures >= 1 && requests >= 1
  {
    && |answers| == |calls| && |hs| == |calls| + 1 && hs[0] == map[]
    && forall i: nat | i < |calls| :: AnswersAt(calls, answers, hs, failures, requests, window, i)
  }

  /** How many of the first n requests were counted for this key later than `since`. */
  function Counted(calls: seq<Call>, answers: seq<Answer>, n: nat, key: Key, since: real): nat
    requires n <= |calls| == |answers|
  {
    if n == 0 then 0
    else
      Counted(calls, answers, n - 1, key, since)
      + if CountsFor(calls[n - 1], answers[n - 1], key) && calls[n - 1].t2 > since then 1 else 0
  }

  lemma RecentOneMore(h: seq<real>, t: real, now: real, window: real)
    ensures |Recent(h + [t], now, window)| == |Recent(h, now, window)| + if t > now - window then 1 else 0
  {
    assert (h + [t])[..|h|] == h;
  }

  /** The histories are what the answers say. */
  lemma {:induction false} HistoryCounts(
    calls: seq<Call>, answers: seq<Answer>, hs: seq<map<Key, seq<real>>>, failures: nat, requests: nat, window: real,
    n: nat, key: Key, now: real)
    requires failures >= 1 && requests >= 1 && IsSeries(calls, answers, hs, failures, requests, window) && n <= |calls|
    ensures |Recent(Under(hs[n], key), now, window)| == Counted(calls, answers, n, key, now - window)
  {
    if n > 0 {
      HistoryCounts(calls, answers, hs, failures, requests, window, n - 1, key, now);
      assert AnswersAt(calls, answers, hs, failures, requests, window, n - 1);
      RecentOneMore(Under(hs[n - 1], key), calls[n - 1].t2, now, window);
    }
  }

  /** Whether 429, 401, 403 or nothing, from the two counts alone. */
  ghost predicate AnswersBy(guessing: bool, busy: bool, c: Call, r: Answer, window: real) {
    && (c.token == NoToken ==> if busy then r.TooMany? else r == Admitted)
    && (c.token != NoToken && guessing ==> r.TooMany?)
    && (c.token == BadToken && !guessing ==> r == Unauthorized)
    && (c.token == GoodToken && !guessing ==> if busy then r.TooMany? else r == Admitted)
    && (c.token == GoodButMustChange && !guessing ==> r == Forbidden)
    && (r.TooMany? ==> r.wait >= 1 && r.wait as real <= window + 1.0)
  }

  lemma AnswersBySize(bad: seq<real>, own: seq<real>, c: Call, r: Answer, failures: nat, requests: nat, window: real)
    requires failures >= 1 && requests >= 1 && Answers(bad, own, c, r, failures, requests, window)
    ensures AnswersBy(|bad| >= failures, |own| >= requests, c, r, window)
  {
  }

  /**
   Every answer of a series, told by the answers before it: a request with a token is refused with a wait
   when its address got `failures` times 401 within the window, a good token like a bad one; otherwise a
   bad token gets 401; and a request of a user is admitted unless `requests` of that user were admitted
   within the window.
   */
  lemma AnswersFollow(
    calls: seq<Call>, answers: seq<Answer>, hs: seq<map<Key, seq<real>>>, failures: nat, requests: nat, window: real, i: nat)
    requires failures >= 1 && requests >= 1 && IsSeries(calls, answers, hs, failures, requests, window) && i < |calls|
    ensures var c, r := calls[i], answers[i];
      var guessing := Counted(calls, answers, i, FailuresFrom(c.address), c.t1 - window) >= failures;
      var busy := Counted(calls, answers, i, RequestsBy(c.user), c.t2 - window) >= requests;
      AnswersBy(guessing, busy, c, r, window)
  {
    var c := calls[i];
    HistoryCounts(calls, answers, hs, failures, requests, window, i, FailuresFrom(c.address), c.t1);
    HistoryCounts(calls, answers, hs, failures, requests, window, i, RequestsBy(c.user), c.t2);
    assert AnswersAt(calls, answers, hs, failures, requests, window, i);
    AnswersBySize(Recent(Under(hs[i], FailuresFrom(c.address)), c.t1, window),
                  Recent(Under(hs[i], RequestsBy(c.user)), c.t2, window), c, answers[i], failures, requests, window);
  }
}
