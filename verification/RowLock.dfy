/**
 Transactions that lock one parent row, read with a plain SELECT, write, and commit.

 This is the protocol of design decision D8: an append-only child table is protected only by
 locking the parent row first. Any number of transactions are interleaved step by step; at any
 step a transaction may also fail and roll back. `plan` is what one transaction decides from the
 state it read (None: it refuses), and `merge` is what its statements do to the committed state at
 COMMIT. A write draws a ticket from one counter shared by all rows, like AUTO_INCREMENT: a ticket
 of a rolled-back transaction is lost, so ids may have gaps.

 Note that `merge` is applied to the row as it is at COMMIT, not to the state that was read: that
 the two agree is what the lock has to guarantee.
 */
module RowLock {
  import opened Wrappers

  type Key = nat
  type Tid = nat

  datatype Phase<V, D> =
    | Waiting
    | Locked
    | HasRead(seen: V)
    | Wrote(delta: D, ticket: nat)
    | Finished

  datatype Txn<V, O, D> = Txn(key: Key, op: O, phase: Phase<V, D>)

  /** What a COMMIT leaves in the history: a new row, or one operation on an existing row. */
  datatype Event<V, O> =
    | Born(key: Key, initial: V, ticket: nat)
    | Done(key: Key, op: O, ticket: nat)

  datatype Rules<!V, !O, !D> = Rules(plan: (V, O, nat) -> Option<D>, merge: (V, D) -> V)

  datatype Sys<V, O, D> = Sys(
    rows: map<Key, V>,
    owner: map<Key, Tid>,
    txns: map<Tid, Txn<V, O, D>>,
    next: nat,
    history: seq<Event<V, O>>)

  // ---------------------------------------------------------------------------
  // Steps
  // ---------------------------------------------------------------------------

  ghost predicate Init<V, O, D>(s: Sys<V, O, D>) {
    s == Sys(map[], map[], map[], 0, [])
  }

  ghost predicate InPhase<V, O, D>(s: Sys<V, O, D>, tid: Tid) {
    tid in s.txns && !s.txns[tid].phase.Finished?
  }

  predicate Holds<V, D>(p: Phase<V, D>) {
    p.Locked? || p.HasRead? || p.Wrote?
  }

  function At<V, O, D>(s: Sys<V, O, D>, tid: Tid, p: Phase<V, D>): Sys<V, O, D>
    requires tid in s.txns
  {
    s.(txns := s.txns[tid := s.txns[tid].(phase := p)])
  }

  function Release<V, O, D>(s: Sys<V, O, D>, tid: Tid): Sys<V, O, D>
    requires tid in s.txns
  {
    var key := s.txns[tid].key;
    var released := if Holds(s.txns[tid].phase) then s.owner - {key} else s.owner;
    At(s, tid, Finished).(owner := released)
  }

  /** A transaction of its own inserts a new parent row and commits. */
  ghost predicate Create<V, O, D>(s: Sys<V, O, D>, s': Sys<V, O, D>, key: Key, v: V) {
    && key !in s.rows
    && s' == s.(rows := s.rows[key := v], next := s.next + 1, history := s.history + [Born(key, v, s.next)])
  }

  ghost predicate Begin<V, O, D>(s: Sys<V, O, D>, s': Sys<V, O, D>, tid: Tid, key: Key, op: O) {
    && tid !in s.txns
    && s' == s.(txns := s.txns[tid := Txn(key, op, Waiting)])
  }

  /** SELECT ... FOR UPDATE on the parent row: waits while another transaction holds it. */
  ghost predicate Lock<V, O, D>(s: Sys<V, O, D>, s': Sys<V, O, D>, tid: Tid) {
    && tid in s.txns && s.txns[tid].phase.Waiting?
    && var key := s.txns[tid].key;
    && key in s.rows && key !in s.owner
    && s' == At(s, tid, Locked).(owner := s.owner[key := tid])
  }

  /** The plain read: it takes no lock and sees what is committed. */
  ghost predicate Read<V, O, D>(s: Sys<V, O, D>, s': Sys<V, O, D>, tid: Tid) {
    && tid in s.txns && s.txns[tid].phase.Locked?
    && s.txns[tid].key in s.rows
    && s' == At(s, tid, HasRead(s.rows[s.txns[tid].key]))
  }

  ghost predicate Write<V, O, D>(r: Rules<V, O, D>, s: Sys<V, O, D>, s': Sys<V, O, D>, tid: Tid) {
    && tid in s.txns && s.txns[tid].phase.HasRead?
    && var t := s.txns[tid];
    && var planned := r.plan(t.phase.seen, t.op, s.next);
    && planned.Some?
    && s' == At(s, tid, Wrote(planned.value, s.next)).(next := s.next + 1)
  }

  ghost predicate Refuse<V, O, D>(r: Rules<V, O, D>, s: Sys<V, O, D>, s': Sys<V, O, D>, tid: Tid) {
    && tid in s.txns && s.txns[tid].phase.HasRead?
    && r.plan(s.txns[tid].phase.seen, s.txns[tid].op, s.next).None?
    && s' == Release(s, tid)
  }

  ghost predicate Commit<V, O, D>(r: Rules<V, O, D>, s: Sys<V, O, D>, s': Sys<V, O, D>, tid: Tid) {
    && tid in s.txns && s.txns[tid].phase.Wrote?
    && var t := s.txns[tid];
    && t.key in s.rows
    && s' == Release(s, tid).(
               rows := s.rows[t.key := r.merge(s.rows[t.key], t.phase.delta)],
               history := s.history + [Done(t.key, t.op, t.phase.ticket)])
  }

  /** An exception, a deadlock, a lost connection: at any moment, for any reason. */
  ghost predicate Abort<V, O, D>(s: Sys<V, O, D>, s': Sys<V, O, D>, tid: Tid) {
    InPhase(s, tid) && s' == Release(s, tid)
  }

  ghost predicate StepOf<V, O, D>(r: Rules<V, O, D>, s: Sys<V, O, D>, s': Sys<V, O, D>, tid: Tid) {
    || Lock(s, s', tid)
    || Read(s, s', tid)
    || Write(r, s, s', tid)
    || Refuse(r, s, s', tid)
    || Commit(r, s, s', tid)
    || Abort(s, s', tid)
  }

  ghost predicate Next<V(!new), O(!new), D(!new)>(r: Rules<V, O, D>, s: Sys<V, O, D>, s': Sys<V, O, D>) {
    || (exists key, v :: Create(s, s', key, v))
    || (exists tid, key, op :: Begin(s, s', tid, key, op))
    || (exists tid :: StepOf(r, s, s', tid))
  }

  ghost predicate StepAt<V(!new), O(!new), D(!new)>(r: Rules<V, O, D>, run: seq<Sys<V, O, D>>, i: nat)
    requires i + 1 < |run|
  {
    Next(r, run[i], run[i + 1])
  }

  /** A run: any interleaving of any number of transactions, of any length. */
  ghost predicate IsRun<V(!new), O(!new), D(!new)>(r: Rules<V, O, D>, run: seq<Sys<V, O, D>>) {
    && |run| > 0
    && Init(run[0])
    && forall i | 0 <= i < |run| - 1 :: StepAt(r, run, i)
  }

  // ---------------------------------------------------------------------------
  // The serial reading of a history
  // ---------------------------------------------------------------------------

  /** One operation, run alone on its row from start to end. */
  function Serial<V, O, D>(r: Rules<V, O, D>, v: V, op: O, ticket: nat): V {
    match r.plan(v, op, ticket)
    case None => v
    case Some(d) => r.merge(v, d)
  }

  function Replay1<V, O, D>(r: Rules<V, O, D>, rows: map<Key, V>, e: Event<V, O>): map<Key, V> {
    match e
    case Born(key, v, _) => rows[key := v]
    case Done(key, op, ticket) =>
      if key in rows then rows[key := Serial(r, rows[key], op, ticket)] else rows
  }

  function Replay<V, O, D>(r: Rules<V, O, D>, history: seq<Event<V, O>>): map<Key, V> {
    if history == [] then map[]
    else Replay1(r, Replay(r, history[..|history| - 1]), history[|history| - 1])
  }

  // ---------------------------------------------------------------------------
  // The invariant of the protocol
  // ---------------------------------------------------------------------------

  /** A lock is held exactly by the one transaction recorded as its owner. */
  ghost predicate LocksAgree<V, O, D>(s: Sys<V, O, D>) {
    && (forall key | key in s.owner ::
          && s.owner[key] in s.txns
          && s.txns[s.owner[key]].key == key
          && Holds(s.txns[s.owner[key]].phase))
    && (forall tid | tid in s.txns && Holds(s.txns[tid].phase) ::
          && s.txns[tid].key in s.rows
          && s.txns[tid].key in s.owner
          && s.owner[s.txns[tid].key] == tid)
  }

  /** What a transaction read is still what is committed, until it ends. */
  ghost predicate ReadsAreCurrent<V, O, D>(r: Rules<V, O, D>, s: Sys<V, O, D>) {
    forall tid | tid in s.txns && s.txns[tid].key in s.rows ::
      var t := s.txns[tid];
      && (t.phase.HasRead? ==> t.phase.seen == s.rows[t.key])
      && (t.phase.Wrote? ==>
            && t.phase.ticket < s.next
            && r.plan(s.rows[t.key], t.op, t.phase.ticket) == Some(t.phase.delta))
  }

  ghost predicate Ordered<V, O>(history: seq<Event<V, O>>) {
    forall i, j | 0 <= i < j < |history| && history[i].key == history[j].key :: history[i].ticket < history[j].ticket
  }

  /** On every row, tickets are committed in the order they were drawn. */
  ghost predicate TicketsInOrder<V, O, D>(s: Sys<V, O, D>) {
    && (forall i | 0 <= i < |s.history| :: s.history[i].ticket < s.next && s.history[i].key in s.rows)
    && Ordered(s.history)
    && (forall tid, i | tid in s.txns && s.txns[tid].phase.Wrote? && 0 <= i < |s.history|
                     && s.history[i].key == s.txns[tid].key ::
          s.history[i].ticket < s.txns[tid].phase.ticket)
  }

  ghost predicate Inv<V, O, D>(r: Rules<V, O, D>, s: Sys<V, O, D>) {
    && LocksAgree(s)
    && ReadsAreCurrent(r, s)
    && TicketsInOrder(s)
    && s.rows == Replay(r, s.history)
  }

  lemma ReplaySnoc<V, O, D>(r: Rules<V, O, D>, h: seq<Event<V, O>>, e: Event<V, O>)
    ensures Replay(r, h + [e]) == Replay1(r, Replay(r, h), e)
  {
    assert (h + [e])[..|h + [e]| - 1] == h;
  }

  lemma CreateKeepsInv<V, O, D>(r: Rules<V, O, D>, s: Sys<V, O, D>, s': Sys<V, O, D>, key: Key, v: V)
    requires Inv(r, s) && Create(s, s', key, v)
    ensures Inv(r, s')
  {
    assert LocksAgree(s');
    assert ReadsAreCurrent(r, s') by {
      forall tid | tid in s'.txns && s'.txns[tid].key in s'.rows && Holds(s'.txns[tid].phase)
        ensures s'.rows[s'.txns[tid].key] == s.rows[s.txns[tid].key] && s.txns[tid].key in s.rows
      {
      }
    }
    assert TicketsInOrder(s') by { CreateKeepsTickets(s, s', key, v); }
    ReplaySnoc(r, s.history, Born(key, v, s.next));
  }

  lemma CreateKeepsTickets<V, O, D>(s: Sys<V, O, D>, s': Sys<V, O, D>, key: Key, v: V)
    requires LocksAgree(s) && TicketsInOrder(s) && Create(s, s', key, v)
    ensures TicketsInOrder(s')
  {
    var h := s.history;
    forall i, j | 0 <= i < j < |s'.history| && s'.history[i].key == s'.history[j].key
      ensures s'.history[i].ticket < s'.history[j].ticket
    {
      assert h[i].key in s.rows;
    }
  }

  lemma CommitKeepsTickets<V, O, D>(r: Rules<V, O, D>, s: Sys<V, O, D>, s': Sys<V, O, D>, tid: Tid)
    requires LocksAgree(s) && ReadsAreCurrent(r, s) && TicketsInOrder(s) && Commit(r, s, s', tid)
    ensures TicketsInOrder(s')
  {
    var h, t := s.history, s.txns[tid];
    forall i, j | 0 <= i < j < |s'.history| && s'.history[i].key == s'.history[j].key
      ensures s'.history[i].ticket < s'.history[j].ticket
    {
      if j < |h| { assert h[i].key == h[j].key; } else { assert h[i].key == t.key; }
    }
    forall other, i | other in s'.txns && s'.txns[other].phase.Wrote? && 0 <= i < |s'.history|
                   && s'.history[i].key == s'.txns[other].key
      ensures s'.history[i].ticket < s'.txns[other].phase.ticket
    {
      assert other != tid && s.txns[other] == s'.txns[other];
      assert s.txns[other].key != t.key;
    }
  }

  lemma CommitKeepsInv<V, O, D>(r: Rules<V, O, D>, s: Sys<V, O, D>, s': Sys<V, O, D>, tid: Tid)
    requires Inv(r, s) && Commit(r, s, s', tid)
    ensures Inv(r, s')
  {
    var t := s.txns[tid];
    assert forall other | other in s.txns && other != tid && Holds(s.txns[other].phase) ::
        s.txns[other].key != t.key;
    assert LocksAgree(s');
    assert ReadsAreCurrent(r, s');
    CommitKeepsTickets(r, s, s', tid);
    ReplaySnoc(r, s.history, Done(t.key, t.op, t.phase.ticket));
  }

  /** Every step but a COMMIT leaves the committed rows and the history alone. */
  lemma QuietStep<V, O, D>(r: Rules<V, O, D>, s: Sys<V, O, D>, s': Sys<V, O, D>, tid: Tid)
    requires StepOf(r, s, s', tid) && !Commit(r, s, s', tid)
    ensures s'.rows == s.rows && s'.history == s.history && s.next <= s'.next
    ensures tid in s.txns && s'.txns.Keys == s.txns.Keys && s'.txns[tid].key == s.txns[tid].key
    ensures forall other | other in s.txns && other != tid :: s'.txns[other] == s.txns[other]
    ensures s'.txns[tid].phase.Wrote? ==> s'.txns[tid].phase.ticket == s.next < s'.next
  {
  }

  lemma QuietStepKeepsLocks<V, O, D>(r: Rules<V, O, D>, s: Sys<V, O, D>, s': Sys<V, O, D>, tid: Tid)
    requires Inv(r, s) && StepOf(r, s, s', tid) && !Commit(r, s, s', tid)
    ensures LocksAgree(s')
  {
    if Lock(s, s', tid) {
    } else if Read(s, s', tid) {
    } else if Write(r, s, s', tid) {
    } else {
      assert s' == Release(s, tid);
    }
  }

  lemma QuietStepKeepsReads<V, O, D>(r: Rules<V, O, D>, s: Sys<V, O, D>, s': Sys<V, O, D>, tid: Tid)
    requires Inv(r, s) && StepOf(r, s, s', tid) && !Commit(r, s, s', tid)
    ensures ReadsAreCurrent(r, s')
  {
    QuietStep(r, s, s', tid);
  }

  lemma QuietStepKeepsTickets<V, O, D>(s: Sys<V, O, D>, s': Sys<V, O, D>, tid: Tid)
    requires TicketsInOrder(s)
    requires s'.rows == s.rows && s'.history == s.history && s.next <= s'.next
    requires s'.txns.Keys == s.txns.Keys
    requires forall other | other in s.txns && other != tid :: s'.txns[other] == s.txns[other]
    requires tid in s.txns && s'.txns[tid].key == s.txns[tid].key
    requires s'.txns[tid].phase.Wrote? ==> s'.txns[tid].phase.ticket == s.next
    ensures TicketsInOrder(s')
  {
  }

  lemma StepKeepsInv<V, O, D>(r: Rules<V, O, D>, s: Sys<V, O, D>, s': Sys<V, O, D>, tid: Tid)
    requires Inv(r, s) && StepOf(r, s, s', tid)
    ensures Inv(r, s')
  {
    if Commit(r, s, s', tid) {
      CommitKeepsInv(r, s, s', tid);
    } else {
      QuietStep(r, s, s', tid);
      QuietStepKeepsLocks(r, s, s', tid);
      QuietStepKeepsReads(r, s, s', tid);
      QuietStepKeepsTickets(s, s', tid);
    }
  }

  lemma NextKeepsInv<V(!new), O(!new), D(!new)>(r: Rules<V, O, D>, s: Sys<V, O, D>, s': Sys<V, O, D>)
    requires Inv(r, s) && Next(r, s, s')
    ensures Inv(r, s')
  {
    if key, v :| Create(s, s', key, v) {
      CreateKeepsInv(r, s, s', key, v);
    } else if tid, key, op :| Begin(s, s', tid, key, op) {
    } else {
      var tid :| StepOf(r, s, s', tid);
      StepKeepsInv(r, s, s', tid);
    }
  }

  /** Every state of every interleaving satisfies the invariant. */
  lemma {:induction false} RunInv<V(!new), O(!new), D(!new)>(r: Rules<V, O, D>, run: seq<Sys<V, O, D>>, i: nat)
    requires IsRun(r, run) && i < |run|
    ensures Inv(r, run[i])
  {
    if i > 0 {
      RunInv(r, run, i - 1);
      assert StepAt(r, run, i - 1);
      NextKeepsInv(r, run[i - 1], run[i]);
    }
  }

  // ---------------------------------------------------------------------------
  // Main results
  // ---------------------------------------------------------------------------

  /**
   Serializability: whatever the interleaving, the committed rows are those of running the committed
   operations one after the other, each alone from start to end, in the order of their commits.
   */
  lemma Serializable<V(!new), O(!new), D(!new)>(r: Rules<V, O, D>, run: seq<Sys<V, O, D>>, i: nat)
    requires IsRun(r, run) && i < |run|
    ensures run[i].rows == Replay(r, run[i].history)
    ensures TicketsInOrder(run[i])
  {
    RunInv(r, run, i);
  }

  /** `good(v, n)`: v is good, and the ids in it were drawn before ticket n. */
  ghost predicate KeptBy<V(!new), O(!new), D(!new)>(r: Rules<V, O, D>, good: (V, nat) -> bool) {
    && (forall v, n: nat, m: nat :: good(v, n) && n <= m ==> good(v, m))
    && (forall v, op, n: nat ::
          good(v, n) ==> var p := r.plan(v, op, n); p.Some? ==> good(r.merge(v, p.value), n + 1))
  }

  ghost predicate BornGood<V, O>(history: seq<Event<V, O>>, good: (V, nat) -> bool) {
    forall i | 0 <= i < |history| && history[i].Born? :: good(history[i].initial, history[i].ticket + 1)
  }

  /** The ticket counter a row has reached in a history. */
  function Reached<V, O>(history: seq<Event<V, O>>, key: Key): nat {
    if history == [] then 0
    else
      var e := history[|history| - 1];
      if e.key == key then e.ticket + 1
      else Reached(history[..|history| - 1], key)
  }

  lemma {:induction false} ReachedBelow<V, O>(history: seq<Event<V, O>>, key: Key, t: nat)
    requires forall i | 0 <= i < |history| && history[i].key == key :: history[i].ticket < t
    ensures Reached(history, key) <= t
  {
    if history != [] {
      ReachedBelow(history[..|history| - 1], key, t);
    }
  }

  /** The same for the operations that meet `ok` on the row they find. */
  ghost predicate KeptWhen<V(!new), O(!new), D(!new)>(
    r: Rules<V, O, D>, good: (V, nat) -> bool, ok: (V, O) -> bool)
  {
    && (forall v, n: nat, m: nat :: good(v, n) && n <= m ==> good(v, m))
    && (forall v, op, n: nat ::
          good(v, n) && ok(v, op) ==> var p := r.plan(v, op, n); p.Some? ==> good(r.merge(v, p.value), n + 1))
  }

  /** Every operation committed on the row met `ok` when its turn came. */
  ghost predicate TurnsOk<V, O, D>(r: Rules<V, O, D>, history: seq<Event<V, O>>, key: Key, ok: (V, O) -> bool) {
    history == [] ||
    var h, e := history[..|history| - 1], history[|history| - 1];
    && TurnsOk(r, h, key, ok)
    && (e.Done? && e.key == key && key in Replay(r, h) ==> ok(Replay(r, h)[key], e.op))
  }

  lemma {:induction false} ReplayIsGood<V(!new), O(!new), D(!new)>(
    r: Rules<V, O, D>, good: (V, nat) -> bool, ok: (V, O) -> bool, history: seq<Event<V, O>>, key: Key)
    requires KeptWhen(r, good, ok) && BornGood(history, good) && Ordered(history) && TurnsOk(r, history, key, ok)
    ensures key in Replay(r, history) ==> good(Replay(r, history)[key], Reached(history, key))
  {
    if history != [] {
      var h, e := history[..|history| - 1], history[|history| - 1];
      ReplayIsGood(r, good, ok, h, key);
      if e.Done? && e.key == key && key in Replay(r, h) {
        var v := Replay(r, h)[key];
        ReachedBelow(h, key, e.ticket);
        assert good(v, e.ticket);
        var p := r.plan(v, e.op, e.ticket);
        assert p.Some? ==> good(r.merge(v, p.value), e.ticket + 1);
      }
      if e.Born? && e.key == key {
        assert good(history[|history| - 1].initial, e.ticket + 1);
      }
    }
  }

  /**
   A property that the operations meeting `ok` preserve when they run alone holds of every row of
   every reachable state on which each committed operation met `ok` at its turn.
   */
  lemma GoodWhenTurnsOk<V(!new), O(!new), D(!new)>(
    r: Rules<V, O, D>, good: (V, nat) -> bool, ok: (V, O) -> bool, run: seq<Sys<V, O, D>>, i: nat, key: Key)
    requires IsRun(r, run) && i < |run|
    requires KeptWhen(r, good, ok) && BornGood(run[i].history, good)
    requires TurnsOk(r, run[i].history, key, ok)
    requires key in run[i].rows
    ensures good(run[i].rows[key], run[i].next)
  {
    RunInv(r, run, i);
    ReplayIsGood(r, good, ok, run[i].history, key);
    ReachedBelow(run[i].history, key, run[i].next);
  }

  lemma {:induction false} AlwaysOk<V(!new), O(!new), D>(r: Rules<V, O, D>, history: seq<Event<V, O>>, key: Key, ok: (V, O) -> bool)
    requires forall v, op :: ok(v, op)
    ensures TurnsOk(r, history, key, ok)
  {
    if history != [] {
      var h, e := history[..|history| - 1], history[|history| - 1];
      AlwaysOk(r, h, key, ok);
      if e.Done? && e.key == key && key in Replay(r, h) {
        assert ok(Replay(r, h)[key], e.op);
      }
    }
  }

  /**
   What every serial operation keeps, every interleaving keeps: a property of one row that each
   operation preserves when it runs alone holds of every committed row in every reachable state.
   */
  lemma GoodInEveryRun<V(!new), O(!new), D(!new)>(
    r: Rules<V, O, D>, good: (V, nat) -> bool, run: seq<Sys<V, O, D>>, i: nat, key: Key)
    requires IsRun(r, run) && i < |run|
    requires KeptBy(r, good) && BornGood(run[i].history, good)
    requires key in run[i].rows
    ensures good(run[i].rows[key], run[i].next)
  {
    var ok := (v: V, op: O) => true;
    AlwaysOk(r, run[i].history, key, ok);
    GoodWhenTurnsOk(r, good, ok, run, i, key);
  }

  /** `rel` is kept by every single operation, and chains. */
  ghost predicate RelatesSteps<V(!new), O(!new), D(!new)>(r: Rules<V, O, D>, rel: (V, V) -> bool) {
    && (forall v :: rel(v, v))
    && (forall u, v, w :: rel(u, v) && rel(v, w) ==> rel(u, w))
    && (forall v, op, n: nat :: var p := r.plan(v, op, n); p.Some? ==> rel(v, r.merge(v, p.value)))
  }

  lemma Transit<V(!new), O(!new), D(!new)>(r: Rules<V, O, D>, rel: (V, V) -> bool, u: V, v: V, w: V)
    requires RelatesSteps(r, rel) && rel(u, v) && rel(v, w)
    ensures rel(u, w)
  {
  }

  lemma Reflect<V(!new), O(!new), D(!new)>(r: Rules<V, O, D>, rel: (V, V) -> bool, v: V)
    requires RelatesSteps(r, rel)
    ensures rel(v, v)
  {
  }

  lemma OneOpRelates<V(!new), O(!new), D(!new)>(r: Rules<V, O, D>, rel: (V, V) -> bool, v: V, op: O, n: nat, d: D)
    requires RelatesSteps(r, rel) && r.plan(v, op, n) == Some(d)
    ensures rel(v, r.merge(v, d))
  {
    var p := r.plan(v, op, n);
    assert p.Some? ==> rel(v, r.merge(v, p.value));
  }

  lemma OneStepRelates<V(!new), O(!new), D(!new)>(
    r: Rules<V, O, D>, rel: (V, V) -> bool, s: Sys<V, O, D>, s': Sys<V, O, D>, key: Key)
    requires Inv(r, s) && Next(r, s, s') && RelatesSteps(r, rel) && key in s.rows
    ensures key in s'.rows && rel(s.rows[key], s'.rows[key])
  {
    Reflect(r, rel, s.rows[key]);
    if tid :| Commit(r, s, s', tid) {
      var t := s.txns[tid];
      if t.key == key {
        OneOpRelates(r, rel, s.rows[key], t.op, t.phase.ticket, t.phase.delta);
      }
    } else {
      assert s'.rows == s.rows || exists k, v :: Create(s, s', k, v);
    }
  }

  /** Two-state form: a relation every operation keeps holds between any two moments of any run. */
  lemma {:induction false} RelatedInEveryRun<V(!new), O(!new), D(!new)>(
    r: Rules<V, O, D>, rel: (V, V) -> bool, run: seq<Sys<V, O, D>>, i: nat, j: nat, key: Key)
    requires IsRun(r, run) && i <= j < |run| && RelatesSteps(r, rel) && key in run[i].rows
    ensures key in run[j].rows && rel(run[i].rows[key], run[j].rows[key])
    decreases j
  {
    if i < j {
      RelatedInEveryRun(r, rel, run, i, j - 1, key);
      RunInv(r, run, j - 1);
      assert StepAt(r, run, j - 1);
      OneStepRelates(r, rel, run[j - 1], run[j], key);
      Transit(r, rel, run[i].rows[key], run[j - 1].rows[key], run[j].rows[key]);
    } else {
      Reflect(r, rel, run[i].rows[key]);
    }
  }
}
