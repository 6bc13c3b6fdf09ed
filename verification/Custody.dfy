/**
 Chain of custody (app/custody/services.py, the export of app/evidence/files.py, and the procedures
 sp_register_evidence, sp_transfer_evidence and sp_record_custody_correction they call).

 An item carries its append-only custody entries together with what the evidence row repeats of
 them: current custodian, location and status. `clock(n)` is NOW() when the row with id n is
 inserted. Every change locks the evidence row, so it is an operation of `RowLock`. Two things are
 read before the lock is taken: the time a handover is compared with, and the read view of a
 correction. sp_record_custody_correction looks up the entry it corrects first, with a plain SELECT;
 under REPEATABLE READ its later search for the latest entry sees the log as it was then, and its own
 new entry, but no entry committed while it waited for the lock.
 */
module Custody {
  import opened Wrappers
  import RowLock

  datatype Action =
    | Collected | Received | Transferred | CheckedOut | Examined | Returned | Stored | Released | Archived | Exported

  datatype Status = InTransit | InStorage | CheckedOut | UnderExamination | Released | Archived

  type Clock = nat -> nat

  /** The clock does not go back. */
  ghost predicate Monotone(clock: Clock) {
    forall a: nat, b: nat :: a <= b ==> clock(a) <= clock(b)
  }

  /**
   The clock as each item sees it: ids drawn for one item are in the order of its lock, and so are
   their times; ids drawn for different items may come out of clock order.
   */
  type Clocks = nat -> Clock

  ghost predicate EachMonotone(clocks: Clocks) {
    forall evidence: nat :: Monotone(clocks(evidence))
  }

  /** A row of chain_of_custody. */
  datatype Entry = Entry(
    id: nat, action: Action, giver: Option<nat>, to: nat, location: Option<nat>, at: nat, corrects: Option<nat>)

  datatype Position = Position(custodian: nat, location: Option<nat>)

  datatype Item = Item(evidence: nat, entries: seq<Entry>, position: Position, status: Status)

  // ---------------------------------------------------------------------------
  // The transition tables, in Python and in SQL
  // ---------------------------------------------------------------------------

  /** ALLOWED_FROM */
  function AllowedFrom(s: Status): set<Action> {
    match s
    case InTransit => {Action.Received, Action.Transferred, Action.Stored}
    case InStorage => {Action.Transferred, Action.CheckedOut, Action.Stored, Action.Released, Action.Archived}
    case CheckedOut => {Action.Received, Action.Transferred, Action.Examined, Action.Returned, Action.Stored}
    case UnderExamination => {Action.Transferred, Action.Examined, Action.Returned}
    case Released => {Action.Archived}
    case Archived => {}
  }

  /** RESULTING_STATUS, and the status as it is for any other action */
  function Resulting(a: Action, s: Status): Status {
    match a
    case Received => Status.InStorage
    case Stored => Status.InStorage
    case Returned => Status.InStorage
    case CheckedOut => Status.CheckedOut
    case Examined => Status.UnderExamination
    case Released => Status.Released
    case Archived => Status.Archived
    case _ => s
  }

  /** Step 4 of sp_transfer_evidence: the same table, read by action. */
  predicate AllowedBySql(a: Action, s: Status) {
    match a
    case Received => s.InTransit? || s.CheckedOut?
    case Transferred => s.InTransit? || s.InStorage? || s.CheckedOut? || s.UnderExamination?
    case CheckedOut => s.InStorage?
    case Examined => s.CheckedOut? || s.UnderExamination?
    case Returned => s.CheckedOut? || s.UnderExamination?
    case Stored => s.InTransit? || s.InStorage? || s.CheckedOut?
    case Released => s.InStorage?
    case Archived => s.InStorage? || s.Released?
    case _ => false
  }

  predicate ForInvestigators(a: Action) {
    a == Action.CheckedOut || a == Action.Examined || a == Action.Returned
  }

  /** allowed_actions(status, custody_actions_for(user, onCase)) */
  function Offered(s: Status, staff: bool, onCase: bool): set<Action> {
    if staff then AllowedFrom(s)
    else if onCase then set a | a in AllowedFrom(s) && ForInvestigators(a)
    else {}
  }

  /** NEEDS_STORAGE_LOCATION */
  predicate NeedsLocation(a: Action) {
    a == Action.Received || a == Action.Stored || a == Action.Returned
  }

  /** The form offers exactly the actions the procedure would accept (an assigned user being an investigator). */
  lemma OfferedIsAccepted(a: Action, s: Status, staff: bool, onCase: bool)
    ensures a in Offered(s, staff, onCase)
       <==> AllowedBySql(a, s) && (staff || (ForInvestigators(a) && onCase))
    ensures AllowedBySql(a, s) ==> (NeedsLocation(a) <==> Resulting(a, s) == Status.InStorage && a != Action.Transferred)
  {
  }

  // ---------------------------------------------------------------------------
  // Reading the log
  // ---------------------------------------------------------------------------

  /** ORDER BY occurred_at DESC, custody_id DESC LIMIT 1 */
  function Latest(es: seq<Entry>): (l: nat)
    requires es != []
    ensures l < |es|
  {
    if |es| == 1 then 0
    else
      var n := |es| - 1;
      var l := Latest(es[..n]);
      if es[n].at >= es[l].at then n else l
  }

  function StatusOf(es: seq<Entry>): Status {
    if es == [] then Status.InTransit
    else
      var n := |es| - 1;
      var s := StatusOf(es[..n]);
      if es[n].corrects.Some? then s else Resulting(es[n].action, s)
  }

  /** Where the log says the item is: a correction moves the item only when it comes last in time. */
  function PositionOf(es: seq<Entry>): Position
    requires es != []
  {
    var n := |es| - 1;
    if es[n].corrects.Some? && n > 0 && Latest(es) != n then PositionOf(es[..n])
    else Position(es[n].to, es[n].location)
  }

  /** What the entry may say, given the entries before it. */
  ghost predicate Fits(es: seq<Entry>, e: Entry, clock: Clock) {
    && e.at <= clock(e.id)
    && if es == [] then
         e.action == Action.Collected && e.giver == None && e.corrects == None
       else
         && es[|es| - 1].id < e.id
         && if e.corrects.Some? then
              exists k | 0 <= k < |es| ::
                && es[k].id == e.corrects.value && e.action == es[k].action != Action.Exported
                && e.giver == es[k].giver && e.at == es[k].at
            else
              && e.giver.Some?
              && (e.action == Action.Exported || e.action in AllowedFrom(StatusOf(es)))
              && (NeedsLocation(e.action) ==> e.location.Some?)
  }

  ghost predicate Lawful(es: seq<Entry>, clock: Clock) {
    es == [] || (Lawful(es[..|es| - 1], clock) && Fits(es[..|es| - 1], es[|es| - 1], clock))
  }

  /** Every handover and export is given by whoever the entries before it say holds the item. */
  predicate HandedOn(es: seq<Entry>) {
    |es| <= 1 ||
    var before, e := es[..|es| - 1], es[|es| - 1];
    && HandedOn(before)
    && (e.corrects.None? ==> e.giver == Some(PositionOf(before).custodian))
    && (e.corrects.None? && e.action == Action.Exported ==> Position(e.to, e.location) == PositionOf(before))
  }

  /** The log is lawful, and the status of the evidence row is what it says. */
  ghost predicate LogGood(v: Item, n: nat, clock: Clock) {
    && v.entries != []
    && Lawful(v.entries, clock)
    && v.entries[|v.entries| - 1].id < n
    && v.status == StatusOf(v.entries)
  }

  /** And the evidence row's custodian and location are what it says, then and at every handover before. */
  ghost predicate Good(v: Item, n: nat, clock: Clock) {
    && LogGood(v, n, clock)
    && HandedOn(v.entries)
    && v.position == PositionOf(v.entries)
  }

  /** tests/test_data_consistency_db.py: the current custodian and location are those of the latest entry. */
  ghost predicate LatestAgrees(v: Item) {
    v.entries != [] && var l := v.entries[Latest(v.entries)]; v.position == Position(l.to, l.location)
  }

  function LatestTime(es: seq<Entry>): nat
    requires es != []
  {
    es[Latest(es)].at
  }

  /** Neither a correction nor one of the actions that leave the status as it is. */
  predicate Decides(e: Entry) {
    e.corrects.None? && e.action != Action.Collected && e.action != Action.Exported && e.action != Action.Transferred
  }

  predicate DecidedLast(es: seq<Entry>, k: nat, actions: set<Action>)
    requires k < |es|
  {
    Decides(es[k]) && es[k].action in actions && forall j | k < j < |es| :: !Decides(es[j])
  }

  ghost predicate LastDecision(es: seq<Entry>, actions: set<Action>) {
    exists k: nat | k < |es| :: DecidedLast(es, k, actions)
  }

  /** What each status says about the log. */
  ghost predicate StatusSays(es: seq<Entry>, s: Status) {
    && (s.InTransit? <==> forall k | 0 <= k < |es| :: !Decides(es[k]))
    && (s.InStorage? <==> LastDecision(es, {Action.Received, Action.Stored, Action.Returned}))
    && (s.CheckedOut? <==> LastDecision(es, {Action.CheckedOut}))
    && (s.UnderExamination? <==> LastDecision(es, {Action.Examined}))
    && (s.Released? <==> LastDecision(es, {Action.Released}))
    && (s.Archived? <==> LastDecision(es, {Action.Archived}))
  }

  lemma LastDecisionSnoc(es: seq<Entry>, e: Entry, actions: set<Action>)
    ensures LastDecision(es + [e], actions) <==> if Decides(e) then e.action in actions else LastDecision(es, actions)
  {
    var fs := es + [e];
    assert fs[|es|] == e && forall k | 0 <= k < |es| :: fs[k] == es[k];
    if Decides(e) {
      assert e.action in actions ==> DecidedLast(fs, |es|, actions);
    } else {
      if k: nat :| k < |es| && DecidedLast(es, k, actions) { assert DecidedLast(fs, k, actions); }
      if k: nat :| k < |fs| && DecidedLast(fs, k, actions) { assert DecidedLast(es, k, actions); }
    }
  }

  lemma {:induction false} StatusIs(es: seq<Entry>)
    ensures StatusSays(es, StatusOf(es))
  {
    if es != [] {
      var n := |es| - 1;
      StatusIs(es[..n]);
      assert es == es[..n] + [es[n]];
      LastDecisionSnoc(es[..n], es[n], {Action.Received, Action.Stored, Action.Returned});
      LastDecisionSnoc(es[..n], es[n], {Action.CheckedOut});
      LastDecisionSnoc(es[..n], es[n], {Action.Examined});
      LastDecisionSnoc(es[..n], es[n], {Action.Released});
      LastDecisionSnoc(es[..n], es[n], {Action.Archived});
    }
  }

  // ---------------------------------------------------------------------------
  // Operations
  // ---------------------------------------------------------------------------

  /** The arguments of sp_transfer_evidence, with what it looks up about the people and the location. */
  datatype Move = Move(
    action: Action, expected: nat, to: nat, location: Option<nat>, note: bool, at: Option<nat>,
    staff: bool, onCase: bool, toIsActive: bool, locationIsActive: bool)

  /** `seen`: how many entries the read view of a correction shows. */
  datatype Op =
    | Transfer(move: Move)
    | Export
    | Correct(target: nat, to: nat, location: Option<nat>, note: bool, staff: bool, seen: nat)

  datatype CustodyError =
    | NoStorageLocation | NoLocation | InTheFuture | BeforeLastEntry | NotFound | CustodianChanged | NotPermitted
    | NotAllowedNow | InactiveCustodian | InactiveLocation | ExportsStay

  function WhyNot(v: Item, m: Move): Option<CustodyError> {
    if v.position.custodian != m.expected then Some(CustodianChanged)
    else if !(m.staff || (ForInvestigators(m.action) && m.onCase)) then Some(NotPermitted)
    else if !AllowedBySql(m.action, v.status) then Some(NotAllowedNow)
    else if Resulting(m.action, v.status) == Status.InStorage && m.location.None? then Some(NoStorageLocation)
    else if !m.toIsActive then Some(InactiveCustodian)
    else if m.location.Some? && !m.locationIsActive then Some(InactiveLocation)
    else None
  }

  function TimeOf(m: Move, now: nat): nat {
    match m.at
    case Some(t) => t
    case None => now
  }

  function MoveEntry(v: Item, m: Move, n: nat, now: nat): Entry {
    Entry(n, m.action, Some(v.position.custodian), m.to, m.location, TimeOf(m, now), None)
  }

  function Moved(v: Item, m: Move, n: nat, now: nat): Item {
    v.(entries := v.entries + [MoveEntry(v, m, n, now)], position := Position(m.to, m.location),
       status := Resulting(m.action, v.status))
  }

  function Exporting(v: Item, n: nat, now: nat): Item {
    var p := v.position;
    v.(entries := v.entries + [Entry(n, Action.Exported, Some(p.custodian), p.custodian, p.location, now, None)])
  }

  function Find(es: seq<Entry>, id: nat): (k: Option<nat>)
    ensures k.Some? ==> k.value < |es| && es[k.value].id == id
    ensures k.None? ==> forall i | 0 <= i < |es| :: es[i].id != id
  {
    if es == [] then None
    else if es[|es| - 1].id == id then Some(|es| - 1)
    else Find(es[..|es| - 1], id)
  }

  /** The log as the read view of a correction shows it: its first entries. */
  function Seen(v: Item, seen: nat): seq<Entry> {
    if seen < |v.entries| then v.entries[..seen] else v.entries
  }

  function CorrectionOf(o: Entry, to: nat, location: Option<nat>, n: nat): Entry {
    Entry(n, o.action, o.giver, to, location, o.at, Some(o.id))
  }

  /** The latest entry is looked for among those seen and the new one. */
  function Correcting(v: Item, k: nat, seen: nat, to: nat, location: Option<nat>, n: nat): Item
    requires k < seen <= |v.entries|
  {
    var e := CorrectionOf(v.entries[k], to, location, n);
    v.(entries := v.entries + [e],
       position := if Latest(v.entries[..seen] + [e]) == seen then Position(to, location) else v.position)
  }

  /** The locked part of each operation; the last tests are CHECK chk_coc_time and chk_coc_location. */
  function Plan(v: Item, op: Op, n: nat, clock: Clock): Option<Item> {
    match op
    case Transfer(m) =>
      if WhyNot(v, m).Some? || TimeOf(m, clock(n)) > clock(n) || (m.location.None? && !m.note) then None
      else Some(Moved(v, m, n, clock(n)))
    case Export => Some(Exporting(v, n, clock(n)))
    case Correct(target, to, location, note, staff, seen) =>
      var es := Seen(v, seen);
      var k := Find(es, target);
      if k.None? || es[k.value].action == Action.Exported || !staff || (location.None? && !note) then None
      else Some(Correcting(v, k.value, |es|, to, location, n))
  }

  /** The same, had both the time of a handover and the latest entry of a correction been read under the lock. */
  function CheckedPlan(v: Item, op: Op, n: nat, clock: Clock): Option<Item> {
    if op.Transfer? && v.entries != [] && TimeOf(op.move, clock(n)) < LatestTime(v.entries) then None
    else if op.Correct? then Plan(v, op.(seen := |v.entries|), n, clock)
    else Plan(v, op, n, clock)
  }

  function CustodyRules(clocks: Clocks): RowLock.Rules<Item, Op, Item> {
    RowLock.Rules((v: Item, op: Op, n: nat) => Plan(v, op, n, clocks(v.evidence)), (v: Item, d: Item) => d)
  }

  function CheckedRules(clocks: Clocks): RowLock.Rules<Item, Op, Item> {
    RowLock.Rules((v: Item, op: Op, n: nat) => CheckedPlan(v, op, n, clocks(v.evidence)), (v: Item, d: Item) => d)
  }

  /** sp_register_evidence, as far as custody goes. */
  function Registered(evidence: nat, collector: nat, at: nat, n: nat): Item {
    Item(evidence, [Entry(n, Action.Collected, None, collector, None, at, None)], Position(collector, None), Status.InTransit)
  }

  // ---------------------------------------------------------------------------
  // Every operation keeps the log lawful and the evidence row in step with it
  // ---------------------------------------------------------------------------

  lemma LatestSnoc(es: seq<Entry>, e: Entry)
    requires es != []
    ensures Latest(es + [e]) == if e.at >= es[Latest(es)].at then |es| else Latest(es)
  {
    assert (es + [e])[..|es|] == es;
  }

  lemma {:induction false} LatestIsLatest(es: seq<Entry>, j: nat)
    requires j < |es|
    ensures var l := Latest(es); j != l ==> es[j].at < es[l].at || (es[j].at == es[l].at && j < l)
  {
    if j < |es| - 1 {
      LatestIsLatest(es[..|es| - 1], j);
    }
    if |es| > 1 {
      LatestSnoc(es[..|es| - 1], es[|es| - 1]);
    }
  }

  lemma {:induction false} TimesBelow(es: seq<Entry>, clock: Clock, n: nat, j: nat)
    requires Lawful(es, clock) && j < |es| && es[|es| - 1].id < n
    requires Monotone(clock)
    ensures es[j].id < n && es[j].at <= clock(n)
  {
    if j < |es| - 1 {
      TimesBelow(es[..|es| - 1], clock, n, j);
    }
  }

  lemma Appended(es: seq<Entry>, e: Entry, clock: Clock)
    requires es != [] && Lawful(es, clock) && Fits(es, e, clock)
    ensures Lawful(es + [e], clock)
    ensures StatusOf(es + [e]) == if e.corrects.Some? then StatusOf(es) else Resulting(e.action, StatusOf(es))
    ensures PositionOf(es + [e])
         == if e.corrects.Some? && Latest(es + [e]) != |es| then PositionOf(es) else Position(e.to, e.location)
  {
    assert (es + [e])[..|es|] == es;
  }

  lemma HandedOnSnoc(es: seq<Entry>, e: Entry)
    requires es != [] && HandedOn(es)
    ensures HandedOn(es + [e]) <==>
              e.corrects.None? ==>
                && e.giver == Some(PositionOf(es).custodian)
                && (e.action == Action.Exported ==> Position(e.to, e.location) == PositionOf(es))
  {
    assert (es + [e])[..|es|] == es;
  }

  lemma MoveFits(v: Item, m: Move, n: nat, clock: Clock)
    requires LogGood(v, n, clock) && Plan(v, Transfer(m), n, clock).Some?
    ensures Fits(v.entries, MoveEntry(v, m, n, clock(n)), clock)
  {
    OfferedIsAccepted(m.action, v.status, true, true);
  }

  lemma CorrectionFits(v: Item, k: nat, to: nat, location: Option<nat>, n: nat, clock: Clock)
    requires LogGood(v, n, clock) && Monotone(clock) && k < |v.entries| && v.entries[k].action != Action.Exported
    ensures Fits(v.entries, CorrectionOf(v.entries[k], to, location, n), clock)
  {
    TimesBelow(v.entries, clock, n, k);
  }

  /** The entry an operation appends fits the log, whatever a correction's read view showed. */
  lemma PlanFits(v: Item, op: Op, n: nat, clock: Clock)
    requires LogGood(v, n, clock) && Plan(v, op, n, clock).Some? && Monotone(clock)
    ensures var w := Plan(v, op, n, clock).value;
            && |w.entries| == |v.entries| + 1 && w.entries[..|v.entries|] == v.entries
            && w.entries[|v.entries|].id == n && Fits(v.entries, w.entries[|v.entries|], clock)
  {
    match op
    case Transfer(m) => MoveFits(v, m, n, clock);
    case Export =>
    case Correct(target, to, location, _, _, seen) =>
      CorrectionFits(v, Find(Seen(v, seen), target).value, to, location, n, clock);
  }

  /** Every operation keeps the log lawful and the status in step with it, whatever was read before the lock. */
  lemma PlanKeepsLog(v: Item, op: Op, n: nat, clock: Clock)
    requires LogGood(v, n, clock) && Plan(v, op, n, clock).Some? && Monotone(clock)
    ensures LogGood(Plan(v, op, n, clock).value, n + 1, clock)
  {
    var w := Plan(v, op, n, clock).value;
    var e := w.entries[|v.entries|];
    PlanFits(v, op, n, clock);
    assert w.entries == v.entries + [e];
    Appended(v.entries, e, clock);
  }

  /**
   The read view of a correction was recent enough: if nothing it showed is later than the entry
   corrected, nothing in the log is; or the correction changes neither custodian nor location.
   */
  predicate Timely(v: Item, k: nat, seen: nat, to: nat, location: Option<nat>)
    requires k < seen <= |v.entries|
  {
    || v.position == Position(to, location)
    || ((forall j | 0 <= j < seen :: v.entries[j].at <= v.entries[k].at)
        ==> forall j | 0 <= j < |v.entries| :: v.entries[j].at <= v.entries[k].at)
  }

  predicate CorrectionIsTimely(v: Item, op: Op) {
    op.Correct? ==>
      var es := Seen(v, op.seen);
      var k := Find(es, op.target);
      k.Some? ==> Timely(v, k.value, |es|, op.to, op.location)
  }

  /** The new entry is the latest of those seen exactly when none of them is later in time than the one corrected. */
  lemma NewIsLatestIff(es: seq<Entry>, k: nat, to: nat, location: Option<nat>, n: nat)
    requires k < |es|
    ensures Latest(es + [CorrectionOf(es[k], to, location, n)]) == |es|
       <==> forall j | 0 <= j < |es| :: es[j].at <= es[k].at
  {
    LatestSnoc(es, CorrectionOf(es[k], to, location, n));
    forall j | 0 <= j < |es| ensures es[j].at <= es[Latest(es)].at {
      LatestIsLatest(es, j);
    }
  }

  lemma CorrectionKeepsLog(v: Item, k: nat, seen: nat, to: nat, location: Option<nat>, n: nat, clock: Clock)
    requires LogGood(v, n, clock) && Monotone(clock)
    requires k < seen <= |v.entries| && v.entries[k].action != Action.Exported
    ensures LogGood(Correcting(v, k, seen, to, location, n), n + 1, clock)
  {
    CorrectionFits(v, k, to, location, n, clock);
    Appended(v.entries, CorrectionOf(v.entries[k], to, location, n), clock);
  }

  /** A correction keeps the evidence row in step with its log exactly when its read view was recent enough. */
  lemma CorrectionKeepsGoodIff(v: Item, k: nat, seen: nat, to: nat, location: Option<nat>, n: nat, clock: Clock)
    requires Good(v, n, clock) && Monotone(clock)
    requires k < seen <= |v.entries| && v.entries[k].action != Action.Exported
    ensures Good(Correcting(v, k, seen, to, location, n), n + 1, clock) <==> Timely(v, k, seen, to, location)
  {
    var e, w := CorrectionOf(v.entries[k], to, location, n), Correcting(v, k, seen, to, location, n);
    CorrectionMovesIff(v, k, seen, to, location, n);
    assert PositionOf(w.entries)
        == if forall j | 0 <= j < |v.entries| :: v.entries[j].at <= v.entries[k].at then Position(to, location) else v.position
    by {
      CorrectionFits(v, k, to, location, n, clock);
      NewIsLatestIff(v.entries, k, to, location, n);
      Appended(v.entries, e, clock);
    }
    CorrectionKeepsLog(v, k, seen, to, location, n, clock);
    HandedOnSnoc(v.entries, e);
  }

  /** Transfers and exports always keep it in step, and corrections whose read view was recent enough. */
  lemma PlanKeepsGood(v: Item, op: Op, n: nat, clock: Clock)
    requires Good(v, n, clock) && Plan(v, op, n, clock).Some? && Monotone(clock)
    requires CorrectionIsTimely(v, op)
    ensures Good(Plan(v, op, n, clock).value, n + 1, clock)
  {
    match op
    case Transfer(m) =>
      var e := MoveEntry(v, m, n, clock(n));
      PlanKeepsLog(v, op, n, clock);
      HandedOnSnoc(v.entries, e);
    case Export =>
      var p := v.position;
      PlanKeepsLog(v, op, n, clock);
      HandedOnSnoc(v.entries, Entry(n, Action.Exported, Some(p.custodian), p.custodian, p.location, clock(n), None));
    case Correct(target, to, location, _, _, seen) =>
      var es := Seen(v, seen);
      CorrectionKeepsGoodIff(v, Find(es, target).value, |es|, to, location, n, clock);
  }

  lemma RegisteredIsGood(evidence: nat, collector: nat, at: nat, n: nat, clock: Clock)
    requires at <= clock(n)
    ensures Good(Registered(evidence, collector, at, n), n + 1, clock) && LatestAgrees(Registered(evidence, collector, at, n))
  {
    var es := Registered(evidence, collector, at, n).entries;
    assert es[..0] == [];
    assert Fits(es[..0], es[0], clock);
  }

  // The properties of one item that hold in every run, as `RowLock` takes them.

  ghost predicate LogHolds(clocks: Clocks, v: Item, n: nat) {
    LogGood(v, n, clocks(v.evidence))
  }

  ghost predicate GoodHolds(clocks: Clocks, v: Item, n: nat) {
    Good(v, n, clocks(v.evidence))
  }

  ghost function LogRule(clocks: Clocks): (Item, nat) -> bool {
    (v: Item, n: nat) => LogHolds(clocks, v, n)
  }

  ghost function GoodRule(clocks: Clocks): (Item, nat) -> bool {
    (v: Item, n: nat) => GoodHolds(clocks, v, n)
  }

  ghost function LatestRule(clocks: Clocks): (Item, nat) -> bool {
    (v: Item, n: nat) => GoodHolds(clocks, v, n) && LatestAgrees(v)
  }

  lemma RulesKeepLog(clocks: Clocks)
    requires EachMonotone(clocks)
    ensures RowLock.KeptBy(CustodyRules(clocks), LogRule(clocks))
  {
    var rules := CustodyRules(clocks);
    forall v: Item, op, n: nat | LogGood(v, n, clocks(v.evidence))
      ensures var p := rules.plan(v, op, n);
              p.Some? ==> LogGood(rules.merge(v, p.value), n + 1, clocks(rules.merge(v, p.value).evidence))
    {
      if Plan(v, op, n, clocks(v.evidence)).Some? {
        PlanKeepsLog(v, op, n, clocks(v.evidence));
        PlanKeepsName(v, op, n, clocks(v.evidence));
      }
    }
  }

  lemma PlanKeepsName(v: Item, op: Op, n: nat, clock: Clock)
    requires Plan(v, op, n, clock).Some?
    ensures Plan(v, op, n, clock).value.evidence == v.evidence
  {
  }

  lemma RulesKeepGood(clocks: Clocks)
    requires EachMonotone(clocks)
    ensures RowLock.KeptWhen(CustodyRules(clocks), GoodRule(clocks), CorrectionIsTimely)
  {
    var rules := CustodyRules(clocks);
    forall v: Item, op, n: nat | Good(v, n, clocks(v.evidence)) && CorrectionIsTimely(v, op)
      ensures var p := rules.plan(v, op, n);
              p.Some? ==> Good(rules.merge(v, p.value), n + 1, clocks(rules.merge(v, p.value).evidence))
    {
      if Plan(v, op, n, clocks(v.evidence)).Some? {
        PlanKeepsGood(v, op, n, clocks(v.evidence));
        PlanKeepsName(v, op, n, clocks(v.evidence));
      }
    }
  }

  /** New evidence rows come from sp_register_evidence. */
  ghost predicate BornRegistered(history: seq<RowLock.Event<Item, Op>>, clocks: Clocks) {
    forall i | 0 <= i < |history| && history[i].Born? ::
      exists collector: nat, at: nat ::
        at <= clocks(history[i].key)(history[i].ticket)
        && history[i].initial == Registered(history[i].key, collector, at, history[i].ticket)
  }

  lemma BornItemsAreGood(history: seq<RowLock.Event<Item, Op>>, clocks: Clocks)
    requires BornRegistered(history, clocks)
    ensures RowLock.BornGood(history, LogRule(clocks))
    ensures RowLock.BornGood(history, GoodRule(clocks))
    ensures RowLock.BornGood(history, LatestRule(clocks))
  {
    forall i | 0 <= i < |history| && history[i].Born?
      ensures Good(history[i].initial, history[i].ticket + 1, clocks(history[i].initial.evidence)) && LatestAgrees(history[i].initial)
    {
      var key, n := history[i].key, history[i].ticket;
      var collector: nat, at: nat :| at <= clocks(key)(n) && history[i].initial == Registered(key, collector, at, n);
      RegisteredIsGood(key, collector, at, n, clocks(key));
    }
  }

  lemma {:induction false} RowsKeepTheirName(
    r: RowLock.Rules<Item, Op, Item>, history: seq<RowLock.Event<Item, Op>>, clocks: Clocks, evidence: nat)
    requires r == CustodyRules(clocks) || r == CheckedRules(clocks)
    requires BornRegistered(history, clocks)
    ensures evidence in RowLock.Replay(r, history) ==> RowLock.Replay(r, history)[evidence].evidence == evidence
  {
    if history != [] {
      var h, e := history[..|history| - 1], history[|history| - 1];
      assert BornRegistered(h, clocks);
      RowsKeepTheirName(r, h, clocks, evidence);
    }
  }

  /**
   In every interleaving of transfers, exports and corrections, whenever anything was read before its
   lock: the status of every item is the replay of its entries, every action was allowed at its
   moment, every correction repeats an earlier entry, and no entry is later than its own recording.
   */
  lemma LogInEveryRun(clocks: Clocks, run: seq<RowLock.Sys<Item, Op, Item>>, i: nat, evidence: nat)
    requires EachMonotone(clocks)
    requires RowLock.IsRun(CustodyRules(clocks), run) && i < |run|
    requires BornRegistered(run[i].history, clocks) && evidence in run[i].rows
    ensures LogGood(run[i].rows[evidence], run[i].next, clocks(evidence))
  {
    var good := LogRule(clocks);
    RulesKeepLog(clocks);
    BornItemsAreGood(run[i].history, clocks);
    RowLock.GoodInEveryRun(CustodyRules(clocks), good, run, i, evidence);
    RowLock.Serializable(CustodyRules(clocks), run, i);
    RowsKeepTheirName(CustodyRules(clocks), run[i].history, clocks, evidence);
  }

  /**
   In every interleaving: an item is In Transit exactly until the first action that decides, and after
   that where the last one put it: Received, Stored and Returned in storage, the others each in its own.
   */
  lemma StatusInEveryRun(clocks: Clocks, run: seq<RowLock.Sys<Item, Op, Item>>, i: nat, evidence: nat)
    requires EachMonotone(clocks)
    requires RowLock.IsRun(CustodyRules(clocks), run) && i < |run|
    requires BornRegistered(run[i].history, clocks) && evidence in run[i].rows
    ensures StatusSays(run[i].rows[evidence].entries, run[i].rows[evidence].status)
  {
    LogInEveryRun(clocks, run, i, evidence);
    StatusIs(run[i].rows[evidence].entries);
  }

  /**
   In every interleaving in which the corrections of the item had recent enough read views when their
   turns came, and whatever its transfers and exports: custodian, location and status are the replay
   of the entries, and every handover was given by the then custodian.
   */
  lemma CustodyInEveryRun(clocks: Clocks, run: seq<RowLock.Sys<Item, Op, Item>>, i: nat, evidence: nat)
    requires EachMonotone(clocks)
    requires RowLock.IsRun(CustodyRules(clocks), run) && i < |run|
    requires BornRegistered(run[i].history, clocks) && evidence in run[i].rows
    requires RowLock.TurnsOk(CustodyRules(clocks), run[i].history, evidence, CorrectionIsTimely)
    ensures Good(run[i].rows[evidence], run[i].next, clocks(evidence))
  {
    var good := GoodRule(clocks);
    RulesKeepGood(clocks);
    BornItemsAreGood(run[i].history, clocks);
    RowLock.GoodWhenTurnsOk(CustodyRules(clocks), good, CorrectionIsTimely, run, i, evidence);
    RowLock.Serializable(CustodyRules(clocks), run, i);
    RowsKeepTheirName(CustodyRules(clocks), run[i].history, clocks, evidence);
  }

  // ---------------------------------------------------------------------------
  // The life of an item
  // ---------------------------------------------------------------------------

  predicate Onward(s: Status, t: Status) {
    && (s != Status.InTransit ==> t != Status.InTransit)
    && (s == Status.Released ==> t == Status.Released || t == Status.Archived)
    && (s == Status.Archived ==> t == Status.Archived)
  }

  predicate MayFollow(s: Status, e: Entry) {
    || e.corrects.Some? || e.action == Action.Exported
    || (s == Status.Released && e.action == Action.Archived)
    || (s != Status.Released && s != Status.Archived)
  }

  /** Between two moments: entries only added, statuses only moving on. */
  ghost predicate LivesOn(u: Item, v: Item) {
    && u.entries <= v.entries
    && Onward(u.status, v.status)
    && (u.entries == v.entries ==> u == v)
    && forall k | |u.entries| <= k < |v.entries| :: MayFollow(u.status, v.entries[k])
  }

  lemma OpLivesOn(v: Item, op: Op, n: nat, clock: Clock)
    requires Plan(v, op, n, clock).Some?
    ensures LivesOn(v, Plan(v, op, n, clock).value)
  {
  }

  lemma LivesOnChains(u: Item, v: Item, w: Item)
    requires LivesOn(u, v) && LivesOn(v, w)
    ensures LivesOn(u, w)
  {
    forall k | |u.entries| <= k < |w.entries| ensures MayFollow(u.status, w.entries[k]) {
      if k < |v.entries| { assert w.entries[k] == v.entries[k]; } else { assert MayFollow(v.status, w.entries[k]); }
    }
  }

  /**
   Over every run, in any interleaving: entries are never edited or removed, In Transit is never
   re-entered, only Archived follows Released, and after Archived there are only exports and
   corrections.
   */
  lemma LifeInEveryRun(clocks: Clocks, run: seq<RowLock.Sys<Item, Op, Item>>, i: nat, j: nat, evidence: nat)
    requires RowLock.IsRun(CustodyRules(clocks), run) && i <= j < |run| && evidence in run[i].rows
    ensures evidence in run[j].rows && LivesOn(run[i].rows[evidence], run[j].rows[evidence])
  {
    var rules := CustodyRules(clocks);
    forall u, v, w | LivesOn(u, v) && LivesOn(v, w) ensures LivesOn(u, w) {
      LivesOnChains(u, v, w);
    }
    forall v, op, n: nat | rules.plan(v, op, n).Some? ensures LivesOn(v, rules.merge(v, rules.plan(v, op, n).value)) {
      OpLivesOn(v, op, n, clocks(v.evidence));
    }
    RowLock.RelatedInEveryRun(rules, LivesOn, run, i, j, evidence);
  }

  // ---------------------------------------------------------------------------
  // Does the latest entry say where the item is?
  // ---------------------------------------------------------------------------

  /**
   A transfer keeps the latest entry in step with the item exactly when its time is not before the
   last entry, or it changes neither custodian nor location. The service makes that test, but before
   the evidence row is locked.
   */
  lemma TransferKeepsLatestIff(v: Item, m: Move, n: nat, clock: Clock)
    requires Good(v, n, clock) && LatestAgrees(v) && Plan(v, Transfer(m), n, clock).Some?
    ensures LatestAgrees(Plan(v, Transfer(m), n, clock).value)
       <==> TimeOf(m, clock(n)) >= LatestTime(v.entries) || Position(m.to, m.location) == v.position
  {
    LatestSnoc(v.entries, MoveEntry(v, m, n, clock(n)));
  }

  /** Without a time of its own, a transfer is dated NOW() by the procedure and never comes early. */
  lemma UndatedTransferKeepsLatest(v: Item, m: Move, n: nat, clock: Clock)
    requires Good(v, n, clock) && LatestAgrees(v) && Monotone(clock)
    requires m.at.None? && Plan(v, Transfer(m), n, clock).Some?
    ensures LatestAgrees(Plan(v, Transfer(m), n, clock).value)
  {
    TimesBelow(v.entries, clock, n, Latest(v.entries));
    TransferKeepsLatestIff(v, m, n, clock);
  }

  lemma ExportKeepsLatest(v: Item, n: nat, clock: Clock)
    requires Good(v, n, clock) && Monotone(clock)
    ensures var w := Exporting(v, n, clock(n));
            LatestAgrees(w) && w.position == v.position && w.status == v.status
  {
    TimesBelow(v.entries, clock, n, Latest(v.entries));
    LatestSnoc(v.entries, Exporting(v, n, clock(n)).entries[|v.entries|]);
  }

  /** A correction moves the item exactly when no entry it saw is later in time than the entry it corrects. */
  lemma CorrectionMovesIff(v: Item, k: nat, seen: nat, to: nat, location: Option<nat>, n: nat)
    requires k < seen <= |v.entries|
    ensures var w := Correcting(v, k, seen, to, location, n);
            && w.status == v.status
            && (w.position == Position(to, location)
                <==> v.position == Position(to, location)
                     || forall j | 0 <= j < seen :: v.entries[j].at <= v.entries[k].at)
  {
    assert v.entries[..seen][k] == v.entries[k];
    NewIsLatestIff(v.entries[..seen], k, to, location, n);
    assert forall j | 0 <= j < seen :: v.entries[..seen][j] == v.entries[j];
  }

  /** It keeps the latest entry in step with the item exactly when its read view was recent enough. */
  lemma CorrectionKeepsLatestIff(v: Item, k: nat, seen: nat, to: nat, location: Option<nat>, n: nat)
    requires LatestAgrees(v) && k < seen <= |v.entries|
    ensures LatestAgrees(Correcting(v, k, seen, to, location, n)) <==> Timely(v, k, seen, to, location)
  {
    CorrectionMovesIff(v, k, seen, to, location, n);
    NewIsLatestIff(v.entries, k, to, location, n);
    LatestSnoc(v.entries, CorrectionOf(v.entries[k], to, location, n));
  }

  /**
   The stale read view: a correction of the first entry reads (one entry seen) and waits; a transfer
   stores the item with user 2 at location 7; then the correction runs. The evidence row now says user
   3, nowhere, and the log and its latest entry say user 2 at location 7.
   */
  lemma StaleCorrectionUndoesAHandover(clock: Clock)
    requires Monotone(clock) && clock(0) == 0 && clock(1) == 5
    ensures var v := Registered(4, 1, 0, 0);
            var m := Move(Action.Stored, 1, 2, Some(7), false, None, true, false, true, true);
            var w := Moved(v, m, 1, 5);
            var x := Correcting(w, 0, |v.entries|, 3, None, 2);
            && Plan(v, Transfer(m), 1, clock) == Some(w)
            && Plan(w, Correct(0, 3, None, true, true, |v.entries|), 2, clock) == Some(x)
            && Good(w, 2, clock) && LatestAgrees(w)
            && x.position == Position(3, None) && PositionOf(x.entries) == Position(2, Some(7))
            && !Good(x, 3, clock) && !LatestAgrees(x)
  {
    var v, m := Registered(4, 1, 0, 0), Move(Action.Stored, 1, 2, Some(7), false, None, true, false, true, true);
    var w := Moved(v, m, 1, 5);
    StoredItem(clock);
    OldestSeen(w);
    assert w.entries[0].at < w.entries[1].at;
    StaleCorrectionParts(w, clock);
  }

  lemma StaleCorrectionParts(w: Item, clock: Clock)
    requires Good(w, 2, clock) && LatestAgrees(w) && Monotone(clock) && |w.entries| == 2 && w.position != Position(3, None)
    requires w.entries[0].at < w.entries[1].at && w.entries[0].action != Action.Exported
    ensures var x := Correcting(w, 0, 1, 3, None, 2);
            && x.position == Position(3, None) && PositionOf(x.entries) == w.position
            && !Good(x, 3, clock) && !LatestAgrees(x)
  {
    assert !Timely(w, 0, 1, 3, None);
    CorrectionMovesIff(w, 0, 1, 3, None, 2);
    CorrectionKeepsLatestIff(w, 0, 1, 3, None, 2);
    CorrectionKeepsGoodIff(w, 0, 1, 3, None, 2, clock);
    StaleCorrectionIsNotFollowed(w, 0, 3, None, 2, clock);
  }

  lemma StoredItem(clock: Clock)
    requires Monotone(clock) && clock(0) == 0 && clock(1) == 5
    ensures var v := Registered(4, 1, 0, 0);
            var m := Move(Action.Stored, 1, 2, Some(7), false, None, true, false, true, true);
            var w := Moved(v, m, 1, 5);
            Plan(v, Transfer(m), 1, clock) == Some(w) && Good(w, 2, clock) && LatestAgrees(w)
  {
    RegisteredIsGood(4, 1, 0, 0, clock);
    var m := Move(Action.Stored, 1, 2, Some(7), false, None, true, false, true, true);
    TimelyOpKeepsLatest(Registered(4, 1, 0, 0), Transfer(m), 1, clock);
  }

  lemma OldestSeen(v: Item)
    requires |v.entries| > 1
    ensures Seen(v, 1) == [v.entries[0]] && Find(Seen(v, 1), v.entries[0].id) == Some(0)
  {
  }

  /** The log itself follows a correction only when no entry at all is later in time. */
  lemma StaleCorrectionIsNotFollowed(v: Item, k: nat, to: nat, location: Option<nat>, n: nat, clock: Clock)
    requires Good(v, n, clock) && Monotone(clock) && k < |v.entries| && v.entries[k].action != Action.Exported
    requires exists j :: 0 <= j < |v.entries| && v.entries[j].at > v.entries[k].at
    ensures PositionOf(v.entries + [CorrectionOf(v.entries[k], to, location, n)]) == v.position
  {
    CorrectionFits(v, k, to, location, n, clock);
    NewIsLatestIff(v.entries, k, to, location, n);
    Appended(v.entries, CorrectionOf(v.entries[k], to, location, n), clock);
  }

  /**
   Not only corrections of the most recent entry move the item: of two entries of the same minute,
   correcting the earlier one does too, and undoes the later handover.
   */
  lemma CorrectingAnOlderEntryMovesTheItem(clock: Clock)
    requires forall n: nat :: clock(n) == 5
    ensures var v := Registered(4, 1, 5, 0);
            var w := Moved(v, Move(Action.Stored, 1, 2, Some(7), false, None, true, false, true, true), 1, 5);
            && Good(w, 2, clock) && LatestAgrees(w) && w.position == Position(2, Some(7)) && Latest(w.entries) == 1
            && Correcting(w, 0, 2, 3, None, 2).position == Position(3, None)
  {
    var v, m := Registered(4, 1, 5, 0), Move(Action.Stored, 1, 2, Some(7), false, None, true, false, true, true);
    RegisteredIsGood(4, 1, 5, 0, clock);
    PlanKeepsGood(v, Transfer(m), 1, clock);
    TransferKeepsLatestIff(v, m, 1, clock);
    var w := Moved(v, m, 1, 5);
    assert w == Plan(v, Transfer(m), 1, clock).value;
    LatestSnoc(v.entries, MoveEntry(v, m, 1, 5));
    CorrectionMovesIff(w, 0, 2, 3, None, 2);
  }

  /** Row n is inserted at 5 * n. */
  function FiveApart(): Clocks {
    (evidence: nat) => (n: nat) => 5 * n
  }

  /**
   The race: the time of a handover (5) passes the check, a download is recorded (10), and then the
   procedure runs. The custodian it expects has not changed, so nothing refuses it, and the latest
   entry now names the previous custodian.
   */
  lemma RaceLeavesLatestBehind()
    ensures var clocks := FiveApart();
            var m := Move(Action.Transferred, 1, 2, None, true, Some(5), true, false, true, true);
            var v := Registered(4, 1, 0, 0);
            && TimeOf(m, 10) >= LatestTime(v.entries)
            && var w := RowLock.Serial(CustodyRules(clocks), v, Export, 2);
            && var x := RowLock.Serial(CustodyRules(clocks), w, Transfer(m), 3);
            && x.position == Position(2, None) && !LatestAgrees(x)
  {
    var v := Registered(4, 1, 0, 0);
    var m := Move(Action.Transferred, 1, 2, None, true, Some(5), true, false, true, true);
    var clocks := FiveApart();
    assert clocks(4)(2) == 10 && clocks(4)(3) == 15;
    var w := Exporting(v, 2, 10);
    assert RowLock.Serial(CustodyRules(clocks), v, Export, 2) == w;
    assert RowLock.Serial(CustodyRules(clocks), w, Transfer(m), 3) == Moved(w, m, 3, 15);
    var e0 := Entry(0, Action.Collected, None, 1, None, 0, None);
    var e1 := Entry(2, Action.Exported, Some(1), 1, None, 10, None);
    LatestSnoc([e0], e1);
    assert [e0] + [e1] == [e0, e1];
    LatestSnoc([e0, e1], Entry(3, Action.Transferred, Some(1), 2, None, 5, None));
  }

  /** A transfer does not come before the last entry, or changes neither custodian nor location. */
  predicate MoveIsTimely(v: Item, m: Move) {
    m.at.Some? && v.entries != [] ==> m.at.value >= LatestTime(v.entries) || Position(m.to, m.location) == v.position
  }

  predicate OpIsTimely(v: Item, op: Op) {
    CorrectionIsTimely(v, op) && (op.Transfer? ==> MoveIsTimely(v, op.move))
  }

  lemma TimelyOpKeepsLatest(v: Item, op: Op, n: nat, clock: Clock)
    requires Good(v, n, clock) && LatestAgrees(v) && Monotone(clock) && OpIsTimely(v, op) && Plan(v, op, n, clock).Some?
    ensures Good(Plan(v, op, n, clock).value, n + 1, clock) && LatestAgrees(Plan(v, op, n, clock).value)
  {
    PlanKeepsGood(v, op, n, clock);
    match op
    case Transfer(m) =>
      TransferKeepsLatestIff(v, m, n, clock);
      if m.at.None? { UndatedTransferKeepsLatest(v, m, n, clock); }
    case Export => ExportKeepsLatest(v, n, clock);
    case Correct(target, to, location, _, _, seen) =>
      var es := Seen(v, seen);
      CorrectionKeepsLatestIff(v, Find(es, target).value, |es|, to, location, n);
  }

  /**
   In every interleaving whose transfers and corrections were timely when their turns came, the latest
   entry says where the item is. Each step of `TransferKeepsLatestIff` and `CorrectionKeepsLatestIff`
   says that nothing less will do.
   */
  lemma LatestInEveryTimelyRun(clocks: Clocks, run: seq<RowLock.Sys<Item, Op, Item>>, i: nat, evidence: nat)
    requires EachMonotone(clocks)
    requires RowLock.IsRun(CustodyRules(clocks), run) && i < |run|
    requires BornRegistered(run[i].history, clocks) && evidence in run[i].rows
    requires RowLock.TurnsOk(CustodyRules(clocks), run[i].history, evidence, OpIsTimely)
    ensures Good(run[i].rows[evidence], run[i].next, clocks(evidence)) && LatestAgrees(run[i].rows[evidence])
  {
    var good := LatestRule(clocks);
    forall v, op, n: nat | good(v, n) && OpIsTimely(v, op) && Plan(v, op, n, clocks(v.evidence)).Some?
      ensures good(Plan(v, op, n, clocks(v.evidence)).value, n + 1)
    {
      TimelyOpKeepsLatest(v, op, n, clocks(v.evidence));
    }
    BornItemsAreGood(run[i].history, clocks);
    RowLock.GoodWhenTurnsOk(CustodyRules(clocks), good, OpIsTimely, run, i, evidence);
    RowLock.Serializable(CustodyRules(clocks), run, i);
    RowsKeepTheirName(CustodyRules(clocks), run[i].history, clocks, evidence);
  }

  lemma CheckedPlanKeepsLatest(v: Item, op: Op, n: nat, clock: Clock)
    requires Good(v, n, clock) && LatestAgrees(v) && Monotone(clock) && CheckedPlan(v, op, n, clock).Some?
    ensures Good(CheckedPlan(v, op, n, clock).value, n + 1, clock) && LatestAgrees(CheckedPlan(v, op, n, clock).value)
  {
    var now := if op.Correct? then op.(seen := |v.entries|) else op;
    TimelyOpKeepsLatest(v, now, n, clock);
  }

  /** With both reads under the lock, every interleaving keeps the latest entry in step with the item. */
  lemma LatestInEveryCheckedRun(clocks: Clocks, run: seq<RowLock.Sys<Item, Op, Item>>, i: nat, evidence: nat)
    requires EachMonotone(clocks)
    requires RowLock.IsRun(CheckedRules(clocks), run) && i < |run|
    requires BornRegistered(run[i].history, clocks) && evidence in run[i].rows
    ensures Good(run[i].rows[evidence], run[i].next, clocks(evidence)) && LatestAgrees(run[i].rows[evidence])
  {
    var good := LatestRule(clocks);
    forall v, op, n: nat | good(v, n) && CheckedPlan(v, op, n, clocks(v.evidence)).Some?
      ensures good(CheckedPlan(v, op, n, clocks(v.evidence)).value, n + 1)
    {
      CheckedPlanKeepsLatest(v, op, n, clocks(v.evidence));
    }
    BornItemsAreGood(run[i].history, clocks);
    RowLock.GoodInEveryRun(CheckedRules(clocks), good, run, i, evidence);
    RowLock.Serializable(CheckedRules(clocks), run, i);
    RowsKeepTheirName(CheckedRules(clocks), run[i].history, clocks, evidence);
  }

  // ---------------------------------------------------------------------------
  // The service, one call at a time
  // ---------------------------------------------------------------------------

  ghost predicate ItemAt(items: map<nat, Item>, e: nat, n: nat, clock: Clock) {
    e in items ==> Good(items[e], n, clock) && LatestAgrees(items[e])
  }

  ghost predicate AllInStep(items: map<nat, Item>, n: nat, clock: Clock) {
    Monotone(clock) && forall e: nat :: ItemAt(items, e, n, clock)
  }

  lemma UpdateKeepsAll(items: map<nat, Item>, n: nat, clock: Clock, evidence: nat, v: Item)
    requires AllInStep(items, n, clock) && Good(v, n + 1, clock) && LatestAgrees(v)
    ensures AllInStep(items[evidence := v], n + 1, clock)
  {
    var updated, m := items[evidence := v], n + 1;
    forall e: nat ensures ItemAt(updated, e, m, clock) {
      assert ItemAt(items, e, n, clock);
    }
  }

  lemma SerialStep(items: map<nat, Item>, n: nat, clock: Clock, evidence: nat, op: Op)
    requires AllInStep(items, n, clock) && evidence in items && Plan(items[evidence], op, n, clock).Some?
    requires CheckedPlan(items[evidence], op, n, clock) == Plan(items[evidence], op, n, clock)
    ensures AllInStep(items[evidence := Plan(items[evidence], op, n, clock).value], n + 1, clock)
  {
    assert ItemAt(items, evidence, n, clock);
    CheckedPlanKeepsLatest(items[evidence], op, n, clock);
    UpdateKeepsAll(items, n, clock, evidence, Plan(items[evidence], op, n, clock).value);
  }

  lemma TimeOfLast(items: map<nat, Item>, n: nat, clock: Clock, evidence: nat)
    requires AllInStep(items, n, clock) && evidence in items
    ensures items[evidence].entries != [] && LatestTime(items[evidence].entries) <= clock(n)
  {
    var es := items[evidence].entries;
    assert ItemAt(items, evidence, n, clock);
    TimesBelow(es, clock, n, Latest(es));
  }

  /** When a transfer is accepted: the table read by status, and what the form and the procedure ask for. */
  ghost predicate Accepts(v: Item, m: Move, now: nat) {
    && v.position.custodian == m.expected
    && (m.staff || (m.onCase && (m.action == Action.CheckedOut || m.action == Action.Examined || m.action == Action.Returned)))
    && m.action in AllowedFrom(v.status)
    && m.toIsActive
    && (match m.location
        case Some(_) => m.locationIsActive
        case None =>
          && m.note && m.action != Action.Received && m.action != Action.Stored && m.action != Action.Returned
          && !(m.action == Action.Transferred && v.status == Status.InStorage))
    && (m.at.Some? ==> m.at.value <= now && forall k | 0 <= k < |v.entries| :: v.entries[k].at <= m.at.value)
  }

  lemma AcceptsIff(v: Item, m: Move, n: nat, clock: Clock)
    requires v.entries != [] && LatestTime(v.entries) <= clock(n)
    ensures CheckedPlan(v, Transfer(m), n, clock).Some? <==> Accepts(v, m, clock(n))
  {
    OfferedIsAccepted(m.action, v.status, m.staff, m.onCase);
    forall k | 0 <= k < |v.entries| ensures v.entries[k].at <= LatestTime(v.entries) {
      LatestIsLatest(v.entries, k);
    }
  }

  /** What an accepted transfer leaves behind. */
  ghost predicate HandedOver(items: map<nat, Item>, n: nat, clock: Clock, evidence: nat, m: Move)
    requires evidence in items
  {
    var v, w := items[evidence], Moved(items[evidence], m, n, clock(n));
    && AllInStep(items[evidence := w], n + 1, clock)
    && Plan(v, Transfer(m), n, clock) == Some(w)
    && v.position.custodian == m.expected
    && m.action in Offered(v.status, m.staff, m.onCase)
    && v.entries != [] && Latest(w.entries) == |v.entries|
  }

  /** One entry more, given by the custodian it was expected from; the item is where it says, in the status it leads to. */
  ghost predicate HasMoved(v: Item, w: Item, m: Move, id: nat, now: nat) {
    && w.evidence == v.evidence
    && w.entries == v.entries
       + [Entry(id, m.action, Some(m.expected), m.to, m.location, if m.at.Some? then m.at.value else now, None)]
    && w.position == Position(m.to, m.location)
    && match m.action
       case Received => w.status == Status.InStorage
       case Stored => w.status == Status.InStorage
       case Returned => w.status == Status.InStorage
       case CheckedOut => w.status == Status.CheckedOut
       case Examined => w.status == Status.UnderExamination
       case Released => w.status == Status.Released
       case Archived => w.status == Status.Archived
       case _ => m.action == Action.Transferred && w.status == v.status
  }

  lemma TransferStep(items: map<nat, Item>, n: nat, clock: Clock, evidence: nat, m: Move)
    requires AllInStep(items, n, clock) && evidence in items && CheckedPlan(items[evidence], Transfer(m), n, clock).Some?
    ensures HandedOver(items, n, clock, evidence, m)
    ensures HasMoved(items[evidence], Moved(items[evidence], m, n, clock(n)), m, n, clock(n))
  {
    var v := items[evidence];
    assert ItemAt(items, evidence, n, clock);
    TimesBelow(v.entries, clock, n, Latest(v.entries));
    OfferedIsAccepted(m.action, v.status, m.staff, m.onCase);
    LatestSnoc(v.entries, MoveEntry(v, m, n, clock(n)));
    SerialStep(items, n, clock, evidence, Transfer(m));
  }

  /** One entry more, from the custodian to the custodian, where the item is; the item itself is as it was. */
  ghost predicate HasExported(v: Item, w: Item, id: nat, now: nat) {
    && w.evidence == v.evidence && w.position == v.position && w.status == v.status
    && w.entries == v.entries
       + [Entry(id, Action.Exported, Some(v.position.custodian), v.position.custodian, v.position.location, now, None)]
  }

  /** One entry more, which says of the corrected entry k another custodian and place; the item follows when none is later. */
  ghost predicate HasCorrected(v: Item, w: Item, k: nat, to: nat, location: Option<nat>, id: nat)
    requires k < |v.entries|
  {
    var o := v.entries[k];
    && w.evidence == v.evidence && w.status == v.status
    && w.entries == v.entries + [Entry(id, o.action, o.giver, to, location, o.at, Some(o.id))]
    && w.position == if forall j | 0 <= j < |v.entries| :: v.entries[j].at <= o.at then Position(to, location) else v.position
  }

  /** A correction: of an entry of the log that is no export, by staff, with a place. */
  ghost predicate AcceptsCorrection(v: Item, k: nat, target: nat, location: Option<nat>, note: bool, staff: bool) {
    && k < |v.entries| && v.entries[k].id == target && v.entries[k].action != Action.Exported
    && staff && (location.Some? || note)
  }

  lemma CorrectionIsSo(v: Item, k: nat, to: nat, location: Option<nat>, n: nat)
    requires k < |v.entries|
    ensures HasCorrected(v, Correcting(v, k, |v.entries|, to, location, n), k, to, location, n)
  {
    NewIsLatestIff(v.entries, k, to, location, n);
    assert v.entries[..|v.entries|] == v.entries;
  }

  lemma {:induction false} IdsGrow(es: seq<Entry>, clock: Clock, i: nat, j: nat)
    requires Lawful(es, clock) && i < j < |es|
    ensures es[i].id < es[j].id
  {
    var n := |es| - 1;
    if j < n {
      IdsGrow(es[..n], clock, i, j);
    } else if i < n - 1 {
      IdsGrow(es[..n], clock, i, n - 1);
    }
  }

  lemma OnlyOneHasId(es: seq<Entry>, clock: Clock, k: nat)
    requires Lawful(es, clock) && k < |es|
    ensures forall j | 0 <= j < |es| && es[j].id == es[k].id :: j == k
  {
    forall j: nat | j < |es| && j != k ensures es[j].id != es[k].id {
      if j < k { IdsGrow(es, clock, j, k); } else { IdsGrow(es, clock, k, j); }
    }
  }

  ghost predicate MayCorrect(v: Item, target: nat, location: Option<nat>, note: bool, staff: bool) {
    exists k: nat :: AcceptsCorrection(v, k, target, location, note, staff)
  }

  lemma CorrectionIsChecked(
    items: map<nat, Item>, n: nat, clock: Clock, evidence: nat, target: nat, location: Option<nat>, note: bool, staff: bool)
    requires AllInStep(items, n, clock) && evidence in items
    ensures var es := items[evidence].entries;
            var k := Find(es, target);
            && (MayCorrect(items[evidence], target, location, note, staff)
                <==> k.Some? && es[k.value].action != Action.Exported && staff && (location.Some? || note))
            && (k.Some? && es[k.value].action != Action.Exported && staff && (location.Some? || note) ==>
                  AcceptsCorrection(items[evidence], k.value, target, location, note, staff))
  {
    var es := items[evidence].entries;
    assert ItemAt(items, evidence, n, clock);
    var k := Find(es, target);
    if k.Some? {
      OnlyOneHasId(es, clock, k.value);
      assert AcceptsCorrection(items[evidence], k.value, target, location, note, staff)
        <==> es[k.value].action != Action.Exported && staff && (location.Some? || note);
    }
  }

  class CustodyService {
    const clock: Clock
    var items: map<nat, Item>
    var next: nat

    /** Serially, the latest entry of every item says where it is. */
    ghost predicate Valid()
      reads this
    {
      AllInStep(items, next, clock)
    }

    twostate predicate Becomes(evidence: nat, op: Op)
      reads this
    {
      && evidence in old(items)
      && Plan(old(items)[evidence], op, old(next), clock).Some?
      && items == old(items)[evidence := Plan(old(items)[evidence], op, old(next), clock).value]
      && next == old(next) + 1
    }

    twostate predicate Untouched()
      reads this
    {
      items == old(items) && next == old(next)
    }

    constructor (clock: Clock)
      requires Monotone(clock)
      ensures Valid() && items == map[] && next == 0 && this.clock == clock
    {
      this.clock := clock;
      items := map[];
      next := 0;
    }

    method Register(evidence: nat, collector: nat, at: nat)
      requires Valid() && evidence !in items && at <= clock(next)
      modifies this
      ensures Valid() && next == old(next) + 1
      ensures items == old(items)[evidence :=
        Item(evidence, [Entry(old(next), Action.Collected, None, collector, None, at, None)],
             Position(collector, None), Status.InTransit)]
    {
      RegisteredIsGood(evidence, collector, at, next, clock);
      UpdateKeepsAll(items, next, clock, evidence, Registered(evidence, collector, at, next));
      items := items[evidence := Registered(evidence, collector, at, next)];
      next := next + 1;
    }

    /** `transfer` with nothing between its check of the time and the procedure. */
    method Transfer(evidence: nat, m: Move) returns (r: Result<nat, CustodyError>)
      requires Valid()
      modifies this
      ensures Valid()
      ensures r.Err? ==> Untouched()
      ensures r.Ok? ==>
        && r.value == old(next) && Becomes(evidence, Op.Transfer(m))
        && HasMoved(old(items)[evidence], items[evidence], m, old(next), clock(old(next)))
        && m.action in Offered(old(items)[evidence].status, m.staff, m.onCase)
        && Latest(items[evidence].entries) == |old(items)[evidence].entries|
      ensures r.Ok? <==> evidence in old(items) && Accepts(old(items)[evidence], m, clock(old(next)))
    {
      if evidence in items {
        TimeOfLast(items, next, clock, evidence);
        AcceptsIff(items[evidence], m, next, clock);
        OfferedIsAccepted(m.action, items[evidence].status, true, true);
      }
      if NeedsLocation(m.action) && m.location.None? {
        return Err(NoStorageLocation);
      }
      if m.location.None? && !m.note {
        return Err(NoLocation);
      }
      if m.at.Some? {
        if m.at.value > clock(next) {
          return Err(InTheFuture);
        }
        if evidence in items && items[evidence].entries != [] && m.at.value < LatestTime(items[evidence].entries) {
          return Err(BeforeLastEntry);
        }
      }
      if evidence !in items {
        return Err(NotFound);
      }
      r := Hand(evidence, m);
    }

    /** sp_transfer_evidence, once the service has checked the time and the place. */
    method Hand(evidence: nat, m: Move) returns (r: Result<nat, CustodyError>)
      requires Valid() && evidence in items && (m.location.Some? || m.note)
      requires m.at.Some? ==> m.at.value <= clock(next)
      requires m.at.Some? && items[evidence].entries != [] ==> m.at.value >= LatestTime(items[evidence].entries)
      modifies this
      ensures Valid()
      ensures r.Err? ==> Untouched() && Plan(old(items)[evidence], Op.Transfer(m), old(next), clock).None?
      ensures r.Ok? ==>
        && Becomes(evidence, Op.Transfer(m))
        && HandedOver(old(items), old(next), clock, evidence, m)
        && HasMoved(old(items)[evidence], items[evidence], m, old(next), clock(old(next)))
        && r.value == old(next)
    {
      var v := items[evidence];
      var refused := WhyNot(v, m);
      if refused.Some? {
        return Err(refused.value);
      }
      TimeOfLast(items, next, clock, evidence);
      TransferStep(items, next, clock, evidence, m);
      items := items[evidence := Moved(v, m, next, clock(next))];
      next := next + 1;
      return Ok(next - 1);
    }

    /** The custody entry of open_for_download: nothing about the original changes. */
    method Export(evidence: nat) returns (r: Result<nat, CustodyError>)
      requires Valid()
      modifies this
      ensures Valid()
      ensures r.Ok? <==> evidence in old(items)
      ensures r.Err? ==> Untouched()
      ensures r.Ok? ==>
        && Becomes(evidence, Op.Export)
        && HasExported(old(items)[evidence], items[evidence], old(next), clock(old(next)))
    {
      if evidence !in items {
        return Err(NotFound);
      }
      SerialStep(items, next, clock, evidence, Op.Export);
      items := items[evidence := Exporting(items[evidence], next, clock(next))];
      next := next + 1;
      return Ok(next - 1);
    }

    /**
     open_for_download: the stored file is opened first, and sent only once its export is recorded. If
     either fails nothing is sent and nothing is recorded.
     */
    method OpenForDownload(evidence: nat, hasFile: bool, opens: bool, recordFails: bool) returns (sent: bool)
      requires Valid() && evidence in items
      modifies this
      ensures Valid()
      ensures sent <==> hasFile && opens && !recordFails
      ensures sent ==>
        && Becomes(evidence, Op.Export)
        && HasExported(old(items)[evidence], items[evidence], old(next), clock(old(next)))
      ensures !sent ==> Untouched()
    {
      if !hasFile || !opens || recordFails {
        return false;
      }
      var r := Export(evidence);
      return r.Ok?;
    }

    method CorrectEntry(evidence: nat, target: nat, to: nat, location: Option<nat>, note: bool, staff: bool)
      returns (r: Result<nat, CustodyError>)
      requires Valid()
      modifies this
      ensures Valid()
      ensures r.Err? ==> Untouched()
      ensures r.Ok? ==>
        && r.value == old(next) && evidence in old(items)
        && Becomes(evidence, Op.Correct(target, to, location, note, staff, |old(items)[evidence].entries|))
        && exists k: nat | k < |old(items)[evidence].entries| ::
             && AcceptsCorrection(old(items)[evidence], k, target, location, note, staff)
             && HasCorrected(old(items)[evidence], items[evidence], k, to, location, old(next))
      ensures r.Ok? <==> evidence in old(items) && MayCorrect(old(items)[evidence], target, location, note, staff)
    {
      if evidence !in items {
        return Err(NotFound);
      }
      var v := items[evidence];
      var k := Find(v.entries, target);
      CorrectionIsChecked(items, next, clock, evidence, target, location, note, staff);
      if k.Some? && v.entries[k.value].action == Action.Exported {
        return Err(ExportsStay);
      }
      if location.None? && !note {
        return Err(NoLocation);
      }
      if k.None? {
        return Err(NotFound);
      }
      if !staff {
        return Err(NotPermitted);
      }
      CorrectionIsSo(v, k.value, to, location, next);
      SerialStep(items, next, clock, evidence, Op.Correct(target, to, location, note, staff, |v.entries|));
      items := items[evidence := Correcting(v, k.value, |v.entries|, to, location, next)];
      next := next + 1;
      return Ok(next - 1);
    }
  }

  // ---------------------------------------------------------------------------
  // The timeline
  // ---------------------------------------------------------------------------

  /** The ids of the entries that correct entry `id`, in the order given. */
  function CorrectionsOf(rows: seq<Entry>, id: nat): seq<nat> {
    if rows == [] then []
    else
      var e := rows[|rows| - 1];
      CorrectionsOf(rows[..|rows| - 1], id) + if e.corrects == Some(id) then [e.id] else []
  }

  lemma {:induction false} CorrectionsAreThose(rows: seq<Entry>, id: nat, c: nat)
    ensures c in CorrectionsOf(rows, id) <==> exists k :: 0 <= k < |rows| && rows[k].id == c && rows[k].corrects == Some(id)
  {
    if rows != [] {
      CorrectionsAreThose(rows[..|rows| - 1], id, c);
      assert forall k | 0 <= k < |rows| - 1 :: rows[..|rows| - 1][k] == rows[k];
    }
  }

  function Listed(correctedBy: map<nat, seq<nat>>, id: nat): seq<nat> {
    if id in correctedBy then correctedBy[id] else []
  }

  /** custody_timeline: each original with the entries that corrected it (ids start at 1, so `if` on one is sound). */
  method Timeline(rows: seq<Entry>) returns (correctedBy: map<nat, seq<nat>>)
    ensures forall id: nat :: Listed(correctedBy, id) == CorrectionsOf(rows, id)
  {
    correctedBy := map[];
    for i := 0 to |rows|
      invariant forall id: nat :: Listed(correctedBy, id) == CorrectionsOf(rows[..i], id)
    {
      assert rows[..i + 1][..i] == rows[..i];
      if rows[i].corrects.Some? {
        var id := rows[i].corrects.value;
        correctedBy := correctedBy[id := Listed(correctedBy, id) + [rows[i].id]];
      }
    }
    assert rows[..|rows|] == rows;
  }
}
