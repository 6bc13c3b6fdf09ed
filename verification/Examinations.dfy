/**
 The examination workflow (app/examinations/services.py, with the guards of app/access.py, the
 closing of a case in sp_close_case, and the triggers and CHECKs that back them).

 Every action locks the case row, directly or by joining it in its SELECT ... FOR UPDATE, so a case
 with everything in it is one row of `RowLock`. Ids are the tickets drawn when rows are inserted.
 */
module Examinations {
  import opened Wrappers
  import RowLock

  datatype User = User(id: nat, isAdmin: bool)

  datatype ExamStatus = Pending | InProgress | UnderReview | Completed | Cancelled

  datatype CaseStatus = Open | Active | OnHold | Closed

  /** tools_methods, observations, findings, limitations and conclusion; an empty text is stored as NULL */
  datatype Record = Record(
    tools: Option<string>, observations: Option<string>, findings: Option<string>,
    limitations: Option<string>, conclusion: Option<string>)

  /** What the form sends for them. */
  datatype Texts = Texts(tools: string, observations: string, findings: string, limitations: string, conclusion: string)

  /** `text or None` */
  function OrNone(text: string): Option<string> {
    if text == "" then None else Some(text)
  }

  function RecordOf(t: Texts): Record {
    Record(OrNone(t.tools), OrNone(t.observations), OrNone(t.findings), OrNone(t.limitations), OrNone(t.conclusion))
  }

  datatype Artifact = Artifact(id: nat, text: string, evidence: Option<nat>, corrects: Option<nat>)

  /** Everything a reviewer reads. */
  datatype Content = Content(record: Record, links: set<nat>, artifacts: seq<Artifact>)

  /** `submitted` is a history variable: the content at the last submission. It is not a column. */
  datatype Exam = Exam(
    examiner: nat, status: ExamStatus, started: bool, content: Content, reviewedBy: Option<nat>,
    submitted: Option<Content>)

  datatype CaseRow = CaseRow(status: CaseStatus, lead: Option<nat>, evidence: set<nat>, exams: map<nat, Exam>)

  /** `note` and `reason` are lengths once stripped; `mayAct` is what another service decided about the user. */
  datatype Op =
    | CreateExam(examiner: nat, isEligible: bool, ids: seq<nat>)
    | UpdateRecord(exam: nat, user: User, texts: Texts)
    | Start(exam: nat, user: User)
    | Submit(exam: nat, user: User)
    | Approve(exam: nat, user: User)
    | Return(exam: nat, user: User, note: nat)
    | Cancel(exam: nat, user: User, reason: nat)
    | LinkEvidence(exam: nat, user: User, ids: seq<nat>)
    | AddArtifact(exam: nat, user: User, isKnownType: bool, text: string, from: Option<nat>, corrects: Option<nat>)
    | RegisterEvidence(mayAct: bool)
    | MakeLead(lead: nat, mayAct: bool)
    | ChangeStatus(user: User, status: CaseStatus)
    | CloseCase(user: User, summary: nat, evidenceIsOut: bool)

  // ---------------------------------------------------------------------------
  // Guards
  // ---------------------------------------------------------------------------

  predicate CanWork(v: CaseRow, x: Exam, user: User) {
    && (x.status.Pending? || x.status.InProgress?)
    && !v.status.Closed?
    && (user.isAdmin || user.id == x.examiner || Some(user.id) == v.lead)
  }

  predicate CanReview(v: CaseRow, x: Exam, user: User) {
    && x.status.UnderReview?
    && !v.status.Closed?
    && user.id != x.examiner
    && (user.isAdmin || Some(user.id) == v.lead)
  }

  predicate CanManage(v: CaseRow, user: User) {
    !v.status.Closed? && (user.isAdmin || v.lead == Some(user.id))
  }

  /** What stops a case from being closed, as far as examinations go. */
  predicate Unfinished(x: Exam) {
    x.status.Pending? || x.status.InProgress? || x.status.UnderReview?
  }

  predicate Distinct(ids: seq<nat>) {
    forall i, j | 0 <= i < j < |ids| :: ids[i] != ids[j]
  }

  /** PRIMARY KEY (examination_id, evidence_id) and trg_ee_same_case */
  predicate Linkable(links: set<nat>, ids: seq<nat>, evidence: set<nat>) {
    && Distinct(ids)
    && forall i | 0 <= i < |ids| :: ids[i] in evidence && ids[i] !in links
  }

  function Elements(ids: seq<nat>): set<nat> {
    set i | 0 <= i < |ids| :: ids[i]
  }

  /** trg_art_before_insert and chk_art_text */
  predicate Recordable(c: Content, op: Op)
    requires op.AddArtifact?
  {
    && op.isKnownType && |op.text| >= 2
    && (op.from.Some? ==> op.from.value in c.links)
    && (op.corrects.Some? ==> exists k | 0 <= k < |c.artifacts| :: c.artifacts[k].id == op.corrects.value)
  }

  function With(v: CaseRow, id: nat, x: Exam): CaseRow {
    v.(exams := v.exams[id := x])
  }

  // ---------------------------------------------------------------------------
  // The actions
  // ---------------------------------------------------------------------------

  /** An action on one examination, once its row is locked. */
  function ExamPlan(v: CaseRow, x: Exam, op: Op, n: nat): Option<Exam> {
    match op
    case UpdateRecord(_, user, texts) =>
      if CanWork(v, x, user) && RecordOf(texts) != x.content.record
      then Some(x.(content := x.content.(record := RecordOf(texts)))) else None
    case Start(_, user) =>
      if CanWork(v, x, user) && x.status.Pending? then Some(x.(status := InProgress, started := true)) else None
    case Submit(_, user) =>
      if CanWork(v, x, user) && x.status.InProgress? && x.content.record.tools.Some? && x.content.record.findings.Some?
      then Some(x.(status := UnderReview, submitted := Some(x.content))) else None
    case Approve(_, user) =>
      if CanReview(v, x, user) then Some(x.(status := Completed, reviewedBy := Some(user.id))) else None
    case Return(_, user, note) =>
      if note >= 5 && CanReview(v, x, user) then Some(x.(status := InProgress)) else None
    case Cancel(_, user, reason) =>
      if reason >= 5 && CanWork(v, x, user) then Some(x.(status := Cancelled)) else None
    case LinkEvidence(_, user, ids) =>
      if ids != [] && CanWork(v, x, user) && Linkable(x.content.links, ids, v.evidence)
      then Some(x.(content := x.content.(links := x.content.links + Elements(ids)))) else None
    case AddArtifact(_, user, _, text, from, corrects) =>
      if CanWork(v, x, user) && Recordable(x.content, op)
      then Some(x.(content := x.content.(artifacts := x.content.artifacts + [Artifact(n, text, from, corrects)])))
      else None
    case _ => None
  }

  predicate OnExam(op: Op) {
    || op.UpdateRecord? || op.Start? || op.Submit? || op.Approve? || op.Return? || op.Cancel?
    || op.LinkEvidence? || op.AddArtifact?
  }

  function NewExam(examiner: nat, ids: seq<nat>): Exam {
    Exam(examiner, Pending, false, Content(Record(None, None, None, None, None), Elements(ids), []), None, None)
  }

  function CasePlan(v: CaseRow, op: Op, n: nat): Option<CaseRow> {
    match op
    case CreateExam(examiner, isEligible, ids) =>
      // The last test is PRIMARY KEY (examination_id); AUTO_INCREMENT always passes it.
      if isEligible && !v.status.Closed? && Linkable({}, ids, v.evidence) && n !in v.exams
      then Some(With(v, n, NewExam(examiner, ids))) else None
    case RegisterEvidence(mayAct) =>
      if mayAct && !v.status.Closed? then Some(v.(evidence := v.evidence + {n})) else None
    case MakeLead(lead, mayAct) =>
      if mayAct && !v.status.Closed? then Some(v.(lead := Some(lead))) else None
    case ChangeStatus(user, status) =>
      if !status.Closed? && CanManage(v, user) && v.status != status then Some(v.(status := status)) else None
    case CloseCase(user, summary, evidenceIsOut) =>
      if CanManage(v, user) && summary > 0 && !evidenceIsOut && (forall id | id in v.exams :: !Unfinished(v.exams[id]))
      then Some(v.(status := Closed)) else None
    case _ => None
  }

  function Plan(v: CaseRow, op: Op, n: nat): Option<CaseRow> {
    if OnExam(op) then
      if op.exam in v.exams then
        match ExamPlan(v, v.exams[op.exam], op, n)
        case Some(x) => Some(With(v, op.exam, x))
        case None => None
      else None
    else CasePlan(v, op, n)
  }

  function ExamRules(): RowLock.Rules<CaseRow, Op, CaseRow> {
    RowLock.Rules(Plan, (v: CaseRow, d: CaseRow) => d)
  }

  // ---------------------------------------------------------------------------
  // What every action keeps
  // ---------------------------------------------------------------------------

  predicate Said(text: Option<string>) {
    text.Some? && text.value != ""
  }

  /** Tools and methods, and findings, are there and not empty. */
  predicate HasEssentials(r: Record) {
    Said(r.tools) && Said(r.findings)
  }

  /** A text that is there is not empty. */
  predicate NoEmptyText(r: Record) {
    && (r.tools.Some? ==> Said(r.tools)) && (r.observations.Some? ==> Said(r.observations))
    && (r.findings.Some? ==> Said(r.findings)) && (r.limitations.Some? ==> Said(r.limitations))
    && (r.conclusion.Some? ==> Said(r.conclusion))
  }

  /** An artifact comes from linked evidence and corrects an earlier artifact of the same examination. */
  ghost predicate ArtifactFits(c: Content, i: nat)
    requires i < |c.artifacts|
  {
    && (c.artifacts[i].evidence.Some? ==> c.artifacts[i].evidence.value in c.links)
    && (c.artifacts[i].corrects.Some? ==> exists k | 0 <= k < i :: c.artifacts[k].id == c.artifacts[i].corrects.value)
  }

  ghost predicate ContentFits(c: Content, evidence: set<nat>) {
    && c.links <= evidence
    && forall i | 0 <= i < |c.artifacts| :: ArtifactFits(c, i)
  }

  ghost predicate ExamGood(x: Exam, evidence: set<nat>) {
    && ContentFits(x.content, evidence)
    && NoEmptyText(x.content.record)
    && (x.status.Pending? ==> !x.started)
    && (x.status.InProgress? || x.status.UnderReview? || x.status.Completed? ==> x.started)
    // Frozen: under review and afterwards the content is what was submitted.
    && (x.status.UnderReview? || x.status.Completed? ==>
          x.submitted == Some(x.content) && HasEssentials(x.content.record))
    && (x.status.Completed? ==> x.reviewedBy.Some?)
    && (x.reviewedBy.Some? ==> x.reviewedBy.value != x.examiner && x.status.Completed?)
  }

  ghost predicate ExamAt(v: CaseRow, id: nat, n: nat) {
    id in v.exams ==>
      id < n && ExamGood(v.exams[id], v.evidence) && (v.status.Closed? ==> !Unfinished(v.exams[id]))
  }

  ghost predicate Good(v: CaseRow, n: nat) {
    && (forall id: nat :: ExamAt(v, id, n))
    && forall e: nat | e in v.evidence :: e < n
  }

  lemma EarlierArtifact(c: Content, d: Content, i: nat)
    requires c.links <= d.links && c.artifacts <= d.artifacts && i < |c.artifacts| && ArtifactFits(c, i)
    ensures ArtifactFits(d, i)
  {
    if c.artifacts[i].corrects.Some? {
      var k :| 0 <= k < i && c.artifacts[k].id == c.artifacts[i].corrects.value;
      assert d.artifacts[k] == c.artifacts[k];
    }
  }

  lemma ExamPlanKeepsGood(v: CaseRow, x: Exam, op: Op, n: nat)
    requires ExamGood(x, v.evidence) && ExamPlan(v, x, op, n).Some?
    ensures ExamGood(ExamPlan(v, x, op, n).value, v.evidence)
    ensures !v.status.Closed?
  {
    var c, d := x.content, ExamPlan(v, x, op, n).value.content;
    forall i | 0 <= i < |d.artifacts| ensures ArtifactFits(d, i) {
      if i < |c.artifacts| {
        assert ArtifactFits(c, i);
        EarlierArtifact(c, d, i);
      } else if op.corrects.Some? {
        var k :| 0 <= k < |c.artifacts| && c.artifacts[k].id == op.corrects.value;
        assert d.artifacts[k] == c.artifacts[k];
      }
    }
  }

  lemma WithKeepsGood(v: CaseRow, id: nat, x: Exam, n: nat, m: nat)
    requires Good(v, n) && n <= m && id < m && ExamGood(x, v.evidence) && !v.status.Closed?
    ensures Good(With(v, id, x), m)
  {
    forall other: nat ensures ExamAt(With(v, id, x), other, m) {
      assert ExamAt(v, other, n);
    }
  }

  lemma CasePlanKeepsGood(v: CaseRow, op: Op, n: nat)
    requires Good(v, n) && CasePlan(v, op, n).Some?
    ensures Good(CasePlan(v, op, n).value, n + 1)
  {
    if op.CreateExam? {
      assert ContentFits(NewExam(op.examiner, op.ids).content, v.evidence);
      WithKeepsGood(v, n, NewExam(op.examiner, op.ids), n, n + 1);
    } else {
      var w, m := CasePlan(v, op, n).value, n + 1;
      forall id: nat ensures ExamAt(w, id, m) {
        assert ExamAt(v, id, n);
        if id in v.exams { MoreEvidence(v.exams[id], v.evidence, w.evidence); }
      }
    }
  }

  lemma MoreEvidence(x: Exam, evidence: set<nat>, more: set<nat>)
    requires ExamGood(x, evidence) && evidence <= more
    ensures ExamGood(x, more)
  {
  }

  lemma PlanKeepsGood(v: CaseRow, op: Op, n: nat)
    requires Good(v, n) && Plan(v, op, n).Some?
    ensures Good(Plan(v, op, n).value, n + 1)
  {
    if OnExam(op) {
      assert ExamAt(v, op.exam, n);
      ExamPlanKeepsGood(v, v.exams[op.exam], op, n);
      WithKeepsGood(v, op.exam, ExamPlan(v, v.exams[op.exam], op, n).value, n, n + 1);
    } else {
      CasePlanKeepsGood(v, op, n);
    }
  }

  lemma GoodLater(v: CaseRow, n: nat, m: nat)
    requires Good(v, n) && n <= m
    ensures Good(v, m)
  {
    forall id: nat ensures ExamAt(v, id, m) {
      assert ExamAt(v, id, n);
    }
  }

  /** sp_register_case: a new case is open and empty. */
  ghost predicate BornEmpty(history: seq<RowLock.Event<CaseRow, Op>>) {
    forall i | 0 <= i < |history| && history[i].Born? ::
      history[i].initial.status == Open && history[i].initial.evidence == {} && history[i].initial.exams == map[]
  }

  /**
   In every interleaving of examination actions, evidence registrations, lead changes and closures:
   a completed examination was approved by someone other than its examiner, has its tools and
   findings, and is word for word what was last submitted; links and artifacts stay inside the case;
   and a closed case has no unfinished examination, even when its creation raced with the closure.
   */
  lemma WorkflowInEveryRun(run: seq<RowLock.Sys<CaseRow, Op, CaseRow>>, i: nat, key: nat)
    requires RowLock.IsRun(ExamRules(), run) && i < |run|
    requires BornEmpty(run[i].history) && key in run[i].rows
    ensures Good(run[i].rows[key], run[i].next)
  {
    forall v, n: nat, m: nat | Good(v, n) && n <= m ensures Good(v, m) {
      GoodLater(v, n, m);
    }
    forall v, op, n: nat | Good(v, n) && Plan(v, op, n).Some? ensures Good(Plan(v, op, n).value, n + 1) {
      PlanKeepsGood(v, op, n);
    }
    RowLock.GoodInEveryRun(ExamRules(), Good, run, i, key);
  }

  lemma CompletedMeans(v: CaseRow, n: nat, id: nat)
    requires Good(v, n) && id in v.exams && v.exams[id].status.Completed?
    ensures var x := v.exams[id];
            && x.reviewedBy.Some? && x.reviewedBy.value != x.examiner
            && Said(x.content.record.tools) && Said(x.content.record.findings)
            && x.submitted == Some(x.content)
  {
    assert ExamAt(v, id, n);
  }

  lemma ClosedMeans(v: CaseRow, n: nat)
    requires Good(v, n) && v.status.Closed?
    ensures forall id | id in v.exams :: v.exams[id].status.Completed? || v.exams[id].status.Cancelled?
  {
    forall id | id in v.exams ensures v.exams[id].status.Completed? || v.exams[id].status.Cancelled? {
      assert ExamAt(v, id, n);
    }
  }

  // ---------------------------------------------------------------------------
  // What changes between two moments
  // ---------------------------------------------------------------------------

  predicate Finished(x: Exam) {
    x.status.Completed? || x.status.Cancelled?
  }

  predicate ExamLivesOn(x: Exam, y: Exam) {
    && (Finished(x) ==> y == x)
    && (!x.status.Pending? ==> !y.status.Pending?)
    && x.examiner == y.examiner
    && x.content.links <= y.content.links
    && x.content.artifacts <= y.content.artifacts
  }

  ghost predicate ExamStays(u: CaseRow, v: CaseRow, id: nat) {
    id in u.exams ==> id in v.exams && ExamLivesOn(u.exams[id], v.exams[id])
  }

  ghost predicate LivesOn(u: CaseRow, v: CaseRow) {
    && (u.status.Closed? ==> v == u)
    && u.evidence <= v.evidence
    && forall id: nat :: ExamStays(u, v, id)
  }

  lemma LivesOnChains(u: CaseRow, v: CaseRow, w: CaseRow)
    requires LivesOn(u, v) && LivesOn(v, w)
    ensures LivesOn(u, w)
  {
    forall id: nat ensures ExamStays(u, w, id) {
      assert ExamStays(u, v, id) && ExamStays(v, w, id);
    }
  }

  lemma OpLivesOn(v: CaseRow, op: Op, n: nat)
    requires Plan(v, op, n).Some?
    ensures LivesOn(v, Plan(v, op, n).value)
  {
    var w := Plan(v, op, n).value;
    forall id: nat ensures ExamStays(v, w, id) {
      if OnExam(op) && id == op.exam {
        assert w.exams[id] == ExamPlan(v, v.exams[id], op, n).value;
      }
    }
  }

  /**
   Over every run, in any interleaving: completed and cancelled examinations never change, nothing in
   a closed case ever changes, artifacts and links are never removed, Pending is never re-entered.
   */
  lemma LifeInEveryRun(run: seq<RowLock.Sys<CaseRow, Op, CaseRow>>, i: nat, j: nat, key: nat)
    requires RowLock.IsRun(ExamRules(), run) && i <= j < |run| && key in run[i].rows
    ensures key in run[j].rows && LivesOn(run[i].rows[key], run[j].rows[key])
  {
    forall u, v, w | LivesOn(u, v) && LivesOn(v, w) ensures LivesOn(u, w) {
      LivesOnChains(u, v, w);
    }
    forall v, op, n: nat | Plan(v, op, n).Some? ensures LivesOn(v, Plan(v, op, n).value) {
      OpLivesOn(v, op, n);
    }
    forall v: CaseRow ensures LivesOn(v, v) {
      forall id: nat ensures ExamStays(v, v, id) {
      }
    }
    RowLock.RelatedInEveryRun(ExamRules(), LivesOn, run, i, j, key);
  }

  /** The action on this examination that turns the one status into the other. */
  predicate Turns(op: Op, id: nat, before: ExamStatus, after: ExamStatus) {
    match op
    case Start(exam, _) => exam == id && before == Pending && after == InProgress
    case Submit(exam, _) => exam == id && before == InProgress && after == UnderReview
    case Approve(exam, _) => exam == id && before == UnderReview && after == Completed
    case Return(exam, _, _) => exam == id && before == UnderReview && after == InProgress
    case Cancel(exam, _, _) => exam == id && (before == Pending || before == InProgress) && after == Cancelled
    case _ => false
  }

  predicate IsTurn(op: Op, id: nat) {
    (op.Start? || op.Submit? || op.Approve? || op.Return? || op.Cancel?) && op.exam == id
  }

  /** A new examination is Pending, and afterwards its status changes exactly by these actions. */
  lemma OneTurn(v: CaseRow, op: Op, n: nat, id: nat)
    requires Plan(v, op, n).Some?
    ensures var w := Plan(v, op, n).value;
      && (id in v.exams ==> id in w.exams)
      && (id in v.exams && IsTurn(op, id) ==> Turns(op, id, v.exams[id].status, w.exams[id].status))
      && (id in v.exams && !IsTurn(op, id) ==> w.exams[id].status == v.exams[id].status)
      && (id in w.exams && id !in v.exams ==> w.exams[id].status == Pending)
  {
  }

  /**
   The other actions on a case: evidence, a lead or another status are added by whoever may, while the case
   is open; the status by an administrator or its lead, and never to Closed.
   */
  lemma CaseActions(v: CaseRow, op: Op, n: nat)
    ensures var p := Plan(v, op, n);
      match op
      case RegisterEvidence(mayAct) =>
        && (p.Some? <==> mayAct && v.status != Closed)
        && (p.Some? ==> p.value.evidence == v.evidence + {n} && p.value == v.(evidence := p.value.evidence))
      case MakeLead(lead, mayAct) =>
        (p.Some? <==> mayAct && v.status != Closed) && (p.Some? ==> p.value == v.(lead := Some(lead)))
      case ChangeStatus(user, status) =>
        && (p.Some? <==> status != Closed && status != v.status && v.status != Closed
                         && (user.isAdmin || v.lead == Some(user.id)))
        && (p.Some? ==> p.value == v.(status := status))
      case _ => true
  {
  }

  predicate Ends(op: Op, id: nat, s: ExamStatus) {
    (s == Completed && op.Approve? && op.exam == id) || (s == Cancelled && op.Cancel? && op.exam == id)
  }

  /** Step k of the run commits an action that ends the examination in this status. */
  ghost predicate EndsAt(run: seq<RowLock.Sys<CaseRow, Op, CaseRow>>, k: nat, key: nat, id: nat, s: ExamStatus)
    requires k + 1 < |run|
  {
    CommitsEnd(run[k].history, run[k + 1].history, key, id, s)
  }

  ghost predicate CommitsEnd(
    before: seq<RowLock.Event<CaseRow, Op>>, after: seq<RowLock.Event<CaseRow, Op>>, key: nat, id: nat, s: ExamStatus)
  {
    && |after| == |before| + 1 && after[|before|].Done? && after[|before|].key == key
    && Ends(after[|before|].op, id, s)
  }

  ghost predicate HasStatus(cases: map<nat, CaseRow>, key: nat, id: nat, s: ExamStatus) {
    key in cases && id in cases[key].exams && cases[key].exams[id].status == s
  }

  lemma CommitEnds(
    a: RowLock.Sys<CaseRow, Op, CaseRow>, b: RowLock.Sys<CaseRow, Op, CaseRow>, tid: nat, key: nat, id: nat, s: ExamStatus)
    requires RowLock.Inv(ExamRules(), a) && RowLock.Commit(ExamRules(), a, b, tid) && (s == Completed || s == Cancelled)
    ensures HasStatus(b.rows, key, id, s) <==> HasStatus(a.rows, key, id, s) || CommitsEnd(a.history, b.history, key, id, s)
  {
    var t := a.txns[tid];
    assert Plan(a.rows[t.key], t.op, t.phase.ticket) == Some(t.phase.delta);
    OneTurn(a.rows[t.key], t.op, t.phase.ticket, id);
  }

  /** One step: it is in the final status afterwards exactly when it was before, or this step ends it so. */
  lemma StepEnds(run: seq<RowLock.Sys<CaseRow, Op, CaseRow>>, k: nat, key: nat, id: nat, s: ExamStatus)
    requires RowLock.IsRun(ExamRules(), run) && k + 1 < |run| && (s == Completed || s == Cancelled)
    requires BornEmpty(run[k + 1].history)
    ensures HasStatus(run[k + 1].rows, key, id, s) <==> HasStatus(run[k].rows, key, id, s) || EndsAt(run, k, key, id, s)
    ensures run[k].history <= run[k + 1].history
  {
    var a, b, rules := run[k], run[k + 1], ExamRules();
    RowLock.RunInv(rules, run, k);
    assert RowLock.StepAt(rules, run, k);
    if born, v :| RowLock.Create(a, b, born, v) {
      assert b.history[|a.history|] == RowLock.Born(born, v, a.next);
    } else if tid :| RowLock.Commit(rules, a, b, tid) {
      CommitEnds(a, b, tid, key, id, s);
    } else if tid :| RowLock.StepOf(rules, a, b, tid) {
      RowLock.QuietStep(rules, a, b, tid);
    }
  }

  /**
   Over every run, in any interleaving: an examination is Completed exactly when an approval of it has
   been committed, and Cancelled exactly when a cancellation has.
   */
  lemma {:induction false} EndedInEveryRun(
    run: seq<RowLock.Sys<CaseRow, Op, CaseRow>>, i: nat, key: nat, id: nat, s: ExamStatus)
    requires RowLock.IsRun(ExamRules(), run) && i < |run| && (s == Completed || s == Cancelled)
    requires BornEmpty(run[i].history)
    ensures HasStatus(run[i].rows, key, id, s) <==> exists k: nat | k < i :: EndsAt(run, k, key, id, s)
  {
    if i > 0 {
      StepEnds(run, i - 1, key, id, s);
      assert BornEmpty(run[i - 1].history);
      EndedInEveryRun(run, i - 1, key, id, s);
    }
  }

  // ---------------------------------------------------------------------------
  // The service
  // ---------------------------------------------------------------------------

  datatype ExamError =
    | NotFound | CannotWork | CannotReview | OnlyPending | NotStarted | NothingToReview | TooShort | NoEvidence
    | BadEvidence | BadArtifact | NotEligible | CaseIsClosed | CannotClose

  ghost predicate CaseAt(cases: map<nat, CaseRow>, key: nat, n: nat) {
    key in cases ==> Good(cases[key], n)
  }

  ghost predicate AllGood(cases: map<nat, CaseRow>, n: nat) {
    forall key: nat :: CaseAt(cases, key, n)
  }

  lemma StepKeepsAll(cases: map<nat, CaseRow>, n: nat, key: nat, op: Op)
    requires AllGood(cases, n) && key in cases && Plan(cases[key], op, n).Some?
    ensures AllGood(cases[key := Plan(cases[key], op, n).value], n + 1)
  {
    var updated, m := cases[key := Plan(cases[key], op, n).value], n + 1;
    forall other: nat ensures CaseAt(updated, other, m) {
      assert CaseAt(cases, other, n);
      if other == key { PlanKeepsGood(cases[key], op, n); } else if other in cases { GoodLater(cases[other], n, m); }
    }
  }

  lemma FreshExam(cases: map<nat, CaseRow>, n: nat, key: nat)
    requires AllGood(cases, n) && key in cases
    ensures n !in cases[key].exams
  {
    assert CaseAt(cases, key, n);
    assert ExamAt(cases[key], n, n);
  }

  lemma ReviewedContent(cases: map<nat, CaseRow>, n: nat, key: nat, id: nat)
    requires AllGood(cases, n) && key in cases && id in cases[key].exams && cases[key].exams[id].status.UnderReview?
    ensures var x := cases[key].exams[id];
            x.submitted == Some(x.content) && HasEssentials(x.content.record)
  {
    assert CaseAt(cases, key, n);
    assert ExamAt(cases[key], id, n);
  }

  /** The INSERTs of one transaction: the first that is refused rolls all of them back. */
  method InsertLinks(links: set<nat>, ids: seq<nat>, evidence: set<nat>) returns (r: Option<set<nat>>)
    ensures r.Some? <==> Linkable(links, ids, evidence)
    ensures r.Some? ==> r.value == links + Elements(ids)
  {
    var linked := links;
    for i := 0 to |ids|
      invariant Linkable(links, ids[..i], evidence)
      invariant linked == links + Elements(ids[..i])
    {
      if ids[i] !in evidence || ids[i] in linked {
        assert !Linkable(links, ids, evidence) by {
          if ids[i] in Elements(ids[..i]) {
            var k :| 0 <= k < i && ids[..i][k] == ids[i];
            assert ids[k] == ids[i];
          }
        }
        return None;
      }
      assert ids[..i + 1] == ids[..i] + [ids[i]];
      assert Elements(ids[..i + 1]) == Elements(ids[..i]) + {ids[i]} by { ElementsSnoc(ids[..i], ids[i]); }
      linked := linked + {ids[i]};
    }
    assert ids[..|ids|] == ids;
    return Some(linked);
  }

  lemma ElementsSnoc(ids: seq<nat>, e: nat)
    ensures Elements(ids + [e]) == Elements(ids) + {e}
  {
    assert (ids + [e])[|ids|] == e;
    assert forall i | 0 <= i < |ids| :: (ids + [e])[i] == ids[i];
  }

  /** An examiner, case lead or administrator may work on it while it is Pending or In Progress and its case is open. */
  ghost predicate MayWork(cases: map<nat, CaseRow>, key: nat, id: nat, user: User) {
    && key in cases && id in cases[key].exams && cases[key].status != Closed
    && (cases[key].exams[id].status == Pending || cases[key].exams[id].status == InProgress)
    && (user.isAdmin || user.id == cases[key].exams[id].examiner || cases[key].lead == Some(user.id))
  }

  /** Under review in an open case: an administrator or the case lead, who is not the examiner. */
  ghost predicate MayReview(cases: map<nat, CaseRow>, key: nat, id: nat, user: User) {
    && key in cases && id in cases[key].exams && cases[key].status != Closed
    && cases[key].exams[id].status == UnderReview
    && user.id != cases[key].exams[id].examiner
    && (user.isAdmin || cases[key].lead == Some(user.id))
  }

  /** Each text as it was sent, an empty one as none. */
  ghost predicate Holds(r: Record, t: Texts) {
    && (if t.tools == "" then r.tools == None else r.tools == Some(t.tools))
    && (if t.observations == "" then r.observations == None else r.observations == Some(t.observations))
    && (if t.findings == "" then r.findings == None else r.findings == Some(t.findings))
    && (if t.limitations == "" then r.limitations == None else r.limitations == Some(t.limitations))
    && (if t.conclusion == "" then r.conclusion == None else r.conclusion == Some(t.conclusion))
  }

  /** New links: items of the case, each once and none linked before. */
  ghost predicate NewLinks(links: set<nat>, ids: seq<nat>, evidence: set<nat>) {
    && (forall e | e in ids :: e in evidence && e !in links)
    && forall i, j | 0 <= i < j < |ids| :: ids[i] != ids[j]
  }

  lemma ElementsAre(ids: seq<nat>)
    ensures forall e :: e in Elements(ids) <==> e in ids
  {
    forall e | e in ids ensures e in Elements(ids) {
      var i :| 0 <= i < |ids| && ids[i] == e;
    }
  }

  class ExaminationService {
    var cases: map<nat, CaseRow>
    var next: nat

    ghost predicate Valid()
      reads this
    {
      AllGood(cases, next)
    }

    /** The outcome of one action: it happens exactly when its plan allows it, and does just that. */
    twostate predicate Did(key: nat, op: Op, done: bool)
      reads this
    {
      && (done <==> key in old(cases) && Plan(old(cases)[key], op, old(next)).Some?)
      && (done ==>
            && cases == old(cases)[key := Plan(old(cases)[key], op, old(next)).value]
            && next == old(next) + 1)
      && (!done ==> cases == old(cases) && next == old(next))
    }

    /** One examination of one case is now x; everything else is as it was. */
    twostate predicate Sets(key: nat, id: nat, x: Exam)
      reads this
    {
      && key in old(cases) && key in cases && cases == old(cases)[key := cases[key]]
      && cases[key] == old(cases)[key].(exams := old(cases)[key].exams[id := x])
    }

    constructor ()
      ensures Valid() && cases == map[] && next == 0
    {
      cases := map[];
      next := 0;
    }

    method Put(key: nat, op: Op, v: CaseRow)
      requires Valid() && key in cases && Plan(cases[key], op, next) == Some(v)
      modifies this
      ensures Valid() && cases == old(cases)[key := v] && next == old(next) + 1
    {
      StepKeepsAll(cases, next, key, op);
      cases := cases[key := v];
      next := next + 1;
    }

    method CreateExamination(key: nat, examiner: nat, isEligible: bool, ids: seq<nat>) returns (r: Result<nat, ExamError>)
      requires Valid()
      modifies this
      ensures Valid() && Did(key, CreateExam(examiner, isEligible, ids), r.Ok?)
      ensures r.Ok? <==>
        isEligible && key in old(cases) && old(cases)[key].status != Closed && NewLinks({}, ids, old(cases)[key].evidence)
      ensures r.Ok? ==>
        && r.value == old(next) && r.value !in old(cases)[key].exams && r.value in cases[key].exams
        && var links := cases[key].exams[r.value].content.links;
           && Sets(key, r.value, Exam(examiner, Pending, false, Content(Record(None, None, None, None, None), links, []),
                                      None, None))
           && forall e :: e in links <==> e in ids
    {
      if !isEligible {
        return Err(NotEligible);
      }
      if key !in cases || cases[key].status.Closed? {
        return Err(CaseIsClosed);
      }
      var v := cases[key];
      var links := InsertLinks({}, ids, v.evidence);
      if links.None? {
        return Err(BadEvidence);
      }
      FreshExam(cases, next, key);
      assert links.value == Elements(ids);
      ElementsAre(ids);
      Put(key, CreateExam(examiner, isEligible, ids), With(v, next, NewExam(examiner, ids)));
      return Ok(next - 1);
    }

    /** `_lock`: the examination, if this user may work on it now. */
    method LockForWork(key: nat, id: nat, user: User) returns (r: Result<Exam, ExamError>)
      ensures r.Ok? <==> key in cases && id in cases[key].exams && CanWork(cases[key], cases[key].exams[id], user)
      ensures r.Ok? ==> r.value == cases[key].exams[id]
    {
      if key !in cases || id !in cases[key].exams {
        return Err(NotFound);
      }
      if !CanWork(cases[key], cases[key].exams[id], user) {
        return Err(CannotWork);
      }
      return Ok(cases[key].exams[id]);
    }

    /** `_lock_for_review` */
    method LockForReview(key: nat, id: nat, user: User) returns (r: Result<Exam, ExamError>)
      ensures r.Ok? <==> key in cases && id in cases[key].exams && CanReview(cases[key], cases[key].exams[id], user)
      ensures r.Ok? ==> r.value == cases[key].exams[id]
    {
      if key !in cases || id !in cases[key].exams {
        return Err(NotFound);
      }
      if !CanReview(cases[key], cases[key].exams[id], user) {
        return Err(CannotReview);
      }
      return Ok(cases[key].exams[id]);
    }

    /** Ok(false): nothing to change. */
    method UpdateTheRecord(key: nat, id: nat, user: User, texts: Texts) returns (r: Result<bool, ExamError>)
      requires Valid()
      modifies this
      ensures Valid() && Did(key, UpdateRecord(id, user, texts), r.Ok? && r.value)
      ensures r.Ok? <==> MayWork(old(cases), key, id, user)
      ensures r.Ok? ==> Holds(cases[key].exams[id].content.record, texts)
      ensures r.Ok? ==>
        var x, record := old(cases)[key].exams[id], cases[key].exams[id].content.record;
        Sets(key, id, x.(content := x.content.(record := record))) && (r.value <==> record != x.content.record)
    {
      var locked := LockForWork(key, id, user);
      if locked.Err? {
        return Err(locked.error);
      }
      var x, record := locked.value, RecordOf(texts);
      if record == x.content.record {
        return Ok(false);
      }
      Put(key, UpdateRecord(id, user, texts), With(cases[key], id, x.(content := x.content.(record := record))));
      return Ok(true);
    }

    method StartExamination(key: nat, id: nat, user: User) returns (r: Option<ExamError>)
      requires Valid()
      modifies this
      ensures Valid() && Did(key, Start(id, user), r.None?)
      ensures r.None? <==> MayWork(old(cases), key, id, user) && old(cases)[key].exams[id].status == Pending
      ensures r.None? ==> Sets(key, id, old(cases)[key].exams[id].(status := InProgress, started := true))
    {
      var locked := LockForWork(key, id, user);
      if locked.Err? {
        return Some(locked.error);
      }
      var x := locked.value;
      if !x.status.Pending? {
        return Some(OnlyPending);
      }
      Put(key, Start(id, user), With(cases[key], id, x.(status := InProgress, started := true)));
      return None;
    }

    method SubmitForReview(key: nat, id: nat, user: User) returns (r: Option<ExamError>)
      requires Valid()
      modifies this
      ensures Valid() && Did(key, Submit(id, user), r.None?)
      ensures r.None? <==>
        && MayWork(old(cases), key, id, user) && old(cases)[key].exams[id].status == InProgress
        && var record := old(cases)[key].exams[id].content.record;
           record.tools.Some? && record.findings.Some?
      ensures r.None? ==>
        var x := old(cases)[key].exams[id];
        Sets(key, id, x.(status := UnderReview, submitted := Some(x.content)))
    {
      var locked := LockForWork(key, id, user);
      if locked.Err? {
        return Some(locked.error);
      }
      var x := locked.value;
      if !x.status.InProgress? {
        return Some(NotStarted);
      }
      if x.content.record.tools.None? || x.content.record.findings.None? {
        return Some(NothingToReview);
      }
      Put(key, Submit(id, user), With(cases[key], id, x.(status := UnderReview, submitted := Some(x.content))));
      return None;
    }

    /** What is completed is what was submitted, and the reviewer is not the examiner. */
    method ApproveExamination(key: nat, id: nat, user: User) returns (r: Option<ExamError>)
      requires Valid()
      modifies this
      ensures Valid() && Did(key, Approve(id, user), r.None?)
      ensures r.None? <==> MayReview(old(cases), key, id, user)
      ensures r.None? ==>
        && Sets(key, id, old(cases)[key].exams[id].(status := Completed, reviewedBy := Some(user.id)))
        && old(cases)[key].exams[id].submitted == Some(cases[key].exams[id].content)
        && HasEssentials(cases[key].exams[id].content.record)
    {
      var locked := LockForReview(key, id, user);
      if locked.Err? {
        return Some(locked.error);
      }
      ReviewedContent(cases, next, key, id);
      Put(key, Approve(id, user),
          With(cases[key], id, locked.value.(status := Completed, reviewedBy := Some(user.id))));
      return None;
    }

    method ReturnForRevision(key: nat, id: nat, user: User, note: nat) returns (r: Option<ExamError>)
      requires Valid()
      modifies this
      ensures Valid() && Did(key, Return(id, user, note), r.None?)
      ensures r.None? <==> note >= 5 && MayReview(old(cases), key, id, user)
      ensures r.None? ==> Sets(key, id, old(cases)[key].exams[id].(status := InProgress))
    {
      if note < 5 {
        return Some(TooShort);
      }
      var locked := LockForReview(key, id, user);
      if locked.Err? {
        return Some(locked.error);
      }
      Put(key, Return(id, user, note), With(cases[key], id, locked.value.(status := InProgress)));
      return None;
    }

    method CancelExamination(key: nat, id: nat, user: User, reason: nat) returns (r: Option<ExamError>)
      requires Valid()
      modifies this
      ensures Valid() && Did(key, Cancel(id, user, reason), r.None?)
      ensures r.None? <==> reason >= 5 && MayWork(old(cases), key, id, user)
      ensures r.None? ==> Sets(key, id, old(cases)[key].exams[id].(status := Cancelled))
    {
      if reason < 5 {
        return Some(TooShort);
      }
      var locked := LockForWork(key, id, user);
      if locked.Err? {
        return Some(locked.error);
      }
      Put(key, Cancel(id, user, reason), With(cases[key], id, locked.value.(status := Cancelled)));
      return None;
    }

    method LinkMoreEvidence(key: nat, id: nat, user: User, ids: seq<nat>) returns (r: Option<ExamError>)
      requires Valid()
      modifies this
      ensures Valid() && Did(key, LinkEvidence(id, user, ids), r.None?)
      ensures r.None? <==>
        && ids != [] && MayWork(old(cases), key, id, user)
        && NewLinks(old(cases)[key].exams[id].content.links, ids, old(cases)[key].evidence)
      ensures r.None? ==>
        var x := old(cases)[key].exams[id];
        && id in cases[key].exams
        && var links := cases[key].exams[id].content.links;
           && Sets(key, id, x.(content := x.content.(links := links)))
           && forall e :: e in links <==> e in x.content.links || e in ids
    {
      if ids == [] {
        return Some(NoEvidence);
      }
      var locked := LockForWork(key, id, user);
      if locked.Err? {
        return Some(locked.error);
      }
      var x := locked.value;
      var links := InsertLinks(x.content.links, ids, cases[key].evidence);
      if links.None? {
        return Some(BadEvidence);
      }
      ElementsAre(ids);
      Put(key, LinkEvidence(id, user, ids),
          With(cases[key], id, x.(content := x.content.(links := links.value))));
      return None;
    }

    method RecordArtifact(key: nat, id: nat, user: User, isKnownType: bool, text: string, from: Option<nat>,
        corrects: Option<nat>) returns (r: Result<nat, ExamError>)
      requires Valid()
      modifies this
      ensures Valid() && Did(key, AddArtifact(id, user, isKnownType, text, from, corrects), r.Ok?)
      ensures r.Ok? <==>
        && MayWork(old(cases), key, id, user) && isKnownType && |text| >= 2
        && var c := old(cases)[key].exams[id].content;
           && (from.Some? ==> from.value in c.links)
           && (corrects.Some? ==> exists a | a in c.artifacts :: a.id == corrects.value)
      ensures r.Ok? ==>
        var x := old(cases)[key].exams[id];
        && r.value == old(next)
        && Sets(key, id, x.(content := x.content.(artifacts := x.content.artifacts + [Artifact(r.value, text, from, corrects)])))
    {
      if !isKnownType {
        return Err(BadArtifact);
      }
      var locked := LockForWork(key, id, user);
      if locked.Err? {
        return Err(locked.error);
      }
      var x, op := locked.value, AddArtifact(id, user, isKnownType, text, from, corrects);
      if !Recordable(x.content, op) {
        return Err(BadArtifact);
      }
      Put(key, op, With(cases[key], id, x.(content := x.content.(
                     artifacts := x.content.artifacts + [Artifact(next, text, from, corrects)]))));
      return Ok(next - 1);
    }

    /** sp_close_case: refused exactly while something is unfinished, out, unsaid or not permitted. */
    method Close(key: nat, user: User, summary: nat, evidenceIsOut: bool) returns (r: Option<ExamError>)
      requires Valid()
      modifies this
      ensures Valid() && Did(key, CloseCase(user, summary, evidenceIsOut), r.None?)
      ensures r.None? <==>
        && key in old(cases) && old(cases)[key].status != Closed && (user.isAdmin || old(cases)[key].lead == Some(user.id))
        && summary > 0 && !evidenceIsOut
        && forall id | id in old(cases)[key].exams ::
             old(cases)[key].exams[id].status == Completed || old(cases)[key].exams[id].status == Cancelled
      ensures r.None? ==> cases == old(cases)[key := old(cases)[key].(status := Closed)]
    {
      if key !in cases {
        return Some(NotFound);
      }
      var v := cases[key];
      if !CanManage(v, user) || summary == 0 || evidenceIsOut || (exists id | id in v.exams :: Unfinished(v.exams[id])) {
        return Some(CannotClose);
      }
      Put(key, CloseCase(user, summary, evidenceIsOut), v.(status := Closed));
      return None;
    }
  }
}
