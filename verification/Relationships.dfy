/**
 The queries behind the relationship graph (app/graph/services.py, with Scope of app/access.py).

 A table is a sequence of rows in the order its queries return them. A row carries the rows its
 foreign keys point to, which is what the JOINs of the queries fetch. Every artifact, link and
 citation stays inside one case: triggers trg_ee_same_case, trg_re_same_case and
 trg_art_before_insert, and app/examinations/services.py:181 and 346-348.
 */
module Relationships {
  import opened Wrappers
  import opened Content
  import opened Graph

  datatype CaseRow = CaseRow(id: nat, reference: string, title: string, status: nat)
  datatype UserRow = UserRow(id: nat, fullName: string)
  datatype RuleRow = RuleRow(id: nat, name: string)
  datatype Assignment = Assignment(inCase: CaseRow, user: UserRow, isLead: bool)
  datatype EvidenceRow = EvidenceRow(
    id: nat, code: string, description: string, inCase: CaseRow, integrity: nat, hash: Option<Digest>)
  datatype ExamRow = ExamRow(id: nat, code: string, typeName: string, status: nat, inCase: CaseRow)
  datatype ReportRow = ReportRow(id: nat, code: string, title: string, status: nat, inCase: CaseRow)
  datatype ArtifactRow = ArtifactRow(
    id: nat, artifactType: string, description: string, sha: Option<Digest>, exam: ExamRow, evidence: Option<EvidenceRow>)
  datatype LinkRow = LinkRow(exam: ExamRow, evidence: EvidenceRow)
  datatype CiteRow = CiteRow(report: ReportRow, exam: ExamRow)

  /** A match of an item's latest completed scan. */
  datatype MatchRow = MatchRow(scan: nat, identifier: string, rule: RuleRow, evidence: EvidenceRow)

  datatype Db = Db(
    users: seq<UserRow>, rules: seq<RuleRow>,
    cases: seq<CaseRow>, assignments: seq<Assignment>, evidence: seq<EvidenceRow>, exams: seq<ExamRow>,
    reports: seq<ReportRow>, artifacts: seq<ArtifactRow>, links: seq<LinkRow>, cites: seq<CiteRow>,
    matches: seq<MatchRow>)

  datatype Scope = Scope(user: nat, labWide: bool)

  ghost predicate Keyed<R(!new)>(rows: seq<R>, id: R -> nat) {
    forall a, b | a in rows && b in rows && id(a) == id(b) :: a == b
  }

  /** Primary and foreign keys, and the same-case rules. */
  ghost predicate Valid(db: Db) {
    && Keyed(db.cases, (c: CaseRow) => c.id)
    && Keyed(db.evidence, (e: EvidenceRow) => e.id)
    && Keyed(db.exams, (x: ExamRow) => x.id)
    && Keyed(db.reports, (r: ReportRow) => r.id)
    && Keyed(db.artifacts, (a: ArtifactRow) => a.id)
    && Keyed(db.users, (u: UserRow) => u.id)
    && Keyed(db.rules, (r: RuleRow) => r.id)
    && (forall c, d | c in db.cases && d in db.cases && c.reference == d.reference :: c == d)
    && (forall a | a in db.assignments :: a.inCase in db.cases && a.user in db.users)
    && (forall e | e in db.evidence :: e.inCase in db.cases)
    && (forall x | x in db.exams :: x.inCase in db.cases)
    && (forall r | r in db.reports :: r.inCase in db.cases)
    && (forall a | a in db.artifacts :: a.exam in db.exams)
    && (forall a | a in db.artifacts && a.evidence.Some? ::
          a.evidence.value in db.evidence && a.evidence.value.inCase == a.exam.inCase)
    && (forall l | l in db.links :: l.exam in db.exams && l.evidence in db.evidence && l.exam.inCase == l.evidence.inCase)
    && (forall t | t in db.cites :: t.report in db.reports && t.exam in db.exams && t.report.inCase == t.exam.inCase)
    && (forall m | m in db.matches :: m.evidence in db.evidence && m.rule in db.rules)
  }

  // ---------------------------------------------------------------------------
  // SELECT ... WHERE
  // ---------------------------------------------------------------------------

  function Filter<R>(rows: seq<R>, p: R -> bool): seq<R> {
    if rows == [] then []
    else Filter(rows[..|rows| - 1], p) + if p(rows[|rows| - 1]) then [rows[|rows| - 1]] else []
  }

  /** query_one */
  function First<R>(rows: seq<R>): Option<R> {
    if rows == [] then None else Some(rows[0])
  }

  lemma {:induction false} FilterIn<R>(rows: seq<R>, p: R -> bool)
    ensures forall r :: r in Filter(rows, p) <==> r in rows && p(r)
  {
    if rows != [] {
      FilterIn(rows[..|rows| - 1], p);
      assert rows == rows[..|rows| - 1] + [rows[|rows| - 1]];
    }
  }

  /** A query that returns only rows that `vis` keeps is not affected by the others. */
  lemma {:induction false} Narrow<R>(rows: seq<R>, vis: R -> bool, p: R -> bool, q: R -> bool)
    requires forall r | r in rows :: (p(r) ==> vis(r)) && (vis(r) ==> (q(r) <==> p(r)))
    ensures Filter(Filter(rows, vis), q) == Filter(rows, p)
  {
    if rows != [] {
      var n := |rows| - 1;
      var kept, r := Filter(rows[..n], vis), rows[n];
      Narrow(rows[..n], vis, p, q);
      assert (kept + [r])[..|kept|] == kept;
      assert kept + [] == kept;
    }
  }

  // ---------------------------------------------------------------------------
  // What a user may see
  // ---------------------------------------------------------------------------

  /** scope.case_filter */
  predicate Sees(db: Db, scope: Scope, caseId: nat) {
    scope.labWide || exists a | a in db.assignments :: a.inCase.id == caseId && a.user.id == scope.user
  }

  function SeesCase(db: Db, scope: Scope): CaseRow -> bool { (c: CaseRow) => Sees(db, scope, c.id) }
  function SeesAssignment(db: Db, scope: Scope): Assignment -> bool { (a: Assignment) => Sees(db, scope, a.inCase.id) }
  function SeesEvidence(db: Db, scope: Scope): EvidenceRow -> bool { (e: EvidenceRow) => Sees(db, scope, e.inCase.id) }
  function SeesExam(db: Db, scope: Scope): ExamRow -> bool { (x: ExamRow) => Sees(db, scope, x.inCase.id) }
  function SeesReport(db: Db, scope: Scope): ReportRow -> bool { (r: ReportRow) => Sees(db, scope, r.inCase.id) }
  function SeesArtifact(db: Db, scope: Scope): ArtifactRow -> bool {
    (a: ArtifactRow) => Sees(db, scope, a.exam.inCase.id)
  }
  function SeesLink(db: Db, scope: Scope): LinkRow -> bool { (l: LinkRow) => Sees(db, scope, l.exam.inCase.id) }
  function SeesCite(db: Db, scope: Scope): CiteRow -> bool { (t: CiteRow) => Sees(db, scope, t.report.inCase.id) }
  function SeesMatch(db: Db, scope: Scope): MatchRow -> bool { (m: MatchRow) => Sees(db, scope, m.evidence.inCase.id) }

  /** The database without every record of a case the user cannot see. Users and rules are public. */
  function Restrict(db: Db, scope: Scope): Db {
    db.(cases := Filter(db.cases, SeesCase(db, scope)),
        assignments := Filter(db.assignments, SeesAssignment(db, scope)),
        evidence := Filter(db.evidence, SeesEvidence(db, scope)),
        exams := Filter(db.exams, SeesExam(db, scope)),
        reports := Filter(db.reports, SeesReport(db, scope)),
        artifacts := Filter(db.artifacts, SeesArtifact(db, scope)),
        links := Filter(db.links, SeesLink(db, scope)),
        cites := Filter(db.cites, SeesCite(db, scope)),
        matches := Filter(db.matches, SeesMatch(db, scope)))
  }

  lemma SeesSame(db: Db, scope: Scope, caseId: nat)
    ensures Sees(Restrict(db, scope), scope, caseId) <==> Sees(db, scope, caseId)
  {
    FilterIn(db.assignments, SeesAssignment(db, scope));
    if !scope.labWide && Sees(db, scope, caseId) {
      var a :| a in db.assignments && a.inCase.id == caseId && a.user.id == scope.user;
      assert a in Restrict(db, scope).assignments;
    }
  }

  // ---------------------------------------------------------------------------
  // What each row adds to the graph
  // ---------------------------------------------------------------------------

  function CaseId(c: CaseRow): NodeId { Id(CaseNode, 0, c.id) }
  function UserId(u: UserRow): NodeId { Id(UserNode, 0, u.id) }
  function EvidenceId(e: EvidenceRow): NodeId { Id(EvidenceNode, 0, e.id) }
  function ExamId(x: ExamRow): NodeId { Id(ExamNode, 0, x.id) }
  function ReportId(r: ReportRow): NodeId { Id(ReportNode, 0, r.id) }
  function ArtifactId(a: ArtifactRow): NodeId { Id(ArtifactNode, 0, a.id) }
  function RuleId(r: RuleRow): NodeId { Id(RuleNode, 0, r.id) }

  function ShowCase(c: CaseRow): Shown { CaseShown(c.reference, c.title, c.status) }
  function ShowEvidence(e: EvidenceRow, elsewhere: Option<string>): Shown {
    EvidenceShown(e.code, e.description, elsewhere, e.integrity)
  }
  function ShowExam(x: ExamRow): Shown { ExamShown(x.code, x.typeName, x.status) }
  function ShowReport(r: ReportRow): Shown { ReportShown(r.code, r.title, r.status) }
  function ShowArtifact(a: ArtifactRow): Shown { ArtifactShown(a.id, a.artifactType, a.description, a.exam.code) }

  function NodeAndEdge(id: NodeId, shown: Shown, source: NodeId, target: NodeId, kind: EdgeKind, text: EdgeLabel): seq<Cmd> {
    [AddNode(id, shown), AddEdge(EdgeKey(source, target, kind), text)]
  }

  function OnlyEdge(source: NodeId, target: NodeId, kind: EdgeKind, text: EdgeLabel): seq<Cmd> {
    [AddEdge(EdgeKey(source, target, kind), text)]
  }

  function LeadText(isLead: bool): EdgeLabel {
    if isLead then LeadInvestigator else AssignedTo
  }

  /** A holder of a hash: an evidence item or an artifact. */
  datatype Holder = Item(item: EvidenceRow) | Found(artifact: ArtifactRow)

  function HolderId(h: Holder): NodeId {
    match h
    case Item(e) => EvidenceId(e)
    case Found(a) => ArtifactId(a)
  }

  /** exclude_case_id: items of other cases show their case reference */
  function Elsewhere(e: EvidenceRow, exclude: Option<nat>): Option<string> {
    if exclude == Some(e.inCase.id) then None else Some(e.inCase.reference)
  }

  function HolderCmds(value: Digest, exclude: Option<nat>): Holder -> seq<Cmd> {
    (h: Holder) =>
      var shown := match h case Item(e) => ShowEvidence(e, Elsewhere(e, exclude)) case Found(a) => ShowArtifact(a);
      NodeAndEdge(HolderId(h), shown, HolderId(h), HashId(value), Identity, HasSha)
  }

  function HoldsEvidence(db: Db, scope: Scope, value: Digest): EvidenceRow -> bool {
    (e: EvidenceRow) => e.hash == Some(value) && Sees(db, scope, e.inCase.id)
  }

  function HoldsArtifact(db: Db, scope: Scope, value: Digest): ArtifactRow -> bool {
    (a: ArtifactRow) => a.sha == Some(value) && Sees(db, scope, a.exam.inCase.id)
  }

  function Items(es: seq<EvidenceRow>): seq<Holder> {
    seq(|es|, i requires 0 <= i < |es| => Item(es[i]))
  }

  function Founds(rows: seq<ArtifactRow>): seq<Holder> {
    seq(|rows|, i requires 0 <= i < |rows| => Found(rows[i]))
  }

  /** Every visible holder of a hash. */
  function Holders(db: Db, scope: Scope, value: Digest): seq<Holder> {
    Items(Filter(db.evidence, HoldsEvidence(db, scope, value)))
    + Founds(Filter(db.artifacts, HoldsArtifact(db, scope, value)))
  }

  function ValueCmds(holders: seq<Holder>, value: Digest, shared: bool, exclude: Option<nat>): seq<Cmd> {
    if shared && |holders| < 2 then []
    else [AddNode(HashId(value), HashShown(value))] + Flat(holders, HolderCmds(value, exclude))
  }

  function HashCmdsFor(db: Db, scope: Scope, shared: bool, exclude: Option<nat>): Digest -> seq<Cmd> {
    (value: Digest) => ValueCmds(Holders(db, scope, value), value, shared, exclude)
  }

  /** _add_hash_links */
  function HashCmds(db: Db, scope: Scope, values: seq<Digest>, shared: bool, exclude: Option<nat>): seq<Cmd> {
    Flat(values, HashCmdsFor(db, scope, shared, exclude))
  }

  function MatchOf(ids: set<nat>): MatchRow -> bool {
    (m: MatchRow) => m.evidence.id in ids
  }

  function MatchCmds(): MatchRow -> seq<Cmd> {
    (m: MatchRow) => NodeAndEdge(RuleId(m.rule), RuleShown(m.rule.name), EvidenceId(m.evidence), RuleId(m.rule),
                                 Outcome, Matched(m.identifier, m.scan))
  }

  /** _add_yara */
  function YaraCmds(db: Db, ids: set<nat>): seq<Cmd> {
    Flat(Filter(db.matches, MatchOf(ids)), MatchCmds())
  }

  // ---------------------------------------------------------------------------
  // case_graph
  // ---------------------------------------------------------------------------

  function AssignmentIn(id: nat): Assignment -> bool { (a: Assignment) => a.inCase.id == id }
  function EvidenceIn(id: nat): EvidenceRow -> bool { (e: EvidenceRow) => e.inCase.id == id }
  function ExamIn(id: nat): ExamRow -> bool { (x: ExamRow) => x.inCase.id == id }
  function LinkIn(id: nat): LinkRow -> bool { (l: LinkRow) => l.exam.inCase.id == id }
  function ReportIn(id: nat): ReportRow -> bool { (r: ReportRow) => r.inCase.id == id }
  function CiteIn(id: nat): CiteRow -> bool { (t: CiteRow) => t.report.inCase.id == id }
  function ArtifactIn(id: nat): ArtifactRow -> bool { (a: ArtifactRow) => a.exam.inCase.id == id }

  function PersonCmds(cnode: NodeId): Assignment -> seq<Cmd> {
    (a: Assignment) => NodeAndEdge(UserId(a.user), UserShown(a.user.fullName, a.isLead), UserId(a.user), cnode,
                                   Recorded, LeadText(a.isLead))
  }

  function EvidenceCmds(cnode: NodeId): EvidenceRow -> seq<Cmd> {
    (e: EvidenceRow) => NodeAndEdge(EvidenceId(e), ShowEvidence(e, None), cnode, EvidenceId(e), Recorded, Contains)
  }

  function ExamCmds(cnode: NodeId): ExamRow -> seq<Cmd> {
    (x: ExamRow) => NodeAndEdge(ExamId(x), ShowExam(x), cnode, ExamId(x), Recorded, Examination)
  }

  function LinkCmds(): LinkRow -> seq<Cmd> {
    (l: LinkRow) => OnlyEdge(ExamId(l.exam), EvidenceId(l.evidence), Recorded, Examined)
  }

  function ReportCmds(cnode: NodeId): ReportRow -> seq<Cmd> {
    (r: ReportRow) => NodeAndEdge(ReportId(r), ShowReport(r), cnode, ReportId(r), Recorded, Report)
  }

  function CiteCmds(): CiteRow -> seq<Cmd> {
    (t: CiteRow) => OnlyEdge(ReportId(t.report), ExamId(t.exam), Recorded, Cites)
  }

  function ArtifactCmds(): ArtifactRow -> seq<Cmd> {
    (a: ArtifactRow) =>
      NodeAndEdge(ArtifactId(a), ShowArtifact(a), ExamId(a.exam), ArtifactId(a), Recorded, FoundArtifact)
      + if a.evidence.Some? then OnlyEdge(ArtifactId(a), EvidenceId(a.evidence.value), Recorded, FoundIn) else []
  }

  predicate IsMinimum(s: set<Digest>, m: Digest) {
    m in s && forall x | x in s :: m <= x
  }

  /** sorted(...) of a set */
  function Sorted(s: set<Digest>): seq<Digest> {
    if s == {} then []
    else
      Minimum(s);
      var m :| IsMinimum(s, m);
      [m] + Sorted(s - {m})
  }

  lemma {:induction false} Minimum(s: set<Digest>)
    requires s != {}
    ensures exists m :: IsMinimum(s, m)
  {
    var x :| x in s;
    var rest := s - {x};
    assert s == rest + {x};
    if rest == {} {
      assert IsMinimum(s, x);
    } else {
      Minimum(rest);
      var m :| IsMinimum(rest, m);
      var w := if m <= x then m else x;
      forall y | y in s ensures w <= y {
        if y != x { assert y in rest; }
      }
      assert IsMinimum(s, w);
    }
  }

  lemma {:induction false} SortedIs(s: set<Digest>)
    ensures forall x :: x in Sorted(s) <==> x in s
    ensures forall i, j | 0 <= i < j < |Sorted(s)| :: Sorted(s)[i] < Sorted(s)[j]
    decreases s
  {
    if s != {} {
      var m := Sorted(s)[0];
      SortedIs(s - {m});
      assert Sorted(s) == [m] + Sorted(s - {m});
      forall i, j | 0 <= i < j < |Sorted(s)| ensures Sorted(s)[i] < Sorted(s)[j] {
        assert Sorted(s)[j] == Sorted(s - {m})[j - 1] && Sorted(s)[j] in s - {m};
      }
    }
  }

  function HashesOf(es: seq<EvidenceRow>, found: seq<ArtifactRow>): set<Digest> {
    (set e | e in es && e.hash.Some? :: e.hash.value) + (set a | a in found && a.sha.Some? :: a.sha.value)
  }

  function IdsOf(es: seq<EvidenceRow>): set<nat> {
    set e | e in es :: e.id
  }

  function People(db: Db, c: CaseRow): seq<Cmd> {
    Flat(Filter(db.assignments, AssignmentIn(c.id)), PersonCmds(CaseId(c)))
  }
  function CaseItems(db: Db, c: CaseRow): seq<Cmd> {
    Flat(Filter(db.evidence, EvidenceIn(c.id)), EvidenceCmds(CaseId(c)))
  }
  function CaseExams(db: Db, c: CaseRow): seq<Cmd> {
    Flat(Filter(db.exams, ExamIn(c.id)), ExamCmds(CaseId(c)))
  }
  function CaseLinks(db: Db, c: CaseRow): seq<Cmd> {
    Flat(Filter(db.links, LinkIn(c.id)), LinkCmds())
  }
  function CaseReports(db: Db, c: CaseRow): seq<Cmd> {
    Flat(Filter(db.reports, ReportIn(c.id)), ReportCmds(CaseId(c)))
  }
  function CaseCites(db: Db, c: CaseRow): seq<Cmd> {
    Flat(Filter(db.cites, CiteIn(c.id)), CiteCmds())
  }
  function CaseArtifacts(db: Db, c: CaseRow): seq<Cmd> {
    Flat(Filter(db.artifacts, ArtifactIn(c.id)), ArtifactCmds())
  }

  /** What is recorded about the case itself. */
  function RecordCmds(db: Db, c: CaseRow): seq<Cmd> {
    [AddNode(CaseId(c), ShowCase(c))] + People(db, c) + CaseItems(db, c) + CaseExams(db, c) + CaseLinks(db, c)
    + CaseReports(db, c) + CaseCites(db, c) + CaseArtifacts(db, c)
  }

  function CaseCmds(db: Db, scope: Scope, c: CaseRow, shared: bool): seq<Cmd> {
    var es, found := Filter(db.evidence, EvidenceIn(c.id)), Filter(db.artifacts, ArtifactIn(c.id));
    RecordCmds(db, c)
    + YaraCmds(db, IdsOf(es))
    + HashCmds(db, scope, Sorted(HashesOf(es, found)), shared, Some(c.id))
  }

  function CaseNamed(db: Db, scope: Scope, reference: string): CaseRow -> bool {
    (c: CaseRow) => c.reference == reference && Sees(db, scope, c.id)
  }

  function CaseByReference(db: Db, scope: Scope, reference: string): Option<CaseRow> {
    First(Filter(db.cases, CaseNamed(db, scope, reference)))
  }

  function CasePlan(db: Db, scope: Scope, reference: string, shared: bool): Option<seq<Cmd>> {
    match CaseByReference(db, scope, reference)
    case None => None
    case Some(c) => Some(CaseCmds(db, scope, c, shared))
  }

  // ---------------------------------------------------------------------------
  // expand
  // ---------------------------------------------------------------------------

  function CaseSeen(db: Db, scope: Scope, key: nat): CaseRow -> bool {
    (c: CaseRow) => c.id == key && Sees(db, scope, c.id)
  }

  function EvidenceSeen(db: Db, scope: Scope, key: nat): EvidenceRow -> bool {
    (e: EvidenceRow) => e.id == key && Sees(db, scope, e.inCase.id)
  }

  function ExamSeen(db: Db, scope: Scope, key: nat): ExamRow -> bool {
    (x: ExamRow) => x.id == key && Sees(db, scope, x.inCase.id)
  }

  function ReportSeen(db: Db, scope: Scope, key: nat): ReportRow -> bool {
    (r: ReportRow) => r.id == key && Sees(db, scope, r.inCase.id)
  }

  function ArtifactSeen(db: Db, scope: Scope, key: nat): ArtifactRow -> bool {
    (a: ArtifactRow) => a.id == key && Sees(db, scope, a.exam.inCase.id)
  }

  function VisibleCase(db: Db, scope: Scope, key: nat): Option<CaseRow> {
    First(Filter(db.cases, CaseSeen(db, scope, key)))
  }

  function VisibleEvidence(db: Db, scope: Scope, key: nat): Option<EvidenceRow> {
    First(Filter(db.evidence, EvidenceSeen(db, scope, key)))
  }

  function VisibleExam(db: Db, scope: Scope, key: nat): Option<ExamRow> {
    First(Filter(db.exams, ExamSeen(db, scope, key)))
  }

  function VisibleReport(db: Db, scope: Scope, key: nat): Option<ReportRow> {
    First(Filter(db.reports, ReportSeen(db, scope, key)))
  }

  function VisibleArtifact(db: Db, scope: Scope, key: nat): Option<ArtifactRow> {
    First(Filter(db.artifacts, ArtifactSeen(db, scope, key)))
  }

  function RuleByKey(db: Db, key: nat): Option<RuleRow> {
    First(Filter(db.rules, (r: RuleRow) => r.id == key))
  }

  function UserByKey(db: Db, key: nat): Option<UserRow> {
    First(Filter(db.users, (u: UserRow) => u.id == key))
  }

  function LinkOfEvidence(id: nat): LinkRow -> bool { (l: LinkRow) => l.evidence.id == id }
  function LinkOfExam(id: nat): LinkRow -> bool { (l: LinkRow) => l.exam.id == id }
  function CiteOfExam(id: nat): CiteRow -> bool { (t: CiteRow) => t.exam.id == id }
  function CiteOfReport(id: nat): CiteRow -> bool { (t: CiteRow) => t.report.id == id }
  function ArtifactOfEvidence(id: nat): ArtifactRow -> bool {
    (a: ArtifactRow) => a.evidence.Some? && a.evidence.value.id == id
  }
  function ArtifactOfExam(id: nat): ArtifactRow -> bool { (a: ArtifactRow) => a.exam.id == id }
  function MatchOfRule(db: Db, scope: Scope, id: nat): MatchRow -> bool {
    (m: MatchRow) => m.rule.id == id && Sees(db, scope, m.evidence.inCase.id)
  }
  function CaseOfUser(db: Db, scope: Scope, id: nat): Assignment -> bool {
    (a: Assignment) => a.user.id == id && Sees(db, scope, a.inCase.id)
  }

  /** `node` is the id as the request wrote it. */
  function LinkedExamCmds(node: NodeId): LinkRow -> seq<Cmd> {
    (l: LinkRow) => NodeAndEdge(ExamId(l.exam), ShowExam(l.exam), ExamId(l.exam), node, Recorded, Examined)
  }

  function LinkedItemCmds(node: NodeId): LinkRow -> seq<Cmd> {
    (l: LinkRow) =>
      NodeAndEdge(EvidenceId(l.evidence), ShowEvidence(l.evidence, None), node, EvidenceId(l.evidence), Recorded, Examined)
  }

  function FoundInCmds(node: NodeId): ArtifactRow -> seq<Cmd> {
    (a: ArtifactRow) => NodeAndEdge(ArtifactId(a), ShowArtifact(a), ArtifactId(a), node, Recorded, FoundIn)
  }

  function FoundByCmds(node: NodeId): ArtifactRow -> seq<Cmd> {
    (a: ArtifactRow) => NodeAndEdge(ArtifactId(a), ShowArtifact(a), node, ArtifactId(a), Recorded, FoundArtifact)
  }

  function CitingCmds(node: NodeId): CiteRow -> seq<Cmd> {
    (t: CiteRow) => NodeAndEdge(ReportId(t.report), ShowReport(t.report), ReportId(t.report), node, Recorded, Cites)
  }

  function CitedCmds(node: NodeId): CiteRow -> seq<Cmd> {
    (t: CiteRow) => NodeAndEdge(ExamId(t.exam), ShowExam(t.exam), node, ExamId(t.exam), Recorded, Cites)
  }

  function MatchedItemCmds(node: NodeId): MatchRow -> seq<Cmd> {
    (m: MatchRow) => NodeAndEdge(EvidenceId(m.evidence), ShowEvidence(m.evidence, Some(m.evidence.inCase.reference)),
                                 EvidenceId(m.evidence), node, Outcome, Matched(m.identifier, m.scan))
  }

  function AssignedCaseCmds(node: NodeId): Assignment -> seq<Cmd> {
    (a: Assignment) => NodeAndEdge(CaseId(a.inCase), ShowCase(a.inCase), node, CaseId(a.inCase), Recorded, LeadText(a.isLead))
  }

  function HashOf(db: Db, scope: Scope, value: Option<Digest>): seq<Cmd> {
    if value.Some? then HashCmds(db, scope, [value.value], false, None) else []
  }

  function EvidencePlan(db: Db, scope: Scope, node: NodeId, e: EvidenceRow): seq<Cmd> {
    [AddNode(EvidenceId(e), ShowEvidence(e, None))]
    + NodeAndEdge(CaseId(e.inCase), ShowCase(e.inCase), CaseId(e.inCase), node, Recorded, Contains)
    + Flat(Filter(db.links, LinkOfEvidence(e.id)), LinkedExamCmds(node))
    + Flat(Filter(db.artifacts, ArtifactOfEvidence(e.id)), FoundInCmds(node))
    + YaraCmds(db, {e.id})
    + HashOf(db, scope, e.hash)
  }

  function RulePlan(db: Db, scope: Scope, node: NodeId, r: RuleRow): seq<Cmd> {
    [AddNode(RuleId(r), RuleShown(r.name))]
    + Flat(Filter(db.matches, MatchOfRule(db, scope, r.id)), MatchedItemCmds(node))
  }

  function UserPlan(db: Db, scope: Scope, node: NodeId, u: UserRow): Option<seq<Cmd>> {
    var cases := Filter(db.assignments, CaseOfUser(db, scope, u.id));
    if cases == [] && !scope.labWide then None
    else Some([AddNode(node, UserShown(u.fullName, false))] + Flat(cases, AssignedCaseCmds(node)))
  }

  function ExamPlan(db: Db, node: NodeId, x: ExamRow): seq<Cmd> {
    [AddNode(ExamId(x), ShowExam(x))]
    + NodeAndEdge(CaseId(x.inCase), ShowCase(x.inCase), CaseId(x.inCase), node, Recorded, Examination)
    + Flat(Filter(db.links, LinkOfExam(x.id)), LinkedItemCmds(node))
    + Flat(Filter(db.cites, CiteOfExam(x.id)), CitingCmds(node))
    + Flat(Filter(db.artifacts, ArtifactOfExam(x.id)), FoundByCmds(node))
  }

  function ReportPlan(db: Db, node: NodeId, r: ReportRow): seq<Cmd> {
    [AddNode(ReportId(r), ShowReport(r))]
    + NodeAndEdge(CaseId(r.inCase), ShowCase(r.inCase), CaseId(r.inCase), node, Recorded, Report)
    + Flat(Filter(db.cites, CiteOfReport(r.id)), CitedCmds(node))
  }

  function ArtifactPlan(db: Db, scope: Scope, node: NodeId, a: ArtifactRow): seq<Cmd> {
    [AddNode(ArtifactId(a), ShowArtifact(a))]
    + NodeAndEdge(ExamId(a.exam), ShowExam(a.exam), ExamId(a.exam), node, Recorded, FoundArtifact)
    + (if a.evidence.Some? then
         NodeAndEdge(EvidenceId(a.evidence.value), ShowEvidence(a.evidence.value, None),
                     node, EvidenceId(a.evidence.value), Recorded, FoundIn)
       else [])
    + HashOf(db, scope, a.sha)
  }

  /** None: the node does not exist or is not visible. A hash is expanded whether anything holds it or not. */
  function ExpandPlan(db: Db, scope: Scope, node: NodeId, shared: bool): Option<seq<Cmd>> {
    match node
    case HashId(value) => Some(HashCmds(db, scope, [value], false, None))
    case Id(kind, _, key) =>
      match kind
      case CaseNode =>
        (match VisibleCase(db, scope, key)
         case None => None
         case Some(c) => CasePlan(db, scope, c.reference, shared))
      case EvidenceNode =>
        (match VisibleEvidence(db, scope, key)
         case None => None
         case Some(e) => Some(EvidencePlan(db, scope, node, e)))
      case RuleNode =>
        (match RuleByKey(db, key)
         case None => None
         case Some(r) => Some(RulePlan(db, scope, node, r)))
      case UserNode =>
        (match UserByKey(db, key)
         case None => None
         case Some(u) => UserPlan(db, scope, node, u))
      case ExamNode =>
        (match VisibleExam(db, scope, key)
         case None => None
         case Some(x) => Some(ExamPlan(db, node, x)))
      case ReportNode =>
        (match VisibleReport(db, scope, key)
         case None => None
         case Some(r) => Some(ReportPlan(db, node, r)))
      case ArtifactNode =>
        (match VisibleArtifact(db, scope, key)
         case None => None
         case Some(a) => Some(ArtifactPlan(db, scope, node, a)))
  }

  // ---------------------------------------------------------------------------
  // Non-interference
  // ---------------------------------------------------------------------------

  lemma {:induction false} FlatSame<R>(rows: seq<R>, f: R -> seq<Cmd>, h: R -> seq<Cmd>)
    requires forall r | r in rows :: f(r) == h(r)
    ensures Flat(rows, f) == Flat(rows, h)
  {
    if rows != [] {
      FlatSame(rows[..|rows| - 1], f, h);
    }
  }

  /** Only visible cases count, in every query with the scope's filter. */
  lemma SeesSameEverywhere(db: Db, scope: Scope)
    ensures forall id :: Sees(Restrict(db, scope), scope, id) <==> Sees(db, scope, id)
  {
    forall id ensures Sees(Restrict(db, scope), scope, id) <==> Sees(db, scope, id) {
      SeesSame(db, scope, id);
    }
  }

  lemma HoldersSame(db: Db, scope: Scope, value: Digest)
    ensures Holders(Restrict(db, scope), scope, value) == Holders(db, scope, value)
  {
    SeesSameEverywhere(db, scope);
    var r := Restrict(db, scope);
    Narrow(db.evidence, SeesEvidence(db, scope), HoldsEvidence(db, scope, value), HoldsEvidence(r, scope, value));
    Narrow(db.artifacts, SeesArtifact(db, scope), HoldsArtifact(db, scope, value), HoldsArtifact(r, scope, value));
  }

  lemma HashCmdsSame(db: Db, scope: Scope, values: seq<Digest>, shared: bool, exclude: Option<nat>)
    ensures HashCmds(Restrict(db, scope), scope, values, shared, exclude) == HashCmds(db, scope, values, shared, exclude)
  {
    forall v | v in values ensures Holders(Restrict(db, scope), scope, v) == Holders(db, scope, v) {
      HoldersSame(db, scope, v);
    }
    FlatSame(values, HashCmdsFor(Restrict(db, scope), scope, shared, exclude), HashCmdsFor(db, scope, shared, exclude));
  }

  /** The matches of visible items are themselves visible. */
  lemma YaraSame(db: Db, scope: Scope, ids: set<nat>)
    requires Valid(db)
    requires forall e | e in db.evidence && e.id in ids :: Sees(db, scope, e.inCase.id)
    ensures YaraCmds(Restrict(db, scope), ids) == YaraCmds(db, ids)
  {
    Narrow(db.matches, SeesMatch(db, scope), MatchOf(ids), MatchOf(ids));
  }

  lemma RecordsSame(db: Db, scope: Scope, c: CaseRow)
    requires Sees(db, scope, c.id)
    ensures RecordCmds(Restrict(db, scope), c) == RecordCmds(db, c)
    ensures Filter(Restrict(db, scope).evidence, EvidenceIn(c.id)) == Filter(db.evidence, EvidenceIn(c.id))
    ensures Filter(Restrict(db, scope).artifacts, ArtifactIn(c.id)) == Filter(db.artifacts, ArtifactIn(c.id))
  {
    Narrow(db.assignments, SeesAssignment(db, scope), AssignmentIn(c.id), AssignmentIn(c.id));
    Narrow(db.evidence, SeesEvidence(db, scope), EvidenceIn(c.id), EvidenceIn(c.id));
    Narrow(db.exams, SeesExam(db, scope), ExamIn(c.id), ExamIn(c.id));
    Narrow(db.links, SeesLink(db, scope), LinkIn(c.id), LinkIn(c.id));
    Narrow(db.reports, SeesReport(db, scope), ReportIn(c.id), ReportIn(c.id));
    Narrow(db.cites, SeesCite(db, scope), CiteIn(c.id), CiteIn(c.id));
    Narrow(db.artifacts, SeesArtifact(db, scope), ArtifactIn(c.id), ArtifactIn(c.id));
  }

  lemma CaseCmdsSame(db: Db, scope: Scope, c: CaseRow, shared: bool)
    requires Valid(db) && Sees(db, scope, c.id)
    ensures CaseCmds(Restrict(db, scope), scope, c, shared) == CaseCmds(db, scope, c, shared)
  {
    var es := Filter(db.evidence, EvidenceIn(c.id));
    var found := Filter(db.artifacts, ArtifactIn(c.id));
    RecordsSame(db, scope, c);
    FilterIn(db.evidence, EvidenceIn(c.id));
    assert forall e | e in db.evidence && e.id in IdsOf(es) :: Sees(db, scope, e.inCase.id) by {
      forall e | e in db.evidence && e.id in IdsOf(es) ensures Sees(db, scope, e.inCase.id) {
        var o :| o in es && o.id == e.id;
        SameEvidence(db, o, e);
      }
    }
    YaraSame(db, scope, IdsOf(es));
    HashCmdsSame(db, scope, Sorted(HashesOf(es, found)), shared, Some(c.id));
  }

  lemma SameEvidence(db: Db, a: EvidenceRow, b: EvidenceRow)
    requires Valid(db) && a in db.evidence && b in db.evidence && a.id == b.id
    ensures a == b
  {
    var id := (e: EvidenceRow) => e.id;
    assert id(a) == id(b);
  }

  lemma SameExam(db: Db, a: ExamRow, b: ExamRow)
    requires Valid(db) && a in db.exams && b in db.exams && a.id == b.id
    ensures a == b
  {
    var id := (x: ExamRow) => x.id;
    assert id(a) == id(b);
  }

  lemma SameReport(db: Db, a: ReportRow, b: ReportRow)
    requires Valid(db) && a in db.reports && b in db.reports && a.id == b.id
    ensures a == b
  {
    var id := (r: ReportRow) => r.id;
    assert id(a) == id(b);
  }

  lemma CasePlanSame(db: Db, scope: Scope, reference: string, shared: bool)
    requires Valid(db)
    ensures CasePlan(Restrict(db, scope), scope, reference, shared) == CasePlan(db, scope, reference, shared)
  {
    SeesSameEverywhere(db, scope);
    var r := Restrict(db, scope);
    var named := CaseNamed(db, scope, reference);
    Narrow(db.cases, SeesCase(db, scope), named, CaseNamed(r, scope, reference));
    FilterIn(db.cases, named);
    var found := CaseByReference(db, scope, reference);
    if found.Some? {
      assert found.value in Filter(db.cases, named);
      CaseCmdsSame(db, scope, found.value, shared);
    }
  }

  lemma FirstIn<R>(rows: seq<R>, p: R -> bool)
    ensures var f := First(Filter(rows, p)); f.Some? ==> f.value in rows && p(f.value)
  {
    FilterIn(rows, p);
    var f := First(Filter(rows, p));
    assert f.Some? ==> f.value in Filter(rows, p);
  }

  lemma EvidencePlanSame(db: Db, scope: Scope, node: NodeId, e: EvidenceRow)
    requires Valid(db) && e in db.evidence && Sees(db, scope, e.inCase.id)
    ensures EvidencePlan(Restrict(db, scope), scope, node, e) == EvidencePlan(db, scope, node, e)
  {
    forall o | o in db.evidence && o.id == e.id ensures o == e {
      SameEvidence(db, o, e);
    }
    Narrow(db.links, SeesLink(db, scope), LinkOfEvidence(e.id), LinkOfEvidence(e.id));
    Narrow(db.artifacts, SeesArtifact(db, scope), ArtifactOfEvidence(e.id), ArtifactOfEvidence(e.id));
    YaraSame(db, scope, {e.id});
    if e.hash.Some? { HashCmdsSame(db, scope, [e.hash.value], false, None); }
  }

  lemma ExamPlanSame(db: Db, scope: Scope, node: NodeId, x: ExamRow)
    requires Valid(db) && x in db.exams && Sees(db, scope, x.inCase.id)
    ensures ExamPlan(Restrict(db, scope), node, x) == ExamPlan(db, node, x)
  {
    forall o | o in db.exams && o.id == x.id ensures o == x {
      SameExam(db, o, x);
    }
    Narrow(db.links, SeesLink(db, scope), LinkOfExam(x.id), LinkOfExam(x.id));
    Narrow(db.cites, SeesCite(db, scope), CiteOfExam(x.id), CiteOfExam(x.id));
    Narrow(db.artifacts, SeesArtifact(db, scope), ArtifactOfExam(x.id), ArtifactOfExam(x.id));
  }

  lemma ReportPlanSame(db: Db, scope: Scope, node: NodeId, r: ReportRow)
    requires Valid(db) && r in db.reports && Sees(db, scope, r.inCase.id)
    ensures ReportPlan(Restrict(db, scope), node, r) == ReportPlan(db, node, r)
  {
    forall o | o in db.reports && o.id == r.id ensures o == r {
      SameReport(db, o, r);
    }
    Narrow(db.cites, SeesCite(db, scope), CiteOfReport(r.id), CiteOfReport(r.id));
  }

  lemma ArtifactPlanSame(db: Db, scope: Scope, node: NodeId, a: ArtifactRow)
    ensures ArtifactPlan(Restrict(db, scope), scope, node, a) == ArtifactPlan(db, scope, node, a)
  {
    if a.sha.Some? { HashCmdsSame(db, scope, [a.sha.value], false, None); }
  }

  lemma RulePlanSame(db: Db, scope: Scope, node: NodeId, r: RuleRow)
    ensures RulePlan(Restrict(db, scope), scope, node, r) == RulePlan(db, scope, node, r)
  {
    SeesSameEverywhere(db, scope);
    Narrow(db.matches, SeesMatch(db, scope), MatchOfRule(db, scope, r.id), MatchOfRule(Restrict(db, scope), scope, r.id));
  }

  lemma UserPlanSame(db: Db, scope: Scope, node: NodeId, u: UserRow)
    ensures UserPlan(Restrict(db, scope), scope, node, u) == UserPlan(db, scope, node, u)
  {
    SeesSameEverywhere(db, scope);
    Narrow(db.assignments, SeesAssignment(db, scope), CaseOfUser(db, scope, u.id),
           CaseOfUser(Restrict(db, scope), scope, u.id));
  }

  /** The node itself is found, or not found, alike. */
  lemma LookupsSame(db: Db, scope: Scope, key: nat)
    ensures var r := Restrict(db, scope);
            && VisibleCase(r, scope, key) == VisibleCase(db, scope, key)
            && VisibleEvidence(r, scope, key) == VisibleEvidence(db, scope, key)
            && VisibleExam(r, scope, key) == VisibleExam(db, scope, key)
            && VisibleReport(r, scope, key) == VisibleReport(db, scope, key)
            && VisibleArtifact(r, scope, key) == VisibleArtifact(db, scope, key)
  {
    SeesSameEverywhere(db, scope);
    var r := Restrict(db, scope);
    Narrow(db.cases, SeesCase(db, scope), CaseSeen(db, scope, key), CaseSeen(r, scope, key));
    Narrow(db.evidence, SeesEvidence(db, scope), EvidenceSeen(db, scope, key), EvidenceSeen(r, scope, key));
    Narrow(db.exams, SeesExam(db, scope), ExamSeen(db, scope, key), ExamSeen(r, scope, key));
    Narrow(db.reports, SeesReport(db, scope), ReportSeen(db, scope, key), ReportSeen(r, scope, key));
    Narrow(db.artifacts, SeesArtifact(db, scope), ArtifactSeen(db, scope, key), ArtifactSeen(r, scope, key));
  }

  lemma ExpandEvidenceSame(db: Db, scope: Scope, node: NodeId, shared: bool)
    requires Valid(db) && node.Id? && node.kind.EvidenceNode?
    ensures ExpandPlan(Restrict(db, scope), scope, node, shared) == ExpandPlan(db, scope, node, shared)
  {
    var e := VisibleEvidence(db, scope, node.key);
    assert VisibleEvidence(Restrict(db, scope), scope, node.key) == e by { LookupsSame(db, scope, node.key); }
    if e.Some? {
      FirstIn(db.evidence, EvidenceSeen(db, scope, node.key));
      EvidencePlanSame(db, scope, node, e.value);
    }
  }

  lemma ExpandExamSame(db: Db, scope: Scope, node: NodeId, shared: bool)
    requires Valid(db) && node.Id? && node.kind.ExamNode?
    ensures ExpandPlan(Restrict(db, scope), scope, node, shared) == ExpandPlan(db, scope, node, shared)
  {
    var x := VisibleExam(db, scope, node.key);
    assert VisibleExam(Restrict(db, scope), scope, node.key) == x by { LookupsSame(db, scope, node.key); }
    if x.Some? {
      FirstIn(db.exams, ExamSeen(db, scope, node.key));
      ExamPlanSame(db, scope, node, x.value);
    }
  }

  lemma ExpandReportSame(db: Db, scope: Scope, node: NodeId, shared: bool)
    requires Valid(db) && node.Id? && node.kind.ReportNode?
    ensures ExpandPlan(Restrict(db, scope), scope, node, shared) == ExpandPlan(db, scope, node, shared)
  {
    var r := VisibleReport(db, scope, node.key);
    assert VisibleReport(Restrict(db, scope), scope, node.key) == r by { LookupsSame(db, scope, node.key); }
    if r.Some? {
      FirstIn(db.reports, ReportSeen(db, scope, node.key));
      ReportPlanSame(db, scope, node, r.value);
    }
  }

  lemma ExpandArtifactSame(db: Db, scope: Scope, node: NodeId, shared: bool)
    requires Valid(db) && node.Id? && node.kind.ArtifactNode?
    ensures ExpandPlan(Restrict(db, scope), scope, node, shared) == ExpandPlan(db, scope, node, shared)
  {
    var a := VisibleArtifact(db, scope, node.key);
    assert VisibleArtifact(Restrict(db, scope), scope, node.key) == a by { LookupsSame(db, scope, node.key); }
    if a.Some? {
      FirstIn(db.artifacts, ArtifactSeen(db, scope, node.key));
      ArtifactPlanSame(db, scope, node, a.value);
    }
  }

  lemma ExpandSame(db: Db, scope: Scope, node: NodeId, shared: bool)
    requires Valid(db)
    ensures ExpandPlan(Restrict(db, scope), scope, node, shared) == ExpandPlan(db, scope, node, shared)
  {
    match node
    case HashId(value) => HashCmdsSame(db, scope, [value], false, None);
    case Id(kind, _, key) => ExpandRecordSame(db, scope, node, shared);
  }

  lemma ExpandCaseSame(db: Db, scope: Scope, node: NodeId, shared: bool)
    requires Valid(db) && node.Id? && node.kind.CaseNode?
    ensures ExpandPlan(Restrict(db, scope), scope, node, shared) == ExpandPlan(db, scope, node, shared)
  {
    LookupsSame(db, scope, node.key);
    var c := VisibleCase(db, scope, node.key);
    if c.Some? { CasePlanSame(db, scope, c.value.reference, shared); }
  }

  lemma ExpandRuleSame(db: Db, scope: Scope, node: NodeId, shared: bool)
    requires Valid(db) && node.Id? && node.kind.RuleNode?
    ensures ExpandPlan(Restrict(db, scope), scope, node, shared) == ExpandPlan(db, scope, node, shared)
  {
    var r := RuleByKey(db, node.key);
    if r.Some? { RulePlanSame(db, scope, node, r.value); }
  }

  lemma ExpandUserSame(db: Db, scope: Scope, node: NodeId, shared: bool)
    requires Valid(db) && node.Id? && node.kind.UserNode?
    ensures ExpandPlan(Restrict(db, scope), scope, node, shared) == ExpandPlan(db, scope, node, shared)
  {
    var u := UserByKey(db, node.key);
    if u.Some? { UserPlanSame(db, scope, node, u.value); }
  }

  lemma ExpandRecordSame(db: Db, scope: Scope, node: NodeId, shared: bool)
    requires Valid(db) && node.Id?
    ensures ExpandPlan(Restrict(db, scope), scope, node, shared) == ExpandPlan(db, scope, node, shared)
  {
    match node.kind
    case CaseNode => ExpandCaseSame(db, scope, node, shared);
    case RuleNode => ExpandRuleSame(db, scope, node, shared);
    case UserNode => ExpandUserSame(db, scope, node, shared);
    case EvidenceNode => ExpandEvidenceSame(db, scope, node, shared);
    case ExamNode => ExpandExamSame(db, scope, node, shared);
    case ReportNode => ExpandReportSame(db, scope, node, shared);
    case ArtifactNode => ExpandArtifactSame(db, scope, node, shared);
  }

  /** The same graph, or no such node in both. */
  ghost predicate SameGraph(p: Option<seq<Cmd>>, q: Option<seq<Cmd>>) {
    (p.Some? <==> q.Some?) && (p.Some? && q.Some? ==> Apply(EMPTY, p.value) == Apply(EMPTY, q.value))
  }

  lemma SameViewSameCase(db: Db, other: Db, scope: Scope, reference: string, shared: bool)
    requires Valid(db) && Valid(other) && Restrict(db, scope) == Restrict(other, scope)
    ensures CasePlan(db, scope, reference, shared) == CasePlan(other, scope, reference, shared)
  {
    CasePlanSame(db, scope, reference, shared);
    CasePlanSame(other, scope, reference, shared);
  }

  lemma SameViewSameNode(db: Db, other: Db, scope: Scope, node: NodeId, shared: bool)
    requires Valid(db) && Valid(other) && Restrict(db, scope) == Restrict(other, scope)
    ensures ExpandPlan(db, scope, node, shared) == ExpandPlan(other, scope, node, shared)
  {
    ExpandSame(db, scope, node, shared);
    ExpandSame(other, scope, node, shared);
  }

  /**
   Non-interference: two databases with the same public tables and the same records in the cases a
   user can see give that user the same graphs, node by node, edge by edge, text by text and
   truncation mark by truncation mark, for every case and for every node one can ask to expand.
   */
  lemma InvisibleRecordsNeverShow(db: Db, other: Db, scope: Scope)
    requires Valid(db) && Valid(other)
    requires Restrict(db, scope) == Restrict(other, scope)
    ensures forall reference, shared ::
              SameGraph(CasePlan(db, scope, reference, shared), CasePlan(other, scope, reference, shared))
    ensures forall node, shared ::
              SameGraph(ExpandPlan(db, scope, node, shared), ExpandPlan(other, scope, node, shared))
  {
    forall reference, shared
      ensures SameGraph(CasePlan(db, scope, reference, shared), CasePlan(other, scope, reference, shared))
    {
      SameViewSameCase(db, other, scope, reference, shared);
    }
    forall node, shared
      ensures SameGraph(ExpandPlan(db, scope, node, shared), ExpandPlan(other, scope, node, shared))
    {
      SameViewSameNode(db, other, scope, node, shared);
    }
  }
}
