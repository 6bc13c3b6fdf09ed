/**
 What the nodes and edges of a graph say (the node builders and edge texts of app/graph/services.py):
 every node shows the record whose id it carries, and every edge is labelled for the link it stands for.
 */
module GraphText {
  import opened Wrappers
  import opened Content
  import opened Graph
  import opened Relationships
  import CaseGraph
  import Expansion

  ghost predicate NodeText(db: Db, id: NodeId, shown: Shown) {
    match id
    case HashId(value) => shown == HashShown(value)
    case Id(kind, _, key) =>
      match kind
      case CaseNode => exists c | c in db.cases :: c.id == key && shown == CaseShown(c.reference, c.title, c.status)
      case EvidenceNode => exists e | e in db.evidence :: e.id == key && ItemText(e, shown)
      case ExamNode => exists x | x in db.exams :: x.id == key && shown == ExamShown(x.code, x.typeName, x.status)
      case ReportNode => exists r | r in db.reports :: r.id == key && shown == ReportShown(r.code, r.title, r.status)
      case UserNode => exists u | u in db.users :: u.id == key && shown.UserShown? && shown.fullName == u.fullName
      case ArtifactNode =>
        exists a | a in db.artifacts ::
          a.id == key && shown == ArtifactShown(a.id, a.artifactType, a.description, a.exam.code)
      case RuleNode => exists r | r in db.rules :: r.id == key && shown == RuleShown(r.name)
  }

  /** With the reference of its case, or without. */
  predicate ItemText(e: EvidenceRow, shown: Shown) {
    || shown == EvidenceShown(e.code, e.description, None, e.integrity)
    || shown == EvidenceShown(e.code, e.description, Some(e.inCase.reference), e.integrity)
  }

  predicate Between(k: EdgeKey, source: NodeKind, target: NodeKind, kind: EdgeKind) {
    k.source.Id? && k.target.Id? && k.source.kind == source && k.target.kind == target && k.kind == kind
  }

  ghost predicate EdgeText(db: Db, k: EdgeKey, text: EdgeLabel) {
    match text
    case LeadInvestigator => Assigns(db, k, true)
    case AssignedTo => Assigns(db, k, false)
    case Contains => Between(k, CaseNode, EvidenceNode, Recorded)
    case Examination => Between(k, CaseNode, ExamNode, Recorded)
    case Report => Between(k, CaseNode, ReportNode, Recorded)
    case Examined => Between(k, ExamNode, EvidenceNode, Recorded)
    case Cites => Between(k, ReportNode, ExamNode, Recorded)
    case FoundArtifact => Between(k, ExamNode, ArtifactNode, Recorded)
    case FoundIn => Between(k, ArtifactNode, EvidenceNode, Recorded)
    case HasSha => k.target.HashId? && k.kind == Identity
    case Matched(identifier, scan) =>
      && Between(k, EvidenceNode, RuleNode, Outcome)
      && exists m | m in db.matches ::
           k.source.key == m.evidence.id && k.target.key == m.rule.id && identifier == m.identifier && scan == m.scan
  }

  ghost predicate Assigns(db: Db, k: EdgeKey, isLead: bool) {
    && Between(k, UserNode, CaseNode, Recorded)
    && exists a | a in db.assignments :: k.source.key == a.user.id && k.target.key == a.inCase.id && a.isLead == isLead
  }

  ghost predicate Told(db: Db, c: Cmd) {
    match c
    case AddNode(id, shown) => NodeText(db, id, shown)
    case AddEdge(key, text) => EdgeText(db, key, text)
  }

  ghost predicate AllTold(db: Db, cs: seq<Cmd>) {
    forall i | 0 <= i < |cs| :: Told(db, cs[i])
  }

  /** Every node and every edge of a graph says what the rows say. */
  ghost predicate Tells(db: Db, g: GraphValue) {
    && (forall id | id in g.nodes :: NodeText(db, id, g.nodes[id]))
    && (forall k | k in g.edges :: EdgeText(db, k, g.edges[k]))
  }

  lemma {:induction false} ApplyTells(db: Db, cs: seq<Cmd>)
    requires AllTold(db, cs)
    ensures Tells(db, Apply(EMPTY, cs))
  {
    if cs != [] {
      ApplyTells(db, cs[..|cs| - 1]);
      assert Told(db, cs[|cs| - 1]);
    }
  }

  lemma ToldConcat(db: Db, cs: seq<Cmd>, ds: seq<Cmd>)
    requires AllTold(db, cs) && AllTold(db, ds)
    ensures AllTold(db, cs + ds)
  {
  }

  lemma {:induction false} FlatTold<R>(db: Db, rows: seq<R>, f: R -> seq<Cmd>)
    requires forall i | 0 <= i < |rows| :: AllTold(db, f(rows[i]))
    ensures AllTold(db, Flat(rows, f))
  {
    if rows != [] {
      FlatTold(db, rows[..|rows| - 1], f);
    }
  }

  /** The rows of a query. */
  lemma RowsTold<R>(db: Db, rows: seq<R>, p: R -> bool, f: R -> seq<Cmd>)
    requires forall r | r in rows && p(r) :: AllTold(db, f(r))
    ensures AllTold(db, Flat(Filter(rows, p), f))
  {
    var kept := Filter(rows, p);
    forall i | 0 <= i < |kept| ensures AllTold(db, f(kept[i])) {
      CaseGraph.KeptIs(rows, p, i);
    }
    FlatTold(db, kept, f);
  }

  // ---------------------------------------------------------------------------
  // Every query
  // ---------------------------------------------------------------------------

  lemma HolderTold(db: Db, scope: Scope, value: Digest, exclude: Option<nat>, h: Holder)
    requires Valid(db) && h in Holders(db, scope, value)
    ensures AllTold(db, HolderCmds(value, exclude)(h))
  {
    CaseGraph.HoldersAre(db, scope, value, h);
  }

  lemma ValueTold(db: Db, scope: Scope, value: Digest, shared: bool, exclude: Option<nat>)
    requires Valid(db)
    ensures AllTold(db, ValueCmds(Holders(db, scope, value), value, shared, exclude))
  {
    var holders := Holders(db, scope, value);
    forall i | 0 <= i < |holders| ensures AllTold(db, HolderCmds(value, exclude)(holders[i])) {
      HolderTold(db, scope, value, exclude, holders[i]);
    }
    FlatTold(db, holders, HolderCmds(value, exclude));
    ToldConcat(db, [AddNode(HashId(value), HashShown(value))], Flat(holders, HolderCmds(value, exclude)));
  }

  lemma HashesTold(db: Db, scope: Scope, values: seq<Digest>, shared: bool, exclude: Option<nat>)
    requires Valid(db)
    ensures AllTold(db, HashCmds(db, scope, values, shared, exclude))
  {
    var f := HashCmdsFor(db, scope, shared, exclude);
    forall v: Digest ensures AllTold(db, f(v)) {
      ValueTold(db, scope, v, shared, exclude);
    }
    FlatTold(db, values, f);
  }

  lemma HashOfTold(db: Db, scope: Scope, value: Option<Digest>)
    requires Valid(db)
    ensures AllTold(db, HashOf(db, scope, value))
  {
    if value.Some? { HashesTold(db, scope, [value.value], false, None); }
  }

  lemma YaraTold(db: Db, ids: set<nat>)
    requires Valid(db)
    ensures AllTold(db, YaraCmds(db, ids))
  {
    RowsTold(db, db.matches, MatchOf(ids), MatchCmds());
  }

  lemma PeopleTold(db: Db, c: CaseRow)
    requires Valid(db)
    ensures AllTold(db, People(db, c))
  {
    RowsTold(db, db.assignments, AssignmentIn(c.id), PersonCmds(CaseId(c)));
  }

  lemma ItemsTold(db: Db, c: CaseRow)
    requires Valid(db)
    ensures AllTold(db, CaseItems(db, c))
  {
    RowsTold(db, db.evidence, EvidenceIn(c.id), EvidenceCmds(CaseId(c)));
  }

  lemma ExamsTold(db: Db, c: CaseRow)
    requires Valid(db)
    ensures AllTold(db, CaseExams(db, c))
  {
    RowsTold(db, db.exams, ExamIn(c.id), ExamCmds(CaseId(c)));
  }

  lemma LinksTold(db: Db, c: CaseRow)
    requires Valid(db)
    ensures AllTold(db, CaseLinks(db, c))
  {
    RowsTold(db, db.links, LinkIn(c.id), LinkCmds());
  }

  lemma ReportsTold(db: Db, c: CaseRow)
    requires Valid(db)
    ensures AllTold(db, CaseReports(db, c))
  {
    RowsTold(db, db.reports, ReportIn(c.id), ReportCmds(CaseId(c)));
  }

  lemma CitesTold(db: Db, c: CaseRow)
    requires Valid(db)
    ensures AllTold(db, CaseCites(db, c))
  {
    RowsTold(db, db.cites, CiteIn(c.id), CiteCmds());
  }

  lemma ArtifactsTold(db: Db, c: CaseRow)
    requires Valid(db)
    ensures AllTold(db, CaseArtifacts(db, c))
  {
    RowsTold(db, db.artifacts, ArtifactIn(c.id), ArtifactCmds());
  }

  lemma PartTold(db: Db, c: CaseRow, n: nat)
    requires Valid(db) && 1 <= n <= 7
    ensures AllTold(db, CaseGraph.Part(db, c, n))
  {
    match n
    case 1 => PeopleTold(db, c);
    case 2 => ItemsTold(db, c);
    case 3 => ExamsTold(db, c);
    case 4 => LinksTold(db, c);
    case 5 => ReportsTold(db, c);
    case 6 => CitesTold(db, c);
    case 7 => ArtifactsTold(db, c);
  }

  lemma {:induction false} UptoTold(db: Db, c: CaseRow, n: nat)
    requires Valid(db) && c in db.cases && n <= 7
    ensures AllTold(db, CaseGraph.Upto(db, c, n))
  {
    if n > 0 {
      UptoTold(db, c, n - 1);
      PartTold(db, c, n);
      ToldConcat(db, CaseGraph.Upto(db, c, n - 1), CaseGraph.Part(db, c, n));
    }
  }

  lemma RecordsTold(db: Db, c: CaseRow)
    requires Valid(db) && c in db.cases
    ensures AllTold(db, RecordCmds(db, c))
  {
    UptoTold(db, c, 7);
    CaseGraph.UptoAll(db, c);
  }

  /** A case's graph. */
  lemma CaseTells(db: Db, scope: Scope, c: CaseRow, shared: bool)
    requires Valid(db) && c in db.cases
    ensures Tells(db, Apply(EMPTY, CaseCmds(db, scope, c, shared)))
  {
    var es, found := Filter(db.evidence, EvidenceIn(c.id)), Filter(db.artifacts, ArtifactIn(c.id));
    RecordsTold(db, c);
    YaraTold(db, IdsOf(es));
    HashesTold(db, scope, Sorted(HashesOf(es, found)), shared, Some(c.id));
    ApplyTells(db, CaseCmds(db, scope, c, shared));
  }

  // ---------------------------------------------------------------------------
  // Every expansion
  // ---------------------------------------------------------------------------

  lemma OpeningTold(db: Db, own: NodeId, shown: Shown, parent: NodeId, parentShown: Shown, node: NodeId, text: EdgeLabel)
    requires NodeText(db, own, shown) && NodeText(db, parent, parentShown)
    requires EdgeText(db, EdgeKey(parent, node, Recorded), text)
    ensures AllTold(db, [AddNode(own, shown)] + NodeAndEdge(parent, parentShown, parent, node, Recorded, text))
  {
  }

  lemma ItemExamsTold(db: Db, node: NodeId, e: EvidenceRow)
    requires Valid(db) && node.Id? && node.kind.EvidenceNode?
    ensures AllTold(db, Flat(Filter(db.links, LinkOfEvidence(e.id)), LinkedExamCmds(node)))
  {
    RowsTold(db, db.links, LinkOfEvidence(e.id), LinkedExamCmds(node));
  }

  lemma ItemArtifactsTold(db: Db, node: NodeId, e: EvidenceRow)
    requires Valid(db) && node.Id? && node.kind.EvidenceNode?
    ensures AllTold(db, Flat(Filter(db.artifacts, ArtifactOfEvidence(e.id)), FoundInCmds(node)))
  {
    RowsTold(db, db.artifacts, ArtifactOfEvidence(e.id), FoundInCmds(node));
  }

  lemma ExamItemsTold(db: Db, node: NodeId, x: ExamRow)
    requires Valid(db) && node.Id? && node.kind.ExamNode?
    ensures AllTold(db, Flat(Filter(db.links, LinkOfExam(x.id)), LinkedItemCmds(node)))
  {
    RowsTold(db, db.links, LinkOfExam(x.id), LinkedItemCmds(node));
  }

  lemma ExamReportsTold(db: Db, node: NodeId, x: ExamRow)
    requires Valid(db) && node.Id? && node.kind.ExamNode?
    ensures AllTold(db, Flat(Filter(db.cites, CiteOfExam(x.id)), CitingCmds(node)))
  {
    RowsTold(db, db.cites, CiteOfExam(x.id), CitingCmds(node));
  }

  lemma ExamArtifactsTold(db: Db, node: NodeId, x: ExamRow)
    requires Valid(db) && node.Id? && node.kind.ExamNode?
    ensures AllTold(db, Flat(Filter(db.artifacts, ArtifactOfExam(x.id)), FoundByCmds(node)))
  {
    RowsTold(db, db.artifacts, ArtifactOfExam(x.id), FoundByCmds(node));
  }

  lemma ItemTold(db: Db, scope: Scope, node: NodeId, e: EvidenceRow)
    requires Valid(db) && node.Id? && node.kind.EvidenceNode? && e in db.evidence
    ensures AllTold(db, EvidencePlan(db, scope, node, e))
  {
    var first := [AddNode(EvidenceId(e), ShowEvidence(e, None))]
      + NodeAndEdge(CaseId(e.inCase), ShowCase(e.inCase), CaseId(e.inCase), node, Recorded, Contains);
    var exams := Flat(Filter(db.links, LinkOfEvidence(e.id)), LinkedExamCmds(node));
    var found := Flat(Filter(db.artifacts, ArtifactOfEvidence(e.id)), FoundInCmds(node));
    OpeningTold(db, EvidenceId(e), ShowEvidence(e, None), CaseId(e.inCase), ShowCase(e.inCase), node, Contains);
    ItemExamsTold(db, node, e);
    ItemArtifactsTold(db, node, e);
    YaraTold(db, {e.id});
    HashOfTold(db, scope, e.hash);
    ToldConcat(db, first, exams);
    ToldConcat(db, first + exams, found);
    ToldConcat(db, first + exams + found, YaraCmds(db, {e.id}));
    ToldConcat(db, first + exams + found + YaraCmds(db, {e.id}), HashOf(db, scope, e.hash));
  }

  lemma ExamTold(db: Db, node: NodeId, x: ExamRow)
    requires Valid(db) && node.Id? && node.kind.ExamNode? && x in db.exams
    ensures AllTold(db, ExamPlan(db, node, x))
  {
    var first := [AddNode(ExamId(x), ShowExam(x))]
      + NodeAndEdge(CaseId(x.inCase), ShowCase(x.inCase), CaseId(x.inCase), node, Recorded, Examination);
    var items := Flat(Filter(db.links, LinkOfExam(x.id)), LinkedItemCmds(node));
    var citing := Flat(Filter(db.cites, CiteOfExam(x.id)), CitingCmds(node));
    OpeningTold(db, ExamId(x), ShowExam(x), CaseId(x.inCase), ShowCase(x.inCase), node, Examination);
    ExamItemsTold(db, node, x);
    ExamReportsTold(db, node, x);
    ExamArtifactsTold(db, node, x);
    ToldConcat(db, first, items);
    ToldConcat(db, first + items, citing);
    ToldConcat(db, first + items + citing, Flat(Filter(db.artifacts, ArtifactOfExam(x.id)), FoundByCmds(node)));
  }

  lemma ReportTold(db: Db, node: NodeId, r: ReportRow)
    requires Valid(db) && node.Id? && node.kind.ReportNode? && r in db.reports
    ensures AllTold(db, ReportPlan(db, node, r))
  {
    assert NodeText(db, ReportId(r), ShowReport(r)) && NodeText(db, CaseId(r.inCase), ShowCase(r.inCase));
    OpeningTold(db, ReportId(r), ShowReport(r), CaseId(r.inCase), ShowCase(r.inCase), node, Report);
    RowsTold(db, db.cites, CiteOfReport(r.id), CitedCmds(node));
  }

  lemma ArtifactTold(db: Db, scope: Scope, node: NodeId, a: ArtifactRow)
    requires Valid(db) && node.Id? && node.kind.ArtifactNode? && a in db.artifacts
    ensures AllTold(db, ArtifactPlan(db, scope, node, a))
  {
    assert NodeText(db, ArtifactId(a), ShowArtifact(a)) && NodeText(db, ExamId(a.exam), ShowExam(a.exam));
    OpeningTold(db, ArtifactId(a), ShowArtifact(a), ExamId(a.exam), ShowExam(a.exam), node, FoundArtifact);
    HashOfTold(db, scope, a.sha);
  }

  lemma RuleTold(db: Db, scope: Scope, node: NodeId, r: RuleRow)
    requires Valid(db) && node.Id? && node.kind.RuleNode? && node.key == r.id && r in db.rules
    ensures AllTold(db, RulePlan(db, scope, node, r))
  {
    RowsTold(db, db.matches, MatchOfRule(db, scope, r.id), MatchedItemCmds(node));
  }

  lemma UserTold(db: Db, scope: Scope, node: NodeId, u: UserRow)
    requires Valid(db) && node.Id? && node.kind.UserNode? && node.key == u.id && u in db.users
    requires UserPlan(db, scope, node, u).Some?
    ensures AllTold(db, UserPlan(db, scope, node, u).value)
  {
    RowsTold(db, db.assignments, CaseOfUser(db, scope, u.id), AssignedCaseCmds(node));
  }

  lemma ExpansionTold(db: Db, scope: Scope, node: NodeId, shared: bool)
    requires Valid(db) && node.Id? && !node.kind.CaseNode? && ExpandPlan(db, scope, node, shared).Some?
    ensures AllTold(db, ExpandPlan(db, scope, node, shared).value)
  {
    match node.kind
    case EvidenceNode =>
      Expansion.FoundIff(db.evidence, EvidenceSeen(db, scope, node.key));
      ItemTold(db, scope, node, VisibleEvidence(db, scope, node.key).value);
    case ExamNode =>
      Expansion.FoundIff(db.exams, ExamSeen(db, scope, node.key));
      ExamTold(db, node, VisibleExam(db, scope, node.key).value);
    case ReportNode =>
      Expansion.FoundIff(db.reports, ReportSeen(db, scope, node.key));
      ReportTold(db, node, VisibleReport(db, scope, node.key).value);
    case ArtifactNode =>
      Expansion.FoundIff(db.artifacts, ArtifactSeen(db, scope, node.key));
      ArtifactTold(db, scope, node, VisibleArtifact(db, scope, node.key).value);
    case RuleNode =>
      Expansion.FoundIff(db.rules, (r: RuleRow) => r.id == node.key);
      RuleTold(db, scope, node, RuleByKey(db, node.key).value);
    case UserNode =>
      Expansion.FoundIff(db.users, (u: UserRow) => u.id == node.key);
      UserTold(db, scope, node, UserByKey(db, node.key).value);
  }

  /** Any expansion, with leading zeros or without. */
  lemma ExpansionTells(db: Db, scope: Scope, node: NodeId, shared: bool)
    requires Valid(db) && ExpandPlan(db, scope, node, shared).Some?
    ensures Tells(db, Apply(EMPTY, ExpandPlan(db, scope, node, shared).value))
  {
    if node.Id? && node.kind.CaseNode? {
      var c := VisibleCase(db, scope, node.key).value;
      Expansion.CaseIsFound(db, scope, c.reference);
      CaseTells(db, scope, CaseByReference(db, scope, c.reference).value, shared);
    } else {
      if node.Id? {
        ExpansionTold(db, scope, node, shared);
      } else {
        HashesTold(db, scope, [node.value], false, None);
      }
      ApplyTells(db, ExpandPlan(db, scope, node, shared).value);
    }
  }
}
