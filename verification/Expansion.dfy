/**
 What the neighbours of an expanded record are (expand in app/graph/services.py:216-344), said without
 the queries and loops that gather them, and what leading zeros in the id asked for do to them.
 */
module Expansion {
  import opened Wrappers
  import opened Content
  import opened Graph
  import opened Relationships
  import CaseGraph

  // ---------------------------------------------------------------------------
  // Ids with leading zeros
  // ---------------------------------------------------------------------------

  ghost predicate NonePadded(cs: seq<Cmd>) {
    forall c | c in cs && c.AddNode? && c.id.Id? :: c.id.zeros == 0
  }

  lemma {:induction false} FlatNonePadded<R>(rows: seq<R>, f: R -> seq<Cmd>)
    requires forall r :: NonePadded(f(r))
    ensures NonePadded(Flat(rows, f))
  {
    if rows != [] {
      FlatNonePadded(rows[..|rows| - 1], f);
      assert NonePadded(f(rows[|rows| - 1]));
    }
  }

  lemma HashesNonePadded(db: Db, scope: Scope, values: seq<Digest>, shared: bool, exclude: Option<nat>)
    ensures NonePadded(HashCmds(db, scope, values, shared, exclude))
  {
    var f := HashCmdsFor(db, scope, shared, exclude);
    forall v: Digest ensures NonePadded(f(v)) {
      FlatNonePadded(Holders(db, scope, v), HolderCmds(v, exclude));
    }
    FlatNonePadded(values, f);
  }

  /** The kinds whose expansion adds the node itself under its proper id. */
  predicate ReadsItsNode(kind: NodeKind) {
    kind.EvidenceNode? || kind.RuleNode? || kind.ExamNode? || kind.ReportNode? || kind.ArtifactNode?
  }

  lemma EvidencePlanNonePadded(db: Db, scope: Scope, node: NodeId, e: EvidenceRow)
    ensures NonePadded(EvidencePlan(db, scope, node, e))
  {
    FlatNonePadded(Filter(db.links, LinkOfEvidence(e.id)), LinkedExamCmds(node));
    FlatNonePadded(Filter(db.artifacts, ArtifactOfEvidence(e.id)), FoundInCmds(node));
    FlatNonePadded(Filter(db.matches, MatchOf({e.id})), MatchCmds());
    if e.hash.Some? { HashesNonePadded(db, scope, [e.hash.value], false, None); }
  }

  lemma ExamPlanNonePadded(db: Db, node: NodeId, x: ExamRow)
    ensures NonePadded(ExamPlan(db, node, x))
  {
    FlatNonePadded(Filter(db.links, LinkOfExam(x.id)), LinkedItemCmds(node));
    FlatNonePadded(Filter(db.cites, CiteOfExam(x.id)), CitingCmds(node));
    FlatNonePadded(Filter(db.artifacts, ArtifactOfExam(x.id)), FoundByCmds(node));
  }

  lemma PlanNonePadded(db: Db, scope: Scope, node: NodeId, shared: bool)
    requires node.Id? && ReadsItsNode(node.kind) && ExpandPlan(db, scope, node, shared).Some?
    ensures NonePadded(ExpandPlan(db, scope, node, shared).value)
  {
    match node.kind
    case EvidenceNode => EvidencePlanNonePadded(db, scope, node, VisibleEvidence(db, scope, node.key).value);
    case ExamNode => ExamPlanNonePadded(db, node, VisibleExam(db, scope, node.key).value);
    case ReportNode =>
      var r := VisibleReport(db, scope, node.key).value;
      FlatNonePadded(Filter(db.cites, CiteOfReport(r.id)), CitedCmds(node));
    case RuleNode =>
      var r := RuleByKey(db, node.key).value;
      FlatNonePadded(Filter(db.matches, MatchOfRule(db, scope, r.id)), MatchedItemCmds(node));
    case ArtifactNode =>
      var a := VisibleArtifact(db, scope, node.key).value;
      if a.sha.Some? { HashesNonePadded(db, scope, [a.sha.value], false, None); }
  }

  /**
   Asked for with leading zeros, an evidence item, rule, examination, report or artifact is found, but
   no edge joins the node that was asked for to anything.
   */
  lemma PaddedNodeHasNoEdges(db: Db, scope: Scope, node: NodeId, shared: bool)
    requires node.Id? && ReadsItsNode(node.kind) && node.zeros > 0 && ExpandPlan(db, scope, node, shared).Some?
    ensures var g := Apply(EMPTY, ExpandPlan(db, scope, node, shared).value);
            node !in g.nodes && forall k | k in g.edges :: k.source != node && k.target != node
  {
    var plan := ExpandPlan(db, scope, node, shared).value;
    PlanNonePadded(db, scope, node, shared);
    PaddedIsNotThere(plan, node);
    EdgesJoinNodes(plan);
  }

  lemma PaddedIsNotThere(plan: seq<Cmd>, node: NodeId)
    requires NonePadded(plan) && node.Id? && node.zeros > 0
    ensures node !in Apply(EMPTY, plan).nodes
  {
    NodesOnlyAsked(EMPTY, plan);
    forall id | id in Ids(plan) && id.Id? ensures id.zeros == 0 {
      var i :| 0 <= i < |plan| && plan[i].AddNode? && plan[i].id == id;
      assert plan[i] in plan;
    }
  }

  /** A case is looked up by its number alone: leading zeros make no difference. A user is added as it was asked for. */
  lemma PaddedCaseOrUser(db: Db, scope: Scope, node: NodeId, shared: bool)
    requires node.Id? && ExpandPlan(db, scope, node, shared).Some?
    ensures node.kind.CaseNode? ==> ExpandPlan(db, scope, node, shared) == ExpandPlan(db, scope, node.(zeros := 0), shared)
    ensures node.kind.UserNode? ==> node in Apply(EMPTY, ExpandPlan(db, scope, node, shared).value).nodes
  {
    if node.kind.UserNode? {
      var u := UserByKey(db, node.key).value;
      var rest := Flat(Filter(db.assignments, CaseOfUser(db, scope, u.id)), AssignedCaseCmds(node));
      One(EMPTY, AddNode(node, UserShown(u.fullName, false)));
      ApplyConcat(EMPTY, [AddNode(node, UserShown(u.fullName, false))], rest);
      NodesStay(Apply(EMPTY, [AddNode(node, UserShown(u.fullName, false))]), rest);
    }
  }

  lemma {:induction false} NodesStay(g: GraphValue, cs: seq<Cmd>)
    ensures g.nodes.Keys <= Apply(g, cs).nodes.Keys
  {
    if cs != [] {
      NodesStay(g, cs[..|cs| - 1]);
    }
  }

  lemma {:induction false} EdgesStay(g: GraphValue, cs: seq<Cmd>)
    ensures g.edges.Keys <= Apply(g, cs).edges.Keys
  {
    if cs != [] {
      EdgesStay(g, cs[..|cs| - 1]);
    }
  }

  // Without leading zeros

  /** Where a record belongs: an item, examination or report to its case, an artifact to its examination. */
  function ParentOf(db: Db, scope: Scope, node: NodeId): (parent: NodeId)
    requires node.Id? && HasParent(node.kind) && ExpandPlan(db, scope, node, false).Some?
    ensures parent.Id? && parent.kind != node.kind
  {
    match node.kind
    case EvidenceNode => CaseId(VisibleEvidence(db, scope, node.key).value.inCase)
    case ExamNode => CaseId(VisibleExam(db, scope, node.key).value.inCase)
    case ReportNode => CaseId(VisibleReport(db, scope, node.key).value.inCase)
    case ArtifactNode => ExamId(VisibleArtifact(db, scope, node.key).value.exam)
  }

  predicate HasParent(kind: NodeKind) {
    kind.EvidenceNode? || kind.ExamNode? || kind.ReportNode? || kind.ArtifactNode?
  }

  /** The first command adds the record's own node; when it has a parent, the next two join it. */
  ghost predicate Opens(plan: seq<Cmd>, node: NodeId, parent: Option<NodeId>)
    requires node.Id?
  {
    && plan != [] && plan[0].AddNode? && plan[0].id == node.(zeros := 0)
    && (parent.Some? ==>
          && |plan| >= 3 && plan[1].AddNode? && plan[1].id == parent.value
          && plan[2].AddEdge? && plan[2].key == EdgeKey(parent.value, node, Recorded))
  }

  lemma FirstIsFound<R>(rows: seq<R>, p: R -> bool)
    requires First(Filter(rows, p)).Some?
    ensures p(First(Filter(rows, p)).value)
  {
    CaseGraph.KeptIs(rows, p, 0);
  }

  lemma PlanOpens(db: Db, scope: Scope, node: NodeId, shared: bool)
    requires node.Id? && ReadsItsNode(node.kind) && ExpandPlan(db, scope, node, shared).Some?
    ensures Opens(ExpandPlan(db, scope, node, shared).value, node,
                  if HasParent(node.kind) then Some(ParentOf(db, scope, node)) else None)
  {
    match node.kind
    case EvidenceNode => FirstIsFound(db.evidence, EvidenceSeen(db, scope, node.key));
    case ExamNode => FirstIsFound(db.exams, ExamSeen(db, scope, node.key));
    case ReportNode => FirstIsFound(db.reports, ReportSeen(db, scope, node.key));
    case RuleNode => FirstIsFound(db.rules, (r: RuleRow) => r.id == node.key);
    case ArtifactNode => FirstIsFound(db.artifacts, ArtifactSeen(db, scope, node.key));
  }

  lemma OpeningIsThere(plan: seq<Cmd>, node: NodeId, parent: Option<NodeId>)
    requires node.Id? && node.zeros == 0 && Opens(plan, node, parent) && (parent.Some? ==> parent.value != node)
    ensures node in Apply(EMPTY, plan).nodes
    ensures parent.Some? ==> EdgeKey(parent.value, node, Recorded) in Apply(EMPTY, plan).edges
  {
    One(EMPTY, plan[0]);
    assert plan == [plan[0]] + plan[1..];
    ApplyConcat(EMPTY, [plan[0]], plan[1..]);
    NodesStay(Apply(EMPTY, [plan[0]]), plan[1..]);
    if parent.Some? {
      JoinedAtOnce(plan[0], plan[1], plan[2]);
      assert plan == [plan[0], plan[1], plan[2]] + plan[3..];
      ApplyConcat(EMPTY, [plan[0], plan[1], plan[2]], plan[3..]);
      EdgesStay(Apply(EMPTY, [plan[0], plan[1], plan[2]]), plan[3..]);
    }
  }

  lemma JoinedAtOnce(a: Cmd, b: Cmd, c: Cmd)
    requires a.AddNode? && b.AddNode? && c.AddEdge? && c.key.source == b.id && c.key.target == a.id && a.id != b.id
    ensures c.key in Apply(EMPTY, [a, b, c]).edges
  {
    assert [a] + [b] == [a, b] && [a, b] + [c] == [a, b, c];
    One(EMPTY, a);
    ApplySnoc(EMPTY, [a], b);
    ApplySnoc(EMPTY, [a, b], c);
  }

  /**
   The node asked for is in the graph if and only if its id was written without leading zeros;
   and only then is an item, examination or report joined to its case, an artifact to its examination.
   */
  lemma ExpandedNodeIsThereIff(db: Db, scope: Scope, node: NodeId, shared: bool)
    requires node.Id? && ReadsItsNode(node.kind) && ExpandPlan(db, scope, node, shared).Some?
    ensures var g := Apply(EMPTY, ExpandPlan(db, scope, node, shared).value);
            && (node in g.nodes <==> node.zeros == 0)
            && (HasParent(node.kind) ==>
                  (EdgeKey(ParentOf(db, scope, node), node, Recorded) in g.edges <==> node.zeros == 0))
  {
    if node.zeros > 0 {
      PaddedNodeHasNoEdges(db, scope, node, shared);
    } else {
      PlanOpens(db, scope, node, shared);
      OpeningIsThere(ExpandPlan(db, scope, node, shared).value, node,
                     if HasParent(node.kind) then Some(ParentOf(db, scope, node)) else None);
    }
  }

  // An expansion that is not truncated

  lemma OpeningFirst(node: NodeId, shown: Shown, parent: NodeId, parentShown: Shown, text: EdgeLabel)
    requires parent != node
    ensures var first := [AddNode(node, shown)] + NodeAndEdge(parent, parentShown, parent, node, Recorded, text);
            NodesFirst(first, {}) && node in Ids(first) && EdgeKey(parent, node, Recorded) in EdgeKeys(first)
  {
    var own, pair := [AddNode(node, shown)], NodeAndEdge(parent, parentShown, parent, node, Recorded, text);
    CaseGraph.NodeIds(node, shown);
    CaseGraph.PairIds(parent, parentShown, parent, node, Recorded, text);
    CaseGraph.PairFirst(parent, parentShown, parent, node, Recorded, text, {} + Ids(own));
    NodesFirstConcat(own, pair, {});
    IdsConcat(own, pair);
  }

  /** A further series whose edges need no more than the nodes so far and its own. */
  lemma ThenFirst(cs: seq<Cmd>, ds: seq<Cmd>)
    requires NodesFirst(cs, {}) && NodesFirst(ds, Ids(cs))
    ensures NodesFirst(cs + ds, {}) && Ids(cs + ds) == Ids(cs) + Ids(ds) && EdgeKeys(cs + ds) == EdgeKeys(cs) + EdgeKeys(ds)
  {
    assert {} + Ids(cs) == Ids(cs);
    NodesFirstConcat(cs, ds, {});
    IdsConcat(cs, ds);
  }

  lemma HashOfFirst(db: Db, scope: Scope, value: Option<Digest>, before: set<NodeId>)
    ensures NodesFirst(HashOf(db, scope, value), before)
  {
    if value.Some? { CaseGraph.HashesFirst(db, scope, [value.value], false, None, before); }
  }

  /** The rows of a query about the node: each adds another node and joins the two. */
  lemma NeighboursFirst<R>(rows: seq<R>, p: R -> bool, f: R -> seq<Cmd>, node: NodeId, before: set<NodeId>)
    requires node in before && forall r | p(r) :: JoinsNode(f(r), node)
    ensures NodesFirst(Flat(Filter(rows, p), f), before)
  {
    forall r | r in rows && p(r) ensures NodesFirst(f(r), before) {
      var cs := f(r);
      CaseGraph.PairFirst(cs[0].id, cs[0].shown, cs[1].key.source, cs[1].key.target, cs[1].key.kind, cs[1].text, before);
      assert cs == [cs[0], cs[1]];
    }
    CaseGraph.RowsFirst(rows, p, f, before);
  }

  predicate JoinsNode(cs: seq<Cmd>, node: NodeId) {
    && |cs| == 2 && cs[0].AddNode? && cs[1].AddEdge? && cs[0].id != node
    && ((cs[1].key.source == cs[0].id && cs[1].key.target == node) || (cs[1].key.source == node && cs[1].key.target == cs[0].id))
  }

  lemma EvidencePlanFirst(db: Db, scope: Scope, e: EvidenceRow)
    ensures NodesFirst(EvidencePlan(db, scope, EvidenceId(e), e), {})
  {
    var node := EvidenceId(e);
    var s1 := [AddNode(node, ShowEvidence(e, None))]
      + NodeAndEdge(CaseId(e.inCase), ShowCase(e.inCase), CaseId(e.inCase), node, Recorded, Contains);
    OpeningFirst(node, ShowEvidence(e, None), CaseId(e.inCase), ShowCase(e.inCase), Contains);
    var links := Flat(Filter(db.links, LinkOfEvidence(e.id)), LinkedExamCmds(node));
    NeighboursFirst(db.links, LinkOfEvidence(e.id), LinkedExamCmds(node), node, Ids(s1));
    ThenFirst(s1, links);
    var found := Flat(Filter(db.artifacts, ArtifactOfEvidence(e.id)), FoundInCmds(node));
    NeighboursFirst(db.artifacts, ArtifactOfEvidence(e.id), FoundInCmds(node), node, Ids(s1 + links));
    ThenFirst(s1 + links, found);
    NeighboursFirst(db.matches, MatchOf({e.id}), MatchCmds(), node, Ids(s1 + links + found));
    ThenFirst(s1 + links + found, YaraCmds(db, {e.id}));
    HashOfFirst(db, scope, e.hash, Ids(s1 + links + found + YaraCmds(db, {e.id})));
    ThenFirst(s1 + links + found + YaraCmds(db, {e.id}), HashOf(db, scope, e.hash));
  }

  lemma ExamPlanFirst(db: Db, x: ExamRow)
    ensures NodesFirst(ExamPlan(db, ExamId(x), x), {})
  {
    var node := ExamId(x);
    var s1 := [AddNode(node, ShowExam(x))]
      + NodeAndEdge(CaseId(x.inCase), ShowCase(x.inCase), CaseId(x.inCase), node, Recorded, Examination);
    OpeningFirst(node, ShowExam(x), CaseId(x.inCase), ShowCase(x.inCase), Examination);
    var items := Flat(Filter(db.links, LinkOfExam(x.id)), LinkedItemCmds(node));
    NeighboursFirst(db.links, LinkOfExam(x.id), LinkedItemCmds(node), node, Ids(s1));
    ThenFirst(s1, items);
    var cited := Flat(Filter(db.cites, CiteOfExam(x.id)), CitingCmds(node));
    NeighboursFirst(db.cites, CiteOfExam(x.id), CitingCmds(node), node, Ids(s1 + items));
    ThenFirst(s1 + items, cited);
    NeighboursFirst(db.artifacts, ArtifactOfExam(x.id), FoundByCmds(node), node, Ids(s1 + items + cited));
    ThenFirst(s1 + items + cited, Flat(Filter(db.artifacts, ArtifactOfExam(x.id)), FoundByCmds(node)));
  }

  lemma ReportPlanFirst(db: Db, r: ReportRow)
    ensures NodesFirst(ReportPlan(db, ReportId(r), r), {})
  {
    var node := ReportId(r);
    var s1 := [AddNode(node, ShowReport(r))]
      + NodeAndEdge(CaseId(r.inCase), ShowCase(r.inCase), CaseId(r.inCase), node, Recorded, Report);
    OpeningFirst(node, ShowReport(r), CaseId(r.inCase), ShowCase(r.inCase), Report);
    NeighboursFirst(db.cites, CiteOfReport(r.id), CitedCmds(node), node, Ids(s1));
    ThenFirst(s1, Flat(Filter(db.cites, CiteOfReport(r.id)), CitedCmds(node)));
  }

  lemma ArtifactPlanFirst(db: Db, scope: Scope, a: ArtifactRow)
    ensures NodesFirst(ArtifactPlan(db, scope, ArtifactId(a), a), {})
  {
    var node := ArtifactId(a);
    var s1 := [AddNode(node, ShowArtifact(a))]
      + NodeAndEdge(ExamId(a.exam), ShowExam(a.exam), ExamId(a.exam), node, Recorded, FoundArtifact);
    OpeningFirst(node, ShowArtifact(a), ExamId(a.exam), ShowExam(a.exam), FoundArtifact);
    var item: seq<Cmd> := [];
    if a.evidence.Some? {
      var e := a.evidence.value;
      item := NodeAndEdge(EvidenceId(e), ShowEvidence(e, None), node, EvidenceId(e), Recorded, FoundIn);
      CaseGraph.PairFirst(EvidenceId(e), ShowEvidence(e, None), node, EvidenceId(e), Recorded, FoundIn, Ids(s1));
    }
    ThenFirst(s1, item);
    HashOfFirst(db, scope, a.sha, Ids(s1 + item));
    ThenFirst(s1 + item, HashOf(db, scope, a.sha));
  }

  lemma RulePlanFirst(db: Db, scope: Scope, r: RuleRow)
    ensures NodesFirst(RulePlan(db, scope, RuleId(r), r), {})
  {
    var own := [AddNode(RuleId(r), RuleShown(r.name))];
    CaseGraph.NodeIds(RuleId(r), RuleShown(r.name));
    NeighboursFirst(db.matches, MatchOfRule(db, scope, r.id), MatchedItemCmds(RuleId(r)), RuleId(r), Ids(own));
    ThenFirst(own, Flat(Filter(db.matches, MatchOfRule(db, scope, r.id)), MatchedItemCmds(RuleId(r))));
  }

  lemma PlainPlanFirst(db: Db, scope: Scope, node: NodeId, shared: bool)
    requires node.Id? && node.zeros == 0 && ReadsItsNode(node.kind) && ExpandPlan(db, scope, node, shared).Some?
    ensures NodesFirst(ExpandPlan(db, scope, node, shared).value, {})
  {
    PlanOpens(db, scope, node, shared);
    match node.kind
    case EvidenceNode => EvidencePlanFirst(db, scope, VisibleEvidence(db, scope, node.key).value);
    case ExamNode => ExamPlanFirst(db, VisibleExam(db, scope, node.key).value);
    case ReportNode => ReportPlanFirst(db, VisibleReport(db, scope, node.key).value);
    case RuleNode => RulePlanFirst(db, scope, RuleByKey(db, node.key).value);
    case ArtifactNode => ArtifactPlanFirst(db, scope, VisibleArtifact(db, scope, node.key).value);
  }

  lemma {:induction false} EdgesOnlyAsked(cs: seq<Cmd>)
    ensures Apply(EMPTY, cs).edges.Keys <= EdgeKeys(cs)
  {
    if cs != [] {
      var n := |cs| - 1;
      EdgesOnlyAsked(cs[..n]);
      assert cs == cs[..n] + [cs[n]];
      IdsSnoc(cs[..n], cs[n]);
    }
  }

  /** An edge that is asked for at the node itself, if any edge is. */
  lemma SomeEdgeAtNode(db: Db, scope: Scope, node: NodeId, shared: bool)
    requires node.Id? && ReadsItsNode(node.kind) && ExpandPlan(db, scope, node, shared).Some?
    requires EdgeKeys(ExpandPlan(db, scope, node, shared).value) != {}
    ensures exists k :: k in EdgeKeys(ExpandPlan(db, scope, node, shared).value) && (k.source == node || k.target == node)
  {
    var plan := ExpandPlan(db, scope, node, shared).value;
    if HasParent(node.kind) {
      PlanOpens(db, scope, node, shared);
      assert plan[2].key in EdgeKeys(plan);
    } else {
      var r := RuleByKey(db, node.key).value;
      var k :| k in EdgeKeys(plan);
      IdsConcat([AddNode(RuleId(r), RuleShown(r.name))],
                Flat(Filter(db.matches, MatchOfRule(db, scope, r.id)), MatchedItemCmds(node)));
      CaseGraph.NodeIds(RuleId(r), RuleShown(r.name));
      CaseGraph.RowEdges(db.matches, MatchOfRule(db, scope, r.id), MatchedItemCmds(node), k);
    }
  }

  /** Within the cap, every edge of the expanded record is drawn if and only if its id has no leading zeros or there is none. */
  lemma ExpansionIsCompleteIff(db: Db, scope: Scope, node: NodeId, shared: bool)
    requires node.Id? && ReadsItsNode(node.kind) && ExpandPlan(db, scope, node, shared).Some?
    requires !Apply(EMPTY, ExpandPlan(db, scope, node, shared).value).truncated
    ensures var plan := ExpandPlan(db, scope, node, shared).value;
            Apply(EMPTY, plan).edges.Keys == EdgeKeys(plan) <==> node.zeros == 0 || EdgeKeys(plan) == {}
  {
    var plan := ExpandPlan(db, scope, node, shared).value;
    EdgesOnlyAsked(plan);
    if node.zeros == 0 {
      GraphIsCapped(plan);
      PlainPlanFirst(db, scope, node, shared);
      AllEdgesDrawn(plan);
    } else if EdgeKeys(plan) != {} {
      PaddedNodeHasNoEdges(db, scope, node, shared);
      SomeEdgeAtNode(db, scope, node, shared);
    }
  }

  /** The same of an evidence item, whatever else the plan asks for. */
  lemma ExpandedItemIsJoinedIff(db: Db, scope: Scope, node: NodeId, e: EvidenceRow)
    requires node.Id? && node.kind.EvidenceNode? && node.key == e.id
    ensures EdgeKey(CaseId(e.inCase), node, Recorded) in Apply(EMPTY, EvidencePlan(db, scope, node, e)).edges
       <==> node.zeros == 0
  {
    var plan := EvidencePlan(db, scope, node, e);
    if node.zeros > 0 {
      EvidencePlanNonePadded(db, scope, node, e);
      PaddedIsNotThere(plan, node);
      EdgesJoinNodes(plan);
    } else {
      OpeningIsThere(plan, node, Some(CaseId(e.inCase)));
    }
  }

  // ---------------------------------------------------------------------------
  // What an expansion shows
  // ---------------------------------------------------------------------------

  /** The hash and its visible holders. */
  ghost predicate HashHas(db: Db, scope: Scope, value: Digest, id: NodeId) {
    || id == HashId(value)
    || (exists e | e in db.evidence :: e.hash == Some(value) && Sees(db, scope, e.inCase.id) && id == EvidenceId(e))
    || (exists a | a in db.artifacts :: a.sha == Some(value) && Sees(db, scope, a.exam.inCase.id) && id == ArtifactId(a))
  }

  ghost predicate HashJoins(db: Db, scope: Scope, value: Digest, k: EdgeKey) {
    && k.target == HashId(value) && k.kind == Identity
    && ((exists e | e in db.evidence :: e.hash == Some(value) && Sees(db, scope, e.inCase.id) && k.source == EvidenceId(e))
        || exists a | a in db.artifacts :: a.sha == Some(value) && Sees(db, scope, a.exam.inCase.id) && k.source == ArtifactId(a))
  }

  /** Some row of a table gives this node, or this edge. */
  ghost predicate ExaminedIn(db: Db, e: EvidenceRow, id: NodeId) {
    exists l | l in db.links :: l.evidence.id == e.id && id == ExamId(l.exam)
  }

  ghost predicate ExaminedEdge(db: Db, e: EvidenceRow, k: EdgeKey) {
    exists l | l in db.links :: l.evidence.id == e.id && k == EdgeKey(ExamId(l.exam), EvidenceId(e), Recorded)
  }

  ghost predicate FoundInItem(db: Db, e: EvidenceRow, id: NodeId) {
    exists a | a in db.artifacts :: a.evidence.Some? && a.evidence.value.id == e.id && id == ArtifactId(a)
  }

  ghost predicate FoundInEdge(db: Db, e: EvidenceRow, k: EdgeKey) {
    exists a | a in db.artifacts ::
      a.evidence.Some? && a.evidence.value.id == e.id && k == EdgeKey(ArtifactId(a), EvidenceId(e), Recorded)
  }

  ghost predicate MatchedRule(db: Db, e: EvidenceRow, id: NodeId) {
    exists m | m in db.matches :: m.evidence.id == e.id && id == RuleId(m.rule)
  }

  ghost predicate MatchedEdge(db: Db, e: EvidenceRow, k: EdgeKey) {
    exists m | m in db.matches :: m.evidence.id == e.id && k == EdgeKey(EvidenceId(e), RuleId(m.rule), Outcome)
  }

  /** An item: its case, the examinations of it, what was found in it, the rules it matched, its hash. */
  ghost predicate ItemHas(db: Db, scope: Scope, e: EvidenceRow, id: NodeId) {
    || id == EvidenceId(e) || id == CaseId(e.inCase)
    || ExaminedIn(db, e, id) || FoundInItem(db, e, id) || MatchedRule(db, e, id)
    || (e.hash.Some? && HashHas(db, scope, e.hash.value, id))
  }

  ghost predicate ItemJoins(db: Db, scope: Scope, e: EvidenceRow, k: EdgeKey) {
    || k == EdgeKey(CaseId(e.inCase), EvidenceId(e), Recorded)
    || ExaminedEdge(db, e, k) || FoundInEdge(db, e, k) || MatchedEdge(db, e, k)
    || (e.hash.Some? && HashJoins(db, scope, e.hash.value, k))
  }

  /** A rule: the visible items whose latest scan matched it. */
  ghost predicate RuleHas(db: Db, scope: Scope, r: RuleRow, id: NodeId) {
    || id == RuleId(r)
    || exists m | m in db.matches :: m.rule.id == r.id && Sees(db, scope, m.evidence.inCase.id) && id == EvidenceId(m.evidence)
  }

  ghost predicate RuleJoins(db: Db, scope: Scope, r: RuleRow, k: EdgeKey) {
    exists m | m in db.matches :: m.rule.id == r.id && Sees(db, scope, m.evidence.inCase.id)
      && k == EdgeKey(EvidenceId(m.evidence), RuleId(r), Outcome)
  }

  /** A user, under the id as it was written: the visible cases the user is assigned to. */
  ghost predicate UserHas(db: Db, scope: Scope, node: NodeId, u: UserRow, id: NodeId) {
    || id == node
    || exists a | a in db.assignments :: a.user.id == u.id && Sees(db, scope, a.inCase.id) && id == CaseId(a.inCase)
  }

  ghost predicate UserJoins(db: Db, scope: Scope, node: NodeId, u: UserRow, k: EdgeKey) {
    exists a | a in db.assignments :: a.user.id == u.id && Sees(db, scope, a.inCase.id)
      && k == EdgeKey(node, CaseId(a.inCase), Recorded)
  }

  ghost predicate ItemOfExam(db: Db, x: ExamRow, id: NodeId) {
    exists l | l in db.links :: l.exam.id == x.id && id == EvidenceId(l.evidence)
  }

  ghost predicate ItemOfExamEdge(db: Db, x: ExamRow, k: EdgeKey) {
    exists l | l in db.links :: l.exam.id == x.id && k == EdgeKey(ExamId(x), EvidenceId(l.evidence), Recorded)
  }

  ghost predicate CitingReport(db: Db, x: ExamRow, id: NodeId) {
    exists t | t in db.cites :: t.exam.id == x.id && id == ReportId(t.report)
  }

  ghost predicate CitingEdge(db: Db, x: ExamRow, k: EdgeKey) {
    exists t | t in db.cites :: t.exam.id == x.id && k == EdgeKey(ReportId(t.report), ExamId(x), Recorded)
  }

  ghost predicate FoundByExam(db: Db, x: ExamRow, id: NodeId) {
    exists a | a in db.artifacts :: a.exam.id == x.id && id == ArtifactId(a)
  }

  ghost predicate FoundByEdge(db: Db, x: ExamRow, k: EdgeKey) {
    exists a | a in db.artifacts :: a.exam.id == x.id && k == EdgeKey(ExamId(x), ArtifactId(a), Recorded)
  }

  /** An examination: its case, its items, the reports that cite it, what it found. */
  ghost predicate ExamHas(db: Db, x: ExamRow, id: NodeId) {
    || id == ExamId(x) || id == CaseId(x.inCase)
    || ItemOfExam(db, x, id) || CitingReport(db, x, id) || FoundByExam(db, x, id)
  }

  ghost predicate ExamJoins(db: Db, x: ExamRow, k: EdgeKey) {
    || k == EdgeKey(CaseId(x.inCase), ExamId(x), Recorded)
    || ItemOfExamEdge(db, x, k) || CitingEdge(db, x, k) || FoundByEdge(db, x, k)
  }

  /** A report: its case and the examinations it cites. */
  ghost predicate ReportHas(db: Db, r: ReportRow, id: NodeId) {
    || id == ReportId(r) || id == CaseId(r.inCase)
    || exists t | t in db.cites :: t.report.id == r.id && id == ExamId(t.exam)
  }

  ghost predicate ReportJoins(db: Db, r: ReportRow, k: EdgeKey) {
    || k == EdgeKey(CaseId(r.inCase), ReportId(r), Recorded)
    || exists t | t in db.cites :: t.report.id == r.id && k == EdgeKey(ReportId(r), ExamId(t.exam), Recorded)
  }

  /** An artifact: its examination, the item it was found in, its hash. */
  ghost predicate ArtifactHas(db: Db, scope: Scope, a: ArtifactRow, id: NodeId) {
    || id == ArtifactId(a) || id == ExamId(a.exam)
    || (a.evidence.Some? && id == EvidenceId(a.evidence.value))
    || (a.sha.Some? && HashHas(db, scope, a.sha.value, id))
  }

  ghost predicate ArtifactJoins(db: Db, scope: Scope, a: ArtifactRow, k: EdgeKey) {
    || k == EdgeKey(ExamId(a.exam), ArtifactId(a), Recorded)
    || (a.evidence.Some? && k == EdgeKey(ArtifactId(a), EvidenceId(a.evidence.value), Recorded))
    || (a.sha.Some? && HashJoins(db, scope, a.sha.value, k))
  }

  // The plans ask for just that.

  lemma HashOfIs(db: Db, scope: Scope, value: Option<Digest>, id: NodeId, k: EdgeKey)
    ensures id in Ids(HashOf(db, scope, value)) <==> value.Some? && HashHas(db, scope, value.value, id)
    ensures k in EdgeKeys(HashOf(db, scope, value)) <==> value.Some? && HashJoins(db, scope, value.value, k)
  {
    if value.Some? {
      var v := value.value;
      CaseGraph.HashesAre(db, scope, [v], false, None, id, k);
      assert v in [v];
      HoldersById(db, scope, v, id);
      HoldersById(db, scope, v, k.source);
      assert CaseGraph.ValueJoins(db, scope, false, v, k)
        <==> k.target == HashId(v) && k.kind == Identity && exists h | h in Holders(db, scope, v) :: k.source == HolderId(h);
    }
  }

  lemma HoldersById(db: Db, scope: Scope, value: Digest, id: NodeId)
    ensures (exists h | h in Holders(db, scope, value) :: id == HolderId(h)) <==>
      || (exists e | e in db.evidence :: e.hash == Some(value) && Sees(db, scope, e.inCase.id) && id == EvidenceId(e))
      || (exists a | a in db.artifacts :: a.sha == Some(value) && Sees(db, scope, a.exam.inCase.id) && id == ArtifactId(a))
  {
    forall h ensures h in Holders(db, scope, value) <==>
        match h
        case Item(e) => e in db.evidence && e.hash == Some(value) && Sees(db, scope, e.inCase.id)
        case Found(a) => a in db.artifacts && a.sha == Some(value) && Sees(db, scope, a.exam.inCase.id)
    {
      CaseGraph.HoldersAre(db, scope, value, h);
    }
    if e :| e in db.evidence && e.hash == Some(value) && Sees(db, scope, e.inCase.id) && id == EvidenceId(e) {
      assert Item(e) in Holders(db, scope, value);
    }
    if a :| a in db.artifacts && a.sha == Some(value) && Sees(db, scope, a.exam.inCase.id) && id == ArtifactId(a) {
      assert Found(a) in Holders(db, scope, value);
    }
  }

  lemma OpeningIs(own: NodeId, shown: Shown, parent: NodeId, parentShown: Shown, node: NodeId, text: EdgeLabel)
    ensures var first := [AddNode(own, shown)] + NodeAndEdge(parent, parentShown, parent, node, Recorded, text);
            Ids(first) == {own, parent} && EdgeKeys(first) == {EdgeKey(parent, node, Recorded)}
  {
    CaseGraph.NodeIds(own, shown);
    CaseGraph.PairIds(parent, parentShown, parent, node, Recorded, text);
    IdsConcat([AddNode(own, shown)], NodeAndEdge(parent, parentShown, parent, node, Recorded, text));
  }

  lemma ItemParts(db: Db, scope: Scope, e: EvidenceRow)
    ensures var node := EvidenceId(e);
            var cs := EvidencePlan(db, scope, node, e);
            var first := [AddNode(node, ShowEvidence(e, None))]
              + NodeAndEdge(CaseId(e.inCase), ShowCase(e.inCase), CaseId(e.inCase), node, Recorded, Contains);
            var links := Flat(Filter(db.links, LinkOfEvidence(e.id)), LinkedExamCmds(node));
            var found := Flat(Filter(db.artifacts, ArtifactOfEvidence(e.id)), FoundInCmds(node));
            && Ids(cs) == Ids(first) + Ids(links) + Ids(found) + Ids(YaraCmds(db, {e.id})) + Ids(HashOf(db, scope, e.hash))
            && EdgeKeys(cs) == EdgeKeys(first) + EdgeKeys(links) + EdgeKeys(found) + EdgeKeys(YaraCmds(db, {e.id}))
                 + EdgeKeys(HashOf(db, scope, e.hash))
  {
    var node := EvidenceId(e);
    var s1 := [AddNode(node, ShowEvidence(e, None))]
      + NodeAndEdge(CaseId(e.inCase), ShowCase(e.inCase), CaseId(e.inCase), node, Recorded, Contains);
    var links := Flat(Filter(db.links, LinkOfEvidence(e.id)), LinkedExamCmds(node));
    var found := Flat(Filter(db.artifacts, ArtifactOfEvidence(e.id)), FoundInCmds(node));
    IdsConcat(s1, links);
    IdsConcat(s1 + links, found);
    IdsConcat(s1 + links + found, YaraCmds(db, {e.id}));
    IdsConcat(s1 + links + found + YaraCmds(db, {e.id}), HashOf(db, scope, e.hash));
  }

  lemma ExaminedIs(db: Db, e: EvidenceRow, id: NodeId, k: EdgeKey)
    ensures var cs := Flat(Filter(db.links, LinkOfEvidence(e.id)), LinkedExamCmds(EvidenceId(e)));
            (id in Ids(cs) <==> ExaminedIn(db, e, id)) && (k in EdgeKeys(cs) <==> ExaminedEdge(db, e, k))
  {
    var node := EvidenceId(e);
    CaseGraph.TableAdds(db.links, LinkOfEvidence(e.id), LinkedExamCmds(node),
                        (l: LinkRow) => Some(ExamId(l.exam)), (l: LinkRow) => EdgeKey(ExamId(l.exam), node, Recorded), id, k);
  }

  lemma FoundInIs(db: Db, e: EvidenceRow, id: NodeId, k: EdgeKey)
    ensures var cs := Flat(Filter(db.artifacts, ArtifactOfEvidence(e.id)), FoundInCmds(EvidenceId(e)));
            (id in Ids(cs) <==> FoundInItem(db, e, id)) && (k in EdgeKeys(cs) <==> FoundInEdge(db, e, k))
  {
    var node := EvidenceId(e);
    CaseGraph.TableAdds(db.artifacts, ArtifactOfEvidence(e.id), FoundInCmds(node),
                        (a: ArtifactRow) => Some(ArtifactId(a)), (a: ArtifactRow) => EdgeKey(ArtifactId(a), node, Recorded), id, k);
  }

  lemma MatchedIs(db: Db, e: EvidenceRow, id: NodeId, k: EdgeKey)
    ensures id in Ids(YaraCmds(db, {e.id})) <==> MatchedRule(db, e, id)
    ensures k in EdgeKeys(YaraCmds(db, {e.id})) <==> MatchedEdge(db, e, k)
  {
    CaseGraph.TableAdds(db.matches, MatchOf({e.id}), MatchCmds(),
                        (m: MatchRow) => Some(RuleId(m.rule)),
                        (m: MatchRow) => EdgeKey(EvidenceId(m.evidence), RuleId(m.rule), Outcome), id, k);
  }

  lemma ItemIs(db: Db, scope: Scope, e: EvidenceRow, id: NodeId, k: EdgeKey)
    ensures id in Ids(EvidencePlan(db, scope, EvidenceId(e), e)) <==> ItemHas(db, scope, e, id)
    ensures k in EdgeKeys(EvidencePlan(db, scope, EvidenceId(e), e)) <==> ItemJoins(db, scope, e, k)
  {
    ItemParts(db, scope, e);
    OpeningIs(EvidenceId(e), ShowEvidence(e, None), CaseId(e.inCase), ShowCase(e.inCase), EvidenceId(e), Contains);
    ExaminedIs(db, e, id, k);
    FoundInIs(db, e, id, k);
    MatchedIs(db, e, id, k);
    HashOfIs(db, scope, e.hash, id, k);
  }

  lemma RuleIs(db: Db, scope: Scope, r: RuleRow, id: NodeId, k: EdgeKey)
    ensures id in Ids(RulePlan(db, scope, RuleId(r), r)) <==> RuleHas(db, scope, r, id)
    ensures k in EdgeKeys(RulePlan(db, scope, RuleId(r), r)) <==> RuleJoins(db, scope, r, k)
  {
    var node := RuleId(r);
    CaseGraph.NodeIds(node, RuleShown(r.name));
    CaseGraph.TableAdds(db.matches, MatchOfRule(db, scope, r.id), MatchedItemCmds(node),
                        (m: MatchRow) => Some(EvidenceId(m.evidence)),
                        (m: MatchRow) => EdgeKey(EvidenceId(m.evidence), node, Outcome), id, k);
    IdsConcat([AddNode(node, RuleShown(r.name))],
              Flat(Filter(db.matches, MatchOfRule(db, scope, r.id)), MatchedItemCmds(node)));
  }

  lemma UserIs(db: Db, scope: Scope, node: NodeId, u: UserRow, id: NodeId, k: EdgeKey)
    requires UserPlan(db, scope, node, u).Some?
    ensures id in Ids(UserPlan(db, scope, node, u).value) <==> UserHas(db, scope, node, u, id)
    ensures k in EdgeKeys(UserPlan(db, scope, node, u).value) <==> UserJoins(db, scope, node, u, k)
  {
    CaseGraph.NodeIds(node, UserShown(u.fullName, false));
    CaseGraph.TableAdds(db.assignments, CaseOfUser(db, scope, u.id), AssignedCaseCmds(node),
                        (a: Assignment) => Some(CaseId(a.inCase)),
                        (a: Assignment) => EdgeKey(node, CaseId(a.inCase), Recorded), id, k);
    IdsConcat([AddNode(node, UserShown(u.fullName, false))],
              Flat(Filter(db.assignments, CaseOfUser(db, scope, u.id)), AssignedCaseCmds(node)));
  }

  lemma ExamParts(db: Db, x: ExamRow)
    ensures var node := ExamId(x);
            var cs := ExamPlan(db, node, x);
            var first := [AddNode(node, ShowExam(x))]
              + NodeAndEdge(CaseId(x.inCase), ShowCase(x.inCase), CaseId(x.inCase), node, Recorded, Examination);
            var items := Flat(Filter(db.links, LinkOfExam(x.id)), LinkedItemCmds(node));
            var citing := Flat(Filter(db.cites, CiteOfExam(x.id)), CitingCmds(node));
            var found := Flat(Filter(db.artifacts, ArtifactOfExam(x.id)), FoundByCmds(node));
            && Ids(cs) == Ids(first) + Ids(items) + Ids(citing) + Ids(found)
            && EdgeKeys(cs) == EdgeKeys(first) + EdgeKeys(items) + EdgeKeys(citing) + EdgeKeys(found)
  {
    var node := ExamId(x);
    var s1 := [AddNode(node, ShowExam(x))]
      + NodeAndEdge(CaseId(x.inCase), ShowCase(x.inCase), CaseId(x.inCase), node, Recorded, Examination);
    var items := Flat(Filter(db.links, LinkOfExam(x.id)), LinkedItemCmds(node));
    var citing := Flat(Filter(db.cites, CiteOfExam(x.id)), CitingCmds(node));
    IdsConcat(s1, items);
    IdsConcat(s1 + items, citing);
    IdsConcat(s1 + items + citing, Flat(Filter(db.artifacts, ArtifactOfExam(x.id)), FoundByCmds(node)));
  }

  lemma ItemsOfExamAre(db: Db, x: ExamRow, id: NodeId, k: EdgeKey)
    ensures var cs := Flat(Filter(db.links, LinkOfExam(x.id)), LinkedItemCmds(ExamId(x)));
            (id in Ids(cs) <==> ItemOfExam(db, x, id)) && (k in EdgeKeys(cs) <==> ItemOfExamEdge(db, x, k))
  {
    var node := ExamId(x);
    CaseGraph.TableAdds(db.links, LinkOfExam(x.id), LinkedItemCmds(node), (l: LinkRow) => Some(EvidenceId(l.evidence)),
                        (l: LinkRow) => EdgeKey(node, EvidenceId(l.evidence), Recorded), id, k);
  }

  lemma CitingAre(db: Db, x: ExamRow, id: NodeId, k: EdgeKey)
    ensures var cs := Flat(Filter(db.cites, CiteOfExam(x.id)), CitingCmds(ExamId(x)));
            (id in Ids(cs) <==> CitingReport(db, x, id)) && (k in EdgeKeys(cs) <==> CitingEdge(db, x, k))
  {
    var node := ExamId(x);
    CaseGraph.TableAdds(db.cites, CiteOfExam(x.id), CitingCmds(node), (t: CiteRow) => Some(ReportId(t.report)),
                        (t: CiteRow) => EdgeKey(ReportId(t.report), node, Recorded), id, k);
  }

  lemma FoundByAre(db: Db, x: ExamRow, id: NodeId, k: EdgeKey)
    ensures var cs := Flat(Filter(db.artifacts, ArtifactOfExam(x.id)), FoundByCmds(ExamId(x)));
            (id in Ids(cs) <==> FoundByExam(db, x, id)) && (k in EdgeKeys(cs) <==> FoundByEdge(db, x, k))
  {
    var node := ExamId(x);
    CaseGraph.TableAdds(db.artifacts, ArtifactOfExam(x.id), FoundByCmds(node), (a: ArtifactRow) => Some(ArtifactId(a)),
                        (a: ArtifactRow) => EdgeKey(node, ArtifactId(a), Recorded), id, k);
  }

  lemma ExamIs(db: Db, x: ExamRow, id: NodeId, k: EdgeKey)
    ensures id in Ids(ExamPlan(db, ExamId(x), x)) <==> ExamHas(db, x, id)
    ensures k in EdgeKeys(ExamPlan(db, ExamId(x), x)) <==> ExamJoins(db, x, k)
  {
    ExamParts(db, x);
    OpeningIs(ExamId(x), ShowExam(x), CaseId(x.inCase), ShowCase(x.inCase), ExamId(x), Examination);
    ItemsOfExamAre(db, x, id, k);
    CitingAre(db, x, id, k);
    FoundByAre(db, x, id, k);
  }

  lemma ReportIs(db: Db, r: ReportRow, id: NodeId, k: EdgeKey)
    ensures id in Ids(ReportPlan(db, ReportId(r), r)) <==> ReportHas(db, r, id)
    ensures k in EdgeKeys(ReportPlan(db, ReportId(r), r)) <==> ReportJoins(db, r, k)
  {
    var node := ReportId(r);
    OpeningIs(node, ShowReport(r), CaseId(r.inCase), ShowCase(r.inCase), node, Report);
    CaseGraph.TableAdds(db.cites, CiteOfReport(r.id), CitedCmds(node),
                        (t: CiteRow) => Some(ExamId(t.exam)), (t: CiteRow) => EdgeKey(node, ExamId(t.exam), Recorded), id, k);
    IdsConcat([AddNode(node, ShowReport(r))]
              + NodeAndEdge(CaseId(r.inCase), ShowCase(r.inCase), CaseId(r.inCase), node, Recorded, Report),
              Flat(Filter(db.cites, CiteOfReport(r.id)), CitedCmds(node)));
  }

  lemma ArtifactIs(db: Db, scope: Scope, a: ArtifactRow, id: NodeId, k: EdgeKey)
    ensures id in Ids(ArtifactPlan(db, scope, ArtifactId(a), a)) <==> ArtifactHas(db, scope, a, id)
    ensures k in EdgeKeys(ArtifactPlan(db, scope, ArtifactId(a), a)) <==> ArtifactJoins(db, scope, a, k)
  {
    var node := ArtifactId(a);
    var s1 := [AddNode(node, ShowArtifact(a))]
      + NodeAndEdge(ExamId(a.exam), ShowExam(a.exam), ExamId(a.exam), node, Recorded, FoundArtifact);
    OpeningIs(node, ShowArtifact(a), ExamId(a.exam), ShowExam(a.exam), node, FoundArtifact);
    HashOfIs(db, scope, a.sha, id, k);
    var item: seq<Cmd> := [];
    if a.evidence.Some? {
      var e := a.evidence.value;
      item := NodeAndEdge(EvidenceId(e), ShowEvidence(e, None), node, EvidenceId(e), Recorded, FoundIn);
      CaseGraph.PairIds(EvidenceId(e), ShowEvidence(e, None), node, EvidenceId(e), Recorded, FoundIn);
    }
    IdsConcat(s1, item);
    IdsConcat(s1 + item, HashOf(db, scope, a.sha));
  }

  // ---------------------------------------------------------------------------
  // Found, and exact
  // ---------------------------------------------------------------------------

  ghost predicate IsAssigned(db: Db, user: nat, caseId: nat) {
    exists a | a in db.assignments :: a.inCase.id == caseId && a.user.id == user
  }

  ghost predicate InVisibleCase(db: Db, scope: Scope, user: nat) {
    exists a | a in db.assignments :: a.user.id == user && IsAssigned(db, scope.user, a.inCase.id)
  }

  /** A record that exists, in a case that the user is assigned to or may see with the whole lab. */
  ghost predicate Finds(db: Db, scope: Scope, node: NodeId) {
    match node
    case HashId(_) => true
    case Id(kind, _, key) =>
      match kind
      case CaseNode => exists c | c in db.cases :: c.id == key && (scope.labWide || IsAssigned(db, scope.user, c.id))
      case EvidenceNode =>
        exists e | e in db.evidence :: e.id == key && (scope.labWide || IsAssigned(db, scope.user, e.inCase.id))
      case ExamNode => exists x | x in db.exams :: x.id == key && (scope.labWide || IsAssigned(db, scope.user, x.inCase.id))
      case ReportNode =>
        exists r | r in db.reports :: r.id == key && (scope.labWide || IsAssigned(db, scope.user, r.inCase.id))
      case ArtifactNode =>
        exists a | a in db.artifacts :: a.id == key && (scope.labWide || IsAssigned(db, scope.user, a.exam.inCase.id))
      case RuleNode => exists r | r in db.rules :: r.id == key
      case UserNode =>
        && (exists u | u in db.users :: u.id == key)
        && (scope.labWide || InVisibleCase(db, scope, key))
  }

  lemma FoundIff<R>(rows: seq<R>, p: R -> bool)
    ensures First(Filter(rows, p)).Some? <==> exists r :: r in rows && p(r)
    ensures First(Filter(rows, p)).Some? ==> First(Filter(rows, p)).value in rows && p(First(Filter(rows, p)).value)
  {
    FilterIn(rows, p);
    var kept := Filter(rows, p);
    if kept != [] {
      assert kept[0] in kept;
    }
    if r :| r in rows && p(r) {
      assert r in kept;
    }
  }

  lemma CaseIsFound(db: Db, scope: Scope, reference: string)
    ensures CaseByReference(db, scope, reference).Some? <==>
      exists c | c in db.cases :: c.reference == reference && (scope.labWide || IsAssigned(db, scope.user, c.id))
    ensures var c := CaseByReference(db, scope, reference);
      c.Some? ==> c.value in db.cases && c.value.reference == reference && Sees(db, scope, c.value.id)
  {
    FoundIff(db.cases, CaseNamed(db, scope, reference));
    forall id: nat ensures Sees(db, scope, id) <==> scope.labWide || IsAssigned(db, scope.user, id) {
    }
  }

  lemma ExpandFinds(db: Db, scope: Scope, node: NodeId, shared: bool)
    ensures ExpandPlan(db, scope, node, shared).Some? <==> Finds(db, scope, node)
  {
    forall id: nat ensures Sees(db, scope, id) <==> scope.labWide || IsAssigned(db, scope.user, id) {
    }
    if node.Id? {
      match node.kind
      case CaseNode =>
        FoundIff(db.cases, CaseSeen(db, scope, node.key));
        var c := VisibleCase(db, scope, node.key);
        if c.Some? { FoundIff(db.cases, CaseNamed(db, scope, c.value.reference)); }
      case EvidenceNode => FoundIff(db.evidence, EvidenceSeen(db, scope, node.key));
      case ExamNode => FoundIff(db.exams, ExamSeen(db, scope, node.key));
      case ReportNode => FoundIff(db.reports, ReportSeen(db, scope, node.key));
      case ArtifactNode => FoundIff(db.artifacts, ArtifactSeen(db, scope, node.key));
      case RuleNode => FoundIff(db.rules, (r: RuleRow) => r.id == node.key);
      case UserNode => UserIsFound(db, scope, node);
    }
  }

  lemma SeesIs(db: Db, scope: Scope, id: nat)
    ensures Sees(db, scope, id) <==> scope.labWide || IsAssigned(db, scope.user, id)
  {
  }

  lemma HasVisibleCase(db: Db, scope: Scope, user: nat)
    requires !scope.labWide
    ensures Filter(db.assignments, CaseOfUser(db, scope, user)) != [] <==> InVisibleCase(db, scope, user)
  {
    var p := CaseOfUser(db, scope, user);
    FoundIff(db.assignments, p);
    if a :| a in db.assignments && p(a) { SeesIs(db, scope, a.inCase.id); }
    if a :| a in db.assignments && a.user.id == user && IsAssigned(db, scope.user, a.inCase.id) {
      SeesIs(db, scope, a.inCase.id);
      assert p(a);
    }
  }

  lemma UserIsFound(db: Db, scope: Scope, node: NodeId)
    requires node.Id? && node.kind.UserNode?
    ensures ExpandPlan(db, scope, node, false).Some? <==> Finds(db, scope, node)
  {
    FoundIff(db.users, (u: UserRow) => u.id == node.key);
    if !scope.labWide { HasVisibleCase(db, scope, node.key); }
  }

  /** What expanding the record with this key shows and draws: the visible row of its table. */
  ghost predicate CaseShows(db: Db, scope: Scope, key: nat, shared: bool, id: NodeId) {
    exists c | c in db.cases :: c.id == key && Sees(db, scope, c.id) && CaseGraph.NodeOf(db, scope, c, shared, id)
  }

  ghost predicate CaseDraws(db: Db, scope: Scope, key: nat, shared: bool, k: EdgeKey) {
    exists c | c in db.cases :: c.id == key && Sees(db, scope, c.id) && CaseGraph.EdgeOf(db, scope, c, shared, k)
  }

  ghost predicate ItemShows(db: Db, scope: Scope, key: nat, id: NodeId) {
    exists e | e in db.evidence :: e.id == key && Sees(db, scope, e.inCase.id) && ItemHas(db, scope, e, id)
  }

  ghost predicate ItemDraws(db: Db, scope: Scope, key: nat, k: EdgeKey) {
    exists e | e in db.evidence :: e.id == key && Sees(db, scope, e.inCase.id) && ItemJoins(db, scope, e, k)
  }

  ghost predicate ExamShows(db: Db, scope: Scope, key: nat, id: NodeId) {
    exists x | x in db.exams :: x.id == key && Sees(db, scope, x.inCase.id) && ExamHas(db, x, id)
  }

  ghost predicate ExamDraws(db: Db, scope: Scope, key: nat, k: EdgeKey) {
    exists x | x in db.exams :: x.id == key && Sees(db, scope, x.inCase.id) && ExamJoins(db, x, k)
  }

  ghost predicate ReportShows(db: Db, scope: Scope, key: nat, id: NodeId) {
    exists r | r in db.reports :: r.id == key && Sees(db, scope, r.inCase.id) && ReportHas(db, r, id)
  }

  ghost predicate ReportDraws(db: Db, scope: Scope, key: nat, k: EdgeKey) {
    exists r | r in db.reports :: r.id == key && Sees(db, scope, r.inCase.id) && ReportJoins(db, r, k)
  }

  ghost predicate ArtifactShows(db: Db, scope: Scope, key: nat, id: NodeId) {
    exists a | a in db.artifacts :: a.id == key && Sees(db, scope, a.exam.inCase.id) && ArtifactHas(db, scope, a, id)
  }

  ghost predicate ArtifactDraws(db: Db, scope: Scope, key: nat, k: EdgeKey) {
    exists a | a in db.artifacts :: a.id == key && Sees(db, scope, a.exam.inCase.id) && ArtifactJoins(db, scope, a, k)
  }

  ghost predicate RuleShows(db: Db, scope: Scope, key: nat, id: NodeId) {
    exists r | r in db.rules :: r.id == key && RuleHas(db, scope, r, id)
  }

  ghost predicate RuleDraws(db: Db, scope: Scope, key: nat, k: EdgeKey) {
    exists r | r in db.rules :: r.id == key && RuleJoins(db, scope, r, k)
  }

  ghost predicate UserShows(db: Db, scope: Scope, node: NodeId, id: NodeId)
    requires node.Id?
  {
    exists u | u in db.users :: u.id == node.key && UserHas(db, scope, node, u, id)
  }

  ghost predicate UserDraws(db: Db, scope: Scope, node: NodeId, k: EdgeKey)
    requires node.Id?
  {
    exists u | u in db.users :: u.id == node.key && UserJoins(db, scope, node, u, k)
  }

  /** The nodes that expanding this one shows. */
  ghost predicate Shows(db: Db, scope: Scope, node: NodeId, shared: bool, id: NodeId) {
    match node
    case HashId(value) => HashHas(db, scope, value, id)
    case Id(kind, _, key) =>
      match kind
      case CaseNode => CaseShows(db, scope, key, shared, id)
      case EvidenceNode => ItemShows(db, scope, key, id)
      case ExamNode => ExamShows(db, scope, key, id)
      case ReportNode => ReportShows(db, scope, key, id)
      case ArtifactNode => ArtifactShows(db, scope, key, id)
      case RuleNode => RuleShows(db, scope, key, id)
      case UserNode => UserShows(db, scope, node, id)
  }

  ghost predicate Draws(db: Db, scope: Scope, node: NodeId, shared: bool, k: EdgeKey) {
    match node
    case HashId(value) => HashJoins(db, scope, value, k)
    case Id(kind, _, key) =>
      match kind
      case CaseNode => CaseDraws(db, scope, key, shared, k)
      case EvidenceNode => ItemDraws(db, scope, key, k)
      case ExamNode => ExamDraws(db, scope, key, k)
      case ReportNode => ReportDraws(db, scope, key, k)
      case ArtifactNode => ArtifactDraws(db, scope, key, k)
      case RuleNode => RuleDraws(db, scope, key, k)
      case UserNode => UserDraws(db, scope, node, k)
  }

  /** Within the cap, exactly these nodes and edges; otherwise 250 of the nodes. */
  ghost predicate IsExact(db: Db, scope: Scope, node: NodeId, shared: bool, g: GraphValue) {
    && WellFormed(g)
    && (forall id | id in g.nodes :: Shows(db, scope, node, shared, id))
    && (!g.truncated ==>
          && (forall id :: id in g.nodes <==> Shows(db, scope, node, shared, id))
          && (forall k :: k in g.edges <==> Draws(db, scope, node, shared, k)))
    && (g.truncated ==> |g.nodes| == 250 && exists id :: Shows(db, scope, node, shared, id) && id !in g.nodes)
  }

  /** The id was written without leading zeros, or they make no difference. */
  predicate Plain(node: NodeId) {
    node.HashId? || node.kind.CaseNode? || node.kind.UserNode? || node.zeros == 0
  }

  lemma OnlyCase(db: Db, c: CaseRow)
    requires Valid(db) && c in db.cases
    ensures forall d | d in db.cases && d.id == c.id :: d == c
  {
  }

  lemma CaseIsThe(db: Db, scope: Scope, c: CaseRow, shared: bool, id: NodeId, k: EdgeKey)
    requires Valid(db) && c in db.cases && Sees(db, scope, c.id)
    ensures CaseShows(db, scope, c.id, shared, id) <==> CaseGraph.NodeOf(db, scope, c, shared, id)
    ensures CaseDraws(db, scope, c.id, shared, k) <==> CaseGraph.EdgeOf(db, scope, c, shared, k)
  {
    OnlyCase(db, c);
    if CaseShows(db, scope, c.id, shared, id) {
      var d :| d in db.cases && d.id == c.id && Sees(db, scope, d.id) && CaseGraph.NodeOf(db, scope, d, shared, id);
    }
    if CaseDraws(db, scope, c.id, shared, k) {
      var d :| d in db.cases && d.id == c.id && Sees(db, scope, d.id) && CaseGraph.EdgeOf(db, scope, d, shared, k);
    }
  }

  lemma CaseAsked(db: Db, scope: Scope, node: NodeId, shared: bool, id: NodeId, k: EdgeKey)
    requires Valid(db) && node.Id? && node.kind.CaseNode? && ExpandPlan(db, scope, node, shared).Some?
    ensures var cs := ExpandPlan(db, scope, node, shared).value;
      && (id in Ids(cs) <==> CaseShows(db, scope, node.key, shared, id))
      && (k in EdgeKeys(cs) <==> CaseDraws(db, scope, node.key, shared, k))
  {
    FoundIff(db.cases, CaseSeen(db, scope, node.key));
    var c := VisibleCase(db, scope, node.key).value;
    CaseIsFound(db, scope, c.reference);
    assert CaseByReference(db, scope, c.reference).value == c;
    CaseGraph.NodesAre(db, scope, c, shared, id);
    CaseGraph.EdgesAre(db, scope, c, shared, k);
    CaseIsThe(db, scope, c, shared, id, k);
  }

  lemma ItemIsThe(db: Db, scope: Scope, e: EvidenceRow, id: NodeId, k: EdgeKey)
    requires Valid(db) && e in db.evidence && Sees(db, scope, e.inCase.id)
    ensures ItemShows(db, scope, e.id, id) <==> ItemHas(db, scope, e, id)
    ensures ItemDraws(db, scope, e.id, k) <==> ItemJoins(db, scope, e, k)
  {
  }

  lemma ItemAsked(db: Db, scope: Scope, node: NodeId, shared: bool, id: NodeId, k: EdgeKey)
    requires Valid(db) && node.Id? && node.kind.EvidenceNode? && node.zeros == 0 && ExpandPlan(db, scope, node, shared).Some?
    ensures var cs := ExpandPlan(db, scope, node, shared).value;
      && (id in Ids(cs) <==> ItemShows(db, scope, node.key, id))
      && (k in EdgeKeys(cs) <==> ItemDraws(db, scope, node.key, k))
  {
    FoundIff(db.evidence, EvidenceSeen(db, scope, node.key));
    var e := VisibleEvidence(db, scope, node.key).value;
    ItemIs(db, scope, e, id, k);
    ItemIsThe(db, scope, e, id, k);
  }

  lemma ExamIsThe(db: Db, scope: Scope, x: ExamRow, id: NodeId, k: EdgeKey)
    requires Valid(db) && x in db.exams && Sees(db, scope, x.inCase.id)
    ensures ExamShows(db, scope, x.id, id) <==> ExamHas(db, x, id)
    ensures ExamDraws(db, scope, x.id, k) <==> ExamJoins(db, x, k)
  {
  }

  lemma ExamAsked(db: Db, scope: Scope, node: NodeId, shared: bool, id: NodeId, k: EdgeKey)
    requires Valid(db) && node.Id? && node.kind.ExamNode? && node.zeros == 0 && ExpandPlan(db, scope, node, shared).Some?
    ensures var cs := ExpandPlan(db, scope, node, shared).value;
      && (id in Ids(cs) <==> ExamShows(db, scope, node.key, id))
      && (k in EdgeKeys(cs) <==> ExamDraws(db, scope, node.key, k))
  {
    FoundIff(db.exams, ExamSeen(db, scope, node.key));
    var x := VisibleExam(db, scope, node.key).value;
    ExamIs(db, x, id, k);
    ExamIsThe(db, scope, x, id, k);
  }

  lemma ReportIsThe(db: Db, scope: Scope, r: ReportRow, id: NodeId, k: EdgeKey)
    requires Valid(db) && r in db.reports && Sees(db, scope, r.inCase.id)
    ensures ReportShows(db, scope, r.id, id) <==> ReportHas(db, r, id)
    ensures ReportDraws(db, scope, r.id, k) <==> ReportJoins(db, r, k)
  {
  }

  lemma ReportAsked(db: Db, scope: Scope, node: NodeId, shared: bool, id: NodeId, k: EdgeKey)
    requires Valid(db) && node.Id? && node.kind.ReportNode? && node.zeros == 0 && ExpandPlan(db, scope, node, shared).Some?
    ensures var cs := ExpandPlan(db, scope, node, shared).value;
      && (id in Ids(cs) <==> ReportShows(db, scope, node.key, id))
      && (k in EdgeKeys(cs) <==> ReportDraws(db, scope, node.key, k))
  {
    FoundIff(db.reports, ReportSeen(db, scope, node.key));
    var r := VisibleReport(db, scope, node.key).value;
    ReportIs(db, r, id, k);
    ReportIsThe(db, scope, r, id, k);
  }

  lemma ArtifactIsThe(db: Db, scope: Scope, a: ArtifactRow, id: NodeId, k: EdgeKey)
    requires Valid(db) && a in db.artifacts && Sees(db, scope, a.exam.inCase.id)
    ensures ArtifactShows(db, scope, a.id, id) <==> ArtifactHas(db, scope, a, id)
    ensures ArtifactDraws(db, scope, a.id, k) <==> ArtifactJoins(db, scope, a, k)
  {
  }

  lemma ArtifactAsked(db: Db, scope: Scope, node: NodeId, shared: bool, id: NodeId, k: EdgeKey)
    requires Valid(db) && node.Id? && node.kind.ArtifactNode? && node.zeros == 0 && ExpandPlan(db, scope, node, shared).Some?
    ensures var cs := ExpandPlan(db, scope, node, shared).value;
      && (id in Ids(cs) <==> ArtifactShows(db, scope, node.key, id))
      && (k in EdgeKeys(cs) <==> ArtifactDraws(db, scope, node.key, k))
  {
    FoundIff(db.artifacts, ArtifactSeen(db, scope, node.key));
    var a := VisibleArtifact(db, scope, node.key).value;
    ArtifactIs(db, scope, a, id, k);
    ArtifactIsThe(db, scope, a, id, k);
  }

  lemma RuleIsThe(db: Db, scope: Scope, r: RuleRow, id: NodeId, k: EdgeKey)
    requires Valid(db) && r in db.rules
    ensures RuleShows(db, scope, r.id, id) <==> RuleHas(db, scope, r, id)
    ensures RuleDraws(db, scope, r.id, k) <==> RuleJoins(db, scope, r, k)
  {
  }

  lemma RuleAsked(db: Db, scope: Scope, node: NodeId, shared: bool, id: NodeId, k: EdgeKey)
    requires Valid(db) && node.Id? && node.kind.RuleNode? && node.zeros == 0 && ExpandPlan(db, scope, node, shared).Some?
    ensures var cs := ExpandPlan(db, scope, node, shared).value;
      && (id in Ids(cs) <==> RuleShows(db, scope, node.key, id))
      && (k in EdgeKeys(cs) <==> RuleDraws(db, scope, node.key, k))
  {
    FoundIff(db.rules, (r: RuleRow) => r.id == node.key);
    var r := RuleByKey(db, node.key).value;
    RuleIs(db, scope, r, id, k);
    RuleIsThe(db, scope, r, id, k);
  }

  lemma UserIsThe(db: Db, scope: Scope, node: NodeId, u: UserRow, id: NodeId, k: EdgeKey)
    requires Valid(db) && node.Id? && node.key == u.id && u in db.users
    ensures UserShows(db, scope, node, id) <==> UserHas(db, scope, node, u, id)
    ensures UserDraws(db, scope, node, k) <==> UserJoins(db, scope, node, u, k)
  {
  }

  lemma UserAsked(db: Db, scope: Scope, node: NodeId, shared: bool, id: NodeId, k: EdgeKey)
    requires Valid(db) && node.Id? && node.kind.UserNode? && ExpandPlan(db, scope, node, shared).Some?
    ensures var cs := ExpandPlan(db, scope, node, shared).value;
      && (id in Ids(cs) <==> UserShows(db, scope, node, id))
      && (k in EdgeKeys(cs) <==> UserDraws(db, scope, node, k))
  {
    FoundIff(db.users, (u: UserRow) => u.id == node.key);
    var u := UserByKey(db, node.key).value;
    UserIs(db, scope, node, u, id, k);
    UserIsThe(db, scope, node, u, id, k);
  }

  lemma Asked(db: Db, scope: Scope, node: NodeId, shared: bool, id: NodeId, k: EdgeKey)
    requires Valid(db) && Plain(node) && ExpandPlan(db, scope, node, shared).Some?
    ensures var cs := ExpandPlan(db, scope, node, shared).value;
            (id in Ids(cs) <==> Shows(db, scope, node, shared, id)) && (k in EdgeKeys(cs) <==> Draws(db, scope, node, shared, k))
  {
    match node
    case HashId(value) => HashOfIs(db, scope, Some(value), id, k);
    case Id(kind, _, _) =>
      match kind
      case CaseNode => CaseAsked(db, scope, node, shared, id, k);
      case EvidenceNode => ItemAsked(db, scope, node, shared, id, k);
      case ExamNode => ExamAsked(db, scope, node, shared, id, k);
      case ReportNode => ReportAsked(db, scope, node, shared, id, k);
      case ArtifactNode => ArtifactAsked(db, scope, node, shared, id, k);
      case RuleNode => RuleAsked(db, scope, node, shared, id, k);
      case UserNode => UserAsked(db, scope, node, shared, id, k);
  }

  lemma UserPlanFirst(db: Db, scope: Scope, node: NodeId, u: UserRow)
    requires node.Id? && node.kind.UserNode? && UserPlan(db, scope, node, u).Some?
    ensures NodesFirst(UserPlan(db, scope, node, u).value, {})
  {
    var own := [AddNode(node, UserShown(u.fullName, false))];
    CaseGraph.NodeIds(node, UserShown(u.fullName, false));
    NeighboursFirst(db.assignments, CaseOfUser(db, scope, u.id), AssignedCaseCmds(node), node, Ids(own));
    ThenFirst(own, Flat(Filter(db.assignments, CaseOfUser(db, scope, u.id)), AssignedCaseCmds(node)));
  }

  lemma PlanFirst(db: Db, scope: Scope, node: NodeId, shared: bool)
    requires Valid(db) && Plain(node) && ExpandPlan(db, scope, node, shared).Some?
    ensures NodesFirst(ExpandPlan(db, scope, node, shared).value, {})
  {
    match node
    case HashId(value) => CaseGraph.HashesFirst(db, scope, [value], false, None, {});
    case Id(kind, _, key) =>
      match kind
      case CaseNode =>
        var c := VisibleCase(db, scope, key).value;
        CaseGraph.CaseNodesFirst(db, scope, CaseByReference(db, scope, c.reference).value, shared);
      case UserNode => UserPlanFirst(db, scope, node, UserByKey(db, key).value);
      case _ => PlainPlanFirst(db, scope, node, shared);
  }

  /**
   An expansion that is not truncated has exactly the nodes and edges that the records say of the node
   asked for; a truncated one has MAX_NODES of the nodes.
   */
  lemma ExpansionIsExact(db: Db, scope: Scope, node: NodeId, shared: bool)
    requires Valid(db) && Plain(node) && ExpandPlan(db, scope, node, shared).Some?
    ensures IsExact(db, scope, node, shared, Apply(EMPTY, ExpandPlan(db, scope, node, shared).value))
  {
    var cs := ExpandPlan(db, scope, node, shared).value;
    var g := Apply(EMPTY, cs);
    GraphIsCapped(cs);
    forall id ensures id in Ids(cs) <==> Shows(db, scope, node, shared, id) {
      Asked(db, scope, node, shared, id, EdgeKey(id, id, Recorded));
    }
    if g.truncated {
      assert exists id :: id in Ids(cs) && id !in g.nodes;
    } else {
      PlanFirst(db, scope, node, shared);
      AllEdgesDrawn(cs);
      forall k ensures k in g.edges <==> Draws(db, scope, node, shared, k) {
        Asked(db, scope, node, shared, node, k);
      }
    }
  }
}
