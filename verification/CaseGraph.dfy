/**
 What the graph of a case contains (case_graph in app/graph/services.py:169-213), said without the
 queries and loops that build it.
 */
module CaseGraph {
  import opened Wrappers
  import opened Content
  import opened Graph
  import opened Relationships

  /** A hash of the case: of an item of it, or of an artifact found in it. */
  predicate HashOfCase(db: Db, c: CaseRow, value: Digest) {
    || (exists e | e in db.evidence :: e.inCase.id == c.id && e.hash == Some(value))
    || (exists a | a in db.artifacts :: a.exam.inCase.id == c.id && a.sha == Some(value))
  }

  /** In shared mode a hash is shown if and only if at least two visible items or artifacts have it. */
  predicate HashShows(db: Db, scope: Scope, c: CaseRow, shared: bool, value: Digest) {
    HashOfCase(db, c, value) && (shared ==> |Holders(db, scope, value)| >= 2)
  }

  predicate ItemShows(db: Db, scope: Scope, c: CaseRow, shared: bool, e: EvidenceRow) {
    || e.inCase.id == c.id
    || (Sees(db, scope, e.inCase.id) && e.hash.Some? && HashShows(db, scope, c, shared, e.hash.value))
  }

  predicate ArtifactShows(db: Db, scope: Scope, c: CaseRow, shared: bool, a: ArtifactRow) {
    || a.exam.inCase.id == c.id
    || (Sees(db, scope, a.exam.inCase.id) && a.sha.Some? && HashShows(db, scope, c, shared, a.sha.value))
  }

  ghost predicate NodeOf(db: Db, scope: Scope, c: CaseRow, shared: bool, id: NodeId) {
    match id
    case HashId(value) => HashShows(db, scope, c, shared, value)
    case Id(kind, zeros, key) =>
      && zeros == 0
      && match kind
         case CaseNode => key == c.id
         case UserNode => exists a | a in db.assignments :: a.inCase.id == c.id && a.user.id == key
         case ExamNode => exists x | x in db.exams :: x.inCase.id == c.id && x.id == key
         case ReportNode => exists r | r in db.reports :: r.inCase.id == c.id && r.id == key
         case RuleNode => exists m | m in db.matches :: m.evidence.inCase.id == c.id && m.rule.id == key
         case EvidenceNode => exists e | e in db.evidence :: ItemShows(db, scope, c, shared, e) && e.id == key
         case ArtifactNode => exists a | a in db.artifacts :: ArtifactShows(db, scope, c, shared, a) && a.id == key
  }

  ghost predicate EdgeOf(db: Db, scope: Scope, c: CaseRow, shared: bool, k: EdgeKey) {
    RecordEdge(db, c, k) || MatchEdge(db, c, k) || HashEdge(db, scope, c, shared, k)
  }

  /** A link someone recorded. */
  ghost predicate RecordEdge(db: Db, c: CaseRow, k: EdgeKey) {
    || (exists a | a in db.assignments :: a.inCase.id == c.id && k == EdgeKey(UserId(a.user), CaseId(c), Recorded))
    || (exists e | e in db.evidence :: e.inCase.id == c.id && k == EdgeKey(CaseId(c), EvidenceId(e), Recorded))
    || (exists x | x in db.exams :: x.inCase.id == c.id && k == EdgeKey(CaseId(c), ExamId(x), Recorded))
    || (exists l | l in db.links :: l.exam.inCase.id == c.id && k == EdgeKey(ExamId(l.exam), EvidenceId(l.evidence), Recorded))
    || (exists r | r in db.reports :: r.inCase.id == c.id && k == EdgeKey(CaseId(c), ReportId(r), Recorded))
    || (exists t | t in db.cites :: t.report.inCase.id == c.id && k == EdgeKey(ReportId(t.report), ExamId(t.exam), Recorded))
    || (exists a | a in db.artifacts :: a.exam.inCase.id == c.id && ArtifactEdge(a, k))
  }

  /** The outcome of the latest completed scan. */
  ghost predicate MatchEdge(db: Db, c: CaseRow, k: EdgeKey) {
    exists m | m in db.matches :: m.evidence.inCase.id == c.id && k == EdgeKey(EvidenceId(m.evidence), RuleId(m.rule), Outcome)
  }

  predicate ArtifactEdge(a: ArtifactRow, k: EdgeKey) {
    || k == EdgeKey(ExamId(a.exam), ArtifactId(a), Recorded)
    || (a.evidence.Some? && k == EdgeKey(ArtifactId(a), EvidenceId(a.evidence.value), Recorded))
  }

  ghost predicate HashEdge(db: Db, scope: Scope, c: CaseRow, shared: bool, k: EdgeKey) {
    && k.kind == Identity && k.target.HashId?
    && HashShows(db, scope, c, shared, k.target.value)
    && exists h | h in Holders(db, scope, k.target.value) :: k.source == HolderId(h)
  }

  // ---------------------------------------------------------------------------
  // What one row adds
  // ---------------------------------------------------------------------------

  lemma PairIds(id: NodeId, shown: Shown, source: NodeId, target: NodeId, kind: EdgeKind, text: EdgeLabel)
    ensures Ids(NodeAndEdge(id, shown, source, target, kind, text)) == {id}
    ensures EdgeKeys(NodeAndEdge(id, shown, source, target, kind, text)) == {EdgeKey(source, target, kind)}
  {
    var cs := NodeAndEdge(id, shown, source, target, kind, text);
    assert cs[0].id == id && cs[1].key == EdgeKey(source, target, kind);
  }

  lemma EdgeIds(source: NodeId, target: NodeId, kind: EdgeKind, text: EdgeLabel)
    ensures Ids(OnlyEdge(source, target, kind, text)) == {}
    ensures EdgeKeys(OnlyEdge(source, target, kind, text)) == {EdgeKey(source, target, kind)}
  {
    assert OnlyEdge(source, target, kind, text)[0].key == EdgeKey(source, target, kind);
  }

  lemma NodeIds(id: NodeId, shown: Shown)
    ensures Ids([AddNode(id, shown)]) == {id} && EdgeKeys([AddNode(id, shown)]) == {}
  {
    assert [AddNode(id, shown)][0].id == id;
  }

  lemma PairFirst(id: NodeId, shown: Shown, source: NodeId, target: NodeId, kind: EdgeKind, text: EdgeLabel,
      before: set<NodeId>)
    requires source in before + {id} && target in before + {id} && source != target
    ensures NodesFirst(NodeAndEdge(id, shown, source, target, kind, text), before)
  {
    var cs := NodeAndEdge(id, shown, source, target, kind, text);
    assert cs[..1] == [AddNode(id, shown)];
    NodeIds(id, shown);
  }

  /** The nodes and edges of a query's rows are those of its rows. */
  lemma RowIds<R>(rows: seq<R>, p: R -> bool, f: R -> seq<Cmd>, id: NodeId)
    ensures id in Ids(Flat(Filter(rows, p), f)) <==> exists r :: r in rows && p(r) && id in Ids(f(r))
  {
    FilterIn(rows, p);
    FlatIds(Filter(rows, p), f);
    var kept := Filter(rows, p);
    if r :| r in rows && p(r) && id in Ids(f(r)) {
      var i :| 0 <= i < |kept| && kept[i] == r;
      assert id in Ids(f(kept[i]));
    }
    if id in Ids(Flat(kept, f)) {
      var i :| 0 <= i < |kept| && id in Ids(f(kept[i]));
      assert kept[i] in kept;
    }
  }

  lemma RowEdges<R>(rows: seq<R>, p: R -> bool, f: R -> seq<Cmd>, k: EdgeKey)
    ensures k in EdgeKeys(Flat(Filter(rows, p), f)) <==> exists r :: r in rows && p(r) && k in EdgeKeys(f(r))
  {
    FilterIn(rows, p);
    FlatEdges(Filter(rows, p), f);
    var kept := Filter(rows, p);
    if r :| r in rows && p(r) && k in EdgeKeys(f(r)) {
      var i :| 0 <= i < |kept| && kept[i] == r;
      assert k in EdgeKeys(f(kept[i]));
    }
    if k in EdgeKeys(Flat(kept, f)) {
      var i :| 0 <= i < |kept| && k in EdgeKeys(f(kept[i]));
      assert kept[i] in kept;
    }
  }

  /** A node and an edge; or an edge alone. */
  predicate Adds(cs: seq<Cmd>, id: Option<NodeId>, k: EdgeKey) {
    if id.Some? then |cs| == 2 && cs[0].AddNode? && cs[0].id == id.value && cs[1].AddEdge? && cs[1].key == k
    else |cs| == 1 && cs[0].AddEdge? && cs[0].key == k
  }

  lemma AddsIds(cs: seq<Cmd>, id: Option<NodeId>, k: EdgeKey)
    requires Adds(cs, id, k)
    ensures Ids(cs) == (if id.Some? then {id.value} else {}) && EdgeKeys(cs) == {k}
  {
    if id.Some? {
      assert cs == NodeAndEdge(id.value, cs[0].shown, k.source, k.target, k.kind, cs[1].text);
      PairIds(id.value, cs[0].shown, k.source, k.target, k.kind, cs[1].text);
    } else {
      assert cs == OnlyEdge(k.source, k.target, k.kind, cs[0].text);
      EdgeIds(k.source, k.target, k.kind, cs[0].text);
    }
  }

  /** The rows of a table that each add a node and an edge, or an edge alone. */
  lemma TableAdds<R>(
    rows: seq<R>, p: R -> bool, f: R -> seq<Cmd>, node: R -> Option<NodeId>, edge: R -> EdgeKey, id: NodeId, k: EdgeKey)
    requires forall r :: Adds(f(r), node(r), edge(r))
    ensures id in Ids(Flat(Filter(rows, p), f)) <==> exists r :: r in rows && p(r) && node(r) == Some(id)
    ensures k in EdgeKeys(Flat(Filter(rows, p), f)) <==> exists r :: r in rows && p(r) && k == edge(r)
  {
    forall r ensures id in Ids(f(r)) <==> node(r) == Some(id) ensures k in EdgeKeys(f(r)) <==> k == edge(r) {
      AddsIds(f(r), node(r), edge(r));
    }
    RowIds(rows, p, f, id);
    RowEdges(rows, p, f, k);
  }

  // ---------------------------------------------------------------------------
  // The records of the case
  // ---------------------------------------------------------------------------

  lemma PeopleAre(db: Db, c: CaseRow, id: NodeId, k: EdgeKey)
    ensures id in Ids(People(db, c)) <==> exists a | a in db.assignments :: a.inCase.id == c.id && id == UserId(a.user)
    ensures k in EdgeKeys(People(db, c))
       <==> exists a | a in db.assignments :: a.inCase.id == c.id && k == EdgeKey(UserId(a.user), CaseId(c), Recorded)
  {
    TableAdds(db.assignments, AssignmentIn(c.id), PersonCmds(CaseId(c)),
              (a: Assignment) => Some(UserId(a.user)), (a: Assignment) => EdgeKey(UserId(a.user), CaseId(c), Recorded), id, k);
  }

  lemma ItemsAre(db: Db, c: CaseRow, id: NodeId, k: EdgeKey)
    ensures id in Ids(CaseItems(db, c)) <==> exists e | e in db.evidence :: e.inCase.id == c.id && id == EvidenceId(e)
    ensures k in EdgeKeys(CaseItems(db, c))
       <==> exists e | e in db.evidence :: e.inCase.id == c.id && k == EdgeKey(CaseId(c), EvidenceId(e), Recorded)
  {
    TableAdds(db.evidence, EvidenceIn(c.id), EvidenceCmds(CaseId(c)),
              (e: EvidenceRow) => Some(EvidenceId(e)), (e: EvidenceRow) => EdgeKey(CaseId(c), EvidenceId(e), Recorded), id, k);
  }

  lemma ExamsAre(db: Db, c: CaseRow, id: NodeId, k: EdgeKey)
    ensures id in Ids(CaseExams(db, c)) <==> exists x | x in db.exams :: x.inCase.id == c.id && id == ExamId(x)
    ensures k in EdgeKeys(CaseExams(db, c))
       <==> exists x | x in db.exams :: x.inCase.id == c.id && k == EdgeKey(CaseId(c), ExamId(x), Recorded)
  {
    TableAdds(db.exams, ExamIn(c.id), ExamCmds(CaseId(c)),
              (x: ExamRow) => Some(ExamId(x)), (x: ExamRow) => EdgeKey(CaseId(c), ExamId(x), Recorded), id, k);
  }

  lemma LinksAre(db: Db, c: CaseRow, id: NodeId, k: EdgeKey)
    ensures id !in Ids(CaseLinks(db, c))
    ensures k in EdgeKeys(CaseLinks(db, c))
       <==> exists l | l in db.links ::
              l.exam.inCase.id == c.id && k == EdgeKey(ExamId(l.exam), EvidenceId(l.evidence), Recorded)
  {
    TableAdds(db.links, LinkIn(c.id), LinkCmds(),
              (l: LinkRow) => None, (l: LinkRow) => EdgeKey(ExamId(l.exam), EvidenceId(l.evidence), Recorded), id, k);
  }

  lemma ReportsAre(db: Db, c: CaseRow, id: NodeId, k: EdgeKey)
    ensures id in Ids(CaseReports(db, c)) <==> exists r | r in db.reports :: r.inCase.id == c.id && id == ReportId(r)
    ensures k in EdgeKeys(CaseReports(db, c))
       <==> exists r | r in db.reports :: r.inCase.id == c.id && k == EdgeKey(CaseId(c), ReportId(r), Recorded)
  {
    TableAdds(db.reports, ReportIn(c.id), ReportCmds(CaseId(c)),
              (r: ReportRow) => Some(ReportId(r)), (r: ReportRow) => EdgeKey(CaseId(c), ReportId(r), Recorded), id, k);
  }

  lemma CitesAre(db: Db, c: CaseRow, id: NodeId, k: EdgeKey)
    ensures id !in Ids(CaseCites(db, c))
    ensures k in EdgeKeys(CaseCites(db, c))
       <==> exists t | t in db.cites ::
              t.report.inCase.id == c.id && k == EdgeKey(ReportId(t.report), ExamId(t.exam), Recorded)
  {
    TableAdds(db.cites, CiteIn(c.id), CiteCmds(),
              (t: CiteRow) => None, (t: CiteRow) => EdgeKey(ReportId(t.report), ExamId(t.exam), Recorded), id, k);
  }

  lemma ArtifactAdds(a: ArtifactRow, k: EdgeKey)
    ensures Ids(ArtifactCmds()(a)) == {ArtifactId(a)}
    ensures k in EdgeKeys(ArtifactCmds()(a)) <==> ArtifactEdge(a, k)
  {
    var pair := NodeAndEdge(ArtifactId(a), ShowArtifact(a), ExamId(a.exam), ArtifactId(a), Recorded, FoundArtifact);
    PairIds(ArtifactId(a), ShowArtifact(a), ExamId(a.exam), ArtifactId(a), Recorded, FoundArtifact);
    if a.evidence.Some? {
      EdgeIds(ArtifactId(a), EvidenceId(a.evidence.value), Recorded, FoundIn);
      IdsConcat(pair, OnlyEdge(ArtifactId(a), EvidenceId(a.evidence.value), Recorded, FoundIn));
    } else {
      assert pair + [] == pair;
    }
  }

  lemma ArtifactsAre(db: Db, c: CaseRow, id: NodeId, k: EdgeKey)
    ensures id in Ids(CaseArtifacts(db, c)) <==> exists a | a in db.artifacts :: a.exam.inCase.id == c.id && id == ArtifactId(a)
    ensures k in EdgeKeys(CaseArtifacts(db, c))
       <==> exists a | a in db.artifacts :: a.exam.inCase.id == c.id && ArtifactEdge(a, k)
  {
    var f := ArtifactCmds();
    forall a: ArtifactRow ensures Ids(f(a)) == {ArtifactId(a)} && (k in EdgeKeys(f(a)) <==> ArtifactEdge(a, k)) {
      ArtifactAdds(a, k);
    }
    RowIds(db.artifacts, ArtifactIn(c.id), f, id);
    RowEdges(db.artifacts, ArtifactIn(c.id), f, k);
  }

  lemma MatchesAre(db: Db, c: CaseRow, m: MatchRow)
    requires Valid(db) && m in db.matches
    ensures m.evidence.id in IdsOf(Filter(db.evidence, EvidenceIn(c.id))) <==> m.evidence.inCase.id == c.id
  {
    var es := Filter(db.evidence, EvidenceIn(c.id));
    FilterIn(db.evidence, EvidenceIn(c.id));
    if m.evidence.id in IdsOf(es) {
      var e :| e in es && e.id == m.evidence.id;
      SameEvidence(db, e, m.evidence);
    } else {
      assert m.evidence in es ==> m.evidence.id in IdsOf(es);
    }
  }

  lemma YaraIs(db: Db, c: CaseRow, id: NodeId, k: EdgeKey)
    requires Valid(db)
    ensures id in Ids(YaraCmds(db, IdsOf(Filter(db.evidence, EvidenceIn(c.id))))) <==> MatchNode(db, c, id)
    ensures k in EdgeKeys(YaraCmds(db, IdsOf(Filter(db.evidence, EvidenceIn(c.id))))) <==> MatchEdge(db, c, k)
  {
    var ids, f := IdsOf(Filter(db.evidence, EvidenceIn(c.id))), MatchCmds();
    forall m | m in db.matches ensures m.evidence.id in ids <==> m.evidence.inCase.id == c.id {
      MatchesAre(db, c, m);
    }
    TableAdds(db.matches, MatchOf(ids), f,
              (m: MatchRow) => Some(RuleId(m.rule)), (m: MatchRow) => EdgeKey(EvidenceId(m.evidence), RuleId(m.rule), Outcome),
              id, k);
  }

  // ---------------------------------------------------------------------------
  // The hashes
  // ---------------------------------------------------------------------------

  lemma HashesHave(es: seq<EvidenceRow>, found: seq<ArtifactRow>, value: Digest)
    ensures value in Sorted(HashesOf(es, found))
       <==> (exists e :: e in es && e.hash == Some(value)) || exists a :: a in found && a.sha == Some(value)
  {
    SortedIs(HashesOf(es, found));
  }

  lemma ValuesAre(db: Db, c: CaseRow, value: Digest)
    ensures var es, found := Filter(db.evidence, EvidenceIn(c.id)), Filter(db.artifacts, ArtifactIn(c.id));
            value in Sorted(HashesOf(es, found)) <==> HashOfCase(db, c, value)
  {
    var es, found := Filter(db.evidence, EvidenceIn(c.id)), Filter(db.artifacts, ArtifactIn(c.id));
    FilterIn(db.evidence, EvidenceIn(c.id));
    FilterIn(db.artifacts, ArtifactIn(c.id));
    HashesHave(es, found, value);
    assert forall e :: e in es <==> e in db.evidence && e.inCase.id == c.id;
    assert forall a :: a in found <==> a in db.artifacts && a.exam.inCase.id == c.id;
  }

  lemma HoldersAre(db: Db, scope: Scope, value: Digest, h: Holder)
    ensures h in Holders(db, scope, value)
       <==> match h
            case Item(e) => e in db.evidence && e.hash == Some(value) && Sees(db, scope, e.inCase.id)
            case Found(a) => a in db.artifacts && a.sha == Some(value) && Sees(db, scope, a.exam.inCase.id)
  {
    var es := Filter(db.evidence, HoldsEvidence(db, scope, value));
    var found := Filter(db.artifacts, HoldsArtifact(db, scope, value));
    FilterIn(db.evidence, HoldsEvidence(db, scope, value));
    FilterIn(db.artifacts, HoldsArtifact(db, scope, value));
    if h.Item? && h.item in es {
      var i :| 0 <= i < |es| && es[i] == h.item;
      assert Holders(db, scope, value)[i] == h;
    }
    if h.Found? && h.artifact in found {
      var i :| 0 <= i < |found| && found[i] == h.artifact;
      assert Holders(db, scope, value)[|es| + i] == h;
    }
  }

  lemma ValueAdds(holders: seq<Holder>, value: Digest, shared: bool, exclude: Option<nat>, id: NodeId, k: EdgeKey)
    ensures var cs := ValueCmds(holders, value, shared, exclude);
            var shows := shared ==> |holders| >= 2;
            && (id in Ids(cs) <==> shows && (id == HashId(value) || exists h | h in holders :: id == HolderId(h)))
            && (k in EdgeKeys(cs) <==>
                shows && exists h | h in holders :: k == EdgeKey(HolderId(h), HashId(value), Identity))
  {
    var f := HolderCmds(value, exclude);
    if shared && |holders| < 2 {
    } else {
      forall h: Holder
        ensures Ids(f(h)) == {HolderId(h)} && EdgeKeys(f(h)) == {EdgeKey(HolderId(h), HashId(value), Identity)}
      {
        var shown := match h case Item(e) => ShowEvidence(e, Elsewhere(e, exclude)) case Found(a) => ShowArtifact(a);
        PairIds(HolderId(h), shown, HolderId(h), HashId(value), Identity, HasSha);
      }
      FlatIds(holders, f);
      FlatEdges(holders, f);
      NodeIds(HashId(value), HashShown(value));
      IdsConcat([AddNode(HashId(value), HashShown(value))], Flat(holders, f));
    }
  }

  /** What _add_hash_links adds: each hash that shows, with its visible holders. */
  lemma HashesAre(db: Db, scope: Scope, values: seq<Digest>, shared: bool, exclude: Option<nat>, id: NodeId, k: EdgeKey)
    ensures id in Ids(HashCmds(db, scope, values, shared, exclude)) <==>
              exists v | v in values :: ValueHas(db, scope, shared, v, id)
    ensures k in EdgeKeys(HashCmds(db, scope, values, shared, exclude)) <==>
              exists v | v in values :: ValueJoins(db, scope, shared, v, k)
  {
    var f := HashCmdsFor(db, scope, shared, exclude);
    forall v: Digest
      ensures id in Ids(f(v)) <==> ValueHas(db, scope, shared, v, id)
      ensures k in EdgeKeys(f(v)) <==> ValueJoins(db, scope, shared, v, k)
    {
      ValueAdds(Holders(db, scope, v), v, shared, exclude, id, k);
    }
    var all: Digest -> bool := _ => true;
    assert Filter(values, all) == values by { FilterAll(values, all); }
    RowIds(values, all, f, id);
    RowEdges(values, all, f, k);
  }

  lemma {:induction false} FilterAll<R>(rows: seq<R>, p: R -> bool)
    requires forall r :: p(r)
    ensures Filter(rows, p) == rows
  {
    if rows != [] {
      FilterAll(rows[..|rows| - 1], p);
    }
  }

  ghost predicate ValueHas(db: Db, scope: Scope, shared: bool, value: Digest, id: NodeId) {
    && (shared ==> |Holders(db, scope, value)| >= 2)
    && (id == HashId(value) || exists h | h in Holders(db, scope, value) :: id == HolderId(h))
  }

  ghost predicate ValueJoins(db: Db, scope: Scope, shared: bool, value: Digest, k: EdgeKey) {
    && (shared ==> |Holders(db, scope, value)| >= 2)
    && exists h | h in Holders(db, scope, value) :: k == EdgeKey(HolderId(h), HashId(value), Identity)
  }

  // ---------------------------------------------------------------------------
  // All together
  // ---------------------------------------------------------------------------

  ghost predicate RecordNode(db: Db, c: CaseRow, id: NodeId) {
    || id == CaseId(c)
    || (exists a | a in db.assignments :: a.inCase.id == c.id && id == UserId(a.user))
    || (exists e | e in db.evidence :: e.inCase.id == c.id && id == EvidenceId(e))
    || (exists x | x in db.exams :: x.inCase.id == c.id && id == ExamId(x))
    || (exists r | r in db.reports :: r.inCase.id == c.id && id == ReportId(r))
    || (exists a | a in db.artifacts :: a.exam.inCase.id == c.id && id == ArtifactId(a))
  }

  lemma RecordNodesAre(db: Db, c: CaseRow, id: NodeId)
    ensures id in Ids(RecordCmds(db, c)) <==> RecordNode(db, c, id)
  {
    var k := EdgeKey(id, id, Recorded);
    assert id in Ids(RecordCmds(db, c)) <==>
        || id == CaseId(c) || id in Ids(People(db, c)) || id in Ids(CaseItems(db, c)) || id in Ids(CaseExams(db, c))
        || id in Ids(CaseLinks(db, c)) || id in Ids(CaseReports(db, c)) || id in Ids(CaseCites(db, c))
        || id in Ids(CaseArtifacts(db, c)) by { RecordSets(db, c); }
    PeopleAre(db, c, id, k);
    ItemsAre(db, c, id, k);
    ExamsAre(db, c, id, k);
    LinksAre(db, c, id, k);
    ReportsAre(db, c, id, k);
    CitesAre(db, c, id, k);
    ArtifactsAre(db, c, id, k);
  }

  lemma RecordEdgesAre(db: Db, c: CaseRow, k: EdgeKey)
    ensures k in EdgeKeys(RecordCmds(db, c)) <==> RecordEdge(db, c, k)
  {
    var id := CaseId(c);
    assert k in EdgeKeys(RecordCmds(db, c)) <==>
        || k in EdgeKeys(People(db, c)) || k in EdgeKeys(CaseItems(db, c)) || k in EdgeKeys(CaseExams(db, c))
        || k in EdgeKeys(CaseLinks(db, c)) || k in EdgeKeys(CaseReports(db, c)) || k in EdgeKeys(CaseCites(db, c))
        || k in EdgeKeys(CaseArtifacts(db, c)) by { RecordSets(db, c); }
    PeopleAre(db, c, id, k);
    ItemsAre(db, c, id, k);
    ExamsAre(db, c, id, k);
    LinksAre(db, c, id, k);
    ReportsAre(db, c, id, k);
    CitesAre(db, c, id, k);
    ArtifactsAre(db, c, id, k);
  }

  lemma RecordSets(db: Db, c: CaseRow)
    ensures Ids(RecordCmds(db, c)) == {CaseId(c)} + Ids(People(db, c)) + Ids(CaseItems(db, c)) + Ids(CaseExams(db, c))
         + Ids(CaseLinks(db, c)) + Ids(CaseReports(db, c)) + Ids(CaseCites(db, c)) + Ids(CaseArtifacts(db, c))
    ensures EdgeKeys(RecordCmds(db, c)) == EdgeKeys(People(db, c)) + EdgeKeys(CaseItems(db, c)) + EdgeKeys(CaseExams(db, c))
         + EdgeKeys(CaseLinks(db, c)) + EdgeKeys(CaseReports(db, c)) + EdgeKeys(CaseCites(db, c)) + EdgeKeys(CaseArtifacts(db, c))
  {
    var s0 := [AddNode(CaseId(c), ShowCase(c))];
    var s1 := s0 + People(db, c);
    var s2 := s1 + CaseItems(db, c);
    var s3 := s2 + CaseExams(db, c);
    var s4 := s3 + CaseLinks(db, c);
    var s5 := s4 + CaseReports(db, c);
    var s6 := s5 + CaseCites(db, c);
    NodeIds(CaseId(c), ShowCase(c));
    IdsConcat(s0, People(db, c));
    IdsConcat(s1, CaseItems(db, c));
    IdsConcat(s2, CaseExams(db, c));
    IdsConcat(s3, CaseLinks(db, c));
    IdsConcat(s4, CaseReports(db, c));
    IdsConcat(s5, CaseCites(db, c));
    IdsConcat(s6, CaseArtifacts(db, c));
  }

  lemma CaseIs(db: Db, scope: Scope, c: CaseRow, shared: bool, id: NodeId, k: EdgeKey)
    requires Valid(db)
    ensures var values := ValuesOf(db, c);
            && (id in Ids(CaseCmds(db, scope, c, shared)) <==>
                || RecordNode(db, c, id)
                || MatchNode(db, c, id)
                || (exists v | v in values :: ValueHas(db, scope, shared, v, id)))
            && (k in EdgeKeys(CaseCmds(db, scope, c, shared)) <==>
                || RecordEdge(db, c, k)
                || MatchEdge(db, c, k)
                || (exists v | v in values :: ValueJoins(db, scope, shared, v, k)))
  {
    var es, found := Filter(db.evidence, EvidenceIn(c.id)), Filter(db.artifacts, ArtifactIn(c.id));
    var values := Sorted(HashesOf(es, found));
    var records, yara := RecordCmds(db, c), YaraCmds(db, IdsOf(es));
    var hashes := HashCmds(db, scope, values, shared, Some(c.id));
    IdsConcat(records, yara);
    IdsConcat(records + yara, hashes);
    RecordNodesAre(db, c, id);
    RecordEdgesAre(db, c, k);
    YaraIs(db, c, id, k);
    HashesAre(db, scope, values, shared, Some(c.id), id, k);
  }

  function ValuesOf(db: Db, c: CaseRow): seq<Digest> {
    Sorted(HashesOf(Filter(db.evidence, EvidenceIn(c.id)), Filter(db.artifacts, ArtifactIn(c.id))))
  }

  ghost predicate HashItem(db: Db, scope: Scope, c: CaseRow, shared: bool, id: NodeId) {
    exists e | e in db.evidence :: id == EvidenceId(e) && Sees(db, scope, e.inCase.id)
      && e.hash.Some? && HashShows(db, scope, c, shared, e.hash.value)
  }

  ghost predicate HashArtifact(db: Db, scope: Scope, c: CaseRow, shared: bool, id: NodeId) {
    exists a | a in db.artifacts :: id == ArtifactId(a) && Sees(db, scope, a.exam.inCase.id)
      && a.sha.Some? && HashShows(db, scope, c, shared, a.sha.value)
  }

  /** The nodes a shown hash brings: itself, and its visible holders. */
  ghost predicate HashPart(db: Db, scope: Scope, c: CaseRow, shared: bool, id: NodeId) {
    || (id.HashId? && HashShows(db, scope, c, shared, id.value))
    || HashItem(db, scope, c, shared, id)
    || HashArtifact(db, scope, c, shared, id)
  }

  lemma ValueGivesPart(db: Db, scope: Scope, c: CaseRow, shared: bool, v: Digest, id: NodeId)
    requires v in ValuesOf(db, c) && ValueHas(db, scope, shared, v, id)
    ensures HashPart(db, scope, c, shared, id)
  {
    ValuesAre(db, c, v);
    if id != HashId(v) {
      var h :| h in Holders(db, scope, v) && id == HolderId(h);
      HoldersAre(db, scope, v, h);
      match h
      case Item(e) => assert HashItem(db, scope, c, shared, id);
      case Found(a) => assert HashArtifact(db, scope, c, shared, id);
    }
  }

  lemma PartGivesValue(db: Db, scope: Scope, c: CaseRow, shared: bool, id: NodeId) returns (v: Digest)
    requires HashPart(db, scope, c, shared, id)
    ensures v in ValuesOf(db, c) && ValueHas(db, scope, shared, v, id)
  {
    if id.HashId? && HashShows(db, scope, c, shared, id.value) {
      v := id.value;
    } else if HashItem(db, scope, c, shared, id) {
      var e :| e in db.evidence && id == EvidenceId(e) && Sees(db, scope, e.inCase.id)
            && e.hash.Some? && HashShows(db, scope, c, shared, e.hash.value);
      v := e.hash.value;
      HoldersAre(db, scope, v, Item(e));
    } else {
      var a :| a in db.artifacts && id == ArtifactId(a) && Sees(db, scope, a.exam.inCase.id)
            && a.sha.Some? && HashShows(db, scope, c, shared, a.sha.value);
      v := a.sha.value;
      HoldersAre(db, scope, v, Found(a));
    }
    ValuesAre(db, c, v);
  }

  lemma HashNodesAre(db: Db, scope: Scope, c: CaseRow, shared: bool, id: NodeId)
    ensures (exists v | v in ValuesOf(db, c) :: ValueHas(db, scope, shared, v, id)) <==> HashPart(db, scope, c, shared, id)
  {
    if v :| v in ValuesOf(db, c) && ValueHas(db, scope, shared, v, id) {
      ValueGivesPart(db, scope, c, shared, v, id);
    }
    if HashPart(db, scope, c, shared, id) {
      var v := PartGivesValue(db, scope, c, shared, id);
    }
  }

  ghost predicate MatchNode(db: Db, c: CaseRow, id: NodeId) {
    exists m | m in db.matches :: m.evidence.inCase.id == c.id && id == RuleId(m.rule)
  }

  /** The same nodes, told by where they come from. */
  lemma NodeParts(db: Db, scope: Scope, c: CaseRow, shared: bool, id: NodeId)
    ensures NodeOf(db, scope, c, shared, id)
       <==> RecordNode(db, c, id) || MatchNode(db, c, id) || HashPart(db, scope, c, shared, id)
  {
    if id.Id? && id.kind.EvidenceNode? {
      ItemParts(db, scope, c, shared, id);
    } else if id.Id? && id.kind.ArtifactNode? {
      ArtifactParts(db, scope, c, shared, id);
    }
  }

  lemma ItemParts(db: Db, scope: Scope, c: CaseRow, shared: bool, id: NodeId)
    requires id.Id? && id.kind.EvidenceNode?
    ensures NodeOf(db, scope, c, shared, id) <==> RecordNode(db, c, id) || HashItem(db, scope, c, shared, id)
  {
    if NodeOf(db, scope, c, shared, id) {
      var e :| e in db.evidence && ItemShows(db, scope, c, shared, e) && e.id == id.key;
      assert id == EvidenceId(e);
    }
    if RecordNode(db, c, id) {
      var e :| e in db.evidence && e.inCase.id == c.id && id == EvidenceId(e);
      assert ItemShows(db, scope, c, shared, e);
    }
  }

  lemma ArtifactParts(db: Db, scope: Scope, c: CaseRow, shared: bool, id: NodeId)
    requires id.Id? && id.kind.ArtifactNode?
    ensures NodeOf(db, scope, c, shared, id) <==> RecordNode(db, c, id) || HashArtifact(db, scope, c, shared, id)
  {
    if NodeOf(db, scope, c, shared, id) {
      var a :| a in db.artifacts && ArtifactShows(db, scope, c, shared, a) && a.id == id.key;
      assert id == ArtifactId(a);
    }
    if RecordNode(db, c, id) {
      var a :| a in db.artifacts && a.exam.inCase.id == c.id && id == ArtifactId(a);
      assert ArtifactShows(db, scope, c, shared, a);
    }
  }

  lemma NodesAre(db: Db, scope: Scope, c: CaseRow, shared: bool, id: NodeId)
    requires Valid(db)
    ensures id in Ids(CaseCmds(db, scope, c, shared)) <==> NodeOf(db, scope, c, shared, id)
  {
    NodeParts(db, scope, c, shared, id);
    HashNodesAre(db, scope, c, shared, id);
    CaseIs(db, scope, c, shared, id, EdgeKey(id, id, Recorded));
  }

  lemma HashEdgesAre(db: Db, scope: Scope, c: CaseRow, shared: bool, k: EdgeKey)
    ensures (exists v | v in ValuesOf(db, c) :: ValueJoins(db, scope, shared, v, k)) <==> HashEdge(db, scope, c, shared, k)
  {
    if k.target.HashId? { ValuesAre(db, c, k.target.value); }
    if v :| v in ValuesOf(db, c) && ValueJoins(db, scope, shared, v, k) {
      assert k.target == HashId(v);
    }
    if HashEdge(db, scope, c, shared, k) {
      assert ValueJoins(db, scope, shared, k.target.value, k);
    }
  }

  lemma EdgesAre(db: Db, scope: Scope, c: CaseRow, shared: bool, k: EdgeKey)
    requires Valid(db)
    ensures k in EdgeKeys(CaseCmds(db, scope, c, shared)) <==> EdgeOf(db, scope, c, shared, k)
  {
    HashEdgesAre(db, scope, c, shared, k);
    CaseIs(db, scope, c, shared, k.source, k);
  }

  // ---------------------------------------------------------------------------
  // No edge is asked for before its nodes
  // ---------------------------------------------------------------------------

  lemma SingleFirst(source: NodeId, target: NodeId, kind: EdgeKind, text: EdgeLabel, before: set<NodeId>)
    requires source in before && target in before && source != target
    ensures NodesFirst(OnlyEdge(source, target, kind, text), before)
  {
  }

  lemma {:induction false} KeptIs<R>(rows: seq<R>, p: R -> bool, i: nat)
    requires i < |Filter(rows, p)|
    ensures Filter(rows, p)[i] in rows && p(Filter(rows, p)[i])
  {
    var n := |rows| - 1;
    if i < |Filter(rows[..n], p)| {
      KeptIs(rows[..n], p, i);
    }
  }

  /** A query's rows may come one after the other when each row's nodes are there. */
  lemma RowsFirst<R>(rows: seq<R>, p: R -> bool, f: R -> seq<Cmd>, before: set<NodeId>)
    requires forall r | r in rows && p(r) :: NodesFirst(f(r), before)
    ensures NodesFirst(Flat(Filter(rows, p), f), before)
  {
    FilterIn(rows, p);
    var kept := Filter(rows, p);
    forall i | 0 <= i < |kept| ensures NodesFirst(f(kept[i]), before) {
      KeptIs(rows, p, i);
    }
    FlatNodesFirst(kept, f, before);
  }

  /** The rows of a table whose edges join nodes that are there, or their own. */
  lemma TableFirst<R>(
    rows: seq<R>, p: R -> bool, f: R -> seq<Cmd>, node: R -> Option<NodeId>, edge: R -> EdgeKey, before: set<NodeId>)
    requires forall r | r in rows && p(r) :: Adds(f(r), node(r), edge(r)) && Joins(node(r), edge(r), before)
    ensures NodesFirst(Flat(Filter(rows, p), f), before)
  {
    forall r | r in rows && p(r) ensures NodesFirst(f(r), before) {
      var cs := f(r);
      if node(r).Some? {
        assert cs[..1] == [AddNode(cs[0].id, cs[0].shown)];
        NodeIds(cs[0].id, cs[0].shown);
      }
    }
    RowsFirst(rows, p, f, before);
  }

  predicate Joins(id: Option<NodeId>, k: EdgeKey, before: set<NodeId>) {
    var there := if id.Some? then before + {id.value} else before;
    k.source in there && k.target in there && k.source != k.target
  }

  lemma PeopleFirst(db: Db, c: CaseRow, before: set<NodeId>)
    requires CaseId(c) in before
    ensures NodesFirst(People(db, c), before)
  {
    TableFirst(db.assignments, AssignmentIn(c.id), PersonCmds(CaseId(c)),
               (a: Assignment) => Some(UserId(a.user)), (a: Assignment) => EdgeKey(UserId(a.user), CaseId(c), Recorded), before);
  }

  lemma ItemsFirst(db: Db, c: CaseRow, before: set<NodeId>)
    requires CaseId(c) in before
    ensures NodesFirst(CaseItems(db, c), before)
  {
    TableFirst(db.evidence, EvidenceIn(c.id), EvidenceCmds(CaseId(c)),
               (e: EvidenceRow) => Some(EvidenceId(e)), (e: EvidenceRow) => EdgeKey(CaseId(c), EvidenceId(e), Recorded), before);
  }

  lemma ExamsFirst(db: Db, c: CaseRow, before: set<NodeId>)
    requires CaseId(c) in before
    ensures NodesFirst(CaseExams(db, c), before)
  {
    TableFirst(db.exams, ExamIn(c.id), ExamCmds(CaseId(c)),
               (x: ExamRow) => Some(ExamId(x)), (x: ExamRow) => EdgeKey(CaseId(c), ExamId(x), Recorded), before);
  }

  lemma ReportsFirst(db: Db, c: CaseRow, before: set<NodeId>)
    requires CaseId(c) in before
    ensures NodesFirst(CaseReports(db, c), before)
  {
    TableFirst(db.reports, ReportIn(c.id), ReportCmds(CaseId(c)),
               (r: ReportRow) => Some(ReportId(r)), (r: ReportRow) => EdgeKey(CaseId(c), ReportId(r), Recorded), before);
  }

  /** The items, examinations and reports of the case are all there. */
  ghost predicate Holds(before: set<NodeId>, items: seq<EvidenceRow>, exams: seq<ExamRow>, reports: seq<ReportRow>, id: nat) {
    && (forall e | e in items && e.inCase.id == id :: EvidenceId(e) in before)
    && (forall x | x in exams && x.inCase.id == id :: ExamId(x) in before)
    && (forall r | r in reports && r.inCase.id == id :: ReportId(r) in before)
  }

  lemma LinksFirst(db: Db, c: CaseRow, before: set<NodeId>)
    requires Valid(db) && Holds(before, db.evidence, db.exams, [], c.id)
    ensures NodesFirst(CaseLinks(db, c), before)
  {
    TableFirst(db.links, LinkIn(c.id), LinkCmds(),
               (l: LinkRow) => None, (l: LinkRow) => EdgeKey(ExamId(l.exam), EvidenceId(l.evidence), Recorded), before);
  }

  lemma CitesFirst(db: Db, c: CaseRow, before: set<NodeId>)
    requires Valid(db) && Holds(before, db.evidence, db.exams, db.reports, c.id)
    ensures NodesFirst(CaseCites(db, c), before)
  {
    TableFirst(db.cites, CiteIn(c.id), CiteCmds(),
               (t: CiteRow) => None, (t: CiteRow) => EdgeKey(ReportId(t.report), ExamId(t.exam), Recorded), before);
  }

  lemma ArtifactsFirst(db: Db, c: CaseRow, before: set<NodeId>)
    requires Valid(db) && Holds(before, db.evidence, db.exams, db.reports, c.id)
    ensures NodesFirst(CaseArtifacts(db, c), before)
  {
    var f := ArtifactCmds();
    forall a | a in db.artifacts && a.exam.inCase.id == c.id ensures NodesFirst(f(a), before) {
      var pair := NodeAndEdge(ArtifactId(a), ShowArtifact(a), ExamId(a.exam), ArtifactId(a), Recorded, FoundArtifact);
      PairFirst(ArtifactId(a), ShowArtifact(a), ExamId(a.exam), ArtifactId(a), Recorded, FoundArtifact, before);
      PairIds(ArtifactId(a), ShowArtifact(a), ExamId(a.exam), ArtifactId(a), Recorded, FoundArtifact);
      if a.evidence.Some? {
        SingleFirst(ArtifactId(a), EvidenceId(a.evidence.value), Recorded, FoundIn, before + Ids(pair));
        NodesFirstConcat(pair, OnlyEdge(ArtifactId(a), EvidenceId(a.evidence.value), Recorded, FoundIn), before);
      } else {
        assert pair + [] == pair;
      }
    }
    RowsFirst(db.artifacts, ArtifactIn(c.id), f, before);
  }

  lemma YaraFirst(db: Db, c: CaseRow, before: set<NodeId>)
    requires Valid(db) && Holds(before, db.evidence, db.exams, db.reports, c.id)
    ensures NodesFirst(YaraCmds(db, IdsOf(Filter(db.evidence, EvidenceIn(c.id)))), before)
  {
    var es := Filter(db.evidence, EvidenceIn(c.id));
    var f := MatchCmds();
    FilterIn(db.evidence, EvidenceIn(c.id));
    forall m | m in db.matches && m.evidence.id in IdsOf(es) ensures NodesFirst(f(m), before) {
      var e :| e in es && e.id == m.evidence.id;
      SameEvidence(db, e, m.evidence);
      PairFirst(RuleId(m.rule), RuleShown(m.rule.name), EvidenceId(m.evidence), RuleId(m.rule), Outcome,
                Matched(m.identifier, m.scan), before);
    }
    RowsFirst(db.matches, MatchOf(IdsOf(es)), f, before);
  }

  lemma HashesFirst(db: Db, scope: Scope, values: seq<Digest>, shared: bool, exclude: Option<nat>, before: set<NodeId>)
    ensures NodesFirst(HashCmds(db, scope, values, shared, exclude), before)
  {
    var f := HashCmdsFor(db, scope, shared, exclude);
    forall v: Digest ensures NodesFirst(f(v), before) {
      var holders := Holders(db, scope, v);
      var first := [AddNode(HashId(v), HashShown(v))];
      var h := HolderCmds(v, exclude);
      NodeIds(HashId(v), HashShown(v));
      forall i | 0 <= i < |holders| ensures NodesFirst(h(holders[i]), before + Ids(first)) {
        var o := holders[i];
        var shown := match o case Item(e) => ShowEvidence(e, Elsewhere(e, exclude)) case Found(a) => ShowArtifact(a);
        PairFirst(HolderId(o), shown, HolderId(o), HashId(v), Identity, HasSha, before + Ids(first));
      }
      FlatNodesFirst(holders, h, before + Ids(first));
      NodesFirstConcat(first, Flat(holders, h), before);
    }
    FlatNodesFirst(values, f, before);
  }

  lemma PlacesHold(db: Db, c: CaseRow, n: nat)
    requires 3 <= n <= 7
    ensures Holds(Ids(Upto(db, c, n)), db.evidence, db.exams, if n >= 5 then db.reports else [], c.id)
    ensures CaseId(c) in Ids(Upto(db, c, n))
  {
    UptoIds(db, c, n);
    assert Ids(Part(db, c, 2)) <= Ids(Upto(db, c, n)) && Ids(Part(db, c, 3)) <= Ids(Upto(db, c, n));
    forall e | e in db.evidence && e.inCase.id == c.id ensures EvidenceId(e) in Ids(Upto(db, c, n)) {
      ItemsAre(db, c, EvidenceId(e), EdgeKey(CaseId(c), CaseId(c), Recorded));
    }
    forall x | x in db.exams && x.inCase.id == c.id ensures ExamId(x) in Ids(Upto(db, c, n)) {
      ExamsAre(db, c, ExamId(x), EdgeKey(CaseId(c), CaseId(c), Recorded));
    }
    assert n >= 5 ==> Ids(Part(db, c, 5)) <= Ids(Upto(db, c, n));
    forall r | r in db.reports && r.inCase.id == c.id && n >= 5 ensures ReportId(r) in Ids(Upto(db, c, n)) {
      ReportsAre(db, c, ReportId(r), EdgeKey(CaseId(c), CaseId(c), Recorded));
    }
  }

  /** RecordCmds up to its n-th query. */
  function Upto(db: Db, c: CaseRow, n: nat): seq<Cmd>
    requires n <= 7
  {
    if n == 0 then [AddNode(CaseId(c), ShowCase(c))]
    else Upto(db, c, n - 1) + Part(db, c, n)
  }

  function Part(db: Db, c: CaseRow, n: nat): seq<Cmd>
    requires 1 <= n <= 7
  {
    match n
    case 1 => People(db, c)
    case 2 => CaseItems(db, c)
    case 3 => CaseExams(db, c)
    case 4 => CaseLinks(db, c)
    case 5 => CaseReports(db, c)
    case 6 => CaseCites(db, c)
    case 7 => CaseArtifacts(db, c)
  }

  lemma UptoAll(db: Db, c: CaseRow)
    ensures Upto(db, c, 7) == RecordCmds(db, c)
  {
    var s0 := [AddNode(CaseId(c), ShowCase(c))];
    assert Upto(db, c, 2) == s0 + People(db, c) + CaseItems(db, c) by { assert Upto(db, c, 1) == s0 + Part(db, c, 1); }
    assert Upto(db, c, 4) == Upto(db, c, 2) + CaseExams(db, c) + CaseLinks(db, c) by {
      assert Upto(db, c, 3) == Upto(db, c, 2) + Part(db, c, 3);
    }
    assert Upto(db, c, 6) == Upto(db, c, 4) + CaseReports(db, c) + CaseCites(db, c) by {
      assert Upto(db, c, 5) == Upto(db, c, 4) + Part(db, c, 5);
    }
  }

  lemma {:induction false} UptoIds(db: Db, c: CaseRow, n: nat)
    requires n <= 7
    ensures CaseId(c) in Ids(Upto(db, c, n))
    ensures forall i | 1 <= i <= n :: Ids(Part(db, c, i)) <= Ids(Upto(db, c, n))
  {
    if n == 0 {
      NodeIds(CaseId(c), ShowCase(c));
    } else {
      UptoIds(db, c, n - 1);
      IdsConcat(Upto(db, c, n - 1), Part(db, c, n));
    }
  }

  // The parts with edges between nodes of earlier parts.

  lemma LinksPartFirst(db: Db, c: CaseRow, before: set<NodeId>)
    requires Valid(db) && before == Ids(Upto(db, c, 3))
    ensures NodesFirst(Part(db, c, 4), before)
  {
    PlacesHold(db, c, 3);
    LinksFirst(db, c, before);
  }

  lemma CitesPartFirst(db: Db, c: CaseRow, before: set<NodeId>)
    requires Valid(db) && before == Ids(Upto(db, c, 5))
    ensures NodesFirst(Part(db, c, 6), before)
  {
    PlacesHold(db, c, 5);
    CitesFirst(db, c, before);
  }

  lemma ArtifactsPartFirst(db: Db, c: CaseRow, before: set<NodeId>)
    requires Valid(db) && before == Ids(Upto(db, c, 6))
    ensures NodesFirst(Part(db, c, 7), before)
  {
    PlacesHold(db, c, 6);
    ArtifactsFirst(db, c, before);
  }

  lemma PartFirst(db: Db, c: CaseRow, n: nat)
    requires Valid(db) && 1 <= n <= 7
    ensures NodesFirst(Part(db, c, n), Ids(Upto(db, c, n - 1)))
  {
    var before := Ids(Upto(db, c, n - 1));
    UptoIds(db, c, n - 1);
    if n == 1 {
      PeopleFirst(db, c, before);
    } else if n == 2 {
      ItemsFirst(db, c, before);
    } else if n == 3 {
      ExamsFirst(db, c, before);
    } else if n == 4 {
      LinksPartFirst(db, c, before);
    } else if n == 5 {
      ReportsFirst(db, c, before);
    } else if n == 6 {
      CitesPartFirst(db, c, before);
    } else {
      ArtifactsPartFirst(db, c, before);
    }
  }

  lemma {:induction false} UptoFirst(db: Db, c: CaseRow, n: nat)
    requires Valid(db) && n <= 7
    ensures NodesFirst(Upto(db, c, n), {})
  {
    if n > 0 {
      UptoFirst(db, c, n - 1);
      PartFirst(db, c, n);
      assert {} + Ids(Upto(db, c, n - 1)) == Ids(Upto(db, c, n - 1));
      NodesFirstConcat(Upto(db, c, n - 1), Part(db, c, n), {});
    }
  }

  lemma CaseNodesFirst(db: Db, scope: Scope, c: CaseRow, shared: bool)
    requires Valid(db)
    ensures NodesFirst(CaseCmds(db, scope, c, shared), {})
  {
    var es := Filter(db.evidence, EvidenceIn(c.id));
    var records, yara := RecordCmds(db, c), YaraCmds(db, IdsOf(es));
    var hashes := HashCmds(db, scope, ValuesOf(db, c), shared, Some(c.id));
    assert NodesFirst(records, {}) && Holds(Ids(records), db.evidence, db.exams, db.reports, c.id) by {
      UptoAll(db, c);
      UptoFirst(db, c, 7);
      PlacesHold(db, c, 7);
    }
    YaraFirst(db, c, Ids(records));
    assert {} + Ids(records) == Ids(records);
    NodesFirstConcat(records, yara, {});
    HashesFirst(db, scope, ValuesOf(db, c), shared, Some(c.id), {} + Ids(records + yara));
    NodesFirstConcat(records + yara, hashes, {});
  }

  ghost predicate IsExact(db: Db, scope: Scope, c: CaseRow, shared: bool, g: GraphValue) {
    && WellFormed(g)
    && (forall id | id in g.nodes :: NodeOf(db, scope, c, shared, id))
    && (!g.truncated ==>
          && (forall id :: id in g.nodes <==> NodeOf(db, scope, c, shared, id))
          && (forall k :: k in g.edges <==> EdgeOf(db, scope, c, shared, k)))
    && (g.truncated ==> |g.nodes| == 250 && exists id :: NodeOf(db, scope, c, shared, id) && id !in g.nodes)
  }

  /**
   A case's graph that is not truncated has exactly the nodes and the edges that the records say; it
   is truncated exactly when they are more than MAX_NODES, and then has MAX_NODES of them.
   */
  lemma CaseGraphIsExact(db: Db, scope: Scope, c: CaseRow, shared: bool)
    requires Valid(db)
    ensures IsExact(db, scope, c, shared, Apply(EMPTY, CaseCmds(db, scope, c, shared)))
  {
    var cs := CaseCmds(db, scope, c, shared);
    var g := Apply(EMPTY, cs);
    GraphIsCapped(cs);
    forall id ensures id in Ids(cs) <==> NodeOf(db, scope, c, shared, id) {
      NodesAre(db, scope, c, shared, id);
    }
    if g.truncated {
      assert exists id :: id in Ids(cs) && id !in g.nodes;
    } else {
      CaseNodesFirst(db, scope, c, shared);
      AllEdgesDrawn(cs);
      forall k ensures k in g.edges <==> EdgeOf(db, scope, c, shared, k) {
        EdgesAre(db, scope, c, shared, k);
      }
    }
  }
}
