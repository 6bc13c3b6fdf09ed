/**
 case_graph and expand of app/graph/services.py, as they build their graphs: one loop per query.
 Their results are the series of `Relationships`; `CaseGraph.IsExact`, `Expansion.IsExact` and
 `GraphText.Tells` say what is in them, and `Relationships.InvisibleRecordsNeverShow` what is not.
 */
module GraphService {
  import opened Wrappers
  import opened Content
  import opened Graph
  import opened Relationships
  import CaseGraph
  import opened Expansion
  import GraphText

  lemma RowDone<R>(g: GraphValue, rows: seq<R>, i: nat, f: R -> seq<Cmd>)
    requires i < |rows|
    ensures Apply(g, Flat(rows[..i + 1], f)) == Apply(Apply(g, Flat(rows[..i], f)), f(rows[i]))
  {
    FlatSnoc(rows, i, f);
    ApplyConcat(g, Flat(rows[..i], f), f(rows[i]));
  }

  /** What a row adds: at most one node, first, and then edges; after a node, edges at it. */
  predicate Guarded(cs: seq<Cmd>) {
    && (forall i | 1 <= i < |cs| :: cs[i].AddEdge?)
    && (cs != [] && cs[0].AddNode? ==> forall i | 1 <= i < |cs| :: Touches(cs[i], cs[0].id))
  }

  predicate Touches(c: Cmd, id: NodeId) {
    c.AddEdge? && (c.key.source == id || c.key.target == id)
  }

  /** Edges at a node that is not there are not drawn, so it does no harm to ask for them or not to. */
  lemma {:induction false} NoEdgeWithoutNode(g: GraphValue, cs: seq<Cmd>, id: NodeId)
    requires id !in g.nodes && forall i | 0 <= i < |cs| :: Touches(cs[i], id)
    ensures Apply(g, cs) == g
  {
    if cs != [] {
      NoEdgeWithoutNode(g, cs[..|cs| - 1], id);
    }
  }

  method AddEdges(g: Builder, cs: seq<Cmd>)
    requires forall i | 0 <= i < |cs| :: cs[i].AddEdge?
    modifies g
    ensures g.Value() == Apply(old(g.Value()), cs)
  {
    for i := 0 to |cs|
      invariant g.Value() == Apply(old(g.Value()), cs[..i])
    {
      assert cs[..i + 1] == cs[..i] + [cs[i]];
      ApplySnoc(old(g.Value()), cs[..i], cs[i]);
      var key := cs[i].key;
      g.Edge(key.source, key.target, key.kind, cs[i].text);
    }
    assert cs[..|cs|] == cs;
  }

  /** One row: `if g.node(...): g.edge(...)`, or just `g.edge(...)`. */
  method AddRow(g: Builder, cs: seq<Cmd>)
    requires Guarded(cs)
    modifies g
    ensures g.Value() == Apply(old(g.Value()), cs)
  {
    if cs == [] || cs[0].AddEdge? {
      AddEdges(g, cs);
      return;
    }
    assert cs == [cs[0]] + cs[1..];
    One(g.Value(), cs[0]);
    ApplyConcat(g.Value(), [cs[0]], cs[1..]);
    var there := g.Node(cs[0].id, cs[0].shown);
    if there {
      AddEdges(g, cs[1..]);
    } else {
      NoEdgeWithoutNode(g.Value(), cs[1..], cs[0].id);
    }
  }

  ghost predicate AllGuarded<R(!new)>(f: R -> seq<Cmd>) {
    forall r :: Guarded(f(r))
  }

  lemma CaseRowsAreGuarded(node: NodeId)
    ensures AllGuarded(PersonCmds(node)) && AllGuarded(AssignedCaseCmds(node))
    ensures AllGuarded(EvidenceCmds(node)) && AllGuarded(ExamCmds(node)) && AllGuarded(ReportCmds(node))
  {
  }

  lemma LinkRowsAreGuarded(node: NodeId)
    ensures AllGuarded(LinkCmds()) && AllGuarded(LinkedExamCmds(node)) && AllGuarded(LinkedItemCmds(node))
    ensures AllGuarded(CiteCmds()) && AllGuarded(CitingCmds(node)) && AllGuarded(CitedCmds(node))
  {
  }

  lemma ArtifactRowsAreGuarded(node: NodeId)
    ensures AllGuarded(ArtifactCmds()) && AllGuarded(FoundInCmds(node)) && AllGuarded(FoundByCmds(node))
    ensures AllGuarded(MatchCmds()) && AllGuarded(MatchedItemCmds(node))
  {
  }

  /** The rows of every query are of this form. */
  lemma RowsAreGuarded(node: NodeId)
    ensures AllGuarded(PersonCmds(node)) && AllGuarded(AssignedCaseCmds(node))
    ensures AllGuarded(EvidenceCmds(node)) && AllGuarded(ExamCmds(node)) && AllGuarded(ReportCmds(node))
    ensures AllGuarded(LinkCmds()) && AllGuarded(LinkedExamCmds(node)) && AllGuarded(LinkedItemCmds(node))
    ensures AllGuarded(CiteCmds()) && AllGuarded(CitingCmds(node)) && AllGuarded(CitedCmds(node))
    ensures AllGuarded(ArtifactCmds()) && AllGuarded(FoundInCmds(node)) && AllGuarded(FoundByCmds(node))
    ensures AllGuarded(MatchCmds()) && AllGuarded(MatchedItemCmds(node))
  {
    CaseRowsAreGuarded(node);
    LinkRowsAreGuarded(node);
    ArtifactRowsAreGuarded(node);
  }

  lemma HoldersAreGuarded(value: Digest, exclude: Option<nat>)
    ensures AllGuarded(HolderCmds(value, exclude))
  {
  }

  /** The loop over the rows of a query. */
  method AddRows<R(!new)>(g: Builder, rows: seq<R>, f: R -> seq<Cmd>)
    requires AllGuarded(f)
    modifies g
    ensures g.Value() == Apply(old(g.Value()), Flat(rows, f))
  {
    for i := 0 to |rows|
      invariant g.Value() == Apply(old(g.Value()), Flat(rows[..i], f))
    {
      RowDone(old(g.Value()), rows, i, f);
      AddRow(g, f(rows[i]));
    }
    assert rows[..|rows|] == rows;
  }

  /** _add_yara */
  method AddYara(g: Builder, db: Db, ids: set<nat>)
    modifies g
    ensures g.Value() == Apply(old(g.Value()), YaraCmds(db, ids))
  {
    RowsAreGuarded(HashId(0));
    AddRows(g, Filter(db.matches, MatchOf(ids)), MatchCmds());
  }

  // ---------------------------------------------------------------------------
  // Hash links
  // ---------------------------------------------------------------------------

  function EvidenceWith(value: Digest): EvidenceRow -> bool { (e: EvidenceRow) => e.hash == Some(value) }
  function ArtifactWith(value: Digest): ArtifactRow -> bool { (a: ArtifactRow) => a.sha == Some(value) }

  function EvidenceAmong(db: Db, scope: Scope, values: seq<Digest>): EvidenceRow -> bool {
    (e: EvidenceRow) => e.hash.Some? && e.hash.value in values && Sees(db, scope, e.inCase.id)
  }

  function ArtifactAmong(db: Db, scope: Scope, values: seq<Digest>): ArtifactRow -> bool {
    (a: ArtifactRow) => a.sha.Some? && a.sha.value in values && Sees(db, scope, a.exam.inCase.id)
  }

  ghost predicate Gathered(holders: map<Digest, seq<Holder>>, values: seq<Digest>, es: seq<EvidenceRow>,
      found: seq<ArtifactRow>)
  {
    forall v | v in values ::
      v in holders && holders[v] == Items(Filter(es, EvidenceWith(v))) + Founds(Filter(found, ArtifactWith(v)))
  }

  function WithHolder(holders: map<Digest, seq<Holder>>, v: Digest, h: Holder): map<Digest, seq<Holder>>
    requires v in holders
  {
    holders[v := holders[v] + [h]]
  }

  lemma ItemsSnoc(es: seq<EvidenceRow>, i: nat, v: Digest)
    requires i < |es|
    ensures Items(Filter(es[..i + 1], EvidenceWith(v)))
         == Items(Filter(es[..i], EvidenceWith(v))) + if es[i].hash == Some(v) then [Item(es[i])] else []
  {
    assert es[..i + 1][..i] == es[..i];
  }

  lemma FoundsSnoc(found: seq<ArtifactRow>, i: nat, v: Digest)
    requires i < |found|
    ensures Founds(Filter(found[..i + 1], ArtifactWith(v)))
         == Founds(Filter(found[..i], ArtifactWith(v))) + if found[i].sha == Some(v) then [Found(found[i])] else []
  {
    assert found[..i + 1][..i] == found[..i];
  }

  lemma GatherItem(holders: map<Digest, seq<Holder>>, values: seq<Digest>, es: seq<EvidenceRow>, i: nat)
    requires i < |es| && Gathered(holders, values, es[..i], []) && es[i].hash.Some? && es[i].hash.value in values
    ensures Gathered(WithHolder(holders, es[i].hash.value, Item(es[i])), values, es[..i + 1], [])
  {
    forall v | v in values {
      ItemsSnoc(es, i, v);
    }
  }

  lemma GatherFound(holders: map<Digest, seq<Holder>>, values: seq<Digest>, es: seq<EvidenceRow>, found: seq<ArtifactRow>,
      i: nat)
    requires i < |found| && Gathered(holders, values, es, found[..i])
    requires found[i].sha.Some? && found[i].sha.value in values
    ensures Gathered(WithHolder(holders, found[i].sha.value, Found(found[i])), values, es, found[..i + 1])
  {
    forall v | v in values {
      FoundsSnoc(found, i, v);
    }
  }

  lemma GatheredAll(db: Db, scope: Scope, values: seq<Digest>, holders: map<Digest, seq<Holder>>)
    requires Gathered(holders, values, Filter(db.evidence, EvidenceAmong(db, scope, values)),
                      Filter(db.artifacts, ArtifactAmong(db, scope, values)))
    ensures forall v | v in values :: v in holders && holders[v] == Holders(db, scope, v)
  {
    forall v | v in values ensures v in holders && holders[v] == Holders(db, scope, v) {
      Narrow(db.evidence, EvidenceAmong(db, scope, values), HoldsEvidence(db, scope, v), EvidenceWith(v));
      Narrow(db.artifacts, ArtifactAmong(db, scope, values), HoldsArtifact(db, scope, v), ArtifactWith(v));
    }
  }

  method GatherItems(values: seq<Digest>, es: seq<EvidenceRow>) returns (holders: map<Digest, seq<Holder>>)
    requires forall e | e in es :: e.hash.Some? && e.hash.value in values
    ensures Gathered(holders, values, es, [])
  {
    holders := map v | v in values :: [];
    for i := 0 to |es|
      invariant Gathered(holders, values, es[..i], [])
    {
      assert es[i] in es;
      GatherItem(holders, values, es, i);
      holders := WithHolder(holders, es[i].hash.value, Item(es[i]));
    }
    assert es[..|es|] == es;
  }

  method GatherFounds(before: map<Digest, seq<Holder>>, values: seq<Digest>, es: seq<EvidenceRow>, found: seq<ArtifactRow>)
    returns (holders: map<Digest, seq<Holder>>)
    requires forall a | a in found :: a.sha.Some? && a.sha.value in values
    requires Gathered(before, values, es, [])
    ensures Gathered(holders, values, es, found)
  {
    holders := before;
    for i := 0 to |found|
      invariant Gathered(holders, values, es, found[..i])
    {
      assert found[i] in found;
      GatherFound(holders, values, es, found, i);
      holders := WithHolder(holders, found[i].sha.value, Found(found[i]));
    }
    assert found[..|found|] == found;
  }

  /** The two queries for all values at once, sorted into one list per value. */
  method GatherHolders(db: Db, scope: Scope, values: seq<Digest>) returns (holders: map<Digest, seq<Holder>>)
    ensures forall v | v in values :: v in holders && holders[v] == Holders(db, scope, v)
  {
    FilterIn(db.evidence, EvidenceAmong(db, scope, values));
    FilterIn(db.artifacts, ArtifactAmong(db, scope, values));
    var es := Filter(db.evidence, EvidenceAmong(db, scope, values));
    holders := GatherItems(values, es);
    holders := GatherFounds(holders, values, es, Filter(db.artifacts, ArtifactAmong(db, scope, values)));
    GatheredAll(db, scope, values, holders);
  }

  // After a refused hash node nothing more can be added: the graph is full, and every remaining edge
  // would join a hash node that is not there. So stopping there is the same as going on.

  ghost predicate Full(g: GraphValue) {
    g.truncated && |g.nodes| >= MAX_NODES
  }

  lemma {:induction false} NoHolderAdds(g: GraphValue, holders: seq<Holder>, value: Digest, exclude: Option<nat>)
    requires Full(g) && HashId(value) !in g.nodes
    ensures Apply(g, Flat(holders, HolderCmds(value, exclude))) == g
  {
    if holders != [] {
      var n := |holders| - 1;
      var h := holders[n];
      NoHolderAdds(g, holders[..n], value, exclude);
      var shown := match h case Item(e) => ShowEvidence(e, Elsewhere(e, exclude)) case Found(a) => ShowArtifact(a);
      var cs := NodeAndEdge(HolderId(h), shown, HolderId(h), HashId(value), Identity, HasSha);
      One(g, cs[0]);
      ApplyConcat(g, [cs[0]], [cs[1]]);
      One(g, cs[1]);
      assert cs == [cs[0]] + [cs[1]];
      ApplyConcat(g, Flat(holders[..n], HolderCmds(value, exclude)), cs);
    }
  }

  lemma NoValueAdds(g: GraphValue, holders: seq<Holder>, value: Digest, shared: bool, exclude: Option<nat>)
    requires Full(g) && HashId(value) !in g.nodes
    ensures Apply(g, ValueCmds(holders, value, shared, exclude)) == g
  {
    var first := [AddNode(HashId(value), HashShown(value))];
    One(g, first[0]);
    ApplyConcat(g, first, Flat(holders, HolderCmds(value, exclude)));
    NoHolderAdds(g, holders, value, exclude);
  }

  lemma {:induction false} NothingAdds(
    g: GraphValue, db: Db, scope: Scope, values: seq<Digest>, shared: bool, exclude: Option<nat>)
    requires Full(g) && forall v | v in values :: HashId(v) !in g.nodes
    ensures Apply(g, HashCmds(db, scope, values, shared, exclude)) == g
  {
    if values != [] {
      var n := |values| - 1;
      NothingAdds(g, db, scope, values[..n], shared, exclude);
      NoValueAdds(g, Holders(db, scope, values[n]), values[n], shared, exclude);
      ApplyConcat(g, HashCmds(db, scope, values[..n], shared, exclude),
                  ValueCmds(Holders(db, scope, values[n]), values[n], shared, exclude));
    }
  }

  lemma {:induction false} FlatConcat<R>(a: seq<R>, b: seq<R>, f: R -> seq<Cmd>)
    ensures Flat(a + b, f) == Flat(a, f) + Flat(b, f)
  {
    if b == [] {
      assert a + b == a;
    } else {
      var n := |b| - 1;
      var x, y, last := Flat(a, f), Flat(b[..n], f), f(b[n]);
      assert Flat(a + b, f) == Flat(a + b[..n], f) + last by {
        assert (a + b)[..|a| + n] == a + b[..n] && (a + b)[|a| + n] == b[n];
      }
      assert Flat(a + b[..n], f) == x + y by { FlatConcat(a, b[..n], f); }
      assert (x + y) + last == x + (y + last);
    }
  }

  /** The remaining values, from a full graph that has none of them. */
  lemma StopEarly(g0: GraphValue, g: GraphValue, db: Db, scope: Scope, values: seq<Digest>, i: nat, shared: bool,
      exclude: Option<nat>)
    requires i <= |values| && g == Apply(g0, HashCmds(db, scope, values[..i], shared, exclude))
    requires Full(g) && forall j | i <= j < |values| :: HashId(values[j]) !in g.nodes
    ensures g == Apply(g0, HashCmds(db, scope, values, shared, exclude))
  {
    FlatConcat(values[..i], values[i..], HashCmdsFor(db, scope, shared, exclude));
    assert values == values[..i] + values[i..];
    ApplyConcat(g0, HashCmds(db, scope, values[..i], shared, exclude), HashCmds(db, scope, values[i..], shared, exclude));
    NothingAdds(g, db, scope, values[i..], shared, exclude);
  }

  ghost predicate NoneThere(g: GraphValue, values: seq<Digest>, i: nat) {
    forall j | i <= j < |values| :: HashId(values[j]) !in g.nodes
  }

  lemma HoldersAddNoHash(g: GraphValue, holders: seq<Holder>, value: Digest, exclude: Option<nat>, other: Digest)
    requires HashId(other) !in g.nodes
    ensures HashId(other) !in Apply(g, Flat(holders, HolderCmds(value, exclude))).nodes
  {
    var f := HolderCmds(value, exclude);
    NodesOnlyAsked(g, Flat(holders, f));
    FlatIds(holders, f);
    forall h: Holder ensures Ids(f(h)) == {HolderId(h)} {
      var shown := match h case Item(e) => ShowEvidence(e, Elsewhere(e, exclude)) case Found(a) => ShowArtifact(a);
      CaseGraph.PairIds(HolderId(h), shown, HolderId(h), HashId(value), Identity, HasSha);
    }
  }

  ghost predicate Distinct(values: seq<Digest>) {
    forall i, j | 0 <= i < j < |values| :: values[i] != values[j]
  }

  /** One hash node with its holders; false when the node was refused. */
  method AddHash(g: Builder, items: seq<Holder>, shared: bool, exclude: Option<nat>, values: seq<Digest>, i: nat)
    returns (more: bool)
    requires i < |values| && NoneThere(g.Value(), values, i) && Distinct(values)
    modifies g
    ensures g.Value() == Apply(old(g.Value()), ValueCmds(items, values[i], shared, exclude))
    ensures NoneThere(g.Value(), values, i + 1)
    ensures !more ==> Full(g.Value())
  {
    if shared && |items| < 2 {
      return true;
    }
    var v := values[i];
    ghost var before := g.Value();
    ghost var first := AddNode(HashId(v), HashShown(v));
    One(before, first);
    ApplyConcat(before, [first], Flat(items, HolderCmds(v, exclude)));
    more := g.Node(HashId(v), HashShown(v));
    if !more {
      NoHolderAdds(g.Value(), items, v, exclude);
      return;
    }
    forall j | i < j < |values|
      ensures HashId(values[j]) !in Apply(g.Value(), Flat(items, HolderCmds(v, exclude))).nodes
    {
      HoldersAddNoHash(g.Value(), items, v, exclude, values[j]);
    }
    HoldersAreGuarded(v, exclude);
    AddRows(g, items, HolderCmds(v, exclude));
  }

  method AddHashes(g: Builder, db: Db, scope: Scope, values: seq<Digest>, holders: map<Digest, seq<Holder>>, shared: bool,
      exclude: Option<nat>)
    requires NoneThere(g.Value(), values, 0) && Distinct(values)
    requires forall v | v in values :: v in holders && holders[v] == Holders(db, scope, v)
    modifies g
    ensures g.Value() == Apply(old(g.Value()), HashCmds(db, scope, values, shared, exclude))
  {
    for i := 0 to |values|
      invariant g.Value() == Apply(old(g.Value()), HashCmds(db, scope, values[..i], shared, exclude))
      invariant NoneThere(g.Value(), values, i)
    {
      ghost var done := HashCmds(db, scope, values[..i], shared, exclude);
      ghost var adds := ValueCmds(Holders(db, scope, values[i]), values[i], shared, exclude);
      HashesNext(db, scope, values, i, shared, exclude);
      ApplyConcat(old(g.Value()), done, adds);
      assert values[i] in values;
      var more := AddHash(g, holders[values[i]], shared, exclude, values, i);
      assert g.Value() == Apply(old(g.Value()), HashCmds(db, scope, values[..i + 1], shared, exclude));
      if !more {
        StopEarly(old(g.Value()), g.Value(), db, scope, values, i + 1, shared, exclude);
        return;
      }
    }
    assert values[..|values|] == values;
  }

  lemma HashesNext(db: Db, scope: Scope, values: seq<Digest>, i: nat, shared: bool, exclude: Option<nat>)
    requires i < |values|
    ensures HashCmds(db, scope, values[..i + 1], shared, exclude)
         == HashCmds(db, scope, values[..i], shared, exclude)
            + ValueCmds(Holders(db, scope, values[i]), values[i], shared, exclude)
  {
    FlatSnoc(values, i, HashCmdsFor(db, scope, shared, exclude));
  }

  /** _add_hash_links */
  method AddHashLinks(g: Builder, db: Db, scope: Scope, hashes: set<Digest>, shared: bool, exclude: Option<nat>)
    requires forall v | v in hashes :: HashId(v) !in g.nodes
    modifies g
    ensures g.Value() == Apply(old(g.Value()), HashCmds(db, scope, Sorted(hashes), shared, exclude))
  {
    if hashes == {} {
      return;
    }
    var values := Sorted(hashes);
    SortedIs(hashes);
    var holders := GatherHolders(db, scope, values);
    forall j | 0 <= j < |values| ensures HashId(values[j]) !in g.nodes {
      assert values[j] in values;
    }
    AddHashes(g, db, scope, values, holders, shared, exclude);
  }

  // ---------------------------------------------------------------------------
  // case_graph
  // ---------------------------------------------------------------------------

  /** Nothing but _add_hash_links asks for a hash node. */
  ghost predicate NoHash(cs: seq<Cmd>) {
    forall c | c in cs && c.AddNode? :: c.id.Id?
  }

  lemma NoHashThere(cs: seq<Cmd>)
    requires NoHash(cs)
    ensures forall v :: HashId(v) !in Apply(EMPTY, cs).nodes
  {
    NodesOnlyAsked(EMPTY, cs);
    forall id | id in Ids(cs) ensures id.Id? {
      var i :| 0 <= i < |cs| && cs[i].AddNode? && cs[i].id == id;
      assert cs[i] in cs;
    }
  }

  lemma {:induction false} FlatNoHash<R>(rows: seq<R>, f: R -> seq<Cmd>)
    requires forall r :: NoHash(f(r))
    ensures NoHash(Flat(rows, f))
  {
    if rows != [] {
      FlatNoHash(rows[..|rows| - 1], f);
      assert NoHash(f(rows[|rows| - 1]));
    }
  }

  lemma RecordsHaveNoHash(db: Db, c: CaseRow)
    ensures NoHash(RecordCmds(db, c))
  {
    FlatNoHash(Filter(db.assignments, AssignmentIn(c.id)), PersonCmds(CaseId(c)));
    FlatNoHash(Filter(db.evidence, EvidenceIn(c.id)), EvidenceCmds(CaseId(c)));
    FlatNoHash(Filter(db.exams, ExamIn(c.id)), ExamCmds(CaseId(c)));
    FlatNoHash(Filter(db.links, LinkIn(c.id)), LinkCmds());
    FlatNoHash(Filter(db.reports, ReportIn(c.id)), ReportCmds(CaseId(c)));
    FlatNoHash(Filter(db.cites, CiteIn(c.id)), CiteCmds());
    FlatNoHash(Filter(db.artifacts, ArtifactIn(c.id)), ArtifactCmds());
  }

  lemma YaraHasNoHash(db: Db, ids: set<nat>)
    ensures NoHash(YaraCmds(db, ids))
  {
    FlatNoHash(Filter(db.matches, MatchOf(ids)), MatchCmds());
  }

  method AddRecords(g: Builder, db: Db, c: CaseRow)
    modifies g
    ensures g.Value() == Apply(old(g.Value()), RecordCmds(db, c))
  {
    ghost var g0 := g.Value();
    ghost var s0 := [AddNode(CaseId(c), ShowCase(c))];
    ghost var s1 := s0 + People(db, c);
    ghost var s2 := s1 + CaseItems(db, c);
    ghost var s3 := s2 + CaseExams(db, c);
    ghost var s4 := s3 + CaseLinks(db, c);
    ghost var s5 := s4 + CaseReports(db, c);
    ghost var s6 := s5 + CaseCites(db, c);
    var cnode := CaseId(c);
    RowsAreGuarded(cnode);
    One(g0, s0[0]);
    var _ := g.Node(cnode, ShowCase(c));
    ApplyConcat(g0, s0, People(db, c));
    AddRows(g, Filter(db.assignments, AssignmentIn(c.id)), PersonCmds(cnode));
    ApplyConcat(g0, s1, CaseItems(db, c));
    AddRows(g, Filter(db.evidence, EvidenceIn(c.id)), EvidenceCmds(cnode));
    ApplyConcat(g0, s2, CaseExams(db, c));
    AddRows(g, Filter(db.exams, ExamIn(c.id)), ExamCmds(cnode));
    ApplyConcat(g0, s3, CaseLinks(db, c));
    AddRows(g, Filter(db.links, LinkIn(c.id)), LinkCmds());
    ApplyConcat(g0, s4, CaseReports(db, c));
    AddRows(g, Filter(db.reports, ReportIn(c.id)), ReportCmds(cnode));
    ApplyConcat(g0, s5, CaseCites(db, c));
    AddRows(g, Filter(db.cites, CiteIn(c.id)), CiteCmds());
    ApplyConcat(g0, s6, CaseArtifacts(db, c));
    AddRows(g, Filter(db.artifacts, ArtifactIn(c.id)), ArtifactCmds());
  }

  /** Whether the case is visible; if it is, its graph is in g, which was empty. */
  method BuildCaseGraph(g: Builder, db: Db, scope: Scope, reference: string, shared: bool) returns (found: bool)
    requires g.Value() == EMPTY
    modifies g
    ensures found <==> CasePlan(db, scope, reference, shared).Some?
    ensures found ==> g.Value() == Apply(EMPTY, CasePlan(db, scope, reference, shared).value)
    ensures !found ==> g.Value() == EMPTY
    ensures found <==> exists c | c in db.cases ::
      c.reference == reference && (scope.labWide || exists a | a in db.assignments :: a.inCase.id == c.id && a.user.id == scope.user)
    ensures found && Valid(db) ==>
      && GraphText.Tells(db, g.Value())
      && forall c | c in db.cases && c.reference == reference :: CaseGraph.IsExact(db, scope, c, shared, g.Value())
  {
    CaseIsFound(db, scope, reference);
    var visible := CaseByReference(db, scope, reference);
    if visible.None? {
      return false;
    }
    var c := visible.value;
    var es, artifacts := Filter(db.evidence, EvidenceIn(c.id)), Filter(db.artifacts, ArtifactIn(c.id));
    ghost var records, yara := RecordCmds(db, c), YaraCmds(db, IdsOf(es));
    AddRecords(g, db, c);
    AddYara(g, db, IdsOf(es));
    ApplyConcat(EMPTY, records, yara);
    RecordsHaveNoHash(db, c);
    YaraHasNoHash(db, IdsOf(es));
    NoHashThere(records + yara);
    ApplyConcat(EMPTY, records + yara, HashCmds(db, scope, Sorted(HashesOf(es, artifacts)), shared, Some(c.id)));
    AddHashLinks(g, db, scope, HashesOf(es, artifacts), shared, Some(c.id));
    if Valid(db) {
      CaseGraph.CaseGraphIsExact(db, scope, c, shared);
      GraphText.CaseTells(db, scope, c, shared);
    }
    return true;
  }

  // ---------------------------------------------------------------------------
  // expand
  // ---------------------------------------------------------------------------

  lemma SortedOne(value: Digest)
    ensures Sorted({value}) == [value]
  {
    SortedIs({value});
    assert Sorted({value})[0] in Sorted({value});
    assert {value} - {Sorted({value})[0]} == {};
  }

  /** The hash links of one record, when it has a hash. */
  method AddHashOf(g: Builder, db: Db, scope: Scope, value: Option<Digest>)
    requires forall v :: HashId(v) !in g.nodes
    modifies g
    ensures g.Value() == Apply(old(g.Value()), HashOf(db, scope, value))
  {
    if value.Some? {
      SortedOne(value.value);
      AddHashLinks(g, db, scope, {value.value}, false, None);
    }
  }

  /** A first node, and a second with an edge between them. */
  method AddTwo(g: Builder, id: NodeId, shown: Shown, other: NodeId, otherShown: Shown, source: NodeId, target: NodeId,
      text: EdgeLabel)
    requires other == source || other == target
    modifies g
    ensures g.Value() == Apply(old(g.Value()),
                               [AddNode(id, shown)] + NodeAndEdge(other, otherShown, source, target, Recorded, text))
  {
    One(g.Value(), AddNode(id, shown));
    ApplyConcat(g.Value(), [AddNode(id, shown)], NodeAndEdge(other, otherShown, source, target, Recorded, text));
    var _ := g.Node(id, shown);
    var _ := g.Node(other, otherShown);
    ghost var middle := Apply(old(g.Value()), [AddNode(id, shown)]);
    One(middle, AddNode(other, otherShown));
    ApplyConcat(middle, [AddNode(other, otherShown)], [AddEdge(EdgeKey(source, target, Recorded), text)]);
    One(g.Value(), AddEdge(EdgeKey(source, target, Recorded), text));
    assert NodeAndEdge(other, otherShown, source, target, Recorded, text)
        == [AddNode(other, otherShown)] + [AddEdge(EdgeKey(source, target, Recorded), text)];
    g.Edge(source, target, Recorded, text);
  }

  lemma EvidenceHasNoHash(db: Db, node: NodeId, e: EvidenceRow)
    ensures NoHash([AddNode(EvidenceId(e), ShowEvidence(e, None))]
                   + NodeAndEdge(CaseId(e.inCase), ShowCase(e.inCase), CaseId(e.inCase), node, Recorded, Contains)
                   + Flat(Filter(db.links, LinkOfEvidence(e.id)), LinkedExamCmds(node))
                   + Flat(Filter(db.artifacts, ArtifactOfEvidence(e.id)), FoundInCmds(node))
                   + YaraCmds(db, {e.id}))
  {
    FlatNoHash(Filter(db.links, LinkOfEvidence(e.id)), LinkedExamCmds(node));
    FlatNoHash(Filter(db.artifacts, ArtifactOfEvidence(e.id)), FoundInCmds(node));
    YaraHasNoHash(db, {e.id});
  }

  method ExpandEvidence(g: Builder, db: Db, scope: Scope, node: NodeId, e: EvidenceRow)
    requires g.Value() == EMPTY
    modifies g
    ensures g.Value() == Apply(EMPTY, EvidencePlan(db, scope, node, e))
  {
    RowsAreGuarded(node);
    ghost var s1 := [AddNode(EvidenceId(e), ShowEvidence(e, None))]
      + NodeAndEdge(CaseId(e.inCase), ShowCase(e.inCase), CaseId(e.inCase), node, Recorded, Contains);
    ghost var s2 := s1 + Flat(Filter(db.links, LinkOfEvidence(e.id)), LinkedExamCmds(node));
    ghost var s3 := s2 + Flat(Filter(db.artifacts, ArtifactOfEvidence(e.id)), FoundInCmds(node));
    ghost var s4 := s3 + YaraCmds(db, {e.id});
    AddTwo(g, EvidenceId(e), ShowEvidence(e, None), CaseId(e.inCase), ShowCase(e.inCase), CaseId(e.inCase), node, Contains);
    ApplyConcat(EMPTY, s1, Flat(Filter(db.links, LinkOfEvidence(e.id)), LinkedExamCmds(node)));
    AddRows(g, Filter(db.links, LinkOfEvidence(e.id)), LinkedExamCmds(node));
    ApplyConcat(EMPTY, s2, Flat(Filter(db.artifacts, ArtifactOfEvidence(e.id)), FoundInCmds(node)));
    AddRows(g, Filter(db.artifacts, ArtifactOfEvidence(e.id)), FoundInCmds(node));
    ApplyConcat(EMPTY, s3, YaraCmds(db, {e.id}));
    AddYara(g, db, {e.id});
    EvidenceHasNoHash(db, node, e);
    NoHashThere(s4);
    ApplyConcat(EMPTY, s4, HashOf(db, scope, e.hash));
    AddHashOf(g, db, scope, e.hash);
  }

  method ExpandRule(g: Builder, db: Db, scope: Scope, node: NodeId, r: RuleRow)
    requires g.Value() == EMPTY
    modifies g
    ensures g.Value() == Apply(EMPTY, RulePlan(db, scope, node, r))
  {
    RowsAreGuarded(node);
    One(EMPTY, AddNode(RuleId(r), RuleShown(r.name)));
    var _ := g.Node(RuleId(r), RuleShown(r.name));
    ApplyConcat(EMPTY, [AddNode(RuleId(r), RuleShown(r.name))],
                Flat(Filter(db.matches, MatchOfRule(db, scope, r.id)), MatchedItemCmds(node)));
    AddRows(g, Filter(db.matches, MatchOfRule(db, scope, r.id)), MatchedItemCmds(node));
  }

  /** An investigator learns nothing about people outside their cases. */
  method ExpandUser(g: Builder, db: Db, scope: Scope, node: NodeId, u: UserRow) returns (found: bool)
    requires g.Value() == EMPTY
    modifies g
    ensures found <==> UserPlan(db, scope, node, u).Some?
    ensures found ==> g.Value() == Apply(EMPTY, UserPlan(db, scope, node, u).value)
  {
    var cases := Filter(db.assignments, CaseOfUser(db, scope, u.id));
    if cases == [] && !scope.labWide {
      return false;
    }
    RowsAreGuarded(node);
    One(EMPTY, AddNode(node, UserShown(u.fullName, false)));
    var _ := g.Node(node, UserShown(u.fullName, false));
    ApplyConcat(EMPTY, [AddNode(node, UserShown(u.fullName, false))], Flat(cases, AssignedCaseCmds(node)));
    AddRows(g, cases, AssignedCaseCmds(node));
    return true;
  }

  method ExpandExam(g: Builder, db: Db, node: NodeId, x: ExamRow)
    requires g.Value() == EMPTY
    modifies g
    ensures g.Value() == Apply(EMPTY, ExamPlan(db, node, x))
  {
    RowsAreGuarded(node);
    ghost var s1 := [AddNode(ExamId(x), ShowExam(x))]
      + NodeAndEdge(CaseId(x.inCase), ShowCase(x.inCase), CaseId(x.inCase), node, Recorded, Examination);
    ghost var s2 := s1 + Flat(Filter(db.links, LinkOfExam(x.id)), LinkedItemCmds(node));
    ghost var s3 := s2 + Flat(Filter(db.cites, CiteOfExam(x.id)), CitingCmds(node));
    AddTwo(g, ExamId(x), ShowExam(x), CaseId(x.inCase), ShowCase(x.inCase), CaseId(x.inCase), node, Examination);
    ApplyConcat(EMPTY, s1, Flat(Filter(db.links, LinkOfExam(x.id)), LinkedItemCmds(node)));
    AddRows(g, Filter(db.links, LinkOfExam(x.id)), LinkedItemCmds(node));
    ApplyConcat(EMPTY, s2, Flat(Filter(db.cites, CiteOfExam(x.id)), CitingCmds(node)));
    AddRows(g, Filter(db.cites, CiteOfExam(x.id)), CitingCmds(node));
    ApplyConcat(EMPTY, s3, Flat(Filter(db.artifacts, ArtifactOfExam(x.id)), FoundByCmds(node)));
    AddRows(g, Filter(db.artifacts, ArtifactOfExam(x.id)), FoundByCmds(node));
  }

  method ExpandReport(g: Builder, db: Db, node: NodeId, r: ReportRow)
    requires g.Value() == EMPTY
    modifies g
    ensures g.Value() == Apply(EMPTY, ReportPlan(db, node, r))
  {
    RowsAreGuarded(node);
    AddTwo(g, ReportId(r), ShowReport(r), CaseId(r.inCase), ShowCase(r.inCase), CaseId(r.inCase), node, Report);
    ApplyConcat(EMPTY, [AddNode(ReportId(r), ShowReport(r))]
                       + NodeAndEdge(CaseId(r.inCase), ShowCase(r.inCase), CaseId(r.inCase), node, Recorded, Report),
                Flat(Filter(db.cites, CiteOfReport(r.id)), CitedCmds(node)));
    AddRows(g, Filter(db.cites, CiteOfReport(r.id)), CitedCmds(node));
  }

  method ExpandArtifact(g: Builder, db: Db, scope: Scope, node: NodeId, a: ArtifactRow)
    requires g.Value() == EMPTY
    modifies g
    ensures g.Value() == Apply(EMPTY, ArtifactPlan(db, scope, node, a))
  {
    ghost var s1 := [AddNode(ArtifactId(a), ShowArtifact(a))]
      + NodeAndEdge(ExamId(a.exam), ShowExam(a.exam), ExamId(a.exam), node, Recorded, FoundArtifact);
    AddTwo(g, ArtifactId(a), ShowArtifact(a), ExamId(a.exam), ShowExam(a.exam), ExamId(a.exam), node, FoundArtifact);
    ghost var s2 := s1;
    if a.evidence.Some? {
      var e := a.evidence.value;
      var item := NodeAndEdge(EvidenceId(e), ShowEvidence(e, None), node, EvidenceId(e), Recorded, FoundIn);
      s2 := s1 + item;
      ApplyConcat(EMPTY, s1, item);
      AddRow(g, item);
    }
    assert a.evidence.None? ==> s1 + [] == s1;
    assert NoHash(s2);
    NoHashThere(s2);
    ApplyConcat(EMPTY, s2, HashOf(db, scope, a.sha));
    AddHashOf(g, db, scope, a.sha);
  }

  /** A hash is asked for even when nothing visible holds it, so its graph is never empty. */
  lemma HashGraphIsNotEmpty(db: Db, scope: Scope, value: Digest)
    ensures Apply(EMPTY, HashCmds(db, scope, [value], false, None)).nodes != map[]
  {
    var cs := HashCmds(db, scope, [value], false, None);
    GraphIsCapped(cs);
    CaseGraph.HashesAre(db, scope, [value], false, None, HashId(value), EdgeKey(HashId(value), HashId(value), Identity));
    assert CaseGraph.ValueHas(db, scope, false, value, HashId(value));
    assert value in [value];
    assert HashId(value) in Ids(cs);
  }

  lemma ExpansionIsRight(db: Db, scope: Scope, node: NodeId, shared: bool)
    ensures var plan := ExpandPlan(db, scope, node, shared);
      plan.Some? && Valid(db) ==>
        && (Plain(node) ==> IsExact(db, scope, node, shared, Apply(EMPTY, plan.value)))
        && GraphText.Tells(db, Apply(EMPTY, plan.value))
  {
    if ExpandPlan(db, scope, node, shared).Some? && Valid(db) {
      GraphText.ExpansionTells(db, scope, node, shared);
      if Plain(node) { ExpansionIsExact(db, scope, node, shared); }
    }
  }

  /** False: the node does not exist or is not visible. */
  method Expand(db: Db, scope: Scope, node: NodeId, shared: bool) returns (found: bool, g: Builder)
    ensures fresh(g)
    ensures found <==> Finds(db, scope, node)
    ensures found && Valid(db) && Plain(node) ==> IsExact(db, scope, node, shared, g.Value())
    ensures found && Valid(db) ==> GraphText.Tells(db, g.Value())
    ensures found <==> ExpandPlan(db, scope, node, shared).Some?
    ensures found ==> g.Value() == Apply(EMPTY, ExpandPlan(db, scope, node, shared).value)
  {
    g := new Builder();
    found := true;
    if node.HashId? {
      SortedOne(node.value);
      AddHashLinks(g, db, scope, {node.value}, false, None);
      HashGraphIsNotEmpty(db, scope, node.value);
      found := g.nodes != map[];
    } else {
      found := ExpandRecord(g, db, scope, node, shared);
    }
    ExpandFinds(db, scope, node, shared);
    ExpansionIsRight(db, scope, node, shared);
  }

  method ExpandRecord(g: Builder, db: Db, scope: Scope, node: NodeId, shared: bool) returns (found: bool)
    requires node.Id? && g.Value() == EMPTY
    modifies g
    ensures found <==> ExpandPlan(db, scope, node, shared).Some?
    ensures found ==> g.Value() == Apply(EMPTY, ExpandPlan(db, scope, node, shared).value)
  {
    var key := node.key;
    match node.kind
    case CaseNode =>
      var c := VisibleCase(db, scope, key);
      if c.None? {
        return false;
      }
      found := BuildCaseGraph(g, db, scope, c.value.reference, shared);
    case EvidenceNode =>
      var e := VisibleEvidence(db, scope, key);
      if e.None? {
        return false;
      }
      ExpandEvidence(g, db, scope, node, e.value);
      found := true;
    case RuleNode =>
      var r := RuleByKey(db, key);
      if r.None? {
        return false;
      }
      ExpandRule(g, db, scope, node, r.value);
      found := true;
    case UserNode =>
      var u := UserByKey(db, key);
      if u.None? {
        return false;
      }
      found := ExpandUser(g, db, scope, node, u.value);
    case ExamNode =>
      var x := VisibleExam(db, scope, key);
      if x.None? {
        return false;
      }
      ExpandExam(g, db, node, x.value);
      found := true;
    case ReportNode =>
      var r := VisibleReport(db, scope, key);
      if r.None? {
        return false;
      }
      ExpandReport(g, db, node, r.value);
      found := true;
    case ArtifactNode =>
      var a := VisibleArtifact(db, scope, key);
      if a.None? {
        return false;
      }
      ExpandArtifact(g, db, scope, node, a.value);
      found := true;
  }
}
