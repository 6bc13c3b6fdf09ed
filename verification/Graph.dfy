/**
 The capped graph builder of app/graph/services.py.

 A relationship graph is built by a series of additions: nodes, refused once MAX_NODES are there, and
 edges, drawn only between two distinct nodes that are there. `Apply` is what a series of additions
 comes to; the class is the builder itself.
 */
module Graph {
  import opened Wrappers
  import opened Content

  const MAX_NODES: nat := 250

  datatype NodeKind = CaseNode | EvidenceNode | ExamNode | ReportNode | UserNode | ArtifactNode | RuleNode

  /** "evidence:7" is Id(EvidenceNode, 0, 7); "evidence:007", which a request may say, is Id(EvidenceNode, 2, 7). */
  datatype NodeId = Id(kind: NodeKind, zeros: nat, key: nat) | HashId(value: Digest)

  /** What a node shows; its address follows from it. */
  datatype Shown =
    | CaseShown(reference: string, title: string, status: nat)
    | EvidenceShown(code: string, description: string, elsewhere: Option<string>, integrity: nat)
    | ExamShown(code: string, typeName: string, status: nat)
    | ReportShown(code: string, title: string, status: nat)
    | UserShown(fullName: string, isLead: bool)
    | ArtifactShown(artifact: nat, artifactType: string, description: string, examCode: string)
    | RuleShown(name: string)
    | HashShown(value: Digest)

  datatype EdgeKind = Recorded | Outcome | Identity

  datatype EdgeLabel =
    | LeadInvestigator | AssignedTo | Contains | Examination | Examined | Report | Cites | FoundArtifact | FoundIn
    | HasSha | Matched(identifier: string, scan: nat)

  datatype EdgeKey = EdgeKey(source: NodeId, target: NodeId, kind: EdgeKind)

  datatype GraphValue = GraphValue(nodes: map<NodeId, Shown>, edges: map<EdgeKey, EdgeLabel>, truncated: bool)

  datatype Cmd = AddNode(id: NodeId, shown: Shown) | AddEdge(key: EdgeKey, text: EdgeLabel)

  const EMPTY := GraphValue(map[], map[], false)

  function Step(g: GraphValue, c: Cmd): GraphValue {
    match c
    case AddNode(id, shown) =>
      if id in g.nodes then g
      else if |g.nodes| >= MAX_NODES then g.(truncated := true)
      else g.(nodes := g.nodes[id := shown])
    case AddEdge(key, text) =>
      if key.source in g.nodes && key.target in g.nodes && key.source != key.target
      then g.(edges := g.edges[key := text]) else g
  }

  function Apply(g: GraphValue, cs: seq<Cmd>): GraphValue {
    if cs == [] then g else Step(Apply(g, cs[..|cs| - 1]), cs[|cs| - 1])
  }

  lemma ApplySnoc(g: GraphValue, cs: seq<Cmd>, c: Cmd)
    ensures Apply(g, cs + [c]) == Step(Apply(g, cs), c)
  {
    assert (cs + [c])[..|cs|] == cs;
  }

  lemma {:induction false} ApplyConcat(g: GraphValue, cs: seq<Cmd>, ds: seq<Cmd>)
    ensures Apply(g, cs + ds) == Apply(Apply(g, cs), ds)
  {
    if ds == [] {
      assert cs + ds == cs;
    } else {
      var n := |ds| - 1;
      assert cs + ds == (cs + ds[..n]) + [ds[n]];
      ApplySnoc(g, cs + ds[..n], ds[n]);
      ApplyConcat(g, cs, ds[..n]);
    }
  }

  // ---------------------------------------------------------------------------
  // The cap
  // ---------------------------------------------------------------------------

  /** The nodes a series asks for. */
  function Ids(cs: seq<Cmd>): set<NodeId> {
    set i | 0 <= i < |cs| && cs[i].AddNode? :: cs[i].id
  }

  function EdgeKeys(cs: seq<Cmd>): set<EdgeKey> {
    set i | 0 <= i < |cs| && cs[i].AddEdge? :: cs[i].key
  }

  ghost predicate WellFormed(g: GraphValue) {
    && |g.nodes| <= 250
    && forall k | k in g.edges :: k.source in g.nodes && k.target in g.nodes && k.source != k.target
  }

  lemma IdsSnoc(cs: seq<Cmd>, c: Cmd)
    ensures Ids(cs + [c]) == Ids(cs) + if c.AddNode? then {c.id} else {}
    ensures EdgeKeys(cs + [c]) == EdgeKeys(cs) + if c.AddEdge? then {c.key} else {}
  {
    var ds := cs + [c];
    assert ds[|cs|] == c;
    assert forall i | 0 <= i < |cs| :: ds[i] == cs[i];
  }

  lemma IdsConcat(cs: seq<Cmd>, ds: seq<Cmd>)
    ensures Ids(cs + ds) == Ids(cs) + Ids(ds)
    ensures EdgeKeys(cs + ds) == EdgeKeys(cs) + EdgeKeys(ds)
  {
    assert forall i | 0 <= i < |cs| :: (cs + ds)[i] == cs[i];
    assert forall i | 0 <= i < |ds| :: (cs + ds)[|cs| + i] == ds[i];
  }

  /** The first nodes asked for are the ones that stay, as long as there is room. */
  ghost predicate Capped(g: GraphValue, asked: set<NodeId>) {
    && g.nodes.Keys <= asked
    && (g.truncated <==> |asked| > MAX_NODES)
    && |g.nodes| == if |asked| > MAX_NODES then MAX_NODES else |asked|
  }

  lemma SubsetSize(a: set<NodeId>, b: set<NodeId>)
    requires a <= b
    ensures |a| <= |b|
    ensures |a| == |b| ==> a == b
  {
    assert |b| == |a| + |b - a| by { assert b == a + (b - a); }
    assert |b - a| == 0 ==> b - a == {};
  }

  lemma CapStep(g: GraphValue, asked: set<NodeId>, c: Cmd)
    requires Capped(g, asked)
    ensures Capped(Step(g, c), asked + if c.AddNode? then {c.id} else {})
  {
    if c.AddNode? {
      CapNode(g, asked, c.id, c.shown);
    } else {
      assert asked + {} == asked;
    }
  }

  lemma CapNode(g: GraphValue, asked: set<NodeId>, id: NodeId, shown: Shown)
    requires Capped(g, asked)
    ensures Capped(Step(g, AddNode(id, shown)), asked + {id})
  {
    SubsetSize(g.nodes.Keys, asked);
    assert |asked + {id}| == if id in asked then |asked| else |asked| + 1 by {
      assert id in asked ==> asked + {id} == asked;
    }
    var t := Step(g, AddNode(id, shown));
    if id !in g.nodes && |g.nodes| < MAX_NODES {
      assert t.nodes.Keys == g.nodes.Keys + {id};
      assert |t.nodes| == |g.nodes| + 1;
    }
  }

  lemma {:induction false} CapHolds(cs: seq<Cmd>)
    ensures Capped(Apply(EMPTY, cs), Ids(cs))
  {
    if cs != [] {
      var n := |cs| - 1;
      var g, asked := Apply(EMPTY, cs[..n]), Ids(cs[..n]);
      assert Capped(g, asked) by { CapHolds(cs[..n]); }
      assert Ids(cs) == asked + if cs[n].AddNode? then {cs[n].id} else {} by {
        assert cs == cs[..n] + [cs[n]];
        IdsSnoc(cs[..n], cs[n]);
      }
      CapStep(g, asked, cs[n]);
    }
  }

  lemma {:induction false} EdgesJoinNodes(cs: seq<Cmd>)
    ensures forall k | k in Apply(EMPTY, cs).edges ::
              k.source in Apply(EMPTY, cs).nodes && k.target in Apply(EMPTY, cs).nodes && k.source != k.target
  {
    if cs != [] {
      EdgesJoinNodes(cs[..|cs| - 1]);
    }
  }

  /**
   A graph never has more than MAX_NODES nodes, each edge joins two distinct nodes of it, and it says
   it is truncated exactly when more nodes were asked for, that is when some node was left out.
   */
  lemma GraphIsCapped(cs: seq<Cmd>)
    ensures Capped(Apply(EMPTY, cs), Ids(cs))
    ensures WellFormed(Apply(EMPTY, cs))
    ensures Apply(EMPTY, cs).truncated <==> Apply(EMPTY, cs).nodes.Keys != Ids(cs)
  {
    var g := Apply(EMPTY, cs);
    CapHolds(cs);
    EdgesJoinNodes(cs);
    assert |g.nodes| == |g.nodes.Keys|;
    SubsetSize(g.nodes.Keys, Ids(cs));
  }

  lemma One(g: GraphValue, c: Cmd)
    ensures Apply(g, [c]) == Step(g, c)
  {
    ApplySnoc(g, [], c);
    assert [] + [c] == [c];
  }

  lemma StepNodes(g: GraphValue, c: Cmd)
    ensures Step(g, c).nodes.Keys <= g.nodes.Keys + if c.AddNode? then {c.id} else {}
  {
  }

  lemma {:induction false} NodesOnlyAsked(g: GraphValue, cs: seq<Cmd>)
    ensures Apply(g, cs).nodes.Keys <= g.nodes.Keys + Ids(cs)
  {
    if cs != [] {
      var n := |cs| - 1;
      NodesOnlyAsked(g, cs[..n]);
      StepNodes(Apply(g, cs[..n]), cs[n]);
      assert Ids(cs) == Ids(cs[..n]) + if cs[n].AddNode? then {cs[n].id} else {} by {
        assert cs == cs[..n] + [cs[n]];
        IdsSnoc(cs[..n], cs[n]);
      }
    }
  }

  // ---------------------------------------------------------------------------
  // Edges
  // ---------------------------------------------------------------------------

  /** No edge is asked for before its two nodes; the nodes in `before` are there already. */
  predicate EdgeAt(cs: seq<Cmd>, before: set<NodeId>, i: nat)
    requires i < |cs|
  {
    cs[i].AddEdge? ==>
      && cs[i].key.source in before + Ids(cs[..i]) && cs[i].key.target in before + Ids(cs[..i])
      && cs[i].key.source != cs[i].key.target
  }

  ghost predicate NodesFirst(cs: seq<Cmd>, before: set<NodeId>) {
    forall i: nat | i < |cs| :: EdgeAt(cs, before, i)
  }

  lemma NodesFirstConcat(cs: seq<Cmd>, ds: seq<Cmd>, before: set<NodeId>)
    requires NodesFirst(cs, before) && NodesFirst(ds, before + Ids(cs))
    ensures NodesFirst(cs + ds, before)
  {
    var es := cs + ds;
    forall i: nat | i < |es| ensures EdgeAt(es, before, i) {
      if i < |cs| {
        assert EdgeAt(cs, before, i) && es[..i] == cs[..i];
      } else {
        assert EdgeAt(ds, before + Ids(cs), i - |cs|);
        assert es[..i] == cs + ds[..i - |cs|];
        IdsConcat(cs, ds[..i - |cs|]);
      }
    }
  }

  lemma NodesFirstMore(cs: seq<Cmd>, before: set<NodeId>, more: set<NodeId>)
    requires NodesFirst(cs, before) && before <= more
    ensures NodesFirst(cs, more)
  {
    forall i: nat | i < |cs| ensures EdgeAt(cs, more, i) {
      assert EdgeAt(cs, before, i);
    }
  }

  lemma EdgeStep(g: GraphValue, asked: set<NodeId>, drawn: set<EdgeKey>, c: Cmd)
    requires g.nodes.Keys == asked && g.edges.Keys == drawn
    requires c.AddEdge? ==> c.key.source in asked && c.key.target in asked && c.key.source != c.key.target
    ensures Step(g, c).edges.Keys == drawn + if c.AddEdge? then {c.key} else {}
  {
  }

  /** When nothing is left out, every edge asked for is drawn, and no other. */
  lemma {:induction false} AllEdgesDrawn(cs: seq<Cmd>)
    requires NodesFirst(cs, {}) && |Ids(cs)| <= MAX_NODES
    ensures Apply(EMPTY, cs).edges.Keys == EdgeKeys(cs)
    ensures Apply(EMPTY, cs).nodes.Keys == Ids(cs)
  {
    if cs != [] {
      var n := |cs| - 1;
      var init, c := cs[..n], cs[n];
      assert cs == init + [c];
      IdsSnoc(init, c);
      SubsetSize(Ids(init), Ids(cs));
      assert NodesFirst(init, {}) by {
        forall i: nat | i < n ensures EdgeAt(init, {}, i) {
          assert EdgeAt(cs, {}, i) && cs[..i] == init[..i];
        }
      }
      AllEdgesDrawn(init);
      assert EdgeAt(cs, {}, n);
      EdgeStep(Apply(EMPTY, init), Ids(init), EdgeKeys(init), c);
    }
    GraphIsCapped(cs);
  }

  // ---------------------------------------------------------------------------
  // One series per row
  // ---------------------------------------------------------------------------

  function Flat<R>(rows: seq<R>, f: R -> seq<Cmd>): seq<Cmd> {
    if rows == [] then [] else Flat(rows[..|rows| - 1], f) + f(rows[|rows| - 1])
  }

  lemma FlatSnoc<R>(rows: seq<R>, i: nat, f: R -> seq<Cmd>)
    requires i < |rows|
    ensures Flat(rows[..i + 1], f) == Flat(rows[..i], f) + f(rows[i])
  {
    assert rows[..i + 1][..i] == rows[..i];
  }

  lemma {:induction false} FlatIds<R>(rows: seq<R>, f: R -> seq<Cmd>)
    ensures forall id :: id in Ids(Flat(rows, f)) <==> exists i :: 0 <= i < |rows| && id in Ids(f(rows[i]))
  {
    if rows != [] {
      var n := |rows| - 1;
      FlatIds(rows[..n], f);
      IdsConcat(Flat(rows[..n], f), f(rows[n]));
      assert forall i | 0 <= i < n :: rows[..n][i] == rows[i];
    }
  }

  lemma {:induction false} FlatEdges<R>(rows: seq<R>, f: R -> seq<Cmd>)
    ensures forall k :: k in EdgeKeys(Flat(rows, f)) <==> exists i :: 0 <= i < |rows| && k in EdgeKeys(f(rows[i]))
  {
    if rows != [] {
      var n := |rows| - 1;
      FlatEdges(rows[..n], f);
      IdsConcat(Flat(rows[..n], f), f(rows[n]));
      assert forall i | 0 <= i < n :: rows[..n][i] == rows[i];
    }
  }

  lemma {:induction false} FlatNodesFirst<R>(rows: seq<R>, f: R -> seq<Cmd>, before: set<NodeId>)
    requires forall i | 0 <= i < |rows| :: NodesFirst(f(rows[i]), before)
    ensures NodesFirst(Flat(rows, f), before)
  {
    if rows != [] {
      var n := |rows| - 1;
      FlatNodesFirst(rows[..n], f, before);
      NodesFirstMore(f(rows[n]), before, before + Ids(Flat(rows[..n], f)));
      NodesFirstConcat(Flat(rows[..n], f), f(rows[n]), before);
    }
  }

  // ---------------------------------------------------------------------------
  // The builder
  // ---------------------------------------------------------------------------

  class Builder {
    var nodes: map<NodeId, Shown>
    var edges: map<EdgeKey, EdgeLabel>
    var truncated: bool

    function Value(): GraphValue
      reads this
    {
      GraphValue(nodes, edges, truncated)
    }

    constructor ()
      ensures Value() == EMPTY
    {
      nodes := map[];
      edges := map[];
      truncated := false;
    }

    /** Whether the node is in the graph now. */
    method Node(id: NodeId, shown: Shown) returns (there: bool)
      modifies this
      ensures Value() == Step(old(Value()), AddNode(id, shown))
      ensures there <==> id in nodes
    {
      if id in nodes {
        return true;
      }
      if |nodes| >= MAX_NODES {
        truncated := true;
        return false;
      }
      nodes := nodes[id := shown];
      return true;
    }

    method Edge(source: NodeId, target: NodeId, kind: EdgeKind, text: EdgeLabel)
      modifies this
      ensures Value() == Step(old(Value()), AddEdge(EdgeKey(source, target, kind), text))
    {
      if source in nodes && target in nodes && source != target {
        edges := edges[EdgeKey(source, target, kind) := text];
      }
    }
  }
}
