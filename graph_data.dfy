/** The knowledge graph as loaded by the front end: nodes and edges after the
    schema check, with their nullable fields given defaults. */
module GraphData {
  import opened Wrappers

  /** A JSON field that may be absent, `null`, or present. */
  datatype Field<T> = Missing | Null | Present(value: T)

  datatype GraphNode = GraphNode(
    id: string,
    caption: string,  // the `label` field
    community: Option<int>,
    level: Option<int>,
    degree: Option<int>)

  datatype GraphEdge = GraphEdge(
    id: string,
    source: string,
    target: string,
    weight: Option<real>,
    description: Field<string>)

  datatype Graph = Graph(nodes: seq<GraphNode>, edges: seq<GraphEdge>)

  /** JavaScript `field ?? null`: an absent field reads as `null`. */
  function OrNull<T>(f: Field<T>): (r: Field<T>)
    ensures r != Missing
    ensures f.Present? ==> r == f
    ensures !f.Present? ==> r == Null
  {
    if f.Missing? then Null else f
  }

  /** A node whose community, level and degree are all known. */
  predicate NodeDefaulted(n: GraphNode) {
    n.community.Some? && n.level.Some? && n.degree.Some?
  }

  /** An edge whose description is `null` or a string, never absent. */
  predicate EdgeDefaulted(e: GraphEdge) {
    e.description != Missing
  }

  predicate Defaulted(g: Graph) {
    (forall i :: 0 <= i < |g.nodes| ==> NodeDefaulted(g.nodes[i])) &&
    (forall i :: 0 <= i < |g.edges| ==> EdgeDefaulted(g.edges[i]))
  }

  /** Defaults of one node: null community becomes -1, null level and degree 0. */
  function DefaultNode(n: GraphNode): (r: GraphNode)
    ensures NodeDefaulted(r)
    ensures r.id == n.id && r.caption == n.caption
    ensures r.community == Some(if n.community.Some? then n.community.value else -1)
    ensures r.level == Some(if n.level.Some? then n.level.value else 0)
    ensures r.degree == Some(if n.degree.Some? then n.degree.value else 0)
  {
    n.(level := Some(n.level.GetOr(0)),
       degree := Some(n.degree.GetOr(0)),
       community := Some(n.community.GetOr(-1)))
  }

  /** Defaults of one edge: an absent description becomes `null`. */
  function DefaultEdge(e: GraphEdge): (r: GraphEdge)
    ensures EdgeDefaulted(r)
    ensures r.id == e.id && r.source == e.source && r.target == e.target && r.weight == e.weight
    ensures e.description.Present? ==> r.description == e.description
    ensures !e.description.Present? ==> r.description == Null
  {
    e.(description := OrNull(e.description))
  }

  /** The exported `graphData`: both lists mapped element by element. */
  function LoadGraph(g: Graph): (r: Graph)
    ensures Defaulted(r)
    ensures |r.nodes| == |g.nodes| && |r.edges| == |g.edges|
    ensures forall i :: 0 <= i < |g.nodes| ==> r.nodes[i] == DefaultNode(g.nodes[i])
    ensures forall i :: 0 <= i < |g.edges| ==> r.edges[i] == DefaultEdge(g.edges[i])
  {
    Graph(seq(|g.nodes|, i requires 0 <= i < |g.nodes| => DefaultNode(g.nodes[i])),
          seq(|g.edges|, i requires 0 <= i < |g.edges| => DefaultEdge(g.edges[i])))
  }

  /** A graph that already has every field is loaded unchanged. */
  lemma LoadDefaultedIdentity(g: Graph)
    requires Defaulted(g)
    ensures LoadGraph(g) == g
  {
    var r := LoadGraph(g);
    assert r.nodes == g.nodes by {
      forall i | 0 <= i < |g.nodes| ensures r.nodes[i] == g.nodes[i] {
        assert NodeDefaulted(g.nodes[i]);
      }
    }
    assert r.edges == g.edges;
  }

  /** Loading is idempotent: defaulting a second time changes nothing. */
  lemma LoadGraphIdempotent(g: Graph)
    ensures LoadGraph(LoadGraph(g)) == LoadGraph(g)
  {
    LoadDefaultedIdentity(LoadGraph(g));
  }
}
