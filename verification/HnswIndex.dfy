/** The node and index objects of node.go and index.go. */
module HnswIndex {
  import opened HnswGraph

  const MAX_LEVEL: nat := 16

  class Node {
    const ID: NodeId
    var Vector: Vector
    var Metadata: Metadata
    var Links: seq<seq<NodeId>>
    var Deleted: bool

    function Value(): Vertex
      reads this
    {
      Vertex(Vector, Metadata, Links, Deleted)
    }

    constructor (id: NodeId, vector: Vector, metadata: Metadata, maxLayer: nat)
      ensures ID == id && Value() == Vertex(vector, metadata, seq(maxLayer + 1, _ => []), false)
    {
      ID := id;
      Vector := vector;
      Metadata := metadata;
      Links := seq(maxLayer + 1, _ => []);
      Deleted := false;
    }

    method GetLinks(layer: nat) returns (links: seq<NodeId>)
      ensures links == if layer < |Links| then Links[layer] else []
    {
      if layer >= |Links| {
        return [];
      }
      links := Links[layer];
    }

    method SetLinks(layer: nat, links: seq<NodeId>)
      modifies this`Links
      ensures Links == if layer < |old(Links)| then old(Links)[layer := links] else old(Links)
    {
      if layer >= |Links| {
        return;
      }
      Links := Links[layer := links];
    }
  }

  class Index {
    const metric: Metric
    const M: nat
    const Mmax0: nat
    const EfConstruction: nat
    var Ef: int
    var nodes: seq<Node>
    var idMap: map<string, NodeId>
    var reverseMap: seq<string>
    var entryPoint: NodeId
    var currentMaxLayer: nat

    constructor (metric: Metric, M: int, efConstruction: int)
      ensures this.metric == metric && nodes == [] && idMap == map[] && reverseMap == [] && Ef == 100
      ensures this.M == (if M <= 0 then 16 else M) && Mmax0 == 2 * this.M
      ensures EfConstruction == (if efConstruction <= 0 then 200 else efConstruction)
      ensures entryPoint == 0 && currentMaxLayer == 0
    {
      var m := if M <= 0 then 16 else M;
      this.metric := metric;
      this.M := m;
      Mmax0 := 2 * m;
      EfConstruction := if efConstruction <= 0 then 200 else efConstruction;
      Ef := 100;
      nodes, idMap, reverseMap := [], map[], [];
      entryPoint, currentMaxLayer := 0, 0;
    }

    /** Node i of the index carries ID i, so the node objects are all different. */
    ghost predicate Valid()
      reads this
    {
      forall i {:trigger nodes[i]} :: 0 <= i < |nodes| ==> nodes[i].ID == i
    }

    ghost function Graph(): (g: Graph)
      reads this, nodes
      ensures |g| == |nodes| && forall i {:trigger g[i]} :: 0 <= i < |g| ==> g[i] == nodes[i].Value()
    {
      seq(|nodes|, i requires 0 <= i < |nodes| reads this, nodes => nodes[i].Value())
    }
  }

  /** `v` shows the current graph of the index from `query`. */
  ghost predicate Sees(idx: Index, query: Vector, v: View)
    reads idx, idx.nodes
  {
    && v.metric == idx.metric && v.query == query && |v.graph| == |idx.nodes|
    && forall i {:trigger idx.nodes[i]} :: 0 <= i < |v.graph| ==>
         idx.nodes[i].Vector == v.graph[i].vector && idx.nodes[i].Links == v.graph[i].links
  }
}
