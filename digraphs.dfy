/** Directed graphs as adjacency sequences, standing in for the Digraph
    type the WordNet classes use, and the specifications of the two graph
    searches they rely on: breadth-first distances and cycle detection. */
module Digraphs {
  import opened Wrappers

  /** Vertex v's successors are g[v], in the order the edges were added. */
  type Digraph = seq<seq<int>>

  type Distances = seq<Option<nat>>

  predicate IsVertex(g: Digraph, v: int)
  {
    0 <= v < |g|
  }

  /** Every edge ends at a vertex of the graph. */
  ghost predicate ValidDigraph(g: Digraph)
  {
    forall v, j :: 0 <= v < |g| && 0 <= j < |g[v]| ==> IsVertex(g, g[v][j])
  }

  /** The vertices one edge away from some vertex of xs. */
  ghost function Successors(g: Digraph, xs: set<int>): set<int>
  {
    set v, j | v in xs && 0 <= v < |g| && 0 <= j < |g[v]| :: g[v][j]
  }

  /** The vertices reachable from a vertex of sources along at most k edges. */
  ghost function Reach(g: Digraph, sources: set<int>, k: nat): set<int>
  {
    if k == 0 then set v | v in sources && IsVertex(g, v)
    else Reach(g, sources, k - 1) + Successors(g, Reach(g, sources, k - 1))
  }

  /** d holds, for every vertex, the length of a shortest directed path from
      the source set, or None when there is no such path: what a
      breadth-first search from those sources reports. */
  ghost predicate IsBfsDistances(g: Digraph, sources: set<int>, d: Distances)
  {
    |d| == |g| &&
    forall i :: 0 <= i < |d| ==>
      (d[i].None? ==> forall k: nat :: i !in Reach(g, sources, k)) &&
      (d[i].Some? ==> i in Reach(g, sources, d[i].value) &&
                      (d[i].value == 0 || i !in Reach(g, sources, d[i].value - 1)))
  }

  /** The vertices reachable from v along at least one and at most k + 1 edges. */
  ghost function ReachAfterStep(g: Digraph, v: int, k: nat): set<int>
  {
    Reach(g, Successors(g, {v}), k)
  }

  /** Some vertex lies on a directed cycle. */
  ghost predicate HasCycle(g: Digraph)
  {
    exists v, k: nat :: IsVertex(g, v) && v in ReachAfterStep(g, v, k)
  }
}
