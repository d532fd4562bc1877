/** Shortest ancestral paths (SAP.java): given the breadth-first distances
    from the two sides, scan every vertex for the common ancestor with the
    smallest total distance. */
module ShortestAncestralPath {
  import opened Wrappers
  import opened Digraphs

  /** Integer.MAX_VALUE, the initial value of minLength. */
  const MAX_INT: int := 0x7fff_ffff

  /** Vertex i is reachable from both sides. */
  predicate IsCommon(dv: Distances, dw: Distances, i: int)
  {
    0 <= i < |dv| && i < |dw| && dv[i].Some? && dw[i].Some?
  }

  /** The length of the ancestral path through common vertex i. */
  function PathSum(dv: Distances, dw: Distances, i: int): nat
    requires IsCommon(dv, dw, i)
  {
    dv[i].value + dw[i].value
  }

  /** Every ancestral path length fits in a Java int without reaching the
      sentinel Integer.MAX_VALUE. */
  ghost predicate SumsFit(dv: Distances, dw: Distances)
  {
    forall i :: IsCommon(dv, dw, i) ==> PathSum(dv, dw, i) < MAX_INT
  }

  /** r is the length of a shortest ancestral path, or -1 if there is none. */
  ghost predicate IsShortestLength(dv: Distances, dw: Distances, r: int)
  {
    (r == -1 <==> forall i :: !IsCommon(dv, dw, i)) &&
    (r != -1 ==>
      (exists i :: IsCommon(dv, dw, i) && PathSum(dv, dw, i) == r) &&
      (forall i :: IsCommon(dv, dw, i) ==> r <= PathSum(dv, dw, i)))
  }

  /** a is the first common vertex whose ancestral path is shortest, or -1
      if there is no common vertex. */
  ghost predicate IsClosestAncestor(dv: Distances, dw: Distances, a: int)
  {
    (a == -1 <==> forall i :: !IsCommon(dv, dw, i)) &&
    (a != -1 ==>
      IsCommon(dv, dw, a) &&
      (forall i :: IsCommon(dv, dw, i) ==> PathSum(dv, dw, a) <= PathSum(dv, dw, i)) &&
      (forall i :: 0 <= i < a && IsCommon(dv, dw, i) ==> PathSum(dv, dw, a) < PathSum(dv, dw, i)))
  }

  /** The loop shared by both length methods: keep the smallest sum below the
      sentinel and remember whether one was found. */
  method ScanLength(dv: Distances, dw: Distances) returns (r: int)
    requires |dv| == |dw|
    requires SumsFit(dv, dw)
    ensures IsShortestLength(dv, dw, r)
  {
    var foundPath := false;
    var minLength := MAX_INT;
    for i := 0 to |dv|
      invariant foundPath <==> exists k :: 0 <= k < i && IsCommon(dv, dw, k)
      invariant !foundPath ==> minLength == MAX_INT
      invariant foundPath ==> exists k :: 0 <= k < i && IsCommon(dv, dw, k) && PathSum(dv, dw, k) == minLength
      invariant forall k :: 0 <= k < i && IsCommon(dv, dw, k) ==> minLength <= PathSum(dv, dw, k)
    {
      if IsCommon(dv, dw, i) {
        if PathSum(dv, dw, i) < minLength {
          minLength := PathSum(dv, dw, i);
          foundPath := true;
        }
      }
    }
    r := if foundPath then minLength else -1;
  }

  /** The loop shared by both ancestor methods: the first common vertex, then
      any later one with a strictly smaller sum. */
  method ScanAncestor(dv: Distances, dw: Distances) returns (a: int)
    requires |dv| == |dw|
    ensures IsClosestAncestor(dv, dw, a)
  {
    a := -1;
    for i := 0 to |dv|
      invariant -1 <= a < i
      invariant a == -1 <==> forall k :: 0 <= k < i ==> !IsCommon(dv, dw, k)
      invariant a != -1 ==> IsCommon(dv, dw, a)
      invariant a != -1 ==> forall k :: 0 <= k < i && IsCommon(dv, dw, k) ==> PathSum(dv, dw, a) <= PathSum(dv, dw, k)
      invariant a != -1 ==> forall k :: 0 <= k < a && IsCommon(dv, dw, k) ==> PathSum(dv, dw, a) < PathSum(dv, dw, k)
    {
      if IsCommon(dv, dw, i) {
        if a == -1 {
          a := i;
        } else if PathSum(dv, dw, i) < PathSum(dv, dw, a) {
          a := i;
        }
      }
    }
  }

  /** The source vertices named by a Java collection of Integers. */
  function Sources(vs: seq<Option<int>>): set<int>
  {
    set o | o in vs && o.Some? :: o.value
  }

  /** True when a collection holds a null element (the for-each loops that
      guard the set queries). */
  method ContainsNull(vs: seq<Option<int>>) returns (b: bool)
    ensures b <==> None in vs
  {
    b := false;
    for i := 0 to |vs|
      invariant b <==> None in vs[..i]
    {
      if vs[i].None? {
        b := true;
      }
    }
    assert vs[..|vs|] == vs;
  }

  /** The null checks of the set queries. */
  method CheckSources(vs: Option<seq<Option<int>>>, ws: Option<seq<Option<int>>>) returns (ok: bool)
    ensures ok <==> vs.Some? && ws.Some? && None !in vs.value && None !in ws.value
  {
    if vs.None? || ws.None? {
      return false;
    }
    var nullInV := ContainsNull(vs.value);
    if nullInV {
      return false;
    }
    var nullInW := ContainsNull(ws.value);
    ok := !nullInW;
  }

  class SAP {
    const graph: Digraph

    /** Keeps its own copy of the digraph. */
    constructor (g: Digraph)
      ensures graph == g
    {
      graph := g;
    }

    /** length(v, w): dv and dw are the breadth-first distances from v and w. */
    method Length(v: int, w: int, dv: Distances, dw: Distances) returns (r: int)
      requires IsVertex(graph, v) && IsVertex(graph, w)
      requires IsBfsDistances(graph, {v}, dv) && IsBfsDistances(graph, {w}, dw)
      requires SumsFit(dv, dw)
      ensures IsShortestLength(dv, dw, r)
    {
      r := ScanLength(dv, dw);
    }

    /** ancestor(v, w). */
    method Ancestor(v: int, w: int, dv: Distances, dw: Distances) returns (a: int)
      requires IsVertex(graph, v) && IsVertex(graph, w)
      requires IsBfsDistances(graph, {v}, dv) && IsBfsDistances(graph, {w}, dw)
      ensures IsClosestAncestor(dv, dw, a)
    {
      a := ScanAncestor(dv, dw);
    }

    /** length(Iterable, Iterable): a null collection or a null element is an
        IllegalArgumentException; otherwise dv and dw are the distances from
        the two source sets. */
    method LengthOfSets(vs: Option<seq<Option<int>>>, ws: Option<seq<Option<int>>>, dv: Distances, dw: Distances)
      returns (r: Result<int>)
      requires vs.Some? && ws.Some? && None !in vs.value && None !in ws.value ==>
                 IsBfsDistances(graph, Sources(vs.value), dv) &&
                 IsBfsDistances(graph, Sources(ws.value), dw) &&
                 SumsFit(dv, dw)
      ensures r.Err? <==> vs.None? || ws.None? || None in vs.value || None in ws.value
      ensures r.Ok? ==> IsShortestLength(dv, dw, r.value)
    {
      var ok := CheckSources(vs, ws);
      if !ok {
        return Err(IllegalArgument);
      }
      var len := ScanLength(dv, dw);
      r := Ok(len);
    }

    /** ancestor(Iterable, Iterable). */
    method AncestorOfSets(vs: Option<seq<Option<int>>>, ws: Option<seq<Option<int>>>, dv: Distances, dw: Distances)
      returns (r: Result<int>)
      requires vs.Some? && ws.Some? && None !in vs.value && None !in ws.value ==>
                 IsBfsDistances(graph, Sources(vs.value), dv) &&
                 IsBfsDistances(graph, Sources(ws.value), dw)
      ensures r.Err? <==> vs.None? || ws.None? || None in vs.value || None in ws.value
      ensures r.Ok? ==> IsClosestAncestor(dv, dw, r.value)
    {
      var ok := CheckSources(vs, ws);
      if !ok {
        return Err(IllegalArgument);
      }
      var a := ScanAncestor(dv, dw);
      r := Ok(a);
    }
  }

  /** The two characterisations pin the result down: there is one shortest
      length and one closest ancestor. */
  lemma ShortestLengthIsUnique(dv: Distances, dw: Distances, r1: int, r2: int)
    requires IsShortestLength(dv, dw, r1) && IsShortestLength(dv, dw, r2)
    ensures r1 == r2
  {
  }

  lemma ClosestAncestorIsUnique(dv: Distances, dw: Distances, a1: int, a2: int)
    requires IsClosestAncestor(dv, dw, a1) && IsClosestAncestor(dv, dw, a2)
    ensures a1 == a2
  {
  }

  /** length and ancestor agree: the shortest length is the path sum through
      the closest ancestor, and both report -1 together. */
  lemma LengthAgreesWithAncestor(dv: Distances, dw: Distances, r: int, a: int)
    requires IsShortestLength(dv, dw, r) && IsClosestAncestor(dv, dw, a)
    ensures r == -1 <==> a == -1
    ensures a != -1 ==> r == PathSum(dv, dw, a)
  {
  }

  /** Swapping the two sides changes neither the length nor the ancestor. */
  lemma SwapSides(dv: Distances, dw: Distances)
    ensures forall i :: IsCommon(dv, dw, i) == IsCommon(dw, dv, i)
    ensures forall i :: IsCommon(dv, dw, i) ==> PathSum(dv, dw, i) == PathSum(dw, dv, i)
  {
  }

  lemma LengthIsSymmetric(dv: Distances, dw: Distances, r: int)
    requires IsShortestLength(dv, dw, r)
    ensures IsShortestLength(dw, dv, r)
  {
    SwapSides(dv, dw);
    if r != -1 {
      var i :| IsCommon(dv, dw, i) && PathSum(dv, dw, i) == r;
      assert IsCommon(dw, dv, i) && PathSum(dw, dv, i) == r;
    }
  }

  lemma AncestorIsSymmetric(dv: Distances, dw: Distances, a: int)
    requires IsClosestAncestor(dv, dw, a)
    ensures IsClosestAncestor(dw, dv, a)
  {
    SwapSides(dv, dw);
  }
}
