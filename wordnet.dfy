/** The WordNet index (WordNet.java): synset lines fill an id-to-synset map
    and a noun-to-ids map, hypernym lines become the edges of a digraph that
    must be a rooted DAG, and noun queries go to the shortest ancestral path
    search over that digraph. */
module WordNets {
  import opened Wrappers
  import opened Strings
  import opened Digraphs
  import opened ShortestAncestralPath

  /** A line of the synsets file with its id already parsed: field 0 and
      field 1 (the space-separated nouns). */
  datatype Synset = Synset(id: int, synset: string)

  /** The nouns of one synset line. */
  function NounsOf(line: Synset): seq<string>
  {
    JavaSplit(line.synset, ' ')
  }

  // ---------------------------------------------------------------------
  // The two maps filled by the synset loop, as functions of the lines read.

  /** put(id, field 1) for every line in turn. */
  function IdIndex(lines: seq<Synset>): map<int, string>
  {
    if lines == [] then map[]
    else
      var last := lines[|lines| - 1];
      IdIndex(lines[..|lines| - 1])[last.id := last.synset]
  }

  /** Appends id to the list of noun, creating the list on first sight. */
  function AddId(m: map<string, seq<int>>, noun: string, id: int): map<string, seq<int>>
  {
    if noun in m then m[noun := m[noun] + [id]] else m[noun := [id]]
  }

  /** The inner loop over the nouns of one line, all with the same id. */
  function AddNouns(m: map<string, seq<int>>, nouns: seq<string>, id: int): map<string, seq<int>>
  {
    if nouns == [] then m
    else AddId(AddNouns(m, nouns[..|nouns| - 1], id), nouns[|nouns| - 1], id)
  }

  function NounIndex(lines: seq<Synset>): map<string, seq<int>>
  {
    if lines == [] then map[]
    else
      var last := lines[|lines| - 1];
      AddNouns(NounIndex(lines[..|lines| - 1]), NounsOf(last), last.id)
  }

  // ---------------------------------------------------------------------
  // An independent description of the noun index: per noun, the ids of the
  // lines naming it, in line order, once per mention.

  function Count(nouns: seq<string>, s: string): nat
  {
    if nouns == [] then 0
    else Count(nouns[..|nouns| - 1], s) + (if nouns[|nouns| - 1] == s then 1 else 0)
  }

  function Repeat(id: int, n: nat): seq<int>
  {
    if n == 0 then [] else Repeat(id, n - 1) + [id]
  }

  function IdsOf(lines: seq<Synset>, s: string): seq<int>
  {
    if lines == [] then []
    else
      var last := lines[|lines| - 1];
      IdsOf(lines[..|lines| - 1], s) + Repeat(last.id, Count(NounsOf(last), s))
  }

  /** Some line names noun s. */
  ghost predicate Mentions(lines: seq<Synset>, s: string)
  {
    exists k :: 0 <= k < |lines| && s in NounsOf(lines[k])
  }

  /** The list of s, or the empty list when s is no key. */
  function Lookup(m: map<string, seq<int>>, s: string): seq<int>
  {
    if s in m then m[s] else []
  }

  // ---------------------------------------------------------------------
  // The digraph filled by the hypernym loop.

  function EmptyGraph(n: nat): (g: Digraph)
    ensures |g| == n && forall v :: 0 <= v < n ==> g[v] == []
  {
    seq(n, _ => [])
  }

  /** Digraph.addEdge accepts the line: its first field and every later one
      name a vertex (a line of one field adds no edge and is never checked). */
  predicate EdgeLineValid(n: nat, line: seq<int>)
  {
    |line| <= 1 || (0 <= line[0] < n && forall i :: 1 <= i < |line| ==> 0 <= line[i] < n)
  }

  predicate EdgesValid(n: nat, lines: seq<seq<int>>)
  {
    forall k :: 0 <= k < |lines| ==> EdgeLineValid(n, lines[k])
  }

  function AddEdge(g: Digraph, v: int, w: int): Digraph
  {
    if IsVertex(g, v) then g[v := g[v] + [w]] else g
  }

  /** The edges line[0] -> line[1], ..., line[0] -> line[n - 1]. */
  function AddHypernyms(g: Digraph, line: seq<int>, n: nat): Digraph
    requires n <= |line|
  {
    if n <= 1 then g else AddEdge(AddHypernyms(g, line, n - 1), line[0], line[n - 1])
  }

  function AddLines(g: Digraph, lines: seq<seq<int>>): Digraph
  {
    if lines == [] then g
    else
      var last := lines[|lines| - 1];
      AddHypernyms(AddLines(g, lines[..|lines| - 1]), last, |last|)
  }

  function BuildGraph(n: nat, lines: seq<seq<int>>): Digraph
  {
    AddLines(EmptyGraph(n), lines)
  }

  /** Reference description of the edges: the out-edges of v are the later
      fields of every line that starts with v, line after line. */
  function OutEdges(lines: seq<seq<int>>, v: int): seq<int>
  {
    if lines == [] then []
    else
      var last := lines[|lines| - 1];
      OutEdges(lines[..|lines| - 1], v) + (if |last| >= 1 && last[0] == v then last[1..] else [])
  }

  // ---------------------------------------------------------------------
  // isRootedDAG.

  /** The number of vertices below n without out-edges: rootCount after n
      rounds of the loop. */
  function RootCount(g: Digraph, n: nat): nat
    requires n <= |g|
  {
    if n == 0 then 0 else RootCount(g, n - 1) + (if |g[n - 1]| == 0 then 1 else 0)
  }

  ghost function Roots(g: Digraph): set<int>
  {
    set v | 0 <= v < |g| && |g[v]| == 0
  }

  ghost predicate RootedDag(g: Digraph)
  {
    !HasCycle(g) && |Roots(g)| == 1
  }

  /** hasCycle is what DirectedCycle reports for g. */
  method IsRootedDAG(g: Digraph, hasCycle: bool) returns (r: bool)
    requires hasCycle == HasCycle(g)
    ensures r <==> RootedDag(g)
  {
    if hasCycle {
      return false;
    }
    var rootCount := 0;
    for i := 0 to |g|
      invariant rootCount == RootCount(g, i)
    {
      var adjCount := 0;
      for j := 0 to |g[i]|
        invariant adjCount == j
      {
        adjCount := adjCount + 1;
      }
      if adjCount == 0 {
        rootCount := rootCount + 1;
      }
    }
    RootCountIsCardinality(g, |g|);
    r := rootCount == 1;
  }

  function IdSet(ids: seq<int>): set<int>
  {
    set id | id in ids
  }

  /** The ids of a noun, as the Iterable handed to the set queries. */
  function Boxed(ids: Option<seq<int>>): (r: Option<seq<Option<int>>>)
    ensures r.Some? <==> ids.Some?
    ensures r.Some? ==> None !in r.value && Sources(r.value) == IdSet(ids.value)
  {
    if ids.None? then None
    else
      var b := seq(|ids.value|, i requires 0 <= i < |ids.value| => Some(ids.value[i]));
      assert Sources(b) == IdSet(ids.value) by {
        forall id | id in IdSet(ids.value) ensures id in Sources(b) {
          var i :| 0 <= i < |ids.value| && ids.value[i] == id;
          assert b[i] == Some(id);
        }
        forall id | id in Sources(b) ensures id in IdSet(ids.value) {
          var i :| 0 <= i < |b| && b[i] == Some(id);
          assert ids.value[i] == id;
        }
      }
      Some(b)
  }

  class WordNet {
    /** The lines read, for the specification. */
    ghost var synsets: seq<Synset>
    ghost var hypernyms: seq<seq<int>>

    var graph: Digraph
    var idToNouns: map<int, string>
    var nounToId: map<string, seq<int>>
    var sap: SAP?

    ghost predicate Valid()
      reads this
    {
      idToNouns == IdIndex(synsets) &&
      nounToId == NounIndex(synsets) &&
      EdgesValid(|idToNouns|, hypernyms) &&
      graph == BuildGraph(|idToNouns|, hypernyms) &&
      RootedDag(graph) &&
      sap != null && sap.graph == graph
    }

    constructor ()
      ensures synsets == [] && hypernyms == []
      ensures idToNouns == map[] && nounToId == map[] && graph == [] && sap == null
    {
      synsets, hypernyms := [], [];
      idToNouns, nounToId := map[], map[];
      graph, sap := [], null;
    }

    /** The loop over the synset lines. */
    method ReadSynsets(lines: seq<Synset>)
      requires idToNouns == map[] && nounToId == map[]
      modifies this`synsets, this`idToNouns, this`nounToId
      ensures synsets == lines
      ensures idToNouns == IdIndex(lines) && nounToId == NounIndex(lines)
    {
      synsets := lines;
      for k := 0 to |lines|
        invariant synsets == lines
        invariant idToNouns == IdIndex(lines[..k])
        invariant nounToId == NounIndex(lines[..k])
      {
        var id := lines[k].id;
        idToNouns := idToNouns[id := lines[k].synset];
        var nouns := NounsOf(lines[k]);
        ghost var before, ids := nounToId, idToNouns;
        for j := 0 to |nouns|
          invariant synsets == lines && idToNouns == ids
          invariant nounToId == AddNouns(before, nouns[..j], id)
        {
          var s := nouns[j];
          if s in nounToId {
            nounToId := nounToId[s := nounToId[s] + [id]];
          } else {
            nounToId := nounToId[s := [id]];
          }
          assert nouns[..j + 1][..j] == nouns[..j];
        }
        assert nouns[..|nouns|] == nouns;
        assert lines[..k + 1][..k] == lines[..k];
      }
      assert lines[..|lines|] == lines;
    }

    /** new Digraph(idToNouns.size()) and the loop over the hypernym lines;
        false where addEdge would throw on a vertex out of range. */
    method ReadHypernyms(lines: seq<seq<int>>) returns (ok: bool)
      modifies this`hypernyms, this`graph
      ensures hypernyms == lines
      ensures ok <==> EdgesValid(|idToNouns|, lines)
      ensures ok ==> graph == BuildGraph(|idToNouns|, lines)
    {
      hypernyms := lines;
      var n := |idToNouns|;
      graph := EmptyGraph(n);
      for k := 0 to |lines|
        invariant hypernyms == lines
        invariant |graph| == n
        invariant EdgesValid(n, lines[..k])
        invariant graph == AddLines(EmptyGraph(n), lines[..k])
      {
        var parts := lines[k];
        ghost var before := graph;
        // A line of one field adds no edge.
        if |parts| > 1 {
          for i := 1 to |parts|
            invariant hypernyms == lines
            invariant |graph| == n
            invariant forall j :: 1 <= j < i ==> 0 <= parts[0] < n && 0 <= parts[j] < n
            invariant graph == AddHypernyms(before, parts, i)
          {
            if !(0 <= parts[0] < n && 0 <= parts[i] < n) {
              assert !EdgeLineValid(n, lines[k]);
              return false;
            }
            graph := graph[parts[0] := graph[parts[0]] + [parts[i]]];
          }
        }
        assert lines[..k + 1][..k] == lines[..k];
        assert lines[..k + 1][k] == parts;
      }
      assert lines[..|lines|] == lines;
      ok := true;
    }

    method AttachSap()
      modifies this`sap
      ensures sap != null && sap.graph == graph
    {
      sap := new SAP(graph);
    }

    /** nouns(): the key set of nounToId, i.e. every noun some line names. */
    function Nouns(): (r: set<string>)
      reads this
      requires Valid()
      ensures forall s :: s in r <==> Mentions(synsets, s)
    {
      NounIndexKeys(synsets);
      nounToId.Keys
    }

    /** isNoun: null is an IllegalArgumentException. */
    function IsNoun(word: Option<string>): (r: Result<bool>)
      reads this
      requires Valid()
      ensures r.Err? <==> word.None?
      ensures r.Ok? ==> (r.value <==> Mentions(synsets, word.value))
    {
      if word.None? then Err(IllegalArgument)
      else
        NounIndexKeys(synsets);
        Ok(word.value in nounToId)
    }

    /** distance: da and db are the breadth-first distances from the ids of
        the two nouns. A null noun is an IllegalArgumentException, and so is
        a word that is not a noun (its null id list reaches the SAP query). */
    method Distance(nounA: Option<string>, nounB: Option<string>, da: Distances, db: Distances)
      returns (r: Result<int>)
      requires Valid()
      requires nounA.Some? && nounB.Some? && nounA.value in nounToId && nounB.value in nounToId ==>
                 IsBfsDistances(graph, IdSet(nounToId[nounA.value]), da) &&
                 IsBfsDistances(graph, IdSet(nounToId[nounB.value]), db) &&
                 SumsFit(da, db)
      ensures r.Err? <==> nounA.None? || nounB.None? || !Mentions(synsets, nounA.value) || !Mentions(synsets, nounB.value)
      ensures r.Ok? ==> IsShortestLength(da, db, r.value)
    {
      if nounA.None? || nounB.None? {
        return Err(IllegalArgument);
      }
      NounIndexKeys(synsets);
      var idsA, idsB := Boxed(Get(nounToId, nounA.value)), Boxed(Get(nounToId, nounB.value));
      r := sap.LengthOfSets(idsA, idsB, da, db);
    }

    /** sap: the synset of the closest common ancestor, or null where
        idToNouns has no entry for it (as for the ancestor -1). */
    method Sap(nounA: Option<string>, nounB: Option<string>, da: Distances, db: Distances)
      returns (r: Result<Option<string>>)
      requires Valid()
      requires nounA.Some? && nounB.Some? && nounA.value in nounToId && nounB.value in nounToId ==>
                 IsBfsDistances(graph, IdSet(nounToId[nounA.value]), da) &&
                 IsBfsDistances(graph, IdSet(nounToId[nounB.value]), db)
      ensures r.Err? <==> nounA.None? || nounB.None? || !Mentions(synsets, nounA.value) || !Mentions(synsets, nounB.value)
      ensures r.Ok? ==> exists a :: IsClosestAncestor(da, db, a) && r.value == Get(IdIndex(synsets), a)
    {
      if nounA.None? || nounB.None? {
        return Err(IllegalArgument);
      }
      NounIndexKeys(synsets);
      var idsA, idsB := Boxed(Get(nounToId, nounA.value)), Boxed(Get(nounToId, nounB.value));
      var a := sap.AncestorOfSets(idsA, idsB, da, db);
      if a.Err? {
        return Err(a.error);
      }
      r := Ok(Get(idToNouns, a.value));
    }
  }

  /** The constructor: null file contents, an edge to a vertex out of range
      and a digraph that is no rooted DAG are IllegalArgumentExceptions.
      hasCycle is what DirectedCycle reports for the digraph built. */
  method Create(synsets: Option<seq<Synset>>, hypernyms: Option<seq<seq<int>>>, hasCycle: bool)
    returns (r: Result<WordNet>)
    requires synsets.Some? && hypernyms.Some? ==>
               hasCycle == HasCycle(BuildGraph(|IdIndex(synsets.value)|, hypernyms.value))
    ensures r.Err? <==>
              synsets.None? || hypernyms.None? ||
              !EdgesValid(|IdIndex(synsets.value)|, hypernyms.value) ||
              !RootedDag(BuildGraph(|IdIndex(synsets.value)|, hypernyms.value))
    ensures r.Ok? ==> fresh(r.value) && r.value.Valid() &&
                      r.value.synsets == synsets.value && r.value.hypernyms == hypernyms.value
  {
    if synsets.None? || hypernyms.None? {
      return Err(IllegalArgument);
    }
    var wn := new WordNet();
    wn.ReadSynsets(synsets.value);
    var ok := wn.ReadHypernyms(hypernyms.value);
    if !ok {
      return Err(IllegalArgument);
    }
    var rooted := IsRootedDAG(wn.graph, hasCycle);
    if !rooted {
      return Err(IllegalArgument);
    }
    wn.AttachSap();
    r := Ok(wn);
  }

  // ---------------------------------------------------------------------
  // Lemmas about the index.

  lemma {:induction false} RootCountIsCardinality(g: Digraph, n: nat)
    requires n <= |g|
    ensures RootCount(g, n) == |set v | 0 <= v < n && |g[v]| == 0|
  {
    if n > 0 {
      RootCountIsCardinality(g, n - 1);
      var below := set v | 0 <= v < n - 1 && |g[v]| == 0;
      if |g[n - 1]| == 0 {
        assert (set v | 0 <= v < n && |g[v]| == 0) == below + {n - 1};
      } else {
        assert (set v | 0 <= v < n && |g[v]| == 0) == below;
      }
    }
  }

  lemma {:induction false} CountPositive(nouns: seq<string>, s: string)
    ensures Count(nouns, s) > 0 <==> s in nouns
  {
    if nouns != [] {
      CountPositive(nouns[..|nouns| - 1], s);
      assert nouns == nouns[..|nouns| - 1] + [nouns[|nouns| - 1]];
    }
  }

  lemma {:induction false} AddNounsLookup(m: map<string, seq<int>>, nouns: seq<string>, id: int, s: string)
    ensures Lookup(AddNouns(m, nouns, id), s) == Lookup(m, s) + Repeat(id, Count(nouns, s))
    ensures s in AddNouns(m, nouns, id) <==> s in m || s in nouns
  {
    if nouns != [] {
      var init := nouns[..|nouns| - 1];
      AddNounsLookup(m, init, id, s);
      assert nouns == init + [nouns[|nouns| - 1]];
    }
  }

  /** The noun index holds, for every noun, the ids of the lines naming it,
      in the order the lines were read; its keys are the nouns named. */
  lemma {:induction false} NounIndexIsIdsOf(lines: seq<Synset>, s: string)
    ensures Lookup(NounIndex(lines), s) == IdsOf(lines, s)
    ensures s in NounIndex(lines) <==> Mentions(lines, s)
  {
    if lines != [] {
      var init, last := lines[..|lines| - 1], lines[|lines| - 1];
      NounIndexIsIdsOf(init, s);
      AddNounsLookup(NounIndex(init), NounsOf(last), last.id, s);
      if Mentions(lines, s) {
        var k :| 0 <= k < |lines| && s in NounsOf(lines[k]);
        if k < |init| {
          assert init[k] == lines[k];
        }
      }
      if Mentions(init, s) {
        var k :| 0 <= k < |init| && s in NounsOf(init[k]);
        assert lines[k] == init[k];
      }
    }
  }

  lemma NounIndexKeys(lines: seq<Synset>)
    ensures forall s :: s in NounIndex(lines) <==> Mentions(lines, s)
  {
    forall s {
      NounIndexIsIdsOf(lines, s);
    }
  }

  lemma {:induction false} RepeatContains(id: int, n: nat)
    requires n > 0
    ensures id in Repeat(id, n)
  {
  }

  lemma {:induction false} IdsOfContains(lines: seq<Synset>, k: int, s: string)
    requires 0 <= k < |lines| && s in NounsOf(lines[k])
    ensures lines[k].id in IdsOf(lines, s)
  {
    var init, last := lines[..|lines| - 1], lines[|lines| - 1];
    if k == |lines| - 1 {
      CountPositive(NounsOf(last), s);
      RepeatContains(last.id, Count(NounsOf(last), s));
    } else {
      assert init[k] == lines[k];
      IdsOfContains(init, k, s);
    }
  }

  /** Every noun of every line is a key whose list holds that line's id. */
  lemma NounIndexContains(lines: seq<Synset>, k: int, s: string)
    requires 0 <= k < |lines| && s in NounsOf(lines[k])
    ensures s in NounIndex(lines) && lines[k].id in NounIndex(lines)[s]
  {
    NounIndexIsIdsOf(lines, s);
    IdsOfContains(lines, k, s);
  }

  lemma {:induction false} IdsOfConcat(lines: seq<Synset>, more: seq<Synset>, s: string)
    ensures IdsOf(lines + more, s) == IdsOf(lines, s) + IdsOf(more, s)
  {
    if more != [] {
      var init := more[..|more| - 1];
      IdsOfConcat(lines, init, s);
      assert (lines + more)[..|lines + more| - 1] == lines + init;
    } else {
      assert lines + more == lines;
    }
  }

  /** Reading more lines only appends to a noun's list: earlier ids are
      never dropped or reordered. */
  lemma {:induction false} NounIndexExtends(lines: seq<Synset>, more: seq<Synset>, s: string)
    requires s in NounIndex(lines)
    ensures s in NounIndex(lines + more)
    ensures NounIndex(lines)[s] <= NounIndex(lines + more)[s]
  {
    NounIndexIsIdsOf(lines, s);
    NounIndexIsIdsOf(lines + more, s);
    IdsOfConcat(lines, more, s);
    var k :| 0 <= k < |lines| && s in NounsOf(lines[k]);
    assert (lines + more)[k] == lines[k];
  }

  /** The id index has one key per id read, and each key maps to field 1
      of the last line with that id. */
  lemma {:induction false} IdIndexLastWins(lines: seq<Synset>, k: int)
    requires 0 <= k < |lines|
    requires forall j :: k < j < |lines| ==> lines[j].id != lines[k].id
    ensures lines[k].id in IdIndex(lines) && IdIndex(lines)[lines[k].id] == lines[k].synset
  {
    if k < |lines| - 1 {
      var init := lines[..|lines| - 1];
      assert init[k] == lines[k];
      IdIndexLastWins(init, k);
    }
  }

  lemma {:induction false} IdIndexKeys(lines: seq<Synset>)
    ensures IdIndex(lines).Keys == set line | line in lines :: line.id
  {
    if lines != [] {
      var init := lines[..|lines| - 1];
      IdIndexKeys(init);
      assert lines == init + [lines[|lines| - 1]];
    }
  }

  lemma {:induction false} AddHypernymsAt(g: Digraph, line: seq<int>, n: nat, v: int)
    requires n <= |line| && 0 <= v < |g|
    requires n > 1 ==> 0 <= line[0] < |g|
    ensures |AddHypernyms(g, line, n)| == |g|
    ensures AddHypernyms(g, line, n)[v] == g[v] + (if n > 1 && line[0] == v then line[1..n] else [])
  {
    if n > 1 {
      AddHypernymsAt(g, line, n - 1, v);
      if n - 1 > 1 && line[0] == v {
        assert line[1..n] == line[1..n - 1] + [line[n - 1]];
      }
    }
  }

  /** Reading the hypernym lines adds exactly the edges they list: the
      out-edges of v are the later fields of the lines starting with v. */
  lemma {:induction false} BuildGraphEdges(n: nat, lines: seq<seq<int>>, v: int)
    requires EdgesValid(n, lines) && 0 <= v < n
    ensures |BuildGraph(n, lines)| == n
    ensures BuildGraph(n, lines)[v] == OutEdges(lines, v)
  {
    if lines != [] {
      var init, last := lines[..|lines| - 1], lines[|lines| - 1];
      assert EdgesValid(n, init) by {
        forall k | 0 <= k < |init| ensures EdgeLineValid(n, init[k]) {
          assert init[k] == lines[k];
        }
      }
      BuildGraphEdges(n, init, v);
      assert EdgeLineValid(n, last);
      AddHypernymsAt(AddLines(EmptyGraph(n), init), last, |last|, v);
    }
  }

  lemma {:induction false} OutEdgesInRange(n: nat, lines: seq<seq<int>>, v: int)
    requires EdgesValid(n, lines)
    ensures forall w :: w in OutEdges(lines, v) ==> 0 <= w < n
  {
    if lines != [] {
      var init, last := lines[..|lines| - 1], lines[|lines| - 1];
      assert EdgesValid(n, init) by {
        forall k | 0 <= k < |init| ensures EdgeLineValid(n, init[k]) {
          assert init[k] == lines[k];
        }
      }
      OutEdgesInRange(n, init, v);
      assert EdgeLineValid(n, last);
    }
  }

  /** The digraph has one vertex per id-index entry and every edge ends at
      one of them. */
  lemma BuildGraphIsValid(n: nat, lines: seq<seq<int>>)
    requires EdgesValid(n, lines)
    ensures |BuildGraph(n, lines)| == n && ValidDigraph(BuildGraph(n, lines))
  {
    var g := BuildGraph(n, lines);
    if n == 0 {
      BuildGraphEdges0(lines);
    } else {
      BuildGraphEdges(n, lines, 0);
    }
    forall v, j | 0 <= v < |g| && 0 <= j < |g[v]| ensures IsVertex(g, g[v][j]) {
      BuildGraphEdges(n, lines, v);
      OutEdgesInRange(n, lines, v);
      assert g[v][j] in OutEdges(lines, v);
    }
  }

  lemma {:induction false} BuildGraphEdges0(lines: seq<seq<int>>)
    requires EdgesValid(0, lines)
    ensures BuildGraph(0, lines) == []
  {
    if lines != [] {
      var init, last := lines[..|lines| - 1], lines[|lines| - 1];
      assert EdgesValid(0, init) by {
        forall k | 0 <= k < |init| ensures EdgeLineValid(0, init[k]) {
          assert init[k] == lines[k];
        }
      }
      BuildGraphEdges0(init);
      assert EdgeLineValid(0, last);
    }
  }
}
