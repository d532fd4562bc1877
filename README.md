# WordNet shortest ancestral paths, outcasts and the baseball team record

This project models, in Dafny, the WordNet exercise of a collection of
algorithms assignments, and the team record of its baseball elimination
exercise:

- **SAP** (`sap.dfy`, module `ShortestAncestralPath`): the shortest
  ancestral path between two vertices, or two sets of vertices, of a digraph.
  Given the breadth-first distances from each side, every vertex is scanned;
  `length` keeps the smallest `distV[i] + distW[i]` over the vertices both
  sides reach (or -1), and `ancestor` keeps the first vertex that reaches that
  minimum (or -1). The set versions first reject a null collection or a null
  element with `IllegalArgumentException`.
- **WordNet** (`wordnet.dfy`, module `WordNets`): the synset lines fill
  `idToNouns` (id to synset, the last line wins) and `nounToId` (noun to the
  ids of the lines naming it, in reading order); the hypernym lines add the
  edges `a -> b1 ... bn` to a digraph with one vertex per `idToNouns` entry;
  the digraph must be a rooted DAG (no cycle and exactly one vertex without
  out-edges). `isNoun`, `nouns`, `distance` and `sap` are lookups in these maps
  followed by a SAP query over the noun's ids.
- **Outcast** (`outcast.dfy`, module `Outcasts`): the index whose total
  distance to all other nouns is largest, the first such index on ties
  (the loop starts from 0 and compares with a strict `>`).
- **Team** (`team.dfy`, module `Teams`): a record of a name, wins, losses and
  remaining games with its own copy of the per-opponent remaining-games array.

Shared pieces: `wrappers.dfy` (`Option`, `Result`, the `IllegalArgument`
error, `HashMap.get` as `Get`), `strings.dfy` (Java's `String.split` for a
one-character separator: split at every separator, drop trailing empty
pieces, a string without separator splits into itself) and `digraphs.dfy`
(a digraph as a sequence of adjacency sequences, reachability within `k`
edges, and the two library searches as specifications).

The library searches are inputs, not code. A breadth-first search result is a
sequence `Distances` of optional naturals constrained by
`IsBfsDistances(g, sources, d)`: `d[i]` is `None` exactly when no path from
the sources reaches `i`, and otherwise the smallest number of edges of such a
path. The cycle search is a boolean argument that must equal
`HasCycle(g)` (some vertex is reachable from itself along at least one edge).
Reading a file becomes a sequence of already-read lines: a synset line is its
parsed id and its second field, a hypernym line its fields parsed to
integers. Java's `null` is `None` of an `Option`; a thrown
`IllegalArgumentException` is `Err(IllegalArgument)` of a `Result`.

The WordNet constructor becomes `WordNets.Create`, which runs the same steps
(null check, synset loop, hypernym loop, rooted-DAG check, SAP built over the
digraph) through the methods `ReadSynsets`, `ReadHypernyms` and `AttachSap`
of the `WordNet` object and returns `Err` where the constructor throws. The
loops are proved against the functions `IdIndex`, `NounIndex` and
`BuildGraph`, and those in turn against independent descriptions: `IdsOf`
(per noun, the ids of the lines naming it) and `OutEdges` (per vertex, the
later fields of the lines starting with it).

## Model

| member | source | states |
|---|---|---|
| `ShortestAncestralPath.ScanLength` | Assignment1-Wordnet/src/SAP.java:20-32 | the result is -1 exactly when no vertex is reachable from both sides; otherwise it is the path sum of some common vertex and at most the path sum of every common vertex (when all sums are below Integer.MAX_VALUE) |
| `ShortestAncestralPath.ScanAncestor` | Assignment1-Wordnet/src/SAP.java:41-53 | the result is -1 exactly when there is no common vertex; otherwise it is a common vertex with the smallest path sum, and every earlier common vertex has a strictly larger sum |
| `ShortestAncestralPath.SAP.constructor` | Assignment1-Wordnet/src/SAP.java:11-13 | the SAP keeps (a copy of) the given digraph |
| `ShortestAncestralPath.SAP.Length` | Assignment1-Wordnet/src/SAP.java:16-33 | `length(v, w)` over the breadth-first distances from `v` and `w` is the shortest ancestral path length, -1 when none |
| `ShortestAncestralPath.SAP.Ancestor` | Assignment1-Wordnet/src/SAP.java:37-54 | `ancestor(v, w)` is the first common ancestor on a shortest ancestral path, -1 when none |
| `ShortestAncestralPath.ContainsNull` | Assignment1-Wordnet/src/SAP.java:61-66 | the for-each loop finds a null element exactly when the collection holds one |
| `ShortestAncestralPath.CheckSources` | Assignment1-Wordnet/src/SAP.java:59-66 | the set arguments pass exactly when neither collection is null and neither holds a null |
| `ShortestAncestralPath.SAP.LengthOfSets` | Assignment1-Wordnet/src/SAP.java:58-87 | IllegalArgumentException exactly for a null collection or a null element; otherwise the shortest ancestral path length over the multi-source distances, -1 when none |
| `ShortestAncestralPath.SAP.AncestorOfSets` | Assignment1-Wordnet/src/SAP.java:91-117 | IllegalArgumentException exactly for a null collection or a null element; otherwise the first closest common ancestor of the two source sets, -1 when none |
| `ShortestAncestralPath.ShortestLengthIsUnique` | Assignment1-Wordnet/src/SAP.java:20-32 | the length characterisation determines one value |
| `ShortestAncestralPath.ClosestAncestorIsUnique` | Assignment1-Wordnet/src/SAP.java:41-53 | the ancestor characterisation (minimal sum, earliest on ties) determines one vertex |
| `ShortestAncestralPath.LengthAgreesWithAncestor` | Assignment1-Wordnet/src/SAP.java:16-54 | `length` is -1 exactly when `ancestor` is -1, and otherwise equals the path sum through the ancestor |
| `ShortestAncestralPath.LengthIsSymmetric` | Assignment1-Wordnet/src/SAP.java:17-26 | swapping the two sides leaves the length unchanged |
| `ShortestAncestralPath.AncestorIsSymmetric` | Assignment1-Wordnet/src/SAP.java:38-48 | swapping the two sides leaves the ancestor unchanged |
| `Strings.SplitAllJoin` | Assignment1-Wordnet/src/WordNet.java:33 | splitting at every separator loses nothing: the pieces joined with the separator give the string back, and no piece holds a separator |
| `Strings.JavaSplitPieces` | Assignment1-Wordnet/src/WordNet.java:33 | `split(" ")` yields nouns without spaces; a space-free string splits into itself; otherwise the result is a prefix of the full split whose last piece is not empty, and every piece of the full split beyond it is empty |
| `WordNets.WordNet.constructor` | Assignment1-Wordnet/src/WordNet.java:21-22 | both maps start empty, and the digraph and the SAP are not yet built |
| `WordNets.WordNet.ReadSynsets` | Assignment1-Wordnet/src/WordNet.java:27-42 | after the synset loop, `idToNouns` is `IdIndex` of the lines and `nounToId` is `NounIndex` of the lines |
| `WordNets.NounIndexIsIdsOf` | Assignment1-Wordnet/src/WordNet.java:33-41 | a noun's id list is exactly the ids of the lines naming it, in line order and once per mention; the keys are exactly the nouns some line names |
| `WordNets.NounIndexContains` | Assignment1-Wordnet/src/WordNet.java:27-42 | every noun of every line is a key whose list holds that line's id |
| `WordNets.NounIndexExtends` | Assignment1-Wordnet/src/WordNet.java:35-40 | reading further lines only appends to a noun's list; earlier ids are never dropped |
| `WordNets.IdIndexLastWins` | Assignment1-Wordnet/src/WordNet.java:30-31 | each id maps to field 1 of the last line with that id |
| `WordNets.IdIndexKeys` | Assignment1-Wordnet/src/WordNet.java:30-31 | `idToNouns` has exactly one key per id read, so the digraph has one vertex per distinct id |
| `WordNets.WordNet.ReadHypernyms` | Assignment1-Wordnet/src/WordNet.java:44-52 | the digraph starts with `idToNouns.size()` vertices and no edges; the loop fails exactly when `addEdge` would meet a vertex out of range, and otherwise the digraph is `BuildGraph` of the lines |
| `WordNets.BuildGraphEdges` | Assignment1-Wordnet/src/WordNet.java:46-52 | the out-edges of each vertex are exactly the later fields of the lines starting with it, so a line `a,b1,...,bn` adds `a -> b1 ... a -> bn` and a one-field line adds nothing |
| `WordNets.BuildGraphIsValid` | Assignment1-Wordnet/src/WordNet.java:44-52 | when every edge was accepted the digraph has `idToNouns.size()` vertices and every edge ends at a vertex |
| `WordNets.IsRootedDAG` | Assignment1-Wordnet/src/WordNet.java:60-83 | true exactly when the digraph has no cycle and exactly one vertex without out-edges |
| `WordNets.RootCountIsCardinality` | Assignment1-Wordnet/src/WordNet.java:66-77 | `rootCount` after the loop is the number of vertices without out-edges |
| `WordNets.Create` | Assignment1-Wordnet/src/WordNet.java:17-58 | IllegalArgumentException exactly for null inputs, an edge out of range, or a digraph that is no rooted DAG; otherwise a fresh, consistent WordNet over exactly those lines |
| `WordNets.WordNet.AttachSap` | Assignment1-Wordnet/src/WordNet.java:57 | the SAP is built over the WordNet digraph |
| `WordNets.WordNet.Nouns` | Assignment1-Wordnet/src/WordNet.java:86-88 | the nouns are exactly the words some synset line names |
| `WordNets.WordNet.IsNoun` | Assignment1-Wordnet/src/WordNet.java:91-95 | null throws; otherwise true exactly when some synset line names the word |
| `WordNets.Boxed` | Assignment1-Wordnet/src/WordNet.java:101 | a noun's id list handed to the set queries is null exactly when the noun is unknown, holds no null, and names exactly its ids |
| `WordNets.WordNet.Distance` | Assignment1-Wordnet/src/WordNet.java:98-102 | null nouns and words no line names throw; otherwise the shortest ancestral path length between the two nouns' id sets |
| `WordNets.WordNet.Sap` | Assignment1-Wordnet/src/WordNet.java:107-111 | null nouns and words no line names throw; otherwise the synset of the closest common ancestor, null when `idToNouns` has no such key |
| `Outcasts.Outcast.constructor` | Assignment1-Wordnet/src/Outcast.java:7-10 | the outcast finder keeps the distance function it is given |
| `Outcasts.Outcast.FindOutcast` | Assignment1-Wordnet/src/Outcast.java:12-30 | the result is the noun at the index whose score (sum of distances to every other index) is largest, the earliest such index on ties; the array is not modified |
| `Outcasts.OutcastIndexIsUnique` | Assignment1-Wordnet/src/Outcast.java:23-26 | there is just one index with the largest score and no earlier index reaching it |
| `Outcasts.AllScoresZero` | Assignment1-Wordnet/src/Outcast.java:14-15 | when every score is 0 the outcast is the first noun |
| `Outcasts.ScoreIgnoresSelf` | Assignment1-Wordnet/src/Outcast.java:19-22 | the j == i term is left out of index i's score: the score of index i depends only on the distances from nouns[i] to the nouns at the other indices (a repeated noun at another index still counts) |
| `Teams.Team.constructor` | Assignment3-BaseballElimination/Team.java:15-24 | the getters return exactly the name, wins, losses and remaining games given; the stored matches array is freshly allocated and equal element by element to the argument, which is not modified |
| `Teams.WriteAfterConstruction` | Assignment3-BaseballElimination/Team.java:21-23 | writing to the argument array after construction leaves the team's matches as they were |

`Teams.Team.GetMatches` (Assignment3-BaseballElimination/Team.java:42-44) is a
function with no contract: it returns the stored array object itself, so
every call yields the same reference, and the constructor's contract speaks
of it.

## Left out

- File and console reading (`In`, `StdIn`, `StdOut`) and the `main` methods of the three WordNet classes: the inputs are sequences of already-read lines.
- `Integer.parseInt` failures, a synset line without a second field, and the `split(",")` of each line: lines come already split into fields and parsed.
- The breadth-first searches and the cycle search of the algs4 library: their results are inputs constrained by `IsBfsDistances` and `HasCycle`; the library's own argument checks (a vertex out of range, an empty source collection) are not modelled.
- `ShortestAncestralPath.SAP.Length`: requires both vertices to be vertices of the digraph, which the breadth-first search checks in the library.
- `ShortestAncestralPath.ScanLength`: requires every common path sum to be below Integer.MAX_VALUE (`SumsFit`); 32-bit overflow of the sums and a sum equal to the sentinel are not modelled. The same requirement carries over to `SAP.Length`, `SAP.LengthOfSets` and `WordNet.Distance`.
- `Outcasts.Outcast.FindOutcast`: requires a non-empty array; for an empty one the source throws ArrayIndexOutOfBoundsException at `nouns[0]`, which is not modelled.
- `Outcasts.Outcast.FindOutcast`: the distance is a total function, so the IllegalArgumentException that WordNet.distance throws for a word that is not a noun is not modelled.
- `ShortestAncestralPath.ScanAncestor`: compares unbounded sums, where the source compares 32-bit int sums; overflow of those sums is not modelled. The same holds for `SAP.Ancestor`, `SAP.AncestorOfSets` and `WordNet.Sap`.
- `Outcasts.Outcast.FindOutcast`: does not model 32-bit overflow of `sum`, takes the distance as a function with natural values (in a rooted DAG every two nouns have a common ancestor, so `distance` never returns -1), and does not model null array elements.
- `WordNets.WordNet.ReadHypernyms`: when it fails, the partly built digraph is not described; the object is discarded in that case.
- The order in which algs4's `Digraph` yields adjacent vertices: the model keeps insertion order; only out-degrees and reachability are used.
- `WordNets.WordNet.Nouns`: the key set's iteration order is unspecified in Java, so the model gives a set.
- Null arguments to `SAP`'s and `Team`'s constructors (which throw on a null reference, in the library or at `matches.length`): Dafny values and arrays are never null here.
- `BaseballElimination.java` and its flow network and Ford-Fulkerson search are not part of this model; only the `Team` record is.
