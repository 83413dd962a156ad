# Chess risk graphs

A model of the scanner that turns a chess position into two relation graphs.

- The **support graph** has an edge from each piece to every friendly piece it reaches.
- The **threat graph** has an edge from each piece to every enemy piece it reaches.

Each piece on the board is one node. It is named by its symbol and square, e.g. `N_b1` or `q_d8`, and carries its attributes. A piece reaches another piece in one of two ways:

- **Stepping** (pawn, knight, king): the other piece stands at one of the piece's fixed offsets.
- **Sliding** (rook, bishop, queen): the other piece is the first one along one of the piece's directions.

The graphs are kept by the `RiskGraph` base class, which holds three multigraphs (combined, support and threat) and adds or removes nodes and edges in all of them together.

The project has these modules:

- `Wrappers`: Option and Result.
- `MultiDiGraph`: the networkx multigraph as a value. It has a node set, a node-attribute map and the edges in insertion order, with parallel edges allowed.
- `RiskGraphs`: the `RiskGraph` class.
  - It keeps two invariants: `Valid`, that each graph is well formed, and `Consistent`, that for each directed pair the combined graph holds at least as many edges as the support and threat graphs together.
  - Its methods follow the order in which the source changes the three graphs, including the changes made before an exception. Node attributes are replaced where networkx merges them (see `MultiDiGraph.AddNode` under "## Left out").
- `ChessBoard`: the board snapshot, square arithmetic, piece names and the decorated pieces. It also has the index table that maps node names to squares.
- `Reach`: the offset and direction tables, and what a stepping or sliding scan finds. It also gives, as functions, the support and threat edges an analysis adds.
- `ScanProperties`: what those edges mean.
  - Every edge joins two pieces, one reaching the other.
  - Support and threat never share a directed pair.
  - The exact set of squares each kind of piece reaches.
- `EdgeCounts`: each directed pair occurs at most once on each side, so the support and threat graphs never hold parallel edges and their in-degrees count distinct pieces.
- `ChessRiskGraphs`: the `ChessRiskGraph` class.
  - Its `analyze_risk` loop, the six piece handlers, both scan loops, the linking step and the node lookup are written as methods.
  - Each method is proved to add exactly the edges the functions of `Reach` specify.

What the model follows:

- **Composition, not inheritance.** `ChessRiskGraph` extends `RiskGraph` in the source. In the model it holds a `RiskGraph` in the field `base`.
- **The code, where it differs from its own description:**
  - After `analyze_risk` the combined graph `graph` is empty. Only the support and threat graphs receive nodes and edges (chess_risk_graph.py:12-19 and 197-208). So the `Consistent` invariant of the base class holds for the analysed graphs exactly when the position gives neither side an edge (`ConsistentOnlyWithoutEdges`).
  - No king, piece value or risk score plays a part in the edges.

## Model

| member | source | states |
|---|---|---|
| ChessBoard.RowColToSquareIndex | chess_risk_graph.py:24-30 | fails with ValueError exactly when the row or the column is outside 0..7; otherwise the index lies in 0..63 and gives the row back by `/ 8` and the column by `% 8` |
| ChessBoard.SquareIndexRoundTrip | chess_risk_graph.py:24-30 | every square index is `RowColToSquareIndex` of its own row and column |
| ChessBoard.HandlerDispatch | chess_risk_graph.py:169-174 | a handler's test `str(piece).lower() != letter` lets through exactly the pieces of its own kind, of either colour, and never an empty square |
| ChessBoard.SymbolInjective | chess_risk_graph.py:50 | a piece's symbol determines its kind and colour |
| ChessBoard.NameRoundTrip | chess_risk_graph.py:48-51 | the name built from a square's row and column gives that square back |
| ChessBoard.NameInjective | chess_risk_graph.py:50 | two pieces share a name only when they are the same piece on the same square |
| ChessBoard.DecoratedPieceAtSquare | chess_risk_graph.py:42-61 | None exactly for an empty square; otherwise the name of the piece on it, and attributes whose index and square are that square, with the piece's symbol, colour, type number and group |
| ChessBoard.PiecesUpToDecorated | chess_risk_graph.py:32-40 | everything the generator yields below a square bound is the decorated piece of its own occupied square, below that bound |
| ChessBoard.PiecesUpToSquares | chess_risk_graph.py:32-40 | the generator yields the occupied squares below the bound each exactly once, in strictly increasing square order |
| ChessBoard.DecoratedNamesDistinct | chess_risk_graph.py:32-40 | the generator never yields two pieces with the same name |
| ChessBoard.DecoratedNames | chess_risk_graph.py:32-40 | the names the generator yields are exactly the names of the pieces on the board |
| ChessBoard.PiecesGraphNodes | chess_risk_graph.py:15-17 | after `add_nodes_from` the nodes are exactly the pieces on the board, each carrying its own decoration, and there are no edges |
| ChessBoard.AttrsOfSquare | chess_risk_graph.py:15-17 | the piece on an occupied square is a node carrying that square's decoration |
| ChessBoard.BoardIndexesLookup | chess_risk_graph.py:64 | the `index` attributes of the support graph map each piece's name to its square and hold no other name |
| MultiDiGraph.Empty | risk_graphs.py:8-10 | `nx.MultiDiGraph()` and `clear()` give a well-formed graph with no nodes, no attributes and no edges |
| MultiDiGraph.AddNode | risk_graphs.py:23-25 | the node joins the node set with the given record as its attributes; the edges are kept; well-formedness is kept |
| MultiDiGraph.AddNodesFrom | chess_risk_graph.py:16-17 | the node set grows by the entries' names; each name ends with the record of its last entry (a replacement, see `MultiDiGraph.AddNode` under "## Left out"); other attributes and all edges are kept |
| MultiDiGraph.AddEdge | chess_risk_graph.py:205 | one more parallel edge u->v; the endpoints become nodes; the attributes are kept |
| MultiDiGraph.RemoveEdge | risk_graphs.py:28 | fails exactly when there is no u->v edge; otherwise exactly one u->v edge is removed, and the nodes and attributes are kept |
| MultiDiGraph.RemoveNode | risk_graphs.py:44 | fails exactly when the node is missing; otherwise the node, its attributes and every edge touching it are removed |
| Reach.Directions | chess_risk_graph.py:82-112 | the directions of every sliding piece are unit kernels |
| Reach.QueenKernelsAreRookAndBishop | chess_risk_graph.py:104-112 | the queen looks along exactly the rook's and the bishop's directions |
| Reach.StepTarget | chess_risk_graph.py:187-195 | an offset finds a square exactly when the displaced row and column are on the board and the square there is occupied; that square is at the displaced row and column |
| Reach.RayFrom | chess_risk_graph.py:127-139 | a ray finds only an occupied square of the board |
| ScanProperties.RayFromSound | chess_risk_graph.py:124-139 | what a ray finds is an occupied square at some step with every earlier step on the board and empty; when it finds nothing, the ray leaves the board after empty squares |
| ScanProperties.RayFindsFirstBlocker | chess_risk_graph.py:124-139 | a ray whose squares are empty up to an occupied square finds exactly that square |
| ScanProperties.InDirEdges | chess_risk_graph.py:187-195 | an edge comes from a scan over offsets or directions exactly when it comes from one of them |
| ScanProperties.InEdgesUpTo | chess_risk_graph.py:66-72 | an edge comes from the squares below k exactly when it comes from the piece on one of them |
| ScanProperties.EdgesMeaning | chess_risk_graph.py:63-72 | an edge is on one side exactly when it runs from a piece to a piece it reaches, with colours that agree (support) or differ (threat) |
| ScanProperties.EdgeFromPiece | chess_risk_graph.py:197-208 | every edge a piece adds runs from it to a related piece |
| ScanProperties.EdgeToPiece | chess_risk_graph.py:197-208 | every related piece receives an edge from the piece that reaches it |
| ScanProperties.SupportThreatDisjoint | chess_risk_graph.py:204-208 | no directed pair is both a support and a threat edge |
| ScanProperties.EdgesJoinPieces | chess_risk_graph.py:197-205 | every endpoint of an edge is a piece on the board |
| EdgeCounts.DirectionsDistinct | chess_risk_graph.py:82-180 | no handler's offset or direction table lists the same entry twice |
| EdgeCounts.HitInjective | chess_risk_graph.py:124-195 | from one square, two offsets (stepping) or two unit directions (sliding) that find the same square are the same |
| EdgeCounts.DirEdgesNoRepeats | chess_risk_graph.py:124-195 | a scan over pairwise different offsets or directions adds each directed pair at most once |
| EdgeCounts.PieceEdgesNoRepeats | chess_risk_graph.py:66-72 | the six handlers called on one piece add each directed pair at most once |
| EdgeCounts.EdgesUpToNoRepeats | chess_risk_graph.py:66-72 | the pieces on the squares below a bound together add each directed pair at most once, since different squares start their edges at different pieces |
| EdgeCounts.NoDuplicateEdges | chess_risk_graph.py:197-208 | each directed pair occurs at most once among the support edges and at most once among the threat edges of a position |
| ScanProperties.PiecesEdgesUpTo | chess_risk_graph.py:66-72 | running the handlers over the generator's pieces adds the same edges as running them over every square in order |
| ScanProperties.StepReach | chess_risk_graph.py:182-195 | a stepping scan finds a square exactly when it is occupied and its displacement from the piece is one of the offsets |
| ScanProperties.StepSteps | chess_risk_graph.py:182-195 | for a pawn, knight or king, reaching a square is the stepping scan over its offsets |
| ScanProperties.PawnReach | chess_risk_graph.py:169-180 | a pawn reaches exactly the occupied squares one row ahead (up for white, down for black) and one column to either side |
| ScanProperties.KnightReach | chess_risk_graph.py:155-167 | a knight reaches exactly the occupied squares two rows and one column, or one row and two columns, away |
| ScanProperties.KingReach | chess_risk_graph.py:141-153 | a king reaches exactly the occupied squares next to it, diagonals included, and not its own square |
| ScanProperties.SlideReach | chess_risk_graph.py:117-139 | a rook, bishop or queen reaches exactly the first occupied square along each of its directions, and nothing beyond it |
| ChessRiskGraphs.OneHandlerPerPiece | chess_risk_graph.py:66-72 | of the six handlers called on a piece, only the one of its own kind adds edges |
| ChessRiskGraphs.RayStep | chess_risk_graph.py:127-139 | one step of the ray: off the board ends it with nothing, a piece is its hit, and an empty square moves it on |
| ChessRiskGraphs.HandlerScans | chess_risk_graph.py:74-88 | the handler of the piece's own kind adds the edges of its scan over that kind's directions |
| ChessRiskGraphs.HandlerSkips | chess_risk_graph.py:74-80 | every other handler adds nothing |
| ChessRiskGraphs.AnalysedGraphShape | chess_risk_graph.py:12-19 | after an analysis each side's graph has exactly the pieces as nodes, each carrying its decoration, holds that side's edges in scan order, and is well formed |
| ChessRiskGraphs.ConsistentOnlyWithoutEdges | chess_risk_graph.py:12-19 | for the analysed support and threat graphs of a position, next to the empty combined graph an analysis leaves, the base class's count invariant holds exactly when the position's support and threat edges are both empty |
| ChessRiskGraphs.AnalysedGraphSimple | chess_risk_graph.py:197-208 | neither analysed graph holds two parallel edges for the same directed pair |
| ChessRiskGraphs.ChessRiskGraph.constructor | chess_risk_graph.py:7-10 | the three graphs are empty, there is no layout and no index table, and the position is the one given |
| ChessRiskGraphs.ChessRiskGraph.AnalyzeRisk | chess_risk_graph.py:12-19 | the combined graph ends empty and without layout; the support and threat graphs are rebuilt from scratch as the analysed graphs of the position; the index table is the position's |
| ChessRiskGraphs.ChessRiskGraph.DecoratedBoardPieces | chess_risk_graph.py:21-22 | the list is exactly what the generator yields |
| ChessRiskGraphs.ChessRiskGraph.AnalyzeFirstOrderRisk | chess_risk_graph.py:63-72 | reads the index table off the support graph; adds to each side exactly all of its edges for the position; leaves the combined graph and layout alone |
| ChessRiskGraphs.ChessRiskGraph.AnalyzePiece | chess_risk_graph.py:67-72 | the six handlers together add exactly the piece's own edges to each side |
| ChessRiskGraphs.ChessRiskGraph.Rook | chess_risk_graph.py:74-88 | adds the rook's ray edges when the piece is a rook, and nothing otherwise |
| ChessRiskGraphs.ChessRiskGraph.Bishop | chess_risk_graph.py:90-102 | adds the bishop's ray edges when the piece is a bishop, and nothing otherwise |
| ChessRiskGraphs.ChessRiskGraph.Queen | chess_risk_graph.py:104-115 | adds the queen's ray edges when the piece is a queen, and nothing otherwise |
| ChessRiskGraphs.ChessRiskGraph.ScanRolling | chess_risk_graph.py:117-139 | adds, direction by direction in order, the edge to each direction's first blocker on its side |
| ChessRiskGraphs.ChessRiskGraph.ScanRay | chess_risk_graph.py:125-139 | adds to its side the edge to the first occupied square along one direction, or nothing when the ray leaves the board |
| ChessRiskGraphs.ChessRiskGraph.King | chess_risk_graph.py:141-153 | adds the king's step edges when the piece is a king, and nothing otherwise |
| ChessRiskGraphs.ChessRiskGraph.Knight | chess_risk_graph.py:155-167 | adds the knight's step edges when the piece is a knight, and nothing otherwise |
| ChessRiskGraphs.ChessRiskGraph.Pawn | chess_risk_graph.py:169-180 | adds the pawn's two capture-square edges, in the direction of its colour, when the piece is a pawn, and nothing otherwise |
| ChessRiskGraphs.ChessRiskGraph.ScanDeltas | chess_risk_graph.py:182-195 | adds, offset by offset in order, the edge to each occupied displaced square on its side |
| ChessRiskGraphs.ChessRiskGraph.ScanDelta | chess_risk_graph.py:187-195 | adds the edge to the occupied square at one offset on its side, or nothing for an empty square or one off the board |
| ChessRiskGraphs.ChessRiskGraph.LinkPieces | chess_risk_graph.py:197-208 | nothing when either piece is missing; otherwise one edge origin->other, in the support graph for equal colours and in the threat graph for different ones |
| ChessRiskGraphs.ChessRiskGraph.GetNodeAtSquare | chess_risk_graph.py:210-212 | returns a name whose index is the square, or None exactly when no name has it |
| RiskGraphs.RiskGraph.constructor | risk_graphs.py:7-14 | three empty graphs and no layout; both invariants hold |
| RiskGraphs.RiskGraph.ClearGraphs | risk_graphs.py:16-20 | all three graphs empty and no layout; both invariants hold |
| RiskGraphs.RiskGraph.AddNode | risk_graphs.py:22-25 | the same node with the same data goes into all three graphs; both invariants are preserved |
| RiskGraphs.RiskGraph.AddSupport | risk_graphs.py:31-33 | one more edge in the combined and support graphs, threat graph unchanged; both invariants are preserved |
| RiskGraphs.RiskGraph.AddThreat | risk_graphs.py:39-41 | one more edge in the combined and threat graphs, support graph unchanged; both invariants are preserved |
| RiskGraphs.RiskGraph.RemoveSupport | risk_graphs.py:27-29 | succeeds exactly when both graphs hold the edge; the combined graph loses it whenever it held it, even when the support graph then raises; invariants preserved on success |
| RiskGraphs.RiskGraph.RemoveThreat | risk_graphs.py:35-37 | as `RemoveSupport`, with the threat graph |
| RiskGraphs.RiskGraph.RemoveNode | risk_graphs.py:43-46 | succeeds exactly when all three graphs hold the node; each graph up to the first one lacking it has lost the node; invariants preserved on success |
| RiskGraphs.RiskGraph.RemoveSupportChecked | risk_graphs.py:27-29 | removes the edge from both graphs or, raising, changes nothing; the count invariant holds on every path |
| RiskGraphs.RiskGraph.RemoveThreatChecked | risk_graphs.py:35-37 | as `RemoveSupportChecked`, with the threat graph |
| RiskGraphs.RiskGraph.RemoveNodeChecked | risk_graphs.py:43-46 | raises, changing nothing, exactly when the combined graph lacks the node; otherwise the combined graph is `remove_node` of the old one, each subgraph is the old one without the node when it held it and unchanged otherwise, so every other edge is kept, and the count invariant holds |
| RiskGraphs.RemoveNodeEverywhere | risk_graphs.py:43-46 | removing a node from the combined graph and from every subgraph that holds it keeps each directed pair's support and threat copies within the combined graph's |

## Left out

- Drawing (`_draw_graph`, `draw_*`), `get_positions` with its random layout, and the unused degree and risk fields of `RiskGraph` are not modelled. The layout is an opaque optional value that only `clear_graphs` resets.
- `RiskGraph.analyze_risk` executes `raise NotImplemented`. `NotImplemented` is not an exception class, so this raises a TypeError. It is not modelled.
- `_get_piece_at_square` is never called and is not modelled. Neither is `main`.
- python-chess is not modelled. The board is a 64-square snapshot given to the constructor, in place of the starting position `chess.Board()` builds. The model does not change it between analyses.
- The node attributes are shrunk:
  - `color` (the string `'True'`/`'False'`) is a boolean;
  - `type` (the string of the type number) is that number;
  - `piece` is the symbol character.
- `weight` in `add_support` and `add_threat`: edge attributes are not modelled.
- MultiDiGraph.AddNode: networkx merges the new attributes into an existing node's attribute dict (`dict.update`); the model replaces the record. The two agree for every record the model builds, because each `NodeData` carries all six fields. `MultiDiGraph.AddNodesFrom` inherits the same simplification.
- `_decorated_board_piece_generator` is lazy. The model builds its list, which holds the same items in the same order, because the board does not change during the scan.
- ScanRay, ScanDelta and AnalyzePiece are the bodies of the source's loops, written as methods of their own.
- Reach.Hit: for a sliding scan it treats a direction that is not a unit kernel as finding nothing. The source only ever passes unit kernels, which ScanRolling requires.
- Reach.PiecesEdges: a decoration whose index is off the board contributes nothing. The generator never yields one.
- ChessRiskGraphs.ChessRiskGraph.AnalyzeFirstOrderRisk: specified only on the state `analyze_risk` sets up, where the support graph's `index` attributes are the board's pieces.
  - The handlers, scans, LinkPieces and the other methods of the class are specified the same way.
  - Called on any other state, the source looks nodes up in dict order, and `add_edge(None, …)` raises a ValueError that the scans swallow. LinkPieces treats a missing node as adding nothing, but the model does not give an edge set for those states.
- ChessRiskGraphs.ChessRiskGraph.GetNodeAtSquare: dict iteration order is not modelled. Any key with the square may be returned. On the analysed state exactly one key has it (BoardIndexesLookup).
- Integer widths: every integer in the core is a square index, a row, a column or a small offset, so there is no overflow to model.

## Findings

| source | as written | input that shows it | evidently intended | confidence | as-written member | corrected member |
|---|---|---|---|---|---|---|
| risk_graphs.py:27-29 | removes the edge from `graph` first, then from `support_graph`, which raises when it lacks the edge; `graph` has already lost it | `add_threat("a", "b", w)` then `remove_support("a", "b")`: `graph` has no a->b, `threat_graph` still has one | raise before changing anything, so that `graph` keeps holding every support and threat edge | medium, not executed | RiskGraphs.RiskGraph.RemoveSupport (shown by RiskGraphs.RemoveSupportOfThreatEdge) | RiskGraphs.RiskGraph.RemoveSupportChecked |
| risk_graphs.py:35-37 | the same order in `remove_threat` | `add_support("a", "b", w)` then `remove_threat("a", "b")`: `graph` has no a->b, `support_graph` still has one | the same as for `remove_support` | medium, not executed | RiskGraphs.RiskGraph.RemoveThreat (shown by RiskGraphs.RemoveThreatOfSupportEdge) | RiskGraphs.RiskGraph.RemoveThreatChecked |
| risk_graphs.py:43-46 | removes the node from `graph`, then `support_graph`, then `threat_graph`; a node that only a threat edge introduced is missing from `support_graph`, which raises, so `threat_graph` keeps the node and its edge | `add_threat("a", "b", w)` then `remove_node("a")`: `graph` has no a->b, `threat_graph` still has one | the node leaves every graph that holds it, so no subgraph keeps an edge `graph` has dropped | medium, not executed | RiskGraphs.RiskGraph.RemoveNode (shown by RiskGraphs.RemoveNodeOfThreatOnlyNode) | RiskGraphs.RiskGraph.RemoveNodeChecked |
