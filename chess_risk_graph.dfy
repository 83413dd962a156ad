/**
 * `ChessRiskGraph`: builds the support and threat graphs of a board, one
 * node per piece and one edge per piece another piece reaches.
 */
module ChessRiskGraphs {
  import opened Wrappers
  import opened MultiDiGraph
  import opened RiskGraphs
  import opened ChessBoard
  import opened Reach
  import opened ScanProperties
  import opened EdgeCounts

  /**
   * The edges one link step adds to one side: none when either piece is
   * missing, otherwise the origin->other edge on the side its colours pick.
   */
  function LinkEdges(board: Position, origin: Option<Decorated>, other: Option<Decorated>, support: bool): seq<Edge>
    requires origin.Some? ==> 0 <= origin.value.1.index < 64
    requires other.Some? ==> 0 <= other.value.1.index < 64
  {
    if origin.None? || other.None? then []
    else SideEdges(board, origin.value.1.index, Some(other.value.1.index), support)
  }

  /** The edges the handler for `kind` adds to one side: the piece's edges if it is of that kind, else none. */
  function HandlerEdges(board: Position, origin: int, kind: Kind, support: bool): seq<Edge>
    requires 0 <= origin < 64
  {
    if board[origin].Some? && board[origin].value.kind == kind then PieceEdges(board, origin, support) else []
  }

  /** The six handlers, in the order they are called, add exactly the edges of the piece's own kind. */
  lemma OneHandlerPerPiece(board: Position, origin: int, support: bool)
    requires 0 <= origin < 64
    ensures HandlerEdges(board, origin, Kind.Pawn, support) + HandlerEdges(board, origin, Kind.Knight, support)
            + HandlerEdges(board, origin, Kind.King, support) + HandlerEdges(board, origin, Kind.Rook, support)
            + HandlerEdges(board, origin, Kind.Bishop, support) + HandlerEdges(board, origin, Kind.Queen, support)
            == PieceEdges(board, origin, support)
  {
    SixHandlers(board[origin], PieceEdges(board, origin, support));
  }

  /** Of six handlers that each add `es` for their own kind and nothing otherwise, only the occupant's adds. */
  lemma SixHandlers(occupant: Option<Piece>, es: seq<Edge>)
    requires occupant.None? ==> es == []
    ensures (if occupant.Some? && occupant.value.kind == Kind.Pawn then es else [])
            + (if occupant.Some? && occupant.value.kind == Kind.Knight then es else [])
            + (if occupant.Some? && occupant.value.kind == Kind.King then es else [])
            + (if occupant.Some? && occupant.value.kind == Kind.Rook then es else [])
            + (if occupant.Some? && occupant.value.kind == Kind.Bishop then es else [])
            + (if occupant.Some? && occupant.value.kind == Kind.Queen then es else [])
            == es
  {
  }

  /** Applying the six handlers' edges one after another is applying the piece's edges. */
  lemma AddEdgesAppendSix<A>(board: Position, g: Graph<A>, o: int, support: bool)
    requires 0 <= o < 64
    ensures AddEdges(AddEdges(AddEdges(AddEdges(AddEdges(AddEdges(g,
              HandlerEdges(board, o, Kind.Pawn, support)), HandlerEdges(board, o, Kind.Knight, support)),
              HandlerEdges(board, o, Kind.King, support)), HandlerEdges(board, o, Kind.Rook, support)),
              HandlerEdges(board, o, Kind.Bishop, support)), HandlerEdges(board, o, Kind.Queen, support))
            == AddEdges(g, PieceEdges(board, o, support))
  {
    var a, b, c := HandlerEdges(board, o, Kind.Pawn, support), HandlerEdges(board, o, Kind.Knight, support), HandlerEdges(board, o, Kind.King, support);
    var d, e, f := HandlerEdges(board, o, Kind.Rook, support), HandlerEdges(board, o, Kind.Bishop, support), HandlerEdges(board, o, Kind.Queen, support);
    AddEdgesAppend(g, a, b);
    AddEdgesAppend(g, a + b, c);
    AddEdgesAppend(g, a + b + c, d);
    AddEdgesAppend(g, a + b + c + d, e);
    AddEdgesAppend(g, a + b + c + d + e, f);
    OneHandlerPerPiece(board, o, support);
  }

  /** Scanning one more offset or direction appends that offset's edges to the graph. */
  lemma AddDirEdgesStep<A>(g: Graph<A>, board: Position, origin: int, slides: bool, ds: seq<Offset>, i: int, support: bool)
    requires 0 <= origin < 64 && 0 <= i < |ds|
    ensures AddEdges(AddEdges(g, DirEdges(board, origin, slides, ds[..i], support)),
                     SideEdges(board, origin, Hit(board, origin, slides, ds[i]), support))
            == AddEdges(g, DirEdges(board, origin, slides, ds[..i + 1], support))
  {
    assert ds[..i + 1][..i] == ds[..i];
    AddEdgesAppend(g, DirEdges(board, origin, slides, ds[..i], support),
                   SideEdges(board, origin, Hit(board, origin, slides, ds[i]), support));
  }

  /** Linking a piece to the occupant of a square adds the edges of a scan that hit that square. */
  lemma LinkHit(board: Position, piece: Decorated, t: int, support: bool)
    requires IsDecoration(board, piece) && 0 <= t < 64
    ensures LinkEdges(board, Some(piece), DecoratedPieceAtSquare(board, t), support)
            == SideEdges(board, piece.1.index, if board[t].Some? then Some(t) else None, support)
  {
  }

  /**
   * One pass of the offset loop, stated on its own variables: the square at
   * `d` from the piece is off the board exactly when the stepping scan finds
   * nothing there, and linking its occupant adds the scan's edges.
   */
  lemma DeltaStep(board: Position, piece: Decorated, d: Offset)
    requires IsDecoration(board, piece)
    ensures var o := piece.1.index;
            var s := RowColToSquareIndex(o / 8 + d.0, o % 8 + d.1);
            && (s.Err? ==> StepTarget(board, o, d) == None)
            && (s.Ok? ==>
                  && LinkEdges(board, Some(piece), DecoratedPieceAtSquare(board, s.value), true)
                     == SideEdges(board, o, StepTarget(board, o, d), true)
                  && LinkEdges(board, Some(piece), DecoratedPieceAtSquare(board, s.value), false)
                     == SideEdges(board, o, StepTarget(board, o, d), false))
  {
    var o := piece.1.index;
    var s := RowColToSquareIndex(o / 8 + d.0, o % 8 + d.1);
    if s.Ok? {
      LinkHit(board, piece, s.value, true);
      LinkHit(board, piece, s.value, false);
    }
  }

  /** One step of the sliding scan: off the board ends it, a piece is its hit, an empty square moves it on. */
  lemma RayStep(board: Position, row: int, col: int, d: Offset, k: int)
    requires 0 <= row < 8 && 0 <= col < 8 && IsKernel(d) && 1 <= k <= 8
    ensures RaySquare(row, col, d, k).Err? ==> RayFrom(board, row, col, d, k) == None
    ensures RaySquare(row, col, d, k).Ok? && board[RaySquare(row, col, d, k).value].Some? ==>
              RayFrom(board, row, col, d, k) == Some(RaySquare(row, col, d, k).value)
    ensures RaySquare(row, col, d, k).Ok? && board[RaySquare(row, col, d, k).value].None? ==>
              k < 8 && RayFrom(board, row, col, d, k) == RayFrom(board, row, col, d, k + 1)
  {
  }

  /**
   * One pass of the ray loop, stated on its own variables: with `delta` the
   * offset already walked (k - 1 steps), the square one kernel further is
   * step `k` of the ray, and what it holds decides the ray's first blocker.
   */
  lemma RayLoopStep(board: Position, row: int, col: int, d: Offset, k: int, delta: Offset)
    requires 0 <= row < 8 && 0 <= col < 8 && IsKernel(d) && 1 <= k <= 8
    requires delta.0 == Scale(d.0, k - 1) && delta.1 == Scale(d.1, k - 1)
    ensures var s := RowColToSquareIndex(row + delta.0 + d.0, col + delta.1 + d.1);
            && (s.Err? ==> RayFrom(board, row, col, d, k) == None)
            && (s.Ok? && board[s.value].Some? ==> RayFrom(board, row, col, d, k) == Some(s.value))
            && (s.Ok? && board[s.value].None? ==>
                  k < 8 && RayFrom(board, row, col, d, k) == RayFrom(board, row, col, d, k + 1)
                  && delta.0 + d.0 == Scale(d.0, k) && delta.1 + d.1 == Scale(d.1, k))
  {
    RayStep(board, row, col, d, k);
    ScaleNext(d.0, k);
    ScaleNext(d.1, k);
  }

  /** One more step of size `x` moves `x` further. */
  lemma ScaleNext(x: int, k: int)
    requires -1 <= x <= 1
    ensures Scale(x, k - 1) + x == Scale(x, k)
  {
  }

  /** Running the handlers on one more piece appends that piece's edges to the graph. */
  lemma PiecesEdgesStep<A>(g: Graph<A>, board: Position, ps: seq<Decorated>, i: int, support: bool)
    requires 0 <= i < |ps| && 0 <= ps[i].1.index < 64
    ensures AddEdges(AddEdges(g, PiecesEdges(board, ps[..i], support)), PieceEdges(board, ps[i].1.index, support))
            == AddEdges(g, PiecesEdges(board, ps[..i + 1], support))
  {
    assert ps[..i + 1][..i] == ps[..i];
    AddEdgesAppend(g, PiecesEdges(board, ps[..i], support), PieceEdges(board, ps[i].1.index, support));
  }

  /** One side's graph as `analyze_risk` leaves it: a node per piece, an edge per related pair. */
  function AnalysedGraph(board: Position, support: bool): Graph<NodeData>
  {
    AddEdges(PiecesGraph(board), if support then SupportEdges(board) else ThreatEdges(board))
  }

  /**
   * Each side's graph has exactly the pieces as nodes, carrying their
   * decorations, and the side's edges in scan order; it is well formed.
   */
  lemma AnalysedGraphShape(board: Position, support: bool)
    ensures AnalysedGraph(board, support).nodes == NodeNames(board)
    ensures AnalysedGraph(board, support).attrs.Keys == NodeNames(board)
    ensures forall s :: 0 <= s < 64 && board[s].Some? ==>
              AnalysedGraph(board, support).attrs[NameAt(board, s)] == DecoratedPieceAtSquare(board, s).value.1
    ensures AnalysedGraph(board, support).edges == EdgesUpTo(board, |board|, support)
    ensures AnalysedGraph(board, support).Valid()
  {
    PiecesGraphNodes(board);
    EdgesJoinPieces(board, support);
  }

  /**
   * After an analysis the combined graph is empty, so the analysed support
   * and threat graphs respect the count invariant exactly when the board
   * gives neither side an edge.
   */
  lemma ConsistentOnlyWithoutEdges(board: Position)
    ensures (forall e :: AnalysedGraph(board, true).Count(e) + AnalysedGraph(board, false).Count(e) <= Empty<NodeData>().Count(e))
            <==> SupportEdges(board) == [] && ThreatEdges(board) == []
  {
    AnalysedEdges(board, true);
    AnalysedEdges(board, false);
    ConsistentNextToEmpty(AnalysedGraph(board, true), AnalysedGraph(board, false));
  }

  /** Each analysed graph's edges are its side's edges. */
  lemma AnalysedEdges(board: Position, support: bool)
    ensures AnalysedGraph(board, support).edges == if support then SupportEdges(board) else ThreatEdges(board)
  {
  }

  /** Next to an empty combined graph, two graphs respect the count invariant exactly when both have no edges. */
  lemma ConsistentNextToEmpty<A>(support: Graph<A>, threat: Graph<A>)
    ensures (forall e :: support.Count(e) + threat.Count(e) <= Empty<A>().Count(e))
            <==> support.edges == [] && threat.edges == []
  {
    if support.edges != [] {
      assert support.Count(support.edges[0]) > 0;
    }
    if threat.edges != [] {
      assert threat.Count(threat.edges[0]) > 0;
    }
  }

  /** Neither analysed graph holds two parallel edges. */
  lemma AnalysedGraphSimple(board: Position, support: bool, e: Edge)
    ensures AnalysedGraph(board, support).Count(e) <= 1
  {
    AnalysedGraphShape(board, support);
    NoDuplicateEdges(board, e);
  }

  /** The handler of a piece's own kind adds exactly the edges of its scan over `ds`. */
  lemma HandlerScans(board: Position, origin: int, kind: Kind, ds: seq<Offset>, support: bool)
    requires 0 <= origin < 64 && board[origin].Some? && board[origin].value.kind == kind
    requires ds == Directions(board[origin].value)
    ensures HandlerEdges(board, origin, kind, support) == DirEdges(board, origin, Slides(kind), ds, support)
  {
  }

  /** Every other handler adds nothing. */
  lemma HandlerSkips(board: Position, origin: int, kind: Kind, support: bool)
    requires 0 <= origin < 64 && !(board[origin].Some? && board[origin].value.kind == kind)
    ensures HandlerEdges(board, origin, kind, support) == []
  {
  }

  class ChessRiskGraph {
    /** The `RiskGraph` part of the object: its three graphs and layout. */
    const base: RiskGraph<NodeData>
    /** The position being analysed, fixed for the life of the object. */
    const board: Position
    /** Node name to square index, read from the support graph before the scan. */
    var nodesIndexes: Option<map<NodeName, int>>

    /** The index table holds one entry per piece on the board, as `analyze_risk` leaves it. */
    ghost predicate Indexed()
      reads this
    {
      nodesIndexes.Some? && IndexTable(board, nodesIndexes.value)
    }

    constructor(board: Position)
      ensures this.board == board && nodesIndexes == None && fresh(base)
      ensures base.graph == Empty() && base.supportGraph == Empty() && base.threatGraph == Empty()
      ensures base.positions == None
    {
      this.board := board;
      nodesIndexes := None;
      base := new RiskGraph<NodeData>();
    }

    /** Rebuilds both relation graphs of `board` from scratch. */
    method AnalyzeRisk()
      modifies this`nodesIndexes, base
      ensures base.graph == Empty() && base.positions == None
      ensures base.supportGraph == AnalysedGraph(board, true) && base.threatGraph == AnalysedGraph(board, false)
      ensures Indexed()
    {
      base.ClearGraphs();
      var decoratedPieces := DecoratedBoardPieces();
      base.supportGraph := AddNodesFrom(base.supportGraph, decoratedPieces);
      base.threatGraph := AddNodesFrom(base.threatGraph, decoratedPieces);
      assert base.supportGraph == base.threatGraph == PiecesGraph(board);
      BoardIndexesLookup(board);
      AnalyzeFirstOrderRisk();
    }

    /** The board-piece generator: the decorated pieces, row by row and column by column. */
    method DecoratedBoardPieces() returns (pieces: seq<Decorated>)
      ensures pieces == DecoratedPieces(board)
    {
      pieces := [];
      for row := 0 to 8
        invariant pieces == PiecesUpTo(board, row * 8)
      {
        for col := 0 to 8
          invariant pieces == PiecesUpTo(board, row * 8 + col)
        {
          GeneratorStep(board, row, col);
          var squareIndex := RowColToSquareIndex(row, col).value;
          if board[squareIndex].None? {
            continue;
          }
          pieces := pieces + [DecoratedPieceAtSquare(board, squareIndex).value];
        }
      }
    }

    /** Reads the index table off the support graph, then runs the six handlers on every piece. */
    method AnalyzeFirstOrderRisk()
      requires IndexTable(board, NodeIndexes(base.supportGraph))
      modifies this`nodesIndexes, base
      ensures Indexed()
      ensures base.supportGraph == AddEdges(old(base.supportGraph), SupportEdges(board))
      ensures base.threatGraph == AddEdges(old(base.threatGraph), ThreatEdges(board))
      ensures base.graph == old(base.graph) && base.positions == old(base.positions)
    {
      ghost var support0, threat0 := base.supportGraph, base.threatGraph;
      var table := NodeIndexes(base.supportGraph);
      nodesIndexes := Some(table);
      var pieces := DecoratedBoardPieces();
      for i := 0 to |pieces|
        invariant nodesIndexes == Some(table)
        invariant base.supportGraph == AddEdges(support0, PiecesEdges(board, pieces[..i], true))
        invariant base.threatGraph == AddEdges(threat0, PiecesEdges(board, pieces[..i], false))
        invariant base.graph == old(base.graph) && base.positions == old(base.positions)
        modifies base
      {
        PiecesUpToDecorated(board, |board|);
        PiecesEdgesStep(support0, board, pieces, i, true);
        PiecesEdgesStep(threat0, board, pieces, i, false);
        AnalyzePiece(pieces[i]);
      }
      assert pieces[..|pieces|] == pieces;
      PiecesEdgesUpTo(board, |board|, true);
      PiecesEdgesUpTo(board, |board|, false);
    }

    /** One pass of the loop over the pieces: the six handlers, in order. */
    method AnalyzePiece(piece: Decorated)
      requires Indexed() && IsDecoration(board, piece)
      modifies base
      ensures base.supportGraph == AddEdges(old(base.supportGraph), PieceEdges(board, piece.1.index, true))
      ensures base.threatGraph == AddEdges(old(base.threatGraph), PieceEdges(board, piece.1.index, false))
      ensures base.graph == old(base.graph) && base.positions == old(base.positions)
    {
      AddEdgesAppendSix(board, base.supportGraph, piece.1.index, true);
      AddEdgesAppendSix(board, base.threatGraph, piece.1.index, false);
      Pawn(piece);
      Knight(piece);
      King(piece);
      Rook(piece);
      Bishop(piece);
      Queen(piece);
    }

    method Rook(piece: Decorated)
      requires Indexed() && IsDecoration(board, piece)
      modifies base
      ensures base.supportGraph == AddEdges(old(base.supportGraph), HandlerEdges(board, piece.1.index, Kind.Rook, true))
      ensures base.threatGraph == AddEdges(old(base.threatGraph), HandlerEdges(board, piece.1.index, Kind.Rook, false))
      ensures base.graph == old(base.graph) && base.positions == old(base.positions)
    {
      var squareIndex := piece.1.index;
      var occupant := board[squareIndex];
      HandlerDispatch(occupant, Kind.Rook);
      if LowerSymbol(occupant) != "r" {
        HandlerSkips(board, squareIndex, Kind.Rook, true);
        HandlerSkips(board, squareIndex, Kind.Rook, false);
        return;
      }
      var kernels := [(1, 0), (0, 1), (-1, 0), (0, -1)];
      HandlerScans(board, squareIndex, Kind.Rook, kernels, true);
      HandlerScans(board, squareIndex, Kind.Rook, kernels, false);
      ScanRolling(piece, kernels);
    }

    method Bishop(piece: Decorated)
      requires Indexed() && IsDecoration(board, piece)
      modifies base
      ensures base.supportGraph == AddEdges(old(base.supportGraph), HandlerEdges(board, piece.1.index, Kind.Bishop, true))
      ensures base.threatGraph == AddEdges(old(base.threatGraph), HandlerEdges(board, piece.1.index, Kind.Bishop, false))
      ensures base.graph == old(base.graph) && base.positions == old(base.positions)
    {
      var squareIndex := piece.1.index;
      var occupant := board[squareIndex];
      HandlerDispatch(occupant, Kind.Bishop);
      if LowerSymbol(occupant) != "b" {
        HandlerSkips(board, squareIndex, Kind.Bishop, true);
        HandlerSkips(board, squareIndex, Kind.Bishop, false);
        return;
      }
      var kernels := [(1, 1), (-1, 1), (-1, -1), (1, -1)];
      HandlerScans(board, squareIndex, Kind.Bishop, kernels, true);
      HandlerScans(board, squareIndex, Kind.Bishop, kernels, false);
      ScanRolling(piece, kernels);
    }

    method Queen(piece: Decorated)
      requires Indexed() && IsDecoration(board, piece)
      modifies base
      ensures base.supportGraph == AddEdges(old(base.supportGraph), HandlerEdges(board, piece.1.index, Kind.Queen, true))
      ensures base.threatGraph == AddEdges(old(base.threatGraph), HandlerEdges(board, piece.1.index, Kind.Queen, false))
      ensures base.graph == old(base.graph) && base.positions == old(base.positions)
    {
      var squareIndex := piece.1.index;
      var occupant := board[squareIndex];
      var kernels := [(1, 1), (0, 1), (-1, 1), (-1, 0), (1, 0), (-1, -1), (0, -1), (1, -1)];
      HandlerDispatch(occupant, Kind.Queen);
      if LowerSymbol(occupant) != "q" {
        HandlerSkips(board, squareIndex, Kind.Queen, true);
        HandlerSkips(board, squareIndex, Kind.Queen, false);
        return;
      }
      HandlerScans(board, squareIndex, Kind.Queen, kernels, true);
      HandlerScans(board, squareIndex, Kind.Queen, kernels, false);
      ScanRolling(piece, kernels);
    }

    /** Scans every direction in `kernels`, in order, for its first blocker. */
    method ScanRolling(piece: Decorated, kernels: seq<Offset>)
      requires Indexed() && IsDecoration(board, piece)
      requires forall i :: 0 <= i < |kernels| ==> IsKernel(kernels[i])
      modifies base
      ensures base.supportGraph == AddEdges(old(base.supportGraph), DirEdges(board, piece.1.index, true, kernels, true))
      ensures base.threatGraph == AddEdges(old(base.threatGraph), DirEdges(board, piece.1.index, true, kernels, false))
      ensures base.graph == old(base.graph) && base.positions == old(base.positions)
    {
      var squareIndex := piece.1.index;
      ghost var support0, threat0 := base.supportGraph, base.threatGraph;
      for i := 0 to |kernels|
        invariant base.supportGraph == AddEdges(support0, DirEdges(board, squareIndex, true, kernels[..i], true))
        invariant base.threatGraph == AddEdges(threat0, DirEdges(board, squareIndex, true, kernels[..i], false))
        invariant base.graph == old(base.graph) && base.positions == old(base.positions)
      {
        AddDirEdgesStep(support0, board, squareIndex, true, kernels, i, true);
        AddDirEdgesStep(threat0, board, squareIndex, true, kernels, i, false);
        ScanRay(piece, kernels[i]);
      }
      assert kernels[..|kernels|] == kernels;
    }

    /**
     * One pass of the scan loop: walks the ray from the piece along `kernel`
     * one square at a time and links the piece to the first occupied square;
     * a square off the board ends the ray.
     */
    method ScanRay(piece: Decorated, kernel: Offset)
      requires Indexed() && IsDecoration(board, piece) && IsKernel(kernel)
      modifies base
      ensures base.supportGraph == AddEdges(old(base.supportGraph), SideEdges(board, piece.1.index, RayTarget(board, piece.1.index, kernel), true))
      ensures base.threatGraph == AddEdges(old(base.threatGraph), SideEdges(board, piece.1.index, RayTarget(board, piece.1.index, kernel), false))
      ensures base.graph == old(base.graph) && base.positions == old(base.positions)
    {
      var squareIndex := piece.1.index;
      var row, col := squareIndex / 8, squareIndex % 8;
      ghost var hit := RayTarget(board, squareIndex, kernel);
      var squareDelta := (0, 0);
      ghost var k := 1;
      ghost var support0, threat0, graph0, positions0 := base.supportGraph, base.threatGraph, base.graph, base.positions;
      // `_scan_rolling`'s `hit` flag is never set: every exit is a break.
      while true
        invariant 1 <= k <= 8
        invariant squareDelta.0 == Scale(kernel.0, k - 1) && squareDelta.1 == Scale(kernel.1, k - 1)
        invariant RayFrom(board, row, col, kernel, k) == hit
        invariant base.supportGraph == support0 && base.threatGraph == threat0
        invariant base.graph == graph0 && base.positions == positions0
        decreases 8 - k
      {
        RayLoopStep(board, row, col, kernel, k, squareDelta);
        var otherIndex := RowColToSquareIndex(row + squareDelta.0 + kernel.0, col + squareDelta.1 + kernel.1);
        if otherIndex.Err? {
          // ValueError: the ray has left the board
          break;
        }
        var other := DecoratedPieceAtSquare(board, otherIndex.value);
        if other.None? {
          squareDelta := (squareDelta.0 + kernel.0, squareDelta.1 + kernel.1);
          k := k + 1;
          continue;
        }
        assert hit == Some(otherIndex.value);
        LinkHit(board, piece, otherIndex.value, true);
        LinkHit(board, piece, otherIndex.value, false);
        SquareDecoration(board, otherIndex.value);
        LinkPieces(Some(piece), other);
        break;
      }
    }

    method King(piece: Decorated)
      requires Indexed() && IsDecoration(board, piece)
      modifies base
      ensures base.supportGraph == AddEdges(old(base.supportGraph), HandlerEdges(board, piece.1.index, Kind.King, true))
      ensures base.threatGraph == AddEdges(old(base.threatGraph), HandlerEdges(board, piece.1.index, Kind.King, false))
      ensures base.graph == old(base.graph) && base.positions == old(base.positions)
    {
      var squareIndex := piece.1.index;
      var occupant := board[squareIndex];
      HandlerDispatch(occupant, Kind.King);
      if LowerSymbol(occupant) != "k" {
        HandlerSkips(board, squareIndex, Kind.King, true);
        HandlerSkips(board, squareIndex, Kind.King, false);
        return;
      }
      var squareDeltas := [(1, 1), (0, 1), (-1, 1), (-1, 0), (1, 0), (-1, -1), (0, -1), (1, -1)];
      HandlerScans(board, squareIndex, Kind.King, squareDeltas, true);
      HandlerScans(board, squareIndex, Kind.King, squareDeltas, false);
      ScanDeltas(piece, squareDeltas);
    }

    method Knight(piece: Decorated)
      requires Indexed() && IsDecoration(board, piece)
      modifies base
      ensures base.supportGraph == AddEdges(old(base.supportGraph), HandlerEdges(board, piece.1.index, Kind.Knight, true))
      ensures base.threatGraph == AddEdges(old(base.threatGraph), HandlerEdges(board, piece.1.index, Kind.Knight, false))
      ensures base.graph == old(base.graph) && base.positions == old(base.positions)
    {
      var squareIndex := piece.1.index;
      var occupant := board[squareIndex];
      HandlerDispatch(occupant, Kind.Knight);
      if LowerSymbol(occupant) != "n" {
        HandlerSkips(board, squareIndex, Kind.Knight, true);
        HandlerSkips(board, squareIndex, Kind.Knight, false);
        return;
      }
      var squareDeltas := [(2, 1), (1, 2), (-1, 2), (-2, 1), (-2, -1), (-1, -2), (1, -2), (2, -1)];
      HandlerScans(board, squareIndex, Kind.Knight, squareDeltas, true);
      HandlerScans(board, squareIndex, Kind.Knight, squareDeltas, false);
      ScanDeltas(piece, squareDeltas);
    }

    method Pawn(piece: Decorated)
      requires Indexed() && IsDecoration(board, piece)
      modifies base
      ensures base.supportGraph == AddEdges(old(base.supportGraph), HandlerEdges(board, piece.1.index, Kind.Pawn, true))
      ensures base.threatGraph == AddEdges(old(base.threatGraph), HandlerEdges(board, piece.1.index, Kind.Pawn, false))
      ensures base.graph == old(base.graph) && base.positions == old(base.positions)
    {
      var squareIndex := piece.1.index;
      var occupant := board[squareIndex];
      HandlerDispatch(occupant, Kind.Pawn);
      if LowerSymbol(occupant) != "p" {
        HandlerSkips(board, squareIndex, Kind.Pawn, true);
        HandlerSkips(board, squareIndex, Kind.Pawn, false);
        return;
      }
      var sign := if occupant.value.white then 1 else -1;
      var squareDeltas := [(sign, 1), (sign, -1)];
      HandlerScans(board, squareIndex, Kind.Pawn, squareDeltas, true);
      HandlerScans(board, squareIndex, Kind.Pawn, squareDeltas, false);
      ScanDeltas(piece, squareDeltas);
    }

    /** Tries each offset in `squareDeltas`, in order. */
    method ScanDeltas(piece: Decorated, squareDeltas: seq<Offset>)
      requires Indexed() && IsDecoration(board, piece)
      modifies base
      ensures base.supportGraph == AddEdges(old(base.supportGraph), DirEdges(board, piece.1.index, false, squareDeltas, true))
      ensures base.threatGraph == AddEdges(old(base.threatGraph), DirEdges(board, piece.1.index, false, squareDeltas, false))
      ensures base.graph == old(base.graph) && base.positions == old(base.positions)
    {
      var squareIndex := piece.1.index;
      ghost var support0, threat0 := base.supportGraph, base.threatGraph;
      for i := 0 to |squareDeltas|
        invariant base.supportGraph == AddEdges(support0, DirEdges(board, squareIndex, false, squareDeltas[..i], true))
        invariant base.threatGraph == AddEdges(threat0, DirEdges(board, squareIndex, false, squareDeltas[..i], false))
        invariant base.graph == old(base.graph) && base.positions == old(base.positions)
      {
        AddDirEdgesStep(support0, board, squareIndex, false, squareDeltas, i, true);
        AddDirEdgesStep(threat0, board, squareIndex, false, squareDeltas, i, false);
        ScanDelta(piece, squareDeltas[i]);
      }
      assert squareDeltas[..|squareDeltas|] == squareDeltas;
    }

    /**
     * One pass of the offset loop: links the piece to whatever stands at
     * `squareDelta` from it; an offset off the board is skipped.
     */
    method ScanDelta(piece: Decorated, squareDelta: Offset)
      requires Indexed() && IsDecoration(board, piece)
      modifies base
      ensures base.supportGraph == AddEdges(old(base.supportGraph), SideEdges(board, piece.1.index, StepTarget(board, piece.1.index, squareDelta), true))
      ensures base.threatGraph == AddEdges(old(base.threatGraph), SideEdges(board, piece.1.index, StepTarget(board, piece.1.index, squareDelta), false))
      ensures base.graph == old(base.graph) && base.positions == old(base.positions)
    {
      var squareIndex := piece.1.index;
      var row, col := squareIndex / 8, squareIndex % 8;
      var otherRow := row + squareDelta.0;
      var otherCol := col + squareDelta.1;
      DeltaStep(board, piece, squareDelta);
      var otherIndex := RowColToSquareIndex(otherRow, otherCol);
      if otherIndex.Ok? {
        var other := DecoratedPieceAtSquare(board, otherIndex.value);
        if other.Some? {
          SquareDecoration(board, otherIndex.value);
        }
        LinkPieces(Some(piece), other);
      }
      // else ValueError: the offset leaves the board and is skipped
    }

    /**
     * Adds the edge origin->other to the support graph when the two colours
     * agree and to the threat graph when they differ; nothing when either
     * piece is missing.
     */
    method LinkPieces(origin: Option<Decorated>, other: Option<Decorated>)
      requires Indexed()
      requires origin.Some? ==> IsDecoration(board, origin.value)
      requires other.Some? ==> IsDecoration(board, other.value)
      modifies base
      ensures base.supportGraph == AddEdges(old(base.supportGraph), LinkEdges(board, origin, other, true))
      ensures base.threatGraph == AddEdges(old(base.threatGraph), LinkEdges(board, origin, other, false))
      ensures base.graph == old(base.graph) && base.positions == old(base.positions)
    {
      if origin.None? || other.None? {
        return;
      }
      var node := GetNodeAtSquare(origin.value.1.square);
      var otherNode := GetNodeAtSquare(other.value.1.square);
      // networkx rejects a None node with a ValueError, which every caller swallows
      if node.Some? && otherNode.Some? {
        if other.value.1.white == origin.value.1.white {
          base.supportGraph := AddEdge(base.supportGraph, node.value, otherNode.value);
        } else {
          base.threatGraph := AddEdge(base.threatGraph, node.value, otherNode.value);
        }
      }
    }

    /** The name whose index is `square`, found by a scan of the index table. */
    method GetNodeAtSquare(square: int) returns (node: Option<NodeName>)
      requires nodesIndexes.Some?
      ensures node.Some? ==> node.value in nodesIndexes.value && nodesIndexes.value[node.value] == square
      ensures node.None? ==> forall n :: n in nodesIndexes.value ==> nodesIndexes.value[n] != square
    {
      var table := nodesIndexes.value;
      var unseen := table.Keys;
      while unseen != {}
        invariant unseen <= table.Keys
        invariant forall n :: n in table && n !in unseen ==> table[n] != square
        decreases unseen
      {
        var n :| n in unseen;
        if table[n] == square {
          return Some(n);
        }
        unseen := unseen - {n};
      }
      return None;
    }
  }
}
