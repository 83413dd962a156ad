/**
 * How often a directed pair occurs on one side of an analysed board: at
 * most once, so the support and threat graphs never hold parallel edges
 * and every in- or out-degree counts distinct pieces.
 */
module EdgeCounts {
  import opened Wrappers
  import opened MultiDiGraph
  import opened ChessBoard
  import opened Reach
  import opened ScanProperties

  /** No edge occurs twice in `es`. */
  ghost predicate NoRepeats(es: seq<Edge>)
  {
    forall e :: multiset(es)[e] <= 1
  }

  /** No offset or direction occurs twice in `ds`. */
  ghost predicate Distinct(ds: seq<Offset>)
  {
    forall i, j :: 0 <= i < j < |ds| ==> ds[i] != ds[j]
  }

  /** Every handler's table lists each offset or direction once. */
  lemma DirectionsDistinct(p: Piece)
    ensures Distinct(Directions(p))
  {
    match p.kind
    case Pawn =>
    case Knight => KnightDeltasDistinct();
    case Bishop =>
    case Rook =>
    case Queen => EightDirectionsDistinct();
    case King => EightDirectionsDistinct();
  }

  /** The knight's eight offsets are pairwise different. */
  lemma KnightDeltasDistinct()
    ensures Distinct(KnightDeltas)
  {
  }

  /** The queen's directions and the king's offsets are the same eight one-square moves. */
  lemma EightDirectionsDistinct()
    ensures Distinct(QueenKernels) && KingDeltas == QueenKernels
  {
  }

  /** `k` unit steps of size `x` and `j` of size `y` land on the same coordinate only when `x == y`. */
  lemma ScaleDirection(x: int, k: int, y: int, j: int)
    requires -1 <= x <= 1 && -1 <= y <= 1 && 1 <= k && 1 <= j
    requires Scale(x, k) == Scale(y, j)
    ensures x == y
  {
  }

  /** Two offsets or directions that find the same square from `origin` are the same one. */
  lemma HitInjective(board: Position, origin: int, slides: bool, d1: Offset, d2: Offset, t: int)
    requires 0 <= origin < 64
    requires Hit(board, origin, slides, d1) == Some(t) && Hit(board, origin, slides, d2) == Some(t)
    ensures d1 == d2
  {
    if slides {
      var row, col := origin / 8, origin % 8;
      RayFromSound(board, row, col, d1, 1);
      RayFromSound(board, row, col, d2, 1);
      var k :| 1 <= k < 8 && RaySquare(row, col, d1, k) == Ok(t);
      var j :| 1 <= j < 8 && RaySquare(row, col, d2, j) == Ok(t);
      ScaleDirection(d1.0, k, d2.0, j);
      ScaleDirection(d1.1, k, d2.1, j);
    }
  }

  /** Every edge a piece adds starts at that piece. */
  lemma EdgeSource(board: Position, o: int, support: bool, e: Edge)
    requires 0 <= o < 64 && e in PieceEdges(board, o, support)
    ensures board[o].Some? && e.src == NameAt(board, o)
  {
    EdgeFromPiece(board, o, support, e);
  }

  /** A scan over distinct offsets or directions adds each edge at most once. */
  lemma {:induction false} DirEdgesNoRepeats(board: Position, origin: int, slides: bool, ds: seq<Offset>, support: bool)
    requires 0 <= origin < 64 && Distinct(ds)
    ensures NoRepeats(DirEdges(board, origin, slides, ds, support))
    decreases |ds|
  {
    if ds != [] {
      var prefix, d := ds[..|ds| - 1], ds[|ds| - 1];
      assert forall i :: 0 <= i < |prefix| ==> prefix[i] == ds[i];
      DirEdgesNoRepeats(board, origin, slides, prefix, support);
      var a, b := DirEdges(board, origin, slides, prefix, support), SideEdges(board, origin, Hit(board, origin, slides, d), support);
      assert multiset(DirEdges(board, origin, slides, ds, support)) == multiset(a) + multiset(b);
      forall e ensures multiset(a)[e] + multiset(b)[e] <= 1 {
        if e in a && e in b {
          // The earlier direction that added `e` hit the same square, so it is `d` again.
          InDirEdges(board, origin, slides, prefix, support, e);
          var i :| 0 <= i < |prefix| && e in SideEdges(board, origin, Hit(board, origin, slides, prefix[i]), support);
          var ti, t := Hit(board, origin, slides, prefix[i]), Hit(board, origin, slides, d);
          InSideEdges(board, origin, ti, support, e);
          InSideEdges(board, origin, t, support, e);
          NameInjective(board[ti.value].value, ti.value, board[t.value].value, t.value);
          HitInjective(board, origin, slides, ds[i], ds[|ds| - 1], t.value);
        }
      }
    }
  }

  /** One piece's handlers add each edge at most once. */
  lemma PieceEdgesNoRepeats(board: Position, o: int, support: bool)
    requires 0 <= o < 64
    ensures NoRepeats(PieceEdges(board, o, support))
  {
    if board[o].Some? {
      var p := board[o].value;
      DirectionsDistinct(p);
      DirEdgesNoRepeats(board, o, Slides(p.kind), Directions(p), support);
    }
  }

  /** The squares below `k` together add each edge at most once: edges of different squares start at different pieces. */
  lemma {:induction false} EdgesUpToNoRepeats(board: Position, k: int, support: bool)
    requires 0 <= k <= 64
    ensures NoRepeats(EdgesUpTo(board, k, support))
    decreases k
  {
    if k > 0 {
      EdgesUpToNoRepeats(board, k - 1, support);
      PieceEdgesNoRepeats(board, k - 1, support);
      var a, b := EdgesUpTo(board, k - 1, support), PieceEdges(board, k - 1, support);
      EdgesUpToStep(board, k, support);
      assert multiset(EdgesUpTo(board, k, support)) == multiset(a) + multiset(b);
      forall e ensures multiset(a)[e] + multiset(b)[e] <= 1 {
        if e in a && e in b {
          InEdgesUpTo(board, k - 1, support, e);
          var s :| 0 <= s < k - 1 && e in PieceEdges(board, s, support);
          EdgeSource(board, s, support, e);
          EdgeSource(board, k - 1, support, e);
          NameInjective(board[s].value, s, board[k - 1].value, k - 1);
        }
      }
    }
  }

  /**
   * No directed pair occurs twice among the support edges or among the
   * threat edges of an analysed board.
   */
  lemma NoDuplicateEdges(board: Position, e: Edge)
    ensures multiset(SupportEdges(board))[e] <= 1
    ensures multiset(ThreatEdges(board))[e] <= 1
  {
    EdgesUpToNoRepeats(board, 64, true);
    EdgesUpToNoRepeats(board, 64, false);
  }
}
