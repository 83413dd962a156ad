/**
 * What the support and threat edges of an analysed board mean: which pieces
 * each piece reaches, that every edge joins two pieces on the board, and that
 * no directed pair is both a support and a threat.
 */
module ScanProperties {
  import opened Wrappers
  import opened MultiDiGraph
  import opened ChessBoard
  import opened Reach

  /** The piece on `origin` finds `target` along one of its offsets or directions. */
  ghost predicate Reaches(board: Position, origin: int, target: int)
    requires 0 <= origin < 64
  {
    && board[origin].Some?
    && var p := board[origin].value;
       exists i :: 0 <= i < |Directions(p)| && Hit(board, origin, Slides(p.kind), Directions(p)[i]) == Some(target)
  }

  /**
   * `origin` and `target` are pieces, the first reaches the second, and
   * their colours agree (`support`) or differ (not `support`).
   */
  ghost predicate Related(board: Position, origin: int, target: int, support: bool)
  {
    && 0 <= origin < 64 && 0 <= target < 64
    && board[origin].Some? && board[target].Some?
    && (board[origin].value.white == board[target].value.white) == support
    && Reaches(board, origin, target)
  }

  lemma {:induction false} InDirEdges(board: Position, origin: int, slides: bool, ds: seq<Offset>, support: bool, e: Edge)
    requires 0 <= origin < 64
    ensures e in DirEdges(board, origin, slides, ds, support) <==>
              exists i :: 0 <= i < |ds| && e in SideEdges(board, origin, Hit(board, origin, slides, ds[i]), support)
    decreases |ds|
  {
    if ds != [] {
      var prefix := ds[..|ds| - 1];
      InDirEdges(board, origin, slides, prefix, support, e);
      assert forall i :: 0 <= i < |prefix| ==> prefix[i] == ds[i];
    }
  }

  lemma EdgesUpToStep(board: Position, k: int, support: bool)
    requires 0 < k <= 64
    ensures EdgesUpTo(board, k, support) == EdgesUpTo(board, k - 1, support) + PieceEdges(board, k - 1, support)
  {
  }

  lemma {:induction false} InEdgesUpTo(board: Position, k: int, support: bool, e: Edge)
    requires 0 <= k <= 64
    ensures e in EdgesUpTo(board, k, support) <==> exists s :: 0 <= s < k && e in PieceEdges(board, s, support)
    decreases k
  {
    if k > 0 {
      var prefix, last := EdgesUpTo(board, k - 1, support), PieceEdges(board, k - 1, support);
      EdgesUpToStep(board, k, support);
      InEdgesUpTo(board, k - 1, support, e);
      if e in EdgesUpTo(board, k, support) {
        if e !in prefix {
          assert e in last;
        }
      }
      if exists s :: 0 <= s < k && e in PieceEdges(board, s, support) {
        var s :| 0 <= s < k && e in PieceEdges(board, s, support);
        if s < k - 1 {
          assert e in prefix;
        } else {
          assert e in last;
        }
      }
    }
  }

  /**
   * An edge is on one side of the analysed board exactly when it runs from a
   * piece to a piece it reaches, with colours that agree (support) or differ
   * (threat); edges never run the other way.
   */
  lemma EdgesMeaning(board: Position, support: bool, e: Edge)
    ensures e in EdgesUpTo(board, |board|, support) <==>
              exists o, t :: Related(board, o, t, support) && e == Edge(NameAt(board, o), NameAt(board, t))
  {
    InEdgesUpTo(board, 64, support, e);
    if e in EdgesUpTo(board, 64, support) {
      var o :| 0 <= o < 64 && e in PieceEdges(board, o, support);
      EdgeFromPiece(board, o, support, e);
    }
    if exists o, t :: Related(board, o, t, support) && e == Edge(NameAt(board, o), NameAt(board, t)) {
      var o, t :| Related(board, o, t, support) && e == Edge(NameAt(board, o), NameAt(board, t));
      EdgeToPiece(board, o, t, support);
    }
  }

  lemma EdgeFromPiece(board: Position, o: int, support: bool, e: Edge)
    requires 0 <= o < 64 && e in PieceEdges(board, o, support)
    ensures exists t :: Related(board, o, t, support) && e == Edge(NameAt(board, o), NameAt(board, t))
  {
    var p := board[o].value;
    var ds, slides := Directions(p), Slides(p.kind);
    assert PieceEdges(board, o, support) == DirEdges(board, o, slides, ds, support);
    InDirEdges(board, o, slides, ds, support, e);
    var i :| 0 <= i < |ds| && e in SideEdges(board, o, Hit(board, o, slides, ds[i]), support);
    var hit := Hit(board, o, slides, ds[i]);
    InSideEdges(board, o, hit, support, e);
    assert Reaches(board, o, hit.value);
  }

  /** An edge of one scan result joins the origin to a hit of the right colour. */
  lemma InSideEdges(board: Position, o: int, t: Option<int>, support: bool, e: Edge)
    requires 0 <= o < 64 && (t.Some? ==> 0 <= t.value < 64) && e in SideEdges(board, o, t, support)
    ensures t.Some? && board[o].Some? && board[t.value].Some?
    ensures (board[o].value.white == board[t.value].value.white) == support
    ensures e == Edge(NameAt(board, o), NameAt(board, t.value))
  {
  }

  lemma EdgeToPiece(board: Position, o: int, t: int, support: bool)
    requires Related(board, o, t, support)
    ensures Edge(NameAt(board, o), NameAt(board, t)) in PieceEdges(board, o, support)
  {
    var e := Edge(NameAt(board, o), NameAt(board, t));
    var p := board[o].value;
    var ds := Directions(p);
    var i :| 0 <= i < |ds| && Hit(board, o, Slides(p.kind), ds[i]) == Some(t);
    assert e in SideEdges(board, o, Hit(board, o, Slides(p.kind), ds[i]), support);
    InDirEdges(board, o, Slides(p.kind), ds, support, e);
    assert PieceEdges(board, o, support) == DirEdges(board, o, Slides(p.kind), ds, support);
  }

  /** The support edges and the threat edges of an analysed board never share a directed pair. */
  lemma SupportThreatDisjoint(board: Position, e: Edge)
    ensures !(e in SupportEdges(board) && e in ThreatEdges(board))
  {
    EdgesMeaning(board, true, e);
    EdgesMeaning(board, false, e);
    if e in SupportEdges(board) && e in ThreatEdges(board) {
      var o, t :| Related(board, o, t, true) && e == Edge(NameAt(board, o), NameAt(board, t));
      var o', t' :| Related(board, o', t', false) && e == Edge(NameAt(board, o'), NameAt(board, t'));
      NameInjective(board[o].value, o, board[o'].value, o');
      NameInjective(board[t].value, t, board[t'].value, t');
    }
  }

  /** Every edge of the analysed board joins two of its pieces. */
  lemma EdgesJoinPieces(board: Position, support: bool)
    ensures Endpoints(EdgesUpTo(board, |board|, support)) <= NodeNames(board)
  {
    var es := EdgesUpTo(board, |board|, support);
    forall n | n in Endpoints(es) ensures n in NodeNames(board) {
      var i :| 0 <= i < |es| && (es[i].src == n || es[i].dst == n);
      EdgesMeaning(board, support, es[i]);
    }
  }

  /** Scanning the generator's pieces adds the same edges as scanning every square. */
  lemma {:induction false} PiecesEdgesUpTo(board: Position, k: int, support: bool)
    requires 0 <= k <= 64
    ensures PiecesEdges(board, PiecesUpTo(board, k), support) == EdgesUpTo(board, k, support)
    decreases k
  {
    if k > 0 {
      PiecesEdgesUpTo(board, k - 1, support);
      var prefix := PiecesUpTo(board, k - 1);
      match DecoratedPieceAtSquare(board, k - 1)
      case None =>
      case Some(d) =>
        assert PiecesUpTo(board, k) == prefix + [d];
        assert (prefix + [d])[..|prefix|] == prefix;
    }
  }

  /**
   * A stepping scan links `target` exactly when it is an occupied square that
   * one of the offsets leads to from `origin`.
   */
  lemma StepReach(board: Position, origin: int, ds: seq<Offset>, target: int)
    requires 0 <= origin < 64 && 0 <= target < 64
    ensures (exists i :: 0 <= i < |ds| && StepTarget(board, origin, ds[i]) == Some(target)) <==>
              board[target].Some? && (target / 8 - origin / 8, target % 8 - origin % 8) in ds
  {
    var d := (target / 8 - origin / 8, target % 8 - origin % 8);
    if board[target].Some? && d in ds {
      var i :| 0 <= i < |ds| && ds[i] == d;
      assert StepTarget(board, origin, ds[i]) == Some(target);
    }
  }

  /** For a stepping piece, `Reaches` is the stepping scan over its offsets. */
  lemma StepSteps(board: Position, origin: int, ds: seq<Offset>, target: int)
    requires 0 <= origin < 64 && board[origin].Some? && !Slides(board[origin].value.kind)
    requires ds == Directions(board[origin].value)
    ensures Reaches(board, origin, target) <==>
              exists i :: 0 <= i < |ds| && StepTarget(board, origin, ds[i]) == Some(target)
  {
    assert forall i :: 0 <= i < |ds| ==> Hit(board, origin, false, ds[i]) == StepTarget(board, origin, ds[i]);
  }

  function Abs(x: int): nat
  {
    if x < 0 then -x else x
  }

  /**
   * A pawn reaches exactly the occupied squares one row ahead (up for white,
   * down for black) and one column to either side.
   */
  lemma PawnReach(board: Position, origin: int, target: int)
    requires 0 <= origin < 64 && 0 <= target < 64
    requires board[origin].Some? && board[origin].value.kind == Pawn
    ensures Reaches(board, origin, target) <==>
              && board[target].Some?
              && target / 8 - origin / 8 == (if board[origin].value.white then 1 else -1)
              && Abs(target % 8 - origin % 8) == 1
  {
    var ds := PawnDeltas(board[origin].value.white);
    StepSteps(board, origin, ds, target);
    StepReach(board, origin, ds, target);
  }

  /** A knight reaches exactly the occupied squares two rows and one column, or one row and two columns, away. */
  lemma KnightReach(board: Position, origin: int, target: int)
    requires 0 <= origin < 64 && 0 <= target < 64
    requires board[origin].Some? && board[origin].value.kind == Knight
    ensures Reaches(board, origin, target) <==>
              var dr, dc := Abs(target / 8 - origin / 8), Abs(target % 8 - origin % 8);
              board[target].Some? && ((dr == 2 && dc == 1) || (dr == 1 && dc == 2))
  {
    StepSteps(board, origin, KnightDeltas, target);
    StepReach(board, origin, KnightDeltas, target);
  }

  /** The king's offsets are exactly the eight one-step directions. */
  lemma KingDeltasAreKernels(d: Offset)
    ensures d in KingDeltas <==> IsKernel(d)
  {
  }

  /** Two squares with the same row and the same column are the same square. */
  lemma SameRowCol(a: int, b: int)
    requires 0 <= a < 64 && 0 <= b < 64
    ensures (a / 8 == b / 8 && a % 8 == b % 8) <==> a == b
  {
    assert a == a / 8 * 8 + a % 8 && b == b / 8 * 8 + b % 8;
  }

  /** A king reaches exactly the occupied squares next to it, diagonals included. */
  lemma KingReach(board: Position, origin: int, target: int)
    requires 0 <= origin < 64 && 0 <= target < 64
    requires board[origin].Some? && board[origin].value.kind == King
    ensures Reaches(board, origin, target) <==>
              var dr, dc := Abs(target / 8 - origin / 8), Abs(target % 8 - origin % 8);
              board[target].Some? && dr <= 1 && dc <= 1 && target != origin
  {
    StepSteps(board, origin, KingDeltas, target);
    StepReach(board, origin, KingDeltas, target);
    KingDeltasAreKernels((target / 8 - origin / 8, target % 8 - origin % 8));
    SameRowCol(target, origin);
  }

  /** An empty square at step `k` in front of a clear stretch from `k + 1` extends it to start at `k`. */
  lemma ClearExtend(board: Position, row: int, col: int, d: Offset, k: int, j: int)
    requires IsKernel(d) && k < j
    requires RaySquare(row, col, d, k).Ok? && board[RaySquare(row, col, d, k).value].None?
    requires ClearBetween(board, row, col, d, k + 1, j)
    ensures ClearBetween(board, row, col, d, k, j)
  {
    forall i | k <= i < j
      ensures RaySquare(row, col, d, i).Ok? && board[RaySquare(row, col, d, i).value].None?
    {
      if i > k {
        assert k + 1 <= i < j;
      }
    }
  }

  /**
   * What the sliding scan finds from step `k` on: a piece at some step `j`
   * with every square before it on the board and empty, or nothing when
   * the ray leaves the board at some step `j` after clear squares.
   */
  lemma {:induction false} RayFromSound(board: Position, row: int, col: int, d: Offset, k: int)
    requires 0 <= row < 8 && 0 <= col < 8 && IsKernel(d) && 1 <= k <= 8
    ensures var t := RayFrom(board, row, col, d, k);
            t.Some? ==>
              exists j :: k <= j < 8 && RaySquare(row, col, d, j) == Ok(t.value) && board[t.value].Some?
                          && ClearBetween(board, row, col, d, k, j)
    ensures RayFrom(board, row, col, d, k).None? ==>
              exists j :: k <= j <= 8 && RaySquare(row, col, d, j).Err? && ClearBetween(board, row, col, d, k, j)
    decreases 8 - k
  {
    match RaySquare(row, col, d, k)
    case Err(_) =>
      assert ClearBetween(board, row, col, d, k, k);
    case Ok(s) =>
      if board[s].Some? {
        assert ClearBetween(board, row, col, d, k, k);
      } else {
        RayFromSound(board, row, col, d, k + 1);
        var t := RayFrom(board, row, col, d, k + 1);
        if t.Some? {
          var j :| k + 1 <= j < 8 && RaySquare(row, col, d, j) == Ok(t.value) && board[t.value].Some?
                   && ClearBetween(board, row, col, d, k + 1, j);
          ClearExtend(board, row, col, d, k, j);
        } else {
          var j :| k + 1 <= j <= 8 && RaySquare(row, col, d, j).Err? && ClearBetween(board, row, col, d, k + 1, j);
          ClearExtend(board, row, col, d, k, j);
        }
      }
  }

  /** A ray whose squares from `k` to `j` are clear, and which then meets a piece, finds that piece. */
  lemma {:induction false} RayFindsFirstBlocker(board: Position, row: int, col: int, d: Offset, k: int, j: int)
    requires 0 <= row < 8 && 0 <= col < 8 && IsKernel(d) && 1 <= k <= j
    requires RaySquare(row, col, d, j).Ok? && board[RaySquare(row, col, d, j).value].Some?
    requires ClearBetween(board, row, col, d, k, j)
    ensures k <= 8 && RayFrom(board, row, col, d, k) == Some(RaySquare(row, col, d, j).value)
    decreases j - k
  {
    if k < j {
      assert RaySquare(row, col, d, k).Ok? && board[RaySquare(row, col, d, k).value].None?;
      assert ClearBetween(board, row, col, d, k + 1, j);
      RayFindsFirstBlocker(board, row, col, d, k + 1, j);
    } else {
      RaySquareNear(row, col, d, j);
    }
  }

  /** A square of the ray still on the board is at most seven steps away. */
  lemma RaySquareNear(row: int, col: int, d: Offset, j: int)
    requires 0 <= row < 8 && 0 <= col < 8 && IsKernel(d) && 1 <= j && RaySquare(row, col, d, j).Ok?
    ensures j <= 7
  {
  }

  /**
   * A sliding piece reaches exactly the first occupied square along each of
   * its directions: a square at distance j on the ray, with every square
   * before it on the board and empty. Nothing beyond it, and nothing on a
   * ray that leaves the board first.
   */
  lemma SlideReach(board: Position, origin: int, target: int)
    requires 0 <= origin < 64 && 0 <= target < 64
    requires board[origin].Some? && Slides(board[origin].value.kind)
    ensures Reaches(board, origin, target) <==>
              var ds := Directions(board[origin].value);
              exists i, j :: 0 <= i < |ds| && 1 <= j && RaySquare(origin / 8, origin % 8, ds[i], j) == Ok(target)
                             && board[target].Some? && ClearBetween(board, origin / 8, origin % 8, ds[i], 1, j)
  {
    var ds := Directions(board[origin].value);
    var row, col := origin / 8, origin % 8;
    forall i | 0 <= i < |ds| {
      RayFromSound(board, row, col, ds[i], 1);
    }
    if exists i, j :: 0 <= i < |ds| && 1 <= j && RaySquare(row, col, ds[i], j) == Ok(target)
                      && board[target].Some? && ClearBetween(board, row, col, ds[i], 1, j) {
      var i, j :| 0 <= i < |ds| && 1 <= j && RaySquare(row, col, ds[i], j) == Ok(target)
                  && board[target].Some? && ClearBetween(board, row, col, ds[i], 1, j);
      RayFindsFirstBlocker(board, row, col, ds[i], 1, j);
      assert Hit(board, origin, true, ds[i]) == Some(target);
    }
  }
}
