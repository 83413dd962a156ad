/**
 * What each piece reaches on a board snapshot, and the support and threat
 * edges the scan emits for it: stepping pieces (pawn, knight, king) try a
 * fixed list of offsets, sliding pieces (rook, bishop, queen) walk each ray
 * up to the first occupied square.
 */
module Reach {
  import opened Wrappers
  import opened MultiDiGraph
  import opened ChessBoard

  /** A (row, column) displacement. */
  type Offset = (int, int)

  /** Pawn capture squares: one row forward (up for white, down for black), one column aside. */
  function PawnDeltas(white: bool): seq<Offset>
  {
    var sign := if white then 1 else -1;
    [(sign, 1), (sign, -1)]
  }

  const KnightDeltas: seq<Offset> := [(2, 1), (1, 2), (-1, 2), (-2, 1), (-2, -1), (-1, -2), (1, -2), (2, -1)]

  const KingDeltas: seq<Offset> := [(1, 1), (0, 1), (-1, 1), (-1, 0), (1, 0), (-1, -1), (0, -1), (1, -1)]

  const RookKernels: seq<Offset> := [(1, 0), (0, 1), (-1, 0), (0, -1)]

  const BishopKernels: seq<Offset> := [(1, 1), (-1, 1), (-1, -1), (1, -1)]

  const QueenKernels: seq<Offset> := [(1, 1), (0, 1), (-1, 1), (-1, 0), (1, 0), (-1, -1), (0, -1), (1, -1)]

  /** A ray direction: one step in each coordinate at most, and not standing still. */
  predicate IsKernel(d: Offset)
  {
    -1 <= d.0 <= 1 && -1 <= d.1 <= 1 && d != (0, 0)
  }

  /** The queen looks along exactly the rook's and the bishop's directions. */
  lemma QueenKernelsAreRookAndBishop()
    ensures forall d :: d in QueenKernels <==> d in RookKernels || d in BishopKernels
    ensures forall i :: 0 <= i < |QueenKernels| ==> IsKernel(QueenKernels[i])
  {
  }

  /**
   * The stepping scan for one offset: the square `origin` + `d`, when that is
   * on the board and occupied. An offset off the board gives nothing.
   */
  function StepTarget(board: Position, origin: int, d: Offset): (t: Option<int>)
    requires 0 <= origin < 64
    ensures t.Some? <==>
              var row, col := origin / 8 + d.0, origin % 8 + d.1;
              0 <= row < 8 && 0 <= col < 8 && board[row * 8 + col].Some?
    ensures t.Some? ==> 0 <= t.value < 64 && t.value / 8 == origin / 8 + d.0 && t.value % 8 == origin % 8 + d.1
  {
    match RowColToSquareIndex(origin / 8 + d.0, origin % 8 + d.1)
    case Err(_) => None
    case Ok(t) => if board[t].Some? then Some(t) else None
  }

  /** `k` steps of size `x` in {-1, 0, 1}. */
  function Scale(x: int, k: int): int
    requires -1 <= x <= 1
  {
    if x == 1 then k else if x == -1 then -k else 0
  }

  /** The square `k` steps from (row, col) along `d`, or the range error. */
  function RaySquare(row: int, col: int, d: Offset, k: int): Result<int, SquareError>
    requires IsKernel(d)
  {
    RowColToSquareIndex(row + Scale(d.0, k), col + Scale(d.1, k))
  }

  /** The squares `k` up to `j` (exclusive) along the ray are on the board and empty. */
  ghost predicate ClearBetween(board: Position, row: int, col: int, d: Offset, k: int, j: int)
    requires IsKernel(d)
  {
    forall i :: k <= i < j ==> RaySquare(row, col, d, i).Ok? && board[RaySquare(row, col, d, i).value].None?
  }

  /**
   * The sliding scan from step `k` on: the first occupied square along the
   * ray, friend or foe, or nothing when the ray leaves the board first.
   * The walk ends within 8 steps of (row, col).
   */
  function RayFrom(board: Position, row: int, col: int, d: Offset, k: int): (t: Option<int>)
    requires 0 <= row < 8 && 0 <= col < 8 && IsKernel(d) && 1 <= k <= 8
    ensures t.Some? ==> 0 <= t.value < 64 && board[t.value].Some?
    decreases 8 - k
  {
    match RaySquare(row, col, d, k)
    case Err(_) => None
    case Ok(s) =>
      if board[s].Some? then Some(s)
      else RayFrom(board, row, col, d, k + 1)
  }

  /** The sliding scan of one ray from `origin`: its first blocker, if any. */
  function RayTarget(board: Position, origin: int, d: Offset): (t: Option<int>)
    requires 0 <= origin < 64 && IsKernel(d)
  {
    RayFrom(board, origin / 8, origin % 8, d, 1)
  }

  /** Rook, bishop and queen slide; pawn, knight and king step. */
  predicate Slides(k: Kind)
  {
    k == Rook || k == Bishop || k == Queen
  }

  /** The offsets (stepping) or ray directions (sliding) the handler of a piece passes to its scan. */
  function Directions(p: Piece): (ds: seq<Offset>)
    ensures Slides(p.kind) ==> forall i :: 0 <= i < |ds| ==> IsKernel(ds[i])
  {
    match p.kind
    case Pawn => PawnDeltas(p.white)
    case Knight => KnightDeltas
    case Bishop => BishopKernels
    case Rook => RookKernels
    case Queen => QueenKernels
    case King => KingDeltas
  }

  /**
   * What the scan finds for one offset or direction. Every direction a
   * sliding handler passes is a kernel; anything else finds nothing.
   */
  function Hit(board: Position, origin: int, slides: bool, d: Offset): (t: Option<int>)
    requires 0 <= origin < 64
    ensures t.Some? ==> 0 <= t.value < 64 && board[t.value].Some?
  {
    if !slides then StepTarget(board, origin, d)
    else if IsKernel(d) then RayTarget(board, origin, d)
    else None
  }

  /**
   * The edge linking `origin` to a hit adds to one side: to the support side
   * when the two colours agree, to the threat side when they differ.
   */
  function SideEdges(board: Position, origin: int, t: Option<int>, support: bool): seq<Edge>
    requires 0 <= origin < 64 && (t.Some? ==> 0 <= t.value < 64)
  {
    if t.Some? && board[origin].Some? && board[t.value].Some?
       && (board[origin].value.white == board[t.value].value.white) == support
    then [Edge(NameAt(board, origin), NameAt(board, t.value))]
    else []
  }

  /** The edges one scan over the offsets or directions `ds` adds to one side. */
  function DirEdges(board: Position, origin: int, slides: bool, ds: seq<Offset>, support: bool): seq<Edge>
    requires 0 <= origin < 64
    decreases |ds|
  {
    if ds == [] then []
    else
      DirEdges(board, origin, slides, ds[..|ds| - 1], support)
      + SideEdges(board, origin, Hit(board, origin, slides, ds[|ds| - 1]), support)
  }

  /** The edges the six handlers together add to one side for the piece on `origin`. */
  function PieceEdges(board: Position, origin: int, support: bool): seq<Edge>
    requires 0 <= origin < 64
  {
    match board[origin]
    case None => []
    case Some(p) => DirEdges(board, origin, Slides(p.kind), Directions(p), support)
  }

  /** The edges added to one side for the pieces of a list, in order. */
  function PiecesEdges(board: Position, ps: seq<Decorated>, support: bool): seq<Edge>
    decreases |ps|
  {
    if ps == [] then []
    else
      var o := ps[|ps| - 1].1.index;
      PiecesEdges(board, ps[..|ps| - 1], support) + (if 0 <= o < 64 then PieceEdges(board, o, support) else [])
  }

  /** The edges added to one side for the squares below `k`, in order. */
  function EdgesUpTo(board: Position, k: int, support: bool): seq<Edge>
    requires 0 <= k <= 64
    decreases k
  {
    if k == 0 then [] else EdgesUpTo(board, k - 1, support) + PieceEdges(board, k - 1, support)
  }

  /** Every edge of the support graph after the analysis of `board`. */
  function SupportEdges(board: Position): seq<Edge>
  {
    EdgesUpTo(board, |board|, true)
  }

  /** Every edge of the threat graph after the analysis of `board`. */
  function ThreatEdges(board: Position): seq<Edge>
  {
    EdgesUpTo(board, |board|, false)
  }
}
