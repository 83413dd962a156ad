/**
 * The board snapshot the analysis reads, square arithmetic, and the
 * "decorated pieces": one named node record per occupied square.
 */
module ChessBoard {
  import opened Wrappers
  import opened MultiDiGraph

  datatype Kind = Pawn | Knight | Bishop | Rook | Queen | King

  /** What the board reports for an occupied square: a colour and a piece type. */
  datatype Piece = Piece(white: bool, kind: Kind)

  /** A position: square index rank*8 + file (a1 = 0, h1 = 7, a8 = 56) to its occupant. */
  type Position = b: seq<Option<Piece>> | |b| == 64 witness seq(64, i => None)

  /** The exception `_row_col_to_square_index` raises for a coordinate off the board. */
  datatype SquareError = ValueError

  /** A square index from a row (rank) and a column (file), each of which must lie in 0..7. */
  function RowColToSquareIndex(row: int, col: int): (r: Result<int, SquareError>)
    ensures r.Ok? <==> 0 <= row <= 7 && 0 <= col <= 7
    ensures r.Ok? ==> 0 <= r.value < 64 && r.value / 8 == row && r.value % 8 == col
  {
    if row > 7 || row < 0 then Err(ValueError)
    else if col > 7 || col < 0 then Err(ValueError)
    else Ok(row * 8 + col)
  }

  /** Every square index comes from its own row and column. */
  lemma SquareIndexRoundTrip(index: int)
    requires 0 <= index < 64
    ensures RowColToSquareIndex(index / 8, index % 8) == Ok(index)
  {
  }

  /** python-chess's piece-type numbers. */
  function PieceType(k: Kind): int
  {
    match k
    case Pawn => 1
    case Knight => 2
    case Bishop => 3
    case Rook => 4
    case Queen => 5
    case King => 6
  }

  /** The letter a handler looks for. */
  function KindLetter(k: Kind): char
  {
    match k
    case Pawn => 'p'
    case Knight => 'n'
    case Bishop => 'b'
    case Rook => 'r'
    case Queen => 'q'
    case King => 'k'
  }

  /** `str(piece)`: the kind's letter, upper case for white and lower case for black. */
  function Symbol(p: Piece): char
  {
    match p.kind
    case Pawn => if p.white then 'P' else 'p'
    case Knight => if p.white then 'N' else 'n'
    case Bishop => if p.white then 'B' else 'b'
    case Rook => if p.white then 'R' else 'r'
    case Queen => if p.white then 'Q' else 'q'
    case King => if p.white then 'K' else 'k'
  }

  /** Python's `str.lower` on one character of the ASCII range used here. */
  function Lower(c: char): char
  {
    if 'A' <= c <= 'Z' then (c as int + 32) as char else c
  }

  /** `str(board.piece_at(square)).lower()`: `str(None)` is "None". */
  function LowerSymbol(occupant: Option<Piece>): string
  {
    match occupant
    case None => "none"
    case Some(p) => [Lower(Symbol(p))]
  }

  /** A handler's letter test succeeds exactly for a piece of its own kind. */
  lemma HandlerDispatch(occupant: Option<Piece>, k: Kind)
    ensures LowerSymbol(occupant) == [KindLetter(k)] <==> occupant.Some? && occupant.value.kind == k
  {
  }

  /** The symbol determines the piece: its kind and its colour. */
  lemma {:induction false} SymbolInjective(p: Piece, q: Piece)
    requires Symbol(p) == Symbol(q)
    ensures p == q
  {
    match p.kind
    case Pawn => {}
    case Knight => {}
    case Bishop => {}
    case Rook => {}
    case Queen => {}
    case King => {}
  }

  /** `chr(col + 97)`: the file letter 'a'..'h'. */
  function FileChar(col: int): char
    requires 0 <= col < 8
  {
    (col + 97) as char
  }

  /** `str(row + 1)`: the rank digit '1'..'8'. */
  function RankChar(row: int): char
    requires 0 <= row < 8
  {
    (row + 49) as char
  }

  /** A node's name: symbol, '_', file letter, rank digit, e.g. "N_b1" or "q_d8". */
  function PieceName(p: Piece, index: int): string
    requires 0 <= index < 64
  {
    [Symbol(p), '_', FileChar(index % 8), RankChar(index / 8)]
  }

  /** Reads the square back out of a node name. */
  function SquareOfName(name: string): Option<int>
  {
    if |name| == 4 && name[1] == '_' && 'a' <= name[2] <= 'h' && '1' <= name[3] <= '8'
    then Some((name[3] as int - '1' as int) * 8 + (name[2] as int - 'a' as int))
    else None
  }

  /** The name encodes the square. */
  lemma NameRoundTrip(p: Piece, index: int)
    requires 0 <= index < 64
    ensures SquareOfName(PieceName(p, index)) == Some(index)
  {
  }

  /** Two pieces get the same name only when they are the same piece on the same square. */
  lemma {:induction false} NameInjective(p: Piece, i: int, q: Piece, j: int)
    requires 0 <= i < 64 && 0 <= j < 64
    requires PieceName(p, i) == PieceName(q, j)
    ensures p == q && i == j
  {
    assert PieceName(p, i)[0] == PieceName(q, j)[0];
    SymbolInjective(p, q);
    NameRoundTrip(p, i);
    NameRoundTrip(q, j);
  }

  /** The attributes of a node, shrunk to the fields the analysis sets. */
  datatype NodeData = NodeData(index: int, square: int, piece: char, white: bool, pieceType: int, group: char)

  /** A node name with its attributes, the pair `(piece_name, piece_data)`. */
  type Decorated = (NodeName, NodeData)

  /** The name of the piece on an occupied square. */
  function NameAt(board: Position, index: int): NodeName
    requires 0 <= index < 64 && board[index].Some?
  {
    PieceName(board[index].value, index)
  }

  /** The node of the piece on a square; None for an empty square. */
  function DecoratedPieceAtSquare(board: Position, index: int): (r: Option<Decorated>)
    requires 0 <= index < 64
    ensures r.None? <==> board[index].None?
    ensures r.Some? ==> r.value.0 == NameAt(board, index) && SquareOfName(r.value.0) == Some(index)
    ensures r.Some? ==>
              var p, d := board[index].value, r.value.1;
              && d.index == index && d.square == index
              && d.piece == Symbol(p) && d.white == p.white && d.pieceType == PieceType(p.kind)
              && d.group == (if p.white then 'w' else 'b')
  {
    match board[index]
    case None => None
    case Some(p) =>
      // The name is built from the row and column of `index`; the index and
      // square are rebuilt as row * 8 + col, which is `index` again.
      var row, col := index / 8, index % 8;
      var squareIndex := row * 8 + col;
      NameRoundTrip(p, index);
      Some((PieceName(p, index), NodeData(squareIndex, squareIndex, Symbol(p), p.white, PieceType(p.kind), if p.white then 'w' else 'b')))
  }

  /** `d` is what `DecoratedPieceAtSquare` gives for its own index. */
  ghost predicate IsDecoration(board: Position, d: Decorated)
  {
    0 <= d.1.index < 64 && DecoratedPieceAtSquare(board, d.1.index) == Some(d)
  }

  /** The decorated piece of an occupied square is a decoration of its own square. */
  lemma SquareDecoration(board: Position, s: int)
    requires 0 <= s < 64 && board[s].Some?
    ensures IsDecoration(board, DecoratedPieceAtSquare(board, s).value)
  {
  }

  /** The occupied squares below `k`. */
  ghost function OccupiedBelow(board: Position, k: int): set<int>
  {
    set s | 0 <= s < k && s < 64 && board[s].Some?
  }

  /** The indexes of a sequence of decorated pieces. */
  ghost function Indexes(ps: seq<Decorated>): set<int>
  {
    set i | 0 <= i < |ps| :: ps[i].1.index
  }

  /**
   * What the board-piece generator yields for the squares below `k`: row by
   * row and column by column, one decorated piece per occupied square.
   */
  function PiecesUpTo(board: Position, k: int): seq<Decorated>
    requires 0 <= k <= 64
    decreases k
  {
    if k == 0 then []
    else
      var prefix := PiecesUpTo(board, k - 1);
      match DecoratedPieceAtSquare(board, k - 1)
      case None => prefix
      case Some(d) => prefix + [d]
  }

  /** Everything the generator yields below `k` is the decorated piece of its own square, below `k`. */
  lemma {:induction false} PiecesUpToDecorated(board: Position, k: int)
    requires 0 <= k <= 64
    ensures forall i :: 0 <= i < |PiecesUpTo(board, k)| ==>
              IsDecoration(board, PiecesUpTo(board, k)[i]) && PiecesUpTo(board, k)[i].1.index < k
    decreases k
  {
    if k > 0 {
      PiecesUpToDecorated(board, k - 1);
    }
  }

  /**
   * The generator yields the occupied squares below `k`, each once, in
   * increasing order.
   */
  lemma {:induction false} PiecesUpToSquares(board: Position, k: int)
    requires 0 <= k <= 64
    ensures forall i, j :: 0 <= i < j < |PiecesUpTo(board, k)| ==> PiecesUpTo(board, k)[i].1.index < PiecesUpTo(board, k)[j].1.index
    ensures Indexes(PiecesUpTo(board, k)) == OccupiedBelow(board, k)
    decreases k
  {
    if k > 0 {
      PiecesUpToSquares(board, k - 1);
      PiecesUpToDecorated(board, k - 1);
      var prefix := PiecesUpTo(board, k - 1);
      match DecoratedPieceAtSquare(board, k - 1)
      case None =>
        assert OccupiedBelow(board, k) == OccupiedBelow(board, k - 1);
      case Some(d) =>
        var ps := prefix + [d];
        assert forall i :: 0 <= i < |prefix| ==> ps[i] == prefix[i];
        assert ps[|prefix|] == d && d.1.index == k - 1;
        assert Indexes(ps) == Indexes(prefix) + {k - 1};
        assert OccupiedBelow(board, k) == OccupiedBelow(board, k - 1) + {k - 1};
    }
  }

  /** One square of the generator's row and column loops: the square index, and what it adds. */
  lemma GeneratorStep(board: Position, row: int, col: int)
    requires 0 <= row < 8 && 0 <= col < 8
    ensures RowColToSquareIndex(row, col) == Ok(row * 8 + col)
    ensures PiecesUpTo(board, row * 8 + col + 1)
            == if board[row * 8 + col].None? then PiecesUpTo(board, row * 8 + col)
               else PiecesUpTo(board, row * 8 + col) + [DecoratedPieceAtSquare(board, row * 8 + col).value]
  {
  }

  /** Every decorated piece of the board, in row-major order. */
  function DecoratedPieces(board: Position): seq<Decorated>
  {
    PiecesUpTo(board, |board|)
  }

  /** The names of the pieces on the board. */
  ghost function NodeNames(board: Position): set<NodeName>
  {
    set s | 0 <= s < 64 && board[s].Some? :: NameAt(board, s)
  }

  /** The generator never yields two pieces with the same name. */
  lemma DecoratedNamesDistinct(board: Position)
    ensures forall i, j :: 0 <= i < j < |DecoratedPieces(board)| ==>
              DecoratedPieces(board)[i].0 != DecoratedPieces(board)[j].0
  {
    var ps := DecoratedPieces(board);
    PiecesUpToSquares(board, |board|);
    PiecesUpToDecorated(board, |board|);
    forall i, j | 0 <= i < j < |ps| ensures ps[i].0 != ps[j].0 {
      var a, b := ps[i].1.index, ps[j].1.index;
      assert IsDecoration(board, ps[i]) && IsDecoration(board, ps[j]);
      NameRoundTrip(board[a].value, a);
      NameRoundTrip(board[b].value, b);
    }
  }

  /** `get_node_attributes(g, 'index')`. */
  function NodeIndexes(g: Graph<NodeData>): map<NodeName, int>
  {
    map n | n in g.attrs :: g.attrs[n].index
  }

  /** The graph `add_nodes_from` builds from the board's decorated pieces. */
  function PiecesGraph(board: Position): Graph<NodeData>
  {
    AddNodesFrom(Empty(), DecoratedPieces(board))
  }

  /** The names of a sequence of decorated pieces. */
  ghost function Names(ps: seq<Decorated>): set<NodeName>
  {
    set i | 0 <= i < |ps| :: ps[i].0
  }

  /** The generator names exactly the pieces on the board. */
  lemma DecoratedNames(board: Position)
    ensures Names(DecoratedPieces(board)) == NodeNames(board)
  {
    var ps := DecoratedPieces(board);
    PiecesUpToSquares(board, |board|);
    PiecesUpToDecorated(board, |board|);
    forall n | n in Names(ps) ensures n in NodeNames(board) {
      var i :| 0 <= i < |ps| && ps[i].0 == n;
      assert IsDecoration(board, ps[i]);
    }
    forall s | 0 <= s < 64 && board[s].Some? ensures NameAt(board, s) in Names(ps) {
      assert s in OccupiedBelow(board, 64);
      var i :| 0 <= i < |ps| && ps[i].1.index == s;
      assert IsDecoration(board, ps[i]);
    }
  }

  /**
   * The nodes of `PiecesGraph` are exactly the pieces on the board, each
   * carrying the attributes of its own square.
   */
  lemma PiecesGraphNodes(board: Position)
    ensures PiecesGraph(board).nodes == NodeNames(board) && PiecesGraph(board).attrs.Keys == NodeNames(board)
    ensures PiecesGraph(board).edges == []
    ensures forall s :: 0 <= s < 64 && board[s].Some? ==>
              PiecesGraph(board).attrs[NameAt(board, s)] == DecoratedPieceAtSquare(board, s).value.1
  {
    var ps := DecoratedPieces(board);
    var g := PiecesGraph(board);
    DecoratedNames(board);
    assert g.nodes == Names(ps) && g.attrs.Keys == Names(ps);
    forall s | 0 <= s < 64 && board[s].Some?
      ensures g.attrs[NameAt(board, s)] == DecoratedPieceAtSquare(board, s).value.1
    {
      AttrsOfSquare(board, s);
    }
  }

  /** The generator yields the piece on an occupied square `s`, at some position `i`. */
  lemma PieceOfSquare(board: Position, s: int) returns (i: int)
    requires 0 <= s < 64 && board[s].Some?
    ensures 0 <= i < |DecoratedPieces(board)| && DecoratedPieces(board)[i] == DecoratedPieceAtSquare(board, s).value
  {
    var ps := DecoratedPieces(board);
    PiecesUpToSquares(board, |board|);
    PiecesUpToDecorated(board, |board|);
    assert s in OccupiedBelow(board, |board|);
    i :| 0 <= i < |ps| && ps[i].1.index == s;
    assert IsDecoration(board, ps[i]);
  }

  /** The piece on square `s` is a node of `PiecesGraph`, carrying its decoration. */
  lemma AttrsOfSquare(board: Position, s: int)
    requires 0 <= s < 64 && board[s].Some?
    ensures NameAt(board, s) in PiecesGraph(board).attrs
    ensures PiecesGraph(board).attrs[NameAt(board, s)] == DecoratedPieceAtSquare(board, s).value.1
  {
    var ps := DecoratedPieces(board);
    var i := PieceOfSquare(board, s);
    DecoratedNamesDistinct(board);
    assert forall j :: i < j < |ps| ==> ps[j].0 != ps[i].0;
  }

  /** The index table `analyze_first_order_risk` reads after `analyze_risk` added the nodes. */
  function BoardIndexes(board: Position): map<NodeName, int>
  {
    NodeIndexes(PiecesGraph(board))
  }

  /**
   * `table` maps the name of every piece on `board` to its square, and
   * holds nothing else.
   */
  ghost predicate IndexTable(board: Position, table: map<NodeName, int>)
  {
    (forall s {:trigger NameAt(board, s)} :: 0 <= s < 64 && board[s].Some? ==> NameAt(board, s) in table && table[NameAt(board, s)] == s) &&
    (forall n {:trigger table[n]} :: n in table ==> 0 <= table[n] < 64 && board[table[n]].Some? && n == NameAt(board, table[n]))
  }

  lemma BoardIndexesLookup(board: Position)
    ensures IndexTable(board, BoardIndexes(board))
  {
    PiecesGraphNodes(board);
    var m := BoardIndexes(board);
    forall n | n in m ensures 0 <= m[n] < 64 && board[m[n]].Some? && n == NameAt(board, m[n]) {
      var s :| 0 <= s < 64 && board[s].Some? && NameAt(board, s) == n;
      assert m[n] == s;
    }
  }
}
