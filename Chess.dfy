/**
 * The interface of the chess rules engine (python-chess) that the analysis uses.
 * A position is the placement of pieces on the 64 squares; squares are numbered
 * as python-chess numbers them, a1 = 0, b1 = 1, ..., h1 = 7, a2 = 8, ..., h8 = 63.
 * How attackers are found and how a move changes the placement are left abstract:
 * they are the function values `AttackOracle` and `PushOracle`.
 */
module Chess {
  import opened Wrappers

  datatype Color = White | Black

  datatype PieceType = Pawn | Knight | Bishop | Rook | Queen | King

  datatype Piece = Piece(color: Color, pieceType: PieceType)

  type Square = s: int | 0 <= s < 64

  /** Piece placement of a board. */
  type Position = map<Square, Piece>

  /** A move as python-chess describes it: from-square, to-square, optional promotion. */
  datatype Move = Move(fromSquare: Square, toSquare: Square, promotion: Option<PieceType>)

  /** `board.attackers(color, square)`: the set of squares holding pieces of `color` that attack `square`. */
  type AttackOracle = (Position, Color, Square) -> set<Square>

  /** `board.push(move)`, seen through the piece placement it produces. */
  type PushOracle = (Position, Move) -> Position

  /** What the analysis needs of the attacker query: every attacker is an occupied square of that colour. */
  ghost predicate SoundOracle(attacks: AttackOracle)
  {
    forall p: Position, c: Color, sq: Square, x: Square :: x in attacks(p, c, sq) ==> x in p && p[x].color == c
  }

  /** `board.piece_type_at(square)`. */
  function PieceTypeAt(p: Position, sq: Square): (t: Option<PieceType>)
    ensures t.Some? <==> sq in p
    ensures t.Some? ==> t.value == p[sq].pieceType
  {
    if sq in p then Some(p[sq].pieceType) else None
  }

  /** The squares holding pieces of colour `c`. */
  function ColorSquares(p: Position, c: Color): (s: set<Square>)
    ensures forall x :: x in s <==> x in p && p[x].color == c
  {
    set x | x in p && p[x].color == c
  }

  /** A position in which colour `c` has no more than one king (every position reached by legal play). */
  ghost predicate AtMostOneKing(p: Position, c: Color)
  {
    forall x, y :: x in p && y in p && p[x] == Piece(c, King) && p[y] == Piece(c, King) ==> x == y
  }

  /** The piece on the first rank of file `file` (0 = a, ..., 7 = h) in the starting position. */
  function BackRankPiece(file: int): PieceType
  {
    if file == 0 || file == 7 then Rook
    else if file == 1 || file == 6 then Knight
    else if file == 2 || file == 5 then Bishop
    else if file == 3 then Queen
    else King
  }

  /** The placement of `Board()`: the standard starting position. */
  function StartingPosition(): Position
  {
    map sq: Square | 0 <= sq < 16 || 48 <= sq < 64 ::
      Piece(if sq < 16 then White else Black, if 8 <= sq < 56 then Pawn else BackRankPiece(sq % 8))
  }

  /** A mutable board: the working board of a replay and the scratch copies of the analysis. */
  class Board {
    var pieces: Position

    /** `Board()`. */
    constructor Initial()
      ensures pieces == StartingPosition()
    {
      pieces := StartingPosition();
    }

    /** `board.copy()` of a board whose placement is `p`. */
    constructor Copy(p: Position)
      ensures pieces == p
    {
      pieces := p;
    }

    /** `board.remove_piece_at(square)`: empties the square and nothing else. */
    method RemovePieceAt(sq: Square)
      modifies this
      ensures sq !in pieces
      ensures forall x :: x != sq ==> (x in pieces <==> x in old(pieces))
      ensures forall x :: x in pieces ==> pieces[x] == old(pieces)[x]
      ensures pieces == old(pieces) - {sq}
    {
      pieces := pieces - {sq};
    }

    /** `board.push(move)`. */
    method Push(m: Move, push: PushOracle)
      modifies this
      ensures pieces == push(old(pieces), m)
    {
      pieces := push(pieces, m);
    }
  }
}
