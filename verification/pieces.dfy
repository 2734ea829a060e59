/**
 * The piece taxonomy of the board: the thirteen-valued `Piece` enumeration,
 * its split into a `PieceType` and a `PieceColor`, the three-character display
 * symbol of each piece, and the table of move patterns kept per piece type.
 */
module Pieces {
  import opened Options

  /** The contents of one board cell: twelve coloured pieces, or no piece at all. */
  datatype Piece =
    | KingWhite | QueenWhite | RookWhite | BishopWhite | KnightWhite | PawnWhite
    | KingBlack | QueenBlack | RookBlack | BishopBlack | KnightBlack | PawnBlack
    | Empty

  datatype PieceType = King | Queen | Rook | Bishop | Knight | Pawn | Empty

  datatype PieceColor = Black | White | Empty

  /** Side to move; unlike `PieceColor` it has no empty value. */
  datatype PlayerColor = Black | White

  /** The kind of a piece. Only the empty cell has the empty kind. */
  function TypeOf(p: Piece): (t: PieceType)
    ensures t == PieceType.Empty <==> p == Piece.Empty
  {
    match p
    case KingWhite | KingBlack => King
    case QueenWhite | QueenBlack => Queen
    case RookWhite | RookBlack => Rook
    case BishopWhite | BishopBlack => Bishop
    case KnightWhite | KnightBlack => Knight
    case PawnWhite | PawnBlack => Pawn
    case Empty => PieceType.Empty
  }

  /** The colour of a piece. Only the empty cell has the empty colour. */
  function ColorOf(p: Piece): (c: PieceColor)
    ensures c == PieceColor.Empty <==> p == Piece.Empty
    ensures c == PieceColor.Empty <==> TypeOf(p) == PieceType.Empty
  {
    match p
    case KingWhite | QueenWhite | RookWhite | BishopWhite | KnightWhite | PawnWhite => PieceColor.White
    case KingBlack | QueenBlack | RookBlack | BishopBlack | KnightBlack | PawnBlack => PieceColor.Black
    case Empty => PieceColor.Empty
  }

  /**
   * The piece with a given kind and colour, the inverse of the pair
   * (`TypeOf`, `ColorOf`). A kind without a colour, or a colour without a
   * kind, names no piece.
   */
  function PieceOf(t: PieceType, c: PieceColor): (r: Option<Piece>)
    ensures r.Some? ==> TypeOf(r.value) == t && ColorOf(r.value) == c
    ensures r.None? <==> ((t == PieceType.Empty) != (c == PieceColor.Empty))
  {
    match (t, c)
    case (King, White) => Some(KingWhite)
    case (Queen, White) => Some(QueenWhite)
    case (Rook, White) => Some(RookWhite)
    case (Bishop, White) => Some(BishopWhite)
    case (Knight, White) => Some(KnightWhite)
    case (Pawn, White) => Some(PawnWhite)
    case (King, Black) => Some(KingBlack)
    case (Queen, Black) => Some(QueenBlack)
    case (Rook, Black) => Some(RookBlack)
    case (Bishop, Black) => Some(BishopBlack)
    case (Knight, Black) => Some(KnightBlack)
    case (Pawn, Black) => Some(PawnBlack)
    case (Empty, Empty) => Some(Piece.Empty)
    case _ => None
  }

  /** Kind and colour together recover the piece. */
  lemma TypeColorRecoverPiece(p: Piece)
    ensures PieceOf(TypeOf(p), ColorOf(p)) == Some(p)
  {
  }

  /** Hence no two pieces share both their kind and their colour. */
  lemma TypeColorInjective(p: Piece, q: Piece)
    requires TypeOf(p) == TypeOf(q) && ColorOf(p) == ColorOf(q)
    ensures p == q
  {
    TypeColorRecoverPiece(p);
    TypeColorRecoverPiece(q);
  }

  /** The letter of a kind as it appears in the middle of a display symbol. */
  function TypeLetter(t: PieceType): char
  {
    match t
    case King => 'K'
    case Queen => 'Q'
    case Rook => 'R'
    case Bishop => 'B'
    case Knight => 'N'
    case Pawn => 'P'
    case Empty => '.'
  }

  /**
   * The three-character symbol of a piece: its kind letter, framed by blanks
   * for white pieces and for the empty cell, and by underscores for black ones.
   */
  function DisplaySymbol(p: Piece): (s: string)
    ensures |s| == 3
    ensures s[1] == TypeLetter(TypeOf(p))
    ensures s[0] == s[2]
    ensures s[0] == '_' <==> ColorOf(p) == PieceColor.Black
    ensures s[0] == ' ' <==> ColorOf(p) != PieceColor.Black
  {
    match p
    case KingWhite => " K "
    case KingBlack => "_K_"
    case QueenWhite => " Q "
    case QueenBlack => "_Q_"
    case RookWhite => " R "
    case RookBlack => "_R_"
    case BishopWhite => " B "
    case BishopBlack => "_B_"
    case KnightWhite => " N "
    case KnightBlack => "_N_"
    case PawnWhite => " P "
    case PawnBlack => "_P_"
    case Empty => " . "
  }

  /** The piece a display symbol stands for, if the text is one of the thirteen symbols. */
  function SymbolPiece(s: string): (r: Option<Piece>)
    ensures r.Some? ==> |s| == 3
  {
    if |s| != 3 || s[0] != s[2] then None
    else if s[0] == ' ' then
      match s[1]
      case 'K' => Some(KingWhite)
      case 'Q' => Some(QueenWhite)
      case 'R' => Some(RookWhite)
      case 'B' => Some(BishopWhite)
      case 'N' => Some(KnightWhite)
      case 'P' => Some(PawnWhite)
      case '.' => Some(Piece.Empty)
      case _ => None
    else if s[0] == '_' then
      match s[1]
      case 'K' => Some(KingBlack)
      case 'Q' => Some(QueenBlack)
      case 'R' => Some(RookBlack)
      case 'B' => Some(BishopBlack)
      case 'N' => Some(KnightBlack)
      case 'P' => Some(PawnBlack)
      case _ => None
    else None
  }

  /** The thirteen symbols are exactly the texts `SymbolPiece` accepts, each for its own piece. */
  lemma SymbolPieceExact(s: string, p: Piece)
    ensures SymbolPiece(s) == Some(p) <==> DisplaySymbol(p) == s
  {
    match p {
      case KingWhite =>
      case KingBlack =>
      case QueenWhite =>
      case QueenBlack =>
      case RookWhite =>
      case RookBlack =>
      case BishopWhite =>
      case BishopBlack =>
      case KnightWhite =>
      case KnightBlack =>
      case PawnWhite =>
      case PawnBlack =>
      case Empty =>
    }
    if SymbolPiece(s) == Some(p) {
      assert |s| == 3;
      assert s == [s[0], s[1], s[2]];
    }
  }

  /** Distinct pieces are displayed differently. */
  lemma DisplaySymbolInjective(p: Piece, q: Piece)
    requires DisplaySymbol(p) == DisplaySymbol(q)
    ensures p == q
  {
    SymbolPieceExact(DisplaySymbol(p), p);
    SymbolPieceExact(DisplaySymbol(q), q);
  }

  /**
   * A Kotlin `IntRange` `first..last`: the integers from `first` up to `last`,
   * none at all when `first > last` (so `-1..-7` is empty).
   */
  datatype IntRange = IntRange(first: int, last: int)
  {
    predicate Contains(x: int) { first <= x <= last }

    function Size(): (n: nat)
      ensures n == 0 <==> (forall x :: !Contains(x))
    {
      if last < first then 0
      else
        assert Contains(first);
        last - first + 1
    }
  }

  /** One move pattern: a range of column offsets paired with a range of row offsets. */
  datatype Pattern = Pattern(dx: IntRange, dy: IntRange)

  /** The ranges the sliding kinds use: no offset, 1..7, or -1..-7 (empty as written). */
  predicate IsSlideRange(g: IntRange)
  {
    g == IntRange(0, 0) || g == IntRange(1, 7) || g == IntRange(-1, -7)
  }

  function Step(dx: int, dy: int): Pattern
  {
    Pattern(IntRange(dx, dx), IntRange(dy, dy))
  }

  function Slide(dx: int, dy: int): Pattern
  {
    Pattern(IntRange(dx, 7 * dx), IntRange(dy, 7 * dy))
  }

  /** The eight king steps: distinct single offsets to the neighbouring cells. */
  function KingMoves(): (r: seq<Pattern>)
    ensures |r| == 8
    ensures forall i, j :: 0 <= i < j < |r| ==> r[i] != r[j]
    ensures forall m :: m in r ==> m.dx.Size() == 1 && m.dy.Size() == 1
    ensures forall m :: m in r ==>
              -1 <= m.dx.first <= 1 && -1 <= m.dy.first <= 1 && (m.dx.first, m.dy.first) != (0, 0)
  {
    [Step(1, 0), Step(0, 1), Step(-1, 0), Step(0, -1),
     Step(1, 1), Step(-1, -1), Step(1, -1), Step(-1, 1)]
  }

  /** The eight knight jumps: distinct single offsets, one and two cells apart. */
  function KnightMoves(): (r: seq<Pattern>)
    ensures |r| == 8
    ensures forall i, j :: 0 <= i < j < |r| ==> r[i] != r[j]
    ensures forall m :: m in r ==> m.dx.Size() == 1 && m.dy.Size() == 1
    ensures forall m :: m in r ==> {Abs(m.dx.first), Abs(m.dy.first)} == {1, 2}
  {
    [Step(1, -2), Step(2, -1), Step(1, 2), Step(2, 1),
     Step(-1, 2), Step(-2, 1), Step(-1, -2), Step(-2, -1)]
  }

  /**
   * A sliding pattern is well formed when both its ranges are slide ranges;
   * it then holds any offset only when neither of its ranges runs negative.
   */
  predicate SlidePattern(m: Pattern)
  {
    IsSlideRange(m.dx) && IsSlideRange(m.dy) &&
    ((m.dx.Size() > 0 && m.dy.Size() > 0) <==> (m.dx.first >= 0 && m.dy.first >= 0))
  }

  /** The four straight rook directions. */
  function RookMoves(): (r: seq<Pattern>)
    ensures |r| == 4
    ensures forall i, j :: 0 <= i < j < |r| ==> r[i] != r[j]
    ensures forall m :: m in r ==> SlidePattern(m) && (m.dx.first == 0) != (m.dy.first == 0)
  {
    [Slide(1, 0), Slide(-1, 0), Slide(0, 1), Slide(0, -1)]
  }

  /** The four diagonal bishop directions. */
  function BishopMoves(): (r: seq<Pattern>)
    ensures |r| == 4
    ensures forall i, j :: 0 <= i < j < |r| ==> r[i] != r[j]
    ensures forall m :: m in r ==> SlidePattern(m) && m.dx.first != 0 && m.dy.first != 0
  {
    [Slide(1, 1), Slide(-1, -1), Slide(1, -1), Slide(-1, 1)]
  }

  /**
   * The move-pattern table of each kind, as literal data: the queen's table
   * is the rook's followed by the bishop's; the pawn has the one pattern
   * (0..0, 2..2); the empty kind has none.
   */
  function Moves(t: PieceType): (r: seq<Pattern>)
    ensures |r| == match t
                   case King => 8
                   case Queen => 8
                   case Rook => 4
                   case Bishop => 4
                   case Knight => 8
                   case Pawn => 1
                   case Empty => 0
    ensures t == King ==> r == KingMoves()
    ensures t == Queen ==> r == RookMoves() + BishopMoves()
    ensures t == Rook ==> r == RookMoves()
    ensures t == Bishop ==> r == BishopMoves()
    ensures t == Knight ==> r == KnightMoves()
    ensures t == Queen || t == Rook || t == Bishop ==> forall m :: m in r ==> SlidePattern(m)
    ensures t == Pawn ==> r == [Step(0, 2)]
  {
    match t
    case King => KingMoves()
    case Queen => RookMoves() + BishopMoves()
    case Rook => RookMoves()
    case Bishop => BishopMoves()
    case Knight => KnightMoves()
    case Pawn => [Step(0, 2)]
    case Empty => []
  }

  function Abs(x: int): nat { if x < 0 then -x else x }
}
