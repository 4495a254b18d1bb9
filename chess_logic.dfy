/**
 * The rules engine (utils/chessLogic.ts): pseudo-legal move generation,
 * attack and check detection, move application, the legal-move filter and
 * the checkmate test, for an N-by-N board without castling or en passant.
 *
 * Each generator is given twice: a function that says which moves are
 * produced and in which order, and a method that produces them with the
 * source's loops and is proved to return exactly that function's value.
 * Positions are flat sequences of pieces; nothing is updated in place.
 */
module ChessLogic {
  import opened Wrappers
  import opened Coords
  import opened Types

  /** A move from one square to another, with the promotion choice when a
      pawn reaches its last rank. */
  datatype Move = Move(from: Coord, to: Coord, promo: Option<Promotion>)

  function Square(p: Piece): Coord {
    Coord(p.x, p.y)
  }

  predicate IsAt(p: Piece, x: int, y: int) {
    p.x == x && p.y == y
  }

  function Opponent(c: Color): Color {
    if c == White then Black else White
  }

  function PromotionKind(pr: Promotion): PieceType {
    match pr
    case ToQueen => Queen
    case ToRook => Rook
    case ToBishop => Bishop
    case ToKnight => Knight
  }

  /** Row step of a pawn: up the board for White, down for Black. */
  function Forward(c: Color): int {
    if c == White then 1 else -1
  }

  function StartRank(c: Color, size: int): int {
    if c == White then 1 else size - 2
  }

  function LastRank(c: Color, size: int): int {
    if c == White then size - 1 else 0
  }

  /** The first piece standing on (x, y), if any. */
  function GetPieceAt(pieces: seq<Piece>, x: int, y: int): Option<Piece> {
    if |pieces| == 0 then None
    else if IsAt(pieces[0], x, y) then Some(pieces[0])
    else GetPieceAt(pieces[1..], x, y)
  }

  /** A piece of colour `color` may end its move on (x, y): the square is on
      the board and is empty or holds an opposing piece. */
  predicate CanLand(pieces: seq<Piece>, color: Color, x: int, y: int, size: int) {
    IsOnBoard(x, y, size)
    && (GetPieceAt(pieces, x, y).None? || GetPieceAt(pieces, x, y).value.color != color)
  }

  /** The one-square jump of p by (dx, dy), if it may land there. */
  function StepMove(pieces: seq<Piece>, p: Piece, size: int, dx: int, dy: int): seq<Move> {
    if CanLand(pieces, p.color, p.x + dx, p.y + dy, size)
    then [Move(Square(p), Coord(p.x + dx, p.y + dy), None)]
    else []
  }

  // ---------------------------------------------------------------------
  // King: the 3x3 scan dx = -1..1 (outer), dy = -1..1 (inner), centre skipped

  /** Moves of the inner scan at column offset dx, for the first k row offsets. */
  function KingColumn(pieces: seq<Piece>, p: Piece, size: int, dx: int, k: nat): seq<Move>
    requires k <= 3
  {
    if k == 0 then []
    else
      var dy := k - 2;
      KingColumn(pieces, p, size, dx, k - 1)
      + (if dx == 0 && dy == 0 then [] else StepMove(pieces, p, size, dx, dy))
  }

  /** Moves of the first k column offsets of the outer scan. */
  function KingRows(pieces: seq<Piece>, p: Piece, size: int, k: nat): seq<Move>
    requires k <= 3
  {
    if k == 0 then [] else KingRows(pieces, p, size, k - 1) + KingColumn(pieces, p, size, k - 2, 3)
  }

  function KingMoves(pieces: seq<Piece>, p: Piece, size: int): seq<Move> {
    KingRows(pieces, p, size, 3)
  }

  // ---------------------------------------------------------------------
  // Knight: a fixed table of eight jumps

  const KnightOffsets: seq<(int, int)> :=
    [(-2, -1), (-2, 1), (-1, -2), (-1, 2), (1, -2), (1, 2), (2, -1), (2, 1)]

  /** The jumps of p by each offset of the table, in table order. */
  function OffsetMoves(pieces: seq<Piece>, p: Piece, size: int, offsets: seq<(int, int)>): seq<Move> {
    if offsets == [] then []
    else
      var (dx, dy) := offsets[|offsets| - 1];
      OffsetMoves(pieces, p, size, offsets[..|offsets| - 1]) + StepMove(pieces, p, size, dx, dy)
  }

  function KnightMoves(pieces: seq<Piece>, p: Piece, size: int): seq<Move> {
    OffsetMoves(pieces, p, size, KnightOffsets)
  }

  // ---------------------------------------------------------------------
  // Sliders: rays in the piece's directions

  const RookDirections: seq<(int, int)> := [(1, 0), (-1, 0), (0, 1), (0, -1)]

  const BishopDirections: seq<(int, int)> := [(1, 1), (-1, 1), (1, -1), (-1, -1)]

  predicate IsUnit(dx: int, dy: int) {
    -1 <= dx <= 1 && -1 <= dy <= 1 && (dx != 0 || dy != 0)
  }

  /** Rook directions for a queen or rook, then bishop directions for a queen
      or bishop. */
  function Directions(kind: PieceType): (dirs: seq<(int, int)>)
    ensures forall i :: 0 <= i < |dirs| ==> IsUnit(dirs[i].0, dirs[i].1)
  {
    (if kind == Queen || kind == Rook then RookDirections else [])
    + (if kind == Queen || kind == Bishop then BishopDirections else [])
  }

  /** Squares left before a walk in direction d from n leaves the board. */
  function Span(n: int, d: int, size: int): int {
    if d > 0 then size - n else if d < 0 then n + 1 else 0
  }

  /** The ray of p in direction (dx, dy) from (nx, ny) on: every empty square
      is a move, the first occupied square ends the ray and is a move only
      when it holds an opposing piece. */
  function Ray(pieces: seq<Piece>, p: Piece, size: int, dx: int, dy: int, nx: int, ny: int): seq<Move>
    requires IsUnit(dx, dy)
    decreases Span(nx, dx, size) + Span(ny, dy, size)
  {
    if !IsOnBoard(nx, ny, size) then []
    else match GetPieceAt(pieces, nx, ny)
      case None => [Move(Square(p), Coord(nx, ny), None)] + Ray(pieces, p, size, dx, dy, nx + dx, ny + dy)
      case Some(target) => if target.color != p.color then [Move(Square(p), Coord(nx, ny), None)] else []
  }

  function Rays(pieces: seq<Piece>, p: Piece, size: int, dirs: seq<(int, int)>): seq<Move>
    requires forall i :: 0 <= i < |dirs| ==> IsUnit(dirs[i].0, dirs[i].1)
  {
    if dirs == [] then []
    else
      var (dx, dy) := dirs[|dirs| - 1];
      Rays(pieces, p, size, dirs[..|dirs| - 1]) + Ray(pieces, p, size, dx, dy, p.x + dx, p.y + dy)
  }

  function SliderMoves(pieces: seq<Piece>, p: Piece, size: int): seq<Move> {
    Rays(pieces, p, size, Directions(p.kind))
  }

  // ---------------------------------------------------------------------
  // Pawn

  /** The same move once per promotion choice Q, R, B, N. */
  function PromotionMoves(from: Coord, to: Coord): seq<Move> {
    [Move(from, to, Some(ToQueen)), Move(from, to, Some(ToRook)),
     Move(from, to, Some(ToBishop)), Move(from, to, Some(ToKnight))]
  }

  /** A pawn move to `to`: expanded into the four promotions on the last rank. */
  function PawnTo(p: Piece, to: Coord, size: int): seq<Move> {
    if to.y == LastRank(p.color, size) then PromotionMoves(Square(p), to)
    else [Move(Square(p), to, None)]
  }

  /** One step forward onto an empty square, then two steps from the start
      rank when both squares are empty. */
  function PawnAdvance(pieces: seq<Piece>, p: Piece, size: int): seq<Move> {
    var ny1 := p.y + Forward(p.color);
    if IsOnBoard(p.x, ny1, size) && GetPieceAt(pieces, p.x, ny1).None? then
      var ny2 := p.y + 2 * Forward(p.color);
      PawnTo(p, Coord(p.x, ny1), size)
      + (if p.y == StartRank(p.color, size) && IsOnBoard(p.x, ny2, size) && GetPieceAt(pieces, p.x, ny2).None?
         then [Move(Square(p), Coord(p.x, ny2), None)]
         else [])
    else []
  }

  const CaptureFiles: seq<int> := [-1, 1]

  /** Diagonal steps forward, each only onto an opposing piece. */
  function PawnCaptures(pieces: seq<Piece>, p: Piece, size: int, files: seq<int>): seq<Move> {
    if files == [] then []
    else
      var nx, ny := p.x + files[|files| - 1], p.y + Forward(p.color);
      PawnCaptures(pieces, p, size, files[..|files| - 1])
      + (if IsOnBoard(nx, ny, size) && GetPieceAt(pieces, nx, ny).Some?
            && GetPieceAt(pieces, nx, ny).value.color != p.color
         then PawnTo(p, Coord(nx, ny), size)
         else [])
  }

  function PawnMoves(pieces: seq<Piece>, p: Piece, size: int): seq<Move> {
    PawnAdvance(pieces, p, size) + PawnCaptures(pieces, p, size, CaptureFiles)
  }

  // ---------------------------------------------------------------------
  // All pseudo-legal moves

  function PieceMoves(pieces: seq<Piece>, p: Piece, size: int): seq<Move> {
    match p.kind
    case King => KingMoves(pieces, p, size)
    case Queen => SliderMoves(pieces, p, size)
    case Rook => SliderMoves(pieces, p, size)
    case Bishop => SliderMoves(pieces, p, size)
    case Knight => KnightMoves(pieces, p, size)
    case Pawn => PawnMoves(pieces, p, size)
  }

  /** The moves of the pieces of `side` among the first n pieces, in list order. */
  function MovesOfFirst(pieces: seq<Piece>, size: int, side: Color, n: nat): seq<Move>
    requires n <= |pieces|
  {
    if n == 0 then []
    else
      MovesOfFirst(pieces, size, side, n - 1)
      + (if pieces[n - 1].color == side then PieceMoves(pieces, pieces[n - 1], size) else [])
  }

  /** Moves that obey the movement rules, ignoring the mover's own king. */
  function PseudoLegalMoves(pieces: seq<Piece>, size: int, side: Color): seq<Move> {
    MovesOfFirst(pieces, size, side, |pieces|)
  }

  // ---------------------------------------------------------------------
  // Attack and check

  predicate IsSquareAttacked(pieces: seq<Piece>, size: int, target: Coord, bySide: Color) {
    exists m :: m in PseudoLegalMoves(pieces, size, bySide) && m.to == target
  }

  /** The king at index i is the first king of colour `side` in the list. */
  predicate FirstKingAt(pieces: seq<Piece>, side: Color, i: int) {
    && 0 <= i < |pieces| && pieces[i].kind == King && pieces[i].color == side
    && forall j :: 0 <= j < i ==> !(pieces[j].kind == King && pieces[j].color == side)
  }

  /** The first king of colour `side`, if any. */
  function FindKing(pieces: seq<Piece>, side: Color): (r: Option<Piece>)
    ensures r.None? <==> forall i :: 0 <= i < |pieces| ==> !(pieces[i].kind == King && pieces[i].color == side)
    ensures r.Some? ==> exists i :: FirstKingAt(pieces, side, i) && pieces[i] == r.value
  {
    if |pieces| == 0 then None
    else if pieces[0].kind == King && pieces[0].color == side then
      assert FirstKingAt(pieces, side, 0);
      Some(pieces[0])
    else
      var r := FindKing(pieces[1..], side);
      assert forall i :: 1 <= i < |pieces| ==> pieces[i] == pieces[1..][i - 1];
      assert r.Some? ==> exists i :: FirstKingAt(pieces, side, i) && pieces[i] == r.value by {
        if r.Some? {
          var i :| FirstKingAt(pieces[1..], side, i) && pieces[1..][i] == r.value;
          assert FirstKingAt(pieces, side, i + 1);
        }
      }
      r
  }

  /** A side without a king is never in check; otherwise its (first) king's
      square is attacked by the opponent. */
  predicate IsInCheck(pieces: seq<Piece>, size: int, side: Color) {
    match FindKing(pieces, side)
    case None => false
    case Some(king) => IsSquareAttacked(pieces, size, Square(king), Opponent(side))
  }

  // ---------------------------------------------------------------------
  // Applying a move

  /** The pieces that are on neither the from-square nor the to-square, in order. */
  function Vacate(pieces: seq<Piece>, from: Coord, to: Coord): seq<Piece> {
    if pieces == [] then []
    else
      var p := pieces[|pieces| - 1];
      Vacate(pieces[..|pieces| - 1], from, to)
      + (if !IsAt(p, to.x, to.y) && !IsAt(p, from.x, from.y) then [p] else [])
  }

  /** The mover's kind after the move: the explicit promotion if there is one,
      a queen for a pawn reaching its last rank without one, else unchanged. */
  function FinalKind(mover: Piece, m: Move, size: int): PieceType {
    if m.promo.Some? then PromotionKind(m.promo.value)
    else if mover.kind == Pawn && m.to.y == LastRank(mover.color, size) then Queen
    else mover.kind
  }

  function Applied(pieces: seq<Piece>, m: Move, size: int): seq<Piece> {
    match GetPieceAt(pieces, m.from.x, m.from.y)
    case None => pieces
    case Some(mover) =>
      Vacate(pieces, m.from, m.to) + [Piece(FinalKind(mover, m, size), mover.color, m.to.x, m.to.y)]
  }

  // ---------------------------------------------------------------------
  // Legal moves and checkmate

  /** The candidates after which `side`'s king is not in check, in order. */
  function KeepLegal(pieces: seq<Piece>, size: int, side: Color, candidates: seq<Move>): seq<Move> {
    if candidates == [] then []
    else
      var m := candidates[|candidates| - 1];
      KeepLegal(pieces, size, side, candidates[..|candidates| - 1])
      + (if !IsInCheck(Applied(pieces, m, size), size, side) then [m] else [])
  }

  function LegalMoves(pieces: seq<Piece>, size: int, side: Color): seq<Move> {
    KeepLegal(pieces, size, side, PseudoLegalMoves(pieces, size, side))
  }

  predicate IsCheckmate(pieces: seq<Piece>, size: int, side: Color) {
    IsInCheck(pieces, size, side) && |LegalMoves(pieces, size, side)| == 0
  }

  // ---------------------------------------------------------------------
  // Legacy helpers

  /** The moves of a list that start on `from`, in order. */
  function MovesFrom(moves: seq<Move>, from: Coord): seq<Move> {
    if moves == [] then []
    else
      var m := moves[|moves| - 1];
      MovesFrom(moves[..|moves| - 1], from) + (if m.from == from then [m] else [])
  }

  /** The to-square of each move, in order. */
  function Destinations(moves: seq<Move>): seq<Coord> {
    seq(|moves|, i requires 0 <= i < |moves| => moves[i].to)
  }

  /** Destinations of the piece on `from`: of its legal moves, or of its
      pseudo-legal moves when check is not considered; none for an empty square. */
  function GetLegalMovesForPiece(pieces: seq<Piece>, from: Coord, boardSize: int, checkForCheck: bool): seq<Coord> {
    match GetPieceAt(pieces, from.x, from.y)
    case None => []
    case Some(piece) =>
      var moves := if checkForCheck then LegalMoves(pieces, boardSize, piece.color)
                   else PseudoLegalMoves(pieces, boardSize, piece.color);
      Destinations(MovesFrom(moves, from))
  }

  /** The legacy move entry point: always applies on an 8x8 board. */
  function MakeMove(pieces: seq<Piece>, from: Coord, to: Coord, promo: Option<Promotion>): seq<Piece> {
    Applied(pieces, Move(from, to, promo), 8)
  }

  function GetKingSquare(pieces: seq<Piece>, color: Color): (r: Option<Coord>)
    ensures r.None? <==> forall i :: 0 <= i < |pieces| ==> !(pieces[i].kind == King && pieces[i].color == color)
    ensures r.Some? ==> exists i :: FirstKingAt(pieces, color, i) && Square(pieces[i]) == r.value
  {
    match FindKing(pieces, color)
    case None => None
    case Some(king) => Some(Square(king))
  }

  predicate NeedsPromotion(piece: Piece, boardSize: int) {
    piece.kind == Pawn && piece.y == LastRank(piece.color, boardSize)
  }

  predicate IsValidSquare(square: Coord, boardSize: int) {
    IsOnBoard(square.x, square.y, boardSize)
  }

  // ---------------------------------------------------------------------
  // The generators as the source runs them

  method KingMovesOf(pieces: seq<Piece>, p: Piece, size: int) returns (ms: seq<Move>)
    ensures ms == KingMoves(pieces, p, size)
  {
    ms := [];
    for dx := -1 to 2
      invariant ms == KingRows(pieces, p, size, dx + 1)
    {
      var column := KingColumnOf(pieces, p, size, dx);
      assert KingRows(pieces, p, size, dx + 2) == KingRows(pieces, p, size, dx + 1) + column;
      ms := ms + column;
    }
  }

  /** The inner dy loop of the king's scan for one column offset dx. */
  method KingColumnOf(pieces: seq<Piece>, p: Piece, size: int, dx: int) returns (ms: seq<Move>)
    ensures ms == KingColumn(pieces, p, size, dx, 3)
  {
    ms := [];
    for dy := -1 to 2
      invariant ms == KingColumn(pieces, p, size, dx, dy + 1)
    {
      if dx == 0 && dy == 0 {
        assert KingColumn(pieces, p, size, dx, dy + 2) == KingColumn(pieces, p, size, dx, dy + 1);
        continue;
      }
      ghost var before := ms;
      var nx, ny := p.x + dx, p.y + dy;
      if IsOnBoard(nx, ny, size) {
        var target := GetPieceAt(pieces, nx, ny);
        if target.None? || target.value.color != p.color {
          ms := ms + [Move(Square(p), Coord(nx, ny), None)];
        }
      }
      assert ms == before + StepMove(pieces, p, size, dx, dy);
      assert KingColumn(pieces, p, size, dx, dy + 2) == before + StepMove(pieces, p, size, dx, dy);
    }
  }

  method KnightMovesOf(pieces: seq<Piece>, p: Piece, size: int) returns (ms: seq<Move>)
    ensures ms == KnightMoves(pieces, p, size)
  {
    ms := [];
    for i := 0 to |KnightOffsets|
      invariant ms == OffsetMoves(pieces, p, size, KnightOffsets[..i])
    {
      var (dx, dy) := KnightOffsets[i];
      assert KnightOffsets[..i + 1][..i] == KnightOffsets[..i];
      var nx, ny := p.x + dx, p.y + dy;
      if IsOnBoard(nx, ny, size) {
        var target := GetPieceAt(pieces, nx, ny);
        if target.None? || target.value.color != p.color {
          ms := ms + [Move(Square(p), Coord(nx, ny), None)];
        }
      }
    }
    assert KnightOffsets[..|KnightOffsets|] == KnightOffsets;
  }

  /** The while-loop ray walk of the source for one direction. */
  method RayWalk(pieces: seq<Piece>, p: Piece, size: int, dx: int, dy: int) returns (ms: seq<Move>)
    requires IsUnit(dx, dy)
    ensures ms == Ray(pieces, p, size, dx, dy, p.x + dx, p.y + dy)
  {
    ms := [];
    var nx, ny := p.x + dx, p.y + dy;
    while IsOnBoard(nx, ny, size)
      invariant ms + Ray(pieces, p, size, dx, dy, nx, ny) == Ray(pieces, p, size, dx, dy, p.x + dx, p.y + dy)
      decreases Span(nx, dx, size) + Span(ny, dy, size)
    {
      var target := GetPieceAt(pieces, nx, ny);
      if target.None? {
        ms := ms + [Move(Square(p), Coord(nx, ny), None)];
      } else {
        if target.value.color != p.color {
          ms := ms + [Move(Square(p), Coord(nx, ny), None)];
        }
        break;
      }
      nx, ny := nx + dx, ny + dy;
    }
  }

  method SliderMovesOf(pieces: seq<Piece>, p: Piece, size: int) returns (ms: seq<Move>)
    requires p.kind == Queen || p.kind == Rook || p.kind == Bishop
    ensures ms == SliderMoves(pieces, p, size)
  {
    var directions: seq<(int, int)> := [];
    if p.kind == Queen || p.kind == Rook {
      directions := directions + RookDirections;
    }
    if p.kind == Queen || p.kind == Bishop {
      directions := directions + BishopDirections;
    }
    assert directions == Directions(p.kind);
    ms := RaysOf(pieces, p, size, directions);
  }

  /** The loop over the directions, one ray walk each. */
  method RaysOf(pieces: seq<Piece>, p: Piece, size: int, directions: seq<(int, int)>) returns (ms: seq<Move>)
    requires forall i :: 0 <= i < |directions| ==> IsUnit(directions[i].0, directions[i].1)
    ensures ms == Rays(pieces, p, size, directions)
  {
    ms := [];
    for i := 0 to |directions|
      invariant ms == Rays(pieces, p, size, directions[..i])
    {
      var d := directions[i];
      assert directions[..i + 1][..i] == directions[..i];
      var ray := RayWalk(pieces, p, size, d.0, d.1);
      assert Rays(pieces, p, size, directions[..i + 1]) == Rays(pieces, p, size, directions[..i]) + ray;
      ms := ms + ray;
    }
    assert directions[..|directions|] == directions;
  }

  method PawnMovesOf(pieces: seq<Piece>, p: Piece, size: int) returns (ms: seq<Move>)
    ensures ms == PawnMoves(pieces, p, size)
  {
    var direction := if p.color == White then 1 else -1;
    var startRank := if p.color == White then 1 else size - 2;
    var lastRank := if p.color == White then size - 1 else 0;
    var from := Square(p);
    ms := [];
    var ny1 := p.y + direction;
    if IsOnBoard(p.x, ny1, size) && GetPieceAt(pieces, p.x, ny1).None? {
      if ny1 == lastRank {
        ms := ms + PromotionMoves(from, Coord(p.x, ny1));
      } else {
        ms := ms + [Move(from, Coord(p.x, ny1), None)];
      }
      if p.y == startRank {
        var ny2 := p.y + 2 * direction;
        if IsOnBoard(p.x, ny2, size) && GetPieceAt(pieces, p.x, ny2).None? {
          ms := ms + [Move(from, Coord(p.x, ny2), None)];
        }
      }
    }
    assert ms == PawnAdvance(pieces, p, size);
    var captures := PawnCapturesOf(pieces, p, size);
    ms := ms + captures;
  }

  /** The source's `for (const dx of [-1, 1])` loop of diagonal captures. */
  method PawnCapturesOf(pieces: seq<Piece>, p: Piece, size: int) returns (ms: seq<Move>)
    ensures ms == PawnCaptures(pieces, p, size, CaptureFiles)
  {
    var direction := if p.color == White then 1 else -1;
    var lastRank := if p.color == White then size - 1 else 0;
    var from := Square(p);
    ms := [];
    for i := 0 to |CaptureFiles|
      invariant ms == PawnCaptures(pieces, p, size, CaptureFiles[..i])
    {
      var dx := CaptureFiles[i];
      assert CaptureFiles[..i + 1][..i] == CaptureFiles[..i];
      var nx, ny := p.x + dx, p.y + direction;
      if IsOnBoard(nx, ny, size) {
        var target := GetPieceAt(pieces, nx, ny);
        if target.Some? && target.value.color != p.color {
          if ny == lastRank {
            ms := ms + PromotionMoves(from, Coord(nx, ny));
          } else {
            ms := ms + [Move(from, Coord(nx, ny), None)];
          }
        }
      }
    }
    assert CaptureFiles[..|CaptureFiles|] == CaptureFiles;
  }

  /** generatePseudoLegalMoves: the pieces of `side` in list order, each
      contributing the moves of its kind. */
  method GeneratePseudoLegalMoves(pieces: seq<Piece>, size: int, side: Color) returns (moves: seq<Move>)
    ensures moves == PseudoLegalMoves(pieces, size, side)
  {
    moves := [];
    for i := 0 to |pieces|
      invariant moves == MovesOfFirst(pieces, size, side, i)
    {
      var piece := pieces[i];
      if piece.color == side {
        var pieceMoves: seq<Move>;
        match piece.kind {
          case King => pieceMoves := KingMovesOf(pieces, piece, size);
          case Queen => pieceMoves := SliderMovesOf(pieces, piece, size);
          case Rook => pieceMoves := SliderMovesOf(pieces, piece, size);
          case Bishop => pieceMoves := SliderMovesOf(pieces, piece, size);
          case Knight => pieceMoves := KnightMovesOf(pieces, piece, size);
          case Pawn => pieceMoves := PawnMovesOf(pieces, piece, size);
        }
        moves := moves + pieceMoves;
      }
    }
  }

  /** applyMove: keep the pieces off the from- and to-squares, then append
      the mover on the to-square; an empty from-square changes nothing. */
  method ApplyMove(pieces: seq<Piece>, move: Move, size: int) returns (newPieces: seq<Piece>)
    ensures newPieces == Applied(pieces, move, size)
  {
    var movingPiece := GetPieceAt(pieces, move.from.x, move.from.y);
    if movingPiece.None? {
      return pieces;
    }
    var mover := movingPiece.value;
    newPieces := [];
    for i := 0 to |pieces|
      invariant newPieces == Vacate(pieces[..i], move.from, move.to)
    {
      var p := pieces[i];
      assert pieces[..i + 1][..i] == pieces[..i];
      if !(p.x == move.to.x && p.y == move.to.y) && !(p.x == move.from.x && p.y == move.from.y) {
        newPieces := newPieces + [p];
      }
    }
    assert pieces[..|pieces|] == pieces;
    var finalType := mover.kind;
    if move.promo.Some? {
      finalType := PromotionKind(move.promo.value);
    } else if mover.kind == Pawn {
      var lastRank := if mover.color == White then size - 1 else 0;
      if move.to.y == lastRank {
        finalType := Queen;
      }
    }
    newPieces := newPieces + [Piece(finalType, mover.color, move.to.x, move.to.y)];
  }

  /** generateLegalMoves: each pseudo-legal move is played out and kept when
      the mover's own king is then not in check. */
  method GenerateLegalMoves(pieces: seq<Piece>, size: int, side: Color) returns (legalMoves: seq<Move>)
    ensures legalMoves == LegalMoves(pieces, size, side)
  {
    var pseudoMoves := GeneratePseudoLegalMoves(pieces, size, side);
    legalMoves := [];
    for i := 0 to |pseudoMoves|
      invariant legalMoves == KeepLegal(pieces, size, side, pseudoMoves[..i])
    {
      var move := pseudoMoves[i];
      assert pseudoMoves[..i + 1][..i] == pseudoMoves[..i];
      var newPieces := ApplyMove(pieces, move, size);
      var inCheck := IsInCheck(newPieces, size, side);
      assert KeepLegal(pieces, size, side, pseudoMoves[..i + 1])
          == KeepLegal(pieces, size, side, pseudoMoves[..i]) + (if !inCheck then [move] else []);
      if !inCheck {
        legalMoves := legalMoves + [move];
      }
    }
    assert pseudoMoves[..|pseudoMoves|] == pseudoMoves;
  }
}
