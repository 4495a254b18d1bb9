/**
 * Puzzle 7 of data/builtInPuzzles.ts ("Smothered Mate") as a worked case of
 * the validator: its second ply names the square the queen has just moved
 * to as a black piece's square, so validation fails there with a colour
 * mismatch.
 */
module PuzzleFixture {
  import opened Wrappers
  import opened Coords
  import opened Types
  import opened ChessLogic
  import opened ChessLemmas
  import opened PuzzleValidator

  const Start := [Piece(King, White, 4, 0), Piece(Queen, White, 3, 4), Piece(Knight, White, 5, 5),
                  Piece(King, Black, 7, 7), Piece(Rook, Black, 6, 7), Piece(Pawn, Black, 6, 6)]

  const Line := [LineMove(White, Coord(3, 4), Coord(6, 7), None),
                 LineMove(Black, Coord(6, 7), Coord(6, 7), None),
                 LineMove(White, Coord(5, 5), Coord(6, 7), None)]

  const Smothered := Puzzle("puzzle-007", "Smothered Mate", "Expert", 8, 4, White, Start,
                            Objective("mate", 2), Line)

  /** The queen's capture on (6, 7). */
  const QueenTakes := Move(Coord(3, 4), Coord(6, 7), None)

  /** The position after the capture: the rook is gone, the queen is on (6, 7). */
  const AfterQueen := [Piece(King, White, 4, 0), Piece(Knight, White, 5, 5),
                       Piece(King, Black, 7, 7), Piece(Pawn, Black, 6, 6), Piece(Queen, White, 6, 7)]

  /** The single piece q, if it is a king of the given colour. */
  function KingIf(q: Piece, color: Color): seq<Piece> {
    if q.kind == King && q.color == color then [q] else []
  }

  lemma KingsSnoc(init: seq<Piece>, q: Piece, color: Color)
    ensures Kings(init + [q], color) == Kings(init, color) + KingIf(q, color)
  {
    assert (init + [q])[..|init|] == init;
  }

  lemma KingsSix(a: Piece, b: Piece, c: Piece, d: Piece, e: Piece, f: Piece, color: Color)
    ensures Kings([a, b, c, d, e, f], color)
            == KingIf(a, color) + KingIf(b, color) + KingIf(c, color)
               + KingIf(d, color) + KingIf(e, color) + KingIf(f, color)
  {
    KingsSnoc([], a, color);
    KingsSnoc([a], b, color);
    KingsSnoc([a, b], c, color);
    KingsSnoc([a, b, c], d, color);
    KingsSnoc([a, b, c, d], e, color);
    KingsSnoc([a, b, c, d, e], f, color);
    assert [a] + [b] == [a, b] && [a, b] + [c] == [a, b, c] && [a, b, c] + [d] == [a, b, c, d];
    assert [a, b, c, d] + [e] == [a, b, c, d, e] && [a, b, c, d, e] + [f] == [a, b, c, d, e, f];
  }

  lemma WhiteKingsOfStart()
    ensures Kings(Start, White) == [Start[0]]
  {
    KingsSix(Start[0], Start[1], Start[2], Start[3], Start[4], Start[5], White);
  }

  lemma BlackKingsOfStart()
    ensures Kings(Start, Black) == [Start[3]]
  {
    KingsSix(Start[0], Start[1], Start[2], Start[3], Start[4], Start[5], Black);
  }

  lemma OneKingEach()
    ensures KingErrors(Start) == []
  {
    WhiteKingsOfStart();
    BlackKingsOfStart();
  }

  /** The queen reaches the rook along the diagonal (1, 1). */
  lemma QueenTakesIsPseudoLegal()
    ensures QueenTakes in PseudoLegalMoves(Start, 8, White)
  {
    var q := Start[1];
    assert GetPieceAt(Start, 4, 5).None?;
    assert GetPieceAt(Start, 5, 6).None?;
    assert GetPieceAt(Start, 6, 7) == Some(Start[4]);
    assert Ray(Start, q, 8, 1, 1, 6, 7) == [QueenTakes];
    assert Ray(Start, q, 8, 1, 1, 5, 6) == [Move(Coord(3, 4), Coord(5, 6), None), QueenTakes];
    assert QueenTakes in Ray(Start, q, 8, 1, 1, 4, 5);
    var dirs := Directions(Queen);
    assert dirs[4] == (1, 1);
    RaysIncludes(Start, q, 8, dirs, 4, QueenTakes);
    MovesOfFirstMembers(Start, 8, White, |Start|, QueenTakes);
  }

  lemma QueenTakesApplied()
    ensures Applied(Start, QueenTakes, 8) == AfterQueen
  {
    assert GetPieceAt(Start, 3, 4) == Some(Start[1]);
    StartVacated();
  }

  /** The capture empties the queen's square and the rook's. */
  lemma StartVacated()
    ensures Vacate(Start, Coord(3, 4), Coord(6, 7)) == [Start[0], Start[2], Start[3], Start[5]]
  {
    VacateSix(Start[0], Start[1], Start[2], Start[3], Start[4], Start[5], Coord(3, 4), Coord(6, 7));
  }

  /** After the capture neither black piece reaches the white king on (4, 0). */
  lemma WhiteKingSafe()
    ensures !IsInCheck(AfterQueen, 8, White)
  {
    assert FindKing(AfterQueen, White) == Some(AfterQueen[0]);
    WhiteKingUnattacked();
  }

  lemma WhiteKingUnattacked()
    ensures !IsSquareAttacked(AfterQueen, 8, Coord(4, 0), Black)
  {
    AttackedByPiece(AfterQueen, 8, Coord(4, 0), Black);
    BlackKingMisses();
    BlackPawnMisses();
    assert forall i :: 0 <= i < |AfterQueen| && AfterQueen[i].color == Black ==> i == 2 || i == 3;
  }

  lemma BlackKingMisses()
    ensures forall m :: m in PieceMoves(AfterQueen, AfterQueen[2], 8) ==> m.to != Coord(4, 0)
  {
    forall m | m in PieceMoves(AfterQueen, AfterQueen[2], 8) ensures m.to != Coord(4, 0) {
      KingMovesExactly(AfterQueen, AfterQueen[2], 8, m);
    }
  }

  lemma BlackPawnMisses()
    ensures forall m :: m in PieceMoves(AfterQueen, AfterQueen[3], 8) ==> m.to != Coord(4, 0)
  {
    forall m | m in PieceMoves(AfterQueen, AfterQueen[3], 8) ensures m.to != Coord(4, 0) {
      PawnMovesExactly(AfterQueen, AfterQueen[3], 8, m);
    }
  }

  /** The first ply is accepted. */
  lemma FirstPlyAccepted()
    ensures PlyFailure(Start, White, Line[0], 8, 0) == None
  {
    QueenTakesIsPseudoLegal();
    QueenTakesApplied();
    WhiteKingSafe();
    LegalMovesExactly(Start, 8, White);
    assert GetPieceAt(Start, 3, 4) == Some(Start[1]);
    assert AsMove(Line[0]) == QueenTakes;
    assert IsListed(LegalMoves(Start, 8, White), Line[0]);
  }

  /** The second ply starts on the queen's new square: a white piece, not a black one. */
  lemma SecondPlyRejected()
    ensures PlyFailure(AfterQueen, Black, Line[1], 8, 1)
            == Some(Failure(WrongColor(1, White, Black), 1, Coord(6, 7), Coord(6, 7), None))
  {
    assert GetPieceAt(AfterQueen, 6, 7) == Some(AfterQueen[4]);
  }

  /** The replay of the line stops at ply 1. */
  lemma SmotheredReplay()
    ensures Replay(Start, White, Line, 8, 0)
            == Failed(Failure(WrongColor(1, White, Black), 1, Coord(6, 7), Coord(6, 7), None))
  {
    FirstPlyAccepted();
    ReplayAccepts(Start, White, Line, 8, 0);
    assert AsMove(Line[0]) == QueenTakes;
    QueenTakesApplied();
    SecondPlyRejected();
    ReplayRejects(AfterQueen, Black, Line, 8, 1, Failure(WrongColor(1, White, Black), 1, Coord(6, 7), Coord(6, 7), None));
  }

  /** Validation of puzzle 7 fails at ply 1 with a colour mismatch, and records
      the ply's squares but no list of legal moves. */
  lemma SmotheredMateFailsAtSecondPly()
    ensures Validation(Smothered)
            == ValidationResult("puzzle-007", false, [WrongColor(1, White, Black)],
                                Some(1), Some(Coord(6, 7)), Some(Coord(6, 7)), None)
  {
    OneKingEach();
    SmotheredReplay();
  }
}
