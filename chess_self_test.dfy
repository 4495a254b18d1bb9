/**
 * The development self-test of utils/chessLogic.ts: five fixed positions
 * checked against the move generator. Outside development builds it reports
 * success without running. The failures it reports are modelled as values
 * rather than message strings.
 */
module ChessSelfTest {
  import opened Wrappers
  import opened Coords
  import opened Types
  import opened ChessLogic
  import opened ChessLemmas

  datatype SelfTestError =
    | KingMoveCount(got: int)      // test 1: a lone king should have 8 legal moves
    | KingMissing(to: Coord)       // test 1: a lone king should reach this square
    | RookMoveCount(got: int)      // test 2: a lone rook in the corner should have 14 moves
    | WhitePawnForward             // test 3: a white pawn advances towards higher ranks
    | BlackPawnForward             // test 4: a black pawn advances towards lower ranks
    | MateNotRecognised            // test 5: the position after the mating move is not mate

  const LoneKing := [Piece(King, White, 3, 3)]
  const LoneRook := [Piece(Rook, White, 0, 0)]
  const WhitePawn := [Piece(Pawn, White, 0, 1)]
  const BlackPawn := [Piece(Pawn, Black, 0, 6)]
  const MateSetup := [Piece(King, White, 0, 0), Piece(Rook, White, 0, 6), Piece(King, Black, 7, 7)]
  const MateMove := Move(Coord(0, 6), Coord(7, 6), None)

  predicate ReachesSquare(moves: seq<Move>, x: int, y: int) {
    exists m :: m in moves && m.to == Coord(x, y)
  }

  function KingErrors(kingMoves: seq<Move>): seq<SelfTestError> {
    (if |kingMoves| != 8 then [KingMoveCount(|kingMoves|)] else [])
    + (if !ReachesSquare(kingMoves, 2, 3) then [KingMissing(Coord(2, 3))] else [])
    + (if !ReachesSquare(kingMoves, 3, 2) then [KingMissing(Coord(3, 2))] else [])
  }

  /** The failures the five tests report, in order, given what the generator
      returned for each test position. */
  function Report(kingMoves: seq<Move>, rookMoves: seq<Move>, whiteMoves: seq<Move>, blackMoves: seq<Move>,
                  mated: bool): seq<SelfTestError>
  {
    KingErrors(kingMoves)
    + (if |rookMoves| != 14 then [RookMoveCount(|rookMoves|)] else [])
    + (if !ReachesSquare(whiteMoves, 0, 2) || !ReachesSquare(whiteMoves, 0, 3) then [WhitePawnForward] else [])
    + (if !ReachesSquare(blackMoves, 0, 5) || !ReachesSquare(blackMoves, 0, 4) then [BlackPawnForward] else [])
    + (if !mated then [MateNotRecognised] else [])
  }

  function SelfTestErrors(): seq<SelfTestError> {
    Report(LegalMoves(LoneKing, 8, White), PseudoLegalMoves(LoneRook, 8, White),
           PseudoLegalMoves(WhitePawn, 8, White), PseudoLegalMoves(BlackPawn, 8, Black),
           IsCheckmate(Applied(MateSetup, MateMove, 8), 8, Black))
  }

  method RunChessLogicSelfTest(dev: bool) returns (passed: bool, errors: seq<SelfTestError>)
    ensures errors == (if dev then SelfTestErrors() else [])
    ensures passed <==> errors == []
  {
    if !dev {
      return true, [];
    }
    var kingMoves := GenerateLegalMoves(LoneKing, 8, White);
    var rookMoves := GeneratePseudoLegalMoves(LoneRook, 8, White);
    var whiteMoves := GeneratePseudoLegalMoves(WhitePawn, 8, White);
    var blackMoves := GeneratePseudoLegalMoves(BlackPawn, 8, Black);
    var afterMate := ApplyMove(MateSetup, MateMove, 8);
    var mated := IsCheckmate(afterMate, 8, Black);
    errors := Collect(kingMoves, rookMoves, whiteMoves, blackMoves, mated);
    passed := errors == [];
  }

  /** The checks of the five tests, one after another. */
  method Collect(kingMoves: seq<Move>, rookMoves: seq<Move>, whiteMoves: seq<Move>, blackMoves: seq<Move>,
                 mated: bool) returns (errors: seq<SelfTestError>)
    ensures errors == Report(kingMoves, rookMoves, whiteMoves, blackMoves, mated)
  {
    errors := CheckLoneKing(kingMoves);
    ghost var e := KingErrors(kingMoves);
    if |rookMoves| != 14 {
      errors := errors + [RookMoveCount(|rookMoves|)];
    }
    e := e + (if |rookMoves| != 14 then [RookMoveCount(|rookMoves|)] else []);
    assert errors == e;
    if !ReachesSquare(whiteMoves, 0, 2) || !ReachesSquare(whiteMoves, 0, 3) {
      errors := errors + [WhitePawnForward];
    }
    e := e + (if !ReachesSquare(whiteMoves, 0, 2) || !ReachesSquare(whiteMoves, 0, 3) then [WhitePawnForward] else []);
    assert errors == e;
    if !ReachesSquare(blackMoves, 0, 5) || !ReachesSquare(blackMoves, 0, 4) {
      errors := errors + [BlackPawnForward];
    }
    e := e + (if !ReachesSquare(blackMoves, 0, 5) || !ReachesSquare(blackMoves, 0, 4) then [BlackPawnForward] else []);
    assert errors == e;
    if !mated {
      errors := errors + [MateNotRecognised];
    }
  }

  /** The checks of test 1 on the lone king's moves. */
  method CheckLoneKing(kingMoves: seq<Move>) returns (errors: seq<SelfTestError>)
    ensures errors == KingErrors(kingMoves)
  {
    errors := [];
    if |kingMoves| != 8 {
      errors := errors + [KingMoveCount(|kingMoves|)];
    }
    if !ReachesSquare(kingMoves, 2, 3) {
      errors := errors + [KingMissing(Coord(2, 3))];
    }
    if !ReachesSquare(kingMoves, 3, 2) {
      errors := errors + [KingMissing(Coord(3, 2))];
    }
  }

  // ---------------------------------------------------------------------
  // What the five tests find

  /** Test 1: a lone white king on (3, 3) of an 8x8 board has exactly its
      eight neighbouring squares as legal moves. */
  lemma LoneKingMoves()
    ensures |LegalMoves(LoneKing, 8, White)| == 8
    ensures ReachesSquare(LegalMoves(LoneKing, 8, White), 2, 3)
    ensures ReachesSquare(LegalMoves(LoneKing, 8, White), 3, 2)
  {
    UnopposedMovesAllLegal(LoneKing, 8, White);
    LoneKingPseudo();
  }

  lemma LoneKingPseudo()
    ensures var ks := PseudoLegalMoves(LoneKing, 8, White);
            |ks| == 8 && ReachesSquare(ks, 2, 3) && ReachesSquare(ks, 3, 2)
  {
    LonePieceMoves(Piece(King, White, 3, 3), 8);
    LoneKingSteps();
  }

  lemma LoneKingSteps()
    ensures var ks := KingMoves([Piece(King, White, 3, 3)], Piece(King, White, 3, 3), 8);
            |ks| == 8 && ReachesSquare(ks, 2, 3) && ReachesSquare(ks, 3, 2)
  {
    var ks := KingMoves([Piece(King, White, 3, 3)], Piece(King, White, 3, 3), 8);
    assert ks[0].to == Coord(2, 2) && ks[1].to == Coord(2, 3);
    assert ks[2].to == Coord(2, 4) && ks[3].to == Coord(3, 2);
  }

  /** Test 2: a lone rook in the corner of an empty 8x8 board has 14 moves. */
  lemma LoneRookMoves()
    ensures |PseudoLegalMoves(LoneRook, 8, White)| == 14
  {
    assert PseudoLegalMoves(LoneRook, 8, White)
        == SliderMoves([Piece(Rook, White, 0, 0)], Piece(Rook, White, 0, 0), 8);
    assert Directions(Rook) == [(1, 0), (-1, 0), (0, 1), (0, -1)];
    assert |Ray([Piece(Rook, White, 0, 0)], Piece(Rook, White, 0, 0), 8, 1, 0, 1, 0)| == 7;
    assert |Ray([Piece(Rook, White, 0, 0)], Piece(Rook, White, 0, 0), 8, 0, 1, 0, 1)| == 7;
    assert |Ray([Piece(Rook, White, 0, 0)], Piece(Rook, White, 0, 0), 8, -1, 0, -1, 0)| == 0;
    assert |Ray([Piece(Rook, White, 0, 0)], Piece(Rook, White, 0, 0), 8, 0, -1, 0, -1)| == 0;
    assert |Rays([Piece(Rook, White, 0, 0)], Piece(Rook, White, 0, 0), 8, [(1, 0)])| == 7;
    assert |Rays([Piece(Rook, White, 0, 0)], Piece(Rook, White, 0, 0), 8, [(1, 0), (-1, 0)])| == 7;
    assert |Rays([Piece(Rook, White, 0, 0)], Piece(Rook, White, 0, 0), 8, [(1, 0), (-1, 0), (0, 1)])| == 14;
    assert [(1, 0), (-1, 0), (0, 1), (0, -1)][..3] == [(1, 0), (-1, 0), (0, 1)];
  }

  /** Tests 3 and 4: pawns on their start ranks advance one or two squares,
      white towards higher ranks and black towards lower ones. */
  lemma PawnDirections()
    ensures PseudoLegalMoves(WhitePawn, 8, White)
         == [Move(Coord(0, 1), Coord(0, 2), None), Move(Coord(0, 1), Coord(0, 3), None)]
    ensures PseudoLegalMoves(BlackPawn, 8, Black)
         == [Move(Coord(0, 6), Coord(0, 5), None), Move(Coord(0, 6), Coord(0, 4), None)]
  {
    assert PseudoLegalMoves(WhitePawn, 8, White)
        == PawnMoves([Piece(Pawn, White, 0, 1)], Piece(Pawn, White, 0, 1), 8);
    assert PawnCaptures([Piece(Pawn, White, 0, 1)], Piece(Pawn, White, 0, 1), 8, [-1, 1]) == [];
    assert PseudoLegalMoves(BlackPawn, 8, Black)
        == PawnMoves([Piece(Pawn, Black, 0, 6)], Piece(Pawn, Black, 0, 6), 8);
    assert PawnCaptures([Piece(Pawn, Black, 0, 6)], Piece(Pawn, Black, 0, 6), 8, [-1, 1]) == [];
  }

  /** The position after the rook move of test 5. */
  const AfterMate := [Piece(King, White, 0, 0), Piece(King, Black, 7, 7), Piece(Rook, White, 7, 6)]

  /** The black king's escape from the rook's check. */
  const Escape := Move(Coord(7, 7), Coord(6, 7), None)

  /** The position after the escape. */
  const AfterEscape := [Piece(King, White, 0, 0), Piece(Rook, White, 7, 6), Piece(King, Black, 6, 7)]

  lemma MateMoveApplied()
    ensures Applied(MateSetup, MateMove, 8) == AfterMate
  {
    assert GetPieceAt(MateSetup, 0, 6) == Some(MateSetup[1]);
    VacateThree(MateSetup[0], MateSetup[1], MateSetup[2], Coord(0, 6), Coord(7, 6));
  }

  /** The escape is a pseudo-legal black move. */
  lemma EscapeIsPseudoLegal()
    ensures Escape in PseudoLegalMoves(AfterMate, 8, Black)
  {
    assert GetPieceAt(AfterMate, 6, 7).None?;
    KingMovesExactly(AfterMate, AfterMate[1], 8, Escape);
    MovesOfFirstMembers(AfterMate, 8, Black, |AfterMate|, Escape);
  }

  lemma EscapeApplied()
    ensures Applied(AfterMate, Escape, 8) == AfterEscape
  {
    assert GetPieceAt(AfterMate, 7, 7) == Some(AfterMate[1]);
    VacateThree(AfterMate[0], AfterMate[1], AfterMate[2], Coord(7, 7), Coord(6, 7));
  }

  /** After the escape no white piece reaches the black king. */
  lemma EscapeIsSafe()
    ensures !IsInCheck(AfterEscape, 8, Black)
  {
    AttackedByPiece(AfterEscape, 8, Coord(6, 7), White);
    forall i, m | 0 <= i < |AfterEscape| && AfterEscape[i].color == White && m in PieceMoves(AfterEscape, AfterEscape[i], 8)
      ensures m.to != Coord(6, 7)
    {
      if i == 0 {
        KingMovesExactly(AfterEscape, AfterEscape[0], 8, m);
      } else {
        assert i == 1 && AfterEscape[1].kind == Rook;
        SliderGeometry(AfterEscape, AfterEscape[1], 8, m);
      }
    }
  }

  /** Test 5: the rook move to (7, 6) checks the black king on (7, 7), but the
      king escapes to (6, 7), so the position is not checkmate. */
  lemma MateSetupIsNotMate()
    ensures !IsCheckmate(Applied(MateSetup, MateMove, 8), 8, Black)
  {
    MateMoveApplied();
    EscapeIsPseudoLegal();
    EscapeApplied();
    EscapeIsSafe();
    CheckmateExactly(AfterMate, 8, Black);
  }

  /** In a development build the self-test reports exactly one failure: the
      position of test 5 is not checkmate. */
  lemma SelfTestOutcome()
    ensures SelfTestErrors() == [MateNotRecognised]
  {
    LoneKingMoves();
    LoneRookMoves();
    PawnDirections();
    assert PseudoLegalMoves(WhitePawn, 8, White)[0] in PseudoLegalMoves(WhitePawn, 8, White);
    assert PseudoLegalMoves(WhitePawn, 8, White)[1] in PseudoLegalMoves(WhitePawn, 8, White);
    assert PseudoLegalMoves(BlackPawn, 8, Black)[0] in PseudoLegalMoves(BlackPawn, 8, Black);
    assert PseudoLegalMoves(BlackPawn, 8, Black)[1] in PseudoLegalMoves(BlackPawn, 8, Black);
    MateSetupIsNotMate();
  }
}
