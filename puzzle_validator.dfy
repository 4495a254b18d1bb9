/**
 * The puzzle validator of utils/puzzleValidator.ts: a puzzle passes when
 * each colour has exactly one king, every ply of its solution line is
 * played by the side to move and is one of the engine's legal moves from
 * the replayed position, and (for a mate objective) the final position is
 * checkmate. The replay is a method with the source's loop, proved equal to
 * the recursive replay `Replay` below; the properties are lemmas about it.
 * Error messages are modelled as values carrying the same data.
 */
module PuzzleValidator {
  import opened Wrappers
  import opened Coords
  import opened Types
  import opened Seqs
  import opened ChessLogic
  import opened ChessLemmas
  import opened ChessSelfTest

  datatype ValidationError =
    | KingCount(color: Color, count: nat)                 // not exactly one king of a colour
    | WrongSide(index: nat, expected: Color, got: Color)  // ply played by the wrong side
    | NoPieceAt(index: nat, from: Coord)                  // nothing on the from-square
    | WrongColor(index: nat, pieceColor: Color, expected: Color) // the from-square holds the other side's piece
    | IllegalMove(index: nat, from: Coord, to: Coord)     // not among the legal moves
    | NotCheckmate(side: Color)                           // final position is not mate

  datatype ValidationResult = ValidationResult(
    puzzleId: string,
    passed: bool,
    errors: seq<ValidationError>,
    failingMoveIndex: Option<nat>,
    failingMoveFrom: Option<Coord>,
    failingMoveTo: Option<Coord>,
    failingMoveLegalMoves: Option<seq<Move>>)

  datatype ValidationReport = ValidationReport(
    selfTestPassed: bool,
    selfTestErrors: seq<SelfTestError>,
    totalPuzzles: nat,
    passedPuzzles: nat,
    failedPuzzles: seq<ValidationResult>)

  /** Why the replay stopped at ply `index`; the legal moves from the
      from-square are recorded for an illegal move only. */
  datatype Failure = Failure(error: ValidationError, index: nat, from: Coord, to: Coord,
                             legalFromSquare: Option<seq<Move>>)

  datatype Outcome = Finished(pieces: seq<Piece>, side: Color) | Failed(failure: Failure)

  // ---------------------------------------------------------------------
  // Specification

  /** The kings of one colour, in list order. */
  function Kings(pieces: seq<Piece>, color: Color): seq<Piece> {
    if pieces == [] then []
    else Kings(pieces[..|pieces| - 1], color)
         + (var q := pieces[|pieces| - 1]; if q.kind == King && q.color == color then [q] else [])
  }

  /** The kings counted are exactly the kings of that colour on the board. */
  lemma {:induction false} KingsMembers(pieces: seq<Piece>, color: Color)
    ensures forall q :: q in Kings(pieces, color) <==> q in pieces && q.kind == King && q.color == color
  {
    if pieces != [] {
      var init := pieces[..|pieces| - 1];
      KingsMembers(init, color);
      assert pieces == init + [pieces[|pieces| - 1]];
    }
  }

  function KingErrors(pieces: seq<Piece>): seq<ValidationError> {
    var whites, blacks := |Kings(pieces, White)|, |Kings(pieces, Black)|;
    (if whites != 1 then [KingCount(White, whites)] else [])
    + (if blacks != 1 then [KingCount(Black, blacks)] else [])
  }

  function AsMove(lm: LineMove): Move {
    Move(lm.from, lm.to, lm.promo)
  }

  /** The engine lists this ply: same squares, same promotion or none on both. */
  predicate IsListed(legal: seq<Move>, lm: LineMove) {
    exists m :: m in legal && m.from == lm.from && m.to == lm.to && m.promo == lm.promo
  }

  /** The verdict on ply i played from `pieces` with `side` to move. */
  function PlyFailure(pieces: seq<Piece>, side: Color, lm: LineMove, size: int, i: nat): Option<Failure> {
    if lm.side != side then Some(Failure(WrongSide(i, side, lm.side), i, lm.from, lm.to, None))
    else match GetPieceAt(pieces, lm.from.x, lm.from.y)
      case None => Some(Failure(NoPieceAt(i, lm.from), i, lm.from, lm.to, None))
      case Some(piece) =>
        if piece.color != lm.side then Some(Failure(WrongColor(i, piece.color, lm.side), i, lm.from, lm.to, None))
        else
          var legal := LegalMoves(pieces, size, side);
          if !IsListed(legal, lm) then
            Some(Failure(IllegalMove(i, lm.from, lm.to), i, lm.from, lm.to, Some(MovesFrom(legal, lm.from))))
          else None
  }

  /** Replays the line from ply i: stops at the first rejected ply, else
      returns the final position and the side to move in it. */
  function Replay(pieces: seq<Piece>, side: Color, line: seq<LineMove>, size: int, i: nat): Outcome
    requires i <= |line|
    decreases |line| - i
  {
    if i == |line| then Finished(pieces, side)
    else match PlyFailure(pieces, side, line[i], size, i)
      case Some(f) => Failed(f)
      case None => Replay(Applied(pieces, AsMove(line[i]), size), Opponent(side), line, size, i + 1)
  }

  /** An accepted ply is played and the replay goes on from the next one. */
  lemma ReplayAccepts(pieces: seq<Piece>, side: Color, line: seq<LineMove>, size: int, i: nat)
    requires i < |line| && PlyFailure(pieces, side, line[i], size, i).None?
    ensures Replay(pieces, side, line, size, i)
            == Replay(Applied(pieces, AsMove(line[i]), size), Opponent(side), line, size, i + 1)
  {
  }

  /** A rejected ply ends the replay with its failure. */
  lemma ReplayRejects(pieces: seq<Piece>, side: Color, line: seq<LineMove>, size: int, i: nat, f: Failure)
    requires i < |line| && PlyFailure(pieces, side, line[i], size, i) == Some(f)
    ensures Replay(pieces, side, line, size, i) == Failed(f)
  {
  }

  /** The position (and side to move) after playing plies i..j-1 unchecked. */
  function Advance(pieces: seq<Piece>, side: Color, line: seq<LineMove>, size: int, i: nat, j: nat): (seq<Piece>, Color)
    requires i <= j <= |line|
    decreases j - i
  {
    if i == j then (pieces, side)
    else Advance(Applied(pieces, AsMove(line[i]), size), Opponent(side), line, size, i + 1, j)
  }

  /** The result of validating one puzzle. */
  function Validation(puzzle: Puzzle): ValidationResult {
    var kingErrors := KingErrors(puzzle.pieces);
    if kingErrors != [] then ValidationResult(puzzle.id, false, kingErrors, None, None, None, None)
    else match Replay(puzzle.pieces, puzzle.turn, puzzle.line, puzzle.size, 0)
      case Failed(f) =>
        ValidationResult(puzzle.id, false, [f.error], Some(f.index), Some(f.from), Some(f.to), f.legalFromSquare)
      case Finished(final, side) =>
        var errors := if puzzle.objective.kind == "mate" && !IsCheckmate(final, puzzle.size, side)
                      then [NotCheckmate(side)] else [];
        ValidationResult(puzzle.id, errors == [], errors, None, None, None, None)
  }

  /** The result of each puzzle, in order. */
  function Results(puzzles: seq<Puzzle>): seq<ValidationResult> {
    if puzzles == [] then []
    else Results(puzzles[..|puzzles| - 1]) + [Validation(puzzles[|puzzles| - 1])]
  }

  /** The results that did not pass, in order. */
  function Failing(results: seq<ValidationResult>): seq<ValidationResult> {
    if results == [] then []
    else
      var r := results[|results| - 1];
      Failing(results[..|results| - 1]) + (if r.passed then [] else [r])
  }

  function PassedCount(results: seq<ValidationResult>): nat {
    if results == [] then 0
    else PassedCount(results[..|results| - 1]) + (if results[|results| - 1].passed then 1 else 0)
  }

  // ---------------------------------------------------------------------
  // Implementation

  method ValidatePuzzle(puzzle: Puzzle) returns (result: ValidationResult)
    ensures result == Validation(puzzle)
  {
    var errors := KingErrors(puzzle.pieces);
    if errors != [] {
      return ValidationResult(puzzle.id, false, errors, None, None, None, None);
    }
    var currentPieces, currentSide, failure := ReplayLine(puzzle);
    if failure.Some? {
      var f := failure.value;
      return ValidationResult(puzzle.id, false, [f.error], Some(f.index), Some(f.from), Some(f.to), f.legalFromSquare);
    }
    if puzzle.objective.kind == "mate" {
      if !IsCheckmate(currentPieces, puzzle.size, currentSide) {
        errors := errors + [NotCheckmate(currentSide)];
      }
    }
    result := ValidationResult(puzzle.id, errors == [], errors, None, None, None, None);
  }

  /** The replay loop of the validator: the final position and side to move,
      or the first rejected ply. */
  method ReplayLine(puzzle: Puzzle) returns (currentPieces: seq<Piece>, currentSide: Color, failure: Option<Failure>)
    ensures Replay(puzzle.pieces, puzzle.turn, puzzle.line, puzzle.size, 0)
            == if failure.Some? then Failed(failure.value) else Finished(currentPieces, currentSide)
  {
    currentPieces := puzzle.pieces;
    currentSide := puzzle.turn;
    failure := None;
    ghost var outcome := Replay(puzzle.pieces, puzzle.turn, puzzle.line, puzzle.size, 0);
    var i := 0;
    while i < |puzzle.line|
      invariant 0 <= i <= |puzzle.line|
      invariant Replay(currentPieces, currentSide, puzzle.line, puzzle.size, i) == outcome
      invariant failure.None?
      decreases |puzzle.line| - i
    {
      var lineMove := puzzle.line[i];
      failure := CheckPly(currentPieces, currentSide, lineMove, puzzle.size, i);
      if failure.Some? {
        ReplayRejects(currentPieces, currentSide, puzzle.line, puzzle.size, i, failure.value);
        break;
      }
      ReplayAccepts(currentPieces, currentSide, puzzle.line, puzzle.size, i);
      ghost var next := Applied(currentPieces, AsMove(lineMove), puzzle.size);
      ghost var nextSide := Opponent(currentSide);
      currentPieces := ApplyMove(currentPieces, AsMove(lineMove), puzzle.size);
      currentSide := if currentSide == White then Black else White;
      assert currentPieces == next && currentSide == nextSide;
      i := i + 1;
    }
  }

  /** The four checks on one ply, in the source's order: side to move, a
      piece on the from-square, its colour, then legality. */
  method CheckPly(currentPieces: seq<Piece>, currentSide: Color, lineMove: LineMove, size: int, i: nat)
    returns (failure: Option<Failure>)
    ensures failure == PlyFailure(currentPieces, currentSide, lineMove, size, i)
  {
    if lineMove.side != currentSide {
      return Some(Failure(WrongSide(i, currentSide, lineMove.side), i, lineMove.from, lineMove.to, None));
    }
    var piece := GetPieceAt(currentPieces, lineMove.from.x, lineMove.from.y);
    if piece.None? {
      return Some(Failure(NoPieceAt(i, lineMove.from), i, lineMove.from, lineMove.to, None));
    }
    if piece.value.color != lineMove.side {
      return Some(Failure(WrongColor(i, piece.value.color, lineMove.side), i, lineMove.from, lineMove.to, None));
    }
    var legalMoves := GenerateLegalMoves(currentPieces, size, currentSide);
    var legalMovesFromSquare := MovesFrom(legalMoves, lineMove.from);
    if !IsListed(legalMoves, lineMove) {
      return Some(Failure(IllegalMove(i, lineMove.from, lineMove.to), i, lineMove.from, lineMove.to,
                          Some(legalMovesFromSquare)));
    }
    return None;
  }

  method ValidateAllPuzzles(puzzles: seq<Puzzle>, dev: bool) returns (report: ValidationReport)
    ensures report.selfTestErrors == (if dev then SelfTestErrors() else [])
    ensures report.selfTestPassed <==> report.selfTestErrors == []
    ensures report.totalPuzzles == |puzzles|
    ensures report.passedPuzzles == PassedCount(Results(puzzles))
    ensures report.failedPuzzles == Failing(Results(puzzles))
  {
    var selfTestPassed, selfTestErrors := RunChessLogicSelfTest(dev);
    var passedCount, failedPuzzles := Tally(puzzles);
    report := ValidationReport(selfTestPassed, selfTestErrors, |puzzles|, passedCount, failedPuzzles);
  }

  /** The loop over the puzzles: counts the passes, collects the failures. */
  method Tally(puzzles: seq<Puzzle>) returns (passedCount: nat, failedPuzzles: seq<ValidationResult>)
    ensures passedCount == PassedCount(Results(puzzles))
    ensures failedPuzzles == Failing(Results(puzzles))
  {
    failedPuzzles := [];
    passedCount := 0;
    for i := 0 to |puzzles|
      invariant failedPuzzles == Failing(Results(puzzles[..i]))
      invariant passedCount == PassedCount(Results(puzzles[..i]))
    {
      var result := ValidatePuzzle(puzzles[i]);
      ghost var done := Results(puzzles[..i]);
      assert puzzles[..i + 1][..i] == puzzles[..i];
      assert Results(puzzles[..i + 1]) == done + [result];
      assert (done + [result])[..|done|] == done;
      if result.passed {
        passedCount := passedCount + 1;
      } else {
        failedPuzzles := failedPuzzles + [result];
      }
    }
    assert puzzles[..|puzzles|] == puzzles;
  }

  // ---------------------------------------------------------------------
  // Properties

  /** The replay finishes exactly when every ply is accepted in the position
      reached by the plies before it, and it then ends in the position
      reached by the whole line. */
  lemma {:induction false} ReplayFinishes(pieces: seq<Piece>, side: Color, line: seq<LineMove>, size: int, i: nat)
    requires i <= |line|
    ensures Replay(pieces, side, line, size, i).Finished? <==>
              forall j :: i <= j < |line| ==>
                var (at, turn) := Advance(pieces, side, line, size, i, j);
                PlyFailure(at, turn, line[j], size, j).None?
    ensures Replay(pieces, side, line, size, i).Finished? ==>
              var r := Replay(pieces, side, line, size, i);
              (r.pieces, r.side) == Advance(pieces, side, line, size, i, |line|)
    decreases |line| - i
  {
    if i < |line| {
      var next, nextSide := Applied(pieces, AsMove(line[i]), size), Opponent(side);
      ReplayFinishes(next, nextSide, line, size, i + 1);
      forall j | i < j <= |line|
        ensures Advance(pieces, side, line, size, i, j) == Advance(next, nextSide, line, size, i + 1, j)
      {
      }
      assert Advance(pieces, side, line, size, i, i) == (pieces, side);
    }
  }

  /** When the replay stops, it stops at the first rejected ply, with that
      ply's verdict; every earlier ply was accepted. */
  lemma {:induction false} ReplayStopsAtFirstRejection(pieces: seq<Piece>, side: Color, line: seq<LineMove>, size: int, i: nat)
    requires i <= |line|
    requires Replay(pieces, side, line, size, i).Failed?
    ensures var f := Replay(pieces, side, line, size, i).failure;
            && i <= f.index < |line|
            && (var (at, turn) := Advance(pieces, side, line, size, i, f.index);
                PlyFailure(at, turn, line[f.index], size, f.index) == Some(f))
            && forall j :: i <= j < f.index ==>
                 var (at, turn) := Advance(pieces, side, line, size, i, j);
                 PlyFailure(at, turn, line[j], size, j).None?
    decreases |line| - i
  {
    var next, nextSide := Applied(pieces, AsMove(line[i]), size), Opponent(side);
    if PlyFailure(pieces, side, line[i], size, i).None? {
      ReplayStopsAtFirstRejection(next, nextSide, line, size, i + 1);
      var f := Replay(pieces, side, line, size, i).failure;
      forall j | i < j <= f.index
        ensures Advance(pieces, side, line, size, i, j) == Advance(next, nextSide, line, size, i + 1, j)
      {
      }
    } else {
      assert Advance(pieces, side, line, size, i, i) == (pieces, side);
    }
  }

  /** Where at most one piece stands on each square, a ply is accepted
      exactly when it is played by the side to move and is one of the
      engine's legal moves. */
  lemma AcceptedIffLegal(pieces: seq<Piece>, side: Color, lm: LineMove, size: int, i: nat)
    requires NoOverlap(pieces)
    ensures PlyFailure(pieces, side, lm, size, i).None? <==>
              lm.side == side && AsMove(lm) in LegalMoves(pieces, size, side)
  {
    LegalMovesExactly(pieces, size, side);
    var m := AsMove(lm);
    if lm.side == side && m in LegalMoves(pieces, size, side) {
      PseudoLegalTraits(pieces, size, side, m);
      var k :| 0 <= k < |pieces| && pieces[k].color == side && m.from == Square(pieces[k]);
      PieceOnOwnSquare(pieces, k);
    }
    if PlyFailure(pieces, side, lm, size, i).None? {
      var legal := LegalMoves(pieces, size, side);
      var w :| w in legal && w.from == lm.from && w.to == lm.to && w.promo == lm.promo;
      assert w == m;
    }
  }

  /** On every board size a puzzle can have, a pawn move onto the last rank
      carries a promotion: the double step never reaches it. */
  lemma PawnOntoLastRankPromotes(pieces: seq<Piece>, p: Piece, size: PuzzleSize, m: Move)
    requires p.kind == Pawn && m in PieceMoves(pieces, p, size) && m.to.y == LastRank(p.color, size)
    ensures m.promo.Some?
  {
    PawnMovesExactly(pieces, p, size, m);
  }

  /** A pawn move onto the last rank is rejected unless it names its
      promotion, on every board size a puzzle can have. */
  lemma PromotionMustBeNamed(pieces: seq<Piece>, side: Color, lm: LineMove, size: PuzzleSize, i: nat)
    requires NoOverlap(pieces)
    requires GetPieceAt(pieces, lm.from.x, lm.from.y).Some?
    requires GetPieceAt(pieces, lm.from.x, lm.from.y).value.kind == Pawn
    requires lm.to.y == LastRank(side, size) && lm.promo.None?
    ensures PlyFailure(pieces, side, lm, size, i).Some?
  {
    var m := AsMove(lm);
    AcceptedIffLegal(pieces, side, lm, size, i);
    if m in LegalMoves(pieces, size, side) {
      LegalMovesExactly(pieces, size, side);
      MovesOfFirstMembers(pieces, size, side, |pieces|, m);
      var k :| 0 <= k < |pieces| && pieces[k].color == side && m in PieceMoves(pieces, pieces[k], size);
      PieceMovesLand(pieces, pieces[k], size, m);
      PieceOnOwnSquare(pieces, k);
      assert GetPieceAt(pieces, lm.from.x, lm.from.y) == Some(pieces[k]);
      PawnOntoLastRankPromotes(pieces, pieces[k], size, m);
    }
  }

  /** A puzzle passes exactly when each colour has one king, every ply of the
      line is accepted in the position the earlier plies lead to, and, for a
      mate objective, the side to move at the end is checkmated. */
  lemma PassesExactly(puzzle: Puzzle)
    ensures var (final, side) := Advance(puzzle.pieces, puzzle.turn, puzzle.line, puzzle.size, 0, |puzzle.line|);
            Validation(puzzle).passed <==>
              && |Kings(puzzle.pieces, White)| == 1 && |Kings(puzzle.pieces, Black)| == 1
              && (forall j :: 0 <= j < |puzzle.line| ==>
                    var (at, turn) := Advance(puzzle.pieces, puzzle.turn, puzzle.line, puzzle.size, 0, j);
                    PlyFailure(at, turn, puzzle.line[j], puzzle.size, j).None?)
              && (puzzle.objective.kind == "mate" ==> IsCheckmate(final, puzzle.size, side))
    ensures Validation(puzzle).passed <==> Validation(puzzle).errors == []
  {
    ReplayFinishes(puzzle.pieces, puzzle.turn, puzzle.line, puzzle.size, 0);
  }

  /** A failed ply is reported with its index, squares and error; the legal
      moves from its square are attached exactly for an illegal move. */
  lemma FailureReport(puzzle: Puzzle)
    requires KingErrors(puzzle.pieces) == []
    requires Replay(puzzle.pieces, puzzle.turn, puzzle.line, puzzle.size, 0).Failed?
    ensures var r := Validation(puzzle);
            var f := Replay(puzzle.pieces, puzzle.turn, puzzle.line, puzzle.size, 0).failure;
            && !r.passed && r.errors == [f.error]
            && r.failingMoveIndex == Some(f.index) && f.index < |puzzle.line|
            && r.failingMoveFrom == Some(puzzle.line[f.index].from)
            && r.failingMoveTo == Some(puzzle.line[f.index].to)
            && (r.failingMoveLegalMoves.Some? <==> f.error.IllegalMove?)
            && (r.failingMoveLegalMoves.Some? ==>
                  var (at, turn) := Advance(puzzle.pieces, puzzle.turn, puzzle.line, puzzle.size, 0, f.index);
                  r.failingMoveLegalMoves.value == MovesFrom(LegalMoves(at, puzzle.size, turn), puzzle.line[f.index].from))
  {
    ReplayStopsAtFirstRejection(puzzle.pieces, puzzle.turn, puzzle.line, puzzle.size, 0);
    var f := Replay(puzzle.pieces, puzzle.turn, puzzle.line, puzzle.size, 0).failure;
    var (at, turn) := Advance(puzzle.pieces, puzzle.turn, puzzle.line, puzzle.size, 0, f.index);
    FailureFields(at, turn, puzzle.line[f.index], puzzle.size, f.index);
  }

  /** A rejected ply's failure names the ply, its squares, and (for an
      illegal move only) the legal moves from its from-square. */
  lemma FailureFields(pieces: seq<Piece>, side: Color, lm: LineMove, size: int, i: nat)
    requires PlyFailure(pieces, side, lm, size, i).Some?
    ensures var f := PlyFailure(pieces, side, lm, size, i).value;
            && f.index == i && f.from == lm.from && f.to == lm.to
            && (f.legalFromSquare.Some? <==> f.error.IllegalMove?)
            && (f.legalFromSquare.Some? ==> f.legalFromSquare.value == MovesFrom(LegalMoves(pieces, size, side), lm.from))
  {
  }

  /** Every puzzle is counted once: as passed or among the failures. */
  lemma {:induction false} ReportAccounts(results: seq<ValidationResult>)
    ensures PassedCount(results) + |Failing(results)| == |results|
  {
    if results != [] {
      ReportAccounts(results[..|results| - 1]);
    }
  }

  /** The failures are exactly the results that did not pass, in order. */
  lemma {:induction false} FailingExactly(results: seq<ValidationResult>)
    ensures forall r :: r in Failing(results) <==> r in results && !r.passed
    ensures IsSublist(Failing(results), results)
  {
    if results != [] {
      var init, last := results[..|results| - 1], results[|results| - 1];
      FailingExactly(init);
      assert results == init + [last];
      if last.passed {
        assert Failing(results) == Failing(init);
        SublistGrow(Failing(init), init, last);
      } else {
        SublistBoth(Failing(init), init, last);
      }
    }
  }

  /** `Results` with the validation of one puzzle left abstract. */
  function EachResult(puzzles: seq<Puzzle>, f: Puzzle -> ValidationResult): seq<ValidationResult> {
    if puzzles == [] then []
    else EachResult(puzzles[..|puzzles| - 1], f) + [f(puzzles[|puzzles| - 1])]
  }

  lemma {:induction false} EachResultInOrder(puzzles: seq<Puzzle>, f: Puzzle -> ValidationResult, k: nat)
    requires k < |puzzles|
    ensures |EachResult(puzzles, f)| == |puzzles| && EachResult(puzzles, f)[k] == f(puzzles[k])
  {
    var n := |puzzles| - 1;
    var init := puzzles[..n];
    if k < n {
      EachResultInOrder(init, f, k);
      assert init[k] == puzzles[k];
    } else if n > 0 {
      EachResultInOrder(init, f, 0);
    }
  }

  lemma {:induction false} ResultsEach(puzzles: seq<Puzzle>)
    ensures Results(puzzles) == EachResult(puzzles, p => Validation(p))
  {
    if puzzles != [] {
      ResultsEach(puzzles[..|puzzles| - 1]);
    }
  }

  lemma ResultsInOrder(puzzles: seq<Puzzle>, k: nat)
    requires k < |puzzles|
    ensures |Results(puzzles)| == |puzzles| && Results(puzzles)[k] == Validation(puzzles[k])
  {
    ResultsEach(puzzles);
    EachResultInOrder(puzzles, p => Validation(p), k);
  }

  lemma {:induction false} ResultsLength(puzzles: seq<Puzzle>)
    ensures |Results(puzzles)| == |puzzles|
  {
    if puzzles != [] {
      ResultsLength(puzzles[..|puzzles| - 1]);
    }
  }
}
