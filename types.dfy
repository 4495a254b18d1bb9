/**
 * The records shared by the engine, the validator and the content store
 * (data/types.ts), as closed datatypes.
 */
module Types {
  import opened Wrappers
  import opened Coords

  datatype Color = White | Black

  datatype PieceType = King | Queen | Rook | Bishop | Knight | Pawn

  /** A piece standing on square (x, y); positions are flat lists of these. */
  datatype Piece = Piece(kind: PieceType, color: Color, x: int, y: int)

  /** The four promotion choices 'Q', 'R', 'B' and 'N'. */
  datatype Promotion = ToQueen | ToRook | ToBishop | ToKnight

  /** One ply of a puzzle's solution line, with the side expected to play it. */
  datatype LineMove = LineMove(side: Color, from: Coord, to: Coord, promo: Option<Promotion>)

  /** The objective's type is a string ('mate' is the only one the data uses). */
  datatype Objective = Objective(kind: string, depth: int)

  type PuzzleSize = s: int | 5 <= s <= 8 witness 5

  type Difficulty = d: int | 1 <= d <= 5 witness 1

  datatype Puzzle = Puzzle(
    id: string,
    title: string,
    pack: string,
    size: PuzzleSize,
    difficulty: Difficulty,
    turn: Color,
    pieces: seq<Piece>,
    objective: Objective,
    line: seq<LineMove>)
}
