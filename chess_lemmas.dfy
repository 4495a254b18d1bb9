/**
 * What the move generator, the applier and the legal-move filter of
 * utils/chessLogic.ts promise, proved about the functions of ChessLogic.
 */
module ChessLemmas {
  import opened Wrappers
  import opened Coords
  import opened Types
  import opened Seqs
  import opened ChessLogic

  /** The piece found on square c. */
  function PieceOn(pieces: seq<Piece>, c: Coord): Option<Piece> {
    GetPieceAt(pieces, c.x, c.y)
  }

  // ---------------------------------------------------------------------
  // getPieceAt

  /** No piece is found exactly when no piece stands on the square. */
  lemma {:induction false} GetPieceAtNone(pieces: seq<Piece>, x: int, y: int)
    ensures GetPieceAt(pieces, x, y).None? <==> forall i :: 0 <= i < |pieces| ==> !IsAt(pieces[i], x, y)
  {
    if |pieces| > 0 {
      GetPieceAtNone(pieces[1..], x, y);
      assert forall i :: 1 <= i < |pieces| ==> pieces[i] == pieces[1..][i - 1];
    }
  }

  /** The piece found is the first one in list order standing on the square. */
  lemma {:induction false} GetPieceAtFirst(pieces: seq<Piece>, x: int, y: int, i: int)
    requires 0 <= i < |pieces| && IsAt(pieces[i], x, y)
    requires forall j :: 0 <= j < i ==> !IsAt(pieces[j], x, y)
    ensures GetPieceAt(pieces, x, y) == Some(pieces[i])
  {
    if i > 0 {
      assert forall j :: 0 <= j < i - 1 ==> pieces[1..][j] == pieces[j + 1];
      GetPieceAtFirst(pieces[1..], x, y, i - 1);
    }
  }

  /** A piece found is a piece of the list standing on the square. */
  lemma {:induction false} GetPieceAtSound(pieces: seq<Piece>, x: int, y: int)
    ensures GetPieceAt(pieces, x, y).Some? ==>
              GetPieceAt(pieces, x, y).value in pieces && IsAt(GetPieceAt(pieces, x, y).value, x, y)
  {
    if |pieces| > 0 && !IsAt(pieces[0], x, y) {
      GetPieceAtSound(pieces[1..], x, y);
    }
  }

  // ---------------------------------------------------------------------
  // Step moves, king and knight

  /** A move of p ends on the board, off p's own square, on a square that is
      empty or holds an opposing piece. */
  predicate Lands(pieces: seq<Piece>, p: Piece, size: int, m: Move) {
    m.from == Square(p) && m.to != Square(p) && CanLand(pieces, p.color, m.to.x, m.to.y, size)
  }

  predicate IsKingOffset(dx: int, dy: int) {
    -1 <= dx <= 1 && -1 <= dy <= 1 && (dx != 0 || dy != 0)
  }

  predicate IsKnightOffset(dx: int, dy: int) {
    ((dx == 1 || dx == -1) && (dy == 2 || dy == -2)) || ((dx == 2 || dx == -2) && (dy == 1 || dy == -1))
  }

  /** The moves of each offset in turn, with the moves of one offset left
      abstract: the shape shared by the knight's table and the slider's rays. */
  function PerOffset(offsets: seq<(int, int)>, f: (int, int) -> seq<Move>): seq<Move> {
    if offsets == [] then []
    else
      var (dx, dy) := offsets[|offsets| - 1];
      PerOffset(offsets[..|offsets| - 1], f) + f(dx, dy)
  }

  lemma {:induction false} PerOffsetMembers(offsets: seq<(int, int)>, f: (int, int) -> seq<Move>, m: Move)
    ensures m in PerOffset(offsets, f) <==> exists k :: 0 <= k < |offsets| && m in f(offsets[k].0, offsets[k].1)
  {
    if offsets != [] {
      var init := offsets[..|offsets| - 1];
      PerOffsetMembers(init, f, m);
      assert forall k :: 0 <= k < |init| ==> init[k] == offsets[k];
    }
  }

  /** The king's 3x3 scan with the step moves left abstract: the first k row
      offsets of column dx. */
  function ScanColumn(step: (int, int) -> seq<Move>, dx: int, k: nat): seq<Move>
    requires k <= 3
  {
    if k == 0 then [] else ScanColumn(step, dx, k - 1) + (if dx == 0 && k == 2 then [] else step(dx, k - 2))
  }

  function ScanRows(step: (int, int) -> seq<Move>, k: nat): seq<Move>
    requires k <= 3
  {
    if k == 0 then [] else ScanRows(step, k - 1) + ScanColumn(step, k - 2, 3)
  }

  lemma {:induction false} ScanColumnMembers(step: (int, int) -> seq<Move>, dx: int, k: nat, m: Move)
    requires k <= 3
    ensures m in ScanColumn(step, dx, k) <==>
              exists dy :: -1 <= dy <= k - 2 && (dx != 0 || dy != 0) && m in step(dx, dy)
  {
    if k > 0 {
      ScanColumnMembers(step, dx, k - 1, m);
    }
  }

  lemma {:induction false} ScanRowsMembers(step: (int, int) -> seq<Move>, k: nat, m: Move)
    requires k <= 3
    ensures m in ScanRows(step, k) <==>
              exists dx, dy :: -1 <= dx <= k - 2 && IsKingOffset(dx, dy) && m in step(dx, dy)
  {
    if k > 0 {
      ScanRowsMembers(step, k - 1, m);
      ScanColumnMembers(step, k - 2, 3, m);
      assert ScanRows(step, k) == ScanRows(step, k - 1) + ScanColumn(step, k - 2, 3);
      if m in ScanColumn(step, k - 2, 3) {
        var dy :| -1 <= dy <= 1 && (k - 2 != 0 || dy != 0) && m in step(k - 2, dy);
        assert IsKingOffset(k - 2, dy);
      }
      if exists dx, dy :: -1 <= dx <= k - 2 && IsKingOffset(dx, dy) && m in step(dx, dy) {
        var dx, dy :| -1 <= dx <= k - 2 && IsKingOffset(dx, dy) && m in step(dx, dy);
        if dx == k - 2 {
          assert m in ScanColumn(step, k - 2, 3);
        } else {
          assert m in ScanRows(step, k - 1);
        }
      }
    }
  }

  lemma {:induction false} KingColumnScans(pieces: seq<Piece>, p: Piece, size: int, dx: int, k: nat)
    requires k <= 3
    ensures KingColumn(pieces, p, size, dx, k) == ScanColumn((a, b) => StepMove(pieces, p, size, a, b), dx, k)
  {
    if k > 0 {
      KingColumnScans(pieces, p, size, dx, k - 1);
    }
  }

  lemma {:induction false} KingRowsScans(pieces: seq<Piece>, p: Piece, size: int, k: nat)
    requires k <= 3
    ensures KingRows(pieces, p, size, k) == ScanRows((a, b) => StepMove(pieces, p, size, a, b), k)
  {
    if k > 0 {
      KingRowsScans(pieces, p, size, k - 1);
      KingColumnScans(pieces, p, size, k - 2, 3);
    }
  }

  /** The king's moves are the step moves of its eight offsets. */
  lemma KingMovesSteps(pieces: seq<Piece>, p: Piece, size: int, m: Move)
    ensures m in KingMoves(pieces, p, size) <==>
              exists dx, dy :: IsKingOffset(dx, dy) && m in StepMove(pieces, p, size, dx, dy)
  {
    var step := (a, b) => StepMove(pieces, p, size, a, b);
    KingRowsScans(pieces, p, size, 3);
    ScanRowsMembers(step, 3, m);
    assert forall dx, dy :: step(dx, dy) == StepMove(pieces, p, size, dx, dy);
  }

  /** The king's moves are exactly its eight one-square steps that stay on
      the board and do not land on a piece of its own colour. */
  lemma KingMovesExactly(pieces: seq<Piece>, p: Piece, size: int, m: Move)
    ensures m in KingMoves(pieces, p, size) <==>
              m.from == Square(p) && m.promo.None? && IsKingOffset(m.to.x - p.x, m.to.y - p.y)
              && CanLand(pieces, p.color, m.to.x, m.to.y, size)
  {
    KingMovesSteps(pieces, p, size, m);
    if m in KingMoves(pieces, p, size) {
      var dx, dy :| IsKingOffset(dx, dy) && m in StepMove(pieces, p, size, dx, dy);
    }
    if m.from == Square(p) && m.promo.None? && IsKingOffset(m.to.x - p.x, m.to.y - p.y)
       && CanLand(pieces, p.color, m.to.x, m.to.y, size) {
      assert m in StepMove(pieces, p, size, m.to.x - p.x, m.to.y - p.y);
    }
  }

  /** The moves of an offset table are the step moves of its entries. */
  lemma {:induction false} OffsetMovesPerOffset(pieces: seq<Piece>, p: Piece, size: int, offsets: seq<(int, int)>)
    ensures OffsetMoves(pieces, p, size, offsets) == PerOffset(offsets, (a, b) => StepMove(pieces, p, size, a, b))
  {
    if offsets != [] {
      OffsetMovesPerOffset(pieces, p, size, offsets[..|offsets| - 1]);
    }
  }

  lemma OffsetMovesMembers(pieces: seq<Piece>, p: Piece, size: int, offsets: seq<(int, int)>, m: Move)
    ensures m in OffsetMoves(pieces, p, size, offsets) <==>
              exists k :: 0 <= k < |offsets| && m in StepMove(pieces, p, size, offsets[k].0, offsets[k].1)
  {
    var step := (a, b) => StepMove(pieces, p, size, a, b);
    OffsetMovesPerOffset(pieces, p, size, offsets);
    PerOffsetMembers(offsets, step, m);
    assert forall k :: 0 <= k < |offsets| ==>
             step(offsets[k].0, offsets[k].1) == StepMove(pieces, p, size, offsets[k].0, offsets[k].1);
  }

  /** The knight's moves are exactly its eight L-shaped jumps that stay on
      the board and do not land on a piece of its own colour. */
  lemma KnightMovesExactly(pieces: seq<Piece>, p: Piece, size: int, m: Move)
    ensures m in KnightMoves(pieces, p, size) <==>
              m.from == Square(p) && m.promo.None? && IsKnightOffset(m.to.x - p.x, m.to.y - p.y)
              && CanLand(pieces, p.color, m.to.x, m.to.y, size)
  {
    OffsetMovesMembers(pieces, p, size, KnightOffsets, m);
    if m in KnightMoves(pieces, p, size) {
      var k :| 0 <= k < 8 && m in StepMove(pieces, p, size, KnightOffsets[k].0, KnightOffsets[k].1);
    }
    if m.from == Square(p) && m.promo.None? && IsKnightOffset(m.to.x - p.x, m.to.y - p.y)
              && CanLand(pieces, p.color, m.to.x, m.to.y, size) {
      var dx, dy := m.to.x - p.x, m.to.y - p.y;
      var k := if dx == -2 then (if dy == -1 then 0 else 1)
               else if dx == -1 then (if dy == -2 then 2 else 3)
               else if dx == 1 then (if dy == -2 then 4 else 5)
               else (if dy == -1 then 6 else 7);
      assert KnightOffsets[k] == (dx, dy);
      assert m in StepMove(pieces, p, size, KnightOffsets[k].0, KnightOffsets[k].1);
    }
  }

  // ---------------------------------------------------------------------
  // Rays

  /** n moved i squares in direction d (d is -1, 0 or 1). */
  function Walk(n: int, d: int, i: int): int {
    if d > 0 then n + i else if d < 0 then n - i else n
  }

  /** The i-th square of the ray that starts at (nx, ny). */
  function RaySquare(nx: int, ny: int, dx: int, dy: int, i: int): Coord {
    Coord(Walk(nx, dx, i), Walk(ny, dy, i))
  }

  /** The ray's moves go, in order, to consecutive on-board squares of the
      line from (nx, ny) in direction (dx, dy). */
  lemma {:induction false} RayShape(pieces: seq<Piece>, p: Piece, size: int, dx: int, dy: int, nx: int, ny: int)
    requires IsUnit(dx, dy)
    ensures var r := Ray(pieces, p, size, dx, dy, nx, ny);
            forall i :: 0 <= i < |r| ==>
              r[i] == Move(Square(p), RaySquare(nx, ny, dx, dy, i), None) && IsOnBoard(r[i].to.x, r[i].to.y, size)
    decreases Span(nx, dx, size) + Span(ny, dy, size)
  {
    if IsOnBoard(nx, ny, size) && GetPieceAt(pieces, nx, ny).None? {
      RayShape(pieces, p, size, dx, dy, nx + dx, ny + dy);
      var r := Ray(pieces, p, size, dx, dy, nx, ny);
      assert forall i :: 1 <= i < |r| ==> RaySquare(nx + dx, ny + dy, dx, dy, i - 1) == RaySquare(nx, ny, dx, dy, i);
    }
  }

  /** The ray passes only empty squares: every square before its last one
      is empty. */
  lemma {:induction false} RayPassesEmpty(pieces: seq<Piece>, p: Piece, size: int, dx: int, dy: int, nx: int, ny: int)
    requires IsUnit(dx, dy)
    ensures var r := Ray(pieces, p, size, dx, dy, nx, ny);
            forall i :: 0 <= i < |r| - 1 ==> PieceOn(pieces, RaySquare(nx, ny, dx, dy, i)).None?
    decreases Span(nx, dx, size) + Span(ny, dy, size)
  {
    if IsOnBoard(nx, ny, size) && GetPieceAt(pieces, nx, ny).None? {
      var mx, my := nx + dx, ny + dy;
      RayPassesEmpty(pieces, p, size, dx, dy, mx, my);
      var r := Ray(pieces, p, size, dx, dy, nx, ny);
      var rest := Ray(pieces, p, size, dx, dy, mx, my);
      assert |r| == |rest| + 1;
      forall i | 0 <= i < |r| - 1
        ensures PieceOn(pieces, RaySquare(nx, ny, dx, dy, i)).None?
      {
        if i > 0 {
          assert RaySquare(mx, my, dx, dy, i - 1) == RaySquare(nx, ny, dx, dy, i);
        } else {
          assert RaySquare(nx, ny, dx, dy, 0) == Coord(nx, ny);
        }
      }
    }
  }

  /** A ray that ends on an occupied square ends on an opposing piece. */
  lemma RayEndsOnEnemy(pieces: seq<Piece>, p: Piece, size: int, dx: int, dy: int, nx: int, ny: int)
    requires IsUnit(dx, dy)
    ensures var r := Ray(pieces, p, size, dx, dy, nx, ny);
            var last := RaySquare(nx, ny, dx, dy, |r| - 1);
            |r| > 0 && PieceOn(pieces, last).Some? ==> PieceOn(pieces, last).value.color != p.color
  {
    var r := Ray(pieces, p, size, dx, dy, nx, ny);
    if |r| > 0 {
      RayShape(pieces, p, size, dx, dy, nx, ny);
      RayCanLand(pieces, p, size, dx, dy, nx, ny, r[|r| - 1]);
    }
  }

  /** A ray that ends on an empty square (or is empty) stops because the next
      square along the line is off the board or holds a piece of p's colour. */
  lemma {:induction false} RayStopsBefore(pieces: seq<Piece>, p: Piece, size: int, dx: int, dy: int, nx: int, ny: int)
    requires IsUnit(dx, dy)
    ensures var r := Ray(pieces, p, size, dx, dy, nx, ny);
            var next := RaySquare(nx, ny, dx, dy, |r|);
            |r| == 0 || PieceOn(pieces, RaySquare(nx, ny, dx, dy, |r| - 1)).None? ==>
              !IsOnBoard(next.x, next.y, size) || (PieceOn(pieces, next).Some? && PieceOn(pieces, next).value.color == p.color)
    decreases Span(nx, dx, size) + Span(ny, dy, size)
  {
    var r := Ray(pieces, p, size, dx, dy, nx, ny);
    assert RaySquare(nx, ny, dx, dy, 0) == Coord(nx, ny);
    if IsOnBoard(nx, ny, size) && GetPieceAt(pieces, nx, ny).None? {
      var mx, my := nx + dx, ny + dy;
      RayStopsBefore(pieces, p, size, dx, dy, mx, my);
      var rest := Ray(pieces, p, size, dx, dy, mx, my);
      assert |r| == |rest| + 1;
      assert RaySquare(mx, my, dx, dy, |rest|) == RaySquare(nx, ny, dx, dy, |r|);
      if |rest| > 0 {
        assert RaySquare(mx, my, dx, dy, |rest| - 1) == RaySquare(nx, ny, dx, dy, |r| - 1);
      }
    }
  }

  /** Every move of a ray lands on the board, off p's square, on an empty or
      opposing square, provided the ray starts one step from p. */
  lemma RayLands(pieces: seq<Piece>, p: Piece, size: int, dx: int, dy: int, m: Move)
    requires IsUnit(dx, dy)
    requires m in Ray(pieces, p, size, dx, dy, p.x + dx, p.y + dy)
    ensures Lands(pieces, p, size, m) && m.promo.None?
  {
    RayCanLand(pieces, p, size, dx, dy, p.x + dx, p.y + dy, m);
    var r := Ray(pieces, p, size, dx, dy, p.x + dx, p.y + dy);
    RayShape(pieces, p, size, dx, dy, p.x + dx, p.y + dy);
    var i :| 0 <= i < |r| && r[i] == m;
    assert m.to == RaySquare(p.x + dx, p.y + dy, dx, dy, i);
  }

  /** Every move of a ray starts on p's square and may land where it ends. */
  lemma {:induction false} RayCanLand(pieces: seq<Piece>, p: Piece, size: int, dx: int, dy: int, nx: int, ny: int, m: Move)
    requires IsUnit(dx, dy)
    requires m in Ray(pieces, p, size, dx, dy, nx, ny)
    ensures m.from == Square(p) && m.promo.None? && CanLand(pieces, p.color, m.to.x, m.to.y, size)
    decreases Span(nx, dx, size) + Span(ny, dy, size)
  {
    if m != Move(Square(p), Coord(nx, ny), None) {
      RayCanLand(pieces, p, size, dx, dy, nx + dx, ny + dy, m);
    }
  }

  /** The ray of p in direction (dx, dy), starting one step from p. */
  function RayFrom(pieces: seq<Piece>, p: Piece, size: int, dx: int, dy: int): seq<Move> {
    if IsUnit(dx, dy) then Ray(pieces, p, size, dx, dy, p.x + dx, p.y + dy) else []
  }

  lemma {:induction false} RaysPerOffset(pieces: seq<Piece>, p: Piece, size: int, dirs: seq<(int, int)>)
    requires forall i :: 0 <= i < |dirs| ==> IsUnit(dirs[i].0, dirs[i].1)
    ensures Rays(pieces, p, size, dirs) == PerOffset(dirs, (a, b) => RayFrom(pieces, p, size, a, b))
  {
    if dirs != [] {
      RaysPerOffset(pieces, p, size, dirs[..|dirs| - 1]);
    }
  }

  /** The moves of the rays in the given directions are the moves of each ray. */
  lemma RaysFromMembers(pieces: seq<Piece>, p: Piece, size: int, dirs: seq<(int, int)>, m: Move)
    requires forall i :: 0 <= i < |dirs| ==> IsUnit(dirs[i].0, dirs[i].1)
    ensures m in Rays(pieces, p, size, dirs) <==>
              exists k :: 0 <= k < |dirs| && m in RayFrom(pieces, p, size, dirs[k].0, dirs[k].1)
  {
    var f := (a, b) => RayFrom(pieces, p, size, a, b);
    RaysPerOffset(pieces, p, size, dirs);
    PerOffsetMembers(dirs, f, m);
    assert forall a, b :: f(a, b) == RayFrom(pieces, p, size, a, b);
  }

  /** A slider's moves are the moves of the rays in its directions: k is
      the direction whose ray holds m. */
  lemma RaysMembers(pieces: seq<Piece>, p: Piece, size: int, dirs: seq<(int, int)>, m: Move) returns (k: int)
    requires forall i :: 0 <= i < |dirs| ==> IsUnit(dirs[i].0, dirs[i].1)
    requires m in Rays(pieces, p, size, dirs)
    ensures 0 <= k < |dirs| && IsUnit(dirs[k].0, dirs[k].1)
    ensures m in Ray(pieces, p, size, dirs[k].0, dirs[k].1, p.x + dirs[k].0, p.y + dirs[k].1)
  {
    RaysFromMembers(pieces, p, size, dirs, m);
    k :| 0 <= k < |dirs| && m in RayFrom(pieces, p, size, dirs[k].0, dirs[k].1);
  }

  /** Conversely, every move of a ray in one of the directions is a slider move. */
  lemma RaysIncludes(pieces: seq<Piece>, p: Piece, size: int, dirs: seq<(int, int)>, k: int, m: Move)
    requires forall i :: 0 <= i < |dirs| ==> IsUnit(dirs[i].0, dirs[i].1)
    requires 0 <= k < |dirs|
    requires m in Ray(pieces, p, size, dirs[k].0, dirs[k].1, p.x + dirs[k].0, p.y + dirs[k].1)
    ensures m in Rays(pieces, p, size, dirs)
  {
    RaysFromMembers(pieces, p, size, dirs, m);
    assert m in RayFrom(pieces, p, size, dirs[k].0, dirs[k].1);
  }

  /** A slider moves along its lines: a rook keeps its file or its rank, a
      bishop moves as far across as along, a queen does one or the other. */
  lemma SliderGeometry(pieces: seq<Piece>, p: Piece, size: int, m: Move)
    requires p.kind == Queen || p.kind == Rook || p.kind == Bishop
    requires m in SliderMoves(pieces, p, size)
    ensures var dx, dy := m.to.x - p.x, m.to.y - p.y;
            var straight := dx == 0 || dy == 0;
            var diagonal := dx == dy || dx == -dy;
            (p.kind == Rook ==> straight) && (p.kind == Bishop ==> diagonal) && (straight || diagonal)
  {
    var dirs := Directions(p.kind);
    var k := RaysMembers(pieces, p, size, dirs, m);
    DirectionKinds(p.kind, k);
    RayLine(pieces, p, size, dirs[k].0, dirs[k].1, m);
  }

  /** A rook's directions keep a file or a rank, a bishop's are diagonal. */
  lemma DirectionKinds(kind: PieceType, k: int)
    requires 0 <= k < |Directions(kind)|
    ensures var (dx, dy) := Directions(kind)[k];
            (kind == Rook ==> dx == 0 || dy == 0) && (kind == Bishop ==> dx == dy || dx == -dy)
  {
    var dirs := Directions(kind);
    if kind == Rook {
      assert dirs == RookDirections;
    } else if kind == Bishop {
      assert dirs == BishopDirections;
    }
  }

  /** A ray's moves stay on its line through p. */
  lemma RayLine(pieces: seq<Piece>, p: Piece, size: int, dx: int, dy: int, m: Move)
    requires IsUnit(dx, dy)
    requires m in Ray(pieces, p, size, dx, dy, p.x + dx, p.y + dy)
    ensures var ex, ey := m.to.x - p.x, m.to.y - p.y;
            (dx == 0 ==> ex == 0) && (dy == 0 ==> ey == 0) && (dx == dy ==> ex == ey) && (dx == -dy ==> ex == -ey)
  {
    var r := Ray(pieces, p, size, dx, dy, p.x + dx, p.y + dy);
    RayShape(pieces, p, size, dx, dy, p.x + dx, p.y + dy);
    var i :| 0 <= i < |r| && r[i] == m;
    assert m.to == RaySquare(p.x + dx, p.y + dy, dx, dy, i);
  }

  // ---------------------------------------------------------------------
  // Pawns

  /** A pawn move onto its last rank carries a promotion choice; any other
      single step or capture carries none. */
  predicate PromoFits(p: Piece, size: int, m: Move) {
    if m.to.y == LastRank(p.color, size) then m.promo.Some? else m.promo.None?
  }

  /** One square forward onto an empty square. */
  predicate SingleStep(pieces: seq<Piece>, p: Piece, size: int, m: Move) {
    && m.to == Coord(p.x, p.y + Forward(p.color))
    && IsOnBoard(m.to.x, m.to.y, size) && PieceOn(pieces, m.to).None?
    && PromoFits(p, size, m)
  }

  /** Two squares forward from the start rank, both squares empty, no promotion. */
  predicate DoubleStep(pieces: seq<Piece>, p: Piece, size: int, m: Move) {
    && m.to == Coord(p.x, p.y + 2 * Forward(p.color))
    && p.y == StartRank(p.color, size)
    && IsOnBoard(p.x, p.y + Forward(p.color), size) && GetPieceAt(pieces, p.x, p.y + Forward(p.color)).None?
    && IsOnBoard(m.to.x, m.to.y, size) && PieceOn(pieces, m.to).None?
    && m.promo.None?
  }

  /** One square diagonally forward, onto an opposing piece. */
  predicate DiagonalCapture(pieces: seq<Piece>, p: Piece, size: int, m: Move) {
    && (m.to.x == p.x - 1 || m.to.x == p.x + 1) && m.to.y == p.y + Forward(p.color)
    && IsOnBoard(m.to.x, m.to.y, size)
    && PieceOn(pieces, m.to).Some? && PieceOn(pieces, m.to).value.color != p.color
    && PromoFits(p, size, m)
  }

  lemma PawnToMembers(p: Piece, to: Coord, size: int, m: Move)
    ensures m in PawnTo(p, to, size) <==> m.from == Square(p) && m.to == to && PromoFits(p, size, m)
  {
    if m.from == Square(p) && m.to == to && m.promo.Some? {
      match m.promo.value
      case ToQueen => assert m == PromotionMoves(Square(p), to)[0];
      case ToRook => assert m == PromotionMoves(Square(p), to)[1];
      case ToBishop => assert m == PromotionMoves(Square(p), to)[2];
      case ToKnight => assert m == PromotionMoves(Square(p), to)[3];
    }
  }

  lemma PawnAdvanceMembers(pieces: seq<Piece>, p: Piece, size: int, m: Move)
    ensures m in PawnAdvance(pieces, p, size) <==>
              m.from == Square(p) && (SingleStep(pieces, p, size, m) || DoubleStep(pieces, p, size, m))
  {
    PawnToMembers(p, Coord(p.x, p.y + Forward(p.color)), size, m);
  }

  lemma PawnCapturesMembers(pieces: seq<Piece>, p: Piece, size: int, m: Move)
    ensures m in PawnCaptures(pieces, p, size, CaptureFiles) <==>
              m.from == Square(p) && DiagonalCapture(pieces, p, size, m)
  {
    var f := Forward(p.color);
    PawnToMembers(p, Coord(p.x - 1, p.y + f), size, m);
    PawnToMembers(p, Coord(p.x + 1, p.y + f), size, m);
    assert CaptureFiles[..1] == [-1];
    assert CaptureFiles[..1][..0] == [];
    assert PawnCaptures(pieces, p, size, CaptureFiles)
           == PawnCaptures(pieces, p, size, [-1])
              + (if IsOnBoard(p.x + 1, p.y + f, size) && GetPieceAt(pieces, p.x + 1, p.y + f).Some?
                    && GetPieceAt(pieces, p.x + 1, p.y + f).value.color != p.color
                 then PawnTo(p, Coord(p.x + 1, p.y + f), size) else []);
  }

  /** A pawn's moves are exactly: the single step onto an empty square, the
      double step from the start rank over two empty squares, and the
      diagonal captures of opposing pieces; single steps and captures onto
      the last rank come with a promotion choice, every other move without. */
  lemma PawnMovesExactly(pieces: seq<Piece>, p: Piece, size: int, m: Move)
    ensures m in PawnMoves(pieces, p, size) <==>
              m.from == Square(p)
              && (SingleStep(pieces, p, size, m) || DoubleStep(pieces, p, size, m)
                  || DiagonalCapture(pieces, p, size, m))
  {
    PawnAdvanceMembers(pieces, p, size, m);
    PawnCapturesMembers(pieces, p, size, m);
  }

  /** On the last rank a pawn move is listed four times, once per promotion
      choice and no choice twice; anywhere else it is listed once, without a
      promotion. */
  lemma PawnToOncePerChoice(p: Piece, to: Coord, size: int)
    ensures to.y == LastRank(p.color, size) ==>
              |PawnTo(p, to, size)| == 4
              && forall i, j :: 0 <= i < j < 4 ==> PawnTo(p, to, size)[i].promo != PawnTo(p, to, size)[j].promo
    ensures to.y != LastRank(p.color, size) ==> PawnTo(p, to, size) == [Move(Square(p), to, None)]
  {
  }

  /** `needsPromotion` asks the generator's question after the fact: on a
      puzzle board a pawn move carries a promotion exactly when the pawn,
      standing on its target square, needs one. (The double step cannot reach
      the last rank on a board of five or more ranks.) */
  lemma NeedsPromotionOnArrival(pieces: seq<Piece>, p: Piece, size: PuzzleSize, m: Move)
    requires m in PawnMoves(pieces, p, size)
    ensures m.promo.Some? <==> NeedsPromotion(Piece(Pawn, p.color, m.to.x, m.to.y), size)
  {
    PawnMovesExactly(pieces, p, size, m);
  }

  /** A promoting single step or capture is offered once per promotion choice:
      all four choices are among the pawn's moves. */
  lemma {:induction false} PromotionsComeInFours(pieces: seq<Piece>, p: Piece, size: int, m: Move, choice: Promotion)
    requires m in PawnMoves(pieces, p, size) && m.promo.Some?
    ensures Move(m.from, m.to, Some(choice)) in PawnMoves(pieces, p, size)
  {
    var m' := Move(m.from, m.to, Some(choice));
    PawnMovesExactly(pieces, p, size, m);
    PawnMovesExactly(pieces, p, size, m');
  }

  // ---------------------------------------------------------------------
  // Every pseudo-legal move

  lemma SliderMovesLand(pieces: seq<Piece>, p: Piece, size: int, m: Move)
    requires m in SliderMoves(pieces, p, size)
    ensures Lands(pieces, p, size, m)
  {
    var dirs := Directions(p.kind);
    var k := RaysMembers(pieces, p, size, dirs, m);
    RayLands(pieces, p, size, dirs[k].0, dirs[k].1, m);
  }

  lemma PawnMovesLand(pieces: seq<Piece>, p: Piece, size: int, m: Move)
    requires m in PawnMoves(pieces, p, size)
    ensures Lands(pieces, p, size, m)
  {
    PawnMovesExactly(pieces, p, size, m);
  }

  lemma PieceMovesLand(pieces: seq<Piece>, p: Piece, size: int, m: Move)
    requires m in PieceMoves(pieces, p, size)
    ensures Lands(pieces, p, size, m)
  {
    match p.kind
    case King => KingMovesExactly(pieces, p, size, m);
    case Knight => KnightMovesExactly(pieces, p, size, m);
    case Pawn => PawnMovesLand(pieces, p, size, m);
    case Queen => SliderMovesLand(pieces, p, size, m);
    case Rook => SliderMovesLand(pieces, p, size, m);
    case Bishop => SliderMovesLand(pieces, p, size, m);
  }

  /** The lists f(p) of the pieces p of `side` among the first n pieces, in
      order: `MovesOfFirst` with the per-piece generator left abstract. */
  function Gather(pieces: seq<Piece>, side: Color, f: Piece -> seq<Move>, n: nat): seq<Move>
    requires n <= |pieces|
  {
    if n == 0 then [] else Gather(pieces, side, f, n - 1) + (if pieces[n - 1].color == side then f(pieces[n - 1]) else [])
  }

  lemma {:induction false} GatherMembers(pieces: seq<Piece>, side: Color, f: Piece -> seq<Move>, n: nat, m: Move)
    requires n <= |pieces|
    ensures m in Gather(pieces, side, f, n) <==> exists i :: 0 <= i < n && pieces[i].color == side && m in f(pieces[i])
  {
    if n > 0 {
      GatherMembers(pieces, side, f, n - 1, m);
    }
  }

  lemma {:induction false} MovesOfFirstGathers(pieces: seq<Piece>, size: int, side: Color, n: nat)
    requires n <= |pieces|
    ensures MovesOfFirst(pieces, size, side, n) == Gather(pieces, side, p => PieceMoves(pieces, p, size), n)
  {
    if n > 0 {
      MovesOfFirstGathers(pieces, size, side, n - 1);
    }
  }

  /** The generator's output is the moves of each piece of `side`. */
  lemma MovesOfFirstMembers(pieces: seq<Piece>, size: int, side: Color, n: nat, m: Move)
    requires n <= |pieces|
    ensures m in MovesOfFirst(pieces, size, side, n) <==>
              exists i :: 0 <= i < n && pieces[i].color == side && m in PieceMoves(pieces, pieces[i], size)
  {
    var f := p => PieceMoves(pieces, p, size);
    MovesOfFirstGathers(pieces, size, side, n);
    GatherMembers(pieces, side, f, n, m);
    assert forall i :: 0 <= i < n ==> f(pieces[i]) == PieceMoves(pieces, pieces[i], size);
  }

  /** Every pseudo-legal move starts on the square of a piece of `side`,
      ends on the board on a different square, and never on a square whose
      piece is of `side`'s colour. */
  lemma PseudoLegalTraits(pieces: seq<Piece>, size: int, side: Color, m: Move)
    requires m in PseudoLegalMoves(pieces, size, side)
    ensures exists i :: 0 <= i < |pieces| && pieces[i].color == side && m.from == Square(pieces[i])
    ensures IsOnBoard(m.to.x, m.to.y, size) && m.to != m.from
    ensures PieceOn(pieces, m.to).None? || PieceOn(pieces, m.to).value.color != side
  {
    MovesOfFirstMembers(pieces, size, side, |pieces|, m);
    var i :| 0 <= i < |pieces| && pieces[i].color == side && m in PieceMoves(pieces, pieces[i], size);
    PieceMovesLand(pieces, pieces[i], size, m);
  }

  // ---------------------------------------------------------------------
  // Applying a move

  /** At most one piece on any square: the position invariant of the data model. */
  predicate NoOverlap(pieces: seq<Piece>) {
    forall i, j :: 0 <= i < j < |pieces| ==> Square(pieces[i]) != Square(pieces[j])
  }

  lemma {:induction false} GetPieceAtConcat(a: seq<Piece>, b: seq<Piece>, x: int, y: int)
    ensures GetPieceAt(a + b, x, y) == if GetPieceAt(a, x, y).Some? then GetPieceAt(a, x, y) else GetPieceAt(b, x, y)
  {
    if a != [] {
      assert (a + b)[1..] == a[1..] + b;
      GetPieceAtConcat(a[1..], b, x, y);
    } else {
      assert a + b == b;
    }
  }

  /** Vacating keeps exactly the pieces on neither square, in their order. */
  lemma {:induction false} VacateMembers(pieces: seq<Piece>, from: Coord, to: Coord)
    ensures forall q :: q in Vacate(pieces, from, to) <==> q in pieces && !IsAt(q, to.x, to.y) && !IsAt(q, from.x, from.y)
    ensures IsSublist(Vacate(pieces, from, to), pieces)
  {
    if pieces != [] {
      var init, q := pieces[..|pieces| - 1], pieces[|pieces| - 1];
      VacateMembers(init, from, to);
      assert pieces == init + [q];
      if !IsAt(q, to.x, to.y) && !IsAt(q, from.x, from.y) {
        SublistBoth(Vacate(init, from, to), init, q);
      } else {
        assert Vacate(pieces, from, to) == Vacate(init, from, to);
        SublistGrow(Vacate(init, from, to), init, q);
      }
    }
  }

  /** Vacating leaves the piece found on every other square unchanged. */
  lemma {:induction false} VacateElsewhere(pieces: seq<Piece>, from: Coord, to: Coord, c: Coord)
    requires c != from && c != to
    ensures PieceOn(Vacate(pieces, from, to), c) == PieceOn(pieces, c)
  {
    if pieces != [] {
      var init, q := pieces[..|pieces| - 1], pieces[|pieces| - 1];
      VacateElsewhere(init, from, to, c);
      assert pieces == init + [q];
      GetPieceAtConcat(init, [q], c.x, c.y);
      GetPieceAtConcat(Vacate(init, from, to), if !IsAt(q, to.x, to.y) && !IsAt(q, from.x, from.y) then [q] else [], c.x, c.y);
    }
  }

  /** After a move of the piece on `from`, the to-square holds the mover
      (same colour; kind per the promotion rule), the from-square is empty,
      and every other square holds what it held before. With no piece on
      `from` the position is returned unchanged. */
  lemma AppliedSquares(pieces: seq<Piece>, m: Move, size: int, c: Coord)
    ensures GetPieceAt(pieces, m.from.x, m.from.y).None? ==> Applied(pieces, m, size) == pieces
    ensures GetPieceAt(pieces, m.from.x, m.from.y).Some? ==>
              var mover := GetPieceAt(pieces, m.from.x, m.from.y).value;
              var kind := if m.promo.Some? then PromotionKind(m.promo.value)
                          else if mover.kind == Pawn && m.to.y == LastRank(mover.color, size) then Queen
                          else mover.kind;
              PieceOn(Applied(pieces, m, size), c)
              == if c == m.to then Some(Piece(kind, mover.color, m.to.x, m.to.y))
                 else if c == m.from then None
                 else PieceOn(pieces, c)
  {
    if GetPieceAt(pieces, m.from.x, m.from.y).Some? {
      var mover := GetPieceAt(pieces, m.from.x, m.from.y).value;
      var moved := Piece(FinalKind(mover, m, size), mover.color, m.to.x, m.to.y);
      var rest := Vacate(pieces, m.from, m.to);
      GetPieceAtConcat(rest, [moved], c.x, c.y);
      if c == m.to || c == m.from {
        VacateMembers(pieces, m.from, m.to);
        GetPieceAtNone(rest, c.x, c.y);
      } else {
        VacateElsewhere(pieces, m.from, m.to, c);
      }
    }
  }

  lemma {:induction false} NoOverlapSnoc(s: seq<Piece>, q: Piece)
    ensures NoOverlap(s + [q]) <==> NoOverlap(s) && forall r :: r in s ==> Square(r) != Square(q)
  {
    var t := s + [q];
    assert forall i :: 0 <= i < |s| ==> t[i] == s[i];
    if NoOverlap(t) {
      forall r | r in s ensures Square(r) != Square(q) {
        var i :| 0 <= i < |s| && s[i] == r;
        assert Square(t[i]) != Square(t[|s|]);
      }
    }
  }

  lemma {:induction false} VacateNoOverlap(pieces: seq<Piece>, from: Coord, to: Coord)
    requires NoOverlap(pieces)
    ensures NoOverlap(Vacate(pieces, from, to))
  {
    if pieces != [] {
      var init, q := pieces[..|pieces| - 1], pieces[|pieces| - 1];
      assert pieces == init + [q];
      NoOverlapSnoc(init, q);
      VacateNoOverlap(init, from, to);
      VacateMembers(init, from, to);
      NoOverlapSnoc(Vacate(init, from, to), q);
    }
  }

  /** Applying a move keeps at most one piece on every square. */
  lemma AppliedKeepsNoOverlap(pieces: seq<Piece>, m: Move, size: int)
    requires NoOverlap(pieces)
    ensures NoOverlap(Applied(pieces, m, size))
  {
    if GetPieceAt(pieces, m.from.x, m.from.y).Some? {
      var mover := GetPieceAt(pieces, m.from.x, m.from.y).value;
      var moved := Piece(FinalKind(mover, m, size), mover.color, m.to.x, m.to.y);
      VacateNoOverlap(pieces, m.from, m.to);
      VacateMembers(pieces, m.from, m.to);
      NoOverlapSnoc(Vacate(pieces, m.from, m.to), moved);
    }
  }

  /** The number of pieces standing on square c. */
  function CountOn(pieces: seq<Piece>, c: Coord): nat {
    if pieces == [] then 0
    else CountOn(pieces[..|pieces| - 1], c) + (if Square(pieces[|pieces| - 1]) == c then 1 else 0)
  }

  lemma {:induction false} CountOnAtMostOne(pieces: seq<Piece>, c: Coord)
    requires NoOverlap(pieces)
    ensures CountOn(pieces, c) <= 1
    ensures CountOn(pieces, c) == 0 <==> PieceOn(pieces, c).None?
  {
    GetPieceAtNone(pieces, c.x, c.y);
    if pieces != [] {
      var init, q := pieces[..|pieces| - 1], pieces[|pieces| - 1];
      assert pieces == init + [q];
      NoOverlapSnoc(init, q);
      CountOnAtMostOne(init, c);
      GetPieceAtNone(init, c.x, c.y);
      assert CountOn(pieces, c) == CountOn(init, c) + (if Square(q) == c then 1 else 0);
      if Square(q) == c {
        forall i | 0 <= i < |init| ensures !IsAt(init[i], c.x, c.y) {
          assert init[i] in init;
        }
        assert IsAt(pieces[|init|], c.x, c.y);
      } else {
        assert forall i :: 0 <= i < |init| ==> pieces[i] == init[i];
        assert !IsAt(pieces[|init|], c.x, c.y);
      }
    }
  }

  lemma {:induction false} VacateSize(pieces: seq<Piece>, from: Coord, to: Coord)
    ensures |Vacate(pieces, from, to)| == |pieces| - CountOn(pieces, from) - (if to != from then CountOn(pieces, to) else 0)
  {
    if pieces != [] {
      VacateSize(pieces[..|pieces| - 1], from, to);
    }
  }

  /** In a position with at most one piece per square, a move of an existing
      piece keeps the number of pieces, or lowers it by one when it captures. */
  lemma AppliedSize(pieces: seq<Piece>, m: Move, size: int)
    requires NoOverlap(pieces)
    requires GetPieceAt(pieces, m.from.x, m.from.y).Some?
    ensures |Applied(pieces, m, size)| == |pieces| - (if m.to != m.from && PieceOn(pieces, m.to).Some? then 1 else 0)
  {
    VacateSize(pieces, m.from, m.to);
    CountOnAtMostOne(pieces, m.from);
    CountOnAtMostOne(pieces, m.to);
  }

  /** The piece a move places is never a pawn left on its last rank. */
  lemma AppliedNeverLeavesPromotablePawn(pieces: seq<Piece>, m: Move, size: int)
    requires GetPieceAt(pieces, m.from.x, m.from.y).Some?
    ensures PieceOn(Applied(pieces, m, size), m.to).Some?
    ensures !NeedsPromotion(PieceOn(Applied(pieces, m, size), m.to).value, size)
  {
    AppliedSquares(pieces, m, size, m.to);
  }

  /** With one piece per square, every piece is the one found on its square. */
  lemma PieceOnOwnSquare(pieces: seq<Piece>, i: int)
    requires NoOverlap(pieces) && 0 <= i < |pieces|
    ensures PieceOn(pieces, Square(pieces[i])) == Some(pieces[i])
  {
    GetPieceAtFirst(pieces, pieces[i].x, pieces[i].y, i);
  }

  // ---------------------------------------------------------------------
  // Attack, check and the legal filter

  /** A square is attacked exactly when one piece of the attacking side has
      a pseudo-legal move ending there. */
  lemma AttackedByPiece(pieces: seq<Piece>, size: int, target: Coord, bySide: Color)
    ensures IsSquareAttacked(pieces, size, target, bySide) <==>
              exists i, m :: 0 <= i < |pieces| && pieces[i].color == bySide
                             && m in PieceMoves(pieces, pieces[i], size) && m.to == target
  {
    if IsSquareAttacked(pieces, size, target, bySide) {
      var m :| m in PseudoLegalMoves(pieces, size, bySide) && m.to == target;
      MovesOfFirstMembers(pieces, size, bySide, |pieces|, m);
    }
    if exists i, m :: 0 <= i < |pieces| && pieces[i].color == bySide
                      && m in PieceMoves(pieces, pieces[i], size) && m.to == target {
      var i, m :| 0 <= i < |pieces| && pieces[i].color == bySide
                  && m in PieceMoves(pieces, pieces[i], size) && m.to == target;
      MovesOfFirstMembers(pieces, size, bySide, |pieces|, m);
    }
  }

  /** Two kings on neighbouring squares: the side whose king comes first in
      the list is in check from the other king. */
  lemma AdjacentKingGivesCheck(pieces: seq<Piece>, size: int, side: Color, j: int)
    requires NoOverlap(pieces)
    requires FindKing(pieces, side).Some? && IsOnBoard(FindKing(pieces, side).value.x, FindKing(pieces, side).value.y, size)
    requires 0 <= j < |pieces| && pieces[j].kind == King && pieces[j].color == Opponent(side)
    requires IsKingOffset(FindKing(pieces, side).value.x - pieces[j].x, FindKing(pieces, side).value.y - pieces[j].y)
    ensures IsInCheck(pieces, size, side)
  {
    var k := FindKing(pieces, side).value;
    var i :| 0 <= i < |pieces| && pieces[i] == k;
    PieceOnOwnSquare(pieces, i);
    var m := Move(Square(pieces[j]), Square(k), None);
    KingMovesExactly(pieces, pieces[j], size, m);
    MovesOfFirstMembers(pieces, size, Opponent(side), |pieces|, m);
  }

  /** The candidates satisfying `keep`, in order: `KeepLegal` with the king
      safety test left abstract. */
  function KeepWhere(candidates: seq<Move>, keep: Move -> bool): seq<Move> {
    if candidates == [] then []
    else
      var m := candidates[|candidates| - 1];
      KeepWhere(candidates[..|candidates| - 1], keep) + (if keep(m) then [m] else [])
  }

  lemma {:induction false} KeepWhereMembers(candidates: seq<Move>, keep: Move -> bool)
    ensures forall m :: m in KeepWhere(candidates, keep) <==> m in candidates && keep(m)
    ensures IsSublist(KeepWhere(candidates, keep), candidates)
  {
    if candidates != [] {
      var init, m := candidates[..|candidates| - 1], candidates[|candidates| - 1];
      KeepWhereMembers(init, keep);
      assert candidates == init + [m];
      if keep(m) {
        assert KeepWhere(candidates, keep) == KeepWhere(init, keep) + [m];
        SublistBoth(KeepWhere(init, keep), init, m);
      } else {
        assert KeepWhere(candidates, keep) == KeepWhere(init, keep);
        SublistGrow(KeepWhere(init, keep), init, m);
      }
    }
  }

  lemma {:induction false} KeepWhereAll(candidates: seq<Move>, keep: Move -> bool)
    requires forall m :: m in candidates ==> keep(m)
    ensures KeepWhere(candidates, keep) == candidates
  {
    if candidates != [] {
      var init, last := candidates[..|candidates| - 1], candidates[|candidates| - 1];
      assert candidates == init + [last];
      assert forall m :: m in init ==> m in candidates;
      KeepWhereAll(init, keep);
    }
  }

  lemma {:induction false} KeepLegalKeepsSafe(pieces: seq<Piece>, size: int, side: Color, candidates: seq<Move>)
    ensures KeepLegal(pieces, size, side, candidates)
            == KeepWhere(candidates, m => !IsInCheck(Applied(pieces, m, size), size, side))
  {
    if candidates != [] {
      KeepLegalKeepsSafe(pieces, size, side, candidates[..|candidates| - 1]);
    }
  }

  /** The legal filter keeps exactly the candidates after which `side` is not
      in check, as a sub-list of the candidates. */
  lemma KeepLegalMembers(pieces: seq<Piece>, size: int, side: Color, candidates: seq<Move>)
    ensures forall m :: m in KeepLegal(pieces, size, side, candidates) <==>
              m in candidates && !IsInCheck(Applied(pieces, m, size), size, side)
    ensures IsSublist(KeepLegal(pieces, size, side, candidates), candidates)
  {
    var keep := m => !IsInCheck(Applied(pieces, m, size), size, side);
    KeepLegalKeepsSafe(pieces, size, side, candidates);
    KeepWhereMembers(candidates, keep);
  }

  /** A legal move is a pseudo-legal move that does not leave the mover's
      own king attacked; legal moves keep the generator's order. */
  lemma LegalMovesExactly(pieces: seq<Piece>, size: int, side: Color)
    ensures forall m :: m in LegalMoves(pieces, size, side) <==>
              m in PseudoLegalMoves(pieces, size, side) && !IsInCheck(Applied(pieces, m, size), size, side)
    ensures IsSublist(LegalMoves(pieces, size, side), PseudoLegalMoves(pieces, size, side))
  {
    KeepLegalMembers(pieces, size, side, PseudoLegalMoves(pieces, size, side));
  }

  /** Checkmate: in check, and every pseudo-legal move leaves the king in
      check. A side without a king is never mated. */
  lemma CheckmateExactly(pieces: seq<Piece>, size: int, side: Color)
    ensures IsCheckmate(pieces, size, side) <==>
              IsInCheck(pieces, size, side)
              && forall m :: m in PseudoLegalMoves(pieces, size, side) ==> IsInCheck(Applied(pieces, m, size), size, side)
    ensures (forall i :: 0 <= i < |pieces| ==> !(pieces[i].kind == King && pieces[i].color == side))
            ==> !IsCheckmate(pieces, size, side)
  {
    LegalMovesExactly(pieces, size, side);
    if IsInCheck(pieces, size, side) && |LegalMoves(pieces, size, side)| > 0 {
      assert LegalMoves(pieces, size, side)[0] in LegalMoves(pieces, size, side);
    }
  }

  // ---------------------------------------------------------------------
  // Legacy helpers

  /** The destinations offered for a square: none when it is empty, else
      exactly the to-squares of the moves (legal, or pseudo-legal when check
      is ignored) of its piece's side that start there. */
  lemma LegacyDestinations(pieces: seq<Piece>, from: Coord, size: int, checkForCheck: bool, t: Coord)
    ensures GetPieceAt(pieces, from.x, from.y).None? ==> GetLegalMovesForPiece(pieces, from, size, checkForCheck) == []
    ensures GetPieceAt(pieces, from.x, from.y).Some? ==>
              var side := GetPieceAt(pieces, from.x, from.y).value.color;
              var moves := if checkForCheck then LegalMoves(pieces, size, side) else PseudoLegalMoves(pieces, size, side);
              (t in GetLegalMovesForPiece(pieces, from, size, checkForCheck) <==>
               exists m :: m in moves && m.from == from && m.to == t)
  {
    if GetPieceAt(pieces, from.x, from.y).Some? {
      var side := GetPieceAt(pieces, from.x, from.y).value.color;
      var moves := if checkForCheck then LegalMoves(pieces, size, side) else PseudoLegalMoves(pieces, size, side);
      DestinationsFrom(moves, from, t);
    }
  }

  /** `isValidSquare` accepts exactly the squares of the board. */
  lemma ValidSquareExactly(square: Coord, boardSize: nat)
    ensures IsValidSquare(square, boardSize) <==> square in BoardRows(boardSize, boardSize)
  {
    OnBoardExactly(boardSize, square.x, square.y);
  }

  /** Selecting the moves from a square is the order-keeping filter on
      their from-square. */
  lemma {:induction false} MovesFromKeeps(moves: seq<Move>, from: Coord, keep: Move -> bool)
    requires forall m :: keep(m) == (m.from == from)
    ensures MovesFrom(moves, from) == KeepWhere(moves, keep)
  {
    if moves != [] {
      MovesFromKeeps(moves[..|moves| - 1], from, keep);
    }
  }

  /** The moves from a square: exactly the listed moves starting there, in
      the order of the list. */
  lemma MovesFromExactly(moves: seq<Move>, from: Coord)
    ensures forall m :: m in MovesFrom(moves, from) <==> m in moves && m.from == from
    ensures IsSublist(MovesFrom(moves, from), moves)
  {
    var keep := (m: Move) => m.from == from;
    MovesFromKeeps(moves, from, keep);
    KeepWhereMembers(moves, keep);
  }

  /** The destinations of the moves from a square are the squares some move
      from it reaches. */
  lemma DestinationsFrom(moves: seq<Move>, from: Coord, t: Coord)
    ensures t in Destinations(MovesFrom(moves, from)) <==> exists m :: m in moves && m.from == from && m.to == t
  {
    var own := MovesFrom(moves, from);
    MovesFromExactly(moves, from);
    if t in Destinations(own) {
      var i :| 0 <= i < |own| && Destinations(own)[i] == t;
      assert own[i] in own;
    }
    if exists m :: m in moves && m.from == from && m.to == t {
      var m :| m in moves && m.from == from && m.to == t;
      var i :| 0 <= i < |own| && own[i] == m;
      assert Destinations(own)[i] == t;
    }
  }

  /** The legacy entry point applies moves on an 8x8 board whatever the
      puzzle's size: a white pawn reaching rank 4 of a 5x5 board stays a pawn. */
  lemma MakeMoveAssumesEightRanks()
    ensures var pieces := [Piece(Pawn, White, 0, 3)];
            var m := Move(Coord(0, 3), Coord(0, 4), None);
            MakeMove(pieces, m.from, m.to, None) == [Piece(Pawn, White, 0, 4)]
            && Applied(pieces, m, 5) == [Piece(Queen, White, 0, 4)]
  {
    var pieces := [Piece(Pawn, White, 0, 3)];
    assert GetPieceAt(pieces, 0, 3) == Some(pieces[0]);
    assert Vacate(pieces, Coord(0, 3), Coord(0, 4)) == Vacate([], Coord(0, 3), Coord(0, 4));
  }

  // ---------------------------------------------------------------------
  // A side with no opponent on the board

  /** A side with no pieces has no moves. */
  lemma NoPiecesNoMoves(pieces: seq<Piece>, size: int, side: Color)
    requires forall i :: 0 <= i < |pieces| ==> pieces[i].color != side
    ensures PseudoLegalMoves(pieces, size, side) == []
  {
    var moves := PseudoLegalMoves(pieces, size, side);
    if moves != [] {
      MovesOfFirstMembers(pieces, size, side, |pieces|, moves[0]);
    }
  }

  /** A move never brings a piece of a colour that had none. */
  lemma AppliedAddsNoColour(pieces: seq<Piece>, m: Move, size: int, c: Color)
    requires forall i :: 0 <= i < |pieces| ==> pieces[i].color != c
    ensures var r := Applied(pieces, m, size); forall i :: 0 <= i < |r| ==> r[i].color != c
  {
    if GetPieceAt(pieces, m.from.x, m.from.y).Some? {
      GetPieceAtSound(pieces, m.from.x, m.from.y);
      VacateMembers(pieces, m.from, m.to);
      var r := Applied(pieces, m, size);
      assert forall i :: 0 <= i < |r| - 1 ==> r[i] in Vacate(pieces, m.from, m.to);
    }
  }

  lemma KeepLegalAll(pieces: seq<Piece>, size: int, side: Color, candidates: seq<Move>)
    requires forall m :: m in candidates ==> !IsInCheck(Applied(pieces, m, size), size, side)
    ensures KeepLegal(pieces, size, side, candidates) == candidates
  {
    var keep := m => !IsInCheck(Applied(pieces, m, size), size, side);
    KeepLegalKeepsSafe(pieces, size, side, candidates);
    KeepWhereAll(candidates, keep);
  }

  /** With no opposing piece on the board, a side is never in check and all
      of its pseudo-legal moves are legal. */
  lemma UnopposedMovesAllLegal(pieces: seq<Piece>, size: int, side: Color)
    requires forall i :: 0 <= i < |pieces| ==> pieces[i].color == side
    ensures !IsInCheck(pieces, size, side)
    ensures LegalMoves(pieces, size, side) == PseudoLegalMoves(pieces, size, side)
  {
    NoPiecesNoMoves(pieces, size, Opponent(side));
    forall m | m in PseudoLegalMoves(pieces, size, side)
      ensures !IsInCheck(Applied(pieces, m, size), size, side)
    {
      AppliedAddsNoColour(pieces, m, size, Opponent(side));
      NoPiecesNoMoves(Applied(pieces, m, size), size, Opponent(side));
    }
    KeepLegalAll(pieces, size, side, PseudoLegalMoves(pieces, size, side));
  }

  /** A lone piece's pseudo-legal moves are its own moves. */
  lemma LonePieceMoves(q: Piece, size: int)
    ensures PseudoLegalMoves([q], size, q.color) == PieceMoves([q], q, size)
  {
    assert MovesOfFirst([q], size, q.color, 0) == [];
  }

  /** What vacating the squares from and to leaves of the single piece q. */
  function Stays(q: Piece, from: Coord, to: Coord): seq<Piece> {
    if !IsAt(q, to.x, to.y) && !IsAt(q, from.x, from.y) then [q] else []
  }

  /** Vacating squares handles the pieces one at a time, in list order. */
  lemma VacateSnoc(init: seq<Piece>, q: Piece, from: Coord, to: Coord)
    ensures Vacate(init + [q], from, to) == Vacate(init, from, to) + Stays(q, from, to)
  {
    assert (init + [q])[..|init|] == init;
  }

  lemma VacateThree(a: Piece, b: Piece, c: Piece, from: Coord, to: Coord)
    ensures Vacate([a, b, c], from, to) == Stays(a, from, to) + Stays(b, from, to) + Stays(c, from, to)
  {
    VacateSnoc([], a, from, to);
    VacateSnoc([a], b, from, to);
    VacateSnoc([a, b], c, from, to);
    assert [a] + [b] == [a, b] && [a, b] + [c] == [a, b, c];
  }

  lemma VacateSix(a: Piece, b: Piece, c: Piece, d: Piece, e: Piece, f: Piece, from: Coord, to: Coord)
    ensures Vacate([a, b, c, d, e, f], from, to)
            == Stays(a, from, to) + Stays(b, from, to) + Stays(c, from, to)
               + Stays(d, from, to) + Stays(e, from, to) + Stays(f, from, to)
  {
    VacateThree(a, b, c, from, to);
    VacateSnoc([a, b, c], d, from, to);
    VacateSnoc([a, b, c, d], e, from, to);
    VacateSnoc([a, b, c, d, e], f, from, to);
    assert [a, b, c] + [d] == [a, b, c, d] && [a, b, c, d] + [e] == [a, b, c, d, e];
    assert [a, b, c, d, e] + [f] == [a, b, c, d, e, f];
  }
}
