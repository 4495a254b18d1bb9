/**
 * Board coordinates (utils/coords.ts): a square is an integer pair [x, y],
 * x the column and y the row, (0,0) the bottom-left square seen by White.
 * A coordinate also has a string key "x,y" that parses back to the pair.
 */
module Coords {
  import opened Wrappers

  datatype Coord = Coord(x: int, y: int)

  /** The single bounds test every component uses: the square lies on an
      size-by-size board. */
  predicate IsOnBoard(x: int, y: int, size: int) {
    x >= 0 && x < size && y >= 0 && y < size
  }

  /** The squares of a size-by-size board, row by row from (0,0): the rows
      below `rows`, each from column 0 up to column size-1. */
  function BoardRows(size: nat, rows: nat): seq<Coord> {
    if rows == 0 then [] else BoardRows(size, rows - 1) + RowSquares(rows - 1, size)
  }

  /** The first `n` squares of row y, from column 0. */
  function RowSquares(y: int, n: nat): seq<Coord> {
    if n == 0 then [] else RowSquares(y, n - 1) + [Coord(n - 1, y)]
  }

  lemma {:induction false} RowSquaresMembers(y: int, n: nat, c: Coord)
    ensures c in RowSquares(y, n) <==> c.y == y && 0 <= c.x < n
    ensures |RowSquares(y, n)| == n
  {
    if n > 0 {
      RowSquaresMembers(y, n - 1, c);
    }
  }

  lemma {:induction false} BoardRowsMembers(size: nat, rows: nat, c: Coord)
    ensures c in BoardRows(size, rows) <==> 0 <= c.x < size && 0 <= c.y < rows
    ensures |BoardRows(size, rows)| == rows * size
  {
    if rows > 0 {
      BoardRowsMembers(size, rows - 1, c);
      RowSquaresMembers(rows - 1, size, c);
      assert (rows - 1) * size + size == rows * size;
    }
  }

  /** The bounds test accepts exactly the size * size squares of the board. */
  lemma OnBoardExactly(size: nat, x: int, y: int)
    ensures IsOnBoard(x, y, size) <==> Coord(x, y) in BoardRows(size, size)
    ensures |BoardRows(size, size)| == size * size
  {
    BoardRowsMembers(size, size, Coord(x, y));
  }

  /** Coordinate equality, compared component by component. */
  predicate Eq(a: Coord, b: Coord)
    ensures Eq(a, b) <==> a == b
  {
    a.x == b.x && a.y == b.y
  }

  // ---------------------------------------------------------------------
  // Decimal rendering of integers (what a template string does to a number)

  predicate IsDigit(c: char) {
    '0' <= c <= '9'
  }

  predicate AllDigits(s: string) {
    forall i :: 0 <= i < |s| ==> IsDigit(s[i])
  }

  function DigitChar(d: int): (c: char)
    requires 0 <= d < 10
    ensures IsDigit(c)
  {
    (d + '0' as int) as char
  }

  function DigitValue(c: char): (d: int)
    requires IsDigit(c)
    ensures 0 <= d < 10
  {
    c as int - '0' as int
  }

  /** Decimal digits of n, most significant first, without leading zeros. */
  function NatToString(n: nat): (s: string)
    ensures |s| >= 1 && AllDigits(s)
    ensures |s| > 1 ==> s[0] != '0'
  {
    if n < 10 then [DigitChar(n)] else NatToString(n / 10) + [DigitChar(n % 10)]
  }

  /** The decimal rendering of an integer: a minus sign, then the digits. */
  function IntToString(n: int): (s: string)
    ensures ',' !in s
    ensures n < 0 <==> (|s| > 0 && s[0] == '-')
  {
    if n < 0 then "-" + NatToString(-n) else NatToString(n)
  }

  /** The value of a non-empty digit string, reading left to right. */
  function DigitsValue(s: string): nat
    requires |s| >= 1 && AllDigits(s)
  {
    if |s| == 1 then DigitValue(s[0])
    else DigitsValue(s[..|s| - 1]) * 10 + DigitValue(s[|s| - 1])
  }

  /** `Number(field)` restricted to what a key holds: the empty field reads
      as 0, an optional minus sign followed by digits reads as that integer,
      and anything else is not an integer. */
  function ParseNumber(s: string): Option<int> {
    if s == "" then Some(0)
    else if s[0] == '-' && |s| >= 2 && AllDigits(s[1..]) then Some(-(DigitsValue(s[1..]) as int))
    else if AllDigits(s) then Some(DigitsValue(s))
    else None
  }

  /** Index of the first occurrence of c in s. */
  function IndexOf(s: string, c: char): (r: Option<nat>)
    ensures r.None? <==> c !in s
    ensures r.Some? ==> r.value < |s| && s[r.value] == c && c !in s[..r.value]
  {
    if |s| == 0 then None
    else if s[0] == c then Some(0)
    else match IndexOf(s[1..], c)
      case None => None
      case Some(i) =>
        assert s[1..][..i] == s[1..i + 1];
        Some(i + 1)
  }

  // ---------------------------------------------------------------------
  // Keys

  /** The key of a coordinate: x in decimal, a comma, y in decimal. */
  function Key(c: Coord): string {
    IntToString(c.x) + "," + IntToString(c.y)
  }

  /** `k.split(',').map(Number)` destructured into [x, y]: x is the text before
      the first comma, y the text between the first and the second comma (or
      the end); a key without a comma leaves y undefined. */
  function ParseKey(k: string): Option<Coord> {
    match IndexOf(k, ',')
    case None => None
    case Some(i) =>
      var rest := k[i + 1..];
      var yField := match IndexOf(rest, ',') case None => rest case Some(j) => rest[..j];
      match (ParseNumber(k[..i]), ParseNumber(yField))
      case (Some(x), Some(y)) => Some(Coord(x, y))
      case _ => None
  }

  // ---------------------------------------------------------------------
  // Round trip

  lemma {:induction false} DigitsOfNat(n: nat)
    ensures DigitsValue(NatToString(n)) == n
    decreases n
  {
    if n >= 10 {
      var s := NatToString(n);
      assert s[..|s| - 1] == NatToString(n / 10);
      DigitsOfNat(n / 10);
    }
  }

  lemma ParseRendered(n: int)
    ensures ParseNumber(IntToString(n)) == Some(n)
  {
    if n < 0 {
      assert IntToString(n)[1..] == NatToString(-n);
      DigitsOfNat(-n);
    } else {
      DigitsOfNat(n);
    }
  }

  /** Parsing a key gives back the coordinate it was made from. */
  lemma ParseKeyOfKey(c: Coord)
    ensures ParseKey(Key(c)) == Some(c)
  {
    var k := Key(c);
    var sx, sy := IntToString(c.x), IntToString(c.y);
    assert k[..|sx|] == sx && k[|sx|] == ',';
    assert ',' !in k[..|sx|];
    assert IndexOf(k, ',') == Some(|sx|);
    assert k[|sx| + 1..] == sy;
    ParseRendered(c.x);
    ParseRendered(c.y);
  }

  /** Two coordinates have the same key exactly when they are equal: the key
      is injective, so it can stand for the square in sets and maps. */
  lemma KeyInjective(a: Coord, b: Coord)
    ensures Key(a) == Key(b) <==> Eq(a, b)
  {
    if Key(a) == Key(b) {
      ParseKeyOfKey(a);
      ParseKeyOfKey(b);
    }
  }
}
