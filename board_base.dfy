/**
 * The board encoding that gtp_connection.py imports from board_base: colour codes,
 * the board size bound, the opponent map and the padded linear point index.
 * board_base itself is not part of this model; what is used of it is stated here.
 */
module BoardBase {

  /** Largest board side; format_point asserts it is at most 25. */
  const MAXSIZE: nat := 25

  /** Contents of one point. Border never lies on the size x size grid. */
  datatype Cell = Empty | Black | White | Border

  /** The integer colour codes EMPTY = 0, BLACK = 1, WHITE = 2, BORDER = 3. */
  function Code(c: Cell): nat
  {
    match c
    case Empty => 0
    case Black => 1
    case White => 2
    case Border => 3
  }

  /** board_base.opponent, taken to be 3 - c on the colour codes. */
  function Opponent(c: Cell): (o: Cell)
    ensures Code(o) == 3 - Code(c)
  {
    match c
    case Empty => Border
    case Black => White
    case White => Black
    case Border => Empty
  }

  /** board_base.coord_to_point, taken to be row * (size + 1) + col (the inverse of divmod at line 922). */
  function CoordToPoint(row: int, col: int, size: nat): int
  {
    row * (size + 1) + col
  }
}
