/**
 * The coordinate codecs at the end of gtp_connection.py: point_to_coord,
 * format_point, move_to_coord and color_to_int.
 */
module Coords {
  import opened Wrappers
  import opened BoardBase
  import opened Text

  /** A GO_POINT: an index into the padded board array, or the PASS marker. */
  datatype Point = PassPoint | Index(index: int)

  /** A (row, col) tuple as the source builds them, or (PASS, PASS). */
  datatype Coord = PassCoord | RC(row: int, col: int)

  /** Why a conversion raised ValueError. */
  datatype CoordError = SizeOutOfRange | InvalidPoint | OffBoard | NotFormattable

  /** point_to_coord: divmod by size + 1 (divisor positive, so Dafny's division is Python's). */
  function PointToCoord(p: Point, boardSize: nat): (c: Coord)
    ensures p.PassPoint? <==> c.PassCoord?
    ensures p.Index? ==> 0 <= c.col <= boardSize && CoordToPoint(c.row, c.col, boardSize) == p.index
  {
    match p
    case PassPoint => PassCoord
    case Index(i) => RC(i / (boardSize + 1), i % (boardSize + 1))
  }

  lemma MultipleBelowDivisor(k: int, n: int)
    requires n > 0 && -n < k * n < n
    ensures k == 0
  {
  }

  /** point_to_coord inverts coord_to_point for every column 0 .. size. */
  lemma PointToCoordInverts(row: int, col: int, boardSize: nat)
    requires 0 <= col <= boardSize
    ensures PointToCoord(Index(CoordToPoint(row, col, boardSize)), boardSize) == RC(row, col)
  {
    var c := PointToCoord(Index(CoordToPoint(row, col, boardSize)), boardSize);
    var n := boardSize + 1;
    assert c.row * n + c.col == row * n + col;
    assert (c.row - row) * n == col - c.col;
    MultipleBelowDivisor(c.row - row, n);
  }

  /** The column letters of format_point: A to Z without I. */
  const ColumnLetters: string := "ABCDEFGHJKLMNOPQRSTUVWXYZ"

  /** The letter for 0-based column k: skip I after H. */
  lemma ColumnLetterAt(k: int)
    requires 0 <= k < 25
    ensures ColumnLetters[k] == ('A' as int + k + (if k >= 8 then 1 else 0)) as char
  {
    assert k == 0 || k == 1 || k == 2 || k == 3 || k == 4 || k == 5 || k == 6 || k == 7
        || k == 8 || k == 9 || k == 10 || k == 11 || k == 12 || k == 13 || k == 14 || k == 15
        || k == 16 || k == 17 || k == 18 || k == 19 || k == 20 || k == 21 || k == 22 || k == 23
        || k == 24;
  }

  /** format_point: "PASS", or the column letter followed by str(row); ValueError outside 0 .. MAXSIZE - 1. */
  function FormatPoint(move: Coord): (r: Result<string, CoordError>)
    ensures r.Ok? <==> move.PassCoord? || (0 <= move.row < MAXSIZE && 0 <= move.col < MAXSIZE)
    ensures r.Ok? && move.RC? ==> |r.value| >= 2 && 'A' <= r.value[0] <= 'Z' && r.value[0] != 'I'
                                  && r.value[1..] == DecimalString(move.row)
  {
    match move
    case PassCoord => Ok("PASS")
    case RC(row, col) =>
      if !(0 <= row < MAXSIZE) || !(0 <= col < MAXSIZE) then Err(NotFormattable)
      else
        // Python's column_letters[col - 1] reads the last letter when col is 0
        var k := if col == 0 then 24 else col - 1;
        ColumnLetterAt(k);
        Ok([ColumnLetters[k]] + DecimalString(row))
  }

  /** The column move_to_coord reads from a lower-case letter: ord(c) - ord('a'), plus one before 'i'. */
  function ColumnOf(c: char): (col: int)
    requires 'a' <= c <= 'z' && c != 'i'
    ensures 1 <= col <= 25
  {
    c as int - 'a' as int + (if c < 'i' then 1 else 0)
  }

  /** move_to_coord: the GTP point parser, case-insensitive, with its three ValueError messages. */
  function MoveToCoord(pointStr: string, boardSize: int): (r: Result<Coord, CoordError>)
    ensures r.Ok? && r.value.RC? ==> 1 <= r.value.row <= boardSize && 1 <= r.value.col <= boardSize
    ensures r.Ok? && r.value.PassCoord? <==> 2 <= boardSize <= MAXSIZE && Lower(pointStr) == "pass"
    ensures r.Ok? ==> 2 <= boardSize <= MAXSIZE
  {
    if !(2 <= boardSize <= MAXSIZE) then Err(SizeOutOfRange)
    else
      var s := Lower(pointStr);
      if s == "pass" then Ok(PassCoord)
      else if |s| == 0 then Err(InvalidPoint)
      else
        var c := s[0];
        if !('a' <= c <= 'z') || c == 'i' then Err(InvalidPoint)
        else
          var col := ColumnOf(c);
          match ParseInt(s[1..])
          case None => Err(InvalidPoint)
          case Some(row) =>
            if row < 1 then Err(InvalidPoint)
            else if !(col <= boardSize && row <= boardSize) then Err(OffBoard)
            else Ok(RC(row, col))
  }

  /** Each rejection rule of move_to_coord, and "pass" in any case. */
  lemma MoveToCoordRules(pointStr: string, boardSize: int)
    ensures !(2 <= boardSize <= MAXSIZE) ==> MoveToCoord(pointStr, boardSize) == Err(SizeOutOfRange)
    ensures 2 <= boardSize <= MAXSIZE && Lower(pointStr) == "pass" ==> MoveToCoord(pointStr, boardSize) == Ok(PassCoord)
    ensures 2 <= boardSize <= MAXSIZE && pointStr == [] ==> MoveToCoord(pointStr, boardSize) == Err(InvalidPoint)
    ensures 2 <= boardSize <= MAXSIZE && |pointStr| > 0 && (LowerChar(pointStr[0]) == 'i' || !('a' <= LowerChar(pointStr[0]) <= 'z'))
            ==> MoveToCoord(pointStr, boardSize) == Err(InvalidPoint)
    ensures 2 <= boardSize <= MAXSIZE && |pointStr| > 0 && Lower(pointStr) != "pass"
            && (var row := ParseInt(Lower(pointStr)[1..]); row.None? || row.value < 1)
            ==> MoveToCoord(pointStr, boardSize) == Err(InvalidPoint)
  {
    if 2 <= boardSize <= MAXSIZE && |pointStr| > 0 {
      var s := Lower(pointStr);
      if LowerChar(pointStr[0]) == 'i' || !('a' <= LowerChar(pointStr[0]) <= 'z') {
        assert s[0] == LowerChar(pointStr[0]);
        assert s != "pass" by { assert "pass"[0] == 'p'; }
      }
    }
  }

  lemma LowerDigits(s: string)
    requires AllDigits(s)
    ensures Lower(s) == s
  {
  }

  lemma LowerIdempotent(s: string)
    ensures Lower(Lower(s)) == Lower(s)
  {
  }

  /** move_to_coord does not depend on the case of its input. */
  lemma MoveToCoordIgnoresCase(pointStr: string, boardSize: int)
    ensures MoveToCoord(Lower(pointStr), boardSize) == MoveToCoord(pointStr, boardSize)
  {
    LowerIdempotent(pointStr);
  }

  /** A formatted point never reads as "pass": its second character is a digit. */
  lemma FormattedIsNotPass(row: int, col: int)
    requires 0 <= row < MAXSIZE && 0 <= col < MAXSIZE
    ensures Lower(FormatPoint(RC(row, col)).value) != "pass"
  {
    var w := FormatPoint(RC(row, col)).value;
    var s := Lower(w);
    assert IsDigit(w[1]) by { assert w[1] == w[1..][0]; }
    assert s[1] == LowerChar(w[1]);
    assert IsDigit(s[1]) && !IsDigit("pass"[1]);
  }

  /** Formatting a point of the board and parsing it back gives the point; its letter is never I. */
  lemma {:induction false} FormatThenParse(row: int, col: int, boardSize: int)
    requires 2 <= boardSize <= MAXSIZE
    requires 1 <= row <= boardSize && 1 <= col <= boardSize
    requires row < MAXSIZE && col < MAXSIZE
    ensures FormatPoint(RC(row, col)).Ok?
    ensures FormatPoint(RC(row, col)).value[0] != 'I'
    ensures MoveToCoord(FormatPoint(RC(row, col)).value, boardSize) == Ok(RC(row, col))
  {
    var w := FormatPoint(RC(row, col)).value;
    var digits := DecimalString(row);
    ColumnLetterAt(col - 1);
    assert w == [ColumnLetters[col - 1]] + digits;
    LowerDigits(digits);
    var s := Lower(w);
    assert s[1..] == Lower(w[1..]) == digits;
    assert s != "pass" by { assert IsDigit(s[1]) && !IsDigit("pass"[1]); }
    assert ColumnOf(s[0]) == col;
    ParseDecimalString(row);
  }

  /** color_to_int: the colour letters "b", "w", "e" and the key "BORDER"; anything else is a KeyError. */
  function ColorToInt(c: string): (r: Option<Cell>)
    ensures r.Some? <==> c == "b" || c == "w" || c == "e" || c == "BORDER"
    ensures r == Some(Black) <==> c == "b"
    ensures r == Some(White) <==> c == "w"
  {
    if c == "b" then Some(Black)
    else if c == "w" then Some(White)
    else if c == "e" then Some(Empty)
    else if c == "BORDER" then Some(Border)
    else None
  }
}
