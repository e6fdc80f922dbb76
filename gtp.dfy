/**
 * The game state GtpConnection and its board keep, and the commands that change it:
 * cap_process (lines 434-680), check_point_is_win (lines 298-432), play_cmd (lines 809-855),
 * genmove_cmd (lines 857-895), gogui_rules_final_result_cmd (lines 767-789),
 * gogui_rules_legal_moves_cmd (lines 791-807), gogui_rules_captured_count_cmd
 * (lines 897-903) and reset (lines 161-165).
 * The fields of the board object are held here directly; its cells are a size x size array
 * in which [row - 1, col - 1] is the point (row, col).
 */
module Gtp {
  import opened Wrappers
  import opened BoardBase
  import opened Text
  import opened Coords
  import opened Grid
  import opened Capture
  import opened Win
  import opened Rules

  /** The on-board points among distances 1 .. k along d, as the loop at lines 462-487 has appended them after k rounds. */
  function NeighborsUpTo(n: int, p: Pos, d: Dir, k: nat): seq<Pos>
  {
    if k == 0 then []
    else NeighborsUpTo(n, p, d, k - 1) + (if OnBoard(n, Toward(p, d, k)) then [Toward(p, d, k)] else [])
  }

  /** After the three rounds the lists are those the blocks test. */
  lemma NeighborsAfterThree(n: int, p: Pos, d: Dir)
    ensures NeighborsUpTo(n, p, d, 3) == Neighbors(n, p, d)
  {
    assert NeighborsUpTo(n, p, d, 1) == [] + (if OnBoard(n, Toward(p, d, 1)) then [Toward(p, d, 1)] else []);
  }

  /** A neighbour list is full exactly when distances 1, 2, 3 are all on the board, and then it lists them in order. */
  lemma NeighborsShape(n: int, p: Pos, d: Dir)
    ensures |Neighbors(n, p, d)| == 3 <==> OnBoard(n, Toward(p, d, 1)) && OnBoard(n, Toward(p, d, 2)) && OnBoard(n, Toward(p, d, 3))
    ensures |Neighbors(n, p, d)| == 3 ==> Neighbors(n, p, d) == [Toward(p, d, 1), Toward(p, d, 2), Toward(p, d, 3)]
  {
  }

  /** What the blocks rely on of a neighbour list: full exactly when distances 1, 2, 3 are on the board, and then those three in order. */
  predicate ListOf(n: int, p: Pos, d: Dir, nb: seq<Pos>)
  {
    && (|nb| == 3 <==> OnBoard(n, Toward(p, d, 1)) && OnBoard(n, Toward(p, d, 2)) && OnBoard(n, Toward(p, d, 3)))
    && (|nb| == 3 ==> nb == [Toward(p, d, 1), Toward(p, d, 2), Toward(p, d, 3)])
  }

  lemma BuiltList(n: int, p: Pos, d: Dir, nb: seq<Pos>)
    requires nb == Neighbors(n, p, d)
    ensures ListOf(n, p, d, nb)
  {
    NeighborsShape(n, p, d);
  }

  /** A list gathered over the three rounds is the ray's neighbour list. */
  lemma Gathered(n: int, p: Pos, d: Dir, nb: seq<Pos>)
    requires nb == NeighborsUpTo(n, p, d, 3)
    ensures nb == Neighbors(n, p, d) && ListOf(n, p, d, nb)
  {
    NeighborsAfterThree(n, p, d);
    BuiltList(n, p, d, nb);
  }

  /**
   * The loop at lines 462-487: for distances 1 .. 3, each of the eight rays appends its
   * point when it is on the board. The lists come out as the blocks need them.
   */
  method GatherNeighbors(n: int, p: Pos)
    returns (up: seq<Pos>, down: seq<Pos>, right: seq<Pos>, left: seq<Pos>,
             upRight: seq<Pos>, downLeft: seq<Pos>, downRight: seq<Pos>, upLeft: seq<Pos>)
    ensures up == Neighbors(n, p, Up) && down == Neighbors(n, p, Down)
    ensures right == Neighbors(n, p, Right) && left == Neighbors(n, p, Left)
    ensures upRight == Neighbors(n, p, UpRight) && downLeft == Neighbors(n, p, DownLeft)
    ensures downRight == Neighbors(n, p, DownRight) && upLeft == Neighbors(n, p, UpLeft)
    ensures ListOf(n, p, Up, up) && ListOf(n, p, Down, down) && ListOf(n, p, Right, right) && ListOf(n, p, Left, left)
    ensures ListOf(n, p, UpRight, upRight) && ListOf(n, p, DownLeft, downLeft)
    ensures ListOf(n, p, DownRight, downRight) && ListOf(n, p, UpLeft, upLeft)
  {
    up, down, right, left := [], [], [], [];
    upRight, downLeft, downRight, upLeft := [], [], [], [];
    for i := 1 to 4
      invariant up == NeighborsUpTo(n, p, Up, i - 1) && down == NeighborsUpTo(n, p, Down, i - 1)
      invariant right == NeighborsUpTo(n, p, Right, i - 1) && left == NeighborsUpTo(n, p, Left, i - 1)
      invariant upRight == NeighborsUpTo(n, p, UpRight, i - 1) && downLeft == NeighborsUpTo(n, p, DownLeft, i - 1)
      invariant downRight == NeighborsUpTo(n, p, DownRight, i - 1) && upLeft == NeighborsUpTo(n, p, UpLeft, i - 1)
    {
      if OnBoard(n, Toward(p, Up, i)) { up := up + [Toward(p, Up, i)]; }
      if OnBoard(n, Toward(p, Down, i)) { down := down + [Toward(p, Down, i)]; }
      if OnBoard(n, Toward(p, Right, i)) { right := right + [Toward(p, Right, i)]; }
      if OnBoard(n, Toward(p, Left, i)) { left := left + [Toward(p, Left, i)]; }
      if OnBoard(n, Toward(p, UpRight, i)) { upRight := upRight + [Toward(p, UpRight, i)]; }
      if OnBoard(n, Toward(p, DownLeft, i)) { downLeft := downLeft + [Toward(p, DownLeft, i)]; }
      if OnBoard(n, Toward(p, DownRight, i)) { downRight := downRight + [Toward(p, DownRight, i)]; }
      if OnBoard(n, Toward(p, UpLeft, i)) { upLeft := upLeft + [Toward(p, UpLeft, i)]; }
    }
    Gathered(n, p, Up, up);
    Gathered(n, p, Down, down);
    Gathered(n, p, Right, right);
    Gathered(n, p, Left, left);
    Gathered(n, p, UpRight, upRight);
    Gathered(n, p, DownLeft, downLeft);
    Gathered(n, p, DownRight, downRight);
    Gathered(n, p, UpLeft, upLeft);
  }

  /** The stones two blocks capture. */
  function PairsOf(g: Grid, p: Pos, d1: Dir, d2: Dir): nat
    requires IsGrid(g, |g|) && OnBoard(|g|, p)
  {
    2 * Indicator(Bracketed(g, p, d1)) + 2 * Indicator(Bracketed(g, p, d2))
  }

  lemma StartFromNothing(a: set<Pos>, b: set<Pos>, c: set<Pos>, d: set<Pos>, e: set<Pos>, f: set<Pos>, g: set<Pos>, h: set<Pos>)
    ensures {} + a + b + c + d + e + f + g + h == a + b + c + d + e + f + g + h
  {
  }

  /** The gain of cap_process, block pair by block pair. */
  lemma GainByPairs(g: Grid, p: Pos)
    requires IsGrid(g, |g|) && OnBoard(|g|, p)
    ensures Gain(g, p) == PairsOf(g, p, Up, Down) + PairsOf(g, p, Right, Left)
                          + PairsOf(g, p, UpRight, UpLeft) + PairsOf(g, p, DownRight, DownLeft)
  {
  }

  /**
   * The first loop of check_point_is_win (lines 322-344): up to 5 steps along the view
   * column to each side, each side stopping at its first mismatch; true exactly when the
   * count reaches 5.
   */
  method StoppedAxis(v: Grid, a: int, b: int) returns (won: bool)
    requires IsGrid(v, |v|) && InView(|v|, a, b)
    ensures won <==> StoppedCount(v, a, b, 0, 1, 5) >= 5
  {
    var n := |v|;
    var current := v[a][b];
    var count := 1;
    var upFlag, downFlag := true, true;
    ghost var ups, downs := 0, 0;
    for i := 1 to 6
      invariant ups == Run(v, a, b, 0, 1, i - 1) && downs == Run(v, a, b, 0, -1, i - 1)
      invariant upFlag <==> ups == i - 1
      invariant downFlag <==> downs == i - 1
      invariant count == 1 + ups + downs < 5
    {
      if InView(n, a, b + i) && current == v[a][b + i] && upFlag {
        count := count + 1;
        ups := ups + 1;
      } else {
        upFlag := false;
      }
      if InView(n, a, b - i) && current == v[a][b - i] && downFlag {
        count := count + 1;
        downs := downs + 1;
      } else {
        downFlag := false;
      }
      if count >= 5 {
        StoppedCountGrows(v, a, b, 0, 1, i, 5);
        return true;
      }
    }
    return false;
  }

  /**
   * One of the loops at lines 346-430, on the axis (da, db): the negative side's mismatch
   * clears the positive side's flag, as lines 370, 398 and 426 do, and the negative side's
   * own flag is never cleared. True exactly when the count reaches 5.
   */
  method LeakyAxis(v: Grid, a: int, b: int, da: int, db: int) returns (won: bool)
    requires IsGrid(v, |v|) && InView(|v|, a, b)
    ensures won <==> LeakyCount(v, a, b, da, db, 5) >= 5
  {
    var n := |v|;
    var current := v[a][b];
    var count := 1;
    var leftFlag, rightFlag := true, true;
    ghost var rights, lefts, both := 0, 0, 0;
    for i := 1 to 6
      invariant leftFlag
      invariant rights == GuardedHits(v, a, b, da, db, i - 1) && lefts == Hits(v, a, b, -da, -db, i - 1)
      invariant both == BothRun(v, a, b, da, db, i - 1)
      invariant rightFlag <==> both == i - 1
      invariant count == 1 + rights + lefts < 5
    {
      var rx, ry := Along(a, da, i), Along(b, db, i);
      var lx, ly := Along(a, -da, i), Along(b, -db, i);
      if InView(n, rx, ry) && current == v[rx][ry] && rightFlag {
        count := count + 1;
        rights := rights + 1;
      } else {
        rightFlag := false;
      }
      if InView(n, lx, ly) && current == v[lx][ly] && leftFlag {
        count := count + 1;
        lefts := lefts + 1;
      } else {
        rightFlag := false;
      }
      if rightFlag {
        both := both + 1;
      }
      if count >= 5 {
        LeakyCountGrows(v, a, b, da, db, i, 5);
        return true;
      }
    }
    return false;
  }

  /**
   * The four axis loops of check_point_is_win in order (lines 322-430): the colour name of the
   * view position as soon as one reaches a count of 5, False when none does.
   */
  method ScanView(v: Grid, a: int, b: int) returns (result: WinResult)
    requires IsGrid(v, |v|) && InView(|v|, a, b)
    ensures result == Verdict(v, a, b)
  {
    var current := v[a][b];
    var won := StoppedAxis(v, a, b);
    if won {
      return Winner(ColorName(current));
    }
    won := LeakyAxis(v, a, b, 1, 0);
    if won {
      return Winner(ColorName(current));
    }
    won := LeakyAxis(v, a, b, 1, 1);
    if won {
      return Winner(ColorName(current));
    }
    won := LeakyAxis(v, a, b, 1, -1);
    if won {
      return Winner(ColorName(current));
    }
    return NoWin;
  }

  /** The test of a block on its neighbour list is the bracket test of the ray, and what it empties. */
  lemma BlockTest(snap: Grid, p: Pos, d: Dir, nb: seq<Pos>)
    requires IsGrid(snap, |snap|) && OnBoard(|snap|, p) && ListOf(|snap|, p, d, nb)
    ensures var mover := At(snap, p);
            var fires := |nb| == 3 && At(snap, nb[0]) == Opponent(mover) && At(snap, nb[1]) == Opponent(mover)
                         && At(snap, nb[2]) == mover;
            && (fires <==> Bracketed(snap, p, d))
            && RayClears(snap, p, d) == if fires then {nb[0], nb[1]} else {}
  {
  }

  /** Emptying no point leaves the grid as it is. */
  lemma ClearNothing(g: Grid)
    requires IsGrid(g, |g|)
    ensures ClearAll(g, {}) == g
  {
    SameGrid(ClearAll(g, {}), g);
  }

  /** Two grids of one size that agree at every point are equal. */
  lemma SameGrid(g: Grid, h: Grid)
    requires IsGrid(g, |g|) && IsGrid(h, |g|)
    requires forall q :: OnBoard(|g|, q) ==> At(g, q) == At(h, q)
    ensures g == h
  {
    forall i | 0 <= i < |g| ensures g[i] == h[i] {
      forall j | 0 <= j < |g| ensures g[i][j] == h[i][j] {
        assert At(g, Pos(i + 1, j + 1)) == At(h, Pos(i + 1, j + 1));
      }
    }
  }

  /** Emptying two more points of an already partly emptied snapshot, one after the other. */
  lemma ClearTwo(snap: Grid, done: set<Pos>, q1: Pos, q2: Pos)
    requires IsGrid(snap, |snap|) && OnBoard(|snap|, q1) && OnBoard(|snap|, q2)
    ensures Put(Put(ClearAll(snap, done), q1, Empty), q2, Empty) == ClearAll(snap, done + {q1, q2})
  {
    SameGrid(Put(Put(ClearAll(snap, done), q1, Empty), q2, Empty), ClearAll(snap, done + {q1, q2}));
  }

  /** color_to_int never sees "BORDER" from play or genmove: a lowered string has no capital letter. */
  lemma LowerIsNotBorder(s: string)
    ensures Lower(s) != "BORDER"
  {
    if |s| == 6 {
      assert Lower(s)[0] == LowerChar(s[0]) != 'B';
    }
  }

  /** Adding an even gain to whichever counter keeps both counters even. */
  lemma EvenGain(black: int, white: int, gain: int, c: Cell, newBlack: int, newWhite: int)
    requires black % 2 == 0 && white % 2 == 0 && gain % 2 == 0
    requires newBlack == black + (if c == Black then gain else 0)
    requires newWhite == white + (if c == White then gain else 0)
    ensures newBlack % 2 == 0 && newWhite % 2 == 0
  {
  }

  class GtpConnection {
    var size: nat
    var cells: array2<Cell>
    var blackCap: nat
    var whiteCap: nat
    var currentPlayer: Cell
    var lastMove: Option<Pos>
    var koRecapture: Option<Pos>
    var gameStatus: string

    /** The cell array has the board's size. */
    predicate Shaped()
      reads this`size, this`cells
    {
      cells.Length0 == size && cells.Length1 == size
    }

    /** The state every command keeps. */
    ghost predicate Valid()
      reads this`size, this`cells, this`lastMove, this`koRecapture, this`blackCap, this`whiteCap
    {
      && Shaped() && Marked() && EvenCounts()
    }

    /** The last move and the ko point, when set, are points of the board. */
    ghost predicate Marked()
      reads this`size, this`lastMove, this`koRecapture
    {
      && (lastMove.Some? ==> OnBoard(size, lastMove.value))
      && (koRecapture.Some? ==> OnBoard(size, koRecapture.value))
    }

    /** Captures come in pairs. */
    ghost predicate EvenCounts()
      reads this`blackCap, this`whiteCap
    {
      blackCap % 2 == 0 && whiteCap % 2 == 0
    }

    /** The cells as a grid. */
    function Board(): (g: Grid)
      reads this`size, this`cells, cells
      requires Shaped()
      ensures IsGrid(g, size)
    {
      var a, n := cells, size;
      seq(n, i requires 0 <= i < n reads a => seq(n, j requires 0 <= j < n reads a => a[i, j]))
    }

    /**
     * __init__ (lines 35-51) handed a board just reset to size n: board.reset is taken to
     * empty the cells, zero the counters, give black the move and forget the last and ko
     * points; the game status starts as "playing" (line 51).
     */
    constructor(n: nat)
      ensures Valid() && size == n
      ensures forall q :: OnBoard(n, q) ==> At(Board(), q) == Empty
      ensures blackCap == 0 && whiteCap == 0 && currentPlayer == Black
      ensures lastMove == None && koRecapture == None && gameStatus == "playing"
    {
      size := n;
      cells := new Cell[n, n]((i, j) => Empty);
      blackCap, whiteCap := 0, 0;
      currentPlayer := Black;
      lastMove, koRecapture := None, None;
      gameStatus := "playing";
    }

    /** reset(size) on a running connection: a fresh empty board of the given size and a new game. */
    method Reset(n: nat)
      modifies this
      ensures Valid() && size == n && fresh(cells)
      ensures forall q :: OnBoard(n, q) ==> At(Board(), q) == Empty
      ensures blackCap == 0 && whiteCap == 0 && currentPlayer == Black
      ensures lastMove == None && koRecapture == None && gameStatus == "playing"
    {
      gameStatus := "playing";
      size := n;
      cells := new Cell[n, n]((i, j) => Empty);
      blackCap, whiteCap := 0, 0;
      currentPlayer := Black;
      lastMove, koRecapture := None, None;
    }

    /** self.board.board[move] = color. */
    method SetPoint(q: Pos, c: Cell)
      requires Shaped() && OnBoard(size, q)
      modifies cells
      ensures Board() == Put(old(Board()), q, c)
    {
      ghost var before := Board();
      cells[q.row - 1, q.col - 1] := c;
      SameGrid(Board(), Put(before, q, c));
    }

    /** The two removals of a firing block (lines 498-507 and the seven like them), at the points the snapshot names. */
    method EmptyPair(snap: Grid, ghost done: set<Pos>, q1: Pos, q2: Pos)
      requires Shaped() && IsGrid(snap, size) && OnBoard(size, q1) && OnBoard(size, q2)
      requires Board() == ClearAll(snap, done)
      modifies cells
      ensures Board() == ClearAll(snap, done + {q1, q2})
    {
      SetPoint(q1, Empty);
      SetPoint(q2, Empty);
      ClearTwo(snap, done, q1, q2);
    }

    /** The counter update of a firing block (lines 509-512 and the seven like them). */
    method AddPair(mover: Cell)
      modifies this`blackCap, this`whiteCap
      ensures blackCap == old(blackCap) + (if mover == Black then 2 else 0)
      ensures whiteCap == old(whiteCap) + (if mover == White then 2 else 0)
    {
      if mover == Black {
        blackCap := blackCap + 2;
      } else if mover == White {
        whiteCap := whiteCap + 2;
      }
    }

    /** The body of a firing block: two removals, then the mover's counter. */
    method FireBlock(snap: Grid, ghost done: set<Pos>, q1: Pos, q2: Pos, mover: Cell)
      requires Shaped() && IsGrid(snap, size) && OnBoard(size, q1) && OnBoard(size, q2)
      requires Board() == ClearAll(snap, done)
      modifies cells, this`blackCap, this`whiteCap
      ensures Board() == ClearAll(snap, done + {q1, q2})
      ensures blackCap == old(blackCap) + (if mover == Black then 2 else 0)
      ensures whiteCap == old(whiteCap) + (if mover == White then 2 else 0)
    {
      EmptyPair(snap, done, q1, q2);
      AddPair(mover);
    }

    /**
     * One of the eight blocks of cap_process, for the ray d: when its neighbour list reads
     * opponent, opponent, own on the snapshot, the two opponent stones are emptied and
     * the mover's counter rises by 2. `done` is what the earlier blocks have emptied.
     */
    method Block(snap: Grid, p: Pos, d: Dir, nb: seq<Pos>, ghost done: set<Pos>)
      requires Shaped() && IsGrid(snap, size) && OnBoard(size, p)
      requires ListOf(size, p, d, nb)
      requires Board() == ClearAll(snap, done)
      modifies cells, this`blackCap, this`whiteCap
      ensures Board() == ClearAll(snap, done + RayClears(snap, p, d))
      ensures blackCap == old(blackCap) + (if At(snap, p) == Black then 2 * Indicator(Bracketed(snap, p, d)) else 0)
      ensures whiteCap == old(whiteCap) + (if At(snap, p) == White then 2 * Indicator(Bracketed(snap, p, d)) else 0)
    {
      var mover := At(snap, p);
      BlockTest(snap, p, d, nb);
      if |nb| == 3 && At(snap, nb[0]) == Opponent(mover) && At(snap, nb[1]) == Opponent(mover) && At(snap, nb[2]) == mover {
        FireBlock(snap, done, nb[0], nb[1], mover);
      } else {
        assert done + RayClears(snap, p, d) == done;
      }
    }

    /** Two blocks in a row, on the same snapshot. */
    method TwoBlocks(snap: Grid, p: Pos, d1: Dir, nb1: seq<Pos>, d2: Dir, nb2: seq<Pos>, ghost done: set<Pos>)
      requires Shaped() && IsGrid(snap, size) && OnBoard(size, p)
      requires ListOf(size, p, d1, nb1) && ListOf(size, p, d2, nb2)
      requires Board() == ClearAll(snap, done)
      modifies cells, this`blackCap, this`whiteCap
      ensures Board() == ClearAll(snap, done + RayClears(snap, p, d1) + RayClears(snap, p, d2))
      ensures blackCap == old(blackCap) + (if At(snap, p) == Black then PairsOf(snap, p, d1, d2) else 0)
      ensures whiteCap == old(whiteCap) + (if At(snap, p) == White then PairsOf(snap, p, d1, d2) else 0)
    {
      Block(snap, p, d1, nb1, done);
      Block(snap, p, d2, nb2, done + RayClears(snap, p, d1));
    }

    /** Four blocks in a row, on the same snapshot. */
    method FourBlocks(snap: Grid, p: Pos, d1: Dir, nb1: seq<Pos>, d2: Dir, nb2: seq<Pos>,
                      d3: Dir, nb3: seq<Pos>, d4: Dir, nb4: seq<Pos>, ghost done: set<Pos>)
      requires Shaped() && IsGrid(snap, size) && OnBoard(size, p)
      requires ListOf(size, p, d1, nb1) && ListOf(size, p, d2, nb2) && ListOf(size, p, d3, nb3) && ListOf(size, p, d4, nb4)
      requires Board() == ClearAll(snap, done)
      modifies cells, this`blackCap, this`whiteCap
      ensures Board() == ClearAll(snap, done + RayClears(snap, p, d1) + RayClears(snap, p, d2)
                                         + RayClears(snap, p, d3) + RayClears(snap, p, d4))
      ensures blackCap == old(blackCap) + (if At(snap, p) == Black then PairsOf(snap, p, d1, d2) + PairsOf(snap, p, d3, d4) else 0)
      ensures whiteCap == old(whiteCap) + (if At(snap, p) == White then PairsOf(snap, p, d1, d2) + PairsOf(snap, p, d3, d4) else 0)
    {
      TwoBlocks(snap, p, d1, nb1, d2, nb2, done);
      TwoBlocks(snap, p, d3, nb3, d4, nb4, done + RayClears(snap, p, d1) + RayClears(snap, p, d2));
    }

    /**
     * cap_process(p): the eight neighbour lists are gathered in one loop over distances
     * 1 .. 3 (lines 462-487), every block then tests its list on the snapshot taken
     * first (line 439) and empties on the live board (lines 490-680). The stones emptied
     * are the bracketed ones themselves, the corrected capture Capture.Apply; lines 498-507
     * address the flipped view's mirror images instead (Capture.CaptureAsWritten).
     */
    method CapProcess(p: Pos)
      requires Shaped() && OnBoard(size, p)
      modifies cells, this`blackCap, this`whiteCap
      ensures Board() == Apply(old(Board()), p)
      ensures blackCap == old(blackCap) + (if At(old(Board()), p) == Black then Gain(old(Board()), p) else 0)
      ensures whiteCap == old(whiteCap) + (if At(old(Board()), p) == White then Gain(old(Board()), p) else 0)
    {
      var snap := Board();
      var up, down, right, left, upRight, downLeft, downRight, upLeft := GatherNeighbors(size, p);
      ClearNothing(snap);
      FourBlocks(snap, p, Up, up, Down, down, Right, right, Left, left, {});
      FourBlocks(snap, p, UpRight, upRight, UpLeft, upLeft, DownRight, downRight, DownLeft, downLeft,
                 {} + RayClears(snap, p, Up) + RayClears(snap, p, Down) + RayClears(snap, p, Right) + RayClears(snap, p, Left));
      GainByPairs(snap, p);
      StartFromNothing(RayClears(snap, p, Up), RayClears(snap, p, Down), RayClears(snap, p, Right), RayClears(snap, p, Left),
                       RayClears(snap, p, UpRight), RayClears(snap, p, UpLeft), RayClears(snap, p, DownRight),
                       RayClears(snap, p, DownLeft));
    }

    /**
     * check_point_is_win(p): the loops of lines 322-430 run on the flipped view from the
     * view position of p (lines 308-311).
     */
    method CheckPointIsWin(p: Pos) returns (result: WinResult)
      requires Shaped() && OnBoard(size, p)
      ensures result == Check(Board(), p)
    {
      var v := TwoD(Board());
      result := ScanView(v, (size - 1) - (p.row - 1), p.col - 1);
    }

    /** board[move] = color, then cap_process(move), on the board g with the counters b and w; the counters stay even. */
    method SetAndCapture(q: Pos, c: Cell, ghost g: Grid, ghost b: int, ghost w: int)
      requires Valid() && OnBoard(size, q) && Board() == g && blackCap == b && whiteCap == w
      modifies cells, this`blackCap, this`whiteCap
      ensures Valid()
      ensures Board() == Apply(Put(g, q, c), q)
      ensures blackCap == b + (if c == Black then Gain(Put(g, q, c), q) else 0)
      ensures whiteCap == w + (if c == White then Gain(Put(g, q, c), q) else 0)
    {
      SetPoint(q, c);
      assert At(Put(g, q, c), q) == c;
      CapProcess(q);
      EvenGain(b, w, Gain(Put(g, q, c), q), c, blackCap, whiteCap);
      assert size == old(size) && cells == old(cells) && lastMove == old(lastMove) && koRecapture == old(koRecapture);
    }

    /**
     * A move of colour c at q, as play_cmd (lines 844-847) and genmove_cmd (lines 890-893)
     * make it: the stone is set and cap_process runs, the last move becomes q and the other
     * side is to move. cap_process neither reads nor writes the last move or the side to
     * move, so the two field updates are made first here.
     */
    method PlaceStone(q: Pos, c: Cell, ghost g: Grid)
      requires Valid() && OnBoard(size, q) && Board() == g
      modifies cells, this`blackCap, this`whiteCap, this`lastMove, this`currentPlayer
      ensures Valid()
      ensures Board() == Apply(Put(g, q, c), q)
      ensures blackCap == old(blackCap) + (if c == Black then Gain(Put(g, q, c), q) else 0)
      ensures whiteCap == old(whiteCap) + (if c == White then Gain(Put(g, q, c), q) else 0)
      ensures lastMove == Some(q) && currentPlayer == Opponent(c)
    {
      ghost var b, w := blackCap, whiteCap;
      lastMove := Some(q);
      currentPlayer := Opponent(c);
      assert Board() == g && Valid() && blackCap == b && whiteCap == w;
      SetAndCapture(q, c, g, b, w);
    }

    /**
     * play_cmd(args): the checks of lines 813-842 (DecidePlay, on the current side to move
     * and board), the reply each gives (PlayResponse), then the pass of lines 823-827 or the
     * move of lines 843-848. None is the IndexError that escapes at line 855.
     */
    method Play(args: seq<string>) returns (reply: Option<string>)
      requires Valid()
      modifies cells, this`blackCap, this`whiteCap, this`lastMove, this`currentPlayer
      ensures Valid()
      ensures var d := DecidePlay(args, size, old(currentPlayer), old(Board()));
              && reply == PlayResponse(args, d)
              && (d.Place? ==>
                    && Board() == Apply(Put(old(Board()), d.p, d.color), d.p)
                    && blackCap == old(blackCap) + (if d.color == Black then Gain(Put(old(Board()), d.p, d.color), d.p) else 0)
                    && whiteCap == old(whiteCap) + (if d.color == White then Gain(Put(old(Board()), d.p, d.color), d.p) else 0)
                    && lastMove == Some(d.p) && currentPlayer == Opponent(d.color))
              && (!d.Place? ==>
                    && Board() == old(Board()) && blackCap == old(blackCap) && whiteCap == old(whiteCap)
                    && lastMove == old(lastMove)
                    && currentPlayer == if d.PassMove? then Opponent(d.color) else old(currentPlayer))
    {
      var d := DecidePlay(args, size, currentPlayer, Board());
      reply := PlayResponse(args, d);
      match d {
        case PassMove(color) =>
          currentPlayer := Opponent(color);
          assert Board() == old(Board());
        case Place(q, color) =>
          PlaceStone(q, color, Board());
        case _ =>
      }
    }

    /**
     * What genmove_cmd decides before it moves: the colour of lines 860-861, the
     * resignation of lines 868-873, the candidates of lines 878-887 and the choice of line
     * 889, with `pick` standing for np.random.choice.
     */
    method ChooseMove(args: seq<string>, pick: nat) returns (d: GenMoveDecision)
      requires Valid()
      ensures d == DecideGenMove(args, Board(), lastMove, koRecapture, pick)
      ensures d.Choose? ==> OnBoard(size, d.p)
    {
      if |args| == 0 {
        return NoColorArgument;
      }
      var color := ColorToInt(Lower(args[0]));
      if color.None? {
        return UnknownColor;
      }
      if lastMove.Some? {
        var check := CheckPointIsWin(lastMove.value);
        if check != NoWin {
          return Resign;
        }
      }
      var listRes := Candidates(Board(), koRecapture);
      if |listRes| == 0 {
        return NoCandidate;
      }
      var move := listRes[pick % |listRes|];
      CandidatesAreEmptyPoints(Board(), koRecapture);
      assert move in listRes;
      return Choose(move, color.value);
    }

    /**
     * genmove_cmd(args): the decision (ChooseMove), then the move of lines 890-893 and the
     * reply of lines 894-895; "resign" and "pass" leave the state as it was, and None is an
     * exception that escapes. format_point reads nothing but the point, so the reply is
     * worked out before the stone is placed.
     */
    method GenMove(args: seq<string>, pick: nat) returns (reply: Option<string>)
      requires Valid()
      modifies cells, this`blackCap, this`whiteCap, this`lastMove, this`currentPlayer
      ensures Valid()
      ensures var d := DecideGenMove(args, old(Board()), old(lastMove), old(koRecapture), pick);
              && reply == GenMoveResponse(d)
              && (d.Choose? ==>
                    && Board() == Apply(Put(old(Board()), d.p, d.color), d.p)
                    && blackCap == old(blackCap) + (if d.color == Black then Gain(Put(old(Board()), d.p, d.color), d.p) else 0)
                    && whiteCap == old(whiteCap) + (if d.color == White then Gain(Put(old(Board()), d.p, d.color), d.p) else 0)
                    && lastMove == Some(d.p) && currentPlayer == Opponent(d.color))
              && (!d.Choose? ==>
                    && Board() == old(Board()) && blackCap == old(blackCap) && whiteCap == old(whiteCap)
                    && lastMove == old(lastMove) && currentPlayer == old(currentPlayer))
    {
      var d := ChooseMove(args, pick);
      reply := GenMoveResponse(d);
      if d.Choose? {
        PlaceStone(d.p, d.color, Board());
      }
    }

    /**
     * The outcome gogui_rules_final_result_cmd looks for (lines 769-787): a win at the last
     * move, then ten captures for black, then for white, then a full board; None when there
     * is none yet.
     */
    method Outcome() returns (r: Option<string>)
      requires Valid()
      ensures r == ResultOf(Board(), lastMove, blackCap, whiteCap)
    {
      ghost var g := Board();
      if lastMove.Some? {
        var lastCheck := CheckPointIsWin(lastMove.value);
        if lastCheck.Winner? {
          return Some(lastCheck.name);
        }
      }
      assert Board() == g;
      if blackCap >= 10 {
        return Some("black");
      }
      if whiteCap >= 10 {
        return Some("white");
      }
      var empties := EmptyPoints(Board());
      if |empties| == 0 {
        return Some("draw");
      }
      return None;
    }

    /**
     * gogui_rules_final_result_cmd (lines 767-789): the outcome found is the reply and
     * becomes the game status; with none, the reply is "unknown" and the status stays.
     */
    method FinalResult() returns (reply: string)
      requires Valid()
      modifies this`gameStatus
      ensures Valid()
      ensures var r := ResultOf(Board(), lastMove, blackCap, whiteCap);
              && reply == (if r.Some? then r.value else "unknown")
              && gameStatus == (if r.Some? then r.value else old(gameStatus))
    {
      var r := Outcome();
      if r.Some? {
        gameStatus := r.value;
        reply := r.value;
      } else {
        reply := "unknown";
      }
    }

    /**
     * gogui_rules_legal_moves_cmd (lines 791-807): while the game is being played, the
     * names of the empty points without the ko point, joined by spaces; otherwise the empty
     * reply. None is the ValueError format_point raises on a point it cannot name.
     */
    method LegalMoves() returns (reply: Option<string>)
      requires Valid()
      ensures reply == LegalMovesReply(Board(), koRecapture, gameStatus)
    {
      if gameStatus != "playing" {
        return Some("");
      }
      var listRes := FormatAll(EmptyPoints(Board()));
      if listRes.Err? {
        return None;
      }
      var names := listRes.value;
      if koRecapture.Some? {
        var ko := FormatPoint(RC(koRecapture.value.row, koRecapture.value.col));
        if ko.Err? {
          return None;
        }
        names := Remove(names, ko.value);
      }
      reply := Some(JoinWords(names));
    }

    /** gogui_rules_captured_count_cmd (lines 897-903): white's count, a space, black's count. */
    method CapturedCount() returns (reply: string)
      ensures reply == CapturedCountReply(whiteCap, blackCap)
      ensures var ws := Split(reply);
              |ws| == 2 && ParseInt(ws[0]) == Some(whiteCap) && ParseInt(ws[1]) == Some(blackCap)
    {
      reply := DecimalString(whiteCap) + " " + DecimalString(blackCap);
      CapturedCountReadsBack(whiteCap, blackCap);
    }
  }
}
