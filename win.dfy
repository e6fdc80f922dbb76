/**
 * The five-in-a-row test of GtpConnection.check_point_is_win (lines 298-432), as the counts
 * its four loops reach. The loops walk the flipped 2D view v (see Grid.TwoD) from the
 * view position (a, b) of the point, at most 5 steps to each side of an axis.
 *
 * The first axis stops each side at the first mismatch, as the docstring's "5 connected"
 * rule intends. On the other three axes the negative-side mismatch clears the positive
 * side's flag (lines 370, 398 and 426) and nothing ever clears the negative side's flag, so
 * the negative side counts every matching step up to 5, gaps included. The counts below
 * are those the code computes.
 */
module Win {
  import opened BoardBase
  import opened Grid

  /** What check_point_is_win returns: False, or the colour name of its int_to_color. */
  datatype WinResult = NoWin | Winner(name: string)

  /** int_to_color: "black", "white", or "ERROR" for any other code. */
  function ColorName(c: Cell): (s: string)
    ensures s == "black" <==> c == Black
    ensures s == "white" <==> c == White
    ensures s == "ERROR" <==> c != Black && c != White
  {
    if c == Black then "black" else if c == White then "white" else "ERROR"
  }

  /** is_within_board of the view. */
  predicate InView(n: int, x: int, y: int)
  {
    0 <= x < n && 0 <= y < n
  }

  /** Step i from (a, b) along (da, db) is on the view and holds the colour found at (a, b). */
  predicate Same(v: Grid, a: int, b: int, da: int, db: int, i: int)
    requires IsGrid(v, |v|) && InView(|v|, a, b)
  {
    var x, y := Along(a, da, i), Along(b, db, i);
    InView(|v|, x, y) && v[x][y] == v[a][b]
  }

  /** What a side with its own stop flag adds in k steps: the length of its leading run of matches. */
  function Run(v: Grid, a: int, b: int, da: int, db: int, k: nat): (r: nat)
    requires IsGrid(v, |v|) && InView(|v|, a, b)
    ensures r <= k
  {
    if k == 0 then 0
    else
      var before := Run(v, a, b, da, db, k - 1);
      before + (if before == k - 1 && Same(v, a, b, da, db, k) then 1 else 0)
  }

  /** What a side whose flag is never cleared adds in k steps: every matching step. */
  function Hits(v: Grid, a: int, b: int, da: int, db: int, k: nat): (r: nat)
    requires IsGrid(v, |v|) && InView(|v|, a, b)
    ensures r <= k
  {
    if k == 0 then 0
    else Hits(v, a, b, da, db, k - 1) + (if Same(v, a, b, da, db, k) then 1 else 0)
  }

  /** The steps, among the first k, up to which both sides of the axis matched at every step. */
  function BothRun(v: Grid, a: int, b: int, da: int, db: int, k: nat): (r: nat)
    requires IsGrid(v, |v|) && InView(|v|, a, b)
    ensures r <= k
  {
    if k == 0 then 0
    else
      var before := BothRun(v, a, b, da, db, k - 1);
      before + (if before == k - 1 && BothSame(v, a, b, da, db, k) then 1 else 0)
  }

  /**
   * What the positive side of axes 2-4 adds in k steps: a matching step counts only while
   * every earlier step matched on both sides, since either side's mismatch clears R.
   */
  function GuardedHits(v: Grid, a: int, b: int, da: int, db: int, k: nat): (r: nat)
    requires IsGrid(v, |v|) && InView(|v|, a, b)
    ensures r <= k
  {
    if k == 0 then 0
    else
      GuardedHits(v, a, b, da, db, k - 1)
      + (if Same(v, a, b, da, db, k) && BothRun(v, a, b, da, db, k - 1) == k - 1 then 1 else 0)
  }

  /** Run is the length of the leading run of matches: every step up to it matches, the next does not. */
  lemma {:induction false} RunMatches(v: Grid, a: int, b: int, da: int, db: int, k: nat)
    requires IsGrid(v, |v|) && InView(|v|, a, b)
    ensures forall j :: 1 <= j <= Run(v, a, b, da, db, k) ==> Same(v, a, b, da, db, j)
    ensures Run(v, a, b, da, db, k) < k ==> !Same(v, a, b, da, db, Run(v, a, b, da, db, k) + 1)
  {
    if k > 0 {
      RunMatches(v, a, b, da, db, k - 1);
      var before := Run(v, a, b, da, db, k - 1);
      if before == k - 1 && Same(v, a, b, da, db, k) {
        assert Run(v, a, b, da, db, k) == k;
      } else {
        assert Run(v, a, b, da, db, k) == before;
      }
    } else {
      assert Run(v, a, b, da, db, k) == 0;
    }
  }

  /** Step i matches on both sides of the axis. */
  predicate BothSame(v: Grid, a: int, b: int, da: int, db: int, i: int)
    requires IsGrid(v, |v|) && InView(|v|, a, b)
  {
    Same(v, a, b, da, db, i) && Same(v, a, b, -da, -db, i)
  }

  /** BothRun is the length of the leading run of steps that match on both sides. */
  lemma {:induction false} BothRunMatches(v: Grid, a: int, b: int, da: int, db: int, k: nat)
    requires IsGrid(v, |v|) && InView(|v|, a, b)
    ensures forall j :: 1 <= j <= BothRun(v, a, b, da, db, k) ==> BothSame(v, a, b, da, db, j)
    ensures BothRun(v, a, b, da, db, k) < k ==> !BothSame(v, a, b, da, db, BothRun(v, a, b, da, db, k) + 1)
  {
    var r := BothRun(v, a, b, da, db, k);
    if k > 0 {
      BothRunMatches(v, a, b, da, db, k - 1);
      var before := BothRun(v, a, b, da, db, k - 1);
      if before == k - 1 && BothSame(v, a, b, da, db, k) {
        assert r == k;
        forall j | 1 <= j <= r ensures BothSame(v, a, b, da, db, j) {
          if j < k {
            assert j <= before;
          }
        }
      } else {
        assert r == before;
        if before == k - 1 {
          assert !BothSame(v, a, b, da, db, before + 1);
        }
      }
    } else {
      assert r == 0;
    }
  }

  /** count after k steps of the first loop (lines 322-344), on the axis (da, db). */
  function StoppedCount(v: Grid, a: int, b: int, da: int, db: int, k: nat): nat
    requires IsGrid(v, |v|) && InView(|v|, a, b)
  {
    1 + Run(v, a, b, da, db, k) + Run(v, a, b, -da, -db, k)
  }

  /** count after k steps of the loops of lines 346-430, on the axis (da, db). */
  function LeakyCount(v: Grid, a: int, b: int, da: int, db: int, k: nat): nat
    requires IsGrid(v, |v|) && InView(|v|, a, b)
  {
    1 + GuardedHits(v, a, b, da, db, k) + Hits(v, a, b, -da, -db, k)
  }

  /** Some axis loop reaches 5: the first along view columns, then view rows and the two diagonals. */
  predicate Fires(v: Grid, a: int, b: int)
    requires IsGrid(v, |v|) && InView(|v|, a, b)
  {
    StoppedCount(v, a, b, 0, 1, 5) >= 5 || LeakyCount(v, a, b, 1, 0, 5) >= 5
    || LeakyCount(v, a, b, 1, 1, 5) >= 5 || LeakyCount(v, a, b, 1, -1, 5) >= 5
  }

  /** The value check_point_is_win returns for the view position (a, b). */
  function Verdict(v: Grid, a: int, b: int): (r: WinResult)
    requires IsGrid(v, |v|) && InView(|v|, a, b)
    ensures r == NoWin <==> !Fires(v, a, b)
    ensures r.Winner? ==> r.name == ColorName(v[a][b])
  {
    if Fires(v, a, b) then Winner(ColorName(v[a][b])) else NoWin
  }

  /** The view position of the board point p: lines 308-311. */
  function ViewRow(n: int, p: Pos): int
  {
    (n - 1) - (p.row - 1)
  }

  /** check_point_is_win(p) on the board g. */
  function Check(g: Grid, p: Pos): (r: WinResult)
    requires IsGrid(g, |g|) && OnBoard(|g|, p)
    ensures r == NoWin || r == Winner(ColorName(At(g, p)))
  {
    var v := TwoD(g);
    Verdict(v, ViewRow(|g|, p), p.col - 1)
  }

  /** A side with its own stop flag only adds more with more steps. */
  lemma {:induction false} RunGrows(v: Grid, a: int, b: int, da: int, db: int, j: nat, k: nat)
    requires IsGrid(v, |v|) && InView(|v|, a, b)
    requires j <= k
    ensures Run(v, a, b, da, db, j) <= Run(v, a, b, da, db, k)
    decreases k - j
  {
    if j < k {
      RunGrows(v, a, b, da, db, j, k - 1);
    }
  }

  /** A side whose flag is never cleared only adds more with more steps. */
  lemma {:induction false} HitsGrow(v: Grid, a: int, b: int, da: int, db: int, j: nat, k: nat)
    requires IsGrid(v, |v|) && InView(|v|, a, b)
    requires j <= k
    ensures Hits(v, a, b, da, db, j) <= Hits(v, a, b, da, db, k)
    decreases k - j
  {
    if j < k {
      HitsGrow(v, a, b, da, db, j, k - 1);
    }
  }

  /** The guarded positive side of axes 2-4 only adds more with more steps. */
  lemma {:induction false} GuardedHitsGrow(v: Grid, a: int, b: int, da: int, db: int, j: nat, k: nat)
    requires IsGrid(v, |v|) && InView(|v|, a, b)
    requires j <= k
    ensures GuardedHits(v, a, b, da, db, j) <= GuardedHits(v, a, b, da, db, k)
    decreases k - j
  {
    if j < k {
      GuardedHitsGrow(v, a, b, da, db, j, k - 1);
    }
  }

  /** The count of the first loop only grows with the number of steps. */
  lemma StoppedCountGrows(v: Grid, a: int, b: int, da: int, db: int, j: nat, k: nat)
    requires IsGrid(v, |v|) && InView(|v|, a, b)
    requires j <= k
    ensures StoppedCount(v, a, b, da, db, j) <= StoppedCount(v, a, b, da, db, k)
  {
    RunGrows(v, a, b, da, db, j, k);
    RunGrows(v, a, b, -da, -db, j, k);
  }

  /** The count of the other loops only grows with the number of steps. */
  lemma LeakyCountGrows(v: Grid, a: int, b: int, da: int, db: int, j: nat, k: nat)
    requires IsGrid(v, |v|) && InView(|v|, a, b)
    requires j <= k
    ensures LeakyCount(v, a, b, da, db, j) <= LeakyCount(v, a, b, da, db, k)
  {
    GuardedHitsGrow(v, a, b, da, db, j, k);
    HitsGrow(v, a, b, -da, -db, j, k);
  }

  /** Offset k along the axis (da, db): positive offsets on the positive side, negative ones on the other. */
  predicate SameAt(v: Grid, a: int, b: int, da: int, db: int, k: int)
    requires IsGrid(v, |v|) && InView(|v|, a, b)
  {
    if k >= 0 then Same(v, a, b, da, db, k) else Same(v, a, b, -da, -db, -k)
  }

  /** The five offsets s .. s + 4 of the axis (da, db) all hold the point's colour. */
  predicate Window(v: Grid, a: int, b: int, da: int, db: int, s: int)
    requires IsGrid(v, |v|) && InView(|v|, a, b)
  {
    forall k :: s <= k <= s + 4 ==> SameAt(v, a, b, da, db, k)
  }

  /** The docstring's rule on one axis: five consecutive cells of the point's colour, the point among them. */
  predicate Connected5(v: Grid, a: int, b: int, da: int, db: int)
    requires IsGrid(v, |v|) && InView(|v|, a, b)
  {
    exists s :: -4 <= s <= 0 && Window(v, a, b, da, db, s)
  }

  /** The rule on any of the four axes. */
  predicate AnyConnected5(v: Grid, a: int, b: int)
    requires IsGrid(v, |v|) && InView(|v|, a, b)
  {
    Connected5(v, a, b, 0, 1) || Connected5(v, a, b, 1, 0) || Connected5(v, a, b, 1, 1) || Connected5(v, a, b, 1, -1)
  }

  /** A side whose first m steps all match runs at least m steps. */
  lemma RunReaches(v: Grid, a: int, b: int, da: int, db: int, m: nat, k: nat)
    requires IsGrid(v, |v|) && InView(|v|, a, b)
    requires m <= k && forall j :: 1 <= j <= m ==> Same(v, a, b, da, db, j)
    ensures Run(v, a, b, da, db, k) >= m
  {
    RunMatches(v, a, b, da, db, k);
  }

  /** A loop with a stop flag per side reaches 5 exactly when five connected cells pass through the point. */
  lemma StoppedCountIsConnected5(v: Grid, a: int, b: int, da: int, db: int)
    requires IsGrid(v, |v|) && InView(|v|, a, b)
    ensures StoppedCount(v, a, b, da, db, 5) >= 5 <==> Connected5(v, a, b, da, db)
  {
    var r1, r2 := Run(v, a, b, da, db, 5), Run(v, a, b, -da, -db, 5);
    RunMatches(v, a, b, da, db, 5);
    RunMatches(v, a, b, -da, -db, 5);
    assert Same(v, a, b, da, db, 0);
    if r1 + r2 >= 4 {
      var m := if r1 >= 4 then 4 else r1;
      var s := m as int - 4;
      forall k | s <= k <= s + 4 ensures SameAt(v, a, b, da, db, k) {
        if k < 0 {
          assert 1 <= -k <= r2;
        }
      }
      assert Window(v, a, b, da, db, s);
    }
    if Connected5(v, a, b, da, db) {
      var s: int :| -4 <= s <= 0 && Window(v, a, b, da, db, s);
      forall j | 1 <= j <= s + 4 ensures Same(v, a, b, da, db, j) {
        assert SameAt(v, a, b, da, db, j);
      }
      var ea, eb := -da, -db;
      forall j | 1 <= j <= -s ensures Same(v, a, b, ea, eb, j) {
        assert SameAt(v, a, b, da, db, -j);
      }
      RunReaches(v, a, b, da, db, s + 4, 5);
      RunReaches(v, a, b, ea, eb, -s, 5);
    }
  }

  /** Columns s .. s + 4 of board row r all hold c. */
  predicate RowRun(g: Grid, r: int, s: int, c: Cell)
    requires IsGrid(g, |g|) && 1 <= r <= |g| && 1 <= s && s + 4 <= |g|
  {
    forall col :: s <= col <= s + 4 ==> At(g, Pos(r, col)) == c
  }

  /** Five in a board row: the only form of the rule the code implements in full. */
  predicate RowFive(g: Grid, p: Pos)
    requires IsGrid(g, |g|) && OnBoard(|g|, p)
  {
    exists s :: p.col - 4 <= s <= p.col && 1 <= s && s + 4 <= |g| && RowRun(g, p.row, s, At(g, p))
  }

  /** In the view, offset k along the first axis is the board point k columns from p. */
  lemma FirstAxisOffset(g: Grid, p: Pos, k: int)
    requires IsGrid(g, |g|) && OnBoard(|g|, p)
    ensures SameAt(TwoD(g), ViewRow(|g|, p), p.col - 1, 0, 1, k)
            <==> 1 <= p.col + k <= |g| && At(g, Pos(p.row, p.col + k)) == At(g, p)
  {
    var v, a := TwoD(g), ViewRow(|g|, p);
    assert v[a] == g[p.row - 1];
  }

  /** On the board, the first loop reaches 5 exactly when p lies in five same-coloured cells of its row. */
  lemma FirstAxisIsRowFive(g: Grid, p: Pos)
    requires IsGrid(g, |g|) && OnBoard(|g|, p)
    ensures StoppedCount(TwoD(g), ViewRow(|g|, p), p.col - 1, 0, 1, 5) >= 5 <==> RowFive(g, p)
  {
    var n, v, a, b := |g|, TwoD(g), ViewRow(|g|, p), p.col - 1;
    StoppedCountIsConnected5(v, a, b, 0, 1);
    if Connected5(v, a, b, 0, 1) {
      var s :| -4 <= s <= 0 && Window(v, a, b, 0, 1, s);
      FirstAxisOffset(g, p, s);
      FirstAxisOffset(g, p, s + 4);
      var t := p.col + s;
      forall c | t <= c <= t + 4 ensures At(g, Pos(p.row, c)) == At(g, p) {
        FirstAxisOffset(g, p, c - p.col);
      }
      assert RowRun(g, p.row, t, At(g, p));
    }
    if RowFive(g, p) {
      var t :| p.col - 4 <= t <= p.col && 1 <= t && t + 4 <= n && RowRun(g, p.row, t, At(g, p));
      var s := t - p.col;
      forall k | s <= k <= s + 4 ensures SameAt(v, a, b, 0, 1, k) {
        FirstAxisOffset(g, p, k);
      }
      assert Window(v, a, b, 0, 1, s);
    }
  }

  /** Five in a row through the last stone wins for that stone's colour; no win means no such row. */
  lemma RowFiveWins(g: Grid, p: Pos)
    requires IsGrid(g, |g|) && OnBoard(|g|, p)
    ensures RowFive(g, p) ==> Check(g, p) == Winner(ColorName(At(g, p)))
    ensures Check(g, p) == NoWin ==> !RowFive(g, p)
  {
    FirstAxisIsRowFive(g, p);
  }

  /** A side that matches at none of the first k steps adds nothing. */
  lemma {:induction false} HitsNone(v: Grid, a: int, b: int, da: int, db: int, k: nat)
    requires IsGrid(v, |v|) && InView(|v|, a, b)
    requires forall j :: 1 <= j <= k ==> !Same(v, a, b, da, db, j)
    ensures Hits(v, a, b, da, db, k) == 0
  {
    if k > 0 {
      HitsNone(v, a, b, da, db, k - 1);
    }
  }

  /**
   * Lines 370, 398 and 426: once either side mismatches at step j, the positive side of
   * axes 2-4 counts nothing after step j.
   */
  lemma {:induction false} MismatchHaltsPositiveSide(v: Grid, a: int, b: int, da: int, db: int, j: nat, k: nat)
    requires IsGrid(v, |v|) && InView(|v|, a, b)
    requires 1 <= j <= k
    requires !Same(v, a, b, da, db, j) || !Same(v, a, b, -da, -db, j)
    ensures GuardedHits(v, a, b, da, db, k) == GuardedHits(v, a, b, da, db, j)
  {
    if j < k {
      MismatchHaltsPositiveSide(v, a, b, da, db, j, k - 1);
      var r := BothRun(v, a, b, da, db, k - 1);
      BothRunMatches(v, a, b, da, db, k - 1);
      assert !BothSame(v, a, b, da, db, j);
      assert r < j;
    }
  }

  /**
   * A 5 x 5 board whose column 1 is black throughout, with (4, 2) and (5, 2) empty. The
   * stones of column 1 lie on the view's axis of lines 346-372; from the top stone (5, 1)
   * they extend only to the positive side.
   */
  predicate ColumnExample(g: Grid)
  {
    && IsGrid(g, 5)
    && (forall r :: 0 <= r < 5 ==> g[r][0] == Black)
    && g[3][1] == Empty && g[4][1] == Empty
  }

  /** The negative side is off the board at once, which halts the positive side after one step. */
  lemma ColumnExampleCounts(g: Grid)
    requires ColumnExample(g)
    ensures var v := TwoD(g);
            && Connected5(v, 0, 0, 1, 0)
            && StoppedCount(v, 0, 0, 0, 1, 5) == 1
            && LeakyCount(v, 0, 0, 1, 0, 5) == 2
            && LeakyCount(v, 0, 0, 1, 1, 5) == 1
            && LeakyCount(v, 0, 0, 1, -1, 5) == 1
  {
    var v := TwoD(g);
    assert v[0][0] == Black && v[1][0] == Black && v[2][0] == Black && v[3][0] == Black && v[4][0] == Black;
    assert v[0][1] == Empty && v[1][1] == Empty;
    forall k | 0 <= k <= 4 ensures SameAt(v, 0, 0, 1, 0, k) {
      assert v[k][0] == Black;
    }
    assert Window(v, 0, 0, 1, 0, 0);
    assert !Same(v, 0, 0, 0, 1, 1) && !Same(v, 0, 0, 0, -1, 1);
    assert !Same(v, 0, 0, -1, 0, 1) && !Same(v, 0, 0, 1, 1, 1) && !Same(v, 0, 0, 1, -1, 1);
    RunMatches(v, 0, 0, 0, 1, 5);
    RunMatches(v, 0, 0, 0, -1, 5);
    HitsNone(v, 0, 0, -1, 0, 5);
    HitsNone(v, 0, 0, -1, -1, 5);
    HitsNone(v, 0, 0, -1, 1, 5);
    MismatchHaltsPositiveSide(v, 0, 0, 1, 0, 1, 5);
    MismatchHaltsPositiveSide(v, 0, 0, 1, 1, 1, 5);
    MismatchHaltsPositiveSide(v, 0, 0, 1, -1, 1, 5);
    assert Same(v, 0, 0, 1, 0, 1);
  }

  /** Five connected stones that end at the checked stone are missed. */
  lemma ColumnFiveMissed(g: Grid)
    requires ColumnExample(g)
    ensures AnyConnected5(TwoD(g), 0, 0)
    ensures Check(g, Pos(5, 1)) == NoWin
  {
    ColumnExampleCounts(g);
  }

  /**
   * A 6 x 6 board whose column 1 is black except at row 3, with (1, 2) and (2, 2) empty.
   * From (1, 1) the negative side of the view-row axis meets the gap at its second step.
   */
  predicate GapExample(g: Grid)
  {
    && IsGrid(g, 6)
    && g[0][0] == Black && g[1][0] == Black && g[2][0] == Empty
    && g[3][0] == Black && g[4][0] == Black && g[5][0] == Black
    && g[0][1] == Empty && g[1][1] == Empty
  }

  /** A gapped line of five stones wins for black although no five connected cells pass through (1, 1). */
  lemma GapCountedAsFive(g: Grid)
    requires GapExample(g)
    ensures !AnyConnected5(TwoD(g), 5, 0)
    ensures Check(g, Pos(1, 1)) == Winner("black")
  {
    var v := TwoD(g);
    assert v[5][0] == Black && v[4][0] == Black && v[3][0] == Empty;
    assert v[2][0] == Black && v[1][0] == Black && v[0][0] == Black;
    assert v[5][1] == Empty && v[4][1] == Empty;
    assert Hits(v, 5, 0, -1, 0, 1) == 1;
    assert Hits(v, 5, 0, -1, 0, 2) == 1;
    assert Hits(v, 5, 0, -1, 0, 3) == 2;
    assert Hits(v, 5, 0, -1, 0, 4) == 3;
    assert Hits(v, 5, 0, -1, 0, 5) == 4;
    assert LeakyCount(v, 5, 0, 1, 0, 5) >= 5;
    assert !SameAt(v, 5, 0, 0, 1, 1) && !SameAt(v, 5, 0, 0, 1, -1);
    assert !SameAt(v, 5, 0, 1, 1, 1) && !SameAt(v, 5, 0, 1, 1, -1);
    assert !SameAt(v, 5, 0, 1, -1, 1) && !SameAt(v, 5, 0, 1, -1, -1);
    assert !SameAt(v, 5, 0, 1, 0, 1) && !SameAt(v, 5, 0, 1, 0, -2);
  }
}
