/**
 * The board as the rules see it: a size x size grid of cells addressed by 1-based
 * (row, col), the flipped 2D view that get_twoD_board hands to the scanners, and the
 * empty-point listing of get_empty_points. board and board_util are not part of this
 * model; what is used of them is stated here.
 */
module Grid {
  import opened Wrappers
  import opened BoardBase

  /** g[row - 1][col - 1] is the point (row, col). */
  type Grid = seq<seq<Cell>>

  /** A point of the board, 1-based. */
  datatype Pos = Pos(row: int, col: int)

  predicate IsGrid(g: Grid, n: nat)
  {
    |g| == n && forall i :: 0 <= i < n ==> |g[i]| == n
  }

  predicate OnBoard(n: int, p: Pos)
  {
    1 <= p.row <= n && 1 <= p.col <= n
  }

  function At(g: Grid, p: Pos): Cell
    requires IsGrid(g, |g|) && OnBoard(|g|, p)
  {
    g[p.row - 1][p.col - 1]
  }

  /** No point of the grid holds the border marker. */
  predicate NoBorder(g: Grid)
    requires IsGrid(g, |g|)
  {
    forall i, j :: 0 <= i < |g| && 0 <= j < |g| ==> g[i][j] != Border
  }

  /** The grid after one point is overwritten. */
  function Put(g: Grid, p: Pos, x: Cell): (h: Grid)
    requires IsGrid(g, |g|) && OnBoard(|g|, p)
    ensures IsGrid(h, |g|)
    ensures forall q :: OnBoard(|g|, q) ==> At(h, q) == if q == p then x else At(g, q)
  {
    g[p.row - 1 := g[p.row - 1][p.col - 1 := x]]
  }

  /** The grid after every point of s is emptied. */
  function ClearAll(g: Grid, s: set<Pos>): (h: Grid)
    requires IsGrid(g, |g|)
    ensures IsGrid(h, |g|)
    ensures forall q :: OnBoard(|g|, q) ==> At(h, q) == if q in s then Empty else At(g, q)
  {
    seq(|g|, i requires 0 <= i < |g| =>
      seq(|g|, j requires 0 <= j < |g| => if Pos(i + 1, j + 1) in s then Empty else g[i][j]))
  }

  /** x moved i steps in the direction d, for d in {-1, 0, 1} (kept linear for the solver). */
  function Along(x: int, d: int, i: int): int
  {
    if d == 0 then x else if d > 0 then x + i else x - i
  }

  /**
   * get_twoD_board(board), assumed to list the board's rows from row `size` down to row 1
   * (np.flipud of the row-major copy), so that view[size - row][col - 1] is the point (row, col).
   */
  function TwoD(g: Grid): (v: Grid)
    requires IsGrid(g, |g|)
    ensures IsGrid(v, |g|)
    ensures forall a :: 0 <= a < |g| ==> v[a] == g[|g| - 1 - a]
  {
    seq(|g|, a requires 0 <= a < |g| => g[|g| - 1 - a])
  }

  /** p comes before q in get_empty_points order (increasing point index: row by row, then column). */
  predicate Before(p: Pos, q: Pos)
  {
    p.row < q.row || (p.row == q.row && p.col < q.col)
  }

  /** The empty points of row r from column c on, in column order. */
  function EmptyInRow(g: Grid, r: int, c: int): (ps: seq<Pos>)
    requires IsGrid(g, |g|) && 1 <= r <= |g| && 1 <= c
    ensures forall q :: q in ps <==> q.row == r && c <= q.col <= |g| && At(g, q) == Empty
    ensures forall i, j :: 0 <= i < j < |ps| ==> ps[i].row == ps[j].row == r && ps[i].col < ps[j].col
    decreases |g| + 1 - c
  {
    if c > |g| then []
    else (if g[r - 1][c - 1] == Empty then [Pos(r, c)] else []) + EmptyInRow(g, r, c + 1)
  }

  /** The empty points of rows r .. size, row by row. */
  function EmptyFromRow(g: Grid, r: int): (ps: seq<Pos>)
    requires IsGrid(g, |g|) && 1 <= r
    ensures forall q :: q in ps <==> r <= q.row && OnBoard(|g|, q) && At(g, q) == Empty
    ensures forall i, j :: 0 <= i < j < |ps| ==> Before(ps[i], ps[j])
    decreases |g| + 1 - r
  {
    if r > |g| then []
    else
      var here, later := EmptyInRow(g, r, 1), EmptyFromRow(g, r + 1);
      assert forall i, j :: 0 <= i < |here| && 0 <= j < |later| ==> Before(here[i], later[j]) by {
        forall i, j | 0 <= i < |here| && 0 <= j < |later| ensures Before(here[i], later[j]) {
          assert here[i] in here && later[j] in later;
        }
      }
      here + later
  }

  /** get_empty_points: the empty points of the board in increasing point order. */
  function EmptyPoints(g: Grid): (ps: seq<Pos>)
    requires IsGrid(g, |g|)
    ensures forall q :: q in ps <==> OnBoard(|g|, q) && At(g, q) == Empty
    ensures forall i, j :: 0 <= i < j < |ps| ==> Before(ps[i], ps[j])
  {
    EmptyFromRow(g, 1)
  }

  /** list.remove(x) guarded by `x in list`: drops the first occurrence, if any (RemoveFirstOccurrence). */
  function Remove<T(==)>(xs: seq<T>, x: T): (ys: seq<T>)
    ensures x !in xs ==> ys == xs
    ensures x in xs ==> |ys| == |xs| - 1
    ensures forall y :: y in ys ==> y in xs
  {
    if xs == [] then []
    else if xs[0] == x then xs[1..]
    else [xs[0]] + Remove(xs[1..], x)
  }

  /** The position of the first occurrence of x, as list.index(x) finds it. */
  function FirstIndex<T(==)>(xs: seq<T>, x: T): (i: nat)
    requires x in xs
    ensures i < |xs| && xs[i] == x && x !in xs[..i]
  {
    if xs[0] == x then 0
    else
      var j := FirstIndex(xs[1..], x);
      assert xs[..j + 1] == [xs[0]] + xs[1..][..j];
      j + 1
  }

  /** When x is present, Remove drops exactly its first occurrence and keeps the rest in order. */
  lemma {:induction false} RemoveFirstOccurrence<T>(xs: seq<T>, x: T)
    requires x in xs
    ensures var i := FirstIndex(xs, x); Remove(xs, x) == xs[..i] + xs[i + 1..]
  {
    if xs[0] != x {
      var j := FirstIndex(xs[1..], x);
      RemoveFirstOccurrence(xs[1..], x);
      assert xs[..j + 1] == [xs[0]] + xs[1..][..j];
      assert xs[j + 2..] == xs[1..][j + 1..];
    }
  }

  predicate Distinct<T(==)>(xs: seq<T>)
  {
    forall i, j :: 0 <= i < j < |xs| ==> xs[i] != xs[j]
  }

  /** In a list without repetitions, remove drops exactly the one element. */
  lemma {:induction false} RemoveDistinct<T>(xs: seq<T>, x: T)
    requires Distinct(xs)
    ensures forall y :: y in Remove(xs, x) <==> y in xs && y != x
    ensures Distinct(Remove(xs, x))
  {
    if xs != [] && xs[0] != x {
      assert Distinct(xs[1..]) by {
        forall i, j | 0 <= i < j < |xs[1..]| ensures xs[1..][i] != xs[1..][j] {
          assert xs[1..][i] == xs[i + 1] && xs[1..][j] == xs[j + 1];
        }
      }
      RemoveDistinct(xs[1..], x);
      assert xs[0] !in xs[1..] by {
        forall k | 0 <= k < |xs[1..]| ensures xs[1..][k] != xs[0] { assert xs[1..][k] == xs[k + 1]; }
      }
    } else if xs != [] {
      forall y | y in xs[1..] ensures y != x {
        var k :| 0 <= k < |xs[1..]| && xs[1..][k] == y;
        assert xs[k + 1] == y;
      }
    }
  }

  /** The points genmove may play (lines 878-882): the empty points minus the ko point. */
  function Candidates(g: Grid, ko: Option<Pos>): (ps: seq<Pos>)
    requires IsGrid(g, |g|)
  {
    match ko
    case None => EmptyPoints(g)
    case Some(k) => Remove(EmptyPoints(g), k)
  }

  /** A point is a candidate exactly when it is empty, on the board, and not the ko point. */
  lemma CandidatesAreEmptyPoints(g: Grid, ko: Option<Pos>)
    requires IsGrid(g, |g|)
    ensures forall q :: q in Candidates(g, ko) <==> OnBoard(|g|, q) && At(g, q) == Empty && ko != Some(q)
    ensures Candidates(g, ko) == [] <==> forall q :: OnBoard(|g|, q) && At(g, q) == Empty ==> ko == Some(q)
  {
    CandidateMembers(g, ko);
    var cs := Candidates(g, ko);
    if cs != [] {
      assert cs[0] in cs;
    }
  }

  /** The membership half of CandidatesAreEmptyPoints. */
  lemma CandidateMembers(g: Grid, ko: Option<Pos>)
    requires IsGrid(g, |g|)
    ensures forall q :: q in Candidates(g, ko) <==> q in EmptyPoints(g) && ko != Some(q)
  {
    if ko.Some? {
      EmptyPointsDistinct(g);
      RemoveDistinct(EmptyPoints(g), ko.value);
    }
  }

  /** get_empty_points lists no point twice. */
  lemma EmptyPointsDistinct(g: Grid)
    requires IsGrid(g, |g|)
    ensures Distinct(EmptyPoints(g))
  {
    var ps := EmptyPoints(g);
    forall i, j | 0 <= i < j < |ps| ensures ps[i] != ps[j] {
      assert Before(ps[i], ps[j]);
    }
  }
}
