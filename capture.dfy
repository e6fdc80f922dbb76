/**
 * Pair capture, GtpConnection.cap_process (lines 434-680): after a stone is placed, each
 * of the eight rays from it that reads opponent, opponent, own at distances 1, 2, 3 loses
 * its two opponent stones, and the mover's capture counter rises by 2 per such ray.
 * Every ray is judged on one snapshot of the board taken after the placement.
 * Stated in board coordinates; CaptureAsWritten records the addressing of lines 498-507.
 */
module Capture {
  import opened BoardBase
  import opened Grid

  /** A unit step in board coordinates: rows dr, columns dc, each in {-1, 0, 1}. */
  datatype Dir = Dir(dr: int, dc: int)

  // The eight rays of lines 464-471. They step in the flipped view, where a view row + i is
  // board row - i, so "right" (view row + i) walks toward row 1 on the board.
  const Up: Dir := Dir(0, 1)
  const Down: Dir := Dir(0, -1)
  const Right: Dir := Dir(-1, 0)
  const Left: Dir := Dir(1, 0)
  const UpRight: Dir := Dir(-1, 1)
  const UpLeft: Dir := Dir(1, 1)
  const DownRight: Dir := Dir(-1, -1)
  const DownLeft: Dir := Dir(1, -1)

  /** The k-th ray, in the order of the eight blocks at lines 490-680. */
  function Ray(k: int): (d: Dir)
    requires 0 <= k < 8
    ensures d.dr != 0 || d.dc != 0
  {
    if k == 0 then Up else if k == 1 then Down else if k == 2 then Right else if k == 3 then Left
    else if k == 4 then UpRight else if k == 5 then UpLeft else if k == 6 then DownRight else DownLeft
  }

  /** The point i steps from p along d. */
  function Toward(p: Pos, d: Dir, i: int): Pos
  {
    Pos(Along(p.row, d.dr, i), Along(p.col, d.dc, i))
  }

  /** The on-board points among distances 1, 2, 3 along d, nearest first (the *_nighbors lists). */
  function Neighbors(n: int, p: Pos, d: Dir): (nb: seq<Pos>)
    ensures |nb| <= 3
    ensures forall k :: 0 <= k < |nb| ==> OnBoard(n, nb[k])
  {
    (if OnBoard(n, Toward(p, d, 1)) then [Toward(p, d, 1)] else [])
    + (if OnBoard(n, Toward(p, d, 2)) then [Toward(p, d, 2)] else [])
    + (if OnBoard(n, Toward(p, d, 3)) then [Toward(p, d, 3)] else [])
  }

  /** The test of one block: three neighbours on the board reading opponent, opponent, own. */
  predicate Fires(g: Grid, p: Pos, d: Dir)
    requires IsGrid(g, |g|) && OnBoard(|g|, p)
  {
    var nb := Neighbors(|g|, p, d);
    var mover := At(g, p);
    |nb| == 3 && At(g, nb[0]) == Opponent(mover) && At(g, nb[1]) == Opponent(mover) && At(g, nb[2]) == mover
  }

  /** The bracket in plain terms: distances 1, 2, 3 on the board, opponent, opponent, own. */
  predicate Bracketed(g: Grid, p: Pos, d: Dir)
    requires IsGrid(g, |g|) && OnBoard(|g|, p)
  {
    var n := |g|;
    var mover := At(g, p);
    OnBoard(n, Toward(p, d, 1)) && OnBoard(n, Toward(p, d, 2)) && OnBoard(n, Toward(p, d, 3))
    && At(g, Toward(p, d, 1)) == Opponent(mover) && At(g, Toward(p, d, 2)) == Opponent(mover)
    && At(g, Toward(p, d, 3)) == mover
  }

  /** The two points one block empties. */
  function RayClears(g: Grid, p: Pos, d: Dir): set<Pos>
    requires IsGrid(g, |g|) && OnBoard(|g|, p)
  {
    if Bracketed(g, p, d) then {Toward(p, d, 1), Toward(p, d, 2)} else {}
  }

  function Indicator(b: bool): nat
  {
    if b then 1 else 0
  }

  /** How many of the eight blocks fire on the snapshot g. */
  function Firings(g: Grid, p: Pos): (f: nat)
    requires IsGrid(g, |g|) && OnBoard(|g|, p)
    ensures f <= 8
  {
    Indicator(Bracketed(g, p, Up)) + Indicator(Bracketed(g, p, Down))
    + Indicator(Bracketed(g, p, Right)) + Indicator(Bracketed(g, p, Left))
    + Indicator(Bracketed(g, p, UpRight)) + Indicator(Bracketed(g, p, UpLeft))
    + Indicator(Bracketed(g, p, DownRight)) + Indicator(Bracketed(g, p, DownLeft))
  }

  /** Every point the eight blocks empty. */
  function Cleared(g: Grid, p: Pos): set<Pos>
    requires IsGrid(g, |g|) && OnBoard(|g|, p)
  {
    RayClears(g, p, Up) + RayClears(g, p, Down) + RayClears(g, p, Right) + RayClears(g, p, Left)
    + RayClears(g, p, UpRight) + RayClears(g, p, UpLeft) + RayClears(g, p, DownRight)
    + RayClears(g, p, DownLeft)
  }

  /** The grid after cap_process, on the snapshot g taken at line 439. */
  function Apply(g: Grid, p: Pos): Grid
    requires IsGrid(g, |g|) && OnBoard(|g|, p)
  {
    ClearAll(g, Cleared(g, p))
  }

  /** The capture count added for the mover: 2 per firing block (lines 509-512 and the seven like them). */
  function Gain(g: Grid, p: Pos): (r: nat)
    requires IsGrid(g, |g|) && OnBoard(|g|, p)
    ensures r % 2 == 0 && r <= 16
  {
    2 * Firings(g, p)
  }

  /** A block fires exactly when its ray is bracketed: the length-3 neighbour list means all three are on the board. */
  lemma FiresIffBracketed(g: Grid, p: Pos, d: Dir)
    requires IsGrid(g, |g|) && OnBoard(|g|, p)
    ensures Fires(g, p, d) <==> Bracketed(g, p, d)
  {
    var n := |g|;
    var nb := Neighbors(n, p, d);
    if |nb| == 3 {
      assert nb == [Toward(p, d, 1), Toward(p, d, 2), Toward(p, d, 3)];
    }
  }

  /** The points one block empties held opponent stones, lie on the board, and are not the placed point. */
  lemma RayClearsOpponents(g: Grid, p: Pos, d: Dir)
    requires IsGrid(g, |g|) && OnBoard(|g|, p)
    requires d.dr != 0 || d.dc != 0
    ensures forall q :: q in RayClears(g, p, d) ==> q != p && OnBoard(|g|, q) && At(g, q) == Opponent(At(g, p))
  {
  }

  /** The blocks of Cleared, one per ray index. */
  lemma ClearedByIndex(g: Grid, p: Pos, q: Pos)
    requires IsGrid(g, |g|) && OnBoard(|g|, p)
    ensures q in Cleared(g, p) <==> exists k :: 0 <= k < 8 && q in RayClears(g, p, Ray(k))
  {
    forall k | 0 <= k < 8 && q in RayClears(g, p, Ray(k)) ensures q in Cleared(g, p) {
      if k == 0 {} else if k == 1 {} else if k == 2 {} else if k == 3 {}
      else if k == 4 {} else if k == 5 {} else if k == 6 {} else {}
    }
    if q in RayClears(g, p, Up) { assert Ray(0) == Up; }
    if q in RayClears(g, p, Down) { assert Ray(1) == Down; }
    if q in RayClears(g, p, Right) { assert Ray(2) == Right; }
    if q in RayClears(g, p, Left) { assert Ray(3) == Left; }
    if q in RayClears(g, p, UpRight) { assert Ray(4) == UpRight; }
    if q in RayClears(g, p, UpLeft) { assert Ray(5) == UpLeft; }
    if q in RayClears(g, p, DownRight) { assert Ray(6) == DownRight; }
    if q in RayClears(g, p, DownLeft) { assert Ray(7) == DownLeft; }
  }

  /** Rays from one point never share a point within distance 3. */
  lemma RaysApart(p: Pos, k: int, l: int, i: int, j: int)
    requires 0 <= k < 8 && 0 <= l < 8 && k != l
    requires 1 <= i <= 3 && 1 <= j <= 3
    ensures Toward(p, Ray(k), i) != Toward(p, Ray(l), j)
  {
  }

  /**
   * cap_process empties exactly the distance-1 and distance-2 points of the bracketed rays;
   * those held the opponent's stones and are never the placed point.
   */
  lemma ClearedAreBracketedPairs(g: Grid, p: Pos)
    requires IsGrid(g, |g|) && OnBoard(|g|, p)
    ensures forall q :: q in Cleared(g, p) <==>
              exists k :: 0 <= k < 8 && Bracketed(g, p, Ray(k))
                          && (q == Toward(p, Ray(k), 1) || q == Toward(p, Ray(k), 2))
  {
    forall q
      ensures q in Cleared(g, p) <==>
              exists k :: 0 <= k < 8 && Bracketed(g, p, Ray(k))
                          && (q == Toward(p, Ray(k), 1) || q == Toward(p, Ray(k), 2))
    {
      ClearedByIndex(g, p, q);
    }
  }

  /** The emptied points held the opponent's stones, lie on the board, and are never the placed point. */
  lemma ClearedHeldOpponents(g: Grid, p: Pos)
    requires IsGrid(g, |g|) && OnBoard(|g|, p)
    ensures forall q :: q in Cleared(g, p) ==> q != p && OnBoard(|g|, q) && At(g, q) == Opponent(At(g, p))
  {
    forall q | q in Cleared(g, p)
      ensures q != p && OnBoard(|g|, q) && At(g, q) == Opponent(At(g, p))
    {
      ClearedByIndex(g, p, q);
      var k :| 0 <= k < 8 && q in RayClears(g, p, Ray(k));
      RayClearsOpponents(g, p, Ray(k));
    }
  }

  /** The grid after capture: the cleared points are empty, every other point is as in the snapshot. */
  lemma ApplyChangesOnlyCleared(g: Grid, p: Pos)
    requires IsGrid(g, |g|) && OnBoard(|g|, p)
    ensures IsGrid(Apply(g, p), |g|)
    ensures forall q :: OnBoard(|g|, q) && q !in Cleared(g, p) ==> At(Apply(g, p), q) == At(g, q)
    ensures forall q :: q in Cleared(g, p) ==> OnBoard(|g|, q) && At(Apply(g, p), q) == Empty
    ensures At(Apply(g, p), p) == At(g, p)
  {
    var c := Cleared(g, p);
    ClearedHeldOpponents(g, p);
    forall q | q in c ensures OnBoard(|g|, q) && At(ClearAll(g, c), q) == Empty {
    }
    assert p !in c;
  }

  /** The eight blocks' point sets, in source order. */
  function Parts(g: Grid, p: Pos): (parts: seq<set<Pos>>)
    requires IsGrid(g, |g|) && OnBoard(|g|, p)
    ensures |parts| == 8 && forall k :: 0 <= k < 8 ==> parts[k] == RayClears(g, p, Ray(k))
  {
    seq(8, k requires 0 <= k < 8 => RayClears(g, p, Ray(k)))
  }

  /** No point is emptied by two blocks. */
  lemma PartsDisjoint(g: Grid, p: Pos)
    requires IsGrid(g, |g|) && OnBoard(|g|, p)
    ensures forall a, b :: 0 <= a < b < 8 ==> Parts(g, p)[a] * Parts(g, p)[b] == {}
  {
    var parts := Parts(g, p);
    forall k, l | 0 <= k < l < 8 ensures parts[k] * parts[l] == {} {
      forall q | q in parts[k] ensures q !in parts[l] {
        RaysApart(p, k, l, 1, 1);
        RaysApart(p, k, l, 1, 2);
        RaysApart(p, k, l, 2, 1);
        RaysApart(p, k, l, 2, 2);
      }
    }
  }

  /** A firing block empties two distinct points. */
  lemma PartSizes(g: Grid, p: Pos)
    requires IsGrid(g, |g|) && OnBoard(|g|, p)
    ensures forall k :: 0 <= k < 8 ==> |Parts(g, p)[k]| == 2 * Indicator(Bracketed(g, p, Ray(k)))
  {
    forall k | 0 <= k < 8 ensures |RayClears(g, p, Ray(k))| == 2 * Indicator(Bracketed(g, p, Ray(k))) {
      if Bracketed(g, p, Ray(k)) {
        assert Toward(p, Ray(k), 1) != Toward(p, Ray(k), 2);
      }
    }
  }

  lemma PartsUnion(g: Grid, p: Pos)
    requires IsGrid(g, |g|) && OnBoard(|g|, p)
    ensures UnionOf(Parts(g, p), 8) == Cleared(g, p)
  {
    var parts := Parts(g, p);
    assert Ray(0) == Up && Ray(1) == Down && Ray(2) == Right && Ray(3) == Left;
    assert Ray(4) == UpRight && Ray(5) == UpLeft && Ray(6) == DownRight && Ray(7) == DownLeft;
    assert UnionOf(parts, 1) == parts[0];
    assert UnionOf(parts, 2) == parts[0] + parts[1];
    assert UnionOf(parts, 3) == parts[0] + parts[1] + parts[2];
    assert UnionOf(parts, 4) == parts[0] + parts[1] + parts[2] + parts[3];
    assert UnionOf(parts, 5) == UnionOf(parts, 4) + parts[4];
    assert UnionOf(parts, 6) == UnionOf(parts, 5) + parts[5];
    assert UnionOf(parts, 7) == UnionOf(parts, 6) + parts[6];
  }

  lemma PartsSizes(g: Grid, p: Pos)
    requires IsGrid(g, |g|) && OnBoard(|g|, p)
    ensures SizesOf(Parts(g, p), 8) == Gain(g, p)
  {
    var parts := Parts(g, p);
    PartSizes(g, p);
    assert Ray(0) == Up && Ray(1) == Down && Ray(2) == Right && Ray(3) == Left;
    assert Ray(4) == UpRight && Ray(5) == UpLeft && Ray(6) == DownRight && Ray(7) == DownLeft;
    assert SizesOf(parts, 1) == |parts[0]|;
    assert SizesOf(parts, 2) == SizesOf(parts, 1) + |parts[1]|;
    assert SizesOf(parts, 3) == SizesOf(parts, 2) + |parts[2]|;
    assert SizesOf(parts, 4) == SizesOf(parts, 3) + |parts[3]|;
    assert SizesOf(parts, 5) == SizesOf(parts, 4) + |parts[4]|;
    assert SizesOf(parts, 6) == SizesOf(parts, 5) + |parts[5]|;
    assert SizesOf(parts, 7) == SizesOf(parts, 6) + |parts[6]|;
  }

  /** The counter rises by exactly the number of stones removed. */
  lemma GainCountsRemovedStones(g: Grid, p: Pos)
    requires IsGrid(g, |g|) && OnBoard(|g|, p)
    ensures |Cleared(g, p)| == Gain(g, p)
  {
    var parts := Parts(g, p);
    PartsDisjoint(g, p);
    DisjointUnionSize(parts, 8);
    PartsUnion(g, p);
    PartsSizes(g, p);
    assert |Cleared(g, p)| == SizesOf(parts, 8);
  }

  function UnionOf(parts: seq<set<Pos>>, k: nat): set<Pos>
    requires k <= |parts|
  {
    if k == 0 then {} else UnionOf(parts, k - 1) + parts[k - 1]
  }

  function SizesOf(parts: seq<set<Pos>>, k: nat): nat
    requires k <= |parts|
  {
    if k == 0 then 0 else SizesOf(parts, k - 1) + |parts[k - 1]|
  }

  lemma {:induction false} DisjointUnionSize(parts: seq<set<Pos>>, k: nat)
    requires k <= |parts|
    requires forall a, b :: 0 <= a < b < |parts| ==> parts[a] * parts[b] == {}
    ensures |UnionOf(parts, k)| == SizesOf(parts, k)
  {
    if k > 0 {
      DisjointUnionSize(parts, k - 1);
      UnionMeetsNextEmpty(parts, k - 1);
      var u := UnionOf(parts, k - 1);
      assert |u + parts[k - 1]| == |u| + |parts[k - 1]|;
    }
  }

  /** The union of the first k parts shares nothing with part k. */
  lemma UnionMeetsNextEmpty(parts: seq<set<Pos>>, k: nat)
    requires k < |parts|
    requires forall a, b :: 0 <= a < b < |parts| ==> parts[a] * parts[b] == {}
    ensures UnionOf(parts, k) * parts[k] == {}
  {
    forall q | q in UnionOf(parts, k) ensures q !in parts[k] {
      UnionMember(parts, k, k, q);
    }
  }

  lemma {:induction false} UnionMember(parts: seq<set<Pos>>, k: nat, m: nat, q: Pos)
    requires k <= m < |parts|
    requires forall a, b :: 0 <= a < b < |parts| ==> parts[a] * parts[b] == {}
    requires q in UnionOf(parts, k)
    ensures q !in parts[m]
  {
    if q in parts[k - 1] {
      assert parts[k - 1] * parts[m] == {};
      assert q !in parts[k - 1] * parts[m];
    } else {
      UnionMember(parts, k - 1, m, q);
    }
  }

  /**
   * Where lines 498-507 (and the seven blocks like them) write: the neighbour's view
   * position (a, b) = (n - row, col - 1) goes through coord_to_point(a + 1, b + 1),
   * which names board row a + 1 instead of row n - a.
   */
  function WrittenPoint(n: int, q: Pos): (w: Pos)
    ensures w.col == q.col && w.row + q.row == n + 1
  {
    var a, b := n - q.row, q.col - 1;
    Pos(a + 1, b + 1)
  }

  /** The points written for the set c. */
  function Written(n: int, c: set<Pos>): (w: set<Pos>)
    ensures forall x :: x in w <==> WrittenPoint(n, x) in c
  {
    var w := set q | q in c :: WrittenPoint(n, q);
    assert forall x :: WrittenPoint(n, x) in c ==> x == WrittenPoint(n, WrittenPoint(n, x));
    w
  }

  /** cap_process as written: the blocks test the snapshot correctly but empty the mirrored points. */
  function CaptureAsWritten(g: Grid, p: Pos): (h: Grid)
    requires IsGrid(g, |g|) && OnBoard(|g|, p)
    ensures IsGrid(h, |g|)
  {
    ClearAll(g, Written(|g|, Cleared(g, p)))
  }

  /** A point is emptied by the as-written capture exactly when its mirror image was to be cleared. */
  lemma AsWrittenAt(g: Grid, p: Pos, q: Pos)
    requires IsGrid(g, |g|) && OnBoard(|g|, p) && OnBoard(|g|, q)
    ensures At(CaptureAsWritten(g, p), q) == if WrittenPoint(|g|, q) in Cleared(g, p) then Empty else At(g, q)
  {
    var w := Written(|g|, Cleared(g, p));
    assert q in w <==> WrittenPoint(|g|, q) in Cleared(g, p);
  }

  /**
   * A 4 x 4 board where row 1 reads black, white, white, black once black has played (1, 4),
   * and row 4 holds black stones at columns 2 and 3.
   */
  predicate MirrorExample(g: Grid)
  {
    IsGrid(g, 4) && g[0] == [Black, White, White, Black] && g[3][1] == Black && g[3][2] == Black
  }

  /** On that board the block of the ray toward column 1 fires, and nothing on row 4 is cleared. */
  lemma MirrorExampleCleared(g: Grid, p: Pos)
    requires MirrorExample(g) && p == Pos(1, 4)
    ensures Pos(1, 2) in Cleared(g, p) && Pos(1, 3) in Cleared(g, p)
    ensures Pos(4, 2) !in Cleared(g, p) && Pos(4, 3) !in Cleared(g, p)
  {
    assert Bracketed(g, p, Down);
    assert At(g, Pos(4, 2)) == Black && At(g, Pos(4, 3)) == Black;
    ClearedHeldOpponents(g, p);
  }

  /**
   * On that board the as-written capture keeps the two bracketed white stones and removes
   * black's own stones on row 4.
   */
  lemma CaptureWriteBackMirrored(g: Grid, p: Pos)
    requires MirrorExample(g) && p == Pos(1, 4)
    ensures At(CaptureAsWritten(g, p), Pos(1, 2)) == White && At(CaptureAsWritten(g, p), Pos(1, 3)) == White
    ensures At(CaptureAsWritten(g, p), Pos(4, 2)) == Empty && At(CaptureAsWritten(g, p), Pos(4, 3)) == Empty
  {
    assert At(g, Pos(1, 2)) == White && At(g, Pos(1, 3)) == White;
    MirrorExampleCleared(g, p);
    AsWrittenAt(g, p, Pos(1, 2));
    AsWrittenAt(g, p, Pos(1, 3));
    AsWrittenAt(g, p, Pos(4, 2));
    AsWrittenAt(g, p, Pos(4, 3));
  }

  /** On the same board the corrected capture removes the white pair and keeps row 4. */
  lemma CaptureCorrectedOnExample(g: Grid, p: Pos)
    requires MirrorExample(g) && p == Pos(1, 4)
    ensures At(Apply(g, p), Pos(1, 2)) == Empty && At(Apply(g, p), Pos(1, 3)) == Empty
    ensures At(Apply(g, p), Pos(4, 2)) == Black && At(Apply(g, p), Pos(4, 3)) == Black
  {
    MirrorExampleCleared(g, p);
    assert At(g, Pos(4, 2)) == Black && At(g, Pos(4, 3)) == Black;
    ApplyChangesOnlyCleared(g, p);
  }

  /**
   * A 5 x 5 board where column 1 reads, from row 2 down to row 5, black, white, white, black
   * once black has played (2, 1).
   */
  predicate SelfEraseExample(g: Grid)
  {
    IsGrid(g, 5) && g[1][0] == Black && g[2][0] == White && g[3][0] == White && g[4][0] == Black
  }

  /**
   * On that board the as-written capture empties the stone just played and one white stone,
   * and leaves the other white stone, where the corrected capture empties both white stones.
   */
  lemma CaptureWriteBackErasesMover(g: Grid, p: Pos)
    requires SelfEraseExample(g) && p == Pos(2, 1)
    ensures At(CaptureAsWritten(g, p), Pos(2, 1)) == Empty
    ensures At(CaptureAsWritten(g, p), Pos(3, 1)) == Empty
    ensures At(CaptureAsWritten(g, p), Pos(4, 1)) == White
    ensures At(Apply(g, p), Pos(2, 1)) == Black
    ensures At(Apply(g, p), Pos(3, 1)) == Empty && At(Apply(g, p), Pos(4, 1)) == Empty
  {
    assert At(g, p) == Black && At(g, Pos(3, 1)) == White && At(g, Pos(4, 1)) == White;
    assert Bracketed(g, p, Left);
    ClearedHeldOpponents(g, p);
    assert Pos(3, 1) in Cleared(g, p) && Pos(4, 1) in Cleared(g, p);
    assert Pos(2, 1) !in Cleared(g, p);
    AsWrittenAt(g, p, Pos(2, 1));
    AsWrittenAt(g, p, Pos(3, 1));
    AsWrittenAt(g, p, Pos(4, 1));
    ApplyChangesOnlyCleared(g, p);
  }
}
