/**
 * What the rule commands decide, as functions of the game state: the checks and replies
 * of play_cmd (lines 809-855), the choice of genmove_cmd (lines 857-895), the outcome of
 * gogui_rules_final_result_cmd (lines 767-789)
 * and the texts of gogui_rules_legal_moves_cmd (lines 791-807) and
 * gogui_rules_captured_count_cmd (lines 897-903).
 */
module Rules {
  import opened Wrappers
  import opened BoardBase
  import opened Text
  import opened Coords
  import opened Grid
  import opened Win

  /** What play_cmd does with its arguments, in the order of its checks. */
  datatype PlayDecision =
    | MissingArgument            // args[0] or args[1] raises IndexError, caught at line 853
    | BadColor(shown: string)    // lines 818-820
    | PassMove(color: Cell)      // lines 823-827
    | BadCoordinate              // lines 829-833
    | WrongTurn                  // lines 836-838
    | Occupied                   // lines 840-842
    | Place(p: Pos, color: Cell) // lines 843-848

  /** play_cmd's decision for the arguments, the board size, the side to move and the board. */
  function DecidePlay(args: seq<string>, size: int, toMove: Cell, g: Grid): (d: PlayDecision)
    requires IsGrid(g, |g|) && size == |g|
    ensures d.Place? ==>
              && OnBoard(size, d.p) && At(g, d.p) == Empty && d.color == toMove
              && (d.color == Black || d.color == White)
    ensures d.PassMove? ==> d.color == Black || d.color == White
    ensures d.MissingArgument? <==> |args| < 2
    ensures d.BadColor? <==> |args| >= 2 && Lower(args[0]) != "b" && Lower(args[0]) != "w"
    ensures d.PassMove? <==> |args| >= 2 && (Lower(args[0]) == "b" || Lower(args[0]) == "w") && Lower(args[1]) == "pass"
    ensures d.BadCoordinate? <==>
              && |args| >= 2 && (Lower(args[0]) == "b" || Lower(args[0]) == "w") && Lower(args[1]) != "pass"
              && MoveToCoord(args[1], size).Err?
  {
    if |args| < 2 then MissingArgument
    else
      var boardColor := Lower(args[0]);
      if boardColor != "b" && boardColor != "w" then BadColor(boardColor)
      else
        var color := ColorToInt(boardColor).value;
        if Lower(args[1]) == "pass" then PassMove(color)
        else
          match MoveToCoord(args[1], size)
          case Err(_) => BadCoordinate
          case Ok(c) =>
            if c.PassCoord? then assert false; BadCoordinate
            else
              var p := Pos(c.row, c.col);
              if toMove != color then WrongTurn
              else if At(g, p) != Empty then Occupied
              else Place(p, color)
  }

  /**
   * Once the colour is good and the move is not a pass, the parsed move decides: the wrong
   * turn, an occupied point, or the stone of args[0]'s colour on the point move_to_coord read.
   */
  lemma DecidePlayAfterParse(args: seq<string>, toMove: Cell, g: Grid, c: Cell, row: int, col: int)
    requires IsGrid(g, |g|) && |args| >= 2
    requires Lower(args[0]) == "b" || Lower(args[0]) == "w"
    requires c == ColorToInt(Lower(args[0])).value
    requires Lower(args[1]) != "pass" && MoveToCoord(args[1], |g|) == Ok(RC(row, col))
    ensures DecidePlay(args, |g|, toMove, g) ==
              if toMove != c then WrongTurn
              else if At(g, Pos(row, col)) != Empty then Occupied
              else Place(Pos(row, col), c)
  {
  }

  /** A pass is made for the colour args[0] names. */
  lemma PassColourIsArgument(args: seq<string>, size: int, toMove: Cell, g: Grid)
    requires IsGrid(g, |g|) && size == |g|
    requires DecidePlay(args, size, toMove, g).PassMove?
    ensures DecidePlay(args, size, toMove, g).color == ColorToInt(Lower(args[0])).value
  {
  }

  /** The items of Python's repr of a list of str, for strings without quotes or backslashes. */
  function ReprItems(ws: seq<string>): string
  {
    if |ws| == 0 then ""
    else if |ws| == 1 then "'" + ws[0] + "'"
    else "'" + ws[0] + "', " + ReprItems(ws[1..])
  }

  /** The f-string rendering of args at lines 837 and 841. */
  function ListRepr(ws: seq<string>): string
  {
    "[" + ReprItems(ws) + "]"
  }

  /** The text play_cmd responds with; None where the IndexError escapes (lines 851-855). */
  function PlayResponse(args: seq<string>, d: PlayDecision): (r: Option<string>)
    requires d.MissingArgument? || |args| >= 2
    ensures r.None? <==> d.MissingArgument?
    ensures r == Some("") <==> d.PassMove? || d.Place?
  {
    match d
    case MissingArgument => None
    case BadColor(shown) => Some("illegal move: \"" + shown + "\" wrong color")
    case PassMove(_) => Some("")
    case BadCoordinate => Some("illegal move: \"" + args[1] + "\" wrong coordinate")
    case WrongTurn => Some("illegal move: " + ListRepr(args) + " wrong color")
    case Occupied => Some("illegal move: " + ListRepr(args) + " occupied")
    case Place(_, _) => Some("")
  }

  /** The spellings of a colour play_cmd accepts. */
  predicate ColorWord(s: string, c: Cell)
  {
    (c == Black && (s == "b" || s == "B")) || (c == White && (s == "w" || s == "W"))
  }

  /** The name format_point gives a point with row and column below 25. */
  function PointName(q: Pos): (s: string)
    requires 0 <= q.row < MAXSIZE && 0 <= q.col < MAXSIZE
  {
    FormatPoint(RC(q.row, q.col)).value
  }

  /**
   * Playing a formatted point of the board: the move is placed when it is the colour's turn
   * and the point is empty, rejected as the wrong colour or as occupied otherwise.
   */
  lemma PlayFormattedPoint(colour: string, c: Cell, p: Pos, toMove: Cell, g: Grid)
    requires IsGrid(g, |g|) && 2 <= |g| <= MAXSIZE && OnBoard(|g|, p) && p.row < MAXSIZE && p.col < MAXSIZE
    requires ColorWord(colour, c)
    ensures DecidePlay([colour, PointName(p)], |g|, toMove, g)
            == if toMove != c then WrongTurn else if At(g, p) != Empty then Occupied else Place(p, c)
  {
    var name := PointName(p);
    assert MoveToCoord(name, |g|) == Ok(RC(p.row, p.col)) by {
      FormatThenParse(p.row, p.col, |g|);
    }
    assert Lower(name) != "pass" by {
      FormattedIsNotPass(p.row, p.col);
    }
    ColorWordLower(colour, c);
  }

  /** A colour word lower-cases to the colour's letter. */
  lemma ColorWordLower(colour: string, c: Cell)
    requires ColorWord(colour, c)
    ensures Lower(colour) == (if c == Black then "b" else "w")
    ensures ColorToInt(Lower(colour)) == Some(c)
  {
  }

  /** The colour, pass, and coordinate checks come first and look at neither the side to move nor the board. */
  lemma EarlyChecksIgnoreState(args: seq<string>, size: int, t1: Cell, g1: Grid, t2: Cell, g2: Grid)
    requires IsGrid(g1, |g1|) && size == |g1| && IsGrid(g2, |g2|) && size == |g2|
    requires var d := DecidePlay(args, size, t1, g1);
             d.MissingArgument? || d.BadColor? || d.PassMove? || d.BadCoordinate?
    ensures DecidePlay(args, size, t2, g2) == DecidePlay(args, size, t1, g1)
  {
  }

  /** The side-to-move check comes before the occupancy check: a wrong turn is reported whatever the board holds. */
  lemma TurnCheckIgnoresBoard(args: seq<string>, size: int, toMove: Cell, g1: Grid, g2: Grid)
    requires IsGrid(g1, |g1|) && size == |g1| && IsGrid(g2, |g2|) && size == |g2|
    requires DecidePlay(args, size, toMove, g1) == WrongTurn
    ensures DecidePlay(args, size, toMove, g2) == WrongTurn
  {
  }

  /** play_cmd is case-insensitive in both arguments. */
  lemma PlayIgnoresCase(colour: string, move: string, size: int, toMove: Cell, g: Grid)
    requires IsGrid(g, |g|) && size == |g|
    ensures DecidePlay([Lower(colour), Lower(move)], size, toMove, g) == DecidePlay([colour, move], size, toMove, g)
  {
    LowerIdempotent(colour);
    LowerIdempotent(move);
    MoveToCoordIgnoresCase(move, size);
    var d1, d2 := DecidePlay([Lower(colour), Lower(move)], size, toMove, g), DecidePlay([colour, move], size, toMove, g);
    assert [Lower(colour), Lower(move)][0] == Lower(colour) && [Lower(colour), Lower(move)][1] == Lower(move);
  }

  /** What genmove_cmd does with its arguments and the state, in the order of its steps. */
  datatype GenMoveDecision =
    | NoColorArgument             // args[0] raises IndexError (line 860), which escapes
    | UnknownColor                // color_to_int raises KeyError (line 861), which escapes
    | Resign                      // lines 868-873: the last move already won
    | NoCandidate                 // lines 885-887: no empty point other than the ko point
    | Choose(p: Pos, color: Cell) // lines 889-895

  /**
   * genmove_cmd's decision. `pick` stands for np.random.choice at line 889: the candidate
   * at index pick % |candidates| is played.
   */
  function DecideGenMove(args: seq<string>, g: Grid, lastMove: Option<Pos>, ko: Option<Pos>, pick: nat): GenMoveDecision
    requires IsGrid(g, |g|) && (lastMove.Some? ==> OnBoard(|g|, lastMove.value))
  {
    if |args| == 0 then NoColorArgument
    else
      match ColorToInt(Lower(args[0]))
      case None => UnknownColor
      case Some(color) =>
        if WonAtLast(g, lastMove) then Resign
        else
          var candidates := Candidates(g, ko);
          if |candidates| == 0 then NoCandidate
          else Choose(candidates[pick % |candidates|], color)
  }

  /** The text genmove_cmd responds with; None where an exception escapes (format_point raises only after the move is made). */
  function GenMoveResponse(d: GenMoveDecision): Option<string>
  {
    match d
    case NoColorArgument => None
    case UnknownColor => None
    case Resign => Some("resign")
    case NoCandidate => Some("pass")
    case Choose(p, _) =>
      match FormatPoint(RC(p.row, p.col))
      case Ok(name) => Some(name)
      case Err(_) => None
  }

  /**
   * genmove plays a candidate: an empty point of the board that is not the ko point, for
   * the colour letter given; it resigns exactly when the last move won, and passes exactly
   * when every empty point is the ko point.
   */
  lemma GenMoveOutcomes(args: seq<string>, g: Grid, lastMove: Option<Pos>, ko: Option<Pos>, pick: nat)
    requires IsGrid(g, |g|) && (lastMove.Some? ==> OnBoard(|g|, lastMove.value))
    requires |args| > 0 && ColorToInt(Lower(args[0])).Some?
    ensures var d := DecideGenMove(args, g, lastMove, ko, pick);
            && (d == Resign || d == NoCandidate || d.Choose?)
            && (d == Resign <==> WonAtLast(g, lastMove))
            && (d == NoCandidate <==>
                  !WonAtLast(g, lastMove) && forall q :: OnBoard(|g|, q) && At(g, q) == Empty ==> ko == Some(q))
            && (d.Choose? ==>
                  && d.color == ColorToInt(Lower(args[0])).value
                  && OnBoard(|g|, d.p) && At(g, d.p) == Empty && ko != Some(d.p))
  {
    CandidatesAreEmptyPoints(g, ko);
    var cs := Candidates(g, ko);
    if |cs| > 0 {
      assert cs[pick % |cs|] in cs;
    }
  }

  /**
   * On a board below 25 x 25, the move genmove answers with for the colour b or w names the
   * point it played, and play_cmd would have placed that stone for that colour on the same
   * position when it was that colour's turn.
   */
  lemma GenMoveReplyIsPlayable(colour: string, c: Cell, g: Grid, lastMove: Option<Pos>, ko: Option<Pos>, pick: nat)
    requires IsGrid(g, |g|) && 2 <= |g| < MAXSIZE && (lastMove.Some? ==> OnBoard(|g|, lastMove.value))
    requires ColorWord(colour, c)
    requires DecideGenMove([colour], g, lastMove, ko, pick).Choose?
    ensures var d := DecideGenMove([colour], g, lastMove, ko, pick);
            && d.color == c
            && GenMoveResponse(d) == Some(PointName(d.p))
            && DecidePlay([colour, PointName(d.p)], |g|, c, g) == Place(d.p, c)
  {
    ColorWordLower(colour, c);
    GenMoveOutcomes([colour], g, lastMove, ko, pick);
    var d := DecideGenMove([colour], g, lastMove, ko, pick);
    PlayFormattedPoint(colour, c, d.p, c, g);
  }

  /**
   * gogui_rules_final_result_cmd's outcome; None is "unknown", the one answer that leaves
   * game_status as it was.
   */
  function ResultOf(g: Grid, lastMove: Option<Pos>, blackCap: int, whiteCap: int): Option<string>
    requires IsGrid(g, |g|) && (lastMove.Some? ==> OnBoard(|g|, lastMove.value))
  {
    if lastMove.Some? && Check(g, lastMove.value).Winner? then Some(Check(g, lastMove.value).name)
    else if blackCap >= 10 then Some("black")
    else if whiteCap >= 10 then Some("white")
    else if |EmptyPoints(g)| == 0 then Some("draw")
    else None
  }

  /** There is a win to report at the last move. */
  predicate WonAtLast(g: Grid, lastMove: Option<Pos>)
    requires IsGrid(g, |g|) && (lastMove.Some? ==> OnBoard(|g|, lastMove.value))
  {
    lastMove.Some? && Check(g, lastMove.value) != NoWin
  }

  /**
   * The priority of final_result: a win at the last move names that stone's colour whatever
   * the counters say; then ten captures for black, then for white; a draw only on a full
   * board; "unknown" exactly when none of these holds.
   */
  lemma ResultPriority(g: Grid, lastMove: Option<Pos>, blackCap: int, whiteCap: int)
    requires IsGrid(g, |g|) && (lastMove.Some? ==> OnBoard(|g|, lastMove.value))
    ensures WonAtLast(g, lastMove) ==> ResultOf(g, lastMove, blackCap, whiteCap) == Some(ColorName(At(g, lastMove.value)))
    ensures ResultOf(g, lastMove, blackCap, whiteCap) == Some("black")
            <==> (WonAtLast(g, lastMove) && At(g, lastMove.value) == Black) || (!WonAtLast(g, lastMove) && blackCap >= 10)
    ensures ResultOf(g, lastMove, blackCap, whiteCap) == Some("white")
            <==> (WonAtLast(g, lastMove) && At(g, lastMove.value) == White)
                 || (!WonAtLast(g, lastMove) && blackCap < 10 && whiteCap >= 10)
    ensures ResultOf(g, lastMove, blackCap, whiteCap) == Some("draw")
            <==> !WonAtLast(g, lastMove) && blackCap < 10 && whiteCap < 10
                 && forall q :: OnBoard(|g|, q) ==> At(g, q) != Empty
    ensures ResultOf(g, lastMove, blackCap, whiteCap).None?
            <==> !WonAtLast(g, lastMove) && blackCap < 10 && whiteCap < 10
                 && exists q :: OnBoard(|g|, q) && At(g, q) == Empty
  {
    if WonAtLast(g, lastMove) {
      WinReported(g, lastMove, blackCap, whiteCap);
    } else {
      NoWinReported(g, lastMove, blackCap, whiteCap);
    }
  }

  /** With a win at the last move, the result is that stone's colour name. */
  lemma WinReported(g: Grid, lastMove: Option<Pos>, blackCap: int, whiteCap: int)
    requires IsGrid(g, |g|) && (lastMove.Some? ==> OnBoard(|g|, lastMove.value))
    requires WonAtLast(g, lastMove)
    ensures ResultOf(g, lastMove, blackCap, whiteCap) == Some(ColorName(At(g, lastMove.value)))
  {
  }

  /** Without one, the counters decide, then a full board; otherwise the result is unknown. */
  lemma NoWinReported(g: Grid, lastMove: Option<Pos>, blackCap: int, whiteCap: int)
    requires IsGrid(g, |g|) && (lastMove.Some? ==> OnBoard(|g|, lastMove.value))
    requires !WonAtLast(g, lastMove)
    ensures ResultOf(g, lastMove, blackCap, whiteCap)
            == if blackCap >= 10 then Some("black")
               else if whiteCap >= 10 then Some("white")
               else if forall q :: OnBoard(|g|, q) ==> At(g, q) != Empty then Some("draw")
               else None
  {
    var ps := EmptyPoints(g);
    if |ps| > 0 {
      assert ps[0] in ps;
    }
  }

  /** format_point over a list, as the comprehension at lines 794-797 does; the first failure raises. */
  function FormatAll(ps: seq<Pos>): (r: Result<seq<string>, CoordError>)
    ensures r.Ok? <==> forall k :: 0 <= k < |ps| ==> FormatPoint(RC(ps[k].row, ps[k].col)).Ok?
    ensures r.Ok? ==> |r.value| == |ps|
                      && forall k :: 0 <= k < |ps| ==> r.value[k] == FormatPoint(RC(ps[k].row, ps[k].col)).value
  {
    if ps == [] then Ok([])
    else
      match FormatPoint(RC(ps[0].row, ps[0].col))
      case Err(e) => Err(e)
      case Ok(name) =>
        match FormatAll(ps[1..])
        case Err(e) => Err(e)
        case Ok(names) => Ok([name] + names)
  }

  /** gogui_rules_legal_moves_cmd's reply text; None where format_point raises. */
  function LegalMovesReply(g: Grid, ko: Option<Pos>, status: string): Option<string>
    requires IsGrid(g, |g|)
  {
    if status != "playing" then Some("")
    else
      match FormatAll(EmptyPoints(g))
      case Err(_) => None
      case Ok(names) =>
        match ko
        case None => Some(JoinWords(names))
        case Some(k) =>
          match FormatPoint(RC(k.row, k.col))
          case Err(_) => None
          case Ok(koName) => Some(JoinWords(Remove(names, koName)))
  }

  /** A point's name is one word, and it parses back to the point. */
  lemma PointNameParses(q: Pos)
    requires 1 <= q.row < MAXSIZE && 1 <= q.col < MAXSIZE
    ensures IsWord(PointName(q))
    ensures MoveToCoord(PointName(q), MAXSIZE) == Ok(RC(q.row, q.col))
  {
    FormatThenParse(q.row, q.col, MAXSIZE);
    PointNameIsWord(q);
  }

  /** A point's name is a letter followed by digits, so it holds no white space. */
  lemma PointNameIsWord(q: Pos)
    requires 1 <= q.row < MAXSIZE && 1 <= q.col < MAXSIZE
    ensures IsWord(PointName(q))
  {
    var s := PointName(q);
    assert !IsSpace(s[0]);
    forall i | 1 <= i < |s| ensures !IsSpace(s[i]) {
      assert s[i] == s[1..][i - 1];
    }
  }

  /** Two points of the board with the same name are the same point. */
  lemma PointNameInjective(q1: Pos, q2: Pos)
    requires 1 <= q1.row < MAXSIZE && 1 <= q1.col < MAXSIZE
    requires 1 <= q2.row < MAXSIZE && 1 <= q2.col < MAXSIZE
    ensures PointName(q1) == PointName(q2) ==> q1 == q2
  {
    PointNameParses(q1);
    PointNameParses(q2);
  }

  /** Points of a board below 25 x 25, which format_point can name. */
  predicate Nameable(ps: seq<Pos>)
  {
    forall k :: 0 <= k < |ps| ==> 1 <= ps[k].row < MAXSIZE && 1 <= ps[k].col < MAXSIZE
  }

  /** Each name in a formatted list names a point of the list. */
  lemma NamedMember(ps: seq<Pos>, w: string) returns (q: Pos)
    requires Nameable(ps) && FormatAll(ps).Ok? && w in FormatAll(ps).value
    ensures q in ps && 1 <= q.row < MAXSIZE && 1 <= q.col < MAXSIZE && PointName(q) == w
  {
    var names := FormatAll(ps).value;
    var i :| 0 <= i < |names| && names[i] == w;
    q := ps[i];
  }

  /** Each point of a list has its name in the formatted list. */
  lemma MemberNamed(ps: seq<Pos>, q: Pos)
    requires Nameable(ps) && q in ps
    ensures FormatAll(ps).Ok? && PointName(q) in FormatAll(ps).value
  {
    var i :| 0 <= i < |ps| && ps[i] == q;
    assert FormatAll(ps).value[i] == PointName(q);
  }

  /** Dropping a point's name from the formatted list formats the list without that point. */
  lemma {:induction false} FormatWithout(ps: seq<Pos>, k: Pos)
    requires Nameable(ps) && 1 <= k.row < MAXSIZE && 1 <= k.col < MAXSIZE
    ensures FormatAll(ps).Ok? && FormatAll(Remove(ps, k)).Ok?
    ensures FormatAll(Remove(ps, k)).value == Remove(FormatAll(ps).value, PointName(k))
  {
    if ps != [] {
      assert Nameable(ps[1..]) by {
        forall i | 0 <= i < |ps[1..]| ensures 1 <= ps[1..][i].row < MAXSIZE && 1 <= ps[1..][i].col < MAXSIZE {
          assert ps[1..][i] == ps[i + 1];
        }
      }
      FormatWithout(ps[1..], k);
      if ps[0] != k {
        PointNameInjective(ps[0], k);
      }
    }
  }

  /** format_point succeeds on every point of such a list. */
  lemma NameableFormats(ps: seq<Pos>)
    requires Nameable(ps)
    ensures FormatAll(ps).Ok?
  {
    forall k | 0 <= k < |ps| ensures FormatPoint(RC(ps[k].row, ps[k].col)).Ok? {
    }
  }

  /** On a board below 25 x 25 every empty point can be named. */
  lemma EmptyPointsNameable(g: Grid)
    requires IsGrid(g, |g|) && |g| < MAXSIZE
    ensures Nameable(EmptyPoints(g)) && FormatAll(EmptyPoints(g)).Ok?
  {
    var ps := EmptyPoints(g);
    forall i | 0 <= i < |ps| ensures 1 <= ps[i].row < MAXSIZE && 1 <= ps[i].col < MAXSIZE {
      assert ps[i] in ps;
    }
    NameableFormats(ps);
  }

  /** So can every candidate. */
  lemma CandidatesNameable(g: Grid, ko: Option<Pos>)
    requires IsGrid(g, |g|) && |g| < MAXSIZE
    ensures Nameable(EmptyPoints(g)) && FormatAll(EmptyPoints(g)).Ok?
    ensures Nameable(Candidates(g, ko)) && FormatAll(Candidates(g, ko)).Ok?
  {
    EmptyPointsNameable(g);
    var ps, cs := EmptyPoints(g), Candidates(g, ko);
    forall i | 0 <= i < |cs| ensures 1 <= cs[i].row < MAXSIZE && 1 <= cs[i].col < MAXSIZE {
      assert cs[i] in ps by {
        assert cs[i] in cs;
      }
      var j :| 0 <= j < |ps| && ps[j] == cs[i];
    }
    NameableFormats(cs);
  }

  /** The words the reply is joined from while playing on a board below 25 x 25 (lines 794-806). */
  function LegalNames(g: Grid, ko: Option<Pos>): (ws: seq<string>)
    requires IsGrid(g, |g|) && |g| < MAXSIZE
    requires ko.Some? ==> OnBoard(|g|, ko.value)
  {
    CandidatesNameable(g, ko);
    var names := FormatAll(EmptyPoints(g)).value;
    if ko.None? then names else Remove(names, PointName(ko.value))
  }

  /** The reply is " ".join of LegalNames, and those are words naming exactly the candidates. */
  lemma LegalNamesAreCandidates(g: Grid, ko: Option<Pos>)
    requires IsGrid(g, |g|) && |g| < MAXSIZE
    requires ko.Some? ==> OnBoard(|g|, ko.value)
    ensures LegalMovesReply(g, ko, "playing") == Some(JoinWords(LegalNames(g, ko)))
    ensures forall k :: 0 <= k < |LegalNames(g, ko)| ==> IsWord(LegalNames(g, ko)[k])
    ensures forall w :: w in LegalNames(g, ko) ==> exists q :: q in Candidates(g, ko) && PointName(q) == w
    ensures forall q :: q in Candidates(g, ko) ==> PointName(q) in LegalNames(g, ko)
  {
    var ws, cs := LegalNames(g, ko), Candidates(g, ko);
    CandidatesNameable(g, ko);
    if ko.Some? {
      FormatWithout(EmptyPoints(g), ko.value);
    }
    assert FormatAll(cs).Ok? && ws == FormatAll(cs).value;
    forall k | 0 <= k < |ws| ensures IsWord(ws[k]) {
      var q := NamedMember(cs, ws[k]);
      PointNameIsWord(q);
    }
    forall w | w in ws ensures exists q :: q in cs && PointName(q) == w {
      var q := NamedMember(cs, w);
    }
    forall q | q in cs ensures PointName(q) in ws {
      MemberNamed(cs, q);
    }
  }

  /**
   * While the game is playing on a board below 25 x 25, the words of the legal-moves reply
   * are exactly the names of the candidate points: the empty points other than the ko point.
   */
  lemma LegalMovesAreCandidates(g: Grid, ko: Option<Pos>)
    requires IsGrid(g, |g|) && |g| < MAXSIZE
    requires ko.Some? ==> OnBoard(|g|, ko.value)
    ensures LegalMovesReply(g, ko, "playing").Some?
    ensures var ws := Split(LegalMovesReply(g, ko, "playing").value);
            && (forall w :: w in ws ==> exists q :: q in Candidates(g, ko) && PointName(q) == w)
            && (forall q :: q in Candidates(g, ko) ==> PointName(q) in ws)
  {
    LegalNamesAreCandidates(g, ko);
    SplitJoinWords(LegalNames(g, ko));
  }

  /** Outside play the reply is empty. */
  lemma LegalMovesOnlyWhilePlaying(g: Grid, ko: Option<Pos>, status: string)
    requires IsGrid(g, |g|) && status != "playing"
    ensures LegalMovesReply(g, ko, status) == Some("")
  {
  }

  /** gogui_rules_captured_count_cmd's reply: white's counter, a space, black's counter. */
  function CapturedCountReply(whiteCap: nat, blackCap: nat): string
  {
    DecimalString(whiteCap) + " " + DecimalString(blackCap)
  }

  /** The reply reads back as two integers, white's first. */
  lemma CapturedCountReadsBack(whiteCap: nat, blackCap: nat)
    ensures var ws := Split(CapturedCountReply(whiteCap, blackCap));
            |ws| == 2 && ParseInt(ws[0]) == Some(whiteCap) && ParseInt(ws[1]) == Some(blackCap)
  {
    var w, b := DecimalString(whiteCap), DecimalString(blackCap);
    forall s | s == w || s == b ensures IsWord(s) {
      forall i | 0 <= i < |s| ensures !IsSpace(s[i]) {
        assert IsDigit(s[i]);
      }
    }
    assert JoinWords([w, b]) == CapturedCountReply(whiteCap, blackCap) by {
      assert JoinWords([w, b][1..]) == b;
    }
    SplitJoinWords([w, b]);
    ParseDecimalString(whiteCap);
    ParseDecimalString(blackCap);
  }
}
