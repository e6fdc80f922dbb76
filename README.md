# Five-in-a-row with pair capture: the rules of the GTP connection

This project models the game rules that `GtpConnection` in `gtp_connection.py` implements for a
GTP (Go Text Protocol) engine. The game is five in a row with pair capture on an N x N board.
The model covers:

- the coordinate codecs: `point_to_coord`, `format_point`, `move_to_coord` and `color_to_int`;
- how one input line is classified: `get_cmd` and `has_arg_error`;
- pair capture after a move: `cap_process`;
- the five-in-a-row test: `check_point_is_win`;
- the commands that change or report the game state: `play`, `genmove`,
  `gogui-rules_final_result`, `gogui-rules_legal_moves` and `gogui-rules_captured_count`;
- `reset`.

The board is a grid of cells (`Empty`, `Black`, `White`, `Border`) addressed by 1-based
`(row, col)`. The connection's state is the class `Gtp.GtpConnection`. Its `cells` field is a
`size x size` array; the board object's `black_cap`, `white_cap`, `current_player`, `last_move`
and `ko_recapture` are also its fields, together with `game_status`.

The loops and in-place updates of the source are methods of that class:

- `CapProcess` empties bracketed pairs in the array and raises the counters.
- `CheckPointIsWin` and the axis scans carry out the source's counting loops.
- `Play`, `GenMove`, `FinalResult` and `LegalMoves` follow their commands step by step.

Each method is proved against a pure specification in the modules `Capture`, `Win` and `Rules`.
The lemmas next to those specifications state what the rules promise.

Modules, one concept each:

- `Wrappers`: `Option`/`Result`.
- `BoardBase`: colour codes, `MAXSIZE`, `opponent`, `coord_to_point`.
- `Text`: the Python string behaviour relied on: `isspace`, `isdigit`, `lower`, `strip`,
  `split`, `join`, `str(int)` and `int(str)`.
- `Coords`: the codecs.
- `Commands`: line classification.
- `Grid`: the board as a grid, the flipped 2D view and the empty-point listing.
- `Capture`: pair capture.
- `Win`: the win test.
- `Rules`: the commands' decisions and replies.
- `Gtp`: the stateful connection.

Assumptions about modules that are not part of this model (`board_base`, `board`,
`board_util`), stated where they are used:

- `coord_to_point(r, c, n) = r * (n + 1) + c`, so that it is what `point_to_coord` inverts.
- `opponent(c) = 3 - c`, so Empty maps to Border and Black and White swap.
- `get_empty_points` lists the empty points in increasing point index.
- `get_twoD_board` lists the board's rows from row `size` down to row 1.
- `board.reset(size)` empties the board, zeroes both counters, gives Black the move and
  forgets the last move and the ko point.

Where the code differs from its own docstrings or comments, the model follows the code, with
one exception, the capture write-back:

- **Capture write-back.** `cap_process` empties the mirror images of the bracketed stones
  (lines 498-507; see "## Findings"). The model records that addressing as
  `Capture.CaptureAsWritten`, with counterexample lemmas, but the connection's methods apply
  the corrected capture `Capture.Apply`. See the `Gtp.GtpConnection.CapProcess` line under
  "## Left out".

- **Win check.** `check_point_is_win` is modelled as written. On its second, third and fourth
  axes a gap on the negative side does not stop the count, and a mismatch on the negative
  side stops the positive side (lines 370, 398 and 426). For the first axis, the "5 connected"
  rule of the docstring is proved (`Win.FirstAxisIsRowFive`). For the other axes,
  counterexample lemmas show a column of five that is missed and a gapped line that wins.
- **Play after the game ends.** `play_cmd` does not consult `game_status`, so moves are
  accepted after a result has been reported.
- **Play with one argument.** The `IndexError` from `args[1]` is caught at line 853, answered
  with an error text and raised again. The model reports that case as `None`: an exception
  escapes.
- **Board size.** `boardsize` passes `int(args[0])` to `reset` unchecked. The model assumes
  that `board.reset` accepts any size; only `move_to_coord` checks the range `[2, 25]`.
- **Row or column 25.** `format_point` raises for a row or column of 25: it accepts only
  `0 <= row, col < 25`. On a 25 x 25 board, `legal_moves` and `genmove`'s reply can therefore fail. So can
  `check_point_is_win`, which formats its point for `debug_msg` first (line 300), and with it
  `gogui-rules_final_result` and `genmove`'s resign test (lines 770 and 870); see the
  `Win.Check` line under "## Left out".
- **genmove with `e`.** `genmove e` is accepted (`color_to_int` knows `"e"`). It places
  `EMPTY`, and since `opponent(EMPTY)` is the border code, it hands the move to that code.
  This is modelled faithfully.

## Model

| member | source | states |
|---|---|---|
| BoardBase.Opponent | gtp_connection.py:822-825 | the opponent of code c has code 3 - c (Black and White swap; Empty maps to Border) |
| Coords.PointToCoord | gtp_connection.py:912-922 | PASS maps to (PASS, PASS) and only PASS does; an index maps to a column in 0..size that coord_to_point turns back into the same index |
| Coords.PointToCoordInverts | gtp_connection.py:912-922 | point_to_coord inverts coord_to_point(row, col) for 0 <= col <= size |
| Coords.ColumnLetterAt | gtp_connection.py:930 | the k-th column letter is 'A' + k, skipping 'I' |
| Coords.FormatPoint | gtp_connection.py:925-936 | fails (ValueError) exactly when a non-pass coordinate has row or column outside 0..24; a name starts with a capital letter other than 'I' followed by the decimal row |
| Coords.MoveToCoord | gtp_connection.py:939-964 | every success is on the board (1..size on both axes) or PASS, PASS exactly for "pass" in any case, and only for a size in [2, 25] |
| Coords.MoveToCoordRules | gtp_connection.py:945-959 | the rejections: size out of range, empty text, a first letter outside a..z or equal to 'i', a row that is not an integer or is below 1 |
| Coords.MoveToCoordIgnoresCase | gtp_connection.py:947 | parsing the lower-cased text gives the same outcome |
| Coords.FormattedIsNotPass | gtp_connection.py:925-936 | no point name reads as "pass" |
| Coords.FormatThenParse | gtp_connection.py:925-964 | for 1 <= row, col <= size below 25, move_to_coord(format_point((row, col))) == (row, col), and the letter is never 'I' |
| Coords.ColorToInt | gtp_connection.py:967-970 | defined exactly for "b", "w", "e" and "BORDER" (KeyError otherwise), with Black only for "b" and White only for "w" |
| Text.Lower | gtp_connection.py:815 | str.lower keeps the length and lowers each character |
| Text.LStrip | gtp_connection.py:114 | str.lstrip drops exactly the leading whitespace, and only that |
| Text.RStrip | gtp_connection.py:957 | the trailing whitespace int() ignores is dropped, and only that |
| Text.DropLeadingDigits | gtp_connection.py:114 | re.sub("^\d+", "", s) drops exactly the leading run of digits |
| Text.Split | gtp_connection.py:116 | str.split() yields only non-empty words without whitespace |
| Text.SplitJoinWords | gtp_connection.py:116 | splitting " ".join of words gives the words back |
| Text.BlankSplitsToNothing | gtp_connection.py:116-118 | a line of whitespace splits to no words |
| Text.DecimalString | gtp_connection.py:936 | str(n) is a non-empty run of digits |
| Text.DecimalStringValue | gtp_connection.py:936 | the digits of str(n) have the value n |
| Text.ParseDecimalString | gtp_connection.py:957 | int(str(n)) == n |
| Text.RemoveUnderscores | gtp_connection.py:957 | the digit groups int() accepts, without their underscores, are digits only, and a string of digits is kept as it is |
| Text.RemoveUnderscoresAppend | gtp_connection.py:957 | removing underscores from s + t removes them from s and from t and joins the results |
| Text.RemoveUnderscoresOne | gtp_connection.py:957 | an underscore is dropped and a digit is kept |
| Text.StripDigitEnds | gtp_connection.py:957 | a string that starts and ends with a digit has nothing for int() to strip |
| Text.JoinedGroups | gtp_connection.py:957 | two digit groups joined by one underscore are a literal int() accepts |
| Text.JoinedGroupsDigits | gtp_connection.py:957 | with the underscore removed, the joined groups are the digits of both groups |
| Text.ParseDigits | gtp_connection.py:957 | int() of a non-empty string of digits is the number those digits write |
| Text.UnderscoreBetweenGroups | gtp_connection.py:957 | int(a + "_" + b) == int(a + b) for digit groups a and b |
| Commands.Classify | gtp_connection.py:104-133 | blank and '#' lines are ignored; any other line is decided on its words |
| Commands.Decide | gtp_connection.py:116-143 | nothing happens exactly when there are no words; a dispatch is a known command with the right argument count; a usage error is an argmap entry whose count differs, with its message; otherwise "Unknown command" |
| Commands.BlankLineIgnored | gtp_connection.py:108-109 | a whitespace-only line is ignored |
| Commands.ClassifyCommandLine | gtp_connection.py:116-133 | a command line is a usage error iff the argmap count differs, else dispatched iff the command is known, else unknown |
| Commands.LineNumberStripped | gtp_connection.py:112-114 | a leading number and the whitespace after it do not change the outcome |
| Commands.NumberedLine | gtp_connection.py:108-114 | a numbered line is not blank, starts with a digit, and strips to its command part |
| Commands.SameWords | gtp_connection.py:112-118 | a line and its stripped command part are split to the same words |
| Commands.ArgMapCommandsKnown | gtp_connection.py:79-86 | every command with an arity entry is a registered command |
| Grid.Put | gtp_connection.py:844 | board[move] = color changes that point and no other |
| Grid.ClearAll | gtp_connection.py:498-507 | emptying a set of points changes exactly those points |
| Grid.TwoD | gtp_connection.py:301 | the 2D view lists the rows from row size down to row 1 |
| Grid.EmptyPoints | gtp_connection.py:784 | exactly the empty points of the board, in increasing point order |
| Grid.Remove | gtp_connection.py:802-803 | list.remove drops one element when present and leaves the list as it was otherwise |
| Grid.EmptyPointsDistinct | gtp_connection.py:794-797 | get_empty_points lists no point twice |
| Grid.FirstIndex | gtp_connection.py:802-803 | the position of the first occurrence of an element that is present |
| Grid.RemoveFirstOccurrence | gtp_connection.py:802-803 | list.remove drops exactly the first occurrence and keeps the rest in order |
| Grid.RemoveDistinct | gtp_connection.py:881-882 | in a list without repetitions, remove drops exactly that element |
| Grid.CandidatesAreEmptyPoints | gtp_connection.py:878-885 | a point is a genmove candidate iff it is empty and not the ko point; there are none iff every empty point is the ko point |
| Capture.Neighbors | gtp_connection.py:463-487 | each neighbour list holds at most three on-board points of its ray |
| Capture.Ray | gtp_connection.py:490-680 | the step of every block is non-zero |
| Capture.Firings | gtp_connection.py:490-680 | at most eight blocks fire |
| Capture.Gain | gtp_connection.py:509-512 | the mover's counter rises by an even amount of at most 16 |
| Capture.FiresIffBracketed | gtp_connection.py:490-497 | a block fires exactly when distances 1, 2, 3 lie on the board and read opponent, opponent, own |
| Capture.RayClearsOpponents | gtp_connection.py:490-507 | a block empties only opponent stones, never the placed stone |
| Capture.ClearedByIndex | gtp_connection.py:490-680 | a point is emptied iff one of the eight blocks empties it |
| Capture.ClearedAreBracketedPairs | gtp_connection.py:490-680 | the points emptied are exactly distances 1 and 2 of the bracketed rays |
| Capture.ClearedHeldOpponents | gtp_connection.py:490-680 | every point emptied held an opponent stone and is not the placed stone |
| Capture.ApplyChangesOnlyCleared | gtp_connection.py:434-680 | capture empties the cleared points, keeps every other point and keeps the placed stone |
| Capture.PartsDisjoint | gtp_connection.py:490-680 | no two rays empty the same point |
| Capture.PartSizes | gtp_connection.py:490-680 | each ray empties two points when it fires and none otherwise |
| Capture.PartsUnion | gtp_connection.py:490-680 | the rays' points together are the points emptied |
| Capture.PartsSizes | gtp_connection.py:509-512 | the sizes of the rays' points add up to the counter gain |
| Capture.GainCountsRemovedStones | gtp_connection.py:490-680 | the counter gain equals the number of stones removed |
| Capture.WrittenPoint | gtp_connection.py:498-507 | the write-back names the point with the same column and the mirrored row |
| Capture.Written | gtp_connection.py:498-507 | a point is written iff its mirror image is to be cleared |
| Capture.CaptureAsWritten | gtp_connection.py:498-507 | the as-written capture keeps the board's shape |
| Capture.AsWrittenAt | gtp_connection.py:498-507 | as written, a point is emptied iff its mirror image was to be cleared |
| Capture.MirrorExampleCleared | gtp_connection.py:514-536 | on the example board the block toward column 1 fires, clearing (1, 2) and (1, 3), and (4, 2) and (4, 3) are not to be cleared |
| Capture.CaptureWriteBackMirrored | gtp_connection.py:514-536 | as written, the example keeps the bracketed white pair and removes black's own stones on row 4 |
| Capture.CaptureWriteBackErasesMover | gtp_connection.py:498-507 | on a 5 x 5 column black, white, white, black from the point played, the as-written capture empties the stone just played and one white stone and keeps the other; the corrected capture empties both white stones and keeps the stone played |
| Capture.CaptureCorrectedOnExample | gtp_connection.py:514-536 | corrected, the example loses the white pair and keeps row 4 |
| Win.ColorName | gtp_connection.py:314-320 | "black" iff Black, "white" iff White, "ERROR" otherwise |
| Win.Run | gtp_connection.py:326-344 | a stopped side counts at most its step bound |
| Win.Hits | gtp_connection.py:350-372 | a flagless side counts at most its step bound |
| Win.BothRun | gtp_connection.py:350-372 | the shared-flag side counts at most its step bound |
| Win.GuardedHits | gtp_connection.py:350-372 | the guarded side counts at most its step bound |
| Win.RunMatches | gtp_connection.py:326-344 | a stopped side counts exactly the matching steps before the first mismatch |
| Win.BothRunMatches | gtp_connection.py:350-372 | the positive side counts the steps before the first mismatch on either side |
| Win.Verdict | gtp_connection.py:322-432 | no win iff no axis loop reaches five; a win names the colour of the point |
| Win.Check | gtp_connection.py:298-432 | the result is False or the colour name of the point |
| Win.RunGrows | gtp_connection.py:326-344 | more steps never lower a stopped count |
| Win.HitsGrow | gtp_connection.py:350-372 | more steps never lower a flagless count |
| Win.GuardedHitsGrow | gtp_connection.py:350-372 | more steps never lower a guarded count |
| Win.StoppedCountGrows | gtp_connection.py:322-344 | the first axis count grows with the steps |
| Win.LeakyCountGrows | gtp_connection.py:347-430 | the other axes' counts grow with the steps |
| Win.RunReaches | gtp_connection.py:326-344 | m matching steps give a stopped count of at least m |
| Win.StoppedCountIsConnected5 | gtp_connection.py:299 | the first axis reaches five iff five connected stones lie on it through the point |
| Win.FirstAxisOffset | gtp_connection.py:307-311 | a first-axis step in the view is a column step on the board |
| Win.FirstAxisIsRowFive | gtp_connection.py:322-344 | the first axis reaches five iff the point's row holds five in a row through it |
| Win.RowFiveWins | gtp_connection.py:298-344 | five in a row along the row through the point always wins |
| Win.HitsNone | gtp_connection.py:350-372 | a flagless side without a match counts nothing |
| Win.MismatchHaltsPositiveSide | gtp_connection.py:370 | a mismatch on either side ends the count on the positive side |
| Win.ColumnExampleCounts | gtp_connection.py:347-430 | on a column of five the axes count short of five |
| Win.ColumnFiveMissed | gtp_connection.py:347-374 | a column of five through the point is not reported as a win |
| Win.GapCountedAsFive | gtp_connection.py:376-404 | a line with a gap is reported as a win |
| Rules.DecidePlay | gtp_connection.py:809-848 | a placement is an empty on-board point for the side to move, which is Black or White; the missing argument is exactly fewer than two arguments; the colour error is exactly a first argument that lowers to neither "b" nor "w"; a pass is exactly a good colour with "pass" in any case; the coordinate error is exactly a good colour, no pass, and a move move_to_coord rejects; with Rules.DecidePlayAfterParse and Rules.PassColourIsArgument, the remaining outcomes are pinned to the parsed point and args[0]'s colour |
| Rules.PlayResponse | gtp_connection.py:817-855 | the empty reply exactly for a pass or a placement; no reply exactly when the exception escapes |
| Rules.DecidePlayAfterParse | gtp_connection.py:829-848 | for a good colour and a move move_to_coord parses to (row, col), the decision is the wrong turn exactly when the side to move is not args[0]'s colour, else occupied exactly when (row, col) is not empty, else the stone of args[0]'s colour at (row, col) |
| Rules.PassColourIsArgument | gtp_connection.py:815-827 | a pass is made for the colour args[0] names |
| Rules.PlayFormattedPoint | gtp_connection.py:813-848 | playing a formatted point is a placement, or the wrong-colour or occupied reply |
| Rules.ColorWordLower | gtp_connection.py:815-822 | "b"/"B" and "w"/"W" lower to the accepted colour letters |
| Rules.EarlyChecksIgnoreState | gtp_connection.py:813-833 | the colour, pass and coordinate checks do not depend on the board or the side to move |
| Rules.TurnCheckIgnoresBoard | gtp_connection.py:836-838 | the wrong-turn reply does not depend on the board |
| Rules.PlayIgnoresCase | gtp_connection.py:815-830 | lower-casing both arguments changes no decision |
| Rules.GenMoveOutcomes | gtp_connection.py:860-893 | for a good colour, genmove resigns, passes or plays, and nothing else; it resigns iff the last move won, passes iff every empty point is the ko point, and otherwise plays an empty non-ko point for the given colour |
| Rules.GenMoveReplyIsPlayable | gtp_connection.py:857-895 | below 25 x 25, the reply names the point played and play_cmd would place the same stone |
| Rules.ResultPriority | gtp_connection.py:767-789 | a win at the last move comes first, then ten black captures, then ten white, then a full board, else none |
| Rules.WinReported | gtp_connection.py:769-774 | a win at the last move is reported with the winner's colour |
| Rules.NoWinReported | gtp_connection.py:775-789 | without a win the counters and then a full board decide |
| Rules.FormatAll | gtp_connection.py:794-797 | the names of all points, in order, or the ValueError when one cannot be named |
| Rules.PointNameParses | gtp_connection.py:925-964 | a point name is a word that move_to_coord reads back |
| Rules.PointNameIsWord | gtp_connection.py:925-936 | a point name contains no whitespace |
| Rules.PointNameInjective | gtp_connection.py:925-936 | different points have different names |
| Rules.FormatWithout | gtp_connection.py:798-803 | removing the ko name from the names is naming the points without the ko point |
| Rules.EmptyPointsNameable | gtp_connection.py:794-797 | below 25 x 25 every empty point has a name |
| Rules.CandidatesNameable | gtp_connection.py:794-803 | below 25 x 25 every candidate has a name |
| Rules.LegalNamesAreCandidates | gtp_connection.py:791-805 | the names joined are exactly the names of the candidates, each a word |
| Rules.LegalMovesAreCandidates | gtp_connection.py:791-805 | while playing, the reply splits into exactly the names of the empty non-ko points |
| Rules.LegalMovesOnlyWhilePlaying | gtp_connection.py:806-807 | outside play the reply is empty |
| Rules.CapturedCountReadsBack | gtp_connection.py:897-903 | the reply is two integers, white's count first, then black's |
| Gtp.GatherNeighbors | gtp_connection.py:463-487 | the loop builds each ray's list of on-board neighbours, nearest first |
| Gtp.GainByPairs | gtp_connection.py:509-512 | the counter gain is the sum of the blocks' pairs |
| Gtp.StoppedAxis | gtp_connection.py:322-344 | the first axis loop wins iff its stopped count reaches five |
| Gtp.LeakyAxis | gtp_connection.py:347-430 | the other axis loops win iff their counts reach five |
| Gtp.ScanView | gtp_connection.py:322-432 | the four loops give the specified verdict |
| Gtp.BlockTest | gtp_connection.py:490-497 | the test on the neighbour list is the bracket test, and it clears the two near points |
| Gtp.GtpConnection.constructor | gtp_connection.py:35-51 | a connection over a freshly reset board: empty cells, zero counters, Black to move, no last move or ko point, status "playing" |
| Gtp.GtpConnection.Reset | gtp_connection.py:161-165 | a fresh empty board of the new size, zero counters, Black to move, no last move or ko point, status "playing" |
| Gtp.GtpConnection.SetPoint | gtp_connection.py:844 | one cell is overwritten |
| Gtp.GtpConnection.Block | gtp_connection.py:490-512 | one block empties its bracketed pair in place and adds 2 to the mover's counter when it fires |
| Gtp.GtpConnection.CapProcess | gtp_connection.py:434-680 | the board becomes the capture of the snapshot; only the mover's counter rises, by the gain |
| Gtp.GtpConnection.CheckPointIsWin | gtp_connection.py:298-432 | the result of the loops is Win.Check of the board |
| Gtp.GtpConnection.SetAndCapture | gtp_connection.py:844-845 | a stone is set and captured around; the counters stay even |
| Gtp.GtpConnection.PlaceStone | gtp_connection.py:890-893 | a move: stone, capture, last move and the other side to move |
| Gtp.GtpConnection.Play | gtp_connection.py:809-855 | the reply of the decision; a placement updates board, counters, last move and side to move; a pass changes only the side to move; a rejection changes nothing |
| Gtp.GtpConnection.ChooseMove | gtp_connection.py:860-889 | the steps reach the specified genmove decision, and a chosen point is on the board |
| Gtp.GtpConnection.GenMove | gtp_connection.py:857-895 | the reply of the decision; a chosen move updates the state as play does; resign, pass and errors change nothing |
| Gtp.GtpConnection.Outcome | gtp_connection.py:769-787 | the checks find the specified outcome |
| Gtp.GtpConnection.FinalResult | gtp_connection.py:767-789 | the outcome is the reply and the new status; "unknown" keeps the status |
| Gtp.GtpConnection.LegalMoves | gtp_connection.py:791-807 | the specified legal-moves reply for the board, ko point and status |
| Gtp.GtpConnection.CapturedCount | gtp_connection.py:897-903 | the reply reads back as white's count, then black's |

## Left out

- Stream I/O (`write`, `flush`, `respond`, `error`, `debug_msg`) and `start_connection`'s read loop: replies are returned as values instead.
- The metadata and pass-through commands (`protocol_version`, `name`, `version`, `known_command`, `list_commands`, `gogui_analyze`, `game_id`, `board_size`, `side_to_move`, `quit`): they read or print nothing the rules use. They appear only as names known to `Commands.Classify`.
- `boardsize_cmd` and `clear_board_cmd`: they only forward to `reset`, which is `Gtp.GtpConnection.Reset`.
- `komi_cmd`: it parses a float into an engine object that is not part of this model.
- Board rendering (`showboard_cmd`, `board2d`, `gogui_rules_board_cmd`) and `legal_moves_cmd`: the latter is a wrapper over `GoBoardUtil.generate_legal_moves`, which is not part of this model.
- `np.random.choice` (line 889): replaced by the `pick` parameter, which selects `candidates[pick % |candidates|]`. Every candidate is reachable this way, so the model covers any choice, but not the distribution.
- Exception logging and the re-raise with a traceback (lines 124-129 and 851-855): an escaping exception is the reply `None`.
- `is_group_alive` and `remove_group`: their only call site is commented out (lines 682-697), so they never run.
- The internals of `board_base`, `board`, `board_util` and `engine`: only the helpers listed above are described, each as a stated assumption.
- Text.IsDigit: `str.isdigit` and `int()` are modelled for ASCII digits only; other Unicode digits are not.
- Text.Lower: lowers ASCII letters only; `str.lower` on other letters is not modelled.
- Rules.PlayResponse: renders the argument list as Python's repr would for strings without quotes or backslashes; repr's escaping is not modelled.
- Gtp.GtpConnection.constructor: takes the board handed to `__init__` to be freshly reset to the given size; a board already in play is not modelled. The engine object and the debug flag are left out.
- `ko_recapture` is never set by the code in this file. The model keeps it as a field that only `reset` writes.
- Gtp.GtpConnection.PlaceStone: sets the last move and the side to move before the stone and the capture, where `play_cmd` sets them after. `cap_process` reads neither field, so the resulting state is the same.
- Gtp.GtpConnection.GenMove: works out its reply from the chosen point before placing the stone, where the source formats it after. `format_point` depends only on the point.
- Gtp.GtpConnection.CapProcess: with it `Block`, `SetAndCapture`, `PlaceStone`, `Play` and `GenMove` empty the bracketed stones themselves (the corrected capture `Capture.Apply`, in board coordinates). They do not model the mirrored write-back of lines 498-507, which empties the stones in row `size + 1 - row` instead (`Capture.CaptureAsWritten`, the "## Findings" row).
- Win.Check: with it `Gtp.GtpConnection.CheckPointIsWin`, `Gtp.GtpConnection.Outcome`, `Gtp.GtpConnection.FinalResult` and the resign test of `Gtp.GtpConnection.ChooseMove` answer for every point. In the source, line 300 calls `format_point` on the point before any check, and that raises for a 25 x 25 board's row or column 25. There, `gogui-rules_final_result` fails, and `genmove` fails at line 870 before placing a stone. The model does not capture that exception.
- Gtp.GtpConnection.Reset: takes a `nat` size. The negative sizes `int(args[0])` can hand over from `boardsize_cmd` (line 197) are not modelled; what `board.reset` does with them is not part of this model.
- Commands.Classify: the usage message is returned as the action's text; the `"? "` prefix `error` writes is stream output and is not modelled.

## Findings

| source | as written | input that shows it | evidently intended | confidence | as-written member | corrected member |
|---|---|---|---|---|---|---|
| gtp_connection.py:498-507 | `cap_process` finds a bracketed pair in the flipped 2D view but empties it through `coord_to_point(i + 1, j + 1)` on the view position, with the row not flipped back. The stones emptied are the mirror images of the bracketed pair, in row `size + 1 - row`. | A 4 x 4 board whose row 1 reads black, white, white, black after black plays (1, 4), with black stones at (4, 2) and (4, 3): the white pair stays and black's own stones on row 4 are removed. | The two bracketed opponent stones are removed and nothing else changes. | not executed | Capture.CaptureWriteBackMirrored | Capture.ApplyChangesOnlyCleared |
