/**
 * Command-line classification of GtpConnection.get_cmd and has_arg_error: what one
 * input line makes the connection do, before any handler runs.
 */
module Commands {
  import opened Wrappers
  import opened Text

  /** The names registered in self.commands. */
  const Known: set<string> := {
    "protocol_version", "quit", "name", "boardsize", "showboard", "clear_board", "komi",
    "version", "known_command", "genmove", "list_commands", "play", "legal_moves",
    "gogui-rules_legal_moves", "gogui-rules_final_result", "gogui-rules_captured_count",
    "gogui-rules_game_id", "gogui-rules_board_size", "gogui-rules_side_to_move",
    "gogui-rules_board", "gogui-analyze_commands"
  }

  /** self.argmap: required argument count and the usage message sent when it is not met. */
  const ArgMap: map<string, (nat, string)> := map[
    "boardsize" := (1, "Usage: boardsize INT"),
    "komi" := (1, "Usage: komi FLOAT"),
    "known_command" := (1, "Usage: known_command CMD_NAME"),
    "genmove" := (1, "Usage: genmove {w,b}"),
    "play" := (2, "Usage: play {b,w} MOVE"),
    "legal_moves" := (1, "Usage: legal_moves {w,b}")
  ]

  /** What get_cmd does with one line. */
  datatype Action =
    | Ignore                                   // returns without a reply
    | UsageError(message: string)              // "? <usage>" from has_arg_error
    | Dispatch(name: string, args: seq<string>) // runs the registered handler
    | Unknown(name: string)                    // "? Unknown command"

  /** has_arg_error: the usage message when cmd has an arity entry that argnum misses. */
  function ArgError(cmd: string, argnum: nat): (r: Option<string>)
  {
    if cmd in ArgMap && ArgMap[cmd].0 != argnum then Some(ArgMap[cmd].1) else None
  }

  /** The line with a leading regression-test number removed, as get_cmd splits it. */
  function Words(line: string): seq<string>
    requires |line| > 0
  {
    if IsDigit(line[0]) then Split(LStrip(DropLeadingDigits(line))) else Split(line)
  }

  /** get_cmd, lines 104-133, without the handler call and the output it writes. */
  function Classify(line: string): (a: Action)
    ensures (OnlyBlanks(line) || line[0] == '#') ==> a == Ignore
    ensures !OnlyBlanks(line) && line[0] != '#' ==> a == Decide(Words(line))
  {
    if OnlyBlanks(line) then Ignore
    else if line[0] == '#' then Ignore
    else Decide(Words(line))
  }

  /** Lines 117-133: the decision on the split words of a line. */
  function Decide(ws: seq<string>): (a: Action)
    requires forall k :: 0 <= k < |ws| ==> IsWord(ws[k])
    ensures a == Ignore <==> ws == []
    ensures a.Dispatch? ==>
              && a.name in Known && a.name == ws[0] && a.args == ws[1..]
              && (a.name in ArgMap ==> ArgMap[a.name].0 == |a.args|)
    ensures a.UsageError? ==> ws[0] in ArgMap && ArgMap[ws[0]].0 != |ws| - 1 && a.message == ArgMap[ws[0]].1
    ensures a.Unknown? ==> a.name == ws[0] && a.name !in Known && a.name !in ArgMap
  {
    if ws == [] then Ignore
    else
      var name, args := ws[0], ws[1..];
      match ArgError(name, |args|)
      case Some(usage) => UsageError(usage)
      case None => if name in Known then Dispatch(name, args) else Unknown(name)
  }

  /** A line of whitespace alone, of any kind, does nothing. */
  lemma BlankLineIgnored(line: string)
    requires forall i :: 0 <= i < |line| ==> IsSpace(line[i])
    ensures Classify(line) == Ignore
  {
    if !OnlyBlanks(line) && line[0] != '#' {
      assert !IsDigit(line[0]);
      BlankSplitsToNothing(line);
    }
  }

  /** A line written as a command name and its arguments is classified by the name and the argument count. */
  lemma {:induction false} ClassifyCommandLine(name: string, args: seq<string>)
    requires IsWord(name) && name[0] != '#' && !IsDigit(name[0])
    requires forall k :: 0 <= k < |args| ==> IsWord(args[k])
    ensures name in ArgMap && ArgMap[name].0 != |args| ==> Classify(JoinWords([name] + args)) == UsageError(ArgMap[name].1)
    ensures !(name in ArgMap && ArgMap[name].0 != |args|) && name in Known ==> Classify(JoinWords([name] + args)) == Dispatch(name, args)
    ensures !(name in ArgMap && ArgMap[name].0 != |args|) && name !in Known ==> Classify(JoinWords([name] + args)) == Unknown(name)
  {
    var ws := [name] + args;
    var line := JoinWords(ws);
    assert forall k :: 0 <= k < |ws| ==> IsWord(ws[k]);
    assert line[0] == name[0] by {
      if |ws| > 1 { assert line == name + (" " + JoinWords(ws[1..])); }
    }
    assert !OnlyBlanks(line);
    SplitJoinWords(ws);
    assert ws[1..] == args;
  }

  /** A leading line number and the whitespace after it are dropped before the command is read. */
  lemma LineNumberStripped(number: string, gap: string, rest: string)
    requires |number| > 0 && AllDigits(number)
    requires forall i :: 0 <= i < |gap| ==> IsSpace(gap[i])
    requires |rest| > 0 && !IsSpace(rest[0]) && !IsDigit(rest[0]) && rest[0] != '#'
    ensures Classify(number + gap + rest) == Classify(rest)
  {
    var line := number + gap + rest;
    NumberedLine(number, gap, rest);
    SameWords(line, rest);
  }

  lemma NumberedLine(number: string, gap: string, rest: string)
    requires |number| > 0 && AllDigits(number)
    requires forall i :: 0 <= i < |gap| ==> IsSpace(gap[i])
    requires |rest| > 0 && !IsSpace(rest[0]) && !IsDigit(rest[0]) && rest[0] != '#'
    ensures var line := number + gap + rest;
      && !OnlyBlanks(line) && IsDigit(line[0]) && LStrip(DropLeadingDigits(line)) == rest
      && !OnlyBlanks(rest)
  {
    var tail := gap + rest;
    assert number + gap + rest == number + tail;
    TailStart(gap, rest);
    DropDigitsPrefix(number, tail);
    LStripPrefix(gap, rest);
    NumberStart(number, tail);
    assert !OnlyBlanks(rest) by {
      assert !(rest[0] == ' ' || rest[0] == '\r' || rest[0] == '\t');
    }
  }

  /** Blanks followed by a word start with a non-digit. */
  lemma TailStart(gap: string, rest: string)
    requires forall i :: 0 <= i < |gap| ==> IsSpace(gap[i])
    requires |rest| > 0 && !IsSpace(rest[0]) && !IsDigit(rest[0])
    ensures !IsDigit((gap + rest)[0])
  {
    if gap != [] {
      assert (gap + rest)[0] == gap[0];
    } else {
      assert (gap + rest)[0] == rest[0];
    }
  }

  /** A line that starts with a digit is not blank. */
  lemma NumberStart(number: string, tail: string)
    requires |number| > 0 && AllDigits(number)
    ensures IsDigit((number + tail)[0]) && !OnlyBlanks(number + tail)
  {
    assert (number + tail)[0] == number[0];
  }

  lemma SameWords(line: string, rest: string)
    requires !OnlyBlanks(line) && IsDigit(line[0]) && LStrip(DropLeadingDigits(line)) == rest
    requires !OnlyBlanks(rest) && !IsDigit(rest[0]) && rest[0] != '#'
    ensures Classify(line) == Classify(rest)
  {
    assert Words(line) == Split(rest);
    assert Words(rest) == Split(rest);
    assert Classify(line) == Decide(Split(rest));
  }

  lemma {:induction false} DropDigitsPrefix(number: string, rest: string)
    requires AllDigits(number)
    requires rest == [] || !IsDigit(rest[0])
    ensures DropLeadingDigits(number + rest) == rest
    decreases |number|
  {
    if number == [] {
      assert number + rest == rest;
    } else {
      assert (number + rest)[1..] == number[1..] + rest;
      DropDigitsPrefix(number[1..], rest);
    }
  }

  lemma {:induction false} LStripPrefix(gap: string, rest: string)
    requires forall i :: 0 <= i < |gap| ==> IsSpace(gap[i])
    requires rest == [] || !IsSpace(rest[0])
    ensures LStrip(gap + rest) == rest
    decreases |gap|
  {
    if gap == [] {
      assert gap + rest == rest;
    } else {
      assert (gap + rest)[1..] == gap[1..] + rest;
      LStripPrefix(gap[1..], rest);
    }
  }

  /** Every command with an arity entry is a registered command. */
  lemma ArgMapCommandsKnown(cmd: string)
    requires cmd in ArgMap
    ensures cmd in Known
  {
  }
}
