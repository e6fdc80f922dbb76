/**
 * The pieces of Python's str behaviour that gtp_connection.py relies on:
 * isspace, isdigit, lower, strip, split, " ".join, str(int) and int(str).
 */
module Text {
  import opened Wrappers

  /** Python's str.isspace on one character (the Unicode whitespace set Python uses). */
  predicate IsSpace(ch: char)
  {
    var n := ch as int;
    (9 <= n <= 13) || (28 <= n <= 32) || n == 0x85 || n == 0xA0 || n == 0x1680
    || (0x2000 <= n <= 0x200A) || n == 0x2028 || n == 0x2029 || n == 0x202F
    || n == 0x205F || n == 0x3000
  }

  /** An ASCII decimal digit. */
  predicate IsDigit(ch: char)
  {
    '0' <= ch <= '9'
  }

  /** A non-empty string without whitespace: what str.split() produces. */
  predicate IsWord(w: string)
  {
    |w| > 0 && forall i :: 0 <= i < |w| ==> !IsSpace(w[i])
  }

  predicate NoSpace(w: string)
  {
    forall i :: 0 <= i < |w| ==> !IsSpace(w[i])
  }

  predicate AllDigits(s: string)
  {
    forall i :: 0 <= i < |s| ==> IsDigit(s[i])
  }

  /** str.lower on one character, for the ASCII letters. */
  function LowerChar(ch: char): char
  {
    if 'A' <= ch <= 'Z' then (ch as int + 32) as char else ch
  }

  function Lower(s: string): (r: string)
    ensures |r| == |s|
    ensures forall i :: 0 <= i < |s| ==> r[i] == LowerChar(s[i])
  {
    if s == [] then [] else [LowerChar(s[0])] + Lower(s[1..])
  }

  /** str.lstrip(): drops leading whitespace. */
  function LStrip(s: string): (r: string)
    ensures r == [] || !IsSpace(r[0])
    ensures |r| <= |s| && r == s[|s| - |r|..]
    ensures forall i :: 0 <= i < |s| - |r| ==> IsSpace(s[i])
  {
    if s != [] && IsSpace(s[0]) then LStrip(s[1..]) else s
  }

  /** str.rstrip(): drops trailing whitespace. */
  function RStrip(s: string): (r: string)
    ensures r == [] || !IsSpace(r[|r| - 1])
    ensures |r| <= |s| && r == s[..|r|]
    ensures forall i :: |r| <= i < |s| ==> IsSpace(s[i])
  {
    if s != [] && IsSpace(s[|s| - 1]) then RStrip(s[..|s| - 1]) else s
  }

  /** str.strip(). */
  function Strip(s: string): string
  {
    RStrip(LStrip(s))
  }

  /** len(s.strip(" \r\t")) == 0: every character is a space, a carriage return or a tab. */
  predicate OnlyBlanks(s: string)
  {
    forall i :: 0 <= i < |s| ==> s[i] == ' ' || s[i] == '\r' || s[i] == '\t'
  }

  /** re.sub("^\d+", "", s): removes the leading run of digits. */
  function DropLeadingDigits(s: string): (r: string)
    ensures r == [] || !IsDigit(r[0])
    ensures |r| <= |s| && r == s[|s| - |r|..]
    ensures forall i :: 0 <= i < |s| - |r| ==> IsDigit(s[i])
  {
    if s != [] && IsDigit(s[0]) then DropLeadingDigits(s[1..]) else s
  }

  /** str.split() with no separator: the maximal runs of non-whitespace characters, in order. */
  function Split(s: string): (ws: seq<string>)
    ensures forall k :: 0 <= k < |ws| ==> IsWord(ws[k])
  {
    SplitFrom(s, [])
  }

  /** Split of s when the characters in cur have already been read into the current word. */
  function SplitFrom(s: string, cur: string): (ws: seq<string>)
    requires NoSpace(cur)
    ensures forall k :: 0 <= k < |ws| ==> IsWord(ws[k])
    decreases |s|
  {
    if s == [] then
      (if cur == [] then [] else [cur])
    else if IsSpace(s[0]) then
      (if cur == [] then [] else [cur]) + SplitFrom(s[1..], [])
    else
      SplitFrom(s[1..], cur + [s[0]])
  }

  /** " ".join(ws). */
  function JoinWords(ws: seq<string>): string
  {
    if |ws| == 0 then []
    else if |ws| == 1 then ws[0]
    else ws[0] + " " + JoinWords(ws[1..])
  }

  lemma {:induction false} SplitFromWord(w: string, rest: string, cur: string)
    requires NoSpace(w) && NoSpace(cur)
    ensures SplitFrom(w + rest, cur) == SplitFrom(rest, cur + w)
    decreases |w|
  {
    if w == [] {
      assert w + rest == rest;
      assert cur + w == cur;
    } else {
      assert (w + rest)[0] == w[0];
      assert (w + rest)[1..] == w[1..] + rest;
      assert cur + [w[0]] + w[1..] == cur + w;
      assert NoSpace(cur + [w[0]]);
      SplitFromWord(w[1..], rest, cur + [w[0]]);
    }
  }

  lemma {:induction false} SplitFromBlanks(t: string, rest: string)
    requires forall i :: 0 <= i < |t| ==> IsSpace(t[i])
    ensures SplitFrom(t + rest, []) == SplitFrom(rest, [])
    decreases |t|
  {
    if t == [] {
      assert t + rest == rest;
    } else {
      assert (t + rest)[0] == t[0];
      assert (t + rest)[1..] == t[1..] + rest;
      SplitFromBlanks(t[1..], rest);
    }
  }

  /** Splitting a " ".join of words gives the words back. */
  lemma {:induction false} SplitJoinWords(ws: seq<string>)
    requires forall k :: 0 <= k < |ws| ==> IsWord(ws[k])
    ensures Split(JoinWords(ws)) == ws
    decreases |ws|
  {
    if |ws| == 1 {
      var w := ws[0];
      SplitFromWord(w, [], []);
      assert w + [] == w;
      assert [] + w == w;
      assert SplitFrom([], w) == [w];
    } else if |ws| > 1 {
      var w, tail := ws[0], JoinWords(ws[1..]);
      assert JoinWords(ws) == w + (" " + tail);
      SplitFromWord(w, " " + tail, []);
      assert [] + w == w;
      assert (" " + tail)[1..] == tail;
      SplitJoinWords(ws[1..]);
      assert ws == [w] + ws[1..];
    }
  }

  /** Splitting a string of whitespace alone gives no words. */
  lemma BlankSplitsToNothing(s: string)
    requires forall i :: 0 <= i < |s| ==> IsSpace(s[i])
    ensures Split(s) == []
  {
    SplitFromBlanks(s, []);
    assert s + [] == s;
  }

  function DigitChar(d: nat): (ch: char)
    requires d < 10
    ensures IsDigit(ch)
  {
    ('0' as int + d) as char
  }

  /** str(n) for a non-negative integer. */
  function DecimalString(n: nat): (s: string)
    ensures |s| > 0 && AllDigits(s)
    decreases n
  {
    if n < 10 then [DigitChar(n)] else DecimalString(n / 10) + [DigitChar(n % 10)]
  }

  /** The number that a string of decimal digits denotes. */
  function DigitsValue(s: string): nat
    requires AllDigits(s)
  {
    if s == [] then 0 else DigitsValue(s[..|s| - 1]) * 10 + (s[|s| - 1] as int - '0' as int)
  }

  lemma {:induction false} DecimalStringValue(n: nat)
    ensures DigitsValue(DecimalString(n)) == n
    decreases n
  {
    if n >= 10 {
      var s := DecimalString(n);
      assert s[..|s| - 1] == DecimalString(n / 10);
      DecimalStringValue(n / 10);
    }
  }

  /** The digit string int() accepts: digits, with single underscores only between digits. */
  predicate DigitGroups(s: string)
  {
    |s| > 0 && IsDigit(s[0]) && IsDigit(s[|s| - 1])
    && (forall i :: 0 <= i < |s| ==> IsDigit(s[i]) || s[i] == '_')
    && (forall i :: 0 <= i < |s| - 1 ==> !(s[i] == '_' && s[i + 1] == '_'))
  }

  function RemoveUnderscores(s: string): (r: string)
    requires forall i :: 0 <= i < |s| ==> IsDigit(s[i]) || s[i] == '_'
    ensures AllDigits(r)
    ensures AllDigits(s) ==> r == s
  {
    if s == [] then [] else (if s[0] == '_' then [] else [s[0]]) + RemoveUnderscores(s[1..])
  }

  /** Removing underscores works piecewise: on s + t it is the removal on s, then on t. */
  lemma {:induction false} RemoveUnderscoresAppend(s: string, t: string)
    requires forall i :: 0 <= i < |s| ==> IsDigit(s[i]) || s[i] == '_'
    requires forall i :: 0 <= i < |t| ==> IsDigit(t[i]) || t[i] == '_'
    ensures RemoveUnderscores(s + t) == RemoveUnderscores(s) + RemoveUnderscores(t)
    decreases |s|
  {
    if s == [] {
      assert s + t == t;
    } else {
      var head, rest := if s[0] == '_' then [] else [s[0]], s[1..];
      assert (s + t)[0] == s[0] && (s + t)[1..] == rest + t;
      var x, y, z := RemoveUnderscores(rest), RemoveUnderscores(t), RemoveUnderscores(rest + t);
      RemoveUnderscoresAppend(rest, t);
      assert z == x + y;
      assert head + (x + y) == (head + x) + y;
    }
  }

  /** One character: an underscore is dropped, a digit is kept. */
  lemma RemoveUnderscoresOne(c: char)
    requires IsDigit(c) || c == '_'
    ensures RemoveUnderscores([c]) == if c == '_' then [] else [c]
  {
  }

  /** A string that starts and ends with a digit has no surrounding whitespace to strip. */
  lemma StripDigitEnds(s: string)
    requires |s| > 0 && IsDigit(s[0]) && IsDigit(s[|s| - 1])
    ensures Strip(s) == s
  {
    assert !IsSpace(s[0]) && !IsSpace(s[|s| - 1]);
    assert LStrip(s) == s;
  }

  /** Two digit groups joined by one underscore are digit groups in int()'s sense. */
  lemma JoinedGroups(a: string, b: string)
    requires |a| > 0 && |b| > 0 && AllDigits(a) && AllDigits(b)
    ensures DigitGroups(a + "_" + b)
  {
    var s := a + "_" + b;
    assert forall i :: 0 <= i < |s| ==> s[i] == (if i < |a| then a[i] else if i == |a| then '_' else b[i - |a| - 1]);
  }

  /** ... and with the underscore removed they are the digits of both groups. */
  lemma JoinedGroupsDigits(a: string, b: string)
    requires |a| > 0 && |b| > 0 && AllDigits(a) && AllDigits(b)
    ensures DigitGroups(a + "_" + b) && RemoveUnderscores(a + "_" + b) == a + b
  {
    var t := "_" + b;
    assert a + "_" + b == a + t;
    JoinedGroups(a, b);
    assert RemoveUnderscores(a + t) == a + b by {
      UnderscoreThenDigits(b);
      RemoveUnderscoresAppend(a, t);
    }
  }

  /** A leading underscore is dropped and the digits after it are kept. */
  lemma UnderscoreThenDigits(b: string)
    requires AllDigits(b)
    ensures RemoveUnderscores("_" + b) == b
  {
    var t := "_" + b;
    assert t[0] == '_' && t[1..] == b;
  }

  /** int() of digit groups, without a sign, is the value of their digits. */
  lemma ParseGroups(t: string)
    requires DigitGroups(t)
    ensures ParseInt(t) == Some(DigitsValue(RemoveUnderscores(t)))
  {
    StripDigitEnds(t);
  }

  /** int() of a non-empty string of digits is the number those digits write. */
  lemma ParseDigits(u: string)
    requires |u| > 0 && AllDigits(u)
    ensures ParseInt(u) == Some(DigitsValue(u))
  {
    assert DigitGroups(u);
    ParseGroups(u);
  }

  /** A single underscore between two digit groups does not change what int() reads. */
  lemma UnderscoreBetweenGroups(a: string, b: string)
    requires |a| > 0 && |b| > 0 && AllDigits(a) && AllDigits(b)
    ensures ParseInt(a + "_" + b) == ParseInt(a + b) == Some(DigitsValue(a + b))
  {
    JoinedGroupsDigits(a, b);
    ParseGroups(a + "_" + b);
    ParseDigits(a + b);
  }

  /** int(s) for a str: surrounding whitespace, an optional sign, then digit groups. */
  function ParseInt(s: string): Option<int>
  {
    var t := Strip(s);
    if |t| > 0 && (t[0] == '+' || t[0] == '-') then
      if DigitGroups(t[1..]) then
        var v: int := DigitsValue(RemoveUnderscores(t[1..]));
        Some(if t[0] == '-' then -v else v)
      else None
    else if DigitGroups(t) then Some(DigitsValue(RemoveUnderscores(t)))
    else None
  }

  /** int(str(n)) == n. */
  lemma ParseDecimalString(n: nat)
    ensures ParseInt(DecimalString(n)) == Some(n)
  {
    ParseDigits(DecimalString(n));
    DecimalStringValue(n);
  }
}
