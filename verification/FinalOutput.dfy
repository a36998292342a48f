/** The protocol between the bridge, which prints the final output of a run, and the service, which finds a flag in
    it. */
module FinalOutput {
  import opened Options
  import opened Text

  const SOLVED_MARKER := "这道题目已经解出"
  const FINAL_MARKER := "Observation: final readable OpenCode output:"
  const COMPLETION := "Final: opencode bridge completed"

  predicate GoMark(line: string) {
    TrimSpace(line) == SOLVED_MARKER
  }

  predicate GoBlank(line: string) {
    TrimSpace(line) == ""
  }

  predicate PyMark(line: string) {
    Strip(line) == SOLVED_MARKER
  }

  predicate PyBlank(line: string) {
    Strip(line) == ""
  }

  // What the service reads

  /** The text after the last occurrence of `m`. */
  function AfterLast(s: string, m: string): Option<string>
    requires m != ""
  {
    if s == "" then None
    else
      var later := AfterLast(s[1..], m);
      if later.Some? then later else if m <= s then Some(s[|m|..]) else None
  }

  /** latestFinalReadableOutput */
  function LatestFinal(logs: string): string {
    var rest := AfterLast(Normalize(logs), FINAL_MARKER);
    if rest.None? then "" else TrimSpace(rest.value)
  }

  /** The first line that declares the task solved; the number of lines if none does. */
  function FirstMark(lines: seq<string>): (k: nat)
    ensures k <= |lines| && (k < |lines| ==> GoMark(lines[k])) && forall i | 0 <= i < k :: !GoMark(lines[i])
  {
    if lines == [] then 0 else if GoMark(lines[0]) then 0 else FirstMark(lines[1..]) + 1
  }

  /** The line after the first marker, unless it is blank or missing. */
  function Flag(lines: seq<string>): Option<string> {
    var k := FirstMark(lines);
    if k + 1 < |lines| && !GoBlank(lines[k + 1]) then Some(lines[k + 1]) else None
  }

  /** parseRunnerOutput's verdict, None standing for an unsolved task. */
  method ParseFlag(logs: string) returns (flag: Option<string>)
    ensures flag == Flag(Lines(LatestFinal(logs)))
    ensures flag.Some? ==> Contains(logs, FINAL_MARKER)
  {
    if !Contains(logs, FINAL_MARKER) {
      NoFlagWithoutMarker(logs);
    }
    var finalText := LatestFinal(logs);
    if finalText == "" {
      LinesOfNothing();
      return None;
    }
    LinesOfNormalized(finalText);
    flag := FindFlag(Split(Normalize(finalText)));
  }

  /** The loop of parseRunnerOutput. */
  method FindFlag(lines: seq<string>) returns (flag: Option<string>)
    ensures flag == Flag(Chomped(lines))
  {
    ghost var chomped := Chomped(lines);
    for index := 0 to |lines|
      invariant forall i | 0 <= i < index :: !GoMark(chomped[i])
    {
      ChompedKeeps(lines, index);
      if !GoMark(lines[index]) {
        continue;
      }
      FlagAt(chomped, index);
      if index + 1 >= |lines| {
        return None;
      }
      ChompedKeeps(lines, index + 1);
      flag := Some(TrimRight(lines[index + 1], IsCR));
      if GoBlank(flag.value) {
        return None;
      }
      return flag;
    }
    FlagAt(chomped, |lines|);
    return None;
  }

  lemma FlagAt(lines: seq<string>, k: nat)
    requires k <= |lines| && (k < |lines| ==> GoMark(lines[k])) && forall i | 0 <= i < k :: !GoMark(lines[i])
    ensures FirstMark(lines) == k
    ensures Flag(lines) == if k + 1 < |lines| && !GoBlank(lines[k + 1]) then Some(lines[k + 1]) else None
  {
    FirstMarkIs(lines, k);
  }

  lemma FirstMarkIs(lines: seq<string>, k: nat)
    requires k <= |lines| && (k < |lines| ==> GoMark(lines[k])) && forall i | 0 <= i < k :: !GoMark(lines[i])
    ensures FirstMark(lines) == k
  {
  }

  lemma {:induction false} ChompedKeeps(lines: seq<string>, i: nat)
    requires i < |lines|
    ensures Chomped(lines)[i] == Chomp(lines[i])
    ensures GoMark(Chomped(lines)[i]) == GoMark(lines[i]) && PyMark(Chomped(lines)[i]) == PyMark(lines[i])
  {
    if i > 0 {
      ChompedKeeps(lines[1..], i - 1);
    } else {
      ChompIsInvisible(lines[0]);
    }
  }

  // What the bridge reads

  /** The first line that declares the task solved and has a flag after it; the number of lines if there is none. */
  function FirstDeclared(lines: seq<string>): (k: nat)
    ensures k <= |lines| && (k < |lines| ==> k + 1 < |lines| && PyMark(lines[k]) && !PyBlank(lines[k + 1]))
    ensures forall i | 0 <= i < k && i + 1 < |lines| :: !(PyMark(lines[i]) && !PyBlank(lines[i + 1]))
  {
    if |lines| < 2 then |lines|
    else if PyMark(lines[0]) && !PyBlank(lines[1]) then 0
    else FirstDeclared(lines[1..]) + 1
  }

  function BridgeFlag(lines: seq<string>): Option<string> {
    var k := FirstDeclared(lines);
    if k < |lines| then Some(lines[k + 1]) else None
  }

  /** Whether a line declares the task solved and is followed by a flag. */
  ghost predicate Declared(lines: seq<string>, i: nat) {
    i + 1 < |lines| && PyMark(lines[i]) && !PyBlank(lines[i + 1])
  }

  lemma BridgeFlagAt(lines: seq<string>, k: nat)
    requires k <= |lines| && (k < |lines| ==> Declared(lines, k)) && forall i | 0 <= i < k :: !Declared(lines, i)
    ensures BridgeFlag(lines) == if k < |lines| then Some(lines[k + 1]) else None
  {
    var j := FirstDeclared(lines);
    assert j < |lines| ==> Declared(lines, j);
  }

  /** extract_solved_flag, None standing for an empty result. */
  method ExtractSolvedFlag(finalText: string) returns (flag: Option<string>)
    ensures flag == BridgeFlag(Lines(finalText))
  {
    LinesOfNormalized(finalText);
    flag := FindDeclaredFlag(Split(Normalize(finalText)));
  }

  lemma DeclaresAlike(lines: seq<string>, chomped: seq<string>, i: nat)
    requires i < |lines| == |chomped| && PyMark(chomped[i]) == PyMark(lines[i])
    requires i + 1 < |lines| ==> chomped[i + 1] == Chomp(lines[i + 1])
    ensures Declared(chomped, i) <==> i + 1 < |lines| && PyMark(lines[i]) && !PyBlank(Chomp(lines[i + 1]))
  {
  }

  /** The loop of extract_solved_flag. */
  method FindDeclaredFlag(lines: seq<string>) returns (flag: Option<string>)
    ensures flag == BridgeFlag(Chomped(lines))
  {
    ghost var chomped := Chomped(lines);
    for index := 0 to |lines|
      invariant forall i | 0 <= i < index :: !Declared(chomped, i)
    {
      ChompedKeeps(lines, index);
      if !PyMark(lines[index]) {
        continue;
      }
      if index + 1 >= |lines| {
        BridgeFlagAt(chomped, |lines|);
        return None;
      }
      ChompedKeeps(lines, index + 1);
      DeclaresAlike(lines, chomped, index);
      var next := TrimRight(lines[index + 1], IsCR);
      if !PyBlank(next) {
        BridgeFlagAt(chomped, index);
        return Some(next);
      }
    }
    BridgeFlagAt(chomped, |lines|);
    return None;
  }

  // What becomes of the flag on its way from the bridge to the service

  /** What follows the final-output marker in the log: the emitted text, the completion line, whatever is logged
      later. */
  function Emitted(text: string, tail: string): string {
    "\n" + text + "\n" + COMPLETION + "\n" + tail
  }

  /** What the service makes of a block. */
  function ServiceFlag(block: string): Option<string> {
    Flag(Lines(TrimSpace(Normalize(block))))
  }

  /** The flag in what was logged after the completion line. */
  function LaterFlag(tail: string): Option<string> {
    Flag(Lines(TrimRight(Normalize(tail), GoSpace)))
  }

  lemma EmptyIsNoMark()
    ensures !GoMark("") && GoBlank("") && !PyMark("")
  {
  }

  /** A line that declares nothing and ends in a visible character. */
  ghost predicate Visible(line: string) {
    line != "" && !GoSpace(line[|line| - 1]) && !GoMark(line) && !GoBlank(line) && Lines(line) == [line]
  }

  lemma CompletionIsVisible()
    ensures Visible(COMPLETION)
  {
    TrimKeeps(COMPLETION, GoSpace);
    PlainLine(COMPLETION);
    assert COMPLETION[0] != SOLVED_MARKER[0];
  }

  lemma FirstMarkConcat(a: seq<string>, b: seq<string>)
    ensures FirstMark(a + b) == if FirstMark(a) < |a| then FirstMark(a) else |a| + FirstMark(b)
  {
    FirstMarkIs(a + b, if FirstMark(a) < |a| then FirstMark(a) else |a| + FirstMark(b));
  }

  lemma {:induction false} FlagAfterWhite(s: string, c: char)
    requires GoSpace(c)
    ensures Flag(Lines([c] + s)) == Flag(Lines(s))
  {
    var lines := Lines(s);
    LinesPrepend(s, c);
    EmptyIsNoMark();
    if c == '\n' {
      FirstMarkConcat([""], lines);
    } else {
      ChompIsInvisible([c] + lines[0]);
      TrimIgnoresEnds(lines[0], c, GoSpace);
      SameFromSecond(Lines([c] + s), lines);
    }
  }

  lemma SameFromSecond(a: seq<string>, b: seq<string>)
    requires |a| == |b| > 0 && a[1..] == b[1..] && GoMark(a[0]) == GoMark(b[0])
    ensures Flag(a) == Flag(b)
  {
    forall i | 0 < i < |a|
      ensures a[i] == b[i]
    {
      assert a[i] == a[1..][i - 1] && b[i] == b[1..][i - 1];
    }
    FirstMarkIs(a, FirstMark(b));
  }

  lemma {:induction false} FlagTrimLeft(s: string)
    ensures Flag(Lines(TrimLeft(s, GoSpace))) == Flag(Lines(s))
  {
    if s != "" && GoSpace(s[0]) {
      FlagTrimLeft(s[1..]);
      FlagAfterWhite(s[1..], s[0]);
      assert s == [s[0]] + s[1..];
    }
  }

  lemma FlagAfterPlain(line: string, rest: seq<string>)
    requires !GoMark(line)
    ensures FirstMark([line] + rest) == FirstMark(rest) + 1 && Flag([line] + rest) == Flag(rest)
  {
    FirstMarkIs([line] + rest, FirstMark(rest) + 1);
  }

  /** What is left of a visible line and what follows it, once trimmed: the line, and the flag in the rest. */
  lemma {:induction false} EndTrimmed(line: string, tail: string)
    requires Visible(line)
    ensures var lines := Lines(TrimRight(line + "\n" + tail, GoSpace));
            lines[0] == line && FirstMark(lines) > 0 && Flag(lines) == Flag(Lines(TrimRight(tail, GoSpace)))
  {
    var rest := TrimRight(tail, GoSpace);
    Regroup("", line, tail);
    TrimRightStops(line, "\n" + tail, GoSpace);
    TrimRightPrepend(tail, '\n', GoSpace);
    TrimRightAll(tail, GoSpace);
    assert "\n" + tail == ['\n'] + tail;
    if rest == "" {
      assert ['\n'][..0] == "" && line + "" == line;
      LinesOfNothing();
      FirstMarkIs([line], 1);
      FirstMarkIs([""], 1);
    } else {
      Regroup("", line, rest);
      LinesConcat(line, rest);
      FlagAfterPlain(line, Lines(rest));
    }
  }

  lemma {:induction false} TrimmedFront(front: string, line: string, tail: string)
    requires Visible(line)
    ensures TrimSpace(front + "\n" + (line + "\n" + tail))
            == TrimLeft(front + "\n" + TrimRight(line + "\n" + tail, GoSpace), GoSpace)
  {
    var head := front + "\n" + line;
    Regroup(front, line, "\n" + tail);
    Regroup(front, line, TrimRight("\n" + tail, GoSpace));
    Regroup("", line, tail);
    TrimFromEitherEnd(head + ("\n" + tail), GoSpace);
    TrimRightStops(head, "\n" + tail, GoSpace);
    TrimRightStops(line, "\n" + tail, GoSpace);
  }

  lemma Regroup(front: string, line: string, rest: string)
    ensures front + "\n" + (line + rest) == front + "\n" + line + rest
    ensures line + "\n" + rest == line + ("\n" + rest)
  {
  }

  /** The normalized block: the text's lines, then a line break, then the rest. */
  lemma {:induction false} NormalizedBlock(text: string, line: string, tail: string) returns (front: string)
    requires '\r' !in line
    ensures Normalize("\n" + text + "\n" + (line + "\n" + tail)) == front + "\n" + (line + "\n" + Normalize(tail))
    ensures Lines(front) == [""] + Lines(text)
  {
    var n := Normalize("\n" + text + "\n");
    NormalizeConcat("\n" + text, line + "\n" + tail);
    NormalizeConcat(line, tail);
    NormalizePlain(line + "\n");
    NormalizeEnds("\n" + text);
    front := n[..|n| - 1];
    LinesConcat("", text);
    LinesOfNothing();
    assert "" + "\n" + text == "\n" + text;
  }

  lemma {:induction false} NormalizePlain(s: string)
    requires '\r' !in s
    ensures Normalize(s) == s
  {
    if s != "" {
      NormalizePlain(s[1..]);
    }
  }

  lemma EmittedParts(text: string, tail: string)
    ensures Emitted(text, tail) == "\n" + text + "\n" + (COMPLETION + "\n" + tail) && '\r' !in COMPLETION
  {
    Regroup("\n" + text, COMPLETION, "\n" + tail);
    Regroup("", COMPLETION, tail);
  }

  /** What the service sees of the emitted block, trimmed: the lines of the text, the completion line, and more. */
  lemma {:induction false} TrimmedBlock(text: string, tail: string) returns (end: seq<string>)
    ensures ServiceFlag(Emitted(text, tail)) == Flag([""] + Lines(text) + end)
    ensures end != [] && end[0] == COMPLETION && FirstMark(end) > 0 && Flag(end) == LaterFlag(tail)
  {
    CompletionIsVisible();
    EmittedParts(text, tail);
    var front := NormalizedBlock(text, COMPLETION, tail);
    var rest := TrimRight(COMPLETION + "\n" + Normalize(tail), GoSpace);
    end := Lines(rest);
    EndTrimmed(COMPLETION, Normalize(tail));
    TrimmedFront(front, COMPLETION, Normalize(tail));
    FlagTrimLeft(front + "\n" + rest);
    LinesConcat(front, rest);
  }

  lemma FlagInFront(lines: seq<string>, end: seq<string>)
    requires end != [] && FirstMark(lines) < |lines| && !GoBlank(end[0])
    ensures var k := FirstMark(lines);
            Flag(lines + end) == if k + 1 == |lines| then Some(end[0])
                                 else if GoBlank(lines[k + 1]) then None
                                 else Some(lines[k + 1])
  {
    var k := FirstMark(lines);
    FirstMarkConcat(lines, end);
    assert (lines + end)[k + 1] == if k + 1 == |lines| then end[0] else lines[k + 1];
  }

  lemma FlagBehind(lines: seq<string>, end: seq<string>)
    requires FirstMark(lines) == |lines|
    ensures Flag(lines + end) == Flag(end)
  {
    var j := FirstMark(end);
    FirstMarkConcat(lines, end);
    assert j + 1 < |end| ==> (lines + end)[|lines| + j + 1] == end[j + 1];
  }

  lemma FlagAfterBlank(rest: seq<string>)
    ensures Flag([""] + rest) == Flag(rest)
  {
    EmptyIsNoMark();
    FlagAfterPlain("", rest);
  }

  /** The flag in the lines of a text and what follows it. */
  lemma FlagAcross(lines: seq<string>, end: seq<string>)
    requires end != [] && FirstMark(end) > 0 && !GoBlank(end[0])
    ensures var k := FirstMark(lines);
            Flag([""] + lines + end) == if k == |lines| then Flag(end)
                                        else if k + 1 == |lines| then Some(end[0])
                                        else if GoBlank(lines[k + 1]) then None
                                        else Some(lines[k + 1])
  {
    assert [""] + lines + end == [""] + (lines + end);
    FlagAfterBlank(lines + end);
    if FirstMark(lines) < |lines| {
      FlagInFront(lines, end);
    } else {
      FlagBehind(lines, end);
    }
  }

  /** What the service makes of a text that the bridge emitted, whatever is logged after the completion line: the line
      after the first marker line; the completion line itself if the marker ends the text; and what is declared later if
      there is no marker. */
  lemma ServiceReads(text: string, tail: string)
    ensures var lines := Lines(text);
            var k := FirstMark(lines);
            ServiceFlag(Emitted(text, tail)) == if k == |lines| then LaterFlag(tail)
                                                else if k + 1 == |lines| then Some(COMPLETION)
                                                else if GoBlank(lines[k + 1]) then None
                                                else Some(lines[k + 1])
  {
    var end := TrimmedBlock(text, tail);
    CompletionIsVisible();
    FlagAcross(Lines(text), end);
  }

  /** Every line that the bridge takes for the marker is followed by one that it takes for blank, or ends the text. */
  ghost predicate Silent(lines: seq<string>) {
    forall i | 0 <= i && i + 1 < |lines| && PyMark(lines[i]) :: PyBlank(lines[i + 1])
  }

  /** The first line that the bridge takes for the marker and that is followed by a visible one is followed by
      `flag`. */
  ghost predicate Announces(lines: seq<string>, flag: string) {
    exists j: nat :: Declared(lines, j) && lines[j + 1] == flag && forall i: nat | i < j :: !Declared(lines, i)
  }

  lemma BridgeReads(lines: seq<string>)
    ensures BridgeFlag(lines) == None <==> Silent(lines)
    ensures forall flag :: BridgeFlag(lines) == Some(flag) <==> Announces(lines, flag)
  {
    var k := FirstDeclared(lines);
    if k < |lines| {
      assert Declared(lines, k) && !PyBlank(lines[k + 1]);
      forall i: nat | i < k ensures !Declared(lines, i) {
      }
      assert Announces(lines, lines[k + 1]);
    }
    forall flag ensures BridgeFlag(lines) == Some(flag) <==> Announces(lines, flag) {
      if Announces(lines, flag) {
        var j: nat :| Declared(lines, j) && lines[j + 1] == flag && forall i: nat | i < j :: !Declared(lines, i);
        BridgeFlagAt(lines, j);
      }
    }
  }

  /** The texts about which both sides agree, by the line that follows the first line that the service takes for the
      marker. */
  ghost predicate Agreed(text: string, tail: string) {
    var lines := Lines(text);
    var k := FirstMark(lines);
    if k == |lines| then if LaterFlag(tail).None? then Silent(lines) else Announces(lines, LaterFlag(tail).value)
    else if k + 1 == |lines| then Announces(lines, COMPLETION)
    else if GoBlank(lines[k + 1]) then Silent(lines)
    else Announces(lines, lines[k + 1])
  }

  /** The service reads from the block exactly the flag that the bridge saw in the text, if and only if the text is
      one of those: for every text, and whatever is logged after it. */
  lemma FlagsAgree(text: string, tail: string)
    ensures ServiceFlag(Emitted(text, tail)) == BridgeFlag(Lines(text)) <==> Agreed(text, tail)
  {
    ServiceReads(text, tail);
    BridgeReads(Lines(text));
  }

  /** On every line both sides see the same: a marker, a blank line, or neither. */
  ghost predicate Unambiguous(lines: seq<string>) {
    forall i | 0 <= i < |lines| :: GoMark(lines[i]) == PyMark(lines[i]) && GoBlank(lines[i]) == PyBlank(lines[i])
  }

  /** So it is if the text has none of the four characters that only Python takes for white space. */
  lemma PlainTextsAreUnambiguous(text: string)
    requires forall c | c in text :: GoSpace(c) == PySpace(c)
    ensures Unambiguous(Lines(text))
  {
    LineCharacters(text);
    forall i | 0 <= i < |Lines(text)|
      ensures GoMark(Lines(text)[i]) == PyMark(Lines(text)[i]) && GoBlank(Lines(text)[i]) == PyBlank(Lines(text)[i])
    {
      TrimSame(Lines(text)[i], GoSpace, PySpace);
    }
  }

  /** Without a marker line nothing may be declared after the block either; the first marker line must not end the text;
      and it is followed by a flag, or nothing is declared further down. */
  ghost predicate Settled(text: string, tail: string) {
    var lines := Lines(text);
    var k := FirstMark(lines);
    if k == |lines| then LaterFlag(tail).None?
    else && k + 1 < |lines|
         && (GoBlank(lines[k + 1]) ==> forall i | k < i < |lines| - 1 && GoMark(lines[i]) :: GoBlank(lines[i + 1]))
  }

  /** As long as both sides see the same on every line, they agree exactly about the settled texts. */
  lemma SettledTextsAgree(text: string, tail: string)
    requires Unambiguous(Lines(text))
    ensures ServiceFlag(Emitted(text, tail)) == BridgeFlag(Lines(text)) <==> Settled(text, tail)
  {
    var lines := Lines(text);
    ServiceReads(text, tail);
    var k, j := FirstMark(lines), FirstDeclared(lines);
    assert j < |lines| ==> k <= j;
    if k == |lines| - 1 {
      assert j == |lines|;
    }
  }

  /** A marker line that ends the text: the service takes the completion line for a flag, whatever the text. The
      bridge sees none, unless an earlier line is a marker for it alone. */
  lemma MarkerAtTheEnd(text: string, tail: string)
    requires FirstMark(Lines(text)) == |Lines(text)| - 1
    ensures ServiceFlag(Emitted(text, tail)) == Some(COMPLETION)
    ensures BridgeFlag(Lines(text)) == None <==> Silent(Lines(text))
    ensures Unambiguous(Lines(text)) ==> BridgeFlag(Lines(text)) == None
  {
    ServiceReads(text, tail);
    BridgeReads(Lines(text));
  }

  /** A marker line followed by U+001F is one for the bridge only. */
  lemma SeparatorsDiffer()
    ensures var text := SOLVED_MARKER + "\U{001F}\nF";
            && BridgeFlag(Lines(text)) == Some("F")
            && ServiceFlag(Emitted(text, "")) == None
  {
    var line := SOLVED_MARKER + "\U{001F}";
    var text := line + "\nF";
    assert text == line + "\n" + "F" && SOLVED_MARKER + "\U{001F}\nF" == text;
    LinesConcat(line, "F");
    PlainLine(line);
    PlainLine("F");
    assert line == SOLVED_MARKER + ['\U{001F}'];
    TrimIgnoresEnds(SOLVED_MARKER, '\U{001F}', PySpace);
    TrimKeeps(SOLVED_MARKER, PySpace);
    TrimKeeps(line, GoSpace);
    TrimKeeps("F", PySpace);
    TrimKeeps("F", GoSpace);
    assert Lines(text) == [line, "F"];
    assert |line| != |SOLVED_MARKER| && "F"[0] != SOLVED_MARKER[0];
    FirstMarkIs([line, "F"], 2);
    ServiceReads(text, "");
    LinesOfNothing();
  }

  // The block is found wherever it is in the log

  ghost predicate Contains(s: string, m: string) {
    exists i :: 0 <= i <= |s| && m <= s[i..]
  }

  lemma {:induction false} AfterLastNone(s: string, m: string)
    requires m != ""
    ensures AfterLast(s, m).None? <==> !Contains(s, m)
  {
    if s != "" {
      AfterLastNone(s[1..], m);
      if Contains(s, m) {
        var i :| 0 <= i <= |s| && m <= s[i..];
        assert i > 0 ==> s[1..][i - 1..] == s[i..];
        assert i == 0 ==> m <= s;
      }
      if Contains(s[1..], m) {
        var i :| 0 <= i <= |s[1..]| && m <= s[1..][i..];
        assert s[i + 1..] == s[1..][i..];
      }
      assert s[0..] == s;
    }
  }

  lemma {:induction false} AfterLastPrepend(a: string, s: string, m: string)
    requires m != "" && AfterLast(s, m).Some?
    ensures AfterLast(a + s, m) == AfterLast(s, m)
  {
    if a == "" {
      assert a + s == s;
    } else {
      AfterLastPrepend(a[1..], s, m);
      assert (a + s)[1..] == a[1..] + s;
    }
  }

  /** The marker does not overlap itself: its first two characters do not occur in it again. */
  lemma FinalMarkerHasNoBorder()
    ensures forall i | 1 <= i < |FINAL_MARKER| && FINAL_MARKER[i] == FINAL_MARKER[0] ::
              i + 1 < |FINAL_MARKER| && FINAL_MARKER[i + 1] != FINAL_MARKER[1]
  {
  }

  lemma {:induction false} AfterLastAtMarker(rest: string)
    requires !Contains(rest, FINAL_MARKER)
    ensures AfterLast(FINAL_MARKER + rest, FINAL_MARKER) == Some(rest)
  {
    var s := FINAL_MARKER + rest;
    forall i | 0 <= i <= |s[1..]|
      ensures !(FINAL_MARKER <= s[1..][i..])
    {
      FinalMarkerHasNoBorder();
      var at := s[1..][i..];
      if i + 1 >= |FINAL_MARKER| {
        assert at == rest[i + 1 - |FINAL_MARKER|..];
      } else {
        assert at[0] == FINAL_MARKER[i + 1] && (i + 2 < |FINAL_MARKER| ==> at[1] == FINAL_MARKER[i + 2]);
      }
    }
    AfterLastNone(s[1..], FINAL_MARKER);
    assert s[|FINAL_MARKER|..] == rest;
  }

  lemma {:induction false} NormalizeKeepsPrefix(s: string, m: string)
    requires '\r' !in m && '\n' !in m && m <= Normalize(s)
    ensures m <= s
  {
    if m != "" {
      assert m[0] in m && Normalize(s)[0] == m[0];
      assert m[1..] <= Normalize(s)[1..];
      assert Normalize(s) == [s[0]] + Normalize(s[1..]);
      NormalizeKeepsPrefix(s[1..], m[1..]);
      assert m == [m[0]] + m[1..];
    }
  }

  function Skip(s: string): nat {
    if |s| > 1 && s[0] == '\r' && s[1] == '\n' then 2 else 1
  }

  lemma NormalizeStep(s: string, rest: string)
    requires s != "" && rest == s[Skip(s)..]
    ensures Normalize(s) == [if Skip(s) == 2 then '\n' else s[0]] + Normalize(rest)
  {
  }

  lemma ContainsAtFront(s: string, m: string)
    requires s != ""
    ensures Contains(s, m) <==> m <= s || Contains(s[1..], m)
  {
    assert s[0..] == s;
    forall i | 0 <= i <= |s[1..]|
      ensures s[1..][i..] == s[i + 1..]
    {
    }
    if i :| 0 <= i <= |s| && m <= s[i..] {
      assert i > 0 ==> m <= s[1..][i - 1..];
    }
    if i :| 0 <= i <= |s[1..]| && m <= s[1..][i..] {
      assert m <= s[i + 1..];
    }
  }

  lemma ContainsInSuffix(s: string, k: nat, m: string)
    requires k <= |s| && Contains(s[k..], m)
    ensures Contains(s, m)
  {
    var i :| 0 <= i <= |s[k..]| && m <= s[k..][i..];
    assert s[k..][i..] == s[k + i..];
  }

  /** Normalizing makes no marker appear. */
  lemma {:induction false} NormalizeAddsNoMarker(s: string, m: string)
    requires m != "" && '\r' !in m && '\n' !in m && Contains(Normalize(s), m)
    ensures Contains(s, m)
  {
    if s != "" {
      var rest := s[Skip(s)..];
      NormalizeStep(s, rest);
      ContainsAtFront(Normalize(s), m);
      assert Normalize(s)[1..] == Normalize(rest);
      if m <= Normalize(s) {
        NormalizeKeepsPrefix(s, m);
        ContainsAtFront(s, m);
      } else {
        NormalizeAddsNoMarker(rest, m);
        ContainsInSuffix(s, Skip(s), m);
      }
    }
  }

  lemma {:induction false} NormalizeAround(a: string, b: string)
    requires b != "" && b[0] != '\n'
    ensures Normalize(a + b) == Normalize(a) + Normalize(b)
  {
    if a == "" {
      assert a + b == b;
    } else {
      SkipAround(a, b);
      var rest := a[Skip(a)..];
      NormalizeAround(rest, b);
      NormalizeStep(a, rest);
      NormalizeStep(a + b, rest + b);
      Prepend(if Skip(a) == 2 then '\n' else a[0], Normalize(rest), Normalize(b));
    }
  }

  lemma SkipAround(a: string, b: string)
    requires a != "" && b != "" && b[0] != '\n'
    ensures Skip(a + b) == Skip(a) && (a + b)[Skip(a)..] == a[Skip(a)..] + b && (a + b)[0] == a[0]
  {
    assert |a| > 1 ==> (a + b)[1] == a[1];
    assert |a| == 1 ==> (a + b)[1] == b[0];
  }

  lemma Prepend(c: char, s: string, t: string)
    ensures [c] + s + t == [c] + (s + t)
  {
  }

  lemma {:induction false} NormalizeAfter(m: string, b: string)
    requires '\r' !in m
    ensures Normalize(m + b) == m + Normalize(b)
  {
    if m == "" {
      assert m + b == b;
    } else {
      NormalizeAfter(m[1..], b);
      assert (m + b)[1..] == m[1..] + b;
    }
  }

  lemma MarkerCharacters()
    ensures FINAL_MARKER != "" && FINAL_MARKER[0] != '\n' && '\r' !in FINAL_MARKER && '\n' !in FINAL_MARKER
  {
    assert forall c | c in FINAL_MARKER :: c >= ' ';
  }

  /** Nothing before the last marker matters. */
  lemma OnlyTheLastBlockCounts(before: string, rest: string)
    requires !Contains(rest, FINAL_MARKER)
    ensures LatestFinal(before + FINAL_MARKER + rest) == TrimSpace(Normalize(rest))
  {
    assert before + FINAL_MARKER + rest == before + (FINAL_MARKER + rest);
    MarkerCharacters();
    NormalizeAround(before, FINAL_MARKER + rest);
    NormalizeAfter(FINAL_MARKER, rest);
    if Contains(Normalize(rest), FINAL_MARKER) {
      NormalizeAddsNoMarker(rest, FINAL_MARKER);
    }
    AfterLastAtMarker(Normalize(rest));
    AfterLastPrepend(Normalize(before), FINAL_MARKER + Normalize(rest), FINAL_MARKER);
  }

  /** A log in which the final-output marker does not occur gives no flag, whatever else was printed. */
  lemma NoFlagWithoutMarker(logs: string)
    requires !Contains(logs, FINAL_MARKER)
    ensures Flag(Lines(LatestFinal(logs))) == None
  {
    MarkerCharacters();
    if Contains(Normalize(logs), FINAL_MARKER) {
      NormalizeAddsNoMarker(logs, FINAL_MARKER);
    }
    AfterLastNone(Normalize(logs), FINAL_MARKER);
    LinesOfNothing();
    EmptyIsNoMark();
    FlagAt([""], 1);
  }

  /** Any other log gives what the service makes of the text after the marker's last occurrence. */
  lemma FlagOfTheLastBlock(logs: string) returns (before: string, rest: string)
    requires Contains(logs, FINAL_MARKER)
    ensures logs == before + FINAL_MARKER + rest && !Contains(rest, FINAL_MARKER)
    ensures Flag(Lines(LatestFinal(logs))) == ServiceFlag(rest)
  {
    before, rest := SplitAtLast(logs, FINAL_MARKER);
    OnlyTheLastBlockCounts(before, rest);
  }

  lemma {:induction false} SplitAtLast(s: string, m: string) returns (before: string, rest: string)
    requires m != "" && Contains(s, m)
    ensures s == before + m + rest && !Contains(rest, m)
  {
    var i :| 0 <= i <= |s| && m <= s[i..];
    before, rest := s[..i], s[i + |m|..];
    assert s == before + m + rest by {
      assert s[i..] == m + rest;
    }
    if Contains(rest, m) {
      var front, end := SplitAtLast(rest, m);
      before, rest := before + m + front, end;
    }
  }

  /** The whole way: a log in which the bridge's block is the last one gives the service the bridge's flag exactly if
      both sides agree about the emitted text. */
  lemma LogCarriesTheFlag(before: string, text: string, tail: string)
    requires !Contains(Emitted(text, tail), FINAL_MARKER)
    ensures Flag(Lines(LatestFinal(before + FINAL_MARKER + Emitted(text, tail)))) == BridgeFlag(Lines(text)) <==>
            Agreed(text, tail)
  {
    OnlyTheLastBlockCounts(before, Emitted(text, tail));
    FlagsAgree(text, tail);
  }
}
