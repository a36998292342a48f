/** The names of writeup files: how bridge and service derive them, and how the service reads the bridge's from the
    log. */
module WriteupNames {
  import opened Names
  import opened Options
  import opened Text

  const WRITEUP_MARKER := "Observation: writeup file="
  const SUFFIX := "-wp.md"
  const BRIDGE_DEFAULT := "challenge"
  const SERVICE_DEFAULT := "task"

  predicate Keeps(c: char) {
    Alphanumeric(c) || '\U{4E00}' <= c <= '\U{9FFF}' || c == '-' || c == '_' || c == '.'
  }

  predicate Dashy(c: char) {
    c == '-' || c == '_' || c == '.' || c == ' '
  }

  /** Characters outside the kept ones, each run of them replaced by one dash. */
  function Squash(value: string, lastDash: bool): string {
    if value == "" then ""
    else if Keeps(value[0]) then [value[0]] + Squash(value[1..], false)
    else (if lastDash then "" else "-") + Squash(value[1..], true)
  }

  /** The loop that both sides' safe file name stems have. */
  method SquashAll(value: string) returns (chars: string)
    ensures chars == Squash(value, false)
  {
    chars := "";
    var lastDash := false;
    for i := 0 to |value|
      invariant chars + Squash(value[i..], lastDash) == Squash(value, false)
    {
      assert value[i..][1..] == value[i + 1..];
      if Keeps(value[i]) {
        chars := chars + [value[i]];
        lastDash := false;
      } else if !lastDash {
        chars := chars + "-";
        lastDash := true;
      }
    }
  }

  function First(s: string, n: nat): string {
    if n < |s| then s[..n] else s
  }

  /** safeFilenameStem of the service */
  function ServiceStem(value: string): string {
    var stem := Trim(Squash(TrimSpace(value), false), Dashy);
    if TrimSpace(value) == "" || stem == "" || Base(stem) != stem || (exists c | c in stem :: Separates(c)) then ""
    else if |stem| > 80 then Trim(stem[..80], Dashy)
    else stem
  }

  /** safe_filename_stem of the bridge */
  function BridgeStem(value: string): string {
    if Strip(value) == "" then ""
    else Trim(First(Trim(Squash(Strip(value), false), Dashy), 80), Dashy)
  }

  method SafeFilenameStem(value: string) returns (stem: string)
    ensures stem == ServiceStem(value)
  {
    var v := TrimSpace(value);
    if v == "" {
      return "";
    }
    var chars := SquashAll(v);
    stem := Trim(chars, Dashy);
    if stem == "" || Base(stem) != stem || exists c | c in stem :: Separates(c) {
      return "";
    }
    if |stem| > 80 {
      stem := Trim(stem[..80], Dashy);
    }
  }

  method SafeFilenameStemInBridge(value: string) returns (stem: string)
    ensures stem == BridgeStem(value)
  {
    var v := Strip(value);
    if v == "" {
      return "";
    }
    var chars := SquashAll(v);
    stem := Trim(chars, Dashy);
    stem := Trim(First(stem, 80), Dashy);
  }

  /** writeup_filename of the bridge */
  function WriteupFilename(name: string): string {
    (if BridgeStem(name) == "" then BRIDGE_DEFAULT else BridgeStem(name)) + SUFFIX
  }

  /** writeupFilenameForTask of the service */
  function WriteupFilenameForTask(name: string, id: string): string {
    var stem := if ServiceStem(name) == "" then ServiceStem(id) else ServiceStem(name);
    (if stem == "" then SERVICE_DEFAULT else stem) + SUFFIX
  }

  lemma {:induction false} SquashChars(value: string, lastDash: bool)
    ensures forall c | c in Squash(value, lastDash) :: Keeps(c)
  {
    if value != "" {
      SquashChars(value[1..], false);
      SquashChars(value[1..], true);
    }
  }

  /** Whether a dash came before makes no difference once leading dashes are trimmed. */
  lemma SquashAfterDash(value: string)
    ensures TrimLeft(Squash(value, true), Dashy) == TrimLeft(Squash(value, false), Dashy)
  {
    if value != "" && !Keeps(value[0]) {
      assert Squash(value, true) == "" + Squash(value[1..], true) == Squash(value[1..], true);
      assert ("-" + Squash(value[1..], true))[1..] == Squash(value[1..], true);
    }
  }

  lemma {:induction false} SquashAppend(value: string, c: char, lastDash: bool)
    requires !Keeps(c)
    ensures Squash(value + [c], lastDash) == Squash(value, lastDash)
            || Squash(value + [c], lastDash) == Squash(value, lastDash) + "-"
  {
    if value == "" {
      assert value + [c] == [c] && [c][1..] == "";
    } else {
      SquashAppend(value[1..], c, Keeps(value[0]) == false);
      assert (value + [c])[1..] == value[1..] + [c];
    }
  }

  ghost predicate NeverKept(p: char -> bool) {
    forall c | p(c) :: !Keeps(c)
  }

  lemma {:induction false} StemOfTrimmedLeft(value: string, p: char -> bool)
    requires NeverKept(p)
    ensures TrimLeft(Squash(TrimLeft(value, p), false), Dashy) == TrimLeft(Squash(value, false), Dashy)
  {
    if value != "" && p(value[0]) {
      StemOfTrimmedLeft(value[1..], p);
      SquashAfterDash(value[1..]);
      assert ("-" + Squash(value[1..], true))[1..] == Squash(value[1..], true);
    }
  }

  lemma {:induction false} StemOfTrimmedRight(value: string, p: char -> bool)
    requires NeverKept(p)
    ensures Trim(Squash(TrimRight(value, p), false), Dashy) == Trim(Squash(value, false), Dashy)
  {
    if value != "" && p(value[|value| - 1]) {
      var front, c := value[..|value| - 1], value[|value| - 1];
      StemOfTrimmedRight(front, p);
      SquashAppend(front, c, false);
      assert value == front + [c];
      TrimIgnoresEnds(Squash(front, false), '-', Dashy);
    }
  }

  /** Which white space was trimmed before makes no difference to a stem. */
  lemma StemOfTrimmed(value: string, p: char -> bool)
    requires NeverKept(p)
    ensures Trim(Squash(Trim(value, p), false), Dashy) == Trim(Squash(value, false), Dashy)
  {
    StemOfTrimmedRight(TrimLeft(value, p), p);
    StemOfTrimmedLeft(value, p);
  }

  lemma StemIsPlain(value: string)
    ensures var stem := Trim(Squash(value, false), Dashy);
            (forall c | c in stem :: Keeps(c) && !Separates(c)) && (stem != "" ==> Base(stem) == stem)
  {
    var stem := Trim(Squash(value, false), Dashy);
    SquashChars(value, false);
    TrimEnds(Squash(value, false), Dashy);
    if stem != "" {
      assert stem[|stem| - 1] in stem;
      AfterNoSlash(stem);
    }
  }

  /** Although the two sides trim different white space, cut at different moments and check different things, they
      always agree on the stem. */
  lemma StemsAgree(value: string)
    ensures ServiceStem(value) == BridgeStem(value)
  {
    StemOfTrimmed(value, GoSpace);
    StemOfTrimmed(value, PySpace);
    StemIsPlain(TrimSpace(value));
    var stem := Trim(Squash(value, false), Dashy);
    TrimEnds(Squash(value, false), Dashy);
    if stem != "" {
      TrimKeeps(stem, Dashy);
    }
    assert Squash("", false) == "" && Trim("", Dashy) == "";
  }

  /** What a stem may consist of: Latin letters and digits, Chinese characters, and three signs. */
  ghost predicate Ordinary(c: char) {
    || 'a' <= c <= 'z' || 'A' <= c <= 'Z' || '0' <= c <= '9' || '\U{4E00}' <= c <= '\U{9FFF}'
    || c in "-_."
  }

  lemma {:induction false} SquashOrdinary(word: string)
    requires forall c | c in word :: Ordinary(c)
    ensures Squash(word, false) == word
  {
    if word != "" {
      assert word[0] in word && forall c | c in word[1..] :: c in word;
      SquashOrdinary(word[1..]);
    }
  }

  lemma {:induction false} SquashGap(gap: string, rest: string)
    requires (forall c | c in gap :: !Ordinary(c)) && (rest == "" || Ordinary(rest[0]))
    ensures Squash(gap + rest, true) == Squash(rest, false)
  {
    if gap == "" {
      assert gap + rest == rest;
    } else {
      assert gap[0] in gap && forall c | c in gap[1..] :: c in gap;
      SquashGap(gap[1..], rest);
      assert (gap + rest)[1..] == gap[1..] + rest;
    }
  }

  /** A word of ordinary characters stays as it is, and whatever is between two of them becomes one dash. */
  lemma {:induction false} SquashWord(word: string, gap: string, rest: string)
    requires (forall c | c in word :: Ordinary(c)) && (forall c | c in gap :: !Ordinary(c)) && gap != ""
    requires rest == "" || Ordinary(rest[0])
    ensures Squash(word + gap + rest, false) == word + "-" + Squash(rest, false)
  {
    if word == "" {
      assert gap[0] in gap && forall c | c in gap[1..] :: c in gap;
      SquashGap(gap[1..], rest);
      assert (word + gap + rest)[1..] == gap[1..] + rest;
    } else {
      assert word[0] in word && forall c | c in word[1..] :: c in word;
      SquashWord(word[1..], gap, rest);
      assert (word + gap + rest)[1..] == word[1..] + gap + rest;
    }
  }

  lemma {:induction false} TrimRightCuts(s: string, p: char -> bool)
    ensures TrimRight(s, p) <= s && forall i | |TrimRight(s, p)| <= i < |s| :: p(s[i])
  {
    if s != "" && p(s[|s| - 1]) {
      TrimRightCuts(s[..|s| - 1], p);
    }
  }

  lemma {:induction false} SquashVisible(value: string, lastDash: bool)
    ensures All(Squash(value, lastDash), Dashy) <==> forall c | c in value :: Ordinary(c) ==> Dashy(c)
  {
    if value != "" {
      SquashVisible(value[1..], !Keeps(value[0]));
      assert value == [value[0]] + value[1..];
      var rest := Squash(value[1..], !Keeps(value[0]));
      var head := if Keeps(value[0]) then [value[0]] else if lastDash then "" else "-";
      assert Squash(value, lastDash) == head + rest;
    }
  }

  /** The stem of a name is its words joined by dashes, without dashes and the like at either end: all of that up to 80
      characters, and of anything longer the first 80 without what is dashy at their end. It is empty exactly if the
      name has no character of a word. */
  lemma StemIsTheName(value: string)
    ensures var stem, joined := ServiceStem(value), Trim(Squash(value, false), Dashy);
            && |stem| <= 80 && stem <= joined
            && (forall i | |stem| <= i < |joined| && i < 80 :: Dashy(joined[i]))
            && (stem != "" ==> !Dashy(stem[0]) && !Dashy(stem[|stem| - 1]))
            && (forall c | c in stem :: Ordinary(c))
            && (stem == "" <==> forall c | c in value :: Ordinary(c) ==> Dashy(c))
  {
    var joined := Trim(Squash(value, false), Dashy);
    StemIsCut(value);
    SquashChars(value, false);
    TrimEnds(Squash(value, false), Dashy);
    CutStem(joined);
    TrimAll(Squash(value, false), Dashy);
    SquashVisible(value, false);
    assert forall c | c in ServiceStem(value) :: c in joined;
  }

  lemma StemIsCut(value: string)
    ensures ServiceStem(value) == Trim(First(Trim(Squash(value, false), Dashy), 80), Dashy)
  {
    StemsAgree(value);
    StemOfTrimmed(value, PySpace);
    assert Squash("", false) == "" && Trim("", Dashy) == "";
  }

  lemma CutStem(joined: string)
    requires joined != "" ==> !Dashy(joined[0])
    ensures var stem := Trim(First(joined, 80), Dashy);
            && |stem| <= 80 && stem <= joined && (joined != "" ==> stem != "")
            && (forall i | |stem| <= i < |joined| && i < 80 :: Dashy(joined[i]))
            && (stem != "" ==> !Dashy(stem[|stem| - 1]))
  {
    var cut := First(joined, 80);
    assert TrimLeft(cut, Dashy) == cut;
    TrimRightCuts(cut, Dashy);
    TrimRightEnds(cut, Dashy);
    TrimRightAll(cut, Dashy);
    assert joined != "" ==> cut[0] in cut;
  }

  /** So a name of ordinary characters, up to 80 of them and without dashes and the like at either end, is its own
      stem. */
  lemma OrdinaryNamesStay(name: string)
    requires 0 < |name| <= 80 && (forall c | c in name :: Ordinary(c)) && !Dashy(name[0]) && !Dashy(name[|name| - 1])
    ensures ServiceStem(name) == name
  {
    SquashOrdinary(name);
    TrimKeeps(name, Dashy);
    StemIsTheName(name);
    var last := |name| - 1;
    assert !Dashy(name[last]);
  }

  /** The two sides look for the same writeup file exactly if the task's name has a stem, or its id happens to have the
      bridge's default. */
  lemma FilenamesAgree(name: string, id: string)
    ensures WriteupFilenameForTask(name, id) == WriteupFilename(name)
            <==> ServiceStem(name) != "" || ServiceStem(id) == BRIDGE_DEFAULT
  {
    StemsAgree(name);
    if ServiceStem(name) == "" {
      var stem := if ServiceStem(id) == "" then SERVICE_DEFAULT else ServiceStem(id);
      assert stem == (stem + SUFFIX)[..|stem + SUFFIX| - |SUFFIX|];
      assert BRIDGE_DEFAULT == (BRIDGE_DEFAULT + SUFFIX)[..|BRIDGE_DEFAULT + SUFFIX| - |SUFFIX|];
      assert |SERVICE_DEFAULT| != |BRIDGE_DEFAULT|;
    }
  }

  // Reading the name back

  /** The writeup file that a line of the log names, if it names a safe one. */
  function WriteupIn(line: string): Option<string> {
    var t := TrimSpace(line);
    if WRITEUP_MARKER <= t && SafeStoredFilename(TrimSpace(t[|WRITEUP_MARKER|..]))
        then Some(TrimSpace(t[|WRITEUP_MARKER|..]))
    else None
  }

  function LatestWriteup(lines: seq<string>): string {
    if lines == [] then ""
    else
      var last := WriteupIn(lines[|lines| - 1]);
      if last.Some? then last.value else LatestWriteup(lines[..|lines| - 1])
  }

  /** latestWriteupFileName */
  method LatestWriteupFileName(logs: string) returns (name: string)
    ensures name == LatestWriteup(Lines(logs))
  {
    LinesOfNormalized(logs);
    var lines := Split(Normalize(logs));
    ghost var chomped := Lines(logs);
    assert chomped[..|lines|] == chomped;
    var index := |lines| - 1;
    while index >= 0
      invariant -1 <= index < |lines|
      invariant LatestWriteup(chomped) == LatestWriteup(chomped[..index + 1])
    {
      ChompedLine(lines, index);
      assert chomped[..index + 1][..index] == chomped[..index];
      var line := TrimSpace(lines[index]);
      if WRITEUP_MARKER <= line {
        name := TrimSpace(line[|WRITEUP_MARKER|..]);
        if SafeStoredFilename(name) {
          return;
        }
      }
      index := index - 1;
    }
    return "";
  }

  /** The line names this file: its visible part is the marker and the name, which the store accepts. */
  ghost predicate NamesFile(line: string, name: string) {
    SafeStoredFilename(name) && exists rest :: TrimSpace(line) == WRITEUP_MARKER + rest && TrimSpace(rest) == name
  }

  lemma WriteupInNames(line: string)
    ensures forall name :: WriteupIn(line) == Some(name) <==> NamesFile(line, name)
  {
    var t := TrimSpace(line);
    if WRITEUP_MARKER <= t {
      assert t == WRITEUP_MARKER + t[|WRITEUP_MARKER|..];
    }
    forall name, rest | t == WRITEUP_MARKER + rest && TrimSpace(rest) == name && SafeStoredFilename(name)
      ensures WriteupIn(line) == Some(name)
    {
      assert t[|WRITEUP_MARKER|..] == rest;
    }
  }

  /** The line at which the backward search ends, or -1. */
  lemma {:induction false} LatestAt(lines: seq<string>) returns (i: int)
    ensures -1 <= i < |lines| && forall j | i < j < |lines| :: WriteupIn(lines[j]).None?
    ensures i < 0 ==> LatestWriteup(lines) == ""
    ensures i >= 0 ==> WriteupIn(lines[i]) == Some(LatestWriteup(lines))
    decreases |lines|
  {
    if lines == [] {
      return -1;
    }
    var last := |lines| - 1;
    if WriteupIn(lines[last]).Some? {
      return last;
    }
    var front := lines[..last];
    i := LatestAt(front);
    forall j | i < j < |lines|
      ensures WriteupIn(lines[j]).None?
    {
      assert j < last ==> front[j] == lines[j];
    }
  }

  /** The latest writeup is the file named by the last line that names one; there is none exactly if no line does. */
  lemma LatestIsTheLastNamed(lines: seq<string>) returns (i: int)
    ensures -1 <= i < |lines| && forall j, name | i < j < |lines| :: !NamesFile(lines[j], name)
    ensures if i < 0 then LatestWriteup(lines) == "" else NamesFile(lines[i], LatestWriteup(lines))
  {
    i := LatestAt(lines);
    if i >= 0 {
      WriteupInNames(lines[i]);
    }
    forall j, name | i < j < |lines|
      ensures !NamesFile(lines[j], name)
    {
      WriteupInNames(lines[j]);
    }
  }

  lemma {:induction false} ChompedLine(lines: seq<string>, i: nat)
    requires i < |lines|
    ensures WriteupIn(Chomped(lines)[i]) == WriteupIn(lines[i])
  {
    if i > 0 {
      ChompedLine(lines[1..], i - 1);
    } else {
      ChompIsInvisible(lines[0]);
    }
  }

  /** A name as writeup_filename composes them: visible characters only, and no separators. */
  ghost predicate Composed(name: string) {
    |name| > 2 && forall c | c in name :: Keeps(c)
  }

  lemma ComposedNames(name: string)
    ensures Composed(WriteupFilename(name))
  {
    SquashChars(Strip(name), false);
    var chars := Squash(Strip(name), false);
    TrimEnds(chars, Dashy);
    TrimEnds(First(Trim(chars, Dashy), 80), Dashy);
    assert forall c | c in BridgeStem(name) :: Keeps(c);
    assert (forall c | c in BRIDGE_DEFAULT :: Keeps(c)) && forall c | c in SUFFIX :: Keeps(c);
  }

  lemma ComposedIsSafe(name: string)
    requires Composed(name)
    ensures SafeStoredFilename(name) && TrimSpace(name) == name && Lines(name) == [name]
  {
    assert name[0] in name && name[|name| - 1] in name;
    TrimKeeps(name, GoSpace);
    PlainNames(name);
    PlainLine(name);
  }

  /** Every name the bridge writes a writeup under is one the store accepts. */
  lemma WriteupNamesAreSafe(name: string)
    ensures SafeStoredFilename(WriteupFilename(name))
  {
    ComposedNames(name);
    ComposedIsSafe(WriteupFilename(name));
  }

  lemma AnnouncedLine(name: string)
    requires Composed(name)
    ensures WriteupIn(WRITEUP_MARKER + name) == Some(name) && Lines(WRITEUP_MARKER + name) == [WRITEUP_MARKER + name]
  {
    var line := WRITEUP_MARKER + name;
    ComposedIsSafe(name);
    assert name[|name| - 1] in name;
    assert line[|line| - 1] == name[|name| - 1] && line[0] == WRITEUP_MARKER[0];
    TrimKeeps(line, GoSpace);
    assert line[|WRITEUP_MARKER|..] == name;
    MarkerIsPlain();
    PlainLine(line);
  }

  lemma MarkerIsPlain()
    ensures forall c | c in WRITEUP_MARKER :: c != '\n' && c != '\r'
  {
    assert '\n' !in WRITEUP_MARKER && '\r' !in WRITEUP_MARKER;
  }

  lemma {:induction false} LatestWriteupSkips(a: seq<string>, b: seq<string>)
    requires forall i | 0 <= i < |b| :: WriteupIn(b[i]).None?
    ensures LatestWriteup(a + b) == LatestWriteup(a)
  {
    if b == [] {
      assert a + b == a;
    } else {
      LatestWriteupSkips(a, b[..|b| - 1]);
      assert (a + b)[..|a + b| - 1] == a + b[..|b| - 1];
    }
  }

  lemma {:induction false} LatestAmong(front: seq<string>, line: string, rest: seq<string>)
    requires WriteupIn(line).Some? && forall i | 0 <= i < |rest| :: WriteupIn(rest[i]).None?
    ensures LatestWriteup(front + ([line] + rest)) == WriteupIn(line).value
    ensures front == [] ==> LatestWriteup([line] + rest) == WriteupIn(line).value
  {
    LatestWriteupSkips(front + [line], rest);
    assert front + [line] + rest == front + ([line] + rest);
    assert front == [] ==> front + ([line] + rest) == [line] + rest;
  }

  lemma {:induction false} LineIsFound(before: string, line: string, tail: string)
    requires WriteupIn(line).Some? && Lines(line) == [line]
    requires forall i | 0 <= i < |Lines(tail)| :: WriteupIn(Lines(tail)[i]).None?
    ensures LatestWriteup(Lines(line + "\n" + tail)) == WriteupIn(line).value
    ensures LatestWriteup(Lines(before + "\n" + (line + "\n" + tail))) == WriteupIn(line).value
  {
    LinesConcat(line, tail);
    LinesConcat(before, line + "\n" + tail);
    LatestAmong([], line, Lines(tail));
    LatestAmong(Lines(before), line, Lines(tail));
  }

  /** The service reads back the bridge's writeup name from the last line that names a safe file. */
  lemma WriteupIsReadBack(before: string, name: string, tail: string)
    requires forall i | 0 <= i < |Lines(tail)| :: WriteupIn(Lines(tail)[i]).None?
    ensures LatestWriteup(Lines(before + "\n" + (WRITEUP_MARKER + WriteupFilename(name) + "\n" + tail)))
            == WriteupFilename(name)
    ensures LatestWriteup(Lines(WRITEUP_MARKER + WriteupFilename(name) + "\n" + tail)) == WriteupFilename(name)
  {
    ComposedNames(name);
    AnnouncedLine(WriteupFilename(name));
    LineIsFound(before, WRITEUP_MARKER + WriteupFilename(name), tail);
  }
}
