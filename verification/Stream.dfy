/** The bridge's reading of OpenCode's output: chunks of octets are cut into lines, and each line is parsed as an
    event. */
module Stream {
  import opened Bytes
  import Text

  const NEWLINE: byte := 10

  /** What one line stands for: the session it names and the text it shows, either of them possibly empty. */
  datatype Event = Event(session: string, text: string)

  /** What the bridge logs while it reads. */
  datatype Notice = Session(id: string) | Preview(text: string)

  /** What the reading loop keeps between lines. */
  datatype Reader = Reader(session: string, blocks: seq<string>, preview: string, log: seq<Notice>)

  /** What a run returns: its text and session; a non-zero exit raises an error. */
  datatype Outcome = ExitedWith(code: int) | Finished(text: string, session: string)

  function Flatten(chunks: seq<Bytes>): Bytes {
    if chunks == [] then [] else chunks[0] + Flatten(chunks[1..])
  }

  /** The lines of a stream; a last line without line break counts, an empty one does not. */
  function StreamLines(s: Bytes): seq<Bytes> {
    if s == [] then []
    else
      var rest := StreamLines(s[1..]);
      if s[0] == NEWLINE then [[]] + rest else if rest == [] then [[s[0]]] else [[s[0]] + rest[0]] + rest[1..]
  }

  function Read(r: Reader, e: Event): Reader {
    var named := e.session != "" && e.session != r.session;
    var s := if named then r.(session := e.session, log := r.log + [Session(e.session)]) else r;
    if e.text == "" then s
    else s.(blocks := s.blocks + [e.text], preview := e.text,
            log := if e.text != s.preview then s.log + [Preview(e.text)] else s.log)
  }

  function ReadAll(r: Reader, lines: seq<Bytes>, parse: Bytes -> Event): Reader
    decreases |lines|
  {
    if lines == [] then r else ReadAll(Read(r, parse(lines[0])), lines[1..], parse)
  }

  /** What a run has read after these lines. */
  function After(session: string, lines: seq<Bytes>, parse: Bytes -> Event): Reader {
    ReadAll(Reader(session, [], "", []), lines, parse)
  }

  function Dedupe(values: seq<string>): seq<string> {
    if values == [] then []
    else
      var front, last := Dedupe(values[..|values| - 1]), values[|values| - 1];
      if last in values[..|values| - 1] then front else front + [last]
  }

  /** dedupe_preserve_order */
  method DedupePreserveOrder(values: seq<string>) returns (result: seq<string>)
    ensures result == Dedupe(values)
  {
    var seen: set<string> := {};
    result := [];
    for i := 0 to |values|
      invariant result == Dedupe(values[..i])
      invariant forall v :: v in seen <==> v in values[..i]
    {
      assert values[..i + 1][..i] == values[..i];
      if values[i] in seen {
        continue;
      }
      seen := seen + {values[i]};
      result := result + [values[i]];
    }
    assert values[..|values|] == values;
  }

  function FirstIndex(values: seq<string>, v: string): (i: nat)
    requires v in values
    ensures i < |values| && values[i] == v && v !in values[..i]
  {
    if values[0] == v then 0 else FirstIndex(values[1..], v) + 1
  }

  /** Every value once, in the order of first occurrences. */
  lemma {:induction false} DedupeKeepsFirsts(values: seq<string>)
    ensures forall v :: v in Dedupe(values) <==> v in values
    ensures forall i, j | 0 <= i < j < |Dedupe(values)| ::
              Dedupe(values)[i] in values && Dedupe(values)[j] in values
              && FirstIndex(values, Dedupe(values)[i]) < FirstIndex(values, Dedupe(values)[j])
  {
    if values != [] {
      var front, last := values[..|values| - 1], values[|values| - 1];
      DedupeKeepsFirsts(front);
      assert values == front + [last];
      forall v | v in front
        ensures FirstIndex(values, v) == FirstIndex(front, v)
      {
        FirstIndexIs(values, FirstIndex(front, v));
      }
      if last !in front {
        FirstIndexIs(values, |front|);
      }
    }
  }

  lemma FirstIndexIs(values: seq<string>, i: nat)
    requires i < |values| && values[i] !in values[..i]
    ensures FirstIndex(values, values[i]) == i
  {
    var j := FirstIndex(values, values[i]);
    assert forall k | 0 <= k < i :: values[..i][k] == values[k];
    assert forall k | 0 <= k < j :: values[..j][k] == values[k];
  }

  function JoinBlocks(blocks: seq<string>): string {
    if blocks == [] then ""
    else if |blocks| == 1 then blocks[0]
    else blocks[0] + "\n\n" + JoinBlocks(blocks[1..])
  }

  function FinalText(blocks: seq<string>): string {
    Text.Strip(JoinBlocks(Dedupe(blocks)))
  }

  lemma {:induction false} NewlineEndsALine(line: Bytes, rest: Bytes)
    requires NEWLINE !in line
    ensures StreamLines(line + [NEWLINE] + rest) == [line] + StreamLines(rest)
  {
    var s := line + [NEWLINE] + rest;
    if line == [] {
      assert s[1..] == rest;
    } else {
      NewlineEndsALine(line[1..], rest);
      assert s[1..] == line[1..] + [NEWLINE] + rest;
      assert line[0] in line && s[0] == line[0];
      assert ([line[1..]] + StreamLines(rest))[1..] == StreamLines(rest);
      assert [line[0]] + line[1..] == line;
    }
  }

  lemma {:induction false} LastLine(s: Bytes)
    requires NEWLINE !in s
    ensures StreamLines(s) == if s == [] then [] else [s]
  {
    if s != [] {
      var rest := s[1..];
      LastLine(rest);
      assert s[0] in s && [s[0]] + rest == s;
      if rest == [] {
        assert s == [s[0]];
      } else {
        assert StreamLines(rest)[0] == rest && StreamLines(rest)[1..] == [];
        assert [s] + [] == [s];
      }
    }
  }

  /** bytearray.partition at the first line break. */
  function FirstNewline(s: Bytes): (i: nat)
    requires NEWLINE in s
    ensures i < |s| && s[i] == NEWLINE && NEWLINE !in s[..i]
  {
    if s[0] == NEWLINE then 0 else FirstNewline(s[1..]) + 1
  }

  lemma CutLine(pending: Bytes, cut: nat, later: Bytes)
    requires cut < |pending| && pending[cut] == NEWLINE && NEWLINE !in pending[..cut]
    ensures StreamLines(pending + later) == [pending[..cut]] + StreamLines(pending[cut + 1..] + later)
  {
    assert pending + later == pending[..cut] + [NEWLINE] + (pending[cut + 1..] + later);
    NewlineEndsALine(pending[..cut], pending[cut + 1..] + later);
  }

  /** What run_opencode_once does with one event. */
  method Handle(reader: Reader, event: Event) returns (r: Reader)
    ensures r == Read(reader, event)
  {
    r := reader;
    if event.session != "" && event.session != r.session {
      r := r.(session := event.session, log := r.log + [Session(event.session)]);
    }
    if event.text == "" {
      return;
    }
    if event.text != r.preview {
      r := r.(log := r.log + [Preview(event.text)], preview := event.text);
    }
    r := r.(blocks := r.blocks + [event.text]);
  }

  /** All complete lines of what is pending; `later` is what is still to come. */
  method Drain(reader: Reader, bytes: Bytes, parse: Bytes -> Event, ghost later: Bytes)
    returns (r: Reader, pending: Bytes)
    ensures NEWLINE !in pending
    ensures ReadAll(r, StreamLines(pending + later), parse) == ReadAll(reader, StreamLines(bytes + later), parse)
  {
    r, pending := reader, bytes;
    while NEWLINE in pending
      invariant ReadAll(r, StreamLines(pending + later), parse) == ReadAll(reader, StreamLines(bytes + later), parse)
      decreases |pending|
    {
      var cut := FirstNewline(pending);
      var line, remainder := pending[..cut], pending[cut + 1..];
      CutLine(pending, cut, later);
      pending := remainder;
      r := Handle(r, parse(line));
    }
  }

  /** The reading loop of run_opencode_once, for a stream that ends with the reader's end marker and no time-out, and
      what it returns once the process has exited. */
  method RunOnce(chunks: seq<Bytes>, session: string, parse: Bytes -> Event, exitCode: int)
    returns (outcome: Outcome, log: seq<Notice>)
    ensures var r := After(session, StreamLines(Flatten(chunks)), parse);
            && log == r.log
            && outcome == if exitCode != 0 then ExitedWith(exitCode) else Finished(FinalText(r.blocks), r.session)
  {
    var r := Reader(session, [], "", []);
    var pending: Bytes := [];
    ghost var target := ReadAll(r, StreamLines(Flatten(chunks)), parse);
    assert chunks[0..] == chunks && [] + Flatten(chunks) == Flatten(chunks);
    for i := 0 to |chunks|
      invariant NEWLINE !in pending
      invariant ReadAll(r, StreamLines(pending + Flatten(chunks[i..])), parse) == target
    {
      ghost var later := Flatten(chunks[i + 1..]);
      assert chunks[i..][1..] == chunks[i + 1..];
      assert pending + (chunks[i] + later) == pending + chunks[i] + later;
      r, pending := Drain(r, pending + chunks[i], parse, later);
    }
    assert pending + [] == pending;
    LastLine(pending);
    if pending != [] {
      r := Handle(r, parse(pending));
    }
    log := r.log;
    var blocks := DedupePreserveOrder(r.blocks);
    if exitCode != 0 {
      return ExitedWith(exitCode), log;
    }
    return Finished(Text.Strip(JoinBlocks(blocks)), r.session), log;
  }

  function Terminated(lines: seq<Bytes>): Bytes {
    if lines == [] then [] else lines[0] + [NEWLINE] + Terminated(lines[1..])
  }

  /** The lines are the stream cut at its line breaks: none has one inside, and with one after each they make up the
      stream again, but for the one that the stream itself may lack at its end. */
  lemma {:induction false} LinesAreTheCutStream(s: Bytes)
    ensures forall line | line in StreamLines(s) :: NEWLINE !in line
    ensures s == [] || s[|s| - 1] == NEWLINE ==> Terminated(StreamLines(s)) == s
    ensures s != [] && s[|s| - 1] != NEWLINE ==> Terminated(StreamLines(s)) == s + [NEWLINE]
  {
    if NEWLINE in s {
      var cut := FirstNewline(s);
      var line, rest := s[..cut], s[cut + 1..];
      assert s == line + [NEWLINE] + rest;
      NewlineEndsALine(line, rest);
      LinesAreTheCutStream(rest);
      assert ([line] + StreamLines(rest))[1..] == StreamLines(rest);
      assert rest != [] ==> rest[|rest| - 1] == s[|s| - 1];
    } else {
      LastLine(s);
      assert s != [] ==> s[|s| - 1] in s && Terminated([s]) == s + [NEWLINE];
    }
  }

  /** The session a run returns is the last one that any line named, and the given one if none did. */
  lemma {:induction false} LastNamedSession(r: Reader, lines: seq<Bytes>, parse: Bytes -> Event)
    ensures var seen := ReadAll(r, lines, parse).session;
            || (seen == r.session && forall i | 0 <= i < |lines| :: parse(lines[i]).session == "")
            || (exists i :: 0 <= i < |lines| && seen == parse(lines[i]).session != ""
                            && forall j | i < j < |lines| :: parse(lines[j]).session == "")
    decreases |lines|
  {
    if lines != [] {
      var next := Read(r, parse(lines[0]));
      LastNamedSession(next, lines[1..], parse);
      assert forall j | 0 < j < |lines| :: lines[j] == lines[1..][j - 1];
      var seen := ReadAll(next, lines[1..], parse).session;
      if i :| 0 <= i < |lines[1..]| && seen == parse(lines[1..][i]).session != ""
              && forall j | i < j < |lines[1..]| :: parse(lines[1..][j]).session == "" {
        assert lines[i + 1] == lines[1..][i];
      } else if parse(lines[0]).session != "" {
        assert seen == parse(lines[0]).session;
      }
    }
  }

  // What a run makes of its lines

  lemma {:induction false} ReadAllSnoc(r: Reader, lines: seq<Bytes>, line: Bytes, parse: Bytes -> Event)
    ensures ReadAll(r, lines + [line], parse) == Read(ReadAll(r, lines, parse), parse(line))
    decreases |lines|
  {
    if lines == [] {
      assert ([] + [line])[1..] == [];
    } else {
      ReadAllSnoc(Read(r, parse(lines[0])), lines[1..], line, parse);
      assert (lines + [line])[1..] == lines[1..] + [line];
    }
  }

  lemma OneMoreLine(session: string, lines: seq<Bytes>, parse: Bytes -> Event)
    requires lines != []
    ensures var front := lines[..|lines| - 1];
            After(session, lines, parse) == Read(After(session, front, parse), parse(lines[|lines| - 1]))
  {
    ReadAllSnoc(Reader(session, [], "", []), lines[..|lines| - 1], lines[|lines| - 1], parse);
    assert lines == lines[..|lines| - 1] + [lines[|lines| - 1]];
  }

  /** The blocks are exactly the texts that the lines show, line by line: block k comes from line at[k]. */
  lemma {:induction false} BlocksAreTheTexts(session: string, lines: seq<Bytes>, parse: Bytes -> Event)
    returns (at: seq<nat>)
    ensures var blocks := After(session, lines, parse).blocks;
            |at| == |blocks| && forall k | 0 <= k < |at| ::
                at[k] < |lines| && blocks[k] == parse(lines[at[k]]).text != ""
    ensures forall j, k | 0 <= j < k < |at| :: at[j] < at[k]
    ensures forall i | 0 <= i < |lines| && parse(lines[i]).text != "" :: i in at
    decreases |lines|
  {
    if lines == [] {
      return [];
    }
    var last := |lines| - 1;
    at := BlocksAreTheTexts(session, lines[..last], parse);
    OneMoreLine(session, lines, parse);
    if parse(lines[last]).text != "" {
      at := at + [last];
    }
  }

  /** A blank line between neighbours, and nothing else. */
  lemma {:induction false} JoinOneMore(blocks: seq<string>, block: string)
    ensures JoinBlocks([]) == ""
    ensures JoinBlocks(blocks + [block]) == if blocks == [] then block else JoinBlocks(blocks) + "\n\n" + block
  {
    if |blocks| > 1 {
      JoinOneMore(blocks[1..], block);
      assert (blocks + [block])[1..] == blocks[1..] + [block];
      assert blocks[0] + "\n\n" + (JoinBlocks(blocks[1..]) + "\n\n" + block)
             == blocks[0] + "\n\n" + JoinBlocks(blocks[1..]) + "\n\n" + block;
    } else if blocks != [] {
      assert (blocks + [block])[1..] == [block];
    }
  }

  /** Some line shows `first`, and no line before it or itself shows `later`. */
  ghost predicate ShownBefore(lines: seq<Bytes>, parse: Bytes -> Event, first: string, later: string) {
    exists i :: 0 <= i < |lines| && parse(lines[i]).text == first
                && forall j | 0 <= j <= i :: parse(lines[j]).text != later
  }

  /** The final text joins the different texts that the lines show, in the order in which they first appear, and is
      stripped at both ends. */
  lemma FinalTextOfTheRun(session: string, lines: seq<Bytes>, parse: Bytes -> Event) returns (shown: seq<string>)
    ensures FinalText(After(session, lines, parse).blocks) == Text.Strip(JoinBlocks(shown))
    ensures forall v :: v in shown <==> v != "" && exists i :: 0 <= i < |lines| && parse(lines[i]).text == v
    ensures forall j, k | 0 <= j < k < |shown| :: ShownBefore(lines, parse, shown[j], shown[k])
  {
    var blocks := After(session, lines, parse).blocks;
    shown := Dedupe(blocks);
    DedupeKeepsFirsts(blocks);
    var at := BlocksAreTheTexts(session, lines, parse);
    forall v
      ensures v in shown <==> v != "" && exists i :: 0 <= i < |lines| && parse(lines[i]).text == v
    {
      if v in shown {
        var k :| 0 <= k < |blocks| && blocks[k] == v;
        assert parse(lines[at[k]]).text == v;
      }
      if i :| v != "" && 0 <= i < |lines| && parse(lines[i]).text == v {
        var k :| 0 <= k < |at| && at[k] == i;
        assert blocks[k] == v;
      }
    }
    forall j, k | 0 <= j < k < |shown|
      ensures ShownBefore(lines, parse, shown[j], shown[k])
    {
      FirstShown(lines, parse, blocks, at, shown[j], shown[k]);
    }
  }

  lemma FirstIndexIsFirst(values: seq<string>, v: string, i: nat)
    requires i < |values| && values[i] == v
    ensures FirstIndex(values, v) <= i
  {
    var first := FirstIndex(values, v);
    assert forall k | 0 <= k < first :: values[..first][k] == values[k];
  }

  lemma FirstShown(lines: seq<Bytes>, parse: Bytes -> Event, blocks: seq<string>, at: seq<nat>, first: string,
                   later: string)
    requires |at| == |blocks| && forall k | 0 <= k < |at| ::
                 at[k] < |lines| && blocks[k] == parse(lines[at[k]]).text != ""
    requires forall j, k | 0 <= j < k < |at| :: at[j] < at[k]
    requires forall i | 0 <= i < |lines| && parse(lines[i]).text != "" :: i in at
    requires first in blocks && later in blocks && FirstIndex(blocks, first) < FirstIndex(blocks, later)
    ensures ShownBefore(lines, parse, first, later)
  {
    var k := FirstIndex(blocks, first);
    forall m: nat | m < |at| && blocks[m] == later
      ensures at[k] < at[m]
    {
      FirstIndexIsFirst(blocks, later, m);
    }
    assert forall j | 0 <= j <= at[k] && parse(lines[j]).text != "" :: j in at;
  }

  /** The last of these values that is not empty, and `given` if there is none. */
  ghost function Latest(values: seq<string>, given: string): string {
    if values == [] then given
    else if values[|values| - 1] != "" then values[|values| - 1]
    else Latest(values[..|values| - 1], given)
  }

  ghost function Sessions(lines: seq<Bytes>, parse: Bytes -> Event): seq<string> {
    seq(|lines|, (i: nat) requires i < |lines| => parse(lines[i]).session)
  }

  ghost function Texts(lines: seq<Bytes>, parse: Bytes -> Event): seq<string> {
    seq(|lines|, (i: nat) requires i < |lines| => parse(lines[i]).text)
  }

  /** Line i names another session than the one before it. */
  ghost predicate Turns(session: string, lines: seq<Bytes>, parse: Bytes -> Event, i: nat)
    requires i < |lines|
  {
    var named := parse(lines[i]).session;
    named != "" && named != Latest(Sessions(lines[..i], parse), session)
  }

  /** Line i shows another text than the one shown before it. */
  ghost predicate Shows(lines: seq<Bytes>, parse: Bytes -> Event, i: nat)
    requires i < |lines|
  {
    var text := parse(lines[i]).text;
    text != "" && text != Latest(Texts(lines[..i], parse), "")
  }

  lemma {:induction false} SessionAndPreview(session: string, lines: seq<Bytes>, parse: Bytes -> Event)
    ensures After(session, lines, parse).session == Latest(Sessions(lines, parse), session)
    ensures After(session, lines, parse).preview == Latest(Texts(lines, parse), "")
    decreases |lines|
  {
    if lines != [] {
      var front := lines[..|lines| - 1];
      SessionAndPreview(session, front, parse);
      OneMoreLine(session, lines, parse);
      assert Sessions(lines, parse)[..|lines| - 1] == Sessions(front, parse);
      assert Texts(lines, parse)[..|lines| - 1] == Texts(front, parse);
    }
  }

  /** What one line adds to the log. */
  ghost function Notices(session: string, lines: seq<Bytes>, parse: Bytes -> Event, i: nat): seq<Notice>
    requires i < |lines|
  {
    (if Turns(session, lines, parse, i) then [Session(parse(lines[i]).session)] else [])
    + (if Shows(lines, parse, i) then [Preview(parse(lines[i]).text)] else [])
  }

  lemma NoticesOfOneMore(session: string, lines: seq<Bytes>, parse: Bytes -> Event)
    requires lines != []
    ensures var last := |lines| - 1;
            After(session, lines, parse).log
            == After(session, lines[..last], parse).log + Notices(session, lines, parse, last)
  {
    var last := |lines| - 1;
    OneMoreLine(session, lines, parse);
    SessionAndPreview(session, lines[..last], parse);
  }

  /** The notice tells what line i changed. */
  ghost predicate Tells(session: string, lines: seq<Bytes>, parse: Bytes -> Event, notice: Notice, i: nat) {
    i < |lines| && match notice
                   case Session(id) => Turns(session, lines, parse, i) && id == parse(lines[i]).session
                   case Preview(text) => Shows(lines, parse, i) && text == parse(lines[i]).text
  }

  /** Notice k tells of line at[k]. */
  ghost predicate Truthful(session: string, lines: seq<Bytes>, parse: Bytes -> Event, log: seq<Notice>, at: seq<nat>) {
    |at| == |log| && forall k | 0 <= k < |at| :: Tells(session, lines, parse, log[k], at[k])
  }

  /** The notices are in the order of the lines, a line's session before its text. */
  ghost predicate Ordered(log: seq<Notice>, at: seq<nat>)
    requires |at| == |log|
  {
    forall j, k | 0 <= j < k < |at| :: at[j] < at[k] || (at[j] == at[k] && log[j].Session? && log[k].Preview?)
  }

  /** Every change of session and of text has its notice. */
  ghost predicate Complete(session: string, lines: seq<Bytes>, parse: Bytes -> Event, log: seq<Notice>, at: seq<nat>)
    requires |at| == |log|
  {
    && (forall i | 0 <= i < |lines| && Turns(session, lines, parse, i) ::
          exists k :: 0 <= k < |at| && at[k] == i && log[k].Session?)
    && (forall i | 0 <= i < |lines| && Shows(lines, parse, i) ::
          exists k :: 0 <= k < |at| && at[k] == i && log[k].Preview?)
  }

  lemma ChangesInFront(session: string, lines: seq<Bytes>, parse: Bytes -> Event, last: nat, i: nat)
    requires i < last < |lines|
    ensures Turns(session, lines[..last], parse, i) == Turns(session, lines, parse, i)
    ensures Shows(lines[..last], parse, i) == Shows(lines, parse, i)
    ensures forall notice :: Tells(session, lines[..last], parse, notice, i) == Tells(session, lines, parse, notice, i)
  {
    assert lines[..last][..i] == lines[..i];
  }

  lemma TruthfulOneMore(session: string, lines: seq<Bytes>, parse: Bytes -> Event, log: seq<Notice>, at: seq<nat>,
                        more: seq<Notice>, where: seq<nat>)
    requires lines != [] && Truthful(session, lines[..|lines| - 1], parse, log, at)
    requires more == Notices(session, lines, parse, |lines| - 1)
    requires |where| == |more| && forall k | 0 <= k < |where| :: where[k] == |lines| - 1
    ensures Truthful(session, lines, parse, log + more, at + where)
  {
    var last := |lines| - 1;
    forall k | 0 <= k < |at + where|
      ensures Tells(session, lines, parse, (log + more)[k], (at + where)[k])
    {
      if k < |at| {
        assert Tells(session, lines[..last], parse, log[k], at[k]);
        ChangesInFront(session, lines, parse, last, at[k]);
      } else {
        assert (log + more)[k] == more[k - |at|] && (at + where)[k] == where[k - |at|];
      }
    }
  }

  lemma OrderedOneMore(log: seq<Notice>, at: seq<nat>, more: seq<Notice>, where: seq<nat>, last: nat)
    requires |at| == |log| && Ordered(log, at) && forall k | 0 <= k < |at| :: at[k] < last
    requires |where| == |more| && forall k | 0 <= k < |where| :: where[k] == last
    requires |more| > 1 ==> |more| == 2 && more[0].Session? && more[1].Preview?
    ensures Ordered(log + more, at + where)
  {
  }

  lemma CompleteOneMore(session: string, lines: seq<Bytes>, parse: Bytes -> Event, log: seq<Notice>, at: seq<nat>,
                        more: seq<Notice>, where: seq<nat>)
    requires lines != [] && |at| == |log| && Complete(session, lines[..|lines| - 1], parse, log, at)
    requires more == Notices(session, lines, parse, |lines| - 1)
    requires |where| == |more| && forall k | 0 <= k < |where| :: where[k] == |lines| - 1
    ensures Complete(session, lines, parse, log + more, at + where)
  {
    var last := |lines| - 1;
    forall i | 0 <= i < |lines| && Turns(session, lines, parse, i)
      ensures exists k :: 0 <= k < |at + where| && (at + where)[k] == i && (log + more)[k].Session?
    {
      if i == last {
        assert (at + where)[|at|] == where[0] && (log + more)[|at|] == more[0];
      } else {
        ChangesInFront(session, lines, parse, last, i);
        var k :| 0 <= k < |at| && at[k] == i && log[k].Session?;
        assert (at + where)[k] == i && (log + more)[k] == log[k];
      }
    }
    forall i | 0 <= i < |lines| && Shows(lines, parse, i)
      ensures exists k :: 0 <= k < |at + where| && (at + where)[k] == i && (log + more)[k].Preview?
    {
      if i == last {
        var k := |more| - 1;
        assert (at + where)[|at| + k] == where[k] && (log + more)[|at| + k] == more[k];
      } else {
        ChangesInFront(session, lines, parse, last, i);
        var k :| 0 <= k < |at| && at[k] == i && log[k].Preview?;
        assert (at + where)[k] == i && (log + more)[k] == log[k];
      }
    }
  }

  /** The log of a run has exactly the changes of session and of text, in order. */
  lemma {:induction false} LogTellsTheChanges(session: string, lines: seq<Bytes>, parse: Bytes -> Event)
    returns (at: seq<nat>)
    ensures var log := After(session, lines, parse).log;
            && Truthful(session, lines, parse, log, at) && Ordered(log, at)
            && Complete(session, lines, parse, log, at)
    decreases |lines|
  {
    if lines == [] {
      return [];
    }
    var last := |lines| - 1;
    var front := LogTellsTheChanges(session, lines[..last], parse);
    NoticesOfOneMore(session, lines, parse);
    var log, more := After(session, lines[..last], parse).log, Notices(session, lines, parse, last);
    var where := seq(|more|, (i: nat) => last);
    TruthfulOneMore(session, lines, parse, log, front, more, where);
    OrderedOneMore(log, front, more, where, last);
    CompleteOneMore(session, lines, parse, log, front, more, where);
    at := front + where;
  }
}
