/** The service's hand-written WebSocket frames: what it writes, through a connection that may accept any part of
    what it is given, and how it reads until the client closes. */
module WebSocket {
  import opened Bytes
  import opened Framing
  import opened Options

  const READ_LIMIT: nat := 65536

  /** How one write of the connection ends: some octets are accepted, and it may fail at that. */
  datatype Reply = Accept(n: nat) | Fail(n: nat)

  /** No write fails, and none accepts nothing. */
  predicate Steady(plan: seq<Reply>) {
    forall r | r in plan :: r.Accept? && r.n > 0
  }

  function Header(opcode: nat, length: nat): Bytes
    requires opcode < 16
  {
    [(0x80 + opcode) as byte]
    + if length < 126 then [length as byte]
      else if length <= 65535 then [126] + PutBigEndian(length, 2)
      else [127] + PutBigEndian(length, 8)
  }

  /** A frame from the server: final and not masked. */
  function ServerFrame(opcode: nat, payload: Bytes): Frame {
    Frame(true, opcode, false, payload)
  }

  /** Why no frame could be read. */
  datatype Refusal = EndOfInput | Fragmented | Unmasked | TooLarge

  /** How a connection stops reading. */
  datatype Stop = Closed | Refused(why: Refusal) | PongTooLarge | PongFailed | Unsupported

  /** One frame at the front of the input, or why there is none to go on with. */
  datatype FrameRead = Got(opcode: nat, payload: Bytes, length: nat) | NotGot(why: Refusal)

  function ReadFrame(s: Bytes): (r: FrameRead)
    ensures r.Got? ==> 0 < r.length <= |s| && |r.payload| <= READ_LIMIT
  {
    if |s| < 2 then NotGot(EndOfInput)
    else if s[0] < 128 then NotGot(Fragmented)
    else if s[1] < 128 then NotGot(Unmasked)
    else
      var length7 := s[1] as nat % 128;
      var size := 2 + Extended(length7);
      if |s| < size then NotGot(EndOfInput)
      else
        var length := if Extended(length7) == 0 then length7 else BigEndian(s[2..size]);
        if length > READ_LIMIT then NotGot(TooLarge)
        else if |s| < size + 4 + length then NotGot(EndOfInput)
        else Got(s[0] as nat % 16, Masked(s[size + 4..size + 4 + length], s[size..size + 4]), size + 4 + length)
  }

  /** What reading until the close frame comes to when every pong can be written: how it stops, the pings' payloads, and
      what is not read. */
  datatype Reading = Reading(stop: Stop, pings: seq<Bytes>, rest: Bytes)

  type Reader = Bytes -> FrameRead

  ghost predicate Advances(p: Reader) {
    forall s :: p(s).Got? ==> 0 < p(s).length <= |s|
  }

  /** Why reading stops after a frame, if it does. */
  function StopAfter(f: FrameRead): Option<Stop> {
    if f.NotGot? then Some(Refused(f.why))
    else if f.opcode == CLOSE then Some(Closed)
    else if f.opcode == PING then if |f.payload| > 125 then Some(PongTooLarge) else None
    else if f.opcode == PONG || f.opcode == TEXT || f.opcode == BINARY then None
    else Some(Unsupported)
  }

  function PingIn(f: FrameRead): seq<Bytes> {
    if f.Got? && f.opcode == PING then [f.payload] else []
  }

  ghost function ReadAll(s: Bytes, p: Reader): Reading
    requires Advances(p)
    decreases |s|
  {
    var f := p(s);
    var rest := if f.Got? then s[f.length..] else [];
    if StopAfter(f).Some? then Reading(StopAfter(f).value, [], rest) else Resumed(PingIn(f), ReadAll(rest, p))
  }

  function Resumed(answered: seq<Bytes>, r: Reading): Reading {
    r.(pings := answered + r.pings)
  }

  lemma {:induction false} ReadAllStep(answered: seq<Bytes>, s: Bytes, p: Reader, f: FrameRead)
    requires Advances(p) && f == p(s)
    ensures StopAfter(f).Some? ==>
              Resumed(answered, ReadAll(s, p))
                  == Reading(StopAfter(f).value, answered, if f.Got? then s[f.length..] else [])
    ensures StopAfter(f).None? ==>
              f.Got? && Resumed(answered, ReadAll(s, p)) == Resumed(answered + PingIn(f), ReadAll(s[f.length..], p))
  {
    assert answered + [] == answered;
    if StopAfter(f).None? {
      var later := ReadAll(s[f.length..], p);
      assert answered + (PingIn(f) + later.pings) == answered + PingIn(f) + later.pings;
    }
  }

  /** The answer to a frame. */
  function PongFor(f: FrameRead): seq<Frame> {
    if f.Got? && f.opcode == PING then [ServerFrame(PONG, f.payload)] else []
  }

  lemma {:induction false} PongsAppended(sent: seq<Frame>, answered: seq<Bytes>, f: FrameRead)
    ensures sent + Pongs(answered) + PongFor(f) == sent + Pongs(answered + PingIn(f))
  {
    if f.Got? && f.opcode == PING {
      assert (answered + [f.payload])[..|answered|] == answered;
      assert sent + Pongs(answered) + PongFor(f) == sent + (Pongs(answered) + PongFor(f));
    } else {
      assert answered + [] == answered && sent + Pongs(answered) + [] == sent + Pongs(answered);
    }
  }

  lemma ReadFrameAdvances()
    ensures Advances(ReadFrame)
  {
  }

  /** How the service reads from a client. */
  ghost function Transcript(s: Bytes): Reading {
    ReadFrameAdvances();
    ReadAll(s, ReadFrame)
  }

  function Pongs(pings: seq<Bytes>): seq<Frame> {
    if pings == [] then [] else Pongs(pings[..|pings| - 1]) + [ServerFrame(PONG, pings[|pings| - 1])]
  }

  /** A header is what section 5.2 wants for its opcode and length, in the shortest form. */
  lemma {:induction false} HeaderDecodes(opcode: nat, length: nat, payload: Bytes)
    requires opcode < 16 && length < 0x8000000000000000
    ensures DecodeHead(Header(opcode, length) + payload)
            == Some(Head(true, opcode, false, length, |Header(opcode, length)|))
  {
    var header := Header(opcode, length);
    var s := header + payload;
    var size := |header|;
    assert s[2..size] == header[2..];
    Power256Of();
    if 126 <= length {
      var k := if length <= 65535 then 2 else 8;
      assert header[2..] == PutBigEndian(length, k);
      BigEndianRoundTrip(length, k);
    }
  }

  /** A header and its payload are exactly one frame. */
  lemma {:induction false} FrameDecodes(opcode: nat, payload: Bytes)
    requires opcode < 16 && |payload| < 0x8000000000000000
    ensures Holds(Header(opcode, |payload|) + payload, [ServerFrame(opcode, payload)], [], Decode)
  {
    var s := Header(opcode, |payload|) + payload;
    HeaderDecodes(opcode, |payload|, payload);
    var h := DecodeHead(s).value;
    assert s[h.size..] == payload && s[h.size..|s|] == payload;
    assert Payload(h, s) == payload;
    assert s[|s|..] == [];
  }

  lemma {:induction false} OneMoreFrame(output: Bytes, sent: seq<Frame>, opcode: nat, payload: Bytes)
    requires opcode < 16 && |payload| < 0x8000000000000000 && Holds(output, sent, [], Decode)
    ensures Holds(output + Header(opcode, |payload|) + payload, sent + [ServerFrame(opcode, payload)], [], Decode)
  {
    FrameDecodes(opcode, payload);
    DecodeIsProper();
    HoldsConcat(output, sent, Header(opcode, |payload|) + payload, [ServerFrame(opcode, payload)], [], Decode);
    Regroup(output, Header(opcode, |payload|), payload);
  }

  lemma Regroup(a: Bytes, b: Bytes, c: Bytes)
    ensures a + b + c == a + (b + c)
  {
  }

  /** What section 5 lets a client send in one final frame, up to the size the service accepts. */
  predicate Welcome(f: Frame) {
    && f.fin && f.masked && |f.payload| <= READ_LIMIT
    && (f.opcode == TEXT || f.opcode == BINARY || f.opcode == PONG || (f.opcode == PING && |f.payload| <= 125))
  }

  function PingsOf(frames: seq<Frame>): seq<Bytes> {
    if frames == [] then []
    else (if frames[0].opcode == PING then [frames[0].payload] else []) + PingsOf(frames[1..])
  }

  /** What the reader makes of a frame that is there as a whole: its flags are looked at first, then its size. */
  ghost function Taken(d: Decoded): FrameRead {
    if !d.frame.fin then NotGot(Fragmented)
    else if !d.frame.masked then NotGot(Unmasked)
    else if |d.frame.payload| > 65536 then NotGot(TooLarge)
    else Got(d.frame.opcode, d.frame.payload, d.length)
  }

  ghost predicate Follows(p: Reader, d: Decoder) {
    forall s: Bytes | d(s).Some? :: p(s) == Taken(d(s).value)
  }

  /** So it is for every frame that the standard's decoder finds. */
  lemma ReaderFollowsDecoder()
    ensures Follows(ReadFrame, Decode)
  {
    forall s: Bytes | Decode(s).Some?
      ensures ReadFrame(s) == Taken(Decode(s).value)
    {
    }
  }

  /** Why a frame that is not welcome ends the reading. */
  ghost function StopOn(f: Frame): Stop
    requires !Welcome(f)
  {
    if !f.fin then Refused(Fragmented)
    else if !f.masked then Refused(Unmasked)
    else if |f.payload| > READ_LIMIT then Refused(TooLarge)
    else if f.opcode == CLOSE then Closed
    else if f.opcode == PING then PongTooLarge
    else Unsupported
  }

  /** Reading takes welcome frames, answering the pings, as long as there are any; then the rest decides. */
  lemma {:induction false} ReadsOn(s: Bytes, frames: seq<Frame>, tail: Bytes, p: Reader, d: Decoder)
    requires Advances(p) && Follows(p, d) && Holds(s, frames, tail, d) && forall f | f in frames :: Welcome(f)
    ensures ReadAll(s, p) == Resumed(PingsOf(frames), ReadAll(tail, p))
    decreases |frames|
  {
    var later := ReadAll(tail, p);
    if frames == [] {
      assert [] + later.pings == later.pings;
    } else {
      assert frames[0] in frames && forall f | f in frames[1..] :: f in frames;
      var rest := s[d(s).value.length..];
      ReadsOn(rest, frames[1..], tail, p, d);
      ReadsFirst(s, p, d);
      var first := if frames[0].opcode == PING then [frames[0].payload] else [];
      PingsRegroup(first, PingsOf(frames[1..]), later);
    }
  }

  lemma PingsRegroup(first: seq<Bytes>, more: seq<Bytes>, later: Reading)
    ensures Resumed(first, Resumed(more, later)) == Resumed(first + more, later)
  {
    assert first + (more + later.pings) == first + more + later.pings;
  }

  lemma ReadsFirst(s: Bytes, p: Reader, d: Decoder)
    requires Advances(p) && Follows(p, d) && d(s).Some? && Welcome(d(s).value.frame) && d(s).value.length <= |s|
    ensures var f := d(s).value.frame;
            ReadAll(s, p)
            == Resumed(if f.opcode == PING then [f.payload] else [], ReadAll(s[d(s).value.length..], p))
  {
  }

  /** The first frame that is not welcome ends the reading, for the first of these reasons that applies: it is no final
      frame, it is not masked, it is too large, it closes the connection, it is a ping too large for a pong, its opcode
      is none that the service knows. Every ping before it is answered. */
  lemma {:induction false} UnwelcomeFrameStops(s: Bytes, frames: seq<Frame>, last: Frame, rest: Bytes)
    requires Holds(s, frames + [last], rest, Decode) && (forall f | f in frames :: Welcome(f)) && !Welcome(last)
    ensures Transcript(s).stop == StopOn(last) && Transcript(s).pings == PingsOf(frames)
    ensures StopOn(last) == Closed ==> Transcript(s).rest == rest
  {
    ReadFrameAdvances();
    ReaderFollowsDecoder();
    var tail := SplitHolds(s, frames, last, rest, Decode);
    ReadsOn(s, frames, tail, ReadFrame, Decode);
    StopsOn(tail, last, rest, ReadFrame, Decode);
    assert PingsOf(frames) + [] == PingsOf(frames);
  }

  lemma StopsOn(tail: Bytes, last: Frame, rest: Bytes, p: Reader, d: Decoder)
    requires Advances(p) && Follows(p, d) && Holds(tail, [last], rest, d) && !Welcome(last)
    ensures ReadAll(tail, p).stop == StopOn(last) && ReadAll(tail, p).pings == []
    ensures StopOn(last) == Closed ==> ReadAll(tail, p).rest == rest
  {
    assert [last][1..] == [];
  }

  lemma {:induction false} SplitHolds(s: Bytes, frames: seq<Frame>, last: Frame, rest: Bytes, d: Decoder)
    returns (tail: Bytes)
    requires Holds(s, frames + [last], rest, d)
    ensures Holds(s, frames, tail, d) && Holds(tail, [last], rest, d)
    decreases |frames|
  {
    if frames == [] {
      assert frames + [last] == [last];
      tail := s;
    } else {
      assert (frames + [last])[0] == frames[0] && (frames + [last])[1..] == frames[1..] + [last];
      tail := SplitHolds(s[d(s).value.length..], frames[1..], last, rest, d);
    }
  }

  /** Input that ends between welcome frames, or inside a final masked one that is not too large, ends the reading as
      such. */
  lemma {:induction false} CutInputEnds(s: Bytes, frames: seq<Frame>, whole: Bytes, k: nat)
    requires Decode(whole).Some? && Decode(whole).value.length == |whole| && k < |whole|
    requires Taken(Decode(whole).value).Got?
    requires Holds(s, frames, whole[..k], Decode) && forall f | f in frames :: Welcome(f)
    ensures Transcript(s) == Reading(Refused(EndOfInput), PingsOf(frames), [])
  {
    ReadFrameAdvances();
    ReaderFollowsDecoder();
    ReadsOn(s, frames, whole[..k], ReadFrame, Decode);
    CutFrame(whole, k);
    assert PingsOf(frames) + [] == PingsOf(frames);
  }

  lemma CutFrame(whole: Bytes, k: nat)
    requires Decode(whole).Some? && Decode(whole).value.length == |whole| && k < |whole|
    requires Taken(Decode(whole).value).Got?
    ensures ReadFrame(whole[..k]) == NotGot(EndOfInput)
  {
    var size := 2 + Extended(whole[1] as nat % 128);
    assert k >= size ==> whole[..k][2..size] == whole[2..size];
  }

  /** The pongs are final unmasked frames with the pings' payloads, in order. */
  lemma {:induction false} PongsAnswerPings(pings: seq<Bytes>)
    ensures |Pongs(pings)| == |pings|
    ensures forall i | 0 <= i < |pings| :: Pongs(pings)[i] == Frame(true, 0xA, false, pings[i])
    decreases |pings|
  {
    if pings != [] {
      PongsAnswerPings(pings[..|pings| - 1]);
    }
  }

  /** What a client may send: any text, binary or pong frame that the service has room for, and pings. */
  predicate WelcomeMessage(m: Message) {
    Welcome(Sent(m))
  }

  function PingsAmong(messages: seq<Message>): seq<Bytes> {
    if messages == [] then []
    else (if messages[0].opcode == PING then [messages[0].payload] else []) + PingsAmong(messages[1..])
  }

  lemma {:induction false} SentAreWelcome(messages: seq<Message>)
    requires forall m | m in messages :: WelcomeMessage(m)
    ensures forall f | f in SentAll(messages) :: Welcome(f)
    ensures PingsOf(SentAll(messages)) == PingsAmong(messages)
  {
    if messages != [] {
      assert messages[0] in messages && forall m | m in messages[1..] :: m in messages;
      SentAreWelcome(messages[1..]);
      assert SentAll(messages)[0] == Sent(messages[0]) && SentAll(messages)[1..] == SentAll(messages[1..]);
    }
  }

  /** A client that encodes any such frames as sections 5.2 and 5.3 of RFC 6455 say, each under any key, and then a
      close frame, gets exactly one pong per ping, in order and with the ping's payload; the service stops without
      error and reads nothing beyond the close frame. */
  lemma EveryPingIsAnswered(messages: seq<Message>, close: Message, rest: Bytes)
    requires forall m | m in messages :: WelcomeMessage(m)
    requires close.opcode == CLOSE && |close.payload| <= READ_LIMIT
    ensures Transcript(EncodedAll(messages) + (Encoded(close) + rest)) == Reading(Closed, PingsAmong(messages), rest)
  {
    SentAreWelcome(messages);
    ConversationDecodes(messages, close, rest);
    UnwelcomeFrameStops(EncodedAll(messages) + (Encoded(close) + rest), SentAll(messages), Sent(close), rest);
  }

  /** Unmasking in place. */
  method Unmask(payload: array<byte>, mask: Bytes)
    requires |mask| == 4
    modifies payload
    ensures payload[..] == Masked(old(payload[..]), mask)
  {
    for index := 0 to payload.Length
      invariant forall i | 0 <= i < index :: payload[i] == XorByte(old(payload[i]), mask[i % 4])
      invariant forall i | index <= i < payload.Length :: payload[i] == old(payload[i])
    {
      payload[index] := XorByte(payload[index], mask[index % 4]);
    }
  }

  class Connection {
    var input: Bytes  // what the client sent and nobody read yet
    var output: Bytes  // what the connection accepted
    var plan: seq<Reply>  // how the next writes end; any after them accept everything
    ghost var sent: seq<Frame>  // the frames written without error
    ghost var intact: bool  // no write failed

    /** What was written decodes to exactly the frames sent, in order. */
    ghost predicate Valid()
      reads this
    {
      intact ==> Holds(output, sent, [], Decode)
    }

    constructor (input: Bytes, plan: seq<Reply>)
      ensures Valid() && intact && sent == [] && output == [] && this.input == input && this.plan == plan
    {
      this.input, this.plan := input, plan;
      output, sent, intact := [], [], true;
    }

    /** The connection's Write. */
    method Write(payload: Bytes) returns (written: nat, ok: bool)
      modifies this`output, this`plan
      ensures written <= |payload| && output == old(output) + payload[..written]
      ensures plan == if old(plan) == [] then [] else old(plan)[1..]
      ensures if old(plan) == [] then ok && written == |payload|
              else ok == old(plan)[0].Accept? && written == if old(plan)[0].n < |payload| then old(plan)[0].n
                  else |payload|
    {
      if plan == [] {
        written, ok := |payload|, true;
      } else {
        ok := plan[0].Accept?;
        written := if plan[0].n < |payload| then plan[0].n else |payload|;
        plan := plan[1..];
      }
      output := output + payload[..written];
    }

    /** writeAll */
    method WriteAll(payload: Bytes) returns (ok: bool)
      modifies this`output, this`plan
      ensures ok ==> output == old(output) + payload
      ensures old(Steady(plan)) ==> ok && Steady(plan)
    {
      var left := payload;
      assert output == old(output) + payload[..0];
      while left != []
        invariant |left| <= |payload| && left == payload[|payload| - |left|..]
        invariant output == old(output) + payload[..|payload| - |left|]
        invariant old(Steady(plan)) ==> Steady(plan)
        decreases |left|
      {
        ghost var before := |payload| - |left|;
        if plan != [] {
          assert plan[0] in plan && forall r | r in plan[1..] :: r in plan;
        }
        var written, accepted := Write(left);
        assert payload[..before] + left[..written] == payload[..before + written];
        if !accepted {
          return false;
        }
        if written == 0 {
          return false;
        }
        left := left[written..];
      }
      assert payload[..|payload|] == payload;
      return true;
    }

    /** writeFrame */
    method WriteFrame(opcode: nat, payload: Bytes) returns (ok: bool)
      requires Valid() && opcode < 16 && |payload| < 0x8000000000000000
      modifies this`output, this`plan, this`sent, this`intact
      ensures Valid() && intact == (old(intact) && ok)
      ensures sent == old(sent) + if ok then [ServerFrame(opcode, payload)] else []
      ensures old(Steady(plan)) ==> ok && Steady(plan)
    {
      var header := FrameHeader(opcode, |payload|);
      ghost var was := output;
      ok := WriteAll(header);
      if ok {
        ok := WriteAll(payload);
      }
      if ok {
        if intact {
          OneMoreFrame(was, sent, opcode, payload);
        }
        sent := sent + [ServerFrame(opcode, payload)];
      }
      intact := intact && ok;
    }

    /** The header that writeFrame builds. */
    static method FrameHeader(opcode: nat, length: nat) returns (header: Bytes)
      requires opcode < 16
      ensures header == Header(opcode, length)
    {
      header := [(0x80 + opcode) as byte];
      if length < 126 {
        header := header + [length as byte];
      } else if length <= 65535 {
        header := header + [126 as byte] + PutBigEndian(length, 2);
      } else {
        header := header + [127 as byte] + PutBigEndian(length, 8);
      }
    }

    method WriteText(text: Bytes) returns (ok: bool)
      requires Valid() && |text| < 0x8000000000000000
      modifies this`output, this`plan, this`sent, this`intact
      ensures Valid() && intact == (old(intact) && ok)
      ensures sent == old(sent) + if ok then [ServerFrame(TEXT, text)] else []
      ensures old(Steady(plan)) ==> ok && Steady(plan)
    {
      ok := WriteFrame(TEXT, text);
    }

    /** A control payload above 125 octets is refused, and nothing written. */
    method WriteControl(opcode: nat, payload: Bytes) returns (ok: bool)
      requires Valid() && opcode < 16
      modifies this`output, this`plan, this`sent, this`intact
      ensures Valid()
      ensures |payload| > 125 ==>
                !ok && output == old(output) && plan == old(plan) && sent == old(sent) && intact == old(intact)
      ensures |payload| <= 125 ==> intact == (old(intact) && ok)
                                   && sent == old(sent) + if ok then [ServerFrame(opcode, payload)] else []
      ensures |payload| <= 125 && old(Steady(plan)) ==> ok && Steady(plan)
    {
      if |payload| > 125 {
        return false;
      }
      ok := WriteFrame(opcode, payload);
    }

    /** One round of ReadUntilClose up to the unmasked payload; `reserved` is the size of the buffer made for it. */
    method NextFrame() returns (frame: FrameRead, reserved: nat)
      modifies this`input
      ensures frame == ReadFrame(old(input)) && reserved <= READ_LIMIT
      ensures frame.Got? ==> input == old(input)[frame.length..]
    {
      reserved := 0;
      var s := input;
      if |s| < 2 {
        input := [];
        return NotGot(EndOfInput), reserved;
      }
      var first, second := s[0], s[1];
      input := s[2..];
      if first < 0x80 {
        return NotGot(Fragmented), reserved;
      }
      if second < 0x80 {
        return NotGot(Unmasked), reserved;
      }
      var length := second as nat % 0x80;
      var extended := if length == 126 then 2 else if length == 127 then 8 else 0;
      if |input| < extended {
        input := [];
        return NotGot(EndOfInput), reserved;
      }
      if extended > 0 {
        assert input[..extended] == s[2..2 + extended];
        length := BigEndian(input[..extended]);
      }
      input := input[extended..];
      if length > READ_LIMIT {
        return NotGot(TooLarge), reserved;
      }
      if |input| < 4 {
        input := [];
        return NotGot(EndOfInput), reserved;
      }
      var mask := input[..4];
      input := input[4..];
      var payload := new byte[length];
      reserved := length;
      if |input| < length {
        input := [];
        return NotGot(EndOfInput), reserved;
      }
      forall i | 0 <= i < length {
        payload[i] := input[i];
      }
      assert payload[..] == input[..length];
      Unmask(payload, mask);
      Pieces(s, extended, length);
      frame := Got(first as nat % 0x10, payload[..], 2 + extended + 4 + length);
      input := input[length..];
    }

    /** What ReadUntilClose does with one frame. */
    method Handle(frame: FrameRead) returns (stop: Option<Stop>)
      requires Valid()
      modifies this`output, this`plan, this`sent, this`intact
      ensures Valid()
      ensures stop != Some(PongFailed) ==> stop == StopAfter(frame) && intact == old(intact)
      ensures stop != Some(PongFailed) ==> sent == if stop == None then old(sent) + PongFor(frame) else old(sent)
      ensures old(Steady(plan)) ==> stop != Some(PongFailed) && Steady(plan)
    {
      if frame.NotGot? {
        return Some(Refused(frame.why));
      }
      if frame.opcode == CLOSE {
        return Some(Closed);
      } else if frame.opcode == PING {
        var ok := WriteControl(PONG, frame.payload);
        if !ok {
          return Some(if |frame.payload| > 125 then PongTooLarge else PongFailed);
        }
      } else if frame.opcode != PONG && frame.opcode != TEXT && frame.opcode != BINARY {
        return Some(Unsupported);
      }
      return None;
    }

    /** So far the pings in `answered` were answered, and reading on from here comes to `all`. */
    ghost predicate OnTheWay(all: Reading, answered: seq<Bytes>, before: seq<Frame>, p: Reader)
      requires Advances(p)
      reads this
    {
      Valid() && all == Resumed(answered, ReadAll(input, p)) && sent == before + Pongs(answered)
    }

    /** Reading came to its end as `all` says. */
    ghost predicate Finished(all: Reading, stop: Stop, before: seq<Frame>)
      reads this
    {
      stop == all.stop && sent == before + Pongs(all.pings) && (stop == Closed ==> input == all.rest)
    }

    /** What a round of ReadUntilClose does with the frame it got from `was`. */
    method Digest(frame: FrameRead, ghost was: Bytes, ghost all: Reading, ghost answered: seq<Bytes>,
                  ghost before: seq<Frame>,
                  ghost p: Reader)
      returns (stop: Option<Stop>, ghost now: seq<Bytes>)
      requires Valid() && Advances(p) && frame == p(was) && (frame.Got? ==> input == was[frame.length..])
      requires all == Resumed(answered, ReadAll(was, p)) && sent == before + Pongs(answered)
      modifies this`output, this`plan, this`sent, this`intact
      ensures Valid()
      ensures stop == None ==> frame.Got? && OnTheWay(all, now, before, p)
      ensures stop.Some? && stop != Some(PongFailed) ==> Finished(all, stop.value, before)
      ensures stop != Some(PongFailed) ==> intact == old(intact)
      ensures old(Steady(plan)) ==> stop != Some(PongFailed) && Steady(plan)
    {
      ReadAllStep(answered, was, p, frame);
      PongsAppended(before, answered, frame);
      stop := Handle(frame);
      now := answered + PingIn(frame);
    }

    /** One round of the loop of ReadUntilClose. */
    method Round(ghost all: Reading, ghost answered: seq<Bytes>, ghost before: seq<Frame>, ghost p: Reader)
      returns (stop: Option<Stop>, reserved: nat, ghost now: seq<Bytes>)
      requires Advances(p) && p == ReadFrame && OnTheWay(all, answered, before, p)
      modifies this
      ensures Valid() && reserved <= READ_LIMIT
      ensures stop == None ==> OnTheWay(all, now, before, p) && |input| < |old(input)|
      ensures stop.Some? && stop != Some(PongFailed) ==> Finished(all, stop.value, before)
      ensures stop != Some(PongFailed) ==> intact == old(intact)
      ensures old(Steady(plan)) ==> stop != Some(PongFailed) && Steady(plan)
    {
      ghost var was := input;
      var frame, size := NextFrame();
      reserved := size;
      stop, now := Digest(frame, was, all, answered, before, p);
    }

    /** ReadUntilClose: every ping is answered, in order, until something ends the reading. */
    method ReadUntilClose() returns (stop: Stop, largest: nat)
      requires Valid()
      modifies this
      ensures Valid() && largest <= READ_LIMIT
      ensures stop != PongFailed ==> Finished(Transcript(old(input)), stop, old(sent)) && intact == old(intact)
      ensures old(Steady(plan)) ==> stop != PongFailed
    {
      largest := 0;
      ghost var p: Reader := ReadFrame;
      ghost var all := Transcript(input);
      ghost var answered: seq<Bytes> := [];
      assert [] + all.pings == all.pings && sent + [] == sent;
      while true
        invariant Valid() && intact == old(intact) && largest <= READ_LIMIT
        invariant OnTheWay(all, answered, old(sent), p)
        invariant old(Steady(plan)) ==> Steady(plan)
        decreases |input|
      {
        var ended, reserved, now := Round(all, answered, old(sent), p);
        largest := if reserved > largest then reserved else largest;
        if ended.Some? {
          return ended.value, largest;
        }
        answered := now;
      }
    }
  }

  lemma Pieces(s: Bytes, extended: nat, length: nat)
    requires |s| >= 2 + extended + 4 + length
    ensures s[2..][extended..][..4] == s[2 + extended..2 + extended + 4]
    ensures s[2..][extended..][4..][..length] == s[2 + extended + 4..2 + extended + 4 + length]
    ensures s[2..][extended..][4..][length..] == s[2 + extended + 4 + length..]
  {
  }
}
