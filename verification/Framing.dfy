/** WebSocket frames as sections 5.2 and 5.3 of RFC 6455 define them, independently of the code that writes and reads
    them. */
module Framing {
  import opened Bytes
  import opened Options

  datatype Frame = Frame(fin: bool, opcode: nat, masked: bool, payload: Bytes)

  /** A frame at the front of some octets, and how many of them it takes. */
  datatype Decoded = Decoded(frame: Frame, length: nat)

  const TEXT := 0x1
  const BINARY := 0x2
  const CLOSE := 0x8
  const PING := 0x9
  const PONG := 0xA

  function BigEndian(s: Bytes): nat {
    if s == [] then 0 else BigEndian(s[..|s| - 1]) * 256 + s[|s| - 1] as nat
  }

  /** The last `k` octets of a number, big end first. */
  function PutBigEndian(v: nat, k: nat): (s: Bytes)
    ensures |s| == k
  {
    if k == 0 then [] else PutBigEndian(v / 256, k - 1) + [(v % 256) as byte]
  }

  lemma {:induction false} BigEndianRoundTrip(v: nat, k: nat)
    requires v < Power256(k)
    ensures BigEndian(PutBigEndian(v, k)) == v
  {
    if k > 0 {
      BigEndianRoundTrip(v / 256, k - 1);
      var s := PutBigEndian(v, k);
      assert s[..|s| - 1] == PutBigEndian(v / 256, k - 1);
    }
  }

  function Power256(k: nat): nat {
    if k == 0 then 1 else 256 * Power256(k - 1)
  }

  lemma Power256Of()
    ensures Power256(2) == 65536 && Power256(8) == 0x10000000000000000
  {
    assert Power256(4) == 256 * (256 * Power256(2));
    assert Power256(8) == 256 * (256 * (256 * (256 * Power256(4))));
  }

  /** Bitwise exclusive or */
  function Xor(a: nat, b: nat): nat {
    if a == 0 && b == 0 then 0 else (if a % 2 != b % 2 then 1 else 0) + 2 * Xor(a / 2, b / 2)
  }

  lemma {:induction false} XorFits(a: nat, b: nat, bound: nat, bits: nat)
    requires a < bound && b < bound && bound == Power(bits)
    ensures Xor(a, b) < bound
  {
    if bits > 0 && !(a == 0 && b == 0) {
      XorFits(a / 2, b / 2, bound / 2, bits - 1);
    }
  }

  function Power(bits: nat): nat {
    if bits == 0 then 1 else 2 * Power(bits - 1)
  }

  /** Masking twice gives back the octet. */
  lemma {:induction false} XorTwice(a: nat, b: nat)
    ensures Xor(Xor(a, b), b) == a
  {
    if !(a == 0 && b == 0) {
      XorTwice(a / 2, b / 2);
    }
  }

  function XorByte(a: byte, b: byte): byte {
    assert Power(8) == 256;
    XorFits(a as nat, b as nat, 256, 8);
    Xor(a as nat, b as nat) as byte
  }

  /** Section 5.3: octet i of the payload is masked with octet i modulo 4 of the key. */
  function Masked(payload: Bytes, key: Bytes): Bytes
    requires |key| == 4
  {
    seq(|payload|, i requires 0 <= i < |payload| => XorByte(payload[i], key[i % 4]))
  }

  lemma MaskedTwice(payload: Bytes, key: Bytes)
    requires |key| == 4
    ensures Masked(Masked(payload, key), key) == payload
  {
    var once := Masked(payload, key);
    forall i | 0 <= i < |payload|
      ensures Masked(once, key)[i] == payload[i]
    {
      XorTwice(payload[i] as nat, key[i % 4] as nat);
    }
  }

  /** How many octets of extended length follow a 7-bit length. */
  function Extended(length7: nat): nat {
    if length7 == 126 then 2 else if length7 == 127 then 8 else 0
  }

  /** The payload length must be encoded in as few octets as possible, and its most significant bit must be 0. */
  predicate Minimal(length7: nat, length: nat) {
    if length7 == 126 then 126 <= length < 65536
    else if length7 == 127 then 65536 <= length < 0x8000000000000000
    else length == length7
  }

  /** What comes before the mask: its flags, the payload's length, and how many octets it takes. */
  datatype Head = Head(fin: bool, opcode: nat, masked: bool, length: nat, size: nat)

  function DecodeHead(s: Bytes): (h: Option<Head>)
    ensures h.Some? ==> 2 <= h.value.size <= |s|
  {
    if |s| < 2 then None
    else
      var length7 := s[1] as nat % 128;
      var size := 2 + Extended(length7);
      if s[0] as nat / 16 % 8 != 0 || |s| < size then None
      else
        var length := if Extended(length7) == 0 then length7 else BigEndian(s[2..size]);
        if Minimal(length7, length) then Some(Head(s[0] >= 128, s[0] as nat % 16, s[1] >= 128, length, size)) else None
  }

  function Whole(h: Head): nat {
    h.size + (if h.masked then 4 else 0) + h.length
  }

  /** The payload after a head, with the mask taken off. */
  function Payload(h: Head, s: Bytes): Bytes
    requires Whole(h) <= |s|
  {
    var data := s[Whole(h) - h.length..Whole(h)];
    if h.masked then Masked(data, s[h.size..h.size + 4]) else data
  }

  /** Section 5.2: the frame at the front of some octets, if there is a whole, well-formed one. */
  function Decode(s: Bytes): (d: Option<Decoded>)
    ensures d.Some? ==> 2 <= d.value.length <= |s|
  {
    var h := DecodeHead(s);
    if h.None? || |s| < Whole(h.value) then None
    else Some(Decoded(Frame(h.value.fin, h.value.opcode, h.value.masked, Payload(h.value, s)), Whole(h.value)))
  }

  type Decoder = Bytes -> Option<Decoded>

  /** A decoder that takes what it needs from the front. */
  ghost predicate Proper(p: Decoder) {
    && (forall s :: p(s).Some? ==> 0 < p(s).value.length <= |s|)
    && (forall s, more :: p(s).Some? ==> p(s + more) == p(s))
  }

  /** The octets are exactly these frames, one after the other, and `rest`. */
  ghost predicate Holds(s: Bytes, frames: seq<Frame>, rest: Bytes, p: Decoder)
    decreases |frames|
  {
    if frames == [] then s == rest
    else
      && p(s).Some? && p(s).value.frame == frames[0] && p(s).value.length <= |s|
      && Holds(s[p(s).value.length..], frames[1..], rest, p)
  }

  lemma HeadIgnoresRest(s: Bytes, more: Bytes)
    requires DecodeHead(s).Some?
    ensures DecodeHead(s + more) == DecodeHead(s)
  {
    var size := 2 + Extended(s[1] as nat % 128);
    assert s[2..size] == (s + more)[2..size];
  }

  /** Octets after a frame do not change how it decodes. */
  lemma DecodeIgnoresRest(s: Bytes, more: Bytes)
    requires Decode(s).Some?
    ensures Decode(s + more) == Decode(s)
  {
    HeadIgnoresRest(s, more);
    var h := DecodeHead(s).value;
    assert s[Whole(h) - h.length..Whole(h)] == (s + more)[Whole(h) - h.length..Whole(h)];
    assert h.masked ==> s[h.size..h.size + 4] == (s + more)[h.size..h.size + 4];
  }

  lemma DecodeIsProper()
    ensures Proper(Decode)
  {
    forall s: Bytes, more: Bytes | Decode(s).Some?
      ensures Decode(s + more) == Decode(s)
    {
      DecodeIgnoresRest(s, more);
    }
  }

  lemma {:induction false} HoldsConcat(a: Bytes, frames: seq<Frame>, b: Bytes, more: seq<Frame>, rest: Bytes,
                                       p: Decoder)
    requires Proper(p) && Holds(a, frames, [], p) && Holds(b, more, rest, p)
    ensures Holds(a + b, frames + more, rest, p)
    decreases |frames|
  {
    if frames == [] {
      assert a + b == b && frames + more == more;
    } else {
      var n := p(a).value.length;
      HoldsConcat(a[n..], frames[1..], b, more, rest, p);
      assert (a + b)[n..] == a[n..] + b && (frames + more)[1..] == frames[1..] + more;
    }
  }

  /** Octets are no two sequences of frames. */
  lemma {:induction false} FramesAreUnique(s: Bytes, frames: seq<Frame>, others: seq<Frame>, p: Decoder)
    requires Proper(p) && Holds(s, frames, [], p) && Holds(s, others, [], p)
    ensures frames == others
    decreases |frames|
  {
    if frames != [] {
      FramesAreUnique(s[p(s).value.length..], frames[1..], others[1..], p);
      assert frames == [frames[0]] + frames[1..] && others == [others[0]] + others[1..];
    }
  }

  // What a client sends

  /** One final frame of a client, and the key it chose to mask it with. */
  datatype Draft = Draft(opcode: nat, payload: Bytes, key: Bytes)

  type Message = d: Draft | d.opcode < 16 && |d.payload| < 0x8000000000000000 && |d.key| == 4
    witness Draft(TEXT, [], [0, 0, 0, 0])

  /** The frame that the receiver is to see. */
  function Sent(m: Message): Frame {
    Frame(true, m.opcode, true, m.payload)
  }

  function ClientHeader(opcode: nat, length: nat): Bytes
    requires opcode < 16
  {
    [(0x80 + opcode) as byte]
    + if length < 126 then [(0x80 + length) as byte]
      else if length <= 65535 then [0xFE] + PutBigEndian(length, 2)
      else [0xFF] + PutBigEndian(length, 8)
  }

  /** The octets of a client's frame by sections 5.2 and 5.3: header, key, masked payload. */
  function Encoded(m: Message): Bytes {
    ClientHeader(m.opcode, |m.payload|) + (m.key + Masked(m.payload, m.key))
  }

  lemma {:induction false} ClientHeaderDecodes(opcode: nat, length: nat, more: Bytes)
    requires opcode < 16 && length < 0x8000000000000000
    ensures DecodeHead(ClientHeader(opcode, length) + more)
            == Some(Head(true, opcode, true, length, |ClientHeader(opcode, length)|))
  {
    var header := ClientHeader(opcode, length);
    var s := header + more;
    var size := |header|;
    assert s[2..size] == header[2..];
    Power256Of();
    if 126 <= length {
      var k := if length <= 65535 then 2 else 8;
      assert header[2..] == PutBigEndian(length, k);
      BigEndianRoundTrip(length, k);
    }
  }

  lemma BehindHeader(header: Bytes, key: Bytes, data: Bytes)
    requires |key| == 4
    ensures var s := header + (key + data);
            s[|header|..|header| + 4] == key && s[|header| + 4..|s|] == data && s[|s|..] == []
  {
  }

  /** Whatever a client sends, under whatever key, decodes to the frame it meant. */
  lemma {:induction false} ClientFrameDecodes(m: Message)
    ensures Holds(Encoded(m), [Sent(m)], [], Decode)
  {
    var header, data := ClientHeader(m.opcode, |m.payload|), Masked(m.payload, m.key);
    var s := Encoded(m);
    ClientHeaderDecodes(m.opcode, |m.payload|, m.key + data);
    BehindHeader(header, m.key, data);
    MaskedTwice(m.payload, m.key);
    assert Payload(DecodeHead(s).value, s) == m.payload;
  }

  function EncodedAll(messages: seq<Message>): Bytes {
    if messages == [] then [] else Encoded(messages[0]) + EncodedAll(messages[1..])
  }

  function SentAll(messages: seq<Message>): seq<Frame> {
    if messages == [] then [] else [Sent(messages[0])] + SentAll(messages[1..])
  }

  lemma {:induction false} ClientFramesDecode(messages: seq<Message>)
    ensures Holds(EncodedAll(messages), SentAll(messages), [], Decode)
    decreases |messages|
  {
    if messages != [] {
      ClientFrameDecodes(messages[0]);
      ClientFramesDecode(messages[1..]);
      DecodeIsProper();
      HoldsConcat(Encoded(messages[0]), [Sent(messages[0])], EncodedAll(messages[1..]), SentAll(messages[1..]), [],
          Decode);
    }
  }

  /** So does a whole conversation, followed by anything. */
  lemma {:induction false} ConversationDecodes(messages: seq<Message>, last: Message, rest: Bytes)
    ensures Holds(EncodedAll(messages) + (Encoded(last) + rest), SentAll(messages) + [Sent(last)], rest, Decode)
  {
    ClientFramesDecode(messages);
    ClientFrameDecodes(last);
    DecodeIsProper();
    HoldsConcat(Encoded(last), [Sent(last)], rest, [], rest, Decode);
    assert [Sent(last)] + [] == [Sent(last)];
    HoldsConcat(EncodedAll(messages), SentAll(messages), Encoded(last) + rest, [Sent(last)], rest, Decode);
  }
}
