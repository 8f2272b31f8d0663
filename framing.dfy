/** Firefox native-messaging framing: every message is a 4-byte little-endian
    unsigned length followed by that many payload bytes. */
module Framing {
  import PyText

  type Byte = b: int | 0 <= b < 256

  /** Largest declared length the host accepts: 1 MiB. */
  const MaxMessageLength: nat := 1024 * 1024

  /** Every length a 4-byte unsigned prefix can carry is below this bound. */
  const Uint32Bound: nat := 0x1_0000_0000

  /** `struct.unpack("<I", b)[0]`. */
  function UnpackLE32(b: seq<Byte>): (n: nat)
    requires |b| == 4
    ensures n < Uint32Bound
  {
    b[0] as int + 256 * b[1] as int + 65536 * b[2] as int + 16777216 * b[3] as int
  }

  /** `struct.pack("<I", n)`, defined for the lengths it does not reject. */
  function PackLE32(n: nat): (b: seq<Byte>)
    requires n < Uint32Bound
    ensures |b| == 4 && UnpackLE32(b) == n
  {
    var q1 := n / 256;
    var q2 := q1 / 256;
    assert n == 256 * q1 + n % 256;
    assert q1 == 256 * q2 + q1 % 256;
    assert q2 == 256 * (q2 / 256) + q2 % 256;
    [n % 256, q1 % 256, q2 % 256, q2 / 256]
  }

  /** Packing is also a left inverse: every 4-byte prefix is the packing of the
      length it declares, so a prefix has exactly one reading. */
  lemma PackOfUnpack(b: seq<Byte>)
    requires |b| == 4
    ensures PackLE32(UnpackLE32(b)) == b
  {
    var n := UnpackLE32(b);
    var q1: int := b[1] as int + 256 * b[2] as int + 65536 * b[3] as int;
    var q2: int := b[2] as int + 256 * b[3] as int;
    assert n == b[0] as int + 256 * q1;
    assert n / 256 == q1 && n % 256 == b[0];
    assert q1 == b[1] + 256 * q2;
    assert q1 / 256 == q2 && q1 % 256 == b[1];
    assert q2 / 256 == b[3] && q2 % 256 == b[2];
  }

  /** The bytes `write_message` emits for a payload: prefix, then payload. */
  function EncodeFrame(payload: seq<Byte>): (f: seq<Byte>)
    requires |payload| < Uint32Bound
    ensures |f| == 4 + |payload| && UnpackLE32(f[..4]) == |payload| && f[4..] == payload
  {
    PackLE32(|payload|) + payload
  }

  /** The `MessageReadError`s `read_message` raises. */
  datatype ReadError =
    | InvalidLengthPrefix(got: nat)
    | MessageTooLarge(length: nat)
    | IncompleteMessage(expected: nat, got: nat)
    | InvalidUtf8(detail: string)
    | InvalidJson(detail: string)
  {
    /** The exception's text, `str(e)`. */
    function Message(): (m: string)
      ensures m != ""
    {
      match this
      case InvalidLengthPrefix(got) =>
        "Invalid length prefix: expected 4 bytes, got " + PyText.NatToDecimal(got)
      case MessageTooLarge(length) =>
        "Message too large: " + PyText.NatToDecimal(length) + " bytes"
      case IncompleteMessage(expected, got) =>
        "Incomplete message: expected " + PyText.NatToDecimal(expected)
        + " bytes, got " + PyText.NatToDecimal(got)
      case InvalidUtf8(detail) => "Invalid UTF-8 encoding: " + detail
      case InvalidJson(detail) => "Invalid JSON: " + detail
    }
  }

  /** The framing layer's verdict on the next message of a stream. */
  datatype Frame =
    | EndOfStream
    | Broken(error: ReadError)
    | Complete(payload: seq<Byte>)

  /** A verdict together with the number of input bytes it consumed. */
  datatype FrameRead = FrameRead(frame: Frame, consumed: nat)

  /** The framing part of `read_message` on a stream whose remaining content up
      to end-of-file is `input` (a blocking `read(n)` returns fewer than `n`
      bytes only at end-of-file). */
  function ReadFrame(input: seq<Byte>): (r: FrameRead)
    ensures r.consumed <= |input|
    ensures r.frame.EndOfStream? <==> input == []
    ensures !r.frame.EndOfStream? ==> r.consumed >= 1
    ensures r.frame.Complete? ==>
              |r.frame.payload| <= MaxMessageLength
              && input[..r.consumed] == EncodeFrame(r.frame.payload)
    ensures r.frame.Broken? ==>
              (r.frame.error.InvalidLengthPrefix? || r.frame.error.MessageTooLarge?
               || r.frame.error.IncompleteMessage?)
  {
    if |input| == 0 then FrameRead(EndOfStream, 0)
    else if |input| < 4 then FrameRead(Broken(InvalidLengthPrefix(|input|)), |input|)
    else
      var length := UnpackLE32(input[..4]);
      if length > MaxMessageLength then FrameRead(Broken(MessageTooLarge(length)), 4)
      else if |input| - 4 < length then
        FrameRead(Broken(IncompleteMessage(length, |input| - 4)), |input|)
      else
        PackOfUnpack(input[..4]);
        assert input[..4 + length] == input[..4] + input[4..4 + length];
        FrameRead(Complete(input[4..4 + length]), 4 + length)
  }

  /** Round trip: a frame of at most 1 MiB reads back as its payload, consuming
      exactly its own bytes and leaving whatever follows. */
  lemma ReadEncodedFrame(payload: seq<Byte>, rest: seq<Byte>)
    requires |payload| <= MaxMessageLength
    ensures ReadFrame(EncodeFrame(payload) + rest) == FrameRead(Complete(payload), 4 + |payload|)
  {
    var input := EncodeFrame(payload) + rest;
    assert input[..4] == PackLE32(|payload|);
    assert input[4..4 + |payload|] == payload;
  }

  /** Input that ends inside the prefix is an invalid-prefix error that
      consumes what was there. */
  lemma ReadShortPrefix(input: seq<Byte>)
    requires 1 <= |input| <= 3
    ensures ReadFrame(input) == FrameRead(Broken(InvalidLengthPrefix(|input|)), |input|)
  {
  }

  /** A declared length over 1 MiB is rejected after only the prefix has been
      consumed: the payload bytes stay in the stream. */
  lemma ReadOversize(input: seq<Byte>)
    requires |input| >= 4 && UnpackLE32(input[..4]) > MaxMessageLength
    ensures ReadFrame(input) == FrameRead(Broken(MessageTooLarge(UnpackLE32(input[..4]))), 4)
  {
  }

  /** A payload cut short by end-of-input is an incomplete-message error that
      consumes the rest of the input. */
  lemma ReadTruncated(input: seq<Byte>)
    requires |input| >= 4 && UnpackLE32(input[..4]) <= MaxMessageLength
    requires |input| - 4 < UnpackLE32(input[..4])
    ensures ReadFrame(input)
            == FrameRead(Broken(IncompleteMessage(UnpackLE32(input[..4]), |input| - 4)), |input|)
  {
  }

  /** Every verdict of a non-empty stream, read repeatedly until end-of-input. */
  function ReadFrames(input: seq<Byte>): (fs: seq<Frame>)
    ensures |fs| <= |input|
    ensures forall i :: 0 <= i < |fs| ==> !fs[i].EndOfStream?
    decreases |input|
  {
    var r := ReadFrame(input);
    if r.frame.EndOfStream? then [] else [r.frame] + ReadFrames(input[r.consumed..])
  }

  /** Several frames back to back. */
  function EncodeFrames(payloads: seq<seq<Byte>>): seq<Byte>
    requires forall i :: 0 <= i < |payloads| ==> |payloads[i]| < Uint32Bound
  {
    if payloads == [] then [] else EncodeFrame(payloads[0]) + EncodeFrames(payloads[1..])
  }

  /** A stream of well-formed frames reads back as exactly its payloads, one
      verdict per frame, in order. */
  lemma {:induction false} ReadEncodedFrames(payloads: seq<seq<Byte>>)
    requires forall i :: 0 <= i < |payloads| ==> |payloads[i]| <= MaxMessageLength
    ensures ReadFrames(EncodeFrames(payloads)) == seq(|payloads|, i requires 0 <= i < |payloads| => Complete(payloads[i]))
  {
    if payloads != [] {
      var rest := EncodeFrames(payloads[1..]);
      ReadEncodedFrame(payloads[0], rest);
      var input := EncodeFrame(payloads[0]) + rest;
      assert input[4 + |payloads[0]|..] == rest;
      ReadEncodedFrames(payloads[1..]);
    }
  }
}
