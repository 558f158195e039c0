/** Message frames on a TCP stream (`MessageFrame` in `network/tcp.rs`): a 32-bit
    little-endian length followed by the payload. */
module Framing {
  import opened Types

  type Byte = x: int | 0 <= x < 256

  const MAX_FRAME_SIZE: nat := 4 + 16 * 1024 * 1024
  const TWO32: nat := 0x1_0000_0000

  datatype Frame = Frame(length: nat, payload: seq<Byte>)

  datatype Created = Made(frame: Frame) | MessageTooLarge

  /** Reading one frame: the frame, or why there is none. */
  datatype Read = Got(frame: Frame) | LengthMissing | FrameTooLarge | PayloadMissing

  /** The length is stored as an unsigned 32-bit number, truncated if it were larger. */
  function New(payload: seq<Byte>): Created {
    if |payload| > MAX_FRAME_SIZE - 4 then MessageTooLarge else Made(Frame(|payload| % TWO32, payload))
  }

  function U32Le(n: nat): (bytes: seq<Byte>)
    requires n < TWO32
    ensures |bytes| == 4
  {
    [n % 256, n / 256 % 256, n / 65536 % 256, n / 16777216]
  }

  function FromU32Le(b: seq<Byte>): (n: nat)
    requires |b| == 4
    ensures n < TWO32
  {
    var b0: nat, b1: nat, b2: nat, b3: nat := b[0], b[1], b[2], b[3];
    b0 + 256 * b1 + 65536 * b2 + 16777216 * b3
  }

  lemma U32RoundTrip(n: nat)
    requires n < TWO32
    ensures FromU32Le(U32Le(n)) == n
  {
    assert n / 256 == 256 * (n / 65536) + n / 256 % 256;
    assert n / 65536 == 256 * (n / 16777216) + n / 65536 % 256;
  }

  lemma LastByte(q: nat, b: Byte)
    ensures (256 * q + b) / 256 == q && (256 * q + b) % 256 == b
  {
  }

  lemma Bytewise(n: nat)
    ensures n / 65536 == n / 256 / 256 && n / 16777216 == n / 256 / 256 / 256
  {
  }

  lemma U32Canonical(b: seq<Byte>)
    requires |b| == 4
    ensures U32Le(FromU32Le(b)) == b
  {
    var b0: nat, b1: nat, b2: nat, b3: nat := b[0], b[1], b[2], b[3];
    var q2 := 256 * b3 + b2;
    var q1 := 256 * q2 + b1;
    var n := 256 * q1 + b0;
    assert FromU32Le(b) == n;
    LastByte(q1, b0);
    LastByte(q2, b1);
    LastByte(b3, b2);
    Bytewise(n);
  }

  /** The number whose least significant byte comes first. */
  function LittleEndian(b: seq<Byte>): nat {
    if b == [] then 0
    else
      var low: nat := b[0];
      low + 256 * LittleEndian(b[1..])
  }

  lemma FromIsLittleEndian(b: seq<Byte>)
    requires |b| == 4
    ensures FromU32Le(b) == LittleEndian(b)
  {
    assert b[1..][1..] == b[2..] && b[2..][1..] == b[3..] && b[3..][1..] == [];
    assert LittleEndian(b[3..]) == b[3];
    assert LittleEndian(b[2..]) == b[2] + 256 * LittleEndian(b[3..]);
    assert LittleEndian(b[1..]) == b[1] + 256 * LittleEndian(b[2..]);
  }

  function ToBytes(f: Frame): seq<Byte>
    requires f.length < TWO32
  {
    U32Le(f.length) + f.payload
  }

  /** What reading one frame from a stream gives, and what it leaves when it succeeds. */
  function FromStream(s: seq<Byte>): (r: (Read, seq<Byte>))
    ensures r.0.Got? ==> |r.1| < |s|
  {
    if |s| < 4 then (LengthMissing, s)
    else
      var n := FromU32Le(s[..4]);
      if n > MAX_FRAME_SIZE - 4 then (FrameTooLarge, s)
      else if |s| - 4 < n then (PayloadMissing, s)
      else (Got(Frame(n, s[4..4 + n])), s[4 + n..])
  }

  // ---- The code, step by step ----

  /** A reader over the bytes that will ever arrive. */
  class Reader {
    const data: seq<Byte>
    var pos: nat

    ghost predicate Valid()
      reads this
    {
      pos <= |data|
    }

    function Remaining(): seq<Byte>
      reads this
      requires Valid()
    {
      data[pos..]
    }

    constructor (data: seq<Byte>)
      ensures Valid() && Remaining() == data
    {
      this.data, pos := data, 0;
    }

    /** Fills the whole buffer or fails, having then consumed what there was. */
    method ReadExact(buffer: array<Byte>) returns (ok: bool)
      requires Valid()
      modifies this, buffer
      ensures Valid()
      ensures ok <==> |old(Remaining())| >= buffer.Length
      ensures ok ==> old(Remaining()) == buffer[..] + Remaining()
    {
      var start := pos;
      var i := 0;
      while i < buffer.Length && pos < |data|
        invariant 0 <= i <= buffer.Length && start + i == pos <= |data|
        invariant buffer[..i] == data[start..pos]
      {
        buffer[i] := data[pos];
        i, pos := i + 1, pos + 1;
      }
      ok := i == buffer.Length;
      if ok {
        assert buffer[..] == buffer[..i];
        assert data[start..] == data[start..pos] + data[pos..];
      }
    }

    method ReadU32Le() returns (n: Option<nat>)
      requires Valid()
      modifies this
      ensures Valid()
      ensures n.Some? <==> |old(Remaining())| >= 4
      ensures n.Some? ==> n.value == FromU32Le(old(Remaining())[..4]) && Remaining() == old(Remaining())[4..]
    {
      ghost var s := Remaining();
      var word := new Byte[4];
      var ok := ReadExact(word);
      if !ok {
        return None;
      }
      assert s[..4] == word[..] && s[4..] == Remaining();
      return Some(FromU32Le(word[..]));
    }
  }

  method ReadFrame(reader: Reader) returns (r: Read)
    requires reader.Valid()
    modifies reader
    ensures reader.Valid()
    ensures r == FromStream(old(reader.Remaining())).0
    ensures r.Got? ==> reader.Remaining() == FromStream(old(reader.Remaining())).1
  {
    ghost var s := reader.Remaining();
    var length := reader.ReadU32Le();
    if length.None? {
      return LengthMissing;
    }
    if length.value > MAX_FRAME_SIZE - 4 {
      return FrameTooLarge;
    }
    var payload := new Byte[length.value];
    var ok := reader.ReadExact(payload);
    if !ok {
      return PayloadMissing;
    }
    ghost var n := length.value;
    assert s[4..] == payload[..] + reader.Remaining();
    assert payload[..] == s[4..][..n] == s[4..4 + n] && reader.Remaining() == s[4..][n..] == s[4 + n..];
    return Got(Frame(length.value, payload[..]));
  }

  method WriteFrame(f: Frame) returns (bytes: seq<Byte>)
    requires f.length < TWO32
    ensures bytes == ToBytes(f)
  {
    bytes := [];
    bytes := bytes + [f.length % 256, f.length / 256 % 256, f.length / 65536 % 256, f.length / 16777216];
    bytes := bytes + f.payload;
  }

  // ---- Round trips ----

  /** The bytes of a payload that `New` accepts. */
  function Encode(payload: seq<Byte>): seq<Byte>
    requires New(payload).Made?
  {
    ToBytes(New(payload).frame)
  }

  /** A stream that starts with the length of the payload that follows. */
  lemma ReadWhole(head: seq<Byte>, payload: seq<Byte>, rest: seq<Byte>)
    requires |head| == 4 && FromU32Le(head) == |payload| <= MAX_FRAME_SIZE - 4
    ensures FromStream(head + payload + rest) == (Got(Frame(|payload|, payload)), rest)
  {
    var s := head + payload + rest;
    assert s[..4] == head && s[4..4 + |payload|] == payload && s[4 + |payload|..] == rest;
  }

  lemma FrameRoundTrip(payload: seq<Byte>, rest: seq<Byte>)
    requires New(payload).Made?
    ensures FromStream(Encode(payload) + rest) == (Got(New(payload).frame), rest)
  {
    var head := U32Le(|payload|);
    U32RoundTrip(|payload|);
    ReadWhole(head, payload, rest);
    assert New(payload).frame == Frame(|payload|, payload);
  }

  /** Whatever is read as a frame is the encoding of its payload: no other bytes decode
      to it, and `New` accepts it. */
  lemma FrameCanonical(s: seq<Byte>)
    requires FromStream(s).0.Got?
    ensures var payload := FromStream(s).0.frame.payload;
            New(payload) == Made(FromStream(s).0.frame) && s == Encode(payload) + FromStream(s).1
  {
    U32Canonical(s[..4]);
    var n := FromU32Le(s[..4]);
    assert s == s[..4] + s[4..4 + n] + s[4 + n..];
  }

  /** `New` and the reader accept the same lengths. */
  lemma SameLengthsAccepted(payload: seq<Byte>)
    requires |payload| < TWO32
    ensures New(payload).Made? <==> FromStream(U32Le(|payload|) + payload).0.Got?
    ensures New(payload).MessageTooLarge? <==> FromStream(U32Le(|payload|) + payload).0.FrameTooLarge?
  {
    var s := U32Le(|payload|) + payload;
    U32RoundTrip(|payload|);
    assert s[..4] == U32Le(|payload|);
  }

  /** A frame carries at most 16 MiB, and its length field is the length of its payload. */
  lemma AcceptedLengths(payload: seq<Byte>)
    ensures New(payload).Made? <==> |payload| <= 16 * 1024 * 1024
    ensures New(payload).Made? ==> New(payload).frame.length == |payload| && New(payload).frame.payload == payload
  {
  }

  /** What a reader finds is told by the first four bytes, least significant first, and by
      how many follow. */
  lemma ReadTells(s: seq<Byte>)
    ensures FromStream(s).0 == LengthMissing <==> |s| < 4
    ensures |s| >= 4 ==>
              var n := LittleEndian(s[..4]);
              && (FromStream(s).0 == FrameTooLarge <==> n > 16 * 1024 * 1024)
              && (FromStream(s).0 == PayloadMissing <==> n <= 16 * 1024 * 1024 && |s| < 4 + n)
              && (n <= 16 * 1024 * 1024 && 4 + n <= |s| ==> FromStream(s) == (Got(Frame(n, s[4..4 + n])), s[4 + n..]))
  {
    if |s| >= 4 {
      FromIsLittleEndian(s[..4]);
    }
  }

  ghost predicate AllFit(payloads: seq<seq<Byte>>) {
    forall i | 0 <= i < |payloads| :: New(payloads[i]).Made?
  }

  function EncodeAll(payloads: seq<seq<Byte>>): seq<Byte>
    requires AllFit(payloads)
  {
    if payloads == [] then [] else Encode(payloads[0]) + EncodeAll(payloads[1..])
  }

  /** Reads frames until one cannot be read; tells why, and what was left. */
  function DecodeAll(s: seq<Byte>): (seq<seq<Byte>>, Read, seq<Byte>)
    decreases |s|
  {
    var (r, rest) := FromStream(s);
    if r.Got? then
      var (more, end, left) := DecodeAll(rest);
      ([r.frame.payload] + more, end, left)
    else ([], r, s)
  }

  /** Reading a stream that starts with an encoded frame. */
  lemma DecodeFirst(payload: seq<Byte>, rest: seq<Byte>)
    requires New(payload).Made?
    ensures var (more, end, left) := DecodeAll(rest);
            DecodeAll(Encode(payload) + rest) == ([payload] + more, end, left)
  {
    FrameRoundTrip(payload, rest);
  }

  /** Decoding the concatenation of encoded frames gives back exactly the payloads. */
  lemma {:induction false} StreamRoundTrip(payloads: seq<seq<Byte>>)
    requires AllFit(payloads)
    ensures DecodeAll(EncodeAll(payloads)) == (payloads, LengthMissing, [])
  {
    if payloads != [] {
      DecodeFirst(payloads[0], EncodeAll(payloads[1..]));
      StreamRoundTrip(payloads[1..]);
      assert [payloads[0]] + payloads[1..] == payloads;
    }
  }

  /** A stream that ends within the payload its length announces. */
  lemma ReadPart(head: seq<Byte>, part: seq<Byte>)
    requires |head| == 4 && |part| < FromU32Le(head) <= MAX_FRAME_SIZE - 4
    ensures FromStream(head + part) == (PayloadMissing, head + part)
  {
    assert (head + part)[..4] == head;
  }

  /** An encoded frame cut short cannot be read, and not because of its length. */
  lemma CutFrame(payload: seq<Byte>, s: seq<Byte>)
    requires New(payload).Made? && s <= Encode(payload) && |s| < |Encode(payload)|
    ensures FromStream(s) == (if |s| < 4 then LengthMissing else PayloadMissing, s)
  {
    if |s| >= 4 {
      var head := U32Le(|payload|);
      U32RoundTrip(|payload|);
      assert s == head + payload[..|s| - 4];
      ReadPart(head, payload[..|s| - 4]);
    }
  }

  /** `k` frames arrived whole in `s`, and no more. */
  ghost predicate WholeFrames(payloads: seq<seq<Byte>>, s: seq<Byte>, k: nat)
    requires AllFit(payloads)
  {
    && k <= |payloads|
    && |EncodeAll(payloads[..k])| <= |s|
    && (k < |payloads| ==> |s| < |EncodeAll(payloads[..k + 1])|)
  }

  lemma EncodeFirst(payloads: seq<seq<Byte>>, k: nat)
    requires AllFit(payloads) && 0 < k <= |payloads|
    ensures |EncodeAll(payloads[..k])| == |Encode(payloads[0])| + |EncodeAll(payloads[1..][..k - 1])|
  {
    assert payloads[..k][1..] == payloads[1..][..k - 1];
  }

  lemma OneMoreWhole(payloads: seq<seq<Byte>>, s: seq<Byte>, k: nat)
    requires AllFit(payloads) && payloads != [] && |Encode(payloads[0])| <= |s|
    requires WholeFrames(payloads[1..], s[|Encode(payloads[0])|..], k)
    ensures WholeFrames(payloads, s, k + 1)
  {
    EncodeFirst(payloads, k + 1);
    if k + 1 < |payloads| {
      EncodeFirst(payloads, k + 2);
    }
  }

  /** What decoding a stream cut off at `s` comes to. */
  ghost predicate DecodesWhole(payloads: seq<seq<Byte>>, s: seq<Byte>)
    requires AllFit(payloads)
  {
    && DecodeAll(s).0 <= payloads
    && WholeFrames(payloads, s, |DecodeAll(s).0|)
    && DecodeAll(s).1 in {LengthMissing, PayloadMissing}
  }

  lemma WholeFirstFrame(payloads: seq<seq<Byte>>, rest: seq<Byte>)
    requires AllFit(payloads) && payloads != [] && DecodesWhole(payloads[1..], rest)
    ensures DecodesWhole(payloads, Encode(payloads[0]) + rest)
  {
    var s := Encode(payloads[0]) + rest;
    assert s[|Encode(payloads[0])|..] == rest;
    DecodeFirst(payloads[0], rest);
    OneMoreWhole(payloads, s, |DecodeAll(rest).0|);
  }

  lemma CutFirstFrame(payloads: seq<seq<Byte>>, s: seq<Byte>)
    requires AllFit(payloads) && payloads != [] && s <= Encode(payloads[0]) && |s| < |Encode(payloads[0])|
    ensures DecodesWhole(payloads, s)
  {
    CutFrame(payloads[0], s);
    EncodeFirst(payloads, 1);
  }

  /** Decoding a truncated stream gives exactly the payloads of the frames that arrived
      whole, and then finds bytes missing. */
  lemma {:induction false} TruncatedStream(payloads: seq<seq<Byte>>, s: seq<Byte>)
    requires AllFit(payloads) && s <= EncodeAll(payloads)
    ensures DecodesWhole(payloads, s)
  {
    if payloads != [] {
      var first, tail := Encode(payloads[0]), payloads[1..];
      if |first| <= |s| {
        var rest := s[|first|..];
        assert s == first + rest && rest <= EncodeAll(tail);
        TruncatedStream(tail, rest);
        WholeFirstFrame(payloads, rest);
      } else {
        CutFirstFrame(payloads, s);
      }
    }
  }
}
