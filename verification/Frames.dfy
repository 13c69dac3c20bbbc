/** The ICMP frame codec, lib/icmp/icmp_frame.c: packing into and unpacking from a byte buffer. */
module Frames {
  import opened Common
  import opened Crc
  import opened Wire

  const HEADER_SIZE := 4
  const CRC_SIZE := 2
  const MIN_FRAME_SIZE := HEADER_SIZE + CRC_SIZE

  function FrameSize(payloadLen: nat): nat { HEADER_SIZE + CRC_SIZE + payloadLen }

  predicate WellFormed(f: Frame, max: byte) {
    f.kind < TYPE_INVALID && |f.payload| <= max
  }

  function Body(f: Frame): seq<byte>
    requires |f.payload| < 256
  {
    [f.kind, f.msgId, f.target, |f.payload|] + f.payload
  }

  function WithCrc(body: seq<byte>): seq<byte> { body + [High(Crc16(body)), Low(Crc16(body))] }

  function Encode(f: Frame): seq<byte>
    requires |f.payload| < 256
  {
    WithCrc(Body(f))
  }

  /** A type and a declared length that pass validation; the length is then trusted. */
  predicate HeaderAccepted(buf: seq<byte>, max: byte) {
    |buf| >= MIN_FRAME_SIZE && buf[0] < TYPE_INVALID && buf[3] <= max
  }

  /** The source never compares the declared length with the buffer: its callers must provide the room. */
  predicate Readable(buf: seq<byte>, max: byte) {
    HeaderAccepted(buf, max) ==> FrameSize(buf[3]) <= |buf|
  }

  function Decode(buf: seq<byte>, max: byte): Option<Frame>
    requires Readable(buf, max)
  {
    if !HeaderAccepted(buf, max) then None else
    var len := buf[3];
    if Crc16(buf[..4 + len]) != Join(buf[4 + len], buf[5 + len]) then None else
    Some(Frame(buf[0], buf[1], buf[2], buf[4..4 + len]))
  }

  // ---- the codec's laws ----------------------------------------------------------------

  /** Unpacking what was packed, whatever bytes follow, gives the frame back. */
  lemma DecodeEncode(f: Frame, tail: seq<byte>, max: byte)
    requires WellFormed(f, max)
    ensures Readable(Encode(f) + tail, max)
    ensures Decode(Encode(f) + tail, max) == Some(f)
  {
    var buf, n := Encode(f) + tail, |f.payload|;
    assert buf[..4 + n] == Body(f);
    assert buf[4..4 + n] == f.payload;
    JoinSplit(Crc16(Body(f)));
  }

  /** Whatever unpacking accepts is well formed, and packing it again reproduces its bytes. */
  lemma EncodeDecode(buf: seq<byte>, max: byte)
    requires Readable(buf, max) && Decode(buf, max).Some?
    ensures var f := Decode(buf, max).value;
            WellFormed(f, max) && Encode(f) == buf[..FrameSize(|f.payload|)]
  {
    var f, n := Decode(buf, max).value, buf[3];
    assert Body(f) == buf[..4 + n];
    SplitJoin(buf[4 + n], buf[5 + n]);
    assert buf[..6 + n] == buf[..4 + n] + [buf[4 + n], buf[5 + n]];
  }

  /** Frames are self-delimiting: one buffer cannot start with two different frames. */
  lemma EncodePrefixFree(f: Frame, g: Frame, s: seq<byte>, t: seq<byte>, max: byte)
    requires WellFormed(f, max) && WellFormed(g, max) && Encode(f) + s == Encode(g) + t
    ensures f == g && s == t
  {
    DecodeEncode(f, s, max);
    DecodeEncode(g, t, max);
    assert s == (Encode(f) + s)[|Encode(f)|..] && t == (Encode(g) + t)[|Encode(g)|..];
  }

  /** The bytes of a frame: type, id, target and length, the payload, and the checksum of all of these, high
      byte first. */
  lemma EncodeLayout(f: Frame)
    requires |f.payload| < 256
    ensures var e, n := Encode(f), |f.payload|;
      && |e| == 6 + n
      && e[0] == f.kind && e[1] == f.msgId && e[2] == f.target && e[3] == n
      && (forall k :: 0 <= k < n ==> e[4 + k] == f.payload[k])
      && Join(e[4 + n], e[5 + n]) == Crc16(e[..4 + n])
  {
    assert Encode(f)[..4 + |f.payload|] == Body(f);
    JoinSplit(Crc16(Body(f)));
  }

  // ---- error detection --------------------------------------------------------------------

  /** The adjacent positions `i`, `i + 1` in a frame with `n` payload bytes, but for the pair made of
      the last payload byte and the first CRC byte. */
  predicate Guarded(i: nat, n: nat) { i + 1 < 4 + n || i == 4 + n }

  /** An alteration of one or two adjacent bytes that leaves the declared length alone is always
      rejected, except across the end of the payload. */
  lemma DetectsPair(f: Frame, tail: seq<byte>, max: byte, buf: seq<byte>, i: nat)
    requires WellFormed(f, max) && Guarded(i, |f.payload|)
    requires DifferOnlyAtPair(Encode(f) + tail, buf, i) && buf != Encode(f) + tail
    requires buf[3] == |f.payload|
    ensures Readable(buf, max) && Decode(buf, max).None?
  {
    var good, n := Encode(f) + tail, |f.payload|;
    var k :| 0 <= k < |buf| && buf[k] != good[k];
    assert good[..4 + n] == Body(f);
    JoinSplit(Crc16(Body(f)));
    if i == 4 + n {
      assert buf[..4 + n] == good[..4 + n];
      SplitJoin(buf[4 + n], buf[5 + n]);
      SplitJoin(good[4 + n], good[5 + n]);
    } else {
      assert buf[..4 + n][k] != good[..4 + n][k];
      assert DifferOnlyAtPair(good[..4 + n], buf[..4 + n], i);
      PairErrorChangesCrc(SEED, good[..4 + n], buf[..4 + n], i);
    }
  }

  /** In particular, so is any change of one byte other than the length. */
  lemma DetectsByte(f: Frame, tail: seq<byte>, max: byte, i: nat, x: byte)
    requires WellFormed(f, max) && i != 3 && i < FrameSize(|f.payload|)
    requires x != (Encode(f) + tail)[i]
    ensures var buf := (Encode(f) + tail)[i := x];
            Readable(buf, max) && Decode(buf, max).None?
  {
    var good, n := Encode(f) + tail, |f.payload|;
    var buf := good[i := x];
    assert buf[i] != good[i];
    var first := if Guarded(i, n) then i else i - 1;
    assert DifferOnlyAtPair(good, buf, first);
    DetectsPair(f, tail, max, buf, first);
  }

  /** Flipping the top bits of the last byte keeps the low byte of the checksum. */
  lemma FlippedKeepsLow(head: seq<byte>, d: byte)
    ensures Low(Crc16(head + [d])) == Low(Crc16(head + [FlipTop(d)])) && FlipTop(d) != d
  {
    var s := CrcFrom(SEED, head);
    CrcAppend(SEED, head, [d]);
    CrcAppend(SEED, head, [FlipTop(d)]);
    CrcOne(s, d);
    CrcOne(s, FlipTop(d));
    FlipTopDifference(s, d);
    SameLowByte(Update(s, d), Update(s, FlipTop(d)));
  }

  /** The exception is real: every frame with a payload has a look-alike that differs from it in the
      last payload byte and the first CRC byte only, and unpacking accepts that one as well. */
  lemma UndetectedAcrossPayloadEnd(f: Frame, tail: seq<byte>, max: byte) returns (g: Frame)
    requires WellFormed(f, max) && f.payload != []
    ensures g != f && |g.payload| == |f.payload| && g.kind == f.kind && g.msgId == f.msgId && g.target == f.target
    ensures DifferOnlyAtPair(Encode(f) + tail, Encode(g) + tail, 3 + |f.payload|)
    ensures Readable(Encode(g) + tail, max) && Decode(Encode(g) + tail, max) == Some(g)
  {
    var n := |f.payload|;
    var p, d := f.payload[..n - 1], f.payload[n - 1];
    g := f.(payload := p + [FlipTop(d)]);
    var head := [f.kind, f.msgId, f.target, n] + p;
    FlippedKeepsLow(head, d);
    assert Body(f) == head + [d] && Body(g) == head + [FlipTop(d)];
    assert g.payload[n - 1] == FlipTop(d);
    DecodeEncode(g, tail, max);
  }

  /** The length byte is another exception: every frame that leaves two bytes of room is what becomes of some
      longer frames when only their length byte is altered, for the longer payload can hold its checksum. */
  lemma LengthByteUndetected(g: Frame, rest: seq<byte>, tail: seq<byte>, max: byte) returns (f: Frame)
    requires WellFormed(g, max) && |g.payload| + 2 + |rest| <= max
    ensures WellFormed(f, max) && |f.payload| == |g.payload| + 2 + |rest|
    ensures var buf := (Encode(f) + tail)[3 := |g.payload|];
      Readable(buf, max) && Decode(buf, max) == Some(g)
  {
    var n := |g.payload|;
    f := g.(payload := Encode(g)[4..] + rest);
    var buf := (Encode(f) + tail)[3 := n];
    var more := rest + [High(Crc16(Body(f))), Low(Crc16(Body(f)))] + tail;
    assert buf == Encode(g) + more;
    DecodeEncode(g, more, max);
  }

  // ---- exactly which bytes are protected ----------------------------------------------------------

  /** The frame and its altered copy, for the smallest payload limit. */
  const SHORT := Frame(TYPE_COMMAND, 24, 2, [0xBF])
  const EMPTIED := Frame(TYPE_COMMAND, 24, 2, [])

  lemma ShortCrcs()
    ensures Crc16(Body(EMPTIED)) == 0xBF80 && Crc16(Body(SHORT)) == 0x80FE
  {
    ShortUpdates();
    CrcBytes(SEED, 1, [24, 2, 0]);
    CrcBytes(0x807E, 24, [2, 0]);
    CrcBytes(0x2A00, 2, [0]);
    CrcBytes(0xC1AB, 0, []);
    CrcBytes(SEED, 1, [24, 2, 1, 0xBF]);
    CrcBytes(0x807E, 24, [2, 1, 0xBF]);
    CrcBytes(0x2A00, 2, [1, 0xBF]);
    CrcBytes(0xC1AB, 1, [0xBF]);
    CrcBytes(0x7F41, 0xBF, []);
    assert Body(EMPTIED) == [1] + [24, 2, 0] && [24, 2, 0] == [24] + [2, 0] && [2, 0] == [2] + [0] && [0] == [0] + [];
    assert Body(SHORT) == [1] + [24, 2, 1, 0xBF] && [24, 2, 1, 0xBF] == [24] + [2, 1, 0xBF];
    assert [2, 1, 0xBF] == [2] + [1, 0xBF] && [1, 0xBF] == [1] + [0xBF] && [0xBF] == [0xBF] + [];
  }

  lemma ShortUpdates()
    ensures Update(SEED, 1) == 0x807E && Update(0x807E, 24) == 0x2A00 && Update(0x2A00, 2) == 0xC1AB
    ensures Update(0xC1AB, 0) == 0xBF80 && Update(0xC1AB, 1) == 0x7F41 && Update(0x7F41, 0xBF) == 0x80FE
  {
  }

  lemma CrcBytes(c: bv16, d: byte, rest: seq<byte>)
    ensures CrcFrom(c, [d] + rest) == CrcFrom(Update(c, d), rest)
  {
    assert ([d] + rest)[1..] == rest;
  }

  /** A frame whose byte `i` is altered to `x`, and which is accepted all the same. */
  ghost predicate ByteMissed(f: Frame, tail: seq<byte>, max: byte, i: nat, x: byte) {
    && WellFormed(f, max) && i < FrameSize(|f.payload|) && x != (Encode(f) + tail)[i]
    && var buf := (Encode(f) + tail)[i := x];
       Readable(buf, max) && Decode(buf, max).Some?
  }

  lemma ShortBytes()
    ensures Encode(SHORT) == [1, 24, 2, 1, 0xBF, 0x80, 0xFE] && Encode(EMPTIED) == [1, 24, 2, 0, 0xBF, 0x80]
  {
    ShortCrcs();
    SplitJoin(0x80, 0xFE);
    SplitJoin(0xBF, 0x80);
    assert Join(0x80, 0xFE) == 0x80FE && Join(0xBF, 0x80) == 0xBF80;
  }

  lemma OneByteApart(a: seq<byte>, b: seq<byte>)
    requires a == [1, 24, 2, 1, 0xBF, 0x80, 0xFE] && b == [1, 24, 2, 0, 0xBF, 0x80]
    ensures (a + [])[3 := 0] == b + [0xFE] && (a + [])[3] == 1
  {
  }

  lemma ShortAltered()
    ensures (Encode(SHORT) + [])[3 := 0] == Encode(EMPTIED) + [0xFE] && (Encode(SHORT) + [])[3] == 1
  {
    ShortBytes();
    OneByteApart(Encode(SHORT), Encode(EMPTIED));
  }

  lemma MissedByLength(f: Frame, g: Frame, more: seq<byte>, max: byte, x: byte)
    requires WellFormed(f, max) && WellFormed(g, max) && x != (Encode(f) + [])[3]
    requires (Encode(f) + [])[3 := x] == Encode(g) + more
    ensures ByteMissed(f, [], max, 3, x)
  {
    DecodeEncode(g, more, max);
  }

  /** The altered byte at `i` is noticed in every frame exactly when it is not the length byte, or when the
      payload limit is 0 and there is only one length. */
  lemma ByteAlwaysDetectedIff(max: byte, i: nat)
    ensures (forall f: Frame, tail: seq<byte>, x: byte :: !ByteMissed(f, tail, max, i, x)) <==> i != 3 || max == 0
  {
    if i != 3 {
      forall f: Frame, tail: seq<byte>, x: byte ensures !ByteMissed(f, tail, max, i, x) {
        if WellFormed(f, max) && i < FrameSize(|f.payload|) && x != (Encode(f) + tail)[i] {
          DetectsByte(f, tail, max, i, x);
        }
      }
    } else if max > 0 {
      ShortAltered();
      MissedByLength(SHORT, EMPTIED, [0xFE], max, 0);
    }
  }

  /** A frame altered within the bytes `i` and `i + 1`, with its length kept, and accepted all the same. */
  ghost predicate PairMissed(f: Frame, tail: seq<byte>, max: byte, i: nat, buf: seq<byte>) {
    && WellFormed(f, max) && DifferOnlyAtPair(Encode(f) + tail, buf, i) && buf != Encode(f) + tail && buf[3] == |f.payload|
    && Readable(buf, max) && Decode(buf, max).Some?
  }

  /** Among the frames with `n` payload bytes, an alteration within two adjacent bytes of the frame that keeps
      the length is always noticed exactly when the two are not the last payload byte and the first CRC byte. */
  lemma PairAlwaysDetectedIff(max: byte, n: nat, i: nat)
    requires n <= max && i <= 4 + n
    ensures (forall f: Frame, tail: seq<byte>, buf: seq<byte> :: |f.payload| == n ==> !PairMissed(f, tail, max, i, buf)) <==>
            i != 3 + n || n == 0
  {
    if i != 3 + n || n == 0 {
      forall f: Frame, tail: seq<byte>, buf: seq<byte> | |f.payload| == n ensures !PairMissed(f, tail, max, i, buf) {
        if WellFormed(f, max) && DifferOnlyAtPair(Encode(f) + tail, buf, i) && buf != Encode(f) + tail && buf[3] == n {
          if i == 3 + n {
            FirstCrcByteOnly(f, tail, max, buf);
          } else {
            DetectsPair(f, tail, max, buf, i);
          }
        }
      }
    } else {
      var f := Frame(TYPE_COMMAND, 0, 0, seq(n, _ => 0));
      var g := UndetectedAcrossPayloadEnd(f, [], max);
      DifferentEncodings(f, g);
      assert PairMissed(f, [], max, i, Encode(g) + []);
    }
  }

  lemma FirstCrcByteOnly(f: Frame, tail: seq<byte>, max: byte, buf: seq<byte>)
    requires WellFormed(f, max) && f.payload == []
    requires DifferOnlyAtPair(Encode(f) + tail, buf, 3) && buf != Encode(f) + tail && buf[3] == 0
    ensures Readable(buf, max) && Decode(buf, max).None?
  {
    var good := Encode(f) + tail;
    assert buf == good[4 := buf[4]];
    DetectsByte(f, tail, max, 4, buf[4]);
  }

  lemma DifferentEncodings(f: Frame, g: Frame)
    requires |f.payload| == |g.payload| < 256 && f != g && f.kind == g.kind && f.msgId == g.msgId && f.target == g.target
    ensures Encode(f) + [] != Encode(g) + []
  {
    var k :| 0 <= k < |f.payload| && f.payload[k] != g.payload[k];
    assert (Encode(f) + [])[4 + k] == f.payload[k] && (Encode(g) + [])[4 + k] == g.payload[k];
  }
}
