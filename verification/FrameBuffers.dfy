/**
 The in-place form of the codec (lib/icmp/icmp_frame.c) and the UART PHY that uses it
 (lib/icmp/icmp_phy_uart.c). Buffers and the frame structure are mutated as the source does it;
 what they then hold is stated with the value codec of module Frames.
 */
module FrameBuffers {
  import opened Common
  import opened Crc
  import opened Frames
  import opened Wire

  /** struct icmp_frame. The payload array has the configured maximum size. */
  class IcmpFrame {
    var kind: byte
    var msgId: byte
    var target: byte
    var length: byte
    const payload: array<byte>

    constructor (max: byte)
      ensures kind == 0 && msgId == 0 && target == 0 && length == 0
      ensures fresh(payload) && payload.Length == max && forall k :: 0 <= k < max ==> payload[k] == 0
    {
      kind, msgId, target, length := 0, 0, 0, 0;
      payload := new byte[max](_ => 0);
    }

    ghost function Value(): Frame
      requires length <= payload.Length
      reads this, payload
    {
      Frame(kind, msgId, target, payload[..length])
    }
  }

  /** Writes the header and the payload, the part of the buffer that the CRC covers. */
  method StoreBody(frame: IcmpFrame, buf: array<byte>)
    requires frame.length <= frame.payload.Length && frame.payload != buf && 4 + frame.length <= buf.Length
    modifies buf
    ensures buf[..] == Body(frame.Value()) + old(buf[..])[4 + frame.length..]
  {
    buf[0] := frame.kind;
    buf[1] := frame.msgId;
    buf[2] := frame.target;
    buf[3] := frame.length;
    forall k | 0 <= k < frame.length {
      buf[4 + k] := frame.payload[k];
    }
  }

  /** Copies a whole frame structure, payload padding included. */
  method CopyFrame(dst: IcmpFrame, src: IcmpFrame)
    requires dst.payload != src.payload && dst.payload.Length == src.payload.Length
    modifies dst, dst.payload
    ensures dst.kind == src.kind && dst.msgId == src.msgId && dst.target == src.target && dst.length == src.length
    ensures forall k :: 0 <= k < dst.payload.Length ==> dst.payload[k] == src.payload[k]
    ensures src.length <= src.payload.Length ==> dst.Value() == src.Value()
  {
    dst.kind, dst.msgId, dst.target, dst.length := src.kind, src.msgId, src.target, src.length;
    forall k | 0 <= k < dst.payload.Length {
      dst.payload[k] := src.payload[k];
    }
    assert src.length <= src.payload.Length ==> dst.payload[..src.length] == src.payload[..src.length];
  }

  /** Fills the payload of a frame from a packed one; the padding stays. */
  method LoadPayload(frame: IcmpFrame, buf: array<byte>)
    requires frame.length <= frame.payload.Length && frame.payload != buf && 4 + frame.length <= buf.Length
    modifies frame.payload
    ensures frame.payload[..frame.length] == buf[4..4 + frame.length]
    ensures forall k :: frame.length <= k < frame.payload.Length ==> frame.payload[k] == old(frame.payload[k])
  {
    forall k | 0 <= k < frame.length {
      frame.payload[k] := buf[4 + k];
    }
  }

  /** Writes the two checksum bytes. */
  method StoreCrc(buf: array<byte>, at: nat, crc: bv16)
    requires at + 2 <= buf.Length
    modifies buf
    ensures buf[..] == old(buf[..at]) + [High(crc), Low(crc)] + old(buf[at + 2..])
  {
    buf[at] := High(crc);
    buf[at + 1] := Low(crc);
  }

  /** The writing half of icmp_frame_pack: the body, and the CRC of the bytes just written. */
  method StoreFrame(frame: IcmpFrame, buf: array<byte>)
    requires frame.length <= frame.payload.Length && frame.payload != buf && 6 + frame.length <= buf.Length
    modifies buf
    ensures buf[..] == Encode(frame.Value()) + old(buf[..])[6 + frame.length..]
  {
    ghost var body, rest := Body(frame.Value()), buf[..][4 + frame.length..];
    StoreBody(frame, buf);
    assert buf[..4 + frame.length] == body;
    var crc := CalcCrc16(buf, 4 + frame.length);
    assert buf[6 + frame.length..] == rest[2..];
    StoreCrc(buf, 4 + frame.length, crc);
  }

  /** icmp_frame_pack: the bytes written are the encoding, and on any error none is written. */
  method Pack(frame: IcmpFrame?, buf: array?<byte>, bufLen: nat, max: byte) returns (r: int)
    requires frame != null ==> frame.payload.Length == max && frame.payload != buf
    requires buf != null ==> bufLen <= buf.Length
    modifies buf
    ensures frame == null || buf == null ==> r == -EINVAL
    ensures frame != null && buf != null ==>
              if frame.kind >= 5 || frame.length > max then r == -EINVAL
              else if 6 + frame.length > bufLen then r == -ENOBUFS
              else r == 6 + frame.length && buf[..] == Encode(frame.Value()) + old(buf[..])[r..]
    ensures buf != null && r < 0 ==> buf[..] == old(buf[..])
  {
    if frame == null || buf == null {
      return -EINVAL;
    }
    if frame.kind >= TYPE_INVALID {
      return -EINVAL;
    }
    if frame.length > max {
      return -EINVAL;
    }
    var frameLen := FrameSize(frame.length);
    if frameLen > bufLen {
      return -ENOBUFS;
    }
    StoreFrame(frame, buf);
    return frameLen;
  }

  /** icmp_frame_unpack: accepts exactly what decodes, zeroes the rest of the payload, and leaves
      the frame alone on any error. */
  method Unpack(frame: IcmpFrame?, buf: array?<byte>, bufLen: nat, max: byte) returns (r: int)
    requires frame != null ==> frame.payload.Length == max && frame.payload != buf
    requires buf != null ==> bufLen <= buf.Length && Readable(buf[..bufLen], max)
    modifies frame, if frame == null then null else frame.payload
    ensures r == 0 || r == -EINVAL
    ensures r == 0 <==> frame != null && buf != null && Decode(old(buf[..bufLen]), max).Some?
    ensures r == 0 ==>
              && bufLen >= 6 && frame.kind == old(buf[0]) <= 4 && frame.msgId == old(buf[1]) && frame.target == old(buf[2]) && frame.length == old(buf[3])
              && 4 + frame.length <= bufLen && frame.payload[..frame.length] == old(buf[4..4 + buf[3] as int])
    ensures r == 0 ==> frame.length <= max
    ensures r == 0 ==> frame.Value() == Decode(old(buf[..bufLen]), max).value
    ensures r == 0 ==> forall k :: frame.length <= k < max ==> frame.payload[k] == 0
    ensures r != 0 && frame != null ==> unchanged(frame) && unchanged(frame.payload)
  {
    if frame == null || buf == null {
      return -EINVAL;
    }
    if bufLen < MIN_FRAME_SIZE {
      return -EINVAL;
    }
    ghost var bytes := buf[..bufLen];
    var temp := new IcmpFrame(max);
    temp.kind := buf[0];
    temp.msgId := buf[1];
    temp.target := buf[2];
    temp.length := buf[3];
    if temp.kind >= TYPE_INVALID {
      return -EINVAL;
    }
    if temp.length > max {
      return -EINVAL;
    }
    var sentCrc := Join(buf[4 + temp.length], buf[5 + temp.length]);
    var calcCrc := CalcCrc16(buf, 4 + temp.length);
    assert buf[..4 + temp.length] == bytes[..4 + temp.length];
    if calcCrc != sentCrc {
      return -EINVAL;
    }
    LoadPayload(temp, buf);
    assert buf[4..4 + temp.length] == bytes[4..4 + temp.length];
    CopyFrame(frame, temp);
    return 0;
  }

  /** The UART PHY's two static buffers, both of the maximum frame size. */
  class UartPhy {
    const max: byte
    const rxBuf: array<byte>
    const frameBuf: array<byte>

    ghost predicate Valid() { rxBuf.Length == FrameSize(max) && frameBuf.Length == FrameSize(max) && rxBuf != frameBuf }

    constructor (max: byte)
      ensures Valid() && this.max == max && fresh(rxBuf) && fresh(frameBuf)
      ensures rxBuf[..] == seq(FrameSize(max), _ => 0)
    {
      this.max := max;
      rxBuf := new byte[FrameSize(max)](_ => 0);
      frameBuf := new byte[FrameSize(max)](_ => 0);
    }

    /** icmp_phy_uart_send; `txResult` is what uart_tx returns and `wire` what it is given. */
    method Send(frame: IcmpFrame, txResult: int) returns (r: int, wire: seq<byte>)
      requires Valid() && frame.payload.Length == max && frame.payload != frameBuf
      modifies frameBuf
      ensures frame.kind < TYPE_INVALID && frame.length <= max ==> r == txResult && wire == Encode(frame.Value())
      ensures !(frame.kind < TYPE_INVALID && frame.length <= max) ==> r == -EINVAL && wire == []
      ensures frame.kind <= 4 && frame.length <= max ==>
                && |wire| == 6 + frame.length
                && wire[0] == frame.kind && wire[1] == frame.msgId && wire[2] == frame.target && wire[3] == frame.length
                && wire[4..4 + frame.length] == frame.payload[..frame.length]
      ensures |wire| <= frameBuf.Length && frameBuf[..|wire|] == wire && forall k :: |wire| <= k < frameBuf.Length ==> frameBuf[k] == 0
    {
      if frame.length <= max {
        EncodeLayout(frame.Value());
      }
      forall k | 0 <= k < FrameSize(max) {
        frameBuf[k] := 0;
      }
      var frameLen := Pack(frame, frameBuf, FrameSize(max), max);
      if frameLen < 1 {
        return frameLen, [];
      }
      assert frameBuf[..frameLen] == Encode(frame.Value());
      return txResult, frameBuf[..frameLen];
    }

    /** The DMA writes a transfer over the start of the receive buffer; the rest keeps what it had. */
    method Transfer(bytes: seq<byte>)
      requires Valid() && |bytes| <= FrameSize(max)
      modifies rxBuf
      ensures rxBuf[..] == bytes + old(rxBuf[..])[|bytes|..]
    {
      forall k | 0 <= k < |bytes| {
        rxBuf[k] := bytes[k];
      }
    }

    /** UART_RX_BUF_RELEASED, once a frame has been taken from the slab: it is either filled and to be
        queued, and the buffer cleared, or left as it was and to be freed, and the buffer kept. */
    method RxBufReleased(frame: IcmpFrame) returns (queued: bool)
      requires Valid() && frame.payload.Length == max && frame.payload != rxBuf
      modifies frame, frame.payload, rxBuf
      ensures Readable(old(rxBuf[..]), max)
      ensures queued <==> Decode(old(rxBuf[..]), max).Some?
      ensures queued ==> frame.length <= max && frame.Value() == Decode(old(rxBuf[..]), max).value
      ensures queued ==> rxBuf[..] == seq(FrameSize(max), _ => 0)
      ensures !queued ==> rxBuf[..] == old(rxBuf[..]) && unchanged(frame) && unchanged(frame.payload)
    {
      assert rxBuf[..rxBuf.Length] == rxBuf[..];
      var ret := Unpack(frame, rxBuf, rxBuf.Length, max);
      if ret != 0 {
        return false;
      }
      ghost var got := frame.Value();
      forall k | 0 <= k < rxBuf.Length {
        rxBuf[k] := 0;
      }
      assert frame.Value() == got;
      return true;
    }
  }

  /** End to end: a frame arrives exactly when its type and length are valid. Then, whatever an earlier,
      rejected transfer left in the receiver's buffer, it is rebuilt field by field, and the buffer is clean for
      the next one; otherwise nothing is sent and the receiver keeps what it had. */
  method SendAndReceive(sender: UartPhy, receiver: UartPhy, frame: IcmpFrame, into: IcmpFrame) returns (arrived: bool)
    requires sender.Valid() && receiver.Valid() && sender.max == receiver.max
    requires sender.frameBuf != receiver.rxBuf
    requires frame != into && frame.payload != into.payload
    requires frame.payload.Length == into.payload.Length == sender.max
    requires {frame.payload, into.payload} !! {sender.frameBuf, receiver.rxBuf}
    modifies sender.frameBuf, receiver.rxBuf, into, into.payload
    ensures arrived <==> frame.kind < TYPE_INVALID && frame.length <= sender.max
    ensures arrived ==> into.length <= sender.max && into.Value() == old(frame.Value())
    ensures arrived ==> receiver.rxBuf[..] == seq(FrameSize(receiver.max), _ => 0)
    ensures !arrived ==> receiver.rxBuf[..] == old(receiver.rxBuf[..]) && unchanged(into) && unchanged(into.payload)
  {
    var r, wire := sender.Send(frame, 0);
    if r < 0 {
      return false;
    }
    ghost var stale := receiver.rxBuf[..];
    receiver.Transfer(wire);
    DecodeEncode(frame.Value(), stale[|wire|..], sender.max);
    arrived := receiver.RxBufReleased(into);
  }
}
