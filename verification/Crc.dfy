/**
 The CRC that lib/icmp/icmp_frame.h takes from the kernel (`crc16_ansi`): reflected polynomial
 0x8005, the byte-wise algorithm of section 6.2.2 of the MODBUS over Serial Line Specification
 and Implementation Guide V1.02.
 */
module Crc {
  import opened Wire

  const SEED: bv16 := 0xFFFF

  // ---- bytes and words ----------------------------------------------------------------

  function Widen(d: byte): bv16 { (d as bv8) as bv16 }

  function High(c: bv16): byte { ((c >> 8) as bv8) as int }

  function Low(c: bv16): byte { ((c & 0xFF) as bv8) as int }

  function Join(hi: byte, lo: byte): bv16 { (Widen(hi) << 8) | Widen(lo) }

  lemma Bv8RoundTrip(b: bv8)
    ensures (b as int) as bv8 == b
  {
  }

  lemma Bv8Max(b: bv8)
    requires b == 255
    ensures b as int == 255
  {
  }

  lemma Bv8Increment(b: bv8)
    requires b != 255
    ensures (b + 1) as int == b as int + 1
  {
  }

  lemma {:induction false} ByteRoundTrip(d: byte)
    ensures (d as bv8) as int == d
  {
    if d > 0 {
      ByteRoundTrip(d - 1);
      var b := (d - 1) as bv8;
      if b == 255 {
        Bv8Max(b);
        assert false;
      }
      Bv8Increment(b);
      Bv8RoundTrip(b + 1);
    }
  }

  lemma SplitWord(c: bv16)
    ensures (((c >> 8) as bv8) as bv16 << 8) | (((c & 0xFF) as bv8) as bv16) == c
  {
  }

  lemma JoinBytes(h: bv8, l: bv8)
    ensures ((((h as bv16) << 8) | (l as bv16)) >> 8) as bv8 == h
    ensures ((((h as bv16) << 8) | (l as bv16)) & 0xFF) as bv8 == l
  {
  }

  /** Storing a word as two bytes and reading it back, in both directions. */
  lemma JoinSplit(c: bv16)
    ensures Join(High(c), Low(c)) == c
  {
    Bv8RoundTrip((c >> 8) as bv8);
    Bv8RoundTrip((c & 0xFF) as bv8);
    SplitWord(c);
  }

  lemma SplitJoin(hi: byte, lo: byte)
    ensures High(Join(hi, lo)) == hi && Low(Join(hi, lo)) == lo
  {
    JoinBytes(hi as bv8, lo as bv8);
    ByteRoundTrip(hi);
    ByteRoundTrip(lo);
  }

  // ---- the checksum ---------------------------------------------------------------------

  function Shift(c: bv16): bv16 { if c & 1 == 1 then (c >> 1) ^ 0xA001 else c >> 1 }

  function Mix(c: bv16, d: bv16): bv16 { c ^ d }

  function Shifts(c: bv16, n: nat): bv16 { if n == 0 then c else Shift(Shifts(c, n - 1)) }

  function Update(c: bv16, d: byte): bv16 { Shifts(Mix(c, Widen(d)), 8) }

  function CrcFrom(c: bv16, data: seq<byte>): bv16
    decreases data
  {
    if data == [] then c else CrcFrom(Update(c, data[0]), data[1..])
  }

  function Crc16(data: seq<byte>): bv16 { CrcFrom(SEED, data) }

  lemma {:induction false} CrcAppend(c: bv16, a: seq<byte>, b: seq<byte>)
    ensures CrcFrom(c, a + b) == CrcFrom(CrcFrom(c, a), b)
    decreases a
  {
    if a == [] {
      assert a + b == b;
    } else {
      assert (a + b)[0] == a[0] && (a + b)[1..] == a[1..] + b;
      CrcAppend(Update(c, a[0]), a[1..], b);
    }
  }

  /** The two loops of the checksum: over the bytes, and over the eight bits of each byte. */
  method CalcCrc16(buf: array<byte>, len: nat) returns (crc: bv16)
    requires len <= buf.Length
    ensures crc == Crc16(buf[..len])
  {
    crc := SEED;
    for i := 0 to len
      invariant crc == Crc16(buf[..i])
    {
      ghost var before := crc;
      crc := Mix(crc, Widen(buf[i]));
      for j := 0 to 8
        invariant crc == Shifts(Mix(before, Widen(buf[i])), j)
      {
        crc := Shift(crc);
      }
      assert buf[..i + 1] == buf[..i] + [buf[i]];
      CrcAppend(SEED, buf[..i], [buf[i]]);
      assert CrcFrom(before, [buf[i]]) == CrcFrom(Update(before, buf[i]), []);
    }
  }

  // ---- why a burst of two bytes always changes the checksum --------------------------------

  lemma ShiftInjective(a: bv16, b: bv16)
    requires Shift(a) == Shift(b)
    ensures a == b
  {
  }

  lemma {:induction false} ShiftsInjective(a: bv16, b: bv16, n: nat)
    requires Shifts(a, n) == Shifts(b, n)
    ensures a == b
  {
    if n > 0 {
      ShiftInjective(Shifts(a, n - 1), Shifts(b, n - 1));
      ShiftsInjective(a, b, n - 1);
    }
  }

  /** While the difference of two registers keeps its top bit clear, shifting back doubles it. */
  lemma ShiftDifference(p: bv16, q: bv16)
    requires Mix(Shift(p), Shift(q)) & 0x8000 == 0
    ensures Mix(p, q) == Mix(Shift(p), Shift(q)) << 1
  {
  }

  lemma SmallDoublings(d: bv16)
    requires d & 0xFF00 == 0
    ensures d & 0x8000 == 0 && (d << 1) & 0x8000 == 0 && (d << 2) & 0x8000 == 0 && (d << 3) & 0x8000 == 0
    ensures (d << 4) & 0x8000 == 0 && (d << 5) & 0x8000 == 0 && (d << 6) & 0x8000 == 0 && (d << 7) & 0x8000 == 0
  {
  }

  lemma Doublings(d: bv16)
    ensures (d << 1) << 1 == d << 2 && (d << 2) << 1 == d << 3 && (d << 3) << 1 == d << 4
    ensures (d << 4) << 1 == d << 5 && (d << 5) << 1 == d << 6 && (d << 6) << 1 == d << 7 && (d << 7) << 1 == d << 8
  {
  }

  lemma ShiftsDifference(p: bv16, q: bv16)
    requires Mix(Shifts(p, 8), Shifts(q, 8)) & 0xFF00 == 0
    ensures Mix(p, q) == Mix(Shifts(p, 8), Shifts(q, 8)) << 8
  {
    var d := Mix(Shifts(p, 8), Shifts(q, 8));
    SmallDoublings(d);
    Doublings(d);
    ShiftDifference(Shifts(p, 7), Shifts(q, 7));
    ShiftDifference(Shifts(p, 6), Shifts(q, 6));
    ShiftDifference(Shifts(p, 5), Shifts(q, 5));
    ShiftDifference(Shifts(p, 4), Shifts(q, 4));
    ShiftDifference(Shifts(p, 3), Shifts(q, 3));
    ShiftDifference(Shifts(p, 2), Shifts(q, 2));
    ShiftDifference(Shifts(p, 1), Shifts(q, 1));
    ShiftDifference(Shifts(p, 0), Shifts(q, 0));
  }

  lemma SecondByteDifference(x: bv16, y: bv16, b: bv8, b': bv8)
    requires Mix(x, b as bv16) == Mix(y, b' as bv16)
    ensures Mix(x, y) & 0xFF00 == 0
    ensures x == y ==> b == b'
  {
  }

  lemma FirstByteDifference(s: bv16, a: bv8, a': bv8, d: bv16)
    requires Mix(Mix(s, a as bv16), Mix(s, a' as bv16)) == d << 8
    ensures a == a'
  {
  }

  lemma WidenInjective(a: byte, b: byte)
    requires a as bv8 == b as bv8
    ensures a == b
  {
    ByteRoundTrip(a);
    ByteRoundTrip(b);
  }

  /** Two bytes fed to one register are told apart by the upper half of the next register. */
  lemma UpdateDifference(s: bv16, a: byte, a': byte)
    requires Mix(Update(s, a), Update(s, a')) & 0xFF00 == 0
    ensures a == a'
  {
    ShiftsDifference(Mix(s, Widen(a)), Mix(s, Widen(a')));
    FirstByteDifference(s, a as bv8, a' as bv8, Mix(Update(s, a), Update(s, a')));
    WidenInjective(a, a');
  }

  /** From one register, two different pairs of bytes never lead to the same register. */
  lemma UpdateTwiceInjective(s: bv16, a: byte, b: byte, a': byte, b': byte)
    requires Update(Update(s, a), b) == Update(Update(s, a'), b')
    ensures a == a' && b == b'
  {
    var x, y := Update(s, a), Update(s, a');
    MixedInjective(x, y, b, b');
    UpdateDifference(s, a, a');
  }

  lemma MixedInjective(x: bv16, y: bv16, b: byte, b': byte)
    requires Update(x, b) == Update(y, b')
    ensures Mix(x, y) & 0xFF00 == 0
    ensures x == y ==> b == b'
  {
    ShiftsInjective(Mix(x, Widen(b)), Mix(y, Widen(b')), 8);
    SecondByteDifference(x, y, b as bv8, b' as bv8);
    if x == y {
      WidenInjective(b, b');
    }
  }

  /** Distinct registers stay distinct while the same bytes are fed to both. */
  lemma {:induction false} CrcInjectiveInRegister(c: bv16, c': bv16, data: seq<byte>)
    requires CrcFrom(c, data) == CrcFrom(c', data)
    ensures c == c'
    decreases data
  {
    if data != [] {
      CrcInjectiveInRegister(Update(c, data[0]), Update(c', data[0]), data[1..]);
      var w := Widen(data[0]);
      ShiftsInjective(Mix(c, w), Mix(c', w), 8);
      MixCancel(c, c', w);
    }
  }

  lemma MixCancel(c: bv16, c': bv16, w: bv16)
    requires Mix(c, w) == Mix(c', w)
    ensures c == c'
  {
  }

  /** `a` and `b` agree everywhere but at `i` and `i + 1`. */
  ghost predicate DifferOnlyAtPair(a: seq<byte>, b: seq<byte>, i: nat) {
    |a| == |b| && forall k :: 0 <= k < |a| && k != i && k != i + 1 ==> a[k] == b[k]
  }

  /** A change confined to two adjacent bytes changes the checksum, whatever the seed and the length. */
  lemma PairErrorChangesCrc(c: bv16, a: seq<byte>, b: seq<byte>, i: nat)
    requires DifferOnlyAtPair(a, b, i) && a != b && i + 1 < |a|
    ensures CrcFrom(c, a) != CrcFrom(c, b)
  {
    var p, t := a[..i], a[i + 2..];
    assert p == b[..i] && t == b[i + 2..];
    assert a == p + ([a[i], a[i + 1]] + t) && b == p + ([b[i], b[i + 1]] + t);
    if CrcFrom(c, a) == CrcFrom(c, b) {
      var s := CrcFrom(c, p);
      CrcAppend(c, p, [a[i], a[i + 1]] + t);
      CrcAppend(c, p, [b[i], b[i + 1]] + t);
      CrcPair(s, a[i], a[i + 1], t);
      CrcPair(s, b[i], b[i + 1], t);
      CrcInjectiveInRegister(Update(Update(s, a[i]), a[i + 1]), Update(Update(s, b[i]), b[i + 1]), t);
      UpdateTwiceInjective(s, a[i], a[i + 1], b[i], b[i + 1]);
    }
  }

  lemma CrcPair(s: bv16, x: byte, y: byte, t: seq<byte>)
    ensures CrcFrom(s, [x, y] + t) == CrcFrom(Update(Update(s, x), y), t)
  {
    assert ([x, y] + t)[0] == x && ([x, y] + t)[1..] == [y] + t;
    assert ([y] + t)[0] == y && ([y] + t)[1..] == t;
  }

  // ---- a two-byte pattern that the checksum stores unchanged in its low byte -----------------

  function FlipTop(d: byte): byte { ((d as bv8) ^ 0xC0) as int }

  lemma ShiftXorEven(p: bv16, q: bv16)
    requires (p ^ q) & 1 == 0
    ensures Shift(p) ^ Shift(q) == (p ^ q) >> 1
  {
    if p & 1 == 1 {} else {}
  }

  lemma ShiftForwardEven(p: bv16, q: bv16)
    requires Mix(p, q) & 1 == 0
    ensures Mix(Shift(p), Shift(q)) == Mix(p, q) >> 1
  {
    ShiftXorEven(p, q);
  }

  lemma ShiftForwardOdd(p: bv16, q: bv16)
    requires Mix(p, q) & 1 == 1
    ensures Mix(Shift(p), Shift(q)) == Mix(Mix(p, q) >> 1, 0xA001)
  {
    if p & 1 == 1 {
      assert q & 1 == 0;
    } else {
      assert q & 1 == 1;
    }
  }

  lemma FlipTopShifts(p: bv16, q: bv16)
    requires Mix(p, q) == 0xC0
    ensures Mix(Shifts(p, 8), Shifts(q, 8)) == 0x5000
  {
    ShiftForwardEven(Shifts(p, 0), Shifts(q, 0));
    ShiftForwardEven(Shifts(p, 1), Shifts(q, 1));
    ShiftForwardEven(Shifts(p, 2), Shifts(q, 2));
    ShiftForwardEven(Shifts(p, 3), Shifts(q, 3));
    ShiftForwardEven(Shifts(p, 4), Shifts(q, 4));
    ShiftForwardEven(Shifts(p, 5), Shifts(q, 5));
    ShiftForwardOdd(Shifts(p, 6), Shifts(q, 6));
    ShiftForwardEven(Shifts(p, 7), Shifts(q, 7));
  }

  lemma FlipTopStart(s: bv16, d: bv8)
    ensures Mix(Mix(s, d as bv16), Mix(s, (d ^ 0xC0) as bv16)) == 0xC0
    ensures d ^ 0xC0 != d
  {
  }

  /** Flipping the two top bits of a byte changes the register by 0x5000, and by nothing else. */
  lemma FlipTopDifference(s: bv16, d: byte)
    ensures Mix(Update(s, d), Update(s, FlipTop(d))) == 0x5000
    ensures FlipTop(d) != d
  {
    Bv8RoundTrip((d as bv8) ^ 0xC0);
    FlipTopStart(s, d as bv8);
    FlipTopShifts(Mix(s, Widen(d)), Mix(s, Widen(FlipTop(d))));
  }

  lemma SameLowByte(x: bv16, y: bv16)
    requires Mix(x, y) == 0x5000
    ensures Low(x) == Low(y)
  {
    assert x & 0xFF == y & 0xFF;
  }

  lemma CrcOne(s: bv16, d: byte)
    ensures CrcFrom(s, [d]) == Update(s, d)
  {
    assert CrcFrom(Update(s, d), []) == Update(s, d);
  }
}
