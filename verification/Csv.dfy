/** Datapoints as CSV lines, cores/control/src/datapoint/datapoint_helpers.c. */
module Csv {
  import opened Common
  import opened Text

  type Int64 = x: int | -0x8000_0000_0000_0000 <= x <= 0x7FFF_FFFF_FFFF_FFFF
  type Int32 = x: int | -0x8000_0000 <= x <= 0x7FFF_FFFF

  predicate PlainText(s: seq<char>) { s != [] && NUL !in s && ',' !in s && '\n' !in s }

  /** A float as "%.6f" renders it. */
  type FloatText = s: seq<char> | PlainText(s) witness ['0']

  /** Strings are given by their bytes; an optional member is present or not. */
  datatype Datapoint = Datapoint(
    t: Int64, s: seq<char>, n: Option<Int32>, f: Option<FloatText>, r: Option<seq<char>>, u: Option<seq<char>>)

  // ---- decimal numbers --------------------------------------------------------------------------

  function Digits(n: nat): (s: seq<char>)
    ensures s != [] && forall i :: 0 <= i < |s| ==> '0' <= s[i] <= '9'
  {
    var last := ['0' + (n % 10) as char];
    if n < 10 then last else Digits(n / 10) + last
  }

  /** "%d" and "%PRId64". */
  function Decimal(n: int): (s: seq<char>)
    ensures PlainText(s)
  {
    if n < 0 then ['-'] + Digits(-n) else Digits(n)
  }

  function DigitsValue(s: seq<char>): int {
    if s == [] then 0 else 10 * DigitsValue(s[..|s| - 1]) + (s[|s| - 1] as int - '0' as int)
  }

  function DecimalValue(s: seq<char>): int {
    if s != [] && s[0] == '-' then -DigitsValue(s[1..]) else DigitsValue(s)
  }

  lemma {:induction false} DigitsRoundTrip(n: nat)
    ensures DigitsValue(Digits(n)) == n
  {
    if n >= 10 {
      DigitsRoundTrip(n / 10);
      assert Digits(n)[..|Digits(n)| - 1] == Digits(n / 10);
    }
  }

  lemma DecimalRoundTrip(n: int)
    ensures DecimalValue(Decimal(n)) == n
  {
    DigitsRoundTrip(if n < 0 then -n else n);
    if n < 0 {
      assert Decimal(n)[1..] == Digits(-n);
    } else {
      assert Digits(n)[0] != '-';
    }
  }

  /** Digits without a leading zero, other than zero itself. */
  predicate Natural(d: seq<char>) {
    d != [] && (forall i :: 0 <= i < |d| ==> '0' <= d[i] <= '9') && (d[0] == '0' ==> |d| == 1)
  }

  /** The form that "%d" prints: a minus sign for a negative number, and no leading zeros. */
  predicate Canonical(s: seq<char>, n: int) {
    if n < 0 then s != [] && s[0] == '-' && Natural(s[1..]) else Natural(s)
  }

  lemma {:induction false} DigitsNatural(n: nat)
    ensures Natural(Digits(n)) && (Digits(n)[0] == '0' <==> n == 0)
  {
    if n >= 10 {
      DigitsNatural(n / 10);
    }
  }

  lemma {:induction false} NaturalValue(d: seq<char>)
    requires Natural(d)
    ensures DigitsValue(d) >= 0 && (d[0] != '0' ==> DigitsValue(d) > 0)
  {
    if |d| > 1 {
      assert Natural(d[..|d| - 1]);
      NaturalValue(d[..|d| - 1]);
    } else {
      assert d[..0] == [];
    }
  }

  lemma {:induction false} NaturalIsDigits(d: seq<char>)
    requires Natural(d)
    ensures DigitsValue(d) >= 0 && d == Digits(DigitsValue(d))
  {
    var front, last := d[..|d| - 1], d[|d| - 1] as int - '0' as int;
    NaturalValue(d);
    if |d| == 1 {
      assert front == [] && DigitsValue(d) == last;
      assert d == ['0' + last as char];
    } else {
      assert Natural(front);
      NaturalValue(front);
      NaturalIsDigits(front);
      assert DigitsValue(d) / 10 == DigitsValue(front) && DigitsValue(d) % 10 == last;
      assert d == front + ['0' + last as char];
    }
  }

  lemma DecimalIsCanonical(n: int)
    ensures Canonical(Decimal(n), n)
  {
    DigitsNatural(if n < 0 then -n else n);
    if n < 0 {
      assert Decimal(n)[1..] == Digits(-n);
    }
  }

  lemma CanonicalIsDecimal(s: seq<char>, n: int)
    requires Canonical(s, n) && DecimalValue(s) == n
    ensures s == Decimal(n)
  {
    if n < 0 {
      NaturalIsDigits(s[1..]);
      assert s == ['-'] + s[1..];
    } else {
      NaturalIsDigits(s);
    }
  }

  /** A text is how a number is rendered exactly when it has that form and reads as that number. */
  lemma DecimalIffCanonical(s: seq<char>, n: int)
    ensures s == Decimal(n) <==> Canonical(s, n) && DecimalValue(s) == n
  {
    DecimalRoundTrip(n);
    DecimalIsCanonical(n);
    if Canonical(s, n) && DecimalValue(s) == n {
      CanonicalIsDecimal(s, n);
    }
  }

  function Pow10(k: nat): nat { if k == 0 then 1 else 10 * Pow10(k - 1) }

  lemma {:induction false} DigitsLength(n: nat, k: nat)
    requires k >= 1
    ensures |Digits(n)| <= k <==> n < Pow10(k)
    decreases k
  {
    if k == 1 {
      assert Pow10(1) == 10 * Pow10(0);
    } else {
      TenfoldAtLeast(k - 1);
      DigitsLength(n / 10, k - 1);
      assert n / 10 < Pow10(k - 1) <==> n < 10 * Pow10(k - 1);
    }
  }

  lemma {:induction false} TenfoldAtLeast(k: nat)
    requires k >= 1
    ensures Pow10(k) >= 10
  {
    if k == 1 {
      assert Pow10(1) == 10 * Pow10(0);
    } else {
      TenfoldAtLeast(k - 1);
    }
  }

  lemma LeastWide()
    ensures |Decimal(-0x8000_0000_0000_0000)| == 20
  {
    assert Pow10(6) == 1000000;
    assert Pow10(12) == 1000000000000;
    assert Pow10(18) == 1000000000000000000;
    assert Pow10(19) == 10000000000000000000;
    DigitsLength(0x8000_0000_0000_0000, 18);
    DigitsLength(0x8000_0000_0000_0000, 19);
  }

  lemma LeastNarrow()
    ensures |Decimal(-0x8000_0000)| == 11
  {
    assert Pow10(10) == 10000000000 && Pow10(9) == 1000000000;
    DigitsLength(0x8000_0000, 9);
    DigitsLength(0x8000_0000, 10);
  }

  /** A 64-bit number takes at most 20 characters and a 32-bit one at most 11. */
  lemma DecimalLengths(t: int, n: int)
    requires -0x8000_0000_0000_0000 <= t <= 0x7FFF_FFFF_FFFF_FFFF && -0x8000_0000 <= n <= 0x7FFF_FFFF
    ensures |Decimal(t)| <= 20 && |Decimal(n)| <= 11
  {
    assert Pow10(10) == 10000000000;
    assert Pow10(19) == 10000000000000000000;
    DigitsLength(if t < 0 then -t else t, 19);
    DigitsLength(if n < 0 then -n else n, 10);
  }

  // ---- lines ----------------------------------------------------------------------------------

  function Number(n: Option<Int32>): seq<char> { if n.Some? then Decimal(n.value) else [] }

  function Rendered(f: Option<FloatText>): seq<char> { if f.Some? then f.value else [] }

  function Member(s: Option<seq<char>>): seq<char> { if s.Some? then UpToNul(s.value) else [] }

  /** The six cells of a line. */
  function Cells(dp: Datapoint): (cells: seq<seq<char>>)
    ensures |cells| == 6
  {
    [Decimal(dp.t), UpToNul(dp.s), Number(dp.n), Rendered(dp.f), Member(dp.r), Member(dp.u)]
  }

  /** What "%s" prints of a string: all of it, or the part before its first NUL. */
  predicate PrintedAs(s: seq<char>, cell: seq<char>) {
    cell <= s && NUL !in cell && (cell == s || s[|cell|] == NUL)
  }

  lemma UpToNulIsPrinted(s: seq<char>)
    ensures PrintedAs(s, UpToNul(s))
  {
    UpToNulHasNone(s);
  }

  /** The cells of the strings, whatever they hold, and that absent members leave theirs empty. */
  lemma StringCells(dp: Datapoint)
    ensures PrintedAs(dp.s, Cells(dp)[1])
    ensures if dp.r.Some? then PrintedAs(dp.r.value, Cells(dp)[4]) else Cells(dp)[4] == []
    ensures if dp.u.Some? then PrintedAs(dp.u.value, Cells(dp)[5]) else Cells(dp)[5] == []
  {
    UpToNulIsPrinted(dp.s);
    if dp.r.Some? {
      UpToNulIsPrinted(dp.r.value);
    }
    if dp.u.Some? {
      UpToNulIsPrinted(dp.u.value);
    }
  }

  function End(cells: seq<seq<char>>): char
    requires cells != []
  {
    if |cells| == 1 then '\n' else ','
  }

  /** Cells separated by commas and ended by a newline. */
  function Row(cells: seq<seq<char>>): (row: seq<char>) {
    if cells == [] then [] else cells[0] + [End(cells)] + Row(cells[1..])
  }

  function CsvLine(dp: Datapoint): seq<char> { Row(Cells(dp)) }

  function Total(cells: seq<seq<char>>): nat {
    if cells == [] then 0 else |cells[0]| + 1 + Total(cells[1..])
  }

  lemma {:induction false} RowLength(cells: seq<seq<char>>)
    ensures |Row(cells)| == Total(cells)
  {
    if cells != [] {
      RowLength(cells[1..]);
    }
  }

  lemma LineLength(dp: Datapoint)
    ensures |CsvLine(dp)| == 6 + |Decimal(dp.t)| + |UpToNul(dp.s)| + |Number(dp.n)| + |Rendered(dp.f)| + |Member(dp.r)| + |Member(dp.u)|
  {
    var c := Cells(dp);
    RowLength(c);
    assert c[1..][1..] == c[2..] && c[2..][1..] == c[3..] && c[3..][1..] == c[4..] && c[4..][1..] == c[5..];
    assert Total(c) == |c[0]| + 1 + Total(c[1..]);
    assert Total(c[1..]) == |c[1]| + 1 + Total(c[2..]);
    assert Total(c[2..]) == |c[2]| + 1 + Total(c[3..]);
    assert Total(c[3..]) == |c[3]| + 1 + Total(c[4..]);
    assert Total(c[4..]) == |c[4]| + 1 + Total(c[5..]);
    assert Total(c[5..]) == |c[5]| + 1;
  }

  lemma {:induction false} RowHasNoNul(cells: seq<seq<char>>)
    requires forall i :: 0 <= i < |cells| ==> NUL !in cells[i]
    ensures NUL !in Row(cells)
  {
    if cells != [] {
      RowHasNoNul(cells[1..]);
    }
  }

  /** No line holds a NUL, whatever the strings hold. */
  lemma LineHasNoNul(dp: Datapoint)
    ensures NUL !in CsvLine(dp)
  {
    UpToNulHasNone(dp.s);
    if dp.r.Some? { UpToNulHasNone(dp.r.value); }
    if dp.u.Some? { UpToNulHasNone(dp.u.value); }
    RowHasNoNul(Cells(dp));
  }

  // ---- reading a line back -----------------------------------------------------------------------

  lemma {:induction false} SplitRow(cells: seq<seq<char>>)
    requires cells != [] && forall i :: 0 <= i < |cells| ==> ',' !in cells[i]
    ensures |Row(cells)| > 0 && Split(Row(cells)[..|Row(cells)| - 1], ',') == cells
  {
    var text := Row(cells)[..|Row(cells)| - 1];
    if |cells| == 1 {
      assert Row(cells) == cells[0] + ['\n'] + Row(cells[1..]) && Row(cells[1..]) == [];
      assert text == cells[0];
      SplitWithout(cells[0], ',');
    } else {
      var rest := Row(cells[1..]);
      SplitRow(cells[1..]);
      assert text == cells[0] + [','] + rest[..|rest| - 1];
      SplitAt(cells[0], rest[..|rest| - 1], ',');
    }
  }

  /** A line splits back into its six cells exactly when none of them holds a comma. */
  lemma SplitsIffNoCommas(dp: Datapoint)
    ensures var line := CsvLine(dp);
      && |line| > 0 && line[|line| - 1] == '\n'
      && (Split(line[..|line| - 1], ',') == Cells(dp) <==> forall i :: 0 <= i < 6 ==> ',' !in Cells(dp)[i])
  {
    var line := CsvLine(dp);
    RowEnds(Cells(dp));
    PiecesHaveNoSeparator(line[..|line| - 1], ',');
    if forall i :: 0 <= i < 6 ==> ',' !in Cells(dp)[i] {
      SplitRow(Cells(dp));
    }
  }

  lemma {:induction false} RowEnds(cells: seq<seq<char>>)
    requires cells != []
    ensures |Row(cells)| > 0 && Row(cells)[|Row(cells)| - 1] == '\n'
  {
    if |cells| > 1 {
      RowEnds(cells[1..]);
    }
  }

  function ReadMember(cell: seq<char>): Option<seq<char>> { if cell == [] then None else Some(cell) }

  predicate Readable(cells: seq<seq<char>>) {
    && |cells| == 6
    && -0x8000_0000_0000_0000 <= DecimalValue(cells[0]) <= 0x7FFF_FFFF_FFFF_FFFF
    && -0x8000_0000 <= DecimalValue(cells[2]) <= 0x7FFF_FFFF
    && (cells[3] != [] ==> PlainText(cells[3]))
  }

  /** A reader of lines (without their newline): an empty cell is an absent member. */
  function ReadRow(row: seq<char>): Option<Datapoint> {
    var c := Split(row, ',');
    if !Readable(c) then None
    else Some(Datapoint(DecimalValue(c[0]), c[1], if c[2] == [] then None else Some(DecimalValue(c[2])),
                        if c[3] == [] then None else Some(c[3]), ReadMember(c[4]), ReadMember(c[5])))
  }

  /** The strings that are present are not empty and hold neither separators nor NULs. */
  predicate Plain(dp: Datapoint) {
    && PlainText(dp.s)
    && (dp.r.Some? ==> PlainText(dp.r.value))
    && (dp.u.Some? ==> PlainText(dp.u.value))
  }

  lemma PlainCells(dp: Datapoint)
    requires Plain(dp)
    ensures UpToNul(dp.s) == dp.s
    ensures Member(dp.r) == if dp.r.Some? then dp.r.value else []
    ensures Member(dp.u) == if dp.u.Some? then dp.u.value else []
    ensures forall i :: 0 <= i < 6 ==> ',' !in Cells(dp)[i] && '\n' !in Cells(dp)[i]
  {
    UpToNulHasNone(dp.s);
    if dp.r.Some? { UpToNulHasNone(dp.r.value); }
    if dp.u.Some? { UpToNulHasNone(dp.u.value); }
  }

  lemma ReadCells(dp: Datapoint, row: seq<char>)
    requires Plain(dp) && Split(row, ',') == Cells(dp)
    ensures ReadRow(row) == Some(dp)
  {
    PlainCells(dp);
    DecimalRoundTrip(dp.t);
    if dp.n.Some? { DecimalRoundTrip(dp.n.value); }
  }

  /** Reading a line gives back the datapoint it was made from. */
  lemma ReadLine(dp: Datapoint)
    requires Plain(dp)
    ensures |CsvLine(dp)| > 0 && ReadRow(CsvLine(dp)[..|CsvLine(dp)| - 1]) == Some(dp)
  {
    PlainCells(dp);
    SplitRow(Cells(dp));
    ReadCells(dp, CsvLine(dp)[..|CsvLine(dp)| - 1]);
  }

  // ---- printing in place ----------------------------------------------------------------------------

  /** A buffer after snprintf printed `text` into it: as much of the text as leaves room for the
      terminator, the terminator, and then what was there before. */
  function Terminated(was: seq<char>, text: seq<char>): (now: seq<char>)
    ensures |now| == |was|
  {
    if was == [] then []
    else
      var k := if |text| < |was| then |text| else |was| - 1;
      text[..k] + [NUL] + was[k + 1..]
  }

  lemma TerminatedMeans(was: seq<char>, text: seq<char>)
    requires was != []
    ensures var now := Terminated(was, text);
      if |text| < |was|
      then now[..|text|] == text && now[|text|] == '\0' && now[|text| + 1..] == was[|text| + 1..]
      else now[..|was| - 1] == text[..|was| - 1] && now[|was| - 1] == '\0'
  {
    if |text| < |was| {
      TerminatedShort(was, text);
    }
  }

  /** The value of a size_t converted to int, both 32 bits wide. */
  function ToInt(size: nat): int
    requires size < 0x1_0000_0000
  {
    if size <= INT_MAX then size else size - 0x1_0000_0000
  }

  lemma Pieces(now: seq<char>, was: seq<char>, offset: nat, n: nat, text: seq<char>)
    requires |now| == |was| && offset < |was|
    requires n == if |text| < |was| - offset then |text| else |was| - offset - 1
    requires now[..offset] == was[..offset] && now[offset..offset + n] == text[..n]
    requires now[offset + n] == NUL && now[offset + n + 1..] == was[offset + n + 1..]
    ensures now == was[..offset] + Terminated(was[offset..], text)
  {
    assert was[offset..][n + 1..] == was[offset + n + 1..];
    assert now == now[..offset] + (now[offset..offset + n] + [now[offset + n]] + now[offset + n + 1..]);
  }

  /** snprintf(buf + offset, size - offset, ...), where `text` is what the format renders. */
  method Snprintf(buf: array<char>, offset: nat, text: seq<char>) returns (ret: int)
    requires offset <= buf.Length
    modifies buf
    ensures buf[..] == old(buf[..offset]) + Terminated(old(buf[offset..]), text)
    ensures ret == if |text| <= INT_MAX then |text| else -1
  {
    if offset == buf.Length {
      assert buf[offset..] == [];
    } else {
      var n := if |text| < buf.Length - offset then |text| else buf.Length - offset - 1;
      forall k | 0 <= k < n {
        buf[offset + k] := text[k];
      }
      buf[offset + n] := NUL;
      Pieces(buf[..], old(buf[..]), offset, n, text);
    }
    ret := if |text| <= INT_MAX then |text| else -1;
  }

  lemma TerminatedShort(was: seq<char>, text: seq<char>)
    requires |text| < |was|
    ensures Terminated(was, text)[..|text|] == text
    ensures Terminated(was, text)[|text|..] == [NUL] + was[|text| + 1..]
  {
    assert Terminated(was, text) == text + ([NUL] + was[|text| + 1..]);
  }

  lemma TerminatedCut(was: seq<char>, done: seq<char>, text: seq<char>)
    requires |done| < |was| && |text| >= |was| - |done|
    ensures done + Terminated([NUL] + was[|done| + 1..], text) == Terminated(was, done + text)
  {
    var rest := [NUL] + was[|done| + 1..];
    var k := |was| - |done| - 1;
    assert rest[k + 1..] == [] && was[|was|..] == [];
    assert (done + text)[..|was| - 1] == done + text[..k];
  }

  lemma TerminatedFits(was: seq<char>, done: seq<char>, text: seq<char>)
    requires |done| + |text| < |was|
    ensures done + Terminated([NUL] + was[|done| + 1..], text) == Terminated(was, done + text)
  {
    var rest := [NUL] + was[|done| + 1..];
    assert rest[|text| + 1..] == was[|done| + |text| + 1..];
    assert Terminated(rest, text) == text + [NUL] + rest[|text| + 1..];
    assert (done + text)[..|done + text|] == done + text;
  }

  lemma TerminatedMore(was: seq<char>, done: seq<char>, text: seq<char>)
    requires |done| < |was|
    ensures var now := Terminated(was, done);
      now[..|done|] + Terminated(now[|done|..], text) == Terminated(was, done + text)
  {
    TerminatedShort(was, done);
    if |done| + |text| < |was| {
      TerminatedFits(was, done, text);
    } else {
      TerminatedCut(was, done, text);
    }
  }

  lemma TerminatedFull(was: seq<char>, text: seq<char>, rest: seq<char>)
    requires |text| >= |was|
    ensures Terminated(was, text + rest) == Terminated(was, text)
  {
  }

  /** The first `k` cells of a row, each with its terminator. */
  function Front(cells: seq<seq<char>>, k: nat): seq<char>
    requires k <= |cells|
  {
    if k == 0 then [] else Front(cells, k - 1) + (cells[k - 1] + [End(cells[k - 1..])])
  }

  lemma {:induction false} FrontThenRow(cells: seq<seq<char>>, k: nat)
    requires k <= |cells|
    ensures Front(cells, k) + Row(cells[k..]) == Row(cells)
    decreases k
  {
    if k > 0 {
      FrontThenRow(cells, k - 1);
      assert cells[k - 1..][1..] == cells[k..];
    }
  }

  lemma TerminatedIfFull(was: seq<char>, cells: seq<seq<char>>, k: nat)
    requires k <= |cells|
    ensures |Front(cells, k)| <= |Row(cells)|
    ensures |Front(cells, k)| >= |was| ==> Terminated(was, Front(cells, k)) == Terminated(was, Row(cells))
  {
    FrontThenRow(cells, k);
    if |Front(cells, k)| >= |was| {
      TerminatedFull(was, Front(cells, k), Row(cells[k..]));
    }
  }

  /** What the buffer holds once `k` fields are printed, and how much of the line that is. */
  ghost function After(was: seq<char>, dp: Datapoint, k: nat): seq<char>
    requires k <= 6
  {
    if k == 0 then was else Terminated(was, Front(Cells(dp), k))
  }

  ghost function Offset(dp: Datapoint, k: nat): nat
    requires k <= 6
  {
    |Front(Cells(dp), k)|
  }

  /** What the format of field `k` renders. */
  function FieldText(dp: Datapoint, k: nat): (text: seq<char>)
    requires k < 6
    ensures text == Cells(dp)[k] + [End(Cells(dp)[k..])]
  {
    if k == 0 then Decimal(dp.t) + [',']
    else if k == 1 then UpToNul(dp.s) + [',']
    else if k == 2 then (if dp.n.Some? then Decimal(dp.n.value) + [','] else [','])
    else if k == 3 then (if dp.f.Some? then dp.f.value + [','] else [','])
    else if k == 4 then (if dp.r.Some? then UpToNul(dp.r.value) + [','] else [','])
    else (if dp.u.Some? then UpToNul(dp.u.value) + ['\n'] else ['\n'])
  }

  lemma FieldPrinted(was: seq<char>, dp: Datapoint, k: nat)
    requires k < 6 && (k > 0 ==> Offset(dp, k) < |was|)
    ensures var now, at := After(was, dp, k), Offset(dp, k);
      at <= |now| == |was| && now[..at] + Terminated(now[at..], FieldText(dp, k)) == After(was, dp, k + 1)
    ensures Offset(dp, k + 1) == Offset(dp, k) + |FieldText(dp, k)|
  {
    var cells := Cells(dp);
    assert Front(cells, k + 1) == Front(cells, k) + FieldText(dp, k);
    if k == 0 {
      assert was[..0] == [] && was[0..] == was && [] + FieldText(dp, 0) == FieldText(dp, 0);
    } else {
      TerminatedMore(was, Front(cells, k), FieldText(dp, k));
    }
  }

  lemma FullIsFinal(was: seq<char>, dp: Datapoint, k: nat)
    requires 0 < k <= 6
    ensures Offset(dp, k) <= |CsvLine(dp)|
    ensures Offset(dp, k) >= |was| ==> After(was, dp, k) == Terminated(was, CsvLine(dp))
  {
    TerminatedIfFull(was, Cells(dp), k);
  }

  /** Field `k`: print it at `offset` and check that it fitted. */
  method PrintField(buf: array<char>, offset: nat, dp: Datapoint, k: nat, ghost was: seq<char>) returns (ret: int)
    requires |was| == buf.Length < 0x1_0000_0000
    requires k < 6 && offset == Offset(dp, k) && (k > 0 ==> offset < buf.Length <= INT_MAX)
    requires buf[..] == After(was, dp, k)
    modifies buf
    ensures buf[..] == After(was, dp, k + 1)
    ensures ret == if Offset(dp, k + 1) < buf.Length <= INT_MAX then Offset(dp, k + 1) - offset else -ENOMEM
    ensures Offset(dp, k + 1) >= offset
  {
    FieldPrinted(was, dp, k);
    assert buf[..offset] == buf[..][..offset] && buf[offset..] == buf[..][offset..];
    var text := FieldText(dp, k);
    ret := Snprintf(buf, offset, text);
    if ret < 0 || ret >= ToInt(buf.Length - offset) {
      ret := -ENOMEM;
    }
  }

  /** The buffer and the result when printing stops after field `k` did not fit. */
  ghost predicate Stopped(now: seq<char>, was: seq<char>, dp: Datapoint) {
    && now == Terminated(was, if |was| <= INT_MAX then CsvLine(dp) else Decimal(dp.t) + [','])
    && !(|CsvLine(dp)| < |was| <= INT_MAX)
  }

  lemma StopsHere(was: seq<char>, dp: Datapoint, k: nat)
    requires 0 < k <= 6 && !(Offset(dp, k) < |was| <= INT_MAX)
    requires |was| > INT_MAX ==> k == 1
    ensures Stopped(After(was, dp, k), was, dp)
  {
    FirstField(dp, was);
    FullIsFinal(was, dp, k);
  }

  /** The first three fields. */
  method PrintHead(buf: array<char>, dp: Datapoint) returns (offset: int)
    requires buf.Length < 0x1_0000_0000
    modifies buf
    ensures offset < 0 ==> offset == -ENOMEM && Stopped(buf[..], old(buf[..]), dp)
    ensures offset >= 0 ==> offset == Offset(dp, 3) < buf.Length <= INT_MAX && buf[..] == After(old(buf[..]), dp, 3)
  {
    ghost var was := buf[..];
    var r := PrintField(buf, 0, dp, 0, was);
    if r < 0 {
      StopsHere(was, dp, 1);
      return -ENOMEM;
    }
    offset := r;

    r := PrintField(buf, offset, dp, 1, was);
    if r < 0 {
      StopsHere(was, dp, 2);
      return -ENOMEM;
    }
    offset := offset + r;

    r := PrintField(buf, offset, dp, 2, was);
    if r < 0 {
      StopsHere(was, dp, 3);
      return -ENOMEM;
    }
    offset := offset + r;
  }

  /** The last three fields. */
  method PrintTail(buf: array<char>, head: nat, dp: Datapoint, ghost was: seq<char>) returns (offset: int)
    requires |was| == buf.Length <= INT_MAX && head == Offset(dp, 3) < buf.Length && buf[..] == After(was, dp, 3)
    modifies buf
    ensures offset < 0 ==> offset == -ENOMEM && Stopped(buf[..], was, dp)
    ensures offset >= 0 ==> offset == Offset(dp, 6) < buf.Length && buf[..] == After(was, dp, 6)
  {
    offset := head;
    var r := PrintField(buf, offset, dp, 3, was);
    if r < 0 {
      StopsHere(was, dp, 4);
      return -ENOMEM;
    }
    offset := offset + r;

    r := PrintField(buf, offset, dp, 4, was);
    if r < 0 {
      StopsHere(was, dp, 5);
      return -ENOMEM;
    }
    offset := offset + r;

    r := PrintField(buf, offset, dp, 5, was);
    if r < 0 {
      StopsHere(was, dp, 6);
      return -ENOMEM;
    }
    offset := offset + r;
  }

  lemma FirstField(dp: Datapoint, was: seq<char>)
    ensures After(was, dp, 1) == Terminated(was, Decimal(dp.t) + [','])
  {
    assert Front(Cells(dp), 1) == FieldText(dp, 0);
  }

  lemma LastField(dp: Datapoint, was: seq<char>)
    ensures After(was, dp, 6) == Terminated(was, CsvLine(dp)) && Offset(dp, 6) == |CsvLine(dp)|
  {
    FrontThenRow(Cells(dp), 6);
  }

  /** datapoint_to_csv: it succeeds exactly when the line is shorter than the buffer, and then the buffer
      starts with the line and its terminator. When the line is too long, the buffer holds the part that
      fits; a buffer larger than the largest int gets the first field only. */
  method DatapointToCsv(dp: Option<Datapoint>, buf: array?<char>) returns (r: int)
    requires buf != null ==> buf.Length < 0x1_0000_0000
    modifies if buf == null then {} else {buf}
    ensures dp.None? || buf == null ==> r == -EINVAL && (buf != null ==> buf[..] == old(buf[..]))
    ensures dp.Some? && buf != null ==> r == if |CsvLine(dp.value)| < buf.Length <= 0x7FFF_FFFF then |CsvLine(dp.value)| else -ENOMEM
    ensures dp.Some? && buf != null ==>
      buf[..] == Terminated(old(buf[..]), if buf.Length <= 0x7FFF_FFFF then CsvLine(dp.value) else Decimal(dp.value.t) + [','])
    ensures dp.Some? && buf != null && r >= 0 ==> r < buf.Length && buf[..r] == CsvLine(dp.value) && buf[r] == NUL
  {
    if dp.None? || buf == null {
      return -EINVAL;
    }
    ghost var was := buf[..];
    r := PrintHead(buf, dp.value);
    if r >= 0 {
      LastField(dp.value, was);
      r := PrintTail(buf, r, dp.value, was);
    }
  }

  // ---- the schema's limits -------------------------------------------------------------------------

  /** The string limits of the datapoint schema. */
  predicate Schema(dp: Datapoint) {
    && 1 <= |dp.s| <= 32
    && (dp.r.Some? ==> 1 <= |dp.r.value| <= 64)
    && (dp.u.Some? ==> 1 <= |dp.u.value| <= 16)
  }

  /** The buffer of the SD-card sink. */
  const LINE_BUF: nat := 256

  function Longest(f: FloatText): Datapoint {
    var a := i => 'a';
    Datapoint(-0x8000_0000_0000_0000, seq(32, a), Some(-0x8000_0000), Some(f), Some(seq(64, a)), Some(seq(16, a)))
  }

  lemma LongestLine(f: FloatText)
    ensures Schema(Longest(f)) && |CsvLine(Longest(f))| == 149 + |f|
  {
    var dp := Longest(f);
    LineLength(dp);
    LeastWide();
    LeastNarrow();
    UpToNulHasNone(dp.s);
    UpToNulHasNone(dp.r.value);
    UpToNulHasNone(dp.u.value);
  }

  lemma SchemaLength(dp: Datapoint)
    requires Schema(dp)
    ensures |CsvLine(dp)| <= 149 + |Rendered(dp.f)|
  {
    LineLength(dp);
    DecimalLengths(dp.t, if dp.n.Some? then dp.n.value else 0);
  }

  /** The sink's buffer takes every datapoint of the schema with a given float exactly when the float is
      rendered in at most 106 characters. */
  lemma SinkNeverFailsIffFloatShort(f: FloatText)
    ensures (forall dp: Datapoint :: Schema(dp) && dp.f == Some(f) ==> |CsvLine(dp)| < LINE_BUF) <==> |f| <= 106
  {
    LongestLine(f);
    if |f| <= 106 {
      forall dp: Datapoint | Schema(dp) && dp.f == Some(f)
        ensures |CsvLine(dp)| < LINE_BUF
      {
        SchemaLength(dp);
      }
    }
  }
}
