/**
 The SD-card writer, cores/control/src/sd_card/sd_card.c: lines are collected in one buffer while the other
 is written out by a work item. A flush is taken as one step, so no swap lands while it runs, and a write
 happens wholly or not at all; both can be missed or fail.
 */
module SdLog {
  import opened Text

  const BUFFER_SIZE: nat := 1024

  /** The two buffers, the fill position, whether the flush work item is submitted, and the log file. */
  datatype Sd = Sd(active: seq<char>, flush: seq<char>, pos: nat, pending: bool, file: seq<char>)

  /** How a flush can end. After a failed close, which includes the sync, the text may be stored or not. */
  datatype Outcome = MountFailed | OpenFailed | WriteFailed | CloseFailed(kept: bool) | Written

  predicate Stored(o: Outcome) { o == Written || o == CloseFailed(true) }

  const BLANK: seq<char> := seq(BUFFER_SIZE, _ => NUL)

  const START := Sd(BLANK, BLANK, 0, false, [])

  predicate Swaps(s: Sd, line: seq<char>) { s.pos + |line| >= BUFFER_SIZE }

  /** `line` written over `buf` from `at`; the bytes behind it stay. */
  function Overwrite(buf: seq<char>, at: nat, line: seq<char>): seq<char>
    requires at + |line| <= |buf|
  {
    buf[..at] + line + buf[at + |line|..]
  }

  predicate Sized(s: Sd) { |s.active| == |s.flush| == BUFFER_SIZE && s.pos < BUFFER_SIZE }

  /** sd_card_submit_line, once it has the mutex. */
  function Submit(s: Sd, line: seq<char>): Sd
    requires Sized(s) && |line| <= BUFFER_SIZE
  {
    var t := if Swaps(s, line) then Sd(s.flush, s.active[s.pos := NUL], 0, true, s.file) else s;
    t.(active := Overwrite(t.active, t.pos, line), pos := t.pos + |line|)
  }

  /** sd_writer_work_handler. */
  function Flush(s: Sd, outcome: Outcome): Sd {
    var t := s.(pending := false);
    if Stored(outcome) then t.(file := s.file + UpToNul(s.flush)) else t
  }

  /** The position stays inside the buffer exactly when the line is shorter than the buffer. */
  lemma PositionStaysIffShort(s: Sd, line: seq<char>)
    requires Sized(s) && |line| <= BUFFER_SIZE
    ensures Submit(s, line).pos < BUFFER_SIZE <==> |line| < BUFFER_SIZE
  {
  }

  // ---- runs -----------------------------------------------------------------------------------

  datatype Event = Line(line: seq<char>) | FlushRuns(outcome: Outcome)

  /** Lines are NUL-free and shorter than the buffer; the handler runs only when it was submitted. */
  predicate Possible(s: Sd, e: Event) {
    match e
    case Line(line) => |line| < BUFFER_SIZE && NUL !in line
    case FlushRuns(_) => s.pending
  }

  /** What has happened: the accepted lines, where the lines of the two buffers start among them, which
      lines the file holds, and how many characters were given up. */
  datatype Trace = Trace(lines: seq<seq<char>>, flushFrom: nat, activeFrom: nat, kept: seq<nat>, lost: nat)

  function Join(lines: seq<seq<char>>): seq<char> {
    if lines == [] then [] else Join(lines[..|lines| - 1]) + lines[|lines| - 1]
  }

  function Range(from: nat, to: nat): seq<nat>
    requires from <= to
  {
    seq(to - from, i requires 0 <= i < to - from => from + i)
  }

  function Pick(lines: seq<seq<char>>, kept: seq<nat>): seq<seq<char>>
    requires forall i :: 0 <= i < |kept| ==> kept[i] < |lines|
  {
    seq(|kept|, i requires 0 <= i < |kept| => lines[kept[i]])
  }

  function FlushText(s: Sd): seq<char> { UpToNul(s.flush) }

  function PendingText(s: Sd): seq<char> { if s.pending then FlushText(s) else [] }

  function ActiveText(s: Sd): seq<char>
    requires Sized(s)
  {
    s.active[..s.pos]
  }

  function Next(s: Sd, e: Event): Sd
    requires Sized(s) && Possible(s, e)
  {
    match e
    case Line(line) => Submit(s, line)
    case FlushRuns(o) => Flush(s, o)
  }

  function Record(s: Sd, h: Trace, e: Event): Trace
    requires Possible(s, e) && h.flushFrom <= h.activeFrom
  {
    match e
    case Line(line) =>
      if Swaps(s, line)
      then Trace(h.lines + [line], h.activeFrom, |h.lines|, h.kept, h.lost + |PendingText(s)|)
      else h.(lines := h.lines + [line])
    case FlushRuns(o) =>
      if Stored(o) then h.(kept := h.kept + Range(h.flushFrom, h.activeFrom)) else h.(lost := h.lost + |FlushText(s)|)
  }

  predicate Increasing(kept: seq<nat>, limit: nat) {
    (forall i, j :: 0 <= i < j < |kept| ==> kept[i] < kept[j]) && forall i :: 0 <= i < |kept| ==> kept[i] < limit
  }

  /** The buffers hold whole lines: the active one the lines since the last swap, the other one those of
      the swap before, up to its terminator. */
  ghost predicate BuffersOk(s: Sd, h: Trace) {
    && Sized(s) && h.flushFrom <= h.activeFrom <= |h.lines|
    && (forall i :: 0 <= i < |h.lines| ==> NUL !in h.lines[i])
    && ActiveText(s) == Join(h.lines[h.activeFrom..])
    && (s.pending ==> FlushText(s) == Join(h.lines[h.flushFrom..h.activeFrom]))
  }

  /** The file holds whole lines, in order, each once, and none of those that are still buffered. */
  ghost predicate FileOk(s: Sd, h: Trace) {
    && h.flushFrom <= h.activeFrom <= |h.lines|
    && Increasing(h.kept, if s.pending then h.flushFrom else h.activeFrom)
    && s.file == Join(Pick(h.lines, h.kept))
  }

  /** Every character is in the file, waiting, being collected, or given up; and if none was given up,
      they are in order. */
  predicate TextsOk(file: seq<char>, waiting: seq<char>, collecting: seq<char>, lost: nat, all: seq<char>) {
    && |file| + |waiting| + |collecting| + lost == |all|
    && (lost == 0 ==> file + waiting + collecting == all)
  }

  ghost predicate Inv(s: Sd, h: Trace) {
    BuffersOk(s, h) && FileOk(s, h) && TextsOk(s.file, PendingText(s), ActiveText(s), h.lost, Join(h.lines))
  }

  // ---- text ----------------------------------------------------------------------------------------

  lemma {:induction false} JoinAppend(a: seq<seq<char>>, b: seq<seq<char>>)
    ensures Join(a + b) == Join(a) + Join(b)
  {
    if b == [] {
      assert a + b == a;
    } else {
      var n := |b| - 1;
      assert (a + b)[..|a + b| - 1] == a + b[..n];
      JoinAppend(a, b[..n]);
      assert Join(b) == Join(b[..n]) + b[n];
    }
  }

  lemma JoinOne(a: seq<seq<char>>, line: seq<char>)
    ensures Join(a + [line]) == Join(a) + line
  {
    assert (a + [line])[..|a|] == a;
  }

  lemma {:induction false} JoinHasNoNul(lines: seq<seq<char>>)
    requires forall i :: 0 <= i < |lines| ==> NUL !in lines[i]
    ensures NUL !in Join(lines)
  {
    if lines != [] {
      JoinHasNoNul(lines[..|lines| - 1]);
    }
  }

  lemma PickGrows(lines: seq<seq<char>>, more: seq<seq<char>>, kept: seq<nat>)
    requires forall i :: 0 <= i < |kept| ==> kept[i] < |lines|
    ensures Pick(lines + more, kept) == Pick(lines, kept)
  {
  }

  lemma PickRange(lines: seq<seq<char>>, kept: seq<nat>, from: nat, to: nat)
    requires from <= to <= |lines| && forall i :: 0 <= i < |kept| ==> kept[i] < |lines|
    ensures Pick(lines, kept + Range(from, to)) == Pick(lines, kept) + lines[from..to]
  {
  }

  // ---- the steps keep the invariant -----------------------------------------------------------------

  lemma TextsCollect(file: seq<char>, waiting: seq<char>, collecting: seq<char>, lost: nat, all: seq<char>, line: seq<char>)
    requires TextsOk(file, waiting, collecting, lost, all)
    ensures TextsOk(file, waiting, collecting + line, lost, all + line)
    ensures TextsOk(file, collecting, line, lost + |waiting|, all + line)
  {
    if lost == 0 {
      assert file + waiting + (collecting + line) == all + line;
    }
  }

  lemma TextsFlush(file: seq<char>, waiting: seq<char>, collecting: seq<char>, lost: nat, all: seq<char>)
    requires TextsOk(file, waiting, collecting, lost, all)
    ensures TextsOk(file + waiting, [], collecting, lost, all)
    ensures TextsOk(file, [], collecting, lost + |waiting|, all)
  {
  }

  lemma PlainLineTexts(s: Sd, line: seq<char>)
    requires Sized(s) && |line| < BUFFER_SIZE && !Swaps(s, line)
    ensures var t := Submit(s, line);
      Sized(t) && ActiveText(t) == ActiveText(s) + line && FlushText(t) == FlushText(s) && t.pending == s.pending && t.file == s.file
  {
  }

  lemma PlainLineBuffers(s: Sd, h: Trace, line: seq<char>)
    requires BuffersOk(s, h) && Possible(s, Line(line)) && !Swaps(s, line)
    ensures BuffersOk(Submit(s, line), Record(s, h, Line(line)))
  {
    var g := Record(s, h, Line(line));
    PlainLineTexts(s, line);
    assert g.lines[g.activeFrom..] == h.lines[h.activeFrom..] + [line];
    assert g.lines[g.flushFrom..g.activeFrom] == h.lines[h.flushFrom..h.activeFrom];
    JoinOne(h.lines[h.activeFrom..], line);
  }

  lemma PlainLineKeepsInv(s: Sd, h: Trace, line: seq<char>)
    requires Inv(s, h) && Possible(s, Line(line)) && !Swaps(s, line)
    ensures Inv(Submit(s, line), Record(s, h, Line(line)))
  {
    PlainLineBuffers(s, h, line);
    PlainLineTexts(s, line);
    JoinOne(h.lines, line);
    PickGrows(h.lines, [line], h.kept);
    TextsCollect(s.file, PendingText(s), ActiveText(s), h.lost, Join(h.lines), line);
  }

  /** At a swap the text up to the terminator is the text that was in the active buffer, whatever stale
      bytes lie behind it. */
  lemma SwapHandsOver(s: Sd, h: Trace, line: seq<char>)
    requires BuffersOk(s, h) && Possible(s, Line(line)) && Swaps(s, line)
    ensures var t := Submit(s, line);
      && Sized(t) && StrNLen(t.flush) == s.pos > 0 && FlushText(t) == ActiveText(s) && t.pending
      && ActiveText(t) == line && t.file == s.file
  {
    var t := Submit(s, line);
    JoinHasNoNul(h.lines[h.activeFrom..]);
    assert t.flush == ActiveText(s) + [NUL] + s.active[s.pos + 1..];
    StrNLenOf(ActiveText(s), s.active[s.pos + 1..]);
  }

  lemma SwapBuffers(s: Sd, h: Trace, line: seq<char>)
    requires BuffersOk(s, h) && Possible(s, Line(line)) && Swaps(s, line)
    ensures BuffersOk(Submit(s, line), Record(s, h, Line(line)))
  {
    SwapHandsOver(s, h, line);
    SwapLines(h.lines, h.activeFrom, line);
    JoinOne([], line);
  }

  lemma SwapLines(lines: seq<seq<char>>, from: nat, line: seq<char>)
    requires from <= |lines|
    ensures (lines + [line])[|lines|..] == [] + [line]
    ensures (lines + [line])[from..|lines|] == lines[from..]
  {
  }

  lemma SwapKeepsInv(s: Sd, h: Trace, line: seq<char>)
    requires Inv(s, h) && Possible(s, Line(line)) && Swaps(s, line)
    ensures Inv(Submit(s, line), Record(s, h, Line(line)))
  {
    SwapBuffers(s, h, line);
    SwapHandsOver(s, h, line);
    JoinOne(h.lines, line);
    PickGrows(h.lines, [line], h.kept);
    TextsCollect(s.file, PendingText(s), ActiveText(s), h.lost, Join(h.lines), line);
  }

  lemma FlushFile(s: Sd, h: Trace, o: Outcome)
    requires BuffersOk(s, h) && FileOk(s, h) && s.pending
    ensures FileOk(Flush(s, o), Record(s, h, FlushRuns(o)))
  {
    if Stored(o) {
      PickRange(h.lines, h.kept, h.flushFrom, h.activeFrom);
      JoinAppend(Pick(h.lines, h.kept), h.lines[h.flushFrom..h.activeFrom]);
    }
  }

  lemma FlushKeepsInv(s: Sd, h: Trace, o: Outcome)
    requires Inv(s, h) && Possible(s, FlushRuns(o))
    ensures Inv(Flush(s, o), Record(s, h, FlushRuns(o)))
  {
    FlushFile(s, h, o);
    TextsFlush(s.file, PendingText(s), ActiveText(s), h.lost, Join(h.lines));
  }

  lemma StepInv(s: Sd, h: Trace, e: Event)
    requires Inv(s, h) && Possible(s, e)
    ensures Inv(Next(s, e), Record(s, h, e))
  {
    match e {
      case Line(line) =>
        if Swaps(s, line) { SwapKeepsInv(s, h, line); } else { PlainLineKeepsInv(s, h, line); }
      case FlushRuns(o) => FlushKeepsInv(s, h, o);
    }
  }

  predicate Runs(s: Sd, run: seq<Event>)
    requires Sized(s)
    decreases run
  {
    run == [] || (Possible(s, run[0]) && Runs(Next(s, run[0]), run[1..]))
  }

  function Exec(s: Sd, run: seq<Event>): Sd
    requires Sized(s) && Runs(s, run)
    decreases run
  {
    if run == [] then s else Exec(Next(s, run[0]), run[1..])
  }

  function Recorded(s: Sd, h: Trace, run: seq<Event>): Trace
    requires Sized(s) && Runs(s, run) && h.flushFrom <= h.activeFrom <= |h.lines|
    decreases run
  {
    if run == [] then h else Recorded(Next(s, run[0]), Record(s, h, run[0]), run[1..])
  }

  lemma {:induction false} AlwaysInv(s: Sd, h: Trace, run: seq<Event>)
    requires Inv(s, h) && Runs(s, run)
    ensures Inv(Exec(s, run), Recorded(s, h, run))
    decreases run
  {
    if run != [] {
      StepInv(s, h, run[0]);
      AlwaysInv(Next(s, run[0]), Record(s, h, run[0]), run[1..]);
    }
  }

  const NO_TRACE := Trace([], 0, 0, [], 0)

  lemma StartInv()
    ensures Inv(START, NO_TRACE)
  {
  }

  function LineOf(e: Event): seq<seq<char>> {
    match e
    case Line(line) => [line]
    case FlushRuns(_) => []
  }

  /** The lines a run submits, in order. */
  function Submitted(run: seq<Event>): seq<seq<char>> {
    if run == [] then [] else LineOf(run[0]) + Submitted(run[1..])
  }

  lemma RecordAppends(s: Sd, h: Trace, e: Event)
    requires Possible(s, e) && h.flushFrom <= h.activeFrom
    ensures Record(s, h, e).lines == h.lines + LineOf(e)
  {
  }

  lemma Regroup<T>(a: seq<T>, b: seq<T>, c: seq<T>)
    ensures (a + b) + c == a + (b + c)
  {
  }

  lemma {:induction false} RecordedLines(s: Sd, h: Trace, run: seq<Event>)
    requires Inv(s, h) && Runs(s, run)
    ensures Recorded(s, h, run).lines == h.lines + Submitted(run)
    decreases run
  {
    if run != [] {
      StepInv(s, h, run[0]);
      RecordAppends(s, h, run[0]);
      RecordedLines(Next(s, run[0]), Record(s, h, run[0]), run[1..]);
      Regroup(h.lines, LineOf(run[0]), Submitted(run[1..]));
    }
  }

  /** Whatever flushes are missed or fail, the file is made of whole submitted lines, in the order of their
      submission, each at most once; and the position never leaves the buffer. */
  lemma LogIsWholeLines(run: seq<Event>) returns (kept: seq<nat>)
    requires Runs(START, run)
    ensures Increasing(kept, |Submitted(run)|)
    ensures Exec(START, run).file == Join(Pick(Submitted(run), kept))
    ensures Exec(START, run).pos < BUFFER_SIZE
  {
    StartInv();
    AlwaysInv(START, NO_TRACE, run);
    RecordedLines(START, NO_TRACE, run);
    assert [] + Submitted(run) == Submitted(run);
    kept := Recorded(START, NO_TRACE, run).kept;
  }

  // ---- when the buffers are swapped -----------------------------------------------------------------

  /** A line that fits behind the collected text is added to it and nothing else happens; one that does not
      makes the collected text, however short, the one to be flushed, and starts a new one. */
  lemma SubmitEffect(s: Sd, h: Trace, line: seq<char>)
    requires BuffersOk(s, h) && Possible(s, Line(line))
    ensures var t := Submit(s, line);
      Sized(t) && t.file == s.file &&
      if |ActiveText(s)| + |line| < 1024
      then ActiveText(t) == ActiveText(s) + line && t.flush == s.flush && t.pending == s.pending
      else ActiveText(t) == line && FlushText(t) == ActiveText(s) && t.pending
  {
    if Swaps(s, line) {
      SwapHandsOver(s, h, line);
    } else {
      PlainLineTexts(s, line);
    }
  }

  /** Packing lines as long as they fit: where the lines start that are collected after the given ones. */
  function PackedFrom(lines: seq<seq<char>>): (from: nat)
    ensures from <= |lines|
    decreases |lines|
  {
    if lines == [] then 0 else
    var n := |lines| - 1;
    var from := PackedFrom(lines[..n]);
    if |Join(lines[from..n])| + |lines[n]| < 1024 then from else n
  }

  lemma PackedMore(lines: seq<seq<char>>, line: seq<char>)
    ensures PackedFrom(lines + [line]) ==
            if |Join(lines[PackedFrom(lines)..])| + |line| < 1024 then PackedFrom(lines) else |lines|
  {
    var more, from := lines + [line], PackedFrom(lines);
    assert more[..|lines|] == lines && more[from..|lines|] == lines[from..];
  }

  lemma {:induction false} ShortNeverPacked(lines: seq<seq<char>>)
    requires |Join(lines)| < 1024
    ensures PackedFrom(lines) == 0
    decreases |lines|
  {
    if lines != [] {
      var n := |lines| - 1;
      assert Join(lines) == Join(lines[..n]) + lines[n];
      ShortNeverPacked(lines[..n]);
      assert lines[0..n] == lines[..n];
    }
  }

  ghost predicate Packed(s: Sd, h: Trace) { BuffersOk(s, h) && h.activeFrom == PackedFrom(h.lines) }

  lemma StepPacked(s: Sd, h: Trace, e: Event)
    requires Inv(s, h) && Packed(s, h) && Possible(s, e)
    ensures Packed(Next(s, e), Record(s, h, e))
  {
    StepInv(s, h, e);
    if e.Line? {
      PackedMore(h.lines, e.line);
      LineFrom(s, h, e.line);
    }
  }

  lemma LineFrom(s: Sd, h: Trace, line: seq<char>)
    requires Sized(s) && Possible(s, Line(line)) && h.flushFrom <= h.activeFrom
    ensures Record(s, h, Line(line)).lines == h.lines + [line]
    ensures Record(s, h, Line(line)).activeFrom == if |ActiveText(s)| + |line| < 1024 then h.activeFrom else |h.lines|
  {
    assert |ActiveText(s)| == s.pos;
  }

  lemma {:induction false} AlwaysPacked(s: Sd, h: Trace, run: seq<Event>)
    requires Inv(s, h) && Packed(s, h) && Runs(s, run)
    ensures Packed(Exec(s, run), Recorded(s, h, run))
    decreases run
  {
    if run != [] {
      StepInv(s, h, run[0]);
      StepPacked(s, h, run[0]);
      AlwaysPacked(Next(s, run[0]), Record(s, h, run[0]), run[1..]);
    }
  }

  /** In every run, whatever is flushed and when, the text being collected is that of the lines that packing
      leaves: a swap happens only when the next line does not fit into 1024 characters with its terminator. */
  lemma CollectsWhatFits(run: seq<Event>)
    requires Runs(START, run)
    ensures var s, lines := Exec(START, run), Submitted(run);
      Sized(s) && ActiveText(s) == Join(lines[PackedFrom(lines)..])
  {
    StartInv();
    AlwaysInv(START, NO_TRACE, run);
    AlwaysPacked(START, NO_TRACE, run);
    RecordedLines(START, NO_TRACE, run);
    assert [] + Submitted(run) == Submitted(run);
  }

  /** Nothing is submitted to be flushed before the lines fill a buffer. */
  lemma {:induction false} ShortRunStays(s: Sd, h: Trace, run: seq<Event>)
    requires Inv(s, h) && !s.pending && s.file == [] && h.activeFrom == 0 && Runs(s, run)
    requires |Join(h.lines + Submitted(run))| < 1024
    ensures var t := Exec(s, run); !t.pending && t.file == []
    decreases run
  {
    if run != [] {
      var e, g := run[0], Record(s, h, run[0]);
      StepInv(s, h, e);
      RecordAppends(s, h, e);
      Regroup(h.lines, LineOf(e), Submitted(run[1..]));
      JoinAppend(g.lines, Submitted(run[1..]));
      JoinOne(h.lines, e.line);
      SubmitEffect(s, h, e.line);
      assert h.lines[0..] == h.lines;
      ShortRunStays(Next(s, e), g, run[1..]);
    }
  }

  /** A run whose lines total less than 1024 characters leaves them all in the buffer that collects. */
  lemma ShortRunOnlyCollects(run: seq<Event>)
    requires Runs(START, run) && |Join(Submitted(run))| < 1024
    ensures var s := Exec(START, run);
      Sized(s) && ActiveText(s) == Join(Submitted(run)) && !s.pending && s.file == []
  {
    StartInv();
    assert [] + Submitted(run) == Submitted(run);
    ShortRunStays(START, NO_TRACE, run);
    CollectsWhatFits(run);
    ShortNeverPacked(Submitted(run));
    assert Submitted(run)[0..] == Submitted(run);
  }

  // ---- when nothing is lost ----------------------------------------------------------------------------

  /** Every flush is stored, and before a line is submitted that no longer fits behind the collected text. */
  predicate InTime(s: Sd, run: seq<Event>)
    requires Sized(s) && Runs(s, run)
    decreases run
  {
    run == [] || (
      && (match run[0]
          case Line(line) => |ActiveText(s)| + |line| >= 1024 ==> !s.pending
          case FlushRuns(o) => Stored(o))
      && InTime(Next(s, run[0]), run[1..]))
  }

  lemma {:induction false} LostOnlyGrows(s: Sd, h: Trace, run: seq<Event>)
    requires Inv(s, h) && Runs(s, run)
    ensures Recorded(s, h, run).lost >= h.lost
    decreases run
  {
    if run != [] {
      StepInv(s, h, run[0]);
      LostOnlyGrows(Next(s, run[0]), Record(s, h, run[0]), run[1..]);
    }
  }

  ghost predicate HandedOver(s: Sd) { s.pending ==> FlushText(s) != [] }

  lemma StepHandsOver(s: Sd, h: Trace, e: Event)
    requires Inv(s, h) && HandedOver(s) && Possible(s, e)
    ensures HandedOver(Next(s, e))
  {
    if e.Line? && Swaps(s, e.line) {
      SwapHandsOver(s, h, e.line);
    }
  }

  lemma {:induction false} LostNothingIffInTime(s: Sd, h: Trace, run: seq<Event>)
    requires Inv(s, h) && HandedOver(s) && Runs(s, run) && h.lost == 0
    ensures Recorded(s, h, run).lost == 0 <==> InTime(s, run)
    decreases run
  {
    if run != [] {
      var t, g := Next(s, run[0]), Record(s, h, run[0]);
      StepInv(s, h, run[0]);
      StepHandsOver(s, h, run[0]);
      if g.lost == 0 {
        LostNothingIffInTime(t, g, run[1..]);
      } else {
        LostOnlyGrows(t, g, run[1..]);
      }
    }
  }

  /** The file, the text waiting to be flushed and the text being collected are together all that was ever
      submitted exactly when every flush succeeded before the next swap. */
  lemma LogRefinesAppendIffInTime(run: seq<Event>)
    requires Runs(START, run)
    ensures var s := Exec(START, run);
      Sized(s) && (s.file + PendingText(s) + ActiveText(s) == Join(Submitted(run)) <==> InTime(START, run))
  {
    StartInv();
    AlwaysInv(START, NO_TRACE, run);
    RecordedLines(START, NO_TRACE, run);
    assert [] + Submitted(run) == Submitted(run);
    LostNothingIffInTime(START, NO_TRACE, run);
  }

  // ---- the source's form -------------------------------------------------------------------------------

  class SdCard {
    var activeBuf: array<char>
    var flushBuf: array<char>
    var activePos: nat
    var workPending: bool
    var file: seq<char>

    ghost predicate Valid()
      reads this
    {
      activeBuf != flushBuf && activeBuf.Length == flushBuf.Length == BUFFER_SIZE && activePos < BUFFER_SIZE
    }

    ghost function View(): Sd
      reads this, activeBuf, flushBuf
    {
      Sd(activeBuf[..], flushBuf[..], activePos, workPending, file)
    }

    constructor ()
      ensures Valid() && View() == START && fresh(activeBuf) && fresh(flushBuf)
    {
      activeBuf := new char[BUFFER_SIZE](_ => NUL);
      flushBuf := new char[BUFFER_SIZE](_ => NUL);
      activePos, workPending, file := 0, false, [];
      new;
      assert activeBuf[..] == BLANK && flushBuf[..] == BLANK;
    }

    /** sd_card_submit_line; `lockError` is 0 when the mutex is obtained. */
    method SubmitLine(line: seq<char>, lockError: int) returns (r: int)
      requires Valid() && |line| < BUFFER_SIZE
      modifies this, activeBuf, flushBuf
      ensures Valid() && {activeBuf, flushBuf} == old({activeBuf, flushBuf})
      ensures r == lockError
      ensures View() == if lockError != 0 then old(View()) else Submit(old(View()), line)
      ensures lockError == 0 && old(activePos) + |line| < 1024 ==>
                && activeBuf == old(activeBuf) && workPending == old(workPending)
                && activePos == old(activePos) + |line| && activeBuf[..activePos] == old(activeBuf[..activePos]) + line
      ensures lockError == 0 && old(activePos) + |line| >= 1024 ==>
                && flushBuf == old(activeBuf) && workPending
                && flushBuf[..old(activePos)] == old(activeBuf[..activePos]) && flushBuf[old(activePos)] == NUL
                && activePos == |line| && activeBuf[..activePos] == line
    {
      if lockError != 0 {
        return lockError;
      }
      if activePos + |line| >= BUFFER_SIZE {
        activeBuf[activePos] := NUL;
        activeBuf, flushBuf := flushBuf, activeBuf;
        activePos := 0;
        workPending := true;
      }
      forall k | 0 <= k < |line| {
        activeBuf[activePos + k] := line[k];
      }
      activePos := activePos + |line|;
      return 0;
    }

    /** sd_writer_work_handler. */
    method WriterWork(outcome: Outcome)
      requires Valid() && workPending
      modifies this`workPending, this`file
      ensures Valid() && View() == Flush(old(View()), outcome)
      ensures !workPending && file == match outcome
                                      case Written => old(file) + UpToNul(flushBuf[..])
                                      case CloseFailed(kept) => if kept then old(file) + UpToNul(flushBuf[..]) else old(file)
                                      case _ => old(file)
    {
      workPending := false;
      if outcome == MountFailed || outcome == OpenFailed {
        return;
      }
      var len := StrNLen(flushBuf[..]);
      if Stored(outcome) {
        file := file + flushBuf[..len];
      }
      assert flushBuf[..][..len] == flushBuf[..len];
    }
  }
}
