/** The SD-card sink of the datapoint thread, cores/control/src/datapoint/datapoint.c: from datapoints to
    the log file and back. */
module Logging {
  import opened Common
  import opened Text
  import opened Csv
  import opened SdLog

  /** What the datapoint thread hands to the sink: a datapoint of the schema whose float is rendered in at
      most 106 characters. */
  predicate Loggable(dp: Datapoint) { Schema(dp) && |Rendered(dp.f)| <= 106 }

  /** The line of a loggable datapoint is one the card accepts. */
  lemma LoggableLineFits(dp: Datapoint)
    requires Loggable(dp)
    ensures |CsvLine(dp)| < LINE_BUF < BUFFER_SIZE && NUL !in CsvLine(dp)
  {
    SchemaLength(dp);
    LineHasNoNul(dp);
  }

  /** The range of size_t, 32 bits wide. */
  const SIZE_RANGE: int := 0x1_0000_0000

  /** The first two lines of dp_sink_sd_card. The result of the line builder is taken for a length without a
      check, so an error code becomes a length near the top of the range: what is handed to the card is within
      the card's buffer exactly when the line fits the sink's. */
  method FormatLine(dp: Datapoint) returns (lineBuf: array<char>, lineLen: nat)
    ensures fresh(lineBuf) && lineBuf.Length == LINE_BUF
    ensures |CsvLine(dp)| < LINE_BUF ==> lineLen == |CsvLine(dp)| && lineBuf[..lineLen] == CsvLine(dp)
    ensures |CsvLine(dp)| >= LINE_BUF ==> lineLen == SIZE_RANGE - ENOMEM
    ensures lineLen < BUFFER_SIZE <==> |CsvLine(dp)| < LINE_BUF
  {
    lineBuf := new char[LINE_BUF](_ => NUL);
    ghost var was := lineBuf[..];
    var r := DatapointToCsv(Some(dp), lineBuf);
    lineLen := r % SIZE_RANGE;
    if r >= 0 {
      TerminatedShort(was, CsvLine(dp));
      assert lineBuf[..lineLen] == lineBuf[..][..lineLen];
    }
  }

  /** dp_sink_sd_card, for a line that fits: the card gets exactly the line of the datapoint; whether the
      card's mutex was free is not looked at. */
  method DpSinkSdCard(dp: Datapoint, card: SdCard, lockError: int)
    requires |CsvLine(dp)| < LINE_BUF && card.Valid()
    modifies card, card.activeBuf, card.flushBuf
    ensures card.Valid()
    ensures card.View() == if lockError != 0 then old(card.View()) else Submit(old(card.View()), CsvLine(dp))
  {
    var lineBuf, lineLen := FormatLine(dp);
    var _ := card.SubmitLine(lineBuf[..lineLen], lockError);
  }

  // ---- reading the log --------------------------------------------------------------------------

  function Rows(file: seq<char>): seq<seq<char>> {
    var pieces := Split(file, '\n');
    pieces[..|pieces| - 1]
  }

  /** A reader of log files. */
  function ReadLog(file: seq<char>): seq<Option<Datapoint>> {
    var rows := Rows(file);
    seq(|rows|, i requires 0 <= i < |rows| => ReadRow(rows[i]))
  }

  function Lines(dps: seq<Datapoint>): seq<seq<char>> {
    seq(|dps|, i requires 0 <= i < |dps| => CsvLine(dps[i]))
  }

  predicate AllPlain(dps: seq<Datapoint>) { forall i :: 0 <= i < |dps| ==> Plain(dps[i]) }

  lemma RowsOfLine(row: seq<char>, file: seq<char>)
    requires '\n' !in row
    ensures Rows(row + ['\n'] + file) == [row] + Rows(file)
  {
    SplitAt(row, file, '\n');
  }

  lemma {:induction false} RowHasNoNewline(cells: seq<seq<char>>)
    requires cells != [] && forall i :: 0 <= i < |cells| ==> '\n' !in cells[i]
    ensures |Row(cells)| > 0 && '\n' !in Row(cells)[..|Row(cells)| - 1]
    ensures Row(cells)[|Row(cells)| - 1] == '\n'
  {
    if |cells| > 1 {
      RowHasNoNewline(cells[1..]);
      var rest := Row(cells[1..]);
      assert Row(cells)[..|Row(cells)| - 1] == cells[0] + [','] + rest[..|rest| - 1];
    } else {
      assert Row(cells[1..]) == [];
      assert Row(cells)[..|Row(cells)| - 1] == cells[0];
    }
  }

  lemma ReadLogLine(dp: Datapoint, file: seq<char>)
    requires Plain(dp)
    ensures ReadLog(CsvLine(dp) + file) == [Some(dp)] + ReadLog(file)
  {
    var line := CsvLine(dp);
    PlainCells(dp);
    RowHasNoNewline(Cells(dp));
    ReadLine(dp);
    var row := line[..|line| - 1];
    assert line == row + ['\n'];
    RowsOfLine(row, file);
  }

  function AllSome(dps: seq<Datapoint>): seq<Option<Datapoint>> {
    seq(|dps|, i requires 0 <= i < |dps| => Some(dps[i]))
  }

  lemma FirstAndRest(dps: seq<Datapoint>)
    requires dps != []
    ensures Lines(dps) == [CsvLine(dps[0])] + Lines(dps[1..])
    ensures AllSome(dps) == [Some(dps[0])] + AllSome(dps[1..])
  {
  }

  /** Reading a file of datapoints' lines gives back the datapoints. */
  lemma {:induction false} ReadLogLines(dps: seq<Datapoint>)
    requires AllPlain(dps)
    ensures ReadLog(Join(Lines(dps))) == AllSome(dps)
  {
    if dps == [] {
      assert Split([], '\n') == [[]];
    } else {
      var rest := Join(Lines(dps[1..]));
      ReadLogLines(dps[1..]);
      FirstAndRest(dps);
      JoinFirst(CsvLine(dps[0]), Lines(dps[1..]));
      ReadLogLine(dps[0], rest);
    }
  }

  lemma JoinFirst(line: seq<char>, lines: seq<seq<char>>)
    ensures Join([line] + lines) == line + Join(lines)
  {
    JoinAppend([line], lines);
    assert [line] == [] + [line];
    JoinOne([], line);
  }

  /** The datapoints at the given positions. */
  function Picked(dps: seq<Datapoint>, kept: seq<nat>): seq<Datapoint>
    requires forall i :: 0 <= i < |kept| ==> kept[i] < |dps|
  {
    seq(|kept|, i requires 0 <= i < |kept| => dps[kept[i]])
  }

  /** Whatever flushes are missed or fail, reading the log back gives datapoints that were logged, each
      unchanged, at most once, and in the order they were logged. */
  lemma LogReadsBack(run: seq<Event>, dps: seq<Datapoint>) returns (kept: seq<nat>)
    requires Runs(START, run) && Submitted(run) == Lines(dps) && AllPlain(dps)
    ensures Increasing(kept, |dps|)
    ensures var read := ReadLog(Exec(START, run).file);
      |read| == |kept| && forall i :: 0 <= i < |kept| ==> read[i] == Some(dps[kept[i]])
  {
    kept := LogIsWholeLines(run);
    assert Pick(Submitted(run), kept) == Lines(Picked(dps, kept));
    ReadLogLines(Picked(dps, kept));
  }
}
