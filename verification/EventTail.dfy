/** Tailing an append-only event file: what a poll reads, and what is dispatched
    however appends and polls interleave. */
module EventTail {
  import opened Wrappers

  /** What a line decodes to; decoding itself is a parameter. A run number that
      is missing or of another type is 0. */
  datatype Decoded = Malformed | Event(kind: string, runSeq: int)

  type Decoder = string -> Decoded

  const TERMINAL_TYPES: set<string> := {"run_completed", "run_failed", "run_terminated"}

  /** The size of the scanner's buffer, which a line and its end must fit. Sizes and
      offsets count bytes: a character of a file stands for one byte. */
  const MAX_BUFFER: nat := 1024 * 1024

  /** The run that a line reports as terminal, if any. */
  function RunOf(decode: Decoder, line: string): Option<int> {
    match decode(line)
    case Malformed => None
    case Event(kind, runSeq) => if kind in TERMINAL_TYPES && runSeq != 0 then Some(runSeq) else None
  }

  /** The runs that lines report as terminal, in order. */
  function Runs(decode: Decoder, lines: seq<string>): seq<int> {
    if lines == [] then []
    else
      var runs := Runs(decode, lines[..|lines| - 1]);
      match RunOf(decode, lines[|lines| - 1])
      case None => runs
      case Some(run) => runs + [run]
  }

  lemma {:induction false} RunsConcat(decode: Decoder, a: seq<string>, b: seq<string>)
    ensures Runs(decode, a + b) == Runs(decode, a) + Runs(decode, b)
    decreases |b|
  {
    if b == [] {
      assert a + b == a;
    } else {
      assert (a + b)[..|a + b| - 1] == a + b[..|b| - 1];
      RunsConcat(decode, a, b[..|b| - 1]);
    }
  }

  lemma {:induction false} RunsSplit(decode: Decoder, lines: seq<string>, n: nat)
    requires n <= |lines|
    ensures Runs(decode, lines) == Runs(decode, lines[..n]) + Runs(decode, lines[n..])
  {
    assert lines == lines[..n] + lines[n..];
    RunsConcat(decode, lines[..n], lines[n..]);
  }

  /** A line that reports the end of a run: one of three kinds of event, with a run
      number. */
  predicate Reports(decode: Decoder, line: string, run: int) {
    match decode(line)
    case Malformed => false
    case Event(kind, runSeq) =>
      && (kind == "run_completed" || kind == "run_failed" || kind == "run_terminated")
      && runSeq != 0 && run == runSeq
  }

  ghost predicate ReportsEnd(decode: Decoder, line: string) {
    exists run :: Reports(decode, line, run)
  }

  /** Exactly the places of the lines that report an end, in order. */
  ghost predicate AreReports(decode: Decoder, lines: seq<string>, at: seq<nat>) {
    && (forall k, l | 0 <= k < l < |at| :: at[k] < at[l])
    && forall i: nat :: i in at <==> i < |lines| && ReportsEnd(decode, lines[i])
  }

  ghost predicate ReportInTurn(decode: Decoder, lines: seq<string>, at: seq<nat>, runs: seq<int>) {
    |at| == |runs| && forall k | 0 <= k < |at| :: at[k] < |lines| && Reports(decode, lines[at[k]], runs[k])
  }

  lemma ReportsIff(decode: Decoder, line: string)
    ensures ReportsEnd(decode, line) <==> RunOf(decode, line).Some?
    ensures RunOf(decode, line).Some? ==> Reports(decode, line, RunOf(decode, line).value)
  {
    if RunOf(decode, line).Some? {
      assert Reports(decode, line, RunOf(decode, line).value);
    }
  }

  /** The runs that lines report: one for each line that reports an end, in order. */
  lemma {:induction false} RunsAreReported(decode: Decoder, lines: seq<string>) returns (at: seq<nat>)
    ensures AreReports(decode, lines, at) && ReportInTurn(decode, lines, at, Runs(decode, lines))
    decreases |lines|
  {
    at := [];
    if lines != [] {
      var n := |lines| - 1;
      at := RunsAreReported(decode, lines[..n]);
      ReportsIff(decode, lines[n]);
      ReportsGrow(decode, lines, at);
      var run := RunOf(decode, lines[n]);
      TurnGrows(decode, lines, at, Runs(decode, lines[..n]), if run.Some? then run.value else 0);
      if run.Some? {
        at := at + [n];
      }
    }
  }

  lemma TurnGrows(decode: Decoder, lines: seq<string>, at: seq<nat>, runs: seq<int>, run: int)
    requires lines != [] && ReportInTurn(decode, lines[..|lines| - 1], at, runs)
    ensures ReportInTurn(decode, lines, at, runs)
    ensures Reports(decode, lines[|lines| - 1], run)
        ==> ReportInTurn(decode, lines, at + [|lines| - 1], runs + [run])
  {
  }

  lemma ReportsGrow(decode: Decoder, lines: seq<string>, at: seq<nat>)
    requires lines != [] && AreReports(decode, lines[..|lines| - 1], at)
    ensures AreReports(decode, lines, if ReportsEnd(decode, lines[|lines| - 1]) then at + [|lines| - 1] else at)
  {
    var n := |lines| - 1;
    var init := lines[..n];
    var more := if ReportsEnd(decode, lines[n]) then at + [n] else at;
    forall i: nat
      ensures i in more <==> i < |lines| && ReportsEnd(decode, lines[i])
    {
      assert i in at <==> i < n && ReportsEnd(decode, init[i]);
      assert i in more <==> i in at || (i == n && ReportsEnd(decode, lines[n]));
    }
    forall k, l | 0 <= k < l < |more|
      ensures more[k] < more[l]
    {
      assert at[k] in at;
    }
  }

  // ---------------------------------------------------------------- one poll

  /** The end of the line that i lies on. */
  function LineEnd(s: string, i: nat): (e: nat)
    requires i <= |s|
    ensures i <= e <= |s|
    decreases |s| - i
  {
    if i < |s| && s[i] != '\n' then LineEnd(s, i + 1) else i
  }

  /** The line end is the first newline, or the end of the text. */
  lemma {:induction false} LineEndIs(s: string, i: nat, e: nat)
    requires i <= e <= |s| && (e < |s| ==> s[e] == '\n')
    requires forall j | i <= j < e :: s[j] != '\n'
    ensures LineEnd(s, i) == e
    decreases e - i
  {
    if i < e {
      LineEndIs(s, i + 1, e);
    }
  }

  lemma {:induction false} NoNewlineBefore(s: string, i: nat)
    requires i <= |s|
    ensures forall j | i <= j < LineEnd(s, i) :: s[j] != '\n'
    ensures LineEnd(s, i) < |s| ==> s[LineEnd(s, i)] == '\n'
    decreases |s| - i
  {
    if i < |s| && s[i] != '\n' {
      NoNewlineBefore(s, i + 1);
    }
  }

  predicate EndsInReturn(s: string, from: nat, to: nat)
    requires from <= to <= |s|
  {
    from < to && s[to - 1] == '\r'
  }

  /** A line as the scanner hands it out, without a carriage return at its end. */
  function LineAt(s: string, from: nat, to: nat): string
    requires from <= to <= |s|
  {
    if EndsInReturn(s, from, to) then s[from..to - 1] else s[from..to]
  }

  /** The lines read, the offset counted up for them, and whether the scanner
      gave up on a line that does not fit its buffer. */
  datatype Scan = Scan(lines: seq<string>, offset: nat, tooLong: bool)

  /** Reads lines from a place on, counting their lengths onto an offset. */
  function ScanFrom(s: string, at: nat, offset: nat): Scan
    requires at <= |s|
    decreases |s| - at
  {
    if at == |s| then
      Scan([], offset, false)
    else
      var e := LineEnd(s, at);
      if e - at >= MAX_BUFFER then
        Scan([], offset, true)
      else
        var line := LineAt(s, at, e);
        var rest := ScanFrom(s, if e < |s| then e + 1 else e, offset + |line| + 1);
        Scan([line] + rest.lines, rest.offset, rest.tooLong)
  }

  /** One poll: a missing file leaves the offset, a file shorter than the offset
      is read from its start. */
  function Poll(file: Option<string>, offset: nat): Scan {
    match file
    case None => Scan([], offset, false)
    case Some(s) => var start := if |s| < offset then 0 else offset; ScanFrom(s, start, start)
  }

  /** A line of a file, up to a line end or the end of the file. */
  ghost predicate Extends(s: string, from: nat, to: nat) {
    from < |s| && from <= to <= |s| && (to < |s| ==> s[to] == '\n') && forall i | from <= i < to :: s[i] != '\n'
  }

  /** What is read of a line that fits the buffer: all but a return at its end. */
  ghost predicate IsLine(s: string, from: nat, to: nat, line: string) {
    && Extends(s, from, to) && to - from < 1048576
    && line == if from < to && s[to - 1] == '\r' then s[from..to - 1] else s[from..to]
  }

  /** Line after line, up to these ends. */
  ghost predicate AreLines(s: string, at: nat, ends: seq<nat>, lines: seq<string>)
    decreases |ends|
  {
    && |ends| == |lines|
    && (ends != [] ==> IsLine(s, at, ends[0], lines[0]) && AreLines(s, ends[0] + 1, ends[1..], lines[1..]))
  }

  function Behind(at: nat, ends: seq<nat>): nat {
    if ends == [] then at else ends[|ends| - 1] + 1
  }

  /** The lines, each with a line end. */
  function SizeOf(lines: seq<string>): nat {
    if lines == [] then 0 else |lines[0]| + 1 + SizeOf(lines[1..])
  }

  /** Reading ends at the end of the file, or at a line that does not fit. */
  ghost predicate EndsAt(s: string, from: nat, tooLong: bool) {
    if tooLong then exists to: nat :: Extends(s, from, to) && to - from >= 1048576 else from >= |s|
  }

  /** What a scan reads: line after line, and where it leaves the offset. */
  ghost predicate IsScan(s: string, at: nat, offset: nat, scan: Scan, ends: seq<nat>) {
    && AreLines(s, at, ends, scan.lines) && EndsAt(s, Behind(at, ends), scan.tooLong)
    && scan.offset == offset + SizeOf(scan.lines)
  }

  lemma LineReads(s: string, at: nat)
    requires at < |s|
    ensures var e := LineEnd(s, at);
      Extends(s, at, e) && (e - at < 1048576 ==> IsLine(s, at, e, LineAt(s, at, e)))
  {
    NoNewlineBefore(s, at);
  }

  lemma {:induction false} ScanReads(s: string, at: nat, offset: nat) returns (ends: seq<nat>)
    requires at <= |s|
    ensures IsScan(s, at, offset, ScanFrom(s, at, offset), ends)
    decreases |s| - at
  {
    ends := [];
    if at < |s| {
      var e := LineEnd(s, at);
      LineReads(s, at);
      if e - at < MAX_BUFFER {
        var next, more := if e < |s| then e + 1 else e, offset + |LineAt(s, at, e)| + 1;
        ends := ScanReads(s, next, more);
        ScanOne(s, at, offset, e, next, more, ends);
        ends := [e] + ends;
      }
    }
  }

  lemma ScanOne(s: string, at: nat, offset: nat, e: nat, next: nat, more: nat, ends: seq<nat>)
    requires at < |s| && e == LineEnd(s, at) && e - at < MAX_BUFFER && IsLine(s, at, e, LineAt(s, at, e))
    requires next == (if e < |s| then e + 1 else e) && more == offset + |LineAt(s, at, e)| + 1
    requires IsScan(s, next, more, ScanFrom(s, next, more), ends)
    ensures IsScan(s, at, offset, ScanFrom(s, at, offset), [e] + ends)
  {
    if next == |s| {
      NothingReads(s, more, ends);
    }
    OneLineMore(s, at, e, LineAt(s, at, e), ends, ScanFrom(s, next, more), offset);
  }

  lemma NothingReads(s: string, offset: nat, ends: seq<nat>)
    requires IsScan(s, |s|, offset, ScanFrom(s, |s|, offset), ends)
    ensures ends == []
  {
  }

  lemma OneLineMore(s: string, at: nat, e: nat, line: string, ends: seq<nat>, rest: Scan, offset: nat)
    requires IsLine(s, at, e, line)
    requires var next := if e < |s| then e + 1 else e;
      IsScan(s, next, offset + |line| + 1, rest, ends) && (next == |s| ==> ends == [])
    ensures IsScan(s, at, offset, Scan([line] + rest.lines, rest.offset, rest.tooLong), [e] + ends)
  {
    assert ([e] + ends)[1..] == ends && ([line] + rest.lines)[1..] == rest.lines;
    if e == |s| {
      assert !rest.tooLong;
    }
  }

  /** A poll reads from the offset on, or from the start of a file that is shorter. */
  lemma PollReads(s: string, offset: nat) returns (from: nat, ends: seq<nat>)
    ensures from == if |s| < offset then 0 else offset
    ensures IsScan(s, from, from, Poll(Some(s), offset), ends)
    ensures Poll(None, offset) == Scan([], offset, false)
  {
    from := if |s| < offset then 0 else offset;
    ends := ScanReads(s, from, from);
  }

  /** The places where lines start that end in a carriage return. */
  function Returns(s: string, at: nat): nat
    requires at <= |s|
    decreases |s| - at
  {
    if at == |s| then 0
    else
      var e := LineEnd(s, at);
      (if EndsInReturn(s, at, e) then 1 else 0) + Returns(s, if e < |s| then e + 1 else e)
  }

  /** Every line from a place on fits the buffer. */
  predicate Fits(s: string, at: nat)
    requires at <= |s|
    decreases |s| - at
  {
    at == |s| ||
    var e := LineEnd(s, at);
    e - at < MAX_BUFFER && Fits(s, if e < |s| then e + 1 else e)
  }

  /** The text from a place on does not end with a line end. */
  predicate Unterminated(s: string, at: nat)
    requires at <= |s|
  {
    at < |s| && s[|s| - 1] != '\n'
  }

  lemma UnterminatedRest(s: string, at: nat)
    requires at < |s|
    ensures var e := LineEnd(s, at);
      if e < |s| then Unterminated(s, e + 1) <==> Unterminated(s, at) else Unterminated(s, at) && !Unterminated(s, e)
  {
    NoNewlineBefore(s, at);
  }

  /** Where a scan of lines that fit leaves the offset: short of the end of the
      file by one for every dropped carriage return, and one beyond it after a
      last line without a line end. */
  lemma {:induction false} OffsetAfterScan(s: string, at: nat, offset: nat)
    requires at <= |s| && Fits(s, at)
    ensures !ScanFrom(s, at, offset).tooLong
    ensures ScanFrom(s, at, offset).offset + Returns(s, at)
         == offset + (|s| - at) + (if Unterminated(s, at) then 1 else 0)
    decreases |s| - at
  {
    if at < |s| {
      var e := LineEnd(s, at);
      var next := if e < |s| then e + 1 else e;
      UnterminatedRest(s, at);
      LengthOfLine(s, at, e);
      OffsetAfterScan(s, next, offset + |LineAt(s, at, e)| + 1);
    }
  }

  lemma LengthOfLine(s: string, from: nat, to: nat)
    requires from <= to <= |s|
    ensures |LineAt(s, from, to)| + (if EndsInReturn(s, from, to) then 1 else 0) == to - from
  {
  }

  /** A poll ends exactly at the end of the file iff as many carriage returns are
      dropped as line ends are missing. */
  lemma PollReachesEndIff(s: string, offset: nat)
    requires offset <= |s| && Fits(s, offset)
    ensures Poll(Some(s), offset).offset == |s|
       <==> Returns(s, offset) == (if Unterminated(s, offset) then 1 else 0)
  {
    OffsetAfterScan(s, offset, offset);
  }

  /** After a file with an unterminated last line and no carriage returns, the
      next poll of the same file reads it again from the start. */
  lemma UnterminatedFileIsReadAgain(s: string, offset: nat)
    requires offset < |s| && Fits(s, offset) && Returns(s, offset) == 0 && Unterminated(s, offset)
    ensures Poll(Some(s), offset).offset == |s| + 1
    ensures Poll(Some(s), Poll(Some(s), offset).offset) == Poll(Some(s), 0)
  {
    OffsetAfterScan(s, offset, offset);
  }

  /** A line that does not fit stops every later poll, whatever is appended. */
  lemma OverlongLineStalls(s: string, offset: nat, more: string)
    requires offset < |s| && LineEnd(s, offset) - offset >= 1048576
    ensures Poll(Some(s + more), offset) == Scan([], offset, true)
  {
    LineEndGrows(s, offset, more);
  }

  lemma {:induction false} LineEndGrows(s: string, i: nat, more: string)
    requires i <= |s|
    ensures LineEnd(s, i) <= LineEnd(s + more, i)
    decreases |s| - i
  {
    if i < |s| {
      LineEndGrows(s, i + 1, more);
    }
  }

  // ---------------------------------------------------------------- any interleaving

  /** The bytes of whole lines. */
  function Text(lines: seq<string>): string {
    if lines == [] then "" else Text(lines[..|lines| - 1]) + lines[|lines| - 1] + "\n"
  }

  /** A line without carriage returns that fits the buffer. */
  predicate Clean(line: string) {
    '\n' !in line && '\r' !in line && |line| < 1048576
  }

  ghost predicate AllClean(lines: seq<string>) {
    forall line | line in lines :: Clean(line)
  }

  datatype Step = Append(lines: seq<string>) | Tick

  /** The file, the offset of the tailer and the runs it has dispatched. */
  datatype Tail = Tail(file: Option<string>, offset: nat, dispatched: seq<int>)

  function Content(file: Option<string>): string {
    if file.Some? then file.value else ""
  }

  /** Starting to watch: the offset is the size of the file. */
  function Watch(file: Option<string>): Tail {
    Tail(file, |Content(file)|, [])
  }

  function Next(decode: Decoder, tail: Tail, step: Step): Tail {
    match step
    case Append(lines) => tail.(file := Some(Content(tail.file) + Text(lines)))
    case Tick =>
      var scan := Poll(tail.file, tail.offset);
      tail.(offset := scan.offset, dispatched := tail.dispatched + Runs(decode, scan.lines))
  }

  function After(decode: Decoder, tail: Tail, steps: seq<Step>): Tail {
    if steps == [] then tail
    else Next(decode, After(decode, tail, steps[..|steps| - 1]), steps[|steps| - 1])
  }

  /** All the lines that steps append. */
  function Appended(steps: seq<Step>): seq<string> {
    if steps == [] then []
    else
      Appended(steps[..|steps| - 1])
      + match steps[|steps| - 1] case Append(lines) => lines case Tick => []
  }

  lemma {:induction false} TextConcat(a: seq<string>, b: seq<string>)
    ensures Text(a + b) == Text(a) + Text(b)
    decreases |b|
  {
    if b == [] {
      assert a + b == a;
    } else {
      var init, last := b[..|b| - 1], b[|b| - 1];
      assert (a + b)[..|a + b| - 1] == a + init;
      TextConcat(a, init);
      assert Text(a) + Text(init) + last + "\n" == Text(a) + (Text(init) + last + "\n");
    }
  }

  lemma TextCons(lines: seq<string>)
    requires lines != []
    ensures Text(lines) == lines[0] + "\n" + Text(lines[1..])
  {
    var first := [lines[0]];
    assert lines == first + lines[1..];
    TextConcat(first, lines[1..]);
    assert Text(first) == Text(first[..0]) + lines[0] + "\n" && first[..0] == [];
    assert Text([]) + lines[0] == lines[0];
  }

  lemma FirstLine(s: string, at: nat, first: string, rest: string)
    requires at <= |s| && s[at..] == first + "\n" + rest && Clean(first)
    ensures LineEnd(s, at) == at + |first| < |s| && LineAt(s, at, at + |first|) == first
    ensures s[at + |first| + 1..] == rest
  {
    assert forall j | 0 <= j < |first| :: s[at + j] == s[at..][j] == first[j];
    assert s[at + |first|] == s[at..][|first|] == '\n';
    assert s[at..at + |first|] == first;
    LineEndIs(s, at, at + |first|);
  }

  lemma ReadFirst(s: string, at: nat, lines: seq<string>)
    requires lines != [] && AllClean(lines) && at <= |s| && s[at..] == Text(lines)
    ensures |Text(lines)| == |lines[0]| + 1 + |Text(lines[1..])| && at + |lines[0]| < |s|
    ensures LineEnd(s, at) == at + |lines[0]| && LineAt(s, at, at + |lines[0]|) == lines[0]
    ensures s[at + |lines[0]| + 1..] == Text(lines[1..]) && AllClean(lines[1..]) && Clean(lines[0])
  {
    TextCons(lines);
    FirstLine(s, at, lines[0], Text(lines[1..]));
  }

  /** From a place on the file holds exactly these lines. */
  ghost predicate Holds(s: string, at: nat, lines: seq<string>)
    requires at <= |s|
    decreases |lines|
  {
    if lines == [] then
      at == |s|
    else
      && at + |lines[0]| < |s| && |lines[0]| < MAX_BUFFER
      && LineEnd(s, at) == at + |lines[0]| && LineAt(s, at, at + |lines[0]|) == lines[0]
      && Holds(s, at + |lines[0]| + 1, lines[1..])
  }

  lemma {:induction false} TextHolds(s: string, at: nat, lines: seq<string>)
    requires AllClean(lines) && at <= |s| && s[at..] == Text(lines)
    ensures Holds(s, at, lines)
    decreases |lines|
  {
    if lines == [] {
      assert |s[at..]| == |s| - at;
    } else {
      ReadFirst(s, at, lines);
      TextHolds(s, at + |lines[0]| + 1, lines[1..]);
    }
  }

  /** Clean lines are read back as they were written, and the offset moves to the
      end of the file. */
  lemma {:induction false} ScanOfLines(s: string, at: nat, lines: seq<string>, offset: nat)
    requires at <= |s| && Holds(s, at, lines)
    ensures ScanFrom(s, at, offset) == Scan(lines, offset + |s| - at, false)
    decreases |lines|
  {
    if lines != [] {
      ScanOfLines(s, at + |lines[0]| + 1, lines[1..], offset + |lines[0]| + 1);
      ConsLines(lines);
    }
  }

  lemma ConsLines(lines: seq<string>)
    requires lines != []
    ensures [lines[0]] + lines[1..] == lines
  {
  }

  /** The tailer of a file that held base when watching began has read the first
      of the lines appended since. */
  ghost predicate HasRead(decode: Decoder, base: string, all: seq<string>, tail: Tail, read: nat) {
    && read <= |all|
    && Content(tail.file) == base + Text(all) && (tail.file.None? ==> all == [])
    && tail.offset == |base| + |Text(all[..read])| <= |Content(tail.file)|
    && tail.dispatched == Runs(decode, all[..read])
  }

  lemma HasReadAfterAppend(decode: Decoder, base: string, all: seq<string>, tail: Tail, read: nat, lines: seq<string>)
    requires HasRead(decode, base, all, tail, read)
    ensures HasRead(decode, base, all + lines, Next(decode, tail, Append(lines)), read)
  {
    assert (all + lines)[..read] == all[..read];
    TextConcat(all, lines);
    assert base + Text(all) + Text(lines) == base + (Text(all) + Text(lines));
  }

  lemma HasReadAfterTick(decode: Decoder, base: string, all: seq<string>, tail: Tail, read: nat)
    requires HasRead(decode, base, all, tail, read) && AllClean(all)
    ensures HasRead(decode, base, all, Next(decode, tail, Tick), |all|)
  {
    assert all[..|all|] == all;
    if tail.file.Some? {
      PollReadsRest(base, all, tail.file.value, read);
      RunsSplit(decode, all, read);
    }
  }

  lemma RestOfText(base: string, all: seq<string>, s: string, read: nat)
    requires read <= |all| && s == base + Text(all)
    ensures |Text(all[..read])| <= |Text(all)|
    ensures s[|base| + |Text(all[..read])|..] == Text(all[read..])
  {
    assert all == all[..read] + all[read..];
    TextConcat(all[..read], all[read..]);
  }

  lemma PollReadsRest(base: string, all: seq<string>, s: string, read: nat)
    requires read <= |all| && AllClean(all) && s == base + Text(all)
    ensures |Text(all[..read])| <= |Text(all)|
    ensures Poll(Some(s), |base| + |Text(all[..read])|) == Scan(all[read..], |base| + |Text(all)|, false)
  {
    RestOfText(base, all, s, read);
    RestIsClean(all, read);
    PollAt(s, |base| + |Text(all[..read])|, all[read..]);
  }

  lemma RestIsClean(lines: seq<string>, n: nat)
    requires n <= |lines| && AllClean(lines)
    ensures AllClean(lines[n..])
  {
  }

  lemma PollAt(s: string, at: nat, lines: seq<string>)
    requires at <= |s| && s[at..] == Text(lines) && AllClean(lines)
    ensures Poll(Some(s), at) == Scan(lines, |s|, false)
  {
    TextHolds(s, at, lines);
    ScanOfLines(s, at, lines, at);
  }

  /** Whatever the file held when watching began, and however appends of whole
      clean lines and polls interleave: the dispatched runs are those of the
      lines appended so far up to the offset, once each and in order, and the
      offset sits behind a whole line. After a poll that is all of them. */
  lemma {:induction false} DispatchedExactlyOnce(decode: Decoder, file: Option<string>, steps: seq<Step>)
      returns (read: nat)
    requires AllClean(Appended(steps))
    ensures HasRead(decode, Content(file), Appended(steps), After(decode, Watch(file), steps), read)
    ensures steps != [] && steps[|steps| - 1] == Tick ==> read == |Appended(steps)|
    decreases |steps|
  {
    if steps == [] {
      read := 0;
    } else {
      var init, last := steps[..|steps| - 1], steps[|steps| - 1];
      var tail := After(decode, Watch(file), init);
      read := DispatchedExactlyOnce(decode, file, init);
      match last {
        case Append(lines) =>
          HasReadAfterAppend(decode, Content(file), Appended(init), tail, read, lines);
          assert Appended(steps) == Appended(init) + lines;
          assert After(decode, Watch(file), steps) == Next(decode, tail, Append(lines));
        case Tick =>
          HasReadAfterTick(decode, Content(file), Appended(init), tail, read);
          read := |Appended(init)|;
          assert Appended(steps) == Appended(init);
          assert After(decode, Watch(file), steps) == Next(decode, tail, Tick);
      }
    }
  }
}
