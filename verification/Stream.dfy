/** Incremental forms of whole streams: captureOpenCodeEvents (internal/agentprovider/opencode_events.go),
    which reads fragments of a JSONL stream, mirrorOpenCodeText (same file), which copies a bounded amount of
    text, and commandOutputPrefixWriter (internal/runner/console.go), which cuts command output into lines. */
module Stream {
  import opened Digraph

  const MAX_RAW_EVENT_BYTES: nat := 10 * 1024 * 1024
  const MAX_EVENT_LINE_BYTES: nat := 1024 * 1024
  const MAX_LOG_TEXT_BYTES: nat := 1024 * 1024
  const MAX_COMMAND_OUTPUT_LINE_BYTES: nat := 64 * 1024

  predicate NewlineFree(s: string) {
    '\n' !in s
  }

  predicate EndsLine(s: string) {
    s != [] && s[|s| - 1] == '\n'
  }

  /** A fragment as ReadSlice returns it: no newline except possibly at its end. */
  predicate IsFragment(s: string) {
    s != [] && NewlineFree(s[..|s| - 1])
  }

  // ---- The whole stream ---------------------------------------------------------------------

  datatype Parts = Parts(lines: seq<string>, rest: string)

  /** The complete lines of a stream, each with its newline, and what follows the last newline. */
  function Split(data: string): Parts {
    if data == [] then Parts([], "")
    else
      var so, c := Split(data[..|data| - 1]), data[|data| - 1];
      if c == '\n' then Parts(so.lines + [so.rest + [c]], "") else Parts(so.lines, so.rest + [c])
  }

  function Concat(parts: seq<string>): string {
    if parts == [] then "" else Concat(parts[..|parts| - 1]) + parts[|parts| - 1]
  }

  ghost predicate IsSplitOf(parts: Parts, data: string) {
    && Concat(parts.lines) + parts.rest == data && NewlineFree(parts.rest)
    && forall line :: line in parts.lines ==> IsFragment(line) && EndsLine(line)
  }

  lemma ConcatSnoc(lines: seq<string>, line: string)
    ensures Concat(lines + [line]) == Concat(lines) + line
  {
    assert (lines + [line])[..|lines|] == lines;
  }

  lemma SplitOfLine(so: Parts, data: string)
    requires IsSplitOf(so, data)
    ensures IsSplitOf(Parts(so.lines + [so.rest + "\n"], ""), data + "\n")
  {
    var line := so.rest + "\n";
    ConcatSnoc(so.lines, line);
    assert line[..|line| - 1] == so.rest;
    assert Concat(so.lines) + line == data + "\n";
  }

  lemma SplitOfChar(so: Parts, data: string, c: char)
    requires IsSplitOf(so, data) && c != '\n'
    ensures IsSplitOf(Parts(so.lines, so.rest + [c]), data + [c])
  {
    assert Concat(so.lines) + (so.rest + [c]) == data + [c];
  }

  /** Splitting loses nothing: lines end where the newlines are. */
  lemma {:induction false} SplitKeepsAll(data: string)
    ensures IsSplitOf(Split(data), data)
  {
    if data != [] {
      var init, c := data[..|data| - 1], data[|data| - 1];
      SplitKeepsAll(init);
      InitLast(data);
      if c == '\n' {
        SplitOfLine(Split(init), init);
      } else {
        SplitOfChar(Split(init), init, c);
      }
    }
  }

  /** A fragment extends the last line, or completes it. */
  lemma {:induction false} SplitFragment(data: string, f: string)
    requires IsFragment(f)
    ensures Split(data + f) ==
      if EndsLine(f) then Parts(Split(data).lines + [Split(data).rest + f], "")
      else Parts(Split(data).lines, Split(data).rest + f)
  {
    var init, c := f[..|f| - 1], f[|f| - 1];
    assert (data + f)[..|data + f| - 1] == data + init;
    SplitPlain(data, init);
    InitLast(f);
    assert Split(data).rest + f == Split(data).rest + init + [c];
  }

  lemma {:induction false} SplitPlain(data: string, f: string)
    requires NewlineFree(f)
    ensures Split(data + f) == Parts(Split(data).lines, Split(data).rest + f)
  {
    if f == [] {
      assert data + f == data && Split(data).rest + f == Split(data).rest;
    } else {
      var init, c := f[..|f| - 1], f[|f| - 1];
      assert c in f && (data + f)[..|data + f| - 1] == data + init;
      SplitPlain(data, init);
      InitLast(f);
      assert Split(data).rest + f == Split(data).rest + init + [c];
    }
  }

  /** What reading events does with a line: blank says that it is skipped, consume gives the new
      summary and whether the event was at fault. */
  datatype Reader<!S> = Reader(blank: string -> bool, consume: (S, string) -> (S, bool))

  datatype Seen<S> = Seen(summary: S, failed: bool)

  function ConsumeLine<S>(reader: Reader<S>, seen: Seen<S>, line: string): Seen<S> {
    if |line| > MAX_EVENT_LINE_BYTES then seen.(failed := true)
    else if line == "" || reader.blank(line) then seen
    else
      var (summary, fault) := reader.consume(seen.summary, line);
      Seen(summary, seen.failed || fault)
  }

  function ConsumeAll<S>(reader: Reader<S>, seen: Seen<S>, lines: seq<string>): Seen<S> {
    if lines == [] then seen
    else ConsumeLine(reader, ConsumeAll(reader, seen, lines[..|lines| - 1]), lines[|lines| - 1])
  }

  /** The summary and the verdict for a whole stream. */
  function Whole<S>(reader: Reader<S>, empty: S, data: string): Seen<S> {
    var seen := ConsumeLine(reader, ConsumeAll(reader, Seen(empty, false), Split(data).lines), Split(data).rest);
    seen.(failed := seen.failed || |data| > MAX_RAW_EVENT_BYTES)
  }

  function Capped(data: string): string {
    if |data| > MAX_RAW_EVENT_BYTES then data[..MAX_RAW_EVENT_BYTES] else data
  }

  // ---- The incremental form -------------------------------------------------------------------

  /** Everything the reading loop holds: the raw file, the line being collected, and whether an error
      has been noted. */
  datatype Capture<S> = Capture(raw: string, rawBytes: nat, line: string, lineTooLong: bool, summary: S, failed: bool)

  ghost predicate Reading<S>(reader: Reader<S>, empty: S, data: string, c: Capture<S>) {
    var parts := Split(data);
    var seen := ConsumeAll(reader, Seen(empty, false), parts.lines);
    && c.raw == Capped(data) && c.rawBytes == |data|
    && (c.lineTooLong <==> |parts.rest| > MAX_EVENT_LINE_BYTES)
    && c.line == (if c.lineTooLong then "" else parts.rest)
    && c.summary == seen.summary
    && (c.failed <==> seen.failed || |data| > MAX_RAW_EVENT_BYTES || c.lineTooLong)
  }

  /** What writeOpenCodeFragment adds to the file. */
  function Written(rawBytes: nat, fragment: string): string {
    if rawBytes >= MAX_RAW_EVENT_BYTES then ""
    else if |fragment| > MAX_RAW_EVENT_BYTES - rawBytes then fragment[..MAX_RAW_EVENT_BYTES - rawBytes]
    else fragment
  }

  /** The state after one fragment has been written and collected. */
  function Taken<S>(c: Capture<S>, fragment: string): Capture<S> {
    var tooLong := c.lineTooLong || |c.line| + |fragment| > MAX_EVENT_LINE_BYTES;
    Capture(
      c.raw + Written(c.rawBytes, fragment), c.rawBytes + |fragment|,
      if tooLong then "" else c.line + fragment, tooLong, c.summary,
      c.failed || c.rawBytes + |fragment| > MAX_RAW_EVENT_BYTES || tooLong)
  }

  /** The state after a line has been consumed. */
  function Finished<S>(reader: Reader<S>, c: Capture<S>): Capture<S> {
    var reset := c.(line := "", lineTooLong := false);
    if c.lineTooLong || c.line == "" || reader.blank(c.line) then reset
    else
      var (summary, fault) := reader.consume(c.summary, c.line);
      reset.(summary := summary, failed := c.failed || fault)
  }

  /** A fragment is written and collected, unless the file refuses it. */
  method TakeFragment<S>(c0: Capture<S>, fragment: string, writable: bool) returns (c: Capture<S>, ok: bool)
    requires fragment != [] && (c0.lineTooLong ==> c0.line == "" && c0.failed)
    ensures ok <==> writable || c0.rawBytes >= MAX_RAW_EVENT_BYTES
    ensures c == if ok then Taken(c0, fragment) else c0
  {
    c, ok := c0, true;
    if c.rawBytes < MAX_RAW_EVENT_BYTES && !writable {
      ok := false;
      return;
    }
    if c.rawBytes < MAX_RAW_EVENT_BYTES {
      var remaining := MAX_RAW_EVENT_BYTES - c.rawBytes;
      var written := if |fragment| > remaining then fragment[..remaining] else fragment;
      c := c.(raw := c.raw + written);
    }
    c := c.(rawBytes := c.rawBytes + |fragment|);
    if c.rawBytes > MAX_RAW_EVENT_BYTES {
      c := c.(failed := true);
    }
    if !c.lineTooLong && |c.line| + |fragment| > MAX_EVENT_LINE_BYTES {
      c := c.(failed := true, lineTooLong := true, line := "");
    }
    if !c.lineTooLong {
      c := c.(line := c.line + fragment);
    }
    assert c.raw == c0.raw + Written(c0.rawBytes, fragment);
  }

  method FinishLine<S>(reader: Reader<S>, c0: Capture<S>) returns (c: Capture<S>)
    ensures c == Finished(reader, c0)
  {
    c := c0.(line := "", lineTooLong := false);
    if c0.line == "" || c0.lineTooLong || reader.blank(c0.line) {
      return;
    }
    var (summary, fault) := reader.consume(c0.summary, c0.line);
    c := c.(summary := summary, failed := c0.failed || fault);
  }

  lemma CappedAppend(data: string, f: string)
    ensures Capped(data + f) == Capped(data) + Written(|data|, f)
  {
  }

  /** A fragment that does not end its line is collected. */
  lemma ReadingPlain<S>(reader: Reader<S>, empty: S, data: string, c: Capture<S>, f: string)
    requires Reading(reader, empty, data, c) && IsFragment(f) && !EndsLine(f)
    ensures Reading(reader, empty, data + f, Taken(c, f))
  {
    CappedAppend(data, f);
    SplitFragment(data, f);
  }

  /** A fragment that ends its line lets the whole line be consumed. */
  lemma ReadingLine<S>(reader: Reader<S>, empty: S, data: string, c: Capture<S>, f: string)
    requires Reading(reader, empty, data, c) && IsFragment(f) && EndsLine(f)
    ensures Reading(reader, empty, data + f, Finished(reader, Taken(c, f)))
  {
    CappedAppend(data, f);
    SplitFragment(data, f);
    var parts := Split(data);
    ConsumeSnoc(reader, Seen(empty, false), parts.lines, parts.rest + f);
  }

  lemma ConsumeSnoc<S>(reader: Reader<S>, seen: Seen<S>, lines: seq<string>, line: string)
    ensures ConsumeAll(reader, seen, lines + [line]) == ConsumeLine(reader, ConsumeAll(reader, seen, lines), line)
  {
    assert (lines + [line])[..|lines|] == lines;
  }

  /** How reading ends: at the end of the stream, with another read error, or because the file refused a write. */
  datatype Ending = AtEnd | ReadFails | WriteFails

  function Fragment(fragments: seq<string>, tail: string, k: nat): string
    requires k <= |fragments|
  {
    if k < |fragments| then fragments[k] else tail
  }

  /** Fragment k is the first whose write is tried and fails. */
  ghost predicate Refused(fragments: seq<string>, tail: string, writable: nat -> bool, k: nat) {
    && k <= |fragments| && Fragment(fragments, tail, k) != "" && !writable(k)
    && |Concat(fragments[..k])| < MAX_RAW_EVENT_BYTES && forall j: nat :: j < k ==> writable(j)
  }

  /** Nothing among the first k fragments was refused. */
  ghost predicate Accepted(fragments: seq<string>, writable: nat -> bool, k: nat) {
    k <= |fragments| && forall j: nat :: j < k ==> writable(j) || |Concat(fragments[..j])| >= MAX_RAW_EVENT_BYTES
  }

  lemma {:induction false} ConcatGrows(fragments: seq<string>, j: nat, k: nat)
    requires j <= k <= |fragments|
    ensures |Concat(fragments[..j])| <= |Concat(fragments[..k])|
    decreases k
  {
    if j < k {
      var h := k - 1;
      ConcatGrows(fragments, j, h);
      TakeSnoc(fragments, h);
      ConcatSnoc(fragments[..h], fragments[h]);
    }
  }

  lemma AcceptedSoWritable(fragments: seq<string>, writable: nat -> bool, k: nat)
    requires Accepted(fragments, writable, k) && |Concat(fragments[..k])| < MAX_RAW_EVENT_BYTES
    ensures forall j: nat :: j < k ==> writable(j)
  {
    forall j: nat | j < k
      ensures writable(j)
    {
      ConcatGrows(fragments, j, k);
    }
  }

  lemma NoneRefused(fragments: seq<string>, tail: string, writable: nat -> bool)
    requires Accepted(fragments, writable, |fragments|)
    requires tail == "" || writable(|fragments|) || |Concat(fragments)| >= MAX_RAW_EVENT_BYTES
    ensures forall k :: !Refused(fragments, tail, writable, k)
  {
    assert fragments[..|fragments|] == fragments;
  }

  /** What is known when the file refuses fragment k. */
  ghost predicate StoppedAt<S>(
    reader: Reader<S>, empty: S, fragments: seq<string>, tail: string, writable: nat -> bool, k: nat, c: Capture<S>)
  {
    Refused(fragments, tail, writable, k) && Reading(reader, empty, Concat(fragments[..k]), c)
  }

  /** The result of reading the whole stream: whatever fragments the reader returns, the raw file is the first
      10 MiB of the stream, and summary and verdict are those of the whole stream. After a read error the
      unfinished line is not looked at. A refused write leaves what the fragments before it gave. */
  ghost predicate Captured<S>(
    reader: Reader<S>, empty: S, fragments: seq<string>, tail: string, writable: nat -> bool, c: Capture<S>, ending: Ending)
  {
    var data := Concat(fragments) + tail;
    match ending
    case AtEnd => c.raw == Capped(data) && Seen(c.summary, c.failed) == Whole(reader, empty, data)
    case ReadFails => Reading(reader, empty, data, c)
    case WriteFails => exists k :: StoppedAt(reader, empty, fragments, tail, writable, k, c)
  }

  /** The state after a fragment has been read, and its line consumed if it is complete. */
  function Read<S>(reader: Reader<S>, c: Capture<S>, fragment: string): Capture<S> {
    if EndsLine(fragment) then Finished(reader, Taken(c, fragment)) else Taken(c, fragment)
  }

  method ReadFragment<S>(reader: Reader<S>, c0: Capture<S>, fragment: string, writable: bool)
    returns (c: Capture<S>, ok: bool)
    requires fragment != [] && (c0.lineTooLong ==> c0.line == "" && c0.failed)
    ensures ok <==> writable || c0.rawBytes >= MAX_RAW_EVENT_BYTES
    ensures c == if ok then Read(reader, c0, fragment) else c0
  {
    c, ok := TakeFragment(c0, fragment, writable);
    if ok && EndsLine(fragment) {
      c := FinishLine(reader, c);
    }
  }

  lemma ReadNext<S>(reader: Reader<S>, empty: S, fragments: seq<string>, i: nat, c: Capture<S>)
    requires i < |fragments| && IsFragment(fragments[i]) && Reading(reader, empty, Concat(fragments[..i]), c)
    ensures Reading(reader, empty, Concat(fragments[..i + 1]), Read(reader, c, fragments[i]))
  {
    TakeSnoc(fragments, i);
    ConcatSnoc(fragments[..i], fragments[i]);
    if EndsLine(fragments[i]) {
      ReadingLine(reader, empty, Concat(fragments[..i]), c, fragments[i]);
    } else {
      ReadingPlain(reader, empty, Concat(fragments[..i]), c, fragments[i]);
    }
  }

  lemma AcceptedNext(fragments: seq<string>, writable: nat -> bool, i: nat)
    requires i < |fragments| && Accepted(fragments, writable, i)
    requires writable(i) || |Concat(fragments[..i])| >= MAX_RAW_EVENT_BYTES
    ensures Accepted(fragments, writable, i + 1)
  {
  }

  lemma RefusedHere<S>(
    reader: Reader<S>, empty: S, fragments: seq<string>, tail: string, writable: nat -> bool, k: nat, c: Capture<S>)
    requires Accepted(fragments, writable, k) && Fragment(fragments, tail, k) != "" && !writable(k)
    requires Reading(reader, empty, Concat(fragments[..k]), c) && c.rawBytes < MAX_RAW_EVENT_BYTES
    ensures Captured(reader, empty, fragments, tail, writable, c, WriteFails) && Refused(fragments, tail, writable, k)
  {
    AcceptedSoWritable(fragments, writable, k);
    assert StoppedAt(reader, empty, fragments, tail, writable, k, c);
  }

  method ReadFragments<S>(reader: Reader<S>, empty: S, fragments: seq<string>, ghost tail: string, writable: nat -> bool)
    returns (c: Capture<S>, ok: bool)
    requires forall f :: f in fragments ==> IsFragment(f)
    ensures ok ==> Accepted(fragments, writable, |fragments|) && Reading(reader, empty, Concat(fragments), c)
    ensures !ok ==> Captured(reader, empty, fragments, tail, writable, c, WriteFails)
    ensures !ok ==> exists k :: Refused(fragments, tail, writable, k)
  {
    c, ok := Capture("", 0, "", false, empty, false), true;
    var i := 0;
    while i < |fragments|
      invariant 0 <= i <= |fragments| && Accepted(fragments, writable, i)
      invariant Reading(reader, empty, Concat(fragments[..i]), c)
    {
      assert fragments[i] in fragments;
      ReadNext(reader, empty, fragments, i, c);
      c, ok := ReadFragment(reader, c, fragments[i], writable(i));
      if !ok {
        RefusedHere(reader, empty, fragments, tail, writable, i, c);
        return;
      }
      AcceptedNext(fragments, writable, i);
      i := i + 1;
    }
    assert fragments[..i] == fragments;
    ok := true;
  }

  lemma TailRead<S>(reader: Reader<S>, empty: S, data: string, tail: string, c: Capture<S>)
    requires NewlineFree(tail) && tail != "" && Reading(reader, empty, data, c)
    ensures Reading(reader, empty, data + tail, Taken(c, tail))
  {
    assert tail[|tail| - 1] in tail && forall x :: x in tail[..|tail| - 1] ==> x in tail;
    ReadingPlain(reader, empty, data, c, tail);
  }

  /** captureOpenCodeEvents: the fragments that end lines or fill the buffer, then what comes with the end of the
      stream or with another read error. */
  method CaptureEvents<S>(
    reader: Reader<S>, empty: S, fragments: seq<string>, tail: string, writable: nat -> bool, broken: bool)
    returns (c: Capture<S>, ending: Ending)
    requires (forall f :: f in fragments ==> IsFragment(f)) && NewlineFree(tail)
    ensures Captured(reader, empty, fragments, tail, writable, c, ending)
    ensures ending.WriteFails? <==> exists k :: Refused(fragments, tail, writable, k)
    ensures !ending.WriteFails? ==> (ending.ReadFails? <==> broken)
  {
    var ok;
    c, ok := ReadFragments(reader, empty, fragments, tail, writable);
    if !ok {
      return c, WriteFails;
    }
    assert fragments[..|fragments|] == fragments;
    if |tail| > 0 {
      TailRead(reader, empty, Concat(fragments), tail, c);
      c, ok := TakeFragment(c, tail, writable(|fragments|));
      if !ok {
        RefusedHere(reader, empty, fragments, tail, writable, |fragments|, c);
        return c, WriteFails;
      }
    } else {
      assert Concat(fragments) + tail == Concat(fragments);
    }
    NoneRefused(fragments, tail, writable);
    if broken {
      return c, ReadFails;
    }
    ReadingEnds(reader, empty, Concat(fragments) + tail, c);
    c := FinishLine(reader, c);
    ending := AtEnd;
  }

  lemma ReadingEnds<S>(reader: Reader<S>, empty: S, data: string, c: Capture<S>)
    requires Reading(reader, empty, data, c)
    ensures var e := Finished(reader, c);
      e.raw == Capped(data) && Seen(e.summary, e.failed) == Whole(reader, empty, data)
  {
  }

  // ---- What a capture tells -----------------------------------------------------------------------

  /** The line holds an event: it is neither blank nor overlong. */
  ghost predicate IsEvent<S>(reader: Reader<S>, line: string) {
    line != "" && |line| <= MAX_EVENT_LINE_BYTES && !reader.blank(line)
  }

  /** The summaries before, between and after the lines: each event is consumed once, in order. */
  ghost predicate Summaries<S>(reader: Reader<S>, empty: S, lines: seq<string>, summaries: seq<S>) {
    && |summaries| == |lines| + 1 && summaries[0] == empty
    && forall i :: 0 <= i < |lines| ==>
         summaries[i + 1] == if IsEvent(reader, lines[i]) then reader.consume(summaries[i], lines[i]).0 else summaries[i]
  }

  /** Some line is overlong, or some event is at fault. */
  ghost predicate AnyFault<S>(reader: Reader<S>, lines: seq<string>, summaries: seq<S>)
    requires |summaries| == |lines| + 1
  {
    exists i :: 0 <= i < |lines|
      && (|lines[i]| > MAX_EVENT_LINE_BYTES || (IsEvent(reader, lines[i]) && reader.consume(summaries[i], lines[i]).1))
  }

  lemma SummariesNext<S>(reader: Reader<S>, empty: S, lines: seq<string>, before: seq<S>, line: string, next: S)
    requires Summaries(reader, empty, lines, before)
    requires next == if IsEvent(reader, line) then reader.consume(before[|lines|], line).0 else before[|lines|]
    ensures Summaries(reader, empty, lines + [line], before + [next])
    ensures AnyFault(reader, lines + [line], before + [next]) <==>
      AnyFault(reader, lines, before)
      || |line| > MAX_EVENT_LINE_BYTES || (IsEvent(reader, line) && reader.consume(before[|lines|], line).1)
  {
    var more, summaries := lines + [line], before + [next];
    assert forall i :: 0 <= i < |lines| ==> more[i] == lines[i] && summaries[i] == before[i];
    assert more[|lines|] == line && summaries[|lines|] == before[|lines|] && summaries[|more|] == next;
    if AnyFault(reader, lines, before) {
      var i :| 0 <= i < |lines|
        && (|lines[i]| > MAX_EVENT_LINE_BYTES || (IsEvent(reader, lines[i]) && reader.consume(before[i], lines[i]).1));
      assert more[i] == lines[i];
    }
  }

  lemma {:induction false} ConsumeAllIs<S>(reader: Reader<S>, empty: S, lines: seq<string>) returns (summaries: seq<S>)
    ensures Summaries(reader, empty, lines, summaries)
    ensures ConsumeAll(reader, Seen(empty, false), lines) ==
      Seen(summaries[|lines|], AnyFault(reader, lines, summaries))
    decreases |lines|
  {
    if lines == [] {
      summaries := [empty];
    } else {
      var init, line := lines[..|lines| - 1], lines[|lines| - 1];
      var before := ConsumeAllIs(reader, empty, init);
      var next := if IsEvent(reader, line) then reader.consume(before[|init|], line).0 else before[|init|];
      InitLast(lines);
      SummariesNext(reader, empty, init, before, line, next);
      summaries := before + [next];
    }
  }

  /** The lines that the text consists of: each but the last ends with its only newline, and the last has none. */
  ghost predicate AreLines(lines: seq<string>, rest: string, data: string) {
    && Concat(lines) + rest == data && NewlineFree(rest)
    && forall line :: line in lines ==> line != "" && line[|line| - 1] == '\n' && NewlineFree(line[..|line| - 1])
  }

  lemma SplitLines(data: string)
    ensures AreLines(Split(data).lines, Split(data).rest, data)
  {
    SplitKeepsAll(data);
  }

  /** A capture that reaches the end of the stream: the raw file is as much of the stream as fits; the summary is
      that of consuming the events one after another; and there is an error exactly if the stream or a line is too
      long or an event is at fault. */
  lemma CaptureAtEnd<S>(
    reader: Reader<S>, empty: S, fragments: seq<string>, tail: string, writable: nat -> bool, c: Capture<S>)
    returns (lines: seq<string>, rest: string, summaries: seq<S>)
    requires Captured(reader, empty, fragments, tail, writable, c, AtEnd)
    ensures var data := Concat(fragments) + tail;
      && AreLines(lines, rest, data) && Summaries(reader, empty, lines + [rest], summaries)
      && c.summary == summaries[|lines| + 1]
      && (c.failed <==> |data| > MAX_RAW_EVENT_BYTES || AnyFault(reader, lines + [rest], summaries))
      && c.raw <= data && |c.raw| == if |data| > MAX_RAW_EVENT_BYTES then MAX_RAW_EVENT_BYTES else |data|
  {
    var data := Concat(fragments) + tail;
    lines, rest := Split(data).lines, Split(data).rest;
    SplitLines(data);
    summaries := ConsumeAllIs(reader, empty, lines + [rest]);
    ConsumeSnoc(reader, Seen(empty, false), lines, rest);
  }

  /** A capture that a read error ends: the same for the complete lines; the unfinished one counts only if it is
      overlong. */
  lemma CaptureBroken<S>(
    reader: Reader<S>, empty: S, fragments: seq<string>, tail: string, writable: nat -> bool, c: Capture<S>)
    returns (lines: seq<string>, rest: string, summaries: seq<S>)
    requires Captured(reader, empty, fragments, tail, writable, c, ReadFails)
    ensures var data := Concat(fragments) + tail;
      && AreLines(lines, rest, data) && Summaries(reader, empty, lines, summaries)
      && c.summary == summaries[|lines|]
      && (c.failed <==> |data| > MAX_RAW_EVENT_BYTES || AnyFault(reader, lines, summaries) || |rest| > MAX_EVENT_LINE_BYTES)
      && c.raw <= data && |c.raw| == if |data| > MAX_RAW_EVENT_BYTES then MAX_RAW_EVENT_BYTES else |data|
  {
    var data := Concat(fragments) + tail;
    lines, rest := Split(data).lines, Split(data).rest;
    SplitLines(data);
    summaries := ConsumeAllIs(reader, empty, lines);
  }

  // ---- Mirrored text -----------------------------------------------------------------------------

  predicate Printable(c: char) {
    c == '\n' || c == '\t' || (c >= ' ' && c != '\U{7f}')
  }

  /** sanitizeProviderText: control characters other than newline and tab are dropped. */
  function Sanitize(text: string): string {
    if text == "" then ""
    else
      var last := text[|text| - 1];
      Sanitize(text[..|text| - 1]) + if Printable(last) then [last] else ""
  }

  lemma {:induction false} SanitizeConcat(a: string, b: string)
    ensures Sanitize(a + b) == Sanitize(a) + Sanitize(b)
  {
    if b == "" {
      assert a + b == a;
    } else {
      SanitizeConcat(a, b[..|b| - 1]);
      assert (a + b)[..|a + b| - 1] == a + b[..|b| - 1];
    }
  }

  /** Of a single character, a control character other than newline and tab is dropped. Together with
      SanitizeConcat this determines what becomes of a text. */
  lemma SanitizeChar(c: char)
    ensures Sanitize([c]) == if c != '\n' && c != '\t' && (c < '\U{20}' || c == '\U{7f}') then "" else [c]
  {
    assert [c][..0] == [];
  }

  function Terminated(text: string): string {
    if text == "" || EndsLine(text) then text else text + "\n"
  }

  function FirstText(text: string): string {
    if |text| > MAX_LOG_TEXT_BYTES then text[..MAX_LOG_TEXT_BYTES] else text
  }

  lemma FirstTextAppend(all: string, text: string)
    ensures FirstText(all + text) ==
      if |all + text| <= MAX_LOG_TEXT_BYTES then FirstText(all) + text
      else if |all| < MAX_LOG_TEXT_BYTES then FirstText(all) + text[..MAX_LOG_TEXT_BYTES - |all|]
      else FirstText(all)
  {
  }

  class TextMirror {
    var textBytes: nat
    var textOut: string

    constructor ()
      ensures Shows("")
    {
      textBytes, textOut := 0, "";
    }

    /** The output is the start of everything mirrored so far, up to the limit, without control characters. */
    ghost predicate Shows(all: string)
      reads this
    {
      textBytes == |FirstText(all)| && textOut == Sanitize(FirstText(all))
    }

    /** An error is reported exactly when the text no longer fits. */
    method MirrorText(text0: string, ghost all: string) returns (err: bool)
      requires Shows(all)
      modifies this
      ensures Shows(all + Terminated(text0))
      ensures err <==> text0 != "" && |all + Terminated(text0)| > MAX_LOG_TEXT_BYTES
    {
      if text0 == "" {
        assert all + text0 == all;
        return false;
      }
      var text := text0;
      if !EndsLine(text) {
        text := text + "\n";
      }
      FirstTextAppend(all, text);
      if textBytes + |text| > MAX_LOG_TEXT_BYTES {
        MirrorCappedText(text, all);
        return true;
      }
      SanitizeConcat(FirstText(all), text);
      textBytes := textBytes + |text|;
      textOut := textOut + Sanitize(text);
      return false;
    }

    /** What still fits is mirrored; from then on nothing does. */
    method MirrorCappedText(text: string, ghost all: string)
      requires Shows(all) && textBytes + |text| > MAX_LOG_TEXT_BYTES
      modifies this
      ensures Shows(all + text) && textBytes == MAX_LOG_TEXT_BYTES
    {
      var remaining := MAX_LOG_TEXT_BYTES - textBytes;
      FirstTextAppend(all, text);
      if remaining > 0 {
        SanitizeConcat(FirstText(all), text[..remaining]);
        textOut := textOut + Sanitize(text[..remaining]);
      }
      textBytes := MAX_LOG_TEXT_BYTES;
    }
  }

  // ---- Command output ---------------------------------------------------------------------------

  /** A line handed to the console; cut says that it was cut off at the limit or at the end, without a
      newline. */
  datatype Line = Line(text: string, cut: bool)

  function Text(lines: seq<Line>): string {
    if lines == [] then ""
    else
      var last := lines[|lines| - 1];
      Text(lines[..|lines| - 1]) + last.text + if last.cut then "" else "\n"
  }

  lemma TextSnoc(lines: seq<Line>, line: Line)
    ensures Text(lines + [line]) == Text(lines) + line.text + if line.cut then "" else "\n"
  {
    assert (lines + [line])[..|lines|] == lines;
  }

  lemma Regroup(a: string, text: string, end: string, rest: string, b: string)
    requires b == text + end + rest
    ensures a + text + end + rest == a + b
  {
  }

  lemma EmitKeeps(console: seq<Line>, buffer: string, index: nat, cut: bool)
    requires index <= |buffer| && (cut || (index < |buffer| && buffer[index] == '\n'))
    ensures Text(console + [Line(buffer[..index], cut)]) + buffer[if cut then index else index + 1..]
      == Text(console) + buffer
  {
    var text, end, rest := buffer[..index], if cut then "" else "\n", buffer[if cut then index else index + 1..];
    TextSnoc(console, Line(text, cut));
    Regroup(Text(console), text, end, rest, buffer);
  }

  /** What one Write may hand over: whole lines, and pieces cut exactly at the limit. */
  predicate FitsConsole(line: Line) {
    NewlineFree(line.text) && (line.cut ==> |line.text| == MAX_COMMAND_OUTPUT_LINE_BYTES)
  }

  /** The lines one Write hands over: whole lines first, then pieces cut from what follows the last newline. */
  ghost predicate Handed(console0: seq<Line>, console: seq<Line>, cutting: bool) {
    && console0 <= console
    && (forall i :: |console0| <= i < |console| ==> FitsConsole(console[i]) && (console[i].cut ==> cutting))
    && (forall i, j :: |console0| <= i < j < |console| && console[i].cut ==> console[j].cut)
  }

  class PrefixWriter {
    var buffer: string
    var console: seq<Line>

    constructor ()
      ensures buffer == "" && console == []
    {
      buffer, console := "", [];
    }

    /** Between calls the buffer is the start of one line and within the limit. */
    ghost predicate Valid()
      reads this
    {
      NewlineFree(buffer) && |buffer| <= MAX_COMMAND_OUTPUT_LINE_BYTES
    }

    /** Everything written so far. */
    ghost function Contents(): string
      reads this
    {
      Text(console) + buffer
    }

    method IndexByte() returns (index: int)
      ensures index < 0 ==> NewlineFree(buffer)
      ensures index >= 0 ==> index < |buffer| && buffer[index] == '\n' && NewlineFree(buffer[..index])
    {
      index := 0;
      while index < |buffer|
        invariant 0 <= index <= |buffer| && NewlineFree(buffer[..index])
      {
        if buffer[index] == '\n' {
          return;
        }
        index := index + 1;
      }
      assert buffer[..index] == buffer;
      index := -1;
    }

    method Emit(index: nat, cut: bool)
      requires index <= |buffer| && (cut || (index < |buffer| && buffer[index] == '\n'))
      modifies this
      ensures Contents() == old(Contents())
      ensures console == old(console) + [Line(old(buffer)[..index], cut)]
      ensures buffer == old(buffer)[if cut then index else index + 1..]
    {
      EmitKeeps(console, buffer, index, cut);
      console := console + [Line(buffer[..index], cut)];
      buffer := buffer[if cut then index else index + 1..];
    }

    /** Whole lines go to the console; what is left of an unfinished line is cut at the limit, and only as
        long as something remains after the cut. */
    method Write(p: string)
      requires Valid()
      modifies this
      ensures Valid() && Contents() == old(Contents()) + p
      ensures Handed(old(console), console, buffer != "")
    {
      buffer := buffer + p;
      assert Contents() == old(Contents()) + p;
      var index := IndexByte();
      while index >= 0
        invariant index < 0 ==> NewlineFree(buffer)
        invariant index >= 0 ==> index < |buffer| && buffer[index] == '\n' && NewlineFree(buffer[..index])
        invariant Contents() == old(Contents()) + p && Handed(old(console), console, false)
        decreases |buffer|, index
      {
        Emit(index, false);
        index := IndexByte();
      }
      while |buffer| > MAX_COMMAND_OUTPUT_LINE_BYTES
        invariant NewlineFree(buffer)
        invariant Contents() == old(Contents()) + p && Handed(old(console), console, buffer != "")
        decreases |buffer|
      {
        Emit(MAX_COMMAND_OUTPUT_LINE_BYTES, true);
      }
    }

    /** The unfinished line is handed over as it is; nothing is lost. */
    method Flush()
      requires Valid()
      modifies this
      ensures Valid() && buffer == "" && Contents() == old(Contents()) && Text(console) == old(Contents())
      ensures console == old(console) + if old(buffer) == "" then [] else [Line(old(buffer), true)]
    {
      if |buffer| == 0 {
        return;
      }
      assert buffer[..|buffer|] == buffer;
      Emit(|buffer|, true);
    }
  }
}
