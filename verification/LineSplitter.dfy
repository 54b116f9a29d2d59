// The read loop of parseArchive: a streaming splitter with a bounded line buffer.

module LineSplitter {
  import opened Common
  import opened Terms

  const LF: Byte := 10
  const CR: Byte := 13

  // ---------------------------------------------------------------- splitting a whole byte string

  /** A line without its LF, and where it starts. */
  datatype Line = Line(offset: nat, raw: Bytes)

  /** The terminated lines of a text, and the unterminated rest. */
  datatype Split = Split(lines: seq<Line>, openOffset: nat, open: Bytes)

  function SplitOf(content: Bytes): Split {
    if content == [] then Split([], 0, [])
    else
      var n := |content| - 1;
      var s := SplitOf(content[..n]);
      if content[n] == LF then Split(s.lines + [Line(s.openOffset, s.open)], n + 1, [])
      else s.(open := s.open + [content[n]])
  }

  /** The lines put back together. */
  function Joined(lines: seq<Line>): Bytes {
    if lines == [] then [] else Joined(lines[..|lines| - 1]) + lines[|lines| - 1].raw + [LF]
  }

  /** A splitting of a text at its LFs: nothing lost, no LF inside a line, offsets as in the text. */
  ghost predicate Splits(s: Split, content: Bytes) {
    && Joined(s.lines) + s.open == content
    && LF !in s.open && s.openOffset == |Joined(s.lines)|
    && forall i :: 0 <= i < |s.lines| ==> LF !in s.lines[i].raw && s.lines[i].offset == |Joined(s.lines[..i])|
  }

  lemma {:induction false} SplitOfSplits(content: Bytes)
    ensures Splits(SplitOf(content), content)
  {
    if content != [] {
      var n := |content| - 1;
      SplitOfSplits(content[..n]);
      var s, t := SplitOf(content[..n]), SplitOf(content);
      assert content == content[..n] + [content[n]];
      if content[n] == LF {
        assert t.lines[..|s.lines|] == s.lines;
        assert Joined(t.lines) == Joined(s.lines) + s.open + [LF];
        forall i | 0 <= i < |t.lines|
          ensures LF !in t.lines[i].raw && t.lines[i].offset == |Joined(t.lines[..i])|
        {
          if i < |s.lines| {
            assert t.lines[..i] == s.lines[..i];
          }
        }
      }
    }
  }

  /** There is only one way to split a text. */
  lemma {:induction false} SplitUnique(s: Split, t: Split, content: Bytes)
    requires Splits(s, content) && Splits(t, content)
    ensures s == t
    decreases |s.lines|
  {
    hide Splits, Joined;
    SameOpen(s, t, content);
    if s.lines != [] {
      ShorterSplits(s, content);
      ShorterSplits(t, content);
      var rest := content[..|content| - |s.open| - 1];
      SplitUnique(Shorter(s), Shorter(t), rest);
      assert s.lines == Shorter(s).lines + [Line(Shorter(s).openOffset, Shorter(s).open)];
      assert t.lines == Shorter(t).lines + [Line(Shorter(t).openOffset, Shorter(t).open)];
    }
  }

  function Shorter(s: Split): Split
    requires s.lines != []
  {
    var k := |s.lines| - 1;
    Split(s.lines[..k], s.lines[k].offset, s.lines[k].raw)
  }

  lemma ShorterSplits(s: Split, content: Bytes)
    requires Splits(s, content) && s.lines != []
    ensures |s.open| < |content| && Splits(Shorter(s), content[..|content| - |s.open| - 1])
  {
    var a := Shorter(s);
    assert content == (Joined(a.lines) + a.open) + ([LF] + s.open);
    assert content[..|content| - |s.open| - 1] == Joined(a.lines) + a.open;
    forall i | 0 <= i < |a.lines|
      ensures LF !in a.lines[i].raw && a.lines[i].offset == |Joined(a.lines[..i])|
    {
      assert a.lines[..i] == s.lines[..i];
    }
  }

  lemma SameOpen(s: Split, t: Split, content: Bytes)
    requires Splits(s, content) && Splits(t, content)
    ensures s.open == t.open && (s.lines == [] <==> t.lines == []) && s.openOffset == t.openOffset
  {
    OpenNoLonger(s, t, content);
    OpenNoLonger(t, s, content);
    assert s.open == content[|content| - |s.open|..] && t.open == content[|content| - |t.open|..];
  }

  lemma OpenNoLonger(s: Split, t: Split, content: Bytes)
    requires Splits(s, content) && Splits(t, content)
    ensures |s.open| <= |t.open|
  {
    if t.lines == [] {
      assert |Joined(t.lines)| == 0;
    } else {
      var p := |content| - |t.open| - 1;
      assert content[p] == LF by {
        assert Joined(t.lines)[|Joined(t.lines)| - 1] == LF;
      }
      forall q | |Joined(s.lines)| <= q < |content|
        ensures content[q] != LF
      {
        assert content[q] == s.open[q - |Joined(s.lines)|];
      }
    }
  }

  /** Every line stands in the file at its offset, and is followed by LF. */
  lemma {:induction false} LineInFile(lines: seq<Line>, rest: Bytes, i: nat)
    requires i < |lines| && lines[i].offset == |Joined(lines[..i])|
    ensures var content := Joined(lines) + rest;
            var end := lines[i].offset + |lines[i].raw|;
            end < |content| && content[lines[i].offset..end] == lines[i].raw && content[end] == LF
    decreases |lines|
  {
    var k := |lines| - 1;
    var init := lines[..k];
    if i == k {
      assert Joined(lines) + rest == Joined(init) + lines[k].raw + ([LF] + rest);
    } else {
      assert init[..i] == lines[..i];
      LineInFile(init, lines[k].raw + [LF] + rest, i);
      assert Joined(lines) + rest == Joined(init) + (lines[k].raw + [LF] + rest);
    }
  }

  // ---------------------------------------------------------------- events

  /** A line without its LF and without one trailing CR. */
  function Stripped(raw: Bytes): Bytes {
    if raw != [] && raw[|raw| - 1] == CR then raw[..|raw| - 1] else raw
  }

  /** One CR at the end of a line does not belong to it. */
  lemma WithoutCr(raw: Bytes)
    ensures Stripped(raw + [CR]) == raw
    ensures Stripped(raw) == raw <==> raw == [] || raw[|raw| - 1] != CR
  {
    assert (raw + [CR])[..|raw|] == raw;
  }

  /** LineView, or a line over the limit. */
  datatype Event = View(number: nat, offset: nat, length: nat, text: Bytes) | TooLong(number: nat)

  function EventOf(line: Line, number: nat, limit: nat): Event {
    var text := Stripped(line.raw);
    if |text| > limit then TooLong(number) else View(number, line.offset, |text|, text)
  }

  /** All lines of a split text, with an unterminated last line if it is not empty. */
  function AllLines(s: Split): seq<Line> {
    s.lines + if s.open == [] then [] else [Line(s.openOffset, s.open)]
  }

  function Events(lines: seq<Line>, limit: nat): seq<Event> {
    seq(|lines|, i requires 0 <= i < |lines| => EventOf(lines[i], i + 1, limit))
  }

  // ---------------------------------------------------------------- the bounded buffer

  /** What the buffer and the flag hold of an open line. */
  predicate Buffered(line: Bytes, overflow: bool, open: Bytes, limit: nat) {
    line == open[..Min(|open|, limit + 1)] && overflow == (|open| > limit + 1)
  }

  /** The bounded buffer decides LINE_TOO_LONG exactly: the stripped line is over the limit. */
  lemma BufferDecides(line: Bytes, overflow: bool, open: Bytes, limit: nat)
    requires Buffered(line, overflow, open, limit)
    ensures (overflow || |Stripped(line)| > limit) <==> |Stripped(open)| > limit
    ensures !overflow ==> line == open
  {
  }

  // ---------------------------------------------------------------- parsing

  /** What a profile says about one line: an error code, a document, or nothing. */
  datatype Outcome = Fails(code: string) | Document | Nothing

  /** Where a document came from. */
  datatype Parsed = Parsed(line: nat, byteOffset: nat, byteLength: nat, termCount: nat)

  datatype Result = Result(success: bool, failureCode: string, failureLine: nat, documents: seq<Parsed>)

  /** Parser state: the memory of the profile (such as the CSV header) and the result so far. */
  datatype State<M> = State(memory: M, result: Result)

  /** A profile: what it does with a line, and its check at the end. */
  datatype Profile<!M> = Profile(start: M, step: (M, Event) -> (M, Outcome), finish: (M, seq<Parsed>) -> Option<string>)

  function Fail(r: Result, code: string, line: nat): Result {
    if r.success then Result(false, code, line, []) else r
  }

  /** baseDocument */
  function BaseDocument(e: Event): Parsed
    requires e.View?
  {
    Parsed(e.number, e.offset, e.length, |Tokens(e.text)|)
  }

  function AfterEvent<M>(p: Profile<M>, s: State<M>, e: Event): State<M> {
    if e.TooLong? then s.(result := Fail(s.result, "LINE_TOO_LONG", e.number))
    else if !s.result.success then s
    else
      var (memory, outcome) := p.step(s.memory, e);
      match outcome
      case Fails(code) => State(memory, Fail(s.result, code, e.number))
      case Document => State(memory, s.result.(documents := s.result.documents + [BaseDocument(e)]))
      case Nothing => State(memory, s.result)
  }

  function Start<M>(p: Profile<M>): State<M> {
    State(p.start, Result(true, "", 0, []))
  }

  function AfterEvents<M>(p: Profile<M>, events: seq<Event>): State<M> {
    if events == [] then Start(p) else AfterEvent(p, AfterEvents(p, events[..|events| - 1]), events[|events| - 1])
  }

  // ---------------------------------------------------------------- what a parse promises, line by line

  /** The line as the profile sees it. */
  function ViewOf(lines: seq<Line>, i: nat): Event
    requires i < |lines|
  {
    View(i + 1, lines[i].offset, |Stripped(lines[i].raw)|, Stripped(lines[i].raw))
  }

  /** What the profile remembers after the lines. */
  function MemoryAfter<M>(p: Profile<M>, lines: seq<Line>, limit: nat): M {
    if lines == [] then p.start
    else
      var k := |lines| - 1;
      var before := MemoryAfter(p, lines[..k], limit);
      if |Stripped(lines[k].raw)| > limit then before else p.step(before, ViewOf(lines, k)).0
  }

  /** What becomes of one line. */
  function OutcomeOf<M>(p: Profile<M>, lines: seq<Line>, limit: nat, i: nat): Outcome
    requires i < |lines|
  {
    if |Stripped(lines[i].raw)| > limit then Fails("LINE_TOO_LONG")
    else p.step(MemoryAfter(p, lines[..i], limit), ViewOf(lines, i)).1
  }

  predicate Accepted<M>(p: Profile<M>, lines: seq<Line>, limit: nat) {
    forall i :: 0 <= i < |lines| ==> !OutcomeOf(p, lines, limit, i).Fails?
  }

  /** The first line that is rejected. */
  predicate FailsFirst<M>(p: Profile<M>, lines: seq<Line>, limit: nat, i: nat)
    requires i < |lines|
  {
    OutcomeOf(p, lines, limit, i).Fails? && forall j :: 0 <= j < i ==> !OutcomeOf(p, lines, limit, j).Fails?
  }

  /** The documents of the lines, in order. */
  function DocumentsOf<M>(p: Profile<M>, lines: seq<Line>, limit: nat): seq<Parsed> {
    if lines == [] then []
    else
      var k := |lines| - 1;
      DocumentsOf(p, lines[..k], limit)
      + if OutcomeOf(p, lines, limit, k) == Document then [BaseDocument(ViewOf(lines, k))] else []
  }

  /** What the check at the end says. */
  function Finished<M>(p: Profile<M>, lines: seq<Line>, limit: nat): Option<string> {
    p.finish(MemoryAfter(p, lines, limit), DocumentsOf(p, lines, limit))
  }

  function Concat(chunks: seq<Bytes>): Bytes {
    if chunks == [] then [] else Concat(chunks[..|chunks| - 1]) + chunks[|chunks| - 1]
  }

  lemma EventsSnoc(lines: seq<Line>, line: Line, limit: nat)
    ensures Events(lines + [line], limit) == Events(lines, limit) + [EventOf(line, |lines| + 1, limit)]
  {
  }

  /** A line ends: it is reported as too long, or handed to the profile. */
  method EndLine<M>(p: Profile<M>, s: State<M>, line: Bytes, overflow: bool, ghost open: Bytes, offset: nat,
                    number: nat, limit: nat) returns (r: State<M>)
    requires Buffered(line, overflow, open, limit)
    ensures r == AfterEvent(p, s, EventOf(Line(offset, open), number, limit))
  {
    hide Tokens;
    BufferDecides(line, overflow, open, limit);
    var text := line;
    var length := |line|;
    if line != [] && line[|line| - 1] == CR {
      text := line[..|line| - 1];
      length := length - 1;
    }
    if overflow || length > limit {
      r := s.(result := Fail(s.result, "LINE_TOO_LONG", number));
    } else if !s.result.success {
      r := s;
    } else {
      var view := View(number, offset, length, text);
      var (memory, outcome) := p.step(s.memory, view);
      match outcome
      case Fails(code) => r := State(memory, Fail(s.result, code, number));
      case Document =>
        var terms := TokenizeTerms(text);
        r := State(memory, s.result.(documents := s.result.documents + [Parsed(number, offset, length, |terms|)]));
      case Nothing => r := State(memory, s.result);
    }
  }

  /** Where the loop stands after the bytes read so far. */
  ghost predicate Reading<M>(p: Profile<M>, s: State<M>, seen: Bytes, line: Bytes, overflow: bool, lineOffset: nat,
                             lineNumber: nat, limit: nat)
  {
    var split := SplitOf(seen);
    && s == AfterEvents(p, Events(split.lines, limit)) && Buffered(line, overflow, split.open, limit)
    && lineOffset == split.openOffset && lineNumber == |split.lines| + 1
  }

  lemma ReadingLf<M>(p: Profile<M>, s: State<M>, seen: Bytes, line: Bytes, overflow: bool, lineOffset: nat,
                     lineNumber: nat, limit: nat, r: State<M>)
    requires Reading(p, s, seen, line, overflow, lineOffset, lineNumber, limit)
    requires r == AfterEvent(p, s, EventOf(Line(lineOffset, SplitOf(seen).open), lineNumber, limit))
    ensures Reading(p, r, seen + [LF], [], false, |seen| + 1, lineNumber + 1, limit)
  {
    hide AfterEvent, EventOf, Buffered, SplitOf, Events, AfterEvents;
    var split := SplitOf(seen);
    var ended := Line(split.openOffset, split.open);
    SplitLf(seen);
    AfterOneMore(p, split.lines, ended, limit);
    NothingBuffered(limit);
  }

  lemma SplitLf(seen: Bytes)
    ensures SplitOf(seen + [LF])
         == Split(SplitOf(seen).lines + [Line(SplitOf(seen).openOffset, SplitOf(seen).open)], |seen| + 1, [])
  {
    assert (seen + [LF])[..|seen|] == seen;
  }

  lemma AfterOneMore<M>(p: Profile<M>, lines: seq<Line>, line: Line, limit: nat)
    ensures AfterEvents(p, Events(lines + [line], limit))
         == AfterEvent(p, AfterEvents(p, Events(lines, limit)), EventOf(line, |lines| + 1, limit))
  {
    hide AfterEvent, EventOf;
    EventsSnoc(lines, line, limit);
    var events := Events(lines + [line], limit);
    assert events[..|events| - 1] == Events(lines, limit);
  }

  lemma NothingBuffered(limit: nat)
    ensures Buffered([], false, [], limit)
  {
  }

  lemma ReadingByte<M>(p: Profile<M>, s: State<M>, seen: Bytes, line: Bytes, overflow: bool, lineOffset: nat,
                       lineNumber: nat, limit: nat, b: Byte)
    requires Reading(p, s, seen, line, overflow, lineOffset, lineNumber, limit) && b != LF
    ensures Reading(p, s, seen + [b], if |line| <= limit then line + [b] else line, overflow || |line| > limit,
                    lineOffset, lineNumber, limit)
  {
    hide AfterEvents;
    assert (seen + [b])[..|seen|] == seen;
  }

  /** A file without an error of the system calls, of the recorded size and with the recorded digest. */
  predicate FileOk(content: Bytes, readFailed: bool, closeFailed: bool, fileSize: nat, sha: Digest) {
    !readFailed && !closeFailed && |content| == fileSize && Sha256(content) == sha
  }

  /** parseArchive, whatever pieces the reads return; the flags say that a read after these pieces, or the close,
      failed. It succeeds if and only if the whole file was read, has the recorded size and digest, all its lines are
      accepted, and the check at the end has no objection. The first thing that is wrong, in this order, is reported,
      and a failed parse has no documents. */
  method ParseArchive<M>(p: Profile<M>, chunks: seq<Bytes>, readFailed: bool, closeFailed: bool, limit: nat,
                         fileSize: nat, sha: Digest) returns (r: Result)
    ensures var content, lines := Concat(chunks), AllLines(SplitOf(Concat(chunks)));
            r.success <==> && !readFailed && !closeFailed && |content| == fileSize && Sha256(content) == sha
                           && Accepted(p, lines, limit) && Finished(p, lines, limit) == None
    ensures r.success ==> r.documents == DocumentsOf(p, AllLines(SplitOf(Concat(chunks))), limit)
    ensures !r.success ==> r.documents == []
    ensures readFailed ==> r.failureCode == "ARCHIVE_FILE_READ_FAILED"
    ensures !readFailed && closeFailed ==> r.failureCode == "ARCHIVE_FILE_CLOSE_FAILED"
    ensures !readFailed && !closeFailed && |Concat(chunks)| != fileSize ==> r.failureCode == "ARCHIVE_SIZE_MISMATCH"
    ensures !readFailed && !closeFailed && |Concat(chunks)| == fileSize && Sha256(Concat(chunks)) != sha ==>
              r.failureCode == "ARCHIVE_SHA256_MISMATCH"
    ensures FileOk(Concat(chunks), readFailed, closeFailed, fileSize, sha) ==>
              var lines := AllLines(SplitOf(Concat(chunks)));
              && (forall i :: 0 <= i < |lines| && FailsFirst(p, lines, limit, i) ==>
                    r.failureCode == OutcomeOf(p, lines, limit, i).code && r.failureLine == i + 1)
              && (Accepted(p, lines, limit) && Finished(p, lines, limit).Some? ==>
                    r.failureCode == Finished(p, lines, limit).value && r.failureLine == 0)
  {
    hide SplitOf, AllLines, Accepted, FailsFirst, OutcomeOf, DocumentsOf, MemoryAfter, AfterEvents, Reading;
    var s := Start(p);
    var line: Bytes, overflow := [], false;
    var hashed: Bytes := [];
    var absoluteOffset, lineOffset, lineNumber := 0, 0, 1;
    ReadingStart(p, limit);
    var c := 0;
    while c < |chunks|
      invariant c <= |chunks| && absoluteOffset == |Concat(chunks[..c])| && hashed == Concat(chunks[..c])
      invariant Reading(p, s, Concat(chunks[..c]), line, overflow, lineOffset, lineNumber, limit)
    {
      var buffer := chunks[c];
      ghost var before := Concat(chunks[..c]);
      assert chunks[..c + 1][..c] == chunks[..c];
      assert before + buffer[..0] == before;
      hashed := hashed + buffer;
      var index := 0;
      while index < |buffer|
        invariant index <= |buffer| && absoluteOffset == |before| + index
        invariant Reading(p, s, before + buffer[..index], line, overflow, lineOffset, lineNumber, limit)
      {
        ghost var seen := before + buffer[..index];
        assert before + buffer[..index + 1] == seen + [buffer[index]];
        if buffer[index] == LF {
          ReadingOpen(p, s, seen, line, overflow, lineOffset, lineNumber, limit);
          var ended := EndLine(p, s, line, overflow, SplitOf(seen).open, lineOffset, lineNumber, limit);
          ReadingLf(p, s, seen, line, overflow, lineOffset, lineNumber, limit, ended);
          s, line, overflow := ended, [], false;
          lineOffset := absoluteOffset + 1;
          lineNumber := lineNumber + 1;
        } else {
          ReadingByte(p, s, seen, line, overflow, lineOffset, lineNumber, limit, buffer[index]);
          if |line| <= limit {
            ReadingFits(p, s, seen, line, overflow, lineOffset, lineNumber, limit);
            line := line + [buffer[index]];
          } else {
            overflow := true;
          }
        }
        index, absoluteOffset := index + 1, absoluteOffset + 1;
      }
      assert buffer[..index] == buffer;
      c := c + 1;
    }
    assert chunks[..c] == chunks;
    if readFailed || closeFailed {
      return Result(false, if readFailed then "ARCHIVE_FILE_READ_FAILED" else "ARCHIVE_FILE_CLOSE_FAILED", 0, []);
    }
    ghost var content := Concat(chunks);
    ReadingOpen(p, s, content, line, overflow, lineOffset, lineNumber, limit);
    LastLine(p, SplitOf(content), limit);
    FirstFailure(p, AllLines(SplitOf(content)), limit);
    FailsOrNot(p, AllLines(SplitOf(content)), limit);
    if line != [] || overflow {
      s := EndLine(p, s, line, overflow, SplitOf(content).open, lineOffset, lineNumber, limit);
    }
    if absoluteOffset != fileSize {
      return Result(false, "ARCHIVE_SIZE_MISMATCH", 0, []);
    }
    if Sha256(hashed) != sha {
      return Result(false, "ARCHIVE_SHA256_MISMATCH", 0, []);
    }
    r := s.result;
    if r.success {
      var finished := p.finish(s.memory, r.documents);
      if finished.Some? {
        r := Fail(r, finished.value, 0);
      }
    }
  }

  lemma ReadingStart<M>(p: Profile<M>, limit: nat)
    ensures Reading(p, Start(p), [], [], false, 0, 1, limit)
  {
  }

  lemma ReadingOpen<M>(p: Profile<M>, s: State<M>, seen: Bytes, line: Bytes, overflow: bool, lineOffset: nat,
                       lineNumber: nat, limit: nat)
    requires Reading(p, s, seen, line, overflow, lineOffset, lineNumber, limit)
    ensures s == AfterEvents(p, Events(SplitOf(seen).lines, limit))
    ensures Buffered(line, overflow, SplitOf(seen).open, limit)
    ensures lineOffset == SplitOf(seen).openOffset && lineNumber == |SplitOf(seen).lines| + 1
  {
  }

  lemma ReadingFits<M>(p: Profile<M>, s: State<M>, seen: Bytes, line: Bytes, overflow: bool, lineOffset: nat,
                       lineNumber: nat, limit: nat)
    requires Reading(p, s, seen, line, overflow, lineOffset, lineNumber, limit) && |line| <= limit
    ensures !overflow
  {
  }

  lemma LastLine<M>(p: Profile<M>, split: Split, limit: nat)
    ensures AfterEvents(p, Events(AllLines(split), limit))
         == if split.open == [] then AfterEvents(p, Events(split.lines, limit))
            else AfterEvent(p, AfterEvents(p, Events(split.lines, limit)),
                            EventOf(Line(split.openOffset, split.open), |split.lines| + 1, limit))
  {
    hide AfterEvent, EventOf;
    if split.open == [] {
      assert AllLines(split) == split.lines;
    } else {
      var line := Line(split.openOffset, split.open);
      AfterOneMore(p, split.lines, line, limit);
      assert AllLines(split) == split.lines + [line];
    }
  }

  // ---------------------------------------------------------------- what the documents are

  /** The document is the line's: its range slices the file to the line without CR and LF, and
      tokenising the slice gives its term count. */
  ghost predicate IsDocumentOf(d: Parsed, content: Bytes, lines: seq<Line>) {
    && 1 <= d.line <= |lines|
    && var line := lines[d.line - 1];
       && d.byteOffset == line.offset && d.byteOffset + d.byteLength <= |content|
       && content[d.byteOffset..d.byteOffset + d.byteLength] == Stripped(line.raw)
       && d.termCount == |Tokens(content[d.byteOffset..d.byteOffset + d.byteLength])|
  }

  /** Documents come from different lines, in order. */
  ghost predicate InLineOrder(documents: seq<Parsed>) {
    forall i, j :: 0 <= i < j < |documents| ==> documents[i].line < documents[j].line
  }

  /** Every line stands in the file at its offset, and lines do not overlap. */
  ghost predicate LinesIn(lines: seq<Line>, content: Bytes) {
    && (forall i :: 0 <= i < |lines| ==>
          lines[i].offset + |lines[i].raw| <= |content|
          && content[lines[i].offset..lines[i].offset + |lines[i].raw|] == lines[i].raw)
    && (forall i, j :: 0 <= i < j < |lines| ==> lines[i].offset + |lines[i].raw| < lines[j].offset)
  }

  lemma {:induction false} JoinedGrows(lines: seq<Line>, i: nat, j: nat)
    requires i < j <= |lines|
    ensures |Joined(lines[..i])| + |lines[i].raw| < |Joined(lines[..j])|
    decreases j
  {
    assert lines[..j][..j - 1] == lines[..j - 1];
    if i < j - 1 {
      JoinedGrows(lines, i, j - 1);
    }
  }

  lemma AllLinesIn(content: Bytes)
    ensures LinesIn(AllLines(SplitOf(content)), content)
  {
    var s := SplitOf(content);
    SplitOfSplits(content);
    hide SplitOf, Joined;
    var lines := AllLines(s);
    forall i | 0 <= i < |lines|
      ensures lines[i].offset + |lines[i].raw| <= |content|
      ensures content[lines[i].offset..lines[i].offset + |lines[i].raw|] == lines[i].raw
    {
      if i < |s.lines| {
        LineInFile(s.lines, s.open, i);
      } else {
        OpenInFile(s, content);
      }
    }
    forall i, j | 0 <= i < j < |lines|
      ensures lines[i].offset + |lines[i].raw| < lines[j].offset
    {
      JoinedGrows(s.lines, i, if j < |s.lines| then j else |s.lines|);
      assert s.lines[..|s.lines|] == s.lines;
    }
  }

  lemma OpenInFile(s: Split, content: Bytes)
    requires Splits(s, content)
    ensures s.openOffset + |s.open| <= |content| && content[s.openOffset..s.openOffset + |s.open|] == s.open
  {
    hide Joined;
  }

  /** A line of the split gives its document. */
  lemma LineDocument(content: Bytes, lines: seq<Line>, i: nat)
    requires i < |lines| && LinesIn(lines, content)
    ensures IsDocumentOf(BaseDocument(ViewOf(lines, i)), content, lines)
  {
    hide Tokens;
    var line := lines[i];
    var text := Stripped(line.raw);
    assert content[line.offset..line.offset + |line.raw|] == line.raw;
    assert content[line.offset..line.offset + |text|] == line.raw[..|text|] == text;
  }

  /** Some document is from that line. */
  predicate HasDocument(documents: seq<Parsed>, line: nat) {
    exists i :: 0 <= i < |documents| && documents[i].line == line
  }

  /** Exactly the lines for which the profile says so have a document. */
  predicate FromLines<M>(p: Profile<M>, lines: seq<Line>, limit: nat, documents: seq<Parsed>) {
    forall i :: 0 <= i < |lines| ==> (HasDocument(documents, i + 1) <==> OutcomeOf(p, lines, limit, i) == Document)
  }

  lemma EarlierOutcome<M>(p: Profile<M>, lines: seq<Line>, limit: nat, n: nat, i: nat)
    requires i < n <= |lines|
    ensures OutcomeOf(p, lines[..n], limit, i) == OutcomeOf(p, lines, limit, i)
    ensures ViewOf(lines[..n], i) == ViewOf(lines, i)
  {
    assert lines[..n][..i] == lines[..i];
  }

  lemma {:induction false} DocumentsSoFar<M>(p: Profile<M>, content: Bytes, lines: seq<Line>, limit: nat, n: nat)
    requires n <= |lines| && LinesIn(lines, content)
    ensures var documents := DocumentsOf(p, lines[..n], limit);
            && InLineOrder(documents)
            && (forall i :: 0 <= i < |documents| ==>
                  documents[i].line <= n && IsDocumentOf(documents[i], content, lines))
            && (forall i :: 0 <= i < n ==>
                  (HasDocument(documents, i + 1) <==> OutcomeOf(p, lines, limit, i) == Document))
  {
    hide LinesIn, IsDocumentOf, OutcomeOf, BaseDocument;
    if n > 0 {
      DocumentsSoFar(p, content, lines, limit, n - 1);
      assert lines[..n][..n - 1] == lines[..n - 1];
      EarlierOutcome(p, lines, limit, n, n - 1);
      LineDocument(content, lines, n - 1);
      DocumentLine(lines, n - 1);
      var before, after := DocumentsOf(p, lines[..n - 1], limit), DocumentsOf(p, lines[..n], limit);
      forall i | 0 <= i < n
        ensures HasDocument(after, i + 1) <==> OutcomeOf(p, lines, limit, i) == Document
      {
        OneMore(before, after, i + 1);
        assert i == n - 1 ==> !HasDocument(before, n);
      }
    }
  }

  lemma OneMore(before: seq<Parsed>, after: seq<Parsed>, line: nat)
    requires after == before || (|after| == |before| + 1 && after[..|before|] == before)
    ensures HasDocument(after, line)
       <==> HasDocument(before, line) || (after != before && after[|before|].line == line)
  {
    if HasDocument(before, line) {
      var i :| 0 <= i < |before| && before[i].line == line;
      assert after[i] == after[..|before|][i];
    }
    if HasDocument(after, line) && after != before {
      var i :| 0 <= i < |after| && after[i].line == line;
      assert i < |before| ==> before[i] == after[..|before|][i];
    }
  }

  lemma DocumentLine(lines: seq<Line>, i: nat)
    requires i < |lines|
    ensures BaseDocument(ViewOf(lines, i)).line == i + 1
  {
    hide Tokens;
  }

  /** The documents of a parse are of exactly the lines for which the profile says so, in their order. Each slices
      the file to its line, its term count is that of the slice read back, and the ranges are disjoint. */
  lemma DocumentsSliceTheFile<M>(p: Profile<M>, content: Bytes, limit: nat)
    ensures var lines := AllLines(SplitOf(content));
            var documents := DocumentsOf(p, lines, limit);
            && InLineOrder(documents) && FromLines(p, lines, limit, documents)
            && (forall i :: 0 <= i < |documents| ==> IsDocumentOf(documents[i], content, lines))
            && (forall i, j :: 0 <= i < j < |documents| ==>
                  documents[i].byteOffset + documents[i].byteLength < documents[j].byteOffset)
  {
    hide Tokens, SplitOf, AllLines, DocumentsOf, OutcomeOf, HasDocument;
    var lines := AllLines(SplitOf(content));
    AllLinesIn(content);
    DocumentsSoFar(p, content, lines, limit, |lines|);
    assert lines[..|lines|] == lines;
    var documents := DocumentsOf(p, lines, limit);
    forall i, j | 0 <= i < j < |documents|
      ensures documents[i].byteOffset + documents[i].byteLength < documents[j].byteOffset
    {
      assert IsDocumentOf(documents[i], content, lines) && IsDocumentOf(documents[j], content, lines);
    }
  }

  // ---------------------------------------------------------------- the first failure

  /** The loop over the lines fails exactly when some line is rejected, and then with the code and the number of the
      first such line; otherwise it has remembered and collected what the lines gave. */
  lemma {:induction false} FirstFailure<M>(p: Profile<M>, lines: seq<Line>, limit: nat)
    ensures var s := AfterEvents(p, Events(lines, limit));
            && (s.result.success <==> Accepted(p, lines, limit))
            && (s.result.success ==>
                  && s.memory == MemoryAfter(p, lines, limit)
                  && s.result == Result(true, "", 0, DocumentsOf(p, lines, limit)))
            && forall i :: 0 <= i < |lines| && FailsFirst(p, lines, limit, i) ==>
                 s.result == Result(false, OutcomeOf(p, lines, limit, i).code, i + 1, [])
  {
    hide OutcomeOf, MemoryAfter, DocumentsOf, AfterEvents, AfterEvent, EventOf, Events, BaseDocument;
    if lines == [] {
      NoLines(p, limit);
    } else {
      var k := |lines| - 1;
      var init := lines[..k];
      FirstFailure(p, init, limit);
      AfterOneMore(p, init, lines[k], limit);
      assert init + [lines[k]] == lines;
      LastLineDecides(p, lines, limit, AfterEvents(p, Events(init, limit)));
      DocumentsNext(p, lines, limit);
      forall i | 0 <= i < k
        ensures OutcomeOf(p, init, limit, i) == OutcomeOf(p, lines, limit, i)
      {
        EarlierOutcome(p, lines, limit, k, i);
      }
      forall i | 0 <= i < |lines| && FailsFirst(p, lines, limit, i)
        ensures AfterEvents(p, Events(lines, limit)).result
             == Result(false, OutcomeOf(p, lines, limit, i).code, i + 1, [])
      {
        if i < k {
          assert FailsFirst(p, init, limit, i);
        }
      }
      assert Accepted(p, lines, limit) <==> Accepted(p, init, limit) && !OutcomeOf(p, lines, limit, k).Fails?;
    }
  }

  lemma NoLines<M>(p: Profile<M>, limit: nat)
    ensures AfterEvents(p, Events([], limit)) == State(MemoryAfter(p, [], limit), Result(true, "", 0, []))
    ensures DocumentsOf(p, [], limit) == []
  {
  }

  lemma DocumentsNext<M>(p: Profile<M>, lines: seq<Line>, limit: nat)
    requires lines != []
    ensures var k := |lines| - 1;
            DocumentsOf(p, lines, limit)
            == DocumentsOf(p, lines[..k], limit)
               + if OutcomeOf(p, lines, limit, k) == Document then [BaseDocument(ViewOf(lines, k))] else []
  {
    hide OutcomeOf, BaseDocument;
  }

  /** The last line decides what the lines before it have not. */
  lemma LastLineDecides<M>(p: Profile<M>, lines: seq<Line>, limit: nat, s: State<M>)
    requires lines != []
    ensures var k := |lines| - 1;
            var after := AfterEvent(p, s, EventOf(lines[k], k + 1, limit));
            && (!s.result.success ==> after.result == s.result)
            && (s.result.success && s.memory == MemoryAfter(p, lines[..k], limit) ==>
                  match OutcomeOf(p, lines, limit, k)
                  case Fails(code) => after.result == Result(false, code, k + 1, [])
                  case Document =>
                    && after.memory == MemoryAfter(p, lines, limit)
                    && after.result
                       == s.result.(documents := s.result.documents + [BaseDocument(ViewOf(lines, k))])
                  case Nothing => after.memory == MemoryAfter(p, lines, limit) && after.result == s.result)
  {
    hide Tokens;
  }

  /** Some line is the first to be rejected, unless all are accepted. */
  lemma FailsOrNot<M>(p: Profile<M>, lines: seq<Line>, limit: nat)
    ensures !Accepted(p, lines, limit) ==> exists i :: 0 <= i < |lines| && FailsFirst(p, lines, limit, i)
  {
    hide OutcomeOf;
    if !Accepted(p, lines, limit) {
      var i :| 0 <= i < |lines| && OutcomeOf(p, lines, limit, i).Fails?;
      FirstUpTo(p, lines, limit, i);
    }
  }

  lemma {:induction false} FirstUpTo<M>(p: Profile<M>, lines: seq<Line>, limit: nat, i: nat)
    requires i < |lines| && OutcomeOf(p, lines, limit, i).Fails?
    ensures exists k :: 0 <= k <= i && FailsFirst(p, lines, limit, k)
  {
    hide OutcomeOf;
    if !FailsFirst(p, lines, limit, i) {
      var j :| 0 <= j < i && OutcomeOf(p, lines, limit, j).Fails?;
      FirstUpTo(p, lines, limit, j);
    }
  }
}
