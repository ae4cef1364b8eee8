/** internal/logs/reader.go: resumable reading of newline-terminated lines. */
module Reader {

  /** A complete line and the byte offset just after its newline. */
  datatype Line = Line(text: string, end: nat)

  /** What opening the path gives: nothing there, a failure, or the file's bytes. */
  datatype Opened = Absent | Failed | Content(bytes: string)

  datatype ReadResult = Lines(lines: seq<Line>) | ReadError

  /** The first newline at or after `from`, or the end of the bytes. */
  function NextNewline(b: string, from: nat): (n: nat)
    requires from <= |b|
    ensures from <= n <= |b|
    ensures forall k :: from <= k < n ==> b[k] != '\n'
    ensures n < |b| ==> b[n] == '\n'
    decreases |b| - from
  {
    if from == |b| || b[from] == '\n' then from else NextNewline(b, from + 1)
  }

  /** `strings.TrimSuffix(s, "\r")`. */
  function StripCR(s: string): string {
    if s != "" && s[|s| - 1] == '\r' then s[..|s| - 1] else s
  }

  /** The complete lines of `b` at or after byte `from`. */
  function LinesFrom(b: string, from: nat): seq<Line>
    decreases |b| - from
  {
    if from > |b| then [] else
      var n := NextNewline(b, from);
      if n == |b| then [] else [Line(StripCR(b[from..n]), n + 1)] + LinesFrom(b, n + 1)
  }

  /** `line` is what the bytes from `start` through their first newline hold. */
  predicate LineAt(b: string, start: nat, line: Line) {
    && start < line.end <= |b|
    && b[line.end - 1] == '\n'
    && (forall k :: start <= k < line.end - 1 ==> b[k] != '\n')
    && line.text == StripCR(b[start..line.end - 1])
  }

  predicate NoNewline(b: string, from: nat) {
    forall k :: from <= k < |b| ==> b[k] != '\n'
  }

  lemma Unfold(b: string, from: nat)
    ensures var ls := LinesFrom(b, from);
      if ls == [] then NoNewline(b, from)
      else LineAt(b, from, ls[0]) && ls == [ls[0]] + LinesFrom(b, ls[0].end)
  {
  }

  /** A first line determines the rest. */
  lemma Fold(b: string, from: nat, line: Line)
    requires LineAt(b, from, line)
    ensures LinesFrom(b, from) == [line] + LinesFrom(b, line.end)
  {
    assert NextNewline(b, from) == line.end - 1;
  }

  lemma FoldEmpty(b: string, from: nat)
    requires NoNewline(b, from)
    ensures LinesFrom(b, from) == []
  {
  }

  /** An offset the processor can have committed: the start, or just after a newline. */
  predicate Boundary(b: string, at: nat) {
    at == 0 || (at <= |b| && b[at - 1] == '\n')
  }

  /** Where line `i` of `LinesFrom(b, from)` begins. */
  function Start(ls: seq<Line>, from: nat, i: nat): nat
    requires i <= |ls|
  {
    if i == 0 then from else ls[i - 1].end
  }

  /** `ReadString('\n')` at `pos`: the bytes through the next newline; without one, the rest, and end of file. */
  method ReadString(b: string, pos: nat) returns (raw: string, eof: bool)
    requires pos <= |b|
    ensures eof ==> LinesFrom(b, pos) == []
    ensures !eof ==> raw != "" && pos + |raw| <= |b|
    ensures !eof ==> LinesFrom(b, pos) == [Line(StripCR(raw[..|raw| - 1]), pos + |raw|)] + LinesFrom(b, pos + |raw|)
  {
    var n := NextNewline(b, pos);
    if n == |b| {
      return b[pos..], true;
    }
    raw, eof := b[pos..n + 1], false;
    assert raw[..|raw| - 1] == b[pos..n];
  }

  lemma Prepend<T>(x: T, first: seq<T>, second: seq<T>)
    ensures [x] + (first + second) == ([x] + first) + second
  {
  }

  /** One more element moved from what is to come to what is done. */
  lemma Carry<T>(done: seq<T>, coming: seq<T>, x: T, rest: seq<T>)
    requires coming == [x] + rest
    ensures (done + [x]) + rest == done + coming
  {
  }

  method ReadCompleteLines(missing: bool, offsetBytes: int, file: Opened) returns (r: ReadResult)
    ensures missing ==> r == Lines([])
    ensures !missing && offsetBytes < 0 ==> r == ReadError
    ensures !missing && offsetBytes >= 0 && file.Absent? ==> r == Lines([])
    ensures !missing && offsetBytes >= 0 && file.Failed? ==> r == ReadError
    ensures !missing && offsetBytes >= 0 && file.Content? ==> r == Lines(LinesFrom(file.bytes, offsetBytes))
  {
    if missing {
      return Lines([]);
    }
    if offsetBytes < 0 {
      return ReadError;
    }
    if file.Absent? {
      return Lines([]);
    }
    if file.Failed? {
      return ReadError;
    }
    if offsetBytes > |file.bytes| {
      return Lines([]);  // a seek past the end reads nothing
    }
    var lines := ReadLoop(file.bytes, offsetBytes);
    return Lines(lines);
  }

  /** The loop: one line at a time, until only a partial line or nothing is left. */
  method ReadLoop(b: string, start: nat) returns (lines: seq<Line>)
    requires start <= |b|
    ensures lines == LinesFrom(b, start)
  {
    var offset := start;
    lines := [];
    while true
      invariant offset <= |b|
      invariant lines + LinesFrom(b, offset) == LinesFrom(b, start)
      decreases |b| - offset
    {
      var more, line := ReadLine(b, offset);
      if !more {
        break;  // a partial line is left for later
      }
      Carry(lines, LinesFrom(b, offset), line, LinesFrom(b, line.end));
      offset := line.end;
      lines := lines + [line];
    }
  }

  /** One turn of the loop: the next complete line, if there is one. */
  method ReadLine(b: string, offset: nat) returns (more: bool, line: Line)
    requires offset <= |b|
    ensures !more ==> LinesFrom(b, offset) == []
    ensures more ==> offset < line.end <= |b| && LinesFrom(b, offset) == [line] + LinesFrom(b, line.end)
  {
    var raw, eof := ReadString(b, offset);
    if eof {
      return false, Line("", offset);
    }
    return true, Line(StripCR(raw[..|raw| - 1]), offset + |raw|);
  }

  /** What the list of lines is, said without the reader: the segments it cuts are adjacent, each ends in
      exactly one newline and holds no other, each text is its segment without the line ending,
      and no newline is left after the last one. */
  lemma {:induction false} LineLaws(b: string, from: nat)
    ensures var ls := LinesFrom(b, from);
      && (forall i :: 0 <= i < |ls| ==> LineAt(b, Start(ls, from, i), ls[i]))
      && NoNewline(b, Start(ls, from, |ls|))
    decreases |b| - from
  {
    var ls := LinesFrom(b, from);
    Unfold(b, from);
    if ls != [] {
      var rest := LinesFrom(b, ls[0].end);
      LineLaws(b, ls[0].end);
      forall i | 0 <= i < |ls|
        ensures LineAt(b, Start(ls, from, i), ls[i])
      {
        if i > 0 {
          assert LineAt(b, Start(rest, ls[0].end, i - 1), rest[i - 1]);
        }
      }
    }
  }

  /** A line's bytes are its text and its ending: a newline, after a carriage return where one stands before it. */
  lemma LineIsItsBytes(b: string, from: nat, i: nat)
    requires i < |LinesFrom(b, from)|
    ensures var ls := LinesFrom(b, from);
      var start, end := Start(ls, from, i), ls[i].end;
      && start < end <= |b|
      && b[start..end] == ls[i].text + if end >= start + 2 && b[end - 2] == '\r' then "\r\n" else "\n"
  {
    LineLaws(b, from);
    var ls := LinesFrom(b, from);
    hide LinesFrom, LineAt;
    LineBytes(b, Start(ls, from, i), ls[i]);
  }

  lemma LineBytes(b: string, start: nat, line: Line)
    requires LineAt(b, start, line)
    ensures start < line.end <= |b|
    ensures b[start..line.end] ==
      line.text + if line.end >= start + 2 && b[line.end - 2] == '\r' then "\r\n" else "\n"
  {
    var raw := b[start..line.end - 1];
    assert b[start..line.end] == raw + ['\n'];
    if raw != "" && raw[|raw| - 1] == '\r' {
      assert raw == line.text + ['\r'];
      assert line.text + ['\r'] + ['\n'] == line.text + "\r\n";
    }
  }

  function Concat(parts: seq<string>): string {
    if parts == [] then "" else parts[0] + Concat(parts[1..])
  }

  /** The bytes each line was cut from. */
  function Segments(b: string, from: nat, ls: seq<Line>): seq<string>
    requires forall i :: 0 <= i < |ls| ==> Start(ls, from, i) <= ls[i].end <= |b|
  {
    seq(|ls|, i requires 0 <= i < |ls| => b[Start(ls, from, i)..ls[i].end])
  }

  lemma SegmentsTail(b: string, from: nat, ls: seq<Line>)
    requires ls != []
    requires forall i :: 0 <= i < |ls| ==> Start(ls, from, i) <= ls[i].end <= |b|
    ensures var rest := ls[1..];
      && (forall i :: 0 <= i < |rest| ==> Start(rest, ls[0].end, i) <= rest[i].end <= |b|)
      && Segments(b, from, ls) == [b[from..ls[0].end]] + Segments(b, ls[0].end, rest)
  {
    var rest := ls[1..];
    forall i | 0 <= i < |rest|
      ensures Start(rest, ls[0].end, i) == Start(ls, from, i + 1) && rest[i] == ls[i + 1]
    {
    }
  }

  lemma Glue(b: string, i: nat, j: nat, k: nat)
    requires i <= j <= k <= |b|
    ensures b[i..j] + b[j..k] == b[i..k]
  {
  }

  /** The raw segments, joined, are the bytes from the start offset through the last newline. */
  lemma {:induction false} SegmentsCoverBytes(b: string, from: nat)
    requires from <= |b|
    ensures var ls := LinesFrom(b, from);
      && (forall i :: 0 <= i < |ls| ==> Start(ls, from, i) <= ls[i].end <= |b|)
      && from <= Start(ls, from, |ls|) <= |b|
      && Concat(Segments(b, from, ls)) == b[from..Start(ls, from, |ls|)]
    decreases |b| - from
  {
    var ls := LinesFrom(b, from);
    Unfold(b, from);
    LineLaws(b, from);
    if ls != [] {
      var mid := ls[0].end;
      var rest := LinesFrom(b, mid);
      SegmentsCoverBytes(b, mid);
      SegmentsTail(b, from, ls);
      Glue(b, from, mid, Start(rest, mid, |rest|));
    }
  }

  /** Reading again from any returned end offset gives exactly the remaining lines. */
  lemma {:induction false} Reread(b: string, from: nat, i: nat)
    requires i < |LinesFrom(b, from)|
    ensures LinesFrom(b, LinesFrom(b, from)[i].end) == LinesFrom(b, from)[i + 1..]
    decreases i
  {
    Unfold(b, from);
    if i > 0 {
      Reread(b, LinesFrom(b, from)[0].end, i - 1);
    }
  }

  lemma LineAtPrefix(b: string, at: nat, from: nat, line: Line)
    requires at <= |b| && LineAt(b[..at], from, line)
    ensures LineAt(b, from, line)
  {
    assert b[..at][from..line.end - 1] == b[from..line.end - 1];
  }

  lemma LineAtAppend(b: string, more: string, from: nat, line: Line)
    requires LineAt(b, from, line)
    ensures LineAt(b + more, from, line)
  {
    assert (b + more)[from..line.end - 1] == b[from..line.end - 1];
  }

  /** Appending bytes extends the list of lines and changes none of them. */
  lemma {:induction false} AppendExtends(b: string, more: string, from: nat)
    ensures LinesFrom(b, from) <= LinesFrom(b + more, from)
    decreases |b| - from
  {
    Unfold(b, from);
    if LinesFrom(b, from) != [] {
      var line := LinesFrom(b, from)[0];
      LineAtAppend(b, more, from, line);
      Fold(b + more, from, line);
      AppendExtends(b, more, line.end);
    }
  }

  /** A committed offset splits the lines into those before it and those still to read. */
  lemma {:induction false} SplitAt(b: string, from: nat, at: nat)
    requires from <= at <= |b|
    requires at == from || b[at - 1] == '\n'
    ensures LinesFrom(b, from) == LinesFrom(b[..at], from) + LinesFrom(b, at)
    decreases at - from
  {
    if from == at {
      FoldEmpty(b[..at], from);
    } else {
      var line := FirstLineBefore(b, from, at);
      SplitAt(b, line.end, at);
      Prepend(line, LinesFrom(b[..at], line.end), LinesFrom(b, at));
    }
  }

  /** Up to a newline the first line is the same, whatever follows. */
  lemma FirstLineBefore(b: string, from: nat, at: nat) returns (line: Line)
    requires from < at <= |b| && b[at - 1] == '\n'
    ensures from < line.end <= at && b[line.end - 1] == '\n'
    ensures LinesFrom(b, from) == [line] + LinesFrom(b, line.end)
    ensures LinesFrom(b[..at], from) == [line] + LinesFrom(b[..at], line.end)
  {
    assert b[..at][at - 1] == '\n';
    Unfold(b[..at], from);
    line := LinesFrom(b[..at], from)[0];
    LineAtPrefix(b, at, from, line);
    Fold(b, from, line);
  }

  /** Where reading may stand: where it began, or just after a newline. */
  predicate Stop(b: string, from: nat, at: nat) {
    from <= at && (at == from || (at <= |b| && b[at - 1] == '\n'))
  }

  /** The next line, with the bytes after it cut off. */
  lemma NextAlone(b: string, at: nat)
    requires at <= |b| && LinesFrom(b, at) != []
    ensures var next := LinesFrom(b, at)[0];
      && at < next.end <= |b| && b[next.end - 1] == '\n'
      && LinesFrom(b[..next.end], at) == [next]
      && LinesFrom(b, next.end) == LinesFrom(b, at)[1..]
  {
    Unfold(b, at);
    var next := LinesFrom(b, at)[0];
    var upTo := b[..next.end];
    assert upTo[at..next.end - 1] == b[at..next.end - 1];
    Fold(upTo, at, next);
    FoldEmpty(upTo, next.end);
  }

  /** The lines up to an offset, one line further on. */
  lemma BeforeNext(b: string, from: nat, at: nat)
    requires at <= |b| && Stop(b, from, at) && LinesFrom(b, at) != []
    ensures var next := LinesFrom(b, at)[0];
      && at < next.end <= |b| && b[next.end - 1] == '\n'
      && LinesFrom(b[..next.end], from) == LinesFrom(b[..at], from) + [next]
      && LinesFrom(b, next.end) == LinesFrom(b, at)[1..]
  {
    NextAlone(b, at);
    var upTo := b[..LinesFrom(b, at)[0].end];
    assert upTo[..at] == b[..at];
    SplitAt(upTo, from, at);
  }
}
