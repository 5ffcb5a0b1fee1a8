/**
 A child process's output stream, read in chunks and passed on line by line to the job log, which
 keeps its last lines only. Chunks are decoded text; a line's timestamp is left out.
 */
module LineSplitter {
  import opened Wrappers
  import opened Sequences
  import Separator

  datatype Source = Stdout | Stderr | System

  datatype LogLine = LogLine(source: Source, text: string)

  const LOG_TAIL_LIMIT := 200

  // ---------------------------------------------------------------- what the lines of a text are

  function Concat(chunks: seq<string>): string {
    if chunks == [] then "" else Concat(chunks[..|chunks| - 1]) + chunks[|chunks| - 1]
  }

  /** Each line followed by its newline. */
  function Terminated(lines: seq<string>): string {
    if lines == [] then "" else Terminated(lines[..|lines| - 1]) + lines[|lines| - 1] + "\n"
  }

  ghost predicate OneLiners(lines: seq<string>) {
    forall l | l in lines :: '\n' !in l
  }

  /** text is these lines, each ended by a newline, and then an unfinished rest. */
  ghost predicate Splits(text: string, lines: seq<string>, rest: string) {
    text == Terminated(lines) + rest && OneLiners(lines) && '\n' !in rest
  }

  /** The newline-split text without a trailing empty piece. */
  ghost predicate LinesOf(text: string, lines: seq<string>) {
    || Splits(text, lines, "")
    || (lines != [] && lines[|lines| - 1] != "" && Splits(text, lines[..|lines| - 1], lines[|lines| - 1]))
  }

  lemma TerminatedSnoc(lines: seq<string>, line: string)
    ensures Terminated(lines + [line]) == Terminated(lines) + line + "\n"
  {
    assert (lines + [line])[..|lines|] == lines;
  }

  lemma {:induction false} TerminatedFront(line: string, lines: seq<string>)
    ensures Terminated([line] + lines) == line + "\n" + Terminated(lines)
  {
    if lines == [] {
      assert ([line] + lines)[..0] == [];
    } else {
      var init := lines[..|lines| - 1];
      TerminatedFront(line, init);
      assert ([line] + lines)[..|lines|] == [line] + init;
    }
  }

  /** The lines and the rest of a text are determined by it. */
  lemma {:induction false} SplitIsUnique(text: string, a: seq<string>, r: string, b: seq<string>, t: string)
    requires Splits(text, a, r) && Splits(text, b, t)
    ensures a == b && r == t
    decreases |a|
  {
    if a == [] || b == [] {
      NoNewlineNoLines(text, a, r);
      NoNewlineNoLines(text, b, t);
    } else {
      assert a == [a[0]] + a[1..] && b == [b[0]] + b[1..];
      TerminatedFront(a[0], a[1..]);
      TerminatedFront(b[0], b[1..]);
      assert text == a[0] + "\n" + (Terminated(a[1..]) + r);
      assert text == b[0] + "\n" + (Terminated(b[1..]) + t);
      Separator.FirstPart('\n', a[0], Terminated(a[1..]) + r, b[0], Terminated(b[1..]) + t);
      SplitIsUnique(Terminated(a[1..]) + r, a[1..], r, b[1..], t);
    }
  }

  lemma NoNewlineNoLines(text: string, lines: seq<string>, rest: string)
    requires Splits(text, lines, rest)
    ensures lines == [] <==> '\n' !in text
    ensures lines == [] ==> rest == text
  {
    if lines != [] {
      assert text[|Terminated(lines)| - 1] == '\n';
    }
  }

  /** A text has exactly one list of lines, however it was cut into chunks. */
  lemma LinesAreUnique(text: string, a: seq<string>, b: seq<string>)
    requires LinesOf(text, a) && LinesOf(text, b)
    ensures a == b
  {
    var (al, ar) := if Splits(text, a, "") then (a, "") else (a[..|a| - 1], a[|a| - 1]);
    var (bl, br) := if Splits(text, b, "") then (b, "") else (b[..|b| - 1], b[|b| - 1]);
    SplitIsUnique(text, al, ar, bl, br);
    if ar != "" {
      assert a == al + [ar] && b == bl + [br];
    }
  }

  // ---------------------------------------------------------------- the bounded log

  function Tagged(source: Source, lines: seq<string>): seq<LogLine> {
    seq(|lines|, i requires 0 <= i < |lines| => LogLine(source, lines[i]))
  }

  /** A job's log. all: every line appended so far. */
  class JobLog {
    var tail: seq<LogLine>
    ghost var all: seq<LogLine>

    ghost predicate Valid()
      reads this
    {
      tail == LastOf(all, 200)
    }

    constructor ()
      ensures Valid() && all == []
    {
      tail, all := [], [];
    }

    method AppendLog(line: LogLine)
      requires Valid()
      modifies this
      ensures Valid() && all == old(all) + [line]
    {
      tail := tail + [line];
      all := all + [line];
      if |tail| > LOG_TAIL_LIMIT {
        tail := tail[|tail| - LOG_TAIL_LIMIT..];
      }
    }
  }

  // ---------------------------------------------------------------- reading a stream

  method FindNewline(s: string) returns (index: Option<nat>)
    ensures index.None? ==> '\n' !in s
    ensures index.Some? ==> index.value < |s| && s[index.value] == '\n' && '\n' !in s[..index.value]
  {
    for i := 0 to |s|
      invariant '\n' !in s[..i]
    {
      if s[i] == '\n' {
        return Some(i);
      }
    }
    assert s[..|s|] == s;
    return None;
  }

  ghost predicate Logged(onLog: Option<JobLog>, before: seq<LogLine>, source: Source, lines: seq<string>)
    reads if onLog.Some? then {onLog.value} else {}
  {
    onLog.Some? ==> onLog.value.Valid() && onLog.value.all == before + Tagged(source, lines)
  }

  method Emit(onLog: Option<JobLog>, source: Source, line: string, ghost before: seq<LogLine>, ghost lines: seq<string>)
    requires Logged(onLog, before, source, lines)
    modifies if onLog.Some? then {onLog.value} else {}
    ensures Logged(onLog, before, source, lines + [line])
  {
    if onLog.Some? {
      onLog.value.AppendLog(LogLine(source, line));
      assert Tagged(source, lines + [line]) == Tagged(source, lines) + [LogLine(source, line)];
    }
  }

  /** Passes on every finished line of pending, which follows the lines passed on before. */
  method DrainLines(pending: string, source: Source, onLog: Option<JobLog>, ghost before: seq<LogLine>,
                    ghost text: string, ghost done: seq<string>)
    returns (buf: string, ghost lines: seq<string>)
    requires Logged(onLog, before, source, done)
    requires text == Terminated(done) + pending && OneLiners(done)
    modifies if onLog.Some? then {onLog.value} else {}
    ensures Splits(text, lines, buf) && Logged(onLog, before, source, lines)
  {
    buf, lines := pending, done;
    var index: Option<nat> := FindNewline(buf);
    while index.Some?
      invariant text == Terminated(lines) + buf && OneLiners(lines)
      invariant index.None? ==> '\n' !in buf
      invariant index.Some? ==> index.value < |buf| && buf[index.value] == '\n' && '\n' !in buf[..index.value]
      invariant Logged(onLog, before, source, lines)
      decreases |buf|
    {
      var line := buf[..index.value];
      TerminatedSnoc(lines, line);
      assert buf == line + "\n" + buf[index.value + 1..];
      buf := buf[index.value + 1..];
      Emit(onLog, source, line, before, lines);
      lines := lines + [line];
      index := FindNewline(buf);
    }
  }

  /** Reads the whole stream. The returned text is all of it; every line reaches the log, if there is
      one, exactly once and in order, wherever the chunks were cut. */
  method ConsumeStream(stream: Option<seq<string>>, source: Source, onLog: Option<JobLog>)
    returns (full: string, ghost lines: seq<string>)
    requires onLog.Some? ==> onLog.value.Valid()
    modifies if onLog.Some? then {onLog.value} else {}
    ensures full == if stream.Some? then Concat(stream.value) else ""
    ensures LinesOf(full, lines)
    ensures onLog.Some? ==> onLog.value.Valid() && onLog.value.all == old(onLog.value.all) + Tagged(source, lines)
  {
    full, lines := "", [];
    ghost var before := if onLog.Some? then onLog.value.all else [];
    if stream.None? {
      assert Splits(full, lines, "");
      return;
    }
    var buf := "";
    for k := 0 to |stream.value|
      invariant full == Concat(stream.value[..k])
      invariant Splits(full, lines, buf)
      invariant Logged(onLog, before, source, lines)
    {
      var chunk := stream.value[k];
      assert stream.value[..k + 1][..k] == stream.value[..k];
      assert full + chunk == Terminated(lines) + (buf + chunk);
      full := full + chunk;
      buf := buf + chunk;
      buf, lines := DrainLines(buf, source, onLog, before, full, lines);
    }
    assert stream.value[..|stream.value|] == stream.value;
    if buf != "" {
      Emit(onLog, source, buf, before, lines);
      assert (lines + [buf])[..|lines|] == lines;
      lines := lines + [buf];
    }
  }

  /** Two ways to cut the same output leave the same text and the same stored log. */
  method CutsDoNotMatter(a: seq<string>, b: seq<string>, source: Source)
    returns (first: seq<LogLine>, second: seq<LogLine>)
    requires Concat(a) == Concat(b)
    ensures first == second
    ensures exists lines :: LinesOf(Concat(a), lines) && first == LastOf(Tagged(source, lines), 200)
  {
    var x := new JobLog();
    var y := new JobLog();
    var t, xs := ConsumeStream(Some(a), source, Some(x));
    var u, ys := ConsumeStream(Some(b), source, Some(y));
    LinesAreUnique(Concat(a), xs, ys);
    first, second := x.tail, y.tail;
    assert x.all == Tagged(source, xs) && y.all == Tagged(source, ys);
  }
}
