/**
 Wave markers in any command, whoever wrote it: with or without echo, in single, double or no quotes, among
 unclosed and malformed ones. What the brace scanner, the reader and the stripping do is stated on the text itself.
 */
module MarkerForms {
  import opened Wrappers
  import opened Characters
  import opened MarkerScan
  import opened MarkerStrip
  import opened WaveMarker
  import Json

  // ---------------------------------------------------------------- the matching brace

  /** What the scanner tells apart: a backslash with the character after it, quotes, braces, and the rest. */
  datatype Sign = Escaped(c: char) | Quote | Open | Close | Other(c: char)

  predicate ValidSign(x: Sign) {
    x.Other? ==> x.c != '\\' && x.c != '"' && x.c != '{' && x.c != '}'
  }

  predicate ValidSigns(xs: seq<Sign>) {
    forall i | 0 <= i < |xs| :: ValidSign(xs[i])
  }

  function SignText(x: Sign): string {
    match x
    case Escaped(c) => ['\\', c]
    case Quote => "\""
    case Open => "{"
    case Close => "}"
    case Other(c) => [c]
  }

  function SignsText(xs: seq<Sign>): string {
    if xs == [] then "" else SignsText(xs[..|xs| - 1]) + SignText(xs[|xs| - 1])
  }

  /** After an odd number of quotes. */
  predicate InString(xs: seq<Sign>) {
    xs != [] && InString(xs[..|xs| - 1]) != xs[|xs| - 1].Quote?
  }

  /** Opening minus closing braces, those in strings not counted. */
  function Level(xs: seq<Sign>): int {
    if xs == [] then 0
    else
      var init, last := xs[..|xs| - 1], xs[|xs| - 1];
      Level(init) + if InString(init) then 0 else if last.Open? then 1 else if last.Close? then -1 else 0
  }

  /** The first brace opens, and every shorter text is still inside it. */
  predicate StaysOpen(xs: seq<Sign>) {
    ValidSigns(xs) && xs != [] && xs[0] == Open && forall k | 0 < k < |xs| :: Level(xs[..k]) > 0
  }

  lemma SignRun(x: Sign, depth: int, inString: bool)
    requires ValidSign(x) && !(x.Close? && !inString && depth == 1)
    ensures Run(SignText(x), Scanning(depth, inString, false)) ==
            Scanning(depth + if inString then 0 else if x.Open? then 1 else if x.Close? then -1 else 0,
                     inString != x.Quote?, false)
  {
    var st := Scanning(depth, inString, false);
    var t := SignText(x);
    RunChar(t[0], st);
    if x.Escaped? {
      assert t == [t[0]] + [t[1]];
      RunAppend([t[0]], [t[1]], st);
      RunChar(t[1], Step(st, t[0]));
    } else {
      assert t == [t[0]];
    }
  }

  lemma RunChar(c: char, st: State)
    ensures Run([c], st) == Step(st, c)
  {
    assert [c][..0] == "";
    assert Run("", st) == st;
  }

  lemma {:induction false} SignsRun(xs: seq<Sign>)
    requires StaysOpen(xs) && Level(xs) > 0
    ensures Run(SignsText(xs), Scanning(0, false, false)) == Scanning(Level(xs), InString(xs), false)
  {
    hide Run, Step;
    var n := |xs| - 1;
    var init, last := xs[..n], xs[n];
    if n == 0 {
      assert Run("", Scanning(0, false, false)) == Scanning(0, false, false) by {
        NothingRun();
      }
    } else {
      assert forall k | 0 < k < n :: init[..k] == xs[..k];
      SignsRun(init);
    }
    SignRun(last, Level(init), InString(init));
    RunAppend(SignsText(init), SignText(last), Scanning(0, false, false));
  }

  lemma NothingRun()
    ensures Run("", Scanning(0, false, false)) == Scanning(0, false, false)
  {
  }

  /** The matching brace is the first place where the braces outside strings come out even, quotes and braces
      after a backslash not counted wherever they stand. */
  lemma BraceEndIsFirstBalance(xs: seq<Sign>, rest: string)
    requires StaysOpen(xs) && Level(xs) == 0
    ensures Closes(SignsText(xs)) && BraceEnd(SignsText(xs) + rest) == Some(|SignsText(xs)| - 1)
  {
    hide Run, Step, StaysOpen, SignsText, BraceEnd;
    LastSignCloses(xs);
    var init := xs[..|xs| - 1];
    SignsRun(init);
    RunAppend(SignsText(init), "}", Scanning(0, false, false));
    RunChar('}', Scanning(1, false, false));
    ClosingStep();
    StartsOpen(xs);
    ClosesAtEnd(SignsText(xs), rest);
  }

  lemma LastSignCloses(xs: seq<Sign>)
    requires StaysOpen(xs) && Level(xs) == 0
    ensures xs != [] && xs[0] == Open
    ensures var init := xs[..|xs| - 1];
            StaysOpen(init) && Level(init) == 1 && !InString(init) && SignsText(xs) == SignsText(init) + "}"
  {
    var n := |xs| - 1;
    if n == 0 {
      LoneOpen(xs);
    }
    assert forall k | 0 < k < n :: xs[..n][..k] == xs[..k];
  }

  lemma LoneOpen(xs: seq<Sign>)
    requires StaysOpen(xs) && |xs| == 1
    ensures Level(xs) == 1
  {
    assert xs[..0] == [];
  }

  lemma ClosingStep()
    ensures Step(Scanning(1, false, false), '}') == Closed(0)
  {
  }

  lemma {:induction false} StartsOpen(xs: seq<Sign>)
    requires xs != [] && xs[0] == Open
    ensures SignsText(xs) != "" && SignsText(xs)[0] == '{'
  {
    if |xs| > 1 {
      StartsOpen(xs[..|xs| - 1]);
    } else {
      assert xs[..0] == [];
    }
  }

  /** Without such a place there is no matching brace; a last backslash escapes nothing. */
  lemma NoBalanceNoEnd(xs: seq<Sign>)
    requires StaysOpen(xs) && Level(xs) > 0
    ensures BraceEnd(SignsText(xs)) == None && BraceEnd(SignsText(xs) + "\\") == None
  {
    hide Run;
    SignsRun(xs);
    RunAppend(SignsText(xs), "\\", Scanning(0, false, false));
    RunChar('\\', Scanning(Level(xs), InString(xs), false));
  }

  function SignOf(c: char): Sign {
    if c == '"' then Quote else if c == '{' then Open else if c == '}' then Close else Other(c)
  }

  /** Every text can be read this way, but for a backslash at its end. */
  lemma {:induction false} EveryTextHasSigns(s: string) returns (xs: seq<Sign>, end: string)
    ensures ValidSigns(xs) && s == SignsText(xs) + end && (end == "" || end == "\\")
  {
    hide SignsText, ValidSign, SignOf;
    if s == "" {
      NoSigns();
      assert s == SignsText([]) + "";
      return [], "";
    }
    var init, c := s[..|s| - 1], s[|s| - 1];
    assert s == init + [c];
    xs, end := EveryTextHasSigns(init);
    if end == "\\" {
      OneMoreSign(c);
      SignsAppend(xs, Escaped(c));
      assert s == SignsText(xs) + ("\\" + [c]) && "\\" + [c] == ['\\', c];
      assert s == SignsText(xs + [Escaped(c)]) + "";
      xs, end := xs + [Escaped(c)], "";
    } else if c == '\\' {
      end := "\\";
    } else {
      OneMoreSign(c);
      SignsAppend(xs, SignOf(c));
      assert s == SignsText(xs + [SignOf(c)]) + "";
      xs := xs + [SignOf(c)];
    }
  }

  lemma NoSigns()
    ensures SignsText([]) == "" && ValidSigns([]) && !InString([]) && Level([]) == 0
  {
  }

  lemma OneMoreSign(c: char)
    ensures ValidSign(Escaped(c)) && SignText(Escaped(c)) == ['\\', c]
    ensures c != '\\' ==> ValidSign(SignOf(c)) && SignText(SignOf(c)) == [c]
  {
  }

  lemma SignsAppend(xs: seq<Sign>, x: Sign)
    ensures SignsText(xs + [x]) == SignsText(xs) + SignText(x)
  {
    assert (xs + [x])[..|xs|] == xs;
  }

  // ---------------------------------------------------------------- the markers of any command

  predicate AllBlank(s: string) {
    forall i | 0 <= i < |s| :: IsBlank(s[i])
  }

  /** No end of the sentinel is a beginning of it. */
  ghost predicate NoOverlap(mark: Mark) {
    forall n | 0 < n < |mark| :: mark[n] != mark[0] || (n + 1 < |mark| && mark[n + 1] != mark[1])
  }

  lemma SentinelHasNoOverlap()
    ensures NoOverlap(SENTINEL)
  {
  }

  lemma OverlapsNothing(mark: Mark, x: string, rest: string)
    requires NoOverlap(mark) && x != "" && |x| < |mark|
    ensures !(mark <= x + (mark + rest))
  {
    var s, n := x + (mark + rest), |x|;
    assert s[n] == mark[0] && s[n + 1] == (mark + rest)[1];
    assert s[n] != mark[n] || (n + 1 < |mark| && s[n + 1] != mark[n + 1]);
  }

  lemma BlanksBefore(x: string, z: string)
    requires z != "" && !IsBlank(z[0]) && z[0] != '{'
    ensures var n := BlankRun(x + z);
            n <= |x| && (n < |x| ==> n == BlankRun(x)) && (x + z)[n] == (if n < |x| then x[n] else z[0])
  {
    hide BlankRun;
    var y := x + z;
    var n := BlankRun(y);
    assert y[|x|] == z[0];
    BlankRunStops(y, |x|);
    BlankRunEnds(y);
    if n < |x| {
      assert forall i | 0 <= i < n :: x[i] == y[i];
      BlankRunIs(x, n);
    }
  }

  lemma StartsInCapital(mark: Mark, rest: string)
    ensures var z := mark + rest; z != "" && mark != "" && IsMarkChar(z[0]) && !IsBlank(z[0]) && z[0] != '{'
  {
  }

  /** Text without an anchor has none either when a sentinel follows. */
  lemma NoAnchorInGap(mark: Mark, x: string, rest: string)
    requires NoOverlap(mark) && x != "" && AnchorAt(mark, x).None?
    ensures AnchorAt(mark, x + (mark + rest)).None?
  {
    hide BlankRun, IsMark, NoOverlap;
    var s := x + (mark + rest);
    if |x| < |mark| {
      OverlapsNothing(mark, x, rest);
    } else if mark <= s {
      assert mark <= x;
      var m := |mark|;
      assert s[m..] == x[m..] + (mark + rest);
      StartsInCapital(mark, rest);
      BlanksBefore(x[m..], mark + rest);
    }
  }

  lemma SkipToMark(mark: Mark, gap: string, rest: string)
    requires NoOverlap(mark) && AnchorFree(mark, gap)
    ensures var command := gap + (mark + rest);
            command[|gap|..] == mark + rest && Spans(mark, command, 0) == Spans(mark, command, |gap|)
  {
    hide AnchorAt, Spans, NoOverlap, IsMark;
    var command := gap + (mark + rest);
    forall k | 0 <= k < |gap| ensures AnchorAt(mark, command[k..]).None? {
      assert AnchorAt(mark, gap[k..]).None?;
      NoAnchorInGap(mark, gap[k..], rest);
      assert command[k..] == gap[k..] + (mark + rest);
    }
    SkipText(mark, command, 0, |gap|);
  }

  lemma AnchorAfterBlanks(mark: Mark, blanks: string, body: string)
    requires AllBlank(blanks) && body != "" && body[0] == '{'
    ensures AnchorAt(mark, mark + (blanks + body)) == Some(|mark| + |blanks|)
  {
    hide BlankRun, IsMark;
    var s := mark + (blanks + body);
    assert s[|mark|..] == blanks + body;
    assert (blanks + body)[|blanks|] == '{';
    BlankRunIs(blanks + body, |blanks|);
  }

  /** A command up to its first marker, and the marker with what follows. */
  function Marked(mark: Mark, gap: string, blanks: string, body: string): string {
    gap + (mark + (blanks + body))
  }

  lemma MarkedParts(mark: string, gap: string, blanks: string, body: string)
    ensures var command := gap + (mark + (blanks + body));
            command == gap + mark + blanks + body && command[|gap| + |mark| + |blanks|..] == body
  {
    assert gap + (mark + (blanks + body)) == gap + mark + blanks + body;
  }

  lemma FirstSpan(mark: Mark, gap: string, blanks: string, body: string)
    requires NoOverlap(mark) && AnchorFree(mark, gap) && AllBlank(blanks) && body != "" && body[0] == '{'
    ensures var command := Marked(mark, gap, blanks, body);
            var brace := |gap| + |mark| + |blanks|;
            && brace < |command| && command[brace..] == body
            && Spans(mark, command, 0) ==
               match BraceEnd(body)
               case None => Spans(mark, command, brace)
               case Some(e) => [Span(|gap|, brace, brace + e)] + Spans(mark, command, brace + e + 1)
  {
    hide AnchorAt, BraceEnd, Spans, AnchorFree, IsMark, NoOverlap, AllBlank;
    SkipToMark(mark, gap, blanks + body);
    AnchorAfterBlanks(mark, blanks, body);
    MarkedParts(mark, gap, blanks, body);
    StartsInCapital(mark, "");
    MarkerScan.FoundStep(mark, Marked(mark, gap, blanks, body), |gap|, |gap| + |mark| + |blanks|);
  }

  // ---------------------------------------------------------------- the rest of a command on its own

  function Shifted(spans: seq<Span>, n: nat): seq<Span> {
    seq(|spans|, i requires 0 <= i < |spans| =>
      Span(spans[i].sentinelStart + n, spans[i].braceStart + n, spans[i].braceEnd + n))
  }

  lemma ShiftedCons(x: Span, spans: seq<Span>, n: nat)
    ensures Shifted([x] + spans, n) ==
            [Span(x.sentinelStart + n, x.braceStart + n, x.braceEnd + n)] + Shifted(spans, n)
  {
  }

  lemma RestText(a: string, b: string, i: nat)
    requires i <= |b|
    ensures (a + b)[|a| + i..] == b[i..]
  {
  }

  lemma FoundInRest(mark: Mark, a: string, b: string, i: nat, k: nat)
    requires i < k < |b| && AnchorAt(mark, b[i..]) == Some(k - i)
    ensures var e, at, brace := BraceEnd(b[k..]), |a| + i, |a| + k;
            Spans(mark, a + b, at) ==
            if e.None? then Spans(mark, a + b, brace)
            else [Span(at, brace, brace + e.value)] + Spans(mark, a + b, brace + e.value + 1)
  {
    hide AnchorAt, BraceEnd, Spans, IsMark;
    RestText(a, b, i);
    RestText(a, b, k);
    MarkerScan.FoundStep(mark, a + b, |a| + i, |a| + k);
  }

  lemma NotFoundInBoth(mark: Mark, a: string, b: string, i: nat)
    requires i <= |b| && (i < |b| ==> AnchorAt(mark, b[i..]).None?)
    ensures if i == |b| then Spans(mark, a + b, |a| + i) == [] == Spans(mark, b, i)
            else Spans(mark, a + b, |a| + i) == Spans(mark, a + b, |a| + i + 1) &&
                 Spans(mark, b, i) == Spans(mark, b, i + 1)
  {
    hide AnchorAt, BraceEnd, Spans, IsMark;
    RestText(a, b, i);
    NotFoundStep(mark, a + b, |a| + i);
    NotFoundStep(mark, b, i);
  }

  lemma ShiftedFound(mark: Mark, a: string, b: string, i: nat, k: nat)
    requires i < k < |b| && AnchorAt(mark, b[i..]) == Some(k - i)
    requires var e := BraceEnd(b[k..]);
             var next := if e.None? then k else k + e.value + 1;
             Spans(mark, a + b, |a| + next) == Shifted(Spans(mark, b, next), |a|)
    ensures Spans(mark, a + b, |a| + i) == Shifted(Spans(mark, b, i), |a|)
  {
    hide AnchorAt, BraceEnd, Spans, Shifted, IsMark;
    FoundInRest(mark, a, b, i, k);
    MarkerScan.FoundStep(mark, b, i, k);
    var e := BraceEnd(b[k..]);
    if e.Some? {
      ShiftedCons(Span(i, k, k + e.value), Spans(mark, b, k + e.value + 1), |a|);
    }
  }

  lemma {:induction false} SpansOfRest(mark: Mark, a: string, b: string, i: nat)
    requires i <= |b|
    ensures Spans(mark, a + b, |a| + i) == Shifted(Spans(mark, b, i), |a|)
    decreases |b| - i
  {
    hide AnchorAt, BraceEnd, Spans, Shifted, IsMark;
    var found := AnchorAt(mark, b[i..]);
    if found.None? {
      NotFoundInBoth(mark, a, b, i);
      if i == |b| {
        NothingShifted(|a|);
      } else {
        SpansOfRest(mark, a, b, i + 1);
      }
    } else {
      var k := i + found.value;
      var e := BraceEnd(b[k..]);
      StartsInCapital(mark, "");
      SpansOfRest(mark, a, b, if e.None? then k else k + e.value + 1);
      ShiftedFound(mark, a, b, i, k);
    }
  }

  lemma NothingShifted(n: nat)
    ensures Shifted([], n) == []
  {
  }

  lemma {:induction false} EventsOfRest(a: string, b: string, spans: seq<Span>)
    requires InRange(b, spans)
    ensures InRange(a + b, Shifted(spans, |a|))
    ensures EventsAt(a + b, Shifted(spans, |a|)) == EventsAt(b, spans)
  {
    hide SliceEvents;
    if spans != [] {
      var x, rest := spans[0], spans[1..];
      EventsOfRest(a, b, rest);
      assert Shifted(spans, |a|)[1..] == Shifted(rest, |a|);
      assert (a + b)[|a| + x.braceStart..|a| + x.braceEnd + 1] == b[x.braceStart..x.braceEnd + 1];
    }
  }

  /** The events from some place on, if every marker begins there. */
  lemma EventsFrom(a: string, b: string)
    ensures var spans := Spans(SENTINEL, a + b, |a|);
            InRange(a + b, spans) && EventsAt(a + b, spans) == Events(b)
  {
    hide Spans, InRange, EventsAt;
    SpansOfRest(SENTINEL, a, b, 0);
    SpansInRange(b);
    EventsOfRest(a, b, MarkerSpans(b));
  }

  // ---------------------------------------------------------------- what a command yields

  /** A command without an anchor yields nothing. */
  lemma NoMarkerNoEvents(command: string)
    requires AnchorFree(SENTINEL, command)
    ensures Events(command) == []
  {
    hide AnchorFree, Spans;
    assert command[0..] == command;
    SkipTail(SENTINEL, command, 0);
  }

  lemma ClosedSpan(gap: string, blanks: string, body: string, rest: string)
    requires AnchorFree(SENTINEL, gap) && AllBlank(blanks) && Closes(body)
    ensures var before := gap + SENTINEL + blanks;
            var command := before + body + rest;
            var x := Span(|gap|, |before|, |before| + |body| - 1);
            && Marked(SENTINEL, gap, blanks, body + rest) == command
            && |before| <= x.braceEnd < |command| && command[x.braceStart..x.braceEnd + 1] == body
            && MarkerSpans(command) == [x] + Spans(SENTINEL, command, |before + body|)
  {
    hide AnchorFree, AllBlank, BraceEnd, Spans, Run, NoOverlap, IsMark;
    ClosesAtEnd(body, rest);
    SentinelHasNoOverlap();
    FirstSpan(SENTINEL, gap, blanks, body + rest);
    MarkedParts(SENTINEL, gap, blanks, body + rest);
    BodyParts(gap + SENTINEL + blanks, body, rest);
  }

  /** The first marker of any command, whatever quotes or text are around it, yields what its object reads as, and
      what follows that object is read as a command of its own. */
  lemma ClosedMarkerIsRead(gap: string, blanks: string, body: string, rest: string)
    requires AnchorFree(SENTINEL, gap) && AllBlank(blanks) && Closes(body)
    ensures Events(Marked(SENTINEL, gap, blanks, body + rest)) == SliceEvents(body) + Events(rest)
  {
    hide AnchorFree, AllBlank, Spans, EventsAt, SliceEvents, InRange, IsMark, Marked, Closes, MarkerSpans;
    ClosedSpan(gap, blanks, body, rest);
    var before := gap + SENTINEL + blanks;
    var command := before + body + rest;
    SpansInRange(command);
    EventsFrom(before + body, rest);
    OneMoreSpan(command, Span(|gap|, |before|, |before| + |body| - 1), Spans(SENTINEL, command, |before + body|));
  }

  lemma BodyParts(before: string, body: string, rest: string)
    ensures var command := before + (body + rest);
            && command == before + body + rest && command[|before|..|before| + |body|] == body
            && |before + body| == |before| + |body|
  {
    assert before + (body + rest) == before + body + rest;
  }

  lemma OneMoreSpan(command: string, x: Span, tail: seq<Span>)
    requires InRange(command, [x] + tail) && x.braceStart <= x.braceEnd < |command|
    ensures InRange(command, tail)
    ensures EventsAt(command, [x] + tail) ==
            SliceEvents(command[x.braceStart..x.braceEnd + 1]) + EventsAt(command, tail)
  {
    hide SliceEvents;
    assert ([x] + tail)[1..] == tail;
    forall k | 0 <= k < |tail| ensures tail[k].braceStart <= tail[k].braceEnd < |command| {
      assert ([x] + tail)[k + 1] == tail[k];
    }
  }

  /** A marker whose object is never closed yields nothing itself; the text from its brace on is read as a command
      of its own. */
  lemma UnclosedMarkerIsPassed(gap: string, blanks: string, body: string)
    requires AnchorFree(SENTINEL, gap) && AllBlank(blanks) && body != "" && body[0] == '{' && BraceEnd(body) == None
    ensures Events(Marked(SENTINEL, gap, blanks, body)) == Events(body)
  {
    hide AnchorFree, AllBlank, BraceEnd, Spans, EventsAt, NoOverlap, InRange, IsMark;
    SentinelHasNoOverlap();
    FirstSpan(SENTINEL, gap, blanks, body);
    MarkedParts(SENTINEL, gap, blanks, body);
    SpansInRange(Marked(SENTINEL, gap, blanks, body));
    EventsFrom(gap + SENTINEL + blanks, body);
  }

  // ---------------------------------------------------------------- escaped quotes

  /** A text as it stands between double quotes, if it has no other character to escape. */
  function EscapeQuotes(t: string): string {
    if t == "" then "" else (if t[0] == '"' then "\\\"" else [t[0]]) + EscapeQuotes(t[1..])
  }

  lemma {:induction false} EscapeAppend(t: string, c: char)
    ensures EscapeQuotes(t + [c]) == EscapeQuotes(t) + (if c == '"' then "\\\"" else [c])
  {
    if t == "" {
      assert "" + [c] == [c] && [c][1..] == "";
    } else {
      EscapeAppend(t[1..], c);
      assert (t + [c])[1..] == t[1..] + [c];
    }
  }

  lemma {:induction false} EscapeUndone(t: string)
    requires '\\' !in t
    ensures UnescapeDoubleQuotes(EscapeQuotes(t)) == t
  {
    if t != "" {
      EscapeUndone(t[1..]);
      var e := EscapeQuotes(t);
      if t[0] == '"' {
        assert e[2..] == EscapeQuotes(t[1..]);
      } else {
        assert e[0] == t[0] && t[0] in t && e[1..] == EscapeQuotes(t[1..]);
      }
    }
  }

  lemma {:induction false} NothingToUnescape(t: string)
    requires '\\' !in t
    ensures UnescapeSingleQuotes(t) == t
  {
    if t != "" {
      NothingToUnescape(t[1..]);
      assert |t| > 1 ==> t[1] in t;
    }
  }

  /** Every quote of the escaped text comes after a backslash. */
  lemma {:induction false} QuotesAreEscaped(t: string)
    ensures var e := EscapeQuotes(t);
            && (forall j | 0 <= j < |e| && e[j] == '"' :: j > 0 && e[j - 1] == '\\')
            && ('"' in t ==> '\\' in e) && (t != "" && t[0] != '"' ==> e != "" && e[0] == t[0])
  {
    if t != "" {
      var e, later := EscapeQuotes(t), EscapeQuotes(t[1..]);
      QuotesAreEscaped(t[1..]);
      var n := if t[0] == '"' then 2 else 1;
      assert e[n..] == later;
      forall j | 0 <= j < |e| && e[j] == '"' ensures j > 0 && e[j - 1] == '\\' {
        if j >= n {
          assert later[j - n] == '"';
        }
      }
      if '"' in t {
        assert e[0] == '\\' || '"' in t[1..];
      }
    }
  }

  lemma {:induction false} BlanksAreSkipped(s: string)
    ensures var n := |s| - |Json.SkipBlanks(s)|;
            Json.SkipBlanks(s) == s[n..] && forall i | 0 <= i < n :: Json.IsBlank(s[i])
  {
    if s != "" && Json.IsBlank(s[0]) {
      BlanksAreSkipped(s[1..]);
      var n := |s| - |Json.SkipBlanks(s)|;
      forall i | 0 <= i < n ensures Json.IsBlank(s[i]) {
        assert i > 0 ==> s[i] == s[1..][i - 1];
      }
    }
  }

  lemma AfterBrace(e: string)
    requires e != ""
    ensures var u := Json.SkipBlanks(e[1..]);
            var n := |e| - |u|;
            1 <= n && u == e[n..] && forall i | 1 <= i < n :: Json.IsBlank(e[i])
  {
    hide Json.SkipBlanks, Json.IsBlank;
    BlanksAreSkipped(e[1..]);
    var n := |e| - |Json.SkipBlanks(e[1..])|;
    forall i | 1 <= i < n ensures Json.IsBlank(e[i]) {
      assert e[i] == e[1..][i - 1];
    }
  }

  /** An object whose quotes are all escaped is no JSON text, unless it is empty. */
  lemma EscapedIsNoJson(t: string)
    requires t != "" && t[0] == '{' && '"' in t
    ensures Json.Parse(EscapeQuotes(t)).Fail?
  {
    hide EscapeQuotes, Json.Parse, Json.ParseFields, Json.SkipBlanks;
    var e := EscapeQuotes(t);
    QuotesAreEscaped(t);
    AfterBrace(e);
    var u := Json.SkipBlanks(e[1..]);
    var n := |e| - |u|;
    if u != "" && u[0] == '}' {
      NotAllBlank(e, n);
    } else {
      assert u != "" ==> u[0] == e[n];
      assert e[n - 1] != '\\';
      NoField(u);
    }
    ObjectFails(e);
  }

  lemma NotAllBlank(e: string, n: nat)
    requires 0 < n < |e| && e[0] == '{' && e[n] == '}' && '\\' in e && forall i | 1 <= i < n :: Json.IsBlank(e[i])
    ensures Json.SkipBlanks(e[n..][1..]) != ""
  {
    var later := e[n..][1..];
    BlanksAreSkipped(later);
    if Json.SkipBlanks(later) == "" {
      forall i | 0 <= i < |e| ensures e[i] != '\\' {
        assert i > n ==> Json.IsBlank(later[i - n - 1]) && e[i] == later[i - n - 1];
      }
    }
  }

  lemma NoField(u: string)
    requires u == "" || (u[0] != '"' && !Json.IsBlank(u[0]))
    ensures Json.ParseFields(u).Fail?
  {
  }

  lemma ObjectFails(e: string)
    requires e != "" && e[0] == '{'
    requires var u := Json.SkipBlanks(e[1..]);
             if u != "" && u[0] == '}' then Json.SkipBlanks(u[1..]) != "" else Json.ParseFields(u).Fail?
    ensures Json.Parse(e).Fail?
  {
    hide Json.ParseFields, Json.ParseItems, Json.ParseChars, Json.ParseWord;
    assert Json.SkipBlanks(e) == e;
  }

  /** A slice with every quote escaped reads as the text does without the escapes. */
  lemma EscapedQuotesRead(t: string)
    requires t != "" && t[0] == '{' && '\\' !in t
    ensures ParseMarkerSlice(EscapeQuotes(t)) == Json.Parse(t)
  {
    hide Json.Parse, EscapeQuotes;
    EscapeUndone(t);
    NothingToUnescape(t);
    if '"' in t {
      EscapedIsNoJson(t);
    } else {
      NothingToEscape(t);
    }
  }

  lemma {:induction false} NothingToEscape(t: string)
    requires '"' !in t
    ensures EscapeQuotes(t) == t
  {
    if t != "" {
      assert t[0] in t;
      NothingToEscape(t[1..]);
    }
  }

  /** Opening minus closing braces, whatever quotes are around them. */
  function Balance(t: string): int {
    if t == "" then 0
    else Balance(t[..|t| - 1]) + if t[|t| - 1] == '{' then 1 else if t[|t| - 1] == '}' then -1 else 0
  }

  predicate BalancesAtEnd(t: string) {
    t != "" && t[0] == '{' && Balance(t) == 0 && forall k | 0 < k < |t| :: Balance(t[..k]) > 0
  }

  function EscapedSigns(t: string): seq<Sign> {
    seq(|t|, i requires 0 <= i < |t| => if t[i] == '"' then Escaped('"') else SignOf(t[i]))
  }

  lemma OneMoreEscaped(xs: seq<Sign>, x: Sign)
    requires ValidSigns(xs) && !InString(xs) && ValidSign(x) && !x.Quote?
    ensures var ys := xs + [x];
            && ValidSigns(ys) && SignsText(ys) == SignsText(xs) + SignText(x) && !InString(ys)
            && Level(ys) == Level(xs) + if x.Open? then 1 else if x.Close? then -1 else 0
  {
    hide ValidSign, SignText;
    assert (xs + [x])[..|xs|] == xs;
  }

  lemma EscapedSign(c: char)
    requires c != '\\'
    ensures var x := if c == '"' then Escaped('"') else SignOf(c);
            ValidSign(x) && !x.Quote? && SignText(x) == (if c == '"' then "\\\"" else [c]) &&
            (x.Open? <==> c == '{') && (x.Close? <==> c == '}')
  {
  }

  lemma {:induction false} EscapedText(t: string)
    requires '\\' !in t
    ensures var xs := EscapedSigns(t);
            ValidSigns(xs) && SignsText(xs) == EscapeQuotes(t) && !InString(xs) && Level(xs) == Balance(t)
  {
    hide EscapeQuotes, SignsText, InString, Level, SignOf, ValidSign, ValidSigns;
    var xs := EscapedSigns(t);
    if t == "" {
      assert xs == [];
      NoSigns();
      NothingToEscape("");
    } else {
      var n := |t| - 1;
      var init := t[..n];
      assert t == init + [t[n]] && t[n] in t;
      EscapedText(init);
      EscapeAppend(init, t[n]);
      EscapedSign(t[n]);
      OneMoreEscaped(EscapedSigns(init), xs[n]);
      assert xs == EscapedSigns(init) + [xs[n]];
    }
  }

  /** Between double quotes the scanner sees no string, so it ends the object where all braces come out even. */
  lemma EscapedCloses(t: string)
    requires '\\' !in t && BalancesAtEnd(t)
    ensures Closes(EscapeQuotes(t))
  {
    hide Closes, SignsText, EscapeQuotes, Balance, Level;
    var xs := EscapedSigns(t);
    EscapedText(t);
    forall k | 0 < k < |xs| ensures Level(xs[..k]) > 0 {
      EscapedText(t[..k]);
      assert xs[..k] == EscapedSigns(t[..k]);
    }
    BraceEndIsFirstBalance(xs, "");
  }

  /** The event that a JSON text stands for, if it stands for one. */
  function TextEvents(t: string): seq<Event> {
    var v := Json.Parse(t);
    if v.Got? && ToEvent(v.value).Some? then [ToEvent(v.value).value] else []
  }

  /** A marker between double quotes, its quotes escaped, in any command: it yields what the unescaped text stands
      for, as long as that text has no backslash and its braces, those in strings included, come out even at its
      end. What follows is read as a command of its own. */
  lemma DoubleQuotedMarkerIsRead(gap: string, blanks: string, t: string, rest: string)
    requires AnchorFree(SENTINEL, gap) && AllBlank(blanks) && '\\' !in t && BalancesAtEnd(t)
    ensures Events(Marked(SENTINEL, gap, blanks, EscapeQuotes(t) + rest)) == TextEvents(t) + Events(rest)
  {
    hide AnchorFree, AllBlank, Events, Closes, Json.Parse, ParseMarkerSlice, EscapeQuotes, IsMark;
    EscapedCloses(t);
    ClosedMarkerIsRead(gap, blanks, EscapeQuotes(t), rest);
    EscapedQuotesRead(t);
  }

  lemma FirstBrace(t: string)
    requires t != "" && t[0] == '{'
    ensures Balance(t[..1]) == 1
  {
    assert t[..1][..0] == "" && t[..1][0] == '{';
  }

  /** Where the braces first come out even. */
  lemma {:induction false} FirstBalance(t: string, k: nat) returns (n: nat)
    requires t != "" && t[0] == '{' && 0 < k <= |t| && Balance(t[..k]) <= 0
    ensures 0 < n <= k && BalancesAtEnd(t[..n])
    decreases k
  {
    FirstBrace(t);
    if j: nat :| 0 < j < k && Balance(t[..j]) <= 0 {
      n := FirstBalance(t, j);
    } else {
      n := k;
      assert t[..k][..k - 1] == t[..k - 1];
      assert forall j | 0 < j < k :: t[..k][..j] == t[..j];
    }
  }

  lemma {:induction false} EscapeOfPrefix(t: string, n: nat)
    requires n <= |t|
    ensures EscapeQuotes(t) == EscapeQuotes(t[..n]) + EscapeQuotes(t[n..])
  {
    if n > 0 {
      EscapeOfPrefix(t[1..], n - 1);
      assert t[..n][1..] == t[1..][..n - 1] && t[n..] == t[1..][n - 1..];
    }
  }

  lemma UnescapeNext(c: char, more: string)
    ensures c != '\\' ==> UnescapeDoubleQuotes([c] + more) == [c] + UnescapeDoubleQuotes(more)
    ensures UnescapeDoubleQuotes("\\\"" + more) == "\"" + UnescapeDoubleQuotes(more)
  {
    assert ([c] + more)[1..] == more && ("\\\"" + more)[2..] == more;
  }

  lemma {:induction false} EscapeUndoneBefore(t: string, more: string)
    requires '\\' !in t
    ensures UnescapeDoubleQuotes(EscapeQuotes(t) + more) == t + UnescapeDoubleQuotes(more)
  {
    hide UnescapeDoubleQuotes;
    if t == "" {
      assert EscapeQuotes(t) + more == more;
    } else {
      assert t[0] in t;
      var later := EscapeQuotes(t[1..]) + more;
      EscapeUndoneBefore(t[1..], more);
      UnescapeNext(t[0], later);
      var head := if t[0] == '"' then "\\\"" else [t[0]];
      Reassociate(head, EscapeQuotes(t[1..]), more);
      Reassociate([t[0]], t[1..], UnescapeDoubleQuotes(more));
      assert t == [t[0]] + t[1..];
    }
  }

  lemma UnescapeNextSingle(c: char, more: string)
    requires more == "" || more[0] != '\\'
    ensures UnescapeSingleQuotes([c] + more) == [c] + UnescapeSingleQuotes(more)
  {
    var s := [c] + more;
    assert s[1..] == more;
    assert |s| > 1 ==> s[1] == more[0];
  }

  lemma {:induction false} NothingToUnescapeBefore(t: string, more: string)
    requires '\\' !in t && (more != "" ==> more[0] != '\\')
    ensures UnescapeSingleQuotes(t + more) == t + UnescapeSingleQuotes(more)
  {
    hide UnescapeSingleQuotes;
    if t == "" {
      assert t + more == more;
    } else {
      NothingToUnescapeBefore(t[1..], more);
      assert |t| > 1 ==> (t[1..] + more)[0] == t[1] && t[1] in t;
      UnescapeNextSingle(t[0], t[1..] + more);
      Reassociate([t[0]], t[1..], more);
      Reassociate([t[0]], t[1..], UnescapeSingleQuotes(more));
      assert t == [t[0]] + t[1..];
    }
  }

  lemma BackslashIsNoJson(s: string)
    requires |s| >= 2 && s[0] == '{' && s[1] == '\\'
    ensures Json.Parse(s).Fail?
  {
    assert s[1..][0] == '\\';
    assert Json.SkipBlanks(s[1..]) == s[1..];
    NoField(s[1..]);
    ObjectFails(s);
  }

  /** What the scanner cuts out when a payload's text comes with too few closing braces: text that does not parse. */
  lemma LongerSliceFails(t: string, more: string)
    requires '\\' !in t && |t| >= 2 && t[0] == '{' && t[1] == '"' && Json.Parse(t).Got? && Json.ParseValue(t).rest == ""
    requires more != "" && more[0] == '"'
    ensures ParseMarkerSlice(EscapeQuotes(t) + more).Fail?
  {
    hide Json.Parse, Json.ParseValue, EscapeQuotes, UnescapeSingleQuotes;
    var slice := EscapeQuotes(t) + more;
    StartsEscaped(t);
    BackslashIsNoJson(slice);
    EscapeUndoneBefore(t, more);
    var y := UnescapeDoubleQuotes(more);
    QuoteStays(more);
    NothingToUnescapeBefore(t, y);
    QuoteStaysSingle(y);
    var z := UnescapeSingleQuotes(y);
    TextStartsObject(t);
    Json.CompleteTextEnds(t, z);
    assert "" + z == z && Json.SkipBlanks(z) == z;
  }

  lemma StartsEscaped(t: string)
    requires |t| >= 2 && t[0] == '{' && t[1] == '"'
    ensures var e := EscapeQuotes(t); |e| >= 2 && e[0] == '{' && e[1] == '\\'
  {
    assert t[1..] != "" && t[1..][0] == '"';
  }

  lemma QuoteStays(more: string)
    requires more != "" && more[0] == '"'
    ensures var y := UnescapeDoubleQuotes(more); y != "" && y[0] == '"'
  {
  }

  lemma QuoteStaysSingle(y: string)
    requires y != "" && y[0] == '"'
    ensures var z := UnescapeSingleQuotes(y); z != "" && z[0] == '"'
  {
  }

  lemma TextStartsObject(t: string)
    requires t != "" && t[0] == '{' && Json.Parse(t).Got?
    ensures Json.Parse(t).value.Object?
  {
    hide Json.ParseFields;
    assert Json.SkipBlanks(t) == t;
  }

  /** A shorter text than the whole object, but an object to the scanner, does not parse. */
  lemma ShorterTextFails(t: string, n: nat)
    requires 0 < n < |t| && t[0] == '{' && t[|t| - 1] == '}' && Json.Parse(t).Got?
    ensures Json.Parse(t[..n]).Fail?
  {
    hide Json.ParseValue, Json.SkipBlanks;
    if Json.Parse(t[..n]).Got? {
      TextStartsObject(t[..n]);
      Json.CompleteTextEnds(t[..n], t[n..]);
      assert t[..n] + t[n..] == t;
      NotAllSkipped(Json.ParseValue(t[..n]).rest, t[n..]);
    }
  }

  lemma NotAllSkipped(a: string, b: string)
    requires b != "" && b[|b| - 1] == '}'
    ensures Json.SkipBlanks(a + b) != ""
  {
    BlanksAreSkipped(a + b);
    assert (a + b)[|a + b| - 1] == '}';
  }

  /** What the payload's marker between double quotes yields, up to the brace that the scanner takes for its end. */
  function DoubleQuotedEvents(p: Payload, rest: string): seq<Event> {
    var s := EscapeQuotes(PayloadText(p)) + rest;
    var e := BraceEnd(s);
    if e.None? then [] else SliceEvents(s[..e.value + 1])
  }

  lemma PayloadTextShape(p: Payload)
    requires ValidPayload(p) && FiniteCounts(p)
    ensures var t := PayloadText(p);
            && |t| >= 2 && t[0] == '{' && t[1] == '"' && t[|t| - 1] == '}'
            && Json.Parse(t) == Json.Got(Json.Object(PayloadFields(p)), "") && Json.ParseValue(t).rest == ""
            && ToEvent(Json.Object(PayloadFields(p))) == Some(EventOf(p))
  {
    hide Json.Parse, Json.ParseValue, ToEvent;
    PayloadIsValid(p);
    Json.ParseWhole(Json.Object(PayloadFields(p)), false);
    Json.ParseText(Json.Object(PayloadFields(p)), false, "");
    assert PayloadText(p) + "" == PayloadText(p);
    PayloadReadsBack(p);
    FirstField(p);
  }

  lemma FirstField(p: Payload)
    ensures var t := PayloadText(p); |t| >= 2 && t[0] == '{' && t[1] == '"' && t[|t| - 1] == '}'
  {
    hide Json.FieldsText, Json.CharsText;
    assert PayloadFields(p) != [];
    Json.FieldsStart(PayloadFields(p), false);
    ObjectText(Json.FieldsText(PayloadFields(p), false));
  }

  lemma ObjectText(inner: string)
    requires inner != "" && inner[0] == '"'
    ensures var t := "{" + inner + "}"; |t| >= 2 && t[0] == '{' && t[1] == '"' && t[|t| - 1] == '}'
  {
  }

  lemma BalancedIsRead(p: Payload, rest: string)
    requires ValidPayload(p) && FiniteCounts(p) && '\\' !in PayloadText(p) && BalancesAtEnd(PayloadText(p))
    ensures DoubleQuotedEvents(p, rest) == [EventOf(p)]
  {
    hide Json.Parse, Json.ParseValue, EscapeQuotes, ToEvent, PayloadText, PayloadFields, BraceEnd, BalancesAtEnd;
    hide ParseMarkerSlice;
    var t := PayloadText(p);
    PayloadTextShape(p);
    assert t[..|t|] == t;
    CutAt(t, |t|, rest);
    EscapedQuotesRead(t);
  }

  lemma EarlyEndIsLost(p: Payload, n: nat, rest: string)
    requires ValidPayload(p) && FiniteCounts(p) && '\\' !in PayloadText(p)
    requires 0 < n < |PayloadText(p)| && BalancesAtEnd(PayloadText(p)[..n])
    ensures DoubleQuotedEvents(p, rest) == []
  {
    hide Json.Parse, Json.ParseValue, EscapeQuotes, ToEvent, PayloadText, PayloadFields, BraceEnd;
    hide ParseMarkerSlice;
    var t := PayloadText(p);
    PayloadTextShape(p);
    CutAt(t, n, rest);
    ShorterTextFails(t, n);
    EscapedQuotesRead(t[..n]);
  }

  lemma LateEndIsLost(p: Payload, rest: string)
    requires ValidPayload(p) && FiniteCounts(p) && '\\' !in PayloadText(p) && rest != "" && rest[0] == '"'
    requires forall k | 0 < k <= |PayloadText(p)| :: Balance(PayloadText(p)[..k]) > 0
    ensures DoubleQuotedEvents(p, rest) == []
  {
    hide Json.Parse, Json.ParseValue, EscapeQuotes, ToEvent, PayloadText, PayloadFields, BraceEnd, Balance;
    hide ParseMarkerSlice;
    var t := PayloadText(p);
    PayloadTextShape(p);
    StaysOpenThen(t, rest);
    var e := BraceEnd(EscapeQuotes(t) + rest);
    if e.Some? {
      var more := rest[..e.value + 1 - |EscapeQuotes(t)|];
      assert (EscapeQuotes(t) + rest)[..e.value + 1] == EscapeQuotes(t) + more;
      LongerSliceFails(t, more);
    }
  }

  /** The double-quoted marker of a payload whose text needs no backslash yields the payload's event if and only if
      its braces, those in strings included, first come out even at its end. */
  lemma DoubleQuotedPayloadIsExact(p: Payload, rest: string)
    requires ValidPayload(p) && FiniteCounts(p) && '\\' !in PayloadText(p) && rest != "" && rest[0] == '"'
    ensures DoubleQuotedEvents(p, rest) == [EventOf(p)] <==> BalancesAtEnd(PayloadText(p))
    ensures !BalancesAtEnd(PayloadText(p)) ==> DoubleQuotedEvents(p, rest) == []
  {
    hide DoubleQuotedEvents, PayloadText, Balance;
    var t := PayloadText(p);
    PayloadTextShape(p);
    if BalancesAtEnd(t) {
      BalancedIsRead(p, rest);
    } else if k: nat :| 0 < k <= |t| && Balance(t[..k]) <= 0 {
      var n := FirstBalance(t, k);
      assert t[..|t|] == t;
      EarlyEndIsLost(p, n, rest);
    } else {
      LateEndIsLost(p, rest);
    }
  }

  lemma CutAt(t: string, n: nat, rest: string)
    requires n <= |t| && '\\' !in t && BalancesAtEnd(t[..n])
    ensures var s, e := EscapeQuotes(t) + rest, EscapeQuotes(t[..n]);
            BraceEnd(s) == Some(|e| - 1) && e != "" && s[..|e|] == e
  {
    hide EscapeQuotes, BraceEnd, Closes, BalancesAtEnd;
    EscapedCloses(t[..n]);
    EscapeOfPrefix(t, n);
    var e := EscapeQuotes(t[..n]);
    assert EscapeQuotes(t) + rest == e + (EscapeQuotes(t[n..]) + rest);
    ClosesAtEnd(e, EscapeQuotes(t[n..]) + rest);
    ClosesLater(e);
  }

  lemma StaysOpenThen(t: string, rest: string)
    requires '\\' !in t && t != "" && t[0] == '{' && forall k | 0 < k <= |t| :: Balance(t[..k]) > 0
    ensures var e := BraceEnd(EscapeQuotes(t) + rest); e.Some? ==> e.value >= |EscapeQuotes(t)|
  {
    hide EscapeQuotes, Balance, Run, Level, InString, SignsText, EscapedSigns;
    var xs := EscapedSigns(t);
    EscapedText(t);
    EscapedLength(t);
    forall k | 0 < k <= |xs| ensures Level(xs[..k]) > 0 {
      EscapedText(t[..k]);
      EscapedPrefix(t, k);
    }
    assert xs[..|xs|] == xs;
    SignsRun(xs);
    RunAppend(EscapeQuotes(t), rest, Scanning(0, false, false));
    RunEnds(rest, Scanning(Level(xs), InString(xs), false));
  }

  lemma EscapedLength(t: string)
    ensures |EscapedSigns(t)| == |t| && (t != "" && t[0] == '{' ==> EscapedSigns(t)[0] == Open)
  {
  }

  lemma EscapedPrefix(t: string, k: nat)
    requires k <= |t|
    ensures EscapedSigns(t)[..k] == EscapedSigns(t[..k])
  {
  }

  lemma RunEnds(s: string, st: State)
    requires st.Scanning?
    ensures var r := Run(s, st); r.Closed? ==> r.beyond < |s|
  {
  }

  // ---------------------------------------------------------------- what an object reads as

  ghost predicate SaysAt(fields: seq<Json.Field>, name: string, v: Json.Json, i: nat) {
    i < |fields| && fields[i] == Json.Field(name, v) && forall j | i < j < |fields| :: fields[j].name != name
  }

  /** The last field with this name has this value. */
  ghost predicate Says(fields: seq<Json.Field>, name: string, v: Json.Json) {
    exists i: nat :: SaysAt(fields, name, v, i)
  }

  lemma SaysAtLast(fields: seq<Json.Field>, name: string, v: Json.Json, i: nat)
    requires fields != []
    ensures var n := |fields| - 1;
            SaysAt(fields, name, v, i) <==>
            if i >= n then i == n && fields[n] == Json.Field(name, v)
            else SaysAt(fields[..n], name, v, i) && fields[n].name != name
  {
    var n := |fields| - 1;
    assert forall j | 0 <= j < n :: fields[..n][j] == fields[j];
  }

  lemma {:induction false} SaysIsProperty(fields: seq<Json.Field>, name: string, v: Json.Json)
    ensures Property(fields, name) == Some(v) <==> Says(fields, name, v)
  {
    hide SaysAt;
    if fields == [] {
      assert forall i: nat :: !SaysAt([], name, v, i) by {
        NobodySays(name, v);
      }
    } else {
      var n := |fields| - 1;
      SaysIsProperty(fields[..n], name, v);
      forall i: nat
        ensures SaysAt(fields, name, v, i) <==>
                if i >= n then i == n && fields[n] == Json.Field(name, v)
                else SaysAt(fields[..n], name, v, i) && fields[n].name != name
      {
        SaysAtLast(fields, name, v, i);
      }
      if fields[n] == Json.Field(name, v) {
        assert SaysAt(fields, name, v, n);
      } else if fields[n].name != name && Says(fields[..n], name, v) {
        var i: nat :| SaysAt(fields[..n], name, v, i);
        SaysEarly(fields[..n], name, v, i);
        assert SaysAt(fields, name, v, i);
      }
    }
  }

  lemma NobodySays(name: string, v: Json.Json)
    ensures forall i: nat :: !SaysAt([], name, v, i)
  {
  }

  lemma SaysEarly(fields: seq<Json.Field>, name: string, v: Json.Json, i: nat)
    requires SaysAt(fields, name, v, i)
    ensures i < |fields|
  {
  }

  ghost predicate SaysText(fields: seq<Json.Field>, name: string, text: string) {
    Says(fields, name, Json.String(text))
  }

  lemma SaysIsStringProperty(fields: seq<Json.Field>, name: string, text: string)
    ensures StringProperty(fields, name) == Some(text) <==> SaysText(fields, name, text)
  {
    hide Property;
    SaysIsProperty(fields, name, Json.String(text));
  }

  lemma NoStringProperty(fields: seq<Json.Field>, name: string)
    ensures StringProperty(fields, name) == None <==> forall text :: !SaysText(fields, name, text)
  {
    hide StringProperty, SaysText;
    forall text ensures StringProperty(fields, name) == Some(text) <==> SaysText(fields, name, text) {
      SaysIsStringProperty(fields, name, text);
    }
    if StringProperty(fields, name).Some? {
      assert SaysText(fields, name, StringProperty(fields, name).value);
    }
  }

  /** An object is read as the end of an agent's work exactly if its last fields of these names say so, with a
      boolean for success; the reason is that of a string field, if there is one. */
  lemma DoneIsReadExactly(fields: seq<Json.Field>, agent: string, taskId: string, success: bool,
                          reason: Option<string>)
    ensures ToEvent(Json.Object(fields)) == Some(AgentDone(agent, taskId, success, reason)) <==>
            && SaysText(fields, "type", "wave.agent_done") && SaysText(fields, "agent", agent)
            && SaysText(fields, "taskId", taskId) && Says(fields, "success", Json.Bool(success))
            && (if reason.Some? then SaysText(fields, "reason", reason.value)
                else forall text :: !SaysText(fields, "reason", text))
  {
    hide Says, SaysText, Property, StringProperty;
    SaysIsStringProperty(fields, "type", "wave.agent_done");
    SaysIsStringProperty(fields, "agent", agent);
    SaysIsStringProperty(fields, "taskId", taskId);
    SaysIsProperty(fields, "success", Json.Bool(success));
    NoStringProperty(fields, "reason");
    if reason.Some? {
      SaysIsStringProperty(fields, "reason", reason.value);
    }
  }

  /** It is read as the end of a wave exactly if they say so with two numbers. */
  lemma EndIsReadExactly(fields: seq<Json.Field>, successCount: string, totalCount: string)
    ensures ToEvent(Json.Object(fields)) == Some(End(Finite(successCount), Finite(totalCount))) <==>
            && SaysText(fields, "type", "wave.end") && Says(fields, "successCount", Json.Number(successCount))
            && Says(fields, "totalCount", Json.Number(totalCount))
  {
    hide Says, SaysText, Property, StringProperty;
    SaysIsStringProperty(fields, "type", "wave.end");
    SaysIsProperty(fields, "successCount", Json.Number(successCount));
    SaysIsProperty(fields, "totalCount", Json.Number(totalCount));
  }

  /** It is read as the start of a wave exactly if they say so with a list; the agents are those of its entries. */
  lemma StartIsReadExactly(fields: seq<Json.Field>, agents: seq<Agent>)
    ensures ToEvent(Json.Object(fields)) == Some(Start(agents)) <==>
            && SaysText(fields, "type", "wave.start")
            && exists items :: Says(fields, "agents", Json.Array(items)) && agents == ToAgents(items)
  {
    hide Says, SaysText, Property, StringProperty, ToAgents;
    SaysIsStringProperty(fields, "type", "wave.start");
    var list := Property(fields, "agents");
    if list.Some? && list.value.Array? {
      SaysIsProperty(fields, "agents", list.value);
      assert list.value == Json.Array(list.value.items);
    }
    forall items | Says(fields, "agents", Json.Array(items)) ensures list == Some(Json.Array(items)) {
      SaysIsProperty(fields, "agents", Json.Array(items));
    }
  }

  /** The entry is an object that names an agent. */
  ghost predicate Names(v: Json.Json, a: Agent) {
    v.Object? && SaysText(v.fields, "agent", a.agent) && SaysText(v.fields, "taskId", a.taskId) &&
    SaysText(v.fields, "title", a.title)
  }

  lemma NamesIsAgent(v: Json.Json, a: Agent)
    ensures ToAgent(v) == Some(a) <==> Names(v, a)
  {
    hide SaysText, StringProperty;
    if v.Object? {
      SaysIsStringProperty(v.fields, "agent", a.agent);
      SaysIsStringProperty(v.fields, "taskId", a.taskId);
      SaysIsStringProperty(v.fields, "title", a.title);
    }
  }

  function AgentOf(v: Json.Json): seq<Agent> {
    if ToAgent(v).Some? then [ToAgent(v).value] else []
  }

  lemma AgentsCons(v: Json.Json, rest: seq<Json.Json>)
    ensures ToAgents([v] + rest) == AgentOf(v) + ToAgents(rest)
  {
    hide ToAgent;
    assert ([v] + rest)[1..] == rest;
  }

  lemma {:induction false} AgentsAppend(a: seq<Json.Json>, b: seq<Json.Json>)
    ensures ToAgents(a + b) == ToAgents(a) + ToAgents(b)
  {
    hide ToAgents, AgentOf;
    if a == [] {
      assert a + b == b;
      NoAgents();
    } else {
      AgentsAppend(a[1..], b);
      AgentsCons(a[0], a[1..]);
      AgentsCons(a[0], a[1..] + b);
      assert a == [a[0]] + a[1..] && a + b == [a[0]] + (a[1..] + b);
    }
  }

  lemma NoAgents()
    ensures ToAgents([]) == []
  {
  }

  /** An entry that names an agent is kept in its place, whatever is around it. */
  lemma NamedAgentIsKept(before: seq<Json.Json>, v: Json.Json, a: Agent, after: seq<Json.Json>)
    requires Names(v, a)
    ensures ToAgents(before + [v] + after) == ToAgents(before) + [a] + ToAgents(after)
  {
    hide Names, ToAgent;
    NamesIsAgent(v, a);
    AgentsAppend(before + [v], after);
    AgentsAppend(before, [v]);
    assert [v][1..] == [];
  }

  /** Any other entry is dropped, and only that one. */
  lemma MalformedEntryIsDropped(before: seq<Json.Json>, v: Json.Json, after: seq<Json.Json>)
    requires forall a :: !Names(v, a)
    ensures ToAgents(before + [v] + after) == ToAgents(before + after)
  {
    hide Names, ToAgent;
    if ToAgent(v).Some? {
      NamesIsAgent(v, ToAgent(v).value);
    }
    AgentsAppend(before + [v], after);
    AgentsAppend(before, [v]);
    AgentsAppend(before, after);
    assert [v][1..] == [] && ToAgents([v]) == [];
  }

  // ---------------------------------------------------------------- stripping an invocation

  predicate AllSpace(s: string) {
    forall i | 0 <= i < |s| :: IsSpace(s[i])
  }

  /** What may follow the object inside single quotes: characters, and escaped apostrophes. */
  datatype Inner = Plain(c: char) | Apostrophe

  function InnerText(xs: seq<Inner>): string {
    if xs == [] then ""
    else (if xs[0].Plain? then [xs[0].c] else "'\\''") + InnerText(xs[1..])
  }

  predicate ValidInner(xs: seq<Inner>) {
    forall i | 0 <= i < |xs| :: xs[i].Plain? ==> xs[i].c != '\''
  }

  /** What may follow it inside double quotes: characters, and any character after a backslash. */
  datatype Double = Char(c: char) | Pair(c: char)

  function DoubleText(xs: seq<Double>): string {
    if xs == [] then ""
    else (if xs[0].Char? then [xs[0].c] else ['\\', xs[0].c]) + DoubleText(xs[1..])
  }

  predicate ValidDouble(xs: seq<Double>) {
    forall i | 0 <= i < |xs| :: xs[i].Char? ==> xs[i].c != '"' && xs[i].c != '\\'
  }

  lemma {:induction false} SpaceBack(command: string, n: nat, k: nat)
    requires n <= k <= |command| && (forall i | n <= i < k :: IsSpace(command[i]))
    requires n > 0 ==> !IsSpace(command[n - 1])
    ensures BackOverSpace(command, k) == n
    decreases k
  {
    if k > n {
      SpaceBack(command, n, k - 1);
    }
  }

  lemma {:induction false} BlanksBack(command: string, n: nat, k: nat)
    requires n <= k <= |command| && (forall i | n <= i < k :: IsBlank(command[i]))
    requires n > 0 ==> !IsBlank(command[n - 1])
    ensures BackOverBlanks(command, k) == n
    decreases k
  {
    if k > n {
      BlanksBack(command, n, k - 1);
    }
  }

  lemma {:induction false} BlanksForward(command: string, k: nat, n: nat)
    requires k <= n <= |command| && (forall i | k <= i < n :: IsBlank(command[i]))
    requires n < |command| ==> !IsBlank(command[n])
    ensures OverBlanks(command, k) == n
    decreases n - k
  {
    if k < n {
      BlanksForward(command, k + 1, n);
    }
  }

  lemma SingleStep(command: string, k: nat, s: string)
    requires k < |command| && s == command[k..]
    ensures SingleQuoteEnd(command, k) ==
            if "'\\''" <= s then SingleQuoteEnd(command, k + 4)
            else if s[0] == '\'' then k + 1
            else SingleQuoteEnd(command, k + 1)
  {
    assert forall i | 0 <= i < |s| :: s[i] == command[k + i];
  }

  lemma NotReopened(post: string)
    requires !Reopens(post)
    ensures !("'\\''" <= "'" + post)
  {
    assert forall i | 0 <= i < |post| :: ("'" + post)[1 + i] == post[i];
  }

  function InnerHead(x: Inner): string {
    if x.Plain? then [x.c] else "'\\''"
  }

  lemma InnerParts(xs: seq<Inner>, rest: string)
    requires xs != []
    ensures var head, later := InnerHead(xs[0]), InnerText(xs[1..]);
            && InnerText(xs) + rest == head + (later + rest) && |InnerText(xs)| == |head| + |later|
  {
    hide InnerHead, InnerText;
    InnerCons(xs);
    Reassociate(InnerHead(xs[0]), InnerText(xs[1..]), rest);
  }

  lemma Reassociate(a: string, b: string, c: string)
    ensures a + b + c == a + (b + c)
  {
  }

  lemma InnerCons(xs: seq<Inner>)
    requires xs != []
    ensures InnerText(xs) == InnerHead(xs[0]) + InnerText(xs[1..])
  {
  }

  lemma HeadInside(command: string, k: nat, x: Inner, rest: string)
    requires k <= |command| && command[k..] == InnerHead(x) + rest && (x.Plain? ==> x.c != '\'')
    ensures k < |command| && k + |InnerHead(x)| <= |command| && command[k + |InnerHead(x)|..] == rest
    ensures SingleQuoteEnd(command, k) == SingleQuoteEnd(command, k + |InnerHead(x)|)
  {
    hide SingleQuoteEnd;
    var s := command[k..];
    assert s[|InnerHead(x)|..] == rest;
    assert s[0] == InnerHead(x)[0];
    SingleStep(command, k, s);
  }

  /** The closing single quote is the first one that does not begin an escaped apostrophe. */
  lemma {:induction false} SingleQuoteCloses(command: string, k: nat, xs: seq<Inner>, post: string)
    requires k <= |command| && command[k..] == InnerText(xs) + ("'" + post) && ValidInner(xs) && !Reopens(post)
    ensures SingleQuoteEnd(command, k) == k + |InnerText(xs)| + 1
    decreases |xs|
  {
    hide SingleQuoteEnd, InnerText, InnerHead, Reopens;
    if xs == [] {
      NothingInside();
      assert command[k..] == "'" + post;
      SingleStep(command, k, "'" + post);
      NotReopened(post);
    } else {
      InnerParts(xs, "'" + post);
      HeadInside(command, k, xs[0], InnerText(xs[1..]) + ("'" + post));
      SingleQuoteCloses(command, k + |InnerHead(xs[0])|, xs[1..], post);
    }
  }

  lemma NothingInside()
    ensures InnerText([]) == "" && DoubleText([]) == ""
  {
  }

  /** The closing double quote is the first one that does not come after an unescaped backslash. */
  lemma {:induction false} DoubleQuoteCloses(command: string, k: nat, xs: seq<Double>, post: string)
    requires k <= |command| && command[k..] == DoubleText(xs) + ("\"" + post) && ValidDouble(xs)
    ensures DoubleQuoteEnd(command, k) == k + |DoubleText(xs)| + 1
    decreases |xs|
  {
    var s := command[k..];
    if xs == [] {
      assert s == "\"" + post;
      assert command[k] == s[0];
    } else {
      var n := if xs[0].Char? then 1 else 2;
      assert s == DoubleText(xs[..1]) + (DoubleText(xs[1..]) + ("\"" + post)) by {
        assert xs[..1][1..] == [];
      }
      assert command[k + n..] == s[n..] == DoubleText(xs[1..]) + ("\"" + post);
      assert command[k] == s[0];
      DoubleQuoteCloses(command, k + n, xs[1..], post);
    }
  }

  /** How a marker is quoted, and what follows its object up to the closing quote. */
  datatype Quoting = Bare | Single(inner: seq<Inner>) | Doubled(within: seq<Double>)

  function QuoteMark(q: Quoting): string {
    match q
    case Bare => ""
    case Single(_) => "'"
    case Doubled(_) => "\""
  }

  function AfterObject(q: Quoting): string {
    match q
    case Bare => ""
    case Single(inner) => InnerText(inner) + "'"
    case Doubled(within) => DoubleText(within) + "\""
  }

  predicate ValidQuoting(q: Quoting, post: string) {
    match q
    case Bare => true
    case Single(inner) => ValidInner(inner) && !Reopens(post)
    case Doubled(within) => ValidDouble(within)
  }

  predicate EndsInQuote(t: string) {
    t != "" && (t[|t| - 1] == '\'' || t[|t| - 1] == '"')
  }

  predicate EchoEndsAt(t: string, n: nat) {
    4 <= n <= |t| && t[n - 4..n] == "echo" && AllSpace(t[n..])
  }

  /** The text before the quote: with the word echo and white space after it, or without. */
  function Call(before: string, echo: Option<string>): string {
    before + if echo.Some? then "echo" + echo.value else ""
  }

  ghost predicate ValidCall(before: string, echo: Option<string>, q: Quoting) {
    && (echo.Some? ==> AllSpace(echo.value))
    && (echo.None? ==> forall n: nat :: !EchoEndsAt(before, n))
    && (q.Bare? && echo.None? ==> !EndsInQuote(before))
  }

  lemma EchoText(command: string, before: string, ws: string, k: nat)
    requires var t := before + "echo" + ws; k == |t| <= |command| && command[..k] == t
    requires AllSpace(ws)
    ensures var n := |before|;
            command[..n] == before && command[n..n + 4] == "echo" && BackOverSpace(command, k) == n + 4
  {
    var t := before + "echo" + ws;
    var n := |before|;
    assert forall i | 0 <= i < k :: command[i] == t[i];
    assert forall i | n + 4 <= i < k :: t[i] == ws[i - n - 4];
    assert t[n + 3] == "echo"[3];
    SpaceBack(command, n + 4, k);
    assert command[n..n + 4] == t[n..n + 4] == "echo";
    assert command[..n] == t[..n];
  }

  lemma BlanksEnd(command: string, a: string, blanks: string)
    requires |a + blanks| <= |command| && command[..|a + blanks|] == a + blanks
    requires AllBlank(blanks) && (a != "" ==> !IsBlank(a[|a| - 1]))
    ensures BackOverBlanks(command, |a + blanks|) == |a|
  {
    var n := |a + blanks|;
    assert forall i | 0 <= i < n :: command[i] == (a + blanks)[i];
    assert forall i | |a| <= i < n :: (a + blanks)[i] == blanks[i - |a|];
    BlanksBack(command, |a|, n);
  }

  lemma NoEchoText(command: string, t: string)
    requires |t| <= |command| && command[..|t|] == t && forall n: nat :: !EchoEndsAt(t, n)
    ensures var echo := BackOverSpace(command, |t|); !(echo >= 4 && command[echo - 4..echo] == "echo")
  {
    hide BackOverSpace, EchoEndsAt, IsSpace;
    var echo := BackOverSpace(command, |t|);
    BackIsSpace(command, |t|);
    if echo >= 4 {
      NoEchoHere(command, t, echo);
    }
  }

  lemma NoEchoHere(command: string, t: string, n: nat)
    requires 4 <= n <= |t| <= |command| && command[..|t|] == t && !EchoEndsAt(t, n)
    requires forall i | n <= i < |t| :: IsSpace(command[i])
    ensures command[n - 4..n] != "echo"
  {
    assert command[n - 4..n] == t[n - 4..n];
    forall i | 0 <= i < |t[n..]| ensures IsSpace(t[n..][i]) {
      assert t[n..][i] == command[..|t|][n + i] == command[n + i];
    }
  }

  lemma {:induction false} BackIsSpace(command: string, k: nat)
    requires k <= |command|
    ensures forall i | BackOverSpace(command, k) <= i < k :: IsSpace(command[i])
  {
    if k > 0 && IsSpace(command[k - 1]) {
      BackIsSpace(command, k - 1);
    }
  }

  /** An invocation begins at the word echo, if white space alone separates it from the quote or sentinel, and
      otherwise at the quote or sentinel; blanks before it belong to it. */
  lemma InvocationStarts(command: string, a: string, blanks: string, echo: Option<string>, q: Quoting)
    requires AllBlank(blanks) && (a != "" ==> !IsBlank(a[|a| - 1])) && ValidCall(a + blanks, echo, q)
    requires var t := Call(a + blanks, echo) + QuoteMark(q); |t| <= |command| && command[..|t|] == t
    ensures StartOf(command, |Call(a + blanks, echo) + QuoteMark(q)|) == |a|
  {
    hide AllBlank, AllSpace, BackOverSpace, BackOverBlanks, EchoEndsAt;
    var before := a + blanks;
    var t := Call(before, echo);
    var n := |t|;
    assert command[..n] == command[..|t + QuoteMark(q)|][..n] == t;
    QuoteIsSeen(command, before, echo, q);
    if echo.Some? {
      assert t == before + "echo" + echo.value;
      EchoText(command, before, echo.value, n);
    } else {
      assert t == before;
      NoEchoText(command, before);
    }
    BlanksEnd(command, a, blanks);
  }

  lemma QuoteIsSeen(command: string, before: string, echo: Option<string>, q: Quoting)
    requires ValidCall(before, echo, q)
    requires var t := Call(before, echo) + QuoteMark(q); |t| <= |command| && command[..|t|] == t
    ensures var m := |Call(before, echo) + QuoteMark(q)|;
            if q.Bare? then !QuotedBefore(command, m)
            else QuotedBefore(command, m) && command[m - 1] == QuoteMark(q)[0]
  {
    var t := Call(before, echo) + QuoteMark(q);
    var m := |t|;
    assert m > 0 ==> command[m - 1] == command[..m][m - 1] == t[m - 1];
    if q.Bare? && echo.Some? {
      assert t == before + "echo" + echo.value;
      assert echo.value != "" ==> t[m - 1] == echo.value[|echo.value| - 1] && IsSpace(t[m - 1]);
      assert echo.value == "" ==> t[m - 1] == "echo"[3];
    }
  }

  /** Past the closing quote of an object that ends before k. */
  function QuotingEnd(command: string, q: Quoting, k: nat): nat {
    match q
    case Bare => k
    case Single(_) => SingleQuoteEnd(command, k)
    case Doubled(_) => DoubleQuoteEnd(command, k)
  }

  lemma EndIsQuotingEnd(command: string, start: nat, end: nat, q: Quoting)
    requires start <= |command|
    requires if q.Bare? then !QuotedBefore(command, start)
             else QuotedBefore(command, start) && command[start - 1] == QuoteMark(q)[0]
    ensures EndOf(command, start, end) == OverBlanks(command, QuotingEnd(command, q, end + 1))
  {
    hide SingleQuoteEnd, DoubleQuoteEnd, OverBlanks;
  }

  lemma QuotingCloses(command: string, k: nat, q: Quoting, post: string)
    requires k <= |command| && command[k..] == AfterObject(q) + post && ValidQuoting(q, post)
    ensures QuotingEnd(command, q, k) == k + |AfterObject(q)|
  {
    hide SingleQuoteEnd, DoubleQuoteEnd, InnerText, DoubleText, Reopens, ValidInner, ValidDouble;
    match q {
      case Bare =>
      case Single(inner) =>
        assert AfterObject(q) + post == InnerText(inner) + ("'" + post);
        SingleQuoteCloses(command, k, inner, post);
      case Doubled(within) =>
        assert AfterObject(q) + post == DoubleText(within) + ("\"" + post);
        DoubleQuoteCloses(command, k, within, post);
    }
  }

  /** It ends after the closing quote, or right after the object if there is none, with the blanks that follow. */
  lemma InvocationEnds(command: string, start: nat, end: nat, q: Quoting, blanks: string, c: string)
    requires start <= end < |command| && command[end + 1..] == AfterObject(q) + (blanks + c)
    requires AllBlank(blanks) && (c != "" ==> !IsBlank(c[0])) && ValidQuoting(q, blanks + c)
    requires if q.Bare? then !QuotedBefore(command, start)
             else QuotedBefore(command, start) && command[start - 1] == QuoteMark(q)[0]
    ensures EndOf(command, start, end) == |command| - |c| && command[|command| - |c|..] == c
  {
    hide QuotingEnd, AfterObject, ValidQuoting, EndOf, OverBlanks, AllBlank;
    EndIsQuotingEnd(command, start, end, q);
    QuotingCloses(command, end + 1, q, blanks + c);
    BlanksAfter(command, end + 1, AfterObject(q), blanks, c);
  }

  lemma BlanksAfter(command: string, k: nat, text: string, blanks: string, c: string)
    requires k <= |command| && command[k..] == text + (blanks + c)
    requires AllBlank(blanks) && (c != "" ==> !IsBlank(c[0]))
    ensures OverBlanks(command, k + |text|) == |command| - |c| && command[|command| - |c|..] == c
  {
    var s := command[k..];
    var n := k + |text|;
    assert forall i | n <= i < n + |blanks| :: command[i] == s[i - k] == blanks[i - n];
    assert c != "" ==> command[n + |blanks|] == s[|text| + |blanks|] == c[0];
    BlanksForward(command, n, n + |blanks|);
    assert command[n + |blanks|..] == s[|text| + |blanks|..] == c;
  }

  // ---------------------------------------------------------------- a command with one marker

  lemma OneSpan(before: string, blanks: string, body: string, after: string)
    requires AnchorFree(SENTINEL, before) && AnchorFree(SENTINEL, after) && AllBlank(blanks) && Closes(body)
    ensures var command := Marked(SENTINEL, before, blanks, body + after);
            var brace := |before| + |SENTINEL| + |blanks|;
            && |before| < brace + |body| <= |command|
            && command[..|before|] == before && command[brace + |body|..] == after
            && MarkerSpans(command) == [Span(|before|, brace, brace + |body| - 1)]
  {
    hide AnchorFree, AllBlank, BraceEnd, Spans, Run, NoOverlap, IsMark;
    var command := Marked(SENTINEL, before, blanks, body + after);
    var brace := |before| + |SENTINEL| + |blanks|;
    ClosesAtEnd(body, after);
    SentinelHasNoOverlap();
    FirstSpan(SENTINEL, before, blanks, body + after);
    MarkedParts(SENTINEL, before, blanks, body + after);
    BodyParts(before + SENTINEL + blanks, body, after);
    assert command[brace + |body|..] == after;
    SkipTail(SENTINEL, command, brace + |body|);
  }

  lemma OneCutOnly(before: string, blanks: string, body: string, after: string)
    requires AnchorFree(SENTINEL, before) && AnchorFree(SENTINEL, after) && AllBlank(blanks) && Closes(body)
    ensures var command := Marked(SENTINEL, before, blanks, body + after);
            var end := |before| + |SENTINEL| + |blanks| + |body| - 1;
            && |before| <= end < |command| && command[..|before|] == before && command[end + 1..] == after
            && Strip(command) == Slice(command, 0, StartOf(command, |before|)) +
                                 Slice(command, EndOf(command, |before|, end), |command|)
  {
    hide AnchorFree, AllBlank, Closes, StartOf, EndOf, Slice, IsMark, MarkerSpans;
    var command := Marked(SENTINEL, before, blanks, body + after);
    OneSpan(before, blanks, body, after);
    SpansStartInRange(command);
    var spans := MarkerSpans(command);
    MarkerStrip.OneCut(command, spans[0], [], 0);
    assert spans == [spans[0]] + [];
  }

  /** The text before an invocation, its first half up to the sentinel, and the text after it. */
  ghost predicate OneInvocation(a: string, b1: string, echo: Option<string>, q: Quoting, blanks: string, body: string,
                                b2: string, c: string) {
    && AllBlank(b1) && AllBlank(b2) && AllBlank(blanks) && Closes(body)
    && (a != "" ==> !IsBlank(a[|a| - 1])) && (c != "" ==> !IsBlank(c[0]))
    && ValidCall(a + b1, echo, q) && AnchorFree(SENTINEL, Call(a + b1, echo) + QuoteMark(q))
  }

  /** A command with one marker, quoted or not, with echo before it or not, is stripped to exactly the text around
      the invocation without the blanks next to it. */
  lemma InvocationIsStripped(a: string, b1: string, echo: Option<string>, q: Quoting, blanks: string, body: string,
                             b2: string, c: string)
    requires OneInvocation(a, b1, echo, q, blanks, body, b2, c)
    requires ValidQuoting(q, b2 + c) && AnchorFree(SENTINEL, AfterObject(q) + (b2 + c))
    ensures Strip(Marked(SENTINEL, Call(a + b1, echo) + QuoteMark(q), blanks, body + (AfterObject(q) + (b2 + c)))) ==
            a + c
  {
    hide AnchorFree, AllBlank, Closes, StartOf, EndOf, IsMark, Strip, ValidCall, ValidQuoting, Marked, QuotedBefore;
    hide Slice, Call, QuoteMark, AfterObject;
    var before, after := Call(a + b1, echo) + QuoteMark(q), AfterObject(q) + (b2 + c);
    var command := Marked(SENTINEL, before, blanks, body + after);
    var end := |before| + |SENTINEL| + |blanks| + |body| - 1;
    OneCutOnly(before, blanks, body, after);
    InvocationStarts(command, a, b1, echo, q);
    QuoteIsSeen(command, a + b1, echo, q);
    InvocationEnds(command, |before|, end, q, b2, c);
    TextBefore(command, a, b1, echo, q);
    EndsOfText(command, a, c);
  }

  lemma EndsOfText(command: string, a: string, c: string)
    requires |a| <= |command| && |c| <= |command| && command[..|a|] == a && command[|command| - |c|..] == c
    ensures Slice(command, 0, |a|) == a && Slice(command, |command| - |c|, |command|) == c
  {
  }

  lemma TextBefore(command: string, a: string, b1: string, echo: Option<string>, q: Quoting)
    requires var t := Call(a + b1, echo) + QuoteMark(q); |t| <= |command| && command[..|t|] == t
    ensures |a| <= |command| && command[..|a|] == a
  {
    var t := Call(a + b1, echo) + QuoteMark(q);
    assert t[..|a|] == a;
    assert command[..|a|] == command[..|t|][..|a|];
  }

  lemma {:induction false} SingleQuoteStaysOpen(command: string, k: nat, xs: seq<Inner>)
    requires k <= |command| && command[k..] == InnerText(xs) && ValidInner(xs)
    ensures SingleQuoteEnd(command, k) >= |command|
    decreases |xs|
  {
    hide SingleQuoteEnd, InnerText, InnerHead;
    if xs == [] {
      NothingInside();
    } else {
      InnerCons(xs);
      HeadInside(command, k, xs[0], InnerText(xs[1..]));
      SingleQuoteStaysOpen(command, k + |InnerHead(xs[0])|, xs[1..]);
    }
  }

  lemma {:induction false} DoubleQuoteStaysOpen(command: string, k: nat, xs: seq<Double>, last: string)
    requires k <= |command| && command[k..] == DoubleText(xs) + last && ValidDouble(xs) && (last == "" || last == "\\")
    ensures DoubleQuoteEnd(command, k) >= |command|
    decreases |xs|
  {
    var s := command[k..];
    if xs == [] {
      assert s == last;
      assert last != "" ==> command[k] == s[0];
    } else {
      var n := if xs[0].Char? then 1 else 2;
      assert s == DoubleText(xs[..1]) + (DoubleText(xs[1..]) + last) by {
        assert xs[..1][1..] == [];
      }
      assert command[k + n..] == s[n..] == DoubleText(xs[1..]) + last;
      assert command[k] == s[0];
      DoubleQuoteStaysOpen(command, k + n, xs[1..], last);
    }
  }

  /** The invocation has a quote that is never closed; tail is the text after its object. */
  ghost predicate StaysQuoted(q: Quoting, tail: string) {
    match q
    case Bare => false
    case Single(inner) => ValidInner(inner) && tail == InnerText(inner)
    case Doubled(within) =>
      ValidDouble(within) && (tail == DoubleText(within) || tail == DoubleText(within) + "\\")
  }

  /** If the quote is never closed, everything from the invocation on goes. */
  lemma OpenInvocationIsStripped(a: string, b1: string, echo: Option<string>, q: Quoting, blanks: string, body: string,
                                 tail: string)
    requires OneInvocation(a, b1, echo, q, blanks, body, "", "")
    requires StaysQuoted(q, tail) && AnchorFree(SENTINEL, tail)
    ensures Strip(Marked(SENTINEL, Call(a + b1, echo) + QuoteMark(q), blanks, body + tail)) == a
  {
    hide AnchorFree, AllBlank, Closes, StartOf, EndOf, IsMark, Strip, ValidCall, Marked, QuotedBefore, OverBlanks;
    hide SingleQuoteEnd, DoubleQuoteEnd, InnerText, DoubleText, ValidInner, ValidDouble, Slice, Call, QuoteMark;
    var before := Call(a + b1, echo) + QuoteMark(q);
    var command := Marked(SENTINEL, before, blanks, body + tail);
    var end := |before| + |SENTINEL| + |blanks| + |body| - 1;
    OneCutOnly(before, blanks, body, tail);
    InvocationStarts(command, a, b1, echo, q);
    QuoteIsSeen(command, a + b1, echo, q);
    EndIsQuotingEnd(command, |before|, end, q);
    if q.Single? {
      SingleQuoteStaysOpen(command, end + 1, q.inner);
    } else {
      var last := if tail == DoubleText(q.within) then "" else "\\";
      assert tail == DoubleText(q.within) + last;
      DoubleQuoteStaysOpen(command, end + 1, q.within, last);
    }
    TextBefore(command, a, b1, echo, q);
    EndsOfText(command, a, "");
    NothingBeyond(command, QuotingEnd(command, q, end + 1));
  }

  lemma NothingBeyond(command: string, k: nat)
    requires k >= |command|
    ensures Slice(command, OverBlanks(command, k), |command|) == ""
  {
  }
}
