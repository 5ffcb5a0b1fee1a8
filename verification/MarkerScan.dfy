/**
 Where the wave markers of a shell command are: a sentinel, blanks, and a JSON object that ends at the
 brace matching its first one. The scanner knows of JSON only double quotes and backslashes.
 */
module MarkerScan {
  import opened Wrappers
  import opened Characters
  import Json

  /** A sentinel: capitals and underscores. */
  type Mark = s: string | IsMark(s) witness "A"

  predicate IsMark(s: string) {
    s != "" && forall i | 0 <= i < |s| :: IsMarkChar(s[i])
  }

  predicate IsMarkChar(c: char) {
    'A' <= c <= 'Z' || c == '_'
  }

  datatype Span = Span(sentinelStart: nat, braceStart: nat, braceEnd: nat)

  // ---------------------------------------------------------------- the matching brace

  /** skip: the last character was a backslash. beyond: characters after the matching brace. */
  datatype State = Scanning(depth: int, inString: bool, skip: bool) | Closed(beyond: nat)

  function Step(st: State, c: char): State {
    if st.Closed? then Closed(st.beyond + 1)
    else if st.skip then st.(skip := false)
    else if c == '\\' then st.(skip := true)
    else if c == '"' then st.(inString := !st.inString)
    else if st.inString then st
    else if c == '{' then st.(depth := st.depth + 1)
    else if c == '}' then if st.depth == 1 then Closed(0) else st.(depth := st.depth - 1)
    else st
  }

  function Run(s: string, st: State): (r: State)
    ensures r.Closed? && st.Scanning? ==> r.beyond < |s|
  {
    if s == "" then st else Step(Run(s[..|s| - 1], st), s[|s| - 1])
  }

  /** Index of the brace that matches the one s starts with. */
  function BraceEnd(s: string): (r: Option<nat>)
    ensures r.Some? ==> r.value < |s|
    ensures r.Some? ==> s[r.value] == '}'
  {
    ClosingBrace(s);
    match Run(s, Scanning(0, false, false))
    case Scanning(_, _, _) => None
    case Closed(beyond) => Some(|s| - 1 - beyond)
  }

  lemma {:induction false} RunAppend(a: string, b: string, st: State)
    ensures Run(a + b, st) == Run(b, Run(a, st))
  {
    if b == "" {
      assert a + b == a;
    } else {
      var init := b[..|b| - 1];
      assert (a + b)[..|a + b| - 1] == a + init;
      RunAppend(a, init, st);
    }
  }

  lemma {:induction false} ClosedStays(s: string, beyond: nat)
    ensures Run(s, Closed(beyond)) == Closed(beyond + |s|)
  {
    if s != "" {
      ClosedStays(s[..|s| - 1], beyond);
    }
  }

  lemma {:induction false} ClosingBrace(s: string)
    ensures var r := Run(s, Scanning(0, false, false));
            r.Closed? ==> s[|s| - 1 - r.beyond] == '}'
  {
    if s != "" {
      ClosingBrace(s[..|s| - 1]);
    }
  }

  lemma RunOne(s: string, from: nat, i: nat, st: State)
    requires from <= i < |s|
    ensures Run(s[from..i + 1], st) == Step(Run(s[from..i], st), s[i])
  {
    var t := s[from..i + 1];
    assert t[..|t| - 1] == s[from..i] && t[|t| - 1] == s[i];
  }

  lemma EscapeIsSkipped(s: string, from: nat, i: nat, depth: int, inString: bool)
    requires from <= i < |s| && s[i] == '\\'
    requires Run(s[from..i], Scanning(0, false, false)) == Scanning(depth, inString, false)
    ensures if i + 1 < |s| then Run(s[from..i + 2], Scanning(0, false, false)) == Scanning(depth, inString, false)
            else BraceEnd(s[from..]) == None
  {
    hide Run;
    var init := Scanning(0, false, false);
    RunOne(s, from, i, init);
    if i + 1 < |s| {
      RunOne(s, from, i + 1, init);
    } else {
      assert s[from..i + 1] == s[from..];
    }
  }

  lemma ClosedHere(s: string, from: nat, i: nat)
    requires from <= i < |s| && Run(s[from..i + 1], Scanning(0, false, false)) == Closed(0)
    ensures BraceEnd(s[from..]) == Some(i - from)
  {
    hide Run;
    assert s[from..] == s[from..i + 1] + s[i + 1..];
    RunAppend(s[from..i + 1], s[i + 1..], Scanning(0, false, false));
    ClosedStays(s[i + 1..], 0);
  }

  method FindMatchingBraceEnd(command: string, openIndex: nat) returns (r: Option<nat>)
    requires openIndex <= |command|
    ensures r.None? <==> BraceEnd(command[openIndex..]).None?
    ensures r.Some? ==> BraceEnd(command[openIndex..]) == Some(r.value - openIndex)
  {
    hide Run;
    ghost var init := Scanning(0, false, false);
    var depth := 0;
    var inString := false;
    var i := openIndex;
    RunNothing(command, openIndex);
    while i < |command|
      invariant openIndex <= i <= |command| + 1
      invariant i <= |command| ==> Run(command[openIndex..i], init) == Scanning(depth, inString, false)
      invariant i > |command| ==> BraceEnd(command[openIndex..]) == None
    {
      var c := command[i];
      if c == '\\' {
        EscapeIsSkipped(command, openIndex, i, depth, inString);
        i := i + 2;
        continue;
      }
      RunOne(command, openIndex, i, init);
      if c == '"' {
        inString := !inString;
      } else if inString {
      } else if c == '{' {
        depth := depth + 1;
      } else if c == '}' {
        depth := depth - 1;
        if depth == 0 {
          ClosedHere(command, openIndex, i);
          return Some(i);
        }
      }
      i := i + 1;
    }
    if i == |command| {
      assert command[openIndex..i] == command[openIndex..];
    }
    return None;
  }

  lemma RunNothing(s: string, from: nat)
    requires from <= |s|
    ensures Run(s[from..from], Scanning(0, false, false)) == Scanning(0, false, false)
  {
  }

  // ---------------------------------------------------------------- the anchors

  function BlankRun(s: string): (n: nat)
    ensures n <= |s|
  {
    if s != "" && IsBlank(s[0]) then 1 + BlankRun(s[1..]) else 0
  }

  /** If s begins with the sentinel, blanks and a brace, the offset of that brace. */
  function AnchorAt(mark: Mark, s: string): (r: Option<nat>)
    ensures r.Some? ==> |mark| <= r.value < |s| && s[r.value] == '{' && mark <= s
  {
    if mark <= s then
      var b := |mark| + BlankRun(s[|mark|..]);
      if b < |s| && s[b] == '{' then Some(b) else None
    else None
  }

  /** The spans found from index at on. */
  function Spans(mark: Mark, command: string, at: nat): seq<Span>
    requires at <= |command|
    decreases |command| - at
  {
    if at == |command| then []
    else
      match AnchorAt(mark, command[at..])
      case None => Spans(mark, command, at + 1)
      case Some(b) =>
        match BraceEnd(command[at + b..])
        case None => Spans(mark, command, at + b)
        case Some(e) => [Span(at, at + b, at + b + e)] + Spans(mark, command, at + b + e + 1)
  }

  /** The leftmost anchor from an index on, as the global regular expression finds it. */
  method ExecAnchor(mark: Mark, command: string, from: nat) returns (r: Option<(nat, nat)>)
    requires from <= |command|
    ensures r.None? ==> Spans(mark, command, from) == []
    ensures r.Some? ==>
              && from <= r.value.0 < r.value.1 < |command|
              && AnchorAt(mark, command[r.value.0..]) == Some(r.value.1 - r.value.0)
              && Spans(mark, command, from) == Spans(mark, command, r.value.0)
  {
    hide AnchorAt, BraceEnd;
    var i := from;
    while i < |command|
      invariant from <= i <= |command|
      invariant Spans(mark, command, from) == Spans(mark, command, i)
    {
      var a := AnchorAt(mark, command[i..]);
      if a.Some? {
        return Some((i, i + a.value));
      }
      i := i + 1;
    }
    return None;
  }

  lemma FoundStep(mark: Mark, command: string, start: nat, braceStart: nat)
    requires start < braceStart < |command| && AnchorAt(mark, command[start..]) == Some(braceStart - start)
    ensures var e := BraceEnd(command[braceStart..]);
            Spans(mark, command, start) ==
            if e.None? then Spans(mark, command, braceStart)
            else [Span(start, braceStart, braceStart + e.value)] + Spans(mark, command, braceStart + e.value + 1)
  {
    hide AnchorAt, BraceEnd;
  }

  method ScanMarkerSpans(mark: Mark, command: string) returns (spans: seq<Span>)
    ensures spans == Spans(mark, command, 0)
  {
    hide AnchorAt, BraceEnd, Spans;
    spans := [];
    var lastIndex: nat := 0;
    while true
      invariant lastIndex <= |command|
      invariant Spans(mark, command, 0) == spans + Spans(mark, command, lastIndex)
      decreases |command| - lastIndex
    {
      var found := ExecAnchor(mark, command, lastIndex);
      if found.None? {
        break;
      }
      var start, braceStart := found.value.0, found.value.1;
      FoundStep(mark, command, start, braceStart);
      var braceEnd := FindMatchingBraceEnd(command, braceStart);
      if braceEnd.None? {
        lastIndex := braceStart;
      } else {
        spans := spans + [Span(start, braceStart, braceEnd.value)];
        lastIndex := braceEnd.value + 1;
      }
    }
  }

  // ---------------------------------------------------------------- every command

  ghost predicate WellPlaced(mark: Mark, command: string, at: nat, span: Span) {
    && at <= span.sentinelStart
    && span.sentinelStart + |mark| <= span.braceStart < span.braceEnd < |command|
    && mark <= command[span.sentinelStart..]
    && command[span.braceStart] == '{' && command[span.braceEnd] == '}'
  }

  ghost predicate Ordered(mark: Mark, command: string, at: nat, spans: seq<Span>) {
    && (forall k | 0 <= k < |spans| :: WellPlaced(mark, command, at, spans[k]))
    && (forall j, k | 0 <= j < k < |spans| :: spans[j].braceEnd < spans[k].sentinelStart)
  }

  lemma OrderedCons(mark: Mark, command: string, at: nat, span: Span, next: nat, spans: seq<Span>)
    requires WellPlaced(mark, command, at, span) && span.braceEnd < next
    requires Ordered(mark, command, next, spans)
    ensures Ordered(mark, command, at, [span] + spans)
  {
    var all := [span] + spans;
    forall k | 0 <= k < |all| ensures WellPlaced(mark, command, at, all[k]) {
      if k > 0 {
        assert WellPlaced(mark, command, next, spans[k - 1]);
      }
    }
  }

  lemma NotFoundStep(mark: Mark, command: string, at: nat)
    requires at <= |command|
    ensures at == |command| ==> Spans(mark, command, at) == []
    ensures at < |command| && AnchorAt(mark, command[at..]).None? ==>
              Spans(mark, command, at) == Spans(mark, command, at + 1)
  {
    hide AnchorAt, BraceEnd;
  }

  lemma NoneOrdered(mark: Mark, command: string, at: nat)
    ensures Ordered(mark, command, at, [])
  {
  }

  lemma OrderedLater(mark: Mark, command: string, at: nat, next: nat, spans: seq<Span>)
    requires at <= next && Ordered(mark, command, next, spans)
    ensures Ordered(mark, command, at, spans)
  {
    forall k | 0 <= k < |spans| ensures WellPlaced(mark, command, at, spans[k]) {
      assert WellPlaced(mark, command, next, spans[k]);
    }
  }

  /** The spans lie in the command, one after the other without overlap; each runs from a sentinel to
      an opening brace and ends at a closing one. */
  lemma {:induction false} SpansAreOrdered(mark: Mark, command: string, at: nat)
    requires at <= |command|
    ensures Ordered(mark, command, at, Spans(mark, command, at))
    decreases |command| - at
  {
    hide AnchorAt, BraceEnd, Ordered, Spans;
    NoneOrdered(mark, command, at);
    NotFoundStep(mark, command, at);
    if at < |command| {
      var a := AnchorAt(mark, command[at..]);
      if a.None? {
        SpansAreOrdered(mark, command, at + 1);
        OrderedLater(mark, command, at, at + 1, Spans(mark, command, at + 1));
      } else {
        FoundStep(mark, command, at, at + a.value);
        var e := BraceEnd(command[at + a.value..]);
        if e.None? {
          SpansAreOrdered(mark, command, at + a.value);
          OrderedLater(mark, command, at, at + a.value, Spans(mark, command, at + a.value));
        } else {
          var next := at + a.value + e.value + 1;
          SpansAreOrdered(mark, command, next);
          OrderedCons(mark, command, at, Span(at, at + a.value, next - 1), next, Spans(mark, command, next));
        }
      }
    }
  }

  // ---------------------------------------------------------------- the scanner on printed JSON

  /** Reading the text at this depth, in or out of a string, leaves the scanner as it was. */
  ghost predicate Neutral(text: string, depth: int, inString: bool) {
    Run(text, Scanning(depth, inString, false)) == Scanning(depth, inString, false)
  }

  lemma NeutralAppend(a: string, b: string, depth: int, inString: bool)
    requires Neutral(a, depth, inString) && Neutral(b, depth, inString)
    ensures Neutral(a + b, depth, inString)
  {
    RunAppend(a, b, Scanning(depth, inString, false));
  }

  predicate Plain(c: char, inString: bool) {
    c != '\\' && c != '"' && (inString || (c != '{' && c != '}'))
  }

  lemma {:induction false} PlainIsNeutral(s: string, depth: int, inString: bool)
    requires forall i | 0 <= i < |s| :: Plain(s[i], inString)
    ensures Neutral(s, depth, inString)
  {
    if s != "" {
      PlainIsNeutral(s[..|s| - 1], depth, inString);
    }
  }

  lemma EscapeIsNeutral(c: char, depth: int, inString: bool)
    ensures Neutral(['\\', c], depth, inString)
  {
    var st := Scanning(depth, inString, false);
    assert ['\\', c][..1] == ['\\'];
    assert ['\\'][..0] == "";
    assert Run(['\\'], st) == Step(Run("", st), '\\');
  }

  lemma CharIsNeutral(c: char, quoted: bool, depth: int)
    ensures Neutral(Json.CharText(c, quoted), depth, true)
  {
    var t := Json.CharText(c, quoted);
    if |t| == 1 {
      PlainIsNeutral(t, depth, true);
    } else if |t| == 2 {
      assert t == ['\\', t[1]];
      EscapeIsNeutral(t[1], depth, true);
    } else if |t| == 4 {
      assert t == "'" + (['\\', '\''] + "'");
      PlainIsNeutral("'", depth, true);
      EscapeIsNeutral('\'', depth, true);
      NeutralAppend(['\\', '\''], "'", depth, true);
      NeutralAppend("'", ['\\', '\''] + "'", depth, true);
    } else {
      assert t == ['\\', 'u'] + t[2..];
      EscapeIsNeutral('u', depth, true);
      PlainIsNeutral(t[2..], depth, true);
      NeutralAppend(['\\', 'u'], t[2..], depth, true);
    }
  }

  /** A JSON string's contents never leave the string, whatever braces or sentinels they hold. */
  lemma {:induction false} CharsAreNeutral(chars: string, quoted: bool, depth: int)
    ensures Neutral(Json.CharsText(chars, quoted), depth, true)
  {
    if chars != "" {
      CharIsNeutral(chars[0], quoted, depth);
      CharsAreNeutral(chars[1..], quoted, depth);
      NeutralAppend(Json.CharText(chars[0], quoted), Json.CharsText(chars[1..], quoted), depth, true);
    }
  }

  lemma RunChar(c: char, st: State)
    ensures Run([c], st) == Step(st, c)
  {
    assert [c][..0] == "";
  }

  lemma LiteralIsNeutral(chars: string, quoted: bool, depth: int)
    ensures Neutral("\"" + Json.CharsText(chars, quoted) + "\"", depth, false)
  {
    var text := Json.CharsText(chars, quoted);
    var out, inside := Scanning(depth, false, false), Scanning(depth, true, false);
    RunChar('"', out);
    RunChar('"', inside);
    CharsAreNeutral(chars, quoted, depth);
    RunAppend("\"", text, out);
    RunAppend("\"" + text, "\"", out);
  }

  /** A whole value leaves the scanner where it was: its braces are balanced and those in its strings
      do not count. */
  lemma {:induction false} ValueIsNeutral(v: Json.Json, quoted: bool, depth: int)
    requires Json.ValidNumbers(v) && depth >= 1
    ensures Neutral(Json.Text(v, quoted), depth, false)
    decreases v, 1
  {
    var t := Json.Text(v, quoted);
    match v
    case Null => PlainIsNeutral(t, depth, false);
    case Bool(b) => PlainIsNeutral(t, depth, false);
    case Number(text) =>
      assert forall i | 0 <= i < |t| :: t[i] in t && Json.NumberChar(t[i]);
      PlainIsNeutral(t, depth, false);
    case String(chars) => LiteralIsNeutral(chars, quoted, depth);
    case Array(items) => ArrayIsNeutral(items, quoted, depth);
    case Object(fields) => ObjectIsNeutral(fields, quoted, depth);
  }

  lemma {:induction false} ArrayIsNeutral(items: seq<Json.Json>, quoted: bool, depth: int)
    requires Json.ValidItems(items) && depth >= 1
    ensures Neutral("[" + Json.ItemsText(items, quoted) + "]", depth, false)
    decreases items, 1
  {
    var inner := Json.ItemsText(items, quoted);
    ItemsAreNeutral(items, quoted, depth);
    PlainIsNeutral("[", depth, false);
    PlainIsNeutral("]", depth, false);
    NeutralAppend("[", inner, depth, false);
    NeutralAppend("[" + inner, "]", depth, false);
  }

  lemma {:induction false} ObjectIsNeutral(fields: seq<Json.Field>, quoted: bool, depth: int)
    requires Json.ValidFields(fields) && depth >= 1
    ensures Neutral("{" + Json.FieldsText(fields, quoted) + "}", depth, false)
    decreases fields, 4
  {
    var inner := Json.FieldsText(fields, quoted);
    ObjectOpens(fields, quoted, depth);
    RunAppend("{" + inner, "}", Scanning(depth, false, false));
    RunChar('}', Scanning(depth + 1, false, false));
  }

  lemma {:induction false} ObjectOpens(fields: seq<Json.Field>, quoted: bool, depth: nat)
    requires Json.ValidFields(fields)
    ensures Run("{" + Json.FieldsText(fields, quoted), Scanning(depth, false, false)) ==
            Scanning(depth + 1, false, false)
    decreases fields, 3
  {
    FieldsAreNeutral(fields, quoted, depth + 1);
    RunChar('{', Scanning(depth, false, false));
    RunAppend("{", Json.FieldsText(fields, quoted), Scanning(depth, false, false));
  }

  /** From an object's first brace, the matching one is its last. */
  lemma ObjectCloses(fields: seq<Json.Field>, quoted: bool)
    requires Json.ValidFields(fields)
    ensures Closes(Json.Text(Json.Object(fields), quoted))
  {
    hide Run;
    var inner := Json.FieldsText(fields, quoted);
    ObjectOpens(fields, quoted, 0);
    RunAppend("{" + inner, "}", Scanning(0, false, false));
    RunChar('}', Scanning(1, false, false));
  }

  lemma {:induction false} ItemsAreNeutral(items: seq<Json.Json>, quoted: bool, depth: int)
    requires Json.ValidItems(items) && depth >= 1
    ensures Neutral(Json.ItemsText(items, quoted), depth, false)
    decreases items, 0
  {
    if items != [] {
      ValueIsNeutral(items[0], quoted, depth);
      if |items| > 1 {
        ItemsAreNeutral(items[1..], quoted, depth);
        PlainIsNeutral(",", depth, false);
        var first, tail := Json.Text(items[0], quoted), Json.ItemsText(items[1..], quoted);
        NeutralAppend(first, ",", depth, false);
        NeutralAppend(first + ",", tail, depth, false);
      }
    }
  }

  lemma {:induction false} FieldIsNeutral(f: Json.Field, quoted: bool, depth: int)
    requires Json.ValidNumbers(f.content) && depth >= 1
    ensures Neutral(Json.FieldText(f, quoted), depth, false)
    decreases f, 2
  {
    hide Neutral;
    var name, value := "\"" + Json.CharsText(f.name, quoted) + "\"", Json.Text(f.content, quoted);
    LiteralIsNeutral(f.name, quoted, depth);
    PlainIsNeutral(":", depth, false);
    ValueIsNeutral(f.content, quoted, depth);
    NeutralAppend(name, ":", depth, false);
    NeutralAppend(name + ":", value, depth, false);
    assert Json.FieldText(f, quoted) == name + ":" + value;
  }

  lemma {:induction false} FieldsAreNeutral(fields: seq<Json.Field>, quoted: bool, depth: int)
    requires Json.ValidFields(fields) && depth >= 1
    ensures Neutral(Json.FieldsText(fields, quoted), depth, false)
    decreases fields, 2
  {
    if fields != [] {
      FieldIsNeutral(fields[0], quoted, depth);
      if |fields| > 1 {
        FieldsAreNeutral(fields[1..], quoted, depth);
        PlainIsNeutral(",", depth, false);
        var first, tail := Json.FieldText(fields[0], quoted), Json.FieldsText(fields[1..], quoted);
        NeutralAppend(first, ",", depth, false);
        NeutralAppend(first + ",", tail, depth, false);
      }
    }
  }

  // ---------------------------------------------------------------- a marker after other text

  /** No sentinel in the text is followed by blanks and a brace. */
  predicate AnchorFree(mark: Mark, text: string) {
    forall i | 0 <= i < |text| :: AnchorAt(mark, text[i..]).None?
  }

  lemma {:induction false} BlankRunEnds(s: string)
    ensures var n := BlankRun(s);
            && (forall i | 0 <= i < n :: IsBlank(s[i]))
            && (n < |s| ==> !IsBlank(s[n]))
  {
    if s != "" && IsBlank(s[0]) {
      BlankRunEnds(s[1..]);
      assert forall i | 1 <= i < BlankRun(s) :: s[i] == s[1..][i - 1];
    }
  }

  lemma {:induction false} BlankRunIs(s: string, n: nat)
    requires n <= |s| && forall i | 0 <= i < n :: IsBlank(s[i])
    requires n < |s| ==> !IsBlank(s[n])
    ensures BlankRun(s) == n
  {
    if n > 0 {
      BlankRunIs(s[1..], n - 1);
    }
  }

  predicate Breaks(c: char) {
    !IsMarkChar(c) && !IsBlank(c) && c != '{'
  }

  lemma {:induction false} BlankRunStops(s: string, k: nat)
    requires k < |s| && !IsBlank(s[k])
    ensures BlankRun(s) <= k
  {
    if k > 0 && IsBlank(s[0]) {
      BlankRunStops(s[1..], k - 1);
    }
  }

  lemma MarkIsLocal(mark: Mark, x: string, c: char, y: string)
    requires !IsMarkChar(c) && |x| < |mark|
    ensures !(mark <= x + [c] + y)
  {
    assert IsMarkChar(mark[|x|]);
    assert mark[|x|] != (x + [c] + y)[|x|];
  }

  /** An anchor does not run over a character that occurs in none. */
  lemma AnchorIsLocal(mark: Mark, x: string, c: char, y: string)
    requires Breaks(c) && AnchorAt(mark, x).None?
    ensures AnchorAt(mark, x + [c] + y).None?
  {
    hide BlankRun;
    var s := x + [c] + y;
    if |x| < |mark| {
      MarkIsLocal(mark, x, c, y);
    } else if mark <= s {
      assert mark <= x;
      var n := BlankRun(s[|mark|..]);
      var b := |mark| + n;
      BlankRunEnds(s[|mark|..]);
      BlankRunStops(s[|mark|..], |x| - |mark|);
      if b < |x| {
        assert forall i | 0 <= i < n :: x[|mark|..][i] == s[|mark|..][i];
        assert x[|mark|..][n] == s[b];
        BlankRunIs(x[|mark|..], n);
      }
    }
  }

  ghost predicate NoAnchors(mark: Mark, command: string, lo: nat, hi: nat)
    requires hi <= |command|
  {
    forall k | lo <= k < hi :: AnchorAt(mark, command[k..]).None?
  }

  lemma {:induction false} SkipText(mark: Mark, command: string, at: nat, to: nat)
    requires at <= to <= |command| && NoAnchors(mark, command, at, to)
    ensures Spans(mark, command, at) == Spans(mark, command, to)
    decreases |command| - at
  {
    hide AnchorAt, BraceEnd;
    if at < to {
      assert AnchorAt(mark, command[at..]).None?;
      SkipText(mark, command, at + 1, to);
    }
  }

  /** Text without an anchor, followed by something that breaks one, is skipped. */
  lemma SkipGap(mark: Mark, command: string, at: nat, gap: string, c: char, rest: string)
    requires at <= |command| && command[at..] == gap + [c] + rest
    requires AnchorFree(mark, gap) && Breaks(c)
    ensures Spans(mark, command, at) == Spans(mark, command, at + |gap|)
  {
    hide AnchorAt, Spans;
    forall k | at <= k < at + |gap| ensures AnchorAt(mark, command[k..]).None? {
      var i := k - at;
      assert AnchorAt(mark, gap[i..]).None?;
      AnchorIsLocal(mark, gap[i..], c, rest);
      assert command[k..] == gap[i..] + [c] + rest;
    }
    SkipText(mark, command, at, at + |gap|);
  }

  lemma SkipTail(mark: Mark, command: string, at: nat)
    requires at <= |command| && AnchorFree(mark, command[at..])
    ensures Spans(mark, command, at) == []
  {
    hide AnchorAt;
    forall k | at <= k < |command| ensures AnchorAt(mark, command[k..]).None? {
      assert command[at..][k - at..] == command[k..];
    }
    SkipText(mark, command, at, |command|);
  }

  lemma NoAnchorHere(mark: Mark, s: string)
    requires s == "" || !IsMarkChar(s[0])
    ensures AnchorAt(mark, s).None?
  {
    assert IsMarkChar(mark[0]);
  }

  lemma FreeOfCapitals(mark: Mark, text: string)
    requires forall i | 0 <= i < |text| :: !IsMarkChar(text[i])
    ensures AnchorFree(mark, text)
  {
    hide AnchorAt;
    forall i | 0 <= i < |text| ensures AnchorAt(mark, text[i..]).None? {
      NoAnchorHere(mark, text[i..]);
    }
  }

  lemma FreeAfterQuote(mark: Mark, text: string)
    requires AnchorFree(mark, text)
    ensures AnchorFree(mark, "'" + text)
  {
    hide AnchorAt;
    NoAnchorHere(mark, "'" + text);
    forall i | 1 <= i < |text| + 1 ensures AnchorAt(mark, ("'" + text)[i..]).None? {
      assert ("'" + text)[i..] == text[i - 1..];
    }
    assert ("'" + text)[0..] == "'" + text;
  }

  lemma AnchorHere(mark: Mark, q: string)
    requires q != "" && q[0] == '{'
    ensures AnchorAt(mark, mark + " " + q) == Some(|mark| + 1)
  {
    hide BlankRun;
    var s := mark + " " + q;
    assert s[|mark|..] == " " + q;
    BlankRunIs(" " + q, 1);
  }

  const ECHO := "echo '"

  /** After text without an anchor, the echo of a marker is the next span, and the scan goes on right
      after its payload. */
  lemma NextMarker(mark: Mark, command: string, at: nat, gap: string, q: string, rest: string)
    requires at <= |command| && command[at..] == gap + ECHO + mark + " " + q + rest
    requires AnchorFree(mark, gap)
    requires q != "" && q[0] == '{' && BraceEnd(q + rest) == Some(|q| - 1)
    ensures var start := at + |gap| + |ECHO|;
            var brace := start + |mark| + 1;
            && brace + |q| <= |command|
            && command[brace..brace + |q|] == q && command[brace + |q|..] == rest
            && Spans(mark, command, at) ==
               [Span(start, brace, brace + |q| - 1)] + Spans(mark, command, brace + |q|)
  {
    hide AnchorAt, BraceEnd, Spans, IsMark;
    var start := at + |gap| + |ECHO|;
    var brace := start + |mark| + 1;
    MarkerText(gap + ECHO, mark, q, rest);
    GapAndEcho(mark, command, at, gap, mark + " " + (q + rest));
    AnchorHere(mark, q + rest);
    AfterAnchor(mark, command, start, q, rest);
    FoundStep(mark, command, start, brace);
  }

  lemma MarkerText(before: string, mark: string, q: string, rest: string)
    ensures before + mark + " " + q + rest == before + (mark + " " + (q + rest))
  {
  }

  lemma AfterAnchor(mark: string, command: string, start: nat, q: string, rest: string)
    requires start <= |command| && command[start..] == mark + " " + (q + rest)
    ensures var brace := start + |mark| + 1;
            && brace + |q| <= |command| && command[brace..] == q + rest
            && command[brace..brace + |q|] == q && command[brace + |q|..] == rest
  {
    var brace := start + |mark| + 1;
    assert command[brace..] == command[start..][|mark| + 1..];
    assert (q + rest)[..|q|] == q && (q + rest)[|q|..] == rest;
    assert command[brace..brace + |q|] == command[brace..][..|q|] && command[brace + |q|..] == command[brace..][|q|..];
  }

  lemma GapAndEcho(mark: Mark, command: string, at: nat, gap: string, rest: string)
    requires at <= |command| && command[at..] == gap + ECHO + rest && AnchorFree(mark, gap)
    ensures var start := at + |gap| + |ECHO|;
            start <= |command| && command[start..] == rest && Spans(mark, command, at) == Spans(mark, command, start)
  {
    hide AnchorAt, Spans, AnchorFree, IsMark;
    var tail := "cho '" + rest;
    assert ECHO + rest == ['e'] + tail;
    assert command[at..] == gap + ['e'] + tail;
    SkipGap(mark, command, at, gap, 'e', tail);
    assert command[at + |gap|..] == ECHO + rest;
    EchoIsSkipped(mark, command, at + |gap|, rest);
    assert command[at + |gap|..][|ECHO|..] == rest;
  }

  lemma EchoIsSkipped(mark: Mark, command: string, at: nat, rest: string)
    requires at <= |command| && command[at..] == ECHO + rest
    ensures Spans(mark, command, at) == Spans(mark, command, at + |ECHO|)
  {
    hide AnchorAt, Spans;
    forall k | at <= k < at + |ECHO| ensures AnchorAt(mark, command[k..]).None? {
      assert command[k..][0] == ECHO[k - at];
      assert !IsMarkChar(ECHO[k - at]);
      NoAnchorHere(mark, command[k..]);
    }
    SkipText(mark, command, at, at + |ECHO|);
  }

  // ---------------------------------------------------------------- text with several markers

  /** A marker's payload as it stands in the command, and the text up to the next marker. */
  datatype Piece = Piece(payload: string, separator: string)

  /** The payload is an object to the scanner: its last character is the matching brace. */
  predicate Closes(payload: string) {
    payload != "" && payload[0] == '{' && Run(payload, Scanning(0, false, false)) == Closed(0)
  }

  /** A chain of echo commands, each with one marker. */
  function Pieces(mark: Mark, pieces: seq<Piece>): string {
    if pieces == [] then ""
    else ECHO + mark + " " + pieces[0].payload + ("'" + (pieces[0].separator + Pieces(mark, pieces[1..])))
  }

  ghost predicate GoodPieces(mark: Mark, pieces: seq<Piece>) {
    forall i | 0 <= i < |pieces| :: Closes(pieces[i].payload) && AnchorFree(mark, pieces[i].separator)
  }

  lemma ClosesAtEnd(payload: string, rest: string)
    requires Closes(payload)
    ensures BraceEnd(payload + rest) == Some(|payload| - 1)
  {
    hide Run;
    RunAppend(payload, rest, Scanning(0, false, false));
    ClosedStays(rest, 0);
  }

  /** A gap and what follows it; the scan comes to it at the start of the command or from the closing
      quote of the command before. */
  ghost predicate GapAt(mark: Mark, command: string, from: nat, at: nat, gap: string, rest: string) {
    && from <= at <= |command| && command[at..] == gap + rest
    && AnchorFree(mark, gap)
    && (at == 0 || (from + 1 == at && command[from] == '\''))
  }

  lemma GapFacts(mark: Mark, command: string, from: nat, at: nat, gap: string, rest: string)
    requires GapAt(mark, command, from, at, gap, rest)
    ensures command[from..] == (command[from..at] + gap) + rest
    ensures AnchorFree(mark, command[from..at] + gap)
    ensures at + |gap| <= |command| && command[at..at + |gap|] == gap && command[at + |gap|..] == rest
  {
    hide AnchorFree;
    assert command[from..] == command[from..at] + command[at..];
    if at == 0 {
      assert command[from..at] + gap == gap;
    } else {
      assert command[from..at] == "'";
      FreeAfterQuote(mark, gap);
    }
    assert command[at..][..|gap|] == gap;
    assert command[at..][|gap|..] == command[at + |gap|..];
  }

  /** The scan of a chain finds its first marker and goes on from that command's closing quote. */
  lemma FirstPiece(mark: Mark, command: string, from: nat, at: nat, gap: string, pieces: seq<Piece>)
    returns (span: Span, next: nat)
    requires pieces != [] && GapAt(mark, command, from, at, gap, Pieces(mark, pieces))
    requires GoodPieces(mark, pieces)
    ensures next > 0 && GapAt(mark, command, next - 1, next, pieces[0].separator, Pieces(mark, pieces[1..]))
    ensures GoodPieces(mark, pieces[1..])
    ensures span.sentinelStart == at + |gap| + |ECHO|
    ensures span.braceStart == span.sentinelStart + |mark| + 1 <= span.braceEnd && span.braceEnd + 2 == next
    ensures command[span.braceStart..span.braceEnd + 1] == pieces[0].payload
    ensures Spans(mark, command, from) == [span] + Spans(mark, command, next - 1)
  {
    hide Spans, AnchorFree, BraceEnd, Closes, Pieces;
    var payload := pieces[0].payload;
    var inner := pieces[0].separator + Pieces(mark, pieces[1..]);
    var start := at + |gap| + |ECHO|;
    var brace := start + |mark| + 1;
    PieceText(mark, pieces);
    FirstSpan(mark, command, from, at, gap, payload, "'" + inner);
    span := Span(start, brace, brace + |payload| - 1);
    next := brace + |payload| + 1;
    AfterQuote(command, next - 1, inner);
    GoodTail(mark, pieces);
  }

  lemma PieceText(mark: Mark, pieces: seq<Piece>)
    requires pieces != []
    ensures Pieces(mark, pieces) ==
            ECHO + mark + " " + pieces[0].payload + ("'" + (pieces[0].separator + Pieces(mark, pieces[1..])))
  {
  }

  lemma GoodTail(mark: Mark, pieces: seq<Piece>)
    requires pieces != [] && GoodPieces(mark, pieces)
    ensures GoodPieces(mark, pieces[1..])
  {
    hide AnchorFree, Closes;
    assert forall i | 0 <= i < |pieces[1..]| :: pieces[1..][i] == pieces[i + 1];
  }

  lemma AfterQuote(command: string, k: nat, rest: string)
    requires k <= |command| && command[k..] == "'" + rest
    ensures k + 1 <= |command| && command[k] == '\'' && command[k + 1..] == rest
  {
    assert command[k..][1..] == rest;
  }

  lemma FirstSpan(mark: Mark, command: string, from: nat, at: nat, gap: string, payload: string, rest: string)
    requires Closes(payload)
    requires GapAt(mark, command, from, at, gap, ECHO + mark + " " + payload + rest)
    ensures var start := at + |gap| + |ECHO|;
            var brace := start + |mark| + 1;
            && |payload| > 1 && brace + |payload| <= |command|
            && command[brace..brace + |payload|] == payload && command[brace + |payload|..] == rest
            && Spans(mark, command, from) ==
               [Span(start, brace, brace + |payload| - 1)] + Spans(mark, command, brace + |payload|)
  {
    hide Spans, AnchorFree, BraceEnd, Run;
    var before := command[from..at] + gap;
    GapFacts(mark, command, from, at, gap, ECHO + mark + " " + payload + rest);
    ClosesAtEnd(payload, rest);
    ClosesLater(payload);
    Regroup(before, ECHO, mark, payload, rest);
    NextMarker(mark, command, from, before, payload, rest);
  }

  lemma LoneBrace(payload: string)
    requires |payload| == 1 && payload[0] == '{'
    ensures Run(payload, Scanning(0, false, false)) == Scanning(1, false, false)
  {
    assert payload[..0] == "";
    assert Run("", Scanning(0, false, false)) == Scanning(0, false, false);
  }

  lemma ClosesLater(payload: string)
    requires Closes(payload)
    ensures |payload| > 1
  {
    hide Run;
    if |payload| == 1 {
      LoneBrace(payload);
    }
  }

  lemma Regroup(before: string, echo: string, mark: string, payload: string, rest: string)
    ensures before + (echo + mark + " " + payload + rest) == before + echo + mark + " " + payload + rest
  {
  }
}
