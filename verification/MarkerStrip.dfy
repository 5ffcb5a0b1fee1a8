/** Removing the echo commands of wave markers from the text of a shell command. */
module MarkerStrip {
  import opened Wrappers
  import opened Characters
  import opened MarkerScan
  import WaveMarker

  // ---------------------------------------------------------------- how far an invocation reaches

  /** Steps back over white space before index k. */
  function BackOverSpace(command: string, k: nat): (r: nat)
    requires k <= |command|
    ensures r <= k
  {
    if k > 0 && IsSpace(command[k - 1]) then BackOverSpace(command, k - 1) else k
  }

  function BackOverBlanks(command: string, k: nat): (r: nat)
    requires k <= |command|
    ensures r <= k
  {
    if k > 0 && IsBlank(command[k - 1]) then BackOverBlanks(command, k - 1) else k
  }

  function OverBlanks(command: string, k: nat): (r: nat)
    ensures r >= k
    decreases |command| - k
  {
    if k < |command| && IsBlank(command[k]) then OverBlanks(command, k + 1) else k
  }

  /** Whether the four characters '\'' start at index k. */
  predicate EscapedApostrophe(command: string, k: nat) {
    && k + 4 <= |command|
    && command[k] == '\'' && command[k + 1] == '\\' && command[k + 2] == '\'' && command[k + 3] == '\''
  }

  /** Past the closing single quote, if there is one. */
  function SingleQuoteEnd(command: string, k: nat): (r: nat)
    ensures r >= k
    decreases |command| - k
  {
    if k >= |command| then k
    else if EscapedApostrophe(command, k) then SingleQuoteEnd(command, k + 4)
    else if command[k] == '\'' then k + 1
    else SingleQuoteEnd(command, k + 1)
  }

  /** Past the closing double quote; a backslash at the very end reaches one beyond the command. */
  function DoubleQuoteEnd(command: string, k: nat): (r: nat)
    ensures r >= k
    decreases |command| - k
  {
    if k >= |command| then k
    else if command[k] == '\\' then DoubleQuoteEnd(command, k + 2)
    else if command[k] == '"' then k + 1
    else DoubleQuoteEnd(command, k + 1)
  }

  predicate QuotedBefore(command: string, sentinelStart: nat)
    requires sentinelStart <= |command|
  {
    sentinelStart > 0 && (command[sentinelStart - 1] == '\'' || command[sentinelStart - 1] == '"')
  }

  function StartOf(command: string, sentinelStart: nat): nat
    requires sentinelStart <= |command|
  {
    var start := if QuotedBefore(command, sentinelStart) then sentinelStart - 1 else sentinelStart;
    var echo := BackOverSpace(command, start);
    BackOverBlanks(command, if echo >= 4 && command[echo - 4..echo] == "echo" then echo - 4 else start)
  }

  function EndOf(command: string, sentinelStart: nat, braceEnd: nat): nat
    requires sentinelStart <= |command|
  {
    OverBlanks(command,
      if !QuotedBefore(command, sentinelStart) then braceEnd + 1
      else if command[sentinelStart - 1] == '\'' then SingleQuoteEnd(command, braceEnd + 1)
      else DoubleQuoteEnd(command, braceEnd + 1))
  }

  method SkipSingleQuoted(command: string, from: nat) returns (end: nat)
    ensures end == SingleQuoteEnd(command, from)
  {
    end := from;
    while end < |command|
      invariant SingleQuoteEnd(command, from) == SingleQuoteEnd(command, end)
      decreases |command| - end
    {
      if EscapedApostrophe(command, end) {
        end := end + 4;
        continue;
      }
      if command[end] == '\'' {
        return end + 1;
      }
      end := end + 1;
    }
  }

  method SkipDoubleQuoted(command: string, from: nat) returns (end: nat)
    ensures end == DoubleQuoteEnd(command, from)
  {
    end := from;
    while end < |command|
      invariant DoubleQuoteEnd(command, from) == DoubleQuoteEnd(command, end)
      decreases |command| - end
    {
      if command[end] == '\\' {
        end := end + 2;
        continue;
      }
      if command[end] == '"' {
        return end + 1;
      }
      end := end + 1;
    }
  }

  method FindEnclosingEchoSpan(command: string, sentinelStart: nat, braceEnd: nat) returns (start: nat, end: nat)
    requires sentinelStart <= |command|
    ensures start == StartOf(command, sentinelStart)
    ensures end == EndOf(command, sentinelStart, braceEnd)
  {
    hide SingleQuoteEnd, DoubleQuoteEnd, BackOverBlanks, OverBlanks;
    start := sentinelStart;
    var quoteChar: Option<char> := None;
    if start > 0 && (command[start - 1] == '\'' || command[start - 1] == '"') {
      quoteChar := Some(command[start - 1]);
      start := start - 1;
    }
    var echoScan: nat := start;
    while echoScan > 0 && IsSpace(command[echoScan - 1])
      invariant echoScan <= start
      invariant BackOverSpace(command, start) == BackOverSpace(command, echoScan)
    {
      echoScan := echoScan - 1;
    }
    if echoScan >= 4 && command[echoScan - 4..echoScan] == "echo" {
      start := echoScan - 4;
    }
    end := braceEnd + 1;
    if quoteChar == Some('\'') {
      end := SkipSingleQuoted(command, end);
    } else if quoteChar == Some('"') {
      end := SkipDoubleQuoted(command, end);
    }
    start := SkipBlanksBack(command, start);
    end := SkipBlanksForward(command, end);
  }

  method SkipBlanksBack(command: string, from: nat) returns (start: nat)
    requires from <= |command|
    ensures start == BackOverBlanks(command, from)
  {
    start := from;
    while start > 0 && IsBlank(command[start - 1])
      invariant start <= |command|
      invariant BackOverBlanks(command, from) == BackOverBlanks(command, start)
    {
      start := start - 1;
    }
  }

  method SkipBlanksForward(command: string, from: nat) returns (end: nat)
    ensures end == OverBlanks(command, from)
  {
    end := from;
    while end < |command| && IsBlank(command[end])
      invariant OverBlanks(command, from) == OverBlanks(command, end)
      decreases |command| - end
    {
      end := end + 1;
    }
  }

  // ---------------------------------------------------------------- stripping

  ghost predicate StartsInRange(command: string, spans: seq<Span>) {
    forall k | 0 <= k < |spans| :: spans[k].sentinelStart <= |command|
  }

  /** The command from cursor on without the invocations around these spans. */
  function Stripped(command: string, spans: seq<Span>, cursor: nat): string
    requires StartsInRange(command, spans)
  {
    if spans == [] then Slice(command, cursor, |command|)
    else
      Slice(command, cursor, StartOf(command, spans[0].sentinelStart))
      + Stripped(command, spans[1..], EndOf(command, spans[0].sentinelStart, spans[0].braceEnd))
  }

  lemma SpansStartInRange(command: string)
    ensures StartsInRange(command, WaveMarker.MarkerSpans(command))
  {
    hide Spans;
    SpansAreOrdered(WaveMarker.SENTINEL, command, 0);
    var spans := WaveMarker.MarkerSpans(command);
    forall k | 0 <= k < |spans| ensures spans[k].sentinelStart <= |command| {
      assert WellPlaced(WaveMarker.SENTINEL, command, 0, spans[k]);
    }
  }

  function Strip(command: string): string {
    SpansStartInRange(command);
    var spans := WaveMarker.MarkerSpans(command);
    if spans == [] then command else Stripped(command, spans, 0)
  }

  method StripWaveMarkers(command: string) returns (r: string)
    ensures r == Strip(command)
  {
    hide WaveMarker.MarkerSpans, StartOf, EndOf, Slice;
    var spans := WaveMarker.FindMarkerSpans(command);
    SpansStartInRange(command);
    if |spans| == 0 {
      return command;
    }
    var result := "";
    var cursor: nat := 0;
    for k := 0 to |spans|
      invariant StartsInRange(command, spans)
      invariant Stripped(command, spans, 0) == result + Stripped(command, spans[k..], cursor)
    {
      assert spans[k..][1..] == spans[k + 1..];
      var start, end := FindEnclosingEchoSpan(command, spans[k].sentinelStart, spans[k].braceEnd);
      result := result + Slice(command, cursor, start);
      cursor := end;
    }
    return result + Slice(command, cursor, |command|);
  }

  /** A command without an anchor is returned unchanged. */
  lemma PlainCommandIsKept(command: string)
    requires AnchorFree(WaveMarker.SENTINEL, command)
    ensures Strip(command) == command
  {
    hide AnchorFree, Spans;
    assert command[0..] == command;
    SkipTail(WaveMarker.SENTINEL, command, 0);
  }

  // ---------------------------------------------------------------- chains of built commands

  /** Right after a built command, this text reads as an escaped apostrophe of it. */
  predicate Reopens(text: string) {
    |text| >= 3 && text[0] == '\\' && text[1] == '\'' && text[2] == '\''
  }

  /** The part of a gap that is kept: without the blanks next to each command removed. */
  function Part(gap: string, afterCommand: bool, beforeCommand: bool): string {
    Slice(gap, if afterCommand then BlankRun(gap) else 0, if beforeCommand then BackOverBlanks(gap, |gap|) else |gap|)
  }

  /** The surrounding text, gap by gap. */
  function Kept(gap: string, afterCommand: bool, pieces: seq<Piece>): string
    decreases |pieces|
  {
    Part(gap, afterCommand, pieces != [])
    + if pieces == [] then "" else Kept(pieces[0].separator, true, pieces[1..])
  }

  lemma {:induction false} BackInGap(command: string, at: nat, k: nat)
    requires at + k <= |command| && (at == 0 || !IsBlank(command[at - 1]))
    ensures BackOverBlanks(command, at + k) == at + BackOverBlanks(command[at..at + k], k)
    decreases k
  {
    if k > 0 {
      var gap := command[at..at + k];
      BackInGap(command, at, k - 1);
      assert gap[..k - 1] == command[at..at + (k - 1)];
      BackIsLocal(gap, k - 1);
    }
  }

  lemma {:induction false} BackIsLocal(gap: string, k: nat)
    requires k <= |gap|
    ensures BackOverBlanks(gap, k) == BackOverBlanks(gap[..k], k)
    decreases k
  {
    if k > 0 {
      BackIsLocal(gap, k - 1);
      BackIsLocal(gap[..k], k - 1);
      assert gap[..k][..k - 1] == gap[..k - 1];
    }
  }

  /** The echo around a built marker starts at its "echo"; blanks before it go too. */
  lemma StartsAtEcho(command: string, echo: nat)
    requires echo + |ECHO| <= |command| && command[echo..echo + |ECHO|] == ECHO
    ensures StartOf(command, echo + |ECHO|) == BackOverBlanks(command, echo)
  {
    hide BackOverBlanks, BackOverSpace;
    var e := command[echo..echo + |ECHO|];
    assert e[5] == '\'' && e[4] == ' ' && e[3] == 'o';
    assert command[echo + 5] == '\'' && command[echo + 4] == ' ' && command[echo + 3] == 'o';
    OneSpaceBack(command, echo + 5);
    assert command[echo..echo + 4] == e[..4] == "echo";
  }

  lemma OneSpaceBack(command: string, k: nat)
    requires 2 <= k <= |command| && command[k - 1] == ' ' && command[k - 2] == 'o'
    ensures BackOverSpace(command, k) == k - 1
  {
    assert BackOverSpace(command, k - 1) == k - 1;
  }

  /** Blanks right after an index, followed by something else or the end. */
  lemma {:induction false} OverGap(command: string, at: nat, gap: string, rest: string)
    requires at <= |command| && command[at..] == gap + rest
    requires rest == "" || !IsBlank(rest[0])
    ensures OverBlanks(command, at) == at + BlankRun(gap)
    decreases |gap|
  {
    if gap == "" {
      assert command[at..] == rest;
      assert at < |command| ==> command[at] == rest[0];
    } else {
      assert command[at] == gap[0];
      assert command[at + 1..] == gap[1..] + rest;
      if IsBlank(gap[0]) {
        OverGap(command, at + 1, gap[1..], rest);
      }
    }
  }

  /** The closing quote of a built command ends the invocation, unless the text after it makes that
      quote look escaped: then the invocation reaches at least over those characters. */
  lemma EndsAtQuote(command: string, sentinelStart: nat, braceEnd: nat, separator: string, rest: string)
    requires 0 < sentinelStart <= braceEnd < |command| && command[sentinelStart - 1] == '\''
    requires command[braceEnd + 1..] == "'" + (separator + rest)
    requires rest == "" || rest[0] == 'e'
    ensures var end := EndOf(command, sentinelStart, braceEnd);
            if Reopens(separator) then end >= braceEnd + 2 + 3
            else end == braceEnd + 2 + BlankRun(separator)
  {
    hide BlankRun;
    var s := command[braceEnd + 1..];
    assert s[0] == '\'' == command[braceEnd + 1];
    EscapedHere(command, braceEnd + 1, separator, rest);
    if Reopens(separator) {
      assert SingleQuoteEnd(command, braceEnd + 1) >= braceEnd + 1 + 4;
    } else {
      assert command[braceEnd + 2..] == separator + rest;
      OverGap(command, braceEnd + 2, separator, rest);
    }
  }

  lemma EscapedHere(command: string, k: nat, separator: string, rest: string)
    requires k <= |command| && command[k..] == "'" + (separator + rest)
    requires rest == "" || rest[0] == 'e'
    ensures EscapedApostrophe(command, k) <==> Reopens(separator)
  {
    var s := "'" + (separator + rest);
    assert forall i | k <= i < |command| :: command[i] == s[i - k];
    assert forall i | 0 <= i < |separator| :: s[i + 1] == separator[i];
    assert rest != "" ==> s[|separator| + 1] == 'e';
  }

  lemma PiecesStart(mark: Mark, pieces: seq<Piece>)
    ensures Pieces(mark, pieces) == "" || Pieces(mark, pieces)[0] == 'e'
  {
  }

  lemma CutExactly(command: string, at: nat, gap: string, lo: nat, hi: nat)
    requires at + |gap| <= |command| && command[at..at + |gap|] == gap && hi <= |gap|
    ensures Slice(command, at + lo, at + hi) == Slice(gap, lo, hi)
  {
    if lo < hi {
      var cut := command[at + lo..at + hi];
      forall i | 0 <= i < |cut| ensures cut[i] == gap[lo..hi][i] {
        assert command[at..at + |gap|][lo + i] == gap[lo + i];
      }
      assert cut == gap[lo..hi];
    }
  }

  lemma BlanksFirst(gap: string)
    requires Reopens(gap)
    ensures BlankRun(gap) == 0 && BackOverBlanks(gap, |gap|) >= 3
  {
    BackStops(gap, |gap|);
  }

  lemma {:induction false} BackStops(gap: string, k: nat)
    requires 3 <= k <= |gap| && !IsBlank(gap[2])
    ensures BackOverBlanks(gap, k) >= 3
  {
    if k > 3 {
      BackStops(gap, k - 1);
    }
  }

  /** One gap: cut from where the invocation before it ends to where the one after it starts. */
  lemma GapPart(command: string, at: nat, gap: string, cursor: nat, afterCommand: bool, beforeCommand: bool, bad: bool,
                to: nat)
    requires at + |gap| <= |command| && command[at..at + |gap|] == gap
    requires to == at + if beforeCommand then BackOverBlanks(gap, |gap|) else |gap|
    requires if bad then afterCommand && Reopens(gap) && cursor >= at + 3
             else cursor == at + if afterCommand then BlankRun(gap) else 0
    ensures var part := Part(gap, afterCommand, beforeCommand);
            if bad then |Slice(command, cursor, to)| < |part| else Slice(command, cursor, to) == part
  {
    hide BlankRun, BackOverBlanks, Slice, Reopens;
    if bad {
      BlanksFirst(gap);
      LessThanAll(command, at, gap, cursor, to);
    } else {
      CutExactly(command, at, gap, cursor - at, to - at);
    }
  }

  lemma LessThanAll(command: string, at: nat, gap: string, cursor: nat, to: nat)
    requires at + 3 <= to <= at + |gap| <= |command| && cursor > at
    ensures |Slice(command, cursor, to)| < |Slice(gap, 0, to - at)|
  {
  }

  ghost predicate AnyReopens(pieces: seq<Piece>) {
    exists i :: 0 <= i < |pieces| && Reopens(pieces[i].separator)
  }

  lemma FirstReopens(pieces: seq<Piece>)
    requires pieces != []
    ensures AnyReopens(pieces) <==> Reopens(pieces[0].separator) || AnyReopens(pieces[1..])
  {
    hide Reopens;
    assert forall i | 1 <= i < |pieces| :: pieces[i] == pieces[1..][i - 1];
  }

  predicate CutEnds(end: nat, next: nat, separator: string) {
    if Reopens(separator) then end >= next + 3 else end == next + BlankRun(separator)
  }

  /** The invocation cut out around the first marker of a chain. */
  lemma CutFirst(mark: Mark, command: string, from: nat, at: nat, gap: string, pieces: seq<Piece>)
    returns (span: Span, next: nat)
    requires pieces != [] && GapAt(mark, command, from, at, gap, Pieces(mark, pieces))
    requires GoodPieces(mark, pieces)
    ensures next > 0 && GapAt(mark, command, next - 1, next, pieces[0].separator, Pieces(mark, pieces[1..]))
    ensures GoodPieces(mark, pieces[1..])
    ensures span.sentinelStart <= |command|
    ensures Spans(mark, command, from) == [span] + Spans(mark, command, next - 1)
    ensures StartOf(command, span.sentinelStart) == at + BackOverBlanks(gap, |gap|)
    ensures CutEnds(EndOf(command, span.sentinelStart, span.braceEnd), next, pieces[0].separator)
  {
    hide Spans, AnchorFree, GoodPieces, Pieces, StartOf, EndOf, BackOverBlanks, CutEnds, GapAt;
    span, next := FirstPiece(mark, command, from, at, gap, pieces);
    StartCut(mark, command, from, at, gap, pieces);
    EndCut(mark, command, span, next, pieces[0].separator, pieces[1..]);
  }

  lemma StartCut(mark: Mark, command: string, from: nat, at: nat, gap: string, pieces: seq<Piece>)
    requires pieces != [] && GapAt(mark, command, from, at, gap, Pieces(mark, pieces))
    ensures at + |gap| + |ECHO| <= |command|
    ensures StartOf(command, at + |gap| + |ECHO|) == at + BackOverBlanks(gap, |gap|)
    ensures command[at + |gap| + |ECHO| - 1] == '\''
  {
    hide Pieces, StartOf, BackOverBlanks, GapAt;
    var echo := at + |gap|;
    GapPlace(mark, command, from, at, gap, Pieces(mark, pieces));
    EchoAt(command, echo, mark, pieces);
    StartsAtEcho(command, echo);
    BackInGap(command, at, |gap|);
  }

  lemma GapPlace(mark: Mark, command: string, from: nat, at: nat, gap: string, rest: string)
    requires GapAt(mark, command, from, at, gap, rest)
    ensures at + |gap| <= |command| && command[at..at + |gap|] == gap && command[at + |gap|..] == rest
    ensures at == 0 || !IsBlank(command[at - 1])
  {
    hide AnchorFree;
    GapFacts(mark, command, from, at, gap, rest);
  }

  lemma EndCut(mark: Mark, command: string, span: Span, next: nat, separator: string, rest: seq<Piece>)
    requires next > 0 && GapAt(mark, command, next - 1, next, separator, Pieces(mark, rest))
    requires 0 < span.sentinelStart <= span.braceEnd && span.braceEnd + 2 == next
    requires command[span.sentinelStart - 1] == '\''
    ensures CutEnds(EndOf(command, span.sentinelStart, span.braceEnd), next, separator)
  {
    hide AnchorFree, Pieces, EndOf, BlankRun, Reopens;
    PiecesStart(mark, rest);
    assert command[next - 1..] == "'" + command[next..];
    EndsAtQuote(command, span.sentinelStart, span.braceEnd, separator, Pieces(mark, rest));
  }

  lemma EchoAt(command: string, echo: nat, mark: Mark, pieces: seq<Piece>)
    requires echo <= |command| && pieces != [] && command[echo..] == Pieces(mark, pieces)
    ensures echo + |ECHO| <= |command| && command[echo..echo + |ECHO|] == ECHO
    ensures command[echo + |ECHO| - 1] == '\''
  {
    assert Pieces(mark, pieces)[..|ECHO|] == ECHO;
    assert command[echo..][..|ECHO|] == command[echo..echo + |ECHO|];
    assert ECHO[5] == '\'';
  }

  /** Cutting the invocations out of a chain leaves the gaps, without the blanks next to each command,
      unless some gap reopens the quote of the command before it: then more than that is lost. */
  lemma {:induction false} ChainCut(mark: Mark, command: string, from: nat, at: nat, gap: string, pieces: seq<Piece>,
                                    cursor: nat)
    requires GapAt(mark, command, from, at, gap, Pieces(mark, pieces)) && GoodPieces(mark, pieces)
    requires if at == 0 then cursor == 0 else CutEnds(cursor, at, gap)
    ensures var spans := Spans(mark, command, from);
            var kept := Kept(gap, at > 0, pieces);
            && StartsInRange(command, spans)
            && if (at > 0 && Reopens(gap)) || AnyReopens(pieces)
               then |Stripped(command, spans, cursor)| < |kept|
               else Stripped(command, spans, cursor) == kept
    decreases |pieces|
  {
    hide Spans, AnchorFree, GoodPieces, StartOf, EndOf, BackOverBlanks, BlankRun, Reopens, Slice;
    var after, bad := at > 0, at > 0 && Reopens(gap);
    GapFacts(mark, command, from, at, gap, Pieces(mark, pieces));
    if pieces == [] {
      assert command[from..] == command[from..at] + gap;
      SkipTail(mark, command, from);
      GapPart(command, at, gap, cursor, after, false, bad, |command|);
    } else {
      var span, next := CutFirst(mark, command, from, at, gap, pieces);
      var end := EndOf(command, span.sentinelStart, span.braceEnd);
      var to := StartOf(command, span.sentinelStart);
      ChainCut(mark, command, next - 1, next, pieces[0].separator, pieces[1..], end);
      GapPart(command, at, gap, cursor, after, true, bad, to);
      OneCut(command, span, Spans(mark, command, next - 1), cursor);
      FirstReopens(pieces);
    }
  }

  lemma OneCut(command: string, span: Span, spans: seq<Span>, cursor: nat)
    requires span.sentinelStart <= |command| && StartsInRange(command, spans)
    ensures StartsInRange(command, [span] + spans)
    ensures Stripped(command, [span] + spans, cursor) ==
            Slice(command, cursor, StartOf(command, span.sentinelStart))
            + Stripped(command, spans, EndOf(command, span.sentinelStart, span.braceEnd))
  {
    hide Slice, StartOf, EndOf;
    assert ([span] + spans)[1..] == spans;
  }

  /** Stripping a chain of built commands leaves exactly the text around them, with the blanks next to
      each command removed, if and only if no text after a command begins with \'' (its first quote
      then looks like a part of the command before). */
  lemma ChainIsStripped(head: string, links: seq<WaveMarker.Link>)
    requires AnchorFree(WaveMarker.SENTINEL, head) && WaveMarker.GoodLinks(links)
    ensures Strip(WaveMarker.Chain(head, links)) == Kept(head, false, WaveMarker.PiecesOf(links)) <==>
            forall i | 0 <= i < |links| :: !Reopens(links[i].separator)
  {
    hide AnchorFree, Spans, Pieces, GoodPieces, Stripped, Kept, Reopens;
    hide WaveMarker.GoodLinks, WaveMarker.Tail, WaveMarker.PiecesOf;
    var command := WaveMarker.Chain(head, links);
    var pieces := WaveMarker.PiecesOf(links);
    WaveMarker.LinksArePieces(links);
    assert command[0..] == head + WaveMarker.Tail(links);
    ChainCut(WaveMarker.SENTINEL, command, 0, 0, head, pieces, 0);
    NothingCut(command);
    assert AnyReopens(pieces) <==> exists i :: 0 <= i < |links| && Reopens(links[i].separator);
  }

  lemma NothingCut(command: string)
    ensures Stripped(command, [], 0) == command
  {
  }

  /** Such a text: the closing quote, the backslash and two more quotes are taken for one escaped
      apostrophe, and the rest of the command goes with them. */
  lemma ReopenedQuoteIsLost()
    ensures var links := [WaveMarker.Link(WaveMarker.WaveStart([]), "\\''")];
            Strip(WaveMarker.Chain("", links)) != Kept("", false, WaveMarker.PiecesOf(links))
  {
    hide Strip, Kept, AnchorFree, WaveMarker.PiecesOf, WaveMarker.Chain;
    var separator := "\\''";
    var links := [WaveMarker.Link(WaveMarker.WaveStart([]), separator)];
    FreeOfCapitals(WaveMarker.SENTINEL, separator);
    FreeOfCapitals(WaveMarker.SENTINEL, "");
    assert Reopens(links[0].separator);
    ChainIsStripped("", links);
  }
}
