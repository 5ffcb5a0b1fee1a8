/**
 Wave markers: orchestration payloads printed as JSON inside a single-quoted echo command, and read
 back from the text of a shell command that may hold several of them among other work.
 */
module WaveMarker {
  import opened Wrappers
  import opened Json
  import MarkerScan

  const SENTINEL: MarkerScan.Mark := "ALMIRANT_WAVE_EVENT"

  datatype Agent = Agent(agent: string, taskId: string, title: string)

  /** A number by its JSON text; NaN and the infinities have none. */
  datatype Count = Finite(text: string) | NotFinite

  datatype Payload =
    | WaveStart(agents: seq<Agent>)
    | WaveAgentDone(agent: string, taskId: string, success: bool, reason: Option<string>)
    | WaveEnd(successCount: Count, totalCount: Count)

  /** The canonical agent.wave.* events. */
  datatype Event =
    | Start(agents: seq<Agent>)
    | AgentDone(agent: string, taskId: string, success: bool, reason: Option<string>)
    | End(successCount: Count, totalCount: Count)

  // ---------------------------------------------------------------- the producer

  function AgentJson(a: Agent): Json {
    Object([Field("agent", String(a.agent)), Field("taskId", String(a.taskId)), Field("title", String(a.title))])
  }

  function AgentsJson(agents: seq<Agent>): seq<Json> {
    if agents == [] then [] else [AgentJson(agents[0])] + AgentsJson(agents[1..])
  }

  /** JSON.stringify writes null for a number that is not finite. */
  function CountJson(c: Count): Json {
    if c.Finite? then Number(c.text) else Null
  }

  /** A reason that is undefined is left out. */
  function PayloadFields(p: Payload): seq<Field> {
    match p
    case WaveStart(agents) => [Field("type", String("wave.start")), Field("agents", Array(AgentsJson(agents)))]
    case WaveAgentDone(agent, taskId, success, reason) =>
      [Field("type", String("wave.agent_done")), Field("agent", String(agent)), Field("taskId", String(taskId)),
       Field("success", Bool(success))]
      + if reason.Some? then [Field("reason", String(reason.value))] else []
    case WaveEnd(successCount, totalCount) =>
      [Field("type", String("wave.end")), Field("successCount", CountJson(successCount)),
       Field("totalCount", CountJson(totalCount))]
  }

  function PayloadText(p: Payload): string {
    Text(Object(PayloadFields(p)), false)
  }

  function EscapeForPosixSingleQuotes(s: string): string {
    if s == "" then ""
    else (if s[0] == '\'' then "'\\''" else [s[0]]) + EscapeForPosixSingleQuotes(s[1..])
  }

  function BuildWaveMarkerCommand(p: Payload): string {
    "echo '" + EscapeForPosixSingleQuotes(SENTINEL + " " + PayloadText(p)) + "'"
  }

  predicate ValidCount(c: Count) {
    c.Finite? ==> ValidNumber(c.text)
  }

  /** A finite number prints as the JSON grammar asks. */
  predicate ValidPayload(p: Payload) {
    p.WaveEnd? ==> ValidCount(p.successCount) && ValidCount(p.totalCount)
  }

  // ---------------------------------------------------------------- the consumer

  /** slice.replace(/\\"/g, '"') */
  function UnescapeDoubleQuotes(s: string): (t: string)
    ensures |t| <= |s|
    decreases |s|
  {
    if s == "" then ""
    else if |s| >= 2 && s[0] == '\\' && s[1] == '"' then "\"" + UnescapeDoubleQuotes(s[2..])
    else [s[0]] + UnescapeDoubleQuotes(s[1..])
  }

  /** slice.replace(/'\\''/g, "'") */
  function UnescapeSingleQuotes(s: string): string
    decreases |s|
  {
    if s == "" then ""
    else if "'\\''" <= s then "'" + UnescapeSingleQuotes(s[4..])
    else [s[0]] + UnescapeSingleQuotes(s[1..])
  }

  function ParseMarkerSlice(slice: string): Parsed<Json> {
    var direct := Parse(slice);
    if direct.Got? then direct else Parse(UnescapeSingleQuotes(UnescapeDoubleQuotes(slice)))
  }

  /** A property of a parsed object; of two with the same name the later one counts. */
  function Property(fields: seq<Field>, name: string): (r: Option<Json>)
    ensures r.Some? ==> Field(name, r.value) in fields
  {
    if fields == [] then None
    else
      var last := fields[|fields| - 1];
      if last.name == name then Some(last.content) else Property(fields[..|fields| - 1], name)
  }

  function StringProperty(fields: seq<Field>, name: string): Option<string> {
    var v := Property(fields, name);
    if v.Some? && v.value.String? then Some(v.value.chars) else None
  }

  function ToAgent(v: Json): Option<Agent> {
    if !v.Object? then None
    else
      var agent := StringProperty(v.fields, "agent");
      var taskId := StringProperty(v.fields, "taskId");
      var title := StringProperty(v.fields, "title");
      if agent.Some? && taskId.Some? && title.Some? then Some(Agent(agent.value, taskId.value, title.value)) else None
  }

  /** The entries that are agents; others are filtered out. */
  function ToAgents(items: seq<Json>): seq<Agent> {
    if items == [] then []
    else (if ToAgent(items[0]).Some? then [ToAgent(items[0]).value] else []) + ToAgents(items[1..])
  }

  function ToWaveStart(fields: seq<Field>): Option<Event> {
    var agents := Property(fields, "agents");
    if agents.Some? && agents.value.Array? then Some(Start(ToAgents(agents.value.items))) else None
  }

  function ToWaveAgentDone(fields: seq<Field>): Option<Event> {
    var agent := StringProperty(fields, "agent");
    var taskId := StringProperty(fields, "taskId");
    var success := Property(fields, "success");
    if agent.Some? && taskId.Some? && success.Some? && success.value.Bool? then
      Some(AgentDone(agent.value, taskId.value, success.value.value, StringProperty(fields, "reason")))
    else None
  }

  function ToWaveEnd(fields: seq<Field>): Option<Event> {
    var successCount := Property(fields, "successCount");
    var totalCount := Property(fields, "totalCount");
    if successCount.Some? && successCount.value.Number? && totalCount.Some? && totalCount.value.Number? then
      Some(End(Finite(successCount.value.text), Finite(totalCount.value.text)))
    else None
  }

  function ToEvent(v: Json): Option<Event> {
    if !v.Object? then None
    else
      var kind := StringProperty(v.fields, "type");
      if kind == Some("wave.start") then ToWaveStart(v.fields)
      else if kind == Some("wave.agent_done") then ToWaveAgentDone(v.fields)
      else if kind == Some("wave.end") then ToWaveEnd(v.fields)
      else None
  }

  /** What one marker of the command contributes: at most one event. */
  function SliceEvents(slice: string): (events: seq<Event>)
    ensures |events| <= 1
  {
    var payload := ParseMarkerSlice(slice);
    if payload.Fail? then []
    else
      var event := ToEvent(payload.value);
      if event.None? then [] else [event.value]
  }

  ghost predicate InRange(command: string, spans: seq<MarkerScan.Span>) {
    forall k | 0 <= k < |spans| :: spans[k].braceStart <= spans[k].braceEnd < |command|
  }

  function EventsAt(command: string, spans: seq<MarkerScan.Span>): seq<Event>
    requires InRange(command, spans)
  {
    if spans == [] then []
    else SliceEvents(command[spans[0].braceStart..spans[0].braceEnd + 1]) + EventsAt(command, spans[1..])
  }

  function MarkerSpans(command: string): seq<MarkerScan.Span> {
    MarkerScan.Spans(SENTINEL, command, 0)
  }

  lemma SpansInRange(command: string)
    ensures InRange(command, MarkerSpans(command))
  {
    hide MarkerScan.Spans;
    MarkerScan.SpansAreOrdered(SENTINEL, command, 0);
    var spans := MarkerSpans(command);
    forall k | 0 <= k < |spans| ensures spans[k].braceStart <= spans[k].braceEnd < |command| {
      assert MarkerScan.WellPlaced(SENTINEL, command, 0, spans[k]);
    }
  }

  /** The events of a whole command. */
  function Events(command: string): seq<Event> {
    SpansInRange(command);
    EventsAt(command, MarkerSpans(command))
  }

  method FindMarkerSpans(command: string) returns (spans: seq<MarkerScan.Span>)
    ensures spans == MarkerSpans(command)
  {
    hide MarkerScan.Spans;
    spans := MarkerScan.ScanMarkerSpans(SENTINEL, command);
  }

  method ParseWaveMarker(command: string) returns (events: seq<Event>)
    ensures events == Events(command)
  {
    hide SliceEvents, MarkerSpans;
    var spans := FindMarkerSpans(command);
    SpansInRange(command);
    events := [];
    for k := 0 to |spans|
      invariant InRange(command, spans)
      invariant EventsAt(command, spans) == events + EventsAt(command, spans[k..])
    {
      var slice := command[spans[k].braceStart..spans[k].braceEnd + 1];
      assert spans[k..][1..] == spans[k + 1..];
      events := events + SliceEvents(slice);
    }
  }

  // ---------------------------------------------------------------- escaping and unescaping

  lemma {:induction false} EscapeAppend(a: string, b: string)
    ensures EscapeForPosixSingleQuotes(a + b) == EscapeForPosixSingleQuotes(a) + EscapeForPosixSingleQuotes(b)
  {
    if a == "" {
      assert a + b == b;
    } else {
      assert (a + b)[1..] == a[1..] + b;
      EscapeAppend(a[1..], b);
    }
  }

  lemma {:induction false} EscapeNothing(s: string)
    requires forall i | 0 <= i < |s| :: s[i] != '\''
    ensures EscapeForPosixSingleQuotes(s) == s
  {
    if s != "" {
      EscapeNothing(s[1..]);
    }
  }

  /** The shell-quoted text of a printed value. */
  lemma {:induction false} EscapeChars(chars: string)
    ensures EscapeForPosixSingleQuotes(CharsText(chars, false)) == CharsText(chars, true)
  {
    if chars != "" {
      EscapeChars(chars[1..]);
      EscapeAppend(CharText(chars[0], false), CharsText(chars[1..], false));
      EscapeChar(chars[0]);
    }
  }

  lemma EscapeChar(c: char)
    ensures EscapeForPosixSingleQuotes(CharText(c, false)) == CharText(c, true)
  {
    var t := CharText(c, false);
    if c == '\'' {
      assert t[1..] == "";
    } else {
      EscapeNothing(t);
    }
  }

  lemma Escape3(a: string, b: string, c: string)
    ensures EscapeForPosixSingleQuotes(a + b + c) ==
            EscapeForPosixSingleQuotes(a) + EscapeForPosixSingleQuotes(b) + EscapeForPosixSingleQuotes(c)
  {
    EscapeAppend(a + b, c);
    EscapeAppend(a, b);
  }

  lemma {:induction false} EscapeText(v: Json)
    requires ValidNumbers(v)
    ensures EscapeForPosixSingleQuotes(Text(v, false)) == Text(v, true)
    decreases v, 1
  {
    match v
    case Null => EscapeNothing(Text(v, false));
    case Bool(_) => EscapeNothing(Text(v, false));
    case Number(text) =>
      assert forall i | 0 <= i < |text| :: text[i] in text && NumberChar(text[i]);
      EscapeNothing(text);
    case String(chars) => EscapeLiteral(chars);
    case Array(items) =>
      EscapeItems(items);
      EscapeNothing("[");
      EscapeNothing("]");
      Escape3("[", ItemsText(items, false), "]");
    case Object(fields) =>
      EscapeFields(fields);
      EscapeNothing("{");
      EscapeNothing("}");
      Escape3("{", FieldsText(fields, false), "}");
  }

  lemma EscapeLiteral(chars: string)
    ensures EscapeForPosixSingleQuotes("\"" + CharsText(chars, false) + "\"") == "\"" + CharsText(chars, true) + "\""
  {
    EscapeChars(chars);
    EscapeNothing("\"");
    Escape3("\"", CharsText(chars, false), "\"");
  }

  lemma {:induction false} EscapeItems(items: seq<Json>)
    requires ValidItems(items)
    ensures EscapeForPosixSingleQuotes(ItemsText(items, false)) == ItemsText(items, true)
    decreases items, 0
  {
    if items != [] {
      EscapeText(items[0]);
      if |items| > 1 {
        EscapeItems(items[1..]);
        EscapeNothing(",");
        Escape3(Text(items[0], false), ",", ItemsText(items[1..], false));
      }
    }
  }

  lemma {:induction false} EscapeField(f: Field)
    requires ValidNumbers(f.content)
    ensures EscapeForPosixSingleQuotes(FieldText(f, false)) == FieldText(f, true)
    decreases f, 2
  {
    hide EscapeForPosixSingleQuotes;
    hide Text;
    hide CharsText;
    var name := "\"" + CharsText(f.name, false) + "\"";
    EscapeLiteral(f.name);
    EscapeText(f.content);
    EscapeNothing(":");
    Escape3(name, ":", Text(f.content, false));
    assert FieldText(f, false) == name + ":" + Text(f.content, false);
  }

  lemma {:induction false} EscapeFields(fields: seq<Field>)
    requires ValidFields(fields)
    ensures EscapeForPosixSingleQuotes(FieldsText(fields, false)) == FieldsText(fields, true)
    decreases fields, 2
  {
    if fields != [] {
      EscapeField(fields[0]);
      if |fields| > 1 {
        EscapeFields(fields[1..]);
        EscapeNothing(",");
        Escape3(FieldText(fields[0], false), ",", FieldsText(fields[1..], false));
      }
    }
  }

  /** Somewhere a backslash stands right before a double quote. */
  predicate EscapedQuote(s: string) {
    |s| >= 2 && ((s[0] == '\\' && s[1] == '"') || EscapedQuote(s[1..]))
  }

  lemma UnescapeDoubleStep(c: char, rest: string)
    requires !(c == '\\' && rest != "" && rest[0] == '"')
    ensures UnescapeDoubleQuotes([c] + rest) == [c] + UnescapeDoubleQuotes(rest)
  {
    assert ([c] + rest)[1..] == rest;
  }

  lemma UnescapeDoublePair(rest: string)
    ensures UnescapeDoubleQuotes("\\\"" + rest) == "\"" + UnescapeDoubleQuotes(rest)
  {
    assert ("\\\"" + rest)[2..] == rest;
  }

  /** Both unescapings of an escaped text come to the first one of the text itself. */
  lemma {:induction false} UnescapeCommutes(s: string)
    ensures UnescapeDoubleQuotes(EscapeForPosixSingleQuotes(s)) == EscapeForPosixSingleQuotes(UnescapeDoubleQuotes(s))
    decreases |s|
  {
    if s == "" {
    } else if |s| >= 2 && s[0] == '\\' && s[1] == '"' {
      UnescapeCommutes(s[2..]);
      PairCommutes(s);
    } else {
      UnescapeCommutes(s[1..]);
      if s[0] == '\'' {
        ApostropheCommutes(s);
      } else {
        OtherCommutes(s);
      }
    }
  }

  lemma PairCommutes(s: string)
    requires |s| >= 2 && s[0] == '\\' && s[1] == '"'
    requires UnescapeDoubleQuotes(EscapeForPosixSingleQuotes(s[2..])) ==
             EscapeForPosixSingleQuotes(UnescapeDoubleQuotes(s[2..]))
    ensures UnescapeDoubleQuotes(EscapeForPosixSingleQuotes(s)) == EscapeForPosixSingleQuotes(UnescapeDoubleQuotes(s))
  {
    hide UnescapeDoubleQuotes, EscapeForPosixSingleQuotes;
    assert s == "\\\"" + s[2..];
    UnescapeDoublePair(s[2..]);
    EscapeAppend("\\\"", s[2..]);
    EscapeNothing("\\\"");
    UnescapeDoublePair(EscapeForPosixSingleQuotes(s[2..]));
    EscapeAppend("\"", UnescapeDoubleQuotes(s[2..]));
    EscapeNothing("\"");
  }

  lemma ApostropheCommutes(s: string)
    requires s != "" && s[0] == '\''
    requires UnescapeDoubleQuotes(EscapeForPosixSingleQuotes(s[1..])) ==
             EscapeForPosixSingleQuotes(UnescapeDoubleQuotes(s[1..]))
    ensures UnescapeDoubleQuotes(EscapeForPosixSingleQuotes(s)) == EscapeForPosixSingleQuotes(UnescapeDoubleQuotes(s))
  {
    hide UnescapeDoubleQuotes, EscapeForPosixSingleQuotes;
    var rest := EscapeForPosixSingleQuotes(s[1..]);
    assert s == "'" + s[1..];
    EscapeFirst('\'', s[1..]);
    UnescapeDoubleStep('\'', s[1..]);
    assert "'\\''" + rest == ['\''] + (['\\'] + (['\''] + (['\''] + rest)));
    UnescapeDoubleStep('\'', ['\\'] + (['\''] + (['\''] + rest)));
    UnescapeDoubleStep('\\', ['\''] + (['\''] + rest));
    UnescapeDoubleStep('\'', ['\''] + rest);
    UnescapeDoubleStep('\'', rest);
    EscapeFirst('\'', UnescapeDoubleQuotes(s[1..]));
  }

  lemma OtherCommutes(s: string)
    requires s != "" && s[0] != '\'' && !(|s| >= 2 && s[0] == '\\' && s[1] == '"')
    requires UnescapeDoubleQuotes(EscapeForPosixSingleQuotes(s[1..])) ==
             EscapeForPosixSingleQuotes(UnescapeDoubleQuotes(s[1..]))
    ensures UnescapeDoubleQuotes(EscapeForPosixSingleQuotes(s)) == EscapeForPosixSingleQuotes(UnescapeDoubleQuotes(s))
  {
    hide UnescapeDoubleQuotes, EscapeForPosixSingleQuotes;
    assert s == [s[0]] + s[1..];
    EscapeFirst(s[0], s[1..]);
    if |s| > 1 {
      FirstEscaped(s[1..]);
    } else {
      EscapeNothing(s[1..]);
    }
    UnescapeDoubleStep(s[0], s[1..]);
    UnescapeDoubleStep(s[0], EscapeForPosixSingleQuotes(s[1..]));
    EscapeFirst(s[0], UnescapeDoubleQuotes(s[1..]));
  }

  lemma EscapeFirst(c: char, rest: string)
    ensures EscapeForPosixSingleQuotes([c] + rest) ==
            (if c == '\'' then "'\\''" else [c]) + EscapeForPosixSingleQuotes(rest)
  {
    assert ([c] + rest)[1..] == rest;
  }

  lemma FirstEscaped(s: string)
    requires s != ""
    ensures EscapeForPosixSingleQuotes(s) != "" && EscapeForPosixSingleQuotes(s)[0] == s[0]
  {
  }

  lemma {:induction false} UnescapeEscaped(s: string)
    ensures UnescapeSingleQuotes(EscapeForPosixSingleQuotes(s)) == s
  {
    if s != "" {
      var rest := EscapeForPosixSingleQuotes(s[1..]);
      UnescapeEscaped(s[1..]);
      if s[0] == '\'' {
        assert ("'\\''" + rest)[4..] == rest;
      } else {
        assert ([s[0]] + rest)[1..] == rest;
      }
    }
  }

  /** Undoing the double quotes changes a text exactly if there is one to undo, and then shortens it. */
  lemma {:induction false} UnescapeShortens(s: string)
    ensures if EscapedQuote(s) then |UnescapeDoubleQuotes(s)| < |s| else UnescapeDoubleQuotes(s) == s
    decreases |s|
  {
    if s == "" {
    } else if |s| >= 2 && s[0] == '\\' && s[1] == '"' {
      assert EscapedQuote(s);
    } else {
      UnescapeShortens(s[1..]);
    }
  }

  // ---------------------------------------------------------------- which payloads have an escaped quote

  /** The JSON literal of such a string has a backslash right before a double quote. */
  predicate Troubled(chars: string) {
    '"' in chars || (chars != "" && chars[|chars| - 1] == '\\')
  }

  predicate ValueTroubled(v: Json) {
    match v
    case String(chars) => Troubled(chars)
    case Array(items) => ItemTroubled(items)
    case Object(fields) => FieldTroubled(fields)
    case _ => false
  }

  predicate ItemTroubled(items: seq<Json>) {
    items != [] && (ValueTroubled(items[0]) || ItemTroubled(items[1..]))
  }

  predicate FieldTroubled(fields: seq<Field>) {
    fields != [] && (Troubled(fields[0].name) || ValueTroubled(fields[0].content) || FieldTroubled(fields[1..]))
  }

  predicate EndsInBackslash(s: string) {
    s != "" && s[|s| - 1] == '\\'
  }

  predicate StartsWithQuote(s: string) {
    s != "" && s[0] == '"'
  }

  lemma {:induction false} EscapedQuoteAppend(a: string, b: string)
    ensures EscapedQuote(a + b) <==>
            EscapedQuote(a) || EscapedQuote(b) || (EndsInBackslash(a) && StartsWithQuote(b))
  {
    hide EscapedQuote;
    if a == "" {
      assert a + b == b;
      EscapedQuoteEmpty();
    } else {
      assert a == [a[0]] + a[1..] && a + b == [a[0]] + (a[1..] + b);
      EscapedQuoteCons(a[0], a[1..]);
      EscapedQuoteCons(a[0], a[1..] + b);
      EscapedQuoteAppend(a[1..], b);
    }
  }

  lemma EscapedQuoteEmpty()
    ensures !EscapedQuote("")
  {
  }

  lemma EscapedQuoteCons(c: char, rest: string)
    ensures EscapedQuote([c] + rest) <==> (c == '\\' && StartsWithQuote(rest)) || EscapedQuote(rest)
  {
    assert ([c] + rest)[1..] == rest;
  }

  lemma {:induction false} NoEscapedQuote(s: string)
    requires forall i | 0 <= i < |s| :: s[i] != '"'
    ensures !EscapedQuote(s)
  {
    if s != "" {
      NoEscapedQuote(s[1..]);
    }
  }

  lemma QuoteInChar(c: char)
    ensures EscapedQuote(CharText(c, false)) <==> c == '"'
    ensures EndsInBackslash(CharText(c, false)) <==> c == '\\'
    ensures !StartsWithQuote(CharText(c, false))
  {
    if c != '"' {
      NoEscapedQuote(CharText(c, false));
    }
  }

  lemma {:induction false} QuoteInChars(chars: string)
    ensures EscapedQuote(CharsText(chars, false)) <==> '"' in chars
    ensures EndsInBackslash(CharsText(chars, false)) <==> EndsInBackslash(chars)
    ensures !StartsWithQuote(CharsText(chars, false))
  {
    hide EscapedQuote, CharText;
    if chars == "" {
      NoEscapedQuote("");
    } else {
      var first, tail := CharText(chars[0], false), CharsText(chars[1..], false);
      QuoteInChar(chars[0]);
      QuoteInChars(chars[1..]);
      EscapedQuoteAppend(first, tail);
      assert chars == [chars[0]] + chars[1..];
      CharsNonEmpty(chars[1..]);
    }
  }

  lemma CharsNonEmpty(chars: string)
    ensures CharsText(chars, false) == "" <==> chars == ""
  {
  }

  lemma QuoteInLiteral(chars: string)
    ensures EscapedQuote("\"" + CharsText(chars, false) + "\"") <==> Troubled(chars)
  {
    hide EscapedQuote, CharsText;
    var text := CharsText(chars, false);
    QuoteInChars(chars);
    NoQuoteAlone();
    EscapedQuoteAppend("\"", text);
    EscapedQuoteAppend("\"" + text, "\"");
    assert EndsInBackslash("\"" + text) <==> EndsInBackslash(text);
  }

  lemma NoQuoteAlone()
    ensures !EscapedQuote("\"")
  {
  }

  /** What a value's text ends with. */
  lemma {:induction false} TextEnds(v: Json)
    requires ValidNumbers(v)
    ensures Text(v, false) != "" && !EndsInBackslash(Text(v, false))
  {
    if v.Number? {
      var last := v.text[|v.text| - 1];
      assert last in v.text && NumberChar(last);
    }
  }

  lemma Quote3(a: string, b: string, c: string)
    requires b != "" && !EndsInBackslash(a) && !EndsInBackslash(b)
    ensures EscapedQuote(a + b + c) <==> EscapedQuote(a) || EscapedQuote(b) || EscapedQuote(c)
  {
    hide EscapedQuote;
    EscapedQuoteAppend(a, b);
    EscapedQuoteAppend(a + b, c);
    assert (a + b)[|a + b| - 1] == b[|b| - 1];
  }

  /** A printed value has a backslash right before a double quote exactly if one of its strings holds a
      double quote or ends in a backslash. */
  lemma {:induction false} QuoteInText(v: Json)
    requires ValidNumbers(v)
    ensures EscapedQuote(Text(v, false)) <==> ValueTroubled(v)
    decreases v, 1
  {
    hide EscapedQuote, CharsText, Troubled;
    match v
    case Null => NoEscapedQuote(Text(v, false));
    case Bool(_) => NoEscapedQuote(Text(v, false));
    case Number(text) =>
      assert forall i | 0 <= i < |text| :: text[i] in text && NumberChar(text[i]);
      NoEscapedQuote(text);
    case String(chars) => QuoteInLiteral(chars);
    case Array(items) => QuoteInBrackets("[", ItemsText(items, false), "]");
      QuoteInItems(items);
    case Object(fields) => QuoteInBrackets("{", FieldsText(fields, false), "}");
      QuoteInFields(fields);
  }

  lemma QuoteInBrackets(open: string, inner: string, close: string)
    requires |open| == 1 && |close| == 1 && open[0] != '\\' && open[0] != '"' && close[0] != '"'
    ensures EscapedQuote(open + inner + close) <==> EscapedQuote(inner)
  {
    hide EscapedQuote;
    NoEscapedQuote(open);
    NoEscapedQuote(close);
    EscapedQuoteAppend(open, inner);
    EscapedQuoteAppend(open + inner, close);
  }

  lemma {:induction false} QuoteInItems(items: seq<Json>)
    requires ValidItems(items)
    ensures EscapedQuote(ItemsText(items, false)) <==> ItemTroubled(items)
    decreases items, 0
  {
    hide EscapedQuote, Text, Troubled;
    if items == [] {
      NoEscapedQuote("");
    } else {
      QuoteInText(items[0]);
      if |items| > 1 {
        QuoteInItems(items[1..]);
        TextEnds(items[0]);
        NoEscapedQuote(",");
        Quote3(Text(items[0], false), ",", ItemsText(items[1..], false));
      }
    }
  }

  lemma {:induction false} QuoteInField(f: Field)
    requires ValidNumbers(f.content)
    ensures EscapedQuote(FieldText(f, false)) <==> Troubled(f.name) || ValueTroubled(f.content)
    ensures !EndsInBackslash(FieldText(f, false))
    decreases f, 2
  {
    hide EscapedQuote, Text, CharsText, Troubled, ValueTroubled;
    var name := "\"" + CharsText(f.name, false) + "\"";
    QuoteInLiteral(f.name);
    QuoteInText(f.content);
    TextEnds(f.content);
    NoEscapedQuote(":");
    Quote3(name, ":", Text(f.content, false));
    assert FieldText(f, false) == name + ":" + Text(f.content, false);
  }

  lemma {:induction false} QuoteInFields(fields: seq<Field>)
    requires ValidFields(fields)
    ensures EscapedQuote(FieldsText(fields, false)) <==> FieldTroubled(fields)
    decreases fields, 2
  {
    hide EscapedQuote, FieldText, Troubled;
    if fields == [] {
      NoEscapedQuote("");
    } else {
      QuoteInField(fields[0]);
      if |fields| > 1 {
        QuoteInFields(fields[1..]);
        NoEscapedQuote(",");
        Quote3(FieldText(fields[0], false), ",", FieldsText(fields[1..], false));
      }
    }
  }

  // ---------------------------------------------------------------- reading one payload back

  /** What the scanner cuts out of a built command: the escaped object. */
  function QuotedText(p: Payload): string {
    Text(Object(PayloadFields(p)), true)
  }

  lemma QuotedTextIsEscaped(p: Payload)
    requires ValidPayload(p)
    ensures EscapeForPosixSingleQuotes(PayloadText(p)) == QuotedText(p)
  {
    PayloadIsValid(p);
    EscapeText(Object(PayloadFields(p)));
  }

  lemma PayloadIsValid(p: Payload)
    requires ValidPayload(p)
    ensures ValidFields(PayloadFields(p))
  {
    if p.WaveStart? {
      AgentsAreValid(p.agents);
    }
    AllValid(PayloadFields(p));
  }

  lemma {:induction false} AllValid(fields: seq<Field>)
    requires forall i | 0 <= i < |fields| :: ValidNumbers(fields[i].content)
    ensures ValidFields(fields)
  {
    if fields != [] {
      AllValid(fields[1..]);
    }
  }

  lemma {:induction false} AgentsAreValid(agents: seq<Agent>)
    ensures ValidItems(AgentsJson(agents))
  {
    if agents != [] {
      AgentsAreValid(agents[1..]);
      AllValid(AgentJson(agents[0]).fields);
      assert AgentsJson(agents)[1..] == AgentsJson(agents[1..]);
    }
  }

  /** The marker of a payload parses back to it unless an apostrophe of the payload makes the direct
      parse fail and the second one corrupts a double quote: then no shorter text will do, so what is
      parsed, if anything, has a shorter text than the payload. */
  lemma SliceParses(p: Payload)
    requires ValidPayload(p)
    ensures var v := Object(PayloadFields(p));
            var r := ParseMarkerSlice(QuotedText(p));
            if HasApostrophe(v) && ValueTroubled(v) then r.Got? ==> |Text(r.value, false)| < |PayloadText(p)|
            else r == Got(v, "")
  {
    hide UnescapeDoubleQuotes, UnescapeSingleQuotes, EscapeForPosixSingleQuotes, ParseValue, Text, EscapedQuote;
    hide ValueTroubled, HasApostrophe, PayloadFields, ValidFields;
    var v := Object(PayloadFields(p));
    var j := Text(v, false);
    var u := UnescapeDoubleQuotes(j);
    PayloadIsValid(p);
    QuotedTextIsEscaped(p);
    ParseWhole(v, true);
    ParseWhole(v, false);
    UnescapeCommutes(j);
    UnescapeEscaped(u);
    UnescapeShortens(j);
    QuoteInText(v);
    if HasApostrophe(v) {
      assert ParseMarkerSlice(QuotedText(p)) == Parse(u);
      TextIsShortest(u);
    }
  }

  // ---------------------------------------------------------------- the event of a payload

  function EventOf(p: Payload): Event {
    match p
    case WaveStart(agents) => Start(agents)
    case WaveAgentDone(agent, taskId, success, reason) => AgentDone(agent, taskId, success, reason)
    case WaveEnd(successCount, totalCount) => End(successCount, totalCount)
  }

  predicate FiniteCounts(p: Payload) {
    p.WaveEnd? ==> p.successCount.Finite? && p.totalCount.Finite?
  }

  lemma {:induction false} FindProperty(fields: seq<Field>, i: nat)
    requires i < |fields| && forall k | i < k < |fields| :: fields[k].name != fields[i].name
    ensures Property(fields, fields[i].name) == Some(fields[i].content)
  {
    if i < |fields| - 1 {
      FindProperty(fields[..|fields| - 1], i);
    }
  }

  lemma {:induction false} NoProperty(fields: seq<Field>, name: string)
    requires forall k | 0 <= k < |fields| :: fields[k].name != name
    ensures Property(fields, name) == None
  {
    if fields != [] {
      NoProperty(fields[..|fields| - 1], name);
    }
  }

  lemma AgentReadsBack(a: Agent)
    ensures ToAgent(AgentJson(a)) == Some(a)
  {
    hide Property;
    var fields := AgentJson(a).fields;
    assert fields[0].name[0] != fields[2].name[0];
    FindProperty(fields, 0);
    FindProperty(fields, 1);
    FindProperty(fields, 2);
  }

  lemma {:induction false} AgentsReadBack(agents: seq<Agent>)
    ensures ToAgents(AgentsJson(agents)) == agents
  {
    hide AgentJson, ToAgent;
    if agents != [] {
      AgentReadsBack(agents[0]);
      AgentsReadBack(agents[1..]);
      assert AgentsJson(agents)[1..] == AgentsJson(agents[1..]);
      assert agents == [agents[0]] + agents[1..];
    }
  }

  lemma KindsDiffer()
    ensures "wave.start" != "wave.agent_done" && "wave.start" != "wave.end" && "wave.end" != "wave.agent_done"
  {
  }

  lemma DoneReadsBack(p: Payload)
    requires p.WaveAgentDone?
    ensures ToEvent(Object(PayloadFields(p))) == Some(EventOf(p))
  {
    hide Property;
    var fields := PayloadFields(p);
    KindsDiffer();
    FindProperty(fields, 0);
    FindProperty(fields, 1);
    FindProperty(fields, 2);
    FindProperty(fields, 3);
    if p.reason.Some? {
      FindProperty(fields, 4);
    } else {
      NoProperty(fields, "reason");
    }
  }

  /** A payload, read as an object, is its own event. */
  lemma PayloadReadsBack(p: Payload)
    ensures ToEvent(Object(PayloadFields(p))) == if FiniteCounts(p) then Some(EventOf(p)) else None
  {
    hide Property, AgentsJson, ToAgents;
    var fields := PayloadFields(p);
    KindsDiffer();
    match p
    case WaveStart(agents) =>
      FindProperty(fields, 0);
      FindProperty(fields, 1);
      AgentsReadBack(agents);
    case WaveAgentDone(_, _, _, _) => DoneReadsBack(p);
    case WaveEnd(_, _) =>
      FindProperty(fields, 0);
      FindProperty(fields, 1);
      FindProperty(fields, 2);
  }

  // ---------------------------------------------------------------- no shorter object has the same event

  function Weight(fields: seq<Field>): nat {
    if fields == [] then 0 else |FieldText(fields[0], false)| + 1 + Weight(fields[1..])
  }

  function ItemWeight(items: seq<Json>): nat {
    if items == [] then 0 else |Text(items[0], false)| + 1 + ItemWeight(items[1..])
  }

  lemma {:induction false} FieldsWeigh(fields: seq<Field>)
    requires fields != []
    ensures |FieldsText(fields, false)| + 1 == Weight(fields)
  {
    hide FieldText;
    if |fields| == 1 {
      assert Weight(fields[1..]) == 0;
    } else {
      FieldsWeigh(fields[1..]);
    }
  }

  lemma {:induction false} ItemsWeigh(items: seq<Json>)
    requires items != []
    ensures |ItemsText(items, false)| + 1 == ItemWeight(items)
  {
    hide Text;
    if |items| == 1 {
      assert ItemWeight(items[1..]) == 0;
    } else {
      ItemsWeigh(items[1..]);
    }
  }

  lemma {:induction false} WeightWithout(fields: seq<Field>, i: nat)
    requires i < |fields|
    ensures Weight(fields) == |FieldText(fields[i], false)| + 1 + Weight(fields[..i] + fields[i + 1..])
  {
    hide FieldText;
    if i > 0 {
      WeightWithout(fields[1..], i - 1);
      assert (fields[..i] + fields[i + 1..])[1..] == fields[1..][..i - 1] + fields[1..][i..];
    } else {
      assert fields[..0] + fields[1..] == fields[1..];
    }
  }

  /** Fields with different names that all occur in an object weigh no more than the object's. */
  lemma {:induction false} NeededFields(needed: seq<Field>, fields: seq<Field>)
    requires forall i, j | 0 <= i < j < |needed| :: needed[i].name != needed[j].name
    requires forall i | 0 <= i < |needed| :: needed[i] in fields
    ensures Weight(needed) <= Weight(fields)
    decreases |needed|
  {
    hide FieldText;
    if needed != [] {
      var i :| 0 <= i < |fields| && fields[i] == needed[0];
      var others := fields[..i] + fields[i + 1..];
      WeightWithout(fields, i);
      forall k | 0 <= k < |needed[1..]| ensures needed[1..][k] in others {
        var j :| 0 <= j < |fields| && fields[j] == needed[k + 1];
        assert needed[0].name != needed[k + 1].name;
        assert if j < i then others[j] == fields[j] else others[j - 1] == fields[j];
      }
      NeededFields(needed[1..], others);
    }
  }

  /** An object that holds these fields is printed no shorter than them. */
  lemma ObjectHolds(needed: seq<Field>, fields: seq<Field>)
    requires needed != []
    requires forall i, j | 0 <= i < j < |needed| :: needed[i].name != needed[j].name
    requires forall i | 0 <= i < |needed| :: needed[i] in fields
    ensures |Text(Object(needed), false)| <= |Text(Object(fields), false)|
  {
    hide FieldText;
    assert needed[0] in fields;
    NeededFields(needed, fields);
    FieldsWeigh(needed);
    FieldsWeigh(fields);
  }

  lemma AgentIsShortest(v: Json)
    requires ToAgent(v).Some?
    ensures |Text(AgentJson(ToAgent(v).value), false)| <= |Text(v, false)|
  {
    hide Text, Property;
    var needed := AgentJson(ToAgent(v).value).fields;
    assert needed[0].name[0] != needed[2].name[0];
    ObjectHolds(needed, v.fields);
  }

  lemma {:induction false} AgentsAreShortest(items: seq<Json>)
    ensures ItemWeight(AgentsJson(ToAgents(items))) <= ItemWeight(items)
  {
    hide Text, ToAgent, AgentJson;
    if items != [] {
      AgentsAreShortest(items[1..]);
      if ToAgent(items[0]).Some? {
        AgentIsShortest(items[0]);
        var agents := ToAgents(items);
        assert agents[1..] == ToAgents(items[1..]);
        assert AgentsJson(agents)[1..] == AgentsJson(agents[1..]);
      } else {
        assert ToAgents(items) == ToAgents(items[1..]);
      }
    }
  }

  /** An object read as the event of a start or done payload is printed no shorter than the payload. */
  lemma EventIsShortest(v: Json, p: Payload)
    requires !p.WaveEnd? && ToEvent(v) == Some(EventOf(p))
    ensures |PayloadText(p)| <= |Text(v, false)|
  {
    hide Property, Text, ToAgents, AgentsJson;
    KindsDiffer();
    match p
    case WaveStart(agents) =>
      StartIsShortest(v.fields, agents);
    case WaveAgentDone(_, _, _, _) =>
      ObjectHolds(PayloadFields(p), v.fields);
  }

  lemma StartIsShortest(fields: seq<Field>, agents: seq<Agent>)
    requires StringProperty(fields, "type") == Some("wave.start")
    requires ToWaveStart(fields) == Some(Start(agents))
    ensures |PayloadText(WaveStart(agents))| <= |Text(Object(fields), false)|
  {
    hide Property, ToAgents, AgentsJson, Text, FieldText, ItemWeight, ItemsText;
    var items := Property(fields, "agents").value.items;
    var kind, found, own := Field("type", String("wave.start")), Field("agents", Array(items)),
                            Field("agents", Array(AgentsJson(agents)));
    AgentsAreShortest(items);
    ItemsShortest(AgentsJson(agents), items);
    ArrayFieldShorter("agents", AgentsJson(agents), items);
    TwoFields(kind, own);
    TwoFields(kind, found);
    ObjectHolds([kind, found], fields);
    assert PayloadFields(WaveStart(agents)) == [kind, own];
  }

  lemma TwoFields(a: Field, b: Field)
    ensures |Text(Object([a, b]), false)| == |FieldText(a, false)| + |FieldText(b, false)| + 3
  {
    hide FieldText;
    assert [a, b][1..] == [b];
    assert FieldsText([b], false) == FieldText(b, false);
    assert FieldsText([a, b], false) == FieldText(a, false) + "," + FieldsText([b], false);
    assert Text(Object([a, b]), false) == "{" + FieldsText([a, b], false) + "}";
  }

  lemma ArrayFieldShorter(name: string, a: seq<Json>, b: seq<Json>)
    requires |ItemsText(a, false)| <= |ItemsText(b, false)|
    ensures |FieldText(Field(name, Array(a)), false)| <= |FieldText(Field(name, Array(b)), false)|
  {
    hide ItemsText;
  }

  lemma ItemsShortest(a: seq<Json>, b: seq<Json>)
    requires ItemWeight(a) <= ItemWeight(b)
    ensures |ItemsText(a, false)| <= |ItemsText(b, false)|
  {
    hide Text;
    if a != [] && b != [] {
      ItemsWeigh(a);
      ItemsWeigh(b);
    }
  }

  // ---------------------------------------------------------------- which payloads survive

  function AgentStrings(agents: seq<Agent>): seq<string> {
    if agents == [] then []
    else [agents[0].agent, agents[0].taskId, agents[0].title] + AgentStrings(agents[1..])
  }

  /** The strings a producer puts into a payload. */
  function Strings(p: Payload): seq<string> {
    match p
    case WaveStart(agents) => AgentStrings(agents)
    case WaveAgentDone(agent, taskId, _, reason) =>
      [agent, taskId] + if reason.Some? then [reason.value] else []
    case WaveEnd(_, _) => []
  }

  /** No string of the payload holds an apostrophe, or none holds a double quote or ends in a backslash;
      and its counts are finite. */
  predicate Survives(p: Payload) {
    && FiniteCounts(p)
    && ((forall i | 0 <= i < |Strings(p)| :: '\'' !in Strings(p)[i])
        || (forall i | 0 <= i < |Strings(p)| :: !Troubled(Strings(p)[i])))
  }

  lemma FieldCons(f: Field, rest: seq<Field>)
    ensures FieldApostrophe([f] + rest) <==> '\'' in f.name || HasApostrophe(f.content) || FieldApostrophe(rest)
    ensures FieldTroubled([f] + rest) <==> Troubled(f.name) || ValueTroubled(f.content) || FieldTroubled(rest)
  {
    assert ([f] + rest)[1..] == rest;
  }

  /** Names without an apostrophe, a double quote or a backslash at the end. */
  predicate Clean(name: string) {
    '\'' !in name && !Troubled(name)
  }

  lemma TypeField(kind: string, rest: seq<Field>)
    requires kind == "wave.start" || kind == "wave.agent_done" || kind == "wave.end"
    ensures FieldApostrophe([Field("type", String(kind))] + rest) <==> FieldApostrophe(rest)
    ensures FieldTroubled([Field("type", String(kind))] + rest) <==> FieldTroubled(rest)
  {
    FieldCons(Field("type", String(kind)), rest);
  }

  lemma StringField(name: string, chars: string, rest: seq<Field>)
    requires Clean(name)
    ensures FieldApostrophe([Field(name, String(chars))] + rest) <==> '\'' in chars || FieldApostrophe(rest)
    ensures FieldTroubled([Field(name, String(chars))] + rest) <==> Troubled(chars) || FieldTroubled(rest)
  {
    FieldCons(Field(name, String(chars)), rest);
  }

  lemma AgentCharacters(a: Agent)
    ensures HasApostrophe(AgentJson(a)) <==> '\'' in a.agent || '\'' in a.taskId || '\'' in a.title
    ensures ValueTroubled(AgentJson(a)) <==> Troubled(a.agent) || Troubled(a.taskId) || Troubled(a.title)
  {
    hide Troubled, FieldApostrophe, FieldTroubled;
    CleanNames();
    NoFields();
    var title := [Field("title", String(a.title))];
    var taskId := [Field("taskId", String(a.taskId))] + title;
    StringField("title", a.title, []);
    assert title + [] == title;
    StringField("taskId", a.taskId, title);
    StringField("agent", a.agent, taskId);
    assert AgentJson(a).fields == [Field("agent", String(a.agent))] + taskId;
  }

  lemma NoFields()
    ensures !FieldApostrophe([]) && !FieldTroubled([])
  {
  }

  lemma CleanNames()
    ensures Clean("title") && Clean("taskId") && Clean("agent") && Clean("agents") && Clean("type")
    ensures Clean("success") && Clean("reason") && Clean("successCount") && Clean("totalCount")
  {
  }

  lemma {:induction false} AgentsCharacters(agents: seq<Agent>)
    ensures ItemApostrophe(AgentsJson(agents)) <==>
            exists i :: 0 <= i < |AgentStrings(agents)| && '\'' in AgentStrings(agents)[i]
    ensures ItemTroubled(AgentsJson(agents)) <==>
            exists i :: 0 <= i < |AgentStrings(agents)| && Troubled(AgentStrings(agents)[i])
  {
    hide Troubled, AgentJson;
    if agents != [] {
      var a := agents[0];
      var rest := AgentStrings(agents[1..]);
      var all := AgentStrings(agents);
      AgentCharacters(a);
      AgentsCharacters(agents[1..]);
      assert AgentsJson(agents)[1..] == AgentsJson(agents[1..]);
      assert all == [a.agent, a.taskId, a.title] + rest;
      ApostropheInMore(a.agent, a.taskId, a.title, rest);
      TroubleInMore(a.agent, a.taskId, a.title, rest);
    }
  }

  lemma ApostropheInMore(x: string, y: string, z: string, rest: seq<string>)
    ensures var all := [x, y, z] + rest;
            (exists i :: 0 <= i < |all| && '\'' in all[i]) <==>
            '\'' in x || '\'' in y || '\'' in z || exists i :: 0 <= i < |rest| && '\'' in rest[i]
  {
    var all := [x, y, z] + rest;
    assert all[0] == x && all[1] == y && all[2] == z;
    assert forall i | 3 <= i < |all| :: all[i] == rest[i - 3];
    assert forall i | 0 <= i < |rest| :: rest[i] == all[i + 3];
  }

  lemma TroubleInMore(x: string, y: string, z: string, rest: seq<string>)
    ensures var all := [x, y, z] + rest;
            (exists i :: 0 <= i < |all| && Troubled(all[i])) <==>
            Troubled(x) || Troubled(y) || Troubled(z) || exists i :: 0 <= i < |rest| && Troubled(rest[i])
  {
    hide Troubled;
    var all := [x, y, z] + rest;
    assert all[0] == x && all[1] == y && all[2] == z;
    assert forall i | 3 <= i < |all| :: all[i] == rest[i - 3];
    assert forall i | 0 <= i < |rest| :: rest[i] == all[i + 3];
  }

  lemma StartCharacters(agents: seq<Agent>)
    ensures var p := WaveStart(agents);
            && (FieldApostrophe(PayloadFields(p)) <==> ItemApostrophe(AgentsJson(agents)))
            && (FieldTroubled(PayloadFields(p)) <==> ItemTroubled(AgentsJson(agents)))
  {
    hide Troubled, FieldApostrophe, FieldTroubled, AgentsJson;
    CleanNames();
    NoFields();
    var last := Field("agents", Array(AgentsJson(agents)));
    FieldCons(last, []);
    assert [last] + [] == [last];
    TypeField("wave.start", [last]);
    assert PayloadFields(WaveStart(agents)) == [Field("type", String("wave.start"))] + [last];
  }

  lemma DoneCharacters(p: Payload)
    requires p.WaveAgentDone?
    ensures FieldApostrophe(PayloadFields(p)) <==>
            '\'' in p.agent || '\'' in p.taskId || (p.reason.Some? && '\'' in p.reason.value)
    ensures FieldTroubled(PayloadFields(p)) <==>
            Troubled(p.agent) || Troubled(p.taskId) || (p.reason.Some? && Troubled(p.reason.value))
  {
    hide Troubled, FieldApostrophe, FieldTroubled;
    CleanNames();
    NoFields();
    var reason := if p.reason.Some? then [Field("reason", String(p.reason.value))] else [];
    if p.reason.Some? {
      StringField("reason", p.reason.value, []);
      assert reason + [] == reason;
    }
    var success := [Field("success", Bool(p.success))] + reason;
    FieldCons(Field("success", Bool(p.success)), reason);
    var taskId := [Field("taskId", String(p.taskId))] + success;
    StringField("taskId", p.taskId, success);
    var agent := [Field("agent", String(p.agent))] + taskId;
    StringField("agent", p.agent, taskId);
    TypeField("wave.agent_done", agent);
    assert PayloadFields(p) == [Field("type", String("wave.agent_done"))] + agent;
  }

  lemma EndCharacters(p: Payload)
    requires p.WaveEnd?
    ensures !FieldApostrophe(PayloadFields(p))
  {
    hide Troubled, FieldApostrophe, FieldTroubled;
    CleanNames();
    NoFields();
    var total := Field("totalCount", CountJson(p.totalCount));
    var success := Field("successCount", CountJson(p.successCount));
    FieldCons(total, []);
    assert [total] + [] == [total];
    FieldCons(success, [total]);
    TypeField("wave.end", [success] + [total]);
    assert PayloadFields(p) == [Field("type", String("wave.end"))] + ([success] + [total]);
  }

  lemma PayloadCharacters(p: Payload)
    ensures var v := Object(PayloadFields(p));
            (HasApostrophe(v) && ValueTroubled(v)) <==> !(FiniteCounts(p) ==> Survives(p))
  {
    hide Troubled, FieldApostrophe, FieldTroubled, AgentsJson, AgentStrings, PayloadFields;
    match p
    case WaveStart(agents) =>
      StartCharacters(agents);
      AgentsCharacters(agents);
      assert Strings(p) == AgentStrings(agents);
    case WaveAgentDone(agent, taskId, _, reason) =>
      DoneCharacters(p);
      var all := Strings(p);
      assert all[0] == agent && all[1] == taskId && (reason.Some? ==> all[2] == reason.value);
    case WaveEnd(_, _) =>
      EndCharacters(p);
  }

  /** The marker of one payload contributes exactly the payload's event if and only if the payload
      survives the quoting. */
  lemma MarkerGivesEvent(p: Payload)
    requires ValidPayload(p)
    ensures SliceEvents(QuotedText(p)) == [EventOf(p)] <==> Survives(p)
  {
    hide ParseMarkerSlice, ToEvent, PayloadFields, HasApostrophe, ValueTroubled, Survives, Text;
    var v := Object(PayloadFields(p));
    var r := ParseMarkerSlice(QuotedText(p));
    SliceParses(p);
    PayloadCharacters(p);
    PayloadReadsBack(p);
    SurvivorsAreFinite(p);
    if HasApostrophe(v) && ValueTroubled(v) && r.Got? && ToEvent(r.value) == Some(EventOf(p)) {
      EventIsShortest(r.value, p);
    }
  }

  lemma SurvivorsAreFinite(p: Payload)
    ensures Survives(p) ==> FiniteCounts(p)
    ensures p.WaveEnd? ==> (FiniteCounts(p) <==> Survives(p))
  {
  }

  // ---------------------------------------------------------------- chains of markers

  /** A marker and the text between it and the next one. */
  datatype Link = Link(payload: Payload, separator: string)

  function Tail(links: seq<Link>): string {
    if links == [] then "" else BuildWaveMarkerCommand(links[0].payload) + links[0].separator + Tail(links[1..])
  }

  /** A command that holds these markers among other text. */
  function Chain(head: string, links: seq<Link>): string {
    head + Tail(links)
  }

  function Payloads(links: seq<Link>): seq<Event> {
    if links == [] then [] else [EventOf(links[0].payload)] + Payloads(links[1..])
  }

  ghost predicate GoodLinks(links: seq<Link>) {
    forall i | 0 <= i < |links| ::
      ValidPayload(links[i].payload) && MarkerScan.AnchorFree(SENTINEL, links[i].separator)
  }

  lemma CommandText(p: Payload)
    requires ValidPayload(p)
    ensures BuildWaveMarkerCommand(p) == MarkerScan.ECHO + SENTINEL + " " + QuotedText(p) + "'"
  {
    hide EscapeForPosixSingleQuotes, PayloadText, QuotedText, MarkerScan.IsMark;
    var start: string := SENTINEL + " ";
    QuotedTextIsEscaped(p);
    EscapeAppend(start, PayloadText(p));
    SentinelIsPlain();
    assert BuildWaveMarkerCommand(p) == MarkerScan.ECHO + (start + QuotedText(p)) + "'";
    Append5(MarkerScan.ECHO, SENTINEL, " ", QuotedText(p), "'");
  }

  lemma Append5(a: string, b: string, c: string, d: string, e: string)
    ensures a + ((b + c) + d) + e == a + b + c + d + e
  {
  }

  lemma SentinelIsPlain()
    ensures EscapeForPosixSingleQuotes(SENTINEL + " ") == SENTINEL + " "
  {
    hide EscapeForPosixSingleQuotes;
    EscapeNothing(SENTINEL + " ");
  }

  lemma QuotedTextCloses(p: Payload)
    requires ValidPayload(p)
    ensures MarkerScan.Closes(QuotedText(p))
  {
    hide PayloadFields;
    PayloadIsValid(p);
    MarkerScan.ObjectCloses(PayloadFields(p), true);
  }

  /** What the scanner sees of a chain. */
  function PiecesOf(links: seq<Link>): (pieces: seq<MarkerScan.Piece>)
    ensures |pieces| == |links|
    ensures forall i | 0 <= i < |links| :: pieces[i].separator == links[i].separator
  {
    if links == [] then []
    else [MarkerScan.Piece(QuotedText(links[0].payload), links[0].separator)] + PiecesOf(links[1..])
  }

  lemma {:induction false} LinksArePieces(links: seq<Link>)
    requires GoodLinks(links)
    ensures Tail(links) == MarkerScan.Pieces(SENTINEL, PiecesOf(links))
    ensures MarkerScan.GoodPieces(SENTINEL, PiecesOf(links))
  {
    hide QuotedText, BuildWaveMarkerCommand, MarkerScan.AnchorFree, MarkerScan.Closes, ValidPayload, MarkerScan.IsMark;
    if links != [] {
      var pieces := PiecesOf(links);
      LinksArePieces(links[1..]);
      assert pieces[1..] == PiecesOf(links[1..]);
      LinkText(links[0], MarkerScan.Pieces(SENTINEL, pieces[1..]));
      QuotedTextCloses(links[0].payload);
      assert forall i | 1 <= i < |pieces| :: pieces[i] == pieces[1..][i - 1];
    }
  }

  lemma LinkText(link: Link, rest: string)
    requires ValidPayload(link.payload)
    ensures BuildWaveMarkerCommand(link.payload) + link.separator + rest ==
            MarkerScan.ECHO + SENTINEL + " " + QuotedText(link.payload) + ("'" + (link.separator + rest))
  {
    hide QuotedText, BuildWaveMarkerCommand;
    CommandText(link.payload);
    Append3(MarkerScan.ECHO + SENTINEL + " " + QuotedText(link.payload), "'", link.separator, rest);
  }

  lemma Append3(a: string, b: string, c: string, d: string)
    ensures (a + b) + c + d == a + (b + (c + d))
  {
  }

  /** The scan of a chain cuts out exactly its payloads. */
  lemma {:induction false} PiecesAreCutOut(mark: MarkerScan.Mark, command: string, from: nat, at: nat, gap: string,
                                           pieces: seq<MarkerScan.Piece>)
    requires MarkerScan.GapAt(mark, command, from, at, gap, MarkerScan.Pieces(mark, pieces))
    requires MarkerScan.GoodPieces(mark, pieces)
    ensures var spans := MarkerScan.Spans(mark, command, from);
            InRange(command, spans) && EventsAt(command, spans) == PieceEvents(pieces)
    decreases |pieces|
  {
    hide MarkerScan.Spans, MarkerScan.AnchorFree, MarkerScan.GoodPieces, SliceEvents;
    if pieces == [] {
      MarkerScan.GapFacts(mark, command, from, at, gap, MarkerScan.Pieces(mark, pieces));
      assert command[from..] == command[from..at] + gap;
      MarkerScan.SkipTail(mark, command, from);
    } else {
      var span, next := MarkerScan.FirstPiece(mark, command, from, at, gap, pieces);
      PiecesAreCutOut(mark, command, next - 1, next, pieces[0].separator, pieces[1..]);
      OneMore(command, span, MarkerScan.Spans(mark, command, next - 1));
    }
  }

  function PieceEvents(pieces: seq<MarkerScan.Piece>): seq<Event> {
    if pieces == [] then [] else SliceEvents(pieces[0].payload) + PieceEvents(pieces[1..])
  }

  lemma OneMore(command: string, span: MarkerScan.Span, spans: seq<MarkerScan.Span>)
    requires span.braceStart <= span.braceEnd < |command| && InRange(command, spans)
    ensures InRange(command, [span] + spans)
    ensures EventsAt(command, [span] + spans) ==
            SliceEvents(command[span.braceStart..span.braceEnd + 1]) + EventsAt(command, spans)
  {
    hide SliceEvents;
    assert ([span] + spans)[1..] == spans;
  }

  lemma {:induction false} PieceEventsAreAll(links: seq<Link>)
    requires GoodLinks(links)
    ensures |PieceEvents(PiecesOf(links))| <= |links| == |Payloads(links)|
    ensures PieceEvents(PiecesOf(links)) == Payloads(links) <==>
            forall i | 0 <= i < |links| :: Survives(links[i].payload)
  {
    hide SliceEvents, QuotedText, EventOf, Survives, ValidPayload, MarkerScan.AnchorFree;
    if links != [] {
      var first := SliceEvents(QuotedText(links[0].payload));
      var rest := PieceEvents(PiecesOf(links[1..]));
      assert PiecesOf(links)[1..] == PiecesOf(links[1..]);
      assert PieceEvents(PiecesOf(links)) == first + rest;
      PieceEventsAreAll(links[1..]);
      MarkerGivesEvent(links[0].payload);
      assert forall i | 1 <= i < |links| :: links[i] == links[1..][i - 1];
      SameConcat(first, rest, EventOf(links[0].payload), Payloads(links[1..]));
    }
  }

  lemma SameConcat(a: seq<Event>, b: seq<Event>, e: Event, c: seq<Event>)
    requires |a| <= 1 && |b| <= |c|
    ensures a + b == [e] + c <==> a == [e] && b == c
  {
    if a + b == [e] + c {
      assert |a| == 1 && |b| == |c|;
      assert a[0] == (a + b)[0] == e;
      assert b == (a + b)[1..] == c;
    }
  }

  /** A command that holds built markers among text without an anchor of its own parses to exactly the
      payloads' events in order, whatever braces or sentinels their strings hold, if and only if every
      payload survives the two layers of quoting. */
  lemma ChainParsesExactly(head: string, links: seq<Link>)
    requires MarkerScan.AnchorFree(SENTINEL, head) && GoodLinks(links)
    ensures Events(Chain(head, links)) == Payloads(links) <==>
            forall i | 0 <= i < |links| :: Survives(links[i].payload)
  {
    hide MarkerScan.AnchorFree, MarkerScan.Spans, MarkerScan.GoodPieces, MarkerScan.Pieces;
    hide Survives, EventsAt, Tail, Payloads, GoodLinks, PieceEvents, PiecesOf;
    var command := Chain(head, links);
    LinksArePieces(links);
    assert command[0..] == head + Tail(links);
    PiecesAreCutOut(SENTINEL, command, 0, 0, head, PiecesOf(links));
    PieceEventsAreAll(links);
  }

  /** An apostrophe in one string and a double quote in another lose a marker's event. */
  lemma MixedQuotesLoseTheEvent()
    ensures var p := WaveAgentDone("'", "\"", true, None);
            SliceEvents(QuotedText(p)) != [EventOf(p)]
  {
    hide SliceEvents, QuotedText, Troubled, ParseMarkerSlice, ToEvent, PayloadFields, Text;
    var p := WaveAgentDone("'", "\"", true, None);
    MarkerGivesEvent(p);
    HoldsQuote(Strings(p)[1], 0);
    assert Strings(p)[0][0] == '\'';
  }

  lemma HoldsQuote(s: string, i: nat)
    requires i < |s| && s[i] == '"'
    ensures Troubled(s)
  {
  }
}
