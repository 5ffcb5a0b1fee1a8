/**
 What a session projection shows, told from the stream alone: the list of the accepted events fixes the
 status, the current turn, the tool calls, the order of everything in the block list, and what the session
 waits for.
 */
module SessionStory {
  import opened Sequences
  import opened Wrappers
  import opened SessionProjection
  import Decimal

  /** The events of a stream whose ids are not in the window when they arrive, normalized. */
  function Accepted(window: seq<string>, es: seq<Envelope>): seq<Envelope>
    decreases |es|
  {
    if es == [] then []
    else if GetEventId(es[0]) in window then Accepted(window, es[1..])
    else [Normalize(es[0])] + Accepted(LastOf(window + [GetEventId(es[0])], WINDOW), es[1..])
  }

  // ---------------------------------------------------------------- what single events say

  /** The status that an event sets whatever came before it. */
  function Announced(e: Event): Option<Status> {
    match e
    case TurnStarted(_) => Some(Running)
    case TurnResumed(_) => Some(Running)
    case Text(_) => Some(Running)
    case Thinking(_) => Some(Running)
    case TextComplete(_) => Some(Running)
    case ToolCallStart(_, _, _) => Some(Running)
    case AnswerSubmitted => Some(Running)
    case QuestionResolved => Some(Running)
    case TurnAwaitingUser(_) => Some(AwaitingUser)
    case Question(_, _, _, _, _, _, _) => Some(AwaitingUser)
    case SessionAwaitingUser(_, _) => Some(AwaitingUser)
    case JobCompleted => Some(Completed)
    case JobFailed => Some(Failed)
    case SessionError => Some(Failed)
    case JobCancelled => Some(Cancelled)
    case _ => None
  }

  /** The turn an envelope names. */
  function NamedTurn(e: Envelope): Option<string> {
    match e.event
    case TurnStarted(turnId) => Some(turnId)
    case TurnAwaitingUser(turnId) => Some(turnId)
    case TurnResumed(turnId) => Some(turnId)
    case _ => e.turnId
  }

  predicate CallsTool(e: Event, id: CallId) {
    (e.ToolCallStart? || e.ToolCallResult?) && e.toolCallId == id
  }

  function CallStatus(e: Event): ToolStatus {
    if e.ToolCallResult? then if e.success then ToolSuccess else ToolError else ToolRunning
  }

  function GivenInput(e: Event): Option<string> {
    if e.ToolCallStart? then e.inputPreview else None
  }

  function GivenOutput(e: Event): Option<string> {
    if e.ToolCallResult? then e.outputPreview else None
  }

  predicate IsText(e: Event) {
    e.Text? || e.Thinking? || e.TextComplete?
  }

  function TextSaid(e: Event): string {
    match e
    case Text(content) => content
    case Thinking(content) => content
    case TextComplete(fullText) => fullText
    case _ => ""
  }

  function Caption(e: Event): Option<string> {
    match e
    case Step(description) => Some(description)
    case FileRead(path) => Some("Read " + path)
    case FileWrite(path) => Some("Wrote " + path)
    case FileEdit(path) => Some("Edited " + path)
    case BashExecute(command) => Some("Ran " + command)
    case _ => None
  }

  /** Events after which no question is open. */
  predicate ClosesQuestion(e: Event) {
    || e.TurnStarted? || e.TurnCompleted? || e.TurnResumed? || e.AnswerSubmitted? || e.QuestionResolved?
    || e.SessionAwaitingUser? || e.JobCompleted?
  }

  /** Events after which no follow-up prompt is pending. */
  predicate ClosesFollowUp(e: Event) {
    || e.TurnStarted? || e.TurnCompleted? || e.TurnResumed? || e.AnswerSubmitted? || e.Question? || e.JobCompleted?
  }

  function Asked(e: Envelope, turnId: Option<string>): ActiveQuestion
    requires e.event.Question?
  {
    var q := e.event;
    ActiveQuestion(GetQuestionId(e), turnId, q.questionText, GetOr(q.options, []), q.questions,
                   NonEmpty(q.questionType), q.expiresAt, GetOr(q.required, true))
  }

  // ---------------------------------------------------------------- along the accepted events

  function StatusAfter(acc: seq<Envelope>): Status {
    if acc == [] then Idle
    else
      var before, e := StatusAfter(acc[..|acc| - 1]), acc[|acc| - 1].event;
      if Announced(e).Some? then Announced(e).value
      else if e.TurnCompleted? then if before.Failed? || before.Cancelled? then before else Idle
      else if e.SessionIdle? then if before.Completed? || before.Failed? || before.Cancelled? then before else Idle
      else before
  }

  function TurnAfter(acc: seq<Envelope>): Option<string> {
    if acc == [] then None
    else
      var e := acc[|acc| - 1];
      var named := OrElse(NamedTurn(e), TurnAfter(acc[..|acc| - 1]));
      if e.event.TurnCompleted? && named == Some(e.event.turnId) then None else named
  }

  /** The turn that the i-th accepted event belongs to. */
  function TurnAt(acc: seq<Envelope>, i: nat): Option<string>
    requires i < |acc|
  {
    OrElse(acc[i].turnId, TurnAfter(acc[..i]))
  }

  function ToolAfter(acc: seq<Envelope>, id: CallId): Option<ToolCall> {
    if acc == [] then None
    else
      var before, e := ToolAfter(acc[..|acc| - 1], id), acc[|acc| - 1];
      if !CallsTool(e.event, id) then before
      else
        var turn := TurnAt(acc, |acc| - 1);
        match before
        case None =>
          Some(ToolCall("tool-" + id.text, turn, id, e.event.toolName, CallStatus(e.event), GivenInput(e.event),
                        GivenOutput(e.event), e.sequenceNumber, e.sequenceNumber))
        case Some(c) =>
          Some(ToolCall(c.id, OrElse(c.turnId, turn), id, e.event.toolName, CallStatus(e.event),
                        OrElse(GivenInput(e.event), c.inputPreview), OrElse(GivenOutput(e.event), c.outputPreview),
                        c.firstSequence, e.sequenceNumber))
  }

  function QuestionAfter(acc: seq<Envelope>): Option<ActiveQuestion> {
    if acc == [] then None
    else
      var e := acc[|acc| - 1];
      if e.event.Question? then Some(Asked(e, TurnAt(acc, |acc| - 1)))
      else if ClosesQuestion(e.event) then None
      else QuestionAfter(acc[..|acc| - 1])
  }

  function FollowUpAfter(acc: seq<Envelope>): Option<FollowUp> {
    if acc == [] then None
    else
      var e := acc[|acc| - 1].event;
      if e.SessionAwaitingUser? then Some(FollowUp(e.prompt, e.expiresAt))
      else if ClosesFollowUp(e) then None
      else FollowUpAfter(acc[..|acc| - 1])
  }

  /** The highest number so far. */
  function HighestAfter(acc: seq<Envelope>): int {
    if acc == [] then -1
    else
      var before, n := HighestAfter(acc[..|acc| - 1]), acc[|acc| - 1].sequenceNumber;
      if before > n then before else n
  }

  /** How many events came with a number that is not above all before it. */
  function LateAfter(acc: seq<Envelope>): nat {
    if acc == [] then 0
    else
      var init := acc[..|acc| - 1];
      LateAfter(init) + if acc[|acc| - 1].sequenceNumber <= HighestAfter(init) then 1 else 0
  }

  function TimeAfter(acc: seq<Envelope>): string {
    if acc == [] || acc[|acc| - 1].occurredAt.None? then INITIAL.updatedAt else acc[|acc| - 1].occurredAt.value
  }

  // ---------------------------------------------------------------- the story of the block list

  /** A character said in a turn, the place of a tool call, or something that happened. */
  datatype Item =
    | Said(thinking: bool, saidIn: Option<string>, c: char)
    | ToolPlace(call: CallId)
    | Happened(id: string, kind: string, caption: string, happenedIn: Option<string>, sequence: int)

  function Spoken(thinking: bool, turnId: Option<string>, text: string): seq<Item> {
    seq(|text|, i requires 0 <= i < |text| => Said(thinking, turnId, text[i]))
  }

  function ItemsOf(b: Block): seq<Item> {
    match b
    case TextBlock(_, thinking, turnId, content, _, _) => Spoken(thinking, turnId, content)
    case ToolBlock(call) => [ToolPlace(call.toolCallId)]
    case EventBlock(id, turnId, kind, caption, sequence) => [Happened(id, kind, caption, turnId, sequence)]
  }

  function Items(blocks: seq<Block>): seq<Item> {
    if blocks == [] then [] else Items(blocks[..|blocks| - 1]) + ItemsOf(blocks[|blocks| - 1])
  }

  predicate CalledBefore(acc: seq<Envelope>, id: CallId) {
    exists i :: 0 <= i < |acc| && CallsTool(acc[i].event, id)
  }

  /** What the last accepted event adds to the story. */
  function LastItems(acc: seq<Envelope>): seq<Item>
    requires acc != []
  {
    var init, e, turn := acc[..|acc| - 1], acc[|acc| - 1], TurnAt(acc, |acc| - 1);
    if IsText(e.event) then Spoken(e.event.Thinking?, turn, TextSaid(e.event))
    else if e.event.ToolCallStart? || e.event.ToolCallResult? then
      if CalledBefore(init, e.event.toolCallId) then [] else [ToolPlace(e.event.toolCallId)]
    else if Caption(e.event).Some? then
      [Happened("event-" + Decimal.ToString(e.sequenceNumber), Kind(e.event), Caption(e.event).value, turn,
                e.sequenceNumber)]
    else []
  }

  function Story(acc: seq<Envelope>): seq<Item> {
    if acc == [] then [] else Story(acc[..|acc| - 1]) + LastItems(acc)
  }

  lemma ItemsAppend(blocks: seq<Block>, b: Block)
    ensures Items(blocks + [b]) == Items(blocks) + ItemsOf(b)
  {
    assert (blocks + [b])[..|blocks|] == blocks;
  }

  lemma {:induction false} ItemsReplace(blocks: seq<Block>, i: nat, b: Block)
    requires i < |blocks| && ItemsOf(blocks[i]) == ItemsOf(b)
    ensures Items(blocks[i := b]) == Items(blocks)
  {
    hide ItemsOf;
    var n := |blocks| - 1;
    if i < n {
      assert blocks[i := b][..n] == blocks[..n][i := b];
      ItemsReplace(blocks[..n], i, b);
    } else {
      assert blocks[i := b][..n] == blocks[..n];
    }
  }

  lemma ItemsMerge(blocks: seq<Block>, b: Block, content: string)
    requires blocks != [] && b.TextBlock? && blocks[|blocks| - 1].TextBlock?
    requires var last := blocks[|blocks| - 1];
             b.thinking == last.thinking && b.turnId == last.turnId && b.content == last.content + content
    ensures Items(blocks[|blocks| - 1 := b]) == Items(blocks) + Spoken(b.thinking, b.turnId, content)
  {
    var n, last := |blocks| - 1, blocks[|blocks| - 1];
    assert blocks[n := b][..n] == blocks[..n];
    assert ItemsOf(b) == ItemsOf(last) + Spoken(b.thinking, b.turnId, content);
    assert Items(blocks[..n]) + (ItemsOf(last) + Spoken(b.thinking, b.turnId, content)) ==
           Items(blocks[..n]) + ItemsOf(last) + Spoken(b.thinking, b.turnId, content);
  }

  lemma TextTells(p: Projection, e: Envelope, thinking: bool, content: string)
    ensures Items(AppendOrMergeText(p, e, thinking, content).blocks) ==
            Items(p.blocks) + Spoken(thinking, OrElse(e.turnId, p.currentTurnId), content)
  {
    hide Items, Spoken;
    var q := AppendOrMergeText(p, e, thinking, content);
    var n := |p.blocks|;
    if |q.blocks| == n {
      ItemsMerge(p.blocks, q.blocks[n - 1], content);
    } else {
      ItemsAppend(p.blocks, q.blocks[n]);
    }
  }

  lemma UpsertTells(p: Projection, e: Envelope, id: CallId, name: string, status: ToolStatus, input: Option<string>,
                    output: Option<string>)
    requires Sound(p.blocks, p.activeToolCalls)
    ensures Items(UpsertToolCall(p, e, id, name, status, input, output).blocks) ==
            Items(p.blocks) + if id in p.activeToolCalls then [] else [ToolPlace(id)]
  {
    hide Items, OrElse, Sound, ToolIndex;
    var q := UpsertToolCall(p, e, id, name, status, input, output);
    var next := ToolBlock(q.activeToolCalls[id]);
    var i := ToolIndex(p.blocks, id);
    ToolIndexIn(p.blocks, p.activeToolCalls, id);
    if i < |p.blocks| {
      ItemsReplace(p.blocks, i, next);
      assert Items(p.blocks) + [] == Items(p.blocks);
    } else {
      ItemsAppend(p.blocks, next);
    }
  }

  /** The index of active calls has exactly the ids that have a block. */
  lemma ToolIndexIn(blocks: seq<Block>, active: map<CallId, ToolCall>, id: CallId)
    requires Sound(blocks, active)
    ensures ToolIndex(blocks, id) < |blocks| <==> id in active
  {
    hide OneBlockPerTool, NothingToMerge, ToolIndex;
    ToolsHaveBlocks(blocks, id);
    if id in active {
      var i :| 0 <= i < |blocks| && blocks[i].ToolBlock? && blocks[i].call.toolCallId == id;
    }
  }

  lemma {:induction false} ToolsHaveBlocks(blocks: seq<Block>, id: CallId)
    ensures id in ToolsOf(blocks) <==>
            exists i :: 0 <= i < |blocks| && blocks[i].ToolBlock? && blocks[i].call.toolCallId == id
  {
    if blocks != [] {
      var n := |blocks| - 1;
      ToolsHaveBlocks(blocks[..n], id);
      assert forall i | 0 <= i < n :: blocks[..n][i] == blocks[i];
    }
  }

  // ---------------------------------------------------------------- one accepted event

  /** The parts of a projection that are not the block list, as the accepted events tell them. */
  ghost predicate ShowsState(p: Projection, acc: seq<Envelope>) {
    && p.status == StatusAfter(acc)
    && p.currentTurnId == TurnAfter(acc)
    && p.activeQuestion == QuestionAfter(acc)
    && p.pendingFollowUp == FollowUpAfter(acc)
  }

  ghost predicate ShowsNumbers(p: Projection, acc: seq<Envelope>) {
    && p.lastSequenceNumber == HighestAfter(acc) && p.outOfOrderCount == LateAfter(acc)
    && p.updatedAt == TimeAfter(acc)
  }

  ghost predicate ShowsTools(active: map<CallId, ToolCall>, acc: seq<Envelope>) {
    forall id :: ToolAfter(acc, id) == if id in active then Some(active[id]) else None
  }

  ghost predicate Shows(p: Projection, acc: seq<Envelope>) {
    && ShowsState(p, acc) && ShowsNumbers(p, acc) && ShowsTools(p.activeToolCalls, acc)
    && Items(p.blocks) == Story(acc) && Sound(p.blocks, p.activeToolCalls)
  }

  lemma Prefix(acc: seq<Envelope>, e: Envelope)
    ensures var all := acc + [e];
            all[..|all| - 1] == acc && all[..|acc|] == acc && all[|acc|] == e && |all| == |acc| + 1
  {
  }

  lemma StateStep(p: Projection, m: Envelope, acc: seq<Envelope>)
    requires ShowsState(p, acc) && m.eventId.Some? && m.occurredAt.Some?
    ensures ShowsState(ApplyEvent(Remember(p, m), m), acc + [m])
  {
    hide ApplyEvent, ShowsState, Remember;
    var r := Remember(p, m);
    if IsText(m.event) || Caption(m.event).Some? || m.event.ToolCallStart? || m.event.ToolCallResult? {
      BlockEventKeepsState(r, m);
      BlockStateStep(p, m, acc, ApplyEvent(r, m));
    } else {
      OtherStateStep(p, m, acc);
    }
  }

  /** An event that changes blocks sets no more than the status besides. */
  lemma BlockEventKeepsState(r: Projection, m: Envelope)
    requires IsText(m.event) || Caption(m.event).Some? || m.event.ToolCallStart? || m.event.ToolCallResult?
    ensures var q := ApplyEvent(r, m);
            SameState(r.(status := if Announced(m.event).Some? then Announced(m.event).value else r.status), q)
  {
    hide AppendOrMergeText, UpsertToolCall, AppendEventBlock, GetQuestionId, OrElse;
    assert r.(status := r.status) == r;
    match m.event
    case Text(content) => TextKeepsState(r, m, false, content);
    case Thinking(content) => TextKeepsState(r, m, true, content);
    case TextComplete(fullText) => TextKeepsState(r, m, false, fullText);
    case ToolCallStart(id, name, input) => ToolKeepsState(r, m, Running, id, name, ToolRunning, input, None);
    case ToolCallResult(id, name, success, output) =>
      ToolKeepsState(r, m, r.status, id, name, if success then ToolSuccess else ToolError, None, output);
    case Step(description) => BlockKeepsState(r, m, description);
    case FileRead(path) => BlockKeepsState(r, m, "Read " + path);
    case FileWrite(path) => BlockKeepsState(r, m, "Wrote " + path);
    case FileEdit(path) => BlockKeepsState(r, m, "Edited " + path);
    case BashExecute(command) => BlockKeepsState(r, m, "Ran " + command);
  }

  lemma BlockStateStep(p: Projection, m: Envelope, acc: seq<Envelope>, q: Projection)
    requires ShowsState(p, acc) && m.eventId.Some? && m.occurredAt.Some?
    requires IsText(m.event) || Caption(m.event).Some? || m.event.ToolCallStart? || m.event.ToolCallResult?
    requires var r := Remember(p, m);
             SameState(r.(status := if Announced(m.event).Some? then Announced(m.event).value else r.status), q)
    ensures ShowsState(q, acc + [m])
  {
    hide LastOf, Asked, GetQuestionId;
    Prefix(acc, m);
  }

  lemma OtherStateStep(p: Projection, m: Envelope, acc: seq<Envelope>)
    requires ShowsState(p, acc) && m.eventId.Some? && m.occurredAt.Some?
    requires !IsText(m.event) && Caption(m.event).None? && !m.event.ToolCallStart? && !m.event.ToolCallResult?
    ensures ShowsState(ApplyEvent(Remember(p, m), m), acc + [m])
  {
    hide AppendOrMergeText, UpsertToolCall, AppendEventBlock, LastOf, GetQuestionId, NonEmpty;
    Prefix(acc, m);
  }

  /** Everything but the block list and the tools is the same. */
  ghost predicate SameState(p: Projection, q: Projection) {
    q == p.(blocks := q.blocks, activeToolCalls := q.activeToolCalls)
  }

  lemma TextKeepsState(p: Projection, e: Envelope, thinking: bool, content: string)
    ensures var q := p.(status := Running);
            var t := AppendOrMergeText(q, e, thinking, content);
            SameState(q, t) && t.activeToolCalls == p.activeToolCalls
  {
    hide OrElse;
  }

  lemma ToolKeepsState(p: Projection, e: Envelope, status: Status, id: CallId, name: string, toolStatus: ToolStatus,
                       input: Option<string>, output: Option<string>)
    ensures var q := p.(status := status); SameState(q, UpsertToolCall(q, e, id, name, toolStatus, input, output))
  {
    hide OrElse, ToolIndex;
  }

  lemma BlockKeepsState(p: Projection, e: Envelope, caption: string)
    ensures SameState(p, AppendEventBlock(p, e, caption))
    ensures AppendEventBlock(p, e, caption).activeToolCalls == p.activeToolCalls
  {
    hide OrElse, Kind;
  }

  lemma NumbersStep(p: Projection, m: Envelope, acc: seq<Envelope>)
    requires ShowsNumbers(p, acc) && m.eventId.Some? && m.occurredAt.Some?
    ensures ShowsNumbers(ApplyEvent(Remember(p, m), m), acc + [m])
  {
    hide ApplyEvent, LastOf, OrElse;
    Prefix(acc, m);
    ApplyKeepsTime(Remember(p, m), m);
    ApplyKeepsCounts(Remember(p, m), m);
  }

  lemma ApplyKeepsTime(p: Projection, e: Envelope)
    ensures ApplyEvent(p, e).updatedAt == p.updatedAt
  {
    hide AppendOrMergeText, UpsertToolCall, AppendEventBlock, GetQuestionId, OrElse;
    match e.event
    case Text(content) => TextKeepsState(p, e, false, content);
    case Thinking(content) => TextKeepsState(p, e, true, content);
    case TextComplete(fullText) => TextKeepsState(p, e, false, fullText);
    case ToolCallStart(id, name, input) => ToolKeepsState(p, e, Running, id, name, ToolRunning, input, None);
    case ToolCallResult(id, name, success, output) =>
      assert p.(status := p.status) == p;
      ToolKeepsState(p, e, p.status, id, name, if success then ToolSuccess else ToolError, None, output);
    case Step(description) => BlockKeepsState(p, e, description);
    case FileRead(path) => BlockKeepsState(p, e, "Read " + path);
    case FileWrite(path) => BlockKeepsState(p, e, "Wrote " + path);
    case FileEdit(path) => BlockKeepsState(p, e, "Edited " + path);
    case BashExecute(command) => BlockKeepsState(p, e, "Ran " + command);
    case _ =>
  }

  /** The call of an accepted tool event, from the call with its id before it. */
  lemma UpsertedCall(p: Projection, e: Envelope, id: CallId, name: string, status: ToolStatus, input: Option<string>,
                     output: Option<string>)
    ensures var q := UpsertToolCall(p, e, id, name, status, input, output);
            var turn := OrElse(e.turnId, p.currentTurnId);
            q.activeToolCalls == p.activeToolCalls[id :=
              if id in p.activeToolCalls then
                var c := p.activeToolCalls[id];
                ToolCall(c.id, OrElse(c.turnId, turn), id, name, status, OrElse(input, c.inputPreview),
                         OrElse(output, c.outputPreview), c.firstSequence, e.sequenceNumber)
              else
                ToolCall("tool-" + id.text, turn, id, name, status, input, output, e.sequenceNumber, e.sequenceNumber)]
  {
    hide OrElse, ToolIndex;
  }

  lemma OtherEventKeepsTools(p: Projection, e: Envelope)
    requires !e.event.ToolCallStart? && !e.event.ToolCallResult?
    ensures ApplyEvent(p, e).activeToolCalls == p.activeToolCalls
  {
    hide AppendOrMergeText, AppendEventBlock, GetQuestionId, OrElse;
    match e.event
    case Text(content) => TextKeepsState(p, e, false, content);
    case Thinking(content) => TextKeepsState(p, e, true, content);
    case TextComplete(fullText) => TextKeepsState(p, e, false, fullText);
    case Step(description) => BlockKeepsState(p, e, description);
    case FileRead(path) => BlockKeepsState(p, e, "Read " + path);
    case FileWrite(path) => BlockKeepsState(p, e, "Wrote " + path);
    case FileEdit(path) => BlockKeepsState(p, e, "Edited " + path);
    case BashExecute(command) => BlockKeepsState(p, e, "Ran " + command);
    case _ =>
  }

  /** A tool event as an update of the call index. */
  lemma ToolEventUpserts(p: Projection, e: Envelope)
    requires e.event.ToolCallStart? || e.event.ToolCallResult?
    ensures ApplyEvent(p, e) ==
            UpsertToolCall(if e.event.ToolCallStart? then p.(status := Running) else p, e, e.event.toolCallId,
                           e.event.toolName, CallStatus(e.event), GivenInput(e.event), GivenOutput(e.event))
  {
    hide UpsertToolCall;
  }

  lemma ToolsStep(p: Projection, m: Envelope, acc: seq<Envelope>)
    requires ShowsTools(p.activeToolCalls, acc) && p.currentTurnId == TurnAfter(acc)
    requires m.eventId.Some? && m.occurredAt.Some?
    ensures ShowsTools(ApplyEvent(Remember(p, m), m).activeToolCalls, acc + [m])
  {
    hide ApplyEvent, TurnAfter, CallStatus, GivenInput, GivenOutput, LastOf;
    var all, r := acc + [m], Remember(p, m);
    var q := ApplyEvent(r, m);
    Prefix(acc, m);
    if m.event.ToolCallStart? || m.event.ToolCallResult? {
      hide UpsertToolCall;
      ToolEventUpserts(r, m);
      UpsertedCall(if m.event.ToolCallStart? then r.(status := Running) else r, m, m.event.toolCallId,
                   m.event.toolName, CallStatus(m.event), GivenInput(m.event), GivenOutput(m.event));
    } else {
      OtherEventKeepsTools(r, m);
    }
    forall id ensures ToolAfter(all, id) == if id in q.activeToolCalls then Some(q.activeToolCalls[id]) else None {
      assert ToolAfter(acc, id) == if id in p.activeToolCalls then Some(p.activeToolCalls[id]) else None;
    }
  }

  lemma {:induction false} ToolIsCalled(acc: seq<Envelope>, id: CallId)
    ensures ToolAfter(acc, id).Some? <==> CalledBefore(acc, id)
  {
    if acc != [] {
      var n := |acc| - 1;
      ToolIsCalled(acc[..n], id);
      assert forall i | 0 <= i < n :: acc[..n][i] == acc[i];
    }
  }

  lemma CaptionTells(p: Projection, e: Envelope, caption: string)
    ensures Items(AppendEventBlock(p, e, caption).blocks) ==
            Items(p.blocks) + [Happened("event-" + Decimal.ToString(e.sequenceNumber), Kind(e.event), caption,
                                        OrElse(e.turnId, p.currentTurnId), e.sequenceNumber)]
  {
    hide Items, Kind, OrElse;
    ItemsAppend(p.blocks, AppendEventBlock(p, e, caption).blocks[|p.blocks|]);
  }

  /** The turn of the next accepted event, before and after its envelope's turn is noted. */
  lemma SameTurn(p: Projection, m: Envelope)
    requires m.eventId.Some? && m.occurredAt.Some?
    ensures var r := Remember(p, m);
            OrElse(m.turnId, r.currentTurnId) == OrElse(m.turnId, p.currentTurnId) && r.blocks == p.blocks
    ensures Remember(p, m).activeToolCalls == p.activeToolCalls
  {
    hide LastOf;
  }

  lemma StoryStep(p: Projection, m: Envelope, acc: seq<Envelope>)
    requires Items(p.blocks) == Story(acc) && Sound(p.blocks, p.activeToolCalls)
    requires ShowsTools(p.activeToolCalls, acc) && p.currentTurnId == TurnAfter(acc)
    requires m.eventId.Some? && m.occurredAt.Some?
    ensures Items(ApplyEvent(Remember(p, m), m).blocks) == Story(acc + [m])
  {
    hide Items, Sound, ApplyEvent, OrElse, TurnAfter, Remember, Spoken, ShowsTools, CalledBefore, Kind, Story,
         LastItems;
    var r, turn := Remember(p, m), OrElse(m.turnId, TurnAfter(acc));
    SameTurn(p, m);
    StoryAppend(acc, m);
    if IsText(m.event) {
      TextStory(r, m);
    } else if m.event.ToolCallStart? || m.event.ToolCallResult? {
      ToolStory(r, m);
      CalledInIndex(p.activeToolCalls, acc, m.event.toolCallId);
    } else {
      OtherStory(r, m);
    }
    AddedItems(acc, m);
  }

  lemma StoryAppend(acc: seq<Envelope>, m: Envelope)
    ensures Story(acc + [m]) == Story(acc) + LastItems(acc + [m])
  {
    hide LastItems;
    Prefix(acc, m);
  }

  function CaptionItems(m: Envelope, turn: Option<string>): seq<Item> {
    if Caption(m.event).None? then []
    else
      [Happened("event-" + Decimal.ToString(m.sequenceNumber), Kind(m.event), Caption(m.event).value, turn,
                m.sequenceNumber)]
  }

  lemma AddedItems(acc: seq<Envelope>, m: Envelope)
    ensures LastItems(acc + [m]) ==
            var turn := OrElse(m.turnId, TurnAfter(acc));
            if IsText(m.event) then Spoken(m.event.Thinking?, turn, TextSaid(m.event))
            else if m.event.ToolCallStart? || m.event.ToolCallResult? then
              if CalledBefore(acc, m.event.toolCallId) then [] else [ToolPlace(m.event.toolCallId)]
            else CaptionItems(m, turn)
  {
    hide Spoken, CalledBefore, Kind, TurnAfter, OrElse;
    Prefix(acc, m);
  }

  lemma TextStory(r: Projection, m: Envelope)
    requires IsText(m.event)
    ensures Items(ApplyEvent(r, m).blocks) ==
            Items(r.blocks) + Spoken(m.event.Thinking?, OrElse(m.turnId, r.currentTurnId), TextSaid(m.event))
  {
    hide Items, Spoken, AppendOrMergeText, OrElse;
    TextTells(r.(status := Running), m, m.event.Thinking?, TextSaid(m.event));
  }

  lemma ToolStory(r: Projection, m: Envelope)
    requires (m.event.ToolCallStart? || m.event.ToolCallResult?) && Sound(r.blocks, r.activeToolCalls)
    ensures Items(ApplyEvent(r, m).blocks) ==
            Items(r.blocks) + if m.event.toolCallId in r.activeToolCalls then [] else [ToolPlace(m.event.toolCallId)]
  {
    hide Items, Sound, UpsertToolCall, ApplyEvent, CallStatus, GivenInput, GivenOutput;
    ToolEventUpserts(r, m);
    UpsertTells(if m.event.ToolCallStart? then r.(status := Running) else r, m, m.event.toolCallId, m.event.toolName,
                CallStatus(m.event), GivenInput(m.event), GivenOutput(m.event));
  }

  lemma OtherStory(r: Projection, m: Envelope)
    requires !IsText(m.event) && !m.event.ToolCallStart? && !m.event.ToolCallResult?
    ensures Items(ApplyEvent(r, m).blocks) == Items(r.blocks) + CaptionItems(m, OrElse(m.turnId, r.currentTurnId))
  {
    hide Items, AppendEventBlock, OrElse, Kind, GetQuestionId;
    assert Items(r.blocks) + [] == Items(r.blocks);
    match m.event
    case Step(description) => CaptionTells(r, m, description);
    case FileRead(path) => CaptionTells(r, m, "Read " + path);
    case FileWrite(path) => CaptionTells(r, m, "Wrote " + path);
    case FileEdit(path) => CaptionTells(r, m, "Edited " + path);
    case BashExecute(command) => CaptionTells(r, m, "Ran " + command);
    case _ =>
  }

  lemma CalledInIndex(active: map<CallId, ToolCall>, acc: seq<Envelope>, id: CallId)
    requires ShowsTools(active, acc)
    ensures id in active <==> CalledBefore(acc, id)
  {
    hide CalledBefore;
    ToolIsCalled(acc, id);
    assert ToolAfter(acc, id) == if id in active then Some(active[id]) else None;
  }

  lemma AcceptedStep(p: Projection, e: Envelope, acc: seq<Envelope>)
    requires Shows(p, acc) && GetEventId(e) !in p.processedEventIds
    ensures Shows(Reduce(p, e), acc + [Normalize(e)])
  {
    hide ShowsState, ShowsNumbers, ShowsTools, Items, Story, Sound, ApplyEvent, Remember, TurnAfter, OrElse,
         GetEventId, GetTurnId, GetOccurredAt, TextOf, SaidText;
    var m := Normalize(e);
    assert p.currentTurnId == TurnAfter(acc) by {
      TurnShown(p, acc);
    }
    StateStep(p, m, acc);
    NumbersStep(p, m, acc);
    ToolsStep(p, m, acc);
    StoryStep(p, m, acc);
    ReduceKeeps(p, e, false);
  }

  lemma TurnShown(p: Projection, acc: seq<Envelope>)
    requires ShowsState(p, acc)
    ensures p.currentTurnId == TurnAfter(acc)
  {
  }

  lemma CountIsNoStory(p: Projection, acc: seq<Envelope>, n: nat)
    requires Shows(p, acc)
    ensures Shows(AddDuplicates(p, n), acc)
  {
    hide Items, Story, Sound, ShowsTools, StatusAfter, TurnAfter, QuestionAfter, FollowUpAfter, HighestAfter, LateAfter,
         TimeAfter;
  }

  lemma {:induction false} FoldShows(p: Projection, es: seq<Envelope>, acc: seq<Envelope>)
    requires Shows(p, acc)
    ensures Shows(Fold(p, es), acc + Accepted(p.processedEventIds, es))
    decreases |es|
  {
    hide Shows, Reduce, GetEventId, LastOf;
    if es == [] {
      assert acc + [] == acc;
    } else if GetEventId(es[0]) in p.processedEventIds {
      RejectCounts(p, es[0]);
      CountIsNoStory(p, acc, 1);
      FoldShows(Reduce(p, es[0]), es[1..], acc);
    } else {
      AcceptedStep(p, es[0], acc);
      AcceptRemembers(p, es[0]);
      FoldShows(Reduce(p, es[0]), es[1..], acc + [Normalize(es[0])]);
      var rest := Accepted(LastOf(p.processedEventIds + [GetEventId(es[0])], WINDOW), es[1..]);
      assert acc + [Normalize(es[0])] + rest == acc + ([Normalize(es[0])] + rest);
    }
  }

  lemma NothingShown()
    ensures Shows(INITIAL, [])
  {
    NoBlocks();
  }

  /** Everything a session projection shows is what its accepted events tell. */
  lemma StreamShows(es: seq<Envelope>)
    ensures Shows(Fold(INITIAL, es), Accepted([], es))
  {
    hide Shows, Fold, Accepted;
    NothingShown();
    FoldShows(INITIAL, es, []);
    assert [] + Accepted([], es) == Accepted([], es);
  }

  // ---------------------------------------------------------------- the status

  /** The last announced status stays if it is a failure or a cancellation; a completed job goes idle when a
      turn completes after it; any other goes idle when a turn completes or the session idles after it. */
  function Settled(announced: Status, turnCompletes: bool, sessionIdles: bool): Status {
    if announced.Failed? || announced.Cancelled? then announced
    else if turnCompletes || (sessionIdles && !announced.Completed?) then Idle
    else announced
  }

  ghost predicate TurnCompletesAfter(acc: seq<Envelope>, k: int)
    requires k >= -1
  {
    exists j :: k < j < |acc| && acc[j].event.TurnCompleted?
  }

  ghost predicate IdlesAfter(acc: seq<Envelope>, k: int)
    requires k >= -1
  {
    exists j :: k < j < |acc| && acc[j].event.SessionIdle?
  }

  lemma {:induction false} StatusSettles(acc: seq<Envelope>, k: nat)
    requires k < |acc| && Announced(acc[k].event).Some?
    requires forall j | k < j < |acc| :: Announced(acc[j].event).None?
    ensures StatusAfter(acc) ==
            Settled(Announced(acc[k].event).value, TurnCompletesAfter(acc, k), IdlesAfter(acc, k))
    decreases |acc|
  {
    hide Announced;
    var n := |acc| - 1;
    if k < n {
      var init := acc[..n];
      assert forall j | 0 <= j < n :: init[j] == acc[j];
      StatusSettles(init, k);
      assert TurnCompletesAfter(acc, k) <==> TurnCompletesAfter(init, k) || acc[n].event.TurnCompleted?;
      assert IdlesAfter(acc, k) <==> IdlesAfter(init, k) || acc[n].event.SessionIdle?;
    }
  }

  lemma {:induction false} StatusStaysIdle(acc: seq<Envelope>)
    requires forall j | 0 <= j < |acc| :: Announced(acc[j].event).None?
    ensures StatusAfter(acc) == Idle
  {
    hide Announced;
    if acc != [] {
      StatusStaysIdle(acc[..|acc| - 1]);
    }
  }

  /** The status a stream ends in is fixed by the last accepted event that announces one, and by what settles
      after it; a stream without such an event is idle. */
  lemma StatusIsLastAnnounced(es: seq<Envelope>, k: int)
    requires var acc := Accepted([], es);
             && -1 <= k < |acc| && (k >= 0 ==> Announced(acc[k].event).Some?)
             && forall j | k < j < |acc| :: Announced(acc[j].event).None?
    ensures var acc := Accepted([], es);
            Fold(INITIAL, es).status ==
            if k < 0 then Idle
            else Settled(Announced(acc[k].event).value, TurnCompletesAfter(acc, k), IdlesAfter(acc, k))
  {
    hide Fold, Accepted, Announced, StatusAfter, Items, Story, Sound, ShowsTools, ShowsNumbers;
    StreamShows(es);
    if k < 0 {
      StatusStaysIdle(Accepted([], es));
    } else {
      StatusSettles(Accepted([], es), k);
    }
  }

  /** A stream whose last accepted event reports a failure ends failed. */
  lemma FailureIsShown(es: seq<Envelope>)
    requires var acc := Accepted([], es);
             acc != [] && (acc[|acc| - 1].event.JobFailed? || acc[|acc| - 1].event.SessionError?)
    ensures Fold(INITIAL, es).status == Failed
  {
    hide Fold, Accepted;
    StatusIsLastAnnounced(es, |Accepted([], es)| - 1);
  }

  // ---------------------------------------------------------------- the turn

  lemma {:induction false} TurnIsNamed(acc: seq<Envelope>, k: int)
    requires -1 <= k < |acc| && (k >= 0 ==> NamedTurn(acc[k]).Some?)
    requires forall j | k < j < |acc| :: NamedTurn(acc[j]).None?
    ensures TurnAfter(acc) ==
            if k >= 0 && !(exists j :: k <= j < |acc| && acc[j].event == TurnCompleted(NamedTurn(acc[k]).value))
            then NamedTurn(acc[k]) else None
    decreases |acc|
  {
    hide NamedTurn;
    var n := |acc| - 1;
    if 0 <= k == n {
    } else if acc != [] {
      var init := acc[..n];
      assert forall j | 0 <= j < n :: init[j] == acc[j];
      TurnIsNamed(init, k);
      if k >= 0 {
        var done := TurnCompleted(NamedTurn(acc[k]).value);
        assert (exists j :: k <= j < |acc| && acc[j].event == done) <==>
               (exists j :: k <= j < n && init[j].event == done) || acc[n].event == done;
      }
    }
  }

  /** The current turn is the last one an accepted event named, until a turn.completed of that turn. */
  lemma TurnIsLastNamed(es: seq<Envelope>, k: int)
    requires var acc := Accepted([], es);
             && -1 <= k < |acc| && (k >= 0 ==> NamedTurn(acc[k]).Some?)
             && forall j | k < j < |acc| :: NamedTurn(acc[j]).None?
    ensures var acc := Accepted([], es);
            Fold(INITIAL, es).currentTurnId ==
            if k >= 0 && !(exists j :: k <= j < |acc| && acc[j].event == TurnCompleted(NamedTurn(acc[k]).value))
            then NamedTurn(acc[k]) else None
  {
    hide Fold, Accepted, NamedTurn, TurnAfter, Items, Story, Sound, ShowsTools, ShowsNumbers;
    StreamShows(es);
    TurnIsNamed(Accepted([], es), k);
  }

  // ---------------------------------------------------------------- the tools

  /** i and k are the first and the last accepted events of a tool call. */
  ghost predicate SpansCalls(acc: seq<Envelope>, id: CallId, i: nat, k: nat) {
    && i <= k < |acc| && CallsTool(acc[i].event, id) && CallsTool(acc[k].event, id)
    && forall j | 0 <= j < |acc| && CallsTool(acc[j].event, id) :: i <= j <= k
  }

  lemma {:induction false} ToolSpans(acc: seq<Envelope>, id: CallId, i: nat, k: nat)
    requires SpansCalls(acc, id, i, k)
    ensures var t := ToolAfter(acc, id);
            && t.Some? && t.value.id == "tool-" + id.text && t.value.toolCallId == id
            && t.value.toolName == acc[k].event.toolName && t.value.status == CallStatus(acc[k].event)
            && t.value.firstSequence == acc[i].sequenceNumber && t.value.lastSequence == acc[k].sequenceNumber
    decreases |acc|
  {
    hide TurnAfter, OrElse, GivenInput, GivenOutput, CallStatus;
    var n := |acc| - 1;
    var init := acc[..n];
    assert forall j | 0 <= j < n :: init[j] == acc[j];
    ToolIsCalled(init, id);
    if k < n {
      ToolSpans(init, id, i, k);
    } else if i < n {
      assert init[i] == acc[i];
      var m := LastCall(init, id);
      ToolSpans(init, id, i, m);
    } else {
      assert !CalledBefore(init, id);
    }
  }

  lemma {:induction false} LastCall(acc: seq<Envelope>, id: CallId) returns (k: nat)
    requires CalledBefore(acc, id)
    ensures k < |acc| && CallsTool(acc[k].event, id)
    ensures forall j | k < j < |acc| :: !CallsTool(acc[j].event, id)
  {
    var n := |acc| - 1;
    if CallsTool(acc[n].event, id) {
      k := n;
    } else {
      var init := acc[..n];
      assert forall j | 0 <= j < n :: init[j] == acc[j];
      assert CalledBefore(init, id) by {
        var i :| 0 <= i < |acc| && CallsTool(acc[i].event, id);
        assert init[i] == acc[i];
      }
      k := LastCall(init, id);
    }
  }

  /** The preview that the j-th accepted event gives to a call. */
  function PreviewAt(acc: seq<Envelope>, id: CallId, j: nat, input: bool): Option<string>
    requires j < |acc|
  {
    var e := acc[j].event;
    if !CallsTool(e, id) then None else if input then GivenInput(e) else GivenOutput(e)
  }

  lemma {:induction false} ToolPreviews(acc: seq<Envelope>, id: CallId, k: int, input: bool)
    requires ToolAfter(acc, id).Some? && -1 <= k < |acc| && (k >= 0 ==> PreviewAt(acc, id, k, input).Some?)
    requires forall j: nat | k < j < |acc| :: PreviewAt(acc, id, j, input).None?
    ensures var t := ToolAfter(acc, id).value;
            (if input then t.inputPreview else t.outputPreview) == if k < 0 then None else PreviewAt(acc, id, k, input)
    decreases |acc|
  {
    hide GivenInput, GivenOutput, CallStatus, TurnAfter;
    var n := |acc| - 1;
    var init := acc[..n];
    if k < n && ToolAfter(init, id).Some? {
      assert forall j: nat | j < n :: PreviewAt(init, id, j, input) == PreviewAt(acc, id, j, input);
      ToolPreviews(init, id, k, input);
      assert PreviewAt(acc, id, n, input).None?;
    } else if k < n {
      ToolIsCalled(init, id);
      assert forall j: nat | j < n :: !CallsTool(init[j].event, id) && init[j] == acc[j];
      assert PreviewAt(acc, id, n, input).None?;
      assert k < 0;
    } else {
      assert PreviewAt(acc, id, n, input).Some?;
    }
  }

  /** The turn that the j-th accepted event gives to a call. */
  function CallTurn(acc: seq<Envelope>, id: CallId, j: nat): Option<string>
    requires j < |acc|
  {
    if CallsTool(acc[j].event, id) then TurnAt(acc, j) else None
  }

  lemma {:induction false} ToolTurn(acc: seq<Envelope>, id: CallId, k: nat)
    requires ToolAfter(acc, id).Some? && k <= |acc| && (k < |acc| ==> CallTurn(acc, id, k).Some?)
    requires forall j: nat | j < k :: CallTurn(acc, id, j).None?
    ensures ToolAfter(acc, id).value.turnId == if k < |acc| then CallTurn(acc, id, k) else None
    decreases |acc|
  {
    hide GivenInput, GivenOutput, CallStatus, TurnAfter;
    var n := |acc| - 1;
    var init := acc[..n];
    forall j: nat | j < n ensures CallTurn(init, id, j) == CallTurn(acc, id, j) {
      assert init[..j] == acc[..j];
    }
    assert CallTurn(acc, id, n) == if CallsTool(acc[n].event, id) then TurnAt(acc, n) else None;
    if ToolAfter(init, id).Some? {
      ToolTurn(init, id, if k < n then k else n);
    } else {
      ToolIsCalled(init, id);
    }
  }

  /** For every stream and tool call: it is shown exactly if an accepted event is a call with its id; its name
      and status are those of the last such event, its first and last numbers those of the first and last. */
  lemma ToolShowsItsCalls(es: seq<Envelope>, id: CallId, i: nat, k: nat)
    ensures id in Fold(INITIAL, es).activeToolCalls <==> CalledBefore(Accepted([], es), id)
    ensures var acc := Accepted([], es);
            SpansCalls(acc, id, i, k) && id in Fold(INITIAL, es).activeToolCalls ==>
              var t := Fold(INITIAL, es).activeToolCalls[id];
              && t.id == "tool-" + id.text && t.toolCallId == id
              && t.toolName == acc[k].event.toolName && t.status == CallStatus(acc[k].event)
              && t.firstSequence == acc[i].sequenceNumber && t.lastSequence == acc[k].sequenceNumber
  {
    hide Fold, Accepted, ToolAfter, SpansCalls, CallStatus, Items, Story, Sound, ShowsState, ShowsNumbers;
    StreamShows(es);
    var acc, p := Accepted([], es), Fold(INITIAL, es);
    CalledInIndex(p.activeToolCalls, acc, id);
    assert ToolAfter(acc, id) == if id in p.activeToolCalls then Some(p.activeToolCalls[id]) else None;
    if SpansCalls(acc, id, i, k) {
      ToolSpans(acc, id, i, k);
    }
  }

  /** Its input and output are the last ones that an accepted event of the call gave, if any. */
  lemma ToolShowsLastPreview(es: seq<Envelope>, id: CallId, k: int, input: bool)
    requires id in Fold(INITIAL, es).activeToolCalls
    requires var acc := Accepted([], es);
             && -1 <= k < |acc| && (k >= 0 ==> PreviewAt(acc, id, k, input).Some?)
             && forall j: nat | k < j < |acc| :: PreviewAt(acc, id, j, input).None?
    ensures var t := Fold(INITIAL, es).activeToolCalls[id];
            (if input then t.inputPreview else t.outputPreview) ==
            if k < 0 then None else PreviewAt(Accepted([], es), id, k, input)
  {
    hide Fold, Accepted, ToolAfter, PreviewAt, Items, Story, Sound, ShowsState, ShowsNumbers;
    StreamShows(es);
    var acc, p := Accepted([], es), Fold(INITIAL, es);
    assert ToolAfter(acc, id) == if id in p.activeToolCalls then Some(p.activeToolCalls[id]) else None;
    ToolPreviews(acc, id, k, input);
  }

  /** Its turn is the first one that an accepted event of the call was in, if any. */
  lemma ToolShowsFirstTurn(es: seq<Envelope>, id: CallId, k: nat)
    requires id in Fold(INITIAL, es).activeToolCalls
    requires var acc := Accepted([], es);
             && k <= |acc| && (k < |acc| ==> CallTurn(acc, id, k).Some?)
             && forall j: nat | j < k :: CallTurn(acc, id, j).None?
    ensures var acc := Accepted([], es);
            Fold(INITIAL, es).activeToolCalls[id].turnId == if k < |acc| then CallTurn(acc, id, k) else None
  {
    hide Fold, Accepted, ToolAfter, CallTurn, Items, Story, Sound, ShowsState, ShowsNumbers;
    StreamShows(es);
    var acc, p := Accepted([], es), Fold(INITIAL, es);
    assert ToolAfter(acc, id) == if id in p.activeToolCalls then Some(p.activeToolCalls[id]) else None;
    ToolTurn(acc, id, k);
  }

  // ---------------------------------------------------------------- what the session waits for

  lemma {:induction false} QuestionIsLast(acc: seq<Envelope>, k: int)
    requires -1 <= k < |acc| && (k >= 0 ==> acc[k].event.Question? || ClosesQuestion(acc[k].event))
    requires forall j | k < j < |acc| :: !acc[j].event.Question? && !ClosesQuestion(acc[j].event)
    ensures QuestionAfter(acc) ==
            if k >= 0 && acc[k].event.Question? then Some(Asked(acc[k], TurnAt(acc, k))) else None
    decreases |acc|
  {
    hide ClosesQuestion, Asked, TurnAfter;
    var n := |acc| - 1;
    if k < n {
      var init := acc[..n];
      QuestionIsLast(init, k);
      if k >= 0 {
        assert init[..k] == acc[..k];
      }
    }
  }

  /** The active question is that of the last accepted event that asks or closes one, if it asks. */
  lemma LastQuestionIsActive(es: seq<Envelope>, k: int)
    requires var acc := Accepted([], es);
             && -1 <= k < |acc| && (k >= 0 ==> acc[k].event.Question? || ClosesQuestion(acc[k].event))
             && forall j | k < j < |acc| :: !acc[j].event.Question? && !ClosesQuestion(acc[j].event)
    ensures var acc := Accepted([], es);
            Fold(INITIAL, es).activeQuestion ==
            if k >= 0 && acc[k].event.Question? then Some(Asked(acc[k], TurnAt(acc, k))) else None
  {
    hide Fold, Accepted, ClosesQuestion, Asked, TurnAt, QuestionAfter, Items, Story, Sound, ShowsTools, ShowsNumbers;
    StreamShows(es);
    QuestionIsLast(Accepted([], es), k);
  }

  lemma {:induction false} FollowUpIsLast(acc: seq<Envelope>, k: int)
    requires -1 <= k < |acc| && (k >= 0 ==> acc[k].event.SessionAwaitingUser? || ClosesFollowUp(acc[k].event))
    requires forall j | k < j < |acc| :: !acc[j].event.SessionAwaitingUser? && !ClosesFollowUp(acc[j].event)
    ensures FollowUpAfter(acc) ==
            if k >= 0 && acc[k].event.SessionAwaitingUser? then
              Some(FollowUp(acc[k].event.prompt, acc[k].event.expiresAt))
            else None
    decreases |acc|
  {
    hide ClosesFollowUp;
    var n := |acc| - 1;
    if k < n {
      FollowUpIsLast(acc[..n], k);
    }
  }

  /** The pending follow-up is the prompt of the last accepted event that prompts or closes one, if it prompts. */
  lemma LastPromptIsPending(es: seq<Envelope>, k: int)
    requires var acc := Accepted([], es);
             && -1 <= k < |acc| && (k >= 0 ==> acc[k].event.SessionAwaitingUser? || ClosesFollowUp(acc[k].event))
             && forall j | k < j < |acc| :: !acc[j].event.SessionAwaitingUser? && !ClosesFollowUp(acc[j].event)
    ensures var acc := Accepted([], es);
            Fold(INITIAL, es).pendingFollowUp ==
            if k >= 0 && acc[k].event.SessionAwaitingUser? then
              Some(FollowUp(acc[k].event.prompt, acc[k].event.expiresAt))
            else None
  {
    hide Fold, Accepted, ClosesFollowUp, FollowUpAfter, Items, Story, Sound, ShowsTools, ShowsNumbers;
    StreamShows(es);
    FollowUpIsLast(Accepted([], es), k);
  }

  // ---------------------------------------------------------------- numbers and blocks

  lemma {:induction false} HighestIsMax(acc: seq<Envelope>)
    ensures forall e | e in acc :: e.sequenceNumber <= HighestAfter(acc)
    ensures HighestAfter(acc) == -1 || exists e :: e in acc && e.sequenceNumber == HighestAfter(acc)
    ensures HighestAfter(acc) >= -1
  {
    if acc != [] {
      var init, last := acc[..|acc| - 1], acc[|acc| - 1];
      assert acc == init + [last];
      HighestIsMax(init);
    }
  }

  /** The last sequence number is the highest accepted one, or -1, and updatedAt the time of the last event. */
  lemma NumbersAreShown(es: seq<Envelope>)
    ensures var acc, p := Accepted([], es), Fold(INITIAL, es);
            && (forall e | e in acc :: e.sequenceNumber <= p.lastSequenceNumber)
            && (p.lastSequenceNumber == -1 || exists e :: e in acc && e.sequenceNumber == p.lastSequenceNumber)
            && p.outOfOrderCount == LateAfter(acc)
            && (acc != [] ==> acc[|acc| - 1].occurredAt == Some(p.updatedAt))
  {
    hide Fold, HighestAfter, LateAfter, Items, Story, Sound, ShowsTools, ShowsState;
    StreamShows(es);
    HighestIsMax(Accepted([], es));
    if Accepted([], es) != [] {
      AcceptedAreTimed([], es, |Accepted([], es)| - 1);
    }
  }

  lemma {:induction false} AcceptedAreTimed(window: seq<string>, es: seq<Envelope>, i: nat)
    requires i < |Accepted(window, es)|
    ensures Accepted(window, es)[i].occurredAt.Some?
    decreases |es|
  {
    hide GetEventId, LastOf;
    if GetEventId(es[0]) in window {
      AcceptedAreTimed(window, es[1..], i);
    } else if i > 0 {
      AcceptedAreTimed(LastOf(window + [GetEventId(es[0])], WINDOW), es[1..], i - 1);
    }
  }

  /** The block list tells the accepted events in their order: every character said with its type and turn,
      every tool call at the place of its first event, and every step, file and bash event with its caption. */
  lemma BlocksTellTheStory(es: seq<Envelope>)
    ensures Items(Fold(INITIAL, es).blocks) == Story(Accepted([], es))
  {
    hide Fold, Accepted, Items, Story, Sound, ShowsTools, ShowsNumbers, ShowsState;
    StreamShows(es);
  }

  /** A block that is already there keeps its place and kind; a text block is only ever extended while it is the
      last one, by the text and number of the event, and an event block never changes. */
  ghost predicate Extends(b: Block, c: Block, last: bool, e: Envelope) {
    match b
    case TextBlock(id, thinking, turnId, content, first, _) =>
      c == b || (last && IsText(e.event) &&
                 c == TextBlock(id, thinking, turnId, content + TextSaid(e.event), first, e.sequenceNumber))
    case ToolBlock(call) => c.ToolBlock? && c.call.toolCallId == call.toolCallId
    case EventBlock(_, _, _, _, _) => c == b
  }

  ghost predicate Grows(before: seq<Block>, after: seq<Block>, e: Envelope) {
    && |before| <= |after| <= |before| + 1
    && forall i | 0 <= i < |before| :: Extends(before[i], after[i], i == |before| - 1, e)
  }

  /** The last block after a text event carries its number and, if it is new, begins with it. */
  ghost predicate EndsInText(before: seq<Block>, after: seq<Block>, e: Envelope) {
    && after != [] && after[|after| - 1].TextBlock?
    && var b := after[|after| - 1];
       && b.lastSequence == e.sequenceNumber && b.thinking == e.event.Thinking?
       && (|after| > |before| ==>
             && b.firstSequence == e.sequenceNumber && b.content == TextSaid(e.event)
             && b.id == (if b.thinking then "thinking-" else "text-") + Decimal.ToString(e.sequenceNumber))
  }

  lemma TextGrows(p: Projection, e: Envelope)
    requires IsText(e.event)
    ensures var q := AppendOrMergeText(p, e, e.event.Thinking?, TextSaid(e.event));
            Grows(p.blocks, q.blocks, e) && EndsInText(p.blocks, q.blocks, e)
  {
    hide OrElse, TextSaid;
  }

  lemma ToolGrows(p: Projection, e: Envelope, id: CallId, name: string, status: ToolStatus, input: Option<string>,
                  output: Option<string>)
    ensures Grows(p.blocks, UpsertToolCall(p, e, id, name, status, input, output).blocks, e)
  {
    hide OrElse, TextSaid;
  }

  lemma EventGrows(p: Projection, e: Envelope, caption: string)
    ensures Grows(p.blocks, AppendEventBlock(p, e, caption).blocks, e)
  {
    hide OrElse, TextSaid, Kind;
  }

  lemma SameGrows(blocks: seq<Block>, e: Envelope)
    ensures Grows(blocks, blocks, e)
  {
    hide TextSaid;
  }

  lemma ApplyGrows(p: Projection, e: Envelope)
    ensures Grows(p.blocks, ApplyEvent(p, e).blocks, e)
    ensures IsText(e.event) ==> EndsInText(p.blocks, ApplyEvent(p, e).blocks, e)
  {
    hide Grows, EndsInText, AppendOrMergeText, UpsertToolCall, AppendEventBlock, GetQuestionId, OrElse;
    match e.event
    case Text(_) => TextGrows(p.(status := Running), e);
    case Thinking(_) => TextGrows(p.(status := Running), e);
    case TextComplete(_) => TextGrows(p.(status := Running), e);
    case ToolCallStart(id, name, input) => ToolGrows(p.(status := Running), e, id, name, ToolRunning, input, None);
    case ToolCallResult(id, name, success, output) =>
      ToolGrows(p, e, id, name, if success then ToolSuccess else ToolError, None, output);
    case Step(description) => EventGrows(p, e, description);
    case FileRead(path) => EventGrows(p, e, "Read " + path);
    case FileWrite(path) => EventGrows(p, e, "Wrote " + path);
    case FileEdit(path) => EventGrows(p, e, "Edited " + path);
    case BashExecute(command) => EventGrows(p, e, "Ran " + command);
    case _ => SameGrows(p.blocks, e);
  }

  /** One more event of a stream: blocks stay in place, text is only added to the last block, and an accepted
      text event ends the block list with its number. */
  lemma BlocksStayInPlace(p: Projection, e: Envelope)
    ensures Grows(p.blocks, Reduce(p, e).blocks, Normalize(e))
    ensures GetEventId(e) !in p.processedEventIds && IsText(e.event) ==>
              EndsInText(p.blocks, Reduce(p, e).blocks, Normalize(e))
  {
    hide Grows, EndsInText, ApplyEvent, GetEventId, GetTurnId, GetOccurredAt, OrElse, LastOf;
    if GetEventId(e) in p.processedEventIds {
      SameGrows(p.blocks, Normalize(e));
    } else {
      ApplyGrows(Remember(p, Normalize(e)), Normalize(e));
    }
  }

  /** Normalizing fills in the identity once and for all. */
  lemma NormalizeIsStable(e: Envelope)
    ensures Normalize(Normalize(e)) == Normalize(e) && GetEventId(Normalize(e)) == GetEventId(e)
  {
    hide Kind;
    assert |DerivedEventId(e)| >= 1 && GetEventId(e) != "";
  }

  // ---------------------------------------------------------------- identity

  /** A field that is given and not empty. */
  predicate Given(x: Option<string>) {
    x.Some? && x.value != ""
  }

  /** The event id is the envelope's own, or else that of the metadata, or else job, number and kind; turn and
      question id likewise, and the time falls back to the clock. */
  lemma OwnIdentityComesFirst(e: Envelope)
    ensures var n := Normalize(e);
            && n.eventId == Some(if Given(e.eventId) then e.eventId.value
                                 else if Given(e.metadata.eventId) then e.metadata.eventId.value
                                 else DerivedEventId(e))
            && n.occurredAt == Some(if Given(e.occurredAt) then e.occurredAt.value
                                    else if Given(e.metadata.occurredAt) then e.metadata.occurredAt.value
                                    else e.clock)
            && (Given(e.turnId) ==> n.turnId == e.turnId)
            && (!Given(e.turnId) && Given(e.metadata.turnId) ==> n.turnId == e.metadata.turnId)
            && (!Given(e.turnId) && !Given(e.metadata.turnId) ==> n.turnId == e.turnId)
            && n.metadata.eventId == n.eventId && n.metadata.occurredAt == n.occurredAt
            && n.event == e.event && n.sequenceNumber == e.sequenceNumber && n.jobId == e.jobId
            && (e.event.Question? ==>
                  GetQuestionId(e) == if Given(e.event.questionId) then e.event.questionId.value
                                      else if Given(e.metadata.questionId) then e.metadata.questionId.value
                                      else "question-" + Decimal.ToString(e.sequenceNumber))
  {
    hide DerivedEventId;
  }

  /** Two events in a row are told apart by their ids alone: the second is a duplicate exactly if it has the id of
      the first, whatever else differs. */
  lemma SameIdIsDuplicate(p: Projection, first: Envelope, second: Envelope)
    requires GetEventId(first) !in p.processedEventIds && GetEventId(second) !in p.processedEventIds
    ensures Reduce(Reduce(p, first), second).duplicateCount ==
            p.duplicateCount + if GetEventId(first) == GetEventId(second) then 1 else 0
  {
    hide Reduce, GetEventId;
    var q, ids := Reduce(p, first), p.processedEventIds + [GetEventId(first)];
    AcceptRemembers(p, first);
    assert q.processedEventIds[|q.processedEventIds| - 1] == GetEventId(first);
    assert forall x | x in q.processedEventIds :: x in ids;
    if GetEventId(first) == GetEventId(second) {
      RejectCounts(q, second);
    } else {
      AcceptRemembers(q, second);
    }
  }
}
