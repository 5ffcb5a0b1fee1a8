/**
 The canonical session projection: a reducer from event envelopes to the state shown for a session,
 with a bounded window of processed event ids.
 */
module SessionProjection {
  import opened Sequences
  import opened Wrappers
  import Decimal

  // ---------------------------------------------------------------- events and envelopes

  datatype CallId = CallId(text: string)

  datatype Event =
    | TurnStarted(turnId: string)
    | TurnCompleted(turnId: string)
    | TurnAwaitingUser(turnId: string)
    | TurnResumed(turnId: string)
    | Text(content: string)
    | Thinking(content: string)
    | TextComplete(fullText: string)
    | ToolCallStart(toolCallId: CallId, toolName: string, inputPreview: Option<string>)
    | ToolCallResult(toolCallId: CallId, toolName: string, success: bool, outputPreview: Option<string>)
    | Question(questionId: Option<string>, questionText: string, options: Option<seq<string>>,
               questions: Option<seq<(string, seq<string>)>>, questionType: Option<string>,
               expiresAt: Option<string>, required: Option<bool>)
    | AnswerSubmitted
    | QuestionResolved
    | SessionAwaitingUser(prompt: string, expiresAt: Option<string>)
    | SessionIdle
    | SessionError
    | JobStarted
    | JobCompleted
    | JobIncomplete
    | JobFailed
    | JobCancelled
    | Step(description: string)
    | FileRead(filePath: string)
    | FileWrite(filePath: string)
    | FileEdit(filePath: string)
    | BashExecute(command: string)
    | Other(otherKind: string)

  function Kind(e: Event): string {
    match e
    case TurnStarted(_) => "turn.started"
    case TurnCompleted(_) => "turn.completed"
    case TurnAwaitingUser(_) => "turn.awaiting_user"
    case TurnResumed(_) => "turn.resumed"
    case Text(_) => "agent.text"
    case Thinking(_) => "agent.thinking"
    case TextComplete(_) => "agent.text.complete"
    case ToolCallStart(_, _, _) => "agent.tool_call.start"
    case ToolCallResult(_, _, _, _) => "agent.tool_call.result"
    case Question(_, _, _, _, _, _, _) => "agent.question"
    case AnswerSubmitted => "user.answer.submitted"
    case QuestionResolved => "agent.question.resolved"
    case SessionAwaitingUser(_, _) => "session.awaiting_user"
    case SessionIdle => "session.idle"
    case SessionError => "session.error"
    case JobStarted => "job.started"
    case JobCompleted => "job.completed"
    case JobIncomplete => "job.incomplete"
    case JobFailed => "job.failed"
    case JobCancelled => "job.cancelled"
    case Step(_) => "agent.step"
    case FileRead(_) => "agent.file.read"
    case FileWrite(_) => "agent.file.write"
    case FileEdit(_) => "agent.file.edit"
    case BashExecute(_) => "agent.bash.execute"
    case Other(k) => k
  }

  /** The metadata keys the code reads; None stands for any value that is not a string. */
  datatype Metadata = Metadata(eventId: Option<string>, turnId: Option<string>,
                               occurredAt: Option<string>, questionId: Option<string>)

  /** clock: the ISO form of the envelope's timestamp, or of the current time if that is 0. */
  datatype Envelope = Envelope(jobId: string, sequenceNumber: int, clock: string,
                               eventId: Option<string>, turnId: Option<string>, occurredAt: Option<string>,
                               metadata: Metadata, event: Event)

  /** getString: non-empty strings only. */
  function NonEmpty(s: Option<string>): Option<string> {
    if s.Some? && s.value != "" then s else None
  }

  /** The ?? operator. */
  function OrElse<T>(a: Option<T>, b: Option<T>): Option<T> {
    if a.Some? then a else b
  }

  function GetOr<T>(a: Option<T>, default: T): T {
    if a.Some? then a.value else default
  }

  function DerivedEventId(e: Envelope): string {
    e.jobId + ":" + Decimal.ToString(e.sequenceNumber) + ":" + Kind(e.event)
  }

  function GetEventId(e: Envelope): string {
    GetOr(OrElse(NonEmpty(e.eventId), NonEmpty(e.metadata.eventId)), DerivedEventId(e))
  }

  function GetTurnId(e: Envelope): Option<string> {
    OrElse(NonEmpty(e.turnId), NonEmpty(e.metadata.turnId))
  }

  function GetOccurredAt(e: Envelope): string {
    GetOr(OrElse(NonEmpty(e.occurredAt), NonEmpty(e.metadata.occurredAt)), e.clock)
  }

  function Normalize(e: Envelope): Envelope {
    var eventId := GetEventId(e);
    var turnId := GetTurnId(e);
    var occurredAt := GetOccurredAt(e);
    e.(eventId := Some(eventId),
       turnId := OrElse(turnId, e.turnId),
       occurredAt := Some(occurredAt),
       metadata := e.metadata.(eventId := Some(eventId), turnId := OrElse(turnId, e.metadata.turnId),
                               occurredAt := Some(occurredAt)))
  }

  // ---------------------------------------------------------------- the projection

  datatype Status = Idle | Running | AwaitingUser | Completed | Failed | Cancelled

  datatype ToolStatus = ToolRunning | ToolSuccess | ToolError

  datatype ToolCall = ToolCall(id: string, turnId: Option<string>, toolCallId: CallId, toolName: string,
                               status: ToolStatus, inputPreview: Option<string>, outputPreview: Option<string>,
                               firstSequence: int, lastSequence: int)

  datatype Block =
    | TextBlock(id: string, thinking: bool, turnId: Option<string>, content: string,
                firstSequence: int, lastSequence: int)
    | ToolBlock(call: ToolCall)
    | EventBlock(id: string, turnId: Option<string>, kind: string, caption: string, sequence: int)

  datatype ActiveQuestion = ActiveQuestion(questionId: string, turnId: Option<string>, questionText: string,
                                           options: seq<string>, questions: Option<seq<(string, seq<string>)>>,
                                           questionType: Option<string>, expiresAt: Option<string>, required: bool)

  datatype FollowUp = FollowUp(prompt: string, expiresAt: Option<string>)

  datatype Projection = Projection(
    status: Status,
    currentTurnId: Option<string>,
    lastSequenceNumber: int,
    processedEventIds: seq<string>,
    duplicateCount: nat,
    outOfOrderCount: nat,
    activeQuestion: Option<ActiveQuestion>,
    pendingFollowUp: Option<FollowUp>,
    blocks: seq<Block>,
    activeToolCalls: map<CallId, ToolCall>,
    updatedAt: string)

  const WINDOW := 1000

  const INITIAL := Projection(Idle, None, -1, [], 0, 0, None, None, [], map[], "1970-01-01T00:00:00.000Z")

  function AppendOrMergeText(p: Projection, e: Envelope, thinking: bool, content: string): Projection {
    var turnId := OrElse(e.turnId, p.currentTurnId);
    var n := |p.blocks|;
    if n > 0 && p.blocks[n - 1].TextBlock? && p.blocks[n - 1].thinking == thinking &&
       p.blocks[n - 1].turnId == turnId then
      var last := p.blocks[n - 1];
      p.(blocks := p.blocks[n - 1 := last.(content := last.content + content, lastSequence := e.sequenceNumber)])
    else
      var id := (if thinking then "thinking-" else "text-") + Decimal.ToString(e.sequenceNumber);
      p.(blocks := p.blocks + [TextBlock(id, thinking, turnId, content, e.sequenceNumber, e.sequenceNumber)])
  }

  /** findIndex of the tool block with the given call id, or |blocks|. */
  function ToolIndex(blocks: seq<Block>, toolCallId: CallId): (i: nat)
    ensures i <= |blocks|
    ensures i < |blocks| ==> blocks[i].ToolBlock? && blocks[i].call.toolCallId == toolCallId
    ensures forall j | 0 <= j < i :: blocks[j].ToolBlock? ==> blocks[j].call.toolCallId != toolCallId
  {
    if blocks == [] then 0
    else if blocks[0].ToolBlock? && blocks[0].call.toolCallId == toolCallId then 0
    else ToolIndex(blocks[1..], toolCallId) + 1
  }

  function UpsertToolCall(p: Projection, e: Envelope, toolCallId: CallId, toolName: string, status: ToolStatus,
                          inputPreview: Option<string>, outputPreview: Option<string>): Projection {
    var current := if toolCallId in p.activeToolCalls then Some(p.activeToolCalls[toolCallId]) else None;
    var turnId := OrElse(e.turnId, p.currentTurnId);
    var next := match current
      case Some(c) =>
        ToolCall(c.id, OrElse(c.turnId, turnId), toolCallId, toolName, status,
                 OrElse(inputPreview, c.inputPreview), OrElse(outputPreview, c.outputPreview),
                 c.firstSequence, e.sequenceNumber)
      case None =>
        ToolCall("tool-" + toolCallId.text, turnId, toolCallId, toolName, status, inputPreview, outputPreview,
                 e.sequenceNumber, e.sequenceNumber);
    var i := ToolIndex(p.blocks, toolCallId);
    p.(activeToolCalls := p.activeToolCalls[toolCallId := next],
       blocks := if i < |p.blocks| then p.blocks[i := ToolBlock(next)] else p.blocks + [ToolBlock(next)])
  }

  function AppendEventBlock(p: Projection, e: Envelope, caption: string): Projection {
    p.(blocks := p.blocks + [EventBlock("event-" + Decimal.ToString(e.sequenceNumber),
                                        OrElse(e.turnId, p.currentTurnId), Kind(e.event), caption, e.sequenceNumber)])
  }

  function GetQuestionId(e: Envelope): string
    requires e.event.Question?
  {
    GetOr(OrElse(NonEmpty(e.event.questionId), NonEmpty(e.metadata.questionId)),
          "question-" + Decimal.ToString(e.sequenceNumber))
  }

  /** The switch over event kinds, on a normalized envelope. */
  function ApplyEvent(next: Projection, e: Envelope): Projection {
    match e.event
    case TurnStarted(turnId) =>
      next.(status := Running, currentTurnId := Some(turnId), activeQuestion := None, pendingFollowUp := None)
    case TurnCompleted(turnId) =>
      next.(status := if next.status.Failed? || next.status.Cancelled? then next.status else Idle,
            currentTurnId := if next.currentTurnId == Some(turnId) then None else next.currentTurnId,
            activeQuestion := None, pendingFollowUp := None)
    case TurnAwaitingUser(turnId) => next.(status := AwaitingUser, currentTurnId := Some(turnId))
    case TurnResumed(turnId) =>
      next.(status := Running, currentTurnId := Some(turnId), activeQuestion := None, pendingFollowUp := None)
    case Text(content) => AppendOrMergeText(next.(status := Running), e, false, content)
    case Thinking(content) => AppendOrMergeText(next.(status := Running), e, true, content)
    case TextComplete(fullText) => AppendOrMergeText(next.(status := Running), e, false, fullText)
    case ToolCallStart(id, name, inputPreview) =>
      UpsertToolCall(next.(status := Running), e, id, name, ToolRunning, inputPreview, None)
    case ToolCallResult(id, name, success, outputPreview) =>
      UpsertToolCall(next, e, id, name, if success then ToolSuccess else ToolError, None, outputPreview)
    case Question(_, text, options, questions, questionType, expiresAt, required) =>
      next.(status := AwaitingUser, pendingFollowUp := None,
            activeQuestion := Some(ActiveQuestion(GetQuestionId(e), OrElse(e.turnId, next.currentTurnId), text,
                                                  GetOr(options, []), questions, NonEmpty(questionType),
                                                  expiresAt, GetOr(required, true))))
    case AnswerSubmitted => next.(status := Running, activeQuestion := None, pendingFollowUp := None)
    case QuestionResolved => next.(status := Running, activeQuestion := None)
    case SessionAwaitingUser(prompt, expiresAt) =>
      next.(status := AwaitingUser, pendingFollowUp := Some(FollowUp(prompt, expiresAt)), activeQuestion := None)
    case SessionIdle =>
      next.(status := if next.status.Completed? || next.status.Failed? || next.status.Cancelled? then next.status
                      else Idle)
    case JobCompleted => next.(status := Completed, activeQuestion := None, pendingFollowUp := None)
    case JobFailed => next.(status := Failed)
    case SessionError => next.(status := Failed)
    case JobCancelled => next.(status := Cancelled)
    case Step(description) => AppendEventBlock(next, e, description)
    case FileRead(path) => AppendEventBlock(next, e, "Read " + path)
    case FileWrite(path) => AppendEventBlock(next, e, "Wrote " + path)
    case FileEdit(path) => AppendEventBlock(next, e, "Edited " + path)
    case BashExecute(command) => AppendEventBlock(next, e, "Ran " + command)
    case JobStarted => next
    case JobIncomplete => next
    case Other(_) => next
  }

  /** The bookkeeping for an event whose id is not in the window. */
  function Remember(p: Projection, e: Envelope): Projection
    requires e.eventId.Some? && e.occurredAt.Some?
  {
    p.(outOfOrderCount := p.outOfOrderCount + if e.sequenceNumber <= p.lastSequenceNumber then 1 else 0,
       lastSequenceNumber := if p.lastSequenceNumber > e.sequenceNumber then p.lastSequenceNumber else e.sequenceNumber,
       currentTurnId := OrElse(e.turnId, p.currentTurnId),
       updatedAt := e.occurredAt.value,
       processedEventIds := LastOf(p.processedEventIds + [e.eventId.value], WINDOW))
  }

  function Reduce(p: Projection, input: Envelope): Projection {
    var e := Normalize(input);
    if e.eventId.value in p.processedEventIds then p.(duplicateCount := p.duplicateCount + 1)
    else ApplyEvent(Remember(p, e), e)
  }

  function Fold(p: Projection, es: seq<Envelope>): Projection
    decreases |es|
  {
    if es == [] then p else Fold(Reduce(p, es[0]), es[1..])
  }

  // ---------------------------------------------------------------- the bounded dedup window

  function Ids(es: seq<Envelope>): seq<string> {
    if es == [] then [] else [GetEventId(es[0])] + Ids(es[1..])
  }

  /** The stream with every repeated id removed, however far back the id was first seen. */
  function WithoutRepeats(es: seq<Envelope>, seen: seq<string>): seq<Envelope>
    decreases |es|
  {
    if es == [] then []
    else if GetEventId(es[0]) in seen then WithoutRepeats(es[1..], seen)
    else [es[0]] + WithoutRepeats(es[1..], seen + [GetEventId(es[0])])
  }

  /** Every repeat arrives while fewer than 1000 ids were accepted since its id was. */
  predicate RepeatsInWindow(es: seq<Envelope>, seen: seq<string>)
    decreases |es|
  {
    if es == [] then true
    else
      var id := GetEventId(es[0]);
      if id in seen then id in LastOf(seen, 1000) && RepeatsInWindow(es[1..], seen)
      else RepeatsInWindow(es[1..], seen + [id])
  }

  function AddDuplicates(p: Projection, n: nat): Projection {
    p.(duplicateCount := p.duplicateCount + n)
  }

  lemma PartsIgnoreCount(p: Projection, e: Envelope, n: nat)
    ensures forall thinking, content :: AppendOrMergeText(AddDuplicates(p, n), e, thinking, content) ==
                                        AddDuplicates(AppendOrMergeText(p, e, thinking, content), n)
    ensures forall caption :: AppendEventBlock(AddDuplicates(p, n), e, caption) ==
                              AddDuplicates(AppendEventBlock(p, e, caption), n)
  {
    hide Kind, OrElse;
  }

  lemma ToolIgnoresCount(p: Projection, e: Envelope, n: nat, id: CallId, name: string, status: ToolStatus,
                         inputPreview: Option<string>, outputPreview: Option<string>)
    ensures UpsertToolCall(AddDuplicates(p, n), e, id, name, status, inputPreview, outputPreview) ==
            AddDuplicates(UpsertToolCall(p, e, id, name, status, inputPreview, outputPreview), n)
  {
    hide ToolIndex;
  }

  lemma ApplyIgnoresCount(p: Projection, e: Envelope, n: nat)
    ensures ApplyEvent(AddDuplicates(p, n), e) == AddDuplicates(ApplyEvent(p, e), n)
  {
    hide AppendOrMergeText, AppendEventBlock, UpsertToolCall, GetQuestionId;
    var running := p.(status := Running);
    assert AddDuplicates(p, n).(status := Running) == AddDuplicates(running, n);
    PartsIgnoreCount(p, e, n);
    PartsIgnoreCount(running, e, n);
    match e.event
    case ToolCallStart(id, name, inputPreview) =>
      ToolIgnoresCount(running, e, n, id, name, ToolRunning, inputPreview, None);
    case ToolCallResult(id, name, success, outputPreview) =>
      ToolIgnoresCount(p, e, n, id, name, if success then ToolSuccess else ToolError, None, outputPreview);
    case _ =>
  }

  lemma ReduceIgnoresCount(p: Projection, e: Envelope, n: nat)
    ensures Reduce(AddDuplicates(p, n), e) == AddDuplicates(Reduce(p, e), n)
  {
    var m := Normalize(e);
    if m.eventId.value !in p.processedEventIds {
      assert Remember(AddDuplicates(p, n), m) == AddDuplicates(Remember(p, m), n);
      ApplyIgnoresCount(Remember(p, m), m, n);
    }
  }

  lemma {:induction false} FoldIgnoresCount(p: Projection, es: seq<Envelope>, n: nat)
    ensures Fold(AddDuplicates(p, n), es) == AddDuplicates(Fold(p, es), n)
    decreases |es|
  {
    if es != [] {
      ReduceIgnoresCount(p, es[0], n);
      FoldIgnoresCount(Reduce(p, es[0]), es[1..], n);
    }
  }

  lemma RejectCounts(p: Projection, e: Envelope)
    requires GetEventId(e) in p.processedEventIds
    ensures Reduce(p, e) == AddDuplicates(p, 1)
  {
  }

  lemma AcceptRemembers(p: Projection, e: Envelope)
    requires GetEventId(e) !in p.processedEventIds
    ensures Reduce(p, e).processedEventIds == LastOf(p.processedEventIds + [GetEventId(e)], WINDOW)
    ensures Reduce(p, e).duplicateCount == p.duplicateCount
  {
    hide ApplyEvent, GetEventId, GetTurnId, GetOccurredAt, OrElse, LastOf;
    ApplyKeepsCounts(Remember(p, Normalize(e)), Normalize(e));
  }

  lemma WindowAdvances(seen: seq<string>, id: string)
    ensures LastOf(LastOf(seen, WINDOW) + [id], WINDOW) == LastOf(seen + [id], WINDOW)
  {
  }

  lemma LastOfContained(seen: seq<string>, id: string)
    requires id in LastOf(seen, WINDOW)
    ensures id in seen
  {
  }

  /** Folding es is folding it without repeats and counting the repeats. */
  ghost predicate Refines(p: Projection, es: seq<Envelope>, seen: seq<string>) {
    var kept := WithoutRepeats(es, seen);
    |kept| <= |es| && Fold(p, es) == AddDuplicates(Fold(p, kept), |es| - |kept|)
  }

  lemma RepeatRefines(p: Projection, es: seq<Envelope>, seen: seq<string>)
    requires es != [] && GetEventId(es[0]) in p.processedEventIds && GetEventId(es[0]) in seen
    requires Refines(p, es[1..], seen)
    ensures Refines(p, es, seen)
  {
    RejectCounts(p, es[0]);
    FoldIgnoresCount(p, es[1..], 1);
  }

  lemma FreshRefines(p: Projection, es: seq<Envelope>, seen: seq<string>)
    requires es != [] && GetEventId(es[0]) !in seen
    requires Refines(Reduce(p, es[0]), es[1..], seen + [GetEventId(es[0])])
    ensures Refines(p, es, seen)
  {
    var kept := WithoutRepeats(es, seen);
    assert kept[0] == es[0] && kept[1..] == WithoutRepeats(es[1..], seen + [GetEventId(es[0])]);
  }

  /** With repeats close enough, the bounded window behaves as an unbounded one: the projection is
      that of the stream without repeats, and duplicateCount counts the envelopes removed. */
  lemma {:induction false} WindowRefinesUnbounded(p: Projection, es: seq<Envelope>, seen: seq<string>)
    requires p.processedEventIds == LastOf(seen, WINDOW) && RepeatsInWindow(es, seen)
    ensures Refines(p, es, seen)
    decreases |es|
  {
    if es != [] {
      var id := GetEventId(es[0]);
      if id in seen {
        WindowRefinesUnbounded(p, es[1..], seen);
        RepeatRefines(p, es, seen);
      } else {
        FreshIsNew(seen, id);
        AcceptRemembers(p, es[0]);
        WindowAdvances(seen, id);
        WindowRefinesUnbounded(Reduce(p, es[0]), es[1..], seen + [id]);
        FreshRefines(p, es, seen);
      }
    }
  }

  lemma FreshIsNew(seen: seq<string>, id: string)
    requires id !in seen
    ensures id !in LastOf(seen, WINDOW)
  {
  }

  /** A reducer that only knows ids from seen rejects at most the repeats. */
  lemma {:induction false} RejectsOnlyRepeats(p: Projection, es: seq<Envelope>, seen: seq<string>)
    requires forall id | id in p.processedEventIds :: id in seen
    ensures Fold(p, es).duplicateCount + |WithoutRepeats(es, seen)| <= p.duplicateCount + |es|
    decreases |es|
  {
    if es != [] {
      var id := GetEventId(es[0]);
      var q := Reduce(p, es[0]);
      if id !in p.processedEventIds {
        AcceptRemembers(p, es[0]);
      }
      RejectsOnlyRepeats(q, es[1..], if id in seen then seen else seen + [id]);
    }
  }

  lemma {:induction false} LateRepeatIsMissed(p: Projection, es: seq<Envelope>, seen: seq<string>)
    requires p.processedEventIds == LastOf(seen, WINDOW) && !RepeatsInWindow(es, seen)
    ensures Fold(p, es).duplicateCount + |WithoutRepeats(es, seen)| < p.duplicateCount + |es|
    decreases |es|
  {
    var id := GetEventId(es[0]);
    var q := Reduce(p, es[0]);
    if id !in p.processedEventIds {
      AcceptRemembers(p, es[0]);
      WindowAdvances(seen, id);
    } else {
      LastOfContained(seen, id);
    }
    if id in seen && id !in LastOf(seen, WINDOW) {
      RejectsOnlyRepeats(q, es[1..], seen);
    } else if id in seen {
      LateRepeatIsMissed(q, es[1..], seen);
    } else {
      LateRepeatIsMissed(q, es[1..], seen + [id]);
    }
  }

  /** From the initial projection: the bounded window gives the unbounded result exactly when every
      repeat of an id comes within WINDOW accepted events of it. */
  lemma BoundedWindowIsExact(es: seq<Envelope>)
    ensures RepeatsInWindow(es, []) <==> Refines(INITIAL, es, [])
  {
    RejectsOnlyRepeats(INITIAL, es, []);
    if RepeatsInWindow(es, []) {
      WindowRefinesUnbounded(INITIAL, es, []);
    } else {
      LateRepeatIsMissed(INITIAL, es, []);
    }
  }

  lemma FreshHead(es: seq<Envelope>, seen: seq<string>)
    requires es != [] && GetEventId(es[0]) !in seen
    ensures var id := GetEventId(es[0]);
            && RepeatsInWindow(es, seen) == RepeatsInWindow(es[1..], seen + [id])
            && WithoutRepeats(es, seen) == [es[0]] + WithoutRepeats(es[1..], seen + [id])
  {
    hide GetEventId, LastOf;
  }

  lemma {:induction false} FreshThenRest(firsts: seq<Envelope>, rest: seq<Envelope>, seen: seq<string>)
    requires Distinct(Ids(firsts)) && forall id | id in Ids(firsts) :: id !in seen
    ensures RepeatsInWindow(firsts + rest, seen) == RepeatsInWindow(rest, seen + Ids(firsts))
    ensures WithoutRepeats(firsts + rest, seen) == firsts + WithoutRepeats(rest, seen + Ids(firsts))
    decreases |firsts|
  {
    hide RepeatsInWindow, WithoutRepeats, GetEventId, Distinct;
    var es := firsts + rest;
    if firsts == [] {
      assert es == rest && seen + Ids(firsts) == seen;
      assert firsts + WithoutRepeats(rest, seen) == WithoutRepeats(rest, seen);
    } else {
      var id, tail := GetEventId(firsts[0]), firsts[1..];
      var ids := Ids(firsts);
      assert ids == [id] + Ids(tail) && es[0] == firsts[0] && es[1..] == tail + rest;
      TailIsFresh(ids, id, Ids(tail), seen);
      FreshHead(es, seen);
      FreshThenRest(tail, rest, seen + [id]);
      assert seen + [id] + Ids(tail) == seen + ids;
      assert [firsts[0]] + (tail + WithoutRepeats(rest, seen + ids)) == firsts + WithoutRepeats(rest, seen + ids);
    }
  }

  lemma TailIsFresh(ids: seq<string>, id: string, tail: seq<string>, seen: seq<string>)
    requires ids == [id] + tail && Distinct(ids) && forall x | x in ids :: x !in seen
    ensures id !in seen && Distinct(tail) && forall x | x in tail :: x !in seen + [id]
  {
    assert ids[0] == id && ids[1..] == tail;
    forall x | x in tail ensures x !in seen + [id] {
      var i :| 0 <= i < |tail| && tail[i] == x;
      assert ids[i + 1] == x;
    }
  }

  lemma {:induction false} IdsAreInOrder(es: seq<Envelope>, i: nat)
    requires i < |es|
    ensures |Ids(es)| == |es| && Ids(es)[i] == GetEventId(es[i])
  {
    if i == 0 {
      IdsLength(es);
    } else {
      IdsAreInOrder(es[1..], i - 1);
    }
  }

  lemma {:induction false} IdsLength(es: seq<Envelope>)
    ensures |Ids(es)| == |es|
  {
    if es != [] {
      IdsLength(es[1..]);
    }
  }

  /** More than 1000 different ids and then the first one again: the repeat is not noticed. */
  lemma FirstIdIsForgotten(firsts: seq<Envelope>, again: Envelope)
    requires |firsts| > 1000 && Distinct(Ids(firsts)) && GetEventId(again) == GetEventId(firsts[0])
    ensures !RepeatsInWindow(firsts + [again], []) && !Refines(INITIAL, firsts + [again], [])
    ensures WithoutRepeats(firsts + [again], []) == firsts && Fold(INITIAL, firsts + [again]).duplicateCount == 0
  {
    hide Fold, Refines, GetEventId, RepeatsInWindow, WithoutRepeats, Ids, LastOf, Distinct;
    var ids, id := Ids(firsts), GetEventId(again);
    IdsAreInOrder(firsts, 0);
    FirstIsOut(ids);
    assert forall x | x in ids :: x !in [];
    FreshThenRest(firsts, [again], []);
    assert [] + ids == ids;
    RepeatAlone(again, ids);
    assert firsts + [] == firsts;
    BoundedWindowIsExact(firsts + [again]);
    MissedFromStart(firsts + [again]);
  }

  lemma MissedFromStart(es: seq<Envelope>)
    requires !RepeatsInWindow(es, [])
    ensures Fold(INITIAL, es).duplicateCount + |WithoutRepeats(es, [])| < |es|
  {
    LateRepeatIsMissed(INITIAL, es, []);
  }

  lemma FirstIsOut(ids: seq<string>)
    requires |ids| > WINDOW && Distinct(ids)
    ensures ids[0] in ids && ids[0] !in LastOf(ids, WINDOW)
  {
    forall i | 0 <= i < WINDOW ensures LastOf(ids, WINDOW)[i] != ids[0] {
      assert LastOf(ids, WINDOW)[i] == ids[|ids| - WINDOW + i];
    }
  }

  lemma RepeatAlone(e: Envelope, seen: seq<string>)
    requires GetEventId(e) in seen
    ensures WithoutRepeats([e], seen) == []
    ensures RepeatsInWindow([e], seen) <==> GetEventId(e) in LastOf(seen, WINDOW)
  {
    assert [e][1..] == [];
  }

  /** An envelope whose event id is a number. */
  function Numbered(n: nat): Envelope {
    Envelope("job", n, "", Some(Decimal.ToString(n)), None, None, Metadata(None, None, None, None), Text("."))
  }

  /** The ids 0 to 1000 and then 0 again: the repeat is accepted as a new event. */
  lemma LateRepeatIsAccepted()
    ensures var es := seq(1001, i requires 0 <= i => Numbered(i)) + [Numbered(0)];
            !Refines(INITIAL, es, []) && |WithoutRepeats(es, [])| == 1001 && Fold(INITIAL, es).duplicateCount == 0
  {
    hide Fold, Refines, GetEventId;
    var firsts := seq(WINDOW + 1, i requires 0 <= i => Numbered(i));
    IdsLength(firsts);
    forall i, j | 0 <= i < j < |Ids(firsts)| ensures Ids(firsts)[i] != Ids(firsts)[j] {
      IdsAreInOrder(firsts, i);
      IdsAreInOrder(firsts, j);
      NumberedIds(i);
      NumberedIds(j);
      if Decimal.ToString(i) == Decimal.ToString(j) {
        Decimal.ToStringInjective(i, j);
      }
    }
    assert firsts[0] == Numbered(0);
    FirstIdIsForgotten(firsts, Numbered(0));
  }

  lemma NumberedIds(n: nat)
    ensures GetEventId(Numbered(n)) == Decimal.ToString(n)
  {
    assert Decimal.ToString(n) == Decimal.NatToString(n);
  }

  // ---------------------------------------------------------------- what every projection keeps

  /** The tool calls shown by a block list, by call id. */
  function ToolsOf(blocks: seq<Block>): map<CallId, ToolCall> {
    if blocks == [] then map[]
    else
      var last := blocks[|blocks| - 1];
      var earlier := ToolsOf(blocks[..|blocks| - 1]);
      if last.ToolBlock? then earlier[last.call.toolCallId := last.call] else earlier
  }

  ghost predicate OneBlockPerTool(blocks: seq<Block>) {
    forall i, j | 0 <= i < j < |blocks| && blocks[i].ToolBlock? && blocks[j].ToolBlock? ::
      blocks[i].call.toolCallId != blocks[j].call.toolCallId
  }

  /** No two neighbouring blocks are texts of the same type and turn. */
  ghost predicate NothingToMerge(blocks: seq<Block>) {
    forall i | 0 < i < |blocks| && blocks[i - 1].TextBlock? && blocks[i].TextBlock? ::
      blocks[i - 1].thinking != blocks[i].thinking || blocks[i - 1].turnId != blocks[i].turnId
  }

  function BlockText(b: Block, thinking: bool): string {
    if b.TextBlock? && b.thinking == thinking then b.content else ""
  }

  /** All text blocks of one type, joined. */
  function TextOf(blocks: seq<Block>, thinking: bool): string {
    if blocks == [] then ""
    else TextOf(blocks[..|blocks| - 1], thinking) + BlockText(blocks[|blocks| - 1], thinking)
  }

  function SaidText(e: Event, thinking: bool): string {
    match e
    case Text(content) => if thinking then "" else content
    case TextComplete(fullText) => if thinking then "" else fullText
    case Thinking(content) => if thinking then content else ""
    case _ => ""
  }

  lemma TextOfAppend(blocks: seq<Block>, b: Block, thinking: bool)
    ensures TextOf(blocks + [b], thinking) == TextOf(blocks, thinking) + BlockText(b, thinking)
  {
    assert (blocks + [b])[..|blocks|] == blocks;
  }

  lemma {:induction false} TextOfReplace(blocks: seq<Block>, i: nat, b: Block, thinking: bool)
    requires i < |blocks| && BlockText(blocks[i], thinking) == BlockText(b, thinking)
    ensures TextOf(blocks[i := b], thinking) == TextOf(blocks, thinking)
  {
    var n := |blocks| - 1;
    if i < n {
      assert blocks[i := b][..n] == blocks[..n][i := b];
      TextOfReplace(blocks[..n], i, b, thinking);
    } else {
      assert blocks[i := b][..n] == blocks[..n];
    }
  }

  lemma {:induction false} ToolsOfReplace(blocks: seq<Block>, k: nat, b: Block)
    requires k < |blocks| && OneBlockPerTool(blocks)
    requires b.ToolBlock? == blocks[k].ToolBlock?
    requires b.ToolBlock? ==> b.call.toolCallId == blocks[k].call.toolCallId
    ensures ToolsOf(blocks[k := b]) ==
            if b.ToolBlock? then ToolsOf(blocks)[b.call.toolCallId := b.call] else ToolsOf(blocks)
  {
    var n := |blocks| - 1;
    if k < n {
      assert blocks[k := b][..n] == blocks[..n][k := b];
      ToolsOfReplace(blocks[..n], k, b);
    } else {
      assert blocks[k := b][..n] == blocks[..n];
    }
  }

  lemma ToolsOfAppend(blocks: seq<Block>, b: Block)
    ensures ToolsOf(blocks + [b]) ==
            if b.ToolBlock? then ToolsOf(blocks)[b.call.toolCallId := b.call] else ToolsOf(blocks)
  {
    assert (blocks + [b])[..|blocks|] == blocks;
  }

  /** What a block list keeps next to the index of active tool calls. */
  ghost predicate Sound(blocks: seq<Block>, active: map<CallId, ToolCall>) {
    active == ToolsOf(blocks) && OneBlockPerTool(blocks) && NothingToMerge(blocks)
  }

  lemma MergeKeeps(blocks: seq<Block>, active: map<CallId, ToolCall>, b: Block, asked: bool)
    requires Sound(blocks, active) && blocks != [] && b.TextBlock? && blocks[|blocks| - 1].TextBlock?
    requires b.thinking == blocks[|blocks| - 1].thinking && b.turnId == blocks[|blocks| - 1].turnId
    ensures Sound(blocks[|blocks| - 1 := b], active)
    ensures TextOf(blocks[|blocks| - 1 := b], asked) == TextOf(blocks[..|blocks| - 1], asked) + BlockText(b, asked)
  {
    ToolsOfReplace(blocks, |blocks| - 1, b);
    assert blocks[|blocks| - 1 := b][..|blocks| - 1] == blocks[..|blocks| - 1];
  }

  lemma AppendKeeps(blocks: seq<Block>, active: map<CallId, ToolCall>, b: Block, asked: bool)
    requires Sound(blocks, active) && !b.ToolBlock?
    requires b.TextBlock? && blocks != [] && blocks[|blocks| - 1].TextBlock? ==>
               b.thinking != blocks[|blocks| - 1].thinking || b.turnId != blocks[|blocks| - 1].turnId
    ensures Sound(blocks + [b], active)
    ensures TextOf(blocks + [b], asked) == TextOf(blocks, asked) + BlockText(b, asked)
  {
    hide ToolsOf, TextOf, BlockText;
    ToolsOfAppend(blocks, b);
    TextOfAppend(blocks, b, asked);
  }

  /** Text merged into the last block comes at the end of the text of its type. */
  lemma MergeAddsText(blocks: seq<Block>, b: Block, content: string, asked: bool)
    requires blocks != [] && b.TextBlock? && blocks[|blocks| - 1].TextBlock?
    requires b.thinking == blocks[|blocks| - 1].thinking && b.content == blocks[|blocks| - 1].content + content
    ensures TextOf(blocks[..|blocks| - 1], asked) + BlockText(b, asked) ==
            TextOf(blocks, asked) + if asked == b.thinking then content else ""
  {
    if asked == b.thinking {
      Associates(TextOf(blocks[..|blocks| - 1], asked), blocks[|blocks| - 1].content, content);
    } else {
      assert TextOf(blocks, asked) + "" == TextOf(blocks, asked);
    }
  }

  lemma TextStepKeeps(p: Projection, e: Envelope, thinking: bool, content: string, asked: bool)
    requires Sound(p.blocks, p.activeToolCalls)
    ensures var q := AppendOrMergeText(p, e, thinking, content);
            && Sound(q.blocks, q.activeToolCalls)
            && TextOf(q.blocks, asked) == TextOf(p.blocks, asked) + if asked == thinking then content else ""
  {
    hide Sound, OrElse, TextOf;
    var q := AppendOrMergeText(p, e, thinking, content);
    var n := |p.blocks|;
    if |q.blocks| == n {
      MergeKeeps(p.blocks, p.activeToolCalls, q.blocks[n - 1], asked);
      MergeAddsText(p.blocks, q.blocks[n - 1], content, asked);
    } else {
      AppendKeeps(p.blocks, p.activeToolCalls, q.blocks[n], asked);
    }
  }

  lemma UpsertKeeps(blocks: seq<Block>, active: map<CallId, ToolCall>, next: ToolCall, asked: bool)
    requires Sound(blocks, active)
    ensures var i := ToolIndex(blocks, next.toolCallId);
            var after := if i < |blocks| then blocks[i := ToolBlock(next)] else blocks + [ToolBlock(next)];
            Sound(after, active[next.toolCallId := next]) && TextOf(after, asked) == TextOf(blocks, asked)
  {
    var i := ToolIndex(blocks, next.toolCallId);
    if i < |blocks| {
      ToolsOfReplace(blocks, i, ToolBlock(next));
      TextOfReplace(blocks, i, ToolBlock(next), asked);
    } else {
      ToolsOfAppend(blocks, ToolBlock(next));
      TextOfAppend(blocks, ToolBlock(next), asked);
    }
  }

  lemma TextEventKeeps(p: Projection, e: Envelope, asked: bool)
    requires Sound(p.blocks, p.activeToolCalls) && (e.event.Text? || e.event.Thinking? || e.event.TextComplete?)
    ensures var q := ApplyEvent(p, e);
            && Sound(q.blocks, q.activeToolCalls)
            && TextOf(q.blocks, asked) == TextOf(p.blocks, asked) + SaidText(e.event, asked)
  {
    hide Sound, TextOf, AppendOrMergeText, UpsertToolCall, AppendEventBlock, GetQuestionId;
    var content := if e.event.TextComplete? then e.event.fullText else e.event.content;
    TextStepKeeps(p.(status := Running), e, e.event.Thinking?, content, asked);
  }

  lemma ToolEventKeeps(p: Projection, e: Envelope, asked: bool)
    requires Sound(p.blocks, p.activeToolCalls) && (e.event.ToolCallStart? || e.event.ToolCallResult?)
    ensures var q := ApplyEvent(p, e);
            Sound(q.blocks, q.activeToolCalls) && TextOf(q.blocks, asked) == TextOf(p.blocks, asked)
  {
    hide Sound, TextOf, UpsertToolCall;
    var status := if e.event.ToolCallStart? then Running else p.status;
    var toolStatus := if e.event.ToolCallStart? then ToolRunning else if e.event.success then ToolSuccess
                      else ToolError;
    var input := if e.event.ToolCallStart? then e.event.inputPreview else None;
    var output := if e.event.ToolCallResult? then e.event.outputPreview else None;
    assert p.(status := p.status) == p;
    UpsertCallKeeps(p.(status := status), e, e.event.toolCallId, e.event.toolName, toolStatus, input, output, asked);
  }

  lemma UpsertCallKeeps(p: Projection, e: Envelope, id: CallId, name: string, status: ToolStatus,
                        input: Option<string>, output: Option<string>, asked: bool)
    requires Sound(p.blocks, p.activeToolCalls)
    ensures var q := UpsertToolCall(p, e, id, name, status, input, output);
            Sound(q.blocks, q.activeToolCalls) && TextOf(q.blocks, asked) == TextOf(p.blocks, asked)
  {
    hide Sound, TextOf, ToolIndex, OrElse;
    var q := UpsertToolCall(p, e, id, name, status, input, output);
    UpsertKeeps(p.blocks, p.activeToolCalls, q.activeToolCalls[id], asked);
  }

  lemma OtherEventKeeps(p: Projection, e: Envelope, asked: bool)
    requires Sound(p.blocks, p.activeToolCalls)
    requires !e.event.Text? && !e.event.Thinking? && !e.event.TextComplete?
    requires !e.event.ToolCallStart? && !e.event.ToolCallResult?
    ensures var q := ApplyEvent(p, e);
            Sound(q.blocks, q.activeToolCalls) && TextOf(q.blocks, asked) == TextOf(p.blocks, asked)
  {
    hide Sound, TextOf, GetQuestionId, AppendEventBlock;
    var q := ApplyEvent(p, e);
    if e.event.Step? || e.event.FileRead? || e.event.FileWrite? || e.event.FileEdit? || e.event.BashExecute? {
      var caption :| q == AppendEventBlock(p, e, caption);
      EventBlockKeeps(p, e, caption, asked);
    }
  }

  lemma EventBlockKeeps(p: Projection, e: Envelope, caption: string, asked: bool)
    requires Sound(p.blocks, p.activeToolCalls)
    ensures var q := AppendEventBlock(p, e, caption);
            Sound(q.blocks, q.activeToolCalls) && TextOf(q.blocks, asked) == TextOf(p.blocks, asked)
  {
    hide Sound, TextOf, Kind;
    AppendKeeps(p.blocks, p.activeToolCalls, AppendEventBlock(p, e, caption).blocks[|p.blocks|], asked);
  }

  lemma ApplyKeeps(p: Projection, e: Envelope, asked: bool)
    requires Sound(p.blocks, p.activeToolCalls)
    ensures var q := ApplyEvent(p, e);
            && Sound(q.blocks, q.activeToolCalls)
            && TextOf(q.blocks, asked) == TextOf(p.blocks, asked) + SaidText(e.event, asked)
  {
    match e.event
    case Text(_) => TextEventKeeps(p, e, asked);
    case Thinking(_) => TextEventKeeps(p, e, asked);
    case TextComplete(_) => TextEventKeeps(p, e, asked);
    case ToolCallStart(_, _, _) => ToolEventKeeps(p, e, asked);
    case ToolCallResult(_, _, _, _) => ToolEventKeeps(p, e, asked);
    case _ => OtherEventKeeps(p, e, asked);
  }

  /** The text of the events that a projection accepts from a stream, in order. */
  function AcceptedText(p: Projection, es: seq<Envelope>, thinking: bool): string
    decreases |es|
  {
    if es == [] then ""
    else
      (if GetEventId(es[0]) in p.processedEventIds then "" else SaidText(es[0].event, thinking)) +
      AcceptedText(Reduce(p, es[0]), es[1..], thinking)
  }

  lemma ReduceKeeps(p: Projection, e: Envelope, asked: bool)
    requires Sound(p.blocks, p.activeToolCalls)
    ensures var q := Reduce(p, e);
            && Sound(q.blocks, q.activeToolCalls)
            && TextOf(q.blocks, asked) == TextOf(p.blocks, asked) +
                 if GetEventId(e) in p.processedEventIds then "" else SaidText(e.event, asked)
  {
    if GetEventId(e) in p.processedEventIds {
      RejectCounts(p, e);
    } else {
      var m := Normalize(e);
      ApplyKeeps(Remember(p, m), m, asked);
    }
  }

  lemma Associates(a: string, b: string, c: string)
    ensures (a + b) + c == a + (b + c)
  {
  }

  lemma {:induction false} FoldKeeps(p: Projection, es: seq<Envelope>, asked: bool)
    requires Sound(p.blocks, p.activeToolCalls)
    ensures var q := Fold(p, es);
            && Sound(q.blocks, q.activeToolCalls)
            && TextOf(q.blocks, asked) == TextOf(p.blocks, asked) + AcceptedText(p, es, asked)
    decreases |es|
  {
    hide Reduce, Sound, TextOf, SaidText, GetEventId;
    if es != [] {
      ReduceKeeps(p, es[0], asked);
      FoldKeeps(Reduce(p, es[0]), es[1..], asked);
      Associates(TextOf(p.blocks, asked),
                 if GetEventId(es[0]) in p.processedEventIds then "" else SaidText(es[0].event, asked),
                 AcceptedText(Reduce(p, es[0]), es[1..], asked));
    }
  }

  lemma NoBlocks()
    ensures Sound([], map[]) && TextOf([], false) == "" && TextOf([], true) == ""
  {
  }

  /** For every stream: tool calls and tool blocks agree, the text blocks (and separately the thinking
      blocks) hold exactly the accepted text in order, and no two neighbours could have been merged. */
  lemma ProjectionInvariant(es: seq<Envelope>)
    ensures var q := Fold(INITIAL, es);
            && q.activeToolCalls == ToolsOf(q.blocks) && OneBlockPerTool(q.blocks)
            && NothingToMerge(q.blocks)
            && TextOf(q.blocks, false) == AcceptedText(INITIAL, es, false)
            && TextOf(q.blocks, true) == AcceptedText(INITIAL, es, true)
  {
    hide Fold, AcceptedText, NothingToMerge, OneBlockPerTool;
    assert Sound(INITIAL.blocks, INITIAL.activeToolCalls) &&
           TextOf(INITIAL.blocks, false) == TextOf(INITIAL.blocks, true) == "" by {
      NoBlocks();
    }
    FoldKeeps(INITIAL, es, false);
    FoldKeeps(INITIAL, es, true);
  }

  function AllText(es: seq<Envelope>, thinking: bool): string {
    if es == [] then "" else SaidText(es[0].event, thinking) + AllText(es[1..], thinking)
  }

  /** With repeats within the window the accepted text is the text of the stream without repeats. */
  lemma {:induction false} AcceptedIsUnrepeated(p: Projection, es: seq<Envelope>, seen: seq<string>, thinking: bool)
    requires p.processedEventIds == LastOf(seen, WINDOW) && RepeatsInWindow(es, seen)
    ensures AcceptedText(p, es, thinking) == AllText(WithoutRepeats(es, seen), thinking)
    decreases |es|
  {
    if es != [] {
      var id := GetEventId(es[0]);
      if id in seen {
        RejectCounts(p, es[0]);
        AcceptedIsUnrepeated(Reduce(p, es[0]), es[1..], seen, thinking);
      } else {
        if id in p.processedEventIds {
          LastOfContained(seen, id);
        }
        AcceptRemembers(p, es[0]);
        WindowAdvances(seen, id);
        AcceptedIsUnrepeated(Reduce(p, es[0]), es[1..], seen + [id], thinking);
        assert WithoutRepeats(es, seen)[1..] == WithoutRepeats(es[1..], seen + [id]);
      }
    }
  }

  // ---------------------------------------------------------------- what the session waits for

  /** Never a question and a follow-up at once, and a bounded window. */
  ghost predicate Tidy(p: Projection) {
    && !(p.activeQuestion.Some? && p.pendingFollowUp.Some?)
    && |p.processedEventIds| <= 1000
  }

  /** What applying an event leaves alone. */
  ghost predicate SameCounts(p: Projection, q: Projection) {
    && q.processedEventIds == p.processedEventIds && q.lastSequenceNumber == p.lastSequenceNumber
    && q.duplicateCount == p.duplicateCount && q.outOfOrderCount == p.outOfOrderCount
    && (Tidy(p) ==> Tidy(q))
  }

  lemma TextKeepsCounts(p: Projection, e: Envelope, thinking: bool, content: string)
    ensures SameCounts(p, AppendOrMergeText(p.(status := Running), e, thinking, content))
  {
    hide OrElse;
  }

  lemma ToolKeepsCounts(p: Projection, e: Envelope, status: Status, id: CallId, name: string, toolStatus: ToolStatus,
                        input: Option<string>, output: Option<string>)
    ensures SameCounts(p, UpsertToolCall(p.(status := status), e, id, name, toolStatus, input, output))
  {
    hide OrElse, ToolIndex;
  }

  lemma BlockKeepsCounts(p: Projection, e: Envelope, caption: string)
    ensures SameCounts(p, AppendEventBlock(p, e, caption))
  {
    hide OrElse, Kind;
  }

  lemma ApplyKeepsCounts(p: Projection, e: Envelope)
    ensures SameCounts(p, ApplyEvent(p, e))
  {
    hide AppendOrMergeText, UpsertToolCall, AppendEventBlock, GetQuestionId, OrElse;
    match e.event
    case Text(content) => TextKeepsCounts(p, e, false, content);
    case Thinking(content) => TextKeepsCounts(p, e, true, content);
    case TextComplete(fullText) => TextKeepsCounts(p, e, false, fullText);
    case ToolCallStart(id, name, input) => ToolKeepsCounts(p, e, Running, id, name, ToolRunning, input, None);
    case ToolCallResult(id, name, success, output) =>
      assert p.(status := p.status) == p;
      ToolKeepsCounts(p, e, p.status, id, name, if success then ToolSuccess else ToolError, None, output);
    case Step(description) => BlockKeepsCounts(p, e, description);
    case FileRead(path) => BlockKeepsCounts(p, e, "Read " + path);
    case FileWrite(path) => BlockKeepsCounts(p, e, "Wrote " + path);
    case FileEdit(path) => BlockKeepsCounts(p, e, "Edited " + path);
    case BashExecute(command) => BlockKeepsCounts(p, e, "Ran " + command);
    case _ =>
  }

  lemma ReduceIsTidy(p: Projection, e: Envelope)
    requires Tidy(p)
    ensures var q := Reduce(p, e);
            && Tidy(q)
            && q.lastSequenceNumber >= p.lastSequenceNumber
            && q.duplicateCount + q.outOfOrderCount <= p.duplicateCount + p.outOfOrderCount + 1
  {
    hide ApplyEvent, OrElse, GetEventId, GetTurnId, GetOccurredAt;
    var m := Normalize(e);
    ApplyKeepsCounts(Remember(p, m), m);
  }

  lemma {:induction false} FoldIsTidy(p: Projection, es: seq<Envelope>)
    requires Tidy(p)
    ensures Tidy(Fold(p, es)) && Fold(p, es).lastSequenceNumber >= p.lastSequenceNumber
    ensures Fold(p, es).duplicateCount + Fold(p, es).outOfOrderCount <= p.duplicateCount + p.outOfOrderCount + |es|
    decreases |es|
  {
    hide Reduce;
    if es != [] {
      ReduceIsTidy(p, es[0]);
      FoldIsTidy(Reduce(p, es[0]), es[1..]);
    }
  }

  /** For every stream: at most one thing is waiting for the user, the window never outgrows its bound,
      the last sequence number never goes back, and the two counters of irregular events together
      never exceed the number of events. */
  lemma OneThingAwaited(es: seq<Envelope>, more: seq<Envelope>)
    ensures var q := Fold(INITIAL, es);
            && !(q.activeQuestion.Some? && q.pendingFollowUp.Some?)
            && |q.processedEventIds| <= 1000
            && q.duplicateCount + q.outOfOrderCount <= |es|
            && q.lastSequenceNumber <= Fold(q, more).lastSequenceNumber
  {
    FoldIsTidy(INITIAL, es);
    FoldIsTidy(Fold(INITIAL, es), more);
  }
}
