/**
 Delivery of durable.v2 canonical events: read from the stream, insert into the database, render,
 mark, acknowledge. A step is one run of code between two awaits, or one thing the outside world
 does (the server executes a request, a response is lost, the process crashes).
 */
module CanonicalDelivery {
  import opened Sequences
  import opened Wrappers
  import opened SequenceGuard

  datatype Row = Row(job: JobId, sequence: int)

  /** A durable.v2 entry of the stream; an absent sequence field is decoded as NaN. */
  datatype Entry = Entry(job: JobId, field: Option<int>) {
    function Sequence(): ProducerSequence {
      if field.Some? then Number(field.value) else NotFinite
    }
  }

  datatype Phase =
    | Requesting(attempt: nat, reply: Option<nat>)  // reply: inserted rows, once the server ran the request
    | Decided(render: bool)                         // the insert is confirmed
    | Handled                                       // the handler returned
    | Marked                                        // the processed marker is written

  datatype Handler = Handler(entry: nat, row: Row, phase: Phase)

  datatype State = State(
    configured: bool,             // an API client exists
    guard: GuardState,
    entries: seq<Entry>,
    handlers: map<nat, Handler>,  // handlers in flight, by serial number
    started: nat,                 // handlers started so far
    abandoned: set<Row>,          // requests given up on that the server may still run
    store: set<Row>,
    rendered: seq<Row>,
    marked: set<nat>,
    acked: set<nat>,
    deadLettered: set<nat>)

  function Initial(configured: bool): State {
    State(configured, EMPTY_GUARD, [], map[], 0, {}, {}, [], {}, {}, {})
  }

  const MAX_REQUEST_RETRIES := 3

  /** The synchronous part of the handler before the insert: regression check, then outbound number. */
  function Admit(guard: GuardState, e: Entry): (GuardState, Result<bool, GuardError>, Option<int>) {
    var checked := if e.field.Some? then guard.Check(e.job, e.field.value, true) else (guard, Ok(false));
    if checked.1.Err? || checked.1.value then (checked.0, checked.1, None)
    else
      var resolved := checked.0.Resolve(e.job, e.Sequence(), true);
      match resolved.1
      case Ok(v) => (resolved.0, Ok(false), Some(v))
      case Err(error) => (resolved.0, Err(error), None)
  }

  datatype Step =
    | Publish(e: Entry)
    | Deliver(entry: nat)
    | Execute(h: nat)                       // the server runs the current request of handler h
    | Respond(h: nat)                       // its response arrives
    | FailRequest(h: nat, retryable: bool)  // an error arrives, or the response is lost
    | ExecuteAbandoned(row: Row)
    | Render(h: nat)
    | FailRender(h: nat, published: bool)   // the renderer throws, before or after publishing
    | Mark(h: nat)
    | Acknowledge(h: nat)
    | ForgetMarker(entry: nat)              // the processed marker is cleared, or expires
    | Quarantine(entry: nat)
    | Crash

  /** The backend inserts a row only if its (job, sequence) is absent and reports how many it added. */
  function Inserted(store: set<Row>, row: Row): nat {
    if row in store then 0 else 1
  }

  function WithPhase(s: State, h: nat, phase: Phase): State
    requires h in s.handlers
  {
    s.(handlers := s.handlers[h := s.handlers[h].(phase := phase)])
  }

  function Open(s: State, entry: nat): bool {
    entry < |s.entries| && entry !in s.acked && entry !in s.deadLettered
  }

  function DeliverEntry(s: State, entry: nat): State
    requires entry < |s.entries|
  {
    if entry in s.marked then s.(acked := s.acked + {entry})
    else
      var e := s.entries[entry];
      var (guard, verdict, outbound) := Admit(s.guard, e);
      var t := s.(guard := guard);
      if verdict.Err? then t                                          // thrown; the entry stays pending
      else if verdict.value then t.(acked := t.acked + {entry})       // dropped as a regression and acknowledged
      else if !s.configured || outbound.None? then t                  // thrown; the entry stays pending
      else t.(handlers := t.handlers[t.started := Handler(entry, Row(e.job, outbound.value), Requesting(0, None))],
              started := t.started + 1)
  }

  /** A step that cannot happen in a state leaves it alone. */
  function Next(s: State, step: Step): State {
    match step
    case Publish(e) => s.(entries := s.entries + [e])
    case Deliver(entry) => if Open(s, entry) then DeliverEntry(s, entry) else s
    case Execute(h) =>
      if h in s.handlers && s.handlers[h].phase.Requesting? && s.handlers[h].phase.reply.None? then
        var row := s.handlers[h].row;
        WithPhase(s, h, s.handlers[h].phase.(reply := Some(Inserted(s.store, row)))).(store := s.store + {row})
      else s
    case Respond(h) =>
      if h in s.handlers && s.handlers[h].phase.Requesting? && s.handlers[h].phase.reply.Some? then
        WithPhase(s, h, Decided(s.handlers[h].phase.reply.value > 0))
      else s
    case FailRequest(h, retryable) =>
      if h in s.handlers && s.handlers[h].phase.Requesting? then
        var phase := s.handlers[h].phase;
        var t := if phase.reply.None? then s.(abandoned := s.abandoned + {s.handlers[h].row}) else s;
        if phase.attempt < MAX_REQUEST_RETRIES && retryable
        then WithPhase(t, h, Requesting(phase.attempt + 1, None))
        else t.(handlers := t.handlers - {h})
      else s
    case ExecuteAbandoned(row) => if row in s.abandoned then s.(store := s.store + {row}) else s
    case Render(h) =>
      if h in s.handlers && s.handlers[h].phase.Decided? then
        var t := WithPhase(s, h, Handled);
        if s.handlers[h].phase.render then t.(rendered := s.rendered + [s.handlers[h].row]) else t
      else s
    case FailRender(h, published) =>
      if h in s.handlers && s.handlers[h].phase == Decided(true) then
        s.(handlers := s.handlers - {h},
           rendered := if published then s.rendered + [s.handlers[h].row] else s.rendered)
      else s
    case Mark(h) =>
      if h in s.handlers && s.handlers[h].phase == Handled then
        WithPhase(s, h, Marked).(marked := s.marked + {s.handlers[h].entry})
      else s
    case Acknowledge(h) =>
      if h in s.handlers && s.handlers[h].phase == Marked then
        s.(handlers := s.handlers - {h}, acked := s.acked + {s.handlers[h].entry})
      else s
    case ForgetMarker(entry) => s.(marked := s.marked - {entry})
    case Quarantine(entry) => if Open(s, entry) then s.(deadLettered := s.deadLettered + {entry}) else s
    case Crash =>
      s.(handlers := map[], guard := EMPTY_GUARD,
         abandoned := s.abandoned + set h | h in s.handlers :: s.handlers[h].row)
  }

  function After(configured: bool, steps: seq<Step>): State {
    if steps == [] then Initial(configured)
    else Next(After(configured, steps[..|steps| - 1]), steps[|steps| - 1])
  }

  // ---------------------------------------------------------------- safety over every run

  /** The server has confirmed or will confirm to this handler that its row is in the store. */
  predicate Persisted(h: Handler) {
    h.phase.Requesting? ==> h.phase.reply.Some?
  }

  /** The one insert that added the row answers to this handler, and it has not rendered yet. */
  predicate MayRender(h: Handler) {
    (h.phase.Requesting? && h.phase.reply.Some? && h.phase.reply.value > 0) || h.phase == Decided(true)
  }

  /** The entry has a valid sequence number and its row is stored. */
  ghost predicate StoredEntry(entries: seq<Entry>, store: set<Row>, entry: nat) {
    && entry < |entries|
    && ValidDurable(entries[entry].Sequence())
    && Row(entries[entry].job, entries[entry].field.value) in store
  }

  ghost predicate HandlerSound(entries: seq<Entry>, store: set<Row>, rendered: seq<Row>, h: Handler) {
    && h.entry < |entries|
    && ValidDurable(entries[h.entry].Sequence())
    && h.row == Row(entries[h.entry].job, entries[h.entry].field.value)
    && (Persisted(h) ==> h.row in store)
    && (MayRender(h) ==> h.row !in rendered)
  }

  ghost predicate HandlersSound(s: State) {
    forall h | h in s.handlers :: h < s.started && HandlerSound(s.entries, s.store, s.rendered, s.handlers[h])
  }

  ghost predicate OnePermitPerRow(s: State) {
    forall g, h | g in s.handlers && h in s.handlers && g != h &&
                  MayRender(s.handlers[g]) && MayRender(s.handlers[h]) ::
      s.handlers[g].row != s.handlers[h].row
  }

  ghost predicate Invariant(s: State) {
    && HandlersSound(s)
    && OnePermitPerRow(s)
    && Distinct(s.rendered)
    && (forall row | row in s.rendered :: row in s.store)
    && (forall entry | entry in s.acked || entry in s.marked :: StoredEntry(s.entries, s.store, entry))
  }

  /** The guard never calls a durable event a regression, whatever it has seen: a valid number is
      passed on unchanged, and an invalid one is an error that leaves the entry pending. */
  lemma DurableNeverDropped(guard: GuardState, e: Entry)
    ensures var valid := e.field.Some? && 0 <= e.field.value <= 2_147_483_647;
            && (valid ==> Admit(guard, e).1 == Ok(false) && Admit(guard, e).2 == Some(e.field.value))
            && (!valid ==> Admit(guard, e).1.Err?)
  {
  }

  lemma DeliverKeeps(s: State, entry: nat)
    requires Invariant(s) && Open(s, entry)
    ensures Invariant(DeliverEntry(s, entry))
  {
    hide Admit, Distinct;
    if entry in s.marked {
      assert StoredEntry(s.entries, s.store, entry);
    } else {
      DurableNeverDropped(s.guard, s.entries[entry]);
    }
  }

  lemma RenderKeeps(s: State, h: nat)
    requires Invariant(s) && h in s.handlers && s.handlers[h].phase.Decided?
    ensures Invariant(Next(s, Render(h)))
  {
    hide StoredEntry;
    var t := Next(s, Render(h));
    var row := s.handlers[h].row;
    forall g | g in t.handlers && MayRender(t.handlers[g]) ensures t.handlers[g].row !in t.rendered {
      assert g != h;
      if s.handlers[h].phase.render {
        assert MayRender(s.handlers[h]) && MayRender(s.handlers[g]);
      }
    }
  }

  lemma PublishKeeps(s: State, e: Entry)
    requires Invariant(s)
    ensures Invariant(Next(s, Publish(e)))
  {
    hide Distinct;
  }

  lemma ExecuteKeeps(s: State, h: nat)
    requires Invariant(s)
    ensures Invariant(Next(s, Execute(h)))
  {
    hide Distinct;
  }

  lemma RespondKeeps(s: State, h: nat)
    requires Invariant(s)
    ensures Invariant(Next(s, Respond(h)))
  {
    hide StoredEntry, Distinct;
  }

  lemma FailRequestKeeps(s: State, h: nat, retryable: bool)
    requires Invariant(s)
    ensures Invariant(Next(s, FailRequest(h, retryable)))
  {
    hide StoredEntry, Distinct;
  }

  lemma ExecuteAbandonedKeeps(s: State, row: Row)
    requires Invariant(s)
    ensures Invariant(Next(s, ExecuteAbandoned(row)))
  {
    hide Distinct;
  }

  lemma FailRenderKeeps(s: State, h: nat, published: bool)
    requires Invariant(s)
    ensures Invariant(Next(s, FailRender(h, published)))
  {
  }

  lemma MarkKeeps(s: State, h: nat)
    requires Invariant(s)
    ensures Invariant(Next(s, Mark(h)))
  {
    hide Distinct;
  }

  lemma AcknowledgeKeeps(s: State, h: nat)
    requires Invariant(s)
    ensures Invariant(Next(s, Acknowledge(h)))
  {
    hide Distinct;
  }

  lemma ForgetMarkerKeeps(s: State, entry: nat)
    requires Invariant(s)
    ensures Invariant(Next(s, ForgetMarker(entry)))
  {
    hide StoredEntry, Distinct;
  }

  lemma QuarantineKeeps(s: State, entry: nat)
    requires Invariant(s)
    ensures Invariant(Next(s, Quarantine(entry)))
  {
    hide StoredEntry, Distinct;
  }

  lemma CrashKeeps(s: State)
    requires Invariant(s)
    ensures Invariant(Next(s, Crash))
  {
    hide StoredEntry, Distinct;
  }

  lemma StepKeepsInvariant(s: State, step: Step)
    requires Invariant(s)
    ensures Invariant(Next(s, step))
  {
    match step
    case Publish(e) => PublishKeeps(s, e);
    case Deliver(entry) => if Open(s, entry) { DeliverKeeps(s, entry); }
    case Execute(h) => ExecuteKeeps(s, h);
    case Respond(h) => RespondKeeps(s, h);
    case FailRequest(h, retryable) => FailRequestKeeps(s, h, retryable);
    case ExecuteAbandoned(row) => ExecuteAbandonedKeeps(s, row);
    case Render(h) => if h in s.handlers && s.handlers[h].phase.Decided? { RenderKeeps(s, h); }
    case FailRender(h, published) => FailRenderKeeps(s, h, published);
    case Mark(h) => MarkKeeps(s, h);
    case Acknowledge(h) => AcknowledgeKeeps(s, h);
    case ForgetMarker(entry) => ForgetMarkerKeeps(s, entry);
    case Quarantine(entry) => QuarantineKeeps(s, entry);
    case Crash => CrashKeeps(s);
  }

  lemma {:induction false} RunKeepsInvariant(configured: bool, steps: seq<Step>)
    ensures Invariant(After(configured, steps))
  {
    if steps != [] {
      RunKeepsInvariant(configured, steps[..|steps| - 1]);
      StepKeepsInvariant(After(configured, steps[..|steps| - 1]), steps[|steps| - 1]);
    }
  }

  /** Over every run with redeliveries, lost responses, retries, lost markers and crashes: an acknowledged entry is
      in the store (in particular it was not dropped as a regression), a rendered row is in the
      store, and no row is rendered twice. */
  lemma DeliveryIsSafe(configured: bool, steps: seq<Step>)
    ensures var s := After(configured, steps);
            && (forall entry | entry in s.acked :: StoredEntry(s.entries, s.store, entry))
            && (forall row | row in s.rendered :: row in s.store)
            && Distinct(s.rendered)
  {
    RunKeepsInvariant(configured, steps);
  }

  /** The calls of one undisturbed delivery by the next handler to start. */
  function CleanDelivery(s: State, entry: nat): seq<Step> {
    [Deliver(entry), Execute(s.started), Respond(s.started), Render(s.started), Mark(s.started), Acknowledge(s.started)]
  }

  function RunFrom(s: State, steps: seq<Step>): State
    decreases |steps|
  {
    if steps == [] then s else RunFrom(Next(s, steps[0]), steps[1..])
  }

  /** No pending entry is lost: from any reachable state one undisturbed redelivery acknowledges it,
      and renders it exactly when its row was not in the store yet. */
  lemma CleanDeliveryCompletes(configured: bool, steps: seq<Step>, entry: nat)
    requires var s := After(configured, steps);
             configured && Open(s, entry) && ValidDurable(s.entries[entry].Sequence())
    ensures var s := After(configured, steps);
            var row := Row(s.entries[entry].job, s.entries[entry].field.value);
            var t := RunFrom(s, CleanDelivery(s, entry));
            && t.acked == s.acked + {entry} && t.store == s.store + {row}
            && t.rendered == s.rendered + if row in s.store then [] else [row]
  {
    hide After, Next, RunFrom;
    var s := After(configured, steps);
    RunKeepsInvariant(configured, steps);
    StaysConfigured(configured, steps);
    var h := s.started;
    var s1 := Next(s, Deliver(entry));
    var s3 := Next(Next(s1, Execute(h)), Respond(h));
    SixSteps(s, entry);
    if entry in s.marked {
      MarkedDelivery(s, entry);
    } else {
      StartsCleanly(s, entry);
      RequestSucceeds(s1, h);
      RenderAndAcknowledge(s3, h);
    }
  }

  /** An entry whose marker is written is acknowledged without calling the handler; its row is stored. */
  lemma MarkedDelivery(s: State, entry: nat)
    requires Invariant(s) && Open(s, entry) && entry in s.marked
    ensures var h := s.started;
            var t := s.(acked := s.acked + {entry});
            && Next(s, Deliver(entry)) == t && Next(t, Execute(h)) == t && Next(t, Respond(h)) == t
            && Next(t, Render(h)) == t && Next(t, Mark(h)) == t && Next(t, Acknowledge(h)) == t
    ensures Row(s.entries[entry].job, s.entries[entry].field.value) in s.store
  {
    hide Distinct;
    assert s.started !in s.handlers;
    assert StoredEntry(s.entries, s.store, entry);
  }

  /** The handler of a fresh delivery waits for its first request. */
  lemma StartsCleanly(s: State, entry: nat)
    requires Invariant(s) && s.configured && Open(s, entry) && entry !in s.marked
    requires ValidDurable(s.entries[entry].Sequence())
    ensures var row := Row(s.entries[entry].job, s.entries[entry].field.value);
            var t := Next(s, Deliver(entry));
            && s.started in t.handlers && t.handlers[s.started] == Handler(entry, row, Requesting(0, None))
            && t.acked == s.acked && t.store == s.store && t.rendered == s.rendered
  {
    hide Admit;
    DurableNeverDropped(s.guard, s.entries[entry]);
  }

  /** Its request runs and the answer arrives: the row is stored, and is to be rendered if it is new. */
  lemma RequestSucceeds(s: State, h: nat)
    requires h in s.handlers && s.handlers[h].phase == Requesting(0, None)
    ensures var t := Next(Next(s, Execute(h)), Respond(h));
            && h in t.handlers && t.handlers[h] == s.handlers[h].(phase := Decided(s.handlers[h].row !in s.store))
            && t.acked == s.acked && t.store == s.store + {s.handlers[h].row} && t.rendered == s.rendered
  {
  }

  lemma RenderAndAcknowledge(s: State, h: nat)
    requires h in s.handlers && s.handlers[h].phase.Decided?
    ensures var t := Next(Next(Next(s, Render(h)), Mark(h)), Acknowledge(h));
            && t.acked == s.acked + {s.handlers[h].entry} && t.store == s.store
            && t.rendered == s.rendered + if s.handlers[h].phase.render then [s.handlers[h].row] else []
  {
  }

  lemma SixSteps(s: State, entry: nat)
    ensures var h := s.started;
            RunFrom(s, CleanDelivery(s, entry)) ==
            Next(Next(Next(Next(Next(Next(s, Deliver(entry)), Execute(h)), Respond(h)), Render(h)), Mark(h)),
                 Acknowledge(h))
  {
    hide Next, RunFrom;
    var h := s.started;
    assert CleanDelivery(s, entry) ==
           [Deliver(entry)] + [Execute(h), Respond(h), Render(h), Mark(h), Acknowledge(h)];
    RunCons(s, Deliver(entry), [Execute(h), Respond(h), Render(h), Mark(h), Acknowledge(h)]);
    var s1 := Next(s, Deliver(entry));
    assert [Execute(h), Respond(h), Render(h), Mark(h), Acknowledge(h)] ==
           [Execute(h)] + [Respond(h), Render(h), Mark(h), Acknowledge(h)];
    RunCons(s1, Execute(h), [Respond(h), Render(h), Mark(h), Acknowledge(h)]);
    var s2 := Next(s1, Execute(h));
    assert [Respond(h), Render(h), Mark(h), Acknowledge(h)] == [Respond(h)] + [Render(h), Mark(h), Acknowledge(h)];
    RunCons(s2, Respond(h), [Render(h), Mark(h), Acknowledge(h)]);
    var s3 := Next(s2, Respond(h));
    assert [Render(h), Mark(h), Acknowledge(h)] == [Render(h)] + [Mark(h), Acknowledge(h)];
    RunCons(s3, Render(h), [Mark(h), Acknowledge(h)]);
    var s4 := Next(s3, Render(h));
    assert [Mark(h), Acknowledge(h)] == [Mark(h)] + [Acknowledge(h)];
    RunCons(s4, Mark(h), [Acknowledge(h)]);
    var s5 := Next(s4, Mark(h));
    RunCons(s5, Acknowledge(h), []);
    assert [Acknowledge(h)] + [] == [Acknowledge(h)];
    RunNothing(Next(s5, Acknowledge(h)));
  }

  lemma RunNothing(s: State)
    ensures RunFrom(s, []) == s
  {
  }

  lemma RunCons(s: State, step: Step, steps: seq<Step>)
    ensures RunFrom(s, [step] + steps) == RunFrom(Next(s, step), steps)
  {
    hide Next;
    assert ([step] + steps)[1..] == steps;
  }

  lemma {:induction false} StaysConfigured(configured: bool, steps: seq<Step>)
    ensures After(configured, steps).configured == configured
  {
    if steps != [] {
      StaysConfigured(configured, steps[..|steps| - 1]);
    }
  }

  // ---------------------------------------------------------------- failing requests

  lemma {:induction false} RunAppend(s: State, a: seq<Step>, b: seq<Step>)
    ensures RunFrom(s, a + b) == RunFrom(RunFrom(s, a), b)
    decreases |a|
  {
    hide Next;
    if a == [] {
      assert a + b == b;
    } else {
      assert (a + b)[0] == a[0] && (a + b)[1..] == a[1..] + b;
      RunAppend(Next(s, a[0]), a[1..], b);
    }
  }

  /** One request of the handler that fails retryably, before or after the server ran it. */
  function FailedRequest(h: nat, ran: bool): seq<Step> {
    if ran then [Execute(h)] + [FailRequest(h, true)] else [FailRequest(h, true)]
  }

  function FailedRequests(h: nat, ran: seq<bool>): seq<Step> {
    if ran == [] then [] else FailedRequest(h, ran[0]) + FailedRequests(h, ran[1..])
  }

  /** The row of the entry's event. */
  function RowOf(e: Entry): Row
    requires e.field.Some?
  {
    Row(e.job, e.field.value)
  }

  /** The handler waits for the answer to its next request; only the store may have changed. */
  ghost predicate Retrying(s: State, t: State, h: nat, attempt: nat, ran: bool) {
    && h in s.handlers && h in t.handlers
    && t.handlers[h] == s.handlers[h].(phase := Requesting(attempt, None))
    && t.store == s.store + (if ran then {s.handlers[h].row} else {})
    && t.acked == s.acked && t.rendered == s.rendered && t.marked == s.marked && t.entries == s.entries
    && t.deadLettered == s.deadLettered
  }

  lemma RequestFails(s: State, h: nat, ran: bool)
    requires h in s.handlers && s.handlers[h].phase.Requesting? && s.handlers[h].phase.reply.None?
    requires s.handlers[h].phase.attempt < MAX_REQUEST_RETRIES
    ensures Retrying(s, RunFrom(s, FailedRequest(h, ran)), h, s.handlers[h].phase.attempt + 1, ran)
  {
    if ran {
      RunCons(s, Execute(h), [FailRequest(h, true)]);
    }
    var t := if ran then Next(s, Execute(h)) else s;
    assert [FailRequest(h, true)] + [] == [FailRequest(h, true)];
    RunCons(t, FailRequest(h, true), []);
    RunNothing(Next(t, FailRequest(h, true)));
  }

  lemma {:induction false} RequestsFail(s: State, h: nat, ran: seq<bool>)
    requires h in s.handlers && s.handlers[h].phase.Requesting? && s.handlers[h].phase.reply.None?
    requires s.handlers[h].phase.attempt + |ran| <= MAX_REQUEST_RETRIES
    ensures Retrying(s, RunFrom(s, FailedRequests(h, ran)), h, s.handlers[h].phase.attempt + |ran|, true in ran)
    decreases |ran|
  {
    hide RunFrom, FailedRequest;
    if ran == [] {
      RunNothing(s);
    } else {
      var t := RunFrom(s, FailedRequest(h, ran[0]));
      RequestFails(s, h, ran[0]);
      RequestsFail(t, h, ran[1..]);
      RunAppend(s, FailedRequest(h, ran[0]), FailedRequests(h, ran[1..]));
      assert true in ran <==> ran[0] || true in ran[1..];
    }
  }

  /** A delivery whose first requests fail, up to its next request. */
  function Retried(s: State, entry: nat, ran: seq<bool>): seq<Step> {
    [Deliver(entry)] + FailedRequests(s.started, ran)
  }

  lemma RetriesAreMade(configured: bool, steps: seq<Step>, entry: nat, ran: seq<bool>)
    requires var s := After(configured, steps);
             configured && Open(s, entry) && entry !in s.marked && ValidDurable(s.entries[entry].Sequence())
    requires |ran| <= MAX_REQUEST_RETRIES
    ensures var s := After(configured, steps);
            var row := RowOf(s.entries[entry]);
            var t := RunFrom(s, Retried(s, entry, ran));
            && s.started in t.handlers && t.handlers[s.started] == Handler(entry, row, Requesting(|ran|, None))
            && t.acked == s.acked && t.rendered == s.rendered && t.marked == s.marked && t.entries == s.entries
            && t.deadLettered == s.deadLettered && t.store == s.store + (if true in ran then {row} else {})
  {
    hide After, RunFrom, Next, FailedRequests;
    var s := After(configured, steps);
    var s1 := Next(s, Deliver(entry));
    RunKeepsInvariant(configured, steps);
    StaysConfigured(configured, steps);
    StartsCleanly(s, entry);
    DeliverLeaves(s, entry);
    RequestsFail(s1, s.started, ran);
    RunCons(s, Deliver(entry), FailedRequests(s.started, ran));
  }

  lemma DeliverLeaves(s: State, entry: nat)
    requires Open(s, entry) && entry !in s.marked
    ensures var t := Next(s, Deliver(entry));
            t.marked == s.marked && t.entries == s.entries && t.deadLettered == s.deadLettered
  {
    hide Admit;
  }

  /** From any reachable state: a delivery whose request fails retryably up to three times, whether or not the
      server ran it then, goes on; with the next request answered it is acknowledged and its row stored, and it
      is rendered exactly if the answered request is the one that added the row. */
  lemma RetriedDeliveryCompletes(configured: bool, steps: seq<Step>, entry: nat, ran: seq<bool>)
    requires var s := After(configured, steps);
             configured && Open(s, entry) && entry !in s.marked && ValidDurable(s.entries[entry].Sequence())
    requires |ran| <= 3
    ensures var s := After(configured, steps);
            var row := RowOf(s.entries[entry]);
            var h := s.started;
            var t := RunFrom(s, Retried(s, entry, ran) +
                                [Execute(h), Respond(h), Render(h), Mark(h), Acknowledge(h)]);
            && t.acked == s.acked + {entry} && t.store == s.store + {row}
            && t.rendered == s.rendered + if row in s.store || true in ran then [] else [row]
  {
    hide After, RunFrom, Next, Retried;
    var s := After(configured, steps);
    var h := s.started;
    var s1 := RunFrom(s, Retried(s, entry, ran));
    RetriesAreMade(configured, steps, entry, ran);
    RunAppend(s, Retried(s, entry, ran), [Execute(h), Respond(h), Render(h), Mark(h), Acknowledge(h)]);
    FiveSteps(s1, h);
    AnswerArrives(s1, h);
    RenderAndAcknowledge(Next(Next(s1, Execute(h)), Respond(h)), h);
  }

  lemma FiveSteps(s: State, h: nat)
    ensures RunFrom(s, [Execute(h), Respond(h), Render(h), Mark(h), Acknowledge(h)]) ==
            Next(Next(Next(Next(Next(s, Execute(h)), Respond(h)), Render(h)), Mark(h)), Acknowledge(h))
  {
    hide Next, RunFrom;
    assert [Execute(h), Respond(h), Render(h), Mark(h), Acknowledge(h)] ==
           [Execute(h)] + [Respond(h), Render(h), Mark(h), Acknowledge(h)];
    RunCons(s, Execute(h), [Respond(h), Render(h), Mark(h), Acknowledge(h)]);
    var s1 := Next(s, Execute(h));
    assert [Respond(h), Render(h), Mark(h), Acknowledge(h)] == [Respond(h)] + [Render(h), Mark(h), Acknowledge(h)];
    RunCons(s1, Respond(h), [Render(h), Mark(h), Acknowledge(h)]);
    var s2 := Next(s1, Respond(h));
    assert [Render(h), Mark(h), Acknowledge(h)] == [Render(h)] + [Mark(h), Acknowledge(h)];
    RunCons(s2, Render(h), [Mark(h), Acknowledge(h)]);
    var s3 := Next(s2, Render(h));
    assert [Mark(h), Acknowledge(h)] == [Mark(h)] + [Acknowledge(h)];
    RunCons(s3, Mark(h), [Acknowledge(h)]);
    var s4 := Next(s3, Mark(h));
    assert [Acknowledge(h)] + [] == [Acknowledge(h)];
    RunCons(s4, Acknowledge(h), []);
    RunNothing(Next(s4, Acknowledge(h)));
  }

  /** A request that runs and is answered, whichever attempt it is. */
  lemma AnswerArrives(s: State, h: nat)
    requires h in s.handlers && s.handlers[h].phase.Requesting? && s.handlers[h].phase.reply.None?
    ensures var t := Next(Next(s, Execute(h)), Respond(h));
            && h in t.handlers && t.handlers[h] == s.handlers[h].(phase := Decided(s.handlers[h].row !in s.store))
            && t.acked == s.acked && t.store == s.store + {s.handlers[h].row} && t.rendered == s.rendered
  {
  }

  /** A permanent failure at any attempt, or a fourth failure, ends the handler: nothing is rendered, marked or
      acknowledged, and the entry stays open for a redelivery. */
  lemma FinalFailureLeavesEntryOpen(configured: bool, steps: seq<Step>, entry: nat, ran: seq<bool>, last: bool,
                                    retryable: bool)
    requires var s := After(configured, steps);
             configured && Open(s, entry) && entry !in s.marked && ValidDurable(s.entries[entry].Sequence())
    requires |ran| <= 3 && (retryable ==> |ran| == 3)
    ensures var s := After(configured, steps);
            var h := s.started;
            var t := RunFrom(s, Retried(s, entry, ran) +
                                ((if last then [Execute(h)] else []) + [FailRequest(h, retryable)]));
            && h !in t.handlers && Open(t, entry) && t.marked == s.marked
            && t.acked == s.acked && t.rendered == s.rendered
            && t.store == s.store + if last || true in ran then {RowOf(s.entries[entry])} else {}
  {
    hide After, RunFrom, Retried;
    var s := After(configured, steps);
    var h := s.started;
    var s1 := RunFrom(s, Retried(s, entry, ran));
    var end := (if last then [Execute(h)] else []) + [FailRequest(h, retryable)];
    RetriesAreMade(configured, steps, entry, ran);
    RunAppend(s, Retried(s, entry, ran), end);
    if last {
      RunCons(s1, Execute(h), [FailRequest(h, retryable)]);
    } else {
      assert [] + [FailRequest(h, retryable)] == [FailRequest(h, retryable)];
    }
    var s2 := if last then Next(s1, Execute(h)) else s1;
    assert [FailRequest(h, retryable)] + [] == [FailRequest(h, retryable)];
    RunCons(s2, FailRequest(h, retryable), []);
    RunNothing(Next(s2, FailRequest(h, retryable)));
    FailureEnds(s1, h, last, retryable);
  }

  lemma FailureEnds(s: State, h: nat, ran: bool, retryable: bool)
    requires h in s.handlers && s.handlers[h].phase.Requesting? && s.handlers[h].phase.reply.None?
    requires retryable ==> s.handlers[h].phase.attempt == 3
    ensures var s2 := if ran then Next(s, Execute(h)) else s;
            var t := Next(s2, FailRequest(h, retryable));
            && h !in t.handlers && t.acked == s.acked && t.rendered == s.rendered && t.marked == s.marked
            && t.entries == s.entries && t.deadLettered == s.deadLettered
            && t.store == s.store + if ran then {s.handlers[h].row} else {}
  {
  }

  // ---------------------------------------------------------------- how many requests a handler makes

  /** With this step the handler sends a request: its first, or a retry. */
  predicate SendsRequest(s: State, step: Step, h: nat) {
    var t := Next(s, step);
    && h in t.handlers && t.handlers[h].phase.Requesting?
    && !(h in s.handlers && s.handlers[h].phase.Requesting? &&
         s.handlers[h].phase.attempt == t.handlers[h].phase.attempt)
  }

  function Requests(configured: bool, steps: seq<Step>, h: nat): nat {
    if steps == [] then 0
    else
      var init := steps[..|steps| - 1];
      Requests(configured, init, h) + if SendsRequest(After(configured, init), steps[|steps| - 1], h) then 1 else 0
  }

  ghost predicate RequestsCounted(s: State, h: nat, sent: nat) {
    if h in s.handlers && s.handlers[h].phase.Requesting? then
      sent == s.handlers[h].phase.attempt + 1 && sent <= 4 && h < s.started
    else if h < s.started then sent <= 4
    else sent == 0
  }

  lemma RequestsStep(s: State, step: Step, h: nat, sent: nat)
    requires RequestsCounted(s, h, sent) && HandlersSound(s)
    ensures RequestsCounted(Next(s, step), h, sent + if SendsRequest(s, step, h) then 1 else 0)
  {
    hide Admit, HandlerSound;
  }

  lemma {:induction false} RequestsAreCounted(configured: bool, steps: seq<Step>, h: nat)
    ensures RequestsCounted(After(configured, steps), h, Requests(configured, steps, h))
  {
    hide Next, SendsRequest;
    if steps != [] {
      var init := steps[..|steps| - 1];
      RequestsAreCounted(configured, init, h);
      RunKeepsInvariant(configured, init);
      RequestsStep(After(configured, init), steps[|steps| - 1], h, Requests(configured, init, h));
    }
  }

  /** In every run no handler sends more than four requests. */
  lemma AtMostFourRequests(configured: bool, steps: seq<Step>, h: nat)
    ensures Requests(configured, steps, h) <= 4
  {
    hide After, Requests;
    RequestsAreCounted(configured, steps, h);
  }

  // ---------------------------------------------------------------- nothing else happens

  /** Without an API client nothing is stored, rendered or acknowledged: every entry stays pending. */
  lemma {:induction false} NothingWithoutClient(steps: seq<Step>)
    ensures var s := After(false, steps);
            s.handlers == map[] && s.store == {} && s.rendered == [] && s.acked == {} && s.marked == {} &&
            s.abandoned == {}
  {
    if steps != [] {
      NothingWithoutClient(steps[..|steps| - 1]);
      StaysConfigured(false, steps[..|steps| - 1]);
      NoClientStep(After(false, steps[..|steps| - 1]), steps[|steps| - 1]);
    }
  }

  lemma NoClientStep(s: State, step: Step)
    requires !s.configured && s.handlers == map[] && s.store == {} && s.rendered == [] && s.acked == {}
    requires s.marked == {} && s.abandoned == {}
    ensures var t := Next(s, step);
            t.handlers == map[] && t.store == {} && t.rendered == [] && t.acked == {} && t.marked == {} &&
            t.abandoned == {}
  {
    hide Admit;
    match step
    case Deliver(entry) =>
      if Open(s, entry) {
        DurableNeverDropped(s.guard, s.entries[entry]);
      }
    case _ =>
  }

  /** A render that throws ends the handler and leaves its entry open, unmarked and unacknowledged. */
  lemma FailedRenderLeavesEntryOpen(configured: bool, steps: seq<Step>, h: nat, published: bool)
    requires var s := After(configured, steps); h in s.handlers && s.handlers[h].phase == Decided(true)
    ensures var s := After(configured, steps);
            var t := Next(s, FailRender(h, published));
            && h !in t.handlers && t.acked == s.acked && t.marked == s.marked && t.store == s.store
            && s.handlers[h].row in t.store
  {
    RunKeepsInvariant(configured, steps);
    assert HandlerSound(After(configured, steps).entries, After(configured, steps).store,
                        After(configured, steps).rendered, After(configured, steps).handlers[h]);
  }

  // ---------------------------------------------------------------- what a step leaves alone

  /** The handler that a step is about. */
  predicate IsAbout(step: Step, h: nat) {
    match step
    case Execute(g) => g == h
    case Respond(g) => g == h
    case FailRequest(g, _) => g == h
    case Render(g) => g == h
    case FailRender(g, _) => g == h
    case Mark(g) => g == h
    case Acknowledge(g) => g == h
    case Crash => true
    case _ => false
  }

  lemma OtherHandlerStays(s: State, step: Step, h: nat)
    requires h in s.handlers && h < s.started && !IsAbout(step, h)
    ensures h in Next(s, step).handlers && Next(s, step).handlers[h] == s.handlers[h]
  {
    hide Admit, Inserted;
  }

  lemma DeadLettersStay(s: State, step: Step)
    ensures s.deadLettered <= Next(s, step).deadLettered
    ensures step.Quarantine? ==>
              var t := Next(s, step);
              t == s.(deadLettered := t.deadLettered) && t.deadLettered <= s.deadLettered + {step.entry}
  {
    hide Admit, Inserted;
  }

  /** In every run handlers do not disturb one another: only a step of its own, or a crash, changes or ends one,
      and a quarantine does nothing but set its entry aside for good. */
  lemma HandlersAreIndependent(configured: bool, steps: seq<Step>, step: Step, h: nat)
    ensures var s, t := After(configured, steps), Next(After(configured, steps), step);
            && (h in s.handlers && !IsAbout(step, h) ==> h in t.handlers && t.handlers[h] == s.handlers[h])
            && (step.Quarantine? ==>
                  t == s.(deadLettered := t.deadLettered) && t.deadLettered <= s.deadLettered + {step.entry})
            && (forall entry | entry in s.deadLettered :: !Open(t, entry))
  {
    hide Next, After, IsAbout;
    RunKeepsInvariant(configured, steps);
    var s := After(configured, steps);
    DeadLettersStay(s, step);
    if h in s.handlers && !IsAbout(step, h) {
      OtherHandlerStays(s, step, h);
    }
  }
}
