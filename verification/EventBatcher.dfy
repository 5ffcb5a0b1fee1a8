/**
 The session-event and native-event batchers: one buffer per job, sent to the API as snapshots whose
 acknowledged prefix is then removed. The two batchers run the same code on different event types.
 A step is one run of code between awaits: a call, a timer, the answer to a request, or the `finally`
 callback that clears the flushing promise.
 */
module EventBatcher {

  datatype JobId = JobId(text: string)

  const EVENT_BATCH_SIZE := 20

  /** flushing in the source: null, a promise whose loop is running, or one whose `finally` is due. */
  datatype Flushing = NotFlushing | Looping | Finishing

  /** timer: the handle is not null; armed: the timer will still fire. */
  datatype Buffer<E> = Buffer(events: seq<E>, timer: bool, armed: bool, flushing: Flushing)

  datatype Request<E> = Request(job: JobId, events: seq<E>, open: bool)

  /** added and acked are histories: what was put in, and what the API acknowledged, per job. */
  datatype State<E> = State(buffers: map<JobId, Buffer<E>>, requests: seq<Request<E>>,
                            added: map<JobId, seq<E>>, acked: map<JobId, seq<E>>)
  {
    function BufferOf(job: JobId): Buffer<E> {
      if job in buffers then buffers[job] else Buffer([], false, false, NotFlushing)
    }

    function Added(job: JobId): seq<E> {
      if job in added then added[job] else []
    }

    function Acked(job: JobId): seq<E> {
      if job in acked then acked[job] else []
    }
  }

  function Initial<E>(): State<E> {
    State(map[], [], map[], map[])
  }

  datatype Step<E> =
    | Add(job: JobId, event: E)
    | Flush(job: JobId)
    | TimerFires(job: JobId)
    | Succeed(request: nat)
    | Fail(request: nat)
    | Settle(job: JobId)
    | Destroy

  function Send<E>(s: State<E>, job: JobId): State<E>
    requires job in s.buffers
  {
    s.(buffers := s.buffers[job := s.buffers[job].(flushing := Looping)],
       requests := s.requests + [Request(job, s.buffers[job].events, true)])
  }

  function FlushJob<E>(s: State<E>, job: JobId): State<E> {
    if job !in s.buffers then s
    else
      var b := if s.buffers[job].timer then s.buffers[job].(timer := false, armed := false) else s.buffers[job];
      var t := s.(buffers := s.buffers[job := b]);
      if b.events == [] || b.flushing != NotFlushing then t else Send(t, job)
  }

  function AddEvent<E>(s: State<E>, job: JobId, event: E): State<E> {
    var b := s.BufferOf(job);
    var c := b.(events := b.events + [event]);
    var t := s.(buffers := s.buffers[job := c], added := s.added[job := s.Added(job) + [event]]);
    if |c.events| >= EVENT_BATCH_SIZE then FlushJob(t, job)
    else if !c.timer then t.(buffers := t.buffers[job := c.(timer := true, armed := true)])
    else t
  }

  predicate IsOpen<E>(s: State<E>, r: nat) {
    r < |s.requests| && s.requests[r].open && s.requests[r].job in s.buffers
  }

  /** events.splice(0, n). */
  function Spliced<E>(events: seq<E>, n: nat): seq<E> {
    if n <= |events| then events[n..] else []
  }

  function Acknowledge<E>(s: State<E>, r: nat): State<E>
    requires IsOpen(s, r)
  {
    var job, sent := s.requests[r].job, s.requests[r].events;
    var b := s.buffers[job].(events := Spliced(s.buffers[job].events, |sent|));
    var t := s.(requests := s.requests[r := s.requests[r].(open := false)],
                acked := s.acked[job := s.Acked(job) + sent],
                buffers := s.buffers[job := b]);
    if b.events != [] then Send(t, job) else t.(buffers := t.buffers[job := b.(flushing := Finishing)])
  }

  function Reject<E>(s: State<E>, r: nat): State<E>
    requires IsOpen(s, r)
  {
    var job := s.requests[r].job;
    s.(requests := s.requests[r := s.requests[r].(open := false)],
       buffers := s.buffers[job := s.buffers[job].(flushing := Finishing)])
  }

  /** Nothing is buffered and no flush is under way, for any job. */
  predicate NothingPending<E>(s: State<E>) {
    forall job | job in s.buffers :: s.buffers[job].events == [] && s.buffers[job].flushing == NotFlushing
  }

  /** destroy clears every timer, then either drops the buffers or throws. */
  function DestroyAll<E>(s: State<E>): State<E> {
    if NothingPending(s) then s.(buffers := map[])
    else s.(buffers := map job | job in s.buffers :: s.buffers[job].(armed := false))
  }

  function Next<E>(s: State<E>, step: Step<E>): State<E> {
    match step
    case Add(job, event) => AddEvent(s, job, event)
    case Flush(job) => FlushJob(s, job)
    case TimerFires(job) => if s.BufferOf(job).armed then FlushJob(s, job) else s
    case Succeed(r) => if IsOpen(s, r) then Acknowledge(s, r) else s
    case Fail(r) => if IsOpen(s, r) then Reject(s, r) else s
    case Settle(job) =>
      if s.BufferOf(job).flushing == Finishing
      then s.(buffers := s.buffers[job := s.BufferOf(job).(flushing := NotFlushing)]) else s
    case Destroy => DestroyAll(s)
  }

  function After<E>(steps: seq<Step<E>>): State<E> {
    if steps == [] then Initial() else Next(After(steps[..|steps| - 1]), steps[|steps| - 1])
  }

  // ---------------------------------------------------------------- the mutable form

  /** The batcher of the source: the map of buffers, updated in place, and the API calls it makes. */
  class Batcher<E> {
    var buffers: map<JobId, Buffer<E>>
    var requests: seq<Request<E>>
    ghost var added: map<JobId, seq<E>>
    ghost var acked: map<JobId, seq<E>>

    ghost function Abstract(): State<E>
      reads this
    {
      State(buffers, requests, added, acked)
    }

    constructor ()
      ensures Abstract() == Initial()
    {
      buffers, requests, added, acked := map[], [], map[], map[];
    }

    method DoFlush(job: JobId)
      modifies this
      ensures Abstract() == FlushJob(old(Abstract()), job)
    {
      if job !in buffers {
        return;
      }
      var buffer := buffers[job];
      if buffer.timer {
        buffer := buffer.(timer := false, armed := false);
      }
      buffers := buffers[job := buffer];
      if buffer.events == [] {
        return;
      }
      if buffer.flushing != NotFlushing {
        return;
      }
      SendSnapshot(job);
    }

    /** One turn of the flush loop: send a copy of everything buffered. */
    method SendSnapshot(job: JobId)
      requires job in buffers
      modifies this
      ensures Abstract() == Send(old(Abstract()), job)
    {
      buffers := buffers[job := buffers[job].(flushing := Looping)];
      requests := requests + [Request(job, buffers[job].events, true)];
    }

    method Add(job: JobId, event: E)
      modifies this
      ensures Abstract() == AddEvent(old(Abstract()), job, event)
    {
      if job !in buffers {
        buffers := buffers[job := Buffer([], false, false, NotFlushing)];
      }
      added := added[job := Abstract().Added(job) + [event]];
      buffers := buffers[job := buffers[job].(events := buffers[job].events + [event])];
      if |buffers[job].events| >= EVENT_BATCH_SIZE {
        DoFlush(job);
        return;
      }
      if !buffers[job].timer {
        buffers := buffers[job := buffers[job].(timer := true, armed := true)];
      }
    }

    method RequestSucceeded(r: nat)
      requires IsOpen(Abstract(), r)
      modifies this
      ensures Abstract() == Acknowledge(old(Abstract()), r)
    {
      var job, events := requests[r].job, requests[r].events;
      requests := requests[r := requests[r].(open := false)];
      acked := acked[job := Abstract().Acked(job) + events];
      buffers := buffers[job := buffers[job].(events := Spliced(buffers[job].events, |events|))];
      if buffers[job].events != [] {
        SendSnapshot(job);
      } else {
        buffers := buffers[job := buffers[job].(flushing := Finishing)];
      }
    }

    method RequestFailed(r: nat)
      requires IsOpen(Abstract(), r)
      modifies this
      ensures Abstract() == Reject(old(Abstract()), r)
    {
      var job := requests[r].job;
      requests := requests[r := requests[r].(open := false)];
      buffers := buffers[job := buffers[job].(flushing := Finishing)];
    }

    /** Returns whether the batcher was destroyed; false stands for the thrown error. */
    method DestroyBatcher() returns (destroyed: bool)
      modifies this
      ensures destroyed <==> NothingPending(old(Abstract()))
      ensures Abstract() == DestroyAll(old(Abstract()))
    {
      destroyed := forall job | job in buffers :: buffers[job].events == [] && buffers[job].flushing == NotFlushing;
      if destroyed {
        buffers := map[];
      } else {
        buffers := map job | job in buffers :: buffers[job].(armed := false);
      }
    }
  }

  // ---------------------------------------------------------------- every interleaving

  /** What holds for one job between steps. */
  ghost predicate JobSound<E>(s: State<E>, job: JobId) {
    && s.Added(job) == s.Acked(job) + s.BufferOf(job).events
    && (forall q, r | 0 <= q < r < |s.requests| && s.requests[q].open && s.requests[r].open ::
          s.requests[q].job == job ==> s.requests[r].job != job)
    && (forall r | 0 <= r < |s.requests| && s.requests[r].open && s.requests[r].job == job ::
          job in s.buffers && s.buffers[job].flushing == Looping &&
          s.requests[r].events != [] && s.requests[r].events <= s.buffers[job].events)
    && (s.BufferOf(job).flushing == Looping ==>
          exists r :: 0 <= r < |s.requests| && s.requests[r].open && s.requests[r].job == job)
  }

  lemma SendKeeps<E>(s: State<E>, job: JobId, j: JobId)
    requires job in s.buffers && s.buffers[job].events != []
    requires j != job ==> JobSound(s, j)
    requires s.Added(job) == s.Acked(job) + s.buffers[job].events
    requires forall r | 0 <= r < |s.requests| && s.requests[r].open :: s.requests[r].job != job
    ensures JobSound(Send(s, job), j)
  {
    var t := Send(s, job);
    if j == job {
      assert t.requests[|s.requests|].open;
    } else if t.BufferOf(j).flushing == Looping {
      var r :| 0 <= r < |s.requests| && s.requests[r].open && s.requests[r].job == j;
      assert t.requests[r] == s.requests[r];
    }
  }

  lemma FlushKeeps<E>(s: State<E>, job: JobId, j: JobId)
    requires JobSound(s, j) && JobSound(s, job)
    ensures JobSound(FlushJob(s, job), j)
  {
    if job in s.buffers {
      var b := if s.buffers[job].timer then s.buffers[job].(timer := false, armed := false) else s.buffers[job];
      var t := s.(buffers := s.buffers[job := b]);
      assert JobSound(t, j) && JobSound(t, job);
      if b.events != [] && b.flushing == NotFlushing {
        SendKeeps(t, job, j);
      }
    }
  }

  /** A new event at the end of its job's buffer. */
  lemma AppendKeeps<E>(s: State<E>, job: JobId, event: E, timer: bool, armed: bool, j: JobId)
    requires JobSound(s, j)
    ensures var b := s.BufferOf(job);
            JobSound(s.(buffers := s.buffers[job := b.(events := b.events + [event], timer := timer, armed := armed)],
                        added := s.added[job := s.Added(job) + [event]]), j)
  {
    var b := s.BufferOf(job);
    var t := s.(buffers := s.buffers[job := b.(events := b.events + [event], timer := timer, armed := armed)],
                added := s.added[job := s.Added(job) + [event]]);
    if j == job {
      assert s.Acked(j) + (b.events + [event]) == s.Acked(j) + b.events + [event];
    } else {
      assert t.BufferOf(j) == s.BufferOf(j) && t.Added(j) == s.Added(j);
    }
  }

  lemma AddKeeps<E>(s: State<E>, job: JobId, event: E, j: JobId)
    requires JobSound(s, j) && JobSound(s, job)
    ensures JobSound(AddEvent(s, job, event), j)
  {
    hide JobSound, FlushJob;
    var b := s.BufferOf(job);
    AppendKeeps(s, job, event, b.timer, b.armed, j);
    AppendKeeps(s, job, event, b.timer, b.armed, job);
    AppendKeeps(s, job, event, true, true, j);
    var t := s.(buffers := s.buffers[job := b.(events := b.events + [event])],
                added := s.added[job := s.Added(job) + [event]]);
    assert t.buffers[job] == b.(events := b.events + [event], timer := b.timer, armed := b.armed);
    FlushKeeps(t, job, j);
    assert t.buffers[job := t.buffers[job].(timer := true, armed := true)] ==
           s.buffers[job := b.(events := b.events + [event], timer := true, armed := true)];
  }

  /** Closing a request whose events leave the buffer for the acknowledged ones. */
  function Closed<E>(s: State<E>, r: nat): State<E>
    requires IsOpen(s, r)
  {
    var job, sent := s.requests[r].job, s.requests[r].events;
    s.(requests := s.requests[r := s.requests[r].(open := false)],
       acked := s.acked[job := s.Acked(job) + sent],
       buffers := s.buffers[job := s.buffers[job].(events := Spliced(s.buffers[job].events, |sent|))])
  }

  lemma ClosedForOthers<E>(s: State<E>, r: nat, j: JobId)
    requires JobSound(s, j) && IsOpen(s, r) && j != s.requests[r].job
    ensures JobSound(Closed(s, r), j)
  {
    var t := Closed(s, r);
    assert t.BufferOf(j) == s.BufferOf(j) && t.Acked(j) == s.Acked(j);
    if s.BufferOf(j).flushing == Looping {
      var q :| 0 <= q < |s.requests| && s.requests[q].open && s.requests[q].job == j;
      assert t.requests[q] == s.requests[q];
    }
  }

  lemma ClosedForItsJob<E>(s: State<E>, r: nat)
    requires IsOpen(s, r) && JobSound(s, s.requests[r].job)
    ensures var job := s.requests[r].job;
            var t := Closed(s, r);
            && t.Added(job) == t.Acked(job) + t.buffers[job].events
            && forall q | 0 <= q < |t.requests| && t.requests[q].open :: t.requests[q].job != job
  {
    var job, sent := s.requests[r].job, s.requests[r].events;
    var events := s.buffers[job].events;
    assert events == sent + Spliced(events, |sent|);
    assert s.Acked(job) + events == s.Acked(job) + sent + Spliced(events, |sent|);
  }

  lemma AcknowledgeKeeps<E>(s: State<E>, r: nat, j: JobId)
    requires JobSound(s, j) && IsOpen(s, r) && JobSound(s, s.requests[r].job)
    ensures JobSound(Acknowledge(s, r), j)
  {
    var job := s.requests[r].job;
    var t := Closed(s, r);
    ClosedForItsJob(s, r);
    if j != job {
      ClosedForOthers(s, r, j);
    }
    if t.buffers[job].events != [] {
      hide JobSound;
      SendKeeps(t, job, j);
    } else {
      FinishingKeeps(t, job, j);
    }
  }

  lemma FinishingKeeps<E>(s: State<E>, job: JobId, j: JobId)
    requires job in s.buffers && (j != job ==> JobSound(s, j))
    requires s.Added(job) == s.Acked(job) + s.buffers[job].events
    requires forall q | 0 <= q < |s.requests| && s.requests[q].open :: s.requests[q].job != job
    ensures JobSound(s.(buffers := s.buffers[job := s.buffers[job].(flushing := Finishing)]), j)
  {
  }

  lemma RejectKeeps<E>(s: State<E>, r: nat, j: JobId)
    requires JobSound(s, j) && IsOpen(s, r) && JobSound(s, s.requests[r].job)
    ensures JobSound(Reject(s, r), j)
  {
    var t := Reject(s, r);
    if j != s.requests[r].job && s.BufferOf(j).flushing == Looping {
      var q :| 0 <= q < |s.requests| && s.requests[q].open && s.requests[q].job == j;
      assert t.requests[q] == s.requests[q];
    }
  }

  lemma SettleKeeps<E>(s: State<E>, job: JobId, j: JobId)
    requires JobSound(s, j)
    ensures JobSound(Next(s, Settle(job)), j)
  {
    var t := Next(s, Settle(job));
    if t.BufferOf(j).flushing == Looping {
      var q :| 0 <= q < |s.requests| && s.requests[q].open && s.requests[q].job == j;
      assert t.requests[q] == s.requests[q];
    }
  }

  lemma DestroyKeeps<E>(s: State<E>, j: JobId)
    requires JobSound(s, j)
    ensures JobSound(DestroyAll(s), j)
  {
    var t := DestroyAll(s);
    if t.BufferOf(j).flushing == Looping {
      var q :| 0 <= q < |s.requests| && s.requests[q].open && s.requests[q].job == j;
      assert t.requests[q] == s.requests[q];
    }
  }

  lemma StepKeeps<E>(s: State<E>, step: Step<E>, j: JobId)
    requires forall job :: JobSound(s, job)
    ensures JobSound(Next(s, step), j)
  {
    assert JobSound(s, j);
    match step
    case Add(job, event) => assert JobSound(s, job); AddKeeps(s, job, event, j);
    case Flush(job) => assert JobSound(s, job); FlushKeeps(s, job, j);
    case TimerFires(job) => assert JobSound(s, job); FlushKeeps(s, job, j);
    case Succeed(r) =>
      if IsOpen(s, r) {
        assert JobSound(s, s.requests[r].job);
        AcknowledgeKeeps(s, r, j);
      }
    case Fail(r) =>
      if IsOpen(s, r) {
        assert JobSound(s, s.requests[r].job);
        RejectKeeps(s, r, j);
      }
    case Settle(job) => SettleKeeps(s, job, j);
    case Destroy => DestroyKeeps(s, j);
  }

  lemma {:induction false} RunKeepsSound<E>(steps: seq<Step<E>>, j: JobId)
    ensures JobSound(After(steps), j)
  {
    if steps != [] {
      var init := steps[..|steps| - 1];
      var s := After(init);
      forall job ensures JobSound(s, job) {
        RunKeepsSound(init, job);
      }
      StepKeeps(s, steps[|steps| - 1], j);
    }
  }

  /** In every interleaving of adds, flushes, timers and API answers, for every job: the acknowledged
      batches in order followed by the buffer are exactly the events added, and at most one request
      is in flight. */
  lemma EventsAreConserved<E>(steps: seq<Step<E>>, job: JobId)
    ensures var s := After(steps); s.Added(job) == s.Acked(job) + s.BufferOf(job).events
    ensures var s := After(steps);
            forall q, r | 0 <= q < r < |s.requests| && s.requests[q].open && s.requests[r].open ::
              s.requests[q].job == job ==> s.requests[r].job != job
  {
    RunKeepsSound(steps, job);
  }

  /** destroy goes through only when every event ever added has been acknowledged and no request is
      in flight. */
  lemma DestroyLosesNothing<E>(steps: seq<Step<E>>, job: JobId)
    requires NothingPending(After(steps))
    ensures var s := After(steps);
            && s.Added(job) == s.Acked(job)
            && forall r | 0 <= r < |s.requests| && s.requests[r].open :: s.requests[r].job != job
  {
    RunKeepsSound(steps, job);
  }

  // ---------------------------------------------------------------- events that nothing will send

  /** The job's buffer holds events, but no timer is armed for them and no request carries them. */
  predicate Uncovered<E>(s: State<E>, job: JobId) {
    var b := s.BufferOf(job);
    b.events != [] && !b.armed && b.flushing != Looping
  }

  /** The step calls doFlush for the job, and finds events. */
  predicate FlushesJob<E>(s: State<E>, step: Step<E>, job: JobId) {
    var b := s.BufferOf(job);
    match step
    case Flush(j) => j == job && b.events != []
    case TimerFires(j) => j == job && b.events != [] && b.armed
    case Add(j, _) => j == job && |b.events| + 1 >= 20
    case _ => false
  }

  predicate AddsOne<E>(step: Step<E>, job: JobId) {
    step.Add? && step.job == job
  }

  /** The ways events get uncovered: their request fails while no timer is armed; a destroy that throws
      clears the timer; a flush comes while the last one's finally is due; or a new event finds the handle
      of a timer that such a destroy cleared, and arms no other. */
  predicate Strands<E>(s: State<E>, step: Step<E>, job: JobId) {
    var b := s.BufferOf(job);
    || (step.Fail? && IsOpen(s, step.request) && s.requests[step.request].job == job && !b.armed)
    || (step.Destroy? && !NothingPending(s) && b.events != [] && b.flushing != Looping)
    || (FlushesJob(s, step, job) && b.flushing == Finishing)
    || (AddsOne(step, job) && !FlushesJob(s, step, job) && b.timer && !b.armed && b.flushing != Looping)
  }

  /** The ways uncovered events are covered again: an event arms a timer, or a flush sends the buffer. */
  predicate Rescues<E>(s: State<E>, step: Step<E>, job: JobId) {
    var b := s.BufferOf(job);
    || (FlushesJob(s, step, job) && b.flushing == NotFlushing)
    || (AddsOne(step, job) && !FlushesJob(s, step, job) && !b.timer)
  }

  ghost predicate ArmedHasTimer<E>(s: State<E>, job: JobId) {
    s.BufferOf(job).armed ==> s.BufferOf(job).timer
  }

  lemma FlushCovers<E>(s: State<E>, j: JobId, job: JobId)
    requires ArmedHasTimer(s, job)
    ensures var t, b := FlushJob(s, j), s.BufferOf(job);
            && ArmedHasTimer(t, job)
            && (j != job ==> t.BufferOf(job) == b)
            && (j == job ==> (Uncovered(t, job) <==> b.events != [] && b.flushing == Finishing))
  {
  }

  lemma AddCovers<E>(s: State<E>, j: JobId, event: E, job: JobId)
    requires ArmedHasTimer(s, job)
    ensures var t, step := AddEvent(s, j, event), Add(j, event);
            && ArmedHasTimer(t, job)
            && (Uncovered(t, job) <==> Strands(s, step, job) || (Uncovered(s, job) && !Rescues(s, step, job)))
  {
    hide FlushJob, NothingPending, IsOpen;
    var b := s.BufferOf(j);
    var u := s.(buffers := s.buffers[j := b.(events := b.events + [event])],
                added := s.added[j := s.Added(j) + [event]]);
    assert u.BufferOf(job) == if j == job then b.(events := b.events + [event]) else s.BufferOf(job);
    FlushCovers(u, j, job);
  }

  lemma AnswerCovers<E>(s: State<E>, r: nat, job: JobId)
    requires ArmedHasTimer(s, job) && IsOpen(s, r) && JobSound(s, s.requests[r].job)
    ensures ArmedHasTimer(Acknowledge(s, r), job) && ArmedHasTimer(Reject(s, r), job)
    ensures Uncovered(Acknowledge(s, r), job) <==> Uncovered(s, job)
    ensures Uncovered(Reject(s, r), job) <==>
            (s.requests[r].job == job && !s.BufferOf(job).armed) || Uncovered(s, job)
  {
    var j := s.requests[r].job;
    assert s.buffers[j].flushing == Looping && s.buffers[j].events != [];
  }

  lemma DestroyCovers<E>(s: State<E>, job: JobId)
    requires ArmedHasTimer(s, job)
    ensures var t, b := DestroyAll(s), s.BufferOf(job);
            && ArmedHasTimer(t, job)
            && (Uncovered(t, job) <==> !NothingPending(s) && b.events != [] && b.flushing != Looping)
            && (Uncovered(s, job) ==> !NothingPending(s))
  {
  }

  lemma StepCovers<E>(s: State<E>, step: Step<E>, job: JobId)
    requires ArmedHasTimer(s, job) && forall j :: JobSound(s, j)
    ensures ArmedHasTimer(Next(s, step), job)
    ensures Uncovered(Next(s, step), job) <==>
            Strands(s, step, job) || (Uncovered(s, job) && !Rescues(s, step, job))
  {
    hide FlushJob, AddEvent, Acknowledge, Reject, DestroyAll, NothingPending, JobSound;
    match step
    case Add(j, event) => AddCovers(s, j, event, job);
    case Flush(j) => FlushCovers(s, j, job);
    case TimerFires(j) => FlushCovers(s, j, job);
    case Succeed(r) =>
      if IsOpen(s, r) {
        AnswerCovers(s, r, job);
      }
    case Fail(r) =>
      if IsOpen(s, r) {
        AnswerCovers(s, r, job);
      }
    case Settle(j) =>
    case Destroy => DestroyCovers(s, job);
  }

  lemma {:induction false} RunHasTimers<E>(steps: seq<Step<E>>, job: JobId)
    ensures ArmedHasTimer(After(steps), job)
  {
    hide Next;
    if steps != [] {
      var init := steps[..|steps| - 1];
      RunHasTimers(init, job);
      forall j ensures JobSound(After(init), j) {
        RunKeepsSound(init, j);
      }
      StepCovers(After(init), steps[|steps| - 1], job);
    }
  }

  /** Some step stranded the job's events and no later one covered them again. */
  ghost predicate Stranded<E>(steps: seq<Step<E>>, job: JobId) {
    exists i: nat :: i < |steps| && StrandedAt(steps, i, job)
  }

  ghost predicate StrandedAt<E>(steps: seq<Step<E>>, i: nat, job: JobId)
    requires i < |steps|
  {
    && Strands(After(steps[..i]), steps[i], job)
    && forall k: nat | i < k < |steps| :: !Rescues(After(steps[..k]), steps[k], job)
  }

  lemma StrandedStep<E>(steps: seq<Step<E>>, job: JobId)
    requires steps != []
    ensures var last := |steps| - 1;
            var init := steps[..last];
            Stranded(steps, job) <==>
            Strands(After(init), steps[last], job) || (Stranded(init, job) && !Rescues(After(init), steps[last], job))
  {
    hide Strands, Rescues, After;
    var last := |steps| - 1;
    var init := steps[..last];
    forall i: nat | i < last ensures StrandedAt(steps, i, job) <==>
                                     StrandedAt(init, i, job) && !Rescues(After(init), steps[last], job) {
      StrandedAtPrefix(steps, i, job);
    }
    if Strands(After(init), steps[last], job) {
      assert StrandedAt(steps, last, job);
    }
    if Stranded(init, job) && !Rescues(After(init), steps[last], job) {
      var i: nat :| i < last && StrandedAt(init, i, job);
      assert StrandedAt(steps, i, job);
    }
  }

  lemma StrandedAtPrefix<E>(steps: seq<Step<E>>, i: nat, job: JobId)
    requires i < |steps| - 1
    ensures var last := |steps| - 1;
            StrandedAt(steps, i, job) <==>
            StrandedAt(steps[..last], i, job) && !Rescues(After(steps[..last]), steps[last], job)
  {
    hide Strands, Rescues, After;
    var last := |steps| - 1;
    var init := steps[..last];
    assert forall k: nat | k <= last :: init[..k] == steps[..k];
    assert forall k: nat | k < last :: init[k] == steps[k];
  }

  /** Buffered events have neither an armed timer nor a request exactly if one of the four ways to strand
      them was taken and nothing has armed a timer or sent the buffer since. In particular an idle buffer
      with events in it is armed in every other run. */
  lemma {:induction false} UncoveredIffStranded<E>(steps: seq<Step<E>>, job: JobId)
    ensures Uncovered(After(steps), job) <==> Stranded(steps, job)
  {
    hide Strands, Rescues, Next;
    if steps != [] {
      var init := steps[..|steps| - 1];
      UncoveredIffStranded(init, job);
      StrandedStep(steps, job);
      RunHasTimers(init, job);
      forall j ensures JobSound(After(init), j) {
        RunKeepsSound(init, j);
      }
      StepCovers(After(init), steps[|steps| - 1], job);
    }
  }

  lemma AfterOne<E>(steps: seq<Step<E>>, step: Step<E>)
    ensures After(steps + [step]) == Next(After(steps), step)
  {
    assert (steps + [step])[..|steps|] == steps;
  }

  /** No failure is needed: an event that comes between a successful flush and its finally is stranded by
      a further flush in that window. */
  lemma FlushBeforeFinallyStrands<E>(job: JobId, first: E, second: E)
    ensures var s := After([Add(job, first), Flush(job), Succeed(0)] + [Add(job, second)] + [Flush(job)]);
            s.BufferOf(job) == Buffer([second], false, false, Finishing) && Uncovered(s, job)
  {
    hide After;
    FirstIsAcknowledged(job, first);
    var sent := [Add(job, first), Flush(job), Succeed(0)];
    AfterOne(sent, Add(job, second));
    AfterOne(sent + [Add(job, second)], Flush(job));
  }

  lemma FirstIsAcknowledged<E>(job: JobId, first: E)
    ensures After([Add(job, first), Flush(job), Succeed(0)]).BufferOf(job) == Buffer([], false, false, Finishing)
    ensures job in After([Add(job, first), Flush(job), Succeed(0)]).buffers
  {
    hide After;
    var none: seq<Step<E>> := [];
    AfterNone<E>();
    AfterOne(none, Add(job, first));
    AfterOne([Add(job, first)], Flush(job));
    AfterOne([Add(job, first), Flush(job)], Succeed(0));
    assert none + [Add(job, first)] == [Add(job, first)];
    assert [Add(job, first)] + [Flush(job)] == [Add(job, first), Flush(job)];
    assert [Add(job, first), Flush(job)] + [Succeed(0)] == [Add(job, first), Flush(job), Succeed(0)];
    assert After([Add(job, first)]).buffers[job] == Buffer([first], true, true, NotFlushing);
    var s := After([Add(job, first), Flush(job)]);
    assert s.requests == [Request(job, [first], true)] && s.buffers[job] == Buffer([first], false, false, Looping);
  }

  lemma AfterNone<E>()
    ensures After<E>([]) == Initial()
  {
  }

  function Adds<E>(job: JobId, events: seq<E>): seq<Step<E>> {
    if events == [] then [] else Adds(job, events[..|events| - 1]) + [Add(job, events[|events| - 1])]
  }

  /** The job's buffer holds these events and the handle of a timer that was cleared; nothing was ever sent. */
  ghost predicate Stuck<E>(s: State<E>, job: JobId, events: seq<E>) {
    s.BufferOf(job) == Buffer(events, true, false, NotFlushing) && s.requests == []
  }

  lemma DestroyGetsStuck<E>(job: JobId, first: E)
    ensures Stuck(After([Add(job, first), Destroy]), job, [first])
  {
    hide FlushJob;
    assert After<E>([]) == Initial();
    assert After([Add(job, first)]) == AddEvent(Initial(), job, first) by {
      assert [Add(job, first)][..0] == [];
    }
    var s := AddEvent(Initial(), job, first);
    assert s.BufferOf(job) == Buffer([first], true, true, NotFlushing);
    assert [Add(job, first), Destroy][..1] == [Add(job, first)];
  }

  lemma AddStaysStuck<E>(s: State<E>, job: JobId, events: seq<E>, event: E)
    requires Stuck(s, job, events) && |events| + 1 < EVENT_BATCH_SIZE
    ensures Stuck(AddEvent(s, job, event), job, events + [event])
  {
    hide FlushJob;
  }

  /** After a destroy that threw, further events below the batch size start no timer and no request, and
      the timer that was armed before never fires. */
  lemma {:induction false} StuckAfterFailedDestroy<E>(job: JobId, first: E, more: seq<E>)
    requires 1 + |more| < 20
    ensures var s := After([Add(job, first), Destroy] + Adds(job, more));
            Stuck(s, job, [first] + more) && Next(s, TimerFires(job)) == s
  {
    hide Stuck, AddEvent;
    var start := [Add(job, first), Destroy];
    var steps := start + Adds(job, more);
    if more == [] {
      DestroyGetsStuck(job, first);
      assert steps == start && [first] + more == [first];
    } else {
      var init, last := more[..|more| - 1], more[|more| - 1];
      StuckAfterFailedDestroy(job, first, init);
      assert steps[..|steps| - 1] == start + Adds(job, init) && steps[|steps| - 1] == Add(job, last);
      AddStaysStuck(After(start + Adds(job, init)), job, [first] + init, last);
      assert [first] + more == [first] + init + [last];
    }
    StuckTimer(After(steps), job, [first] + more);
  }

  lemma StuckTimer<E>(s: State<E>, job: JobId, events: seq<E>)
    requires Stuck(s, job, events)
    ensures Next(s, TimerFires(job)) == s
  {
  }

  // ---------------------------------------------------------------- what is sent, and when

  /** A request for the job is due: a flush finds events and no flush under way, or events came while the request
      that now succeeds was out. */
  predicate Due<E>(s: State<E>, step: Step<E>, job: JobId) {
    var b := s.BufferOf(job);
    || (FlushesJob(s, step, job) && b.flushing == NotFlushing)
    || (step.Succeed? && IsOpen(s, step.request) && s.requests[step.request].job == job &&
        |b.events| > |s.requests[step.request].events|)
  }

  /** The requests so far, with the one that the step answers closed. */
  function Answered<E>(s: State<E>, step: Step<E>): seq<Request<E>> {
    if (step.Succeed? || step.Fail?) && IsOpen(s, step.request)
    then s.requests[step.request := s.requests[step.request].(open := false)]
    else s.requests
  }

  lemma SentByFlush<E>(s: State<E>, step: Step<E>, job: JobId)
    requires step == Flush(job) || (step == TimerFires(job) && s.BufferOf(job).armed)
    ensures var t := FlushJob(s, job);
            t.requests == s.requests + if Due(s, step, job) then [Request(job, t.BufferOf(job).events, true)] else []
  {
  }

  lemma SentByAdd<E>(s: State<E>, job: JobId, event: E)
    ensures var t := AddEvent(s, job, event);
            t.requests == s.requests +
              if Due(s, Add(job, event), job) then [Request(job, t.BufferOf(job).events, true)] else []
  {
  }

  lemma SentByAnswer<E>(s: State<E>, r: nat)
    requires IsOpen(s, r) && s.requests[r].events <= s.BufferOf(s.requests[r].job).events
    ensures var t, job := Acknowledge(s, r), s.requests[r].job;
            t.requests == Answered(s, Succeed(r)) +
              if Due(s, Succeed(r), job) then [Request(job, t.BufferOf(job).events, true)] else []
  {
  }

  /** The only job for which the step can be due to send something. */
  function JobOf<E>(s: State<E>, step: Step<E>): JobId {
    match step
    case Add(job, _) => job
    case Flush(job) => job
    case TimerFires(job) => job
    case Settle(job) => job
    case Succeed(r) => if IsOpen(s, r) then s.requests[r].job else JobId("")
    case Fail(r) => if IsOpen(s, r) then s.requests[r].job else JobId("")
    case Destroy => JobId("")
  }

  lemma SentByStep<E>(s: State<E>, step: Step<E>)
    requires forall job :: JobSound(s, job)
    ensures var t, job := Next(s, step), JobOf(s, step);
            && t.requests == Answered(s, step) +
                 (if Due(s, step, job) then [Request(job, t.BufferOf(job).events, true)] else [])
            && forall j | Due(s, step, j) :: j == job
  {
    hide FlushJob, AddEvent, Acknowledge;
    assert Answered(s, step) + [] == Answered(s, step);
    match step
    case Add(job, event) => SentByAdd(s, job, event);
    case Flush(job) => SentByFlush(s, step, job);
    case TimerFires(job) =>
      if s.BufferOf(job).armed {
        SentByFlush(s, step, job);
      }
    case Succeed(r) =>
      if IsOpen(s, r) {
        assert JobSound(s, s.requests[r].job);
        SentByAnswer(s, r);
      }
    case _ =>
  }

  /** After every run: a step sends a request for a job exactly if one is due for it, at most one, and it carries
      everything then buffered for the job; earlier requests change only by being answered. */
  lemma RequestsAreSentExactly<E>(steps: seq<Step<E>>, step: Step<E>)
    ensures var s, t := After(steps), After(steps + [step]);
            && (forall job | Due(s, step, job) ::
                  t.requests == Answered(s, step) + [Request(job, t.BufferOf(job).events, true)])
            && ((forall job :: !Due(s, step, job)) ==> t.requests == Answered(s, step))
  {
    hide Next, JobSound, Due, Answered;
    AfterOne(steps, step);
    forall job ensures JobSound(After(steps), job) {
      RunKeepsSound(steps, job);
    }
    SentByStep(After(steps), step);
  }

  lemma NothingDue<E>(s: State<E>, step: Step<E>, job: JobId)
    requires JobSound(s, job) && s.BufferOf(job).flushing == Finishing
    ensures !Due(s, step, job)
    ensures (step.Succeed? || step.Fail?) && IsOpen(s, step.request) ==> s.requests[step.request].job != job
  {
  }

  /** While a `finally` is due nothing is due for its job, and its buffer only grows. */
  lemma FinishingBuffer<E>(s: State<E>, step: Step<E>, job: JobId)
    requires JobSound(s, job) && s.BufferOf(job).flushing == Finishing && step != Settle(job)
    ensures !Due(s, step, job)
    ensures var t := Next(s, step);
            t.BufferOf(job).flushing == Finishing && s.BufferOf(job).events <= t.BufferOf(job).events
  {
    hide JobSound, Due;
    NothingDue(s, step, job);
  }

  lemma FinishingStays<E>(s: State<E>, step: Step<E>, job: JobId)
    requires (forall j :: JobSound(s, j)) && s.BufferOf(job).flushing == Finishing && step != Settle(job)
    ensures var t := Next(s, step);
            && t.BufferOf(job).flushing == Finishing && s.BufferOf(job).events <= t.BufferOf(job).events
            && |s.requests| <= |t.requests|
            && (forall q | 0 <= q < |s.requests| :: t.requests[q].job == s.requests[q].job)
            && forall q | |s.requests| <= q < |t.requests| :: t.requests[q].job != job
  {
    hide Next, JobSound, Due;
    assert JobSound(s, job);
    FinishingBuffer(s, step, job);
    SentByStep(s, step);
  }

  lemma {:induction false} NothingWhileFinishing<E>(steps: seq<Step<E>>, later: seq<Step<E>>, job: JobId)
    requires After(steps).BufferOf(job).flushing == Finishing && Settle(job) !in later
    ensures var s, t := After(steps), After(steps + later);
            && t.BufferOf(job).flushing == Finishing && s.BufferOf(job).events <= t.BufferOf(job).events
            && |s.requests| <= |t.requests|
            && forall q | |s.requests| <= q < |t.requests| :: t.requests[q].job != job
    decreases |later|
  {
    hide Next, JobSound;
    if later == [] {
      assert steps + later == steps;
    } else {
      var init, step := later[..|later| - 1], later[|later| - 1];
      NothingWhileFinishing(steps, init, job);
      assert steps + later == (steps + init) + [step];
      AfterOne(steps + init, step);
      forall j ensures JobSound(After(steps + init), j) {
        RunKeepsSound(steps + init, j);
      }
      FinishingStays(After(steps + init), step, job);
    }
  }

  lemma FailureIsFinishing<E>(steps: seq<Step<E>>, r: nat)
    requires IsOpen(After(steps), r)
    ensures var s, t := After(steps), After(steps + [Fail(r)]);
            var job := s.requests[r].job;
            && t.BufferOf(job).flushing == Finishing && t.BufferOf(job).events == s.BufferOf(job).events
            && s.requests[r].events <= s.BufferOf(job).events && |t.requests| == |s.requests|
  {
    hide After;
    AfterOne(steps, Fail(r));
    RunKeepsSound(steps, After(steps).requests[r].job);
  }

  /** A request that failed is not repeated until its `finally` has run, whatever happens: no request of its job
      goes out before. Its events stay at the front of the buffer, and the first flush after that sends them
      again, with all that came since. */
  lemma FailedEventsAreSentAgain<E>(steps: seq<Step<E>>, r: nat, later: seq<Step<E>>)
    requires IsOpen(After(steps), r) && Settle(After(steps).requests[r].job) !in later
    ensures var s, t := After(steps), After(steps + [Fail(r)] + later);
            var job := s.requests[r].job;
            var u := After(steps + [Fail(r)] + later + [Settle(job)] + [Flush(job)]);
            && (forall q | |s.requests| <= q < |t.requests| :: t.requests[q].job != job)
            && |u.requests| == |t.requests| + 1
            && var again := u.requests[|t.requests|];
               && again == Request(job, t.BufferOf(job).events, true)
               && s.requests[r].events <= s.BufferOf(job).events <= again.events
  {
    hide After, FlushJob;
    var failed := steps + [Fail(r)];
    var job := After(steps).requests[r].job;
    FailureIsFinishing(steps, r);
    NothingWhileFinishing(failed, later, job);
    var t := After(failed + later);
    AfterOne(failed + later, Settle(job));
    AfterOne(failed + later + [Settle(job)], Flush(job));
    RunKeepsSound(steps, job);
    FirstFlushSends(t, job);
  }

  lemma FirstFlushSends<E>(t: State<E>, job: JobId)
    requires t.BufferOf(job).flushing == Finishing && t.BufferOf(job).events != []
    ensures Next(Next(t, Settle(job)), Flush(job)).requests ==
            t.requests + [Request(job, t.BufferOf(job).events, true)]
  {
  }

  /** Everything added has been acknowledged, and no flush is under way. */
  ghost predicate AllDone<E>(s: State<E>) {
    forall job :: s.Added(job) == s.Acked(job) && s.BufferOf(job).flushing == NotFlushing
  }

  /** destroy goes through, and drops the empty buffers, exactly if all is done; otherwise it throws, and every
      buffer keeps its events but loses its timer. Either way nothing is sent. */
  lemma DestroyIsExact<E>(steps: seq<Step<E>>)
    ensures var s, t := After(steps), After(steps + [Destroy]);
            && (NothingPending(s) <==> AllDone(s))
            && (AllDone(s) ==> t.buffers == map[])
            && (!AllDone(s) ==> forall job :: t.BufferOf(job) == s.BufferOf(job).(armed := false))
            && t.requests == s.requests && t.added == s.added && t.acked == s.acked
  {
    AfterOne(steps, Destroy);
    var s := After(steps);
    forall job ensures s.Added(job) == s.Acked(job) <==> s.BufferOf(job).events == [] {
      RunKeepsSound(steps, job);
    }
    if AllDone(s) {
      forall job | job in s.buffers ensures s.buffers[job].events == [] && s.buffers[job].flushing == NotFlushing {
        assert s.buffers[job] == s.BufferOf(job);
      }
    }
  }

  /** So many events of the job and nothing else: fewer than twenty wait under an armed timer, the twentieth has
      sent them all. */
  ghost predicate Counted<E>(s: State<E>, job: JobId, events: seq<E>) {
    if |events| < 20
    then s.requests == [] && s.BufferOf(job) == Buffer(events, events != [], events != [], NotFlushing)
    else s.requests == [Request(job, events, true)] && s.BufferOf(job) == Buffer(events, false, false, Looping)
  }

  lemma NextIsCounted<E>(s: State<E>, job: JobId, events: seq<E>, event: E)
    requires |events| < 20 && Counted(s, job, events)
    ensures Counted(AddEvent(s, job, event), job, events + [event])
  {
  }

  lemma {:induction false} TwentiethEventSends<E>(job: JobId, events: seq<E>)
    requires |events| <= 20
    ensures Counted(After(Adds(job, events)), job, events)
  {
    hide AddEvent;
    if events == [] {
      AfterNone<E>();
    } else {
      var steps := Adds(job, events);
      var init, last := events[..|events| - 1], events[|events| - 1];
      assert steps[..|steps| - 1] == Adds(job, init) && steps[|steps| - 1] == Add(job, last);
      TwentiethEventSends(job, init);
      NextIsCounted(After(Adds(job, init)), job, init, last);
      assert events == init + [last];
    }
  }
}
