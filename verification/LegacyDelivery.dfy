/**
 Legacy (not durable.v2) canonical events from the stream to the projection: the bridge numbers each
 event itself and derives the event's identity from that number. Events of one job are handled one at
 a time in arrival order, which the job turnstile provides, so a run is a sequence of handled entries,
 interrupted by restarts of the bridge process, whose guard lives in memory.
 */
module LegacyDelivery {
  import opened Wrappers
  import opened SequenceGuard
  import opened SessionProjection
  import Decimal
  import Separator

  /** A stream entry, the producer's number if it carries one, and whether persisting and rendering
      it succeed; if not, the handler throws after the guard was updated. */
  datatype Input = Input(envelope: Envelope, producer: Option<int>, succeeds: bool)

  datatype Step = Entry(input: Input) | Restart

  /** offered: the envelopes that left the guard, in order, on their way to the database and renderer. */
  datatype Bridge = Bridge(guard: GuardState, offered: seq<Envelope>)

  const START := Bridge(EMPTY_GUARD, [])

  /** buildOutboundCanonicalEnvelope for a legacy envelope: new number, stale identity removed. */
  function BuildOutbound(e: Envelope, sequence: int): Envelope {
    Normalize(e.(sequenceNumber := sequence, eventId := None, metadata := e.metadata.(eventId := None)))
  }

  predicate IsTerminal(e: Event) {
    e.JobCompleted? || e.JobIncomplete? || e.JobFailed? || e.JobCancelled?
  }

  function Handle(b: Bridge, x: Input): Bridge {
    var job := x.envelope.jobId;
    var g0 := if x.envelope.event.JobStarted? then b.guard.ResetHighWater(job) else b.guard;
    var (g1, dropped) := if x.producer.Some? then g0.Check(job, x.producer.value, false) else (g0, Ok(false));
    if dropped == Ok(true) then Bridge(g1, b.offered)
    else
      var number := if x.producer.Some? then Number(x.producer.value) else NotFinite;
      var (g2, sent) := g1.Resolve(job, number, false);
      if sent.Err? then Bridge(g2, b.offered)
      else Bridge(if x.succeeds && IsTerminal(x.envelope.event) then g2.Cleanup(job) else g2,
                  b.offered + [BuildOutbound(x.envelope, sent.value)])
  }

  function Next(b: Bridge, step: Step): Bridge {
    match step
    case Entry(x) => Handle(b, x)
    case Restart => Bridge(EMPTY_GUARD, b.offered)
  }

  function Run(steps: seq<Step>): Bridge {
    if steps == [] then START else Next(Run(steps[..|steps| - 1]), steps[|steps| - 1])
  }

  /** The envelopes of one job, in order. */
  function OfJob(es: seq<Envelope>, job: JobId): seq<Envelope> {
    if es == [] then []
    else
      var last := es[|es| - 1];
      OfJob(es[..|es| - 1], job) + if last.jobId == job then [last] else []
  }

  function JobProjection(steps: seq<Step>, job: JobId): Projection {
    Fold(INITIAL, OfJob(Run(steps).offered, job))
  }

  predicate IsOf(step: Step, job: JobId) {
    step.Entry? && step.input.envelope.jobId == job
  }

  /** The step makes the guard forget a job that it has numbered: the cleanup after a terminal event, or a
      restart once an event of the job was offered. */
  ghost predicate Forgets(steps: seq<Step>, i: nat, job: JobId)
    requires i < |steps|
  {
    match steps[i]
    case Entry(x) =>
      && x.envelope.jobId == job && x.succeeds && IsTerminal(x.envelope.event)
      && |Run(steps[..i + 1]).offered| > |Run(steps[..i]).offered|
    case Restart => OfJob(Run(steps[..i]).offered, job) != []
  }

  /** No entry of the job is handled after the guard forgot it. */
  ghost predicate NothingAfterForgotten(steps: seq<Step>, job: JobId) {
    forall i: nat, k | i < k < |steps| && Forgets(steps, i, job) :: !IsOf(steps[k], job)
  }

  lemma {:induction false} FoldAppend(p: Projection, es: seq<Envelope>, e: Envelope)
    ensures Fold(p, es + [e]) == Reduce(Fold(p, es), e)
    decreases |es|
  {
    if es == [] {
      assert (es + [e])[1..] == [];
    } else {
      assert (es + [e])[1..] == es[1..] + [e];
      FoldAppend(Reduce(p, es[0]), es[1..], e);
    }
  }

  // ---------------------------------------------------------------- distinct identities

  /** An outbound legacy envelope's id is job:number:kind, whatever identity the producer gave it. */
  lemma OutboundIdentity(e: Envelope, sequence: int)
    ensures var o := BuildOutbound(e, sequence);
            && o.jobId == e.jobId && o.sequenceNumber == sequence && o.event == e.event
            && GetEventId(o) == DerivedEventId(o)
  {
    var bare := e.(sequenceNumber := sequence, eventId := None, metadata := e.metadata.(eventId := None));
    assert GetEventId(bare) == DerivedEventId(bare);
    assert |DerivedEventId(bare)| >= 1;
  }

  /** For one job, envelopes with different numbers have different derived ids. */
  lemma DerivedIdsDiffer(a: Envelope, b: Envelope)
    requires a.jobId == b.jobId && a.sequenceNumber != b.sequenceNumber
    ensures DerivedEventId(a) != DerivedEventId(b)
  {
    hide Decimal.ToString, Kind;
    if DerivedEventId(a) == DerivedEventId(b) {
      var m, n := Decimal.ToString(a.sequenceNumber), Decimal.ToString(b.sequenceNumber);
      var job := a.jobId + ":";
      assert DerivedEventId(a) == job + (m + ":" + Kind(a.event));
      assert DerivedEventId(b) == job + (n + ":" + Kind(b.event));
      assert DerivedEventId(a)[|job|..] == m + ":" + Kind(a.event);
      assert DerivedEventId(b)[|job|..] == n + ":" + Kind(b.event);
      Separator.FirstPart(':', m, Kind(a.event), n, Kind(b.event));
      Decimal.ToStringInjective(a.sequenceNumber, b.sequenceNumber);
    }
  }

  // ---------------------------------------------------------------- one job, before its cleanup

  /** The job's outbound envelopes are numbered 0, 1, 2, ... and carry their derived ids. */
  ghost predicate NumberedInOrder(es: seq<Envelope>, job: JobId) {
    forall k | 0 <= k < |es| ::
      es[k].jobId == job && es[k].sequenceNumber == k && GetEventId(es[k]) == DerivedEventId(es[k])
  }

  /** The projection of such envelopes: every processed id belongs to one of them. */
  ghost predicate FoldedCleanly(es: seq<Envelope>, p: Projection) {
    && p.duplicateCount == 0 && p.outOfOrderCount == 0 && p.lastSequenceNumber == |es| - 1
    && forall id | id in p.processedEventIds :: exists k :: 0 <= k < |es| && id == GetEventId(es[k])
  }

  lemma ReduceCounts(p: Projection, e: Envelope)
    ensures var q := Reduce(p, e);
            if GetEventId(e) in p.processedEventIds then q == AddDuplicates(p, 1)
            else
              && q.duplicateCount == p.duplicateCount
              && q.outOfOrderCount == p.outOfOrderCount + (if e.sequenceNumber <= p.lastSequenceNumber then 1 else 0)
              && q.lastSequenceNumber >= p.lastSequenceNumber && q.lastSequenceNumber >= e.sequenceNumber
              && (q.lastSequenceNumber == p.lastSequenceNumber || q.lastSequenceNumber == e.sequenceNumber)
              && forall id | id in q.processedEventIds :: id in p.processedEventIds || id == GetEventId(e)
  {
    var m := Normalize(e);
    if GetEventId(e) !in p.processedEventIds {
      SessionProjection.ApplyKeepsCounts(Remember(p, m), m);
    }
  }

  lemma NextFoldsCleanly(es: seq<Envelope>, job: JobId, e: Envelope)
    requires NumberedInOrder(es + [e], job)
    requires FoldedCleanly(es, Fold(INITIAL, es))
    ensures FoldedCleanly(es + [e], Fold(INITIAL, es + [e]))
  {
    var p := Fold(INITIAL, es);
    var all := es + [e];
    FoldAppend(INITIAL, es, e);
    ReduceCounts(p, e);
    assert all[|es|] == e;
    assert GetEventId(e) !in p.processedEventIds by {
      if GetEventId(e) in p.processedEventIds {
        var k :| 0 <= k < |es| && GetEventId(e) == GetEventId(es[k]);
        assert all[k] == es[k];
        DerivedIdsDiffer(e, es[k]);
      }
    }
    forall id | id in Fold(INITIAL, all).processedEventIds
      ensures exists k :: 0 <= k < |all| && id == GetEventId(all[k]) {
      if id in p.processedEventIds {
        var k :| 0 <= k < |es| && id == GetEventId(es[k]);
        assert all[k] == es[k];
      } else {
        assert id == GetEventId(all[|es|]);
      }
    }
  }

  lemma {:induction false} NumberedFoldsCleanly(es: seq<Envelope>, job: JobId)
    requires NumberedInOrder(es, job)
    ensures FoldedCleanly(es, Fold(INITIAL, es))
  {
    if es != [] {
      var init := es[..|es| - 1];
      assert init + [es[|es| - 1]] == es;
      NumberedFoldsCleanly(init, job);
      NextFoldsCleanly(init, job, es[|es| - 1]);
    }
  }

  // ---------------------------------------------------------------- every run

  lemma {:induction false} OfJobAppend(es: seq<Envelope>, e: Envelope, job: JobId)
    ensures OfJob(es + [e], job) == OfJob(es, job) + if e.jobId == job then [e] else []
  {
    assert (es + [e])[..|es|] == es;
  }

  /** What handling one entry does to a job's counter, mark and outbound envelopes. */
  lemma HandleStep(b: Bridge, x: Input, job: JobId)
    ensures var c := Handle(b, x);
            var offers := |c.offered| > |b.offered|;
            var counter := b.guard.Counter(job);
            if x.envelope.jobId != job then
              && c.guard.Counter(job) == counter
              && (job in c.guard.highWaterMarks <==> job in b.guard.highWaterMarks)
              && OfJob(c.offered, job) == OfJob(b.offered, job)
            else if offers then
              && OfJob(c.offered, job) == OfJob(b.offered, job) + [BuildOutbound(x.envelope, counter)]
              && (if x.succeeds && IsTerminal(x.envelope.event)
                  then c.guard.Counter(job) == 0 && job !in c.guard.highWaterMarks
                  else c.guard.Counter(job) == counter + 1)
            else
              && c.guard.Counter(job) == counter && c.offered == b.offered
              && job in b.guard.highWaterMarks
  {
    hide BuildOutbound, IsTerminal, OfJob;
    var c := Handle(b, x);
    if c.offered != b.offered {
      var sent := c.offered[|b.offered|];
      OutboundIdentity(x.envelope, b.guard.Counter(x.envelope.jobId));
      OfJobAppend(b.offered, sent, job);
    }
  }

  lemma ForgetsOfPrefix(steps: seq<Step>, i: nat, job: JobId)
    requires i < |steps| - 1
    ensures Forgets(steps[..|steps| - 1], i, job) <==> Forgets(steps, i, job)
  {
    var init := steps[..|steps| - 1];
    assert init[..i + 1] == steps[..i + 1] && init[..i] == steps[..i];
  }

  ghost predicate Forgotten(steps: seq<Step>, job: JobId) {
    exists i: nat :: i < |steps| && Forgets(steps, i, job)
  }

  lemma ForgottenStep(steps: seq<Step>, job: JobId)
    requires steps != []
    ensures var init := steps[..|steps| - 1];
            Forgotten(steps, job) <==> Forgotten(init, job) || Forgets(steps, |steps| - 1, job)
  {
    hide Forgets;
    var init := steps[..|steps| - 1];
    if Forgotten(init, job) {
      var i: nat :| i < |init| && Forgets(init, i, job);
      ForgetsOfPrefix(steps, i, job);
    }
    if Forgotten(steps, job) && !Forgets(steps, |steps| - 1, job) {
      var i: nat :| i < |steps| && Forgets(steps, i, job);
      ForgetsOfPrefix(steps, i, job);
    }
  }

  lemma NothingAfterStep(steps: seq<Step>, job: JobId)
    requires steps != []
    ensures var init := steps[..|steps| - 1];
            NothingAfterForgotten(steps, job) <==>
            NothingAfterForgotten(init, job) && (Forgotten(init, job) ==> !IsOf(steps[|steps| - 1], job))
  {
    hide Forgets;
    var last := |steps| - 1;
    var init := steps[..last];
    forall i: nat | i < last ensures Forgets(init, i, job) <==> Forgets(steps, i, job) {
      ForgetsOfPrefix(steps, i, job);
    }
    if NothingAfterForgotten(steps, job) {
      forall i: nat, k | i < k < |init| && Forgets(init, i, job) ensures !IsOf(init[k], job) {
        assert steps[k] == init[k];
      }
      if Forgotten(init, job) {
        var i: nat :| i < |init| && Forgets(init, i, job);
        assert Forgets(steps, i, job);
      }
    }
    if NothingAfterForgotten(init, job) && (Forgotten(init, job) ==> !IsOf(steps[last], job)) {
      forall i: nat, k | i < k < |steps| && Forgets(steps, i, job) ensures !IsOf(steps[k], job) {
        assert Forgets(init, i, job);
        if k < last {
          assert init[k] == steps[k];
        }
      }
    }
  }

  /** Until the guard forgets a job, the job's counter is the number of envelopes offered for it. */
  ghost predicate JobState(steps: seq<Step>, job: JobId) {
    var b := Run(steps);
    var es := OfJob(b.offered, job);
    && NumberedInOrder(es, job)
    && (if Forgotten(steps, job) then es != [] && b.guard.Counter(job) == 0 && job !in b.guard.highWaterMarks
        else b.guard.Counter(job) == |es|)
  }

  lemma {:induction false} RunNumbers(steps: seq<Step>, job: JobId)
    requires NothingAfterForgotten(steps, job)
    ensures JobState(steps, job)
  {
    hide Handle;
    if steps != [] {
      var last := |steps| - 1;
      var init := steps[..last];
      ForgottenStep(steps, job);
      NothingAfterStep(steps, job);
      RunNumbers(init, job);
      assert steps[..last + 1] == steps;
      match steps[last]
      case Entry(x) => EntryKeepsState(steps, job);
      case Restart =>
    }
  }

  lemma EntryKeepsState(steps: seq<Step>, job: JobId)
    requires steps != [] && steps[|steps| - 1].Entry?
    requires var init := steps[..|steps| - 1];
             && JobState(init, job) && (Forgotten(init, job) ==> !IsOf(steps[|steps| - 1], job))
             && (Forgotten(steps, job) <==> Forgotten(init, job) || Forgets(steps, |steps| - 1, job))
    ensures JobState(steps, job)
  {
    hide Handle, Forgotten, BuildOutbound, DerivedEventId, GetEventId, IsTerminal;
    var last := |steps| - 1;
    var b, x := Run(steps[..last]), steps[last].input;
    HandleStep(b, x, job);
    assert steps[..last + 1] == steps;
    if x.envelope.jobId == job {
      OutboundIdentity(x.envelope, b.guard.Counter(job));
    }
  }

  lemma CountsNeverShrink(steps: seq<Step>, job: JobId)
    requires steps != []
    ensures var p := JobProjection(steps[..|steps| - 1], job);
            var q := JobProjection(steps, job);
            q.duplicateCount >= p.duplicateCount && q.outOfOrderCount >= p.outOfOrderCount
  {
    hide Handle, Reduce, BuildOutbound;
    var b := Run(steps[..|steps| - 1]);
    var step := steps[|steps| - 1];
    if step.Entry? {
      HandleStep(b, step.input, job);
      var es := OfJob(b.offered, job);
      var fs := OfJob(Run(steps).offered, job);
      if fs != es {
        FoldAppend(INITIAL, es, fs[|es|]);
        ReduceCounts(Fold(INITIAL, es), fs[|es|]);
      }
    }
  }

  /** Across restarts of the producer's numbers, restarts of the bridge, and other jobs in between: as long
      as nothing of the job is handled after the guard forgot it, its outbound numbers are 0, 1, 2, ..., its
      event ids are pairwise distinct, and folding the envelopes counts no duplicate and nothing out of order. */
  lemma LegacyJobFoldsCleanly(steps: seq<Step>, job: JobId)
    requires NothingAfterForgotten(steps, job)
    ensures var es := OfJob(Run(steps).offered, job);
            && NumberedInOrder(es, job)
            && (forall i, k | 0 <= i < k < |es| :: GetEventId(es[i]) != GetEventId(es[k]))
            && JobProjection(steps, job).duplicateCount == 0
            && JobProjection(steps, job).outOfOrderCount == 0
  {
    RunNumbers(steps, job);
    var es := OfJob(Run(steps).offered, job);
    NumberedFoldsCleanly(es, job);
    forall i, k | 0 <= i < k < |es| ensures GetEventId(es[i]) != GetEventId(es[k]) {
      DerivedIdsDiffer(es[i], es[k]);
    }
  }

  /** An event of a job that the guard forgot is numbered 0 again, and the projection notices. */
  lemma ForgottenIsNoticed(steps: seq<Step>, job: JobId)
    requires steps != [] && IsOf(steps[|steps| - 1], job)
    requires NothingAfterForgotten(steps[..|steps| - 1], job) && Forgotten(steps[..|steps| - 1], job)
    ensures JobProjection(steps, job).duplicateCount + JobProjection(steps, job).outOfOrderCount > 0
  {
    hide Handle, Reduce, BuildOutbound, Forgotten, IsTerminal, NothingAfterForgotten;
    var init := steps[..|steps| - 1];
    var x := steps[|steps| - 1].input;
    RunNumbers(init, job);
    var es := OfJob(Run(init).offered, job);
    NumberedFoldsCleanly(es, job);
    HandleStep(Run(init), x, job);
    var e := BuildOutbound(x.envelope, 0);
    OutboundIdentity(x.envelope, 0);
    FoldAppend(INITIAL, es, e);
    ReduceCounts(Fold(INITIAL, es), e);
  }

  /** The condition is exact: one more event of the job after the guard forgot it, by the terminal cleanup or
      by a restart, is numbered 0 again, and the projection counts it as a duplicate or as out of order. */
  lemma {:induction false} CleanExactlyUntilForgotten(steps: seq<Step>, job: JobId)
    ensures NothingAfterForgotten(steps, job) <==>
            JobProjection(steps, job).duplicateCount == 0 && JobProjection(steps, job).outOfOrderCount == 0
  {
    hide Run, OfJob, Fold, Forgotten;
    if NothingAfterForgotten(steps, job) {
      LegacyJobFoldsCleanly(steps, job);
    } else {
      var init := steps[..|steps| - 1];
      NothingAfterStep(steps, job);
      if NothingAfterForgotten(init, job) {
        ForgottenIsNoticed(steps, job);
      } else {
        CleanExactlyUntilForgotten(init, job);
        CountsNeverShrink(steps, job);
      }
    }
  }

  /** The bridge restarts between any two events of a job: the counters of its projection are not both 0. */
  lemma RestartMidJobIsNoticed(x: Input, y: Input)
    requires x.envelope.jobId == y.envelope.jobId
    ensures var p := JobProjection([Entry(x), Restart, Entry(y)], x.envelope.jobId);
            p.duplicateCount > 0 || p.outOfOrderCount > 0
  {
    hide JobProjection, Handle;
    var steps := [Entry(x), Restart, Entry(y)];
    var job := x.envelope.jobId;
    HandleStep(START, x, job);
    assert steps[..1] == [Entry(x)];
    assert Run(steps[..1]) == Handle(START, x) by {
      assert [Entry(x)][..0] == [];
    }
    assert OfJob(Handle(START, x).offered, job) != [];
    assert Forgets(steps, 1, job);
    assert IsOf(steps[2], job);
    CleanExactlyUntilForgotten(steps, job);
  }

  // ---------------------------------------------------------------- what is offered at all

  /** The bridge sends the entry on, to the database and the renderer. */
  predicate Offers(steps: seq<Step>, i: nat)
    requires i < |steps|
  {
    |Run(steps[..i + 1]).offered| > |Run(steps[..i]).offered|
  }

  /** The terminal cleanup after an entry of the job. */
  predicate CleansUp(steps: seq<Step>, i: nat, job: JobId)
    requires i < |steps|
  {
    IsOf(steps[i], job) && steps[i].input.succeeds && IsTerminal(steps[i].input.envelope.event) && Offers(steps, i)
  }

  predicate StartsJob(step: Step, job: JobId) {
    IsOf(step, job) && step.input.envelope.event.JobStarted?
  }

  /** The j-th entry is one of the job with a producer number, and neither a restart nor a job.started has come
      since, nor a terminal cleanup with it or since. */
  predicate Counts(steps: seq<Step>, j: nat, job: JobId) {
    && j < |steps| && IsOf(steps[j], job) && steps[j].input.producer.Some?
    && !CleansUp(steps, j, job)
    && forall r | j < r < |steps| :: !steps[r].Restart? && !StartsJob(steps[r], job) && !CleansUp(steps, r, job)
  }

  lemma OffersOfPrefix(steps: seq<Step>, i: nat)
    requires i < |steps| - 1
    ensures Offers(steps[..|steps| - 1], i) <==> Offers(steps, i)
  {
    var init := steps[..|steps| - 1];
    assert init[..i + 1] == steps[..i + 1] && init[..i] == steps[..i];
  }

  lemma CountsStep(steps: seq<Step>, j: nat, job: JobId)
    requires steps != []
    ensures var last := |steps| - 1;
            var step := steps[last];
            Counts(steps, j, job) <==>
            && !CleansUp(steps, last, job)
            && (if j == last then IsOf(step, job) && step.input.producer.Some?
                else Counts(steps[..last], j, job) && !step.Restart? && !StartsJob(step, job))
  {
    hide Offers, IsTerminal;
    var last := |steps| - 1;
    var init := steps[..last];
    forall r: nat | r < last ensures CleansUp(init, r, job) <==> CleansUp(steps, r, job) {
      OffersOfPrefix(steps, r);
    }
  }

  /** The job's high-water mark, if it has one, is the highest number that counts. */
  ghost predicate MarkIsHighest(steps: seq<Step>, job: JobId) {
    var marks := Run(steps).guard.highWaterMarks;
    if job in marks then
      && (exists j: nat :: Counts(steps, j, job) && steps[j].input.producer.value == marks[job])
      && (forall j: nat | Counts(steps, j, job) :: steps[j].input.producer.value <= marks[job])
    else forall j: nat :: !Counts(steps, j, job)
  }

  /** What handling one entry does to a mark, and when the entry is offered. */
  lemma MarkStep(b: Bridge, x: Input, job: JobId)
    ensures var c := Handle(b, x);
            var marks := b.guard.highWaterMarks;
            var offers := |c.offered| > |b.offered|;
            var open := x.envelope.event.JobStarted? || x.envelope.jobId !in marks;
            && (offers <==> x.producer.None? || open || x.producer.value > marks[x.envelope.jobId])
            && (x.envelope.jobId != job ==>
                  && (job in c.guard.highWaterMarks <==> job in marks)
                  && (job in marks ==> c.guard.highWaterMarks[job] == marks[job]))
    ensures var c := Handle(b, x);
            var marks := b.guard.highWaterMarks;
            var offers := |c.offered| > |b.offered|;
            var before := if x.envelope.event.JobStarted? || job !in marks then None else Some(marks[job]);
            var after := if offers && x.producer.Some? then x.producer else before;
            x.envelope.jobId == job ==>
              if offers && x.succeeds && IsTerminal(x.envelope.event) then job !in c.guard.highWaterMarks
              else if after.None? then job !in c.guard.highWaterMarks
              else job in c.guard.highWaterMarks && c.guard.highWaterMarks[job] == after.value
  {
    hide BuildOutbound, IsTerminal;
  }

  lemma MarkAfterEntry(steps: seq<Step>, job: JobId)
    requires steps != [] && steps[|steps| - 1].Entry? && MarkIsHighest(steps[..|steps| - 1], job)
    ensures MarkIsHighest(steps, job)
  {
    hide Handle, IsTerminal, Counts;
    var last := |steps| - 1;
    var init, x := steps[..last], steps[last].input;
    assert steps[..last + 1] == steps;
    MarkStep(Run(init), x, job);
    forall j: nat ensures Counts(steps, j, job) <==>
      && !CleansUp(steps, last, job)
      && (if j == last then IsOf(steps[last], job) && x.producer.Some?
          else Counts(init, j, job) && !StartsJob(steps[last], job)) {
      CountsStep(steps, j, job);
    }
    forall j: nat | Counts(init, j, job)
      ensures j < last && init[j] == steps[j] && IsOf(init[j], job) && init[j].input.producer.Some? {
      CountedIsOf(init, j, job);
    }
    var marks, after := Run(init).guard.highWaterMarks, Run(steps).guard.highWaterMarks;
    if job in after {
      if IsOf(steps[last], job) && Offers(steps, last) && x.producer.Some? {
        assert Counts(steps, last, job);
      } else {
        var j: nat :| Counts(init, j, job) && init[j].input.producer.value == marks[job];
        assert Counts(steps, j, job);
      }
    }
  }

  lemma CountedIsOf(steps: seq<Step>, j: nat, job: JobId)
    requires Counts(steps, j, job)
    ensures j < |steps| && IsOf(steps[j], job) && steps[j].input.producer.Some?
  {
  }

  lemma {:induction false} RunKeepsMarks(steps: seq<Step>, job: JobId)
    ensures MarkIsHighest(steps, job)
  {
    hide Handle, Counts;
    if steps == [] {
      NothingCounts(job);
    } else {
      RunKeepsMarks(steps[..|steps| - 1], job);
      if steps[|steps| - 1].Entry? {
        MarkAfterEntry(steps, job);
      } else {
        forall j: nat ensures !Counts(steps, j, job) {
          CountsStep(steps, j, job);
        }
      }
    }
  }

  lemma NothingCounts(job: JobId)
    ensures forall j: nat :: !Counts([], j, job)
  {
  }

  /** An entry is sent on exactly if it has no producer number, or is a job.started, or its number is higher than
      every number of its job since the job's last job.started or cleanup, or the last restart. */
  lemma OfferedExactly(steps: seq<Step>, i: nat)
    requires i < |steps| && steps[i].Entry?
    ensures var x := steps[i].input;
            Offers(steps, i) <==>
            || x.producer.None? || x.envelope.event.JobStarted?
            || forall j: nat | Counts(steps[..i], j, x.envelope.jobId) ::
                 steps[..i][j].input.producer.value < x.producer.value
  {
    hide Handle, Counts;
    var x := steps[i].input;
    var job := x.envelope.jobId;
    assert steps[..i + 1][..i] == steps[..i];
    RunKeepsMarks(steps[..i], job);
    MarkStep(Run(steps[..i]), x, job);
    forall j: nat | Counts(steps[..i], j, job)
      ensures j < i && IsOf(steps[..i][j], job) && steps[..i][j].input.producer.Some? {
      CountedIsOf(steps[..i], j, job);
    }
  }

  /** The events of a job's entries, and of its outbound envelopes. */
  function EntryEvents(steps: seq<Step>, job: JobId): seq<Event> {
    if steps == [] then []
    else
      var last := steps[|steps| - 1];
      EntryEvents(steps[..|steps| - 1], job) + if IsOf(last, job) then [last.input.envelope.event] else []
  }

  function Events(es: seq<Envelope>): seq<Event> {
    seq(|es|, i requires 0 <= i < |es| => es[i].event)
  }

  /** The producer numbers of the job's entries go up. */
  ghost predicate NumbersGoUp(steps: seq<Step>, job: JobId) {
    forall i, k | 0 <= i < k < |steps| && IsOf(steps[i], job) && IsOf(steps[k], job) &&
                  steps[i].input.producer.Some? && steps[k].input.producer.Some? ::
      steps[i].input.producer.value < steps[k].input.producer.value
  }

  lemma AttemptEntryIsOffered(pre: seq<Step>, attempt: seq<Step>, job: JobId)
    requires |attempt| > 1 && StartsJob(attempt[0], job) && NumbersGoUp(attempt, job)
    requires IsOf(attempt[|attempt| - 1], job)
    ensures Offers(pre + attempt, |pre + attempt| - 1)
  {
    hide Handle, Offers;
    var all := pre + attempt;
    var last := |all| - 1;
    var init, x := all[..last], all[last].input;
    assert all[last] == attempt[|attempt| - 1];
    if x.producer.Some? {
      forall j: nat | Counts(init, j, job) ensures init[j].input.producer.value < x.producer.value {
        assert init[|pre|] == attempt[0];
        if j >= |pre| {
          assert init[j] == attempt[j - |pre|];
        }
      }
    }
    OfferedExactly(all, last);
  }

  /** A step adds to the job's outbound envelopes exactly the event of an entry that is sent on. */
  lemma EntryAddsEvent(steps: seq<Step>, job: JobId)
    requires steps != [] && (IsOf(steps[|steps| - 1], job) ==> Offers(steps, |steps| - 1))
    ensures var last := |steps| - 1;
            var es, fs := OfJob(Run(steps[..last]).offered, job), OfJob(Run(steps).offered, job);
            if IsOf(steps[last], job) then
              |fs| == |es| + 1 && fs[..|es|] == es && fs[|es|].event == steps[last].input.envelope.event
            else fs == es
  {
    hide Handle, BuildOutbound, OfJob, IsTerminal;
    var last := |steps| - 1;
    var b, step := Run(steps[..last]), steps[last];
    assert steps[..last + 1] == steps;
    if step.Entry? {
      HandleStep(b, step.input, job);
      OutboundIdentity(step.input.envelope, b.guard.Counter(job));
    }
  }

  /** A resumed attempt is sent on completely and in order: after a job.started, wherever the producer's numbers
      start again, every entry of the job goes through as long as the numbers go up. */
  lemma {:induction false} ResumedAttemptIsComplete(pre: seq<Step>, attempt: seq<Step>, job: JobId)
    requires attempt != [] && StartsJob(attempt[0], job) && NumbersGoUp(attempt, job)
    ensures Events(OfJob(Run(pre + attempt).offered, job)) ==
            Events(OfJob(Run(pre).offered, job)) + EntryEvents(attempt, job)
    decreases |attempt|
  {
    hide Run, OfJob, Offers, NumbersGoUp;
    var all := pre + attempt;
    var last, step := |all| - 1, attempt[|attempt| - 1];
    var shorter := attempt[..|attempt| - 1];
    assert all[..last] == pre + shorter && all[last] == step && all[..last + 1] == all;
    var b := Run(pre + shorter);
    if shorter == [] {
      assert pre + shorter == pre;
      assert EntryEvents([], job) == [];
      OfferedExactly(all, last);
    } else {
      assert NumbersGoUp(shorter, job) by {
        PrefixGoesUp(attempt, job);
      }
      ResumedAttemptIsComplete(pre, shorter, job);
      if IsOf(step, job) {
        AttemptEntryIsOffered(pre, attempt, job);
      }
    }
    EntryAddsEvent(all, job);
    OneMoreEvent(OfJob(b.offered, job), OfJob(Run(all).offered, job), pre, job, step, EntryEvents(shorter, job));
  }

  lemma PrefixGoesUp(steps: seq<Step>, job: JobId)
    requires steps != [] && NumbersGoUp(steps, job)
    ensures NumbersGoUp(steps[..|steps| - 1], job)
  {
  }

  lemma OneMoreEvent(es: seq<Envelope>, fs: seq<Envelope>, pre: seq<Step>, job: JobId, step: Step, events: seq<Event>)
    requires Events(es) == Events(OfJob(Run(pre).offered, job)) + events
    requires if IsOf(step, job) then |fs| == |es| + 1 && fs[..|es|] == es && fs[|es|].event == step.input.envelope.event
             else fs == es
    ensures Events(fs) == Events(OfJob(Run(pre).offered, job)) +
                          (events + if IsOf(step, job) then [step.input.envelope.event] else [])
  {
    hide Run, OfJob;
    var before := Events(OfJob(Run(pre).offered, job));
    if IsOf(step, job) {
      assert fs == es + [fs[|es|]];
      assert Events(fs) == Events(es) + [step.input.envelope.event];
      assert before + events + [step.input.envelope.event] == before + (events + [step.input.envelope.event]);
    } else {
      assert events + [] == events;
    }
  }
}
