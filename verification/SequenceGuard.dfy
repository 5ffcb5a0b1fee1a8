/** Per-job sequence tracking of the web bridge: fallback counters and regression high-water marks. */
module SequenceGuard {
  import opened Wrappers

  type JobId = string

  /** A JavaScript number or undefined: absent, present but not finite (NaN), or an integer. */
  datatype ProducerSequence = Absent | NotFinite | Number(value: int)

  datatype GuardError = InvalidDurableSequence

  const MAX_DURABLE_SEQUENCE := 2_147_483_647

  predicate ValidDurable(sequence: ProducerSequence) {
    sequence.Number? && 0 <= sequence.value <= MAX_DURABLE_SEQUENCE
  }

  datatype GuardState = GuardState(counters: map<JobId, int>, highWaterMarks: map<JobId, int>) {
    function Counter(job: JobId): int {
      if job in counters then counters[job] else 0
    }

    function TakeFallback(job: JobId): GuardState {
      GuardState(counters[job := Counter(job) + 1], highWaterMarks)
    }

    /** resolveOutboundSequence: the new state and the sequence to send, or the thrown error. */
    function Resolve(job: JobId, producer: ProducerSequence, durable: bool): (GuardState, Result<int, GuardError>) {
      if durable && !producer.Absent? then
        if !ValidDurable(producer) then (this, Err(InvalidDurableSequence))
        else
          var next := producer.value + 1;
          (GuardState(counters[job := if Counter(job) > next then Counter(job) else next], highWaterMarks),
           Ok(producer.value))
      else (TakeFallback(job), Ok(Counter(job)))
    }

    /** isRegression: the new state and whether to drop the event, or the thrown error. */
    function Check(job: JobId, seq_: int, durable: bool): (GuardState, Result<bool, GuardError>) {
      if durable then
        (this, if ValidDurable(Number(seq_)) then Ok(false) else Err(InvalidDurableSequence))
      else if job in highWaterMarks && seq_ <= highWaterMarks[job] then (this, Ok(true))
      else (GuardState(counters, highWaterMarks[job := seq_]), Ok(false))
    }

    function ResetHighWater(job: JobId): GuardState {
      GuardState(counters, highWaterMarks - {job})
    }

    function Cleanup(job: JobId): GuardState {
      GuardState(counters - {job}, highWaterMarks - {job})
    }
  }

  const EMPTY_GUARD := GuardState(map[], map[])

  /** The guard object of the source: two maps that its methods update. */
  class Guard {
    var counters: map<JobId, int>
    var highWaterMarks: map<JobId, int>

    ghost function Abstract(): GuardState
      reads this
    {
      GuardState(counters, highWaterMarks)
    }

    constructor ()
      ensures Abstract() == EMPTY_GUARD
    {
      counters, highWaterMarks := map[], map[];
    }

    method NextSequence(job: JobId) returns (current: int)
      modifies this
      ensures current == old(Abstract().Counter(job))
      ensures Abstract() == old(Abstract()).TakeFallback(job)
    {
      current := if job in counters then counters[job] else 0;
      counters := counters[job := current + 1];
    }

    method ResolveOutboundSequence(job: JobId, producer: ProducerSequence, durable: bool)
      returns (r: Result<int, GuardError>)
      modifies this
      ensures (Abstract(), r) == old(Abstract()).Resolve(job, producer, durable)
    {
      if durable && !producer.Absent? {
        if !ValidDurable(producer) {
          return Err(InvalidDurableSequence);
        }
        var nextFallback := if job in counters then counters[job] else 0;
        if nextFallback < producer.value + 1 {
          nextFallback := producer.value + 1;
        }
        counters := counters[job := nextFallback];
        return Ok(producer.value);
      }
      var current := if job in counters then counters[job] else 0;
      counters := counters[job := current + 1];
      return Ok(current);
    }

    method IsRegression(job: JobId, seq_: int, durable: bool) returns (r: Result<bool, GuardError>)
      modifies this
      ensures (Abstract(), r) == old(Abstract()).Check(job, seq_, durable)
    {
      if durable {
        if !ValidDurable(Number(seq_)) {
          return Err(InvalidDurableSequence);
        }
        return Ok(false);
      }
      if job in highWaterMarks && seq_ <= highWaterMarks[job] {
        return Ok(true);
      }
      highWaterMarks := highWaterMarks[job := seq_];
      return Ok(false);
    }

    method ResetHighWater(job: JobId)
      modifies this
      ensures Abstract() == old(Abstract()).ResetHighWater(job)
    {
      highWaterMarks := highWaterMarks - {job};
    }

    method Cleanup(job: JobId)
      modifies this
      ensures Abstract() == old(Abstract()).Cleanup(job)
    {
      counters := counters - {job};
      highWaterMarks := highWaterMarks - {job};
    }
  }

  // ---------------------------------------------------------------- runs of guard calls

  datatype Call =
    | Next(job: JobId)
    | ResolveOutbound(job: JobId, producer: ProducerSequence, durable: bool)
    | CheckRegression(job: JobId, seq_: int, durable: bool)
    | Reset(job: JobId)
    | CleanupJob(job: JobId)

  function Apply(s: GuardState, c: Call): GuardState {
    match c
    case Next(job) => s.TakeFallback(job)
    case ResolveOutbound(job, producer, durable) => s.Resolve(job, producer, durable).0
    case CheckRegression(job, seq_, durable) => s.Check(job, seq_, durable).0
    case Reset(job) => s.ResetHighWater(job)
    case CleanupJob(job) => s.Cleanup(job)
  }

  function Run(s: GuardState, calls: seq<Call>): GuardState {
    if calls == [] then s else Apply(Run(s, calls[..|calls| - 1]), calls[|calls| - 1])
  }

  /** The number a call hands out for a job, if it does. */
  function Sent(s: GuardState, c: Call, job: JobId): Option<int> {
    match c
    case Next(j) => if j == job then Some(s.Counter(j)) else None
    case ResolveOutbound(j, producer, durable) =>
      var (_, r) := s.Resolve(j, producer, durable);
      if j == job && r.Ok? then Some(r.value) else None
    case _ => None
  }

  lemma CounterGrows(s: GuardState, c: Call, job: JobId)
    requires c != CleanupJob(job)
    ensures s.Counter(job) <= Apply(s, c).Counter(job)
    ensures Sent(s, c, job).Some? ==> Sent(s, c, job).value < Apply(s, c).Counter(job)
  {
  }

  /** Any number handed out for a job, durable or fallback, is smaller than the counter (the next
      fallback) from then on, as long as the job is not cleaned up. */
  lemma {:induction false} FallbackExceedsEarlier(s: GuardState, calls: seq<Call>, job: JobId, i: nat)
    requires i < |calls| && forall k | i <= k < |calls| :: calls[k] != CleanupJob(job)
    ensures Run(s, calls[..i]).Counter(job) <= Run(s, calls).Counter(job)
    ensures var sent := Sent(Run(s, calls[..i]), calls[i], job);
            sent.Some? ==> sent.value < Run(s, calls).Counter(job)
    decreases |calls|
  {
    hide Apply, Sent;
    var init := calls[..|calls| - 1];
    CounterGrows(Run(s, init), calls[|calls| - 1], job);
    if i < |init| {
      assert init[..i] == calls[..i] && init[i] == calls[i];
      FallbackExceedsEarlier(s, init, job, i);
    } else {
      assert init == calls[..i];
    }
  }

  /** With a mark in force, checks that pass on a job carry strictly increasing numbers. */
  lemma {:induction false} MarkRejectsOlder(s: GuardState, calls: seq<Call>, job: JobId, mark: int)
    requires job in s.highWaterMarks && s.highWaterMarks[job] >= mark
    requires forall c | c in calls :: c != Reset(job) && c != CleanupJob(job)
    ensures var t := Run(s, calls);
            job in t.highWaterMarks && t.highWaterMarks[job] >= mark &&
            forall q | q <= mark :: t.Check(job, q, false) == (t, Ok(true))
  {
    if calls != [] {
      var init := calls[..|calls| - 1];
      assert calls[|calls| - 1] in calls;
      forall c | c in init ensures c in calls {
      }
      MarkRejectsOlder(s, init, job, mark);
    }
  }
}
