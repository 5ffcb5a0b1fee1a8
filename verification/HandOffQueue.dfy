/**
 The hand-off between the BullMQ worker, which runs a handler per job, and the claimers, which ask for
 jobs in batches. A handler parks a completion callback and enqueues its job; a claimer takes jobs
 from the buffer or waits for the next one. A step is one run of code between awaits.
 */
module HandOffQueue {

  datatype JobId = JobId(text: string)

  /** handler: which handler call enqueued the job. */
  datatype Job = Job(jobId: JobId, handler: nat)

  datatype Completion = Completed | Failed | Released

  /** A claimer whose promise is in the waiter list, with its clamped count. */
  datatype Waiter = Waiter(claim: nat, count: nat)

  datatype Delivery = Delivery(claim: nat, jobs: seq<Job>)

  datatype Settlement = Settlement(handler: nat, completion: Completion)

  datatype State = State(
    started: bool,
    buffer: seq<Job>,
    waiters: seq<Waiter>,
    completions: map<JobId, nat>,  // the handler whose callback is registered
    enqueued: seq<Job>,            // every job put in so far, in order
    claims: nat,                   // calls of claimJobs so far
    delivered: seq<Delivery>,      // what claimers got, in order
    dropped: seq<Job>,             // jobs handed to a claimer that keeps fewer
    settlements: seq<Settlement>)  // resolved handler promises, in order

  const INITIAL := State(false, [], [], map[], [], 0, [], [], [])

  const MAX_CLAIM := 50

  /** Math.max(0, Math.min(count, 50)). */
  function SafeCount(count: int): nat {
    if count < 0 then 0 else if count < MAX_CLAIM then count else MAX_CLAIM
  }

  function Min(a: nat, b: nat): nat {
    if a < b then a else b
  }

  datatype Step =
    | Start
    | Process(jobId: JobId)  // BullMQ calls the handler
    | Claim(count: int)
    | Report(jobId: JobId, completion: Completion)
    | Stop

  function Enqueue(s: State, job: Job): State {
    var t := s.(buffer := s.buffer + [job], enqueued := s.enqueued + [job]);
    if s.waiters == [] then t
    else
      var n := Min(s.waiters[0].count, |t.buffer|);
      t.(waiters := s.waiters[1..], buffer := [],
         delivered := s.delivered + [Delivery(s.waiters[0].claim, t.buffer[..n])],
         dropped := s.dropped + t.buffer[n..])
  }

  function ProcessJob(s: State, jobId: JobId): State {
    var handler := |s.enqueued|;
    Enqueue(s.(completions := s.completions[jobId := handler]), Job(jobId, handler))
  }

  function ClaimJobs(s: State, count: int): State {
    var n := SafeCount(count);
    var t := s.(claims := s.claims + 1);
    if !s.started || n == 0 then t.(delivered := s.delivered + [Delivery(s.claims, [])])
    else if s.buffer != [] then
      var k := Min(n, |s.buffer|);
      t.(buffer := s.buffer[k..], delivered := s.delivered + [Delivery(s.claims, s.buffer[..k])])
    else t.(waiters := s.waiters + [Waiter(s.claims, n)])
  }

  function Settle(s: State, jobId: JobId, completion: Completion): State {
    if jobId !in s.completions then s
    else s.(completions := s.completions - {jobId},
            settlements := s.settlements + [Settlement(s.completions[jobId], completion)])
  }

  function EmptyHanded(waiters: seq<Waiter>): seq<Delivery> {
    if waiters == [] then [] else EmptyHanded(waiters[..|waiters| - 1]) + [Delivery(waiters[|waiters| - 1].claim, [])]
  }

  lemma NobodyEmptyHanded(ds: seq<Delivery>)
    ensures ds + EmptyHanded([]) == ds
  {
  }

  lemma OneMoreEmptyHanded(ds: seq<Delivery>, waiters: seq<Waiter>, w: Waiter)
    ensures ds + EmptyHanded(waiters + [w]) == ds + EmptyHanded(waiters) + [Delivery(w.claim, [])]
  {
    assert (waiters + [w])[..|waiters|] == waiters;
  }

  /** order: the entries of the completions map, as stop visits them. */
  function ReleaseAll(s: State, order: seq<JobId>): State {
    if order == [] then s else Settle(ReleaseAll(s, order[..|order| - 1]), order[|order| - 1], Released)
  }

  function NextOf(s: State, step: Step, order: seq<JobId>): State {
    match step
    case Start => s.(started := true)
    case Process(jobId) => ProcessJob(s, jobId)
    case Claim(count) => ClaimJobs(s, count)
    case Report(jobId, completion) => Settle(s, jobId, completion)
    case Stop =>
      ReleaseAll(s.(started := false, waiters := [], delivered := s.delivered + EmptyHanded(s.waiters)), order)
  }

  // ---------------------------------------------------------------- the mutable form

  /** The adapter of the source. */
  class Adapter {
    var started: bool
    var buffer: seq<Job>
    var waiters: seq<Waiter>
    var completions: map<JobId, nat>
    var enqueued: seq<Job>
    var claims: nat
    var delivered: seq<Delivery>
    var dropped: seq<Job>
    var settlements: seq<Settlement>

    ghost function Abstract(): State
      reads this
    {
      State(started, buffer, waiters, completions, enqueued, claims, delivered, dropped, settlements)
    }

    constructor ()
      ensures Abstract() == INITIAL
    {
      started, buffer, waiters, completions := false, [], [], map[];
      enqueued, claims, delivered, dropped, settlements := [], 0, [], [], [];
    }

    method EnqueueToBuffer(job: Job)
      modifies this
      ensures Abstract() == Enqueue(old(Abstract()), job)
    {
      buffer := buffer + [job];
      enqueued := enqueued + [job];
      if waiters != [] {
        var waiter := waiters[0];
        waiters := waiters[1..];
        var all := buffer;
        buffer := [];
        var n := Min(waiter.count, |all|);
        delivered := delivered + [Delivery(waiter.claim, all[..n])];
        dropped := dropped + all[n..];
      }
    }

    method Handle(jobId: JobId)
      modifies this
      ensures Abstract() == ProcessJob(old(Abstract()), jobId)
    {
      var handler := |enqueued|;
      completions := completions[jobId := handler];
      EnqueueToBuffer(Job(jobId, handler));
    }

    method NextJobs(count: int)
      modifies this
      ensures Abstract() == ClaimJobs(old(Abstract()), count)
    {
      var claim := claims;
      claims := claims + 1;
      var safeCount := SafeCount(count);
      if !started || safeCount == 0 {
        delivered := delivered + [Delivery(claim, [])];
        return;
      }
      if buffer != [] {
        var k := Min(safeCount, |buffer|);
        delivered := delivered + [Delivery(claim, buffer[..k])];
        buffer := buffer[k..];
        return;
      }
      waiters := waiters + [Waiter(claim, safeCount)];
    }

    method ReportCompletion(jobId: JobId, completion: Completion)
      modifies this
      ensures Abstract() == Settle(old(Abstract()), jobId, completion)
    {
      if jobId !in completions {
        return;
      }
      var handler := completions[jobId];
      completions := completions - {jobId};
      settlements := settlements + [Settlement(handler, completion)];
    }

    /** Wakes any waiting claimers empty-handed. */
    method WakeClaimers()
      modifies this
      ensures Abstract() == old(Abstract()).(waiters := [], delivered := old(delivered) + EmptyHanded(old(waiters)))
    {
      hide EmptyHanded;
      ghost var s := Abstract();
      ghost var woken: nat := 0;
      NobodyEmptyHanded(s.delivered);
      while waiters != []
        invariant woken <= |s.waiters| && waiters == s.waiters[woken..]
        invariant delivered == s.delivered + EmptyHanded(s.waiters[..woken])
        invariant Abstract() == s.(waiters := waiters, delivered := delivered)
        decreases |waiters|
      {
        OneMoreEmptyHanded(s.delivered, s.waiters[..woken], waiters[0]);
        assert s.waiters[..woken + 1] == s.waiters[..woken] + [waiters[0]];
        woken := woken + 1;
        delivered := delivered + [Delivery(waiters[0].claim, [])];
        waiters := waiters[1..];
      }
      assert s.waiters[..woken] == s.waiters;
    }

    method StopAll(order: seq<JobId>)
      requires forall j :: j in order <==> j in completions
      modifies this
      ensures Abstract() == NextOf(old(Abstract()), Stop, order)
    {
      hide EmptyHanded, Settle;
      started := false;
      WakeClaimers();
      ghost var t := Abstract();
      for i := 0 to |order|
        invariant Abstract() == ReleaseAll(t, order[..i])
      {
        assert order[..i + 1][..i] == order[..i];
        ReportCompletion(order[i], Released);
      }
      assert order[..|order|] == order;
    }
  }

  // ---------------------------------------------------------------- every interleaving

  /** A run: the steps, each with the order in which a stop would visit the completions map. */
  predicate StopsVisitAll(s: State, step: Step, order: seq<JobId>) {
    step.Stop? ==> forall j | j in s.completions :: j in order
  }

  function After(run: seq<(Step, seq<JobId>)>): State {
    if run == [] then INITIAL
    else
      var s := After(run[..|run| - 1]);
      var (step, order) := run[|run| - 1];
      if StopsVisitAll(s, step, order) then NextOf(s, step, order) else s
  }

  function Handed(ds: seq<Delivery>): seq<Job> {
    if ds == [] then [] else Handed(ds[..|ds| - 1]) + ds[|ds| - 1].jobs
  }

  ghost predicate JobsConserved(s: State) {
    && (s.waiters != [] ==> s.buffer == [])
    && (forall w | w in s.waiters :: w.count >= 1)
    && s.dropped == []
    && s.enqueued == Handed(s.delivered) + s.buffer
    && (forall i: nat | i < |s.enqueued| :: s.enqueued[i].handler == i)
  }

  ghost predicate IsSettled(settlements: seq<Settlement>, handler: nat) {
    exists x :: x in settlements && x.handler == handler
  }

  /** A later handler of the same job took its place in the completions map. */
  ghost predicate IsReplaced(enqueued: seq<Job>, handler: nat) {
    handler < |enqueued| && exists i :: handler < i < |enqueued| && enqueued[i].jobId == enqueued[handler].jobId
  }

  ghost predicate IsRegistered(completions: map<JobId, nat>, enqueued: seq<Job>, handler: nat) {
    handler < |enqueued| && enqueued[handler].jobId in completions && completions[enqueued[handler].jobId] == handler
  }

  /** The registered callback of a job is its last handler's, and is not settled. */
  ghost predicate EntrySound(settlements: seq<Settlement>, enqueued: seq<Job>, jobId: JobId, handler: nat) {
    && handler < |enqueued| && enqueued[handler].jobId == jobId
    && !IsReplaced(enqueued, handler) && !IsSettled(settlements, handler)
  }

  ghost predicate PromisesSound(s: State) {
    && (forall i, j | 0 <= i < j < |s.settlements| :: s.settlements[i].handler != s.settlements[j].handler)
    && (forall x | x in s.settlements :: x.handler < |s.enqueued|)
    && (forall j | j in s.completions :: EntrySound(s.settlements, s.enqueued, j, s.completions[j]))
    && (forall h: nat | h < |s.enqueued| ::
          || IsSettled(s.settlements, h)
          || IsRegistered(s.completions, s.enqueued, h)
          || IsReplaced(s.enqueued, h))
  }

  lemma HandedAppend(ds: seq<Delivery>, d: Delivery)
    ensures Handed(ds + [d]) == Handed(ds) + d.jobs
  {
    assert (ds + [d])[..|ds|] == ds;
  }

  lemma {:induction false} HandedEmpty(ds: seq<Delivery>, waiters: seq<Waiter>)
    ensures Handed(ds + EmptyHanded(waiters)) == Handed(ds)
  {
    if waiters == [] {
      assert ds + [] == ds;
    } else {
      var last := waiters[|waiters| - 1];
      HandedEmpty(ds, waiters[..|waiters| - 1]);
      assert ds + EmptyHanded(waiters) == ds + EmptyHanded(waiters[..|waiters| - 1]) + [Delivery(last.claim, [])];
      HandedAppend(ds + EmptyHanded(waiters[..|waiters| - 1]), Delivery(last.claim, []));
    }
  }

  lemma {:induction false} ReleaseKeepsJobs(s: State, order: seq<JobId>)
    requires JobsConserved(s)
    ensures JobsConserved(ReleaseAll(s, order))
  {
    if order != [] {
      ReleaseKeepsJobs(s, order[..|order| - 1]);
    }
  }

  lemma ProcessKeepsJobs(s: State, jobId: JobId)
    requires JobsConserved(s)
    ensures JobsConserved(ProcessJob(s, jobId))
  {
    if s.waiters != [] {
      var t := ProcessJob(s, jobId);
      HandedAppend(s.delivered, t.delivered[|s.delivered|]);
    }
  }

  lemma CountBounds(count: int)
    ensures SafeCount(count) <= MAX_CLAIM
  {
  }

  lemma ClaimKeepsJobs(s: State, count: int)
    requires JobsConserved(s)
    ensures JobsConserved(ClaimJobs(s, count))
  {
    hide Handed, SafeCount;
    CountBounds(count);
    var t := ClaimJobs(s, count);
    if |t.delivered| > |s.delivered| {
      HandedAppend(s.delivered, t.delivered[|s.delivered|]);
    }
  }

  lemma StepKeepsJobs(s: State, step: Step, order: seq<JobId>)
    requires JobsConserved(s)
    ensures JobsConserved(NextOf(s, step, order))
  {
    match step
    case Start =>
    case Process(jobId) => ProcessKeepsJobs(s, jobId);
    case Claim(count) => ClaimKeepsJobs(s, count);
    case Report(jobId, completion) =>
    case Stop =>
      HandedEmpty(s.delivered, s.waiters);
      ReleaseKeepsJobs(s.(started := false, waiters := [], delivered := s.delivered + EmptyHanded(s.waiters)), order);
  }

  lemma SettledAppend(settlements: seq<Settlement>, x: Settlement, handler: nat)
    ensures IsSettled(settlements + [x], handler) <==> IsSettled(settlements, handler) || x.handler == handler
  {
    var all := settlements + [x];
    assert all[|settlements|] == x;
    if IsSettled(settlements, handler) {
      var y :| y in settlements && y.handler == handler;
      assert y in all;
    }
  }

  lemma SettleKeepsPromises(s: State, jobId: JobId, completion: Completion)
    requires PromisesSound(s)
    ensures PromisesSound(Settle(s, jobId, completion))
  {
    hide IsSettled, IsReplaced;
    if jobId in s.completions {
      var t := Settle(s, jobId, completion);
      var x := Settlement(s.completions[jobId], completion);
      assert EntrySound(s.settlements, s.enqueued, jobId, x.handler);
      forall h: nat | h < |s.enqueued| ensures
        IsSettled(t.settlements, h) <==> IsSettled(s.settlements, h) || h == x.handler {
        SettledAppend(s.settlements, x, h);
      }
      assert forall i | 0 <= i < |s.settlements| :: s.settlements[i].handler != x.handler by {
        NotSettled(s.settlements, x.handler);
      }
    }
  }

  lemma NotSettled(settlements: seq<Settlement>, handler: nat)
    requires !IsSettled(settlements, handler)
    ensures forall i | 0 <= i < |settlements| :: settlements[i].handler != handler
  {
    forall i | 0 <= i < |settlements| ensures settlements[i].handler != handler {
      assert settlements[i] in settlements;
    }
  }

  lemma {:induction false} ReleaseKeepsPromises(s: State, order: seq<JobId>)
    requires PromisesSound(s)
    ensures PromisesSound(ReleaseAll(s, order))
  {
    if order != [] {
      ReleaseKeepsPromises(s, order[..|order| - 1]);
      SettleKeepsPromises(ReleaseAll(s, order[..|order| - 1]), order[|order| - 1], Released);
    }
  }

  lemma ReplacedAppend(enqueued: seq<Job>, job: Job, handler: nat)
    requires handler <= |enqueued|
    ensures IsReplaced(enqueued + [job], handler) <==>
            handler < |enqueued| && (IsReplaced(enqueued, handler) || enqueued[handler].jobId == job.jobId)
  {
    var all := enqueued + [job];
    assert forall i | 0 <= i < |enqueued| :: all[i] == enqueued[i];
    assert all[|enqueued|] == job;
    if handler < |enqueued| && IsReplaced(enqueued, handler) {
      var i :| handler < i < |enqueued| && enqueued[i].jobId == enqueued[handler].jobId;
      assert all[i].jobId == all[handler].jobId;
    }
  }

  lemma ProcessKeepsPromises(s: State, jobId: JobId)
    requires PromisesSound(s)
    ensures PromisesSound(ProcessJob(s, jobId))
  {
    hide IsReplaced;
    var t := ProcessJob(s, jobId);
    var job := Job(jobId, |s.enqueued|);
    assert t.enqueued == s.enqueued + [job] && t.settlements == s.settlements;
    assert t.completions == s.completions[jobId := |s.enqueued|];
    forall h: nat | h <= |s.enqueued| ensures IsReplaced(t.enqueued, h) <==>
      h < |s.enqueued| && (IsReplaced(s.enqueued, h) || s.enqueued[h].jobId == jobId) {
      ReplacedAppend(s.enqueued, job, h);
    }
    forall j | j in t.completions ensures EntrySound(t.settlements, t.enqueued, j, t.completions[j]) {
      if j != jobId {
        assert EntrySound(s.settlements, s.enqueued, j, s.completions[j]);
      }
    }
  }

  lemma StepKeepsPromises(s: State, step: Step, order: seq<JobId>)
    requires PromisesSound(s)
    ensures PromisesSound(NextOf(s, step, order))
  {
    match step
    case Start => SamePromises(s, NextOf(s, step, order));
    case Process(jobId) => ProcessKeepsPromises(s, jobId);
    case Claim(count) => SamePromises(s, NextOf(s, step, order));
    case Report(jobId, completion) => SettleKeepsPromises(s, jobId, completion);
    case Stop =>
      var u := s.(started := false, waiters := [], delivered := s.delivered + EmptyHanded(s.waiters));
      SamePromises(s, u);
      ReleaseKeepsPromises(u, order);
  }

  lemma SamePromises(s: State, t: State)
    requires PromisesSound(s)
    requires t.settlements == s.settlements && t.enqueued == s.enqueued && t.completions == s.completions
    ensures PromisesSound(t)
  {
    hide IsSettled, IsReplaced, IsRegistered, EntrySound;
  }

  lemma {:induction false} RunKeepsAll(run: seq<(Step, seq<JobId>)>)
    ensures JobsConserved(After(run)) && PromisesSound(After(run))
  {
    if run != [] {
      var s := After(run[..|run| - 1]);
      var (step, order) := run[|run| - 1];
      RunKeepsAll(run[..|run| - 1]);
      StepKeepsJobs(s, step, order);
      StepKeepsPromises(s, step, order);
    }
  }

  /** In every reachable state: claimers wait only while the buffer is empty, the jobs handed out in
      order followed by the buffer are exactly the jobs enqueued, and the truncation after a wait
      never drops one. */
  lemma NoJobIsLost(run: seq<(Step, seq<JobId>)>)
    ensures var s := After(run);
            && (s.waiters != [] ==> s.buffer == [])
            && s.enqueued == Handed(s.delivered) + s.buffer
            && s.dropped == []
            && forall i, j | 0 <= i < j < |s.enqueued| :: s.enqueued[i] != s.enqueued[j]
  {
    RunKeepsAll(run);
    var s := After(run);
    forall i, j | 0 <= i < j < |s.enqueued| ensures s.enqueued[i] != s.enqueued[j] {
      assert s.enqueued[i].handler == i && s.enqueued[j].handler == j;
    }
  }

  /** Each handler promise is settled at most once, and one that is not settled is either the one
      registered for its job or was replaced by a later handler of the same job. */
  lemma PromisesSettleOnce(run: seq<(Step, seq<JobId>)>, h: nat)
    requires h < |After(run).enqueued|
    ensures var s := After(run);
            && (forall i, j | 0 <= i < j < |s.settlements| :: s.settlements[i].handler != s.settlements[j].handler)
            && (!IsSettled(s.settlements, h) ==>
                  IsRegistered(s.completions, s.enqueued, h) || IsReplaced(s.enqueued, h))
            && (IsRegistered(s.completions, s.enqueued, h) ==>
                  !IsSettled(s.settlements, h) && !IsReplaced(s.enqueued, h))
  {
    RunKeepsAll(run);
    var s := After(run);
    if IsRegistered(s.completions, s.enqueued, h) {
      assert EntrySound(s.settlements, s.enqueued, s.enqueued[h].jobId, h);
    }
  }

  lemma {:induction false} ReleasedAll(s: State, order: seq<JobId>, j: JobId)
    ensures var t := ReleaseAll(s, order); j in t.completions <==> j in s.completions && j !in order
    ensures var t := ReleaseAll(s, order); j in t.completions ==> t.completions[j] == s.completions[j]
  {
    if order != [] {
      var init := order[..|order| - 1];
      ReleasedAll(s, init, j);
      assert order == init + [order[|order| - 1]];
    }
  }

  lemma {:induction false} ReleaseExtends(s: State, order: seq<JobId>)
    ensures s.settlements <= ReleaseAll(s, order).settlements
  {
    if order != [] {
      ReleaseExtends(s, order[..|order| - 1]);
    }
  }

  lemma {:induction false} SettlementsGrow(run: seq<(Step, seq<JobId>)>, later: seq<(Step, seq<JobId>)>)
    ensures After(run).settlements <= After(run + later).settlements
    decreases |later|
  {
    if later == [] {
      assert run + later == run;
    } else {
      var init := later[..|later| - 1];
      SettlementsGrow(run, init);
      assert (run + later)[..|run + later| - 1] == run + init;
      var s := After(run + init);
      var (step, order) := later[|later| - 1];
      if step.Stop? {
        ReleaseExtends(s.(started := false, waiters := [], delivered := s.delivered + EmptyHanded(s.waiters)), order);
      }
    }
  }

  lemma AfterOne(run: seq<(Step, seq<JobId>)>, step: Step, order: seq<JobId>)
    ensures After(run + [(step, order)]) ==
            if StopsVisitAll(After(run), step, order) then NextOf(After(run), step, order) else After(run)
  {
    assert (run + [(step, order)])[..|run|] == run;
  }

  /** Steps that act on the registered handler of a job: a newer handler, a report, or a stop. */
  predicate Concerns(step: Step, j: JobId) {
    (step.Process? && step.jobId == j) || (step.Report? && step.jobId == j) || step.Stop?
  }

  /** What such a step resolves the handler with, if it does. */
  predicate ResolvesWith(step: Step, completion: Completion) {
    match step
    case Report(_, c) => completion == c
    case Stop => completion == Released
    case _ => false
  }

  lemma {:induction false} StaysRegistered(run: seq<(Step, seq<JobId>)>, mid: seq<(Step, seq<JobId>)>, j: JobId, h: nat)
    requires j in After(run).completions && After(run).completions[j] == h
    requires forall x | x in mid :: !Concerns(x.0, j)
    ensures var s := After(run + mid); j in s.completions && s.completions[j] == h
    decreases |mid|
  {
    if mid == [] {
      assert run + mid == run;
    } else {
      var init, last := mid[..|mid| - 1], mid[|mid| - 1];
      assert last in mid;
      StaysRegistered(run, init, j, h);
      assert run + mid == run + init + [last];
      AfterOne(run + init, last.0, last.1);
    }
  }

  lemma {:induction false} ReleaseSettles(s: State, order: seq<JobId>, j: JobId)
    requires j in s.completions && j in order
    ensures Settlement(s.completions[j], Released) in ReleaseAll(s, order).settlements
  {
    var init := order[..|order| - 1];
    if j in init {
      ReleaseSettles(s, init, j);
    } else {
      assert order == init + [order[|order| - 1]];
      ReleasedAll(s, init, j);
    }
  }

  lemma SettledOnce(s: State, x: Settlement, y: Settlement)
    requires PromisesSound(s) && x in s.settlements && y in s.settlements && x.handler == y.handler
    ensures x == y
  {
  }

  /** Nobody will settle this handler's promise any more. */
  ghost predicate Abandoned(s: State, h: nat) {
    h < |s.enqueued| && !IsSettled(s.settlements, h) && forall k | k in s.completions :: s.completions[k] != h
  }

  lemma SettleKeepsAbandoned(s: State, j: JobId, completion: Completion, h: nat)
    requires Abandoned(s, h)
    ensures Abandoned(Settle(s, j, completion), h)
  {
    hide IsSettled;
    if j in s.completions {
      SettledAppend(s.settlements, Settlement(s.completions[j], completion), h);
    }
  }

  lemma {:induction false} ReleaseKeepsAbandoned(s: State, order: seq<JobId>, h: nat)
    requires Abandoned(s, h)
    ensures Abandoned(ReleaseAll(s, order), h)
  {
    hide Abandoned;
    if order != [] {
      ReleaseKeepsAbandoned(s, order[..|order| - 1], h);
      SettleKeepsAbandoned(ReleaseAll(s, order[..|order| - 1]), order[|order| - 1], Released, h);
    }
  }

  lemma {:induction false} StaysAbandoned(run: seq<(Step, seq<JobId>)>, later: seq<(Step, seq<JobId>)>, h: nat)
    requires Abandoned(After(run), h)
    ensures Abandoned(After(run + later), h)
    decreases |later|
  {
    if later == [] {
      assert run + later == run;
    } else {
      var init, last := later[..|later| - 1], later[|later| - 1];
      StaysAbandoned(run, init, h);
      assert run + later == run + init + [last];
      AfterOne(run + init, last.0, last.1);
      var s := After(run + init);
      match last.0
      case Report(j, completion) => SettleKeepsAbandoned(s, j, completion, h);
      case Stop =>
        ReleaseKeepsAbandoned(
          s.(started := false, waiters := [], delivered := s.delivered + EmptyHanded(s.waiters)), last.1, h);
      case _ =>
    }
  }

  /** The step that first acts on a registered handler, seen from right after it. */
  lemma DecidingStep(s: State, j: JobId, step: Step, order: seq<JobId>)
    requires PromisesSound(s) && j in s.completions
    requires Concerns(step, j) && StopsVisitAll(s, step, order)
    ensures var t, h := NextOf(s, step, order), s.completions[j];
            && (forall completion | ResolvesWith(step, completion) :: Settlement(h, completion) in t.settlements)
            && (step.Process? ==> Abandoned(t, h))
  {
    hide IsReplaced;
    var h := s.completions[j];
    assert EntrySound(s.settlements, s.enqueued, j, h);
    match step
    case Process(_) =>
      forall k | k in s.completions && k != j ensures s.completions[k] != h {
        assert EntrySound(s.settlements, s.enqueued, k, s.completions[k]);
      }
    case Report(_, c) => assert NextOf(s, step, order).settlements == s.settlements + [Settlement(h, c)];
    case Stop =>
      ReleaseSettles(s.(started := false, waiters := [], delivered := s.delivered + EmptyHanded(s.waiters)), order, j);
  }

  /** What becomes of a handler's promise is decided by the first step after it that is a report for its
      job, a stop, or a newer handler of the job: a report settles it with that report's completion, a stop
      releases it, a newer handler leaves it unsettled, and nothing later changes or adds to that. */
  lemma FirstReportDecides(pre: seq<(Step, seq<JobId>)>, j: JobId, at: seq<JobId>, mid: seq<(Step, seq<JobId>)>,
                           step: Step, order: seq<JobId>, later: seq<(Step, seq<JobId>)>, completion: Completion)
    requires forall x | x in mid :: !Concerns(x.0, j)
    requires Concerns(step, j) && StopsVisitAll(After(pre + [(Process(j), at)] + mid), step, order)
    ensures var h := |After(pre).enqueued|;
            var whole := pre + [(Process(j), at)] + mid + [(step, order)] + later;
            Settlement(h, completion) in After(whole).settlements <==> ResolvesWith(step, completion)
  {
    hide After, PromisesSound, NextOf, StopsVisitAll, Concerns;
    var h := |After(pre).enqueued|;
    var begun := pre + [(Process(j), at)];
    var decided := begun + mid + [(step, order)];
    Registers(pre, j, at);
    StaysRegistered(begun, mid, j, h);
    RunKeepsAll(begun + mid);
    DecidingStep(After(begun + mid), j, step, order);
    AfterOne(begun + mid, step, order);
    SettlementsGrow(decided, later);
    RunKeepsAll(decided + later);
    if step.Process? {
      StaysAbandoned(decided, later, h);
    } else {
      var c := if step.Report? then step.completion else Released;
      assert ResolvesWith(step, c) by {
        OneOfThree(step, j);
      }
      if Settlement(h, completion) in After(decided + later).settlements {
        SettledOnce(After(decided + later), Settlement(h, c), Settlement(h, completion));
      }
    }
  }

  lemma OneOfThree(step: Step, j: JobId)
    requires Concerns(step, j)
    ensures step.Process? || step.Report? || step.Stop?
  {
  }

  lemma Registers(pre: seq<(Step, seq<JobId>)>, j: JobId, at: seq<JobId>)
    ensures var s := After(pre + [(Process(j), at)]); j in s.completions && s.completions[j] == |After(pre).enqueued|
  {
    AfterOne(pre, Process(j), at);
  }

  // ---------------------------------------------------------------- claims and reports

  function Answered(ds: seq<Delivery>): seq<nat> {
    seq(|ds|, i requires 0 <= i < |ds| => ds[i].claim)
  }

  function Waiting(waiters: seq<Waiter>): seq<nat> {
    seq(|waiters|, i requires 0 <= i < |waiters| => waiters[i].claim)
  }

  /** The claims answered so far, in order, and then those waiting. */
  function KnownClaims(s: State): seq<nat> {
    Answered(s.delivered) + Waiting(s.waiters)
  }

  ghost predicate ClaimsSound(s: State) {
    forall claim: nat :: multiset(KnownClaims(s))[claim] == if claim < s.claims then 1 else 0
  }

  lemma AnsweredAppend(ds: seq<Delivery>, d: Delivery)
    ensures Answered(ds + [d]) == Answered(ds) + [d.claim]
  {
  }

  lemma WaitingHead(waiters: seq<Waiter>)
    requires waiters != []
    ensures Waiting(waiters) == [waiters[0].claim] + Waiting(waiters[1..])
  {
  }

  lemma {:induction false} AnsweredEmptyHanded(waiters: seq<Waiter>)
    ensures Answered(EmptyHanded(waiters)) == Waiting(waiters)
  {
    if waiters != [] {
      AnsweredEmptyHanded(waiters[..|waiters| - 1]);
      AnsweredAppend(EmptyHanded(waiters[..|waiters| - 1]), Delivery(waiters[|waiters| - 1].claim, []));
    }
  }

  lemma EnqueueKeepsClaims(s: State, job: Job)
    ensures KnownClaims(Enqueue(s, job)) == KnownClaims(s)
  {
    hide Answered, Waiting;
    if s.waiters != [] {
      AnsweredAppend(s.delivered, Enqueue(s, job).delivered[|s.delivered|]);
      WaitingHead(s.waiters);
      assert Answered(s.delivered) + [s.waiters[0].claim] + Waiting(s.waiters[1..]) ==
             Answered(s.delivered) + ([s.waiters[0].claim] + Waiting(s.waiters[1..]));
    }
  }

  lemma ClaimAddsOne(s: State, count: int)
    ensures multiset(KnownClaims(ClaimJobs(s, count))) == multiset(KnownClaims(s)) + multiset{s.claims}
    ensures ClaimJobs(s, count).claims == s.claims + 1
  {
    hide SafeCount, Min, Answered, Waiting;
    var t := ClaimJobs(s, count);
    if t.waiters == s.waiters {
      AnsweredAppend(s.delivered, t.delivered[|s.delivered|]);
      assert KnownClaims(t) == Answered(s.delivered) + [s.claims] + Waiting(s.waiters);
    } else {
      WaitingAppend(s.waiters, t.waiters[|s.waiters|]);
      assert KnownClaims(t) == KnownClaims(s) + [s.claims];
    }
  }

  lemma WaitingAppend(waiters: seq<Waiter>, w: Waiter)
    ensures Waiting(waiters + [w]) == Waiting(waiters) + [w.claim]
  {
  }

  lemma ClaimKeepsClaims(s: State, count: int)
    requires ClaimsSound(s)
    ensures ClaimsSound(ClaimJobs(s, count))
  {
    hide ClaimJobs, KnownClaims;
    ClaimAddsOne(s, count);
  }

  lemma StopKeepsClaims(s: State, order: seq<JobId>)
    ensures KnownClaims(NextOf(s, Stop, order)) == KnownClaims(s)
  {
    hide ReleaseAll, EmptyHanded;
    var u := s.(started := false, waiters := [], delivered := s.delivered + EmptyHanded(s.waiters));
    ReleaseOnlySettles(u, order);
    AnsweredEmptyHanded(s.waiters);
    assert Answered(u.delivered) == Answered(s.delivered) + Answered(EmptyHanded(s.waiters));
  }

  lemma SameClaims(s: State, t: State)
    requires ClaimsSound(s) && KnownClaims(t) == KnownClaims(s) && t.claims == s.claims
    ensures ClaimsSound(t)
  {
    hide KnownClaims;
  }

  lemma StepKeepsClaims(s: State, step: Step, order: seq<JobId>)
    requires ClaimsSound(s)
    ensures ClaimsSound(NextOf(s, step, order))
  {
    hide ClaimsSound, ClaimJobs, Answered, Waiting, ReleaseAll, EmptyHanded;
    var t := NextOf(s, step, order);
    match step
    case Start => SameClaims(s, t);
    case Process(jobId) =>
      var u := s.(completions := s.completions[jobId := |s.enqueued|]);
      EnqueueKeepsClaims(u, Job(jobId, |s.enqueued|));
      SameClaims(s, t);
    case Claim(count) => ClaimKeepsClaims(s, count);
    case Report(_, _) => SameClaims(s, t);
    case Stop =>
      StopKeepsClaims(s, order);
      ReleaseOnlySettles(
        s.(started := false, waiters := [], delivered := s.delivered + EmptyHanded(s.waiters)), order);
      SameClaims(s, t);
  }

  lemma {:induction false} RunKeepsClaims(run: seq<(Step, seq<JobId>)>)
    ensures ClaimsSound(After(run))
  {
    hide NextOf, StopsVisitAll;
    if run == [] {
      assert KnownClaims(INITIAL) == [];
    } else {
      var (step, order) := run[|run| - 1];
      RunKeepsClaims(run[..|run| - 1]);
      StepKeepsClaims(After(run[..|run| - 1]), step, order);
    }
  }

  /** In every reachable state each claim made so far was answered exactly once or waits exactly once,
      never both, and no other claim was answered. */
  lemma ClaimsAreAnsweredOnce(run: seq<(Step, seq<JobId>)>, claim: nat)
    ensures var s := After(run);
            multiset(Answered(s.delivered) + Waiting(s.waiters))[claim] == if claim < s.claims then 1 else 0
  {
    hide Answered, Waiting;
    RunKeepsClaims(run);
    assert multiset(KnownClaims(After(run)))[claim] == if claim < After(run).claims then 1 else 0;
  }

  /** The steps at which the claims were made, in order. */
  function ClaimSteps(run: seq<(Step, seq<JobId>)>): seq<nat> {
    if run == [] then []
    else ClaimSteps(run[..|run| - 1]) + if run[|run| - 1].0.Claim? then [|run| - 1] else []
  }

  lemma {:induction false} ClaimStepsAreClaims(run: seq<(Step, seq<JobId>)>)
    ensures |ClaimSteps(run)| == After(run).claims
    ensures forall k | 0 <= k < |ClaimSteps(run)| :: ClaimSteps(run)[k] < |run| && run[ClaimSteps(run)[k]].0.Claim?
  {
    if run != [] {
      var s := After(run[..|run| - 1]);
      ClaimStepsAreClaims(run[..|run| - 1]);
      if run[|run| - 1].0.Stop? {
        ReleaseOnlySettles(s.(started := false, waiters := [], delivered := s.delivered + EmptyHanded(s.waiters)),
                           run[|run| - 1].1);
      }
    }
  }

  /** How many jobs a claim asked for, and at most gets. */
  function AskedFor(run: seq<(Step, seq<JobId>)>, claim: nat): int {
    var steps := ClaimSteps(run);
    if claim >= |steps| || steps[claim] >= |run| || !run[steps[claim]].0.Claim? then 0
    else run[steps[claim]].0.count
  }

  /** The claim was made while the adapter was stopped, or asked for nothing. */
  predicate Refused(run: seq<(Step, seq<JobId>)>, claim: nat) {
    var steps := ClaimSteps(run);
    claim < |steps| && steps[claim] <= |run| && (AskedFor(run, claim) <= 0 || !After(run[..steps[claim]]).started)
  }

  /** A stop came after the claim. */
  predicate StoppedAfter(run: seq<(Step, seq<JobId>)>, claim: nat) {
    var steps := ClaimSteps(run);
    claim < |steps| && exists j :: steps[claim] < j < |run| && run[j].0.Stop?
  }

  lemma ClaimsOfPrefix(run: seq<(Step, seq<JobId>)>, claim: nat)
    requires run != [] && claim < |ClaimSteps(run[..|run| - 1])|
    ensures var init := run[..|run| - 1];
            && ClaimSteps(run)[claim] == ClaimSteps(init)[claim]
            && AskedFor(run, claim) == AskedFor(init, claim) && Refused(run, claim) == Refused(init, claim)
            && (StoppedAfter(run, claim) <==> StoppedAfter(init, claim) || run[|run| - 1].0.Stop?)
  {
    hide After, ClaimSteps;
    var init := run[..|run| - 1];
    assert ClaimSteps(run) == ClaimSteps(init) + if run[|run| - 1].0.Claim? then [|run| - 1] else [] by {
      LastClaimStep(run);
    }
    ClaimStepsAreClaims(init);
    var i := ClaimSteps(init)[claim];
    assert init[..i] == run[..i] && init[i] == run[i];
    if StoppedAfter(init, claim) {
      var j :| i < j < |init| && init[j].0.Stop?;
      assert run[j] == init[j];
    }
    if run[|run| - 1].0.Stop? {
      assert i < |run| - 1;
    }
  }

  lemma LastClaimStep(run: seq<(Step, seq<JobId>)>)
    requires run != []
    ensures ClaimSteps(run) == ClaimSteps(run[..|run| - 1]) + if run[|run| - 1].0.Claim? then [|run| - 1] else []
  {
  }

  ghost predicate DeliverySound(run: seq<(Step, seq<JobId>)>, d: Delivery) {
    && d.claim < |ClaimSteps(run)| && |d.jobs| <= SafeCount(AskedFor(run, d.claim))
    && (d.jobs == [] ==> Refused(run, d.claim) || StoppedAfter(run, d.claim))
    && (Refused(run, d.claim) ==> d.jobs == [])
  }

  ghost predicate WaiterSound(run: seq<(Step, seq<JobId>)>, w: Waiter) {
    w.claim < |ClaimSteps(run)| && w.count == SafeCount(AskedFor(run, w.claim)) && !Refused(run, w.claim)
  }

  ghost predicate HandsSound(run: seq<(Step, seq<JobId>)>, s: State) {
    (forall d | d in s.delivered :: DeliverySound(run, d)) && (forall w | w in s.waiters :: WaiterSound(run, w))
  }

  lemma HandsStay(run: seq<(Step, seq<JobId>)>, s: State)
    requires run != [] && HandsSound(run[..|run| - 1], s)
    ensures HandsSound(run, s)
  {
    hide ClaimSteps, AskedFor, Refused, StoppedAfter, SafeCount;
    LastClaimStep(run);
    forall d | d in s.delivered ensures DeliverySound(run, d) {
      assert DeliverySound(run[..|run| - 1], d);
      ClaimsOfPrefix(run, d.claim);
    }
    forall w | w in s.waiters ensures WaiterSound(run, w) {
      assert WaiterSound(run[..|run| - 1], w);
      ClaimsOfPrefix(run, w.claim);
    }
  }

  lemma NewClaim(run: seq<(Step, seq<JobId>)>)
    requires run != [] && run[|run| - 1].0.Claim?
    ensures var init, count := run[..|run| - 1], run[|run| - 1].0.count;
            var claim := After(init).claims;
            && claim < |ClaimSteps(run)| && AskedFor(run, claim) == count
            && (Refused(run, claim) <==> count <= 0 || !After(init).started)
  {
    hide After;
    ClaimStepsAreClaims(run[..|run| - 1]);
  }

  lemma CountIsPositive(count: int)
    ensures SafeCount(count) >= 1 <==> count > 0
    ensures SafeCount(count) <= 50 && (count >= 0 ==> SafeCount(count) <= count)
  {
  }

  lemma ClaimHands(run: seq<(Step, seq<JobId>)>)
    requires run != [] && run[|run| - 1].0.Claim? && HandsSound(run, After(run[..|run| - 1]))
    ensures HandsSound(run, ClaimJobs(After(run[..|run| - 1]), run[|run| - 1].0.count))
  {
    hide After, ClaimSteps, AskedFor, Refused, StoppedAfter, SafeCount;
    var s, count := After(run[..|run| - 1]), run[|run| - 1].0.count;
    NewClaim(run);
    CountIsPositive(count);
    var t := ClaimJobs(s, count);
    forall d | d in t.delivered ensures DeliverySound(run, d) {
    }
    forall w | w in t.waiters ensures WaiterSound(run, w) {
    }
  }

  lemma EnqueueHands(run: seq<(Step, seq<JobId>)>, s: State, job: Job)
    requires HandsSound(run, s)
    ensures HandsSound(run, Enqueue(s, job))
  {
    hide After, ClaimSteps, AskedFor, Refused, StoppedAfter, SafeCount;
    var t := Enqueue(s, job);
    if s.waiters != [] {
      assert WaiterSound(run, s.waiters[0]);
      RefusedCount(run, s.waiters[0].claim);
    }
    forall d | d in t.delivered ensures DeliverySound(run, d) {
    }
    forall w | w in t.waiters ensures WaiterSound(run, w) {
      assert w in s.waiters;
    }
  }

  lemma RefusedCount(run: seq<(Step, seq<JobId>)>, claim: nat)
    requires claim < |ClaimSteps(run)| && !Refused(run, claim)
    ensures SafeCount(AskedFor(run, claim)) >= 1
  {
    hide After, ClaimSteps, SafeCount;
    ClaimStepsAreClaims(run);
    CountIsPositive(AskedFor(run, claim));
  }

  lemma {:induction false} EmptyHandedAre(waiters: seq<Waiter>, d: Delivery)
    requires d in EmptyHanded(waiters)
    ensures d.jobs == [] && exists w :: w in waiters && w.claim == d.claim
  {
    var init, last := waiters[..|waiters| - 1], waiters[|waiters| - 1];
    if d in EmptyHanded(init) {
      EmptyHandedAre(init, d);
      var w :| w in init && w.claim == d.claim;
      assert w in waiters;
    } else {
      assert last in waiters;
    }
  }

  lemma StopHands(run: seq<(Step, seq<JobId>)>)
    requires run != [] && run[|run| - 1].0.Stop?
    requires HandsSound(run[..|run| - 1], After(run[..|run| - 1]))
    ensures var s := After(run[..|run| - 1]);
            HandsSound(run, s.(started := false, waiters := [], delivered := s.delivered + EmptyHanded(s.waiters)))
  {
    hide After, ClaimSteps, AskedFor, Refused, StoppedAfter, SafeCount, EmptyHanded;
    var init := run[..|run| - 1];
    var s := After(init);
    HandsStay(run, s);
    LastClaimStep(run);
    forall d | d in EmptyHanded(s.waiters) ensures DeliverySound(run, d) {
      EmptyHandedAre(s.waiters, d);
      var w :| w in s.waiters && w.claim == d.claim;
      assert WaiterSound(init, w);
      ClaimsOfPrefix(run, d.claim);
      RefusedCount(run, d.claim);
    }
  }

  lemma {:induction false} RunKeepsHands(run: seq<(Step, seq<JobId>)>)
    ensures HandsSound(run, After(run))
  {
    hide HandsSound, Enqueue, ClaimJobs, Settle, EmptyHanded;
    if run == [] {
      NoHands();
    } else {
      var init := run[..|run| - 1];
      var s := After(init);
      var (step, order) := run[|run| - 1];
      RunKeepsHands(init);
      HandsStay(run, s);
      match step
      case Start => SameHands(run, s, NextOf(s, step, order));
      case Process(jobId) =>
        var u := s.(completions := s.completions[jobId := |s.enqueued|]);
        SameHands(run, s, u);
        EnqueueHands(run, u, Job(jobId, |s.enqueued|));
      case Claim(count) => ClaimHands(run);
      case Report(j, c) =>
        SettleOnlySettles(s, j, c);
        SameHands(run, s, Settle(s, j, c));
      case Stop =>
        var u := s.(started := false, waiters := [], delivered := s.delivered + EmptyHanded(s.waiters));
        StopHands(run);
        ReleaseOnlySettles(u, order);
        SameHands(run, u, ReleaseAll(u, order));
    }
  }

  lemma SettleOnlySettles(s: State, j: JobId, c: Completion)
    ensures Settle(s, j, c).delivered == s.delivered && Settle(s, j, c).waiters == s.waiters
  {
  }

  lemma NoHands()
    ensures HandsSound([], INITIAL)
  {
  }

  lemma SameHands(run: seq<(Step, seq<JobId>)>, s: State, t: State)
    requires HandsSound(run, s) && t.delivered == s.delivered && t.waiters == s.waiters
    ensures HandsSound(run, t)
  {
    hide DeliverySound, WaiterSound;
  }

  /** No claimer gets more jobs than it asked for, nor more than 50; one gets nothing exactly if it asked for
      nothing, claimed while the adapter was stopped, or was woken by a stop. */
  lemma ClaimsGetTheirShare(run: seq<(Step, seq<JobId>)>, d: Delivery)
    requires d in After(run).delivered
    ensures |d.jobs| <= 50 && (d.jobs != [] ==> |d.jobs| <= AskedFor(run, d.claim))
    ensures Refused(run, d.claim) ==> d.jobs == []
    ensures d.jobs == [] ==> Refused(run, d.claim) || StoppedAfter(run, d.claim)
  {
    hide After, AskedFor, Refused, StoppedAfter, SafeCount;
    RunKeepsHands(run);
    assert DeliverySound(run, d);
    CountIsPositive(AskedFor(run, d.claim));
  }

  /** A claim that finds jobs takes as many of the first ones as it asked for: it leaves some only if it got all
      that it asked for, or 50. */
  lemma ClaimTakesAllItCan(run: seq<(Step, seq<JobId>)>, count: int)
    requires After(run).started && count > 0 && After(run).buffer != []
    ensures var s, t := After(run), After(run + [(Claim(count), [])]);
            && |t.delivered| == |s.delivered| + 1
            && var got := t.delivered[|s.delivered|];
               && got.claim == s.claims && s.buffer == got.jobs + t.buffer
               && (t.buffer != [] ==> |got.jobs| == if count < 50 then count else 50)
  {
    hide After;
    AfterOne(run, Claim(count), []);
  }

  /** A report for a job that was handed out settles the handler that enqueued it if and only if that
      handler is not settled and no newer handler of the same job id has taken its place. */
  lemma ReportReachesItsHandler(run: seq<(Step, seq<JobId>)>, job: Job, completion: Completion)
    requires job in Handed(After(run).delivered)
    ensures var s := After(run);
            Settle(s, job.jobId, completion).settlements == s.settlements + [Settlement(job.handler, completion)] <==>
            !IsSettled(s.settlements, job.handler) && !IsReplaced(s.enqueued, job.handler)
  {
    hide IsSettled, IsReplaced;
    RunKeepsAll(run);
    var s := After(run);
    assert job in s.enqueued;
    var i: nat :| i < |s.enqueued| && s.enqueued[i] == job;
    assert job.handler == i;
    if job.jobId in s.completions {
      assert EntrySound(s.settlements, s.enqueued, job.jobId, s.completions[job.jobId]);
    }
    if !IsSettled(s.settlements, i) && !IsReplaced(s.enqueued, i) {
      assert IsRegistered(s.completions, s.enqueued, i);
    }
    if Settle(s, job.jobId, completion).settlements == s.settlements + [Settlement(i, completion)] {
      assert Settle(s, job.jobId, completion).settlements[|s.settlements|] == Settlement(i, completion);
      assert |Settle(s, job.jobId, completion).settlements| == |s.settlements| + 1;
    }
  }

  /** It can happen that one has: the first of two handlers of a job is handed out, and its report settles
      the second. */
  lemma StaleJobSettlesNewerHandler(j: JobId, completion: Completion)
    ensures var run := [(Start, []), (Process(j), []), (Process(j), []), (Claim(1), []), (Report(j, completion), [])];
            Handed(After(run).delivered) == [Job(j, 0)] && After(run).settlements == [Settlement(1, completion)]
  {
    hide After, Handed;
    var none: seq<JobId> := [];
    var empty: seq<(Step, seq<JobId>)> := [];
    var handlers := [(Start, none), (Process(j), none), (Process(j), none)];
    var claimed := handlers + [(Claim(1), none)];
    AfterNothing();
    AfterOne(empty, Start, none);
    AfterOne([(Start, none)], Process(j), none);
    AfterOne([(Start, none), (Process(j), none)], Process(j), none);
    AfterOne(handlers, Claim(1), none);
    AfterOne(claimed, Report(j, completion), none);
    assert empty + [(Start, none)] == [(Start, none)];
    assert [(Start, none)] + [(Process(j), none)] == [(Start, none), (Process(j), none)];
    assert [(Start, none), (Process(j), none)] + [(Process(j), none)] == handlers;
    assert claimed + [(Report(j, completion), none)] ==
           [(Start, []), (Process(j), []), (Process(j), []), (Claim(1), []), (Report(j, completion), [])];
    assert After(handlers).buffer == [Job(j, 0), Job(j, 1)] && After(handlers).completions[j] == 1;
    assert After(handlers).buffer[..1] == [Job(j, 0)] && After(handlers).delivered == [];
    assert After(claimed).delivered == [Delivery(0, [Job(j, 0)])] && After(claimed).completions[j] == 1;
    HandedAppend([], Delivery(0, [Job(j, 0)]));
    assert [] + [Delivery(0, [Job(j, 0)])] == [Delivery(0, [Job(j, 0)])];
  }

  lemma AfterNothing()
    ensures After([]) == INITIAL && Handed([]) == []
  {
  }

  /** After a stop nothing waits: no claimer and no handler callback is left registered. */
  lemma StopLeavesNobodyWaiting(s: State, order: seq<JobId>)
    requires StopsVisitAll(s, Stop, order)
    ensures var t := NextOf(s, Stop, order); t.waiters == [] && t.completions == map[] && !t.started
  {
    var u := s.(started := false, waiters := [], delivered := s.delivered + EmptyHanded(s.waiters));
    forall j ensures j !in ReleaseAll(u, order).completions {
      ReleasedAll(u, order, j);
    }
    ReleaseOnlySettles(u, order);
  }

  lemma {:induction false} ReleaseOnlySettles(s: State, order: seq<JobId>)
    ensures ReleaseAll(s, order) ==
            s.(completions := ReleaseAll(s, order).completions, settlements := ReleaseAll(s, order).settlements)
  {
    if order != [] {
      ReleaseOnlySettles(s, order[..|order| - 1]);
    }
  }

  ghost predicate InClaimOrder(s: State) {
    && (forall i, j | 0 <= i < j < |s.waiters| :: s.waiters[i].claim < s.waiters[j].claim)
    && (forall i | 0 <= i < |s.waiters| :: s.waiters[i].claim < s.claims && s.waiters[i].count > 0)
  }

  lemma StepKeepsClaimOrder(s: State, step: Step, order: seq<JobId>)
    requires InClaimOrder(s)
    ensures InClaimOrder(NextOf(s, step, order))
  {
    hide EmptyHanded;
    if step.Stop? {
      ReleaseOnlySettles(s.(started := false, waiters := [], delivered := s.delivered + EmptyHanded(s.waiters)), order);
    }
  }

  lemma {:induction false} RunKeepsClaimOrder(run: seq<(Step, seq<JobId>)>)
    ensures InClaimOrder(After(run))
  {
    hide NextOf;
    if run != [] {
      RunKeepsClaimOrder(run[..|run| - 1]);
      StepKeepsClaimOrder(After(run[..|run| - 1]), run[|run| - 1].0, run[|run| - 1].1);
    }
  }

  /** A new job goes to the claimer that has waited longest, at once and alone; the others go on waiting. Without
      one it is buffered behind the others. */
  lemma OldestWaiterIsServed(run: seq<(Step, seq<JobId>)>, jobId: JobId)
    ensures var s, t := After(run), After(run + [(Process(jobId), [])]);
            var job := Job(jobId, |s.enqueued|);
            && t.enqueued == s.enqueued + [job]
            && (if s.waiters == [] then t.buffer == s.buffer + [job] && t.delivered == s.delivered && t.waiters == []
                else
                  && t.buffer == [] && t.waiters == s.waiters[1..]
                  && t.delivered == s.delivered + [Delivery(s.waiters[0].claim, [job])]
                  && forall w | w in s.waiters :: s.waiters[0].claim <= w.claim)
  {
    hide After, Handed;
    NoJobIsLost(run);
    RunKeepsClaimOrder(run);
    AfterOne(run, Process(jobId), []);
    var s := After(run);
    var job := Job(jobId, |s.enqueued|);
    if s.waiters != [] {
      assert s.buffer + [job] == [job];
      assert [job][..1] == [job] && [job][1..] == [];
    }
  }
}
