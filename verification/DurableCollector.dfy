/**
 The batch-and-await collector for durable.v2 native events. Every caller of add waits for a promise;
 events are grouped per job and claim, sent as one request, and on a permanent rejection re-sent one
 row at a time. A step is one run of code between awaits.
 */
module DurableCollector {
  import opened Wrappers
  import Separator

  type JobId = string

  /** bytes: the length of the payload as JSON. */
  datatype Event = Event(sequenceNum: int, bytes: nat)

  /** One call of add; id is its place among all calls. */
  datatype Waiter = Waiter(id: nat, job: JobId, claim: string, event: Event)

  /** timerJob: the job the armed timer will flush for, if a timer is armed. */
  datatype Buffer = Buffer(waiters: seq<Waiter>, bytes: nat, timerJob: Option<JobId>)

  datatype Phase = Batch | Isolating(group: nat)

  /** A detached buffer whose request is in flight. pending: waiters not settled yet, by id. */
  datatype Flight = Flight(job: JobId, waiters: seq<Waiter>, groups: seq<seq<Waiter>>, pending: set<nat>, phase: Phase)

  datatype Row = Row(claim: string, sequenceNum: int)

  datatype Request = Request(job: JobId, rows: seq<Row>)

  datatype Outcome = Resolved | Rejected

  datatype Settlement = Settlement(id: nat, outcome: Outcome)

  datatype Limits = Limits(maxEvents: nat, maxBytes: nat)

  datatype State = State(
    buffers: map<string, Buffer>,
    flights: map<nat, Flight>,
    launched: nat,               // flights so far
    calls: seq<Waiter>,          // calls of add so far
    settlements: seq<Settlement>,// resolve and reject calls so far
    sent: seq<Request>,          // requests so far
    confirmed: seq<Request>)     // those the API confirmed

  const INITIAL := State(map[], map[], 0, [], [], [], [])

  /** The map key `${jobId} ${claimAttemptId}`. */
  function Key(job: JobId, claim: string): string {
    job + [' '] + claim
  }

  // ---------------------------------------------------------------- grouping by sequence

  /** The group of a sequence number, or |groups|. */
  function GroupIndex(groups: seq<seq<Waiter>>, sequence: int): (i: nat)
    ensures i <= |groups|
    ensures i < |groups| ==> groups[i] != [] && groups[i][0].event.sequenceNum == sequence
    ensures forall j | 0 <= j < i :: groups[j] == [] || groups[j][0].event.sequenceNum != sequence
  {
    if groups == [] then 0
    else if groups[0] != [] && groups[0][0].event.sequenceNum == sequence then 0
    else GroupIndex(groups[1..], sequence) + 1
  }

  function Insert(groups: seq<seq<Waiter>>, w: Waiter): seq<seq<Waiter>> {
    var i := GroupIndex(groups, w.event.sequenceNum);
    if i < |groups| then groups[i := groups[i] + [w]] else groups + [[w]]
  }

  /** The map bySequence, as the list of its values. */
  function Grouped(waiters: seq<Waiter>): seq<seq<Waiter>> {
    if waiters == [] then [] else Insert(Grouped(waiters[..|waiters| - 1]), waiters[|waiters| - 1])
  }

  /** Non-empty groups, each of one sequence number, different for different groups. */
  ghost predicate WellGrouped(groups: seq<seq<Waiter>>) {
    && (forall i | 0 <= i < |groups| :: groups[i] != [])
    && (forall i, w | 0 <= i < |groups| && w in groups[i] ::
          w.event.sequenceNum == groups[i][0].event.sequenceNum)
    && (forall i, j | 0 <= i < j < |groups| ::
          groups[i][0].event.sequenceNum != groups[j][0].event.sequenceNum)
  }

  ghost predicate InSomeGroup(groups: seq<seq<Waiter>>, w: Waiter) {
    exists i :: 0 <= i < |groups| && w in groups[i]
  }

  lemma InsertIsSound(groups: seq<seq<Waiter>>, w: Waiter, x: Waiter)
    requires WellGrouped(groups)
    ensures WellGrouped(Insert(groups, w))
    ensures InSomeGroup(Insert(groups, w), x) <==> InSomeGroup(groups, x) || x == w
  {
    var i := GroupIndex(groups, w.event.sequenceNum);
    var after := Insert(groups, w);
    if InSomeGroup(groups, x) {
      var k :| 0 <= k < |groups| && x in groups[k];
      assert x in after[k];
    }
    assert w in after[i];
  }

  lemma {:induction false} GroupedIsSound(waiters: seq<Waiter>, x: Waiter)
    ensures WellGrouped(Grouped(waiters))
    ensures InSomeGroup(Grouped(waiters), x) <==> x in waiters
  {
    if waiters != [] {
      var init := waiters[..|waiters| - 1];
      GroupedIsSound(init, x);
      InsertIsSound(Grouped(init), waiters[|waiters| - 1], x);
      assert waiters == init + [waiters[|waiters| - 1]];
    }
  }

  function RowOf(w: Waiter): Row {
    Row(w.claim, w.event.sequenceNum)
  }

  /** The first event of each group. */
  function FirstRows(groups: seq<seq<Waiter>>): seq<Row> {
    seq(|groups|, i requires 0 <= i < |groups| =>
      if groups[i] == [] then Row("", 0) else RowOf(groups[i][0]))
  }

  // ---------------------------------------------------------------- steps

  /** settle: each waiter of the group that is still pending is resolved or rejected. */
  function Settlements(group: seq<Waiter>, pending: set<nat>, outcome: Outcome): seq<Settlement> {
    if group == [] then []
    else if group[0].id in pending
    then [Settlement(group[0].id, outcome)] + Settlements(group[1..], pending - {group[0].id}, outcome)
    else Settlements(group[1..], pending, outcome)
  }

  function IdsOf(group: seq<Waiter>): set<nat> {
    set w | w in group :: w.id
  }

  /** flush up to its first await: detach the buffer and send one row per sequence number. */
  function Detach(s: State, key: string, job: JobId): State {
    if key !in s.buffers then s
    else
      var waiters := s.buffers[key].waiters;
      var t := s.(buffers := s.buffers - {key});
      if waiters == [] then t
      else
        var groups := Grouped(waiters);
        t.(flights := t.flights[t.launched := Flight(job, waiters, groups, IdsOf(waiters), Batch)],
           launched := t.launched + 1,
           sent := t.sent + [Request(job, FirstRows(groups))])
  }

  /** A new call of add joins the buffer of its key. */
  function Joined(s: State, job: JobId, claim: string, event: Event, timerJob: Option<JobId>): State {
    var key := Key(job, claim);
    var b := if key in s.buffers then s.buffers[key] else Buffer([], 0, None);
    var w := Waiter(|s.calls|, job, claim, event);
    s.(calls := s.calls + [w], buffers := s.buffers[key := Buffer(b.waiters + [w], b.bytes + event.bytes, timerJob)])
  }

  function AddCall(s: State, limits: Limits, job: JobId, claim: string, event: Event): State {
    var key := Key(job, claim);
    var timer := if key in s.buffers then s.buffers[key].timerJob else None;
    var t := Joined(s, job, claim, event, timer);
    if |t.buffers[key].waiters| >= limits.maxEvents || t.buffers[key].bytes >= limits.maxBytes
    then Detach(t, key, job)
    else Joined(s, job, claim, event, if timer.None? then Some(job) else timer)
  }

  predicate Flying(s: State, f: nat) {
    f in s.flights && s.flights[f].groups != [] &&
    (s.flights[f].phase.Isolating? ==> s.flights[f].phase.group < |s.flights[f].groups|)
  }

  /** Settles a group of flight f and moves the flight on: to another request, or to its end. */
  function SettleGroup(s: State, f: nat, group: seq<Waiter>, outcome: Outcome): State
    requires f in s.flights
  {
    var fl := s.flights[f];
    s.(settlements := s.settlements + Settlements(group, fl.pending, outcome),
       flights := s.flights[f := fl.(pending := fl.pending - IdsOf(group))])
  }

  /** The finally block: whatever is still pending is rejected, and the flight is over. */
  function Finish(s: State, f: nat): State
    requires f in s.flights
  {
    var t := SettleGroup(s, f, s.flights[f].waiters, Rejected);
    t.(flights := t.flights - {f})
  }

  /** Sends the first event of group i alone. */
  function SendAlone(s: State, f: nat, i: nat): State
    requires f in s.flights && i < |s.flights[f].groups|
  {
    var fl := s.flights[f];
    s.(flights := s.flights[f := fl.(phase := Isolating(i))],
       sent := s.sent + [Request(fl.job, FirstRows([fl.groups[i]]))])
  }

  function BatchAnswered(s: State, f: nat, ok: bool, retryable: bool): State
    requires Flying(s, f) && s.flights[f].phase.Batch?
  {
    var fl := s.flights[f];
    if ok then
      var t := s.(confirmed := s.confirmed + [Request(fl.job, FirstRows(fl.groups))]);
      Finish(SettleGroup(t, f, fl.waiters, Resolved), f)
    else if |fl.groups| == 1 || retryable then Finish(SettleGroup(s, f, fl.waiters, Rejected), f)
    else SendAlone(s, f, 0)
  }

  function RowAnswered(s: State, f: nat, ok: bool): State
    requires Flying(s, f) && s.flights[f].phase.Isolating?
  {
    var fl := s.flights[f];
    var i := fl.phase.group;
    var t := if ok then s.(confirmed := s.confirmed + [Request(fl.job, FirstRows([fl.groups[i]]))]) else s;
    var u := SettleGroup(t, f, fl.groups[i], if ok then Resolved else Rejected);
    if i + 1 < |fl.groups| then SendAlone(u, f, i + 1) else Finish(u, f)
  }

  datatype Step =
    | Add(job: JobId, claim: string, event: Event)
    | TimerFires(key: string)
    | BatchAnswer(flight: nat, ok: bool, retryable: bool)
    | RowAnswer(flight: nat, ok: bool)

  function Next(s: State, limits: Limits, step: Step): State {
    match step
    case Add(job, claim, event) => AddCall(s, limits, job, claim, event)
    case TimerFires(key) =>
      if key in s.buffers && s.buffers[key].timerJob.Some? then Detach(s, key, s.buffers[key].timerJob.value) else s
    case BatchAnswer(f, ok, retryable) =>
      if Flying(s, f) && s.flights[f].phase.Batch? then BatchAnswered(s, f, ok, retryable) else s
    case RowAnswer(f, ok) =>
      if Flying(s, f) && s.flights[f].phase.Isolating? then RowAnswered(s, f, ok) else s
  }

  function After(limits: Limits, steps: seq<Step>): State {
    if steps == [] then INITIAL else Next(After(limits, steps[..|steps| - 1]), limits, steps[|steps| - 1])
  }

  // ---------------------------------------------------------------- the mutable form

  /** The loop that fills bySequence. */
  method GroupBySequence(waiters: seq<Waiter>) returns (groups: seq<seq<Waiter>>)
    ensures groups == Grouped(waiters)
  {
    groups := [];
    for i := 0 to |waiters|
      invariant groups == Grouped(waiters[..i])
    {
      assert waiters[..i + 1][..i] == waiters[..i];
      var k := GroupIndex(groups, waiters[i].event.sequenceNum);
      if k < |groups| {
        groups := groups[k := groups[k] + [waiters[i]]];
      } else {
        groups := groups + [[waiters[i]]];
      }
    }
    assert waiters[..|waiters|] == waiters;
  }

  /** The collector of the source: its map of buffers and the flush calls under way. */
  class Collector {
    const limits: Limits
    var buffers: map<string, Buffer>
    var flights: map<nat, Flight>
    var launched: nat
    var calls: seq<Waiter>
    var settlements: seq<Settlement>
    var sent: seq<Request>
    var confirmed: seq<Request>

    ghost function Abstract(): State
      reads this
    {
      State(buffers, flights, launched, calls, settlements, sent, confirmed)
    }

    constructor (limits: Limits)
      ensures this.limits == limits && Abstract() == INITIAL
    {
      this.limits := limits;
      buffers, flights, launched := map[], map[], 0;
      calls, settlements, sent, confirmed := [], [], [], [];
    }

    method Add(job: JobId, claim: string, event: Event) returns (id: nat)
      modifies this
      ensures Abstract() == AddCall(old(Abstract()), limits, job, claim, event)
      ensures id == |old(calls)|
    {
      var key := Key(job, claim);
      id := |calls|;
      var buffer := if key in buffers then buffers[key] else Buffer([], 0, None);
      var waiter := Waiter(id, job, claim, event);
      calls := calls + [waiter];
      buffers := buffers[key := Buffer(buffer.waiters + [waiter], buffer.bytes + event.bytes, buffer.timerJob)];
      assert Abstract() == Joined(old(Abstract()), job, claim, event, buffer.timerJob);
      if |buffers[key].waiters| >= limits.maxEvents || buffers[key].bytes >= limits.maxBytes {
        Flush(key, job);
        return;
      }
      if buffers[key].timerJob.None? {
        buffers := buffers[key := buffers[key].(timerJob := Some(job))];
        assert Abstract() == Joined(old(Abstract()), job, claim, event, Some(job));
      }
    }

    /** flush up to its first await. */
    method Flush(key: string, job: JobId)
      modifies this
      ensures Abstract() == Detach(old(Abstract()), key, job)
    {
      if key !in buffers {
        return;
      }
      var waiters := buffers[key].waiters;
      buffers := buffers - {key};
      if waiters == [] {
        return;
      }
      var groups := GroupBySequence(waiters);
      flights := flights[launched := Flight(job, waiters, groups, set w | w in waiters :: w.id, Batch)];
      launched := launched + 1;
      sent := sent + [Request(job, FirstRows(groups))];
    }

    method Settle(f: nat, group: seq<Waiter>, outcome: Outcome)
      requires f in flights
      modifies this
      ensures Abstract() == SettleGroup(old(Abstract()), f, group, outcome)
    {
      var pending := flights[f].pending;
      ghost var start, before := pending, settlements;
      for i := 0 to |group|
        invariant Abstract() == old(Abstract()).(settlements := settlements)
        invariant pending == start - IdsOf(group[..i])
        invariant settlements + Settlements(group[i..], pending, outcome) ==
                  before + Settlements(group, start, outcome)
      {
        assert group[..i + 1] == group[..i] + [group[i]];
        assert group[i..][1..] == group[i + 1..];
        if group[i].id in pending {
          pending := pending - {group[i].id};
          settlements := settlements + [Settlement(group[i].id, outcome)];
        }
      }
      assert group[..|group|] == group;
      flights := flights[f := flights[f].(pending := pending)];
    }

    /** The finally block, and the end of flush. */
    method FinishFlush(f: nat)
      requires f in flights
      modifies this
      ensures Abstract() == Finish(old(Abstract()), f)
    {
      Settle(f, flights[f].waiters, Rejected);
      flights := flights - {f};
    }

    method SendOneRow(f: nat, i: nat)
      requires f in flights && i < |flights[f].groups|
      modifies this
      ensures Abstract() == SendAlone(old(Abstract()), f, i)
    {
      flights := flights[f := flights[f].(phase := Isolating(i))];
      sent := sent + [Request(flights[f].job, FirstRows([flights[f].groups[i]]))];
    }

    method BatchReturned(f: nat, ok: bool, retryable: bool)
      requires Flying(Abstract(), f) && flights[f].phase.Batch?
      modifies this
      ensures Abstract() == BatchAnswered(old(Abstract()), f, ok, retryable)
    {
      var flight := flights[f];
      if ok {
        confirmed := confirmed + [Request(flight.job, FirstRows(flight.groups))];
        Settle(f, flight.waiters, Resolved);
        FinishFlush(f);
        return;
      }
      if |flight.groups| == 1 || retryable {
        Settle(f, flight.waiters, Rejected);
        FinishFlush(f);
        return;
      }
      SendOneRow(f, 0);
    }

    method RowReturned(f: nat, ok: bool)
      requires Flying(Abstract(), f) && flights[f].phase.Isolating?
      modifies this
      ensures Abstract() == RowAnswered(old(Abstract()), f, ok)
    {
      var flight := flights[f];
      var i := flight.phase.group;
      if ok {
        confirmed := confirmed + [Request(flight.job, FirstRows([flight.groups[i]]))];
        Settle(f, flight.groups[i], Resolved);
      } else {
        Settle(f, flight.groups[i], Rejected);
      }
      if i + 1 < |flight.groups| {
        SendOneRow(f, i + 1);
      } else {
        FinishFlush(f);
      }
    }
  }

  // ---------------------------------------------------------------- what every step keeps

  ghost predicate Called(calls: seq<Waiter>, w: Waiter) {
    w.id < |calls| && calls[w.id] == w
  }

  ghost predicate SameKey(v: Waiter, w: Waiter) {
    Key(v.job, v.claim) == Key(w.job, w.claim)
  }

  /** The request was made for a job and carries a row that, by the key of w, are those of w. */
  ghost predicate Carries(calls: seq<Waiter>, q: Request, w: Waiter) {
    && (exists v :: v in calls && SameKey(v, w) && q.job == v.job)
    && (exists u :: u in calls && SameKey(u, w) && Row(u.claim, w.event.sequenceNum) in q.rows)
  }

  ghost predicate Confirmed(calls: seq<Waiter>, confirmed: seq<Request>, w: Waiter) {
    exists q :: q in confirmed && Carries(calls, q, w)
  }

  ghost predicate BufferSound(calls: seq<Waiter>, key: string, b: Buffer) {
    && (forall w | w in b.waiters :: Called(calls, w) && Key(w.job, w.claim) == key)
    && (b.timerJob.Some? ==> exists v :: v in b.waiters && v.job == b.timerJob.value)
  }

  ghost predicate FlightSound(calls: seq<Waiter>, fl: Flight) {
    && fl.waiters != [] && fl.groups == Grouped(fl.waiters) && fl.groups != []
    && (fl.phase.Isolating? ==> fl.phase.group < |fl.groups|)
    && fl.pending <= IdsOf(fl.waiters)
    && (forall w | w in fl.waiters :: Called(calls, w))
    && (forall v, w | v in fl.waiters && w in fl.waiters :: SameKey(v, w))
    && (exists v :: v in fl.waiters && v.job == fl.job)
  }

  ghost predicate SettlementSound(calls: seq<Waiter>, confirmed: seq<Request>, x: Settlement) {
    x.id < |calls| && (x.outcome.Resolved? ==> Confirmed(calls, confirmed, calls[x.id]))
  }

  ghost function SettledIds(xs: seq<Settlement>): set<nat> {
    set x | x in xs :: x.id
  }

  ghost predicate DistinctSettlements(xs: seq<Settlement>) {
    forall i, j | 0 <= i < j < |xs| :: xs[i].id != xs[j].id
  }

  ghost predicate BuffersApart(buffers: map<string, Buffer>) {
    forall j, k | j in buffers && k in buffers && j != k :: IdsOf(buffers[j].waiters) !! IdsOf(buffers[k].waiters)
  }

  ghost predicate FlightsApart(flights: map<nat, Flight>) {
    forall f, g | f in flights && g in flights && f != g :: flights[f].pending !! flights[g].pending
  }

  /** No call of add is in two places. */
  ghost predicate Apart(s: State) {
    && BuffersApart(s.buffers)
    && FlightsApart(s.flights)
    && (forall k, f | k in s.buffers && f in s.flights :: IdsOf(s.buffers[k].waiters) !! s.flights[f].pending)
    && (forall k | k in s.buffers :: IdsOf(s.buffers[k].waiters) !! SettledIds(s.settlements))
    && (forall f | f in s.flights :: s.flights[f].pending !! SettledIds(s.settlements))
    && DistinctSettlements(s.settlements)
  }

  ghost predicate Buffered(buffers: map<string, Buffer>, id: nat) {
    exists k :: k in buffers && id in IdsOf(buffers[k].waiters)
  }

  ghost predicate InFlight(flights: map<nat, Flight>, id: nat) {
    exists f :: f in flights && id in flights[f].pending
  }

  ghost predicate AllPlaced(s: State) {
    forall id: nat | id < |s.calls| ::
      id in SettledIds(s.settlements) || Buffered(s.buffers, id) || InFlight(s.flights, id)
  }

  ghost predicate DistinctRows(q: Request) {
    forall i, j | 0 <= i < j < |q.rows| :: q.rows[i].sequenceNum != q.rows[j].sequenceNum
  }

  ghost predicate RequestsSound(s: State) {
    && (forall q | q in s.sent :: DistinctRows(q))
    && (forall q | q in s.confirmed :: q in s.sent)
  }

  ghost predicate PartsSound(s: State) {
    && (forall i: nat | i < |s.calls| :: s.calls[i].id == i)
    && (forall k | k in s.buffers :: BufferSound(s.calls, k, s.buffers[k]))
    && (forall f | f in s.flights :: f < s.launched && FlightSound(s.calls, s.flights[f]))
    && (forall x | x in s.settlements :: SettlementSound(s.calls, s.confirmed, x))
  }

  ghost predicate Core(s: State) {
    PartsSound(s) && Apart(s) && AllPlaced(s) && RequestsSound(s)
  }

  lemma {:induction false} SettlementsOf(group: seq<Waiter>, pending: set<nat>, outcome: Outcome)
    ensures var xs := Settlements(group, pending, outcome);
            && DistinctSettlements(xs)
            && SettledIds(xs) == IdsOf(group) * pending
            && forall x | x in xs :: x.outcome == outcome
  {
    if group != [] {
      var id := group[0].id;
      var rest := if id in pending then pending - {id} else pending;
      var ys := Settlements(group[1..], rest, outcome);
      SettlementsOf(group[1..], rest, outcome);
      assert IdsOf(group) == {id} + IdsOf(group[1..]);
      forall y | y in ys ensures y.id != id || id !in pending {
        assert y.id in SettledIds(ys);
      }
      assert SettledIds([Settlement(id, outcome)] + ys) == {id} + SettledIds(ys);
    }
  }

  lemma SettledIdsConcat(xs: seq<Settlement>, ys: seq<Settlement>)
    requires DistinctSettlements(xs) && DistinctSettlements(ys) && SettledIds(xs) !! SettledIds(ys)
    ensures SettledIds(xs + ys) == SettledIds(xs) + SettledIds(ys)
    ensures DistinctSettlements(xs + ys)
  {
    var all := xs + ys;
    forall i, j | 0 <= i < j < |all| ensures all[i].id != all[j].id {
      if i < |xs| <= j {
        assert all[i].id in SettledIds(xs) && all[j].id in SettledIds(ys);
      }
    }
  }

  lemma FewerPending(calls: seq<Waiter>, fl: Flight, settled: set<nat>)
    requires FlightSound(calls, fl)
    ensures FlightSound(calls, fl.(pending := fl.pending - settled))
  {
    hide Grouped, Called, SameKey;
  }

  lemma SettleKeepsParts(s: State, f: nat, group: seq<Waiter>, outcome: Outcome)
    requires Core(s) && f in s.flights
    requires forall w | w in group :: w in s.flights[f].waiters
    requires outcome.Resolved? ==> forall w | w in group :: Confirmed(s.calls, s.confirmed, w)
    ensures PartsSound(SettleGroup(s, f, group, outcome))
  {
    hide Apart, AllPlaced, RequestsSound, FlightSound, BufferSound, SettlementSound, Settlements, Confirmed;
    var xs := Settlements(group, s.flights[f].pending, outcome);
    FewerPending(s.calls, s.flights[f], IdsOf(group));
    forall x | x in xs ensures SettlementSound(s.calls, s.confirmed, x) {
      SettledIsSound(s, f, group, outcome, x);
    }
  }

  lemma SettledIsSound(s: State, f: nat, group: seq<Waiter>, outcome: Outcome, x: Settlement)
    requires PartsSound(s) && f in s.flights
    requires forall w | w in group :: w in s.flights[f].waiters
    requires outcome.Resolved? ==> forall w | w in group :: Confirmed(s.calls, s.confirmed, w)
    requires x in Settlements(group, s.flights[f].pending, outcome)
    ensures SettlementSound(s.calls, s.confirmed, x)
  {
    hide BufferSound, Settlements, Confirmed;
    var xs := Settlements(group, s.flights[f].pending, outcome);
    SettlementsOf(group, s.flights[f].pending, outcome);
    assert x.id in SettledIds(xs);
    var w :| w in group && w.id == x.id;
    assert FlightSound(s.calls, s.flights[f]);
    assert Called(s.calls, w);
  }

  lemma SettleKeepsApart(s: State, f: nat, group: seq<Waiter>, outcome: Outcome)
    requires Apart(s) && f in s.flights
    ensures var t := SettleGroup(s, f, group, outcome);
            Apart(t) && SettledIds(t.settlements) == SettledIds(s.settlements) + IdsOf(group) * s.flights[f].pending
  {
    var pending := s.flights[f].pending;
    var xs := Settlements(group, pending, outcome);
    SettlementsOf(group, pending, outcome);
    SettledIdsConcat(s.settlements, xs);
  }

  lemma SettleKeepsPlaced(s: State, f: nat, group: seq<Waiter>, outcome: Outcome)
    requires Apart(s) && AllPlaced(s) && f in s.flights
    ensures AllPlaced(SettleGroup(s, f, group, outcome))
  {
    var t := SettleGroup(s, f, group, outcome);
    SettleKeepsApart(s, f, group, outcome);
    forall id: nat | id < |t.calls| && id !in SettledIds(t.settlements)
      ensures Buffered(t.buffers, id) || InFlight(t.flights, id) {
      if InFlight(s.flights, id) {
        var g :| g in s.flights && id in s.flights[g].pending;
        assert id in t.flights[g].pending;
      }
    }
  }

  lemma SettleKeeps(s: State, f: nat, group: seq<Waiter>, outcome: Outcome)
    requires Core(s) && f in s.flights
    requires forall w | w in group :: w in s.flights[f].waiters
    requires outcome.Resolved? ==> forall w | w in group :: Confirmed(s.calls, s.confirmed, w)
    ensures Core(SettleGroup(s, f, group, outcome))
  {
    SettleKeepsParts(s, f, group, outcome);
    SettleKeepsApart(s, f, group, outcome);
    SettleKeepsPlaced(s, f, group, outcome);
  }

  lemma LandKeeps(s: State, f: nat)
    requires Core(s) && f in s.flights && s.flights[f].pending == {}
    ensures Core(s.(flights := s.flights - {f}))
  {
    hide Grouped, BufferSound, FlightSound, SettlementSound, DistinctRows, DistinctSettlements;
    var t := s.(flights := s.flights - {f});
    forall id: nat | id < |t.calls| && id !in SettledIds(t.settlements)
      ensures Buffered(t.buffers, id) || InFlight(t.flights, id) {
      if InFlight(s.flights, id) {
        var g :| g in s.flights && id in s.flights[g].pending;
        assert g in t.flights;
      }
    }
  }

  lemma FinishKeeps(s: State, f: nat)
    requires Core(s) && f in s.flights
    ensures Core(Finish(s, f))
  {
    SettleKeeps(s, f, s.flights[f].waiters, Rejected);
    LandKeeps(SettleGroup(s, f, s.flights[f].waiters, Rejected), f);
  }

  function WithPhase(s: State, f: nat, phase: Phase): State
    requires f in s.flights
  {
    s.(flights := s.flights[f := s.flights[f].(phase := phase)])
  }

  lemma OtherPhase(calls: seq<Waiter>, fl: Flight, i: nat)
    requires FlightSound(calls, fl) && i < |fl.groups|
    ensures FlightSound(calls, fl.(phase := Isolating(i)))
  {
    hide Grouped, Called, SameKey;
  }

  lemma PhaseKeepsParts(s: State, f: nat, i: nat)
    requires Core(s) && f in s.flights && i < |s.flights[f].groups|
    ensures PartsSound(WithPhase(s, f, Isolating(i))) && Apart(WithPhase(s, f, Isolating(i)))
  {
    hide Grouped, BufferSound, FlightSound, SettlementSound, AllPlaced, RequestsSound, IdsOf, SettledIds;
    OtherPhase(s.calls, s.flights[f], i);
  }

  lemma PhaseKeeps(s: State, f: nat, i: nat)
    requires Core(s) && f in s.flights && i < |s.flights[f].groups|
    ensures Core(WithPhase(s, f, Isolating(i)))
  {
    hide PartsSound, Apart, SettledIds, IdsOf, DistinctRows;
    var t := WithPhase(s, f, Isolating(i));
    PhaseKeepsParts(s, f, i);
    forall id: nat | id < |t.calls| && id !in SettledIds(t.settlements)
      ensures Buffered(t.buffers, id) || InFlight(t.flights, id) {
      if InFlight(s.flights, id) {
        var g :| g in s.flights && id in s.flights[g].pending;
        assert id in t.flights[g].pending;
      }
    }
  }

  lemma SendKeeps(s: State, q: Request)
    requires Core(s) && DistinctRows(q)
    ensures Core(s.(sent := s.sent + [q]))
  {
    hide SettledIds, IdsOf, DistinctRows, Buffered, InFlight, BufferSound, FlightSound, SettlementSound;
  }

  lemma SendAloneKeeps(s: State, f: nat, i: nat)
    requires Core(s) && f in s.flights && i < |s.flights[f].groups|
    ensures Core(SendAlone(s, f, i))
  {
    PhaseKeeps(s, f, i);
    SendKeeps(WithPhase(s, f, Isolating(i)),
              Request(s.flights[f].job, FirstRows([s.flights[f].groups[i]])));
  }

  lemma MoreConfirmed(s: State, q: Request)
    requires Core(s) && q in s.sent
    ensures Core(s.(confirmed := s.confirmed + [q]))
  {
    hide SettledIds, IdsOf, DistinctRows, Buffered, InFlight, BufferSound, FlightSound, Carries;
    forall x | x in s.settlements ensures SettlementSound(s.calls, s.confirmed + [q], x) {
      assert SettlementSound(s.calls, s.confirmed, x);
    }
  }

  lemma FirstRowsDistinct(waiters: seq<Waiter>, job: JobId)
    ensures DistinctRows(Request(job, FirstRows(Grouped(waiters))))
    ensures waiters != [] ==> Grouped(waiters) != []
  {
    forall x ensures WellGrouped(Grouped(waiters)) && (InSomeGroup(Grouped(waiters), x) <==> x in waiters) {
      GroupedIsSound(waiters, x);
    }
    if waiters != [] {
      assert InSomeGroup(Grouped(waiters), waiters[0]);
    }
  }

  /** Detaching a buffer turns it into a flight that owns the same waiters. */
  function Launched(s: State, key: string, job: JobId): State
    requires key in s.buffers
  {
    var ws := s.buffers[key].waiters;
    s.(buffers := s.buffers - {key}, launched := s.launched + 1,
       flights := s.flights[s.launched := Flight(job, ws, Grouped(ws), IdsOf(ws), Batch)])
  }

  lemma LaunchKeepsParts(s: State, key: string, job: JobId)
    requires Core(s) && key in s.buffers && s.buffers[key].waiters != []
    requires exists v :: v in s.buffers[key].waiters && v.job == job
    ensures PartsSound(Launched(s, key, job))
  {
    var ws := s.buffers[key].waiters;
    FirstRowsDistinct(ws, job);
    assert BufferSound(s.calls, key, s.buffers[key]);
    assert FlightSound(s.calls, Flight(job, ws, Grouped(ws), IdsOf(ws), Batch));
  }

  lemma LaunchKeepsApart(s: State, key: string, job: JobId)
    requires Core(s) && key in s.buffers
    ensures Apart(Launched(s, key, job))
  {
    var t := Launched(s, key, job);
    assert t.flights[s.launched].pending == IdsOf(s.buffers[key].waiters);
    forall f | f in s.flights ensures f != s.launched && t.flights[f] == s.flights[f] {
    }
  }

  lemma LaunchKeepsPlaced(s: State, key: string, job: JobId)
    requires Core(s) && key in s.buffers
    ensures AllPlaced(Launched(s, key, job))
  {
    hide Apart, RequestsSound, BufferSound, FlightSound, SettlementSound, Grouped, SettledIds, IdsOf;
    var t := Launched(s, key, job);
    forall id: nat | id < |t.calls| && id !in SettledIds(t.settlements)
      ensures Buffered(t.buffers, id) || InFlight(t.flights, id) {
      if InFlight(s.flights, id) {
        var g :| g in s.flights && id in s.flights[g].pending;
        assert g < s.launched;
        assert g in t.flights && id in t.flights[g].pending;
      } else {
        var k :| k in s.buffers && id in IdsOf(s.buffers[k].waiters);
        if k == key {
          assert t.flights[s.launched].pending == IdsOf(s.buffers[key].waiters);
          assert id in t.flights[s.launched].pending;
        } else {
          assert k in t.buffers;
        }
      }
    }
  }

  lemma DetachKeeps(s: State, key: string, job: JobId)
    requires Core(s) && key in s.buffers && exists v :: v in s.buffers[key].waiters && v.job == job
    ensures Core(Detach(s, key, job))
  {
    LaunchKeepsParts(s, key, job);
    LaunchKeepsApart(s, key, job);
    LaunchKeepsPlaced(s, key, job);
    FirstRowsDistinct(s.buffers[key].waiters, job);
    SendKeeps(Launched(s, key, job), Request(job, FirstRows(Grouped(s.buffers[key].waiters))));
  }

  lemma MoreCalls(calls: seq<Waiter>, w: Waiter, q: Request, x: Waiter)
    requires Carries(calls, q, x)
    ensures Carries(calls + [w], q, x)
  {
    hide SameKey;
    var v :| v in calls && SameKey(v, x) && q.job == v.job;
    var u :| u in calls && SameKey(u, x) && Row(u.claim, x.event.sequenceNum) in q.rows;
    assert v in calls + [w] && u in calls + [w];
  }

  lemma FlightStaysSound(calls: seq<Waiter>, w: Waiter, fl: Flight)
    requires FlightSound(calls, fl)
    ensures FlightSound(calls + [w], fl)
  {
    hide Grouped, SameKey;
    forall x | x in fl.waiters ensures Called(calls + [w], x) {
      assert Called(calls, x);
    }
  }

  lemma BufferStaysSound(calls: seq<Waiter>, w: Waiter, key: string, b: Buffer)
    requires BufferSound(calls, key, b)
    ensures BufferSound(calls + [w], key, b)
  {
    hide Key;
    forall x | x in b.waiters ensures Called(calls + [w], x) {
      assert Called(calls, x);
    }
  }

  lemma SettlementStaysSound(calls: seq<Waiter>, w: Waiter, confirmed: seq<Request>, x: Settlement)
    requires SettlementSound(calls, confirmed, x)
    ensures SettlementSound(calls + [w], confirmed, x)
  {
    hide Carries;
    if x.outcome.Resolved? {
      var q :| q in confirmed && Carries(calls, q, calls[x.id]);
      MoreCalls(calls, w, q, calls[x.id]);
    }
  }

  /** The buffer that a call joins. */
  lemma JoinedBufferIsSound(s: State, job: JobId, claim: string, event: Event, armFor: Option<JobId>)
    requires PartsSound(s)
    requires var key := Key(job, claim);
             armFor == (if key in s.buffers then s.buffers[key].timerJob else None) || armFor == Some(job)
    ensures var key := Key(job, claim);
            var t := Joined(s, job, claim, event, armFor);
            BufferSound(t.calls, key, t.buffers[key])
  {
    hide FlightSound, SettlementSound, Key;
    var key := Key(job, claim);
    var t := Joined(s, job, claim, event, armFor);
    var w := t.calls[|s.calls|];
    assert w in t.buffers[key].waiters && w.job == job;
    if key in s.buffers {
      BufferStaysSound(s.calls, w, key, s.buffers[key]);
      if s.buffers[key].timerJob.Some? {
        var v :| v in s.buffers[key].waiters && v.job == s.buffers[key].timerJob.value;
        assert v in t.buffers[key].waiters;
      }
    }
  }

  lemma JoinKeepsParts(s: State, job: JobId, claim: string, event: Event, armFor: Option<JobId>)
    requires Core(s)
    requires var key := Key(job, claim);
             armFor == (if key in s.buffers then s.buffers[key].timerJob else None) || armFor == Some(job)
    ensures PartsSound(Joined(s, job, claim, event, armFor))
  {
    hide Apart, AllPlaced, RequestsSound, FlightSound, BufferSound, SettlementSound, Key;
    var t := Joined(s, job, claim, event, armFor);
    var w := t.calls[|s.calls|];
    assert t.calls == s.calls + [w];
    forall x | x in t.settlements ensures SettlementSound(t.calls, t.confirmed, x) {
      SettlementStaysSound(s.calls, w, s.confirmed, x);
    }
    forall f | f in t.flights ensures FlightSound(t.calls, t.flights[f]) {
      FlightStaysSound(s.calls, w, s.flights[f]);
    }
    JoinedBufferIsSound(s, job, claim, event, armFor);
    forall k | k in t.buffers && k != Key(job, claim) ensures BufferSound(t.calls, k, t.buffers[k]) {
      BufferStaysSound(s.calls, w, k, s.buffers[k]);
    }
  }

  lemma JoinedIds(s: State, job: JobId, claim: string, event: Event, armFor: Option<JobId>, k: string)
    requires k in Joined(s, job, claim, event, armFor).buffers
    ensures IdsOf(Joined(s, job, claim, event, armFor).buffers[k].waiters) ==
            (if k in s.buffers then IdsOf(s.buffers[k].waiters) else {}) +
            (if k == Key(job, claim) then {|s.calls|} else {})
  {
  }

  lemma JoinKeepsApart(s: State, job: JobId, claim: string, event: Event, armFor: Option<JobId>)
    requires Core(s)
    ensures Apart(Joined(s, job, claim, event, armFor))
  {
    var t := Joined(s, job, claim, event, armFor);
    AllIdsOld(s);
    forall j, k | j in t.buffers && k in t.buffers && j != k
      ensures IdsOf(t.buffers[j].waiters) !! IdsOf(t.buffers[k].waiters) {
      JoinedIds(s, job, claim, event, armFor, j);
      JoinedIds(s, job, claim, event, armFor, k);
    }
    forall k, f | k in t.buffers && f in t.flights
      ensures IdsOf(t.buffers[k].waiters) !! t.flights[f].pending {
      JoinedIds(s, job, claim, event, armFor, k);
    }
    forall k | k in t.buffers ensures IdsOf(t.buffers[k].waiters) !! SettledIds(t.settlements) {
      JoinedIds(s, job, claim, event, armFor, k);
    }
  }

  lemma JoinKeepsPlaced(s: State, job: JobId, claim: string, event: Event, armFor: Option<JobId>)
    requires Core(s)
    ensures AllPlaced(Joined(s, job, claim, event, armFor))
  {
    var key := Key(job, claim);
    var t := Joined(s, job, claim, event, armFor);
    var before := if key in s.buffers then IdsOf(s.buffers[key].waiters) else {};
    assert IdsOf(t.buffers[key].waiters) == before + {|s.calls|};
    forall id: nat | id < |t.calls| && id !in SettledIds(t.settlements)
      ensures Buffered(t.buffers, id) || InFlight(t.flights, id) {
      if id == |s.calls| {
        assert id in IdsOf(t.buffers[key].waiters);
      } else if Buffered(s.buffers, id) {
        var k :| k in s.buffers && id in IdsOf(s.buffers[k].waiters);
        assert k in t.buffers && id in IdsOf(t.buffers[k].waiters);
      }
    }
  }

  lemma JoinKeeps(s: State, job: JobId, claim: string, event: Event, armFor: Option<JobId>)
    requires Core(s)
    requires var key := Key(job, claim);
             armFor == (if key in s.buffers then s.buffers[key].timerJob else None) || armFor == Some(job)
    ensures Core(Joined(s, job, claim, event, armFor))
  {
    JoinKeepsParts(s, job, claim, event, armFor);
    JoinKeepsApart(s, job, claim, event, armFor);
    JoinKeepsPlaced(s, job, claim, event, armFor);
  }

  lemma AllIdsOld(s: State)
    requires Core(s)
    ensures forall k, id | k in s.buffers && id in IdsOf(s.buffers[k].waiters) :: id < |s.calls|
    ensures forall f, id | f in s.flights && id in s.flights[f].pending :: id < |s.calls|
    ensures forall id | id in SettledIds(s.settlements) :: id < |s.calls|
  {
    forall k, id | k in s.buffers && id in IdsOf(s.buffers[k].waiters) ensures id < |s.calls| {
      assert BufferSound(s.calls, k, s.buffers[k]);
    }
    forall f, id | f in s.flights && id in s.flights[f].pending ensures id < |s.calls| {
      assert FlightSound(s.calls, s.flights[f]);
      assert id in IdsOf(s.flights[f].waiters);
    }
  }

  // ---------------------------------------------------------------- every interleaving

  lemma AddKeeps(s: State, limits: Limits, job: JobId, claim: string, event: Event)
    requires Core(s)
    ensures Core(AddCall(s, limits, job, claim, event))
  {
    hide Core, Detach, Key;
    var key := Key(job, claim);
    var timer := if key in s.buffers then s.buffers[key].timerJob else None;
    var t := Joined(s, job, claim, event, timer);
    JoinKeeps(s, job, claim, event, timer);
    var c := t.buffers[key];
    assert c.waiters[|c.waiters| - 1].job == job;
    if |c.waiters| >= limits.maxEvents || c.bytes >= limits.maxBytes {
      DetachKeeps(t, key, job);
    } else {
      JoinKeeps(s, job, claim, event, if timer.None? then Some(job) else timer);
    }
  }

  lemma TimerKeeps(s: State, key: string)
    requires Core(s) && key in s.buffers && s.buffers[key].timerJob.Some?
    ensures Core(Detach(s, key, s.buffers[key].timerJob.value))
  {
    assert BufferSound(s.calls, key, s.buffers[key]);
    DetachKeeps(s, key, s.buffers[key].timerJob.value);
  }

  /** A confirmed request with a row for each group confirms every waiter of those groups. */
  lemma RowsConfirm(s: State, f: nat, groups: seq<seq<Waiter>>, i: nat, w: Waiter)
    requires Core(s) && f in s.flights && i < |groups| && w in groups[i]
    requires WellGrouped(groups) && forall k, x | 0 <= k < |groups| && x in groups[k] :: x in s.flights[f].waiters
    ensures Carries(s.calls, Request(s.flights[f].job, FirstRows(groups)), w)
  {
    var fl := s.flights[f];
    assert FlightSound(s.calls, fl);
    var v :| v in fl.waiters && v.job == fl.job;
    assert Called(s.calls, v) && SameKey(v, w) && v in s.calls;
    var u := groups[i][0];
    assert u in groups[i] && u in fl.waiters && Called(s.calls, u) && SameKey(u, w) && u in s.calls;
    assert FirstRows(groups)[i] == Row(u.claim, w.event.sequenceNum);
  }

  /** The request that a flight waits for was sent. */
  ghost predicate AwaitsSent(sent: seq<Request>, fl: Flight) {
    match fl.phase
    case Batch => Request(fl.job, FirstRows(fl.groups)) in sent
    case Isolating(i) => i < |fl.groups| && Request(fl.job, FirstRows([fl.groups[i]])) in sent
  }

  ghost predicate SentCurrent(s: State) {
    forall f | f in s.flights :: AwaitsSent(s.sent, s.flights[f])
  }

  lemma GroupsInWaiters(waiters: seq<Waiter>)
    ensures WellGrouped(Grouped(waiters))
    ensures forall k, x | 0 <= k < |Grouped(waiters)| && x in Grouped(waiters)[k] :: x in waiters
    ensures forall x | x in waiters :: InSomeGroup(Grouped(waiters), x)
  {
    forall x ensures WellGrouped(Grouped(waiters)) && (InSomeGroup(Grouped(waiters), x) <==> x in waiters) {
      GroupedIsSound(waiters, x);
    }
    forall k, x | 0 <= k < |Grouped(waiters)| && x in Grouped(waiters)[k] ensures x in waiters {
      assert InSomeGroup(Grouped(waiters), x);
    }
  }

  lemma BatchAnswerKeeps(s: State, f: nat, ok: bool, retryable: bool)
    requires Core(s) && SentCurrent(s) && Flying(s, f) && s.flights[f].phase.Batch?
    ensures Core(BatchAnswered(s, f, ok, retryable))
  {
    var fl := s.flights[f];
    assert FlightSound(s.calls, fl);
    if ok {
      var q := Request(fl.job, FirstRows(fl.groups));
      var t := s.(confirmed := s.confirmed + [q]);
      MoreConfirmed(s, q);
      GroupsInWaiters(fl.waiters);
      forall w | w in fl.waiters ensures Confirmed(t.calls, t.confirmed, w) {
        var i :| 0 <= i < |fl.groups| && w in fl.groups[i];
        RowsConfirm(t, f, fl.groups, i, w);
      }
      SettleKeeps(t, f, fl.waiters, Resolved);
      FinishKeeps(SettleGroup(t, f, fl.waiters, Resolved), f);
    } else if |fl.groups| == 1 || retryable {
      SettleKeeps(s, f, fl.waiters, Rejected);
      FinishKeeps(SettleGroup(s, f, fl.waiters, Rejected), f);
    } else {
      SendAloneKeeps(s, f, 0);
    }
  }

  lemma CoreFlight(s: State, f: nat)
    requires Core(s) && f in s.flights
    ensures FlightSound(s.calls, s.flights[f])
  {
    hide FlightSound;
  }

  lemma SettledFlight(s: State, f: nat, group: seq<Waiter>, outcome: Outcome)
    requires f in s.flights
    ensures var t := SettleGroup(s, f, group, outcome);
            f in t.flights && t.flights[f] == s.flights[f].(pending := s.flights[f].pending - IdsOf(group))
  {
    hide Settlements;
  }

  lemma RowAnswerKeeps(s: State, f: nat, ok: bool)
    requires Core(s) && SentCurrent(s) && Flying(s, f) && s.flights[f].phase.Isolating?
    ensures Core(RowAnswered(s, f, ok))
  {
    hide Core, Finish, SendAlone, SettleGroup, Grouped, Carries;
    var fl := s.flights[f];
    var i := fl.phase.group;
    var group := fl.groups[i];
    CoreFlight(s, f);
    GroupsInWaiters(fl.waiters);
    var q := Request(fl.job, FirstRows([group]));
    var t := if ok then s.(confirmed := s.confirmed + [q]) else s;
    if ok {
      MoreConfirmed(s, q);
      forall w | w in group ensures Confirmed(t.calls, t.confirmed, w) {
        assert w in [group][0];
        assert WellGrouped([group]);
        RowsConfirm(t, f, [group], 0, w);
      }
    }
    var outcome := if ok then Resolved else Rejected;
    SettleKeeps(t, f, group, outcome);
    var u := SettleGroup(t, f, group, outcome);
    SettledFlight(t, f, group, outcome);
    if i + 1 < |fl.groups| {
      SendAloneKeeps(u, f, i + 1);
    } else {
      FinishKeeps(u, f);
    }
  }

  lemma DetachStaysCurrent(s: State, key: string, job: JobId)
    requires SentCurrent(s)
    ensures SentCurrent(Detach(s, key, job))
  {
    var t := Detach(s, key, job);
    forall f | f in t.flights ensures AwaitsSent(t.sent, t.flights[f]) {
      if f in s.flights {
        assert AwaitsSent(s.sent, s.flights[f]);
      }
    }
  }

  lemma SettleStaysCurrent(s: State, f: nat, group: seq<Waiter>, outcome: Outcome)
    requires SentCurrent(s) && f in s.flights
    ensures SentCurrent(SettleGroup(s, f, group, outcome))
  {
    var t := SettleGroup(s, f, group, outcome);
    forall g | g in t.flights ensures AwaitsSent(t.sent, t.flights[g]) {
      assert AwaitsSent(s.sent, s.flights[g]);
    }
  }

  lemma SendAloneStaysCurrent(s: State, f: nat, i: nat)
    requires SentCurrent(s) && f in s.flights && i < |s.flights[f].groups|
    ensures SentCurrent(SendAlone(s, f, i))
  {
    var t := SendAlone(s, f, i);
    forall g | g in t.flights ensures AwaitsSent(t.sent, t.flights[g]) {
      assert AwaitsSent(s.sent, s.flights[g]);
    }
  }

  lemma BatchStaysCurrent(s: State, f: nat, ok: bool, retryable: bool)
    requires SentCurrent(s) && Flying(s, f) && s.flights[f].phase.Batch?
    ensures SentCurrent(BatchAnswered(s, f, ok, retryable))
  {
    var fl := s.flights[f];
    if ok || |fl.groups| == 1 || retryable {
      var t := if ok then s.(confirmed := s.confirmed + [Request(fl.job, FirstRows(fl.groups))]) else s;
      var outcome := if ok then Resolved else Rejected;
      SettleStaysCurrent(t, f, fl.waiters, outcome);
      SettleStaysCurrent(SettleGroup(t, f, fl.waiters, outcome), f, fl.waiters, Rejected);
    } else {
      SendAloneStaysCurrent(s, f, 0);
    }
  }

  lemma RowStaysCurrent(s: State, f: nat, ok: bool)
    requires SentCurrent(s) && Flying(s, f) && s.flights[f].phase.Isolating?
    ensures SentCurrent(RowAnswered(s, f, ok))
  {
    var fl := s.flights[f];
    var i := fl.phase.group;
    var t := if ok then s.(confirmed := s.confirmed + [Request(fl.job, FirstRows([fl.groups[i]]))]) else s;
    var outcome := if ok then Resolved else Rejected;
    SettleStaysCurrent(t, f, fl.groups[i], outcome);
    var u := SettleGroup(t, f, fl.groups[i], outcome);
    if i + 1 < |fl.groups| {
      SendAloneStaysCurrent(u, f, i + 1);
    } else {
      SettleStaysCurrent(u, f, fl.waiters, Rejected);
    }
  }

  lemma SentStaysCurrent(s: State, limits: Limits, step: Step)
    requires SentCurrent(s)
    ensures SentCurrent(Next(s, limits, step))
  {
    match step
    case Add(job, claim, event) =>
      var key := Key(job, claim);
      var timer := if key in s.buffers then s.buffers[key].timerJob else None;
      DetachStaysCurrent(Joined(s, job, claim, event, timer), key, job);
    case TimerFires(key) =>
      if key in s.buffers && s.buffers[key].timerJob.Some? {
        DetachStaysCurrent(s, key, s.buffers[key].timerJob.value);
      }
    case BatchAnswer(f, ok, retryable) =>
      if Flying(s, f) && s.flights[f].phase.Batch? { BatchStaysCurrent(s, f, ok, retryable); }
    case RowAnswer(f, ok) =>
      if Flying(s, f) && s.flights[f].phase.Isolating? { RowStaysCurrent(s, f, ok); }
  }

  lemma NothingYet()
    ensures Core(INITIAL) && SentCurrent(INITIAL)
  {
  }

  lemma {:induction false} RunKeepsCore(limits: Limits, steps: seq<Step>)
    ensures Core(After(limits, steps)) && SentCurrent(After(limits, steps))
  {
    hide Core, SentCurrent, Next;
    NothingYet();
    if steps != [] {
      var s := After(limits, steps[..|steps| - 1]);
      RunKeepsCore(limits, steps[..|steps| - 1]);
      var step := steps[|steps| - 1];
      SentStaysCurrent(s, limits, step);
      StepKeepsCore(s, limits, step);
    }
  }

  lemma StepKeepsCore(s: State, limits: Limits, step: Step)
    requires Core(s) && SentCurrent(s)
    ensures Core(Next(s, limits, step))
  {
    hide Core, SentCurrent, AddCall, Detach, BatchAnswered, RowAnswered;
    match step
    case Add(job, claim, event) => AddKeeps(s, limits, job, claim, event);
    case TimerFires(key) => if key in s.buffers && s.buffers[key].timerJob.Some? { TimerKeeps(s, key); }
    case BatchAnswer(f, ok, retryable) =>
      if Flying(s, f) && s.flights[f].phase.Batch? { BatchAnswerKeeps(s, f, ok, retryable); }
    case RowAnswer(f, ok) =>
      if Flying(s, f) && s.flights[f].phase.Isolating? { RowAnswerKeeps(s, f, ok); }
  }

  /** Every buffer has an armed timer and is under both limits. */
  ghost predicate BuffersWaiting(s: State, limits: Limits) {
    forall k | k in s.buffers ::
      && s.buffers[k].timerJob.Some?
      && |s.buffers[k].waiters| < limits.maxEvents && s.buffers[k].bytes < limits.maxBytes
  }

  lemma AddKeepsWaiting(s: State, limits: Limits, job: JobId, claim: string, event: Event)
    requires BuffersWaiting(s, limits)
    ensures BuffersWaiting(AddCall(s, limits, job, claim, event), limits)
  {
    hide Key, Grouped;
  }

  /** Answers touch flights only. */
  lemma AnswersKeepBuffers(s: State, f: nat, ok: bool, retryable: bool)
    requires Flying(s, f)
    ensures s.flights[f].phase.Batch? ==> BatchAnswered(s, f, ok, retryable).buffers == s.buffers
    ensures s.flights[f].phase.Isolating? ==> RowAnswered(s, f, ok).buffers == s.buffers
  {
    hide Settlements;
  }

  lemma {:induction false} RunKeepsWaiting(limits: Limits, steps: seq<Step>)
    ensures BuffersWaiting(After(limits, steps), limits)
  {
    hide AddCall, BatchAnswered, RowAnswered, Grouped;
    if steps != [] {
      var s := After(limits, steps[..|steps| - 1]);
      RunKeepsWaiting(limits, steps[..|steps| - 1]);
      match steps[|steps| - 1]
      case Add(job, claim, event) => AddKeepsWaiting(s, limits, job, claim, event);
      case TimerFires(key) =>
      case BatchAnswer(f, ok, retryable) => if Flying(s, f) { AnswersKeepBuffers(s, f, ok, retryable); }
      case RowAnswer(f, ok) => if Flying(s, f) { AnswersKeepBuffers(s, f, ok, false); }
    }
  }

  ghost predicate WaitingInBuffer(s: State, limits: Limits, id: nat) {
    exists k :: k in s.buffers && id in IdsOf(s.buffers[k].waiters) && s.buffers[k].timerJob.Some? &&
                |s.buffers[k].waiters| < limits.maxEvents && s.buffers[k].bytes < limits.maxBytes
  }

  ghost predicate WaitingInFlight(s: State, id: nat) {
    exists f :: f in s.flights && id in s.flights[f].pending && Flying(s, f) && AwaitsSent(s.sent, s.flights[f])
  }

  /** Under every interleaving of adds, timers and API answers: no promise is settled twice; one that is
      not settled waits in a buffer that is armed and under its limits, or in a flight whose request is
      out, and a settled one waits nowhere; no request carries two rows of one sequence number. */
  lemma EveryWaiterIsAccountedFor(limits: Limits, steps: seq<Step>, id: nat)
    requires id < |After(limits, steps).calls|
    ensures var s := After(limits, steps);
            && DistinctSettlements(s.settlements)
            && (id in SettledIds(s.settlements) <==> !WaitingInBuffer(s, limits, id) && !WaitingInFlight(s, id))
            && !(WaitingInBuffer(s, limits, id) && WaitingInFlight(s, id))
            && forall q | q in s.sent :: DistinctRows(q)
  {
    var s := After(limits, steps);
    RunKeepsCore(limits, steps);
    RunKeepsWaiting(limits, steps);
    if id !in SettledIds(s.settlements) {
      if Buffered(s.buffers, id) {
        var k :| k in s.buffers && id in IdsOf(s.buffers[k].waiters);
        assert WaitingInBuffer(s, limits, id);
      } else {
        var f :| f in s.flights && id in s.flights[f].pending;
        assert FlightSound(s.calls, s.flights[f]) && AwaitsSent(s.sent, s.flights[f]);
        assert WaitingInFlight(s, id);
      }
    }
  }

  /** Calls with equal keys are for the same job and claim. */
  ghost predicate KeysInjective(calls: seq<Waiter>) {
    forall v, w | v in calls && w in calls && SameKey(v, w) :: v.job == w.job && v.claim == w.claim
  }

  /** A promise is resolved only if the API confirmed a request that was sent for the waiter's own job
      and carries a row with its claim and sequence number. */
  lemma ResolvedMeansConfirmed(limits: Limits, steps: seq<Step>, x: Settlement)
    requires var s := After(limits, steps); KeysInjective(s.calls) && x in s.settlements && x.outcome.Resolved?
    ensures var s := After(limits, steps);
            && x.id < |s.calls|
            && exists q :: q in s.confirmed && q in s.sent && q.job == s.calls[x.id].job &&
                           RowOf(s.calls[x.id]) in q.rows
  {
    var s := After(limits, steps);
    RunKeepsCore(limits, steps);
    assert SettlementSound(s.calls, s.confirmed, x);
    var w := s.calls[x.id];
    var q :| q in s.confirmed && Carries(s.calls, q, w);
    assert w in s.calls;
  }

  /** Job ids without a space keep the keys apart, whatever the claims are. */
  lemma SpacelessJobsKeepKeysApart(calls: seq<Waiter>)
    requires forall w | w in calls :: ' ' !in w.job
    ensures KeysInjective(calls)
  {
    forall v, w | v in calls && w in calls && SameKey(v, w) ensures v.job == w.job && v.claim == w.claim {
      Separator.FirstPart(' ', v.job, v.claim, w.job, w.claim);
    }
  }

  lemma AfterAppend(limits: Limits, steps: seq<Step>, step: Step)
    ensures After(limits, steps + [step]) == Next(After(limits, steps), limits, step)
  {
    assert (steps + [step])[..|steps|] == steps;
  }

  /** The second of these calls fills the buffer they share. */
  predicate Fills(limits: Limits, v: Waiter, w: Waiter) {
    2 >= limits.maxEvents || v.event.bytes + w.event.bytes >= limits.maxBytes
  }

  /** The calls of two jobs, up to the request for the buffer they share: either the second call fills it
      and sends it for its own job, or the timer of the first one sends it for that one's job. */
  function SharedRequest(limits: Limits, v: Waiter, w: Waiter): seq<Step> {
    [Add(v.job, v.claim, v.event)] + [Add(w.job, w.claim, w.event)]
    + if Fills(limits, v, w) then [] else [TimerFires(Key(v.job, v.claim))]
  }

  /** The same, and the answer to that request. */
  function Collision(limits: Limits, v: Waiter, w: Waiter): seq<Step> {
    SharedRequest(limits, v, w) + [BatchAnswer(0, true, false)]
  }

  lemma FirstAdd(limits: Limits, v: Waiter)
    requires limits.maxEvents > 1 && limits.maxBytes > v.event.bytes && v.id == 0
    ensures After(limits, [Add(v.job, v.claim, v.event)]) ==
            INITIAL.(calls := [v], buffers := map[Key(v.job, v.claim) := Buffer([v], v.event.bytes, Some(v.job))])
  {
    hide Key, Detach;
    var t := Joined(INITIAL, v.job, v.claim, v.event, Some(v.job));
    assert t.calls == [v];
    assert t.buffers == map[Key(v.job, v.claim) := Buffer([v], v.event.bytes, Some(v.job))];
    assert AddCall(INITIAL, limits, v.job, v.claim, v.event) == t;
    assert [Add(v.job, v.claim, v.event)][..0] == [];
    assert After(limits, []) == INITIAL;
  }

  lemma SecondAdd(limits: Limits, v: Waiter, w: Waiter)
    requires limits.maxEvents > 1 && limits.maxBytes > v.event.bytes && v.id == 0 && w.id == 1
    requires Key(v.job, v.claim) == Key(w.job, w.claim)
    ensures var t := INITIAL.(calls := [v, w], buffers :=
              map[Key(v.job, v.claim) := Buffer([v, w], v.event.bytes + w.event.bytes, Some(v.job))]);
            After(limits, [Add(v.job, v.claim, v.event)] + [Add(w.job, w.claim, w.event)]) ==
            if Fills(limits, v, w) then Detach(t, Key(v.job, v.claim), w.job) else t
  {
    hide Key, Detach, After;
    FirstAdd(limits, v);
    var s := After(limits, [Add(v.job, v.claim, v.event)]);
    var t := Joined(s, w.job, w.claim, w.event, Some(v.job));
    assert t.calls == [v, w];
    assert t.buffers == map[Key(v.job, v.claim) := Buffer([v, w], v.event.bytes + w.event.bytes, Some(v.job))];
    AfterAppend(limits, [Add(v.job, v.claim, v.event)], Add(w.job, w.claim, w.event));
  }

  lemma PairInTwoGroups(v: Waiter, w: Waiter)
    requires v.event.sequenceNum != w.event.sequenceNum
    ensures Grouped([v, w]) == [[v], [w]] && v.id in IdsOf([v, w]) && w.id in IdsOf([v, w])
  {
    assert [v, w][..1] == [v] && [v][..0] == [];
    assert Grouped([v]) == [[v]];
    assert GroupIndex([[v]], w.event.sequenceNum) == 1;
    assert v in [v, w] && w in [v, w];
  }

  lemma SharedBufferIsLaunched(limits: Limits, v: Waiter, w: Waiter)
    requires limits.maxEvents > 1 && limits.maxBytes > v.event.bytes && v.id == 0 && w.id == 1
    requires Key(v.job, v.claim) == Key(w.job, w.claim) && v.event.sequenceNum != w.event.sequenceNum
    ensures var s := After(limits, SharedRequest(limits, v, w));
            var job := if Fills(limits, v, w) then w.job else v.job;
            && s.calls == [v, w] && |s.sent| == 1 && s.sent[0].job == job
            && 0 in s.flights && s.flights[0] == Flight(job, [v, w], [[v], [w]], IdsOf([v, w]), Batch)
  {
    hide Key, After, Grouped, IdsOf, Fills;
    var two := [Add(v.job, v.claim, v.event)] + [Add(w.job, w.claim, w.event)];
    SecondAdd(limits, v, w);
    PairInTwoGroups(v, w);
    if Fills(limits, v, w) {
      assert two + [] == two;
    } else {
      AfterAppend(limits, two, TimerFires(Key(v.job, v.claim)));
    }
  }

  /** Any two jobs whose keys coincide can share a buffer: then one of the two waiters is resolved although
      no request was ever sent for its job. */
  lemma CollisionMisroutes(limits: Limits, v: Waiter, w: Waiter)
    requires limits.maxEvents > 1 && limits.maxBytes > v.event.bytes && v.id == 0 && w.id == 1
    requires Key(v.job, v.claim) == Key(w.job, w.claim) && v.event.sequenceNum != w.event.sequenceNum
    ensures var s := After(limits, Collision(limits, v, w));
            var (lost, job) := if Fills(limits, v, w) then (v, w.job) else (w, v.job);
            && Settlement(lost.id, Resolved) in s.settlements && s.calls == [v, w]
            && forall q | q in s.sent :: q.job == job
  {
    hide After, BatchAnswered, Key, IdsOf, Fills, SharedRequest;
    var steps := SharedRequest(limits, v, w);
    SharedBufferIsLaunched(limits, v, w);
    PairInTwoGroups(v, w);
    AfterAppend(limits, steps, BatchAnswer(0, true, false));
    BatchResolves(After(limits, steps), 0, v);
    BatchResolves(After(limits, steps), 0, w);
    BatchSendsNothing(After(limits, steps), 0);
  }

  const DEFAULT_LIMITS := Limits(250, 1_048_576)

  /** Jobs "a" and "a b" with claims "b c" and "c" have the same key. */
  lemma SharedKeyMisroutes()
    ensures var v, w := Waiter(0, "a", "b c", Event(1, 2)), Waiter(1, "a b", "c", Event(2, 2));
            var s := After(DEFAULT_LIMITS, Collision(DEFAULT_LIMITS, v, w));
            && Settlement(1, Resolved) in s.settlements
            && |s.calls| == 2 && s.calls[1].job == "a b"
            && forall q | q in s.sent :: q.job != "a b"
  {
    hide After, Collision;
    assert Key("a", "b c") == "a b c" == Key("a b", "c");
    CollisionMisroutes(DEFAULT_LIMITS, Waiter(0, "a", "b c", Event(1, 2)), Waiter(1, "a b", "c", Event(2, 2)));
  }

  /** Every resolved waiter got what it waited for. */
  ghost predicate RoutedSoundly(s: State) {
    forall x | x in s.settlements && x.outcome.Resolved? ::
      x.id < |s.calls| &&
      exists q :: q in s.confirmed && q in s.sent && q.job == s.calls[x.id].job && RowOf(s.calls[x.id]) in q.rows
  }

  /** The JSON of an object is no shorter than a pair of braces. */
  const SMALLEST_PAYLOAD := 2

  /** The calls of add in a run are for these jobs and claims, with payloads that are objects. */
  ghost predicate UsesOnly(steps: seq<Step>, pairs: set<(JobId, string)>) {
    forall i | 0 <= i < |steps| && steps[i].Add? ::
      (steps[i].job, steps[i].claim) in pairs && steps[i].event.bytes >= SMALLEST_PAYLOAD
  }

  /** No event ever waits in a buffer: each one alone reaches a limit. */
  predicate SendsAtOnce(limits: Limits) {
    limits.maxEvents <= 1 || limits.maxBytes <= SMALLEST_PAYLOAD
  }

  ghost predicate KeysApart(pairs: set<(JobId, string)>) {
    forall p, q | p in pairs && q in pairs && Key(p.0, p.1) == Key(q.0, q.1) :: p == q
  }

  lemma {:induction false} CallsAreFromSteps(limits: Limits, steps: seq<Step>, pairs: set<(JobId, string)>)
    requires UsesOnly(steps, pairs)
    ensures forall w | w in After(limits, steps).calls :: (w.job, w.claim) in pairs
  {
    hide Key, Detach, BatchAnswered, RowAnswered;
    if steps != [] {
      var init, step := steps[..|steps| - 1], steps[|steps| - 1];
      var s := After(limits, init);
      CallsAreFromSteps(limits, init, pairs);
      CallsAfter(s, limits, step);
    }
  }

  /** Only add makes a call. */
  lemma CallsAfter(s: State, limits: Limits, step: Step)
    ensures Next(s, limits, step).calls ==
            s.calls + if step.Add? then [Waiter(|s.calls|, step.job, step.claim, step.event)] else []
  {
    hide Key, Grouped, Settlements, FirstRows, IdsOf;
  }

  /** For any limits, no run over a set of jobs and claims can resolve a waiter without a confirmed request of
      its own job, claim and sequence number if and only if their keys are apart or every event is sent at
      once. */
  lemma RoutingNeedsKeysApart(limits: Limits, pairs: set<(JobId, string)>)
    ensures KeysApart(pairs) || SendsAtOnce(limits) <==>
            forall steps | UsesOnly(steps, pairs) :: RoutedSoundly(After(limits, steps))
  {
    hide After, Key, SendsAtOnce, UsesOnly;
    if KeysApart(pairs) {
      forall steps | UsesOnly(steps, pairs) ensures RoutedSoundly(After(limits, steps)) {
        KeysApartSuffices(limits, steps, pairs);
      }
    } else if SendsAtOnce(limits) {
      forall steps | UsesOnly(steps, pairs) ensures RoutedSoundly(After(limits, steps)) {
        SendingAtOnceSuffices(limits, steps, pairs);
      }
    } else {
      var p, q :| p in pairs && q in pairs && Key(p.0, p.1) == Key(q.0, q.1) && p != q;
      CollisionShows(limits, p, q, pairs);
    }
  }

  /** A flight of one waiter, sent for its own job. */
  ghost predicate SoloFlight(s: State, fl: Flight) {
    && |fl.waiters| == 1 && Called(s.calls, fl.waiters[0]) && fl.job == fl.waiters[0].job
    && fl.groups == [fl.waiters] && fl.phase.Batch? && Request(fl.job, [RowOf(fl.waiters[0])]) in s.sent
  }

  ghost predicate Solo(s: State) {
    s.buffers == map[] && (forall f | f in s.flights :: SoloFlight(s, s.flights[f])) && RoutedSoundly(s)
  }

  lemma SoloGroup(w: Waiter)
    ensures Grouped([w]) == [[w]] && FirstRows([[w]]) == [RowOf(w)]
  {
    assert [w][..0] == [];
  }

  lemma AddStaysSolo(s: State, limits: Limits, job: JobId, claim: string, event: Event)
    requires Solo(s) && SendsAtOnce(limits) && event.bytes >= SMALLEST_PAYLOAD
    ensures Solo(AddCall(s, limits, job, claim, event))
  {
    hide Key, Grouped, FirstRows, IdsOf;
    var key := Key(job, claim);
    var w := Waiter(|s.calls|, job, claim, event);
    var t := Joined(s, job, claim, event, None);
    assert t.buffers[key].waiters == [w] && t.buffers[key].bytes == event.bytes;
    assert t.buffers - {key} == map[];
    SoloGroup(w);
    var u := AddCall(s, limits, job, claim, event);
    assert u == Detach(t, key, job);
    assert u.flights == s.flights[s.launched := Flight(job, [w], [[w]], IdsOf([w]), Batch)];
    forall f | f in u.flights ensures SoloFlight(u, u.flights[f]) {
      if f != s.launched {
        assert SoloFlight(s, s.flights[f]);
      }
    }
    StillRouted(s, u);
  }

  lemma StillRouted(s: State, t: State)
    requires RoutedSoundly(s) && t.settlements == s.settlements && s.calls <= t.calls
    requires s.sent <= t.sent && s.confirmed <= t.confirmed
    ensures RoutedSoundly(t)
  {
    forall x | x in t.settlements && x.outcome.Resolved?
      ensures x.id < |t.calls| &&
        exists q :: q in t.confirmed && q in t.sent && q.job == t.calls[x.id].job && RowOf(t.calls[x.id]) in q.rows {
      assert t.calls[x.id] == s.calls[x.id];
      var q :| q in s.confirmed && q in s.sent && q.job == s.calls[x.id].job && RowOf(s.calls[x.id]) in q.rows;
      assert q in t.confirmed && q in t.sent;
    }
  }

  lemma AnswerStaysSolo(s: State, f: nat, ok: bool, retryable: bool)
    requires Solo(s) && Flying(s, f) && s.flights[f].phase.Batch?
    ensures Solo(BatchAnswered(s, f, ok, retryable))
  {
    hide Grouped, FirstRows, IdsOf, Settlements, RoutedSoundly;
    var fl := s.flights[f];
    var w := fl.waiters[0];
    assert SoloFlight(s, fl) && fl.waiters == [w];
    SoloGroup(w);
    var t := BatchAnswered(s, f, ok, retryable);
    assert t.flights == s.flights - {f};
    forall g | g in t.flights ensures SoloFlight(t, t.flights[g]) {
      assert SoloFlight(s, s.flights[g]);
    }
    var q := Request(fl.job, [RowOf(w)]);
    var confirmed := if ok then s.confirmed + [q] else s.confirmed;
    var later := Settlements(fl.waiters, fl.pending - IdsOf(fl.waiters), Rejected);
    var first := Settlements(fl.waiters, fl.pending, if ok then Resolved else Rejected);
    assert t.settlements == s.settlements + first + later;
    SettlementsOf(fl.waiters, fl.pending, if ok then Resolved else Rejected);
    SettlementsOf(fl.waiters, fl.pending - IdsOf(fl.waiters), Rejected);
    AnswerIsRouted(s, t, w, first, later, ok);
  }

  lemma AnswerIsRouted(s: State, t: State, w: Waiter, first: seq<Settlement>, later: seq<Settlement>, ok: bool)
    requires RoutedSoundly(s) && Called(s.calls, w) && t.calls == s.calls && t.sent == s.sent
    requires t.settlements == s.settlements + first + later
    requires t.confirmed == if ok then s.confirmed + [Request(w.job, [RowOf(w)])] else s.confirmed
    requires Request(w.job, [RowOf(w)]) in s.sent
    requires (forall x | x in later :: x.outcome.Rejected?) && (!ok ==> forall x | x in first :: x.outcome.Rejected?)
    requires SettledIds(first) <= IdsOf([w])
    ensures RoutedSoundly(t)
  {
    forall x | x in t.settlements && x.outcome.Resolved?
      ensures x.id < |t.calls| &&
        exists q :: q in t.confirmed && q in t.sent && q.job == t.calls[x.id].job && RowOf(t.calls[x.id]) in q.rows {
      if x in s.settlements {
        var q :| q in s.confirmed && q in s.sent && q.job == s.calls[x.id].job && RowOf(s.calls[x.id]) in q.rows;
        assert q in t.confirmed;
      } else {
        assert x in first && ok;
        assert x.id in SettledIds(first);
        var q := Request(w.job, [RowOf(w)]);
        assert t.confirmed[|s.confirmed|] == q && q.rows[0] == RowOf(w);
      }
    }
  }

  lemma {:induction false} RunStaysSolo(limits: Limits, steps: seq<Step>, pairs: set<(JobId, string)>)
    requires SendsAtOnce(limits) && UsesOnly(steps, pairs)
    ensures Solo(After(limits, steps))
  {
    hide SendsAtOnce, RoutedSoundly, SoloFlight, AddCall, BatchAnswered, Detach;
    if steps == [] {
      NothingRouted();
    } else {
      var init, step := steps[..|steps| - 1], steps[|steps| - 1];
      var s := After(limits, init);
      RunStaysSolo(limits, init, pairs);
      match step
      case Add(job, claim, event) => AddStaysSolo(s, limits, job, claim, event);
      case TimerFires(_) =>
      case BatchAnswer(f, ok, retryable) =>
        if Flying(s, f) && s.flights[f].phase.Batch? {
          AnswerStaysSolo(s, f, ok, retryable);
        }
      case RowAnswer(f, ok) => NoRowInSolo(s, f);
    }
  }

  lemma NothingRouted()
    ensures RoutedSoundly(INITIAL)
  {
  }

  lemma NoRowInSolo(s: State, f: nat)
    requires Solo(s)
    ensures !(Flying(s, f) && s.flights[f].phase.Isolating?)
  {
    if f in s.flights {
      assert SoloFlight(s, s.flights[f]);
    }
  }

  lemma SendingAtOnceSuffices(limits: Limits, steps: seq<Step>, pairs: set<(JobId, string)>)
    requires SendsAtOnce(limits) && UsesOnly(steps, pairs)
    ensures RoutedSoundly(After(limits, steps))
  {
    hide RoutedSoundly, SoloFlight;
    RunStaysSolo(limits, steps, pairs);
  }

  lemma KeysApartSuffices(limits: Limits, steps: seq<Step>, pairs: set<(JobId, string)>)
    requires KeysApart(pairs) && UsesOnly(steps, pairs)
    ensures RoutedSoundly(After(limits, steps))
  {
    hide After, Key;
    var s := After(limits, steps);
    CallsAreFromSteps(limits, steps, pairs);
    assert KeysInjective(s.calls) by {
      forall v, w | v in s.calls && w in s.calls && SameKey(v, w) ensures v.job == w.job && v.claim == w.claim {
        assert (v.job, v.claim) in pairs && (w.job, w.claim) in pairs;
      }
    }
    forall x | x in s.settlements && x.outcome.Resolved?
      ensures x.id < |s.calls| &&
        exists q :: q in s.confirmed && q in s.sent && q.job == s.calls[x.id].job && RowOf(s.calls[x.id]) in q.rows {
      ResolvedMeansConfirmed(limits, steps, x);
    }
  }

  lemma SameJobSameClaim(p: (JobId, string), q: (JobId, string))
    requires Key(p.0, p.1) == Key(q.0, q.1) && p.0 == q.0
    ensures p == q
  {
    assert Key(p.0, p.1)[|p.0| + 1..] == p.1 && Key(q.0, q.1)[|q.0| + 1..] == q.1;
  }

  lemma CollisionShows(limits: Limits, p: (JobId, string), q: (JobId, string), pairs: set<(JobId, string)>)
    requires !SendsAtOnce(limits)
    requires p in pairs && q in pairs && Key(p.0, p.1) == Key(q.0, q.1) && p != q
    ensures exists steps :: UsesOnly(steps, pairs) && !RoutedSoundly(After(limits, steps))
  {
    hide After, Key, Fills;
    var v, w := Waiter(0, p.0, p.1, Event(1, SMALLEST_PAYLOAD)), Waiter(1, q.0, q.1, Event(2, SMALLEST_PAYLOAD));
    var steps := Collision(limits, v, w);
    if p.0 == q.0 {
      SameJobSameClaim(p, q);
    }
    CollisionMisroutes(limits, v, w);
    assert UsesOnly(steps, pairs);
    var lost := if Fills(limits, v, w) then v else w;
    assert !RoutedSoundly(After(limits, steps)) by {
      assert Settlement(lost.id, Resolved) in After(limits, steps).settlements;
    }
  }

  /** A confirmed batch resolves every waiter that is pending in it. */
  lemma BatchResolves(s: State, f: nat, w: Waiter)
    requires Flying(s, f) && s.flights[f].phase.Batch?
    requires w in s.flights[f].waiters && w.id in s.flights[f].pending
    ensures Settlement(w.id, Resolved) in BatchAnswered(s, f, true, false).settlements
  {
    hide Settlements, Grouped;
    var fl := s.flights[f];
    var xs := Settlements(fl.waiters, fl.pending, Resolved);
    SettlementsOf(fl.waiters, fl.pending, Resolved);
    assert w.id in SettledIds(xs);
    var x :| x in xs && x.id == w.id;
    assert x == Settlement(w.id, Resolved);
    var t := BatchAnswered(s, f, true, false);
    assert t.settlements[|s.settlements|..][..|xs|] == xs;
    assert xs <= t.settlements[|s.settlements|..];
  }

  lemma BatchSendsNothing(s: State, f: nat)
    requires Flying(s, f) && s.flights[f].phase.Batch?
    ensures BatchAnswered(s, f, true, false).sent == s.sent && BatchAnswered(s, f, true, false).calls == s.calls
  {
    hide Settlements;
  }

  // ---------------------------------------------------------------- the safety net is never used

  /** In a flight the pending waiters are exactly those of the groups not answered yet. */
  ghost predicate PendingExact(fl: Flight) {
    forall w | w in fl.waiters ::
      w.id in fl.pending <==> fl.phase.Batch? || GroupIndex(fl.groups, w.event.sequenceNum) >= fl.phase.group
  }

  lemma GroupOfMember(groups: seq<seq<Waiter>>, i: nat, w: Waiter)
    requires WellGrouped(groups) && i < |groups| && w in groups[i]
    ensures GroupIndex(groups, w.event.sequenceNum) == i
  {
    assert groups[i][0].event.sequenceNum == w.event.sequenceNum;
  }

  lemma MembersOfGroup(calls: seq<Waiter>, fl: Flight, i: nat, w: Waiter)
    requires FlightSound(calls, fl) && i < |fl.groups| && w in fl.waiters
    ensures w.id in IdsOf(fl.groups[i]) <==> GroupIndex(fl.groups, w.event.sequenceNum) == i
    ensures GroupIndex(fl.groups, w.event.sequenceNum) < |fl.groups|
  {
    hide Grouped, GroupIndex, WellGrouped, Key;
    GroupsInWaiters(fl.waiters);
    var j :| 0 <= j < |fl.groups| && w in fl.groups[j];
    GroupOfMember(fl.groups, j, w);
    if w.id in IdsOf(fl.groups[i]) {
      var x :| x in fl.groups[i] && x.id == w.id;
      GroupOfMember(fl.groups, i, x);
      assert x in fl.waiters && Called(calls, x) && Called(calls, w);
    }
  }

  lemma SettlingOneGroup(calls: seq<Waiter>, fl: Flight)
    requires FlightSound(calls, fl) && PendingExact(fl) && fl.phase.Isolating?
    ensures var i := fl.phase.group;
            PendingExact(fl.(pending := fl.pending - IdsOf(fl.groups[i]), phase := Isolating(i + 1)))
    ensures fl.phase.group == |fl.groups| - 1 ==> fl.pending - IdsOf(fl.groups[fl.phase.group]) == {}
  {
    var i := fl.phase.group;
    forall w | w in fl.waiters
      ensures w.id in fl.pending - IdsOf(fl.groups[i]) <==> GroupIndex(fl.groups, w.event.sequenceNum) >= i + 1 {
      MembersOfGroup(calls, fl, i, w);
    }
    if i == |fl.groups| - 1 {
      forall id | id in fl.pending - IdsOf(fl.groups[i]) ensures false {
        var w :| w in fl.waiters && w.id == id;
        MembersOfGroup(calls, fl, i, w);
      }
    }
  }

  ghost predicate AllPendingExact(s: State) {
    forall f | f in s.flights :: PendingExact(s.flights[f])
  }

  lemma DetachKeepsPendingExact(s: State, key: string, job: JobId)
    requires AllPendingExact(s)
    ensures AllPendingExact(Detach(s, key, job))
  {
    var t := Detach(s, key, job);
    forall f | f in t.flights ensures PendingExact(t.flights[f]) {
      if f in s.flights && t.flights[f] == s.flights[f] {
        assert PendingExact(s.flights[f]);
      } else {
        forall w | w in t.flights[f].waiters ensures w.id in t.flights[f].pending {
        }
      }
    }
  }

  lemma BatchKeepsPendingExact(s: State, f: nat, ok: bool, retryable: bool)
    requires AllPendingExact(s) && Flying(s, f) && s.flights[f].phase.Batch?
    ensures AllPendingExact(BatchAnswered(s, f, ok, retryable))
  {
    var t := BatchAnswered(s, f, ok, retryable);
    forall g | g in t.flights ensures PendingExact(t.flights[g]) {
      assert PendingExact(s.flights[g]);
    }
  }

  lemma FlightsAfterRow(s: State, f: nat, ok: bool)
    requires Flying(s, f) && s.flights[f].phase.Isolating?
    ensures var fl := s.flights[f];
            var i := fl.phase.group;
            RowAnswered(s, f, ok).flights ==
            if i + 1 < |fl.groups|
            then s.flights[f := fl.(pending := fl.pending - IdsOf(fl.groups[i]), phase := Isolating(i + 1))]
            else s.flights - {f}
  {
  }

  lemma RowKeepsPendingExact(s: State, f: nat, ok: bool)
    requires Core(s) && AllPendingExact(s) && Flying(s, f) && s.flights[f].phase.Isolating?
    ensures AllPendingExact(RowAnswered(s, f, ok))
  {
    hide Core, PendingExact, RowAnswered, GroupIndex;
    FlightsAfterRow(s, f, ok);
    CoreFlight(s, f);
    SettlingOneGroup(s.calls, s.flights[f]);
  }

  lemma StepKeepsPendingExact(s: State, limits: Limits, step: Step)
    requires Core(s) && AllPendingExact(s)
    ensures AllPendingExact(Next(s, limits, step))
  {
    hide Core, Detach, BatchAnswered, RowAnswered, PendingExact, Key;
    match step
    case Add(job, claim, event) =>
      var key := Key(job, claim);
      var timer := if key in s.buffers then s.buffers[key].timerJob else None;
      DetachKeepsPendingExact(Joined(s, job, claim, event, timer), key, job);
    case TimerFires(key) =>
      if key in s.buffers && s.buffers[key].timerJob.Some? {
        DetachKeepsPendingExact(s, key, s.buffers[key].timerJob.value);
      }
    case BatchAnswer(f, ok, retryable) =>
      if Flying(s, f) && s.flights[f].phase.Batch? { BatchKeepsPendingExact(s, f, ok, retryable); }
    case RowAnswer(f, ok) =>
      if Flying(s, f) && s.flights[f].phase.Isolating? { RowKeepsPendingExact(s, f, ok); }
  }

  lemma {:induction false} RunKeepsPendingExact(limits: Limits, steps: seq<Step>)
    ensures AllPendingExact(After(limits, steps))
  {
    if steps != [] {
      RunKeepsPendingExact(limits, steps[..|steps| - 1]);
      RunKeepsCore(limits, steps[..|steps| - 1]);
      StepKeepsPendingExact(After(limits, steps[..|steps| - 1]), limits, steps[|steps| - 1]);
    }
  }

  /** The `finally` rejection never has anybody left to reject: when the last single-row request of a
      flight is answered, settling its group settles every waiter still pending. */
  lemma FinallyRejectsNobody(limits: Limits, steps: seq<Step>, f: nat, outcome: Outcome)
    requires var s := After(limits, steps);
             Flying(s, f) && s.flights[f].phase.Isolating? && s.flights[f].phase.group == |s.flights[f].groups| - 1
    ensures var s := After(limits, steps);
            var fl := s.flights[f];
            SettleGroup(s, f, fl.groups[fl.phase.group], outcome).flights[f].pending == {}
  {
    RunKeepsCore(limits, steps);
    RunKeepsPendingExact(limits, steps);
    var s := After(limits, steps);
    assert FlightSound(s.calls, s.flights[f]);
    SettlingOneGroup(s.calls, s.flights[f]);
  }

  // ---------------------------------------------------------------- progress

  /** Requests of a flight that may still be answered, the current one included. */
  function AnswersLeft(fl: Flight): int {
    if fl.phase.Batch? then 1 + |fl.groups| else |fl.groups| - fl.phase.group
  }

  /** The step answers the flight's current request. */
  predicate AnswersFlight(s: State, step: Step, f: nat) {
    && Flying(s, f)
    && match step
       case BatchAnswer(g, _, _) => g == f && s.flights[f].phase.Batch?
       case RowAnswer(g, _) => g == f && s.flights[f].phase.Isolating?
       case _ => false
  }

  /** How many steps of a continuation answer the flight. */
  function AnswersIn(limits: Limits, steps: seq<Step>, later: seq<Step>, f: nat): nat
    decreases |later|
  {
    if later == [] then 0
    else
      var init := later[..|later| - 1];
      AnswersIn(limits, steps, init, f) +
      if AnswersFlight(After(limits, steps + init), later[|later| - 1], f) then 1 else 0
  }

  /** The waiter is settled, or pending in the flight. */
  ghost predicate Covered(s: State, f: nat, w: Waiter) {
    w.id in SettledIds(s.settlements) || (f in s.flights && w.id in s.flights[f].pending)
  }

  lemma SettledGrow(xs: seq<Settlement>, ys: seq<Settlement>)
    ensures SettledIds(xs + ys) == SettledIds(xs) + SettledIds(ys)
  {
    forall id | id in SettledIds(ys) ensures id in SettledIds(xs + ys) {
      var y :| y in ys && y.id == id;
      assert y in xs + ys;
    }
    forall id | id in SettledIds(xs) ensures id in SettledIds(xs + ys) {
      var x :| x in xs && x.id == id;
      assert x in xs + ys;
    }
  }

  lemma SettleKeepsCover(s: State, f: nat, group: seq<Waiter>, outcome: Outcome, g: nat, w: Waiter)
    requires f in s.flights && Covered(s, g, w)
    ensures Covered(SettleGroup(s, f, group, outcome), g, w)
  {
    hide Settlements, SettledIds, IdsOf;
    var xs := Settlements(group, s.flights[f].pending, outcome);
    SettledGrow(s.settlements, xs);
    SettlementsOf(group, s.flights[f].pending, outcome);
  }

  lemma FinishKeepsCover(s: State, f: nat, g: nat, w: Waiter)
    requires f in s.flights && s.flights[f].pending <= IdsOf(s.flights[f].waiters) && Covered(s, g, w)
    ensures Covered(Finish(s, f), g, w)
  {
    hide Settlements, SettledIds, IdsOf;
    SettleKeepsCover(s, f, s.flights[f].waiters, Rejected, g, w);
    SettledFlight(s, f, s.flights[f].waiters, Rejected);
    assert s.flights[f].pending - IdsOf(s.flights[f].waiters) == {};
  }

  lemma BatchKeepsCover(s: State, f: nat, ok: bool, retryable: bool, g: nat, w: Waiter)
    requires Flying(s, f) && s.flights[f].phase.Batch? && s.flights[f].pending <= IdsOf(s.flights[f].waiters)
    requires Covered(s, g, w)
    ensures Covered(BatchAnswered(s, f, ok, retryable), g, w)
  {
    hide Settlements, SettledIds, IdsOf, SettleGroup, Finish, FirstRows;
    var fl := s.flights[f];
    var t := if ok then s.(confirmed := s.confirmed + [Request(fl.job, FirstRows(fl.groups))]) else s;
    var outcome := if ok then Resolved else Rejected;
    SettleKeepsCover(t, f, fl.waiters, outcome, g, w);
    SettledFlight(t, f, fl.waiters, outcome);
    FinishKeepsCover(SettleGroup(t, f, fl.waiters, outcome), f, g, w);
  }

  lemma RowKeepsCover(s: State, f: nat, ok: bool, g: nat, w: Waiter)
    requires Flying(s, f) && s.flights[f].phase.Isolating? && s.flights[f].pending <= IdsOf(s.flights[f].waiters)
    requires Covered(s, g, w)
    ensures Covered(RowAnswered(s, f, ok), g, w)
  {
    hide Settlements, SettledIds, IdsOf, SettleGroup, Finish, FirstRows;
    var fl := s.flights[f];
    var group := fl.groups[fl.phase.group];
    var t := if ok then s.(confirmed := s.confirmed + [Request(fl.job, FirstRows([group]))]) else s;
    var outcome := if ok then Resolved else Rejected;
    SettleKeepsCover(t, f, group, outcome, g, w);
    SettledFlight(t, f, group, outcome);
    if fl.phase.group + 1 == |fl.groups| {
      FinishKeepsCover(SettleGroup(t, f, group, outcome), f, g, w);
    }
  }

  lemma DetachKeepsCover(s: State, key: string, job: JobId, g: nat, w: Waiter)
    requires Covered(s, g, w) && s.launched !in s.flights
    ensures Covered(Detach(s, key, job), g, w)
  {
    hide Grouped, FirstRows, SettledIds;
  }

  lemma FreshFlight(s: State)
    requires Core(s)
    ensures s.launched !in s.flights
    ensures forall f | f in s.flights :: FlightSound(s.calls, s.flights[f]) && f < s.launched
  {
    hide FlightSound, BufferSound, SettlementSound;
  }

  lemma StepKeepsCover(s: State, limits: Limits, step: Step, g: nat, w: Waiter)
    requires Core(s) && Covered(s, g, w)
    ensures Covered(Next(s, limits, step), g, w)
  {
    hide Core, Detach, BatchAnswered, RowAnswered, Key, SettledIds;
    FreshFlight(s);
    match step
    case Add(job, claim, event) =>
      var key := Key(job, claim);
      var timer := if key in s.buffers then s.buffers[key].timerJob else None;
      DetachKeepsCover(Joined(s, job, claim, event, timer), key, job, g, w);
    case TimerFires(key) =>
      if key in s.buffers && s.buffers[key].timerJob.Some? {
        DetachKeepsCover(s, key, s.buffers[key].timerJob.value, g, w);
      }
    case BatchAnswer(f, ok, retryable) =>
      if Flying(s, f) && s.flights[f].phase.Batch? { BatchKeepsCover(s, f, ok, retryable, g, w); }
    case RowAnswer(f, ok) =>
      if Flying(s, f) && s.flights[f].phase.Isolating? { RowKeepsCover(s, f, ok, g, w); }
  }

  /** In every flight each waiter is pending or settled. */
  ghost predicate FlightsCovered(s: State) {
    forall f, w | f in s.flights && w in s.flights[f].waiters :: Covered(s, f, w)
  }

  lemma NewFlight(s: State, limits: Limits, step: Step, f: nat)
    requires Core(s) && f in Next(s, limits, step).flights && f !in s.flights
    ensures var fl := Next(s, limits, step).flights[f]; f == s.launched && fl.pending == IdsOf(fl.waiters)
  {
    hide Core, Key, IdsOf, Grouped, FirstRows, Settlements;
  }

  lemma {:induction false} RunKeepsCovered(limits: Limits, steps: seq<Step>)
    ensures FlightsCovered(After(limits, steps))
  {
    hide Next, Core;
    if steps != [] {
      var init, step := steps[..|steps| - 1], steps[|steps| - 1];
      var s, t := After(limits, init), After(limits, steps);
      RunKeepsCovered(limits, init);
      RunKeepsCore(limits, init);
      forall f, w | f in t.flights && w in t.flights[f].waiters ensures Covered(t, f, w) {
        if f in s.flights {
          FlightAfter(s, limits, step, f);
          StepKeepsCover(s, limits, step, f, w);
        } else {
          NewFlight(s, limits, step, f);
          assert w.id in IdsOf(t.flights[f].waiters);
        }
      }
    }
  }

  lemma BatchMovesFlight(s: State, g: nat, ok: bool, retryable: bool, f: nat)
    requires Flying(s, g) && s.flights[g].phase.Batch? && f in s.flights
    ensures var t := BatchAnswered(s, g, ok, retryable);
            if f != g then f in t.flights && t.flights[f] == s.flights[f]
            else f in t.flights ==> t.flights[f] == s.flights[f].(phase := Isolating(0))
  {
    hide Grouped, FirstRows, Settlements, IdsOf;
  }

  /** One step: an answer to the flight ends it or leaves it one answer fewer; any other step leaves it. */
  lemma FlightAfter(s: State, limits: Limits, step: Step, f: nat)
    requires Core(s) && f in s.flights
    ensures var t := Next(s, limits, step);
            && (!AnswersFlight(s, step, f) ==> f in t.flights && t.flights[f] == s.flights[f])
            && (AnswersFlight(s, step, f) && f in t.flights ==>
                  && AnswersLeft(t.flights[f]) == AnswersLeft(s.flights[f]) - 1
                  && t.flights[f].waiters == s.flights[f].waiters)
  {
    hide Core, Key, BatchAnswered, RowAnswered, FirstRows, Grouped, IdsOf;
    FreshFlight(s);
    match step
    case Add(_, _, _) =>
    case TimerFires(_) =>
    case BatchAnswer(g, ok, retryable) =>
      if Flying(s, g) && s.flights[g].phase.Batch? { BatchMovesFlight(s, g, ok, retryable, f); }
    case RowAnswer(g, ok) =>
      if Flying(s, g) && s.flights[g].phase.Isolating? { FlightsAfterRow(s, g, ok); }
  }

  /** A flight that is over never comes back. */
  lemma LaterFlight(s: State, limits: Limits, step: Step, f: nat)
    requires Core(s) && f < s.launched
    ensures var t := Next(s, limits, step); f < t.launched && (f !in s.flights ==> f !in t.flights)
  {
    hide Core, Key, IdsOf, Grouped, FirstRows, Settlements;
  }

  /** While a flight goes on, each answer takes one from what is left. */
  ghost predicate Progressed(s: State, t: State, f: nat, answers: nat)
    requires f in s.flights
  {
    && f < t.launched
    && (if f in t.flights then
          && t.flights[f].waiters == s.flights[f].waiters
          && 1 <= AnswersLeft(t.flights[f]) == AnswersLeft(s.flights[f]) - answers
        else 1 <= answers <= AnswersLeft(s.flights[f]))
  }

  lemma ProgressStep(s: State, t: State, limits: Limits, step: Step, f: nat, answers: nat)
    requires f in s.flights && Core(t) && Core(Next(t, limits, step)) && Progressed(s, t, f, answers)
    ensures Progressed(s, Next(t, limits, step), f, answers + if AnswersFlight(t, step, f) then 1 else 0)
  {
    hide Core, Next, FlightSound;
    LaterFlight(t, limits, step, f);
    if f in t.flights {
      FlightAfter(t, limits, step, f);
      if f in Next(t, limits, step).flights {
        CoreFlight(Next(t, limits, step), f);
        SoundFlightLeft(Next(t, limits, step).calls, Next(t, limits, step).flights[f]);
      }
    }
  }

  lemma SoundFlightLeft(calls: seq<Waiter>, fl: Flight)
    requires FlightSound(calls, fl)
    ensures AnswersLeft(fl) >= 1
  {
  }

  lemma {:induction false} FlightRuns(limits: Limits, steps: seq<Step>, later: seq<Step>, f: nat)
    requires f in After(limits, steps).flights
    ensures Progressed(After(limits, steps), After(limits, steps + later), f, AnswersIn(limits, steps, later, f))
    decreases |later|
  {
    hide After, Core, FlightSound, AnswersFlight, Progressed;
    var s := After(limits, steps);
    if later == [] {
      assert steps + later == steps;
      RunKeepsCore(limits, steps);
      FreshFlight(s);
      ProgressStart(s, f);
    } else {
      var init, step := later[..|later| - 1], later[|later| - 1];
      assert steps + later == steps + init + [step];
      FlightRuns(limits, steps, init, f);
      RunKeepsCore(limits, steps + init);
      RunKeepsCore(limits, steps + later);
      AfterAppend(limits, steps + init, step);
      ProgressStep(s, After(limits, steps + init), limits, step, f, AnswersIn(limits, steps, init, f));
    }
  }

  lemma ProgressStart(s: State, f: nat)
    requires f in s.flights && f < s.launched && FlightSound(s.calls, s.flights[f])
    ensures Progressed(s, s, f, 0)
  {
  }

  lemma {:induction false} StaysCovered(limits: Limits, steps: seq<Step>, later: seq<Step>, f: nat, w: Waiter)
    requires Covered(After(limits, steps), f, w)
    ensures Covered(After(limits, steps + later), f, w)
    decreases |later|
  {
    hide After, Core, Covered, Next;
    if later == [] {
      assert steps + later == steps;
    } else {
      var init, step := later[..|later| - 1], later[|later| - 1];
      assert steps + later == steps + init + [step];
      StaysCovered(limits, steps, init, f, w);
      RunKeepsCore(limits, steps + init);
      AfterAppend(limits, steps + init, step);
      StepKeepsCover(After(limits, steps + init), limits, step, f, w);
    }
  }

  /** Whatever else happens: a flight is over after at most one answer more than it has groups, every answer
      it gets brings it closer to that, and once it is over each of its waiters is settled. */
  lemma AnsweredFlightEnds(limits: Limits, steps: seq<Step>, later: seq<Step>, f: nat)
    requires f in After(limits, steps).flights
    ensures var fl, t := After(limits, steps).flights[f], After(limits, steps + later);
            var answers := AnswersIn(limits, steps, later, f);
            && answers <= AnswersLeft(fl) <= 1 + |fl.groups|
            && (answers == AnswersLeft(fl) ==> f !in t.flights)
            && (f !in t.flights ==> IdsOf(fl.waiters) <= SettledIds(t.settlements))
            && (f in t.flights ==> AnswersLeft(t.flights[f]) == AnswersLeft(fl) - answers)
  {
    hide After, Core, SettledIds;
    var s, t := After(limits, steps), After(limits, steps + later);
    FlightRuns(limits, steps, later, f);
    RunKeepsCore(limits, steps);
    CoreFlight(s, f);
    RunKeepsCovered(limits, steps);
    forall w | w in s.flights[f].waiters ensures Covered(t, f, w) {
      StaysCovered(limits, steps, later, f, w);
    }
  }

  // ---------------------------------------------------------------- what a failed batch leads to

  lemma SettledOnce(s: State, x: Settlement, y: Settlement)
    requires Core(s) && x in s.settlements && y in s.settlements && x.id == y.id
    ensures x == y
  {
    hide PartsSound, AllPlaced, RequestsSound, BuffersApart, FlightsApart;
  }

  lemma PendingIsUnsettled(s: State, f: nat, id: nat, outcome: Outcome)
    requires Core(s) && f in s.flights && id in s.flights[f].pending
    ensures Settlement(id, outcome) !in s.settlements
  {
    hide PartsSound, AllPlaced, RequestsSound, BuffersApart, FlightsApart, DistinctSettlements;
    assert Settlement(id, outcome) in s.settlements ==> id in SettledIds(s.settlements);
  }

  /** The step adds to the settlements, the requests and the confirmed requests, and takes nothing away. */
  lemma HistoryGrows(s: State, limits: Limits, step: Step)
    ensures var t := Next(s, limits, step);
            s.settlements <= t.settlements && s.sent <= t.sent && s.confirmed <= t.confirmed
  {
    hide Key, Grouped, FirstRows, IdsOf, Settlements, RowAnswered;
    match step
    case Add(_, _, _) =>
    case TimerFires(_) =>
    case BatchAnswer(_, _, _) =>
    case RowAnswer(f, ok) =>
      if Flying(s, f) && s.flights[f].phase.Isolating? {
        RowSettles(s, f, ok);
      }
  }

  /** Settling a group gives its outcome to every member that is pending. */
  lemma GroupGetsOutcome(group: seq<Waiter>, pending: set<nat>, outcome: Outcome, w: Waiter)
    requires w in group && w.id in pending
    ensures Settlement(w.id, outcome) in Settlements(group, pending, outcome)
  {
    hide Settlements;
    var xs := Settlements(group, pending, outcome);
    SettlementsOf(group, pending, outcome);
    assert w.id in IdsOf(group) && w.id in SettledIds(xs);
    var x :| x in xs && x.id == w.id;
    assert x == Settlement(w.id, outcome);
  }

  /** A batch answer that ends the flight: everyone gets that outcome, and no further request is sent. */
  lemma BatchEnds(s: State, f: nat, ok: bool, retryable: bool, w: Waiter)
    requires Flying(s, f) && s.flights[f].phase.Batch? && (ok || retryable || |s.flights[f].groups| == 1)
    requires w in s.flights[f].waiters && w.id in s.flights[f].pending
    ensures var t := BatchAnswered(s, f, ok, retryable);
            && f !in t.flights && t.sent == s.sent
            && Settlement(w.id, if ok then Resolved else Rejected) in t.settlements
  {
    hide Settlements, IdsOf, FirstRows;
    var fl := s.flights[f];
    var outcome := if ok then Resolved else Rejected;
    var xs := Settlements(fl.waiters, fl.pending, outcome);
    GroupGetsOutcome(fl.waiters, fl.pending, outcome, w);
    var ys := Settlements(fl.waiters, fl.pending - IdsOf(fl.waiters), Rejected);
    var t := BatchAnswered(s, f, ok, retryable);
    assert t.settlements == s.settlements + xs + ys;
  }

  /** In every run: when the batch request succeeds every waiter of the flight is resolved; when it fails
      retryably, or carried a single row, every one is rejected; either way the flight is over and no further
      request is sent for it. */
  lemma BatchSettlesEveryone(limits: Limits, steps: seq<Step>, f: nat, ok: bool, retryable: bool)
    requires var s := After(limits, steps);
             Flying(s, f) && s.flights[f].phase.Batch? && (ok || retryable || |s.flights[f].groups| == 1)
    ensures var s, t := After(limits, steps), After(limits, steps + [BatchAnswer(f, ok, retryable)]);
            && f !in t.flights && t.sent == s.sent
            && forall w | w in s.flights[f].waiters ::
                 && (Settlement(w.id, Resolved) in t.settlements <==> ok)
                 && (Settlement(w.id, Rejected) in t.settlements <==> !ok)
  {
    hide After, Core, BatchAnswered, IdsOf;
    var s, t := After(limits, steps), After(limits, steps + [BatchAnswer(f, ok, retryable)]);
    RunKeepsPendingExact(limits, steps);
    RunKeepsCore(limits, steps + [BatchAnswer(f, ok, retryable)]);
    AfterAppend(limits, steps, BatchAnswer(f, ok, retryable));
    RunKeepsCore(limits, steps);
    CoreFlight(s, f);
    forall w | w in s.flights[f].waiters
      ensures (Settlement(w.id, Resolved) in t.settlements <==> ok) &&
              (Settlement(w.id, Rejected) in t.settlements <==> !ok) && f !in t.flights && t.sent == s.sent {
      assert PendingExact(s.flights[f]);
      BatchEnds(s, f, ok, retryable, w);
      if Settlement(w.id, Resolved) in t.settlements && Settlement(w.id, Rejected) in t.settlements {
        SettledOnce(t, Settlement(w.id, Resolved), Settlement(w.id, Rejected));
      }
    }
    assert s.flights[f].waiters[0] in s.flights[f].waiters;
  }

  /** How the single-row requests of a flight were answered in a continuation, in order. */
  function RowOutcomes(limits: Limits, steps: seq<Step>, later: seq<Step>, f: nat): seq<bool>
    decreases |later|
  {
    if later == [] then []
    else
      var init, step := later[..|later| - 1], later[|later| - 1];
      RowOutcomes(limits, steps, init, f) +
      if AnswersFlight(After(limits, steps + init), step, f) && step.RowAnswer? then [step.ok] else []
  }

  /** The outcome of a waiter when these requests have been answered: that of the row with its sequence. */
  ghost predicate GotOutcome(fl: Flight, settlements: seq<Settlement>, w: Waiter, oks: seq<bool>)
    requires |oks| <= |fl.groups|
  {
    var i := GroupIndex(fl.groups, w.event.sequenceNum);
    i < |oks| ==> Settlement(w.id, if oks[i] then Resolved else Rejected) in settlements
  }

  function SingleRow(fl: Flight, i: nat): Request
    requires i < |fl.groups|
  {
    Request(fl.job, FirstRows([fl.groups[i]]))
  }

  /** A flight sent row by row after its batch failed, with these answers so far. */
  ghost predicate Isolated(fl: Flight, t: State, f: nat, oks: seq<bool>) {
    && |oks| <= |fl.groups| && f < t.launched
    && (if |oks| < |fl.groups| then
          f in t.flights && t.flights[f] == fl.(pending := t.flights[f].pending, phase := Isolating(|oks|))
        else f !in t.flights)
    && (forall w | w in fl.waiters :: GotOutcome(fl, t.settlements, w, oks))
    && (forall i: nat | i <= |oks| && i < |fl.groups| :: SingleRow(fl, i) in t.sent)
    && (forall i: nat | i < |oks| && oks[i] :: SingleRow(fl, i) in t.confirmed)
  }

  lemma IsolationStarts(s: State, f: nat)
    requires Core(s) && Flying(s, f) && s.flights[f].phase.Batch? && |s.flights[f].groups| >= 2
    ensures Isolated(s.flights[f], BatchAnswered(s, f, false, false), f, [])
  {
    hide Core, FirstRows, GroupIndex;
    FreshFlight(s);
    var t := BatchAnswered(s, f, false, false);
    assert t.sent[|s.sent|] == SingleRow(s.flights[f], 0);
  }

  lemma RowGivesOutcome(fl: Flight, t: State, limits: Limits, f: nat, oks: seq<bool>, ok: bool, w: Waiter)
    requires Core(t) && AllPendingExact(t) && Isolated(fl, t, f, oks) && |oks| < |fl.groups| && w in fl.waiters
    ensures Flying(t, f)
    ensures GotOutcome(fl, RowAnswered(t, f, ok).settlements, w, oks + [ok])
  {
    hide Core, Settlements, IdsOf, FirstRows, GroupIndex, Grouped, FlightSound;
    var i := |oks|;
    var gl, u := t.flights[f], RowAnswered(t, f, ok);
    CoreFlight(t, f);
    MembersOfGroup(t.calls, gl, i, w);
    assert PendingExact(gl);
    var outcome := if ok then Resolved else Rejected;
    RowSettles(t, f, ok);
    var xs := Settlements(gl.groups[i], gl.pending, outcome);
    assert GotOutcome(fl, t.settlements, w, oks);
    if GroupIndex(fl.groups, w.event.sequenceNum) == i {
      GroupHas(t.calls, gl, i, w);
      GroupGetsOutcome(gl.groups[i], gl.pending, outcome, w);
      assert Settlement(w.id, outcome) in t.settlements + xs;
    }
  }

  lemma GroupHas(calls: seq<Waiter>, fl: Flight, i: nat, w: Waiter)
    requires FlightSound(calls, fl) && w in fl.waiters && i < |fl.groups|
    requires GroupIndex(fl.groups, w.event.sequenceNum) == i
    ensures w in fl.groups[i]
  {
    hide Grouped, GroupIndex, WellGrouped, Key;
    GroupsInWaiters(fl.waiters);
    var j :| 0 <= j < |fl.groups| && w in fl.groups[j];
    GroupOfMember(fl.groups, j, w);
  }

  lemma RowSettles(t: State, f: nat, ok: bool)
    requires Flying(t, f) && t.flights[f].phase.Isolating?
    ensures var fl := t.flights[f];
            var i := fl.phase.group;
            var u := RowAnswered(t, f, ok);
            && t.settlements + Settlements(fl.groups[i], fl.pending, if ok then Resolved else Rejected) <= u.settlements
            && t.sent <= u.sent && t.confirmed <= u.confirmed && u.launched == t.launched
            && (i + 1 < |fl.groups| ==> SingleRow(fl, i + 1) in u.sent)
            && (ok ==> SingleRow(fl, i) in u.confirmed)
  {
    hide Settlements, IdsOf, FirstRows;
    var fl := t.flights[f];
    var i := fl.phase.group;
    var u := RowAnswered(t, f, ok);
    if ok {
      assert u.confirmed[|t.confirmed|] == SingleRow(fl, i);
    }
    if i + 1 < |fl.groups| {
      assert u.sent[|t.sent|] == SingleRow(fl, i + 1);
    }
  }

  lemma IsolatedAnswer(fl: Flight, t: State, limits: Limits, f: nat, oks: seq<bool>, ok: bool)
    requires Core(t) && AllPendingExact(t) && Isolated(fl, t, f, oks) && |oks| < |fl.groups|
    ensures Flying(t, f) && Isolated(fl, RowAnswered(t, f, ok), f, oks + [ok])
  {
    hide Core, Settlements, IdsOf, FirstRows, GroupIndex, RowAnswered, AllPendingExact, GotOutcome, SingleRow;
    var u := RowAnswered(t, f, ok);
    FlightsAfterRow(t, f, ok);
    RowSettles(t, f, ok);
    assert SingleRow(t.flights[f], |oks|) == SingleRow(fl, |oks|) by {
      SameRows(fl, t.flights[f], |oks|);
    }
    if |oks| + 1 < |fl.groups| {
      SameRows(fl, t.flights[f], |oks| + 1);
    }
    forall w | w in fl.waiters ensures GotOutcome(fl, u.settlements, w, oks + [ok]) {
      RowGivesOutcome(fl, t, limits, f, oks, ok, w);
    }
  }

  lemma SameRows(fl: Flight, gl: Flight, i: nat)
    requires i < |fl.groups| && gl.groups == fl.groups && gl.job == fl.job
    ensures SingleRow(gl, i) == SingleRow(fl, i)
  {
  }

  lemma IsolatedOther(fl: Flight, t: State, limits: Limits, step: Step, f: nat, oks: seq<bool>)
    requires Core(t) && Isolated(fl, t, f, oks) && !AnswersFlight(t, step, f)
    ensures Isolated(fl, Next(t, limits, step), f, oks)
  {
    hide Core, GroupIndex, Next, AnswersFlight, SingleRow;
    HistoryGrows(t, limits, step);
    LaterFlight(t, limits, step, f);
    if f in t.flights {
      FlightAfter(t, limits, step, f);
    }
  }

  lemma IsolatedStep(fl: Flight, t: State, limits: Limits, step: Step, f: nat, oks: seq<bool>)
    requires Core(t) && AllPendingExact(t) && Isolated(fl, t, f, oks)
    ensures Isolated(fl, Next(t, limits, step), f,
                     oks + if AnswersFlight(t, step, f) && step.RowAnswer? then [step.ok] else [])
  {
    hide Core, GroupIndex, AllPendingExact, RowAnswered, BatchAnswered, AddCall, Detach, GotOutcome, SingleRow;
    if AnswersFlight(t, step, f) {
      IsolatedAnswer(fl, t, limits, f, oks, step.ok);
    } else {
      IsolatedOther(fl, t, limits, step, f, oks);
      assert oks + [] == oks;
    }
  }

  lemma {:induction false} IsolationRuns(limits: Limits, steps: seq<Step>, later: seq<Step>, f: nat, fl: Flight)
    requires Isolated(fl, After(limits, steps), f, [])
    ensures Isolated(fl, After(limits, steps + later), f, RowOutcomes(limits, steps, later, f))
    decreases |later|
  {
    hide After, Core, Isolated, AnswersFlight, AllPendingExact;
    if later == [] {
      assert steps + later == steps;
    } else {
      var init, step := later[..|later| - 1], later[|later| - 1];
      assert steps + later == steps + init + [step];
      IsolationRuns(limits, steps, init, f, fl);
      RunKeepsCore(limits, steps + init);
      RunKeepsPendingExact(limits, steps + init);
      AfterAppend(limits, steps + init, step);
      IsolatedStep(fl, After(limits, steps + init), limits, step, f, RowOutcomes(limits, steps, init, f));
    }
  }

  /** A waiter's settlements are exactly what the answers so far give it. */
  lemma OutcomeIsExact(fl: Flight, t: State, f: nat, oks: seq<bool>, w: Waiter)
    requires Core(t) && AllPendingExact(t) && Isolated(fl, t, f, oks) && w in fl.waiters
    requires GroupIndex(fl.groups, w.event.sequenceNum) < |fl.groups|
    ensures var i := GroupIndex(fl.groups, w.event.sequenceNum);
            && (Settlement(w.id, Resolved) in t.settlements <==> i < |oks| && oks[i])
            && (Settlement(w.id, Rejected) in t.settlements <==> i < |oks| && !oks[i])
  {
    hide Core, GroupIndex, SingleRow, IdsOf;
    var i := GroupIndex(fl.groups, w.event.sequenceNum);
    assert GotOutcome(fl, t.settlements, w, oks);
    if i < |oks| {
      var got := Settlement(w.id, if oks[i] then Resolved else Rejected);
      var other := Settlement(w.id, if oks[i] then Rejected else Resolved);
      if other in t.settlements {
        SettledOnce(t, got, other);
      }
    } else {
      assert PendingExact(t.flights[f]);
      PendingIsUnsettled(t, f, w.id, Resolved);
      PendingIsUnsettled(t, f, w.id, Rejected);
    }
  }

  /** After a permanent failure of a batch with several rows, whatever else happens: the rows are sent one by one
      in order, each after the answer to the one before; a waiter is resolved exactly if the single-row request
      with its sequence was confirmed, and rejected exactly if that one failed; nobody else is settled, and the
      flight is over when the last row is answered. */
  lemma IsolationIsExact(limits: Limits, steps: seq<Step>, later: seq<Step>, f: nat)
    requires var s := After(limits, steps);
             Flying(s, f) && s.flights[f].phase.Batch? && |s.flights[f].groups| >= 2
    ensures var fl, failed := After(limits, steps).flights[f], steps + [BatchAnswer(f, false, false)];
            var t, oks := After(limits, failed + later), RowOutcomes(limits, failed, later, f);
            && |oks| <= |fl.groups| && (f in t.flights <==> |oks| < |fl.groups|)
            && (forall i: nat | i <= |oks| && i < |fl.groups| :: SingleRow(fl, i) in t.sent)
            && (forall i: nat | i < |oks| && oks[i] :: SingleRow(fl, i) in t.confirmed)
            && forall w | w in fl.waiters ::
                 var i := GroupIndex(fl.groups, w.event.sequenceNum);
                 && i < |fl.groups|
                 && (Settlement(w.id, Resolved) in t.settlements <==> i < |oks| && oks[i])
                 && (Settlement(w.id, Rejected) in t.settlements <==> i < |oks| && !oks[i])
  {
    hide After, Core, BatchAnswered, RowOutcomes, GroupIndex, AllPendingExact, SingleRow, FlightSound, GotOutcome;
    var s, failed := After(limits, steps), steps + [BatchAnswer(f, false, false)];
    var fl, t, oks := s.flights[f], After(limits, failed + later), RowOutcomes(limits, failed, later, f);
    RunKeepsCore(limits, steps);
    CoreFlight(s, f);
    IsolationStarts(s, f);
    AfterAppend(limits, steps, BatchAnswer(f, false, false));
    IsolationRuns(limits, failed, later, f, fl);
    RunKeepsCore(limits, failed + later);
    RunKeepsPendingExact(limits, failed + later);
    forall w | w in fl.waiters
      ensures var i := GroupIndex(fl.groups, w.event.sequenceNum);
              && i < |fl.groups|
              && (Settlement(w.id, Resolved) in t.settlements <==> i < |oks| && oks[i])
              && (Settlement(w.id, Rejected) in t.settlements <==> i < |oks| && !oks[i]) {
      MembersOfGroup(s.calls, fl, 0, w);
      OutcomeIsExact(fl, t, f, oks, w);
    }
  }

  // ---------------------------------------------------------------- when a batch is sent

  function BytesOf(waiters: seq<Waiter>): nat {
    if waiters == [] then 0 else BytesOf(waiters[..|waiters| - 1]) + waiters[|waiters| - 1].event.bytes
  }

  /** A buffer knows the bytes of its events, and its timer sends for the job whose event opened it. */
  ghost predicate BufferCounts(b: Buffer) {
    b.bytes == BytesOf(b.waiters) && b.waiters != [] && b.timerJob == Some(b.waiters[0].job)
  }

  ghost predicate AllCount(buffers: map<string, Buffer>) {
    forall k | k in buffers :: BufferCounts(buffers[k])
  }

  lemma OneMoreWaiter(waiters: seq<Waiter>, w: Waiter)
    ensures BytesOf(waiters + [w]) == BytesOf(waiters) + w.event.bytes
  {
    assert (waiters + [w])[..|waiters|] == waiters;
  }

  lemma AddKeepsCounts(s: State, limits: Limits, job: JobId, claim: string, event: Event)
    requires AllCount(s.buffers)
    ensures AllCount(AddCall(s, limits, job, claim, event).buffers)
  {
    hide Key, Grouped, BytesOf;
    var key := Key(job, claim);
    var w := Waiter(|s.calls|, job, claim, event);
    if key in s.buffers {
      assert BufferCounts(s.buffers[key]);
      OneMoreWaiter(s.buffers[key].waiters, w);
    } else {
      OneMoreWaiter([], w);
      NoBytes();
    }
  }

  lemma NoBytes()
    ensures BytesOf([]) == 0
  {
  }

  lemma {:induction false} RunKeepsCounts(limits: Limits, steps: seq<Step>)
    ensures AllCount(After(limits, steps).buffers)
  {
    hide AddCall, BatchAnswered, RowAnswered, Grouped, BufferCounts;
    if steps != [] {
      var s := After(limits, steps[..|steps| - 1]);
      RunKeepsCounts(limits, steps[..|steps| - 1]);
      match steps[|steps| - 1]
      case Add(job, claim, event) => AddKeepsCounts(s, limits, job, claim, event);
      case TimerFires(key) =>
      case BatchAnswer(f, ok, retryable) => if Flying(s, f) { AnswersKeepBuffers(s, f, ok, retryable); }
      case RowAnswer(f, ok) => if Flying(s, f) { AnswersKeepBuffers(s, f, ok, false); }
    }
  }

  function WaitersAt(s: State, key: string): seq<Waiter> {
    if key in s.buffers then s.buffers[key].waiters else []
  }

  /** From s to t a request is sent for these waiters, all and in order, and their buffer is gone. */
  ghost predicate Launches(s: State, t: State, key: string, job: JobId, waiters: seq<Waiter>) {
    && t.buffers == s.buffers - {key} && t.launched == s.launched + 1
    && t.flights == s.flights[s.launched := Flight(job, waiters, Grouped(waiters), IdsOf(waiters), Batch)]
    && t.sent == s.sent + [Request(job, FirstRows(Grouped(waiters)))]
    && t.settlements == s.settlements && t.confirmed == s.confirmed
  }

  /** In every run: a new event waits behind those of its key; a request for them all goes out at once exactly if
      they reach the number of events or the sum of bytes that a request may have. */
  lemma AddLaunchesExactly(limits: Limits, steps: seq<Step>, job: JobId, claim: string, event: Event)
    ensures var s, t := After(limits, steps), After(limits, steps + [Add(job, claim, event)]);
            var key, w := Key(job, claim), Waiter(|s.calls|, job, claim, event);
            var all := WaitersAt(s, key) + [w];
            && t.calls == s.calls + [w]
            && (if |all| >= limits.maxEvents || BytesOf(all) >= limits.maxBytes then Launches(s, t, key, job, all)
                else
                  && key in t.buffers && t.buffers[key].waiters == all && t.buffers - {key} == s.buffers - {key}
                  && t.flights == s.flights && t.sent == s.sent && t.launched == s.launched
                  && t.settlements == s.settlements && t.confirmed == s.confirmed)
  {
    hide Key, Grouped, BytesOf, FirstRows, After;
    AfterAppend(limits, steps, Add(job, claim, event));
    RunKeepsCounts(limits, steps);
    var s := After(limits, steps);
    var key, w := Key(job, claim), Waiter(|s.calls|, job, claim, event);
    if key in s.buffers {
      assert BufferCounts(s.buffers[key]);
      OneMoreWaiter(s.buffers[key].waiters, w);
    } else {
      OneMoreWaiter([], w);
      NoBytes();
    }
  }

  /** In every run: the timer of a buffer sends all its events, for the job whose event opened it. */
  lemma TimerLaunchesAll(limits: Limits, steps: seq<Step>, key: string)
    ensures var s, t := After(limits, steps), After(limits, steps + [TimerFires(key)]);
            && (key !in s.buffers ==> t == s)
            && (key in s.buffers ==>
                  s.buffers[key].waiters != [] &&
                  Launches(s, t, key, s.buffers[key].waiters[0].job, s.buffers[key].waiters))
  {
    hide Grouped, BytesOf, FirstRows, After, Key;
    AfterAppend(limits, steps, TimerFires(key));
    RunKeepsCounts(limits, steps);
    var s := After(limits, steps);
    if key in s.buffers {
      assert BufferCounts(s.buffers[key]);
    }
  }
}
