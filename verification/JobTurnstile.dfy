/**
 The per-job turnstile of the web bridge: handlers of one job run one at a time, in arrival order.
 A ticket stands for one call of the acquire function and the promises that call creates: `mine`,
 resolved by the release callback, and `tail`, resolved once `mine` and the previous tail are.
 */
module JobTurnstile {
  import opened Wrappers

  type JobId = string

  /** after: the ticket whose tail this call awaits; released: whether `mine` is resolved. */
  datatype Ticket = Ticket(job: JobId, after: Option<nat>, released: bool)

  datatype State = State(tickets: seq<Ticket>, tails: map<JobId, nat>)

  const INITIAL := State([], map[])

  /** The tail promise of ticket t is resolved. */
  predicate TailResolved(ts: seq<Ticket>, t: nat)
    requires t < |ts|
  {
    ts[t].released &&
    match ts[t].after
    case None => true
    case Some(p) => p < t && TailResolved(ts, p)
  }

  /** The await on the previous tail has returned: the caller holds the turn or has given it back. */
  predicate Granted(ts: seq<Ticket>, t: nat)
    requires t < |ts|
  {
    match ts[t].after
    case None => true
    case Some(p) => p < t && TailResolved(ts, p)
  }

  predicate Holds(s: State, t: nat) {
    t < |s.tickets| && Granted(s.tickets, t) && !s.tickets[t].released
  }

  datatype Step = Acquire(job: JobId) | Release(ticket: nat)

  /** Only a caller whose await returned has the release callback; calling it again is harmless. */
  predicate Enabled(s: State, step: Step) {
    match step
    case Acquire(_) => true
    case Release(t) => t < |s.tickets| && Granted(s.tickets, t)
  }

  /** A step that is not enabled cannot happen; it leaves the state alone. */
  function Next(s: State, step: Step): State {
    if !Enabled(s, step) then s else
    match step
    case Acquire(job) =>
      var after := if job in s.tails then Some(s.tails[job]) else None;
      State(s.tickets + [Ticket(job, after, false)], s.tails[job := |s.tickets|])
    case Release(t) =>
      var job := s.tickets[t].job;
      State(s.tickets[t := s.tickets[t].(released := true)],
            if job in s.tails && s.tails[job] == t then s.tails - {job} else s.tails)
  }

  /** The mutable form: `tails` is the map of the source, `tickets` the promises made so far. */
  class Turnstile {
    var tickets: seq<Ticket>
    var tails: map<JobId, nat>

    ghost function Abstract(): State
      reads this
    {
      State(tickets, tails)
    }

    constructor ()
      ensures Abstract() == INITIAL
    {
      tickets, tails := [], map[];
    }

    method Acquire(job: JobId) returns (ticket: nat)
      modifies this
      ensures Abstract() == Next(old(Abstract()), Step.Acquire(job))
      ensures ticket == |old(tickets)|
    {
      var previous := if job in tails then Some(tails[job]) else None;
      ticket := |tickets|;
      tickets := tickets + [Ticket(job, previous, false)];
      tails := tails[job := ticket];
    }

    method Release(ticket: nat)
      requires Enabled(Abstract(), Step.Release(ticket))
      modifies this
      ensures Abstract() == Next(old(Abstract()), Step.Release(ticket))
    {
      var job := tickets[ticket].job;
      tickets := tickets[ticket := tickets[ticket].(released := true)];
      if job in tails && tails[job] == ticket {
        tails := tails - {job};
      }
    }
  }

  /** Every earlier ticket of the same job has been released. */
  ghost predicate EarlierReleased(ts: seq<Ticket>, t: nat)
    requires t < |ts|
  {
    forall u | 0 <= u < t && ts[u].job == ts[t].job :: ts[u].released
  }

  /** A ticket waits on the closest earlier ticket of its job, or on nothing if those are all released. */
  ghost predicate LinkIsPrevious(ts: seq<Ticket>, t: nat)
    requires t < |ts|
  {
    match ts[t].after
    case None => EarlierReleased(ts, t)
    case Some(p) => p < t && ts[p].job == ts[t].job && forall u | p < u < t :: ts[u].job != ts[t].job
  }

  ghost predicate LinksArePrevious(ts: seq<Ticket>) {
    forall t: nat | t < |ts| :: LinkIsPrevious(ts, t)
  }

  /** A job has a map entry exactly while one of its tickets is unreleased, and it is the newest one. */
  ghost predicate TailsAreNewest(s: State) {
    && (forall job | job in s.tails ::
          && s.tails[job] < |s.tickets|
          && s.tickets[s.tails[job]].job == job
          && !s.tickets[s.tails[job]].released
          && forall u | s.tails[job] < u < |s.tickets| :: s.tickets[u].job != job)
    && (forall t | 0 <= t < |s.tickets| && s.tickets[t].job !in s.tails :: s.tickets[t].released)
  }

  ghost predicate Invariant(s: State) {
    LinksArePrevious(s.tickets) && TailsAreNewest(s)
  }

  lemma {:induction false} GrantedIffEarlierReleased(ts: seq<Ticket>, t: nat)
    requires LinksArePrevious(ts) && t < |ts|
    ensures Granted(ts, t) <==> EarlierReleased(ts, t)
  {
    assert LinkIsPrevious(ts, t);
    if ts[t].after.Some? {
      var p := ts[t].after.value;
      GrantedIffEarlierReleased(ts, p);
      assert TailResolved(ts, p) <==> ts[p].released && Granted(ts, p);
      if ts[p].released && EarlierReleased(ts, p) {
        forall u | 0 <= u < t && ts[u].job == ts[t].job ensures ts[u].released {
          assert u <= p;
        }
      }
    }
  }

  lemma AcquireKeepsInvariant(s: State, job: JobId)
    requires Invariant(s)
    ensures Invariant(Next(s, Acquire(job)))
  {
    var n := Next(s, Acquire(job));
    forall t: nat | t < |n.tickets| ensures LinkIsPrevious(n.tickets, t) {
      if t < |s.tickets| {
        assert LinkIsPrevious(s.tickets, t);
      }
    }
  }

  lemma ReleaseKeepsLinks(s: State, r: nat)
    requires Invariant(s)
    ensures LinksArePrevious(Next(s, Release(r)).tickets)
  {
    var n := Next(s, Release(r));
    forall t: nat | t < |n.tickets| ensures LinkIsPrevious(n.tickets, t) {
      assert LinkIsPrevious(s.tickets, t);
    }
  }

  lemma ReleaseKeepsTails(s: State, r: nat)
    requires Invariant(s)
    ensures TailsAreNewest(Next(s, Release(r)))
  {
    if Enabled(s, Release(r)) {
      GrantedIffEarlierReleased(s.tickets, r);
      var n := Next(s, Release(r));
      var job := s.tickets[r].job;
      if job in s.tails && s.tails[job] == r {
        forall t | 0 <= t < |s.tickets| && s.tickets[t].job == job ensures n.tickets[t].released {
          assert t <= r;
        }
      }
    }
  }

  // ---------------------------------------------------------------- every interleaving

  function After(steps: seq<Step>): State {
    if steps == [] then INITIAL
    else Next(After(steps[..|steps| - 1]), steps[|steps| - 1])
  }

  lemma {:induction false} RunKeepsInvariant(steps: seq<Step>)
    ensures Invariant(After(steps))
  {
    if steps != [] {
      var s := After(steps[..|steps| - 1]);
      RunKeepsInvariant(steps[..|steps| - 1]);
      match steps[|steps| - 1]
      case Acquire(job) => AcquireKeepsInvariant(s, job);
      case Release(r) => ReleaseKeepsLinks(s, r); ReleaseKeepsTails(s, r);
    }
  }

  /** In every interleaving of acquires and releases a caller is let through exactly when every
      earlier caller of its own job has released: arrival order, one holder, no cross-job waiting. */
  lemma TurnsFollowArrival(steps: seq<Step>, t: nat)
    requires t < |After(steps).tickets|
    ensures var ts := After(steps).tickets; Granted(ts, t) <==> EarlierReleased(ts, t)
  {
    RunKeepsInvariant(steps);
    GrantedIffEarlierReleased(After(steps).tickets, t);
  }

  lemma AtMostOneHolder(steps: seq<Step>, t: nat, u: nat)
    requires Holds(After(steps), t) && Holds(After(steps), u)
    requires After(steps).tickets[t].job == After(steps).tickets[u].job
    ensures t == u
  {
    TurnsFollowArrival(steps, t);
    TurnsFollowArrival(steps, u);
  }

  /** A job with unreleased tickets always has a holder, whatever the other jobs do. */
  lemma {:induction false} SomeoneHolds(steps: seq<Step>, t: nat) returns (h: nat)
    requires t < |After(steps).tickets| && !After(steps).tickets[t].released
    ensures Holds(After(steps), h) && h <= t && After(steps).tickets[h].job == After(steps).tickets[t].job
  {
    var ts := After(steps).tickets;
    TurnsFollowArrival(steps, t);
    if EarlierReleased(ts, t) {
      h := t;
    } else {
      var u :| 0 <= u < t && ts[u].job == ts[t].job && !ts[u].released;
      h := SomeoneHolds(steps, u);
    }
  }

  /** The map keeps an entry for a job exactly while the job has an unreleased ticket. */
  lemma EntriesAreCleanedUp(steps: seq<Step>, job: JobId)
    ensures job in After(steps).tails <==>
            exists t :: 0 <= t < |After(steps).tickets| && After(steps).tickets[t].job == job &&
                        !After(steps).tickets[t].released
  {
    RunKeepsInvariant(steps);
    var s := After(steps);
    if job in s.tails {
      assert s.tickets[s.tails[job]].job == job;
    }
  }
}
