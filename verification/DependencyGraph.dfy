/**
 The job dependency scheduler: cycle detection by three-colour depth-first search,
 Kahn layering with in-degree counts, and the plain scan for executable jobs.
 A graph maps each job to the jobs it depends on.
 */
module DependencyGraph {
  import opened Sequences

  datatype JobId = JobId(id: string)

  /** A JavaScript Map from a job to a Set of jobs; keys and sets keep insertion order. */
  datatype AdjacencyMap = AdjacencyMap(keys: seq<JobId>, deps: map<JobId, seq<JobId>>) {
    ghost predicate Valid() {
      && Distinct(keys)
      && (forall n :: n in keys <==> n in deps)
      && (forall n | n in deps :: Distinct(deps[n]))
    }

    function DepsOf(n: JobId): seq<JobId> {
      if n in deps then deps[n] else []
    }

    /** Every dependency is itself a key. */
    ghost predicate Closed() {
      forall n, d | n in deps && d in deps[n] :: d in deps
    }

    /** All jobs mentioned anywhere, keys or not. */
    ghost function Nodes(): set<JobId> {
      deps.Keys + set n, d | n in deps && d in deps[n] :: d
    }
  }

  type Graph = g: AdjacencyMap | g.Valid() witness AdjacencyMap([], map[])

  // ---------------------------------------------------------------- paths

  /** p follows dependency edges. */
  ghost predicate IsPath(g: Graph, p: seq<JobId>) {
    forall i | 0 <= i < |p| - 1 :: p[i + 1] in g.DepsOf(p[i])
  }

  ghost predicate IsCycle(g: Graph, p: seq<JobId>) {
    |p| >= 2 && IsPath(g, p) && p[0] == p[|p| - 1]
  }

  /** Some job reaches itself by a non-empty dependency path. */
  ghost predicate HasCycle(g: Graph) {
    exists p :: IsCycle(g, p)
  }

  ghost predicate PathFrom(g: Graph, n: JobId, p: seq<JobId>) {
    |p| >= 1 && p[0] == n && IsPath(g, p)
  }

  /** A dependency chain of k edges starts at n. */
  ghost predicate HasChain(g: Graph, n: JobId, k: nat) {
    exists p :: PathFrom(g, n, p) && |p| == k + 1
  }

  ghost predicate LongestChain(g: Graph, n: JobId, k: nat) {
    HasChain(g, n, k) && forall j | j > k :: !HasChain(g, n, j)
  }

  /** n depends, directly or not, on a job that is not a key. */
  ghost predicate ReachesMissing(g: Graph, n: JobId) {
    exists p :: PathFrom(g, n, p) && p[|p| - 1] !in g.deps
  }

  /** The job can ever run, and its longest dependency chain has k edges. */
  ghost predicate InLayer(g: Graph, n: JobId, k: nat) {
    n in g.deps && !ReachesMissing(g, n) && LongestChain(g, n, k)
  }

  lemma DependencyIsNode(g: Graph, n: JobId, d: JobId)
    requires d in g.DepsOf(n)
    ensures n in g.Nodes() && d in g.Nodes()
  {
    assert n in g.deps && d in g.deps[n];
  }

  lemma PathInNodes(g: Graph, p: seq<JobId>)
    requires |p| >= 2 && IsPath(g, p)
    ensures forall i | 0 <= i < |p| :: p[i] in g.Nodes()
  {
    forall i | 0 <= i < |p| ensures p[i] in g.Nodes() {
      if i > 0 {
        DependencyIsNode(g, p[i - 1], p[i - 1 + 1]);
      } else {
        DependencyIsNode(g, p[i], p[i + 1]);
      }
    }
  }

  lemma RepeatClosesCycle(g: Graph, p: seq<JobId>, i: nat, j: nat)
    requires IsPath(g, p) && i < j < |p| && p[i] == p[j]
    ensures HasCycle(g)
  {
    var c := p[i..j + 1];
    forall k | 0 <= k < |c| - 1 ensures c[k + 1] in g.DepsOf(c[k]) {
      assert p[i + k + 1] in g.DepsOf(p[i + k]);
    }
    assert IsCycle(g, c);
  }

  lemma PathIsDistinct(g: Graph, p: seq<JobId>)
    requires IsPath(g, p) && !HasCycle(g)
    ensures Distinct(p)
  {
    forall i, j | 0 <= i < j < |p| ensures p[i] != p[j] {
      if p[i] == p[j] {
        RepeatClosesCycle(g, p, i, j);
      }
    }
  }

  lemma {:induction false} DistinctFits<T(!new)>(p: seq<T>, s: set<T>)
    requires Distinct(p) && forall x | x in p :: x in s
    ensures |p| <= |s|
  {
    if p != [] {
      var x := p[|p| - 1];
      DistinctFits(p[..|p| - 1], s - {x});
    }
  }

  /** In an acyclic graph every chain is shorter than the number of jobs plus one. */
  lemma ChainBound(g: Graph, n: JobId, k: nat)
    requires !HasCycle(g) && HasChain(g, n, k)
    ensures k <= |g.Nodes()|
  {
    var p :| PathFrom(g, n, p) && |p| == k + 1;
    PathIsDistinct(g, p);
    if k > 0 {
      PathInNodes(g, p);
      DistinctFits(p, g.Nodes());
    }
  }

  lemma ShorterChain(g: Graph, n: JobId, j: nat, k: nat)
    requires j <= k && HasChain(g, n, k)
    ensures HasChain(g, n, j)
  {
    var p :| PathFrom(g, n, p) && |p| == k + 1;
    assert PathFrom(g, n, p[..j + 1]);
  }

  lemma {:induction false} LongestChainExists(g: Graph, n: JobId, k: nat) returns (m: nat)
    requires !HasCycle(g) && HasChain(g, n, k)
    ensures m >= k && LongestChain(g, n, m)
    decreases |g.Nodes()| + 1 - k
  {
    ChainBound(g, n, k);
    if HasChain(g, n, k + 1) {
      ChainBound(g, n, k + 1);
      m := LongestChainExists(g, n, k + 1);
    } else {
      m := k;
      forall j: nat | j > k ensures !HasChain(g, n, j) {
        if HasChain(g, n, j) {
          ShorterChain(g, n, k + 1, j);
        }
      }
    }
  }

  // ---------------------------------------------------------------- building the graph

  datatype JobSpec = JobSpec(jobId: JobId, dependsOn: seq<JobId>)

  /** Some input row for job n lists d. */
  ghost predicate Lists(jobs: seq<JobSpec>, n: JobId, d: JobId) {
    exists i :: 0 <= i < |jobs| && jobs[i].jobId == n && d in jobs[i].dependsOn
  }

  ghost predicate Mentions(jobs: seq<JobSpec>, n: JobId) {
    exists i :: 0 <= i < |jobs| && (jobs[i].jobId == n || n in jobs[i].dependsOn)
  }

  ghost function Elements<T>(s: seq<T>): set<T> {
    set x | x in s
  }

  lemma ElementsOfPrefix<T>(s: seq<T>, j: nat)
    requires j < |s|
    ensures Elements(s[..j + 1]) == Elements(s[..j]) + {s[j]}
  {
    assert s[..j + 1] == s[..j] + [s[j]];
  }

  ghost function DepSet(g: Graph, n: JobId): set<JobId> {
    Elements(g.DepsOf(n))
  }

  /** if (!graph.has(n)) graph.set(n, new Set()). */
  method EnsureKey(g: Graph, n: JobId) returns (r: Graph)
    ensures r.deps.Keys == g.deps.Keys + {n}
    ensures forall m :: DepSet(r, m) == DepSet(g, m)
  {
    r := if n in g.deps then g else AdjacencyMap(g.keys + [n], g.deps[n := []]);
  }

  /** graph.get(n)!.add(d), then d itself becomes a key if it is not one yet. */
  method AddDependency(g: Graph, n: JobId, d: JobId) returns (r: Graph)
    requires n in g.deps
    ensures r.deps.Keys == g.deps.Keys + {d}
    ensures DepSet(r, n) == DepSet(g, n) + {d}
    ensures forall m | m != n :: DepSet(r, m) == DepSet(g, m)
  {
    var added := if d in g.deps[n] then g else g.(deps := g.deps[n := g.deps[n] + [d]]);
    assert DepSet(added, n) == DepSet(g, n) + {d};
    r := EnsureKey(added, d);
  }

  lemma NoElements<T>()
    ensures Elements<T>([]) == {}
  {
  }

  /** The body of the loop over jobs: one row and each dependency it lists. */
  method AddJob(g0: Graph, job: JobSpec) returns (g: Graph)
    ensures g.deps.Keys == g0.deps.Keys + {job.jobId} + Elements(job.dependsOn)
    ensures DepSet(g, job.jobId) == DepSet(g0, job.jobId) + Elements(job.dependsOn)
    ensures forall n | n != job.jobId :: DepSet(g, n) == DepSet(g0, n)
  {
    hide DepSet, Elements;
    NoElements<JobId>();
    g := EnsureKey(g0, job.jobId);
    ghost var seen: set<JobId> := {};
    for j := 0 to |job.dependsOn|
      invariant seen == Elements(job.dependsOn[..j])
      invariant g.deps.Keys == g0.deps.Keys + {job.jobId} + seen
      invariant DepSet(g, job.jobId) == DepSet(g0, job.jobId) + seen
      invariant forall n | n != job.jobId :: DepSet(g, n) == DepSet(g0, n)
    {
      ElementsOfPrefix(job.dependsOn, j);
      g := AddDependency(g, job.jobId, job.dependsOn[j]);
      seen := seen + {job.dependsOn[j]};
    }
    assert job.dependsOn[..|job.dependsOn|] == job.dependsOn;
  }

  method BuildDependencyGraph(jobs: seq<JobSpec>) returns (g: Graph)
    ensures forall n :: n in g.deps <==> Mentions(jobs, n)
    ensures forall n, d :: d in DepSet(g, n) <==> Lists(jobs, n, d)
    ensures g.Closed()
  {
    g := AdjacencyMap([], map[]);
    for i := 0 to |jobs|
      invariant forall n :: n in g.deps <==> Mentions(jobs[..i], n)
      invariant forall n, d :: d in DepSet(g, n) <==> Lists(jobs[..i], n, d)
    {
      g := AddJob(g, jobs[i]);
      forall n ensures n in g.deps <==> Mentions(jobs[..i + 1], n) {
        MentionsExtend(jobs, i, n);
      }
      forall n, d ensures d in DepSet(g, n) <==> Lists(jobs[..i + 1], n, d) {
        ListsExtend(jobs, i, n, d);
      }
    }
    assert jobs[..|jobs|] == jobs;
    forall n, d | n in g.deps && d in g.deps[n] ensures d in g.deps {
      assert d in DepSet(g, n);
      assert Lists(jobs, n, d);
    }
  }

  lemma MentionsExtend(jobs: seq<JobSpec>, i: nat, n: JobId)
    requires i < |jobs|
    ensures Mentions(jobs[..i + 1], n) <==>
            Mentions(jobs[..i], n) || n == jobs[i].jobId || n in jobs[i].dependsOn
  {
    assert jobs[..i + 1] == jobs[..i] + [jobs[i]];
    if Mentions(jobs[..i], n) {
      var k :| 0 <= k < i && (jobs[..i][k].jobId == n || n in jobs[..i][k].dependsOn);
      assert jobs[..i + 1][k] == jobs[..i][k];
    }
    if n == jobs[i].jobId || n in jobs[i].dependsOn {
      assert jobs[..i + 1][i] == jobs[i];
    }
  }

  lemma ListsExtend(jobs: seq<JobSpec>, i: nat, n: JobId, d: JobId)
    requires i < |jobs|
    ensures Lists(jobs[..i + 1], n, d) <==>
            Lists(jobs[..i], n, d) || (n == jobs[i].jobId && d in jobs[i].dependsOn)
  {
    assert jobs[..i + 1] == jobs[..i] + [jobs[i]];
    if Lists(jobs[..i], n, d) {
      var k :| 0 <= k < i && jobs[..i][k].jobId == n && d in jobs[..i][k].dependsOn;
      assert jobs[..i + 1][k] == jobs[..i][k];
    }
    if n == jobs[i].jobId && d in jobs[i].dependsOn {
      assert jobs[..i + 1][i] == jobs[i];
    }
  }

  // ---------------------------------------------------------------- cycle detection

  datatype Color = White | Gray | Black

  /** Every job in the list comes after all of its dependencies. */
  ghost predicate DependenciesFirst(g: Graph, order: seq<JobId>) {
    forall i, d | 0 <= i < |order| && d in g.DepsOf(order[i]) :: d in order[..i]
  }

  lemma {:induction false} CycleAvoidsOrder(g: Graph, order: seq<JobId>, p: seq<JobId>, f: nat)
    requires DependenciesFirst(g, order) && IsCycle(g, p) && f <= |order|
    ensures forall i | 0 <= i < |p| :: p[i] !in order[..f]
  {
    if f > 0 {
      CycleAvoidsOrder(g, order, p, f - 1);
      assert order[..f] == order[..f - 1] + [order[f - 1]];
      forall i | 0 <= i < |p| ensures p[i] != order[f - 1] {
        var k := if i == |p| - 1 then 0 else i;
        assert p[k + 1] in g.DepsOf(p[k]);
      }
    }
  }

  lemma OrderedMeansAcyclic(g: Graph, order: seq<JobId>)
    requires DependenciesFirst(g, order) && forall n | n in g.deps :: n in order
    ensures !HasCycle(g)
  {
    forall p ensures !IsCycle(g, p) {
      if IsCycle(g, p) {
        assert p[0 + 1] in g.DepsOf(p[0]);
        assert order[..|order|] == order;
        CycleAvoidsOrder(g, order, p, |order|);
      }
    }
  }

  lemma BackEdgeClosesCycle(g: Graph, stack: seq<JobId>, dep: JobId)
    requires |stack| >= 1 && IsPath(g, stack) && dep in stack
    requires dep in g.DepsOf(stack[|stack| - 1])
    ensures HasCycle(g)
  {
    var k :| 0 <= k < |stack| && stack[k] == dep;
    var c := stack[k..] + [dep];
    forall i | 0 <= i < |c| - 1 ensures c[i + 1] in g.DepsOf(c[i]) {
      if i + 1 < |c| - 1 {
        assert stack[k + i + 1] in g.DepsOf(stack[k + i]);
      }
    }
    assert IsCycle(g, c);
  }

  /** The search state: the colour map, and a ghost record of the order jobs turned black. */
  class CycleSearch {
    const graph: Graph
    var color: map<JobId, Color>
    ghost var finished: seq<JobId>

    constructor (g: Graph)
      ensures graph == g && finished == [] && Valid([])
      ensures forall n :: ColorOf(n) == White
    {
      graph := g;
      color := map n | n in g.deps :: White;
      finished := [];
    }

    function ColorOf(n: JobId): Color
      reads this
    {
      if n in color then color[n] else White
    }

    ghost function Unvisited(): set<JobId>
      reads this
    {
      set n | n in graph.Nodes() && ColorOf(n) == White
    }

    /** stack holds exactly the gray jobs, in calling order. */
    ghost predicate Valid(stack: seq<JobId>)
      reads this
    {
      && IsPath(graph, stack)
      && Distinct(stack)
      && (forall n :: n in stack <==> ColorOf(n) == Gray)
      && (forall n :: n in finished <==> ColorOf(n) == Black)
      && DependenciesFirst(graph, finished)
    }

    method Dfs(node: JobId, ghost stack: seq<JobId>) returns (found: bool)
      requires Valid(stack) && node in graph.Nodes() && ColorOf(node) == White
      requires IsPath(graph, stack + [node])
      modifies this
      ensures found ==> HasCycle(graph)
      ensures !found ==> Valid(stack) && node in finished && old(finished) <= finished
      ensures !found ==> forall n | old(ColorOf(n)) != White :: ColorOf(n) == old(ColorOf(n))
      decreases Unvisited()
    {
      hide HasCycle;
      color := color[node := Gray];
      ghost var inner := stack + [node];
      assert Unvisited() < old(Unvisited()) by {
        assert node in old(Unvisited()) && node !in Unvisited();
      }
      var dependencies := graph.DepsOf(node);
      for i := 0 to |dependencies|
        invariant Valid(inner) && old(finished) <= finished
        invariant forall j | 0 <= j < i :: dependencies[j] in finished
        invariant forall n | old(ColorOf(n)) != White :: ColorOf(n) == old(ColorOf(n))
        invariant Unvisited() < old(Unvisited())
      {
        var dep := dependencies[i];
        DependencyIsNode(graph, node, dep);
        var depColor := ColorOf(dep);
        if depColor == Gray {
          BackEdgeClosesCycle(graph, inner, dep);
          return true;
        }
        if depColor == White {
          found := Dfs(dep, inner);
          if found {
            return true;
          }
        }
      }
      Blacken(node, stack);
      return false;
    }

    method Blacken(node: JobId, ghost stack: seq<JobId>)
      requires Valid(stack + [node])
      requires forall d | d in graph.DepsOf(node) :: d in finished
      modifies this
      ensures Valid(stack) && finished == old(finished) + [node]
      ensures forall n | n != node :: ColorOf(n) == old(ColorOf(n))
    {
      ghost var inner := stack + [node];
      assert forall i | 0 <= i < |stack| :: inner[i] == stack[i];
      assert forall n :: n in inner <==> n in stack || n == node;
      assert node !in stack by {
        assert inner[|stack|] == node;
      }
      assert IsPath(graph, stack) by {
        forall i | 0 <= i < |stack| - 1 ensures stack[i + 1] in graph.DepsOf(stack[i]) {
          assert inner[i + 1] in graph.DepsOf(inner[i]);
        }
      }
      ghost var before := finished;
      color := color[node := Black];
      finished := finished + [node];
      forall i, d | 0 <= i < |finished| && d in graph.DepsOf(finished[i]) ensures d in finished[..i] {
        if i < |before| {
          assert finished[..i] == before[..i];
        } else {
          assert finished[..i] == before;
        }
      }
    }
  }

  /** True exactly when some job depends on itself through a chain, for any graph. */
  method DetectCycles(graph: Graph) returns (found: bool)
    ensures found <==> HasCycle(graph)
  {
    var search := new CycleSearch(graph);
    for i := 0 to |graph.keys|
      invariant search.Valid([]) && search.graph == graph
      invariant forall j | 0 <= j < i :: graph.keys[j] in search.finished
    {
      var jobId := graph.keys[i];
      if search.ColorOf(jobId) == White {
        var cyclic := search.Dfs(jobId, []);
        if cyclic {
          return true;
        }
      } else {
        assert jobId !in [] && search.ColorOf(jobId) == Black;
      }
    }
    OrderedMeansAcyclic(graph, search.finished);
    return false;
  }

  // ---------------------------------------------------------------- Kahn layering

  /** After k rounds of Kahn's algorithm n has not been released: a chain of k edges, or a
      shorter one ending at a job that is not a key, still holds it back. */
  ghost predicate Blocked(g: Graph, n: JobId, k: nat) {
    exists p :: BlockingPath(g, n, k, p)
  }

  ghost predicate BlockingPath(g: Graph, n: JobId, k: nat, p: seq<JobId>) {
    PathFrom(g, n, p) && |p| <= k + 1 && (|p| == k + 1 || p[|p| - 1] !in g.deps)
  }

  lemma BlockedAtZero(g: Graph, n: JobId)
    ensures Blocked(g, n, 0)
  {
    assert BlockingPath(g, n, 0, [n]);
  }

  /** A job is released in round k + 1 when it is a key and every dependency was released by round k. */
  lemma BlockedStep(g: Graph, n: JobId, k: nat)
    ensures Blocked(g, n, k + 1) <==> n !in g.deps || exists d :: d in g.DepsOf(n) && Blocked(g, d, k)
  {
    if Blocked(g, n, k + 1) && n in g.deps {
      var p :| BlockingPath(g, n, k + 1, p);
      assert |p| >= 2;
      assert p[0 + 1] in g.DepsOf(p[0]);
      forall i | 0 <= i < |p| - 2 ensures p[1..][i + 1] in g.DepsOf(p[1..][i]) {
        assert p[i + 1 + 1] in g.DepsOf(p[i + 1]);
      }
      assert BlockingPath(g, p[1], k, p[1..]);
    }
    if n !in g.deps {
      assert BlockingPath(g, n, k + 1, [n]);
    } else if exists d :: d in g.DepsOf(n) && Blocked(g, d, k) {
      var d :| d in g.DepsOf(n) && Blocked(g, d, k);
      var p :| BlockingPath(g, d, k, p);
      var q := [n] + p;
      forall i | 0 <= i < |q| - 1 ensures q[i + 1] in g.DepsOf(q[i]) {
        if i > 0 {
          assert p[i - 1 + 1] in g.DepsOf(p[i - 1]);
        }
      }
      assert BlockingPath(g, n, k + 1, q);
    }
  }

  lemma StaysReleased(g: Graph, n: JobId, k: nat)
    requires Blocked(g, n, k + 1)
    ensures Blocked(g, n, k)
  {
    var p :| BlockingPath(g, n, k + 1, p);
    if |p| == k + 2 {
      assert BlockingPath(g, n, k, p[..k + 1]);
    } else {
      assert BlockingPath(g, n, k, p);
    }
  }

  lemma MissingBlocksForever(g: Graph, n: JobId, k: nat)
    requires ReachesMissing(g, n)
    ensures Blocked(g, n, k)
  {
    var p :| PathFrom(g, n, p) && p[|p| - 1] !in g.deps;
    if |p| <= k + 1 {
      assert BlockingPath(g, n, k, p);
    } else {
      assert BlockingPath(g, n, k, p[..k + 1]);
    }
  }

  lemma BlockedIsChain(g: Graph, n: JobId, k: nat)
    requires !ReachesMissing(g, n)
    ensures Blocked(g, n, k) <==> HasChain(g, n, k)
  {
    if Blocked(g, n, k) {
      var p :| BlockingPath(g, n, k, p);
      assert |p| == k + 1;
    }
    if HasChain(g, n, k) {
      var p :| PathFrom(g, n, p) && |p| == k + 1;
      assert BlockingPath(g, n, k, p);
    }
  }

  /** Being released exactly in round k means having a longest chain of k edges. */
  lemma ReleaseRound(g: Graph, n: JobId, k: nat)
    ensures Blocked(g, n, k) && !Blocked(g, n, k + 1) <==> InLayer(g, n, k)
  {
    if ReachesMissing(g, n) {
      MissingBlocksForever(g, n, k + 1);
    } else {
      assert n in g.deps by {
        if n !in g.deps {
          assert PathFrom(g, n, [n]);
        }
      }
      BlockedIsChain(g, n, k);
      BlockedIsChain(g, n, k + 1);
      if HasChain(g, n, k) && !HasChain(g, n, k + 1) {
        forall j: nat | j > k ensures !HasChain(g, n, j) {
          if HasChain(g, n, j) {
            ShorterChain(g, n, k + 1, j);
          }
        }
      }
    }
  }

  /** Number of entries of s outside done. */
  ghost function Pending(s: seq<JobId>, done: set<JobId>): nat {
    if s == [] then 0 else Pending(s[..|s| - 1], done) + if s[|s| - 1] in done then 0 else 1
  }

  lemma {:induction false} PendingFinish(s: seq<JobId>, done: set<JobId>, x: JobId)
    requires Distinct(s) && x !in done
    ensures Pending(s, done + {x}) == Pending(s, done) - if x in s then 1 else 0
  {
    if s != [] {
      var t := s[..|s| - 1];
      assert forall y :: y in s <==> y in t || y == s[|s| - 1];
      assert s[|s| - 1] !in t;
      PendingFinish(t, done, x);
    }
  }

  lemma {:induction false} PendingNone(s: seq<JobId>, done: set<JobId>)
    ensures Pending(s, done) == 0 <==> forall d :: d in s ==> d in done
    ensures Pending(s, {}) == |s|
  {
    if s != [] {
      assert s == s[..|s| - 1] + [s[|s| - 1]];
      PendingNone(s[..|s| - 1], done);
    }
  }

  function RevOf(rev: map<JobId, seq<JobId>>, d: JobId): seq<JobId> {
    if d in rev then rev[d] else []
  }

  /** reverseDeps lists, for each job, the distinct jobs among done that depend on it. */
  ghost predicate Reverses(g: Graph, rev: map<JobId, seq<JobId>>, done: set<JobId>) {
    forall d :: Distinct(RevOf(rev, d)) && Elements(RevOf(rev, d)) == set j | j in done && d in g.DepsOf(j)
  }

  /** The job was put at the end of the lists of these dependencies, and of no others. */
  ghost predicate AddedTo(rev: map<JobId, seq<JobId>>, rev0: map<JobId, seq<JobId>>, deps: seq<JobId>, jobId: JobId) {
    forall d :: RevOf(rev, d) == RevOf(rev0, d) + if d in deps then [jobId] else []
  }

  lemma AddedToOneMore(rev: map<JobId, seq<JobId>>, rev0: map<JobId, seq<JobId>>, deps: seq<JobId>, dep: JobId,
                       jobId: JobId)
    requires AddedTo(rev, rev0, deps, jobId) && dep !in deps
    ensures AddedTo(rev[dep := RevOf(rev, dep) + [jobId]], rev0, deps + [dep], jobId)
  {
    var after := rev[dep := RevOf(rev, dep) + [jobId]];
    forall d ensures RevOf(after, d) == RevOf(rev0, d) + if d in deps + [dep] then [jobId] else [] {
      assert RevOf(rev, d) == RevOf(rev0, d) + if d in deps then [jobId] else [];
    }
  }

  lemma AddedToNone(rev: map<JobId, seq<JobId>>, jobId: JobId)
    ensures AddedTo(rev, rev, [], jobId)
  {
  }

  /** The body of the loop over graph entries: one job with the set of its dependencies. */
  method AddReverse(deps: seq<JobId>, jobId: JobId, rev0: map<JobId, seq<JobId>>, inDegree0: map<JobId, nat>)
    returns (rev: map<JobId, seq<JobId>>, inDegree: map<JobId, nat>)
    requires forall d :: Distinct(RevOf(rev0, d)) && jobId !in RevOf(rev0, d)
    requires Distinct(deps) && jobId in inDegree0
    ensures AddedTo(rev, rev0, deps, jobId)
    ensures inDegree == inDegree0[jobId := inDegree0[jobId] + |deps|]
  {
    hide AddedTo, RevOf;
    rev, inDegree := rev0, inDegree0;
    AddedToNone(rev, jobId);
    for i := 0 to |deps|
      invariant AddedTo(rev, rev0, deps[..i], jobId)
      invariant inDegree == inDegree0[jobId := inDegree0[jobId] + i]
    {
      assert deps[i] !in deps[..i];
      assert deps[..i + 1] == deps[..i] + [deps[i]];
      AddedToOneMore(rev, rev0, deps[..i], deps[i], jobId);
      rev := rev[deps[i] := RevOf(rev, deps[i]) + [jobId]];
      inDegree := inDegree[jobId := inDegree[jobId] + 1];
    }
    assert deps[..|deps|] == deps;
  }

  method CountDegrees(g: Graph) returns (inDegree: map<JobId, nat>, rev: map<JobId, seq<JobId>>)
    ensures inDegree.Keys == g.deps.Keys && Reverses(g, rev, g.deps.Keys)
    ensures forall n | n in g.deps :: inDegree[n] == |g.deps[n]|
  {
    inDegree, rev := map n | n in g.deps :: 0, map[];
    ghost var done: set<JobId> := {};
    for i := 0 to |g.keys|
      invariant inDegree.Keys == g.deps.Keys && done == Elements(g.keys[..i])
      invariant Reverses(g, rev, done)
      invariant forall n | n in g.deps :: inDegree[n] == if n in done then |g.deps[n]| else 0
    {
      var jobId := g.keys[i];
      assert jobId !in done;
      ghost var before := rev;
      forall d ensures jobId !in RevOf(rev, d) {
        assert jobId !in Elements(RevOf(rev, d));
      }
      rev, inDegree := AddReverse(g.deps[jobId], jobId, rev, inDegree);
      ElementsOfPrefix(g.keys, i);
      forall d ensures Distinct(RevOf(rev, d)) &&
                       Elements(RevOf(rev, d)) == set j | j in done + {jobId} && d in g.DepsOf(j) {
        ReverseGrows(g, before, rev, done, jobId, d);
      }
      done := done + {jobId};
    }
    assert done == g.deps.Keys by {
      assert g.keys[..|g.keys|] == g.keys;
    }
  }

  lemma ReverseGrows(g: Graph, before: map<JobId, seq<JobId>>, rev: map<JobId, seq<JobId>>,
                     done: set<JobId>, jobId: JobId, d: JobId)
    requires Reverses(g, before, done) && jobId !in done && jobId in g.deps
    requires RevOf(rev, d) == RevOf(before, d) + if d in g.deps[jobId] then [jobId] else []
    ensures Distinct(RevOf(rev, d))
    ensures Elements(RevOf(rev, d)) == set j | j in done + {jobId} && d in g.DepsOf(j)
  {
    var old_ := Elements(RevOf(before, d));
    assert jobId !in old_;
    assert Elements(RevOf(rev, d)) == old_ + if d in g.deps[jobId] then {jobId} else {};
  }

  datatype ExecutionPlan = ExecutionPlan(layers: seq<seq<JobId>>, hasCycles: bool)

  /** inDegree counts, for every job not yet processed, its dependencies outside done. */
  ghost predicate DegreesCount(g: Graph, inDegree: map<JobId, nat>, processed: set<JobId>, done: set<JobId>) {
    && inDegree.Keys == g.deps.Keys
    && forall n | n in g.deps && n !in processed :: inDegree[n] == Pending(g.deps[n], done)
  }

  /** The body of the loop over a layer: one finished job releases the jobs that depend on it. */
  method ReleaseDependents(g: Graph, jobId: JobId, dependents: seq<JobId>, processed: set<JobId>,
                           ghost before: set<JobId>, inDegree0: map<JobId, nat>)
    returns (inDegree: map<JobId, nat>, released: seq<JobId>)
    requires processed == before + {jobId} && jobId !in before
    requires Distinct(dependents)
    requires Elements(dependents) == set j | j in g.deps && jobId in g.DepsOf(j)
    requires DegreesCount(g, inDegree0, processed, before)
    ensures DegreesCount(g, inDegree, processed, processed)
    ensures Distinct(released)
    ensures forall n :: n in released <==>
              n in dependents && n !in processed && Pending(g.DepsOf(n), processed) == 0
  {
    inDegree, released := inDegree0, [];
    ghost var handled: set<JobId> := {};
    forall n | n in g.deps ensures Pending(g.deps[n], processed) ==
                                   Pending(g.deps[n], before) - if n in dependents then 1 else 0 {
      assert n in dependents <==> n in Elements(dependents);
      PendingFinish(g.deps[n], before, jobId);
    }
    for i := 0 to |dependents|
      invariant inDegree.Keys == g.deps.Keys && handled == Elements(dependents[..i])
      invariant forall n | n in g.deps && n !in processed ::
                  inDegree[n] == Pending(g.deps[n], if n in handled then processed else before)
      invariant Distinct(released)
      invariant forall n :: n in released <==>
                  n in handled && n !in processed && Pending(g.DepsOf(n), processed) == 0
    {
      var dependent := dependents[i];
      assert dependent in Elements(dependents) && dependent !in handled;
      ElementsOfPrefix(dependents, i);
      handled := handled + {dependent};
      if dependent !in processed {
        var newDegree := inDegree[dependent] - 1;
        inDegree := inDegree[dependent := newDegree];
        if newDegree == 0 {
          released := released + [dependent];
        }
      }
    }
    assert dependents[..|dependents|] == dependents;
  }

  /** layer holds, once each, the jobs released exactly in round k. */
  ghost predicate IsRound(g: Graph, layer: seq<JobId>, k: nat) {
    Distinct(layer) && forall n :: n in layer <==> Blocked(g, n, k) && !Blocked(g, n, k + 1)
  }

  lemma DistinctConcat<T(!new)>(s: seq<T>, t: seq<T>)
    requires Distinct(s) && Distinct(t) && forall x | x in t :: x !in s
    ensures Distinct(s + t)
  {
    forall i, j | 0 <= i < j < |s + t| ensures (s + t)[i] != (s + t)[j] {
      if i < |s| <= j {
        assert s[i] in s && t[j - |s|] in t;
      }
    }
  }

  /** The jobs whose every dependency was released by round k are those released by round k + 1. */
  lemma ReadyIsReleased(g: Graph, n: JobId, k: nat, done: set<JobId>)
    requires forall m :: m in done <==> !Blocked(g, m, k)
    ensures n in g.deps && Pending(g.DepsOf(n), done) == 0 <==> !Blocked(g, n, k + 1)
  {
    PendingNone(g.DepsOf(n), done);
    BlockedStep(g, n, k);
  }

  lemma ExtendRounds(g: Graph, layers: seq<seq<JobId>>, layer: seq<JobId>)
    requires AreRounds(g, layers) && layer != [] && IsRound(g, layer, |layers|)
    ensures AreRounds(g, layers + [layer])
  {
  }

  lemma FinishLayer(g: Graph, layer: seq<JobId>, k: nat, before: set<JobId>)
    requires forall n :: n in before <==> !Blocked(g, n, k)
    requires IsRound(g, layer, k)
    ensures forall n :: n in before + Elements(layer) <==> !Blocked(g, n, k + 1)
    ensures forall n | n in g.deps :: Pending(g.DepsOf(n), before) == 0 <==> n in before + Elements(layer)
    ensures layer != [] ==> g.deps.Keys - (before + Elements(layer)) < g.deps.Keys - before
  {
    var after := before + Elements(layer);
    forall n ensures n in after <==> !Blocked(g, n, k + 1) {
      if Blocked(g, n, k + 1) {
        StaysReleased(g, n, k);
      }
    }
    forall n | n in g.deps ensures Pending(g.DepsOf(n), before) == 0 <==> n in after {
      ReadyIsReleased(g, n, k, before);
    }
    if layer != [] {
      assert layer[0] in layer;
      KeyUnlessBlocked(g, layer[0], k + 1);
      assert layer[0] in after && layer[0] in g.deps && layer[0] !in before;
    }
  }

  ghost predicate AreRounds(g: Graph, layers: seq<seq<JobId>>) {
    forall k | 0 <= k < |layers| :: layers[k] != [] && IsRound(g, layers[k], k)
  }

  method NextRound(g: Graph, layer: seq<JobId>, rev: map<JobId, seq<JobId>>, ghost k: nat,
                   inDegree0: map<JobId, nat>, processed0: set<JobId>)
    returns (inDegree: map<JobId, nat>, processed: set<JobId>, next: seq<JobId>)
    requires Reverses(g, rev, g.deps.Keys)
    requires DegreesCount(g, inDegree0, processed0, processed0)
    requires forall n :: n in processed0 <==> !Blocked(g, n, k)
    requires IsRound(g, layer, k)
    ensures DegreesCount(g, inDegree, processed, processed)
    ensures forall n :: n in processed <==> !Blocked(g, n, k + 1)
    ensures layer != [] ==> g.deps.Keys - processed < g.deps.Keys - processed0
    ensures IsRound(g, next, k + 1)
  {
    hide Blocked, Pending;
    inDegree, processed, next := inDegree0, processed0, [];
    ghost var finished := processed0 + Elements(layer);
    FinishLayer(g, layer, k, processed0);
    for i := 0 to |layer|
      invariant processed == processed0 + Elements(layer[..i])
      invariant DegreesCount(g, inDegree, processed, processed)
      invariant Distinct(next)
      invariant forall n :: n in next <==>
                  n in g.deps && n !in finished && Pending(g.deps[n], processed) == 0
    {
      var jobId := layer[i];
      ghost var before := processed;
      assert jobId !in before by {
        assert jobId !in layer[..i] && jobId in layer;
      }
      ElementsOfPrefix(layer, i);
      processed := processed + {jobId};
      var released;
      inDegree, released := ReleaseDependents(g, jobId, RevOf(rev, jobId), processed, before, inDegree);
      forall n | n in g.deps ensures
        Pending(g.deps[n], processed) == Pending(g.deps[n], before) - (if n in RevOf(rev, jobId) then 1 else 0) {
        assert n in RevOf(rev, jobId) <==> n in Elements(RevOf(rev, jobId));
        PendingFinish(g.deps[n], before, jobId);
      }
      forall n | n in RevOf(rev, jobId)
        ensures n in g.deps && n !in finished && Pending(g.deps[n], before) > 0 {
        assert n in Elements(RevOf(rev, jobId));
        PendingNone(g.deps[n], before);
        PendingNone(g.deps[n], processed0);
      }
      assert forall n | n in released :: n !in next;
      DistinctConcat(next, released);
      next := next + released;
    }
    assert layer[..|layer|] == layer;
    forall n ensures n in next <==> Blocked(g, n, k + 1) && !Blocked(g, n, k + 2) {
      ReadyIsReleased(g, n, k + 1, processed);
    }
  }

  /** The plan holds every job that can ever run exactly once, in the layer numbered by its
      longest dependency chain, and has no empty layer. */
  ghost predicate IsPlan(g: Graph, layers: seq<seq<JobId>>) {
    && (forall k | 0 <= k < |layers| :: layers[k] != [] && Distinct(layers[k]))
    && (forall k, n | 0 <= k < |layers| :: n in layers[k] <==> InLayer(g, n, k))
    && (forall n | n in g.deps && !ReachesMissing(g, n) :: exists k :: 0 <= k < |layers| && n in layers[k])
  }

  method GetExecutionPlan(g: Graph) returns (plan: ExecutionPlan)
    ensures plan.hasCycles <==> HasCycle(g)
    ensures plan.hasCycles ==> plan.layers == [g.keys]
    ensures !plan.hasCycles ==> IsPlan(g, plan.layers)
  {
    hide Blocked, HasCycle, IsPlan, Pending, Reverses, DegreesCount, IsRound;
    var hasCyclesResult := DetectCycles(g);
    if hasCyclesResult {
      return ExecutionPlan([g.keys], true);
    }
    var inDegree, rev := CountDegrees(g);
    var layers: seq<seq<JobId>> := [];
    var processed: set<JobId> := {};
    var currentLayer := Roots(g, inDegree);
    FirstRound(g, inDegree, currentLayer);
    while currentLayer != []
      invariant DegreesCount(g, inDegree, processed, processed)
      invariant forall n :: n in processed <==> !Blocked(g, n, |layers|)
      invariant IsRound(g, currentLayer, |layers|)
      invariant AreRounds(g, layers)
      decreases g.deps.Keys - processed
    {
      ExtendRounds(g, layers, currentLayer);
      ghost var k := |layers|;
      layers := layers + [currentLayer];
      inDegree, processed, currentLayer := NextRound(g, currentLayer, rev, k, inDegree, processed);
    }
    RoundsMakePlan(g, layers);
    return ExecutionPlan(layers, false);
  }

  /** The jobs with no dependency, in key order. */
  method Roots(g: Graph, inDegree: map<JobId, nat>) returns (roots: seq<JobId>)
    requires inDegree.Keys == g.deps.Keys
    ensures Distinct(roots)
    ensures forall n :: n in roots <==> n in g.deps && inDegree[n] == 0
  {
    roots := [];
    for i := 0 to |g.keys|
      invariant Distinct(roots)
      invariant forall n :: n in roots <==> n in g.keys[..i] && inDegree[n] == 0
    {
      assert g.keys[..i + 1] == g.keys[..i] + [g.keys[i]];
      if inDegree[g.keys[i]] == 0 {
        roots := roots + [g.keys[i]];
      }
    }
    assert g.keys[..|g.keys|] == g.keys;
  }

  lemma FirstRound(g: Graph, inDegree: map<JobId, nat>, roots: seq<JobId>)
    requires inDegree.Keys == g.deps.Keys
    requires forall n | n in g.deps :: inDegree[n] == |g.deps[n]|
    requires Distinct(roots) && forall n :: n in roots <==> n in g.deps && inDegree[n] == 0
    ensures IsRound(g, roots, 0) && DegreesCount(g, inDegree, {}, {})
    ensures forall n :: Blocked(g, n, 0)
  {
    forall n ensures Blocked(g, n, 0) {
      BlockedAtZero(g, n);
    }
    forall n | n in g.deps ensures inDegree[n] == Pending(g.deps[n], {}) {
      PendingNone(g.deps[n], {});
    }
    forall n ensures n in roots <==> !Blocked(g, n, 1) {
      ReadyIsReleased(g, n, 0, {});
    }
  }

  lemma KeyUnlessBlocked(g: Graph, n: JobId, k: nat)
    requires !Blocked(g, n, k)
    ensures n in g.deps
  {
    if n !in g.deps {
      assert BlockingPath(g, n, k, [n]);
    }
  }

  /** When a round comes out empty on an acyclic graph, no job that can run is left. */
  lemma RoundsMakePlan(g: Graph, layers: seq<seq<JobId>>)
    requires !HasCycle(g) && IsRound(g, [], |layers|)
    requires AreRounds(g, layers)
    ensures IsPlan(g, layers)
  {
    forall k, n | 0 <= k < |layers| ensures n in layers[k] <==> InLayer(g, n, k) {
      ReleaseRound(g, n, k);
    }
    forall n | n in g.deps && !ReachesMissing(g, n) ensures exists k :: 0 <= k < |layers| && n in layers[k] {
      assert PathFrom(g, n, [n]);
      var m := LongestChainExists(g, n, 0);
      assert InLayer(g, n, m);
      if m >= |layers| {
        var d := LowerOnChain(g, n, m, |layers|);
        ReleaseRound(g, d, |layers|);
        assert false;
      }
    }
  }

  /** Along a longest chain of m edges there is a job whose longest chain has k edges, for any k <= m. */
  lemma LowerOnChain(g: Graph, n: JobId, m: nat, k: nat) returns (d: JobId)
    requires InLayer(g, n, m) && k <= m
    ensures InLayer(g, d, k)
    decreases m
  {
    if k == m {
      d := n;
    } else {
      var p :| PathFrom(g, n, p) && |p| == m + 1;
      var next := p[0 + 1];
      assert next in g.DepsOf(n);
      forall i | 0 <= i < m - 1 ensures p[1..][i + 1] in g.DepsOf(p[1..][i]) {
        assert p[i + 1 + 1] in g.DepsOf(p[i + 1]);
      }
      assert PathFrom(g, next, p[1..]);
      forall j: nat | j > m - 1 ensures !HasChain(g, next, j) {
        if HasChain(g, next, j) {
          var q :| PathFrom(g, next, q) && |q| == j + 1;
          PrependPath(g, n, q);
          assert HasChain(g, n, j + 1);
        }
      }
      if ReachesMissing(g, next) {
        var q :| PathFrom(g, next, q) && q[|q| - 1] !in g.deps;
        PrependPath(g, n, q);
      }
      assert next in g.deps by {
        if next !in g.deps {
          assert PathFrom(g, next, [next]);
        }
      }
      d := LowerOnChain(g, next, m - 1, k);
    }
  }

  lemma PrependPath(g: Graph, n: JobId, q: seq<JobId>)
    requires |q| >= 1 && IsPath(g, q) && q[0] in g.DepsOf(n)
    ensures PathFrom(g, n, [n] + q) && ([n] + q)[|q|] == q[|q| - 1]
  {
    var r := [n] + q;
    forall i | 0 <= i < |r| - 1 ensures r[i + 1] in g.DepsOf(r[i]) {
      if i > 0 {
        assert q[i - 1 + 1] in g.DepsOf(q[i - 1]);
      }
    }
  }

  // ---------------------------------------------------------------- what can run now

  /** A key that is not completed and whose every dependency is completed. */
  predicate Executable(g: Graph, completed: set<JobId>, n: JobId) {
    n in g.deps && n !in completed && forall d | d in g.DepsOf(n) :: d in completed
  }

  /** The executable jobs of a key list, in list order. */
  function Selected(g: Graph, completed: set<JobId>, keys: seq<JobId>): seq<JobId> {
    if keys == [] then []
    else
      var last := keys[|keys| - 1];
      Selected(g, completed, keys[..|keys| - 1]) + if Executable(g, completed, last) then [last] else []
  }

  method GetExecutableJobs(g: Graph, completedJobs: set<JobId>) returns (executable: seq<JobId>)
    ensures executable == Selected(g, completedJobs, g.keys)
    ensures forall n :: n in executable <==> Executable(g, completedJobs, n)
  {
    executable := [];
    for i := 0 to |g.keys|
      invariant executable == Selected(g, completedJobs, g.keys[..i])
      invariant forall n :: n in executable <==> n in g.keys[..i] && Executable(g, completedJobs, n)
    {
      var jobId := g.keys[i];
      assert g.keys[..i + 1] == g.keys[..i] + [jobId];
      assert g.keys[..i + 1][..i] == g.keys[..i];
      if jobId in completedJobs {
        continue;
      }
      var dependencies := g.deps[jobId];
      var allDepsCompleted := true;
      for j := 0 to |dependencies|
        invariant allDepsCompleted
        invariant forall d | d in dependencies[..j] :: d in completedJobs
      {
        assert dependencies[..j + 1] == dependencies[..j] + [dependencies[j]];
        if dependencies[j] !in completedJobs {
          allDepsCompleted := false;
          break;
        }
      }
      assert allDepsCompleted <==> Executable(g, completedJobs, jobId) by {
        assert dependencies[..|dependencies|] == dependencies;
      }
      if allDepsCompleted {
        executable := executable + [jobId];
      }
    }
    assert g.keys[..|g.keys|] == g.keys;
  }

  ghost function Completed(layers: seq<seq<JobId>>): set<JobId> {
    set k, n | 0 <= k < |layers| && n in layers[k] :: n
  }

  lemma {:induction false} ReleasedInSomeRound(g: Graph, n: JobId, k: nat) returns (j: nat)
    requires !Blocked(g, n, k)
    ensures j < k && InLayer(g, n, j)
  {
    BlockedAtZero(g, n);
    if Blocked(g, n, k - 1) {
      j := k - 1;
      ReleaseRound(g, n, j);
    } else {
      j := ReleasedInSomeRound(g, n, k - 1);
    }
  }

  lemma StaysReleasedUpTo(g: Graph, n: JobId, j: nat, k: nat)
    requires j <= k && Blocked(g, n, k)
    ensures Blocked(g, n, j)
    decreases k
  {
    if j < k {
      StaysReleased(g, n, k - 1);
      StaysReleasedUpTo(g, n, j, k - 1);
    }
  }

  lemma CompletedIsReleased(g: Graph, layers: seq<seq<JobId>>, k: nat, n: JobId)
    requires IsPlan(g, layers) && k <= |layers|
    ensures n in Completed(layers[..k]) <==> !Blocked(g, n, k)
  {
    if n in Completed(layers[..k]) {
      var j :| 0 <= j < k && n in layers[..k][j];
      assert n in layers[j];
      ReleaseRound(g, n, j);
      if Blocked(g, n, k) {
        StaysReleasedUpTo(g, n, j + 1, k);
      }
    }
    if !Blocked(g, n, k) {
      var j := ReleasedInSomeRound(g, n, k);
      assert n in layers[j] && layers[..k][j] == layers[j];
    }
  }

  /** The incremental plan agrees with the plain scan: once layers 0..k-1 are completed, the
      executable jobs are exactly layer k, and none are left after the last layer. */
  lemma ExecutableIsNextLayer(g: Graph, layers: seq<seq<JobId>>, k: nat, n: JobId)
    requires IsPlan(g, layers) && k <= |layers|
    ensures k < |layers| ==> (Executable(g, Completed(layers[..k]), n) <==> n in layers[k])
    ensures k == |layers| ==> !Executable(g, Completed(layers[..k]), n)
  {
    var done := Completed(layers[..k]);
    forall m ensures m in done <==> !Blocked(g, m, k) {
      CompletedIsReleased(g, layers, k, m);
    }
    BlockedStep(g, n, k);
    ReleaseRound(g, n, k);
  }

  /** stages runs every job that can run, each after all of its dependencies. */
  ghost predicate RespectsDependencies(g: Graph, stages: seq<seq<JobId>>) {
    && (forall n | n in g.deps && !ReachesMissing(g, n) :: exists i :: 0 <= i < |stages| && n in stages[i])
    && (forall i, n, d | 0 <= i < |stages| && n in stages[i] && d in g.DepsOf(n) ::
          exists j :: 0 <= j < i && d in stages[j])
  }

  lemma {:induction false} StageAfterChain(g: Graph, stages: seq<seq<JobId>>, i: nat, p: seq<JobId>)
    requires RespectsDependencies(g, stages) && i < |stages|
    requires |p| >= 1 && IsPath(g, p) && p[0] in stages[i]
    ensures i >= |p| - 1
    decreases |p|
  {
    if |p| > 1 {
      assert p[0 + 1] in g.DepsOf(p[0]);
      var j :| 0 <= j < i && p[1] in stages[j];
      forall k | 0 <= k < |p| - 2 ensures p[1..][k + 1] in g.DepsOf(p[1..][k]) {
        assert p[k + 1 + 1] in g.DepsOf(p[k + 1]);
      }
      StageAfterChain(g, stages, j, p[1..]);
    }
  }

  /** No dependency-respecting staging of the jobs uses fewer stages than the plan has layers. */
  lemma PlanIsShortest(g: Graph, layers: seq<seq<JobId>>, stages: seq<seq<JobId>>)
    requires IsPlan(g, layers) && RespectsDependencies(g, stages)
    ensures |layers| <= |stages|
  {
    if layers != [] {
      var k := |layers| - 1;
      var n := layers[k][0];
      assert n in layers[k];
      var p :| PathFrom(g, n, p) && |p| == k + 1;
      var i :| 0 <= i < |stages| && n in stages[i];
      StageAfterChain(g, stages, i, p);
    }
  }

  /** The plan itself respects the dependencies. */
  lemma PlanRespectsDependencies(g: Graph, layers: seq<seq<JobId>>)
    requires IsPlan(g, layers)
    ensures RespectsDependencies(g, layers)
  {
    forall i, n, d | 0 <= i < |layers| && n in layers[i] && d in g.DepsOf(n)
      ensures exists j :: 0 <= j < i && d in layers[j] {
      ReleaseRound(g, n, i);
      BlockedStep(g, n, i);
      var j := ReleasedInSomeRound(g, d, i);
      assert d in layers[j];
    }
  }

  ghost function Ran(batches: seq<set<JobId>>): set<JobId> {
    if batches == [] then {} else Ran(batches[..|batches| - 1]) + batches[|batches| - 1]
  }

  /** Each batch is a non-empty choice of jobs that are executable once the earlier batches ran. */
  ghost predicate IsRun(g: Graph, batches: seq<set<JobId>>) {
    forall i | 0 <= i < |batches| ::
      batches[i] != {} && forall n | n in batches[i] :: Executable(g, Ran(batches[..i]), n)
  }

  lemma {:induction false} RunGrows(g: Graph, batches: seq<set<JobId>>)
    requires IsRun(g, batches)
    ensures Ran(batches) <= g.deps.Keys && |batches| <= |Ran(batches)|
  {
    if batches != [] {
      var init := batches[..|batches| - 1];
      forall i | 0 <= i < |init| ensures init[..i] == batches[..i] {
      }
      RunGrows(g, init);
      var last := batches[|batches| - 1];
      assert last !! Ran(init);
      assert |last| >= 1 by {
        var x :| x in last;
      }
      assert |Ran(batches)| == |Ran(init)| + |last|;
    }
  }

  /** A job that can run but has not run leads down its dependencies to one that can run now. */
  lemma {:induction false} SomethingExecutable(g: Graph, done: set<JobId>, n: JobId, bound: nat) returns (x: JobId)
    requires !Blocked(g, n, bound) && n !in done
    ensures Executable(g, done, x)
    decreases bound
  {
    BlockedAtZero(g, n);
    BlockedStep(g, n, bound - 1);
    KeyUnlessBlocked(g, n, bound);
    if Executable(g, done, n) {
      x := n;
    } else {
      var d :| d in g.DepsOf(n) && d !in done;
      x := SomethingExecutable(g, done, d, bound - 1);
    }
  }

  /** Running any non-empty executable subset again and again finishes: there are at most as many
      batches as jobs, and when nothing is executable every job that can run has run. */
  lemma RunsFinish(g: Graph, batches: seq<set<JobId>>)
    requires !HasCycle(g) && IsRun(g, batches)
    ensures |batches| <= |g.deps.Keys|
    ensures (forall n :: !Executable(g, Ran(batches), n)) ==>
              forall n | n in g.deps && !ReachesMissing(g, n) :: n in Ran(batches)
  {
    RunGrows(g, batches);
    SubsetSize(Ran(batches), g.deps.Keys);
    if forall n :: !Executable(g, Ran(batches), n) {
      forall n | n in g.deps && !ReachesMissing(g, n) ensures n in Ran(batches) {
        if n !in Ran(batches) {
          assert PathFrom(g, n, [n]);
          var m := LongestChainExists(g, n, 0);
          BlockedIsChain(g, n, m + 1);
          var x := SomethingExecutable(g, Ran(batches), n, m + 1);
        }
      }
    }
  }

  lemma {:induction false} SubsetSize<T>(s: set<T>, t: set<T>)
    requires s <= t
    ensures |s| <= |t|
  {
    if s != {} {
      var x :| x in s;
      SubsetSize(s - {x}, t - {x});
    }
  }

  /** In a graph from BuildDependencyGraph no job waits for a missing one, so on an acyclic input
      the plan holds every job and running executable jobs completes every job. */
  lemma ClosedMeansAllCanRun(g: Graph, n: JobId)
    requires g.Closed() && n in g.deps
    ensures !ReachesMissing(g, n)
  {
    forall p ensures !(PathFrom(g, n, p) && p[|p| - 1] !in g.deps) {
      if PathFrom(g, n, p) {
        PathStaysInKeys(g, p);
      }
    }
  }

  lemma {:induction false} PathStaysInKeys(g: Graph, p: seq<JobId>)
    requires g.Closed() && |p| >= 1 && IsPath(g, p) && p[0] in g.deps
    ensures p[|p| - 1] in g.deps
  {
    if |p| > 1 {
      var init := p[..|p| - 1];
      forall i | 0 <= i < |init| - 1 ensures init[i + 1] in g.DepsOf(init[i]) {
        assert p[i + 1] in g.DepsOf(p[i]);
      }
      PathStaysInKeys(g, p[..|p| - 1]);
      assert p[|p| - 2 + 1] in g.DepsOf(p[|p| - 2]);
    }
  }
}
