/** The topological order of a needs graph: Kahn's algorithm against a specification that
    mentions no iteration order. */
module Ordering {
  import opened Collections
  import opened Text
  import opened Graphs

  /** The jobs all of whose needs are done. */
  ghost function Unlocked(g: Graph, done: seq<string>): set<string> {
    set n | n in Nodes(g) && forall d :: d in Deps(g, n) ==> d in done
  }

  /** done and queue together list the unlocked jobs, each once. */
  ghost predicate Frontier(g: Graph, queue: seq<string>, done: seq<string>) {
    multiset(done + queue) == multiset(Unlocked(g, done))
  }

  ghost function NewlyUnlocked(g: Graph, done: seq<string>, n: string): set<string> {
    Unlocked(g, done + [n]) - Unlocked(g, done)
  }

  lemma FrontierIsBounded(g: Graph, queue: seq<string>, done: seq<string>)
    requires Frontier(g, queue, done)
    ensures |done| + |queue| <= |Nodes(g)|
  {
    assert |done + queue| == |multiset(done + queue)| == |Unlocked(g, done)|;
    SubsetSize(Unlocked(g, done), Nodes(g));
  }

  lemma UnlockingIsMonotone(g: Graph, done: seq<string>, n: string)
    ensures Unlocked(g, done) <= Unlocked(g, done + [n])
    ensures multiset(Unlocked(g, done + [n])) == multiset(Unlocked(g, done)) + multiset(NewlyUnlocked(g, done, n))
  {
    var a, b := Unlocked(g, done), Unlocked(g, done + [n]);
    assert b == a + (b - a);
  }

  lemma ShiftAndAppend(done: seq<string>, queue: seq<string>, more: seq<string>)
    requires queue != []
    ensures multiset((done + [queue[0]]) + (queue[1..] + more)) == multiset(done + queue) + multiset(more)
  {
    assert (done + [queue[0]]) + (queue[1..] + more) == (done + queue) + more;
  }

  lemma FrontierAdvances(g: Graph, queue: seq<string>, done: seq<string>)
    requires Frontier(g, queue, done) && queue != []
    ensures Frontier(g, queue[1..] + Ascending(NewlyUnlocked(g, done, queue[0])), done + [queue[0]])
  {
    var n := queue[0];
    var more := Ascending(NewlyUnlocked(g, done, n));
    UnlockingIsMonotone(g, done, n);
    ShiftAndAppend(done, queue, more);
  }

  /** Take the head of the queue, append what it unlocks in ascending order, repeat. */
  ghost function KahnFrom(g: Graph, queue: seq<string>, done: seq<string>): seq<string>
    requires Frontier(g, queue, done)
    decreases |Nodes(g)| - |done|
  {
    FrontierIsBounded(g, queue, done);
    if queue == [] then done
    else
      FrontierAdvances(g, queue, done);
      KahnFrom(g, queue[1..] + Ascending(NewlyUnlocked(g, done, queue[0])), done + [queue[0]])
  }

  /** The order as a function of the graph alone. */
  ghost function KahnOrder(g: Graph): seq<string> {
    var first := Ascending(Unlocked(g, []));
    assert [] + first == first;
    KahnFrom(g, first, [])
  }

  /** Whatever the graph, the order lists exactly the jobs it unlocks, once each and after
      their needs. */
  lemma {:induction false} KahnFromRanks(g: Graph, queue: seq<string>, done: seq<string>)
    requires Frontier(g, queue, done) && Ranked(g, done)
    ensures var r := KahnFrom(g, queue, done);
      Ranked(g, r) && multiset(r) == multiset(Unlocked(g, r))
    decreases |Nodes(g)| - |done|
  {
    FrontierIsBounded(g, queue, done);
    if queue == [] {
      assert done + queue == done;
    } else {
      FrontierAdvances(g, queue, done);
      var n := queue[0];
      assert n in multiset(done + queue);
      assert n in Unlocked(g, done);
      assert forall i :: 0 <= i <= |done| ==> (done + [n])[..i] == done[..i];
      KahnFromRanks(g, queue[1..] + Ascending(NewlyUnlocked(g, done, n)), done + [n]);
    }
  }

  lemma KahnOrderRanks(g: Graph)
    ensures var r := KahnOrder(g);
      Ranked(g, r) && multiset(r) == multiset(Unlocked(g, r))
  {
    var first := Ascending(Unlocked(g, []));
    assert [] + first == first;
    KahnFromRanks(g, first, []);
  }

  lemma {:induction false} RankedJobsUnlock(g: Graph, rank: seq<string>, r: seq<string>, k: nat)
    requires Ranked(g, rank) && k <= |rank|
    requires multiset(r) == multiset(Unlocked(g, r))
    ensures forall n :: n in rank[..k] && n in Nodes(g) ==> n in r
  {
    if k > 0 {
      RankedJobsUnlock(g, rank, r, k - 1);
      var n := rank[k - 1];
      if n in Nodes(g) {
        forall d | d in Deps(g, n)
          ensures d in r
        {
          DepsAreNodes(g, n, d);
          assert d in rank[..k - 1];
        }
        assert n in multiset(r);
      }
      assert forall m :: m in rank[..k] ==> m in rank[..k - 1] || m == n;
    }
  }

  /** The order covers every job exactly when the graph has no cycle. `rank` is what an
      unsuccessful cycle search leaves behind. */
  lemma KahnOrderIsComplete(g: Graph, rank: seq<string>)
    requires Ranked(g, rank) && forall n :: n in g ==> n in rank
    ensures multiset(KahnOrder(g)) == multiset(Nodes(g))
  {
    var r := KahnOrder(g);
    KahnOrderRanks(g);
    RankedJobsUnlock(g, rank, r, |rank|);
    assert rank[..|rank|] == rank;
    forall n | n in Nodes(g)
      ensures n in Unlocked(g, r)
    {
      forall d | d in Deps(g, n)
        ensures d in r
      {
        var i :| 0 <= i < |rank| && rank[i] == n;
        assert d in rank[..i];
        DepsAreNodes(g, n, d);
        assert d in rank[..|rank|];
      }
    }
    assert Unlocked(g, r) == Nodes(g);
  }

  lemma CompleteOrderIsAcyclic(g: Graph)
    requires multiset(KahnOrder(g)) == multiset(Nodes(g))
    ensures !Cyclic(g)
  {
    var r := KahnOrder(g);
    KahnOrderRanks(g);
    forall n | n in g
      ensures n in r
    {
      assert n in Nodes(g);
      assert n in multiset(r);
    }
    RankedIsAcyclic(g, r);
  }

  // ---- the algorithm ----

  /** How many entries of deps are not in done. */
  function Pending(deps: seq<string>, done: seq<string>): nat {
    if deps == [] then 0
    else Pending(deps[..|deps| - 1], done) + (if deps[|deps| - 1] in done then 0 else 1)
  }

  lemma {:induction false} PendingZero(deps: seq<string>, done: seq<string>)
    ensures Pending(deps, done) == 0 <==> forall d :: d in deps ==> d in done
  {
    if deps != [] {
      PendingZero(deps[..|deps| - 1], done);
      assert deps == deps[..|deps| - 1] + [deps[|deps| - 1]];
    }
  }

  lemma {:induction false} PendingNone(deps: seq<string>)
    ensures Pending(deps, []) == |deps|
  {
    if deps != [] {
      PendingNone(deps[..|deps| - 1]);
    }
  }

  lemma {:induction false} PendingShrinks(deps: seq<string>, done: seq<string>, n: string)
    ensures Pending(deps, done + [n]) <= Pending(deps, done)
  {
    if deps != [] {
      PendingShrinks(deps[..|deps| - 1], done, n);
    }
  }

  lemma PendingIsUnlocking(g: Graph, done: seq<string>, n: string)
    ensures n in Nodes(g) ==> (n in Unlocked(g, done) <==> Pending(Deps(g, n), done) == 0)
  {
    PendingZero(Deps(g, n), done);
  }

  /** How the in-degrees stand once `done` has been processed. */
  ghost predicate Counts(g: Graph, indeg: map<string, int>, done: seq<string>) {
    && indeg.Keys == Nodes(g)
    && forall n :: n in indeg ==> indeg[n] == Pending(Deps(g, n), done)
  }

  function CountOf(indeg: map<string, int>, n: string): int {
    if n in indeg then indeg[n] else 0
  }

  /** One turn of the counting loop: the needs of n count for n, and each gets an entry. */
  method CountOne(before: map<string, int>, n: string, deps: seq<string>) returns (indeg: map<string, int>)
    ensures indeg.Keys == before.Keys + {n} + set d | d in deps
    ensures forall m :: m in indeg ==> indeg[m] == CountOf(before, m) + if m == n then |deps| else 0
  {
    indeg := before;
    if n !in indeg {
      indeg := indeg[n := 0];
    }
    var k := 0;
    while k < |deps|
      invariant 0 <= k <= |deps|
      invariant indeg == before[n := CountOf(before, n) + k]
    {
      indeg := indeg[n := indeg[n] + 1];
      k := k + 1;
    }
    indeg := EnterAll(indeg, deps);
  }

  /** Each need gets an entry. */
  method EnterAll(before: map<string, int>, deps: seq<string>) returns (indeg: map<string, int>)
    ensures indeg.Keys == before.Keys + set d | d in deps
    ensures forall m :: m in indeg ==> indeg[m] == CountOf(before, m)
  {
    indeg := before;
    var k := 0;
    while k < |deps|
      invariant 0 <= k <= |deps|
      invariant indeg.Keys == before.Keys + set d | d in deps[..k]
      invariant forall m :: m in indeg ==> indeg[m] == CountOf(before, m)
    {
      assert deps[..k + 1] == deps[..k] + [deps[k]];
      if deps[k] !in indeg {
        indeg := indeg[deps[k] := 0];
      }
      k := k + 1;
    }
    assert deps[..|deps|] == deps;
  }

  method CountNeeds(needs: Graph) returns (indeg: map<string, int>)
    ensures Counts(needs, indeg, [])
  {
    indeg := map[];
    var todo := needs.Keys;
    while todo != {}
      invariant todo <= needs.Keys
      invariant forall n :: n in needs && n !in todo ==> n in indeg && forall d :: d in needs[n] ==> d in indeg
      invariant indeg.Keys <= Nodes(needs)
      invariant forall n :: n in indeg ==> indeg[n] == if n in todo then 0 else |Deps(needs, n)|
      decreases todo
    {
      var n :| n in todo;
      todo := todo - {n};
      indeg := CountOne(indeg, n, needs[n]);
    }
    assert indeg.Keys == Nodes(needs);
    forall n | n in indeg
      ensures indeg[n] == Pending(Deps(needs, n), [])
    {
      PendingNone(Deps(needs, n));
    }
  }

  ghost predicate Released(deps: seq<string>, done: seq<string>, n: string) {
    Pending(deps, done) > 0 && Pending(deps, done + [n]) == 0
  }

  /** One turn of the release loop: every entry n of job's needs is counted off, and the job is
      unlocked when the last one goes. */
  method ReleaseJob(before: map<string, int>, waiting: seq<string>, job: string, deps: seq<string>,
                    n: string, ghost done: seq<string>)
    returns (indeg: map<string, int>, unlocked: seq<string>)
    requires job in before && before[job] == Pending(deps, done) && n !in done
    ensures indeg == before[job := Pending(deps, done + [n])]
    ensures unlocked == if Released(deps, done, n) then waiting + [job] else waiting
  {
    indeg, unlocked := before, waiting;
    ghost var total := Pending(deps, done);
    var k := 0;
    while k < |deps|
      invariant 0 <= k <= |deps|
      invariant indeg == before[job := total - Pending(deps[..k], done) + Pending(deps[..k], done + [n])]
      invariant total == Pending(deps, done) && Pending(deps[..k], done) <= total
      invariant unlocked == if indeg[job] == 0 && Pending(deps[..k], done + [n]) < Pending(deps[..k], done)
                            then waiting + [job] else waiting
    {
      PendingStep(deps, k, done, n);
      if deps[k] == n {
        indeg := indeg[job := indeg[job] - 1];
        if indeg[job] == 0 {
          unlocked := unlocked + [job];
        }
      }
      k := k + 1;
    }
    assert deps[..|deps|] == deps;
  }

  lemma PendingStep(deps: seq<string>, k: nat, done: seq<string>, n: string)
    requires k < |deps| && n !in done
    ensures Pending(deps[..k + 1], done) == Pending(deps[..k], done) + (if deps[k] in done then 0 else 1)
    ensures Pending(deps[..k + 1], done + [n])
         == Pending(deps[..k], done + [n]) + (if deps[k] in done || deps[k] == n then 0 else 1)
    ensures Pending(deps[..k + 1], done) <= Pending(deps, done)
    ensures Pending(deps[..k], done + [n]) <= Pending(deps[..k], done)
  {
    assert deps[..k + 1][..k] == deps[..k];
    PendingOfPrefix(deps, k + 1, done);
    PendingShrinks(deps[..k], done, n);
  }

  lemma {:induction false} PendingOfPrefix(deps: seq<string>, k: nat, done: seq<string>)
    requires k <= |deps|
    ensures Pending(deps[..k], done) <= Pending(deps, done)
  {
    if k < |deps| {
      assert deps[..|deps| - 1][..k] == deps[..k];
      PendingOfPrefix(deps[..|deps| - 1], k, done);
    } else {
      assert deps[..k] == deps;
    }
  }

  /** The jobs of `among` that finishing n releases. */
  ghost function ReleasedAmong(g: Graph, among: set<string>, done: seq<string>, n: string): set<string> {
    set m | m in among && Released(Deps(g, m), done, n)
  }

  lemma ReleasedStep(g: Graph, seen: set<string>, job: string, done: seq<string>, n: string)
    requires job !in seen
    ensures var s := ReleasedAmong(g, seen, done, n);
      job !in s
      && ReleasedAmong(g, seen + {job}, done, n) == if Released(Deps(g, job), done, n) then s + {job} else s
  {
  }

  lemma ReleasedIsNewlyUnlocked(g: Graph, done: seq<string>, n: string)
    ensures ReleasedAmong(g, g.Keys, done, n) == NewlyUnlocked(g, done, n)
  {
    forall m
      ensures m in ReleasedAmong(g, g.Keys, done, n) <==> m in NewlyUnlocked(g, done, n)
    {
      PendingIsUnlocking(g, done, m);
      PendingIsUnlocking(g, done + [n], m);
    }
  }

  /** The in-degrees when n has been counted off the jobs in `seen` and not off the others. */
  ghost predicate CountsDuring(g: Graph, indeg: map<string, int>, seen: set<string>, done: seq<string>, n: string) {
    && indeg.Keys == Nodes(g)
    && forall m :: m in indeg ==> indeg[m] == Pending(Deps(g, m), if m in seen then done + [n] else done)
  }

  lemma CountsStep(g: Graph, indeg: map<string, int>, seen: set<string>, job: string, done: seq<string>, n: string)
    requires CountsDuring(g, indeg, seen, done, n) && job in g
    ensures CountsDuring(g, indeg[job := Pending(Deps(g, job), done + [n])], seen + {job}, done, n)
  {
  }

  lemma CountsEnd(g: Graph, indeg: map<string, int>, done: seq<string>, n: string)
    ensures Counts(g, indeg, done) ==> CountsDuring(g, indeg, {}, done, n)
    ensures CountsDuring(g, indeg, g.Keys, done, n) ==> Counts(g, indeg, done + [n])
  {
  }

  /** How far the release of n has come: the jobs in `seen` are counted down, and `list` has
      the ones this unlocked. */
  ghost predicate Releasing(g: Graph, indeg: map<string, int>, list: seq<string>, seen: set<string>,
                            done: seq<string>, n: string) {
    && CountsDuring(g, indeg, seen, done, n)
    && multiset(list) == multiset(ReleasedAmong(g, seen, done, n))
  }

  method ReleaseNext(needs: Graph, before: map<string, int>, waiting: seq<string>, job: string, n: string,
                     ghost seen: set<string>, ghost done: seq<string>)
    returns (indeg: map<string, int>, unlocked: seq<string>)
    requires Releasing(needs, before, waiting, seen, done, n)
    requires job in needs && job !in seen && n !in done
    ensures Releasing(needs, indeg, unlocked, seen + {job}, done, n)
  {
    CountsStep(needs, before, seen, job, done, n);
    ReleasedStep(needs, seen, job, done, n);
    ListGrows(waiting, ReleasedAmong(needs, seen, done, n), job);
    indeg, unlocked := ReleaseJob(before, waiting, job, needs[job], n, done);
  }

  /** Count n off every job that needs it; the jobs come in any order. */
  method Release(needs: Graph, before: map<string, int>, n: string, ghost done: seq<string>)
    returns (indeg: map<string, int>, unlocked: seq<string>)
    requires Counts(needs, before, done) && n !in done
    ensures Counts(needs, indeg, done + [n])
    ensures multiset(unlocked) == multiset(NewlyUnlocked(needs, done, n))
  {
    indeg, unlocked := before, [];
    CountsEnd(needs, indeg, done, n);
    ghost var seen := {};
    var todo := needs.Keys;
    assert ReleasedAmong(needs, seen, done, n) == {};
    while todo != {}
      invariant todo <= needs.Keys && seen == needs.Keys - todo
      invariant Releasing(needs, indeg, unlocked, seen, done, n)
      decreases todo
    {
      var job :| job in todo;
      indeg, unlocked := ReleaseNext(needs, indeg, unlocked, job, n, seen, done);
      OneMore(needs.Keys, todo, job);
      seen := seen + {job};
      todo := todo - {job};
    }
    CountsEnd(needs, indeg, done, n);
    ReleasedIsNewlyUnlocked(needs, done, n);
  }

  method ZeroCounts(needs: Graph, indeg: map<string, int>) returns (queue: seq<string>)
    requires Counts(needs, indeg, [])
    ensures multiset(queue) == multiset(Unlocked(needs, []))
  {
    queue := [];
    var todo := indeg.Keys;
    while todo != {}
      invariant todo <= indeg.Keys
      invariant multiset(queue) == multiset(ZeroOutside(indeg, todo))
      decreases todo
    {
      var n :| n in todo;
      ZeroStep(indeg, todo, n);
      ListGrows(queue, ZeroOutside(indeg, todo), n);
      todo := todo - {n};
      if indeg[n] == 0 {
        queue := queue + [n];
      }
    }
    ZeroIsUnlocked(needs, indeg);
  }

  ghost function ZeroOutside(indeg: map<string, int>, todo: set<string>): set<string> {
    set n | n in indeg && n !in todo && indeg[n] == 0
  }

  lemma ZeroStep(indeg: map<string, int>, todo: set<string>, n: string)
    requires n in todo && n in indeg
    ensures n !in ZeroOutside(indeg, todo)
    ensures ZeroOutside(indeg, todo - {n})
         == if indeg[n] == 0 then ZeroOutside(indeg, todo) + {n} else ZeroOutside(indeg, todo)
  {
  }

  lemma ZeroIsUnlocked(needs: Graph, indeg: map<string, int>)
    requires Counts(needs, indeg, [])
    ensures ZeroOutside(indeg, {}) == Unlocked(needs, [])
  {
    forall n | n in Nodes(needs)
      ensures n in Unlocked(needs, []) <==> indeg[n] == 0
    {
      PendingIsUnlocking(needs, [], n);
    }
  }

  /** Whatever order the maps are walked in, the result is the one order of the specification. */
  method Topological(needs: Graph) returns (order: seq<string>)
    ensures order == KahnOrder(needs)
  {
    var indeg := CountNeeds(needs);
    var queue := ZeroCounts(needs, indeg);
    queue := SortSlice(queue);
    SortedIsAscending(queue, Unlocked(needs, []));
    order := [];
    assert order + queue == queue;
    while |queue| > 0
      invariant Counts(needs, indeg, order)
      invariant Frontier(needs, queue, order)
      invariant KahnFrom(needs, queue, order) == KahnOrder(needs)
      decreases |Nodes(needs)| - |order|
    {
      FrontierIsBounded(needs, queue, order);
      FrontierAdvances(needs, queue, order);
      QueueHeadIsNew(needs, queue, order);
      ghost var done := order;
      var n := queue[0];
      queue := queue[1..];
      order := order + [n];
      var unlocked;
      indeg, unlocked := Release(needs, indeg, n, done);
      unlocked := SortSlice(unlocked);
      SortedIsAscending(unlocked, NewlyUnlocked(needs, done, n));
      queue := queue + unlocked;
    }
  }

  lemma QueueHeadIsNew(g: Graph, queue: seq<string>, done: seq<string>)
    requires Frontier(g, queue, done) && queue != []
    ensures queue[0] !in done
  {
    var n := queue[0];
    assert n in queue;
    assert multiset(done + queue)[n] == multiset(done)[n] + multiset(queue)[n] <= 1;
  }
}
