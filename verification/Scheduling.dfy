/** Which jobs may start, which a failure blocks, and what every run of the scheduler keeps. */
module Scheduling {
  import opened Collections
  import opened Text
  import opened Graphs
  import opened Dags

  datatype RunStatus =
    | Unset | Pending | Queued | Blocked | Waiting | Running
    | Success | Failed | Cancelled | Skipped | Expired

  type Statuses = map<string, RunStatus>

  function StatusOf(st: Statuses, job: string): RunStatus {
    if job in st then st[job] else Unset
  }

  function Continues(coe: map<string, bool>, job: string): bool {
    job in coe && coe[job]
  }

  predicate MayStart(s: RunStatus) { s.Queued? || s.Pending? || s.Unset? }

  /** A need that does not hold its dependents back. */
  predicate Satisfied(st: Statuses, coe: map<string, bool>, dep: string) {
    var s := StatusOf(st, dep);
    s.Success? || ((s.Failed? || s.Cancelled? || s.Skipped? || s.Expired?) && Continues(coe, dep))
  }

  predicate IsReady(d: Dag, st: Statuses, coe: map<string, bool>, job: string) {
    MayStart(StatusOf(st, job)) && forall dep :: dep in Deps(d.needs, job) ==> Satisfied(st, coe, dep)
  }

  ghost function ReadySet(d: Dag, st: Statuses, coe: map<string, bool>): set<string> {
    set job | job in d.needs && IsReady(d, st, coe, job)
  }

  ghost function Elems(s: seq<string>): set<string> { set x | x in s }

  lemma ElemsStep(s: seq<string>, k: nat)
    requires k < |s|
    ensures Elems(s[..k + 1]) == Elems(s[..k]) + {s[k]}
  {
    assert s[..k + 1] == s[..k] + [s[k]];
  }

  /** One job of the readiness scan. */
  method CheckReady(deps: seq<string>, st: Statuses, coe: map<string, bool>) returns (ok: bool)
    ensures ok <==> forall dep :: dep in deps ==> Satisfied(st, coe, dep)
  {
    ok := true;
    var k := 0;
    while k < |deps|
      invariant 0 <= k <= |deps|
      invariant ok <==> forall i :: 0 <= i < k ==> Satisfied(st, coe, deps[i])
    {
      match StatusOf(st, deps[k]) {
        case Success =>
        case Failed | Cancelled | Skipped | Expired =>
          if !Continues(coe, deps[k]) {
            ok := false;
          }
        case _ => ok := false;
      }
      k := k + 1;
    }
  }

  /** The ready jobs in ascending order, whatever order the graph is walked in. */
  method ReadyJobs(d: Dag, st: Statuses, coe: map<string, bool>) returns (ready: seq<string>)
    ensures ready == Ascending(ReadySet(d, st, coe))
  {
    ready := [];
    ghost var found: set<string> := {};
    var todo := d.needs.Keys;
    while todo != {}
      invariant todo <= d.needs.Keys && found !! todo
      invariant forall job :: job in found <==> job in d.needs && job !in todo && IsReady(d, st, coe, job)
      invariant multiset(ready) == multiset(found)
      decreases todo
    {
      var job :| job in todo;
      todo := todo - {job};
      if MayStart(StatusOf(st, job)) {
        var ok := CheckReady(d.needs[job], st, coe);
        if ok {
          ListGrows(ready, found, job);
          ready, found := ready + [job], found + {job};
        }
      }
    }
    assert found == ReadySet(d, st, coe);
    ready := SortSlice(ready);
    SortedIsAscending(ready, found);
  }

  // ---- blocking dependents ----

  /** Statuses the failure walk passes through. */
  predicate Open(s: RunStatus) { !(s.Success? || s.Failed? || s.Cancelled? || s.Running?) }

  /** p leads from job to x along dependents, all of them open. */
  ghost predicate Leads(d: Dag, st: Statuses, job: string, x: string, p: seq<string>) {
    && |p| >= 2 && p[0] == job && p[|p| - 1] == x
    && IsPath(d.next, p)
    && forall i :: 1 <= i < |p| ==> Open(StatusOf(st, p[i]))
  }

  ghost predicate Hit(d: Dag, st: Statuses, job: string, x: string) {
    exists p :: Leads(d, st, job, x, p)
  }

  /** Hit, one dependent at a time. */
  lemma HitStep(d: Dag, st: Statuses, job: string, x: string)
    ensures Hit(d, st, job, x) <==>
      exists n :: n in Deps(d.next, job) && Open(StatusOf(st, n)) && (x == n || Hit(d, st, n, x))
  {
    if Hit(d, st, job, x) {
      var p :| Leads(d, st, job, x, p);
      assert p[1] in Deps(d.next, p[0]);
      if |p| > 2 {
        var q := p[1..];
        forall i | 0 <= i < |q| - 1
          ensures q[i + 1] in Deps(d.next, q[i])
        {
          assert p[i + 2] in Deps(d.next, p[i + 1]);
        }
        assert Leads(d, st, p[1], x, q);
      }
    }
    if n :| n in Deps(d.next, job) && Open(StatusOf(st, n)) && (x == n || Hit(d, st, n, x)) {
      if x == n {
        assert Leads(d, st, job, x, [job, n]);
      } else {
        var q :| Leads(d, st, n, x, q);
        var p := [job] + q;
        forall i | 0 <= i < |p| - 1
          ensures p[i + 1] in Deps(d.next, p[i])
        {
          assert i > 0 ==> q[i] in Deps(d.next, q[i - 1]);
        }
        assert Leads(d, st, job, x, p);
      }
    }
  }

  /** How many jobs of the order come no earlier than this one. */
  ghost function Remaining(order: seq<string>, job: string): (r: nat)
    ensures r <= |order|
  {
    if order == [] then 0
    else if order[0] == job then |order|
    else Remaining(order[1..], job)
  }

  lemma {:induction false} RemainingOfLater(order: seq<string>, i: nat, job: string)
    requires i < |order| && job in order[..i] && (forall k, l :: 0 <= k < l < |order| ==> order[k] != order[l])
    ensures Remaining(order, order[i]) == |order| - i < Remaining(order, job)
  {
    if order[0] == job {
      RemainingAt(order, i);
    } else {
      assert order[..i][1..] == order[1..][..i - 1];
      RemainingOfLater(order[1..], i - 1, job);
    }
  }

  lemma {:induction false} RemainingAt(order: seq<string>, i: nat)
    requires i < |order| && forall k, l :: 0 <= k < l < |order| ==> order[k] != order[l]
    ensures Remaining(order, order[i]) == |order| - i
  {
    if i > 0 {
      RemainingAt(order[1..], i - 1);
    }
  }

  lemma OnceEachIsDistinct(order: seq<string>, s: set<string>)
    requires multiset(order) == multiset(s)
    ensures forall k, l :: 0 <= k < l < |order| ==> order[k] != order[l]
  {
    forall k, l | 0 <= k < l < |order|
      ensures order[k] != order[l]
    {
      assert order == order[..l] + order[l..];
      assert order[k] in order[..l] && order[l] in order[l..];
      assert multiset(order)[order[k]] == multiset(order[..l])[order[k]] + multiset(order[l..])[order[k]] <= 1;
    }
  }

  /** Dependents and needs are two views of one relation, within the graph. */
  lemma NextMeansNeed(d: Dag, a: string, b: string)
    requires Schedulable(d)
    ensures b in Deps(d.next, a) <==> a in Deps(d.needs, b)
    ensures b in Deps(d.next, a) ==> a in d.needs && b in d.needs
  {
    assert multiset(Deps(d.next, a))[b] == multiset(Deps(d.needs, b))[a];
    assert b in Deps(d.next, a) <==> b in multiset(Deps(d.next, a));
    assert a in Deps(d.needs, b) <==> a in multiset(Deps(d.needs, b));
  }

  /** A dependent has fewer jobs of the order to go. */
  lemma DependentsComeLater(d: Dag, a: string, b: string)
    requires Schedulable(d) && b in Deps(d.next, a)
    ensures Remaining(d.order, b) < Remaining(d.order, a)
  {
    NextMeansNeed(d, a, b);
    OnceEachIsDistinct(d.order, d.needs.Keys);
    assert b in multiset(d.order);
    var i :| 0 <= i < |d.order| && d.order[i] == b;
    assert a in d.order[..i];
    RemainingOfLater(d.order, i, a);
  }

  /** The walk over dependents. A job may be listed once per path; as a set the additions are
      the jobs reached through open ones that are not blocked yet. */
  method Walk(d: Dag, st: Statuses, job: string, before: seq<string>) returns (blocked: seq<string>)
    requires Schedulable(d)
    ensures forall x :: x in blocked <==> x in before || (Hit(d, st, job, x) && !StatusOf(st, x).Blocked?)
    decreases Remaining(d.order, job)
  {
    blocked := before;
    var nexts := Deps(d.next, job);
    var k := 0;
    while k < |nexts|
      invariant 0 <= k <= |nexts|
      invariant forall x :: x in blocked <==> x in before || (HitBy(d, st, nexts[..k], x) && !StatusOf(st, x).Blocked?)
    {
      var next := nexts[k];
      HitByStep(d, st, nexts, k);
      var s := StatusOf(st, next);
      if !(s.Success? || s.Failed? || s.Cancelled? || s.Running?) {
        if !s.Blocked? {
          blocked := blocked + [next];
        }
        DependentsComeLater(d, job, next);
        blocked := Walk(d, st, next, blocked);
      }
      k := k + 1;
    }
    assert nexts[..|nexts|] == nexts;
    forall x
      ensures Hit(d, st, job, x) <==> HitBy(d, st, nexts, x)
    {
      HitStep(d, st, job, x);
    }
  }

  /** Reached through one of these dependents. */
  ghost predicate HitBy(d: Dag, st: Statuses, nexts: seq<string>, x: string) {
    exists n :: n in nexts && Open(StatusOf(st, n)) && (x == n || Hit(d, st, n, x))
  }

  lemma HitByStep(d: Dag, st: Statuses, nexts: seq<string>, k: nat)
    requires k < |nexts|
    ensures forall x :: HitBy(d, st, nexts[..k + 1], x) <==>
      HitBy(d, st, nexts[..k], x) || (Open(StatusOf(st, nexts[k])) && (x == nexts[k] || Hit(d, st, nexts[k], x)))
  {
    assert nexts[..k + 1] == nexts[..k] + [nexts[k]];
  }

  /** The jobs a failure of `job` blocks. */
  ghost function BlockedSet(d: Dag, st: Statuses, job: string): set<string> {
    set x | x in d.needs && Hit(d, st, job, x) && !StatusOf(st, x).Blocked?
  }

  lemma HitsAreJobs(d: Dag, st: Statuses, job: string, x: string)
    requires Schedulable(d) && Hit(d, st, job, x)
    ensures x in d.needs && Open(StatusOf(st, x))
  {
    var p :| Leads(d, st, job, x, p);
    assert p[|p| - 1] in Deps(d.next, p[|p| - 2]);
    NextMeansNeed(d, p[|p| - 2], x);
  }

  method BlockedByFailure(d: Dag, failedJob: string, continueOnError: bool, st: Statuses) returns (blocked: seq<string>)
    requires Schedulable(d)
    ensures Elems(blocked) == if continueOnError then {} else BlockedSet(d, st, failedJob)
  {
    if continueOnError {
      return [];
    }
    blocked := Walk(d, st, failedJob, []);
    forall x | Hit(d, st, failedJob, x)
      ensures x in d.needs
    {
      HitsAreJobs(d, st, failedJob, x);
    }
  }
}
