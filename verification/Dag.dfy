/** Building the job dependency graph: validation, cycle check and order. */
module Dags {
  import opened Collections
  import opened Graphs
  import opened Ordering

  datatype Job = Job(id: string, needs: seq<string>, continueOnError: bool)

  datatype Issue =
    | MissingJobId(at: nat)
    | DuplicateJob(id: string)
    | EmptyNeed(job: string, at: nat)
    | UnknownJob(job: string, at: nat, need: string)
    | SelfDependency(job: string, at: nat)
    | Cycle(text: string)

  datatype Dag = Dag(order: seq<string>, needs: Graph, next: Graph)

  ghost function Ids(jobs: seq<Job>): set<string> {
    set i | 0 <= i < |jobs| && jobs[i].id != "" :: jobs[i].id
  }

  /** Something is wrong with the id of one of the first n jobs. */
  ghost predicate IdDefect(jobs: seq<Job>, n: nat, issue: Issue)
    requires n <= |jobs|
  {
    match issue
    case MissingJobId(at) => at < n && jobs[at].id == ""
    case DuplicateJob(id) => id != "" && exists i, j :: 0 <= i < j < n && jobs[i].id == id && jobs[j].id == id
    case _ => false
  }

  /** Something is wrong with one of the first n needs of job j. */
  ghost predicate NeedDefectAt(ids: set<string>, j: Job, n: nat, issue: Issue)
    requires n <= |j.needs|
  {
    match issue
    case EmptyNeed(job, at) => job == j.id && at < n && j.needs[at] == ""
    case UnknownJob(job, at, need) =>
      job == j.id && at < n && j.needs[at] == need && need != "" && need !in ids
    case SelfDependency(job, at) => job == j.id && at < n && j.needs[at] == j.id && j.id in ids
    case _ => false
  }

  /** Something is wrong with a need of one of the first n jobs. */
  ghost predicate NeedDefect(ids: set<string>, jobs: seq<Job>, n: nat, issue: Issue)
    requires n <= |jobs|
  {
    exists i :: 0 <= i < n && jobs[i].id != "" && NeedDefectAt(ids, jobs[i], |jobs[i].needs|, issue)
  }

  /** The needs of j that make it into the graph: those that name another job. */
  ghost function Declared(ids: set<string>, j: Job): set<string> {
    set k | 0 <= k < |j.needs| && j.needs[k] in ids && j.needs[k] != j.id && j.needs[k] != "" :: j.needs[k]
  }

  /** The same, for the first n needs only. */
  ghost function Seen(ids: set<string>, j: Job, n: nat): set<string>
    requires n <= |j.needs|
  {
    if n == 0 then {}
    else
      var d := j.needs[n - 1];
      Seen(ids, j, n - 1) + if d in ids && d != j.id && d != "" then {d} else {}
  }

  lemma {:induction false} SeenMembers(ids: set<string>, j: Job, n: nat, d: string)
    requires n <= |j.needs|
    ensures d in Seen(ids, j, n) <==> d in ids && d != j.id && d != "" && d in j.needs[..n]
  {
    if n > 0 {
      SeenMembers(ids, j, n - 1, d);
      assert j.needs[..n] == j.needs[..n - 1] + [j.needs[n - 1]];
    }
  }

  lemma AllSeen(ids: set<string>, j: Job)
    ensures Seen(ids, j, |j.needs|) == Declared(ids, j)
  {
    assert j.needs[..|j.needs|] == j.needs;
    forall d
      ensures d in Seen(ids, j, |j.needs|) <==> d in Declared(ids, j)
    {
      SeenMembers(ids, j, |j.needs|, d);
    }
  }

  /** One of the first n jobs is called a and declares a need of d. */
  ghost predicate DeclaredEdge(ids: set<string>, jobs: seq<Job>, n: nat, a: string, d: string)
    requires n <= |jobs|
  {
    exists i :: 0 <= i < n && jobs[i].id != "" && jobs[i].id == a && d in Declared(ids, jobs[i])
  }

  /** next lists b under a as often as needs lists a under b. */
  ghost predicate Transposed(needs: Graph, next: Graph) {
    && next.Keys == needs.Keys
    && forall a, b :: multiset(Deps(next, a))[b] == multiset(Deps(needs, b))[a]
  }

  ghost predicate UniqueIds(jobs: seq<Job>, n: nat)
    requires n <= |jobs|
  {
    forall i, j :: 0 <= i < j < n && jobs[i].id != "" ==> jobs[i].id != jobs[j].id
  }

  /** The first loop: register ids and report missing and repeated ones. */
  method RegisterJobs(jobs: seq<Job>) returns (needs: Graph, next: Graph, issues: seq<Issue>)
    ensures needs.Keys == Ids(jobs) && next == needs && forall a :: a in needs ==> needs[a] == []
    ensures forall issue :: issue in issues <==> IdDefect(jobs, |jobs|, issue)
  {
    needs, next, issues := map[], map[], [];
    var i := 0;
    while i < |jobs|
      invariant 0 <= i <= |jobs|
      invariant next == needs && forall a :: a in needs ==> needs[a] == []
      invariant forall a :: a in needs <==> a != "" && exists k :: 0 <= k < i && jobs[k].id == a
      invariant forall issue :: issue in issues <==> IdDefect(jobs, i, issue)
    {
      var j := jobs[i];
      if j.id == "" {
        issues := issues + [MissingJobId(i)];
      } else if j.id in needs {
        issues := issues + [DuplicateJob(j.id)];
      } else {
        needs := needs[j.id := []];
        next := next[j.id := []];
      }
      i := i + 1;
    }
  }

  /** `added` lists the declared ones of the first k needs of j once each; they are new under
      j.id, and j.id is new under each of them. */
  ghost predicate Entered(j: Job, k: nat, needs: Graph, next: Graph, needs': Graph, next': Graph, added: seq<string>)
    requires k <= |j.needs|
  {
    && j.id in needs && next.Keys == needs.Keys
    && multiset(added) == multiset(Seen(needs.Keys, j, k))
    && needs' == needs[j.id := needs[j.id] + added]
    && next' == Linked(next, added, j.id)
  }

  /** id is a dependent of every job in the list, besides those it had. */
  function Linked(next: Graph, list: seq<string>, id: string): Graph {
    map a | a in next :: if a in list then next[a] + [id] else next[a]
  }

  lemma EnteredNeed(j: Job, k: nat, needs: Graph, next: Graph, needs0: Graph, next0: Graph, added0: seq<string>)
    requires k < |j.needs| && Entered(j, k, needs, next, needs0, next0, added0)
    requires var n := j.needs[k]; n in needs && n != j.id && n != "" && n !in Seen(needs.Keys, j, k)
    ensures var n := j.needs[k]; n in next0 && j.id in needs0
    ensures var n := j.needs[k];
      Entered(j, k + 1, needs, next, needs0[j.id := needs0[j.id] + [n]], next0[n := next0[n] + [j.id]], added0 + [n])
    ensures Seen(needs.Keys, j, k + 1) == Seen(needs.Keys, j, k) + {j.needs[k]}
  {
    var n, seen := j.needs[k], Seen(needs.Keys, j, k);
    ListGrows(added0, seen, n);
    ListedOnce(added0, seen, n);
    Associate(needs[j.id], added0, [n]);
  }

  /** One need of j that passes all checks: it is entered unless it was seen before. */
  method AddNeed(j: Job, k: nat, p: Progress, ghost needs: Graph, ghost next: Graph) returns (q: Progress)
    requires k < |j.needs| && Entered(j, k, needs, next, p.needs, p.next, p.added)
    requires p.seen == Seen(needs.Keys, j, k)
    requires var n := j.needs[k]; n in needs && n != j.id && n != ""
    ensures Entered(j, k + 1, needs, next, q.needs, q.next, q.added)
    ensures q.seen == Seen(needs.Keys, j, k + 1) && q.issues == p.issues
  {
    var n := j.needs[k];
    if n in p.seen {
      return p;
    }
    EnteredNeed(j, k, needs, next, p.needs, p.next, p.added);
    q := Progress(p.needs[j.id := p.needs[j.id] + [n]], p.next[n := p.next[n] + [j.id]],
                  p.seen + {n}, p.issues, p.added + [n]);
  }

  /** What the checks on need k of j report. */
  function Verdict(ids: set<string>, j: Job, k: nat): seq<Issue>
    requires k < |j.needs|
  {
    var n := j.needs[k];
    if n == "" then [EmptyNeed(j.id, k)]
    else if n !in ids then [UnknownJob(j.id, k, n)]
    else if n == j.id then [SelfDependency(j.id, k)]
    else []
  }

  /** What the checks on the first k needs of j report, in order. */
  function Reports(ids: set<string>, j: Job, k: nat): seq<Issue>
    requires k <= |j.needs|
  {
    if k == 0 then [] else Reports(ids, j, k - 1) + Verdict(ids, j, k - 1)
  }

  lemma ReportsStep(before: seq<Issue>, ids: set<string>, j: Job, k: nat)
    requires k < |j.needs|
    ensures before + Reports(ids, j, k + 1) == before + Reports(ids, j, k) + Verdict(ids, j, k)
  {
    Associate(before, Reports(ids, j, k), Verdict(ids, j, k));
  }

  lemma {:induction false} ReportsAreTheDefects(ids: set<string>, j: Job, k: nat, issue: Issue)
    requires k <= |j.needs| && j.id in ids && "" !in ids
    ensures issue in Reports(ids, j, k) <==> NeedDefectAt(ids, j, k, issue)
  {
    if k > 0 {
      ReportsAreTheDefects(ids, j, k - 1, issue);
    }
  }

  /** What the loop over the needs of one job carries: the graph, the needs seen, the issues, and
      the needs entered, in order. */
  datatype Progress = Progress(needs: Graph, next: Graph, seen: set<string>, issues: seq<Issue>, added: seq<string>)

  /** The body of the second loop: enter the needs of one job. */
  method AddNeeds(j: Job, needs: Graph, next: Graph, before: seq<Issue>)
    returns (needs': Graph, next': Graph, issues: seq<Issue>, ghost added: seq<string>)
    requires j.id in needs && next.Keys == needs.Keys
    ensures Entered(j, |j.needs|, needs, next, needs', next', added)
    ensures issues == before + Reports(needs.Keys, j, |j.needs|)
  {
    var p := Progress(needs, next, {}, before, []);
    NothingEntered(j, p);
    p := EnterAll(j, p);
    needs', next', issues, added := p.needs, p.next, p.issues, p.added;
  }

  method EnterAll(j: Job, start: Progress) returns (p: Progress)
    requires AtNeed(j, 0, start.needs, start.next, start.issues, start)
    ensures AtNeed(j, |j.needs|, start.needs, start.next, start.issues, p)
  {
    p := start;
    var k := 0;
    while k < |j.needs|
      invariant 0 <= k <= |j.needs|
      invariant AtNeed(j, k, start.needs, start.next, start.issues, p)
    {
      p := EnterNeed(j, k, p, start.needs, start.next, start.issues);
      k := k + 1;
    }
  }

  /** Where the loop over the needs of j stands before need k. */
  ghost predicate AtNeed(j: Job, k: nat, needs: Graph, next: Graph, before: seq<Issue>, p: Progress)
    requires k <= |j.needs|
  {
    && Entered(j, k, needs, next, p.needs, p.next, p.added)
    && p.seen == Seen(needs.Keys, j, k)
    && p.issues == before + Reports(needs.Keys, j, k)
  }

  lemma NothingEntered(j: Job, p: Progress)
    requires j.id in p.needs && p.next.Keys == p.needs.Keys && p.seen == {} && p.added == []
    ensures AtNeed(j, 0, p.needs, p.next, p.issues, p)
  {
    NothingAdded(p.needs[j.id]);
    NothingAdded(p.issues);
  }

  /** One need of j: checked, reported or entered. */
  method EnterNeed(j: Job, k: nat, p: Progress, ghost needs: Graph, ghost next: Graph, ghost before: seq<Issue>)
    returns (q: Progress)
    requires k < |j.needs| && AtNeed(j, k, needs, next, before, p)
    ensures AtNeed(j, k + 1, needs, next, before, q)
  {
    var issue := CheckNeed(j, k, p.needs.Keys);
    ReportsStep(before, needs.Keys, j, k);
    if issue == [] {
      NothingAdded(p.issues);
      q := AddNeed(j, k, p, needs, next);
    } else {
      RefusedNeed(needs.Keys, j, k);
      q := p.(issues := p.issues + issue);
    }
  }

  lemma RefusedNeed(ids: set<string>, j: Job, k: nat)
    requires k < |j.needs| && Verdict(ids, j, k) != []
    ensures Seen(ids, j, k + 1) == Seen(ids, j, k)
  {
  }

  /** The three checks on a need, in order. */
  method CheckNeed(j: Job, k: nat, ids: set<string>) returns (issue: seq<Issue>)
    requires k < |j.needs|
    ensures issue == Verdict(ids, j, k)
  {
    var n := j.needs[k];
    if n == "" {
      return [EmptyNeed(j.id, k)];
    }
    if n !in ids {
      return [UnknownJob(j.id, k, n)];
    }
    if n == j.id {
      return [SelfDependency(j.id, k)];
    }
    return [];
  }

  lemma ListedOnce(list: seq<string>, s: set<string>, x: string)
    requires multiset(list) == multiset(s)
    ensures multiset(list)[x] == if x in list then 1 else 0
    ensures x in list <==> x in s
  {
    assert x in list <==> x in multiset(list);
  }

  /** What the second loop has built from the first n jobs. */
  ghost predicate BuiltFrom(jobs: seq<Job>, n: nat, needs: Graph, next: Graph)
    requires n <= |jobs|
  {
    && Transposed(needs, next)
    && (forall a, d :: a in needs ==> (d in needs[a] <==> DeclaredEdge(needs.Keys, jobs, n, a, d)))
    && (UniqueIds(jobs, n) ==> NeedsAreDeclared(jobs, n, needs))
  }

  ghost predicate NeedsAreDeclared(jobs: seq<Job>, n: nat, needs: Graph)
    requires n <= |jobs|
  {
    forall i :: 0 <= i < n && jobs[i].id in needs ==>
      multiset(needs[jobs[i].id]) == multiset(Declared(needs.Keys, jobs[i]))
  }

  lemma AppendedCount(list: seq<string>, more: seq<string>, x: string)
    ensures multiset(list + more)[x] == multiset(list)[x] + multiset(more)[x]
  {
  }

  lemma EnteredCounts(j: Job, needs: Graph, next: Graph, needs': Graph, next': Graph, added: seq<string>,
                      a: string, b: string)
    requires Entered(j, |j.needs|, needs, next, needs', next', added) && Transposed(needs, next)
    ensures multiset(Deps(next', a))[b] == multiset(Deps(needs', b))[a]
  {
    ListedOnce(added, Seen(needs.Keys, j, |j.needs|), a);
    SeenMembers(needs.Keys, j, |j.needs|, a);
    AppendedCount(needs[j.id], added, a);
    AppendedCount(Deps(next, a), [j.id], b);
    assert multiset(Deps(next, a))[b] == multiset(Deps(needs, b))[a];
  }

  lemma EnteredTransposes(j: Job, needs: Graph, next: Graph, needs': Graph, next': Graph, added: seq<string>)
    requires Entered(j, |j.needs|, needs, next, needs', next', added) && Transposed(needs, next)
    ensures Transposed(needs', next')
  {
    assert needs'.Keys == needs.Keys;
    forall a, b
      ensures multiset(Deps(next', a))[b] == multiset(Deps(needs', b))[a]
    {
      EnteredCounts(j, needs, next, needs', next', added, a, b);
    }
  }

  lemma EnteredEdge(jobs: seq<Job>, n: nat, needs: Graph, next: Graph, needs': Graph, next': Graph,
                    added: seq<string>, a: string, d: string)
    requires n < |jobs| && jobs[n].id != ""
    requires Entered(jobs[n], |jobs[n].needs|, needs, next, needs', next', added)
    requires BuiltFrom(jobs, n, needs, next) && a in needs
    ensures d in needs'[a] <==> DeclaredEdge(needs.Keys, jobs, n + 1, a, d)
  {
    AllSeen(needs.Keys, jobs[n]);
    ListedOnce(added, Declared(needs.Keys, jobs[n]), d);
    assert d in needs[a] <==> DeclaredEdge(needs.Keys, jobs, n, a, d);
  }

  lemma FirstOfItsIdIsEmpty(jobs: seq<Job>, n: nat, needs: Graph, next: Graph)
    requires n < |jobs| && jobs[n].id in needs && jobs[n].id != ""
    requires BuiltFrom(jobs, n, needs, next) && UniqueIds(jobs, n + 1)
    ensures needs[jobs[n].id] == []
  {
    var listed := needs[jobs[n].id];
    forall d
      ensures multiset(listed)[d] == 0
    {
      assert d in listed <==> DeclaredEdge(needs.Keys, jobs, n, jobs[n].id, d);
    }
    assert multiset(listed) == multiset{};
    assert |listed| == |multiset(listed)|;
  }

  lemma EnteredDeclares(jobs: seq<Job>, n: nat, needs: Graph, needs': Graph, added: seq<string>)
    requires n < |jobs| && jobs[n].id in needs && UniqueIds(jobs, n + 1) && "" !in needs
    requires needs[jobs[n].id] == [] && NeedsAreDeclared(jobs, n, needs)
    requires multiset(added) == multiset(Seen(needs.Keys, jobs[n], |jobs[n].needs|))
    requires needs' == needs[jobs[n].id := needs[jobs[n].id] + added]
    ensures NeedsAreDeclared(jobs, n + 1, needs')
  {
    AllSeen(needs.Keys, jobs[n]);
    assert [] + added == added;
    assert needs'.Keys == needs.Keys;
    forall i | 0 <= i < n + 1 && jobs[i].id in needs'
      ensures multiset(needs'[jobs[i].id]) == multiset(Declared(needs'.Keys, jobs[i]))
    {
      if i < n {
        assert jobs[i].id != jobs[n].id;
      }
    }
  }

  lemma EnteredEdges(jobs: seq<Job>, n: nat, needs: Graph, next: Graph, needs': Graph, next': Graph, added: seq<string>)
    requires n < |jobs| && jobs[n].id != ""
    requires Entered(jobs[n], |jobs[n].needs|, needs, next, needs', next', added) && BuiltFrom(jobs, n, needs, next)
    ensures forall a, d :: a in needs' ==> (d in needs'[a] <==> DeclaredEdge(needs'.Keys, jobs, n + 1, a, d))
  {
    assert needs'.Keys == needs.Keys;
    forall a, d | a in needs'
      ensures d in needs'[a] <==> DeclaredEdge(needs'.Keys, jobs, n + 1, a, d)
    {
      EnteredEdge(jobs, n, needs, next, needs', next', added, a, d);
    }
  }

  lemma EnteredBuilds(jobs: seq<Job>, n: nat, needs: Graph, next: Graph, needs': Graph, next': Graph,
                      added: seq<string>)
    requires n < |jobs| && jobs[n].id != "" && "" !in needs
    requires Entered(jobs[n], |jobs[n].needs|, needs, next, needs', next', added) && BuiltFrom(jobs, n, needs, next)
    ensures BuiltFrom(jobs, n + 1, needs', next')
  {
    EnteredTransposes(jobs[n], needs, next, needs', next', added);
    EnteredEdges(jobs, n, needs, next, needs', next', added);
    if UniqueIds(jobs, n + 1) {
      FirstOfItsIdIsEmpty(jobs, n, needs, next);
      assert UniqueIds(jobs, n);
      EnteredDeclares(jobs, n, needs, needs', added);
    }
  }

  lemma NamelessAddsNothing(jobs: seq<Job>, n: nat, needs: Graph, next: Graph)
    requires n < |jobs| && jobs[n].id == "" && "" !in needs && BuiltFrom(jobs, n, needs, next)
    ensures BuiltFrom(jobs, n + 1, needs, next)
  {
    forall a, d | a in needs
      ensures DeclaredEdge(needs.Keys, jobs, n + 1, a, d) <==> DeclaredEdge(needs.Keys, jobs, n, a, d)
    {
    }
    if UniqueIds(jobs, n + 1) {
      assert UniqueIds(jobs, n);
    }
  }

  /** issues is `before` and the defects in the needs of the first n jobs. */
  ghost predicate AllReported(ids: set<string>, jobs: seq<Job>, n: nat, before: seq<Issue>, issues: seq<Issue>)
    requires n <= |jobs|
  {
    forall issue :: issue in issues <==> issue in before || NeedDefect(ids, jobs, n, issue)
  }

  lemma AllReportedGrows(ids: set<string>, jobs: seq<Job>, n: nat, before: seq<Issue>, issues: seq<Issue>,
                         more: seq<Issue>)
    requires n < |jobs| && AllReported(ids, jobs, n, before, issues) && ids == Ids(jobs)
    requires more == if jobs[n].id != "" then issues + Reports(ids, jobs[n], |jobs[n].needs|) else issues
    ensures AllReported(ids, jobs, n + 1, before, more)
  {
    forall issue
      ensures issue in more <==> issue in before || NeedDefect(ids, jobs, n + 1, issue)
    {
      if jobs[n].id != "" {
        ReportsAreTheDefects(ids, jobs[n], |jobs[n].needs|, issue);
      }
      assert NeedDefect(ids, jobs, n + 1, issue) <==>
        NeedDefect(ids, jobs, n, issue) || (jobs[n].id != "" && NeedDefectAt(ids, jobs[n], |jobs[n].needs|, issue));
    }
  }

  method EnterJob(jobs: seq<Job>, n: nat, needs0: Graph, next0: Graph, issues0: seq<Issue>, ghost before: seq<Issue>)
    returns (needs: Graph, next: Graph, issues: seq<Issue>)
    requires n < |jobs| && needs0.Keys == Ids(jobs)
    requires BuiltFrom(jobs, n, needs0, next0) && AllReported(needs0.Keys, jobs, n, before, issues0)
    ensures needs.Keys == needs0.Keys
    ensures BuiltFrom(jobs, n + 1, needs, next) && AllReported(needs.Keys, jobs, n + 1, before, issues)
  {
    var j := jobs[n];
    if j.id != "" {
      ghost var added: seq<string>;
      needs, next, issues, added := AddNeeds(j, needs0, next0, issues0);
      EnteredBuilds(jobs, n, needs0, next0, needs, next, added);
    } else {
      needs, next, issues := needs0, next0, issues0;
      NamelessAddsNothing(jobs, n, needs, next);
    }
    AllReportedGrows(needs0.Keys, jobs, n, before, issues0, issues);
  }

  /** The second loop. */
  method EnterNeeds(jobs: seq<Job>, needs0: Graph, next0: Graph, issues0: seq<Issue>)
    returns (needs: Graph, next: Graph, issues: seq<Issue>)
    requires needs0.Keys == Ids(jobs) && next0 == needs0 && forall a :: a in needs0 ==> needs0[a] == []
    ensures needs.Keys == Ids(jobs) && BuiltFrom(jobs, |jobs|, needs, next)
    ensures AllReported(Ids(jobs), jobs, |jobs|, issues0, issues)
  {
    needs, next, issues := needs0, next0, issues0;
    var i := 0;
    while i < |jobs|
      invariant 0 <= i <= |jobs|
      invariant needs.Keys == needs0.Keys && BuiltFrom(jobs, i, needs, next)
      invariant AllReported(needs.Keys, jobs, i, issues0, issues)
    {
      needs, next, issues := EnterJob(jobs, i, needs, next, issues, issues0);
      i := i + 1;
    }
  }

  /** A graph that may be scheduled: the order lists every job once, after all its needs. */
  ghost predicate Schedulable(d: Dag) {
    && Transposed(d.needs, d.next)
    && multiset(d.order) == multiset(d.needs.Keys)
    && Ranked(d.needs, d.order)
    && forall a, n :: a in d.needs && n in d.needs[a] ==> n in d.needs
  }

  method BuildDag(jobs: seq<Job>) returns (d: Dag, issues: seq<Issue>)
    ensures forall issue: Issue :: !issue.Cycle? ==>
      (issue in issues <==> IdDefect(jobs, |jobs|, issue) || NeedDefect(Ids(jobs), jobs, |jobs|, issue))
    ensures (exists text :: Cycle(text) in issues) <==> Cyclic(d.needs)
    ensures forall text :: Cycle(text) in issues ==> SpellsCycle(d.needs, text)
    ensures d.needs.Keys == Ids(jobs) && Transposed(d.needs, d.next)
    ensures forall a, n :: a in d.needs ==> (n in d.needs[a] <==> DeclaredEdge(Ids(jobs), jobs, |jobs|, a, n))
    ensures issues == [] ==> Schedulable(d) && d.order == KahnOrder(d.needs)
    ensures issues == [] ==> UniqueIds(jobs, |jobs|) && NeedsAreDeclared(jobs, |jobs|, d.needs)
    ensures issues != [] ==> d.order == []
  {
    var needs, next;
    needs, next, issues := RegisterJobs(jobs);
    needs, next, issues := EnterNeeds(jobs, needs, next, issues);
    ghost var found := issues;
    var cycle: string;
    ghost var rank: seq<string>;
    cycle, rank := FindCycle(needs);
    if cycle != "" {
      issues := issues + [Cycle(cycle)];
    }
    var order := [];
    if |issues| == 0 {
      order := Topological(needs);
      KahnOrderIsComplete(needs, rank);
      KahnOrderRanks(needs);
      NoIssuesMeansSound(jobs, needs, next);
    }
    d := Dag(order, needs, next);
  }

  lemma NoIssuesMeansSound(jobs: seq<Job>, needs: Graph, next: Graph)
    requires needs.Keys == Ids(jobs) && BuiltFrom(jobs, |jobs|, needs, next)
    requires forall issue :: !IdDefect(jobs, |jobs|, issue)
    ensures UniqueIds(jobs, |jobs|) && Nodes(needs) == needs.Keys
    ensures forall a, n :: a in needs && n in needs[a] ==> n in needs
  {
    forall i, j | 0 <= i < j < |jobs| && jobs[i].id != ""
      ensures jobs[i].id != jobs[j].id
    {
      assert !IdDefect(jobs, |jobs|, DuplicateJob(jobs[i].id));
    }
  }

  ghost predicate Clean(jobs: seq<Job>) {
    forall issue :: !IdDefect(jobs, |jobs|, issue) && !NeedDefect(Ids(jobs), jobs, |jobs|, issue)
  }

  /** A definition has no such issue exactly when ids are present and unique and every need
      names another job of the definition. */
  lemma CleanMeansWellFormed(jobs: seq<Job>)
    ensures Clean(jobs) <==>
      && (forall i :: 0 <= i < |jobs| ==> jobs[i].id != "")
      && UniqueIds(jobs, |jobs|)
      && (forall i, k :: 0 <= i < |jobs| && 0 <= k < |jobs[i].needs| ==>
            jobs[i].needs[k] in Ids(jobs) && jobs[i].needs[k] != jobs[i].id)
  {
    var ids := Ids(jobs);
    if Clean(jobs) {
      forall i | 0 <= i < |jobs|
        ensures jobs[i].id != ""
      {
        assert !IdDefect(jobs, |jobs|, MissingJobId(i));
      }
      forall i, j | 0 <= i < j < |jobs|
        ensures jobs[i].id != jobs[j].id
      {
        assert !IdDefect(jobs, |jobs|, DuplicateJob(jobs[i].id));
      }
      forall i, k | 0 <= i < |jobs| && 0 <= k < |jobs[i].needs|
        ensures jobs[i].needs[k] in ids && jobs[i].needs[k] != jobs[i].id
      {
        CleanNeed(jobs, i, k);
      }
    }
  }

  lemma CleanNeed(jobs: seq<Job>, i: nat, k: nat)
    requires Clean(jobs) && i < |jobs| && k < |jobs[i].needs| && jobs[i].id != ""
    ensures jobs[i].needs[k] in Ids(jobs) && jobs[i].needs[k] != jobs[i].id
  {
    var j := jobs[i];
    assert !NeedDefect(Ids(jobs), jobs, |jobs|, EmptyNeed(j.id, k));
    assert !NeedDefect(Ids(jobs), jobs, |jobs|, UnknownJob(j.id, k, j.needs[k]));
    assert !NeedDefect(Ids(jobs), jobs, |jobs|, SelfDependency(j.id, k));
    assert !NeedDefectAt(Ids(jobs), j, |j.needs|, EmptyNeed(j.id, k));
    assert !NeedDefectAt(Ids(jobs), j, |j.needs|, UnknownJob(j.id, k, j.needs[k]));
    assert !NeedDefectAt(Ids(jobs), j, |j.needs|, SelfDependency(j.id, k));
  }
}
