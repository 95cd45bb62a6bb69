/** The run loop over a schedulable graph: claim, then succeed, fail or skip, in any order the
    jobs of a batch end. */
module RunLoop {
  import opened Collections
  import opened Graphs
  import opened Dags
  import opened Scheduling

  // ---- one step, on statuses ----

  function Claimed(st: Statuses, ready: set<string>): Statuses {
    map x | x in st :: if x in ready && (st[x].Queued? || st[x].Pending?) then Running else st[x]
  }

  function Parked(st: Statuses, hit: set<string>): Statuses {
    map x | x in st :: if x in hit then Blocked else st[x]
  }

  ghost function AfterFailure(d: Dag, coe: map<string, bool>, st: Statuses, job: string): Statuses {
    var failed := st[job := Failed];
    Parked(failed, if Continues(coe, job) then {} else BlockedSet(d, failed, job))
  }

  datatype Step = Claim | Succeed(job: string) | Fail(job: string) | Skip(job: string)

  ghost predicate Enabled(d: Dag, coe: map<string, bool>, st: Statuses, step: Step) {
    match step
    case Claim => ReadySet(d, st, coe) != {}
    case Succeed(j) => StatusOf(st, j).Running?
    case Fail(j) => StatusOf(st, j).Running?
    case Skip(j) => StatusOf(st, j).Running?
  }

  ghost function Apply(d: Dag, coe: map<string, bool>, st: Statuses, step: Step): Statuses {
    match step
    case Claim => Claimed(st, ReadySet(d, st, coe))
    case Succeed(j) => st[j := Success]
    case Fail(j) => AfterFailure(d, coe, st, j)
    case Skip(j) => st[j := Skipped]
  }

  ghost predicate Legal(d: Dag, coe: map<string, bool>, st: Statuses, steps: seq<Step>)
    decreases |steps|
  {
    steps == [] || (Enabled(d, coe, st, steps[0]) && Legal(d, coe, Apply(d, coe, st, steps[0]), steps[1..]))
  }

  ghost function Run(d: Dag, coe: map<string, bool>, st: Statuses, steps: seq<Step>): Statuses
    decreases |steps|
  {
    if steps == [] then st else Run(d, coe, Apply(d, coe, st, steps[0]), steps[1..])
  }

  ghost function Start(d: Dag): Statuses {
    map x | x in d.needs :: Queued
  }

  // ---- what every run keeps ----

  predicate Started(s: RunStatus) { s.Running? || s.Success? || s.Failed? || s.Skipped? }

  /** A failure that holds dependents back for good. */
  predicate Stops(st: Statuses, coe: map<string, bool>, x: string) {
    StatusOf(st, x).Blocked? || (StatusOf(st, x).Failed? && !Continues(coe, x))
  }

  ghost predicate StartedSoundly(d: Dag, coe: map<string, bool>, st: Statuses) {
    forall q, n :: q in st && Started(st[q]) && n in Deps(d.needs, q) ==> Satisfied(st, coe, n)
  }

  ghost predicate StopsPropagate(d: Dag, coe: map<string, bool>, st: Statuses) {
    forall q, n :: q in st && n in Deps(d.needs, q) && Stops(st, coe, n) ==> st[q].Blocked?
  }

  ghost predicate Inv(d: Dag, coe: map<string, bool>, st: Statuses) {
    && st.Keys == d.needs.Keys
    && (forall x :: x in st ==> Started(st[x]) || st[x].Queued? || st[x].Blocked?)
    && StartedSoundly(d, coe, st)
    && StopsPropagate(d, coe, st)
  }

  /** Behind a job that is still running, nothing has started. */
  lemma {:induction false} HitsNeverStarted(d: Dag, coe: map<string, bool>, before: Statuses, st: Statuses,
                                            job: string, p: seq<string>)
    requires Schedulable(d) && Inv(d, coe, before) && StatusOf(before, job).Running?
    requires st == before[job := Failed] && p != [] && Leads(d, st, job, p[|p| - 1], p)
    ensures StatusOf(before, p[|p| - 1]).Queued? || StatusOf(before, p[|p| - 1]).Blocked?
    ensures p[|p| - 1] in before && p[|p| - 1] != job
  {
    var x, n := p[|p| - 1], p[|p| - 2];
    assert x in Deps(d.next, n);
    NextMeansNeed(d, n, x);
    if |p| > 2 {
      var q := p[..|p| - 1];
      forall i | 0 <= i < |q| - 1
        ensures q[i + 1] in Deps(d.next, q[i])
      {
        assert p[i + 1] in Deps(d.next, p[i]);
      }
      assert Leads(d, st, job, n, q);
      HitsNeverStarted(d, coe, before, st, job, q);
    }
    assert !Satisfied(before, coe, n);
  }

  /** What a failure blocks had not started. */
  lemma FailureBlocksOnlyWaiting(d: Dag, coe: map<string, bool>, st: Statuses, job: string, x: string)
    requires Schedulable(d) && Inv(d, coe, st) && StatusOf(st, job).Running?
    requires Hit(d, st[job := Failed], job, x)
    ensures x in st && x != job && (st[x].Queued? || st[x].Blocked?)
  {
    var p :| Leads(d, st[job := Failed], job, x, p);
    HitsNeverStarted(d, coe, st, st[job := Failed], job, p);
  }

  /** Everything that needs a stopped job is stopped by the same failure. */
  lemma FailureReachesDependents(d: Dag, coe: map<string, bool>, st: Statuses, job: string, n: string, q: string)
    requires Schedulable(d) && Inv(d, coe, st) && StatusOf(st, job).Running? && !Continues(coe, job)
    requires q in st && n in Deps(d.needs, q) && (n == job || Hit(d, st[job := Failed], job, n))
    ensures q != job && AfterFailure(d, coe, st, job)[q].Blocked?
  {
    var failed := st[job := Failed];
    NextMeansNeed(d, n, q);
    if n != job {
      FailureBlocksOnlyWaiting(d, coe, st, job, n);
    }
    assert !Satisfied(st, coe, n);
    assert !Started(st[q]);
    if n == job {
      assert Leads(d, failed, job, q, [job, q]);
    } else {
      HitExtends(d, failed, job, n, q);
    }
  }

  lemma HitExtends(d: Dag, st: Statuses, job: string, n: string, q: string)
    requires Hit(d, st, job, n) && q in Deps(d.next, n) && Open(StatusOf(st, q))
    ensures Hit(d, st, job, q)
  {
    var p :| Leads(d, st, job, n, p);
    var r := p + [q];
    forall i | 0 <= i < |r| - 1
      ensures r[i + 1] in Deps(d.next, r[i])
    {
      assert i < |p| - 1 ==> p[i + 1] in Deps(d.next, p[i]);
    }
    assert Leads(d, st, job, q, r);
  }

  lemma FailureMoves(d: Dag, coe: map<string, bool>, st: Statuses, job: string)
    requires Schedulable(d) && Inv(d, coe, st) && StatusOf(st, job).Running?
    ensures var t := AfterFailure(d, coe, st, job);
      && t.Keys == st.Keys && t[job].Failed?
      && forall x :: x in st && x != job ==> t[x] == st[x] || (t[x].Blocked? && st[x].Queued?)
  {
    var failed, t := st[job := Failed], AfterFailure(d, coe, st, job);
    forall x | x in st && t[x] != failed[x]
      ensures t[x].Blocked? && st[x].Queued? && x != job
    {
      FailureBlocksOnlyWaiting(d, coe, st, job, x);
    }
  }

  lemma FailureKeepsInv(d: Dag, coe: map<string, bool>, st: Statuses, job: string)
    requires Schedulable(d) && Inv(d, coe, st) && StatusOf(st, job).Running?
    ensures Inv(d, coe, AfterFailure(d, coe, st, job))
  {
    var t := AfterFailure(d, coe, st, job);
    FailureMoves(d, coe, st, job);
    forall q, n | q in t && Started(t[q]) && n in Deps(d.needs, q)
      ensures Satisfied(t, coe, n)
    {
      assert Started(st[q]);
      assert Satisfied(st, coe, n);
      assert n != job;
    }
    forall q, n | q in t && n in Deps(d.needs, q) && Stops(t, coe, n)
      ensures t[q].Blocked?
    {
      if Stops(st, coe, n) {
        assert st[q].Blocked?;
      } else if !Continues(coe, job) {
        FailureReachesDependents(d, coe, st, job, n, q);
      }
    }
  }

  lemma ClaimMovesOnlyQueued(d: Dag, coe: map<string, bool>, st: Statuses)
    requires Inv(d, coe, st)
    ensures forall x :: var t := Claimed(st, ReadySet(d, st, coe));
      || StatusOf(t, x) == StatusOf(st, x)
      || (StatusOf(st, x).Queued? && StatusOf(t, x).Running? && IsReady(d, st, coe, x))
  {
  }

  lemma ClaimKeepsInv(d: Dag, coe: map<string, bool>, st: Statuses)
    requires Schedulable(d) && Inv(d, coe, st)
    ensures Inv(d, coe, Claimed(st, ReadySet(d, st, coe)))
  {
    var ready := ReadySet(d, st, coe);
    var t := Claimed(st, ready);
    assert t.Keys == st.Keys;
    ClaimMovesOnlyQueued(d, coe, st);
    forall q, n | q in t && Started(t[q]) && n in Deps(d.needs, q)
      ensures Satisfied(t, coe, n)
    {
      assert Satisfied(st, coe, n);
    }
    forall q, n | q in t && n in Deps(d.needs, q) && Stops(t, coe, n)
      ensures t[q].Blocked?
    {
      assert Stops(st, coe, n);
    }
  }

  lemma FinishKeepsInv(d: Dag, coe: map<string, bool>, st: Statuses, job: string, s: RunStatus)
    requires Schedulable(d) && Inv(d, coe, st) && StatusOf(st, job).Running? && (s.Success? || s.Skipped?)
    ensures Inv(d, coe, st[job := s])
  {
    var t := st[job := s];
    forall q, n | q in t && Started(t[q]) && n in Deps(d.needs, q)
      ensures Satisfied(t, coe, n)
    {
      assert Satisfied(st, coe, n);
    }
    forall q, n | q in t && n in Deps(d.needs, q) && Stops(t, coe, n)
      ensures t[q].Blocked?
    {
      assert Stops(st, coe, n);
    }
  }

  lemma StepKeepsInv(d: Dag, coe: map<string, bool>, st: Statuses, step: Step)
    requires Schedulable(d) && Inv(d, coe, st) && Enabled(d, coe, st, step)
    ensures Inv(d, coe, Apply(d, coe, st, step))
  {
    match step
    case Claim => ClaimKeepsInv(d, coe, st);
    case Succeed(j) => FinishKeepsInv(d, coe, st, j, Success);
    case Fail(j) => FailureKeepsInv(d, coe, st, j);
    case Skip(j) => FinishKeepsInv(d, coe, st, j, Skipped);
  }

  lemma {:induction false} RunKeepsInv(d: Dag, coe: map<string, bool>, st: Statuses, steps: seq<Step>)
    requires Schedulable(d) && Inv(d, coe, st) && Legal(d, coe, st, steps)
    ensures Inv(d, coe, Run(d, coe, st, steps))
    decreases |steps|
  {
    if steps != [] {
      StepKeepsInv(d, coe, st, steps[0]);
      RunKeepsInv(d, coe, Apply(d, coe, st, steps[0]), steps[1..]);
    }
  }

  /** In every state the loop reaches, a job that ever started has every need succeeded or
      ended otherwise with continue_on_error, and a failure names only jobs that never started. */
  lemma EveryRunStartsSoundly(d: Dag, coe: map<string, bool>, steps: seq<Step>)
    requires Schedulable(d) && Legal(d, coe, Start(d), steps)
    ensures var st := Run(d, coe, Start(d), steps);
      && (forall q, n :: q in st && Started(st[q]) && n in Deps(d.needs, q) ==> Satisfied(st, coe, n))
      && (forall j, x :: StatusOf(st, j).Running? && x in BlockedSet(d, st[j := Failed], j) ==>
            StatusOf(st, x).Queued?)
  {
    RunKeepsInv(d, coe, Start(d), steps);
    var st := Run(d, coe, Start(d), steps);
    forall j, x | StatusOf(st, j).Running? && x in BlockedSet(d, st[j := Failed], j)
      ensures StatusOf(st, x).Queued?
    {
      FailureBlocksOnlyWaiting(d, coe, st, j, x);
    }
  }

  // ---- progress and termination ----

  ghost predicate NoneRunning(st: Statuses) {
    forall x :: x in st ==> !st[x].Running?
  }

  /** A queued job one of whose needs was skipped without continue_on_error. */
  ghost predicate HeldBySkip(d: Dag, coe: map<string, bool>, st: Statuses, q: string) {
    && StatusOf(st, q).Queued?
    && exists n :: n in Deps(d.needs, q) && StatusOf(st, n).Skipped? && !Continues(coe, n)
  }

  lemma {:induction false} QueuedIsHeld(d: Dag, coe: map<string, bool>, st: Statuses, q: string) returns (held: string)
    requires Schedulable(d) && Inv(d, coe, st) && NoneRunning(st) && ReadySet(d, st, coe) == {}
    requires StatusOf(st, q).Queued?
    ensures HeldBySkip(d, coe, st, held)
    decreases |d.order| - Remaining(d.order, q)
  {
    assert q in d.needs && q !in ReadySet(d, st, coe);
    var n :| n in Deps(d.needs, q) && !Satisfied(st, coe, n);
    assert n in d.needs;
    if StatusOf(st, n).Queued? {
      NextMeansNeed(d, n, q);
      DependentsComeLater(d, n, q);
      held := QueuedIsHeld(d, coe, st, n);
    } else {
      assert !Stops(st, coe, n);
      held := q;
    }
  }

  /** The loop may stop claiming with jobs still queued exactly when a skipped job without
      continue_on_error holds one of them back; without such a job it always goes on until
      nothing is queued. */
  lemma StallsExactlyBehindSkips(d: Dag, coe: map<string, bool>, steps: seq<Step>)
    requires Schedulable(d) && Legal(d, coe, Start(d), steps)
    ensures var st := Run(d, coe, Start(d), steps);
      NoneRunning(st) && ReadySet(d, st, coe) == {} ==>
        ((exists q :: q in st && st[q].Queued?) <==> (exists q :: HeldBySkip(d, coe, st, q)))
  {
    RunKeepsInv(d, coe, Start(d), steps);
    var st := Run(d, coe, Start(d), steps);
    if NoneRunning(st) && ReadySet(d, st, coe) == {} {
      if q :| q in st && st[q].Queued? {
        var held := QueuedIsHeld(d, coe, st, q);
      }
      if q :| HeldBySkip(d, coe, st, q) {
        assert q in st && st[q].Queued?;
      }
    }
  }

  lemma StepKeepsHeld(d: Dag, coe: map<string, bool>, st: Statuses, step: Step, q: string)
    requires Schedulable(d) && Inv(d, coe, st) && Enabled(d, coe, st, step)
    requires HeldBySkip(d, coe, st, q) || StatusOf(st, q).Blocked?
    ensures var t := Apply(d, coe, st, step); HeldBySkip(d, coe, t, q) || StatusOf(t, q).Blocked?
  {
    var t := Apply(d, coe, st, step);
    if StatusOf(st, q).Queued? {
      var n :| n in Deps(d.needs, q) && StatusOf(st, n).Skipped? && !Continues(coe, n);
      assert !IsReady(d, st, coe, q) by {
        assert !Satisfied(st, coe, n);
      }
      if step.Fail? && n in BlockedSet(d, st[step.job := Failed], step.job) {
        FailureBlocksOnlyWaiting(d, coe, st, step.job, n);
      }
      assert StatusOf(t, n).Skipped?;
    }
  }

  /** Such a job is never started in any continuation of the run. */
  lemma {:induction false} HeldForever(d: Dag, coe: map<string, bool>, st: Statuses, steps: seq<Step>, q: string)
    requires Schedulable(d) && Inv(d, coe, st) && Legal(d, coe, st, steps)
    requires HeldBySkip(d, coe, st, q) || StatusOf(st, q).Blocked?
    ensures var t := Run(d, coe, st, steps); HeldBySkip(d, coe, t, q) || StatusOf(t, q).Blocked?
    decreases |steps|
  {
    if steps != [] {
      StepKeepsHeld(d, coe, st, steps[0], q);
      StepKeepsInv(d, coe, st, steps[0]);
      HeldForever(d, coe, Apply(d, coe, st, steps[0]), steps[1..], q);
    }
  }

  /** The smallest stall: job "a", and job "b" that needs it. */
  function PairDag(): Dag {
    Dag(["a", "b"], map["a" := [], "b" := ["a"]], map["a" := ["b"], "b" := []])
  }

  lemma PairIsSchedulable()
    ensures Schedulable(PairDag())
  {
    var d := PairDag();
    assert multiset(d.order) == multiset(d.needs.Keys);
    forall i, n | 0 <= i < |d.order| && n in Deps(d.needs, d.order[i])
      ensures n in d.order[..i]
    {
      assert d.order[..1] == ["a"];
    }
    forall a, b
      ensures multiset(Deps(d.next, a))[b] == multiset(Deps(d.needs, b))[a]
    {
    }
  }

  lemma PairReadiness(st: Statuses)
    requires st.Keys == {"a", "b"} && (st["a"].Queued? || st["a"].Skipped?) && st["b"].Queued?
    ensures ReadySet(PairDag(), st, map[]) == if st["a"].Queued? then {"a"} else {}
  {
    var d := PairDag();
    assert Deps(d.needs, "b") == ["a"];
    assert "a" in Deps(d.needs, "b") && !Satisfied(st, map[], "a");
    assert Deps(d.needs, "a") == [];
  }

  lemma PairSteps()
    ensures Apply(PairDag(), map[], Start(PairDag()), Claim) == map["a" := Running, "b" := Queued]
    ensures Apply(PairDag(), map[], map["a" := Running, "b" := Queued], Skip("a")) == map["a" := Skipped, "b" := Queued]
    ensures ReadySet(PairDag(), Start(PairDag()), map[]) != {}
    ensures ReadySet(PairDag(), map["a" := Skipped, "b" := Queued], map[]) == {}
  {
    PairReadiness(Start(PairDag()));
    PairReadiness(map["a" := Skipped, "b" := Queued]);
  }

  /** The stall is real: once "a" is skipped, nothing runs, nothing is ready and "b" stays queued. */
  lemma SkippedNeedStallsTheRun()
    ensures Schedulable(PairDag())
    ensures Legal(PairDag(), map[], Start(PairDag()), [Claim, Skip("a")])
    ensures var st := Run(PairDag(), map[], Start(PairDag()), [Claim, Skip("a")]);
      NoneRunning(st) && ReadySet(PairDag(), st, map[]) == {} && StatusOf(st, "b").Queued?
  {
    PairIsSchedulable();
    var d := PairDag();
    var s1, s2 := map["a" := Running, "b" := Queued], map["a" := Skipped, "b" := Queued];
    PairSteps();
    var rest := [Skip("a")];
    assert [Claim, Skip("a")][1..] == rest && rest[1..] == [];
    assert Legal(d, map[], s1, rest) && Run(d, map[], s1, rest) == s2;
  }

  ghost function QueuedJobs(st: Statuses): set<string> { set x | x in st && st[x].Queued? }

  ghost function RunningJobs(st: Statuses): set<string> { set x | x in st && st[x].Running? }

  ghost function Work(st: Statuses): nat { 2 * |QueuedJobs(st)| + |RunningJobs(st)| }

  lemma ClaimDoesWork(d: Dag, coe: map<string, bool>, st: Statuses)
    requires Inv(d, coe, st) && ReadySet(d, st, coe) != {}
    ensures Work(Claimed(st, ReadySet(d, st, coe))) < Work(st)
  {
    var ready := ReadySet(d, st, coe);
    assert ready <= QueuedJobs(st);
    ClaimMovesJobs(st, ready);
  }

  lemma ClaimMovesJobs(st: Statuses, ready: set<string>)
    requires ready <= QueuedJobs(st)
    ensures QueuedJobs(Claimed(st, ready)) == QueuedJobs(st) - ready
    ensures RunningJobs(Claimed(st, ready)) == RunningJobs(st) + ready
  {
  }

  lemma OutcomeEndsOneJob(d: Dag, coe: map<string, bool>, st: Statuses, step: Step)
    requires Schedulable(d) && Inv(d, coe, st) && Enabled(d, coe, st, step) && !step.Claim?
    ensures var t := Apply(d, coe, st, step);
      RunningJobs(t) == RunningJobs(st) - {step.job} && QueuedJobs(t) <= QueuedJobs(st)
  {
    if step.Fail? && !Continues(coe, step.job) {
      forall x | x in BlockedSet(d, st[step.job := Failed], step.job)
        ensures st[x].Queued?
      {
        FailureBlocksOnlyWaiting(d, coe, st, step.job, x);
      }
    }
  }

  lemma OutcomeDoesWork(d: Dag, coe: map<string, bool>, st: Statuses, step: Step)
    requires Schedulable(d) && Inv(d, coe, st) && Enabled(d, coe, st, step) && !step.Claim?
    ensures Work(Apply(d, coe, st, step)) < Work(st)
  {
    OutcomeEndsOneJob(d, coe, st, step);
    assert step.job in RunningJobs(st);
    SubsetSize(QueuedJobs(Apply(d, coe, st, step)), QueuedJobs(st));
  }

  lemma StepDoesWork(d: Dag, coe: map<string, bool>, st: Statuses, step: Step)
    requires Schedulable(d) && Inv(d, coe, st) && Enabled(d, coe, st, step)
    ensures Work(Apply(d, coe, st, step)) < Work(st)
  {
    if step.Claim? {
      ClaimDoesWork(d, coe, st);
    } else {
      OutcomeDoesWork(d, coe, st, step);
    }
  }

  lemma {:induction false} RunDoesWork(d: Dag, coe: map<string, bool>, st: Statuses, steps: seq<Step>)
    requires Schedulable(d) && Inv(d, coe, st) && Legal(d, coe, st, steps)
    ensures |steps| + Work(Run(d, coe, st, steps)) <= Work(st)
    decreases |steps|
  {
    if steps != [] {
      StepDoesWork(d, coe, st, steps[0]);
      StepKeepsInv(d, coe, st, steps[0]);
      RunDoesWork(d, coe, Apply(d, coe, st, steps[0]), steps[1..]);
    }
  }

  /** Every run takes at most two steps a job. */
  lemma EveryRunEnds(d: Dag, coe: map<string, bool>, steps: seq<Step>)
    requires Schedulable(d) && Legal(d, coe, Start(d), steps)
    ensures |steps| <= 2 * |d.needs|
  {
    RunDoesWork(d, coe, Start(d), steps);
    assert QueuedJobs(Start(d)) == d.needs.Keys;
    assert RunningJobs(Start(d)) == {};
  }

  // ---- when a run can stall ----

  /** Nothing runs and nothing is ready: the loop stops here. */
  ghost predicate Settled(d: Dag, coe: map<string, bool>, st: Statuses) {
    NoneRunning(st) && ReadySet(d, st, coe) == {}
  }

  ghost predicate Stalled(d: Dag, coe: map<string, bool>, st: Statuses) {
    Settled(d, coe, st) && exists q :: q in st && st[q].Queued?
  }

  /** Only jobs that carry a condition are skipped: a blank one is always true. */
  ghost predicate SkipsWithin(steps: seq<Step>, conditional: set<string>) {
    forall i :: 0 <= i < |steps| && steps[i].Skip? ==> steps[i].job in conditional
  }

  /** A run from the start that stalls, with these jobs carrying a condition. */
  ghost predicate StallsAfter(d: Dag, coe: map<string, bool>, conditional: set<string>, steps: seq<Step>) {
    && Legal(d, coe, Start(d), steps) && SkipsWithin(steps, conditional)
    && Stalled(d, coe, Run(d, coe, Start(d), steps))
  }

  /** Nothing has failed, and n has not got through. */
  ghost predicate Calm(st: Statuses, n: string) {
    && (forall x :: x in st ==> !st[x].Failed? && !st[x].Blocked?)
    && n in st && !st[n].Success?
  }

  lemma CalmStep(d: Dag, coe: map<string, bool>, st: Statuses, step: Step, n: string)
    requires Schedulable(d) && Inv(d, coe, st) && Calm(st, n) && Enabled(d, coe, st, step)
    requires step.Claim? || step == Skip(n) || (step.Succeed? && step.job != n)
    ensures var t := Apply(d, coe, st, step); Inv(d, coe, t) && Calm(t, n) && Work(t) < Work(st)
  {
    StepKeepsInv(d, coe, st, step);
    StepDoesWork(d, coe, st, step);
    if step.Claim? {
      ClaimMovesOnlyQueued(d, coe, st);
    }
  }

  /** Let every running job succeed, but skip n, until the loop stops. */
  lemma {:induction false} SettleWithout(d: Dag, coe: map<string, bool>, st: Statuses, n: string)
    returns (steps: seq<Step>)
    requires Schedulable(d) && Inv(d, coe, st) && Calm(st, n)
    ensures Legal(d, coe, st, steps) && SkipsWithin(steps, {n})
    ensures var t := Run(d, coe, st, steps); Inv(d, coe, t) && Calm(t, n) && Settled(d, coe, t)
    decreases Work(st)
  {
    steps := [];
    var step;
    if ReadySet(d, st, coe) != {} {
      step := Claim;
    } else if x :| x in st && st[x].Running? {
      step := if x == n then Skip(x) else Succeed(x);
    } else {
      return;
    }
    CalmStep(d, coe, st, step, n);
    steps := SettleWithout(d, coe, Apply(d, coe, st, step), n);
    steps := Prepend(d, coe, st, step, steps);
  }

  lemma Prepend(d: Dag, coe: map<string, bool>, st: Statuses, step: Step, rest: seq<Step>) returns (steps: seq<Step>)
    requires Enabled(d, coe, st, step) && Legal(d, coe, Apply(d, coe, st, step), rest)
    ensures steps == [step] + rest
    ensures Legal(d, coe, st, steps) && Run(d, coe, st, steps) == Run(d, coe, Apply(d, coe, st, step), rest)
  {
    steps := [step] + rest;
    assert steps[0] == step && steps[1..] == rest;
  }

  /** A step makes a job skipped only by skipping it. */
  lemma OnlySkipsSkip(d: Dag, coe: map<string, bool>, st: Statuses, step: Step, n: string)
    requires Inv(d, coe, st) && Enabled(d, coe, st, step)
    requires StatusOf(Apply(d, coe, st, step), n).Skipped?
    ensures StatusOf(st, n).Skipped? || step == Skip(n)
  {
  }

  /** So does a run. */
  lemma {:induction false} SkippedCarriesCondition(d: Dag, coe: map<string, bool>, st: Statuses, steps: seq<Step>,
                                                   conditional: set<string>, n: string)
    requires Schedulable(d) && Inv(d, coe, st) && Legal(d, coe, st, steps) && SkipsWithin(steps, conditional)
    requires StatusOf(Run(d, coe, st, steps), n).Skipped?
    ensures StatusOf(st, n).Skipped? || n in conditional
    decreases |steps|
  {
    if steps != [] {
      StepKeepsInv(d, coe, st, steps[0]);
      SkippedCarriesCondition(d, coe, Apply(d, coe, st, steps[0]), steps[1..], conditional, n);
      if n !in conditional {
        OnlySkipsSkip(d, coe, st, steps[0], n);
      }
    }
  }

  /** Some run of the loop stops with a job still queued exactly when some job that another one
      needs carries a condition and lacks continue_on_error. */
  lemma StallsArePossibleExactly(d: Dag, coe: map<string, bool>, conditional: set<string>)
    requires Schedulable(d)
    ensures (exists steps :: StallsAfter(d, coe, conditional, steps))
      <==> exists q, n :: q in d.needs && n in Deps(d.needs, q) && n in conditional && !Continues(coe, n)
  {
    if steps :| StallsAfter(d, coe, conditional, steps) {
      var q, n := StallHasCause(d, coe, conditional, steps);
    }
    if q, n :| q in d.needs && n in Deps(d.needs, q) && n in conditional && !Continues(coe, n) {
      var steps := CauseCanStall(d, coe, conditional, q, n);
    }
  }

  /** Without conditions the loop never stops short: at every moment something runs, something is
      ready, or nothing is queued any more. */
  lemma SkipFreeLoopGoesOn(d: Dag, coe: map<string, bool>, steps: seq<Step>)
    requires Schedulable(d) && Legal(d, coe, Start(d), steps) && SkipsWithin(steps, {})
    ensures var st := Run(d, coe, Start(d), steps);
      || (exists x :: x in st && st[x].Running?)
      || ReadySet(d, st, coe) != {}
      || forall q :: q in st ==> !st[q].Queued?
  {
    if StallsAfter(d, coe, {}, steps) {
      var q, n := StallHasCause(d, coe, {}, steps);
    }
  }

  lemma StallHasCause(d: Dag, coe: map<string, bool>, conditional: set<string>, steps: seq<Step>)
    returns (q: string, n: string)
    requires Schedulable(d) && StallsAfter(d, coe, conditional, steps)
    ensures q in d.needs && n in Deps(d.needs, q) && n in conditional && !Continues(coe, n)
  {
    var st := Run(d, coe, Start(d), steps);
    RunKeepsInv(d, coe, Start(d), steps);
    var queued :| queued in st && st[queued].Queued?;
    q := QueuedIsHeld(d, coe, st, queued);
    n :| n in Deps(d.needs, q) && StatusOf(st, n).Skipped? && !Continues(coe, n);
    SkippedCarriesCondition(d, coe, Start(d), steps, conditional, n);
  }

  lemma CauseCanStall(d: Dag, coe: map<string, bool>, conditional: set<string>, q: string, n: string)
    returns (steps: seq<Step>)
    requires Schedulable(d) && q in d.needs && n in Deps(d.needs, q) && n in conditional && !Continues(coe, n)
    ensures StallsAfter(d, coe, conditional, steps)
  {
    assert n in d.needs;
    steps := SettleWithout(d, coe, Start(d), n);
    QueuedBehind(d, coe, Run(d, coe, Start(d), steps), n, q);
  }

  lemma QueuedBehind(d: Dag, coe: map<string, bool>, st: Statuses, n: string, q: string)
    requires Inv(d, coe, st) && Calm(st, n) && Settled(d, coe, st)
    requires q in st && n in Deps(d.needs, q) && !Continues(coe, n)
    ensures Stalled(d, coe, st)
  {
    assert !Satisfied(st, coe, n);
    assert !Started(st[q]);
  }

  // ---- runs, one step more ----

  ghost predicate Reaches(d: Dag, coe: map<string, bool>, from: Statuses, steps: seq<Step>, to: Statuses) {
    Legal(d, coe, from, steps) && Run(d, coe, from, steps) == to
  }

  lemma {:induction false} ReachesThen(d: Dag, coe: map<string, bool>, from: Statuses, steps: seq<Step>,
                                       mid: Statuses, step: Step)
    requires Reaches(d, coe, from, steps, mid) && Enabled(d, coe, mid, step)
    ensures Reaches(d, coe, from, steps + [step], Apply(d, coe, mid, step))
    decreases |steps|
  {
    if steps == [] {
      assert steps + [step] == [step] && [step][1..] == [];
    } else {
      TailOfJoin(steps, [step]);
      ReachesThen(d, coe, Apply(d, coe, from, steps[0]), steps[1..], mid, step);
    }
  }

  // ---- the transition table ----

  predicate CanTransition(from: RunStatus, to: RunStatus) {
    from == to ||
    match from
    case Pending => to in {Queued, Blocked, Cancelled, Waiting}
    case Queued => to in {Running, Blocked, Cancelled, Skipped, Waiting}
    case Blocked => to in {Queued, Pending, Cancelled, Failed}
    case Waiting => to in {Queued, Running, Cancelled, Expired}
    case Running => to in {Success, Failed, Cancelled, Waiting, Blocked}
    case Failed => to in {Queued, Pending}
    case Cancelled => to in {Queued, Pending}
    case Success => false
    case Skipped => false
    case Expired => false
    case Unset => false
  }

  /** From where the table lets a job or run become what. */
  function Before(to: RunStatus): set<RunStatus> {
    match to
    case Unset => {}
    case Pending => {Blocked, Failed, Cancelled}
    case Queued => {Pending, Blocked, Waiting, Failed, Cancelled}
    case Blocked => {Pending, Queued, Running}
    case Waiting => {Pending, Queued, Running}
    case Running => {Queued, Waiting}
    case Success => {Running}
    case Failed => {Running, Blocked}
    case Cancelled => {Pending, Queued, Blocked, Waiting, Running}
    case Skipped => {Queued}
    case Expired => {Waiting}
  }

  /** Read by its targets the table is this: success comes after running only, a skip after queued
      only, and nothing comes after success, skipped and expired. */
  lemma TableByTarget(from: RunStatus, to: RunStatus)
    ensures CanTransition(from, to) <==> from == to || from in Before(to)
    ensures from in {Success, Skipped, Expired} && CanTransition(from, to) ==> to == from
  {
  }

  /** Every step of the loop keeps to the table except a skip, which the table only allows from
      queued while the loop skips jobs it has claimed. */
  lemma StepsKeepToTheTable(d: Dag, coe: map<string, bool>, st: Statuses, step: Step)
    requires Schedulable(d) && Inv(d, coe, st) && Enabled(d, coe, st, step)
    ensures (forall x :: x in st ==> x in Apply(d, coe, st, step) && CanTransition(st[x], Apply(d, coe, st, step)[x]))
      <==> !step.Skip?
  {
    if step.Fail? {
      var failed := st[step.job := Failed];
      forall x | x in st
        ensures x in Apply(d, coe, st, step) && CanTransition(st[x], Apply(d, coe, st, step)[x])
      {
        if !Continues(coe, step.job) && x in BlockedSet(d, failed, step.job) {
          FailureBlocksOnlyWaiting(d, coe, st, step.job, x);
        }
      }
    } else if step.Skip? {
      assert !CanTransition(st[step.job], Skipped);
    }
  }
}
