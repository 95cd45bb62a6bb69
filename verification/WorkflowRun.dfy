/** The run record the scheduler updates in place, tied step by step to the run loop. */
module WorkflowRuns {
  import opened Text
  import opened Dags
  import opened Scheduling
  import opened RunLoop

  datatype JobRun = JobRun(jobId: string, status: RunStatus)

  datatype RunSummary = RunSummary(
    total: nat, success: nat, failed: nat, running: nat, queued: nat,
    blocked: nat, waiting: nat, cancelled: nat, skipped: nat)

  ghost predicate DistinctIds(jobs: seq<JobRun>) {
    forall i, j :: 0 <= i < j < |jobs| ==> jobs[i].jobId != jobs[j].jobId
  }

  /** Job id to status; a later record of the same id wins. */
  function StatusMap(jobs: seq<JobRun>): Statuses {
    if jobs == [] then map[]
    else StatusMap(jobs[..|jobs| - 1])[jobs[|jobs| - 1].jobId := jobs[|jobs| - 1].status]
  }

  lemma {:induction false} StatusMapAt(jobs: seq<JobRun>)
    requires DistinctIds(jobs)
    ensures forall i :: 0 <= i < |jobs| ==>
      jobs[i].jobId in StatusMap(jobs) && StatusMap(jobs)[jobs[i].jobId] == jobs[i].status
    ensures forall x :: x in StatusMap(jobs) ==> exists i :: 0 <= i < |jobs| && jobs[i].jobId == x
  {
    if jobs != [] {
      var rest := jobs[..|jobs| - 1];
      StatusMapAt(rest);
      forall x | x in StatusMap(jobs)
        ensures exists i :: 0 <= i < |jobs| && jobs[i].jobId == x
      {
        if x in StatusMap(rest) {
          var i :| 0 <= i < |rest| && rest[i].jobId == x;
          assert jobs[i].jobId == x;
        } else {
          assert jobs[|jobs| - 1].jobId == x;
        }
      }
      forall i | 0 <= i < |jobs|
        ensures jobs[i].jobId in StatusMap(jobs) && StatusMap(jobs)[jobs[i].jobId] == jobs[i].status
      {
        if i < |rest| {
          assert rest[i] == jobs[i];
        }
      }
    }
  }

  lemma StatusMapIs(jobs: seq<JobRun>, m: Statuses)
    requires DistinctIds(jobs)
    requires forall i :: 0 <= i < |jobs| ==> jobs[i].jobId in m && m[jobs[i].jobId] == jobs[i].status
    requires forall x :: x in m ==> HasJob(jobs, x)
    ensures m == StatusMap(jobs)
  {
    StatusMapAt(jobs);
    forall x | x in m
      ensures x in StatusMap(jobs) && StatusMap(jobs)[x] == m[x]
    {
      var i :| 0 <= i < |jobs| && jobs[i].jobId == x;
    }
  }

  ghost predicate HasJob(jobs: seq<JobRun>, x: string) {
    exists i :: 0 <= i < |jobs| && jobs[i].jobId == x
  }

  lemma StatusMapSet(jobs: seq<JobRun>, i: nat, s: RunStatus)
    requires DistinctIds(jobs) && i < |jobs|
    ensures var t := jobs[i := jobs[i].(status := s)];
      DistinctIds(t) && StatusMap(t) == StatusMap(jobs)[jobs[i].jobId := s]
  {
    var t := jobs[i := jobs[i].(status := s)];
    StatusMapAt(jobs);
    forall x | x in StatusMap(jobs)
      ensures HasJob(t, x)
    {
      var k :| 0 <= k < |jobs| && jobs[k].jobId == x;
      assert t[k].jobId == x;
    }
    assert t[i].jobId == jobs[i].jobId;
    StatusMapIs(t, StatusMap(jobs)[jobs[i].jobId := s]);
  }

  /** How many jobs have one of these statuses. */
  function Count(jobs: seq<JobRun>, among: set<RunStatus>): nat {
    if jobs == [] then 0
    else Count(jobs[..|jobs| - 1], among) + if jobs[|jobs| - 1].status in among then 1 else 0
  }

  lemma {:induction false} CountZero(jobs: seq<JobRun>, among: set<RunStatus>)
    ensures Count(jobs, among) == 0 <==> forall i :: 0 <= i < |jobs| ==> jobs[i].status !in among
  {
    if jobs != [] {
      CountZero(jobs[..|jobs| - 1], among);
      assert forall i :: 0 <= i < |jobs| - 1 ==> jobs[..|jobs| - 1][i] == jobs[i];
    }
  }

  /** Disjoint kinds of jobs together are no more than all jobs. */
  lemma {:induction false} CountDisjoint(jobs: seq<JobRun>, a: set<RunStatus>, b: set<RunStatus>)
    requires a !! b
    ensures Count(jobs, a) + Count(jobs, b) <= |jobs|
  {
    if jobs != [] {
      CountDisjoint(jobs[..|jobs| - 1], a, b);
    }
  }

  ghost predicate Summarises(sum: RunSummary, jobs: seq<JobRun>) {
    && sum.total == |jobs|
    && sum.success == Count(jobs, {Success})
    && sum.failed == Count(jobs, {Failed})
    && sum.running == Count(jobs, {Running})
    && sum.queued == Count(jobs, {Queued, Pending})
    && sum.blocked == Count(jobs, {Blocked})
    && sum.waiting == Count(jobs, {Waiting})
    && sum.cancelled == Count(jobs, {Cancelled})
    && sum.skipped == Count(jobs, {Skipped})
    && sum.success + sum.skipped == Count(jobs, {Success, Skipped})
  }

  ghost predicate Unfinished(jobs: seq<JobRun>) {
    exists i :: 0 <= i < |jobs| && jobs[i].status in {Running, Queued, Pending, Waiting}
  }

  /** The final status as a property of the jobs alone. */
  ghost function FinalStatus(before: RunStatus, jobs: seq<JobRun>): RunStatus {
    if before.Waiting? || before.Blocked? || Unfinished(jobs) then before
    else if exists i :: 0 <= i < |jobs| && jobs[i].status in {Failed, Blocked} then Failed
    else Success
  }

  predicate Claimable(st: Statuses, r: string) {
    StatusOf(st, r).Queued? || StatusOf(st, r).Pending?
  }

  lemma ClaimedStep(st: Statuses, done: set<string>, id: string)
    ensures Claimed(Claimed(st, done), {id}) == Claimed(st, done + {id})
    ensures Claimable(Claimed(st, done), id) <==> Claimable(st, id) && id !in done
  {
  }

  lemma ClaimedOne(st: Statuses, id: string)
    ensures Claimed(st, {id}) == if Claimable(st, id) then st[id := Running] else st
  {
  }

  class WorkflowRun {
    var status: RunStatus
    var jobs: seq<JobRun>

    ghost function Statuses(): Statuses
      reads this
    {
      StatusMap(jobs)
    }

    /** The first record of a job, or none (-1). */
    method JobRunById(id: string) returns (at: int)
      ensures -1 <= at < |jobs|
      ensures at == -1 ==> forall i :: 0 <= i < |jobs| ==> jobs[i].jobId != id
      ensures at >= 0 ==> jobs[at].jobId == id && forall i :: 0 <= i < at ==> jobs[i].jobId != id
    {
      var i := 0;
      while i < |jobs|
        invariant 0 <= i <= |jobs|
        invariant forall k :: 0 <= k < i ==> jobs[k].jobId != id
      {
        if jobs[i].jobId == id {
          return i;
        }
        i := i + 1;
      }
      return -1;
    }

    /** Assign the status of an existing job record. */
    method SetStatus(id: string, s: RunStatus)
      requires DistinctIds(jobs) && id in Statuses()
      modifies this`jobs
      ensures DistinctIds(jobs) && Statuses() == old(Statuses())[id := s] && |jobs| == old(|jobs|)
    {
      StatusMapAt(jobs);
      var at := JobRunById(id);
      StatusMapSet(jobs, at, s);
      jobs := jobs[at := jobs[at].(status := s)];
    }

    /** Start one job if it is still queued. */
    method ClaimOne(id: string) returns (ok: bool)
      requires DistinctIds(jobs)
      modifies this`jobs
      ensures DistinctIds(jobs) && |jobs| == old(|jobs|)
      ensures Statuses() == Claimed(old(Statuses()), {id})
      ensures ok <==> Claimable(old(Statuses()), id)
    {
      StatusMapAt(jobs);
      ClaimedOne(Statuses(), id);
      var at := JobRunById(id);
      ok := false;
      if at >= 0 {
        if jobs[at].status.Queued? || jobs[at].status.Pending? {
          StatusMapSet(jobs, at, Running);
          jobs := jobs[at := jobs[at].(status := Running)];
          ok := true;
        }
      }
    }

    /** Of the ready jobs, those still queued start running, in the given order. */
    method ClaimJobs(ready: seq<string>) returns (claimed: seq<string>)
      requires DistinctIds(jobs)
      modifies this`jobs
      ensures DistinctIds(jobs) && |jobs| == old(|jobs|)
      ensures Statuses() == Claimed(old(Statuses()), Elems(ready))
      ensures forall r :: r in claimed <==> r in ready && Claimable(old(Statuses()), r)
      ensures forall i, j :: 0 <= i < j < |claimed| ==> claimed[i] != claimed[j]
    {
      claimed := [];
      ghost var st := Statuses();
      assert Claimed(st, {}) == st;
      var k := 0;
      while k < |ready|
        invariant 0 <= k <= |ready|
        invariant DistinctIds(jobs) && |jobs| == old(|jobs|)
        invariant Statuses() == Claimed(st, Elems(ready[..k]))
        invariant forall r :: r in claimed <==> r in Elems(ready[..k]) && Claimable(st, r)
        invariant forall i, j :: 0 <= i < j < |claimed| ==> claimed[i] != claimed[j]
      {
        var id := ready[k];
        ElemsStep(ready, k);
        ClaimedStep(st, Elems(ready[..k]), id);
        var ok := ClaimOne(id);
        if ok {
          claimed := claimed + [id];
        }
        k := k + 1;
      }
      assert ready[..|ready|] == ready;
    }

    method ParkAll(ids: seq<string>)
      requires DistinctIds(jobs) && Elems(ids) <= Statuses().Keys
      modifies this`jobs
      ensures DistinctIds(jobs) && |jobs| == old(|jobs|)
      ensures Statuses() == Parked(old(Statuses()), Elems(ids))
    {
      ghost var st := Statuses();
      assert Parked(st, {}) == st;
      var k := 0;
      while k < |ids|
        invariant 0 <= k <= |ids|
        invariant DistinctIds(jobs) && |jobs| == old(|jobs|)
        invariant Statuses() == Parked(st, Elems(ids[..k]))
      {
        ElemsStep(ids, k);
        assert ids[k] in Elems(ids);
        SetStatus(ids[k], Blocked);
        assert Parked(st, Elems(ids[..k]))[ids[k] := Blocked] == Parked(st, Elems(ids[..k + 1]));
        k := k + 1;
      }
      assert ids[..|ids|] == ids;
    }

    /** Record a failure and park everything it blocks. */
    method FailJob(d: Dag, coe: map<string, bool>, id: string)
      requires DistinctIds(jobs) && Schedulable(d) && Statuses().Keys == d.needs.Keys && id in Statuses()
      modifies this`jobs
      ensures DistinctIds(jobs) && |jobs| == old(|jobs|)
      ensures Statuses() == AfterFailure(d, coe, old(Statuses()), id)
    {
      SetStatus(id, Failed);
      var st := StatusMap(jobs);
      var blocked := BlockedByFailure(d, id, Continues(coe, id), st);
      ParkAll(blocked);
    }

    method Summary() returns (sum: RunSummary)
      ensures Summarises(sum, jobs)
    {
      sum := RunSummary(0, 0, 0, 0, 0, 0, 0, 0, 0);
      var k := 0;
      while k < |jobs|
        invariant 0 <= k <= |jobs|
        invariant Summarises(sum, jobs[..k])
      {
        assert jobs[..k + 1][..k] == jobs[..k];
        sum := sum.(total := sum.total + 1);
        match jobs[k].status {
          case Success => sum := sum.(success := sum.success + 1);
          case Failed => sum := sum.(failed := sum.failed + 1);
          case Running => sum := sum.(running := sum.running + 1);
          case Queued | Pending => sum := sum.(queued := sum.queued + 1);
          case Blocked => sum := sum.(blocked := sum.blocked + 1);
          case Waiting => sum := sum.(waiting := sum.waiting + 1);
          case Cancelled => sum := sum.(cancelled := sum.cancelled + 1);
          case Skipped => sum := sum.(skipped := sum.skipped + 1);
          case _ =>
        }
        k := k + 1;
      }
      assert jobs[..|jobs|] == jobs;
    }

    /** A job that begins sets the run going. */
    method BeginRunning()
      modifies this`status
      ensures status == if old(status).Waiting? then Waiting else Running
    {
      if status.Waiting? {
        return;
      }
      status := Running;
    }

    /** The status follows from the jobs the summary counts. */
    method Finalize(sum: RunSummary)
      requires Summarises(sum, jobs)
      modifies this`status
      ensures status == FinalStatus(old(status), jobs)
    {
      CountZero(jobs, {Running});
      CountZero(jobs, {Queued, Pending});
      CountZero(jobs, {Waiting});
      CountZero(jobs, {Failed});
      CountZero(jobs, {Blocked});
      CountDisjoint(jobs, {Success, Skipped}, {Blocked});
      if status.Waiting? || status.Blocked? {
        return;
      }
      if sum.running > 0 || sum.queued > 0 || sum.waiting > 0 {
        return;
      }
      if sum.failed > 0 {
        status := Failed;
      } else if sum.blocked > 0 && sum.success + sum.skipped < sum.total {
        status := Failed;
      } else {
        status := Success;
      }
    }
  }

  /** How a claimed job ends: its steps succeed or fail, its condition does not evaluate, or its
      condition is false. Only in the first two cases does it begin to run. */
  datatype Outcome = Succeeds | Fails | Errs | IsSkipped

  function StepOf(o: Outcome, id: string): Step {
    match o case Succeeds => Succeed(id) case Fails => Fail(id) case Errs => Fail(id) case IsSkipped => Skip(id)
  }

  predicate Begins(o: Outcome) { o.Succeeds? || o.Fails? }

  predicate Ended(s: RunStatus) { s.Success? || s.Failed? || s.Skipped? }

  predicate EndedSince(from: Statuses, st: Statuses, x: string) {
    Ended(StatusOf(st, x)) && !Ended(StatusOf(from, x))
  }

  /** Some job has begun and ended meanwhile. */
  ghost predicate AnyBegan(from: Statuses, st: Statuses, outcome: string -> Outcome) {
    exists x :: EndedSince(from, st, x) && (outcome(x).Succeeds? || outcome(x).Fails?)
  }

  /** What had ended stays, and what has ended since did so as its outcome says. */
  ghost predicate EndsAs(from: Statuses, st: Statuses, outcome: string -> Outcome) {
    && (forall x :: Ended(StatusOf(from, x)) ==> StatusOf(st, x) == StatusOf(from, x))
    && (forall x :: EndedSince(from, st, x) ==> StatusOf(st, x) == Result(outcome(x)))
  }

  /** The records are the result of a legal run from the records at first in which every job that
      ended did so as its outcome says, and the run's own status tells whether one has begun. */
  ghost predicate Going(d: Dag, coe: map<string, bool>, outcome: string -> Outcome, before: RunStatus,
                        from: Statuses, steps: seq<Step>, st: Statuses, status: RunStatus) {
    && Reaches(d, coe, from, steps, st)
    && Inv(d, coe, st)
    && EndsAs(from, st, outcome)
    && status == if AnyBegan(from, st, outcome) then Running else before
  }

  function Result(o: Outcome): RunStatus {
    match o case Succeeds => Success case Fails => Failed case Errs => Failed case IsSkipped => Skipped
  }

  lemma StartsGoing(d: Dag, coe: map<string, bool>, outcome: string -> Outcome, before: RunStatus, from: Statuses)
    requires Inv(d, coe, from)
    ensures Going(d, coe, outcome, before, from, [], from, before)
  {
  }

  lemma ClaimKeepsGoing(d: Dag, coe: map<string, bool>, outcome: string -> Outcome, before: RunStatus,
                        from: Statuses, steps: seq<Step>, st: Statuses, status: RunStatus)
    requires Schedulable(d) && Going(d, coe, outcome, before, from, steps, st, status) && ReadySet(d, st, coe) != {}
    ensures Going(d, coe, outcome, before, from, steps + [Claim], Claimed(st, ReadySet(d, st, coe)), status)
    ensures Work(Claimed(st, ReadySet(d, st, coe))) < Work(st)
  {
    ReachesThen(d, coe, from, steps, st, Claim);
    ClaimKeepsInv(d, coe, st);
    ClaimDoesWork(d, coe, st);
    ClaimEndsNothing(st, ReadySet(d, st, coe));
    NoneEnds(from, st, Claimed(st, ReadySet(d, st, coe)), outcome);
  }

  lemma ClaimEndsNothing(st: Statuses, ready: set<string>)
    ensures var t := Claimed(st, ready);
      t.Keys == st.Keys && forall x :: x in st ==> t[x] == st[x] || (!Ended(st[x]) && !Ended(t[x]))
  {
  }

  /** As long as no job ends, what has ended is the same. */
  lemma NoneEnds(from: Statuses, st: Statuses, t: Statuses, outcome: string -> Outcome)
    requires t.Keys == st.Keys && EndsAs(from, st, outcome)
    requires forall x :: x in st ==> t[x] == st[x] || (!Ended(st[x]) && !Ended(t[x]))
    ensures EndsAs(from, t, outcome) && (AnyBegan(from, st, outcome) <==> AnyBegan(from, t, outcome))
  {
    forall x
      ensures EndedSince(from, t, x) <==> EndedSince(from, st, x)
      ensures Ended(StatusOf(st, x)) ==> StatusOf(t, x) == StatusOf(st, x)
    {
    }
  }

  lemma EndKeepsGoing(d: Dag, coe: map<string, bool>, outcome: string -> Outcome, before: RunStatus,
                      from: Statuses, steps: seq<Step>, st: Statuses, status: RunStatus, id: string)
    requires Schedulable(d) && Going(d, coe, outcome, before, from, steps, st, status) && StatusOf(st, id).Running?
    ensures var step := StepOf(outcome(id), id); var t := Apply(d, coe, st, step);
      && Going(d, coe, outcome, before, from, steps + [step], t, if Begins(outcome(id)) then Running else status)
      && Work(t) < Work(st) && RunningJobs(t) == RunningJobs(st) - {id}
  {
    var step := StepOf(outcome(id), id);
    ReachesThen(d, coe, from, steps, st, step);
    StepKeepsInv(d, coe, st, step);
    EndDoesWork(d, coe, st, step);
    OneMoreEnded(d, coe, st, outcome(id), id);
    OneEnds(from, st, Apply(d, coe, st, step), outcome, id);
  }

  lemma EndDoesWork(d: Dag, coe: map<string, bool>, st: Statuses, step: Step)
    requires Schedulable(d) && Inv(d, coe, st) && Enabled(d, coe, st, step) && !step.Claim?
    ensures var t := Apply(d, coe, st, step); Work(t) < Work(st) && RunningJobs(t) == RunningJobs(st) - {step.job}
  {
    StepDoesWork(d, coe, st, step);
    OutcomeEndsOneJob(d, coe, st, step);
  }

  lemma OneEnds(from: Statuses, st: Statuses, t: Statuses, outcome: string -> Outcome, id: string)
    requires t.Keys == st.Keys && id in st && st[id].Running? && t[id] == Result(outcome(id))
    requires forall x :: x in st && x != id ==> t[x] == st[x] || (!Ended(st[x]) && !Ended(t[x]))
    requires EndsAs(from, st, outcome)
    ensures EndsAs(from, t, outcome)
    ensures AnyBegan(from, t, outcome) <==> AnyBegan(from, st, outcome) || Begins(outcome(id))
  {
    assert EndedSince(from, t, id) && !Ended(StatusOf(st, id));
    forall x | x != id
      ensures EndedSince(from, t, x) <==> EndedSince(from, st, x)
      ensures Ended(StatusOf(st, x)) ==> StatusOf(t, x) == StatusOf(st, x)
    {
    }
    assert !EndedSince(from, st, id);
  }

  lemma OneMoreEnded(d: Dag, coe: map<string, bool>, st: Statuses, o: Outcome, id: string)
    requires Schedulable(d) && Inv(d, coe, st) && StatusOf(st, id).Running?
    ensures var t := Apply(d, coe, st, StepOf(o, id));
      && t.Keys == st.Keys && t[id] == Result(o)
      && forall x :: x in st && x != id ==> t[x] == st[x] || (!Ended(st[x]) && !Ended(t[x]))
  {
    var failed := st[id := Failed];
    forall x | x in BlockedSet(d, failed, id)
      ensures x != id && !Ended(st[x])
    {
      FailureBlocksOnlyWaiting(d, coe, st, id, x);
    }
  }

  /** One claimed job ends. */
  method FinishOne(run: WorkflowRun, d: Dag, coe: map<string, bool>, o: Outcome, id: string)
    requires Schedulable(d) && DistinctIds(run.jobs) && Inv(d, coe, run.Statuses())
    requires StatusOf(run.Statuses(), id).Running? && !run.status.Waiting?
    modifies run
    ensures DistinctIds(run.jobs)
    ensures run.Statuses() == Apply(d, coe, old(run.Statuses()), StepOf(o, id))
    ensures run.status == if Begins(o) then Running else old(run.status)
  {
    match o {
      case IsSkipped => run.SetStatus(id, Skipped);
      case Errs => run.FailJob(d, coe, id);
      case Succeeds =>
        run.BeginRunning();
        run.SetStatus(id, Success);
      case Fails =>
        run.BeginRunning();
        run.FailJob(d, coe, id);
    }
  }

  /** The claimed jobs end one after the other. */
  method FinishClaimed(run: WorkflowRun, d: Dag, coe: map<string, bool>, outcome: string -> Outcome,
                       claimed: seq<string>, ghost before: RunStatus, ghost from: Statuses, ghost steps0: seq<Step>)
    returns (ghost steps: seq<Step>)
    requires Schedulable(d) && DistinctIds(run.jobs) && (before.Queued? || before.Running?)
    requires Going(d, coe, outcome, before, from, steps0, run.Statuses(), run.status)
    requires Elems(claimed) == RunningJobs(run.Statuses())
    requires forall i, j :: 0 <= i < j < |claimed| ==> claimed[i] != claimed[j]
    modifies run
    ensures DistinctIds(run.jobs) && Going(d, coe, outcome, before, from, steps, run.Statuses(), run.status)
    ensures RunningJobs(run.Statuses()) == {} && Work(run.Statuses()) <= Work(old(run.Statuses()))
  {
    ghost var work := Work(run.Statuses());
    var k := 0;
    steps := steps0;
    assert claimed[0..] == claimed;
    while k < |claimed|
      invariant 0 <= k <= |claimed|
      invariant DistinctIds(run.jobs) && Going(d, coe, outcome, before, from, steps, run.Statuses(), run.status)
      invariant Elems(claimed[k..]) == RunningJobs(run.Statuses())
      invariant Work(run.Statuses()) <= work
    {
      FirstOfRest(claimed, k);
      steps := FinishNext(run, d, coe, outcome, claimed[k], before, from, steps);
      k := k + 1;
    }
  }

  method FinishNext(run: WorkflowRun, d: Dag, coe: map<string, bool>, outcome: string -> Outcome,
                    id: string, ghost before: RunStatus, ghost from: Statuses, ghost steps0: seq<Step>)
    returns (ghost steps: seq<Step>)
    requires Schedulable(d) && DistinctIds(run.jobs) && (before.Queued? || before.Running?)
    requires Going(d, coe, outcome, before, from, steps0, run.Statuses(), run.status)
    requires StatusOf(run.Statuses(), id).Running?
    modifies run
    ensures DistinctIds(run.jobs) && Going(d, coe, outcome, before, from, steps, run.Statuses(), run.status)
    ensures RunningJobs(run.Statuses()) == RunningJobs(old(run.Statuses())) - {id}
    ensures Work(run.Statuses()) < Work(old(run.Statuses()))
  {
    EndKeepsGoing(d, coe, outcome, before, from, steps0, run.Statuses(), run.status, id);
    FinishOne(run, d, coe, outcome(id), id);
    steps := steps0 + [StepOf(outcome(id), id)];
  }

  lemma FirstOfRest(claimed: seq<string>, k: nat)
    requires k < |claimed| && forall i, j :: 0 <= i < j < |claimed| ==> claimed[i] != claimed[j]
    ensures claimed[k] in Elems(claimed[k..]) && Elems(claimed[k + 1..]) == Elems(claimed[k..]) - {claimed[k]}
  {
    assert claimed[k..] == [claimed[k]] + claimed[k + 1..];
  }

  lemma ClaimRunsTheReady(d: Dag, coe: map<string, bool>, st: Statuses)
    requires Inv(d, coe, st) && RunningJobs(st) == {}
    ensures RunningJobs(Claimed(st, ReadySet(d, st, coe))) == ReadySet(d, st, coe)
    ensures forall r :: r in ReadySet(d, st, coe) ==> Claimable(st, r)
  {
    NobodyRuns(st);
  }

  /** One turn of the loop with something to claim. */
  method ClaimAndFinish(run: WorkflowRun, d: Dag, coe: map<string, bool>, outcome: string -> Outcome,
                        ready: seq<string>, ghost before: RunStatus, ghost from: Statuses, ghost steps0: seq<Step>)
    returns (ghost steps: seq<Step>)
    requires Schedulable(d) && DistinctIds(run.jobs) && (before.Queued? || before.Running?)
    requires Going(d, coe, outcome, before, from, steps0, run.Statuses(), run.status)
    requires RunningJobs(run.Statuses()) == {}
    requires Elems(ready) == ReadySet(d, run.Statuses(), coe) && ready != []
    modifies run
    ensures DistinctIds(run.jobs) && Going(d, coe, outcome, before, from, steps, run.Statuses(), run.status)
    ensures RunningJobs(run.Statuses()) == {} && Work(run.Statuses()) < Work(old(run.Statuses()))
  {
    ghost var st := run.Statuses();
    assert ready[0] in Elems(ready);
    ClaimKeepsGoing(d, coe, outcome, before, from, steps0, st, run.status);
    ClaimRunsTheReady(d, coe, st);
    var claimed := run.ClaimJobs(ready);
    assert Elems(claimed) == Elems(ready);
    steps := FinishClaimed(run, d, coe, outcome, claimed, before, from, steps0 + [Claim]);
  }

  lemma ReadyIsListed(ready: seq<string>, s: set<string>)
    requires ready == Ascending(s)
    ensures Elems(ready) == s && (|ready| == 0 <==> s == {})
  {
    assert forall r :: r in ready <==> r in multiset(ready);
    assert |multiset(ready)| == |ready| && |multiset(s)| == |s|;
  }

  ghost predicate AnyHeld(d: Dag, coe: map<string, bool>, st: Statuses) {
    exists q :: HeldBySkip(d, coe, st, q)
  }

  ghost predicate AllWell(st: Statuses) {
    forall x :: x in st ==> st[x].Success? || st[x].Skipped?
  }

  method NextReady(run: WorkflowRun, d: Dag, coe: map<string, bool>) returns (ready: seq<string>)
    ensures Elems(ready) == ReadySet(d, run.Statuses(), coe) && (|ready| == 0 <==> Elems(ready) == {})
  {
    ready := ReadyJobs(d, StatusMap(run.jobs), coe);
    ReadyIsListed(ready, ReadySet(d, run.Statuses(), coe));
  }

  /** Claim and finish until nothing is ready, from any state the loop can be in between two batches.
      The records are those of a legal run from there. */
  method RunReady(run: WorkflowRun, d: Dag, coe: map<string, bool>, outcome: string -> Outcome)
    returns (ghost steps: seq<Step>)
    requires Schedulable(d) && DistinctIds(run.jobs)
    requires Inv(d, coe, run.Statuses()) && RunningJobs(run.Statuses()) == {}
    requires run.status.Queued? || run.status.Running?
    modifies run
    ensures DistinctIds(run.jobs)
    ensures Going(d, coe, outcome, old(run.status), old(run.Statuses()), steps, run.Statuses(), run.status)
    ensures RunningJobs(run.Statuses()) == {} && ReadySet(d, run.Statuses(), coe) == {}
  {
    ghost var before, from := run.status, run.Statuses();
    StartsGoing(d, coe, outcome, before, from);
    steps := [];
    var ready := NextReady(run, d, coe);
    while |ready| > 0
      invariant DistinctIds(run.jobs) && Going(d, coe, outcome, before, from, steps, run.Statuses(), run.status)
      invariant RunningJobs(run.Statuses()) == {}
      invariant Elems(ready) == ReadySet(d, run.Statuses(), coe) && (|ready| == 0 <==> Elems(ready) == {})
      decreases Work(run.Statuses())
    {
      steps := ClaimAndFinish(run, d, coe, outcome, ready, before, from, steps);
      ready := NextReady(run, d, coe);
    }
  }

  /** The scheduler's loop for one run, fresh or ticked before: claim, let the claimed jobs end,
      repeat until nothing is ready, then finalise. It ends for every graph and every outcome of the
      jobs, and the records are those of a legal run. The run is left unfinished exactly when a
      skipped job holds a queued one back, running once some job has begun; otherwise it is a success
      exactly when every job succeeded or was skipped. */
  method Tick(run: WorkflowRun, d: Dag, coe: map<string, bool>, outcome: string -> Outcome)
    returns (ghost steps: seq<Step>)
    requires Schedulable(d) && DistinctIds(run.jobs)
    requires Inv(d, coe, run.Statuses()) && RunningJobs(run.Statuses()) == {}
    requires run.status.Queued? || run.status.Running?
    modifies run
    ensures DistinctIds(run.jobs) && Reaches(d, coe, old(run.Statuses()), steps, run.Statuses())
    ensures Settled(d, coe, run.Statuses()) && EndsAs(old(run.Statuses()), run.Statuses(), outcome)
    ensures run.status == if AnyHeld(d, coe, run.Statuses()) then
                            if AnyBegan(old(run.Statuses()), run.Statuses(), outcome) then Running else old(run.status)
                          else if AllWell(run.Statuses()) then Success else Failed
  {
    steps := RunReady(run, d, coe, outcome);
    NobodyRuns(run.Statuses());
    SettledStatus(d, coe, run.status, run.jobs);
    var sum := run.Summary();
    run.Finalize(sum);
  }

  lemma NobodyRuns(st: Statuses)
    requires RunningJobs(st) == {}
    ensures NoneRunning(st)
  {
    forall x | x in st
      ensures !st[x].Running?
    {
      assert x !in RunningJobs(st);
    }
  }

  lemma SettledJob(d: Dag, coe: map<string, bool>, jobs: seq<JobRun>, i: nat)
    requires Schedulable(d) && DistinctIds(jobs) && Inv(d, coe, StatusMap(jobs)) && i < |jobs|
    requires NoneRunning(StatusMap(jobs)) && ReadySet(d, StatusMap(jobs), coe) == {}
    requires !AnyHeld(d, coe, StatusMap(jobs))
    ensures jobs[i].status in {Success, Failed, Skipped, Blocked}
  {
    var st := StatusMap(jobs);
    StatusMapAt(jobs);
    assert st[jobs[i].jobId] == jobs[i].status;
    if jobs[i].status.Queued? {
      var held := QueuedIsHeld(d, coe, st, jobs[i].jobId);
    }
  }

  lemma AllWellByRecord(jobs: seq<JobRun>)
    requires DistinctIds(jobs)
    ensures AllWell(StatusMap(jobs)) <==> forall i :: 0 <= i < |jobs| ==> jobs[i].status in {Success, Skipped}
  {
    StatusMapAt(jobs);
    var st := StatusMap(jobs);
    forall i | 0 <= i < |jobs|
      ensures jobs[i].status == st[jobs[i].jobId]
    {
    }
  }

  /** A job that runs, is queued or waits keeps its run open, whatever the others did. */
  lemma OpenJobKeepsRunOpen(before: RunStatus, jobs: seq<JobRun>, i: nat)
    requires i < |jobs|
    requires jobs[i].status.Running? || jobs[i].status.Queued? || jobs[i].status.Pending? || jobs[i].status.Waiting?
    ensures FinalStatus(before, jobs) == before
  {
    assert Unfinished(jobs);
  }

  /** Without one, an active run has failed exactly when some job failed or is blocked; jobs that were
      cancelled or have expired fail no run. A run that waits or is blocked itself stays so. */
  lemma EndedJobsEndTheRun(before: RunStatus, jobs: seq<JobRun>)
    requires forall i :: 0 <= i < |jobs| ==>
      jobs[i].status in {Success, Skipped, Failed, Blocked, Cancelled, Expired, Unset}
    ensures before.Waiting? || before.Blocked? ==> FinalStatus(before, jobs) == before
    ensures !before.Waiting? && !before.Blocked? ==>
      FinalStatus(before, jobs)
      == if exists i :: 0 <= i < |jobs| && (jobs[i].status.Failed? || jobs[i].status.Blocked?) then Failed else Success
  {
    if i :| 0 <= i < |jobs| && jobs[i].status in {Failed, Blocked} {
      assert jobs[i].status.Failed? || jobs[i].status.Blocked?;
    }
  }

  lemma SettledStatus(d: Dag, coe: map<string, bool>, before: RunStatus, jobs: seq<JobRun>)
    requires Schedulable(d) && DistinctIds(jobs) && Inv(d, coe, StatusMap(jobs))
    requires NoneRunning(StatusMap(jobs)) && ReadySet(d, StatusMap(jobs), coe) == {}
    requires before.Queued? || before.Running?
    ensures FinalStatus(before, jobs) == if AnyHeld(d, coe, StatusMap(jobs)) then before
                                         else if AllWell(StatusMap(jobs)) then Success else Failed
  {
    var st := StatusMap(jobs);
    if AnyHeld(d, coe, st) {
      StatusMapAt(jobs);
      var q :| HeldBySkip(d, coe, st, q);
      var i :| 0 <= i < |jobs| && jobs[i].jobId == q;
      assert jobs[i].status.Queued?;
    } else {
      forall i | 0 <= i < |jobs|
        ensures jobs[i].status in {Success, Failed, Skipped, Blocked}
      {
        SettledJob(d, coe, jobs, i);
      }
      AllWellByRecord(jobs);
    }
  }
}
