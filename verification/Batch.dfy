/** One batch of claimed jobs, each working on its own copy of the run and merging it back. */
module Batches {
  import opened Graphs
  import opened Dags
  import opened Scheduling
  import opened RunLoop
  import WorkflowRuns

  function Rank(s: RunStatus): nat {
    match s
    case Pending => 1
    case Queued => 1
    case Running => 2
    case Waiting => 3
    case Blocked => 4
    case Skipped => 4
    case Success => 5
    case Failed => 5
    case Cancelled => 5
    case Expired => 5
    case Unset => 0
  }

  /** Of two records of a job the further one stays; `further` says which has more finished steps
      when their statuses rank alike. */
  function MergeJob(stored: RunStatus, saved: RunStatus, further: bool): RunStatus {
    if stored.Waiting? && (saved.Queued? || saved.Pending? || saved.Running?) then saved
    else if Rank(saved) > Rank(stored) then saved
    else if Rank(saved) < Rank(stored) then stored
    else if further then saved
    else stored
  }

  /** The statuses in order of progress; those of one place are as far as each other. */
  function Places(): seq<set<RunStatus>> {
    [{Unset}, {Pending, Queued}, {Running}, {Waiting}, {Blocked, Skipped}, {Success, Failed, Cancelled, Expired}]
  }

  /** The record that is further stays; of two at one place the saved one if it has as many finished
      steps; but a waiting job yields to one that is queued or runs again. */
  lemma FurtherRecordStays(stored: RunStatus, saved: RunStatus, further: bool, i: nat, j: nat)
    requires i < 6 && j < 6 && stored in Places()[i] && saved in Places()[j]
    ensures stored.Waiting? && saved in {Queued, Pending, Running} ==> MergeJob(stored, saved, further) == saved
    ensures !(stored.Waiting? && saved in {Queued, Pending, Running}) ==>
      MergeJob(stored, saved, further) == if i < j || (i == j && further) then saved else stored
  {
  }

  /** `further` holds the jobs of which the saved copy has at least as many finished steps. */
  function Merge(stored: Statuses, saved: Statuses, further: set<string>): Statuses {
    map x | x in stored :: if x in saved then MergeJob(stored[x], saved[x], x in further) else stored[x]
  }

  /** A job loads its copy of the run, may save it on the way, and saves it with its outcome. */
  datatype Event =
    | Load(job: string)
    | Save(job: string, further: set<string>)
    | Finish(step: Step, further: set<string>)

  /** The stored statuses and each job's copy. */
  datatype Batch = Batch(store: Statuses, copies: map<string, Statuses>)

  ghost predicate Allowed(s: Batch, ev: Event) {
    match ev
    case Load(j) => StatusOf(s.store, j).Running? && j !in s.copies
    case Save(j, _) => j in s.copies && StatusOf(s.store, j).Running?
    case Finish(step, _) => !step.Claim? && step.job in s.copies && StatusOf(s.store, step.job).Running?
  }

  ghost function Do(d: Dag, coe: map<string, bool>, s: Batch, ev: Event): Batch
    requires Allowed(s, ev)
  {
    match ev
    case Load(j) => s.(copies := s.copies[j := s.store])
    case Save(j, further) => s.(store := Merge(s.store, s.copies[j], further))
    case Finish(step, further) =>
      s.(store := Merge(s.store, Apply(d, coe, s.copies[step.job], step), further))
  }

  /** The copy was right once, and since then other jobs of the batch have ended. */
  ghost predicate Behind(copy: Statuses, store: Statuses) {
    && copy.Keys == store.Keys
    && forall x :: x in copy ==> LagsBehind(copy[x], store[x])
  }

  predicate LagsBehind(copied: RunStatus, stored: RunStatus) {
    || copied == stored
    || (copied.Running? && stored in {Success, Failed, Skipped})
    || (copied.Queued? && stored.Blocked?)
  }

  ghost predicate Sound(d: Dag, coe: map<string, bool>, s: Batch) {
    && Inv(d, coe, s.store)
    && forall j :: j in s.copies ==> Inv(d, coe, s.copies[j]) && Behind(s.copies[j], s.store)
  }

  /** Merging a copy that is behind changes nothing. */
  lemma SaveChangesNothing(copy: Statuses, store: Statuses, further: set<string>)
    requires Behind(copy, store)
    ensures Merge(store, copy, further) == store
  {
  }

  /** The same jobs have not started. */
  ghost predicate SameWaiting(a: Statuses, b: Statuses) {
    a.Keys == b.Keys && forall x :: x in a ==> (a[x] in {Queued, Blocked} <==> b[x] in {Queued, Blocked})
  }

  /** A failure's way through one is its way through the other. */
  lemma SamePath(d: Dag, coe: map<string, bool>, a: Statuses, b: Statuses, job: string, p: seq<string>, x: string)
    requires Schedulable(d) && Inv(d, coe, a) && SameWaiting(a, b)
    requires StatusOf(a, job).Running? && Leads(d, a[job := Failed], job, x, p)
    ensures Leads(d, b[job := Failed], job, x, p)
  {
    forall i | 1 <= i < |p|
      ensures Open(StatusOf(b[job := Failed], p[i]))
    {
      PrefixLeads(d, a[job := Failed], job, x, p, i);
      HitsNeverStarted(d, coe, a, a[job := Failed], job, p[..i + 1]);
    }
  }

  lemma PrefixLeads(d: Dag, st: Statuses, job: string, x: string, p: seq<string>, i: nat)
    requires Leads(d, st, job, x, p) && 1 <= i < |p|
    ensures Leads(d, st, job, p[i], p[..i + 1]) && p[..i + 1] != [] && p[..i + 1][|p[..i + 1]| - 1] == p[i]
  {
    var q := p[..i + 1];
    forall k | 0 <= k < |q| - 1
      ensures q[k + 1] in Deps(d.next, q[k])
    {
      assert p[k + 1] in Deps(d.next, p[k]);
    }
  }

  lemma SameHits(d: Dag, coe: map<string, bool>, copy: Statuses, store: Statuses, job: string, x: string)
    requires Schedulable(d) && Inv(d, coe, copy) && Inv(d, coe, store) && Behind(copy, store)
    requires StatusOf(store, job).Running?
    ensures Hit(d, copy[job := Failed], job, x) <==> Hit(d, store[job := Failed], job, x)
  {
    var a, b := copy[job := Failed], store[job := Failed];
    assert SameWaiting(copy, store) && StatusOf(copy, job).Running?;
    if p :| Leads(d, a, job, x, p) {
      SamePath(d, coe, copy, store, job, p, x);
    }
    if p :| Leads(d, b, job, x, p) {
      SamePath(d, coe, store, copy, job, p, x);
    }
  }

  /** What an outcome makes of each job. */
  function OutcomeStatus(step: Step): RunStatus
    requires !step.Claim?
  {
    match step case Succeed(_) => Success case Fail(_) => Failed case Skip(_) => Skipped
  }

  ghost predicate Blocks(d: Dag, coe: map<string, bool>, st: Statuses, step: Step, x: string)
    requires !step.Claim?
  {
    step.Fail? && !Continues(coe, step.job) && Hit(d, st[step.job := Failed], step.job, x)
  }

  lemma OutcomeAt(d: Dag, coe: map<string, bool>, st: Statuses, step: Step, x: string)
    requires Schedulable(d) && Inv(d, coe, st) && !step.Claim? && StatusOf(st, step.job).Running? && x in st
    ensures var t := Apply(d, coe, st, step);
      && t.Keys == st.Keys
      && t[x] == if x == step.job then OutcomeStatus(step) else if Blocks(d, coe, st, step, x) then Blocked else st[x]
    ensures Blocks(d, coe, st, step, x) ==> x != step.job && (st[x].Queued? || st[x].Blocked?)
  {
    if Blocks(d, coe, st, step, x) {
      FailureBlocksOnlyWaiting(d, coe, st, step.job, x);
    }
  }

  lemma SameBlocks(d: Dag, coe: map<string, bool>, copy: Statuses, store: Statuses, step: Step, x: string)
    requires Schedulable(d) && Inv(d, coe, copy) && Inv(d, coe, store) && Behind(copy, store)
    requires !step.Claim? && StatusOf(store, step.job).Running?
    ensures Blocks(d, coe, copy, step, x) <==> Blocks(d, coe, store, step, x)
  {
    SameHits(d, coe, copy, store, step.job, x);
  }

  /** Saving a copy with the job's outcome is the outcome on the store. */
  lemma FinishIsAStep(d: Dag, coe: map<string, bool>, copy: Statuses, store: Statuses, step: Step, further: set<string>)
    requires Schedulable(d) && Inv(d, coe, copy) && Inv(d, coe, store) && Behind(copy, store)
    requires !step.Claim? && StatusOf(store, step.job).Running?
    ensures Merge(store, Apply(d, coe, copy, step), further) == Apply(d, coe, store, step)
  {
    var saved, t := Apply(d, coe, copy, step), Apply(d, coe, store, step);
    OutcomeAt(d, coe, copy, step, step.job);
    OutcomeAt(d, coe, store, step, step.job);
    forall x | x in store
      ensures MergeJob(store[x], saved[x], x in further) == t[x]
    {
      MergesAt(d, coe, copy, store, step, x, x in further);
    }
    MergeIs(store, saved, further, t);
  }

  lemma MergesAt(d: Dag, coe: map<string, bool>, copy: Statuses, store: Statuses, step: Step, x: string, further: bool)
    requires Schedulable(d) && Inv(d, coe, copy) && Inv(d, coe, store) && Behind(copy, store)
    requires !step.Claim? && StatusOf(store, step.job).Running? && StatusOf(copy, step.job).Running? && x in store
    ensures var saved, t := Apply(d, coe, copy, step), Apply(d, coe, store, step);
      x in saved && x in t && MergeJob(store[x], saved[x], further) == t[x]
  {
    OutcomeAt(d, coe, copy, step, x);
    OutcomeAt(d, coe, store, step, x);
    SameBlocks(d, coe, copy, store, step, x);
    MergedStatus(copy[x], store[x], x == step.job, Blocks(d, coe, store, step, x), OutcomeStatus(step), further);
  }

  lemma MergedStatus(copied: RunStatus, stored: RunStatus, mine: bool, blocks: bool, outcome: RunStatus, further: bool)
    requires LagsBehind(copied, stored)
    requires mine ==> stored.Running? && copied.Running? && outcome in {Success, Failed, Skipped}
    requires blocks ==> !mine && stored in {Queued, Blocked} && copied in {Queued, Blocked}
    ensures MergeJob(stored, if mine then outcome else if blocks then Blocked else copied, further)
      == if mine then outcome else if blocks then Blocked else stored
  {
  }

  lemma MergeIs(store: Statuses, saved: Statuses, further: set<string>, t: Statuses)
    requires saved.Keys == store.Keys == t.Keys
    requires forall x :: x in store ==> MergeJob(store[x], saved[x], x in further) == t[x]
    ensures Merge(store, saved, further) == t
  {
  }

  /** An outcome leaves every copy behind the store. */
  lemma StaysBehind(d: Dag, coe: map<string, bool>, copy: Statuses, store: Statuses, step: Step)
    requires Schedulable(d) && Inv(d, coe, store) && Behind(copy, store)
    requires !step.Claim? && StatusOf(store, step.job).Running?
    ensures Behind(copy, Apply(d, coe, store, step))
  {
    var t := Apply(d, coe, store, step);
    OutcomeAt(d, coe, store, step, step.job);
    forall x | x in store && x != step.job
      ensures t[x] == store[x] || (store[x].Queued? && t[x].Blocked?)
    {
      OutcomeAt(d, coe, store, step, x);
    }
    BehindStill(copy, store, t, step.job);
  }

  lemma BehindStill(copy: Statuses, store: Statuses, t: Statuses, job: string)
    requires Behind(copy, store) && t.Keys == store.Keys && StatusOf(store, job).Running?
    requires t[job] in {Success, Failed, Skipped}
    requires forall x :: x in store && x != job ==> t[x] == store[x] || (store[x].Queued? && t[x].Blocked?)
    ensures Behind(copy, t)
  {
  }

  lemma EventKeepsSound(d: Dag, coe: map<string, bool>, s: Batch, ev: Event)
    requires Schedulable(d) && Sound(d, coe, s) && Allowed(s, ev)
    ensures Sound(d, coe, Do(d, coe, s, ev))
    ensures Do(d, coe, s, ev).store == if ev.Finish? then Apply(d, coe, s.store, ev.step) else s.store
  {
    match ev
    case Load(_) =>
    case Save(j, further) => SaveChangesNothing(s.copies[j], s.store, further);
    case Finish(step, further) =>
      FinishIsAStep(d, coe, s.copies[step.job], s.store, step, further);
      StepKeepsInv(d, coe, s.store, step);
      forall j | j in s.copies
        ensures Behind(s.copies[j], Apply(d, coe, s.store, step))
      {
        StaysBehind(d, coe, s.copies[j], s.store, step);
      }
  }

  /** A job that runs can load its copy and then end in any way, and that is its outcome on the store. */
  lemma LoadThenFinish(d: Dag, coe: map<string, bool>, s: Batch, step: Step, further: set<string>)
    requires Schedulable(d) && Sound(d, coe, s) && !step.Claim? && Enabled(d, coe, s.store, step)
    requires step.job !in s.copies
    ensures Allowed(s, Load(step.job))
    ensures var t := Do(d, coe, s, Load(step.job));
      && t.store == s.store && step.job in t.copies && t.copies[step.job] == s.store
      && Allowed(t, Finish(step, further))
      && Do(d, coe, t, Finish(step, further)).store == Apply(d, coe, s.store, step)
  {
    EventKeepsSound(d, coe, s, Load(step.job));
    EventKeepsSound(d, coe, Do(d, coe, s, Load(step.job)), Finish(step, further));
  }

  ghost predicate AllAllowed(d: Dag, coe: map<string, bool>, s: Batch, events: seq<Event>)
    decreases |events|
  {
    events == [] || (Allowed(s, events[0]) && AllAllowed(d, coe, Do(d, coe, s, events[0]), events[1..]))
  }

  ghost function DoAll(d: Dag, coe: map<string, bool>, s: Batch, events: seq<Event>): Batch
    requires AllAllowed(d, coe, s, events)
    decreases |events|
  {
    if events == [] then s else DoAll(d, coe, Do(d, coe, s, events[0]), events[1..])
  }

  /** The outcomes of a batch in the order they are saved. */
  function Outcomes(events: seq<Event>): seq<Step> {
    if events == [] then []
    else if events[0].Finish? then [events[0].step] + Outcomes(events[1..])
    else Outcomes(events[1..])
  }

  /** However the jobs of a batch interleave, merging their stale copies gives the statuses of a
      legal run that applies their outcomes one by one, in the order they were saved. */
  lemma {:induction false} MergingIsARun(d: Dag, coe: map<string, bool>, s: Batch, events: seq<Event>)
    requires Schedulable(d) && Sound(d, coe, s) && AllAllowed(d, coe, s, events)
    ensures Reaches(d, coe, s.store, Outcomes(events), DoAll(d, coe, s, events).store)
    decreases |events|
  {
    if events != [] {
      var ev := events[0];
      EventKeepsSound(d, coe, s, ev);
      MergingIsARun(d, coe, Do(d, coe, s, ev), events[1..]);
      if ev.Finish? {
        StepFirst(d, coe, s.store, ev.step, Outcomes(events[1..]), DoAll(d, coe, s, events).store);
      }
    }
  }

  lemma StepFirst(d: Dag, coe: map<string, bool>, from: Statuses, step: Step, rest: seq<Step>, to: Statuses)
    requires Enabled(d, coe, from, step) && Reaches(d, coe, Apply(d, coe, from, step), rest, to)
    ensures Reaches(d, coe, from, [step] + rest, to)
  {
    assert ([step] + rest)[0] == step && ([step] + rest)[1..] == rest;
  }

  /** The outcomes of different jobs may be saved in either order. */
  lemma OutcomesCommute(d: Dag, coe: map<string, bool>, st: Statuses, a: Step, b: Step)
    requires Schedulable(d) && Inv(d, coe, st) && !a.Claim? && !b.Claim? && a.job != b.job
    requires Enabled(d, coe, st, a) && Enabled(d, coe, st, b)
    ensures Enabled(d, coe, Apply(d, coe, st, a), b) && Enabled(d, coe, Apply(d, coe, st, b), a)
    ensures Apply(d, coe, Apply(d, coe, st, a), b) == Apply(d, coe, Apply(d, coe, st, b), a)
  {
    StepKeepsInv(d, coe, st, a);
    StepKeepsInv(d, coe, st, b);
    OutcomeAt(d, coe, st, a, b.job);
    OutcomeAt(d, coe, st, b, a.job);
    var s, t := Apply(d, coe, st, a), Apply(d, coe, st, b);
    forall x | x in st
      ensures Apply(d, coe, s, b)[x] == Apply(d, coe, t, a)[x]
    {
      CommuteAt(d, coe, st, a, b, x);
    }
    OutcomeAt(d, coe, s, b, a.job);
    OutcomeAt(d, coe, t, a, a.job);
  }

  lemma CommuteAt(d: Dag, coe: map<string, bool>, st: Statuses, a: Step, b: Step, x: string)
    requires Schedulable(d) && Inv(d, coe, st) && !a.Claim? && !b.Claim? && a.job != b.job
    requires StatusOf(st, a.job).Running? && StatusOf(st, b.job).Running? && x in st
    requires var s, t := Apply(d, coe, st, a), Apply(d, coe, st, b);
      Inv(d, coe, s) && Inv(d, coe, t) && StatusOf(s, b.job).Running? && StatusOf(t, a.job).Running?
    ensures var s, t := Apply(d, coe, st, a), Apply(d, coe, st, b);
      && Apply(d, coe, s, b).Keys == st.Keys == Apply(d, coe, t, a).Keys
      && Apply(d, coe, s, b)[x] == Apply(d, coe, t, a)[x]
  {
    var s, t := Apply(d, coe, st, a), Apply(d, coe, st, b);
    OutcomeAt(d, coe, st, a, x);
    OutcomeAt(d, coe, st, b, x);
    OutcomeAt(d, coe, s, b, x);
    OutcomeAt(d, coe, t, a, x);
    StaysBehind(d, coe, st, st, a);
    StaysBehind(d, coe, st, st, b);
    SameBlocks(d, coe, st, s, b, x);
    SameBlocks(d, coe, st, t, a, x);
  }

  // The status of the run itself.

  function MergeStatus(stored: RunStatus, saved: RunStatus): RunStatus {
    if stored.Waiting? && (saved.Queued? || saved.Pending? || saved.Running?) then saved
    else if Rank(saved) >= Rank(stored) then saved
    else stored
  }

  /** The status of the run goes the same way, but of two at one place the saved one stays. */
  lemma FurtherStatusStays(stored: RunStatus, saved: RunStatus, i: nat, j: nat)
    requires i < 6 && j < 6 && stored in Places()[i] && saved in Places()[j]
    ensures stored.Waiting? && saved in {Queued, Pending, Running} ==> MergeStatus(stored, saved) == saved
    ensures !(stored.Waiting? && saved in {Queued, Pending, Running}) ==>
      MergeStatus(stored, saved) == if i <= j then saved else stored
  {
  }

  /** How a run ends. */
  predicate Final(s: RunStatus) { s.Success? || s.Failed? || s.Cancelled? || s.Expired? }

  /** The stored status after the first k saves. */
  function AfterSaves(stored: RunStatus, saves: seq<RunStatus>, k: nat): RunStatus
    requires k <= |saves|
  {
    if k == 0 then stored else MergeStatus(AfterSaves(stored, saves, k - 1), saves[k - 1])
  }

  /** The last final status among the first k saves, or the one stored at first. */
  function LastFinal(stored: RunStatus, saves: seq<RunStatus>, k: nat): RunStatus
    requires k <= |saves|
  {
    if k == 0 then stored else if Final(saves[k - 1]) then saves[k - 1] else LastFinal(stored, saves, k - 1)
  }

  /** A run that has ended stays ended, as the last of its copies that was saved ended says. */
  lemma {:induction false} LastFinalSaveWins(stored: RunStatus, saves: seq<RunStatus>, k: nat)
    requires k <= |saves| && Final(LastFinal(stored, saves, k))
    ensures AfterSaves(stored, saves, k) == LastFinal(stored, saves, k)
  {
    if k > 0 && !Final(saves[k - 1]) {
      LastFinalSaveWins(stored, saves, k - 1);
    }
  }

  ghost predicate Stays(stored: RunStatus, saves: seq<RunStatus>) {
    forall k :: 0 <= k <= |saves| ==> AfterSaves(stored, saves, k) == stored
  }

  /** How a run has ended survives all saves exactly when every copy saved ended says the same. */
  lemma EndSurvivesExactly(stored: RunStatus, saves: seq<RunStatus>)
    requires Final(stored)
    ensures Stays(stored, saves) <==> forall i :: 0 <= i < |saves| && Final(saves[i]) ==> saves[i] == stored
  {
    if i :| 0 <= i < |saves| && Final(saves[i]) && saves[i] != stored {
      assert AfterSaves(stored, saves, i + 1) != stored;
    } else {
      forall k | 0 <= k <= |saves|
        ensures AfterSaves(stored, saves, k) == stored
      {
        SameEnd(stored, saves, k);
      }
    }
  }

  lemma {:induction false} SameEnd(stored: RunStatus, saves: seq<RunStatus>, k: nat)
    requires Final(stored) && k <= |saves|
    requires forall i :: 0 <= i < |saves| && Final(saves[i]) ==> saves[i] == stored
    ensures AfterSaves(stored, saves, k) == stored
  {
    if k > 0 {
      SameEnd(stored, saves, k - 1);
    }
  }

  /** A cancel is undone by a copy loaded before it exactly when that copy can be finalised: when
      nothing in it runs or waits any more. */
  lemma CancelIsUndoneExactly(before: RunStatus, jobs: seq<WorkflowRuns.JobRun>)
    requires before.Queued? || before.Running?
    ensures MergeStatus(Cancelled, WorkflowRuns.FinalStatus(before, jobs)) != Cancelled
      <==> !WorkflowRuns.Unfinished(jobs)
  {
  }
}
