# Verified model of nusashell's core

This project states and proves what the hard parts of nusashell do: the event bus's delivery
protocol, the workflow graph and its run loop, the `if:` expression language, the two bounded
transcripts, the identifier encoder, the repair of tool-call arguments, device pairing with its
rate limits, and the routing of conversations to accounts.

Code that changes state step by step is modelled by classes and loops proved against
specification functions; what the code promises is then proved about those functions over all
inputs and all runs.

| file | what it models |
|---|---|
| `Bus.dfy` | one subscriber as interleaved atomic steps (publish under the lock, notify, check, wake, send, receive, close), and the bus around it |
| `Collections.dfy` | joined sequences, sizes of sets: shared helpers |
| `Text.dfy`, `Graph.dfy`, `Ordering.dfy`, `BreadthFirst.dfy`, `Dag.dfy` | byte order and the in-place sort, three-colour cycle search, Kahn's order and which order that is, graph building |
| `Scheduling.dfy`, `RunLoop.dfy`, `Batch.dfy`, `WorkflowRun.dfy` | readiness, failure blocking, runs of claim, succeed, fail and skip, the merging of a batch's stale copies, the run object and its tick |
| `Condition.dfy`, `ConditionParsing.dfy`, `ConditionReading.dfy`, `ConditionText.dfy`, `ConditionParser.dfy`, `ConditionEval.dfy`, `ConditionLaws.dfy` | the grammar of `if:`, the parser that advances a position, a printer with the fewest parentheses, evaluation, and what texts come to |
| `Conversation.dfy`, `Chunks.dfy`, `Transcript.dfy`, `TranscriptLaws.dfy` | compaction with archiving, chunks for summary passes, the capped streaming transcript and what its chunks hold |
| `Ulid.dfy`, `Positional.dfy`, `TrailingCommas.dfy`, `ToolArguments.dfy`, `Trimming.dfy` | base-32 identifiers, the trailing-comma scanner (sections 4, 5 and 7 of RFC 8259), fence removal |
| `RateLimit.dfy`, `ReachedBound.dfy`, `Pairing.dfy`, `PairingRuns.dfy`, `TwoSteps.dfy` | the sliding window with in-place pruning and overlapping requests, the challenge and the service, whole runs, runs in which loads and saves are steps of their own |
| `Router.dfy`, `RouterRuns.dfy` | sticky bindings, cooldowns and circuits, whole runs |

Clock readings are integers passed in (non-decreasing where a lemma says so); random values, the
hash, the JSON decoder and the success of store calls are parameters. In `PairingRuns` and
`TwoSteps` fresh random identifiers are assumed not to collide.

Where the code and its promises part, the code is modelled and the exact condition is proved:

- An identifier has 25 characters after its prefix, not the 26 that `domain/ids.go:24-25` and
  `domain/ids.go:46` say, and its last three random bits are dropped (`LengthIsTwentyFive`,
  `EqualExactlyOnTopBits`). It sorts by time up to the 48-bit wrap (`LaterSortsAfter`).
- A job skipped by its condition without `continue_on_error` leaves its dependents queued for
  ever, so the run neither proceeds nor finalises (`StallsExactlyBehindSkips`, `HeldForever`,
  `SkippedNeedStallsTheRun`); some run of a workflow stalls exactly when a job that another one
  needs carries a condition and lacks `continue_on_error` (`StallsArePossibleExactly`), so without
  conditions no run does (`SkipFreeLoopGoesOn`). The skip also leaves the transition table
  (`StepsKeepToTheTable`). That table is documentation only: nothing but its own test calls
  `CanTransition` (`domain/run.go:450`).
- A run that has ended takes the status of the last copy that is saved ended: the merge lets the
  incoming status win on equal rank. It survives exactly when all copies saved ended agree
  (`EndSurvivesExactly`); a cancel is undone by an older copy exactly when that copy can be
  finalised (`CancelIsUndoneExactly`).
- The trailing-comma scanner is idempotent exactly on texts without commas stacked before a
  closing bracket (`IdempotentUnlessStacked`, `NotIdempotentOnMalformedText`).
- A split whose kept tail uses the budget up exactly also arises when the tail holds one
  oversized message followed by weightless ones (`SplitKeepsLongestSuffix`).
- Compaction conserves messages exactly when every handover carries the checkpoint prefix
  (`ConservationNeedsTheMark`).
- The router's announced reset is present and not too late exactly when no account is free right
  after the pick; it can be too early, and it is exact under the condition of `ResetIsExact`. A
  circuit is never shortened by a later mark; a cooldown is (`CooldownCanShorten`).
- Counted failures of exchanges are bounded by ten only while exchanges of a source do not overlap:
  the check comes before the lock. With overlap the bound is ten less one plus the most ever in
  flight, and it is reached (`GuessesAreBounded`, `WindowBound`, `BoundIsReached`).
- The limiters read the clock before they take the lock (`application/pairing.go:152-154`,
  `application/pairing.go:173-175`, `application/pairing.go:193-195`), so readings may reach the
  lock out of order. For exchanges the bound is the same. A request for a slot at creation is in
  flight from its reading, and the same bound holds and is reached (`CreationBound`,
  `CreationBoundIsReached`); the maximum itself holds while readings come to the lock in order
  (`InOrderBound`), and over all runs exactly when creations do not overlap, or the maximum is one,
  or the window is empty (`PlainMaximumExactly`). With a window of ten and a maximum of two, slots
  at 1, 2 and 12 and then one for a request that read 5 make three in the ten after zero
  (`LateLockExceeds`). A request below the maximum is always let through; one at the maximum is
  refused if no later reading has come to the lock before it (`AdmitsExactlyBelowTheCeiling`).
- An approval or rejection loads and saves in two steps. It is the one-step decision exactly when
  the challenge is still pending at the save, or already carries that very decision
  (`SaveIsADecision`). The theorems of `PairingRuns` are about decisions of that kind; `TwoSteps`
  has loads and saves apart: a state leads on exactly when the save finds the challenge pending or
  decided in the same way (`LeadsOnExactly`), and a challenge that is used up stays so exactly as
  long as no copy of it is saved (`StaysSpentExactly`, `OneSessionUnlessSaved`).
- A claimed challenge is used up even when its session cannot be made (`ExchangeOutcome`).

## Model

| member | source | states |
|---|---|---|
| BusProtocol.Subscriber.PublishUnderLock | application/bus.go:43-71 | one publish under the lock, a step of the protocol: dropped when closed, a normal event dropped behind pending critical ones or a full channel, a critical one never lost; reports whether a wake-up is still owed |
| BusProtocol.Subscriber.LeaveToken | application/bus.go:72-75 | the notify step leaves one token at most |
| BusProtocol.Subscriber.PopOrPark | application/bus.go:80-95 | the deliverer takes the oldest critical event, or clears the pending flag and parks |
| BusProtocol.Subscriber.AwaitToken | application/bus.go:85-90 | a parked deliverer leaves on a token or on close |
| BusProtocol.Subscriber.SendHeld | application/bus.go:96-100 | the held event is sent when there is room, or given up on close |
| BusProtocol.Subscriber.CloseStep | application/bus.go:104-113 | the four stages of close, in order |
| BusProtocol.Bus.Subscribe | application/bus.go:145-152 | a fresh number and a fresh, empty subscriber; the others stay |
| BusProtocol.Bus.Publish | application/bus.go:164-170 | every subscriber takes the steps of one publish, and keeps the invariant of all interleavings |
| BusProtocol.PublishExtendsThePipeline | application/bus.go:43-76 | a publish appends the event to received, buffered, held and queued ones taken together, or drops it whole; on an open subscriber it is dropped exactly when it is not critical and a critical one waits or the channel is full |
| BusProtocol.PublishPlaces | application/bus.go:43-76 | an event that finds room goes straight out, a critical one that does not is queued and owes one token, and nothing else changes |
| BusProtocol.PipelineIsWhatWasAdmitted | application/bus.go:43-113 | in every interleaving the pipeline holds exactly the events that were critical or found room, in order |
| BusProtocol.NothingIsDroppedWithRoom | application/bus.go:43-113 | when every normal event finds room, it is all that was published |
| BusProtocol.FreshSubscriber | application/bus.go:32-41 | a new subscriber is open, has nothing and takes the first event at once |
| BusProtocol.RunKeepsInv | application/bus.go:43-113 | every interleaving keeps order, selection and the wake-up hand-shake |
| BusProtocol.EveryRunDeliversInOrder | application/bus.go:43-113 | in every interleaving what was received, buffered, held and queued, in that order, is an order-preserving selection of what was published and holds each critical event exactly once; nothing is given up before close; nothing is sent on the closed channel; the buffer is bounded |
| BusProtocol.NoLostWakeUp | application/bus.go:61-91 | a parked deliverer with a non-empty critical queue has a token waiting or a publisher about to leave one |
| BusProtocol.InternalStepsDecrease | application/bus.go:78-102 | every step other than publishing and closing uses up a measure |
| BusProtocol.InternalRunsAreBounded | application/bus.go:78-102 | between two publishes the subscriber makes a bounded number of steps |
| BusProtocol.QuiescentMeansDelivered | application/bus.go:78-102 | when no internal step is left before close, the consumer has received the whole pipeline, with every critical event exactly once, in order, and normal events find room again |
| BusProtocol.CloseNeverWaitsForTheConsumer | application/bus.go:104-113 | a close in progress always has an enabled step that is not the consumer's |
| BusProtocol.CloseGoesOn | application/bus.go:104-113 | close can begin at any time, each of its statements takes it one on, nothing else moves it, and nothing is published from the first one on |
| BusProtocol.QuiescentCloseIsDone | application/bus.go:104-113 | a close that can go no further is done, with the deliverer stopped |
| Text.SortStrings | domain/dag.go:194-202 | the exchange sort leaves its array sorted, with the same members |
| Text.SortedIsAscending | domain/dag.go:194-202 | a set has one sorted listing, so sorted results do not depend on map order |
| Text.LessMeans | domain/dag.go:194-202 | of two texts the lesser has ended, or has the lesser byte, where they first differ |
| Graphs.CycleFinder.Visit | domain/dag.go:108-137 | a visit reports a real cycle or finishes its node after all it needs |
| Graphs.FindCycle | domain/dag.go:99-146 | the answer is non-empty exactly when the needs have a directed cycle, and then spells one |
| Graphs.RankedIsAcyclic | domain/dag.go:99-146 | an order with every node after its needs rules out cycles |
| Ordering.Topological | domain/dag.go:148-192 | the counting loop, in whatever order the maps are visited, computes the one reference order |
| Ordering.KahnOrderRanks | domain/dag.go:148-192 | in the reference order every job comes after all its needs, each job once, and nothing more could be unlocked |
| Ordering.KahnOrderIsComplete | domain/dag.go:148-192 | on an acyclic graph the order is a permutation of all nodes |
| Ordering.CompleteOrderIsAcyclic | domain/dag.go:148-192 | a complete order exists only on an acyclic graph |
| BreadthFirst.OrderGoesByTurns | domain/dag.go:165-191 | jobs are listed first come, first served: by the place of the last of their needs in the order, those without needs first, and by name where that is the same |
| BreadthFirst.TurnsDecide | domain/dag.go:165-191 | every listed job has such a place, and of two jobs it decides which comes first |
| Dags.RegisterJobs | domain/dag.go:20-43 | one entry for each job id, and exactly the missing and repeated ids reported |
| Dags.AddNeeds | domain/dag.go:48-83 | the needs of one job: empty, unknown, own and repeated ones left out, the first three reported in order |
| Dags.BuildDag | domain/dag.go:14-97 | reports exactly the defects and a cycle exactly when there is one; Next is the transpose of Needs; Needs are exactly the declared edges; without issues the order is a permutation of the jobs with each after its needs, otherwise empty |
| Dags.NoIssuesMeansSound | domain/dag.go:20-84 | without id defects ids are unique and every need is a job |
| Dags.CleanMeansWellFormed | domain/dag.go:20-84 | no defect is reported exactly when ids are present and unique and every need names another job |
| Scheduling.CheckReady | domain/dag.go:213-226 | the loop decides whether every need is succeeded, or ended with continue_on_error |
| Scheduling.ReadyJobs | domain/dag.go:206-233 | exactly the waiting jobs whose needs are satisfied, in ascending order |
| Scheduling.BlockedByFailure | domain/dag.go:237-257 | as a set, exactly the not yet blocked jobs reachable from the failed one through jobs that are not succeeded, failed, cancelled or running; nothing under continue_on_error |
| Scheduling.Walk | domain/dag.go:242-254 | one walk adds exactly what is reachable from its job, and ends on a schedulable graph |
| Scheduling.DependentsComeLater | domain/dag.go:244-252 | each step of the walk moves later in the order |
| RunLoop.StepKeepsInv | application/automation/execution.go:232-297 | claim, succeed, fail and skip keep that jobs start only on satisfied needs and that failures stop all dependents |
| RunLoop.EveryRunStartsSoundly | domain/dag.go:206-257 | in every run each job that ever started has all needs succeeded or ended under continue_on_error, and a failure only ever blocks queued jobs |
| RunLoop.FailureBlocksOnlyWaiting | domain/dag.go:237-257 | what a failure reaches has never started |
| RunLoop.StallsExactlyBehindSkips | domain/dag.go:213-226 | when nothing runs and nothing is ready, a job is queued exactly when one is held by a skipped need without continue_on_error |
| RunLoop.StallsArePossibleExactly | application/automation/execution.go:342-344 | with conditions on given jobs, some run from the start stops with a job still queued exactly when some job that another one needs carries one and lacks continue_on_error |
| RunLoop.SkipFreeLoopGoesOn | domain/condition.go:22-24 | without conditions, at every moment of every run something runs, something is ready, or nothing is queued |
| RunLoop.SettleWithout | application/automation/execution.go:232-297 | from every reachable state without failures the loop can be run to a stop in which one job, the only one skipped, never gets through |
| RunLoop.HeldForever | domain/dag.go:213-226 | a job held by a skip never starts in any continuation |
| RunLoop.SkippedNeedStallsTheRun | application/automation/execution.go:342-344 | a two-job run that stalls behind a skip |
| RunLoop.EveryRunEnds | application/automation/execution.go:232-297 | a run takes at most two steps for each job |
| RunLoop.StepsKeepToTheTable | domain/run.go:450-470 | every step keeps to the transition table except a skip |
| RunLoop.TableByTarget | domain/run.go:450-470 | the transition table read by its targets; nothing comes after success, skipped and expired |
| Batches.FinishIsAStep | application/automation/execution.go:785-804 | saving a stale copy with a job's outcome makes of the stored statuses exactly what the outcome makes of them |
| Batches.SaveChangesNothing | domain/workflow_run.go:68-84 | merging a copy that is only behind changes no status |
| Batches.FurtherRecordStays | domain/workflow_run.go:68-105 | of two records of a job the further one stays, at the same place the saved one if it has as many finished steps, and a waiting one yields to one that is queued or runs |
| Batches.FurtherStatusStays | domain/workflow_run.go:54-64 | likewise the status of the run, where the saved one stays at the same place |
| Batches.LoadThenFinish | application/automation/execution.go:785-804 | a running job can load its copy and end in any way, and that is its outcome on the store |
| Batches.MergingIsARun | application/automation/execution.go:276-288 | however the jobs of a batch load, save and finish, the stored statuses are those of a legal run of their outcomes in the order they were saved |
| Batches.LastFinalSaveWins | domain/workflow_run.go:56-64 | once a run has ended, its stored status is that of the last copy saved ended |
| Batches.EndSurvivesExactly | domain/workflow_run.go:56-64 | how a run has ended survives all saves exactly when every copy saved ended says the same |
| Batches.CancelIsUndoneExactly | domain/run.go:104-123 | an older copy's finalising replaces a cancelled status exactly when nothing in it runs or waits |
| Batches.OutcomesCommute | domain/dag.go:237-257 | the outcomes of two running jobs may be applied in either order |
| WorkflowRuns.WorkflowRun.JobRunById | domain/run.go:380-390 | the first record with the id, or none |
| WorkflowRuns.WorkflowRun.ClaimJobs | domain/workflow_run.go:5-18 | exactly the queued or pending ones among the ready become running, and exactly they are returned |
| WorkflowRuns.WorkflowRun.FailJob | application/automation/execution.go:653-674 | the job fails and exactly its blocked set is parked |
| WorkflowRuns.WorkflowRun.Summary | domain/run.go:393-420 | each count is the number of records in that status |
| WorkflowRuns.WorkflowRun.Finalize | domain/run.go:104-123 | the status after the summary of the records |
| WorkflowRuns.WorkflowRun.BeginRunning | domain/run.go:63-71 | the run is running unless it waits |
| WorkflowRuns.RunReady | application/automation/execution.go:232-297 | from any state the loop can be in between two batches it ends with nothing running and nothing ready, whatever the outcomes; the records are those of a legal run from there, in which every job that ended meanwhile ended as its outcome says |
| WorkflowRuns.Tick | application/automation/execution.go:232-298 | a tick, the first or a later one, ends the run as success exactly when every job succeeded or was skipped, as failed otherwise, and leaves it open exactly when a skip holds a job back, running if a job has begun; the records are those of a legal run from the records it found |
| WorkflowRuns.SettledStatus | domain/run.go:104-123 | the same of any settled state |
| WorkflowRuns.OpenJobKeepsRunOpen | domain/run.go:104-123 | a job that runs, is queued or waits keeps its run open |
| WorkflowRuns.EndedJobsEndTheRun | domain/run.go:104-123 | without one an active run has failed exactly when some job failed or is blocked; cancelled and expired jobs fail no run |
| ConditionText.GrammarTextsParse | domain/condition.go:48-197 | every text of the grammar, in any white space, parses to its tree: && binds tighter than \|\|, both associate to the left, comparisons do not chain, escapes are undone |
| ConditionText.OneTreePerText | domain/condition.go:48-197 | the grammar is unambiguous |
| ConditionText.ParserDecidesTheGrammar | domain/condition.go:48-197 | the parser accepts exactly the texts of the grammar, with their tree |
| ConditionText.PrintedTreesParseBack | domain/condition.go:48-215 | a printed tree parses back to itself exactly when its names are writable |
| ConditionText.PrintIsMinimal | domain/condition.go:48-197 | no text of the same tree has fewer parentheses than the printed one |
| ConditionParser.IfParser.ParseOr | domain/condition.go:48-66 | the position-advancing method reads what the grammar reads and stops where it stops |
| ConditionParser.IfParser.ParseAnd | domain/condition.go:68-86 | likewise |
| ConditionParser.IfParser.ParseCmp | domain/condition.go:88-110 | likewise |
| ConditionParser.IfParser.ParsePrimary | domain/condition.go:112-175 | likewise |
| ConditionParser.IfParser.ParseQuote | domain/condition.go:177-197 | likewise, escapes undone |
| ConditionParser.ParseText | domain/condition.go:25-33 | a text is accepted whole or refused |
| ConditionEval.EvalIf | domain/condition.go:20-35 | blank text is true, a refused text an error, else the truth of its tree |
| ConditionEval.ConditionsCompose | domain/condition.go:20-35 | two conditions put in parentheses and joined evaluate to the conjunction or disjunction of their values |
| ConditionEval.PrintedConditionsEvaluate | domain/condition.go:217-246 | printing a tree preserves its value |
| ConditionLaws.QuotesCompare | domain/condition.go:239-242 | two strings in quotes are equal, or unequal, exactly when they are |
| ConditionLaws.ComparisonsCompare | domain/condition.go:239-242 | any two accepted texts in parentheses are equal exactly when they show alike, whichever comes first, and unequal exactly when not |
| ConditionLaws.LiteralShows | domain/condition.go:219-220 | a quoted string shows as it is |
| ConditionLaws.NumberShows | domain/condition.go:219-220 | so does a number |
| ConditionLaws.NameShows | domain/condition.go:248-254 | a name shows as what it resolves to, or as nothing |
| ConditionLaws.ConditionShows | domain/condition.go:231-243 | a comparison, a logical operator or a call shows as its truth |
| ConditionLaws.LiteralAlone | domain/condition.go:297-307 | a quoted string alone is true unless it is empty, false or 0 |
| ConditionLaws.NumberAlone | domain/condition.go:297-307 | a number is true unless it is 0 |
| ConditionLaws.NameAlone | domain/condition.go:297-307 | a name is true when it resolves to something that is not empty, false or 0 |
| ConditionLaws.CallOnLiteral | domain/condition.go:223-230 | subject_contains on a quoted string is true exactly when the lowered subject holds the lowered string; a call of any other name is false |
| ConditionLaws.CallOnName | domain/condition.go:223-230 | on a name it looks for what that resolves to |
| ConditionLaws.ConditionsJoin | domain/condition.go:234-238 | texts in parentheses joined by && and \|\| come to the conjunction and the disjunction |
| ConditionLaws.PrecedenceOnLiterals | domain/condition.go:48-86 | && binds tighter than \|\| |
| ConditionLaws.PlainNamesParse | domain/condition.go:152-156 | a dotted name is one name |
| ConditionLaws.CharacterClasses | domain/condition.go:145-156 | which character may stand alone, go on a name or a number, or is white space |
| ConditionLaws.FailsExactly | domain/condition.go:20-35 | white space is true, and any other text fails exactly when it is not of the grammar |
| Conversations.Conversation.AddMessage | domain/conversation.go:605-608 | appends |
| Conversations.Conversation.CompactionSplitIndex | domain/conversation.go:762-780 | the backward loop finds the split |
| Conversations.SplitKeepsLongestSuffix | domain/conversation.go:762-780 | the kept tail is the longest that fits the budget, or one oversized message with nothing of weight after it |
| Conversations.SplitIsDetermined | domain/conversation.go:762-780 | that description fixes the split |
| Conversations.Conversation.CompactionRetention | domain/conversation.go:788-803 | the messages after the split that are not summaries, and their places |
| Conversations.Conversation.Compact | domain/conversation.go:817-836 | the handover, then the retained messages; summaries accumulate |
| Conversations.Conversation.ArchiveMessages | domain/conversation.go:889-901 | exactly what compaction drops, in order |
| Conversations.CompactionConserves | domain/conversation.go:762-901 | over every run with marked handovers the real messages archived, then live, are those ever added, in order, none lost or doubled |
| Conversations.SummariesBeginWithTheMark | domain/conversation.go:743-755 | a summary begins with the checkpoint mark |
| Conversations.ConservationNeedsTheMark | domain/conversation.go:817-836 | and this holds exactly when every handover carries the prefix |
| Conversations.OneSummaryAtTheHead | domain/conversation.go:788-836 | the live list holds at most one summary, at its head |
| Chunks.TakeCompactionChunk | domain/compaction.go:117-129 | the longest prefix that fits, never empty |
| Chunks.PiecesCutTheTranscript | domain/compaction.go:117-129 | repeated chunks join to the input, each fitting or a single message |
| Chunks.SuffixNeedsNoMore | domain/compaction.go:117-129 | dropping messages in front never needs more chunks |
| Chunks.NoCutUsesFewer | domain/compaction.go:117-129 | no other cut into such pieces uses fewer |
| Chunks.SummaryPasses | application/agent/agent_compaction.go:385-392 | the pass loop ends and covers the transcript under any budget for each pass |
| Transcripts.AcpRun.AppendTranscript | domain/acp.go:405-422 | an append merges, replaces or adds, then trims |
| Transcripts.AcpRun.MergeStreamingChunk | domain/acp.go:424-443 | extends the last chunk of content of the same kind, below the merge cap |
| Transcripts.AcpRun.ReplaceTranscriptChunk | domain/acp.go:445-484 | replaces or merges the last chunk of the kind and tool |
| Transcripts.AcpRun.TrimTranscriptCap | domain/acp.go:488-520 | drops chunks in front, then shrinks the last one left |
| Transcripts.ShrinkFits | domain/acp.go:501-519 | a shrunk chunk fits, keeps its identity and a tail of its text, and fills the cap when it was over it |
| TranscriptLaws.ShrinkGoesInOrder | domain/acp.go:501-519 | text goes first, then output, input and the title, each from its front, and nothing else changes |
| Transcripts.TrimKeepsTheEnd | domain/acp.go:488-520 | trimming keeps an end of the transcript, drops no chunk too many, and fits the cap |
| Transcripts.PlacedExtendsText | domain/acp.go:405-484 | before trimming the text of each streamed kind grows by exactly what was delivered |
| Transcripts.EveryRunIsSound | domain/acp.go:405-525 | after any appends the size is within the cap, usage and each tool id occur at most once, and text and thoughts are suffixes of what was delivered |
| Transcripts.NothingIsLostBelowTheCap | domain/acp.go:405-525 | while the transcript fits, no streamed text is lost |
| TranscriptLaws.ToolUpdate | domain/acp.go:445-484 | an update of a tool changes the chunk of that tool and no other, and of that the fields it has a value for |
| TranscriptLaws.UsageUpdate | domain/acp.go:445-460 | a usage report takes the place of the one before it, and nothing else changes |
| TranscriptLaws.StreamUpdate | domain/acp.go:424-443 | text goes on in the last chunk but for usage reports, of the same kind and at most 64 KiB, and nothing else changes |
| TranscriptLaws.StandsAtTheEnd | domain/acp.go:405-422 | anything else stands at the end as delivered |
| TranscriptLaws.RunHoldsLastValues | domain/acp.go:405-484 | after any run below the cap every tool ever named has its one chunk, which holds in each field the last value delivered under its id, and the usage report is the last one delivered |
| TranscriptLaws.BytesAdd | domain/acp.go:432-436 | the bytes of a text are those of its runes in UTF-8 |
| TrailingCommas.StripTrailingCommas | domain/toolutil.go:87-122 | the flag-keeping loop computes the scanner function |
| TrailingCommas.StripsExactlyTheTrailingCommas | domain/toolutil.go:87-122 | a JSON tree printed in any layout with trailing commas, white space around it included, comes out printed without them, strings untouched |
| TrailingCommas.IdentityOnJson | domain/toolutil.go:87-122 | valid JSON text, white space around it included, is not changed |
| TrailingCommas.SecondPass | domain/toolutil.go:87-122 | a second pass removes exactly the stacked commas |
| TrailingCommas.IdempotentUnlessStacked | domain/toolutil.go:87-122 | the scanner is idempotent exactly on texts without stacked commas |
| TrailingCommas.NotIdempotentOnMalformedText | domain/toolutil.go:87-122 | a text on which it is not |
| ToolArguments.RepairToolCallArguments | domain/toolutil.go:46-63 | the repaired text, the trimmed text or {}, whichever decodes first |
| ToolArguments.Repair | domain/toolutil.go:46-63 | the result always decodes, or is {} |
| ToolArguments.RepairsObjects | domain/toolutil.go:46-63 | an object text with trailing commas, in any white space, is repaired to the text without them |
| ToolArguments.RepairsFencedObjects | domain/toolutil.go:65-85 | so is one in a plain or json fence |
| ToolArguments.FencesExactly | domain/toolutil.go:65-85 | a text has fence contents exactly when it is a fence, plain or json, closed at its end but for newlines, around them |
| ToolArguments.RepairFallsBack | domain/toolutil.go:46-63 | without trailing commas if that decodes, as it is if only that does, the empty object otherwise |
| Ulids.NewULID | domain/ids.go:26-51 | the byte, bit and character loops compute the base-32 digits of the top 125 bits of clock and random bytes |
| Ulids.TimeBytes | domain/ids.go:27-32 | six bytes, high one first, of the clock modulo 2^48 |
| Ulids.Bits | domain/ids.go:39-44 | the bits are the same number in base 2 |
| Ulids.Encode | domain/ids.go:45-49 | five bits to the character, the rest dropped |
| Ulids.CharsKeepOrder | domain/ids.go:21-53 | string order of equally long digit texts is number order |
| Ulids.OrderIsStampOrder | domain/ids.go:21-51 | identifiers of one prefix sort as their top 125 bits |
| Ulids.LaterSortsAfter | domain/ids.go:21-51 | identifiers from different milliseconds sort by time, whatever the random bytes, modulo 2^48 |
| Ulids.EqualExactlyOnTopBits | domain/ids.go:39-49 | two identifiers agree exactly when the clocks and all random bits but the last three do |
| Ulids.LengthIsTwentyFive | domain/ids.go:45-51 | 25 characters after the prefix |
| Ulids.AlphabetIsCrockfords | domain/ids.go:53 | the characters are the digits and the capital letters in order, without I, L, O and U |
| RateLimit.Prune | application/pairing.go:197-203 | pruning in place leaves exactly the later times, in order |
| RateLimit.Limiter.CheckBucket | application/pairing.go:189-211 | admits exactly below the maximum in view, recording now; the empty source always |
| RateLimit.Limiter.CheckExchange | application/pairing.go:148-165 | answers without taking a slot |
| RateLimit.Limiter.RecordFailure | application/pairing.go:169-186 | takes one slot |
| RateLimit.TheHostIsFree | application/pairing.go:149-151 | the host itself is never refused and leaves no trace |
| RateLimit.CheckBucketIsTwoEvents | application/pairing.go:189-211 | a slot taken is a check and a record with the same reading |
| RateLimit.PruningIsInvisible | application/pairing.go:189-211 | whatever was pruned, no window could have seen it whose end no reading so far has passed, in whatever order the readings came to the lock |
| RateLimit.BucketsOnlyForget | application/pairing.go:189-211 | a bucket never shows more than its source took, whatever the order of the readings |
| RateLimit.AdmitsExactlyBelowTheCeiling | application/pairing.go:148-211 | a request is let through if its source took fewer than the maximum in the window ending with its reading, counted over its whole history, and only then if no later reading came to the lock before it |
| RateLimit.WindowBound | application/pairing.go:148-186 | over a whole run of overlapping exchanges, with readings in any order at the lock, no source takes more slots in any half-open stretch of the window's length than the maximum less one plus the most ever in flight; those let through within the stretch and still in flight count in |
| RateLimit.CreationBound | application/pairing.go:189-211 | so it does over a whole run of overlapping creations, each in flight from its reading of the clock |
| RateLimit.InOrderBound | application/pairing.go:189-211 | when readings come to the lock in order, never more than the maximum |
| RateLimit.OneSlotBound | application/pairing.go:189-211 | nor when the maximum is one, in whatever order they come |
| ReachedBound.BoundIsReached | application/pairing.go:148-186 | for every window, maximum and number in flight some run of exchanges takes exactly that many |
| ReachedBound.CreationBoundIsReached | application/pairing.go:189-211 | so does some run of creations, from a maximum of two on |
| ReachedBound.PlainMaximumExactly | application/pairing.go:189-211 | the maximum itself holds over all runs of creations exactly when they do not overlap, or it is one, or the window is empty |
| ReachedBound.LateLockExceeds | application/pairing.go:193-195 | a run of four creations that takes three slots under a maximum of two |
| Pairing.PairingChallenge.constructor | domain/pairing.go:39-47 | a new challenge is pending and expires after its time to live |
| Pairing.PairingChallenge.Approve | domain/pairing.go:69-77 | a pending, unexpired challenge is approved, any other refused and unchanged |
| Pairing.PairingChallenge.Reject | domain/pairing.go:81-89 | likewise rejected |
| Pairing.PairingChallenge.MarkUsed | domain/pairing.go:94-105 | an approved, unexpired challenge is used, any other refused and unchanged |
| Pairing.PairingService.CreateChallenge | application/pairing.go:216-242 | the new books and the reply, on every path |
| Pairing.PairingService.ApproveChallenge | application/pairing.go:271-289 | likewise |
| Pairing.PairingService.RejectChallenge | application/pairing.go:292-307 | likewise |
| Pairing.PairingService.AdmitExchange | application/pairing.go:342-344 | the check before the lock |
| Pairing.PairingService.Refuse | application/pairing.go:349-375 | the tests of an exchange, in the order of its refusals |
| Pairing.PairingService.ExchangeAdmitted | application/pairing.go:347-409 | the serialised part of an exchange, on every path |
| Pairing.PairingService.ExchangeChallenge | application/pairing.go:338-409 | both parts, when nothing comes between them |
| Pairing.ExchangeOutcome | application/pairing.go:347-409 | exactly when an exchange that was let through issues a session, and exactly when it uses up its challenge |
| Pairing.DecisionOutcome | application/pairing.go:271-307 | exactly when a decision is taken; otherwise nothing changes, and other challenges never do |
| Pairing.DecisionIsAnswered | application/pairing.go:311-325 | how a decision that is not taken is answered |
| Pairing.CreationOutcome | application/pairing.go:216-242 | a creation is refused exactly when five slots are taken in the minute before its reading; admitted, generated and saved it stores a pending challenge for five minutes and hands out its code, else it stores nothing |
| Pairing.WrongExchangesCost | application/pairing.go:349-372 | an exchange costs a remote source a slot exactly when its challenge is unknown, expired, rejected or used or its code is not the challenge's |
| Pairing.ExchangeIsAnswered | application/pairing.go:349-409 | the answer in each of these cases and in the others, and that a wrong exchange changes no challenge |
| Pairing.SessionIsFor | application/pairing.go:387-409 | the token's hash, times and device of the session an exchange issues |
| PairingRuns.StepMoves | application/pairing.go:271-409 | one operation moves a challenge only by a decision on it in time, or by its exchange |
| PairingRuns.Lifecycle | domain/pairing.go:57-105 | in every run a challenge's code and expiry never change and its state only moves from pending to approved to used, or from pending to rejected |
| PairingRuns.OneSessionPerChallenge | application/pairing.go:336-409 | two successful exchanges are of different challenges |
| PairingRuns.SessionStory | application/pairing.go:271-409 | behind every session: its challenge was made, then approved before expiry, then exchanged before expiry for a code with the same hash, and is never rejected |
| PairingRuns.SessionsAreTheSuccesses | application/pairing.go:383-404 | the store holds one session for each successful exchange |
| PairingRuns.SessionOrigin | application/pairing.go:383-404 | every stored session is the one its exchange issued |
| PairingRuns.BucketsAreSlots | application/pairing.go:216-377 | the buckets of either limiter are those of its run on the service's events, whose slots are the admitted creations and the counted refusals of exchanges |
| PairingRuns.GuessesAreCharged | application/pairing.go:349-372 | over a whole run exactly the wrong exchanges are charged |
| PairingRuns.GuessesAreBounded | application/pairing.go:145-186 | a remote source gets at most ten less one plus the most of its exchanges in flight wrong exchanges in any half-open minute of a run, wrong as the store has their challenge |
| PairingRuns.CreationsAreBounded | application/pairing.go:136-211 | and at most five less one plus the most of its creations in flight creations admitted |
| PairingRuns.SaveIsADecision | application/pairing.go:271-307 | saving a decision made on an earlier copy is the decision in one step exactly when the challenge is still pending or already so decided |
| TwoSteps.DecisionAtOnce | application/pairing.go:271-307 | a load and a save with nothing between are the decision in one step |
| TwoSteps.ClaimAtOnce | application/pairing.go:347-409 | likewise for the claim of an exchange |
| TwoSteps.WholeIsOneStep | application/pairing.go:216-242 | any other operation is one step on the store |
| TwoSteps.StoryKeeps | application/pairing.go:271-409 | in every run of loads and saves, copies and the claim under way are of stored challenges, with their code and expiry |
| TwoSteps.LeadsOnExactly | infrastructure/sqlitestore/pairing.go:77-100 | a save leads the challenge on exactly when it finds it pending or decided in the same way |
| TwoSteps.TimelyLifecycle | domain/pairing.go:57-105 | while every save is of that kind, challenges live as with decisions in one step |
| TwoSteps.StaysSpentExactly | application/pairing.go:336-409 | a challenge that is used up stays so, claimed by nobody, exactly as long as no copy of it is saved |
| TwoSteps.OneSessionUnlessSaved | application/pairing.go:336-409 | a challenge yields no second session unless a copy of it is saved after its claim |
| TwoSteps.SessionStems | application/pairing.go:271-409 | in every run, whatever comes between loads and saves, a session goes back to an approval that found its challenge pending and unexpired and then a claim that found it approved, unexpired and with its code |
| Router.CodexAccountRouter.PickAccountDetailed | application/codex_router.go:99-142 | the table and the pick after every path |
| Router.CodexAccountRouter.IsBlocked | application/codex_router.go:231-261 | blocked by a cooldown or circuit up to and including its end; ended blocks are forgotten |
| Router.CodexAccountRouter.EarliestUnblock | application/codex_router.go:266-281 | the loop computes the soonest end of a single block after now |
| Router.CodexAccountRouter.PreferAccount | application/codex_router.go:156-167 | all bindings cleared, the account unblocked and preferred |
| Router.CodexAccountRouter.MarkRateLimited | application/codex_router.go:172-179 | a cooldown from now, replacing any other |
| Router.CodexAccountRouter.MarkCircuitOpen | application/codex_router.go:186-197 | a circuit that is never shortened |
| Router.CodexAccountRouter.CircuitOpenUntil | application/codex_router.go:215-227 | the end of the account's circuit if that holds, else zero; a circuit that has ended is forgotten |
| Router.CodexAccountRouter.ResetCircuit | application/codex_router.go:202-210 | both blocks lifted |
| Router.PickMeans | application/codex_router.go:96-142 | the bound account while it can serve, else the provider's last one, else the first free one, else that all are blocked; only this conversation is rebound; the provider's last account changes exactly when the first free one is taken, and to that; no standing block changes |
| Router.PickNeverBlocked | application/codex_router.go:99-142 | a pick over some accounts fails exactly when all are blocked, and never returns a blocked one |
| Router.PickedIsClean | application/codex_router.go:99-142 | the account that is picked has no block left in the table, not even one that has ended |
| Router.NothingToPick | application/codex_router.go:100-102 | without accounts nothing is picked and nothing changes |
| Router.ResetFrees | application/codex_router.go:153-210 | a reset or preferred account is free at once, and no other account's blocks change |
| Router.MarksBlock | application/codex_router.go:169-197 | a cooldown blocks exactly until its end besides what else blocks, a circuit until the later of two ends |
| Router.NothingIsMarked | application/codex_router.go:153-210 | without an account, a provider or a time nothing changes |
| Router.EndedIsForgotten | application/codex_router.go:215-261 | a block that has ended when its account is asked for is forgotten |
| Router.AllBlockedUntilLastStand | application/codex_router.go:231-261 | all accounts stay blocked exactly up to the earliest of their last block ends |
| Router.EarliestIsSoonest | application/codex_router.go:266-281 | zero exactly when no block ends after now, else the soonest such end |
| Router.ResetIsInTime | application/codex_router.go:266-281 | the announced reset is present and not too late exactly when no account is free right after now |
| Router.ResetIsExact | application/codex_router.go:82-84 | exactly when it is the first real release |
| Router.ResetCanBeEarly | application/codex_router.go:266-281 | a table for which it is too early |
| RouterRuns.OpenCircuitIsNeverPicked | application/codex_router.go:181-261 | an account marked circuit-open until T is returned by no pick at or before T unless reset or preferred |
| RouterRuns.CooldownIsRespected | application/codex_router.go:169-247 | likewise for a cooldown, unless a shorter one replaces it |
| RouterRuns.CooldownCanShorten | application/codex_router.go:172-179 | a later, shorter mark does shorten it |
| RouterRuns.PicksStick | application/codex_router.go:18-20 | a conversation's next pick is its last one while that can serve and no preference intervenes, whatever other conversations do |
| RouterRuns.LastPickServesNext | application/codex_router.go:119-134 | after a pick that took the first free account, the next conversation of that provider without a usable binding gets it while it can serve, until another such pick or a preference |
| RouterRuns.PreferenceIsHonoured | application/codex_router.go:153-167 | a preference decides the next pick of every conversation with the provider |

## Left out

- The list of critical event types and event payloads: an event carries its publish index and whether it is critical (`application/bus.go:115-138`).
- The registry lock and unsubscribe of the bus: subscribers are independent, and close is modelled for one subscriber.
- Deep copies, timestamps and reasons in run records; of `MergeRun` only the statuses of jobs and run are modelled, and the number of finished steps of a job is any number.
- Waiting and cancelled jobs in the run loop: parked steps, wake-ups and cancellation come from outside the loop.
- RunReady: the jobs of a batch finish one after the other within the batch; `MergingIsARun` covers jobs that overlap on copies of their own.
- Bus.Publish: the offers of one publish to different subscribers come one after the other with nothing between; `RunKeepsInv` covers all interleavings at each subscriber.
- Store errors, panics and persistence between ticks.
- EvalIf: names are resolved by a given environment, and values are nothing, booleans, strings and anything else by its rendering; lower-casing and the path rules of `resolveIdent` are not modelled.
- Bytes of an expression or an argument text are characters up to U+00FF; trimming knows the ASCII white space only, and the line and page marks above it are not trimmed.
- Token estimates of messages: a message has a weight, whatever the estimate.
- Compaction to an opaque blob (`CompactWithBlob`, `ArchiveBlobMessages`).
- Invalid UTF-8 in transcripts: a character is one rune.
- The JSON decoder: any predicate on texts.
- The backing array shared by a pruned slice and the bucket that stores it: a bucket is a sequence, pruned in an array of its own.
- ApproveChallenge: one step; `TwoSteps` has its load and its save apart.
- RejectChallenge: likewise.
- ExchangeAdmitted: likewise for the load and the save of its claim.
- Lifecycle: about runs of such single steps; with loads and saves apart it is `TimelyLifecycle`.
- OneSessionPerChallenge: likewise; with loads and saves apart it is `OneSessionUnlessSaved`.
- SessionStory: likewise; with loads and saves apart it is `SessionStems`.
- A pairing service without a store, which answers every call with an internal error.
- Listing, validating, touching and revoking sessions, and challenge status for polling: each settled by reading one branch.
- `StickyAccount`, which only reports, and the nil guards of every component.
- The router's state file, and logging everywhere.
- Providers, retries, settings, model tiers, memory similarity, transports and the front end.
