# autofork: a verified model of the scheduler

autofork's daemon schedules *forks* (background agents) for coding sessions. A session
reports its Stops, prompts and end; the daemon answers a parked Stop poll with a *wake*
naming the forks to spawn now, holds dependents back, and releases them on a later Stop
once their predecessors have finished. This project models that daemon and proves what it
keeps over whole runs.

Three layers: what each step does to the tables is a function on values (`Db`, `Polls`,
`World`), and the methods that work in place (`Store`, `Planner`'s loops, `Schedule`'s
fixpoint, `Daemon`) are proved equal to those functions. Over every run of the state machine
(`IsRun(env, trace)`) each decision of these functions is proved to be the one a direct rule
makes, stated on the fork files, the configuration and the trace's own events, answers and
recorded rows; the remaining theorems say what the decisions amount to over whole runs.

| module | what it holds |
|---|---|
| `Text`, `Columns`, `Frontmatter`, `Wake`, `Notification` | text codecs: substring search, comma-joined columns, frontmatter splitting, the spawn fingerprint, notification envelopes |
| `Transcript`, `Registry` | tail reading by offset; the spawn registry a delta updates |
| `Fork`, `Moments`, `Schedule` | triggers and latch keys; elapsed moments; dependency resolution with cycle breaking |
| `Store`, `Planner` | the tables and the mutable store; selection, issuing and releasing |
| `Polls` | parked polls, the liveness count, grace timers |
| `Core`, `Latches`, `Throttles`, `Ledger`, `Progress` | a history beside the tables, and one invariant per module |
| `Budgets` | counting issues against latch rows, pauses and thresholds |
| `Acts`, `Machine`, `Runs` | the state machine; every step is a calm change and one act; the invariants hold in every run |
| `Sessions`, `Sightings`, `Rosters`, `Rows`, `Latchings` | what each table holds in every state of every run, told by the events and answers before it |
| `Activity`, `Grace`, `Protocol` | exactly which prompts begin a new pause, which lost poll closes its session, and when a poll is open or cancelled |
| `Choices`, `Batches`, `Releases` | exactly which forks a poll issues, which of them it holds and for whom, and when a Stop hands a held one over |
| `Bounds`, `Gaps`, `Deliveries`, `Draining`, `ReleaseOrder`, `OutOfOrder` | what these rules add up to over whole runs |
| `Daemon` | the daemon as an object whose methods do what the machine says |

The history (`Hist`) records which batch each row of the runs table belongs to, which latch
it consumed and what became of it. It decides nothing. Where a theorem counts something an
observer can see (wake answers, spawn blocks, rows since the last close), the count is
defined on the trace's own answers, events and tables and proved equal to the history's.

## Assumptions

- Each step is atomic: a prompt, a Stop up to parking or answering, an evaluation together
  with issuing its wake, a close, a timer check. The code does not hold the store lock from
  selection to issuing, and it ignores what `try_latch_fire` returns
  (`crates/autofork-daemon/src/planner.rs:242`).
- One clock reading per step, except that reading the transcript has its own. The clock may
  step back between steps. Clock readings are integers, bounded to the i64 range where a
  theorem needs it; the `as i64` casts of durations and the wrapping sum of a baseline and a
  deadline are modelled (`AsI64`, `WrapI64`), as in a release build.
- A cancelled poll resolves without a wake.
- The tags of fork files are as the parser produces them, where a theorem reads them back from
  a stored column (`CleanFiles`; `Columns.ParsedTagsRoundTrip` says the parser's are).
- Fork files and configuration do not change during a run; which forks discovery sees may
  differ from step to step. The order in which the store lists rows is an input.
- Store operations succeed.
- The wait loop and debounce of a poll are over-approximated: a parked poll may look at its
  forks without issuing (`Refreshed`), or evaluate and issue (`Evaluated`), at any time. A
  debug build panics where a sum overflows; that is not modelled.

## Where properties have conditions

- Dependents drain only if predecessors' names survive being stored in a comma-joined
  column. `Progress.ReleasedIffStorable` says exactly when; `Progress.CommaNameExample` shows
  names for which they do not.
- Deliveries follow dependency order only if no older run of the predecessor was unfinished
  at issue: any recorded run that ends after the hold counts.
  `OutOfOrder.OutOfOrderExactly` says exactly when a chain is handed over out of order.
- Splitting a transcript delta keeps the registry exactly under `Registry.SplitSafe`;
  `Registry.SplitCanLose` is a delta where it does not.
- A deadline whose sum with the baseline reaches 2^63 seconds counts as elapsed at once
  (`Moments.DeadlineExact`, `Moments.PrefixExactly`, `Moments.PipelineExactly`), and a
  throttle of 2^63 seconds or more is never enforced (`Planner.WindowExact`).
- A fork file's path that quotes the spawn fingerprint decides the recovered name
  (`Wake.NameReadBack` covers every path).
- The comment in `crates/autofork-core/src/schedule.rs:62-63` says a cut frees a member of a
  cycle. The code cuts the first unrunnable node, which may only be downstream of one
  (`Schedule.CutOffCycle`); `Schedule.DroppedExactly` says exactly which edges go.
- A context trigger that is met but latched hides the fork's idle trigger, since the first
  matching moment wins, so a fork need not fire in every pause. `Planner.MaskedExactly` says
  exactly when; the theorems say "at most once per pause".

## Model

| member | source | states |
|---|---|---|
| `Bounds.WakesBounded` | crates/autofork-daemon/src/planner.rs:84-333 | in every state of every run, a session's wake answers since its last close, releases included, are at most its issued runs, and those at most the sum over its forks of pauses and distinct context thresholds |
| `Bounds.ShareOfBound` | crates/autofork-daemon/src/planner.rs:47-55 | a rostered fork's share of the bound is its session's pause epochs since the close plus its distinct context labels |
| `Bounds.BoundDoesNotGrow` | crates/autofork-daemon/src/daemon.rs:275-341 | over a stretch in which a session's prompts are only wake reminders and completions of recorded forks, however many Stops and evaluations occur, its wakes stay within what the pauses counted at the start allow to the forks rostered at the end; that is the bound at the start when no fork joined the roster |
| `Bounds.EpochStays` | crates/autofork-daemon/src/daemon.rs:264-346 | such a stretch never advances the pause epoch |
| `Bounds.WakeReturnsAsContinuation` | crates/autofork/src/hook.rs:111-124 | a wake payload handed back as a prompt, however wrapped, is classified as a continuation |
| `Bounds.WakesCounted` | crates/autofork-daemon/src/daemon.rs:410-483 | the wake answers counted on the trace since the last close are the ones the history counts |
| `Bounds.LegsCounted` | crates/autofork-core/src/store.rs:400-413 | a leg starts at the length of the runs table and at the pause epoch of the last close |
| `Bounds.IssuesAreLatches` | crates/autofork-daemon/src/planner.rs:231-243 | since the last close a fork's runs number exactly its latch rows |
| `Bounds.OncePerThreshold` | crates/autofork-daemon/src/planner.rs:151-166 | since the last close a fork is never issued twice for one context threshold |
| `Bounds.OncePerPause` | crates/autofork-daemon/src/planner.rs:47-55 | while the pause epoch stays the same a fork is issued for idleness at most once, whatever deadlines it lists |
| `Budgets.LatchConservation` | crates/autofork-core/src/store.rs:486-503 | under the invariant, leg issues and latch rows of a fork are equally many |
| `Budgets.IssuesBounded` | crates/autofork-daemon/src/planner.rs:154-166 | all issues of a leg stay within the rostered forks' budgets |
| `Latches.IssueLatch` | crates/autofork-daemon/src/planner.rs:231-243 | issuing a sound batch keeps: one latch per leg issue, none shared, every key allowed by the fork file and the leg's pauses |
| `Latches.CloseLatch` | crates/autofork-core/src/store.rs:400-413 | closing a session keeps the latch invariant of all sessions |
| `Fork.LatchKeyInjective` | crates/autofork-daemon/src/planner.rs:47-55 | a latch key exists exactly for the triggers that can match; two keys coincide only for idle triggers of one pause or the same context threshold |
| `Fork.LabelInjective` | crates/autofork-core/src/frontmatter.rs:93-108 | context labels are equal as strings only for equal triggers |
| `Fork.LabelsDistinct` | crates/autofork-core/src/frontmatter.rs:93-108 | so are the labels of any two triggers |
| `Gaps.ForkGaps` | crates/autofork-daemon/src/planner.rs:121-127 | two runs of a fork since its session's last close are at least its throttle apart, for every throttle from 1 second to below 2^63 |
| `Gaps.OversizedThrottleIgnored` | crates/autofork-daemon/src/planner.rs:121-127 | with a throttle of 2^63 seconds or more a fork fires exactly when it would without one |
| `Planner.WindowExact` | crates/autofork-daemon/src/planner.rs:122-124 | a throttle window is enforced as written iff it is below 2^63 seconds, and not at all otherwise |
| `Gaps.TagGaps` | crates/autofork-daemon/src/planner.rs:122-150 | with sessions staying in their project, two runs of forks whose files had a throttled tag when they were issued were recorded by one event or are at least its window apart, across sessions and closes, for every window from 1 second to below 2^63 |
| `Rows.RowSaysFile` | crates/autofork-daemon/src/planner.rs:231-240 | over every run, a row of the runs table is recorded by an evaluation, for the session of its poll and at its time, and its fork is rostered under a readable file |
| `Rows.RowKeepsTags` | crates/autofork-daemon/src/planner.rs:166-174 | over every run, the tags stored with a row are exactly those of the file its fork was rostered under when the row was recorded |
| `Rows.CarriesFiled` | crates/autofork-core/src/store.rs:506-553 | in every later state the row still carries exactly those tags |
| `Choices.IssuedExactly` | crates/autofork-daemon/src/planner.rs:84-178 | over every run, when a poll evaluates, a fork of its session is issued exactly when it is rostered under a readable file whose tags the filters admit, its throttle and the windows of its tags are over, and it has a firing trigger it was not issued for yet, all read off the files, the configuration and the events |
| `Choices.TriggerRecorded` | crates/autofork-daemon/src/planner.rs:151-173 | and the label recorded with it is that of the firing trigger |
| `Choices.OnlyPollsIssue` | crates/autofork-daemon/src/planner.rs:201-240 | nothing is issued otherwise, and nothing to a session other than that of the poll |
| `Latchings.LabelLatches` | crates/autofork-core/src/store.rs:469-503 | in every state of every run the latch of a context label is consumed iff the fork was issued under that label since its session was last closed |
| `Latchings.IdleLatches` | crates/autofork-core/src/store.rs:469-503 | and the latch of the current pause iff the fork was issued for idleness since its session was last closed or began a new pause |
| `Rosters.RosterOnTrace` | crates/autofork-core/src/store.rs:418-465 | in every state of every run a session's roster holds exactly the forks listed since it was last closed, under the path of the first listing and stamped with its time, and remembers when each was last issued |
| `Rosters.PathInMeans` | crates/autofork-daemon/src/planner.rs:68-79 | a listing gives a fork the path of its first mention |
| `Sessions.SessionOnTrace` | crates/autofork-core/src/store.rs:261-398 | in every state of every run a session has a row iff some event reported on it; the row holds the project and filters of the last such event, the last model reported, the last token count and offset read, the number of genuine prompts and the first Stop since the last of them, and is open iff the session was touched after its last close |
| `Throttles.IssueThrottle` | crates/autofork-daemon/src/planner.rs:226-240 | issuing keeps the gaps and the roster's memory of the last run |
| `Throttles.CarriesTag` | crates/autofork-core/src/store.rs:525-553 | the stored tag column of a run reports exactly the tags it was issued with |
| `Store.Store.LastRunForTag` | crates/autofork-core/src/store.rs:525-553 | returns the latest run in the project of a fork carrying the tag, none exactly when there is none |
| `Planner.LastRunDecides` | crates/autofork-daemon/src/planner.rs:128-150 | the latest tagged run is inside the window exactly when some tagged run is |
| `Deliveries.DeliveryAccounting` | crates/autofork-daemon/src/planner.rs:231-268 | over every run, counted on its tables, events and answers: a fork's runs = spawn blocks received + row still pending + times it was held when its session closed or saw genuine activity + times it was held when a newer wake held it again |
| `Deliveries.LossesCounted` | crates/autofork-core/src/store.rs:660-723 | the events that drop or overwrite a pending row of a fork are exactly its dropped and superseded issues |
| `Deliveries.SupersedeMeans` | crates/autofork-core/src/store.rs:660-685 | a held fork issued again without a block for it is exactly one whose pending row the batch overwrites |
| `Deliveries.BlocksAreDeliveries` | crates/autofork-daemon/src/planner.rs:287-333 | the blocks a session received for a fork are exactly its issues with fate delivered, so none is delivered twice |
| `Deliveries.WakesCarryBlocks` | crates/autofork-daemon/src/planner.rs:216-268 | in every run a wake answer carries at least one spawn block: never only held forks |
| `Deliveries.RootBlocksCount` | crates/autofork-daemon/src/planner.rs:244-253 | a wake names each of its roots once and nothing else |
| `Deliveries.ReleaseBlocksCount` | crates/autofork-daemon/src/planner.rs:302-318 | a release names each released dependent once and nothing else |
| `Runs.FatesSettle` | crates/autofork-core/src/store.rs:660-723 | along every run a delivered, dropped or superseded issue keeps that fate |
| `Ledger.Accounting` | crates/autofork-core/src/store.rs:660-723 | held issues of a fork are exactly its pending row |
| `Ledger.IssueLedger` | crates/autofork-daemon/src/planner.rs:226-268 | issuing keeps holds and held issues in step, supersedes a stale hold of the same fork, and pays for its own wake answer with a root |
| `Ledger.ReleaseLedger` | crates/autofork-daemon/src/planner.rs:287-325 | releasing turns held issues into delivered ones and pays for its own wake answer |
| `Draining.StopReleases` | crates/autofork-daemon/src/planner.rs:287-333 | in every run whose batches for the session store predecessors' names faithfully, a Stop that has seen all completions while dependents are held is answered with a release, and fewer remain |
| `Draining.HeldForksDrain` | crates/autofork-daemon/src/daemon.rs:406-412 | from any state on, as long as no new wake is issued to the session, `n` held forks are gone after at most `n` Stops that have seen the completions of what was handed over, whatever other events come between, Stops that have not seen them included |
| `Draining.CleanAfterSuffices` | crates/autofork-core/src/frontmatter.rs:224-249 | fork files whose `after` names are nonempty, trimmed and comma-free make every run store them faithfully, whatever is discovered |
| `Columns.AfterNamesTrimmed` | crates/autofork-core/src/frontmatter.rs:187-249 | every name the `after` parser yields is storable exactly when it has no comma |
| `Progress.NeverDeadlocked` | crates/autofork-daemon/src/planner.rs:287-300 | across overlapping batches, if every fork handed over since a hold has finished since, a nonempty pending set has a releasable member |
| `Progress.IssueProgress` | crates/autofork-core/src/store.rs:660-685 | issuing keeps: what a held fork waits for is held ahead of it or was handed over since |
| `Progress.ReleasedIffStorable` | crates/autofork-core/src/store.rs:660-704 | for any list of predecessors, all finished and no other name on record: the dependent is released iff every piece their names split into is itself one of them |
| `Progress.CommaNameSticks` | crates/autofork-core/src/store.rs:671-704 | a dependent on a fork whose name has a comma waits for the pieces of the name, none of which is the name, and is not released while one of them is on no record |
| `Progress.CommaNameExample` | crates/autofork-core/src/store.rs:671-704 | a finished fork whose name is two clean pieces around a comma, alone on record, does not release its dependent |
| `Columns.SplitOfJoin` | crates/autofork-core/src/store.rs:27-34 | a stored list of any names reads back as exactly what its names split into |
| `ReleaseOrder.ReleaseIsSafe` | crates/autofork-daemon/src/planner.rs:287-300 | every released fork was held, and each predecessor in its block has a spawn whose terminal stamp is at or after the hold |
| `Releases.PendingOnTrace` | crates/autofork-core/src/store.rs:660-723 | in every state of every run a fork is pending iff some event held it back and its session was since neither closed, nor began a new pause, nor was handed the fork; the pending row is the one that event entered |
| `Releases.ReleasedExactly` | crates/autofork-daemon/src/planner.rs:287-325 | over every run, a Stop hands over exactly the pending forks each of whose stored predecessors has a spawn that ended at or after the hold, by the registry read off the transcripts and prompts, and is answered with a wake iff there are any |
| `Releases.ReleaseSays` | crates/autofork-daemon/src/planner.rs:302-333 | each block of a release carries the path, trigger, overlap flag and predecessors of its pending row, in the order the rows are listed |
| `Progress.ReleasedOnPieces` | crates/autofork-daemon/src/planner.rs:287-300 | for any recorded predecessors and any registry a dependent is released iff every piece their names split into has finished since the hold |
| `ReleaseOrder.SpawnsPersist` | crates/autofork-core/src/store.rs:561-633 | until its session closes, a spawn's task id, terminal status and terminal time never change once set |
| `ReleaseOrder.DependencyOrder` | crates/autofork-core/src/store.rs:638-653 | if every earlier hand-over of a predecessor with a storable name had finished at issue and the session spawns only what it is told, the predecessor is handed over between the issue and the dependent's release |
| `OutOfOrder.OutOfOrderExactly` | crates/autofork-core/src/store.rs:638-653 | over every run, for i waiting for j and j waiting too, both still held for their batch, with any number of predecessors: i is handed over ahead of j exactly when every predecessor of i has a run, whenever started, that ended since the issue, and some predecessor of j has none |
| `OutOfOrder.HandedExactly` | crates/autofork-core/src/store.rs:638-704 | over every run a dependent still held is handed over at a Stop iff every piece of its predecessors' names has finished since the issue |
| `OutOfOrder.OutOfOrderChain` | crates/autofork-core/src/store.rs:638-653 | on a chain q, j, i this is when some run of j ended since and none of q |
| `OutOfOrder.OlderRunReleasesEarly` | crates/autofork-core/src/store.rs:614-653 | when an older run of j ends before q, i is released while j is still held, on all such tables |
| `OutOfOrder.OlderRunExample` | crates/autofork-core/src/store.rs:638-653 | tables with the chain q, j, i where this happens, for any clean names |
| `Schedule.ResolveDeps` | crates/autofork-core/src/schedule.rs:22-73 | computes the resolution of the graph in which each node depends on exactly the other nodes its `after` list names, with at most one cut per fork |
| `Schedule.NameGraphExactly` | crates/autofork-core/src/schedule.rs:26-42 | node d is a dependency of node i iff d is another node whose name is in i's `after` list, the last node of that name |
| `Schedule.NameGraphInOrder` | crates/autofork-core/src/schedule.rs:26-42 | the dependencies stand in the order of the `after` list, and none is followed by itself |
| `Batches.HeldExactly` | crates/autofork-daemon/src/planner.rs:213-268 | over every run, a recorded fork gets no block iff its file names another recorded fork from which no chain of such mentions goes round through rows from its own on; its pending row then carries its path, trigger and overlap flag and, in the order of its file, exactly the names of those forks |
| `Batches.MentionHolds` | crates/autofork-daemon/src/planner.rs:213-268 | in particular a fork whose file names a recorded fork that reaches no cycle gets no block and has a pending row naming it |
| `Batches.RootsGoOut` | crates/autofork-daemon/src/planner.rs:231-268 | over every run, an evaluation is answered iff it recorded a row, with exactly one block for every row that waits for no other, in the order of the rows, carrying its roster path, recorded trigger and its file's overlap flag |
| `Batches.RowsInOrder` | crates/autofork-daemon/src/planner.rs:92-176 | the rows follow the order in which the roster was listed |
| `Schedule.ResolveCorrect` | crates/autofork-core/src/schedule.rs:44-72 | the resolved graph is acyclic, lists are only thinned and keep their order, and nodes that reach no cycle keep their list |
| `Schedule.ResolveIsSpared` | crates/autofork-core/src/schedule.rs:44-72 | closed form: node i keeps, in order, exactly the dependencies from which no chain runs into a cycle through nodes of index at least i |
| `Schedule.DroppedExactly` | crates/autofork-core/src/schedule.rs:62-70 | an edge is dropped iff its target reaches a cycle through nodes of index at least the edge's source |
| `Schedule.CutOffCycle` | crates/autofork-core/src/schedule.rs:62-70 | in the graph [[1],[2],[1]] node 0 is on no cycle and loses its edge |
| `Schedule.UnchangedIffAcyclic` | crates/autofork-core/src/schedule.rs:44-72 | a graph comes back unchanged iff it is acyclic |
| `Schedule.AcyclicIffRanked` | crates/autofork-core/src/schedule.rs:44-61 | a graph is acyclic iff every node can be ranked above its dependencies |
| `Schedule.StuckReachesCycle` | crates/autofork-core/src/schedule.rs:45-61 | a node the peeling leaves over reaches a cycle |
| `Schedule.CutShrinks` | crates/autofork-core/src/schedule.rs:62-70 | a cut strictly shrinks the set of nodes that reach a cycle |
| `Schedule.HasRoot` | crates/autofork-core/src/schedule.rs:75-77 | a nonempty acyclic graph has a node without dependencies |
| `Schedule.Roots` | crates/autofork-core/src/schedule.rs:75-77 | returns exactly the nodes without dependencies, ascending |
| `Planner.IssueHasRoot` | crates/autofork-daemon/src/planner.rs:216-268 | a nonempty batch has a member without predecessors, and so a spawn block |
| `Planner.SelectSound` | crates/autofork-daemon/src/planner.rs:84-178 | the batch holds exactly the rostered forks that fire, each once, with its trigger and latch key |
| `Planner.SelectForks` | crates/autofork-daemon/src/planner.rs:84-178 | the selection loop computes the firing forks in roster order, each with the path of its roster row and the overlap flag, `after` list and tags of its file, under the label and latch key of one of its triggers |
| `Planner.MaskedExactly` | crates/autofork-daemon/src/planner.rs:114-166 | a fork with nothing else against it and an elapsed idle deadline fires iff the gauge meets no context trigger of it that is already latched |
| `Planner.MaskedExample` | crates/autofork-daemon/src/planner.rs:154-166 | a concrete fork whose latched context threshold hides its idle trigger |
| `Moments.GaugeGoesFirst` | crates/autofork-daemon/src/daemon.rs:39-50 | the match is the context trigger the gauge meets, and an idle one only when there is none |
| `Planner.BuildWake` | crates/autofork-daemon/src/planner.rs:201-283 | stamping the members one by one has the effect of issuing the batch as a whole; the answer is its roots |
| `Planner.InTurnIsWhole` | crates/autofork-daemon/src/planner.rs:229-267 | stamping in turn equals stamping the whole batch, table by table |
| `Planner.ReleaseDue` | crates/autofork-daemon/src/planner.rs:287-333 | deletes exactly the releasable rows and answers with their blocks |
| `Planner.DebounceKeepsSelection` | crates/autofork-daemon/src/daemon.rs:434-483 | with an unchanged store, a forward clock and fire times that all fit an i64 or none does, every fork selected before the debounce is selected after it, as the same pick |
| `Moments.DebounceOnlyAdds` | crates/autofork-daemon/src/daemon.rs:31-51 | when from the baseline all fire times fit an i64 or none does, earlier moments are a prefix of later ones and an earlier match stays |
| `Moments.PrefixExactly` | crates/autofork-daemon/src/daemon.rs:31-51 | as the clock goes forward from any baseline, earlier moments are a prefix of later ones iff all fire times fit an i64 or none does |
| `Moments.OversizedBreaksPrefix` | crates/autofork-daemon/src/daemon.rs:46-48 | 10 seconds together with 2^63 - 1 seconds break the prefix rule from every baseline but 0 |
| `Moments.DeadlineExact` | crates/autofork-daemon/src/daemon.rs:46-48 | within the clock's range a deadline is judged correctly iff baseline plus deadline is below 2^63; otherwise it counts as elapsed at once |
| `Moments.PipelineIsDirect` | crates/autofork-core/src/moments.rs:59-120 | for a fork whose delays fit when counted from the baseline, matching the elapsed moments succeeds iff a context threshold is met in that window or a positive idle delay has passed |
| `Moments.PipelineExactly` | crates/autofork-daemon/src/daemon.rs:31-51 | the pipeline agrees with the direct rule at all times from the baseline on iff the fork's delays fit, or a context threshold is met anyway |
| `Moments.TriggerExactly` | crates/autofork-core/src/moments.rs:59-101 | the trigger matched is the one that is ready and goes before every other ready one: context triggers first, then idle ones by delay, the order of the file among equals |
| `Moments.ChosenOnce` | crates/autofork-core/src/moments.rs:59-101 | at most one trigger is that |
| `Moments.PercentExact` | crates/autofork-core/src/moments.rs:74-82 | the saturating percentage test is exact unless the gauge itself saturates |
| `Moments.LeftNeverSaturates` | crates/autofork-core/src/moments.rs:27-47 | the resolved window is never below the gauge, so the tokens left are a true difference |
| `Moments.ResolveContextWindow` | crates/autofork-core/src/moments.rs:27-47 | a gauge above 1M is the window; otherwise it is 1M when the model id has one of the three marks or the gauge is above 200k, and 200k when neither |
| `Moments.IdleDeadlines` | crates/autofork-core/src/moments.rs:103-120 | exactly the positive idle deadlines the forks ask for, ascending |
| `Moments.DeadlinesUnique` | crates/autofork-core/src/moments.rs:103-120 | that description determines the list |
| `Moments.ComputeElapsed` | crates/autofork-daemon/src/daemon.rs:31-51 | the loop computes the elapsed moments, gauge first, with the wrapping i64 sum of baseline and deadline |
| `Protocol.ParkedPollIsDirect` | crates/autofork-daemon/src/daemon.rs:413-441 | for a fork whose delays fit, what a parked poll matches at any time is the direct rule, with the last token count read, the window of the last model, and idle time measured from the first Stop since the last genuine prompt |
| `Protocol.ParkedPollKnows` | crates/autofork-daemon/src/daemon.rs:371-427 | in every run a parked poll judges by what its Stop reported and read: project, filters, configuration, pause, first Stop of the pause, last token count, window of the last model |
| `Protocol.PollOnTrace` | crates/autofork-daemon/src/daemon.rs:389-398 | in every run a poll is open exactly from its Stop until it is answered, returns or is lost, and cancelled iff its session saw a prompt, its end or another Stop in between |
| `Protocol.EndsOnce` | crates/autofork-daemon/src/daemon.rs:362-490 | no poll is answered twice |
| `Protocol.TurnIsQuiet` | crates/autofork-daemon/src/daemon.rs:343-345 | no wake goes out mid-turn: a poll that evaluates was registered by its session's last Stop, with no prompt and no end since, and the wake goes to that session |
| `Activity.EpochExactly` | crates/autofork-daemon/src/daemon.rs:232-341 | over every run a step advances a session's pause by one iff it is its prompt and: with task ids, it matches no spawn on record after the catch-up and no wake answer is less than the grace period old; without ids, it was classified as activity, or was not classified and no wake answer is that recent |
| `Activity.WokeKnown` | crates/autofork-daemon/src/daemon.rs:176-181 | the remembered wake is the last wake answer of the run, with the time of its event |
| `Sightings.SpawnsOnTrace` | crates/autofork-daemon/src/daemon.rs:496-546 | in every state of every run the registry holds of a spawn what the transcript readings and prompts since the last close make of it, one after the other |
| `Sightings.SightingExactly` | crates/autofork-daemon/src/daemon.rs:496-546 | what one reading and one prompt make of a row: its first mention, first task id and first end, and nothing else |
| `Registry.RowReadExactly` | crates/autofork-core/src/store.rs:561-633 | the same for one delta: which entry, task id, status and time a row takes from it |
| `Sessions.BaselineIsFirstStop` | crates/autofork-core/src/store.rs:341-363 | in every run the stored baseline is the first Stop since the last genuine prompt |
| `Protocol.WakesCurrentPause` | crates/autofork-daemon/src/daemon.rs:343-345 | a poll that evaluates captured the session's current pause |
| `Protocol.PollProtocol` | crates/autofork-daemon/src/daemon.rs:102-132 | in every run a session has at most one uncancelled poll, the one in `waits`, and its parked count is its number of live polls |
| `Grace.GraceCloses` | crates/autofork-daemon/src/daemon.rs:202-229 | over every run, the grace period a loss started closes the session of the lost poll, and no other, iff the session is open and no start, prompt, Stop, end or other loss of it came since that loss |
| `Polls.CancelKeeps` | crates/autofork-daemon/src/daemon.rs:169-173 | cancelling keeps the poll invariant and leaves the session no uncancelled poll |
| `Polls.RegisterKeeps` | crates/autofork-daemon/src/daemon.rs:389-398 | registering a poll, which cancels a stale one, keeps the invariant |
| `Polls.LoseKeeps` | crates/autofork-daemon/src/daemon.rs:202-208 | losing a poll keeps the invariant, with a generation never used before |
| `Runs.RunInv` | crates/autofork-daemon/src/daemon.rs:241-490 | latches, throttles, ledger, polls and snapshots are consistent in every state of every run |
| `Runs.LegContinues` | crates/autofork-core/src/store.rs:400-413 | until its close a session keeps its leg, its forks' paths and every recorded fact about its spawns |
| `Runs.EpochMoves` | crates/autofork-daemon/src/daemon.rs:330-341 | a step advances a session's epoch by one if it is its genuine prompt, and not otherwise |
| `Registry.IngestIdempotent` | crates/autofork-daemon/src/daemon.rs:503-539 | reading the same delta again, at any time, changes nothing |
| `Registry.SplitsExactly` | crates/autofork-core/src/store.rs:561-633 | reading a delta in two parts gives the same registry up to timestamps iff every row is safe to split, a test on the two parts |
| `Registry.IngestSplits` | crates/autofork-core/src/store.rs:561-633 | in particular when nothing in the first part refers ahead to a spawn or task id of the second |
| `Registry.SplitCanLose` | crates/autofork-core/src/store.rs:614-633 | a completion read ahead of its spawn is lost by a split |
| `Registry.IngestNote` | crates/autofork-daemon/src/daemon.rs:515-533 | one more notification in a delta marks the matching unfinished spawns |
| `Transcript.TailEqualsWhole` | crates/autofork-daemon/src/transcript.rs:36-70 | reads of a growing file at any points consume each complete line once, in order, and stop on a line boundary; one that decodes has consumed every complete line |
| `Transcript.ReadDelta` | crates/autofork-daemon/src/transcript.rs:36-70 | the reading loop returns the complete lines after the offset and where they end; a file that shrank is read from 0 |
| `Transcript.ShrunkIsReread` | crates/autofork-daemon/src/transcript.rs:36-46 | once a file that shrank below the offset has been read, the reader goes on as a fresh one would and keeps what it had |
| `Transcript.DecodesExactly` | crates/autofork-daemon/src/transcript.rs:43-66 | a read succeeds iff every complete line and the unfinished rest decode |
| `Transcript.LinesResume` | crates/autofork-daemon/src/transcript.rs:43-66 | reading on from a line boundary continues the list of complete lines |
| `Wake.FingerprintRoundTrip` | crates/autofork-core/src/wake.rs:77-92 | for every path without the fingerprint, the reader recovers the name iff it is nonempty and free of quotes |
| `Wake.NoEarlierFingerprint` | crates/autofork-daemon/src/transcript.rs:173-182 | no occurrence of the fingerprint starts before the intended one, straddling or not |
| `Wake.SpoofedPath` | crates/autofork-daemon/src/transcript.rs:173-182 | a path with a fingerprint and a later quote decides the name by itself |
| `Wake.UnquotedPath` | crates/autofork-daemon/src/transcript.rs:173-182 | a path with a fingerprint and no later quote: the name found is its tail run on into the prompt's own fingerprint |
| `Wake.NameReadBack` | crates/autofork-core/src/wake.rs:77-92 | the name read back from a spawn prompt, for every path, name and rest |
| `Wake.WakeIsContinuation` | crates/autofork/src/hook.rs:111-114 | the hook reports any wrapped nonempty wake payload as a continuation without ids |
| `Wake.SniffExactly` | crates/autofork/src/hook.rs:105-131 | what the hook reports of any prompt: a continuation when the marker occurs in it or it is a notification, activity otherwise, and the ids of a notification without the marker |
| `Notification.FieldIndependence` | crates/autofork-core/src/notification.rs:68-79 | a field is independent of the payload iff the text ahead of it closes its tag |
| `Notification.ParseExactly` | crates/autofork-core/src/notification.rs:44-79 | a text is a notification iff it begins, white space aside, with the envelope's tag; each field is the trimmed nonblank text between the first opening and the next closing tag of its own name, and absent when there is none |
| `Notification.EnvelopeIndependence` | crates/autofork-core/src/notification.rs:44-59 | the payload changes nothing iff the header ahead of it closes all three fields |
| `Frontmatter.SplitFrontmatter` | crates/autofork-core/src/frontmatter.rs:364-389 | splits into front and body iff the file is an opening line, the front, a closing line and the body, line ends with or without carriage return, the closing line being the first there is |
| `Frontmatter.SplitRebuilds` | crates/autofork-core/src/frontmatter.rs:364-389 | opener, front, optional carriage returns, delimiter, line end and body rebuild the file |
| `Columns.ColumnRoundTrip` | crates/autofork-core/src/store.rs:27-34 | splitting the stored join returns the list iff every entry is nonempty, trimmed and comma-free |
| `Columns.SplitExactly` | crates/autofork-core/src/store.rs:27-34 | a column reads back as the nonblank trimmed texts between its commas |
| `Columns.ParsedTagsRoundTrip` | crates/autofork-core/src/frontmatter.rs:254-282 | every output of the tag parser survives storage |
| `Columns.EnvTagsRoundTrip` | crates/autofork/src/hook.rs:148-162 | every tag list from the environment survives storage |
| `Columns.ParseTags` | crates/autofork-core/src/frontmatter.rs:254-282 | the parser returns the first occurrences of the pieces, in order |
| `Columns.TagPiecesAre` | crates/autofork-core/src/frontmatter.rs:254-282 | the pieces are those of a text, or of the text items of a list |
| `Columns.TagsFromEnv` | crates/autofork/src/hook.rs:148-162 | returns the first occurrences of the pieces, and nothing when there is none |
| `Columns.ParseAfter` | crates/autofork-core/src/frontmatter.rs:187-249 | the parser returns the first occurrences of the named forks, itself excluded |
| `Columns.AfterNamesAre` | crates/autofork-core/src/frontmatter.rs:187-249 | the names are the trimmed nonblank texts and `fork` or, without one, `skill` entries, the fork itself excepted |
| `Columns.AfterNamesProper` | crates/autofork-core/src/frontmatter.rs:224-249 | a fork never comes after itself and names nobody twice |
| `Store.Store.CloseSession` | crates/autofork-core/src/store.rs:400-413 | clears the session's roster, latches, spawns and pending rows and nothing else |
| `Store.Store.UpsertSession` | crates/autofork-core/src/store.rs:261-301 | root and filters follow the event, a known model is kept, the pause state is untouched |
| `Store.Store.MarkSpawnTerminal` | crates/autofork-core/src/store.rs:614-633 | marks the matching unfinished spawns only; reports whether any spawn matched |
| `Daemon.Daemon.HandlePrompt` | crates/autofork-daemon/src/daemon.rs:264-347 | does what the machine says: catch up, attribute, decide, bump and drop if genuine, cancel the poll; cancels the pending close, and advances the epoch iff the prompt is activity by its ids, its classification and the time of the last wake |
| `Daemon.Daemon.StopWait` | crates/autofork-daemon/src/daemon.rs:362-433 | does what the machine says: touch, start the pause, ingest, register, then release or park with a snapshot |
| `Daemon.Daemon.Evaluate` | crates/autofork-daemon/src/daemon.rs:476-483 | does what the machine says: refresh, select over the elapsed moments, issue one wake |
| `Daemon.Daemon.LookOnly` | crates/autofork-daemon/src/daemon.rs:434-453 | does what the machine says: a poll that looks and issues nothing refreshes the roster |
| `Daemon.Daemon.IngestTranscript` | crates/autofork-daemon/src/daemon.rs:496-546 | the three loops amount to ingesting the delta as a whole; returns the best-known gauge |
| `Daemon.Daemon.OnPollLost` | crates/autofork-daemon/src/daemon.rs:202-208 | does what the machine says: drop the guard, start a grace timer of a new generation |
| `Daemon.Daemon.GraceCheck` | crates/autofork-daemon/src/daemon.rs:212-228 | does what the machine says: close only if the pending close is still this timer's and the session is open |
| `Daemon.Daemon.HandleEnd` | crates/autofork-daemon/src/daemon.rs:348-353 | does what the machine says: cancel the poll and close the leg; removes the pending close and leaves the session not open |
| `Daemon.Daemon.HandleStart` | crates/autofork-daemon/src/daemon.rs:241-263 | does what the machine says: touch the session; removes its pending close and no other |
| `Daemon.Daemon.HandlePlainStop` | crates/autofork-daemon/src/daemon.rs:241-245 | does what the machine says: a Stop outside a long poll removes the session's pending close and changes nothing else |
| `Daemon.Daemon.PollReturned` | crates/autofork-daemon/src/daemon.rs:122-132 | does what the machine says: a poll that returns without a wake drops its guard |
| `Daemon.Daemon.Reap` | crates/autofork-daemon/src/sweep.rs:31-35 | does what the machine says: close the leg |

## Left out

- SQLite, schema migrations and the SQL text: each table is a map, set or sequence with its key and conflict rule.
- Columns no modelled decision reads: cwd, transcript path, creation and firing times.
- Discovery, project-root search, configuration loading: their results are inputs.
- YAML, TOML and JSON parsing: values and transcript entries come decoded; `scan_assistant` and `scan_user` are represented by the delta they fill.
- The socket server, client start-up, `flock`, shutdown and the quiet reaper: a poll may return without a wake at any time.
- The session reaper's timeout test: a session may be reaped at any time.
- The wording of payloads beyond the marker and the fingerprint, including the note that names held forks.
- CLI commands, status reports, doctor, logs, version checks, warnings.
- Interleaving inside a step: two sessions' evaluations do not overlap between selection and issuing.
