# Allocator, dispatcher, graph walks, shells, diffs and generated wrappers, verified

A Dafny model of the parts of this repository whose correctness does not show in any single
function. `dafny verify dfyconfig.toml` checks all of it. Each module follows one program or class
of the repository; code that changes state is a class or a method with loops, proved against a
specification function, and what the program promises is proved about that function.

**Flyways** (`ns-3.9/scratch`). Point-to-point radio links join racks. Every rack has a few dongles,
every link uses one dongle at each end and one of up to three channels, racks are disjoint on a
channel, and each link has to survive the noise of all other links of its channel transmitting at
once. `Interference` is the radio arithmetic, over exact reals: received power is an arbitrary
function of two nodes and what their antennas point at, and the dBm conversions are any pair that is
positive, inverse and increasing where it has to be. `Placement` is round-robin channel choice,
`FlywayTables` the global tables of the programs. `CandidateCheck` is `isFeasibleNew.cc` with its
placing and taking back, `LastRates` what its rate list holds at any time, `Trials` and `Greedy` are
`num-flyways-new.cc`, `SingleChannel` is `isFeasible.cc`, and `TwoWayTrials` is `num-flyways.cc`.
`Completeness` asks when the channel search finds an assignment that exists.

**Test dispatcher** (`Dispatch`, from `test.py`). Workers and the main thread share two queues; the
threads are interleaved step by step, and an interrupt may come between any two steps.

**Type walk** (`TypeWalk`, from `print-introspected-doxygen.cc`). A recursive walk over a cyclic graph
of types, with an ancestor stack and a path stack.

**Shell commands** (`ShellParse`, `ShellTokens`, `ShellRun`, `ShellLists`, `ShellOrder`, `ShellStreams`,
`PosixLists`, from `shellcmd.py`). A token state machine that builds a pipeline, its interpreter with
files, processes and exit statuses, and what a POSIX shell makes of the same list.

**Diffs** (`PatchSets`, `TrailingWhitespace`, from `check-style.py`). Printing and parsing unified
diffs, and the editing of shared line objects in place.

**PyBindGen** (`Inheritance`, `ResolutionOrder`, `PureVirtuals`, `AbstractClasses`,
`CppClasses`, `WrapperCode`, `RefCounts`, `RefOrder`). The base-class order and the search for pure
virtual methods along it; the lines emitted to wrap a reference-counted object, what those lines do, and
the reference count over whole runs, with Python references and garbage collection.

**Time line** (`Timeline`, from `grid.py`). Binary searches over events and ranges, and ticks.

`Wrappers` holds the option type they share, and `Sequences` what they say of sequences.

## What turned out not to hold

Where the code falls short of what it is for, the model keeps the code, a lemma gives an input, and
another lemma gives the exact condition.

- A trial of `num-flyways-new.cc` can leave a pair that could be added: one already placed, on a second
  channel. It leaves none exactly with one dongle or one channel (`Greedy.LeavesNothingExactly`).
- The channel search of `isFeasibleNew.cc` can reject a list that has an assignment. It never does so
  exactly with one channel, or without dongles (`Completeness.SearchCompleteExactly`).
- `test.py` never comes to its end without workers when there are tests (`Dispatch.FinishesExactly`).
- `get_mro` can yield a class more than once, and a later appearance may come behind a class one level
  farther away (`Inheritance.MroCanStepBack`). It yields each class once exactly when each is listed once
  among the bases of what is taken before it (`ResolutionOrder.NoRepeatsExactly`; on the graph,
  `ResolutionOrder.NoRepeatsOnGraph`), and all in order of distance exactly when no class appends a base
  that is as far away as itself after a class one level farther has been listed
  (`ResolutionOrder.ByDistanceExactly`).
- The search for pure virtual methods takes a method of an unrelated class for an implementation
  (`AbstractClasses.SiblingIsTaken`), and misses one that is not flagged virtual or has another custom name
  (`AbstractClasses.UnflaggedIsMissed`, `AbstractClasses.RenamedIsMissed`). For bindings that flag overriders
  and name methods as C++ does, it agrees with C++ exactly when, of any two classes in the resolution order,
  the first is derived from the second and not the other way round (`AbstractClasses.AnswersRightExactly`).
- A parsed pipeline raises when run if it ends in `cd` or a `cd` has no directory
  (`ShellLists.NeverRaisesExactly`). It starts the processes that a POSIX shell starts, in the same pipes
  and directories and with the same streams, exactly when no `cd` stands behind a `|`, no `&&` behind a
  `||`, and no `||` behind an `&&` that follows a command; no command behind a `|` names an input; no file
  behind a `cd` has a relative name; no output is `NUL:`; and no `2>&1` stands in front of a `>`
  (`PosixLists.PosixExactly`).
- A written diff is read back exactly when no removed line starts with `-- ` and no added line with
  `++ ` (`PatchSets.RoundTripExactly`). Taking out trailing-blank changes can
  alter a line of the old side, after which the diff no longer fits its file
  (`TrailingWhitespace.OldSideKeptExactly`).
- The emitted reference counting is exact in all runs exactly when the class is no singleton and, if the
  collector runs, a helper class comes with a methods policy that names a peek method
  (`RefCounts.ConservedExactly`). A constructor call does not register the wrapper it makes, so such an
  object can get a second one (`RefCounts.OneWrapperExactly`). Only such wrappers are tracked by the
  collector (`pytypeobject.py:98-99`): those made by a return are allocated without being handed to it.
- An event query misses events exactly when two are at the same time (`Timeline.MissedExactly`). A range
  query with both ends in gaps returns nothing, and one that ends where two ranges touch may leave out
  one of them (`Timeline.NoRangeMissedExactly`); the queries with an end in a range are all complete
  exactly when no two ranges share a point (`Timeline.SharedPointsExactly`).
- The scale divides by zero exactly for an interval of length one (`Timeline.ScaleRenderer.Layout`).

## Model

| member | source | states |
|---|---|---|
| Interference.RateIsHighestLimitBelow | ns-3.9/scratch/isFeasibleNew.cc:65-74 | the rate found is that of the i-th limit iff this is the highest limit strictly below the signal |
| Interference.RateMonotone | ns-3.9/scratch/isFeasibleNew.cc:65-74 | a stronger signal never gets a lower rate |
| Interference.ProgramTablesAreSorted | ns-3.9/scratch/isFeasibleNew.cc:33-36 | both tables of the programs are ascending, as the two statements above ask |
| Interference.NoiseAboveBaseline | ns-3.9/scratch/isFeasibleNew.cc:154-231 | total noise is positive and never below the background, so the "should never come here" exits are dead |
| Interference.NoiseIsHeard | ns-3.9/scratch/isFeasibleNew.cc:127-173 | total noise is the background plus, for every other link of the channel, the power received from its sender and the power received from its receiver |
| Interference.LinkOkExactly | ns-3.9/scratch/isFeasibleNew.cc:141-232 | a link works iff at both ends the signal, less the noise above -81 dBm and 3 dB, is above the threshold, with at most -77 dBm of noise under carrier sensing; its rate is that of the receiver |
| Interference.DirectionOfOthersIsFree | ns-3.9/scratch/isFeasibleNew.cc:127-139 | turning other links around changes no verdict and no rate |
| Interference.WeakRayNeverWorks | ns-3.9/scratch/isFeasibleNew.cc:416-432 | a link that fails the cheap signal test fails the full check in every set, so the test never changes a verdict |
| Interference.LinkThins | ns-3.9/scratch/isFeasibleNew.cc:141-232 | taking other links away keeps a working link working and never lowers its rate |
| Interference.SubsetOk | ns-3.9/scratch/isFeasibleNew.cc:234-246 | every selection of links from a feasible set is feasible |
| Interference.MisfitStaysMisfit | ns-3.9/scratch/isFeasibleNew.cc:234-246 | a link that does not fit a set does not fit after another link has been added |
| Placement.PickChannelComplete | ns-3.9/scratch/isFeasibleNew.cc:403-437 | the round-robin loop finds no channel iff the flyway fits on none |
| Placement.PickChannelIsFirst | ns-3.9/scratch/isFeasibleNew.cc:403-437 | the channel taken is the first that fits, from the one in turn and around |
| Placement.TurnsPassOn | ns-3.9/scratch/isFeasibleNew.cc:403-447 | each flyway placed passes the turn on by one channel |
| Placement.AddKeepsGood | ns-3.9/scratch/isFeasibleNew.cc:402-447 | placing a flyway that passed the tests keeps matching per channel, dongle limits and feasibility of the whole set |
| Placement.PlacementIsGood | ns-3.9/scratch/isFeasibleNew.cc:366-476 | a list placed on a plan that meets all constraints gives a plan that meets them |
| Placement.PlacementJoins | ns-3.9/scratch/isFeasibleNew.cc:366-476 | the new plan extends the old one and joins exactly the listed pairs, in order |
| Placement.PlaceAllAppend | ns-3.9/scratch/isFeasibleNew.cc:366-476 | placing a list is placing its front and then, from there, the rest |
| Placement.DegreeCountsChannels | ns-3.9/scratch/isFeasibleNew.cc:402-447 | a node has as many flyways as channels on which it is busy |
| Placement.DegreeBound | ns-3.9/scratch/isFeasibleNew.cc:402-447 | no node has more than min(dongles, channels) flyways |
| Placement.FlywayCountBound | ns-3.9/scratch/num-flyways-new.cc:325-428 | any good set over n nodes has at most n * min(dongles, channels) / 2 flyways |
| Completeness.PlacedIsAssignable | ns-3.9/scratch/isFeasibleNew.cc:366-447 | a list that is placed has an assignment of channels that meets every constraint |
| Completeness.SearchGivesUp | ns-3.9/scratch/isFeasibleNew.cc:403-437 | for two or three channels there is a medium and a list that has an assignment and is rejected |
| Completeness.SearchCompleteExactly | ns-3.9/scratch/isFeasibleNew.cc:366-447 | placement accepts exactly the assignable lists, for every medium, iff there is one channel or no dongle |
| FlywayTables.FlywayTable.constructor | ns-3.9/scratch/isFeasibleNew.cc:46-63 | the tables start empty and agree with each other |
| FlywayTables.FlywayTable.FindRateForRSSI | ns-3.9/scratch/isFeasibleNew.cc:65-74 | the loop over the table computes the rate of the last limit below its argument |
| FlywayTables.FlywayTable.AddUpNoise | ns-3.9/scratch/isFeasibleNew.cc:154-173 | the loop adds to the background, at both ends, what comes from both ends of every other flyway of the channel and from no other (`Interference.NoiseIsHeard` says how much) |
| FlywayTables.FlywayTable.IsLinkFeasible | ns-3.9/scratch/isFeasibleNew.cc:141-232 | true iff the link works in the set as the antennas point, and then its rate, 0 otherwise; `Interference.LinkOkExactly` says when and which in terms of received power |
| FlywayTables.FlywayTable.IsFlywaySetFeasible | ns-3.9/scratch/isFeasibleNew.cc:234-246 | true iff every link works; the rate list holds the rates up to the first link that fails |
| FlywayTables.UsedDonglesAreCounted | ns-3.9/scratch/isFeasibleNew.cc:308-325 | the dongle numbers in use at a node are below its count |
| FlywayTables.DonglesUnshared | ns-3.9/scratch/isFeasibleNew.cc:308-325 | no dongle serves two flyways |
| FlywayTables.DonglesAllUsed | ns-3.9/scratch/isFeasibleNew.cc:308-325 | every dongle number below a node's count is in use |
| FlywayTables.AimKept | ns-3.9/scratch/isFeasibleNew.cc:416-432 | pointing dongles that are not in use leaves every placed flyway aimed |
| CandidateCheck.NumberFlyways | ns-3.9/scratch/isFeasibleNew.cc:278-326 | the list read is accepted iff no node needs more dongles than it has; then each flyway gets the next dongle of both nodes and the counts are the degrees |
| CandidateCheck.TryChannel | ns-3.9/scratch/isFeasibleNew.cc:403-437 | one channel is taken iff the flyway fits there; if not, flyways and node table are as before and no dongle in use was moved |
| CandidateCheck.PlaceList | ns-3.9/scratch/isFeasibleNew.cc:376-453 | the placing loop succeeds iff the specification places the whole list, in the same places |
| CandidateCheck.PopFlyway | ns-3.9/scratch/isFeasibleNew.cc:455-473 | taking the last flyway off leaves tables that agree with the shorter list |
| CandidateCheck.SameTables | ns-3.9/scratch/isFeasibleNew.cc:455-473 | node table and dongle counts are determined by the flyways, so taking flyways off restores them exactly |
| CandidateCheck.CheckAddFlyways | ns-3.9/scratch/isFeasibleNew.cc:366-476 | true iff the list can be placed; a candidate, accepted or not, leaves flyways, node table, counts and channel counter as they were and moves no dongle in use |
| CandidateCheck.PlacedWithinDongles | ns-3.9/scratch/isFeasibleNew.cc:308-325 | a list that can be placed never fails the dongle limit applied while reading |
| CandidateCheck.Start | ns-3.9/scratch/isFeasibleNew.cc:478-481 | the tables are set up iff a fresh run places the given flyways, and then hold that run's result |
| LastRates.PlacedRates | ns-3.9/scratch/isFeasibleNew.cc:234-246 | once a list of at least one pair is placed, the rate list holds the rates of the whole plan, whatever failed checks wrote there before |
| LastRates.MissedRates | ns-3.9/scratch/isFeasibleNew.cc:234-246 | a flyway that finds no channel leaves the rates of its last test, on the last channel in turn that was free for it, or the old ones if none was tested |
| LastRates.WorkingRatesExactly | ns-3.9/scratch/isFeasibleNew.cc:234-246 | a test leaves the rates of the links in front of the first that fails, and no other |
| CandidateCheck.CheckFeasibility | ns-3.9/scratch/isFeasibleNew.cc:488-536 | every verdict is that of a fresh run on the given flyways followed by the candidate, whatever was checked before; so are the rates, except that an accepted empty candidate gets what the last feasibility check before it wrote, be it for the given flyways, an accepted or a rejected candidate |
| Greedy.AttemptPlacesIffAddable | ns-3.9/scratch/num-flyways-new.cc:348-426 | the chain of tests for a pair places it iff it can be added on some channel |
| Greedy.OutcomeExactly | ns-3.9/scratch/num-flyways-new.cc:348-426 | when a pair gets which outcome: same end point, a dongle missing, no channel free for both ends, signal below threshold plus 3 dB, or else hurting others iff it cannot be added |
| Greedy.AddableBefore | ns-3.9/scratch/num-flyways-new.cc:348-426 | a pair that can be added to a larger set could be added to the smaller one: every reason for rejection lasts |
| Greedy.TrialIsGood | ns-3.9/scratch/num-flyways-new.cc:325-428 | the set a trial ends with meets all constraints |
| Greedy.TrialIsMaximal | ns-3.9/scratch/num-flyways-new.cc:325-428 | at the end every pair is in the set or cannot be added on any channel |
| Greedy.SecondLinkLeft | ns-3.9/scratch/num-flyways-new.cc:348-426 | with two dongles and two channels a placed pair may still be addable |
| Greedy.LeavesNothingExactly | ns-3.9/scratch/num-flyways-new.cc:325-428 | no trial leaves an addable pair iff there is at most one dongle or one channel |
| Greedy.CensusOfTrial | ns-3.9/scratch/num-flyways-new.cc:340-430 | every ordered index pair is counted once, the reported total is n*n less the pairs too far apart, and accepted flyways are at most n * min(dongles, channels) / 2 |
| Greedy.TallyCounts | ns-3.9/scratch/num-flyways-new.cc:340-430 | each counter is the number of pairs with its outcome |
| Greedy.EveryPairAttempted | ns-3.9/scratch/num-flyways-new.cc:348-352 | attempt number i * n + j is that of the i-th and the j-th shuffled node |
| Trials.RandomizeNodeOrder | ns-3.9/scratch/num-flyways-new.cc:313-323 | for any random numbers the swaps of the loop give the specified order, which is a permutation |
| Trials.EveryOrderComesUp | ns-3.9/scratch/num-flyways-new.cc:313-323 | and every permutation comes up for some random numbers |
| Trials.FindFlywayChannel | ns-3.9/scratch/num-flyways-new.cc:277-311 | finds the channel of the specification and advances the counter only on success |
| Trials.AttemptPair | ns-3.9/scratch/num-flyways-new.cc:352-426 | the outcome and the new tables for one pair are those of the specification, reserved dongles being given back on every failure |
| Trials.Reset | ns-3.9/scratch/num-flyways-new.cc:327-334 | a trial starts from empty tables but keeps the channel counter |
| Trials.RunTrial | ns-3.9/scratch/num-flyways-new.cc:325-430 | set and census are those of the greedy specification over the shuffled nodes; the remembered rates are those of the final set, or of an earlier trial when nothing was placed |
| TwoWayTrials.IsLinkFeasible | ns-3.9/scratch/num-flyways.cc:153-231 | true iff the link works at both ends; then the two rates are those at receiver and sender |
| TwoWayTrials.IsFlywaySetFeasible | ns-3.9/scratch/num-flyways.cc:233-247 | true iff every link works; then the list holds two rates per flyway, in order |
| TwoWayTrials.BothRatesExactly | ns-3.9/scratch/num-flyways.cc:153-247 | the rates at 2k and 2k + 1 are those of what is left of the signal of flyway k at its receiver and at its sender |
| TwoWayTrials.AttemptOnOneChannel | ns-3.9/scratch/num-flyways.cc:272-315 | with one channel and one dongle the tests of both programs for a pair come to the same |
| TwoWayTrials.MergedCounts | ns-3.9/scratch/num-flyways.cc:255-318 | each counter is the number of pairs with its outcome, the two kinds of overlap counted as one |
| TwoWayTrials.RunTrial | ns-3.9/scratch/num-flyways.cc:249-325 | the counters add up to n*n, at most n/2 flyways are accepted, the set is that of the greedy specification, and the remembered rates are two per flyway of the final set if there is one |
| SingleChannel.CompatibleSnoc | ns-3.9/scratch/isFeasible.cc:242-287 | a compatible list with one more flyway is compatible iff the flyway fits |
| SingleChannel.CompatiblePrefix | ns-3.9/scratch/isFeasible.cc:242-287 | every front of a compatible list is compatible |
| SingleChannel.ReadFlyways | ns-3.9/scratch/isFeasible.cc:232-288 | checking flyway by flyway accepts a list iff it is not empty and passes one check at the end |
| SingleChannel.AskOne | ns-3.9/scratch/isFeasible.cc:302-393 | the answer for a pair depends on the flyways read only, and they are left as they were |
| SingleChannel.AskAll | ns-3.9/scratch/isFeasible.cc:302-393 | the report holds the answer for every ordered pair, independent of the pairs tried before |
| SingleChannel.AnswerExactly | ns-3.9/scratch/isFeasible.cc:302-393 | when a pair gets which answer: listed in that direction, one node, an end in use, signal below threshold plus 3 dB, or else infeasible iff the list with the pair is not compatible |
| SingleChannel.YesMeansAcceptable | ns-3.9/scratch/isFeasible.cc:302-393 | "yes" is given iff the list with the pair added would be accepted |
| Dispatch.StepKeepsInv | ns-3.9/test.py:898-962 | every step of every thread keeps each entry in exactly one place and poison behind all tests |
| Dispatch.RunKeepsInv | ns-3.9/test.py:1393-1437 | so does every schedule |
| Dispatch.SomeThreadCanMove | ns-3.9/test.py:1393-1437 | with a worker, or nothing to run, no reachable state is stuck |
| Dispatch.ScheduleIsBounded | ns-3.9/test.py:1393-1437 | no schedule makes more than 6 moves per test, 3 per worker, and 4 |
| Dispatch.CanFinish | ns-3.9/test.py:1554-1555 | every reachable state can be continued until the main thread has joined all workers |
| Dispatch.FinishesExactly | ns-3.9/test.py:1170-1173 | the end can be reached iff there is a worker or no test |
| Dispatch.FinishedRun | ns-3.9/test.py:1554-1597 | at the end every test was collected once, each worker took one poison and returned, counters and interrupted tests add up, and the exit code is 0 iff none was interrupted and every test was skipped or had 0 returned by its own process in the schedule, and 1 otherwise |
| Dispatch.CollectedAsReturned | ns-3.9/test.py:898-962 | in every schedule the process of a test ends at most once, and a collected test that was run carries what its own process returned |
| Dispatch.CountersAddUp | ns-3.9/test.py:1437-1553 | the counters and the interrupted tests make up all collected tests |
| Dispatch.CountersAreTallies | ns-3.9/test.py:1437-1553 | each counter is the number of collected tests with its verdict: skipped, or run with code 0, 1, 2 or another |
| Dispatch.NoInterruptNoBreak | ns-3.9/test.py:898-962 | without an interrupt no test comes back unrun |
| Dispatch.InterruptStartsNothing | ns-3.9/test.py:898-962 | after an interrupt only tests that were running then still end |
| TypeWalk.FindAndReplace | ns-3.9/utils/print-introspected-doxygen.cc:251-261 | the in-place replacement loop gives the text with every "::" from the left followed by a percent sign |
| TypeWalk.EscapeIsReversible | ns-3.9/utils/print-introspected-doxygen.cc:251-261 | a name without percent signs is recovered by dropping them |
| TypeWalk.EscapeExactly | ns-3.9/utils/print-introspected-doxygen.cc:251-261 | for a name without percent signs the result is the only text that reads as the name without its percent signs and has one behind every "::" and nowhere else |
| TypeWalk.LabelExactly | ns-3.9/utils/print-introspected-doxygen.cc:204-210 | the label of a type is a dollar and a percent sign and its name marked behind every "::" |
| TypeWalk.EdgesExactly | ns-3.9/utils/print-introspected-doxygen.cc:164-249 | a type leads to another by a pointer attribute of that name, by an object vector with "/[i]" behind its name, by the label of a type registered as its child, or by the label of a partner in an aggregation, and in no other way |
| TypeWalk.StaticInformation.GetCurrentPath | ns-3.9/utils/print-introspected-doxygen.cc:109-119 | the path is the names joined, each behind a slash |
| TypeWalk.StaticInformation.HasAlreadyBeenProcessed | ns-3.9/utils/print-introspected-doxygen.cc:127-138 | true iff the type is on the stack |
| TypeWalk.StaticInformation.DoGather | ns-3.9/utils/print-introspected-doxygen.cc:164-249 | terminates on any finite cyclic graph, appends the entries of the walk and leaves both stacks as they were |
| TypeWalk.WalkFollowsPaths | ns-3.9/utils/print-introspected-doxygen.cc:164-249 | the walk records one entry for each path of the enumeration, in order |
| TypeWalk.PathsAreAllSimple | ns-3.9/utils/print-introspected-doxygen.cc:164-249 | the enumeration holds exactly the paths that repeat no type and avoid the stack |
| TypeWalk.PathsAreDistinct | ns-3.9/utils/print-introspected-doxygen.cc:164-249 | and holds each of them once |
| TypeWalk.FoundOnSimplePath | ns-3.9/utils/print-introspected-doxygen.cc:164-249 | an entry is recorded iff it lies on a simple path from the root |
| TypeWalk.RouteExactly | ns-3.9/utils/print-introspected-doxygen.cc:164-249 | the simple paths are the routes along these steps that repeat no type, written with a slash in front of every step |
| TypeWalk.SortUniqueSorts | ns-3.9/utils/print-introspected-doxygen.cc:155-162 | sorting and dropping repeats keeps exactly the entries, strictly ordered |
| TypeWalk.StringLessExactly | ns-3.9/utils/print-introspected-doxygen.cc:155-162 | strings are compared by the first character that differs, a front being less |
| TypeWalk.StaticInformation.Gather | ns-3.9/utils/print-introspected-doxygen.cc:155-162 | the output ends up strictly sorted with exactly the old entries and those of the routes from the root, written in terms of attributes, registered children and aggregations |
| TypeWalk.SubtypesAreListed | ns-3.9/utils/print-introspected-doxygen.cc:164-249 | every registered child of the root has an entry with its label behind a slash |
| ShellParse.Pipeline.ParseTokens | ns-3.9/waf-tools/shellcmd.py:120-200 | the parser accepts what the state machine accepts and builds the same pipeline |
| ShellParse.ParseIsWellFormed | ns-3.9/waf-tools/shellcmd.py:120-200 | everything accepted is well formed |
| ShellParse.ParseInvertsRender | ns-3.9/waf-tools/shellcmd.py:120-200 | parsing the tokens of a well-formed pipeline gives it back: environment, arguments, redirections, cd |
| ShellTokens.AnyOrder | ns-3.9/waf-tools/shellcmd.py:153-198 | behind the name of a command, arguments and redirections may come in any order; they are accepted iff no stream is redirected twice, and then the arguments are in order and each stream goes where it was sent |
| ShellTokens.NothingLost | ns-3.9/waf-tools/shellcmd.py:120-200 | unless a name is assigned twice or a newline ends an assignment, the pipeline holds exactly the tokens, except a redirection at the very end, which is dropped |
| ShellParse.LastAssignmentCounts | ns-3.9/waf-tools/shellcmd.py:137-152 | a command gets for each name the value of the last assignment to it |
| ShellTokens.EnvMatchExactly | ns-3.9/waf-tools/shellcmd.py:23 | what the pattern for assignments matches |
| ShellParse.WellFormedExactly | ns-3.9/waf-tools/shellcmd.py:120-200 | a pipeline is well formed iff some token list parses to it |
| ShellParse.NodesAlternate | ns-3.9/waf-tools/shellcmd.py:170-200 | nodes and operators alternate, and a command writes to a pipe iff a pipe follows |
| ShellRun.WellFormedIsRunnable | ns-3.9/waf-tools/shellcmd.py:213-345 | what the parser builds can be read from the left, pair by pair, as the interpreter does |
| ShellRun.World.ExecPipedCommands | ns-3.9/waf-tools/shellcmd.py:202-211 | waits for each process of a pipe once, in order; the status is that of the last |
| ShellRun.World.StartCommand | ns-3.9/waf-tools/shellcmd.py:241-290 | opens the files a command needs, for reading or for writing, and starts it with the streams, environment and directory given |
| ShellRun.JoinIsAPath | ns-3.9/waf-tools/shellcmd.py:224-231 | directories are joined as paths: an absolute one replaces what was there, others go behind it, and joining is associative |
| ShellRun.World.Run | ns-3.9/waf-tools/shellcmd.py:213-345 | the interpreter does, event by event, what the chain read to the right means |
| ShellLists.NeverRaisesExactly | ns-3.9/waf-tools/shellcmd.py:221-239 | a parsed pipeline runs to a status for all exit codes iff it ends in a command and every cd names a directory |
| ShellLists.NothingLeftBehind | ns-3.9/waf-tools/shellcmd.py:292-345 | a run has started exactly the commands up to where it stopped, awaited each once and closed each opened file once |
| ShellOrder.RunPlays | ns-3.9/waf-tools/shellcmd.py:202-345 | in every run files are open when a process gets them, a pipe is started when all processes before it were awaited, processes are awaited in order, files are closed after that, and one that ends with a status leaves nothing open or unawaited |
| PosixLists.ExecRunsChain | ns-3.9/waf-tools/shellcmd.py:292-345 | a run is, event by event, the pipes that its operators lead to when everything behind an operator is its operand, and returns the status of the last pipe run |
| PosixLists.ExecStarts | ns-3.9/waf-tools/shellcmd.py:202-345 | the processes started by the events of a run, with the files those events opened and whether for writing, are the wired commands of those pipes in order |
| ShellStreams.LaunchStarts | ns-3.9/waf-tools/shellcmd.py:241-290 | starting a pipe gives every process the streams of its place and redirections: input from the pipe behind a pipe, files as the parent names them, inputs opened for reading and outputs for writing, error output with the output if joined |
| ShellStreams.WiredAlikeExactly | ns-3.9/waf-tools/shellcmd.py:241-290 | a command gets the streams and the directory a shell gives it iff it names no input behind a pipe, no relative file behind a `cd`, no output NUL:, and does not join its error output in front of redirecting its output |
| PosixLists.AlikeAgrees | ns-3.9/waf-tools/shellcmd.py:213-345 | at any point of a list that meets the condition, what the program still runs is what a shell still runs |
| PosixLists.PosixExactly | ns-3.9/waf-tools/shellcmd.py:116-345 | for all tokens that parse and run to an end: the processes, pipes, directories, streams, how their files are opened and status are those of sections 2.7 and 2.9 of the POSIX Shell Command Language for all exit codes, iff no `cd` is behind a pipe, and- and or-operators are not mixed but for the and-operator of a leading `cd`, and every command is wired alike |
| PosixLists.OrderOfRedirections | ns-3.9/waf-tools/shellcmd.py:150-195 | two orders of the same redirections parse to the same command, and only one of them is run as a shell does |
| PatchSets.HeaderCounts | ns-3.9/utils/check-style.py:178-198 | the two header counts add up to the lines plus the common lines |
| PatchSets.HeaderIsRead | ns-3.9/utils/check-style.py:194-198 | from a written header, whatever follows it, all four numbers are read: both positions, the number of written lines that start with "-" or " ", and of those that start with "+" or " " |
| PatchSets.HeaderHasForm | ns-3.9/utils/check-style.py:219-240 | only a line with four groups of digits at these places is read as a header, with their values |
| PatchSets.ParsePatchset | ns-3.9/utils/check-style.py:222-266 | the loop accepts and builds what the line-by-line specification does |
| PatchSets.FeedWritten | ns-3.9/utils/check-style.py:216-266 | reading the written form of a clean patch set builds it again |
| PatchSets.RoundTripExactly | ns-3.9/utils/check-style.py:158-266 | parsing the written form gives the patch set back iff no line can be taken for another kind |
| TrailingWhitespace.FixChunk | ns-3.9/utils/check-style.py:272-283 | the loop over the shared line objects of a chunk leaves the texts of the specification and fails iff the new side is too short |
| TrailingWhitespace.RemoveTrailingWhitespaceChanges | ns-3.9/utils/check-style.py:268-284 | chunks are edited in order up to and including the first one that fails, and the others are left alone |
| TrailingWhitespace.EditedExactly | ns-3.9/utils/check-style.py:268-284 | a chunk is edited iff every chunk in front of it has no fewer new lines than old ones |
| TrailingWhitespace.ChunkUpToBlanks | ns-3.9/utils/check-style.py:268-284 | no line changes its kind, removed lines stay, and any other text gains nothing but one space or tab at its end |
| TrailingWhitespace.HeaderStaysRight | ns-3.9/utils/check-style.py:190-198 | both header counts stay what they were |
| TrailingWhitespace.OldSideKeptExactly | ns-3.9/utils/check-style.py:276-281 | the old side is kept iff no pair of lines differs by one trailing blank with a common line as its new one |
| TrailingWhitespace.BlankChangesUndone | ns-3.9/utils/check-style.py:276-281 | then a change of one trailing blank is undone pair by pair and every other change stays |
| TrailingWhitespace.CommonLineHit | ns-3.9/utils/check-style.py:276-281 | a removed line with a blank in front of the same common line without it makes the old side change |
| Inheritance.GetMro | pybindgen-0.15.0/pybindgen/cppclass.py:841-855 | the worklist loop yields the walk of the specification and terminates on every finite graph |
| Inheritance.TakeMakesProgress | pybindgen-0.15.0/pybindgen/cppclass.py:841-855 | each class taken leaves fewer to visit or a shorter stale front of the queue, cycles included |
| Inheritance.MroIsByDistance | pybindgen-0.15.0/pybindgen/cppclass.py:841-855 | yields exactly the class and its ancestors, first appearances in order of distance, later ones off by at most one level |
| ResolutionOrder.MroIsQueue | pybindgen-0.15.0/pybindgen/cppclass.py:841-855 | the order yielded is the queue with all that was ever appended to it |
| ResolutionOrder.BasesComeFirst | pybindgen-0.15.0/pybindgen/cppclass.py:841-855 | behind the class come its bases in the order in which they are listed, unless it is its own base |
| ResolutionOrder.YieldedAsListed | pybindgen-0.15.0/pybindgen/cppclass.py:841-855 | a class is yielded as often as it is listed among the bases of what is taken before it, the class itself once |
| ResolutionOrder.NoRepeatsExactly | pybindgen-0.15.0/pybindgen/cppclass.py:841-855 | nothing is yielded twice iff every class is listed once among those bases |
| ResolutionOrder.NoRepeatsOnGraph | pybindgen-0.15.0/pybindgen/cppclass.py:841-855 | nothing is yielded twice if no class is listed twice by classes no farther away than it, only if none is by classes one level nearer; where no base is as far away as its class, iff |
| ResolutionOrder.ByDistanceExactly | pybindgen-0.15.0/pybindgen/cppclass.py:841-855 | the whole order goes by distance iff no take appends a base at its own distance after a class one level farther has been listed |
| ResolutionOrder.ByDistanceWithoutLevelBases | pybindgen-0.15.0/pybindgen/cppclass.py:841-855 | so it does when no class reached has a base at its own distance |
| Inheritance.MroCanStepBack | pybindgen-0.15.0/pybindgen/cppclass.py:841-855 | that one level is reached |
| Inheritance.SubclassIsPreorder | pybindgen-0.15.0/pybindgen/cppclass.py:909-914 | the subclass relation is reflexive and transitive |
| Inheritance.SingleInheritanceChain | pybindgen-0.15.0/pybindgen/cppclass.py:841-855 | with at most one base per class the order is the chain of bases |
| PureVirtuals.MatchingIsEquivalence | pybindgen-0.15.0/pybindgen/cppmethod.py:182-192 | methods match iff mangled name, parameter types and constness agree, so matching is an equivalence |
| CppClasses.CppClass.GetHavePureVirtualMethods | pybindgen-0.15.0/pybindgen/cppclass.py:865-904 | the nested loops over the reversed resolution order, with their cache, compute whether a pure virtual method is left over; for a binding that is right about flags and names, whether the class is abstract, if the order is by derivation or every class has one base at most |
| PureVirtuals.LeftPureIsAbstract | pybindgen-0.15.0/pybindgen/cppclass.py:865-904 | over any list of levels, a pure virtual method is left iff some signature's last declaration flagged virtual is pure |
| AbstractClasses.LeftPureIsAbstractClass | pybindgen-0.15.0/pybindgen/cppclass.py:865-904 | with at most one base per class and a binding that is right about flags and names, the search finds a pure virtual method iff the class is abstract by section 10.4 of ISO/IEC 14882:2003 |
| AbstractClasses.DerivationOrderAnswersRight | pybindgen-0.15.0/pybindgen/cppclass.py:865-904 | for any number of bases and such a binding: where classes come before exactly those they are derived from, a pure virtual method is found iff some final overrider, flagged virtual or not, is pure |
| AbstractClasses.TwoAnswersExactly | pybindgen-0.15.0/pybindgen/cppclass.py:880-899 | with one pure method and one body anywhere in a class graph, the answer is right iff coming first, being flagged and matching together are the same as being derived and having the C++ signature |
| AbstractClasses.UnorderedPairAnswersWrong | pybindgen-0.15.0/pybindgen/cppclass.py:880-899 | any pair of classes out of that order gets a wrong answer for some methods of a right binding |
| AbstractClasses.AnswersRightExactly | pybindgen-0.15.0/pybindgen/cppclass.py:865-904 | on a class graph the answer is that of sections 10.3 and 10.4 of ISO/IEC 14882:2003 for all right bindings iff the order is that of derivation |
| AbstractClasses.SiblingIsTaken | pybindgen-0.15.0/pybindgen/cppclass.py:880-899 | with two unrelated bases the pure method of one counts as implemented by the other |
| AbstractClasses.OneOverriderExactly | pybindgen-0.15.0/pybindgen/cppclass.py:880-899 | with one base that has a pure method, the answer is right iff flag and signature in the binding together say what C++ does |
| AbstractClasses.UnflaggedIsMissed | pybindgen-0.15.0/pybindgen/cppmethod.py:84-86 | an overrider not flagged virtual is missed |
| AbstractClasses.RenamedIsMissed | pybindgen-0.15.0/pybindgen/cppmethod.py:182-200 | so is the overrider of a method with a custom name |
| WrapperCode.LinesMeanTree | pybindgen-0.15.0/pybindgen/cppclass_typehandlers.py:92-187 | the emitted lines, run one after another with their opened, alternative and closed blocks, do what the nested code means |
| WrapperCode.CodeBlock.WriteCreateNewWrapper | pybindgen-0.15.0/pybindgen/cppclass_typehandlers.py:24-88 | the generator writes allocation, the reference taken unless the caller hands one over, the pointer and the registration, in that order |
| RefCounts.WrapsOnce | pybindgen-0.15.0/pybindgen/cppclass_typehandlers.py:24-88 | these lines leave one more wrapper, which points to the object at the cost of one reference or of the caller's, is registered if there is a registry, and is unknown to the collector |
| WrapperCode.CodeBlock.CommonSharedObjectReturn | pybindgen-0.15.0/pybindgen/cppclass_typehandlers.py:14-187 | for every mix of helper class, registry and ownership the generator writes the lines of that conversion and nothing else |
| WrapperCode.CodeBlock.GenerateDestructor | pybindgen-0.15.0/pybindgen/cppclass.py:2262-2295 | the deallocator unregisters, gives the reference back and frees, in that order |
| RefCounts.ConversionReturnsWrapper | pybindgen-0.15.0/pybindgen/cppclass_typehandlers.py:92-187 | under all options a conversion leaves a wrapper that points to the object, with one new Python reference, at exactly the cost in C++ references of a new wrapper or a caller's reference |
| RefOrder.ConversionKeepsCover | pybindgen-0.15.0/pybindgen/cppclass_typehandlers.py:24-187 | between any two lines of a conversion the count covers what C++ holds and every wrapper that points to the object |
| RefCounts.Deallocates | pybindgen-0.15.0/pybindgen/cppclass.py:2143-2165 | a wrapper whose last Python reference is gone leaves the registry, gives its reference back and is freed, and the last one takes the object along |
| RefOrder.DeallocationKeepsCover | pybindgen-0.15.0/pybindgen/cppclass.py:2262-2295 | so it does between any two lines of the deallocator |
| RefCounts.CollectSound | pybindgen-0.15.0/pybindgen/cppclass.py:2167-2207 | clearing and freeing a tracked wrapper that only garbage reaches keeps the count under the safe options, and the object of a helper instance goes with it |
| RefCounts.RunSound | pybindgen-0.15.0/pybindgen/cppclass_typehandlers.py:24-187 | every run of conversions, C++ and Python references and collections keeps the invariant under the safe options; part of it is that a registered wrapper is one the collector does not track |
| RefCounts.ConservedExactly | pybindgen-0.15.0/pybindgen/cppclass.py:98-136 | in all runs from all births the count is what C++ holds plus the wrappers that point to the object, iff the class is no singleton and, when the collector runs, a helper class comes with a methods policy that names a peek method |
| RefCounts.HelperUncounted | pybindgen-0.15.0/pybindgen/cppclass.py:2187-2197 | without a methods policy that names a peek method there is a run of possible events in which the collector clears the wrapper of a helper instance still in use and the next return does not count it |
| RefCounts.SingletonLeaks | pybindgen-0.15.0/pybindgen/cppclass.py:2143-2146 | in a run of one possible event the wrapper of a singleton goes without giving its reference back |
| RefCounts.OneWrapperExactly | pybindgen-0.15.0/pybindgen/cppclass_typehandlers.py:92-187 | under the safe options an object has at most one wrapper in all runs, with collections or without, iff it is a helper instance, or C++ made it and the registry is in use |
| Timeline.TimelineEvent.Search | ns-3.9/utils/grid.py:101-113 | the loop finds the index of the recursive search |
| Timeline.TimelineEvent.GetEvents | ns-3.9/utils/grid.py:116-119 | of increasing events, every event of the window is returned and, besides, only the first event at or past its end; the result is increasing |
| Timeline.WindowOfEvents | ns-3.9/utils/grid.py:101-119 | the same of the slice between the two search results |
| Timeline.MissedExactly | ns-3.9/utils/grid.py:101-119 | no window query over sorted events misses one iff no two events are at the same time |
| Timeline.TimelineDataRange.GetRanges | ns-3.9/utils/grid.py:66-76 | of ranges that follow each other, touching or not, one stretch is returned: those that meet the window or lie beyond an end in a gap, less the ones sharing an end of it farther out than the one found; with both ends in gaps, none |
| Timeline.RangesReturned | ns-3.9/utils/grid.py:49-87 | the same of the stretch between the two bounds |
| Timeline.NoRangeMissedExactly | ns-3.9/utils/grid.py:49-87 | no range meeting the window is missed iff there is none, or an end of the window lies in a range and the searches land on the first and on the last range holding the two ends; they do if no two ranges share an end of the window |
| Timeline.SharedPointsExactly | ns-3.9/utils/grid.py:49-87 | all windows with an end in a range get every range they meet iff no two ranges share a point |
| Timeline.ScaleRenderer.Layout | ns-3.9/utils/grid.py:490-505 | for integers and floats the loop ends, and the step is found iff the interval is not of length one |
| Timeline.DeltaIsPositive | ns-3.9/utils/grid.py:490-505 | the step is a power of ten with 2 * step <= length < 20 * step for integers of length two on, and step < length <= 10 * step for floats of length above one |
| Timeline.ScaleRenderer.DrawPoints | ns-3.9/utils/grid.py:515-549 | the loop visits the points of the specification |
| Timeline.TicksExactly | ns-3.9/utils/grid.py:490-528 | the ticks are the multiples of the step in (lo, hi], in order; 2 to 20 of them for integer bounds from length two on, 1 to 10 for float bounds from length above one |

## Left out

- CandidateCheck.CheckAddFlyways: when setting up the given flyways fails, what is left in the tables is not stated, because the program ends there.
- TwoWayTrials.IsLinkFeasible: the rates of a link that does not work are not stated; the program does not use them.
- PatchSets.RoundTripExactly: names and lines are texts that hold no line end, as those of a parsed diff.
- TrailingWhitespace.RemoveTrailingWhitespaceChanges: works on the chunks of all patches in order; the nesting of chunks in patches adds nothing to the order.
- WrapperCode.CodeBlock.WriteCreateNewWrapper: reference-counted classes only; copies and borrowed objects of other classes, type narrowing, flags and instance dictionaries are not modelled.
- PosixLists.PosixExactly: words are taken as if quoted, so operator names as words, syntax errors and the other operators of a shell are not compared; a `cd` is taken to succeed and to lead to another directory than the start, and files and programs to exist, so a failing `open` or `Popen` is not compared.
- RefCounts.ConservedExactly: one object and its wrappers; returns through a base class with another helper class, and reuse of a freed address, are not modelled.
- AbstractClasses.AnswersRightExactly: a base reached on several paths counts as one, like a virtual base; methods not given to the binding are not there for C++ either; templates and static methods are not told apart; the cache is not reset when methods are added later.
- Inheritance.GetMro: the generator is modelled by the whole list it yields.
- Floating-point rounding: signals, noise, rates and the bounds of a scale are exact reals, and `pow` and `log10` enter only as conversions that are positive, inverse and increasing.
- The ns-3 helper: signal strength is an arbitrary function of nodes and antenna directions, gain is uniform and part of it, and pointing changes the two named dongles only.
- Reading and writing files, command lines, `sscanf`, `shlex` and log output; the models start from parsed values, tokens and lines.
- The capacity report and its running maximum in both trial programs.
- `test.py`: process spawning, examples, XML reports and worker exceptions; a test is a job with a skip flag and a return code.
- `print-introspected-doxygen.cc`: the type registry is abstract, sorting is modelled by its result, and only the replacement the program uses is modelled.
- `shellcmd.py`: verbose branches, failures of `open` and `Popen`, and how `subprocess` itself connects the streams it is given.
- `check-style.py`: the calls to the formatter, and lines with their terminators.
- `grid.py`: drawing, layout in pixels and colours; positions of ticks on the screen.
- The registry's own hash table and PyBindGen's other type handlers.
