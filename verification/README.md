# shellf, modelled and proved

shellf configures hosts from a control machine. A plan is a list of blocks of steps; each step
calls a def, a small program with `check`, `observe`, `preview` and `apply` phases. An
orchestrator resolves the plan for each host and sends it to an agent there; the agent runs the
steps, evaluates the defs, and asks the control host, over a channel, for the files the plan
declared. Whole trees travel by a delta transfer. This project models those parts in Dafny and
proves what they promise.

Every part has two forms. Functions (or a step relation, where several processes run at once) say
what is computed, and the theorems are about them. Classes and methods with the program's own
loops and fields are proved to compute exactly those functions.

| files | part |
|---|---|
| `Ast`, `Eval`, `Evaluator` | the def language and its evaluator: functions over a state and a log of events, and the class that updates its fields as it goes |
| `Preserve`, `Requests`, `Marks` | one induction over the evaluator, read three ways: looking acts on nothing, every ask was declared, the cycle guard is never met; and when a call's marks are its arguments' |
| `DryRun`, `DryRunSync`, `StdTransfer`, `DryRunLimits`, `Front` | a dry run's verdict is the real run's, with and without a transfer, and where it is not |
| `Confirm`, `SecondRun`, `ObserveReads`, `StatusReport`, `StatusExact` | confirmation, the second run, the report |
| `EarlyRefusal` | arguments refused while the plan is read |
| `Cycles` | the cycle check and what it guarantees |
| `Plan`, `PlanCalls`, `Resolve`, `Text`, `Cited` | steps, the split of a call's arguments, per-host resolution, the text passes |
| `Runner`, `StepRunner` | halting, caught errors, blocks, groups in turn |
| `Interleave`, `Parallel` | parallel groups as goroutines, at any depth, and what every interleaving reports |
| `Paths`, `Transfer`, `Framing`, `TreeSync`, `Convergence`, `Delivery`, `SyncEnds` | the tree transfer: framing, the staged commit, the specification it meets, the second sync |
| `Channel`, `ChannelSafety`, `AgentChannel`, `ControlHost` | the control channel as steps and as an object, and the host that answers |
| `Rendezvous`, `Resident` | the job files: claim, result, marker, poll |
| `Fleet`, `Orchestrator` | the fan-out and the run over a fleet |

The world is an oracle. A `Machine` says how a target answers a shell, a digest, a placement, a
read, a transfer or a preview, and how its state changes; the control host answers the n-th ask
as it likes; digests, regular expressions, JSON and base64 are deterministic functions, base64
with its inverse. Every event an evaluation causes is logged with the phase it came from, and the
theorems about safety are about that log. A string is a sequence of characters, one for each byte.

Where the code does less than its documentation says, the model follows the code, and a lemma
gives the input that shows it:

- a write in a returned payload is missed by the dry run (`DryRunLimits.PayloadWriteIsMissed`); the
  verdict is the real one exactly when the payload reached attempts none (`DryRun.DryRunExact`,
  with `DryRun.WritePayload` for a payload that is a write);
- a transfer's text differs between the two runs, and a write that depends on it is announced and
  never happens (`DryRunLimits.TransferTextDiverges`); when what follows the transfer only names the
  outcome the dry run is exact (`DryRunSync.SyncExact`), as it is for `dir.copy` and `dir.sync`
  (`StdTransfer.DryRunOfTransfer`);
- a check after the observe makes the report refuse what the run skips
  (`StatusReport.CheckAfterObserveDiverges`); `StatusExact.DisagreeExactly` says exactly when, and
  with the checks first they agree (`StatusReport.StatusIsTheSkip`);
- the cycle check does not walk payloads, delegation arguments or defaults
  (`Cycles.PayloadCycleIsMissed`); the guard is never met when all calls, wherever they are
  written, have no cycle (`Cycles.GuardNeverFires`);
- the parser accepts a parameter declared twice, and then a mark can move to another argument and
  an undeclared path is asked for (`Marks.SharedMarkAsksUndeclared`); marks stay with their
  arguments exactly when no parameter that can hold a path shares its name with a later one
  (`Marks.MarksTrueIffOwn`);
- a marked path left to the host is not declared (`Resolve.DeferredMarkIsUndeclared`); the declared
  list covers the resolved plan exactly when every path a host makes known is one the plan marked
  (`Resolve.DeclarationsKept`);
- a plan value with a reference in it is read twice (`Text.PlanValueIsRescanned`), and one that ends
  in `$` can start a reference; two stages are one pass for every text exactly when no plan value
  holds `${` or ends in `$` (`Text.TwoStageIsOnePass`);
- a transfer follows a link on the way to its declared path, where a read refuses one that leads out
  (`ControlHost.LinkedDirectoryIsSent`, `ControlHost.TransferInsideExactly`);
- deleting the files of a directory leaves the directory, and a source file of that name then fails
  the sync (`Delivery.EmptiedDirectoryBlocks`, `Delivery.SucceedsExactly`);
- an extra path with a newline deletes another file (`Convergence.NewlineDeletesAnother`); the list
  survives exactly when no path holds one (`Paths.ListRoundTrip`);
- a file whose source mtime is zero keeps the time it was staged, so a comparison by size and mtime
  sends it again (`Convergence.NothingLeftToSend` has the exact condition);
- an empty plan with a limit that names nobody crashes the run (`Orchestrator.CrashesExactly`);
- a caught and handled error still counts against its host (`Orchestrator.CaughtStillFails`);
- a chunk for a file nothing opened crashes the receiver (`Delivery.StrayChunkCrashes`);
  `Delivery.CrashesExactly` says which streams do, and no control host sends one
  (`Delivery.HonestNeverCrashes`).

`dafny verify dfyconfig.toml` checks the project.

## Model

| member | source | states |
|---|---|---|
| `Requests.LookingActsOnNothing` | internal/lang/eval.go:89-172 | For every request, def table and answer of the target, a Check or Status run logs no file placement and no shell of an `apply` (a plan's own shell included); Check logs no real transfer, Status nothing from an `apply` or `preview` phase |
| `Preserve.DefKept` | internal/lang/eval.go:28-191 | What every evaluation of a def keeps, whichever facts are asked for: looking only, asking only for marked paths, never meeting the cycle guard |
| `Preserve.AnnounceKept` | internal/lang/inert.go:21-95 | Evaluating an `apply` in check mode keeps those facts, because only an inert one is evaluated |
| `DryRun.DryRunExact` | internal/lang/eval.go:147-161 | On the same world, a def with pure checks and an inert apply without a transfer answers ok.already in Check exactly when the statements of its apply attempt no placement and do not break in Apply; that verdict is the whole Apply run's exactly when the payload of the outcome reached attempts none either, and such a run changes nothing; an apply that breaks before any placement breaks both runs alike |
| `DryRun.WritePayload` | internal/engine/fileput.go:32-100 | A payload that is a write, of any path and content that write nothing themselves, attempts a placement exactly when there is a channel, the path evaluates to a string that is not empty, the content to text or bytes, and the digest there is not the content's |
| `DryRun.WritelessPayload` | internal/lang/eval.go:1181-1198 | A payload with no write in it, at any depth, attempts none |
| `DryRun.DryRunSameRefusal` | internal/lang/eval.go:136-140 | When a check answers or the arguments fail, Check and Apply return the same thing and touch nothing |
| `DryRun.StmtsLocked` | internal/lang/eval.go:816-853 | Lockstep: the two runs are equal up to the first write that would differ, and from there the dry run knows it acts and the real run has attempted a placement |
| `DryRunSync.SyncExact` | internal/lang/eval.go:147-161 | An inert apply of statements, one transfer and what only names the outcome, where previews and transfers agree: Check answers ok.already exactly when the Apply statements attempt no placement, do not break, and the transfer reports nothing written or removed, though the branch after it may differ; a break before any placement is the same in both, and a payload is missed exactly as without a transfer |
| `StdTransfer.DryRunOfTransfer` | internal/std/dir/dir.shellf:115-145 | `dir.copy` and `dir.sync` called alike on one world: both runs say ok.already, or Check announces the outcome the Apply run then has, changed, or both break alike |
| `DryRunLimits.PayloadWriteIsMissed` | internal/lang/eval.go:151-155 | A whole def, called with the same arguments on the same world: the payload its apply returns is a write, Check says ok.already and the Apply run attempts the write |
| `DryRunLimits.TransferTextDiverges` | internal/lang/eval.go:940-951 | A whole def that compares the text of `~dir.sync` with "0" to decide a write: on a tree in sync Check announces a change and Apply is ok.done, unchanged, and places nothing; what follows a transfer may not write |
| `SecondRun.ChangedIsConfirmed` | internal/lang/eval.go:215-246 | An Apply verdict is ok and changed exactly when the apply acted, succeeded, and the observe read again afterwards converged; the run ends with that reading |
| `SecondRun.UnconfirmedNamesTheRest` | internal/lang/eval.go:231-245 | An apply that acted and succeeded on a state that did not follow is err.unconfirmed, naming exactly the fields that did not move, at least one |
| `SecondRun.SecondRunConverged` | internal/lang/eval.go:130-145 | After a confirmed change, the same call on the world it left returns ok.already, leaves the world as it is and does nothing but check and read, when the checks before the observe are pure, the observe only reads and nothing after it rebinds what it reads |
| `ObserveReads.ClosedLasts` | internal/lang/eval.go:1112-1131 | A condition on the text of the observe that makes a confirmed change last: it reads only what is in scope, `ok` and `err` only after a result of its own, and its shells only look |
| `StatusReport.StatusIsTheSkip` | internal/lang/eval.go:427-442 | On the same world, with every check before the observe, Status answers OK exactly when the Apply run skips its apply, and then Apply returns ok.already where Status ended; a reading that fails fails both |
| `StatusReport.StatusRefusesAlike` | internal/lang/eval.go:110-122 | A call its checks refuse is refused by Status and Apply with the same verdict on the same target |
| `StatusReport.StatusAfterChange` | internal/lang/eval.go:427-442 | After a confirmed change Status reports OK with no field off |
| `StatusReport.CheckAfterObserveDiverges` | internal/lang/eval.go:134-145 | A check written after the observe: Status runs it first and refuses, Apply skips before reaching it |
| `StatusExact.DisagreeExactly` | internal/lang/eval.go:110-145 | With one observe and checks on either side of it, Status says OK where Apply skips exactly when no check after the observe answers, or one answers ok where the reading is the desired state and something else where it is not; a skip is ok.already on the target the reading left |
| `Confirm.DiffAgrees` | internal/lang/eval.go:446-487 | The field report has one entry per observed field in name order, and it is clean exactly when the skip decision calls the state converged |
| `EarlyRefusal.EarlyRefusalAgrees` | internal/lang/argcheck.go:215-255 | A verdict decided while the plan is read is the target's own, for every mode, executor, control host and def table, and the target is not touched; only a failing question reads as would in Check |
| `EarlyRefusal.EarlyPassIsExact` | internal/lang/argcheck.go:86-96 | For a pure check over pure defaults the early pass decides exactly when the target's check does, with the same result |
| `EarlyRefusal.RefusedStepIsRefusedThere` | internal/lang/argcheck.go:166-210 | A step refused early is refused by the agent in Apply and Status with the same report, target untouched |
| `Front.CheckedSame` | internal/lang/eval.go:54-88 | Two runs of a def with pure checks end them with the same answer and variables, whatever their modes and targets |
| `Evaluator.Ev.EvalArgs` | internal/lang/eval.go:710-731 | Arguments are evaluated in the caller's scope, bytes and non-booleans refused, control-host marks carried across |
| `Evaluator.Ev.EvalStmts` | internal/lang/eval.go:576-609 | Statements run in order up to the first outcome |
| `Evaluator.Ev.EvalObserve` | internal/lang/eval.go:400-423 | The record of the first `state(...)` reached, lets and shells on the way kept |
| `Evaluator.Ev.EvalPreview` | internal/lang/eval.go:555-574 | The preview's text is what each statement's last shell or primitive printed, in order |
| `Evaluator.Ev.EvalDecide` | internal/lang/eval.go:134-145 | Pass 1: the first check that answers or observe that converges decides |
| `Evaluator.Ev.EvalStatus` | internal/lang/eval.go:427-442 | The report of the first observe, OK when no field is off |
| `Evaluator.Ev.DiffFields` | internal/lang/eval.go:446-465 | One entry per observed field, in name order |
| `Evaluator.Ev.Confirm` | internal/lang/eval.go:215-246 | A success that acted is changed, and refused when the observe does not support it |
| `Evaluator.Ev.KeptApply` | internal/lang/inert.go:21-36 | The last apply, when the def has no observe and nothing in it can act |
| `Evaluator.Ev.AsksOnly` | internal/lang/inert.go:100-110 | A question is a def of checks only, at least one, that delegates to nobody |
| `Evaluator.Ev.EvalDef` | internal/lang/eval.go:28-191 | A whole def: arguments and marks bound, defaults, `with`, then its body, with its own `as` and interpreter |
| `Cited.CitesVar` | internal/lang/eval.go:1160-1179 | A command cites a variable exactly when it holds the name braced, or bare with no name character after it |
| `Cited.LongerNameIsNotCited` | internal/lang/eval.go:1155-1175 | A bare longer name does not cite its prefix |
| `Cycles.CheckCycles` | internal/lang/cycles.go:86-131 | Accepts exactly when no walk from the given names repeats one; a refusal carries a real walk over callees that ends on a name it already holds |
| `Cycles.Walker.Walk` | internal/lang/cycles.go:107-131 | The memoised walk: afterwards the name is done, or the chain is a real cycle |
| `Cycles.CalleesAre` | internal/lang/cycles.go:21-74 | The names a def calls are those of its phases' statements and of its delegation, once each |
| `Cycles.OrderedHasNoCycle` | internal/lang/cycles.go:107-131 | An order in which every callee comes first rules out every cycle |
| `Cycles.GuardNeverFires` | internal/lang/eval.go:692-700 | When the defs a name can reach call each other without a cycle, wherever the calls are written, no evaluation in any mode, on any target, ends at the evaluator's own cycle guard |
| `Cycles.AcceptedIsLayered` | internal/lang/cycles.go:86-131 | What the cycle check accepts is such an order when it walks every call of the defs it reaches |
| `Cycles.PayloadCycleIsMissed` | internal/lang/cycles.go:39-55 | A def that calls itself in a returned payload is accepted, and running it meets the guard |
| `Eval.RoomShrinks` | internal/lang/eval.go:692-749 | Every call leaves one def fewer to enter, so calls nest no deeper than there are defs |
| `Plan.DeclaredBy` | internal/lang/control_scan.go:19-58 | The resources declared are every primitive over every marked path at any depth, sorted, once each |
| `Plan.Scan.Steps` | internal/lang/control_scan.go:38-58 | The shared set grows by exactly the marked paths of the steps |
| `Requests.AskedIsDeclared` | internal/lang/eval.go:855-903 | Every resource a run asks for, transfers or previews, at any depth of def calls, was declared by the plan before it was resolved and sent, when marks stay with their arguments and every path a host makes known is one the plan marked |
| `Marks.MarksTrueIffOwn` | internal/lang/eval.go:710-731 | The marks a call binds are true of its arguments, whatever it passes, exactly when no parameter that can hold a path shares its name with a later one |
| `Marks.SharedMarkAsksUndeclared` | internal/lang/eval.go:65-69 | A run of a def that declares a parameter twice asks for a path the plan never marked: the second argument takes the first one's mark |
| `Resolve.ResolveRefs` | internal/proto/proto.go:76-164 | The loop over the steps computes the resolution every lemma here is about, or fails on the first name a host does not have |
| `Resolve.NothingLeft` | internal/proto/proto.go:76-164 | A resolved plan holds no reference and no template, at any depth |
| `Resolve.ResolvedPaths` | internal/proto/proto.go:76-164 | A resolved plan marks the paths the plan marked and the expanded ones of its deferred marks, and no other |
| `Resolve.DeclarationsKept` | internal/proto/proto.go:76-164 | The list built from the plan covers the resolved plan, and its paths are the same, exactly when every path a host makes known is one the plan marked anyway |
| `Resolve.DeferredMarkIsUndeclared` | internal/lang/control_scan.go:38-44 | A marked path left to the host is missing from the declared list, and the resolved step has it |
| `Resolve.SameInterpreters` | internal/orchestrator/orchestrator.go:241-291 | When hosts agree on an interpreter, or no shell leaves it to them, every plan shell resolves to the same one on both |
| `PlanCalls.Call` | internal/lang/parser.go:807-898 | A call fails exactly for its arity or a refused argument; otherwise each positional argument goes to literals, references or deferred texts under its parameter's name, with its mark, later ones over earlier ones |
| `PlanCalls.FilledPlaces` | internal/lang/parser.go:807-898 | When no two parameters share a name, every argument is in exactly one of the three places, and nothing else is in them |
| `PlanCalls.CallOnHost` | internal/proto/proto.go:76-164 | On a host every argument of a call has the value of one two-stage reading, and resolution fails exactly when one has none |
| `PlanCalls.CallIsShaped` | internal/lang/parser.go:807-898 | A call's step is shaped as resolution expects, and its marks are known exactly when no marked text was deferred |
| `Text.InterpolateLoop` | internal/lang/parser.go:1061-1115 | The interpolation loop yields the text of the recursive reading, or fails with it, and says whether a name was left for a host |
| `Text.ExpandLoop` | internal/proto/proto.go:22-44 | The per-host expansion loop yields the text of the recursive reading, or fails with it |
| `Text.TemplateLoop` | internal/lang/parser.go:1004-1041 | The template loop renders what the recursive reading renders |
| `Text.TwoStageIsOnePass` | internal/lang/parser.go:1061-1115 | For plan names a text can cite: interpolating while the plan is read and expanding on each host give what one pass over both tables gives, failures included, for every text whose dollar signs open references and every host, exactly when no plan value holds `${` or ends in a dollar sign |
| `Text.PlanValueIsRescanned` | internal/proto/proto.go:22-44 | A plan value that holds a reference is read again by the second stage, where one pass would write it as it is |
| `Text.RenderConcat` | internal/lang/parser.go:1004-1041 | A text that renders and does not end in a tilde renders the same before any other: substituted values are never rescanned |
| `Text.RawQuotes` | internal/lang/parser.go:1008-1022 | A raw region gives back any text without its closing marker, whatever the lookup |
| `Runner.HaltingRule` | internal/agent/agent.go:149-175 | The results are those of the run that never halts, up to and including the first step that does not pass; not halted means every step ran and every error was caught and handled by the next step |
| `Runner.CaughtBranch` | internal/agent/agent.go:180-251 | For a captured error, the waiting rule predicts the branch the `if` takes |
| `Runner.BranchesIsolated` | internal/agent/agent.go:286-302 | Each branch of a group starts from the scope as it was and leaves no capture behind |
| `Interleave.EveryInterleaving` | internal/agent/agent.go:286-302 | Groups at any depth run as goroutines, an instruction a move, each with its own continuation and scope: every interleaving that ends reports what running each group's branches in turn reports, with the same captures and a target nobody can tell apart, when the instructions of different branches commute |
| `Interleave.RequestInterleaved` | internal/agent/agent.go:149-175 | The same for all the steps of a request: the same results and the same halt |
| `Interleave.MoveAgrees` | internal/agent/agent.go:272-312 | One move of any goroutine keeps what the whole step comes to |
| `Interleave.MovesAreBounded` | internal/agent/agent.go:286-302 | However the scheduler picks, a run makes no more moves than the task has |
| `Interleave.EveryRunEnds` | internal/agent/agent.go:286-302 | From every state some goroutine can move until the step is over: no group is ever stuck |
| `Parallel.ParallelReports` | internal/agent/agent.go:286-302 | For branches on executors of their own, in every interleaving, slot i is what branch i yields alone on the target as it was, and the group fails exactly when a branch does |
| `Parallel.RaceShows` | internal/agent/agent.go:286-302 | Two shells of which only the first to run succeeds: two interleavings of one group with different reports, so the condition on the branches is needed |
| `StepRunner.Session.Steps` | internal/agent/agent.go:149-175 | The loop, its pending name and its scope map compute the run the halting rule is about |
| `Framing.FramingRoundTrip` | internal/orchestrator/sync.go:156-200 | For any pieces a file is read in, the receiver ends with the announced count and exactly the files sent, with bytes, modes and mtimes, or refuses when one could not be read |
| `Framing.FileDecodes` | internal/agent/sync.go:242-295 | One file's messages stage that file at its path, whole |
| `Framing.StagedCount` | internal/orchestrator/sync.go:45-86 | As many files are staged as the terminator announces |
| `Framing.OwnOnly` | internal/agent/sync.go:244-252 | Messages of other exchanges change nothing, and an I/O error while staging can only refuse |
| `SyncEnds.ChunksRead` | internal/orchestrator/sync.go:176-199 | Whatever the buffer size, the chunks are the file |
| `SyncEnds.SendFileLoop` | internal/orchestrator/sync.go:156-200 | The read loop sends the opening message, a chunk for each read and one closing message, for both kinds of end of file; a file that cannot be opened or read is an error answer in its place |
| `SyncEnds.ServeSync` | internal/orchestrator/sync.go:55-87 | Once the source is walked: what the manifest lacks or holds differently is streamed in path order unless it is a preview, and the terminator carries the count and the extras |
| `SyncEnds.Receiver.Handle` | internal/agent/sync.go:254-295 | One message does to the staged file and the staging tree what the decoder function says |
| `SyncEnds.Receiver.StreamOnce` | internal/agent/sync.go:242-297 | The receive loop decodes a whole stream, other exchanges passed over |
| `SyncEnds.Agent.RemoveExtras` | internal/agent/sync.go:400-418 | Deletions in order, files and empty directories, stopping at the first that is outside, blocked or in use; the directories they were in stay |
| `SyncEnds.Agent.Place` | internal/agent/syncchild.go:72-103 | Staged files placed one by one, their directories made first, counted, stopping at the first that cannot be: below a file, onto a directory, or unlucky |
| `SyncEnds.Area.Clear` | internal/agent/sync.go:82-97 | The staging area emptied file by file; emptying or remaking it can fail |
| `SyncEnds.Agent.Sync` | internal/agent/sync.go:45-124 | Two attempts into one staging area, emptied between them, the deletion list, the commit, and the count checked |
| `TreeSync.SyncMeetsGoal` | internal/agent/sync.go:45-124 | A sync that succeeds leaves every path as the specification says (same stays, different is delivered, extra goes when asked, everything else untouched), the directories it had and those of what it placed, and reports how many files it wrote and removed, wherever the first session was lost |
| `Delivery.SyncSucceeds` | internal/agent/syncchild.go:52-104 | When the whole stream arrives, nothing fails, no file stands in the way and no source file's path is a directory of the target, the sync succeeds |
| `Delivery.DirectoryInTheWay` | internal/agent/syncchild.go:141-146 | A source file whose path is a directory of the target makes the sync fail, whatever is deleted |
| `Delivery.SucceedsExactly` | internal/agent/syncchild.go:52-104 | With a whole stream, no failure and no file in the way, the sync succeeds exactly when no source file's path is a directory of the target |
| `Delivery.EmptiedDirectoryBlocks` | internal/agent/sync.go:400-418 | Deleting d/a/b leaves the directory d/a, so a source file a makes the sync with deletion fail |
| `Delivery.HonestNeverCrashes` | internal/agent/sync.go:242-295 | What a control host sends, cut anywhere, never makes the receiver use a file it did not open |
| `Delivery.CrashesExactly` | internal/agent/sync.go:242-295 | A stream crashes the receiver exactly when, read off its messages alone, one carries data or a close for a file nothing opened, and nothing refuses the stream before it |
| `Delivery.StrayChunkCrashes` | internal/agent/sync.go:255-274 | The shortest such stream: one chunk without a mode |
| `TreeSync.CutLeavesDestination` | internal/agent/sync.go:235-297 | A stream with no terminator, or with an error or an unreadable chunk before it, leaves the destination as it was |
| `TreeSync.RetryIsFresh` | internal/agent/sync.go:82-103 | After a session that was gone, with the shared staging area emptied, the sync is the one its second attempt makes alone, and a file that attempt does not send is as it was or deleted; when emptying fails, nothing is placed and nothing deleted |
| `TreeSync.LeftoversStay` | internal/agent/sync.go:82-97 | What an attempt finds in the staging area stays there: without the emptying the first attempt's files would be committed |
| `TreeSync.NothingOutside` | internal/agent/sync.go:322-334 | Whatever a stream says, no file outside the destination changes and no directory there goes; a directory is made only on the way to the destination |
| `Convergence.NothingLeftToSend` | internal/orchestrator/sync.go:134-148 | After a successful sync a rescan has nothing to send exactly when every file just delivered was compared by digest, carried a non-zero mtime, or met a clock at zero |
| `Convergence.NoExtrasLeft` | internal/agent/syncchild.go:60-71 | With deletion, a rescan finds nothing the source lacks |
| `Convergence.SecondSyncIsIdle` | internal/agent/sync.go:45-124 | A second sync of the same tree writes nothing, removes nothing and changes nothing |
| `Convergence.CopyTouchesItsPathsOnly` | internal/agent/sync.go:29-35 | Without deletion nothing but the source's own paths changes |
| `Convergence.DigestMeansSameBytes` | internal/orchestrator/sync.go:134-148 | Compared by a digest without collisions, every source file ends up with its bytes on the target |
| `Convergence.PreviewPredicts` | internal/agent/sync.go:37-71 | A preview names as many files as the sync then writes and exactly the paths it then removes |
| `Convergence.NewlineDeletesAnother` | internal/agent/sync.go:108-112 | An extra path with a newline makes the commit delete another file the source has, and report success |
| `Paths.ListRoundTrip` | internal/agent/syncchild.go:175-190 | The deletion list is read back as written exactly when no path is empty or holds a newline |
| `Paths.ReadLines` | internal/agent/syncchild.go:183-189 | The reader's loop keeps the non-empty lines in order |
| `Paths.PermRoundTrip` | internal/agent/sync.go:343-346 | A permission survives its octal text, a zero reading as 0644 |
| `Paths.LandText` | internal/agent/sync.go:322-334 | A path of plain names lands under the destination at those names |
| `ChannelSafety.PayloadIsOurs` | internal/agent/channel.go:144-227 | Over every interleaving of calls, transfers, drops and reconnections, a payload a call returns is what the control host read for an ask that very call sent |
| `ChannelSafety.TwoSendsAtMost` | internal/agent/channel.go:144-160 | No call sends more than two asks |
| `ChannelSafety.ArmedWhenInstalled` | internal/agent/channel.go:89-118 | The ready channel is closed exactly when a connection is installed; that connection is open and every one replaced or dropped is closed |
| `ChannelSafety.OneHolder` | internal/agent/channel.go:144-146 | At most one job holds the lock, and only its holder sends or receives |
| `ChannelSafety.NoLostWake` | internal/agent/channel.go:174-185 | While a connection is installed, every job still waiting for one can go on |
| `ChannelSafety.StepKeeps` | internal/agent/channel.go:89-243 | Every step of a job, a bridge or the control host keeps the invariant all of these are read from |
| `ChannelSafety.ServeKeeps` | internal/orchestrator/serve.go:105-133 | One answer per ask, with its id: serving keeps every pending answer tied to its ask |
| `AgentChannel.AgentEnd.Accept` | internal/agent/channel.go:97-114 | A new bridge replaces the old one, which is closed |
| `AgentChannel.AgentEnd.Drop` | internal/agent/channel.go:231-243 | The connection is closed and forgotten and the wait armed again |
| `AgentChannel.AgentEnd.Attach` | internal/agent/channel.go:164-185 | The live connection, or the one that attached during the wait, or nobody |
| `AgentChannel.AgentEnd.AskOnce` | internal/agent/channel.go:191-227 | One id, one ask on the connection in place, and the first answer to it; a connection that goes away is dropped and closed |
| `AgentChannel.AgentEnd.AskWith` | internal/agent/channel.go:144-160 | A second exchange exactly when the first met a connection that was gone, never a third; the result is the answer to the last ask sent, found in the inbox of the connection still held |
| `AgentChannel.ScanFirst` | internal/agent/channel.go:208-226 | The answer taken is the first with that id, everything before it another's or no answer |
| `ControlHost.NewAllowed` | internal/orchestrator/serve.go:54-83 | The list holds exactly the declarations whose path, resolved, is inside the assets |
| `ControlHost.Serve` | internal/orchestrator/serve.go:105-133 | The serving loop over what arrives: other messages passed over, an ask answered once, a transfer streamed |
| `ControlHost.OneReplyEach` | internal/orchestrator/serve.go:105-133 | One reply per ask, in order, every message of it with that ask's id |
| `ControlHost.AnsweredWasDeclared` | internal/orchestrator/serve.go:137-195 | An ask that is no transfer is answered only about a resource the plan declared, whose path as written is inside the assets as written, and which, links followed, is inside the assets with their own links followed |
| `ControlHost.SentWasDeclared` | internal/orchestrator/sync.go:30-87 | A transfer sends only regular files below a path the plan declared, inside the assets as it is written |
| `ControlHost.TransferInsideExactly` | internal/orchestrator/sync.go:30-47 | Every file every transfer of a declared path sends is taken from inside the assets, whatever the disk holds and whoever asks, exactly when no link on the way to the path leads out, or a link or nothing is at the path itself |
| `ControlHost.LinkedDirectoryIsSent` | internal/orchestrator/sync.go:30-47 | With assets/pkg a link out of the assets, a read of pkg/sub/x is refused and a transfer of pkg/sub sends x |
| `ControlHost.PlainIsInside` | internal/orchestrator/serve.go:87-92 | A declared path of plain names is always kept |
| `ControlHost.AskedIsAllowed` | internal/orchestrator/serve.go:98-101 | No ask a run of the plan makes is missing from the list built from the plan, when its marked paths stay inside the assets, marks stay with their arguments and every path a host makes known is one the plan marked |
| `Rendezvous.RunsAtMostOnce` | internal/agent/resident.go:66-84 | With any number of agents racing and dying at any step, a request runs at most once |
| `Rendezvous.ClaimIsExclusive` | internal/agent/resident.go:66-84 | A claimed job is in one agent's hands |
| `Rendezvous.MarkerMeansResult` | internal/agent/resident.go:105-124 | For a job not consumed and not swept away, the marker means its result is there and whole |
| `Rendezvous.PollReturnsWhole` | internal/transport/ssh.go:753-806 | What a poll returns is the whole result of the job's one run, or the short one written in its place |
| `Rendezvous.StepKeeps` | internal/agent/resident.go:69-152 | Every step of an agent, a cleanup or the control host keeps the invariant these are read from |
| `Resident.Workdir.NextRequest` | internal/agent/resident.go:69-84 | The first listed request still there is renamed and nothing else changes; none left means none was there |
| `Resident.Workdir.ProcessJob` | internal/agent/resident.go:88-124 | The result under its name, or a short one, before the marker; no marker without one of them; the claim removed and no other file touched |
| `Resident.Workdir.WriteResult` | internal/agent/resident.go:128-142 | Whole under its name, or not there |
| `Resident.IdRoundTrip` | internal/agent/resident.go:88-90 | The id is recovered from the claimed name, for every id |
| `Resident.OnlyRequests` | internal/agent/resident.go:71-75 | Of the rendezvous's own names only requests are tried |
| `Resident.Poll` | internal/transport/ssh.go:753-790 | The loop returns the first answer printed, whatever drops before it, and waits at most a second a turn |
| `Resident.NextWait` | internal/transport/ssh.go:702-712 | The wait starts at 25 ms, never shrinks and is capped at a second |
| `Fleet.NeverMoreThanWidth` | internal/fleet/fleet.go:43-74 | Never more than the width in flight, in any order |
| `Fleet.AnyOrderSameResults` | internal/fleet/fleet.go:43-74 | In whatever order workers finish, result i is target i's, and the hosts dialled are those whose request could be built |
| `Fleet.NoDeadlock` | internal/fleet/fleet.go:48-71 | While a worker is left, some step is enabled |
| `Fleet.Execute` | internal/fleet/fleet.go:43-74 | Run on an array, each worker writes its own element |
| `Fleet.Width` | internal/fleet/fleet.go:22-27 | The width is always positive |
| `Orchestrator.BlockReaches` | internal/orchestrator/orchestrator.go:92-181 | A block reports exactly the members of its target that the limit allows and that failed in no earlier block |
| `Orchestrator.UnknownDialsNobody` | internal/orchestrator/orchestrator.go:93-107 | An unknown target or limit name dials nobody, and every unknown target is reported |
| `Orchestrator.CrashesExactly` | internal/orchestrator/orchestrator.go:93-107 | The run crashes exactly for an empty plan with a limit that names nobody: the refusal is written into the first block |
| `Orchestrator.UnknownIs` | internal/orchestrator/orchestrator.go:218-229 | The unknown targets are those the inventory lacks, each once |
| `Orchestrator.LimitAllows` | internal/orchestrator/orchestrator.go:186-214 | A limit allows exactly the members of the names it lists, and fails on a name nobody declares |
| `Orchestrator.DialledHostsAgree` | internal/orchestrator/orchestrator.go:241-291 | Two hosts dialled in one block run every plan shell under the same interpreter |
| `Orchestrator.FanOutFills` | internal/orchestrator/orchestrator.go:167-177 | The fan-out of a block, in any order, fills its report and dials exactly the hosts it says it dialled |
| `Orchestrator.CaughtStillFails` | internal/orchestrator/orchestrator.go:385-395 | A sequence that did not halt still fails its host exactly when one of its steps erred |
| `Orchestrator.ErredWasHandled` | internal/agent/agent.go:149-193 | Such a step was caught by the plan and handled by the next one |
| `Orchestrator.InventoryWins` | internal/orchestrator/orchestrator.go:301-368 | A host's own inventory fields are what it reads under their prefix, whatever the plan's table, `--set` and the other hosts say: aliases and fields are identifiers, so no name of another host is one of them |
| `Orchestrator.CrossIs` | internal/orchestrator/orchestrator.go:326-348 | The cross-host table holds under each alias exactly that host's fields but `key`, in whatever order the hosts are walked |
| `Orchestrator.CrossHostReads` | internal/orchestrator/orchestrator.go:301-348 | On any host, another host's field under its alias is that host's |
| `Orchestrator.RunPlan` | internal/orchestrator/orchestrator.go:92-181 | The run: refusals first, or the crash, then the blocks in turn with the set of dead hosts, as the function all of these are about |
| `Orchestrator.BlockLoop` | internal/orchestrator/orchestrator.go:112-180 | One block: live hosts, the limit met or refused, the interpreters agreed or every live host failed, then the fan-out |
| `Orchestrator.UnknownTargets` | internal/orchestrator/orchestrator.go:218-229 | The loop over the blocks finds each unknown target once, in plan order |
| `Orchestrator.LimitLoop` | internal/orchestrator/orchestrator.go:186-204 | The loop over the limit's names collects their members or stops at an unknown one |
| `Orchestrator.AgreeLoop` | internal/orchestrator/orchestrator.go:241-264 | One interpreter among the live hosts, where it matters |

## Left out

- Requests.LookingActsOnNothing: a shell in a `check`, `observe` or `preview` phase, or in a parameter default or a delegation's argument, may change the target; the claim is about the events of the log, and about the shells of `apply` phases.
- DryRun.DryRunExact: for defs with pure checks and defaults, and without a transfer; with one transfer see `DryRunSync.SyncExact`. Several transfers in one apply, or a transfer inside an `if`, are not covered.
- SecondRun.SecondRunConverged: "the observe only reads" is a condition on how it evaluates; `ObserveReads.ClosedLasts` gives a textual one that implies it.
- StepRunner.Session.Branches: one branch after another; the interleavings of goroutines are in `Interleave`.
- Interleave.EveryInterleaving: one instruction, a whole def or a plan shell, is one move; the commands of two defs on one target are not interleaved. Where they do not commute the report depends on the scheduler (`Parallel.RaceShows`).
- Interleave.RequestInterleaved: the same granularity, a whole instruction a move.
- Parallel.ParallelReports: the same granularity, a whole instruction a move.
- AgentChannel.AgentEnd.AskWith: what happens while the lock is released is the connection that attached meanwhile; the interleavings are in `ChannelSafety`.
- Cited.CitesVar: for names without a dollar sign, which is all the language has.
- Resident.Poll: the deadline is the length of the list of turns.
- `forLoop`, `condition`, `asBlock` and the rest of the plan grammar, the lexer, positions, labels and diagnostics: only the split of a call's arguments and the text passes are modelled.
- `err.unconfirmed` carries its fields as data where the program writes them into a message; the `ran` list of shells for a verbose report is not modelled.
- The agent's check that an interpreter is installed is a set of names, not a shell.
- Symbolic links inside a destination: a link in a directory's place blocks what is below it, where the program follows one that stays inside. Ownership, directory modes and the destination itself being a link are not modelled either.
- A source that is itself a file.
- A commit that fails half way leaves the files placed so far, as in the program; what else such a failure leaves (a temporary file) is not modelled.
- Regular expressions, digests, JSON and base64 beyond being functions; integer widths, which nothing here reaches except the 32 bits of a mode.
- An agent that could not open its socket, which fails every ask, and the closing of the listener.
- Reconnection of the control host's bridge (retry counts and waits), SSH, sudo, pushing the agent binary, the command lines built in `ssh.go`.
- CLI flags, project layout, module fetching, the standard library's other defs, the shell detector, report rendering.
