# Primo: a verified model of the fiber scheduler, the log pattern compiler and the log configuration

The project models three components of the Primo C++ server library and proves what they promise.

**The N-M fiber scheduler.** Worker threads share one locked list of fibers and callbacks. Each
takes the first entry it may run, switches into it, queues it again when it left READY, parks it as
HOLD otherwise, recycles a callback fiber of its own, and leaves its loop through an idle fiber that
polls `stopping()`.

- `Fibers`: the life cycle of a fiber as a function on states, and the class that performs it.
- `TaskQueue`: the locked list as a class: pushing, the batch push, and the scan.
- `Scheduler`: the worker loop as a transition system with a program counter for each worker. The
  locked scan, every test and write of a fiber state, every counter change, every push and every
  context switch is a step of its own; the steps of all workers, of the code that runs in fibers and
  of outside threads interleave freely.
- `SchedulerAccounting`: what holds for every client: exact counters, conservation of accepted
  entries, bounded waiting.
- `SchedulerOwnership`: what holds under the client discipline: mutual exclusion and the legality of
  the fibers local to `run`.
- `SchedulerDrain`: what stop promises, although `stopping()` is not stable.
- `SchedulerStop`: exactly how long `stopping()` stays true, and exactly in which states all workers,
  however many, can still leave their loops.
- `SchedulerWitness`: concrete runs that show why the discipline is needed, and that `stopping()` can
  be true while a READY fiber is still in a worker's hand, from where stop can be lost.
- `SchedulerHistory`: the life of each fiber over a whole run, as the assertions of fiber.cpp see it.
- `SingleWorker`: the same loop as an imperative method over tasks that are finite programs. It
  terminates, and `LoneWorker` supplies the paths by which each of its methods is shown to follow the
  transition system, so that a call of `Run` is one of its runs.

The discipline is this. `schedule(f)` is called for a fiber only while it is INIT, HOLD or EXEC, has
no entry, and is not in a worker's hand un-started; and a running fiber that has an entry leaves by
`YieldToHold`. `switchTo` obeys it.

**The log pattern compiler.** `LogFormatter::Init` is an index-jumping scanner with a status flag,
followed by a table lookup.

- `Pattern`: the grammar as a recursive tokeniser on the remaining text, printing, the canonical
  token lists, and the two-way inverse.
- `LogFormatters`: the scanner's loops refined against that grammar, their cost, the lookup, and the
  meaning of the error flag.

**Configuration load and logger reconciliation.** A YAML tree is flattened to dotted names, converted
and compared; listeners are notified; and the listener of the variable `logs` updates the table of
loggers from the difference of the old and the new set.

- `Yaml`, `Flatten`, `Config`: the tree, the flattening, configuration variables and their registry.
- `LogDefines`: the conversions of log definitions and of name-keyed sets of them.
- `Reconcile`: the logger table as a value; incremental update against rebuilding; soundness of
  formatters; routing.
- `LoggerTable`: loggers, the manager and the listener as classes, proved against that value.

`Sequences` and `Wrappers` hold sequence facts, options and results.

Where the code and its naming disagree the model follows the code: `%%` appends one `%` and the
second one is looked at again (primo/log/Logger.cpp:491-495); an unclosed `{` drops only its `%`
(549-554); the formatter of a file appender is read from its `file` member (732); an appender's level
is written (786-789) and never read back. schedule.cpp calls `swapIn`, `reset` and `m_state` what
fiber.cpp defines as `SwapIn`, `Reset` and `mState`; they are taken to be the same.

## Model

| member | source | states |
|---|---|---|
| `Fibers.EntriesAlternateWithExits` | primo/fiber.cpp:164-256 | in every history the assertions admit, a fiber was entered exactly once more than it was left while it is EXEC, and as often otherwise |
| `Fibers.FinishedNeedsReset` | primo/fiber.cpp:111-131 | between the end of a callback and the next entry into the same fiber lies a `Reset` |
| `Fibers.ThreadContext.GetThis` | primo/fiber.cpp:182-192 | the current fiber, or on a thread's first call a new EXEC fiber without a stack that becomes both current and home |
| `Fibers.Fiber.Reset` | primo/fiber.cpp:111-131 | allowed for TERM, EXCEPT and INIT fibers with a stack; makes the fiber INIT with the new callback and keeps its history admitted |
| `Fibers.Fiber.SwapIn` | primo/fiber.cpp:164-173 | any fiber that is not EXEC becomes EXEC and current; its code goes on exactly when it was not finished, since a finished one runs into the assertion of line 255 |
| `Fibers.YieldToReady` | primo/fiber.cpp:195-203 | the current fiber becomes READY, its history stays admitted, and the home fiber is current; on a thread without fibers a new one is both |
| `Fibers.YieldToHold` | primo/fiber.cpp:205-212 | no state is written: the fiber stays EXEC while the home fiber becomes current |
| `Fibers.FinishMain` | primo/fiber.cpp:224-256 | TERM with the callback dropped after a return, EXCEPT with the callback kept after a throw; the history stays admitted |
| `Fibers.AllowedStates` | primo/fiber.cpp:87-256 | the states each assertion allows and the state each event leads to, one by one |
| `TaskQueue.FirstEligible` | primo/schedule.cpp:153-173 | the scan stops at the first entry that is neither pinned elsewhere nor a running fiber, and passes over everything before it |
| `TaskQueue.WakeUpComplete` | primo/schedule.cpp:153-179 | whenever the scan leaves behind an entry that is not a running fiber, the worker asks for a wake-up |
| `TaskQueue.SilentIff` | primo/schedule.cpp:150-179 | the scan asks for no wake-up exactly when nothing is left behind the entry it stops at and everything it passed over is a fiber that runs right now and that this thread may run |
| `TaskQueue.BatchExact` | primo/schedule.h:88-104 | the entries of a batch are its handles that name a task, in order, unpinned, with consecutive tickets |
| `TaskQueue.Queue.ScheduleNoLock` | primo/schedule.h:145-155 | appends unless the handle is null; reports whether the list was empty before, null handle or not |
| `TaskQueue.Queue.ScheduleBatch` | primo/schedule.h:88-104 | the tasks are appended in order, the source handles are swapped out, one wake-up is asked for exactly when the list was empty and the batch was not |
| `TaskQueue.Queue.Pick` | primo/schedule.cpp:150-175 | removes exactly the first eligible entry, counts the worker active exactly then, and reports the wake-up |
| `SchedulerAccounting.ExactCounters` | primo/schedule.cpp:168-229 | after any run `m_activeThreadCount` is the number of workers between pick and decrement, `m_idleThreadCount` the number inside the idle bracket; neither underflows or exceeds the number of workers; accepted entries are as many as those queued, in hand and disposed of |
| `SchedulerAccounting.TaskConservation` | primo/schedule.cpp:153-215 | after any run every accepted entry is queued, or in the hand of exactly one worker, or was disposed of exactly once; it was dropped un-run only as a fiber seen TERM or EXCEPT |
| `SchedulerAccounting.PickedIsDisposedOf` | primo/schedule.cpp:168-215 | a picked entry stays in its worker's hand until it is disposed of, and a callback is disposed of only by being run |
| `SchedulerAccounting.BoundedWaiting` | primo/schedule.cpp:153-175 | an unpinned callback at index k is picked by one of the next k + 1 successful scans of any workers, whatever is pushed meanwhile |
| `SchedulerAccounting.QueueStep` | primo/schedule.h:145-155 | every step either takes the first eligible entry out of the list or only appends |
| `SchedulerOwnership.MutualExclusion` | primo/schedule.cpp:153-212 | for any number of workers and any disciplined interleaving, no assertion of fiber.cpp has failed, no fiber is in the hands of two workers, and a fiber about to be entered is neither EXEC nor finished |
| `SchedulerOwnership.StepKeeps` | primo/schedule.cpp:147-230 | every step of a disciplined client keeps the ownership invariant |
| `SchedulerOwnership.WorkerLocalsLegal` | primo/schedule.cpp:144-230 | `cb_fiber` is null or INIT at loop head and resettable where it is reset, `idle_fiber` can be entered where it is, and at loop exit both meet the assertions of the destructor (primo/fiber.cpp:87-95) |
| `SchedulerOwnership.SwitchToIsDisciplined` | primo/schedule.cpp:250-259 | scheduling oneself and then yielding to hold is a disciplined run |
| `SchedulerHistory.LifeCycles` | primo/fiber.cpp:87-256 | in every disciplined run the events of each fiber, whichever workers cause them, form a history the assertions admit and that ends in its state; entries and exits alternate |
| `SchedulerDrain.NothingAbandoned` | primo/schedule.cpp:147-248 | when every worker has left `run` and no outside thread scheduled after stop, the list holds no unpinned entry and no fiber is READY or EXEC |
| `SchedulerDrain.EverythingRanOnce` | primo/schedule.cpp:74-231 | each entry ever accepted has then been run exactly once, or is still queued and pinned to a thread |
| `SchedulerDrain.StepDrains` | primo/schedule.cpp:237-248 | while an unpinned entry is queued some worker is going to scan again, although another one may already have seen `stopping()` true |
| `SchedulerWitness.SelfScheduleThenReadyRunsTwice` | primo/schedule.cpp:183-187 | without the discipline: a fiber that schedules itself and yields READY is entered by a second worker before the first has left it |
| `SchedulerStop.StoppingStep` | primo/schedule.cpp:184-187 | once `stopping()` is true, one kind of step alone makes it false: a worker queues a READY fiber again |
| `SchedulerStop.StoppingStableIff` | primo/schedule.cpp:237-241 | in a state of a disciplined closed run in which `stopping()` is true, it stays true in every continuation if and only if no worker is between the decrement and the push of a READY fiber |
| `SchedulerStop.StopCanFinishIff` | primo/schedule.cpp:74-130 | for any number of workers, from a state of a disciplined closed run some continuation lets every worker leave its loop, so that the join returns, if and only if no entry is pinned to a thread that is no worker or to a worker that will not scan again, or every worker has left or seen its idle fiber end |
| `SchedulerStop.StopCanFinish` | primo/schedule.cpp:51-130 | a scheduler that has just been started, with any number of workers, can always be stopped |
| `SchedulerStop.DoomedBlocksStop` | primo/schedule.cpp:125-127 | whatever clients do, such an entry stays queued, and no worker whose idle fiber has not ended ever leaves, so the join waits forever |
| `SchedulerStop.PinnedToNobody` | primo/schedule.h:68-81 | one `schedule` call before stop that names a thread which is no worker makes stop impossible to finish |
| `SchedulerStop.InstabilityCanDoom` | primo/schedule.cpp:184-228 | wherever `stopping()` is true while a READY fiber is in a worker's hand and another worker is about to scan, a continuation pins a task to a worker that will not scan again, after which stop cannot finish although every entry names a worker |
| `SchedulerWitness.StoppingWithReadyFiberInHand` | primo/schedule.cpp:184-187 | such a state is reached: a disciplined closed run after stop in which `stopping()` is true while a worker holds a READY fiber |
| `SchedulerWitness.StopCanBeLost` | primo/schedule.cpp:184-228 | so a started scheduler of two workers can reach a state from which stop cannot finish although every task is pinned to a worker of it |
| `SingleWorker.Worker.Run` | primo/schedule.cpp:136-231 | after stop, with finite tasks none of which is pinned elsewhere, the loop terminates; it is a run of the transition system that ends with the worker gone; the list is empty, the counters are zero, only finished fibers, HOLD fibers, the recyclable callback fiber and fibers never scheduled remain; a fiber left in HOLD has stopped at a `YieldHold` of its code or was parked, not queued and never touched, so that one that was queued and whose code has no `YieldHold` has finished; and every accepted entry was run exactly once or dropped as a finished fiber's |
| `SingleWorker.Worker.Turn` | primo/schedule.cpp:149-229 | one iteration follows the transition system from one scan to the next, or out of the loop, and shrinks remaining work, then list length, then the idle phase |
| `SingleWorker.Worker.Scan` | primo/schedule.cpp:153-175 | with nothing pinned elsewhere and no fiber running the first entry is taken |
| `SingleWorker.Worker.RunFiber` | primo/schedule.cpp:183-191 | the fiber's code runs to its next switch and the fiber is queued again, parked or finished, nothing else changes |
| `SingleWorker.Worker.RunCallback` | primo/schedule.cpp:193-211 | the callback runs on the recycled or a new fiber, which is afterwards made new again or given away |
| `SingleWorker.Worker.Idle` | primo/schedule.cpp:222-228 | one visit to the idle fiber: TERM when the list is empty, HOLD otherwise |
| `SingleWorker.VisitExact` | primo/fiber.cpp:195-256 | one visit executes exactly the operations up to and including the first yield or throw, or all, and keeps exactly the rest; it appends, in order, an entry with the task and thread of each scheduling operation before that point; `YieldReady` leaves READY and one more unpinned entry, `YieldHold` HOLD, the end TERM, a throw EXCEPT (primo/schedule.cpp:183-191) |
| `SingleWorker.VisitNull` | primo/fiber.cpp:224-249 | a visit to a fiber with a null callback ends in EXCEPT and schedules nothing |
| `SingleWorker.CallbackExact` | primo/schedule.cpp:193-211 | the same for a picked callback: its whole program runs on the recycled or a new fiber, which is recyclable after an end or a throw, and otherwise queued again or parked with exactly the rest; no other fiber changes |
| `SingleWorker.VisitedFacts` | primo/schedule.cpp:183-191 | a visit to a fiber changes only that fiber, only appends to the list, and leaves the fiber finished, parked, or READY and queued |
| `LoneWorker.Settles` | primo/schedule.cpp:184-191 | every path from behind `swapIn` to the next scan or to the handling of the callback fiber is a run, with the decrement before the push |
| `LoneWorker.Idles` | primo/schedule.cpp:222-228 | a visit to the idle fiber is a run that leaves the counters as they were |
| `Pattern.PrintOfTokens` | primo/log/Logger.cpp:479-560 | for every pattern without an unclosed brace, joining literals with `%name` or `%name{fmt}` gives the pattern back |
| `Pattern.TokensOfPrint` | primo/log/Logger.cpp:479-560 | every canonical token list, printed, tokenises back to itself without error |
| `Pattern.BracesClosedIffCanonicalText` | primo/log/Logger.cpp:539-560 | a pattern has no unclosed brace exactly when it is the text of a canonical token list, and its tokens are that list |
| `Pattern.LiteralScans` | primo/log/Logger.cpp:483-496 | a literal in front of a text is collected into the pending literal, doubled percent signs included |
| `Pattern.NameCharIff` | primo/log/Logger.cpp:508-509 | the characters that extend a directive's name, by their ASCII codes: the letters and the closing brace |
| `Pattern.UnclosedBrace` | primo/log/Logger.cpp:549-554 | an unclosed brace yields the error text first, drops its percent sign only, and goes on with the literal that was pending |
| `LogFormatters.Scan` | primo/log/Logger.cpp:479-560 | the nested loops compute exactly what the grammar says, terminate, and make at most as many inner iterations as the pattern has characters when every brace is closed, at most the square of that otherwise |
| `LogFormatters.ScanDirective` | primo/log/Logger.cpp:498-537 | the inner loop finds the directive's name, format and end, or that its brace is unclosed |
| `LogFormatters.PatternFromVector` | primo/log/Logger.cpp:479-560 | joining the scanned vector gives the pattern back, up to empty groups |
| `LogFormatters.VectorRoundTrip` | primo/log/Logger.cpp:479-560 | scanning what a canonical vector prints to gives that vector back |
| `LogFormatters.LogFormatter.Init` | primo/log/Logger.cpp:476-604 | one item for each element of the vector, looked up in the table of twelve directives; `bError` exactly when some name is unknown or some brace unclosed |
| `LogFormatters.LogFormatter.Format` | primo/log/Logger.cpp:339-473 | a compiled formatter writes the expansion of its pattern's tokens, each directive standing for the event's field it names, with the default date for an empty group and the error text for an unknown name |
| `LogFormatters.GoodPatternIff` | primo/log/Logger.cpp:549-602 | a formatter is error-free exactly when its pattern is the text of a canonical list of literals and known directives |
| `LogFormatters.DefaultPatternIsGood` | primo/log/Logger.cpp:96 | the pattern every logger starts with is error-free |
| `Flatten.FlatteningExact` | primo/config.cpp:16-35 | the walk lists every chain of map keys exactly once, in pre-order, with its folded name and its node |
| `Flatten.NameIsJoinedKeys` | primo/config.cpp:30 | the name of a chain is its map keys joined by dots, where empty keys at the front, and only those, are left out |
| `Flatten.NameTellsKeys` | primo/config.cpp:30 | where no key is empty or holds a dot, splitting the name at the dots gives the keys back |
| `Flatten.LegalIff` | primo/config.cpp:19 | the legal characters by their ASCII codes: lower-case letters, underscore, dot and digits |
| `Flatten.EmittedOncePerLegalChain` | primo/config.cpp:16-35 | a strictly increasing index map takes the emitted list onto the legal-named positions of the walk: each chain of map keys with a legal folded name is emitted once, in pre-order, with its name and node |
| `Flatten.EmittedIffLegalChain` | primo/config.cpp:19-25 | a (name, node) pair is emitted exactly when it belongs to a chain whose folded name has only legal characters |
| `Flatten.AncestorsLegal` | primo/config.cpp:19-31 | when the name of a chain is legal, so are the names of all its ancestors |
| `Flatten.LegalIsLowerCase` | primo/config.cpp:50 | the later `tolower` is the identity on every emitted key |
| `Flatten.ListAllMember` | primo/config.cpp:16-35 | the recursive procedure appends exactly the members with a legal name, in document order |
| `Config.CfgVar.SetValue` | primo/config.h:368-385 | the value becomes the new one; the listeners hear old and new exactly when they differ |
| `Config.CfgVar.FromString` | primo/config.h:340-355 | a failed conversion changes nothing, a successful one is a `SetValue`, and false is returned either way |
| `Config.CfgVar.AddListener` | primo/config.h:387-394 | the new key is different from every key in use |
| `Config.Registry.LookUp` | primo/config.h:435-469 | an existing variable is returned unchanged, or null when its type is not the one asked for; a new one is made with the default under a legal name only, otherwise an error |
| `Config.Registry.LoadFromYaml` | primo/config.cpp:37-66 | every registered variable ends at the last successfully converted node emitted for its name, else unchanged; its notifications are exactly the changes on the way; no variable is added or removed |
| `Config.AllNodes` | primo/config.cpp:39-40 | the list the load walks: exactly the members with a legal name, in document order |
| `Config.LoadedIsLast` | primo/config.cpp:42-65 | the loaded value is the last of the successful conversions for the name, or the old value when there is none |
| `Config.LoadedIs` | primo/config.cpp:42-65 | the same index by index: the conversion of the last node emitted for the name that converts, or the old value when none does |
| `Config.NotesKeepUp` | primo/config.h:368-385 | after every node the notifications so far are a prefix of all and lead to the value so far: none is missing or late |
| `Config.NotesChain` | primo/config.h:368-385 | the notifications of a load form a chain in which each old value is the previous new one and no step changes nothing |
| `LogDefines.LevelNames` | primo/log/Logger.cpp:12-55 | each level is written as its name in upper case and read in upper or lower case, and everything else is read as UNKNOW |
| `LogDefines.GetIsMember` | primo/log/Logger.cpp:694-707 | reading a member throws on a scalar, and otherwise gives the value of the first entry with that key, if any |
| `LogDefines.AppenderParsed` | primo/log/Logger.cpp:711-749 | exactly when an appender entry is an error, skipped or kept, and with which fields, in terms of its members |
| `LogDefines.AppendersErrIff` | primo/log/Logger.cpp:709-750 | reading the appenders fails exactly when one of them is an error |
| `LogDefines.AppendersKept` | primo/log/Logger.cpp:709-750 | otherwise the entries that are not skipped are kept in order |
| `LogDefines.DefineParsed` | primo/log/Logger.cpp:690-753 | exactly when a document is a definition, and each field read from the member of its name |
| `LogDefines.ItemsErrIff` | primo/config.h:163-173 | reading a set fails exactly when one item is no definition |
| `LogDefines.SetErrIff` | primo/config.h:163-173 | which documents are no set of definitions; any that is read and is no sequence is the empty set |
| `LogDefines.RoundTripIff` | primo/log/Logger.cpp:690-801 | a definition survives print and parse exactly when every appender has no level and is a file appender whose formatter is empty or equal to its file, or a console appender without a file |
| `LogDefines.LoadedIsFixedPoint` | primo/log/Logger.cpp:690-801 | parse, print, parse gives the same definition as parse |
| `LogDefines.FirstInsertWins` | primo/config.h:160-174 | in a loaded set a name belongs to the first item that carries it |
| `LogDefines.LoadedSetIsFixedPoint` | primo/config.h:160-191 | a loaded set survives print and parse, in whatever order it is listed |
| `LogDefines.LoadAppenders` | primo/log/Logger.cpp:709-750 | the loop keeps the parsed entries in order, skips the reported ones, and fails when one of them throws |
| `LogDefines.LoadSet` | primo/config.h:163-173 | the loop inserts item by item, dropping duplicates, and fails when one conversion throws |
| `Reconcile.TableAfterCalls` | primo/log/Logger.cpp:808-898 | after any sequence of `SetValue` calls each logger named in the last value has exactly its declared level and, one for one and in order, its declared appenders: type, level, file, a formatter of its own exactly when the text is not empty and compiles, otherwise the logger's; its own formatter is the last acceptable one given to it; a logger named only before has level 0 and no appenders, and one never named is as it was |
| `Reconcile.ReconcilingIsRebuilding` | primo/log/Logger.cpp:812-896 | incremental updates over a whole history leave the table that rebuilding from the history gives |
| `Reconcile.ChainIsHistory` | primo/config.h:378-384 | in a chain of notifications each one comes with the value that is current at that moment |
| `Reconcile.LoadedLogsReconcile` | primo/log/Logger.cpp:804-898 | whatever documents are loaded and whatever the YAML loader makes of a scalar's text (primo/config.cpp:54-57), the table agrees with the loaded value: named, dropped and untouched loggers |
| `Reconcile.LogsRejectedIff` | primo/config.h:340-355 | a document leaves the variable alone exactly when a scalar's text is no YAML, or it is a map with members or lists an item that is no definition |
| `Reconcile.LoadedIsUsable` | primo/log/Logger.cpp:718-748 | a loaded set has only file and console appenders |
| `Reconcile.FormattersStaySound` | primo/log/Logger.cpp:840-881 | in listener-driven runs every formatter is error-free and each appender without one of its own shares its logger's |
| `Reconcile.InitialTableSound` | primo/log/Logger.h:315-320 | the same holds of the initial manager |
| `Reconcile.AppendersAsDeclared` | primo/log/Logger.cpp:845-882 | the built appenders field by field against the declared ones |
| `Reconcile.PassesIff` | primo/log/Logger.h:66-74 | an event passes a threshold exactly when its level is the same or a later one in the order UNKNOW, DEBUG, INFO, WARN, ERROR, FATAL |
| `Reconcile.DeliveryExact` | primo/log/Logger.cpp:177-195 | an event reaches an appender exactly when it passes the logger, root if it stands in, and the appender; each list occurrence once, in order |
| `Reconcile.RemovedDeliversAsRoot` | primo/log/Logger.cpp:885-895 | a removed logger other than root delivers exactly where root would |
| `LoggerTable.Logger.AddAppender` | primo/log/Logger.cpp:100-108 | the appender is appended, borrowing the logger's formatter when it has none |
| `LoggerTable.Logger.SetFormatterPtr` | primo/log/Logger.cpp:124-138 | the logger's formatter is replaced, and that of exactly the appenders without one of their own; nothing else about an appender changes |
| `LoggerTable.Logger.SetFormatter` | primo/log/Logger.cpp:140-150 | a text that does not compile changes nothing |
| `LoggerTable.Logger.Configure` | primo/log/Logger.cpp:837-882 | the logger is left in the state the definition declares, appenders in order |
| `LoggerTable.Logger.Log` | primo/log/Logger.cpp:177-195 | the recursion ends and hands the event to the appenders in order, or to root when there are none |
| `LoggerTable.LoggerMgr.constructor` | primo/log/Logger.h:315-320 | only the root logger, writing to the console |
| `LoggerTable.LoggerMgr.GetLogger` | primo/log/Logger.cpp:616-629 | the existing logger, or a fresh one that delegates to root; the rest of the table is untouched |
| `LoggerTable.LoggerMgr.LogTo` | primo/log/Logger.cpp:177-195 | through the manager an event goes where the routing specification says |
| `LoggerTable.LoggerMgr.OnLogsChanged` | primo/log/Logger.cpp:812-896 | in whatever order the two sets are walked, the table is the reconciled one |
| `LoggerTable.SetLogs` | primo/config.h:368-385 | while the listener is registered a call that changes the value reconciles the table before the value is written; any other call leaves the table alone |
| `LoggerTable.SetLogsInTurn` | primo/log/Logger.cpp:804-898 | with the listener registered any sequence of calls leaves the manager with the replayed history of the values that changed something |

## Left out

- The `use_caller` root fiber, the hooks and `SchedulerSwitcher`: `SwapIn` always saves into the thread's home fiber, so that path has no scheduling context of its own.
- Contexts, stacks, threads and locks: a context switch is a control step, a critical section one atomic step. `start`, thread creation and `join` are outside; runs begin with every worker at the head of its loop.
- Overrides of the virtual `idle`, `stopping` and `tickle`: the ones of `Scheduler` are modelled, and `idle` does not throw.
- User code that calls `Reset`, `SwapIn` or `Call` on fibers itself, `Fiber::Call`, `Back` and `CallerMainFunc`, and the fiber counters.
- Reference counts: the destructor's assertions are stated for the two fibers local to `run`, as if they were destroyed when it returns.
- `Scheduler::stop` is the raising of its two flags; a restart after `stop` is not modelled.
- The batch form of `schedule` is not one step of the transition system: there it is a series of pushes.
- Concurrent `SetValue` calls, `GetListener`, listeners that throw, and the illegal name given to `LookUp` at primo/fiber.cpp:26.
- Fibers a thread makes for itself: the home fiber (EXEC, in no worker's hand) is not a fiber of the transition system, so that `schedule(Fiber::GetThis())` called outside any fiber, whose entry every scan would skip for ever, cannot be stated.
- Reconcile.FormattersStaySound: states sharing as equality of patterns and not as identity of the formatter object, because a formatter never changes after it is compiled.
- YAML text: emitting and loading a tree is taken to be the identity, loading a scalar's text is a parameter, a map given for `appenders` counts as no entries, and the order of a `std::set` is arbitrary.
- Appenders are values in their logger's list: sharing one object between loggers, `DelAppender` and `ReOpen` are not modelled.
- `strftime`, decimal numbers and `vasprintf` are taken from the C++ library (the first two as parameters of the formatter); console and file output, `ToYamlString` of loggers and appenders.
- `isalpha` and `tolower` are those of ASCII.
- The other `LexicalCast` specialisations, `Singleton`, macros, utilities and thread wrappers: they would only add easy members.
