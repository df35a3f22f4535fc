# Verification of the worker

This project models the parts of the worker whose correctness is not visible from reading one function, and
proves what their documentation promises: the process manager's protocol between readers, waiters, tails and
stops (`worker/process.go`), the bash streaming protocol and its client (`worker/bash.go`,
`mcptools/direct_ops.go`), the browser manager's state and the accessibility tree (`worker/browser.go`), path
validation (`worker/path.go`), the chunks of a git diff (`worker/git_diff.go`) and the windows of grep
(`worker/grep.go`). `dafny verify dfyconfig.toml` checks everything.

## How it is organised

The process manager comes in three layers.

- `ProcessStore` holds the memory guarded by `pm.mu` as a value, with one function per critical section, loops
  included. A send on a closed channel and a second close set `panicked`.
- `ProcessProtocol` is the state machine: any number of processes, each with two readers and a waiter, and any
  number of Start, Tail, Stop and StopAll calls. One step is one critical section, one log write, one channel
  operation, one signal or one call to the client. A pid is free again as soon as `cmd.Wait` has returned, so a
  later Start may replace a registry entry and truncate log files while the older process is still being closed.
  `ProcessInvariant` has the inductive invariant, `ProcessFrame` what a step leaves alone, and `ProcessTheorems`,
  `ProcessHistory`, `ProcessLogs`, `ProcessStopAll` and `ProcessReuse` the theorems over whole runs.
- `ProcessManager` has the objects, with fields that the methods update and channels that they fill and close.
  Each method is the body of one critical section and is proved equal to the function of `ProcessStore`.

A critical section is one step of the protocol. In the program the fan-out and the close of the channels are loops, and
between two turns all goroutines that need no lock go on. `ProcessReduction` takes the loops apart and shows that such
steps commute with the turns; `ProcessInterleaving.PartsAreAtomic` concludes that every run of the parts ends in the
state of a run of the protocol that takes the same steps. What holds in every state of every run therefore holds
whenever no section is open, and `ProcessInterleaving.LoopsNeverPanic` covers the states inside the loops.

`BashProtocol` is a state machine of the same kind for one `runBash` call. `BrowserDocuments` runs the browser manager
beside a Chromium that loads and closes pages, and `GrepAgreement` compares the two searches. The other modules are
methods proved against specification functions, and lemmas about these functions. What Chromium, the file system, the
object store, the line differ, the regular expression and the JSON decoder answer is a parameter. Go strings are
sequences of `char`, one per byte.

## What the proofs brought out

- StopAll can return, with no signal failed, while a process that it saw running is not marked exited: if that
  process has been reaped and its pid reused, the Stop call for the pid finds and waits for the younger process
  (`ProcessReuse.StopAllCanMissTheExit` is such a run). `ProcessStopAll.StopAllMissesIff` has the exact condition, at
  the moment of the lookup: the exit can be missed if and only if the process has been replaced in the registry and is
  not marked exited yet. Even then it has at least been reaped (`ProcessTheorems.StopAllMeansStopped`).
- removeSubscriber can leave the channel of a returned Tail in the list of its process
  (`ProcessReuse.ReturnedTailCanStayListed` is such a run). It does so if and only if a younger process is registered
  under the pid (`ProcessTheorems.UnsubscribeRemovesIff`); the older one is reaped then, and the channel is never
  written again (`ProcessTheorems.LeftTailGetsNothing`).
- A command that ends by itself is reported with 137 if the context ends between its exit and the read of
  `timedOut` (`BashProtocol.LateTimeoutMasksExit`). The code sent is the command's own if and only if the flag was not
  set before it was read, or the command's own code is 137 (`BashProtocol.CodeIsOwnIff`). A command killed by the
  watcher is always reported with 137.
- The client of `runBash` shows the text of a stream unchanged if and only if the text has no newline and does not end
  in a carriage return: the scanner strips line ends and the client puts none back (`BashClient.ConcatKeepsTextIff`).
- A log read with a limit ignores trailing blank lines. A head or tail limit returns the log unchanged if and only if it
  covers the log, and the log does not end in a blank line or is that blank line alone (`LogFile.LimitIsWholeIff`).
- On ordered ripgrep streams `parseRipgrepJSON` never fills `ContextBefore`. A context line is recorded, in one place,
  if and only if a match precedes it in its file (`Grep.RecordedIff`); context ahead of the first match is lost
  (`Grep.ContextBeforeIsLost`). The branch for "before" context is not reached on these streams.
- For the same reason a line that precedes a later match is filed behind the earlier one, however far away
  (`GrepAgreement.ContextIsMisfiled`). A result has the `ContextAfter` of `searchFile` if and only if it is the last of
  its file, or no context is wanted, or the next match is the first line past its window
  (`GrepAgreement.RipgrepAgreesIff`).
- A ref can resolve on a page that does not show the document it was taken from. The refs are kept in one map for all
  pages, and a navigation that fails in WaitLoad, a closed page and a load that the page begins itself leave that map
  alone. The ref is of the document shown if and only if the page is that of the latest snapshot, is still open, and has
  had nothing loaded into it since (`BrowserDocuments.RefIsCurrentIff`, with a run for each way to fail).
- ValidatePath accepts the path of a dangling link whose directory is in the home, also if the link leads out of it, and
  a file written there is made at the end of the link (`Paths.DanglingLinkIsAccepted`). An accepted new path comes to
  lie under the real home if and only if no link is at the path, or what the link leads to is in an existing directory
  and would be accepted as well (`Paths.NewPathLandsUnderHomeIff`).
- The object returned by `buildAccessibilityTree` is a tree even if the node list repeats ids or has cycles: of two
  nodes with one id the later counts, and a cycle is not reachable from a root.

## Model

| member | source | states |
|---|---|---|
| `ProcessStore.SendAllPointwise` | worker/process.go:221-229 | The send loop offers the event once to each subscriber, touches no other channel, and panics exactly if some subscriber is closed |
| `ProcessStore.CloseAllPointwise` | worker/process.go:264-268 | The close loop closes exactly the subscribers, and panics exactly if one of them is already closed |
| `ProcessReduction.TailOnlyIsTouch` | worker/process.go:463-498 | The steps of a Tail that need no lock read and change its own channel and variables only |
| `ProcessReduction.ServeCommutes` | worker/process.go:219-268 | A turn of either loop commutes with every step that needs no lock and is not of the Tail served: one is possible exactly if it is without the other, and both orders lead to the same state |
| `ProcessReduction.StepsCommute` | worker/process.go:463-498 | A step of a Tail commutes with any such step of another goroutine |
| `ProcessReduction.LockFreeEnds` | worker/process.go:219-269 | What precedes and follows the loops commutes with every step that needs no lock |
| `ProcessInterleaving.TurnsMoveTogether` | worker/process.go:219-268 | At every point of either loop the turns so far can be taken together, after steps of Tails not served yet and before all other steps that came between |
| `ProcessInterleaving.SectionIsLoop` | worker/process.go:219-269 | The loop without a break, between what precedes and follows it, is the step of the protocol |
| `ProcessInterleaving.SectionIsOneStep` | worker/process.go:219-269 | A fan-out, or the end of a process, with any steps between the turns of its loop ends as some of these steps, the section in one step, and the others, each step once |
| `ProcessInterleaving.PartsAreAtomic` | worker/process.go:183-517 | Every run in which the loops are taken apart ends in the state of a run of the protocol that takes the same steps |
| `ProcessInterleaving.LoopsNeverPanic` | worker/process.go:219-268 | In these runs the invariant holds whenever no section is open, and at no point of a loop has there been a send on a closed channel or a second close |
| `ProcessStore.MarkExitedPointwise` | worker/process.go:259-269 | The waiter's critical section records status and code, empties the list, closes exactly its channels and leaves all else |
| `ProcessStore.WithoutFacts` | worker/process.go:511-516 | Removing a channel keeps the list duplicate-free and removes exactly that channel |
| `ProcessStore.FindIs` | worker/process.go:278-287 | The lookup tells an unknown pid, an exited process and a running one apart |
| `ProcessInvariant.StepKeepsInv` | worker/process.go:183-273 | The invariant on processes, channels, tails, pids, log files and stops is kept by every step of every goroutine |
| `ProcessInvariant.FanOutKeeps` | worker/process.go:219-229 | A fan-out keeps the invariant: delivery accounts balance, logs and fan-out history stay in step, nothing panics |
| `ProcessInvariant.MarkExitedKeeps` | worker/process.go:259-269 | Marking a process exited keeps the invariant: no channel is closed twice and every waiting Tail will see the code |
| `ProcessInvariant.UnsubscribeKeeps` | worker/process.go:502-517 | Removing a subscriber keeps the invariant, even if the pid now names a younger process |
| `ProcessInvariant.RegisterKeeps` | worker/process.go:183-185 | Registering a process keeps the invariant, even if it replaces the entry of an older process |
| `ProcessInvariant.WriteLogKeeps` | worker/process.go:216-217 | A log write keeps the invariant: no two readers ever share a log file |
| `ProcessFrame.StepFrames` | worker/process.go:183-517 | What one step of any goroutine leaves alone: pids, exits, Tails of exited processes, Tails that have left, registered pids, returned Stops; a new Tail belongs to a running process |
| `ProcessTheorems.BehaviourInv` | worker/process.go:183-517 | The invariant holds in every state of every run |
| `ProcessTheorems.NeverPanics` | worker/process.go:183-273 | In every run no event is sent on a closed channel and nothing is closed twice; subscribers are open, distinct and their process's own; an exited process has none and has a code |
| `ProcessTheorems.DeliveryAccounting` | worker/process.go:454-497 | For every Tail, received plus buffered is a subsequence of what was fanned out since it registered; while subscribed or closed, received + buffered + dropped is its length, and with no drop they are equal |
| `ProcessTheorems.DropOnlyWhenFull` | worker/process.go:222-228 | An event is dropped only by a fan-out that finds all 256 slots of that channel full, one at a time |
| `ProcessTheorems.FanOutDelivers` | worker/process.go:219-229 | A fan-out appends the line, marked with its stream, to each subscriber with fewer than 256 events; one with 256 loses it and keeps its buffer; nothing else changes |
| `ProcessTheorems.LogMatchesLive` | worker/process.go:212-230 | The log of a stream is its part of the fan-out history plus at most one line, and equal to it once the process is exited |
| `ProcessTheorems.LogFileIsTheLog` | worker/process.go:155-170 | The log file of a pid holds what the readers of its registered process wrote, or nothing once a later Start reuses the pid |
| `ProcessTheorems.TailedLinesAreLogged` | worker/process.go:212-230 | Every line a Tail ever sent occurs in the log of its stream, in the same order |
| `ProcessTheorems.TailEndsWithExitCode` | worker/process.go:467-481 | A Tail ended by the close has sent all it received and then, unless that send failed, one exit event, last, with the recorded code; the fallback 0 is never used; without drops it has sent the whole stream since registration |
| `ProcessTheorems.ExitedTailProgress` | worker/process.go:463-498 | Once its process is exited a Tail is never stuck, each of its steps reduces its remaining work, and no other goroutine touches it |
| `ProcessTheorems.TailFinishes` | worker/process.go:454-497 | After the waiter's critical section a Tail needs at most buffer + 1 receives, hence at most 257, whatever else runs |
| `ProcessTheorems.NoLateTail` | worker/process.go:443-458 | An exited process stays exited with the same code and no Tail registers on it any more |
| `ProcessTheorems.LeftTailGetsNothing` | worker/process.go:460-517 | The channel of a Tail that has returned is never filled again, also if removeSubscriber missed it |
| `ProcessTheorems.UnsubscribeRemovesIff` | worker/process.go:502-517 | After removeSubscriber the channel is still listed if and only if it was and a younger process is registered under the pid |
| `ProcessTheorems.BehaviourLeft` | worker/process.go:460-517 | In every run a returned Tail is no longer listed, or its process has been reaped and replaced |
| `ProcessReuse.ReturnedTailCanStayListed` | worker/process.go:502-517 | A run with a reused pid in which the older process keeps the channel of a returned Tail |
| `ProcessTheorems.StopMeansExited` | worker/process.go:277-316 | When a Stop has returned success (or "already exited") the process it looked up is exited with a code, for any number of concurrent Stops |
| `ProcessTheorems.StopReturnsAsSeen` | worker/process.go:277-316 | In every run a Stop has returned a signal error if and only if one of its signals failed, and success if and only if it has seen the done channel closed |
| `ProcessTheorems.StopAllMeansStopped` | worker/process.go:347-368 | When StopAll has returned, each of its Stop calls has; if its signals succeeded the process it found is exited and the process StopAll saw running is at least reaped |
| `ProcessStopAll.StopAllMissesIff` | worker/process.go:347-368 | At the lookup of one of StopAll's goroutines, the run has a continuation in which its Stop call finds its process stopped and the process StopAll saw is not marked exited, if and only if that one has been replaced under the pid and is not marked exited at the lookup |
| `ProcessStopAll.EndProcess` | worker/process.go:202-273 | From any state a process can be run to the close of done without another goroutine's step |
| `ProcessReuse.StopAllCanMissTheExit` | worker/process.go:347-368 | A run with a reused pid in which StopAll returns and a process that it saw running is not marked exited |
| `ProcessHistory.HistoryIsKept` | worker/process.go:212-257 | At every moment the lines yielded by a scanner are the logged ones plus at most the one in hand; the waiter carries a code exactly if cmd.Wait has returned, and the code reports its result: 0 for success, the code of an exit error, 1 for any other error |
| `ProcessHistory.ExitedMeansComplete` | worker/process.go:240-269 | Once a process is exited, logs and fan-out history hold exactly the lines its pipes yielded, and the recorded code reports the result of cmd.Wait |
| `ProcessHistory.TailFromTheStartGetsEverything` | worker/process.go:438-499 | A client that tailed from the start and lost nothing has been sent everything the process wrote, per stream and in order, and then, unless that send failed, the code that reports the result of cmd.Wait |
| `ProcessHistory.WaitedOnce` | worker/process.go:240-244 | A process is waited for once in every run |
| `ProcessHistory.RecordedCodeIsWaits` | worker/process.go:246-262 | In every run the exit code recorded for a process is 0 if its cmd.Wait succeeded, the code of its exit error, or 1 for another error |
| `ProcessHistory.SentCodeIsWaits` | worker/process.go:470-481 | And so is the code in the last message of every Tail that ended with an exit event |
| `ProcessLogs.LogsReturnTheStream` | worker/process.go:372-396 | Logs refuses unknown pids and two limits and fails at the first file that cannot be read; otherwise each text shows the lines logged when its file was read, all or the first or last n countable ones, or nothing if a later Start is reusing the pid; those lines are the live stream up to one line in flight, exactly once exited |
| `ProcessManager.Channel.TrySend` | worker/process.go:223-227 | The non-blocking send appends exactly if fewer than 256 events are buffered, on a channel that is open |
| `ProcessManager.Channel.Receive` | worker/process.go:467-469 | A receive takes the oldest event, or reports the close when the buffer is empty |
| `ProcessManager.Manager.Register` | worker/process.go:172-185 | The new process, with its start time, is the one registered under its pid; the store is changed exactly as the protocol says |
| `ProcessManager.Manager.FanOut` | worker/process.go:221-229 | The loop over the subscriber objects has exactly the effect of the protocol's fan-out step |
| `ProcessManager.Manager.MarkExited` | worker/process.go:257-269 | The waiter's critical section on the objects has exactly the effect of the protocol's step and records the time |
| `ProcessManager.Manager.CloseDone` | worker/process.go:271-271 | Closing `done` has exactly the effect of the protocol's step |
| `ProcessManager.Manager.Find` | worker/process.go:278-287 | The lookup of Stop and Tail answers unknown, already exited or live as the store says |
| `ProcessManager.Manager.Subscribe` | worker/process.go:443-458 | A live process gets a fresh channel at the end of its list; otherwise nothing changes |
| `ProcessManager.Manager.RemoveSubscriber` | worker/process.go:502-517 | The in-place removal has exactly the effect of the protocol's step on the process now registered |
| `ProcessManager.Manager.ExitCode` | worker/process.go:470-475 | The code read by a Tail is the recorded one, and 0 only if none is recorded |
| `ProcessManager.Manager.RunningPids` | worker/process.go:348-355 | StopAll's list holds each pid whose registered process is running, once, and no other |
| `ProcessManager.Manager.List` | worker/process.go:320-344 | One entry, with all fields, for each registered process that is not the server and is running or asked for, and no other |
| `ProcessManager.Manager.ListedIsStored` | worker/process.go:320-344 | List has exactly one entry for each registered process that is not the server and is running or asked for; an entry shows the stored status and code, and the name, command, directory and times of its process |
| `LogFile.ReadLogFile` | worker/process.go:399-433 | A missing file reads as empty, an unreadable one is an error, and any other gives the limited text |
| `LogFile.FirstAndLast` | worker/process.go:422-432 | Head and tail keep min(n, lines) lines, a prefix and a suffix |
| `LogFile.TrimNewlinesTrims` | worker/process.go:420-420 | Trimming removes the newlines at the end and nothing else |
| `LogFile.LimitedIsFirstOrLast` | worker/process.go:413-432 | On a file of lines, head n gives the first and tail n the last min(n, m) of its m countable lines, each terminated; no limit gives the file; head wins |
| `LogFile.HeadAndTailRebuild` | worker/process.go:420-432 | Head n followed by tail m - n rebuilds the m countable lines |
| `LogFile.LimitIsWholeIff` | worker/process.go:413-432 | A positive head or tail limit returns the log unchanged if and only if it covers the log, and the log does not end in a blank line or is that line alone |
| `LogFile.LinesSeen` | worker/process.go:417-420 | Trimming and splitting a written file yields its lines without the trailing blank ones |
| `Strings.SplitJoin` | worker/process.go:420-432 | Splitting undoes joining for lines without newlines |
| `Strings.JoinSplit` | worker/grep.go:290-290 | Joining undoes splitting |
| `BashProtocol.MergeIffProjections` | worker/bash.go:124-169 | A sequence of line events is an interleaving of two line sequences if and only if they are its projections |
| `BashProtocol.StepKeepsInv` | worker/bash.go:101-201 | The invariant of a runBash call is kept by every step of every goroutine |
| `BashProtocol.PostingNeverBlocks` | worker/bash.go:122-169 | No schedule blocks or panics on errCh: two slots suffice and the channel is closed after both posters |
| `BashProtocol.OnlyTheCommandBlocks` | worker/bash.go:101-201 | Until the call returns one of its goroutines can move, or it waits for output, for a pipe to end or for the exit |
| `BashProtocol.RunIsBounded` | worker/bash.go:101-201 | A call that scans n lines has at most 16 + 2n steps in any schedule, counted from any state on |
| `BashProtocol.FinishedEmitsMergeThenExit` | worker/bash.go:124-201 | If no send failed, a finished call has emitted a merge of both line sequences followed by exactly one exit event |
| `BashProtocol.TimeoutIsReported` | worker/bash.go:101-192 | A command killed by the watcher is reported with 137; 137 means that the context had ended or the command exited with 137; without a timeout the code reports the result of the wait: 0, the code of the exit error, or 1 |
| `BashProtocol.CodeIsOwnIff` | worker/bash.go:174-199 | A finished call has sent 137 if the watcher had set the flag before it was read, and otherwise the code that reports the result of a command that died by itself; so it reports that result if and only if the flag was not set before it was read or the own code is 137 |
| `BashProtocol.FlagWasRead` | worker/bash.go:174-178 | Every finished call has read the flag |
| `BashProtocol.LateTimeoutMasksExit` | worker/bash.go:174-192 | A run in which a command that succeeded by itself is reported with 137 |
| `BashClient.RunBash` | mcptools/direct_ops.go:36-57 | The fold over the stream returns both concatenations and the last exit code, or the stream's error |
| `BashClient.MergesLookAlike` | mcptools/direct_ops.go:39-49 | Any two merges of the same line sequences give the client the same result |
| `BashClient.ClientSeesBothStreams` | mcptools/direct_ops.go:36-57 | In every schedule without a failed send the client gets the concatenation of each stream and the code of the exit event |
| `BashClient.ClientSeesExitCode` | mcptools/direct_ops.go:46-57 | The code that the client gets from a finished call: 137 if the flag was set before it was read, otherwise 0, the code of the exit error, or 1 |
| `BashClient.LastExitCounts` | mcptools/direct_ops.go:36-57 | The last exit event counts, and without any the code is 0 |
| `BashClient.ConcatKeepsTextIff` | mcptools/direct_ops.go:42-45 | What the client shows for the scanned lines of a text is the text if and only if it has no newline and no carriage return at its end |
| `BashClient.ClientKeepsTextIff` | mcptools/direct_ops.go:36-57 | The same for the result of every finished call without a failed send |
| `AccessibilityTree.RefInjective` | worker/browser.go:610-615 | Two backend ids never share a ref |
| `AccessibilityTree.DecimalReads` | worker/browser.go:612-612 | The decimal text of an id is digits that read back as the id, without a leading zero, after a sign if it is negative |
| `AccessibilityTree.RefsExactly` | worker/browser.go:610-615 | The ref map holds exactly the refs of the non-ignored nodes with a backend id, each with its id |
| `AccessibilityTree.ByIdExactly` | worker/browser.go:581-621 | The lookup table holds, for every id of a non-ignored node, the last such node, and nothing else |
| `AccessibilityTree.FirstPass` | worker/browser.go:584-621 | One object per id, without children, and the ref map; an object shows "e" and the id of its backend node if it has one, role and name as they are, and description and value unless they are empty |
| `AccessibilityTree.SecondPass` | worker/browser.go:623-634 | In whatever order the map is visited, each object gets as children exactly the objects of the nodes naming it, and the root is the last visited root |
| `AccessibilityTree.BuildAccessibilityTree` | worker/browser.go:571-666 | The result is the object of the last visited root of the linked forest, or the single "none" node if there is no root; the objects have the boxes that were asked for |
| `AccessibilityTree.ThirdPass` | worker/browser.go:636-658 | Each object with a backend id gets the box that Chromium gives for it, and nothing else changes |
| `AccessibilityTree.KidsAre` | worker/browser.go:625-634 | The children of a node are the nodes that name it as their parent, each once |
| `AccessibilityTree.LastRootIsRoot` | worker/browser.go:624-629 | The chosen root has an empty parent, and none is chosen only if no node has one |
| `AccessibilityTree.LinkedFits` | worker/browser.go:630-633 | An object is a child of exactly the object that its node names, and every child is the object of a node |
| `AccessibilityTree.ChainsAreUnique` | worker/browser.go:623-634 | A node is reached from a root along one path only |
| `AccessibilityTree.ReachedHaveChains` | worker/browser.go:623-634 | Whatever is reached through the children from the root has an unbroken chain of non-ignored parents up to it |
| `AccessibilityTree.ChainsAreReached` | worker/browser.go:623-634 | Every node with such a chain is reached |
| `AccessibilityTree.ReturnedObjectIsATree` | worker/browser.go:623-665 | No object is reached from the returned one along two different paths, and none of those reached holds a child twice |
| `AccessibilityTree.RefsResolve` | worker/browser.go:610-615 | A node with a backend id shows "e" and that id, and the ref map resolves it to the id; a node without one shows no ref |
| `AccessibilityTree.TreeShows` | worker/browser.go:584-658 | In the returned tree the object of the last non-ignored node of an id shows its ref, role, name, description, value and box |
| `BrowserManager.EveryOpKeepsInv` | worker/browser.go:44-259 | Every operation, failing ones included, keeps pages, last page and ref map in agreement |
| `BrowserManager.RunKeepsInv` | worker/browser.go:44-259 | They agree after every run of operations |
| `BrowserManager.DefaultPageIff` | worker/browser.go:244-259 | getPage without an id gives the last page used, and fails if and only if no page is open; with an id it gives that page if it is open, and fails otherwise |
| `BrowserManager.StartLaw` | worker/browser.go:44-76 | After a start the browser runs if and only if it did before or both launch and connection succeed; nothing else changes |
| `BrowserManager.NavigateLaw` | worker/browser.go:132-183 | A navigation past WaitLoad makes the page asked for, or the one created, the default page and drops the refs; other pages stay; any other navigation changes nothing |
| `BrowserManager.ClosePageLaw` | worker/browser.go:212-239 | Closing a page removes it alone; the last page stays unless it is the one closed, and then is an open page or none; refs stay; a failed close changes nothing |
| `BrowserManager.SnapshotLaw` | worker/browser.go:499-557 | Exactly the snapshots that read the nodes of an open page, after its HTML if that is wanted, change anything: the refs, and the id by one modulo 2^64; with no type asked for both are wanted |
| `BrowserManager.RefsAreOfLatestSnapshot` | worker/browser.go:571-621 | In every run the ref map is empty or exactly the refs of the latest accessibility snapshot |
| `BrowserManager.ResolvedRefsAreCurrent` | worker/browser.go:338-342 | A ref that resolves belongs to a node of the latest snapshot and gives its backend id |
| `BrowserManager.RefMapIs` | worker/browser.go:80-183 | After every run the ref map is the refs of the latest snapshot, until a stop or a navigation that got past WaitLoad drops them |
| `BrowserManager.RefSurvivesNavigationIff` | worker/browser.go:150-171 | Once Chromium has navigated, a ref still resolves if and only if it did before and WaitLoad failed |
| `BrowserDocuments.DocumentsDiffer` | worker/browser.go:132-239 | No two pages ever show the same document |
| `BrowserDocuments.ShowsSnappedIff` | worker/browser.go:132-239 | A page shows the document of the latest snapshot if and only if it is the page of that snapshot, has not ended since, and nothing has been loaded into it since |
| `BrowserDocuments.RefIsCurrentIff` | worker/browser.go:338-342 | A ref that resolves on a page is one of the latest snapshot, and it is of the document that the page shows if and only if the page is that of the snapshot, is still open, and has had nothing loaded into it since |
| `BrowserDocuments.RefOnAnotherPage` | worker/browser.go:338-342 | A run in which a ref resolves on a page that the snapshot did not show |
| `BrowserDocuments.RefAfterFailedLoad` | worker/browser.go:150-163 | A run in which a ref resolves on its page after a navigation that failed in WaitLoad |
| `BrowserDocuments.RefAfterClose` | worker/browser.go:228-236 | A run in which a ref of a closed page resolves on another page |
| `BrowserDocuments.RefAfterOwnLoad` | worker/browser.go:338-342 | A run in which a ref resolves on its page after the page has loaded another document by itself |
| `BrowserManager.SnapshotRefsResolve` | worker/browser.go:544-553 | Straight after a snapshot every node of the tree with a backend id shows its ref, and the ref resolves to the id |
| `BrowserManager.SnapshotIdCounts` | worker/browser.go:551-552 | The snapshot id counts the trees built, modulo 2^64, across stops |
| `BrowserManager.Manager.StartBrowser` | worker/browser.go:44-76 | Start is idempotent and succeeds if and only if the browser then runs |
| `BrowserManager.Manager.StopBrowser` | worker/browser.go:80-112 | Stop leaves the stopped state, snapshot counter apart, even if closing fails |
| `BrowserManager.Manager.NavigatePage` | worker/browser.go:132-183 | The new state on every path; success returns the page asked for, or the one created, with its URL and title, and that page is then the default page; which error comes when |
| `BrowserManager.Manager.CloseTrackedPage` | worker/browser.go:212-239 | The new state on every path, with an arbitrary open page or none as last page; which error comes when |
| `BrowserManager.Manager.TakeSnapshot` | worker/browser.go:499-557 | The new state on every path; exactly when it succeeds; the HTML if wanted, the new snapshot id and the tree exactly if one was built; which error comes when |
| `Paths.IsUnderDirIsPrefix` | worker/path.go:126-136 | On cleaned absolute paths the string test holds if and only if the parent's components are a prefix of the child's, root included |
| `Paths.DirOfRender` | worker/path.go:88-88 | The parent of a clean path has the components but the last; the root is its own parent |
| `Paths.CleanIsClean` | worker/path.go:42-50 | Cleaning is idempotent and yields an absolute path |
| `Paths.DotsInside` | worker/path.go:42-50 | Anywhere in a path, ".." drops the component before it, and "." and a second slash change nothing |
| `Paths.ComponentsSnoc` | worker/path.go:42-50 | An element at the end of a path is added to its components, drops the last, or changes nothing |
| `Paths.TargetDenotes` | worker/path.go:41-50 | An absolute request denotes its own clean path, whatever the home, and a relative one the clean path of home, slash and request |
| `Paths.AbsHomeDenotes` | worker/path.go:24-28 | The same for the home directory and the working directory |
| `Paths.TargetOfComponents` | worker/path.go:46-50 | Plain components with slashes between them denote the home followed by these components |
| `Paths.TargetOfSibling` | worker/path.go:46-50 | "../name" denotes the name beside the home |
| `Paths.ValidateNonExistentPath` | worker/path.go:84-122 | The loop ends and returns what the walk over the components says |
| `Paths.WalkStopsAtNearest` | worker/path.go:87-113 | The walk is decided by the nearest existing strict ancestor alone |
| `Paths.NonExistentAcceptedIff` | worker/path.go:84-122 | A path that does not exist is accepted, unchanged, if and only if its nearest existing strict ancestor resolves under the real home |
| `Paths.ExistingAcceptedIff` | worker/path.go:52-78 | A path that exists is accepted if and only if it is lexically under the home or real home and resolves under the real home; the answer is the resolved path |
| `Paths.NewPathAcceptedIff` | worker/path.go:52-72 | A path that does not exist is accepted, unchanged, if and only if it is lexically under the home or real home and its nearest existing strict ancestor resolves under the real home; it is an error if and only if that ancestor cannot be resolved |
| `Paths.OtherVerdicts` | worker/path.go:30-70 | Without a home that resolves the call fails; the empty request is the real home; a path that is not lexically under the home or real home is a traversal; one that cannot be resolved fails |
| `Paths.VerdictOnName` | worker/path.go:22-79 | A plain name in the home is accepted if nothing is there, and otherwise if and only if it resolves under the real home; the answer is the resolved path |
| `Paths.VerdictOnSibling` | worker/path.go:22-79 | "../name" is a traversal unless it is the home itself or lexically under the real home, and must then resolve there |
| `Paths.NewPathLandsUnderHomeIff` | worker/path.go:84-122 | What is written to an accepted new path comes to lie under the real home if and only if no link is at the path, or the end of the link is in an existing directory and would be accepted itself |
| `Paths.DanglingLinkIsAccepted` | worker/path.go:64-72 | For any link in the home whose end is missing and outside: its path is accepted, and what is written there comes to lie at its end, outside |
| `Paths.ValidatePathIdempotent` | worker/path.go:22-79 | An accepted path is clean, lexically under the home or real home, and validates to itself |
| `GitDiff.BuildChunks` | worker/git_diff.go:299-312 | The chunks are the nonempty diffs in order, with their kinds |
| `GitDiff.ChunksRebuild` | worker/git_diff.go:299-324 | Equal and Delete chunks rebuild the old text, Equal and Add chunks the new one, and no chunk is empty |
| `GitDiff.LoadFromIndex` | worker/git_diff.go:107-131 | The loop loads the first index entry of the name, with its hash even if the object cannot be read |
| `GitDiff.IndexEntryIsFirst` | worker/git_diff.go:107-131 | The entry found is the first with the name asked for, and none is found if and only if no entry has it |
| `GitDiff.HeadEntryIs` | worker/git_diff.go:197-200 | The old side of a staged change is the file of that name in HEAD, if there is one |
| `GitDiff.SelectedIff` | worker/git_diff.go:95-101 | A change is reported if and only if it is known to git and its name is the one asked for, if any |
| `GitDiff.BinaryContentIff` | worker/git_diff.go:326-334 | A file on disk counts as binary if and only if a null byte is among its first 8000 |
| `GitDiff.BuildStagedDiff` | worker/git_diff.go:161-256 | One patch for each staged change that passes the filter, and no other; an error if and only if HEAD's commit or tree or the index cannot be read |
| `GitDiff.BuildUnstagedDiff` | worker/git_diff.go:86-158 | One patch for each work tree change that passes the filter; an error if and only if the index or one of their files cannot be read |
| `GitDiff.PatchMeaning` | worker/git_diff.go:259-296 | Files, hashes and chunks of a patch: a binary one has no chunks, another rebuilds both texts, a new file has only Add and a deleted one only Delete chunks |
| `GitDiff.StagedPatchMeaning` | worker/git_diff.go:193-252 | A staged patch turns HEAD's text into the index's; Added files have only Add, Deleted files only Delete chunks |
| `GitDiff.UnstagedPatchMeaning` | worker/git_diff.go:103-154 | An unstaged patch turns the index's text into the file on disk, or into nothing for a deleted file |
| `Grep.ContextAround` | worker/grep.go:306-320 | The context loops collect exactly the lines at distance at most k on either side |
| `Grep.SearchFile` | worker/grep.go:273-327 | One result per hit, in order, with line number, text and both windows; a binary file has none; a file that cannot be read is an error |
| `Grep.BinaryIff` | worker/grep.go:284-288 | A file counts as binary if and only if a null byte is among its first 8192 |
| `Grep.HitsAreTheMatches` | worker/grep.go:298-299 | The hits are exactly the indices of the matching lines, in ascending order |
| `Grep.WideContextRebuildsFile` | worker/grep.go:306-320 | With at least as many context lines as the file has, any match carries the whole file |
| `Grep.WindowsAreMutual` | worker/grep.go:306-320 | One match shows the other's line after it if and only if the other shows the first's line before it: at distance at most k |
| `Grep.ParseRipgrepJSON` | worker/grep.go:145-210 | The fold that appends through the `currentMatch` pointer computes the specified results in distinct objects, and returns the scanner's error with them |
| `Grep.OneResultPerMatch` | worker/grep.go:163-183 | One result per match message, in order, with its path, line and trimmed text |
| `Grep.CurrentIsOpen` | worker/grep.go:182-206 | The current match is the last one, exactly as long as no new file has begun |
| `Grep.ContextIsSplit` | worker/grep.go:185-202 | On any stream each result holds the context lines up to the next match or file: those with smaller line numbers before it, those with larger ones after it |
| `Grep.TrimLineEndTrims` | worker/grep.go:195-195 | Trimming removes the line breaks at the end and nothing else |
| `Grep.ContextGoesToPrecedingMatch` | worker/grep.go:185-202 | On per-file increasing streams each result holds, after it, exactly the context lines up to the next match or file, and none before it |
| `Grep.EachContextOnce` | worker/grep.go:185-206 | A context line belongs to some result if and only if a match precedes it in its file, and then to one only |
| `Grep.RecordedIff` | worker/grep.go:185-206 | On ordered streams a context line is in the context of some result if and only if a match precedes it in its file, and then in one place only |
| `Grep.EntryIsRecorded` | worker/grep.go:195-202 | Every context entry of every result is the text of one message |
| `Grep.ContextBeforeIsLost` | worker/grep.go:191-193 | An ordered stream whose context line ahead of the match is in no result |
| `GrepAgreement.ParseStream` | worker/grep.go:145-206 | The fold over ripgrep's messages for a file is a fold over its lines: a match opens a result, a context line is appended behind the last one of the file |
| `GrepAgreement.FileResults` | worker/grep.go:163-206 | One result per matching line, its context the lines written as context between it and the next match |
| `GrepAgreement.RipgrepAgreesIff` | worker/grep.go:145-328 | A parsed result has the path, line and trimmed text of searchFile; the same lines after it if and only if it is the last of its file, or no context is wanted, or the next match is the first line past the window; and the same lines before it if and only if none are wanted or there are none |
| `GrepAgreement.LineAheadIsShown` | worker/grep.go:195-202 | The line ahead of a later match is recorded behind the earlier match, at any distance |
| `GrepAgreement.ContextIsMisfiled` | worker/grep.go:185-202 | A stream with one line of context and matches in lines 1 and 9, in which line 8 is recorded behind line 1 |

## Left out

- Process creation: command and directory validation, environment, pipes, and the removal of a process whose log file
  cannot be created beyond the fact that its pid stays taken.
- Signals: Stop's signal goes to a pid after the lock is released, so it may reach a process that reused the pid; the
  model keeps `done`, status and return values, and a signal step only succeeds or fails.
- Time: the grace period and the timeouts are steps that may happen at any moment; start and exit times are parameters.
- Scanner limits: a line beyond the scanner's token limit ends a reader like the end of its pipe.
- The critical sections other than the fan-out and the end of a process are one step each: they do not touch a channel
  that another goroutine uses without the lock.
- The Tail, pipeReader and waitForExit goroutines exist as steps of the state machine, not as methods; their critical
  sections are methods of `ProcessManager.Manager`.
- The in-place edit of the subscriber slice is the reassignment of a sequence; nothing else holds the slice.
- int32 pids and exit codes are unbounded integers; they are only stored and compared.
- runBash before `cmd.Start`, and concurrent use of one stream by both readers, beyond the order in which sends succeed.
- ListPages, screenshots, element lookup beyond the ref map, Act and its actions, and the launcher handle:
  single-branch logic over the calls to Chromium.
- The snapshot id is a number in the model; the decimal text sent to the client is not modelled.
- The text of errors and the wrapping of errors in RPC codes beyond the distinctions named in the contracts.
- The file system is three functions that do not change during a call: Lstat, EvalSymlinks and where a link leads. The
  assumptions on them are `Paths.EvalContract` and, where links matter, `Paths.FsOk`: a path resolves through its
  directory, a link resolves as its destination, and what resolves exists. That `writeFile` first makes the missing
  directories of its path, but none at the end of a link, is part of `Paths.Landing`.
- DOM.resolveNode, which Chromium may still refuse after the lookup of a ref.
- ripgrep is taken to name each line once and to search line by line. It does not count the empty line after a final
  newline, which `searchFile` does: the comparison is of the same list of lines.
- Relative paths in `filepath.Clean`: only absolute paths reach the modelled code.
- The unified encoder, go-git's storage and status, diff.Do (its reconstruction contract is assumed), regular
  expressions, globs, the directory walk, JSON decoding and the ripgrep process.
- `matchMap` of parseRipgrepJSON, which is written and never read.
- Clone, push, commit, status, HTTP, gRPC, authentication and command line: wrappers around libraries.
