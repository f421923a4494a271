# Kubus in Dafny

A Dafny model of the parts of Kubus whose correctness only shows over whole runs or over all inputs:
its protocols and state machines, its parsers and printers, and a few algorithms with a real
invariant or bound. `dafny verify dfyconfig.toml` checks all of it.

Where the program changes things in place, the model has a class with the same fields (or a method
with the same loop) whose contract ties the new state to a function of the old one; the properties
are then proved about those functions, as invariants of every step and lemmas over whole runs.

**Protocols and state machines**

- `LogResume`, `LogSession`: the log viewer stitches one stream out of any number of sockets; cursors
  and the counting-off of replayed frames, one source at a time and then whole sessions; the bounded
  reconnect loop.
- `LogBuffer`: merging by time, the bounded screen buffer, and the trimming of what a pause holds back.
- `TabTransfer`, `TransferWindow`: handing a tab from one window to another over a broadcast channel,
  with any number of windows, tabs, claims and retries, and messages in any order.
- `TransferTerminals`: the live terminals among them, which complete or cancel only once their session is up
  or lost.
- `TransferClaims`: every step of that protocol by its effect, and the conservation of claims.
- `TransferOrder`: the same with channels that keep their order; the runs that lose a tab are of this kind.
- `DesktopUpdater`, `DesktopEvents`, `DesktopApp`: the self-updater woven into the shutdown of the app.
- `StoreUpdater`: the updater of the Microsoft Store build.
- `ClientState`: the write-behind client state file.
- `WindowMirrors`: the copies of that state in all windows.
- `DeepLinks`: window ownership and kubus:// links.

**Parsers, printers and translations**

- `JsonPath`, `JsonPathEval`: printer-column paths and their evaluation.
- `GlobFilter`: globs compiled to regular expressions.
- `ShellQuoting`: the kubectl command line, read back by a lexer that follows sections 2.2 and 2.3 of
  the POSIX Shell Command Language (IEEE Std 1003.1).
- `Base64Url`: the launch fragment (sections 3.2, 4 and 5 of RFC 4648).
- `LabelSelector`, `DiffState`: selectors and the Diff page's URL.
- `JsText`: trimming, splitting and joining, shared by these; `Optional`: a value that may be missing.

**Algorithms**

- `FuzzyMatch`, `ClusterColor`, `QuantityDisplay`, `PodRequests`, `ManifestPaths`.

**Assumptions about the environment.** A server replays a resumed source from the first frame of the
resume timestamp (server/src/ws/log-session.ts, lines 652-668), the lines of one timestamp are
contiguous, and channels between two processes keep their order. The library behind the updater may
fire any event at any time; a file write may fail at any step; windows, clicks and timers interleave
freely.

**Where the code does less than one may expect.** Each of these is proved with the exact condition, or
with a reachable counterexample, and the code is modelled as it is:

- The stitched log keeps the log's order only if the first socket starts at the first line of its
  timestamp (`LogResume.SegmentIffWholeStart`); no line is repeated and none is missing either way
  (`LogResume.ExactlyOnce`).
- A tab is lost when a new window replaces its blank tab after another tab has been moved there, or
  when a tab returns to a window that is still to be told to close it; nothing else loses one
  (`TabTransfer.KeptExactly`). Both happen even when channels keep their order
  (`TransferOrder.ReplacingCanLose`, `TransferOrder.ReturningCanLose`).
- A library announcement between consent and the end of the shutdown leaves the app running without
  its server, neither installed nor closed (`DesktopUpdater.InstallsExactly`,
  `DesktopUpdater.CanStrand`).
- The Store updater's final state is final only because the shipped bridge reports nothing after its
  answer (`StoreUpdater.UpdatedIsFinal`); a bridge that did would be called again
  (`StoreUpdater.CalledAgainExactly`).
- A change that crosses a local write overwrites it in one window only
  (`WindowMirrors.CrossingWriteExactly`, `WindowMirrors.CrossingWriteDiverges`).
- A held deep link is stranded when its owner closes and the successor is already loaded
  (`DeepLinks.StrandedExactly`); a malformed link on the command line discards a held one.
- Trimming a paused log loses a newest line that arrives before older ones
  (`LogBuffer.UnorderedArrivalsLoseNewest`, `LogBuffer.PauseLosesExactly`).
- `*` in a glob does not reach across lines (`GlobFilter.StarMatchesLines`).
- White space at the end of the last key of a path is lost (`JsonPath.SpaceIsLost`); a key named `*`
  cannot be told from the wildcard, however it is quoted.
- An unclosed parenthesis swallows an added label term (`LabelSelector.AddUnbalanced`).
- Writing one manifest path can disturb another inside a string or beside an array's extra properties
  (`ManifestPaths.DisjointExactly`).
- The shown pod request exceeds the scheduler's when a sidecar starts after the largest init container
  (`PodRequests.AgreesExactly`).

## Model

| member | source | states |
|---|---|---|
| LogResume.ExactlyOnce | client/src/components/LogViewer.tsx:192-224 | Safety over all runs: after any number of sockets, dropped at any frame (also mid-replay), with a server that may permute the frames of one timestamp on every replay, what is shown of a source is one stretch of its log: every timestamp strictly inside it exactly (as a multiset), the last one without surplus, and of the first one, as soon as a later one is shown, exactly what the first delivering socket was to send of it, or all of it |
| LogResume.ExactlyOnceFromStart | client/src/components/LogViewer.tsx:453-516 | If the first socket starts at the first frame of a timestamp, the first timestamp is complete as well |
| LogResume.SegmentIffWholeStart | client/src/components/LogViewer.tsx:453-516 | With a server that keeps the order, every run shows a gap-free, duplicate-free segment of the log starting where the first socket started, if and only if that was the first line of its timestamp |
| LogResume.StepKeepsInv | client/src/components/LogViewer.tsx:192-224 | The balance "shown so far + still to come = lines of the timestamp + still to be counted off" is kept by connecting, by every frame and by moving on to the next timestamp |
| LogResume.RunInOrder | client/src/components/LogViewer.tsx:453-516 | Under an order-keeping server the counted-off lines are exactly those between what was shown before and what was sent again |
| LogResume.MidGroupRun | client/src/components/LogViewer.tsx:192-209 | For every log and every start inside a timestamp there is a run that shows the whole timestamp, no line twice, but out of order: the line the first socket started at comes first |
| LogResume.ShownExactly | client/src/components/LogViewer.tsx:501-516 | A frame is kept back if and only if its line is still to be counted off at its timestamp; frames without a timestamp never are, and every other frame is shown last |
| LogSession.Session.Connect | client/src/components/LogViewer.tsx:453-464 | A new socket asks to resume every source at its cursor and starts counting off a copy of what was seen there |
| LogSession.Session.ConsumeReplayFrame | client/src/components/LogViewer.tsx:192-209 | The in-place cursor maps change exactly as the counting-off function says, for this source only |
| LogSession.Session.RecordResumeFrame | client/src/components/LogViewer.tsx:211-224 | The cursor of this source, and of no other, is extended or replaced |
| LogSession.Session.OnLine | client/src/components/LogViewer.tsx:501-516 | One line message moves its source by one step of the verified protocol and leaves every other source alone |
| LogSession.View | client/src/components/LogViewer.tsx:446-566 | A whole session over many sources, with sockets and frames interleaved: each source ends up with exactly one stretch of its log on screen, without a gap from the line its first delivering socket started at |
| LogSession.NoticedByOne | client/src/components/LogViewer.tsx:446-566 | A frame and the move to the next timestamp concern one source, a new socket all of them |
| LogSession.DelayGrows | client/src/components/LogViewer.tsx:179-181 | Delays never shrink from one attempt to the next and stay between 500 ms and 8 s |
| LogSession.DelayDoubles | client/src/components/LogViewer.tsx:179-181 | The first retry waits 500 ms, each next one twice as long while that is at most 8 s, and every later one exactly 8 s |
| LogSession.WaitsAre | client/src/components/LogViewer.tsx:84-87 | The eight waits in numbers, and their sum of 39.5 s |
| LogSession.TotalDelayBound | client/src/components/LogViewer.tsx:84-87 | All retries in a row together wait at most 39.5 s |
| LogSession.Reconnector.OnClose | client/src/components/LogViewer.tsx:540-563 | A dropped socket is retried exactly if fewer than eight retries failed in a row, after 500, 1000, 2000, 4000 and then 8000 ms; completed or refused streams are not |
| LogSession.Reconnector.OnStable | client/src/components/LogViewer.tsx:495-499 | Only ten stable seconds reset the count of failures |
| LogBuffer.MergePermutes | client/src/components/log-tools.ts:41-77 | Merging loses and duplicates nothing: the result is a permutation of both inputs |
| LogBuffer.MergeAppends | client/src/components/log-tools.ts:41-77 | A batch that arrives in time order, across any number of markers, is appended unchanged |
| LogBuffer.SortSorts | client/src/components/log-tools.ts:51-60 | Sorting one run of lines gives a time-ordered permutation |
| LogBuffer.MergeMarkers | client/src/components/log-tools.ts:68-76 | Merging keeps every marker |
| LogBuffer.MergeOrdered | client/src/components/log-tools.ts:34-40 | Merging a batch in any order keeps the lines between two markers in time order |
| LogBuffer.AppendEntries | client/src/components/LogViewer.tsx:162-177 | The shown buffer is the newest 20 000 entries of the merge, and the incrementally kept marker count is the number of markers in it |
| LogBuffer.Viewer.PushEntry | client/src/components/LogViewer.tsx:341-348 | Arrival with amortised trimming, counters included |
| LogBuffer.Viewer.FlushBuffered | client/src/components/LogViewer.tsx:350-364 | Nothing is shown while paused; otherwise everything pending moves to the screen |
| LogBuffer.Viewer.Resume | client/src/components/LogViewer.tsx:380-387 | Resuming shows everything pending at once |
| LogBuffer.TrimmingIsInvisible | client/src/components/LogViewer.tsx:341-364 | For arrivals in time order and any interleaving of ticks: the next flush shows the same last 20 000 entries as a viewer that never trims, with at most 25 000 pending and 20 000 shown |
| LogBuffer.UnorderedArrivalsLoseNewest | client/src/components/LogViewer.tsx:345-347 | Without time order the claim fails: a line newer than the 25 000 behind it is trimmed although it belongs at the end |
| LogBuffer.PauseLosesExactly | client/src/components/LogViewer.tsx:341-364 | Distinct lines that arrive in any order while any others are pending: resuming shows what it would show had nothing been trimmed, if and only if no trimmed line belongs to the newest 20 000 of everything |
| LogBuffer.MergeRunWithout | client/src/components/log-tools.ts:51-67 | Merging fewer lines gives the same buffer without them: the stable merge commutes with leaving lines out |
| TabTransfer.StepWellFormed | client/src/tab-transfer.ts:54-106 | What every handler, timer and user action keeps about sources, claims, preparations and messages, for any number of windows |
| TabTransfer.StepKeptExactly | client/src/tab-transfer.ts:54-210 | Of all steps, those by which a tab loses its last lasting holder are exactly the two kinds of stripping deliveries: another page takes the place of the blank tab while all other holders are about to close this one, or the tab comes back to a window that is still to be told to close it while all but the sender are, too |
| TabTransfer.KeptExactly | client/src/tab-transfer.ts:54-210 | Over every run of claims, retries, offers, timeouts, cancels, expiries and completes, with any number of windows and messages in any order: until a user closes it, a tab has a lasting holder at every moment if and only if no step of the run strips it |
| TabTransfer.KeptOutlives | client/src/tab-transfer.ts:89-93 | In every reachable state a page or log tab has a lasting holder if and only if it is still open somewhere once all complete messages on the bus have arrived, in whatever order |
| TabTransfer.NoTabLost | client/src/tab-transfer.ts:54-210 | In every run whose steps do not strip the tab, and for messages in any order: a tab nobody closed is open in some window in every reachable state |
| TabTransfer.BlankTabsSpare | client/src/tab-transfer.ts:181-210 | No step ever strips a docked tab, and none strips a page in a run in which windows replace nothing but their blank tab |
| TabTransfer.AnswersAndPrepares | client/src/tab-transfer.ts:60-66 | Each claim resolves at most once, and prepare runs at most once between two cancels, despite retries |
| TabTransfer.ExactlyOneWindow | client/src/tab-transfer.ts:81-94 | A page or log tab adopted exactly once, whose token did not run out and whose complete has arrived, is open at most in the adopting window in every run, and exactly there if no step stripped it |
| TabTransfer.ReplacingLosesExactly | client/src/tab-transfer.ts:191-196 | In every reachable state, a page that takes the place of the blank tab loses another page for good, once all complete messages have arrived, if and only if every other window that holds it is the source of a token with which it was adopted |
| TransferOrder.OrderedRunIsRun | client/src/tab-transfer.ts:47-54 | A run in which every delivered message is the oldest from its sender to its receiver, and a window claims a tab for its blank one first of all, is a run of the general system |
| TransferOrder.StepSynced | client/src/tab-transfer.ts:47-54 | The queues of all pairs of windows hold exactly the messages that are on their way: what a window posts joins every queue that starts there, what is delivered leaves its own |
| TransferOrder.ReplacingCanLose | client/src/main.tsx:34-41 | With order-keeping channels, for any tabs and tokens: a reachable state in which a tab nobody closed is open nowhere, because the new window receives its own tab asynchronously and empties a tab bar that has gained another one meanwhile |
| TransferOrder.ReplacingCanLoseLater | client/src/tab-transfer.ts:89-93 | With order-keeping channels: a reachable state in which the tab swept away is still open in one window, which closes it as soon as the complete on the bus arrives |
| TransferOrder.ReturningCanLose | client/src/tab-transfer.ts:181-210 | With order-keeping channels: a reachable delivery that loses a kept tab by bringing it back too early, over a third window, while the complete of its first move is still on the way; all windows that hold it afterwards are about to close it |
| TransferWindow.TransferEnd.HandleClaim | client/src/tab-transfer.ts:57-71 | A claim starts the preparation once, joins a running one, or is answered from a finished one |
| TransferWindow.TransferEnd.PreparationSettles | client/src/tab-transfer.ts:60-69 | All waiting claims get the same offer, in order |
| TransferWindow.TransferEnd.HandleOffer | client/src/tab-transfer.ts:72-80 | Only an open claim takes an offer, and it is closed by it |
| TransferWindow.TransferEnd.ReceiveTab | client/src/tab-transfer.ts:181-210 | Adoption, the cancel for a tab that is there already, and the late complete of live terminals |
| TransferWindow.TransferEnd.HandleComplete | client/src/tab-transfer.ts:89-93 | The source is forgotten and its tab closed |
| TransferWindow.TransferEnd.ClaimTimesOut | client/src/tab-transfer.ts:162-167 | An open claim resolves with nothing and cancels |
| TransferWindow.TransferEnd.TerminalAttached | client/src/components/TerminalPaneImpl.tsx:215-250 | A live terminal completes once attached and cancels when its socket closes first |
| TransferWindow.TransferEnd.OnMessage | client/src/tab-transfer.ts:54-94 | The listener is the verified handler of the message kind |
| TransferWindow.DeliveryIsOneCall | client/src/tab-transfer.ts:54-94 | A delivery in the system of all windows changes the receiving window as one call of its listener does, and sends what that call returns |
| TransferTerminals.CompletesExactly | client/src/components/TerminalPaneImpl.tsx:215-250 | In every system state: a step puts the complete of a token on the bus if and only if a live terminal waiting with it got its session, or a tab of another kind is adopted with it |
| TransferTerminals.CancelsExactly | client/src/components/TerminalPaneImpl.tsx:215-250 | It puts a cancel there if and only if the socket of the waiting terminal closed first, the claim timed out, or the offered tab is open in the claiming window already |
| TransferTerminals.AttachedMoves | client/src/components/TerminalPaneImpl.tsx:215-250 | Over all runs: a live terminal adopted once whose session attached is open in the adopting window only, once the completes of its token have arrived and unless the token ran out first |
| TransferTerminals.DroppedStays | client/src/components/TerminalPaneImpl.tsx:215-250 | Over all runs: a live terminal adopted once whose socket closed first stays open at its source, and its token is never completed |
| TransferClaims.ClaimsAreConserved | client/src/tab-transfer.ts:57-71 | Conservation over all runs: each claim that reaches its source, retries counted one by one, is answered by exactly one offer or waits for the preparation, and nothing else is answered |
| TransferClaims.PreparesExactly | client/src/tab-transfer.ts:60-66 | Over all runs: a claim makes its source prepare the tab if and only if it is the first one since the drag and since the last cancel |
| TransferClaims.OffersExactly | client/src/tab-transfer.ts:60-70 | An offer holds the tab if and only if its preparation succeeded while the tab was open; it goes to those who waited, and to later claims as it was |
| TransferClaims.PreparationExactly | client/src/tab-transfer.ts:60-66 | A finished preparation never changes, and a running one ends only when it settles |
| TransferClaims.OpenExactly | client/src/tab-transfer.ts:54-210 | For every step: where a tab is open afterwards, by what was opened, received, closed, given away or swept away |
| TransferClaims.ClaimOpenExactly | client/src/tab-transfer.ts:72-80 | A claim is open from the drop that starts it until an offer for it arrives or its time is up, and no longer |
| TransferClaims.SourceExactly | client/src/tab-transfer.ts:89-106 | A token can be claimed from the drag that registers it until it is complete or retired, and always stands for the same tab |
| TransferClaims.WaitsExactly | client/src/components/TerminalPaneImpl.tsx:215-250 | A live terminal waits from its adoption until its session is up or lost, or it is closed or given away |
| DesktopUpdater.StepKeepsInv | electron/src/updater.ts:45-143 | What every click, timer, awaited call, library event, quit and timeout keeps |
| DesktopUpdater.NeverTogether | electron/src/updater.ts:76-130 | checkForUpdates and downloadUpdate are never in flight together, over all interleavings |
| DesktopUpdater.InstallIsEarned | electron/src/updater.ts:84-106 | Every quitAndInstall comes after a download() call, the arrival of an update while downloading, an accepted requestInstall, a state flush, and the end of the wait for the server, in this order |
| DesktopUpdater.QuitFinishesOnce | electron/src/main.ts:663-708 | finishQuit runs at most once, and exactly once as soon as the server closed or timed out; the server is closed once |
| DesktopUpdater.WaitEndsExactly | electron/src/main.ts:698-708 | When the wait for the server ends, in any run, the app exits if and only if no install was accepted, and installs if and only if the last accepted one was undisturbed; never both |
| DesktopUpdater.ExitComesLast | electron/src/main.ts:663-708 | In every run each exit comes after a state flush and after the end of the wait for the server |
| DesktopUpdater.QuitExactly | electron/src/main.ts:663-695 | Every quit flushes the state; it exits at once if and only if the wait has ended before, and closes the server if and only if no quit did |
| DesktopUpdater.RecoversOncePerInstall | electron/src/updater.ts:132-139 | recoverInstall runs at most once per accepted install: before every recovery an install was accepted, after the previous recovery if there was one |
| DesktopUpdater.InstallsExactly | electron/src/updater.ts:99-106 | When the quit finishes, the last accepted install is carried out if and only if no error and no availability event of the library came in between |
| DesktopUpdater.AcceptedInstallHappens | electron/src/updater.ts:90-106 | With a library that announces versions only while checking, an accepted install is carried out or the app recovered from an error |
| DesktopUpdater.StrayAnnouncementStrands | electron/src/updater.ts:46-47 | From every state that waits to install, a stray announcement leaves the app without server, without install and without exit |
| DesktopUpdater.CanStrand | electron/src/updater.ts:46-47 | A reachable state of that kind: check, download, consent, a stray announcement, and the end of the server leave the app without server, neither installed nor closed nor recovered |
| DesktopUpdater.WindowsAreUpToDate | electron/src/updater.ts:141-144 | In every reachable state the broadcast sent last shows the current state: no step changes it silently, and none sends a stale one after it |
| DesktopUpdater.PercentIsOne | electron/src/updater.ts:48-55 | A shown percentage stays within 100, and an update that is ready is shown as complete |
| DesktopUpdater.TimersStayOff | electron/src/updater.ts:69-95 | Once the app quits or an install is accepted, no timer starts another check in any later state |
| DesktopEvents.ShownExactly | electron/src/updater.ts:45-144 | For every event, the state the windows show afterwards, that they are told, and the calls, recoveries and consents that go with it and with nothing else |
| DesktopEvents.CallsExactly | electron/src/updater.ts:76-88 | Which of the two awaited calls is in flight, returned or waiting after every event |
| DesktopEvents.ShutdownExactly | electron/src/main.ts:663-708 | How far the shutdown is after every event: server, wait, consent and timers |
| DesktopEvents.ClampIs | electron/src/updater.ts:50-51 | The percentage shown is the one whole number within 0 and 100 that fits the progress |
| DesktopApp.UpdaterObject.CheckNow | electron/src/updater.ts:76-82 | A check starts only if no operation is pending and nothing is installed or ready |
| DesktopApp.UpdaterObject.DownloadNow | electron/src/updater.ts:84-88 | A download waits for a running check, or begins |
| DesktopApp.UpdaterObject.DownloadAfterCheck | electron/src/updater.ts:119-130 | The download begins only with a known version, from available or error |
| DesktopApp.UpdaterObject.FailWith | electron/src/updater.ts:132-139 | An error while installing recovers |
| DesktopApp.App.OnBeforeQuit | electron/src/main.ts:663-695 | Timers stop, state is flushed, and the server is closed once |
| DesktopApp.App.Finish | electron/src/main.ts:698-708 | The new state and the actions of the end of the wait; which of them happen when is `DesktopUpdater.WaitEndsExactly` |
| DesktopApp.App.OnInstallClick | electron/src/updater.ts:90-96 | Accepted exactly in state ready; then the app starts to quit |
| DesktopApp.App.On | electron/src/updater.ts:45-143 | One event of the running app, on the fields, is one step of the verified machine |
| StoreUpdater.OneCallAndSavedFirst | electron/src/store-updater.ts:38-66 | At no point is more than one helper call open, and every install call is immediately preceded by beforeInstall |
| StoreUpdater.UpdatedIsFinal | electron/src/store-bridge.ts:26-51 | With the shipped bridge, which reports only while an install runs, nothing is called and nothing is shown after updated, in every run |
| StoreUpdater.CalledAgainExactly | electron/src/store-updater.ts:38-57 | With a bridge that may report at any time, the helper is called again after an installed update, in any run, if and only if a check follows a report and finds no run pending |
| StoreUpdater.LateReport | electron/src/store-updater.ts:51-57 | A run in which such a bridge is called again: it reports between its answer and the clearing of the pending run |
| StoreUpdater.WindowsAreUpToDate | electron/src/store-updater.ts:51-72 | In every run the broadcast sent last shows what the updater holds |
| StoreUpdater.InstallableExactly | electron/src/store-updater.ts:57-66 | After an answer, an install can be asked for if and only if the answer was available or canceled, and a check if and only if it was not updated |
| StoreUpdater.StoreUpdaterObject.Run | electron/src/store-updater.ts:51-66 | What one run does up to the point where the helper is at work |
| StoreUpdater.StoreUpdaterObject.InstallNow | electron/src/store-updater.ts:45-49 | Accepted exactly if nothing is pending and an update is available |
| ClientState.WriteBehind | electron/src/main.ts:473-517 | Write-behind refines write-through over all runs: a timer is armed exactly while something is pending, the cache is the outcome of all operations, the file that of a prefix, and of all when nothing is pending |
| ClientState.AttemptLosesNothing | electron/src/main.ts:482-499 | A successful attempt brings everything to disk; one that fails at any of its three steps keeps everything pending, leaves the file alone, re-arms the timer with 5 s and tells the windows |
| ClientState.DiskAdvances | electron/src/main.ts:182-189 | The prefix on disk never gets shorter |
| ClientState.WaitIsBounded | electron/src/main.ts:468-480 | An operation waits at most 5 s for an attempt, and at most 150 ms if nothing was pending before |
| ClientState.TimerCanFire | electron/src/main.ts:473-480 | Whatever is pending can be attempted: its timer can run out and fire |
| ClientState.ClientStore.LoadClientState | electron/src/main.ts:165-180 | The file is read once; an unreadable one counts as empty |
| ClientState.ClientStore.SaveClientState | electron/src/main.ts:182-189 | Only the rename changes the file |
| ClientState.ClientStore.ScheduleFlush | electron/src/main.ts:473-480 | An armed timer is kept |
| ClientState.ClientStore.FlushClientState | electron/src/main.ts:482-499 | One write attempt |
| ClientState.ClientStore.OnSetItem | electron/src/main.ts:501-503 | A set changes the cache at once and schedules the write |
| ClientState.ClientStore.OnRemoveItem | electron/src/main.ts:509-513 | So does a removal |
| WindowMirrors.MirrorsConverge | electron/src/preload.ts:41-65 | Windows may open, boot, write and close in any order: if nobody writes a key while another window's change of it is on its way, all copies agree with the main process once nothing is on its way |
| WindowMirrors.CrossingWriteExactly | electron/src/preload.ts:57-60 | When all earlier writes of a key were clear and none follows, all copies end up the same if and only if this write was clear too or repeated the last value it did not know of |
| WindowMirrors.CrossingWriteDiverges | electron/src/preload.ts:41-65 | A reachable drained state for every key and any two values: two windows wrote, and one of them reads the overwritten value |
| WindowMirrors.StepKeeps | electron/src/preload.ts:41-65 | Per key: at most one window is about to change it, and every other window will read what the main process holds |
| WindowMirrors.OthersOnlyHear | electron/src/main.ts:501-517 | A step of one window reaches another only as one more message to it, and the main process only by the write it handles |
| WindowMirrors.PassOn | electron/src/main.ts:504-506 | Every window but the sender is told once, behind what it was told before; the sender and everything else stay as they are |
| WindowMirrors.Preload.Write | electron/src/preload.ts:57-64 | A write changes the own copy at once and sends one message |
| WindowMirrors.Preload.OnChanged | electron/src/preload.ts:41-47 | A message from another window sets or deletes exactly that key |
| DeepLinks.RoutesExactly | electron/src/main.ts:71-77 | Exactly the routes of the app come out of kubus:// links, and each of them has its links |
| DeepLinks.OwnerExactly | electron/src/main.ts:342-397 | Over all runs: navigation has an owner exactly if an application window exists; route-ready windows are application windows, which are managed |
| DeepLinks.RoutesAreConserved | electron/src/main.ts:79-96 | Every accepted route is in exactly one place: sent once, held, or given up for a later route or for a malformed link on the command line |
| DeepLinks.PushedOnlyWhenReady | electron/src/main.ts:86-87 | A push goes to the owner only, and only if it has pulled since its last load |
| DeepLinks.HandedExactly | electron/src/main.ts:521-531 | In every run, a window that asks is handed a route if and only if it owns navigation and one is held: the route of the very link that was accepted under that number, which is held no longer |
| DeepLinks.LinkFindsWindow | electron/src/main.ts:79-96 | In every run an accepted link is pushed to the owner or held, and once the server is up there is an owner afterwards, opened if need be |
| DeepLinks.ClosedIsGone | electron/src/main.ts:388-397 | A closed window is gone from every list and owns nothing; no other window loses its place |
| DeepLinks.StrandedExactly | electron/src/main.ts:388-397 | A held route stops being awaited if and only if the owner closes and its successor has already pulled |
| DeepLinks.AwaitedUnlessStranded | electron/src/main.ts:521-531 | Without such a close, whoever owns navigation while a route is held has still to pull it |
| DeepLinks.RouteCanStrand | electron/src/main.ts:388-401 | A reachable run in which a route stays held although its owner is ready |
| DeepLinks.Ownership.NewWindow | electron/src/main.ts:342-378 | The first application window becomes the owner |
| DeepLinks.Ownership.Open | electron/src/main.ts:79-96 | Push, hold, or hold and open a window |
| DeepLinks.Ownership.Closed | electron/src/main.ts:388-397 | The oldest remaining application window inherits |
| DeepLinks.Ownership.PullRoute | electron/src/main.ts:521-531 | Only the owner takes the held route; every application window becomes ready |
| FuzzyMatch.FindMatch | client/src/fuzzy.ts:42-77 | A match is found if and only if the lower-cased query is a subsequence of the text, despite greedy choice and hops; positions strictly increase and spell the query, each is the first hit or the guarded hop, and the score is the counted base plus 8 for a start at the front, less for a later one, less an eighth of the tail |
| FuzzyMatch.RemainderMatches | client/src/fuzzy.ts:26-33 | Exactly whether the rest of the query occurs in order |
| FuzzyMatch.PickPosition | client/src/fuzzy.ts:52-65 | The first hit, or the first later boundary hit within 24 characters that keeps the rest matchable |
| FuzzyMatch.GreedyKeepsRest | client/src/fuzzy.ts:53-54 | Taking the first occurrence never loses a match |
| FuzzyMatch.SubsequenceIsRest | client/src/fuzzy.ts:26-33 | The scan agrees with the definition by increasing positions |
| FuzzyMatch.BaseBounds | client/src/fuzzy.ts:66-69 | Before the final adjustment the score of n characters lies between n and 11n - 4 |
| FuzzyMatch.BaseCounts | client/src/fuzzy.ts:66-69 | That score is one point a position, 4 more for each that runs on and 6 more for each that starts a word, counted as sets |
| FuzzyMatch.WordStarts | client/src/fuzzy.ts:16-24 | A word starts at the front, behind one of six separators or white space, or at a hump, and nowhere else |
| FuzzyMatch.BestBase | client/src/fuzzy.ts:66-69 | The upper bound is met for every n |
| GlobFilter.CompiledExactly | client/src/smart-filter.ts:246-253 | For every glob and text, the compiled expression accepts exactly what a direct matcher accepts whose * stays within a line |
| GlobFilter.GlobPreserved | client/src/smart-filter.ts:246-253 | On texts without line terminators that is the glob's meaning; on others nothing but matches is accepted |
| GlobFilter.StarMatchesLines | client/src/smart-filter.ts:246-253 | The glob * matches exactly the texts without line terminators |
| GlobFilter.EscapedIsLiteral | client/src/smart-filter.ts:294-298 | An escaped string denotes exactly itself |
| GlobFilter.EscapeAt | client/src/smart-filter.ts:294-298 | At every place of a text, escaping marks the fourteen syntax characters and leaves the others alone |
| GlobFilter.LabelMatcher.GlobRegExp | client/src/smart-filter.ts:244-253 | The pattern cache makes no difference |
| GlobFilter.LabelMatcher.MatchKeyValueMap | client/src/smart-filter.ts:278-292 | key=value asks for that label as glob or folded text, anything else for a key that contains it |
| JsonPath.RoundTripExactly | shared/src/jsonpath.ts:94-143 | Printing keys, indexes, wildcards and filters and reading them back gives the same path, if and only if it does not end in a key that ends in white space |
| JsonPath.SpaceIsLost | shared/src/jsonpath.ts:104 | In that case exactly the white space (or the whole key) is lost |
| JsonPath.BareKeyNeverFails | shared/src/jsonpath.ts:134-140 | Reading always advances; a bare key is never empty, so its failure branch is unreachable |
| JsonPath.FilterRoundTrip | shared/src/jsonpath.ts:91 | Every printable equality filter is read back |
| JsonPath.FilterExactly | shared/src/jsonpath.ts:91 | Filters are read from exactly the texts of the form ?( @.a.b == "value" ), with any white space in the four places and either quote, and each means what it says |
| JsonPath.QuotedKeyIsRead | shared/src/jsonpath.ts:121-133 | A key in equal quotes between brackets is that key; unequal quotes make the path malformed |
| JsonPath.StarIsRead | shared/src/jsonpath.ts:111-126 | A star behind a dot or between brackets is the wildcard |
| JsonPath.DollarIsSkipped | shared/src/jsonpath.ts:106 | One $ in front is the root and not part of a key |
| JsonPath.BracesDoNotMatter | shared/src/jsonpath.ts:104-106 | A path in braces reads like the path |
| JsonPath.Parse | shared/src/jsonpath.ts:107-142 | The index loop computes what reading the path as a whole means |
| JsonPath.ReadKeyAt | shared/src/jsonpath.ts:94-101 | One key up to the next unescaped . or [ |
| JsonPathEval.EvaluateComposes | shared/src/jsonpath.ts:18-35 | Evaluating a concatenated path is evaluating its parts in sequence |
| JsonPathEval.TextsCompose | shared/src/jsonpath.ts:11-35 | The same for the texts of two paths written one after the other |
| JsonPathEval.EvaluateIsWalk | shared/src/jsonpath.ts:18-35 | The evaluator's rounds give the same values, in the same order and as often, as a depth-first walk |
| JsonPathEval.FilterMeans | shared/src/jsonpath.ts:78-87 | A filter keeps, in order and as often, exactly the items whose value along the path is a scalar with that text |
| JsonPathEval.KeyMeans | shared/src/jsonpath.ts:24-35 | A key leads to the value stored under it, and to undefined if there is none |
| JsonPathEval.IndexMeans | shared/src/jsonpath.ts:24-35 | An index leads to its item, and to undefined outside the list |
| JsonPathEval.WildcardMeans | shared/src/jsonpath.ts:24-35 | The wildcard leads to all items or all field values, in order |
| JsonPathEval.NothingElse | shared/src/jsonpath.ts:24-35 | All other segments lead nowhere |
| JsonPathEval.MissingNeverShows | shared/src/jsonpath.ts:36-47 | Null and undefined values change no column |
| JsonPathEval.ColumnMeans | shared/src/jsonpath.ts:36-47 | No value gives no column, one value itself, several their texts with commas between them |
| JsonPathEval.KeyColumn | shared/src/jsonpath.ts:18-40 | The column of a path of keys is the value stored there |
| JsonPathEval.PrinterColumns.ColumnOf | shared/src/jsonpath.ts:11-47 | The parse cache is invisible; the column is nothing, the one value, or the joined texts of what a depth-first walk reaches |
| ShellQuoting.ArgumentIsOneWord | client/src/kubectl-command.ts:1-6 | For every string, a POSIX lexer reads the quoted argument as exactly that one word |
| ShellQuoting.UnquotedExactly | client/src/kubectl-command.ts:1-6 | An argument stays unquoted if and only if it is not empty and holds only letters, digits and _@%+=:,./- |
| ShellQuoting.CommandReadsAsIntended | client/src/kubectl-command.ts:28-42 | For every target and list of files, the whole command lexes to exactly the intended words |
| ShellQuoting.MergedPathsComeBack | client/src/kubectl-command.ts:39 | The merged KUBECONFIG gives the files back if and only if none holds a colon |
| Base64Url.RoundTrip | client/src/window-management.ts:19-31 | Every byte sequence survives encoding and decoding |
| Base64Url.PaddingComesBack | client/src/window-management.ts:23-28 | The stripped padding is put back exactly, for all three remainders |
| Base64Url.DecodeThenEncodeExactly | client/src/window-management.ts:26-31 | Of the texts of the URL alphabet with a possible length, exactly those without bits beyond the last byte come back from decoding and encoding |
| Base64Url.EncodingIsUrlSafe | client/src/window-management.ts:23 | Encodings use the URL alphabet only |
| Base64Url.EncodeBase64Url | client/src/window-management.ts:19-24 | The binary string built byte by byte is one that btoa accepts, and its base64 text with the URL alphabet and without padding is the encoding, which is decoded to the same bytes |
| QuantityDisplay.ShownWithinFivePercent | shared/src/hpa.ts:85-99 | Whichever unit is chosen, the shown number is within 1/21 (so within 5%) of the reading, and zero exactly if the reading is |
| QuantityDisplay.DisplayError | shared/src/hpa.ts:72-75 | Rounding is off by at most 1/21 of any reading |
| QuantityDisplay.DisplayErrorIsTight | shared/src/hpa.ts:72-75 | The bound is met at 10.5 and 1.05 |
| QuantityDisplay.DisplayMonotone | shared/src/hpa.ts:72-75 | Rounding never reverses the order of two readings |
| QuantityDisplay.UnitsAre | shared/src/hpa.ts:52-53 | Each binary unit is 1024 times, and each decimal one 1000 times, the next smaller one of its family |
| QuantityDisplay.UnitIsLargest | shared/src/hpa.ts:92-98 | The target's unit is kept for zero and from 0.1 up; otherwise the unit is the largest smaller one of the family in which the reading is at least 1, if there is one |
| QuantityDisplay.SmallerUnitsAre | shared/src/hpa.ts:63-70 | The smaller units are those of the family with a smaller factor, from large to small |
| QuantityDisplay.InTargetUnit | shared/src/hpa.ts:85-99 | The early-return search computes that choice |
| LabelSelector.SplitJoinSplit | client/src/label-selector.ts:7-34 | For every selector, unbalanced ones included, splitting the joined terms returns the same terms |
| LabelSelector.JoinThenSplitExactly | client/src/label-selector.ts:27-34 | A list of trimmed terms comes back if and only if no term has an outer comma and all but the last close their parentheses |
| LabelSelector.AddAppendsExactly | client/src/label-selector.ts:155-159 | A new term is appended as exactly that term if and only if the selector ends balanced |
| LabelSelector.AddIsIdempotentExactly | client/src/label-selector.ts:155-159 | Adding a term twice is adding it once, if and only if the term is there already or the selector ends balanced |
| LabelSelector.AddUnbalanced | client/src/label-selector.ts:155-159 | Otherwise the term is glued to the last one |
| LabelSelector.SplitLabelSelector | client/src/label-selector.ts:7-25 | The scan computes the split |
| LabelSelector.DepthExactly | client/src/label-selector.ts:12-19 | The depth that decides whether a comma splits is the largest surplus of opening parentheses of any end of the text |
| ClusterColor.SixAreDistinct | client/src/cluster-color.ts:31-44 | Up to six contexts never share a slot, whatever the hash |
| ClusterColor.SixBeforeRepeats | client/src/cluster-color.ts:31-44 | With more, the first six by name use all six slots, and every later one gets the slot of its hash |
| ClusterColor.DependsOnTheSet | client/src/cluster-color.ts:35 | Order and repetition make no difference |
| ClusterColor.ClusterColorIndexes | client/src/cluster-color.ts:31-44 | The loops compute the palette |
| ClusterColor.FreeSlot | client/src/cluster-color.ts:36-39 | The probing loop |
| ManifestPaths.GetAfterSet | client/src/components/BatchCreateDialog.tsx:55-79 | For every value and path, what was written is read back, undefined included |
| ManifestPaths.SetAfterSet | client/src/components/BatchCreateDialog.tsx:65-79 | For every value and path, a second write leaves no trace of the first |
| ManifestPaths.DisjointExactly | client/src/components/BatchCreateDialog.tsx:65-79 | A write leaves a disjoint path alone if and only if the paths do not part at an array whose extra property, or a string whose character, the other path reads |
| ManifestPaths.DisjointOnJson | client/src/components/BatchCreateDialog.tsx:65-79 | On plain JSON, disjoint paths are independent unless they part inside a string |
| ManifestPaths.ContainerKind | client/src/components/BatchCreateDialog.tsx:65-79 | A missing container becomes an array if and only if the step was written as a number; containers that are there keep their kind |
| ManifestPaths.UndefinedDeletesExactly | client/src/components/BatchCreateDialog.tsx:70-77 | Writing undefined removes the key if and only if its container is not an array |
| ManifestPaths.ReadIn | client/src/components/BatchCreateDialog.tsx:55-62 | The cursor loop reads what the path means |
| PodRequests.NeverBelowScheduler | client/src/kube-display.ts:449-486 | The shown request is never below the order-sensitive rule of KEP-753 |
| PodRequests.AgreesExactly | client/src/kube-display.ts:449-486 | Both agree if and only if the app containers ask for at least as much as the largest init container, or no asking sidecar starts after one of the largest |
| PodRequests.AgreesWhenSidecarsFirst | client/src/kube-display.ts:449-486 | They agree when every sidecar precedes the regular init containers |
| PodRequests.OneMore | client/src/kube-display.ts:449-486 | What one more sidecar, app or init container, or an overhead, adds to what is shown, for CPU and memory separately |
| PodRequests.RequestCache.PodRequestTotals | client/src/kube-display.ts:449-486 | Both totals, with the per-object cache invisible |
| PodRequests.RequestCache.ScanInits | client/src/kube-display.ts:465-479 | The scan over the init containers |
| DiffState.SideSurvivesExactly | client/src/diff-state.ts:41-61 | A side survives writing and reading if and only if it is empty or in normal form (bars in the context allowed) |
| DiffState.ReadingIsStable | client/src/diff-state.ts:41-61 | What was read from any parameter is read again from what is written for it |
| DiffState.StateSurvivesExactly | client/src/diff-state.ts:63-88 | Options always survive; the state does if and only if both sides do |
| DiffState.DiffSearchParams | client/src/diff-state.ts:76-88 | A side is written exactly if it has something to say, with the text that reading it back needs, and an option exactly if it differs from its default; the options are read back as they were |
| DiffState.PickSyncs | client/src/diff-state.ts:156-162 | With kinds synced a picked kind ends up on both sides that have a cluster, and clusters stay |
| DiffState.OtherSideStaysExactly | client/src/diff-state.ts:156-162 | The other side keeps its object if and only if kinds are separate, it has no cluster, or the kind is its own already |
| DiffState.PickIsIdempotent | client/src/diff-state.ts:145-162 | Picking twice is picking once |
| DiffState.PickedSide | client/src/diff-state.ts:145-162 | The picked side takes the kind without an object and keeps its namespace only for a namespaced kind; the other side stays or changes as if it were picked on |
| DiffState.KindIsRead | client/src/diff-state.ts:55-57 | A kind is read if and only if its first three parts are not empty, with core as the empty group |

## Left out

- TabTransfer.NoTabLost: assumes that no step strips the tab, because such a step loses it; that this is the exact condition is `TabTransfer.KeptExactly`.
- DesktopUpdater.AcceptedInstallHappens: assumes a library that announces versions only while checking; the exact condition without it is `DesktopUpdater.InstallsExactly`.
- WindowMirrors.MirrorsConverge: assumes that writes of a key do not cross; what happens otherwise is `WindowMirrors.CrossingWriteExactly`.
- LogBuffer.TrimmingIsInvisible: assumes arrivals in time order; what happens otherwise is `LogBuffer.PauseLosesExactly`, with `LogBuffer.UnorderedArrivalsLoseNewest` as a failing input.
- LogBuffer.PauseLosesExactly: is about pauses without markers, since a trimmed marker is no longer a barrier for the lines behind it, and tells lines apart by time and text, where the program holds distinct objects.
- LogViewer: sources whose cursor is dropped when their pod leaves or the time mode changes, lines without a timestamp in the segment results, rendering and filters.
- Tab handoff: the position of an adopted tab in the bar, terminal snapshots, closing of whole windows, and the blank tab itself; time is modelled by allowing every timer to fire at any moment.
- Updater: texts of messages, timer intervals, update feeds, and what the library does after quitAndInstall.
- Store updater: the helper process and its line protocol.
- Client state: the JSON text of the file, file permissions, and the fallback copy in browser storage.
- Window mirrors: reloads of a window, and payloads that are not strings.
- Windows: bounds, menus, focus, and the validation of launch descriptions.
- Strings are sequences of characters, not of UTF-16 units: surrogate pairs, case folding that changes length, and the order of names outside the basic plane are not modelled; TextEncoder is not part of this model.
- JSONPath: index literals beyond 2^53, properties inherited from prototypes, and the cell texts made from a column's value.
- Smart filter: tokens, clauses and the status predicates, which would only add easy members.
- kubectl command: the Windows shell.
- Quantities: the text of a quantity, infinite values, and floating-point noise (the arithmetic is over the reals).
- Label selectors: suggestions and the recognition of typed terms.
- Manifest paths: the order of keys, the special name length, and prototype names.
- Pod requests: reading of quantities; requests are taken in millicores and bytes.
- Diff page: the percent-encoding of the URL and the comparison itself.
- React components, HTTP plumbing, the Helm engine and the server's log streaming.
