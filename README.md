# Catalog loading and the library file tree, in Dafny

This project models two parts of FBReaderJ.

**`ItemsLoadingRunnable`** coordinates a background load of network catalog items.
- A worker thread runs `doBefore` and then `doLoading`. The loader reports each item it finds through a listener, and commits a link's items through the coordinator's public `commitItems`. The listener's own `commitItems` calls itself instead of the coordinator (see "## Findings").
- The listener buffers the item in a pending batch and in a per-link list of uncommitted items.
- A time gate decides when the batch is posted to the UI thread. The UI thread hands the batch to `updateItems`.
- The loader polls an interrupt handshake. A controller may request an interrupt and may take the request back before the worker confirms it.
- At the end, the worker delivers the last batch and waits until it is drained. It then posts the finish and waits until `onFinish` has run. `onFinish` receives the loading error, whether the run was interrupted, and every item still uncommitted.
- `runOnFinish` registers a callback for the end of the run. If `runFinishHandler` has not run yet, the callback is stored, and `runFinishHandler` later posts it to the UI thread. If the handler has already run, and no callback was stored before it, `runOnFinish` runs the callback at once on the caller's thread. Once a callback is stored, every later registration is ignored.

**`FileTree`** is a node of the library's file browser.
- It wraps a file, and may carry an explicit name and summary.
- A `.fb2.zip` archive that holds a single `.fb2` book is shown as that book.
- It has an opening status, a directories-first order, and a filter for the children listed when a node is opened.

## How the model is built

- `InterruptHandshake` (interrupt_handshake.dfy) holds the two interrupt flags and the four synchronized operations on them, as pure values. Lemmas there state the handshake's rules over any sequence of operations.
- `UpdateGate` (update_gate.dfy) holds the listener's time gate as a pure function. `FlushTimes` gives the items that trigger a delivery, and the lemmas state how those deliveries are spaced.
- `ItemBuffer` (item_buffer.dfy) holds `addItem`'s and `commitItems`'s effect on the uncommitted lists, and the union that `onFinish` reports.
- `LoadScript` (load_script.dfy) represents what happens during `doLoading` as a script of atomic events, interleaved in lock order:
  - listener calls, and commits through the coordinator's `commitItems`;
  - controller calls, which interrupt or resume;
  - turns of the UI thread.

  Its functions fold a script into the state it leaves. `PendingPerLink` and `ReportedUncommitted` characterise that state without the fold.
- `ItemsLoading` (items_loading.dfy) holds the two classes, `ItemsLoadingRunnable` and its `ItemListener`. Their fields are updated in place.
  - The UI thread is the field `uiQueue`, a FIFO queue of posted messages. `ProcessNext` runs its head.
  - Every call into code the coordinator does not own goes into the log `hookCalls`: `updateItems`, `onFinish`, and a stored finish callback.
  - The two blocking waits are loops that run the UI queue until their condition holds.
  - `Run` is proved against the folds of `LoadScript`.
- `LoadingScenarios` (scenarios.dfy) runs a fresh coordinator on concrete scripts and proves what the UI receives.
- `LibraryFileTree` (library_file_tree.dfy) holds the node as a datatype and its rules as functions. `WaitForOpening` is a loop proved against the specification function `ListedNodes`.

Two behaviours of the code are easy to misread:
- `tryResumeLoading` returns `!requested` after its update, not `!confirmed`. The two agree because every operation keeps the invariant "confirmed implies requested", which `TryResumeLoading` proves.
- `runOnFinish` runs its callback inline once the finish handler has run, provided no callback was stored before the handler ran; it then does so on every such call. A callback stored before the handler ran makes `runOnFinish` return at once on every later call, before or after the handler (`CallbackBeforeFinish`, `StoredCallbackBlocksLater` and `CallbacksAfterFinish`).

## Model

| member | source | states |
|---|---|---|
| InterruptHandshake.Apply | src/org/geometerplus/android/fbreader/network/ItemsLoadingRunnable.java:64-92 | The four operations on the flags. An interrupt request sets the request flag and returns nothing. The query returns the confirmation and changes nothing. A request survives everything but a resume. Confirmation latches, and only the poll sets it. The poll answers "stop" exactly when a request is pending or already confirmed. A resume succeeds exactly when not yet confirmed, and then withdraws the request. Each operation keeps confirmed ⇒ requested. |
| InterruptHandshake.ValidPreserved | src/org/geometerplus/android/fbreader/network/ItemsLoadingRunnable.java:64-92 | confirmed ⇒ requested holds after any sequence of handshake operations. |
| InterruptHandshake.ConfirmedLatches | src/org/geometerplus/android/fbreader/network/ItemsLoadingRunnable.java:70-77 | Once confirmed, the flags stay confirmed whatever operations follow. |
| InterruptHandshake.NoPollNoConfirmation | src/org/geometerplus/android/fbreader/network/ItemsLoadingRunnable.java:70-77 | A sequence without a poll leaves the confirmation unchanged. |
| InterruptHandshake.RequestPersists | src/org/geometerplus/android/fbreader/network/ItemsLoadingRunnable.java:64-86 | A pending request stays pending through any sequence without a resume. |
| InterruptHandshake.InterruptThenPoll | src/org/geometerplus/android/fbreader/network/ItemsLoadingRunnable.java:64-77 | After `interruptLoading`, the next poll answers "stop" unless a resume intervened, and the flags stay confirmed after anything that follows. |
| InterruptHandshake.ResumeBeforePoll | src/org/geometerplus/android/fbreader/network/ItemsLoadingRunnable.java:79-86 | A resume after a request but before the next poll succeeds and leaves neither flag set. |
| InterruptHandshake.ResumeAfterPoll | src/org/geometerplus/android/fbreader/network/ItemsLoadingRunnable.java:70-86 | A resume issued at any point after the worker polled a pending request fails, and the run stays confirmed. |
| UpdateGate.Gate | src/org/geometerplus/android/fbreader/network/ItemsLoadingRunnable.java:111-114 | An item flushes exactly when its clock reading is past the deadline. The deadline then becomes now plus the interval, and otherwise stays. With a non-negative interval it never moves back. |
| UpdateGate.DeadlineSnoc | src/org/geometerplus/android/fbreader/network/ItemsLoadingRunnable.java:111-114 | The deadline after one more item is the gate applied to the deadline the earlier items left. |
| UpdateGate.FlushTimesSnoc | src/org/geometerplus/android/fbreader/network/ItemsLoadingRunnable.java:111-114 | One more item triggers a delivery exactly when it is seen after the deadline the earlier items left. |
| UpdateGate.FlushesPassDeadline | src/org/geometerplus/android/fbreader/network/ItemsLoadingRunnable.java:111-114 | Every delivery happens strictly after the starting deadline. |
| UpdateGate.FlushesSpaced | src/org/geometerplus/android/fbreader/network/ItemsLoadingRunnable.java:111-114 | With a non-negative interval, any two deliveries are more than one interval apart. |
| UpdateGate.FirstItemFlushes | src/org/geometerplus/android/fbreader/network/ItemsLoadingRunnable.java:105-114 | The deadline starts at 0, so the first item seen at a positive time triggers a delivery. |
| UpdateGate.SparseItemsAllFlush | src/org/geometerplus/android/fbreader/network/ItemsLoadingRunnable.java:111-114 | Items that arrive more than an interval apart, the first after the deadline, each trigger a delivery. |
| UpdateGate.FlushesAreItems | src/org/geometerplus/android/fbreader/network/ItemsLoadingRunnable.java:107-114 | Deliveries are triggered only by items: there are no more of them than items, and each happens at an item's time. |
| ItemBuffer.AddUncommitted | src/org/geometerplus/android/fbreader/network/ItemsLoadingRunnable.java:176-186 | The link gets a list if it had none. The item goes to the end of that link's list, and every other link's list is unchanged. |
| ItemBuffer.CommitUncommitted | src/org/geometerplus/android/fbreader/network/ItemsLoadingRunnable.java:188-195 | The committed link's list is emptied but kept. An unknown link changes nothing, and other links are unchanged. |
| ItemBuffer.UncommittedSetMembers | src/org/geometerplus/android/fbreader/network/ItemsLoadingRunnable.java:219-225 | An item is reported exactly when some link's list holds it. |
| ItemBuffer.AddReportsItem | src/org/geometerplus/android/fbreader/network/ItemsLoadingRunnable.java:176-186 | After `addItem` the report holds exactly the earlier report plus the new item. |
| ItemBuffer.CommitReportsOthers | src/org/geometerplus/android/fbreader/network/ItemsLoadingRunnable.java:188-195 | After `commitItems(link)` an item is reported exactly when another link still lists it. |
| LoadScript.PendingPerLink | src/org/geometerplus/android/fbreader/network/ItemsLoadingRunnable.java:176-195 | After any script, a link lists an item exactly in two cases. Either the link listed it before and was never committed, or the script added it under that link after the link's last commit. |
| LoadScript.ReportedUncommitted | src/org/geometerplus/android/fbreader/network/ItemsLoadingRunnable.java:219-225 | After any script, the finish reports exactly the items that survive under some link in that sense. |
| ItemsLoading.ErrorOf | src/org/geometerplus/android/fbreader/network/ItemsLoadingRunnable.java:102-125 | The finish's error is null exactly when loading completed, and otherwise it is the exception's message. |
| ItemsLoading.CollectUncommitted | src/org/geometerplus/android/fbreader/network/ItemsLoadingRunnable.java:219-225 | The loop over the lists collects exactly the items some list holds, which is the union `UncommittedSet`. |
| ItemsLoading.ItemsLoadingRunnable.constructor | src/org/geometerplus/android/fbreader/network/ItemsLoadingRunnable.java:58-61 | A new coordinator has the given interval, both flags clear, no items, no lists, no finish, no handler, and an empty queue and log. |
| ItemsLoading.ItemsLoadingRunnable.WithDefaultInterval | src/org/geometerplus/android/fbreader/network/ItemsLoadingRunnable.java:54-56 | The same initial state, with an interval of 1000 ms. |
| ItemsLoading.ItemsLoadingRunnable.InterruptLoading | src/org/geometerplus/android/fbreader/network/ItemsLoadingRunnable.java:64-68 | The flags become `Apply(_, Interrupt)` of the old ones, and the invariant is kept. |
| ItemsLoading.ItemsLoadingRunnable.ConfirmInterruptLoading | src/org/geometerplus/android/fbreader/network/ItemsLoadingRunnable.java:70-77 | The new flags and the answer are `Apply(_, Confirm)` of the old flags. |
| ItemsLoading.ItemsLoadingRunnable.TryResumeLoading | src/org/geometerplus/android/fbreader/network/ItemsLoadingRunnable.java:79-86 | The new flags and the answer are `Apply(_, TryResume)` of the old flags. The answer is true exactly when the worker has not confirmed. |
| ItemsLoading.ItemsLoadingRunnable.IsLoadingInterrupted | src/org/geometerplus/android/fbreader/network/ItemsLoadingRunnable.java:88-92 | It reports the confirmation and changes nothing. |
| ItemsLoading.ItemsLoadingRunnable.AddItem | src/org/geometerplus/android/fbreader/network/ItemsLoadingRunnable.java:176-186 | The item is appended to the batch, and the lists become `AddUncommitted` of the old ones. |
| ItemsLoading.ItemsLoadingRunnable.CommitItems | src/org/geometerplus/android/fbreader/network/ItemsLoadingRunnable.java:188-195 | The lists become `CommitUncommitted` of the old ones, and the batch is untouched. |
| ItemsLoading.ItemsLoadingRunnable.DoUpdateItems | src/org/geometerplus/android/fbreader/network/ItemsLoadingRunnable.java:168-174 | `updateItems` receives the whole batch in insertion order, including an empty one. The batch is left empty, and the delivered items grow by exactly the batch. |
| ItemsLoading.ItemsLoadingRunnable.DoProcessFinish | src/org/geometerplus/android/fbreader/network/ItemsLoadingRunnable.java:219-232 | `onFinish` is called once with the given error and interrupted flag and the union of all lists. Then the finish is marked processed. |
| ItemsLoading.ItemsLoadingRunnable.UpdateItemsOnUiThread | src/org/geometerplus/android/fbreader/network/ItemsLoadingRunnable.java:160-166 | A delivery is queued at the back of the UI queue, and the count of posted deliveries grows by one. |
| ItemsLoading.ItemsLoadingRunnable.SendFinish | src/org/geometerplus/android/fbreader/network/ItemsLoadingRunnable.java:234-240 | A finish with the given error and flag is queued at the back of the UI queue. |
| ItemsLoading.ItemsLoadingRunnable.ProcessNext | src/org/geometerplus/android/fbreader/network/ItemsLoadingRunnable.java:160-174 | The UI thread runs the oldest message: a delivery, a finish, or a stored callback. Delivered plus pending items stay the same. Once processed, a finish stays processed. |
| ItemsLoading.ItemsLoadingRunnable.EnsureItemsProcessed | src/org/geometerplus/android/fbreader/network/ItemsLoadingRunnable.java:197-206 | When a delivery is queued for a non-empty batch, waiting ends with the batch empty. Every pending item has then been delivered, and no finish has run meanwhile. |
| ItemsLoading.ItemsLoadingRunnable.EnsureFinishProcessed | src/org/geometerplus/android/fbreader/network/ItemsLoadingRunnable.java:208-217 | With a finish queued last, waiting ends with the finish processed and the queue empty. The last call is that finish's `onFinish`, and no other `onFinish` ran since. If the finish was already processed, nothing changes. |
| ItemsLoading.ItemsLoadingRunnable.FinishStep | src/org/geometerplus/android/fbreader/network/ItemsLoadingRunnable.java:209-215 | One UI turn during that wait keeps the finish last in the queue, or runs exactly that finish. |
| ItemsLoading.ItemsLoadingRunnable.RunFinishHandler | src/org/geometerplus/android/fbreader/network/ItemsLoadingRunnable.java:133-140 | A stored callback is posted to the UI thread, and the handler is marked as run. |
| ItemsLoading.ItemsLoadingRunnable.RunOnFinish | src/org/geometerplus/android/fbreader/network/ItemsLoadingRunnable.java:143-158 | Once a callback is stored, later ones are ignored. Otherwise the callback runs at once if the handler has run, and is stored if not. |
| ItemsLoading.ItemsLoadingRunnable.Run | src/org/geometerplus/android/fbreader/network/ItemsLoadingRunnable.java:95-131 | If `doBefore` fails, only a finish with its message and "not interrupted" is queued, and nothing is loaded or waited for. Otherwise: every item found is delivered, in order, before the single finish. The finish is processed with the loading error, the confirmation flag, and the uncommitted items the script leaves. While loading, the listener's record of gated items is `FlushTimes` of the items' times, and the coordinator's count of posted deliveries grows by exactly one per gated item, plus one for the final drain. |
| ItemsLoading.ItemsLoadingRunnable.DrainAndFinish | src/org/geometerplus/android/fbreader/network/ItemsLoadingRunnable.java:127-130 | The last batch is delivered and drained before the finish is posted. The finish is then processed with the confirmation flag read after the drain. Exactly one delivery is posted. |
| ItemsLoading.ItemsLoadingRunnable.Load | src/org/geometerplus/android/fbreader/network/ItemsLoadingRunnable.java:103-125 | After the script, the flags, the lists and the delivered-plus-pending items are exactly the folds of the script. No finish has run. The listener's record of gated items is `FlushTimes` of the items' times, and the count of posted deliveries grew by the length of that record. |
| ItemsLoading.ItemsLoadingRunnable.LoadStep | src/org/geometerplus/android/fbreader/network/ItemsLoadingRunnable.java:103-121 | One more event keeps the state equal to the folds of the longer prefix. |
| ItemsLoading.ItemsLoadingRunnable.HandleEvent | src/org/geometerplus/android/fbreader/network/ItemsLoadingRunnable.java:107-121 | One event changes the flags, the lists, the items and the listener's gate exactly as its step function says, and runs no finish. The count of posted deliveries grows exactly as the listener's record of gated items does. |
| ItemsLoading.ItemListener.constructor | src/org/geometerplus/android/fbreader/network/ItemsLoadingRunnable.java:105-106 | The listener starts with deadline 0 and no items counted. |
| ItemsLoading.ItemListener.OnNewItem | src/org/geometerplus/android/fbreader/network/ItemsLoadingRunnable.java:107-115 | The item is buffered and counted. A delivery is queued, and counted as posted, exactly when the clock passed the deadline, and the deadline then becomes now plus the interval. |
| ItemsLoading.ItemListener.ConfirmInterrupt | src/org/geometerplus/android/fbreader/network/ItemsLoadingRunnable.java:116-118 | The listener's poll is the coordinator's `Apply(_, Confirm)`. |
| ItemsLoading.ItemListener.CommitItems | src/org/geometerplus/android/fbreader/network/ItemsLoadingRunnable.java:119-121 | The listener's commit as evidently intended (the corrected member of the finding below): forwarded to the coordinator, it clears that link's list. |
| ItemsLoading.ItemListener.CommitItemsAsWritten | src/org/geometerplus/android/fbreader/network/ItemsLoadingRunnable.java:119-121 | The listener's commit as written: it calls itself until the stack runs out, so it always ends in a stack overflow and clears no list. |
| ItemsLoading.ItemsLoadingRunnable.RunCommittingThroughListener | src/org/geometerplus/android/fbreader/network/ItemsLoadingRunnable.java:95-131 | `run()` as written when the loader commits through the listener after some events: the stack overflows, no final delivery is posted, no finish is queued or processed, `onFinish` never runs, and the lists are as the earlier events left them. |
| LoadingScenarios.OneLinkUncommitted | src/org/geometerplus/android/fbreader/network/ItemsLoadingRunnable.java:176-186 | Items from a single link that is never committed all stay listed under it, in discovery order. |
| LoadingScenarios.AddedAreScriptItems | src/org/geometerplus/android/fbreader/network/ItemsLoadingRunnable.java:107-109 | A script made only of new items discovers exactly those items, in order. |
| LoadingScenarios.FiveUncommittedItems | src/org/geometerplus/android/fbreader/network/ItemsLoadingRunnable.java:95-131 | Five uncommitted items and no interrupt: the UI receives all five in order, and the finish reports success, not interrupted, and all five items. |
| LoadingScenarios.InterruptConfirmed | src/org/geometerplus/android/fbreader/network/ItemsLoadingRunnable.java:95-131 | A request followed by the loader's poll makes the finish report the run as interrupted. |
| LoadingScenarios.CommitThroughListener | src/org/geometerplus/android/fbreader/network/ItemsLoadingRunnable.java:95-131 | One item, then a commit through the listener as written: the stack overflows, and no `onFinish` runs or is queued. |
| LoadingScenarios.InterruptMissed | src/org/geometerplus/android/fbreader/network/ItemsLoadingRunnable.java:95-131 | A request that comes after the loader's last poll is still pending, but the finish reports the run as not interrupted. |
| LoadingScenarios.CommitThenFailure | src/org/geometerplus/android/fbreader/network/ItemsLoadingRunnable.java:95-131 | A loading that fails after a commit through the coordinator's `commitItems` still delivers every item. The finish carries the error message and only the item added after the commit. |
| LoadingScenarios.PreparationFails | src/org/geometerplus/android/fbreader/network/ItemsLoadingRunnable.java:95-101 | When `doBefore` fails, the only call ever made is `onFinish` with its message, not interrupted, and no items. |
| LoadingScenarios.CallbackBeforeFinish | src/org/geometerplus/android/fbreader/network/ItemsLoadingRunnable.java:133-158 | Two callbacks registered before the handler runs: only the first runs, on the UI thread. |
| LoadingScenarios.StoredCallbackBlocksLater | src/org/geometerplus/android/fbreader/network/ItemsLoadingRunnable.java:133-158 | A callback stored before the handler runs, then another registered after it ran: only the first runs, on the UI thread. |
| LoadingScenarios.CallbacksAfterFinish | src/org/geometerplus/android/fbreader/network/ItemsLoadingRunnable.java:133-158 | Two callbacks registered after the handler ran: both run at once, in order. |
| LibraryFileTree.NewNamed | src/org/geometerplus/fbreader/library/FileTree.java:36-42 | The named constructor keeps the file, name and summary it is given, and the node cannot be selected. |
| LibraryFileTree.FromFile | src/org/geometerplus/fbreader/library/FileTree.java:44-63 | An archive whose path ends in `.fb2.zip`, whose single entry ends in `.fb2`, is replaced by that entry under the archive's long name. Any other file is wrapped as it is, without a name. Either way there is no summary and the node is selectable. |
| LibraryFileTree.FromFileStable | src/org/geometerplus/fbreader/library/FileTree.java:44-63 | A node's own file is never unwrapped again, because a `.fb2` path cannot end in `.fb2.zip`. So building a node for it again wraps the same file. |
| LibraryFileTree.TreeTitle | src/org/geometerplus/fbreader/library/FileTree.java:71-73 | The tree title is the node's identifier, and so the wrapped file's path. |
| LibraryFileTree.StringId | src/org/geometerplus/fbreader/library/FileTree.java:76-78 | The identifier is the wrapped file's path. |
| LibraryFileTree.GetName | src/org/geometerplus/fbreader/library/FileTree.java:66-68 | The explicit name if there is one, else the file's short name. |
| LibraryFileTree.NameOfFromFile | src/org/geometerplus/fbreader/library/FileTree.java:66-68 | A browsed node shows the archive's long name for an unwrapped book, and the file's short name otherwise. |
| LibraryFileTree.TitleOfFromFile | src/org/geometerplus/fbreader/library/FileTree.java:71-78 | A browsed node's title and identifier are the same path: that of the `.fb2` book for an unwrapped archive, else the file's own path. |
| LibraryFileTree.NamedNodeShowsOwn | src/org/geometerplus/fbreader/library/FileTree.java:66-92 | A named node shows its own name and summary when it has them. Its title and identifier are its file's path. |
| LibraryFileTree.GetSummary | src/org/geometerplus/fbreader/library/FileTree.java:81-92 | The explicit summary; else the title of the book the library has for the file; else none. |
| LibraryFileTree.SummaryOfFromFile | src/org/geometerplus/fbreader/library/FileTree.java:81-92 | A browsed node's summary always comes from the book of the file it wraps, if any. |
| LibraryFileTree.OpeningStatus | src/org/geometerplus/fbreader/library/FileTree.java:113-118 | The node cannot be opened exactly when its file is unreadable. Otherwise it is reloaded before every opening. |
| LibraryFileTree.OpeningStatusMessage | src/org/geometerplus/fbreader/library/FileTree.java:120-123 | The message is "permissionDenied" exactly when the node cannot be opened, and absent exactly when it can. |
| LibraryFileTree.CompareTo | src/org/geometerplus/fbreader/library/FileTree.java:151-159 | A directory sorts before a non-directory (-1 and +1, whatever the names). Nodes of the same kind compare by case-insensitive name. |
| LibraryFileTree.CompareToAntisymmetric | src/org/geometerplus/fbreader/library/FileTree.java:151-159 | Swapping the two nodes negates the result. |
| LibraryFileTree.CompareToZero | src/org/geometerplus/fbreader/library/FileTree.java:151-159 | Two nodes compare equal exactly when they are of the same kind and their names agree up to case. |
| LibraryFileTree.CompareToTransitive | src/org/geometerplus/fbreader/library/FileTree.java:151-159 | "Sorts before" is transitive, so the order the children are sorted by is well defined. |
| LibraryFileTree.CompareIgnoreCase | src/org/geometerplus/fbreader/library/FileTree.java:158 | A name compares equal to itself, and never to a name of another length. |
| LibraryFileTree.CompareIgnoreCaseAntisymmetric | src/org/geometerplus/fbreader/library/FileTree.java:158 | The case-insensitive name comparison is antisymmetric. |
| LibraryFileTree.CompareIgnoreCaseZero | src/org/geometerplus/fbreader/library/FileTree.java:158 | Two names compare equal exactly when they agree up to case. |
| LibraryFileTree.CompareIgnoreCaseTransitive | src/org/geometerplus/fbreader/library/FileTree.java:158 | The case-insensitive name order is transitive. |
| LibraryFileTree.ListedNodesMembers | src/org/geometerplus/fbreader/library/FileTree.java:131-136 | A node is listed exactly when it is built from an entry that is a directory, an archive, or a file some format plugin reads. |
| LibraryFileTree.ListedNodesLength | src/org/geometerplus/fbreader/library/FileTree.java:131-136 | No more nodes than entries, and one node per entry when every entry qualifies. |
| LibraryFileTree.WaitForOpening | src/org/geometerplus/fbreader/library/FileTree.java:126-138 | When the library has a book for the file, the children stay as they were. Otherwise they are replaced by the nodes of the qualifying entries, in the order of the entries. |

## Findings

| source | as written | input that shows it | evidently intended | confidence | as-written member | corrected member |
|---|---|---|---|---|---|---|
| src/org/geometerplus/android/fbreader/network/ItemsLoadingRunnable.java:119-121 | Inside the anonymous listener, the unqualified `commitItems(link)` names the listener's own `commitItems`, so the method calls itself until the stack overflows. The resulting `StackOverflowError` is not a `ZLNetworkException`, so it leaves `run()` with no final delivery and no finish. | A loader that reports one item and then calls `listener.commitItems(link)` (`CommitThroughListener`). | Forward to the coordinator, as `ItemsLoadingRunnable.this.commitItems(link)`, clearing that link's uncommitted list. | high; not executed | ItemsLoading.ItemListener.CommitItemsAsWritten | ItemsLoading.ItemListener.CommitItems |

## Left out

- Threads, `wait`/`notifyAll`, the `volatile` field and the choice of monitors are not modelled. Each synchronized block is one atomic method. A run's interleaving is given as a script of events, and the UI thread is a FIFO queue that the waits run themselves.
- `Activity.runOnUiThread` and the Android `Handler`/`Message` are not modelled; they become queue entries. The finish handler is a stored callback. `runOnFinish` creates the `Handler` on its caller's thread; it is assumed to be called on the UI thread, so the stored callback's message goes to `uiQueue`.
- `runOnFinish` reads the stored handler before taking the lock. The race this allows is not modelled.
- `System.currentTimeMillis()` is not modelled; each new item carries its clock reading.
- `ItemsLoading.ItemListener.OnNewItem`: `now + interval` is unbounded here. Java's `long` wrap-around on overflow is not modelled.
- `doBefore`, `doLoading` and `ZLNetworkException` are not modelled. They become an outcome, which is normal completion or a failure with a message, plus the event script. A null exception message is not distinguished from a present one.
- Only `ZLNetworkException` is caught by `run()`. An unchecked exception from `doBefore` or `doLoading` leaves `run()` without ever sending a finish; the model has no such outcome, except for the stack overflow of the listener's commit (`RunCommittingThroughListener`).
- `ItemsLoading.ItemsLoadingRunnable.Run`: the coordinator is modelled as single-use, so `Run` requires that no finish has been processed yet. The source accepts a second `run()`, but `myFinishProcessed` is never reset, so its `ensureFinishProcessed` would return before the second finish is processed. That second run is not modelled.
- The hooks `updateItems` and `onFinish`, and a stored finish callback, are assumed not to call back into the coordinator. `Run`'s promise that the UI queue ends empty holds only under that assumption.
- `updateItems`, `onFinish` and `getResourceKey` are abstract in the source. The first two are recorded calls; `getResourceKey` is not part of this model.
- `ItemsLoading.ItemsLoadingRunnable.DoUpdateItems`: `updateItems` receives the batch as a value. In the source it receives the live list that is cleared right after, so a callee that keeps the reference sees it emptied. That aliasing is not modelled.
- `myItemsNumber` is counted (`itemsNumber`) but never read, as in the source.
- Items and links are compared only by equality. `NetworkItem` hashing, and the order of the `HashSet` passed to `onFinish`, are not modelled; the model reports a set.
- The file system, archive access, `Library.getCover`/`createCover`, `Book.getByFile` and `PluginCollection` are not modelled. They become the file datatype, a map from files to books, and a plugin predicate.
- The parent link of a node, and `LibraryTree`'s `clear`/`sortAllChildren` (the parent class is not part of this model), are not modelled. `LibraryFileTree.WaitForOpening` returns the new children in the order of the file's entries. The sort is not modelled; the order it would use is proved antisymmetric and transitive.
- `LibraryFileTree.CompareIgnoreCaseZero`: Java's `compareToIgnoreCase` folds case over all of Unicode. The model folds only ASCII letters.
- `FileTree.equals` is not modelled. It returns true for any object that is not a `FileTree`, which breaks symmetry, and no property is built on it.
- `isSelectable`, `getFile` and `getBook` are field and map reads; they appear as the fields `isSelectable` and `file` and as the map `books`.
