/**
 * The coordinator of a background catalog load (`ItemsLoadingRunnable`).
 *
 * A worker runs `doBefore` and `doLoading`; the loader reports items through
 * a listener that buffers them, schedules deliveries to the UI thread on a
 * time gate, and polls the interrupt handshake. At the end the worker
 * drains the last batch, posts the finish and waits until the UI thread
 * has processed it.
 *
 * The UI thread is an explicit FIFO queue of messages (`uiQueue`) that
 * `ProcessNext` runs one at a time; every call into code the coordinator
 * does not own (`updateItems`, `onFinish`, a stored finish callback) is
 * recorded in `hookCalls`. Each synchronized block is one atomic method.
 */
module ItemsLoading {
  import opened Wrappers
  import opened ItemBuffer
  import opened LoadScript
  import InterruptHandshake
  import UpdateGate

  /** A `Runnable` handed to `runOnFinish`; only its identity matters. */
  type Callback(==)

  /** The update interval, in milliseconds, of the one-argument constructor. */
  const DefaultUpdateInterval: int := 1000

  /** A message waiting on the UI thread's queue. */
  datatype UiTask =
    | UpdateItemsTask                                                     // posted by updateItemsOnUiThread
    | ProcessFinishTask(errorMessage: Option<string>, interrupted: bool)  // posted by sendFinish
    | HandlerMessage(callback: Callback)                                  // posted to the finish handler

  /** A call the coordinator makes into code it does not own. */
  datatype HookCall =
    | UpdateItemsCall(items: seq<Item>)
    | OnFinishCall(errorMessage: Option<string>, interrupted: bool, uncommitted: set<Item>)
    | CallbackRun(callback: Callback)

  /** How `doBefore` or `doLoading` ended: normally, or with a network exception and its message. */
  datatype Outcome = Completed | Failed(message: string)

  /** How a commit through the listener ends: the lists are committed, or the worker's stack overflows. */
  datatype CommitOutcome = Committed | StackOverflow

  /** The error message a finish reports for a loading outcome (null when loading completed). */
  function ErrorOf(o: Outcome): (e: Option<string>)
    ensures e.None? <==> o.Completed?
    ensures o.Failed? ==> e.value == o.message
  {
    match o
    case Completed => None
    case Failed(message) => Some(message)
  }

  /** The items handed to `updateItems` over a log of calls, batch after batch. */
  function Delivered(calls: seq<HookCall>): seq<Item>
    decreases |calls|
  {
    if calls == [] then []
    else
      var c := calls[|calls| - 1];
      Delivered(calls[..|calls| - 1]) + (if c.UpdateItemsCall? then c.items else [])
  }

  lemma DeliveredSnoc(calls: seq<HookCall>, c: HookCall)
    ensures Delivered(calls + [c]) == Delivered(calls) + (if c.UpdateItemsCall? then c.items else [])
  {
    assert (calls + [c])[..|calls|] == calls;
  }

  /** No finish is waiting in the queue. */
  predicate NoFinishTask(q: seq<UiTask>)
  {
    forall k :: 0 <= k < |q| ==> !q[k].ProcessFinishTask?
  }

  /** `calls` is `prefix` followed by calls other than `onFinish`. */
  predicate ExtendsWithoutFinish(calls: seq<HookCall>, prefix: seq<HookCall>)
  {
    && |calls| >= |prefix| && calls[..|prefix|] == prefix
    && forall k :: |prefix| <= k < |calls| ==> !calls[k].OnFinishCall?
  }

  lemma ExtendsReflexive(calls: seq<HookCall>)
    ensures ExtendsWithoutFinish(calls, calls)
  {
    assert calls[..|calls|] == calls;
  }

  lemma NoFinishSnoc(q: seq<UiTask>, t: UiTask)
    requires NoFinishTask(q) && !t.ProcessFinishTask?
    ensures NoFinishTask(q + [t])
  {
  }

  lemma NoFinishTail(q: seq<UiTask>)
    requires q != [] && NoFinishTask(q)
    ensures NoFinishTask(q[1..]) && !q[0].ProcessFinishTask?
  {
  }

  lemma ExtendsTransitive(a: seq<HookCall>, b: seq<HookCall>, c: seq<HookCall>)
    requires ExtendsWithoutFinish(b, a) && ExtendsWithoutFinish(c, b)
    ensures ExtendsWithoutFinish(c, a)
  {
    forall k | |a| <= k < |c|
      ensures !c[k].OnFinishCall?
    {
      if k < |b| {
        assert c[k] == c[..|b|][k] == b[k];
      }
    }
    assert c[..|a|] == c[..|b|][..|a|];
  }

  /** The union of the uncommitted lists, computed as `doProcessFinish` does, list by list. */
  method CollectUncommitted(m: Uncommitted) returns (reported: set<Item>)
    ensures forall x :: x in reported <==> exists l :: l in m && x in m[l]
    ensures reported == UncommittedSet(m)
  {
    reported := {};
    var pending := m.Keys;
    while pending != {}
      invariant pending <= m.Keys
      invariant forall x :: x in reported <==> exists l :: l in m && l !in pending && x in m[l]
      decreases pending
    {
      var l :| l in pending;
      reported := reported + set x | x in m[l];
      pending := pending - {l};
    }
  }

  class ItemsLoadingRunnable {
    const updateInterval: int

    // the interrupt handshake, guarded by the interrupt lock
    var interruptRequested: bool
    var interruptConfirmed: bool

    // the pending batch and the uncommitted lists, guarded by the items monitor
    var items: seq<Item>
    var uncommitted: Uncommitted

    // set once the UI thread has run onFinish
    var finishProcessed: bool

    // the finish handler: set by runFinishHandler; the callback stored by runOnFinish
    var finished: bool
    var finishedHandler: Option<Callback>

    // the UI thread's message queue and the calls it made into foreign code
    var uiQueue: seq<UiTask>
    var hookCalls: seq<HookCall>
    // how many deliveries have been posted to the UI thread
    ghost var posted: nat

    function Flags(): InterruptHandshake.Flags
      reads this
    {
      InterruptHandshake.Flags(interruptRequested, interruptConfirmed)
    }

    ghost predicate Valid()
      reads this
    {
      Flags().Valid()
    }

    constructor (updateIntervalMillis: int)
      ensures Valid() && updateInterval == updateIntervalMillis
      ensures Flags() == InterruptHandshake.Initial
      ensures items == [] && uncommitted == map[] && !finishProcessed
      ensures !finished && finishedHandler == None
      ensures uiQueue == [] && hookCalls == [] && posted == 0
    {
      updateInterval := updateIntervalMillis;
      interruptRequested, interruptConfirmed := false, false;
      items, uncommitted, finishProcessed := [], map[], false;
      finished, finishedHandler := false, None;
      uiQueue, hookCalls, posted := [], [], 0;
    }

    constructor WithDefaultInterval()
      ensures Valid() && updateInterval == DefaultUpdateInterval
      ensures Flags() == InterruptHandshake.Initial
      ensures items == [] && uncommitted == map[] && !finishProcessed
      ensures !finished && finishedHandler == None
      ensures uiQueue == [] && hookCalls == [] && posted == 0
    {
      updateInterval := DefaultUpdateInterval;
      interruptRequested, interruptConfirmed := false, false;
      items, uncommitted, finishProcessed := [], map[], false;
      finished, finishedHandler := false, None;
      uiQueue, hookCalls, posted := [], [], 0;
    }

    // ---- interrupt handshake

    method InterruptLoading()
      requires Valid()
      modifies this`interruptRequested
      ensures Valid()
      ensures Flags() == InterruptHandshake.Apply(old(Flags()), InterruptHandshake.Interrupt).flags
    {
      interruptRequested := true;
    }

    method ConfirmInterruptLoading() returns (stop: bool)
      requires Valid()
      modifies this`interruptConfirmed
      ensures Valid()
      ensures InterruptHandshake.Outcome(Flags(), stop) == InterruptHandshake.Apply(old(Flags()), InterruptHandshake.Confirm)
    {
      if interruptRequested {
        interruptConfirmed := true;
      }
      stop := interruptConfirmed;
    }

    method TryResumeLoading() returns (resumed: bool)
      requires Valid()
      modifies this`interruptRequested
      ensures Valid()
      ensures InterruptHandshake.Outcome(Flags(), resumed) == InterruptHandshake.Apply(old(Flags()), InterruptHandshake.TryResume)
      ensures resumed == !interruptConfirmed
    {
      if !interruptConfirmed {
        interruptRequested := false;
      }
      resumed := !interruptRequested;
    }

    method IsLoadingInterrupted() returns (interrupted: bool)
      ensures InterruptHandshake.Outcome(Flags(), interrupted) == InterruptHandshake.Apply(Flags(), InterruptHandshake.IsInterrupted)
    {
      interrupted := interruptConfirmed;
    }

    // ---- item buffer

    method AddItem(link: Link, item: Item)
      modifies this`items, this`uncommitted
      ensures items == old(items) + [item]
      ensures uncommitted == AddUncommitted(old(uncommitted), link, item)
    {
      items := items + [item];
      var list := if link in uncommitted then uncommitted[link] else [];
      uncommitted := uncommitted[link := list + [item]];
    }

    method CommitItems(link: Link)
      modifies this`uncommitted
      ensures uncommitted == CommitUncommitted(old(uncommitted), link)
    {
      if link in uncommitted {
        uncommitted := uncommitted[link := []];
      }
    }

    /** Runs on the UI thread: hands the batch to `updateItems` and empties it. */
    method DoUpdateItems()
      modifies this`items, this`hookCalls
      ensures items == []
      ensures hookCalls == old(hookCalls) + [UpdateItemsCall(old(items))]
      ensures Delivered(hookCalls) == old(Delivered(hookCalls) + items)
    {
      hookCalls := hookCalls + [UpdateItemsCall(items)];
      DeliveredSnoc(old(hookCalls), UpdateItemsCall(items));
      items := [];
    }

    /** Runs on the UI thread: reports the uncommitted items to `onFinish`. */
    method DoProcessFinish(errorMessage: Option<string>, interrupted: bool)
      modifies this`hookCalls, this`finishProcessed
      ensures finishProcessed
      ensures hookCalls == old(hookCalls) + [OnFinishCall(errorMessage, interrupted, UncommittedSet(uncommitted))]
    {
      var reported := CollectUncommitted(uncommitted);
      hookCalls := hookCalls + [OnFinishCall(errorMessage, interrupted, reported)];
      finishProcessed := true;
    }

    // ---- posting to the UI thread

    method UpdateItemsOnUiThread()
      modifies this`uiQueue, this`posted
      ensures uiQueue == old(uiQueue) + [UpdateItemsTask]
      ensures posted == old(posted) + 1
    {
      uiQueue := uiQueue + [UpdateItemsTask];
      posted := posted + 1;
    }

    method SendFinish(errorMessage: Option<string>, interrupted: bool)
      modifies this`uiQueue
      ensures uiQueue == old(uiQueue) + [ProcessFinishTask(errorMessage, interrupted)]
    {
      uiQueue := uiQueue + [ProcessFinishTask(errorMessage, interrupted)];
    }

    /** The UI thread runs the oldest message of its queue. */
    method ProcessNext()
      requires uiQueue != []
      modifies this`uiQueue, this`items, this`hookCalls, this`finishProcessed
      ensures uiQueue == old(uiQueue[1..])
      ensures Delivered(hookCalls) + items == old(Delivered(hookCalls) + items)
      ensures old(uiQueue[0]).UpdateItemsTask? ==>
                items == [] && finishProcessed == old(finishProcessed) &&
                hookCalls == old(hookCalls) + [UpdateItemsCall(old(items))]
      ensures old(uiQueue[0]).ProcessFinishTask? ==>
                items == old(items) && finishProcessed &&
                hookCalls == old(hookCalls) + [OnFinishCall(old(uiQueue[0]).errorMessage, old(uiQueue[0]).interrupted, UncommittedSet(uncommitted))]
      ensures old(uiQueue[0]).HandlerMessage? ==>
                items == old(items) && finishProcessed == old(finishProcessed) &&
                hookCalls == old(hookCalls) + [CallbackRun(old(uiQueue[0]).callback)]
    {
      var task := uiQueue[0];
      uiQueue := uiQueue[1..];
      match task
      case UpdateItemsTask =>
        DoUpdateItems();
      case ProcessFinishTask(errorMessage, interrupted) =>
        DeliveredSnoc(hookCalls, OnFinishCall(errorMessage, interrupted, UncommittedSet(uncommitted)));
        DoProcessFinish(errorMessage, interrupted);
      case HandlerMessage(callback) =>
        DeliveredSnoc(hookCalls, CallbackRun(callback));
        hookCalls := hookCalls + [CallbackRun(callback)];
    }

    // ---- the two waits of the worker

    /**
     * Waits until the batch is empty, the UI thread running its queue
     * meanwhile. A non-empty batch must have a delivery queued.
     */
    method EnsureItemsProcessed()
      requires items != [] ==> UpdateItemsTask in uiQueue
      requires NoFinishTask(uiQueue)
      modifies this`uiQueue, this`items, this`hookCalls, this`finishProcessed
      ensures items == []
      ensures Delivered(hookCalls) == old(Delivered(hookCalls) + items)
      ensures finishProcessed == old(finishProcessed) && NoFinishTask(uiQueue)
      ensures ExtendsWithoutFinish(hookCalls, old(hookCalls))
    {
      while items != []
        invariant items != [] ==> UpdateItemsTask in uiQueue
        invariant NoFinishTask(uiQueue)
        invariant finishProcessed == old(finishProcessed)
        invariant Delivered(hookCalls) + items == old(Delivered(hookCalls) + items)
        invariant ExtendsWithoutFinish(hookCalls, old(hookCalls))
        decreases |uiQueue|
      {
        ghost var q := uiQueue;
        ProcessNext();
        if q[0] != UpdateItemsTask {
          var k :| 0 <= k < |q| && q[k] == UpdateItemsTask;
          assert uiQueue[k - 1] == UpdateItemsTask;
        }
      }
    }

    /** The finish `last` is queued last, and no other finish is queued. */
    ghost predicate AwaitingFinish(last: UiTask)
      reads this
    {
      uiQueue != [] && uiQueue[|uiQueue| - 1] == last && last.ProcessFinishTask? && NoFinishTask(uiQueue[..|uiQueue| - 1])
    }

    /** The queue is empty and the last call is the `onFinish` of `last`, preceded only by other calls since `start`. */
    ghost predicate FinishDone(last: UiTask, start: seq<HookCall>)
      reads this
      requires last.ProcessFinishTask?
    {
      && uiQueue == [] && |hookCalls| > 0
      && ExtendsWithoutFinish(hookCalls[..|hookCalls| - 1], start)
      && hookCalls[|hookCalls| - 1] == OnFinishCall(last.errorMessage, last.interrupted, UncommittedSet(uncommitted))
    }

    /**
     * Waits until the finish has been processed, the UI thread running its
     * queue meanwhile. A finish must be queued last, and only once.
     */
    method EnsureFinishProcessed()
      requires finishProcessed ||
               (uiQueue != [] && uiQueue[|uiQueue| - 1].ProcessFinishTask? && NoFinishTask(uiQueue[..|uiQueue| - 1]))
      modifies this`uiQueue, this`items, this`hookCalls, this`finishProcessed
      ensures finishProcessed
      ensures old(finishProcessed) ==> uiQueue == old(uiQueue) && items == old(items) && hookCalls == old(hookCalls)
      ensures old(items) == [] ==> items == []
      ensures !old(finishProcessed) ==>
                && uiQueue == []
                && Delivered(hookCalls) + items == old(Delivered(hookCalls) + items)
                && |hookCalls| > 0 && ExtendsWithoutFinish(hookCalls[..|hookCalls| - 1], old(hookCalls))
                && hookCalls[|hookCalls| - 1] ==
                   OnFinishCall(old(uiQueue[|uiQueue| - 1]).errorMessage, old(uiQueue[|uiQueue| - 1]).interrupted, UncommittedSet(uncommitted))
    {
      if finishProcessed {
        return;
      }
      ghost var last := uiQueue[|uiQueue| - 1];
      while !finishProcessed
        invariant !finishProcessed ==> AwaitingFinish(last) && ExtendsWithoutFinish(hookCalls, old(hookCalls))
        invariant finishProcessed ==> FinishDone(last, old(hookCalls))
        invariant old(items) == [] ==> items == []
        invariant Delivered(hookCalls) + items == old(Delivered(hookCalls) + items)
        decreases |uiQueue|
      {
        FinishStep(last, old(hookCalls));
      }
    }

    /** One turn of the UI thread while the worker waits for the finish `last`. */
    method FinishStep(ghost last: UiTask, ghost start: seq<HookCall>)
      requires !finishProcessed && AwaitingFinish(last) && ExtendsWithoutFinish(hookCalls, start)
      modifies this`uiQueue, this`items, this`hookCalls, this`finishProcessed
      ensures |uiQueue| < old(|uiQueue|)
      ensures old(items) == [] ==> items == []
      ensures Delivered(hookCalls) + items == old(Delivered(hookCalls) + items)
      ensures !finishProcessed ==> AwaitingFinish(last) && ExtendsWithoutFinish(hookCalls, start)
      ensures finishProcessed ==> FinishDone(last, start)
    {
      ghost var q, calls := uiQueue, hookCalls;
      if q[0].ProcessFinishTask? {
        assert |q| == 1;
      }
      ProcessNext();
      if q[0].ProcessFinishTask? {
        assert hookCalls[..|hookCalls| - 1] == calls;
      } else {
        assert uiQueue[..|uiQueue| - 1] == q[..|q| - 1][1..];
        assert ExtendsWithoutFinish(hookCalls, calls);
        ExtendsTransitive(start, calls, hookCalls);
      }
    }

    // ---- the finish handler

    method RunFinishHandler()
      modifies this`uiQueue, this`finished
      ensures finished
      ensures uiQueue == old(uiQueue) + (if finishedHandler.Some? then [HandlerMessage(finishedHandler.value)] else [])
    {
      if finishedHandler.Some? {
        uiQueue := uiQueue + [HandlerMessage(finishedHandler.value)];
      }
      finished := true;
    }

    /**
     * Runs `callback` at once when the finish handler has already run, and
     * otherwise stores it for the handler; ignored once a callback is stored.
     */
    method RunOnFinish(callback: Callback)
      modifies this`finishedHandler, this`hookCalls
      ensures old(finishedHandler).Some? ==> finishedHandler == old(finishedHandler) && hookCalls == old(hookCalls)
      ensures old(finishedHandler).None? && finished ==>
                finishedHandler == None && hookCalls == old(hookCalls) + [CallbackRun(callback)]
      ensures old(finishedHandler).None? && !finished ==>
                finishedHandler == Some(callback) && hookCalls == old(hookCalls)
    {
      if finishedHandler.Some? {
        return;
      }
      if finished {
        hookCalls := hookCalls + [CallbackRun(callback)];
      } else {
        finishedHandler := Some(callback);
      }
    }

    // ---- the worker

    /**
     * The worker's `run()`: `before` is how `doBefore` ended, `script` what
     * happened while `doLoading` ran and `loading` how it ended.
     */
    method Run(before: Outcome, script: seq<Event>, loading: Outcome) returns (ghost flushes: seq<int>)
      requires Valid()
      requires !finishProcessed && NoFinishTask(uiQueue)
      modifies this`interruptRequested, this`interruptConfirmed, this`items, this`uncommitted,
               this`uiQueue, this`hookCalls, this`finishProcessed, this`posted
      ensures Valid()
      // doBefore failed: only the finish is posted, not waited for
      ensures before.Failed? ==>
                && uiQueue == old(uiQueue) + [ProcessFinishTask(Some(before.message), false)]
                && items == old(items) && uncommitted == old(uncommitted)
                && hookCalls == old(hookCalls) && Flags() == old(Flags()) && !finishProcessed
                && posted == old(posted)
      // otherwise every item is delivered, in order, before the one finish, which is processed
      ensures before.Completed? ==>
                && finishProcessed && items == [] && uiQueue == []
                && uncommitted == UncommittedAfter(old(uncommitted), script)
                && Flags() == InterruptHandshake.After(old(Flags()), HandshakeOps(script))
                && Delivered(hookCalls) == old(Delivered(hookCalls) + items) + AddedItems(script)
                && |hookCalls| > 0 && ExtendsWithoutFinish(hookCalls[..|hookCalls| - 1], old(hookCalls))
                && hookCalls[|hookCalls| - 1] == OnFinishCall(ErrorOf(loading), interruptConfirmed, UncommittedSet(uncommitted))
      // while loading, the listener posted one delivery for each item the time gate let through, and the drain one more
      ensures flushes == if before.Failed? then [] else UpdateGate.FlushTimes(0, updateInterval, ItemTimes(script))
      ensures before.Completed? ==> posted == old(posted) + |flushes| + 1
    {
      if before.Failed? {
        SendFinish(Some(before.message), false);
        return [];
      }
      var listener := new ItemListener(this);
      flushes := Load(listener, script);
      ghost var calls, batch := hookCalls, items;
      DrainAndFinish(ErrorOf(loading));
      assert Delivered(hookCalls) == Delivered(calls) + batch;
      ExtendsTransitive(old(hookCalls), calls, hookCalls[..|hookCalls| - 1]);
    }

    /**
     * `run()` as written when `doBefore` completes and the loader, after the
     * events of `script`, commits `link` through the listener: that commit
     * never returns (`ItemListener.CommitItemsAsWritten`), and the error it
     * ends in is not a `ZLNetworkException`, so it leaves `run()` before the
     * final delivery and the finish. `frames` is the room left on the stack.
     */
    method RunCommittingThroughListener(script: seq<Event>, link: Link, frames: nat) returns (outcome: CommitOutcome)
      requires Valid()
      requires !finishProcessed && NoFinishTask(uiQueue)
      modifies this`interruptRequested, this`interruptConfirmed, this`items, this`uncommitted,
               this`uiQueue, this`hookCalls, this`finishProcessed, this`posted
      ensures outcome == StackOverflow
      // no finish is posted or processed, and `onFinish` never runs
      ensures !finishProcessed && NoFinishTask(uiQueue)
      ensures ExtendsWithoutFinish(hookCalls, old(hookCalls))
      // the commit cleared nothing, and the final delivery is never posted
      ensures uncommitted == UncommittedAfter(old(uncommitted), script)
      ensures posted == old(posted) + |UpdateGate.FlushTimes(0, updateInterval, ItemTimes(script))|
    {
      var listener := new ItemListener(this);
      ghost var flushes := Load(listener, script);
      outcome := listener.CommitItemsAsWritten(link, frames);
    }

    /** The end of `run()` after loading: deliver the last batch, wait for it, post the finish and wait for that. */
    method DrainAndFinish(error: Option<string>)
      requires !finishProcessed && NoFinishTask(uiQueue)
      modifies this`uiQueue, this`items, this`hookCalls, this`finishProcessed, this`posted
      ensures posted == old(posted) + 1
      ensures finishProcessed && items == [] && uiQueue == []
      ensures Delivered(hookCalls) == old(Delivered(hookCalls) + items)
      ensures |hookCalls| > 0 && ExtendsWithoutFinish(hookCalls[..|hookCalls| - 1], old(hookCalls))
      ensures hookCalls[|hookCalls| - 1] == OnFinishCall(error, interruptConfirmed, UncommittedSet(uncommitted))
    {
      UpdateItemsOnUiThread();
      EnsureItemsProcessed();
      ghost var drained := hookCalls;
      var interrupted := IsLoadingInterrupted();
      SendFinish(error, interrupted);
      EnsureFinishProcessed();
      assert Delivered(hookCalls) == Delivered(hookCalls) + items == Delivered(drained);
      ExtendsTransitive(old(hookCalls), drained, hookCalls[..|hookCalls| - 1]);
    }

    /**
     * `doLoading` with the new listener `run()` builds for it: the events of
     * `script` happen one after the other.
     */
    method Load(listener: ItemListener, script: seq<Event>) returns (ghost flushes: seq<int>)
      requires Valid() && listener.runnable == this && listener.updateTime == 0 && listener.flushTimes == []
      requires !finishProcessed && NoFinishTask(uiQueue)
      modifies this`interruptRequested, this`interruptConfirmed, this`items, this`uncommitted,
               this`uiQueue, this`hookCalls, this`finishProcessed, this`posted, listener
      ensures Valid()
      ensures !finishProcessed && NoFinishTask(uiQueue)
      ensures Flags() == InterruptHandshake.After(old(Flags()), HandshakeOps(script))
      ensures uncommitted == UncommittedAfter(old(uncommitted), script)
      ensures Delivered(hookCalls) + items == old(Delivered(hookCalls) + items) + AddedItems(script)
      ensures ExtendsWithoutFinish(hookCalls, old(hookCalls))
      // the listener posted a delivery for exactly the items the time gate let through
      ensures flushes == UpdateGate.FlushTimes(0, updateInterval, ItemTimes(script))
      ensures posted == old(posted) + |flushes|
    {
      ghost var flags0, unc0, sofar0, calls0, posted0 := Flags(), uncommitted, Delivered(hookCalls) + items, hookCalls, posted;
      assert script[..0] == [];
      ExtendsReflexive(hookCalls);
      var i := 0;
      while i < |script|
        invariant 0 <= i <= |script|
        invariant LoadedUpTo(listener, flags0, unc0, sofar0, calls0, posted0, script[..i])
      {
        LoadStep(listener, flags0, unc0, sofar0, calls0, posted0, script, i);
        i := i + 1;
      }
      assert script[..i] == script;
      flushes := listener.flushTimes;
    }

    /**
     * The state after the events `done`, from the flags `flags0`, the lists
     * `unc0`, the items `sofar0` delivered or pending, the calls `calls0`
     * and the count `posted0` of deliveries posted.
     */
    ghost predicate LoadedUpTo(listener: ItemListener, flags0: InterruptHandshake.Flags, unc0: Uncommitted,
                               sofar0: seq<Item>, calls0: seq<HookCall>, posted0: nat, done: seq<Event>)
      reads this, listener
    {
      && Valid() && !finishProcessed && NoFinishTask(uiQueue)
      && Flags() == InterruptHandshake.After(flags0, HandshakeOps(done))
      && uncommitted == UncommittedAfter(unc0, done)
      && Delivered(hookCalls) + items == sofar0 + AddedItems(done)
      && ExtendsWithoutFinish(hookCalls, calls0)
      && listener.Saw(ItemTimes(done))
      && posted == posted0 + |listener.flushTimes|
    }

    /** The loading loop's body: the next event of the script. */
    method LoadStep(listener: ItemListener, ghost flags0: InterruptHandshake.Flags, ghost unc0: Uncommitted,
                    ghost sofar0: seq<Item>, ghost calls0: seq<HookCall>, ghost posted0: nat, script: seq<Event>, i: nat)
      requires i < |script| && listener.runnable == this
      requires LoadedUpTo(listener, flags0, unc0, sofar0, calls0, posted0, script[..i])
      modifies this`interruptRequested, this`interruptConfirmed, this`items, this`uncommitted,
               this`uiQueue, this`hookCalls, this`finishProcessed, this`posted, listener
      ensures LoadedUpTo(listener, flags0, unc0, sofar0, calls0, posted0, script[..i + 1])
    {
      FoldsStep(unc0, script, i);
      GateStep(updateInterval, script, i);
      FlagsStep(flags0, script, i);
      ghost var calls := hookCalls;
      HandleEvent(listener, script[i]);
      ExtendsTransitive(calls0, calls, hookCalls);
    }

    /** One event of the loading script: a listener call, a controller call, or a turn of the UI thread. */
    method HandleEvent(listener: ItemListener, e: Event)
      requires Valid() && listener.runnable == this
      requires !finishProcessed && NoFinishTask(uiQueue)
      modifies this`interruptRequested, this`interruptConfirmed, this`items, this`uncommitted,
               this`uiQueue, this`hookCalls, this`finishProcessed, this`posted, listener
      ensures Valid()
      ensures !finishProcessed && NoFinishTask(uiQueue)
      ensures Flags() == FlagsAfterEvent(old(Flags()), e)
      ensures uncommitted == StepUncommitted(old(uncommitted), e)
      ensures Delivered(hookCalls) + items == old(Delivered(hookCalls) + items) + NewItems(e)
      ensures ExtendsWithoutFinish(hookCalls, old(hookCalls))
      ensures e.NewItem? ==>
                var d := UpdateGate.Gate(old(listener.updateTime), updateInterval, e.now);
                listener.updateTime == d.deadline && listener.flushTimes == old(listener.flushTimes) + (if d.flush then [e.now] else [])
      ensures !e.NewItem? ==> listener.updateTime == old(listener.updateTime) && listener.flushTimes == old(listener.flushTimes)
      ensures posted == old(posted) + |listener.flushTimes| - |old(listener.flushTimes)|
    {
      ExtendsReflexive(hookCalls);
      match e {
        case NewItem(link, item, now) =>
          NoFinishSnoc(uiQueue, UpdateItemsTask);
          listener.OnNewItem(link, item, now);
        case ConfirmInterrupt =>
          var _ := listener.ConfirmInterrupt();
        case CommitItems(link) =>
          this.CommitItems(link);
        case RequestInterrupt =>
          InterruptLoading();
        case ResumeLoading =>
          var _ := TryResumeLoading();
        case UiTurn =>
          if uiQueue != [] {
            NoFinishTail(uiQueue);
            ghost var calls := hookCalls;
            ProcessNext();
            assert hookCalls[..|calls|] == calls;
          }
      }
    }
  }

  /** The listener `run()` hands to `doLoading`, with its own clock deadline and item count. */
  class ItemListener {
    const runnable: ItemsLoadingRunnable
    var updateTime: int
    var itemsNumber: nat
    // the clock readings of the items that posted a delivery
    ghost var flushTimes: seq<int>

    /** The gate's state after items seen at `times`. */
    ghost predicate Saw(times: seq<int>)
      reads this
    {
      && updateTime == UpdateGate.DeadlineAfter(0, runnable.updateInterval, times)
      && flushTimes == UpdateGate.FlushTimes(0, runnable.updateInterval, times)
    }

    constructor (runnable: ItemsLoadingRunnable)
      ensures this.runnable == runnable && updateTime == 0 && itemsNumber == 0 && flushTimes == []
    {
      this.runnable := runnable;
      updateTime, itemsNumber := 0, 0;
      flushTimes := [];
    }

    /** Buffers the item and, when the time gate opens, posts a delivery. */
    method OnNewItem(link: Link, item: Item, now: int)
      modifies this, runnable`items, runnable`uncommitted, runnable`uiQueue, runnable`posted
      ensures runnable.items == old(runnable.items) + [item]
      ensures runnable.uncommitted == AddUncommitted(old(runnable.uncommitted), link, item)
      ensures itemsNumber == old(itemsNumber) + 1
      ensures var d := UpdateGate.Gate(old(updateTime), runnable.updateInterval, now);
              && updateTime == d.deadline
              && flushTimes == old(flushTimes) + (if d.flush then [now] else [])
              && runnable.uiQueue == old(runnable.uiQueue) + (if d.flush then [UpdateItemsTask] else [])
              && runnable.posted == old(runnable.posted) + (if d.flush then 1 else 0)
    {
      runnable.AddItem(link, item);
      itemsNumber := itemsNumber + 1;
      if now > updateTime {
        runnable.UpdateItemsOnUiThread();
        updateTime := now + runnable.updateInterval;
        flushTimes := flushTimes + [now];
      }
    }

    method ConfirmInterrupt() returns (stop: bool)
      requires runnable.Valid()
      modifies runnable`interruptConfirmed
      ensures runnable.Valid()
      ensures InterruptHandshake.Outcome(runnable.Flags(), stop) ==
              InterruptHandshake.Apply(old(runnable.Flags()), InterruptHandshake.Confirm)
    {
      stop := runnable.ConfirmInterruptLoading();
    }

    /** The listener's commit as evidently intended: forwarded to the coordinator's `commitItems`. */
    method CommitItems(link: Link)
      modifies runnable`uncommitted
      ensures runnable.uncommitted == CommitUncommitted(old(runnable.uncommitted), link)
    {
      runnable.CommitItems(link);
    }

    /**
     * The listener's commit as written: the unqualified call in its body
     * names the listener's own `commitItems`, not the coordinator's, so each
     * call makes another. `frames` is the room left on the worker's stack;
     * the calls end only when it runs out, and no list is ever cleared.
     */
    method CommitItemsAsWritten(link: Link, frames: nat) returns (outcome: CommitOutcome)
      ensures outcome == StackOverflow
      decreases frames
    {
      if frames == 0 {
        outcome := StackOverflow;
      } else {
        outcome := CommitItemsAsWritten(link, frames - 1);
      }
    }
  }
}
