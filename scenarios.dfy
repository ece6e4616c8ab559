/**
 * Whole runs of a fresh coordinator, as a caller sees them: what the UI
 * receives and what the finish reports.
 */
module LoadingScenarios {
  import opened Wrappers
  import opened ItemBuffer
  import opened LoadScript
  import opened ItemsLoading
  import InterruptHandshake

  /** A script of new items from a single link only. */
  predicate ItemsOf(link: Link, s: seq<Event>)
  {
    forall k :: 0 <= k < |s| ==> s[k].NewItem? && s[k].link == link
  }

  /** Items from a single link, never committed, all stay listed under it, and nothing touches the handshake. */
  lemma {:induction false} OneLinkUncommitted(link: Link, s: seq<Event>)
    requires ItemsOf(link, s)
    ensures UncommittedAfter(map[], s) == if s == [] then map[] else map[link := AddedItems(s)]
    ensures HandshakeOps(s) == []
    decreases |s|
  {
    if s != [] {
      var p, e := s[..|s| - 1], s[|s| - 1];
      assert s == p + [e];
      FoldsSnoc(map[], p, e);
      OneLinkUncommitted(link, p);
      if p == [] {
        assert AddedItems(s) == [e.item];
      } else {
        AddToSingleList(link, AddedItems(p), e.item);
      }
    }
  }

  /** Five new items from one link, seen at times 1 to 5. */
  function FiveItems(link: Link, a: Item, b: Item, c: Item, d: Item, e: Item): (s: seq<Event>)
    ensures ItemsOf(link, s)
  {
    [NewItem(link, a, 1), NewItem(link, b, 2), NewItem(link, c, 3), NewItem(link, d, 4), NewItem(link, e, 5)]
  }

  /** A script of new items only discovers each of its items, in order. */
  lemma {:induction false} AddedAreScriptItems(link: Link, s: seq<Event>)
    requires ItemsOf(link, s)
    ensures |AddedItems(s)| == |s|
    ensures forall k :: 0 <= k < |s| ==> AddedItems(s)[k] == s[k].item
    decreases |s|
  {
    if s != [] {
      AddedAreScriptItems(link, s[..|s| - 1]);
    }
  }

  /** The five-item script discovers its items in order. */
  lemma FiveItemsAdded(link: Link, a: Item, b: Item, c: Item, d: Item, e: Item)
    ensures AddedItems(FiveItems(link, a, b, c, d, e)) == [a, b, c, d, e]
  {
    AddedAreScriptItems(link, FiveItems(link, a, b, c, d, e));
  }

  /** The five-item script leaves all five uncommitted and does not touch the handshake. */
  lemma FiveItemsFolds(link: Link, a: Item, b: Item, c: Item, d: Item, e: Item)
    ensures AddedItems(FiveItems(link, a, b, c, d, e)) == [a, b, c, d, e]
    ensures UncommittedSet(UncommittedAfter(map[], FiveItems(link, a, b, c, d, e))) == {a, b, c, d, e}
    ensures HandshakeOps(FiveItems(link, a, b, c, d, e)) == []
  {
    FiveItemsAdded(link, a, b, c, d, e);
    OneLinkUncommitted(link, FiveItems(link, a, b, c, d, e));
    var xs := [a, b, c, d, e];
    SingleListReported(link, xs);
    forall x | x in xs
      ensures x in {a, b, c, d, e}
    {
    }
  }

  /** Five items from one link, never committed, no interrupt: success, and all five reported. */
  method FiveUncommittedItems(link: Link, a: Item, b: Item, c: Item, d: Item, e: Item)
    returns (delivered: seq<Item>, report: HookCall)
    ensures delivered == [a, b, c, d, e]
    ensures report == OnFinishCall(None, false, {a, b, c, d, e})
  {
    var r := new ItemsLoadingRunnable.WithDefaultInterval();
    FiveItemsFolds(link, a, b, c, d, e);
    ghost var flushes := r.Run(Completed, FiveItems(link, a, b, c, d, e), Completed);
    delivered := Delivered(r.hookCalls);
    report := r.hookCalls[|r.hookCalls| - 1];
  }

  /** The items a three-event script discovers. */
  lemma ThreeEventsAdded(s: seq<Event>)
    requires |s| == 3
    ensures AddedItems(s) == NewItems(s[0]) + NewItems(s[1]) + NewItems(s[2])
  {
    assert s[..0] == [] && s[..3] == s;
    FoldsStep(map[], s, 0);
    FoldsStep(map[], s, 1);
    FoldsStep(map[], s, 2);
  }

  /** The uncommitted lists a three-event script leaves. */
  lemma ThreeEventsUncommitted(s: seq<Event>)
    requires |s| == 3
    ensures UncommittedAfter(map[], s) == StepUncommitted(StepUncommitted(StepUncommitted(map[], s[0]), s[1]), s[2])
  {
    assert s[..0] == [] && s[..3] == s;
    FoldsStep(map[], s, 0);
    FoldsStep(map[], s, 1);
    FoldsStep(map[], s, 2);
  }

  /** The handshake operations of a three-event script. */
  lemma ThreeEventsHandshake(s: seq<Event>)
    requires |s| == 3
    ensures HandshakeOps(s) == HandshakeOp(s[0]) + HandshakeOp(s[1]) + HandshakeOp(s[2])
  {
    assert s[..0] == [] && s[..3] == s;
    HandshakeOpsStep(s, 0);
    HandshakeOpsStep(s, 1);
    HandshakeOpsStep(s, 2);
  }

  /** An interrupt requested while loading, then polled: the finish says the run was interrupted. */
  method InterruptConfirmed(link: Link, x: Item) returns (report: HookCall)
    ensures report == OnFinishCall(None, true, {x})
  {
    var r := new ItemsLoadingRunnable.WithDefaultInterval();
    var script := [NewItem(link, x, 1), RequestInterrupt, ConfirmInterrupt];
    ThreeEventsAdded(script);
    ThreeEventsUncommitted(script);
    ThreeEventsHandshake(script);
    SingleListReported(link, [x]);
    assert [] + [x] == [x];
    ghost var flushes := r.Run(Completed, script, Completed);
    report := r.hookCalls[|r.hookCalls| - 1];
  }

  /** An item from `first`, the commit of `first`, then an item from `second`. */
  function CommitBetween(first: Link, second: Link, x: Item, y: Item): seq<Event>
  {
    [NewItem(first, x, 1), CommitItems(first), NewItem(second, y, 2)]
  }

  /** What that script discovers, and that only the item after the commit stays uncommitted. */
  lemma CommitBetweenFolds(first: Link, second: Link, x: Item, y: Item)
    ensures AddedItems(CommitBetween(first, second, x, y)) == [x, y]
    ensures UncommittedSet(UncommittedAfter(map[], CommitBetween(first, second, x, y))) == {y}
    ensures HandshakeOps(CommitBetween(first, second, x, y)) == []
  {
    var script := CommitBetween(first, second, x, y);
    ThreeEventsAdded(script);
    ThreeEventsUncommitted(script);
    ThreeEventsHandshake(script);
    var left := map[first := [], second := [y]];
    assert UncommittedAfter(map[], script) == left by {
      assert [] + [x] == [x] && [] + [y] == [y];
    }
    assert y in left[second];
    forall z | z in UncommittedSet(left)
      ensures z == y
    {
    }
  }

  /** A loading that fails after committing one link: every item is still delivered, and only the uncommitted one is reported. */
  method CommitThenFailure(first: Link, second: Link, x: Item, y: Item, message: string)
    returns (delivered: seq<Item>, report: HookCall)
    ensures delivered == [x, y]
    ensures report == OnFinishCall(Some(message), false, {y})
  {
    var r := new ItemsLoadingRunnable.WithDefaultInterval();
    CommitBetweenFolds(first, second, x, y);
    ghost var flushes := r.Run(Completed, CommitBetween(first, second, x, y), Failed(message));
    delivered := Delivered(r.hookCalls);
    report := r.hookCalls[|r.hookCalls| - 1];
  }

  /** An item, then a commit made through the listener as written: the stack overflows, and no finish is posted or run. */
  method CommitThroughListener(link: Link, x: Item, frames: nat)
    returns (calls: seq<HookCall>, outcome: CommitOutcome, processed: bool, queued: seq<UiTask>)
    ensures outcome == StackOverflow && !processed
    ensures forall k :: 0 <= k < |calls| ==> !calls[k].OnFinishCall?
    ensures forall k :: 0 <= k < |queued| ==> !queued[k].ProcessFinishTask?
  {
    var r := new ItemsLoadingRunnable.WithDefaultInterval();
    outcome := r.RunCommittingThroughListener([NewItem(link, x, 1)], link, frames);
    calls, processed, queued := r.hookCalls, r.finishProcessed, r.uiQueue;
  }

  /** A request that arrives after the loader's last poll is not reported as an interruption. */
  method InterruptMissed(link: Link, x: Item) returns (report: HookCall, requested: bool)
    ensures report == OnFinishCall(None, false, {x})
    ensures requested
  {
    var r := new ItemsLoadingRunnable.WithDefaultInterval();
    var script := [NewItem(link, x, 1), ConfirmInterrupt, RequestInterrupt];
    ThreeEventsAdded(script);
    ThreeEventsUncommitted(script);
    ThreeEventsHandshake(script);
    var ops := [InterruptHandshake.Confirm, InterruptHandshake.Interrupt];
    assert HandshakeOps(script) == ops;
    assert ops[..1] == [InterruptHandshake.Confirm] && [InterruptHandshake.Confirm][..0] == [];
    assert InterruptHandshake.After(InterruptHandshake.Initial, ops) == InterruptHandshake.Flags(true, false);
    SingleListReported(link, [x]);
    assert [] + [x] == [x];
    ghost var flushes := r.Run(Completed, script, Completed);
    report := r.hookCalls[|r.hookCalls| - 1];
    requested := r.interruptRequested;
  }

  /** When the preparation fails, nothing is loaded and the finish carries its message, not interrupted. */
  method PreparationFails(message: string, script: seq<Event>) returns (calls: seq<HookCall>)
    ensures calls == [OnFinishCall(Some(message), false, {})]
  {
    var r := new ItemsLoadingRunnable.WithDefaultInterval();
    ghost var flushes := r.Run(Failed(message), script, Completed);
    r.ProcessNext();
    calls := r.hookCalls;
    assert UncommittedSet(map[]) == {};
  }

  /** A callback registered before the finish handler runs is posted to the UI thread; a second one is ignored. */
  method CallbackBeforeFinish(first: Callback, second: Callback) returns (calls: seq<HookCall>)
    ensures calls == [CallbackRun(first)]
  {
    var r := new ItemsLoadingRunnable.WithDefaultInterval();
    r.RunOnFinish(first);
    r.RunOnFinish(second);
    r.RunFinishHandler();
    r.ProcessNext();
    calls := r.hookCalls;
  }

  /** A callback stored before the finish handler runs blocks every later one, even after the handler ran. */
  method StoredCallbackBlocksLater(first: Callback, second: Callback) returns (calls: seq<HookCall>)
    ensures calls == [CallbackRun(first)]
  {
    var r := new ItemsLoadingRunnable.WithDefaultInterval();
    r.RunOnFinish(first);
    r.RunFinishHandler();
    r.RunOnFinish(second);
    r.ProcessNext();
    calls := r.hookCalls;
  }

  /** Callbacks registered after the finish handler ran run at once, each of them. */
  method CallbacksAfterFinish(first: Callback, second: Callback) returns (calls: seq<HookCall>)
    ensures calls == [CallbackRun(first), CallbackRun(second)]
  {
    var r := new ItemsLoadingRunnable.WithDefaultInterval();
    r.RunFinishHandler();
    r.RunOnFinish(first);
    r.RunOnFinish(second);
    calls := r.hookCalls;
  }
}
