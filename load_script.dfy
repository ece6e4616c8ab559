/**
 * What happens while `doLoading` runs, as a script of atomic events: the
 * loader's calls on the item listener and its commits through the
 * coordinator's public `commitItems`, the controller's interrupt and resume
 * calls, and turns of the UI thread, in the order they take their locks. The functions below fold a script into the bookkeeping it leaves.
 */
module LoadScript {
  import opened ItemBuffer
  import InterruptHandshake
  import UpdateGate

  datatype Event =
    | NewItem(link: Link, item: Item, now: int)  // listener.onNewItem, seen at clock reading `now`
    | ConfirmInterrupt                           // listener.confirmInterrupt
    | CommitItems(link: Link)                    // the loader calls the coordinator's commitItems
    | RequestInterrupt                           // controller: interruptLoading
    | ResumeLoading                              // controller: tryResumeLoading
    | UiTurn                                     // the UI thread runs its next queued message, if any

  /** The item an event discovers, if any. */
  function NewItems(e: Event): seq<Item>
  {
    if e.NewItem? then [e.item] else []
  }

  /** The items the script discovers, in discovery order. */
  function AddedItems(s: seq<Event>): seq<Item>
    decreases |s|
  {
    if s == [] then [] else AddedItems(s[..|s| - 1]) + NewItems(s[|s| - 1])
  }

  /** One event's effect on the uncommitted lists. */
  function StepUncommitted(u: Uncommitted, e: Event): Uncommitted
  {
    match e
    case NewItem(link, item, _) => AddUncommitted(u, link, item)
    case CommitItems(link) => CommitUncommitted(u, link)
    case _ => u
  }

  /** The uncommitted lists after the script, starting from `m`. */
  function UncommittedAfter(m: Uncommitted, s: seq<Event>): Uncommitted
    decreases |s|
  {
    if s == [] then m else StepUncommitted(UncommittedAfter(m, s[..|s| - 1]), s[|s| - 1])
  }

  /** The handshake operation an event performs, if any. */
  function HandshakeOp(e: Event): seq<InterruptHandshake.Op>
  {
    match e
    case ConfirmInterrupt => [InterruptHandshake.Confirm]
    case RequestInterrupt => [InterruptHandshake.Interrupt]
    case ResumeLoading => [InterruptHandshake.TryResume]
    case _ => []
  }

  /** One event's effect on the interrupt flags. */
  function FlagsAfterEvent(f: InterruptHandshake.Flags, e: Event): InterruptHandshake.Flags
  {
    match e
    case ConfirmInterrupt => InterruptHandshake.Apply(f, InterruptHandshake.Confirm).flags
    case RequestInterrupt => InterruptHandshake.Apply(f, InterruptHandshake.Interrupt).flags
    case ResumeLoading => InterruptHandshake.Apply(f, InterruptHandshake.TryResume).flags
    case _ => f
  }

  /** The handshake operations of the script, in order. */
  function HandshakeOps(s: seq<Event>): seq<InterruptHandshake.Op>
    decreases |s|
  {
    if s == [] then [] else HandshakeOps(s[..|s| - 1]) + HandshakeOp(s[|s| - 1])
  }

  /** The clock readings of the script's new items, in order. */
  function ItemTimes(s: seq<Event>): seq<int>
    decreases |s|
  {
    if s == [] then []
    else
      var e := s[|s| - 1];
      ItemTimes(s[..|s| - 1]) + (if e.NewItem? then [e.now] else [])
  }

  /** The folds above, one more event at a time. */
  lemma FoldsStep(m: Uncommitted, s: seq<Event>, i: nat)
    requires i < |s|
    ensures AddedItems(s[..i + 1]) == AddedItems(s[..i]) + NewItems(s[i])
    ensures UncommittedAfter(m, s[..i + 1]) == StepUncommitted(UncommittedAfter(m, s[..i]), s[i])
  {
    assert s[..i + 1][..i] == s[..i];
  }

  /** The listener's time gate over one more event: only a new item moves it. */
  lemma GateStep(interval: int, s: seq<Event>, i: nat)
    requires i < |s|
    ensures var times, d := ItemTimes(s[..i]), UpdateGate.DeadlineAfter(0, interval, ItemTimes(s[..i]));
            s[i].NewItem? ==>
              && UpdateGate.DeadlineAfter(0, interval, ItemTimes(s[..i + 1])) == UpdateGate.Gate(d, interval, s[i].now).deadline
              && UpdateGate.FlushTimes(0, interval, ItemTimes(s[..i + 1])) ==
                 UpdateGate.FlushTimes(0, interval, times) + (if UpdateGate.Gate(d, interval, s[i].now).flush then [s[i].now] else [])
    ensures !s[i].NewItem? ==> ItemTimes(s[..i + 1]) == ItemTimes(s[..i])
  {
    var times := ItemTimes(s[..i]);
    assert s[..i + 1][..i] == s[..i];
    if s[i].NewItem? {
      UpdateGate.DeadlineSnoc(0, interval, times, s[i].now);
      UpdateGate.FlushTimesSnoc(0, interval, times, s[i].now);
    } else {
      assert times + [] == times;
    }
  }

  /** The folds of a script that ends in `e`. */
  lemma FoldsSnoc(m: Uncommitted, s: seq<Event>, e: Event)
    ensures AddedItems(s + [e]) == AddedItems(s) + NewItems(e)
    ensures UncommittedAfter(m, s + [e]) == StepUncommitted(UncommittedAfter(m, s), e)
    ensures HandshakeOps(s + [e]) == HandshakeOps(s) + HandshakeOp(e)
  {
    assert (s + [e])[..|s|] == s;
  }

  lemma HandshakeOpsStep(s: seq<Event>, i: nat)
    requires i < |s|
    ensures HandshakeOps(s[..i + 1]) == HandshakeOps(s[..i]) + HandshakeOp(s[i])
  {
    assert s[..i + 1][..i] == s[..i];
  }

  /** The interrupt flags after one more event. */
  lemma FlagsStep(f: InterruptHandshake.Flags, s: seq<Event>, i: nat)
    requires i < |s|
    ensures InterruptHandshake.After(f, HandshakeOps(s[..i + 1])) ==
            FlagsAfterEvent(InterruptHandshake.After(f, HandshakeOps(s[..i])), s[i])
  {
    HandshakeOpsStep(s, i);
    var ops := HandshakeOps(s[..i]);
    if HandshakeOp(s[i]) == [] {
      assert ops + [] == ops;
    } else {
      var op := HandshakeOp(s[i])[0];
      assert HandshakeOp(s[i]) == [op];
      assert (ops + [op])[..|ops|] == ops;
    }
  }

  /** The script never commits `link`. */
  predicate NoCommitOf(link: Link, s: seq<Event>)
  {
    forall k :: 0 <= k < |s| ==> s[k] != CommitItems(link)
  }

  /** The script adds `x` under `link` at position `i` and never commits `link` afterwards. */
  predicate AddedUncommittedAt(s: seq<Event>, link: Link, x: Item, i: int)
  {
    0 <= i < |s| && s[i].NewItem? && s[i].link == link && s[i].item == x && NoCommitOf(link, s[i + 1..])
  }

  /**
   * `x` is still uncommitted under `link` after the script: it was listed
   * there before and `link` was never committed, or the script added it
   * there after the last commit of `link`.
   */
  ghost predicate Survives(m: Uncommitted, s: seq<Event>, link: Link, x: Item)
  {
    (x in Lookup(m, link) && NoCommitOf(link, s)) || exists i :: AddedUncommittedAt(s, link, x, i)
  }

  lemma NoCommitSnoc(link: Link, s: seq<Event>, e: Event)
    requires e != CommitItems(link)
    ensures NoCommitOf(link, s + [e]) == NoCommitOf(link, s)
  {
    if NoCommitOf(link, s) {
      forall k | 0 <= k < |s + [e]|
        ensures (s + [e])[k] != CommitItems(link)
      {
        if k < |s| {
          assert (s + [e])[k] == s[k];
        }
      }
    } else {
      var k :| 0 <= k < |s| && s[k] == CommitItems(link);
      assert (s + [e])[k] == s[k];
    }
  }

  /** What survived a script still survives an event that does not commit its link. */
  lemma SurvivesSnocKeeps(m: Uncommitted, s: seq<Event>, e: Event, link: Link, x: Item)
    requires e != CommitItems(link)
    requires Survives(m, s, link, x)
    ensures Survives(m, s + [e], link, x)
  {
    var t := s + [e];
    NoCommitSnoc(link, s, e);
    if !(x in Lookup(m, link) && NoCommitOf(link, s)) {
      var i :| AddedUncommittedAt(s, link, x, i);
      assert t[i + 1..] == s[i + 1..] + [e];
      NoCommitSnoc(link, s[i + 1..], e);
      assert AddedUncommittedAt(t, link, x, i);
    }
  }

  /** What survives a script and one more event that neither commits nor adds it survived the script. */
  lemma SurvivesSnocFrom(m: Uncommitted, s: seq<Event>, e: Event, link: Link, x: Item)
    requires e != CommitItems(link)
    requires !(e.NewItem? && e.link == link && e.item == x)
    requires Survives(m, s + [e], link, x)
    ensures Survives(m, s, link, x)
  {
    var t := s + [e];
    NoCommitSnoc(link, s, e);
    if !(x in Lookup(m, link) && NoCommitOf(link, t)) {
      var i :| AddedUncommittedAt(t, link, x, i);
      assert i < |s|;
      assert t[i + 1..] == s[i + 1..] + [e];
      NoCommitSnoc(link, s[i + 1..], e);
      assert AddedUncommittedAt(s, link, x, i);
    }
  }

  /** An event that neither commits `link` nor adds `x` under it changes nothing about `x` under `link`. */
  lemma SurvivesSnocOther(m: Uncommitted, s: seq<Event>, e: Event, link: Link, x: Item)
    requires e != CommitItems(link)
    ensures Survives(m, s + [e], link, x) <==>
              Survives(m, s, link, x) || (e.NewItem? && e.link == link && e.item == x)
  {
    if Survives(m, s, link, x) {
      SurvivesSnocKeeps(m, s, e, link, x);
    }
    if e.NewItem? && e.link == link && e.item == x {
      assert AddedUncommittedAt(s + [e], link, x, |s|);
    } else if Survives(m, s + [e], link, x) {
      SurvivesSnocFrom(m, s, e, link, x);
    }
  }

  /** Committing `link` leaves nothing uncommitted under it. */
  lemma SurvivesSnocCommit(m: Uncommitted, s: seq<Event>, link: Link, x: Item)
    ensures !Survives(m, s + [CommitItems(link)], link, x)
  {
    var t := s + [CommitItems(link)];
    assert t[|s|] == CommitItems(link);
    forall i | 0 <= i < |s|
      ensures !AddedUncommittedAt(t, link, x, i)
    {
      assert t[i + 1..][|s| - i - 1] == CommitItems(link);
    }
  }

  /** What a link's uncommitted list holds after a script. */
  lemma {:induction false} PendingPerLink(m: Uncommitted, s: seq<Event>, link: Link, x: Item)
    ensures x in Lookup(UncommittedAfter(m, s), link) <==> Survives(m, s, link, x)
    decreases |s|
  {
    if s == [] {
      assert NoCommitOf(link, s);
    } else {
      var p, e := s[..|s| - 1], s[|s| - 1];
      assert s == p + [e];
      PendingPerLink(m, p, link, x);
      if e == CommitItems(link) {
        SurvivesSnocCommit(m, p, link, x);
      } else {
        SurvivesSnocOther(m, p, e, link, x);
      }
    }
  }

  /**
   * The items the finish reports as uncommitted after a script: exactly
   * those that some link still lists, in the sense of `Survives`.
   */
  lemma ReportedUncommitted(m: Uncommitted, s: seq<Event>, x: Item)
    ensures x in UncommittedSet(UncommittedAfter(m, s)) <==> exists link :: Survives(m, s, link, x)
  {
    var u := UncommittedAfter(m, s);
    UncommittedSetMembers(u, x);
    if x in UncommittedSet(u) {
      var link :| x in Lookup(u, link);
      PendingPerLink(m, s, link, x);
    }
    if exists link :: Survives(m, s, link, x) {
      var link :| Survives(m, s, link, x);
      PendingPerLink(m, s, link, x);
    }
  }
}
