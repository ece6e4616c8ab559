/**
 * The time gate of the item listener: after each new item the listener
 * schedules a delivery to the UI when the clock has passed the current
 * deadline, and then moves the deadline one update interval past now.
 * The deadline starts at 0. Clock readings are parameters.
 */
module UpdateGate {

  /** Whether an item flushes, and the deadline that follows. */
  datatype Decision = Decision(flush: bool, deadline: int)

  /** The gate applied to one item seen at time `now`. */
  function Gate(deadline: int, interval: int, now: int): (d: Decision)
    ensures d.flush <==> now > deadline
    ensures d.flush ==> d.deadline == now + interval
    ensures !d.flush ==> d.deadline == deadline
    // with a non-negative interval the deadline never moves back
    ensures interval >= 0 ==> d.deadline >= deadline
  {
    if now > deadline then Decision(true, now + interval) else Decision(false, deadline)
  }

  /** The deadline after items seen at `times`, one after the other. */
  function DeadlineAfter(deadline: int, interval: int, times: seq<int>): int
    decreases |times|
  {
    if times == [] then deadline
    else DeadlineAfter(Gate(deadline, interval, times[0]).deadline, interval, times[1..])
  }

  /** The times, among `times`, at which an item caused a flush. */
  function FlushTimes(deadline: int, interval: int, times: seq<int>): (flushes: seq<int>)
    decreases |times|
  {
    if times == [] then []
    else
      var d := Gate(deadline, interval, times[0]);
      (if d.flush then [times[0]] else []) + FlushTimes(d.deadline, interval, times[1..])
  }

  /** One more item: the gate applied to the deadline the earlier items left. */
  lemma {:induction false} DeadlineSnoc(deadline: int, interval: int, times: seq<int>, t: int)
    ensures DeadlineAfter(deadline, interval, times + [t]) ==
            Gate(DeadlineAfter(deadline, interval, times), interval, t).deadline
    decreases |times|
  {
    if times == [] {
      assert [] + [t] == [t];
    } else {
      assert (times + [t])[1..] == times[1..] + [t];
      DeadlineSnoc(Gate(deadline, interval, times[0]).deadline, interval, times[1..], t);
    }
  }

  /** One more item flushes exactly when it is seen after the deadline the earlier items left. */
  lemma {:induction false} FlushTimesSnoc(deadline: int, interval: int, times: seq<int>, t: int)
    ensures FlushTimes(deadline, interval, times + [t]) ==
            FlushTimes(deadline, interval, times) +
            (if Gate(DeadlineAfter(deadline, interval, times), interval, t).flush then [t] else [])
    decreases |times|
  {
    if times == [] {
      assert [] + [t] == [t];
    } else {
      var d := Gate(deadline, interval, times[0]);
      assert (times + [t])[1..] == times[1..] + [t];
      assert (times + [t])[0] == times[0];
      FlushTimesSnoc(d.deadline, interval, times[1..], t);
    }
  }

  /** Every flush happens strictly after the deadline the items started from. */
  lemma {:induction false} FlushesPassDeadline(deadline: int, interval: int, times: seq<int>)
    requires interval >= 0
    ensures forall k :: 0 <= k < |FlushTimes(deadline, interval, times)| ==>
              FlushTimes(deadline, interval, times)[k] > deadline
    decreases |times|
  {
    if times != [] {
      var d := Gate(deadline, interval, times[0]);
      FlushesPassDeadline(d.deadline, interval, times[1..]);
    }
  }

  /** Any two flushes are more than one interval apart. */
  lemma {:induction false} FlushesSpaced(deadline: int, interval: int, times: seq<int>, i: nat, j: nat)
    requires interval >= 0
    requires i < j < |FlushTimes(deadline, interval, times)|
    ensures FlushTimes(deadline, interval, times)[j] > FlushTimes(deadline, interval, times)[i] + interval
    decreases |times|
  {
    var d := Gate(deadline, interval, times[0]);
    var rest := FlushTimes(d.deadline, interval, times[1..]);
    if d.flush {
      if i == 0 {
        FlushesPassDeadline(d.deadline, interval, times[1..]);
        assert rest[j - 1] > d.deadline;
      } else {
        FlushesSpaced(d.deadline, interval, times[1..], i - 1, j - 1);
      }
    } else {
      FlushesSpaced(d.deadline, interval, times[1..], i, j);
    }
  }

  /** With the initial deadline 0, the first item seen at a positive time always flushes. */
  lemma FirstItemFlushes(interval: int, times: seq<int>)
    requires |times| > 0 && times[0] > 0
    ensures |FlushTimes(0, interval, times)| > 0 && FlushTimes(0, interval, times)[0] == times[0]
  {
  }

  /** Items that arrive more than one interval apart each flush. */
  lemma {:induction false} SparseItemsAllFlush(deadline: int, interval: int, times: seq<int>)
    requires |times| > 0 ==> times[0] > deadline
    requires forall k :: 0 <= k < |times| - 1 ==> times[k + 1] > times[k] + interval
    ensures FlushTimes(deadline, interval, times) == times
    decreases |times|
  {
    if times != [] {
      SparseItemsAllFlush(times[0] + interval, interval, times[1..]);
    }
  }

  /** The items that flushed are among the items, in the same order: a flush needs an item. */
  lemma {:induction false} FlushesAreItems(deadline: int, interval: int, times: seq<int>)
    ensures |FlushTimes(deadline, interval, times)| <= |times|
    ensures forall t :: t in FlushTimes(deadline, interval, times) ==> t in times
    decreases |times|
  {
    if times != [] {
      var d := Gate(deadline, interval, times[0]);
      FlushesAreItems(d.deadline, interval, times[1..]);
    }
  }
}
