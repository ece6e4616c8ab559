/**
 * The interrupt handshake of a catalog loading run, as values.
 *
 * A controller asks the worker to stop (`interruptLoading`), the worker
 * polls and latches that request (`confirmInterruptLoading`), the
 * controller may take the request back while the worker has not yet
 * latched it (`tryResumeLoading`), and the run reports what the worker
 * latched (`isLoadingInterrupted`). Each operation runs under one lock,
 * so each is one atomic step here.
 */
module InterruptHandshake {

  /** The two flags guarded by the interrupt lock. */
  datatype Flags = Flags(requested: bool, confirmed: bool) {
    /** A confirmation is only ever given to a pending request. */
    predicate Valid() {
      confirmed ==> requested
    }
  }

  const Initial: Flags := Flags(false, false)

  /** The four synchronized operations on the flags. */
  datatype Op = Interrupt | Confirm | TryResume | IsInterrupted

  /** The flags after an operation and the value it returns (false for the void `interruptLoading`). */
  datatype Outcome = Outcome(flags: Flags, result: bool)

  /** One operation on the flags. */
  function Apply(f: Flags, op: Op): (o: Outcome)
    // a request is never lost except through a resume
    ensures op != TryResume && f.requested ==> o.flags.requested
    // confirmation latches
    ensures f.confirmed ==> o.flags.confirmed
    // only the worker's poll can latch a request
    ensures op != Confirm ==> o.flags.confirmed == f.confirmed
    // the poll answers whether the worker must stop, and latches a pending request
    ensures op == Confirm ==> o.result == o.flags.confirmed == (f.confirmed || f.requested)
    // a resume succeeds exactly when the worker has not confirmed yet
    ensures op == TryResume && f.Valid() ==> o.result == !f.confirmed
    ensures op == TryResume && !f.confirmed ==> !o.flags.requested
    ensures f.Valid() ==> o.flags.Valid()
    // the request sets the flag and returns nothing; the query reads the latch and changes nothing
    ensures op == Interrupt ==> o.flags == f.(requested := true) && !o.result
    ensures op == IsInterrupted ==> o == Outcome(f, f.confirmed)
  {
    match op
    case Interrupt =>
      Outcome(f.(requested := true), false)
    case Confirm =>
      var g := if f.requested then f.(confirmed := true) else f;
      Outcome(g, g.confirmed)
    case TryResume =>
      var g := if !f.confirmed then f.(requested := false) else f;
      Outcome(g, !g.requested)
    case IsInterrupted =>
      Outcome(f, f.confirmed)
  }

  /** The flags after a sequence of operations, applied left to right. */
  function After(f: Flags, ops: seq<Op>): Flags
    decreases |ops|
  {
    if ops == [] then f else Apply(After(f, ops[..|ops| - 1]), ops[|ops| - 1]).flags
  }

  /** Every operation keeps the invariant `confirmed ==> requested`. */
  lemma {:induction false} ValidPreserved(f: Flags, ops: seq<Op>)
    requires f.Valid()
    ensures After(f, ops).Valid()
    decreases |ops|
  {
    if ops != [] {
      ValidPreserved(f, ops[..|ops| - 1]);
    }
  }

  /** Once confirmed, the flags stay confirmed whatever follows. */
  lemma {:induction false} ConfirmedLatches(f: Flags, ops: seq<Op>)
    requires f.confirmed
    ensures After(f, ops).confirmed
    decreases |ops|
  {
    if ops != [] {
      ConfirmedLatches(f, ops[..|ops| - 1]);
    }
  }

  /** Without a poll, nothing gets confirmed. */
  lemma {:induction false} NoPollNoConfirmation(f: Flags, ops: seq<Op>)
    requires Confirm !in ops
    ensures After(f, ops).confirmed == f.confirmed
    decreases |ops|
  {
    if ops != [] {
      assert ops[..|ops| - 1] <= ops;
      NoPollNoConfirmation(f, ops[..|ops| - 1]);
    }
  }

  /** Without a resume, a request stays pending. */
  lemma {:induction false} RequestPersists(f: Flags, ops: seq<Op>)
    requires f.requested && TryResume !in ops
    ensures After(f, ops).requested
    decreases |ops|
  {
    if ops != [] {
      assert ops[..|ops| - 1] <= ops;
      RequestPersists(f, ops[..|ops| - 1]);
    }
  }

  /**
   * After `interruptLoading`, the worker's next poll answers "stop" unless
   * the controller resumed in between, and every later poll answers "stop"
   * too.
   */
  lemma InterruptThenPoll(f: Flags, between: seq<Op>, later: seq<Op>)
    requires TryResume !in between
    ensures var polled := Apply(After(Apply(f, Interrupt).flags, between), Confirm);
            polled.result && After(polled.flags, later).confirmed
  {
    RequestPersists(Apply(f, Interrupt).flags, between);
    var polled := Apply(After(Apply(f, Interrupt).flags, between), Confirm);
    ConfirmedLatches(polled.flags, later);
  }

  /**
   * A resume issued after a request but before the worker's next poll
   * succeeds and withdraws the request.
   */
  lemma ResumeBeforePoll(f: Flags, between: seq<Op>)
    requires f.Valid() && !f.confirmed
    requires Confirm !in between
    ensures var resumed := Apply(After(Apply(f, Interrupt).flags, between), TryResume);
            resumed.result && !resumed.flags.requested && !resumed.flags.confirmed
  {
    NoPollNoConfirmation(Apply(f, Interrupt).flags, between);
  }

  /**
   * A resume issued once the worker has polled a pending request fails,
   * however many operations come in between.
   */
  lemma ResumeAfterPoll(f: Flags, before: seq<Op>, after: seq<Op>)
    requires f.Valid()
    requires TryResume !in before
    ensures var polled := Apply(After(Apply(f, Interrupt).flags, before), Confirm);
            var resumed := Apply(After(polled.flags, after), TryResume);
            !resumed.result && resumed.flags.confirmed
  {
    InterruptThenPoll(f, before, after);
    var polled := Apply(After(Apply(f, Interrupt).flags, before), Confirm);
    ValidPreserved(Apply(f, Interrupt).flags, before);
    ValidPreserved(polled.flags, after);
  }
}
