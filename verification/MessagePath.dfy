/** The closures of a subscription handler: listener, ordered buffer, bounded writer. Their shared variables
    are the fields, and each closure takes the step Delivery.dfy gives for it. */
module MessagePaths {
  import opened Delivery

  class MessagePath<D> {
    const pattern: bool
    var disconnected: bool
    var released: bool
    var confirmationFailed: bool
    var pending: seq<D>
    var outstanding: nat
    var stuck: bool
    var stuckCalls: nat
    var accepted: seq<D>
    var log: seq<Sse<D>>
    var settled: nat

    function State(): Path<D>
      reads this
    {
      Path(pattern, disconnected, released, confirmationFailed, pending, outstanding, stuck, stuckCalls, accepted, log,
           settled)
    }

    constructor (pattern: bool)
      ensures State() == Fresh(pattern)
    {
      this.pattern := pattern;
      disconnected, released, confirmationFailed, pending := false, false, false, [];
      outstanding, stuck, stuckCalls := 0, false, 0;
      accepted, log, settled := [], [], 0;
    }

    method OnStuck()
      modifies this
      ensures State() == old(State()).(disconnected := true, stuckCalls := old(stuckCalls) + 1)
    {
      disconnected := true;
      stuckCalls := stuckCalls + 1;
    }

    /** The function `createBoundedSseWriter` returns. */
    method BoundedWrite(d: D)
      modifies this
      ensures State() == Write(old(State()), d)
    {
      if stuck {
        return;
      }
      if outstanding >= MAX_OUTSTANDING {
        stuck := true;
        OnStuck();
        return;
      }
      outstanding := outstanding + 1;
      log := log + [Message(d)];
    }

    /** What follows when a write's promise settles. */
    method WriteSettled(ok: bool)
      requires Enabled(State(), WriteSettles(ok))
      modifies this
      ensures State() == Step(old(State()), WriteSettles(ok))
    {
      settled := settled + 1;
      outstanding := if outstanding > 0 then outstanding - 1 else 0;
      if !ok && !stuck {
        stuck := true;
        OnStuck();
      }
    }

    /** The listener: `Push` of the ordered buffer for an accepted message. */
    method Receive(d: D, supported: bool)
      requires Enabled(State(), Arrives(d, supported))
      modifies this
      ensures State() == Step(old(State()), Arrives(d, supported))
    {
      if disconnected {
        return;
      }
      if !supported {
        disconnected := true;
        log := log + [Unsupported];
        return;
      }
      accepted := accepted + [d];
      if released {
        BoundedWrite(d);
        return;
      }
      pending := pending + [d];
    }

    /** The confirmation has been written: release, then flush what waited. */
    method Release()
      requires Enabled(State(), ConfirmationSettles(true))
      modifies this
      ensures State() == Step(old(State()), ConfirmationSettles(true))
    {
      released := true;
      var waiting := pending;
      pending := [];
      ghost var start := State();
      var i := 0;
      while i < |waiting|
        invariant 0 <= i <= |waiting|
        invariant State() == WriteAll(start, waiting[..i])
      {
        assert waiting[..i + 1][..i] == waiting[..i];
        BoundedWrite(waiting[i]);
        i := i + 1;
      }
      assert waiting[..i] == waiting;
    }
  }
}
