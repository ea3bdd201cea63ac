/** From Redis to the SSE stream: the confirmation-ordered buffer and the bounded writer behind it
    (src/routes/pubsub.ts, src/translate/pubsub.ts), for both kinds of subscription. `D` is the formatted
    data of an event. The steps come in any order. */
module Delivery {

  const MAX_OUTSTANDING: nat := 1024

  /** What `stream.writeSSE` is called with. */
  datatype Sse<D> = Confirmation | Message(data: D) | Unsupported

  datatype Path<D> = Path(
    pattern: bool,             // psubscribe rather than subscribe
    disconnected: bool,
    released: bool,            // `released` of the ordered buffer, `ready` of the pattern handler
    confirmationFailed: bool,
    pending: seq<D>,
    outstanding: nat,          // the writer's count
    stuck: bool,
    stuckCalls: nat,           // calls of onStuck by the writer
    accepted: seq<D>,          // messages the listener took, in order of arrival
    log: seq<Sse<D>>,          // events written, in order
    settled: nat)              // message writes that have settled

  function Fresh<D>(pattern: bool): Path<D> {
    Path(pattern, false, false, false, [], 0, false, 0, [], [], 0)
  }

  datatype Event<D> =
    | Arrives(data: D, supported: bool)  // `supported`: the channel can be named in an event
    | Confirms                           // writeSSE(confirmation) is called
    | ConfirmationSettles(ok: bool)
    | WriteSettles(ok: bool)
    | Disconnects                        // abort, failed keep-alive, or the unsupported-channel teardown

  function Written<D>(log: seq<Sse<D>>): (r: seq<D>)
    ensures |r| <= |log|
  {
    if log == [] then [] else
      Written(log[..|log| - 1]) + if log[|log| - 1].Message? then [log[|log| - 1].data] else []
  }

  predicate Enabled<D>(p: Path<D>, e: Event<D>) {
    match e
    case Arrives(_, supported) => !p.pattern ==> supported
    case Confirms => !Confirmed(p.log) && (p.pattern ==> !p.disconnected)   // the pattern handler bails out first
    case ConfirmationSettles(_) => Confirmed(p.log) && !p.released && !p.confirmationFailed
    case WriteSettles(_) => p.settled < |Written(p.log)|
    case Disconnects => true
  }

  predicate Confirmed<D>(log: seq<Sse<D>>) {
    exists i :: 0 <= i < |log| && log[i].Confirmation?
  }

  /** The writer's onStuck: it also sets `disconnected`. */
  function GiveUp<D>(p: Path<D>): Path<D> {
    p.(stuck := true, stuckCalls := p.stuckCalls + 1, disconnected := true)
  }

  function Write<D>(p: Path<D>, d: D): Path<D> {
    if p.stuck then p
    else if p.outstanding >= MAX_OUTSTANDING then GiveUp(p)
    else p.(outstanding := p.outstanding + 1, log := p.log + [Message(d)])
  }

  function WriteAll<D>(p: Path<D>, ds: seq<D>): Path<D> {
    if ds == [] then p else Write(WriteAll(p, ds[..|ds| - 1]), ds[|ds| - 1])
  }

  function Step<D>(p: Path<D>, e: Event<D>): Path<D>
    requires Enabled(p, e)
  {
    match e
    case Arrives(d, supported) =>
      if p.disconnected then p
      else if !supported then p.(disconnected := true, log := p.log + [Unsupported])
      else
        var q := p.(accepted := p.accepted + [d]);
        if p.released then Write(q, d) else q.(pending := p.pending + [d])
    case Confirms => p.(log := p.log + [Confirmation])
    case ConfirmationSettles(ok) =>
      if ok then WriteAll(p.(released := true, pending := []), p.pending) else p.(confirmationFailed := true)
    case WriteSettles(ok) =>
      var q := p.(outstanding := if p.outstanding > 0 then p.outstanding - 1 else 0, settled := p.settled + 1);
      if ok || p.stuck then q else GiveUp(q)
    case Disconnects => p.(disconnected := true)
  }

  // ---- What every order of steps keeps ----

  /** The writer's count is the number of unsettled message writes and stays within the bound; onStuck was
      called once if the writer gave up, and never otherwise. */
  ghost predicate Counted<D>(p: Path<D>) {
    && p.settled <= |Written(p.log)|
    && p.outstanding == |Written(p.log)| - p.settled <= MAX_OUTSTANDING
    && p.stuckCalls == if p.stuck then 1 else 0
  }

  /** A message stands only behind the confirmation, and there is one confirmation. */
  ghost predicate ConfirmationFirst<D>(p: Path<D>) {
    && (forall i :: 0 <= i < |p.log| && p.log[i].Message? ==> Confirmed(p.log[..i]))
    && (forall i, j :: 0 <= i < j < |p.log| && p.log[i].Confirmation? ==> !p.log[j].Confirmation?)
    && (p.released ==> Confirmed(p.log))
    && (!p.pattern ==> forall i :: 0 <= i < |p.log| ==> !p.log[i].Unsupported?)
    && (forall i, j :: 0 <= i < j < |p.log| && p.log[i].Unsupported? ==> !p.log[j].Unsupported?)
    && (forall i :: 0 <= i < |p.log| && p.log[i].Unsupported? ==> p.disconnected)
    && (p.log != [] ==> p.log[0].Confirmation? || (p.pattern && p.disconnected && p.log == [Unsupported]))
  }

  /** Before the release everything accepted waits; after it, everything accepted has been written unless
      the writer gave up. */
  ghost predicate InOrder<D>(p: Path<D>) {
    && Written(p.log) <= p.accepted
    && (if p.released then p.pending == [] && (!p.stuck ==> Written(p.log) == p.accepted)
        else Written(p.log) == [] && p.pending == p.accepted && !p.stuck)
  }

  ghost predicate Kept<D>(p: Path<D>) {
    Counted(p) && ConfirmationFirst(p) && InOrder(p)
  }

  lemma WrittenAppends<D>(log: seq<Sse<D>>, e: Sse<D>)
    ensures Written(log + [e]) == Written(log) + if e.Message? then [e.data] else []
  {
    assert (log + [e])[..|log|] == log;
  }

  lemma ConfirmedAppends<D>(log: seq<Sse<D>>, e: Sse<D>)
    ensures Confirmed(log + [e]) <==> Confirmed(log) || e.Confirmation?
  {
    if Confirmed(log) {
      var i :| 0 <= i < |log| && log[i].Confirmation?;
      assert (log + [e])[i].Confirmation?;
    }
    if e.Confirmation? {
      assert (log + [e])[|log|].Confirmation?;
    }
    if Confirmed(log + [e]) && !e.Confirmation? {
      var i :| 0 <= i < |log + [e]| && (log + [e])[i].Confirmation?;
      assert log[i].Confirmation?;
    }
  }

  /** One more event at the end of the log: a message only if confirmed, a confirmation only if not, the error of
      an unsupported channel only once. */
  lemma LoggingKeepsConfirmationFirst<D>(p: Path<D>, e: Sse<D>, disconnected: bool)
    requires ConfirmationFirst(p) && (p.disconnected ==> disconnected)
    requires e.Message? ==> Confirmed(p.log)
    requires e.Confirmation? ==> !Confirmed(p.log) && (p.pattern ==> !p.disconnected)
    requires e.Unsupported? ==> p.pattern && !p.disconnected && disconnected
    ensures ConfirmationFirst(p.(disconnected := disconnected, log := p.log + [e]))
  {
    var log := p.log + [e];
    ConfirmedAppends(p.log, e);
    forall i | 0 <= i < |log| && log[i].Message?
      ensures Confirmed(log[..i])
    {
      assert log[..i] == p.log[..i];
    }
    assert p.log[..|p.log|] == p.log;
    assert p.log == [Unsupported] ==> !Confirmed(p.log);
  }

  /** A write, when `rest` is all that is accepted and not yet written. */
  ghost predicate MidFlush<D>(p: Path<D>, rest: seq<D>) {
    && Counted(p) && ConfirmationFirst(p) && p.released && p.pending == []
    && Written(p.log) <= p.accepted
    && (!p.stuck ==> Written(p.log) + rest == p.accepted)
  }

  lemma GivingUpKeepsConfirmationFirst<D>(p: Path<D>)
    requires ConfirmationFirst(p) && p.released
    ensures Confirmed(p.log)
    ensures ConfirmationFirst(GiveUp(p)) && ConfirmationFirst(p.(outstanding := p.outstanding + 1))
  {
  }

  lemma WriteKeepsFlush<D>(p: Path<D>, d: D, rest: seq<D>)
    requires MidFlush(p, [d] + rest)
    ensures MidFlush(Write(p, d), rest)
  {
    hide ConfirmationFirst, Confirmed, Written;
    GivingUpKeepsConfirmationFirst(p);
    if !p.stuck && p.outstanding < MAX_OUTSTANDING {
      WrittenAppends(p.log, Message(d));
      LoggingKeepsConfirmationFirst(p.(outstanding := p.outstanding + 1), Message(d), p.disconnected);
      assert Written(p.log) + ([d] + rest) == (Written(p.log) + [d]) + rest;
    }
  }

  lemma {:induction false} WriteAllKeepsFlush<D>(p: Path<D>, ds: seq<D>, rest: seq<D>)
    requires MidFlush(p, ds + rest)
    ensures MidFlush(WriteAll(p, ds), rest)
  {
    if ds == [] {
      assert ds + rest == rest;
    } else {
      var last := |ds| - 1;
      assert ds + rest == ds[..last] + ([ds[last]] + rest);
      WriteAllKeepsFlush(p, ds[..last], [ds[last]] + rest);
      WriteKeepsFlush(WriteAll(p, ds[..last]), ds[last], rest);
    }
  }

  lemma FlushedIsKept<D>(p: Path<D>)
    requires MidFlush(p, [])
    ensures Kept(p)
  {
    assert Written(p.log) + [] == Written(p.log);
  }

  lemma ArrivalKeeps<D>(p: Path<D>, d: D, supported: bool)
    requires Kept(p) && (!p.pattern ==> supported)
    ensures Kept(Step(p, Arrives(d, supported)))
  {
    if !p.disconnected {
      if !supported {
        WrittenAppends(p.log, Unsupported);
        LoggingKeepsConfirmationFirst(p, Unsupported, true);
        assert Written(p.log) + [] == Written(p.log);
      } else if p.released {
        var q := p.(accepted := p.accepted + [d]);
        assert [d] + [] == [d];
        WriteKeepsFlush(q, d, []);
        FlushedIsKept(Write(q, d));
      }
    }
  }

  lemma ConfirmingKeeps<D>(p: Path<D>)
    requires Kept(p) && Enabled(p, Confirms)
    ensures Kept(Step(p, Confirms))
  {
    WrittenAppends(p.log, Confirmation);
    LoggingKeepsConfirmationFirst(p, Confirmation, p.disconnected);
    assert Written(p.log) + [] == Written(p.log);
  }

  lemma StepKeeps<D>(p: Path<D>, e: Event<D>)
    requires Kept(p) && Enabled(p, e)
    ensures Kept(Step(p, e))
  {
    hide Written, Confirmed;
    match e {
      case Arrives(d, supported) => ArrivalKeeps(p, d, supported);
      case Confirms => ConfirmingKeeps(p);
      case ConfirmationSettles(ok) =>
        if ok {
          var q := p.(released := true, pending := []);
          assert Written(p.log) + p.pending == p.pending && p.pending + [] == p.pending;
          WriteAllKeepsFlush(q, p.pending, []);
          FlushedIsKept(WriteAll(q, p.pending));
        }
      case WriteSettles(ok) =>
        assert p.released;
      case Disconnects =>
    }
  }

  ghost predicate IsRun<D>(pattern: bool, paths: seq<Path<D>>, events: seq<Event<D>>) {
    && |paths| == |events| + 1 && paths[0] == Fresh(pattern)
    && forall i :: 0 <= i < |events| ==> Enabled(paths[i], events[i]) && paths[i + 1] == Step(paths[i], events[i])
  }

  lemma {:induction false} RunsAreKept<D>(pattern: bool, paths: seq<Path<D>>, events: seq<Event<D>>, i: nat)
    requires IsRun(pattern, paths, events) && i <= |events|
    ensures Kept(paths[i]) && paths[i].pattern == pattern
  {
    if i > 0 {
      RunsAreKept(pattern, paths, events, i - 1);
      StepKeeps(paths[i - 1], events[i - 1]);
      PatternIsFixed(paths[i - 1], events[i - 1]);
    }
  }

  lemma PatternIsFixed<D>(p: Path<D>, e: Event<D>)
    requires Enabled(p, e)
    ensures Step(p, e).pattern == p.pattern
  {
    if e.ConfirmationSettles? {
      WriteAllLeaves(p.(released := true, pending := []), p.pending);
    }
  }

  /** A flush from an idle writer gives up exactly when it is handed more than the bound. */
  lemma {:induction false} FlushGivesUp<D>(p: Path<D>, ds: seq<D>)
    requires !p.stuck && p.outstanding == 0
    ensures WriteAll(p, ds).stuck <==> |ds| > MAX_OUTSTANDING
    ensures |ds| <= MAX_OUTSTANDING ==> WriteAll(p, ds).outstanding == |ds|
  {
    if ds != [] {
      FlushGivesUp(p, ds[..|ds| - 1]);
    }
  }

  /** What makes the writer give up: a message, or the messages waiting at the release, that find the bound
      reached; or a write that fails. */
  predicate Overloads<D>(p: Path<D>, e: Event<D>) {
    match e
    case Arrives(_, supported) => supported && !p.disconnected && p.released && p.outstanding == MAX_OUTSTANDING
    case ConfirmationSettles(ok) => ok && |p.pending| > MAX_OUTSTANDING
    case WriteSettles(ok) => !ok
    case _ => false
  }

  /** It gives up for these reasons and for no other. */
  lemma GivingUpHasACause<D>(p: Path<D>, e: Event<D>)
    requires Kept(p) && Enabled(p, e) && !p.stuck
    ensures Step(p, e).stuck <==> Overloads(p, e)
  {
    if e.ConfirmationSettles? {
      FlushGivesUp(p.(released := true, pending := []), p.pending);
    }
  }

  // ---- The history of a run, told by its events ----

  /** The event ends the flow: the client goes, the channel cannot be named, or the writer gives up. */
  predicate Ends<D>(p: Path<D>, e: Event<D>) {
    e.Disconnects? || (e.Arrives? && !e.supported) || (!p.stuck && Overloads(p, e))
  }

  /** The flow has ended by moment i. */
  ghost predicate Ended<D>(paths: seq<Path<D>>, events: seq<Event<D>>, i: nat)
    requires i <= |events| && |paths| == |events| + 1
  {
    exists k :: 0 <= k < i && Ends(paths[k], events[k])
  }

  /** The messages that came, on channels that can be named, while the flow went on, in order. */
  ghost function Arrivals<D>(paths: seq<Path<D>>, events: seq<Event<D>>, i: nat): seq<D>
    requires i <= |events| && |paths| == |events| + 1
  {
    if i == 0 then [] else
      Arrivals(paths, events, i - 1)
        + if events[i - 1].Arrives? && events[i - 1].supported && !Ended(paths, events, i - 1) then [events[i - 1].data]
          else []
  }

  /** How many writes of messages have settled by moment i. */
  function Settlements<D>(events: seq<Event<D>>, i: nat): nat
    requires i <= |events|
  {
    if i == 0 then 0 else Settlements(events, i - 1) + if events[i - 1].WriteSettles? then 1 else 0
  }

  lemma {:induction false} WriteAllLeaves<D>(p: Path<D>, ds: seq<D>)
    ensures var q := WriteAll(p, ds);
            && q.accepted == p.accepted && q.pattern == p.pattern && q.settled == p.settled
            && q.released == p.released && q.pending == p.pending
            && (q.disconnected <==> p.disconnected || (q.stuck && !p.stuck)) && (p.stuck ==> q.stuck)
            && (Confirmed(q.log) <==> Confirmed(p.log)) && (Reported(q.log) <==> Reported(p.log))
  {
    hide Confirmed, Reported;
    if ds != [] {
      var before := WriteAll(p, ds[..|ds| - 1]);
      WriteAllLeaves(p, ds[..|ds| - 1]);
      ConfirmedAppends(before.log, Message(ds[|ds| - 1]));
      ReportedAppends(before.log, Message(ds[|ds| - 1]));
    }
  }

  predicate Reported<D>(log: seq<Sse<D>>) {
    exists i :: 0 <= i < |log| && log[i].Unsupported?
  }

  lemma ReportedAppends<D>(log: seq<Sse<D>>, e: Sse<D>)
    ensures Reported(log + [e]) <==> Reported(log) || e.Unsupported?
  {
    if Reported(log) {
      var i :| 0 <= i < |log| && log[i].Unsupported?;
      assert (log + [e])[i].Unsupported?;
    }
    if e.Unsupported? {
      assert (log + [e])[|log|].Unsupported?;
    }
    if Reported(log + [e]) && !e.Unsupported? {
      var i :| 0 <= i < |log + [e]| && (log + [e])[i].Unsupported?;
      assert log[i].Unsupported?;
    }
  }

  /** What one step adds to the history. */
  lemma StepAdds<D>(p: Path<D>, e: Event<D>)
    requires Kept(p) && Enabled(p, e)
    ensures var q := Step(p, e);
            && q.accepted == p.accepted
                 + (if e.Arrives? && e.supported && !p.disconnected then [e.data] else [])
            && (q.disconnected <==> p.disconnected || Ends(p, e))
            && (q.stuck <==> p.stuck || Overloads(p, e))
            && q.settled == p.settled + (if e.WriteSettles? then 1 else 0)
            && (q.released <==> p.released || e == ConfirmationSettles(true))
            && (Confirmed(q.log) <==> Confirmed(p.log) || e.Confirms?)
            && (Reported(q.log) <==> Reported(p.log) || (e.Arrives? && !e.supported && !p.disconnected))
  {
    hide Confirmed, Reported, ConfirmationFirst;
    assert p.accepted + [] == p.accepted;
    if !p.stuck {
      GivingUpHasACause(p, e);
    }
    match e {
      case Arrives(d, supported) =>
        ConfirmedAppends(p.log, Message(d));
        ReportedAppends(p.log, Message(d));
        ConfirmedAppends(p.log, Unsupported);
        ReportedAppends(p.log, Unsupported);
      case Confirms =>
        ConfirmedAppends(p.log, Confirmation);
        ReportedAppends(p.log, Confirmation);
      case ConfirmationSettles(ok) => WriteAllLeaves(p.(released := true, pending := []), p.pending);
      case _ =>
    }
  }

  lemma {:induction false} FlowTells<D>(pattern: bool, paths: seq<Path<D>>, events: seq<Event<D>>, i: nat)
    requires IsRun(pattern, paths, events) && i <= |events|
    ensures paths[i].accepted == Arrivals(paths, events, i)
    ensures paths[i].disconnected <==> Ended(paths, events, i)
  {
    hide Step, Kept, Ends, Overloads, Confirmed, Reported;
    if i > 0 {
      FlowTells(pattern, paths, events, i - 1);
      RunsAreKept(pattern, paths, events, i - 1);
      StepAdds(paths[i - 1], events[i - 1]);
    }
  }

  lemma {:induction false} WriterTells<D>(pattern: bool, paths: seq<Path<D>>, events: seq<Event<D>>, i: nat)
    requires IsRun(pattern, paths, events) && i <= |events|
    ensures paths[i].stuck <==> exists k :: 0 <= k < i && !paths[k].stuck && Overloads(paths[k], events[k])
    ensures paths[i].settled == Settlements(events, i)
  {
    hide Step, Kept, Ends, Overloads, Confirmed, Reported;
    if i > 0 {
      WriterTells(pattern, paths, events, i - 1);
      RunsAreKept(pattern, paths, events, i - 1);
      StepAdds(paths[i - 1], events[i - 1]);
    }
  }

  lemma {:induction false} ConfirmationTells<D>(pattern: bool, paths: seq<Path<D>>, events: seq<Event<D>>, i: nat)
    requires IsRun(pattern, paths, events) && i <= |events|
    ensures paths[i].released <==> exists k :: 0 <= k < i && events[k] == ConfirmationSettles(true)
    ensures Confirmed(paths[i].log) <==> exists k :: 0 <= k < i && events[k].Confirms?
  {
    hide Step, Kept, Ends, Overloads, Confirmed, Reported;
    if i == 0 {
      FreshIsBlank<D>(pattern);
    } else {
      ConfirmationTells(pattern, paths, events, i - 1);
      RunsAreKept(pattern, paths, events, i - 1);
      StepAdds(paths[i - 1], events[i - 1]);
    }
  }

  lemma {:induction false} ReportTells<D>(pattern: bool, paths: seq<Path<D>>, events: seq<Event<D>>, i: nat)
    requires IsRun(pattern, paths, events) && i <= |events|
    ensures Reported(paths[i].log) <==> exists k :: 0 <= k < i && Unnameable(paths, events, k)
  {
    hide Step, Kept, Ended, Ends, Overloads, Confirmed, Reported;
    if i == 0 {
      FreshIsBlank<D>(pattern);
    } else {
      ReportTells(pattern, paths, events, i - 1);
      FlowTells(pattern, paths, events, i - 1);
      RunsAreKept(pattern, paths, events, i - 1);
      StepAdds(paths[i - 1], events[i - 1]);
      assert Reported(paths[i].log) <==> Reported(paths[i - 1].log) || Unnameable(paths, events, i - 1);
    }
  }

  /** While the flow goes on, a message comes on a channel that cannot be named. */
  ghost predicate Unnameable<D>(paths: seq<Path<D>>, events: seq<Event<D>>, k: nat)
    requires k < |events| && |paths| == |events| + 1
  {
    events[k].Arrives? && !events[k].supported && !Ended(paths, events, k)
  }

  /** Every variable of a run is what its events made it: what is accepted is what arrived while the flow went on,
      the flow stops for the three reasons of `Ends` and no other, and the first channel that cannot be named is
      reported. */
  lemma RunsTellTheirEvents<D>(pattern: bool, paths: seq<Path<D>>, events: seq<Event<D>>, i: nat)
    requires IsRun(pattern, paths, events) && i <= |events|
    ensures paths[i].accepted == Arrivals(paths, events, i)
    ensures paths[i].disconnected <==> Ended(paths, events, i)
    ensures paths[i].stuck <==> exists k :: 0 <= k < i && !paths[k].stuck && Overloads(paths[k], events[k])
    ensures paths[i].settled == Settlements(events, i)
    ensures paths[i].released <==> exists k :: 0 <= k < i && events[k] == ConfirmationSettles(true)
    ensures Confirmed(paths[i].log) <==> exists k :: 0 <= k < i && events[k].Confirms?
    ensures Reported(paths[i].log) <==> exists k :: 0 <= k < i && Unnameable(paths, events, k)
  {
    hide Step, Ended, Overloads, Confirmed, Reported;
    FlowTells(pattern, paths, events, i);
    WriterTells(pattern, paths, events, i);
    ConfirmationTells(pattern, paths, events, i);
    ReportTells(pattern, paths, events, i);
  }

  lemma FreshIsBlank<D>(pattern: bool)
    ensures !Confirmed(Fresh<D>(pattern).log) && !Reported(Fresh<D>(pattern).log)
  {
  }

  lemma {:induction false} ArrivalsWereSupported<D>(paths: seq<Path<D>>, events: seq<Event<D>>, i: nat, d: D)
    requires i <= |events| && |paths| == |events| + 1 && d in Arrivals(paths, events, i)
    ensures exists j :: 0 <= j < i && events[j] == Arrives(d, true)
  {
    hide Ended;
    if d in Arrivals(paths, events, i - 1) {
      ArrivalsWereSupported(paths, events, i - 1, d);
    } else {
      assert events[i - 1] == Arrives(d, true);
    }
  }

  /** A message is accepted only if it arrived on a channel that an event can name. */
  lemma AcceptedWereSupported<D>(pattern: bool, paths: seq<Path<D>>, events: seq<Event<D>>, i: nat, d: D)
    requires IsRun(pattern, paths, events) && i <= |events| && d in paths[i].accepted
    ensures exists j :: 0 <= j < i && events[j] == Arrives(d, true)
  {
    FlowTells(pattern, paths, events, i);
    ArrivalsWereSupported(paths, events, i, d);
  }

  lemma {:induction false} WrittenIsInLog<D>(log: seq<Sse<D>>, k: nat)
    requires k < |log| && log[k].Message?
    ensures log[k].data in Written(log)
  {
    if k < |log| - 1 {
      WrittenIsInLog(log[..|log| - 1], k);
    }
  }

  /** Delivery, at every moment of every run: the messages written are a prefix of the messages accepted, in
      order of arrival and each after the confirmation; the confirmation, if there is one, is the first event of
      all, and the only log without one is the lone error of a pattern subscription that met an unsupported
      channel; unsettled writes are counted exactly and never exceed the bound; the writer calls onStuck at
      most once. */
  lemma DeliveryIsOrderedAndBounded<D>(pattern: bool, paths: seq<Path<D>>, events: seq<Event<D>>, i: nat)
    requires IsRun(pattern, paths, events) && i <= |events|
    ensures Written(paths[i].log) <= paths[i].accepted
    ensures forall k :: 0 <= k < |paths[i].log| && paths[i].log[k].Message? ==> Confirmed(paths[i].log[..k])
    ensures Confirmed(paths[i].log) ==> paths[i].log[0].Confirmation?
    ensures paths[i].log != [] ==> paths[i].log[0].Confirmation? || (pattern && paths[i].log == [Unsupported])
    ensures forall k, j :: 0 <= k < j < |paths[i].log| && paths[i].log[k].Unsupported? ==> !paths[i].log[j].Unsupported?
    ensures paths[i].outstanding == |Written(paths[i].log)| - paths[i].settled <= MAX_OUTSTANDING
    ensures paths[i].stuckCalls <= 1
  {
    RunsAreKept(pattern, paths, events, i);
  }

  /** The confirmation has been written by moment i, and nothing has made the writer give up. */
  ghost predicate Unhindered<D>(paths: seq<Path<D>>, events: seq<Event<D>>, i: nat)
    requires i <= |events| && |paths| == |events| + 1
  {
    && (exists k :: 0 <= k < i && events[k] == ConfirmationSettles(true))
    && (forall k :: 0 <= k < i ==> paths[k].stuck || !Overloads(paths[k], events[k]))
  }

  /** Nothing that arrives is lost, before the confirmation or after it: at every moment what has been written is a
      prefix of the arrivals, and once the confirmation has settled it is all of them, unless the writer gave up. */
  lemma NothingIsLost<D>(pattern: bool, paths: seq<Path<D>>, events: seq<Event<D>>, i: nat)
    requires IsRun(pattern, paths, events) && i <= |events|
    ensures Written(paths[i].log) <= Arrivals(paths, events, i)
    ensures Unhindered(paths, events, i) ==> Written(paths[i].log) == Arrivals(paths, events, i)
  {
    RunsAreKept(pattern, paths, events, i);
    RunsTellTheirEvents(pattern, paths, events, i);
  }

  /** After it has given up, the writer writes nothing and calls onStuck no more. */
  lemma StuckIsSilent<D>(p: Path<D>, e: Event<D>)
    requires Kept(p) && Enabled(p, e) && p.stuck
    ensures Step(p, e).stuck && Step(p, e).stuckCalls == p.stuckCalls
    ensures Written(Step(p, e).log) == Written(p.log)
  {
    match e {
      case Arrives(d, supported) => WrittenAppends(p.log, Unsupported);
      case Confirms => WrittenAppends(p.log, Confirmation);
      case _ =>
    }
  }
}
