/** The life of SSE subscriptions (src/routes/pubsub.ts) as interleaved steps. A step is one stretch of a
    handler between two awaits, a callback, or a part of shutdown; steps of different handlers interleave
    freely. */
module Subscriptions {
  import opened SlotLimiting
  import opened Sets

  datatype Kind = Exact | Pattern

  datatype Phase =
    | Connecting          // a slot is held; the dedicated connection is being opened
    | Subscribing         // exact only: awaiting SUBSCRIBE
    | Confirming          // awaiting the write of the confirmation
    | Listening           // awaiting the client's abort or the connection's end
    | Refused             // answered without a slot
    | Exited              // gave its slot back

  datatype Link = Unopened | Open | Closed

  datatype Handler = Handler(
    kind: Kind,
    phase: Phase,
    link: Link,              // its dedicated connection
    gone: bool,              // the client has left, noticed or not
    ended: bool,             // abort or drop noticed: Listening may finish
    disconnected: bool,      // pattern only: checked when the connection opens
    releases: nat)           // calls of limiter.release()

  datatype Server = Server(
    max: nat,
    used: nat,               // the limiter's counter
    active: set<nat>,        // activeSubscriptions
    shuttingDown: bool,
    swept: bool,             // closeAllSubscriptions has run
    handlers: map<nat, Handler>)

  datatype Event =
    | Request(id: nat, kind: Kind, valid: bool)
    | TransportUp(id: nat)                   // the socket is open; the handler still awaits its setup
    | OpenFails(id: nat)
    | Opens(id: nat)                         // the handler resumes with its connection
    | SubscribeSettles(id: nat, ok: bool)    // reply, error or timeout
    | ConfirmationSettles(id: nat, ok: bool)
    | Aborts(id: nat)                        // client gone, or the writer gave up on it
    | Drops(id: nat)                         // Redis side of the connection ends
    | Finishes(id: nat)
    | SetShuttingDown
    | CloseAll

  function Start(max: nat): Server {
    Server(max, 0, {}, false, false, map[])
  }

  predicate Running(h: Handler) {
    h.phase.Subscribing? || h.phase.Confirming? || h.phase.Listening?
  }

  /** Holding a slot: reserved and not yet exited. */
  predicate Holds(h: Handler) {
    h.phase.Connecting? || Running(h)
  }

  predicate Enabled(s: Server, e: Event) {
    match e
    case Request(id, _, _) => id !in s.handlers
    case TransportUp(id) => id in s.handlers && s.handlers[id].phase.Connecting? && s.handlers[id].link.Unopened?
    case OpenFails(id) =>
      // A pattern handler can fail with its socket open, in AUTH, SELECT or PSUBSCRIBE.
      && id in s.handlers && s.handlers[id].phase.Connecting?
      && (s.handlers[id].kind.Exact? ==> s.handlers[id].link.Unopened?)
    case Opens(id) => id in s.handlers && s.handlers[id].phase.Connecting? && s.handlers[id].link.Open?
    case SubscribeSettles(id, _) => id in s.handlers && s.handlers[id].phase.Subscribing?
    case ConfirmationSettles(id, _) => id in s.handlers && s.handlers[id].phase.Confirming?
    case Aborts(id) => id in s.handlers && Holds(s.handlers[id])
    case Drops(id) => id in s.handlers && Holds(s.handlers[id]) && !s.handlers[id].link.Unopened?
    case Finishes(id) => id in s.handlers && s.handlers[id].phase.Listening? && s.handlers[id].ended
    case SetShuttingDown => true
    case CloseAll => s.shuttingDown
  }

  function NewHandler(kind: Kind, phase: Phase): Handler {
    Handler(kind, phase, Unopened, false, false, false, 0)
  }

  function Put(s: Server, id: nat, h: Handler): Server {
    s.(handlers := s.handlers[id := h])
  }

  /** The `finally` of a handler, also the body of the bail-out when shutdown is seen late. */
  function Exit(s: Server, id: nat): Server
    requires id in s.handlers
  {
    var h := s.handlers[id];
    Put(s, id, h.(phase := Exited, releases := h.releases + 1, link := if h.link.Open? then Closed else h.link))
    .(used := Released(s.used), active := s.active - {id})
  }

  function AfterOpening(kind: Kind): Phase {
    if kind.Exact? then Subscribing else Confirming
  }

  function Register(s: Server, id: nat): Server
    requires id in s.handlers
  {
    var h := s.handlers[id];
    Put(s, id, h.(phase := AfterOpening(h.kind))).(active := s.active + {id})
  }

  function Swept(s: Server): Server {
    s.(swept := true, active := {},
       handlers := map id | id in s.handlers ::
         if id in s.active then s.handlers[id].(link := Closed, ended := true, disconnected := true)
         else s.handlers[id])
  }

  /** Whether the handler's callbacks for an abort and for the end of its connection are in place. */
  predicate Hears(h: Handler) {
    h.kind.Pattern? || !h.phase.Connecting?
  }

  function Step(s: Server, e: Event): Server
    requires Enabled(s, e)
  {
    match e
    case Request(id, kind, valid) =>
      if !valid || s.shuttingDown || s.used >= s.max then Put(s, id, NewHandler(kind, Refused))
      else Put(s, id, NewHandler(kind, Connecting)).(used := s.used + 1)
    case TransportUp(id) => Put(s, id, s.handlers[id].(link := Open))
    case OpenFails(id) => Exit(s, id)
    case Opens(id) =>
      var h := s.handlers[id];
      var up := Register(s, id);
      if s.shuttingDown || (h.kind.Pattern? && h.disconnected) then Exit(up, id) else up
    case SubscribeSettles(id, ok) =>
      if ok then Put(s, id, s.handlers[id].(phase := Confirming)) else Exit(s, id)
    case ConfirmationSettles(id, ok) =>
      if ok then Put(s, id, s.handlers[id].(phase := Listening)) else Exit(s, id)
    case Aborts(id) =>
      // An exact handler registers onAbort only once it has its connection.
      var h := s.handlers[id];
      if Hears(h) then Put(s, id, h.(gone := true, ended := true, disconnected := true))
      else Put(s, id, h.(gone := true))
    case Drops(id) =>
      // So too for onclose; a pattern connection resolves its closed promise whenever it closes.
      if Hears(s.handlers[id]) then Put(s, id, s.handlers[id].(ended := true)) else s
    case Finishes(id) => Exit(s, id)
    case SetShuttingDown => s.(shuttingDown := true)
    case CloseAll => Swept(s)
  }

  // ---- What every interleaving keeps ----

  function Holding(s: Server): set<nat> {
    set id | id in s.handlers && Holds(s.handlers[id])
  }

  ghost predicate WellKept(s: Server) {
    && s.used == |Holding(s)| <= s.max
    && (forall id :: id in s.active ==> id in s.handlers && Running(s.handlers[id]))
    && (forall id :: id in s.handlers ==> HandlerKept(s.handlers[id], id in s.active))
    && (s.swept ==> s.shuttingDown && s.active == {})
  }

  /** One release for each reservation, at the exit; a connection is open only while registered or in setup. */
  predicate HandlerKept(h: Handler, registered: bool) {
    && h.releases == (if h.phase.Exited? then 1 else 0)
    && (h.link.Open? ==> registered || h.phase.Connecting?)
    && (Running(h) ==> !h.link.Unopened?)
    && (Running(h) && !registered ==> h.ended)
    && (h.kind.Pattern? && h.phase.Connecting? ==> (h.disconnected <==> h.gone))
    && (h.phase.Connecting? ==> !h.link.Closed?)
    && (h.phase.Refused? ==> h.link.Unopened?)
  }

  lemma PutKeepsHolding(s: Server, id: nat, h: Handler)
    ensures Holding(Put(s, id, h)) == if Holds(h) then Holding(s) + {id} else Holding(s) - {id}
  {
  }

  /** A handler leaves, its slot, registration and connection going with it. */
  lemma LeavingKeeps(s: Server, id: nat, h: Handler)
    requires WellKept(s) && id in s.handlers && Holds(s.handlers[id])
    requires h.phase.Exited? && h.releases == 1 && !h.link.Open?
    ensures WellKept(Put(s, id, h).(used := Released(s.used), active := s.active - {id}))
  {
    PutKeepsHolding(s, id, h);
    assert id in Holding(s);
    assert Holding(Put(s, id, h).(used := Released(s.used), active := s.active - {id})) == Holding(Put(s, id, h));
  }

  lemma ExitKeeps(s: Server, id: nat)
    requires WellKept(s) && id in s.handlers && Holds(s.handlers[id])
    ensures WellKept(Exit(s, id))
  {
    LeavingKeeps(s, id, Exit(s, id).handlers[id]);
  }

  /** A handler moves on without touching its slot. */
  lemma PutKeeps(s: Server, id: nat, h: Handler)
    requires WellKept(s) && id in s.handlers
    requires Holds(h) && Holds(s.handlers[id])
    requires HandlerKept(h, id in s.active)
    requires id in s.active ==> Running(h)
    ensures WellKept(Put(s, id, h))
  {
    PutKeepsHolding(s, id, h);
    assert id in Holding(s);
    assert Holding(s) + {id} == Holding(s);
  }

  /** A new handler, with a slot if it holds one. */
  lemma ArrivingKeeps(s: Server, id: nat, h: Handler)
    requires WellKept(s) && id !in s.handlers
    requires h.link.Unopened? && h.releases == 0 && !h.gone && !h.disconnected
    requires h.phase.Refused? || (h.phase.Connecting? && s.used < s.max)
    ensures WellKept(Put(s, id, h).(used := if h.phase.Connecting? then s.used + 1 else s.used))
  {
    PutKeepsHolding(s, id, h);
    assert id !in Holding(s) && Holding(s) - {id} == Holding(s);
    assert Holding(Put(s, id, h).(used := if h.phase.Connecting? then s.used + 1 else s.used))
        == Holding(Put(s, id, h));
  }

  lemma RegisteringKeeps(s: Server, id: nat)
    requires WellKept(s) && Enabled(s, Opens(id)) && !s.swept
    ensures WellKept(Register(s, id))
  {
    PutKeepsHolding(s, id, Register(s, id).handlers[id]);
    assert id in Holding(s);
    assert Holding(s) + {id} == Holding(s);
    assert Holding(Register(s, id)) == Holding(Put(s, id, Register(s, id).handlers[id]));
  }

  lemma OpensKeeps(s: Server, id: nat)
    requires WellKept(s) && Enabled(s, Opens(id))
    ensures WellKept(Step(s, Opens(id)))
  {
    var h := s.handlers[id];
    if s.shuttingDown || (h.kind.Pattern? && h.disconnected) {
      var out := Exit(Register(s, id), id);
      LeavingKeeps(s, id, out.handlers[id]);
      assert out.active == s.active - {id};
      assert out.handlers == s.handlers[id := out.handlers[id]];
    } else {
      RegisteringKeeps(s, id);
    }
  }

  lemma SweepKeeps(s: Server)
    requires WellKept(s) && s.shuttingDown
    ensures WellKept(Swept(s))
  {
    assert Holding(Swept(s)) == Holding(s);
  }

  lemma StepKeeps(s: Server, e: Event)
    requires WellKept(s) && Enabled(s, e)
    ensures WellKept(Step(s, e))
  {
    match e {
      case Request(id, kind, valid) => ArrivingKeeps(s, id, Step(s, e).handlers[id]);
      case TransportUp(id) => PutKeeps(s, id, s.handlers[id].(link := Open));
      case OpenFails(id) => ExitKeeps(s, id);
      case Opens(id) => OpensKeeps(s, id);
      case SubscribeSettles(id, ok) =>
        if ok { PutKeeps(s, id, s.handlers[id].(phase := Confirming)); } else { ExitKeeps(s, id); }
      case ConfirmationSettles(id, ok) =>
        if ok { PutKeeps(s, id, s.handlers[id].(phase := Listening)); } else { ExitKeeps(s, id); }
      case Aborts(id) =>
        var h := s.handlers[id];
        if Hears(h) {
          PutKeeps(s, id, h.(gone := true, ended := true, disconnected := true));
        } else {
          PutKeeps(s, id, h.(gone := true));
        }
      case Drops(id) => PutKeeps(s, id, s.handlers[id].(ended := true));
      case Finishes(id) => ExitKeeps(s, id);
      case SetShuttingDown => assert Holding(s.(shuttingDown := true)) == Holding(s);
      case CloseAll => SweepKeeps(s);
    }
  }

  /** A run: the states passed through, one step between each and the next. */
  ghost predicate IsRun(max: nat, states: seq<Server>, events: seq<Event>) {
    && |states| == |events| + 1 && states[0] == Start(max)
    && forall i :: 0 <= i < |events| ==> Enabled(states[i], events[i]) && states[i + 1] == Step(states[i], events[i])
  }

  lemma {:induction false} RunsAreWellKept(max: nat, states: seq<Server>, events: seq<Event>, i: nat)
    requires IsRun(max, states, events) && i <= |events|
    ensures WellKept(states[i]) && states[i].max == max
  {
    if i == 0 {
      assert Holding(Start(max)) == {};
    } else {
      RunsAreWellKept(max, states, events, i - 1);
      StepKeeps(states[i - 1], events[i - 1]);
    }
  }

  /** Slot conservation: the counter is the number of handlers that reserved and have not exited, each
      exited handler released once and no other released at all, and the registry fits in the slots. */
  lemma SlotsAreConserved(max: nat, states: seq<Server>, events: seq<Event>, i: nat)
    requires IsRun(max, states, events) && i <= |events|
    ensures var s := states[i];
            && s.used == |Holding(s)|
            && |s.active| <= s.used <= max
            && forall id :: id in s.handlers ==>
                 s.handlers[id].releases == if s.handlers[id].phase.Exited? then 1 else 0
  {
    RunsAreWellKept(max, states, events, i);
    SubsetsAreSmaller(states[i].active, Holding(states[i]));
  }

  /** Shutdown leaves nothing behind: after the sweep nothing is registered, and a dedicated connection is open
      only with a handler still in setup, whose next step with it, whichever that is, closes it and gives the
      slot back. */
  lemma ShutdownLeavesNothingOpen(max: nat, states: seq<Server>, events: seq<Event>, i: nat, id: nat)
    requires IsRun(max, states, events) && i <= |events| && states[i].swept
    ensures states[i].active == {}
    ensures id in states[i].handlers && states[i].handlers[id].link.Open? ==> states[i].handlers[id].phase.Connecting?
    ensures id in states[i].handlers && Running(states[i].handlers[id]) ==>
              states[i].handlers[id].link.Closed? && states[i].handlers[id].ended
    ensures id in states[i].handlers && states[i].handlers[id].phase.Connecting? ==>
              forall e :: e in {Opens(id), OpenFails(id)} && Enabled(states[i], e) ==>
                && Step(states[i], e).handlers[id].phase.Exited? && !Step(states[i], e).handlers[id].link.Open?
                && Step(states[i], e).used == states[i].used - 1
  {
    RunsAreWellKept(max, states, events, i);
    if id in states[i].handlers && states[i].handlers[id].phase.Connecting? {
      assert id in Holding(states[i]);
    }
  }

  /** From the moment the flag is set no step registers a subscription or takes a slot; opening a
      connection then closes it and gives the slot back at once. */
  lemma ShutdownAdmitsNobody(s: Server, e: Event)
    requires WellKept(s) && Enabled(s, e) && s.shuttingDown
    ensures Step(s, e).shuttingDown
    ensures Step(s, e).active <= s.active
    ensures Holding(Step(s, e)) <= Holding(s)
    ensures e.Opens? ==> Step(s, e).handlers[e.id].phase.Exited? && Step(s, e).handlers[e.id].link.Closed?
                         && Step(s, e).used == s.used - 1
  {
    if e.Opens? {
      OpensKeeps(s, e.id);
      assert e.id in Holding(s);
    }
  }

  /** A live subscription that notices its client or its connection is gone can finish, and its finish
      gives back the slot, the registration and the connection. */
  lemma EndedListenersFinish(s: Server, id: nat)
    requires WellKept(s) && id in s.handlers && s.handlers[id].phase.Listening? && s.handlers[id].ended
    ensures Enabled(s, Finishes(id))
    ensures var s' := Step(s, Finishes(id));
            s'.used == s.used - 1 && id !in s'.active && s'.handlers[id].link.Closed?
            && s'.handlers == s.handlers[id := s'.handlers[id]]
  {
    ExitKeeps(s, id);
    assert id in Holding(s);
  }

  // ---- Who gets a slot, and who gives one back ----

  /** Nothing happens to a handler but its own steps and the sweep. */
  lemma OthersAreLeftAlone(s: Server, e: Event, other: nat)
    requires Enabled(s, e) && !e.CloseAll? && (e.SetShuttingDown? || other != Subject(e))
    ensures other in Step(s, e).handlers <==> other in s.handlers
    ensures other in s.handlers ==> Step(s, e).handlers[other] == s.handlers[other]
    ensures other in Step(s, e).active <==> other in s.active
  {
  }

  /** A request gets a slot if and only if its target is valid, shutdown has not begun and fewer handlers than the
      maximum hold one; it then starts connecting. Any other request is refused and changes nothing else. */
  lemma RequestsAreAdmitted(max: nat, states: seq<Server>, events: seq<Event>, i: nat)
    requires IsRun(max, states, events) && i < |events| && events[i].Request?
    ensures var s, s', e := states[i], states[i + 1], events[i];
            && (e.id in Holding(s') <==> e.valid && !s.shuttingDown && |Holding(s)| < max)
            && s'.used == s.used + (if e.id in Holding(s') then 1 else 0)
            && s'.active == s.active
            && s'.handlers == s.handlers[e.id := s'.handlers[e.id]]
            && s'.handlers[e.id].kind == e.kind && s'.handlers[e.id].link.Unopened?
            && (if e.id in Holding(s') then s'.handlers[e.id].phase.Connecting? else s'.handlers[e.id].phase.Refused?)
  {
    RunsAreWellKept(max, states, events, i);
    assert events[i].id !in Holding(states[i]);
  }

  /** A handler whose connection has opened stays if and only if shutdown has not begun and it is not a pattern
      handler whose client has left; it is then registered with its connection, an exact one about to subscribe and
      a pattern one about to confirm. */
  lemma OpeningsAreKept(max: nat, states: seq<Server>, events: seq<Event>, i: nat)
    requires IsRun(max, states, events) && i < |events| && events[i].Opens?
    ensures var s, s', id := states[i], states[i + 1], events[i].id;
            && (id in Holding(s') <==> !s.shuttingDown && !(s.handlers[id].kind.Pattern? && s.handlers[id].gone))
            && (id in Holding(s') ==>
                  && id in s'.active && s'.handlers[id].link.Open? && s'.used == s.used
                  && s'.handlers[id].phase == if s.handlers[id].kind.Exact? then Subscribing else Confirming)
            && (id !in Holding(s') ==> Left(s, s', id))
  {
    RunsAreWellKept(max, states, events, i);
    assert events[i].id in Holding(states[i]);
  }

  /** The handler is out: no slot, no registration, no open connection, and one slot more is free. */
  ghost predicate Left(s: Server, s': Server, id: nat) {
    && id in s'.handlers && s'.handlers[id].phase.Exited?
    && id !in Holding(s') && id !in s'.active && !s'.handlers[id].link.Open?
    && s'.used == s.used - 1 && Holding(s') == Holding(s) - {id}
  }

  /** An await that fails ends the handler, whichever it is, with its connection closed; one that succeeds leaves it
      its slot, its registration and its connection, and brings it to the next await. */
  lemma AwaitsDecide(max: nat, states: seq<Server>, events: seq<Event>, i: nat)
    requires IsRun(max, states, events) && i < |events|
    requires events[i].OpenFails? || events[i].SubscribeSettles? || events[i].ConfirmationSettles?
             || events[i].Finishes?
    ensures var s, s', e := states[i], states[i + 1], events[i];
            if e.OpenFails? || e.Finishes? || !e.ok then
              Left(s, s', e.id) && (!e.OpenFails? ==> s'.handlers[e.id].link.Closed?)
            else
              && Holding(s') == Holding(s) && s'.used == s.used && s'.active == s.active
              && s'.handlers[e.id] == s.handlers[e.id].(phase := if e.SubscribeSettles? then Confirming else Listening)
  {
    RunsAreWellKept(max, states, events, i);
    assert events[i].id in Holding(states[i]);
  }

  /** Nothing else gives or takes a slot. */
  lemma SlotsMoveOnlyThen(s: Server, e: Event)
    requires Enabled(s, e) && (e.TransportUp? || e.Aborts? || e.Drops? || e.SetShuttingDown? || e.CloseAll?)
    ensures Holding(Step(s, e)) == Holding(s) && Step(s, e).used == s.used
  {
    if !e.SetShuttingDown? && !e.CloseAll? {
      assert e.id in s.handlers && Holds(s.handlers[e.id]);
    }
  }

  // ---- Departures nobody notices ----

  /** The event makes the handler notice that its client or its connection is gone. */
  ghost predicate Notices(s: Server, e: Event, id: nat) {
    && id in s.handlers
    && match e
       case Aborts(x) => x == id && Hears(s.handlers[id])
       case Drops(x) => x == id && Hears(s.handlers[id])
       case CloseAll => id in s.active
       case _ => false
  }

  /** The client of an exact handler leaves while the connection is being opened. */
  ghost predicate LeavesEarly(s: Server, e: Event, id: nat) {
    e == Aborts(id) && id in s.handlers && s.handlers[id].kind.Exact? && s.handlers[id].phase.Connecting?
  }

  /** What one step does to a handler: it keeps its kind and, while it holds its slot, every mark. */
  lemma OneStepMarks(s: Server, e: Event, id: nat)
    requires Enabled(s, e) && id in s.handlers
    ensures id in Step(s, e).handlers && Step(s, e).handlers[id].kind == s.handlers[id].kind
    ensures var h := Step(s, e).handlers[id];
            Holds(h) ==>
              && Holds(s.handlers[id])
              && (h.ended <==> s.handlers[id].ended || Notices(s, e, id))
              && (h.gone <==> s.handlers[id].gone || e == Aborts(id))
  {
    match e {
      case Request(x, _, _) => assert x != id;
      case CloseAll => assert id in Swept(s).handlers;
      case SetShuttingDown =>
      case _ =>
        if id != Subject(e) {
          assert Step(s, e).handlers[id] == s.handlers[id];
        }
    }
  }

  function Subject(e: Event): nat {
    if e.SetShuttingDown? || e.CloseAll? then 0 else e.id
  }

  lemma NewHandlersAreUnmarked(s: Server, e: Event, id: nat)
    requires Enabled(s, e) && id !in s.handlers && id in Step(s, e).handlers
    ensures !Step(s, e).handlers[id].ended && !Step(s, e).handlers[id].gone
    ensures e.Request? && !Notices(s, e, id)
  {
  }

  lemma {:induction false} HandlersStay(max: nat, states: seq<Server>, events: seq<Event>, k: nat, i: nat, id: nat)
    requires IsRun(max, states, events) && k <= i <= |events| && id in states[k].handlers
    ensures id in states[i].handlers && states[i].handlers[id].kind == states[k].handlers[id].kind
  {
    hide Step;
    if k < i {
      HandlersStay(max, states, events, k, i - 1, id);
      OneStepMarks(states[i - 1], events[i - 1], id);
    }
  }

  /** The marks of a handler that holds a slot tell its history. */
  lemma {:induction false} MarksTellHistory(max: nat, states: seq<Server>, events: seq<Event>, i: nat, id: nat)
    requires IsRun(max, states, events) && i <= |events|
    requires id in states[i].handlers && Holds(states[i].handlers[id])
    ensures states[i].handlers[id].ended <==> exists k :: 0 <= k < i && Notices(states[k], events[k], id)
    ensures states[i].handlers[id].gone <==> exists k :: 0 <= k < i && events[k] == Aborts(id)
  {
    hide Step;
    if i > 0 {
      if id in states[i - 1].handlers {
        OneStepMarks(states[i - 1], events[i - 1], id);
        MarksTellHistory(max, states, events, i - 1, id);
      } else {
        NewHandlersAreUnmarked(states[i - 1], events[i - 1], id);
        forall k | 0 <= k < i
          ensures id !in states[k].handlers
        {
          if id in states[k].handlers {
            HandlersStay(max, states, events, k, i - 1, id);
          }
        }
      }
    }
  }

  /** A handler past its setup whose client is gone cannot tell if and only if it is an exact one, its client left
      while the connection was being opened, and no drop, sweep or later abort came to its notice. Until one does
      it cannot finish, and it keeps its slot. */
  lemma UnnoticedDepartures(max: nat, states: seq<Server>, events: seq<Event>, i: nat, id: nat)
    requires IsRun(max, states, events) && i <= |events|
    requires id in states[i].handlers && Running(states[i].handlers[id])
    ensures states[i].handlers[id].gone && !states[i].handlers[id].ended
       <==> (exists k :: 0 <= k < i && LeavesEarly(states[k], events[k], id))
            && !exists k :: 0 <= k < i && Notices(states[k], events[k], id)
    ensures !states[i].handlers[id].ended ==> !Enabled(states[i], Finishes(id)) && id in Holding(states[i])
  {
    hide Step;
    MarksTellHistory(max, states, events, i, id);
    if states[i].handlers[id].gone && !states[i].handlers[id].ended {
      var k :| 0 <= k < i && events[k] == Aborts(id);
      assert Enabled(states[k], events[k]) && !Notices(states[k], events[k], id);
      assert LeavesEarly(states[k], events[k], id);
    }
  }

  /** A server with one exact handler. */
  function Alone(max: nat, phase: Phase, link: Link, gone: bool): Server {
    Server(max, 1, if phase.Connecting? then {} else {0}, false, false,
           map[0 := Handler(Exact, phase, link, gone, false, false, 0)])
  }

  const EARLY_DEPARTURE: seq<Event> :=
    [Request(0, Exact, true), Aborts(0), TransportUp(0), Opens(0), SubscribeSettles(0, true),
     ConfirmationSettles(0, true)]

  function EarlyDeparture(max: nat): seq<Server> {
    [Start(max), Alone(max, Connecting, Unopened, false), Alone(max, Connecting, Unopened, true),
     Alone(max, Connecting, Open, true), Alone(max, Subscribing, Open, true), Alone(max, Confirming, Open, true),
     Alone(max, Listening, Open, true)]
  }

  /** It does happen: a client that leaves early is not missed, and its handler listens on with its slot and its
      connection. */
  lemma EarlyDepartureKeepsItsSlot(max: nat)
    requires max > 0
    ensures IsRun(max, EarlyDeparture(max), EARLY_DEPARTURE)
    ensures var s := EarlyDeparture(max)[6];
            && s.handlers[0].phase.Listening? && s.handlers[0].gone && s.handlers[0].link.Open?
            && s.used == 1 && !Enabled(s, Finishes(0))
  {
    EarlyStates(max);
    var states := EarlyDeparture(max);
    forall i | 0 <= i < |EARLY_DEPARTURE|
      ensures Enabled(states[i], EARLY_DEPARTURE[i]) && states[i + 1] == Step(states[i], EARLY_DEPARTURE[i])
    {
      hide Step, Enabled, Alone;
      assert i in {0, 1, 2, 3, 4, 5};
    }
  }

  lemma EarlyStates(max: nat)
    requires max > 0
    ensures var a, b, c, d := Alone(max, Connecting, Unopened, false), Alone(max, Connecting, Unopened, true),
                              Alone(max, Connecting, Open, true), Alone(max, Subscribing, Open, true);
            && Enabled(Start(max), Request(0, Exact, true)) && Step(Start(max), Request(0, Exact, true)) == a
            && Enabled(a, Aborts(0)) && Step(a, Aborts(0)) == b
            && Enabled(b, TransportUp(0)) && Step(b, TransportUp(0)) == c
            && Enabled(c, Opens(0)) && Step(c, Opens(0)) == d
    ensures var d, e, f := Alone(max, Subscribing, Open, true), Alone(max, Confirming, Open, true),
                           Alone(max, Listening, Open, true);
            && Enabled(d, SubscribeSettles(0, true)) && Step(d, SubscribeSettles(0, true)) == e
            && Enabled(e, ConfirmationSettles(0, true)) && Step(e, ConfirmationSettles(0, true)) == f
  {
  }
}
