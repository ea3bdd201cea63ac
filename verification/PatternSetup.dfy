/** `createPatternSubscription` as a state machine over its awaits: the connect race, the AUTH, SELECT and
    PSUBSCRIBE exchanges, and the catch that closes. Callbacks of the socket and timers come in between,
    in any order. */
module PatternSetup {
  import opened Wrappers
  import opened Bytes
  import opened Resp
  import opened PatternProtocol

  datatype Exchange = Auth | Select | Psubscribe

  datatype Race = Undecided | Won(socket: nat) | Lost

  datatype Stage =
    | Racing                                    // awaiting the connect race
    | Ready(next: Exchange)                     // about to send
    | Awaiting(sent: Exchange, command: nat)
    | Live(count: int)                          // createPatternSubscription has returned
    | Failing                                   // an exception is on its way to the catch
    | Rejected                                  // the catch has run

  /** What the Redis URL says; absent parts are empty, and the default database is 0. */
  datatype Target = Target(username: Bytes, password: Bytes, db: nat)

  datatype World = World(
    conn: Conn,
    stage: Stage,
    race: Race,
    timedOut: bool,
    connectSettled: bool,       // Bun.connect settles once
    obtained: set<nat>)         // every socket it ever gave us

  const BEGIN: World := World(FRESH, Racing, Undecided, false, false, {})

  datatype Event =
    | SocketArrives(socket: nat)
    | ConnectFails
    | ConnectTimesOut
    | RaceResumes
    | SendNext(written: bool)
    | ReplyResumes
    | CatchRuns
    | Callback(e: PatternProtocol.Event)   // data, close, error, command timer
    | SubscriberCloses                     // the returned close()

  function AfterConnect(t: Target): Exchange {
    if t.password != [] then Auth else if t.db > 0 then Select else Psubscribe
  }

  function AfterAuth(t: Target): Exchange {
    if t.db > 0 then Select else Psubscribe
  }

  const OK: Bytes := AsciiBytes("OK")
  const PSUBSCRIBE_REPLY: Bytes := AsciiBytes("psubscribe")

  /** Where a settled exchange leads; `coerce` is JavaScript's `Number` applied to a reply element. */
  function AfterReply(t: Target, coerce: Value -> Num, sent: Exchange, outcome: Outcome): Stage {
    if outcome.Failed? then Failing else
      match sent
      case Auth => if outcome.value == Text(OK) then Ready(AfterAuth(t)) else Failing
      case Select => if outcome.value == Text(OK) then Ready(Psubscribe) else Failing
      case Psubscribe =>
        if outcome.value.Items? && |outcome.value.items| >= 3 && outcome.value.items[0] == Text(PSUBSCRIBE_REPLY) then
          (match coerce(outcome.value.items[2])
           case Whole(n) => if n < 1 then Failing else Live(n)
           case _ => Failing)
        else Failing
  }

  function OutcomeFor(settled: seq<Settlement>, command: nat): Option<Outcome> {
    if settled == [] then None
    else if settled[0].command == command then Some(settled[0].outcome)
    else OutcomeFor(settled[1..], command)
  }

  predicate CallbackEnabled(c: Conn, e: PatternProtocol.Event) {
    (e.Data? || e.Timer? || e.Shut?) && PatternProtocol.Enabled(c, e)
  }

  predicate Enabled(w: World, e: Event) {
    match e
    case SocketArrives(_) => !w.connectSettled
    case ConnectFails => !w.connectSettled
    case ConnectTimesOut => w.stage.Racing? && !w.timedOut
    case RaceResumes => w.stage.Racing? && !w.race.Undecided?
    case SendNext(_) => w.stage.Ready?
    case ReplyResumes => w.stage.Awaiting? && OutcomeFor(w.conn.settled, w.stage.command).Some?
    case CatchRuns => w.stage.Failing?
    case Callback(e) => CallbackEnabled(w.conn, e)
    case SubscriberCloses => w.stage.Live?
  }

  function Step(number: NumberOf, coerce: Value -> Num, t: Target, w: World, e: Event): World
    requires Enabled(w, e)
  {
    match e
    case SocketArrives(s) =>
      // A socket that comes too late is torn down on arrival.
      var conn := if w.timedOut || w.conn.closed then w.conn.(terminated := w.conn.terminated + {s}) else w.conn;
      w.(conn := conn, connectSettled := true, obtained := w.obtained + {s},
         race := if w.race.Undecided? then Won(s) else w.race)
    case ConnectFails => w.(connectSettled := true, race := if w.race.Undecided? then Lost else w.race)
    case ConnectTimesOut => w.(timedOut := true, race := if w.race.Undecided? then Lost else w.race)
    case RaceResumes =>
      if w.race.Won? then w.(conn := w.conn.(socket := Some(w.race.socket)), stage := Ready(AfterConnect(t)))
      else w.(stage := Failing)
    case SendNext(written) => w.(conn := Send(w.conn, written), stage := Awaiting(w.stage.next, w.conn.sent))
    case ReplyResumes =>
      w.(stage := AfterReply(t, coerce, w.stage.sent, OutcomeFor(w.conn.settled, w.stage.command).value))
    case CatchRuns => w.(conn := Close(w.conn), stage := Rejected)
    case Callback(e) => w.(conn := PatternProtocol.Step(number, w.conn, e))
    case SubscriberCloses => w.(conn := Close(w.conn))
  }

  // ---- What every run keeps ----

  /** A transport attached to a connection already closed: its setup can only fail from here. */
  predicate Dead(w: World) {
    w.conn.closed && w.conn.socket.Some?
  }

  ghost predicate Accounted(w: World) {
    && (w.stage.Racing? ==> w.conn.socket.None? && w.conn.sent == 0)
    && (w.race.Undecided? ==> w.obtained == {} && !w.timedOut && !w.connectSettled && w.stage.Racing?)
    && (w.race.Won? ==> w.obtained == {w.race.socket} && w.connectSettled)
    && (w.race.Lost? ==> w.timedOut || w.connectSettled)
    && (w.race.Lost? ==> w.obtained <= w.conn.terminated)
    && (w.race.Lost? ==> w.stage.Racing? || w.stage.Failing? || w.stage.Rejected?)
    && (w.race.Won? && !w.stage.Racing? ==>
          w.race.socket in w.conn.terminated || w.conn.socket == Some(w.race.socket))
    && (w.stage.Rejected? ==> w.conn.closed && w.conn.socket.None?)
    && (Dead(w) ==> w.stage.Ready? || w.stage.Failing? || AwaitsRejection(w))
  }

  ghost predicate AwaitsRejection(w: World) {
    && w.stage.Awaiting? && OutcomeFor(w.conn.settled, w.stage.command).Some?
    && OutcomeFor(w.conn.settled, w.stage.command).value.Failed?
  }

  /** At most one command is outstanding, and it is the one the setup is waiting for. */
  ghost predicate SingleFlight(w: World) {
    && Disciplined(w.conn)
    && (w.stage.Awaiting? ==> w.conn.sent == w.stage.command + 1)
    && (w.conn.pending == [] || (w.stage.Awaiting? && w.conn.pending == [w.stage.command]))
  }

  lemma {:induction false} OutcomeExtends(settled: seq<Settlement>, more: seq<Settlement>, command: nat)
    requires OutcomeFor(settled, command).Some?
    ensures OutcomeFor(settled + more, command) == OutcomeFor(settled, command)
  {
    if settled[0].command != command {
      assert (settled + more)[1..] == settled[1..] + more;
      OutcomeExtends(settled[1..], more, command);
    } else {
      assert (settled + more)[0] == settled[0];
    }
  }

  lemma {:induction false} OutcomeOfNew(settled: seq<Settlement>, s: Settlement)
    requires s.command !in Settled(settled)
    ensures OutcomeFor(settled + [s], s.command) == Some(s.outcome)
  {
    if settled == [] {
      assert settled + [s] == [s];
    } else {
      assert settled[0].command == Settled(settled)[0];
      assert Settled(settled)[1..] == Settled(settled[1..]);
      assert (settled + [s])[1..] == settled[1..] + [s];
      OutcomeOfNew(settled[1..], s);
    }
  }

  // ---- What the connection's own steps change ----

  /** Only closing touches the transport; nothing forgets a settlement or a torn-down socket. */
  ghost predicate Evolves(c: Conn, d: Conn) {
    && c.sent == d.sent && c.settled <= d.settled && c.terminated <= d.terminated
    && (c.closed ==> d.closed)
    && (d.socket == c.socket || d.socket.None?)
    && (c.socket.Some? && d.socket.None? ==> c.socket.value in d.terminated && d.closed)
    && (c.socket.Some? && d.closed && !c.closed ==> d.socket.None?)
    && (|c.pending| <= 1 ==> d.pending == [] || d.pending == c.pending)
  }

  lemma OnValueEvolves(c: Conn, v: Value)
    requires Disciplined(c)
    ensures Evolves(c, OnValue(c, v))
  {
  }

  lemma {:induction false} OnValuesEvolves(c: Conn, vs: seq<Value>)
    requires Disciplined(c)
    ensures Evolves(c, OnValues(c, vs))
  {
    if vs != [] {
      var before := OnValues(c, vs[..|vs| - 1]);
      OnValuesEvolves(c, vs[..|vs| - 1]);
      OnValuesKeepsDiscipline(c, vs[..|vs| - 1]);
      OnValueEvolves(before, vs[|vs| - 1]);
    }
  }

  lemma CallbackEvolves(number: NumberOf, c: Conn, e: PatternProtocol.Event)
    requires Disciplined(c) && CallbackEnabled(c, e)
    ensures Evolves(c, PatternProtocol.Step(number, c, e))
  {
    match e {
      case Data(chunk) =>
        hide PatternProtocol.OnValues;
        var p := RespStream.PushResp(number, c.buffer, chunk);
        assert Disciplined(c.(buffer := p.buffer));
        if p.result.Delivered? {
          OnValuesEvolves(c.(buffer := p.buffer), p.result.values);
        }
      case _ =>
    }
  }

  lemma EvolvingKeepsAccounts(w: World, d: Conn)
    requires Accounted(w) && SingleFlight(w) && Evolves(w.conn, d) && Disciplined(d)
    ensures Accounted(w.(conn := d)) && SingleFlight(w.(conn := d))
  {
    if AwaitsRejection(w) {
      OutcomeExtends(w.conn.settled, d.settled[|w.conn.settled|..], w.stage.command);
      assert d.settled == w.conn.settled + d.settled[|w.conn.settled|..];
    }
  }

  lemma SendingKeepsAccounts(w: World, written: bool)
    requires Accounted(w) && SingleFlight(w) && w.stage.Ready?
    ensures var w' := w.(conn := Send(w.conn, written), stage := Awaiting(w.stage.next, w.conn.sent));
            Accounted(w') && SingleFlight(w')
  {
    var c, id := w.conn, w.conn.sent;
    SendKeepsDiscipline(c, written);
    if c.socket.None? || c.closed {
      assert multiset(Settled(c.settled))[id] == 0;
      OutcomeOfNew(c.settled, Settlement(id, Failed(ConnectionClosed)));
    } else {
      assert c.pending + [id] == [id];
      assert Without([id], id) == [];
    }
  }

  lemma StepKeepsAccounts(number: NumberOf, coerce: Value -> Num, t: Target, w: World, e: Event)
    requires Accounted(w) && SingleFlight(w) && Enabled(w, e)
    ensures Accounted(Step(number, coerce, t, w, e)) && SingleFlight(Step(number, coerce, t, w, e))
  {
    match e {
      case Callback(event) =>
        CallbackEvolves(number, w.conn, event);
        StepKeepsDiscipline(number, w.conn, event);
        EvolvingKeepsAccounts(w, PatternProtocol.Step(number, w.conn, event));
      case SubscriberCloses =>
        CloseKeepsDiscipline(w.conn);
        EvolvingKeepsAccounts(w, Close(w.conn));
      case CatchRuns =>
        CloseKeepsDiscipline(w.conn);
        EvolvingKeepsAccounts(w, Close(w.conn));
      case SendNext(written) => SendingKeepsAccounts(w, written);
      case ReplyResumes => SettledIsNotPending(w);
      case SocketArrives(s) => assert Disciplined(Step(number, coerce, t, w, e).conn);
      case RaceResumes => assert Disciplined(Step(number, coerce, t, w, e).conn);
      case _ =>
    }
  }

  lemma {:induction false} OutcomeMeansSettled(settled: seq<Settlement>, command: nat)
    requires OutcomeFor(settled, command).Some?
    ensures command in Settled(settled)
  {
    if settled[0].command == command {
      assert Settled(settled)[0] == command;
    } else {
      OutcomeMeansSettled(settled[1..], command);
      assert Settled(settled)[1..] == Settled(settled[1..]);
    }
  }

  lemma SettledIsNotPending(w: World)
    requires SingleFlight(w) && Enabled(w, ReplyResumes)
    ensures w.conn.pending == []
  {
    OutcomeMeansSettled(w.conn.settled, w.stage.command);
    assert multiset(Settled(w.conn.settled))[w.stage.command] > 0;
    assert multiset(w.conn.pending)[w.stage.command] == 0;
  }

  // ---- Runs ----

  ghost predicate IsRun(number: NumberOf, coerce: Value -> Num, t: Target, worlds: seq<World>, events: seq<Event>) {
    && |worlds| == |events| + 1 && worlds[0] == BEGIN
    && forall i :: 0 <= i < |events| ==>
         Enabled(worlds[i], events[i]) && worlds[i + 1] == Step(number, coerce, t, worlds[i], events[i])
  }

  lemma {:induction false} EveryRunIsAccounted(number: NumberOf, coerce: Value -> Num, t: Target,
                                               worlds: seq<World>, events: seq<Event>, i: nat)
    requires IsRun(number, coerce, t, worlds, events) && i <= |events|
    ensures Accounted(worlds[i]) && SingleFlight(worlds[i])
  {
    if i == 0 {
      assert forall id: nat :: multiset(FRESH.pending)[id] == 0 && multiset(Settled(FRESH.settled))[id] == 0;
    } else {
      EveryRunIsAccounted(number, coerce, t, worlds, events, i - 1);
      StepKeepsAccounts(number, coerce, t, worlds[i - 1], events[i - 1]);
    }
  }

  /** Once setup has been rejected, or a live subscription has closed for whatever reason, every socket ever
      obtained is torn down (one arriving after the timeout included) and no command is left waiting. */
  lemma NoTransportLeaks(number: NumberOf, coerce: Value -> Num, t: Target, worlds: seq<World>, events: seq<Event>,
                         i: nat)
    requires IsRun(number, coerce, t, worlds, events) && i <= |events|
    requires var w := worlds[i]; w.stage.Rejected? || (w.stage.Live? && w.conn.closed)
    ensures var w := worlds[i];
            && w.obtained <= w.conn.terminated
            && w.conn.closed && w.conn.socket.None? && w.conn.pending == [] && w.conn.armed == {}
  {
    EveryRunIsAccounted(number, coerce, t, worlds, events, i);
    assert worlds[i].conn.armed == {} by {
      assert forall id :: id !in worlds[i].conn.armed;
    }
  }

  /** In the middle of a setup too: however the connection came to be closed, every socket obtained is torn down,
      unless the setup has just attached one to it. */
  lemma ClosedSetupsHoldNothing(number: NumberOf, coerce: Value -> Num, t: Target, worlds: seq<World>,
                                events: seq<Event>, i: nat)
    requires IsRun(number, coerce, t, worlds, events) && i <= |events|
    requires var w := worlds[i]; w.conn.closed && !Dead(w) && !w.stage.Racing?
    ensures worlds[i].obtained <= worlds[i].conn.terminated
  {
    EveryRunIsAccounted(number, coerce, t, worlds, events, i);
  }

  /** What becomes of a transport attached to a closed connection: nothing is sent on it, the setup's next command is
      rejected, the rejection reaches the catch, and the catch tears the transport down. */
  lemma DeadSetupsFail(number: NumberOf, coerce: Value -> Num, t: Target, w: World)
    requires Accounted(w) && SingleFlight(w) && Dead(w)
    ensures w.stage.Ready? || w.stage.Awaiting? || w.stage.Failing?
    ensures w.stage.Ready? ==> forall written ::
              var v := Step(number, coerce, t, w, SendNext(written));
              Dead(v) && AwaitsRejection(v) && v.conn.pending == w.conn.pending
    ensures w.stage.Awaiting? ==>
              Enabled(w, ReplyResumes) && Step(number, coerce, t, w, ReplyResumes).stage.Failing?
    ensures w.stage.Failing? ==>
              var v := Step(number, coerce, t, w, CatchRuns);
              v.stage.Rejected? && v.conn.socket.None? && v.obtained <= v.conn.terminated
  {
    if w.stage.Ready? {
      var c, id := w.conn, w.conn.sent;
      assert multiset(Settled(c.settled))[id] == 0;
      OutcomeOfNew(c.settled, Settlement(id, Failed(ConnectionClosed)));
    }
  }

  /** Throughout the setup at most one command is outstanding. */
  lemma SetupIsSingleFlight(number: NumberOf, coerce: Value -> Num, t: Target, worlds: seq<World>, events: seq<Event>,
                            i: nat)
    requires IsRun(number, coerce, t, worlds, events) && i <= |events|
    ensures |worlds[i].conn.pending| <= 1
    ensures worlds[i].conn.pending != [] ==> worlds[i].stage.Awaiting?
  {
    EveryRunIsAccounted(number, coerce, t, worlds, events, i);
  }

  lemma {:induction false} SettledHasOutcome(settled: seq<Settlement>, command: nat)
    requires command in Settled(settled)
    ensures OutcomeFor(settled, command).Some?
  {
    if settled[0].command != command {
      assert Settled(settled) == [settled[0].command] + Settled(settled[1..]);
      SettledHasOutcome(settled[1..], command);
    }
  }

  /** A setup never hangs: in every state of every run, until it is live or rejected, its next step is enabled or a
      timer is running that will enable it. In particular a connect that has failed or timed out lets the race
      resume, and a command awaited is settled or has its timer. */
  lemma SetupsNeverHang(number: NumberOf, coerce: Value -> Num, t: Target, worlds: seq<World>, events: seq<Event>,
                        i: nat)
    requires IsRun(number, coerce, t, worlds, events) && i <= |events|
    ensures var w := worlds[i];
            match w.stage
            case Racing =>
              if w.timedOut || w.connectSettled then Enabled(w, RaceResumes) else Enabled(w, ConnectTimesOut)
            case Ready(_) => forall written :: Enabled(w, SendNext(written))
            case Awaiting(_, command) =>
              Enabled(w, ReplyResumes) || Enabled(w, Callback(PatternProtocol.Event.Timer(command)))
            case Failing => Enabled(w, CatchRuns)
            case _ => true
  {
    EveryRunIsAccounted(number, coerce, t, worlds, events, i);
    var w := worlds[i];
    if w.stage.Awaiting? {
      var id := w.stage.command;
      assert multiset(w.conn.pending)[id] + multiset(Settled(w.conn.settled))[id] == 1;
      if id !in w.conn.pending {
        assert id in multiset(Settled(w.conn.settled));
        SettledHasOutcome(w.conn.settled, id);
      }
    }
  }

  // ---- What a setup sends, and what it goes by ----

  /** The exchanges a target calls for. */
  function Expected(t: Target): (xs: seq<Exchange>)
    ensures |xs| > 0
  {
    (if t.password != [] then [Auth] else []) + (if t.db > 0 then [Select] else []) + [Psubscribe]
  }

  /** The answers the setup accepts: OK, and for PSUBSCRIBE a confirmation with a positive count. */
  predicate Agrees(coerce: Value -> Num, exchange: Exchange, v: Value) {
    match exchange
    case Auth => v == Text(OK)
    case Select => v == Text(OK)
    case Psubscribe =>
      v.Items? && |v.items| >= 3 && v.items[0] == Text(PSUBSCRIBE_REPLY)
      && coerce(v.items[2]).Whole? && coerce(v.items[2]).value >= 1
  }

  /** The exchanges begun in the first i steps of a run. */
  function Sent(worlds: seq<World>, events: seq<Event>, i: nat): seq<Exchange>
    requires i <= |events| < |worlds|
  {
    if i == 0 then [] else
      Sent(worlds, events, i - 1)
        + if events[i - 1].SendNext? && worlds[i - 1].stage.Ready? then [worlds[i - 1].stage.next] else []
  }

  /** The first n commands have been answered, and each answer agrees with its exchange. */
  ghost predicate Answered(coerce: Value -> Num, settled: seq<Settlement>, sent: seq<Exchange>, n: nat)
    requires n <= |sent|
  {
    forall k: nat :: k < n ==> AnsweredWell(coerce, settled, sent[k], k)
  }

  predicate AnsweredWell(coerce: Value -> Num, settled: seq<Settlement>, exchange: Exchange, command: nat) {
    match OutcomeFor(settled, command)
    case Some(Replied(v)) => Agrees(coerce, exchange, v)
    case _ => false
  }

  ghost predicate OnTrack(coerce: Value -> Num, t: Target, w: World, sent: seq<Exchange>) {
    && sent <= Expected(t) && w.conn.sent == |sent|
    && Answered(coerce, w.conn.settled, sent,
                if w.stage.Ready? || w.stage.Live? || sent == [] then |sent| else |sent| - 1)
    && match w.stage
       case Racing => sent == []
       case Ready(x) => |sent| < |Expected(t)| && x == Expected(t)[|sent|]
       case Awaiting(x, command) => sent != [] && command == |sent| - 1 && x == sent[command]
       case Live(n) => sent == Expected(t) && Confirms(coerce, w.conn.settled, |sent| - 1, n)
       case _ => true
  }

  /** The command was answered with a confirmation of this count. */
  predicate Confirms(coerce: Value -> Num, settled: seq<Settlement>, command: nat, n: int) {
    match OutcomeFor(settled, command)
    case Some(Replied(v)) => Agrees(coerce, Psubscribe, v) && coerce(v.items[2]) == Whole(n)
    case _ => false
  }

  lemma AnswersStay(coerce: Value -> Num, settled: seq<Settlement>, more: seq<Settlement>, sent: seq<Exchange>, n: nat)
    requires n <= |sent| && settled <= more && Answered(coerce, settled, sent, n)
    ensures Answered(coerce, more, sent, n)
  {
    forall k: nat | k < n
      ensures AnsweredWell(coerce, more, sent[k], k)
    {
      assert AnsweredWell(coerce, settled, sent[k], k);
      OutcomeExtends(settled, more[|settled|..], k);
      assert settled + more[|settled|..] == more;
    }
  }

  lemma ConfirmationsStay(coerce: Value -> Num, settled: seq<Settlement>, more: seq<Settlement>, command: nat, n: int)
    requires settled <= more && Confirms(coerce, settled, command, n)
    ensures Confirms(coerce, more, command, n)
  {
    OutcomeExtends(settled, more[|settled|..], command);
    assert settled + more[|settled|..] == more;
  }

  /** A change of the connection only. */
  lemma EvolvingStaysOnTrack(coerce: Value -> Num, t: Target, w: World, sent: seq<Exchange>, d: Conn, stage: Stage)
    requires OnTrack(coerce, t, w, sent) && w.conn.settled <= d.settled && d.sent == w.conn.sent
    requires stage == w.stage || (stage.Failing? && w.stage.Racing?) || (stage.Rejected? && w.stage.Failing?)
    ensures OnTrack(coerce, t, w.(conn := d, stage := stage), sent)
  {
    hide Expected;
    AnswersStay(coerce, w.conn.settled, d.settled, sent,
                if w.stage.Ready? || w.stage.Live? || sent == [] then |sent| else |sent| - 1);
    if w.stage.Live? {
      ConfirmationsStay(coerce, w.conn.settled, d.settled, |sent| - 1, w.stage.count);
    }
  }

  lemma SendingStaysOnTrack(coerce: Value -> Num, t: Target, w: World, sent: seq<Exchange>, written: bool)
    requires OnTrack(coerce, t, w, sent) && w.stage.Ready?
    ensures OnTrack(coerce, t, w.(conn := Send(w.conn, written), stage := Awaiting(w.stage.next, w.conn.sent)),
                    sent + [w.stage.next])
  {
    hide Expected;
    var more := sent + [w.stage.next];
    AnswersStay(coerce, w.conn.settled, Send(w.conn, written).settled, sent, |sent|);
    assert forall k: nat :: k < |sent| ==> more[k] == sent[k];
  }

  lemma ResumingStaysOnTrack(coerce: Value -> Num, t: Target, w: World, sent: seq<Exchange>)
    requires OnTrack(coerce, t, w, sent) && Enabled(w, ReplyResumes)
    ensures OnTrack(coerce, t,
                    w.(stage := AfterReply(t, coerce, w.stage.sent, OutcomeFor(w.conn.settled, w.stage.command).value)),
                    sent)
  {
    var n := |sent| - 1;
    var stage := AfterReply(t, coerce, w.stage.sent, OutcomeFor(w.conn.settled, n).value);
    if !stage.Failing? {
      assert AnsweredWell(coerce, w.conn.settled, sent[n], n);
      assert Answered(coerce, w.conn.settled, sent, |sent|);
      assert sent[n] == Expected(t)[n];
    }
  }

  lemma StepStaysOnTrack(number: NumberOf, coerce: Value -> Num, t: Target, w: World, sent: seq<Exchange>, e: Event)
    requires Accounted(w) && SingleFlight(w) && Enabled(w, e) && OnTrack(coerce, t, w, sent)
    ensures OnTrack(coerce, t, Step(number, coerce, t, w, e),
                    sent + if e.SendNext? then [w.stage.next] else [])
  {
    hide OnTrack, Expected;
    assert sent + [] == sent;
    match e {
      case SendNext(written) => SendingStaysOnTrack(coerce, t, w, sent, written);
      case ReplyResumes => ResumingStaysOnTrack(coerce, t, w, sent);
      case Callback(event) =>
        CallbackEvolves(number, w.conn, event);
        EvolvingStaysOnTrack(coerce, t, w, sent, PatternProtocol.Step(number, w.conn, event), w.stage);
      case SubscriberCloses =>
        ClosingHasCauses(w.conn);
        EvolvingStaysOnTrack(coerce, t, w, sent, Close(w.conn), w.stage);
      case CatchRuns =>
        ClosingHasCauses(w.conn);
        EvolvingStaysOnTrack(coerce, t, w, sent, Close(w.conn), Rejected);
      case _ => ConnectingStaysOnTrack(number, coerce, t, w, sent, e);
    }
  }

  lemma ConnectingStaysOnTrack(number: NumberOf, coerce: Value -> Num, t: Target, w: World, sent: seq<Exchange>,
                               e: Event)
    requires Enabled(w, e) && OnTrack(coerce, t, w, sent)
    requires e.SocketArrives? || e.ConnectFails? || e.ConnectTimesOut? || e.RaceResumes?
    ensures OnTrack(coerce, t, Step(number, coerce, t, w, e), sent)
  {
  }

  lemma {:induction false} EveryRunIsOnTrack(number: NumberOf, coerce: Value -> Num, t: Target, worlds: seq<World>,
                                             events: seq<Event>, i: nat)
    requires IsRun(number, coerce, t, worlds, events) && i <= |events|
    ensures OnTrack(coerce, t, worlds[i], Sent(worlds, events, i))
  {
    hide OnTrack, Accounted, SingleFlight, Step;
    if i == 0 {
      BeginsOnTrack(coerce, t);
    } else {
      EveryRunIsOnTrack(number, coerce, t, worlds, events, i - 1);
      EveryRunIsAccounted(number, coerce, t, worlds, events, i - 1);
      StepStaysOnTrack(number, coerce, t, worlds[i - 1], Sent(worlds, events, i - 1), events[i - 1]);
    }
  }

  lemma BeginsOnTrack(coerce: Value -> Num, t: Target)
    ensures OnTrack(coerce, t, BEGIN, [])
  {
  }

  /** In every run of every setup: the exchanges sent so far are the first of those the target calls for, AUTH if
      there is a password, SELECT if there is a database, and PSUBSCRIBE. A live setup has sent them all, command k
      for exchange k, each has been answered, each answer agrees, and the count is the one confirmed. */
  lemma SetupsFollowTheScript(number: NumberOf, coerce: Value -> Num, t: Target, worlds: seq<World>,
                              events: seq<Event>, i: nat)
    requires IsRun(number, coerce, t, worlds, events) && i <= |events|
    ensures Sent(worlds, events, i) <= Expected(t)
    ensures var settled := worlds[i].conn.settled;
            worlds[i].stage.Live? ==>
              && Sent(worlds, events, i) == Expected(t)
              && (forall k: nat :: k < |Expected(t)| ==> AnsweredWell(coerce, settled, Expected(t)[k], k))
              && Confirms(coerce, settled, |Expected(t)| - 1, worlds[i].stage.count)
  {
    hide Expected;
    EveryRunIsOnTrack(number, coerce, t, worlds, events, i);
  }

  /** The answers come from the server: what settles a command with a reply, in any run, is a chunk that brought
      the value while the command was waiting. */
  lemma {:induction false} RepliesComeFromTheServer(number: NumberOf, coerce: Value -> Num, t: Target,
                                                    worlds: seq<World>, events: seq<Event>, i: nat, s: Settlement)
    requires IsRun(number, coerce, t, worlds, events) && i <= |events|
    requires s in worlds[i].conn.settled && s.outcome.Replied?
    ensures exists k :: 0 <= k < i && events[k].Callback? && Causes(number, worlds[k].conn, events[k].e, s)
  {
    hide Causes, Accounted, Disciplined, PatternProtocol.Step;
    EveryRunIsAccounted(number, coerce, t, worlds, events, i - 1);
    var w, e := worlds[i - 1], events[i - 1];
    if s in w.conn.settled {
      RepliesComeFromTheServer(number, coerce, t, worlds, events, i - 1, s);
    } else {
      OnlyDataReplies(number, coerce, t, w, e, s);
    }
  }

  lemma OnlyDataReplies(number: NumberOf, coerce: Value -> Num, t: Target, w: World, e: Event, s: Settlement)
    requires SingleFlight(w) && Enabled(w, e) && s.outcome.Replied?
    requires s !in w.conn.settled && s in Step(number, coerce, t, w, e).conn.settled
    ensures e.Callback? && Causes(number, w.conn, e.e, s)
  {
    hide Close, Send, PatternProtocol.Step;
    match e {
      case Callback(event) =>
        SettlementsHaveCauses(number, w.conn, event);
        InTail(w.conn.settled, PatternProtocol.Step(number, w.conn, event).settled, s);
      case SendNext(written) =>
        SendingHasCauses(number, w.conn, written);
        InTail(w.conn.settled, Send(w.conn, written).settled, s);
      case SubscriberCloses =>
        ClosingHasCauses(w.conn);
        InTail(w.conn.settled, Close(w.conn).settled, s);
      case CatchRuns =>
        ClosingHasCauses(w.conn);
        InTail(w.conn.settled, Close(w.conn).settled, s);
      case _ =>
    }
  }

  /** So a setup goes on from an exchange only if the server has agreed to it. */
  lemma OnlyAgreementGoesOn(number: NumberOf, coerce: Value -> Num, t: Target, worlds: seq<World>, events: seq<Event>,
                            i: nat)
    requires IsRun(number, coerce, t, worlds, events) && i < |events|
    requires events[i].ReplyResumes? && !worlds[i + 1].stage.Failing?
    ensures worlds[i].stage.Awaiting?
    ensures exists k, v :: 0 <= k < i && events[k].Callback? && Agrees(coerce, worlds[i].stage.sent, v)
              && Causes(number, worlds[k].conn, events[k].e, Settlement(worlds[i].stage.command, Replied(v)))
  {
    hide Causes;
    var w := worlds[i];
    var id := w.stage.command;
    var outcome := OutcomeFor(w.conn.settled, id).value;
    assert AfterReply(t, coerce, w.stage.sent, outcome) == worlds[i + 1].stage;
    assert outcome.Replied? && Agrees(coerce, w.stage.sent, outcome.value);
    OutcomeIsSettled(w.conn.settled, id);
    RepliesComeFromTheServer(number, coerce, t, worlds, events, i, Settlement(id, outcome));
  }

  lemma {:induction false} OutcomeIsSettled(settled: seq<Settlement>, command: nat)
    requires OutcomeFor(settled, command).Some?
    ensures Settlement(command, OutcomeFor(settled, command).value) in settled
  {
    if settled[0].command != command {
      OutcomeIsSettled(settled[1..], command);
    }
  }
}
