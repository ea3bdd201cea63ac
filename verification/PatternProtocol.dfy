/** `RawPatternConnection` (src/redis-pattern.ts) as a state and its steps. Commands are numbered in the
    order `sendCommand` was called. What the outside world sees is logged: promise settlements,
    terminated sockets, delivered messages. */
module PatternProtocol {
  import opened Wrappers
  import opened Bytes
  import opened Resp
  import opened RespStream

  datatype Failure = ServerError(message: Bytes) | WriteFailed | TimedOut | ConnectionClosed

  datatype Outcome = Replied(value: Value) | Failed(why: Failure)

  datatype Settlement = Settlement(command: nat, outcome: Outcome)

  /** The text handed on with a message: JavaScript's `String` is applied to what is not a string. */
  datatype Payload = Plain(bytes: Bytes) | Coerced(value: Value) | Missing

  datatype PMessage = PMessage(pattern: Bytes, channel: Bytes, payload: Payload)

  datatype Conn = Conn(
    buffer: Bytes,               // the parser's unread bytes
    pending: seq<nat>,           // commands awaiting a reply, oldest first
    armed: set<nat>,             // commands whose timer is running
    sent: nat,                   // commands issued so far
    settled: seq<Settlement>,    // promises settled, in order
    socket: Option<nat>,
    closed: bool,
    terminated: set<nat>,        // sockets torn down
    delivered: seq<PMessage>,    // calls of onMessage, in order
    received: seq<Value>)        // values taken from the parser, in order

  const FRESH: Conn := Conn([], [], {}, 0, [], None, false, {}, [], [])

  const PMESSAGE: Bytes := AsciiBytes("pmessage")

  function OutcomeOf(v: Value): Outcome {
    if v.Failure? then Failed(ServerError(v.message)) else Replied(v)
  }

  /** The push message a value carries, if it is a well-formed one. */
  function MessageIn(v: Value): Option<PMessage> {
    if v.Items? && |v.items| >= 3 && v.items[0] == Text(PMESSAGE) && v.items[1].Text? && v.items[2].Text? then
      Some(PMessage(v.items[1].bytes, v.items[2].bytes,
                    if |v.items| == 3 then Missing
                    else match v.items[3] case Nil => Plain([]) case Text(b) => Plain(b) case x => Coerced(x)))
    else None
  }

  function Without(pending: seq<nat>, id: nat): (r: seq<nat>) {
    if pending == [] then []
    else if pending[0] == id then pending[1..]
    else [pending[0]] + Without(pending[1..], id)
  }

  // ---- The steps ----

  function Settle(c: Conn, id: nat, outcome: Outcome): Conn {
    c.(pending := Without(c.pending, id), armed := c.armed - {id}, settled := c.settled + [Settlement(id, outcome)])
  }

  function Rejections(pending: seq<nat>): (r: seq<Settlement>)
    ensures |r| == |pending|
  {
    seq(|pending|, i requires 0 <= i < |pending| => Settlement(pending[i], Failed(ConnectionClosed)))
  }

  /** `handleClose`: the transport goes first, then, once only, the pending commands. */
  function Close(c: Conn): Conn {
    var torn := c.(socket := None,
                   terminated := c.terminated + (if c.socket.Some? then {c.socket.value} else {}));
    if c.closed then torn
    else torn.(closed := true, pending := [], armed := c.armed - (set id | id in c.pending),
               settled := c.settled + Rejections(c.pending))
  }

  function Send(c: Conn, written: bool): Conn {
    var id := c.sent;
    if c.socket.None? || c.closed then
      c.(sent := id + 1, settled := c.settled + [Settlement(id, Failed(ConnectionClosed))])
    else
      var queued := c.(sent := id + 1, pending := c.pending + [id], armed := c.armed + {id});
      if written then queued else Settle(queued, id, Failed(WriteFailed))
  }

  function OnPush(c: Conn, v: Value): Conn {
    if v.Failure? then Close(c)
    else match MessageIn(v)
         case Some(m) => c.(delivered := c.delivered + [m])
         case None => c
  }

  function OnValue(c: Conn, v: Value): Conn {
    var c' := c.(received := c.received + [v]);
    if c.pending != [] then Settle(c', c.pending[0], OutcomeOf(v)) else OnPush(c', v)
  }

  function OnValues(c: Conn, vs: seq<Value>): Conn {
    if vs == [] then c else OnValue(OnValues(c, vs[..|vs| - 1]), vs[|vs| - 1])
  }

  function OnData(number: NumberOf, c: Conn, chunk: Bytes): Conn {
    var p := PushResp(number, c.buffer, chunk);
    match p.result
    case Delivered(vs) => OnValues(c.(buffer := p.buffer), vs)
    case Rejected(_) => Close(c.(buffer := p.buffer))
  }

  datatype Event =
    | Attach(socket: nat)        // the transport is ready
    | Issue(written: bool)       // sendCommand; `written` is false when the write reports -1
    | Data(chunk: Bytes)
    | Timer(command: nat)
    | Shut                       // close or error callback of the socket, or an explicit close

  predicate Enabled(c: Conn, e: Event) {
    match e
    case Attach(_) => c.socket.None?
    case Timer(id) => id in c.armed    // a cleared timer does not fire
    case _ => true
  }

  function Step(number: NumberOf, c: Conn, e: Event): Conn
    requires Enabled(c, e)
  {
    match e
    case Attach(s) => c.(socket := Some(s))
    case Issue(written) => Send(c, written)
    case Data(chunk) => OnData(number, c, chunk)
    case Timer(id) => Settle(c, id, Failed(TimedOut))
    case Shut => Close(c)
  }

  // ---- The pending queue is the unsettled commands in send order ----

  function Settled(s: seq<Settlement>): (r: seq<nat>)
    ensures |r| == |s|
  {
    seq(|s|, i requires 0 <= i < |s| => s[i].command)
  }

  ghost predicate Increasing(s: seq<nat>) {
    forall i, j :: 0 <= i < j < |s| ==> s[i] < s[j]
  }

  /** Every command is, exactly once, either in the queue or settled; the queue is in send order and
      each queued command has a running timer; a closed connection holds none back. */
  ghost predicate Disciplined(c: Conn) {
    && (forall id: nat :: multiset(c.pending)[id] + multiset(Settled(c.settled))[id] == if id < c.sent then 1 else 0)
    && Increasing(c.pending)
    && (forall id :: id in c.armed <==> id in c.pending)
    && (c.closed ==> c.pending == [])
  }

  lemma SettledAppends(a: seq<Settlement>, b: seq<Settlement>)
    ensures multiset(Settled(a + b)) == multiset(Settled(a)) + multiset(Settled(b))
  {
    assert Settled(a + b) == Settled(a) + Settled(b);
  }

  lemma {:induction false} WithoutRemovesOne(pending: seq<nat>, id: nat)
    requires id in pending
    ensures multiset(pending) == multiset(Without(pending, id)) + multiset{id}
  {
    assert pending == [pending[0]] + pending[1..];
    if pending[0] != id {
      WithoutRemovesOne(pending[1..], id);
    }
  }

  lemma {:induction false} WithoutKeepsOthers(pending: seq<nat>, id: nat)
    ensures forall x :: x in Without(pending, id) ==> x in pending
    ensures forall x :: x in pending && x != id ==> x in Without(pending, id)
  {
    if pending != [] {
      assert forall x :: x in pending <==> x == pending[0] || x in pending[1..];
      WithoutKeepsOthers(pending[1..], id);
    }
  }

  lemma {:induction false} WithoutKeepsOrder(pending: seq<nat>, id: nat)
    requires Increasing(pending)
    ensures Increasing(Without(pending, id)) && id !in Without(pending, id)
  {
    if pending != [] {
      TailIncreases(pending);
      if pending[0] != id {
        WithoutKeepsOrder(pending[1..], id);
        WithoutKeepsOthers(pending[1..], id);
        ConsIncreases(pending[0], Without(pending[1..], id));
      }
    }
  }

  lemma TailIncreases(s: seq<nat>)
    requires Increasing(s) && s != []
    ensures Increasing(s[1..]) && forall x :: x in s[1..] ==> s[0] < x
  {
  }

  lemma ConsIncreases(first: nat, rest: seq<nat>)
    requires Increasing(rest) && forall x :: x in rest ==> first < x
    ensures Increasing([first] + rest)
  {
    assert forall k :: 0 <= k < |rest| ==> rest[k] in rest;
  }

  lemma SettleKeepsDiscipline(c: Conn, id: nat, outcome: Outcome)
    requires Disciplined(c) && id in c.pending
    ensures Disciplined(Settle(c, id, outcome))
  {
    WithoutRemovesOne(c.pending, id);
    WithoutKeepsOrder(c.pending, id);
    WithoutKeepsOthers(c.pending, id);
    SettledAppends(c.settled, [Settlement(id, outcome)]);
    assert Settled([Settlement(id, outcome)]) == [id];
  }

  lemma CloseKeepsDiscipline(c: Conn)
    requires Disciplined(c)
    ensures Disciplined(Close(c))
  {
    SettledAppends(c.settled, Rejections(c.pending));
    assert Settled(Rejections(c.pending)) == c.pending;
  }

  lemma QueueingKeepsDiscipline(c: Conn)
    requires Disciplined(c) && !c.closed
    ensures Disciplined(c.(sent := c.sent + 1, pending := c.pending + [c.sent], armed := c.armed + {c.sent}))
  {
    forall k | 0 <= k < |c.pending|
      ensures c.pending[k] < c.sent
    {
      assert multiset(c.pending)[c.pending[k]] > 0;
    }
  }

  lemma SendKeepsDiscipline(c: Conn, written: bool)
    requires Disciplined(c)
    ensures Disciplined(Send(c, written))
  {
    var id := c.sent;
    if c.socket.None? || c.closed {
      SettledAppends(c.settled, [Settlement(id, Failed(ConnectionClosed))]);
      assert Settled([Settlement(id, Failed(ConnectionClosed))]) == [id];
    } else {
      QueueingKeepsDiscipline(c);
      var queued := c.(sent := id + 1, pending := c.pending + [id], armed := c.armed + {id});
      if !written {
        SettleKeepsDiscipline(queued, id, Failed(WriteFailed));
      }
    }
  }

  lemma OnValueKeepsDiscipline(c: Conn, v: Value)
    requires Disciplined(c)
    ensures Disciplined(OnValue(c, v))
  {
    var c' := c.(received := c.received + [v]);
    assert Disciplined(c');
    if c.pending != [] {
      SettleKeepsDiscipline(c', c.pending[0], OutcomeOf(v));
    } else if v.Failure? {
      CloseKeepsDiscipline(c');
    }
  }

  lemma {:induction false} OnValuesKeepsDiscipline(c: Conn, vs: seq<Value>)
    requires Disciplined(c)
    ensures Disciplined(OnValues(c, vs))
  {
    if vs != [] {
      OnValuesKeepsDiscipline(c, vs[..|vs| - 1]);
      OnValueKeepsDiscipline(OnValues(c, vs[..|vs| - 1]), vs[|vs| - 1]);
    }
  }

  lemma StepKeepsDiscipline(number: NumberOf, c: Conn, e: Event)
    requires Disciplined(c) && Enabled(c, e)
    ensures Disciplined(Step(number, c, e))
  {
    match e {
      case Attach(s) => assert Disciplined(c.(socket := Some(s)));
      case Issue(written) => SendKeepsDiscipline(c, written);
      case Timer(id) => SettleKeepsDiscipline(c, id, Failed(TimedOut));
      case Shut => CloseKeepsDiscipline(c);
      case Data(chunk) =>
        var p := PushResp(number, c.buffer, chunk);
        var c' := c.(buffer := p.buffer);
        assert Disciplined(c');
        if p.result.Delivered? {
          OnValuesKeepsDiscipline(c', p.result.values);
        } else {
          CloseKeepsDiscipline(c');
        }
    }
  }

  /** A run: the states passed through, one step between each and the next. */
  ghost predicate IsRun(number: NumberOf, states: seq<Conn>, events: seq<Event>) {
    && |states| == |events| + 1 && states[0] == FRESH
    && forall i :: 0 <= i < |events| ==>
         Enabled(states[i], events[i]) && states[i + 1] == Step(number, states[i], events[i])
  }

  /** In every state of every run each command is pending until it is settled, and settled only once. */
  lemma {:induction false} EveryRunIsDisciplined(number: NumberOf, states: seq<Conn>, events: seq<Event>, i: nat)
    requires IsRun(number, states, events) && i <= |events|
    ensures Disciplined(states[i])
  {
    if i == 0 {
      assert forall id: nat :: multiset(FRESH.pending)[id] == 0 && multiset(Settled(FRESH.settled))[id] == 0;
    } else {
      EveryRunIsDisciplined(number, states, events, i - 1);
      StepKeepsDiscipline(number, states[i - 1], events[i - 1]);
    }
  }

  lemma ClosingRejects(c: Conn, id: nat)
    requires Disciplined(c) && id in c.pending
    ensures Settlement(id, Failed(ConnectionClosed)) in Close(c).settled
  {
    var j :| 0 <= j < |c.pending| && c.pending[j] == id;
    var s := Settlement(id, Failed(ConnectionClosed));
    assert Rejections(c.pending)[j] == s;
    assert !c.closed;
    assert s in Close(c).settled;
  }

  /** Closing settles everything, drops the transport, and closing again changes nothing. */
  lemma CloseIsFinal(c: Conn)
    requires Disciplined(c)
    ensures var d := Close(c);
            && Close(d) == d && d.closed && d.socket.None? && d.pending == [] && d.armed == {}
            && (c.socket.Some? ==> c.socket.value in d.terminated)
            && (forall id :: id in c.pending ==> Settlement(id, Failed(ConnectionClosed)) in d.settled)
            && forall id: nat :: id < c.sent ==> multiset(Settled(d.settled))[id] == 1
  {
    CloseKeepsDiscipline(c);
    forall id | id in c.pending
      ensures Settlement(id, Failed(ConnectionClosed)) in Close(c).settled
    {
      ClosingRejects(c, id);
    }
    assert Close(c).terminated + {} == Close(c).terminated;
    assert Close(c).armed == {} by {
      assert forall id :: id !in Close(c).armed;
    }
  }

  function Min(a: nat, b: nat): nat {
    if a < b then a else b
  }

  // ---- Why a command was settled ----

  /** The values a chunk brings, with what was already waiting in the buffer. */
  function Brought(number: NumberOf, c: Conn, chunk: Bytes): seq<Value> {
    match PushResp(number, c.buffer, chunk).result
    case Delivered(vs) => vs
    case Rejected(_) => []
  }

  /** What happened to the command for it to be settled so. A command is answered only by a value that came in while
      it was waiting; everything else rejects it, with the reason that applies. */
  predicate Causes(number: NumberOf, c: Conn, e: Event, s: Settlement) {
    match s.outcome
    case Replied(v) => e.Data? && s.command in c.pending && v in Brought(number, c, e.chunk) && !v.Failure?
    case Failed(ServerError(m)) => e.Data? && s.command in c.pending && Failure(m) in Brought(number, c, e.chunk)
    case Failed(WriteFailed) => e == Issue(false) && s.command == c.sent && c.socket.Some? && !c.closed
    case Failed(TimedOut) => e == Timer(s.command)
    case Failed(ConnectionClosed) =>
      || (e.Issue? && s.command == c.sent && (c.socket.None? || c.closed))
      || (e.Shut? && s.command in c.pending)
      || (e.Data? && s.command in c.pending && PushResp(number, c.buffer, e.chunk).result.Rejected?)
  }

  function Tail(vs: seq<Settlement>, from: nat): seq<Settlement>
    requires from <= |vs|
  {
    vs[from..]
  }

  lemma AppendTail(a: seq<Settlement>, b: seq<Settlement>)
    ensures a <= a + b && Tail(a + b, |a|) == b
  {
  }

  /** The j-th value answers the command that has waited j-th longest: an error rejects it, any other value is its
      reply. Commands beyond the values go on waiting. */
  lemma {:induction false} ValuesAnswerInOrder(c: Conn, vs: seq<Value>)
    ensures var d, n := OnValues(c, vs), Min(|c.pending|, |vs|);
            && c.settled <= d.settled && |d.settled| == |c.settled| + n && d.pending == c.pending[n..]
            && d.sent == c.sent
            && forall j :: 0 <= j < n ==>
                 d.settled[|c.settled| + j].command == c.pending[j]
                 && d.settled[|c.settled| + j].outcome
                    == if vs[j].Failure? then Failed(ServerError(vs[j].message)) else Replied(vs[j])
  {
    hide OnValue;
    if vs != [] {
      ValuesAnswerInOrder(c, vs[..|vs| - 1]);
      ValueAnswersTheOldest(OnValues(c, vs[..|vs| - 1]), vs[|vs| - 1]);
    }
  }

  lemma ValueAnswersTheOldest(c: Conn, v: Value)
    ensures OnValue(c, v).sent == c.sent
    ensures c.pending == [] ==> OnValue(c, v).settled == c.settled && OnValue(c, v).pending == []
    ensures c.pending != [] ==>
              && OnValue(c, v).pending == c.pending[1..]
              && OnValue(c, v).settled
                 == c.settled + [Settlement(c.pending[0],
                                            if v.Failure? then Failed(ServerError(v.message)) else Replied(v))]
  {
    if c.pending == [] {
      ClosingIdleSettlesNothing(c.(received := c.received + [v]));
    }
  }

  lemma ClosingIdleSettlesNothing(c: Conn)
    requires c.pending == []
    ensures Close(c).settled == c.settled && Close(c).pending == [] && Close(c).sent == c.sent
  {
    assert c.settled + [] == c.settled;
  }

  /** What one step settles, and why. */
  lemma SettlementsHaveCauses(number: NumberOf, c: Conn, e: Event)
    requires Disciplined(c) && Enabled(c, e)
    ensures c.settled <= Step(number, c, e).settled
    ensures forall s :: s in Tail(Step(number, c, e).settled, |c.settled|) ==> Causes(number, c, e, s)
  {
    var d := Step(number, c, e);
    match e {
      case Attach(_) => AppendTail(c.settled, []); assert c.settled + [] == c.settled;
      case Issue(written) => SendingHasCauses(number, c, written);
      case Timer(id) => AppendTail(c.settled, [Settlement(id, Failed(TimedOut))]);
      case Shut => ClosingHasCauses(c);
      case Data(chunk) => DataHasCauses(number, c, chunk);
    }
  }

  lemma SendingHasCauses(number: NumberOf, c: Conn, written: bool)
    ensures c.settled <= Send(c, written).settled
    ensures forall s :: s in Tail(Send(c, written).settled, |c.settled|) ==> Causes(number, c, Issue(written), s)
  {
    AppendTail(c.settled, []);
    assert c.settled + [] == c.settled;
    AppendTail(c.settled, [Settlement(c.sent, Failed(ConnectionClosed))]);
    AppendTail(c.settled, [Settlement(c.sent, Failed(WriteFailed))]);
  }

  /** Closing rejects every waiting command. */
  lemma ClosingHasCauses(c: Conn)
    ensures c.settled <= Close(c).settled
    ensures forall s :: s in Tail(Close(c).settled, |c.settled|) ==>
              s.command in c.pending && s.outcome == Failed(ConnectionClosed)
  {
    AppendTail(c.settled, []);
    assert c.settled + [] == c.settled;
    AppendTail(c.settled, Rejections(c.pending));
  }

  lemma ValuesHaveCauses(c: Conn, vs: seq<Value>)
    ensures c.settled <= OnValues(c, vs).settled
    ensures forall s :: s in Tail(OnValues(c, vs).settled, |c.settled|) ==> s.command in c.pending && AnsweredBy(vs, s)
  {
    hide OnValues;
    ValuesAnswerInOrder(c, vs);
    var d := OnValues(c, vs);
    forall s | s in Tail(d.settled, |c.settled|)
      ensures s.command in c.pending && AnsweredBy(vs, s)
    {
      var j :| 0 <= j < |Tail(d.settled, |c.settled|)| && Tail(d.settled, |c.settled|)[j] == s;
      assert s == d.settled[|c.settled| + j] && vs[j] in vs;
    }
  }

  /** The settlement is what one of the values makes of a waiting command. */
  predicate AnsweredBy(vs: seq<Value>, s: Settlement) {
    match s.outcome
    case Replied(v) => v in vs && !v.Failure?
    case Failed(ServerError(m)) => Failure(m) in vs
    case _ => false
  }

  lemma DataHasCauses(number: NumberOf, c: Conn, chunk: Bytes)
    requires Disciplined(c)
    ensures c.settled <= OnData(number, c, chunk).settled
    ensures forall s :: s in Tail(OnData(number, c, chunk).settled, |c.settled|) ==> Causes(number, c, Data(chunk), s)
  {
    hide PushResp, OnValues;
    var p := PushResp(number, c.buffer, chunk);
    if p.result.Delivered? {
      ValuesHaveCauses(c.(buffer := p.buffer), p.result.values);
    } else {
      ClosingHasCauses(c.(buffer := p.buffer));
    }
  }

  /** In every run, every settlement has its cause among the events: a command is answered only with a value of the
      stream that arrived while it was waiting and is no error. */
  lemma {:induction false} EverySettlementHasItsCause(number: NumberOf, states: seq<Conn>, events: seq<Event>, i: nat,
                                                      s: Settlement)
    requires IsRun(number, states, events) && i <= |events| && s in states[i].settled
    ensures exists k :: 0 <= k < i && Causes(number, states[k], events[k], s)
  {
    hide Step, Causes, Disciplined;
    EveryRunIsDisciplined(number, states, events, i - 1);
    SettlementsHaveCauses(number, states[i - 1], events[i - 1]);
    if s in states[i - 1].settled {
      EverySettlementHasItsCause(number, states, events, i - 1, s);
    } else {
      InTail(states[i - 1].settled, states[i].settled, s);
    }
  }

  lemma InTail(a: seq<Settlement>, b: seq<Settlement>, s: Settlement)
    requires a <= b && s in b && s !in a
    ensures s in Tail(b, |a|)
  {
    var j :| 0 <= j < |b| && b[j] == s;
    assert j >= |a|;
    assert Tail(b, |a|)[j - |a|] == s;
  }

  /** What befalls a command rejects it: waiting when the connection shuts or breaks, timed out, not written, or issued
      without a connection, it is settled in that very step and never with a reply. */
  ghost predicate Befallen(number: NumberOf, c: Conn, e: Event, id: nat) {
    || (e.Shut? && id in c.pending)
    || (e.Data? && id in c.pending && PushResp(number, c.buffer, e.chunk).result.Rejected?)
    || e == Timer(id)
    || (e == Issue(false) && id == c.sent)
    || (e.Issue? && id == c.sent && (c.socket.None? || c.closed))
  }

  lemma BefallenAreRejected(number: NumberOf, c: Conn, e: Event, id: nat)
    requires Disciplined(c) && Enabled(c, e) && Befallen(number, c, e, id)
    ensures exists s :: s in Step(number, c, e).settled && s.command == id && s.outcome.Failed?
  {
    hide PushResp;
    match e {
      case Issue(written) =>
        var why := if c.socket.None? || c.closed then ConnectionClosed else WriteFailed;
        assert Settlement(id, Failed(why)) in Step(number, c, e).settled;
      case Timer(_) => assert Settlement(id, Failed(TimedOut)) in Step(number, c, e).settled;
      case Shut => ClosingRejects(c, id);
      case Data(chunk) => ClosingRejects(c.(buffer := PushResp(number, c.buffer, chunk).buffer), id);
    }
  }

  lemma {:induction false} SettlementsStay(number: NumberOf, states: seq<Conn>, events: seq<Event>, k: nat, i: nat)
    requires IsRun(number, states, events) && k <= i <= |events|
    ensures states[k].settled <= states[i].settled
  {
    hide Step, Causes, Disciplined;
    if k < i {
      SettlementsStay(number, states, events, k, i - 1);
      EveryRunIsDisciplined(number, states, events, i - 1);
      SettlementsHaveCauses(number, states[i - 1], events[i - 1]);
    }
  }

  lemma SettledOnce(c: Conn, s: Settlement, s': Settlement)
    requires Disciplined(c) && s in c.settled && s' in c.settled && s.command == s'.command
    ensures s == s'
  {
    var i :| 0 <= i < |c.settled| && c.settled[i] == s;
    var j :| 0 <= j < |c.settled| && c.settled[j] == s';
    assert multiset(Settled(c.settled))[s.command] <= 1;
    if i != j {
      TwiceCounts(Settled(c.settled), if i < j then i else j, if i < j then j else i);
    }
  }

  lemma TwiceCounts(ids: seq<nat>, i: nat, j: nat)
    requires i < j < |ids| && ids[i] == ids[j]
    ensures multiset(ids)[ids[i]] >= 2
  {
    assert ids == ids[..j] + [ids[j]] + ids[j + 1..];
    assert ids[..j][i] == ids[i];
    assert ids[i] in multiset(ids[..j]);
  }

  /** Once befallen, a command stays rejected in every later state: no settlement of it is ever a reply. */
  lemma BefallenStayRejected(number: NumberOf, states: seq<Conn>, events: seq<Event>, k: nat, i: nat, id: nat,
                             s: Settlement)
    requires IsRun(number, states, events) && k < i <= |events| && Befallen(number, states[k], events[k], id)
    requires s in states[i].settled && s.command == id
    ensures s.outcome.Failed?
  {
    hide Step, Befallen, Disciplined;
    EveryRunIsDisciplined(number, states, events, k);
    BefallenAreRejected(number, states[k], events[k], id);
    var r :| r in states[k + 1].settled && r.command == id && r.outcome.Failed?;
    SettlementsStay(number, states, events, k + 1, i);
    EveryRunIsDisciplined(number, states, events, i);
    SettledOnce(states[i], r, s);
  }

  // ---- Replies reach their own commands ----

  function Replies(vs: seq<Value>): (r: seq<Settlement>)
    ensures |r| == |vs|
  {
    seq(|vs|, i requires 0 <= i < |vs| => Settlement(i, OutcomeOf(vs[i])))
  }

  function From(lo: nat, hi: nat): (r: seq<nat>)
    requires lo <= hi
    ensures |r| == hi - lo
  {
    seq(hi - lo, i requires 0 <= i < hi - lo => lo + i)
  }

  function MessagesIn(vs: seq<Value>): seq<PMessage> {
    if vs == [] then [] else
      MessagesIn(vs[..|vs| - 1])
        + (match MessageIn(vs[|vs| - 1]) case Some(m) => [m] case None => [])
  }

  /** `replies` is how many of the received values answered commands. */
  ghost predicate InStep(c: Conn, replies: nat) {
    && replies <= |c.received| && replies <= c.sent
    && (replies < |c.received| ==> replies == c.sent)
    && c.settled == Replies(c.received[..replies])
    && c.pending == From(replies, c.sent)
    && c.delivered == MessagesIn(c.received[replies..])
  }

  lemma ValuesKeepStep(c: Conn, v: Value, replies: nat)
    requires InStep(c, replies)
    requires replies == c.sent ==> !v.Failure?
    ensures InStep(OnValue(c, v), if replies < c.sent then replies + 1 else replies)
  {
    var received := c.received + [v];
    if replies < c.sent {
      assert c.received == c.received[..replies];
      assert received[..replies + 1] == received;
      assert c.pending[0] == replies;
      assert Without(c.pending, replies) == c.pending[1..] == From(replies + 1, c.sent);
      assert Replies(received) == Replies(c.received) + [Settlement(replies, OutcomeOf(v))];
      assert received[replies + 1..] == [];
      assert c.received[replies..] == [];
    } else {
      assert received[..replies] == c.received[..replies];
      assert received[replies..][..|received[replies..]| - 1] == c.received[replies..];
    }
  }

  lemma IssuingKeepsStep(c: Conn, replies: nat)
    requires InStep(c, replies) && c.socket.Some? && !c.closed
    requires replies == |c.received|
    ensures InStep(Send(c, true), replies)
  {
    assert From(replies, c.sent + 1) == From(replies, c.sent) + [c.sent];
  }

  /** The commands and values of a conversation, in the order they happened. */
  datatype Turn = Command | Reception(value: Value)

  function Converse(c: Conn, turns: seq<Turn>): Conn {
    if turns == [] then c else
      var before := Converse(c, turns[..|turns| - 1]);
      match turns[|turns| - 1]
      case Command => Send(before, true)
      case Reception(v) => OnValue(before, v)
  }

  function Commands(turns: seq<Turn>): nat {
    if turns == [] then 0
    else Commands(turns[..|turns| - 1]) + if turns[|turns| - 1].Command? then 1 else 0
  }

  function Receptions(turns: seq<Turn>): seq<Value> {
    if turns == [] then []
    else Receptions(turns[..|turns| - 1])
         + match turns[|turns| - 1] case Command => [] case Reception(v) => [v]
  }

  /** The client sends a command only when the last one was answered, the server answers in order and
      pushes nothing (and no error later on) before the last reply. */
  ghost predicate Polite(turns: seq<Turn>) {
    turns == [] ||
    (var before, last := turns[..|turns| - 1], turns[|turns| - 1];
     && Polite(before)
     && (last.Command? ==> |Receptions(before)| == Commands(before))
     && (last.Reception? && |Receptions(before)| >= Commands(before) ==> !last.value.Failure?))
  }

  /** On an open connection with such a server, reply k settles command k with what the server said,
      and every well-formed push message is delivered, in order and unchanged. */
  lemma {:induction false} PoliteConversationsAreFaithful(s: nat, turns: seq<Turn>)
    requires Polite(turns)
    ensures var c := Converse(FRESH.(socket := Some(s)), turns);
            var vs, n := Receptions(turns), Min(|Receptions(turns)|, Commands(turns));
            && c.received == vs && c.sent == Commands(turns)
            && c.socket.Some? && !c.closed
            && c.settled == Replies(vs[..n])
            && c.pending == From(n, c.sent)
            && c.delivered == MessagesIn(vs[n..])
  {
    if turns != [] {
      var before, last := turns[..|turns| - 1], turns[|turns| - 1];
      PoliteConversationsAreFaithful(s, before);
      var c, vs := Converse(FRESH.(socket := Some(s)), before), Receptions(before);
      var n := Min(|vs|, Commands(before));
      assert InStep(c, n);
      match last {
        case Command => IssuingKeepsStep(c, n);
        case Reception(v) => ValuesKeepStep(c, v, n);
      }
    }
  }
}
