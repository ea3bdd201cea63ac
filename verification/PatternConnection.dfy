/** The `RawPatternConnection` class: each method takes the step PatternProtocol.dfy gives for it. */
module PatternConnection {
  import opened Wrappers
  import opened Bytes
  import opened Resp
  import opened RespStream
  import opened RespParsing
  import opened PatternProtocol

  class RawPatternConnection {
    const parser: RespParser
    var pending: seq<nat>
    var armed: set<nat>
    var socket: Option<nat>
    var closed: bool
    // What the rest of the program observes.
    var sent: nat
    var settled: seq<Settlement>
    var terminated: set<nat>
    var delivered: seq<PMessage>
    ghost var received: seq<Value>

    ghost function State(): Conn
      reads this, parser
    {
      Conn(parser.buffer, pending, armed, sent, settled, socket, closed, terminated, delivered, received)
    }

    constructor (number: NumberOf)
      ensures State() == FRESH && parser.number == number && fresh(parser)
    {
      parser := new RespParser(number);
      pending, armed, socket, closed := [], {}, None, false;
      sent, settled, terminated, delivered, received := 0, [], {}, [], [];
    }

    /** The assignment in `connect`, once the race for a transport is won; `closed` is not looked at. */
    method Connected(transport: nat)
      requires socket.None?
      modifies this
      ensures State() == old(State()).(socket := Some(transport))
    {
      socket := Some(transport);
    }

    /** Clears the timer, leaves the queue, settles the promise. */
    method ResolvePending(id: nat, outcome: Outcome)
      modifies this
      ensures State() == Settle(old(State()), id, outcome)
    {
      armed := armed - {id};
      pending := Without(pending, id);
      settled := settled + [Settlement(id, outcome)];
    }

    method SendCommand(written: bool) returns (id: nat)
      modifies this
      ensures State() == Send(old(State()), written) && id == old(sent)
    {
      id := sent;
      sent := sent + 1;
      if socket.None? || closed {
        settled := settled + [Settlement(id, Failed(ConnectionClosed))];
        return;
      }
      pending := pending + [id];
      armed := armed + {id};
      if !written {
        ResolvePending(id, Failed(WriteFailed));
      }
    }

    /** The callback of a command's timer. */
    method TimerFires(id: nat)
      requires id in armed
      modifies this
      ensures State() == Settle(old(State()), id, Failed(TimedOut))
    {
      armed := armed - {id};
      pending := Without(pending, id);
      settled := settled + [Settlement(id, Failed(TimedOut))];
    }

    method HandleClose()
      modifies this
      ensures State() == Close(old(State()))
    {
      var transport := socket;
      socket := None;
      if transport.Some? {
        terminated := terminated + {transport.value};
      }
      assert old(terminated) + {} == old(terminated);
      if closed {
        return;
      }
      closed := true;
      var commands := pending;
      pending := [];
      ghost var rejections := Rejections(commands);
      ghost var before := State();
      assert settled + rejections[..0] == settled;
      var i := 0;
      while i < |commands|
        invariant 0 <= i <= |commands|
        invariant State() == before.(settled := before.settled + rejections[..i],
                                     armed := before.armed - (set id | id in commands[..i]))
      {
        armed := armed - {commands[i]};
        settled := settled + [Settlement(commands[i], Failed(ConnectionClosed))];
        assert rejections[..i + 1] == rejections[..i] + [rejections[i]];
        assert commands[..i + 1] == commands[..i] + [commands[i]];
        i := i + 1;
      }
      assert rejections[..i] == rejections && commands[..i] == commands;
    }

    method HandlePushMessage(v: Value)
      modifies this
      ensures State() == OnPush(old(State()), v)
    {
      if v.Failure? {
        HandleClose();
        return;
      }
      if !v.Items? || |v.items| == 0 || v.items[0] != Text(PMESSAGE) {
        return;
      }
      if |v.items| < 3 || !v.items[1].Text? || !v.items[2].Text? {
        return;
      }
      var payload := Missing;
      if |v.items| > 3 {
        payload := if v.items[3].Nil? then Plain([])
                   else if v.items[3].Text? then Plain(v.items[3].bytes)
                   else Coerced(v.items[3]);
      }
      delivered := delivered + [PMessage(v.items[1].bytes, v.items[2].bytes, payload)];
    }

    method HandleData(chunk: Bytes)
      modifies this, parser
      ensures State() == OnData(parser.number, old(State()), chunk)
    {
      hide OnPush, Settle, PushResp, OutcomeOf;
      var pushed := parser.Push(chunk);
      if pushed.Rejected? {
        HandleClose();
        return;
      }
      ghost var before := State();
      var values, i := pushed.values, 0;
      while i < |values|
        invariant 0 <= i <= |values|
        invariant State() == OnValues(before, values[..i])
      {
        assert values[..i + 1][..i] == values[..i];
        received := received + [values[i]];
        if |pending| > 0 {
          ResolvePending(pending[0], OutcomeOf(values[i]));
        } else {
          HandlePushMessage(values[i]);
        }
        i := i + 1;
      }
      assert values[..i] == values;
    }
  }
}
