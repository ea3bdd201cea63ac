/** `POST /multi-exec` (src/routes/multi-exec.ts): validate everything, open a dedicated connection, send MULTI,
    the commands and EXEC one by one, each after the last was acknowledged, and close in every case. First the
    handler's own code, then any number of handlers interleaved. */
module Transactions {
  import opened Wrappers
  import opened Commands
  import opened Routes

  datatype Word = Multi | Run(cmd: Command) | Exec

  /** MULTI, c1 .. cn, EXEC. */
  function Script(commands: seq<Command>): (s: seq<Word>)
    ensures |s| == |commands| + 2 && s[0] == Multi && s[|commands| + 1] == Exec
    ensures forall i :: 0 <= i < |commands| ==> s[i + 1] == Run(commands[i])
  {
    [Multi] + seq(|commands|, i requires 0 <= i < |commands| => Run(commands[i])) + [Exec]
  }

  lemma MiddleWordsAreCommands(commands: seq<Command>, k: nat)
    requires 0 < k <= |commands|
    ensures Script(commands)[k] == Run(commands[k - 1])
  {
    assert Script(commands)[(k - 1) + 1] == Run(commands[k - 1]);
  }

  lemma ScriptGrows(commands: seq<Command>, i: nat)
    requires i < |commands| + 2
    ensures Script(commands)[..0] == []
    ensures Script(commands)[..i + 1] == Script(commands)[..i] + [Script(commands)[i]]
  {
  }

  // ---- Validation ----

  datatype Refusal = TooMany | BadEntry(problem: Problem)

  predicate Valid(body: seq<BodyEntry>, gate: Gate, max: nat) {
    |body| <= max && AllSendable(body, gate)
  }

  function CommandsOf(body: seq<BodyEntry>, gate: Gate): (commands: seq<Command>)
    requires AllSendable(body, gate)
    ensures |commands| == |body|
  {
    seq(|body|, i requires 0 <= i < |body| => CommandOf(body[i], gate).value)
  }

  /** The first entry that is not an array, does not parse or is blocked refuses the whole request. */
  method Validate(body: seq<BodyEntry>, gate: Gate, max: nat) returns (r: Result<seq<Command>, Refusal>)
    ensures r.Ok? <==> Valid(body, gate, max)
    ensures r.Ok? ==> r.value == CommandsOf(body, gate)
    ensures |body| > max ==> r == Threw(TooMany)
    ensures r.Threw? && |body| <= max ==>
              r.error.BadEntry?
              && exists i :: 0 <= i < |body| && PromiseOf(body[i], gate, 0) == Failed(r.error.problem)
                             && AllSendable(body[..i], gate)
  {
    hide ParseCommand;
    if |body| > max {
      return Threw(TooMany);
    }
    var validated: seq<Command> := [];
    for i := 0 to |body|
      invariant |validated| == i
      invariant forall k :: 0 <= k < i ==> CommandOf(body[k], gate) == Some(validated[k])
    {
      var cmd := body[i];
      if cmd.NotArray? || |cmd.raw| == 0 {
        return Threw(BadEntry(NotACommandArray));
      }
      var parsed := ParseCommandArray(cmd.raw);
      if parsed.Threw? {
        return Threw(BadEntry(BadCommand(parsed.error)));
      }
      var blocked := gate(parsed.value);
      if blocked.Some? {
        return Threw(BadEntry(Blocked(blocked.value)));
      }
      validated := validated + [parsed.value];
    }
    return Ok(validated);
  }

  // ---- The exchange on one connection ----

  class Connection {
    var log: seq<Word>
    var open: bool

    constructor ()
      ensures log == [] && open
    {
      log, open := [], true;
    }

    method Send(word: Word)
      requires open
      modifies this
      ensures log == old(log) + [word] && open
    {
      log := log + [word];
    }

    method Close()
      modifies this
      ensures log == old(log) && !open
    {
      open := false;
    }
  }

  /** How many words are sent when `acknowledged(k)` tells whether the k-th is answered in time without an
      error: up to and including the first that is not. */
  function WordsSent(acknowledged: nat -> bool, total: nat, from: nat): (n: nat)
    requires from <= total
    ensures from < total ==> from < n <= total
    ensures forall k :: from <= k < n - 1 ==> acknowledged(k)
    ensures from < n < total ==> !acknowledged(n - 1)
    decreases total - from
  {
    if from == total then from
    else if !acknowledged(from) then from + 1
    else WordsSent(acknowledged, total, from + 1)
  }

  /** The body of the `try`, and its `finally`: whatever fails, the connection is closed and its log is a prefix
      of the script; EXEC is sent only if MULTI and every command were acknowledged, and the reply is used only
      if EXEC was too. */
  method Execute(tx: Connection, commands: seq<Command>, acknowledged: nat -> bool) returns (completed: bool)
    requires tx.open && tx.log == []
    modifies tx
    ensures !tx.open
    ensures tx.log == Script(commands)[..WordsSent(acknowledged, |commands| + 2, 0)]
    ensures completed <==> forall k :: 0 <= k < |commands| + 2 ==> acknowledged(k)
    ensures Exec in tx.log ==> forall k :: 0 <= k <= |commands| ==> acknowledged(k)
  {
    completed := Exchange(tx, commands, acknowledged);
    ghost var n := WordsSent(acknowledged, |commands| + 2, 0);
    assert forall k :: 0 <= k < n - 1 ==> tx.log[k] != Exec;
    tx.Close();
  }

  method Exchange(tx: Connection, commands: seq<Command>, acknowledged: nat -> bool) returns (completed: bool)
    requires tx.open && tx.log == []
    modifies tx
    ensures tx.log == Script(commands)[..WordsSent(acknowledged, |commands| + 2, 0)]
    ensures completed <==> forall k :: 0 <= k < |commands| + 2 ==> acknowledged(k)
  {
    hide Script;
    ghost var total := |commands| + 2;
    ScriptGrows(commands, 0);
    tx.Send(Multi);
    if !acknowledged(0) {
      return false;
    }
    var i := 0;
    while i < |commands|
      invariant 0 <= i <= |commands| && tx.open
      invariant tx.log == Script(commands)[..i + 1]
      invariant forall k :: 0 <= k <= i ==> acknowledged(k)
      invariant WordsSent(acknowledged, total, 0) == WordsSent(acknowledged, total, i + 1)
    {
      ScriptGrows(commands, i + 1);
      MiddleWordsAreCommands(commands, i + 1);
      tx.Send(Run(commands[i]));
      if !acknowledged(i + 1) {
        return false;
      }
      i := i + 1;
    }
    ScriptGrows(commands, i + 1);
    tx.Send(Exec);
    return acknowledged(i + 1);
  }

  // ---- Any number of requests at once ----

  datatype Phase =
    | Refused              // answered without a connection
    | Opening
    | Awaiting(k: nat)     // word k of the script was sent last
    | Ended

  datatype Handler = Handler(body: seq<BodyEntry>, phase: Phase, link: Option<nat>)

  /** A word and the request whose handler sent it. */
  datatype Entry = Entry(sender: nat, word: Word)

  datatype Link = Link(owner: nat, log: seq<Entry>, acknowledged: nat, open: bool)

  datatype System = System(requests: map<nat, Handler>, links: map<nat, Link>)

  datatype Event =
    | Arrives(id: nat, body: seq<BodyEntry>)
    | Opens(id: nat, link: nat)
    | OpenFails(id: nat)
    | Acknowledged(id: nat)
    | Fails(id: nat)         // error reply, dropped connection or timeout

  predicate Enabled(s: System, e: Event) {
    match e
    case Arrives(id, _) => id !in s.requests
    case Opens(id, link) => id in s.requests && s.requests[id].phase.Opening? && link !in s.links
    case OpenFails(id) => id in s.requests && s.requests[id].phase.Opening?
    case Acknowledged(id) => Waits(s, id)
    case Fails(id) => Waits(s, id)
  }

  predicate Waits(s: System, id: nat) {
    && id in s.requests && s.requests[id].phase.Awaiting?
    && s.requests[id].link.Some? && s.requests[id].link.value in s.links
  }

  function Put(s: System, id: nat, h: Handler, link: Link): System
    requires h.link.Some?
  {
    System(s.requests[id := h], s.links[h.link.value := link])
  }

  function Step(s: System, e: Event, gate: Gate, max: nat): System
    requires Enabled(s, e)
  {
    match e
    case Arrives(id, body) =>
      var proceeds := body != [] && Valid(body, gate, max);
      s.(requests := s.requests[id := Handler(body, if proceeds then Opening else Refused, None)])
    case Opens(id, link) =>
      Put(s, id, s.requests[id].(phase := Awaiting(0), link := Some(link)), Link(id, [Entry(id, Multi)], 0, true))
    case OpenFails(id) => s.(requests := s.requests[id := s.requests[id].(phase := Ended)])
    case Acknowledged(id) =>
      var h := s.requests[id];
      var link, k := s.links[h.link.value], h.phase.k;
      var answered := link.(acknowledged := link.acknowledged + 1);
      if k > |h.body| then Put(s, id, h.(phase := Ended), answered.(open := false))
      else
        var word := if k == |h.body| then Exec else NextRun(h.body[k], gate);
        Put(s, id, h.(phase := Awaiting(k + 1)), answered.(log := link.log + [Entry(id, word)]))
    case Fails(id) =>
      var h := s.requests[id];
      Put(s, id, h.(phase := Ended), s.links[h.link.value].(open := false))
  }

  /** The command of a validated entry. */
  function NextRun(entry: BodyEntry, gate: Gate): Word {
    match CommandOf(entry, gate)
    case Some(cmd) => Run(cmd)
    case None => Exec
  }

  function Words(log: seq<Entry>): (ws: seq<Word>)
    ensures |ws| == |log|
  {
    seq(|log|, i requires 0 <= i < |log| => log[i].word)
  }

  /** A handler and its connection, at every moment. */
  ghost predicate InScript(id: nat, h: Handler, link: Link, gate: Gate, max: nat) {
    && h.body != [] && Valid(h.body, gate, max)
    && link.owner == id && (forall i :: 0 <= i < |link.log| ==> link.log[i].sender == id)
    && 0 < |link.log| <= |h.body| + 2
    && Words(link.log) == Script(CommandsOf(h.body, gate))[..|link.log|]
    && (match h.phase
        case Awaiting(k) => link.open && k + 1 == |link.log| && link.acknowledged == k
        case Ended => !link.open && |link.log| - 1 <= link.acknowledged <= |link.log|
        case _ => false)
  }

  ghost predicate Isolated(s: System, gate: Gate, max: nat) {
    && (forall id :: id in s.requests ==> Tied(s, id, gate, max))
    && (forall c :: c in s.links ==> s.links[c].owner in s.requests && s.requests[s.links[c].owner].link == Some(c))
  }

  ghost predicate Tied(s: System, id: nat, gate: Gate, max: nat)
    requires id in s.requests
  {
    var h := s.requests[id];
    match h.link
    case None => !h.phase.Awaiting? && (h.phase.Opening? ==> h.body != [] && Valid(h.body, gate, max))
    case Some(c) => c in s.links && InScript(id, h, s.links[c], gate, max)
  }

  lemma PutKeepsIsolation(s: System, id: nat, h: Handler, link: Link, gate: Gate, max: nat)
    requires Isolated(s, gate, max) && id in s.requests && h.link.Some?
    requires s.requests[id].link == h.link || (s.requests[id].link.None? && h.link.value !in s.links)
    requires InScript(id, h, link, gate, max)
    ensures Isolated(Put(s, id, h, link), gate, max)
  {
    hide InScript;
    var s' := Put(s, id, h, link);
    OwnerIsRight(id, h, link, gate, max);
    forall other | other in s'.requests
      ensures Tied(s', other, gate, max)
    {
      if other != id {
        assert Tied(s, other, gate, max);
        if s.requests[other].link.Some? {
          OwnerIsRight(other, s.requests[other], s.links[s.requests[other].link.value], gate, max);
          if s.requests[id].link == h.link {
            assert Tied(s, id, gate, max);
            OwnerIsRight(id, s.requests[id], s.links[h.link.value], gate, max);
          }
        }
      }
    }
  }

  lemma OwnerIsRight(id: nat, h: Handler, link: Link, gate: Gate, max: nat)
    requires InScript(id, h, link, gate, max)
    ensures link.owner == id
  {
  }

  lemma NextWordFollowsScript(id: nat, h: Handler, link: Link, gate: Gate, max: nat)
    requires InScript(id, h, link, gate, max) && h.phase.Awaiting? && h.phase.k <= |h.body|
    ensures var k := h.phase.k;
            var word := if k == |h.body| then Exec else NextRun(h.body[k], gate);
            InScript(id, h.(phase := Awaiting(k + 1)),
                     link.(acknowledged := link.acknowledged + 1, log := link.log + [Entry(id, word)]), gate, max)
  {
    var k := h.phase.k;
    var word := if k == |h.body| then Exec else NextRun(h.body[k], gate);
    var script := Script(CommandsOf(h.body, gate));
    assert script[k + 1] == word;
    assert Words(link.log + [Entry(id, word)]) == Words(link.log) + [word];
    assert script[..k + 2] == script[..k + 1] + [script[k + 1]];
  }

  lemma RequestIsTied(s: System, id: nat, gate: Gate, max: nat)
    requires Isolated(s, gate, max) && id in s.requests
    ensures Tied(s, id, gate, max)
  {
  }

  lemma StepKeepsIsolation(s: System, e: Event, gate: Gate, max: nat)
    requires Isolated(s, gate, max) && Enabled(s, e)
    ensures Isolated(Step(s, e, gate, max), gate, max)
  {
    hide Isolated, NextRun;
    match e {
      case Arrives(id, body) => RequestOnlyKeepsIsolation(s, id, Step(s, e, gate, max).requests[id], gate, max);
      case OpenFails(id) =>
        RequestIsTied(s, id, gate, max);
        RequestOnlyKeepsIsolation(s, id, s.requests[id].(phase := Ended), gate, max);
      case Opens(id, link) =>
        RequestIsTied(s, id, gate, max);
        assert Words([Entry(id, Multi)]) == [Multi] == Script(CommandsOf(s.requests[id].body, gate))[..1];
        PutKeepsIsolation(s, id, s.requests[id].(phase := Awaiting(0), link := Some(link)),
                          Link(id, [Entry(id, Multi)], 0, true), gate, max);
      case Acknowledged(id) =>
        RequestIsTied(s, id, gate, max);
        var h := s.requests[id];
        var link, k := s.links[h.link.value], h.phase.k;
        if k <= |h.body| {
          var word := if k == |h.body| then Exec else NextRun(h.body[k], gate);
          NextWordFollowsScript(id, h, link, gate, max);
          PutKeepsIsolation(s, id, h.(phase := Awaiting(k + 1)),
                            link.(acknowledged := link.acknowledged + 1, log := link.log + [Entry(id, word)]),
                            gate, max);
        } else {
          PutKeepsIsolation(s, id, h.(phase := Ended),
                            link.(acknowledged := link.acknowledged + 1, open := false), gate, max);
        }
      case Fails(id) =>
        RequestIsTied(s, id, gate, max);
        PutKeepsIsolation(s, id, s.requests[id].(phase := Ended),
                          s.links[s.requests[id].link.value].(open := false), gate, max);
    }
  }

  lemma RequestOnlyKeepsIsolation(s: System, id: nat, h: Handler, gate: Gate, max: nat)
    requires Isolated(s, gate, max) && h.link.None?
    requires id in s.requests ==> s.requests[id].link.None?
    requires !h.phase.Awaiting? && (h.phase.Opening? ==> h.body != [] && Valid(h.body, gate, max))
    ensures Isolated(s.(requests := s.requests[id := h]), gate, max)
  {
    hide InScript;
    var s' := s.(requests := s.requests[id := h]);
    forall other | other in s'.requests
      ensures Tied(s', other, gate, max)
    {
      if other != id {
        assert Tied(s, other, gate, max);
      }
    }
  }

  ghost predicate IsRun(gate: Gate, max: nat, states: seq<System>, events: seq<Event>) {
    && |states| == |events| + 1 && states[0] == System(map[], map[])
    && forall i :: 0 <= i < |events| ==>
         Enabled(states[i], events[i]) && states[i + 1] == Step(states[i], events[i], gate, max)
  }

  lemma {:induction false} RunsAreIsolated(gate: Gate, max: nat, states: seq<System>, events: seq<Event>, i: nat)
    requires IsRun(gate, max, states, events) && i <= |events|
    ensures Isolated(states[i], gate, max)
  {
    hide Isolated;
    if i > 0 {
      RunsAreIsolated(gate, max, states, events, i - 1);
      StepKeepsIsolation(states[i - 1], events[i - 1], gate, max);
    } else {
      NothingIsIsolated(gate, max);
    }
  }

  lemma NothingIsIsolated(gate: Gate, max: nat)
    ensures Isolated(System(map[], map[]), gate, max)
  {
  }

  /** Transaction isolation, at every moment of every interleaving: a connection belongs to one request, whose
      body is wholly valid; its log is a prefix of that request's script, written by that request alone; EXEC
      is on it only if every word before was acknowledged; and it is closed once the handler has ended. */
  lemma TransactionsAreIsolated(gate: Gate, max: nat, states: seq<System>, events: seq<Event>, i: nat, c: nat)
    requires IsRun(gate, max, states, events) && i <= |events|
    requires c in states[i].links
    ensures states[i].links[c].owner in states[i].requests
    ensures var link := states[i].links[c];
            var h := states[i].requests[link.owner];
            && h.link == Some(c) && Valid(h.body, gate, max)
            && (forall k :: 0 <= k < |link.log| ==> link.log[k].sender == link.owner)
            && Words(link.log) <= Script(CommandsOf(h.body, gate))
            && (Exec in Words(link.log) ==> link.acknowledged >= |h.body| + 1)
            && (h.phase.Ended? ==> !link.open)
            && (link.open ==> h.phase.Awaiting?)
  {
    hide Isolated, InScript;
    RunsAreIsolated(gate, max, states, events, i);
    LinkIsTied(states[i], c, gate, max);
    var link := states[i].links[c];
    ScriptFacts(link.owner, states[i].requests[link.owner], link, gate, max);
  }

  lemma LinkIsTied(s: System, c: nat, gate: Gate, max: nat)
    requires Isolated(s, gate, max) && c in s.links
    ensures s.links[c].owner in s.requests
    ensures s.requests[s.links[c].owner].link == Some(c)
    ensures InScript(s.links[c].owner, s.requests[s.links[c].owner], s.links[c], gate, max)
  {
    assert Tied(s, s.links[c].owner, gate, max);
  }

  lemma ScriptFacts(id: nat, h: Handler, link: Link, gate: Gate, max: nat)
    requires InScript(id, h, link, gate, max)
    ensures Valid(h.body, gate, max) && link.owner == id
    ensures forall k :: 0 <= k < |link.log| ==> link.log[k].sender == id
    ensures Words(link.log) <= Script(CommandsOf(h.body, gate))
    ensures Exec in Words(link.log) ==> link.acknowledged >= |h.body| + 1
    ensures h.phase.Ended? ==> !link.open
    ensures link.open ==> h.phase.Awaiting?
  {
    var script := Script(CommandsOf(h.body, gate));
    if Exec in Words(link.log) {
      var k :| 0 <= k < |link.log| && Words(link.log)[k] == Exec;
      assert script[k] == Exec;
      if 0 < k <= |h.body| {
        MiddleWordsAreCommands(CommandsOf(h.body, gate), k);
      }
    }
  }

  // ---- The exchange, told by its events ----

  /** A request goes on to open a connection if and only if its body is not empty, is within the cap, and every entry
      parses and is not blocked; otherwise it is refused without one. No other request is touched. */
  lemma RequestsAreAdmitted(s: System, id: nat, body: seq<BodyEntry>, gate: Gate, max: nat)
    requires Enabled(s, Arrives(id, body))
    ensures var s' := Step(s, Arrives(id, body), gate, max);
            && (s'.requests[id].phase.Opening? <==>
                  && 0 < |body| <= max
                  && forall i :: 0 <= i < |body| ==>
                       && body[i].Elements? && body[i].raw != [] && ParseCommand(body[i].raw).Ok?
                       && gate(ParseCommand(body[i].raw).value).None?)
            && (!s'.requests[id].phase.Opening? ==> s'.requests[id].phase.Refused?)
            && s'.requests[id].link.None? && s'.links == s.links
            && s'.requests == s.requests[id := s'.requests[id]]
  {
    hide ParseCommand;
    forall i | 0 <= i < |body|
      ensures CommandOf(body[i], gate).Some? <==>
                body[i].Elements? && body[i].raw != [] && ParseCommand(body[i].raw).Ok?
                && gate(ParseCommand(body[i].raw).value).None?
    {
    }
  }

  /** A request whose connection cannot be opened ends without one, and nothing else changes. */
  lemma FailedOpeningsEnd(s: System, id: nat, gate: Gate, max: nat)
    requires Isolated(s, gate, max) && Enabled(s, OpenFails(id))
    ensures var s' := Step(s, OpenFails(id), gate, max);
            && s'.requests[id].phase.Ended? && s'.requests[id].link.None?
            && s'.links == s.links && s'.requests == s.requests[id := s'.requests[id]]
  {
    hide AllSendable, Script, Words;
    assert Tied(s, id, gate, max);
  }

  /** How many words of request id have been acknowledged. */
  function Acknowledgements(events: seq<Event>, id: nat, i: nat): nat
    requires i <= |events|
  {
    if i == 0 then 0 else Acknowledgements(events, id, i - 1) + if events[i - 1] == Acknowledged(id) then 1 else 0
  }

  ghost predicate HasFailed(events: seq<Event>, id: nat, i: nat)
    requires i <= |events|
  {
    exists k :: 0 <= k < i && events[k] == Fails(id)
  }

  function Shorter(a: nat, b: nat): nat {
    if a < b then a else b
  }

  /** The handler and its connection after this many acknowledgements, with or without a failure. */
  ghost predicate Told(s: System, id: nat, acknowledged: nat, failed: bool) {
    if id in s.requests && s.requests[id].link.Some? && s.requests[id].link.value in s.links then
      var h, link := s.requests[id], s.links[s.requests[id].link.value];
      && link.acknowledged == acknowledged
      && |link.log| == Shorter(acknowledged + 1, |h.body| + 2)
      && (h.phase.Ended? <==> failed || acknowledged == |h.body| + 2)
    else acknowledged == 0 && !failed
  }

  lemma OwnStepTells(s: System, e: Event, gate: Gate, max: nat, id: nat, acknowledged: nat, failed: bool)
    requires Isolated(s, gate, max) && Enabled(s, e) && Told(s, id, acknowledged, failed)
    requires e.id == id
    ensures Told(Step(s, e, gate, max), id, acknowledged + (if e == Acknowledged(id) then 1 else 0),
                 failed || e == Fails(id))
  {
    hide Isolated, NextRun, AllSendable, Script, Words, Valid;
    if id in s.requests {
      RequestIsTied(s, id, gate, max);
    }
  }

  lemma OtherStepTells(s: System, e: Event, gate: Gate, max: nat, id: nat, acknowledged: nat, failed: bool)
    requires Isolated(s, gate, max) && Enabled(s, e) && Told(s, id, acknowledged, failed)
    requires e.id != id
    ensures Told(Step(s, e, gate, max), id, acknowledged, failed)
  {
    hide NextRun, InScript, AllSendable, Valid;
    if id in s.requests && s.requests[id].link.Some? {
      assert Tied(s, id, gate, max);
      OwnerIsRight(id, s.requests[id], s.links[s.requests[id].link.value], gate, max);
    }
    if e.id in s.requests && s.requests[e.id].link.Some? {
      assert Tied(s, e.id, gate, max);
      OwnerIsRight(e.id, s.requests[e.id], s.links[s.requests[e.id].link.value], gate, max);
    }
  }

  lemma {:induction false} RunsAreTold(gate: Gate, max: nat, states: seq<System>, events: seq<Event>, i: nat, id: nat)
    requires IsRun(gate, max, states, events) && i <= |events|
    ensures Told(states[i], id, Acknowledgements(events, id, i), HasFailed(events, id, i))
  {
    hide Isolated, Told, Step;
    if i == 0 {
      NothingIsTold(id);
    } else {
      RunsAreTold(gate, max, states, events, i - 1, id);
      RunsAreIsolated(gate, max, states, events, i - 1);
      var n, failed := Acknowledgements(events, id, i - 1), HasFailed(events, id, i - 1);
      assert HasFailed(events, id, i) <==> failed || events[i - 1] == Fails(id);
      if events[i - 1].id == id {
        OwnStepTells(states[i - 1], events[i - 1], gate, max, id, n, failed);
      } else {
        OtherStepTells(states[i - 1], events[i - 1], gate, max, id, n, failed);
      }
    }
  }

  lemma NothingIsTold(id: nat)
    ensures Told(System(map[], map[]), id, 0, false)
  {
  }

  /** At every moment of every interleaving a connection carries exactly the words that its acknowledgements call
      for: after k of them the first k + 1 words of its request's script, the whole script at most. Its handler has
      ended if and only if it has failed or every word has been acknowledged, EXEC last. */
  lemma TranscriptsFollowAcknowledgements(gate: Gate, max: nat, states: seq<System>, events: seq<Event>, i: nat,
                                          c: nat)
    requires IsRun(gate, max, states, events) && i <= |events| && c in states[i].links
    ensures states[i].links[c].owner in states[i].requests
    ensures var link := states[i].links[c];
            var h, k := states[i].requests[link.owner], Acknowledgements(events, link.owner, i);
            && Valid(h.body, gate, max)
            && Words(link.log) == Script(CommandsOf(h.body, gate))[..Shorter(k + 1, |h.body| + 2)]
            && (h.phase.Ended? <==> HasFailed(events, link.owner, i) || k == |h.body| + 2)
  {
    hide Isolated, Script, InScript, Acknowledgements, HasFailed, Valid;
    RunsAreIsolated(gate, max, states, events, i);
    LinkIsTied(states[i], c, gate, max);
    var link := states[i].links[c];
    RunsAreTold(gate, max, states, events, i, link.owner);
    WordsAreScript(link.owner, states[i].requests[link.owner], link, gate, max);
  }

  lemma WordsAreScript(id: nat, h: Handler, link: Link, gate: Gate, max: nat)
    requires InScript(id, h, link, gate, max)
    ensures Valid(h.body, gate, max) && |link.log| <= |h.body| + 2
    ensures Words(link.log) == Script(CommandsOf(h.body, gate))[..|link.log|]
  {
    hide Script;
  }
}
