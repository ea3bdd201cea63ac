/** The three command routes: /pipeline and /multi-exec answer each command as the single-command route would
    (src/routes/command.ts, src/routes/pipeline.ts, src/translate/transaction.ts). */
module Routes {
  import opened Wrappers
  import opened Bytes
  import opened Commands
  import opened Replies
  import opened ScorePairs
  import opened Encoding

  /** How Redis ends a command: a reply, or an error. */
  datatype Outcome = Fulfilled(raw: Reply) | Rejected(message: Bytes)

  datatype Problem =
    | NotACommandArray
    | BadCommand(e: ParseError)
    | Blocked(reason: string)
    | RedisError(message: Bytes)
    | ReplyTooDeep

  datatype Slot = Success(result: Reply) | Error(problem: Problem)

  /** `checkBlockedCommand` with its tables and configuration: the reason, if the command is blocked. */
  type Gate = Command -> Option<string>

  /** An element of a batch body. */
  datatype BodyEntry = NotArray | Elements(raw: seq<Arg>)

  // ---- The single-command route ----

  function Shape(cmd: Command, raw: Reply, base64: bool): Result<Reply, DepthError> {
    match Normalize(raw, 0)
    case Threw(e) => Threw(e)
    case Ok(v) =>
      var flat := Flatten(cmd.name, cmd.args, v);
      Ok(if base64 then EncodeResult(flat, 0) else flat)
  }

  /** The answer to a command that was sent. */
  function Answer(cmd: Command, outcome: Outcome, base64: bool): Slot {
    match outcome
    case Rejected(message) => Error(RedisError(message))
    case Fulfilled(raw) =>
      match Shape(cmd, raw, base64)
      case Ok(result) => Success(result)
      case Threw(_) => Error(ReplyTooDeep)
  }

  /** `executeCommand`: the gate, the reply through the stages, and a catch around them. */
  method ExecuteCommand(cmd: Command, gate: Gate, outcome: Outcome, base64: bool) returns (slot: Slot)
    ensures gate(cmd).Some? ==> slot == Error(Blocked(gate(cmd).value))
    ensures gate(cmd).None? ==> slot == Answer(cmd, outcome, base64)
  {
    var blocked := gate(cmd);
    if blocked.Some? {
      return Error(Blocked(blocked.value));
    }
    match outcome {
      case Rejected(message) => return Error(RedisError(message));
      case Fulfilled(raw) =>
        var normalized := NormalizeResp3(raw, 0);
        if normalized.Threw? {
          return Error(ReplyTooDeep);
        }
        var result := Flatten(cmd.name, cmd.args, normalized.value);
        if base64 {
          result := EncodeResult(result, 0);
        }
        return Success(result);
    }
  }

  /** `POST /` for a non-empty array, when Redis would answer the command with `outcome`. */
  function SingleCommand(raw: seq<Arg>, gate: Gate, outcome: Outcome, base64: bool): Slot {
    match ParseCommand(raw)
    case Threw(e) => Error(BadCommand(e))
    case Ok(cmd) =>
      match gate(cmd)
      case Some(reason) => Error(Blocked(reason))
      case None => Answer(cmd, outcome, base64)
  }

  /** What the client of the SDK ends up with is the shaped reply, in base64 mode and out of it. */
  lemma BothModesAgree(cmd: Command, raw: Reply)
    requires Normalize(raw, 0).Ok?
    ensures Shape(cmd, raw, false).Ok? && Shape(cmd, raw, true).Ok?
    ensures Decode(Shape(cmd, raw, true).value) == Shape(cmd, raw, false).value
  {
    hide Normalize, Flatten, Decode, EncodeResult, Canonical;
    NormalizingIsCanonical(raw, 0);
    FlatteningKeepsCanonical(cmd.name, cmd.args, Normalize(raw, 0).value);
    Base64IsInvisible(Flatten(cmd.name, cmd.args, Normalize(raw, 0).value));
  }

  /** What the client gets of a reply that fits: its normalized form, and flat if it is a list of pairs that the
      command asked for. */
  lemma RepliesAreShaped(cmd: Command, raw: Reply)
    requires Normalize(raw, 0).Ok?
    ensures var v, r := Normalize(raw, 0).value, Shape(cmd, raw, false);
            if AsksForPairs(cmd.name, cmd.args) && v.List? && AllPairs(v.items) then
              && r.Ok? && r.value.List? && |r.value.items| == 2 * |v.items|
              && forall j, k :: 0 <= j < |v.items| && 0 <= k < 2 ==> r.value.items[2 * j + k] == v.items[j].items[k]
            else r == Ok(v)
  {
    hide Normalize, AsksForPairs, ShouldFlatten;
    var v := Normalize(raw, 0).value;
    FlatteningIsAskedFor(cmd.name, cmd.args);
    if AsksForPairs(cmd.name, cmd.args) && v.List? && AllPairs(v.items) {
      forall j: nat, k: nat | j < |v.items| && k < 2
        ensures Concatenated(v.items)[2 * j + k] == v.items[j].items[k]
      {
        ConcatenatedAt(v.items, j, k);
      }
    }
  }

  /** An error of Redis is passed on, a reply that cannot be normalized is an error, and any other is a success whose
      result the client decodes to the shaped reply. */
  lemma AnswersTell(cmd: Command, outcome: Outcome, base64: bool)
    ensures outcome.Rejected? ==> Answer(cmd, outcome, base64) == Error(RedisError(outcome.message))
    ensures outcome.Fulfilled? && Normalize(outcome.raw, 0).Threw? ==>
              Answer(cmd, outcome, base64) == Error(ReplyTooDeep)
    ensures outcome.Fulfilled? && Normalize(outcome.raw, 0).Ok? ==>
              Answer(cmd, outcome, base64).Success?
              && (if base64 then Decode(Answer(cmd, outcome, base64).result) else Answer(cmd, outcome, base64).result)
                 == Shape(cmd, outcome.raw, false).value
  {
    hide Normalize, Decode, EncodeResult, Flatten;
    if outcome.Fulfilled? && Normalize(outcome.raw, 0).Ok? {
      BothModesAgree(cmd, outcome.raw);
    }
  }

  // ---- /pipeline ----

  /** The command an entry sends, if it sends one. */
  function CommandOf(entry: BodyEntry, gate: Gate): Option<Command> {
    if entry.NotArray? || entry.raw == [] then None else
      match ParseCommand(entry.raw)
      case Threw(_) => None
      case Ok(cmd) => if gate(cmd).Some? then None else Some(cmd)
  }

  /** The commands a body sends: the valid, unblocked ones, in body order. */
  function SentBy(body: seq<BodyEntry>, gate: Gate): (sent: seq<Command>)
    ensures |sent| <= |body|
  {
    if body == [] then [] else
      SentBy(body[..|body| - 1], gate)
        + match CommandOf(body[|body| - 1], gate) case Some(cmd) => [cmd] case None => []
  }

  /** The outcome that belongs to entry i: the one of the command it sent, which is the n-th of those sent, n
      being how many earlier entries sent one. */
  function OutcomeAt(body: seq<BodyEntry>, gate: Gate, outcomes: seq<Outcome>, i: nat): Outcome
    requires i < |body| && |outcomes| == |SentBy(body, gate)|
  {
    var n := |SentBy(body[..i], gate)|;
    if n < |outcomes| then outcomes[n] else Rejected([])
  }

  /** What an element of `promises` is: a send, by its number, or an immediate rejection. */
  datatype Promise = Sent(number: nat) | Failed(problem: Problem)

  function PromiseOf(entry: BodyEntry, gate: Gate, number: nat): Promise {
    if entry.NotArray? || entry.raw == [] then Failed(NotACommandArray) else
      match ParseCommand(entry.raw)
      case Threw(e) => Failed(BadCommand(e))
      case Ok(cmd) =>
        match gate(cmd)
        case Some(reason) => Failed(Blocked(reason))
        case None => Sent(number)
  }

  function ParsedOf(entry: BodyEntry): Option<Command> {
    if entry.NotArray? || entry.raw == [] then None else
      match ParseCommand(entry.raw) case Threw(_) => None case Ok(cmd) => Some(cmd)
  }

  /** The first stage: `parsedCommands` and `promises` grow in lockstep with the body. */
  method Dispatch(body: seq<BodyEntry>, gate: Gate)
    returns (parsedCommands: seq<Option<Command>>, promises: seq<Promise>, sent: seq<Command>)
    ensures sent == SentBy(body, gate)
    ensures |parsedCommands| == |promises| == |body|
    ensures forall i :: 0 <= i < |body| ==>
              parsedCommands[i] == ParsedOf(body[i])
              && promises[i] == PromiseOf(body[i], gate, |SentBy(body[..i], gate)|)
  {
    hide ParseCommand, SentBy;
    parsedCommands, promises, sent := [], [], [];
    SentSoFar(body, gate, 0);
    for i := 0 to |body|
      invariant |parsedCommands| == |promises| == i
      invariant sent == SentBy(body[..i], gate)
      invariant forall k :: 0 <= k < i ==>
                  parsedCommands[k] == ParsedOf(body[k])
                  && promises[k] == PromiseOf(body[k], gate, |SentBy(body[..k], gate)|)
    {
      SentSoFar(body, gate, i);
      var cmd := body[i];
      if cmd.NotArray? || |cmd.raw| == 0 {
        parsedCommands := parsedCommands + [None];
        promises := promises + [Failed(NotACommandArray)];
      } else {
        var parsed := ParseCommandArray(cmd.raw);
        if parsed.Threw? {
          parsedCommands := parsedCommands + [None];
          promises := promises + [Failed(BadCommand(parsed.error))];
        } else {
          parsedCommands := parsedCommands + [Some(parsed.value)];
          var blocked := gate(parsed.value);
          if blocked.Some? {
            promises := promises + [Failed(Blocked(blocked.value))];
          } else {
            promises := promises + [Sent(|sent|)];
            sent := sent + [parsed.value];
          }
        }
      }
    }
    assert body[..|body|] == body;
  }

  lemma SentSoFar(body: seq<BodyEntry>, gate: Gate, i: nat)
    requires i <= |body|
    ensures i == 0 ==> SentBy(body[..i], gate) == []
    ensures i < |body| ==> SentBy(body[..i + 1], gate) == SentBy(body[..i], gate)
                             + match CommandOf(body[i], gate) case Some(cmd) => [cmd] case None => []
  {
    if i < |body| {
      assert body[..i + 1][..i] == body[..i];
    }
  }

  lemma {:induction false} SentGrows(body: seq<BodyEntry>, gate: Gate, i: nat)
    requires i < |body|
    ensures |SentBy(body[..i], gate)| + (if CommandOf(body[i], gate).Some? then 1 else 0) <= |SentBy(body, gate)|
  {
    var n := |body| - 1;
    if i < n {
      SentGrows(body[..n], gate, i);
      assert body[..n][..i] == body[..i];
    }
  }

  lemma {:induction false} SentSplits(body: seq<BodyEntry>, gate: Gate, i: nat)
    requires i <= |body|
    ensures SentBy(body[..i], gate) <= SentBy(body, gate)
  {
    if i == |body| {
      assert body[..i] == body;
    } else {
      SentSplits(body[..|body| - 1], gate, i);
      assert body[..|body| - 1][..i] == body[..i];
    }
  }

  /** An entry sends its command if and only if it is a command that parses and is not blocked, and sends it in its
      turn: after those of the entries before it. */
  lemma EntriesSendInTurn(body: seq<BodyEntry>, gate: Gate, i: nat)
    requires i < |body|
    ensures var n, sent := |SentBy(body[..i], gate)|, SentBy(body, gate);
            if body[i].Elements? && body[i].raw != [] && ParseCommand(body[i].raw).Ok?
               && gate(ParseCommand(body[i].raw).value).None? then
              && |SentBy(body[..i + 1], gate)| == n + 1 && n < |sent| && sent[n] == ParseCommand(body[i].raw).value
            else |SentBy(body[..i + 1], gate)| == n
  {
    hide ParseCommand;
    SentSoFar(body, gate, i);
    SentSplits(body, gate, i + 1);
  }

  /** Nothing blocked is sent. */
  lemma {:induction false} NothingBlockedIsSent(body: seq<BodyEntry>, gate: Gate)
    ensures forall cmd :: cmd in SentBy(body, gate) ==> gate(cmd).None?
  {
    hide ParseCommand;
    if body != [] {
      NothingBlockedIsSent(body[..|body| - 1], gate);
    }
  }

  /** A reply the pipeline cannot normalize makes the whole request fail: the route does not catch. */
  predicate Fits(outcome: Outcome) {
    outcome.Fulfilled? ==> Normalize(outcome.raw, 0).Ok?
  }

  /** When `/pipeline` answers at all. */
  ghost predicate PipelineAnswers(body: seq<BodyEntry>, gate: Gate, outcomes: seq<Outcome>)
    requires |outcomes| == |SentBy(body, gate)|
  {
    forall i :: 0 <= i < |body| && CommandOf(body[i], gate).Some? ==> Fits(OutcomeAt(body, gate, outcomes, i))
  }

  /** The `/pipeline` handler after its checks of the body; `outcomes` are how Redis ends the commands sent, in
      the order they were sent. It answers exactly when no reply is too deep, with one slot per entry, each
      what the single-command route gives. */
  method Pipeline(body: seq<BodyEntry>, gate: Gate, outcomes: seq<Outcome>, base64: bool)
    returns (sent: seq<Command>, response: Result<seq<Slot>, DepthError>)
    requires |outcomes| == |SentBy(body, gate)|
    ensures sent == SentBy(body, gate)
    ensures response.Ok? <==> PipelineAnswers(body, gate, outcomes)
    ensures response.Ok? ==> |response.value| == |body|
    ensures response.Ok? ==> forall i :: 0 <= i < |body| ==>
              response.value[i] == SlotFor(body, gate, outcomes, base64, i)
  {
    hide Normalize, Flatten, EncodeResult, ParseCommand, SentBy;
    var parsedCommands, promises, commands := Dispatch(body, gate);
    sent := commands;
    var results: seq<Slot> := [];
    for i := 0 to |body|
      invariant |results| == i
      invariant forall k :: 0 <= k < i ==> results[k] == SlotFor(body, gate, outcomes, base64, k)
      invariant forall k :: 0 <= k < i && CommandOf(body[k], gate).Some? ==> Fits(OutcomeAt(body, gate, outcomes, k))
    {
      SentGrows(body, gate, i);
      match promises[i] {
        case Failed(problem) => results := results + [Error(problem)];
        case Sent(number) =>
          match outcomes[number] {
            case Rejected(message) => results := results + [Error(RedisError(message))];
            case Fulfilled(raw) =>
              var normalized := NormalizeResp3(raw, 0);
              if normalized.Threw? {
                assert !Fits(OutcomeAt(body, gate, outcomes, i));
                return sent, Threw(normalized.error);
              }
              var result := normalized.value;
              if parsedCommands[i].Some? {
                result := Flatten(parsedCommands[i].value.name, parsedCommands[i].value.args, result);
              }
              if base64 {
                result := EncodeResult(result, 0);
              }
              results := results + [Success(result)];
          }
      }
    }
    response := Ok(results);
  }

  function SlotFor(body: seq<BodyEntry>, gate: Gate, outcomes: seq<Outcome>, base64: bool, i: nat): Slot
    requires i < |body| && |outcomes| == |SentBy(body, gate)|
  {
    if body[i].NotArray? || body[i].raw == [] then Error(NotACommandArray)
    else SingleCommand(body[i].raw, gate, OutcomeAt(body, gate, outcomes, i), base64)
  }

  /** What slot i tells: what is wrong with the entry, why it is blocked, or the answer to its own command. */
  lemma SlotsTell(body: seq<BodyEntry>, gate: Gate, outcomes: seq<Outcome>, base64: bool, i: nat)
    requires i < |body| && |outcomes| == |SentBy(body, gate)|
    ensures var slot, entry, n := SlotFor(body, gate, outcomes, base64, i), body[i], |SentBy(body[..i], gate)|;
            if entry.NotArray? || entry.raw == [] then slot == Error(NotACommandArray)
            else
              match ParseCommand(entry.raw)
              case Threw(e) => slot == Error(BadCommand(e))
              case Ok(cmd) =>
                if gate(cmd).Some? then slot == Error(Blocked(gate(cmd).value))
                else n < |outcomes| && slot == Answer(cmd, outcomes[n], base64)
  {
    hide ParseCommand, Answer;
    EntriesSendInTurn(body, gate, i);
  }

  /** It is silent exactly when some reply has a value more than 64 levels down. */
  lemma PipelineIsSilentOnDeepReplies(body: seq<BodyEntry>, gate: Gate, outcomes: seq<Outcome>)
    requires |outcomes| == |SentBy(body, gate)|
    ensures !PipelineAnswers(body, gate, outcomes) <==>
              exists i :: 0 <= i < |body| && CommandOf(body[i], gate).Some?
                          && IsTooDeep(OutcomeAt(body, gate, outcomes, i))
  {
    forall i | 0 <= i < |body|
      ensures Fits(OutcomeAt(body, gate, outcomes, i)) <==> !IsTooDeep(OutcomeAt(body, gate, outcomes, i))
    {
      var outcome := OutcomeAt(body, gate, outcomes, i);
      if outcome.Fulfilled? {
        ThrowsExactlyWhenTooDeep(outcome.raw, 0);
      }
    }
  }

  ghost predicate IsTooDeep(outcome: Outcome) {
    outcome.Fulfilled? && ReachesLevel(outcome.raw, MAX_NORMALIZE_DEPTH + 1)
  }

  /** Null inside `levels` lists. */
  function Nested(levels: nat): Reply {
    if levels == 0 then Null else List([Nested(levels - 1)])
  }

  lemma {:induction false} NestedReaches(levels: nat)
    ensures ReachesLevel(Nested(levels), levels)
  {
    if levels > 0 {
      NestedReaches(levels - 1);
      assert [Nested(levels - 1)][0] == Nested(levels - 1);
      assert SomeReaches([Nested(levels - 1)], levels - 1);
    }
  }

  /** A body where the routes part: the second command's reply is 65 lists deep. The pipeline fails as a whole, the
      first command's good reply with it; on the other two routes that reply alone becomes an error. */
  lemma DeepReplyPartsTheRoutes(base64: bool)
    ensures var gate: Gate := _ => None;
            var entry := Elements([Text("GET"), Text("k")]);
            var outcomes := [Fulfilled(Str(OK)), Fulfilled(Nested(65))];
            && |SentBy([entry, entry], gate)| == 2
            && !PipelineAnswers([entry, entry], gate, outcomes)
            && Answer(Command("GET", ["k"]), Fulfilled(Str(OK)), base64).Success?
            && Answer(Command("GET", ["k"]), Fulfilled(Nested(65)), base64) == Error(ReplyTooDeep)
  {
    hide ReachesLevel, Normalize, SentBy, ParseCommand, Fits, Flatten, EncodeResult;
    var gate: Gate := _ => None;
    var entry := Elements([Text("GET"), Text("k")]);
    var body, outcomes := [entry, entry], [Fulfilled(Str(OK)), Fulfilled(Nested(65))];
    GetIsSendable(gate);
    NestedIsTooDeep();
    AllAreSent(body, gate);
    AllAreSent(body[..1], gate);
    assert OutcomeAt(body, gate, outcomes, 1) == outcomes[1];
  }

  lemma GetIsSendable(gate: Gate)
    requires forall cmd :: gate(cmd).None?
    ensures CommandOf(Elements([Text("GET"), Text("k")]), gate).Some?
  {
  }

  lemma NestedIsTooDeep()
    ensures Normalize(Nested(65), 0).Threw? && !Fits(Fulfilled(Nested(65)))
    ensures Normalize(Str(OK), 0).Ok?
  {
    hide ReachesLevel;
    NestedReaches(65);
    ThrowsExactlyWhenTooDeep(Nested(65), 0);
  }

  // ---- /multi-exec ----

  /** An element of the EXEC reply, an Error object standing for a command that failed at run time. */
  function ExecOutcome(raw: Reply): Outcome {
    if raw.Failure? then Rejected(raw.message) else Fulfilled(raw)
  }

  /** A result with no command beside it is normalized and encoded, not flattened. */
  function Unpaired(outcome: Outcome, base64: bool): Slot {
    match outcome
    case Rejected(message) => Error(RedisError(message))
    case Fulfilled(raw) =>
      match Normalize(raw, 0)
      case Threw(_) => Error(ReplyTooDeep)
      case Ok(v) => Success(if base64 then EncodeResult(v, 0) else v)
  }

  /** `shapeExecResults`: an array reply gives one slot per element, each what the single-command route answers;
      elements beyond the commands are answered unpaired; anything else is an error, not an empty success. */
  method ShapeExecResults(execResult: Reply, base64: bool, commands: seq<Command>)
    returns (r: Result<seq<Slot>, Reply>)
    ensures r.Ok? <==> execResult.List?
    ensures r.Threw? ==> r.error == execResult
    ensures r.Ok? ==> |r.value| == |execResult.items|
    ensures r.Ok? ==> forall i :: 0 <= i < |r.value| ==>
              r.value[i] == if i < |commands| then Answer(commands[i], ExecOutcome(execResult.items[i]), base64)
                            else Unpaired(ExecOutcome(execResult.items[i]), base64)
    ensures r.Ok? ==> forall i :: 0 <= i < |r.value| && execResult.items[i].Failure? ==>
              r.value[i] == Error(RedisError(execResult.items[i].message))
    ensures r.Ok? ==> forall i :: 0 <= i < |r.value| && !execResult.items[i].Failure? ==>
              (r.value[i].Success? <==> Normalize(execResult.items[i], 0).Ok?)
  {
    hide Normalize, Flatten, EncodeResult;
    if !execResult.List? {
      return Threw(execResult);
    }
    var results: seq<Slot> := [];
    for i := 0 to |execResult.items|
      invariant |results| == i
      invariant forall k :: 0 <= k < i ==>
                  results[k] == if k < |commands| then Answer(commands[k], ExecOutcome(execResult.items[k]), base64)
                                else Unpaired(ExecOutcome(execResult.items[k]), base64)
    {
      var raw := execResult.items[i];
      if raw.Failure? {
        results := results + [Error(RedisError(raw.message))];
      } else {
        var normalized := NormalizeResp3(raw, 0);
        if normalized.Threw? {
          results := results + [Error(ReplyTooDeep)];
        } else {
          var result := normalized.value;
          if i < |commands| {
            result := Flatten(commands[i].name, commands[i].args, result);
          }
          if base64 {
            result := EncodeResult(result, 0);
          }
          results := results + [Success(result)];
        }
      }
    }
    return Ok(results);
  }

  /** Every entry of the body is a command that may be sent. */
  predicate AllSendable(body: seq<BodyEntry>, gate: Gate) {
    forall i :: 0 <= i < |body| ==> CommandOf(body[i], gate).Some?
  }

  lemma {:induction false} AllAreSent(body: seq<BodyEntry>, gate: Gate)
    requires AllSendable(body, gate)
    ensures |SentBy(body, gate)| == |body|
    ensures forall i :: 0 <= i < |body| ==> Some(SentBy(body, gate)[i]) == CommandOf(body[i], gate)
  {
    if body != [] {
      AllAreSent(body[..|body| - 1], gate);
    }
  }

  /** Route agreement: on a body of sendable commands and the same replies, none of them too deep, a pipeline
      and a transaction give the same slots, and each is what `POST /` gives for its command. */
  lemma RoutesAgree(body: seq<BodyEntry>, gate: Gate, replies: seq<Reply>, base64: bool, i: nat)
    requires AllSendable(body, gate) && |replies| == |SentBy(body, gate)| && i < |body|
    ensures |replies| == |body|
    ensures var outcomes := seq(|replies|, k requires 0 <= k < |replies| => ExecOutcome(replies[k]));
            && SlotFor(body, gate, outcomes, base64, i)
               == Answer(SentBy(body, gate)[i], ExecOutcome(replies[i]), base64)
               == SingleCommand(body[i].raw, gate, ExecOutcome(replies[i]), base64)
  {
    hide Answer;
    AllAreSent(body, gate);
    AllAreSent(body[..i], gate);
  }
}
