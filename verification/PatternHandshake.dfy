/** The setup of a pattern subscription against a server that answers: each exchange ends as its reply decides, and
    a server that agrees to all of them takes the setup to a live subscription. */
module PatternHandshake {
  import opened Wrappers
  import opened Bytes
  import opened Resp
  import opened RespStream
  import opened RespWire
  import opened PatternProtocol
  import opened PatternStream
  import S = PatternSetup

  type Coerce = Value -> Num

  /** The state after the events, if each was enabled in its turn. */
  function Steps(number: NumberOf, coerce: Coerce, t: S.Target, w: S.World, events: seq<S.Event>): Option<S.World> {
    if events == [] then Some(w) else
      match Steps(number, coerce, t, w, events[..|events| - 1])
      case None => None
      case Some(v) =>
        var last := events[|events| - 1];
        if S.Enabled(v, last) then Some(S.Step(number, coerce, t, v, last)) else None
  }

  lemma {:induction false} StepsAppend(number: NumberOf, coerce: Coerce, t: S.Target, w: S.World, v: S.World,
                                       a: seq<S.Event>, b: seq<S.Event>)
    requires Steps(number, coerce, t, w, a) == Some(v)
    ensures Steps(number, coerce, t, w, a + b) == Steps(number, coerce, t, v, b)
  {
    hide S.Step, S.Enabled;
    if b == [] {
      assert a + b == a;
    } else {
      StepsAppend(number, coerce, t, w, v, a, b[..|b| - 1]);
      assert (a + b)[..|a + b| - 1] == a + b[..|b| - 1];
    }
  }

  lemma OneStep(number: NumberOf, coerce: Coerce, t: S.Target, w: S.World, e: S.Event)
    requires S.Enabled(w, e)
    ensures Steps(number, coerce, t, w, [e]) == Some(S.Step(number, coerce, t, w, e))
  {
    hide S.Step, S.Enabled;
    assert [e][..0] == [];
    assert Steps(number, coerce, t, w, []) == Some(w);
  }

  function Arrivals(chunks: seq<Bytes>): (events: seq<S.Event>)
    ensures |events| == |chunks|
  {
    seq(|chunks|, i requires 0 <= i < |chunks| => S.Callback(Data(chunks[i])))
  }

  lemma {:induction false} ArrivalsAreHandled(number: NumberOf, coerce: Coerce, t: S.Target, w: S.World,
                                              chunks: seq<Bytes>)
    ensures Steps(number, coerce, t, w, Arrivals(chunks)) == Some(w.(conn := OnChunks(number, w.conn, chunks)))
  {
    hide OnData;
    if chunks != [] {
      var n := |chunks| - 1;
      ArrivalsAreHandled(number, coerce, t, w, chunks[..n]);
      assert Arrivals(chunks)[..n] == Arrivals(chunks[..n]);
    }
  }

  lemma {:induction false} ChunksKeepDiscipline(number: NumberOf, c: Conn, chunks: seq<Bytes>)
    requires Disciplined(c)
    ensures Disciplined(OnChunks(number, c, chunks))
  {
    hide OnData, Disciplined;
    if chunks != [] {
      var n := |chunks| - 1;
      ChunksKeepDiscipline(number, c, chunks[..n]);
      StepKeepsDiscipline(number, OnChunks(number, c, chunks[..n]), Data(chunks[n]));
    }
  }

  /** A reply of the server, and how it is cut on its way. */
  datatype Answer = Answer(reply: Frame, chunks: seq<Bytes>)

  ghost predicate Arrives(a: Answer) {
    Fits(a.reply, 0) && Concat(a.chunks) == Serialize(a.reply)
  }

  ghost predicate Idle(c: Conn) {
    c.socket.Some? && !c.closed && c.pending == [] && c.buffer == [] && Disciplined(c)
  }

  function Exchanging(a: Answer): seq<S.Event> {
    [S.SendNext(true)] + (Arrivals(a.chunks) + [S.ReplyResumes])
  }

  /** One exchange: whatever the server answers, the setup goes where that answer leads. */
  lemma ExchangeCompletes(number: NumberOf, coerce: Coerce, t: S.Target, w: S.World, a: Answer)
    requires ReadsDecimals(number) && w.stage.Ready? && Idle(w.conn) && Arrives(a)
    ensures var d := OnChunks(number, Send(w.conn, true), a.chunks);
            && Idle(d) && d.socket == w.conn.socket && d.delivered == w.conn.delivered
            && Steps(number, coerce, t, w, Exchanging(a))
               == Some(w.(conn := d,
                          stage := S.AfterReply(t, coerce, w.stage.next, OutcomeOf(Meaning(number, a.reply)))))
  {
    hide OnChunks, Serialize, Meaning, ReadsDecimals, Steps, S.AfterReply, Disciplined, Send;
    var c := w.conn;
    var d := OnChunks(number, Send(c, true), a.chunks);
    ReplySettlesItsCommand(number, c, a.reply, a.chunks);
    SendKeepsDiscipline(c, true);
    ChunksKeepDiscipline(number, Send(c, true), a.chunks);
    NewCommandIsUnsettled(c);
    S.OutcomeOfNew(c.settled, Settlement(c.sent, OutcomeOf(Meaning(number, a.reply))));
    var w1 := w.(conn := Send(c, true), stage := S.Awaiting(w.stage.next, c.sent));
    OneStep(number, coerce, t, w, S.SendNext(true));
    StepsAppend(number, coerce, t, w, w1, [S.SendNext(true)], Arrivals(a.chunks) + [S.ReplyResumes]);
    ArrivalsAreHandled(number, coerce, t, w1, a.chunks);
    StepsAppend(number, coerce, t, w1, w1.(conn := d), Arrivals(a.chunks), [S.ReplyResumes]);
    OneStep(number, coerce, t, w1.(conn := d), S.ReplyResumes);
  }

  /** A stream of frames cut in two at a point where the first frame is complete. */
  ghost predicate ArrivesBefore(reply: Frame, fs: seq<Frame>, early: seq<Bytes>, late: seq<Bytes>) {
    && Fits(reply, 0) && AllFit(fs, 0)
    && Concat(early) + Concat(late) == Serialize(reply) + SerializeAll(fs)
    && |Serialize(reply)| <= |Concat(early)|
  }

  /** The events of an exchange after which the server goes on sending: the handler resumes at any time after the
      reply is complete, whatever has arrived with it. */
  function ExchangingOn(early: seq<Bytes>, late: seq<Bytes>): seq<S.Event> {
    [S.SendNext(true)] + (Arrivals(early) + ([S.ReplyResumes] + Arrivals(late)))
  }

  /** What has arrived when the handler resumes: the reply, and some of what follows. */
  lemma EarlyBytes(number: NumberOf, reply: Frame, fs: seq<Frame>, early: seq<Bytes>, late: seq<Bytes>)
    requires ReadsDecimals(number) && ArrivesBefore(reply, fs, early, late)
    ensures DrainResp(number, Serialize(reply) + SerializeAll(fs)).broken.None?
    ensures var rest := Concat(early)[|Serialize(reply)|..];
            && Concat(early) == Serialize(reply) + rest
            && DrainResp(number, Serialize(reply) + rest).broken.None?
  {
    hide Parse, Serialize, ReadsDecimals, DrainResp, Concat;
    var bytes, all := Serialize(reply), Concat(early) + Concat(late);
    assert ([reply] + fs)[1..] == fs;
    assert SerializeAll([reply] + fs) == bytes + SerializeAll(fs);
    FramesDrain(number, [reply] + fs);
    ShorterIsSound(number, Concat(early), Concat(late));
    assert Concat(early)[..|bytes|] == all[..|bytes|] == bytes;
  }

  /** One exchange with a server that goes on sending. */
  lemma ExchangeWithTraffic(number: NumberOf, coerce: Coerce, t: S.Target, w: S.World, reply: Frame, fs: seq<Frame>,
                            early: seq<Bytes>, late: seq<Bytes>)
    requires ReadsDecimals(number) && w.stage.Ready? && Idle(w.conn) && ArrivesBefore(reply, fs, early, late)
    ensures var d, vs := OnChunks(number, Send(w.conn, true), early + late), MeaningAll(number, fs);
            && d.pending == [] && d.delivered == w.conn.delivered + MessagesIn(vs)
            && (d.closed <==> HoldsFailure(vs)) && (!d.closed ==> d.socket == w.conn.socket)
            && Steps(number, coerce, t, w, ExchangingOn(early, late))
               == Some(w.(conn := d,
                          stage := S.AfterReply(t, coerce, w.stage.next, OutcomeOf(Meaning(number, reply)))))
  {
    hide OnChunks, Serialize, SerializeAll, Meaning, MeaningAll, ReadsDecimals, Steps, S.AfterReply, Disciplined, Send,
         DrainResp, Concat, MessagesIn;
    var c := w.conn;
    EarlyBytes(number, reply, fs, early, late);
    IdleSends(c);
    ReplyThenTraffic(number, c, reply, Concat(early)[|Serialize(reply)|..], early);
    ConcatAppends(early, late);
    ReplyThenTraffic(number, c, reply, SerializeAll(fs), early + late);
    FramesDrain(number, fs);
    OnChunksAppends(number, Send(c, true), early, late);
    ResumingIsOneStep(number, coerce, t, w, OutcomeOf(Meaning(number, reply)), early, late);
  }

  lemma IdleSends(c: Conn)
    requires Idle(c)
    ensures c.socket.Some? && !c.closed && c.pending == [] && c.buffer == []
  {
  }

  lemma ResumingIsOneStep(number: NumberOf, coerce: Coerce, t: S.Target, w: S.World, outcome: Outcome,
                          early: seq<Bytes>, late: seq<Bytes>)
    requires w.stage.Ready? && Disciplined(w.conn)
    requires OnChunks(number, Send(w.conn, true), early).settled
          == w.conn.settled + [Settlement(w.conn.sent, outcome)]
    ensures Steps(number, coerce, t, w, ExchangingOn(early, late))
         == Some(w.(conn := OnChunks(number, OnChunks(number, Send(w.conn, true), early), late),
                    stage := S.AfterReply(t, coerce, w.stage.next, outcome)))
  {
    hide OnChunks, Steps, S.AfterReply, Disciplined, Send;
    var c := w.conn;
    var d := OnChunks(number, Send(c, true), early);
    NewCommandIsUnsettled(c);
    S.OutcomeOfNew(c.settled, Settlement(c.sent, outcome));
    var w1 := w.(conn := Send(c, true), stage := S.Awaiting(w.stage.next, c.sent));
    var w2 := w1.(conn := d);
    var w3 := w2.(stage := S.AfterReply(t, coerce, w.stage.next, outcome));
    OneStep(number, coerce, t, w, S.SendNext(true));
    StepsAppend(number, coerce, t, w, w1, [S.SendNext(true)], Arrivals(early) + ([S.ReplyResumes] + Arrivals(late)));
    ArrivalsAreHandled(number, coerce, t, w1, early);
    StepsAppend(number, coerce, t, w1, w2, Arrivals(early), [S.ReplyResumes] + Arrivals(late));
    OneStep(number, coerce, t, w2, S.ReplyResumes);
    StepsAppend(number, coerce, t, w2, w3, [S.ReplyResumes], Arrivals(late));
    ArrivalsAreHandled(number, coerce, t, w3, late);
  }

  lemma NewCommandIsUnsettled(c: Conn)
    requires Disciplined(c)
    ensures c.sent !in Settled(c.settled)
  {
    assert multiset(Settled(c.settled))[c.sent] == 0;
  }

  // ---- The whole handshake ----

  /** What is exchanged from `next` on. */
  function Exchanges(t: S.Target, next: S.Exchange): seq<S.Exchange> {
    match next
    case Auth => [S.Auth] + if t.db > 0 then [S.Select, S.Psubscribe] else [S.Psubscribe]
    case Select => [S.Select, S.Psubscribe]
    case Psubscribe => [S.Psubscribe]
  }

  function Conversation(answers: seq<Answer>): seq<S.Event> {
    if answers == [] then [] else Exchanging(answers[0]) + Conversation(answers[1..])
  }

  /** An answer that does not agree sends the setup to its catch, whichever exchange it belongs to; one that agrees
      takes it to the next exchange, or live after the last. */
  lemma AnswersDecide(number: NumberOf, coerce: Coerce, t: S.Target, exchange: S.Exchange, v: Value)
    ensures S.AfterReply(t, coerce, exchange, OutcomeOf(v)).Failing? <==> !S.Agrees(coerce, exchange, v)
    ensures S.Agrees(coerce, exchange, v) ==>
              S.AfterReply(t, coerce, exchange, OutcomeOf(v))
                == if exchange.Psubscribe? then S.Live(coerce(v.items[2]).value)
                   else S.Ready(Exchanges(t, exchange)[1])
  {
  }

  /** If the server agrees to every exchange before PSUBSCRIBE, the setup comes to PSUBSCRIBE, on the same transport,
      with no command outstanding. */
  lemma {:induction false} AgreeingServersLeadToPsubscribe(number: NumberOf, coerce: Coerce, t: S.Target, w: S.World,
                                                           answers: seq<Answer>)
    requires ReadsDecimals(number) && w.stage.Ready? && Idle(w.conn)
    requires w.stage.next.Select? ==> t.db > 0
    requires AgreesUpTo(number, coerce, Exchanges(t, w.stage.next), answers)
    ensures var v := Steps(number, coerce, t, w, Conversation(answers));
            v.Some? && v.value.stage == S.Ready(S.Psubscribe) && Idle(v.value.conn)
            && v.value.conn.socket == w.conn.socket && v.value.conn.delivered == w.conn.delivered
    decreases |answers|
  {
    hide OnChunks, Serialize, Meaning, ReadsDecimals, Steps, Idle, Arrives, Exchanging;
    if w.stage.next.Psubscribe? {
      assert answers == [];
      NoSteps(number, coerce, t, w);
    } else {
      var first, rest := answers[0], answers[1..];
      ExchangeCompletes(number, coerce, t, w, first);
      AnswersDecide(number, coerce, t, w.stage.next, Meaning(number, first.reply));
      var v := Steps(number, coerce, t, w, Exchanging(first)).value;
      StepsAppend(number, coerce, t, w, v, Exchanging(first), Conversation(rest));
      assert Exchanges(t, v.stage.next) == Exchanges(t, w.stage.next)[1..];
      AgreeingServersLeadToPsubscribe(number, coerce, t, v, rest);
    }
  }

  /** One answer for each of the exchanges but the last, and each agrees. */
  ghost predicate AgreesUpTo(number: NumberOf, coerce: Coerce, exchanges: seq<S.Exchange>, answers: seq<Answer>) {
    && |answers| == |exchanges| - 1
    && forall i :: 0 <= i < |answers| ==>
         Arrives(answers[i]) && S.Agrees(coerce, exchanges[i], Meaning(number, answers[i].reply))
  }

  /** If it agrees to PSUBSCRIBE as well, the setup goes live, with the count the confirmation gives. */
  lemma AgreeingServersMakeItLive(number: NumberOf, coerce: Coerce, t: S.Target, w: S.World, answers: seq<Answer>,
                                  confirmation: Answer)
    requires ReadsDecimals(number) && w.stage.Ready? && Idle(w.conn)
    requires w.stage.next.Select? ==> t.db > 0
    requires AgreesUpTo(number, coerce, Exchanges(t, w.stage.next), answers)
    requires Arrives(confirmation) && S.Agrees(coerce, S.Psubscribe, Meaning(number, confirmation.reply))
    ensures var v := Steps(number, coerce, t, w, Conversation(answers) + Exchanging(confirmation));
            && v.Some? && Idle(v.value.conn)
            && v.value.stage == S.Live(coerce(Meaning(number, confirmation.reply).items[2]).value)
            && v.value.conn.socket == w.conn.socket && v.value.conn.delivered == w.conn.delivered
  {
    hide OnChunks, Serialize, Meaning, ReadsDecimals, Steps, Idle, Arrives, Exchanging, Conversation, AgreesUpTo;
    AgreeingServersLeadToPsubscribe(number, coerce, t, w, answers);
    var v := Steps(number, coerce, t, w, Conversation(answers)).value;
    StepsAppend(number, coerce, t, w, v, Conversation(answers), Exchanging(confirmation));
    ExchangeCompletes(number, coerce, t, v, confirmation);
    AnswersDecide(number, coerce, t, S.Psubscribe, Meaning(number, confirmation.reply));
  }

  lemma NoSteps(number: NumberOf, coerce: Coerce, t: S.Target, w: S.World)
    ensures Steps(number, coerce, t, w, []) == Some(w)
  {
  }

  lemma ConnectingMakesReady(number: NumberOf, coerce: Coerce, t: S.Target, s: nat)
    ensures var w := S.BEGIN.(conn := FRESH.(socket := Some(s)), stage := S.Ready(S.AfterConnect(t)), race := S.Won(s),
                              connectSettled := true, obtained := {s});
            Steps(number, coerce, t, S.BEGIN, [S.SocketArrives(s), S.RaceResumes]) == Some(w) && Idle(w.conn)
  {
    hide Steps;
    var w1 := S.BEGIN.(race := S.Won(s), connectSettled := true, obtained := {s});
    assert S.BEGIN.obtained + {s} == {s};
    OneStep(number, coerce, t, S.BEGIN, S.SocketArrives(s));
    StepsAppend(number, coerce, t, S.BEGIN, w1, [S.SocketArrives(s)], [S.RaceResumes]);
    assert [S.SocketArrives(s)] + [S.RaceResumes] == [S.SocketArrives(s), S.RaceResumes];
    OneStep(number, coerce, t, w1, S.RaceResumes);
    assert forall id: nat :: multiset(FRESH.pending)[id] == 0 && multiset(Settled(FRESH.settled))[id] == 0;
  }

  // ---- What the server is told ----

  /** The words of a command: AUTH with the user only if there is one other than the default. */
  function CommandFor(t: S.Target, pattern: Bytes, exchange: S.Exchange): seq<Bytes> {
    match exchange
    case Auth =>
      if t.username != [] && t.username != AsciiBytes("default") then [AsciiBytes("AUTH"), t.username, t.password]
      else [AsciiBytes("AUTH"), t.password]
    case Select => [AsciiBytes("SELECT"), Decimal(t.db)]
    case Psubscribe => [AsciiBytes("PSUBSCRIBE"), pattern]
  }

  function CommandsFor(t: S.Target, pattern: Bytes, exchanges: seq<S.Exchange>): (frames: seq<Frame>)
    ensures |frames| == |exchanges|
  {
    seq(|exchanges|, i requires 0 <= i < |exchanges| => Array(Bulks(CommandFor(t, pattern, exchanges[i]))))
  }

  function WordsFor(t: S.Target, pattern: Bytes, exchanges: seq<S.Exchange>): (words: seq<Value>)
    ensures |words| == |exchanges|
  {
    seq(|exchanges|, i requires 0 <= i < |exchanges| => Items(Texts(CommandFor(t, pattern, exchanges[i]))))
  }

  /** User and password as Redis takes them from the words of an AUTH: without a user it is the default one. */
  function Credentials(words: seq<Bytes>): (Bytes, Bytes)
    requires |words| >= 2
  {
    if |words| == 2 then (AsciiBytes("default"), words[1]) else (words[1], words[2])
  }

  /** Leaving the default user out of AUTH changes nothing for Redis. */
  lemma CredentialsAreKept(t: S.Target, pattern: Bytes)
    ensures Credentials(CommandFor(t, pattern, S.Auth))
         == (if t.username == [] then AsciiBytes("default") else t.username, t.password)
  {
  }

  ghost predicate WordsFit(t: S.Target, pattern: Bytes) {
    && |t.username| <= MAX_BULK_LENGTH && |t.password| <= MAX_BULK_LENGTH && |pattern| <= MAX_BULK_LENGTH
    && |Decimal(t.db)| <= MAX_BULK_LENGTH
  }

  lemma CommandFits(t: S.Target, pattern: Bytes, exchange: S.Exchange)
    requires WordsFit(t, pattern)
    ensures Fits(Array(Bulks(CommandFor(t, pattern, exchange))), 0)
  {
    var frame := Array(Bulks(CommandFor(t, pattern, exchange)));
    forall g | g in frame.items
      ensures Fits(g, 1)
    {
      var i :| 0 <= i < |frame.items| && frame.items[i] == g;
    }
  }

  /** A live setup has told the server its whole script and nothing else: a server that reads the bytes of the
      commands sent finds AUTH with the password if there is one, SELECT with the database if there is one, and
      PSUBSCRIBE with the pattern. */
  lemma ServersReadTheScript(number: NumberOf, coerce: Coerce, t: S.Target, worlds: seq<S.World>, events: seq<S.Event>,
                             i: nat, pattern: Bytes)
    requires ReadsDecimals(number) && WordsFit(t, pattern)
    requires S.IsRun(number, coerce, t, worlds, events) && i <= |events| && worlds[i].stage.Live?
    ensures var bytes := SerializeAll(CommandsFor(t, pattern, S.Sent(worlds, events, i)));
            DrainResp(number, bytes) == Drained(WordsFor(t, pattern, S.Expected(t)), |bytes|, None)
  {
    hide Parse, ReadsDecimals, SerializeAll, MeaningAll, S.Expected, CommandFor, WordsFit, DrainResp, S.Sent;
    S.SetupsFollowTheScript(number, coerce, t, worlds, events, i);
    var xs := S.Expected(t);
    var frames := CommandsFor(t, pattern, xs);
    forall f | f in frames
      ensures Fits(f, 0)
    {
      var k :| 0 <= k < |frames| && frames[k] == f;
      CommandFits(t, pattern, xs[k]);
    }
    FramesDrain(number, frames);
    forall k | 0 <= k < |xs|
      ensures MeaningAll(number, frames)[k] == WordsFor(t, pattern, xs)[k]
    {
      MeaningAllSplits(number, frames, k);
      MeaningOfBulks(number, CommandFor(t, pattern, xs[k]));
    }
    assert MeaningAll(number, frames) == WordsFor(t, pattern, xs);
  }

  // ---- From connecting to the last message ----

  /** From connecting to the last message, with a server that agrees to the handshake, confirms the subscription and
      announces what is published. Its bytes are cut at will, announcements may come in the same chunk as the
      confirmation, whole or in part, and the handler may resume at any time after the confirmation is complete. The
      setup is live, the connection open, and the subscriber's callback has been called with exactly the messages
      published, in order, and nothing else. */
  lemma SubscribersHearWhatIsPublished(number: NumberOf, coerce: Coerce, t: S.Target, s: nat, answers: seq<Answer>,
                                       confirmation: Frame, pattern: Bytes, ps: seq<Published>,
                                       early: seq<Bytes>, late: seq<Bytes>)
    requires ReadsDecimals(number)
    requires AgreesUpTo(number, coerce, S.Expected(t), answers)
    requires S.Agrees(coerce, S.Psubscribe, Meaning(number, confirmation))
    requires |pattern| <= MAX_BULK_LENGTH
    requires forall p :: p in ps ==> |p.channel| <= MAX_BULK_LENGTH && |p.payload| <= MAX_BULK_LENGTH
    requires ArrivesBefore(confirmation, Announcements(pattern, ps), early, late)
    ensures var events := [S.SocketArrives(s), S.RaceResumes] + (Conversation(answers) + ExchangingOn(early, late));
            var v := Steps(number, coerce, t, S.BEGIN, events);
            v.Some? && v.value.stage.Live? && !v.value.conn.closed && v.value.conn.socket == Some(s)
            && v.value.conn.delivered == Calls(pattern, ps)
  {
    hide OnChunks, Serialize, SerializeAll, Meaning, ReadsDecimals, Steps, Disciplined, Arrives, ArrivesBefore,
         Conversation, S.Agrees, ExchangingOn, MeaningAll, MessagesIn, HoldsFailure, AgreesUpTo;
    ConnectingMakesReady(number, coerce, t, s);
    assert Exchanges(t, S.AfterConnect(t)) == S.Expected(t);
    var opening := [S.SocketArrives(s), S.RaceResumes];
    var w := Steps(number, coerce, t, S.BEGIN, opening).value;
    AgreeingServersLeadToPsubscribe(number, coerce, t, w, answers);
    var v := Steps(number, coerce, t, w, Conversation(answers)).value;
    StepsAppend(number, coerce, t, S.BEGIN, w, opening, Conversation(answers) + ExchangingOn(early, late));
    StepsAppend(number, coerce, t, w, v, Conversation(answers), ExchangingOn(early, late));
    ExchangeWithTraffic(number, coerce, t, v, confirmation, Announcements(pattern, ps), early, late);
    AnswersDecide(number, coerce, t, S.Psubscribe, Meaning(number, confirmation));
    AnnouncementsAreRead(number, pattern, ps);
    assert [] + Calls(pattern, ps) == Calls(pattern, ps);
  }
}
