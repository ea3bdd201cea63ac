/** A live pattern subscription, from the bytes Redis sends to the calls of `onMessage`: the parser and the
    connection together, however TCP cuts the stream. */
module PatternStream {
  import opened Wrappers
  import opened Bytes
  import opened Resp
  import opened RespStream
  import opened RespWire
  import opened PatternProtocol

  /** `handleData` called with each chunk in turn. */
  function OnChunks(number: NumberOf, c: Conn, chunks: seq<Bytes>): Conn {
    if chunks == [] then c
    else OnData(number, OnChunks(number, c, chunks[..|chunks| - 1]), chunks[|chunks| - 1])
  }

  // ---- Cutting the stream elsewhere leaves the connection in the same state ----

  lemma {:induction false} OnValuesSplits(c: Conn, vs: seq<Value>, ws: seq<Value>)
    ensures OnValues(c, vs + ws) == OnValues(OnValues(c, vs), ws)
  {
    if ws == [] {
      assert vs + ws == vs;
    } else {
      OnValuesSplits(c, vs, ws[..|ws| - 1]);
      assert (vs + ws)[..|vs + ws| - 1] == vs + ws[..|ws| - 1];
    }
  }

  /** Handling values and the parser's buffer do not concern each other. */
  lemma {:induction false} OnValuesLeavesBuffer(c: Conn, vs: seq<Value>, buffer: Bytes)
    ensures OnValues(c.(buffer := buffer), vs) == OnValues(c, vs).(buffer := buffer)
    ensures OnValues(c, vs).buffer == c.buffer
  {
    if vs != [] {
      OnValuesLeavesBuffer(c, vs[..|vs| - 1], buffer);
    }
  }

  lemma OnDataSplits(number: NumberOf, c: Conn, a: Bytes, b: Bytes)
    requires DrainResp(number, c.buffer + (a + b)).broken.None?
    ensures OnData(number, OnData(number, c, a), b) == OnData(number, c, a + b)
  {
    hide Parse, OnValue, OnValues, Drain;
    RespReaderIsIncremental(number);
    var read := RespReader(number);
    Associates(c.buffer, a, b);
    if Drain(read, c.buffer + a).broken.Some? {
      BrokenStaysBroken(read, c.buffer + a, b);
    }
    DrainSplits(read, c.buffer + a, b);
    var d := Drain(read, c.buffer + a);
    var left := (c.buffer + a)[d.used..];
    var e := Drain(read, left + b);
    assert left + b == (c.buffer + (a + b))[d.used..];
    assert (left + b)[e.used..] == (c.buffer + (a + b))[d.used + e.used..];
    OnValuesSplits(c, d.values, e.values);
    OnValuesLeavesBuffer(c, d.values, left);
    OnValuesLeavesBuffer(OnValues(c, d.values), e.values, (left + b)[e.used..]);
    OnValuesLeavesBuffer(c, d.values + e.values, (left + b)[e.used..]);
  }

  /** In any state, commands outstanding or not: a well-formed stream has the same effect on the connection
      whether it comes in one chunk or in many. */
  lemma {:induction false} CuttingIsInvisible(number: NumberOf, c: Conn, chunks: seq<Bytes>)
    requires chunks != [] && DrainResp(number, c.buffer + Concat(chunks)).broken.None?
    ensures OnChunks(number, c, chunks) == OnData(number, c, Concat(chunks))
  {
    hide OnData, DrainResp;
    var n := |chunks| - 1;
    if n == 0 {
      assert chunks[..0] == [] && [] + chunks[0] == chunks[0];
    } else {
      var before := Concat(chunks[..n]);
      assert c.buffer + Concat(chunks) == (c.buffer + before) + chunks[n];
      ShorterIsSound(number, c.buffer + before, chunks[n]);
      CuttingIsInvisible(number, c, chunks[..n]);
      OnDataSplits(number, c, before, chunks[n]);
    }
  }

  lemma ShorterIsSound(number: NumberOf, a: Bytes, b: Bytes)
    requires DrainResp(number, a + b).broken.None?
    ensures DrainResp(number, a).broken.None?
  {
    RespReaderIsIncremental(number);
    if DrainResp(number, a).broken.Some? {
      BrokenStaysBroken(RespReader(number), a, b);
    }
  }

  lemma OneValue(c: Conn, v: Value)
    ensures OnValues(c, [v]) == OnValue(c, v)
  {
    assert [v][..0] == [];
    assert OnValues(c, []) == c;
  }

  /** A command on an idle connection is settled by the very reply the server sends to it, an error reply
      included, however the reply is cut; the connection is idle again and stays open. */
  lemma ReplySettlesItsCommand(number: NumberOf, c: Conn, reply: Frame, chunks: seq<Bytes>)
    requires ReadsDecimals(number) && Fits(reply, 0)
    requires c.socket.Some? && !c.closed && c.pending == [] && c.buffer == []
    requires Concat(chunks) == Serialize(reply)
    ensures var d := OnChunks(number, Send(c, true), chunks);
            && d.settled == c.settled + [Settlement(c.sent, OutcomeOf(Meaning(number, reply)))]
            && d.pending == [] && d.buffer == [] && d.socket == c.socket && !d.closed
            && d.delivered == c.delivered
  {
    hide Parse, OnChunks, Serialize, Meaning, ReadsDecimals;
    var v := Meaning(number, reply);
    var sent := Send(c, true);
    FramesDrain(number, [reply]);
    assert SerializeAll([reply]) == Serialize(reply) by {
      assert [reply][1..] == [] && Serialize(reply) + [] == Serialize(reply);
    }
    assert MeaningAll(number, [reply]) == [v] by {
      assert [reply][1..] == [] && [v] + [] == [v];
    }
    assert sent.buffer + Concat(chunks) == Serialize(reply);
    CuttingIsInvisible(number, sent, chunks);
    assert Serialize(reply)[|Serialize(reply)|..] == [];
    assert sent.buffer + Serialize(reply) == Serialize(reply);
    assert PushResp(number, sent.buffer, Serialize(reply)) == Pushed(Delivered([v]), []);
    assert sent.(buffer := []) == sent;
    OneValue(sent, v);
    assert OnData(number, sent, Serialize(reply)) == OnValue(sent, v);
    assert c.pending + [c.sent] == [c.sent];
  }

  // ---- A live subscription ----

  ghost predicate HoldsFailure(vs: seq<Value>) {
    exists v :: v in vs && v.Failure?
  }

  /** `d` is `c` after the values `vs` arrived with no command waiting. `handleData` does not look at
      `closed`, so the messages behind an error are delivered as well. */
  ghost predicate Took(c: Conn, vs: seq<Value>, d: Conn) {
    && d.pending == [] && d.sent == c.sent && d.settled == c.settled
    && d.received == c.received + vs
    && d.delivered == c.delivered + MessagesIn(vs)
    && (d.closed <==> c.closed || HoldsFailure(vs))
    && (!HoldsFailure(vs) ==> d.socket == c.socket)
  }

  lemma {:induction false} MessagesInAppends(a: seq<Value>, b: seq<Value>)
    ensures MessagesIn(a + b) == MessagesIn(a) + MessagesIn(b)
  {
    hide MessageIn;
    if b == [] {
      assert a + b == a && MessagesIn(a) + [] == MessagesIn(a);
    } else {
      var before, last := b[..|b| - 1], match MessageIn(b[|b| - 1]) case Some(m) => [m] case None => [];
      MessagesInAppends(a, before);
      assert (a + b)[..|a + b| - 1] == a + before && (a + b)[|a + b| - 1] == b[|b| - 1];
      Associates(MessagesIn(a), MessagesIn(before), last);
    }
  }

  lemma DeliveriesAdd(c: Conn, vs: seq<Value>, d: Conn, ws: seq<Value>, e: Conn)
    requires d.received == c.received + vs && d.delivered == c.delivered + MessagesIn(vs)
    requires Took(d, ws, e)
    ensures e.received == c.received + (vs + ws)
    ensures e.delivered == c.delivered + MessagesIn(vs + ws)
    ensures HoldsFailure(vs + ws) <==> HoldsFailure(vs) || HoldsFailure(ws)
  {
    hide MessagesIn;
    MessagesInAppends(vs, ws);
    Associates(c.received, vs, ws);
    Associates(c.delivered, MessagesIn(vs), MessagesIn(ws));
    FailuresJoin(vs, ws);
  }

  lemma Associates<T>(a: seq<T>, b: seq<T>, c: seq<T>)
    ensures a + (b + c) == (a + b) + c
  {
  }

  lemma FailuresJoin(vs: seq<Value>, ws: seq<Value>)
    ensures HoldsFailure(vs + ws) <==> HoldsFailure(vs) || HoldsFailure(ws)
  {
    assert forall v :: v in vs + ws <==> v in vs || v in ws;
  }

  lemma {:induction false} ValuesAreTaken(c: Conn, vs: seq<Value>)
    requires c.pending == []
    ensures Took(c, vs, OnValues(c, vs)) && OnValues(c, vs).buffer == c.buffer
  {
    hide OnValue, MessagesIn, HoldsFailure;
    if vs == [] {
      NothingIsTaken(c);
    } else {
      var before, last := vs[..|vs| - 1], vs[|vs| - 1];
      ValuesAreTaken(c, before);
      ValueIsTaken(OnValues(c, before), last);
      DeliveriesAdd(c, before, OnValues(c, before), [last], OnValues(c, vs));
      assert before + [last] == vs;
    }
  }

  lemma NothingIsTaken(c: Conn)
    requires c.pending == []
    ensures Took(c, [], c)
  {
    assert c.received + [] == c.received && c.delivered + [] == c.delivered;
  }

  lemma ValueIsTaken(c: Conn, v: Value)
    requires c.pending == []
    ensures Took(c, [v], OnValue(c, v)) && OnValue(c, v).buffer == c.buffer
  {
    assert [v][..0] == [];
    assert v in [v];
    assert c.settled + [] == c.settled;
  }

  /** `d` is `c` after pushes that ended as `results` say, with no command waiting. */
  ghost predicate TookRun(c: Conn, results: seq<PushResult<Value>>, d: Conn) {
    && d.pending == []
    && d.received == c.received + DeliveredBy(results)
    && d.delivered == c.delivered + MessagesIn(DeliveredBy(results))
    && (d.closed <==> c.closed || HoldsFailure(DeliveredBy(results)) || exists r :: r in results && r.Rejected?)
  }

  lemma ChunkIsTaken(number: NumberOf, c: Conn, results: seq<PushResult<Value>>, d: Conn, chunk: Bytes)
    requires TookRun(c, results, d)
    ensures var p := PushResp(number, d.buffer, chunk);
            && TookRun(c, results + [p.result], OnData(number, d, chunk))
            && OnData(number, d, chunk).buffer == p.buffer
  {
    hide PushResp, OnValues;
    var p := PushResp(number, d.buffer, chunk);
    DeliveredByExtends(results, p.result);
    assert p.result in results + [p.result];
    match p.result {
      case Delivered(vs) =>
        ValuesAreTaken(d.(buffer := p.buffer), vs);
        DeliveriesAdd(c, DeliveredBy(results), d, vs, OnValues(d.(buffer := p.buffer), vs));
      case Rejected(_) => assert DeliveredBy(results) + [] == DeliveredBy(results);
    }
  }

  lemma NoRunIsTaken(c: Conn)
    requires c.pending == []
    ensures TookRun(c, [], c)
  {
    assert c.received + [] == c.received && c.delivered + [] == c.delivered;
  }

  /** Every byte stream: the connection hands on exactly the messages the parser delivers, and it is closed
      exactly when a push threw or the server sent an error. */
  lemma {:induction false} ChunksAreTaken(number: NumberOf, c: Conn, chunks: seq<Bytes>)
    requires c.pending == [] && c.buffer == []
    ensures TookRun(c, FeedResp(number, chunks).results, OnChunks(number, c, chunks))
    ensures OnChunks(number, c, chunks).buffer == FeedResp(number, chunks).buffer
  {
    hide OnData, FeedResp, PushResp, TookRun;
    FeedRespGrows(number, chunks);
    if chunks == [] {
      NoRunIsTaken(c);
    } else {
      var n := |chunks| - 1;
      ChunksAreTaken(number, c, chunks[..n]);
      var d, run := OnChunks(number, c, chunks[..n]), FeedResp(number, chunks[..n]);
      ChunkIsTaken(number, c, run.results, d, chunks[n]);
    }
  }

  /** A server's frames, errors among them: the messages are handed on whole and in order, and only an error
      closes the connection. */
  lemma FramesAreHandedOn(number: NumberOf, c: Conn, fs: seq<Frame>, chunks: seq<Bytes>)
    requires ReadsDecimals(number) && AllFit(fs, 0) && c.pending == [] && c.buffer == []
    requires Concat(chunks) == SerializeAll(fs)
    ensures var d := OnChunks(number, c, chunks);
            && d.delivered == c.delivered + MessagesIn(MeaningAll(number, fs))
            && (d.closed <==> c.closed || HoldsFailure(MeaningAll(number, fs)))
  {
    hide Parse, OnData, ReadsDecimals, AllFit;
    RespReaderIsIncremental(number);
    FramesSurviveAnyCutting(number, fs, chunks);
    ChunksAreTaken(number, c, chunks);
    var results := FeedResp(number, chunks).results;
    assert forall r :: r in results ==> r.Delivered?;
  }

  /** How Redis announces a published message to a pattern subscriber. */
  function Announcement(pattern: Bytes, channel: Bytes, payload: Bytes): Frame {
    Array([BulkString(PMESSAGE), BulkString(pattern), BulkString(channel), BulkString(payload)])
  }

  /** The payload of a pmessage, whatever frame it is: text as it is, a null as the empty text, anything else as
      JavaScript's String has it. */
  lemma PayloadsAreRead(number: NumberOf, pattern: Bytes, channel: Bytes, payload: Frame)
    ensures var frame := Array([BulkString(AsciiBytes("pmessage")), BulkString(pattern), BulkString(channel), payload]);
            var v := Meaning(number, payload);
            MessageIn(Meaning(number, frame))
              == Some(PMessage(pattern, channel,
                               if v.Text? then Plain(v.bytes) else if v.Nil? then Plain([]) else Coerced(v)))
  {
    hide MeaningAll, AsciiBytes;
    FourMeanings(number, BulkString(AsciiBytes("pmessage")), BulkString(pattern), BulkString(channel), payload);
  }

  lemma FourMeanings(number: NumberOf, a: Frame, b: Frame, c: Frame, d: Frame)
    ensures MeaningAll(number, [a, b, c, d])
         == [Meaning(number, a), Meaning(number, b), Meaning(number, c), Meaning(number, d)]
  {
    hide Meaning;
    var fs := [a, b, c, d];
    MeaningAllSplits(number, fs, 0);
    MeaningAllSplits(number, fs, 1);
    MeaningAllSplits(number, fs, 2);
    MeaningAllSplits(number, fs, 3);
  }

  lemma AnnouncementFits(pattern: Bytes, channel: Bytes, payload: Bytes)
    requires |pattern| <= MAX_BULK_LENGTH && |channel| <= MAX_BULK_LENGTH && |payload| <= MAX_BULK_LENGTH
    ensures Fits(Announcement(pattern, channel, payload), 0)
  {
    assert forall g :: g in Announcement(pattern, channel, payload).items ==> Fits(g, 1);
  }

  datatype Published = Published(channel: Bytes, payload: Bytes)

  function Announcements(pattern: Bytes, ps: seq<Published>): (fs: seq<Frame>)
    ensures |fs| == |ps|
  {
    seq(|ps|, i requires 0 <= i < |ps| => Announcement(pattern, ps[i].channel, ps[i].payload))
  }

  function Calls(pattern: Bytes, ps: seq<Published>): (ms: seq<PMessage>)
    ensures |ms| == |ps|
  {
    seq(|ps|, i requires 0 <= i < |ps| => PMessage(pattern, ps[i].channel, Plain(ps[i].payload)))
  }

  lemma AnnouncementIsRead(number: NumberOf, pattern: Bytes, channel: Bytes, payload: Bytes)
    ensures MessageIn(Meaning(number, Announcement(pattern, channel, payload)))
         == Some(PMessage(pattern, channel, Plain(payload)))
    ensures !Meaning(number, Announcement(pattern, channel, payload)).Failure?
  {
    var parts := [PMESSAGE, pattern, channel, payload];
    assert Announcement(pattern, channel, payload) == Array(Bulks(parts));
    MeaningOfBulks(number, parts);
  }

  lemma {:induction false} MeaningAllAppends(number: NumberOf, fs: seq<Frame>, last: Frame)
    ensures MeaningAll(number, fs + [last]) == MeaningAll(number, fs) + [Meaning(number, last)]
  {
    if fs == [] {
      assert [] + [last] == [last] && [last][1..] == [];
    } else {
      MeaningAllAppends(number, fs[1..], last);
      assert (fs + [last])[1..] == fs[1..] + [last];
    }
  }

  lemma NothingIsRead(number: NumberOf)
    ensures MeaningAll(number, []) == [] && MessagesIn([]) == [] && !HoldsFailure([])
  {
  }

  lemma OneMessage(v: Value, m: PMessage)
    requires MessageIn(v) == Some(m) && !v.Failure?
    ensures MessagesIn([v]) == [m] && !HoldsFailure([v])
  {
    hide MessageIn;
    assert [v][..0] == [] && MessagesIn([]) == [];
  }

  lemma {:induction false} AnnouncementsAreRead(number: NumberOf, pattern: Bytes, ps: seq<Published>)
    ensures MessagesIn(MeaningAll(number, Announcements(pattern, ps))) == Calls(pattern, ps)
    ensures !HoldsFailure(MeaningAll(number, Announcements(pattern, ps)))
  {
    hide Announcement, MessageIn, Meaning, MeaningAll, MessagesIn, HoldsFailure;
    if ps == [] {
      NothingIsRead(number);
    } else {
      var before, last := ps[..|ps| - 1], ps[|ps| - 1];
      AnnouncementsAreRead(number, pattern, before);
      AnnouncementIsRead(number, pattern, last.channel, last.payload);
      var frame, call := Announcement(pattern, last.channel, last.payload),
                         PMessage(pattern, last.channel, Plain(last.payload));
      assert Announcements(pattern, ps) == Announcements(pattern, before) + [frame];
      assert Calls(pattern, ps) == Calls(pattern, before) + [call];
      MeaningAllAppends(number, Announcements(pattern, before), frame);
      MessagesInAppends(MeaningAll(number, Announcements(pattern, before)), [Meaning(number, frame)]);
      OneMessage(Meaning(number, frame), call);
      FailuresJoin(MeaningAll(number, Announcements(pattern, before)), [Meaning(number, frame)]);
    }
  }

  /** Whatever is published to a live pattern subscription, and however the stream is cut, `onMessage` is called
      once for each message, in order, with its own channel and payload, and the connection stays open. */
  lemma PublishedMessagesReachTheSubscriber(number: NumberOf, c: Conn, pattern: Bytes, ps: seq<Published>,
                                            chunks: seq<Bytes>)
    requires ReadsDecimals(number) && c.pending == [] && c.buffer == []
    requires |pattern| <= MAX_BULK_LENGTH
    requires forall p :: p in ps ==> |p.channel| <= MAX_BULK_LENGTH && |p.payload| <= MAX_BULK_LENGTH
    requires Concat(chunks) == SerializeAll(Announcements(pattern, ps))
    ensures OnChunks(number, c, chunks).delivered == c.delivered + Calls(pattern, ps)
    ensures OnChunks(number, c, chunks).closed == c.closed
  {
    hide MessagesIn, MeaningAll, OnChunks, ReadsDecimals, SerializeAll, HoldsFailure;
    forall f | f in Announcements(pattern, ps)
      ensures Fits(f, 0)
    {
      var i :| 0 <= i < |ps| && f == Announcement(pattern, ps[i].channel, ps[i].payload);
      assert ps[i] in ps;
      AnnouncementFits(pattern, ps[i].channel, ps[i].payload);
    }
    FramesAreHandedOn(number, c, Announcements(pattern, ps), chunks);
    AnnouncementsAreRead(number, pattern, ps);
  }

  // ---- Traffic behind a reply ----

  lemma {:induction false} ConcatAppends(a: seq<Bytes>, b: seq<Bytes>)
    ensures Concat(a + b) == Concat(a) + Concat(b)
  {
    if b == [] {
      assert a + b == a && Concat(a) + [] == Concat(a);
    } else {
      var before, last := b[..|b| - 1], b[|b| - 1];
      ConcatAppends(a, before);
      assert (a + b)[..|a + b| - 1] == a + before && (a + b)[|a + b| - 1] == last;
      Associates(Concat(a), Concat(before), last);
    }
  }

  lemma {:induction false} OnChunksAppends(number: NumberOf, c: Conn, a: seq<Bytes>, b: seq<Bytes>)
    ensures OnChunks(number, c, a + b) == OnChunks(number, OnChunks(number, c, a), b)
  {
    hide OnData;
    if b == [] {
      assert a + b == a;
    } else {
      OnChunksAppends(number, c, a, b[..|b| - 1]);
      assert (a + b)[..|a + b| - 1] == a + b[..|b| - 1] && (a + b)[|a + b| - 1] == b[|b| - 1];
    }
  }

  lemma OneChunk(number: NumberOf, c: Conn, chunk: Bytes)
    ensures OnChunks(number, c, [chunk]) == OnData(number, c, chunk) && Concat([chunk]) == chunk
  {
    hide OnData;
    assert [chunk][..0] == [] && Concat([]) == [] && [] + chunk == chunk;
    assert OnChunks(number, c, []) == c;
  }

  lemma FirstFrameSplitsOff(number: NumberOf, first: Frame, rest: Bytes)
    requires ReadsDecimals(number) && Fits(first, 0)
    requires DrainResp(number, Serialize(first) + rest).broken.None?
    ensures DrainResp(number, rest).broken.None?
  {
    hide Parse, Serialize, Meaning, ReadsDecimals, Drain;
    RespReaderIsIncremental(number);
    FramesDrain(number, [first]);
    assert SerializeAll([first]) == Serialize(first) by {
      assert [first][1..] == [] && Serialize(first) + [] == Serialize(first);
    }
    DrainSplits(RespReader(number), Serialize(first), rest);
    assert Serialize(first)[|Serialize(first)|..] + rest == rest;
  }

  lemma SoundDataIsTaken(number: NumberOf, c: Conn, data: Bytes)
    requires c.pending == [] && c.buffer == [] && DrainResp(number, data).broken.None?
    ensures Took(c, DrainResp(number, data).values, OnData(number, c, data))
  {
    hide Drain, OnValues, Took;
    assert [] + data == data;
    var p := PushResp(number, c.buffer, data);
    ValuesAreTaken(c.(buffer := p.buffer), p.result.values);
    TookIgnoresBuffer(c, p.buffer, p.result.values, OnValues(c.(buffer := p.buffer), p.result.values));
  }

  lemma TookIgnoresBuffer(c: Conn, buffer: Bytes, vs: seq<Value>, d: Conn)
    requires Took(c.(buffer := buffer), vs, d)
    ensures Took(c, vs, d)
  {
  }

  /** A reply with more of a well-formed stream behind it, cut anywhere: the reply settles the outstanding command,
      and what follows has the effect it has on the idle connection. */
  lemma ReplyThenTraffic(number: NumberOf, c: Conn, reply: Frame, rest: Bytes, chunks: seq<Bytes>)
    requires ReadsDecimals(number) && Fits(reply, 0)
    requires c.socket.Some? && !c.closed && c.pending == [] && c.buffer == []
    requires Concat(chunks) == Serialize(reply) + rest
    requires DrainResp(number, Serialize(reply) + rest).broken.None?
    ensures var d, vs := OnChunks(number, Send(c, true), chunks), DrainResp(number, rest).values;
            && d.settled == c.settled + [Settlement(c.sent, OutcomeOf(Meaning(number, reply)))]
            && d.pending == [] && d.delivered == c.delivered + MessagesIn(vs)
            && (d.closed <==> HoldsFailure(vs)) && (!HoldsFailure(vs) ==> d.socket == c.socket)
  {
    hide Parse, OnChunks, OnData, Serialize, Meaning, ReadsDecimals, DrainResp;
    var sent, bytes := Send(c, true), Serialize(reply);
    assert chunks != [];
    assert sent.buffer + (bytes + rest) == bytes + rest;
    CuttingIsInvisible(number, sent, chunks);
    OnDataSplits(number, sent, bytes, rest);
    OneChunk(number, sent, bytes);
    ReplySettlesItsCommand(number, c, reply, [bytes]);
    FirstFrameSplitsOff(number, reply, rest);
    SoundDataIsTaken(number, OnData(number, sent, bytes), rest);
  }

  // ---- Behind an error ----

  lemma {:induction false} MeaningAllSplits(number: NumberOf, fs: seq<Frame>, k: nat)
    requires k <= |fs|
    ensures MeaningAll(number, fs) == MeaningAll(number, fs[..k]) + MeaningAll(number, fs[k..])
    ensures k < |fs| ==> MeaningAll(number, fs)[k] == Meaning(number, fs[k])
    decreases k
  {
    hide Meaning;
    var all := MeaningAll(number, fs);
    if k == 0 {
      assert fs[0..] == fs && fs[..0] == [] && [] + all == all;
    } else {
      MeaningAllSplits(number, fs[1..], k - 1);
      assert fs[1..][..k - 1] == fs[..k][1..] && fs[1..][k - 1..] == fs[k..];
      Associates([Meaning(number, fs[0])], MeaningAll(number, fs[..k][1..]), MeaningAll(number, fs[k..]));
    }
  }

  lemma {:induction false} NoMessagesIn(vs: seq<Value>)
    ensures MessagesIn(vs) == [] <==> forall k :: 0 <= k < |vs| ==> MessageIn(vs[k]).None?
  {
    hide MessageIn;
    if vs != [] {
      NoMessagesIn(vs[..|vs| - 1]);
    }
  }

  /** The values up to the first error close an open, idle connection, and only the error does. What comes after it
      is delivered all the same: delivery stops at the close if and only if no well-formed message follows. */
  lemma SilenceAfterAnError(c: Conn, vs: seq<Value>, f: nat)
    requires c.pending == [] && !c.closed && f < |vs|
    requires vs[f].Failure? && forall k :: 0 <= k < f ==> !vs[k].Failure?
    ensures !OnValues(c, vs[..f]).closed && OnValues(c, vs[..f + 1]).closed
    ensures OnValues(c, vs).delivered == OnValues(c, vs[..f + 1]).delivered + MessagesIn(vs[f + 1..])
    ensures OnValues(c, vs).delivered == OnValues(c, vs[..f + 1]).delivered
       <==> forall k :: f < k < |vs| ==> MessageIn(vs[k]).None?
  {
    hide MessagesIn, MessageIn, OnValues, OnValue, HoldsFailure;
    var before, after := vs[..f + 1], vs[f + 1..];
    ValuesAreTaken(c, vs[..f]);
    ValuesAreTaken(c, before);
    FirstFailure(vs, f);
    assert before + after == vs;
    OnValuesSplits(c, before, after);
    ValuesAreTaken(OnValues(c, before), after);
    NoMessagesBehind(vs, f);
    NothingAdded(OnValues(c, before).delivered, MessagesIn(after));
  }

  lemma FirstFailure(vs: seq<Value>, f: nat)
    requires f < |vs| && vs[f].Failure? && forall k :: 0 <= k < f ==> !vs[k].Failure?
    ensures !HoldsFailure(vs[..f]) && HoldsFailure(vs[..f + 1])
  {
    assert vs[..f + 1][f] == vs[f];
  }

  lemma NoMessagesBehind(vs: seq<Value>, f: nat)
    requires f < |vs|
    ensures MessagesIn(vs[f + 1..]) == [] <==> forall k :: f < k < |vs| ==> MessageIn(vs[k]).None?
  {
    hide MessageIn, MessagesIn;
    var after := vs[f + 1..];
    NoMessagesIn(after);
    assert forall k :: f < k < |vs| ==> vs[k] == after[k - f - 1];
    assert forall k :: 0 <= k < |after| ==> after[k] == vs[f + 1 + k];
  }

  lemma NothingAdded<T>(a: seq<T>, b: seq<T>)
    ensures a + b == a <==> b == []
  {
    assert |a + b| == |a| + |b|;
  }

  /** The same for a server's frames in any cutting, the first error being frame f. */
  lemma FramesBehindAnError(number: NumberOf, c: Conn, fs: seq<Frame>, f: nat, chunks: seq<Bytes>)
    requires ReadsDecimals(number) && AllFit(fs, 0) && c.pending == [] && c.buffer == [] && !c.closed
    requires Concat(chunks) == SerializeAll(fs)
    requires f < |fs| && fs[f].ErrorLine? && forall k :: 0 <= k < f ==> !fs[k].ErrorLine?
    ensures var atClose := OnValues(c, MeaningAll(number, fs[..f + 1]));
            && !OnValues(c, MeaningAll(number, fs[..f])).closed && atClose.closed
            && (OnChunks(number, c, chunks).delivered == atClose.delivered
                <==> forall k :: f < k < |fs| ==> MessageIn(Meaning(number, fs[k])).None?)
  {
    hide MessageIn, MessagesIn, OnValues, MeaningAll, OnChunks, ReadsDecimals, AllFit, SerializeAll;
    var vs := MeaningAll(number, fs);
    forall k | 0 <= k < |fs|
      ensures vs[k] == Meaning(number, fs[k])
    {
      MeaningAllSplits(number, fs, k);
    }
    assert forall k :: 0 <= k < |fs| ==> (vs[k].Failure? <==> fs[k].ErrorLine?);
    MeaningAllSplits(number, fs, f);
    assert vs[..f] == MeaningAll(number, fs[..f]);
    MeaningAllSplits(number, fs, f + 1);
    assert vs[..f + 1] == MeaningAll(number, fs[..f + 1]);
    SilenceAfterAnError(c, vs, f);
    FramesAreHandedOn(number, c, fs, chunks);
    ValuesAreTaken(c, vs);
  }

  /** Such a stream: an error, and behind it a message that is still delivered on the closed connection. */
  lemma MessageBehindAnErrorIsDelivered(number: NumberOf, c: Conn, message: Bytes, pattern: Bytes, channel: Bytes,
                                        payload: Bytes)
    requires ReadsDecimals(number) && c.pending == [] && c.buffer == [] && !c.closed && OneLine(message)
    requires |pattern| <= MAX_BULK_LENGTH && |channel| <= MAX_BULK_LENGTH && |payload| <= MAX_BULK_LENGTH
    ensures var fs := [ErrorLine(message), Announcement(pattern, channel, payload)];
            var atClose := OnValues(c, MeaningAll(number, fs[..1]));
            var d := OnChunks(number, c, [SerializeAll(fs)]);
            && atClose.closed && d.closed && atClose.delivered == c.delivered
            && d.delivered == c.delivered + [PMessage(pattern, channel, Plain(payload))]
  {
    hide MessageIn, MessagesIn, OnValues, MeaningAll, OnChunks, ReadsDecimals, SerializeAll, Announcement, Meaning,
         HoldsFailure, Fits;
    var frame := Announcement(pattern, channel, payload);
    var fs := [ErrorLine(message), frame];
    var v, w := Failure(message), Meaning(number, frame);
    ErrorAndAnnouncementFit(message, pattern, channel, payload);
    assert Concat([SerializeAll(fs)]) == SerializeAll(fs) by {
      assert [SerializeAll(fs)][..0] == [] && Concat([]) == [] && [] + SerializeAll(fs) == SerializeAll(fs);
    }
    TwoMeanings(number, message, frame);
    FramesAreHandedOn(number, c, fs, [SerializeAll(fs)]);
    AnnouncementIsRead(number, pattern, channel, payload);
    OneMessage(w, PMessage(pattern, channel, Plain(payload)));
    MessagesInAppends([v], [w]);
    ErrorsAreNoMessages(message);
    assert [v] + [w] == [v, w];
    FailuresJoin([v], [w]);
    assert [] + MessagesIn([w]) == MessagesIn([w]);
    ValuesAreTaken(c, [v]);
    assert c.delivered + [] == c.delivered;
    assert fs[..1] == [ErrorLine(message)];
  }

  lemma ErrorsAreNoMessages(message: Bytes)
    ensures MessagesIn([Failure(message)]) == [] && HoldsFailure([Failure(message)])
  {
    assert [Failure(message)][..0] == [] && MessagesIn([]) == [] && Failure(message) in [Failure(message)];
  }

  lemma TwoMeanings(number: NumberOf, message: Bytes, frame: Frame)
    ensures MeaningAll(number, [ErrorLine(message), frame]) == [Failure(message), Meaning(number, frame)]
    ensures MeaningAll(number, [ErrorLine(message)]) == [Failure(message)]
  {
    assert [ErrorLine(message), frame][1..] == [frame] && [frame][1..] == [] && [ErrorLine(message)][1..] == [];
    assert MeaningAll(number, [frame]) == [Meaning(number, frame)];
  }

  lemma ErrorAndAnnouncementFit(message: Bytes, pattern: Bytes, channel: Bytes, payload: Bytes)
    requires OneLine(message)
    requires |pattern| <= MAX_BULK_LENGTH && |channel| <= MAX_BULK_LENGTH && |payload| <= MAX_BULK_LENGTH
    ensures AllFit([ErrorLine(message), Announcement(pattern, channel, payload)], 0)
  {
    AnnouncementFits(pattern, channel, payload);
  }
}
