/** The SSE events of a subscription (src/translate/pubsub.ts) and how a client takes them apart: the
    comma-separated fields of one event, and the lines of the stream (section 9.2.6 of the WHATWG HTML
    standard). */
module Events {
  import opened Wrappers
  import opened Json
  import opened Payload
  import Bytes

  const DELIMITER: CodeUnit := 44
  const MAX_CHANNEL_NAME_LENGTH: nat := 512

  predicate IsControl(u: CodeUnit) {
    u <= 0x1f || u == 0x7f
  }

  predicate Plain(t: Text) {
    forall i :: 0 <= i < |t| ==> !IsControl(t[i])
  }

  predicate NoDelimiter(t: Text) {
    forall i :: 0 <= i < |t| ==> t[i] != DELIMITER
  }

  /** The names that can stand in an event. */
  predicate ValidTarget(t: Text) {
    0 < |t| <= MAX_CHANNEL_NAME_LENGTH && NoDelimiter(t) && Plain(t)
  }

  method HasControlCharacters(t: Text) returns (found: bool)
    ensures found <==> !Plain(t)
    ensures found <==> exists i :: 0 <= i < |t| && (t[i] < 32 || t[i] == 127)
  {
    for i := 0 to |t|
      invariant Plain(t[..i])
    {
      if IsControl(t[i]) {
        return true;
      }
      assert t[..i + 1] == t[..i] + [t[i]];
    }
    assert t[..|t|] == t;
    return false;
  }

  method IsValidSubscriptionTarget(target: Text) returns (ok: bool)
    ensures ok <==> ValidTarget(target)
    ensures ok <==> 0 < |target| <= 512 && forall i :: 0 <= i < |target| ==>
                      target[i] >= 32 && target[i] != 127 && target[i] != ',' as int
  {
    if |target| == 0 || |target| > MAX_CHANNEL_NAME_LENGTH || DELIMITER in target {
      return false;
    }
    var control := HasControlCharacters(target);
    return !control;
  }

  // ---- The events ----

  function SubscribeEvent(channel: Text, count: int): Text {
    Ascii("subscribe") + ([DELIMITER] + (channel + ([DELIMITER] + Bytes.Decimal(count))))
  }

  function PatternSubscribeEvent(pattern: Text, count: int): Text {
    Ascii("psubscribe") + ([DELIMITER] + (pattern + ([DELIMITER] + Bytes.Decimal(count))))
  }

  function MessageEvent(channel: Text, message: Text): Text {
    Ascii("message") + ([DELIMITER] + (channel + ([DELIMITER] + Normalize(message))))
  }

  function PatternMessageEvent(pattern: Text, channel: Text, message: Text): Text {
    Ascii("pmessage")
      + ([DELIMITER] + (pattern + ([DELIMITER] + (channel + ([DELIMITER] + Normalize(message))))))
  }

  const NOTICE: string := "Channel cannot be " + "represented in the " + "PubSub SSE format"

  /** What a pattern subscription sends before it ends, when a channel cannot be named in an event. */
  function UnsupportedEvent(): Text {
    Ascii("error") + ([DELIMITER] + ([] + ([DELIMITER] + UnsupportedNotice())))
  }

  function UnsupportedNotice(): Text {
    [QUOTE] + Ascii(NOTICE) + [QUOTE]
  }

  /** The text cut at its first `cuts` delimiters. */
  function Fields(t: Text, cuts: nat): (fields: seq<Text>)
    ensures |fields| >= 1
  {
    if cuts == 0 then [t] else
      match FirstDelimiter(t)
      case None => [t]
      case Some(i) => [t[..i]] + Fields(t[i + 1..], cuts - 1)
  }

  function FirstDelimiter(t: Text): (i: Option<nat>)
    ensures i.Some? ==> i.value < |t| && t[i.value] == DELIMITER && forall k :: 0 <= k < i.value ==> t[k] != DELIMITER
    ensures i.None? ==> NoDelimiter(t)
  {
    if t == [] then None
    else if t[0] == DELIMITER then Some(0)
    else
      assert forall k :: 1 <= k < |t| ==> t[k] == t[1..][k - 1];
      match FirstDelimiter(t[1..])
      case None => None
      case Some(i) => Some(i + 1)
  }

  lemma FirstDelimiterFound(a: Text, b: Text)
    requires NoDelimiter(a)
    ensures FirstDelimiter(a + ([DELIMITER] + b)) == Some(|a|)
  {
    hide FirstDelimiter;
    var t := a + ([DELIMITER] + b);
    assert t[|a|] == DELIMITER;
    assert forall k :: 0 <= k < |a| ==> t[k] == a[k] != DELIMITER;
  }

  lemma FieldsCut(a: Text, b: Text, cuts: nat)
    requires NoDelimiter(a) && cuts > 0
    ensures Fields(a + ([DELIMITER] + b), cuts) == [a] + Fields(b, cuts - 1)
  {
    hide FirstDelimiter, NoDelimiter;
    var t := a + ([DELIMITER] + b);
    FirstDelimiterFound(a, b);
    assert t[..|a|] == a && t[|a| + 1..] == b;
  }

  lemma WordIsPlain(s: string)
    requires forall i :: 0 <= i < |s| ==> 'a' <= s[i] <= 'z'
    ensures NoDelimiter(Ascii(s)) && SingleLine(Ascii(s))
  {
  }

  lemma KindsArePlain()
    ensures NoDelimiter(Ascii("subscribe")) && NoDelimiter(Ascii("psubscribe"))
    ensures NoDelimiter(Ascii("message")) && NoDelimiter(Ascii("pmessage"))
    ensures SingleLine(Ascii("subscribe")) && SingleLine(Ascii("psubscribe"))
    ensures SingleLine(Ascii("message")) && SingleLine(Ascii("pmessage"))
  {
    hide Ascii;
    WordIsPlain("subscribe");
    WordIsPlain("psubscribe");
    WordIsPlain("message");
    WordIsPlain("pmessage");
  }

  lemma SingleLineJoins(a: Text, b: Text)
    requires SingleLine(a) && SingleLine(b)
    ensures SingleLine(a + ([DELIMITER] + b))
  {
  }

  /** An event is one line, and cutting it at its first two delimiters gives back kind, channel and payload,
      whatever the payload. */
  lemma MessageEventIsReadBack(channel: Text, message: Text)
    requires ValidTarget(channel)
    ensures SingleLine(MessageEvent(channel, message))
    ensures Fields(MessageEvent(channel, message), 2) == [Ascii("message"), channel, Normalize(message)]
  {
    hide Fields, Normalize;
    KindsArePlain();
    PayloadKeepsMeaning(message);
    SingleLineJoins(channel, Normalize(message));
    SingleLineJoins(Ascii("message"), channel + ([DELIMITER] + Normalize(message)));
    FieldsCut(Ascii("message"), channel + ([DELIMITER] + Normalize(message)), 2);
    FieldsCut(channel, Normalize(message), 1);
    NoCuts(Normalize(message));
  }

  lemma NoCuts(t: Text)
    ensures Fields(t, 0) == [t]
  {
  }

  lemma PatternMessageEventIsReadBack(pattern: Text, channel: Text, message: Text)
    requires ValidTarget(pattern) && ValidTarget(channel)
    ensures SingleLine(PatternMessageEvent(pattern, channel, message))
    ensures Fields(PatternMessageEvent(pattern, channel, message), 3)
         == [Ascii("pmessage"), pattern, channel, Normalize(message)]
  {
    hide Fields, Normalize;
    KindsArePlain();
    PayloadKeepsMeaning(message);
    var tail := channel + ([DELIMITER] + Normalize(message));
    SingleLineJoins(channel, Normalize(message));
    SingleLineJoins(pattern, tail);
    SingleLineJoins(Ascii("pmessage"), pattern + ([DELIMITER] + tail));
    FieldsCut(Ascii("pmessage"), pattern + ([DELIMITER] + tail), 3);
    FieldsCut(pattern, tail, 2);
    FieldsCut(channel, Normalize(message), 1);
    NoCuts(Normalize(message));
  }

  lemma ConfirmationsAreReadBack(target: Text, count: int)
    requires ValidTarget(target)
    ensures SingleLine(SubscribeEvent(target, count)) && SingleLine(PatternSubscribeEvent(target, count))
    ensures Fields(SubscribeEvent(target, count), 2) == [Ascii("subscribe"), target, Bytes.Decimal(count)]
    ensures Fields(PatternSubscribeEvent(target, count), 2) == [Ascii("psubscribe"), target, Bytes.Decimal(count)]
  {
    hide Fields;
    KindsArePlain();
    var tail := target + ([DELIMITER] + Bytes.Decimal(count));
    SingleLineJoins(target, Bytes.Decimal(count));
    SingleLineJoins(Ascii("subscribe"), tail);
    SingleLineJoins(Ascii("psubscribe"), tail);
    FieldsCut(Ascii("subscribe"), tail, 2);
    FieldsCut(Ascii("psubscribe"), tail, 2);
    FieldsCut(target, Bytes.Decimal(count), 1);
    NoCuts(Bytes.Decimal(count));
  }

  lemma UnsupportedEventIsReadBack()
    ensures SingleLine(UnsupportedEvent())
    ensures Fields(UnsupportedEvent(), 2) == [Ascii("error"), [], UnsupportedNotice()]
  {
    hide Fields;
    assert NoDelimiter(Ascii("error")) && SingleLine(Ascii("error"));
    NoticeIsSingleLine();
    SingleLineJoins([], UnsupportedNotice());
    SingleLineJoins(Ascii("error"), [] + ([DELIMITER] + UnsupportedNotice()));
    FieldsCut(Ascii("error"), [] + ([DELIMITER] + UnsupportedNotice()), 2);
    FieldsCut([], UnsupportedNotice(), 1);
    NoCuts(UnsupportedNotice());
  }

  lemma NoticeIsSingleLine()
    ensures SingleLine(UnsupportedNotice())
  {
    PrintableIsSingleLine("Channel cannot be ");
    PrintableIsSingleLine("represented in the ");
    PrintableIsSingleLine("PubSub SSE format");
    assert Ascii(NOTICE) == Ascii("Channel cannot be ") + Ascii("represented in the ") + Ascii("PubSub SSE format");
  }

  lemma PrintableIsSingleLine(s: string)
    requires forall i :: 0 <= i < |s| ==> ' ' <= s[i] <= 'z'
    ensures SingleLine(Ascii(s))
  {
  }

  /** Two different messages never look the same on the wire. */
  lemma MessageEventsAreUnambiguous(channel: Text, message: Text, channel': Text, message': Text)
    requires ValidTarget(channel) && ValidTarget(channel')
    requires MessageEvent(channel, message) == MessageEvent(channel', message')
    ensures channel == channel' && MeaningOf(message) == MeaningOf(message')
  {
    hide Fields, MessageEvent, Normalize, MeaningOf;
    MessageEventIsReadBack(channel, message);
    MessageEventIsReadBack(channel', message');
    PayloadKeepsMeaning(message);
    PayloadKeepsMeaning(message');
    var f, g := Fields(MessageEvent(channel, message), 2), Fields(MessageEvent(channel', message'), 2);
    assert f[1] == g[1] && f[2] == g[2];
  }

  // ---- The stream ----

  /** What `streamSSE` sends: an event of one data line, or a keep-alive comment. */
  datatype Chunk = Event(data: Text) | KeepAlive

  const DATA_FIELD: Text := Ascii("data:")
  const BREAK: Text := [10]

  function Send(c: Chunk): Text {
    match c
    case Event(data) => Ascii("data: ") + data + [10, 10]
    case KeepAlive => Ascii(":keep-alive") + [10, 10]
  }

  function SendAll(cs: seq<Chunk>): Text {
    if cs == [] then [] else Send(cs[0]) + SendAll(cs[1..])
  }

  function DataOf(cs: seq<Chunk>): seq<Text> {
    if cs == [] then [] else (if cs[0].Event? then [cs[0].data] else []) + DataOf(cs[1..])
  }

  /** The first line, without its end, and how many units it takes; lines end in LF, CR or CR LF. */
  function FirstLine(s: Text): (r: Option<(Text, nat)>)
    ensures r.Some? ==> |r.value.0| < r.value.1 <= |s|
  {
    if s == [] then None
    else if s[0] == 10 then Some(([], 1))
    else if s[0] == 13 then Some(([], if |s| > 1 && s[1] == 10 then 2 else 1))
    else
      match FirstLine(s[1..])
      case None => None
      case Some((line, n)) => Some(([s[0]] + line, n + 1))
  }

  /** The value of a data line: one leading space is dropped. */
  function FieldValue(line: Text): Text
    requires |line| >= 5
  {
    if |line| > 5 && line[5] == 32 then line[6..] else line[5..]
  }

  /** A client's event loop: `buffer` holds the data lines of the event being read, each with a final LF. */
  function Dispatch(s: Text, buffer: Text): seq<Text>
    decreases |s|
  {
    match FirstLine(s)
    case None => []
    case Some((line, n)) =>
      if line == [] then
        (if buffer == [] then [] else [buffer[..|buffer| - 1]]) + Dispatch(s[n..], [])
      else if DATA_FIELD <= line then Dispatch(s[n..], buffer + FieldValue(line) + BREAK)
      else Dispatch(s[n..], buffer)   // comments and other fields
  }

  lemma {:induction false} LineIsFound(line: Text, rest: Text)
    requires SingleLine(line)
    ensures FirstLine(line + ([10] + rest)) == Some((line, |line| + 1))
  {
    if line == [] {
      assert line + ([10] + rest) == [10] + rest;
    } else {
      LineIsFound(line[1..], rest);
      assert (line + ([10] + rest))[1..] == line[1..] + ([10] + rest);
      assert [line[0]] + line[1..] == line;
    }
  }

  lemma LineIsTaken(line: Text, rest: Text, buffer: Text)
    requires SingleLine(line)
    ensures Dispatch(line + ([10] + rest), buffer)
         == if line == [] then (if buffer == [] then [] else [buffer[..|buffer| - 1]]) + Dispatch(rest, [])
            else if DATA_FIELD <= line then Dispatch(rest, buffer + FieldValue(line) + BREAK)
            else Dispatch(rest, buffer)
  {
    LineIsFound(line, rest);
    assert (line + ([10] + rest))[|line| + 1..] == rest;
  }

  lemma EventIsTaken(data: Text, rest: Text)
    requires SingleLine(data)
    ensures Dispatch(Send(Event(data)) + rest, []) == [data] + Dispatch(rest, [])
  {
    hide Dispatch;
    var line := Ascii("data: ") + data;
    assert SingleLine(line);
    assert Send(Event(data)) + rest == line + ([10] + ([] + ([10] + rest)));
    LineIsTaken(line, [] + ([10] + rest), []);
    assert DATA_FIELD <= line && FieldValue(line) == data;
    var buffer := [] + data + BREAK;
    LineIsTaken([], rest, buffer);
    assert buffer[..|buffer| - 1] == data;
  }

  lemma KeepAliveIsIgnored(rest: Text)
    ensures Dispatch(Send(KeepAlive) + rest, []) == Dispatch(rest, [])
  {
    hide Dispatch;
    var line := Ascii(":keep-alive");
    assert SingleLine(line);
    assert Send(KeepAlive) + rest == line + ([10] + ([] + ([10] + rest)));
    LineIsTaken(line, [] + ([10] + rest), []);
    assert !(DATA_FIELD <= line) by {
      assert line[0] == 58 && DATA_FIELD[0] == 100;
    }
    LineIsTaken([], rest, []);
    assert [] + Dispatch(rest, []) == Dispatch(rest, []);
  }

  /** A client recovers exactly the events sent, in order, keep-alives left aside. */
  lemma {:induction false} StreamIsReadBack(cs: seq<Chunk>)
    requires forall c :: c in cs && c.Event? ==> SingleLine(c.data)
    ensures Dispatch(SendAll(cs), []) == DataOf(cs)
  {
    hide Dispatch, Send;
    if cs == [] {
      NothingToTake();
    } else {
      StreamIsReadBack(cs[1..]);
      if cs[0].Event? {
        EventIsTaken(cs[0].data, SendAll(cs[1..]));
      } else {
        KeepAliveIsIgnored(SendAll(cs[1..]));
        assert [] + DataOf(cs[1..]) == DataOf(cs[1..]);
      }
    }
  }

  lemma NothingToTake()
    ensures Dispatch([], []) == []
  {
  }

  // ---- From the publisher to the subscriber ----

  /** The stream of an exact subscription: its confirmation, then one event per message. */
  function Transcript(channel: Text, count: int, messages: seq<Text>): seq<Chunk> {
    if messages == [] then [Event(SubscribeEvent(channel, count))]
    else
      Transcript(channel, count, messages[..|messages| - 1])
        + [Event(MessageEvent(channel, messages[|messages| - 1]))]
  }

  lemma {:induction false} TranscriptShape(channel: Text, count: int, messages: seq<Text>)
    requires ValidTarget(channel)
    ensures var cs := Transcript(channel, count, messages);
            && |cs| == |messages| + 1 && cs[0] == Event(SubscribeEvent(channel, count))
            && (forall i :: 0 <= i < |messages| ==> cs[i + 1] == Event(MessageEvent(channel, messages[i])))
            && (forall i :: 0 <= i < |cs| ==> cs[i].Event? && SingleLine(cs[i].data))
  {
    hide SubscribeEvent, MessageEvent, Normalize, SingleLine, Fields, ValidTarget, PatternSubscribeEvent, Ascii;
    ConfirmationsAreReadBack(channel, count);
    if messages != [] {
      TranscriptShape(channel, count, messages[..|messages| - 1]);
      MessageEventIsReadBack(channel, messages[|messages| - 1]);
    }
  }

  lemma {:induction false} EventsKeepTheirData(cs: seq<Chunk>)
    requires forall i :: 0 <= i < |cs| ==> cs[i].Event?
    ensures |DataOf(cs)| == |cs| && forall i :: 0 <= i < |cs| ==> DataOf(cs)[i] == cs[i].data
  {
    if cs != [] {
      EventsKeepTheirData(cs[1..]);
    }
  }

  /** The client's reading of one event: its fields, and the payload through JSON.parse. */
  predicate ReadsAs(event: Text, channel: Text, meaning: Value) {
    var fields := Fields(event, 2);
    |fields| == 3 && fields[0] == Ascii("message") && fields[1] == channel && Parse(fields[2]) == Some(meaning)
  }

  lemma MessageEventReadsAs(channel: Text, message: Text)
    requires ValidTarget(channel)
    ensures ReadsAs(MessageEvent(channel, message), channel, MeaningOf(message))
  {
    hide Fields, MessageEvent, Normalize, MeaningOf, Parse;
    MessageEventIsReadBack(channel, message);
    PayloadKeepsMeaning(message);
  }

  /** A client that reads the stream, cuts each event at its first two delimiters and parses the payload finds
      the confirmation first and then, in order, the channel and the meaning of every message published. */
  lemma SubscribersSeeWhatWasPublished(channel: Text, count: int, messages: seq<Text>)
    requires ValidTarget(channel)
    ensures |Dispatch(SendAll(Transcript(channel, count, messages)), [])| == |messages| + 1
    ensures Fields(Dispatch(SendAll(Transcript(channel, count, messages)), [])[0], 2)
         == [Ascii("subscribe"), channel, Bytes.Decimal(count)]
    ensures forall i :: 0 <= i < |messages| ==>
              ReadsAs(Dispatch(SendAll(Transcript(channel, count, messages)), [])[i + 1], channel,
                      MeaningOf(messages[i]))
  {
    hide Dispatch, SendAll, Transcript, Fields, SubscribeEvent, MessageEvent, DataOf, ReadsAs, MeaningOf;
    var cs := Transcript(channel, count, messages);
    TranscriptShape(channel, count, messages);
    StreamIsReadBack(cs);
    EventsKeepTheirData(cs);
    ConfirmationsAreReadBack(channel, count);
    forall i | 0 <= i < |messages|
      ensures ReadsAs(DataOf(cs)[i + 1], channel, MeaningOf(messages[i]))
    {
      MessageEventReadsAs(channel, messages[i]);
      assert cs[i + 1] == Event(MessageEvent(channel, messages[i]));
    }
  }
}
