/** What the client of a pattern subscription makes of its stream: the order of Delivery.dfy and the events of
    Events.dfy put together. */
module PatternSubscriber {
  import opened Json
  import opened Payload
  import opened Subscriber
  import E = Events
  import D = Delivery
  import Bytes

  datatype Incoming = Incoming(channel: Text, message: Text)

  type Entry = D.Sse<Incoming>

  /** The event written for an entry of the log. */
  function TextFor(pattern: Text, count: int, entry: Entry): Text {
    match entry
    case Confirmation => E.PatternSubscribeEvent(pattern, count)
    case Message(m) => E.PatternMessageEvent(pattern, m.channel, m.message)
    case Unsupported => E.UnsupportedEvent()
  }

  function TextsFor(pattern: Text, count: int, log: seq<Entry>): (cs: seq<E.Chunk>)
    ensures |cs| == |log|
  {
    seq(|log|, i requires 0 <= i < |log| => E.Event(TextFor(pattern, count, log[i])))
  }

  /** What a client takes an event for. */
  datatype Reading =
    | Confirmed(pattern: Text, count: Text)
    | Heard(pattern: Text, channel: Text, meaning: Value)
    | Complaint(notice: Text)
    | Unreadable

  function Read(event: Text): Reading {
    var kind := E.Fields(event, 1)[0];
    if kind == Ascii("pmessage") then
      var fields := E.Fields(event, 3);
      if |fields| == 4 && Parse(fields[3]).Some? then Heard(fields[1], fields[2], Parse(fields[3]).value)
      else Unreadable
    else
      var fields := E.Fields(event, 2);
      if |fields| != 3 then Unreadable
      else if kind == Ascii("psubscribe") then Confirmed(fields[1], fields[2])
      else if kind == Ascii("error") then Complaint(fields[2])
      else Unreadable
  }

  function ReadingOf(pattern: Text, count: int, entry: Entry): Reading {
    match entry
    case Confirmation => Confirmed(pattern, Bytes.Decimal(count))
    case Message(m) => Heard(pattern, m.channel, MeaningOf(m.message))
    case Unsupported => Complaint(E.UnsupportedNotice())
  }

  /** The messages a client has heard. */
  function HeardIn(events: seq<Text>): seq<Reading> {
    if events == [] then [] else
      var last := Read(events[|events| - 1]);
      HeardIn(events[..|events| - 1]) + if last.Heard? then [last] else []
  }

  function Readings(pattern: Text, ms: seq<Incoming>): (rs: seq<Reading>)
    ensures |rs| == |ms|
  {
    seq(|ms|, i requires 0 <= i < |ms| => Heard(pattern, ms[i].channel, MeaningOf(ms[i].message)))
  }

  // ---- One event ----

  lemma KindsDiffer()
    ensures Ascii("pmessage") != Ascii("psubscribe") && Ascii("pmessage") != Ascii("error")
    ensures Ascii("psubscribe") != Ascii("error")
  {
    assert |Ascii("pmessage")| == 8 && |Ascii("psubscribe")| == 10 && |Ascii("error")| == 5;
  }

  /** The first field does not depend on how many more are cut off. */
  lemma KindIsFirst(event: Text, cuts: nat)
    requires cuts > 0
    ensures E.Fields(event, 1)[0] == E.Fields(event, cuts)[0]
  {
    hide E.FirstDelimiter;
  }

  lemma EventIsRead(pattern: Text, count: int, entry: Entry)
    requires E.ValidTarget(pattern) && (entry.Message? ==> E.ValidTarget(entry.data.channel))
    ensures SingleLine(TextFor(pattern, count, entry))
    ensures Read(TextFor(pattern, count, entry)) == ReadingOf(pattern, count, entry)
  {
    hide E.Fields, E.PatternSubscribeEvent, E.PatternMessageEvent, E.UnsupportedEvent, E.UnsupportedNotice, Normalize,
         MeaningOf, Parse, E.ValidTarget, SingleLine, Ascii;
    KindsDiffer();
    var event := TextFor(pattern, count, entry);
    KindIsFirst(event, 2);
    KindIsFirst(event, 3);
    match entry {
      case Confirmation => E.ConfirmationsAreReadBack(pattern, count);
      case Message(m) =>
        E.PatternMessageEventIsReadBack(pattern, m.channel, m.message);
        PayloadKeepsMeaning(m.message);
      case Unsupported => E.UnsupportedEventIsReadBack();
    }
  }

  // ---- The stream ----

  ghost predicate Speakable(log: seq<Entry>) {
    forall k :: 0 <= k < |log| && log[k].Message? ==> E.ValidTarget(log[k].data.channel)
  }

  lemma {:induction false} HeardIsWritten(pattern: Text, count: int, log: seq<Entry>, events: seq<Text>)
    requires E.ValidTarget(pattern) && Speakable(log) && |events| == |log|
    requires forall k :: 0 <= k < |log| ==> events[k] == TextFor(pattern, count, log[k])
    ensures HeardIn(events) == Readings(pattern, D.Written(log))
  {
    hide TextFor, Read, E.ValidTarget;
    if log != [] {
      var n := |log| - 1;
      HeardIsWritten(pattern, count, log[..n], events[..n]);
      EventIsRead(pattern, count, log[n]);
      var before := D.Written(log[..n]);
      if log[n].Message? {
        assert D.Written(log) == before + [log[n].data];
        assert Readings(pattern, before + [log[n].data])
            == Readings(pattern, before) + [ReadingOf(pattern, count, log[n])];
      } else {
        assert before + [] == before && HeardIn(events[..n]) + [] == HeardIn(events[..n]);
      }
    }
  }

  /** Every message in the log came on a channel that an event can name. */
  lemma LogsAreSpeakable(paths: seq<D.Path<Incoming>>, events: seq<D.Event<Incoming>>, i: nat)
    requires D.IsRun(true, paths, events) && i <= |events| && ChannelsAreChecked(events)
    ensures Speakable(paths[i].log)
  {
    hide E.ValidTarget;
    var log := paths[i].log;
    D.DeliveryIsOrderedAndBounded(true, paths, events, i);
    forall k | 0 <= k < |log| && log[k].Message?
      ensures E.ValidTarget(log[k].data.channel)
    {
      D.WrittenIsInLog(log, k);
      D.AcceptedWereSupported(true, paths, events, i, log[k].data);
    }
  }

  /** The handler tells the supported channels from the others with `isValidSubscriptionTarget`. */
  ghost predicate ChannelsAreChecked(events: seq<D.Event<Incoming>>) {
    forall j :: 0 <= j < |events| && events[j].Arrives? ==>
      (events[j].supported <==> E.ValidTarget(events[j].data.channel))
  }

  /** The client reads the events as they were written, keep-alives aside. */
  lemma EventsAreSeen(pattern: Text, count: int, log: seq<Entry>, cs: seq<E.Chunk>)
    requires E.ValidTarget(pattern) && Speakable(log)
    requires E.DataOf(cs) == E.DataOf(TextsFor(pattern, count, log))
    ensures var seen := E.Dispatch(E.SendAll(cs), []);
            |seen| == |log| && forall k :: 0 <= k < |log| ==> seen[k] == TextFor(pattern, count, log[k])
  {
    hide E.Dispatch, E.SendAll, SingleLine, TextFor, E.ValidTarget;
    var events := TextsFor(pattern, count, log);
    forall k | 0 <= k < |log|
      ensures SingleLine(events[k].data)
    {
      EventIsRead(pattern, count, log[k]);
    }
    KeepAlivesAreInvisible(cs, events);
    E.StreamIsReadBack(events);
    E.EventsKeepTheirData(events);
  }

  /** At every moment of every run of a pattern subscription, with keep-alives anywhere in its stream: the client has
      read the confirmation and then, in order of arrival, pattern, channel and meaning of the first messages that
      arrived while the flow went on, of all of them once the confirmation is out unless the writer gave up; a
      complaint is among them, once, if and only if a channel came that cannot be named; or it has read the
      complaint and nothing else. */
  lemma ClientsReadWhatWasAccepted(pattern: Text, count: int, paths: seq<D.Path<Incoming>>,
                                   events: seq<D.Event<Incoming>>, i: nat, cs: seq<E.Chunk>)
    requires E.ValidTarget(pattern) && D.IsRun(true, paths, events) && i <= |events| && ChannelsAreChecked(events)
    requires E.DataOf(cs) == E.DataOf(TextsFor(pattern, count, paths[i].log))
    ensures var seen := E.Dispatch(E.SendAll(cs), []);
            && (seen != [] ==> Read(seen[0]) == Confirmed(pattern, Bytes.Decimal(count))
                               || (|seen| == 1 && Read(seen[0]).Complaint?))
            && (forall k :: 0 < k < |seen| ==> Read(seen[k]).Heard? || Read(seen[k]).Complaint?)
            && (forall j, k :: 0 <= j < k < |seen| && Read(seen[j]).Complaint? ==> !Read(seen[k]).Complaint?)
            && HeardIn(seen) <= Readings(pattern, D.Arrivals(paths, events, i))
            && (D.Unhindered(paths, events, i) ==> HeardIn(seen) == Readings(pattern, D.Arrivals(paths, events, i)))
            && ((exists k :: 0 <= k < |seen| && Read(seen[k]).Complaint?)
                <==> exists k :: 0 <= k < i && D.Unnameable(paths, events, k))
  {
    hide E.Dispatch, E.SendAll, E.DataOf, TextFor, Read, E.ValidTarget, D.Written, D.Arrivals, D.Unhindered,
         D.Unnameable;
    var log := paths[i].log;
    D.DeliveryIsOrderedAndBounded(true, paths, events, i);
    D.NothingIsLost(true, paths, events, i);
    D.ReportTells(true, paths, events, i);
    LogsAreSpeakable(paths, events, i);
    EventsAreSeen(pattern, count, log, cs);
    var seen := E.Dispatch(E.SendAll(cs), []);
    HeardIsWritten(pattern, count, log, seen);
    forall k | 0 <= k < |log|
      ensures Read(seen[k]) == ReadingOf(pattern, count, log[k])
    {
      EventIsRead(pattern, count, log[k]);
    }
    OneConfirmation(paths, events, i);
  }

  lemma OneConfirmation(paths: seq<D.Path<Incoming>>, events: seq<D.Event<Incoming>>, i: nat)
    requires D.IsRun(true, paths, events) && i <= |events|
    ensures forall k :: 0 < k < |paths[i].log| ==> !paths[i].log[k].Confirmation?
  {
    D.RunsAreKept(true, paths, events, i);
    assert D.ConfirmationFirst(paths[i]);
  }
}
