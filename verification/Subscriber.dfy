/** What the client of an exact subscription makes of its stream: the order of Delivery.dfy and the events of
    Events.dfy put together. */
module Subscriber {
  import opened Json
  import opened Payload
  import E = Events
  import D = Delivery
  import Bytes

  /** The event written for an entry of the log. */
  function EventFor(channel: Text, count: int, entry: D.Sse<Text>): E.Chunk {
    match entry
    case Confirmation => E.Event(E.SubscribeEvent(channel, count))
    case Message(message) => E.Event(E.MessageEvent(channel, message))
    case Unsupported => E.Event(E.UnsupportedEvent())    // on pattern subscriptions only
  }

  function EventsFor(channel: Text, count: int, log: seq<D.Sse<Text>>): (cs: seq<E.Chunk>)
    ensures |cs| == |log|
  {
    seq(|log|, i requires 0 <= i < |log| => EventFor(channel, count, log[i]))
  }

  /** The confirmation and then messages only. */
  ghost predicate ExactLog(log: seq<D.Sse<Text>>) {
    log != [] && log[0].Confirmation? && forall i :: 0 < i < |log| ==> log[i].Message?
  }

  lemma KeptLogsAreExact(p: D.Path<Text>)
    requires D.Kept(p) && !p.pattern && p.log != []
    ensures ExactLog(p.log)
  {
  }

  lemma {:induction false} ExactLogIsATranscript(channel: Text, count: int, log: seq<D.Sse<Text>>)
    requires ExactLog(log)
    ensures EventsFor(channel, count, log) == E.Transcript(channel, count, D.Written(log))
    ensures |D.Written(log)| == |log| - 1
  {
    hide E.SubscribeEvent, E.MessageEvent;
    var n := |log| - 1;
    if n == 0 {
      assert log == [D.Confirmation] && log[..0] == [];
    } else {
      ExactLogIsATranscript(channel, count, log[..n]);
      D.WrittenAppends(log[..n], log[n]);
      assert log[..n] + [log[n]] == log;
      assert D.Written(log)[..n - 1] == D.Written(log[..n]);
      assert EventsFor(channel, count, log)
          == EventsFor(channel, count, log[..n]) + [EventFor(channel, count, log[n])];
    }
  }

  lemma {:induction false} EventDataIsData(cs: seq<E.Chunk>)
    ensures forall c :: c in cs && c.Event? ==> c.data in E.DataOf(cs)
  {
    if cs != [] {
      EventDataIsData(cs[1..]);
    }
  }

  /** Keep-alives anywhere between the events change nothing of what the client reads. */
  lemma KeepAlivesAreInvisible(cs: seq<E.Chunk>, events: seq<E.Chunk>)
    requires E.DataOf(cs) == E.DataOf(events)
    requires forall i :: 0 <= i < |events| ==> events[i].Event? && SingleLine(events[i].data)
    ensures E.Dispatch(E.SendAll(cs), []) == E.Dispatch(E.SendAll(events), [])
  {
    hide E.Dispatch, E.SendAll, SingleLine;
    E.EventsKeepTheirData(events);
    EventDataIsData(cs);
    E.StreamIsReadBack(events);
    E.StreamIsReadBack(cs);
  }

  /** At every moment of every run of an exact subscription, with keep-alives anywhere in its stream: a client that
      reads what was written finds the confirmation and then, in order of arrival, the channel and the meaning of
      the first messages that arrived while the flow went on; of all of them once the confirmation is out, unless
      the writer gave up. */
  lemma ClientsReadWhatWasAccepted(channel: Text, count: int, paths: seq<D.Path<Text>>, events: seq<D.Event<Text>>,
                                   i: nat, cs: seq<E.Chunk>)
    requires E.ValidTarget(channel) && D.IsRun(false, paths, events) && i <= |events|
    requires exists k :: 0 <= k < i && events[k].Confirms?
    requires E.DataOf(cs) == E.DataOf(EventsFor(channel, count, paths[i].log))
    ensures var seen, arrivals := E.Dispatch(E.SendAll(cs), []), D.Arrivals(paths, events, i);
            && 1 <= |seen| <= |arrivals| + 1
            && E.Fields(seen[0], 2) == [Ascii("subscribe"), channel, Bytes.Decimal(count)]
            && (forall k :: 0 <= k < |seen| - 1 ==> E.ReadsAs(seen[k + 1], channel, MeaningOf(arrivals[k])))
            && (D.Unhindered(paths, events, i) ==> |seen| == |arrivals| + 1)
  {
    hide E.Dispatch, E.SendAll, E.Transcript, E.DataOf, E.Fields, E.SubscribeEvent, E.ReadsAs, D.Written, SingleLine,
         MeaningOf, D.ConfirmationFirst, D.Counted, D.Arrivals, D.Unhindered;
    D.RunsAreKept(false, paths, events, i);
    D.ConfirmationTells(false, paths, events, i);
    D.NothingIsLost(false, paths, events, i);
    var p, arrivals := paths[i], D.Arrivals(paths, events, i);
    KeptLogsAreExact(p);
    ExactLogIsATranscript(channel, count, p.log);
    var messages := D.Written(p.log);
    E.TranscriptShape(channel, count, messages);
    KeepAlivesAreInvisible(cs, E.Transcript(channel, count, messages));
    E.SubscribersSeeWhatWasPublished(channel, count, messages);
    assert forall k :: 0 <= k < |messages| ==> messages[k] == arrivals[k];
  }
}
