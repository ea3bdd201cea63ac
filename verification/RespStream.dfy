/** What a sequence of `push` calls delivers, and why the cutting into chunks does not matter. */
module RespStream {
  import opened Wrappers
  import opened Bytes
  import opened Resp

  /** A parser of one value at the front of a buffer. */
  type Reader<!V> = Bytes -> Parsed<V>

  /** It makes progress within the buffer, and an answer once given does not change when more
      bytes follow. Everything below rests on these two facts only. */
  ghost predicate Incremental<V>(read: Reader<V>) {
    && (forall b :: read(b).Done? ==> 0 < read(b).used <= |b|)
    && (forall a, c {:trigger read(a + c)} :: !read(a).Incomplete? ==> read(a + c) == read(a))
  }

  function RespReader(number: NumberOf): Reader<Value> {
    (b: Bytes) => Parse(number, b, 0)
  }

  lemma RespReaderIsIncremental(number: NumberOf)
    ensures Incremental(RespReader(number))
  {
    var read := RespReader(number);
    forall a: Bytes, c: Bytes | !read(a).Incomplete?
      ensures read(a + c) == read(a)
    {
      ParseExtends(number, a, c, 0);
    }
  }

  /** The complete values at the front of a buffer, the bytes they took, and the error after them. */
  datatype Drained<V> = Drained(values: seq<V>, used: nat, broken: Option<Reason>) {
    /** This much, and then what the following bytes give. */
    function Then(rest: Drained<V>): Drained<V> {
      Drained(values + rest.values, used + rest.used, rest.broken)
    }
  }

  function Drain<V>(read: Reader<V>, b: Bytes): (d: Drained<V>)
    requires Incremental(read)
    ensures d.used <= |b|
    decreases |b|
  {
    if b == [] then Drained([], 0, None) else
      match read(b)
      case Incomplete => Drained([], 0, None)
      case Broken(e) => Drained([], 0, Some(e))
      case Done(v, k) => Drained([v], k, None).Then(Drain(read, b[k..]))
  }

  /** How one `push` ends. A push that throws hands over nothing, not even the values it had read. */
  datatype PushResult<V> = Delivered(values: seq<V>) | Rejected(reason: Reason)

  datatype Pushed<V> = Pushed(result: PushResult<V>, buffer: Bytes)

  function Push<V>(read: Reader<V>, buffer: Bytes, chunk: Bytes): Pushed<V>
    requires Incremental(read)
  {
    var d := Drain(read, buffer + chunk);
    match d.broken
    case None => Pushed(Delivered(d.values), (buffer + chunk)[d.used..])
    case Some(e) => Pushed(Rejected(e), buffer + chunk)
  }

  /** The two functions above for the parser of this repository. */
  function DrainResp(number: NumberOf, b: Bytes): (d: Drained<Value>)
    ensures d.used <= |b|
  {
    RespReaderIsIncremental(number);
    Drain(RespReader(number), b)
  }

  function PushResp(number: NumberOf, buffer: Bytes, chunk: Bytes): Pushed<Value> {
    RespReaderIsIncremental(number);
    Push(RespReader(number), buffer, chunk)
  }

  datatype Run<V> = Run(results: seq<PushResult<V>>, buffer: Bytes)

  /** A fresh parser fed the chunks in order. */
  function Feed<V>(read: Reader<V>, chunks: seq<Bytes>): (r: Run<V>)
    requires Incremental(read)
    ensures |r.results| == |chunks|
  {
    if chunks == [] then Run([], []) else
      var before := Feed(read, chunks[..|chunks| - 1]);
      var last := Push(read, before.buffer, chunks[|chunks| - 1]);
      Run(before.results + [last.result], last.buffer)
  }

  /** Feeding the parser of this repository. */
  function FeedResp(number: NumberOf, chunks: seq<Bytes>): (r: Run<Value>)
    ensures |r.results| == |chunks|
  {
    RespReaderIsIncremental(number);
    Feed(RespReader(number), chunks)
  }

  lemma FeedRespGrows(number: NumberOf, chunks: seq<Bytes>)
    ensures chunks == [] ==> FeedResp(number, chunks) == Run([], [])
    ensures chunks != [] ==>
              var before := FeedResp(number, chunks[..|chunks| - 1]);
              var last := PushResp(number, before.buffer, chunks[|chunks| - 1]);
              FeedResp(number, chunks) == Run(before.results + [last.result], last.buffer)
  {
    hide Incremental, Push, Parse;
    RespReaderIsIncremental(number);
  }

  function DeliveredBy<V>(results: seq<PushResult<V>>): seq<V> {
    if results == [] then [] else
      var last := results[|results| - 1];
      DeliveredBy(results[..|results| - 1]) + (if last.Delivered? then last.values else [])
  }

  function Concat(chunks: seq<Bytes>): Bytes {
    if chunks == [] then [] else Concat(chunks[..|chunks| - 1]) + chunks[|chunks| - 1]
  }

  /** How many of the chunks arrive before the stream is seen to be malformed. */
  function SoundChunks<V>(read: Reader<V>, chunks: seq<Bytes>): (n: nat)
    requires Incremental(read)
    ensures n <= |chunks|
  {
    if chunks == [] then 0
    else if Drain(read, Concat(chunks)).broken.None? then |chunks|
    else SoundChunks(read, chunks[..|chunks| - 1])
  }

  // ---- Draining in two steps ----

  lemma ThenAssociates<V>(a: Drained<V>, b: Drained<V>, c: Drained<V>)
    ensures a.Then(b).Then(c) == a.Then(b.Then(c))
  {
    assert (a.values + b.values) + c.values == a.values + (b.values + c.values);
  }

  lemma {:induction false} DrainSplits<V>(read: Reader<V>, a: Bytes, c: Bytes)
    requires Incremental(read)
    requires Drain(read, a).broken.None?
    ensures Drain(read, a + c) == Drain(read, a).Then(Drain(read, a[Drain(read, a).used..] + c))
    decreases |a|
  {
    var first := read(a);
    if a == [] || first.Incomplete? {
      assert a[0..] == a;
    } else {
      assert read(a + c) == first;
      var tail := a[first.used..];
      assert (a + c)[first.used..] == tail + c;
      DrainSplits(read, tail, c);
      var d := Drain(read, tail);
      assert tail[d.used..] == a[first.used + d.used..];
      ThenAssociates(Drained([first.value], first.used, None), d, Drain(read, tail[d.used..] + c));
    }
  }

  lemma {:induction false} BrokenStaysBroken<V>(read: Reader<V>, a: Bytes, c: Bytes)
    requires Incremental(read)
    requires Drain(read, a).broken.Some?
    ensures Drain(read, a + c) == Drain(read, a)
    decreases |a|
  {
    var first := read(a);
    assert read(a + c) == first;
    if first.Done? {
      assert (a + c)[first.used..] == a[first.used..] + c;
      BrokenStaysBroken(read, a[first.used..], c);
    }
  }

  /** What a drain leaves behind holds no complete value. */
  lemma {:induction false} DrainedLeavesNothing<V>(read: Reader<V>, b: Bytes)
    requires Incremental(read)
    requires Drain(read, b).broken.None?
    ensures Drain(read, b[Drain(read, b).used..]) == Drained([], 0, None)
    decreases |b|
  {
    var first := read(b);
    if b != [] && first.Done? {
      DrainedLeavesNothing(read, b[first.used..]);
      assert b[first.used..][Drain(read, b[first.used..]).used..] == b[Drain(read, b).used..];
    } else {
      assert b[0..] == b;
    }
  }

  lemma DrainAtEnd(number: NumberOf, values: seq<Value>, offset: nat)
    ensures Drained(values, offset, None).Then(DrainResp(number, [])) == Drained(values, offset, None)
  {
    RespReaderIsIncremental(number);
    assert values + [] == values;
  }

  lemma DrainAtStart(number: NumberOf, all: Bytes)
    ensures DrainResp(number, all) == Drained([], 0, None).Then(DrainResp(number, all[0..]))
  {
    var d := DrainResp(number, all);
    assert all[0..] == all && [] + d.values == d.values;
  }

  // ---- Chunk invariance ----

  /** Where the stream broke, if it did, and what had been drained by then. */
  ghost predicate Tracks<V>(read: Reader<V>, run: Run<V>, whole: Bytes, sound: Bytes)
    requires Incremental(read)
  {
    var d := Drain(read, sound);
    && d.broken.None? && sound <= whole
    && run.buffer == whole[d.used..]
    && DeliveredBy(run.results) == d.values
    && (Drain(read, whole).broken.None? ==> d == Drain(read, whole))
  }

  lemma {:induction false} FeedTracks<V>(read: Reader<V>, chunks: seq<Bytes>)
    requires Incremental(read)
    ensures Tracks(read, Feed(read, chunks), Concat(chunks), Concat(chunks[..SoundChunks(read, chunks)]))
    ensures SoundChunks(read, chunks) == |chunks| <==> Drain(read, Concat(chunks)).broken.None?
    ensures forall i :: 0 <= i < SoundChunks(read, chunks) ==> Feed(read, chunks).results[i].Delivered?
    ensures forall i :: SoundChunks(read, chunks) <= i < |chunks| ==>
              Some(Feed(read, chunks).results[i]) == RejectionOf(Drain(read, Concat(chunks)))
  {
    hide Drain, Push, Incremental, DeliveredBy;
    if chunks == [] {
      NothingFed(read);
    } else {
      var n, k := |chunks| - 1, SoundChunks(read, chunks[..|chunks| - 1]);
      FeedTracks(read, chunks[..n]);
      assert chunks[..n][..k] == chunks[..k] && chunks[..|chunks|] == chunks;
      PushTracks(read, Feed(read, chunks[..n]), Concat(chunks[..n]), Concat(chunks[..k]), chunks[n]);
      if k == n {
        assert chunks[..n][..k] == chunks[..n];
      } else {
        BrokenStaysBroken(read, Concat(chunks[..n]), chunks[n]);
      }
    }
  }

  lemma NothingFed<V>(read: Reader<V>)
    requires Incremental(read)
    ensures Tracks(read, Run([], []), [], [])
  {
  }

  function RejectionOf<V>(d: Drained<V>): Option<PushResult<V>> {
    if d.broken.Some? then Some(Rejected(d.broken.value)) else None
  }

  lemma Regroup(whole: Bytes, sound: Bytes, chunk: Bytes, used: nat)
    requires sound <= whole && used <= |sound|
    ensures whole[used..] + chunk == (whole + chunk)[used..]
    ensures sound[used..] + (whole[|sound|..] + chunk) == (whole + chunk)[used..]
    ensures sound + (whole[|sound|..] + chunk) == whole + chunk
  {
    assert whole == sound + whole[|sound|..];
  }

  /** One more chunk. */
  lemma PushTracks<V>(read: Reader<V>, run: Run<V>, whole: Bytes, sound: Bytes, chunk: Bytes)
    requires Incremental(read) && Tracks(read, run, whole, sound)
    ensures var p, all := Push(read, run.buffer, chunk), Drain(read, whole + chunk);
            && Tracks(read, Run(run.results + [p.result], p.buffer), whole + chunk,
                      if all.broken.None? then whole + chunk else sound)
            && (all.broken.None? <==> p.result.Delivered?)
            && (all.broken.Some? ==> Some(p.result) == RejectionOf(all))
  {
    var d, p := Drain(read, sound), Push(read, run.buffer, chunk);
    Regroup(whole, sound, chunk, d.used);
    DrainSplits(read, sound, whole[|sound|..] + chunk);
    var rest := Drain(read, run.buffer + chunk);
    assert Drain(read, whole + chunk) == d.Then(rest);
    assert (run.buffer + chunk)[rest.used..] == (whole + chunk)[d.used + rest.used..];
    DeliveredByExtends(run.results, p.result);
  }

  lemma DeliveredByExtends<V>(results: seq<PushResult<V>>, r: PushResult<V>)
    ensures DeliveredBy(results + [r]) == DeliveredBy(results) + (if r.Delivered? then r.values else [])
  {
    assert (results + [r])[..|results|] == results;
  }

  /** A well-formed stream: no push throws and, however it was cut, the pushes together deliver
      what one push of everything delivers and keep the same unread tail. */
  lemma ChunkingIsInvisible<V>(read: Reader<V>, chunks: seq<Bytes>)
    requires Incremental(read)
    requires Drain(read, Concat(chunks)).broken.None?
    ensures forall i :: 0 <= i < |chunks| ==> Feed(read, chunks).results[i].Delivered?
    ensures DeliveredBy(Feed(read, chunks).results) == Drain(read, Concat(chunks)).values
    ensures Push(read, [], Concat(chunks))
         == Pushed(Delivered(DeliveredBy(Feed(read, chunks).results)), Feed(read, chunks).buffer)
  {
    FeedTracks(read, chunks);
    SoundRun(read, Feed(read, chunks), Concat(chunks), Concat(chunks[..SoundChunks(read, chunks)]));
  }

  /** The same for the parser of this repository. */
  lemma ChunkingIsInvisibleToResp(number: NumberOf, chunks: seq<Bytes>)
    requires DrainResp(number, Concat(chunks)).broken.None?
    ensures forall i :: 0 <= i < |chunks| ==> FeedResp(number, chunks).results[i].Delivered?
    ensures DeliveredBy(FeedResp(number, chunks).results) == DrainResp(number, Concat(chunks)).values
  {
    hide Parse, Feed, Drain, Incremental;
    RespReaderIsIncremental(number);
    ChunkingIsInvisible(RespReader(number), chunks);
  }

  lemma SoundRun<V>(read: Reader<V>, run: Run<V>, whole: Bytes, sound: Bytes)
    requires Incremental(read) && Tracks(read, run, whole, sound)
    ensures DeliveredBy(run.results) <= Drain(read, whole).values
    ensures Drain(read, whole).broken.None? ==>
              && DeliveredBy(run.results) == Drain(read, whole).values
              && Push(read, [], whole) == Pushed(Delivered(DeliveredBy(run.results)), run.buffer)
  {
    assert [] + whole == whole == sound + whole[|sound|..];
    DrainSplits(read, sound, whole[|sound|..]);
  }

  /** A malformed stream: from the offending chunk on, every push throws the stream's error. */
  lemma MalformedStreamsKeepThrowing<V>(read: Reader<V>, chunks: seq<Bytes>)
    requires Incremental(read)
    requires Drain(read, Concat(chunks)).broken.Some?
    ensures SoundChunks(read, chunks) < |chunks|
    ensures forall i :: 0 <= i < |chunks| ==>
              if i < SoundChunks(read, chunks) then Feed(read, chunks).results[i].Delivered?
              else Some(Feed(read, chunks).results[i]) == RejectionOf(Drain(read, Concat(chunks)))
  {
    hide Feed, Drain, Concat, SoundChunks, RejectionOf;
    FeedTracks(read, chunks);
  }

  /** What was delivered by then is what the earlier chunks hold, a prefix of what precedes the error. */
  lemma MalformedStreamsDeliverAPrefix<V>(read: Reader<V>, chunks: seq<Bytes>)
    requires Incremental(read)
    requires Drain(read, Concat(chunks)).broken.Some?
    ensures DeliveredBy(Feed(read, chunks).results)
         == Drain(read, Concat(chunks[..SoundChunks(read, chunks)])).values
    ensures DeliveredBy(Feed(read, chunks).results) <= Drain(read, Concat(chunks)).values
  {
    FeedTracks(read, chunks);
    SoundRun(read, Feed(read, chunks), Concat(chunks), Concat(chunks[..SoundChunks(read, chunks)]));
  }

  /** One cutting of a stream throws exactly when every other cutting of it does. */
  lemma ThrowingIsAboutTheBytes<V>(read: Reader<V>, one: seq<Bytes>, other: seq<Bytes>)
    requires Incremental(read)
    requires Concat(one) == Concat(other)
    ensures (exists i :: 0 <= i < |one| && Feed(read, one).results[i].Rejected?)
       <==> (exists i :: 0 <= i < |other| && Feed(read, other).results[i].Rejected?)
  {
    ThrowsIffBroken(read, one);
    ThrowsIffBroken(read, other);
  }

  lemma ThrowsIffBroken<V>(read: Reader<V>, chunks: seq<Bytes>)
    requires Incremental(read)
    ensures (exists i :: 0 <= i < |chunks| && Feed(read, chunks).results[i].Rejected?)
       <==> Drain(read, Concat(chunks)).broken.Some?
  {
    if Drain(read, Concat(chunks)).broken.Some? {
      MalformedStreamsKeepThrowing(read, chunks);
      assert Feed(read, chunks).results[SoundChunks(read, chunks)].Rejected?;
    } else {
      ChunkingIsInvisible(read, chunks);
    }
  }
}
