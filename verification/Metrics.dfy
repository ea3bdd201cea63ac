/** Request metrics (src/metrics.ts): the maps kept by `recordRequest`, and what the exposition says about the
    history of requests (Prometheus text format 0.0.4, "Histograms and summaries"). */
module Metrics {
  import opened Wrappers
  import opened Sets
  import Commands

  /** Seconds. */
  const BOUNDS: seq<real> := [0.005, 0.01, 0.025, 0.05, 0.1, 0.25, 0.5, 1.0, 2.5, 5.0, 10.0]

  // ---- Labels ----

  const METHODS: seq<string> := ["GET", "POST", "PUT", "DELETE", "PATCH", "HEAD", "OPTIONS", "OTHER"]
  const STATUSES: nat := 501    // "0" and 100 to 599

  function NormalizeMethod(method_: string): (m: string)
    ensures m in METHODS
    ensures m == "OTHER" <==> Commands.Upper(method_) !in METHODS[..7]
    ensures m != "OTHER" ==> m == Commands.Upper(method_)
  {
    var upper := Commands.Upper(method_);
    assert METHODS[7] == "OTHER";
    if upper in METHODS[..7] then upper else "OTHER"
  }

  function DigitChar(d: nat): char
    requires d < 10
  {
    (d + 48) as char
  }

  /** The i-th status label. */
  function StatusLabel(i: nat): (s: string)
    requires i < STATUSES
  {
    if i == 0 then "0" else
      var n := i + 99;
      [DigitChar(n / 100), DigitChar(n / 10 % 10), DigitChar(n % 10)]
  }

  /** A JavaScript number: NaN and the infinities are not finite. */
  datatype Status = Finite(r: real) | NotFinite

  predicate IsInteger(status: Status) {
    status.Finite? && status.r.Floor as real == status.r
  }

  function StatusIndex(status: Status): (i: nat)
    ensures i < STATUSES
  {
    if !IsInteger(status) || status.r < 100.0 || status.r > 599.0 then 0 else status.r.Floor - 99
  }

  function NormalizeStatus(status: Status): string {
    StatusLabel(StatusIndex(status))
  }

  /** The number a label spells. */
  function ReadLabel(digits: string): int {
    if digits == [] then 0 else 10 * ReadLabel(digits[..|digits| - 1]) + (digits[|digits| - 1] as int - 48)
  }

  lemma ThreeDigitsAreRead(a: char, b: char, c: char)
    ensures ReadLabel([a, b, c]) == 100 * (a as int - 48) + 10 * (b as int - 48) + (c as int - 48)
  {
    assert [a, b, c][..2] == [a, b] && [a, b][..1] == [a] && [a][..0] == [];
    assert ReadLabel([a]) == a as int - 48;
    assert ReadLabel([a, b]) == 10 * (a as int - 48) + (b as int - 48);
  }

  lemma LabelsSpellNumbers(i: nat)
    requires 0 < i < STATUSES
    ensures |StatusLabel(i)| == 3 && ReadLabel(StatusLabel(i)) == i + 99
  {
    hide ReadLabel;
    var n := i + 99;
    ThreeDigitsAreRead(DigitChar(n / 100), DigitChar(n / 10 % 10), DigitChar(n % 10));
    assert n / 10 == 10 * (n / 100) + n / 10 % 10;
  }

  /** The label is the status itself if that is an integer from 100 to 599, and "0" for everything else, NaN and
      the infinities included. */
  lemma StatusesAreSpelled(status: Status)
    ensures NormalizeStatus(status) != "0" <==> IsInteger(status) && 100.0 <= status.r <= 599.0
    ensures NormalizeStatus(status) != "0" ==> ReadLabel(NormalizeStatus(status)) as real == status.r
  {
    hide ReadLabel, StatusLabel;
    var i := StatusIndex(status);
    if i > 0 {
      LabelsSpellNumbers(i);
    } else {
      assert StatusLabel(0) == "0" by { ZeroLabel(); }
    }
  }

  lemma ZeroLabel()
    ensures StatusLabel(0) == "0"
  {
  }

  lemma ThreeDigitsDiffer(m: nat, n: nat)
    requires m < 1000 && n < 1000
    requires m / 100 == n / 100 && m / 10 % 10 == n / 10 % 10 && m % 10 == n % 10
    ensures m == n
  {
    assert m / 10 == 10 * (m / 100) + m / 10 % 10;
    assert n / 10 == 10 * (n / 100) + n / 10 % 10;
  }

  lemma StatusLabelsDiffer(i: nat, j: nat)
    requires i < STATUSES && j < STATUSES && StatusLabel(i) == StatusLabel(j)
    ensures i == j
  {
    var a, b := StatusLabel(i), StatusLabel(j);
    if i > 0 && j > 0 {
      assert a[0] == b[0] && a[1] == b[1] && a[2] == b[2];
      ThreeDigitsDiffer(i + 99, j + 99);
    } else {
      assert |a| == |b|;
    }
  }

  function Key(m: string, s: string): string {
    m + ":" + s
  }

  /** `key.split(":")`, for a key with one colon. */
  function SplitKey(key: string): (string, string) {
    if key == [] then ("", "")
    else if key[0] == ':' then ("", key[1..])
    else
      var (m, s) := SplitKey(key[1..]);
      ([key[0]] + m, s)
  }

  lemma {:induction false} KeysSplit(m: string, s: string)
    requires ':' !in m
    ensures SplitKey(Key(m, s)) == (m, s)
  {
    if m == [] {
      assert Key(m, s)[1..] == s;
    } else {
      KeysSplit(m[1..], s);
      assert Key(m, s)[1..] == Key(m[1..], s);
      assert [m[0]] + m[1..] == m;
    }
  }

  lemma MethodsHaveNoColon(m: string)
    requires m in METHODS
    ensures ':' !in m
  {
  }

  // ---- The history ----

  datatype Request = Request(verb: string, status: Status, seconds: real)

  function Verb(r: Request): string {
    NormalizeMethod(r.verb)
  }

  function RequestKey(r: Request): string {
    Key(Verb(r), NormalizeStatus(r.status))
  }

  function Occurrences(history: seq<Request>, key: string): nat {
    if history == [] then 0
    else Occurrences(history[..|history| - 1], key) + if RequestKey(history[|history| - 1]) == key then 1 else 0
  }

  function Total(history: seq<Request>, m: string): nat {
    if history == [] then 0
    else Total(history[..|history| - 1], m) + if Verb(history[|history| - 1]) == m then 1 else 0
  }

  function Seconds(history: seq<Request>, m: string): real {
    if history == [] then 0.0
    else
      Seconds(history[..|history| - 1], m)
        + if Verb(history[|history| - 1]) == m then history[|history| - 1].seconds else 0.0
  }

  /** How many requests of method m took at most `bound` seconds. */
  function AtMost(history: seq<Request>, m: string, bound: real): (n: nat)
    ensures n <= Total(history, m)
  {
    if history == [] then 0 else
      var last := history[|history| - 1];
      AtMost(history[..|history| - 1], m, bound) + if Verb(last) == m && last.seconds <= bound then 1 else 0
  }

  // ---- The maps ----

  datatype Histogram = Histogram(buckets: seq<nat>, sum: real, count: nat)

  datatype Tables = Tables(counts: map<string, nat>, histograms: map<string, Histogram>)

  function Zeros(n: nat): (zeros: seq<nat>)
    ensures |zeros| == n && forall i :: 0 <= i < n ==> zeros[i] == 0
  {
    seq(n, i => 0)
  }

  const EMPTY: Histogram := Histogram(Zeros(|BOUNDS|), 0.0, 0)

  function CountAt(counts: map<string, nat>, key: string): nat {
    if key in counts then counts[key] else 0
  }

  function HistogramAt(histograms: map<string, Histogram>, m: string): Histogram {
    if m in histograms then histograms[m] else EMPTY
  }

  /** The first bucket whose bound the duration does not exceed. */
  function FirstBucket(seconds: real, from: nat): (i: nat)
    requires from <= |BOUNDS|
    ensures from <= i <= |BOUNDS|
    ensures forall k :: from <= k < i ==> seconds > BOUNDS[k]
    ensures i < |BOUNDS| ==> seconds <= BOUNDS[i]
    decreases |BOUNDS| - from
  {
    if from == |BOUNDS| then from
    else if seconds <= BOUNDS[from] then from
    else FirstBucket(seconds, from + 1)
  }

  function Bump(buckets: seq<nat>, i: nat): (r: seq<nat>)
    ensures |r| == |buckets|
  {
    if i < |buckets| then buckets[i := buckets[i] + 1] else buckets
  }

  function Record(t: Tables, r: Request): Tables {
    var h := HistogramAt(t.histograms, Verb(r));
    Tables(t.counts[RequestKey(r) := CountAt(t.counts, RequestKey(r)) + 1],
           t.histograms[Verb(r) := Histogram(Bump(h.buckets, FirstBucket(r.seconds, 0)), h.sum + r.seconds,
                                             h.count + 1)])
  }

  function RecordAll(history: seq<Request>): Tables {
    if history == [] then Tables(map[], map[])
    else Record(RecordAll(history[..|history| - 1]), history[|history| - 1])
  }

  lemma RecordAllAppends(history: seq<Request>, r: Request)
    ensures RecordAll(history + [r]) == Record(RecordAll(history), r)
  {
    assert (history + [r])[..|history|] == history;
  }

  class MetricsRegistry {
    const enabled: bool
    var requestCounts: map<string, nat>
    var durationHistograms: map<string, Histogram>
    ghost var history: seq<Request>    // the requests recorded so far

    ghost predicate Valid()
      reads this
    {
      Tables(requestCounts, durationHistograms) == RecordAll(history)
    }

    constructor (enabled: bool)
      ensures Valid() && history == [] && this.enabled == enabled
    {
      this.enabled := enabled;
      requestCounts, durationHistograms, history := map[], map[], [];
    }

    method GetHistogram(m: string) returns (h: Histogram)
      modifies this`durationHistograms
      ensures h == HistogramAt(old(durationHistograms), m)
      ensures durationHistograms == old(durationHistograms)[m := h]
    {
      if m in durationHistograms {
        h := durationHistograms[m];
      } else {
        h := EMPTY;
        durationHistograms := durationHistograms[m := h];
      }
    }

    method RecordRequest(verb: string, status: Status, seconds: real)
      requires Valid()
      modifies this
      ensures Valid()
      ensures history == if enabled then old(history) + [Request(verb, status, seconds)] else old(history)
    {
      hide RecordAll, NormalizeMethod, NormalizeStatus, Key, Bump, FirstBucket, HistogramAt;
      if !enabled {
        return;
      }
      ghost var r := Request(verb, status, seconds);
      RecordAllAppends(history, r);
      var normalizedMethod := NormalizeMethod(verb);
      var counterKey := Key(normalizedMethod, NormalizeStatus(status));
      requestCounts := requestCounts[counterKey := CountAt(requestCounts, counterKey) + 1];
      var h := GetHistogram(normalizedMethod);
      HistogramsHaveAllBuckets(history, normalizedMethod);
      var bucket := FindBucket(seconds);
      var updated := Histogram(Bump(h.buckets, bucket), h.sum + seconds, h.count + 1);
      assert durationHistograms[normalizedMethod := updated] == old(durationHistograms)[normalizedMethod := updated];
      durationHistograms := durationHistograms[normalizedMethod := updated];
      history := history + [r];
    }

    /** The loop of `recordRequest`: the number of the first bucket that fits, or one past the last. */
    method FindBucket(seconds: real) returns (i: nat)
      ensures i == FirstBucket(seconds, 0)
    {
      i := 0;
      while i < |BOUNDS|
        invariant i <= |BOUNDS|
        invariant FirstBucket(seconds, 0) == FirstBucket(seconds, i)
      {
        if seconds <= BOUNDS[i] {
          return;
        }
        i := i + 1;
      }
    }

    /** The histogram lines of one method in the exposition: running totals, then +Inf and sum. */
    method FormatBuckets(m: string) returns (cumulative: seq<nat>, inf: nat, sum: real)
      requires Valid() && m in durationHistograms
      ensures |cumulative| == |BOUNDS|
      ensures forall i :: 0 <= i < |BOUNDS| ==> cumulative[i] == AtMost(history, m, BOUNDS[i])
      ensures inf == Total(history, m)
      ensures sum == Seconds(history, m)
    {
      hide RecordAll, AtMost, Total, Seconds;
      var h := durationHistograms[m];
      HistogramsHaveAllBuckets(history, m);
      HistogramCountsRequests(history, m);
      cumulative := [];
      var running: nat := 0;
      for i := 0 to |BOUNDS|
        invariant |cumulative| == i && running == SumTo(h.buckets, i)
        invariant forall k :: 0 <= k < i ==> cumulative[k] == AtMost(history, m, BOUNDS[k])
      {
        running := running + h.buckets[i];
        BucketsAccumulate(history, m, i);
        cumulative := cumulative + [running];
      }
      inf, sum := h.count, h.sum;
    }
  }

  // ---- The exposition agrees with the history ----

  function SumTo(buckets: seq<nat>, n: nat): nat
    requires n <= |buckets|
  {
    if n == 0 then 0 else SumTo(buckets, n - 1) + buckets[n - 1]
  }

  lemma {:induction false} HistogramsHaveAllBuckets(history: seq<Request>, m: string)
    ensures |HistogramAt(RecordAll(history).histograms, m).buckets| == |BOUNDS|
  {
    if history != [] {
      HistogramsHaveAllBuckets(history[..|history| - 1], m);
    }
  }

  lemma {:induction false} HistogramCountsRequests(history: seq<Request>, m: string)
    ensures HistogramAt(RecordAll(history).histograms, m).count == Total(history, m)
    ensures HistogramAt(RecordAll(history).histograms, m).sum == Seconds(history, m)
    ensures m in RecordAll(history).histograms <==> Total(history, m) > 0
  {
    hide Bump, FirstBucket, NormalizeMethod, RequestKey, CountAt;
    if history != [] {
      HistogramCountsRequests(history[..|history| - 1], m);
    }
  }

  lemma {:induction false} SumOfBump(buckets: seq<nat>, i: nat, n: nat)
    requires n <= |buckets|
    ensures SumTo(Bump(buckets, i), n) == SumTo(buckets, n) + if i < n then 1 else 0
  {
    if n > 0 {
      SumOfBump(buckets, i, n - 1);
    }
  }

  lemma {:induction false} SumOfEmpty(n: nat)
    requires n <= |BOUNDS|
    ensures SumTo(EMPTY.buckets, n) == 0
  {
    if n > 0 {
      SumOfEmpty(n - 1);
    }
  }

  lemma BoundsAscend(i: nat, j: nat)
    requires i <= j < |BOUNDS|
    ensures BOUNDS[i] <= BOUNDS[j]
  {
  }

  lemma BucketDecidesBound(seconds: real, i: nat)
    requires i < |BOUNDS|
    ensures FirstBucket(seconds, 0) <= i <==> seconds <= BOUNDS[i]
  {
    var f := FirstBucket(seconds, 0);
    if f <= i {
      BoundsAscend(f, i);
    }
  }

  lemma OneBucketMoves(t: Tables, r: Request, m: string)
    ensures HistogramAt(Record(t, r).histograms, m).buckets
         == if Verb(r) == m then Bump(HistogramAt(t.histograms, m).buckets, FirstBucket(r.seconds, 0))
            else HistogramAt(t.histograms, m).buckets
  {
    hide Bump, FirstBucket, NormalizeMethod;
  }

  /** Cumulative bucket i is the number of recorded durations at or below its bound. */
  lemma {:induction false} BucketsAccumulate(history: seq<Request>, m: string, i: nat)
    requires i < |BOUNDS|
    ensures |HistogramAt(RecordAll(history).histograms, m).buckets| == |BOUNDS|
    ensures SumTo(HistogramAt(RecordAll(history).histograms, m).buckets, i + 1) == AtMost(history, m, BOUNDS[i])
  {
    hide SumTo, FirstBucket, Bump, NormalizeMethod, Record;
    HistogramsHaveAllBuckets(history, m);
    if history == [] {
      SumOfEmpty(i + 1);
    } else {
      var before, last := history[..|history| - 1], history[|history| - 1];
      BucketsAccumulate(before, m, i);
      OneBucketMoves(RecordAll(before), last, m);
      if Verb(last) == m {
        SumOfBump(HistogramAt(RecordAll(before).histograms, m).buckets, FirstBucket(last.seconds, 0), i + 1);
        BucketDecidesBound(last.seconds, i);
      }
    }
  }

  /** Rendered buckets only grow, up to +Inf, which is the count. */
  lemma {:induction false} BucketsAreMonotone(history: seq<Request>, m: string, low: real, high: real)
    requires low <= high
    ensures AtMost(history, m, low) <= AtMost(history, m, high) <= Total(history, m)
  {
    if history != [] {
      BucketsAreMonotone(history[..|history| - 1], m, low, high);
    }
  }

  /** A counter is the number of requests with its labels, and is kept only if there was one. */
  lemma {:induction false} CountersCountRequests(history: seq<Request>, key: string)
    ensures CountAt(RecordAll(history).counts, key) == Occurrences(history, key)
    ensures key in RecordAll(history).counts <==> Occurrences(history, key) > 0
  {
    if history != [] {
      CountersCountRequests(history[..|history| - 1], key);
    }
  }

  /** The counters of method m with the first n status labels. */
  function CountersOf(counts: map<string, nat>, m: string, n: nat): nat
    requires n <= STATUSES
  {
    if n == 0 then 0 else CountersOf(counts, m, n - 1) + CountAt(counts, Key(m, StatusLabel(n - 1)))
  }

  lemma KeysDiffer(m: string, i: nat, m': string, j: nat)
    requires m in METHODS && m' in METHODS && i < STATUSES && j < STATUSES
    ensures Key(m, StatusLabel(i)) == Key(m', StatusLabel(j)) <==> m == m' && i == j
  {
    hide StatusLabel, Key;
    MethodsHaveNoColon(m);
    MethodsHaveNoColon(m');
    KeysSplit(m, StatusLabel(i));
    KeysSplit(m', StatusLabel(j));
    if StatusLabel(i) == StatusLabel(j) {
      StatusLabelsDiffer(i, j);
    }
  }

  lemma {:induction false} OneCounterMoves(counts: map<string, nat>, m: string, r: Request, n: nat)
    requires n <= STATUSES && m in METHODS
    ensures CountersOf(counts[RequestKey(r) := CountAt(counts, RequestKey(r)) + 1], m, n)
         == CountersOf(counts, m, n) + if Verb(r) == m && StatusIndex(r.status) < n then 1 else 0
  {
    hide StatusLabel, Key, NormalizeMethod, StatusIndex;
    if n > 0 {
      OneCounterMoves(counts, m, r, n - 1);
      KeysDiffer(m, n - 1, Verb(r), StatusIndex(r.status));
    }
  }

  /** A method's request counters sum to its histogram count. */
  lemma {:induction false} CountersSumToHistogram(history: seq<Request>, m: string)
    requires m in METHODS
    ensures CountersOf(RecordAll(history).counts, m, STATUSES)
         == HistogramAt(RecordAll(history).histograms, m).count
         == Total(history, m)
  {
    hide Key, StatusLabel, NormalizeMethod, StatusIndex, FirstBucket, Bump, CountersOf;
    HistogramCountsRequests(history, m);
    if history == [] {
      NoCounters(m, STATUSES);
    } else {
      var before, last := history[..|history| - 1], history[|history| - 1];
      CountersSumToHistogram(before, m);
      OneCounterMoves(RecordAll(before).counts, m, last, STATUSES);
    }
  }

  lemma {:induction false} NoCounters(m: string, n: nat)
    requires n <= STATUSES
    ensures CountersOf(map[], m, n) == 0
  {
    if n > 0 {
      NoCounters(m, n - 1);
    }
  }

  // ---- Bounded cardinality ----

  /** Every key there can be. */
  function PossibleKeys(): (keys: seq<string>)
    ensures |keys| == 8 * STATUSES
  {
    seq(8 * STATUSES, i requires 0 <= i < 8 * STATUSES => Key(METHODS[i / STATUSES], StatusLabel(i % STATUSES)))
  }

  lemma RequestKeyIsPossible(r: Request)
    ensures RequestKey(r) in PossibleKeys()
  {
    hide StatusLabel, Key, StatusIndex;
    var v :| 0 <= v < |METHODS| && METHODS[v] == Verb(r);
    var i := v * STATUSES + StatusIndex(r.status);
    assert i / STATUSES == v && i % STATUSES == StatusIndex(r.status);
    assert PossibleKeys()[i] == RequestKey(r);
  }

  lemma {:induction false} CounterKeysArePossible(history: seq<Request>)
    ensures forall key :: key in RecordAll(history).counts ==> key in PossibleKeys()
  {
    hide PossibleKeys, RequestKey;
    if history != [] {
      CounterKeysArePossible(history[..|history| - 1]);
      RequestKeyIsPossible(history[|history| - 1]);
    }
  }

  lemma {:induction false} ElementsBoundSet(s: seq<string>)
    ensures |set x | x in s| <= |s|
  {
    if s != [] {
      var all, rest := set x | x in s, set x | x in s[1..];
      ElementsBoundSet(s[1..]);
      assert all == rest + {s[0]};
    }
  }

  /** However many requests, with whatever methods and statuses, at most 8 x 501 counters exist. */
  lemma CountersAreBounded(history: seq<Request>)
    ensures |RecordAll(history).counts| <= 8 * STATUSES
  {
    hide PossibleKeys, RecordAll;
    CounterKeysArePossible(history);
    ElementsBoundSet(PossibleKeys());
    SubsetsAreSmaller(RecordAll(history).counts.Keys, set x | x in PossibleKeys());
  }
}
