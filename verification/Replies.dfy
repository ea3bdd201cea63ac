/** Redis replies as JavaScript values, and their RESP2 form (src/translate/response.ts). Strings are the bytes
    of their UTF-8 text. */
module Replies {
  import opened Wrappers
  import opened Bytes

  datatype Num = Finite(r: real) | PositiveInfinity | NegativeInfinity | NotANumber

  datatype Reply =
    | Null
    | Undefined
    | Bool(b: bool)
    | Number(n: Num)
    | Str(text: Bytes)
    | List(items: seq<Reply>)
    | Binary(bytes: Bytes)                        // Buffer, typed array, ArrayBuffer
    | MapOf(entries: seq<Entry>)         // JavaScript Map, keys already through String()
    | SetOf(items: seq<Reply>)
    | Dictionary(entries: seq<Entry>)    // plain object
    | BigInt(i: int)
    | Failure(message: Bytes)                     // an Error object: no enumerable properties

  datatype Entry = Entry(key: Bytes, value: Reply)

  datatype DepthError = TooDeep

  const MAX_NORMALIZE_DEPTH: nat := 64

  const INF: Bytes := AsciiBytes("inf")
  const NEG_INF: Bytes := AsciiBytes("-inf")
  const NAN: Bytes := AsciiBytes("nan")

  function Normalize(v: Reply, depth: nat): Result<Reply, DepthError>
    decreases v
  {
    if depth > MAX_NORMALIZE_DEPTH then Threw(TooDeep) else
      match v
      case Null => Ok(Null)
      case Undefined => Ok(Null)
      case Bool(b) => Ok(Number(Finite(if b then 1.0 else 0.0)))
      case Number(Finite(_)) => Ok(v)
      case Number(PositiveInfinity) => Ok(Str(INF))
      case Number(NegativeInfinity) => Ok(Str(NEG_INF))
      case Number(NotANumber) => Ok(Str(NAN))
      case Str(_) => Ok(v)
      case Binary(bytes) => Ok(Str(bytes))
      case BigInt(i) => Ok(Str(Decimal(i)))
      case Failure(_) => Ok(List([]))
      case List(items) => Listed(NormalizeAll(items, depth + 1))
      case SetOf(items) => Listed(NormalizeAll(items, depth + 1))
      case MapOf(entries) => Listed(NormalizeEntries(entries, depth + 1))
      case Dictionary(entries) => Listed(NormalizeEntries(entries, depth + 1))
  }

  function Listed(r: Result<seq<Reply>, DepthError>): Result<Reply, DepthError> {
    match r
    case Ok(items) => Ok(List(items))
    case Threw(e) => Threw(e)
  }

  function NormalizeAll(vs: seq<Reply>, depth: nat): (r: Result<seq<Reply>, DepthError>)
    ensures r.Ok? ==> |r.value| == |vs|
    decreases vs
  {
    if vs == [] then Ok([]) else
      match Normalize(vs[0], depth)
      case Threw(e) => Threw(e)
      case Ok(w) =>
        match NormalizeAll(vs[1..], depth)
        case Threw(e) => Threw(e)
        case Ok(ws) => Ok([w] + ws)
  }

  /** Keys and values in turn. */
  function NormalizeEntries(es: seq<Entry>, depth: nat): (r: Result<seq<Reply>, DepthError>)
    ensures r.Ok? ==> |r.value| == 2 * |es|
    decreases es
  {
    if es == [] then Ok([]) else
      match Normalize(es[0].value, depth)
      case Threw(e) => Threw(e)
      case Ok(w) =>
        match NormalizeEntries(es[1..], depth)
        case Threw(e) => Threw(e)
        case Ok(ws) => Ok([Str(es[0].key), w] + ws)
  }

  // ---- The function as it is written: loops over the entries ----

  method NormalizeResp3(v: Reply, depth: nat) returns (r: Result<Reply, DepthError>)
    ensures r == Normalize(v, depth)
    decreases v, 1
  {
    if depth > MAX_NORMALIZE_DEPTH {
      return Threw(TooDeep);
    }
    match v {
      case Null => return Ok(Null);
      case Undefined => return Ok(Null);
      case Bool(b) => return Ok(Number(Finite(if b then 1.0 else 0.0)));
      case Number(n) =>
        return Ok(match n
                  case Finite(_) => v
                  case PositiveInfinity => Str(INF)
                  case NegativeInfinity => Str(NEG_INF)
                  case NotANumber => Str(NAN));
      case Str(_) => return Ok(v);
      case Binary(bytes) => return Ok(Str(bytes));
      case BigInt(i) => return Ok(Str(Decimal(i)));
      case Failure(_) => return Ok(List([]));
      case List(items) => r := NormalizeElements(items, depth);
      case SetOf(items) => r := NormalizeElements(items, depth);
      case MapOf(entries) => r := FlattenEntries(entries, depth);
      case Dictionary(entries) => r := FlattenEntries(entries, depth);
    }
  }

  /** What is still to come, put behind what is there. */
  function Behind(done: seq<Reply>, rest: Result<seq<Reply>, DepthError>): Result<Reply, DepthError> {
    match rest
    case Ok(ws) => Ok(List(done + ws))
    case Threw(e) => Threw(e)
  }

  method NormalizeElements(items: seq<Reply>, depth: nat) returns (r: Result<Reply, DepthError>)
    ensures r == Listed(NormalizeAll(items, depth + 1))
    decreases items, 0
  {
    var flat: seq<Reply>, i := [], 0;
    BehindNothing(NormalizeAll(items, depth + 1));
    assert items[0..] == items;
    while i < |items|
      invariant 0 <= i <= |items|
      invariant Listed(NormalizeAll(items, depth + 1)) == Behind(flat, NormalizeAll(items[i..], depth + 1))
    {
      var w := NormalizeResp3(items[i], depth + 1);
      BehindElement(flat, items[i..], depth + 1);
      if w.Threw? {
        return w;
      }
      assert items[i..][1..] == items[i + 1..];
      flat := flat + [w.value];
      i := i + 1;
    }
    assert flat + [] == flat;
    return Ok(List(flat));
  }

  method FlattenEntries(entries: seq<Entry>, depth: nat) returns (r: Result<Reply, DepthError>)
    ensures r == Listed(NormalizeEntries(entries, depth + 1))
    decreases entries, 0
  {
    var flat: seq<Reply>, i := [], 0;
    BehindNothing(NormalizeEntries(entries, depth + 1));
    assert entries[0..] == entries;
    while i < |entries|
      invariant 0 <= i <= |entries|
      invariant Listed(NormalizeEntries(entries, depth + 1)) == Behind(flat, NormalizeEntries(entries[i..], depth + 1))
    {
      var w := NormalizeResp3(entries[i].value, depth + 1);
      BehindEntry(flat, entries[i..], depth + 1);
      if w.Threw? {
        return w;
      }
      assert entries[i..][1..] == entries[i + 1..];
      flat := flat + [Str(entries[i].key), w.value];
      i := i + 1;
    }
    assert flat + [] == flat;
    return Ok(List(flat));
  }

  lemma BehindNothing(rest: Result<seq<Reply>, DepthError>)
    ensures Behind([], rest) == Listed(rest)
  {
    if rest.Ok? {
      assert [] + rest.value == rest.value;
    }
  }

  lemma BehindElement(done: seq<Reply>, vs: seq<Reply>, depth: nat)
    requires vs != []
    ensures Normalize(vs[0], depth).Threw? ==> Behind(done, NormalizeAll(vs, depth)) == Normalize(vs[0], depth)
    ensures Normalize(vs[0], depth).Ok? ==>
              Behind(done, NormalizeAll(vs, depth))
                == Behind(done + [Normalize(vs[0], depth).value], NormalizeAll(vs[1..], depth))
  {
    hide Normalize;
    var w, rest := Normalize(vs[0], depth), NormalizeAll(vs[1..], depth);
    if w.Ok? && rest.Ok? {
      assert done + ([w.value] + rest.value) == (done + [w.value]) + rest.value;
    }
  }

  lemma BehindEntry(done: seq<Reply>, es: seq<Entry>, depth: nat)
    requires es != []
    ensures Normalize(es[0].value, depth).Threw? ==>
              Behind(done, NormalizeEntries(es, depth)) == Normalize(es[0].value, depth)
    ensures Normalize(es[0].value, depth).Ok? ==>
              Behind(done, NormalizeEntries(es, depth))
                == Behind(done + [Str(es[0].key), Normalize(es[0].value, depth).value],
                          NormalizeEntries(es[1..], depth))
  {
    hide Normalize;
    var w, rest := Normalize(es[0].value, depth), NormalizeEntries(es[1..], depth);
    if w.Ok? && rest.Ok? {
      var pair := [Str(es[0].key), w.value];
      assert done + (pair + rest.value) == (done + pair) + rest.value;
    }
  }

  // ---- When it throws ----

  function Values(es: seq<Entry>): (vs: seq<Reply>)
    ensures |vs| == |es| && forall i :: 0 <= i < |es| ==> vs[i] == es[i].value
  {
    seq(|es|, i requires 0 <= i < |es| => es[i].value)
  }

  /** `v` holds a value `level` containers down. */
  ghost predicate ReachesLevel(v: Reply, level: nat)
    decreases level, 0
  {
    level == 0
    || (match v
        case List(items) => SomeReaches(items, level - 1)
        case SetOf(items) => SomeReaches(items, level - 1)
        case MapOf(entries) => SomeReaches(Values(entries), level - 1)
        case Dictionary(entries) => SomeReaches(Values(entries), level - 1)
        case _ => false)
  }

  ghost predicate SomeReaches(vs: seq<Reply>, level: nat)
    decreases level, 1
  {
    exists i :: 0 <= i < |vs| && ReachesLevel(vs[i], level)
  }

  /** Normalization throws exactly when some value lies more than 64 levels down. */
  lemma {:induction false} ThrowsExactlyWhenTooDeep(v: Reply, depth: nat)
    requires depth <= MAX_NORMALIZE_DEPTH + 1
    ensures Normalize(v, depth).Threw? <==> ReachesLevel(v, MAX_NORMALIZE_DEPTH + 1 - depth)
    decreases v
  {
    if depth <= MAX_NORMALIZE_DEPTH {
      match v {
        case List(items) => AllThrowExactlyWhenTooDeep(items, depth + 1);
        case SetOf(items) => AllThrowExactlyWhenTooDeep(items, depth + 1);
        case MapOf(entries) => EntriesThrowExactlyWhenTooDeep(entries, depth + 1);
        case Dictionary(entries) => EntriesThrowExactlyWhenTooDeep(entries, depth + 1);
        case _ =>
      }
    }
  }

  lemma {:induction false} AllThrowExactlyWhenTooDeep(vs: seq<Reply>, depth: nat)
    requires depth <= MAX_NORMALIZE_DEPTH + 1
    ensures NormalizeAll(vs, depth).Threw? <==> SomeReaches(vs, MAX_NORMALIZE_DEPTH + 1 - depth)
    decreases vs
  {
    hide Normalize, ReachesLevel;
    if vs != [] {
      ThrowsExactlyWhenTooDeep(vs[0], depth);
      AllThrowExactlyWhenTooDeep(vs[1..], depth);
      ReachingSplits(vs, MAX_NORMALIZE_DEPTH + 1 - depth);
    }
  }

  lemma {:induction false} EntriesThrowExactlyWhenTooDeep(es: seq<Entry>, depth: nat)
    requires depth <= MAX_NORMALIZE_DEPTH + 1
    ensures NormalizeEntries(es, depth).Threw? <==> SomeReaches(Values(es), MAX_NORMALIZE_DEPTH + 1 - depth)
    decreases es
  {
    hide Normalize, ReachesLevel;
    if es != [] {
      ThrowsExactlyWhenTooDeep(es[0].value, depth);
      EntriesThrowExactlyWhenTooDeep(es[1..], depth);
      ReachingSplits(Values(es), MAX_NORMALIZE_DEPTH + 1 - depth);
      assert Values(es)[1..] == Values(es[1..]);
    }
  }

  lemma ReachingSplits(vs: seq<Reply>, level: nat)
    requires vs != []
    ensures SomeReaches(vs, level) <==> ReachesLevel(vs[0], level) || SomeReaches(vs[1..], level)
  {
    hide ReachesLevel;
    if SomeReaches(vs[1..], level) {
      var i :| 0 <= i < |vs[1..]| && ReachesLevel(vs[1..][i], level);
      assert ReachesLevel(vs[i + 1], level);
    }
    if SomeReaches(vs, level) && !ReachesLevel(vs[0], level) {
      var i :| 0 <= i < |vs| && ReachesLevel(vs[i], level);
      assert vs[1..][i - 1] == vs[i];
    }
  }

  // ---- What it yields ----

  /** Null, finite numbers, strings, and lists of these. */
  predicate Canonical(v: Reply) {
    match v
    case Null => true
    case Number(n) => n.Finite?
    case Str(_) => true
    case List(items) => AllCanonical(items)
    case _ => false
  }

  predicate AllCanonical(vs: seq<Reply>) {
    vs == [] || (Canonical(vs[0]) && AllCanonical(vs[1..]))
  }

  /** The outcome is canonical and normalizing it again changes nothing. */
  lemma {:induction false} NormalizingIsCanonical(v: Reply, depth: nat)
    requires Normalize(v, depth).Ok?
    ensures Canonical(Normalize(v, depth).value)
    ensures Normalize(Normalize(v, depth).value, depth) == Normalize(v, depth)
    decreases v
  {
    match v {
      case List(items) => NormalizingAllIsCanonical(items, depth + 1);
      case SetOf(items) => NormalizingAllIsCanonical(items, depth + 1);
      case MapOf(entries) => NormalizingEntriesIsCanonical(entries, depth + 1, depth);
      case Dictionary(entries) => NormalizingEntriesIsCanonical(entries, depth + 1, depth);
      case _ =>
    }
  }

  lemma {:induction false} NormalizingAllIsCanonical(vs: seq<Reply>, depth: nat)
    requires NormalizeAll(vs, depth).Ok?
    ensures AllCanonical(NormalizeAll(vs, depth).value)
    ensures NormalizeAll(NormalizeAll(vs, depth).value, depth) == NormalizeAll(vs, depth)
    decreases vs
  {
    hide Normalize, Canonical;
    if vs != [] {
      NormalizingIsCanonical(vs[0], depth);
      NormalizingAllIsCanonical(vs[1..], depth);
      var ws := NormalizeAll(vs, depth).value;
      assert ws[1..] == NormalizeAll(vs[1..], depth).value;
    }
  }

  lemma {:induction false} NormalizingEntriesIsCanonical(es: seq<Entry>, depth: nat, outer: nat)
    requires NormalizeEntries(es, depth).Ok? && depth == outer + 1 && outer <= MAX_NORMALIZE_DEPTH
    ensures AllCanonical(NormalizeEntries(es, depth).value)
    ensures NormalizeAll(NormalizeEntries(es, depth).value, depth) == NormalizeEntries(es, depth)
    decreases es
  {
    hide Normalize, Canonical;
    if es != [] {
      var w, ws := Normalize(es[0].value, depth).value, NormalizeEntries(es[1..], depth).value;
      NormalizingIsCanonical(es[0].value, depth);
      NormalizingEntriesIsCanonical(es[1..], depth, outer);
      KeysAreCanonical(es[0].key, es[0].value, depth);
      var all := [Str(es[0].key)] + ([w] + ws);
      assert NormalizeEntries(es, depth).value == all;
      assert all[1..] == [w] + ws && ([w] + ws)[1..] == ws;
    }
  }

  lemma KeysAreCanonical(key: Bytes, value: Reply, depth: nat)
    requires Normalize(value, depth).Ok?
    ensures Canonical(Str(key)) && Normalize(Str(key), depth) == Ok(Str(key))
  {
  }

  /** A map becomes its keys and normalized values in turn, in entry order. */
  lemma {:induction false} MapsAlternate(es: seq<Entry>, depth: nat, i: nat)
    requires NormalizeEntries(es, depth).Ok? && i < |es|
    ensures NormalizeEntries(es, depth).value[2 * i] == Str(es[i].key)
    ensures Normalize(es[i].value, depth) == Ok(NormalizeEntries(es, depth).value[2 * i + 1])
    decreases es
  {
    hide Normalize;
    if i > 0 {
      MapsAlternate(es[1..], depth, i - 1);
    }
  }

  /** A map reply, of either kind, is a list of twice its length: each key, in entry order, and behind it what its
      value normalizes to one level down. */
  lemma MapRepliesAlternate(v: Reply, depth: nat, i: nat)
    requires (v.MapOf? || v.Dictionary?) && Normalize(v, depth).Ok? && i < |v.entries|
    ensures var r := Normalize(v, depth).value;
            && r.List? && |r.items| == 2 * |v.entries|
            && r.items[2 * i] == Str(v.entries[i].key)
            && Normalize(v.entries[i].value, depth + 1) == Ok(r.items[2 * i + 1])
  {
    MapsAlternate(v.entries, depth + 1, i);
  }

  lemma {:induction false} ElementsKeepTheirPlaces(vs: seq<Reply>, depth: nat, i: nat)
    requires NormalizeAll(vs, depth).Ok? && i < |vs|
    ensures Normalize(vs[i], depth) == Ok(NormalizeAll(vs, depth).value[i])
    decreases vs
  {
    hide Normalize;
    if i > 0 {
      ElementsKeepTheirPlaces(vs[1..], depth, i - 1);
    }
  }

  /** A list or a set reply is a list of the same length, with each element normalized in its place. */
  lemma CollectionsKeepTheirElements(v: Reply, depth: nat, i: nat)
    requires (v.List? || v.SetOf?) && Normalize(v, depth).Ok? && i < |v.items|
    ensures var r := Normalize(v, depth).value;
            && r.List? && |r.items| == |v.items|
            && Normalize(v.items[i], depth + 1) == Ok(r.items[i])
  {
    ElementsKeepTheirPlaces(v.items, depth + 1, i);
  }

  /** Empty collections are empty lists, and so is an error object, which has no entries. */
  lemma EmptyRepliesAreEmptyLists(depth: nat, message: Bytes)
    requires depth <= MAX_NORMALIZE_DEPTH
    ensures Normalize(List([]), depth) == Normalize(SetOf([]), depth) == Ok(List([]))
    ensures Normalize(MapOf([]), depth) == Normalize(Dictionary([]), depth) == Ok(List([]))
    ensures Normalize(Failure(message), depth) == Ok(List([]))
  {
  }

  /** Integers that RESP2 clients expect for booleans, text for binary data, and null for what is absent. */
  lemma ScalarsBecomeResp2(depth: nat, text: Bytes)
    requires depth <= MAX_NORMALIZE_DEPTH
    ensures Normalize(Bool(true), depth) == Ok(Number(Finite(1.0)))
    ensures Normalize(Bool(false), depth) == Ok(Number(Finite(0.0)))
    ensures Normalize(Str(text), depth) == Normalize(Binary(text), depth) == Ok(Str(text))
    ensures Normalize(Null, depth) == Normalize(Undefined, depth) == Ok(Null)
    ensures Normalize(Number(PositiveInfinity), depth) == Ok(Str(AsciiBytes("inf")))
    ensures Normalize(Number(NegativeInfinity), depth) == Ok(Str(AsciiBytes("-inf")))
    ensures Normalize(Number(NotANumber), depth) == Ok(Str(AsciiBytes("nan")))
  {
  }

  /** The number a normalized reply stands for, as Redis writes it. */
  function NumberIn(v: Reply): Option<Num> {
    match v
    case Number(n) => Some(n)
    case Str(text) =>
      if text == INF then Some(PositiveInfinity)
      else if text == NEG_INF then Some(NegativeInfinity)
      else if text == NAN then Some(NotANumber)
      else None
    case _ => None
  }

  /** Numbers keep their value, the infinite ones included, and different big integers stay different. */
  lemma NumbersSurvive(n: Num, i: int, j: int, depth: nat)
    requires depth <= MAX_NORMALIZE_DEPTH
    ensures Normalize(Number(n), depth).Ok? && NumberIn(Normalize(Number(n), depth).value) == Some(n)
    ensures Normalize(BigInt(i), depth) == Normalize(BigInt(j), depth) ==> i == j
  {
    assert |INF| == |NAN| == 3 && |NEG_INF| == 4 && INF[0] == 105 && NAN[0] == 110;
    if Normalize(BigInt(i), depth) == Normalize(BigInt(j), depth) {
      DecimalIsInjective(i, j);
    }
  }
}
