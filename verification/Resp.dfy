/** What `RespParser` reads from a byte buffer (src/redis-pattern.ts), as a function of the
    bytes alone. The class in RespParser.dfy is proved equal to it. */
module Resp {
  import opened Wrappers
  import opened Bytes

  const MAX_RESP_DEPTH: nat := 64
  const MAX_BULK_LENGTH: nat := 64 * 1024 * 1024

  /** A JavaScript number, with the integers told apart from the rest. */
  datatype Num = Whole(value: int) | Fraction(digits: real) | Infinite(positive: bool) | NotANumber

  /** JavaScript's `Number(text)`. It stays a parameter: the parser asks it only for a value,
      and only the round trips need it to read back decimal integers. */
  type NumberOf = Bytes -> Num

  ghost predicate ReadsDecimals(number: NumberOf) {
    forall n: int :: number(Decimal(n)) == Whole(n)
  }

  datatype Value =
    | Text(bytes: Bytes)
    | Failure(message: Bytes)
    | Number(num: Num)
    | Flag(on: bool)
    | Nil
    | Items(items: seq<Value>)

  datatype Reason =
    | TooDeep
    | BadPrefix(prefix: byte)
    | BadBulkLength(text: Bytes)
    | BulkTooLong(length: int)
    | BadTerminator
    | BadArrayLength(text: Bytes)

  /** `Incomplete` is the source's `undefined`, `Broken` its thrown errors. */
  datatype Parsed<+T> = Incomplete | Broken(reason: Reason) | Done(value: T, used: nat)

  /** `Buffer.indexOf("\r\n")`. */
  function FindCrlf(b: Bytes): (r: Option<nat>)
    ensures r.Some? ==> r.value + 2 <= |b| && b[r.value] == CR && b[r.value + 1] == LF
    ensures forall i :: 0 <= i < |b| - 1 && (r.Some? ==> i < r.value) ==> !(b[i] == CR && b[i + 1] == LF)
  {
    if |b| < 2 then None
    else if b[0] == CR && b[1] == LF then Some(0)
    else
      match FindCrlf(b[1..])
      case None =>
        assert forall i :: 1 <= i < |b| - 1 ==> b[i] == b[1..][i - 1] && b[i + 1] == b[1..][i];
        None
      case Some(n) =>
        assert forall i :: 1 <= i < |b| - 1 ==> b[i] == b[1..][i - 1] && b[i + 1] == b[1..][i];
        Some(n + 1)
  }

  function DepthLeft(depth: nat): nat {
    if depth > MAX_RESP_DEPTH then 0 else MAX_RESP_DEPTH + 1 - depth
  }

  /** One value at the front of `b`, `depth` arrays down. */
  function Parse(number: NumberOf, b: Bytes, depth: nat): (r: Parsed<Value>)
    ensures r.Done? ==> 3 <= r.used <= |b|
    decreases DepthLeft(depth), 3, 0
  {
    if b == [] then Incomplete
    else if depth > MAX_RESP_DEPTH then Broken(TooDeep)
    else
      match FindCrlf(b[1..])
      case None => Incomplete
      case Some(n) => ParseBody(number, b, depth, b[1..1 + n], n + 3)
  }

  /** The value whose first line is `line` and whose next line starts at `head`. */
  function ParseBody(number: NumberOf, b: Bytes, depth: nat, line: Bytes, head: nat): (r: Parsed<Value>)
    requires 3 <= head <= |b| && depth <= MAX_RESP_DEPTH
    ensures r.Done? ==> head <= r.used <= |b|
    decreases DepthLeft(depth), 2, 0
  {
    match b[0]
    case 43 => Done(Text(line), head)                         // +
    case 45 => Done(Failure(line), head)                      // -
    case 58 => Done(Number(number(line)), head)               // :
    case 44 => Done(Number(number(line)), head)               // ,
    case 35 => Done(Flag(line == [116]), head)                // #t
    case 95 => Done(Nil, head)                                // _
    case 36 => ParseBulk(number(line), line, b, head)         // $
    case 42 => ParseArray(number, b, depth, line, head)       // *
    case prefix => Broken(BadPrefix(prefix))
  }

  /** An array whose header line ended at `head`. */
  function ParseArray(number: NumberOf, b: Bytes, depth: nat, line: Bytes, head: nat): (r: Parsed<Value>)
    requires head <= |b| && depth <= MAX_RESP_DEPTH
    ensures r.Done? ==> head <= r.used <= |b|
    decreases DepthLeft(depth), 1, 0
  {
    match number(line)
    case Whole(length) =>
      if length == -1 then Done(Nil, head)
      else if length < 0 then Broken(BadArrayLength(line))
      else
        (match ParseItems(number, b[head..], depth + 1, length)
         case Incomplete => Incomplete
         case Broken(e) => Broken(e)
         case Done(vs, k) => Done(Items(vs), head + k))
    case _ => Broken(BadArrayLength(line))
  }

  /** A bulk string whose header line ended at `head`. */
  function ParseBulk(length: Num, line: Bytes, b: Bytes, head: nat): (r: Parsed<Value>)
    requires 3 <= head <= |b|
    ensures r.Done? ==> head <= r.used <= |b|
  {
    match length
    case Whole(n) =>
      if n == -1 then Done(Nil, head)
      else if n < 0 then Broken(BadBulkLength(line))
      else if n > MAX_BULK_LENGTH then Broken(BulkTooLong(n))
      else if |b| < head + n + 2 then Incomplete
      else if b[head + n] != CR || b[head + n + 1] != LF then Broken(BadTerminator)
      else Done(Text(b[head..head + n]), head + n + 2)
    case _ => Broken(BadBulkLength(line))
  }

  /** `count` values one after the other. */
  function ParseItems(number: NumberOf, b: Bytes, depth: nat, count: nat): (r: Parsed<seq<Value>>)
    ensures r.Done? ==> 3 * count <= r.used <= |b| && |r.value| == count
    decreases DepthLeft(depth), 4, count
  {
    if count == 0 then Done([], 0) else
      match Parse(number, b, depth)
      case Incomplete => Incomplete
      case Broken(e) => Broken(e)
      case Done(v, k) =>
        match ParseItems(number, b[k..], depth, count - 1)
        case Incomplete => Incomplete
        case Broken(e) => Broken(e)
        case Done(vs, m) => Done([v] + vs, k + m)
  }

  // ---- The answer, once there is one, does not depend on the bytes still to come ----

  lemma FindCrlfExtends(a: Bytes, c: Bytes)
    requires FindCrlf(a).Some?
    ensures FindCrlf(a + c) == FindCrlf(a)
  {
    var m, n := FindCrlf(a), FindCrlf(a + c);
    assert (a + c)[m.value] == CR && (a + c)[m.value + 1] == LF;
    assert n.Some? && n.value <= m.value;
    assert a[n.value] == CR && a[n.value + 1] == LF;
  }

  lemma {:induction false} ParseExtends(number: NumberOf, a: Bytes, c: Bytes, depth: nat)
    requires !Parse(number, a, depth).Incomplete?
    ensures Parse(number, a + c, depth) == Parse(number, a, depth)
    decreases DepthLeft(depth), 3, 0
  {
    if depth <= MAX_RESP_DEPTH {
      assert (a + c)[1..] == a[1..] + c;
      FindCrlfExtends(a[1..], c);
      var n := FindCrlf(a[1..]).value;
      assert (a + c)[1..1 + n] == a[1..1 + n];
      BodyExtends(number, a, c, depth, a[1..1 + n], n + 3);
    }
  }

  lemma {:induction false} BodyExtends(number: NumberOf, a: Bytes, c: Bytes, depth: nat, line: Bytes, head: nat)
    requires 3 <= head <= |a| && depth <= MAX_RESP_DEPTH
    requires !ParseBody(number, a, depth, line, head).Incomplete?
    ensures ParseBody(number, a + c, depth, line, head) == ParseBody(number, a, depth, line, head)
    decreases DepthLeft(depth), 2, 0
  {
    hide Parse, FindCrlf;
    if a[0] == 36 {
      BulkExtends(number(line), line, a, c, head);
    } else if a[0] == 42 && number(line).Whole? && number(line).value >= 0 {
      assert (a + c)[head..] == a[head..] + c;
      ItemsExtend(number, a[head..], c, depth + 1, number(line).value);
    }
  }

  lemma BulkExtends(length: Num, line: Bytes, a: Bytes, c: Bytes, head: nat)
    requires 3 <= head <= |a| && !ParseBulk(length, line, a, head).Incomplete?
    ensures ParseBulk(length, line, a + c, head) == ParseBulk(length, line, a, head)
  {
    if length.Whole? && 0 <= length.value && head + length.value + 2 <= |a| {
      assert (a + c)[head..head + length.value] == a[head..head + length.value];
    }
  }

  lemma {:induction false} ItemsExtend(number: NumberOf, a: Bytes, c: Bytes, depth: nat, count: nat)
    requires !ParseItems(number, a, depth, count).Incomplete?
    ensures ParseItems(number, a + c, depth, count) == ParseItems(number, a, depth, count)
    decreases DepthLeft(depth), 4, count
  {
    hide Parse, ParseBody, FindCrlf;
    if count > 0 {
      ParseExtends(number, a, c, depth);
      var first := Parse(number, a, depth);
      if first.Done? {
        assert (a + c)[first.used..] == a[first.used..] + c;
        ItemsExtend(number, a[first.used..], c, depth, count - 1);
      }
    }
  }

  /** A value that ends exactly at the end of `b` is invisible in every shorter prefix. */
  lemma ProperPrefixIsIncomplete(number: NumberOf, b: Bytes, cut: nat, depth: nat)
    requires Parse(number, b, depth).Done? && Parse(number, b, depth).used == |b|
    requires cut < |b|
    ensures Parse(number, b[..cut], depth).Incomplete?
  {
    assert b == b[..cut] + b[cut..];
    if !Parse(number, b[..cut], depth).Incomplete? {
      ParseExtends(number, b[..cut], b[cut..], depth);
    }
  }

  // ---- Prefixes ----

  const KNOWN_PREFIXES: set<byte> := {43, 45, 58, 44, 35, 95, 36, 42}

  /** A prefix that is complained about, at whatever depth, is none of the known ones. */
  lemma {:induction false} ComplaintsAreAboutUnknownPrefixes(number: NumberOf, b: Bytes, depth: nat)
    requires Parse(number, b, depth).Broken? && Parse(number, b, depth).reason.BadPrefix?
    ensures Parse(number, b, depth).reason.prefix !in KNOWN_PREFIXES
    decreases DepthLeft(depth), 3, 0
  {
    hide ParseItems, ParseBulk, FindCrlf;
    var n := FindCrlf(b[1..]).value;
    var line, head := b[1..1 + n], n + 3;
    var length := number(line);
    assert Parse(number, b, depth) == ParseBody(number, b, depth, line, head);
    BulksComplainOfLengths(length, line, b, head);
    if b[0] == 42 {
      assert Parse(number, b, depth) == ParseArray(number, b, depth, line, head);
      assert length.Whole? && length.value >= 0;
      assert ParseItems(number, b[head..], depth + 1, length.value) == Broken(Parse(number, b, depth).reason);
      ItemComplaintsAreAboutUnknownPrefixes(number, b[head..], depth + 1, length.value);
    } else {
      assert Parse(number, b, depth) == Broken(BadPrefix(b[0]));
    }
  }

  lemma BulksComplainOfLengths(length: Num, line: Bytes, b: Bytes, head: nat)
    requires 3 <= head <= |b|
    ensures ParseBulk(length, line, b, head).Broken? ==> !ParseBulk(length, line, b, head).reason.BadPrefix?
  {
  }

  lemma {:induction false} ItemComplaintsAreAboutUnknownPrefixes(number: NumberOf, b: Bytes, depth: nat, count: nat)
    requires ParseItems(number, b, depth, count).Broken? && ParseItems(number, b, depth, count).reason.BadPrefix?
    ensures ParseItems(number, b, depth, count).reason.prefix !in KNOWN_PREFIXES
    decreases DepthLeft(depth), 4, count
  {
    hide Parse, ParseBody, FindCrlf;
    var first := Parse(number, b, depth);
    if first.Broken? {
      ComplaintsAreAboutUnknownPrefixes(number, b, depth);
    } else {
      ItemComplaintsAreAboutUnknownPrefixes(number, b[first.used..], depth, count - 1);
    }
  }

  // ---- Size: what a reply can make the parser build ----

  function Nodes(v: Value): (n: nat) {
    if v.Items? then 1 + NodesOf(v.items) else 1
  }

  function NodesOf(vs: seq<Value>): nat {
    if vs == [] then 0 else Nodes(vs[0]) + NodesOf(vs[1..])
  }

  /** Array levels below `v`: 0 for a scalar and for an empty array. */
  function Height(v: Value): nat {
    if v.Items? && v.items != [] then 1 + HeightOf(v.items) else 0
  }

  function HeightOf(vs: seq<Value>): nat {
    if vs == [] then 0 else
      var first, rest := Height(vs[0]), HeightOf(vs[1..]);
      if first > rest then first else rest
  }

  /** However large the declared lengths, a parsed tree has at most one node per three bytes read
      and stays within the depth cap. */
  lemma {:induction false} ParsedTreeIsBounded(number: NumberOf, b: Bytes, depth: nat)
    requires Parse(number, b, depth).Done?
    ensures 3 * Nodes(Parse(number, b, depth).value) <= Parse(number, b, depth).used
    ensures depth + Height(Parse(number, b, depth).value) <= MAX_RESP_DEPTH
    decreases DepthLeft(depth), 3, 0
  {
    var n := FindCrlf(b[1..]).value;
    var line, head := b[1..1 + n], n + 3;
    assert Parse(number, b, depth) == ParseBody(number, b, depth, line, head);
    if b[0] == 42 && number(line).Whole? && number(line).value >= 0 {
      var items := ParseItems(number, b[head..], depth + 1, number(line).value);
      assert ParseArray(number, b, depth, line, head) == Parse(number, b, depth);
      assert Parse(number, b, depth) == Done(Items(items.value), head + items.used);
      ParsedItemsAreBounded(number, b[head..], depth + 1, number(line).value);
    }
  }

  lemma {:induction false} ParsedItemsAreBounded(number: NumberOf, b: Bytes, depth: nat, count: nat)
    requires ParseItems(number, b, depth, count).Done?
    ensures 3 * NodesOf(ParseItems(number, b, depth, count).value) <= ParseItems(number, b, depth, count).used
    ensures count > 0 ==> depth + HeightOf(ParseItems(number, b, depth, count).value) <= MAX_RESP_DEPTH
    decreases DepthLeft(depth), 4, count
  {
    hide Parse, ParseBody, FindCrlf, Nodes, Height;
    if count > 0 {
      var first := Parse(number, b, depth);
      ParsedTreeIsBounded(number, b, depth);
      ParsedItemsAreBounded(number, b[first.used..], depth, count - 1);
      assert ParseItems(number, b, depth, count).value[1..]
          == ParseItems(number, b[first.used..], depth, count - 1).value;
    }
  }
}
