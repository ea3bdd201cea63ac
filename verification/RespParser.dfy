/** The `RespParser` class: a growing buffer, re-read from the front on every push. */
module RespParsing {
  import opened Wrappers
  import opened Bytes
  import opened Resp
  import opened RespStream

  /** A result counted from the start of the buffer rather than from `offset`. */
  function At<T>(p: Parsed<T>, offset: nat): Parsed<T> {
    match p
    case Done(v, used) => Done(v, offset + used)
    case _ => p
  }

  /** The array made of the elements read up to `offset` and of those still to read. */
  function ArrayOf(values: seq<Value>, offset: nat, rest: Parsed<seq<Value>>): Parsed<Value> {
    match rest
    case Incomplete => Incomplete
    case Broken(e) => Broken(e)
    case Done(vs, k) => Done(Items(values + vs), offset + k)
  }

  /** One turn of the loop in `push`: `values` were read from the first `offset` bytes. */
  lemma DrainOnward(number: NumberOf, all: Bytes, values: seq<Value>, offset: nat)
    requires offset < |all|
    ensures var parsed := At(Parse(number, all[offset..], 0), offset);
            var drained := Drained(values, offset, None).Then(DrainResp(number, all[offset..]));
            && (parsed.Incomplete? ==> drained == Drained(values, offset, None))
            && (parsed.Broken? ==> drained.broken == Some(parsed.reason))
            && (parsed.Done? ==>
                  offset < parsed.used <= |all|
                  && drained
                     == Drained(values + [parsed.value], parsed.used, None).Then(DrainResp(number, all[parsed.used..])))
  {
    hide Parse;
    RespReaderIsIncremental(number);
    var b := all[offset..];
    var p := RespReader(number)(b);
    if p.Done? {
      assert b[p.used..] == all[offset + p.used..];
      ThenAssociates(Drained(values, offset, None), Drained([p.value], p.used, None), DrainResp(number, b[p.used..]));
    } else {
      assert values + [] == values;
    }
  }

  /** One turn of the loop in `parseArray`: `values` were read, `left` elements are to come. */
  lemma ItemsOnward(number: NumberOf, tail: Bytes, depth: nat, values: seq<Value>, head: nat, offset: nat, left: nat,
                    parsed: Parsed<Value>)
    requires head <= offset <= head + |tail| && left > 0
    requires parsed == At(Parse(number, tail[offset - head..], depth), offset)
    ensures parsed.Incomplete? ==> ParseItems(number, tail[offset - head..], depth, left) == Incomplete
    ensures parsed.Broken? ==> ParseItems(number, tail[offset - head..], depth, left) == Broken(parsed.reason)
    ensures parsed.Done? ==>
              offset < parsed.used <= head + |tail|
              && ArrayOf(values, offset, ParseItems(number, tail[offset - head..], depth, left))
                 == ArrayOf(values + [parsed.value], parsed.used,
                            ParseItems(number, tail[parsed.used - head..], depth, left - 1))
  {
    hide Parse, ParseBody;
    if parsed.Done? {
      var end := parsed.used;
      assert tail[offset - head..][end - offset..] == tail[end - head..];
      var rest := ParseItems(number, tail[end - head..], depth, left - 1);
      if rest.Done? {
        assert values + ([parsed.value] + rest.value) == (values + [parsed.value]) + rest.value;
      }
    }
  }

  /** What `parseArray` decides from the header line. */
  lemma ItemsAtStart(number: NumberOf, b: Bytes, depth: nat, line: Bytes, start: nat, head: nat)
    requires start <= head <= start + |b| && depth <= MAX_RESP_DEPTH
    ensures var goal := At(ParseArray(number, b, depth, line, head - start), start);
            var length := number(line);
            if length == Whole(-1) then goal == Done(Nil, head)
            else if !length.Whole? || length.value < 0 then goal == Broken(BadArrayLength(line))
            else goal == ArrayOf([], head, ParseItems(number, b[head - start..][0..], depth + 1, length.value))
  {
    hide Parse, ParseItems, ParseBody;
    var length, tail := number(line), b[head - start..];
    assert tail[0..] == tail;
    if length.Whole? && length.value >= 0 {
      var p := ParseItems(number, tail, depth + 1, length.value);
      if p.Done? {
        assert [] + p.value == p.value;
      }
    }
  }

  lemma ItemsAtEnd(number: NumberOf, b: Bytes, depth: nat, values: seq<Value>, offset: nat)
    ensures ArrayOf(values, offset, ParseItems(number, b, depth, 0)) == Done(Items(values), offset)
  {
    assert values + [] == values;
  }

  class RespParser {
    const number: NumberOf
    var buffer: Bytes

    constructor (number: NumberOf)
      ensures this.number == number && buffer == []
    {
      this.number := number;
      buffer := [];
    }

    method Push(chunk: Bytes) returns (r: PushResult<Value>)
      modifies this
      ensures Pushed(r, buffer) == PushResp(number, old(buffer), chunk)
    {
      buffer := if |buffer| == 0 then chunk else buffer + chunk;
      ghost var all := old(buffer) + chunk;
      assert buffer == all;
      DrainAtStart(number, all);
      var values: seq<Value>, offset: nat := [], 0;
      while offset < |buffer|
        invariant offset <= |all| && buffer == all
        invariant DrainResp(number, all) == Drained(values, offset, None).Then(DrainResp(number, all[offset..]))
      {
        var parsed := ParseAt(offset, 0);
        DrainOnward(number, all, values, offset);
        match parsed {
          case Incomplete => break;
          case Broken(e) => return Rejected(e);
          case Done(value, end) =>
            values := values + [value];
            offset := end;
        }
      }
      if offset == |all| {
        DrainAtEnd(number, values, offset);
        assert all[offset..] == [];
      }
      assert DrainResp(number, all) == Drained(values, offset, None);
      assert all[0..] == all;
      if offset > 0 {
        buffer := buffer[offset..];
      }
      return Delivered(values);
    }

    method ParseAt(offset: nat, depth: nat) returns (r: Parsed<Value>)
      requires offset <= |buffer|
      ensures r == At(Parse(number, buffer[offset..], depth), offset)
      decreases DepthLeft(depth), 1
    {
      if offset >= |buffer| {
        return Incomplete;
      }
      if depth > MAX_RESP_DEPTH {
        return Broken(TooDeep);
      }
      var prefix := buffer[offset];
      assert buffer[offset..][1..] == buffer[offset + 1..];
      var end := FindCrlf(buffer[offset + 1..]);
      if end.None? {
        return Incomplete;
      }
      var line, head := buffer[offset + 1..offset + 1 + end.value], offset + end.value + 3;
      assert buffer[offset..][1..1 + end.value] == line;
      assert buffer[offset..][end.value + 3..] == buffer[head..];
      match prefix {
        case 43 => r := Done(Text(line), head);
        case 45 => r := Done(Failure(line), head);
        case 58 => r := Done(Number(number(line)), head);
        case 44 => r := Done(Number(number(line)), head);
        case 35 => r := Done(Flag(line == [116]), head);
        case 95 => r := Done(Nil, head);
        case 36 => r := ParseBulkString(line, offset, head);
        case 42 => r := ParseArray(line, offset, head, depth);
        case _ => r := Broken(BadPrefix(prefix));
      }
    }

    method ParseBulkString(line: Bytes, ghost start: nat, head: nat) returns (r: Parsed<Value>)
      requires start + 3 <= head <= |buffer|
      ensures r == At(ParseBulk(number(line), line, buffer[start..], head - start), start)
    {
      var length := number(line);
      if length == Whole(-1) {
        return Done(Nil, head);
      }
      if !length.Whole? || length.value < 0 {
        return Broken(BadBulkLength(line));
      }
      if length.value > MAX_BULK_LENGTH {
        return Broken(BulkTooLong(length.value));
      }
      var end := head + length.value;
      if |buffer| < end + 2 {
        return Incomplete;
      }
      if buffer[end] != CR || buffer[end + 1] != LF {
        return Broken(BadTerminator);
      }
      assert buffer[start..][head - start..end - start] == buffer[head..end];
      return Done(Text(buffer[head..end]), end + 2);
    }

    method ParseArray(line: Bytes, ghost start: nat, head: nat, depth: nat) returns (r: Parsed<Value>)
      requires start <= head <= |buffer| && depth <= MAX_RESP_DEPTH
      ensures r == At(Resp.ParseArray(number, buffer[start..], depth, line, head - start), start)
      decreases DepthLeft(depth), 0
    {
      hide Parse, ParseItems, ParseBody, FindCrlf, Resp.ParseArray;
      ghost var goal := At(Resp.ParseArray(number, buffer[start..], depth, line, head - start), start);
      ghost var tail := buffer[head..];
      assert buffer[start..][head - start..] == tail;
      ItemsAtStart(number, buffer[start..], depth, line, start, head);
      var length := number(line);
      if length == Whole(-1) {
        return Done(Nil, head);
      }
      if !length.Whole? || length.value < 0 {
        return Broken(BadArrayLength(line));
      }
      var values: seq<Value>, offset, i := [], head, 0;
      while i < length.value
        invariant 0 <= i <= length.value && head <= offset <= |buffer|
        invariant goal == ArrayOf(values, offset,
                                  ParseItems(number, tail[offset - head..], depth + 1, length.value - i))
      {
        assert buffer[offset..] == tail[offset - head..];
        var parsed := ParseAt(offset, depth + 1);
        ItemsOnward(number, tail, depth + 1, values, head, offset, length.value - i, parsed);
        match parsed {
          case Incomplete => return Incomplete;
          case Broken(e) => return Broken(e);
          case Done(value, end) =>
            values := values + [value];
            offset := end;
            i := i + 1;
        }
      }
      ItemsAtEnd(number, tail[offset - head..], depth + 1, values, offset);
      return Done(Items(values), offset);
    }
  }
}
