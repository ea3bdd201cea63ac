/** The protocol's own notation for values (Redis serialization protocol specification), and the proof
    that the parser reads it back: RESP is self-delimiting under `RespParser`. */
module RespWire {
  import opened Wrappers
  import opened Bytes
  import opened Resp
  import opened RespStream

  datatype Frame =
    | SimpleString(text: Bytes)
    | ErrorLine(text: Bytes)
    | IntegerLine(n: int)
    | DoubleLine(text: Bytes)
    | BooleanLine(on: bool)
    | NullLine
    | BulkString(bytes: Bytes)
    | NullBulk
    | Array(items: seq<Frame>)
    | NullArray

  function Line(prefix: byte, text: Bytes): Bytes {
    [prefix] + text + CRLF
  }

  function Serialize(f: Frame): (b: Bytes)
    ensures b != []
  {
    match f
    case SimpleString(text) => Line(43, text)
    case ErrorLine(text) => Line(45, text)
    case IntegerLine(n) => Line(58, Decimal(n))
    case DoubleLine(text) => Line(44, text)
    case BooleanLine(on) => Line(35, if on then [116] else [102])
    case NullLine => Line(95, [])
    case BulkString(bytes) => Line(36, Decimal(|bytes|)) + bytes + CRLF
    case NullBulk => Line(36, Decimal(-1))
    case Array(items) => Line(42, Decimal(|items|)) + SerializeAll(items)
    case NullArray => Line(42, Decimal(-1))
  }

  function SerializeAll(fs: seq<Frame>): Bytes {
    if fs == [] then [] else Serialize(fs[0]) + SerializeAll(fs[1..])
  }

  /** The value a frame stands for; RESP2 and RESP3 nulls are one value to the caller. */
  function Meaning(number: NumberOf, f: Frame): Value {
    match f
    case SimpleString(text) => Text(text)
    case ErrorLine(text) => Failure(text)
    case IntegerLine(n) => Number(Whole(n))
    case DoubleLine(text) => Number(number(text))
    case BooleanLine(on) => Flag(on)
    case NullLine => Nil
    case BulkString(bytes) => Text(bytes)
    case NullBulk => Nil
    case Array(items) => Items(MeaningAll(number, items))
    case NullArray => Nil
  }

  function MeaningAll(number: NumberOf, fs: seq<Frame>): (vs: seq<Value>)
    ensures |vs| == |fs|
  {
    if fs == [] then [] else [Meaning(number, fs[0])] + MeaningAll(number, fs[1..])
  }

  predicate OneLine(text: Bytes) {
    forall i :: 0 <= i < |text| - 1 ==> !(text[i] == CR && text[i + 1] == LF)
  }

  /** Within the parser's caps when `depth` arrays deep; one-line texts hold no CRLF. */
  predicate Fits(f: Frame, depth: nat) {
    && depth <= MAX_RESP_DEPTH
    && (f.SimpleString? || f.ErrorLine? || f.DoubleLine? ==> OneLine(f.text))
    && (f.BulkString? ==> |f.bytes| <= MAX_BULK_LENGTH)
    && (f.Array? ==> forall g :: g in f.items ==> Fits(g, depth + 1))
  }

  predicate AllFit(fs: seq<Frame>, depth: nat) {
    forall g :: g in fs ==> Fits(g, depth)
  }

  // ---- One line ----

  lemma LineIsFound(prefix: byte, text: Bytes, rest: Bytes)
    requires OneLine(text)
    ensures FindCrlf((Line(prefix, text) + rest)[1..]) == Some(|text|)
    ensures (Line(prefix, text) + rest)[1..1 + |text|] == text
    ensures (Line(prefix, text) + rest)[|text| + 3..] == rest
  {
    var b := (Line(prefix, text) + rest)[1..];
    assert b == text + CRLF + rest;
    assert b[|text|] == CR && b[|text| + 1] == LF;
    forall i | 0 <= i < |text|
      ensures !(b[i] == CR && b[i + 1] == LF)
    {
      assert b[i] == text[i] && (i + 1 < |text| ==> b[i + 1] == text[i + 1]);
    }
  }

  lemma LineParses(number: NumberOf, prefix: byte, text: Bytes, rest: Bytes, depth: nat)
    requires OneLine(text) && depth <= MAX_RESP_DEPTH
    ensures var b := Line(prefix, text) + rest;
            && b[0] == prefix && b[|text| + 3..] == rest
            && Parse(number, b, depth) == ParseBody(number, b, depth, text, |text| + 3)
  {
    hide ParseBody, FindCrlf;
    LineIsFound(prefix, text, rest);
  }

  lemma DecimalIsOneLine(n: int)
    ensures OneLine(Decimal(n))
  {
  }

  // ---- The round trip ----

  /** A frame is read back as its value, using up exactly its own bytes, whatever follows it. */
  lemma {:induction false} FrameIsReadBack(number: NumberOf, f: Frame, rest: Bytes, depth: nat)
    requires ReadsDecimals(number) && Fits(f, depth)
    ensures Parse(number, Serialize(f) + rest, depth) == Done(Meaning(number, f), |Serialize(f)|)
    decreases f
  {
    match f {
      case BulkString(bytes) => BulkIsReadBack(number, bytes, rest, depth);
      case Array(items) =>
        FramesAreReadBack(number, items, rest, depth + 1);
        ArrayIsReadBack(number, items, rest, depth);
      case _ => OneLineIsReadBack(number, f, rest, depth);
    }
  }

  lemma OneLineIsReadBack(number: NumberOf, f: Frame, rest: Bytes, depth: nat)
    requires ReadsDecimals(number) && Fits(f, depth) && !f.BulkString? && !f.Array?
    ensures Parse(number, Serialize(f) + rest, depth) == Done(Meaning(number, f), |Serialize(f)|)
  {
    hide Parse, ReadsDecimals, Decimal, FindCrlf;
    assert number(Decimal(-1)) == Whole(-1) by { Reads(number, -1); }
    DecimalIsOneLine(-1);
    match f {
      case SimpleString(text) => LineParses(number, 43, text, rest, depth);
      case ErrorLine(text) => LineParses(number, 45, text, rest, depth);
      case IntegerLine(n) =>
        DecimalIsOneLine(n);
        Reads(number, n);
        LineParses(number, 58, Decimal(n), rest, depth);
      case DoubleLine(text) => LineParses(number, 44, text, rest, depth);
      case BooleanLine(on) => LineParses(number, 35, if on then [116] else [102], rest, depth);
      case NullLine => LineParses(number, 95, [], rest, depth);
      case NullBulk => LineParses(number, 36, Decimal(-1), rest, depth);
      case NullArray => LineParses(number, 42, Decimal(-1), rest, depth);
    }
  }

  lemma Reads(number: NumberOf, n: int)
    requires ReadsDecimals(number)
    ensures number(Decimal(n)) == Whole(n)
  {
  }

  lemma ArrayIsReadBack(number: NumberOf, items: seq<Frame>, rest: Bytes, depth: nat)
    requires ReadsDecimals(number) && depth <= MAX_RESP_DEPTH
    requires ParseItems(number, SerializeAll(items) + rest, depth + 1, |items|)
          == Done(MeaningAll(number, items), |SerializeAll(items)|)
    ensures Parse(number, Serialize(Array(items)) + rest, depth)
         == Done(Items(MeaningAll(number, items)), |Serialize(Array(items))|)
  {
    hide Parse, ParseItems, Decimal, FindCrlf;
    var header := Line(42, Decimal(|items|));
    assert Serialize(Array(items)) + rest == header + (SerializeAll(items) + rest);
    DecimalIsOneLine(|items|);
    LineParses(number, 42, Decimal(|items|), SerializeAll(items) + rest, depth);
  }

  lemma BulkIsReadBack(number: NumberOf, bytes: Bytes, rest: Bytes, depth: nat)
    requires ReadsDecimals(number) && |bytes| <= MAX_BULK_LENGTH && depth <= MAX_RESP_DEPTH
    ensures Parse(number, Serialize(BulkString(bytes)) + rest, depth)
         == Done(Text(bytes), |Serialize(BulkString(bytes))|)
  {
    hide Parse, Decimal, FindCrlf;
    var size := Decimal(|bytes|);
    var tail := bytes + CRLF + rest;
    var b := Line(36, size) + tail;
    assert Serialize(BulkString(bytes)) + rest == b;
    DecimalIsOneLine(|bytes|);
    LineParses(number, 36, size, tail, depth);
    var head := |size| + 3;
    assert b[head..head + |bytes|] == bytes;
    assert b[head + |bytes|] == CR && b[head + |bytes| + 1] == LF;
  }

  lemma {:induction false} FramesAreReadBack(number: NumberOf, fs: seq<Frame>, rest: Bytes, depth: nat)
    requires ReadsDecimals(number) && AllFit(fs, depth)
    ensures ParseItems(number, SerializeAll(fs) + rest, depth, |fs|)
         == Done(MeaningAll(number, fs), |SerializeAll(fs)|)
    decreases fs
  {
    hide Parse;
    if fs != [] {
      var first, tail := Serialize(fs[0]), SerializeAll(fs[1..]);
      assert SerializeAll(fs) + rest == first + (tail + rest);
      FrameIsReadBack(number, fs[0], tail + rest, depth);
      FramesAreReadBack(number, fs[1..], rest, depth);
      assert (first + (tail + rest))[|first|..] == tail + rest;
    }
  }

  /** Before its last byte arrives a frame is neither a value nor an error. */
  lemma UnfinishedFramesWait(number: NumberOf, f: Frame, cut: nat, depth: nat)
    requires ReadsDecimals(number) && Fits(f, depth) && cut < |Serialize(f)|
    ensures Parse(number, Serialize(f)[..cut], depth).Incomplete?
  {
    hide Parse;
    FrameIsReadBack(number, f, [], depth);
    assert Serialize(f) + [] == Serialize(f);
    ProperPrefixIsIncomplete(number, Serialize(f), cut, depth);
  }

  // ---- Whole streams ----

  lemma {:induction false} FramesDrain(number: NumberOf, fs: seq<Frame>)
    requires ReadsDecimals(number) && AllFit(fs, 0)
    ensures DrainResp(number, SerializeAll(fs)) == Drained(MeaningAll(number, fs), |SerializeAll(fs)|, None)
  {
    hide Parse;
    RespReaderIsIncremental(number);
    if fs != [] {
      var b, first, tail := SerializeAll(fs), Serialize(fs[0]), SerializeAll(fs[1..]);
      FrameIsReadBack(number, fs[0], tail, 0);
      assert RespReader(number)(b) == Done(Meaning(number, fs[0]), |first|);
      assert b[|first|..] == tail;
      FramesDrain(number, fs[1..]);
    }
  }

  /** A server's frames reach the caller one by one and in order, however TCP cuts the stream. */
  lemma FramesSurviveAnyCutting(number: NumberOf, fs: seq<Frame>, chunks: seq<Bytes>)
    requires ReadsDecimals(number) && AllFit(fs, 0)
    requires Concat(chunks) == SerializeAll(fs)
    ensures DeliveredBy(FeedResp(number, chunks).results) == MeaningAll(number, fs)
    ensures forall i :: 0 <= i < |chunks| ==> FeedResp(number, chunks).results[i].Delivered?
  {
    hide FeedResp, DrainResp, ReadsDecimals, SerializeAll, MeaningAll;
    FramesDrain(number, fs);
    ChunkingIsInvisibleToResp(number, chunks);
  }

  // ---- Commands ----

  function Bulks(parts: seq<Bytes>): (fs: seq<Frame>)
    ensures |fs| == |parts|
  {
    seq(|parts|, i requires 0 <= i < |parts| => BulkString(parts[i]))
  }

  function Texts(parts: seq<Bytes>): (vs: seq<Value>)
    ensures |vs| == |parts|
  {
    seq(|parts|, i requires 0 <= i < |parts| => Text(parts[i]))
  }

  /** `encodeRespCommand`: built up in a loop, it is the array of the parts as bulk strings. */
  method EncodeRespCommand(parts: seq<Bytes>) returns (command: Bytes)
    ensures command == Serialize(Array(Bulks(parts)))
  {
    command := [42] + Decimal(|parts|) + CRLF;
    ghost var header := command;
    var i := 0;
    assert Bulks(parts)[..0] == [];
    while i < |parts|
      invariant 0 <= i <= |parts|
      invariant command == header + SerializeAll(Bulks(parts)[..i])
    {
      command := command + ([36] + Decimal(|parts[i]|) + CRLF + parts[i] + CRLF);
      SerializeAllSnoc(Bulks(parts)[..i], BulkString(parts[i]));
      assert Bulks(parts)[..i + 1] == Bulks(parts)[..i] + [BulkString(parts[i])];
      assert Serialize(BulkString(parts[i])) == [36] + Decimal(|parts[i]|) + CRLF + parts[i] + CRLF;
      i := i + 1;
    }
    assert Bulks(parts)[..i] == Bulks(parts);
  }

  lemma {:induction false} SerializeAllSnoc(fs: seq<Frame>, last: Frame)
    ensures SerializeAll(fs + [last]) == SerializeAll(fs) + Serialize(last)
  {
    hide Serialize;
    var b := Serialize(last);
    if fs == [] {
      assert fs + [last] == [last] && [last][1..] == [];
      assert b + [] == b == [] + b;
    } else {
      SerializeAllSnoc(fs[1..], last);
      var first, tail := Serialize(fs[0]), SerializeAll(fs[1..]);
      assert (fs + [last])[0] == fs[0] && (fs + [last])[1..] == fs[1..] + [last];
      assert first + (tail + b) == (first + tail) + b;
    }
  }

  /** A command is read back as its parts, CRLF and all, and nothing before its end is taken for one. */
  lemma CommandsAreReadBack(number: NumberOf, parts: seq<Bytes>, rest: Bytes)
    requires ReadsDecimals(number)
    requires forall p :: p in parts ==> |p| <= MAX_BULK_LENGTH
    ensures var command := Serialize(Array(Bulks(parts)));
            && Parse(number, command + rest, 0) == Done(Items(Texts(parts)), |command|)
            && forall cut :: 0 <= cut < |command| ==> Parse(number, command[..cut], 0).Incomplete?
  {
    hide Parse;
    var frame := Array(Bulks(parts));
    forall f | f in frame.items
      ensures Fits(f, 1)
    {
      var i :| 0 <= i < |parts| && frame.items[i] == f;
      assert parts[i] in parts;
    }
    FrameIsReadBack(number, frame, rest, 0);
    MeaningOfBulks(number, parts);
    forall cut | 0 <= cut < |Serialize(frame)|
      ensures Parse(number, Serialize(frame)[..cut], 0).Incomplete?
    {
      UnfinishedFramesWait(number, frame, cut, 0);
    }
  }

  lemma {:induction false} MeaningOfBulks(number: NumberOf, parts: seq<Bytes>)
    ensures MeaningAll(number, Bulks(parts)) == Texts(parts)
  {
    if parts != [] {
      MeaningOfBulks(number, parts[1..]);
      assert Bulks(parts)[1..] == Bulks(parts[1..]);
      assert Texts(parts) == [Text(parts[0])] + Texts(parts[1..]);
    }
  }

  /** A boolean line is true for the text t alone, and false for every other text. */
  lemma OnlyTIsTrue(number: NumberOf, text: Bytes, rest: Bytes, depth: nat)
    requires OneLine(text) && depth <= MAX_RESP_DEPTH
    ensures Parse(number, Line(35, text) + rest, depth) == Done(Flag(text == AsciiBytes("t")), |text| + 3)
  {
    hide Parse, FindCrlf;
    LineParses(number, 35, text, rest, depth);
    assert AsciiBytes("t") == [116];
  }

  // ---- What the parser refuses, and when ----

  /** A bulk string over the cap is refused as soon as its length line is in, before any of its bytes. */
  lemma OversizedBulksAreRefusedAtDeclaration(number: NumberOf, n: int, rest: Bytes, depth: nat)
    requires ReadsDecimals(number) && n > MAX_BULK_LENGTH && depth <= MAX_RESP_DEPTH
    ensures Parse(number, Line(36, Decimal(n)) + rest, depth) == Broken(BulkTooLong(n))
  {
    hide Parse, Decimal, FindCrlf;
    DecimalIsOneLine(n);
    LineParses(number, 36, Decimal(n), rest, depth);
  }

  /** No length below -1 is accepted. */
  lemma NegativeLengthsAreRefused(number: NumberOf, n: int, rest: Bytes, depth: nat)
    requires ReadsDecimals(number) && n < -1 && depth <= MAX_RESP_DEPTH
    ensures Parse(number, Line(36, Decimal(n)) + rest, depth) == Broken(BadBulkLength(Decimal(n)))
    ensures Parse(number, Line(42, Decimal(n)) + rest, depth) == Broken(BadArrayLength(Decimal(n)))
  {
    hide Parse, Decimal, FindCrlf;
    DecimalIsOneLine(n);
    LineParses(number, 36, Decimal(n), rest, depth);
    LineParses(number, 42, Decimal(n), rest, depth);
  }

  /** A line is refused for its prefix exactly when the prefix is none of the eight known ones. */
  lemma UnknownPrefixesAreRefused(number: NumberOf, prefix: byte, text: Bytes, rest: Bytes, depth: nat)
    requires OneLine(text) && depth <= MAX_RESP_DEPTH
    ensures Parse(number, Line(prefix, text) + rest, depth) == Broken(BadPrefix(prefix))
       <==> prefix !in KNOWN_PREFIXES
  {
    hide Parse, FindCrlf;
    LineParses(number, prefix, text, rest, depth);
    if Parse(number, Line(prefix, text) + rest, depth) == Broken(BadPrefix(prefix)) {
      ComplaintsAreAboutUnknownPrefixes(number, Line(prefix, text) + rest, depth);
    }
  }

  /** A bulk string whose bytes are not followed by CRLF is refused, whatever else follows. */
  lemma UnterminatedBulksAreRefused(number: NumberOf, bytes: Bytes, end: Bytes, rest: Bytes, depth: nat)
    requires ReadsDecimals(number) && |bytes| <= MAX_BULK_LENGTH && depth <= MAX_RESP_DEPTH
    requires |end| == 2 && end != CRLF
    ensures Parse(number, Line(36, Decimal(|bytes|)) + (bytes + end + rest), depth) == Broken(BadTerminator)
  {
    hide Parse, Decimal, FindCrlf;
    var size, tail := Decimal(|bytes|), bytes + end + rest;
    var b, head := Line(36, size) + tail, |size| + 3;
    DecimalIsOneLine(|bytes|);
    LineParses(number, 36, size, tail, depth);
    assert b[head + |bytes|] == end[0] && b[head + |bytes| + 1] == end[1];
    assert end == [end[0], end[1]];
  }

  /** `levels` array headers one inside the other. */
  function Nest(levels: nat): Bytes {
    if levels == 0 then [] else Line(42, Decimal(1)) + Nest(levels - 1)
  }

  /** The first byte more than 64 arrays down is refused; the headers alone only wait. */
  lemma {:induction false} DeepNestingIsRefused(number: NumberOf, levels: nat, rest: Bytes, depth: nat)
    requires ReadsDecimals(number) && depth + levels == MAX_RESP_DEPTH + 1
    ensures rest != [] ==> Parse(number, Nest(levels) + rest, depth) == Broken(TooDeep)
    ensures rest == [] ==> Parse(number, Nest(levels) + rest, depth).Incomplete?
    decreases levels
  {
    hide Parse, Line, Decimal, ReadsDecimals;
    if levels == 0 {
      assert Nest(0) + rest == rest;
      NothingIsReadTooDeep(number, rest, depth);
    } else {
      var tail := Nest(levels - 1) + rest;
      DeepNestingIsRefused(number, levels - 1, rest, depth + 1);
      var header := Line(42, Decimal(1));
      assert (header + Nest(levels - 1)) + rest == header + tail;
      NestedOne(number, tail, depth);
    }
  }

  lemma NothingIsReadTooDeep(number: NumberOf, rest: Bytes, depth: nat)
    requires depth > MAX_RESP_DEPTH
    ensures Parse(number, rest, depth) == if rest == [] then Incomplete else Broken(TooDeep)
  {
  }

  /** An array of one element stands or falls with the element. */
  lemma NestedOne(number: NumberOf, tail: Bytes, depth: nat)
    requires ReadsDecimals(number) && depth <= MAX_RESP_DEPTH
    ensures Parse(number, tail, depth + 1).Incomplete? ==> Parse(number, Line(42, Decimal(1)) + tail, depth).Incomplete?
    ensures Parse(number, tail, depth + 1).Broken? ==>
              Parse(number, Line(42, Decimal(1)) + tail, depth) == Broken(Parse(number, tail, depth + 1).reason)
  {
    hide Parse, Decimal, FindCrlf;
    DecimalIsOneLine(1);
    LineParses(number, 42, Decimal(1), tail, depth);
    var item := Parse(number, tail, depth + 1);
    assert item.Incomplete? ==> ParseItems(number, tail, depth + 1, 1).Incomplete?;
    assert item.Broken? ==> ParseItems(number, tail, depth + 1, 1) == Broken(item.reason);
  }
}
