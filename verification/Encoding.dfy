/** `encodeResult` (src/translate/encoding.ts) and the SDK decoder its comment describes: the literal "OK" is
    passed through at even depth only, because only there does the decoder look for it. */
module Encoding {
  import opened Wrappers
  import opened Bytes
  import opened Replies
  import Base64

  const OK: Bytes := AsciiBytes("OK")

  function EncodeResult(v: Reply, depth: nat): Reply
    decreases v
  {
    match v
    case Null => Null
    case Undefined => Null
    case Number(_) => v
    case Str(text) => if text == OK && depth % 2 == 0 then Str(OK) else Str(Base64.Encode(text))
    case List(items) => List(EncodeAll(items, depth + 1))
    case Bool(b) => Number(Finite(if b then 1.0 else 0.0))
    case BigInt(i) => Str(Base64.Encode(Decimal(i)))
    case Binary(bytes) => Str(Base64.Encode(bytes))
    case MapOf(_) => Null
    case SetOf(_) => Null
    case Dictionary(_) => Null
    case Failure(_) => Null
  }

  function EncodeAll(vs: seq<Reply>, depth: nat): (ws: seq<Reply>)
    ensures |ws| == |vs|
    decreases vs
  {
    if vs == [] then [] else [EncodeResult(vs[0], depth)] + EncodeAll(vs[1..], depth)
  }

  // ---- The SDK's decoder ----

  /** Text that is not base64 comes back as it is. */
  function DecodeText(t: Bytes): Bytes {
    match Base64.Decode(t)
    case Some(b) => b
    case None => t
  }

  /** `decode`: reached at even depths; "OK" is honoured. */
  function Decode(v: Reply): Reply
    decreases v, 1
  {
    match v
    case Str(t) => Str(if t == OK then OK else DecodeText(t))
    case Number(_) => v
    case List(items) => List(DecodeChildren(items))
    case _ => Null
  }

  /** The children of a list `decode` was given: strings are decoded unconditionally, lists element by
      element with `decode`, everything else is kept. */
  function DecodeChild(v: Reply): Reply
    decreases v, 1
  {
    match v
    case Str(t) => Str(DecodeText(t))
    case List(items) => List(DecodeElements(items))
    case _ => v
  }

  function DecodeChildren(vs: seq<Reply>): seq<Reply>
    decreases vs, 0
  {
    if vs == [] then [] else [DecodeChild(vs[0])] + DecodeChildren(vs[1..])
  }

  function DecodeElements(vs: seq<Reply>): seq<Reply>
    decreases vs, 0
  {
    if vs == [] then [] else [Decode(vs[0])] + DecodeElements(vs[1..])
  }

  // ---- Decoding undoes encoding ----

  /** No base64 text is the literal "OK". */
  lemma EncodedTextIsNeverOk(b: Bytes)
    ensures Base64.Encode(b) != OK
  {
    Base64.EncodedLengths(b);
    assert |OK| == 2;
  }

  lemma TextIsRestored(text: Bytes)
    ensures DecodeText(Base64.Encode(text)) == text
  {
    Base64.EncodedIsDecoded(text);
  }

  lemma EncodedTextIsRead(text: Bytes)
    ensures Base64.Encode(text) != OK && DecodeText(Base64.Encode(text)) == text
  {
    TextIsRestored(text);
    EncodedTextIsNeverOk(text);
  }

  /** At the parity the encoder was told, the decoder restores every normalized value. */
  lemma {:induction false} ValueIsRestored(v: Reply, depth: nat)
    requires Canonical(v)
    ensures depth % 2 == 0 ==> Decode(EncodeResult(v, depth)) == v
    ensures depth % 2 == 1 ==> DecodeChild(EncodeResult(v, depth)) == v
    decreases v
  {
    hide Base64.Encode, DecodeText, Decimal, EncodeAll, DecodeChildren, DecodeElements, AllCanonical;
    match v {
      case Str(text) => EncodedTextIsRead(text);
      case List(items) => ValuesAreRestored(items, depth + 1);
      case _ =>
    }
  }

  lemma {:induction false} ValuesAreRestored(vs: seq<Reply>, depth: nat)
    requires AllCanonical(vs)
    ensures depth % 2 == 0 ==> DecodeElements(EncodeAll(vs, depth)) == vs
    ensures depth % 2 == 1 ==> DecodeChildren(EncodeAll(vs, depth)) == vs
    decreases vs
  {
    hide EncodeResult, Decode, DecodeChild, Canonical;
    if vs != [] {
      ValueIsRestored(vs[0], depth);
      ValuesAreRestored(vs[1..], depth);
      assert EncodeAll(vs, depth)[1..] == EncodeAll(vs[1..], depth);
      assert vs == [vs[0]] + vs[1..];
    }
  }

  /** Base64 mode is invisible: the client sees the normalized reply either way. */
  lemma Base64IsInvisible(v: Reply)
    requires Canonical(v)
    ensures Decode(EncodeResult(v, 0)) == v
  {
    ValueIsRestored(v, 0);
  }

  /** The rule for "OK": text stands unencoded exactly where the text is "OK" and the depth is even. Everywhere else
      it is base64, and nothing but text is encoded in a normalized value. */
  lemma OkStandsAtEvenDepths(v: Reply, depth: nat)
    requires Canonical(v)
    ensures EncodeResult(v, depth) == Str(OK) <==> v == Str(OK) && depth % 2 == 0
    ensures v.Str? && !(v.text == OK && depth % 2 == 0) ==> EncodeResult(v, depth) == Str(Base64.Encode(v.text))
    ensures v.Number? || v.Null? ==> EncodeResult(v, depth) == v
    ensures v.List? ==> EncodeResult(v, depth).List? && |EncodeResult(v, depth).items| == |v.items|
  {
    hide Base64.Encode;
    if v.Str? {
      EncodedTextIsNeverOk(v.text);
    }
  }

  /** An element of a list is encoded for its own depth, one below the list's. */
  lemma {:induction false} ElementsAreEncodedBelow(vs: seq<Reply>, depth: nat, i: nat)
    requires i < |vs|
    ensures EncodeAll(vs, depth)[i] == EncodeResult(vs[i], depth)
    ensures EncodeResult(List(vs), depth) == List(EncodeAll(vs, depth + 1))
    decreases vs
  {
    hide Base64.Encode;
    if i > 0 {
      ElementsAreEncodedBelow(vs[1..], depth, i - 1);
    }
  }

  /** Why the depth matters: a stored "OK" left as it is inside a list would reach the client as "8". */
  lemma UnencodedOkIsMangled()
    ensures Decode(List([Str(OK)])) == List([Str(AsciiBytes("8"))])
    ensures EncodeResult(List([Str(OK)]), 0) == List([Str(Base64.Encode(OK))])
    ensures Decode(EncodeResult(List([Str(OK)]), 0)) == List([Str(OK)])
  {
    hide Base64.Encode, DecodeText, AsciiBytes;
    var reply := List([Str(OK)]);
    assert [Str(OK)][1..] == [];
    OneTextIsCanonical(OK);
    Base64IsInvisible(reply);
    OkDecodesToEight();
    assert EncodeAll([Str(OK)], 1) == [EncodeResult(Str(OK), 1)] + EncodeAll([], 1);
    assert DecodeChildren([Str(OK)]) == [DecodeChild(Str(OK))] + DecodeChildren([]);
  }

  lemma OneTextIsCanonical(text: Bytes)
    ensures Canonical(List([Str(text)]))
  {
    assert [Str(text)][1..] == [];
    assert AllCanonical([]) && Canonical(Str(text));
    assert AllCanonical([Str(text)]);
  }

  lemma OkDecodesToEight()
    ensures DecodeText(OK) == AsciiBytes("8")
  {
    assert OK == [79, 75];
    assert Base64.ValueOf(79) == Some(14) && Base64.ValueOf(75) == Some(10);
    assert Base64.Decode(OK) == Some([56]);
  }

  // ---- Encoding without normalizing first ----

  /** Values the defensive branches can carry: anything but maps, sets, objects and non-finite numbers. */
  predicate Direct(v: Reply) {
    match v
    case Number(n) => n.Finite?
    case List(items) => AllDirect(items)
    case MapOf(_) => false
    case SetOf(_) => false
    case Dictionary(_) => false
    case Failure(_) => false
    case _ => true
  }

  predicate AllDirect(vs: seq<Reply>) {
    vs == [] || (Direct(vs[0]) && AllDirect(vs[1..]))
  }

  /** Encoded without having been normalized, such a value still reaches the client as its normalized self. */
  lemma {:induction false} DirectEncodingIsDecodable(v: Reply, depth: nat)
    requires Direct(v) && Normalize(v, depth).Ok?
    ensures depth % 2 == 0 ==> Decode(EncodeResult(v, depth)) == Normalize(v, depth).value
    ensures depth % 2 == 1 ==> DecodeChild(EncodeResult(v, depth)) == Normalize(v, depth).value
    decreases v
  {
    hide Base64.Encode, DecodeText, Decimal;
    match v {
      case Str(text) => EncodedTextIsRead(text);
      case Binary(bytes) => EncodedTextIsRead(bytes);
      case BigInt(i) => EncodedTextIsRead(Decimal(i));
      case List(items) => DirectEncodingsAreDecodable(items, depth + 1);
      case _ =>
    }
  }

  lemma {:induction false} DirectEncodingsAreDecodable(vs: seq<Reply>, depth: nat)
    requires AllDirect(vs) && NormalizeAll(vs, depth).Ok?
    ensures depth % 2 == 0 ==> DecodeElements(EncodeAll(vs, depth)) == NormalizeAll(vs, depth).value
    ensures depth % 2 == 1 ==> DecodeChildren(EncodeAll(vs, depth)) == NormalizeAll(vs, depth).value
    decreases vs
  {
    hide EncodeResult, Decode, DecodeChild, Direct, Normalize;
    if vs != [] {
      DirectEncodingIsDecodable(vs[0], depth);
      DirectEncodingsAreDecodable(vs[1..], depth);
      assert EncodeAll(vs, depth)[1..] == EncodeAll(vs[1..], depth);
    }
  }
}
