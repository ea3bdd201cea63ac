/** `normalizeMessagePayload` (src/translate/pubsub.ts): what is published reaches the client's JSON.parse with
    its meaning intact, on a single line. */
module Payload {
  import opened Wrappers
  import opened Json

  predicate IsLineBreak(u: CodeUnit) {
    u == 10 || u == 13
  }

  predicate SingleLine(s: Text) {
    forall i :: 0 <= i < |s| ==> !IsLineBreak(s[i])
  }

  /** `message.replace(/[\r\n]/g, "")`. */
  function Strip(s: Text): (r: Text)
    ensures SingleLine(r)
  {
    if s == [] then []
    else if IsLineBreak(s[0]) then Strip(s[1..])
    else [s[0]] + Strip(s[1..])
  }

  predicate IsHighSurrogate(u: CodeUnit) {
    0xD800 <= u < 0xDC00
  }

  predicate IsLowSurrogate(u: CodeUnit) {
    0xDC00 <= u < 0xE000
  }

  function HexDigit(d: nat): (u: CodeUnit)
    requires d < 16
    ensures HexValue(u) == Some(d)
    ensures u >= 48
  {
    if d < 10 then 48 + d else 87 + d
  }

  function Hex4(u: CodeUnit): (t: Text)
    ensures |t| == 4 && ReadHex4(t) == Some(u)
  {
    var a := u / 16;
    var b := a / 16;
    var c := b / 16;
    [HexDigit(c), HexDigit(b % 16), HexDigit(a % 16), HexDigit(u % 16)]
  }

  /** How `JSON.stringify` spells one code unit inside a string; lone surrogates are escaped. */
  function Spell(u: CodeUnit, paired: bool): (t: Text)
    ensures ReadCharacter(t) == Some((u, |t|)) && SingleLine(t)
  {
    if u == QUOTE || u == BACKSLASH then [BACKSLASH, u]
    else if u == 8 then [BACKSLASH, 98]
    else if u == 9 then [BACKSLASH, 116]
    else if u == 10 then [BACKSLASH, 110]
    else if u == 12 then [BACKSLASH, 102]
    else if u == 13 then [BACKSLASH, 114]
    else if u < 32 || ((IsHighSurrogate(u) || IsLowSurrogate(u)) && !paired) then
      var t := [BACKSLASH, 117] + Hex4(u);
      assert t[2..] == Hex4(u);
      t
    else [u]
  }

  predicate StartsWithPair(s: Text) {
    |s| > 1 && IsHighSurrogate(s[0]) && IsLowSurrogate(s[1])
  }

  function SpellAll(s: Text): (t: Text)
    ensures SingleLine(t)
  {
    if s == [] then []
    else if StartsWithPair(s) then
      Spell(s[0], true) + (Spell(s[1], true) + SpellAll(s[2..]))
    else Spell(s[0], false) + SpellAll(s[1..])
  }

  /** `JSON.stringify` of a string. */
  function Quote(s: Text): (t: Text)
    ensures SingleLine(t)
  {
    [QUOTE] + SpellAll(s) + [QUOTE]
  }

  function Normalize(message: Text): Text {
    if Parse(message).Some? then Strip(message) else Quote(message)
  }

  // ---- Reading looks no further than it has to ----

  /** After a scalar only these may follow in a JSON text. */
  predicate Stops(b: Text) {
    b == [] || IsSpace(b[0]) || IsPunctuation(b[0])
  }

  lemma {:induction false} DigitRunIsLocal(s: Text, n: nat, b: Text)
    requires DigitRun(s) <= n <= |s| && Stops(b)
    ensures DigitRun(s[..n] + b) == DigitRun(s)
  {
    if n > 0 && IsDigit(s[0]) {
      DigitRunIsLocal(s[1..], n - 1, b);
      assert (s[..n] + b)[1..] == s[1..][..n - 1] + b;
    } else if n == 0 {
      assert s[..n] + b == b;
    }
  }

  lemma IntegerPartIsLocal(s: Text, n: nat, b: Text)
    requires IntegerPart(s).Some? && IntegerPart(s).value <= n <= |s| && Stops(b)
    ensures IntegerPart(s[..n] + b) == IntegerPart(s)
  {
    if s[0] != 48 {
      DigitRunIsLocal(s, n, b);
    }
  }

  lemma FractionPartIsLocal(s: Text, n: nat, b: Text)
    requires FractionPart(s).Some? && FractionPart(s).value <= n <= |s| && Stops(b)
    ensures FractionPart(s[..n] + b) == FractionPart(s)
  {
    if n == 0 {
      assert s[..n] + b == b;
    } else if s[0] == 46 {
      DigitRunIsLocal(s[1..], n - 1, b);
      assert (s[..n] + b)[1..] == s[1..][..n - 1] + b;
    }
  }

  lemma ExponentPartIsLocal(s: Text, n: nat, b: Text)
    requires ExponentPart(s).Some? && ExponentPart(s).value <= n <= |s| && Stops(b)
    ensures ExponentPart(s[..n] + b) == ExponentPart(s)
  {
    if n == 0 {
      assert s[..n] + b == b;
    } else if s[0] == 101 || s[0] == 69 {
      var lead := if |s| > 1 && (s[1] == 43 || s[1] == 45) then 2 else 1;
      DigitRunIsLocal(s[lead..], n - lead, b);
      TailOfCut(s, n, b, lead);
      assert (s[..n] + b)[0] == s[0] && (s[..n] + b)[1] == s[1];
    }
  }

  lemma NumeralLengthIsLocal(s: Text, b: Text)
    requires s != [] && NumeralLength(s).Some? && Stops(b)
    ensures NumeralLength(s[..NumeralLength(s).value] + b) == NumeralLength(s)
  {
    hide IntegerPart, FractionPart, ExponentPart, Stops;
    var n, m := NumeralLength(s).value, if s[0] == 45 then 1 else 0;
    var t := s[..n] + b;
    assert t[0] == s[0];
    var i := IntegerPart(s[m..]).value;
    var f := FractionPart(s[m + i..]).value;
    TailOfCut(s, n, b, m);
    IntegerPartIsLocal(s[m..], n - m, b);
    TailOfCut(s, n, b, m + i);
    FractionPartIsLocal(s[m + i..], n - m - i, b);
    TailOfCut(s, n, b, m + i + f);
    ExponentPartIsLocal(s[m + i + f..], n - m - i - f, b);
  }

  lemma TailOfCut(s: Text, n: nat, b: Text, m: nat)
    requires m <= n <= |s|
    ensures (s[..n] + b)[m..] == s[m..][..n - m] + b
  {
  }

  lemma ReadCharacterIsLocal(s: Text, n: nat, b: Text)
    requires ReadCharacter(s).Some? && ReadCharacter(s).value.1 <= n <= |s|
    ensures ReadCharacter(s[..n] + b) == ReadCharacter(s)
  {
    var t := s[..n] + b;
    assert forall i :: 0 <= i < n ==> t[i] == s[i];
    if s[0] == BACKSLASH && s[1] == 117 {
      assert forall i :: 0 <= i < 4 ==> t[2..][i] == s[2..][i];
    }
  }

  lemma {:induction false} ReadStringIsLocal(s: Text, n: nat, b: Text)
    requires ReadString(s).Some? && ReadString(s).value.1 <= n <= |s|
    ensures ReadString(s[..n] + b) == ReadString(s)
    decreases |s|
  {
    hide ReadCharacter;
    var t := s[..n] + b;
    assert t[0] == s[0];
    if s[0] != QUOTE {
      var k := ReadCharacter(s).value.1;
      ReadCharacterIsLocal(s, n, b);
      ReadStringIsLocal(s[k..], n - k, b);
      TailOfCut(s, n, b, k);
    }
  }

  lemma ReadLiteralIsLocal(s: Text, b: Text)
    requires ReadLiteral(s).Some?
    ensures ReadLiteral(s[..|ReadLiteral(s).value|] + b) == ReadLiteral(s)
  {
    var w := ReadLiteral(s).value;
    assert s[..|w|] == w;
    assert (w + b)[0] == w[0];
    assert Ascii("true")[0] != Ascii("false")[0] && Ascii("false")[0] != Ascii("null")[0];
    assert Ascii("true")[0] != Ascii("null")[0];
  }

  lemma ReadTokenIsLocal(s: Text, b: Text)
    requires s != [] && !IsSpace(s[0]) && ReadToken(s).Some?
    requires ReadToken(s).value.0.Punctuation? || Stops(b)
    ensures ReadToken(s[..ReadToken(s).value.1] + b) == ReadToken(s)
  {
    hide ReadString, NumeralLength, ReadLiteral;
    var n := ReadToken(s).value.1;
    var t := s[..n] + b;
    assert t[0] == s[0];
    if IsPunctuation(s[0]) {
    } else if s[0] == QUOTE {
      ReadStringIsLocal(s[1..], n - 1, b);
      TailOfCut(s, n, b, 1);
    } else if s[0] == 45 || IsDigit(s[0]) {
      NumeralLengthIsLocal(s, b);
      assert t[..n] == s[..n];
    } else {
      ReadLiteralIsLocal(s, b);
    }
  }

  // ---- Stripping ----

  lemma {:induction false} StripJoins(a: Text, b: Text)
    ensures Strip(a + b) == Strip(a) + Strip(b)
  {
    if a == [] {
      assert a + b == b;
    } else {
      assert (a + b)[1..] == a[1..] + b;
      StripJoins(a[1..], b);
    }
  }

  lemma {:induction false} StripKeepsLines(a: Text)
    requires SingleLine(a)
    ensures Strip(a) == a
  {
    if a != [] {
      StripKeepsLines(a[1..]);
    }
  }

  lemma {:induction false} StrippedStillStops(r: Text)
    requires Tokens(r).Some? && (Tokens(r).value == [] || Tokens(r).value[0].Punctuation?)
    ensures Stops(Strip(r))
    decreases |r|
  {
    hide ReadToken;
    if r != [] && IsLineBreak(r[0]) {
      StrippedStillStops(r[1..]);
    }
  }

  lemma TailIsSeparated(ts: seq<Token>)
    requires Separated(ts) && ts != []
    ensures Separated(ts[1..])
  {
    var tail := ts[1..];
    forall i | 0 <= i < |tail| - 1
      ensures tail[i].Punctuation? || tail[i + 1].Punctuation?
    {
      assert tail[i] == ts[i + 1] && tail[i + 1] == ts[i + 2];
    }
  }

  /** Taking out the line breaks neither joins two tokens nor splits one. */
  lemma {:induction false} StrippingKeepsTokens(s: Text)
    requires Tokens(s).Some? && Separated(Tokens(s).value)
    ensures Tokens(Strip(s)) == Tokens(s)
    decreases |s|
  {
    hide ReadToken;
    if s == [] {
    } else if IsSpace(s[0]) {
      StrippingKeepsTokens(s[1..]);
      if !IsLineBreak(s[0]) {
        assert Strip(s)[1..] == Strip(s[1..]);
      }
    } else {
      var (t, n) := ReadToken(s).value;
      var ts := Tokens(s).value;
      var rest := s[n..];
      assert ts[1..] == Tokens(rest).value;
      TailIsSeparated(ts);
      StrippingKeepsTokens(rest);
      if !t.Punctuation? {
        assert |ts| > 1 ==> ts[0] == t && ts[1] == ts[1..][0];
        StrippedStillStops(rest);
      }
      ReadTokenIsLocal(s, Strip(rest));
      StripKeepsLines(s[..n]);
      StripJoins(s[..n], rest);
      assert s == s[..n] + rest;
      assert Strip(s) == s[..n] + Strip(rest);
      assert Strip(s)[0] == s[0] && Strip(s)[n..] == Strip(rest);
    }
  }

  lemma StrippingKeepsMeaning(s: Text)
    requires Parse(s).Some?
    ensures Parse(Strip(s)) == Parse(s)
  {
    hide Tokens, ReadValue;
    var ts := Tokens(s).value;
    ValuesAreSeparated(ts);
    assert ts[..|ts|] == ts;
    StrippingKeepsTokens(s);
  }

  // ---- Quoting ----

  lemma SpellingIsRead(u: CodeUnit, paired: bool, s: Text, rest: Text, n: nat)
    requires ReadString(s) == Some((rest, n))
    ensures ReadString(Spell(u, paired) + s) == Some(([u] + rest, |Spell(u, paired)| + n))
  {
    hide ReadCharacter, Spell;
    var t := Spell(u, paired);
    assert t[..|t|] == t;
    ReadCharacterIsLocal(t, |t|, s);
    assert (t + s)[0] == t[0];
    assert (t + s)[|t|..] == s;
  }

  /** One spelled unit in front of a body that is read back as `rest`. */
  lemma UnitIsRead(u: CodeUnit, paired: bool, tail: Text, close: Text, rest: Text)
    requires ReadString(tail + close) == Some((rest, |tail| + 1))
    ensures ReadString((Spell(u, paired) + tail) + close) == Some(([u] + rest, |Spell(u, paired) + tail| + 1))
  {
    hide ReadString, Spell;
    SpellingIsRead(u, paired, tail + close, rest, |tail| + 1);
    assert (Spell(u, paired) + tail) + close == Spell(u, paired) + (tail + close);
  }

  lemma PairIsRead(high: CodeUnit, low: CodeUnit, tail: Text, close: Text, rest: Text)
    requires ReadString(tail + close) == Some((rest, |tail| + 1))
    ensures var body := Spell(high, true) + (Spell(low, true) + tail);
            ReadString(body + close) == Some(([high] + ([low] + rest), |body| + 1))
  {
    hide ReadString, Spell;
    UnitIsRead(low, true, tail, close, rest);
    UnitIsRead(high, true, Spell(low, true) + tail, close, [low] + rest);
  }

  lemma SpellAllUnfolds(s: Text)
    ensures s == [] ==> SpellAll(s) == []
    ensures StartsWithPair(s) ==> SpellAll(s) == Spell(s[0], true) + (Spell(s[1], true) + SpellAll(s[2..]))
    ensures s != [] && !StartsWithPair(s) ==> SpellAll(s) == Spell(s[0], false) + SpellAll(s[1..])
  {
    hide Spell, SingleLine;
  }

  lemma {:induction false} SpellAllIsRead(s: Text, close: Text)
    requires ReadString(close) == Some(([], 1))
    ensures ReadString(SpellAll(s) + close) == Some((s, |SpellAll(s)| + 1))
    decreases |s|
  {
    hide ReadString, Spell, SpellAll, SingleLine, IsHighSurrogate, IsLowSurrogate;
    SpellAllUnfolds(s);
    if s == [] {
      assert [] + close == close;
    } else if StartsWithPair(s) {
      SpellAllIsRead(s[2..], close);
      PairIsRead(s[0], s[1], SpellAll(s[2..]), close, s[2..]);
      assert [s[0]] + ([s[1]] + s[2..]) == s;
    } else {
      SpellAllIsRead(s[1..], close);
      UnitIsRead(s[0], false, SpellAll(s[1..]), close, s[1..]);
      assert [s[0]] + s[1..] == s;
    }
  }

  lemma ClosingQuoteIsRead()
    ensures ReadString([QUOTE]) == Some(([], 1))
  {
  }

  lemma QuotedTextsParse(s: Text)
    ensures Parse(Quote(s)) == Some(String(s))
  {
    hide ReadString, SpellAll;
    ClosingQuoteIsRead();
    SpellAllIsRead(s, [QUOTE]);
    var q := Quote(s);
    assert q[1..] == SpellAll(s) + [QUOTE];
    var n := |SpellAll(s)| + 2;
    assert ReadToken(q) == Some((Characters(s), n));
    assert q[n..] == [];
    assert Tokens([]) == Some([]);
    assert [Characters(s)] + [] == [Characters(s)];
    assert Tokens(q) == Some([Characters(s)]);
  }

  // ---- Surrogates ----

  /** Every surrogate stands in a pair, so that the text can be sent as UTF-8. */
  predicate WellFormed(t: Text) {
    || t == []
    || (StartsWithPair(t) && WellFormed(t[2..]))
    || (!IsHighSurrogate(t[0]) && !IsLowSurrogate(t[0]) && WellFormed(t[1..]))
  }

  lemma {:induction false} WellFormedJoins(a: Text, b: Text)
    requires WellFormed(a) && WellFormed(b)
    ensures WellFormed(a + b)
    decreases |a|
  {
    if a == [] {
      assert a + b == b;
    } else {
      var k := if StartsWithPair(a) then 2 else 1;
      WellFormedJoins(a[k..], b);
      assert (a + b)[0] == a[0] && (k == 2 ==> (a + b)[1] == a[1]) && (a + b)[k..] == a[k..] + b;
    }
  }

  lemma {:induction false} PlainIsWellFormed(t: Text)
    requires forall i :: 0 <= i < |t| ==> !IsHighSurrogate(t[i]) && !IsLowSurrogate(t[i])
    ensures WellFormed(t)
  {
    if t != [] {
      PlainIsWellFormed(t[1..]);
    }
  }

  lemma HexIsPlain(u: CodeUnit)
    ensures forall i :: 0 <= i < 4 ==> !IsHighSurrogate(Hex4(u)[i]) && !IsLowSurrogate(Hex4(u)[i])
  {
  }

  lemma SpellingIsWellFormed(u: CodeUnit)
    ensures WellFormed(Spell(u, false))
  {
    hide ReadCharacter, ReadHex4, HexValue;
    HexIsPlain(u);
    PlainIsWellFormed(Spell(u, false));
  }

  lemma PairIsWellFormed(high: CodeUnit, low: CodeUnit)
    requires IsHighSurrogate(high) && IsLowSurrogate(low)
    ensures WellFormed(Spell(high, true) + Spell(low, true))
  {
    hide ReadCharacter;
    var t := Spell(high, true) + Spell(low, true);
    assert t == [high, low] && t[2..] == [];
  }

  /** Whatever code units a message has, lone surrogates included, its quoted form is well-formed. */
  lemma {:induction false} SpellingsAreWellFormed(s: Text)
    ensures WellFormed(SpellAll(s))
    decreases |s|
  {
    hide Spell, SpellAll, WellFormed, IsHighSurrogate, IsLowSurrogate;
    SpellAllUnfolds(s);
    if s == [] {
      PlainIsWellFormed([]);
    } else if StartsWithPair(s) {
      var rest := SpellAll(s[2..]);
      SpellingsAreWellFormed(s[2..]);
      PairIsWellFormed(s[0], s[1]);
      WellFormedJoins(Spell(s[0], true) + Spell(s[1], true), rest);
      assert Spell(s[0], true) + (Spell(s[1], true) + rest) == (Spell(s[0], true) + Spell(s[1], true)) + rest;
    } else {
      SpellingsAreWellFormed(s[1..]);
      SpellingIsWellFormed(s[0]);
      WellFormedJoins(Spell(s[0], false), SpellAll(s[1..]));
    }
  }

  lemma QuotedTextsAreWellFormed(s: Text)
    ensures WellFormed(Quote(s))
  {
    hide WellFormed, SpellAll;
    SpellingsAreWellFormed(s);
    PlainIsWellFormed([QUOTE]);
    WellFormedJoins([QUOTE], SpellAll(s));
    WellFormedJoins([QUOTE] + SpellAll(s), [QUOTE]);
  }

  // ---- The payload ----

  /** What a subscriber of the SDK should see for a published message. */
  function MeaningOf(message: Text): Value {
    match Parse(message)
    case Some(v) => v
    case None => String(message)
  }

  /** Every payload is one line of valid JSON and parses to what the message means: its own value if it was
      JSON, and otherwise the very string published. */
  lemma PayloadKeepsMeaning(message: Text)
    ensures SingleLine(Normalize(message))
    ensures Parse(Normalize(message)) == Some(MeaningOf(message))
  {
    hide Parse, Quote, Strip;
    if Parse(message).Some? {
      StrippingKeepsMeaning(message);
    } else {
      QuotedTextsParse(message);
    }
  }
}
