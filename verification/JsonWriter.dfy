/** JSON written out with any white space around its tokens and any spelling of its strings, and what
    `normalizeMessagePayload` makes of it: the same text without its line breaks. */
module JsonWriting {
  import opened Wrappers
  import opened Json
  import opened JsonGrammar
  import opened Payload

  /** How a code unit of a string is written, where there is a choice. */
  datatype Style = Plain | Short | Hex(upper: bool)

  function HexLetter(d: nat, upper: bool): (c: CodeUnit)
    requires d < 16
    ensures HexDigitOf(c, d) && c >= 48
  {
    if d < 10 then 48 + d else if upper then 55 + d else 87 + d
  }

  function WriteHex(u: CodeUnit, upper: bool): (t: Text)
    ensures t != [] && IsCharacter(u, t) && SingleLine(t)
  {
    [BACKSLASH, 117, HexLetter(u / 4096, upper), HexLetter(u / 256 % 16, upper), HexLetter(u / 16 % 16, upper),
     HexLetter(u % 16, upper)]
  }

  function Abbreviation(u: CodeUnit): (letter: Option<CodeUnit>)
    ensures letter.Some? ==> Abbreviates(letter.value, u) && letter.value >= 32
  {
    if u in {34, 92, 47} then Some(u)
    else if u == 8 then Some(98)
    else if u == 9 then Some(116)
    else if u == 10 then Some(110)
    else if u == 12 then Some(102)
    else if u == 13 then Some(114)
    else None
  }

  function WriteCharacter(u: CodeUnit, style: Style): (t: Text)
    ensures t != [] && IsCharacter(u, t) && SingleLine(t)
  {
    if style.Hex? then WriteHex(u, style.upper)
    else if style.Short? && Abbreviation(u).Some? then [BACKSLASH, Abbreviation(u).value]
    else if u >= 32 && u != QUOTE && u != BACKSLASH then [u]
    else WriteHex(u, false)
  }

  function WriteBody(text: Text, styles: nat -> Style, i: nat): (t: Text)
    ensures SingleLine(t)
  {
    if text == [] then [] else WriteCharacter(text[0], styles(i)) + WriteBody(text[1..], styles, i + 1)
  }

  function WriteToken(token: Token, styles: nat -> Style): Text {
    match token
    case Punctuation(u) => [u]
    case Literal(word) => word
    case Numeral(lexeme) => lexeme
    case Characters(text) => [QUOTE] + WriteBody(text, styles, 0) + [QUOTE]
  }

  /** White space before token i, or after the last. */
  type Layout = nat -> Text

  /** How unit k of token i is written. */
  type Styles = nat -> nat -> Style

  function WriteTokens(ts: seq<Token>, layout: Layout, styles: Styles, i: nat): Text {
    if ts == [] then layout(i)
    else layout(i) + (WriteToken(ts[0], styles(i)) + WriteTokens(ts[1..], layout, styles, i + 1))
  }

  function Write(v: Value, layout: Layout, styles: Styles): Text {
    WriteTokens(Unparse(v), layout, styles, 0)
  }

  /** The words and numbers in it are those of the grammar. */
  ghost predicate Writable(v: Value) {
    match v
    case Word(word) => word in {Ascii("true"), Ascii("false"), Ascii("null")}
    case Number(lexeme) => IsNumeral(lexeme)
    case String(_) => true
    case Array(items) => forall x :: x in items ==> Writable(x)
    case Object(members) => forall m :: m in members ==> Writable(m.value)
  }

  ghost predicate Spellable(token: Token) {
    match token
    case Punctuation(u) => u in {91, 93, 123, 125, 44, 58}
    case Literal(word) => word in {Ascii("true"), Ascii("false"), Ascii("null")}
    case Numeral(lexeme) => IsNumeral(lexeme)
    case Characters(_) => true
  }

  ghost predicate AllSpellable(ts: seq<Token>) {
    forall i :: 0 <= i < |ts| ==> Spellable(ts[i])
  }

  ghost predicate IsLayout(layout: Layout) {
    forall i: nat :: AllSpace(layout(i))
  }

  // ---- What is written is in the grammar ----

  lemma {:induction false} BodyIsWritten(text: Text, styles: nat -> Style, i: nat)
    ensures IsBody(WriteBody(text, styles, i), text)
    decreases |text|
  {
    hide IsCharacter, WriteCharacter;
    if text != [] {
      var c, rest := WriteCharacter(text[0], styles(i)), WriteBody(text[1..], styles, i + 1);
      BodyIsWritten(text[1..], styles, i + 1);
      var t := c + rest;
      assert t[..|c|] == c && t[|c|..] == rest;
      assert 0 < |c| <= |t| && IsCharacter(text[0], t[..|c|]) && IsBody(t[|c|..], text[1..]);
    }
  }

  lemma TokenIsWritten(token: Token, styles: nat -> Style)
    requires Spellable(token)
    ensures IsSpelling(token, WriteToken(token, styles))
  {
    hide IsNumeral, WriteBody, IsBody;
    if token.Characters? {
      BodyIsWritten(token.text, styles, 0);
      var t := WriteToken(token, styles);
      assert t[1..|t| - 1] == WriteBody(token.text, styles, 0);
    }
  }

  lemma {:induction false} TokensAreWritten(ts: seq<Token>, layout: Layout, styles: Styles, i: nat)
    requires AllSpellable(ts) && IsLayout(layout)
    ensures Spells(WriteTokens(ts, layout, styles, i), ts)
    decreases |ts|
  {
    hide AllSpace, WriteToken, IsSpelling, Spellable;
    assert AllSpace(layout(i));
    if ts != [] {
      TokensAreWritten(ts[1..], layout, styles, i + 1);
      TokenIsWritten(ts[0], styles(i));
      InFront(layout(i), WriteToken(ts[0], styles(i)), WriteTokens(ts[1..], layout, styles, i + 1), ts);
    }
  }

  lemma InFront(space: Text, word: Text, rest: Text, ts: seq<Token>)
    requires ts != [] && AllSpace(space) && IsSpelling(ts[0], word) && Spells(rest, ts[1..])
    ensures Spells(space + (word + rest), ts)
  {
    hide AllSpace, IsSpelling;
    var t, k, n := space + (word + rest), |space|, |space| + |word|;
    assert t[..k] == space && t[k..n] == word && t[n..] == rest;
    assert AllSpace(t[..k]) && IsSpelling(ts[0], t[k..n]) && Spells(t[n..], ts[1..]);
  }

  lemma SpellableJoins(a: seq<Token>, b: seq<Token>)
    requires AllSpellable(a) && AllSpellable(b)
    ensures AllSpellable(a + b)
  {
  }

  lemma {:induction false} WritableIsSpellable(v: Value)
    requires Writable(v)
    ensures AllSpellable(Unparse(v))
    decreases v, 0
  {
    hide IsNumeral, UnparseItems, UnparseMembers;
    match v {
      case Array(items) => if items != [] { ItemsAreSpellable(items); }
      case Object(members) => if members != [] { MembersAreSpellable(members); }
      case _ =>
    }
  }

  lemma {:induction false} ItemsAreSpellable(vs: seq<Value>)
    requires vs != [] && forall x :: x in vs ==> Writable(x)
    ensures AllSpellable(UnparseItems(vs))
    decreases vs, 1
  {
    hide Writable, Unparse, AllSpellable;
    WritableIsSpellable(vs[0]);
    PunctuationIsSpellable();
    if |vs| > 1 {
      ItemsAreSpellable(vs[1..]);
      SpellableJoins([COMMA], UnparseItems(vs[1..]));
    }
    SpellableJoins(Unparse(vs[0]), if |vs| == 1 then [CLOSE_ARRAY] else [COMMA] + UnparseItems(vs[1..]));
  }

  lemma {:induction false} MembersAreSpellable(ms: seq<Member>)
    requires ms != [] && forall m :: m in ms ==> Writable(m.value)
    ensures AllSpellable(UnparseMembers(ms))
    decreases ms, 1
  {
    hide Writable, Unparse, AllSpellable;
    WritableIsSpellable(ms[0].value);
    PunctuationIsSpellable();
    NamesAreSpellable(ms[0].name);
    if |ms| > 1 {
      MembersAreSpellable(ms[1..]);
      SpellableJoins([COMMA], UnparseMembers(ms[1..]));
    }
    var close := if |ms| == 1 then [CLOSE_OBJECT] else [COMMA] + UnparseMembers(ms[1..]);
    SpellableJoins(Unparse(ms[0].value), close);
    SpellableJoins([Characters(ms[0].name), COLON], Unparse(ms[0].value) + close);
  }

  lemma PunctuationIsSpellable()
    ensures AllSpellable([COMMA]) && AllSpellable([CLOSE_ARRAY]) && AllSpellable([CLOSE_OBJECT])
  {
  }

  lemma NamesAreSpellable(name: Text)
    ensures AllSpellable([Characters(name), COLON])
  {
  }

  /** Every value, in any layout and any spelling, is parsed back to itself. */
  lemma WrittenIsParsed(v: Value, layout: Layout, styles: Styles)
    requires Writable(v) && IsLayout(layout)
    ensures Parse(Write(v, layout, styles)) == Some(v)
  {
    hide Parse, Spells, Unparse, WriteTokens, Writable, AllSpellable, IsLayout;
    WritableIsSpellable(v);
    TokensAreWritten(Unparse(v), layout, styles, 0);
    ParsesExactlyTheGrammar(Write(v, layout, styles), v);
  }

  // ---- What normalizing does to it ----

  /** Stripping takes out CR and LF, and with `StripJoins` that says all it does. */
  lemma StripsLineBreaksOnly(u: CodeUnit)
    ensures Strip([u]) == if u == 10 || u == 13 then [] else [u]
  {
    assert [u][1..] == [];
    assert [u] + [] == [u];
  }

  function Stripped(layout: Layout): Layout {
    (i: nat) => Strip(layout(i))
  }

  lemma TokensAreSingleLine(token: Token, styles: nat -> Style)
    requires Spellable(token)
    ensures SingleLine(WriteToken(token, styles))
  {
    hide WriteBody, IsInt, IsFrac, IsExp;
    match token {
      case Numeral(lexeme) => NumeralsAreSingleLine(lexeme);
      case Literal(word) =>
        WordsAreSingleLine();
      case _ =>
    }
  }

  lemma WordsAreSingleLine()
    ensures SingleLine(Ascii("true")) && SingleLine(Ascii("false")) && SingleLine(Ascii("null"))
  {
  }

  lemma NumeralsAreSingleLine(t: Text)
    requires IsNumeral(t)
    ensures SingleLine(t)
  {
    hide NumeralLength;
    NumeralIsRead(t, []);
    assert t + [] == t;
    assert t[..|t|] == t;
  }

  lemma {:induction false} StrippingWrittenTokens(ts: seq<Token>, layout: Layout, styles: Styles, i: nat)
    requires AllSpellable(ts)
    ensures Strip(WriteTokens(ts, layout, styles, i)) == WriteTokens(ts, Stripped(layout), styles, i)
    decreases |ts|
  {
    hide WriteToken, Strip, Spellable;
    if ts != [] {
      var word, rest := WriteToken(ts[0], styles(i)), WriteTokens(ts[1..], layout, styles, i + 1);
      StrippingWrittenTokens(ts[1..], layout, styles, i + 1);
      TokensAreSingleLine(ts[0], styles(i));
      StripKeepsLines(word);
      StripJoins(word, rest);
      StripJoins(layout(i), word + rest);
    }
  }

  /** What is published as JSON goes out as it is, but for the line breaks in its layout. */
  lemma JsonIsPublishedAsItIs(v: Value, layout: Layout, styles: Styles)
    requires Writable(v) && IsLayout(layout)
    ensures Normalize(Write(v, layout, styles)) == Write(v, Stripped(layout), styles)
    ensures MeaningOf(Write(v, layout, styles)) == v
  {
    hide Parse, Unparse, WriteTokens, Writable, AllSpellable, IsLayout, Strip;
    WrittenIsParsed(v, layout, styles);
    WritableIsSpellable(v);
    StrippingWrittenTokens(Unparse(v), layout, styles, 0);
  }

  /** A message that is a JSON text goes out without its line breaks and means its value; any other goes out quoted
      and means itself. */
  lemma NormalizingFollowsTheGrammar(message: Text)
    ensures forall v :: Spells(message, Unparse(v)) ==> Normalize(message) == Strip(message) && MeaningOf(message) == v
    ensures (forall v :: !Spells(message, Unparse(v))) ==>
              Normalize(message) == Quote(message) && MeaningOf(message) == String(message)
  {
    hide Parse, Unparse, Spells, Strip, Quote;
    forall v | Spells(message, Unparse(v))
      ensures Parse(message) == Some(v)
    {
      ParsesExactlyTheGrammar(message, v);
    }
    if Parse(message).Some? {
      ParsesExactlyTheGrammar(message, Parse(message).value);
    }
  }
}
