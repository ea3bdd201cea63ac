/** The JSON grammar (RFC 8259) as a relation between values and their texts, written without reference to how a text
    is read, and the proof that `JSON.parse` as Json.dfy models it reads exactly that language. Then a writer with any
    layout and any spelling of strings, for what `normalizeMessagePayload` does to JSON. */
module JsonGrammar {
  import opened Wrappers
  import opened Json
  import opened Payload

  // ---- Characters, section 7 ----

  predicate Abbreviates(letter: CodeUnit, u: CodeUnit) {
    (letter, u) in {(34, 34), (92, 92), (47, 47), (98, 8), (102, 12), (110, 10), (114, 13), (116, 9)}
  }

  predicate HexDigitOf(c: CodeUnit, d: nat) {
    (d < 10 && c == 48 + d) || (10 <= d < 16 && (c == 87 + d || c == 55 + d))
  }

  /** One of the spellings of a code unit inside a string. */
  predicate IsCharacter(u: CodeUnit, t: Text) {
    || (t == [u] && u >= 32 && u != QUOTE && u != BACKSLASH)
    || (|t| == 2 && t[0] == BACKSLASH && Abbreviates(t[1], u))
    || (|t| == 6 && t[0] == BACKSLASH && t[1] == 117
        && HexDigitOf(t[2], u / 4096) && HexDigitOf(t[3], u / 256 % 16)
        && HexDigitOf(t[4], u / 16 % 16) && HexDigitOf(t[5], u % 16))
  }

  ghost predicate IsBody(t: Text, text: Text) {
    if text == [] then t == []
    else exists k :: 0 < k <= |t| && IsCharacter(text[0], t[..k]) && IsBody(t[k..], text[1..])
  }

  // ---- Numbers, section 6 ----

  predicate AllDigits(t: Text) {
    forall i :: 0 <= i < |t| ==> 48 <= t[i] <= 57
  }

  predicate IsInt(t: Text) {
    t != [] && AllDigits(t) && (t[0] == 48 ==> |t| == 1)
  }

  predicate IsFrac(t: Text) {
    t == [] || (t[0] == 46 && |t| > 1 && AllDigits(t[1..]))
  }

  predicate IsExp(t: Text) {
    t == [] || ((t[0] == 101 || t[0] == 69)
                && var digits := if |t| > 1 && (t[1] == 43 || t[1] == 45) then t[2..] else t[1..];
                   digits != [] && AllDigits(digits))
  }

  function MinusLength(t: Text): (m: nat)
    ensures m <= |t|
  {
    if t != [] && t[0] == 45 then 1 else 0
  }

  ghost predicate IsNumeral(t: Text) {
    exists i, f :: MinusLength(t) <= i <= f <= |t| && IsInt(t[MinusLength(t)..i]) && IsFrac(t[i..f]) && IsExp(t[f..])
  }

  // ---- Tokens and texts, section 2 ----

  predicate AllSpace(t: Text) {
    forall i :: 0 <= i < |t| ==> t[i] in {32, 9, 10, 13}
  }

  ghost predicate IsSpelling(token: Token, t: Text) {
    match token
    case Punctuation(u) => u in {91, 93, 123, 125, 44, 58} && t == [u]
    case Literal(word) => word in {Ascii("true"), Ascii("false"), Ascii("null")} && t == word
    case Numeral(lexeme) => t == lexeme && IsNumeral(lexeme)
    case Characters(text) => |t| >= 2 && t[0] == QUOTE && t[|t| - 1] == QUOTE && IsBody(t[1..|t| - 1], text)
  }

  /** The tokens one after the other, with white space before, between and after them. */
  ghost predicate Spells(t: Text, ts: seq<Token>)
    decreases |ts|
  {
    if ts == [] then AllSpace(t)
    else
      exists k, n :: 0 <= k <= n <= |t| && AllSpace(t[..k]) && IsSpelling(ts[0], t[k..n]) && Spells(t[n..], ts[1..])
  }

  /** The tokens of a value, sections 3 to 5. */
  function Unparse(v: Value): (ts: seq<Token>)
    ensures ts != [] && ts[0] != CLOSE_ARRAY && ts[0] != CLOSE_OBJECT
    decreases v, 0
  {
    match v
    case Word(word) => [Literal(word)]
    case Number(lexeme) => [Numeral(lexeme)]
    case String(text) => [Characters(text)]
    case Array(items) => [OPEN_ARRAY] + if items == [] then [CLOSE_ARRAY] else UnparseItems(items)
    case Object(members) => [OPEN_OBJECT] + if members == [] then [CLOSE_OBJECT] else UnparseMembers(members)
  }

  function UnparseItems(vs: seq<Value>): (ts: seq<Token>)
    requires vs != []
    ensures ts != [] && ts[0] != CLOSE_ARRAY
    decreases vs, 1
  {
    Unparse(vs[0]) + if |vs| == 1 then [CLOSE_ARRAY] else [COMMA] + UnparseItems(vs[1..])
  }

  function UnparseMembers(ms: seq<Member>): (ts: seq<Token>)
    requires ms != []
    ensures ts != [] && ts[0].Characters?
    decreases ms, 1
  {
    [Characters(ms[0].name), COLON]
      + (Unparse(ms[0].value) + if |ms| == 1 then [CLOSE_OBJECT] else [COMMA] + UnparseMembers(ms[1..]))
  }

  // ---- Values and their tokens ----

  lemma {:induction false} UnparsedIsRead(v: Value, rest: seq<Token>)
    ensures ReadValue(Unparse(v) + rest) == Some((v, |Unparse(v)|))
    decreases v, 0
  {
    hide ReadItems, ReadMembers, UnparseItems, UnparseMembers;
    match v {
      case Array(items) =>
        if items != [] {
          UnparsedItemsAreRead(items, rest);
          ArrayIsRead(items, rest);
        }
      case Object(members) =>
        if members != [] {
          UnparsedMembersAreRead(members, rest);
          ObjectIsRead(members, rest);
        }
      case _ =>
    }
  }

  lemma ArrayIsRead(items: seq<Value>, rest: seq<Token>)
    requires items != [] && ReadItems(UnparseItems(items) + rest) == Some((items, |UnparseItems(items)|))
    ensures ReadValue(Unparse(Array(items)) + rest) == Some((Array(items), |Unparse(Array(items))|))
  {
    hide ReadItems, UnparseItems;
    var ts := Unparse(Array(items)) + rest;
    assert ts[1..] == UnparseItems(items) + rest;
    assert ts[1] == UnparseItems(items)[0];
  }

  lemma ObjectIsRead(members: seq<Member>, rest: seq<Token>)
    requires members != []
    requires ReadMembers(UnparseMembers(members) + rest) == Some((members, |UnparseMembers(members)|))
    ensures ReadValue(Unparse(Object(members)) + rest) == Some((Object(members), |Unparse(Object(members))|))
  {
    hide ReadMembers, UnparseMembers;
    var ts := Unparse(Object(members)) + rest;
    assert ts[1..] == UnparseMembers(members) + rest;
    assert ts[1] == UnparseMembers(members)[0];
  }

  /** One item in front of what follows it. */
  lemma ItemIsRead(v: Value, first: seq<Token>, after: seq<Token>)
    requires ReadValue(first + after) == Some((v, |first|)) && after != []
    ensures after[0] == CLOSE_ARRAY ==> ReadItems(first + after) == Some(([v], |first| + 1))
    ensures after[0] == COMMA && ReadItems(after[1..]).Some? ==>
              ReadItems(first + after)
                == Some(([v] + ReadItems(after[1..]).value.0, |first| + 1 + ReadItems(after[1..]).value.1))
  {
    hide ReadValue;
    assert (first + after)[|first|] == after[0];
    assert (first + after)[|first| + 1..] == after[1..];
  }

  lemma {:induction false} UnparsedItemsAreRead(vs: seq<Value>, rest: seq<Token>)
    requires vs != []
    ensures ReadItems(UnparseItems(vs) + rest) == Some((vs, |UnparseItems(vs)|))
    decreases vs, 1
  {
    hide ReadValue, ReadItems, Unparse;
    var first := Unparse(vs[0]);
    var close := if |vs| == 1 then [CLOSE_ARRAY] else [COMMA] + UnparseItems(vs[1..]);
    UnparsedIsRead(vs[0], close + rest);
    ItemIsRead(vs[0], first, close + rest);
    assert UnparseItems(vs) == first + close;
    assert UnparseItems(vs) + rest == first + (close + rest);
    assert (close + rest)[0] == close[0];
    assert vs == [vs[0]] + vs[1..];
    if |vs| > 1 {
      UnparsedItemsAreRead(vs[1..], rest);
      assert (close + rest)[1..] == UnparseItems(vs[1..]) + rest;
    } else {
      assert vs == [vs[0]];
    }
  }

  lemma MemberIsRead(name: Text, v: Value, first: seq<Token>, after: seq<Token>)
    requires ReadValue(first + after) == Some((v, |first|)) && after != []
    ensures var ts := [Characters(name), COLON] + (first + after);
            && (after[0] == CLOSE_OBJECT ==> ReadMembers(ts) == Some(([Member(name, v)], |first| + 3)))
            && (after[0] == COMMA && ReadMembers(after[1..]).Some? ==>
                  ReadMembers(ts) == Some(([Member(name, v)] + ReadMembers(after[1..]).value.0,
                                           |first| + 3 + ReadMembers(after[1..]).value.1)))
  {
    hide ReadValue;
    var ts := [Characters(name), COLON] + (first + after);
    assert ts[2..] == first + after;
    assert ts[|first| + 2] == after[0];
    assert ts[|first| + 3..] == after[1..];
  }

  lemma {:induction false} UnparsedMembersAreRead(ms: seq<Member>, rest: seq<Token>)
    requires ms != []
    ensures ReadMembers(UnparseMembers(ms) + rest) == Some((ms, |UnparseMembers(ms)|))
    decreases ms, 1
  {
    hide ReadValue, ReadMembers, Unparse;
    var first := Unparse(ms[0].value);
    var close := if |ms| == 1 then [CLOSE_OBJECT] else [COMMA] + UnparseMembers(ms[1..]);
    UnparsedIsRead(ms[0].value, close + rest);
    MemberIsRead(ms[0].name, ms[0].value, first, close + rest);
    assert UnparseMembers(ms) == [Characters(ms[0].name), COLON] + (first + close);
    assert UnparseMembers(ms) + rest == [Characters(ms[0].name), COLON] + (first + (close + rest));
    assert (close + rest)[0] == close[0];
    assert ms == [ms[0]] + ms[1..] && ms[0] == Member(ms[0].name, ms[0].value);
    if |ms| > 1 {
      UnparsedMembersAreRead(ms[1..], rest);
      assert (close + rest)[1..] == UnparseMembers(ms[1..]) + rest;
    } else {
      assert ms == [ms[0]];
    }
  }

  lemma {:induction false} ReadIsUnparsed(ts: seq<Token>)
    requires ReadValue(ts).Some?
    ensures ts[..ReadValue(ts).value.1] == Unparse(ReadValue(ts).value.0)
    decreases |ts|, 0
  {
    var (v, k) := ReadValue(ts).value;
    if k > 2 {
      if ts[0] == OPEN_ARRAY {
        ReadItemsAreUnparsed(ts[1..]);
      } else {
        ReadMembersAreUnparsed(ts[1..]);
      }
      assert ts[..k] == [ts[0]] + ts[1..][..k - 1];
    }
  }

  lemma {:induction false} ReadItemsAreUnparsed(ts: seq<Token>)
    requires ReadItems(ts).Some?
    ensures ReadItems(ts).value.0 != [] && ReadItems(ts).value.1 >= 2
    ensures ts[..ReadItems(ts).value.1] == UnparseItems(ReadItems(ts).value.0)
    decreases |ts|, 1
  {
    hide ReadValue, Unparse;
    var (vs, n) := ReadItems(ts).value;
    var (v, k) := ReadValue(ts).value;
    ReadIsUnparsed(ts);
    if ts[k] == CLOSE_ARRAY {
      assert ts[..n] == ts[..k] + [ts[k]];
    } else {
      var rest := ts[k + 1..];
      ReadItemsAreUnparsed(rest);
      assert vs[1..] == ReadItems(rest).value.0;
      assert ts[..n] == ts[..k] + ([ts[k]] + rest[..n - k - 1]);
    }
  }

  lemma {:induction false} ReadMembersAreUnparsed(ts: seq<Token>)
    requires ReadMembers(ts).Some?
    ensures ReadMembers(ts).value.0 != [] && ReadMembers(ts).value.1 >= 2
    ensures ts[..ReadMembers(ts).value.1] == UnparseMembers(ReadMembers(ts).value.0)
    decreases |ts|, 1
  {
    hide ReadValue, Unparse;
    var (ms, n) := ReadMembers(ts).value;
    var (v, k) := ReadValue(ts[2..]).value;
    ReadIsUnparsed(ts[2..]);
    assert ts[0] == Characters(ts[0].text);
    if ts[k + 2] == CLOSE_OBJECT {
      assert ts[..n] == [ts[0], ts[1]] + (ts[2..][..k] + [ts[k + 2]]);
    } else {
      var rest := ts[k + 3..];
      ReadMembersAreUnparsed(rest);
      assert ms[1..] == ReadMembers(rest).value.0;
      assert ts[..n] == [ts[0], ts[1]] + (ts[2..][..k] + ([ts[k + 2]] + rest[..n - k - 3]));
    }
  }

  // ---- Strings and how they are read ----

  lemma CharacterIsRead(u: CodeUnit, t: Text, rest: Text)
    requires IsCharacter(u, t)
    ensures t != [] && t[0] != QUOTE && ReadCharacter(t + rest) == Some((u, |t|))
  {
    hide ReadHex4, HexDigitOf;
    var s := t + rest;
    assert forall i :: 0 <= i < |t| ==> s[i] == t[i];
    if |t| == 6 {
      assert forall i :: 0 <= i < 4 ==> s[2..][i] == t[i + 2];
      HexIsRead(u, s[2..]);
    }
  }

  lemma HexIsRead(u: CodeUnit, s: Text)
    requires |s| >= 4
    requires HexDigitOf(s[0], u / 4096) && HexDigitOf(s[1], u / 256 % 16)
    requires HexDigitOf(s[2], u / 16 % 16) && HexDigitOf(s[3], u % 16)
    ensures ReadHex4(s) == Some(u)
  {
    hide HexDigitOf, HexValue;
    DigitIsValued(s[0], u / 4096);
    DigitIsValued(s[1], u / 256 % 16);
    DigitIsValued(s[2], u / 16 % 16);
    DigitIsValued(s[3], u % 16);
    assert u / 16 == 16 * (u / 256) + u / 16 % 16;
    assert u / 256 == 16 * (u / 4096) + u / 256 % 16;
  }

  lemma DigitIsValued(c: CodeUnit, d: nat)
    requires HexDigitOf(c, d)
    ensures HexValue(c) == Some(d)
  {
  }

  lemma CharacterWasRead(s: Text)
    requires ReadCharacter(s).Some?
    ensures IsCharacter(ReadCharacter(s).value.0, s[..ReadCharacter(s).value.1])
  {
    var (u, k) := ReadCharacter(s).value;
    if k == 6 {
      HexWasRead(s[2..]);
      assert forall i :: 0 <= i < 4 ==> s[2..][i] == s[..6][i + 2];
    } else if k == 1 {
      assert s[..1] == [s[0]];
    }
  }

  lemma HexWasRead(s: Text)
    requires ReadHex4(s).Some?
    ensures var u := ReadHex4(s).value;
            && HexDigitOf(s[0], u / 4096) && HexDigitOf(s[1], u / 256 % 16)
            && HexDigitOf(s[2], u / 16 % 16) && HexDigitOf(s[3], u % 16)
  {
    DigitsOf(HexValue(s[0]).value, HexValue(s[1]).value, HexValue(s[2]).value, HexValue(s[3]).value);
  }

  lemma DigitsOf(a: nat, b: nat, c: nat, d: nat)
    requires a < 16 && b < 16 && c < 16 && d < 16
    ensures var u := 4096 * a + 256 * b + 16 * c + d;
            u / 4096 == a && u / 256 % 16 == b && u / 16 % 16 == c && u % 16 == d
  {
    var u := 4096 * a + 256 * b + 16 * c + d;
    assert u / 16 == 256 * a + 16 * b + c;
    assert u / 256 == 16 * a + b;
  }

  lemma {:induction false} BodyIsRead(t: Text, text: Text, rest: Text)
    requires IsBody(t, text)
    ensures ReadString(t + ([QUOTE] + rest)) == Some((text, |t| + 1))
    decreases |text|
  {
    hide ReadCharacter, IsCharacter, ReadString;
    var close := [QUOTE] + rest;
    if text == [] {
      assert t + close == close;
      CloseIsRead(rest);
    } else {
      var k :| 0 < k <= |t| && IsCharacter(text[0], t[..k]) && IsBody(t[k..], text[1..]);
      BodyIsRead(t[k..], text[1..], rest);
      CharacterIsRead(text[0], t[..k], t[k..] + close);
      assert t + close == t[..k] + (t[k..] + close);
      CharacterInFront(t[..k], t[k..] + close, text[0], text[1..], |t[k..]| + 1);
      assert [text[0]] + text[1..] == text;
    }
  }

  lemma CloseIsRead(rest: Text)
    ensures ReadString([QUOTE] + rest) == Some(([], 1))
  {
  }

  lemma CharacterInFront(c: Text, t: Text, u: CodeUnit, text: Text, n: nat)
    requires c != [] && c[0] != QUOTE && ReadCharacter(c + t) == Some((u, |c|)) && ReadString(t) == Some((text, n))
    ensures ReadString(c + t) == Some(([u] + text, |c| + n))
  {
    hide ReadCharacter;
    assert (c + t)[0] == c[0] && (c + t)[|c|..] == t;
  }

  lemma {:induction false} BodyWasRead(s: Text)
    requires ReadString(s).Some?
    ensures var (text, n) := ReadString(s).value;
            s[n - 1] == QUOTE && IsBody(s[..n - 1], text)
    decreases |s|
  {
    hide ReadCharacter, IsCharacter;
    var (text, n) := ReadString(s).value;
    if s[0] != QUOTE {
      var (u, k) := ReadCharacter(s).value;
      CharacterWasRead(s);
      BodyWasRead(s[k..]);
      var body := s[..n - 1];
      assert body[..k] == s[..k] && body[k..] == s[k..][..n - k - 1];
      assert text[0] == u && text[1..] == ReadString(s[k..]).value.0;
    }
  }

  // ---- Numbers and how they are read ----

  predicate NoDigit(s: Text) {
    s == [] || !IsDigit(s[0])
  }

  lemma {:induction false} DigitsAreRun(d: Text, rest: Text)
    requires AllDigits(d) && NoDigit(rest)
    ensures DigitRun(d + rest) == |d|
  {
    if d == [] {
      assert d + rest == rest;
    } else {
      DigitsAreRun(d[1..], rest);
      assert (d + rest)[1..] == d[1..] + rest;
    }
  }

  lemma IntIsRead(t: Text, rest: Text)
    requires IsInt(t) && NoDigit(rest)
    ensures IntegerPart(t + rest) == Some(|t|)
  {
    DigitsAreRun(t, rest);
    assert (t + rest)[0] == t[0];
  }

  lemma FracIsRead(t: Text, rest: Text)
    requires IsFrac(t) && NoDigit(rest) && (rest == [] || rest[0] != 46)
    ensures FractionPart(t + rest) == Some(|t|)
  {
    if t == [] {
      assert t + rest == rest;
    } else {
      DigitsAreRun(t[1..], rest);
      assert (t + rest)[0] == t[0] && (t + rest)[1..] == t[1..] + rest;
    }
  }

  lemma ExpIsRead(t: Text, rest: Text)
    requires IsExp(t) && Stops(rest)
    ensures ExponentPart(t + rest) == Some(|t|)
  {
    if t == [] {
      assert t + rest == rest;
    } else {
      var lead := if |t| > 1 && (t[1] == 43 || t[1] == 45) then 2 else 1;
      DigitsAreRun(t[lead..], rest);
      assert (t + rest)[0] == t[0] && (t + rest)[1] == t[1] && (t + rest)[lead..] == t[lead..] + rest;
    }
  }

  lemma NumeralIsRead(t: Text, rest: Text)
    requires IsNumeral(t) && Stops(rest)
    ensures t != [] && (t[0] == 45 || IsDigit(t[0])) && NumeralLength(t + rest) == Some(|t|)
  {
    hide NumeralLength, IsFrac, IsExp, IsInt, Stops;
    var m := MinusLength(t);
    var i, f :| m <= i <= f <= |t| && IsInt(t[m..i]) && IsFrac(t[i..f]) && IsExp(t[f..]);
    IntStartsWithDigit(t[m..i]);
    assert t[m] == t[m..i][0];
    var s := t + rest;
    CutOfSum(t, rest, m, i);
    CutOfSum(t, rest, i, f);
    CutOfSum(t, rest, f, |t|);
    assert t[f..|t|] == t[f..] && s[|t|..] == rest;
    assert s[0] == t[0] && m == if t[0] == 45 then 1 else 0;
    PartsAreRead(s, m, i, f, |t|);
  }

  lemma CutOfSum(t: Text, rest: Text, a: nat, b: nat)
    requires a <= b <= |t|
    ensures (t + rest)[a..b] == t[a..b]
  {
  }

  lemma IntStartsWithDigit(t: Text)
    requires IsInt(t)
    ensures t != [] && IsDigit(t[0])
  {
  }

  /** A text that starts with a minus sign or none and then, up to e, with the three parts of a numeral. */
  lemma PartsAreRead(s: Text, m: nat, i: nat, f: nat, e: nat)
    requires s != [] && m <= i <= f <= e <= |s| && m == if s[0] == 45 then 1 else 0
    requires IsInt(s[m..i]) && IsFrac(s[i..f]) && IsExp(s[f..e]) && Stops(s[e..])
    ensures NumeralLength(s) == Some(e)
  {
    hide NumeralLength, IntegerPart, FractionPart, ExponentPart, IsInt, IsFrac, IsExp, Stops, NoDigit;
    NumbersGoOnWithoutDigits(s, i, f, e);
    IntIsAt(s, m, i);
    FracIsAt(s, i, f);
    ExpIsAt(s, f, e);
    NumeralAdds(s, m, i - m, f - i, e - f);
  }

  lemma IntIsAt(s: Text, m: nat, i: nat)
    requires m <= i <= |s| && IsInt(s[m..i]) && NoDigit(s[i..])
    ensures IntegerPart(s[m..]) == Some(i - m)
  {
    hide IntegerPart, IsInt, NoDigit;
    Split(s, m, i);
    IntIsRead(s[m..i], s[i..]);
  }

  lemma FracIsAt(s: Text, i: nat, f: nat)
    requires i <= f <= |s| && IsFrac(s[i..f]) && NoDigit(s[f..]) && (s[f..] == [] || s[f..][0] != 46)
    ensures FractionPart(s[i..]) == Some(f - i)
  {
    hide FractionPart, IsFrac, NoDigit;
    Split(s, i, f);
    FracIsRead(s[i..f], s[f..]);
  }

  lemma ExpIsAt(s: Text, f: nat, e: nat)
    requires f <= e <= |s| && IsExp(s[f..e]) && Stops(s[e..])
    ensures ExponentPart(s[f..]) == Some(e - f)
  {
    hide ExponentPart, IsExp, Stops;
    Split(s, f, e);
    ExpIsRead(s[f..e], s[e..]);
  }

  lemma Split(s: Text, a: nat, b: nat)
    requires a <= b <= |s|
    ensures s[a..] == s[a..b] + s[b..] && |s[a..b]| == b - a
  {
  }

  lemma NumbersGoOnWithoutDigits(s: Text, i: nat, f: nat, e: nat)
    requires i <= f <= e <= |s| && IsFrac(s[i..f]) && IsExp(s[f..e]) && Stops(s[e..])
    ensures NoDigit(s[f..]) && (s[f..] == [] || s[f..][0] != 46) && NoDigit(s[i..])
  {
    hide AllDigits;
    assert f < e ==> s[f..e][0] == s[f];
    assert i < f ==> s[i..f][0] == s[i];
    assert e < |s| ==> s[e..][0] == s[e];
  }

  lemma NumeralAdds(s: Text, m: nat, i: nat, f: nat, e: nat)
    requires s != [] && m + i + f <= |s| && m == if s[0] == 45 then 1 else 0
    requires IntegerPart(s[m..]) == Some(i) && FractionPart(s[m + i..]) == Some(f)
    requires ExponentPart(s[m + i + f..]) == Some(e)
    ensures NumeralLength(s) == Some(m + i + f + e)
  {
    hide IntegerPart, FractionPart, ExponentPart;
  }

  lemma NumeralWasRead(s: Text)
    requires s != [] && NumeralLength(s).Some?
    ensures IsNumeral(s[..NumeralLength(s).value])
  {
    hide IntegerPart, FractionPart, ExponentPart, IsInt, IsFrac, IsExp;
    var n := NumeralLength(s).value;
    var t, m := s[..n], if s[0] == 45 then 1 else 0;
    var i := m + IntegerPart(s[m..]).value;
    var f := i + FractionPart(s[i..]).value;
    assert MinusLength(t) == m;
    IntWasRead(s[m..]);
    FracWasRead(s[i..]);
    ExpWasRead(s[f..]);
    CutOfCut(s, n, m, i);
    CutOfCut(s, n, i, f);
    CutOfCut(s, n, f, n);
    assert t[f..n] == t[f..];
    assert IsInt(t[m..i]) && IsFrac(t[i..f]);
  }

  lemma CutOfCut(s: Text, n: nat, a: nat, b: nat)
    requires a <= b <= n <= |s|
    ensures s[..n][a..b] == s[a..][..b - a]
  {
  }

  lemma IntWasRead(s: Text)
    requires IntegerPart(s).Some?
    ensures IsInt(s[..IntegerPart(s).value])
  {
  }

  lemma FracWasRead(s: Text)
    requires FractionPart(s).Some?
    ensures IsFrac(s[..FractionPart(s).value])
  {
    if s != [] && s[0] == 46 {
      var d := DigitRun(s[1..]);
      assert s[..1 + d][1..] == s[1..][..d];
    }
  }

  lemma ExpWasRead(s: Text)
    requires ExponentPart(s).Some?
    ensures IsExp(s[..ExponentPart(s).value])
  {
    if s != [] && (s[0] == 101 || s[0] == 69) {
      var lead := if |s| > 1 && (s[1] == 43 || s[1] == 45) then 2 else 1;
      var d := DigitRun(s[lead..]);
      var t := s[..lead + d];
      assert t[lead..] == s[lead..][..d] && t[0] == s[0] && t[1] == s[1];
      assert lead == 1 ==> IsDigit(t[1..][0]);
    }
  }

  // ---- Tokens and how they are read ----

  lemma WordIsRead(word: Text, rest: Text)
    requires word in {Ascii("true"), Ascii("false"), Ascii("null")}
    ensures word != [] && word[0] in {116, 102, 110} && ReadLiteral(word + rest) == Some(word)
  {
    var s := word + rest;
    assert s[0] == word[0];
    assert Ascii("true")[0] == 116 && Ascii("false")[0] == 102 && Ascii("null")[0] == 110;
    assert word <= s;
  }

  lemma SpellingIsRead(token: Token, t: Text, rest: Text)
    requires IsSpelling(token, t) && (token.Punctuation? || Stops(rest))
    ensures t != [] && !IsSpace(t[0]) && (token.Punctuation? <==> IsPunctuation(t[0]))
    ensures ReadToken(t + rest) == Some((token, |t|))
  {
    hide ReadString, NumeralLength, ReadLiteral, IsNumeral, IsBody;
    var s := t + rest;
    match token {
      case Punctuation(u) => assert s[0] == u;
      case Literal(word) => WordIsRead(word, rest);
      case Numeral(lexeme) =>
        NumeralIsRead(lexeme, rest);
        assert s[..|t|] == t;
      case Characters(text) =>
        var body := t[1..|t| - 1];
        BodyIsRead(body, text, rest);
        assert s[1..] == body + ([QUOTE] + rest);
    }
  }

  lemma TokenWasRead(s: Text)
    requires s != [] && !IsSpace(s[0]) && ReadToken(s).Some?
    ensures IsSpelling(ReadToken(s).value.0, s[..ReadToken(s).value.1])
  {
    hide ReadString, NumeralLength, IsNumeral, IsBody;
    var (token, n) := ReadToken(s).value;
    var t := s[..n];
    match token {
      case Punctuation(u) => assert t == [s[0]];
      case Literal(word) =>
      case Numeral(lexeme) => NumeralWasRead(s);
      case Characters(text) =>
        BodyWasRead(s[1..]);
        assert t[1..n - 1] == s[1..][..n - 2] && t[n - 1] == s[1..][n - 2];
    }
  }

  lemma {:induction false} SpaceIsSkipped(space: Text, t: Text)
    requires AllSpace(space)
    ensures Tokens(space + t) == Tokens(t)
    decreases |space|
  {
    hide ReadToken;
    if space == [] {
      assert space + t == t;
    } else {
      SpaceIsSkipped(space[1..], t);
      assert (space + t)[1..] == space[1..] + t;
    }
  }

  lemma SpelledTextsStop(t: Text, ts: seq<Token>)
    requires Spells(t, ts) && (ts == [] || ts[0].Punctuation?)
    ensures Stops(t)
  {
    if ts != [] {
      var k, n :| 0 <= k <= n <= |t| && AllSpace(t[..k]) && IsSpelling(ts[0], t[k..n]) && Spells(t[n..], ts[1..]);
      assert t[k..n][0] == t[k];
      assert k > 0 ==> t[..k][0] == t[0];
    }
  }

  lemma {:induction false} SpelledTokensAreRead(t: Text, ts: seq<Token>)
    requires Spells(t, ts) && Separated(ts)
    ensures Tokens(t) == Some(ts)
    decreases |ts|
  {
    hide Tokens, ReadToken, IsSpelling, AllSpace;
    if ts == [] {
      NoTokens();
      SpaceIsSkipped(t, []);
      assert t + [] == t;
    } else {
      var k, n :| 0 <= k <= n <= |t| && AllSpace(t[..k]) && IsSpelling(ts[0], t[k..n]) && Spells(t[n..], ts[1..]);
      TailIsSeparated(ts);
      SpelledTokensAreRead(t[n..], ts[1..]);
      if !ts[0].Punctuation? {
        assert |ts| > 1 ==> ts[1..][0] == ts[1] && ts[1].Punctuation?;
        SpelledTextsStop(t[n..], ts[1..]);
      }
      SpellingIsRead(ts[0], t[k..n], t[n..]);
      TokenInFront(t[k..n], t[n..], ts[0], ts[1..]);
      Split(t, k, n);
      SpaceIsSkipped(t[..k], t[k..]);
      assert t == t[..k] + t[k..];
      assert [ts[0]] + ts[1..] == ts;
    }
  }

  lemma NoTokens()
    ensures Tokens([]) == Some([])
  {
  }

  lemma TokenInFront(t: Text, rest: Text, token: Token, ts: seq<Token>)
    requires t != [] && !IsSpace(t[0]) && ReadToken(t + rest) == Some((token, |t|)) && Tokens(rest) == Some(ts)
    ensures Tokens(t + rest) == Some([token] + ts)
  {
    hide ReadToken;
    assert (t + rest)[0] == t[0] && (t + rest)[|t|..] == rest;
  }

  lemma SpaceInFront(t: Text, ts: seq<Token>)
    requires t != [] && IsSpace(t[0]) && Spells(t[1..], ts)
    ensures Spells(t, ts)
  {
    hide IsSpelling;
    var tail := t[1..];
    if ts == [] {
      assert forall i :: 1 <= i < |t| ==> t[i] == tail[i - 1];
    } else {
      var k, n :| 0 <= k <= n <= |tail| && AllSpace(tail[..k]) && IsSpelling(ts[0], tail[k..n])
                  && Spells(tail[n..], ts[1..]);
      assert t[..k + 1] == [t[0]] + tail[..k];
      assert t[k + 1..n + 1] == tail[k..n] && t[n + 1..] == tail[n..];
    }
  }

  lemma {:induction false} ReadTokensAreSpelled(t: Text)
    requires Tokens(t).Some?
    ensures Spells(t, Tokens(t).value)
    decreases |t|
  {
    hide ReadToken, IsSpelling;
    if t == [] {
    } else if IsSpace(t[0]) {
      ReadTokensAreSpelled(t[1..]);
      SpaceInFront(t, Tokens(t).value);
    } else {
      var (token, n) := ReadToken(t).value;
      ReadTokensAreSpelled(t[n..]);
      TokenWasRead(t);
      var ts := Tokens(t).value;
      assert ts[0] == token && ts[1..] == Tokens(t[n..]).value;
      assert AllSpace(t[..0]) && IsSpelling(ts[0], t[0..n]) && Spells(t[n..], ts[1..]);
    }
  }

  // ---- The language ----

  /** `JSON.parse` accepts exactly the texts of the grammar, each with the value it spells. */
  lemma ParsesExactlyTheGrammar(t: Text, v: Value)
    ensures Parse(t) == Some(v) <==> Spells(t, Unparse(v))
  {
    hide Tokens, ReadValue, Spells, Unparse;
    if Parse(t) == Some(v) {
      var ts := Tokens(t).value;
      ReadIsUnparsed(ts);
      assert ts[..|ts|] == ts;
      ReadTokensAreSpelled(t);
    }
    if Spells(t, Unparse(v)) {
      var ts := Unparse(v);
      UnparsedIsRead(v, []);
      assert ts + [] == ts && ts[..|ts|] == ts;
      ValuesAreSeparated(ts);
      SpelledTokensAreRead(t, ts);
    }
  }
}
