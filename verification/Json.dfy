/** JSON texts over UTF-16 code units (RFC 8259): tokens (section 2), strings (section 7), numbers (section 6),
    and the grammar of values over tokens. Numbers keep their spelling, which decides their value. */
module Json {
  import opened Wrappers

  type CodeUnit = u: int | 0 <= u < 0x10000

  type Text = seq<CodeUnit>

  function Ascii(s: string): (t: Text)
    ensures |t| == |s|
    ensures forall i :: 0 <= i < |s| ==> t[i] == (s[i] as int) % 0x10000
  {
    seq(|s|, i requires 0 <= i < |s| => (s[i] as int) % 0x10000)
  }

  datatype Token =
    | Punctuation(unit: CodeUnit)
    | Literal(word: Text)         // true, false, null
    | Numeral(lexeme: Text)
    | Characters(text: Text)

  datatype Value =
    | Word(word: Text)
    | Number(lexeme: Text)
    | String(text: Text)
    | Array(items: seq<Value>)
    | Object(members: seq<Member>)

  datatype Member = Member(name: Text, value: Value)

  const QUOTE: CodeUnit := 34
  const BACKSLASH: CodeUnit := 92
  const OPEN_ARRAY: Token := Punctuation(91)
  const CLOSE_ARRAY: Token := Punctuation(93)
  const OPEN_OBJECT: Token := Punctuation(123)
  const CLOSE_OBJECT: Token := Punctuation(125)
  const COMMA: Token := Punctuation(44)
  const COLON: Token := Punctuation(58)

  predicate IsSpace(u: CodeUnit) {
    u == 32 || u == 9 || u == 10 || u == 13
  }

  predicate IsPunctuation(u: CodeUnit) {
    u == 91 || u == 93 || u == 123 || u == 125 || u == 44 || u == 58
  }

  predicate IsDigit(u: CodeUnit) {
    48 <= u <= 57
  }

  // ---- Tokens ----

  /** The length of the leading row of digits. */
  function DigitRun(s: Text): (n: nat)
    ensures n <= |s|
    ensures forall i :: 0 <= i < n ==> IsDigit(s[i])
  {
    if s == [] || !IsDigit(s[0]) then 0 else 1 + DigitRun(s[1..])
  }

  function IntegerPart(s: Text): (n: Option<nat>)
    ensures n.Some? ==> 0 < n.value <= |s| && forall i :: 0 <= i < n.value ==> IsDigit(s[i])
  {
    if s == [] || !IsDigit(s[0]) then None
    else if s[0] == 48 then Some(1)
    else Some(DigitRun(s))
  }

  function FractionPart(s: Text): (n: Option<nat>)
    ensures n.Some? ==> n.value <= |s| && forall i :: 0 <= i < n.value ==> s[i] >= 43
  {
    if s == [] || s[0] != 46 then Some(0) else
      var d := DigitRun(s[1..]);
      if d == 0 then None else Some(1 + d)
  }

  function ExponentPart(s: Text): (n: Option<nat>)
    ensures n.Some? ==> n.value <= |s| && forall i :: 0 <= i < n.value ==> s[i] >= 43
  {
    if s == [] || (s[0] != 101 && s[0] != 69) then Some(0) else
      var lead := if |s| > 1 && (s[1] == 43 || s[1] == 45) then 2 else 1;
      var d := DigitRun(s[lead..]);
      if d == 0 then None else Some(lead + d)
  }

  /** The longest numeral at the front of `s`. */
  function NumeralLength(s: Text): (n: Option<nat>)
    requires s != []
    ensures n.Some? ==> 0 < n.value <= |s| && forall i :: 0 <= i < n.value ==> s[i] >= 43
  {
    var m := if s[0] == 45 then 1 else 0;
    match IntegerPart(s[m..])
    case None => None
    case Some(i) =>
      match FractionPart(s[m + i..])
      case None => None
      case Some(f) =>
        match ExponentPart(s[m + i + f..])
        case None => None
        case Some(e) => Some(m + i + f + e)
  }

  function HexValue(u: CodeUnit): Option<nat> {
    if 48 <= u <= 57 then Some(u - 48)
    else if 97 <= u <= 102 then Some(u - 87)
    else if 65 <= u <= 70 then Some(u - 55)
    else None
  }

  function ReadHex4(s: Text): (r: Option<CodeUnit>)
    ensures r.Some? ==> |s| >= 4 && forall i :: 0 <= i < 4 ==> s[i] >= 32
  {
    if |s| < 4 then None else
      var a, b, c, d := HexValue(s[0]), HexValue(s[1]), HexValue(s[2]), HexValue(s[3]);
      if a.None? || b.None? || c.None? || d.None? then None
      else Some(4096 * a.value + 256 * b.value + 16 * c.value + d.value)
  }

  function ShortEscape(u: CodeUnit): Option<CodeUnit> {
    if u == 34 || u == 92 || u == 47 then Some(u)
    else if u == 98 then Some(8)
    else if u == 102 then Some(12)
    else if u == 110 then Some(10)
    else if u == 114 then Some(13)
    else if u == 116 then Some(9)
    else None
  }

  /** One character of a string body: the unit it stands for and the units that spell it. */
  function ReadCharacter(s: Text): (r: Option<(CodeUnit, nat)>)
    ensures r.Some? ==> 0 < r.value.1 <= |s| && forall i :: 0 <= i < r.value.1 ==> s[i] >= 32
    ensures r.Some? ==> s[0] != QUOTE
  {
    if s == [] || s[0] == QUOTE || s[0] < 32 then None
    else if s[0] != BACKSLASH then Some((s[0], 1))
    else if |s| > 1 && s[1] == 117 then
      (match ReadHex4(s[2..]) case Some(u) => Some((u, 6)) case None => None)
    else if |s| > 1 && ShortEscape(s[1]).Some? then Some((ShortEscape(s[1]).value, 2))
    else None
  }

  /** A string body up to and including its closing quotation mark. */
  function ReadString(s: Text): (r: Option<(Text, nat)>)
    ensures r.Some? ==> 0 < r.value.1 <= |s| && forall i :: 0 <= i < r.value.1 ==> s[i] >= 32
    decreases |s|
  {
    if s != [] && s[0] == QUOTE then Some(([], 1)) else
      match ReadCharacter(s)
      case None => None
      case Some((u, k)) =>
        match ReadString(s[k..])
        case None => None
        case Some((rest, n)) => Some(([u] + rest, k + n))
  }

  function ReadLiteral(s: Text): (r: Option<Text>)
    ensures r.Some? ==> r.value <= s && r.value != [] && forall i :: 0 <= i < |r.value| ==> s[i] >= 97
  {
    if Ascii("true") <= s then Some(Ascii("true"))
    else if Ascii("false") <= s then Some(Ascii("false"))
    else if Ascii("null") <= s then Some(Ascii("null"))
    else None
  }

  /** The token at the front of a text that does not start with white space, and its length. */
  function ReadToken(s: Text): (r: Option<(Token, nat)>)
    requires s != [] && !IsSpace(s[0])
    ensures r.Some? ==> 0 < r.value.1 <= |s| && forall i :: 0 <= i < r.value.1 ==> s[i] >= 32
    ensures r.Some? ==> (r.value.0.Punctuation? <==> IsPunctuation(s[0]))
  {
    if IsPunctuation(s[0]) then Some((Punctuation(s[0]), 1))
    else if s[0] == QUOTE then
      (match ReadString(s[1..]) case Some((t, n)) => Some((Characters(t), n + 1)) case None => None)
    else if s[0] == 45 || IsDigit(s[0]) then
      (match NumeralLength(s) case Some(n) => Some((Numeral(s[..n]), n)) case None => None)
    else
      (match ReadLiteral(s) case Some(w) => Some((Literal(w), |w|)) case None => None)
  }

  function Tokens(s: Text): Option<seq<Token>>
    decreases |s|
  {
    if s == [] then Some([])
    else if IsSpace(s[0]) then Tokens(s[1..])
    else
      match ReadToken(s)
      case None => None
      case Some((t, n)) =>
        match Tokens(s[n..])
        case None => None
        case Some(ts) => Some([t] + ts)
  }

  // ---- Values ----

  /** A value at the front of the tokens, and how many it takes. */
  function ReadValue(ts: seq<Token>): (r: Option<(Value, nat)>)
    ensures r.Some? ==> 0 < r.value.1 <= |ts|
    decreases |ts|, 0
  {
    if ts == [] then None else
      match ts[0]
      case Literal(w) => Some((Word(w), 1))
      case Numeral(n) => Some((Number(n), 1))
      case Characters(t) => Some((String(t), 1))
      case Punctuation(_) =>
        if ts[0] == OPEN_ARRAY then
          if |ts| > 1 && ts[1] == CLOSE_ARRAY then Some((Array([]), 2)) else
            (match ReadItems(ts[1..]) case Some((vs, k)) => Some((Array(vs), k + 1)) case None => None)
        else if ts[0] == OPEN_OBJECT then
          if |ts| > 1 && ts[1] == CLOSE_OBJECT then Some((Object([]), 2)) else
            (match ReadMembers(ts[1..]) case Some((ms, k)) => Some((Object(ms), k + 1)) case None => None)
        else None
  }

  /** Values separated by commas, up to and including the closing bracket. */
  function ReadItems(ts: seq<Token>): (r: Option<(seq<Value>, nat)>)
    ensures r.Some? ==> 0 < r.value.1 <= |ts|
    decreases |ts|, 1
  {
    match ReadValue(ts)
    case None => None
    case Some((v, k)) =>
      if k == |ts| then None
      else if ts[k] == CLOSE_ARRAY then Some(([v], k + 1))
      else if ts[k] == COMMA then
        (match ReadItems(ts[k + 1..]) case Some((vs, n)) => Some(([v] + vs, k + 1 + n)) case None => None)
      else None
  }

  function ReadMembers(ts: seq<Token>): (r: Option<(seq<Member>, nat)>)
    ensures r.Some? ==> 0 < r.value.1 <= |ts|
    decreases |ts|, 1
  {
    if |ts| < 3 || !ts[0].Characters? || ts[1] != COLON then None else
      match ReadValue(ts[2..])
      case None => None
      case Some((v, k)) =>
        if k + 2 == |ts| then None
        else if ts[k + 2] == CLOSE_OBJECT then Some(([Member(ts[0].text, v)], k + 3))
        else if ts[k + 2] == COMMA then
          (match ReadMembers(ts[k + 3..])
           case Some((ms, n)) => Some(([Member(ts[0].text, v)] + ms, k + 3 + n))
           case None => None)
        else None
  }

  /** `JSON.parse`: the value of a text, if it is JSON. */
  function Parse(s: Text): Option<Value> {
    match Tokens(s)
    case None => None
    case Some(ts) =>
      match ReadValue(ts)
      case Some((v, k)) => if k == |ts| then Some(v) else None
      case None => None
  }

  // ---- In a JSON text, two scalars are never neighbours ----

  predicate Separated(ts: seq<Token>) {
    forall i :: 0 <= i < |ts| - 1 ==> ts[i].Punctuation? || ts[i + 1].Punctuation?
  }

  lemma SeparatedJoins(a: seq<Token>, p: Token, b: seq<Token>)
    requires Separated(a) && Separated(b) && p.Punctuation?
    ensures Separated(a + [p] + b)
  {
    var ts := a + [p] + b;
    forall i | 0 <= i < |ts| - 1
      ensures ts[i].Punctuation? || ts[i + 1].Punctuation?
    {
      if i + 1 < |a| {
        assert ts[i] == a[i] && ts[i + 1] == a[i + 1];
      } else if i > |a| {
        assert ts[i] == b[i - |a| - 1] && ts[i + 1] == b[i - |a|];
      }
    }
  }

  lemma OneIsSeparated(t: Token)
    ensures Separated([t])
  {
  }

  lemma NoneAreSeparated()
    ensures Separated([])
  {
  }

  lemma {:induction false} ValuesAreSeparated(ts: seq<Token>)
    requires ReadValue(ts).Some?
    ensures Separated(ts[..ReadValue(ts).value.1])
    decreases |ts|, 0
  {
    var k := ReadValue(ts).value.1;
    if k > 2 {
      if ts[0] == OPEN_ARRAY {
        ItemsAreSeparated(ts[1..]);
      } else {
        MembersAreSeparated(ts[1..]);
      }
      SeparatedJoins([], ts[0], ts[1..][..k - 1]);
      assert ts[..k] == [] + [ts[0]] + ts[1..][..k - 1];
    }
  }

  lemma {:induction false} ItemsAreSeparated(ts: seq<Token>)
    requires ReadItems(ts).Some?
    ensures Separated(ts[..ReadItems(ts).value.1])
    decreases |ts|, 1
  {
    hide ReadValue, Separated;
    var k, n := ReadValue(ts).value.1, ReadItems(ts).value.1;
    NoneAreSeparated();
    ValuesAreSeparated(ts);
    if ts[k] == CLOSE_ARRAY {
      SeparatedJoins(ts[..k], ts[k], []);
      assert ts[..n] == ts[..k] + [ts[k]] + [];
    } else {
      var rest := ts[k + 1..];
      ItemsAreSeparated(rest);
      SeparatedJoins(ts[..k], ts[k], rest[..n - k - 1]);
      assert ts[..n] == ts[..k] + [ts[k]] + rest[..n - k - 1];
    }
  }

  lemma {:induction false} MembersAreSeparated(ts: seq<Token>)
    requires ReadMembers(ts).Some?
    ensures Separated(ts[..ReadMembers(ts).value.1])
    decreases |ts|, 1
  {
    hide ReadValue, Separated;
    var k, n := ReadValue(ts[2..]).value.1, ReadMembers(ts).value.1;
    ValuesAreSeparated(ts[2..]);
    var head := ts[..k + 2];
    OneIsSeparated(ts[0]);
    NoneAreSeparated();
    SeparatedJoins([ts[0]], ts[1], ts[2..][..k]);
    assert head == [ts[0]] + [ts[1]] + ts[2..][..k];
    if ts[k + 2] == CLOSE_OBJECT {
      SeparatedJoins(head, ts[k + 2], []);
      assert ts[..n] == head + [ts[k + 2]] + [];
    } else {
      var rest := ts[k + 3..];
      MembersAreSeparated(rest);
      SeparatedJoins(head, ts[k + 2], rest[..n - k - 3]);
      assert ts[..n] == head + [ts[k + 2]] + rest[..n - k - 3];
    }
  }
}
