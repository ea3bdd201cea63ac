/** src/commands.ts: turning a JSON array into a command, and the scan for BLOCK in stream reads. */
module Commands {
  import opened Wrappers

  // ---- parseCommandArray ----

  /** An element of a command array in a JSON body; `text` is what String() gives for the number. */
  datatype Arg =
    | Text(s: string)
    | Number(text: string, finite: bool)
    | Boolean(b: bool)
    | NullArg
    | ArrayArg
    | ObjectArg

  datatype Command = Command(name: string, args: seq<string>)

  datatype ParseError = EmptyCommand | BadName(got: Arg) | BadArgument(position: nat, got: Arg)

  predicate Acceptable(a: Arg) {
    a.Text? || (a.Number? && a.finite) || a.Boolean?
  }

  function Coerce(a: Arg): string
    requires Acceptable(a)
  {
    match a
    case Text(s) => s
    case Number(text, _) => text
    case Boolean(b) => if b then "true" else "false"
  }

  /** Accepted exactly when the name is a string and every argument can be coerced; then every argument is
      kept, in its place. Otherwise the error names the first offender. */
  method ParseCommandArray(raw: seq<Arg>) returns (r: Result<Command, ParseError>)
    ensures r.Ok? <==> raw != [] && raw[0].Text? && forall i :: 1 <= i < |raw| ==>
                         raw[i].Text? || raw[i].Boolean? || (raw[i].Number? && raw[i].finite)
    ensures r.Ok? ==> r.value.name == raw[0].s && |r.value.args| == |raw| - 1
                      && forall i :: 1 <= i < |raw| ==>
                           && (raw[i].Text? ==> r.value.args[i - 1] == raw[i].s)
                           && (raw[i].Number? ==> r.value.args[i - 1] == raw[i].text)
                           && (raw[i].Boolean? ==> r.value.args[i - 1] == if raw[i].b then "true" else "false")
    ensures r.Threw? && raw == [] ==> r.error == EmptyCommand
    ensures r.Threw? && raw != [] && !raw[0].Text? ==> r.error == BadName(raw[0])
    ensures r.Threw? && raw != [] && raw[0].Text? ==>
              r.error.BadArgument? && 1 <= r.error.position < |raw|
              && r.error.got == raw[r.error.position] && !Acceptable(r.error.got)
              && forall i :: 1 <= i < r.error.position ==> Acceptable(raw[i])
    ensures r == ParseCommand(raw)
  {
    if |raw| == 0 {
      return Threw(EmptyCommand);
    }
    if !raw[0].Text? {
      return Threw(BadName(raw[0]));
    }
    var args: seq<string> := [];
    for i := 1 to |raw|
      invariant |args| == i - 1
      invariant forall k :: 1 <= k < i ==> Acceptable(raw[k]) && args[k - 1] == Coerce(raw[k])
      invariant FirstBad(raw, 1) == FirstBad(raw, i)
    {
      if !Acceptable(raw[i]) {
        return Threw(BadArgument(i, raw[i]));
      }
      args := args + [Coerce(raw[i])];
    }
    assert args == CoerceAll(raw);
    return Ok(Command(raw[0].s, args));
  }

  function FirstBad(raw: seq<Arg>, from: nat): (i: Option<nat>)
    requires from <= |raw|
    ensures i.Some? ==> from <= i.value < |raw| && !Acceptable(raw[i.value])
    ensures i.None? ==> forall k :: from <= k < |raw| ==> Acceptable(raw[k])
    decreases |raw| - from
  {
    if from == |raw| then None
    else if !Acceptable(raw[from]) then Some(from)
    else FirstBad(raw, from + 1)
  }

  function CoerceAll(raw: seq<Arg>): (args: seq<string>)
    requires raw != [] && forall k :: 1 <= k < |raw| ==> Acceptable(raw[k])
    ensures |args| == |raw| - 1
  {
    seq(|raw| - 1, i requires 0 <= i < |raw| - 1 => Coerce(raw[i + 1]))
  }

  function ParseCommand(raw: seq<Arg>): Result<Command, ParseError> {
    if raw == [] then Threw(EmptyCommand)
    else if !raw[0].Text? then Threw(BadName(raw[0]))
    else
      match FirstBad(raw, 1)
      case Some(i) => Threw(BadArgument(i, raw[i]))
      case None => Ok(Command(raw[0].s, CoerceAll(raw)))
  }

  // ---- XREAD and XREADGROUP ----

  function UpperChar(c: char): char {
    if 'a' <= c <= 'z' then (c as int - 32) as char else c
  }

  /** `toUpperCase` on ASCII text. */
  function Upper(s: string): (u: string)
    ensures |u| == |s|
  {
    seq(|s|, i requires 0 <= i < |s| => UpperChar(s[i]))
  }

  /** The two texts differ at most in the case of ASCII letters. */
  predicate SameUpToCase(a: string, b: string) {
    |a| == |b| && forall i :: 0 <= i < |a| ==> SameLetter(a[i], b[i])
  }

  predicate SameLetter(a: char, b: char) {
    || a == b
    || ('a' <= a <= 'z' && 'A' <= b <= 'Z' && a as int - 'a' as int == b as int - 'A' as int)
    || ('A' <= a <= 'Z' && 'a' <= b <= 'z' && b as int - 'a' as int == a as int - 'A' as int)
  }

  /** Upper case tells apart what differs in more than case, and nothing else; it has no lower-case letter. */
  lemma UpperForgetsCaseOnly(a: string, b: string)
    ensures Upper(a) == Upper(b) <==> SameUpToCase(a, b)
    ensures forall i :: 0 <= i < |a| ==> !('a' <= Upper(a)[i] <= 'z')
    ensures SameUpToCase(a, Upper(a))
  {
    if Upper(a) == Upper(b) {
      forall i | 0 <= i < |a|
        ensures SameLetter(a[i], b[i])
      {
        assert Upper(a)[i] == Upper(b)[i];
      }
    }
  }

  /** So comparing the upper case with an upper-case word is comparing up to case. */
  lemma UpperIsWord(a: string, word: string)
    requires Upper(word) == word
    ensures Upper(a) == word <==> SameUpToCase(a, word)
  {
    UpperForgetsCaseOnly(a, word);
  }

  lemma OptionWordsAreUpper()
    ensures Upper("COUNT") == "COUNT" && Upper("BLOCK") == "BLOCK" && Upper("GROUP") == "GROUP"
    ensures Upper("NOACK") == "NOACK" && Upper("STREAMS") == "STREAMS"
  {
  }

  lemma OptionWordsDiffer(a: string)
    ensures Upper(a) == "COUNT" <==> SameUpToCase(a, "COUNT")
    ensures Upper(a) == "BLOCK" <==> SameUpToCase(a, "BLOCK")
    ensures Upper(a) == "GROUP" <==> SameUpToCase(a, "GROUP")
    ensures Upper(a) == "NOACK" <==> SameUpToCase(a, "NOACK")
    ensures Upper(a) == "STREAMS" <==> SameUpToCase(a, "STREAMS")
  {
    hide Upper, SameUpToCase;
    OptionWordsAreUpper();
    UpperIsWord(a, "COUNT");
    UpperIsWord(a, "BLOCK");
    UpperIsWord(a, "GROUP");
    UpperIsWord(a, "NOACK");
    UpperIsWord(a, "STREAMS");
  }

  /** The options Redis knows before STREAMS; the last two belong to XREADGROUP. */
  datatype StreamOption =
    | Count(n: string)
    | Block(milliseconds: string)
    | Group(group: string, consumer: string)
    | NoAck

  function Width(o: StreamOption): nat {
    match o
    case Count(_) => 2
    case Block(_) => 2
    case Group(_, _) => 3
    case NoAck => 1
  }

  predicate Spells(o: StreamOption, words: seq<string>, grouped: bool)
    requires |words| == Width(o)
  {
    match o
    case Count(n) => SameUpToCase(words[0], "COUNT") && words[1] == n
    case Block(ms) => SameUpToCase(words[0], "BLOCK") && words[1] == ms
    case Group(g, c) => grouped && SameUpToCase(words[0], "GROUP") && words[1] == g && words[2] == c
    case NoAck => grouped && SameUpToCase(words[0], "NOACK")
  }

  /** The grammar: options in any order, each as often as it likes, then STREAMS and whatever follows. The
      values of an option are arbitrary words, keywords included. */
  predicate Derives(options: seq<StreamOption>, args: seq<string>, grouped: bool) {
    if options == [] then args != [] && SameUpToCase(args[0], "STREAMS")
    else
      && Width(options[0]) <= |args|
      && Spells(options[0], args[..Width(options[0])], grouped)
      && Derives(options[1..], args[Width(options[0])..], grouped)
  }

  ghost predicate HasBlock(options: seq<StreamOption>) {
    exists o :: o in options && o.Block?
  }

  /** The words of a command line, read left to right as the loop reads them. */
  function Scan(args: seq<string>, grouped: bool): bool {
    if args == [] then false
    else if Upper(args[0]) == "BLOCK" then true
    else if Upper(args[0]) == "STREAMS" then false
    else if Upper(args[0]) == "GROUP" && grouped then |args| > 3 && Scan(args[3..], grouped)
    else if Upper(args[0]) == "COUNT" then |args| > 2 && Scan(args[2..], grouped)
    else Scan(args[1..], grouped)
  }

  /** A list has at most one reading. */
  lemma {:induction false} DerivationIsUnique(one: seq<StreamOption>, other: seq<StreamOption>, args: seq<string>,
                                              grouped: bool)
    requires Derives(one, args, grouped) && Derives(other, args, grouped)
    ensures one == other
  {
    hide Upper, SameUpToCase;
    OptionWordsDiffer(args[0]);
    if one != [] && other != [] {
      assert args[..Width(one[0])][0] == args[0] == args[..Width(other[0])][0];
      DerivationIsUnique(one[1..], other[1..], args[Width(one[0])..], grouped);
      assert one == [one[0]] + one[1..] && other == [other[0]] + other[1..];
    }
  }

  lemma {:induction false} ScanFollowsTheGrammar(options: seq<StreamOption>, args: seq<string>, grouped: bool)
    requires Derives(options, args, grouped)
    ensures Scan(args, grouped) <==> HasBlock(options)
  {
    hide Upper, SameUpToCase;
    OptionWordsDiffer(args[0]);
    if options != [] {
      assert args[..Width(options[0])][0] == args[0];
      ScanFollowsTheGrammar(options[1..], args[Width(options[0])..], grouped);
      assert Derives(options[1..], args[Width(options[0])..], grouped);
      HasBlockSplits(options);
    }
  }

  lemma HasBlockSplits(options: seq<StreamOption>)
    requires options != []
    ensures HasBlock(options) <==> options[0].Block? || HasBlock(options[1..])
  {
    if HasBlock(options[1..]) {
      var o :| o in options[1..] && o.Block?;
      assert o in options;
    }
  }

  /** The loop of `checkBlockedCommand` for XREAD (`grouped` false) and XREADGROUP: on every list the grammar
      derives it rejects exactly those with a BLOCK option. */
  method BlocksStreamRead(args: seq<string>, grouped: bool) returns (blocked: bool)
    ensures blocked == Scan(args, grouped)
    ensures forall options :: Derives(options, args, grouped) ==> (blocked <==> HasBlock(options))
  {
    forall options | Derives(options, args, grouped)
      ensures Scan(args, grouped) <==> HasBlock(options)
    {
      ScanFollowsTheGrammar(options, args, grouped);
    }
    var i := 0;
    assert args[0..] == args;
    while i < |args|
      invariant Scan(args, grouped) == (i < |args| && Scan(args[i..], grouped))
    {
      var option := Upper(args[i]);
      if option == "BLOCK" {
        return true;
      }
      if option == "STREAMS" {
        return false;
      }
      if option == "GROUP" && grouped {
        if i + 3 <= |args| {
          assert args[i..][3..] == args[i + 3..];
        }
        i := i + 2;
      } else if option == "COUNT" {
        if i + 2 <= |args| {
          assert args[i..][2..] == args[i + 2..];
        }
        i := i + 1;
      } else {
        assert args[i..][1..] == args[i + 1..];
      }
      i := i + 1;
    }
    return false;
  }
}
