/** `flattenScorePairs` (src/translate/score-pairs.ts): pair arrays of the scored commands become flat. */
module ScorePairs {
  import opened Wrappers
  import opened Commands
  import opened Replies

  const WITHSCORES_COMMANDS: set<string> :=
    {"ZRANGE", "ZREVRANGE", "ZRANGEBYSCORE", "ZREVRANGEBYSCORE", "ZRANDMEMBER", "ZUNION", "ZINTER", "ZDIFF"}
  const WITHVALUES_COMMANDS: set<string> := {"HRANDFIELD"}
  const COUNT_PAIR_COMMANDS: set<string> := {"ZPOPMIN", "ZPOPMAX"}

  predicate HasToken(args: seq<string>, token: string) {
    exists i :: 0 <= i < |args| && Upper(args[i]) == token
  }

  predicate ShouldFlatten(command: string, args: seq<string>) {
    var cmd := Upper(command);
    if cmd in WITHSCORES_COMMANDS then HasToken(args, "WITHSCORES")
    else if cmd in WITHVALUES_COMMANDS then HasToken(args, "WITHVALUES")
    else if cmd in COUNT_PAIR_COMMANDS then |args| >= 2
    else false
  }

  predicate IsPair(v: Reply) {
    v.List? && |v.items| == 2
  }

  predicate AllPairs(vs: seq<Reply>) {
    forall i :: 0 <= i < |vs| ==> IsPair(vs[i])
  }

  function Concatenated(vs: seq<Reply>): (flat: seq<Reply>)
    requires AllPairs(vs)
    ensures |flat| == 2 * |vs|
  {
    if vs == [] then [] else vs[0].items + Concatenated(vs[1..])
  }

  function Flatten(command: string, args: seq<string>, value: Reply): Reply {
    if value.List? && ShouldFlatten(command, args) && AllPairs(value.items) then List(Concatenated(value.items))
    else value
  }

  // ---- When it flattens ----

  /** The commands whose replies come as pairs, each when its token is there or it has a count. */
  const SCORED: seq<string> :=
    ["ZRANGE", "ZREVRANGE", "ZRANGEBYSCORE", "ZREVRANGEBYSCORE", "ZRANDMEMBER", "ZUNION", "ZINTER", "ZDIFF"]

  ghost predicate Is(command: string, word: string) {
    SameUpToCase(command, word)
  }

  ghost predicate Has(args: seq<string>, word: string) {
    exists i :: 0 <= i < |args| && SameUpToCase(args[i], word)
  }

  /** The call asks for pairs: a scored command WITHSCORES, HRANDFIELD WITHVALUES, or a ZPOPMIN or ZPOPMAX with a
      count, in any case. */
  ghost predicate AsksForPairs(command: string, args: seq<string>) {
    || ((exists k :: 0 <= k < |SCORED| && Is(command, SCORED[k])) && Has(args, "WITHSCORES"))
    || (Is(command, "HRANDFIELD") && Has(args, "WITHVALUES"))
    || ((Is(command, "ZPOPMIN") || Is(command, "ZPOPMAX")) && |args| >= 2)
  }

  lemma TokensAreUpper()
    ensures forall k :: 0 <= k < |SCORED| ==> Upper(SCORED[k]) == SCORED[k]
    ensures Upper("WITHSCORES") == "WITHSCORES" && Upper("WITHVALUES") == "WITHVALUES"
    ensures Upper("HRANDFIELD") == "HRANDFIELD" && Upper("ZPOPMIN") == "ZPOPMIN" && Upper("ZPOPMAX") == "ZPOPMAX"
  {
    forall k | 0 <= k < |SCORED|
      ensures Upper(SCORED[k]) == SCORED[k]
    {
      assert k in {0, 1, 2, 3, 4, 5, 6, 7};
    }
  }

  lemma HasTokenIsHas(args: seq<string>, token: string)
    requires Upper(token) == token
    ensures HasToken(args, token) <==> Has(args, token)
  {
    hide Upper, SameUpToCase;
    forall i | 0 <= i < |args|
      ensures Upper(args[i]) == token <==> SameUpToCase(args[i], token)
    {
      UpperIsWord(args[i], token);
    }
  }

  lemma CommandIsScored(command: string)
    ensures Upper(command) in WITHSCORES_COMMANDS <==> exists k :: 0 <= k < |SCORED| && Is(command, SCORED[k])
  {
    hide Upper, SameUpToCase;
    TokensAreUpper();
    forall k | 0 <= k < |SCORED|
      ensures Upper(command) == SCORED[k] <==> Is(command, SCORED[k])
    {
      UpperIsWord(command, SCORED[k]);
    }
    assert forall word :: word in WITHSCORES_COMMANDS <==> word in SCORED;
  }

  /** The tables and the token search decide exactly that. */
  lemma FlatteningIsAskedFor(command: string, args: seq<string>)
    ensures ShouldFlatten(command, args) <==> AsksForPairs(command, args)
  {
    hide Upper, SameUpToCase;
    TokensAreUpper();
    CommandIsScored(command);
    HasTokenIsHas(args, "WITHSCORES");
    HasTokenIsHas(args, "WITHVALUES");
    UpperIsWord(command, "HRANDFIELD");
    UpperIsWord(command, "ZPOPMIN");
    UpperIsWord(command, "ZPOPMAX");
    assert "HRANDFIELD" !in WITHSCORES_COMMANDS;
    assert "ZPOPMIN" !in WITHSCORES_COMMANDS && "ZPOPMAX" !in WITHSCORES_COMMANDS;
    assert "ZPOPMIN" !in WITHVALUES_COMMANDS && "ZPOPMAX" !in WITHVALUES_COMMANDS;
  }

  /** A reply nobody asked to come in pairs stays as it is: among others every reply of a command outside the
      tables, such as the nested ones of GEOPOS and XRANGE. */
  lemma OtherRepliesAreLeftAlone(command: string, args: seq<string>, value: Reply)
    requires !AsksForPairs(command, args)
    ensures Flatten(command, args, value) == value
  {
    FlatteningIsAskedFor(command, args);
  }

  lemma GeoposAndXrangeAreNotAskedFor(args: seq<string>)
    ensures !AsksForPairs("GEOPOS", args) && !AsksForPairs("XRANGE", args)
  {
    forall k | 0 <= k < |SCORED|
      ensures !Is("GEOPOS", SCORED[k]) && !Is("XRANGE", SCORED[k])
    {
      assert SCORED[k][0] == 'Z';
      assert "GEOPOS"[0] == 'G' && "XRANGE"[0] == 'X';
    }
    assert "GEOPOS"[0] == 'G' && "XRANGE"[0] == 'X' && "HRANDFIELD"[0] == 'H';
    assert "ZPOPMIN"[0] == 'Z' && "ZPOPMAX"[0] == 'Z';
  }

  // ---- What flattening does ----

  /** Consecutive elements put in pairs, as the SDK's deserializers read a flat reply. */
  function Paired(flat: seq<Reply>): seq<Reply> {
    if |flat| < 2 then [] else [List(flat[..2])] + Paired(flat[2..])
  }

  lemma {:induction false} PairingUndoesConcatenation(vs: seq<Reply>)
    requires AllPairs(vs)
    ensures Paired(Concatenated(vs)) == vs
  {
    if vs != [] {
      PairingUndoesConcatenation(vs[1..]);
      var flat := Concatenated(vs);
      assert flat[..2] == vs[0].items && flat[2..] == Concatenated(vs[1..]);
      assert vs == [vs[0]] + vs[1..];
    }
  }

  /** A reply that is flattened can be put together again; every other reply is untouched. */
  lemma FlatteningLosesNothing(command: string, args: seq<string>, value: Reply)
    ensures if value.List? && ShouldFlatten(command, args) && AllPairs(value.items)
            then Flatten(command, args, value).List? && List(Paired(Flatten(command, args, value).items)) == value
            else Flatten(command, args, value) == value
  {
    if value.List? && ShouldFlatten(command, args) && AllPairs(value.items) {
      PairingUndoesConcatenation(value.items);
    }
  }

  lemma {:induction false} ConcatenatedAt(vs: seq<Reply>, j: nat, k: nat)
    requires AllPairs(vs) && j < |vs| && k < 2
    ensures Concatenated(vs)[2 * j + k] == vs[j].items[k]
  {
    if j > 0 {
      ConcatenatedAt(vs[1..], j - 1, k);
      assert Concatenated(vs)[2 * j + k] == Concatenated(vs[1..])[2 * (j - 1) + k];
    }
  }

  /** Flattening twice is flattening once exactly when the flat reply is not itself a non-empty array of
      pairs; so it is for pairs of scalars. */
  lemma FlatteningTwice(command: string, args: seq<string>, value: Reply)
    requires value.List? && ShouldFlatten(command, args) && AllPairs(value.items)
    ensures Flatten(command, args, Flatten(command, args, value)) == Flatten(command, args, value)
       <==> value.items == [] || !AllPairs(Concatenated(value.items))
  {
    var flat := Concatenated(value.items);
    if AllPairs(flat) {
      assert |Concatenated(flat)| == 2 * |flat|;
    }
  }

  /** A reply on which it is not: a pair of pairs comes apart a second time. */
  lemma PairsOfPairsFlattenTwice(x: Reply, y: Reply)
    ensures var pair := List([x, y]);
            var args, value := ["z", "0", "-1", "WITHSCORES"], List([List([pair, pair])]);
            && Flatten("ZRANGE", args, value) == List([pair, pair])
            && Flatten("ZRANGE", args, List([pair, pair])) == List([x, y, x, y])
  {
    var args := ["z", "0", "-1", "WITHSCORES"];
    var pair := List([x, y]);
    assert Upper("ZRANGE") == "ZRANGE" && Upper(args[3]) == "WITHSCORES";
    assert ShouldFlatten("ZRANGE", args);
    assert Concatenated([List([pair, pair])]) == [pair, pair] by {
      assert [List([pair, pair])][1..] == [] && [pair, pair] + [] == [pair, pair];
    }
    assert Concatenated([pair, pair]) == [x, y, x, y] by {
      assert [pair, pair][1..] == [pair] && [pair][1..] == [] && [x, y] + [] == [x, y];
    }
  }

  lemma ScalarPairsFlattenOnce(command: string, args: seq<string>, value: Reply)
    requires value.List? && ShouldFlatten(command, args) && AllPairs(value.items)
    requires forall i, k :: 0 <= i < |value.items| && 0 <= k < 2 ==> !value.items[i].items[k].List?
    ensures Flatten(command, args, Flatten(command, args, value)) == Flatten(command, args, value)
  {
    FlatteningTwice(command, args, value);
    if value.items != [] {
      ConcatenatedAt(value.items, 0, 0);
      assert !Concatenated(value.items)[0].List?;
    }
  }

  /** Pair j of the reply stands at positions 2j and 2j + 1 of the flat one. */
  lemma FlattenedElements(command: string, args: seq<string>, value: Reply, j: nat, k: nat)
    requires value.List? && ShouldFlatten(command, args) && AllPairs(value.items) && j < |value.items| && k < 2
    ensures Flatten(command, args, value).items[2 * j + k] == value.items[j].items[k]
  {
    ConcatenatedAt(value.items, j, k);
  }

  lemma {:induction false} FlatteningKeepsCanonical(command: string, args: seq<string>, value: Reply)
    requires Canonical(value)
    ensures Canonical(Flatten(command, args, value))
  {
    if value.List? && AllPairs(value.items) {
      ConcatenationIsCanonical(value.items);
    }
  }

  lemma {:induction false} ConcatenationIsCanonical(vs: seq<Reply>)
    requires AllCanonical(vs) && AllPairs(vs)
    ensures AllCanonical(Concatenated(vs))
  {
    if vs != [] {
      ConcatenationIsCanonical(vs[1..]);
      AllCanonicalJoins(vs[0].items, Concatenated(vs[1..]));
    }
  }

  lemma {:induction false} AllCanonicalJoins(a: seq<Reply>, b: seq<Reply>)
    requires AllCanonical(a) && AllCanonical(b)
    ensures AllCanonical(a + b)
  {
    hide Canonical;
    if a == [] {
      assert a + b == b;
    } else {
      AllCanonicalJoins(a[1..], b);
      assert (a + b)[1..] == a[1..] + b;
    }
  }
}
