/**
 The environment digest stored on a container: what is fed to the hash for a list of
 KEY=VALUE entries. Strings stand for byte strings.
 */
module EnvDigest {
  import opened Text
  import opened Sorting

  const NUL: char := '\0'

  datatype Pair = Pair(key: string, value: string)

  /** Position of the first `c`, or the length when there is none. */
  function IndexOf(s: string, c: char): (i: nat)
    ensures i <= |s| && c !in s[..i] && (i < |s| ==> s[i] == c)
  {
    if s == "" || s[0] == c then 0 else 1 + IndexOf(s[1..], c)
  }

  /** An entry without '=' is a key with an empty value. */
  function SplitEntry(e: string): Pair {
    var i := IndexOf(e, '=');
    if i < |e| then Pair(e[..i], e[i + 1..]) else Pair(e, "")
  }

  function EntryPairs(e: string): seq<Pair> {
    if e == "" then [] else [SplitEntry(e)]
  }

  function Pairs(env: seq<string>): seq<Pair> {
    FlatMap(env, EntryPairs)
  }

  predicate PairLe(a: Pair, b: Pair) {
    if a.key != b.key then LexLe(a.key, b.key) else LexLe(a.value, b.value)
  }

  lemma PairLeIsTotalOrder()
    ensures TotalPreorder(PairLe)
    ensures forall a, b :: PairLe(a, b) && PairLe(b, a) ==> a == b
  {
    LexIsTotalOrder();
  }

  function EncodePair(p: Pair): string { p.key + "=" + p.value + [NUL] }

  function Encode(pairs: seq<Pair>): string {
    if pairs == [] then "" else EncodePair(pairs[0]) + Encode(pairs[1..])
  }

  function Decode(bytes: string): seq<Pair>
    decreases |bytes|
  {
    if bytes == "" then []
    else var i := IndexOf(bytes, NUL);
         [SplitEntry(bytes[..i])] + if i < |bytes| then Decode(bytes[i + 1..]) else []
  }

  /** `bytes` may be fed to the hash for `env`, whatever sorting algorithm is used. */
  ghost predicate Feeds(bytes: string, env: seq<string>) {
    exists sorted :: SortOf(sorted, Pairs(env), PairLe) && bytes == Encode(sorted)
  }

  method CollectPairs(env: seq<string>) returns (pairs: seq<Pair>)
    ensures pairs == Pairs(env)
  {
    pairs := [];
    for i := 0 to |env|
      invariant pairs == Pairs(env[..i])
    {
      assert env[..i + 1][..i] == env[..i];
      if env[i] == "" {
        continue;
      }
      var key, value := env[i], "";
      var idx := IndexOf(env[i], '=');
      if idx < |env[i]| {
        key, value := env[i][..idx], env[i][idx + 1..];
      }
      pairs := pairs + [Pair(key, value)];
    }
    assert env[..|env|] == env;
  }

  lemma EncodeStep(written: string, pairs: seq<Pair>)
    requires pairs != []
    ensures written + Encode(pairs) ==
            written + pairs[0].key + "=" + pairs[0].value + [NUL] + Encode(pairs[1..])
  {
  }

  method HashEnvInput(env: seq<string>) returns (bytes: string)
    ensures Feeds(bytes, env)
  {
    var pairs := CollectPairs(env);
    PairLeIsTotalOrder();
    var sorted := SortFunc(pairs, PairLe);
    bytes := "";
    for i := 0 to |sorted|
      invariant bytes + Encode(sorted[i..]) == Encode(sorted)
    {
      var p := sorted[i];
      EncodeStep(bytes, sorted[i..]);
      assert sorted[i..][1..] == sorted[i + 1..];
      bytes := bytes + p.key + "=" + p.value + [NUL];
    }
  }

  ghost predicate NulFree(env: seq<string>) {
    forall e :: e in env ==> NUL !in e
  }

  /** Keys hold no '=', and nothing holds a NUL byte. */
  ghost predicate Separable(pairs: seq<Pair>) {
    forall p :: p in pairs ==> '=' !in p.key && NUL !in p.key && NUL !in p.value
  }

  lemma {:induction false} PairsAreSeparable(env: seq<string>)
    requires NulFree(env)
    ensures Separable(Pairs(env))
  {
    if env != [] {
      var k := |env| - 1;
      PairsAreSeparable(env[..k]);
      assert env[k] in env;
      var p := SplitEntry(env[k]);
      assert forall c :: c in p.key || c in p.value ==> c in env[k];
    }
  }

  lemma {:induction false} IndexIsUnique(s: string, c: char, i: nat)
    requires i < |s| && s[i] == c && c !in s[..i]
    ensures IndexOf(s, c) == i
  {
    if i > 0 {
      assert s[..i][0] == s[0] && s[1..][..i - 1] == s[..i][1..];
      IndexIsUnique(s[1..], c, i - 1);
    }
  }

  lemma DecodeOne(p: Pair, rest: string)
    requires '=' !in p.key && NUL !in p.key && NUL !in p.value
    ensures Decode(EncodePair(p) + rest) == [p] + Decode(rest)
  {
    var entry := p.key + "=" + p.value;
    var bytes := EncodePair(p) + rest;
    assert bytes[..|entry|] == entry && bytes[|entry| + 1..] == rest && bytes[|entry|] == NUL;
    IndexIsUnique(bytes, NUL, |entry|);
    SplitAt(p.key, p.value);
  }

  /** Reading the bytes back gives the pairs. */
  lemma {:induction false} DecodeEncode(pairs: seq<Pair>)
    requires Separable(pairs)
    ensures Decode(Encode(pairs)) == pairs
  {
    if pairs != [] {
      DecodeOne(pairs[0], Encode(pairs[1..]));
      DecodeEncode(pairs[1..]);
    }
  }

  lemma SortedIsSeparable(sorted: seq<Pair>, pairs: seq<Pair>)
    requires Separable(pairs) && multiset(sorted) == multiset(pairs)
    ensures Separable(sorted)
  {
    forall p | p in sorted ensures p in pairs {
      assert p in multiset(sorted);
    }
  }

  /** The entry stands for the pair: it is KEY=VALUE with the first '=' after the key, or a key alone. */
  predicate StandsFor(e: string, p: Pair) {
    e != "" && '=' !in p.key && (e == p.key + "=" + p.value || (e == p.key && p.value == ""))
  }

  lemma EntryPairsIs(e: string, p: Pair)
    ensures p in EntryPairs(e) <==> StandsFor(e, p)
    ensures |EntryPairs(e)| == if e == "" then 0 else 1
  {
    if StandsFor(e, p) && e == p.key + "=" + p.value {
      SplitAt(p.key, p.value);
    }
    if '=' in e {
      SplitJoins(e);
    }
  }

  function Given(env: seq<string>): nat {
    if env == [] then 0 else Given(env[..|env| - 1]) + if env[|env| - 1] == "" then 0 else 1
  }

  /** Every entry but the empty ones gives its pair, once. */
  lemma {:induction false} PairsAre(env: seq<string>, p: Pair)
    ensures p in Pairs(env) <==> exists e :: e in env && StandsFor(e, p)
    ensures |Pairs(env)| == Given(env)
  {
    if env != [] {
      var k := |env| - 1;
      PairsAre(env[..k], p);
      EntryPairsIs(env[k], p);
      assert env == env[..k] + [env[k]];
    }
  }

  /** What is fed reads back as the pairs of the environment, keys ascending and, for equal keys, values. */
  lemma DigestIsOrdered(bytes: string, env: seq<string>)
    requires Feeds(bytes, env) && NulFree(env)
    ensures var pairs := Decode(bytes);
            && multiset(pairs) == multiset(Pairs(env))
            && forall i, j :: 0 <= i < j < |pairs| ==>
                 if pairs[i].key != pairs[j].key then LexLe(pairs[i].key, pairs[j].key)
                 else LexLe(pairs[i].value, pairs[j].value)
  {
    var x :| SortOf(x, Pairs(env), PairLe) && bytes == Encode(x);
    PairsAreSeparable(env);
    SortedIsSeparable(x, Pairs(env));
    DecodeEncode(x);
    forall i, j | 0 <= i < j < |x| ensures PairLe(x[i], x[j]) {
    }
  }

  /** Lists with the same pairs feed the same bytes: order never matters. */
  lemma SamePairsSameBytes(a: string, b: string, envA: seq<string>, envB: seq<string>)
    requires Feeds(a, envA) && Feeds(b, envB) && multiset(Pairs(envA)) == multiset(Pairs(envB))
    ensures a == b
  {
    var x :| SortOf(x, Pairs(envA), PairLe) && a == Encode(x);
    var y :| SortOf(y, Pairs(envB), PairLe) && b == Encode(y);
    PairLeIsTotalOrder();
    SortIsUnique(x, y, PairLe);
  }

  /** Reordering the entries keeps the pairs. */
  lemma ReorderKeepsPairs(a: seq<string>, b: seq<string>)
    requires multiset(a) == multiset(b)
    ensures multiset(Pairs(a)) == multiset(Pairs(b))
  {
    FlatMapPermutes(a, b, EntryPairs);
  }

  /** Whatever their order, the same entries feed the same bytes. */
  lemma ReorderedSameBytes(a: string, b: string, envA: seq<string>, envB: seq<string>)
    requires Feeds(a, envA) && Feeds(b, envB) && multiset(envA) == multiset(envB)
    ensures a == b
  {
    ReorderKeepsPairs(envA, envB);
    SamePairsSameBytes(a, b, envA, envB);
  }

  /** The bytes fed to the hash agree exactly when the lists hold the same (key, value) pairs
      with the same multiplicities. */
  lemma DigestInputIff(a: string, b: string, envA: seq<string>, envB: seq<string>)
    requires Feeds(a, envA) && Feeds(b, envB) && NulFree(envA) && NulFree(envB)
    ensures a == b <==> multiset(Pairs(envA)) == multiset(Pairs(envB))
  {
    if a == b {
      var x :| SortOf(x, Pairs(envA), PairLe) && a == Encode(x);
      var y :| SortOf(y, Pairs(envB), PairLe) && b == Encode(y);
      PairsAreSeparable(envA);
      PairsAreSeparable(envB);
      SortedIsSeparable(x, Pairs(envA));
      SortedIsSeparable(y, Pairs(envB));
      DecodeEncode(x);
      DecodeEncode(y);
    } else if multiset(Pairs(envA)) == multiset(Pairs(envB)) {
      SamePairsSameBytes(a, b, envA, envB);
    }
  }

  lemma FeedsOne(entry: string, p: Pair)
    requires entry != "" && SplitEntry(entry) == p
    ensures Feeds(EncodePair(p), [entry]) && Pairs([entry]) == [p]
  {
    assert [entry][..0] == [] && FlatMap([], EntryPairs) == [];
    assert Pairs([entry]) == [p];
    assert [p][1..] == [] && Encode([p]) == EncodePair(p);
    assert SortOf([p], Pairs([entry]), PairLe);
  }

  lemma FeedsTwo(a: string, b: string, p: Pair, q: Pair)
    requires a != "" && b != "" && SplitEntry(a) == p && SplitEntry(b) == q && PairLe(p, q)
    ensures Feeds(EncodePair(p) + EncodePair(q), [a, b]) && Pairs([a, b]) == [p, q]
  {
    assert [a, b][..1] == [a] && [a][..0] == [] && FlatMap([], EntryPairs) == [];
    assert Pairs([a]) == [p];
    assert Pairs([a, b]) == [p, q];
    assert [p, q][1..] == [q] && [q][1..] == [] && Encode([q]) == EncodePair(q);
    assert Encode([p, q]) == EncodePair(p) + EncodePair(q);
    assert SortOf([p, q], Pairs([a, b]), PairLe);
  }

  lemma SplitAt(key: string, value: string)
    requires '=' !in key
    ensures SplitEntry(key + "=" + value) == Pair(key, value)
  {
    var entry := key + "=" + value;
    assert entry[..|key|] == key && entry[|key| + 1..] == value;
    IndexIsUnique(entry, '=', |key|);
  }

  /** A NUL byte inside an entry can make two different environments feed the same bytes. */
  lemma NulBreaksInjectivity(k1: string, v1: string, k2: string, v2: string)
    requires k1 != k2 && LexLe(k1, k2) && '=' !in k1 && '=' !in k2
    ensures var bytes := EncodePair(Pair(k1, v1)) + EncodePair(Pair(k2, v2));
            && Feeds(bytes, [k1 + "=" + v1, k2 + "=" + v2])
            && Feeds(bytes, [k1 + "=" + (v1 + [NUL] + k2 + "=" + v2)])
  {
    var value := v1 + [NUL] + k2 + "=" + v2;
    SplitAt(k1, v1);
    SplitAt(k2, v2);
    SplitAt(k1, value);
    FeedsTwo(k1 + "=" + v1, k2 + "=" + v2, Pair(k1, v1), Pair(k2, v2));
    FeedsOne(k1 + "=" + value, Pair(k1, value));
    JoinedEncoding(k1, v1, k2, v2);
  }

  lemma JoinedEncoding(k1: string, v1: string, k2: string, v2: string)
    ensures EncodePair(Pair(k1, v1 + [NUL] + k2 + "=" + v2)) == EncodePair(Pair(k1, v1)) + EncodePair(Pair(k2, v2))
  {
  }

  // ----- which environments their bytes identify -----

  /** No environment with other pairs feeds the same bytes. */
  ghost predicate Identified(env: seq<string>) {
    forall other, bytes :: Feeds(bytes, env) && Feeds(bytes, other) ==> multiset(Pairs(other)) == multiset(Pairs(env))
  }

  /** The value can be cut at a NUL byte so that the rest is an entry of its own that sorts after
      what comes before. */
  ghost predicate Splits(p: Pair) {
    exists i :: 0 <= i < |p.value| && CutAt(p, i)
  }

  predicate CutAt(p: Pair, i: nat)
    requires i < |p.value|
  {
    p.value[i] == NUL && '=' in p.value[i + 1..] &&
    PairLe(Pair(p.key, p.value[..i]), SplitEntry(p.value[i + 1..]))
  }

  ghost predicate PlainKeys(pairs: seq<Pair>) {
    forall p :: p in pairs ==> '=' !in p.key
  }

  lemma {:induction false} PairsHavePlainKeys(env: seq<string>)
    ensures PlainKeys(Pairs(env))
  {
    if env != [] {
      PairsHavePlainKeys(env[..|env| - 1]);
    }
  }

  lemma SortedKeepsPlainKeys(sorted: seq<Pair>, env: seq<string>)
    requires multiset(sorted) == multiset(Pairs(env))
    ensures PlainKeys(sorted) && |sorted| == |Pairs(env)|
  {
    PairsHavePlainKeys(env);
    forall p | p in sorted ensures '=' !in p.key {
      assert p in multiset(Pairs(env));
    }
    assert |sorted| == |multiset(sorted)| == |Pairs(env)|;
  }

  lemma {:induction false} EncodeEnds(pairs: seq<Pair>)
    requires pairs != []
    ensures Encode(pairs) != "" && Encode(pairs)[|Encode(pairs)| - 1] == NUL
  {
    if |pairs| > 1 {
      EncodeEnds(pairs[1..]);
    }
  }

  /** All that is fed for some pairs, read as one entry. */
  function Merged(pairs: seq<Pair>): string
    requires Encode(pairs) != ""
  {
    Encode(pairs)[..|Encode(pairs)| - 1]
  }

  lemma KeyThenRest(k: string, w: string)
    requires w != "" && w[|w| - 1] == NUL && '=' !in k
    ensures var text := k + "=" + w[..|w| - 1];
            (k + "=" + w)[..|k + "=" + w| - 1] == text && '=' in text
            && SplitEntry(text) == Pair(k, w[..|w| - 1]) && EncodePair(SplitEntry(text)) == k + "=" + w
  {
    var value := w[..|w| - 1];
    assert w == value + [NUL];
    assert k + "=" + w == (k + "=" + value) + [NUL];
    assert (k + "=" + value)[|k|] == '=';
    SplitAt(k, value);
  }

  lemma Regroup(k: string, v: string, rest: string)
    ensures (k + "=" + v + [NUL]) + rest == k + "=" + (v + ([NUL] + rest))
  {
  }

  lemma PairThenRest(p: Pair, rest: string)
    requires '=' !in p.key && (rest == "" || rest[|rest| - 1] == NUL)
    ensures var bytes := EncodePair(p) + rest;
            var q := SplitEntry(bytes[..|bytes| - 1]);
            '=' in bytes[..|bytes| - 1] && q.key == p.key && p.value <= q.value && EncodePair(q) == bytes
  {
    var w := p.value + ([NUL] + rest);
    Regroup(p.key, p.value, rest);
    KeyThenRest(p.key, w);
    assert w[..|w| - 1][..|p.value|] == p.value;
  }

  lemma MergedSplits(pairs: seq<Pair>)
    requires pairs != [] && PlainKeys(pairs) && Encode(pairs) != ""
    ensures var p := SplitEntry(Merged(pairs));
            '=' in Merged(pairs) && p.key == pairs[0].key && pairs[0].value <= p.value && EncodePair(p) == Encode(pairs)
  {
    if |pairs| > 1 {
      EncodeEnds(pairs[1..]);
    }
    PairThenRest(pairs[0], Encode(pairs[1..]));
  }

  lemma {:induction false} PrefixSortsFirst(a: string, b: string)
    requires a <= b
    ensures LexLe(a, b)
  {
    if a != "" {
      PrefixSortsFirst(a[1..], b[1..]);
    }
  }

  lemma ExtendedStaysAfter(p: Pair, q: Pair, r: Pair)
    requires PairLe(p, q) && q.key == r.key && q.value <= r.value
    ensures PairLe(p, r)
  {
    PrefixSortsFirst(q.value, r.value);
    if p.key == q.key {
      LexTransitive(p.value, q.value, r.value);
    }
  }

  lemma FirstEquals(p: Pair, rest: string)
    requires '=' !in p.key
    ensures IndexOf(EncodePair(p) + rest, '=') == |p.key|
  {
    var s := EncodePair(p) + rest;
    assert s[..|p.key|] == p.key && s[|p.key|] == '=';
    IndexIsUnique(s, '=', |p.key|);
  }

  /** Two readings of the same bytes begin with the same key. */
  lemma SameFirstKey(p: Pair, q: Pair, rest: string)
    requires '=' !in p.key && '=' !in q.key && EncodePair(p) == EncodePair(q) + rest
    ensures p.key == q.key && p.value + [NUL] == q.value + [NUL] + rest
  {
    FirstEquals(p, "");
    FirstEquals(q, rest);
    var s := EncodePair(p);
    assert s + "" == s;
    assert s[..|p.key|] == p.key && (EncodePair(q) + rest)[..|q.key|] == q.key;
    assert s[|p.key| + 1..] == p.value + [NUL];
    assert (EncodePair(q) + rest)[|q.key| + 1..] == q.value + [NUL] + rest;
  }

  lemma RestAfterNul(value: string, v: string, r: string)
    requires value + [NUL] == v + [NUL] + r && r != ""
    ensures |v| < |value| && value[..|v|] == v && value[|v|] == NUL && value[|v| + 1..] == r[..|r| - 1]
  {
    var all := value + [NUL];
    assert |all| == |v| + 1 + |r|;
    assert value == all[..|value|];
    assert all[..|v|] == v && all[|v|] == NUL && all[|v| + 1..] == r;
    assert value[|v| + 1..] == all[|v| + 1..][..|r| - 1];
  }

  lemma SecondReadingCuts(p: Pair, q: Pair, rest: seq<Pair>)
    requires p.key == q.key && rest != [] && PlainKeys(rest) && PairLe(q, rest[0])
    requires p.value + [NUL] == q.value + [NUL] + Encode(rest)
    ensures Splits(p)
  {
    EncodeEnds(rest);
    MergedSplits(rest);
    RestAfterNul(p.value, q.value, Encode(rest));
    ExtendedStaysAfter(q, rest[0], SplitEntry(Merged(rest)));
    assert Pair(p.key, p.value[..|q.value|]) == q;
    assert CutAt(p, |q.value|);
  }

  /** A pair that cannot be cut is the only sorted reading of its bytes. */
  lemma OnlyReading(p: Pair, ys: seq<Pair>)
    requires '=' !in p.key && PlainKeys(ys) && Sorted(ys, PairLe) && Encode(ys) == EncodePair(p) && !Splits(p)
    ensures ys == [p]
  {
    assert ys != [];
    var q, rest := ys[0], ys[1..];
    SameFirstKey(p, q, Encode(rest));
    if rest != [] {
      assert forall x :: x in rest ==> x in ys;
      assert PairLe(ys[0], ys[1]);
      SecondReadingCuts(p, q, rest);
    } else {
      assert p.value == (p.value + [NUL])[..|p.value|] == q.value;
    }
  }

  lemma OtherPairs(env: seq<string>, other: seq<string>, bytes: string)
    requires Feeds(bytes, env) && Feeds(bytes, other) && |Pairs(env)| != |Pairs(other)|
    ensures !Identified(env)
  {
    assert |multiset(Pairs(env))| == |Pairs(env)| && |multiset(Pairs(other))| == |Pairs(other)|;
  }

  /** An environment with at least two pairs shares its bytes with one that has a single entry. */
  lemma SeveralAreNotIdentified(env: seq<string>)
    requires |Pairs(env)| >= 2
    ensures !Identified(env)
  {
    PairsCanBeSorted(env);
    var sorted := SortSeq(Pairs(env), PairLe);
    SortedKeepsPlainKeys(sorted, env);
    EncodeEnds(sorted);
    MergedSplits(sorted);
    var entry := Merged(sorted);
    FeedsOne(entry, SplitEntry(entry));
    OtherPairs(env, [entry], Encode(sorted));
  }

  lemma PairsCanBeSorted(env: seq<string>)
    ensures SortOf(SortSeq(Pairs(env), PairLe), Pairs(env), PairLe)
  {
    PairLeIsTotalOrder();
    SortSeqSorts(Pairs(env), PairLe);
  }

  lemma SoleFeeds(env: seq<string>, p: Pair)
    requires Pairs(env) == [p]
    ensures Feeds(EncodePair(p), env)
    ensures forall bytes :: Feeds(bytes, env) ==> bytes == EncodePair(p)
  {
    assert [p][1..] == [] && Encode([p]) == EncodePair(p) + Encode([]) == EncodePair(p);
    assert SortOf([p], Pairs(env), PairLe);
    forall bytes | Feeds(bytes, env) ensures bytes == EncodePair(p) {
      var x :| SortOf(x, Pairs(env), PairLe) && bytes == Encode(x);
      PairLeIsTotalOrder();
      SortIsUnique([p], x, PairLe);
    }
  }

  lemma SplitJoins(entry: string)
    requires '=' in entry
    ensures var q := SplitEntry(entry); entry == q.key + "=" + q.value
  {
  }

  lemma RejoinAtNul(k: string, value: string, i: nat)
    requires i < |value| && value[i] == NUL
    ensures k + "=" + value + [NUL] == (k + "=" + value[..i] + [NUL]) + (value[i + 1..] + [NUL])
  {
    assert value == value[..i] + [NUL] + value[i + 1..];
  }

  lemma CutRejoins(p: Pair, i: nat)
    requires i < |p.value| && CutAt(p, i)
    ensures EncodePair(p) == EncodePair(Pair(p.key, p.value[..i])) + EncodePair(SplitEntry(p.value[i + 1..]))
  {
    SplitJoins(p.value[i + 1..]);
    RejoinAtNul(p.key, p.value, i);
  }

  lemma SplittingIsNotIdentified(env: seq<string>, p: Pair, i: nat)
    requires Pairs(env) == [p] && '=' !in p.key && i < |p.value| && CutAt(p, i)
    ensures !Identified(env)
  {
    var front, back := p.key + "=" + p.value[..i], p.value[i + 1..];
    SplitAt(p.key, p.value[..i]);
    CutRejoins(p, i);
    FeedsTwo(front, back, Pair(p.key, p.value[..i]), SplitEntry(back));
    SoleFeeds(env, p);
    OtherPairs(env, [front, back], EncodePair(p));
  }

  lemma UncutIsIdentified(env: seq<string>, p: Pair)
    requires Pairs(env) == [p] && '=' !in p.key && !Splits(p)
    ensures Identified(env)
  {
    SoleFeeds(env, p);
    forall other, bytes | Feeds(bytes, env) && Feeds(bytes, other)
      ensures multiset(Pairs(other)) == multiset(Pairs(env))
    {
      var ys :| SortOf(ys, Pairs(other), PairLe) && bytes == Encode(ys);
      SortedKeepsPlainKeys(ys, other);
      OnlyReading(p, ys);
    }
  }

  lemma NothingIsIdentified(env: seq<string>)
    requires Pairs(env) == []
    ensures Identified(env)
  {
    forall other, bytes | Feeds(bytes, env) && Feeds(bytes, other)
      ensures multiset(Pairs(other)) == multiset(Pairs(env))
    {
      var x :| SortOf(x, Pairs(env), PairLe) && bytes == Encode(x);
      var ys :| SortOf(ys, Pairs(other), PairLe) && bytes == Encode(ys);
      assert |x| == |multiset(x)| == 0;
      if ys != [] {
        EncodeEnds(ys);
      }
    }
  }

  /** With NUL bytes allowed, an environment is the only one with its bytes exactly when it has no
      pairs, or a single one whose value cannot be cut. */
  lemma IdentifiedIff(env: seq<string>)
    ensures Identified(env) <==> Pairs(env) == [] || (|Pairs(env)| == 1 && !Splits(Pairs(env)[0]))
  {
    PairsHavePlainKeys(env);
    if Pairs(env) == [] {
      NothingIsIdentified(env);
    } else if |Pairs(env)| >= 2 {
      SeveralAreNotIdentified(env);
    } else {
      var p := Pairs(env)[0];
      assert Pairs(env) == [p];
      if Splits(p) {
        var i :| 0 <= i < |p.value| && CutAt(p, i);
        SplittingIsNotIdentified(env, p, i);
      } else {
        UncutIsIdentified(env, p);
      }
    }
  }
}
