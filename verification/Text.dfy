/**
 String handling shared by every component: the white-space trimming, lower-casing
 and ordering that the daemon applies to names, identifiers and device fields.
 Lower-casing is modelled on ASCII letters.
 */
module Text {

  /** unicode.IsSpace */
  predicate IsSpace(c: char) {
    var n := c as int;
    || 9 <= n <= 13 || n == 0x20 || n == 0x85 || n == 0xA0 || n == 0x1680
    || 0x2000 <= n <= 0x200A || n == 0x2028 || n == 0x2029 || n == 0x202F
    || n == 0x205F || n == 0x3000
  }

  function TrimLeft(s: string): string {
    if s != "" && IsSpace(s[0]) then TrimLeft(s[1..]) else s
  }

  function TrimRight(s: string): string {
    if s != "" && IsSpace(s[|s| - 1]) then TrimRight(s[..|s| - 1]) else s
  }

  function TrimSpace(s: string): string {
    TrimRight(TrimLeft(s))
  }

  function LowerChar(c: char): char {
    if 'A' <= c <= 'Z' then (c as int + 32) as char else c
  }

  function ToLower(s: string): string {
    seq(|s|, i requires 0 <= i < |s| => LowerChar(s[i]))
  }

  /** Lower-cased and trimmed form of a device field. */
  function NormalizeString(s: string): string {
    ToLower(TrimSpace(s))
  }

  /** No white space at either end. */
  predicate Trimmed(s: string) {
    s == "" || (!IsSpace(s[0]) && !IsSpace(s[|s| - 1]))
  }

  lemma {:induction false} TrimLeftIsSuffix(s: string)
    ensures exists k :: 0 <= k <= |s| && TrimLeft(s) == s[k..]
    ensures TrimLeft(s) == "" || !IsSpace(TrimLeft(s)[0])
  {
    if s != "" && IsSpace(s[0]) {
      TrimLeftIsSuffix(s[1..]);
      var k :| 0 <= k <= |s[1..]| && TrimLeft(s[1..]) == s[1..][k..];
      assert TrimLeft(s) == s[k + 1..];
    } else {
      assert TrimLeft(s) == s[0..];
    }
  }

  lemma {:induction false} TrimRightIsPrefix(s: string)
    ensures TrimRight(s) <= s
    ensures TrimRight(s) == "" || !IsSpace(TrimRight(s)[|TrimRight(s)| - 1])
  {
    if s != "" && IsSpace(s[|s| - 1]) {
      TrimRightIsPrefix(s[..|s| - 1]);
    }
  }

  /** Trimming leaves no outer white space, and text without any is left alone. */
  lemma TrimSpaceTrims(s: string)
    ensures Trimmed(TrimSpace(s))
    ensures Trimmed(s) ==> TrimSpace(s) == s
  {
    TrimLeftIsSuffix(s);
    TrimRightIsPrefix(TrimLeft(s));
  }

  ghost predicate AllSpace(s: string) { forall i :: 0 <= i < |s| ==> IsSpace(s[i]) }

  lemma {:induction false} TrimLeftSkips(pre: string, rest: string)
    requires AllSpace(pre) && (rest == "" || !IsSpace(rest[0]))
    ensures TrimLeft(pre + rest) == rest
  {
    if pre == "" {
      assert pre + rest == rest;
    } else {
      assert (pre + rest)[1..] == pre[1..] + rest;
      TrimLeftSkips(pre[1..], rest);
    }
  }

  lemma {:induction false} TrimRightSkips(rest: string, post: string)
    requires AllSpace(post) && (rest == "" || !IsSpace(rest[|rest| - 1]))
    ensures TrimRight(rest + post) == rest
  {
    if post == "" {
      assert rest + post == rest;
    } else {
      var k := |post| - 1;
      assert (rest + post)[..|rest| + k] == rest + post[..k];
      TrimRightSkips(rest, post[..k]);
    }
  }

  /** Trimming leaves exactly what stands between white space. */
  lemma TrimSpaceKeepsCore(pre: string, core: string, post: string)
    requires AllSpace(pre) && AllSpace(post) && Trimmed(core)
    ensures TrimSpace(pre + core + post) == core
  {
    if core == "" {
      assert pre + core + post == (pre + post) + "";
      TrimLeftSkips(pre + post, "");
    } else {
      assert pre + core + post == pre + (core + post);
      TrimLeftSkips(pre, core + post);
      TrimRightSkips(core, post);
    }
  }

  lemma {:induction false} TrimLeftDrops(s: string) returns (pre: string)
    ensures s == pre + TrimLeft(s) && AllSpace(pre)
  {
    if s != "" && IsSpace(s[0]) {
      var tail := TrimLeftDrops(s[1..]);
      pre := [s[0]] + tail;
      assert s == [s[0]] + s[1..] == [s[0]] + (tail + TrimLeft(s));
    } else {
      pre := "";
    }
  }

  lemma {:induction false} TrimRightDrops(s: string) returns (post: string)
    ensures s == TrimRight(s) + post && AllSpace(post)
  {
    if s != "" && IsSpace(s[|s| - 1]) {
      var k := |s| - 1;
      var head := TrimRightDrops(s[..k]);
      post := head + [s[k]];
      assert s == s[..k] + [s[k]] == (TrimRight(s) + head) + [s[k]];
    } else {
      post := "";
    }
  }

  /** What trimming takes away is white space. */
  lemma CoreOf(s: string) returns (pre: string, post: string)
    ensures s == pre + TrimSpace(s) + post && AllSpace(pre) && AllSpace(post)
  {
    pre := TrimLeftDrops(s);
    post := TrimRightDrops(TrimLeft(s));
    assert s == pre + (TrimSpace(s) + post);
  }

  lemma BlankIff(s: string)
    ensures TrimSpace(s) == "" <==> AllSpace(s)
  {
    var pre, post := CoreOf(s);
    if AllSpace(s) {
      TrimSpaceKeepsCore(s, "", "");
      assert s + "" + "" == s;
    }
    if TrimSpace(s) == "" {
      assert s == pre + post;
    }
  }

  /** Blanks, tabs and line ends are white space; letters, digits, dots and bars are not. */
  lemma WhatIsSpace(c: char)
    ensures c == ' ' || c == '\t' || c == '\n' || c == '\r' ==> IsSpace(c)
    ensures 'a' <= c <= 'z' || 'A' <= c <= 'Z' || '0' <= c <= '9' || c == '.' || c == '|' || c == ':' ==> !IsSpace(c)
  {
  }

  /** Letters that differ at most in case. */
  predicate SameLetter(c: char, d: char) {
    || c == d
    || ('A' <= c <= 'Z' && d as int == c as int + 32)
    || ('A' <= d <= 'Z' && c as int == d as int + 32)
  }

  /** Texts that differ at most in letter case. */
  ghost predicate EqualFold(a: string, b: string) {
    |a| == |b| && forall i :: 0 <= i < |a| ==> SameLetter(a[i], b[i])
  }

  /** Texts that differ at most in letter case and outer white space. */
  ghost predicate SameText(a: string, b: string) {
    EqualFold(TrimSpace(a), TrimSpace(b))
  }

  lemma ToLowerIff(a: string, b: string)
    ensures ToLower(a) == ToLower(b) <==> EqualFold(a, b)
    ensures EqualFold(a, ToLower(a)) && forall i :: 0 <= i < |a| ==> !('A' <= ToLower(a)[i] <= 'Z')
  {
    if ToLower(a) == ToLower(b) {
      forall i | 0 <= i < |a| ensures SameLetter(a[i], b[i]) {
        assert ToLower(a)[i] == ToLower(b)[i];
      }
    }
  }

  /** Device fields have the same normal form exactly when they differ at most in letter case and
      outer white space. */
  lemma NormalizeStringIff(a: string, b: string)
    ensures NormalizeString(a) == NormalizeString(b) <==> SameText(a, b)
  {
    ToLowerIff(TrimSpace(a), TrimSpace(b));
  }

  lemma NormalizeStringIdempotent(s: string)
    ensures NormalizeString(NormalizeString(s)) == NormalizeString(s)
  {
    TrimSpaceTrims(s);
    var t := TrimSpace(s);
    TrimSpaceTrims(ToLower(t));
    assert Trimmed(ToLower(t));
    assert ToLower(ToLower(t)) == ToLower(t);
  }

  lemma PipeSplits(a: string, b: string, c: string, d: string)
    requires '|' !in a && '|' !in c && a + "|" + b == c + "|" + d
    ensures a == c && b == d
  {
    var s := a + "|" + b;
    assert s[|a|] == '|' && s[|c|] == '|';
    assert |a| == |c|;
    assert a == s[..|a|] && c == s[..|c|];
    assert b == s[|a| + 1..] && d == s[|c| + 1..];
  }

  /** Normalising neither adds nor removes the separator. */
  lemma PipeStays(s: string)
    ensures '|' in NormalizeString(s) <==> '|' in s
  {
    var pre, post := CoreOf(s);
    var core := TrimSpace(s);
    assert forall i :: 0 <= i < |core| ==> (core[i] == '|' <==> ToLower(core)[i] == '|');
    assert '|' !in pre && '|' !in post;
    assert '|' in s <==> '|' in core;
  }

  /** Lexicographic order: strings.Compare(a, b) <= 0. */
  predicate LexLe(a: string, b: string) {
    a == "" || (b != "" && (a[0] < b[0] || (a[0] == b[0] && LexLe(a[1..], b[1..]))))
  }

  /** The order is decided by the first difference, and a prefix comes first. */
  lemma {:induction false} LexLeIff(a: string, b: string)
    ensures LexLe(a, b) <==>
            a <= b || exists i :: 0 <= i < |a| && i < |b| && a[..i] == b[..i] && a[i] < b[i]
  {
    if a != "" && b != "" {
      SharedHead(a, b);
    }
    if a != "" && b != "" && a[0] == b[0] {
      LexLeIff(a[1..], b[1..]);
      assert a == [a[0]] + a[1..] && b == [b[0]] + b[1..];
      if i :| 0 <= i < |a| && i < |b| && a[..i] == b[..i] && a[i] < b[i] {
        assert i > 0;
        assert a[1..][..i - 1] == a[..i][1..] == b[1..][..i - 1];
        assert a[1..][i - 1] < b[1..][i - 1];
      }
      if i :| 0 <= i < |a[1..]| && i < |b[1..]| && a[1..][..i] == b[1..][..i] && a[1..][i] < b[1..][i] {
        assert a[..i + 1] == [a[0]] + a[1..][..i] == b[..i + 1];
        assert a[i + 1] < b[i + 1];
      }
    } else if a != "" && b != "" {
      if a[0] < b[0] {
        assert a[..0] == b[..0];
      }
    }
  }

  lemma SharedHead(a: string, b: string)
    requires a != "" && b != ""
    ensures forall i :: 0 < i <= |a| && i <= |b| && a[..i] == b[..i] ==> a[0] == b[0]
  {
    forall i | 0 < i <= |a| && i <= |b| && a[..i] == b[..i] ensures a[0] == b[0] {
      assert a[..i][0] == b[..i][0];
    }
  }

  /** Behind equal prefixes the rest decides; different prefixes of one length decide alone. */
  lemma {:induction false} LexByParts(a: string, b: string, x: string, y: string)
    requires |a| == |b|
    ensures LexLe(a + x, b + y) <==> if a == b then LexLe(x, y) else LexLe(a, b)
  {
    if a == "" {
      assert a + x == x && b + y == y;
    } else {
      assert (a + x)[1..] == a[1..] + x && (b + y)[1..] == b[1..] + y;
      assert a == [a[0]] + a[1..] && b == [b[0]] + b[1..];
      LexByParts(a[1..], b[1..], x, y);
    }
  }

  lemma {:induction false} LexTotal(a: string, b: string)
    ensures LexLe(a, b) || LexLe(b, a)
    ensures LexLe(a, a)
  {
    if a != "" {
      LexTotal(a[1..], if b != "" then b[1..] else b);
    }
  }

  lemma {:induction false} LexAntisymmetric(a: string, b: string)
    requires LexLe(a, b) && LexLe(b, a)
    ensures a == b
  {
    if a != "" {
      LexAntisymmetric(a[1..], b[1..]);
      assert a == [a[0]] + a[1..] && b == [b[0]] + b[1..];
    }
  }

  lemma {:induction false} LexTransitive(a: string, b: string, c: string)
    requires LexLe(a, b) && LexLe(b, c)
    ensures LexLe(a, c)
  {
    if a != "" && a[0] == b[0] == c[0] {
      LexTransitive(a[1..], b[1..], c[1..]);
    }
  }

  /** The order laws in the form sorting needs them. */
  lemma LexIsTotalOrder()
    ensures forall a, b :: LexLe(a, b) || LexLe(b, a)
    ensures forall a, b :: LexLe(a, b) && LexLe(b, a) ==> a == b
    ensures forall a, b, c :: LexLe(a, b) && LexLe(b, c) ==> LexLe(a, c)
  {
    forall a, b ensures LexLe(a, b) || LexLe(b, a) { LexTotal(a, b); }
    forall a, b | LexLe(a, b) && LexLe(b, a) ensures a == b { LexAntisymmetric(a, b); }
    forall a, b, c | LexLe(a, b) && LexLe(b, c) ensures LexLe(a, c) { LexTransitive(a, b, c); }
  }
}
