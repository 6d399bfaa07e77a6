/**
 Quoting a script for `sh -c`, read back with the quoting rules of sections 2.2.1 and 2.2.2
 of the POSIX.1-2017 Shell Command Language, and the wrapper that picks a shell. Strings
 stand for byte strings.
 */
module ShellQuote {
  import opened Wrappers

  method ShellQuote(s: string) returns (quoted: string)
    ensures quoted == Quote(s)
  {
    if s == "" {
      return "''";
    }
    quoted := "'";
    for i := 0 to |s|
      invariant quoted == "'" + Escape(s[..i])
    {
      assert s[..i + 1][..i] == s[..i];
      if s[i] == '\'' {
        quoted := quoted + "'\\''";
        continue;
      }
      quoted := quoted + [s[i]];
    }
    assert s[..|s|] == s;
    quoted := quoted + "'";
  }

  /** The text between the outer quotes. */
  function Escape(s: string): string {
    if s == "" then ""
    else Escape(s[..|s| - 1]) + Piece(s[|s| - 1])
  }

  /** One character between the outer quotes. */
  function Piece(c: char): string {
    if c == '\'' then "'\\''" else [c]
  }

  function Quote(s: string): string { "'" + Escape(s) + "'" }

  // ----- reading shell text -----

  datatype Token = Word(text: string) | Semi

  datatype Mode = Plain | SingleQuoted | Escaped

  datatype Lexer =
    | Reading(done: seq<Token>, word: Option<string>, mode: Mode)
    | Rejected

  /** Characters that stand for themselves outside quotes in the wrapper. */
  predicate IsPlain(c: char) {
    || 'a' <= c <= 'z' || 'A' <= c <= 'Z' || '0' <= c <= '9'
    || c == '/' || c == '-' || c == '.' || c == '_' || c == '[' || c == ']'
  }

  function Text(word: Option<string>): string {
    match word case None => "" case Some(w) => w
  }

  function Flushed(done: seq<Token>, word: Option<string>): seq<Token> {
    match word case None => done case Some(w) => done + [Word(w)]
  }

  /** One character of shell text. NUL cannot occur in shell text. */
  function Feed(l: Lexer, c: char): Lexer {
    if l.Rejected? || c == '\0' then Rejected else
    match l.mode
    case SingleQuoted =>
      if c == '\'' then l.(mode := Plain) else l.(word := Some(Text(l.word) + [c]))
    case Escaped =>
      if c == '\n' then l.(mode := Plain) else l.(word := Some(Text(l.word) + [c]), mode := Plain)
    case Plain =>
      if c == '\'' then l.(word := Some(Text(l.word)), mode := SingleQuoted)
      else if c == '\\' then l.(mode := Escaped)
      else if c == ' ' || c == '\t' then Reading(Flushed(l.done, l.word), None, Plain)
      else if c == ';' then Reading(Flushed(l.done, l.word) + [Semi], None, Plain)
      else if IsPlain(c) then l.(word := Some(Text(l.word) + [c]))
      else Rejected
  }

  function FeedAll(l: Lexer, s: string): Lexer {
    if s == "" then l else Feed(FeedAll(l, s[..|s| - 1]), s[|s| - 1])
  }

  /** The tokens of a complete piece of shell text. */
  function Tokens(s: string): Option<seq<Token>> {
    match FeedAll(Reading([], None, Plain), s)
    case Rejected => None
    case Reading(done, word, mode) => if mode == Plain then Some(Flushed(done, word)) else None
  }

  lemma {:induction false} FeedConcat(l: Lexer, a: string, b: string)
    ensures FeedAll(l, a + b) == FeedAll(FeedAll(l, a), b)
  {
    if b == "" {
      assert a + b == a;
    } else {
      var k := |b| - 1;
      assert (a + b)[..|a + b| - 1] == a + b[..k];
      FeedConcat(l, a, b[..k]);
    }
  }

  lemma {:induction false} FeedRejected(s: string)
    ensures FeedAll(Rejected, s) == Rejected
  {
    if s != "" {
      FeedRejected(s[..|s| - 1]);
    }
  }

  /** Inside single quotes a piece reads back as its character. */
  lemma PieceReadsBack(done: seq<Token>, w: string, c: char)
    ensures FeedAll(Reading(done, Some(w), SingleQuoted), Piece(c)) ==
            if c == '\0' then Rejected else Reading(done, Some(w + [c]), SingleQuoted)
  {
    var l := Reading(done, Some(w), SingleQuoted);
    if c == '\'' {
      FeedFour(l, '\'', '\\', '\'', '\'');
      assert Piece(c) == ['\'', '\\', '\'', '\''];
    } else {
      FeedOne(l, c);
    }
  }

  /** The word so far and then all of `s`, still inside single quotes. */
  function Quoted(done: seq<Token>, w: string, s: string): Lexer {
    if '\0' in s then Rejected else Reading(done, Some(w + s), SingleQuoted)
  }

  lemma QuotedStep(done: seq<Token>, w: string, s: string, c: char)
    ensures FeedAll(Quoted(done, w, s), Piece(c)) == Quoted(done, w, s + [c])
  {
    if '\0' in s {
      FeedRejected(Piece(c));
    } else {
      PieceReadsBack(done, w + s, c);
      assert w + s + [c] == w + (s + [c]);
    }
  }

  ghost predicate EscapedReads(done: seq<Token>, w: string, s: string) {
    FeedAll(Reading(done, Some(w), SingleQuoted), Escape(s)) == Quoted(done, w, s)
  }

  lemma NothingReads(done: seq<Token>, w: string)
    ensures EscapedReads(done, w, "")
  {
    assert w + "" == w;
  }

  lemma OneMoreReads(done: seq<Token>, w: string, s: string, c: char)
    requires EscapedReads(done, w, s)
    ensures EscapedReads(done, w, s + [c])
  {
    assert (s + [c])[..|s|] == s;
    assert Escape(s + [c]) == Escape(s) + Piece(c);
    FeedConcat(Reading(done, Some(w), SingleQuoted), Escape(s), Piece(c));
    QuotedStep(done, w, s, c);
  }

  /** Inside single quotes the escaped text reads back as the original. */
  lemma {:induction false} EscapeReadsBack(done: seq<Token>, w: string, s: string)
    ensures EscapedReads(done, w, s)
  {
    if s == "" {
      NothingReads(done, w);
    } else {
      var front, last := s[..|s| - 1], s[|s| - 1];
      EscapeReadsBack(done, w, front);
      OneMoreReads(done, w, front, last);
      assert front + [last] == s;
    }
  }

  lemma FeedFour(l: Lexer, a: char, b: char, c: char, d: char)
    ensures FeedAll(l, [a, b, c, d]) == Feed(Feed(Feed(Feed(l, a), b), c), d)
  {
    FeedOne(l, a);
    assert [a, b][..1] == [a];
    assert FeedAll(l, [a, b]) == Feed(FeedAll(l, [a]), b);
    assert [a, b, c][..2] == [a, b];
    assert FeedAll(l, [a, b, c]) == Feed(FeedAll(l, [a, b]), c);
    assert [a, b, c, d][..3] == [a, b, c];
  }

  lemma FeedOne(l: Lexer, c: char)
    ensures FeedAll(l, [c]) == Feed(l, c)
  {
    assert [c][..0] == "";
  }

  /** Wherever it appears outside quotes, a quoted string contributes exactly its own bytes to
      the current word; text with a NUL byte cannot be passed. */
  lemma QuoteReadsBack(done: seq<Token>, word: Option<string>, s: string)
    ensures FeedAll(Reading(done, word, Plain), Quote(s)) ==
            if '\0' in s then Rejected else Reading(done, Some(Text(word) + s), Plain)
  {
    var l := Reading(done, word, Plain);
    FeedConcat(l, "'" + Escape(s), "'");
    FeedConcat(l, "'", Escape(s));
    FeedOne(l, '\'');
    EscapeReadsBack(done, Text(word), s);
    if '\0' in s {
      FeedRejected("'");
    } else {
      FeedOne(Reading(done, Some(Text(word) + s), SingleQuoted), '\'');
    }
  }

  /** A quoted string on its own is exactly one word, equal to the original, for every string
      shell text can carry. */
  lemma QuoteIsOneWord(s: string)
    ensures Tokens(Quote(s)) == if '\0' in s then None else Some([Word(s)])
  {
    QuoteReadsBack([], None, s);
    assert "" + s == s;
    assert Flushed([], Some(s)) == [Word(s)];
  }

  // ----- the wrapper -----

  /** Words each followed by a blank. */
  function Join(ws: seq<string>): string {
    if ws == [] then "" else ws[0] + " " + Join(ws[1..])
  }

  /** KEYWORD [ -x PATH ]; then exec PATH -c QUOTED; */
  function Clause(keyword: string, path: string, q: string): string {
    Join([keyword, "[", "-x", path]) + "]; " + Join(["then", "exec", path, "-c"]) + q + "; "
  }

  /** The single argument after `/bin/sh -lc`. */
  function Wrapper(q: string): string {
    Clause("if", "/bin/bash", q) + Clause("elif", "/bin/sh", q) +
    (Join(["else", "exec", "/busybox/sh", "-c"]) + q + "; ") + "fi"
  }

  /** Words up to the next separator. */
  function Command(ts: seq<Token>): seq<string> {
    if ts == [] || ts[0].Semi? then [] else [ts[0].text] + Command(ts[1..])
  }

  function AfterCommand(ts: seq<Token>): (rest: seq<Token>)
    ensures |rest| <= |ts|
  {
    if ts == [] then [] else if ts[0].Semi? then ts[1..] else AfterCommand(ts[1..])
  }

  /** The argument list an `exec` command replaces the shell with. */
  function Execed(ts: seq<Token>): Option<seq<string>> {
    if ts != [] && ts[0] == Word("exec") then Some(Command(ts[1..])) else None
  }

  /** Runs `if [ -x P ]; then exec ...; elif ...; else exec ...; fi` on a system whose
      executable files are `executable`. */
  function RunConditional(ts: seq<Token>, keyword: string, executable: string -> bool): Option<seq<string>>
    decreases |ts|
  {
    if |ts| > 7 && ts[0] == Word(keyword) && ts[1] == Word("[") && ts[2] == Word("-x") && ts[3].Word?
       && ts[4] == Word("]") && ts[5] == Semi && ts[6] == Word("then")
    then
      if executable(ts[3].text) then Execed(ts[7..])
      else
        var rest := AfterCommand(ts[7..]);
        if rest != [] && rest[0] == Word("else") then Execed(rest[1..])
        else RunConditional(rest, "elif", executable)
    else None
  }

  function Words(ws: seq<string>): seq<Token> {
    if ws == [] then [] else [Word(ws[0])] + Words(ws[1..])
  }

  ghost predicate PlainWord(w: string) { w != "" && forall i :: 0 <= i < |w| ==> IsPlain(w[i]) }

  lemma FeedPlain(done: seq<Token>, word: Option<string>, c: char)
    requires IsPlain(c)
    ensures Feed(Reading(done, word, Plain), c) == Reading(done, Some(Text(word) + [c]), Plain)
  {
  }

  lemma {:induction false} FeedWord(done: seq<Token>, w: string)
    requires PlainWord(w)
    ensures FeedAll(Reading(done, None, Plain), w) == Reading(done, Some(w), Plain)
  {
    var k, l := |w| - 1, Reading(done, None, Plain);
    if k == 0 {
      assert w == [w[0]] && Text(l.word) + [w[0]] == w;
      FeedOne(l, w[0]);
      FeedPlain(done, None, w[0]);
    } else {
      FeedWord(done, w[..k]);
      FeedPlain(done, Some(w[..k]), w[k]);
      assert w[..k] + [w[k]] == w;
    }
  }

  lemma {:induction false} FeedWords(done: seq<Token>, ws: seq<string>)
    requires forall w :: w in ws ==> PlainWord(w)
    ensures FeedAll(Reading(done, None, Plain), Join(ws)) == Reading(done + Words(ws), None, Plain)
    decreases |ws|
  {
    if ws == [] {
      assert done + Words(ws) == done;
    } else {
      var l := Reading(done, None, Plain);
      FeedConcat(l, ws[0] + " ", Join(ws[1..]));
      FeedConcat(l, ws[0], " ");
      FeedWord(done, ws[0]);
      FeedOne(Reading(done, Some(ws[0]), Plain), ' ');
      FeedWords(done + [Word(ws[0])], ws[1..]);
      assert done + [Word(ws[0])] + Words(ws[1..]) == done + Words(ws);
    }
  }

  function ClauseTokens(keyword: string, path: string, script: string): seq<Token> {
    [Word(keyword), Word("["), Word("-x"), Word(path), Word("]"), Semi,
     Word("then"), Word("exec"), Word(path), Word("-c"), Word(script), Semi]
  }

  /** The part of a clause before the script. */
  lemma FeedHead(done: seq<Token>, keyword: string, path: string)
    requires PlainWord(keyword) && PlainWord(path)
    ensures var h1, h2 := [keyword, "[", "-x", path], ["then", "exec", path, "-c"];
            FeedAll(Reading(done, None, Plain), Join(h1) + "]; " + Join(h2)) ==
            Reading(done + Words(h1) + [Word("]"), Semi] + Words(h2), None, Plain)
  {
    var l := Reading(done, None, Plain);
    var h1, h2 := [keyword, "[", "-x", path], ["then", "exec", path, "-c"];
    FeedConcat(l, Join(h1) + "]; ", Join(h2));
    FeedConcat(l, Join(h1), "]; ");
    FeedWords(done, h1);
    FeedBracket(done + Words(h1));
    FeedWords(done + Words(h1) + [Word("]"), Semi], h2);
  }

  /** A quoted script and the separator after it. */
  lemma FeedScript(done: seq<Token>, script: string)
    requires '\0' !in script
    ensures FeedAll(Reading(done, None, Plain), Quote(script) + "; ") ==
            Reading(done + [Word(script), Semi], None, Plain)
  {
    FeedConcat(Reading(done, None, Plain), Quote(script), "; ");
    QuoteReadsBack(done, None, script);
    assert "" + script == script;
    FeedSemi(done, script);
  }

  lemma FeedClause(done: seq<Token>, keyword: string, path: string, script: string)
    requires PlainWord(keyword) && PlainWord(path) && '\0' !in script
    ensures FeedAll(Reading(done, None, Plain), Clause(keyword, path, Quote(script))) ==
            Reading(done + ClauseTokens(keyword, path, script), None, Plain)
  {
    var head := Join([keyword, "[", "-x", path]) + "]; " + Join(["then", "exec", path, "-c"]);
    var w1, w2 := Words([keyword, "[", "-x", path]), Words(["then", "exec", path, "-c"]);
    FeedHead(done, keyword, path);
    assert Clause(keyword, path, Quote(script)) == head + (Quote(script) + "; ");
    FeedConcat(Reading(done, None, Plain), head, Quote(script) + "; ");
    FeedScript(done + w1 + [Word("]"), Semi] + w2, script);
    FourWords(keyword, "[", "-x", path);
    FourWords("then", "exec", path, "-c");
    assert done + w1 + [Word("]"), Semi] + w2 + [Word(script), Semi] == done + ClauseTokens(keyword, path, script);
  }

  lemma FourWords(a: string, b: string, c: string, d: string)
    ensures Words([a, b, c, d]) == [Word(a), Word(b), Word(c), Word(d)]
  {
    assert [a, b, c, d][1..] == [b, c, d] && [b, c, d][1..] == [c, d] && [c, d][1..] == [d] && [d][1..] == [];
    assert Words([d]) == [Word(d)];
    assert Words([c, d]) == [Word(c)] + Words([d]);
    assert Words([b, c, d]) == [Word(b)] + Words([c, d]);
  }

  lemma FeedBracket(done: seq<Token>)
    ensures FeedAll(Reading(done, None, Plain), "]; ") == Reading(done + [Word("]"), Semi], None, Plain)
  {
    var l := Reading(done, None, Plain);
    FeedOne(l, ']');
    assert "]; "[..2] == "];" && "];"[..1] == "]";
    assert FeedAll(l, "]") == Reading(done, Some("]"), Plain) by { assert "" + "]" == "]"; }
    assert FeedAll(l, "];") == Feed(FeedAll(l, "]"), ';');
    assert done + [Word("]")] + [Semi] == done + [Word("]"), Semi];
  }

  lemma FeedSemi(done: seq<Token>, w: string)
    ensures FeedAll(Reading(done, Some(w), Plain), "; ") == Reading(done + [Word(w), Semi], None, Plain)
  {
    var l := Reading(done, Some(w), Plain);
    FeedOne(l, ';');
    assert "; "[..1] == ";";
    assert done + [Word(w)] + [Semi] == done + [Word(w), Semi];
  }

  function WrapperTokens(script: string): seq<Token> {
    ClauseTokens("if", "/bin/bash", script) + ClauseTokens("elif", "/bin/sh", script) +
    LastTokens(script) + [Word("fi")]
  }

  /** Four words and a script. */
  lemma FeedCommand(done: seq<Token>, a: string, b: string, c: string, d: string, script: string)
    requires PlainWord(a) && PlainWord(b) && PlainWord(c) && PlainWord(d) && '\0' !in script
    ensures FeedAll(Reading(done, None, Plain), Join([a, b, c, d]) + Quote(script) + "; ") ==
            Reading(done + [Word(a), Word(b), Word(c), Word(d), Word(script), Semi], None, Plain)
  {
    var l, h := Reading(done, None, Plain), [a, b, c, d];
    assert Join(h) + Quote(script) + "; " == Join(h) + (Quote(script) + "; ");
    FeedConcat(l, Join(h), Quote(script) + "; ");
    FeedWords(done, h);
    FourWords(a, b, c, d);
    FeedScript(done + Words(h), script);
    assert done + Words(h) + [Word(script), Semi] == done + [Word(a), Word(b), Word(c), Word(d), Word(script), Semi];
  }

  lemma FeedLast(done: seq<Token>, script: string)
    requires '\0' !in script
    ensures FeedAll(Reading(done, None, Plain), Join(["else", "exec", "/busybox/sh", "-c"]) + Quote(script) + "; ") ==
            Reading(done + LastTokens(script), None, Plain)
  {
    FeedCommand(done, "else", "exec", "/busybox/sh", "-c", script);
  }

  function LastTokens(script: string): seq<Token> {
    [Word("else"), Word("exec"), Word("/busybox/sh"), Word("-c"), Word(script), Semi]
  }

  /** Text in four parts is read part by part. */
  lemma FeedParts(l: Lexer, a: string, b: string, c: string, d: string)
    ensures FeedAll(l, a + b + c + d) == FeedAll(FeedAll(FeedAll(FeedAll(l, a), b), c), d)
  {
    FeedConcat(l, a + b + c, d);
    FeedConcat(l, a + b, c);
    FeedConcat(l, a, b);
  }

  /** Two clauses, a last branch and a closing word, read in order. */
  lemma FeedConditional(k1: string, p1: string, k2: string, p2: string, last: string, tokens: seq<Token>, fi: string,
                        script: string)
    requires PlainWord(k1) && PlainWord(p1) && PlainWord(k2) && PlainWord(p2) && PlainWord(fi) && '\0' !in script
    requires var done := ClauseTokens(k1, p1, script) + ClauseTokens(k2, p2, script);
             FeedAll(Reading(done, None, Plain), last) == Reading(done + tokens, None, Plain)
    ensures var q := Quote(script);
            FeedAll(Reading([], None, Plain), Clause(k1, p1, q) + Clause(k2, p2, q) + last + fi) ==
            Reading(ClauseTokens(k1, p1, script) + ClauseTokens(k2, p2, script) + tokens, Some(fi), Plain)
  {
    var c1, c2 := ClauseTokens(k1, p1, script), ClauseTokens(k2, p2, script);
    FeedParts(Reading([], None, Plain), Clause(k1, p1, Quote(script)), Clause(k2, p2, Quote(script)), last, fi);
    FeedClause([], k1, p1, script);
    assert [] + c1 == c1;
    FeedClause(c1, k2, p2, script);
    FeedWord(c1 + c2 + tokens, fi);
  }

  /** The wrapper reads as the intended conditional, with the script as one word per branch. */
  lemma WrapperReads(script: string)
    requires '\0' !in script
    ensures Tokens(Wrapper(Quote(script))) == Some(WrapperTokens(script))
  {
    FeedLast(ClauseTokens("if", "/bin/bash", script) + ClauseTokens("elif", "/bin/sh", script), script);
    FeedConditional("if", "/bin/bash", "elif", "/bin/sh",
                    Join(["else", "exec", "/busybox/sh", "-c"]) + Quote(script) + "; ",
                    LastTokens(script), "fi", script);
  }

  /** The first shell that exists. */
  function ChosenShell(executable: string -> bool): string {
    if executable("/bin/bash") then "/bin/bash" else if executable("/bin/sh") then "/bin/sh" else "/busybox/sh"
  }

  /** On every system, running the wrapper replaces the shell by the first available one with
      exactly the original script as its `-c` argument. */
  lemma WrapperRunsTheScript(script: string, executable: string -> bool)
    requires '\0' !in script
    ensures var tokens := Tokens(Wrapper(Quote(script)));
            tokens.Some? && RunConditional(tokens.value, "if", executable) ==
                            Some([ChosenShell(executable), "-c", script])
  {
    WrapperReads(script);
    WrapperChooses(script, executable);
  }

  /** Shell text that, on every system, replaces the shell by the first available one with exactly
      this script as its `-c` argument. */
  ghost predicate Runs(text: string, script: string) {
    Tokens(text).Some? &&
    forall executable :: RunConditional(Tokens(text).value, "if", executable) ==
      Some([ChosenShell(executable), "-c", script])
  }

  /** Which shell that is: bash, else sh, else the one of busybox. */
  lemma RunsIn(text: string, script: string, executable: string -> bool)
    requires Runs(text, script)
    ensures var argv := RunConditional(Tokens(text).value, "if", executable);
            && (executable("/bin/bash") ==> argv == Some(["/bin/bash", "-c", script]))
            && (!executable("/bin/bash") && executable("/bin/sh") ==> argv == Some(["/bin/sh", "-c", script]))
            && (!executable("/bin/bash") && !executable("/bin/sh") ==> argv == Some(["/busybox/sh", "-c", script]))
  {
  }

  lemma ClauseRejectsNul(keyword: string, path: string, script: string)
    requires PlainWord(keyword) && PlainWord(path) && '\0' in script
    ensures FeedAll(Reading([], None, Plain), Clause(keyword, path, Quote(script))) == Rejected
  {
    var l := Reading([], None, Plain);
    var head := Join([keyword, "[", "-x", path]) + "]; " + Join(["then", "exec", path, "-c"]);
    var done := [] + Words([keyword, "[", "-x", path]) + [Word("]"), Semi] + Words(["then", "exec", path, "-c"]);
    FeedHead([], keyword, path);
    assert Clause(keyword, path, Quote(script)) == head + (Quote(script) + "; ");
    FeedConcat(l, head, Quote(script) + "; ");
    FeedConcat(Reading(done, None, Plain), Quote(script), "; ");
    QuoteReadsBack(done, None, script);
    FeedRejected("; ");
  }

  lemma RejectedParts(l: Lexer, a: string, b: string, c: string, d: string)
    requires FeedAll(l, a) == Rejected
    ensures FeedAll(l, a + b + c + d) == Rejected
  {
    FeedParts(l, a, b, c, d);
    FeedRejected(b);
    FeedRejected(c);
    FeedRejected(d);
  }

  lemma WrapperRejectsNul(script: string)
    requires '\0' in script
    ensures Tokens(Wrapper(Quote(script))).None?
  {
    var q := Quote(script);
    ClauseRejectsNul("if", "/bin/bash", script);
    RejectedParts(Reading([], None, Plain), Clause("if", "/bin/bash", q), Clause("elif", "/bin/sh", q),
                  Join(["else", "exec", "/busybox/sh", "-c"]) + q + "; ", "fi");
  }

  /** The wrapper runs the script exactly when shell text can carry it. */
  lemma WrapperRunsIff(script: string)
    ensures Runs(Wrapper(Quote(script)), script) <==> '\0' !in script
    ensures '\0' in script ==> Tokens(Wrapper(Quote(script))).None?
  {
    if '\0' in script {
      WrapperRejectsNul(script);
    } else {
      WrapperReads(script);
      forall executable
        ensures RunConditional(Tokens(Wrapper(Quote(script))).value, "if", executable) ==
                Some([ChosenShell(executable), "-c", script])
      {
        WrapperRunsTheScript(script, executable);
      }
    }
  }

  method ShellCommandForScript(script: string) returns (argv: seq<string>)
    ensures |argv| == 3 && argv[0] == "/bin/sh" && argv[1] == "-lc" && argv[2] == Wrapper(Quote(script))
    ensures Runs(argv[2], script) <==> '\0' !in script
  {
    var q := ShellQuote(script);
    WrapperRunsIff(script);
    argv := ["/bin/sh", "-lc", Wrapper(q)];
  }

  lemma WrapperChooses(script: string, executable: string -> bool)
    ensures RunConditional(WrapperTokens(script), "if", executable) == Some([ChosenShell(executable), "-c", script])
  {
    FirstShellRuns("/bin/bash", "/bin/sh", "/busybox/sh", script, executable);
    assert LastTokens(script) == [Word("else")] + ExecTokens("/busybox/sh", script);
  }

  /** Of three shells in order, the first that exists runs, and the last without being looked for. */
  lemma FirstShellRuns(p1: string, p2: string, p3: string, script: string, executable: string -> bool)
    ensures RunConditional(ClauseTokens("if", p1, script) + ClauseTokens("elif", p2, script) +
                           ([Word("else")] + ExecTokens(p3, script)) + [Word("fi")], "if", executable) ==
            Some([if executable(p1) then p1 else if executable(p2) then p2 else p3, "-c", script])
  {
    var c1, c2 := ClauseTokens("if", p1, script), ClauseTokens("elif", p2, script);
    var c3 := [Word("else")] + ExecTokens(p3, script) + [Word("fi")];
    assert c1 + c2 + ([Word("else")] + ExecTokens(p3, script)) + [Word("fi")] == c1 + (c2 + c3);
    RunClause("if", p1, script, c2 + c3, executable);
    assert (c2 + c3)[0] == Word("elif");
    RunClause("elif", p2, script, c3, executable);
    assert c3[1..] == ExecTokens(p3, script) + [Word("fi")];
    CommandOf(p3, script, [Word("fi")]);
  }

  /** A clause runs its script when its shell exists and otherwise leaves the choice to the rest. */
  lemma RunClause(keyword: string, path: string, script: string, rest: seq<Token>, executable: string -> bool)
    ensures RunConditional(ClauseTokens(keyword, path, script) + rest, keyword, executable) ==
            if executable(path) then Some([path, "-c", script])
            else if rest != [] && rest[0] == Word("else") then Execed(rest[1..])
            else RunConditional(rest, "elif", executable)
  {
    var ts := ClauseTokens(keyword, path, script) + rest;
    assert ts[7..] == ExecTokens(path, script) + rest;
    CommandOf(path, script, rest);
  }

  function ExecTokens(path: string, script: string): seq<Token> {
    [Word("exec"), Word(path), Word("-c"), Word(script), Semi]
  }

  lemma CommandOf(path: string, script: string, rest: seq<Token>)
    ensures var ts := ExecTokens(path, script) + rest;
            Execed(ts) == Some([path, "-c", script]) && AfterCommand(ts) == rest
  {
    var ts := ExecTokens(path, script) + rest;
    var t1, t2, t3, t4 := ts[1..], ts[2..], ts[3..], ts[4..];
    assert t1[1..] == t2 && t2[1..] == t3 && t3[1..] == t4 && t4[1..] == rest;
    assert Command(t4) == [] && AfterCommand(t4) == rest;
    assert Command(t3) == [script] && AfterCommand(t3) == rest;
    assert Command(t2) == ["-c"] + [script] && AfterCommand(t2) == rest;
    assert Command(t1) == [path] + (["-c"] + [script]) == [path, "-c", script] && AfterCommand(t1) == rest;
  }
}
