/**
 The parser of user/sh.c reads exactly the command lines of module ShellGrammar: each text of a line is parsed to the
 tree that the line stands for, and each text that is accepted is the text of such a line. Every command tree has a
 text without needless parentheses.
 */
module ShellPrint {
  import opened Shell
  import opened ShellGrammar

  // ----- the tree that a parsed command stands for

  function TreeOf(text: string, cmd: Cmd<Span>): Tree {
    match cmd
    case Exec(argv) => Exec(WordsOf(text, argv))
    case Redir(c, file, mode) => Redir(TreeOf(text, c), TextOf(text, file), mode)
    case Pipe(l, r) => Pipe(TreeOf(text, l), TreeOf(text, r))
    case List(l, r) => List(TreeOf(text, l), TreeOf(text, r))
    case Back(c) => Back(TreeOf(text, c))
  }

  function WordsOf(text: string, argv: seq<Span>): (ws: seq<string>)
    ensures |ws| == |argv| && forall i :: 0 <= i < |argv| ==> ws[i] == TextOf(text, argv[i])
  {
    if argv == [] then [] else WordsOf(text, argv[..|argv| - 1]) + [TextOf(text, argv[|argv| - 1])]
  }

  /** r is t, and rest is what it leaves. */
  ghost predicate Reads(text: string, r: Result<Parsed>, t: Tree, rest: seq<Token>) {
    r.Ok? && r.value.rest == rest && TreeOf(text, r.value.cmd) == t
  }

  lemma StartsLength(text: string, toks: seq<Token>, ls: seq<Lexeme>)
    requires Starts(text, toks, ls)
    ensures |ls| <= |toks|
  {
  }

  lemma StartsSplit(text: string, toks: seq<Token>, a: seq<Lexeme>, b: seq<Lexeme>)
    requires Starts(text, toks, a + b)
    ensures |a| + |b| <= |toks| && Starts(text, toks, a) && Starts(text, toks[|a|..], b)
    ensures toks[|a + b|..] == toks[|a|..][|b|..]
  {
    hide Same;
    forall i | 0 <= i < |a|
      ensures Same(text, toks[i], a[i])
    {
      assert (a + b)[i] == a[i];
    }
    forall i | 0 <= i < |b|
      ensures Same(text, toks[|a|..][i], b[i])
    {
      assert (a + b)[|a| + i] == b[i];
    }
  }

  lemma StartsJoin(text: string, toks: seq<Token>, a: seq<Lexeme>, b: seq<Lexeme>)
    requires Starts(text, toks, a) && Starts(text, toks[|a|..], b)
    ensures Starts(text, toks, a + b) && toks[|a + b|..] == toks[|a|..][|b|..]
  {
    hide Same;
    forall i | |a| <= i < |a + b|
      ensures Same(text, toks[i], (a + b)[i])
    {
      assert toks[|a|..][i - |a|] == toks[i];
    }
  }

  lemma StartsHead(text: string, toks: seq<Token>, l: Lexeme, more: seq<Lexeme>)
    requires Starts(text, toks, [l] + more)
    ensures 1 + |more| <= |toks| && Head(toks) == l.kind && Same(text, toks[0], l) && Starts(text, toks[1..], more)
    ensures toks[|[l] + more|..] == toks[1..][|more|..]
  {
    hide Same;
    StartsSplit(text, toks, [l], more);
    assert Same(text, toks[0], [l][0]);
    SameKind(text, toks[0], l);
  }

  /** A good token is the lexeme of its kind and text. */
  lemma StartsOne(text: string, toks: seq<Token>)
    requires toks != [] && TokenGood(text, toks[0])
    ensures Starts(text, toks, [LexemeOf(text, toks[0])])
  {
  }

  lemma SymbolStarts(text: string, toks: seq<Token>, more: seq<Lexeme>)
    requires toks != [] && TokenGood(text, toks[0]) && toks[0].kind in SYMBOLS && Starts(text, toks[1..], more)
    ensures Starts(text, toks, [Symbol(toks[0].kind)] + more)
    ensures toks[|[Symbol(toks[0].kind)] + more|..] == toks[1..][|more|..]
  {
    StartsOne(text, toks);
    assert LexemeOf(text, toks[0]) == Symbol(toks[0].kind);
    hide Same, TokenGood;
    StartsJoin(text, toks, [Symbol(toks[0].kind)], more);
  }

  lemma SameKind(text: string, t: Token, l: Lexeme)
    requires Same(text, t, l)
    ensures t.kind == l.kind && TextOf(text, Word(t)) == l.text
  {
  }

  lemma GoodTail(text: string, toks: seq<Token>, n: nat)
    requires TokensGood(text, toks) && n <= |toks|
    ensures TokensGood(text, toks[n..])
  {
    hide TokenGood;
  }

  // ----- redirections

  lemma {:induction false} WrappedSnoc(t: Tree, ts: seq<Target>, last: Target)
    ensures Wrapped(t, ts + [last]) == Redir(Wrapped(t, ts), last.file, last.mode)
    decreases |ts|
  {
    if ts != [] {
      assert (ts + [last])[1..] == ts[1..] + [last];
      WrappedSnoc(Redir(t, ts[0].file, ts[0].mode), ts[1..], last);
    }
  }

  /** parseredirs reads a run of redirections. */
  lemma {:induction false} RedirsRead(text: string, cmd: Cmd<Span>, ts: seq<Target>, toks: seq<Token>)
    requires Starts(text, toks, TargetLexemes(ts)) && !IsRedir(Head(toks[|TargetLexemes(ts)|..]))
    ensures Reads(text, RedirsOf(cmd, toks), Wrapped(TreeOf(text, cmd), ts), toks[|TargetLexemes(ts)|..])
    decreases |ts|
  {
    hide Starts, Same;
    if ts == [] {
      assert toks[0..] == toks;
    } else {
      var more := TargetLexemes(ts[1..]);
      var m, w := ModeLexeme(ts[0].mode), WordLexeme(ts[0].file);
      assert TargetLexemes(ts) == [m] + ([w] + more);
      StartsHead(text, toks, m, [w] + more);
      StartsHead(text, toks[1..], w, more);
      SameKind(text, toks[1], w);
      assert toks[2..] == toks[1..][1..];
      var c := Redir(cmd, Word(toks[1]), ModeOf(toks[0].kind));
      assert TreeOf(text, c) == Redir(TreeOf(text, cmd), ts[0].file, ts[0].mode);
      RedirsRead(text, c, ts[1..], toks[2..]);
    }
  }

  /** The redirection that two tokens make. */
  function TargetAt(text: string, toks: seq<Token>): Target
    requires |toks| >= 2
  {
    Target(TextOf(text, Word(toks[1])), ModeOf(toks[0].kind))
  }

  lemma TargetStarts(text: string, toks: seq<Token>, more: seq<Lexeme>)
    requires |toks| >= 2 && TokenGood(text, toks[0]) && TokenGood(text, toks[1])
    requires IsRedir(toks[0].kind) && toks[1].kind == 'a' && Starts(text, toks[2..], more)
    ensures var x := TargetAt(text, toks);
            && IsWord(x.file) && Starts(text, toks, [ModeLexeme(x.mode), WordLexeme(x.file)] + more)
            && toks[|[ModeLexeme(x.mode), WordLexeme(x.file)] + more|..] == toks[2..][|more|..]
  {
    var x := TargetAt(text, toks);
    assert LexemeOf(text, toks[0]) == ModeLexeme(x.mode) && LexemeOf(text, toks[1]) == WordLexeme(x.file);
    var two := [ModeLexeme(x.mode), WordLexeme(x.file)];
    assert Starts(text, toks, two);
    hide Same;
    StartsJoin(text, toks, two, more);
  }

  /** What parseredirs reads is a run of redirections. */
  lemma {:induction false} RedirsSource(text: string, cmd: Cmd<Span>, toks: seq<Token>) returns (ts: seq<Target>)
    requires TokensGood(text, toks) && RedirsOf(cmd, toks).Ok?
    ensures TargetsOk(ts) && Starts(text, toks, TargetLexemes(ts))
    ensures Reads(text, RedirsOf(cmd, toks), Wrapped(TreeOf(text, cmd), ts), toks[|TargetLexemes(ts)|..])
    decreases |toks|
  {
    hide Starts, Same, TokenGood, IsWord;
    if !IsRedir(Head(toks)) {
      ts := [];
      NoneStarts(text, toks);
    } else {
      GoodTail(text, toks, 2);
      var c := Redir(cmd, Word(toks[1]), ModeOf(toks[0].kind));
      var more := RedirsSource(text, c, toks[2..]);
      TargetStarts(text, toks, TargetLexemes(more));
      ts := [TargetAt(text, toks)] + more;
      assert ts[1..] == more;
    }
  }

  lemma NoneStarts(text: string, toks: seq<Token>)
    ensures Starts(text, toks, []) && toks[0..] == toks
  {
  }

  // ----- simple commands

  /** parseexec from its first redirections on. */
  function Loop(cmd: Cmd<Span>, argc: nat, toks: seq<Token>): Result<Parsed> {
    match RedirsOf(cmd, toks)
    case Fail(e) => Fail(e)
    case Ok(p) => ArgsOf(p.cmd, argc, p.rest)
  }

  predicate Ends(toks: seq<Token>) {
    toks == [] || EndsExec(toks[0].kind)
  }

  lemma LoopRedir(cmd: Cmd<Span>, argc: nat, toks: seq<Token>)
    requires |toks| >= 2 && IsRedir(toks[0].kind) && toks[1].kind == 'a'
    ensures Loop(cmd, argc, toks) == Loop(Redir(cmd, Word(toks[1]), ModeOf(toks[0].kind)), argc, toks[2..])
  {
    assert toks[1..][0] == toks[1];
  }

  lemma LoopWord(cmd: Cmd<Span>, argc: nat, toks: seq<Token>)
    requires toks != [] && toks[0].kind == 'a'
    ensures Loop(cmd, argc, toks) == if argc + 1 >= MAXARGS then Fail(TooManyArgs)
                                     else Loop(WithArg(cmd, Word(toks[0])), argc + 1, toks[1..])
  {
  }

  lemma LoopEnd(cmd: Cmd<Span>, argc: nat, toks: seq<Token>)
    requires Ends(toks)
    ensures Loop(cmd, argc, toks) == Ok(Parsed(cmd, toks))
  {
  }

  /** The tree with one more word in its innermost command. */
  function WithWord(t: Tree, w: string): Tree {
    match t
    case Exec(argv) => Exec(argv + [w])
    case Redir(c, file, mode) => Redir(WithWord(c, w), file, mode)
    case _ => t
  }

  lemma {:induction false} WithArgTree(text: string, cmd: Cmd<Span>, w: Span)
    ensures TreeOf(text, WithArg(cmd, w)) == WithWord(TreeOf(text, cmd), TextOf(text, w))
    decreases cmd
  {
    match cmd
    case Exec(argv) => assert (argv + [w])[..|argv|] == argv;
    case Redir(c, file, mode) => WithArgTree(text, c, w);
    case _ =>
  }

  lemma {:induction false} WithWordWrapped(t: Tree, ts: seq<Target>, w: string)
    ensures WithWord(Wrapped(t, ts), w) == Wrapped(WithWord(t, w), ts)
    decreases |ts|
  {
    if ts != [] {
      WithWordWrapped(Redir(t, ts[0].file, ts[0].mode), ts[1..], w);
    }
  }

  /** The pieces put on a tree one by one. */
  function Fold(t: Tree, ps: seq<Piece>): Tree
    decreases |ps|
  {
    if ps == [] then t
    else
      match ps[0]
      case Arg(w) => Fold(WithWord(t, w), ps[1..])
      case To(x) => Fold(Redir(t, x.file, x.mode), ps[1..])
  }

  /** The order of words and redirections among each other does not matter. */
  lemma {:induction false} FoldIs(ws: seq<string>, ts: seq<Target>, ps: seq<Piece>)
    ensures Fold(Wrapped(Exec(ws), ts), ps) == Wrapped(Exec(ws + WordsIn(ps)), ts + TargetsIn(ps))
    decreases |ps|
  {
    hide Wrapped, WithWord;
    if ps == [] {
      assert ws + WordsIn(ps) == ws && ts + TargetsIn(ps) == ts;
    } else {
      match ps[0]
      case Arg(w) =>
        WordOnSimple(ws, ts, w);
        FoldIs(ws + [w], ts, ps[1..]);
        assert ws + [w] + WordsIn(ps[1..]) == ws + WordsIn(ps);
        assert TargetsIn(ps) == TargetsIn(ps[1..]);
      case To(x) =>
        WrappedSnoc(Exec(ws), ts, x);
        FoldIs(ws, ts + [x], ps[1..]);
        assert ts + [x] + TargetsIn(ps[1..]) == ts + TargetsIn(ps);
        assert WordsIn(ps) == WordsIn(ps[1..]);
    }
  }

  lemma WordOnSimple(ws: seq<string>, ts: seq<Target>, w: string)
    ensures WithWord(Wrapped(Exec(ws), ts), w) == Wrapped(Exec(ws + [w]), ts)
  {
    WithWordWrapped(Exec(ws), ts, w);
  }

  lemma FoldIsMeaning(ps: seq<Piece>)
    ensures Fold(Exec([]), ps) == Meaning(Simple(ps))
  {
    FoldIs([], [], ps);
    assert [] + WordsIn(ps) == WordsIn(ps) && [] + TargetsIn(ps) == TargetsIn(ps);
  }

  /** parseexec reads words and redirections in any order. */
  lemma {:induction false} LoopRead(text: string, cmd: Cmd<Span>, argc: nat, ps: seq<Piece>, toks: seq<Token>)
    requires Starts(text, toks, PieceLexemes(ps)) && argc + |WordsIn(ps)| < MAXARGS
             && Ends(toks[|PieceLexemes(ps)|..])
    ensures Reads(text, Loop(cmd, argc, toks), Fold(TreeOf(text, cmd), ps), toks[|PieceLexemes(ps)|..])
    decreases |ps|
  {
    hide Starts, Same, Loop, WithWord, WithArg;
    if ps == [] {
      assert toks[0..] == toks;
      LoopEnd(cmd, argc, toks);
    } else {
      var more := PieceLexemes(ps[1..]);
      match ps[0]
      case Arg(w) =>
        assert PieceLexemes(ps) == [WordLexeme(w)] + more;
        StartsHead(text, toks, WordLexeme(w), more);
        SameKind(text, toks[0], WordLexeme(w));
        LoopWord(cmd, argc, toks);
        WithArgTree(text, cmd, Word(toks[0]));
        LoopRead(text, WithArg(cmd, Word(toks[0])), argc + 1, ps[1..], toks[1..]);
      case To(x) =>
        var m, f := ModeLexeme(x.mode), WordLexeme(x.file);
        assert PieceLexemes(ps) == [m] + ([f] + more);
        StartsHead(text, toks, m, [f] + more);
        StartsHead(text, toks[1..], f, more);
        SameKind(text, toks[1], f);
        assert toks[2..] == toks[1..][1..];
        LoopRedir(cmd, argc, toks);
        var c := Redir(cmd, Word(toks[1]), ModeOf(toks[0].kind));
        assert TreeOf(text, c) == Redir(TreeOf(text, cmd), x.file, x.mode);
        LoopRead(text, c, argc, ps[1..], toks[2..]);
    }
  }

  /** What parseexec reads, other than a block, is words and redirections. */
  lemma {:induction false} LoopSource(text: string, cmd: Cmd<Span>, argc: nat, toks: seq<Token>)
    returns (ps: seq<Piece>)
    requires TokensGood(text, toks) && argc < MAXARGS && Loop(cmd, argc, toks).Ok?
    ensures PiecesOk(ps) && Starts(text, toks, PieceLexemes(ps)) && argc + |WordsIn(ps)| < MAXARGS
    ensures Reads(text, Loop(cmd, argc, toks), Fold(TreeOf(text, cmd), ps), toks[|PieceLexemes(ps)|..])
    decreases |toks|
  {
    hide Starts, Same, TokenGood, IsWord, WithArg, WithWord;
    if Ends(toks) {
      ps := [];
      NoneStarts(text, toks);
      LoopEnd(cmd, argc, toks);
    } else if toks[0].kind == 'a' {
      LoopWord(cmd, argc, toks);
      GoodTail(text, toks, 1);
      hide Loop;
      var more := LoopSource(text, WithArg(cmd, Word(toks[0])), argc + 1, toks[1..]);
      WithArgTree(text, cmd, Word(toks[0]));
      WordStarts(text, toks, PieceLexemes(more));
      ps := [Arg(TextOf(text, Word(toks[0])))] + more;
      assert ps[1..] == more;
    } else {
      LoopCases(cmd, argc, toks);
      LoopRedir(cmd, argc, toks);
      GoodTail(text, toks, 2);
      hide Loop;
      var c := Redir(cmd, Word(toks[1]), ModeOf(toks[0].kind));
      var more := LoopSource(text, c, argc, toks[2..]);
      TargetStarts(text, toks, PieceLexemes(more));
      ps := [To(TargetAt(text, toks))] + more;
      assert ps[1..] == more;
    }
  }

  lemma WordStarts(text: string, toks: seq<Token>, more: seq<Lexeme>)
    requires toks != [] && TokenGood(text, toks[0]) && toks[0].kind == 'a' && Starts(text, toks[1..], more)
    ensures var w := TextOf(text, Word(toks[0]));
            && IsWord(w) && Starts(text, toks, [WordLexeme(w)] + more)
            && toks[|[WordLexeme(w)] + more|..] == toks[1..][|more|..]
  {
    StartsOne(text, toks);
    hide Same;
    StartsJoin(text, toks, [LexemeOf(text, toks[0])], more);
  }

  /** The loop goes on only at a word or a redirection to a word. */
  lemma LoopCases(cmd: Cmd<Span>, argc: nat, toks: seq<Token>)
    requires Loop(cmd, argc, toks).Ok? && !Ends(toks)
    ensures toks[0].kind == 'a' || (|toks| >= 2 && IsRedir(toks[0].kind) && toks[1].kind == 'a')
  {
  }

  // ----- blocks, pipes, lists

  lemma SimpleIsLoop(text: string, ps: seq<Piece>, toks: seq<Token>)
    requires Starts(text, toks, PieceLexemes(ps)) && Ends(toks[|PieceLexemes(ps)|..])
    ensures Head(toks) != '(' && ExecOf(toks) == Loop(Exec([]), 0, toks)
  {
    if ps == [] {
      assert toks[0..] == toks;
    } else {
      assert Same(text, toks[0], PieceLexemes(ps)[0]);
    }
  }

  /** parseexec reads a simple command or a block. */
  lemma {:induction false} UnitRead(text: string, s: Line, toks: seq<Token>)
    requires Proper(s) && IsUnit(s) && Starts(text, toks, Lexemes(s)) && Ends(toks[|Lexemes(s)|..])
    ensures Reads(text, ExecOf(toks), Meaning(s), toks[|Lexemes(s)|..])
    decreases s, 0
  {
    hide Starts, Same;
    match s
    case Simple(ps) =>
      SimpleIsLoop(text, ps, toks);
      LoopRead(text, Exec([]), 0, ps, toks);
      FoldIsMeaning(ps);
    case Paren(l, ts) =>
      var after := [Symbol(')')] + TargetLexemes(ts);
      StartsHead(text, toks, Symbol('('), Lexemes(l) + after);
      StartsSplit(text, toks[1..], Lexemes(l), after);
      var rest := toks[1..][|Lexemes(l)|..];
      StartsHead(text, rest, Symbol(')'), TargetLexemes(ts));
      LineRead(text, l, toks[1..]);
      var p := LineOf(toks[1..]).value;
      RedirsRead(text, p.cmd, ts, rest[1..]);
  }

  predicate AfterPipe(rest: seq<Token>) {
    Ends(rest) && Head(rest) != '|'
  }

  lemma {:induction false} PipeRead(text: string, s: Line, toks: seq<Token>)
    requires Proper(s) && IsPipe(s) && Starts(text, toks, Lexemes(s)) && AfterPipe(toks[|Lexemes(s)|..])
    ensures Reads(text, PipeOf(toks), Meaning(s), toks[|Lexemes(s)|..])
    decreases s, 1
  {
    hide Starts, Same, ExecOf;
    if IsUnit(s) {
      UnitRead(text, s, toks);
    } else {
      StartsSplit(text, toks, Lexemes(s.left), [Symbol('|')] + Lexemes(s.right));
      var rest := toks[|Lexemes(s.left)|..];
      StartsHead(text, rest, Symbol('|'), Lexemes(s.right));
      UnitRead(text, s.left, toks);
      PipeRead(text, s.right, rest[1..]);
    }
  }

  /** parseline's loop over ampersands, which may go on behind s. */
  lemma {:induction false} BackRead(text: string, s: Line, toks: seq<Token>) returns (c: Cmd<Span>)
    requires Proper(s) && IsBack(s) && Starts(text, toks, Lexemes(s)) && AfterPipe(toks[|Lexemes(s)|..])
    ensures TreeOf(text, c) == Meaning(s) && PipeOf(toks).Ok?
    ensures var p := PipeOf(toks).value; BackOf(p.cmd, p.rest) == BackOf(c, toks[|Lexemes(s)|..])
    decreases s, 2
  {
    hide Starts, Same, PipeOf;
    if IsPipe(s) {
      PipeRead(text, s, toks);
      c := PipeOf(toks).value.cmd;
    } else {
      StartsSplit(text, toks, Lexemes(s.inner), [Symbol('&')]);
      var rest := toks[|Lexemes(s.inner)|..];
      assert [Symbol('&')] + [] == [Symbol('&')];
      StartsHead(text, rest, Symbol('&'), []);
      var inner := BackRead(text, s.inner, toks);
      c := Back(inner);
      assert BackOf(inner, rest) == BackOf(c, rest[1..]);
    }
  }

  /** What may follow a whole line: the end of the text, or the parenthesis that closes it. */
  predicate Closed(rest: seq<Token>) {
    rest == [] || Head(rest) == ')'
  }

  lemma {:induction false} LineRead(text: string, s: Line, toks: seq<Token>)
    requires Proper(s) && Starts(text, toks, Lexemes(s)) && Closed(toks[|Lexemes(s)|..])
    ensures Reads(text, LineOf(toks), Meaning(s), toks[|Lexemes(s)|..])
    decreases s, 3
  {
    StartsLength(text, toks, Lexemes(s));
    hide Starts, Same, PipeOf;
    if IsBack(s) {
      var c := BackRead(text, s, toks);
    } else {
      StartsSplit(text, toks, Lexemes(s.left), [Symbol(';')] + Lexemes(s.right));
      var rest := toks[|Lexemes(s.left)|..];
      StartsHead(text, rest, Symbol(';'), Lexemes(s.right));
      var c := BackRead(text, s.left, toks);
      LineRead(text, s.right, rest[1..]);
    }
  }

  // ----- what was parsed is a line

  /** r was read from the line s at the front of toks. */
  ghost predicate IsSource(text: string, toks: seq<Token>, r: Result<Parsed>, s: Line) {
    Proper(s) && Starts(text, toks, Lexemes(s)) && Reads(text, r, Meaning(s), toks[|Lexemes(s)|..])
  }

  lemma GoodRest(text: string, toks: seq<Token>, a: seq<Lexeme>, rest: seq<Token>)
    requires TokensGood(text, toks) && Starts(text, toks, a) && rest == toks[|a|..] != []
    ensures TokenGood(text, rest[0]) && TokensGood(text, rest[1..])
  {
    hide TokenGood, Same;
  }

  /** A symbol and what follows it, behind the lexemes a. */
  lemma JoinAt(text: string, toks: seq<Token>, a: seq<Lexeme>, rest: seq<Token>, b: seq<Lexeme>)
    requires Starts(text, toks, a) && rest == toks[|a|..] != [] && TokenGood(text, rest[0])
    requires rest[0].kind in SYMBOLS && Starts(text, rest[1..], b)
    ensures var ls := a + ([Symbol(rest[0].kind)] + b); Starts(text, toks, ls) && toks[|ls|..] == rest[1..][|b|..]
  {
    StartsLength(text, toks, a);
    hide Starts, TokenGood;
    SymbolStarts(text, rest, b);
    StartsJoin(text, toks, a, [Symbol(rest[0].kind)] + b);
  }

  lemma ParenIs(l: Line, ts: seq<Target>)
    ensures Lexemes(Paren(l, ts)) == [Symbol('(')] + (Lexemes(l) + ([Symbol(')')] + TargetLexemes(ts)))
    ensures Proper(l) && TargetsOk(ts) ==> Proper(Paren(l, ts))
  {
    hide TargetLexemes, TargetsOk;
  }

  lemma {:induction false} UnitSource(text: string, toks: seq<Token>) returns (s: Line)
    requires TokensGood(text, toks) && ExecOf(toks).Ok?
    ensures IsSource(text, toks, ExecOf(toks), s) && IsUnit(s)
    decreases |toks|, 1
  {
    hide Starts, Same, TokenGood, IsWord;
    if Head(toks) == '(' {
      s := BlockSource(text, toks);
    } else {
      var ps := LoopSource(text, Exec([]), 0, toks);
      FoldIsMeaning(ps);
      s := Simple(ps);
    }
  }

  lemma {:induction false} BlockSource(text: string, toks: seq<Token>) returns (s: Line)
    requires TokensGood(text, toks) && Head(toks) == '(' && BlockOf(toks).Ok?
    ensures IsSource(text, toks, BlockOf(toks), s) && IsUnit(s)
    decreases |toks|, 0
  {
    hide Starts, Same, TokenGood, IsWord;
    GoodTail(text, toks, 1);
    var l := LineSource(text, toks[1..]);
    var p := LineOf(toks[1..]).value;
    hide LineOf, RedirsOf, Lexemes, Proper;
    GoodRest(text, toks[1..], Lexemes(l), p.rest);
    var ts := RedirsSource(text, p.cmd, p.rest[1..]);
    JoinAt(text, toks[1..], Lexemes(l), p.rest, TargetLexemes(ts));
    SymbolStarts(text, toks, Lexemes(l) + ([Symbol(')')] + TargetLexemes(ts)));
    s := Paren(l, ts);
    ParenIs(l, ts);
  }

  lemma {:induction false} PipeSource(text: string, toks: seq<Token>) returns (s: Line)
    requires TokensGood(text, toks) && PipeOf(toks).Ok?
    ensures IsSource(text, toks, PipeOf(toks), s) && IsPipe(s)
    decreases |toks|, 2
  {
    hide Starts, Same, TokenGood, ExecOf;
    s := UnitSource(text, toks);
    var p := ExecOf(toks).value;
    if Head(p.rest) == '|' {
      GoodRest(text, toks, Lexemes(s), p.rest);
      var r := PipeSource(text, p.rest[1..]);
      JoinAt(text, toks, Lexemes(s), p.rest, Lexemes(r));
      s := Piped(s, r);
    }
  }

  /** The ampersands behind s, read from the front of toks, belong to a longer line. */
  lemma {:induction false} BackSource(text: string, toks: seq<Token>, cmd: Cmd<Span>, rest: seq<Token>, s: Line)
    returns (s': Line)
    requires TokensGood(text, toks) && IsSource(text, toks, Ok(Parsed(cmd, rest)), s) && IsBack(s)
    ensures IsSource(text, toks, Ok(BackOf(cmd, rest)), s') && IsBack(s')
    decreases |rest|
  {
    hide Starts, Same, TokenGood;
    s' := s;
    if Head(rest) == '&' {
      GoodRest(text, toks, Lexemes(s), rest);
      NoneStarts(text, rest[1..]);
      JoinAt(text, toks, Lexemes(s), rest, []);
      assert [Symbol('&')] + [] == [Symbol('&')];
      s' := BackSource(text, toks, Back(cmd), rest[1..], Behind(s));
    }
  }

  lemma {:induction false} LineSource(text: string, toks: seq<Token>) returns (s: Line)
    requires TokensGood(text, toks) && LineOf(toks).Ok?
    ensures IsSource(text, toks, LineOf(toks), s)
    decreases |toks|, 3
  {
    hide Starts, Same, TokenGood, PipeOf;
    var pipe := PipeSource(text, toks);
    var p0 := PipeOf(toks).value;
    var l := BackSource(text, toks, p0.cmd, p0.rest, pipe);
    var p := BackOf(p0.cmd, p0.rest);
    s := l;
    if Head(p.rest) == ';' {
      hide BackOf, IsSource;
      GoodRestOf(text, toks, p, l);
      var r := LineSource(text, p.rest[1..]);
      ThenIsSource(text, toks, p, l, LineOf(p.rest[1..]).value, r);
      s := Then(l, r);
    }
  }

  lemma GoodRestOf(text: string, toks: seq<Token>, p: Parsed, s: Line)
    requires TokensGood(text, toks) && IsSource(text, toks, Ok(p), s) && p.rest != []
    ensures TokenGood(text, p.rest[0]) && TokensGood(text, p.rest[1..])
  {
    hide Starts, TokensGood, TokenGood;
    GoodRest(text, toks, Lexemes(s), p.rest);
  }

  lemma ThenIsSource(text: string, toks: seq<Token>, p: Parsed, l: Line, p2: Parsed, r: Line)
    requires IsSource(text, toks, Ok(p), l) && IsBack(l) && Head(p.rest) == ';' && TokenGood(text, p.rest[0])
    requires IsSource(text, p.rest[1..], Ok(p2), r)
    ensures IsSource(text, toks, Ok(Parsed(List(p.cmd, p2.cmd), p2.rest)), Then(l, r))
  {
    hide Starts, TokenGood;
    JoinAt(text, toks, Lexemes(l), p.rest, Lexemes(r));
  }

  // ----- the parser reads exactly the lines of the grammar

  /** The text is parsed, all of it, to this tree. */
  ghost predicate Accepts(text: string, t: Tree) {
    CmdOf(Lex(text, 0)).Ok? && TreeOf(text, CmdOf(Lex(text, 0)).value) == t
  }

  lemma ModesOk(x: Target)
    requires IsWord(x.file)
    ensures LexemeOk(ModeLexeme(x.mode)) && LexemeOk(WordLexeme(x.file))
  {
  }

  lemma {:induction false} TargetLexemesOk(ts: seq<Target>)
    requires TargetsOk(ts)
    ensures LexemesOk(TargetLexemes(ts))
  {
    hide IsWord, LexemeOk;
    if ts != [] {
      ModesOk(ts[0]);
      TargetLexemesOk(ts[1..]);
    }
  }

  lemma {:induction false} PieceLexemesOk(ps: seq<Piece>)
    requires PiecesOk(ps)
    ensures LexemesOk(PieceLexemes(ps))
  {
    hide IsWord, LexemeOk;
    if ps != [] {
      assert PieceOk(ps[0]);
      ModesOk(if ps[0].To? then ps[0].target else Target(ps[0].word, Read));
      PieceLexemesOk(ps[1..]);
    }
  }

  lemma SymbolsOk()
    ensures forall c :: c in SYMBOLS ==> LexemeOk(Symbol(c))
  {
  }

  lemma {:induction false} ProperLexemes(s: Line)
    requires Proper(s)
    ensures LexemesOk(Lexemes(s))
  {
    hide LexemeOk, TargetLexemes, PieceLexemes, TargetsOk, PiecesOk, Symbol;
    SymbolsOk();
    match s
    case Simple(ps) => PieceLexemesOk(ps);
    case Paren(l, ts) => ProperLexemes(l); TargetLexemesOk(ts);
    case Piped(l, r) => ProperLexemes(l); ProperLexemes(r);
    case Behind(l) => ProperLexemes(l);
    case Then(l, r) => ProperLexemes(l); ProperLexemes(r);
  }

  lemma {:induction false} PrintHasNoNul(ls: seq<Lexeme>, gaps: seq<string>)
    requires LexemesOk(ls) && GapsOk(ls, gaps)
    ensures NoNul(Print(ls, gaps))
    decreases |ls|
  {
    hide LexemeOk, Blank, Touching;
    if ls != [] {
      GapsTail(ls, gaps);
      PrintHasNoNul(ls[1..], gaps[1..]);
      LexemeHasNoNul(ls[0]);
      BlankHasNoNul(gaps[0]);
    }
  }

  lemma LexemeHasNoNul(l: Lexeme)
    requires LexemeOk(l)
    ensures NoNul(l.text)
  {
  }

  lemma BlankHasNoNul(gap: string)
    requires Blank(gap)
    ensures NoNul(gap)
  {
  }

  /** Every text of a line, however it is laid out, is parsed to the tree of the line, and all of it is used. */
  lemma LineIsAccepted(text: string, s: Line)
    requires Proper(s) && IsTextOf(text, s)
    ensures NoNul(text) && Accepts(text, Meaning(s))
  {
    hide LexemeOk, Blank, Touching, Print, Lexemes, Proper, Meaning, LineOf;
    var lead, gaps :| LaidOut(text, Lexemes(s), lead, gaps);
    ProperLexemes(s);
    PrintHasNoNul(Lexemes(s), gaps);
    BlankHasNoNul(lead);
    LexPrinted("", lead, Lexemes(s), gaps);
    assert "" + lead + Print(Lexemes(s), gaps) == text;
    LineRead(text, s, Lex(text, 0));
  }

  lemma {:induction false} LexemesAre(text: string, toks: seq<Token>, ls: seq<Lexeme>)
    requires Starts(text, toks, ls) && |ls| == |toks|
    ensures LexemesOf(text, toks) == ls
    decreases |toks|
  {
    if toks != [] {
      assert Same(text, toks[0], ls[0]);
      LexemesAre(text, toks[1..], ls[1..]);
    }
  }

  /** Every text that is accepted is the text of a line, with the tree of the line. */
  lemma AcceptedIsLine(text: string) returns (s: Line)
    requires NoNul(text) && CmdOf(Lex(text, 0)).Ok?
    ensures Proper(s) && IsTextOf(text, s) && Accepts(text, Meaning(s))
  {
    hide LexemeOk, GapsOk, Print, Proper, Lexemes, Meaning, Lex, LineOf, TokensGood;
    var toks := Lex(text, 0);
    LexGood(text, 0);
    s := LineSource(text, toks);
    var lead, gaps := LexLayout(text, 0);
    StartsLength(text, toks, Lexemes(s));
    LexemesAre(text, toks, Lexemes(s));
    assert text[0..] == text;
    assert LaidOut(text, Lexemes(s), lead, gaps);
  }

  /** The parser and the grammar agree. */
  lemma AcceptsIff(text: string, t: Tree)
    requires NoNul(text)
    ensures Accepts(text, t) <==> exists s :: Proper(s) && Meaning(s) == t && IsTextOf(text, s)
  {
    hide Proper, Meaning, IsTextOf;
    if Accepts(text, t) {
      var s := AcceptedIsLine(text);
    }
    if s :| Proper(s) && Meaning(s) == t && IsTextOf(text, s) {
      LineIsAccepted(text, s);
    }
  }

  // ----- every tree has a text

  /** At most MAXARGS - 1 words in each command. */
  predicate WellFormed(t: Tree) {
    match t
    case Exec(argv) => |argv| < MAXARGS && forall i :: 0 <= i < |argv| ==> IsWord(argv[i])
    case Redir(c, file, mode) => WellFormed(c) && IsWord(file)
    case Pipe(l, r) => WellFormed(l) && WellFormed(r)
    case List(l, r) => WellFormed(l) && WellFormed(r)
    case Back(c) => WellFormed(c)
  }

  /** The command inside a run of redirections, and the redirections, innermost first. */
  function Base(t: Tree): (b: Tree)
    ensures !b.Redir? && (b == t || b < t) && (t.Redir? ==> b < t) && (!t.Redir? ==> b == t)
  {
    if t.Redir? then Base(t.cmd) else t
  }

  function Targets(t: Tree): seq<Target> {
    if t.Redir? then Targets(t.cmd) + [Target(t.file, t.mode)] else []
  }

  lemma {:induction false} WrappedIs(t: Tree)
    ensures Wrapped(Base(t), Targets(t)) == t
  {
    if t.Redir? {
      WrappedIs(t.cmd);
      WrappedSnoc(Base(t), Targets(t.cmd), Target(t.file, t.mode));
    }
  }

  lemma {:induction false} PartsWellFormed(t: Tree)
    requires WellFormed(t)
    ensures WellFormed(Base(t)) && TargetsOk(Targets(t))
  {
    if t.Redir? {
      PartsWellFormed(t.cmd);
    }
  }

  function Args(argv: seq<string>): seq<Piece> {
    seq(|argv|, i requires 0 <= i < |argv| => Arg(argv[i]))
  }

  function Tos(ts: seq<Target>): seq<Piece> {
    seq(|ts|, i requires 0 <= i < |ts| => To(ts[i]))
  }

  /** 0 for what parseexec reads, 1 for parsepipe, 2 for parseline up to the ampersands, 3 for all of it. */
  function LevelOf(t: Tree): nat {
    match t
    case Exec(_) => 0
    case Redir(_, _, _) => 0
    case Pipe(_, _) => 1
    case Back(_) => 2
    case List(_, _) => 3
  }

  /** The line for a tree where one of this level may stand; parentheses only where the tree is of a higher one. */
  function Plain(t: Tree, level: nat): Line
    requires level <= 3
    decreases t, if LevelOf(t) <= level then 0 else 1
  {
    if LevelOf(t) > level then Paren(Plain(t, 3), [])
    else
      match t
      case Exec(argv) => Simple(Args(argv))
      case Redir(_, _, _) =>
        if Base(t).Exec? then Simple(Args(Base(t).argv) + Tos(Targets(t))) else Paren(Plain(Base(t), 3), Targets(t))
      case Pipe(l, r) => Piped(Plain(l, 0), Plain(r, 1))
      case Back(c) => Behind(Plain(c, 2))
      case List(l, r) => Then(Plain(l, 2), Plain(r, 3))
  }

  predicate FitsLevel(s: Line, level: nat) {
    if level == 0 then IsUnit(s) else if level == 1 then IsPipe(s) else if level == 2 then IsBack(s) else true
  }

  lemma {:induction false} ArgsThenTos(argv: seq<string>, ts: seq<Target>)
    ensures WordsIn(Args(argv) + Tos(ts)) == argv && TargetsIn(Args(argv) + Tos(ts)) == ts
    decreases |argv| + |ts|
  {
    var ps := Args(argv) + Tos(ts);
    if argv != [] {
      assert ps[1..] == Args(argv[1..]) + Tos(ts);
      ArgsThenTos(argv[1..], ts);
    } else if ts != [] {
      assert ps[1..] == Args(argv) + Tos(ts[1..]);
      ArgsThenTos(argv, ts[1..]);
    }
  }

  lemma SimpleOk(argv: seq<string>, ts: seq<Target>)
    requires WellFormed(Exec(argv)) && TargetsOk(ts)
    ensures var s := Simple(Args(argv) + Tos(ts)); Proper(s) && Meaning(s) == Wrapped(Exec(argv), ts)
  {
    hide IsWord, Wrapped;
    ArgsThenTos(argv, ts);
  }

  lemma {:induction false} PlainOk(t: Tree, level: nat)
    requires WellFormed(t) && level <= 3
    ensures Proper(Plain(t, level)) && FitsLevel(Plain(t, level), level) && Meaning(Plain(t, level)) == t
    decreases t, if LevelOf(t) <= level then 0 else 1
  {
    hide IsWord, Wrapped;
    WrappedNone(t);
    if LevelOf(t) > level {
      PlainOk(t, 3);
    } else {
      match t
      case Exec(argv) =>
        SimpleOk(argv, []);
        WrappedNone(Exec(argv));
        assert Args(argv) + Tos([]) == Args(argv);
      case Redir(_, _, _) =>
        PartsWellFormed(t);
        WrappedIs(t);
        if Base(t).Exec? {
          SimpleOk(Base(t).argv, Targets(t));
        } else {
          PlainOk(Base(t), 3);
        }
      case Pipe(l, r) => PlainOk(l, 0); PlainOk(r, 1);
      case Back(c) => PlainOk(c, 2);
      case List(l, r) => PlainOk(l, 2); PlainOk(r, 3);
    }
  }

  lemma WrappedNone(t: Tree)
    ensures Wrapped(t, []) == t
  {
  }

  /** The text of a tree, with a space behind each lexeme. */
  function PlainText(t: Tree): string {
    var ls := Lexemes(Plain(t, 3));
    Print(ls, Spaces(|ls|))
  }

  function Spaces(n: nat): seq<string> {
    seq(n, _ => " ")
  }

  lemma SpacesOk(ls: seq<Lexeme>)
    ensures LaidOut(Print(ls, Spaces(|ls|)), ls, "", Spaces(|ls|))
  {
    var text := Print(ls, Spaces(|ls|));
    assert "" + text == text;
  }

  /**
   Parsing the text of a well-formed tree, whatever its layout, uses all of it and gives back the tree; and there is
   such a text.
   */
  lemma RoundTrip(t: Tree, text: string)
    requires WellFormed(t)
    ensures IsTextOf(text, Plain(t, 3)) ==> NoNul(text) && Accepts(text, t)
    ensures IsTextOf(PlainText(t), Plain(t, 3)) && NoNul(PlainText(t)) && Accepts(PlainText(t), t)
  {
    var s := Plain(t, 3);
    PlainOk(t, 3);
    SpacesOk(Lexemes(s));
    hide Accepts, Print, Plain, Lexemes, LaidOut, WellFormed;
    LineIsAccepted(PlainText(t), s);
    if IsTextOf(text, s) {
      LineIsAccepted(text, s);
    }
  }

  lemma {:induction false} WrappedWellFormed(t: Tree, ts: seq<Target>)
    requires WellFormed(t) && TargetsOk(ts)
    ensures WellFormed(Wrapped(t, ts))
    decreases |ts|
  {
    hide IsWord;
    if ts != [] {
      WrappedWellFormed(Redir(t, ts[0].file, ts[0].mode), ts[1..]);
    }
  }

  lemma {:induction false} PiecesWellFormed(ps: seq<Piece>)
    requires PiecesOk(ps)
    ensures TargetsOk(TargetsIn(ps)) && forall i :: 0 <= i < |WordsIn(ps)| ==> IsWord(WordsIn(ps)[i])
  {
    hide IsWord;
    if ps != [] {
      assert PieceOk(ps[0]);
      PiecesWellFormed(ps[1..]);
    }
  }

  lemma {:induction false} MeaningWellFormed(s: Line)
    requires Proper(s)
    ensures WellFormed(Meaning(s))
  {
    hide IsWord, Wrapped;
    match s
    case Simple(ps) =>
      PiecesWellFormed(ps);
      WrappedWellFormed(Exec(WordsIn(ps)), TargetsIn(ps));
    case Paren(l, ts) =>
      MeaningWellFormed(l);
      WrappedWellFormed(Meaning(l), ts);
    case Piped(l, r) => MeaningWellFormed(l); MeaningWellFormed(r);
    case Behind(l) => MeaningWellFormed(l);
    case Then(l, r) => MeaningWellFormed(l); MeaningWellFormed(r);
  }

  /**
   The trees that the parser makes are the well-formed ones: whatever text it accepts, printing the tree and parsing
   again gives the same tree.
   */
  lemma AcceptedIsWellFormed(text: string, t: Tree)
    requires NoNul(text) && Accepts(text, t)
    ensures WellFormed(t) && Accepts(PlainText(t), t)
  {
    hide Proper, Meaning, WellFormed, PlainText, LineOf, Lex, IsTextOf;
    var s := AcceptedIsLine(text);
    MeaningWellFormed(s);
    RoundTrip(t, text);
  }
}
