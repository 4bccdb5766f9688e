/**
 The parser of user/sh.c: gettoken and peek on a cursor, recursive descent, and
 nulterminate. A token's text is named by its start and end, as q and eq do; the
 specification parses the sequence of tokens that remain from the cursor.
 */
module Shell {
  const WHITESPACE: string := " \t\r\n\U{000B}"
  const SYMBOLS: string := "<|>&;()"
  const NUL: char := '\0'
  const MAXARGS: nat := 10

  /** kind is gettoken's result; '+' is >> and 'a' is a word. */
  datatype Token = Token(kind: char, q: nat, eq: nat)

  datatype Mode = Read | Write | Append

  datatype Cmd<T> =
    | Exec(argv: seq<T>)
    | Redir(cmd: Cmd<T>, file: T, mode: Mode)
    | Pipe(left: Cmd<T>, right: Cmd<T>)
    | List(left: Cmd<T>, right: Cmd<T>)
    | Back(cmd: Cmd<T>)

  /** Where a word is in the buffer: argv[i] and eargv[i], or file and efile. */
  datatype Span = Span(q: nat, eq: nat)

  datatype Error = MissingFile | MissingParen | Syntax | TooManyArgs | Leftovers
  datatype Result<T> = Ok(value: T) | Fail(error: Error)

  predicate IsSpace(c: char) {
    c in WHITESPACE
  }

  predicate IsSymbol(c: char) {
    c in SYMBOLS
  }

  predicate IsWordChar(c: char) {
    !IsSpace(c) && !IsSymbol(c)
  }

  // ----- the tokens that remain

  function SkipSpace(text: string, pos: nat): (p: nat)
    requires pos <= |text|
    ensures pos <= p <= |text| && (p < |text| ==> !IsSpace(text[p]))
    decreases |text| - pos
  {
    if pos < |text| && IsSpace(text[pos]) then SkipSpace(text, pos + 1) else pos
  }

  function WordEnd(text: string, pos: nat): (p: nat)
    requires pos <= |text|
    ensures pos <= p <= |text| && (p < |text| ==> !IsWordChar(text[p]))
    ensures pos < |text| && IsWordChar(text[pos]) ==> p > pos
    decreases |text| - pos
  {
    if pos < |text| && IsWordChar(text[pos]) then WordEnd(text, pos + 1) else pos
  }

  lemma {:induction false} WordChars(text: string, pos: nat)
    requires pos <= |text|
    ensures forall i :: pos <= i < WordEnd(text, pos) ==> IsWordChar(text[i])
    decreases |text| - pos
  {
    hide IsWordChar;
    if pos < |text| && IsWordChar(text[pos]) {
      WordChars(text, pos + 1);
    }
  }

  function TokenAt(text: string, p: nat): (t: Token)
    requires p < |text| && !IsSpace(text[p])
    ensures t.q == p < t.eq <= |text|
  {
    if text[p] == '>' then
      if p + 1 < |text| && text[p + 1] == '>' then Token('+', p, p + 2) else Token('>', p, p + 1)
    else if IsSymbol(text[p]) then Token(text[p], p, p + 1)
    else Token('a', p, WordEnd(text, p))
  }

  function Lex(text: string, pos: nat): seq<Token>
    requires pos <= |text|
    decreases |text| - pos
  {
    var p := SkipSpace(text, pos);
    if p == |text| then [] else [TokenAt(text, p)] + Lex(text, TokenAt(text, p).eq)
  }

  lemma {:induction false} SkipTwice(text: string, pos: nat)
    requires pos <= |text|
    ensures SkipSpace(text, SkipSpace(text, pos)) == SkipSpace(text, pos)
    ensures Lex(text, SkipSpace(text, pos)) == Lex(text, pos)
  {
  }

  /** The first token, and what follows it. */
  lemma NextToken(text: string, pos: nat)
    requires pos <= |text|
    ensures var p := SkipSpace(text, pos);
            && (p == |text| ==> Lex(text, pos) == [])
            && (p < |text| ==> Lex(text, pos) != [] && Lex(text, pos)[0] == TokenAt(text, p)
                               && Lex(text, pos)[1..] == Lex(text, TokenAt(text, p).eq))
  {
  }

  /** The character that a token of this kind starts with. (For a word any letter will do.) */
  function FirstChar(kind: char): char {
    if kind == '+' then '>' else kind
  }

  /** What gettoken returns at the cursor. */
  function Head(toks: seq<Token>): char {
    if toks == [] then NUL else toks[0].kind
  }

  // ----- the specification of the parser

  function Word(t: Token): Span {
    Span(t.q, t.eq)
  }

  function ModeOf(kind: char): Mode {
    if kind == '<' then Read else if kind == '>' then Write else Append
  }

  predicate IsRedir(kind: char) {
    kind == '<' || kind == '>' || kind == '+'
  }

  datatype Parsed = Parsed(cmd: Cmd<Span>, rest: seq<Token>)

  function RedirsOf(cmd: Cmd<Span>, toks: seq<Token>): (r: Result<Parsed>)
    ensures r.Ok? ==> |r.value.rest| <= |toks| && !IsRedir(Head(r.value.rest))
    decreases |toks|
  {
    if !IsRedir(Head(toks)) then Ok(Parsed(cmd, toks))
    else if Head(toks[1..]) != 'a' then Fail(MissingFile)
    else RedirsOf(Redir(cmd, Word(toks[1]), ModeOf(toks[0].kind)), toks[2..])
  }

  predicate EndsExec(kind: char) {
    kind == '|' || kind == ')' || kind == '&' || kind == ';'
  }

  /** The redirections read so far, around the command whose words are still being collected. */
  function WithArg(cmd: Cmd<Span>, w: Span): Cmd<Span> {
    match cmd
    case Exec(argv) => Exec(argv + [w])
    case Redir(c, file, mode) => Redir(WithArg(c, w), file, mode)
    case _ => cmd
  }

  /** parseexec's loop, with argc words already collected in cmd. */
  function ArgsOf(cmd: Cmd<Span>, argc: nat, toks: seq<Token>): (r: Result<Parsed>)
    ensures r.Ok? ==> |r.value.rest| <= |toks|
    decreases |toks|
  {
    if EndsExec(Head(toks)) || toks == [] then Ok(Parsed(cmd, toks))
    else if toks[0].kind != 'a' then Fail(Syntax)
    else if argc + 1 >= MAXARGS then Fail(TooManyArgs)
    else
      match RedirsOf(WithArg(cmd, Word(toks[0])), toks[1..])
      case Fail(e) => Fail(e)
      case Ok(p) => ArgsOf(p.cmd, argc + 1, p.rest)
  }

  function ExecOf(toks: seq<Token>): (r: Result<Parsed>)
    ensures r.Ok? ==> |r.value.rest| <= |toks|
    decreases |toks|, 1
  {
    if Head(toks) == '(' then BlockOf(toks)
    else
      match RedirsOf(Exec([]), toks)
      case Fail(e) => Fail(e)
      case Ok(p) => ArgsOf(p.cmd, 0, p.rest)
  }

  function BlockOf(toks: seq<Token>): (r: Result<Parsed>)
    requires Head(toks) == '('
    ensures r.Ok? ==> |r.value.rest| <= |toks|
    decreases |toks|, 0
  {
    match LineOf(toks[1..])
    case Fail(e) => Fail(e)
    case Ok(p) =>
      if Head(p.rest) != ')' then Fail(MissingParen)
      else RedirsOf(p.cmd, p.rest[1..])
  }

  function PipeOf(toks: seq<Token>): (r: Result<Parsed>)
    ensures r.Ok? ==> |r.value.rest| <= |toks|
    decreases |toks|, 2
  {
    match ExecOf(toks)
    case Fail(e) => Fail(e)
    case Ok(p) =>
      if Head(p.rest) != '|' then Ok(p)
      else
        match PipeOf(p.rest[1..])
        case Fail(e) => Fail(e)
        case Ok(p2) => Ok(Parsed(Pipe(p.cmd, p2.cmd), p2.rest))
  }

  function BackOf(cmd: Cmd<Span>, toks: seq<Token>): (p: Parsed)
    ensures |p.rest| <= |toks| && Head(p.rest) != '&'
    decreases |toks|
  {
    if Head(toks) == '&' then BackOf(Back(cmd), toks[1..]) else Parsed(cmd, toks)
  }

  function LineOf(toks: seq<Token>): (r: Result<Parsed>)
    ensures r.Ok? ==> |r.value.rest| <= |toks|
    decreases |toks|, 3
  {
    match PipeOf(toks)
    case Fail(e) => Fail(e)
    case Ok(p0) =>
      var p := BackOf(p0.cmd, p0.rest);
      if Head(p.rest) != ';' then Ok(p)
      else
        match LineOf(p.rest[1..])
        case Fail(e) => Fail(e)
        case Ok(p2) => Ok(Parsed(List(p.cmd, p2.cmd), p2.rest))
  }

  function CmdOf(toks: seq<Token>): Result<Cmd<Span>> {
    match LineOf(toks)
    case Fail(e) => Fail(e)
    case Ok(p) => if p.rest != [] then Fail(Leftovers) else Ok(p.cmd)
  }

  // ----- the parser

  /** The result of a parsing function and the tokens it leaves are those of the specification. */
  ghost predicate Agrees(r: Result<Cmd<Span>>, rest: seq<Token>, want: Result<Parsed>) {
    match want
    case Fail(e) => r == Fail(e)
    case Ok(p) => r == Ok(p.cmd) && rest == p.rest
  }

  class Parser {
    const text: string
    var pos: nat

    constructor (text: string)
      ensures this.text == text && pos == 0
    {
      this.text, pos := text, 0;
    }

    ghost predicate Valid()
      reads this
    {
      pos <= |text| && forall i :: 0 <= i < |text| ==> text[i] != NUL
    }

    ghost function Toks(): seq<Token>
      requires Valid()
      reads this
    {
      Lex(text, pos)
    }

    /** *s, which is 0 at the end */
    function CharAt(i: nat): char {
      if i < |text| then text[i] else NUL
    }

    method Skip(from: nat) returns (s: nat)
      requires from <= |text|
      ensures s == SkipSpace(text, from)
    {
      s := from;
      while s < |text| && IsSpace(text[s])
        invariant from <= s <= |text| && SkipSpace(text, s) == SkipSpace(text, from)
      {
        s := s + 1;
      }
    }

    method SkipWord(from: nat) returns (s: nat)
      requires from <= |text|
      ensures s == WordEnd(text, from)
    {
      hide IsSpace, IsSymbol;
      s := from;
      while s < |text| && !IsSpace(text[s]) && !IsSymbol(text[s])
        invariant from <= s <= |text| && WordEnd(text, s) == WordEnd(text, from)
      {
        s := s + 1;
      }
    }

    /** gettoken: the next token's kind and place; the cursor moves past it and the space behind it. */
    method GetToken() returns (kind: char, q: nat, eq: nat)
      requires Valid()
      modifies this
      ensures Valid() && kind == Head(old(Toks())) && q <= eq <= |text|
      ensures (kind == NUL <==> old(Toks()) == []) && (kind == NUL ==> Toks() == [])
      ensures old(Toks()) != [] ==> Toks() == old(Toks())[1..] && Token(kind, q, eq) == old(Toks())[0]
    {
      hide Lex, SkipSpace, WordEnd, IsSpace;
      NextToken(text, pos);
      var s := Skip(pos);
      q := s;
      kind := CharAt(s);
      if kind == NUL {
      } else if kind == '|' || kind == '(' || kind == ')' || kind == ';' || kind == '&' || kind == '<' {
        s := s + 1;
      } else if kind == '>' {
        s := s + 1;
        if CharAt(s) == '>' {
          kind := '+';
          s := s + 1;
        }
      } else {
        kind := 'a';
        s := SkipWord(s);
      }
      eq := s;
      NextToken(text, s);
      SkipTwice(text, s);
      pos := Skip(s);
    }

    /** peek: whether the next character is one of chars; only space is passed. */
    method Peek(chars: string) returns (b: bool)
      requires Valid() && forall c :: c in chars ==> IsSymbol(c)
      modifies this
      ensures Valid() && Toks() == old(Toks())
      ensures b <==> FirstChar(Head(Toks())) in chars
      ensures pos == |text| <==> Toks() == []
    {
      hide Lex, SkipSpace;
      NextToken(text, pos);
      SkipTwice(text, pos);
      pos := Skip(pos);
      b := CharAt(pos) != NUL && CharAt(pos) in chars;
    }

    method ParseRedirs(cmd: Cmd<Span>) returns (r: Result<Cmd<Span>>)
      requires Valid()
      modifies this
      ensures Valid() && Agrees(r, Toks(), RedirsOf(cmd, old(Toks())))
    {
      var c := cmd;
      var more := Peek("<>");
      while more
        invariant Valid() && RedirsOf(c, Toks()) == RedirsOf(cmd, old(Toks())) && (more <==> IsRedir(Head(Toks())))
        decreases |Toks()|
      {
        var tok, q0, eq0 := GetToken();
        var kind, q, eq := GetToken();
        if kind != 'a' {
          return Fail(MissingFile);
        }
        c := Redir(c, Span(q, eq), ModeOf(tok));
        more := Peek("<>");
      }
      r := Ok(c);
    }

    method ParseExec() returns (r: Result<Cmd<Span>>)
      requires Valid()
      modifies this
      ensures Valid() && Agrees(r, Toks(), ExecOf(old(Toks())))
      decreases |Toks()|, 1
    {
      var open := Peek("(");
      if open {
        r := ParseBlock();
        return;
      }
      r := ParseRedirs(Exec([]));
      if r.Ok? {
        r := ParseArgs(r.value);
      }
    }

    /** parseexec's loop. */
    method ParseArgs(cmd: Cmd<Span>) returns (r: Result<Cmd<Span>>)
      requires Valid()
      modifies this
      ensures Valid() && Agrees(r, Toks(), ArgsOf(cmd, 0, old(Toks())))
    {
      hide RedirsOf, Lex;
      var argc := 0;
      var ret := cmd;
      var stop := Peek("|)&;");
      while !stop
        invariant Valid() && ArgsOf(ret, argc, Toks()) == ArgsOf(cmd, 0, old(Toks()))
                  && (stop <==> EndsExec(Head(Toks())))
        decreases |Toks()|
      {
        var tok, q, eq := GetToken();
        if tok == NUL {
          return Ok(ret);
        }
        if tok != 'a' {
          return Fail(Syntax);
        }
        argc := argc + 1;
        if argc >= MAXARGS {
          return Fail(TooManyArgs);
        }
        r := ParseRedirs(WithArg(ret, Span(q, eq)));
        if r.Fail? {
          return;
        }
        ret := r.value;
        stop := Peek("|)&;");
      }
      r := Ok(ret);
    }

    method ParseBlock() returns (r: Result<Cmd<Span>>)
      requires Valid() && Head(Toks()) == '('
      modifies this
      ensures Valid() && Agrees(r, Toks(), BlockOf(old(Toks())))
      decreases |Toks()|, 0
    {
      var tok, q, eq := GetToken();
      r := ParseLine();
      if r.Fail? {
        return;
      }
      var close := Peek(")");
      if !close {
        return Fail(MissingParen);
      }
      tok, q, eq := GetToken();
      r := ParseRedirs(r.value);
    }

    method ParsePipe() returns (r: Result<Cmd<Span>>)
      requires Valid()
      modifies this
      ensures Valid() && Agrees(r, Toks(), PipeOf(old(Toks())))
      decreases |Toks()|, 2
    {
      r := ParseExec();
      if r.Fail? {
        return;
      }
      var bar := Peek("|");
      if bar {
        var tok, q, eq := GetToken();
        var right := ParsePipe();
        if right.Fail? {
          return right;
        }
        r := Ok(Pipe(r.value, right.value));
      }
    }

    method ParseLine() returns (r: Result<Cmd<Span>>)
      requires Valid()
      modifies this
      ensures Valid() && Agrees(r, Toks(), LineOf(old(Toks())))
      decreases |Toks()|, 3
    {
      r := ParsePipe();
      if r.Fail? {
        return;
      }
      var cmd := r.value;
      ghost var first := Toks();
      var amp := Peek("&");
      while amp
        invariant Valid() && BackOf(cmd, Toks()) == BackOf(r.value, first) && (amp <==> Head(Toks()) == '&')
        invariant |Toks()| <= |first|
        decreases |Toks()|
      {
        var tok, q, eq := GetToken();
        cmd := Back(cmd);
        amp := Peek("&");
      }
      var semi := Peek(";");
      if semi {
        var tok, q, eq := GetToken();
        var right := ParseLine();
        if right.Fail? {
          return right;
        }
        return Ok(List(cmd, right.value));
      }
      r := Ok(cmd);
    }

    /** parsecmd, before nulterminate: the whole text must be used. */
    method ParseCmd() returns (r: Result<Cmd<Span>>)
      requires Valid() && pos == 0
      modifies this
      ensures r == CmdOf(Lex(text, 0))
    {
      r := ParseLine();
      if r.Fail? {
        return;
      }
      var b := Peek("");
      if pos != |text| {
        return Fail(Leftovers);
      }
    }
  }

  // ----- nulterminate

  /** The words of a command: what nulterminate ends with a NUL. */
  function Spans(cmd: Cmd<Span>): seq<Span> {
    match cmd
    case Exec(argv) => argv
    case Redir(c, file, mode) => Spans(c) + [file]
    case Pipe(l, r) => Spans(l) + Spans(r)
    case List(l, r) => Spans(l) + Spans(r)
    case Back(c) => Spans(c)
  }

  predicate EndsAt(spans: seq<Span>, i: nat) {
    exists k :: 0 <= k < |spans| && spans[k].eq == i
  }

  /** The buffer with a NUL where each word ends. */
  ghost predicate Terminated(buf: string, spans: seq<Span>, buf': string) {
    |buf'| == |buf| && forall i :: 0 <= i < |buf| ==> buf'[i] == if EndsAt(spans, i) then NUL else buf[i]
  }

  method NulTerminate(buf: array<char>, cmd: Cmd<Span>)
    requires EndBelow(Spans(cmd), buf.Length)
    modifies buf
    ensures Terminated(old(buf[..]), Spans(cmd), buf[..])
    decreases cmd
  {
    match cmd
    case Exec(argv) =>
      for i := 0 to |argv|
        invariant Terminated(old(buf[..]), argv[..i], buf[..])
      {
        ghost var was := buf[..];
        buf[argv[i].eq] := NUL;
        OneMoreEnd(old(buf[..]), argv[..i], was, argv[i], buf[..]);
        assert argv[..i + 1] == argv[..i] + [argv[i]];
      }
      assert argv[..|argv|] == argv;
    case Redir(c, file, mode) =>
      assert Spans(cmd) == Spans(c) + [file];
      SpansPart(Spans(c), [file], buf.Length);
      assert [file][0].eq < buf.Length;
      NulTerminate(buf, c);
      ghost var was := buf[..];
      buf[file.eq] := NUL;
      OneMoreEnd(old(buf[..]), Spans(c), was, file, buf[..]);
    case Pipe(l, r) =>
      assert Spans(cmd) == Spans(l) + Spans(r);
      SpansPart(Spans(l), Spans(r), buf.Length);
      NulTerminate(buf, l);
      ghost var was := buf[..];
      NulTerminate(buf, r);
      BothEnds(old(buf[..]), Spans(l), was, Spans(r), buf[..]);
    case List(l, r) =>
      assert Spans(cmd) == Spans(l) + Spans(r);
      SpansPart(Spans(l), Spans(r), buf.Length);
      NulTerminate(buf, l);
      ghost var was := buf[..];
      NulTerminate(buf, r);
      BothEnds(old(buf[..]), Spans(l), was, Spans(r), buf[..]);
    case Back(c) =>
      assert Spans(cmd) == Spans(c);
      NulTerminate(buf, c);
  }

  predicate EndBelow(spans: seq<Span>, n: nat) {
    forall k :: 0 <= k < |spans| ==> spans[k].eq < n
  }

  lemma SpansPart(a: seq<Span>, b: seq<Span>, n: nat)
    requires EndBelow(a + b, n)
    ensures EndBelow(a, n) && EndBelow(b, n)
  {
    forall k | 0 <= k < |a|
      ensures a[k].eq < n
    {
      assert (a + b)[k] == a[k];
    }
    forall k | 0 <= k < |b|
      ensures b[k].eq < n
    {
      assert (a + b)[|a| + k] == b[k];
    }
  }

  lemma EndsAtConcat(a: seq<Span>, b: seq<Span>, i: nat)
    ensures EndsAt(a + b, i) <==> EndsAt(a, i) || EndsAt(b, i)
  {
    if EndsAt(a, i) {
      var k :| 0 <= k < |a| && a[k].eq == i;
      assert (a + b)[k].eq == i;
    }
    if EndsAt(b, i) {
      var k :| 0 <= k < |b| && b[k].eq == i;
      assert (a + b)[|a| + k].eq == i;
    }
  }

  lemma BothEnds(buf: string, a: seq<Span>, buf1: string, b: seq<Span>, buf2: string)
    requires Terminated(buf, a, buf1) && Terminated(buf1, b, buf2)
    ensures Terminated(buf, a + b, buf2)
  {
    forall i | 0 <= i < |buf|
      ensures buf2[i] == if EndsAt(a + b, i) then NUL else buf[i]
    {
      EndsAtConcat(a, b, i);
    }
  }

  lemma OneMoreEnd(buf: string, a: seq<Span>, buf1: string, w: Span, buf2: string)
    requires Terminated(buf, a, buf1) && w.eq < |buf1| && buf2 == buf1[w.eq := NUL]
    ensures Terminated(buf, a + [w], buf2)
  {
    forall i | 0 <= i < |buf1|
      ensures buf2[i] == if EndsAt([w], i) then NUL else buf1[i]
    {
      assert [w][0].eq == w.eq;
    }
    BothEnds(buf, a, buf1, [w], buf2);
  }

  // ----- where the words come from

  /** The span is a whole word of the text. */
  predicate IsWordOf(text: string, w: Span) {
    && w.q < w.eq <= |text| && (forall i :: w.q <= i < w.eq ==> IsWordChar(text[i]))
    && (w.eq < |text| ==> !IsWordChar(text[w.eq]))
  }

  /** Word tokens among toks are whole words of the text. */
  ghost predicate TokensOk(text: string, toks: seq<Token>) {
    forall k :: 0 <= k < |toks| && toks[k].kind == 'a' ==> IsWordOf(text, Word(toks[k]))
  }

  lemma {:induction false} LexOk(text: string, pos: nat)
    requires pos <= |text|
    ensures TokensOk(text, Lex(text, pos))
    decreases |text| - pos
  {
    var p := SkipSpace(text, pos);
    if p < |text| {
      LexOk(text, TokenAt(text, p).eq);
      TokenAtOk(text, p);
      hide TokenAt, IsWordOf;
    }
  }

  lemma TokenAtOk(text: string, p: nat)
    requires p < |text| && !IsSpace(text[p])
    ensures TokenAt(text, p).kind == 'a' ==> IsWordOf(text, Word(TokenAt(text, p)))
  {
    WordChars(text, p);
  }

  ghost predicate AllWords(text: string, spans: seq<Span>) {
    forall k :: 0 <= k < |spans| ==> IsWordOf(text, spans[k])
  }

  ghost predicate WordsOk(text: string, cmd: Cmd<Span>) {
    AllWords(text, Spans(cmd))
  }

  ghost predicate ParsedOk(text: string, r: Result<Parsed>) {
    r.Ok? ==> WordsOk(text, r.value.cmd) && TokensOk(text, r.value.rest)
  }

  lemma {:induction false} RedirsWords(text: string, cmd: Cmd<Span>, toks: seq<Token>)
    requires TokensOk(text, toks) && WordsOk(text, cmd)
    ensures ParsedOk(text, RedirsOf(cmd, toks))
    decreases |toks|
  {
    hide IsWordOf;
    if IsRedir(Head(toks)) && Head(toks[1..]) == 'a' {
      var c := Redir(cmd, Word(toks[1]), ModeOf(toks[0].kind));
      assert Spans(c) == Spans(cmd) + [Word(toks[1])];
      RedirsWords(text, c, toks[2..]);
    }
  }

  lemma {:induction false} WithArgWords(text: string, cmd: Cmd<Span>, w: Span)
    requires WordsOk(text, cmd) && IsWordOf(text, w)
    ensures WordsOk(text, WithArg(cmd, w))
    decreases cmd
  {
    hide IsWordOf;
    match cmd
    case Exec(argv) =>
    case Redir(c, file, mode) =>
      assert Spans(cmd) == Spans(c) + [file];
      WordsParts(text, Spans(c), [file]);
      WithArgWords(text, c, w);
      assert Spans(WithArg(cmd, w)) == Spans(WithArg(c, w)) + [file];
      WordsJoin(text, Spans(WithArg(c, w)), [file]);
    case _ =>
  }

  lemma WordsParts(text: string, a: seq<Span>, b: seq<Span>)
    requires AllWords(text, a + b)
    ensures AllWords(text, a) && AllWords(text, b)
  {
    hide IsWordOf;
    forall k | 0 <= k < |a|
      ensures IsWordOf(text, a[k])
    {
      assert (a + b)[k] == a[k];
    }
    forall k | 0 <= k < |b|
      ensures IsWordOf(text, b[k])
    {
      assert (a + b)[|a| + k] == b[k];
    }
  }

  lemma WordsJoin(text: string, a: seq<Span>, b: seq<Span>)
    requires AllWords(text, a) && AllWords(text, b)
    ensures AllWords(text, a + b)
  {
    hide IsWordOf;
  }

  lemma {:induction false} ArgsWords(text: string, cmd: Cmd<Span>, argc: nat, toks: seq<Token>)
    requires TokensOk(text, toks) && WordsOk(text, cmd)
    ensures ParsedOk(text, ArgsOf(cmd, argc, toks))
    decreases |toks|
  {
    hide IsWordOf, WordsOk, RedirsOf;
    if !(EndsExec(Head(toks)) || toks == []) && toks[0].kind == 'a' && argc + 1 < MAXARGS {
      WithArgWords(text, cmd, Word(toks[0]));
      RedirsWords(text, WithArg(cmd, Word(toks[0])), toks[1..]);
      var r := RedirsOf(WithArg(cmd, Word(toks[0])), toks[1..]);
      if r.Ok? {
        ArgsWords(text, r.value.cmd, argc + 1, r.value.rest);
      }
    }
  }

  lemma {:induction false} ExecWords(text: string, toks: seq<Token>)
    requires TokensOk(text, toks)
    ensures ParsedOk(text, ExecOf(toks))
    decreases |toks|, 1
  {
    if Head(toks) == '(' {
      BlockWords(text, toks);
    } else {
      RedirsWords(text, Exec([]), toks);
      var r := RedirsOf(Exec([]), toks);
      if r.Ok? {
        ArgsWords(text, r.value.cmd, 0, r.value.rest);
      }
    }
  }

  lemma {:induction false} BlockWords(text: string, toks: seq<Token>)
    requires TokensOk(text, toks) && Head(toks) == '('
    ensures ParsedOk(text, BlockOf(toks))
    decreases |toks|, 0
  {
    LineWords(text, toks[1..]);
    var r := LineOf(toks[1..]);
    if r.Ok? && Head(r.value.rest) == ')' {
      RedirsWords(text, r.value.cmd, r.value.rest[1..]);
    }
  }

  lemma {:induction false} PipeWords(text: string, toks: seq<Token>)
    requires TokensOk(text, toks)
    ensures ParsedOk(text, PipeOf(toks))
    decreases |toks|, 2
  {
    hide IsWordOf, ExecOf;
    ExecWords(text, toks);
    var r := ExecOf(toks);
    if r.Ok? && Head(r.value.rest) == '|' {
      PipeWords(text, r.value.rest[1..]);
      var r2 := PipeOf(r.value.rest[1..]);
      if r2.Ok? {
        WordsJoin(text, Spans(r.value.cmd), Spans(r2.value.cmd));
      }
    }
  }

  lemma {:induction false} BackWords(text: string, cmd: Cmd<Span>, toks: seq<Token>)
    requires TokensOk(text, toks) && WordsOk(text, cmd)
    ensures WordsOk(text, BackOf(cmd, toks).cmd) && TokensOk(text, BackOf(cmd, toks).rest)
    decreases |toks|
  {
    hide IsWordOf;
    if Head(toks) == '&' {
      assert Spans(Back(cmd)) == Spans(cmd);
      BackWords(text, Back(cmd), toks[1..]);
    }
  }

  lemma {:induction false} LineWords(text: string, toks: seq<Token>)
    requires TokensOk(text, toks)
    ensures ParsedOk(text, LineOf(toks))
    decreases |toks|, 3
  {
    hide IsWordOf, PipeOf;
    PipeWords(text, toks);
    var r := PipeOf(toks);
    if r.Ok? {
      BackWords(text, r.value.cmd, r.value.rest);
      var p := BackOf(r.value.cmd, r.value.rest);
      if Head(p.rest) == ';' {
        LineWords(text, p.rest[1..]);
        var r2 := LineOf(p.rest[1..]);
        if r2.Ok? {
          WordsJoin(text, Spans(p.cmd), Spans(r2.value.cmd));
        }
      }
    }
  }

  /** Every word of a parsed command is a whole word of its text. */
  lemma WordsOfCmd(text: string)
    ensures CmdOf(Lex(text, 0)).Ok? ==> WordsOk(text, CmdOf(Lex(text, 0)).value)
  {
    LexOk(text, 0);
    LineWords(text, Lex(text, 0));
  }

  /** No NUL is written inside a word of the text. */
  lemma NoWriteInside(text: string, w: Span, v: Span)
    requires IsWordOf(text, w) && IsWordOf(text, v)
    ensures !(w.q <= v.eq < w.eq)
  {
  }

  /** The C string at q in buf is w. */
  predicate ReadsAs(buf: string, q: nat, w: string) {
    q + |w| < |buf| && buf[q..q + |w|] == w && NUL !in w && buf[q + |w|] == NUL
  }

  /** After nulterminate each word of the command, as a C string, is exactly its text. */
  lemma ReadsBack(text: string, cmd: Cmd<Span>, buf: string, k: nat)
    requires CmdOf(Lex(text, 0)) == Ok(cmd) && (forall i :: 0 <= i < |text| ==> text[i] != NUL)
    requires Terminated(text + [NUL], Spans(cmd), buf) && k < |Spans(cmd)|
    ensures var w := Spans(cmd)[k]; w.q < w.eq <= |text| && ReadsAs(buf, w.q, text[w.q..w.eq])
  {
    hide CmdOf, Lex, Spans, AllWords, ReadsAs, Terminated;
    WordsOfCmd(text);
    SpanReadsBack(text, Spans(cmd), buf, k);
  }

  lemma SpanReadsBack(text: string, spans: seq<Span>, buf: string, k: nat)
    requires AllWords(text, spans) && (forall i :: 0 <= i < |text| ==> text[i] != NUL)
    requires Terminated(text + [NUL], spans, buf) && k < |spans|
    ensures var w := spans[k]; w.q < w.eq <= |text| && ReadsAs(buf, w.q, text[w.q..w.eq])
  {
    var w := spans[k];
    assert IsWordOf(text, w);
    forall i | w.q <= i < w.eq
      ensures buf[i] == text[i]
    {
      NoEndInside(text, spans, w, i);
    }
    assert EndsAt(spans, w.eq);
    assert buf[w.q..w.eq] == text[w.q..w.eq];
    assert forall c :: c in text[w.q..w.eq] ==> c in text;
  }

  lemma NoEndInside(text: string, spans: seq<Span>, w: Span, i: nat)
    requires AllWords(text, spans) && IsWordOf(text, w) && w.q <= i < w.eq
    ensures !EndsAt(spans, i)
  {
    forall j | 0 <= j < |spans|
      ensures spans[j].eq != i
    {
      NoWriteInside(text, w, spans[j]);
    }
  }
}
