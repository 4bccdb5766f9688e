/**
 The grammar of the command lines that user/sh.c reads, stated apart from its parser: what a line is made of, how it may
 be laid out as text, and which command tree it stands for. The parser accepts exactly the texts of this grammar, and
 makes the tree that the grammar gives them.
 */
module ShellGrammar {
  import opened Shell

  /** A command with its words as text. */
  type Tree = Cmd<string>

  datatype Target = Target(file: string, mode: Mode)

  /** The words and redirections of a simple command may come in any order. */
  datatype Piece = Arg(word: string) | To(target: Target)

  datatype Line =
    | Simple(pieces: seq<Piece>)
    | Paren(inner: Line, targets: seq<Target>)
    | Piped(left: Line, right: Line)
    | Behind(inner: Line)
    | Then(left: Line, right: Line)

  // ----- what a line means

  function WordsIn(ps: seq<Piece>): seq<string> {
    if ps == [] then [] else (if ps[0].Arg? then [ps[0].word] else []) + WordsIn(ps[1..])
  }

  function TargetsIn(ps: seq<Piece>): seq<Target> {
    if ps == [] then [] else (if ps[0].To? then [ps[0].target] else []) + TargetsIn(ps[1..])
  }

  /** Redirections around a command, the first one innermost. */
  function Wrapped(t: Tree, ts: seq<Target>): Tree
    decreases |ts|
  {
    if ts == [] then t else Wrapped(Redir(t, ts[0].file, ts[0].mode), ts[1..])
  }

  function Meaning(s: Line): Tree {
    match s
    case Simple(ps) => Wrapped(Exec(WordsIn(ps)), TargetsIn(ps))
    case Paren(l, ts) => Wrapped(Meaning(l), ts)
    case Piped(l, r) => Pipe(Meaning(l), Meaning(r))
    case Behind(l) => Back(Meaning(l))
    case Then(l, r) => List(Meaning(l), Meaning(r))
  }

  // ----- which lines there are

  predicate IsWord(w: string) {
    w != "" && forall i :: 0 <= i < |w| ==> IsWordChar(w[i]) && w[i] != NUL
  }

  predicate IsUnit(s: Line) {
    s.Simple? || s.Paren?
  }

  predicate IsPipe(s: Line) {
    IsUnit(s) || s.Piped?
  }

  predicate IsBack(s: Line) {
    IsPipe(s) || s.Behind?
  }

  predicate TargetsOk(ts: seq<Target>) {
    forall i :: 0 <= i < |ts| ==> IsWord(ts[i].file)
  }

  predicate PieceOk(p: Piece) {
    IsWord(if p.Arg? then p.word else p.target.file)
  }

  predicate PiecesOk(ps: seq<Piece>) {
    forall i :: 0 <= i < |ps| ==> PieceOk(ps[i])
  }

  /**
   A bar binds tighter than an ampersand, an ampersand tighter than a semicolon; bar and semicolon go to the right.
   */
  predicate Proper(s: Line) {
    match s
    case Simple(ps) => PiecesOk(ps) && |WordsIn(ps)| < MAXARGS
    case Paren(l, ts) => Proper(l) && TargetsOk(ts)
    case Piped(l, r) => IsUnit(l) && IsPipe(r) && Proper(l) && Proper(r)
    case Behind(l) => IsBack(l) && Proper(l)
    case Then(l, r) => IsBack(l) && Proper(l) && Proper(r)
  }

  // ----- how a line is written

  datatype Lexeme = Lexeme(kind: char, text: string)

  function Symbol(c: char): Lexeme {
    Lexeme(c, [c])
  }

  function ModeLexeme(mode: Mode): Lexeme {
    match mode
    case Read => Symbol('<')
    case Write => Symbol('>')
    case Append => Lexeme('+', ">>")
  }

  function WordLexeme(w: string): Lexeme {
    Lexeme('a', w)
  }

  function TargetLexemes(ts: seq<Target>): seq<Lexeme> {
    if ts == [] then [] else [ModeLexeme(ts[0].mode), WordLexeme(ts[0].file)] + TargetLexemes(ts[1..])
  }

  function PieceLexemes(ps: seq<Piece>): seq<Lexeme> {
    if ps == [] then []
    else (match ps[0]
          case Arg(w) => [WordLexeme(w)]
          case To(x) => [ModeLexeme(x.mode), WordLexeme(x.file)]) + PieceLexemes(ps[1..])
  }

  function Lexemes(s: Line): seq<Lexeme> {
    match s
    case Simple(ps) => PieceLexemes(ps)
    case Paren(l, ts) => [Symbol('(')] + (Lexemes(l) + ([Symbol(')')] + TargetLexemes(ts)))
    case Piped(l, r) => Lexemes(l) + ([Symbol('|')] + Lexemes(r))
    case Behind(l) => Lexemes(l) + [Symbol('&')]
    case Then(l, r) => Lexemes(l) + ([Symbol(';')] + Lexemes(r))
  }

  predicate Blank(gap: string) {
    forall i :: 0 <= i < |gap| ==> IsSpace(gap[i])
  }

  /** Without space between them the two would be read differently. */
  predicate Touching(a: Lexeme, b: Lexeme) {
    (a.kind == 'a' && b.kind == 'a') || (a.kind == '>' && (b.kind == '>' || b.kind == '+'))
  }

  /** Each lexeme is followed by a gap, which may be empty where that is safe. */
  ghost predicate GapsOk(ls: seq<Lexeme>, gaps: seq<string>) {
    && |gaps| == |ls| && (forall i :: 0 <= i < |gaps| ==> Blank(gaps[i]))
    && (forall i, j :: 0 <= i < |ls| && j == i + 1 < |ls| && Touching(ls[i], ls[j]) ==> gaps[i] != "")
  }

  function Print(ls: seq<Lexeme>, gaps: seq<string>): string
    requires |gaps| == |ls|
  {
    if ls == [] then "" else ls[0].text + gaps[0] + Print(ls[1..], gaps[1..])
  }

  ghost predicate LaidOut(text: string, ls: seq<Lexeme>, lead: string, gaps: seq<string>) {
    Blank(lead) && GapsOk(ls, gaps) && text == lead + Print(ls, gaps)
  }

  /** The text is the line, in some layout. */
  ghost predicate IsTextOf(text: string, s: Line) {
    exists lead, gaps :: LaidOut(text, Lexemes(s), lead, gaps)
  }

  // ----- lexing what was printed

  predicate LexemeOk(l: Lexeme) {
    || (l.kind == 'a' && IsWord(l.text))
    || (l.kind == '+' && l.text == ">>")
    || (l.kind in SYMBOLS && l.text == [l.kind])
  }

  ghost predicate LexemesOk(ls: seq<Lexeme>) {
    forall i :: 0 <= i < |ls| ==> LexemeOk(ls[i])
  }

  predicate Same(text: string, t: Token, l: Lexeme) {
    t.kind == l.kind && t.q <= t.eq <= |text| && text[t.q..t.eq] == l.text
  }

  /** The tokens begin with the lexemes. */
  ghost predicate Starts(text: string, toks: seq<Token>, ls: seq<Lexeme>) {
    |ls| <= |toks| && forall i :: 0 <= i < |ls| ==> Same(text, toks[i], ls[i])
  }

  lemma {:induction false} WordEndIs(text: string, pos: nat, end: nat)
    requires pos <= end <= |text| && (forall i :: pos <= i < end ==> IsWordChar(text[i]))
             && (end < |text| ==> !IsWordChar(text[end]))
    ensures WordEnd(text, pos) == end
    decreases end - pos
  {
    if pos < end {
      WordEndIs(text, pos + 1, end);
    }
  }

  /** No character at pos that would be taken into a lexeme of this kind that ends there. */
  predicate EndsHere(text: string, pos: nat, kind: char) {
    pos < |text| ==> (kind == 'a' ==> !IsWordChar(text[pos])) && (kind == '>' ==> text[pos] != '>')
  }

  lemma TokenIs(text: string, pos: nat, l: Lexeme)
    requires LexemeOk(l) && pos + |l.text| <= |text| && text[pos..pos + |l.text|] == l.text
             && EndsHere(text, pos + |l.text|, l.kind)
    ensures pos < |text| && !IsSpace(text[pos]) && TokenAt(text, pos) == Token(l.kind, pos, pos + |l.text|)
  {
    var end := pos + |l.text|;
    assert text[pos] == l.text[0];
    if l.kind == 'a' {
      forall i | pos <= i < end
        ensures IsWordChar(text[i])
      {
        assert text[i] == l.text[i - pos];
      }
      WordEndIs(text, pos, end);
    } else if l.kind == '+' {
      assert text[pos + 1] == l.text[1];
    }
  }

  lemma {:induction false} SkipBlank(text: string, pos: nat, end: nat)
    requires pos <= end <= |text| && Blank(text[pos..end]) && (end < |text| ==> !IsSpace(text[end]))
    ensures SkipSpace(text, pos) == end
    decreases end - pos
  {
    if pos < end {
      assert text[pos] == text[pos..end][0];
      assert text[pos + 1..end] == text[pos..end][1..];
      SkipBlank(text, pos + 1, end);
    }
  }

  /** What stands behind the first printed lexeme does not run into it. */
  lemma Separated(ls: seq<Lexeme>, gaps: seq<string>)
    requires LexemesOk(ls) && GapsOk(ls, gaps) && ls != []
    ensures EndsHere(gaps[0] + Print(ls[1..], gaps[1..]), 0, ls[0].kind)
  {
    var more := Print(ls[1..], gaps[1..]);
    assert Blank(gaps[0]);
    if gaps[0] != "" {
      assert (gaps[0] + more)[0] == gaps[0][0];
    } else if |ls| > 1 {
      assert gaps[0] + more == more && LexemeOk(ls[0]) && LexemeOk(ls[1]);
      assert !Touching(ls[0], ls[1]);
      FirstCharIs(ls[1]);
      assert more[0] == ls[1].text[0];
    }
  }

  lemma FirstCharIs(l: Lexeme)
    requires LexemeOk(l)
    ensures l.text != "" && !IsSpace(l.text[0]) && (l.kind != 'a' ==> !IsWordChar(l.text[0]))
    ensures l.text[0] == '>' ==> l.kind == '>' || l.kind == '+'
  {
  }

  lemma {:induction false} LexPrinted(pre: string, lead: string, ls: seq<Lexeme>, gaps: seq<string>)
    requires LexemesOk(ls) && Blank(lead) && GapsOk(ls, gaps)
    ensures var text := pre + lead + Print(ls, gaps);
            |Lex(text, |pre|)| == |ls| && Starts(text, Lex(text, |pre|), ls)
    decreases |ls|
  {
    hide LexemeOk, Lex, Same, Touching, Blank;
    var text := pre + lead + Print(ls, gaps);
    var at := |pre| + |lead|;
    assert text[|pre|..at] == lead;
    if ls == [] {
      SkipBlank(text, |pre|, at);
      NextToken(text, |pre|);
    } else {
      var next, more := pre + lead + ls[0].text, Print(ls[1..], gaps[1..]);
      assert text == next + gaps[0] + more;
      GapsTail(ls, gaps);
      LexPrinted(next, gaps[0], ls[1..], gaps[1..]);
      Separated(ls, gaps);
      FirstPrinted(pre, lead, ls[0], gaps[0] + more);
      assert next + (gaps[0] + more) == text;
      StartsCons(text, Lex(text, |pre|), Lex(text, |next|), ls);
    }
  }

  lemma GapsTail(ls: seq<Lexeme>, gaps: seq<string>)
    requires GapsOk(ls, gaps) && ls != []
    ensures Blank(gaps[0]) && GapsOk(ls[1..], gaps[1..])
  {
    hide Blank, Touching;
    var ls', gaps' := ls[1..], gaps[1..];
    forall i, j | 0 <= i < |ls'| && j == i + 1 < |ls'| && Touching(ls'[i], ls'[j])
      ensures gaps'[i] != ""
    {
      assert ls'[i] == ls[i + 1] && ls'[j] == ls[j + 1] && gaps'[i] == gaps[i + 1];
    }
  }

  /** The first of the printed lexemes is the first token. */
  lemma FirstPrinted(pre: string, lead: string, l: Lexeme, more: string)
    requires LexemeOk(l) && Blank(lead) && EndsHere(more, 0, l.kind)
    ensures var text := pre + lead + l.text + more;
            var end := |pre + lead + l.text|;
            Lex(text, |pre|) != [] && Same(text, Lex(text, |pre|)[0], l) && Lex(text, |pre|)[1..] == Lex(text, end)
  {
    hide LexemeOk, Lex, TokenAt, IsWordChar;
    var text := pre + lead + l.text + more;
    var at := |pre| + |lead|;
    var end := at + |l.text|;
    assert text[at..end] == l.text && text[|pre|..at] == lead;
    assert more != "" ==> text[end] == more[0];
    TokenIs(text, at, l);
    SkipBlank(text, |pre|, at);
    NextToken(text, |pre|);
  }

  lemma StartsCons(text: string, toks: seq<Token>, rest: seq<Token>, ls: seq<Lexeme>)
    requires toks != [] && ls != [] && toks[1..] == rest && Same(text, toks[0], ls[0]) && Starts(text, rest, ls[1..])
    ensures Starts(text, toks, ls) && |toks| == |rest| + 1
  {
    hide Same;
    forall i | 0 <= i < |ls|
      ensures Same(text, toks[i], ls[i])
    {
      if i > 0 {
        assert rest[i - 1] == toks[i] && ls[1..][i - 1] == ls[i];
      }
    }
  }

  // ----- every text is laid out from its tokens

  function LexemeOf(text: string, t: Token): Lexeme {
    Lexeme(t.kind, TextOf(text, Word(t)))
  }

  function TextOf(text: string, w: Span): string {
    if w.q <= w.eq <= |text| then text[w.q..w.eq] else ""
  }

  function LexemesOf(text: string, toks: seq<Token>): seq<Lexeme> {
    if toks == [] then [] else [LexemeOf(text, toks[0])] + LexemesOf(text, toks[1..])
  }

  /** The tokens are those of some text without NUL. */
  ghost predicate TokensGood(text: string, toks: seq<Token>) {
    forall k :: 0 <= k < |toks| ==> TokenGood(text, toks[k])
  }

  predicate TokenGood(text: string, t: Token) {
    t.q <= t.eq <= |text| && LexemeOk(LexemeOf(text, t))
  }

  ghost predicate NoNul(text: string) {
    forall i :: 0 <= i < |text| ==> text[i] != NUL
  }

  lemma TokenIsGood(text: string, p: nat)
    requires NoNul(text) && p < |text| && !IsSpace(text[p])
    ensures TokenGood(text, TokenAt(text, p)) && EndsHere(text, TokenAt(text, p).eq, TokenAt(text, p).kind)
  {
    WordChars(text, p);
    var t := TokenAt(text, p);
    assert text[p..t.eq][0] == text[p];
    if t.kind == '+' {
      assert text[p..t.eq] == ">>";
    } else if t.kind != 'a' {
      assert text[p..t.eq] == [text[p]];
    }
  }

  lemma {:induction false} LexGood(text: string, pos: nat)
    requires NoNul(text) && pos <= |text|
    ensures TokensGood(text, Lex(text, pos))
    decreases |text| - pos
  {
    hide TokenGood, TokenAt;
    NextToken(text, pos);
    var p := SkipSpace(text, pos);
    if p < |text| {
      TokenIsGood(text, p);
      LexGood(text, TokenAt(text, p).eq);
    }
  }

  lemma {:induction false} SkippedBlank(text: string, pos: nat)
    requires pos <= |text|
    ensures Blank(text[pos..SkipSpace(text, pos)])
    decreases |text| - pos
  {
    if pos < |text| && IsSpace(text[pos]) {
      SkippedBlank(text, pos + 1);
      var end := SkipSpace(text, pos);
      forall i | 0 <= i < end - pos
        ensures IsSpace(text[pos..end][i])
      {
        if i > 0 {
          assert text[pos..end][i] == text[pos + 1..end][i - 1];
        }
      }
    }
  }

  /** Tokens with no space between them do not touch. */
  lemma NextFits(text: string, t: Token, u: Token)
    requires t.eq < |text| && !IsSpace(text[t.eq]) && u == TokenAt(text, t.eq) && EndsHere(text, t.eq, t.kind)
    ensures !Touching(LexemeOf(text, t), LexemeOf(text, u))
  {
  }

  lemma {:induction false} LexLayout(text: string, pos: nat) returns (lead: string, gaps: seq<string>)
    requires NoNul(text) && pos <= |text|
    ensures LaidOut(text[pos..], LexemesOf(text, Lex(text, pos)), lead, gaps)
    ensures lead == text[pos..SkipSpace(text, pos)]
    decreases |text| - pos
  {
    hide TokenAt, Touching, Lex, Blank, GapsOk, Print, LexemesOf, IsSpace, LexemeOk;
    var p := SkipSpace(text, pos);
    lead := text[pos..p];
    SkippedBlank(text, pos);
    NextToken(text, pos);
    if p == |text| {
      gaps := [];
      NothingLaidOut(text, pos);
    } else {
      var t := TokenAt(text, p);
      TokenIsGood(text, p);
      var gap, more := LexLayout(text, t.eq);
      gaps := [gap] + more;
      NextToken(text, t.eq);
      if gap == "" && SkipSpace(text, t.eq) < |text| {
        NextFits(text, t, TokenAt(text, t.eq));
      }
      LayoutCons(text, pos, t, Lex(text, t.eq), gap, more);
      assert Lex(text, pos) == [t] + Lex(text, t.eq);
    }
  }

  lemma NothingLaidOut(text: string, pos: nat)
    requires pos <= |text| && Blank(text[pos..])
    ensures LaidOut(text[pos..], LexemesOf(text, []), text[pos..], [])
  {
  }

  lemma {:induction false} LayoutCons(text: string, pos: nat, t: Token, toks: seq<Token>, gap: string,
                                      gaps: seq<string>)
    requires pos <= t.q <= t.eq <= |text| && Blank(text[pos..t.q])
    requires LaidOut(text[t.eq..], LexemesOf(text, toks), gap, gaps)
    requires gap == "" && toks != [] ==> !Touching(LexemeOf(text, t), LexemeOf(text, toks[0]))
    ensures LaidOut(text[pos..], LexemesOf(text, [t] + toks), text[pos..t.q], [gap] + gaps)
  {
    hide Touching, Blank;
    assert text[pos..] == text[pos..t.q] + (text[t.q..t.eq] + text[t.eq..]);
    var tail := LexemesOf(text, toks);
    var ls, all := LexemesOf(text, [t] + toks), [gap] + gaps;
    assert ([t] + toks)[1..] == toks;
    assert ls == [LexemeOf(text, t)] + tail && ls[1..] == tail && all[1..] == gaps;
    forall i, j | 0 <= i < |ls| && j == i + 1 < |ls| && Touching(ls[i], ls[j])
      ensures all[i] != ""
    {
      if i > 0 {
        assert ls[i] == tail[i - 1] && ls[j] == tail[j - 1] && all[i] == gaps[i - 1];
      }
    }
  }
}
