/** The shell's parser: a recursive descent over a line, whose tree points into the line, and the pass
    that then NUL-terminates the pointed-to strings in place.
 */
module Shell {
  const MAXARGS := 10

  predicate White(c: char) {
    c == ' ' || c == '\t' || c == '\r' || c == '\n' || c == '\U{0b}'
  }

  predicate Symbol(c: char) {
    c == '<' || c == '|' || c == '>' || c == '&' || c == ';' || c == '(' || c == ')'
  }

  predicate WordChar(c: char) {
    !White(c) && !Symbol(c)
  }

  predicate NulFree(line: string) {
    '\0' !in line
  }

  /** The character at a position; the line ends with NUL. */
  function CharAt(line: string, i: nat): char {
    if i < |line| then line[i] else '\0'
  }

  /** A stretch of the line: where a pointer and its end pointer point. */
  datatype Span = Span(q: nat, eq: nat)

  datatype Cmd =
    | Exec(args: seq<Span>)
    | Redir(cmd: Cmd, file: Span, mode: nat, fd: nat)
    | Pipe(left: Cmd, right: Cmd)
    | List(left: Cmd, right: Cmd)
    | Back(cmd: Cmd)

  const O_RDONLY := 0x000
  const O_WRONLY := 0x001
  const O_CREATE := 0x200
  const O_TRUNC := 0x400

  function SkipWhite(line: string, i: nat): (r: nat)
    requires i <= |line|
    ensures i <= r <= |line| && (r < |line| ==> !White(line[r])) && forall k | i <= k < r :: White(line[k])
    decreases |line| - i
  {
    if i < |line| && White(line[i]) then SkipWhite(line, i + 1) else i
  }

  function WordEnd(line: string, i: nat): (r: nat)
    requires i <= |line|
    ensures i <= r <= |line| && (r < |line| ==> !WordChar(line[r])) && forall k | i <= k < r :: WordChar(line[k])
    decreases |line| - i
  {
    if i < |line| && WordChar(line[i]) then WordEnd(line, i + 1) else i
  }

  /** A token: its kind (0 at the end, 'a' for a word, '+' for >>, else the symbol) and its span. */
  datatype Token = Token(kind: char, span: Span)

  function TokenAt(line: string, i: nat): (t: Token)
    requires i <= |line| && NulFree(line)
    ensures i <= t.span.q <= t.span.eq <= |line|
    ensures t.kind == '\0' <==> t.span.q == |line|
    ensures t.kind != '\0' ==> t.span.q < t.span.eq
    ensures t.kind == 'a' <==> t.span.q < |line| && WordChar(line[t.span.q])
  {
    var q := SkipWhite(line, i);
    if q == |line| then Token('\0', Span(q, q))
    else if line[q] == '>' then
      if CharAt(line, q + 1) == '>' then Token('+', Span(q, q + 2)) else Token('>', Span(q, q + 1))
    else if Symbol(line[q]) then Token(line[q], Span(q, q + 1))
    else Token('a', Span(q, WordEnd(line, q)))
  }

  /** The tokens of the rest of the line. */
  ghost function Tokens(line: string, i: nat): seq<Token>
    requires i <= |line| && NulFree(line)
    decreases |line| - i
  {
    var t := TokenAt(line, i);
    if t.kind == '\0' then [] else [t] + Tokens(line, t.span.eq)
  }

  /** The words among some tokens. */
  ghost function WordsOf(ts: seq<Token>): multiset<Span> {
    if ts == [] then multiset{}
    else (if ts[0].kind == 'a' then multiset{ts[0].span} else multiset{}) + WordsOf(ts[1..])
  }

  lemma {:induction false} WordsOfSum(a: seq<Token>, b: seq<Token>)
    ensures WordsOf(a + b) == WordsOf(a) + WordsOf(b)
  {
    if a == [] {
      assert a + b == b;
    } else {
      assert (a + b)[1..] == a[1..] + b;
      WordsOfSum(a[1..], b);
    }
  }

  /** A maximal stretch of word characters. */
  ghost predicate MaximalRun(line: string, w: Span) {
    && w.q < w.eq <= |line| && (forall k | w.q <= k < w.eq :: WordChar(line[k]))
    && (w.eq < |line| ==> !WordChar(line[w.eq])) && (w.q > 0 ==> !WordChar(line[w.q - 1]))
  }

  /** No word goes across the position. */
  ghost predicate Boundary(line: string, i: nat) {
    i <= |line| && (0 < i < |line| ==> !WordChar(line[i - 1]) || !WordChar(line[i]))
  }

  /** The words are exactly the maximal stretches of word characters, each once. */
  lemma {:induction false} WordsAreRuns(line: string, i: nat, w: Span)
    requires NulFree(line) && Boundary(line, i)
    ensures WordsOf(Tokens(line, i))[w] == if i <= w.q && MaximalRun(line, w) then 1 else 0
    decreases |line| - i
  {
    var t := TokenAt(line, i);
    if t.kind == '\0' {
      NoRun(line, i, t.span.q, w);
    } else {
      OneToken(line, i, w);
      WordsAreRuns(line, t.span.eq, w);
      assert Tokens(line, i)[1..] == Tokens(line, t.span.eq);
    }
  }

  lemma NoRun(line: string, i: nat, r: nat, w: Span)
    requires i <= r <= |line| && forall k | i <= k < r :: White(line[k])
    ensures MaximalRun(line, w) ==> !(i <= w.q < r)
  {
    var white := i <= w.q < r && White(line[w.q]);
  }

  /** A word at or behind i starts with the first token, or behind it. */
  lemma OneToken(line: string, i: nat, w: Span)
    requires NulFree(line) && Boundary(line, i) && TokenAt(line, i).kind != '\0'
    ensures var t := TokenAt(line, i);
      && Boundary(line, t.span.eq)
      && (MaximalRun(line, w) && i <= w.q ==> t.span.eq <= w.q || (t.kind == 'a' && w == t.span))
      && (t.kind == 'a' ==> MaximalRun(line, t.span))
  {
    var t := TokenAt(line, i);
    if MaximalRun(line, w) && i <= w.q {
      NoRun(line, i, t.span.q, w);
    }
  }

  /** What a parsing function comes to: a tree and the position behind it, or the shell's panic. */
  datatype Parsed = Tree(cmd: Cmd, next: nat) | Panic(why: string)

  /** The words a tree points to. */
  ghost function TreeWords(c: Cmd): multiset<Span> {
    match c
    case Exec(args) => multiset(args)
    case Redir(c, f, _, _) => TreeWords(c) + multiset{f}
    case Pipe(l, r) => TreeWords(l) + TreeWords(r)
    case List(l, r) => TreeWords(l) + TreeWords(r)
    case Back(c) => TreeWords(c)
  }

  /** Setting an argument in the command that redirections have been wrapped around. */
  function AddArg(c: Cmd, w: Span): Cmd {
    match c
    case Exec(args) => Exec(args + [w])
    case Redir(c, f, mode, fd) => Redir(AddArg(c, w), f, mode, fd)
    case _ => c
  }

  predicate ExecUnder(c: Cmd) {
    match c
    case Exec(_) => true
    case Redir(c, _, _, _) => ExecUnder(c)
    case _ => false
  }

  /** w is the last argument. */
  predicate LastArg(c: Cmd, w: Span) {
    match c
    case Exec(args) => |args| > 0 && args[|args| - 1] == w
    case Redir(c, _, _, _) => LastArg(c, w)
    case _ => false
  }

  function DropArg(c: Cmd): Cmd {
    match c
    case Exec(args) => if args == [] then c else Exec(args[..|args| - 1])
    case Redir(c, f, mode, fd) => Redir(DropArg(c), f, mode, fd)
    case _ => c
  }

  lemma {:induction false} AddDrop(c: Cmd, w: Span)
    requires ExecUnder(c)
    ensures LastArg(AddArg(c, w), w) && DropArg(AddArg(c, w)) == c
  {
    match c
    case Exec(args) =>
    case Redir(c, _, _, _) => AddDrop(c, w);
  }

  lemma {:induction false} DropWords(c: Cmd, w: Span)
    requires LastArg(c, w)
    ensures TreeWords(c) == TreeWords(DropArg(c)) + multiset{w}
  {
    match c
    case Exec(args) => assert args == args[..|args| - 1] + [w];
    case Redir(c, _, _, _) => DropWords(c, w);
  }

  // The grammar, as a relation between trees and token sequences.

  predicate RedirOp(kind: char) {
    kind == '<' || kind == '>' || kind == '+'
  }

  /** The redirection that an operator and a file name stand for. */
  function Redirected(c: Cmd, op: char, file: Span): Cmd {
    if op == '<' then Redir(c, file, O_RDONLY, 0)
    else if op == '>' then Redir(c, file, O_WRONLY + O_CREATE + O_TRUNC, 1)
    else Redir(c, file, O_WRONLY + O_CREATE, 1)
  }

  ghost predicate EndsInRedir(ts: seq<Token>) {
    |ts| >= 2 && RedirOp(ts[|ts| - 2].kind) && ts[|ts| - 1].kind == 'a'
  }

  /** The last two tokens redirect the command that the others make. */
  ghost predicate RedirectedBy(c: Cmd, ts: seq<Token>)
    requires EndsInRedir(ts)
  {
    c.Redir? && c == Redirected(c.cmd, ts[|ts| - 2].kind, ts[|ts| - 1].span)
  }

  /** Words and redirections in any order: the words are the arguments, the redirections wrap. */
  ghost predicate IsSimple(c: Cmd, ts: seq<Token>)
    decreases |ts|
  {
    if ts == [] then c == Exec([])
    else if EndsInRedir(ts) then RedirectedBy(c, ts) && IsSimple(c.cmd, ts[..|ts| - 2])
    else ts[|ts| - 1].kind == 'a' && LastArg(c, ts[|ts| - 1].span) && IsSimple(DropArg(c), ts[..|ts| - 1])
  }

  /** A line in parentheses, with redirections behind it. */
  ghost predicate IsBlock(c: Cmd, ts: seq<Token>)
    decreases |ts|, 0
  {
    if EndsInRedir(ts) then RedirectedBy(c, ts) && IsBlock(c.cmd, ts[..|ts| - 2])
    else |ts| >= 2 && ts[0].kind == '(' && ts[|ts| - 1].kind == ')' && IsLine(c, ts[1..|ts| - 1])
  }

  ghost predicate IsItem(c: Cmd, ts: seq<Token>)
    decreases |ts|, 1
  {
    IsSimple(c, ts) || IsBlock(c, ts)
  }

  /** Items joined by '|', to the right. */
  ghost predicate IsPipe(c: Cmd, ts: seq<Token>)
    decreases |ts|, 2
  {
    || IsItem(c, ts)
    || (c.Pipe? && exists k :: 0 <= k < |ts| && ts[k].kind == '|' && IsItem(c.left, ts[..k]) && IsPipe(c.right, ts[k + 1..]))
  }

  /** A pipe followed by any number of '&'. */
  ghost predicate IsBacked(c: Cmd, ts: seq<Token>)
    decreases |ts|, 3
  {
    || IsPipe(c, ts)
    || (c.Back? && |ts| > 0 && ts[|ts| - 1].kind == '&' && IsBacked(c.cmd, ts[..|ts| - 1]))
  }

  /** Backed pipes joined by ';', to the right. */
  ghost predicate IsLine(c: Cmd, ts: seq<Token>)
    decreases |ts|, 4
  {
    || IsBacked(c, ts)
    || (c.List? && exists k :: 0 <= k < |ts| && ts[k].kind == ';' && IsBacked(c.left, ts[..k]) && IsLine(c.right, ts[k + 1..]))
  }

  /** The words of the last tokens. */
  lemma WordsOfLast(ts: seq<Token>, n: nat)
    requires n <= |ts|
    ensures WordsOf(ts) == WordsOf(ts[..n]) + WordsOf(ts[n..])
  {
    assert ts == ts[..n] + ts[n..];
    WordsOfSum(ts[..n], ts[n..]);
  }

  lemma WordsOfOne(ts: seq<Token>)
    requires |ts| == 1
    ensures WordsOf(ts) == if ts[0].kind == 'a' then multiset{ts[0].span} else multiset{}
  {
    assert ts[1..] == [];
  }

  lemma WordsOfTwo(ts: seq<Token>)
    requires |ts| == 2 && RedirOp(ts[0].kind) && ts[1].kind == 'a'
    ensures WordsOf(ts) == multiset{ts[1].span}
  {
    WordsOfOne(ts[1..]);
  }

  lemma WordsOfNone()
    ensures WordsOf([]) == multiset{} && TreeWords(Exec([])) == multiset{}
  {
  }

  /** A redirection behind a command adds its file. */
  lemma RedirWords(c: Cmd, ts: seq<Token>)
    requires EndsInRedir(ts) && RedirectedBy(c, ts) && TreeWords(c.cmd) == WordsOf(ts[..|ts| - 2])
    ensures TreeWords(c) == WordsOf(ts)
  {
    hide WordsOf;
    WordsOfLast(ts, |ts| - 2);
    WordsOfTwo(ts[|ts| - 2..]);
  }

  lemma {:induction false} SimpleWords(c: Cmd, ts: seq<Token>)
    requires IsSimple(c, ts)
    ensures TreeWords(c) == WordsOf(ts)
    decreases |ts|
  {
    hide WordsOf, TreeWords;
    var n := |ts|;
    if ts == [] {
      WordsOfNone();
    } else if EndsInRedir(ts) {
      SimpleWords(c.cmd, ts[..n - 2]);
      RedirWords(c, ts);
    } else {
      SimpleWords(DropArg(c), ts[..n - 1]);
      DropWords(c, ts[n - 1].span);
      WordsOfLast(ts, n - 1);
      WordsOfOne(ts[n - 1..]);
    }
  }

  lemma {:induction false} SimpleExec(c: Cmd, ts: seq<Token>)
    requires IsSimple(c, ts)
    ensures ExecUnder(c)
    decreases |ts|
  {
    if ts == [] {
    } else if EndsInRedir(ts) {
      SimpleExec(c.cmd, ts[..|ts| - 2]);
    } else {
      LastExec(c, ts[|ts| - 1].span);
    }
  }

  lemma {:induction false} LastExec(c: Cmd, w: Span)
    requires LastArg(c, w)
    ensures ExecUnder(c)
  {
    if c.Redir? {
      LastExec(c.cmd, w);
    }
  }

  lemma {:induction false} BlockWords(c: Cmd, ts: seq<Token>)
    requires IsBlock(c, ts)
    ensures TreeWords(c) == WordsOf(ts)
    decreases |ts|, 0
  {
    hide IsLine, WordsOf, TreeWords;
    if EndsInRedir(ts) {
      BlockWords(c.cmd, ts[..|ts| - 2]);
      RedirWords(c, ts);
    } else {
      LineWords(c, ts[1..|ts| - 1]);
      WordsInside(ts);
    }
  }

  lemma WordsInside(ts: seq<Token>)
    requires |ts| >= 2 && ts[0].kind == '(' && ts[|ts| - 1].kind == ')'
    ensures WordsOf(ts) == WordsOf(ts[1..|ts| - 1])
  {
    hide WordsOf;
    var n := |ts|;
    WordsOfLast(ts, n - 1);
    WordsOfOne(ts[n - 1..]);
    WordsOfLast(ts[..n - 1], 1);
    assert ts[..n - 1][1..] == ts[1..n - 1];
    WordsOfOne(ts[..n - 1][..1]);
  }

  lemma {:induction false} PipeWords(c: Cmd, ts: seq<Token>)
    requires IsPipe(c, ts)
    ensures TreeWords(c) == WordsOf(ts)
    decreases |ts|, 2
  {
    if IsSimple(c, ts) {
      SimpleWords(c, ts);
    } else if IsBlock(c, ts) {
      BlockWords(c, ts);
    } else {
      var k :| 0 <= k < |ts| && ts[k].kind == '|' && IsItem(c.left, ts[..k]) && IsPipe(c.right, ts[k + 1..]);
      PipeWords(c.left, ts[..k]);
      PipeWords(c.right, ts[k + 1..]);
      JoinWords(ts, k);
    }
  }

  lemma JoinWords(ts: seq<Token>, k: nat)
    requires k < |ts| && ts[k].kind != 'a'
    ensures WordsOf(ts) == WordsOf(ts[..k]) + WordsOf(ts[k + 1..])
  {
    WordsOfLast(ts, k);
    assert ts[k..][1..] == ts[k + 1..];
  }

  lemma {:induction false} BackedWords(c: Cmd, ts: seq<Token>)
    requires IsBacked(c, ts)
    ensures TreeWords(c) == WordsOf(ts)
    decreases |ts|, 3
  {
    if IsPipe(c, ts) {
      PipeWords(c, ts);
    } else {
      BackedWords(c.cmd, ts[..|ts| - 1]);
      WordsOfLast(ts, |ts| - 1);
      WordsOfOne(ts[|ts| - 1..]);
    }
  }

  /** A tree of the grammar points to each word of its tokens exactly once. */
  lemma {:induction false} LineWords(c: Cmd, ts: seq<Token>)
    requires IsLine(c, ts)
    ensures TreeWords(c) == WordsOf(ts)
    decreases |ts|, 4
  {
    if IsBacked(c, ts) {
      BackedWords(c, ts);
    } else {
      var k :| 0 <= k < |ts| && ts[k].kind == ';' && IsBacked(c.left, ts[..k]) && IsLine(c.right, ts[k + 1..]);
      BackedWords(c.left, ts[..k]);
      LineWords(c.right, ts[k + 1..]);
      JoinWords(ts, k);
    }
  }

  lemma {:induction false} SkipTwice(line: string, i: nat)
    requires i <= |line|
    ensures SkipWhite(line, SkipWhite(line, i)) == SkipWhite(line, i)
  {
    var r := SkipWhite(line, i);
    var again := r < |line| && White(line[r]);
  }

  lemma {:induction false} SkipTokens(line: string, i: nat)
    requires i <= |line| && NulFree(line)
    ensures Tokens(line, SkipWhite(line, i)) == Tokens(line, i)
  {
    hide SkipWhite, WordEnd;
    SkipTwice(line, i);
    assert TokenAt(line, SkipWhite(line, i)) == TokenAt(line, i);
  }

  lemma {:induction false} NextTokens(line: string, i: nat)
    requires i <= |line| && NulFree(line)
    ensures var t := TokenAt(line, i);
      t.kind != '\0' ==> Tokens(line, i) == [t] + Tokens(line, SkipWhite(line, t.span.eq))
    ensures TokenAt(line, i).kind == '\0' ==> Tokens(line, i) == []
    ensures Tokens(line, |line|) == []
  {
    hide SkipWhite, WordEnd;
    SkipTokens(line, TokenAt(line, i).span.eq);
    assert TokenAt(line, |line|).kind == '\0';
  }

  // The parser as functions of the tokens.

  datatype Outcome = Got(cmd: Cmd, rest: seq<Token>) | Fail

  /** parseredirs. */
  ghost function Redirs(c: Cmd, ts: seq<Token>): (r: Outcome)
    ensures r.Got? ==> |r.rest| <= |ts|
    decreases |ts|
  {
    if ts == [] || !RedirOp(ts[0].kind) then Got(c, ts)
    else if |ts| >= 2 && ts[1].kind == 'a' then Redirs(Redirected(c, ts[0].kind, ts[1].span), ts[2..])
    else Fail
  }

  predicate Stops(kind: char) {
    kind == '|' || kind == ')' || kind == '&' || kind == ';'
  }

  /** The loop of parseexec, with argc arguments so far. */
  ghost function Args(c: Cmd, argc: nat, ts: seq<Token>): (r: Outcome)
    ensures r.Got? ==> |r.rest| <= |ts|
    decreases |ts|
  {
    if ts == [] || Stops(ts[0].kind) then Got(c, ts)
    else if ts[0].kind != 'a' || argc + 1 >= MAXARGS then Fail
    else
      var r := Redirs(AddArg(c, ts[0].span), ts[1..]);
      if r.Fail? then Fail else Args(r.cmd, argc + 1, r.rest)
  }

  /** parseexec and parseblock. */
  ghost function Item(ts: seq<Token>): (r: Outcome)
    ensures r.Got? ==> |r.rest| <= |ts|
    decreases |ts|, 0
  {
    if ts != [] && ts[0].kind == '(' then
      var r := Line(ts[1..]);
      if r.Fail? || r.rest == [] || r.rest[0].kind != ')' then Fail else Redirs(r.cmd, r.rest[1..])
    else
      var r := Redirs(Exec([]), ts);
      if r.Fail? then Fail else Args(r.cmd, 0, r.rest)
  }

  /** parsepipe. */
  ghost function Pipes(ts: seq<Token>): (r: Outcome)
    ensures r.Got? ==> |r.rest| <= |ts|
    decreases |ts|, 1
  {
    var r := Item(ts);
    if r.Fail? || r.rest == [] || r.rest[0].kind != '|' then r
    else
      var q := Pipes(r.rest[1..]);
      if q.Fail? then Fail else Got(Pipe(r.cmd, q.cmd), q.rest)
  }

  /** The loop of parseline. */
  ghost function Backs(c: Cmd, ts: seq<Token>): (r: Outcome)
    ensures r.Got? && |r.rest| <= |ts| && (r.rest == [] || r.rest[0].kind != '&')
    decreases |ts|
  {
    if ts != [] && ts[0].kind == '&' then Backs(Back(c), ts[1..]) else Got(c, ts)
  }

  /** parseline. */
  ghost function Line(ts: seq<Token>): (r: Outcome)
    ensures r.Got? ==> |r.rest| <= |ts|
    decreases |ts|, 2
  {
    var r := Pipes(ts);
    if r.Fail? then Fail else
    var b := Backs(r.cmd, r.rest);
    if b.rest == [] || b.rest[0].kind != ';' then b
    else
      var q := Line(b.rest[1..]);
      if q.Fail? then Fail else Got(List(b.cmd, q.cmd), q.rest)
  }

  /** A method's result is what a function of the tokens says. */
  ghost predicate Agrees(line: string, pos: nat, p: Parsed, r: Outcome)
    requires NulFree(line)
  {
    match r
    case Got(cmd, rest) => p.Tree? && p.cmd == cmd && pos <= p.next <= |line| && Tokens(line, p.next) == rest
    case Fail => p.Panic?
  }

  /** What the first character says about the first token. */
  predicate StartsToken(c: char, kind: char) {
    && (WordChar(c) ==> kind == 'a') && (c == '>' ==> kind == '>' || kind == '+')
    && (Symbol(c) && c != '>' ==> kind == c)
  }

  /** gettoken's and peek's loops over whitespace. */
  method SkipSpace(line: string, pos: nat) returns (s: nat)
    requires pos <= |line|
    ensures s == SkipWhite(line, pos)
  {
    s := pos;
    while s < |line| && White(line[s])
      invariant pos <= s <= |line| && SkipWhite(line, s) == SkipWhite(line, pos)
    {
      s := s + 1;
    }
  }

  /** gettoken's loop over the characters of a word. */
  method SkipWord(line: string, q: nat) returns (s: nat)
    requires q <= |line|
    ensures s == WordEnd(line, q)
  {
    s := q;
    while s < |line| && !White(line[s]) && !Symbol(line[s])
      invariant q <= s <= |line| && WordEnd(line, s) == WordEnd(line, q)
    {
      s := s + 1;
    }
  }

  /** gettoken's switch on the first character. */
  method Classify(line: string, pos: nat, q: nat) returns (kind: char, s: nat)
    requires pos <= |line| && NulFree(line) && q == SkipWhite(line, pos)
    ensures Token(kind, Span(q, s)) == TokenAt(line, pos)
  {
    hide SkipWhite, WordEnd;
    s := q;
    kind := CharAt(line, s);
    if kind == '\0' {
    } else if kind == '>' {
      s := s + 1;
      if CharAt(line, s) == '>' {
        kind := '+';
        s := s + 1;
      }
    } else if Symbol(kind) {
      s := s + 1;
    } else {
      kind := 'a';
      s := SkipWord(line, s);
    }
  }

  method GetToken(line: string, pos: nat) returns (kind: char, w: Span, next: nat)
    requires pos <= |line| && NulFree(line)
    ensures Token(kind, w) == TokenAt(line, pos) && next == SkipWhite(line, w.eq) && pos <= next <= |line|
    ensures kind == '\0' <==> Tokens(line, pos) == []
    ensures kind != '\0' ==>
      pos < next && Tokens(line, pos)[0] == Token(kind, w) && Tokens(line, pos)[1..] == Tokens(line, next)
  {
    hide Tokens, SkipWhite, TokenAt;
    NextTokens(line, pos);
    var q := SkipSpace(line, pos);
    var s;
    kind, s := Classify(line, pos, q);
    w := Span(q, s);
    next := SkipSpace(line, s);
  }

  method Peek(line: string, pos: nat, toks: string) returns (found: bool, next: nat)
    requires pos <= |line| && NulFree(line)
    ensures next == SkipWhite(line, pos) && pos <= next <= |line| && (found <==> next < |line| && line[next] in toks)
    ensures Tokens(line, next) == Tokens(line, pos)
    ensures next < |line| <==> Tokens(line, pos) != []
    ensures next < |line| ==> StartsToken(line[next], Tokens(line, pos)[0].kind) && !White(line[next])
  {
    hide Tokens;
    SkipTokens(line, pos);
    next := SkipSpace(line, pos);
    found := next < |line| && line[next] in toks;
    NextTokens(line, next);
  }

  method ParseLine(line: string, pos: nat) returns (p: Parsed)
    requires pos <= |line| && NulFree(line)
    ensures Agrees(line, pos, p, Line(Tokens(line, pos)))
    decreases |line| - pos, 3
  {
    hide Tokens, SkipWhite, TokenAt, Pipes;
    p := ParsePipe(line, pos);
    if p.Panic? {
      return;
    }
    var cmd, s := p.cmd, p.next;
    ghost var b := Backs(cmd, Tokens(line, s));
    var more;
    more, s := Peek(line, s, "&");
    while more
      invariant pos <= s <= |line| && b == Backs(cmd, Tokens(line, s))
      invariant more <==> Tokens(line, s) != [] && Tokens(line, s)[0].kind == '&'
      decreases |line| - s, more
    {
      var _, _, s1 := GetToken(line, s);
      cmd := Back(cmd);
      more, s := Peek(line, s1, "&");
    }
    assert b == Got(cmd, Tokens(line, s));
    var list;
    list, s := Peek(line, s, ";");
    if list {
      var _, _, s1 := GetToken(line, s);
      var rest := ParseLine(line, s1);
      if rest.Panic? {
        return rest;
      }
      cmd, s := List(cmd, rest.cmd), rest.next;
    }
    return Tree(cmd, s);
  }

  method ParsePipe(line: string, pos: nat) returns (p: Parsed)
    requires pos <= |line| && NulFree(line)
    ensures Agrees(line, pos, p, Pipes(Tokens(line, pos)))
    decreases |line| - pos, 2
  {
    hide Tokens, SkipWhite, TokenAt, Item;
    p := ParseExec(line, pos);
    if p.Panic? {
      return;
    }
    var pipe, s := Peek(line, p.next, "|");
    if pipe {
      var _, _, s1 := GetToken(line, s);
      var rest := ParsePipe(line, s1);
      if rest.Panic? {
        return rest;
      }
      return Tree(Pipe(p.cmd, rest.cmd), rest.next);
    }
    return Tree(p.cmd, s);
  }

  method ParseRedirs(cmd: Cmd, line: string, pos: nat) returns (p: Parsed)
    requires pos <= |line| && NulFree(line)
    ensures Agrees(line, pos, p, Redirs(cmd, Tokens(line, pos)))
  {
    hide Tokens, SkipWhite, TokenAt;
    var c := cmd;
    ghost var r := Redirs(cmd, Tokens(line, pos));
    var more, s := Peek(line, pos, "<>");
    while more
      invariant pos <= s <= |line| && r == Redirs(c, Tokens(line, s))
      invariant more <==> Tokens(line, s) != [] && RedirOp(Tokens(line, s)[0].kind)
      decreases |line| - s, more
    {
      ghost var ts := Tokens(line, s);
      var tok, _, s1 := GetToken(line, s);
      var kind, w, s2 := GetToken(line, s1);
      if kind != 'a' {
        return Panic("missing file for redirection");
      }
      assert ts[1] == Token(kind, w) && ts[2..] == Tokens(line, s2);
      match tok {
        case '<' => c := Redir(c, w, O_RDONLY, 0);
        case '>' => c := Redir(c, w, O_WRONLY + O_CREATE + O_TRUNC, 1);
        case _ => c := Redir(c, w, O_WRONLY + O_CREATE, 1);
      }
      more, s := Peek(line, s2, "<>");
    }
    return Tree(c, s);
  }

  method ParseBlock(line: string, pos: nat) returns (p: Parsed)
    requires pos <= |line| && NulFree(line) && Tokens(line, pos) != [] && Tokens(line, pos)[0].kind == '('
    ensures Agrees(line, pos, p, Item(Tokens(line, pos)))
    decreases |line| - pos, 0
  {
    hide Tokens, SkipWhite, TokenAt, Line, Redirs;
    var open, s := Peek(line, pos, "(");
    if !open {
      return Panic("parseblock");
    }
    var _, _, s1 := GetToken(line, s);
    p := ParseLine(line, s1);
    if p.Panic? {
      return;
    }
    var close, s2 := Peek(line, p.next, ")");
    if !close {
      return Panic("syntax - missing )");
    }
    var _, _, s3 := GetToken(line, s2);
    p := ParseRedirs(p.cmd, line, s3);
  }

  method ParseExec(line: string, pos: nat) returns (p: Parsed)
    requires pos <= |line| && NulFree(line)
    ensures Agrees(line, pos, p, Item(Tokens(line, pos)))
    decreases |line| - pos, 1
  {
    hide Tokens, SkipWhite, TokenAt, Line, Redirs;
    var open, s := Peek(line, pos, "(");
    if open {
      p := ParseBlock(line, s);
      return;
    }
    var argc := 0;
    p := ParseRedirs(Exec([]), line, s);
    if p.Panic? {
      return;
    }
    var ret := p.cmd;
    s := p.next;
    ghost var r := Args(ret, 0, Tokens(line, s));
    var stop;
    stop, s := Peek(line, s, "|)&;");
    while !stop
      invariant pos <= s <= |line| && argc < MAXARGS && r == Args(ret, argc, Tokens(line, s))
      invariant stop <==> Tokens(line, s) != [] && Stops(Tokens(line, s)[0].kind)
      decreases |line| - s, !stop
    {
      var tok, w, s1 := GetToken(line, s);
      if tok == '\0' {
        break;
      }
      if tok != 'a' {
        return Panic("syntax");
      }
      ret := AddArg(ret, w);
      argc := argc + 1;
      if argc >= MAXARGS {
        return Panic("too many args");
      }
      p := ParseRedirs(ret, line, s1);
      if p.Panic? {
        return;
      }
      ret := p.cmd;
      stop, s := Peek(line, p.next, "|)&;");
    }
    return Tree(ret, s);
  }

  // Soundness: what the functions get is what the grammar says.

  /** Every command has fewer arguments than the shell can hold. */
  predicate Few(c: Cmd) {
    match c
    case Exec(args) => |args| < MAXARGS
    case Redir(c, _, _, _) => Few(c)
    case Pipe(l, r) => Few(l) && Few(r)
    case List(l, r) => Few(l) && Few(r)
    case Back(c) => Few(c)
  }

  function NumArgs(c: Cmd): nat {
    match c
    case Exec(args) => |args|
    case Redir(c, _, _, _) => NumArgs(c)
    case _ => 0
  }

  lemma {:induction false} FewArgs(c: Cmd)
    requires ExecUnder(c)
    ensures Few(c) <==> NumArgs(c) < MAXARGS
  {
    match c
    case Exec(_) =>
    case Redir(c, _, _, _) => FewArgs(c);
  }

  lemma {:induction false} AddNum(c: Cmd, w: Span)
    requires ExecUnder(c)
    ensures ExecUnder(AddArg(c, w)) && NumArgs(AddArg(c, w)) == NumArgs(c) + 1
  {
    match c
    case Exec(_) =>
    case Redir(c, _, _, _) => AddNum(c, w);
  }

  /** `rest` is what is left of `ts` when `us` is read. */
  ghost predicate Reads(ts: seq<Token>, us: seq<Token>, rest: seq<Token>) {
    ts == us + rest
  }

  /** Redirections, each an operator and a word, wrapped around a command. */
  ghost predicate Wraps(c: Cmd, c': Cmd, us: seq<Token>)
    decreases |us|
  {
    if us == [] then c' == c
    else EndsInRedir(us) && RedirectedBy(c', us) && Wraps(c, c'.cmd, us[..|us| - 2])
  }

  lemma {:induction false} WrapsFront(c: Cmd, c': Cmd, op: Token, file: Token, us: seq<Token>)
    requires RedirOp(op.kind) && file.kind == 'a' && Wraps(Redirected(c, op.kind, file.span), c', us)
    ensures Wraps(c, c', [op, file] + us)
    decreases |us|
  {
    var vs := [op, file] + us;
    if us == [] {
      assert vs[..0] == [];
    } else {
      WrapsFront(c, c'.cmd, op, file, us[..|us| - 2]);
      assert vs[..|vs| - 2] == [op, file] + us[..|us| - 2];
    }
  }

  /** Redirections behind a simple command, or behind a block, make one with them. */
  lemma {:induction false} WrapsKind(c: Cmd, c': Cmd, ts: seq<Token>, us: seq<Token>, block: bool)
    requires Wraps(c, c', us) && (if block then IsBlock(c, ts) else IsSimple(c, ts))
    ensures if block then IsBlock(c', ts + us) else IsSimple(c', ts + us)
    decreases |us|
  {
    if us == [] {
      assert ts + us == ts;
    } else {
      var n := |us|;
      WrapsKind(c, c'.cmd, ts, us[..n - 2], block);
      var vs := ts + us;
      assert vs[..|vs| - 2] == ts + us[..n - 2];
      assert vs[|vs| - 2] == us[n - 2] && vs[|vs| - 1] == us[n - 1];
    }
  }

  lemma {:induction false} WrapsNum(c: Cmd, c': Cmd, us: seq<Token>)
    requires Wraps(c, c', us)
    ensures (Few(c) ==> Few(c')) && NumArgs(c') == NumArgs(c) && (us == [] || us[|us| - 1].kind == 'a')
    decreases |us|
  {
    if us != [] {
      WrapsNum(c, c'.cmd, us[..|us| - 2]);
    }
  }

  lemma {:induction false} RedirsSound(c: Cmd, ts: seq<Token>) returns (us: seq<Token>)
    requires Redirs(c, ts).Got?
    ensures Reads(ts, us, Redirs(c, ts).rest) && Wraps(c, Redirs(c, ts).cmd, us)
    decreases |ts|
  {
    if ts == [] || !RedirOp(ts[0].kind) {
      us := [];
    } else {
      var vs := RedirsSound(Redirected(c, ts[0].kind, ts[1].span), ts[2..]);
      us := [ts[0], ts[1]] + vs;
      WrapsFront(c, Redirs(c, ts).cmd, ts[0], ts[1], vs);
      assert ts == [ts[0], ts[1]] + ts[2..];
    }
  }

  /** A word behind a simple command is one more argument; what is before it does not end in an operator. */
  lemma {:induction false} ArgAdded(c: Cmd, ts: seq<Token>, t: Token)
    requires IsSimple(c, ts) && t.kind == 'a' && (ts == [] || ts[|ts| - 1].kind == 'a')
    ensures IsSimple(AddArg(c, t.span), ts + [t])
  {
    var us := ts + [t];
    SimpleExec(c, ts);
    AddDrop(c, t.span);
    assert !EndsInRedir(us);
    assert us[..|us| - 1] == ts;
  }

  /** One round of parseexec's loop: a word and the redirections behind it. */
  lemma {:induction false} ArgRound(c: Cmd, done: seq<Token>, w: Token, ts: seq<Token>) returns (vs: seq<Token>)
    requires IsSimple(c, done) && w.kind == 'a' && (done == [] || done[|done| - 1].kind == 'a')
    requires Redirs(AddArg(c, w.span), ts).Got?
    ensures Reads(ts, vs, Redirs(AddArg(c, w.span), ts).rest)
    ensures IsSimple(Redirs(AddArg(c, w.span), ts).cmd, done + [w] + vs)
    ensures NumArgs(Redirs(AddArg(c, w.span), ts).cmd) == NumArgs(c) + 1 && (vs == [] || vs[|vs| - 1].kind == 'a')
  {
    hide IsSimple, Wraps, Redirs, NumArgs, AddArg;
    SimpleExec(c, done);
    AddNum(c, w.span);
    ArgAdded(c, done, w);
    vs := RedirsSound(AddArg(c, w.span), ts);
    WrapsKind(AddArg(c, w.span), Redirs(AddArg(c, w.span), ts).cmd, done + [w], vs, false);
    WrapsNum(AddArg(c, w.span), Redirs(AddArg(c, w.span), ts).cmd, vs);
  }

  lemma {:induction false} ArgsSound(c: Cmd, argc: nat, ts: seq<Token>, done: seq<Token>) returns (us: seq<Token>)
    requires Args(c, argc, ts).Got? && IsSimple(c, done) && (done == [] || done[|done| - 1].kind == 'a')
    requires NumArgs(c) == argc < MAXARGS
    ensures Reads(ts, us, Args(c, argc, ts).rest) && IsSimple(Args(c, argc, ts).cmd, done + us)
    ensures NumArgs(Args(c, argc, ts).cmd) < MAXARGS
    decreases |ts|
  {
    hide IsSimple, Redirs, NumArgs, AddArg;
    if ts == [] || Stops(ts[0].kind) {
      us := [];
      assert done + us == done;
    } else {
      var vs := ArgRound(c, done, ts[0], ts[1..]);
      var r := Redirs(AddArg(c, ts[0].span), ts[1..]);
      LastIsWord(done, ts[0], vs);
      var xs := ArgsSound(r.cmd, argc + 1, r.rest, done + [ts[0]] + vs);
      us := [ts[0]] + vs + xs;
      Regroup(done, ts[0], vs, xs, ts[1..], Args(c, argc, ts).rest);
      assert ts == [ts[0]] + ts[1..];
    }
  }

  lemma LastIsWord(done: seq<Token>, w: Token, vs: seq<Token>)
    requires w.kind == 'a' && (vs == [] || vs[|vs| - 1].kind == 'a')
    ensures var us := done + [w] + vs; us[|us| - 1].kind == 'a'
  {
  }

  lemma Regroup(done: seq<Token>, w: Token, vs: seq<Token>, xs: seq<Token>, ts: seq<Token>, rest: seq<Token>)
    requires ts == vs + (xs + rest)
    ensures done + [w] + vs + xs == done + ([w] + vs + xs) && [w] + ts == [w] + vs + xs + rest
  {
  }

  lemma {:induction false} ItemSound(ts: seq<Token>) returns (us: seq<Token>)
    requires Item(ts).Got?
    ensures Reads(ts, us, Item(ts).rest) && IsItem(Item(ts).cmd, us) && Few(Item(ts).cmd)
    decreases |ts|, 0
  {
    hide IsSimple, IsBlock, Wraps, Redirs, Args, Line, Few;
    if ts != [] && ts[0].kind == '(' {
      var r := Line(ts[1..]);
      var vs := LineSound(ts[1..]);
      var xs := RedirsSound(r.cmd, r.rest[1..]);
      us := [ts[0]] + vs + [r.rest[0]] + xs;
      Enclosed(r.cmd, ts[0], vs, r.rest[0]);
      WrapsKind(r.cmd, Item(ts).cmd, [ts[0]] + vs + [r.rest[0]], xs, true);
      WrapsNum(r.cmd, Item(ts).cmd, xs);
      assert ts == [ts[0]] + ts[1..] && r.rest == [r.rest[0]] + r.rest[1..];
    } else {
      var r := Redirs(Exec([]), ts);
      var vs := RedirsSound(Exec([]), ts);
      NoTokens();
      WrapsKind(Exec([]), r.cmd, [], vs, false);
      WrapsNum(Exec([]), r.cmd, vs);
      assert [] + vs == vs;
      var xs := ArgsSound(r.cmd, 0, r.rest, vs);
      us := vs + xs;
      SimpleExec(Item(ts).cmd, us);
      FewArgs(Item(ts).cmd);
    }
  }

  lemma NoTokens()
    ensures IsSimple(Exec([]), [])
  {
  }

  lemma Enclosed(c: Cmd, open: Token, us: seq<Token>, close: Token)
    requires IsLine(c, us) && open.kind == '(' && close.kind == ')'
    ensures IsBlock(c, [open] + us + [close])
  {
    hide IsLine;
    var ts := [open] + us + [close];
    assert ts[1..|ts| - 1] == us;
  }

  /** Taking a joined sequence apart again. */
  lemma Joined(a: seq<Token>, t: Token, b: seq<Token>)
    ensures (a + [t] + b)[..|a|] == a && (a + [t] + b)[|a|] == t && (a + [t] + b)[|a| + 1..] == b
  {
  }

  lemma {:induction false} PipesSound(ts: seq<Token>) returns (us: seq<Token>)
    requires Pipes(ts).Got?
    ensures Reads(ts, us, Pipes(ts).rest) && IsPipe(Pipes(ts).cmd, us) && Few(Pipes(ts).cmd)
    decreases |ts|, 1
  {
    hide Item, IsItem;
    var r := Item(ts);
    us := ItemSound(ts);
    if r.rest != [] && r.rest[0].kind == '|' {
      var vs := PipesSound(r.rest[1..]);
      Joined(us, r.rest[0], vs);
      assert ts == us + ([r.rest[0]] + (vs + Pipes(ts).rest));
      us := us + [r.rest[0]] + vs;
    }
  }

  lemma {:induction false} BacksSound(c: Cmd, ts: seq<Token>, done: seq<Token>) returns (us: seq<Token>)
    requires IsBacked(c, done) && Few(c)
    ensures Reads(ts, us, Backs(c, ts).rest) && IsBacked(Backs(c, ts).cmd, done + us) && Few(Backs(c, ts).cmd)
    decreases |ts|
  {
    hide IsPipe;
    if ts != [] && ts[0].kind == '&' {
      assert (done + [ts[0]])[..|done|] == done;
      var vs := BacksSound(Back(c), ts[1..], done + [ts[0]]);
      us := [ts[0]] + vs;
      assert ts == [ts[0]] + ts[1..];
      assert done + [ts[0]] + vs == done + us;
    } else {
      us := [];
      assert done + us == done;
    }
  }

  lemma {:induction false} LineSound(ts: seq<Token>) returns (us: seq<Token>)
    requires Line(ts).Got?
    ensures Reads(ts, us, Line(ts).rest) && IsLine(Line(ts).cmd, us) && Few(Line(ts).cmd)
    decreases |ts|, 2
  {
    hide Pipes, IsPipe, IsBacked;
    var r := Pipes(ts);
    var vs := PipesSound(ts);
    PipeIsBacked(r.cmd, vs);
    var xs := BacksSound(r.cmd, r.rest, vs);
    var b := Backs(r.cmd, r.rest);
    us := vs + xs;
    if b.rest != [] && b.rest[0].kind == ';' {
      var zs := LineSound(b.rest[1..]);
      Joined(us, b.rest[0], zs);
      assert ts == us + ([b.rest[0]] + (zs + Line(ts).rest));
      us := us + [b.rest[0]] + zs;
    }
  }

  lemma PipeIsBacked(c: Cmd, ts: seq<Token>)
    requires IsPipe(c, ts)
    ensures IsBacked(c, ts)
  {
    hide IsPipe;
  }

  // Completeness: what the grammar says is what the functions get.

  lemma Cut(ts: seq<Token>, k: nat, rest: seq<Token>)
    requires k < |ts|
    ensures ts[..k] + (ts[k..] + rest) == ts + rest
    ensures ts[k..] + rest != [] && (ts[k..] + rest)[0] == ts[k] && (ts[k..] + rest)[1..] == ts[k + 1..] + rest
    ensures ts[k..] + rest == [ts[k]] + (ts[k + 1..] + rest)
  {
  }

  lemma CutTwo(ts: seq<Token>, rest: seq<Token>)
    requires |ts| >= 2
    ensures ts[|ts| - 2..] + rest == [ts[|ts| - 2], ts[|ts| - 1]] + rest
  {
  }

  lemma CutLast(ts: seq<Token>, rest: seq<Token>)
    requires |ts| >= 1
    ensures ts[|ts| - 1..] + rest == [ts[|ts| - 1]] + rest && (ts[|ts| - 1..] + rest)[1..] == rest
  {
  }

  lemma {:induction false} RedirsThrough(c: Cmd, c': Cmd, us: seq<Token>, rest: seq<Token>)
    requires Wraps(c, c', us)
    ensures Redirs(c, us + rest) == Redirs(c', rest)
    decreases |us|
  {
    var n := |us|;
    if us == [] {
      assert us + rest == rest;
    } else {
      RedirsThrough(c, c'.cmd, us[..n - 2], us[n - 2..] + rest);
      Cut(us, n - 2, rest);
      CutTwo(us, rest);
      RedirsStep(c'.cmd, us[n - 2], us[n - 1], rest);
    }
  }

  lemma {:induction false} RedirsStep(c: Cmd, op: Token, file: Token, rest: seq<Token>)
    requires RedirOp(op.kind) && file.kind == 'a'
    ensures Redirs(c, [op, file] + rest) == Redirs(Redirected(c, op.kind, file.span), rest)
  {
    assert ([op, file] + rest)[2..] == rest;
  }

  /** Redirections and then the loop of parseexec. */
  ghost function Simple(c: Cmd, argc: nat, ts: seq<Token>): Outcome {
    var r := Redirs(c, ts);
    if r.Fail? then Fail else Args(r.cmd, argc, r.rest)
  }

  lemma {:induction false} AddLast(c: Cmd, w: Span)
    requires LastArg(c, w)
    ensures AddArg(DropArg(c), w) == c && NumArgs(c) == NumArgs(DropArg(c)) + 1
  {
    match c
    case Exec(args) => assert args == args[..|args| - 1] + [w];
    case Redir(c, _, _, _) => AddLast(c, w);
  }

  lemma {:induction false} SimpleThrough(c: Cmd, ts: seq<Token>, rest: seq<Token>)
    requires IsSimple(c, ts) && NumArgs(c) < MAXARGS
    ensures Simple(Exec([]), 0, ts + rest) == Simple(c, NumArgs(c), rest)
    decreases |ts|
  {
    hide Redirs, Args;
    var n := |ts|;
    if ts == [] {
      assert ts + rest == rest;
    } else if EndsInRedir(ts) {
      SimpleThrough(c.cmd, ts[..n - 2], ts[n - 2..] + rest);
      Cut(ts, n - 2, rest);
      CutTwo(ts, rest);
      RedirsStep(c.cmd, ts[n - 2], ts[n - 1], rest);
    } else {
      var w := ts[n - 1];
      AddLast(c, w.span);
      SimpleThrough(DropArg(c), ts[..n - 1], ts[n - 1..] + rest);
      Cut(ts, n - 1, rest);
      CutLast(ts, rest);
      ArgStep(DropArg(c), NumArgs(DropArg(c)), w, rest);
    }
  }

  lemma {:induction false} ArgStep(c: Cmd, argc: nat, w: Token, rest: seq<Token>)
    requires w.kind == 'a' && argc + 1 < MAXARGS
    ensures Simple(c, argc, [w] + rest) == Simple(AddArg(c, w.span), argc + 1, rest)
  {
    assert ([w] + rest)[1..] == rest;
    assert Redirs(c, [w] + rest) == Got(c, [w] + rest);
  }

  lemma {:induction false} SimpleKinds(c: Cmd, ts: seq<Token>)
    requires IsSimple(c, ts) && ts != []
    ensures ts[0].kind == 'a' || RedirOp(ts[0].kind)
    decreases |ts|
  {
    if EndsInRedir(ts) {
      if |ts| > 2 {
        SimpleKinds(c.cmd, ts[..|ts| - 2]);
      }
    } else if |ts| > 1 {
      SimpleKinds(DropArg(c), ts[..|ts| - 1]);
    }
  }

  /** What may follow an item. */
  predicate Follows(rest: seq<Token>) {
    rest == [] || Stops(rest[0].kind)
  }

  lemma {:induction false} ItemComplete(c: Cmd, ts: seq<Token>, rest: seq<Token>)
    requires IsItem(c, ts) && Few(c) && Follows(rest)
    ensures Item(ts + rest) == Got(c, rest)
    decreases |ts|, 1
  {
    if IsSimple(c, ts) {
      SimpleExec(c, ts);
      FewArgs(c);
      SimpleThrough(c, ts, rest);
      if ts != [] {
        SimpleKinds(c, ts);
      } else {
        assert ts + rest == rest;
      }
      assert Item(ts + rest) == Simple(Exec([]), 0, ts + rest);
    } else {
      BlockThrough(c, ts, rest);
    }
  }

  lemma Inside(ts: seq<Token>, rest: seq<Token>)
    requires |ts| >= 2
    ensures (ts + rest)[1..] == ts[1..|ts| - 1] + ([ts[|ts| - 1]] + rest) && ([ts[|ts| - 1]] + rest)[1..] == rest
    ensures (ts + rest)[0] == ts[0] && ([ts[|ts| - 1]] + rest)[0] == ts[|ts| - 1]
  {
  }

  lemma {:induction false} BlockThrough(c: Cmd, ts: seq<Token>, rest: seq<Token>)
    requires IsBlock(c, ts) && Few(c)
    ensures Item(ts + rest) == Redirs(c, rest)
    decreases |ts|, 0
  {
    hide IsLine, Line, Redirs;
    var n := |ts|;
    if EndsInRedir(ts) {
      BlockThrough(c.cmd, ts[..n - 2], ts[n - 2..] + rest);
      Cut(ts, n - 2, rest);
      CutTwo(ts, rest);
      RedirsStep(c.cmd, ts[n - 2], ts[n - 1], rest);
    } else {
      LineComplete(c, ts[1..n - 1], [ts[n - 1]] + rest);
      Inside(ts, rest);
    }
  }

  lemma {:induction false} PipesComplete(c: Cmd, ts: seq<Token>, rest: seq<Token>)
    requires IsPipe(c, ts) && Few(c) && Follows(rest) && (rest == [] || rest[0].kind != '|')
    ensures Pipes(ts + rest) == Got(c, rest)
    decreases |ts|, 2
  {
    hide Item, IsItem;
    if IsItem(c, ts) {
      ItemComplete(c, ts, rest);
    } else {
      var k :| 0 <= k < |ts| && ts[k].kind == '|' && IsItem(c.left, ts[..k]) && IsPipe(c.right, ts[k + 1..]);
      Cut(ts, k, rest);
      ItemComplete(c.left, ts[..k], ts[k..] + rest);
      PipesComplete(c.right, ts[k + 1..], rest);
    }
  }

  /** parsepipe and then the loop of parseline. */
  ghost function Backed(ts: seq<Token>): Outcome {
    var r := Pipes(ts);
    if r.Fail? then Fail else Backs(r.cmd, r.rest)
  }

  lemma {:induction false} BacksThrough(c: Cmd, ts: seq<Token>, rest: seq<Token>)
    requires IsBacked(c, ts) && Few(c) && Follows(rest) && (rest == [] || rest[0].kind != '|')
    ensures Backed(ts + rest) == Backs(c, rest)
    decreases |ts|, 3
  {
    hide Pipes, IsPipe;
    if IsPipe(c, ts) {
      PipesComplete(c, ts, rest);
    } else {
      var n := |ts|;
      Cut(ts, n - 1, rest);
      CutLast(ts, rest);
      BacksThrough(c.cmd, ts[..n - 1], ts[n - 1..] + rest);
    }
  }

  lemma {:induction false} LineComplete(c: Cmd, ts: seq<Token>, rest: seq<Token>)
    requires IsLine(c, ts) && Few(c) && (rest == [] || rest[0].kind == ')')
    ensures Line(ts + rest) == Got(c, rest)
    decreases |ts|, 4
  {
    hide Pipes, IsBacked;
    if IsBacked(c, ts) {
      BacksThrough(c, ts, rest);
      assert Backed(ts + rest) == Got(c, rest);
    } else {
      var k :| 0 <= k < |ts| && ts[k].kind == ';' && IsBacked(c.left, ts[..k]) && IsLine(c.right, ts[k + 1..]);
      Cut(ts, k, rest);
      BacksThrough(c.left, ts[..k], ts[k..] + rest);
      assert Backed(ts + rest) == Got(c.left, ts[k..] + rest);
      LineComplete(c.right, ts[k + 1..], rest);
    }
  }

  /** The parser accepts exactly the lines of the grammar whose commands have few enough arguments, and
      no line has two trees. */
  lemma {:induction false} Accepts(ts: seq<Token>, c: Cmd)
    ensures Line(ts) == Got(c, []) <==> IsLine(c, ts) && Few(c)
  {
    if Line(ts) == Got(c, []) {
      var us := LineSound(ts);
      assert us == ts;
    }
    if IsLine(c, ts) && Few(c) {
      LineComplete(c, ts, []);
      assert ts + [] == ts;
    }
  }

  ghost function ArgEnds(args: seq<Span>): set<nat> {
    if args == [] then {} else ArgEnds(args[..|args| - 1]) + {args[|args| - 1].eq}
  }

  /** The positions that a tree's end pointers point to. */
  ghost function Ends(c: Cmd): set<nat> {
    match c
    case Exec(args) => ArgEnds(args)
    case Redir(c, f, _, _) => Ends(c) + {f.eq}
    case Pipe(l, r) => Ends(l) + Ends(r)
    case List(l, r) => Ends(l) + Ends(r)
    case Back(c) => Ends(c)
  }

  /** NUL-terminate all the counted strings, in place. */
  method NulTerminate(c: Cmd, buf: array<char>)
    requires forall e | e in Ends(c) :: e < buf.Length
    modifies buf
    ensures forall i | 0 <= i < buf.Length :: buf[i] == if i in Ends(c) then '\0' else old(buf[i])
    decreases c
  {
    match c
    case Exec(args) =>
      assert Ends(c) == ArgEnds(args);
      EndArgs(args, buf);
    case Redir(c1, f, _, _) =>
      assert Ends(c) == Ends(c1) + {f.eq};
      NulTerminate(c1, buf);
      buf[f.eq] := '\0';
    case Pipe(l, r) =>
      assert Ends(c) == Ends(l) + Ends(r);
      NulTerminate(l, buf);
      NulTerminate(r, buf);
    case List(l, r) =>
      assert Ends(c) == Ends(l) + Ends(r);
      NulTerminate(l, buf);
      NulTerminate(r, buf);
    case Back(c1) =>
      assert Ends(c) == Ends(c1);
      NulTerminate(c1, buf);
  }

  /** nulterminate's loop over the arguments. */
  method EndArgs(args: seq<Span>, buf: array<char>)
    requires forall e | e in ArgEnds(args) :: e < buf.Length
    modifies buf
    ensures forall k | 0 <= k < buf.Length :: buf[k] == if k in ArgEnds(args) then '\0' else old(buf[k])
  {
    var i := 0;
    while i < |args|
      invariant 0 <= i <= |args|
      invariant forall k | 0 <= k < buf.Length :: buf[k] == if k in ArgEnds(args[..i]) then '\0' else old(buf[k])
    {
      ArgEndIn(args, i);
      assert args[..i + 1][..i] == args[..i];
      buf[args[i].eq] := '\0';
      i := i + 1;
    }
    assert args[..|args|] == args;
  }

  lemma {:induction false} ArgEndIn(args: seq<Span>, i: nat)
    requires i < |args|
    ensures args[i].eq in ArgEnds(args)
  {
    if i < |args| - 1 {
      ArgEndIn(args[..|args| - 1], i);
    }
  }

  lemma {:induction false} ArgEndsAre(args: seq<Span>, e: nat)
    requires e in ArgEnds(args)
    ensures exists w :: w in args && w.eq == e
  {
    var last := args[|args| - 1];
    if last.eq == e {
      assert last in args;
    } else {
      ArgEndsAre(args[..|args| - 1], e);
      var w :| w in args[..|args| - 1] && w.eq == e;
      assert w in args;
    }
  }

  /** Every end pointer ends a word of the tree. */
  lemma {:induction false} EndsAre(c: Cmd, e: nat) returns (w: Span)
    requires e in Ends(c)
    ensures w in TreeWords(c) && w.eq == e
    decreases c
  {
    match c
    case Exec(args) =>
      ArgEndsAre(args, e);
      w :| w in args && w.eq == e;
    case Redir(c1, f, _, _) =>
      if f.eq == e {
        w := f;
      } else {
        w := EndsAre(c1, e);
      }
    case Pipe(l, r) =>
      if e in Ends(l) {
        w := EndsAre(l, e);
      } else {
        w := EndsAre(r, e);
      }
    case List(l, r) =>
      if e in Ends(l) {
        w := EndsAre(l, e);
      } else {
        w := EndsAre(r, e);
      }
    case Back(c1) =>
      w := EndsAre(c1, e);
  }

  lemma {:induction false} WordEnds(c: Cmd, w: Span)
    requires w in TreeWords(c)
    ensures w.eq in Ends(c)
    decreases c
  {
    match c
    case Exec(args) =>
      var i :| 0 <= i < |args| && args[i] == w;
      ArgEndIn(args, i);
    case Redir(c1, f, _, _) =>
      if w != f {
        WordEnds(c1, w);
      }
    case Pipe(l, r) =>
      if w in TreeWords(l) {
        WordEnds(l, w);
      } else {
        WordEnds(r, w);
      }
    case List(l, r) =>
      if w in TreeWords(l) {
        WordEnds(l, w);
      } else {
        WordEnds(r, w);
      }
    case Back(c1) =>
      WordEnds(c1, w);
  }

  /** The C string that starts at a position of the buffer. */
  function CString(buf: seq<char>, q: nat): string
    requires q <= |buf|
    decreases |buf| - q
  {
    if q == |buf| || buf[q] == '\0' then "" else [buf[q]] + CString(buf, q + 1)
  }

  lemma {:induction false} CStringIs(buf: seq<char>, q: nat, e: nat)
    requires q <= e < |buf| && buf[e] == '\0' && forall k | q <= k < e :: buf[k] != '\0'
    ensures CString(buf, q) == buf[q..e]
    decreases e - q
  {
    if q < e {
      CStringIs(buf, q + 1, e);
    }
  }

  lemma TerminatedWord(line: string, buf: seq<char>, ends: set<nat>, w: Span)
    requires NulFree(line) && MaximalRun(line, w) && w.eq in ends && |buf| == |line| + 1
    requires forall e | e in ends :: e <= |line| && (e < |line| ==> !WordChar(line[e]))
    requires forall i | 0 <= i <= |line| :: buf[i] == if i in ends || i == |line| then '\0' else line[i]
    ensures CString(buf, w.q) == line[w.q..w.eq]
  {
    forall k | w.q <= k < w.eq ensures buf[k] == line[k] && buf[k] != '\0' {
      assert line[k] in line;
    }
    CStringIs(buf, w.q, w.eq);
    assert buf[w.q..w.eq] == line[w.q..w.eq];
  }
}
