/** What the characters of a line say about the tree the shell makes of it: which redirections it has, and
    how many pipes, lists and background commands. */
module ShellText {
  import opened Shell

  datatype Redirection = Redirection(file: Span, mode: nat, fd: nat)

  /** The redirections of a tree. */
  ghost function TreeRedirs(c: Cmd): multiset<Redirection> {
    match c
    case Exec(_) => multiset{}
    case Redir(c, f, mode, fd) => TreeRedirs(c) + multiset{Redirection(f, mode, fd)}
    case Pipe(l, r) => TreeRedirs(l) + TreeRedirs(r)
    case List(l, r) => TreeRedirs(l) + TreeRedirs(r)
    case Back(c) => TreeRedirs(c)
  }

  /** A '|' for every pipe of a tree, a ';' for every list and a '&' for every background command. */
  ghost function TreeOps(c: Cmd): multiset<char> {
    match c
    case Exec(_) => multiset{}
    case Redir(c, _, _, _) => TreeOps(c)
    case Pipe(l, r) => TreeOps(l) + multiset{'|'} + TreeOps(r)
    case List(l, r) => TreeOps(l) + multiset{';'} + TreeOps(r)
    case Back(c) => TreeOps(c) + multiset{'&'}
  }

  ghost function RedirFor(kind: char, file: Span): Redirection {
    if kind == '<' then Redirection(file, 0, 0)
    else if kind == '>' then Redirection(file, 0x601, 1)
    else Redirection(file, 0x201, 1)
  }

  ghost function FirstRedir(ts: seq<Token>): multiset<Redirection>
    requires ts != []
  {
    if RedirOp(ts[0].kind) && |ts| > 1 then multiset{RedirFor(ts[0].kind, ts[1].span)} else multiset{}
  }

  /** The redirections among some tokens: an operator with the token behind it. */
  ghost function RedirsOf(ts: seq<Token>): multiset<Redirection> {
    if ts == [] then multiset{} else FirstRedir(ts) + RedirsOf(ts[1..])
  }

  predicate Joins(kind: char) {
    kind == '|' || kind == ';' || kind == '&'
  }

  ghost function OpsOf(ts: seq<Token>): multiset<char> {
    if ts == [] then multiset{}
    else (if Joins(ts[0].kind) then multiset{ts[0].kind} else multiset{}) + OpsOf(ts[1..])
  }

  /** Every redirection operator has its file. */
  ghost predicate HasFiles(ts: seq<Token>) {
    forall k | 0 <= k < |ts| && RedirOp(ts[k].kind) :: k + 1 < |ts| && ts[k + 1].kind == 'a'
  }

  /** The tree has the redirections and the joins of the tokens. */
  ghost predicate Means(c: Cmd, ts: seq<Token>) {
    TreeRedirs(c) == RedirsOf(ts) && TreeOps(c) == OpsOf(ts) && HasFiles(ts)
  }

  lemma TokensSum(a: seq<Token>, b: seq<Token>)
    requires HasFiles(a)
    ensures RedirsOf(a + b) == RedirsOf(a) + RedirsOf(b) && OpsOf(a + b) == OpsOf(a) + OpsOf(b)
    ensures HasFiles(b) ==> HasFiles(a + b)
  {
    hide HasFiles, RedirsOf, OpsOf;
    RedirsSum(a, b);
    OpsSum(a, b);
    FilesJoin(a, b);
  }

  lemma {:induction false} OpsSum(a: seq<Token>, b: seq<Token>)
    ensures OpsOf(a + b) == OpsOf(a) + OpsOf(b)
  {
    if a == [] {
      assert a + b == b;
    } else {
      assert (a + b)[1..] == a[1..] + b;
      OpsSum(a[1..], b);
    }
  }

  lemma {:induction false} RedirsSum(a: seq<Token>, b: seq<Token>)
    requires HasFiles(a)
    ensures RedirsOf(a + b) == RedirsOf(a) + RedirsOf(b)
  {
    hide HasFiles, FirstRedir;
    if a == [] {
      assert a + b == b;
    } else {
      FilesTail(a);
      FirstStays(a, b);
      assert (a + b)[1..] == a[1..] + b;
      RedirsSum(a[1..], b);
    }
  }

  lemma FirstStays(a: seq<Token>, b: seq<Token>)
    requires HasFiles(a) && a != []
    ensures FirstRedir(a + b) == FirstRedir(a)
  {
    assert RedirOp(a[0].kind) ==> |a| > 1 && (a + b)[1] == a[1];
  }

  lemma FilesTail(a: seq<Token>)
    requires HasFiles(a) && a != []
    ensures HasFiles(a[1..])
  {
    forall k | 0 <= k < |a| - 1 && RedirOp(a[1..][k].kind) ensures k + 1 < |a| - 1 && a[1..][k + 1].kind == 'a' {
      assert RedirOp(a[k + 1].kind);
    }
  }

  lemma FilesJoin(a: seq<Token>, b: seq<Token>)
    requires HasFiles(a)
    ensures HasFiles(b) ==> HasFiles(a + b)
  {
    if HasFiles(b) {
      forall k | 0 <= k < |a + b| && RedirOp((a + b)[k].kind) ensures k + 1 < |a + b| && (a + b)[k + 1].kind == 'a' {
        if k < |a| {
          assert RedirOp(a[k].kind);
        } else {
          assert RedirOp(b[k - |a|].kind);
        }
      }
    }
  }

  lemma OneToken(t: Token)
    requires !RedirOp(t.kind)
    ensures RedirsOf([t]) == multiset{} && HasFiles([t]) && OpsOf([t]) == if Joins(t.kind) then multiset{t.kind} else multiset{}
  {
    assert [t][1..] == [];
  }

  /** An operator with its file behind some tokens. */
  lemma RedirAdded(c: Cmd, ts: seq<Token>)
    requires EndsInRedir(ts) && RedirectedBy(c, ts) && Means(c.cmd, ts[..|ts| - 2])
    ensures Means(c, ts)
  {
    var n := |ts|;
    var op, file := ts[n - 2], ts[n - 1];
    assert ts == ts[..n - 2] + [op, file];
    assert [op, file][1..] == [file];
    OneToken(file);
    assert HasFiles([op, file]);
    TokensSum(ts[..n - 2], [op, file]);
    assert RedirsOf([op, file]) == multiset{RedirFor(op.kind, file.span)};
  }

  /** A token that is no operator behind some tokens. */
  lemma TokenAdded(ts: seq<Token>)
    requires ts != [] && HasFiles(ts[..|ts| - 1]) && !RedirOp(ts[|ts| - 1].kind)
    ensures var n, t := |ts| - 1, ts[|ts| - 1];
      && HasFiles(ts) && RedirsOf(ts) == RedirsOf(ts[..n])
      && OpsOf(ts) == OpsOf(ts[..n]) + if Joins(t.kind) then multiset{t.kind} else multiset{}
  {
    var n, t := |ts| - 1, ts[|ts| - 1];
    assert ts == ts[..n] + [t];
    OneToken(t);
    TokensSum(ts[..n], [t]);
  }

  lemma {:induction false} DropSame(c: Cmd)
    ensures TreeRedirs(DropArg(c)) == TreeRedirs(c) && TreeOps(DropArg(c)) == TreeOps(c)
  {
    if c.Redir? {
      DropSame(c.cmd);
    }
  }

  lemma NothingMeans()
    ensures Means(Exec([]), [])
  {
  }

  lemma {:induction false} SimpleMeans(c: Cmd, ts: seq<Token>)
    requires IsSimple(c, ts)
    ensures Means(c, ts)
    decreases |ts|
  {
    hide RedirsOf, OpsOf, HasFiles, TreeRedirs, TreeOps;
    if ts == [] {
      NothingMeans();
    } else if EndsInRedir(ts) {
      SimpleMeans(c.cmd, ts[..|ts| - 2]);
      RedirAdded(c, ts);
    } else {
      SimpleMeans(DropArg(c), ts[..|ts| - 1]);
      DropSame(c);
      TokenAdded(ts);
    }
  }

  lemma {:induction false} BlockMeans(c: Cmd, ts: seq<Token>)
    requires IsBlock(c, ts)
    ensures Means(c, ts)
    decreases |ts|, 0
  {
    hide Means, IsLine;
    if EndsInRedir(ts) {
      BlockMeans(c.cmd, ts[..|ts| - 2]);
      RedirAdded(c, ts);
    } else {
      LineMeans(c, ts[1..|ts| - 1]);
      ParensMean(c, ts);
    }
  }

  lemma ParensMean(c: Cmd, ts: seq<Token>)
    requires |ts| >= 2 && ts[0].kind == '(' && ts[|ts| - 1].kind == ')' && Means(c, ts[1..|ts| - 1])
    ensures Means(c, ts)
  {
    hide RedirsOf, OpsOf, HasFiles, TreeRedirs, TreeOps;
    var n := |ts| - 1;
    assert ts[..n] == [ts[0]] + ts[1..n];
    OneToken(ts[0]);
    TokensSum([ts[0]], ts[1..n]);
    TokenAdded(ts);
  }

  /** Two trees joined by a token. */
  lemma JoinMeans(l: Cmd, r: Cmd, ts: seq<Token>, k: nat)
    requires k < |ts| && Joins(ts[k].kind) && Means(l, ts[..k]) && Means(r, ts[k + 1..])
    ensures HasFiles(ts) && RedirsOf(ts) == TreeRedirs(l) + TreeRedirs(r)
    ensures OpsOf(ts) == TreeOps(l) + multiset{ts[k].kind} + TreeOps(r)
  {
    hide RedirsOf, OpsOf, HasFiles, TreeRedirs, TreeOps;
    assert ts == ts[..k] + ([ts[k]] + ts[k + 1..]);
    OneToken(ts[k]);
    TokensSum([ts[k]], ts[k + 1..]);
    TokensSum(ts[..k], [ts[k]] + ts[k + 1..]);
  }

  lemma {:induction false} PipeMeans(c: Cmd, ts: seq<Token>)
    requires IsPipe(c, ts)
    ensures Means(c, ts)
    decreases |ts|, 2
  {
    hide Means;
    if IsSimple(c, ts) {
      SimpleMeans(c, ts);
    } else if IsBlock(c, ts) {
      BlockMeans(c, ts);
    } else {
      var k :| 0 <= k < |ts| && ts[k].kind == '|' && IsItem(c.left, ts[..k]) && IsPipe(c.right, ts[k + 1..]);
      PipeMeans(c.left, ts[..k]);
      PipeMeans(c.right, ts[k + 1..]);
      JoinMeans(c.left, c.right, ts, k);
      Meant(c, ts);
    }
  }

  lemma Meant(c: Cmd, ts: seq<Token>)
    requires TreeRedirs(c) == RedirsOf(ts) && TreeOps(c) == OpsOf(ts) && HasFiles(ts)
    ensures Means(c, ts)
  {
  }

  lemma {:induction false} BackedMeans(c: Cmd, ts: seq<Token>)
    requires IsBacked(c, ts)
    ensures Means(c, ts)
    decreases |ts|, 3
  {
    if IsPipe(c, ts) {
      PipeMeans(c, ts);
    } else {
      BackedMeans(c.cmd, ts[..|ts| - 1]);
      TokenAdded(ts);
    }
  }

  lemma {:induction false} LineMeans(c: Cmd, ts: seq<Token>)
    requires IsLine(c, ts)
    ensures Means(c, ts)
    decreases |ts|, 4
  {
    hide Means;
    if IsBacked(c, ts) {
      BackedMeans(c, ts);
    } else {
      var k :| 0 <= k < |ts| && ts[k].kind == ';' && IsBacked(c.left, ts[..k]) && IsLine(c.right, ts[k + 1..]);
      BackedMeans(c.left, ts[..k]);
      LineMeans(c.right, ts[k + 1..]);
      JoinMeans(c.left, c.right, ts, k);
      Meant(c, ts);
    }
  }

  // From tokens to characters.

  predicate Blank(c: char) {
    c in " \t\r\n\U{0b}"
  }

  /** Where the text before a position ends, blanks left out. */
  ghost function TextEnd(line: string, q: nat): (e: nat)
    requires q <= |line|
    ensures e <= q && (e > 0 ==> !Blank(line[e - 1])) && forall k | e <= k < q :: Blank(line[k])
  {
    if q > 0 && Blank(line[q - 1]) then TextEnd(line, q - 1) else q
  }

  /** The mode and the descriptor that the operator ending at e asks for: a lone '<', a lone '>' or '>>'. */
  ghost predicate Asks(line: string, e: nat, mode: nat, fd: nat)
    requires e <= |line|
  {
    || (e >= 1 && line[e - 1] == '<' && mode == 0 && fd == 0)
    || (e >= 1 && line[e - 1] == '>' && (e == 1 || line[e - 2] != '>') && mode == 0x601 && fd == 1)
    || (e >= 2 && line[e - 1] == '>' && line[e - 2] == '>' && mode == 0x201 && fd == 1)
  }

  /** The file is a word whose operator ends behind i. */
  ghost predicate Written(line: string, i: nat, r: Redirection) {
    && MaximalRun(line, r.file) && i <= r.file.q
    && TextEnd(line, r.file.q) > i && Asks(line, TextEnd(line, r.file.q), r.mode, r.fd)
  }

  /** The position does not split '>>'. */
  ghost predicate Unsplit(line: string, i: nat)
    requires i <= |line| && NulFree(line)
  {
    i == 0 || line[i - 1] != '>' || TokenAt(line, i).kind == 'a'
  }

  /** A token's text decides its kind. */
  lemma TokenText(line: string, i: nat)
    requires i <= |line| && NulFree(line)
    ensures var t := TokenAt(line, i); var text := line[t.span.q..t.span.eq];
      && (forall k | i <= k < t.span.q :: Blank(line[k]))
      && t.kind in "\0+a<|>&;()" && (t.kind == '\0' <==> text == "") && (t.kind == '+' <==> text == ">>")
      && (t.kind in "<|>&;()" <==> text == [t.kind] && t.kind != 'a')
      && (t.kind == 'a' <==> text != "" && forall k | 0 <= k < |text| :: !Blank(text[k]) && text[k] !in "<|>&;()")
  {
    hide SkipWhite, WordEnd;
    var t := TokenAt(line, i);
    var text := line[t.span.q..t.span.eq];
    if t.kind == 'a' {
      forall k | 0 <= k < |text| ensures !Blank(text[k]) && text[k] !in "<|>&;()" {
        assert WordChar(line[t.span.q + k]);
      }
    } else if t.kind != '\0' {
      assert text[0] == line[t.span.q];
    }
  }

  /** Behind a token the text goes on: the text before a later word ends at the token's end or later, and at
      its end only if the word is the next token. */
  lemma LaterEnd(line: string, i: nat, w: Span)
    requires NulFree(line) && Boundary(line, i) && TokenAt(line, i).kind != '\0'
    requires MaximalRun(line, w) && TokenAt(line, i).span.eq <= w.q
    ensures TextEnd(line, w.q) >= TokenAt(line, i).span.eq
    ensures TextEnd(line, w.q) == TokenAt(line, i).span.eq ==> TokenAt(line, TokenAt(line, i).span.eq) == Token('a', w)
  {
    hide SkipWhite, WordEnd, TextEnd;
    var t := TokenAt(line, i);
    assert !Blank(line[t.span.eq - 1]);
    if TextEnd(line, w.q) == t.span.eq {
      NextWord(line, t.span.eq, w);
    }
  }

  lemma NextWord(line: string, i: nat, w: Span)
    requires NulFree(line) && i <= w.q && MaximalRun(line, w) && forall k | i <= k < w.q :: Blank(line[k])
    ensures TokenAt(line, i) == Token('a', w)
  {
    hide SkipWhite, WordEnd;
    var t := TokenAt(line, i);
    assert WordChar(line[w.q]);
    assert t.span.q == SkipWhite(line, i) == w.q;
    assert t.span.eq == WordEnd(line, w.q) == w.eq;
  }

  /** The text before the first token's word ends no later than the position. */
  lemma FirstEnd(line: string, i: nat)
    requires NulFree(line) && i <= |line|
    ensures TextEnd(line, TokenAt(line, i).span.q) <= i
  {
    hide SkipWhite, WordEnd, TextEnd;
    var e := TextEnd(line, TokenAt(line, i).span.q);
    assert e > i ==> White(line[e - 1]);
  }

  /** What the operator before a word asks for. */
  lemma OperatorAsks(line: string, i: nat, u: Token, mode: nat, fd: nat)
    requires NulFree(line) && Boundary(line, i) && Unsplit(line, i) && RedirOp(TokenAt(line, i).kind)
    requires u == TokenAt(line, TokenAt(line, i).span.eq) && u.kind == 'a'
    ensures TextEnd(line, u.span.q) == TokenAt(line, i).span.eq
    ensures Asks(line, TokenAt(line, i).span.eq, mode, fd) <==> Redirection(u.span, mode, fd) == RedirFor(TokenAt(line, i).kind, u.span)
  {
    hide SkipWhite, WordEnd, TextEnd;
    var t := TokenAt(line, i);
    FirstEnd(line, t.span.eq);
    Shell.OneToken(line, i, u.span);
    Shell.OneToken(line, t.span.eq, u.span);
    LaterEnd(line, i, u.span);
    if t.span.q > i {
      assert White(line[t.span.q - 1]);
    }
  }

  /** A token that is no operator of the redirection leaves the question to the rest of the line. */
  lemma PastToken(line: string, i: nat, r: Redirection)
    requires NulFree(line) && Boundary(line, i) && TokenAt(line, i).kind != '\0'
    requires RedirOp(TokenAt(line, i).kind) ==> TokenAt(line, TokenAt(line, i).span.eq) != Token('a', r.file)
    ensures Written(line, i, r) <==> Written(line, TokenAt(line, i).span.eq, r)
  {
    hide SkipWhite, WordEnd, TextEnd;
    var t := TokenAt(line, i);
    if MaximalRun(line, r.file) && i <= r.file.q {
      Shell.OneToken(line, i, r.file);
      if r.file.q < t.span.eq {
        FirstEnd(line, i);
      } else {
        LaterEnd(line, i, r.file);
      }
    }
  }

  lemma AfterToken(line: string, i: nat)
    requires NulFree(line) && Boundary(line, i) && TokenAt(line, i).kind != '\0'
    requires RedirOp(TokenAt(line, i).kind) ==> TokenAt(line, TokenAt(line, i).span.eq).kind == 'a'
    ensures Boundary(line, TokenAt(line, i).span.eq) && Unsplit(line, TokenAt(line, i).span.eq)
  {
    hide SkipWhite, WordEnd;
    Shell.OneToken(line, i, Span(0, 0));
  }

  /** The redirections among the tokens from i are those written there. */
  lemma {:induction false} TokensSay(line: string, i: nat, r: Redirection)
    requires NulFree(line) && Boundary(line, i) && Unsplit(line, i) && HasFiles(Tokens(line, i))
    ensures RedirsOf(Tokens(line, i))[r] == if Written(line, i, r) then 1 else 0
    decreases |line| - i
  {
    hide TokenAt, Written, HasFiles, Asks;
    var t := TokenAt(line, i);
    if t.kind == '\0' {
      NothingWritten(line, i, r);
    } else {
      var ts, j := Tokens(line, i), t.span.eq;
      assert ts[1..] == Tokens(line, j);
      if RedirOp(t.kind) {
        FirstFile(line, i);
      }
      FilesTail(ts);
      AfterToken(line, i);
      TokensSay(line, j, r);
      if RedirOp(t.kind) {
        FileSays(line, i, r);
      } else {
        PastToken(line, i, r);
      }
    }
  }

  lemma FirstFile(line: string, i: nat)
    requires i <= |line| && NulFree(line) && HasFiles(Tokens(line, i)) && RedirOp(TokenAt(line, i).kind)
    ensures |Tokens(line, i)| > 1 && Tokens(line, i)[1] == TokenAt(line, TokenAt(line, i).span.eq)
    ensures TokenAt(line, TokenAt(line, i).span.eq).kind == 'a'
  {
    hide TokenAt;
    var ts := Tokens(line, i);
    assert ts[0] == TokenAt(line, i);
    assert ts[1] == ts[1..][0] && ts[1..] == Tokens(line, ts[0].span.eq);
  }

  lemma FileSays(line: string, i: nat, r: Redirection)
    requires NulFree(line) && Boundary(line, i) && Unsplit(line, i) && RedirOp(TokenAt(line, i).kind)
    requires TokenAt(line, TokenAt(line, i).span.eq).kind == 'a'
    ensures var t, u := TokenAt(line, i), TokenAt(line, TokenAt(line, i).span.eq);
      if r == RedirFor(t.kind, u.span) then Written(line, i, r) && !Written(line, t.span.eq, r)
      else Written(line, i, r) <==> Written(line, t.span.eq, r)
  {
    hide TokenAt, Asks;
    var t, u := TokenAt(line, i), TokenAt(line, TokenAt(line, i).span.eq);
    if r.file == u.span {
      OperatorAsks(line, i, u, r.mode, r.fd);
      Shell.OneToken(line, i, u.span);
      Shell.OneToken(line, t.span.eq, u.span);
    } else {
      PastToken(line, i, r);
    }
  }

  lemma NothingWritten(line: string, i: nat, r: Redirection)
    requires NulFree(line) && Boundary(line, i) && TokenAt(line, i).kind == '\0'
    ensures !Written(line, i, r)
  {
    NoRun(line, i, |line|, r.file);
  }

  /** The redirections of a parsed line are exactly its words behind '<', '>' or '>>', each once, and the
      operator's text decides the mode and the descriptor. */
  lemma RedirectionsAreWritten(line: string, c: Cmd, r: Redirection)
    requires NulFree(line) && IsLine(c, Tokens(line, 0))
    ensures TreeRedirs(c)[r] == if r.file.q < r.file.eq <= |line| && MaximalRun(line, r.file)
      && Asks(line, TextEnd(line, r.file.q), r.mode, r.fd) then 1 else 0
  {
    hide Tokens, HasFiles, RedirsOf, TreeRedirs;
    LineMeans(c, Tokens(line, 0));
    TokensSay(line, 0, r);
  }

  lemma CountJoined(a: string, b: string, c: string, ch: char)
    requires (forall k | 0 <= k < |a| :: a[k] != ch)
    ensures multiset(a + b + c)[ch] == multiset(b)[ch] + multiset(c)[ch]
  {
    assert ch !in multiset(a);
  }

  /** A join counts in the text of a token exactly if it is the token. */
  lemma TokenCounts(line: string, i: nat, ch: char)
    requires i <= |line| && NulFree(line) && Joins(ch)
    ensures var t := TokenAt(line, i);
      multiset(line[t.span.q..t.span.eq])[ch] == if t.kind == ch then 1 else 0
  {
    hide TokenAt;
    TokenText(line, i);
    var t := TokenAt(line, i);
    var text := line[t.span.q..t.span.eq];
    if t.kind == 'a' {
      assert forall k | 0 <= k < |text| :: text[k] != ch;
      assert ch !in multiset(text);
    } else if t.kind == '+' || t.kind == '\0' {
      assert multiset(">>")[ch] == 0;
    } else {
      assert text == [t.kind];
    }
  }

  lemma {:induction false} TokensCount(line: string, i: nat, ch: char)
    requires i <= |line| && NulFree(line) && Joins(ch)
    ensures OpsOf(Tokens(line, i))[ch] == multiset(line[i..])[ch]
    decreases |line| - i
  {
    hide TokenAt;
    TokenText(line, i);
    TokenCounts(line, i, ch);
    var t := TokenAt(line, i);
    assert line[i..] == line[i..t.span.q] + line[t.span.q..t.span.eq] + line[t.span.eq..];
    CountJoined(line[i..t.span.q], line[t.span.q..t.span.eq], line[t.span.eq..], ch);
    if t.kind == '\0' {
      assert line[t.span.eq..] == "";
    } else {
      assert Tokens(line, i)[1..] == Tokens(line, t.span.eq);
      TokensCount(line, t.span.eq, ch);
    }
  }

  /** A parsed line has a pipe for every '|', a list for every ';' and a background command for every '&'. */
  lemma JoinsAreWritten(line: string, c: Cmd, ch: char)
    requires NulFree(line) && IsLine(c, Tokens(line, 0)) && (ch == '|' || ch == ';' || ch == '&')
    ensures TreeOps(c)[ch] == multiset(line)[ch]
  {
    hide Tokens, OpsOf, TreeOps;
    LineMeans(c, Tokens(line, 0));
    TokensCount(line, 0, ch);
    assert line[0..] == line;
  }

  /** The redirections and the joins of a tree are those that the characters of the line show. */
  ghost predicate AsWritten(line: string, c: Cmd) {
    && (forall r: Redirection :: TreeRedirs(c)[r] ==
          if r.file.q < r.file.eq <= |line| && MaximalRun(line, r.file) && Asks(line, TextEnd(line, r.file.q), r.mode, r.fd)
          then 1 else 0)
    && (forall ch | ch == '|' || ch == ';' || ch == '&' :: TreeOps(c)[ch] == multiset(line)[ch])
  }

  lemma TreeAsWritten(line: string, c: Cmd)
    requires NulFree(line) && IsLine(c, Tokens(line, 0))
    ensures AsWritten(line, c)
  {
    hide IsLine, Tokens, TreeRedirs, TreeOps, Asks, TextEnd, MaximalRun;
    forall r: Redirection ensures TreeRedirs(c)[r] ==
          if r.file.q < r.file.eq <= |line| && MaximalRun(line, r.file) && Asks(line, TextEnd(line, r.file.q), r.mode, r.fd)
          then 1 else 0 {
      RedirectionsAreWritten(line, c, r);
    }
    forall ch | ch == '|' || ch == ';' || ch == '&' ensures TreeOps(c)[ch] == multiset(line)[ch] {
      JoinsAreWritten(line, c, ch);
    }
  }

  /** parsecmd before the terminating pass. */
  method ParseCmd(line: string) returns (p: Parsed)
    requires NulFree(line)
    ensures p.Tree? ==> IsLine(p.cmd, Tokens(line, 0)) && Few(p.cmd)
    ensures p.Tree? ==> AsWritten(line, p.cmd)
    ensures p.Panic? ==> forall c :: !(IsLine(c, Tokens(line, 0)) && Few(c))
  {
    hide SkipWhite, IsLine, Line, Tokens, Few, AsWritten;
    forall c ensures Line(Tokens(line, 0)) == Got(c, []) <==> IsLine(c, Tokens(line, 0)) && Few(c) {
      Accepts(Tokens(line, 0), c);
    }
    p := ParseLine(line, 0);
    if p.Panic? {
      return;
    }
    var _, s := Peek(line, p.next, "");
    if s != |line| {
      return Panic("syntax");
    }
    p := Tree(p.cmd, s);
    TreeAsWritten(line, p.cmd);
  }

  /** parsecmd as a whole: the tree points to each word of the line exactly once, and after the pass over
      the buffer each pointer is a C string equal to its word. */
  method ParseAndTerminate(line: string, buf: array<char>) returns (p: Parsed)
    requires NulFree(line) && buf[..] == line + ['\0']
    modifies buf
    ensures p.Panic? ==> buf[..] == old(buf[..]) && forall c :: !(IsLine(c, Tokens(line, 0)) && Few(c))
    ensures p.Tree? ==> IsLine(p.cmd, Tokens(line, 0)) && AsWritten(line, p.cmd)
    ensures p.Tree? ==> forall w :: TreeWords(p.cmd)[w] == if MaximalRun(line, w) then 1 else 0
    ensures p.Tree? ==> forall w | w in TreeWords(p.cmd) :: w.q < w.eq <= |line| && CString(buf[..], w.q) == line[w.q..w.eq]
  {
    hide AsWritten;
    p := ParseCmd(line);
    if p.Panic? {
      return;
    }
    LineWords(p.cmd, Tokens(line, 0));
    forall w ensures TreeWords(p.cmd)[w] == if MaximalRun(line, w) then 1 else 0 {
      WordsAreRuns(line, 0, w);
    }
    forall e | e in Ends(p.cmd) ensures e <= |line| && (e < |line| ==> !WordChar(line[e])) {
      var w := EndsAre(p.cmd, e);
      assert TreeWords(p.cmd)[w] > 0;
    }
    NulTerminate(p.cmd, buf);
    forall w | w in TreeWords(p.cmd) ensures w.q < w.eq <= |line| && CString(buf[..], w.q) == line[w.q..w.eq] {
      assert TreeWords(p.cmd)[w] > 0;
      WordEnds(p.cmd, w);
      TerminatedWord(line, buf[..], Ends(p.cmd), w);
    }
  }
}
