/**
 The grammar that sh.c's parser is for, and that the parser accepts exactly its lines, giving
 each the tree it stands for.
 */
module ShellSyntax {
  import opened ShellGrammar
  import opened ShellTokens

  // ---------------------------------------------------------------------
  // The grammar.

  datatype Red = Red(mode: Mode, file: string)

  // a word and the redirections right behind it
  datatype Arg = Arg(word: string, reds: seq<Red>)

  // a simple command with redirections before, between and behind its words; or a line in
  // parentheses with redirections behind it
  datatype Com = Simple(lead: seq<Red>, args: seq<Arg>) | Sub(line: Line, reds: seq<Red>)

  datatype Pipeline = Single(com: Com) | Piped(com: Com, rest: Pipeline)

  // amps is the number of '&' behind the pipeline
  datatype Line = Last(pipe: Pipeline, amps: nat) | Then(pipe: Pipeline, amps: nat, rest: Line)

  function KindOf(m: Mode): (k: char) { match m case In => '<' case Out => '>' case Append => '+' }

  // The tokens of each, followed by ts.

  function RedToks(reds: seq<Red>, ts: seq<Tok>): (r: seq<Tok>) {
    if reds == [] then ts else [Op(KindOf(reds[0].mode))] + ([Text(reds[0].file)] + RedToks(reds[1..], ts))
  }

  function ArgToks(args: seq<Arg>, ts: seq<Tok>): (r: seq<Tok>) {
    if args == [] then ts else [Text(args[0].word)] + RedToks(args[0].reds, ArgToks(args[1..], ts))
  }

  function AmpToks(n: nat, ts: seq<Tok>): (r: seq<Tok>) { if n == 0 then ts else [Op('&')] + AmpToks(n - 1, ts) }

  function ComToks(c: Com, ts: seq<Tok>): (r: seq<Tok>) {
    match c
    case Simple(lead, args) => RedToks(lead, ArgToks(args, ts))
    case Sub(line, reds) => [Op('(')] + LineToks(line, [Op(')')] + RedToks(reds, ts))
  }

  function PipeToks(p: Pipeline, ts: seq<Tok>): (r: seq<Tok>) {
    match p
    case Single(c) => ComToks(c, ts)
    case Piped(c, rest) => ComToks(c, [Op('|')] + PipeToks(rest, ts))
  }

  function LineToks(l: Line, ts: seq<Tok>): (r: seq<Tok>) {
    match l
    case Last(p, n) => PipeToks(p, AmpToks(n, ts))
    case Then(p, n, rest) => PipeToks(p, AmpToks(n, [Op(';')] + LineToks(rest, ts)))
  }

  // What each stands for.

  // c inside the redirections, the last outermost
  function Under(c: Cmd<string>, reds: seq<Red>): (r: Cmd<string>) {
    if reds == [] then c
    else
      var n := |reds| - 1;
      Redir(Under(c, reds[..n]), reds[n].file, reds[n].mode)
  }

  function WordsOf(args: seq<Arg>): (ws: seq<string>) {
    if args == [] then [] else [args[0].word] + WordsOf(args[1..])
  }

  function RedsOf(args: seq<Arg>): (reds: seq<Red>) {
    if args == [] then [] else args[0].reds + RedsOf(args[1..])
  }

  function Backs(c: Cmd<string>, n: nat): (r: Cmd<string>) { if n == 0 then c else Back(Backs(c, n - 1)) }

  function ComTree(c: Com): (r: Cmd<string>) {
    match c
    case Simple(lead, args) => Under(Exec(WordsOf(args)), lead + RedsOf(args))
    case Sub(line, reds) => Under(LineTree(line), reds)
  }

  function PipeTree(p: Pipeline): (r: Cmd<string>) {
    match p
    case Single(c) => ComTree(c)
    case Piped(c, rest) => Pipe(ComTree(c), PipeTree(rest))
  }

  function LineTree(l: Line): (r: Cmd<string>) {
    match l
    case Last(p, n) => Backs(PipeTree(p), n)
    case Then(p, n, rest) => List(Backs(PipeTree(p), n), LineTree(rest))
  }

  // No simple command has more words than argv holds.

  predicate FewCom(c: Com) { match c case Simple(_, args) => |args| < MAXARGS case Sub(line, _) => FewLine(line) }

  predicate FewPipe(p: Pipeline) {
    match p case Single(c) => FewCom(c) case Piped(c, rest) => FewCom(c) && FewPipe(rest)
  }

  predicate FewLine(l: Line) {
    match l case Last(p, _) => FewPipe(p) case Then(p, _, rest) => FewPipe(p) && FewLine(rest)
  }

  // ---------------------------------------------------------------------
  // Trees of pieces of the line, and the words they stand for.

  predicate InLine(s: string, w: Span) { 0 <= w.q <= w.eq <= |s| }

  ghost predicate SpanIs(s: string, w: Span, t: string) { InLine(s, w) && s[w.q..w.eq] == t }

  // All parts of c lie in the line s.
  ghost predicate Within(s: string, c: Cmd<Span>) {
    match c
    case Exec(args) => forall k :: 0 <= k < |args| ==> InLine(s, args[k])
    case Redir(sub, file, mode) => Within(s, sub) && InLine(s, file)
    case Pipe(left, right) => Within(s, left) && Within(s, right)
    case List(left, right) => Within(s, left) && Within(s, right)
    case Back(sub) => Within(s, sub)
  }

  // The tree of words that the tree c of pieces of s stands for.
  ghost function Words(s: string, c: Cmd<Span>): (t: Cmd<string>)
    requires Within(s, c)
  {
    match c
    case Exec(args) => Exec(seq(|args|, k requires 0 <= k < |args| => s[args[k].q..args[k].eq]))
    case Redir(sub, file, mode) => Redir(Words(s, sub), s[file.q..file.eq], mode)
    case Pipe(left, right) => Pipe(Words(s, left), Words(s, right))
    case List(left, right) => List(Words(s, left), Words(s, right))
    case Back(sub) => Back(Words(s, sub))
  }

  ghost predicate Reads(s: string, c: Cmd<Span>, t: Cmd<string>) { Within(s, c) && Words(s, c) == t }

  ghost predicate RedRead(s: string, w: (Span, Mode), r: Red) { SpanIs(s, w.0, r.file) && w.1 == r.mode }

  ghost predicate RedsRead(s: string, l: seq<(Span, Mode)>, reds: seq<Red>) {
    |l| == |reds| && forall k :: 0 <= k < |l| ==> RedRead(s, l[k], reds[k])
  }

  lemma {:induction false} UnderFirst(c: Cmd<string>, reds: seq<Red>)
    requires reds != []
    ensures Under(c, reds) == Under(Redir(c, reds[0].file, reds[0].mode), reds[1..])
    decreases |reds|
  {
    var n := |reds| - 1;
    if n > 0 {
      UnderFirst(c, reds[..n]);
      assert reds[..n][1..] == reds[1..][..n - 1] && reds[..n][0] == reds[0] && reds[1..][n - 1] == reds[n];
    } else {
      assert reds[..0] == [] && reds[1..] == [];
    }
  }

  // The redirections go around the command one by one.
  lemma {:induction false} WrapReads(s: string, c: Cmd<Span>, l: seq<(Span, Mode)>, t: Cmd<string>, reds: seq<Red>)
    requires Reads(s, c, t) && RedsRead(s, l, reds)
    ensures Reads(s, Wrap(c, l), Under(t, reds))
    decreases |l|
  {
    if l != [] {
      assert RedRead(s, l[0], reds[0]);
      assert RedsRead(s, l[1..], reds[1..]) by {
        forall k | 0 <= k < |l| - 1 ensures RedRead(s, l[1..][k], reds[1..][k]) {
          assert RedRead(s, l[k + 1], reds[k + 1]);
        }
      }
      UnderFirst(t, reds);
      WrapReads(s, Redir(c, l[0].0, l[0].1), l[1..], Redir(t, reds[0].file, reds[0].mode), reds[1..]);
    }
  }

  lemma RedsJoin(s: string, l: seq<(Span, Mode)>, reds: seq<Red>, l': seq<(Span, Mode)>, reds': seq<Red>)
    requires RedsRead(s, l, reds) && RedsRead(s, l', reds')
    ensures RedsRead(s, l + l', reds + reds')
  {
    forall k | 0 <= k < |l + l'| ensures RedRead(s, (l + l')[k], (reds + reds')[k]) {
      if k < |l| { assert RedRead(s, l[k], reds[k]); } else { assert RedRead(s, l'[k - |l|], reds'[k - |l|]); }
    }
  }

  // ---------------------------------------------------------------------
  // What may follow.

  predicate AtLineEnd(ts: seq<Tok>) { ts == [] || ts[0] == Op(')') }
  predicate AtPipeEnd(ts: seq<Tok>) { AtLineEnd(ts) || ts[0] == Op('&') || ts[0] == Op(';') }
  predicate AtComEnd(ts: seq<Tok>) { AtPipeEnd(ts) || ts[0] == Op('|') }

  lemma NextEnds(s: string, i: int)
    requires 0 <= i <= |s|
    ensures EndsExec(Next(s, i)) <==> Toks(s, i) != [] && AtComEnd(Toks(s, i))
  {
    NextOp(s, i, '|');
    NextOp(s, i, ')');
    NextOp(s, i, '&');
    NextOp(s, i, ';');
  }

  // The parser eats a token.
  lemma EatOp(s: string, i: int, k: char, ts: seq<Tok>)
    requires 0 <= i <= |s| && Toks(s, i) == [Op(k)] + ts
    ensures GetToken(s, i).kind == k && Toks(s, GetToken(s, i).next) == ts && Next(s, i) == CharOf(k)
  {
    AtOp(s, i);
    assert ([Op(k)] + ts)[1..] == ts;
  }

  lemma EatWord(s: string, i: int, w: string, ts: seq<Tok>)
    requires 0 <= i <= |s| && Toks(s, i) == [Text(w)] + ts
    ensures var t := GetToken(s, i); t.kind == 'a' && SpanIs(s, Span(t.q, t.eq), w) && Toks(s, t.next) == ts
    ensures !EndsExec(Next(s, i))
  {
    AtWord(s, i);
    assert ([Text(w)] + ts)[1..] == ts;
  }
}
