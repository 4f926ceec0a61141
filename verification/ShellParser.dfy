/**
 sh.c's parser accepts exactly the lines of its grammar, and gives each the tree it stands for.
 */
module ShellParser {
  import opened ShellGrammar
  import opened ShellTokens
  import opened ShellSyntax

  // ---------------------------------------------------------------------
  // From the grammar to the parse.

  // Redirections stand before ts at i, and the parser finds them.
  lemma {:induction false} RedirsParse(s: string, i: int, reds: seq<Red>, ts: seq<Tok>) returns (r: Redirs)
    requires 0 <= i <= |s| && Toks(s, i) == RedToks(reds, ts) && !Redirects(ts)
    ensures r == ParseRedirs(s, i) && r.Redirs? && RedsRead(s, r.list, reds) && Toks(s, r.pos) == ts
    decreases |reds|
  {
    r := ParseRedirs(s, i);
    NextRedir(s, i);
    if reds == [] {
      SkipToks(s, i);
    } else {
      var tail := RedToks(reds[1..], ts);
      EatOp(s, i, KindOf(reds[0].mode), [Text(reds[0].file)] + tail);
      var op := GetToken(s, i);
      EatWord(s, op.next, reds[0].file, tail);
      var w := GetToken(s, op.next);
      var rest := RedirsParse(s, w.next, reds[1..], ts);
      var x := (Span(w.q, w.eq), ModeOf(op.kind));
      assert RedsRead(s, [x], [reds[0]]);
      RedsJoin(s, [x], [reds[0]], rest.list, reds[1..]);
      assert [reds[0]] + reds[1..] == reds;
    }
  }

  ghost predicate ArgRead(s: string, w: Span, a: Arg) { SpanIs(s, w, a.word) }

  ghost predicate ArgsRead(s: string, ws: seq<Span>, args: seq<Arg>) {
    |ws| == |args| && forall k :: 0 <= k < |ws| ==> ArgRead(s, ws[k], args[k])
  }

  lemma ArgsCons(s: string, w: Span, a: Arg, ws: seq<Span>, args: seq<Arg>)
    requires ArgRead(s, w, a) && ArgsRead(s, ws, args)
    ensures ArgsRead(s, [w] + ws, [a] + args)
  {
    forall k | 0 <= k < |ws| + 1 ensures ArgRead(s, ([w] + ws)[k], ([a] + args)[k]) {
      if k > 0 { assert ArgRead(s, ws[k - 1], args[k - 1]); }
    }
  }

  lemma {:induction false} ArgsTree(s: string, ws: seq<Span>, args: seq<Arg>)
    requires ArgsRead(s, ws, args)
    ensures Reads(s, Exec(ws), Exec(WordsOf(args)))
  {
    assert forall k :: 0 <= k < |ws| ==> ArgRead(s, ws[k], args[k]);
    WordsAre(args);
    assert Words(s, Exec(ws)).args == WordsOf(args);
  }

  lemma {:induction false} WordsAre(args: seq<Arg>)
    ensures |WordsOf(args)| == |args| && forall k :: 0 <= k < |args| ==> WordsOf(args)[k] == args[k].word
  {
    if args != [] { WordsAre(args[1..]); }
  }

  lemma ArgsStep(s: string, i: int, n: int, l: Redirs, rest: Args)
    requires 0 <= i <= |s| && !EndsExec(Next(s, i)) && GetToken(s, i).kind == 'a' && n + 1 < MAXARGS
    requires l == ParseRedirs(s, GetToken(s, i).next) && l.Redirs?
    requires rest == ParseArgs(s, l.pos, n + 1) && rest.Args?
    ensures var w := GetToken(s, i);
      ParseArgs(s, i, n) == Args([Span(w.q, w.eq)] + rest.args, l.list + rest.list, rest.pos)
  {
  }

  lemma {:induction false} ArgsParse(s: string, i: int, n: int, args: seq<Arg>, ts: seq<Tok>) returns (r: Args)
    requires 0 <= i <= |s| && Toks(s, i) == ArgToks(args, ts) && AtComEnd(ts) && 0 <= n && n + |args| < MAXARGS
    ensures r == ParseArgs(s, i, n) && r.Args? && ArgsRead(s, r.args, args) && RedsRead(s, r.list, RedsOf(args))
    ensures Toks(s, r.pos) == ts
    decreases |args|, 1
  {
    if args == [] {
      r := Args([], [], Skip(s, i));
      NoArgs(s, i, n, ts);
    } else {
      r := ArgParse(s, i, n, args[0], args[1..], ts);
      assert [args[0]] + args[1..] == args;
    }
  }

  lemma NoArgs(s: string, i: int, n: int, ts: seq<Tok>)
    requires 0 <= i <= |s| && Toks(s, i) == ts && AtComEnd(ts)
    ensures ParseArgs(s, i, n) == Args([], [], Skip(s, i)) && Toks(s, Skip(s, i)) == ts
  {
    NextEnds(s, i);
    SkipToks(s, i);
  }

  lemma ArgHead(s: string, i: int, a: Arg, args: seq<Arg>, ts: seq<Tok>) returns (w: Token, l: Redirs)
    requires 0 <= i <= |s| && Toks(s, i) == [Text(a.word)] + RedToks(a.reds, ArgToks(args, ts)) && AtComEnd(ts)
    ensures w == GetToken(s, i) && w.kind == 'a' && ArgRead(s, Span(w.q, w.eq), a) && !EndsExec(Next(s, i))
    ensures l == ParseRedirs(s, w.next) && l.Redirs? && RedsRead(s, l.list, a.reds)
      && Toks(s, l.pos) == ArgToks(args, ts)
  {
    EatWord(s, i, a.word, RedToks(a.reds, ArgToks(args, ts)));
    w := GetToken(s, i);
    l := RedirsParse(s, w.next, a.reds, ArgToks(args, ts));
  }

  // An argument and its redirections, then the others.
  lemma {:induction false} ArgParse(s: string, i: int, n: int, a: Arg, args: seq<Arg>, ts: seq<Tok>) returns (r: Args)
    requires 0 <= i <= |s| && Toks(s, i) == [Text(a.word)] + RedToks(a.reds, ArgToks(args, ts))
    requires AtComEnd(ts) && 0 <= n && n + 1 + |args| < MAXARGS
    ensures r == ParseArgs(s, i, n) && r.Args? && ArgsRead(s, r.args, [a] + args)
    ensures RedsRead(s, r.list, a.reds + RedsOf(args)) && Toks(s, r.pos) == ts
    decreases |args| + 1, 0
  {
    var w, l := ArgHead(s, i, a, args, ts);
    var rest := ArgsParse(s, l.pos, n + 1, args, ts);
    r := Args([Span(w.q, w.eq)] + rest.args, l.list + rest.list, rest.pos);
    ArgsStep(s, i, n, l, rest);
    ArgsCons(s, Span(w.q, w.eq), a, rest.args, args);
    RedsJoin(s, l.list, a.reds, rest.list, RedsOf(args));
  }

  // r reads as t and leaves ts.
  ghost predicate Gives(s: string, r: Parse, t: Cmd<string>, ts: seq<Tok>) {
    r.Ok? && 0 <= r.pos <= |s| && Reads(s, r.cmd, t) && Toks(s, r.pos) == ts
  }

  lemma {:induction false} SimpleParse(s: string, i: int, lead: seq<Red>, args: seq<Arg>, ts: seq<Tok>)
    requires 0 <= i <= |s| && Toks(s, i) == RedToks(lead, ArgToks(args, ts)) && AtComEnd(ts) && |args| < MAXARGS
    ensures Gives(s, ParseExec(s, i), ComTree(Simple(lead, args)), ts)
  {
    NextOp(s, i, '(');
    var l := RedirsParse(s, i, lead, ArgToks(args, ts));
    var a := ArgsParse(s, l.pos, 0, args, ts);
    ArgsTree(s, a.args, args);
    RedsJoin(s, l.list, lead, a.list, RedsOf(args));
    WrapReads(s, Exec(a.args), l.list + a.list, Exec(WordsOf(args)), lead + RedsOf(args));
  }

  lemma CloseParse(s: string, r: Parse, t: Cmd<string>, reds: seq<Red>, ts: seq<Tok>)
    requires Gives(s, r, t, [Op(')')] + RedToks(reds, ts)) && AtComEnd(ts)
    ensures Gives(s, CloseBlock(s, r), Under(t, reds), ts)
  {
    EatOp(s, r.pos, ')', RedToks(reds, ts));
    var l := RedirsParse(s, GetToken(s, r.pos).next, reds, ts);
    WrapReads(s, r.cmd, l.list, t, reds);
  }

  lemma {:induction false} SubParse(s: string, i: int, line: Line, reds: seq<Red>, ts: seq<Tok>)
    requires 0 <= i <= |s| && Toks(s, i) == ComToks(Sub(line, reds), ts) && AtComEnd(ts) && FewLine(line)
    ensures Gives(s, ParseExec(s, i), ComTree(Sub(line, reds)), ts)
    decreases line, 3
  {
    var close := [Op(')')] + RedToks(reds, ts);
    EatOp(s, i, '(', LineToks(line, close));
    LineParse(s, GetToken(s, i).next, line, close);
    CloseParse(s, ParseLine(s, GetToken(s, i).next), LineTree(line), reds, ts);
  }

  lemma {:induction false} ComParse(s: string, i: int, c: Com, ts: seq<Tok>)
    requires 0 <= i <= |s| && Toks(s, i) == ComToks(c, ts) && AtComEnd(ts) && FewCom(c)
    ensures Gives(s, ParseExec(s, i), ComTree(c), ts)
    decreases c, 0
  {
    match c
    case Simple(lead, args) => SimpleParse(s, i, lead, args, ts);
    case Sub(line, reds) => SubParse(s, i, line, reds, ts);
  }

  // What ParsePipe makes of a command.
  lemma PipeEnds(s: string, i: int, r: Parse)
    requires 0 <= i <= |s| && r == ParseExec(s, i) && r.Ok? && Next(s, r.pos) != '|'
    ensures ParsePipe(s, i) == Ok(r.cmd, Skip(s, r.pos))
  {
  }

  lemma PipeGoesOn(s: string, i: int, r: Parse, rest: Parse)
    requires 0 <= i <= |s| && r == ParseExec(s, i) && r.Ok? && Next(s, r.pos) == '|'
    requires rest == ParsePipe(s, GetToken(s, r.pos).next) && rest.Ok?
    ensures ParsePipe(s, i) == Ok(Pipe(r.cmd, rest.cmd), rest.pos)
  {
  }

  lemma {:induction false} SingleParse(s: string, i: int, c: Com, ts: seq<Tok>)
    requires 0 <= i <= |s| && Toks(s, i) == ComToks(c, ts) && AtPipeEnd(ts) && FewCom(c)
    ensures Gives(s, ParsePipe(s, i), ComTree(c), ts)
    decreases c, 1
  {
    var r := ParseExec(s, i);
    ComParse(s, i, c, ts);
    NextOp(s, r.pos, '|');
    PipeEnds(s, i, r);
    SkipToks(s, r.pos);
  }

  lemma PipeGives(s: string, b: Parse, t: Cmd<string>, ts: seq<Tok>, r: Parse, u: Cmd<string>, us: seq<Tok>)
    requires Gives(s, b, t, ts) && Gives(s, r, u, us)
    ensures Gives(s, Ok(Pipe(b.cmd, r.cmd), r.pos), Pipe(t, u), us)
  {
  }

  lemma {:induction false} PipeParse(s: string, i: int, p: Pipeline, ts: seq<Tok>)
    requires 0 <= i <= |s| && Toks(s, i) == PipeToks(p, ts) && AtPipeEnd(ts) && FewPipe(p)
    ensures Gives(s, ParsePipe(s, i), PipeTree(p), ts)
    decreases p, 1
  {
    match p
    case Single(c) => SingleParse(s, i, c, ts);
    case Piped(c, rest) =>
      var tail := PipeToks(rest, ts);
      var r := ParseExec(s, i);
      ComParse(s, i, c, [Op('|')] + tail);
      EatOp(s, r.pos, '|', tail);
      var next := GetToken(s, r.pos).next;
      PipeParse(s, next, rest, ts);
      PipeGoesOn(s, i, r, ParsePipe(s, next));
      PipeGives(s, r, ComTree(c), [Op('|')] + tail, ParsePipe(s, next), PipeTree(rest), ts);
  }

  lemma BacksShift(t: Cmd<string>, n: nat)
    ensures Backs(Back(t), n) == Backs(t, n + 1)
  {
  }

  lemma BacksMore(s: string, c: Cmd<Span>, i: int)
    requires 0 <= i <= |s| && Next(s, i) == '&'
    ensures ParseBacks(s, c, i) == ParseBacks(s, Back(c), GetToken(s, i).next)
  {
  }

  lemma {:induction false} BacksParse(s: string, c: Cmd<Span>, i: int, t: Cmd<string>, n: nat, ts: seq<Tok>)
    requires 0 <= i <= |s| && Reads(s, c, t) && Toks(s, i) == AmpToks(n, ts) && (ts == [] || ts[0] != Op('&'))
    ensures Gives(s, ParseBacks(s, c, i), Backs(t, n), ts)
    decreases n
  {
    if n == 0 {
      NextOp(s, i, '&');
      SkipToks(s, i);
    } else {
      EatOp(s, i, '&', AmpToks(n - 1, ts));
      BacksMore(s, c, i);
      BacksParse(s, Back(c), GetToken(s, i).next, Back(t), n - 1, ts);
      BacksShift(t, n - 1);
    }
  }

  // A pipeline and its '&'s.
  lemma {:induction false} BackedParse(s: string, i: int, p: Pipeline, n: nat, ts: seq<Tok>) returns (b: Parse)
    requires 0 <= i <= |s| && Toks(s, i) == PipeToks(p, AmpToks(n, ts)) && FewPipe(p)
    requires AtLineEnd(ts) || ts[0] == Op(';')
    ensures var r := ParsePipe(s, i); r.Ok? && b == ParseBacks(s, r.cmd, r.pos)
    ensures Gives(s, b, Backs(PipeTree(p), n), ts)
    decreases p, 2
  {
    var r := ParsePipe(s, i);
    PipeParse(s, i, p, AmpToks(n, ts));
    BacksParse(s, r.cmd, r.pos, PipeTree(p), n, ts);
    b := ParseBacks(s, r.cmd, r.pos);
  }

  // What ParseLine makes of it.
  lemma LineEnds(s: string, i: int, b: Parse)
    requires 0 <= i <= |s| && ParsePipe(s, i).Ok? && b == ParseBacks(s, ParsePipe(s, i).cmd, ParsePipe(s, i).pos)
    requires Next(s, b.pos) != ';'
    ensures ParseLine(s, i) == Ok(b.cmd, Skip(s, b.pos))
  {
  }

  lemma LineGoesOn(s: string, i: int, b: Parse, r: Parse)
    requires 0 <= i <= |s| && ParsePipe(s, i).Ok? && b == ParseBacks(s, ParsePipe(s, i).cmd, ParsePipe(s, i).pos)
    requires Next(s, b.pos) == ';' && r == ParseLine(s, GetToken(s, b.pos).next) && r.Ok?
    ensures ParseLine(s, i) == Ok(List(b.cmd, r.cmd), r.pos)
  {
  }

  lemma {:induction false} LastParse(s: string, i: int, p: Pipeline, n: nat, ts: seq<Tok>)
    requires 0 <= i <= |s| && Toks(s, i) == PipeToks(p, AmpToks(n, ts)) && AtLineEnd(ts) && FewPipe(p)
    ensures Gives(s, ParseLine(s, i), Backs(PipeTree(p), n), ts)
    decreases p, 3
  {
    var b := BackedParse(s, i, p, n, ts);
    NextOp(s, b.pos, ';');
    LineEnds(s, i, b);
    SkipToks(s, b.pos);
  }

  lemma ListGives(s: string, b: Parse, t: Cmd<string>, ts: seq<Tok>, r: Parse, u: Cmd<string>, us: seq<Tok>)
    requires Gives(s, b, t, ts) && Gives(s, r, u, us)
    ensures Gives(s, Ok(List(b.cmd, r.cmd), r.pos), List(t, u), us)
  {
  }

  lemma {:induction false} LineParse(s: string, i: int, l: Line, ts: seq<Tok>)
    requires 0 <= i <= |s| && Toks(s, i) == LineToks(l, ts) && AtLineEnd(ts) && FewLine(l)
    ensures Gives(s, ParseLine(s, i), LineTree(l), ts)
    decreases l, 2
  {
    match l
    case Last(p, n) => LastParse(s, i, p, n, ts);
    case Then(p, n, rest) =>
      var tail := LineToks(rest, ts);
      var b := BackedParse(s, i, p, n, [Op(';')] + tail);
      EatOp(s, b.pos, ';', tail);
      var next := GetToken(s, b.pos).next;
      LineParse(s, next, rest, ts);
      var r := ParseLine(s, next);
      LineGoesOn(s, i, b, r);
      ListGives(s, b, Backs(PipeTree(p), n), [Op(';')] + tail, r, LineTree(rest), ts);
  }

  // ---------------------------------------------------------------------
  // From the parse to the grammar.

  // The first token of the line, and the rest.
  lemma OpFirst(s: string, i: int, k: char)
    requires 0 <= i <= |s| && GetToken(s, i).kind == k && k != 'a' && k != '\0'
    ensures Toks(s, i) == [Op(k)] + Toks(s, GetToken(s, i).next)
  {
  }

  lemma WordFirst(s: string, i: int)
    requires 0 <= i <= |s| && GetToken(s, i).kind == 'a'
    ensures var t := GetToken(s, i); Toks(s, i) == [Text(s[t.q..t.eq])] + Toks(s, t.next)
  {
  }

  lemma SymbolFirst(s: string, i: int, k: char)
    requires 0 <= i <= |s| && Next(s, i) == k && (k == '|' || k == '&' || k == ';' || k == '(' || k == ')')
    ensures Toks(s, i) == [Op(k)] + Toks(s, GetToken(s, i).next)
  {
    NextOp(s, i, k);
    AtOp(s, i);
    OpFirst(s, i, k);
  }

  lemma {:induction false} RedirsShape(s: string, i: int) returns (reds: seq<Red>)
    requires 0 <= i <= |s| && ParseRedirs(s, i).Redirs?
    ensures Toks(s, i) == RedToks(reds, Toks(s, ParseRedirs(s, i).pos))
    decreases |s| - i
  {
    NextRedir(s, i);
    if !Redirects(Toks(s, i)) {
      reds := [];
      SkipToks(s, i);
    } else {
      AtOp(s, i);
      var op := GetToken(s, i);
      OpFirst(s, i, op.kind);
      WordFirst(s, op.next);
      var w := GetToken(s, op.next);
      var rest := RedirsShape(s, w.next);
      reds := [Red(ModeOf(op.kind), s[w.q..w.eq])] + rest;
      assert reds[1..] == rest;
    }
  }

  // An argument that was accepted, and what follows it.
  lemma ArgsParts(s: string, i: int, n: int)
    requires 0 <= i <= |s| && ParseArgs(s, i, n).Args? && !EndsExec(Next(s, i)) && GetToken(s, i).kind != '\0'
    ensures GetToken(s, i).kind == 'a' && n + 1 < MAXARGS
    ensures var l := ParseRedirs(s, GetToken(s, i).next);
      && l.Redirs? && ParseArgs(s, l.pos, n + 1).Args?
      && ParseArgs(s, i, n).pos == ParseArgs(s, l.pos, n + 1).pos
  {
  }

  lemma ArgsDone(s: string, i: int, n: int)
    requires 0 <= i <= |s| && (EndsExec(Next(s, i)) || GetToken(s, i).kind == '\0')
    ensures ParseArgs(s, i, n) == Args([], [], Skip(s, i)) && Toks(s, Skip(s, i)) == Toks(s, i)
  {
    SkipToks(s, i);
  }

  lemma ArgsJoin(w: string, reds: seq<Red>, rest: seq<Arg>, ts: seq<Tok>)
    ensures ArgToks([Arg(w, reds)] + rest, ts) == [Text(w)] + RedToks(reds, ArgToks(rest, ts))
  {
    assert ([Arg(w, reds)] + rest)[1..] == rest;
  }

  lemma {:induction false} ArgsShape(s: string, i: int, n: int, ts: seq<Tok>) returns (args: seq<Arg>)
    requires 0 <= i <= |s| && 0 <= n < MAXARGS && ParseArgs(s, i, n).Args? && ts == Toks(s, ParseArgs(s, i, n).pos)
    ensures Toks(s, i) == ArgToks(args, ts) && n + |args| < MAXARGS
    decreases |s| - i, 1
  {
    if EndsExec(Next(s, i)) || GetToken(s, i).kind == '\0' {
      args := [];
      ArgsDone(s, i, n);
    } else {
      ArgsParts(s, i, n);
      args := ArgShape(s, i, n, ts);
    }
  }

  // An argument and its redirections, then the others.
  lemma {:induction false} ArgShape(s: string, i: int, n: int, ts: seq<Tok>) returns (args: seq<Arg>)
    requires 0 <= i <= |s| && 0 <= n && n + 1 < MAXARGS && GetToken(s, i).kind == 'a'
    requires var l := ParseRedirs(s, GetToken(s, i).next);
      l.Redirs? && ParseArgs(s, l.pos, n + 1).Args? && ts == Toks(s, ParseArgs(s, l.pos, n + 1).pos)
    ensures Toks(s, i) == ArgToks(args, ts) && n + |args| < MAXARGS
    decreases |s| - i, 0
  {
    var w := GetToken(s, i);
    var reds := RedirsShape(s, w.next);
    var rest := ArgsShape(s, ParseRedirs(s, w.next).pos, n + 1, ts);
    WordFirst(s, i);
    ArgsJoin(s[w.q..w.eq], reds, rest, ts);
    args := [Arg(s[w.q..w.eq], reds)] + rest;
  }

  lemma {:induction false} BlockShape(s: string, i: int) returns (c: Com)
    requires 0 <= i <= |s| && Next(s, i) == '(' && ParseBlock(s, i).Ok?
    ensures Toks(s, i) == ComToks(c, Toks(s, ParseBlock(s, i).pos)) && FewCom(c)
    decreases |s| - i, 0
  {
    SymbolFirst(s, i, '(');
    var open := GetToken(s, i).next;
    var line := LineShape(s, open);
    var r := ParseLine(s, open);
    SymbolFirst(s, r.pos, ')');
    var reds := RedirsShape(s, GetToken(s, r.pos).next);
    c := Sub(line, reds);
  }

  lemma {:induction false} ComShape(s: string, i: int) returns (c: Com)
    requires 0 <= i <= |s| && ParseExec(s, i).Ok?
    ensures Toks(s, i) == ComToks(c, Toks(s, ParseExec(s, i).pos)) && FewCom(c)
    decreases |s| - i, 1
  {
    if Next(s, i) == '(' {
      c := BlockShape(s, i);
    } else {
      var lead := RedirsShape(s, i);
      var args := ArgsShape(s, ParseRedirs(s, i).pos, 0, Toks(s, ParseExec(s, i).pos));
      c := Simple(lead, args);
    }
  }

  lemma {:induction false} PipeShape(s: string, i: int) returns (p: Pipeline)
    requires 0 <= i <= |s| && ParsePipe(s, i).Ok?
    ensures Toks(s, i) == PipeToks(p, Toks(s, ParsePipe(s, i).pos)) && FewPipe(p)
    decreases |s| - i, 2
  {
    var c := ComShape(s, i);
    var r := ParseExec(s, i);
    if Next(s, r.pos) != '|' {
      p := Single(c);
      SkipToks(s, r.pos);
    } else {
      SymbolFirst(s, r.pos, '|');
      var rest := PipeShape(s, GetToken(s, r.pos).next);
      p := Piped(c, rest);
    }
  }

  lemma {:induction false} BacksShape(s: string, c: Cmd<Span>, i: int) returns (n: nat)
    requires 0 <= i <= |s|
    ensures Toks(s, i) == AmpToks(n, Toks(s, ParseBacks(s, c, i).pos))
    decreases |s| - i
  {
    if Next(s, i) != '&' {
      n := 0;
      SkipToks(s, i);
    } else {
      SymbolFirst(s, i, '&');
      var m := BacksShape(s, Back(c), GetToken(s, i).next);
      n := m + 1;
    }
  }

  lemma {:induction false} LineShape(s: string, i: int) returns (l: Line)
    requires 0 <= i <= |s| && ParseLine(s, i).Ok?
    ensures Toks(s, i) == LineToks(l, Toks(s, ParseLine(s, i).pos)) && FewLine(l)
    decreases |s| - i, 3
  {
    var p := PipeShape(s, i);
    var r := ParsePipe(s, i);
    var n := BacksShape(s, r.cmd, r.pos);
    var b := ParseBacks(s, r.cmd, r.pos);
    if Next(s, b.pos) != ';' {
      l := Last(p, n);
      SkipToks(s, b.pos);
    } else {
      SymbolFirst(s, b.pos, ';');
      var next := GetToken(s, b.pos).next;
      var rest := LineShape(s, next);
      LineGoesOn(s, i, b, ParseLine(s, next));
      l := Then(p, n, rest);
    }
  }

  // ---------------------------------------------------------------------
  // Both ways.

  // The line s, whatever its blanks, is l.
  ghost predicate Spells(s: string, l: Line) { FewLine(l) && Toks(s, 0) == LineToks(l, []) }

  // A line of the grammar parses to the tree it stands for.
  lemma ParsesAs(s: string, l: Line)
    requires Spells(s, l)
    ensures var r := ParseCmd(s); r.Ok? && Within(s, r.cmd) && Words(s, r.cmd) == LineTree(l)
  {
    LineParse(s, 0, l, []);
    AtNothing(s, ParseLine(s, 0).pos);
  }

  // Nothing else parses.
  lemma ParsedSpells(s: string) returns (l: Line)
    requires ParseCmd(s).Ok?
    ensures Spells(s, l)
  {
    l := LineShape(s, 0);
    assert Toks(s, ParseLine(s, 0).pos) == [];
  }

  // The shell accepts a line if and only if it is of the grammar, and the tree is then the one
  // that the line stands for.
  lemma AcceptsGrammar(s: string)
    ensures ParseCmd(s).Ok? <==> exists l :: Spells(s, l)
    ensures forall l :: Spells(s, l) ==> Reads(s, ParseCmd(s).cmd, LineTree(l))
  {
    if ParseCmd(s).Ok? { var l := ParsedSpells(s); }
    forall l | Spells(s, l) ensures ParseCmd(s).Ok? && Reads(s, ParseCmd(s).cmd, LineTree(l)) { ParsesAs(s, l); }
  }
}
