/**
 sh.c's parser as code: every method advances the cursor pos over the line, nulterminate
 overwrites the buffer. A tree is built when its parts are known, where the source fills in a
 node that it has already linked.
 */
module ShellCode {
  import opened ShellGrammar
  import opened ShellTokens
  import opened ShellSyntax
  import opened ShellParser
  import opened ShellTerminate

  // The parser does not care whether whitespace was skipped before.
  lemma SkipFirst(s: string, i: int)
    requires 0 <= i <= |s|
    ensures var j := Skip(s, i);
      Skip(s, j) == j && Next(s, j) == Next(s, i) && GetToken(s, j) == GetToken(s, i)
      && ParseRedirs(s, j) == ParseRedirs(s, i)
  {
    SkipTwice(s, i);
  }

  // all is list followed by rest
  ghost predicate Then(all: Redirs, list: seq<(Span, Mode)>, rest: Redirs) {
    match rest
    case NoFile => all == NoFile
    case Redirs(more, end) => all == Redirs(list + more, end)
  }

  ghost predicate RedirsTo(s: string, i: int, list: seq<(Span, Mode)>, pos: int) {
    forall x :: x == s ==> RedirsThen(x, i, list, pos)
  }

  ghost predicate RedirsThen(s: string, i: int, list: seq<(Span, Mode)>, pos: int) {
    0 <= i <= |s| && 0 <= pos <= |s| && Then(ParseRedirs(s, i), list, ParseRedirs(s, pos))
  }

  lemma RedirsStart(s: string, i: int)
    requires 0 <= i <= |s|
    ensures RedirsTo(s, i, [], i)
  {
    var r := ParseRedirs(s, i);
    assert Then(r, [], r);
    assert RedirsThen(s, i, [], i);
  }

  lemma ThenMore(all: Redirs, list: seq<(Span, Mode)>, x: (Span, Mode), rest: Redirs, more: Redirs)
    requires Then(all, list, rest) && Then(rest, [x], more)
    ensures Then(all, list + [x], more)
  {
    if more.Redirs? { assert list + ([x] + more.list) == list + [x] + more.list; }
  }

  // One redirection at pos.
  lemma RedirsUnfold(s: string, pos: int)
    requires 0 <= pos <= |s| && (Next(s, pos) == '<' || Next(s, pos) == '>')
    ensures var op := GetToken(s, pos);
      var w := GetToken(s, op.next);
      if w.kind != 'a' then ParseRedirs(s, pos) == NoFile
      else Then(ParseRedirs(s, pos), [(Span(w.q, w.eq), ModeOf(op.kind))], ParseRedirs(s, w.next))
  {
  }

  lemma RedirsMore(s: string, i: int, list: seq<(Span, Mode)>, pos: int)
    requires RedirsTo(s, i, list, pos) && 0 <= pos <= |s| && (Next(s, pos) == '<' || Next(s, pos) == '>')
    ensures var op := GetToken(s, pos);
      var w := GetToken(s, op.next);
      if w.kind != 'a' then 0 <= i <= |s| && ParseRedirs(s, i) == NoFile
      else RedirsTo(s, i, list + [(Span(w.q, w.eq), ModeOf(op.kind))], w.next)
  {
    var op := GetToken(s, pos);
    var w := GetToken(s, op.next);
    RedirsUnfold(s, pos);
    assert RedirsThen(s, i, list, pos);
    if w.kind == 'a' {
      var x := (Span(w.q, w.eq), ModeOf(op.kind));
      ThenMore(ParseRedirs(s, i), list, x, ParseRedirs(s, pos), ParseRedirs(s, w.next));
      assert RedirsThen(s, i, list + [x], w.next);
    }
  }

  lemma RedirsEnd(s: string, i: int, list: seq<(Span, Mode)>, pos: int)
    requires RedirsTo(s, i, list, pos) && 0 <= pos <= |s| && Next(s, pos) != '<' && Next(s, pos) != '>'
    ensures 0 <= i <= |s| && ParseRedirs(s, i) == Redirs(list, Skip(s, pos))
  {
    assert RedirsThen(s, i, list, pos);
    assert list + [] == list;
  }

  ghost predicate ArgsThen(all: Args, args: seq<Span>, list: seq<(Span, Mode)>, rest: Args) {
    match rest
    case BadArgs => all == BadArgs
    case Args(a, l, end) => all == Args(args + a, list + l, end)
  }

  ghost predicate ArgsAt(s: string, i: int, args: seq<Span>, list: seq<(Span, Mode)>, pos: int) {
    0 <= i <= |s| && 0 <= pos <= |s| && ArgsThen(ParseArgs(s, i, 0), args, list, ParseArgs(s, pos, |args|))
  }

  ghost predicate ArgsTo(s: string, i: int, args: seq<Span>, list: seq<(Span, Mode)>, pos: int) {
    forall x :: x == s ==> ArgsAt(x, i, args, list, pos)
  }

  lemma ArgsStart(s: string, i: int)
    requires 0 <= i <= |s|
    ensures ArgsTo(s, i, [], [], i)
  {
    var r := ParseArgs(s, i, 0);
    assert ArgsThen(r, [], [], r);
    assert ArgsAt(s, i, [], [], i);
  }

  lemma ArgsThenMore(all: Args, args: seq<Span>, list: seq<(Span, Mode)>, w: Span, l: seq<(Span, Mode)>, rest: Args,
      more: Args)
    requires ArgsThen(all, args, list, rest) && ArgsThen(rest, [w], l, more)
    ensures ArgsThen(all, args + [w], list + l, more)
  {
    if more.Args? {
      assert args + ([w] + more.args) == args + [w] + more.args;
      assert list + (l + more.list) == list + l + more.list;
    }
  }

  // One argument at pos, and the redirections behind it.
  lemma ArgsUnfold(s: string, pos: int, n: int)
    requires 0 <= pos <= |s| && !EndsExec(Next(s, pos)) && GetToken(s, pos).kind != '\0'
    ensures var w := GetToken(s, pos);
      if w.kind != 'a' || n + 1 >= MAXARGS || ParseRedirs(s, w.next).NoFile? then ParseArgs(s, pos, n) == BadArgs
      else
        var r := ParseRedirs(s, w.next);
        ArgsThen(ParseArgs(s, pos, n), [Span(w.q, w.eq)], r.list, ParseArgs(s, r.pos, n + 1))
  {
  }

  lemma ArgsGoOn(s: string, i: int, args: seq<Span>, list: seq<(Span, Mode)>, pos: int, w: Span, l: seq<(Span, Mode)>,
      pos': int)
    requires ArgsTo(s, i, args, list, pos) && 0 <= pos <= |s| && 0 <= pos' <= |s|
    requires ArgsThen(ParseArgs(s, pos, |args|), [w], l, ParseArgs(s, pos', |args| + 1))
    ensures ArgsTo(s, i, args + [w], list + l, pos')
  {
    assert ArgsAt(s, i, args, list, pos);
    var all, rest, more := ParseArgs(s, i, 0), ParseArgs(s, pos, |args|), ParseArgs(s, pos', |args| + 1);
    ArgsThenMore(all, args, list, w, l, rest, more);
    assert |args + [w]| == |args| + 1;
    assert ArgsAt(s, i, args + [w], list + l, pos');
  }

  lemma ArgsFail(s: string, i: int, args: seq<Span>, list: seq<(Span, Mode)>, pos: int)
    requires ArgsTo(s, i, args, list, pos) && 0 <= pos <= |s| && ParseArgs(s, pos, |args|) == BadArgs
    ensures 0 <= i <= |s| && ParseArgs(s, i, 0) == BadArgs
  {
    assert ArgsAt(s, i, args, list, pos);
  }

  lemma ArgsMore(s: string, i: int, args: seq<Span>, list: seq<(Span, Mode)>, pos: int)
    requires ArgsTo(s, i, args, list, pos) && 0 <= pos <= |s| && !EndsExec(Next(s, pos))
      && GetToken(s, pos).kind != '\0'
    ensures var w := GetToken(s, pos);
      if w.kind != 'a' || |args| + 1 >= MAXARGS || ParseRedirs(s, w.next).NoFile? then 0 <= i <= |s|
        && ParseArgs(s, i, 0) == BadArgs
      else
        var r := ParseRedirs(s, w.next);
        ArgsTo(s, i, args + [Span(w.q, w.eq)], list + r.list, r.pos)
  {
    var w := GetToken(s, pos);
    ArgsUnfold(s, pos, |args|);
    if w.kind != 'a' || |args| + 1 >= MAXARGS || ParseRedirs(s, w.next).NoFile? {
      ArgsFail(s, i, args, list, pos);
    } else {
      var r := ParseRedirs(s, w.next);
      ArgsGoOn(s, i, args, list, pos, Span(w.q, w.eq), r.list, r.pos);
    }
  }

  lemma ArgsStop(s: string, i: int, args: seq<Span>, list: seq<(Span, Mode)>, pos: int)
    requires ArgsTo(s, i, args, list, pos) && 0 <= pos <= |s|
      && (EndsExec(Next(s, pos)) || GetToken(s, pos).kind == '\0')
    ensures 0 <= i <= |s| && ParseArgs(s, i, 0) == Args(args, list, Skip(s, pos))
  {
    assert ArgsAt(s, i, args, list, pos);
    assert args + [] == args && list + [] == list;
  }

  class Parser {
    const s: string        // the line, without its NUL
    var pos: int           // *ps
    var buf: string        // the line in memory

    ghost predicate Valid()
      reads this`pos
    {
      0 <= pos <= |s|
    }

    constructor (s: string)
      requires forall k :: 0 <= k < |s| ==> s[k] != '\0'
      ensures Valid() && pos == 0 && this.s == s && Holds(buf, s)
    {
      this.s, pos, buf := s, 0, s + ['\0'];
    }

    // the loops over whitespace
    method SkipSpaces(i: int) returns (j: int)
      requires 0 <= i <= |s|
      ensures j == Skip(s, i)
    {
      j := i;
      while j < |s| && Space(s[j])
        invariant i <= j <= |s| && Skip(s, i) == Skip(s, j)
      {
        j := j + 1;
      }
    }

    // gettoken
    method GetTok() returns (kind: char, q: int, eq: int)
      requires Valid()
      modifies this`pos
      ensures Valid() && Token(kind, q, eq, pos) == GetToken(s, old(pos))
    {
      var i := SkipSpaces(pos);
      q := i;
      if i == |s| {
        kind := '\0';
      } else if s[i] == '>' {
        i := i + 1;
        if i < |s| && s[i] == '>' {
          kind := '+';
          i := i + 1;
        } else {
          kind := '>';
        }
      } else if Symbol(s[i]) {
        kind := s[i];
        i := i + 1;
      } else {
        kind := 'a';
        while i < |s| && Letter(s[i])
          invariant q <= i <= |s| && WordEnd(s, q) == WordEnd(s, i)
        {
          i := i + 1;
        }
      }
      eq := i;
      pos := SkipSpaces(i);
      SkipTwice(s, i);
    }

    // peek
    method Peek(toks: string) returns (r: bool)
      requires Valid()
      modifies this`pos
      ensures Valid() && pos == Skip(s, old(pos)) && (r <==> pos < |s| && s[pos] in toks)
    {
      pos := SkipSpaces(pos);
      r := pos < |s| && s[pos] in toks;
    }

    // parseredirs: the redirections, in order
    method Redirections() returns (r: Redirs)
      requires Valid()
      modifies this`pos
      ensures Valid() && r == ParseRedirs(s, old(pos)) && (r.Redirs? ==> pos == r.pos)
    {
      var list := [];
      RedirsStart(s, pos);
      while true
        invariant Valid() && RedirsTo(s, old(pos), list, pos)
        decreases |s| - pos
      {
        ghost var p := pos;
        SkipFirst(s, pos);
        var more := Peek("<>");
        if !more {
          RedirsEnd(s, old(pos), list, p);
          return Redirs(list, pos);
        }
        RedirsMore(s, old(pos), list, p);
        var tok, _, _ := GetTok();
        var kind, q, eq := GetTok();
        if kind != 'a' {
          return NoFile;
        }
        list := list + [(Span(q, eq), ModeOf(tok))];
      }
    }

    // parseexec's loop
    method Arguments() returns (r: Args)
      requires Valid()
      modifies this`pos
      ensures Valid() && r == ParseArgs(s, old(pos), 0) && (r.Args? ==> pos == r.pos)
    {
      var args, list := [], [];
      ArgsStart(s, pos);
      while true
        invariant Valid() && ArgsTo(s, old(pos), args, list, pos)
        decreases |s| - pos
      {
        ghost var p := pos;
        SkipFirst(s, pos);
        var stop := Peek("|)&;");
        if stop {
          ArgsStop(s, old(pos), args, list, p);
          return Args(args, list, pos);
        }
        var tok, q, eq := GetTok();
        if tok == '\0' {
          ArgsStop(s, old(pos), args, list, p);
          return Args(args, list, pos);
        }
        ArgsMore(s, old(pos), args, list, p);
        if tok != 'a' {
          return BadArgs;
        }
        args := args + [Span(q, eq)];
        if |args| >= MAXARGS {
          return BadArgs;
        }
        var rr := Redirections();
        if rr.NoFile? {
          return BadArgs;
        }
        list := list + rr.list;
      }
    }

    // parseexec
    method SimpleCommand() returns (r: Parse)
      requires Valid()
      modifies this`pos
      ensures Valid() && r == ParseExec(s, old(pos)) && (r.Ok? ==> pos == r.pos)
      ensures forall c, ts :: FewCom(c) && AtComEnd(ts) && Toks(s, old(pos)) == ComToks(c, ts) ==>
        Gives(s, r, ComTree(c), ts)
      decreases |s| - pos, 1
    {
      forall c, ts | FewCom(c) && AtComEnd(ts) && Toks(s, pos) == ComToks(c, ts)
        ensures Gives(s, ParseExec(s, pos), ComTree(c), ts)
      {
        ComParse(s, pos, c, ts);
      }
      SkipFirst(s, pos);
      var block := Peek("(");
      if block {
        r := BlockCommand(old(pos));
        return;
      }
      var first := Redirections();
      if first.NoFile? {
        return Fail;
      }
      var a := Arguments();
      if a.BadArgs? {
        return Fail;
      }
      r := Ok(Wrap(Exec(a.args), first.list + a.list), pos);
    }

    // parseblock, at a '('; i is where the caller began to look for it
    method BlockCommand(ghost i: int) returns (r: Parse)
      requires Valid() && 0 <= i <= |s| && pos == Skip(s, i) && Next(s, i) == '('
      modifies this`pos
      ensures Valid() && r == ParseBlock(s, i) && (r.Ok? ==> pos == r.pos)
      decreases |s| - pos, 0
    {
      SkipFirst(s, i);
      var open := Peek("(");
      assert open;     // the panic "parseblock" is unreachable
      var _, _, _ := GetTok();
      r := CommandLine();
      if r.Fail? {
        return;
      }
      SkipFirst(s, pos);
      var closed := Peek(")");
      if !closed {
        return Fail;
      }
      var _, _, _ := GetTok();
      var rr := Redirections();
      if rr.NoFile? {
        return Fail;
      }
      r := Ok(Wrap(r.cmd, rr.list), pos);
    }

    // parsepipe
    method Pipeline() returns (r: Parse)
      requires Valid()
      modifies this`pos
      ensures Valid() && r == ParsePipe(s, old(pos)) && (r.Ok? ==> pos == r.pos)
      ensures forall p, ts :: FewPipe(p) && AtPipeEnd(ts) && Toks(s, old(pos)) == PipeToks(p, ts) ==>
        Gives(s, r, PipeTree(p), ts)
      decreases |s| - pos, 2
    {
      forall p, ts | FewPipe(p) && AtPipeEnd(ts) && Toks(s, pos) == PipeToks(p, ts)
        ensures Gives(s, ParsePipe(s, pos), PipeTree(p), ts)
      {
        PipeParse(s, pos, p, ts);
      }
      r := SimpleCommand();
      if r.Fail? {
        return;
      }
      SkipFirst(s, pos);
      var piped := Peek("|");
      if !piped {
        return Ok(r.cmd, pos);
      }
      var _, _, _ := GetTok();
      var right := Pipeline();
      r := if right.Fail? then Fail else Ok(Pipe(r.cmd, right.cmd), pos);
    }

    // parseline's loop over '&'
    method Backgrounded(cmd: Cmd<Span>) returns (c: Cmd<Span>)
      requires Valid()
      modifies this`pos
      ensures Valid() && Ok(c, pos) == ParseBacks(s, cmd, old(pos))
    {
      c := cmd;
      while true
        invariant Valid() && old(pos) <= pos && ParseBacks(s, c, pos) == ParseBacks(s, cmd, old(pos))
        decreases |s| - pos
      {
        SkipFirst(s, pos);
        var back := Peek("&");
        if !back {
          return;
        }
        var _, _, _ := GetTok();
        c := Back(c);
      }
    }

    // parseline
    method CommandLine() returns (r: Parse)
      requires Valid()
      modifies this`pos
      ensures Valid() && r == ParseLine(s, old(pos)) && (r.Ok? ==> pos == r.pos)
      ensures forall l, ts :: FewLine(l) && AtLineEnd(ts) && Toks(s, old(pos)) == LineToks(l, ts) ==>
        Gives(s, r, LineTree(l), ts)
      decreases |s| - pos, 3
    {
      forall l, ts | FewLine(l) && AtLineEnd(ts) && Toks(s, pos) == LineToks(l, ts)
        ensures Gives(s, ParseLine(s, pos), LineTree(l), ts)
      {
        LineParse(s, pos, l, ts);
      }
      r := Pipeline();
      if r.Fail? {
        return;
      }
      var c := Backgrounded(r.cmd);
      SkipFirst(s, pos);
      var more := Peek(";");
      if !more {
        return Ok(c, pos);
      }
      var _, _, _ := GetTok();
      var right := CommandLine();
      r := if right.Fail? then Fail else Ok(List(c, right.cmd), pos);
    }

    // nulterminate
    method Nulterminate(cmd: Cmd<Span>)
      requires forall e :: e in Ends(cmd) ==> 0 <= e < |buf|
      modifies this`buf
      ensures Nulled(old(buf), buf, Ends(cmd))
      decreases cmd
    {
      match cmd
      case Exec(args) =>
        var i := 0;
        while i < |args|
          invariant 0 <= i <= |args| && |buf| == |old(buf)|
          invariant forall k :: 0 <= k < |buf| ==>
            buf[k] == if exists j :: 0 <= j < i && args[j].eq == k then '\0' else old(buf)[k]
        {
          assert args[i].eq in Ends(cmd);
          buf := buf[args[i].eq := '\0'];
          i := i + 1;
        }
      case Redir(sub, file, mode) =>
        assert Ends(cmd) == Ends(sub) + {file.eq};
        Nulterminate(sub);
        buf := buf[file.eq := '\0'];
      case Pipe(left, right) =>
        assert Ends(cmd) == Ends(left) + Ends(right);
        Nulterminate(left);
        Nulterminate(right);
      case List(left, right) =>
        assert Ends(cmd) == Ends(left) + Ends(right);
        Nulterminate(left);
        Nulterminate(right);
      case Back(sub) =>
        assert Ends(cmd) == Ends(sub);
        Nulterminate(sub);
    }

    // parsecmd: the tree that the line stands for, its words strings in memory; or a panic.
    method Command() returns (r: Parse)
      requires pos == 0 && Holds(buf, s)
      modifies this`pos, this`buf
      ensures r == ParseCmd(s) && (r.Ok? <==> exists l :: Spells(s, l))
      ensures forall l :: Spells(s, l) ==> Within(buf, r.cmd) && InMemory(buf, r.cmd) == LineTree(l)
      ensures r.Ok? ==> Within(s, r.cmd) && Within(buf, r.cmd) && InMemory(buf, r.cmd) == Words(s, r.cmd)
    {
      AcceptsGrammar(s);
      r := CommandLine();
      if r.Fail? {
        return;
      }
      ghost var buf0 := buf;
      SkipFirst(s, pos);
      var _ := Peek("");
      if pos != |s| {
        return Fail;
      }
      LineWords(s, 0);
      EndsBound(s, r.cmd);
      Nulterminate(r.cmd);
      WordsWithin(s, s, r.cmd);
      WordsWithin(s, buf, r.cmd);
      TreeKept(s, buf0, buf, r.cmd, r.cmd);
      r := Ok(r.cmd, |s|);
    }
  }

  lemma EndsBound(s: string, c: Cmd<Span>)
    requires WordsAt(s, c)
    ensures forall e :: e in Ends(c) ==> 0 <= e <= |s|
  {
    match c
    case Exec(args) => forall k | 0 <= k < |args| ensures 0 <= args[k].eq <= |s| { assert WordAt(s, args[k]); }
    case Redir(sub, file, mode) => EndsBound(s, sub);
    case Pipe(left, right) => EndsBound(s, left); EndsBound(s, right);
    case List(left, right) => EndsBound(s, left); EndsBound(s, right);
    case Back(sub) => EndsBound(s, sub);
  }
}
