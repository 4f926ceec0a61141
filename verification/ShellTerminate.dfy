/**
 nulterminate: the parsed tree points into the line, and overwriting the ends of its words with
 NUL leaves every word as the C string that starts where it starts.
 */
module ShellTerminate {
  import opened ShellGrammar
  import opened ShellTokens
  import opened ShellSyntax
  import opened ShellRoundTrip

  ghost predicate SpansAt(s: string, args: seq<Span>) { forall k :: 0 <= k < |args| ==> WordAt(s, args[k]) }

  // Every part of c is a word of s, and no command has more words than argv holds.
  ghost predicate WordsAt(s: string, c: Cmd<Span>) {
    match c
    case Exec(args) => |args| < MAXARGS && SpansAt(s, args)
    case Redir(sub, file, mode) => WordsAt(s, sub) && WordAt(s, file)
    case Pipe(left, right) => WordsAt(s, left) && WordsAt(s, right)
    case List(left, right) => WordsAt(s, left) && WordsAt(s, right)
    case Back(sub) => WordsAt(s, sub)
  }

  ghost predicate ListAt(s: string, list: seq<(Span, Mode)>) { forall k :: 0 <= k < |list| ==> WordAt(s, list[k].0) }

  // ---------------------------------------------------------------------
  // The parser only makes such trees.

  lemma {:induction false} WrapWords(s: string, c: Cmd<Span>, list: seq<(Span, Mode)>)
    requires WordsAt(s, c) && ListAt(s, list)
    ensures WordsAt(s, Wrap(c, list))
    decreases |list|
  {
    if |list| > 0 { WrapWords(s, Redir(c, list[0].0, list[0].1), list[1..]); }
  }

  lemma {:induction false} RedirsWords(s: string, i: int)
    requires 0 <= i <= |s| && ParseRedirs(s, i).Redirs?
    ensures ListAt(s, ParseRedirs(s, i).list)
    decreases |s| - i
  {
    if Next(s, i) == '<' || Next(s, i) == '>' { RedirsWords(s, GetToken(s, GetToken(s, i).next).next); }
  }

  lemma {:induction false} ArgsWords(s: string, i: int, n: int)
    requires 0 <= i <= |s| && ParseArgs(s, i, n).Args?
    ensures ListAt(s, ParseArgs(s, i, n).list) && SpansAt(s, ParseArgs(s, i, n).args)
    decreases |s| - i
  {
    var w := GetToken(s, i);
    if !EndsExec(Next(s, i)) && w.kind != '\0' {
      RedirsWords(s, w.next);
      ArgsWords(s, ParseRedirs(s, w.next).pos, n + 1);
    }
  }

  lemma {:induction false} ArgsFew(s: string, i: int, n: int)
    requires 0 <= i <= |s| && n < MAXARGS && ParseArgs(s, i, n).Args?
    ensures n + |ParseArgs(s, i, n).args| < MAXARGS
    decreases |s| - i
  {
    var w := GetToken(s, i);
    if !EndsExec(Next(s, i)) && w.kind != '\0' { ArgsFew(s, ParseRedirs(s, w.next).pos, n + 1); }
  }

  lemma {:induction false} BacksWords(s: string, c: Cmd<Span>, i: int)
    requires 0 <= i <= |s| && WordsAt(s, c)
    ensures WordsAt(s, ParseBacks(s, c, i).cmd)
    decreases |s| - i
  {
    if Next(s, i) == '&' { BacksWords(s, Back(c), GetToken(s, i).next); }
  }

  lemma {:induction false} ExecWords(s: string, i: int)
    requires 0 <= i <= |s| && ParseExec(s, i).Ok?
    ensures WordsAt(s, ParseExec(s, i).cmd)
    decreases |s| - i, 0
  {
    if Next(s, i) == '(' {
      var line := ParseLine(s, GetToken(s, i).next);
      LineWords(s, GetToken(s, i).next);
      var at := GetToken(s, line.pos).next;
      RedirsWords(s, at);
      WrapWords(s, line.cmd, ParseRedirs(s, at).list);
    } else {
      RedirsWords(s, i);
      var r := ParseRedirs(s, i);
      ArgsWords(s, r.pos, 0);
      ArgsFew(s, r.pos, 0);
      var a := ParseArgs(s, r.pos, 0);
      WrapWords(s, Exec(a.args), r.list + a.list);
    }
  }

  lemma {:induction false} PipeWords(s: string, i: int)
    requires 0 <= i <= |s| && ParsePipe(s, i).Ok?
    ensures WordsAt(s, ParsePipe(s, i).cmd)
    decreases |s| - i, 1
  {
    ExecWords(s, i);
    var pos := ParseExec(s, i).pos;
    if Next(s, pos) == '|' { PipeWords(s, GetToken(s, pos).next); }
  }

  lemma {:induction false} LineWords(s: string, i: int)
    requires 0 <= i <= |s| && ParseLine(s, i).Ok?
    ensures WordsAt(s, ParseLine(s, i).cmd)
    decreases |s| - i, 2
  {
    PipeWords(s, i);
    var p := ParsePipe(s, i);
    BacksWords(s, p.cmd, p.pos);
    var pos := ParseBacks(s, p.cmd, p.pos).pos;
    if Next(s, pos) == ';' { LineWords(s, GetToken(s, pos).next); }
  }

  // ---------------------------------------------------------------------
  // Every tree the parser makes can be written, and the written line gives it back.

  lemma {:induction false} ParsedWritable(s: string, c: Cmd<Span>)
    requires WordsAt(s, c)
    ensures Within(s, c) && Writable(Words(s, c))
  {
    match c
    case Exec(args) =>
      forall k | 0 <= k < |args|
        ensures InLine(s, args[k]) && Word(s[args[k].q..args[k].eq])
      {
        assert WordAt(s, args[k]);
      }
    case Redir(sub, file, mode) => ParsedWritable(s, sub);
    case Pipe(left, right) => ParsedWritable(s, left); ParsedWritable(s, right);
    case List(left, right) => ParsedWritable(s, left); ParsedWritable(s, right);
    case Back(sub) => ParsedWritable(s, sub);
  }

  // Parse, write, parse: for every line that parsecmd accepts, the tree of its words, written
  // out, is a line that parsecmd accepts and that has the same tree of words.
  lemma ParseWriteParse(s: string)
    requires ParseCmd(s).Ok?
    ensures Within(s, ParseCmd(s).cmd) && Writable(Words(s, ParseCmd(s).cmd))
    ensures var t := Write(Words(s, ParseCmd(s).cmd)); var r := ParseCmd(t);
      r.Ok? && Within(t, r.cmd) && Words(t, r.cmd) == Words(s, ParseCmd(s).cmd)
  {
    LineWords(s, 0);
    ParsedWritable(s, ParseCmd(s).cmd);
    RoundTrip(Words(s, ParseCmd(s).cmd));
  }

  // ---------------------------------------------------------------------
  // Overwriting the ends.

  // The positions nulterminate writes to.
  function Ends(c: Cmd<Span>): (e: set<int>) {
    match c
    case Exec(args) => set k | 0 <= k < |args| :: args[k].eq
    case Redir(sub, file, mode) => Ends(sub) + {file.eq}
    case Pipe(left, right) => Ends(left) + Ends(right)
    case List(left, right) => Ends(left) + Ends(right)
    case Back(sub) => Ends(sub)
  }

  // buf with NUL at the positions of e
  ghost predicate Nulled(buf: string, buf': string, e: set<int>) {
    |buf'| == |buf| && forall k :: 0 <= k < |buf| ==> buf'[k] == if k in e then '\0' else buf[k]
  }

  // The C string at q.
  function CString(buf: string, q: int): (w: string)
    requires 0 <= q <= |buf|
    decreases |buf| - q
  {
    if q == |buf| || buf[q] == '\0' then "" else [buf[q]] + CString(buf, q + 1)
  }

  // The line s as a C string in memory.
  ghost predicate Holds(buf: string, s: string) {
    |buf| == |s| + 1 && buf[|s|] == '\0' && forall k :: 0 <= k < |s| ==> buf[k] == s[k] && s[k] != '\0'
  }

  lemma {:induction false} CStringTo(buf: string, q: int, e: int)
    requires 0 <= q <= e < |buf| && buf[e] == '\0' && forall k :: q <= k < e ==> buf[k] != '\0'
    ensures CString(buf, q) == buf[q..e]
    decreases e - q
  {
    if q < e { CStringTo(buf, q + 1, e); }
  }

  // No end of a word lies inside a word.
  lemma EndOutside(s: string, c: Cmd<Span>, w: Span, k: int)
    requires WordsAt(s, c) && WordAt(s, w) && w.q <= k < w.eq
    ensures k !in Ends(c)
  {
    match c
    case Exec(args) => forall j | 0 <= j < |args| ensures args[j].eq != k { assert WordAt(s, args[j]); }
    case Redir(sub, file, mode) => EndOutside(s, sub, w, k);
    case Pipe(left, right) => EndOutside(s, left, w, k); EndOutside(s, right, w, k);
    case List(left, right) => EndOutside(s, left, w, k); EndOutside(s, right, w, k);
    case Back(sub) => EndOutside(s, sub, w, k);
  }

  lemma WordKept(s: string, buf: string, buf': string, c: Cmd<Span>, w: Span)
    requires WordsAt(s, c) && WordAt(s, w) && w.eq in Ends(c) && Holds(buf, s) && Nulled(buf, buf', Ends(c))
    ensures CString(buf', w.q) == s[w.q..w.eq]
  {
    forall k | w.q <= k < w.eq ensures buf'[k] == s[k] && buf'[k] != '\0' { EndOutside(s, c, w, k); }
    CStringTo(buf', w.q, w.eq);
    assert buf'[w.q..w.eq] == s[w.q..w.eq];
  }

  // The tree of words that runcmd sees in memory.
  ghost function InMemory(buf: string, c: Cmd<Span>): (t: Cmd<string>)
    requires Within(buf, c)
  {
    match c
    case Exec(args) => Exec(seq(|args|, k requires 0 <= k < |args| => CString(buf, args[k].q)))
    case Redir(sub, file, mode) => Redir(InMemory(buf, sub), CString(buf, file.q), mode)
    case Pipe(left, right) => Pipe(InMemory(buf, left), InMemory(buf, right))
    case List(left, right) => List(InMemory(buf, left), InMemory(buf, right))
    case Back(sub) => Back(InMemory(buf, sub))
  }

  lemma WordsWithin(s: string, buf: string, c: Cmd<Span>)
    requires WordsAt(s, c) && |buf| >= |s|
    ensures Within(buf, c)
  {
    match c
    case Exec(args) => forall k | 0 <= k < |args| ensures InLine(buf, args[k]) { assert WordAt(s, args[k]); }
    case Redir(sub, file, mode) => WordsWithin(s, buf, sub);
    case Pipe(left, right) => WordsWithin(s, buf, left); WordsWithin(s, buf, right);
    case List(left, right) => WordsWithin(s, buf, left); WordsWithin(s, buf, right);
    case Back(sub) => WordsWithin(s, buf, sub);
  }

  lemma ArgsKept(s: string, buf: string, buf': string, whole: Cmd<Span>, args: seq<Span>)
    requires WordsAt(s, whole) && WordsAt(s, Exec(args)) && Ends(Exec(args)) <= Ends(whole) && Holds(buf, s)
      && Nulled(buf, buf', Ends(whole))
    requires Within(s, Exec(args)) && Within(buf', Exec(args))
    ensures InMemory(buf', Exec(args)) == Words(s, Exec(args))
  {
    forall k | 0 <= k < |args| ensures CString(buf', args[k].q) == s[args[k].q..args[k].eq] {
      assert WordAt(s, args[k]) && args[k].eq in Ends(Exec(args));
      WordKept(s, buf, buf', whole, args[k]);
    }
  }

  // After nulterminate, every string of the tree is its token.
  lemma TreeKept(s: string, buf: string, buf': string, whole: Cmd<Span>, c: Cmd<Span>)
    requires WordsAt(s, whole) && WordsAt(s, c) && Ends(c) <= Ends(whole) && Holds(buf, s)
      && Nulled(buf, buf', Ends(whole))
    requires Within(s, c) && Within(buf', c)
    ensures InMemory(buf', c) == Words(s, c)
  {
    match c
    case Exec(args) => ArgsKept(s, buf, buf', whole, args);
    case Redir(sub, file, mode) => TreeKept(s, buf, buf', whole, sub); WordKept(s, buf, buf', whole, file);
    case Pipe(left, right) => TreeKept(s, buf, buf', whole, left); TreeKept(s, buf, buf', whole, right);
    case List(left, right) => TreeKept(s, buf, buf', whole, left); TreeKept(s, buf, buf', whole, right);
    case Back(sub) => TreeKept(s, buf, buf', whole, sub);
  }
}
