/**
 Writing and parsing are inverse: a line of the grammar in any layout, and every command tree,
 written with parentheses only where they are needed.
 */
module ShellRoundTrip {
  import opened ShellGrammar
  import opened ShellTokens
  import opened ShellSyntax
  import opened ShellParser

  // A line of the grammar, written with any blanks around its tokens, parses to its tree.
  lemma LaidParses(s: string, l: Line, at: seq<int>)
    requires FewLine(l) && Laid(s, 0, LineToks(l, []), at)
    ensures var r := ParseCmd(s); r.Ok? && Within(s, r.cmd) && Words(s, r.cmd) == LineTree(l)
  {
    LaidToks(s, 0, LineToks(l, []), at);
    ParsesAs(s, l);
  }

  // ---------------------------------------------------------------------
  // One way to lay the tokens out: a space behind each.

  function Written(ts: seq<Tok>): (s: string) { if ts == [] then "" else Spelled(ts[0]) + " " + Written(ts[1..]) }

  ghost predicate AllOk(ts: seq<Tok>) { forall k :: 0 <= k < |ts| ==> TokOk(ts[k]) }

  lemma LaidBefore(s: string, i: int, j: int, ts: seq<Tok>, at: seq<int>)
    requires Blank(s, i, j) && Laid(s, j, ts, at)
    ensures Laid(s, i, ts, at)
  {
  }

  lemma SpelledHere(pre: string, t: Tok, rest: string)
    requires TokOk(t)
    ensures SpelledAt(pre + Spelled(t) + " " + rest, |pre|, t)
    ensures var e := |pre| + |Spelled(t)|; Blank(pre + Spelled(t) + " " + rest, e, e + 1)
  {
    var s, e := pre + Spelled(t) + " " + rest, |pre| + |Spelled(t)|;
    assert s[|pre|..e] == Spelled(t);
    assert s[e] == ' ';
  }

  lemma {:induction false} WrittenLaid(pre: string, ts: seq<Tok>) returns (at: seq<int>)
    requires AllOk(ts)
    ensures Laid(pre + Written(ts), |pre|, ts, at)
    decreases |ts|
  {
    var s := pre + Written(ts);
    if ts == [] {
      at := [];
    } else {
      var t, rest := ts[0], Written(ts[1..]);
      var pre' := pre + Spelled(t) + " ";
      assert AllOk(ts[1..]);
      var at' := WrittenLaid(pre', ts[1..]);
      assert s == pre' + rest;
      SpelledHere(pre, t, rest);
      LaidBefore(s, |pre'| - 1, |pre'|, ts[1..], at');
      LaidCons(s, |pre|, |pre|, t, ts[1..], at');
      at := [|pre|] + at';
      assert [t] + ts[1..] == ts;
    }
  }

  // ---------------------------------------------------------------------
  // A line for every tree.

  ghost predicate Writable(c: Cmd<string>) {
    match c
    case Exec(args) => |args| < MAXARGS && forall k :: 0 <= k < |args| ==> Word(args[k])
    case Redir(sub, file, mode) => Writable(sub) && Word(file)
    case Pipe(left, right) => Writable(left) && Writable(right)
    case List(left, right) => Writable(left) && Writable(right)
    case Back(sub) => Writable(sub)
  }

  function Size(c: Cmd<string>): (n: nat) {
    match c
    case Exec(args) => 0
    case Redir(sub, file, mode) => Size(sub) + 1
    case Pipe(left, right) => Size(left) + Size(right) + 1
    case List(left, right) => Size(left) + Size(right) + 1
    case Back(sub) => Size(sub) + 1
  }

  // c without the '&'s around it, and their number
  function Front(c: Cmd<string>): (f: Cmd<string>)
    ensures !f.Back? && Size(f) <= Size(c) && (c.Back? ==> Size(f) < Size(c))
  {
    if c.Back? then Front(c.cmd) else c
  }

  function Amps(c: Cmd<string>): (n: nat) { if c.Back? then Amps(c.cmd) + 1 else 0 }

  // c without the redirections around it, and these
  function Base(c: Cmd<string>): (b: Cmd<string>)
    ensures !b.Redir? && Size(b) <= Size(c) && (c.Redir? ==> Size(b) < Size(c))
  {
    if c.Redir? then Base(c.cmd) else c
  }

  function RedsIn(c: Cmd<string>): (reds: seq<Red>) {
    if c.Redir? then RedsIn(c.cmd) + [Red(c.mode, c.file)] else []
  }

  // the words, the redirections behind the last
  function ArgsOf(words: seq<string>, reds: seq<Red>): (args: seq<Arg>) {
    if words == [] then []
    else if |words| == 1 then [Arg(words[0], reds)]
    else [Arg(words[0], [])] + ArgsOf(words[1..], reds)
  }

  function LineOf(c: Cmd<string>): (l: Line)
    decreases Size(c), if c.Pipe? then 1 else if c.List? || c.Back? then 0 else 2
  {
    if c.List? then Then(PipeOf(Front(c.left)), Amps(c.left), LineOf(c.right)) else Last(PipeOf(Front(c)), Amps(c))
  }

  function PipeOf(c: Cmd<string>): (p: Pipeline)
    decreases Size(c), if c.Pipe? then 0 else if c.List? || c.Back? then 2 else 1
  {
    if c.Pipe? then Piped(ComOf(c.left), PipeOf(c.right)) else Single(ComOf(c))
  }

  function ComOf(c: Cmd<string>): (m: Com)
    decreases Size(c), if c.Pipe? then 2 else if c.List? || c.Back? then 1 else 0
  {
    var b := Base(c);
    if !b.Exec? then Sub(LineOf(b), RedsIn(c))
    else if b.args == [] then Simple(RedsIn(c), [])
    else Simple([], ArgsOf(b.args, RedsIn(c)))
  }

  // The line stands for the tree.

  lemma {:induction false} FrontBacks(c: Cmd<string>)
    ensures Backs(Front(c), Amps(c)) == c
  {
    if c.Back? { FrontBacks(c.cmd); }
  }

  lemma {:induction false} BaseUnder(c: Cmd<string>)
    ensures Under(Base(c), RedsIn(c)) == c
  {
    if c.Redir? {
      BaseUnder(c.cmd);
      var reds := RedsIn(c);
      assert reds[..|reds| - 1] == RedsIn(c.cmd);
    }
  }

  lemma {:induction false} ArgsOfAre(words: seq<string>, reds: seq<Red>)
    requires words != []
    ensures WordsOf(ArgsOf(words, reds)) == words && RedsOf(ArgsOf(words, reds)) == reds
    ensures |ArgsOf(words, reds)| == |words|
    decreases |words|
  {
    var args := ArgsOf(words, reds);
    if |words| == 1 {
      assert args[1..] == [] && words == [words[0]];
      assert RedsOf(args) == reds + RedsOf(args[1..]);
    } else {
      ArgsOfAre(words[1..], reds);
      assert args[1..] == ArgsOf(words[1..], reds) && words == [words[0]] + words[1..];
      assert RedsOf(args) == [] + RedsOf(args[1..]);
    }
  }

  lemma ComOfTree(c: Cmd<string>)
    ensures ComTree(ComOf(c)) == c
    decreases Size(c), if c.Pipe? then 2 else if c.List? || c.Back? then 1 else 0
  {
    var b := Base(c);
    BaseUnder(c);
    if !b.Exec? {
      LineOfTree(b);
    } else if b.args == [] {
      assert RedsIn(c) + [] == RedsIn(c);
    } else {
      ArgsOfAre(b.args, RedsIn(c));
      assert [] + RedsIn(c) == RedsIn(c);
    }
  }

  lemma PipeOfTree(c: Cmd<string>)
    ensures PipeTree(PipeOf(c)) == c
    decreases Size(c), if c.Pipe? then 0 else if c.List? || c.Back? then 2 else 1
  {
    if c.Pipe? { ComOfTree(c.left); PipeOfTree(c.right); } else { ComOfTree(c); }
  }

  lemma LineOfTree(c: Cmd<string>)
    ensures LineTree(LineOf(c)) == c
    decreases Size(c), if c.Pipe? then 1 else if c.List? || c.Back? then 0 else 2
  {
    if c.List? {
      PipeOfTree(Front(c.left));
      FrontBacks(c.left);
      LineOfTree(c.right);
    } else {
      PipeOfTree(Front(c));
      FrontBacks(c);
    }
  }

  // Its tokens can be written.

  ghost predicate RedsOk(reds: seq<Red>) { forall k :: 0 <= k < |reds| ==> Word(reds[k].file) }

  lemma {:induction false} RedToksOk(reds: seq<Red>, ts: seq<Tok>)
    requires RedsOk(reds) && AllOk(ts)
    ensures AllOk(RedToks(reds, ts))
    decreases |reds|
  {
    if reds != [] {
      assert RedsOk(reds[1..]);
      RedToksOk(reds[1..], ts);
    }
  }

  lemma {:induction false} ArgsOfOk(words: seq<string>, reds: seq<Red>, ts: seq<Tok>)
    requires words != [] && (forall k :: 0 <= k < |words| ==> Word(words[k])) && RedsOk(reds) && AllOk(ts)
    ensures AllOk(ArgToks(ArgsOf(words, reds), ts))
    decreases |words|
  {
    var args := ArgsOf(words, reds);
    if |words| == 1 {
      assert args[1..] == [];
      RedToksOk(reds, ts);
    } else {
      ArgsOfOk(words[1..], reds, ts);
      assert args[1..] == ArgsOf(words[1..], reds);
    }
  }

  lemma {:induction false} AmpToksOk(n: nat, ts: seq<Tok>)
    requires AllOk(ts)
    ensures AllOk(AmpToks(n, ts))
  {
    if n > 0 { AmpToksOk(n - 1, ts); }
  }

  lemma {:induction false} WritableFront(c: Cmd<string>)
    requires Writable(c)
    ensures Writable(Front(c))
  {
    if c.Back? { WritableFront(c.cmd); }
  }

  lemma {:induction false} WritableBase(c: Cmd<string>)
    requires Writable(c)
    ensures Writable(Base(c)) && RedsOk(RedsIn(c))
  {
    if c.Redir? { WritableBase(c.cmd); }
  }

  lemma ComOfOk(c: Cmd<string>, ts: seq<Tok>)
    requires Writable(c) && AllOk(ts)
    ensures FewCom(ComOf(c)) && AllOk(ComToks(ComOf(c), ts))
    decreases Size(c), if c.Pipe? then 2 else if c.List? || c.Back? then 1 else 0
  {
    var b, reds := Base(c), RedsIn(c);
    WritableBase(c);
    RedToksOk(reds, ts);
    if !b.Exec? {
      LineOfOk(b, [Op(')')] + RedToks(reds, ts));
    } else if b.args != [] {
      ArgsOfAre(b.args, reds);
      ArgsOfOk(b.args, reds, ts);
    }
  }

  lemma PipeOfOk(c: Cmd<string>, ts: seq<Tok>)
    requires Writable(c) && AllOk(ts)
    ensures FewPipe(PipeOf(c)) && AllOk(PipeToks(PipeOf(c), ts))
    decreases Size(c), if c.Pipe? then 0 else if c.List? || c.Back? then 2 else 1
  {
    if c.Pipe? {
      PipeOfOk(c.right, ts);
      ComOfOk(c.left, [Op('|')] + PipeToks(PipeOf(c.right), ts));
    } else {
      ComOfOk(c, ts);
    }
  }

  lemma LineOfOk(c: Cmd<string>, ts: seq<Tok>)
    requires Writable(c) && AllOk(ts)
    ensures FewLine(LineOf(c)) && AllOk(LineToks(LineOf(c), ts))
    decreases Size(c), if c.Pipe? then 1 else if c.List? || c.Back? then 0 else 2
  {
    if c.List? {
      LineOfOk(c.right, ts);
      var tail := [Op(';')] + LineToks(LineOf(c.right), ts);
      AmpToksOk(Amps(c.left), tail);
      WritableFront(c.left);
      PipeOfOk(Front(c.left), AmpToks(Amps(c.left), tail));
    } else {
      AmpToksOk(Amps(c), ts);
      WritableFront(c);
      PipeOfOk(Front(c), AmpToks(Amps(c), ts));
    }
  }

  // ---------------------------------------------------------------------
  // The tree c as text.

  function Write(c: Cmd<string>): (s: string) { Written(LineToks(LineOf(c), [])) }

  // Every tree of valid words with at most MAXARGS - 1 arguments per command parses back to itself.
  lemma RoundTrip(c: Cmd<string>)
    requires Writable(c)
    ensures var r := ParseCmd(Write(c)); r.Ok? && Within(Write(c), r.cmd) && Words(Write(c), r.cmd) == c
  {
    LineOfOk(c, []);
    var at := WrittenLaid("", LineToks(LineOf(c), []));
    assert "" + Write(c) == Write(c);
    LaidParses(Write(c), LineOf(c), at);
    LineOfTree(c);
  }
}
