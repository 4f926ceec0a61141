/**
 The command language of sh.c: tokens, trees, and what the recursive-descent parser makes of a
 line. A pointer into the line is its index; the line has no NUL before its end.
 */
module ShellGrammar {

  const MAXARGS: int := 10

  // The parts of a line are of type T: pieces of the buffer, or the words themselves.
  datatype Cmd<T> =
    | Exec(args: seq<T>)
    | Redir(cmd: Cmd<T>, file: T, mode: Mode)
    | Pipe(left: Cmd<T>, right: Cmd<T>)
    | List(left: Cmd<T>, right: Cmd<T>)
    | Back(cmd: Cmd<T>)

  // < (O_RDONLY on 0), > (O_WRONLY|O_CREATE|O_TRUNC on 1), >> (O_WRONLY|O_CREATE on 1)
  datatype Mode = In | Out | Append

  // argv[i] and eargv[i], or file and efile
  datatype Span = Span(q: int, eq: int)

  // ---------------------------------------------------------------------
  // Tokens.

  predicate Space(c: char) { c == ' ' || c == '\t' || c == '\r' || c == '\n' || c == '\U{000B}' }
  predicate Symbol(c: char) { c == '<' || c == '|' || c == '>' || c == '&' || c == ';' || c == '(' || c == ')' }
  predicate Letter(c: char) { !Space(c) && !Symbol(c) }

  function Skip(s: string, i: int): (j: int)
    requires 0 <= i <= |s|
    ensures i <= j <= |s| && (j == |s| || !Space(s[j])) && forall k :: i <= k < j ==> Space(s[k])
    decreases |s| - i
  {
    if i == |s| || !Space(s[i]) then i else Skip(s, i + 1)
  }

  function WordEnd(s: string, i: int): (j: int)
    requires 0 <= i <= |s|
    ensures i <= j <= |s| && (j == |s| || !Letter(s[j])) && forall k :: i <= k < j ==> Letter(s[k])
    decreases |s| - i
  {
    if i == |s| || !Letter(s[i]) then i else WordEnd(s, i + 1)
  }

  // kind is gettoken's result, 'a' for a word and '\0' at the end; next is where *ps is left
  datatype Token = Token(kind: char, q: int, eq: int, next: int)

  function GetToken(s: string, i: int): (t: Token)
    requires 0 <= i <= |s|
    ensures i <= t.q <= t.eq <= t.next <= |s| && (t.kind == '\0' <==> Skip(s, i) == |s|)
    ensures t.kind != '\0' ==> i < t.next
    ensures t.kind == 'a' ==> WordAt(s, Span(t.q, t.eq))
  {
    var q := Skip(s, i);
    if q == |s| then Token('\0', q, q, q)
    else if s[q] == '>' && q + 1 < |s| && s[q + 1] == '>' then Token('+', q, q + 2, Skip(s, q + 2))
    else if Symbol(s[q]) then Token(s[q], q, q + 1, Skip(s, q + 1))
    else
      var e := WordEnd(s, q);
      Token('a', q, e, Skip(s, e))
  }

  // w is made of letters, and none follows
  ghost predicate WordAt(s: string, w: Span) {
    && 0 <= w.q < w.eq <= |s| && (w.eq == |s| || !Letter(s[w.eq]))
    && forall k :: w.q <= k < w.eq ==> Letter(s[k])
  }

  // the character that peek looks at, NUL at the end
  function Next(s: string, i: int): (c: char)
    requires 0 <= i <= |s|
  {
    var j := Skip(s, i);
    if j < |s| then s[j] else '\0'
  }

  predicate EndsExec(c: char) { c == '|' || c == ')' || c == '&' || c == ';' }

  // ---------------------------------------------------------------------
  // The parser. Fail is a panic.

  datatype Parse = Ok(cmd: Cmd<Span>, pos: int) | Fail
  datatype Redirs = Redirs(list: seq<(Span, Mode)>, pos: int) | NoFile

  function ModeOf(kind: char): (m: Mode) { if kind == '<' then In else if kind == '>' then Out else Append }

  // parseredirs: the redirections found, in order
  function ParseRedirs(s: string, i: int): (r: Redirs)
    requires 0 <= i <= |s|
    ensures r.Redirs? ==> i <= r.pos <= |s|
    decreases |s| - i
  {
    if Next(s, i) != '<' && Next(s, i) != '>' then Redirs([], Skip(s, i))
    else
      var op := GetToken(s, i);
      var w := GetToken(s, op.next);
      if w.kind != 'a' then NoFile
      else
        match ParseRedirs(s, w.next)
        case NoFile => NoFile
        case Redirs(list, pos) => Redirs([(Span(w.q, w.eq), ModeOf(op.kind))] + list, pos)
  }

  // cmd inside the redirections of list, the last outermost
  function Wrap(cmd: Cmd<Span>, list: seq<(Span, Mode)>): (c: Cmd<Span>)
    decreases |list|
  {
    if |list| == 0 then cmd else Wrap(Redir(cmd, list[0].0, list[0].1), list[1..])
  }

  datatype Args = Args(args: seq<Span>, list: seq<(Span, Mode)>, pos: int) | BadArgs

  // parseexec's loop, after n arguments
  function ParseArgs(s: string, i: int, n: int): (r: Args)
    requires 0 <= i <= |s|
    ensures r.Args? ==> i <= r.pos <= |s|
    decreases |s| - i
  {
    if EndsExec(Next(s, i)) then Args([], [], Skip(s, i))
    else
      var w := GetToken(s, i);
      if w.kind == '\0' then Args([], [], w.next)
      else if w.kind != 'a' || n + 1 >= MAXARGS then BadArgs
      else
        match ParseRedirs(s, w.next)
        case NoFile => BadArgs
        case Redirs(list, pos) =>
          match ParseArgs(s, pos, n + 1)
          case BadArgs => BadArgs
          case Args(args, more, end) => Args([Span(w.q, w.eq)] + args, list + more, end)
  }

  function ParseExec(s: string, i: int): (r: Parse)
    requires 0 <= i <= |s|
    ensures r.Ok? ==> i <= r.pos <= |s|
    decreases |s| - i, 0
  {
    if Next(s, i) == '(' then ParseBlock(s, i)
    else
      match ParseRedirs(s, i)
      case NoFile => Fail
      case Redirs(list, pos) =>
        match ParseArgs(s, pos, 0)
        case BadArgs => Fail
        case Args(args, more, end) => Ok(Wrap(Exec(args), list + more), end)
  }

  // parseblock, at a '('
  function ParseBlock(s: string, i: int): (r: Parse)
    requires 0 <= i <= |s| && Next(s, i) == '('
    ensures r.Ok? ==> i <= r.pos <= |s|
    decreases |s| - i, 0, 0
  {
    CloseBlock(s, ParseLine(s, GetToken(s, i).next))
  }

  // parseblock, after the line inside
  function CloseBlock(s: string, line: Parse): (r: Parse)
    requires line.Ok? ==> 0 <= line.pos <= |s|
    ensures r.Ok? ==> line.Ok? && line.pos <= r.pos <= |s|
  {
    if line.Fail? || Next(s, line.pos) != ')' then Fail
    else
      match ParseRedirs(s, GetToken(s, line.pos).next)
      case NoFile => Fail
      case Redirs(list, end) => Ok(Wrap(line.cmd, list), end)
  }

  function ParsePipe(s: string, i: int): (r: Parse)
    requires 0 <= i <= |s|
    ensures r.Ok? ==> i <= r.pos <= |s|
    decreases |s| - i, 1
  {
    match ParseExec(s, i)
    case Fail => Fail
    case Ok(cmd, pos) =>
      if Next(s, pos) != '|' then Ok(cmd, Skip(s, pos))
      else
        match ParsePipe(s, GetToken(s, pos).next)
        case Fail => Fail
        case Ok(right, end) => Ok(Pipe(cmd, right), end)
  }

  // parseline's loop over '&'
  function ParseBacks(s: string, cmd: Cmd<Span>, i: int): (r: Parse)
    requires 0 <= i <= |s|
    ensures r.Ok? && i <= r.pos <= |s|
    decreases |s| - i
  {
    if Next(s, i) != '&' then Ok(cmd, Skip(s, i)) else ParseBacks(s, Back(cmd), GetToken(s, i).next)
  }

  function ParseLine(s: string, i: int): (r: Parse)
    requires 0 <= i <= |s|
    ensures r.Ok? ==> i <= r.pos <= |s|
    decreases |s| - i, 2
  {
    match ParsePipe(s, i)
    case Fail => Fail
    case Ok(first, pos) =>
      var b := ParseBacks(s, first, pos);
      if Next(s, b.pos) != ';' then Ok(b.cmd, Skip(s, b.pos))
      else
        match ParseLine(s, GetToken(s, b.pos).next)
        case Fail => Fail
        case Ok(right, end) => Ok(List(b.cmd, right), end)
  }

  // parsecmd, without nulterminate
  function ParseCmd(s: string): (r: Parse)
    ensures r.Ok? ==> r.pos == |s|
  {
    match ParseLine(s, 0)
    case Fail => Fail
    case Ok(cmd, pos) => if Skip(s, pos) != |s| then Fail else Ok(cmd, |s|)
  }
}
