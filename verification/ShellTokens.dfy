/**
 Lines as sequences of tokens: what gettoken makes of a line, whatever blanks are between the
 tokens.
 */
module ShellTokens {
  import opened ShellGrammar

  // kind is the symbol, '+' for >>
  datatype Tok = Text(w: string) | Op(kind: char)

  ghost predicate Word(w: string) { |w| > 0 && forall k :: 0 <= k < |w| ==> Letter(w[k]) }

  ghost function TokAt(s: string, i: int): (t: Tok)
    requires 0 <= i <= |s|
  {
    var t := GetToken(s, i);
    if t.kind == 'a' then Text(s[t.q..t.eq]) else Op(t.kind)
  }

  // The tokens from position i on.
  ghost function Toks(s: string, i: int): (ts: seq<Tok>)
    requires 0 <= i <= |s|
    decreases |s| - i
  {
    if GetToken(s, i).kind == '\0' then [] else [TokAt(s, i)] + Toks(s, GetToken(s, i).next)
  }

  // ---------------------------------------------------------------------
  // Blanks do not matter.

  lemma SkipTwice(s: string, i: int)
    requires 0 <= i <= |s|
    ensures Skip(s, Skip(s, i)) == Skip(s, i)
  {
  }

  lemma SkipToks(s: string, i: int)
    requires 0 <= i <= |s|
    ensures GetToken(s, Skip(s, i)) == GetToken(s, i) && Toks(s, Skip(s, i)) == Toks(s, i)
    ensures Next(s, Skip(s, i)) == Next(s, i)
  {
    SkipTwice(s, i);
  }

  // ---------------------------------------------------------------------
  // What the parser meets.

  lemma AtNothing(s: string, i: int)
    requires 0 <= i <= |s| && Toks(s, i) == []
    ensures GetToken(s, i).kind == '\0' && Skip(s, i) == |s| && Next(s, i) == '\0'
  {
  }

  lemma AtWord(s: string, i: int)
    requires 0 <= i <= |s| && Toks(s, i) != [] && Toks(s, i)[0].Text?
    ensures var t := GetToken(s, i);
      && t.kind == 'a' && s[t.q..t.eq] == Toks(s, i)[0].w && Toks(s, t.next) == Toks(s, i)[1..]
      && Letter(Next(s, i)) && Word(Toks(s, i)[0].w)
  {
    var t := GetToken(s, i);
    assert WordAt(s, Span(t.q, t.eq));
    assert s[t.q] == Next(s, i);
    assert Toks(s, i)[1..] == Toks(s, t.next);
  }

  function CharOf(k: char): (c: char) { if k == '+' then '>' else k }

  lemma AtOp(s: string, i: int)
    requires 0 <= i <= |s| && Toks(s, i) != [] && Toks(s, i)[0].Op?
    ensures var t := GetToken(s, i);
      && t.kind == Toks(s, i)[0].kind && t.kind != 'a' && t.kind != '\0' && Toks(s, t.next) == Toks(s, i)[1..]
      && Next(s, i) == CharOf(t.kind) && Symbol(Next(s, i))
  {
    assert Toks(s, i)[1..] == Toks(s, GetToken(s, i).next);
  }

  // Only '<' and '>' tell of more than one kind of token.
  lemma NextOp(s: string, i: int, k: char)
    requires 0 <= i <= |s| && (k == '|' || k == '&' || k == ';' || k == '(' || k == ')')
    ensures Next(s, i) == k <==> Toks(s, i) != [] && Toks(s, i)[0] == Op(k)
  {
    if Toks(s, i) == [] { AtNothing(s, i); } else if Toks(s, i)[0].Text? { AtWord(s, i); } else { AtOp(s, i); }
  }

  predicate Redirects(ts: seq<Tok>) { ts != [] && (ts[0] == Op('<') || ts[0] == Op('>') || ts[0] == Op('+')) }

  lemma NextRedir(s: string, i: int)
    requires 0 <= i <= |s|
    ensures Next(s, i) == '<' || Next(s, i) == '>' <==> Redirects(Toks(s, i))
  {
    if Toks(s, i) == [] { AtNothing(s, i); } else if Toks(s, i)[0].Text? { AtWord(s, i); } else { AtOp(s, i); }
  }

  // ---------------------------------------------------------------------
  // How tokens are written.

  predicate IsOp(k: char) {
    k == '<' || k == '>' || k == '+' || k == '|' || k == '&' || k == ';' || k == '(' || k == ')'
  }

  ghost predicate TokOk(t: Tok) { match t case Text(w) => Word(w) case Op(k) => IsOp(k) }

  function Spelled(t: Tok): (s: string) { match t case Text(w) => w case Op(k) => if k == '+' then ">>" else [k] }

  // The text of t begins at j, and nothing that belongs to it follows.
  ghost predicate SpelledAt(s: string, j: int, t: Tok) {
    && 0 <= j && j + |Spelled(t)| <= |s| && s[j..j + |Spelled(t)|] == Spelled(t)
    && (j + |Spelled(t)| == |s| || match t case Text(_) => !Letter(s[j + |Spelled(t)|])
                                    case Op(k) => k == '>' ==> s[j + 1] != '>')
  }

  ghost predicate Blank(s: string, i: int, j: int) {
    0 <= i <= j <= |s| && forall k :: i <= k < j ==> Space(s[k])
  }

  // From i on, s is the tokens ts with blanks around them; at[k] is where the k-th begins.
  ghost predicate Laid(s: string, i: int, ts: seq<Tok>, at: seq<int>)
    decreases |ts|
  {
    if ts == [] then at == [] && Blank(s, i, |s|)
    else
      && |at| == |ts| && TokOk(ts[0]) && Blank(s, i, at[0]) && SpelledAt(s, at[0], ts[0])
      && Laid(s, at[0] + |Spelled(ts[0])|, ts[1..], at[1..])
  }

  lemma {:induction false} SkipTo(s: string, i: int, j: int)
    requires Blank(s, i, j) && (j == |s| || !Space(s[j]))
    ensures Skip(s, i) == j
    decreases j - i
  {
    if i < j { SkipTo(s, i + 1, j); }
  }

  lemma {:induction false} WordEndAt(s: string, i: int, j: int)
    requires 0 <= i <= j <= |s| && (j == |s| || !Letter(s[j])) && forall k :: i <= k < j ==> Letter(s[k])
    ensures WordEnd(s, i) == j
    decreases j - i
  {
    if i < j { WordEndAt(s, i + 1, j); }
  }

  lemma FirstToken(s: string, i: int, j: int, t: Tok)
    requires Blank(s, i, j) && TokOk(t) && SpelledAt(s, j, t)
    ensures GetToken(s, i).kind != '\0' && TokAt(s, i) == t && GetToken(s, i).next == Skip(s, j + |Spelled(t)|)
  {
    var e := j + |Spelled(t)|;
    assert forall k :: j <= k < e ==> s[k] == Spelled(t)[k - j] by {
      assert forall k :: j <= k < e ==> s[k] == s[j..e][k - j];
    }
    assert !Space(s[j]);
    SkipTo(s, i, j);
    if t.Text? { WordEndAt(s, j, e); }
  }

  lemma ToksCons(s: string, i: int, e: int)
    requires 0 <= i <= |s| && 0 <= e <= |s| && GetToken(s, i).kind != '\0' && GetToken(s, i).next == Skip(s, e)
    ensures Toks(s, i) == [TokAt(s, i)] + Toks(s, e)
  {
    SkipToks(s, e);
  }

  lemma ToksAre(s: string, i: int, e: int, ts: seq<Tok>)
    requires 0 <= i <= |s| && 0 <= e <= |s| && GetToken(s, i).kind != '\0' && GetToken(s, i).next == Skip(s, e)
    requires ts != [] && TokAt(s, i) == ts[0] && Toks(s, e) == ts[1..]
    ensures Toks(s, i) == ts
  {
    ToksCons(s, i, e);
    assert [ts[0]] + ts[1..] == ts;
  }

  lemma LaidParts(s: string, i: int, ts: seq<Tok>, at: seq<int>)
    requires ts != [] && Laid(s, i, ts, at)
    ensures |at| == |ts| && TokOk(ts[0]) && Blank(s, i, at[0]) && SpelledAt(s, at[0], ts[0])
    ensures Laid(s, at[0] + |Spelled(ts[0])|, ts[1..], at[1..])
  {
  }

  // gettoken finds exactly the tokens that were written.
  lemma {:induction false} LaidToks(s: string, i: int, ts: seq<Tok>, at: seq<int>)
    requires 0 <= i <= |s| && Laid(s, i, ts, at)
    ensures Toks(s, i) == ts
    decreases |ts|
  {
    if ts == [] {
      SkipTo(s, i, |s|);
    } else {
      LaidParts(s, i, ts, at);
      var e := at[0] + |Spelled(ts[0])|;
      FirstToken(s, i, at[0], ts[0]);
      LaidToks(s, e, ts[1..], at[1..]);
      ToksAre(s, i, e, ts);
    }
  }

  lemma TokenSpelled(s: string, i: int)
    requires 0 <= i <= |s| && GetToken(s, i).kind != '\0'
    ensures var j, t := Skip(s, i), TokAt(s, i);
      && TokOk(t) && Blank(s, i, j) && SpelledAt(s, j, t) && GetToken(s, i).next == Skip(s, j + |Spelled(t)|)
  {
    var t := GetToken(s, i);
    if t.kind == 'a' { assert WordAt(s, Span(t.q, t.eq)); }
  }

  lemma LaidCons(s: string, i: int, j: int, t: Tok, ts: seq<Tok>, at: seq<int>)
    requires TokOk(t) && Blank(s, i, j) && SpelledAt(s, j, t) && Laid(s, j + |Spelled(t)|, ts, at)
    ensures Laid(s, i, [t] + ts, [j] + at)
  {
    assert ([t] + ts)[1..] == ts && ([j] + at)[1..] == at;
  }

  // Every line is its tokens with blanks around them.
  lemma {:induction false} ToksLaid(s: string, i: int) returns (at: seq<int>)
    requires 0 <= i <= |s|
    ensures Laid(s, i, Toks(s, i), at)
    decreases |s| - i
  {
    if GetToken(s, i).kind == '\0' {
      at := [];
    } else {
      TokenSpelled(s, i);
      var j, t := Skip(s, i), TokAt(s, i);
      var e := j + |Spelled(t)|;
      at := ToksLaid(s, e);
      LaidCons(s, i, j, t, Toks(s, e), at);
      ToksCons(s, i, e);
      at := [j] + at;
    }
  }
}
