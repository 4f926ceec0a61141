/**
 grep.c's loop over its input: which lines it prints, however read cuts the input into pieces.
 */
module GrepLines {
  import opened Grep

  const BUFSIZE: int := 1024

  // ---------------------------------------------------------------------
  // What is printed.

  // the index of the first newline, the length of s if there is none
  function LineEnd(s: string): (q: int)
    ensures 0 <= q <= |s| && '\n' !in s[..q] && (q < |s| ==> s[q] == '\n')
  {
    if s == "" then 0 else if s[0] == '\n' then 0 else 1 + LineEnd(s[1..])
  }

  // A line that fits in the buffer with its newline, and that strchr can pass.
  ghost predicate Passable(line: string) { |line| + 1 < BUFSIZE && '\0' !in line }

  // Matches, kept folded
  ghost predicate Hit(re: string, line: string) { forall x :: x == line ==> Matches(re, x) }

  // The matching lines of s, with their newlines, up to the first one that is not passable.
  ghost function Printed(re: string, s: string): (out: string)
    decreases |s|
  {
    var q := LineEnd(s);
    if q == |s| || !Passable(s[..q]) then ""
    else (if Hit(re, s[..q]) then s[..q + 1] else "") + Printed(re, s[q + 1..])
  }

  // All matching lines.
  ghost function Matching(re: string, s: string): (out: string)
    decreases |s|
  {
    var q := LineEnd(s);
    if q == |s| then "" else (if Hit(re, s[..q]) then s[..q + 1] else "") + Matching(re, s[q + 1..])
  }

  // Every line that ends with a newline is passable.
  ghost predicate AllPassable(s: string)
    decreases |s|
  {
    var q := LineEnd(s);
    q < |s| ==> Passable(s[..q]) && AllPassable(s[q + 1..])
  }

  // ---------------------------------------------------------------------
  // When that is all of them.

  lemma EmptyHits(text: string)
    ensures Hit("", text)
  {
    MatchEmpty(text, 0);
    assert MatchAt(Items("", 0), text, 0);
    assert Matches("", text);
  }

  lemma {:induction false} PrintedAll(re: string, s: string)
    requires AllPassable(s)
    ensures Printed(re, s) == Matching(re, s)
    decreases |s|
  {
    var q := LineEnd(s);
    if q < |s| { PrintedAll(re, s[q + 1..]); }
  }

  // The empty pattern shows the difference.
  lemma {:induction false} PrintedLess(s: string)
    requires !AllPassable(s)
    ensures |Printed("", s)| < |Matching("", s)|
    decreases |s|
  {
    var q := LineEnd(s);
    EmptyHits(s[..q]);
    if Passable(s[..q]) { PrintedLess(s[q + 1..]); }
  }

  // grep prints the matching lines of its input, for every pattern, if and only if no line is
  // longer than the buffer holds or has a NUL.
  lemma PrintsMatchingIff(s: string)
    ensures (forall re :: Printed(re, s) == Matching(re, s)) <==> AllPassable(s)
  {
    if AllPassable(s) {
      forall re ensures Printed(re, s) == Matching(re, s) { PrintedAll(re, s); }
    } else {
      PrintedLess(s);
    }
  }

  // ---------------------------------------------------------------------
  // The code.

  lemma LineEndIs(s: string, q: int)
    requires 0 <= q <= |s| && '\n' !in s[..q] && (q < |s| ==> s[q] == '\n')
    ensures LineEnd(s) == q
  {
  }

  // no newline and no NUL from p to q
  ghost predicate Plain(b: seq<char>, p: int, q: int) {
    0 <= p <= q <= |b| && forall k :: p <= k < q ==> b[k] != '\n' && b[k] != '\0'
  }

  // strchr(buf + p, '\n'), in a buffer with a NUL at m: whether it finds one, and where it stops.
  method Strchr(buf: array<char>, p: int, m: int) returns (found: bool, q: int)
    requires 0 <= p <= m < buf.Length && buf[m] == '\0'
    ensures p <= q <= m && Plain(buf[..], p, q) && buf[q] == (if found then '\n' else '\0')
  {
    q := p;
    while buf[q] != '\n' && buf[q] != '\0'
      invariant p <= q <= m && Plain(buf[..], p, q)
      decreases m - q
    {
      q := q + 1;
    }
    found := buf[q] == '\n';
  }

  // read of at most cap of the left bytes: as many as it likes, none only at the end or for none
  method Read(cap: int, left: int, want: int) returns (n: int)
    requires 0 <= cap && 0 <= left
    ensures 0 <= n <= cap && n <= left && (n == 0 <==> cap == 0 || left == 0)
  {
    var most := if cap < left then cap else left;
    n := if 0 < want < most then want else most;
  }

  // A string in which a NUL, or its end, comes before any newline.
  ghost predicate NoLine(s: string, e: int) { 0 <= e <= |s| && '\n' !in s[..e] && (e < |s| ==> s[e] == '\0') }

  lemma PrintedStep(re: string, s: string, q: int)
    requires 0 <= q < |s| && s[q] == '\n' && '\n' !in s[..q] && Passable(s[..q])
    ensures Printed(re, s) == (if Hit(re, s[..q]) then s[..q + 1] else "") + Printed(re, s[q + 1..])
  {
    LineEndIs(s, q);
  }

  // Nothing more is printed once the buffer is full, or the input is at its end, without a line.
  lemma PrintedStops(re: string, s: string, m: int, e: int)
    requires 0 <= m <= |s| && NoLine(s[..m], e) && (m == |s| || m >= BUFSIZE - 1)
    ensures Printed(re, s) == ""
  {
    var q := LineEnd(s);
    assert s[..m][..e] == s[..e];
    if q < |s| {
      assert e <= q;
      if e < m { assert s[..q][e] == '\0'; }
    }
  }

  // out is what of s is printed before its character p.
  ghost predicate SoFar(re: string, s: string, p: int, out: string) {
    0 <= p <= |s| && forall x :: x == out ==> PrintedTo(re, s, p, x)
  }

  ghost predicate PrintedTo(re: string, s: string, p: int, out: string) {
    0 <= p <= |s| && Printed(re, s) == out + Printed(re, s[p..])
  }

  lemma SoFarStart(re: string, s: string)
    ensures SoFar(re, s, 0, "")
  {
    assert s[0..] == s;
    assert PrintedTo(re, s, 0, "");
  }

  lemma SoFarMore(re: string, s: string, p: int, out: string, q: int, more: string)
    requires SoFar(re, s, p, out) && 0 <= q <= |s| && Printed(re, s[p..]) == more + Printed(re, s[q..])
    ensures SoFar(re, s, q, out + more)
  {
    assert PrintedTo(re, s, p, out);
    assert out + (more + Printed(re, s[q..])) == out + more + Printed(re, s[q..]);
    assert PrintedTo(re, s, q, out + more);
  }

  // what is printed of the line text
  ghost function Piece(re: string, text: string): (out: string) { if Hit(re, text) then text + ['\n'] else "" }

  // s has a line from p to q
  lemma LineGives(re: string, s: string, p: int, q: int)
    requires 0 <= p <= q < |s| && s[q] == '\n' && Plain(s, p, q) && q - p < BUFSIZE - 1
    ensures Printed(re, s[p..]) == Piece(re, s[p..q]) + Printed(re, s[q + 1..])
  {
    var t := s[p..];
    assert t[..q - p] == s[p..q] && t[..q - p + 1] == s[p..q] + ['\n'] && t[q - p + 1..] == s[q + 1..];
    PrintedStep(re, t, q - p);
  }

  // one line of the buffer, and what is printed of it
  method OneLine(re: string, buf: array<char>, p: int, q: int) returns (out: string)
    requires 0 <= p <= q < buf.Length && buf[q] == '\n'
    modifies buf
    ensures out == Piece(re, old(buf[..])[p..q])
    ensures forall k :: 0 <= k < buf.Length && k != q ==> buf[k] == old(buf[k])
  {
    buf[q] := '\0';
    var ok := Match(re, buf[p..q]);
    ghost var line := old(buf[..])[p..q];
    assert buf[p..q] == line;
    assert ok == Matches(re, line);
    out := "";
    if ok {
      buf[q] := '\n';
      out := buf[p..q + 1];
    }
  }

  // The buffer b has characters p to m of s, and then a NUL.
  ghost predicate HasTail(b: seq<char>, s: string, p: int, m: int) {
    0 <= p <= m < |b| == BUFSIZE && m <= |s| && b[m] == '\0' && forall k :: p <= k < m ==> b[k] == s[k]
  }

  // what strchr has passed is of s
  lemma SamePlain(b: seq<char>, s: string, p: int, m: int, q: int)
    requires HasTail(b, s, p, m) && Plain(b, p, q) && q <= m
    ensures Plain(s, p, q)
  {
  }

  lemma NoLineIs(b: seq<char>, s: string, p: int, m: int, q: int)
    requires HasTail(b, s, p, m) && Plain(b, p, q) && q <= m && b[q] == '\0'
    ensures NoLine(s[p..m], q - p)
  {
    SamePlain(b, s, p, m, q);
    var t := s[p..m][..q - p];
    forall k | 0 <= k < |t| ensures t[k] != '\n' { assert t[k] == s[p + k]; }
  }

  // One line more is printed, or not.
  lemma LineStep(re: string, b: seq<char>, s: string, p: int, m: int, q: int, out: string)
    requires HasTail(b, s, p, m) && Plain(b, p, q) && q < m && b[q] == '\n' && SoFar(re, s, p, out)
    ensures SoFar(re, s, q + 1, out + Piece(re, b[p..q]))
  {
    var text := s[p..q];
    assert b[p..q] == text;
    assert Printed(re, s[p..]) == Piece(re, text) + Printed(re, s[q + 1..]) by {
      SamePlain(b, s, p, m, q);
      LineGives(re, s, p, q);
    }
    SoFarMore(re, s, p, out, q + 1, Piece(re, text));
  }

  lemma TailStep(b: seq<char>, b': seq<char>, s: string, p: int, m: int, q: int)
    requires HasTail(b, s, p, m) && p <= q < m && |b'| == |b| && forall k :: 0 <= k < |b| && k != q ==> b'[k] == b[k]
    ensures HasTail(b', s, q + 1, m)
  {
  }

  // The loop over the lines in the buffer: s is the input from the start of the buffer on, of which
  // the buffer has m characters.
  method Lines(re: string, buf: array<char>, m: int, ghost s: string) returns (p: int, out: string, ghost e: int)
    requires HasTail(buf[..], s, 0, m)
    modifies buf
    ensures HasTail(buf[..], s, p, m) && SoFar(re, s, p, out) && NoLine(s[p..m], e)
  {
    p, out := 0, "";
    SoFarStart(re, s);
    while true
      invariant HasTail(buf[..], s, p, m) && SoFar(re, s, p, out)
      decreases m - p
    {
      var found, q := Strchr(buf, p, m);
      if !found {
        NoLineIs(buf[..], s, p, m, q);
        e := q - p;
        return;
      }
      ghost var b := buf[..];
      LineStep(re, b, s, p, m, q, out);
      var more := OneLine(re, buf, p, q);
      TailStep(b, buf[..], s, p, m, q);
      p, out := q + 1, out + more;
    }
  }

  // memmove(buf, buf + p, n)
  method MoveDown(buf: array<char>, p: int, n: int)
    requires 0 <= p && 0 <= n && p + n <= buf.Length
    modifies buf
    ensures buf[..n] == old(buf[p..p + n])
  {
    var i := 0;
    while i < n
      invariant 0 <= i <= n
      invariant forall k :: 0 <= k < i ==> buf[k] == old(buf[p + k])
      invariant forall k :: p + i <= k < buf.Length ==> buf[k] == old(buf[k])
    {
      buf[i] := buf[p + i];
      i := i + 1;
    }
  }

  // The buffer b has the m characters of the input before pos, and no line.
  ghost predicate HasPart(b: seq<char>, m: int, input: string, pos: int, e: int) {
    && 0 <= m <= pos <= |input| && m <= |b| && b[..m] == input[pos - m..pos] && NoLine(input[pos - m..pos], e)
  }

  // the same, kept folded
  ghost predicate Holding(buf: array<char>, m: int, input: string, pos: int, e: int)
    reads buf
  {
    && buf.Length == BUFSIZE && 0 <= m <= pos <= |input| && m < BUFSIZE
    && forall b :: b == buf[..] ==> HasPart(b, m, input, pos, e)
  }

  lemma SoFarPart(re: string, input: string, i: int, out: string, p: int, more: string)
    requires SoFar(re, input, i, out) && SoFar(re, input[i..], p, more)
    ensures SoFar(re, input, i + p, out + more)
  {
    assert PrintedTo(re, input[i..], p, more);
    assert input[i..][p..] == input[i + p..];
    SoFarMore(re, input, i, out, i + p, more);
  }

  lemma PartIs(b: seq<char>, m: int, input: string, pos: int)
    requires 0 <= m <= pos <= |input| && m <= |b| && b[..m] == input[pos - m..pos]
    ensures forall k :: 0 <= k < m ==> b[k] == input[pos - m..][k]
  {
    forall k | 0 <= k < m ensures b[k] == input[pos - m..][k] { assert b[..m][k] == input[pos - m..pos][k]; }
  }

  // read puts n characters into the buffer
  method Load(buf: array<char>, m: int, input: string, pos: int, n: int, ghost e: int)
    requires Holding(buf, m, input, pos, e) && 0 <= n && pos + n <= |input| && m + n < BUFSIZE
    modifies buf
    ensures HasTail(buf[..], input[pos - m..], 0, m + n)
  {
    assert HasPart(buf[..], m, input, pos, e);
    var data := input[pos..pos + n];
    ghost var s := input[pos - m..];
    assert forall k :: 0 <= k < m ==> buf[k] == s[k] by { PartIs(buf[..], m, input, pos); }
    assert forall k :: 0 <= k < n ==> data[k] == s[m + k];
    Append(buf, m, data);
    buf[m + n] := '\0';
    assert forall k :: m <= k < m + n ==> buf[k] == s[m + (k - m)];
  }

  // what is left of the lines is moved down
  method Keep(buf: array<char>, p: int, all: int, ghost input: string, ghost i: int, ghost e: int)
    requires buf.Length == BUFSIZE && 0 <= i <= |input| && HasTail(buf[..], input[i..], p, all)
      && NoLine(input[i..][p..all], e)
    modifies buf
    ensures Holding(buf, all - p, input, i + all, e)
  {
    assert input[i..][p..all] == input[i + p..i + all];
    assert buf[p..all] == input[i + p..i + all];
    MoveDown(buf, p, all - p);
    assert HasPart(buf[..], all - p, input, i + all, e);
  }

  // A turn of the loop; before is what was printed before.
  method Turn(re: string, buf: array<char>, m: int, input: string, pos: int, n: int, ghost e0: int,
      ghost before: string)
    returns (m': int, out: string, ghost e: int)
    requires Holding(buf, m, input, pos, e0) && 0 <= n && pos + n <= |input| && m + n < BUFSIZE
    requires SoFar(re, input, pos - m, before)
    modifies buf
    ensures Holding(buf, m', input, pos + n, e) && SoFar(re, input, pos + n - m', before + out)
  {
    Load(buf, m, input, pos, n, e0);
    var p;
    p, out, e := Lines(re, buf, m + n, input[pos - m..]);
    assert SoFar(re, input, pos - m + p, before + out) by { SoFarPart(re, input, pos - m, before, p, out); }
    Keep(buf, p, m + n, input, pos - m, e);
    m' := m + n - p;
  }

  lemma SoFarEnds(re: string, buf: array<char>, m: int, input: string, pos: int, e: int, out: string)
    requires Holding(buf, m, input, pos, e) && (pos == |input| || m == BUFSIZE - 1)
    requires SoFar(re, input, pos - m, out)
    ensures out == Printed(re, input)
  {
    assert HasPart(buf[..], m, input, pos, e);
    assert input[pos - m..][..m] == input[pos - m..pos];
    PrintedStops(re, input[pos - m..], m, e);
    assert PrintedTo(re, input, pos - m, out);
  }

  // grep(pattern, fd): what it prints does not depend on how read cuts the input, wants.
  method GrepInput(re: string, input: string, wants: seq<int>) returns (out: string)
    ensures out == Printed(re, input)
  {
    var buf := new char[BUFSIZE];
    var m, pos, turn := 0, 0, 0;
    out := "";
    ghost var e := 0;
    SoFarStart(re, input);
    assert HasPart(buf[..], 0, input, 0, 0);
    while true
      invariant Holding(buf, m, input, pos, e) && 0 <= turn && SoFar(re, input, pos - m, out)
      decreases |input| - pos
    {
      var n := Read(BUFSIZE - m - 1, |input| - pos, if turn < |wants| then wants[turn] else 0);
      if n == 0 {
        SoFarEnds(re, buf, m, input, pos, e, out);
        break;
      }
      var more;
      m, more, e := Turn(re, buf, m, input, pos, n, e, out);
      pos, turn, out := pos + n, turn + 1, out + more;
    }
  }

  // what read puts behind the first m characters
  method Append(buf: array<char>, m: int, data: string)
    requires 0 <= m && m + |data| <= buf.Length
    modifies buf
    ensures forall k :: 0 <= k < m ==> buf[k] == old(buf[k])
    ensures forall k :: m <= k < m + |data| ==> buf[k] == data[k - m]
  {
    var i := 0;
    while i < |data|
      invariant 0 <= i <= |data| && forall k :: 0 <= k < m ==> buf[k] == old(buf[k])
      invariant forall k :: m <= k < m + i ==> buf[k] == data[k - m]
    {
      buf[m + i] := data[i];
      i := i + 1;
    }
  }
}
