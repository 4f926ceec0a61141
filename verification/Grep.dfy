/**
 grep.c's regular expression matcher. A pointer into a string is its index; a string has no
 NUL, its end stands for the terminator.
 */
module Grep {

  // ---------------------------------------------------------------------
  // What a pattern means, without saying how it is searched for.

  datatype Item =
    | One(c: char)       // c, or any character for '.'
    | Star(c: char)      // any number of them
    | End                // the end of the text, for a final '$'

  // The pattern re[r..] as a list of items.
  function Items(re: string, r: int): (s: seq<Item>)
    requires 0 <= r <= |re|
    decreases |re| - r
  {
    if r == |re| then []
    else if r + 1 < |re| && re[r + 1] == '*' then [Star(re[r])] + Items(re, r + 2)
    else if re[r] == '$' && r + 1 == |re| then [End]
    else [One(re[r])] + Items(re, r + 1)
  }

  // How an item is written.
  function Spelled(x: Item): (s: string) {
    match x case One(c) => [c] case Star(c) => [c, '*'] case End => "$"
  }

  function Pattern(items: seq<Item>): (s: string) {
    if items == [] then "" else Spelled(items[0]) + Pattern(items[1..])
  }

  // The items can be told from their pattern: no '*' comes right behind a single character, and a
  // '$' is the end of the text exactly if it is the last of them.
  predicate Plain(items: seq<Item>) {
    items != [] ==>
      && (!items[0].Star? && |items| > 1 ==> Spelled(items[1])[0] != '*')
      && (items[0].End? ==> |items| == 1) && items != [One('$')]
      && Plain(items[1..])
  }

  // Every pattern is the spelling of its items, and its items are plain.
  lemma {:induction false} PatternOfItems(re: string, r: int)
    requires 0 <= r <= |re|
    ensures Pattern(Items(re, r)) == re[r..] && Plain(Items(re, r))
    ensures Items(re, r) != [] ==> r < |re| && Spelled(Items(re, r)[0])[0] == re[r]
    decreases |re| - r
  {
    var items := Items(re, r);
    if r < |re| {
      if r + 1 < |re| && re[r + 1] == '*' {
        PatternOfItems(re, r + 2);
        assert items[1..] == Items(re, r + 2);
      } else if re[r] == '$' && r + 1 == |re| {
        assert items[1..] == [];
      } else {
        PatternOfItems(re, r + 1);
        assert items[1..] == Items(re, r + 1);
      }
    }
  }

  // Plain items are read back from their pattern, wherever it stands at the end of a string.
  lemma {:induction false} ItemsOfPattern(pre: string, items: seq<Item>)
    requires Plain(items)
    ensures Items(pre + Pattern(items), |pre|) == items
    decreases |items|
  {
    var re, r := pre + Pattern(items), |pre|;
    if items != [] {
      var x := Spelled(items[0]);
      assert re == pre + x + Pattern(items[1..]);
      ItemsOfPattern(pre + x, items[1..]);
      assert re[r] == x[0];
      if items[0].Star? {
        assert re[r + 1] == '*';
      } else if |items| > 1 {
        assert re[r + 1] == Spelled(items[1])[0];
      }
      assert [items[0]] + items[1..] == items;
    }
  }

  predicate Accepts(c: char, x: char) { c == '.' || c == x }

  // Item x stands for text[a..b].
  ghost predicate Covers(x: Item, text: string, a: int, b: int) {
    && 0 <= a <= b <= |text|
    && match x
      case One(c) => b == a + 1 && Accepts(c, text[a])
      case Star(c) => forall i :: a <= i < b ==> Accepts(c, text[i])
      case End => a == b == |text|
  }

  // The text from cuts[0] on is cut into pieces, one for each item.
  ghost predicate Admits(items: seq<Item>, text: string, cuts: seq<int>) {
    && |cuts| == |items| + 1 && 0 <= cuts[0] <= |text|
    && forall k :: 0 <= k < |items| ==> Covers(items[k], text, cuts[k], cuts[k + 1])
  }

  ghost predicate Admitted(items: seq<Item>, text: string, t: int, cuts: seq<int>) {
    Admits(items, text, cuts) && cuts[0] == t
  }

  ghost predicate MatchAt(items: seq<Item>, text: string, t: int) {
    exists cuts :: Admitted(items, text, t, cuts)
  }

  // A leading '^' ties the match to the start of the text.
  ghost predicate Matches(re: string, text: string) {
    if |re| > 0 && re[0] == '^' then MatchAt(Items(re, 1), text, 0)
    else exists t :: 0 <= t <= |text| && MatchAt(Items(re, 0), text, t)
  }

  // ---------------------------------------------------------------------
  // Item by item.

  lemma MatchEmpty(text: string, t: int)
    requires 0 <= t <= |text|
    ensures MatchAt([], text, t)
  {
    assert Admitted([], text, t, [t]);
  }

  lemma MatchCons(x: Item, rest: seq<Item>, text: string, t: int, u: int)
    requires Covers(x, text, t, u) && MatchAt(rest, text, u)
    ensures MatchAt([x] + rest, text, t)
  {
    var cuts :| Admitted(rest, text, u, cuts);
    assert Admitted([x] + rest, text, t, [t] + cuts);
  }

  lemma MatchSplit(x: Item, rest: seq<Item>, text: string, t: int) returns (u: int)
    requires MatchAt([x] + rest, text, t)
    ensures Covers(x, text, t, u) && MatchAt(rest, text, u)
  {
    var items := [x] + rest;
    var cuts :| Admitted(items, text, t, cuts);
    u := cuts[1];
    assert items[0] == x && Covers(items[0], text, cuts[0], cuts[1]);
    forall k | 0 <= k < |rest| ensures Covers(rest[k], text, cuts[1..][k], cuts[1..][k + 1]) {
      assert Covers(items[k + 1], text, cuts[k + 1], cuts[k + 2]);
    }
    assert Admitted(rest, text, u, cuts[1..]);
  }

  // ---------------------------------------------------------------------
  // The code.

  // matchstar(c, re + r, text + t)
  method MatchStar(c: char, re: string, r: int, text: string, t: int) returns (ok: bool)
    requires 0 <= r <= |re| && 0 <= t <= |text|
    ensures ok <==> MatchAt([Star(c)] + Items(re, r), text, t)
    decreases |re| - r, 1
  {
    var u := t;
    while true
      invariant t <= u <= |text| && forall i :: t <= i < u ==> Accepts(c, text[i])
      invariant forall v :: t <= v < u ==> !MatchAt(Items(re, r), text, v)
      decreases |text| - u
    {
      ok := MatchHere(re, r, text, u);
      if ok {
        MatchCons(Star(c), Items(re, r), text, t, u);
        return;
      }
      if !(u < |text| && (text[u] == c || c == '.')) {
        break;
      }
      u := u + 1;
    }
    ok := false;
    StarFails(c, Items(re, r), text, t, u);
  }

  lemma StarFails(c: char, rest: seq<Item>, text: string, t: int, u: int)
    requires 0 <= t <= u <= |text| && (u == |text| || !Accepts(c, text[u]))
    requires forall v :: t <= v <= u ==> !MatchAt(rest, text, v)
    ensures !MatchAt([Star(c)] + rest, text, t)
  {
    if MatchAt([Star(c)] + rest, text, t) {
      var v := MatchSplit(Star(c), rest, text, t);
      assert false;
    }
  }

  // matchhere(re + r, text + t)
  method MatchHere(re: string, r: int, text: string, t: int) returns (ok: bool)
    requires 0 <= r <= |re| && 0 <= t <= |text|
    ensures ok <==> MatchAt(Items(re, r), text, t)
    decreases |re| - r, 0
  {
    if r == |re| {
      MatchEmpty(text, t);
      return true;
    }
    if r + 1 < |re| && re[r + 1] == '*' {
      ok := MatchStar(re[r], re, r + 2, text, t);
      return;
    }
    if re[r] == '$' && r + 1 == |re| {
      EndOnly(text, t);
      return t == |text|;
    }
    if t < |text| && (re[r] == '.' || re[r] == text[t]) {
      ok := MatchHere(re, r + 1, text, t + 1);
      OneStep(re[r], Items(re, r + 1), text, t);
      return;
    }
    OneStep(re[r], Items(re, r + 1), text, t);
    ok := false;
  }

  lemma EndOnly(text: string, t: int)
    requires 0 <= t <= |text|
    ensures MatchAt([End], text, t) <==> t == |text|
  {
    assert [End] + [] == [End];
    if t == |text| {
      MatchEmpty(text, t);
      MatchCons(End, [], text, t, t);
    }
    if MatchAt([End], text, t) {
      var u := MatchSplit(End, [], text, t);
    }
  }

  lemma OneStep(c: char, rest: seq<Item>, text: string, t: int)
    requires 0 <= t <= |text|
    ensures MatchAt([One(c)] + rest, text, t) <==> t < |text| && Accepts(c, text[t]) && MatchAt(rest, text, t + 1)
  {
    if t < |text| && Accepts(c, text[t]) && MatchAt(rest, text, t + 1) {
      MatchCons(One(c), rest, text, t, t + 1);
    }
    if MatchAt([One(c)] + rest, text, t) {
      var u := MatchSplit(One(c), rest, text, t);
    }
  }

  // match(re, text)
  method Match(re: string, text: string) returns (ok: bool)
    ensures ok <==> Matches(re, text)
  {
    if |re| > 0 && re[0] == '^' {
      ok := MatchHere(re, 1, text, 0);
      return;
    }
    var t := 0;
    while true
      invariant 0 <= t <= |text| && forall v :: 0 <= v < t ==> !MatchAt(Items(re, 0), text, v)
      decreases |text| - t
    {
      ok := MatchHere(re, 0, text, t);
      if ok {
        return;
      }
      if t == |text| {
        break;
      }
      t := t + 1;
    }
    ok := false;
  }
}
