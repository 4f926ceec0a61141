/**
 The disk writes of a commit in their order, and what a crash between any two of them leaves.
 */
module BufCrash {
  import opened Params
  import opened BufCache
  import opened BufView

  datatype Wrote = Wrote(k: Key, d: seq<int>)

  ghost function Content(m: map<Key, seq<int>>, k: Key): (d: seq<int>) { if k in m then m[k] else [] }

  // the disk d after the writes ws
  ghost function After(d: map<Key, seq<int>>, ws: seq<Wrote>): (d': map<Key, seq<int>>) {
    if ws == [] then d
    else
      var n := |ws| - 1;
      After(d, ws[..n])[ws[n].k := ws[n].d]
  }

  // the header for the list block
  function Header(block: seq<int>): (d: seq<int>) { [|block|] + block }

  // write_log: the latest content of the first n blocks goes to the log
  ghost function ToLog(latest: map<Key, seq<int>>, dev: int, start: int, block: seq<int>, n: int): (ws: seq<Wrote>)
    requires 0 <= n <= |block|
    ensures |ws| == n
  {
    if n == 0 then []
    else ToLog(latest, dev, start, block, n - 1) + [Wrote(Key(dev, start + n), Content(latest, Key(dev, block[n - 1])))]
  }

  // install_trans: and to the blocks themselves
  ghost function ToHomes(latest: map<Key, seq<int>>, dev: int, block: seq<int>, n: int): (ws: seq<Wrote>)
    requires 0 <= n <= |block|
    ensures |ws| == n
  {
    if n == 0 then []
    else ToHomes(latest, dev, block, n - 1) + [Wrote(Key(dev, block[n - 1]), Content(latest, Key(dev, block[n - 1])))]
  }

  // the part of a commit up to the commit point, and the part that begins with it
  ghost function FirstHalf(latest: map<Key, seq<int>>, dev: int, start: int, block: seq<int>): (ws: seq<Wrote>) {
    ToLog(latest, dev, start, block, |block|) + [Wrote(Key(dev, start), Header(block))]
  }

  ghost function SecondHalf(latest: map<Key, seq<int>>, dev: int, start: int, block: seq<int>): (ws: seq<Wrote>) {
    [Wrote(Key(dev, start), Header(block))] + ToHomes(latest, dev, block, |block|)
      + [Wrote(Key(dev, start), Header([]))]
  }

  ghost function CommitWrites(latest: map<Key, seq<int>>, dev: int, start: int, block: seq<int>): (ws: seq<Wrote>) {
    if block == [] then []
    else ToLog(latest, dev, start, block, |block|) + SecondHalf(latest, dev, start, block)
  }

  // ---------------------------------------------------------------------
  // Recovery.

  // install_trans of the first n entries of block, from the log on the disk
  ghost function Installed(d: map<Key, seq<int>>, dev: int, start: int, block: seq<int>, n: int):
      (d': map<Key, seq<int>>)
    requires 0 <= n <= |block|
  {
    if n == 0 then d
    else Installed(d, dev, start, block, n - 1)[Key(dev, block[n - 1]) := Content(d, Key(dev, start + n))]
  }

  // what recover_from_log makes of the disk d, beside the header
  ghost function Recovered(d: map<Key, seq<int>>, dev: int, start: int): (d': map<Key, seq<int>>) {
    var h := Content(d, Key(dev, start));
    if h == [] || h[0] < 0 || h[0] > |h| - 1 then d else Installed(d, dev, start, h[1..], h[0])
  }

  // ---------------------------------------------------------------------
  // Contents after each part.

  lemma {:induction false} AfterJoin(d: map<Key, seq<int>>, a: seq<Wrote>, b: seq<Wrote>)
    ensures After(d, a + b) == After(After(d, a), b)
    decreases |b|
  {
    if b == [] {
      assert a + b == a;
    } else {
      var n := |b| - 1;
      AfterJoin(d, a, b[..n]);
      assert (a + b)[..|a| + n] == a + b[..n] && (a + b)[|a| + n] == b[n];
    }
  }

  lemma AfterMore(d: map<Key, seq<int>>, ws: seq<Wrote>, x: Wrote)
    ensures After(d, ws + [x]) == After(d, ws)[x.k := x.d]
  {
    assert (ws + [x])[..|ws|] == ws;
  }

  lemma ContentMore(d: map<Key, seq<int>>, ws: seq<Wrote>, x: Wrote, ws': seq<Wrote>, k: Key)
    requires ws' == ws + [x]
    ensures Content(After(d, ws'), k) == if k == x.k then x.d else Content(After(d, ws), k)
  {
    AfterMore(d, ws, x);
  }

  lemma AfterOne(d: map<Key, seq<int>>, k: Key, x: seq<int>)
    ensures After(d, [Wrote(k, x)]) == d[k := x]
  {
    assert [Wrote(k, x)][..0] == [];
  }

  // block k of the disk is entry i of the log
  ghost predicate IsLog(k: Key, dev: int, start: int, n: int) { k.dev == dev && start < k.blockno <= start + n }

  // the content that entry k of the log has for the first n blocks; d is what was there
  ghost function Entry(latest: map<Key, seq<int>>, dev: int, start: int, block: seq<int>, n: int, k: Key, d: seq<int>):
      (x: seq<int>)
    requires 0 <= n <= |block|
  {
    if IsLog(k, dev, start, n) then Content(latest, Key(dev, block[k.blockno - start - 1])) else d
  }

  lemma EntryMore(latest: map<Key, seq<int>>, dev: int, start: int, block: seq<int>, n: int, k: Key, d: seq<int>)
    requires 0 < n <= |block|
    ensures Entry(latest, dev, start, block, n, k, d) == if k == Key(dev, start + n) then
      Content(latest, Key(dev, block[n - 1])) else Entry(latest, dev, start, block, n - 1, k, d)
  {
    assert k == Key(k.dev, k.blockno);
  }

  lemma {:induction false} LogMore(d: map<Key, seq<int>>, latest: map<Key, seq<int>>, dev: int, start: int,
      block: seq<int>, n: int, k: Key)
    requires 0 < n <= |block|
    ensures Content(After(d, ToLog(latest, dev, start, block, n)), k) ==
      if k == Key(dev, start + n) then Content(latest, Key(dev, block[n - 1]))
      else Content(After(d, ToLog(latest, dev, start, block, n - 1)), k)
  {
    var ws, x := ToLog(latest, dev, start, block, n - 1), Key(dev, start + n);
    ContentMore(d, ws, Wrote(x, Content(latest, Key(dev, block[n - 1]))), ToLog(latest, dev, start, block, n), k);
  }

  lemma {:induction false} LogContent(d: map<Key, seq<int>>, latest: map<Key, seq<int>>, dev: int, start: int,
      block: seq<int>, n: int, k: Key)
    requires 0 <= n <= |block|
    ensures Content(After(d, ToLog(latest, dev, start, block, n)), k) ==
      Entry(latest, dev, start, block, n, k, Content(d, k))
    decreases n
  {
    if n > 0 {
      LogMore(d, latest, dev, start, block, n, k);
      LogContent(d, latest, dev, start, block, n - 1, k);
      EntryMore(latest, dev, start, block, n, k, Content(d, k));
    }
  }

  lemma InMore(block: seq<int>, n: int, x: int)
    requires 0 < n <= |block|
    ensures x in block[..n] <==> x in block[..n - 1] || x == block[n - 1]
  {
    assert block[..n] == block[..n - 1] + [block[n - 1]];
  }

  lemma {:induction false} HomeContent(d: map<Key, seq<int>>, latest: map<Key, seq<int>>, dev: int, block: seq<int>,
      n: int, k: Key)
    requires 0 <= n <= |block|
    ensures Content(After(d, ToHomes(latest, dev, block, n)), k) ==
      if k.dev == dev && k.blockno in block[..n] then Content(latest, k) else Content(d, k)
    decreases n
  {
    if n > 0 {
      var ws, x := ToHomes(latest, dev, block, n - 1), Key(dev, block[n - 1]);
      var y := Content(latest, x);
      ContentMore(d, ws, Wrote(x, y), ToHomes(latest, dev, block, n), k);
      HomeContent(d, latest, dev, block, n - 1, k);
      InMore(block, n, k.blockno);
      assert k == x <==> k.dev == dev && k.blockno == block[n - 1];
    }
  }

  lemma {:induction false} InstalledContent(d: map<Key, seq<int>>, latest: map<Key, seq<int>>, dev: int, start: int,
      block: seq<int>, n: int, k: Key)
    requires 0 <= n <= |block|
    requires forall i :: 0 <= i < n ==> Content(d, Key(dev, start + 1 + i)) == Content(latest, Key(dev, block[i]))
    ensures Content(Installed(d, dev, start, block, n), k) ==
      if k.dev == dev && k.blockno in block[..n] then Content(latest, k) else Content(d, k)
    decreases n
  {
    if n > 0 {
      InstalledContent(d, latest, dev, start, block, n - 1, k);
      assert Content(d, Key(dev, start + 1 + (n - 1))) == Content(latest, Key(dev, block[n - 1]));
      InMore(block, n, k.blockno);
      assert k == Key(k.dev, k.blockno);
    }
  }

  // ---------------------------------------------------------------------
  // A crash in each of the three parts.

  // the blocks of the list have their latest content, the others what the disk d has
  ghost predicate Switched(d: map<Key, seq<int>>, latest: map<Key, seq<int>>, dev: int, block: seq<int>, k: Key,
      d': map<Key, seq<int>>) {
    Content(d', k) == if k.dev == dev && k.blockno in block then Content(latest, k) else Content(d, k)
  }

  ghost predicate ListHome(start: int, block: seq<int>) { forall i :: 0 <= i < |block| ==> Home(start, block[i]) }

  lemma CrashFirst(d: map<Key, seq<int>>, latest: map<Key, seq<int>>, dev: int, start: int, block: seq<int>, n: int,
      k: Key)
    requires 0 <= n <= |block| <= LOGSIZE && Content(d, Key(dev, start)) == Header([]) && Outside(k, dev, start)
    ensures Content(Recovered(After(d, ToLog(latest, dev, start, block, n)), dev, start), k) == Content(d, k)
  {
    LogContent(d, latest, dev, start, block, n, Key(dev, start));
    LogContent(d, latest, dev, start, block, n, k);
  }

  // the header and the log blocks that recovery finds from the commit point on
  lemma HalfContent(d: map<Key, seq<int>>, latest: map<Key, seq<int>>, dev: int, start: int, block: seq<int>, k: Key)
    ensures var d1 := After(d, FirstHalf(latest, dev, start, block));
      Content(d1, k) == if k == Key(dev, start) then Header(block)
        else Content(After(d, ToLog(latest, dev, start, block, |block|)), k)
  {
    var log := ToLog(latest, dev, start, block, |block|);
    AfterJoin(d, log, [Wrote(Key(dev, start), Header(block))]);
    AfterOne(After(d, log), Key(dev, start), Header(block));
  }

  // any block once the first n are installed
  lemma PartContent(d: map<Key, seq<int>>, latest: map<Key, seq<int>>, dev: int, start: int, block: seq<int>, n: int,
      k: Key)
    requires 0 <= n <= |block| && ListHome(start, block) && |block| <= LOGSIZE
    ensures var d2 := After(After(d, FirstHalf(latest, dev, start, block)), ToHomes(latest, dev, block, n));
      Content(d2, k) == if k == Key(dev, start) then Header(block)
        else if IsLog(k, dev, start, |block|) then Content(latest, Key(dev, block[k.blockno - start - 1]))
        else if k.dev == dev && k.blockno in block[..n] then Content(latest, k) else Content(d, k)
  {
    var d1 := After(d, FirstHalf(latest, dev, start, block));
    HomeContent(d1, latest, dev, block, n, k);
    HalfContent(d, latest, dev, start, block, k);
    LogContent(d, latest, dev, start, block, |block|, k);
  }

  lemma PartLog(d: map<Key, seq<int>>, latest: map<Key, seq<int>>, dev: int, start: int, block: seq<int>, n: int)
    requires 0 <= n <= |block| && ListHome(start, block) && |block| <= LOGSIZE
    ensures var d2 := After(After(d, FirstHalf(latest, dev, start, block)), ToHomes(latest, dev, block, n));
      forall i :: 0 <= i < |block| ==> Content(d2, Key(dev, start + 1 + i)) == Content(latest, Key(dev, block[i]))
  {
    var d2 := After(After(d, FirstHalf(latest, dev, start, block)), ToHomes(latest, dev, block, n));
    forall i | 0 <= i < |block| ensures Content(d2, Key(dev, start + 1 + i)) == Content(latest, Key(dev, block[i])) {
      var x := Key(dev, start + 1 + i);
      PartContent(d, latest, dev, start, block, n, x);
      assert IsLog(x, dev, start, |block|) && x != Key(dev, start) && x.blockno - start - 1 == i;
    }
  }

  lemma PartRecovers(d: map<Key, seq<int>>, latest: map<Key, seq<int>>, dev: int, start: int, block: seq<int>, n: int)
    requires 0 <= n <= |block| && ListHome(start, block) && |block| <= LOGSIZE
    ensures var d2 := After(After(d, FirstHalf(latest, dev, start, block)), ToHomes(latest, dev, block, n));
      Recovered(d2, dev, start) == Installed(d2, dev, start, block, |block|)
  {
    PartContent(d, latest, dev, start, block, n, Key(dev, start));
    assert Header(block)[1..] == block;
  }

  lemma CrashSecond(d: map<Key, seq<int>>, latest: map<Key, seq<int>>, dev: int, start: int, block: seq<int>, n: int,
      k: Key)
    requires 0 <= n <= |block| <= LOGSIZE && ListHome(start, block) && Outside(k, dev, start)
    ensures Switched(d, latest, dev, block, k, Recovered(After(d, FirstHalf(latest, dev, start, block)
      + ToHomes(latest, dev, block, n)), dev, start))
  {
    var half, homes := FirstHalf(latest, dev, start, block), ToHomes(latest, dev, block, n);
    var d2 := After(After(d, half), homes);
    assert After(d, half + homes) == d2 by { AfterJoin(d, half, homes); }
    PartRecovers(d, latest, dev, start, block, n);
    assert Content(Installed(d2, dev, start, block, |block|), k) ==
      if k.dev == dev && k.blockno in block then Content(latest, k) else Content(d2, k) by {
      PartLog(d, latest, dev, start, block, n);
      InstalledContent(d2, latest, dev, start, block, |block|, k);
      assert block[..|block|] == block;
    }
    PartContent(d, latest, dev, start, block, n, k);
  }

  lemma CrashLast(d: map<Key, seq<int>>, latest: map<Key, seq<int>>, dev: int, start: int, block: seq<int>, k: Key)
    requires 0 < |block| <= LOGSIZE && ListHome(start, block) && Outside(k, dev, start)
    ensures Switched(d, latest, dev, block, k, Recovered(After(d, CommitWrites(latest, dev, start, block)), dev, start))
  {
    var n := |block|;
    var half, homes := FirstHalf(latest, dev, start, block), ToHomes(latest, dev, block, n);
    var d1 := After(d, half);
    var d2 := After(d1, homes);
    assert CommitWrites(latest, dev, start, block) == half + homes + [Wrote(Key(dev, start), Header([]))];
    AfterJoin(d, half, homes);
    AfterJoin(d, half + homes, [Wrote(Key(dev, start), Header([]))]);
    AfterOne(d2, Key(dev, start), Header([]));
    PartContent(d, latest, dev, start, block, n, k);
    assert block[..n] == block;
  }

  lemma {:induction false} LogPrefix(latest: map<Key, seq<int>>, dev: int, start: int, block: seq<int>, j: int, n: int)
    requires 0 <= j <= n <= |block|
    ensures ToLog(latest, dev, start, block, n)[..j] == ToLog(latest, dev, start, block, j)
    decreases n
  {
    if j < n { LogPrefix(latest, dev, start, block, j, n - 1); }
  }

  lemma {:induction false} HomePrefix(latest: map<Key, seq<int>>, dev: int, block: seq<int>, j: int, n: int)
    requires 0 <= j <= n <= |block|
    ensures ToHomes(latest, dev, block, n)[..j] == ToHomes(latest, dev, block, j)
    decreases n
  {
    if j < n { HomePrefix(latest, dev, block, j, n - 1); }
  }

  // The content of a block of the list is the same in both.
  lemma SameContent(v: View, a: map<Key, seq<int>>, b: map<Key, seq<int>>, i: int)
    requires Held(v) && SameHomes(a, b, v.dev, v.start) && 0 <= i < |v.block|
    ensures Content(a, Key(v.dev, v.block[i])) == Content(b, Key(v.dev, v.block[i]))
  {
    assert ViewOk(v);
    assert v.block[i] in v.block;
  }

  lemma {:induction false} SameWrites(v: View, a: map<Key, seq<int>>, b: map<Key, seq<int>>, n: int)
    requires Held(v) && SameHomes(a, b, v.dev, v.start) && 0 <= n <= |v.block|
    ensures ToHomes(a, v.dev, v.block, n) == ToHomes(b, v.dev, v.block, n)
    decreases n
  {
    if n > 0 {
      SameContent(v, a, b, n - 1);
      SameWrites(v, a, b, n - 1);
    }
  }

  // One more block in the log, and one more at home.
  lemma LogNext(v: View, ws: seq<Wrote>, old0: map<Key, seq<int>>, l: map<Key, seq<int>>, t: int)
    requires Held(v) && SameHomes(old0, l, v.dev, v.start) && 0 <= t < |v.block|
    ensures ws + ToLog(old0, v.dev, v.start, v.block, t)
      + [Wrote(Key(v.dev, v.start + 1 + t), Content(l, Key(v.dev, v.block[t])))]
      == ws + ToLog(old0, v.dev, v.start, v.block, t + 1)
  {
    SameContent(v, old0, l, t);
  }

  lemma HomeNext(ws: seq<Wrote>, latest: map<Key, seq<int>>, dev: int, block: seq<int>, t: int)
    requires 0 <= t < |block|
    ensures ws + ToHomes(latest, dev, block, t) + [Wrote(Key(dev, block[t]), Content(latest, Key(dev, block[t])))]
      == ws + ToHomes(latest, dev, block, t + 1)
  {
  }

  lemma LogPart(ws: seq<Wrote>, latest: map<Key, seq<int>>, dev: int, start: int, block: seq<int>, t: int)
    requires 0 <= t <= |block|
    ensures ws + ToLog(latest, dev, start, block, t) <= ws + ToLog(latest, dev, start, block, |block|)
  {
    LogPrefix(latest, dev, start, block, t, |block|);
  }

  lemma HomePart(ws: seq<Wrote>, latest: map<Key, seq<int>>, dev: int, block: seq<int>, t: int)
    requires 0 <= t <= |block|
    ensures ws + ToHomes(latest, dev, block, t) <= ws + ToHomes(latest, dev, block, |block|)
  {
    HomePrefix(latest, dev, block, t, |block|);
  }

  // What is a part of the log writes is a part of the commit's.
  lemma WritesSplit(before: seq<Wrote>, writes: seq<Wrote>, latest: map<Key, seq<int>>, dev: int, start: int,
      block: seq<int>)
    requires block != [] && writes <= before + ToLog(latest, dev, start, block, |block|)
    ensures writes <= before + CommitWrites(latest, dev, start, block)
    ensures before + ToLog(latest, dev, start, block, |block|) + SecondHalf(latest, dev, start, block)
      == before + CommitWrites(latest, dev, start, block)
  {
  }

  lemma SecondJoin(ws: seq<Wrote>, latest: map<Key, seq<int>>, dev: int, start: int, block: seq<int>)
    ensures ws + [Wrote(Key(dev, start), Header(block))] + ToHomes(latest, dev, block, |block|)
      + [Wrote(Key(dev, start), Header([]))] == ws + SecondHalf(latest, dev, start, block)
  {
  }

  // A commit is atomic: a crash after any number of its disk writes leaves a disk that recovery
  // turns into the one before the commit, or into the one with all its changes, the latter from
  // the first header write on.
  lemma CommitAtomic(d: map<Key, seq<int>>, latest: map<Key, seq<int>>, dev: int, start: int, block: seq<int>, m: int,
      k: Key)
    requires |block| <= LOGSIZE && ListHome(start, block) && Content(d, Key(dev, start)) == Header([])
    requires 0 <= m <= |CommitWrites(latest, dev, start, block)| && Outside(k, dev, start)
    ensures var d' := Recovered(After(d, CommitWrites(latest, dev, start, block)[..m]), dev, start);
      if m <= |block| then Content(d', k) == Content(d, k) else Switched(d, latest, dev, block, k, d')
  {
    var n, ws := |block|, CommitWrites(latest, dev, start, block);
    if m <= n {
      assert ws[..m] == ToLog(latest, dev, start, block, n)[..m];
      LogPrefix(latest, dev, start, block, m, n);
      CrashFirst(d, latest, dev, start, block, m, k);
    } else if m <= 2 * n + 1 {
      var j := m - n - 1;
      HomePrefix(latest, dev, block, j, n);
      assert ws[..m] == FirstHalf(latest, dev, start, block) + ToHomes(latest, dev, block, n)[..j];
      CrashSecond(d, latest, dev, start, block, j, k);
    } else {
      assert ws[..m] == ws;
      CrashLast(d, latest, dev, start, block, k);
    }
  }

  // Outside the log area d' is the disk d, or d with the latest content of the blocks of the list.
  ghost predicate Recovers(d: map<Key, seq<int>>, latest: map<Key, seq<int>>, dev: int, start: int, block: seq<int>,
      d': map<Key, seq<int>>, early: bool) {
    forall k :: Outside(k, dev, start) ==>
      if early then Content(d', k) == Content(d, k) else Switched(d, latest, dev, block, k, d')
  }

  // of a commit that comes after the writes before, with m writes made in all
  lemma CommitCrash(first: map<Key, seq<int>>, before: seq<Wrote>, latest: map<Key, seq<int>>, dev: int, start: int,
      block: seq<int>, m: int)
    requires |block| <= LOGSIZE && ListHome(start, block)
    requires Content(After(first, before), Key(dev, start)) == Header([])
    requires |before| <= m <= |before + CommitWrites(latest, dev, start, block)|
    ensures Recovers(After(first, before), latest, dev, start, block,
      Recovered(After(first, (before + CommitWrites(latest, dev, start, block))[..m]), dev, start),
      m <= |before| + |block|)
  {
    var d, ws := After(first, before), CommitWrites(latest, dev, start, block);
    var n := m - |before|;
    assert (before + ws)[..m] == before + ws[..n];
    AfterJoin(first, before, ws[..n]);
    forall k | Outside(k, dev, start)
      ensures var d' := Recovered(After(d, ws[..n]), dev, start);
        if n <= |block| then Content(d', k) == Content(d, k) else Switched(d, latest, dev, block, k, d')
    {
      CommitAtomic(d, latest, dev, start, block, n, k);
    }
  }

  // the same for writes that are the first ones of such a commit
  lemma PartCrash(first: map<Key, seq<int>>, before: seq<Wrote>, writes: seq<Wrote>, latest: map<Key, seq<int>>,
      dev: int, start: int, block: seq<int>, m: int)
    requires |block| <= LOGSIZE && ListHome(start, block)
    requires Content(After(first, before), Key(dev, start)) == Header([])
    requires before <= writes <= before + CommitWrites(latest, dev, start, block) && |before| <= m <= |writes|
    ensures Recovers(After(first, writes[..|before|]), latest, dev, start, block,
      Recovered(After(first, writes[..m]), dev, start), m <= |before| + |block|)
  {
    var all := before + CommitWrites(latest, dev, start, block);
    assert writes[..|before|] == before;
    assert writes[..m] == all[..m] by { assert writes == all[..|writes|]; }
    CommitCrash(first, before, latest, dev, start, block, m);
  }

  // what a commit leaves in the header
  lemma CommitClears(first: map<Key, seq<int>>, before: seq<Wrote>, latest: map<Key, seq<int>>, dev: int, start: int,
      block: seq<int>)
    requires Content(After(first, before), Key(dev, start)) == Header([])
    ensures Content(After(first, before + CommitWrites(latest, dev, start, block)), Key(dev, start)) == Header([])
  {
    var ws := CommitWrites(latest, dev, start, block);
    if block == [] {
      assert before + ws == before;
    } else {
      var x := Wrote(Key(dev, start), Header([]));
      ContentMore(first, (before + ws)[..|before + ws| - 1], x, before + ws, Key(dev, start));
    }
  }
}
