/**
 What the redo log keeps about the buffers of bio.c, and what one process can rely on while
 others use the cache: exactly the logged blocks are pinned, a changed block is logged, on the
 disk or in the hands of the process that has it locked, and nobody touches a locked buffer.
 */
module BufView {
  import opened Params
  import opened BufCache

  // ---------------------------------------------------------------------
  // What holds between any two steps; rest is the set of logged blocks that are not installed,
  // open the set of blocks that their lock's holder has changed and neither logged nor written.

  ghost predicate InRest(k: Key, dev: int, rest: set<int>) { k.dev == dev && k.blockno in rest }

  // Exactly the buffers of those blocks are pinned, once.
  ghost predicate Pinned(bufs: seq<Buf>, pins: seq<int>, dev: int, rest: set<int>) {
    && |bufs| == |pins| == NBUF
    && forall b :: 0 <= b < NBUF ==> pins[b] == if InRest(bufs[b].key, dev, rest) then 1 else 0
  }

  ghost predicate InCache(bufs: seq<Buf>, k: Key) { exists b :: Cached(bufs, b, k) }

  ghost predicate AllCached(bufs: seq<Buf>, dev: int, rest: set<int>) {
    forall x :: x in rest ==> InCache(bufs, Key(dev, x))
  }

  // Somebody has the buffer of block k locked.
  ghost predicate LockedAt(bufs: seq<Buf>, b: int, k: Key) {
    0 <= b < |bufs| && bufs[b].key == k && bufs[b].holder != NONE
  }

  ghost predicate Locked(bufs: seq<Buf>, k: Key) { exists b :: LockedAt(bufs, b, k) }

  ghost predicate OpenLocked(bufs: seq<Buf>, open: set<Key>) { forall k :: k in open ==> Locked(bufs, k) }

  // Only blocks of rest and open differ from the disk.
  ghost predicate SettledAll(disk: map<Key, seq<int>>, latest: map<Key, seq<int>>, dev: int, rest: set<int>,
      open: set<Key>)
    requires disk.Keys == latest.Keys
  {
    forall k :: k in disk && disk[k] != latest[k] ==> InRest(k, dev, rest) || k in open
  }

  // the same, kept folded
  ghost predicate Settled(disk: map<Key, seq<int>>, latest: map<Key, seq<int>>, dev: int, rest: set<int>,
      open: set<Key>) {
    disk.Keys == latest.Keys && forall x :: x == rest ==> SettledAll(disk, latest, dev, x, open)
  }

  // A step on block k that leaves it logged, open or as the disk has it.
  lemma SettledStep(disk: map<Key, seq<int>>, latest: map<Key, seq<int>>, disk': map<Key, seq<int>>,
      latest': map<Key, seq<int>>,
                    dev: int, rest: set<int>, rest': set<int>, open: set<Key>, open': set<Key>, k: Key)
    requires Settled(disk, latest, dev, rest, open) && disk'.Keys == latest'.Keys == disk.Keys
    requires forall j :: j in disk && j != k ==> disk'[j] == disk[j] && latest'[j] == latest[j]
    requires forall x :: x in rest && Key(dev, x) != k ==> x in rest'
    requires forall j :: j in open && j != k ==> j in open'
    requires k in disk' && disk'[k] != latest'[k] ==> InRest(k, dev, rest') || k in open'
    ensures Settled(disk', latest', dev, rest', open')
  {
    assert SettledAll(disk, latest, dev, rest, open);
    forall j | j in disk' && disk'[j] != latest'[j] ensures InRest(j, dev, rest') || j in open' {
      if j != k { assert InRest(j, dev, rest) ==> Key(dev, j.blockno) == j; }
    }
    assert SettledAll(disk', latest', dev, rest', open');
  }

  // What log.c keeps, beside the cache: keys are the blocks of the disk.
  datatype View = View(dev: int, start: int, block: seq<int>, rest: set<int>, open: set<Key>, bufs: seq<Buf>,
      pins: seq<int>, keys: set<Key>)

  // x is not in the log area
  predicate Home(start: int, x: int) { x < start || x > start + LOGSIZE }

  ghost predicate ListOk(v: View) {
    && (forall x :: v.start <= x <= v.start + LOGSIZE ==> Key(v.dev, x) in v.keys)
    && (forall i, j :: 0 <= i < j < |v.block| ==> v.block[i] != v.block[j])
    && (forall x :: x in v.block ==> Home(v.start, x) && Key(v.dev, x) in v.keys)
    && (forall x :: x in v.rest ==> x in v.block)
  }

  ghost predicate ViewOk(v: View) {
    && ListOk(v) && Pinned(v.bufs, v.pins, v.dev, v.rest) && AllCached(v.bufs, v.dev, v.rest)
    && OpenLocked(v.bufs, v.open)
  }

  // ViewOk, kept folded
  ghost predicate Held(v: View) {
    && |v.bufs| == |v.pins| == NBUF && |v.block| <= LOGSIZE && v.dev != 0
    && forall w :: w == v ==> ViewOk(w)
  }

  // Nothing is lost when an unused buffer is recycled, whatever the processes are doing.
  lemma NothingLost(s: State, v: View, b: int)
    requires Kept(s) && Held(v) && v.bufs == s.bufs && v.pins == s.pins
      && Settled(s.disk, s.latest, v.dev, v.rest, v.open)
    requires 0 <= b < NBUF && s.bufs[b].refcnt == 0
    ensures Reverted(s.bufs[b], s.disk, s.latest) == s.latest && s.pins[b] == 0 && s.bufs[b].holder == NONE
    ensures s.users[b] == multiset{}
  {
    assert ViewOk(v) && SettledAll(s.disk, s.latest, v.dev, v.rest, v.open);
    RefIs(s, b);
    if s.bufs[b].valid && s.bufs[b].key in s.disk {
      var k := s.bufs[b].key;
      if k in v.open {
        assert Locked(v.bufs, k);
        var c :| LockedAt(v.bufs, c, k);
        LockApart(s, c, b);
        assert false;
      }
      assert s.latest[k := s.disk[k]] == s.latest;
    }
  }

  // No other buffer has the block of a locked one.
  lemma LockApart(s: State, b: int, c: int)
    requires Kept(s) && 0 <= b < NBUF && s.bufs[b].holder != NONE && 0 <= c < NBUF && s.bufs[c].key == s.bufs[b].key
    ensures c == b && s.bufs[b].refcnt > 0 && s.bufs[b].key.dev != 0
  {
    RefIs(s, b);
    assert |s.users[b]| > 0;
    assert Unique(s.bufs) by { assert StateOk(s); }
  }

  // A buffer that nobody has locked is not open.
  lemma NotOpen(s: State, v: View, b: int)
    requires Kept(s) && Held(v) && v.bufs == s.bufs && 0 <= b < NBUF && s.bufs[b].holder == NONE
    ensures s.bufs[b].key !in v.open
  {
    if s.bufs[b].key in v.open {
      assert ViewOk(v);
      assert Locked(v.bufs, s.bufs[b].key);
      var c :| LockedAt(v.bufs, c, s.bufs[b].key);
      LockApart(s, c, b);
    }
  }

  // How one buffer may change: it stays with its block, or it is an unused one taken for a block
  // that no buffer has.
  ghost predicate Tame(v: View, b: int, buf: Buf)
    requires |v.bufs| == |v.pins| == NBUF && 0 <= b < NBUF
  {
    if v.bufs[b].key == buf.key then
      (v.bufs[b].valid ==> buf.valid) && (buf.holder == NONE && v.bufs[b].holder != NONE ==> buf.key !in v.open)
    else v.pins[b] == 0 && v.bufs[b].holder == NONE && forall c :: 0 <= c < NBUF ==> v.bufs[c].key != buf.key
  }

  lemma StillCached(v: View, b: int, buf: Buf)
    requires ViewOk(v) && 0 <= b < NBUF && Tame(v, b, buf)
    ensures AllCached(v.bufs[b := buf], v.dev, v.rest)
  {
    forall x | x in v.rest ensures InCache(v.bufs[b := buf], Key(v.dev, x)) {
      assert InCache(v.bufs, Key(v.dev, x));
      var c :| Cached(v.bufs, c, Key(v.dev, x));
      assert InRest(v.bufs[c].key, v.dev, v.rest);
      assert Cached(v.bufs[b := buf], c, Key(v.dev, x));
    }
  }

  lemma StillLocked(v: View, b: int, buf: Buf)
    requires ViewOk(v) && 0 <= b < NBUF && Tame(v, b, buf)
    ensures OpenLocked(v.bufs[b := buf], v.open)
  {
    forall k | k in v.open ensures Locked(v.bufs[b := buf], k) {
      assert Locked(v.bufs, k);
      var c :| LockedAt(v.bufs, c, k);
      assert LockedAt(v.bufs[b := buf], c, k);
    }
  }

  lemma StepHeld(v: View, b: int, buf: Buf)
    requires Held(v) && 0 <= b < NBUF && Tame(v, b, buf)
    ensures Held(v.(bufs := v.bufs[b := buf]))
  {
    var v' := v.(bufs := v.bufs[b := buf]);
    assert ViewOk(v') by {
      assert ViewOk(v);
      assert InRest(buf.key, v.dev, v.rest) ==> InCache(v.bufs, buf.key);
      StillCached(v, b, buf);
      StillLocked(v, b, buf);
    }
  }

  // The holder of b has changed its block.
  lemma OpenHeld(v: View, b: int)
    requires Held(v) && 0 <= b < NBUF && v.bufs[b].holder != NONE
    ensures Held(v.(open := v.open + {v.bufs[b].key}))
  {
    var v' := v.(open := v.open + {v.bufs[b].key});
    assert ViewOk(v') by {
      assert ViewOk(v);
      assert LockedAt(v.bufs, b, v.bufs[b].key);
    }
  }

  lemma CloseHeld(v: View, k: Key)
    requires Held(v)
    ensures Held(v.(open := v.open - {k}))
  {
    assert ViewOk(v.(open := v.open - {k})) by { assert ViewOk(v); }
  }

  // The buffer b of the newly logged block x is pinned.
  lemma AddHeld(s: State, v: View, b: int, x: int)
    requires Kept(s) && Held(v) && v.bufs == s.bufs && Cached(v.bufs, b, Key(v.dev, x)) && x !in v.block
    requires |v.block| < LOGSIZE && Home(v.start, x) && Key(v.dev, x) in v.keys
    ensures Held(v.(pins := v.pins[b := v.pins[b] + 1], block := v.block + [x], rest := v.rest + {x}))
  {
    var v' := v.(pins := v.pins[b := v.pins[b] + 1], block := v.block + [x], rest := v.rest + {x});
    assert Unique(s.bufs) by { assert StateOk(s); }
    assert ViewOk(v);
    assert InCache(v.bufs, Key(v.dev, x));
    assert ViewOk(v');
  }

  lemma DropHeld(s: State, v: View, b: int, x: int)
    requires Kept(s) && Held(v) && v.bufs == s.bufs && Cached(v.bufs, b, Key(v.dev, x)) && x in v.rest
    ensures v.pins[b] == 1 && Held(v.(pins := v.pins[b := v.pins[b] - 1], rest := v.rest - {x}))
  {
    assert Unique(s.bufs) by { assert StateOk(s); }
    assert ViewOk(v);
    assert ViewOk(v.(pins := v.pins[b := v.pins[b] - 1], rest := v.rest - {x}));
  }

  lemma Listed(v: View, t: int)
    requires Held(v) && 0 <= t < |v.block|
    ensures Key(v.dev, v.start + 1 + t) in v.keys && Key(v.dev, v.block[t]) in v.keys && v.block[t] != v.start + 1 + t
    ensures v.block[t] in v.rest ==> InCache(v.bufs, Key(v.dev, v.block[t]))
  {
    assert ViewOk(v);
    assert v.block[t] in v.block;
  }

  // ---------------------------------------------------------------------
  // What one process has in its hands.

  // references, and the buffer behind a lock; clean if the block is not open
  datatype Hand = Hand(refs: int, key: Key, lock: bool, valid: bool, data: seq<int>, clean: bool)

  const NOTHING: Hand := Hand(0, Key(0, 0), false, false, [], true)

  ghost function HandAt(p: int, bufs: seq<Buf>, users: seq<multiset<int>>, open: set<Key>, b: int): (h: Hand)
    requires |bufs| == |users| == NBUF && 0 <= b < NBUF
  {
    if p !in users[b] then NOTHING
    else if bufs[b].holder != p then Hand(users[b][p], bufs[b].key, false, false, [], true)
    else Hand(users[b][p], bufs[b].key, true, bufs[b].valid, bufs[b].data, bufs[b].key !in open)
  }

  ghost function HandsTo(p: int, bufs: seq<Buf>, users: seq<multiset<int>>, open: set<Key>, n: int): (hs: seq<Hand>)
    requires |bufs| == |users| == NBUF && 0 <= n <= NBUF
    ensures |hs| == n
  {
    if n == 0 then [] else HandsTo(p, bufs, users, open, n - 1) + [HandAt(p, bufs, users, open, n - 1)]
  }

  // what p has of each buffer
  ghost function AllHands(p: int, bufs: seq<Buf>, users: seq<multiset<int>>, open: set<Key>): (hs: seq<Hand>)
    requires |bufs| == |users| == NBUF
    ensures |hs| == NBUF
  {
    HandsTo(p, bufs, users, open, NBUF)
  }

  lemma {:induction false} HandsToAt(p: int, bufs: seq<Buf>, users: seq<multiset<int>>, open: set<Key>, n: int, b: int)
    requires |bufs| == |users| == NBUF && 0 <= b < n <= NBUF
    ensures HandsTo(p, bufs, users, open, n)[b] == HandAt(p, bufs, users, open, b)
  {
    if b < n - 1 { HandsToAt(p, bufs, users, open, n - 1, b); }
  }

  lemma HandIs(p: int, bufs: seq<Buf>, users: seq<multiset<int>>, open: set<Key>, b: int)
    requires |bufs| == |users| == NBUF && 0 <= b < NBUF
    ensures AllHands(p, bufs, users, open)[b] == HandAt(p, bufs, users, open, b)
  {
    HandsToAt(p, bufs, users, open, NBUF, b);
  }

  ghost function Empty(): (hs: seq<Hand>) { seq(NBUF, _ => NOTHING) }

  lemma NoHands(p: int, bufs: seq<Buf>, users: seq<multiset<int>>, open: set<Key>)
    requires |bufs| == |users| == NBUF && forall b :: 0 <= b < NBUF ==> users[b] == multiset{}
    ensures AllHands(p, bufs, users, open) == Empty()
  {
    forall b | 0 <= b < NBUF
      ensures AllHands(p, bufs, users, open)[b] == Empty()[b]
    {
      HandIs(p, bufs, users, open, b);
    }
  }

  // n references and no lock
  ghost function Loose(n: int, k: Key): (h: Hand) { if n == 0 then NOTHING else Hand(n, k, false, false, [], true) }

  // n references and the lock, with the content d
  ghost function Grip(n: int, k: Key, d: seq<int>): (h: Hand) { Hand(n, k, true, true, d, true) }

  // What bget of block k makes of p's hand.
  lemma TakenHand(p: int, s: State, open: set<Key>, bufs': seq<Buf>, users': seq<multiset<int>>, b: int, k: Key)
    requires Kept(s) && 0 <= b < NBUF && |bufs'| == |users'| == NBUF && p != NONE
    requires users'[b] == s.users[b] + multiset{p} && bufs'[b].key == k
    requires s.bufs[b].key == k ==> bufs'[b] == s.bufs[b].(refcnt := bufs'[b].refcnt)
    requires s.bufs[b].key != k ==> s.users[b] == multiset{} && bufs'[b].holder == NONE
    ensures var g, h := HandAt(p, s.bufs, s.users, open, b), HandAt(p, bufs', users', open, b);
      h.refs == g.refs + 1 && h.key == k && h.lock == g.lock && (g.lock ==> g.key == k)
        && (!g.lock ==> g == Loose(g.refs, k))
  {
    RefIs(s, b);
  }

  // Two buffers, and giving them back.
  ghost function Two(b: int, g: Hand, c: int, h: Hand): (hs: seq<Hand>)
    requires 0 <= b < NBUF && 0 <= c < NBUF && b != c
  {
    Empty()[b := g][c := h]
  }

  lemma TwoBack(b: int, g: Hand, c: int, h: Hand, g': Hand)
    requires 0 <= b < NBUF && 0 <= c < NBUF && b != c
    ensures Two(b, g, c, h)[b] == g && Two(b, g, c, h)[c] == h && Two(b, g, c, h) == Two(c, h, b, g)
    ensures Two(b, g, c, h)[b := g'] == Two(b, g', c, h) && Two(b, NOTHING, c, h)[c] == h
    ensures Two(b, NOTHING, c, h)[c := NOTHING] == Empty()
  {
  }

  lemma Twice(hs: seq<Hand>, b: int, g: Hand, h: Hand)
    requires 0 <= b < |hs|
    ensures hs[b := g][b := h] == hs[b := h] && hs[b := hs[b]] == hs
  {
  }

  // A step on buffer b, or on the openness of its block, is a step on b for everybody.
  lemma HandsAt(p: int, s: State, open: set<Key>, bufs': seq<Buf>, users': seq<multiset<int>>, open': set<Key>, b: int)
    requires Kept(s) && 0 <= b < NBUF && |bufs'| == |users'| == NBUF && p != NONE
    requires bufs' == s.bufs[b := bufs'[b]] && users' == s.users[b := users'[b]]
    requires open' == open
      || (s.bufs[b].holder != NONE && forall k :: k != s.bufs[b].key ==> (k in open <==> k in open'))
    ensures AllHands(p, bufs', users', open') == AllHands(p, s.bufs, s.users,
      open)[b := HandAt(p, bufs', users', open', b)]
  {
    var hs, hs' := AllHands(p, s.bufs, s.users, open), AllHands(p, bufs', users', open');
    forall c | 0 <= c < NBUF ensures hs'[c] == hs[b := HandAt(p, bufs', users', open', b)][c] {
      HandIs(p, bufs', users', open', c);
      HandIs(p, s.bufs, s.users, open, c);
      if c != b && s.bufs[c].key == s.bufs[b].key && open' != open { LockApart(s, b, c); }
    }
  }

  // ---------------------------------------------------------------------
  // The other processes.

  // What other processes do next, in any order: bget, acquiresleep, bread's transfer, a change,
  // log_write, brelse's two sections, begin_op and end_op. Turn ends a stretch of their steps.
  datatype Step =
    | Turn | BeginBy | EndBy
    | GetBy(q: int, k: Key) | LockBy(q: int, b: int) | ReadBy(q: int, b: int)
    | ChangeBy(q: int, b: int, d: seq<int>) | LogBy(q: int, b: int)
    | UnlockBy(q: int, b: int) | DropBy(q: int, b: int)

  predicate Writes(st: Step) { st.ChangeBy? || st.LogBy? }

  predicate Readers(others: seq<Step>) { forall i :: 0 <= i < |others| ==> !Writes(others[i]) }

  datatype Snap = Snap(
    disk: map<Key, seq<int>>, latest: map<Key, seq<int>>, block: seq<int>, rest: set<int>, open: set<Key>,
    outstanding: int, others: seq<Step>, users: seq<multiset<int>>)

  ghost predicate OnlyBy(p: int, users: seq<multiset<int>>) {
    forall b, q :: 0 <= b < |users| && q in users[b] ==> q == p
  }

  // nobody but p has or will take a buffer
  ghost predicate Alone(p: int, a: Snap) { a.others == [] && OnlyBy(p, a.users) }

  // p stays alone
  ghost predicate Stays(p: int, a: Snap, b: Snap) { Alone(p, a) ==> Alone(p, b) && b.outstanding == a.outstanding }

  // the others only read: no operation is open, or they change nothing
  ghost predicate Frozen(a: Snap) { a.outstanding == 0 || Readers(a.others) }

  ghost predicate AllLogged(block: seq<int>, rest: set<int>) { forall i :: 0 <= i < |block| ==> block[i] in rest }

  // What the others can do to the log and the contents.
  ghost predicate CalmAll(p: int, a: Snap, b: Snap) {
    && b.disk == a.disk && a.block <= b.block && a.rest <= b.rest
    && (a.outstanding > 0 <==> b.outstanding > 0) && (a.outstanding == 0 ==> b.outstanding == 0)
    && (Frozen(a) ==> Frozen(b) && b.latest == a.latest && b.block == a.block && b.rest == a.rest && b.open == a.open)
    && Stays(p, a, b)
  }

  // the same, kept folded
  ghost predicate Calm(p: int, a: Snap, b: Snap) { forall z :: z == b ==> CalmAll(p, a, z) }

  lemma CalmJoin(p: int, a: Snap, b: Snap, c: Snap)
    requires Calm(p, a, b) && Calm(p, b, c)
    ensures Calm(p, a, c)
  {
    assert CalmAll(p, a, b) && CalmAll(p, b, c);
    assert CalmAll(p, a, c);
  }

  // What p can use of it.
  lemma CalmFacts(p: int, a: Snap, b: Snap)
    requires Calm(p, a, b)
    ensures b.disk == a.disk && a.block <= b.block && a.rest <= b.rest
    ensures (a.outstanding > 0 <==> b.outstanding > 0) && (a.outstanding == 0 ==> b.outstanding == 0)
    ensures Frozen(a) ==>
      Frozen(b) && b.latest == a.latest && b.block == a.block && b.rest == a.rest && b.open == a.open
    ensures Stays(p, a, b)
  {
    assert CalmAll(p, a, b);
  }

  // One step of the others.
  lemma CalmStep(p: int, a: Snap, b: Snap)
    requires a.others != [] && b.others == a.others[1..] && b.disk == a.disk && a.block <= b.block && a.rest <= b.rest
    requires (a.outstanding > 0 <==> b.outstanding > 0) && (a.outstanding == 0 ==> b.outstanding == 0)
    requires a.outstanding == 0 || !Writes(a.others[0]) ==>
      b.latest == a.latest && b.block == a.block && b.rest == a.rest && b.open == a.open
    ensures Calm(p, a, b)
  {
    assert Readers(a.others) ==> Readers(b.others);
    assert CalmAll(p, a, b);
  }

  // a step of p that only changes its references
  lemma CalmOwn(p: int, a: Snap, users: seq<multiset<int>>)
    requires OnlyBy(p, a.users) ==> OnlyBy(p, users)
    ensures Calm(p, a, a.(users := users))
  {
    assert CalmAll(p, a, a.(users := users));
  }

  // ---------------------------------------------------------------------
  // How many buffers are referenced.

  ghost function PinnedBufs(bufs: seq<Buf>, dev: int, rest: set<int>): (bs: set<int>)
    requires |bufs| == NBUF
  {
    set b | 0 <= b < NBUF && InRest(bufs[b].key, dev, rest)
  }

  // the buffers that processes have from bget
  ghost function Used(users: seq<multiset<int>>): (bs: set<int>) {
    set b | 0 <= b < |users| && users[b] != multiset{}
  }

  lemma {:induction false} PinnedCount(bufs: seq<Buf>, dev: int, rest: set<int>)
    requires Unique(bufs) && AllCached(bufs, dev, rest) && dev != 0
    ensures |PinnedBufs(bufs, dev, rest)| == |rest|
    decreases rest
  {
    if rest == {} {
      assert PinnedBufs(bufs, dev, rest) == {};
    } else {
      assert (forall y :: y !in rest) ==> rest == {};
      var x :| x in rest;
      assert InCache(bufs, Key(dev, x));
      var b :| Cached(bufs, b, Key(dev, x));
      PinnedCount(bufs, dev, rest - {x});
      assert PinnedBufs(bufs, dev, rest) == PinnedBufs(bufs, dev, rest - {x}) + {b};
    }
  }

  ghost function Indices(n: int): (s: set<int>)
    requires n >= 0
    ensures |s| == n && forall b :: b in s <==> 0 <= b < n
  {
    if n == 0 then {} else Indices(n - 1) + {n - 1}
  }

  lemma AllOf(ps: set<int>, n: int)
    requires n >= 0 && forall b :: b in ps ==> 0 <= b < n
    ensures |ps| <= n && (|ps| == n <==> forall b :: 0 <= b < n ==> b in ps)
  {
    var all := Indices(n);
    assert all == ps + (all - ps);
    if |ps| == n {
      assert all - ps == {};
      forall b | 0 <= b < n ensures b in ps { assert b in all; }
    }
    if forall b :: 0 <= b < n ==> b in ps {
      assert all - ps == {};
    }
  }

  // As many buffers are pinned as blocks are to be installed.
  lemma PinnedSize(s: State, v: View)
    requires Kept(s) && Held(v) && v.bufs == s.bufs && v.pins == s.pins
    ensures |PinnedBufs(s.bufs, v.dev, v.rest)| == |v.rest| <= NBUF
  {
    assert ViewOk(v);
    assert Unique(s.bufs) by { assert StateOk(s); }
    PinnedCount(s.bufs, v.dev, v.rest);
    AllOf(PinnedBufs(s.bufs, v.dev, v.rest), NBUF);
  }

  // When every buffer is referenced, the pinned ones and those in use are at least NBUF.
  lemma FullCount(s: State, v: View)
    requires Kept(s) && Held(v) && v.bufs == s.bufs && v.pins == s.pins
    requires forall b :: 0 <= b < NBUF ==> s.bufs[b].refcnt > 0
    ensures |v.rest| + |Used(s.users)| >= NBUF
  {
    var ps, us := PinnedBufs(s.bufs, v.dev, v.rest), Used(s.users);
    PinnedSize(s, v);
    assert ViewOk(v);
    forall b | 0 <= b < NBUF ensures b in ps + us { RefIs(s, b); }
    AllOf(ps + us, NBUF);
    assert ps + us == ps + (us - ps);
    assert us == (us - ps) + (us * ps);
  }

  // NBUF pinned blocks leave no buffer for any other block.
  lemma NoneLeft(s: State, v: View, x: int)
    requires Kept(s) && Held(v) && v.bufs == s.bufs && v.pins == s.pins && |v.rest| == NBUF && x !in v.rest
    ensures NoBuffer(s.bufs, Key(v.dev, x))
  {
    assert ViewOk(v);
    PinnedSize(s, v);
    AllOf(PinnedBufs(s.bufs, v.dev, v.rest), NBUF);
    forall b | 0 <= b < NBUF ensures s.bufs[b].key != Key(v.dev, x) && s.bufs[b].refcnt > 0 {
      assert b in PinnedBufs(s.bufs, v.dev, v.rest);
      RefIs(s, b);
    }
  }

  // Without users, bread of a block that is not logged finds no buffer if and only if NBUF blocks
  // are pinned.
  lemma NoBufferIff(s: State, v: View, x: int)
    requires Kept(s) && Used(s.users) == {} && Held(v) && v.bufs == s.bufs && v.pins == s.pins
    ensures |v.rest| <= NBUF && (|v.rest| < NBUF ==> !NoBuffer(s.bufs, Key(v.dev, x)))
    ensures x !in v.rest ==> (NoBuffer(s.bufs, Key(v.dev, x)) <==> |v.rest| == NBUF)
  {
    PinnedSize(s, v);
    if NoBuffer(s.bufs, Key(v.dev, x)) { FullCount(s, v); }
    if |v.rest| == NBUF && x !in v.rest { NoneLeft(s, v, x); }
  }

  // p alone and with empty hands: no buffer is in use.
  lemma AloneUnused(p: int, s: State, v: View, a: Snap)
    requires Kept(s) && Held(v) && v.bufs == s.bufs && Alone(p, a) && a.users == s.users
    requires AllHands(p, s.bufs, s.users, v.open) == Empty()
    ensures Used(s.users) == {}
  {
    forall b | 0 <= b < NBUF ensures s.users[b] == multiset{} {
      HandIs(p, s.bufs, s.users, v.open, b);
      assert Empty()[b] == NOTHING;
      forall q ensures q !in s.users[b] {}
    }
  }

  lemma {:induction false} RestSize(block: seq<int>, rest: set<int>)
    requires forall i, j :: 0 <= i < j < |block| ==> block[i] != block[j]
    requires forall x :: x in rest <==> x in block
    ensures |rest| == |block|
    decreases |block|
  {
    if block == [] {
      assert rest == {} by { assert forall x :: x !in rest; }
    } else {
      var n := |block| - 1;
      assert block == block[..n] + [block[n]];
      RestSize(block[..n], rest - {block[n]});
    }
  }

  // ---------------------------------------------------------------------
  // What the log blocks and the other blocks hold.

  ghost predicate EntryCopied(latest: map<Key, seq<int>>, dev: int, start: int, block: seq<int>, i: int) {
    && 0 <= i < |block| && Key(dev, start + 1 + i) in latest && Key(dev, block[i]) in latest
    && latest[Key(dev, start + 1 + i)] == latest[Key(dev, block[i])]
  }

  ghost predicate Copied(latest: map<Key, seq<int>>, dev: int, start: int, block: seq<int>, t: int) {
    0 <= t <= |block| && forall i :: 0 <= i < t ==> EntryCopied(latest, dev, start, block, i)
  }

  ghost predicate Outside(k: Key, dev: int, start: int) { k.dev != dev || Home(start, k.blockno) }

  // Only the log area may differ.
  ghost predicate SameHomes(latest: map<Key, seq<int>>, latest': map<Key, seq<int>>, dev: int, start: int) {
    latest'.Keys == latest.Keys && forall k :: k in latest && Outside(k, dev, start) ==> latest'[k] == latest[k]
  }

  // One more block is in the log.
  lemma CopyNext(v: View, latest: map<Key, seq<int>>, latest': map<Key, seq<int>>, latest0: map<Key, seq<int>>, t: int)
    requires Held(v) && 0 <= t < |v.block| && Copied(latest, v.dev, v.start, v.block, t)
      && SameHomes(latest0, latest, v.dev, v.start)
    requires Key(v.dev, v.start + 1 + t) in latest && Key(v.dev, v.block[t]) in latest
    requires latest' == latest[Key(v.dev, v.start + 1 + t) := latest[Key(v.dev, v.block[t])]]
    ensures Copied(latest', v.dev, v.start, v.block, t + 1) && SameHomes(latest0, latest', v.dev, v.start)
  {
    assert ViewOk(v);
    forall i | 0 <= i <= t ensures EntryCopied(latest', v.dev, v.start, v.block, i) {
      assert v.block[i] in v.block && v.block[t] in v.block;
      assert i < t ==> EntryCopied(latest, v.dev, v.start, v.block, i);
    }
  }

  lemma HeadKept(v: View, latest: map<Key, seq<int>>, latest': map<Key, seq<int>>, latest0: map<Key, seq<int>>,
      d: seq<int>)
    requires Held(v) && Copied(latest, v.dev, v.start, v.block, |v.block|) && SameHomes(latest0, latest, v.dev, v.start)
    requires Key(v.dev, v.start) in latest && latest' == latest[Key(v.dev, v.start) := d]
    ensures Copied(latest', v.dev, v.start, v.block, |v.block|) && SameHomes(latest0, latest', v.dev, v.start)
  {
    assert ViewOk(v);
    forall i | 0 <= i < |v.block| ensures EntryCopied(latest', v.dev, v.start, v.block, i) {
      assert v.block[i] in v.block && EntryCopied(latest, v.dev, v.start, v.block, i);
    }
  }
}
