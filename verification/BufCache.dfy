/**
 The buffer cache of bio.c. Every method is one section under bcache.lock, one
 step of the holder of a buffer's sleep lock, or one disk transfer, so that
 "every method keeps Valid()" speaks of every interleaving of processes.
 */
module BufCache {
  import opened Params
  import opened BufRing

  const NONE: int := -1

  datatype Key = Key(dev: int, blockno: int)

  // holder is the process that has the sleep lock
  datatype Buf = Buf(valid: bool, key: Key, refcnt: int, data: seq<int>, holder: int)

  const UNUSED: Buf := Buf(false, Key(0, 0), 0, [], NONE)

  // ---------------------------------------------------------------------
  // Invariants.

  // The list is ordered by the time of the last brelse that brought the count to 0.
  ghost predicate Aged(place: seq<int>, stamp: seq<int>, clock: int) {
    && |place| == NBUF + 1 && |stamp| == NBUF
    && (forall x :: 0 <= x < NBUF ==> stamp[x] < clock)
    && (forall x, y :: 0 <= x < NBUF && 0 <= y < NBUF && place[x] < place[y] ==> stamp[x] > stamp[y])
  }

  // A reference count is the number of users and pins; a lock is held by a user.
  ghost predicate Counted(bufs: seq<Buf>, users: seq<multiset<int>>, pins: seq<int>) {
    && |bufs| == NBUF && |users| == NBUF && |pins| == NBUF
    && (forall b :: 0 <= b < NBUF ==> pins[b] >= 0 && bufs[b].refcnt == |users[b]| + pins[b])
    && (forall b :: 0 <= b < NBUF && bufs[b].holder != NONE ==> bufs[b].holder in users[b])
  }

  // One buffer per block; device 0 stands for a buffer that was never used.
  ghost predicate Unique(bufs: seq<Buf>) {
    && |bufs| == NBUF
    && (forall b, c :: 0 <= b < NBUF && 0 <= c < NBUF && bufs[b].key == bufs[c].key && bufs[b].key.dev != 0 ==> b == c)
    && (forall b :: 0 <= b < NBUF && bufs[b].key.dev == 0 ==> !bufs[b].valid && bufs[b].refcnt == 0)
  }

  ghost predicate Cached(bufs: seq<Buf>, b: int, k: Key) {
    0 <= b < |bufs| && bufs[b].valid && bufs[b].key == k
  }

  // A valid buffer has the latest content of its block; what is not on the disk yet is in a buffer.
  ghost predicate Agrees(bufs: seq<Buf>, disk: map<Key, seq<int>>, latest: map<Key, seq<int>>) {
    && |bufs| == NBUF && disk.Keys == latest.Keys
    && (forall b :: 0 <= b < NBUF && bufs[b].key.dev != 0 ==> bufs[b].key in disk)
    && (forall b :: 0 <= b < NBUF && bufs[b].valid ==> bufs[b].key in latest && bufs[b].data == latest[bufs[b].key])
    && (forall k :: k in disk && disk[k] != latest[k] ==> exists b :: Cached(bufs, b, k))
  }

  // What recycling buffer b makes of the contents: its block is again what the disk has.
  ghost function Reverted(b: Buf, disk: map<Key, seq<int>>, latest: map<Key, seq<int>>): (latest': map<Key, seq<int>>) {
    if b.valid && b.key in disk then latest[b.key := disk[b.key]] else latest
  }

  // the panic "no buffers": k is not cached and every buffer is referenced
  ghost predicate NoBuffer(bufs: seq<Buf>, k: Key) {
    forall b :: 0 <= b < |bufs| ==> bufs[b].key != k && bufs[b].refcnt > 0
  }

  // b is unused, and no unused buffer was released before it
  ghost predicate Oldest(bufs: seq<Buf>, stamp: seq<int>, b: int) {
    && |bufs| == |stamp| == NBUF && 0 <= b < NBUF && bufs[b].refcnt == 0
    && forall c :: 0 <= c < NBUF && bufs[c].refcnt == 0 ==> stamp[b] <= stamp[c]
  }

  // ---------------------------------------------------------------------
  // The steps keep them.

  // Only counts and locks change.
  lemma SameAgrees(bufs: seq<Buf>, bufs': seq<Buf>, disk: map<Key, seq<int>>, latest: map<Key, seq<int>>)
    requires Agrees(bufs, disk, latest) && |bufs'| == NBUF
    requires forall b :: 0 <= b < NBUF ==>
      bufs'[b].valid == bufs[b].valid && bufs'[b].key == bufs[b].key && bufs'[b].data == bufs[b].data
    ensures Agrees(bufs', disk, latest)
  {
    forall k | k in disk && disk[k] != latest[k] ensures exists c :: Cached(bufs', c, k) {
      var c :| Cached(bufs, c, k);
      assert Cached(bufs', c, k);
    }
  }

  lemma RefAgrees(bufs: seq<Buf>, disk: map<Key, seq<int>>, latest: map<Key, seq<int>>, b: int, n: int)
    requires Agrees(bufs, disk, latest) && Unique(bufs) && 0 <= b < NBUF && n >= 0 && (bufs[b].key.dev == 0 ==> n == 0)
    ensures Agrees(bufs[b := bufs[b].(refcnt := n)], disk, latest) && Unique(bufs[b := bufs[b].(refcnt := n)])
  {
    SameAgrees(bufs, bufs[b := bufs[b].(refcnt := n)], disk, latest);
  }

  // Recycling takes nothing from any other block, and nothing at all if the disk has the content.
  lemma RecycleAgrees(bufs: seq<Buf>, disk: map<Key, seq<int>>, latest: map<Key, seq<int>>, b: int, k0: Key)
    requires Agrees(bufs, disk, latest) && Unique(bufs) && 0 <= b < NBUF && bufs[b].refcnt == 0
    requires k0.dev != 0 && k0 in disk && forall c :: 0 <= c < NBUF ==> bufs[c].key != k0
    ensures var bufs' := bufs[b := bufs[b].(valid := false, key := k0, refcnt := 1)];
      Agrees(bufs', disk, Reverted(bufs[b], disk, latest)) && Unique(bufs')
    ensures forall c :: 0 <= c < NBUF && bufs[c].refcnt > 0 && bufs[c].key in latest ==>
      Reverted(bufs[b], disk, latest)[bufs[c].key] == latest[bufs[c].key]
  {
    var bufs' := bufs[b := bufs[b].(valid := false, key := k0, refcnt := 1)];
    var latest' := Reverted(bufs[b], disk, latest);
    forall k | k in disk && disk[k] != latest'[k] ensures exists c :: Cached(bufs', c, k) {
      var c :| Cached(bufs, c, k);
      assert Cached(bufs', c, k);
    }
  }

  // A buffer that is not valid holds a block whose latest content is on the disk.
  lemma OnDisk(bufs: seq<Buf>, disk: map<Key, seq<int>>, latest: map<Key, seq<int>>, b: int)
    requires Agrees(bufs, disk, latest) && Unique(bufs) && 0 <= b < NBUF && bufs[b].key.dev != 0 && !bufs[b].valid
    ensures bufs[b].key in disk && disk[bufs[b].key] == latest[bufs[b].key]
  {
  }

  lemma FillAgrees(bufs: seq<Buf>, disk: map<Key, seq<int>>, latest: map<Key, seq<int>>, b: int)
    requires Agrees(bufs, disk, latest) && Unique(bufs) && 0 <= b < NBUF && bufs[b].key.dev != 0 && !bufs[b].valid
    requires bufs[b].key in disk
    ensures var bufs' := bufs[b := bufs[b].(valid := true, data := disk[bufs[b].key])];
      Agrees(bufs', disk, latest) && Unique(bufs')
  {
    var bufs' := bufs[b := bufs[b].(valid := true, data := disk[bufs[b].key])];
    OnDisk(bufs, disk, latest, b);
    forall k | k in disk && disk[k] != latest[k] ensures exists c :: Cached(bufs', c, k) {
      var c :| Cached(bufs, c, k);
      assert Cached(bufs', c, k);
    }
  }

  lemma StoreAgrees(bufs: seq<Buf>, disk: map<Key, seq<int>>, latest: map<Key, seq<int>>, b: int, d: seq<int>)
    requires Agrees(bufs, disk, latest) && Unique(bufs) && 0 <= b < NBUF && bufs[b].valid && bufs[b].refcnt > 0
    ensures var bufs' := bufs[b := bufs[b].(data := d)]; Agrees(bufs', disk, latest[bufs[b].key := d]) && Unique(bufs')
  {
    var bufs', latest' := bufs[b := bufs[b].(data := d)], latest[bufs[b].key := d];
    forall k | k in disk && disk[k] != latest'[k] ensures exists c :: Cached(bufs', c, k) {
      if k == bufs[b].key {
        assert Cached(bufs', b, k);
      } else {
        var c :| Cached(bufs, c, k);
        assert Cached(bufs', c, k);
      }
    }
  }

  lemma WriteAgrees(bufs: seq<Buf>, disk: map<Key, seq<int>>, latest: map<Key, seq<int>>, b: int)
    requires Agrees(bufs, disk, latest) && 0 <= b < NBUF && bufs[b].valid
    ensures Agrees(bufs, disk[bufs[b].key := bufs[b].data], latest)
  {
  }

  // One reference more or less, with the user or pin it belongs to.
  lemma RefCounted(bufs: seq<Buf>, users: seq<multiset<int>>, pins: seq<int>, b: int, us: multiset<int>, n: int)
    requires Counted(bufs, users, pins) && 0 <= b < NBUF && n >= 0 && (bufs[b].holder != NONE ==> bufs[b].holder in us)
    ensures Counted(bufs[b := bufs[b].(refcnt := |us| + n)], users[b := us], pins[b := n])
  {
  }

  // Moving b to the front makes it the youngest.
  lemma MoveFrontAged(place: seq<int>, stamp: seq<int>, clock: int, b: int)
    requires Permutation(place) && Aged(place, stamp, clock) && 0 <= b < NBUF
    ensures Aged(MoveFront(place, b), stamp[b := clock], clock + 1)
  {
    assert forall x :: 0 <= x < NBUF ==> place[x] != place[HEAD];
  }

  datatype State = State(
    bufs: seq<Buf>, prev: seq<int>, next: seq<int>, disk: map<Key, seq<int>>, place: seq<int>, stamp: seq<int>,
    clock: int, users: seq<multiset<int>>, pins: seq<int>, latest: map<Key, seq<int>>)

  ghost predicate StateOk(s: State) {
    && RingOk(s.place, s.prev, s.next) && Aged(s.place, s.stamp, s.clock)
    && Counted(s.bufs, s.users, s.pins) && Unique(s.bufs) && Agrees(s.bufs, s.disk, s.latest)
  }

  // StateOk, kept folded
  ghost predicate Kept(s: State) {
    |s.bufs| == |s.users| == |s.pins| == NBUF && forall x :: x == s ==> StateOk(x)
  }

  lemma RefIs(s: State, b: int)
    requires Kept(s) && 0 <= b < NBUF
    ensures s.bufs[b].refcnt == |s.users[b]| + s.pins[b] && s.pins[b] >= 0
    ensures s.bufs[b].key.dev == 0 ==> s.bufs[b].refcnt == 0
    ensures s.bufs[b].holder != NONE ==> s.bufs[b].holder in s.users[b]
  {
    assert StateOk(s);
  }

  lemma RefStep(s: State, b: int, us: multiset<int>, n: int)
    requires StateOk(s) && 0 <= b < NBUF && n >= 0 && (s.bufs[b].holder != NONE ==> s.bufs[b].holder in us)
    requires s.bufs[b].key.dev == 0 ==> |us| + n == 0
    ensures StateOk(s.(bufs := s.bufs[b := s.bufs[b].(refcnt := |us| + n)], users := s.users[b := us],
      pins := s.pins[b := n]))
  {
    RefAgrees(s.bufs, s.disk, s.latest, b, |us| + n);
    RefCounted(s.bufs, s.users, s.pins, b, us, n);
  }

  // One user more or less.
  lemma UserStep(s: State, b: int, us: multiset<int>, n: int)
    requires Kept(s) && 0 <= b < NBUF && n == |us| + s.pins[b]
    requires s.bufs[b].key.dev != 0 && (s.bufs[b].holder != NONE ==> s.bufs[b].holder in us)
    ensures Kept(s.(bufs := s.bufs[b := s.bufs[b].(refcnt := n)], users := s.users[b := us]))
  {
    assert s.pins[b := s.pins[b]] == s.pins;
    assert s.pins[b] >= 0 by { RefIs(s, b); }
    assert StateOk(s.(bufs := s.bufs[b := s.bufs[b].(refcnt := n)], users := s.users[b := us])) by {
      assert StateOk(s);
      RefStep(s, b, us, s.pins[b]);
    }
  }

  // One pin more or less.
  lemma PinStep(s: State, b: int, k: int, n: int)
    requires Kept(s) && 0 <= b < NBUF && k >= 0 && n == |s.users[b]| + k && s.bufs[b].key.dev != 0
    ensures Kept(s.(bufs := s.bufs[b := s.bufs[b].(refcnt := n)], pins := s.pins[b := k]))
  {
    assert s.users[b := s.users[b]] == s.users;
    RefIs(s, b);
    assert StateOk(s.(bufs := s.bufs[b := s.bufs[b].(refcnt := n)], pins := s.pins[b := k])) by {
      assert StateOk(s);
      RefStep(s, b, s.users[b], k);
    }
  }

  class Bcache {
    var bufs: seq<Buf>
    var prev: seq<int>
    var next: seq<int>
    var disk: map<Key, seq<int>>

    ghost var place: seq<int>              // of each node in the list
    ghost var stamp: seq<int>              // when each buffer was last moved to the front
    ghost var clock: int
    var users: seq<multiset<int>>          // processes that have each buffer from bget, in variables of their own
    ghost var pins: seq<int>
    ghost var latest: map<Key, seq<int>>   // content of each block as its users see it

    ghost function Now(): (s: State)
      reads this
    {
      State(bufs, prev, next, disk, place, stamp, clock, users, pins, latest)
    }

    ghost predicate Valid()
      reads this
    {
      |stamp| == NBUF && |place| == NBUF + 1 && Kept(Now())
    }

    // binit
    constructor (disk: map<Key, seq<int>>)
      requires forall k :: k in disk ==> k.dev != 0
      ensures Valid() && this.disk == disk && latest == disk
      ensures bufs == seq(NBUF, _ => UNUSED) && users == seq(NBUF, _ => multiset{}) && pins == seq(NBUF, _ => 0)
    {
      this.disk, latest := disk, disk;
      bufs := seq(NBUF, _ => UNUSED);
      users := seq(NBUF, _ => multiset{});
      pins := seq(NBUF, _ => 0);
      clock := 0;
      place := seq(NBUF + 1, x => NBUF - x);
      stamp := seq(NBUF, x => x - NBUF);
      var ps, ns := Linked();
      prev, next := ps, ns;
      new;
      assert StateOk(Now());
    }

    // binit's loop: every buffer is put in front of those before it.
    static method Linked() returns (prev: seq<int>, next: seq<int>)
      ensures RingOk(seq(NBUF + 1, x => NBUF - x), prev, next)
    {
      prev := seq(NBUF + 1, _ => HEAD);
      next := seq(NBUF + 1, _ => HEAD);
      var b := 0;
      while b < NBUF
        invariant 0 <= b <= NBUF && |prev| == |next| == NBUF + 1
        invariant next[HEAD] == (if b == 0 then HEAD else b - 1) && prev[HEAD] == (if b == 0 then HEAD else 0)
        invariant forall x :: 0 <= x < b ==>
          next[x] == (if x == 0 then HEAD else x - 1) && prev[x] == (if x == b - 1 then HEAD else x + 1)
      {
        next := next[b := next[HEAD]];
        prev := prev[b := HEAD];
        prev := prev[next[HEAD] := b];
        next := next[HEAD := b];
        b := b + 1;
      }
    }

    // bget's first loop: the buffer that has block k, if any.
    method Find(k: Key) returns (b: int)
      requires Valid()
      ensures b == HEAD ==> forall c :: 0 <= c < NBUF ==> bufs[c].key != k
      ensures b != HEAD ==> 0 <= b < NBUF && bufs[b].key == k
    {
      assert StateOk(Now());
      b := next[HEAD];
      while b != HEAD
        invariant 0 <= b <= NBUF
        invariant forall c :: 0 <= c < NBUF && (b == HEAD || place[c] < place[b]) ==> bufs[c].key != k
        decreases if b == HEAD then 0 else NBUF + 1 - place[b]
      {
        if bufs[b].key == k {
          return;
        }
        b := next[b];
      }
    }

    // bget's second loop: the unused buffer that was released longest ago, if any.
    method Victim() returns (b: int)
      requires Valid()
      ensures b == HEAD ==> forall c :: 0 <= c < NBUF ==> bufs[c].refcnt > 0
      ensures b != HEAD ==> 0 <= b < NBUF && Oldest(bufs, stamp, b)
    {
      assert StateOk(Now());
      b := prev[HEAD];
      while b != HEAD
        invariant 0 <= b <= NBUF
        invariant forall c :: 0 <= c < NBUF && place[c] > place[b] ==> bufs[c].refcnt > 0
        decreases place[b]
      {
        if bufs[b].refcnt == 0 {
          forall c | 0 <= c < NBUF && bufs[c].refcnt == 0 ensures stamp[b] <= stamp[c] {
            assert place[c] == place[b] ==> c == b;
          }
          return;
        }
        b := prev[b];
      }
    }

    // bget has found the block in b
    method Hit(p: int, b: int)
      requires Valid() && 0 <= b < NBUF && bufs[b].key.dev != 0
      modifies this`bufs, this`users
      ensures Valid() && users == old(users)[b := old(users)[b] + multiset{p}]
      ensures bufs == old(bufs)[b := old(bufs)[b].(refcnt := old(bufs)[b].refcnt + 1)]
    {
      RefIs(Now(), b);
      UserStep(Now(), b, users[b] + multiset{p}, bufs[b].refcnt + 1);
      bufs := bufs[b := bufs[b].(refcnt := bufs[b].refcnt + 1)];
      users := users[b := users[b] + multiset{p}];
    }

    // bget takes the unused buffer b for block k
    method Recycle(p: int, b: int, k: Key)
      requires Valid() && 0 <= b < NBUF && bufs[b].refcnt == 0
      requires k.dev != 0 && k in disk && forall c :: 0 <= c < NBUF ==> bufs[c].key != k
      modifies this`bufs, this`users, this`latest
      ensures Valid() && users == old(users)[b := old(users)[b] + multiset{p}]
      ensures bufs == old(bufs)[b := old(bufs)[b].(valid := false, key := k, refcnt := 1)]
      ensures latest == Reverted(old(bufs)[b], disk, old(latest))
    {
      assert StateOk(Now());
      RecycleAgrees(bufs, disk, latest, b, k);
      latest := Reverted(bufs[b], disk, latest);
      bufs := bufs[b := bufs[b].(valid := false, key := k, refcnt := 1)];
      users := users[b := users[b] + multiset{p}];
      assert StateOk(Now());
    }

    // bget, for process p; NONE stands for the panic "no buffers". The caller still has to
    // acquire the buffer's sleep lock.
    method Bget(p: int, k: Key) returns (b: int)
      requires Valid() && k.dev != 0 && k in disk
      modifies this`bufs, this`users, this`latest
      ensures Valid()
      ensures b == NONE ==> latest == old(latest)
      ensures b == NONE <==> NoBuffer(old(bufs), k)
      ensures b == NONE ==> bufs == old(bufs) && users == old(users)
      ensures b != NONE ==> 0 <= b < NBUF && users == old(users)[b := old(users)[b] + multiset{p}]
      ensures b != NONE && old(bufs)[b].key == k ==>
        latest == old(latest) && bufs == old(bufs)[b := old(bufs)[b].(refcnt := old(bufs)[b].refcnt + 1)]
      ensures b != NONE && old(bufs)[b].key != k ==>
        Oldest(old(bufs), stamp, b) && forall c :: 0 <= c < NBUF ==> old(bufs)[c].key != k
      ensures b != NONE && old(bufs)[b].key != k ==>
        bufs == old(bufs)[b := old(bufs)[b].(valid := false, key := k, refcnt := 1)]
      ensures b != NONE && old(bufs)[b].key != k ==> latest == Reverted(old(bufs)[b], disk, old(latest))
    {
      b := Find(k);
      if b != HEAD {
        Hit(p, b);
        return;
      }
      b := Victim();
      if b == HEAD {
        return NONE;
      }
      Recycle(p, b, k);
    }

    // acquiresleep(&b->lock), when the lock is free
    method Lock(p: int, b: int)
      requires Valid() && 0 <= b < NBUF && p in users[b] && p != NONE && bufs[b].holder == NONE
      modifies this`bufs
      ensures Valid() && bufs == old(bufs)[b := old(bufs)[b].(holder := p)]
    {
      assert StateOk(Now());
      SetHolder(b, p);
      bufs := bufs[b := bufs[b].(holder := p)];
      assert StateOk(Now());
    }

    // bread, after bget has returned b: the reader sees the latest content.
    method Fill(p: int, b: int)
      requires Valid() && 0 <= b < NBUF && p != NONE && bufs[b].holder == p
      modifies this`bufs
      ensures Valid() && bufs[b].valid && bufs[b].key in latest && bufs[b].data == latest[bufs[b].key]
      ensures bufs == old(bufs)[b := old(bufs)[b].(valid := true, data := bufs[b].data)]
    {
      assert StateOk(Now());
      InUse(b);
      if !bufs[b].valid {
        FillAgrees(bufs, disk, latest, b);
        bufs := bufs[b := bufs[b].(valid := true, data := disk[bufs[b].key])];
      }
      assert StateOk(Now());
    }

    // the holder changes the data
    method Store(p: int, b: int, d: seq<int>)
      requires Valid() && 0 <= b < NBUF && p != NONE && bufs[b].holder == p && bufs[b].valid
      modifies this`bufs, this`latest
      ensures Valid() && bufs == old(bufs)[b := old(bufs)[b].(data := d)] && latest == old(latest)[bufs[b].key := d]
    {
      assert StateOk(Now());
      InUse(b);
      StoreAgrees(bufs, disk, latest, b, d);
      latest := latest[bufs[b].key := d];
      bufs := bufs[b := bufs[b].(data := d)];
      assert StateOk(Now());
    }

    // bwrite
    method Bwrite(p: int, b: int)
      requires Valid() && 0 <= b < NBUF && p != NONE && bufs[b].holder == p && bufs[b].valid
      modifies this`disk
      ensures Valid() && disk == old(disk)[bufs[b].key := bufs[b].data] && bufs[b].key in latest
        && disk[bufs[b].key] == latest[bufs[b].key]
    {
      assert StateOk(Now());
      WriteAgrees(bufs, disk, latest, b);
      disk := disk[bufs[b].key := bufs[b].data];
      assert StateOk(Now());
    }

    // brelse's releasesleep(&b->lock)
    method Unlock(p: int, b: int)
      requires Valid() && 0 <= b < NBUF && p != NONE && bufs[b].holder == p
      modifies this`bufs
      ensures Valid() && bufs == old(bufs)[b := old(bufs)[b].(holder := NONE)]
    {
      assert StateOk(Now());
      SetHolder(b, NONE);
      bufs := bufs[b := bufs[b].(holder := NONE)];
      assert StateOk(Now());
    }

    // brelse moves b to the front of the list
    method ToFront(b: int)
      requires RingOk(place, prev, next) && Aged(place, stamp, clock) && 0 <= b < NBUF
      modifies this`prev, this`next, this`place, this`stamp, this`clock
      ensures RingOk(place, prev, next) && Aged(place, stamp, clock)
      ensures place == MoveFront(old(place), b) && stamp == old(stamp)[b := old(clock)]
    {
      LinkBounds(place, prev, next, b);
      MoveFrontPermutation(place, b);
      MoveFrontNext(place, prev, next, b);
      MoveFrontPrev(place, prev, next, b);
      MoveFrontAged(place, stamp, clock, b);
      prev := prev[next[b] := prev[b]];
      next := next[prev[b] := next[b]];
      next := next[b := next[HEAD]];
      prev := prev[b := HEAD];
      prev := prev[next[HEAD] := b];
      next := next[HEAD := b];
      place, stamp, clock := MoveFront(place, b), stamp[b := clock], clock + 1;
    }

    // brelse drops p's reference
    method DropRef(p: int, b: int)
      requires Valid() && 0 <= b < NBUF && p in users[b] && bufs[b].holder != p
      modifies this`bufs, this`users
      ensures Valid() && users == old(users)[b := old(users)[b] - multiset{p}]
      ensures bufs == old(bufs)[b := old(bufs)[b].(refcnt := old(bufs)[b].refcnt - 1)]
    {
      RefIs(Now(), b);
      UserStep(Now(), b, users[b] - multiset{p}, bufs[b].refcnt - 1);
      bufs := bufs[b := bufs[b].(refcnt := bufs[b].refcnt - 1)];
      users := users[b := users[b] - multiset{p}];
    }

    // brelse's section under bcache.lock
    method Brelse(p: int, b: int)
      requires Valid() && 0 <= b < NBUF && p in users[b] && bufs[b].holder != p
      modifies this`bufs, this`users, this`prev, this`next, this`place, this`stamp, this`clock
      ensures Valid() && users == old(users)[b := old(users)[b] - multiset{p}]
      ensures bufs == old(bufs)[b := old(bufs)[b].(refcnt := old(bufs)[b].refcnt - 1)]
      ensures place == if bufs[b].refcnt == 0 then MoveFront(old(place), b) else old(place)
      ensures stamp == if bufs[b].refcnt == 0 then old(stamp)[b := old(clock)] else old(stamp)
    {
      DropRef(p, b);
      if bufs[b].refcnt == 0 {
        assert StateOk(Now());
        ToFront(b);
        assert StateOk(Now());
      }
    }

    method Bpin(b: int)
      requires Valid() && 0 <= b < NBUF && bufs[b].refcnt > 0
      modifies this`bufs, this`pins
      ensures Valid() && pins == old(pins)[b := old(pins)[b] + 1]
      ensures bufs == old(bufs)[b := old(bufs)[b].(refcnt := old(bufs)[b].refcnt + 1)]
    {
      RefIs(Now(), b);
      PinStep(Now(), b, pins[b] + 1, bufs[b].refcnt + 1);
      bufs := bufs[b := bufs[b].(refcnt := bufs[b].refcnt + 1)];
      pins := pins[b := pins[b] + 1];
    }

    method Bunpin(b: int)
      requires Valid() && 0 <= b < NBUF && pins[b] > 0
      modifies this`bufs, this`pins
      ensures Valid() && pins == old(pins)[b := old(pins)[b] - 1]
      ensures bufs == old(bufs)[b := old(bufs)[b].(refcnt := old(bufs)[b].refcnt - 1)]
    {
      RefIs(Now(), b);
      PinStep(Now(), b, pins[b] - 1, bufs[b].refcnt - 1);
      bufs := bufs[b := bufs[b].(refcnt := bufs[b].refcnt - 1)];
      pins := pins[b := pins[b] - 1];
    }

    lemma SetHolder(b: int, h: int)
      requires Valid() && 0 <= b < NBUF && (h != NONE ==> h in users[b])
      ensures var bufs' := bufs[b := bufs[b].(holder := h)];
        Counted(bufs', users, pins) && Unique(bufs') && Agrees(bufs', disk, latest)
    {
      assert StateOk(Now());
      SameAgrees(bufs, bufs[b := bufs[b].(holder := h)], disk, latest);
    }

    lemma InUse(b: int)
      requires Valid() && 0 <= b < NBUF && bufs[b].holder != NONE
      ensures bufs[b].refcnt > 0 && bufs[b].key.dev != 0 && bufs[b].key in disk
    {
      assert StateOk(Now());
      assert |users[b]| > 0;
    }
  }
}
