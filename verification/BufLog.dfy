/**
 The redo log over the buffer cache: how log.c uses the buffers of bio.c while other processes
 use them too. A block that an operation has changed stays pinned until it is installed, so that
 no change is lost when buffers are recycled, and a commit needs a buffer beside the pinned ones.

 The methods of the class are single steps of any process, and the sequences of one process with
 steps of the others between them. What the others do is given by the field others: any script
 of steps, of which those that are possible when their turn comes are made.
 */
module BufLog {
  import opened Params
  import opened BufCache
  import opened BufView
  import opened BufCrash

  // bread's result: a locked buffer, the panic of bget, or still asleep on the buffer's lock when
  // the others have stopped.
  datatype Got = Has(b: int) | NoBuffers | Asleep(b: int)

  // TooBig is log_write's panic.
  datatype Outcome = Done | Panic | Sleeps | TooBig

  // p takes one reference of buffer b
  ghost function Lent(users: seq<multiset<int>>, b: int, p: int): (us: seq<multiset<int>>)
    requires 0 <= b < |users|
  {
    users[b := users[b] + multiset{p}]
  }

  class BufLog {
    const bc: Bcache
    const dev: int
    const start: int          // the header; the log blocks follow it
    var block: seq<int>       // lh.block[0 .. lh.n]
    var outstanding: int
    var open: set<Key>        // blocks changed under their lock and not yet logged or written
    var others: seq<Step>     // what the other processes are going to do
    ghost var rest: set<int>
    ghost const first: map<Key, seq<int>>   // the disk in the beginning
    ghost var writes: seq<Wrote>            // the disk writes since then

    ghost function Sight(): (v: View)
      reads this, bc
    {
      View(dev, start, block, rest, open, bc.bufs, bc.pins, bc.disk.Keys)
    }

    ghost function Now(): (a: Snap)
      reads this, bc
    {
      Snap(bc.disk, bc.latest, block, rest, open, outstanding, others, bc.users)
    }

    ghost predicate Valid()
      reads this, bc
    {
      && bc.Valid() && Held(Sight()) && 0 <= outstanding && bc.disk == After(first, writes)
      && Settled(bc.disk, bc.latest, dev, rest, open) && (outstanding > 0 ==> Logging())
    }

    // every logged block is still to be installed
    ghost predicate Logging()
      reads this
    {
      AllLogged(block, rest)
    }

    function LogKey(t: int): (k: Key) { Key(dev, start + 1 + t) }

    // what p has
    ghost function Hands(p: int): (hs: seq<Hand>)
      requires |bc.bufs| == |bc.users| == NBUF
      reads this, bc
    {
      AllHands(p, bc.bufs, bc.users, open)
    }

    ghost function HandNow(p: int, b: int): (h: Hand)
      requires |bc.bufs| == |bc.users| == NBUF && 0 <= b < NBUF
      reads this, bc
    {
      HandAt(p, bc.bufs, bc.users, open, b)
    }

    // p has buffer b of block x, locked
    ghost predicate Mine(p: int, b: int, x: int)
      requires |bc.bufs| == |bc.users| == NBUF
      reads this, bc
    {
      p != NONE && 0 <= b < NBUF && Hands(p)[b].lock && Hands(p)[b].valid && Hands(p)[b].key == Key(dev, x)
    }

    constructor (bc: Bcache, dev: int, start: int, others: seq<Step>)
      requires bc.Valid() && dev != 0 && (forall b :: 0 <= b < NBUF ==> bc.pins[b] == 0) && bc.disk == bc.latest
      requires forall x :: start <= x <= start + LOGSIZE ==> Key(dev, x) in bc.disk
      ensures Valid() && this.bc == bc && this.dev == dev && this.start == start && this.others == others
      ensures block == [] && outstanding == 0 && rest == {} && open == {} && writes == [] && first == bc.disk
    {
      this.bc, this.dev, this.start, this.others := bc, dev, start, others;
      block, outstanding, rest, open := [], 0, {}, {};
      first, writes := bc.disk, [];
      new;
      assert ViewOk(Sight()) && SettledAll(this.bc.disk, this.bc.latest, dev, rest, open);
    }

    // ---------------------------------------------------------------------
    // Single steps, by any process q. Each is a step on one buffer for everybody.

    // bget up to acquiresleep; NONE is its panic.
    method Take(q: int, k: Key) returns (b: int)
      requires Valid() && k.dev != 0 && k in bc.disk
      modifies bc`bufs, bc`users, bc`latest
      ensures Valid() && bc.latest == old(bc.latest)
      ensures b == NONE <==> NoBuffer(old(bc.bufs), k)
      ensures b == NONE ==> bc.bufs == old(bc.bufs) && bc.users == old(bc.users)
      ensures b != NONE ==> 0 <= b < NBUF && bc.users == Lent(old(bc.users), b, q) && bc.bufs[b].key == k
      ensures b != NONE && old(bc.bufs)[b].key == k ==> bc.bufs[b] == old(bc.bufs)[b].(refcnt := bc.bufs[b].refcnt)
      ensures b != NONE && old(bc.bufs)[b].key != k ==> old(bc.users)[b] == multiset{} && bc.bufs[b].holder == NONE
      ensures b != NONE ==> forall p :: p != NONE ==> Hands(p) == old(Hands(p))[b := HandNow(p, b)]
    {
      ghost var s, v := bc.Now(), Sight();
      b := bc.Bget(q, k);
      if b != NONE {
        if s.bufs[b].key != k { NothingLost(s, v, b); }
        StepHeld(v, b, bc.bufs[b]);
        assert bc.bufs == s.bufs[b := bc.bufs[b]];
        forall p | p != NONE ensures Hands(p) == old(Hands(p))[b := HandNow(p, b)] {
          HandsAt(p, s, open, bc.bufs, bc.users, open, b);
        }
      }
    }

    // acquiresleep, when the lock is free
    method Lock(q: int, b: int)
      requires Valid() && 0 <= b < NBUF && q in bc.users[b] && q != NONE && bc.bufs[b].holder == NONE
      modifies bc`bufs
      ensures Valid() && bc.bufs == old(bc.bufs)[b := old(bc.bufs)[b].(holder := q)] && bc.bufs[b].key !in open
      ensures forall p :: p != NONE ==> Hands(p) == old(Hands(p))[b := HandNow(p, b)]
    {
      ghost var s, v := bc.Now(), Sight();
      NotOpen(s, v, b);
      bc.Lock(q, b);
      StepHeld(v, b, bc.bufs[b]);
      forall p | p != NONE ensures Hands(p) == old(Hands(p))[b := HandNow(p, b)] {
        assert bc.users == s.users[b := bc.users[b]];
        HandsAt(p, s, open, bc.bufs, bc.users, open, b);
      }
    }

    // bread's transfer, if the buffer is not valid
    method Read(q: int, b: int)
      requires Valid() && 0 <= b < NBUF && q != NONE && bc.bufs[b].holder == q
      modifies bc`bufs
      ensures Valid() && bc.bufs[b].key in bc.latest
      ensures bc.bufs == old(bc.bufs)[b := old(bc.bufs)[b].(valid := true, data := bc.latest[bc.bufs[b].key])]
      ensures forall p :: p != NONE ==> Hands(p) == old(Hands(p))[b := HandNow(p, b)]
    {
      ghost var s, v := bc.Now(), Sight();
      bc.Fill(q, b);
      StepHeld(v, b, bc.bufs[b]);
      forall p | p != NONE ensures Hands(p) == old(Hands(p))[b := HandNow(p, b)] {
        assert bc.users == s.users[b := bc.users[b]];
        HandsAt(p, s, open, bc.bufs, bc.users, open, b);
      }
    }

    // the holder changes the data
    method Change(q: int, b: int, d: seq<int>)
      requires Valid() && 0 <= b < NBUF && q != NONE && bc.bufs[b].holder == q && bc.bufs[b].valid
      modifies bc`bufs, bc`latest, this`open
      ensures Valid() && bc.bufs == old(bc.bufs)[b := old(bc.bufs)[b].(data := d)]
      ensures bc.latest == old(bc.latest)[bc.bufs[b].key := d] && open == old(open) + {bc.bufs[b].key}
      ensures forall p :: p != NONE ==> Hands(p) == old(Hands(p))[b := HandNow(p, b)]
    {
      ghost var s, v := bc.Now(), Sight();
      assert bc.bufs[b].key in bc.latest by { assert StateOk(s); }
      bc.Store(q, b, d);
      OpenHeld(v, b);
      open := open + {bc.bufs[b].key};
      StepHeld(v.(open := open), b, bc.bufs[b]);
      OpenSettled(s, v, bc.bufs[b].key, d);
      forall p | p != NONE ensures Hands(p) == old(Hands(p))[b := HandNow(p, b)] {
        assert bc.users == s.users[b := bc.users[b]];
        HandsAt(p, s, v.open, bc.bufs, bc.users, open, b);
      }
    }

    // log_write's search
    method Find(x: int) returns (i: int)
      ensures 0 <= i <= |block| && (i < |block| ==> block[i] == x) && (i == |block| ==> x !in block)
    {
      i := 0;
      while i < |block|
        invariant 0 <= i <= |block| && x !in block[..i]
      {
        if block[i] == x { return; }
        i := i + 1;
      }
      assert block[..i] == block;
    }

    // log_write, when it does not panic
    method LogWrite(q: int, b: int)
      requires Valid() && 0 <= b < NBUF && q != NONE && bc.bufs[b].holder == q && bc.bufs[b].valid
      requires bc.bufs[b].key.dev == dev && Home(start, bc.bufs[b].key.blockno) && bc.bufs[b].key in bc.disk
      requires outstanding > 0 && |block| < LOGSIZE
      modifies this`block, this`rest, this`open, bc`bufs, bc`pins
      ensures Valid() && open == old(open) - {bc.bufs[b].key}
      ensures bc.bufs == old(bc.bufs)[b := old(bc.bufs)[b].(refcnt := bc.bufs[b].refcnt)]
      ensures var x := bc.bufs[b].key.blockno;
        rest == old(rest) + {x} && block == if x in old(block) then old(block) else old(block) + [x]
      ensures bc.pins == old(bc.pins)[b := old(bc.pins)[b] + if bc.bufs[b].key.blockno in old(block) then 0 else 1]
      ensures forall p :: p != NONE ==> Hands(p) == old(Hands(p))[b := HandNow(p, b)]
    {
      ghost var s, v := bc.Now(), Sight();
      var x := bc.bufs[b].key.blockno;
      var i := Find(x);
      LoggedSettled(s, v, x);
      if i == |block| {
        RefIs(s, b);
        AddHeld(s, v, b, x);
        bc.Bpin(b);
        block := block + [x];
        StepHeld(v.(pins := bc.pins, block := block, rest := rest + {x}), b, bc.bufs[b]);
      }
      rest := rest + {x};
      assert rest == v.rest + {x} && (x in v.rest ==> rest == v.rest);
      CloseHeld(Sight(), Key(dev, x));
      open := open - {Key(dev, x)};
      forall p | p != NONE ensures Hands(p) == old(Hands(p))[b := HandNow(p, b)] {
        assert bc.users == s.users[b := bc.users[b]] && bc.bufs == s.bufs[b := bc.bufs[b]];
        HandsAt(p, s, v.open, bc.bufs, bc.users, open, b);
      }
    }

    // bwrite
    method Bwrite(q: int, b: int)
      requires Valid() && 0 <= b < NBUF && q != NONE && bc.bufs[b].holder == q && bc.bufs[b].valid
      modifies bc`disk, this`open, this`writes
      ensures Valid() && writes == old(writes) + [Wrote(bc.bufs[b].key, bc.bufs[b].data)] && bc.bufs[b].key in bc.latest
        && bc.disk == old(bc.disk)[bc.bufs[b].key := bc.latest[bc.bufs[b].key]]
      ensures open == old(open) - {bc.bufs[b].key} && bc.bufs[b].data == bc.latest[bc.bufs[b].key]
      ensures forall p :: p != NONE ==> Hands(p) == old(Hands(p))[b := HandNow(p, b)]
    {
      ghost var s, v := bc.Now(), Sight();
      assert bc.bufs[b].key in bc.disk && bc.bufs[b].key in bc.latest
        && bc.bufs[b].data == bc.latest[bc.bufs[b].key] by {
        assert StateOk(s);
      }
      bc.Bwrite(q, b);
      AfterMore(first, writes, Wrote(bc.bufs[b].key, bc.bufs[b].data));
      writes := writes + [Wrote(bc.bufs[b].key, bc.bufs[b].data)];
      assert bc.disk.Keys == s.disk.Keys;
      CloseHeld(v, bc.bufs[b].key);
      open := open - {bc.bufs[b].key};
      SettledStep(s.disk, s.latest, bc.disk, bc.latest, dev, rest, rest, v.open, open, bc.bufs[b].key);
      forall p | p != NONE ensures Hands(p) == old(Hands(p))[b := HandNow(p, b)] {
        assert bc.users == s.users[b := bc.users[b]] && bc.bufs == s.bufs[b := bc.bufs[b]];
        HandsAt(p, s, v.open, bc.bufs, bc.users, open, b);
      }
    }

    // brelse's releasesleep; a changed block has been logged or written.
    method Unlock(q: int, b: int)
      requires Valid() && 0 <= b < NBUF && q != NONE && bc.bufs[b].holder == q && bc.bufs[b].key !in open
      modifies bc`bufs
      ensures Valid() && bc.bufs == old(bc.bufs)[b := old(bc.bufs)[b].(holder := NONE)]
      ensures forall p :: p != NONE ==> Hands(p) == old(Hands(p))[b := HandNow(p, b)]
    {
      ghost var s, v := bc.Now(), Sight();
      bc.Unlock(q, b);
      StepHeld(v, b, bc.bufs[b]);
      forall p | p != NONE ensures Hands(p) == old(Hands(p))[b := HandNow(p, b)] {
        assert bc.users == s.users[b := bc.users[b]];
        HandsAt(p, s, open, bc.bufs, bc.users, open, b);
      }
    }

    // brelse's section under bcache.lock
    method Drop(q: int, b: int)
      requires Valid() && 0 <= b < NBUF && q in bc.users[b] && bc.bufs[b].holder != q
      modifies bc`bufs, bc`users, bc`prev, bc`next, bc`place, bc`stamp, bc`clock
      ensures Valid() && bc.users == old(bc.users)[b := old(bc.users)[b] - multiset{q}]
      ensures bc.bufs == old(bc.bufs)[b := old(bc.bufs)[b].(refcnt := old(bc.bufs)[b].refcnt - 1)]
      ensures forall p :: p != NONE ==> Hands(p) == old(Hands(p))[b := HandNow(p, b)]
    {
      ghost var s, v := bc.Now(), Sight();
      bc.Brelse(q, b);
      StepHeld(v, b, bc.bufs[b]);
      forall p | p != NONE ensures Hands(p) == old(Hands(p))[b := HandNow(p, b)] {
        HandsAt(p, s, open, bc.bufs, bc.users, open, b);
      }
    }

    // bunpin of the block just installed
    method Unpin(q: int, b: int, x: int)
      requires Valid() && Cached(bc.bufs, b, Key(dev, x)) && bc.bufs[b].holder == q && q != NONE && outstanding == 0
      requires x in rest && Key(dev, x) in bc.disk && bc.disk[Key(dev, x)] == bc.latest[Key(dev, x)]
      modifies this`rest, bc`bufs, bc`pins
      ensures Valid() && rest == old(rest) - {x}
        && bc.bufs == old(bc.bufs)[b := old(bc.bufs)[b].(refcnt := bc.bufs[b].refcnt)]
      ensures forall p :: p != NONE ==> Hands(p) == old(Hands(p))
    {
      ghost var s, v := bc.Now(), Sight();
      DropHeld(s, v, b, x);
      SettledStep(s.disk, s.latest, s.disk, s.latest, dev, rest, rest - {x}, open, open, Key(dev, x));
      bc.Bunpin(b);
      rest := rest - {x};
      StepHeld(v.(pins := bc.pins, rest := rest), b, bc.bufs[b]);
      forall p | p != NONE ensures Hands(p) == old(Hands(p)) {
        assert bc.users == s.users[b := bc.users[b]];
        HandsAt(p, s, open, bc.bufs, bc.users, open, b);
        NotMine(p, b, s.bufs, s.users, open);
      }
    }

    // ---------------------------------------------------------------------
    // The other processes.

    // a step on buffer b that p does not notice
    lemma NotMine(p: int, b: int, bufs: seq<Buf>, users: seq<multiset<int>>, open0: set<Key>)
      requires |bc.bufs| == |bc.users| == |bufs| == |users| == NBUF && 0 <= b < NBUF
      requires Hands(p) == AllHands(p, bufs, users, open0)[b := HandNow(p, b)]
        && HandNow(p, b) == HandAt(p, bufs, users, open0, b)
      ensures Hands(p) == AllHands(p, bufs, users, open0)
    {
      HandIs(p, bufs, users, open0, b);
    }

    lemma Holding(p: int, b: int)
      requires |bc.bufs| == |bc.users| == NBUF && 0 <= b < NBUF
      ensures Hands(p)[b] == HandNow(p, b)
    {
      HandIs(p, bc.bufs, bc.users, open, b);
    }

    // bget, acquiresleep and bread's transfer
    method OtherReads(p: int, st: Step)
      requires Valid() && p != NONE && (st.GetBy? || st.LockBy? || st.ReadBy?)
      modifies bc`bufs, bc`users, bc`latest
      ensures Valid() && Hands(p) == old(Hands(p)) && bc.latest == old(bc.latest)
    {
      match st
      case GetBy(q, k) =>
        if q != p && k.dev != 0 && k in bc.disk {
          var b := Take(q, k);
          if b != NONE { NotMine(p, b, old(bc.bufs), old(bc.users), old(open)); }
        }
      case LockBy(q, b) =>
        if q != p && q != NONE && 0 <= b < NBUF && q in bc.users[b] && bc.bufs[b].holder == NONE {
          Lock(q, b);
          NotMine(p, b, old(bc.bufs), old(bc.users), old(open));
        }
      case ReadBy(q, b) =>
        if q != p && q != NONE && 0 <= b < NBUF && bc.bufs[b].holder == q {
          Read(q, b);
          NotMine(p, b, old(bc.bufs), old(bc.users), old(open));
        }
    }

    // brelse's sections
    method OtherUnlocks(p: int, q: int, b: int)
      requires Valid() && p != NONE
      modifies bc`bufs
      ensures Valid() && Hands(p) == old(Hands(p))
    {
      if q != p && q != NONE && 0 <= b < NBUF && bc.bufs[b].holder == q && bc.bufs[b].key !in open {
        Unlock(q, b);
        NotMine(p, b, old(bc.bufs), old(bc.users), old(open));
      }
    }

    method OtherDrops(p: int, q: int, b: int)
      requires Valid() && p != NONE
      modifies bc`bufs, bc`users, bc`prev, bc`next, bc`place, bc`stamp, bc`clock
      ensures Valid() && Hands(p) == old(Hands(p))
    {
      if q != p && 0 <= b < NBUF && q in bc.users[b] && bc.bufs[b].holder != q {
        Drop(q, b);
        NotMine(p, b, old(bc.bufs), old(bc.users), old(open));
      }
    }

    method OtherReleases(p: int, st: Step)
      requires Valid() && p != NONE && (st.UnlockBy? || st.DropBy?)
      modifies bc`bufs, bc`users, bc`prev, bc`next, bc`place, bc`stamp, bc`clock
      ensures Valid() && Hands(p) == old(Hands(p))
    {
      match st
      case UnlockBy(q, b) => OtherUnlocks(p, q, b);
      case DropBy(q, b) => OtherDrops(p, q, b);
    }

    // a change or log_write, in an operation, of a block outside the log area
    method OtherWrites(p: int, st: Step)
      requires Valid() && p != NONE && Writes(st)
      modifies this`block, this`rest, this`open, bc`bufs, bc`latest, bc`pins
      ensures Valid() && Hands(p) == old(Hands(p)) && old(block) <= block && old(rest) <= rest
      ensures outstanding == 0 ==>
        bc.latest == old(bc.latest) && block == old(block) && rest == old(rest) && open == old(open)
    {
      var q, b := st.q, st.b;
      if q == p || q == NONE || b < 0 || b >= NBUF || outstanding == 0 { return; }
      var buf := bc.bufs[b];
      if buf.holder != q || !buf.valid || buf.key.dev != dev || !Home(start, buf.key.blockno) { return; }
      if st.ChangeBy? {
        Change(q, b, st.d);
        NotMine(p, b, old(bc.bufs), old(bc.users), old(open));
      } else if |block| < LOGSIZE {
        assert buf.key in bc.disk by { assert StateOk(bc.Now()); }
        LogWrite(q, b);
        NotMine(p, b, old(bc.bufs), old(bc.users), old(open));
      }
    }

    // The next step of the others, if it is possible.
    method Other(p: int)
      requires Valid() && p != NONE && others != []
      modifies this`block, this`rest, this`open, this`outstanding, this`others, bc
      ensures Valid() && Hands(p) == old(Hands(p)) && Calm(p, old(Now()), Now()) && others == old(others)[1..]
    {
      ghost var a := Now();
      var st := others[0];
      others := others[1..];
      if Writes(st) {
        OtherWrites(p, st);
      } else if st.UnlockBy? || st.DropBy? {
        OtherReleases(p, st);
      } else if st.GetBy? || st.LockBy? || st.ReadBy? {
        OtherReads(p, st);
      } else if st.BeginBy? && outstanding > 0 && |block| + (outstanding + 1) * MAXOPBLOCKS <= LOGSIZE {
        outstanding := outstanding + 1;
      } else if st.EndBy? && outstanding > 1 {
        outstanding := outstanding - 1;
      }
      CalmStep(p, a, Now());
    }

    // The others run for a while.
    method Others(p: int)
      requires Valid() && p != NONE
      modifies this`block, this`rest, this`open, this`outstanding, this`others, bc
      ensures Valid() && Hands(p) == old(Hands(p)) && Calm(p, old(Now()), Now())
    {
      ghost var a := Now();
      assert CalmAll(p, a, a);
      var going := true;
      while going && others != []
        invariant Valid() && Hands(p) == old(Hands(p)) && Calm(p, a, Now())
        decreases |others|
      {
        going := others[0] != Turn;
        ghost var b := Now();
        Other(p);
        CalmJoin(p, a, b, Now());
      }
    }

    // acquiresleep: p waits while somebody has the lock.
    method Acquire(p: int, b: int) returns (got: bool)
      requires Valid() && p != NONE && 0 <= b < NBUF && Hands(p)[b].refs > 0
      modifies this`block, this`rest, this`open, this`outstanding, this`others, bc
      ensures Valid() && Calm(p, old(Now()), Now())
      ensures !got ==> others == [] && bc.bufs[b].holder != NONE && Hands(p) == old(Hands(p))
      ensures got ==> !old(Hands(p))[b].lock && Hands(p) == old(Hands(p))[b := HandNow(p, b)]
      ensures got ==> bc.bufs[b].holder == p && p in bc.users[b] && bc.bufs[b].key == old(Hands(p))[b].key
      ensures got ==> bc.users[b][p] == old(Hands(p))[b].refs && bc.bufs[b].key !in open
    {
      ghost var a := Now();
      assert CalmAll(p, a, a);
      while bc.bufs[b].holder != NONE && others != []
        invariant Valid() && Hands(p) == old(Hands(p)) && Calm(p, a, Now())
        decreases |others|
      {
        ghost var c := Now();
        Other(p);
        CalmJoin(p, a, c, Now());
      }
      got := bc.bufs[b].holder == NONE;
      if got {
        Holding(p, b);
        Lock(p, b);
      }
    }

    // ---------------------------------------------------------------------
    // What one process does, with steps of the others in between.

    // bget: a reference, and then the lock
    method Reach(p: int, k: Key) returns (r: Got)
      requires Valid() && p != NONE && k.dev != 0 && k in bc.disk
      modifies this`block, this`rest, this`open, this`outstanding, this`others, bc
      ensures Valid() && Calm(p, old(Now()), Now())
      ensures r.NoBuffers? <==> NoBuffer(old(bc.bufs), k)
      ensures r.NoBuffers? ==> bc.bufs == old(bc.bufs) && bc.pins == old(bc.pins) && Now() == old(Now())
      ensures r.Has? ==> 0 <= r.b < NBUF && Hands(p)[r.b].lock && Hands(p)[r.b].clean && Hands(p)[r.b].key == k
      ensures r.Has? ==>
        old(Hands(p))[r.b] == Loose(old(Hands(p))[r.b].refs, k) && Hands(p) == old(Hands(p))[r.b := Hands(p)[r.b]]
      ensures r.Has? ==> Hands(p)[r.b].refs == old(Hands(p))[r.b].refs + 1
      ensures r.Asleep? ==> others == [] && 0 <= r.b < NBUF && LockedAt(bc.bufs, r.b, k) && p in bc.users[r.b]
      ensures r.Asleep? ==>
        Hands(p)[r.b].lock == old(Hands(p))[r.b].lock && (Hands(p)[r.b].lock ==> old(Hands(p))[r.b].key == k)
    {
      ghost var a, s := Now(), bc.Now();
      var b := Take(p, k);
      if b == NONE { return NoBuffers; }
      HandIs(p, s.bufs, s.users, open, b);
      TakenHand(p, s, open, bc.bufs, bc.users, b, k);
      ghost var a1, h1 := Now(), Hands(p);
      assert Calm(p, a, a1) by { CalmOwn(p, a, bc.users); }
      Others(p);
      ghost var a2 := Now();
      assert Calm(p, a, a2) by { CalmJoin(p, a, a1, a2); }
      assert Hands(p)[b] == h1[b];
      var got := Acquire(p, b);
      assert Calm(p, a, Now()) by { CalmJoin(p, a, a2, Now()); }
      if !got {
        Holding(p, b);
        return Asleep(b);
      }
      Holding(p, b);
      Twice(old(Hands(p)), b, h1[b], HandNow(p, b));
      r := Has(b);
    }

    // bread
    method Get(p: int, x: int) returns (r: Got)
      requires Valid() && p != NONE && Key(dev, x) in bc.disk
      modifies this`block, this`rest, this`open, this`outstanding, this`others, bc
      ensures Valid() && Calm(p, old(Now()), Now())
      ensures r.NoBuffers? <==> NoBuffer(old(bc.bufs), Key(dev, x))
      ensures r.NoBuffers? ==> bc.bufs == old(bc.bufs) && bc.pins == old(bc.pins) && Now() == old(Now())
      ensures r.Has? ==> 0 <= r.b < NBUF && Key(dev, x) in bc.latest
      ensures r.Has? ==> var n := old(Hands(p))[r.b].refs;
        && old(Hands(p))[r.b] == Loose(n, Key(dev, x))
        && Hands(p) == old(Hands(p))[r.b := Grip(n + 1, Key(dev, x), bc.latest[Key(dev, x)])]
      ensures r.Asleep? ==> others == [] && 0 <= r.b < NBUF && LockedAt(bc.bufs, r.b, Key(dev, x))
      ensures r.Asleep? && Alone(p, old(Now())) ==> old(Hands(p))[r.b].lock && old(Hands(p))[r.b].key == Key(dev, x)
    {
      ghost var a := Now();
      r := Reach(p, Key(dev, x));
      ghost var a1, h1 := Now(), Hands(p);
      if r.Asleep? && Alone(p, a) { AloneAwake(p, a, r.b); }
      if !r.Has? { return; }
      Others(p);
      CalmJoin(p, a, a1, Now());
      Holding(p, r.b);
      Read(p, r.b);
      Twice(old(Hands(p)), r.b, h1[r.b], HandNow(p, r.b));
    }

    // When p is alone, a lock it finds taken is its own.
    lemma AloneAwake(p: int, a: Snap, b: int)
      requires Valid() && p != NONE && Alone(p, a) && Calm(p, a, Now()) && 0 <= b < NBUF && bc.bufs[b].holder != NONE
      ensures Hands(p)[b].lock
    {
      assert CalmAll(p, a, Now());
      RefIs(bc.Now(), b);
      assert bc.bufs[b].holder in bc.users[b];
      Holding(p, b);
    }

    // brelse
    method Put(p: int, b: int)
      requires Valid() && p != NONE && 0 <= b < NBUF && Hands(p)[b].lock && Hands(p)[b].clean
      modifies bc`bufs, bc`users, bc`prev, bc`next, bc`place, bc`stamp, bc`clock
      ensures Valid() && Hands(p) == old(Hands(p))[b := Loose(old(Hands(p))[b].refs - 1, old(Hands(p))[b].key)]
      ensures OnlyBy(p, old(bc.users)) ==> OnlyBy(p, bc.users)
    {
      Holding(p, b);
      Unlock(p, b);
      ghost var g := HandNow(p, b);
      Drop(p, b);
      Twice(old(Hands(p)), b, g, HandNow(p, b));
    }

    // Block x has got the content d and is logged, and nothing else has changed.
    ghost predicate Logs(a: Snap, a': Snap, x: int, d: seq<int>) {
      && a'.latest == a.latest[Key(dev, x) := d] && a'.rest == a.rest + {x} && a'.open == a.open - {Key(dev, x)}
      && a'.block == if x in a.block then a.block else a.block + [x]
    }

    // p has buffer b of block x, locked, and has changed nothing that is not logged
    ghost predicate Gripped(p: int, b: int, x: int)
      requires |bc.bufs| == |bc.users| == NBUF
      reads this, bc
    {
      p != NONE && 0 <= b < NBUF && Hands(p)[b] == Grip(Hands(p)[b].refs, Key(dev, x), Hands(p)[b].data)
    }

    // What p sees of block x is its latest content.
    lemma SeesLatest(p: int, b: int, x: int)
      requires Valid() && Mine(p, b, x)
      ensures Key(dev, x) in bc.latest && Key(dev, x) in bc.disk && bc.latest[Key(dev, x)] == Hands(p)[b].data
    {
      Holding(p, b);
      assert StateOk(bc.Now());
    }

    lemma CleanKey(p: int, b: int, x: int)
      requires Valid() && Gripped(p, b, x)
      ensures Key(dev, x) !in open
    {
      Holding(p, b);
    }

    // the change of a locked block
    method Edit(p: int, b: int, x: int, d: seq<int>)
      requires Valid() && Gripped(p, b, x) && outstanding > 0
      modifies this`block, this`rest, this`open, this`outstanding, this`others, bc
      ensures Valid() && bc.disk == old(bc.disk) && outstanding > 0 && old(block) <= block && old(rest) <= rest
      ensures Hands(p) == old(Hands(p))[b := old(Hands(p))[b].(data := d, clean := false)]
      ensures old(Readers(others)) ==> Readers(others) && block == old(block) && rest == old(rest)
      ensures old(Readers(others)) ==>
        bc.latest == old(bc.latest)[Key(dev, x) := d] && open == old(open) + {Key(dev, x)}
      ensures Stays(p, old(Now()), Now())
    {
      ghost var a, h := Now(), Hands(p);
      Others(p);
      CalmFacts(p, a, Now());
      Holding(p, b);
      Change(p, b, d);
      ghost var a2, g := Now(), HandNow(p, b);
      assert g == h[b].(data := d, clean := false);
      Others(p);
      CalmFacts(p, a2, Now());
    }

    // log_write, and what follows until brelse; false is the panic.
    method Enter(p: int, b: int, x: int) returns (ok: bool)
      requires Valid() && Mine(p, b, x) && outstanding > 0 && Home(start, x)
      modifies this`block, this`rest, this`open, this`outstanding, this`others, bc
      ensures Valid() && bc.disk == old(bc.disk) && outstanding > 0 && old(block) <= block && old(rest) <= rest
      ensures !ok <==> |old(block)| >= LOGSIZE
      ensures ok ==> x in rest && x in block && Hands(p) == old(Hands(p))[b := old(Hands(p))[b].(clean := true)]
      ensures old(Readers(others)) ==> Readers(others) && bc.latest == old(bc.latest)
      ensures ok && old(Readers(others)) ==> rest == old(rest) + {x} && open == old(open) - {Key(dev, x)}
      ensures ok && old(Readers(others)) ==> block == if x in old(block) then old(block) else old(block) + [x]
      ensures Stays(p, old(Now()), Now())
    {
      if |block| >= LOGSIZE { return false; }
      ghost var h := Hands(p);
      SeesLatest(p, b, x);
      Holding(p, b);
      LogWrite(p, b);
      ghost var a := Now();
      assert x in block;
      Others(p);
      CalmFacts(p, a, Now());
      ok := true;
    }

    // the change and log_write of a locked block; false is the panic.
    method Rewrite(p: int, b: int, x: int, d: seq<int>) returns (ok: bool)
      requires Valid() && Gripped(p, b, x) && outstanding > 0 && Home(start, x)
      modifies this`block, this`rest, this`open, this`outstanding, this`others, bc
      ensures Valid() && bc.disk == old(bc.disk) && outstanding > 0 && old(block) <= block && old(rest) <= rest
      ensures !ok ==> |block| >= LOGSIZE
      ensures ok ==> x in rest && x in block && Hands(p) == old(Hands(p))[b := old(Hands(p))[b].(data := d)]
      ensures old(Readers(others)) && |old(block)| < LOGSIZE ==> ok
      ensures ok && old(Readers(others)) ==> Readers(others) && Logs(old(Now()), Now(), x, d)
      ensures Stays(p, old(Now()), Now())
    {
      ghost var h := Hands(p);
      Edit(p, b, x, d);
      ghost var g := h[b].(data := d, clean := false);
      assert Hands(p)[b] == g;
      ok := Enter(p, b, x);
      if ok { Twice(h, b, g, h[b].(data := d)); }
    }

    // the same and brelse
    method Finish(p: int, b: int, x: int, d: seq<int>) returns (ok: bool)
      requires Valid() && Gripped(p, b, x) && outstanding > 0 && Home(start, x)
      modifies this`block, this`rest, this`open, this`outstanding, this`others, bc
      ensures Valid() && bc.disk == old(bc.disk) && outstanding > 0 && old(block) <= block && old(rest) <= rest
      ensures !ok ==> |block| >= LOGSIZE
      ensures ok ==> x in rest && x in block && Key(dev, x) in bc.latest && bc.latest[Key(dev, x)] == d
      ensures ok ==> Hands(p) == old(Hands(p))[b := Loose(old(Hands(p))[b].refs - 1, Key(dev, x))]
      ensures old(Readers(others)) && |old(block)| < LOGSIZE ==> ok
      ensures ok && old(Readers(others)) ==> Readers(others) && Logs(old(Now()), Now(), x, d)
      ensures Stays(p, old(Now()), Now())
    {
      ghost var h := Hands(p);
      ok := Rewrite(p, b, x, d);
      if ok {
        SeesLatest(p, b, x);
        Put(p, b);
        Twice(h, b, h[b].(data := d), Loose(h[b].refs - 1, Key(dev, x)));
      }
    }

    // begin_op, when it does not wait
    method BeginOp() returns (admitted: bool)
      requires Valid() && Logging()
      modifies this`outstanding
      ensures Valid() && (admitted <==> |block| + (old(outstanding) + 1) * MAXOPBLOCKS <= LOGSIZE)
      ensures outstanding == old(outstanding) + if admitted then 1 else 0
    {
      admitted := |block| + (outstanding + 1) * MAXOPBLOCKS <= LOGSIZE;
      if admitted { outstanding := outstanding + 1; }
    }

    // An operation's bread, change, log_write and brelse of block x, whatever the others do in
    // between: when the block is released its latest content is d, and it is logged and pinned.
    method Update(p: int, x: int, d: seq<int>) returns (r: Outcome)
      requires Valid() && p != NONE && Home(start, x) && Key(dev, x) in bc.disk && outstanding > 0
      modifies this`block, this`rest, this`open, this`outstanding, this`others, bc
      ensures Valid() && bc.disk == old(bc.disk) && outstanding > 0 && old(block) <= block && old(rest) <= rest
      ensures r.Panic? <==> NoBuffer(old(bc.bufs), Key(dev, x))
      ensures r.TooBig? ==> |block| >= LOGSIZE
      ensures r.Sleeps? ==> others == [] && Locked(bc.bufs, Key(dev, x))
      ensures r.Done? ==> Hands(p) == old(Hands(p)) && x in rest && x in block
      ensures r.Done? ==> Key(dev, x) in bc.latest && bc.latest[Key(dev, x)] == d
      ensures old(Readers(others)) && |old(block)| < LOGSIZE ==> !r.TooBig?
      ensures r.Done? && old(Readers(others)) ==> Readers(others) && Logs(old(Now()), Now(), x, d)
      ensures Alone(p, old(Now())) && old(Hands(p)) == Empty() ==> !r.Sleeps?
      ensures r.Done? ==> Stays(p, old(Now()), Now())
    {
      ghost var a, h := Now(), Hands(p);
      var g := Get(p, x);
      CalmFacts(p, a, Now());
      if g.NoBuffers? { return Panic; }
      if g.Asleep? {
        assert LockedAt(bc.bufs, g.b, Key(dev, x));
        return Sleeps;
      }
      CleanKey(p, g.b, x);
      ghost var m := Hands(p)[g.b];
      var ok := Finish(p, g.b, x, d);
      if !ok { return TooBig; }
      Twice(h, g.b, m, h[g.b]);
      r := Done;
    }

    // ---------------------------------------------------------------------
    // The commit. No operation is open, so that the others only read.

    // p has buffer b of block x, locked, and besides it what hands say.
    ghost predicate Adds(p: int, hands: seq<Hand>, b: int, x: int)
      requires |bc.bufs| == |bc.users| == NBUF && |hands| == NBUF
      reads this, bc
    {
      && 0 <= b < NBUF && Key(dev, x) in bc.latest && hands[b] == NOTHING
      && Hands(p) == hands[b := Grip(1, Key(dev, x), bc.latest[Key(dev, x)])]
    }

    // bread in a commit: the log and the contents stay as they are.
    method GetOne(p: int, x: int) returns (r: Outcome, b: int)
      requires Valid() && p != NONE && Key(dev, x) in bc.disk && outstanding == 0
      requires forall c :: 0 <= c < NBUF && Hands(p)[c] != NOTHING ==> Hands(p)[c].key != Key(dev, x)
      modifies this`block, this`rest, this`open, this`outstanding, this`others, bc
      ensures Valid() && Calm(p, old(Now()), Now()) && !r.TooBig?
      ensures r.Panic? <==> NoBuffer(old(bc.bufs), Key(dev, x))
      ensures r.Panic? ==> bc.bufs == old(bc.bufs) && bc.pins == old(bc.pins) && Now() == old(Now())
      ensures r.Done? ==> Adds(p, old(Hands(p)), b, x)
      ensures r.Sleeps? ==> others == [] && !Alone(p, old(Now()))
    {
      b := NONE;
      var g := Get(p, x);
      if g.NoBuffers? { return Panic, b; }
      if g.Asleep? { return Sleeps, b; }
      b, r := g.b, Done;
    }

    // between two turns of a commit by p
    ghost predicate Ready(p: int)
      reads this, bc
    {
      Valid() && p != NONE && Hands(p) == Empty() && outstanding == 0 && open == {}
    }

    // bread of log block t
    method GetLog(p: int, t: int) returns (r: Outcome, lb: int)
      requires Ready(p) && 0 <= t < |block| && block[t] in rest
      modifies this`block, this`rest, this`open, this`outstanding, this`others, bc
      ensures Valid() && Calm(p, old(Now()), Now()) && !r.TooBig?
      ensures r.Panic? <==> NoBuffer(old(bc.bufs), LogKey(t))
      ensures r.Panic? ==> bc.bufs == old(bc.bufs) && bc.pins == old(bc.pins) && Now() == old(Now())
      ensures r.Done? ==> 0 <= lb < NBUF && LogKey(t) in bc.latest
      ensures r.Done? ==> Hands(p) == Empty()[lb := Grip(1, LogKey(t), bc.latest[LogKey(t)])]
      ensures block == old(block) && rest == old(rest) && outstanding == 0 && open == {} && bc.latest == old(bc.latest)
      ensures r.Sleeps? ==> others == [] && !Alone(p, old(Now()))
    {
      ghost var a := Now();
      Listed(Sight(), t);
      r, lb := GetOne(p, start + 1 + t);
      ghost var b := Now();
      if r.Done? {
        CalmFacts(p, a, b);
        Others(p);
        CalmJoin(p, a, b, Now());
      }
      CalmFacts(p, a, Now());
    }

    // Both loops' two breads, of log block t and of its home block.
    method GetPair(p: int, t: int) returns (r: Outcome, lb: int, hb: int)
      requires Ready(p) && 0 <= t < |block| && block[t] in rest
      modifies this`block, this`rest, this`open, this`outstanding, this`others, bc
      ensures Valid() && Calm(p, old(Now()), Now()) && !r.TooBig?
      ensures r.Panic? <==> NoBuffer(old(bc.bufs), LogKey(t))
      ensures r.Panic? ==> bc.bufs == old(bc.bufs) && bc.pins == old(bc.pins) && Now() == old(Now())
      ensures r.Done? ==> 0 <= lb < NBUF && 0 <= hb < NBUF && lb != hb
      ensures r.Done? ==> LogKey(t) in bc.latest && Key(dev, old(block)[t]) in bc.latest
      ensures r.Done? ==> Hands(p) == Two(lb, Grip(1, LogKey(t), bc.latest[LogKey(t)]),
                                          hb, Grip(1, Key(dev, old(block)[t]), bc.latest[Key(dev, old(block)[t])]))
      ensures r.Sleeps? ==> others == [] && !Alone(p, old(Now()))
    {
      ghost var a := Now();
      hb := NONE;
      r, lb := GetLog(p, t);
      if !r.Done? { return; }
      ghost var c, g := Now(), Grip(1, LogKey(t), bc.latest[LogKey(t)]);
      CalmFacts(p, a, c);
      Listed(Sight(), t);
      ghost var e :| Cached(bc.bufs, e, Key(dev, block[t]));
      r, hb := GetOne(p, block[t]);
      CalmJoin(p, a, c, Now());
      CalmFacts(p, a, Now());
      if r.Done? { assert Hands(p) == Two(lb, g, hb, Hands(p)[hb]); }
    }

    // memmove and bwrite
    method Write(p: int, b: int, x: int, d: seq<int>)
      requires Valid() && Gripped(p, b, x) && outstanding == 0 && open == {}
      modifies this`block, this`rest, this`open, this`outstanding, this`others, this`writes, bc
      ensures Valid() && Hands(p) == old(Hands(p))[b := old(Hands(p))[b].(data := d)]
      ensures block == old(block) && rest == old(rest) && outstanding == 0 && open == {}
      ensures bc.latest == old(bc.latest)[Key(dev, x) := d] && bc.disk == old(bc.disk)[Key(dev, x) := d]
      ensures writes == old(writes) + [Wrote(Key(dev, x), d)]
      ensures Stays(p, old(Now()), Now())
    {
      ghost var h := Hands(p);
      Holding(p, b);
      Change(p, b, d);
      ghost var a, g := Now(), HandNow(p, b);
      Others(p);
      CalmFacts(p, a, Now());
      Holding(p, b);
      Bwrite(p, b);
      Twice(h, b, g, HandNow(p, b));
    }

    // brelse of two buffers
    method PutBoth(p: int, b: int, c: int, ghost g: Hand, ghost h: Hand)
      requires Valid() && p != NONE && 0 <= b < NBUF && 0 <= c < NBUF && b != c && Hands(p) == Two(b, g, c, h)
      requires g.lock && g.clean && g.refs == 1 && h.lock && h.clean && h.refs == 1
      modifies this`block, this`rest, this`open, this`outstanding, this`others, bc
      ensures Valid() && Hands(p) == Empty() && Calm(p, old(Now()), Now())
    {
      ghost var a := Now();
      TwoBack(b, g, c, h, NOTHING);
      Put(p, b);
      ghost var a1 := Now();
      CalmOwn(p, a, bc.users);
      Others(p);
      CalmJoin(p, a, a1, Now());
      ghost var a2 := Now();
      Put(p, c);
      CalmOwn(p, a2, bc.users);
      CalmJoin(p, a, a2, Now());
    }

    // p has log block t in lb and its home block in hb.
    ghost predicate Pair(p: int, t: int, lb: int, hb: int)
      reads this, bc
    {
      && Valid() && p != NONE && outstanding == 0 && open == {} && 0 <= t < |block| && block[t] in rest
      && 0 <= lb < NBUF && 0 <= hb < NBUF && lb != hb && LogKey(t) in bc.latest && Key(dev, block[t]) in bc.latest
      && Hands(p) == Two(lb, Grip(1, LogKey(t), bc.latest[LogKey(t)]), hb,
        Grip(1, Key(dev, block[t]), bc.latest[Key(dev, block[t])]))
    }

    // write_log's memmove, bwrite and brelses
    method CopyHeld(p: int, t: int, to: int, from: int)
      requires Pair(p, t, to, from)
      modifies this`block, this`rest, this`open, this`outstanding, this`others, this`writes, bc
      ensures Ready(p) && block == old(block) && rest == old(rest)
      ensures bc.latest == old(bc.latest)[LogKey(t) := old(bc.latest)[Key(dev, old(block)[t])]]
      ensures bc.disk == old(bc.disk)[LogKey(t) := old(bc.latest)[Key(dev, old(block)[t])]]
      ensures writes == old(writes) + [Wrote(LogKey(t), old(bc.latest)[Key(dev, old(block)[t])])]
      ensures Stays(p, old(Now()), Now())
    {
      ghost var g, h := Grip(1, LogKey(t), bc.latest[LogKey(t)]),
        Grip(1, Key(dev, block[t]), bc.latest[Key(dev, block[t])]);
      Holding(p, from);
      TwoBack(to, g, from, h, g.(data := h.data));
      Write(p, to, start + 1 + t, bc.bufs[from].data);
      ghost var a := Now();
      TwoBack(to, g.(data := h.data), from, h, NOTHING);
      PutBoth(p, from, to, h, g.(data := h.data));
      CalmFacts(p, a, Now());
    }

    // One turn of write_log: the log block gets the latest content of the logged block.
    method CopyToLog(p: int, t: int) returns (r: Outcome)
      requires Ready(p) && 0 <= t < |block| && block[t] in rest
      modifies this`block, this`rest, this`open, this`outstanding, this`others, this`writes, bc
      ensures Valid() && !r.TooBig? && block == old(block) && rest == old(rest)
      ensures r.Panic? <==> NoBuffer(old(bc.bufs), LogKey(t))
      ensures r.Panic? ==> bc.bufs == old(bc.bufs) && bc.pins == old(bc.pins) && Now() == old(Now())
      ensures r.Sleeps? ==> others == [] && !Alone(p, old(Now()))
      ensures r.Done? ==> Ready(p) && Key(dev, block[t]) in old(bc.latest)
      ensures r.Done? ==> bc.latest == old(bc.latest)[LogKey(t) := old(bc.latest)[Key(dev, block[t])]]
      ensures r.Done? ==> bc.disk == old(bc.disk)[LogKey(t) := old(bc.latest)[Key(dev, block[t])]]
      ensures writes == old(writes) + if r.Done? then [Wrote(LogKey(t), old(bc.latest)[Key(dev, block[t])])] else []
      ensures r.Done? ==> Stays(p, old(Now()), Now())
    {
      ghost var a := Now();
      var to, from;
      r, to, from := GetPair(p, t);
      CalmFacts(p, a, Now());
      if r.Done? { CopyHeld(p, t, to, from); }
    }

    // install_trans' memmove, bwrite and bunpin
    method InstallBlock(p: int, t: int, lbuf: int, dbuf: int)
      requires Pair(p, t, lbuf, dbuf)
      modifies this`block, this`rest, this`open, this`outstanding, this`others, this`writes, bc
      ensures Valid() && outstanding == 0 && open == {} && block == old(block) && rest == old(rest) - {old(block)[t]}
      ensures bc.latest == old(bc.latest)[Key(dev, old(block)[t]) := old(bc.latest)[LogKey(t)]]
      ensures bc.disk == old(bc.disk)[Key(dev, old(block)[t]) := old(bc.latest)[LogKey(t)]]
      ensures writes == old(writes) + [Wrote(Key(dev, old(block)[t]), old(bc.latest)[LogKey(t)])]
      ensures Hands(p) == Two(lbuf, Grip(1, LogKey(t), old(bc.latest)[LogKey(t)]),
                              dbuf, Grip(1, Key(dev, old(block)[t]), old(bc.latest)[LogKey(t)]))
      ensures Stays(p, old(Now()), Now())
    {
      ghost var g, h := Grip(1, LogKey(t), bc.latest[LogKey(t)]),
        Grip(1, Key(dev, block[t]), bc.latest[Key(dev, block[t])]);
      Holding(p, lbuf);
      TwoBack(dbuf, h, lbuf, g, h.(data := g.data));
      Write(p, dbuf, block[t], bc.bufs[lbuf].data);
      TwoBack(dbuf, h.(data := g.data), lbuf, g, NOTHING);
      Holding(p, dbuf);
      Unpin(p, dbuf, block[t]);
    }

    // the same and the brelses
    method InstallHeld(p: int, t: int, lbuf: int, dbuf: int)
      requires Pair(p, t, lbuf, dbuf)
      modifies this`block, this`rest, this`open, this`outstanding, this`others, this`writes, bc
      ensures Ready(p) && block == old(block) && rest == old(rest) - {old(block)[t]}
      ensures bc.latest == old(bc.latest)[Key(dev, old(block)[t]) := old(bc.latest)[LogKey(t)]]
      ensures bc.disk == old(bc.disk)[Key(dev, old(block)[t]) := old(bc.latest)[LogKey(t)]]
      ensures writes == old(writes) + [Wrote(Key(dev, old(block)[t]), old(bc.latest)[LogKey(t)])]
      ensures Stays(p, old(Now()), Now())
    {
      ghost var d := bc.latest[LogKey(t)];
      InstallBlock(p, t, lbuf, dbuf);
      ghost var a := Now();
      PutBoth(p, lbuf, dbuf, Grip(1, LogKey(t), d), Grip(1, Key(dev, block[t]), d));
      CalmFacts(p, a, Now());
    }

    // One turn of install_trans in a commit: the home block gets the log block's content and is
    // unpinned.
    method InstallOne(p: int, t: int) returns (r: Outcome)
      requires Ready(p) && 0 <= t < |block| && block[t] in rest
      modifies this`block, this`rest, this`open, this`outstanding, this`others, this`writes, bc
      ensures Valid() && !r.TooBig? && block == old(block)
      ensures r.Panic? <==> NoBuffer(old(bc.bufs), LogKey(t))
      ensures r.Panic? ==> bc.bufs == old(bc.bufs) && bc.pins == old(bc.pins) && Now() == old(Now())
      ensures r.Sleeps? ==> others == [] && !Alone(p, old(Now()))
      ensures r.Done? ==> Ready(p) && rest == old(rest) - {block[t]} && LogKey(t) in old(bc.latest)
      ensures r.Done? ==> bc.latest == old(bc.latest)[Key(dev, block[t]) := old(bc.latest)[LogKey(t)]]
      ensures r.Done? ==> bc.disk == old(bc.disk)[Key(dev, block[t]) := old(bc.latest)[LogKey(t)]]
      ensures writes == old(writes) + if r.Done? then [Wrote(Key(dev, block[t]), old(bc.latest)[LogKey(t)])] else []
      ensures r.Done? ==> Stays(p, old(Now()), Now())
    {
      ghost var a := Now();
      var lbuf, dbuf;
      r, lbuf, dbuf := GetPair(p, t);
      CalmFacts(p, a, Now());
      if r.Done? { InstallHeld(p, t, lbuf, dbuf); }
    }

    // ---------------------------------------------------------------------
    // When there is no buffer.

    // The pinned buffers and those that processes have are at least NBUF.
    ghost predicate Crowded()
      reads this, bc
    {
      |rest| + |Used(bc.users)| >= NBUF
    }

    lemma Crowd(x: int)
      requires Valid() && NoBuffer(bc.bufs, Key(dev, x))
      ensures Crowded()
    {
      FullCount(bc.Now(), Sight());
    }

    // NBUF logged blocks leave no buffer for the log area, and for p alone nothing else does.
    lemma LogCrowd(p: int, x: int)
      requires Valid() && p != NONE && Hands(p) == Empty() && x !in rest
      ensures |rest| <= NBUF && (|rest| == NBUF ==> NoBuffer(bc.bufs, Key(dev, x)))
      ensures Alone(p, Now()) ==> (NoBuffer(bc.bufs, Key(dev, x)) <==> |rest| == NBUF)
    {
      PinnedSize(bc.Now(), Sight());
      if |rest| == NBUF { NoneLeft(bc.Now(), Sight(), x); }
      if Alone(p, Now()) {
        AloneUnused(p, bc.Now(), Sight(), Now());
        NoBufferIff(bc.Now(), Sight(), x);
      }
    }

    lemma LogArea(x: int)
      requires Valid() && start <= x <= start + LOGSIZE
      ensures Key(dev, x) in bc.disk && x !in rest
    {
      assert ViewOk(Sight());
    }

    lemma Counted()
      requires Valid() && Logging()
      ensures |rest| == |block| && forall x :: x in rest ==> x in block
    {
      assert ViewOk(Sight());
      RestSize(block, rest);
    }

    // ---------------------------------------------------------------------
    // commit

    // write_head
    method WriteHead(p: int) returns (r: Outcome)
      requires Ready(p)
      modifies this`block, this`rest, this`open, this`outstanding, this`others, this`writes, bc
      ensures Valid() && !r.TooBig? && block == old(block) && rest == old(rest)
      ensures r.Done? ==> Ready(p) && Key(dev, start) in old(bc.latest)
      ensures r.Done? ==> bc.latest == old(bc.latest)[Key(dev, start) := Header(block)]
      ensures r.Done? ==> bc.disk == old(bc.disk)[Key(dev, start) := Header(block)]
      ensures writes == old(writes) + if r.Done? then [Wrote(Key(dev, start), Header(block))] else []
      ensures r.Panic? ==> Crowded()
      ensures Alone(p, old(Now())) ==> (r.Done? <==> |rest| < NBUF) && !r.Sleeps?
      ensures r.Done? ==> Stays(p, old(Now()), Now())
    {
      ghost var a := Now();
      LogArea(start);
      LogCrowd(p, start);
      var b;
      r, b := GetOne(p, start);
      CalmFacts(p, a, Now());
      if r.Panic? { Crowd(start); }
      if !r.Done? { return; }
      ghost var g := Grip(1, Key(dev, start), bc.latest[Key(dev, start)]);
      Write(p, b, start, Header(block));
      Twice(Empty(), b, g, g.(data := Header(block)));
      Put(p, b);
      Twice(Empty(), b, g.(data := Header(block)), NOTHING);
    }

    // a turn of write_log's loop
    method CopyTurn(p: int, t: int, ghost old0: map<Key, seq<int>>) returns (r: Outcome)
      requires Ready(p) && 0 <= t < |block| && block[t] in rest
      requires Copied(bc.latest, dev, start, block, t) && SameHomes(old0, bc.latest, dev, start)
      modifies this`block, this`rest, this`open, this`outstanding, this`others, this`writes, bc
      ensures Valid() && !r.TooBig? && block == old(block) && rest == old(rest)
      ensures r.Done? ==>
        Ready(p) && Copied(bc.latest, dev, start, block, t + 1) && SameHomes(old0, bc.latest, dev, start)
      ensures r.Panic? ==> Crowded()
      ensures |rest| <= NBUF && (|rest| == NBUF ==> r.Panic?)
      ensures writes == old(writes) +
        if r.Done? then [Wrote(LogKey(t), Content(old(bc.latest), Key(dev, block[t])))] else []
      ensures Alone(p, old(Now())) ==> (r.Done? <==> |rest| < NBUF) && !r.Sleeps?
      ensures r.Done? ==> Stays(p, old(Now()), Now())
    {
      ghost var v, l := Sight(), bc.latest;
      Listed(v, t);
      LogArea(start + 1 + t);
      LogCrowd(p, start + 1 + t);
      r := CopyToLog(p, t);
      if r.Panic? { Crowd(start + 1 + t); }
      if r.Done? { CopyNext(v, l, bc.latest, old0, t); }
    }

    // t blocks are in the log, and it took so many writes after ws.
    ghost predicate LogHas(p: int, t: int, old0: map<Key, seq<int>>, ws: seq<Wrote>)
      reads this, bc
    {
      && Ready(p) && Logging() && 0 <= t <= |block| && Copied(bc.latest, dev, start, block, t)
      && SameHomes(old0, bc.latest, dev, start) && writes == ws + ToLog(old0, dev, start, block, t)
    }

    method LogTurn(p: int, t: int, ghost old0: map<Key, seq<int>>, ghost ws: seq<Wrote>) returns (r: Outcome)
      requires LogHas(p, t, old0, ws) && t < |block|
      modifies this`block, this`rest, this`open, this`outstanding, this`others, this`writes, bc
      ensures Valid() && !r.TooBig? && block == old(block) && rest == old(rest)
      ensures if r.Done? then LogHas(p, t + 1, old0, ws) else writes == old(writes)
      ensures r.Panic? ==> Crowded()
      ensures |rest| <= NBUF && (|rest| == NBUF ==> r.Panic?)
      ensures Alone(p, old(Now())) ==> (r.Done? <==> |rest| < NBUF) && !r.Sleeps?
      ensures r.Done? ==> Stays(p, old(Now()), Now())
    {
      LogNext(Sight(), ws, old0, bc.latest, t);
      r := CopyTurn(p, t, old0);
    }

    // write_log
    method WriteLog(p: int) returns (r: Outcome)
      requires Ready(p) && Logging()
      modifies this`block, this`rest, this`open, this`outstanding, this`others, this`writes, bc
      ensures Valid() && !r.TooBig? && block == old(block) && rest == old(rest)
      ensures r.Done? ==>
        Ready(p) && Copied(bc.latest, dev, start, block, |block|) && SameHomes(old(bc.latest), bc.latest, dev, start)
      ensures r.Panic? ==> Crowded()
      ensures |block| == NBUF ==> r.Panic?
      ensures var all := old(writes) + ToLog(old(bc.latest), dev, start, block, |block|);
        old(writes) <= writes <= all && (r.Done? ==> writes == all)
      ensures Alone(p, old(Now())) ==> (r.Done? <==> |block| < NBUF) && !r.Sleeps?
      ensures r.Done? ==> Stays(p, old(Now()), Now())
    {
      Counted();
      var t := 0;
      while t < |block|
        invariant LogHas(p, t, old(bc.latest), old(writes)) && block == old(block) && rest == old(rest)
        invariant (t > 0 ==> |block| < NBUF) && Stays(p, old(Now()), Now())
        decreases |block| - t
      {
        r := LogTurn(p, t, old(bc.latest), old(writes));
        if !r.Done? {
          LogPart(old(writes), old(bc.latest), dev, start, block, t);
          return;
        }
        t := t + 1;
      }
      r := Done;
    }

    lemma Apart(t: int)
      requires Valid() && 0 <= t < |block|
      ensures forall i :: 0 <= i < |block| && i != t ==> block[i] != block[t]
    {
      assert ViewOk(Sight());
    }

    lemma AllInstalled()
      requires Valid() && open == {} && forall i :: 0 <= i < |block| ==> block[i] !in rest
      ensures rest == {} && bc.disk == bc.latest
    {
      assert ViewOk(Sight()) && SettledAll(bc.disk, bc.latest, dev, rest, open);
      assert rest == {} by { assert forall x :: x !in rest; }
    }

    // a turn of install_trans' loop
    method InstallTurn(p: int, t: int) returns (r: Outcome)
      requires Ready(p) && 0 <= t < |block| && Copied(bc.latest, dev, start, block, |block|)
      requires forall i :: 0 <= i < |block| ==> (block[i] in rest <==> t <= i)
      modifies this`block, this`rest, this`open, this`outstanding, this`others, this`writes, bc
      ensures Valid() && !r.TooBig? && block == old(block)
      ensures r.Done? ==> Ready(p) && bc.latest == old(bc.latest) && |rest| < |old(rest)|
      ensures r.Done? ==> forall i :: 0 <= i < |block| ==> (block[i] in rest <==> t + 1 <= i)
      ensures r.Panic? ==> Crowded()
      ensures writes == old(writes) +
        if r.Done? then [Wrote(Key(dev, block[t]), Content(bc.latest, Key(dev, block[t])))] else []
      ensures (Alone(p, old(Now())) && |old(rest)| < NBUF ==> r.Done?) && (r.Done? ==> Stays(p, old(Now()), Now()))
      ensures r.Sleeps? ==> !Alone(p, old(Now()))
    {
      LogArea(start + 1 + t);
      LogCrowd(p, start + 1 + t);
      Apart(t);
      assert EntryCopied(bc.latest, dev, start, block, t);
      r := InstallOne(p, t);
      if r.Panic? { Crowd(start + 1 + t); }
      if r.Done? { assert bc.latest == old(bc.latest); }
    }

    // The first t blocks are installed, and it took so many writes after ws.
    ghost predicate HomeHas(p: int, t: int, ws: seq<Wrote>)
      reads this, bc
    {
      && Ready(p) && 0 <= t <= |block| && Copied(bc.latest, dev, start, block, |block|)
      && (forall i :: 0 <= i < |block| ==> (block[i] in rest <==> t <= i))
      && writes == ws + ToHomes(bc.latest, dev, block, t)
    }

    method HomeTurn(p: int, t: int, ghost ws: seq<Wrote>) returns (r: Outcome)
      requires HomeHas(p, t, ws) && t < |block|
      modifies this`block, this`rest, this`open, this`outstanding, this`others, this`writes, bc
      ensures Valid() && !r.TooBig? && block == old(block)
      ensures if r.Done? then HomeHas(p, t + 1, ws) else writes == old(writes)
      ensures r.Done? ==> bc.latest == old(bc.latest) && |rest| < |old(rest)|
      ensures r.Panic? ==> Crowded()
      ensures (Alone(p, old(Now())) && |old(rest)| < NBUF ==> r.Done?) && (r.Done? ==> Stays(p, old(Now()), Now()))
      ensures r.Sleeps? ==> !Alone(p, old(Now()))
    {
      HomeNext(ws, bc.latest, dev, block, t);
      r := InstallTurn(p, t);
    }

    // install_trans' loop
    method InstallLoop(p: int) returns (r: Outcome)
      requires Ready(p) && Logging() && Copied(bc.latest, dev, start, block, |block|)
      modifies this`block, this`rest, this`open, this`outstanding, this`others, this`writes, bc
      ensures Valid() && !r.TooBig? && block == old(block)
      ensures r.Done? ==> Ready(p) && bc.latest == old(bc.latest) && forall i :: 0 <= i < |block| ==> block[i] !in rest
      ensures r.Panic? ==> Crowded()
      ensures var all := old(writes) + ToHomes(old(bc.latest), dev, block, |block|);
        old(writes) <= writes <= all && (r.Done? ==> writes == all)
      ensures (Alone(p, old(Now())) && |old(rest)| < NBUF ==> r.Done?) && (r.Done? ==> Stays(p, old(Now()), Now()))
      ensures r.Sleeps? ==> !Alone(p, old(Now()))
    {
      var t := 0;
      while t < |block|
        invariant HomeHas(p, t, old(writes)) && block == old(block) && bc.latest == old(bc.latest)
        invariant |rest| <= |old(rest)| && Stays(p, old(Now()), Now())
        decreases |block| - t
      {
        r := HomeTurn(p, t, old(writes));
        if !r.Done? {
          HomePart(old(writes), old(bc.latest), dev, block, t);
          return;
        }
        t := t + 1;
      }
      r := Done;
    }

    // install_trans in a commit
    method Install(p: int) returns (r: Outcome)
      requires Ready(p) && Logging() && Copied(bc.latest, dev, start, block, |block|)
      modifies this`block, this`rest, this`open, this`outstanding, this`others, this`writes, bc
      ensures Valid() && !r.TooBig? && block == old(block)
      ensures r.Done? ==> Ready(p) && rest == {} && bc.latest == old(bc.latest) && bc.disk == bc.latest
      ensures r.Panic? ==> Crowded()
      ensures var all := old(writes) + ToHomes(old(bc.latest), dev, block, |block|);
        old(writes) <= writes <= all && (r.Done? ==> writes == all)
      ensures (Alone(p, old(Now())) && |old(rest)| < NBUF ==> r.Done?) && (r.Done? ==> Stays(p, old(Now()), Now()))
      ensures r.Sleeps? ==> !Alone(p, old(Now()))
    {
      r := InstallLoop(p);
      if r.Done? { AllInstalled(); }
    }

    // log.lh.n = 0
    method Erase()
      requires Valid() && rest == {}
      modifies this`block
      ensures Valid() && block == []
    {
      assert ViewOk(Sight());
      block := [];
      assert ViewOk(Sight());
    }

    // no committed transaction is in the log
    ghost predicate Clean()
      reads this, bc
    {
      Content(bc.disk, Key(dev, start)) == Header([])
    }

    // What recovery makes of the disk after the first m writes, if n were made before a commit of
    // list: the disk before the commit, with the new contents from the commit point on.
    ghost predicate SafeAt(n: int, m: int, latest: map<Key, seq<int>>, list: seq<int>)
      reads this
    {
      && 0 <= n <= m <= |writes|
      && Recovers(After(first, writes[..n]), latest, dev, start, list, Recovered(After(first, writes[..m]), dev, start),
        m <= n + |list|)
    }

    lemma CommitSafe(before: seq<Wrote>, latest: map<Key, seq<int>>, list: seq<int>)
      requires |list| <= LOGSIZE && ListHome(start, list)
        && Content(After(first, before), Key(dev, start)) == Header([])
      requires before <= writes <= before + CommitWrites(latest, dev, start, list)
      ensures forall m :: |before| <= m <= |writes| ==> SafeAt(|before|, m, latest, list)
    {
      forall m | |before| <= m <= |writes| ensures SafeAt(|before|, m, latest, list) {
        PartCrash(first, before, writes, latest, dev, start, list, m);
      }
    }

    lemma ListedHome()
      requires Valid()
      ensures |block| <= LOGSIZE && ListHome(start, block)
    {
      assert ViewOk(Sight());
      forall i | 0 <= i < |block| ensures Home(start, block[i]) { assert block[i] in block; }
    }

    // commit
    method CommitSteps(p: int) returns (r: Outcome)
      requires Ready(p) && Logging()
      modifies this`block, this`rest, this`open, this`outstanding, this`others, this`writes, bc
      ensures Valid() && !r.TooBig?
      ensures r.Done? ==> Ready(p) && block == [] && rest == {} && bc.disk == bc.latest
      ensures r.Done? ==> SameHomes(old(bc.latest), bc.latest, dev, start)
      ensures r.Panic? ==> Crowded()
      ensures var all := old(writes) + CommitWrites(old(bc.latest), dev, start, old(block));
        old(writes) <= writes <= all && (r.Done? ==> writes == all)
      ensures |old(block)| == NBUF ==> r.Panic? && block == old(block)
      ensures Alone(p, old(Now())) ==> (r.Done? <==> |old(block)| < NBUF) && !r.Sleeps?
    {
      if |block| == 0 {
        AllInstalled();
        return Done;
      }
      r := WriteLog(p);
      WritesSplit(old(writes), writes, old(bc.latest), dev, start, block);
      if !r.Done? { return; }
      Counted();
      r := CommitWritten(p, old(bc.latest));
    }

    // commit, while others read: it panics only when the blocks still pinned and the buffers in
    // use are NBUF or more, always if NBUF blocks are logged, and without others only then. When
    // it goes through, every change is on the disk.
    // Wherever it stops, and after every one of its writes, a crash loses all of it or nothing.
    method Commit(p: int) returns (r: Outcome)
      requires Ready(p) && Logging()
      modifies this`block, this`rest, this`open, this`outstanding, this`others, this`writes, bc
      ensures Valid() && !r.TooBig?
      ensures r.Done? ==> Ready(p) && block == [] && rest == {} && bc.disk == bc.latest
      ensures r.Done? ==> SameHomes(old(bc.latest), bc.latest, dev, start)
      ensures r.Panic? ==> Crowded()
      ensures var all := old(writes) + CommitWrites(old(bc.latest), dev, start, old(block));
        old(writes) <= writes <= all && (r.Done? ==> writes == all)
      ensures old(Clean()) ==> forall m :: |old(writes)| <= m <= |writes| ==>
        SafeAt(|old(writes)|, m, old(bc.latest), old(block))
      ensures old(Clean()) && r.Done? ==> Clean()
      ensures |old(block)| == NBUF ==> r.Panic? && block == old(block)
      ensures Alone(p, old(Now())) ==> (r.Done? <==> |old(block)| < NBUF) && !r.Sleeps?
    {
      ListedHome();
      r := CommitSteps(p);
      if old(Clean()) {
        CommitSafe(old(writes), old(bc.latest), old(block));
        CommitClears(first, old(writes), old(bc.latest), dev, start, old(block));
      }
    }

    // The rest of a commit, from its first header write.
    method CommitWritten(p: int, ghost old0: map<Key, seq<int>>) returns (r: Outcome)
      requires Ready(p) && Logging() && Copied(bc.latest, dev, start, block, |block|)
        && SameHomes(old0, bc.latest, dev, start)
      modifies this`block, this`rest, this`open, this`outstanding, this`others, this`writes, bc
      ensures Valid() && !r.TooBig?
      ensures r.Done? ==>
        Ready(p) && block == [] && rest == {} && bc.disk == bc.latest && SameHomes(old0, bc.latest, dev, start)
      ensures r.Panic? ==> Crowded()
      ensures var all := old(writes) + SecondHalf(old0, dev, start, old(block));
        old(writes) <= writes <= all && (r.Done? ==> writes == all)
      ensures Alone(p, old(Now())) && |old(rest)| < NBUF ==> r.Done?
      ensures r.Sleeps? ==> !Alone(p, old(Now()))
    {
      ghost var v, l := Sight(), bc.latest;
      r := WriteHead(p);
      if !r.Done? { return; }
      HeadKept(v, l, bc.latest, old0, Header(block));
      SecondJoin(old(writes), old0, dev, start, block);
      r := CommitInstalled(p, old0);
    }

    // And from there.
    method CommitInstalled(p: int, ghost old0: map<Key, seq<int>>) returns (r: Outcome)
      requires Ready(p) && Logging() && Copied(bc.latest, dev, start, block, |block|)
        && SameHomes(old0, bc.latest, dev, start)
      modifies this`block, this`rest, this`open, this`outstanding, this`others, this`writes, bc
      ensures Valid() && !r.TooBig?
      ensures r.Done? ==>
        Ready(p) && block == [] && rest == {} && bc.disk == bc.latest && SameHomes(old0, bc.latest, dev, start)
      ensures r.Panic? ==> Crowded()
      ensures var all := old(writes) + ToHomes(old0, dev, old(block), |old(block)|)
          + [Wrote(Key(dev, start), Header([]))];
        old(writes) <= writes <= all && (r.Done? ==> writes == all)
      ensures Alone(p, old(Now())) && |old(rest)| < NBUF ==> r.Done?
      ensures r.Sleeps? ==> !Alone(p, old(Now()))
    {
      SameWrites(Sight(), old0, bc.latest, |block|);
      r := Install(p);
      if !r.Done? { return; }
      Erase();
      r := ClearHead(p, old0);
    }

    method ClearHead(p: int, ghost old0: map<Key, seq<int>>) returns (r: Outcome)
      requires Ready(p) && block == [] && rest == {} && SameHomes(old0, bc.latest, dev, start)
      modifies this`block, this`rest, this`open, this`outstanding, this`others, this`writes, bc
      ensures Valid() && !r.TooBig?
      ensures r.Done? ==>
        Ready(p) && block == [] && rest == {} && bc.disk == bc.latest && SameHomes(old0, bc.latest, dev, start)
      ensures r.Panic? ==> Crowded()
      ensures writes == old(writes) + if r.Done? then [Wrote(Key(dev, start), Header([]))] else []
      ensures Alone(p, old(Now())) ==> r.Done?
    {
      ghost var v, l := Sight(), bc.latest;
      r := WriteHead(p);
      if !r.Done? { return; }
      HeadKept(v, l, bc.latest, old0, Header(block));
      AllInstalled();
    }

    // end_op: the last operation commits
    method EndOp(p: int) returns (r: Outcome)
      requires Valid() && p != NONE && Hands(p) == Empty() && outstanding > 0 && (outstanding == 1 ==> open == {})
      modifies this`block, this`rest, this`open, this`outstanding, this`others, this`writes, bc
      ensures Valid() && !r.TooBig?
      ensures old(outstanding) > 1 ==>
        r.Done? && outstanding == old(outstanding) - 1 && block == old(block) && rest == old(rest)
      ensures old(outstanding) > 1 ==> bc.Now() == old(bc.Now()) && others == old(others) && open == old(open)
      ensures old(outstanding) == 1 && r.Done? ==>
        block == [] && bc.disk == bc.latest && SameHomes(old(bc.latest), bc.latest, dev, start)
      ensures r.Panic? ==> Crowded()
      ensures old(outstanding) > 1 ==> writes == old(writes)
      ensures old(outstanding) == 1 && r.Done? ==>
        writes == old(writes) + CommitWrites(old(bc.latest), dev, start, old(block))
      ensures old(outstanding) == 1 && old(Clean()) ==> forall m :: |old(writes)| <= m <= |writes| ==>
        SafeAt(|old(writes)|, m, old(bc.latest), old(block))
      ensures old(Clean()) && r.Done? ==> Clean()
      ensures old(outstanding) == 1 && |old(block)| == NBUF ==> r.Panic? && block == old(block)
      ensures Alone(p, old(Now())) ==> (r.Done? <==> old(outstanding) > 1 || |old(block)| < NBUF)
    {
      outstanding := outstanding - 1;
      if outstanding > 0 { return Done; }
      r := Commit(p);
    }
  }

  lemma OpenSettled(s: State, v: View, k: Key, d: seq<int>)
    requires Settled(s.disk, s.latest, v.dev, v.rest, v.open) && k in s.latest
    ensures Settled(s.disk, s.latest[k := d], v.dev, v.rest, v.open + {k})
  {
    SettledStep(s.disk, s.latest, s.disk, s.latest[k := d], v.dev, v.rest, v.rest, v.open, v.open + {k}, k);
  }

  lemma LoggedSettled(s: State, v: View, x: int)
    requires Settled(s.disk, s.latest, v.dev, v.rest, v.open)
    ensures Settled(s.disk, s.latest, v.dev, v.rest + {x}, v.open - {Key(v.dev, x)})
  {
    SettledStep(s.disk, s.latest, s.disk, s.latest, v.dev, v.rest, v.rest + {x}, v.open, v.open - {Key(v.dev, x)},
      Key(v.dev, x));
  }

  // The operations log blocks LOGSIZE + 1 to LOGSIZE + NBUF.
  method Fill(lg: BufLog, p: int)
    requires p != NONE && lg.Valid() && lg.Hands(p) == Empty() && Alone(p, lg.Now()) && lg.open == {}
    requires lg.outstanding == 3 && lg.dev == 1 && lg.start == 0 && lg.block == []
    requires forall x :: 0 <= x <= LOGSIZE + NBUF ==> Key(1, x) in lg.bc.disk
    modifies lg, lg.bc
    ensures lg.Valid() && lg.Hands(p) == Empty() && Alone(p, lg.Now()) && lg.open == {} && lg.outstanding == 3
      && |lg.block| == NBUF
  {
    var n := 0;
    while n < NBUF
      invariant 0 <= n <= NBUF && lg.Valid() && lg.Hands(p) == Empty() && Alone(p, lg.Now()) && lg.open == {}
      invariant lg.outstanding == 3 && |lg.block| == n
      invariant lg.bc.disk == old(lg.bc.disk) && forall x :: x in lg.block ==> x <= LOGSIZE + n
    {
      lg.Counted();
      lg.LogCrowd(p, LOGSIZE + 1 + n);
      var r := lg.Update(p, LOGSIZE + 1 + n, [n]);
      n := n + 1;
    }
  }

  // The log full: three operations, as begin_op admits them, log ten blocks each. The cache is
  // then full of pinned blocks and the last end_op's commit finds no buffer for its log blocks.
  method FullLog(p: int) returns (lg: BufLog, r: Outcome)
    requires p != NONE
    ensures lg.Valid() && |lg.block| == NBUF && r.Panic?
  {
    var disk := map i | 0 <= i <= LOGSIZE + NBUF :: Key(1, i) := [];
    var bc := new Bcache(disk);
    lg := new BufLog(bc, 1, 0, []);
    NoHands(p, bc.bufs, bc.users, lg.open);
    var a1 := lg.BeginOp();
    var a2 := lg.BeginOp();
    var a3 := lg.BeginOp();
    Fill(lg, p);
    r := lg.EndOp(p);
    r := lg.EndOp(p);
    r := lg.EndOp(p);
  }
}
