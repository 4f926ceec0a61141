/**
 proc.c's table scans as code: wakeup, reparent, exit, wait and fork. Each method
 is the path of one process p that nobody disturbs, and follows the machine of
 ProcMachine step by step; ProcTheorems covers the interleavings.
 */
module ProcCode {
  import opened ProcMachine
  import opened ProcProofs
  import opened ProcTheorems

  ghost predicate Sound(s: Sys) { Inv(s) }

  datatype WaitResult = Reaped(pid: int, status: int) | CopyFailed | NoChild | Asleep

  // x' is process x, runnable if it was asleep and due to wake.
  ghost predicate Roused(x: Proc, x': Proc, due: bool) {
    x' == if x.st == Sleeping && due then x.(st := Runnable) else x
  }

  // procs' is procs with everybody but p woken from chan, and p at pc.
  ghost predicate WokenAll(procs: seq<Proc>, procs': seq<Proc>, p: int, chan: int, pc: Pc) {
    && |procs| == |procs'| == NPROC && Index(p)
    && procs'[p] == procs[p].(pc := pc)
    && forall j :: 0 <= j < NPROC && j != p ==> Roused(procs[j], procs'[j], procs[j].chan == chan)
  }

  // The same, up to process j.
  ghost predicate WokenTo(procs: seq<Proc>, procs': seq<Proc>, p: int, chan: int, pc: Pc, j: int) {
    && |procs| == |procs'| == NPROC && Index(p)
    && procs'[p] == procs[p].(pc := pc)
    && forall i :: 0 <= i < NPROC && i != p ==> Roused(procs[i], procs'[i], i < j && procs[i].chan == chan)
  }

  // where p is in a wakeup that has come to j: for child k, or for its parent
  ghost function WakePc(k: int, j: int): (pc: Pc) { if k == NONE then ExitWake(j) else ExitWakeInit(k, j) }

  ghost predicate HasChild(procs: seq<Proc>, p: int, k: int) {
    |procs| == NPROC && exists c :: 0 <= c < k && c < NPROC && procs[c].parent == p
  }

  // Process x with its parent replaced by init if that is p and it is its turn.
  ghost function Given(x: Proc, p: int, turn: bool): (x': Proc) {
    x.(parent := if x.parent == p && turn then INIT else x.parent)
  }

  // procs' is procs after reparent(p) has come to k: p's children so far belong to init, who sleeps
  // on init is woken if there was one, and p is at pc.
  ghost predicate AdoptedTo(procs: seq<Proc>, procs': seq<Proc>, p: int, pc: Pc, k: int) {
    && |procs| == |procs'| == NPROC && Index(p) && procs[p].parent != p
    && procs'[p] == procs[p].(pc := pc)
    && forall c :: 0 <= c < NPROC && c != p ==>
      Roused(Given(procs[c], p, c < k), procs'[c], procs[c].chan == INIT && HasChild(procs, p, k))
  }

  lemma AdoptedWoken(procs: seq<Proc>, a: seq<Proc>, c: seq<Proc>, p: int, k: int)
    requires Index(k) && k != p && p != INIT && AdoptedTo(procs, a, p, ExitScan(k), k) && a[k].parent == p
    requires WokenAll(a[k := a[k].(parent := INIT)], c, p, INIT, ExitWakeInit(k, NPROC))
    ensures AdoptedTo(procs, c, p, ExitWakeInit(k, NPROC), k + 1)
  {
    assert procs[k].parent == p by { assert Roused(Given(procs[k], p, false), a[k], a[k].st != procs[k].st); }
    assert HasChild(procs, p, k + 1);
    var b := a[k := a[k].(parent := INIT)];
    forall j | 0 <= j < NPROC && j != p
      ensures Roused(Given(procs[j], p, j < k + 1), c[j], procs[j].chan == INIT)
    {
      assert Roused(Given(procs[j], p, j < k), a[j], procs[j].chan == INIT && HasChild(procs, p, k));
      assert Roused(b[j], c[j], b[j].chan == INIT);
    }
  }

  lemma AdoptedPass(procs: seq<Proc>, a: seq<Proc>, p: int, k: int)
    requires Index(k) && AdoptedTo(procs, a, p, ExitWakeInit(k, NPROC), k + 1)
    ensures AdoptedTo(procs, a[p := a[p].(pc := ExitScan(k + 1))], p, ExitScan(k + 1), k + 1)
  {
  }

  lemma AdoptedOther(procs: seq<Proc>, a: seq<Proc>, p: int, k: int)
    requires Index(k) && AdoptedTo(procs, a, p, ExitScan(k), k) && a[k].parent != p
    ensures AdoptedTo(procs, a[p := a[p].(pc := ExitScan(k + 1))], p, ExitScan(k + 1), k + 1)
  {
    assert procs[k].parent != p by {
      if k != p { assert Roused(Given(procs[k], p, false), a[k], procs[k].chan == INIT && HasChild(procs, p, k)); }
    }
    assert HasChild(procs, p, k + 1) <==> HasChild(procs, p, k);
    forall c | 0 <= c < NPROC && c != p
      ensures Roused(Given(procs[c], p, c < k + 1), a[c], procs[c].chan == INIT && HasChild(procs, p, k + 1))
    {
      assert Roused(Given(procs[c], p, c < k), a[c], procs[c].chan == INIT && HasChild(procs, p, k));
    }
  }

  // What reparent and the wakeup of p's parent q have done together.
  lemma ExitEffect(procs: seq<Proc>, a: seq<Proc>, b: seq<Proc>, p: int, q: int)
    requires AdoptedTo(procs, a, p, ExitScan(NPROC), NPROC)
    requires WokenAll(a[p := a[p].(pc := ExitWake(0))], b, p, q, ExitWake(NPROC))
    ensures forall c :: 0 <= c < NPROC && c != p ==> Roused(Given(procs[c], p, true), b[c],
      procs[c].chan == q || (procs[c].chan == INIT && HasChild(procs, p, NPROC)))
    ensures b[p] == procs[p].(pc := ExitWake(NPROC))
  {
    forall c | 0 <= c < NPROC && c != p
      ensures Roused(Given(procs[c], p, true), b[c],
        procs[c].chan == q || (procs[c].chan == INIT && HasChild(procs, p, NPROC)))
    {
      assert Roused(Given(procs[c], p, true), a[c], procs[c].chan == INIT && HasChild(procs, p, NPROC));
      assert Roused(a[c], b[c], a[c].chan == q);
    }
  }

  // k is the first child of p in the table that is a zombie
  ghost predicate FirstZombie(procs: seq<Proc>, p: int, k: int) {
    && |procs| == NPROC && 0 <= k < NPROC && procs[k].parent == p && procs[k].st == Zombie
    && forall c :: 0 <= c < k && procs[c].parent == p ==> procs[c].st != Zombie
  }

  ghost predicate NoZombies(procs: seq<Proc>, p: int) {
    |procs| == NPROC && forall c :: 0 <= c < NPROC && procs[c].parent == p ==> procs[c].st != Zombie
  }

  // A change of p's own place does not matter to the scan of its children.
  lemma SameChildren(a: seq<Proc>, b: seq<Proc>, p: int)
    requires |a| == |b| == NPROC && Index(p) && b == a[p := b[p]] && b[p] == a[p].(pc := b[p].pc)
    ensures NoZombies(a, p) <==> NoZombies(b, p)
    ensures HasChild(a, p, NPROC) <==> HasChild(b, p, NPROC)
    ensures forall k :: FirstZombie(b, p, k) ==> FirstZombie(a, p, k)
  {
    forall c | 0 <= c < NPROC ensures a[c].parent == b[c].parent && a[c].st == b[c].st {}
  }

  class ProcTable {
    var procs: seq<Proc>
    var lock: int
    var nextpid: int

    ghost var m: Sys     // the machine this code follows

    ghost predicate Valid()
      reads this
    {
      && |procs| == NPROC && m.procs == procs && m.lock == lock && m.nextpid == nextpid > 0
      && forall s :: s == m ==> Sound(s)
    }

    // procinit and userinit: init is the only process
    constructor ()
      ensures Valid() && lock == NONE && procs[INIT].st == Runnable && procs[INIT].pid == 1
      ensures forall c :: 0 <= c < NPROC && c != INIT ==> procs[c] == Proc(Unused, NONE, NONE, 0, 0, false, User)
    {
      procs := seq(NPROC, i => if i == INIT then FREE.(st := Runnable, pid := 1) else FREE);
      lock, nextpid := NONE, 2;
      m := Sys(seq(NPROC, i => if i == INIT then FREE.(st := Runnable, pid := 1) else FREE), NONE, 2, map[], {});
      new;
      assert m.procs == procs;
      InitialInv(m);
      assert Sound(m);
    }

    ghost method Take(a: Action, s': Sys)
      requires (forall s :: s == m ==> Sound(s)) && Enabled(m, a) && s' == Apply(m, a)
      modifies this`m
      ensures m == s' && forall s :: s == m ==> Sound(s)
    {
      assert Sound(m);
      ApplyKeeps(m, a);
      m := s';
      assert Sound(m);
    }

    // wakeup(chan) by anybody, on a channel that is no process; p is the caller, NONE in an
    // interrupt.
    method WakeupElsewhere(p: int, chan: int)
      requires Valid() && chan >= NPROC
      modifies this`procs, this`m
      ensures Valid() && forall j :: 0 <= j < NPROC ==>
        Roused(old(procs)[j], procs[j], j != p && old(procs)[j].chan == chan)
      ensures m.exits == old(m.exits) && m.reaped == old(m.reaped)
    {
      for j := 0 to NPROC
        invariant Valid() && m.exits == old(m.exits) && m.reaped == old(m.reaped)
        invariant forall i :: 0 <= i < NPROC ==>
          Roused(old(procs)[i], procs[i], i < j && i != p && old(procs)[i].chan == chan)
      {
        if j != p && procs[j].st == Sleeping && procs[j].chan == chan {
          ghost var s := m;
          procs := procs[j := procs[j].(st := Runnable)];
          Take(WakeElsewhere(j), s.(procs := procs));
        }
      }
    }

    // wakeup(chan), called by p in exit: for init when child k was given to it, or for p's parent.
    method WakeupInExit(p: int, chan: int, ghost k: int)
      requires Valid() && Index(p) && procs[p].st == Running && procs[p].pc == WakePc(k, 0) && k >= NONE
      requires chan == if k == NONE then procs[p].parent else INIT
      modifies this`procs, this`m
      ensures Valid() && WokenAll(old(procs), procs, p, chan, WakePc(k, NPROC))
      ensures m.exits == old(m.exits) && m.reaped == old(m.reaped)
    {
      for j := 0 to NPROC
        invariant Valid() && WokenTo(old(procs), procs, p, chan, WakePc(k, j), j)
        invariant m.exits == old(m.exits) && m.reaped == old(m.reaped)
      {
        ghost var s := m;
        if j != p && procs[j].st == Sleeping && procs[j].chan == chan {
          procs := procs[j := procs[j].(st := Runnable)];
        }
        procs := procs[p := procs[p].(pc := if procs[p].pc.ExitWake? then ExitWake(j + 1)
          else ExitWakeInit(procs[p].pc.k, j + 1))];
        assert ExitNext(s, p).procs == procs;
        Take(ExitStep(p), s.(procs := procs));
      }
    }

    // Child k of p goes to init, which is woken.
    method GiveToInit(p: int, k: int)
      requires Valid() && Index(p) && procs[p].st == Running && procs[p].pc == ExitScan(k) && Index(k)
        && procs[k].parent == p
      modifies this`procs, this`m
      ensures Valid() && k != p
        && WokenAll(old(procs)[k := old(procs)[k].(parent := INIT)], procs, p, INIT, ExitWakeInit(k, NPROC))
      ensures m.exits == old(m.exits) && m.reaped == old(m.reaped)
    {
      ghost var s := m;
      NotOwnChild(p);
      procs := procs[k := procs[k].(parent := INIT)];
      procs := procs[p := procs[p].(pc := ExitWakeInit(k, 0))];
      Take(ExitStep(p), s.(procs := procs));
      WakeupInExit(p, INIT, k);
    }

    // reparent's loop goes on to the next entry
    method PassChild(p: int, k: int)
      requires Valid() && Index(p) && procs[p].st == Running && Index(k)
      requires (procs[p].pc == ExitScan(k) && procs[k].parent != p) || procs[p].pc == ExitWakeInit(k, NPROC)
      modifies this`procs, this`m
      ensures Valid() && procs == old(procs)[p := old(procs)[p].(pc := ExitScan(k + 1))]
      ensures m.exits == old(m.exits) && m.reaped == old(m.reaped)
    {
      ghost var s := m;
      procs := procs[p := procs[p].(pc := ExitScan(k + 1))];
      assert ExitNext(s, p).procs == procs;
      Take(ExitStep(p), s.(procs := procs));
    }

    // reparent(p), called by p in exit: afterwards p has no child.
    method Reparent(p: int)
      requires Valid() && Index(p) && p != INIT && procs[p].st == Running && procs[p].pc == ExitScan(0)
      modifies this`procs, this`m
      ensures Valid() && AdoptedTo(old(procs), procs, p, ExitScan(NPROC), NPROC)
      ensures m.exits == old(m.exits) && m.reaped == old(m.reaped)
    {
      NotOwnChild(p);
      for k := 0 to NPROC
        invariant Valid() && AdoptedTo(old(procs), procs, p, ExitScan(k), k)
        invariant m.exits == old(m.exits) && m.reaped == old(m.reaped)
      {
        ghost var a := procs;
        if procs[k].parent == p {
          GiveToInit(p, k);
          AdoptedWoken(old(procs), a, procs, p, k);
          AdoptedPass(old(procs), procs, p, k);
        } else {
          AdoptedOther(old(procs), a, p, k);
        }
        PassChild(p, k);
      }
    }

    lemma NotOwnChild(p: int)
      requires Valid() && Index(p)
      ensures procs[p].parent != p
    {
      assert Sound(m);
      assert Two(m, p, p);
    }

    // exit(status) of p: it becomes a zombie without children, whose parent is not asleep in wait.
    method Exit(p: int, status: int)
      requires Valid() && Index(p) && p != INIT && procs[p].st == Running && procs[p].pc == User && lock == NONE
      modifies this`procs, this`lock, this`m
      ensures Valid() && lock == NONE && procs[p] == old(procs)[p].(st := Zombie, xstate := status, pc := Dead)
      ensures Index(procs[p].parent) && !Waits(procs[procs[p].parent])
      ensures forall c :: 0 <= c < NPROC && c != p ==>
        procs[c].parent == (if old(procs)[c].parent == p then INIT else old(procs)[c].parent)
        && procs[c] == old(procs)[c].(parent := procs[c].parent, st := procs[c].st)
      ensures forall c :: 0 <= c < NPROC && c != p ==> (procs[c].st == Runnable && old(procs)[c].st != Runnable <==>
        old(procs)[c].st == Sleeping && (old(procs)[c].chan == old(procs)[p].parent
          || (old(procs)[c].chan == INIT && HasChild(old(procs), p, NPROC))))
      ensures forall c :: 0 <= c < NPROC && c != p ==> procs[c].st == old(procs)[c].st || procs[c].st == Runnable
      ensures m.exits == old(m.exits)[procs[p].pid := status] && m.reaped == old(m.reaped)
    {
      ghost var s := m;
      NotOwnChild(p);
      lock := p;
      procs := procs[p := procs[p].(pc := ExitScan(0))];
      Take(ExitBegin(p), s.(procs := procs, lock := p));
      ghost var first := procs;
      Reparent(p);
      ghost var adopted := procs;
      s := m;
      procs := procs[p := procs[p].(pc := ExitWake(0))];
      Take(ExitStep(p), s.(procs := procs));
      WakeupInExit(p, procs[p].parent, NONE);
      ExitEffect(first, adopted, procs, p, first[p].parent);
      s := m;
      procs := procs[p := procs[p].(pc := ExitDone)];
      Take(ExitStep(p), s.(procs := procs));
      s := m;
      procs := procs[p := procs[p].(st := Zombie, xstate := status, pc := Dead)];
      lock := NONE;
      Take(ExitEnd(p, status), s.(procs := procs, lock := NONE, exits := s.exits[procs[p].pid := status]));
      ZombieFacts(p);
    }

    lemma ZombieFacts(p: int)
      requires Valid() && Index(p) && p != INIT && procs[p].st == Zombie && lock == NONE
      ensures Index(procs[p].parent) && !Waits(procs[procs[p].parent])
    {
      assert Sound(m);
      assert One(m, p);
      assert Two(m, procs[p].parent, p);
    }

    // wait's scan of the table: the first zombie child, NPROC if there is none; kids says whether
    // there is a child among those passed.
    method Scan(p: int) returns (k: int, kids: bool)
      requires Valid() && Index(p) && procs[p].st == Running && procs[p].pc == WaitScan(0, false) && lock == p
      modifies this`procs, this`m
      ensures Valid() && procs == old(procs)[p := old(procs)[p].(pc := WaitScan(k, kids))] && m.exits == old(m.exits)
      ensures 0 <= k <= NPROC && (k < NPROC ==> FirstZombie(old(procs), p, k))
      ensures k == NPROC ==> NoZombies(old(procs), p) && (kids <==> HasChild(old(procs), p, NPROC))
    {
      k, kids := 0, false;
      while k < NPROC
        invariant 0 <= k <= NPROC && Valid() && lock == p
          && procs == old(procs)[p := old(procs)[p].(pc := WaitScan(k, kids))]
        invariant forall c :: 0 <= c < k && old(procs)[c].parent == p ==> old(procs)[c].st != Zombie
        invariant kids <==> HasChild(old(procs), p, k)
        invariant m.exits == old(m.exits)
      {
        NotOwnChild(p);
        if procs[k].parent == p {
          if procs[k].st == Zombie {
            return;
          }
          kids := true;
        }
        procs := procs[p := procs[p].(pc := WaitScan(k + 1, kids))];
        Take(WaitStep(p, false), m.(procs := procs));
        k := k + 1;
      }
    }

    // wait(addr) of p, up to its return or the sleep that waits for a child; copied says whether
    // the status could be copied out. kid is the zombie it found, if any.
    method Wait(p: int, copied: bool) returns (r: WaitResult, ghost kid: int)
      requires Valid() && Index(p) && procs[p].st == Running && (procs[p].pc == User || procs[p].pc == WaitSleep)
        && lock == NONE
      modifies this`procs, this`lock, this`m
      ensures Valid() && lock == NONE
      ensures r.Reaped? || r == CopyFailed ==> FirstZombie(old(procs), p, kid)
      ensures r.Reaped? ==> r == Reaped(old(procs)[kid].pid, old(procs)[kid].xstate)
      ensures r.Reaped? ==>
        procs == old(procs)[kid := Proc(Unused, NONE, NONE, 0, 0, false, User)][p := old(procs)[p].(pc := User)]
      ensures r.Reaped? ==> r.pid in old(m.exits) && old(m.exits)[r.pid] == r.status
      ensures r == CopyFailed || r == NoChild ==> procs == old(procs)[p := old(procs)[p].(pc := User)]
      ensures r == NoChild || r == Asleep ==> NoZombies(old(procs), p)
      ensures r == NoChild ==> old(procs)[p].killed || !HasChild(old(procs), p, NPROC)
      ensures r == Asleep ==> !old(procs)[p].killed && HasChild(old(procs), p, NPROC)
      ensures r == Asleep ==> procs == old(procs)[p := old(procs)[p].(st := Sleeping, chan := p, pc := WaitSleep)]
    {
      NotOwnChild(p);
      lock := p;
      procs := procs[p := procs[p].(pc := WaitScan(0, false))];
      Take(WaitBegin(p), m.(procs := procs, lock := p));
      SameChildren(old(procs), procs, p);
      var k, kids := Scan(p);
      kid := k;
      if k < NPROC {
        r := Reap(p, k, copied);
        return;
      }
      r := GiveUpOrSleep(p, kids);
    }

    // wait has found no zombie.
    method GiveUpOrSleep(p: int, kids: bool) returns (r: WaitResult)
      requires Valid() && Index(p) && procs[p].st == Running && procs[p].pc == WaitScan(NPROC, kids) && lock == p
      modifies this`procs, this`lock, this`m
      ensures Valid() && lock == NONE && r == if !kids || old(procs)[p].killed then NoChild else Asleep
      ensures procs == old(procs)[p := if r == NoChild then old(procs)[p].(pc := User)
        else old(procs)[p].(st := Sleeping, chan := p, pc := WaitSleep)]
    {
      lock := NONE;
      if !kids || procs[p].killed {
        procs := procs[p := procs[p].(pc := User)];
        Take(WaitEnd(p), m.(procs := procs, lock := NONE));
        return NoChild;
      }
      procs := procs[p := procs[p].(st := Sleeping, chan := p, pc := WaitSleep)];
      Take(WaitEnd(p), m.(procs := procs, lock := NONE));
      r := Asleep;
    }

    // wait has found child k to be a zombie.
    method Reap(p: int, k: int, copied: bool) returns (r: WaitResult)
      requires Valid() && Index(p) && procs[p].st == Running && procs[p].pc.WaitScan? && procs[p].pc.k == k && lock == p
      requires Index(k) && k != p && procs[k].parent == p && procs[k].st == Zombie
      modifies this`procs, this`lock, this`m
      ensures Valid() && lock == NONE
      ensures copied ==>
        r == Reaped(old(procs)[k].pid, old(procs)[k].xstate)
        && procs == old(procs)[k := Proc(Unused, NONE, NONE, 0, 0, false, User)][p := old(procs)[p].(pc := User)]
      ensures copied ==>
        r.pid in old(m.exits) && old(m.exits)[r.pid] == r.status && r.pid !in old(m.reaped) && r.pid in m.reaped
      ensures !copied ==> r == CopyFailed && procs == old(procs)[p := old(procs)[p].(pc := User)]
    {
      assert One(m, k) by { assert Sound(m); }
      ghost var s := m;
      if !copied {
        procs := procs[p := procs[p].(pc := User)];
        lock := NONE;
        Take(WaitStep(p, false), s.(procs := procs, lock := NONE));
        return CopyFailed;
      }
      r := Reaped(procs[k].pid, procs[k].xstate);
      procs := procs[k := FREE];
      procs := procs[p := procs[p].(pc := User)];
      lock := NONE;
      Take(WaitStep(p, true), s.(procs := procs, lock := NONE, reaped := s.reaped + {r.pid}));
    }

    // allocproc's search: the first slot that is not used, NPROC if there is none.
    method FindUnused() returns (n: int)
      requires Valid()
      ensures 0 <= n <= NPROC && (n < NPROC ==> procs[n].st == Unused)
      ensures forall c :: 0 <= c < n ==> procs[c].st != Unused
    {
      n := 0;
      while n < NPROC
        invariant 0 <= n <= NPROC && forall c :: 0 <= c < n ==> procs[c].st != Unused
      {
        if procs[n].st == Unused {
          return;
        }
        n := n + 1;
      }
    }

    // fork by p: the pid of the child n, -1 if there is no slot or its memory cannot be copied.
    method Fork(p: int, copied: bool) returns (pid: int, n: int)
      requires Valid() && Index(p) && procs[p].st == Running && procs[p].pc == User && lock == NONE
      modifies this`procs, this`nextpid, this`m
      ensures Valid() && 0 <= n <= NPROC && (n < NPROC ==> old(procs)[n].st == Unused)
      ensures forall c :: 0 <= c < n ==> old(procs)[c].st != Unused
      ensures n == NPROC ==> pid == -1 && procs == old(procs) && nextpid == old(nextpid)
      ensures n < NPROC && !copied ==>
        && pid == -1 && nextpid == old(nextpid) + 1
        && procs == old(procs)[n := Proc(Unused, NONE, NONE, 0, 0, false, User)]
      ensures n < NPROC && copied ==>
        && pid == old(nextpid) && nextpid == pid + 1
        && procs == old(procs)[n := Proc(Runnable, NONE, p, pid, 0, false, User)]
    {
      n := FindUnused();
      if n == NPROC {
        return -1, n;
      }
      pid := nextpid;
      ghost var s := m;
      procs := procs[n := FREE.(st := Used, pid := pid)];
      procs := procs[p := procs[p].(pc := ForkParent(n))];
      nextpid := nextpid + 1;
      Take(ForkAlloc(p, n), s.(procs := procs, nextpid := nextpid));
      s := m;
      if !copied {
        procs := procs[n := FREE];
        procs := procs[p := procs[p].(pc := User)];
        Take(ForkAbort(p), s.(procs := procs));
        return -1, n;
      }
      procs := procs[n := procs[n].(parent := p)];
      procs := procs[p := procs[p].(pc := ForkRun(n))];
      Take(SetParent(p), s.(procs := procs));
      s := m;
      procs := procs[n := procs[n].(st := Runnable)];
      procs := procs[p := procs[p].(pc := User)];
      Take(Start(p), s.(procs := procs));
    }
  }
}
