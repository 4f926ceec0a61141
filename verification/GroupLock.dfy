/**
 grouplock.c: acquire and release of locks whose state is an element of Z/2Z, by any number
 of processes. One step is one atomic instruction or one plain memory access to a lock.
 */
module GroupLock {

  const NONE: int := -1

  // Addition in Z/2Z.
  function GroupAdd(a: int, b: int): (r: int)
    requires 0 <= a < 2 && 0 <= b < 2
    ensures 0 <= r < 2
  {
    (a + b) % 2
  }

  datatype Lock = Lock(state: int, holder: int)

  // Where a process is in grouplock.c; a process that is Idle may hold locks.
  datatype Pc =
    | Idle
    | Trying(id: int)                 // before acquire's compare-and-swap
    | Won(id: int)                    // after it, before holder_pid is set
    | Clearing(id: int)               // release, after the holder check
    | Adding(id: int)                 // before atomic_group_add reads the state
    | AddRead(id: int, expected: int) // before its compare-and-swap
    | Gone                            // the process has exited; exit releases no GroupLock

  // in a call of grouplock.c
  predicate InCall(pc: Pc) { pc != Idle && pc != Gone }

  // p is between acquire's compare-and-swap on lock id and the group addition of its release.
  datatype Hold = Hold(p: int, id: int)

  datatype Sys = Sys(locks: map<int, Lock>, pcs: map<int, Pc>, held: set<Hold>)

  datatype Action =
    | StartAcquire(p: int, id: int) | TryCas(p: int) | SetHolder(p: int)
    | StartRelease(p: int, id: int) | ClearHolder(p: int) | ReadState(p: int) | AddCas(p: int)
    | Quit(p: int)

  ghost predicate Enabled(s: Sys, a: Action) {
    && a.p in s.pcs
    && match a
      case StartAcquire(p, id) => s.pcs[p] == Idle && id in s.locks
      case TryCas(p) => s.pcs[p].Trying?
      case SetHolder(p) => s.pcs[p].Won?
      case StartRelease(p, id) => s.pcs[p] == Idle && id in s.locks
      case ClearHolder(p) => s.pcs[p].Clearing?
      case ReadState(p) => s.pcs[p].Adding?
      case AddCas(p) => s.pcs[p].AddRead?
      case Quit(p) => s.pcs[p] == Idle
  }

  function At(s: Sys, p: int, pc: Pc): (s': Sys) { s.(pcs := s.pcs[p := pc]) }

  function Set(s: Sys, id: int, l: Lock): (s': Sys) { s.(locks := s.locks[id := l]) }

  ghost function Apply(s: Sys, a: Action): (s': Sys)
    requires Enabled(s, a) && InRange(s)
  {
    var pc := s.pcs[a.p];
    match a
    case StartAcquire(p, id) => At(s, p, Trying(id))
    case TryCas(p) =>
      var l := s.locks[pc.id];
      if l.state == 0 then At(Set(s, pc.id, l.(state := 1)), p, Won(pc.id)).(held := s.held + {Hold(p, pc.id)}) else s
    case SetHolder(p) => At(Set(s, pc.id, s.locks[pc.id].(holder := p)), p, Idle)
    case StartRelease(p, id) => if s.locks[id].holder == p then At(s, p, Clearing(id)) else s
    case ClearHolder(p) => At(Set(s, pc.id, s.locks[pc.id].(holder := NONE)), p, Adding(pc.id))
    case ReadState(p) => At(s, p, AddRead(pc.id, s.locks[pc.id].state))
    case AddCas(p) =>
      var l := s.locks[pc.id];
      if l.state == pc.expected then
        At(Set(s, pc.id, l.(state := GroupAdd(l.state, 1))), p, Idle).(held := s.held - {Hold(p, pc.id)})
      else At(s, p, Adding(pc.id))
    case Quit(p) => At(s, p, Gone)
  }

  ghost predicate InRange(s: Sys) {
    && (forall i :: i in s.locks ==> 0 <= s.locks[i].state < 2)
    && (forall p :: p in s.pcs && InCall(s.pcs[p]) ==> s.pcs[p].id in s.locks)
  }

  // The holder is recorded, unless it is on its way in or out.
  ghost predicate Passing(pc: Pc, id: int) {
    pc == Won(id) || pc == Adding(id) || (pc.AddRead? && pc.id == id)
  }

  ghost predicate HoldOk(s: Sys, h: Hold) {
    && h.p in s.pcs && h.id in s.locks && s.locks[h.id].state == 1
    && s.locks[h.id].holder == if Passing(s.pcs[h.p], h.id) then NONE else h.p
  }

  ghost predicate PcOk(s: Sys, p: int)
    requires p in s.pcs
  {
    match s.pcs[p]
    case Won(id) => Hold(p, id) in s.held
    case Clearing(id) => Hold(p, id) in s.held
    case Adding(id) => Hold(p, id) in s.held
    case AddRead(id, e) => Hold(p, id) in s.held && e == 1
    case _ => true
  }

  // A lock is taken by at most one process, and exactly if its state is not the identity.
  ghost predicate LockOk(s: Sys, id: int)
    requires id in s.locks
  {
    && (s.locks[id].state == 0 <==> forall p :: Hold(p, id) !in s.held)
    && (s.locks[id].holder != NONE ==> Hold(s.locks[id].holder, id) in s.held)
  }

  ghost predicate Exclusive(s: Sys) {
    forall p, q, id :: Hold(p, id) in s.held && Hold(q, id) in s.held ==> p == q
  }

  ghost predicate Inv(s: Sys) {
    && InRange(s) && Exclusive(s) && NONE !in s.pcs
    && (forall h :: h in s.held ==> HoldOk(s, h))
    && (forall p :: p in s.pcs ==> PcOk(s, p))
    && (forall id :: id in s.locks ==> LockOk(s, id))
  }

  // ---------------------------------------------------------------------
  // A step of p on lock id that leaves the state and the set of holds alone.

  lemma QuietKeeps(s: Sys, p: int, id: int, l: Lock, pc: Pc)
    requires Inv(s) && p in s.pcs && id in s.locks && s.pcs[p] != Gone && pc != Gone
      && (s.pcs[p] == Idle || s.pcs[p].id == id) && (pc == Idle || pc.id == id)
    requires l.state == s.locks[id].state && (pc.AddRead? ==> pc.expected == 1)
    requires s.pcs[p] == Idle && pc != Trying(id) ==> Hold(p, id) in s.held && !Passing(pc, id)
    requires s.pcs[p] != Idle && pc != s.pcs[p] ==>
      Hold(p, id) in s.held && l.holder == if Passing(pc, id) then NONE else p
    requires s.pcs[p] == Idle || pc == s.pcs[p] ==> l == s.locks[id]
    ensures Inv(At(Set(s, id, l), p, pc))
  {
    var s' := At(Set(s, id, l), p, pc);
    assert PcOk(s, p) && LockOk(s, id);
    forall h | h in s'.held ensures HoldOk(s', h) {
      assert HoldOk(s, h);
    }
    forall q | q in s'.pcs ensures PcOk(s', q) {
      assert PcOk(s, q);
    }
    forall i | i in s'.locks ensures LockOk(s', i) {
      assert LockOk(s, i);
    }
  }

  lemma QuitKeeps(s: Sys, p: int)
    requires Inv(s) && p in s.pcs && s.pcs[p] == Idle
    ensures Inv(At(s, p, Gone))
  {
    var s' := At(s, p, Gone);
    forall h | h in s'.held ensures HoldOk(s', h) { assert HoldOk(s, h); }
    forall q | q in s'.pcs ensures PcOk(s', q) { assert PcOk(s, q); }
    forall i | i in s'.locks ensures LockOk(s', i) { assert LockOk(s, i); }
  }

  lemma SameSys(s: Sys, id: int)
    requires id in s.locks
    ensures Set(s, id, s.locks[id]) == s
  {
    assert s.locks[id := s.locks[id]] == s.locks;
  }

  // The compare-and-swap that takes the lock.
  lemma TakeKeeps(s: Sys, p: int, id: int)
    requires Inv(s) && p in s.pcs && s.pcs[p] == Trying(id) && id in s.locks && s.locks[id].state == 0
    ensures Inv(At(Set(s, id, s.locks[id].(state := 1)), p, Won(id)).(held := s.held + {Hold(p, id)}))
  {
    var s' := At(Set(s, id, s.locks[id].(state := 1)), p, Won(id)).(held := s.held + {Hold(p, id)});
    assert LockOk(s, id);
    forall h | h in s'.held ensures HoldOk(s', h) { assert h in s.held ==> HoldOk(s, h); }
    forall q | q in s'.pcs ensures PcOk(s', q) { assert PcOk(s, q); }
    forall i | i in s'.locks ensures LockOk(s', i) { assert LockOk(s, i); }
  }

  // The group addition that gives it back.
  lemma GiveKeeps(s: Sys, p: int, id: int)
    requires Inv(s) && p in s.pcs && s.pcs[p] == AddRead(id, 1) && id in s.locks && s.locks[id].state == 1
    ensures Inv(At(Set(s, id, s.locks[id].(state := 0)), p, Idle).(held := s.held - {Hold(p, id)}))
  {
    var s' := At(Set(s, id, s.locks[id].(state := 0)), p, Idle).(held := s.held - {Hold(p, id)});
    assert LockOk(s, id) && PcOk(s, p) && HoldOk(s, Hold(p, id));
    forall h | h in s'.held ensures HoldOk(s', h) { assert HoldOk(s, h); }
    forall q | q in s'.pcs ensures PcOk(s', q) { assert PcOk(s, q); }
    forall i | i in s'.locks ensures LockOk(s', i) { assert LockOk(s, i); }
  }

  lemma ApplyKeeps(s: Sys, a: Action)
    requires Inv(s) && Enabled(s, a)
    ensures Inv(Apply(s, a))
  {
    if a.Quit? {
      QuitKeeps(s, a.p);
    } else {
      CallKeeps(s, a);
    }
  }

  lemma CallKeeps(s: Sys, a: Action)
    requires Inv(s) && Enabled(s, a) && !a.Quit?
    ensures Inv(Apply(s, a))
  {
    var p := a.p;
    var pc := s.pcs[p];
    assert PcOk(s, p);
    var id := if a.StartAcquire? || a.StartRelease? then a.id else pc.id;
    assert LockOk(s, id);
    if Hold(p, id) in s.held { assert HoldOk(s, Hold(p, id)); }
    SameSys(s, id);
    var l := s.locks[id];
    match a
    case StartAcquire(_, _) => QuietKeeps(s, p, id, l, Trying(id));
    case TryCas(_) => if l.state == 0 { TakeKeeps(s, p, id); }
    case SetHolder(_) => QuietKeeps(s, p, id, l.(holder := p), Idle);
    case StartRelease(_, _) => if l.holder == p { QuietKeeps(s, p, id, l, Clearing(id)); }
    case ClearHolder(_) => QuietKeeps(s, p, id, l.(holder := NONE), Adding(id));
    case ReadState(_) => QuietKeeps(s, p, id, l, AddRead(id, l.state));
    case AddCas(_) => GiveKeeps(s, p, id);
  }

  // ---------------------------------------------------------------------
  // Runs.

  // acts lead from s to t
  ghost predicate Path(s: Sys, acts: seq<Action>, t: Sys)
    decreases |acts|
  {
    if acts == [] then s == t
    else InRange(s) && Enabled(s, acts[0]) && Path(Apply(s, acts[0]), acts[1..], t)
  }

  ghost predicate Reach(s: Sys, t: Sys) { exists acts :: Path(s, acts, t) }

  // Locks are created, processes exist, nobody has touched a lock yet.
  ghost predicate Initial(s: Sys) {
    && (forall i :: i in s.locks ==> s.locks[i] == Lock(0, NONE))
    && (forall p :: p in s.pcs ==> s.pcs[p] == Idle) && NONE !in s.pcs && s.held == {}
  }

  ghost predicate Reachable(s: Sys) { exists s0 :: Initial(s0) && Reach(s0, s) }

  lemma {:induction false} PathInv(s: Sys, acts: seq<Action>, t: Sys)
    requires Inv(s) && Path(s, acts, t)
    ensures Inv(t)
    decreases |acts|
  {
    if acts != [] {
      ApplyKeeps(s, acts[0]);
      PathInv(Apply(s, acts[0]), acts[1..], t);
    }
  }

  lemma ReachableInv(s: Sys)
    requires Reachable(s)
    ensures Inv(s)
  {
    var s0 :| Initial(s0) && Reach(s0, s);
    var acts :| Path(s0, acts, s);
    PathInv(s0, acts, s);
  }

  lemma {:induction false} Join(s: Sys, a: seq<Action>, t: Sys, b: seq<Action>, u: Sys)
    requires Path(s, a, t) && Path(t, b, u)
    ensures Path(s, a + b, u)
    decreases |a|
  {
    if a == [] {
      assert a + b == b;
    } else {
      assert (a + b)[0] == a[0] && (a + b)[1..] == a[1..] + b;
      Join(Apply(s, a[0]), a[1..], t, b, u);
    }
  }

  lemma ReachJoin(s: Sys, t: Sys, u: Sys)
    requires Reach(s, t) && Reach(t, u)
    ensures Reach(s, u)
  {
    var a :| Path(s, a, t);
    var b :| Path(t, b, u);
    Join(s, a, t, b, u);
  }

  lemma ReachStep(s: Sys, a: Action)
    requires InRange(s) && Enabled(s, a)
    ensures Reach(s, Apply(s, a))
  {
    assert Path(Apply(s, a), [], Apply(s, a));
    assert [a][1..] == [];
    assert Path(s, [a], Apply(s, a));
  }

  lemma ReachSelf(s: Sys)
    ensures Reach(s, s)
  {
    assert Path(s, [], s);
  }

  // At most one process is between its acquire's compare-and-swap and its release's group
  // addition, and holder_pid names nobody else.
  lemma MutualExclusion(s: Sys, p: int, q: int, id: int)
    requires Reachable(s) && Hold(p, id) in s.held
    ensures Hold(q, id) in s.held ==> q == p
    ensures id in s.locks && s.locks[id].state == 1 && (s.locks[id].holder == NONE || s.locks[id].holder == p)
  {
    ReachableInv(s);
    assert HoldOk(s, Hold(p, id));
  }

  // A process named as the holder does hold the lock.
  lemma HolderHolds(s: Sys, id: int)
    requires Reachable(s) && id in s.locks && s.locks[id].holder != NONE
    ensures Hold(s.locks[id].holder, id) in s.held
  {
    ReachableInv(s);
    assert LockOk(s, id);
  }

  // release succeeds for the holder and only for it; its group addition takes effect at the first
  // attempt and never finds an unexpected state.
  lemma ReleaseAsExpected(s: Sys, a: Action)
    requires Reachable(s) && InRange(s) && Enabled(s, a)
    ensures a.StartRelease? ==> (Apply(s, a) != s <==> Hold(a.p, a.id) in s.held)
    ensures a.AddCas? ==> s.pcs[a.p].expected == 1
    ensures a.AddCas? ==> var id := s.pcs[a.p].id; id in Apply(s, a).locks && Apply(s, a).locks[id].state == 0
  {
    ReachableInv(s);
    var p := a.p;
    assert PcOk(s, p);
    if a.StartRelease? {
      assert LockOk(s, a.id);
      assert Hold(p, a.id) in s.held ==> HoldOk(s, Hold(p, a.id));
      assert s.locks[a.id].holder == p ==> Apply(s, a).pcs[p] == Clearing(a.id);
    }
    if a.AddCas? { assert HoldOk(s, Hold(p, s.pcs[p].id)); }
  }

  // ---------------------------------------------------------------------
  // Deadlock: who can get out of acquire's loop.

  // The process that holds lock id, if there is one.
  ghost function HolderOf(s: Sys, id: int): (p: int)
    ensures Hold(p, id) in s.held || forall q :: Hold(q, id) !in s.held
  {
    if exists p :: Hold(p, id) in s.held then
      var p :| Hold(p, id) in s.held; p
    else NONE
  }

  // Follow the chain from lock id to its holder, to the lock that holder tries to acquire, and so
  // on: it comes to a free lock or to a living holder that is in no acquire, not to a holder that
  // has exited, and not back to a lock it has seen.
  ghost predicate Ends(s: Sys, id: int, seen: set<int>)
    decreases s.locks.Keys - seen
  {
    && id in s.locks && id !in seen
    && (s.locks[id].state == 0
        || var q := HolderOf(s, id);
           q in s.pcs && s.pcs[q] != Gone && (s.pcs[q].Trying? ==>
             assert id in s.locks.Keys - seen; Ends(s, s.pcs[q].id, seen + {id})))
  }

  // p's position and holds are the same in both states
  ghost predicate Same(s: Sys, t: Sys, p: int) {
    && p in s.pcs && p in t.pcs && t.pcs[p] == s.pcs[p]
    && forall x :: Hold(p, x) in t.held <==> Hold(p, x) in s.held
  }

  ghost predicate OnlyMoved(s: Sys, t: Sys, q: int) {
    && t.locks.Keys == s.locks.Keys && t.pcs.Keys == s.pcs.Keys
    && forall p :: p in s.pcs && p != q ==> Same(s, t, p)
  }

  // q is on its way out of lock x
  ghost predicate Leaves(pc: Pc, x: int) {
    (pc.Clearing? || pc.Adding? || pc.AddRead?) && pc.id == x
  }

  // what q still holds in t, of what it held in s
  ghost predicate KeepsHolds(s: Sys, t: Sys, q: int)
    requires q in s.pcs
  {
    && (forall x :: Hold(q, x) in s.held ==> (Hold(q, x) in t.held <==> !Leaves(s.pcs[q], x)))
    && (forall x :: Hold(q, x) in t.held ==> Hold(q, x) in s.held || s.pcs[q] == Trying(x))
  }

  function Rank(pc: Pc): (n: nat) {
    match pc
    case Idle => 0
    case Trying(_) => 2
    case Won(_) => 1
    case Clearing(_) => 3
    case Adding(_) => 2
    case AddRead(_, _) => 1
    case Gone => 0
  }

  function NextOf(q: int, pc: Pc): (a: Action)
    requires InCall(pc)
  {
    match pc
    case Trying(_) => TryCas(q)
    case Won(_) => SetHolder(q)
    case Clearing(_) => ClearHolder(q)
    case Adding(_) => ReadState(q)
    case AddRead(_, _) => AddCas(q)
  }

  // q is alive and not kept waiting
  ghost predicate Moves(s: Sys, q: int) {
    q in s.pcs && s.pcs[q] != Gone && (s.pcs[q].Trying? ==> s.pcs[q].id in s.locks && s.locks[s.pcs[q].id].state == 0)
  }

  lemma Advance(s: Sys, q: int) returns (t: Sys)
    requires Inv(s) && Moves(s, q) && s.pcs[q] != Idle
    ensures Reach(s, t) && Inv(t) && OnlyMoved(s, t, q) && Moves(t, q) && Rank(t.pcs[q]) < Rank(s.pcs[q])
    ensures forall x :: Leaves(t.pcs[q], x) ==> Leaves(s.pcs[q], x)
    ensures forall x :: Hold(q, x) in s.held && Hold(q, x) !in t.held ==> Leaves(s.pcs[q], x)
    ensures forall x :: Leaves(s.pcs[q], x) && Hold(q, x) in t.held ==> Leaves(t.pcs[q], x)
    ensures forall x :: Hold(q, x) in t.held ==> Hold(q, x) in s.held || s.pcs[q] == Trying(x)
    ensures !t.pcs[q].Trying?
  {
    var a := NextOf(q, s.pcs[q]);
    assert PcOk(s, q);
    if s.pcs[q].AddRead? { assert HoldOk(s, Hold(q, s.pcs[q].id)); }
    t := Apply(s, a);
    ApplyKeeps(s, a);
    ReachStep(s, a);
  }

  // q alone runs until it is out of the kernel.
  lemma {:induction false} Settle(s: Sys, q: int) returns (t: Sys)
    requires Inv(s) && Moves(s, q)
    ensures Reach(s, t) && Inv(t) && OnlyMoved(s, t, q) && q in t.pcs && t.pcs[q] == Idle && KeepsHolds(s, t, q)
    decreases Rank(s.pcs[q])
  {
    if s.pcs[q] == Idle {
      t := s;
      ReachSelf(s);
    } else {
      var s1 := Advance(s, q);
      t := Settle(s1, q);
      ReachJoin(s, s1, t);
      SettleHolds(s, s1, t, q);
    }
  }

  lemma SettleHolds(s: Sys, s1: Sys, t: Sys, q: int)
    requires q in s.pcs && q in s1.pcs && OnlyMoved(s, s1, q) && OnlyMoved(s1, t, q) && KeepsHolds(s1, t, q)
    ensures OnlyMoved(s, t, q)
  {
    forall p | p in s.pcs && p != q ensures Same(s, t, p) {
      assert Same(s, s1, p) && Same(s1, t, p);
    }
  }

  // q gives back lock id, after what it is doing.
  lemma FreeLock(s: Sys, q: int, id: int) returns (t: Sys)
    requires Inv(s) && Moves(s, q) && Hold(q, id) in s.held
    ensures Reach(s, t) && Inv(t) && OnlyMoved(s, t, q) && id in t.locks && t.locks[id].state == 0
  {
    var s1 := Settle(s, q);
    t := s1;
    assert HoldOk(s, Hold(q, id));
    if Hold(q, id) in s1.held {
      assert HoldOk(s1, Hold(q, id));
      var a := StartRelease(q, id);
      var s2 := Apply(s1, a);
      ApplyKeeps(s1, a);
      ReachStep(s1, a);
      assert OnlyMoved(s1, s2, q);
      t := Settle(s2, q);
      ReachJoin(s, s1, s2);
      ReachJoin(s, s2, t);
      SettleHolds(s, s1, s2, q);
      SettleHolds(s, s2, t, q);
    }
    NobodyHolds(s, t, q, id);
  }

  lemma NobodyHolds(s: Sys, t: Sys, q: int, id: int)
    requires Inv(s) && Inv(t) && OnlyMoved(s, t, q) && Hold(q, id) in s.held && Hold(q, id) !in t.held && id in t.locks
    ensures t.locks[id].state == 0
  {
    forall p | p in s.pcs ensures Hold(p, id) !in t.held {
      assert p != q ==> Same(s, t, p);
    }
    forall p ensures Hold(p, id) !in t.held {
      assert Hold(p, id) in t.held ==> HoldOk(t, Hold(p, id));
    }
    assert LockOk(t, id);
  }

  // A chain that ends can be worked off from its end: lock id becomes free while every process
  // that tries id, or a lock the chain has already left, stays where it is.
  lemma {:induction false} Open(s: Sys, id: int, seen: set<int>) returns (t: Sys)
    requires Inv(s) && Ends(s, id, seen)
    ensures Reach(s, t) && Inv(t) && id in t.locks && t.locks[id].state == 0
    ensures forall p, x :: p in s.pcs && s.pcs[p] == Trying(x) && x in seen + {id} ==> Same(s, t, p)
    decreases s.locks.Keys - seen
  {
    assert LockOk(s, id);
    if s.locks[id].state == 0 {
      t := s;
      ReachSelf(s);
    } else {
      var q := HolderOf(s, id);
      assert HoldOk(s, Hold(q, id));
      var s1 := s;
      ReachSelf(s);
      if s.pcs[q].Trying? {
        assert id in s.locks.Keys - seen;
        s1 := Open(s, s.pcs[q].id, seen + {id});
        assert Same(s, s1, q);
      }
      t := FreeLock(s1, q, id);
      ReachJoin(s, s1, t);
      forall p, x | p in s.pcs && s.pcs[p] == Trying(x) && x in seen + {id} ensures Same(s, t, p) {
        assert s1 != s ==> Same(s, s1, p);
        assert Same(s1, t, p);
      }
    }
  }

  // q has exited, or it tries to acquire a lock of c
  ghost predicate Stuck(s: Sys, q: int, c: set<int>) {
    q in s.pcs && (s.pcs[q] == Gone || (s.pcs[q].Trying? && s.pcs[q].id in c))
  }

  // Every lock of c is held by a process that is stuck so.
  ghost predicate Waits(s: Sys, l: int, q: int, c: set<int>) { Hold(q, l) in s.held && Stuck(s, q, c) }

  ghost predicate Waited(s: Sys, l: int, c: set<int>) { exists q :: Waits(s, l, q, c) }

  ghost predicate Deadlocked(s: Sys, c: set<int>) {
    forall l {:trigger Waited(s, l, c)} :: l in c ==> Waited(s, l, c)
  }

  lemma {:induction false} Cycle(s: Sys, id: int, seen: set<int>) returns (c: set<int>)
    requires Inv(s) && id in s.locks && !Ends(s, id, seen)
    requires forall l {:trigger Waited(s, l, seen + {id})} :: l in seen ==> Waited(s, l, seen + {id})
    ensures seen + {id} <= c && Deadlocked(s, c)
    decreases s.locks.Keys - seen
  {
    if id in seen {
      c := seen;
      assert seen + {id} == seen;
    } else {
      assert LockOk(s, id);
      var q := HolderOf(s, id);
      assert HoldOk(s, Hold(q, id));
      assert id in s.locks.Keys - seen;
      if s.pcs[q] == Gone {
        c := seen + {id};
        assert Waits(s, id, q, c);
        return;
      }
      var m := s.pcs[q].id;
      forall l | l in seen + {id} ensures Waited(s, l, seen + {id} + {m}) {
        if l == id {
          assert Waits(s, l, q, seen + {id} + {m});
        } else {
          assert Waited(s, l, seen + {id});
          var q' :| Waits(s, l, q', seen + {id});
          assert Waits(s, l, q', seen + {id} + {m});
        }
      }
      c := Cycle(s, m, seen + {id});
    }
  }

  // In a deadlock nobody gets any further, whoever moves.
  lemma DeadlockStays(s: Sys, c: set<int>, a: Action, p: int)
    requires Inv(s) && Deadlocked(s, c) && Enabled(s, a) && p in s.pcs && s.pcs[p].Trying? && s.pcs[p].id in c
    ensures Deadlocked(Apply(s, a), c) && p in Apply(s, a).pcs && Apply(s, a).pcs[p] == s.pcs[p]
  {
    var t := Apply(s, a);
    StaysPut(s, c, a, p);
    forall l | l in c ensures Waited(t, l, c) {
      assert Waited(s, l, c);
      var q :| Waits(s, l, q, c);
      StaysPut(s, c, a, q);
      assert Waits(t, l, q, c);
    }
  }

  lemma StaysPut(s: Sys, c: set<int>, a: Action, p: int)
    requires Inv(s) && Deadlocked(s, c) && Enabled(s, a) && Stuck(s, p, c)
    ensures Same(s, Apply(s, a), p)
  {
    if s.pcs[p].Trying? {
      var m := s.pcs[p].id;
      assert Waited(s, m, c);
      var q :| Waits(s, m, q, c);
      assert HoldOk(s, Hold(q, m));
    }
    assert PcOk(s, a.p);
  }

  lemma {:induction false} DeadlockForEver(s: Sys, c: set<int>, acts: seq<Action>, t: Sys, p: int)
    requires Inv(s) && Deadlocked(s, c) && Path(s, acts, t) && p in s.pcs && s.pcs[p].Trying? && s.pcs[p].id in c
    ensures p in t.pcs && t.pcs[p] == s.pcs[p]
    decreases |acts|
  {
    if acts != [] {
      var s1 := Apply(s, acts[0]);
      assert Deadlocked(s1, c) && p in s1.pcs && s1.pcs[p] == s.pcs[p] by { DeadlockStays(s, c, acts[0], p); }
      assert Inv(s1) by { ApplyKeeps(s, acts[0]); }
      DeadlockForEver(s1, c, acts[1..], t, p);
    }
  }

  lemma SpinsFrom(s: Sys, c: set<int>, p: int, t: Sys)
    requires Reachable(s) && Deadlocked(s, c) && p in s.pcs && s.pcs[p].Trying? && s.pcs[p].id in c
    ensures Reach(s, t) ==> p in t.pcs && t.pcs[p] == s.pcs[p]
  {
    ReachableInv(s);
    if Reach(s, t) {
      var acts :| Path(s, acts, t);
      DeadlockForEver(s, c, acts, t, p);
    }
  }

  // p has left acquire's loop with lock id
  ghost predicate Got(t: Sys, p: int, id: int) { p in t.pcs && t.pcs[p] == Won(id) }

  // A process in acquire's loop can still get out of it if and only if the chain of holders from
  // its lock ends with a living one; otherwise it spins in every run.
  lemma AcquireEndsIff(s: Sys, p: int, id: int)
    requires Inv(s) && p in s.pcs && s.pcs[p] == Trying(id)
    ensures Ends(s, id, {}) <==> exists t :: Reach(s, t) && Got(t, p, id)
    ensures !Ends(s, id, {}) ==> forall t :: Reach(s, t) ==> p in t.pcs && t.pcs[p] == Trying(id)
  {
    if Ends(s, id, {}) {
      var t := Open(s, id, {});
      assert Same(s, t, p);
      ReachStep(t, TryCas(p));
      ReachJoin(s, t, Apply(t, TryCas(p)));
      assert Got(Apply(t, TryCas(p)), p, id);
    } else {
      var c := Cycle(s, id, {});
      forall t | Reach(s, t) ensures p in t.pcs && t.pcs[p] == Trying(id) {
        var acts :| Path(s, acts, t);
        DeadlockForEver(s, c, acts, t, p);
      }
    }
  }

  // ---------------------------------------------------------------------
  // Runs into a deadlock: n processes, n locks, each process takes its own lock and then tries
  // the next one.  n == 1 is a process that acquires a lock it holds.

  ghost function Owns(k: int): (held: set<Hold>)
    ensures forall h :: h in held <==> h.p == h.id && 0 <= h.p < k
  {
    if k <= 0 then {} else Owns(k - 1) + {Hold(k - 1, k - 1)}
  }

  function LockAt(i: int, k: int): (l: Lock) { if i < k then Lock(1, i) else Lock(0, NONE) }

  function PcAt(i: int, k: int, n: int): (pc: Pc)
    requires n > 0
  {
    if i < k then Trying((i + 1) % n) else Idle
  }

  // the first k processes have their lock
  ghost function Taken(n: int, k: int): (s: Sys) {
    Sys(map i | 0 <= i < n :: LockAt(i, k), map i | 0 <= i < n :: PcAt(i, 0, n), Owns(k))
  }

  // all have, and the first k try the next one
  ghost function Blocked(n: int, k: int): (s: Sys) {
    Sys(map i | 0 <= i < n :: LockAt(i, n), map i | 0 <= i < n :: PcAt(i, k, n), Owns(n))
  }

  lemma TakeNext(n: int, k: int)
    requires 0 <= k < n
    ensures Reach(Taken(n, k), Taken(n, k + 1))
  {
    var s := Taken(n, k);
    var s1 := Apply(s, StartAcquire(k, k));
    var s2 := Apply(s1, TryCas(k));
    ReachStep(s, StartAcquire(k, k));
    ReachStep(s1, TryCas(k));
    ReachStep(s2, SetHolder(k));
    TookNext(n, k);
    ReachJoin(s, s1, s2);
    ReachJoin(s, s2, Taken(n, k + 1));
  }

  lemma TookNext(n: int, k: int)
    requires 0 <= k < n
    ensures var s2 := Taken(n, k).(locks := Taken(n, k).locks[k := Lock(1, NONE)],
      pcs := Taken(n, k).pcs[k := Trying(k)][k := Won(k)],
        held := Owns(k) + {Hold(k, k)});
      s2.pcs[k] == Won(k) && At(Set(s2, k, Lock(1, k)), k, Idle) == Taken(n, k + 1)
  {
    var s, t := Taken(n, k), Taken(n, k + 1);
    assert s.locks[k := Lock(1, NONE)][k := Lock(1, k)] == t.locks;
    assert s.pcs[k := Trying(k)][k := Won(k)][k := Idle] == t.pcs;
  }

  lemma BlockedRange(n: int, k: int)
    requires 0 <= k <= n
    ensures InRange(Blocked(n, k))
  {
    forall i | 0 <= i < n ensures PcAt(i, k, n) == Idle || 0 <= PcAt(i, k, n).id < n { assert 0 <= (i + 1) % n < n; }
  }

  lemma TriedNext(n: int, k: int)
    requires 0 <= k < n
    ensures Blocked(n, k).pcs[k := Trying((k + 1) % n)] == Blocked(n, k + 1).pcs
  {
  }

  lemma TryNext(n: int, k: int)
    requires 0 <= k < n
    ensures Reach(Blocked(n, k), Blocked(n, k + 1))
  {
    var s, id := Blocked(n, k), (k + 1) % n;
    assert 0 <= id < n;
    assert s.pcs[k := Trying(id)] == Blocked(n, k + 1).pcs by { TriedNext(n, k); }
    assert InRange(s) by { BlockedRange(n, k); }
    assert s.pcs[k] == Idle && id in s.locks;
    ReachStep(s, StartAcquire(k, id));
  }

  lemma {:induction false} TakeAll(n: int, k: int)
    requires 0 <= k <= n
    ensures Reach(Taken(n, 0), Taken(n, k))
    decreases k
  {
    if k == 0 {
      ReachSelf(Taken(n, 0));
    } else {
      TakeAll(n, k - 1);
      TakeNext(n, k - 1);
      ReachJoin(Taken(n, 0), Taken(n, k - 1), Taken(n, k));
    }
  }

  lemma {:induction false} TryAll(n: int, k: int)
    requires 0 <= k <= n
    ensures Reach(Blocked(n, 0), Blocked(n, k))
    decreases k
  {
    if k == 0 {
      ReachSelf(Blocked(n, 0));
    } else {
      TryAll(n, k - 1);
      TryNext(n, k - 1);
      ReachJoin(Blocked(n, 0), Blocked(n, k - 1), Blocked(n, k));
    }
  }

  lemma RingRun(n: int)
    requires 0 <= n
    ensures Initial(Taken(n, 0)) && Reach(Taken(n, 0), Blocked(n, n))
  {
    TakeAll(n, n);
    TryAll(n, n);
    assert Taken(n, n) == Blocked(n, 0);
    ReachJoin(Taken(n, 0), Taken(n, n), Blocked(n, n));
  }

  lemma RingDeadlocked(n: int)
    requires 0 <= n
    ensures Deadlocked(Blocked(n, n), Blocked(n, n).locks.Keys)
  {
    var s, c := Blocked(n, n), Blocked(n, n).locks.Keys;
    forall l | l in c ensures Waited(s, l, c) {
      assert 0 <= (l + 1) % n < n;
      assert Waits(s, l, l, c);
    }
  }

  // Freedom from deadlock fails for every number of processes from one on.
  lemma RingDeadlocks(n: int, p: int, t: Sys)
    requires 0 <= p < n
    ensures Initial(Taken(n, 0)) && Reach(Taken(n, 0), Blocked(n, n))
    ensures Reach(Blocked(n, n), t) ==> p in t.pcs && t.pcs[p] == Trying((p + 1) % n)
  {
    RingRun(n);
    RingDeadlocked(n);
    assert 0 <= (p + 1) % n < n;
    assert Blocked(n, n).pcs[p] == PcAt(p, n, n);
    SpinsFrom(Blocked(n, n), Blocked(n, n).locks.Keys, p, t);
  }

  // ---------------------------------------------------------------------
  // Runs into a lock that nobody can release: p takes it and exits, then q tries it.

  ghost function Orphaned(s: Sys, p: int, q: int, id: int): (t: Sys) {
    Sys(s.locks[id := Lock(1, p)], s.pcs[p := Gone][q := Trying(id)], s.held + {Hold(p, id)})
  }

  // p acquires a free lock.
  lemma Acquires(s: Sys, p: int, id: int)
    requires InRange(s) && p in s.pcs && s.pcs[p] == Idle && id in s.locks && s.locks[id].state == 0
    ensures Reach(s, Sys(s.locks[id := Lock(1, p)], s.pcs, s.held + {Hold(p, id)}))
  {
    var s1 := Apply(s, StartAcquire(p, id));
    var s2 := Apply(s1, TryCas(p));
    var s3 := Apply(s2, SetHolder(p));
    ReachStep(s, StartAcquire(p, id));
    ReachStep(s1, TryCas(p));
    ReachStep(s2, SetHolder(p));
    assert s3.pcs == s.pcs;
    assert s3.locks == s.locks[id := Lock(1, p)];
    ReachJoin(s, s1, s2);
    ReachJoin(s, s2, s3);
  }

  lemma OrphanRun(s: Sys, p: int, q: int, id: int)
    requires Initial(s) && p in s.pcs && q in s.pcs && p != q && id in s.locks
    ensures Reach(s, Orphaned(s, p, q, id))
  {
    Acquires(s, p, id);
    var s1 := Sys(s.locks[id := Lock(1, p)], s.pcs, s.held + {Hold(p, id)});
    var s2 := Apply(s1, Quit(p));
    ReachStep(s1, Quit(p));
    ReachStep(s2, StartAcquire(q, id));
    ReachJoin(s, s1, s2);
    ReachJoin(s, s2, Orphaned(s, p, q, id));
  }

  // Whatever happens then, q never gets out of the loop.
  lemma OrphanBlocks(s: Sys, p: int, q: int, id: int, t: Sys)
    requires Initial(s) && p in s.pcs && q in s.pcs && p != q && id in s.locks
    ensures Reach(s, Orphaned(s, p, q, id))
    ensures Reach(Orphaned(s, p, q, id), t) ==> q in t.pcs && t.pcs[q] == Trying(id)
  {
    var u := Orphaned(s, p, q, id);
    OrphanRun(s, p, q, id);
    assert Waits(u, id, p, {id});
    SpinsFrom(u, {id}, q, t);
  }
}
