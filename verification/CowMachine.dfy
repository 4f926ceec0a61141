/**
 Copy-on-write memory as a state machine, beside a machine that copies eagerly.

 Processes interleave.  One action is one section under kmem.lock, one page copy,
 or one change of a process's own page table.  A frame freed to count zero is
 in limbo until it is pushed on the free list, as in kfree.
 */
module CowMachine {

  const PGSIZE: int := 4096

  datatype Page = Page(bytes: seq<int>)

  function Fill(b: int): (pg: Page) { Page(seq(PGSIZE, _ => b)) }

  function Poke(pg: Page, off: int, val: int): (pg': Page) {
    if 0 <= off < |pg.bytes| then Page(pg.bytes[off := val]) else pg
  }

  // page v of process p
  datatype Key = Key(p: int, v: int)

  // rx stands for the permission bits other than U, W and COW
  datatype Pte = Pte(frame: int, u: bool, w: bool, cow: bool, rx: int)

  // What process p is doing in the kernel; a process without one is in user mode.
  datatype Act =
    | FaultCopy(v: int)               // get_ref saw more than one reference
    | FaultMem(v: int, f: int)        // kalloc returned f
    | FaultCopied(v: int, f: int)     // memmove done
    | FaultRemap(v: int, f: int, rx: int) // old page unmapped
    | FaultSolo(v: int)               // get_ref saw one reference
    | Forking(c: int)                 // uvmcopy, between two pages
    | ForkRef(c: int, v: int, f: int) // inc_ref done, child's entry not yet made

  datatype Sys = Sys(
    mem: map<int, Page>,
    count: map<int, int>,       // ref_counts of the 4 KB frames, as get_ref returns them
    free: seq<int>,
    limbo: set<int>,
    pt: map<Key, Pte>,          // user page tables
    kern: multiset<int>,        // frames the kernel itself owns
    act: map<int, Act>)

  // The reference machine: every page of every process has its own bytes and permissions.
  datatype Eager = Eager(mem: map<Key, Page>, wr: set<Key>, rx: map<Key, int>)

  datatype Action =
    | Store(k: Key, off: int, val: int)
    | Fault(p: int, v: int)
    | SoloDone(p: int)
    | FaultAlloc(p: int)
    | FaultFail(p: int)
    | FaultMove(p: int)
    | FaultUnmap(p: int)
    | FaultMap(p: int)
    | ForkStart(p: int, c: int)
    | ForkInc(p: int, v: int)
    | ForkMap(p: int)
    | ForkFail(p: int)
    | ForkEnd(p: int)
    | Grow(k: Key, f: int, w: bool, rx: int)
    | Unmap(k: Key)
    | KAlloc
    | KFree(f: int)
    | Push(f: int)

  predicate Mapped(s: Sys, k: Key) {
    k in s.pt && s.pt[k].frame in s.count && s.pt[k].frame in s.mem
  }

  predicate Enabled(s: Sys, e: Eager, a: Action) {
    match a
    case Store(k, _, _) => k.p !in s.act && Mapped(s, k) && s.pt[k].u && s.pt[k].w && k in e.mem
    case Fault(p, v) => p !in s.act && Mapped(s, Key(p, v)) && s.pt[Key(p, v)].u && !s.pt[Key(p, v)].w
      && s.pt[Key(p, v)].cow
    case SoloDone(p) => p in s.act && s.act[p].FaultSolo? && Mapped(s, Key(p, s.act[p].v))
    case FaultAlloc(p) => p in s.act && s.act[p].FaultCopy? && s.free != []
    case FaultFail(p) => p in s.act && s.act[p].FaultCopy? && s.free == []
    case FaultMove(p) => p in s.act && s.act[p].FaultMem? && Mapped(s, Key(p, s.act[p].v))
    case FaultUnmap(p) => p in s.act && s.act[p].FaultCopied? && Mapped(s, Key(p, s.act[p].v))
    case FaultMap(p) => p in s.act && s.act[p].FaultRemap?
    case ForkStart(p, c) => p !in s.act && c != p
    case ForkInc(p, v) =>
      p in s.act && s.act[p].Forking? && Mapped(s, Key(p, v)) && Key(s.act[p].c, v) !in e.mem
    case ForkMap(p) =>
      p in s.act && s.act[p].ForkRef? && Key(p, s.act[p].v) in s.pt && Key(p, s.act[p].v) in e.mem
      && Key(p, s.act[p].v) in e.rx && Key(s.act[p].c, s.act[p].v) !in e.mem
    case ForkFail(p) => p in s.act && s.act[p].ForkRef? && s.act[p].f in s.count
    case ForkEnd(p) => p in s.act && s.act[p].Forking?
    case Grow(k, f, _, _) => k.p !in s.act && k !in e.mem && f in s.kern && f in s.count && s.count[f] == 1
    case Unmap(k) => k.p !in s.act && Mapped(s, k)
    case KAlloc => s.free != []
    case KFree(f) => f in s.kern && f in s.count
    case Push(f) => f in s.limbo
  }

  // kalloc
  function Alloc(s: Sys): (s': Sys)
    requires s.free != []
  {
    s.(free := s.free[1..], count := s.count[s.free[0] := 1], mem := s.mem[s.free[0] := Fill(5)])
  }

  // the first section of kfree: the caller has dropped its reference. ref_counts is unsigned:
  // a count of 0 wraps, which count shows as get_ref's int -1, and is then above zero.
  function Drop(s: Sys, f: int): (s': Sys)
    requires f in s.count
  {
    var n := s.count[f] - 1;
    s.(count := s.count[f := n],
       limbo := if n != 0 then s.limbo else s.limbo + {f},
       mem := if n != 0 then s.mem else s.mem[f := Fill(1)])
  }

  function Done(s: Sys, p: int): (s': Sys) { s.(act := s.act - {p}) }

  function Doing(s: Sys, p: int, act: Act): (s': Sys) { s.(act := s.act[p := act]) }

  function Apply(s: Sys, e: Eager, a: Action): (s': Sys)
    requires Enabled(s, e, a)
  {
    match a
    case Store(k, off, val) =>
      var f := s.pt[k].frame;
      s.(mem := s.mem[f := Poke(s.mem[f], off, val)])
    case Fault(p, v) => Doing(s, p, if s.count[s.pt[Key(p, v)].frame] > 1 then FaultCopy(v) else FaultSolo(v))
    case SoloDone(p) =>
      var k := Key(p, s.act[p].v);
      Done(s, p).(pt := s.pt[k := s.pt[k].(w := true, cow := false)])
    case FaultAlloc(p) => Doing(Alloc(s), p, FaultMem(s.act[p].v, s.free[0]))
    case FaultFail(p) => Done(s, p)
    case FaultMove(p) =>
      var f := s.pt[Key(p, s.act[p].v)].frame;
      Doing(s, p, FaultCopied(s.act[p].v, s.act[p].f)).(mem := s.mem[s.act[p].f := s.mem[f]])
    case FaultUnmap(p) =>
      var k := Key(p, s.act[p].v);
      Doing(Drop(s.(pt := s.pt - {k}), s.pt[k].frame), p, FaultRemap(s.act[p].v, s.act[p].f, s.pt[k].rx))
    case FaultMap(p) =>
      Done(s, p).(pt := s.pt[Key(p, s.act[p].v) := Pte(s.act[p].f, true, true, false, s.act[p].rx)])
    case ForkStart(p, c) => Doing(s, p, Forking(c))
    case ForkInc(p, v) =>
      var k := Key(p, v);
      var f := s.pt[k].frame;
      var pte := if s.pt[k].w then s.pt[k].(w := false, cow := true) else s.pt[k];
      Doing(s, p, ForkRef(s.act[p].c, v, f)).(pt := s.pt[k := pte], count := s.count[f := s.count[f] + 1])
    case ForkMap(p) =>
      var act := s.act[p];
      Doing(s, p, Forking(act.c)).(pt := s.pt[Key(act.c, act.v) := s.pt[Key(p, act.v)]])
    case ForkFail(p) => Doing(Drop(s, s.act[p].f), p, Forking(s.act[p].c))
    case ForkEnd(p) => Done(s, p)
    case Grow(k, f, w, rx) =>
      s.(kern := s.kern - multiset{f}, mem := s.mem[f := Fill(0)], pt := s.pt[k := Pte(f, true, w, false, rx)])
    case Unmap(k) => Drop(s.(pt := s.pt - {k}), s.pt[k].frame)
    case KAlloc => Alloc(s).(kern := s.kern + multiset{s.free[0]})
    case KFree(f) => Drop(s.(kern := s.kern - multiset{f}), f)
    case Push(f) => s.(limbo := s.limbo - {f}, free := [f] + s.free)
  }

  // What the reference machine does at the same action.
  function EApply(s: Sys, e: Eager, a: Action): (e': Eager)
    requires Enabled(s, e, a)
  {
    match a
    case Store(k, off, val) => e.(mem := e.mem[k := Poke(e.mem[k], off, val)])
    case ForkMap(p) =>
      var k, c := Key(p, s.act[p].v), Key(s.act[p].c, s.act[p].v);
      Eager(e.mem[c := e.mem[k]], if k in e.wr then e.wr + {c} else e.wr, e.rx[c := e.rx[k]])
    case Grow(k, _, w, rx) => Eager(e.mem[k := Fill(0)], if w then e.wr + {k} else e.wr - {k}, e.rx[k := rx])
    case Unmap(k) => Eager(e.mem - {k}, e.wr - {k}, e.rx - {k})
    case _ => e
  }

  // ---------------------------------------------------------------------
  // The invariant.

  ghost function Refs(pt: map<Key, Pte>, f: int): (ks: set<Key>) {
    set k | k in pt && pt[k].frame == f
  }

  predicate Holds(a: Act, f: int) {
    (a.FaultMem? || a.FaultCopied? || a.FaultRemap? || a.ForkRef?) && a.f == f
  }

  ghost function Holders(act: map<int, Act>, f: int): (ps: set<int>) {
    set p | p in act && Holds(act[p], f)
  }

  ghost function NRefs(pt: map<Key, Pte>, f: int): (n: int)
    ensures n >= 0
  {
    |Refs(pt, f)|
  }

  ghost function NHold(act: map<int, Act>, f: int): (n: int)
    ensures n >= 0
  {
    |Holders(act, f)|
  }

  // user entries plus owners in the kernel
  ghost function Owners(s: Sys, f: int): (n: int) {
    NRefs(s.pt, f) + NHold(s.act, f) + s.kern[f]
  }

  // A frame's count is its number of owners.
  ghost predicate Counted(s: Sys) {
    forall f :: f in s.count ==> s.count[f] == Owners(s, f)
  }

  ghost predicate Closed(s: Sys) {
    && s.count.Keys == s.mem.Keys
    && (forall k :: k in s.pt ==> s.pt[k].frame in s.count)
    && (forall f :: f in s.kern ==> f in s.count)
    && (forall p, f :: p in s.act && Holds(s.act[p], f) ==> f in s.count)
  }

  // The free list and the limbo hold exactly the frames of count zero, once each.
  ghost predicate FreeOk(s: Sys) {
    && (forall i, j :: 0 <= i < j < |s.free| ==> s.free[i] != s.free[j])
    && (forall f :: f in s.free ==> f in s.count && s.count[f] == 0 && f !in s.limbo)
    && (forall f :: f in s.limbo ==> f in s.count && s.count[f] == 0)
    && (forall f :: f in s.count && s.count[f] == 0 ==> f in s.free || f in s.limbo)
  }

  // A writable entry is the only reference to its frame.
  ghost predicate Exclusive(s: Sys) {
    forall k :: k in s.pt && s.pt[k].w ==> !s.pt[k].cow && s.pt[k].frame in s.count && s.count[s.pt[k].frame] == 1
  }

  // Every process sees its eager bytes, with its eager permissions.
  ghost predicate ViewOk(s: Sys, e: Eager) {
    && (forall k :: k in s.pt ==> k in e.mem && s.pt[k].frame in s.mem && s.mem[s.pt[k].frame] == e.mem[k])
    && (forall k :: k in s.pt ==> (k in e.wr <==> s.pt[k].w || s.pt[k].cow))
    && (forall k :: k in s.pt ==> s.pt[k].u && k in e.rx && s.pt[k].rx == e.rx[k])
    && (forall k :: k in e.mem ==> k in s.pt || Remapping(s, k))
    && e.wr <= e.mem.Keys == e.rx.Keys
  }

  // between unmapping the shared page and mapping its copy
  predicate Remapping(s: Sys, k: Key) {
    k.p in s.act && s.act[k.p].FaultRemap? && s.act[k.p].v == k.v
  }

  predicate CowEntry(s: Sys, k: Key) {
    k in s.pt && s.pt[k].u && s.pt[k].cow && !s.pt[k].w
  }

  // a frame that only this process's handler can reach
  predicate Private(s: Sys, f: int) {
    f in s.count && s.count[f] == 1
  }

  ghost predicate ActOk(s: Sys, e: Eager, p: int)
    requires p in s.act
  {
    match s.act[p]
    case FaultCopy(v) => CowEntry(s, Key(p, v))
    case FaultMem(v, f) => CowEntry(s, Key(p, v)) && Private(s, f)
    case FaultCopied(v, f) => CowEntry(s, Key(p, v)) && Private(s, f) && f in s.mem && Key(p, v) in e.mem
      && s.mem[f] == e.mem[Key(p, v)]
    case FaultRemap(v, f, rx) => Key(p, v) in e.rx && rx == e.rx[Key(p, v)]
      && Key(p, v) !in s.pt && Private(s, f) && f in s.mem && Key(p, v) in e.mem
      && Key(p, v) in e.wr && s.mem[f] == e.mem[Key(p, v)]
    case FaultSolo(v) => CowEntry(s, Key(p, v)) && Private(s, s.pt[Key(p, v)].frame)
    case Forking(c) => c != p
    case ForkRef(c, v, f) => Key(p, v) in s.pt && s.pt[Key(p, v)].frame == f && !s.pt[Key(p, v)].w && c != p
  }

  ghost predicate ActsOk(s: Sys, e: Eager) {
    forall p :: p in s.act ==> ActOk(s, e, p)
  }

  // the books: everything but the bytes
  ghost predicate Book(s: Sys) {
    Counted(s) && Closed(s) && FreeOk(s) && Exclusive(s)
  }

  ghost predicate Inv(s: Sys, e: Eager) {
    Book(s) && ViewOk(s, e) && ActsOk(s, e)
  }
}
