/**
 Frames whose count is not kept.  kalloc_huge hands out a 2 MB chunk whose pages have
 count 0, and uvmalloc maps them, so that every count is one too low: what that does to
 copy-on-write, and when it cannot happen.
 */
module CowHuge {
  import opened CowMachine
  import opened CowTheorems
  import opened CowCode

  // ---------------------------------------------------------------------
  // One shared page with whatever count.

  ghost predicate Path(s: Sys, e: Eager, acts: seq<Action>, t: Sys, d: Eager)
    decreases |acts|
  {
    if acts == [] then s == t && e == d
    else Enabled(s, e, acts[0]) && Path(Apply(s, e, acts[0]), EApply(s, e, acts[0]), acts[1..], t, d)
  }

  lemma {:induction false} Join(s: Sys, e: Eager, a: seq<Action>, t: Sys, d: Eager, b: seq<Action>, u: Sys, g: Eager)
    requires Path(s, e, a, t, d) && Path(t, d, b, u, g)
    ensures Path(s, e, a + b, u, g)
    decreases |a|
  {
    if a == [] {
      assert a + b == b;
    } else {
      assert (a + b)[0] == a[0] && (a + b)[1..] == a[1..] + b;
      Join(Apply(s, e, a[0]), EApply(s, e, a[0]), a[1..], t, d, b, u, g);
    }
  }

  lemma Cons(s: Sys, e: Eager, a: Action, b: seq<Action>, t: Sys, d: Eager)
    requires Enabled(s, e, a) && Path(Apply(s, e, a), EApply(s, e, a), b, t, d)
    ensures Path(s, e, [a] + b, t, d)
  {
    assert ([a] + b)[1..] == b;
  }

  // p's writable page k, which child c does not have; its frame's count can be anything
  ghost predicate Lone(s: Sys, e: Eager, k: Key, c: int) {
    && k.p != c && k.p !in s.act && c !in s.act
    && Mapped(s, k) && s.pt[k].u && s.pt[k].w && !s.pt[k].cow
    && k in e.mem && k in e.rx && Key(c, k.v) !in s.pt && Key(c, k.v) !in e.mem
  }

  // the state after fork has shared page k of p with child c
  ghost function Forked(s: Sys, k: Key, c: int): (t: Sys)
    requires k in s.pt && s.pt[k].frame in s.count
  {
    var f, pte := s.pt[k].frame, s.pt[k].(w := false, cow := true);
    s.(pt := s.pt[k := pte][Key(c, k.v) := pte], count := s.count[f := s.count[f] + 1])
  }

  function ForkOf(k: Key, c: int): (acts: seq<Action>) {
    [ForkStart(k.p, c)] + ([ForkInc(k.p, k.v)] + ([ForkMap(k.p)] + ([ForkEnd(k.p)] + [])))
  }

  // The actions of the store-fault handler for page k, when the count is n.
  function Handler(k: Key, n: int): (acts: seq<Action>) {
    if n > 1 then
      [Fault(k.p, k.v)] + ([FaultAlloc(k.p)] + ([FaultMove(k.p)] + ([FaultUnmap(k.p)] + ([FaultMap(k.p)] + []))))
    else
      [Fault(k.p, k.v)] + ([SoloDone(k.p)] + [])
  }

  lemma ForkPath(s: Sys, e: Eager, k: Key, c: int)
    requires Lone(s, e, k, c)
    ensures Path(s, e, ForkOf(k, c), Forked(s, k, c), ForkedEager(e, k, c))
  {
    var s1 := Apply(s, e, ForkStart(k.p, c));
    var s2 := Apply(s1, e, ForkInc(k.p, k.v));
    var s3, e3 := Apply(s2, e, ForkMap(k.p)), EApply(s2, e, ForkMap(k.p));
    var s4 := Apply(s3, e3, ForkEnd(k.p));
    assert s4 == Forked(s, k, c) by {
      assert s3.act - {k.p} == s.act;
      assert s3.pt[k] == s2.pt[k];
    }
    Cons(s3, e3, ForkEnd(k.p), [], s4, e3);
    Cons(s2, e, ForkMap(k.p), [ForkEnd(k.p)] + [], s4, e3);
    Cons(s1, e, ForkInc(k.p, k.v), [ForkMap(k.p)] + ([ForkEnd(k.p)] + []), s4, e3);
    Cons(s, e, ForkStart(k.p, c), [ForkInc(k.p, k.v)] + ([ForkMap(k.p)] + ([ForkEnd(k.p)] + [])), s4, e3);
  }

  // what the handler and the store see: both entries on one frame
  ghost predicate SharedPage(t: Sys, e: Eager, k: Key, kc: Key) {
    && k != kc && kc.p !in t.act && Mapped(t, k) && Mapped(t, kc) && t.pt[k].frame == t.pt[kc].frame
    && t.pt[kc].u && t.pt[kc].cow && !t.pt[kc].w && kc in e.mem
  }

  // With count at most 1 the entry is made writable as it is, and the store is seen by both.
  lemma SoloPath(t: Sys, e: Eager, k: Key, kc: Key, off: int, val: int) returns (u: Sys, d: Eager)
    requires SharedPage(t, e, k, kc) && t.count[t.pt[k].frame] <= 1
    ensures Path(t, e, Handler(kc, t.count[t.pt[k].frame]) + [Store(kc, off, val)], u, d)
    ensures Mapped(u, k) && u.mem[u.pt[k].frame] == Poke(t.mem[t.pt[k].frame], off, val)
  {
    var a0, a1, a2 := Fault(kc.p, kc.v), SoloDone(kc.p), Store(kc, off, val);
    var t1 := Apply(t, e, a0);
    var t2 := Apply(t1, e, a1);
    u, d := Apply(t2, e, a2), EApply(t2, e, a2);
    assert Path(u, d, [], u, d);
    Cons(t2, e, a2, [], u, d);
    Cons(t1, e, a1, [a2] + [], u, d);
    Cons(t, e, a0, [a1] + ([a2] + []), u, d);
    assert [a0] + ([a1] + []) + [a2] == [a0] + ([a1] + ([a2] + []));
  }

  // With a count above 1 it gets a copy, and the store is not.
  lemma CopyPath(t: Sys, e: Eager, k: Key, kc: Key, off: int, val: int) returns (u: Sys, d: Eager)
    requires SharedPage(t, e, k, kc) && t.count[t.pt[k].frame] > 1 && t.free != [] && t.free[0] != t.pt[k].frame
    ensures Path(t, e, Handler(kc, t.count[t.pt[k].frame]) + [Store(kc, off, val)], u, d)
    ensures Mapped(u, k) && u.mem[u.pt[k].frame] == t.mem[t.pt[k].frame]
  {
    var a0, a1, a2 := Fault(kc.p, kc.v), FaultAlloc(kc.p), FaultMove(kc.p);
    var a3, a4, a5 := FaultUnmap(kc.p), FaultMap(kc.p), Store(kc, off, val);
    var t1 := Apply(t, e, a0);
    var t2 := Apply(t1, e, a1);
    var t3 := Apply(t2, e, a2);
    u, d := CopyRest(t, t3, e, k, kc, off, val);
    var rest := [a3] + ([a4] + ([a5] + []));
    Cons(t2, e, a2, rest, u, d);
    Cons(t1, e, a1, [a2] + rest, u, d);
    Cons(t, e, a0, [a1] + ([a2] + rest), u, d);
    assert Handler(kc, t.count[t.pt[k].frame]) + [a5] == [a0] + ([a1] + ([a2] + rest));
  }

  // The second half: the page is copied, the entry is changed, the store is made.
  lemma CopyRest(t: Sys, t3: Sys, e: Eager, k: Key, kc: Key, off: int, val: int) returns (u: Sys, d: Eager)
    requires SharedPage(t, e, k, kc) && t.count[t.pt[k].frame] > 1
    requires t3.pt == t.pt && Mapped(t3, k) && t3.mem[t.pt[k].frame] == t.mem[t.pt[k].frame]
      && t3.count[t.pt[k].frame] > 1
    requires kc.p in t3.act && t3.act[kc.p].FaultCopied? && t3.act[kc.p].v == kc.v
    requires t3.act[kc.p].f in t3.count && t3.act[kc.p].f in t3.mem && t3.act[kc.p].f != t.pt[k].frame
    ensures Path(t3, e, [FaultUnmap(kc.p)] + ([FaultMap(kc.p)] + ([Store(kc, off, val)] + [])), u, d)
    ensures Mapped(u, k) && u.mem[u.pt[k].frame] == t.mem[t.pt[k].frame]
  {
    var a3, a4, a5 := FaultUnmap(kc.p), FaultMap(kc.p), Store(kc, off, val);
    var t4 := Apply(t3, e, a3);
    var t5 := Apply(t4, e, a4);
    u, d := Apply(t5, e, a5), EApply(t5, e, a5);
    assert Path(u, d, [], u, d);
    Cons(t5, e, a5, [], u, d);
    Cons(t4, e, a4, [a5] + [], u, d);
    Cons(t3, e, a3, [a4] + ([a5] + []), u, d);
  }

  // Fork, the child's store fault and its store: the parent's page is unchanged if and only if
  // its frame's count was at least 1 before the fork.
  lemma StoreSparesParentIff(s: Sys, e: Eager, k: Key, c: int, off: int, val: int) returns (u: Sys, d: Eager)
    requires Lone(s, e, k, c) && s.free != [] && s.free[0] != s.pt[k].frame
    requires 0 <= off < |s.mem[s.pt[k].frame].bytes| && s.mem[s.pt[k].frame].bytes[off] != val
    ensures var n := s.count[s.pt[k].frame];
      Path(s, e, ForkOf(k, c) + (Handler(Key(c, k.v), n + 1) + [Store(Key(c, k.v), off, val)]), u, d)
    ensures Mapped(u, k) && (u.mem[u.pt[k].frame] == s.mem[s.pt[k].frame] <==> s.count[s.pt[k].frame] >= 1)
  {
    var t, e', kc, f := Forked(s, k, c), ForkedEager(e, k, c), Key(c, k.v), s.pt[k].frame;
    ForkPath(s, e, k, c);
    assert SharedPage(t, e', k, kc) && t.pt[k].frame == f;
    if s.count[f] >= 1 {
      u, d := CopyPath(t, e', k, kc, off, val);
    } else {
      u, d := SoloPath(t, e', k, kc, off, val);
      assert Poke(s.mem[f], off, val).bytes[off] == val;
    }
    Join(s, e, ForkOf(k, c), t, e', Handler(kc, s.count[f] + 1) + [Store(kc, off, val)], u, d);
  }

  // ---------------------------------------------------------------------
  // The machine with chunks: beside the actions on 4 KB frames there is uvmalloc's 2 MB step.

  datatype Both = Both(s: Sys, e: Eager, huge: seq<int>)

  // Chunk(p, v, rx): kalloc_huge and mappages for pages v .. v+511 of p, which become 512 small
  // entries because the range is not larger than 2 MB. Counts are not touched.
  datatype Step = Small(a: Action) | Chunk(p: int, v: int, rx: int)

  predicate Inside(f: int, base: int) { base <= f < base + HUGE }

  ghost predicate CanStep(b: Both, st: Step) {
    match st
    case Small(a) => Enabled(b.s, b.e, a)
    case Chunk(p, v, _) =>
      && b.huge != [] && p !in b.s.act
      && (forall f :: Inside(f, b.huge[0]) ==> f in b.s.mem)
      && (forall k :: k in b.e.mem || k in b.s.pt ==> k.p != p || !Inside(k.v, v))
  }

  function ChunkKeys(p: int, v: int): (ks: set<Key>)
    ensures forall k :: k in ks <==> k.p == p && Inside(k.v, v)
  {
    set i | v <= i < v + HUGE :: Key(p, i)
  }

  function ChunkMem(mem: map<int, Page>, base: int): (mem': map<int, Page>) {
    map f | f in mem :: if Inside(f, base) then Fill(6) else mem[f]
  }

  function ChunkEntries(p: int, v: int, base: int, rx: int): (m: map<Key, Pte>) {
    map k | k in ChunkKeys(p, v) :: Pte(base + k.v - v, true, true, false, rx)
  }

  function ChunkBytes(p: int, v: int): (m: map<Key, Page>) { map k | k in ChunkKeys(p, v) :: Fill(6) }

  function ChunkPerms(p: int, v: int, rx: int): (m: map<Key, int>) { map k | k in ChunkKeys(p, v) :: rx }

  ghost function Stepped(b: Both, st: Step): (b': Both)
    requires CanStep(b, st)
  {
    match st
    case Small(a) => Both(Apply(b.s, b.e, a), EApply(b.s, b.e, a), b.huge)
    case Chunk(p, v, rx) =>
      Both(b.s.(mem := ChunkMem(b.s.mem, b.huge[0]), pt := b.s.pt + ChunkEntries(p, v, b.huge[0], rx)),
           Eager(b.e.mem + ChunkBytes(p, v), b.e.wr + ChunkKeys(p, v), b.e.rx + ChunkPerms(p, v, rx)), b.huge[1..])
  }

  ghost predicate Leads(b: Both, sts: seq<Step>, b': Both)
    decreases |sts|
  {
    if sts == [] then b == b' else CanStep(b, sts[0]) && Leads(Stepped(b, sts[0]), sts[1..], b')
  }

  ghost predicate Reach(b: Both, b': Both) { exists sts :: Leads(b, sts, b') }

  // every process sees the bytes it would see had fork copied memory
  ghost predicate Refines(b: Both) {
    forall k :: k in b.s.pt ==> k in b.e.mem && b.s.pt[k].frame in b.s.mem && b.s.mem[b.s.pt[k].frame] == b.e.mem[k]
  }

  // what freerange leaves
  function Boot(free: seq<int>, huge: seq<int>, count: map<int, int>, mem: map<int, Page>): (b: Both) {
    Both(Sys(mem, count, free, {}, map[], multiset{}, map[]), Eager(map[], {}, map[]), huge)
  }

  lemma {:induction false} LeadsSnoc(b: Both, sts: seq<Step>, b': Both, st: Step)
    requires Leads(b, sts, b') && CanStep(b', st)
    ensures Leads(b, sts + [st], Stepped(b', st))
    decreases |sts|
  {
    if sts == [] {
      assert [st][1..] == [] && sts + [st] == [st];
    } else {
      assert (sts + [st])[0] == sts[0] && (sts + [st])[1..] == sts[1..] + [st];
      LeadsSnoc(Stepped(b, sts[0]), sts[1..], b', st);
    }
  }

  lemma ReachStep(b: Both, b': Both, st: Step)
    requires Reach(b, b') && CanStep(b', st)
    ensures Reach(b, Stepped(b', st))
  {
    var sts :| Leads(b, sts, b');
    LeadsSnoc(b, sts, b', st);
  }

  // Without a chunk only 4 KB frames are ever used, and copy-on-write refines eager copying.
  lemma {:induction false} NoChunkInv(b: Both, sts: seq<Step>, b': Both)
    requires Inv(b.s, b.e) && b.huge == [] && Leads(b, sts, b')
    ensures Inv(b'.s, b'.e)
    decreases |sts|
  {
    if sts != [] {
      ApplyKeeps(b.s, b.e, sts[0].a);
      NoChunkInv(Stepped(b, sts[0]), sts[1..], b');
    }
  }

  // ---------------------------------------------------------------------
  // The failing run: p grows by one chunk at page 0, forks c, and c stores to a page.

  // p has the chunk at base, its first i pages shared with c
  ghost predicate HalfForked(b: Both, p: int, c: int, i: int, base: int) {
    && b.s.act == map[p := Forking(c)] && p != c
    && (forall v :: 0 <= v < HUGE ==> PageIn(b, Key(p, v), base + v, v < i))
    && (forall v :: 0 <= v < i ==> PageIn(b, Key(c, v), base + v, true))
    && (forall v :: i <= v < HUGE ==> Key(c, v) !in b.s.pt && Key(c, v) !in b.e.mem)
    && (forall v :: i <= v < HUGE ==> Uncounted(b, base, v))
  }

  ghost predicate Uncounted(b: Both, base: int, v: int) { base + v in b.s.count && b.s.count[base + v] == 0 }

  // page k is in frame f and has the chunk's first bytes in both machines
  ghost predicate PageIn(b: Both, k: Key, f: int, shared: bool) {
    && Mapped(b.s, k) && b.s.pt[k].frame == f && b.s.pt[k].u && b.s.pt[k].w == !shared && b.s.pt[k].cow == shared
    && b.s.mem[f] == Fill(6) && k in b.e.mem && b.e.mem[k] == Fill(6) && k in b.e.rx
    && (shared ==> b.s.count[f] == 1)
  }

  lemma ChunkPage(b: Both, p: int, v: int)
    requires CanStep(b, Chunk(p, 0, 0)) && 0 <= v < HUGE && b.huge[0] + v in b.s.count && b.s.count[b.huge[0] + v] == 0
    ensures var b1 := Stepped(b, Chunk(p, 0, 0));
      PageIn(b1, Key(p, v), b.huge[0] + v, false) && Uncounted(b1, b.huge[0], v)
  {
    assert Inside(b.huge[0] + v, b.huge[0]) && Inside(v, 0);
  }

  // Another act of p does not matter to its pages.
  lemma SamePage(b: Both, b': Both, k: Key, f: int, shared: bool)
    requires PageIn(b, k, f, shared) && b'.e == b.e && b'.s == b.s.(act := b'.s.act)
    ensures PageIn(b', k, f, shared)
  {
  }

  ghost predicate Fresh(b: Both) {
    && b.s.act == map[] && b.s.pt == map[] && b.e == Eager(map[], {}, map[]) && b.huge != []
    && forall f :: Inside(f, b.huge[0]) ==> f in b.s.mem && f in b.s.count && b.s.count[f] == 0
  }

  lemma ChunkSteps(b: Both, p: int, c: int)
    requires Fresh(b) && p != c
    ensures CanStep(b, Chunk(p, 0, 0)) && CanStep(Stepped(b, Chunk(p, 0, 0)), Small(ForkStart(p, c)))
    ensures var b2 := Stepped(Stepped(b, Chunk(p, 0, 0)), Small(ForkStart(p, c)));
      b2.s.act == map[p := Forking(c)] && forall v :: Key(c, v) !in b2.s.pt && Key(c, v) !in b2.e.mem
  {
  }

  lemma ChunkForked(b: Both, p: int, c: int, v: int)
    requires Fresh(b) && p != c && 0 <= v < HUGE
    requires CanStep(b, Chunk(p, 0, 0)) && CanStep(Stepped(b, Chunk(p, 0, 0)), Small(ForkStart(p, c)))
    ensures var b2 := Stepped(Stepped(b, Chunk(p, 0, 0)), Small(ForkStart(p, c)));
      PageIn(b2, Key(p, v), b.huge[0] + v, false) && Uncounted(b2, b.huge[0], v)
  {
    var b1 := Stepped(b, Chunk(p, 0, 0));
    assert Inside(b.huge[0] + v, b.huge[0]);
    ChunkPage(b, p, v);
    SamePage(b1, Stepped(b1, Small(ForkStart(p, c))), Key(p, v), b.huge[0] + v, false);
  }

  lemma ChunkTaken(b: Both, p: int, c: int)
    requires Fresh(b) && p != c
    ensures CanStep(b, Chunk(p, 0, 0)) && CanStep(Stepped(b, Chunk(p, 0, 0)), Small(ForkStart(p, c)))
    ensures HalfForked(Stepped(Stepped(b, Chunk(p, 0, 0)), Small(ForkStart(p, c))), p, c, 0, b.huge[0])
  {
    ChunkSteps(b, p, c);
    var b2 := Stepped(Stepped(b, Chunk(p, 0, 0)), Small(ForkStart(p, c)));
    forall v | 0 <= v < HUGE ensures PageIn(b2, Key(p, v), b.huge[0] + v, false) && Uncounted(b2, b.huge[0], v) {
      ChunkForked(b, p, c, v);
    }
  }

  lemma ShareNext(b: Both, p: int, c: int, i: int, base: int)
    requires HalfForked(b, p, c, i, base) && 0 <= i < HUGE
    ensures CanStep(b, Small(ForkInc(p, i))) && CanStep(Stepped(b, Small(ForkInc(p, i))), Small(ForkMap(p)))
    ensures HalfForked(Stepped(Stepped(b, Small(ForkInc(p, i))), Small(ForkMap(p))), p, c, i + 1, base)
  {
    assert PageIn(b, Key(p, i), base + i, false) && Uncounted(b, base, i);
    var b1 := Stepped(b, Small(ForkInc(p, i)));
    var b2 := Stepped(b1, Small(ForkMap(p)));
    forall v | 0 <= v < HUGE ensures PageIn(b2, Key(p, v), base + v, v < i + 1) {
      assert PageIn(b, Key(p, v), base + v, v < i);
    }
    forall v | 0 <= v < i + 1 ensures PageIn(b2, Key(c, v), base + v, true) {
      assert v < i ==> PageIn(b, Key(c, v), base + v, true);
    }
    forall v | i + 1 <= v < HUGE ensures Uncounted(b2, base, v) {
      assert Uncounted(b, base, v);
    }
  }

  lemma {:induction false} ShareAll(b0: Both, b: Both, p: int, c: int, i: int, base: int) returns (b': Both)
    requires Reach(b0, b) && HalfForked(b, p, c, i, base) && 0 <= i <= HUGE
    ensures Reach(b0, b') && HalfForked(b', p, c, HUGE, base)
    decreases HUGE - i
  {
    if i == HUGE {
      b' := b;
    } else {
      ShareNext(b, p, c, i, base);
      ReachStep(b0, b, Small(ForkInc(p, i)));
      var b1 := Stepped(b, Small(ForkInc(p, i)));
      ReachStep(b0, b1, Small(ForkMap(p)));
      b' := ShareAll(b0, Stepped(b1, Small(ForkMap(p))), p, c, i + 1, base);
    }
  }

  lemma ChildStores(b0: Both, b: Both, p: int, c: int, v: int, base: int) returns (b': Both)
    requires Reach(b0, b) && HalfForked(b, p, c, HUGE, base) && 0 <= v < HUGE
    ensures Reach(b0, b') && !Refines(b')
  {
    assert PageIn(b, Key(p, v), base + v, true) && PageIn(b, Key(c, v), base + v, true);
    ReachStep(b0, b, Small(ForkEnd(p)));
    var b1 := Stepped(b, Small(ForkEnd(p)));
    assert b1.s.act == map[];
    SamePage(b, b1, Key(p, v), base + v, true);
    SamePage(b, b1, Key(c, v), base + v, true);
    b' := SharedStore(b0, b1, Key(p, v), Key(c, v), base + v);
  }

  lemma SharedStore(b0: Both, b1: Both, k: Key, kc: Key, f: int) returns (b': Both)
    requires Reach(b0, b1) && b1.s.act == map[] && k != kc && PageIn(b1, k, f, true) && PageIn(b1, kc, f, true)
    ensures Reach(b0, b') && !Refines(b')
  {
    ReachStep(b0, b1, Small(Fault(kc.p, kc.v)));
    var b2 := Stepped(b1, Small(Fault(kc.p, kc.v)));
    ReachStep(b0, b2, Small(SoloDone(kc.p)));
    var b3 := Stepped(b2, Small(SoloDone(kc.p)));
    ReachStep(b0, b3, Small(Store(kc, 0, 7)));
    b' := Stepped(b3, Small(Store(kc, 0, 7)));
    assert Poke(Fill(6), 0, 7).bytes[0] == 7 && Fill(6).bytes[0] == 6;
    assert k in b'.s.pt && b'.s.mem[b'.s.pt[k].frame] != b'.e.mem[k];
  }

  lemma ChunkBreaks(b: Both)
    requires Fresh(b)
    ensures exists b' :: Reach(b, b') && !Refines(b')
  {
    assert Leads(b, [], b);
    ChunkTaken(b, 1, 2);
    ReachStep(b, b, Chunk(1, 0, 0));
    var b1 := Stepped(b, Chunk(1, 0, 0));
    ReachStep(b, b1, Small(ForkStart(1, 2)));
    var b2 := Stepped(b1, Small(ForkStart(1, 2)));
    var b3 := ShareAll(b, b2, 1, 2, 0, b.huge[0]);
    var b4 := ChildStores(b, b3, 1, 2, 0, b.huge[0]);
  }

  // From the lists and counts that freerange makes of lo .. hi-1, every run of every process
  // refines eager copying if and only if no aligned 2 MB chunk fits in that range.
  lemma RefinesIffNoChunk(lo: int, hi: int, free: seq<int>, huge: seq<int>, count: map<int, int>, mem: map<int, Page>)
    requires Carved(lo, hi, free, huge, count) && AllChunks(lo, hi, hi, huge) && mem.Keys == count.Keys
    ensures (forall b' :: Reach(Boot(free, huge, count, mem), b') ==> Refines(b'))
      <==> (forall q :: Aligned(q) ==> q < lo || q + HUGE > hi)
  {
    var b := Boot(free, huge, count, mem);
    if huge == [] {
      forall q | Aligned(q) ensures q < lo || q + HUGE > hi {
        assert q !in huge;
      }
      assert Initial(b.s, b.e) by {
        assert forall f :: !InHuge(huge, f);
      }
      InitialInv(b.s, b.e);
      forall b' | Reach(b, b') ensures Refines(b') {
        var sts :| Leads(b, sts, b');
        NoChunkInv(b, sts, b');
      }
    } else {
      assert Aligned(huge[0]) && lo <= huge[0] && huge[0] + HUGE <= hi;
      ChunkBreaks(b);
    }
  }
}
