/**
 Copy-on-write over whole runs: it refines eager copying, and the counts are exact.
 */
module CowTheorems {
  import opened CowMachine
  import opened CowProofs

  lemma FaultsKeep(s: Sys, e: Eager, a: Action)
    requires Inv(s, e) && Enabled(s, e, a)
    requires a.Fault? || a.SoloDone? || a.FaultAlloc? || a.FaultFail? || a.FaultMove? || a.FaultUnmap? || a.FaultMap?
    ensures Inv(Apply(s, e, a), EApply(s, e, a))
  {
    match a
    case Fault(p, v) => FaultKeeps(s, e, p, v);
    case SoloDone(p) => SoloKeeps(s, e, p);
    case FaultAlloc(p) => FaultAllocKeeps(s, e, p);
    case FaultFail(p) => FaultFailKeeps(s, e, p);
    case FaultMove(p) => FaultMoveKeeps(s, e, p);
    case FaultUnmap(p) => FaultUnmapKeeps(s, e, p);
    case FaultMap(p) => FaultMapKeeps(s, e, p);
  }

  lemma ForksKeep(s: Sys, e: Eager, a: Action)
    requires Inv(s, e) && Enabled(s, e, a)
    requires a.ForkStart? || a.ForkInc? || a.ForkMap? || a.ForkFail? || a.ForkEnd?
    ensures Inv(Apply(s, e, a), EApply(s, e, a))
  {
    match a
    case ForkStart(p, c) => ForkStartKeeps(s, e, p, c);
    case ForkInc(p, v) => ForkIncKeeps(s, e, p, v);
    case ForkMap(p) => ForkMapKeeps(s, e, p);
    case ForkFail(p) => ForkFailKeeps(s, e, p);
    case ForkEnd(p) => ForkEndKeeps(s, e, p);
  }

  lemma MemKeeps(s: Sys, e: Eager, a: Action)
    requires Inv(s, e) && Enabled(s, e, a)
    requires a.Store? || a.Grow? || a.Unmap? || a.KAlloc? || a.KFree? || a.Push?
    ensures Inv(Apply(s, e, a), EApply(s, e, a))
  {
    match a
    case Store(k, off, val) => StoreKeeps(s, e, k, off, val);
    case Grow(k, f, w, rx) => GrowKeeps(s, e, k, f, w, rx);
    case Unmap(k) => UnmapKeeps(s, e, k);
    case KAlloc => KAllocKeeps(s, e);
    case KFree(f) => KFreeKeeps(s, e, f);
    case Push(f) => PushKeeps(s, e, f);
  }

  lemma ApplyKeeps(s: Sys, e: Eager, a: Action)
    requires Inv(s, e) && Enabled(s, e, a)
    ensures Inv(Apply(s, e, a), EApply(s, e, a))
  {
    if a.Store? || a.Grow? || a.Unmap? || a.KAlloc? || a.KFree? || a.Push? {
      MemKeeps(s, e, a);
    } else if a.ForkStart? || a.ForkInc? || a.ForkMap? || a.ForkFail? || a.ForkEnd? {
      ForksKeep(s, e, a);
    } else {
      FaultsKeep(s, e, a);
    }
  }

  // Both machines side by side, ss[i] and es[i] the states before action i.
  ghost predicate Linked(ss: seq<Sys>, es: seq<Eager>, acts: seq<Action>, i: int)
    requires |ss| == |es| == |acts| + 1 && 0 <= i < |acts|
  {
    Enabled(ss[i], es[i], acts[i])
    && ss[i + 1] == Apply(ss[i], es[i], acts[i]) && es[i + 1] == EApply(ss[i], es[i], acts[i])
  }

  ghost predicate Run(ss: seq<Sys>, es: seq<Eager>, acts: seq<Action>) {
    |ss| == |es| == |acts| + 1 && forall i :: 0 <= i < |acts| ==> Linked(ss, es, acts, i)
  }

  // all frames free, no process has memory
  ghost predicate Initial(s: Sys, e: Eager) {
    && s.pt == map[] && s.act == map[] && s.kern == multiset{} && s.limbo == {}
    && e == Eager(map[], {}, map[]) && s.count.Keys == s.mem.Keys
    && (forall f :: f in s.count ==> s.count[f] == 0)
    && (forall f :: f in s.count <==> f in s.free)
    && (forall i, j :: 0 <= i < j < |s.free| ==> s.free[i] != s.free[j])
  }

  lemma InitialInv(s: Sys, e: Eager)
    requires Initial(s, e)
    ensures Inv(s, e)
  {
    assert forall f :: Refs(s.pt, f) == {} && Holders(s.act, f) == {};
  }

  lemma {:induction false} RunInv(ss: seq<Sys>, es: seq<Eager>, acts: seq<Action>, k: int)
    requires Run(ss, es, acts) && Initial(ss[0], es[0]) && 0 <= k <= |acts|
    ensures Inv(ss[k], es[k])
    decreases k
  {
    if k == 0 {
      InitialInv(ss[0], es[0]);
    } else {
      RunInv(ss, es, acts, k - 1);
      assert Linked(ss, es, acts, k - 1);
      ApplyKeeps(ss[k - 1], es[k - 1], acts[k - 1]);
    }
  }

  // Refinement: in every state of every run, every page a process has mapped holds
  // the bytes it would hold had fork copied eagerly, may be read and executed as it could
  // there, and stored to (after a fault if need be) exactly if it could be there.
  lemma CowRefinesEager(ss: seq<Sys>, es: seq<Eager>, acts: seq<Action>, i: int)
    requires Run(ss, es, acts) && Initial(ss[0], es[0]) && 0 <= i <= |acts|
    ensures var s, e := ss[i], es[i];
      && (forall k :: k in s.pt ==> k in e.mem && s.pt[k].frame in s.mem && s.mem[s.pt[k].frame] == e.mem[k])
      && (forall k :: k in s.pt ==> (k in e.wr <==> s.pt[k].w || s.pt[k].cow))
      && (forall k :: k in s.pt ==> s.pt[k].u && k in e.rx && s.pt[k].rx == e.rx[k])
      && (forall k :: k in e.mem && k.p !in s.act ==> k in s.pt)
  {
    RunInv(ss, es, acts, i);
  }

  // Frame accounting in every state of every run.
  lemma FrameAccounting(ss: seq<Sys>, es: seq<Eager>, acts: seq<Action>, i: int)
    requires Run(ss, es, acts) && Initial(ss[0], es[0]) && 0 <= i <= |acts|
    ensures var s := ss[i];
      && (forall f :: f in s.count ==> s.count[f] == |Refs(s.pt, f)| + |Holders(s.act, f)| + s.kern[f])
      && (forall f :: f in s.count ==> (s.count[f] == 0 <==> f in s.free || f in s.limbo))
      && (forall a, b :: 0 <= a < b < |s.free| ==> s.free[a] != s.free[b])
      && (forall k :: k in s.pt && s.pt[k].w ==> s.pt[k].frame in s.count && s.count[s.pt[k].frame] == 1)
  {
    RunInv(ss, es, acts, i);
    var s := ss[i];
    forall f | f in s.count ensures s.count[f] == |Refs(s.pt, f)| + |Holders(s.act, f)| + s.kern[f] {
      assert s.count[f] == Owners(s, f);
    }
  }

  // A store, or a successful copyout, changes no other process's view of anything.
  lemma StoreIsLocal(s: Sys, e: Eager, k: Key, off: int, val: int, k': Key)
    requires Inv(s, e) && Enabled(s, e, Store(k, off, val)) && k' in s.pt && k' != k
    ensures var s' := Apply(s, e, Store(k, off, val));
      k' in s'.pt && s'.pt[k'].frame in s'.mem && s'.mem[s'.pt[k'].frame] == s.mem[s.pt[k'].frame]
  {
    StoreFrame(s, k, k');
  }

  // kfree is never called on a frame of count zero, so ref_counts cannot wrap.
  lemma FreeHasOwner(s: Sys, e: Eager, a: Action)
    requires Inv(s, e) && Enabled(s, e, a)
    ensures a.Unmap? ==> s.count[s.pt[a.k].frame] >= 1
    ensures a.KFree? ==> s.count[a.f] >= 1
    ensures a.FaultUnmap? ==> s.count[s.pt[Key(a.p, s.act[a.p].v)].frame] >= 1
    ensures a.ForkFail? ==> s.count[s.act[a.p].f] >= 2
  {
    match a
    case Unmap(k) => RefCount(s, k);
    case KFree(f) => assert s.count[f] == Owners(s, f);
    case FaultUnmap(p) => RefCount(s, Key(p, s.act[p].v));
    case ForkFail(p) => assert ActOk(s, e, p); RefAndHold(s, Key(p, s.act[p].v), p);
    case _ =>
  }

  // When the page tables and kernel owners are what they were, so are all counts:
  // in particular a fork that fails part way and unmaps its child's pages leaves
  // no trace in ref_counts, whatever other processes did in between.
  lemma CountsDetermined(s: Sys, e: Eager, t: Sys, e': Eager)
    requires Inv(s, e) && Inv(t, e') && s.count.Keys == t.count.Keys
    requires s.kern == t.kern && s.act == t.act && s.pt.Keys == t.pt.Keys
    requires forall k :: k in s.pt ==> s.pt[k].frame == t.pt[k].frame
    ensures s.count == t.count
  {
    forall f | f in s.count ensures s.count[f] == t.count[f] {
      assert s.count[f] == Owners(s, f) && t.count[f] == Owners(t, f);
      assert Refs(s.pt, f) == Refs(t.pt, f);
    }
  }

  // fork's sharing of page k with child c, in the eager machine
  ghost function ForkedEager(e: Eager, k: Key, c: int): (e': Eager)
    requires k in e.mem && k in e.rx
  {
    Eager(e.mem[Key(c, k.v) := e.mem[k]], if k in e.wr then e.wr + {Key(c, k.v)} else e.wr,
          e.rx[Key(c, k.v) := e.rx[k]])
  }
}
