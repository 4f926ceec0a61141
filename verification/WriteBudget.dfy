/**
 The file system's chunks as operations of the log: a filewrite chunk logs at most
 MAXOPBLOCKS - 1 blocks and then its inode's block, and so never meets log_write's panic.
 */
module WriteBudget {
  import opened Params
  import opened LogMachine
  import opened LogTheorems

  // Before its last log_write, operation op logs blocks of touched[op] only, and these are at most
  // MAXOPBLOCKS - 1; the last is the inode's. FsCode's Writei provides such sets.
  ghost predicate ChunkRun(acts: seq<Action>, touched: map<int, set<int>>) {
    && (forall i :: 0 <= i < |acts| && acts[i].Write? ==>
      acts[i].op in touched && |touched[acts[i].op]| <= MAXOPBLOCKS - 1)
    && (forall i, j :: 0 <= i < j < |acts| && acts[i].Write? && acts[j].Write? && acts[i].op == acts[j].op ==>
          acts[i].op in touched && acts[i].b in touched[acts[i].op])
  }

  ghost predicate Wrote(acts: seq<Action>, i: int, op: int, b: int) {
    0 <= i < |acts| && acts[i].Write? && acts[i].op == op && acts[i].b == b
  }

  // An action adds an update only if it is a log_write.
  lemma NewUpdate(l: Layout, s: Sys, a: Action, op: int, b: int)
    requires Base(l, s) && Enabled(l, s, a) && b in Blocks(Apply(l, s, a).hist.updates, op)
    ensures b in Blocks(s.hist.updates, op) || (a.Write? && a.op == op && a.b == b)
  {
    if a.Write? {
      BlocksSnoc(s.hist.updates, Update(a.op, a.b, a.data), op);
    } else {
      var us, us' := s.hist.updates, Apply(l, s, a).hist.updates;
      OldUpdates(l, s, a);
      var i :| 0 <= i < |us'| && us'[i].op == op && us'[i].b == b;
      assert us[i] == us'[i];
    }
  }

  lemma OldUpdates(l: Layout, s: Sys, a: Action)
    requires Base(l, s) && Enabled(l, s, a) && !a.Write?
    ensures Apply(l, s, a).hist.updates <= s.hist.updates
  {
    if a == Step { StepEffect(l, s); }
  }

  lemma {:induction false} BlocksFromActs(l: Layout, s: Sys, acts: seq<Action>, op: int, b: int)
    requires s.hist.updates == [] && Exec(l, s, acts).Reached? && b in Blocks(Exec(l, s, acts).s.hist.updates, op)
    ensures exists i :: Wrote(acts, i, op, b)
  {
    if acts != [] {
      var n := |acts| - 1;
      var t := Exec(l, s, acts[..n]).s;
      NewUpdate(l, t, acts[n], op, b);
      if b in Blocks(t.hist.updates, op) {
        BlocksFromActs(l, s, acts[..n], op, b);
        var i :| Wrote(acts[..n], i, op, b);
        assert Wrote(acts, i, op, b);
      } else {
        assert Wrote(acts, n, op, b);
      }
    }
  }

  lemma Fewer(a: set<int>, b: set<int>)
    requires a <= b
    ensures |a| <= |b|
  {
    assert b == a + (b - a);
  }

  lemma ChunkFrugal(l: Layout, s: Sys, acts: seq<Action>, n: int, touched: map<int, set<int>>)
    requires s.hist.updates == [] && 0 <= n < |acts| && Exec(l, s, acts[..n]).Reached? && ChunkRun(acts, touched)
    ensures Frugal(Exec(l, s, acts[..n]).s, acts[n])
  {
    var a := acts[n];
    if a.Write? {
      var bs := Blocks(Exec(l, s, acts[..n]).s.hist.updates, a.op);
      forall b | b in bs ensures b in touched[a.op] {
        BlocksFromActs(l, s, acts[..n], a.op, b);
        var i :| Wrote(acts[..n], i, a.op, b);
        assert acts[i] == acts[..n][i];
      }
      Fewer(bs, touched[a.op]);
    }
  }

  lemma Shorter(acts: seq<Action>, touched: map<int, set<int>>, n: int)
    requires ChunkRun(acts, touched) && 0 <= n <= |acts|
    ensures ChunkRun(acts[..n], touched)
  {
    assert forall i :: 0 <= i < n ==> acts[..n][i] == acts[i];
  }

  lemma FrugalNext(l: Layout, s: Sys, acts: seq<Action>, n: int)
    requires 0 <= n && |acts| == n + 1 && Exec(l, s, acts[..n]).Reached? && Frugal(Exec(l, s, acts[..n]).s, acts[n])
      && FrugalRun(l, s, acts[..n])
    ensures FrugalRun(l, s, acts)
  {
  }

  lemma {:induction false} ChunksFrugal(l: Layout, s: Sys, acts: seq<Action>, touched: map<int, set<int>>)
    requires s.hist.updates == [] && Exec(l, s, acts).Reached? && ChunkRun(acts, touched)
    ensures FrugalRun(l, s, acts)
  {
    if acts != [] {
      var n := |acts| - 1;
      assert Exec(l, s, acts[..n]).Reached?;
      assert ChunkRun(acts[..n], touched) by { Shorter(acts, touched, n); }
      ChunksFrugal(l, s, acts[..n], touched);
      ChunkFrugal(l, s, acts, n, touched);
      FrugalNext(l, s, acts, n);
    }
  }

  // In every interleaving of such operations, the next log_write does not panic.
  lemma ChunksNeverPanic(l: Layout, init: Disk, s: Sys, acts: seq<Action>, op: int, b: int, data: Block,
      touched: map<int, set<int>>)
    requires Initial(l, init, s) && l.size > LOGSIZE && Exec(l, s, acts).Reached? && op in Exec(l, s, acts).s.ops
    requires ChunkRun(acts + [Write(op, b, data)], touched)
    ensures !LogWritePanics(l, Exec(l, s, acts).s)
  {
    var all := acts + [Write(op, b, data)];
    Shorter(all, touched, |acts|);
    assert all[..|acts|] == acts;
    ChunksFrugal(l, s, acts, touched);
    ChunkFrugal(l, s, all, |acts|, touched);
    BlocksBudget(l, init, s, acts, op);
  }
}
