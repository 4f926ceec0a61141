/**
 The space bound needs a stricter budget than "at most MAXOPBLOCKS blocks per
 operation": log_write's guard runs before it looks for an entry to absorb.
 */
module LogBudget {
  import opened Params
  import opened LogMachine
  import opened LogProofs
  import opened LogTheorems
  import opened Sets

  // ---------------------------------------------------------------------
  // Runs as sequences of states.

  // acts[i] takes ss[i] to ss[i+1]
  ghost predicate Linked(l: Layout, ss: seq<Sys>, acts: seq<Action>, i: int)
    requires |ss| == |acts| + 1 && 0 <= i < |acts|
  {
    Base(l, ss[i]) && Enabled(l, ss[i], acts[i]) && ss[i + 1] == Apply(l, ss[i], acts[i])
  }

  ghost predicate Chain(l: Layout, ss: seq<Sys>, acts: seq<Action>) {
    |ss| == |acts| + 1 && forall i :: 0 <= i < |acts| ==> Linked(l, ss, acts, i)
  }

  lemma ChainSnoc(l: Layout, ss: seq<Sys>, acts: seq<Action>, a: Action, t: Sys)
    requires Chain(l, ss, acts)
    requires var s := ss[|acts|]; Base(l, s) && Enabled(l, s, a) && t == Apply(l, s, a)
    ensures Chain(l, ss + [t], acts + [a])
  {
    forall i | 0 <= i < |acts + [a]| ensures Linked(l, ss + [t], acts + [a], i) {
      if i < |acts| { assert Linked(l, ss, acts, i); }
    }
  }

  lemma TakeNext(pre: seq<Action>, acts: seq<Action>, k: int)
    requires 0 < k <= |acts|
    ensures pre + acts[..k] == (pre + acts[..k - 1]) + [acts[k - 1]]
  {
  }

  // The run pre, then the first k actions of the chain.
  lemma {:induction false} ChainExec(l: Layout, s: Sys, pre: seq<Action>, ss: seq<Sys>, acts: seq<Action>, k: int)
    requires Chain(l, ss, acts) && 0 <= k <= |acts| && Exec(l, s, pre) == Reached(ss[0])
    ensures Exec(l, s, pre + acts[..k]) == Reached(ss[k])
    decreases k
  {
    if k == 0 {
      assert pre + acts[..0] == pre;
    } else {
      ChainExec(l, s, pre, ss, acts, k - 1);
      TakeNext(pre, acts, k);
      assert Linked(l, ss, acts, k - 1);
      ExecTo(l, s, pre + acts[..k - 1], acts[k - 1], ss[k - 1], ss[k]);
    }
  }

  lemma ExecTo(l: Layout, s: Sys, acts: seq<Action>, a: Action, t: Sys, t': Sys)
    requires Exec(l, s, acts) == Reached(t) && Base(l, t) && Enabled(l, t, a) && t' == Apply(l, t, a)
    ensures Exec(l, s, acts + [a]) == Reached(t')
  {
    ExecSnoc(l, s, acts, a);
  }

  // ---------------------------------------------------------------------
  // Three operations fill the log.

  function Clamp(k: int): (r: int) { if k < 0 then 0 else if k > MAXOPBLOCKS then MAXOPBLOCKS else k }

  // three operations that have added k entries, ten each in turn
  function ThreeOps(n: int, k: int): (ops: map<int, int>) {
    map[n := Clamp(k), n + 1 := Clamp(k - 10), n + 2 := Clamp(k - 20)]
  }

  lemma ThreeOpsNext(n: int, k: int)
    requires 0 <= k < LOGSIZE
    ensures var ops := ThreeOps(n, k); var op := n + k / 10;
      op in ops && |ops| >= 1 && ops[op := ops[op] + 1] == ThreeOps(n, k + 1)
  {
    assert n in ThreeOps(n, k);
    if k < 10 { assert k / 10 == 0; } else if k < 20 { assert k / 10 == 1; } else { assert k / 10 == 2; }
  }

  // The operation whose turn it is has entries left.
  lemma ThreeOpsRoom(n: int, k: int)
    requires 0 <= k < LOGSIZE
    ensures n + k / 10 in ThreeOps(n, k) && ThreeOps(n, k)[n + k / 10] < MAXOPBLOCKS
  {
    if k < 10 { assert k / 10 == 0; } else if k < 20 { assert k / 10 == 1; } else { assert k / 10 == 2; }
  }

  // every write of the chain is within its operation's budget
  ghost predicate Thrifty(ss: seq<Sys>, acts: seq<Action>) {
    |ss| == |acts| + 1 && forall i :: 0 <= i < |acts| ==> InBudget(ss[i], acts[i])
  }

  lemma ThriftySnoc(ss: seq<Sys>, acts: seq<Action>, s: Sys, a: Action)
    requires Thrifty(ss, acts) && InBudget(ss[|acts|], a)
    ensures Thrifty(ss + [s], acts + [a])
  {
  }

  ghost predicate Filled(s: Sys, n: int, bs: seq<int>, k: int) {
    && 0 <= k <= |bs|
    && s.pc == Running && !s.committing
    && |s.lh| == k && (forall i :: 0 <= i < k ==> s.lh[i] == bs[i])
    && s.ops == ThreeOps(n, k)
  }

  lemma FillEnabled(l: Layout, s: Sys, n: int, bs: seq<int>, data: Block, k: int, op: int)
    requires Base(l, s) && Filled(s, n, bs, k) && k < |bs| <= LOGSIZE && ListOk(l, bs) && op == n + k / 10
    ensures Enabled(l, s, Write(op, bs[k], data)) && bs[k] !in s.lh
  {
    ThreeOpsNext(n, k);
  }

  lemma FillStep(l: Layout, s: Sys, n: int, bs: seq<int>, data: Block, k: int, op: int)
    requires Filled(s, n, bs, k) && k < |bs| <= LOGSIZE && bs[k] !in s.lh && op == n + k / 10 && op in s.ops
    ensures Filled(ApplyWrite(s, op, bs[k], data), n, bs, k + 1)
  {
    ThreeOpsNext(n, k);
  }

  lemma WriteKeepsBase(l: Layout, s: Sys, op: int, b: int, data: Block)
    requires Base(l, s) && s.pc == Running && op in s.ops && b in l.homes && b !in s.lh && !LogWritePanics(l, s)
    ensures Base(l, ApplyWrite(s, op, b, data))
  {
  }

  ghost predicate Idle(l: Layout, s: Sys) {
    Base(l, s) && s.pc == Running && !s.committing && s.lh == []
  }

  lemma BeginNext(l: Layout, s: Sys)
    requires Idle(l, s) && |s.ops| <= 2
    ensures Enabled(l, s, Begin) && Idle(l, Apply(l, s, Begin))
    ensures Apply(l, s, Begin).ops == s.ops[s.hist.nextOp := 0] && Apply(l, s, Begin).hist.nextOp == s.hist.nextOp + 1
  {
    assert View(Apply(l, s, Begin), l.start) == View(s, l.start);
  }

  lemma ThreeBegins(l: Layout, s: Sys) returns (ss: seq<Sys>, acts: seq<Action>)
    requires Idle(l, s) && s.ops == map[]
    ensures Chain(l, ss, acts) && ss[0] == s && acts == [Begin, Begin, Begin]
    ensures Idle(l, ss[3]) && ss[3].ops == ThreeOps(s.hist.nextOp, 0)
  {
    var n := s.hist.nextOp;
    BeginNext(l, s);
    var s1 := Apply(l, s, Begin);
    assert s1.ops == map[n := 0] && |map[n := 0]| == 1;
    BeginNext(l, s1);
    var s2 := Apply(l, s1, Begin);
    assert s2.ops == map[n := 0, n + 1 := 0] && |map[n := 0, n + 1 := 0]| == 2;
    BeginNext(l, s2);
    ChainSnoc(l, [s], [], Begin, s1);
    ChainSnoc(l, [s] + [s1], [] + [Begin], Begin, s2);
    ss, acts := [s] + [s1] + [s2], [] + [Begin] + [Begin];
    ChainSnoc(l, ss, acts, Begin, Apply(l, s2, Begin));
    ss, acts := ss + [Apply(l, s2, Begin)], acts + [Begin];
  }

  lemma {:induction false} Fill(l: Layout, s: Sys, bs: seq<int>, data: Block, k: int)
    returns (ss: seq<Sys>, acts: seq<Action>)
    requires Idle(l, s) && s.ops == map[] && 0 <= k <= |bs| <= LOGSIZE && ListOk(l, bs)
    ensures Chain(l, ss, acts) && |acts| == k + 3 && ss[0] == s
    ensures Base(l, ss[k + 3]) && Filled(ss[k + 3], s.hist.nextOp, bs, k)
    ensures forall a :: a in acts ==> a.Begin? || a.Write?
    ensures Thrifty(ss, acts)
    decreases k
  {
    if k == 0 {
      ss, acts := ThreeBegins(l, s);
    } else {
      ss, acts := Fill(l, s, bs, data, k - 1);
      ss, acts := FillOne(l, ss, acts, s.hist.nextOp, bs, data, k - 1);
    }
  }

  lemma Written(l: Layout, s: Sys, n: int, bs: seq<int>, data: Block, k: int, op: int) returns (s': Sys)
    requires Base(l, s) && Filled(s, n, bs, k) && k < |bs| <= LOGSIZE && ListOk(l, bs) && op == n + k / 10
    ensures Enabled(l, s, Write(op, bs[k], data)) && s' == Apply(l, s, Write(op, bs[k], data))
    ensures Base(l, s') && Filled(s', n, bs, k + 1)
  {
    FillEnabled(l, s, n, bs, data, k, op);
    FillStep(l, s, n, bs, data, k, op);
    WriteKeepsBase(l, s, op, bs[k], data);
    s' := ApplyWrite(s, op, bs[k], data);
  }

  lemma FillOne(l: Layout, ss: seq<Sys>, acts: seq<Action>, n: int, bs: seq<int>, data: Block, k: int)
    returns (ss': seq<Sys>, acts': seq<Action>)
    requires Chain(l, ss, acts) && 0 <= k < |bs| <= LOGSIZE && ListOk(l, bs)
    requires Base(l, ss[|acts|]) && Filled(ss[|acts|], n, bs, k) && Thrifty(ss, acts)
    ensures Thrifty(ss', acts')
    ensures Chain(l, ss', acts') && acts' == acts + [Write(n + k / 10, bs[k], data)] && ss'[0] == ss[0]
    ensures Base(l, ss'[|acts'|]) && Filled(ss'[|acts'|], n, bs, k + 1)
  {
    var s, a := ss[|acts|], Write(n + k / 10, bs[k], data);
    var s' := Written(l, s, n, bs, data, k, a.op);
    ChainSnoc(l, ss, acts, a, s');
    ThreeOpsRoom(n, k);
    ThriftySnoc(ss, acts, s', a);
    ss', acts' := ss + [s'], acts + [a];
  }

  // Three operations, as begin_op admits them, log exactly MAXOPBLOCKS distinct
  // blocks each; then one more log_write, of a block already in the log, panics.
  lemma AbsorbedWritePanics(l: Layout, s: Sys, bs: seq<int>, data: Block) returns (run: seq<Action>, t: Sys)
    requires Idle(l, s) && s.ops == map[] && |bs| == LOGSIZE && ListOk(l, bs)
    ensures Exec(l, s, run) == Reached(t)
    ensures forall op :: op in t.ops ==> t.ops[op] == MAXOPBLOCKS
    ensures forall a :: a in run ==> a.Begin? || a.Write?
    ensures s.hist.nextOp in t.ops && bs[0] in t.lh && LogWritePanics(l, t)
  {
    var ss, acts := Fill(l, s, bs, data, LOGSIZE);
    ChainExec(l, s, [], ss, acts, |acts|);
    assert [] + acts[..|acts|] == acts;
    run, t := acts, ss[|acts|];
    assert t.lh[0] == bs[0];
  }

  // ---------------------------------------------------------------------
  // How large the log has to be.

  // Recovery ends with an empty log and nobody in it.
  lemma Recovered(l: Layout, init: Disk, s: Sys) returns (run: seq<Action>, t: Sys)
    requires Initial(l, init, s)
    ensures Exec(l, s, run) == Reached(t) && Rebooting(run) && Idle(l, t) && t.ops == map[]
  {
    InitialInv(l, init, s);
    var n := |Entries(s.disk[l.start])|;
    RecoveryCompletes(l, init, s, n + 1);
    RunKeeps(l, init, s, Steps(n + 1));
    var t1 := Exec(l, s, Steps(n + 1)).s;
    OneMore(l, s, n + 1, t1);
    run, t := Steps(n + 2), ApplyStep(l, t1);
    RunKeeps(l, init, s, run);
  }

  lemma {:induction false} RebootBudget(l: Layout, s: Sys, acts: seq<Action>)
    requires Rebooting(acts) && Exec(l, s, acts).Reached?
    ensures BudgetRun(l, s, acts)
  {
    if acts != [] { RebootBudget(l, s, acts[..|acts| - 1]); }
  }

  lemma BudgetSnoc(l: Layout, s: Sys, acts: seq<Action>, a: Action, t: Sys)
    requires BudgetRun(l, s, acts) && Exec(l, s, acts) == Reached(t) && InBudget(t, a)
    ensures BudgetRun(l, s, acts + [a])
  {
    assert (acts + [a])[..|acts + [a]| - 1] == acts;
  }

  lemma {:induction false} ChainBudget(l: Layout, s: Sys, pre: seq<Action>, ss: seq<Sys>, acts: seq<Action>, k: int)
    requires Chain(l, ss, acts) && Thrifty(ss, acts) && 0 <= k <= |acts|
    requires Exec(l, s, pre) == Reached(ss[0]) && BudgetRun(l, s, pre)
    ensures BudgetRun(l, s, pre + acts[..k])
    decreases k
  {
    if k == 0 {
      assert pre + acts[..0] == pre;
    } else {
      ChainBudget(l, s, pre, ss, acts, k - 1);
      ChainExec(l, s, pre, ss, acts, k - 1);
      TakeNext(pre, acts, k);
      assert InBudget(ss[k - 1], acts[k - 1]);
      BudgetSnoc(l, s, pre + acts[..k - 1], acts[k - 1], ss[k - 1]);
    }
  }

  // With fewer than LOGSIZE log blocks, three operations within their budgets fill the log, and
  // the next log_write of one that has entries left panics.
  lemma ShortLogPanics(l: Layout, init: Disk, s: Sys, bs: seq<int>, data: Block) returns (run: seq<Action>, t: Sys)
    requires Initial(l, init, s) && l.size <= LOGSIZE && |bs| == l.size - 1 && ListOk(l, bs)
    ensures Exec(l, s, run) == Reached(t) && BudgetRun(l, s, run) && !Spared(l, t)
  {
    var pre, t0 := Recovered(l, init, s);
    RebootBudget(l, s, pre);
    var ss, acts := Fill(l, t0, bs, data, |bs|);
    ChainExec(l, s, pre, ss, acts, |acts|);
    ChainBudget(l, s, pre, ss, acts, |acts|);
    run, t := pre + acts[..|acts|], ss[|acts|];
    FullPanics(l, t, t0.hist.nextOp, bs);
  }

  lemma FullPanics(l: Layout, t: Sys, n: int, bs: seq<int>)
    requires Filled(t, n, bs, |bs|) && |bs| == l.size - 1 < LOGSIZE
    ensures !Spared(l, t)
  {
    ThreeOpsRoom(n, |bs|);
  }

  // every run of callers within their budgets ends in a state where none of them would panic
  ghost predicate PanicFree(l: Layout, s: Sys) {
    forall acts :: Exec(l, s, acts).Reached? && BudgetRun(l, s, acts) ==> Spared(l, Exec(l, s, acts).s)
  }

  lemma {:induction false} Listing(homes: set<int>, n: int) returns (bs: seq<int>)
    requires 0 <= n <= |homes|
    ensures |bs| == n && Distinct(bs) && forall i :: 0 <= i < n ==> bs[i] in homes
    decreases n
  {
    if n == 0 {
      bs := [];
    } else {
      var b := Pick(homes);
      bs := Listing(homes - {b}, n - 1);
      bs := bs + [b];
    }
  }

  // initlog does not look at the size of the log: whatever it is, the budget of MAXOPBLOCKS
  // keeps every log_write of every run from panicking if and only if there are LOGSIZE blocks
  // beside the header.
  lemma RoomIff(l: Layout, init: Disk, s: Sys)
    requires Initial(l, init, s) && |l.homes| >= LOGSIZE
    ensures PanicFree(l, s) <==> l.size > LOGSIZE
  {
    if l.size > LOGSIZE {
      forall acts | Exec(l, s, acts).Reached? && BudgetRun(l, s, acts) ensures Spared(l, Exec(l, s, acts).s) {
        SpaceSafety(l, init, s, acts);
      }
    } else {
      var bs := Listing(l.homes, l.size - 1);
      var run, t := ShortLogPanics(l, init, s, bs, Block([]));
      assert !PanicFree(l, s);
    }
  }
}
