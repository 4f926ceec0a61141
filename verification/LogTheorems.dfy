/**
 What the log promises over whole runs: crash atomicity, group commit and log space.
 */
module LogTheorems {
  import opened Params
  import opened LogMachine
  import opened LogProofs
  import opened Sets

  datatype Outcome = Stuck | Reached(s: Sys)

  // The state after a sequence of actions, if each was possible when it came.
  ghost function Exec(l: Layout, s: Sys, acts: seq<Action>): (r: Outcome)
  {
    if acts == [] then Reached(s)
    else
      var r := Exec(l, s, acts[..|acts| - 1]);
      var a := acts[|acts| - 1];
      if r.Reached? && Base(l, r.s) && Enabled(l, r.s, a) then Reached(Apply(l, r.s, a)) else Stuck
  }

  lemma ExecSnoc(l: Layout, s: Sys, acts: seq<Action>, a: Action)
    requires var r := Exec(l, s, acts); r.Reached? && Base(l, r.s) && Enabled(l, r.s, a)
    ensures Exec(l, s, acts + [a]) == Reached(Apply(l, Exec(l, s, acts).s, a))
  {
    assert (acts + [a])[..|acts + [a]| - 1] == acts;
  }

  lemma StepKeeps(l: Layout, s: Sys)
    requires SysInv(l, s) && s.pc != Running
    ensures SysInv(l, ApplyStep(l, s))
  {
    match s.pc
    case WriteLog(_) => WriteLogKeeps(l, s);
    case WriteHead => WriteHeadKeeps(l, s);
    case Install(_) => InstallKeeps(l, s);
    case ClearHead => ClearHeadKeeps(l, s);
    case Finish => FinishKeeps(l, s);
    case Boot => BootKeeps(l, s);
    case RInstall(_) => RInstallKeeps(l, s);
    case RClear => RClearKeeps(l, s);
  }

  lemma SysKeeps(l: Layout, init: Disk, s: Sys, a: Action)
    requires Inv(l, init, s) && Enabled(l, s, a)
    ensures SysInv(l, Apply(l, s, a))
  {
    match a
    case Begin => BeginKeeps(l, s);
    case Write(op, b, data) => WriteKeeps(l, s, op, b, data);
    case End(op) => EndSys(l, init, s, op);
    case Step => StepKeeps(l, s);
    case Load(b) => LoadKeeps(l, s, b);
    case Evict(b) => EvictKeeps(l, s, b);
    case Crash => CrashKeeps(l, s);
  }

  lemma EndSys(l: Layout, init: Disk, s: Sys, op: int)
    requires Inv(l, init, s) && op in s.ops
    ensures SysInv(l, ApplyEnd(s, op))
  {
    assert s.hist.updates[..|s.hist.updates|] == s.hist.updates;
    EndKeeps(l, s, op);
  }

  // The header write of commit is the only step that makes anything durable.
  lemma StepEffect(l: Layout, s: Sys)
    requires Base(l, s) && s.pc != Running
    ensures var s' := ApplyStep(l, s);
      && s'.hist == (if s.pc == WriteHead then Committed(s.hist) else s.hist)
      && s'.ops == s.ops
      && (s.pc.Boot? ==> s'.lh == Entries(View(s, l.start)) && s'.pc == if |s'.lh| == 0 then RClear else RInstall(0))
      && (s.pc.RInstall? ==>
        s'.lh == s.lh && s'.pc == if s.pc.tail + 1 == |s.lh| then RClear else RInstall(s.pc.tail + 1))
      && (s.pc.RClear? ==> s'.pc == Running)
  {
  }

  lemma HistKeeps(l: Layout, init: Disk, s: Sys, a: Action)
    requires HistOk(l, init, s.hist, s.ops) && Base(l, s) && ModeOk(s) && Enabled(l, s, a)
    ensures HistOk(l, init, Apply(l, s, a).hist, Apply(l, s, a).ops)
  {
    match a
    case Write(op, b, data) =>
      UpdatedHist(l, init, s.hist, s.ops, Update(op, b, data), ApplyWrite(s, op, b, data).ops);
    case Step => StepHist(l, init, s);
    case Crash => LostHist(l, init, s.hist, s.ops);
    case _ => OpsHist(l, init, s, a);
  }

  lemma StepHist(l: Layout, init: Disk, s: Sys)
    requires HistOk(l, init, s.hist, s.ops) && Base(l, s) && ModeOk(s) && s.pc != Running
    ensures HistOk(l, init, ApplyStep(l, s).hist, ApplyStep(l, s).ops)
  {
    StepEffect(l, s);
    if s.pc == WriteHead { CommittedHist(l, init, s.hist); }
  }

  // begin_op and end_op change the set of operations only, buffer traffic nothing.
  lemma OpsHist(l: Layout, init: Disk, s: Sys, a: Action)
    requires HistOk(l, init, s.hist, s.ops) && Base(l, s) && Enabled(l, s, a)
      && (a.Begin? || a.End? || a.Load? || a.Evict?)
    ensures HistOk(l, init, Apply(l, s, a).hist, Apply(l, s, a).ops)
  {
    var h', ops' := Apply(l, s, a).hist, Apply(l, s, a).ops;
    assert h' == s.hist.(nextOp := h'.nextOp);
    assert WholeOps(h', ops');
  }

  lemma ApplyKeeps(l: Layout, init: Disk, s: Sys, a: Action)
    requires Inv(l, init, s) && Enabled(l, s, a)
    ensures Inv(l, init, Apply(l, s, a))
  {
    SysKeeps(l, init, s, a);
    HistKeeps(l, init, s, a);
  }

  lemma {:induction false} RunKeeps(l: Layout, init: Disk, s: Sys, acts: seq<Action>)
    requires Inv(l, init, s) && Exec(l, s, acts).Reached?
    ensures Inv(l, init, Exec(l, s, acts).s)
  {
    if acts != [] {
      var before := acts[..|acts| - 1];
      RunKeeps(l, init, s, before);
      ApplyKeeps(l, init, Exec(l, s, before).s, acts[|acts| - 1]);
    }
  }

  // ---------------------------------------------------------------------
  // Crash atomicity.

  ghost function Homes(l: Layout, d: Disk): (h: Disk)
  {
    map b | b in l.homes && b in d :: d[b]
  }

  // Nothing but rebooting: recovery steps, further crashes, buffer traffic.
  ghost predicate Rebooting(acts: seq<Action>) {
    forall i :: 0 <= i < |acts| ==> acts[i].Step? || acts[i].Crash? || acts[i].Load? || acts[i].Evict?
  }

  // freshly booted, or still booting
  ghost predicate Quiet(s: Sys) {
    && s.ops == map[] && s.hist.durable == |s.hist.updates|
    && (Recovering(s.pc) || s.pc == Running)
    && Lost(s.hist) == s.hist
  }

  lemma RebootStep(l: Layout, s: Sys, a: Action)
    requires Base(l, s) && Quiet(s) && Enabled(l, s, a) && Rebooting([a])
    ensures Quiet(Apply(l, s, a)) && Apply(l, s, a).hist == s.hist
  {
    assert [a][0] == a;
    if a == Step { StepEffect(l, s); }
  }

  // After a crash the durable state stays what it was, however often recovery is cut short.
  lemma {:induction false} RebootKeepsDurable(l: Layout, s: Sys, acts: seq<Action>)
    requires Quiet(s) && Rebooting(acts) && Exec(l, s, acts).Reached?
    ensures Quiet(Exec(l, s, acts).s) && Exec(l, s, acts).s.hist == s.hist
  {
    if acts != [] {
      var before := acts[..|acts| - 1];
      RebootKeepsDurable(l, s, before);
      RebootStep(l, Exec(l, s, before).s, acts[|acts| - 1]);
    }
  }

  lemma CrashQuiet(l: Layout, init: Disk, s: Sys)
    requires Inv(l, init, s)
    ensures Quiet(Apply(l, s, Crash)) && Apply(l, s, Crash).hist.dur == s.hist.dur
  {
    var us := s.hist.updates[..s.hist.durable];
    assert us[..|us|] == us;
  }

  // A running system that has committed everything shows its durable blocks.
  lemma QuietHomes(l: Layout, init: Disk, s: Sys)
    requires Inv(l, init, s) && s.pc == Running && Entries(s.disk[l.start]) == []
    ensures Homes(l, s.disk) == s.hist.dur
    ensures s.hist.cur == s.hist.dur ==> forall b :: b in l.homes ==> View(s, b) == s.hist.dur[b]
  {
    forall b | b in l.homes ensures b in s.disk && s.disk[b] == s.hist.dur[b] {
      assert b !in Entries(s.disk[l.start]);
    }
    assert Homes(l, s.disk).Keys == l.homes;
  }

  // Crash a running system at any point, let recovery run, crashing any number
  // of times inside it: once it completes, home blocks are the durable ones.
  lemma CrashAtomicity(l: Layout, init: Disk, s: Sys, acts: seq<Action>)
    requires Inv(l, init, s) && Rebooting(acts)
    requires var r := Exec(l, Apply(l, s, Crash), acts); r.Reached? && r.s.pc == Running
    ensures var t := Exec(l, Apply(l, s, Crash), acts).s;
      && Homes(l, t.disk) == s.hist.dur
      && (forall b :: b in l.homes ==> View(t, b) == s.hist.dur[b])
  {
    var c := Apply(l, s, Crash);
    ApplyKeeps(l, init, s, Crash);
    CrashQuiet(l, init, s);
    RebootKeepsDurable(l, c, acts);
    RunKeeps(l, init, c, acts);
    QuietHomes(l, init, Exec(l, c, acts).s);
  }

  function Steps(k: nat): (acts: seq<Action>)
    ensures |acts| == k && Rebooting(acts)
  {
    if k == 0 then [] else Steps(k - 1) + [Step]
  }

  // Where recovery of n entries is after k of its steps.
  ghost predicate Phase(n: int, k: int, s: Sys) {
    if k == 0 then s.pc == Boot
    else if k <= n then s.pc == RInstall(k - 1) && |s.lh| == n
    else if k == n + 1 then s.pc == RClear
    else s.pc == Running
  }

  lemma PhaseStep(l: Layout, n: int, k: int, s: Sys)
    requires SysInv(l, s) && 0 <= n && 0 <= k <= n + 1 && Phase(n, k, s)
    requires k == 0 ==> n == |Entries(s.disk[l.start])|
    ensures s.pc != Running && Phase(n, k + 1, ApplyStep(l, s))
  {
    StepEffect(l, s);
    if k == 0 { assert View(s, l.start) == s.disk[l.start]; }
  }

  lemma OneMore(l: Layout, s: Sys, k: nat, t: Sys)
    requires Exec(l, s, Steps(k)) == Reached(t) && Base(l, t) && t.pc != Running
    ensures Exec(l, s, Steps(k + 1)) == Reached(ApplyStep(l, t))
  {
    ExecSnoc(l, s, Steps(k), Step);
    assert Steps(k + 1) == Steps(k) + [Step];
  }

  // Recovery does complete: as many steps as there are header entries, plus two.
  lemma {:induction false} RecoveryCompletes(l: Layout, init: Disk, s: Sys, k: nat)
    requires Inv(l, init, s) && s.pc == Boot
    requires k <= |Entries(s.disk[l.start])| + 2
    ensures Exec(l, s, Steps(k)).Reached?
    ensures Phase(|Entries(s.disk[l.start])|, k, Exec(l, s, Steps(k)).s)
  {
    if k > 0 {
      var n := |Entries(s.disk[l.start])|;
      RecoveryCompletes(l, init, s, k - 1);
      StepTo(l, init, s, n, k - 1, Exec(l, s, Steps(k - 1)).s);
    }
  }

  lemma StepTo(l: Layout, init: Disk, s: Sys, n: int, k: nat, t: Sys)
    requires Inv(l, init, s) && s.pc == Boot && n == |Entries(s.disk[l.start])| && k <= n + 1
    requires Exec(l, s, Steps(k)) == Reached(t) && Phase(n, k, t)
    ensures Exec(l, s, Steps(k + 1)).Reached? && Phase(n, k + 1, Exec(l, s, Steps(k + 1)).s)
  {
    assert SysInv(l, t) by { RunKeeps(l, init, s, Steps(k)); }
    PhaseStep(l, n, k, t);
    OneMore(l, s, k, t);
  }

  // Over whole runs, stated on the updates themselves: after any run, a crash and
  // any reboot that completes, the home blocks hold exactly a prefix of the
  // updates, and that prefix contains all or none of each operation.
  lemma CrashSafety(l: Layout, init: Disk, s0: Sys, run: seq<Action>, reboot: seq<Action>)
    requires Initial(l, init, s0) && Exec(l, s0, run).Reached? && Rebooting(reboot)
    requires Base(l, Exec(l, s0, run).s)
    requires var r := Exec(l, Apply(l, Exec(l, s0, run).s, Crash), reboot); r.Reached? && r.s.pc == Running
    ensures var h := Exec(l, s0, run).s.hist;
      var t := Exec(l, Apply(l, Exec(l, s0, run).s, Crash), reboot).s;
      && 0 <= h.durable <= |h.updates|
      && Homes(l, t.disk) == Replay(init, h.updates[..h.durable])
      && (forall i, j :: 0 <= i < h.durable <= j < |h.updates| ==> h.updates[i].op != h.updates[j].op)
  {
    InitialInv(l, init, s0);
    RunKeeps(l, init, s0, run);
    CrashAtomicity(l, init, Exec(l, s0, run).s, reboot);
  }

  // The durable state changes at the first header write of a commit and at no
  // other action; there every logged block is applied at once and no operation is open.
  lemma CommitSwitch(l: Layout, init: Disk, s: Sys, a: Action)
    requires Inv(l, init, s) && Enabled(l, s, a)
    ensures a == Step && s.pc == WriteHead ==>
      var d := Apply(l, s, a).hist.dur;
      && s.ops == map[] && s.committing
      && Apply(l, s, a).hist.durable == |s.hist.updates|
      && d.Keys == l.homes
      && (forall b :: b in l.homes ==> d[b] == if b in s.lh then View(s, b) else s.hist.dur[b])
    ensures !(a == Step && s.pc == WriteHead) ==>
      Apply(l, s, a).hist.dur == s.hist.dur && Apply(l, s, a).hist.durable == s.hist.durable
  {
    if a == Step && s.pc == WriteHead { SwitchPoint(l, init, s); } else { NoSwitch(l, s, a); }
  }

  lemma SwitchPoint(l: Layout, init: Disk, s: Sys)
    requires Inv(l, init, s) && s.pc == WriteHead
    ensures var h := ApplyStep(l, s).hist;
      && s.ops == map[] && s.committing && h.durable == |s.hist.updates| && h.dur.Keys == l.homes
      && (forall b :: b in l.homes ==> h.dur[b] == if b in s.lh then View(s, b) else s.hist.dur[b])
  {
    StepEffect(l, s);
    LoggedCur(l, s);
  }

  lemma NoSwitch(l: Layout, s: Sys, a: Action)
    requires Base(l, s) && Enabled(l, s, a) && !(a == Step && s.pc == WriteHead)
    ensures Apply(l, s, a).hist.dur == s.hist.dur && Apply(l, s, a).hist.durable == s.hist.durable
  {
    if a == Step { StepEffect(l, s); }
  }

  lemma LoggedCur(l: Layout, s: Sys)
    requires SysInv(l, s) && s.pc == WriteHead
    ensures forall b :: b in l.homes ==> s.hist.cur[b] == if b in s.lh then View(s, b) else s.hist.dur[b]
  {
    forall b | b in l.homes ensures s.hist.cur[b] == if b in s.lh then View(s, b) else s.hist.dur[b] {
      assert View(s, b) == s.hist.cur[b];
      if b !in s.lh {
        assert b !in multiset(s.lh);
        assert b !in Entries(s.disk[l.start]);
      }
    }
  }

  // While a commit is under way nobody is inside an operation: begin_op waits,
  // log_write has no caller, and end_op cannot find log.committing set.
  lemma GroupCommit(l: Layout, init: Disk, s: Sys)
    requires Inv(l, init, s)
    ensures s.committing ==> s.ops == map[] && BeginWaits(s)
    ensures s.committing ==> forall op, b, data :: !Enabled(l, s, Write(op, b, data))
    ensures forall op :: Enabled(l, s, End(op)) ==> !s.committing
  {
  }

  // ---------------------------------------------------------------------
  // Log space.

  // log blocks reserved by running operations and not yet used
  ghost function Unused(ops: map<int, int>): (n: int)
    decreases |ops|
  {
    if ops.Keys == {} then 0
    else
      var op := Pick(ops.Keys);
      assert |ops - {op}| < |ops| by { assert ops == (ops - {op})[op := ops[op]]; }
      MAXOPBLOCKS - ops[op] + Unused(ops - {op})
  }

  lemma {:induction false} UnusedRemove(ops: map<int, int>, op: int)
    requires op in ops
    ensures Unused(ops) == MAXOPBLOCKS - ops[op] + Unused(ops - {op})
    decreases |ops|
  {
    var p := Pick(ops.Keys);
    if p != op {
      assert ops == (ops - {p})[p := ops[p]];
      UnusedRemove(ops - {p}, op);
      assert ops - {p} - {op} == ops - {op} - {p};
      assert ops == (ops - {op})[op := ops[op]];
      UnusedRemove(ops - {op}, p);
    }
  }

  lemma UnusedSet(ops: map<int, int>, op: int, n: int)
    ensures Unused(ops[op := n]) == MAXOPBLOCKS - n + Unused(ops - {op})
  {
    UnusedRemove(ops[op := n], op);
    assert ops[op := n] - {op} == ops - {op};
  }

  ghost predicate SpaceOk(s: Sys) {
    && (forall op :: op in s.ops ==> 0 <= s.ops[op] <= MAXOPBLOCKS)
    && |s.lh| + Unused(s.ops) <= LOGSIZE
  }

  // A caller within its budget has added fewer than MAXOPBLOCKS entries so far.
  ghost predicate InBudget(s: Sys, a: Action) {
    a.Write? && a.op in s.ops ==> s.ops[a.op] < MAXOPBLOCKS
  }

  lemma {:induction false} UnusedNonneg(ops: map<int, int>)
    requires forall op :: op in ops ==> 0 <= ops[op] <= MAXOPBLOCKS
    ensures 0 <= Unused(ops) <= |ops| * MAXOPBLOCKS
    decreases |ops|
  {
    if ops.Keys != {} {
      var op := Pick(ops.Keys);
      assert ops == (ops - {op})[op := ops[op]];
      UnusedNonneg(ops - {op});
    }
  }

  // Within budget and with LOGSIZE log blocks, log_write's space panic is out of reach.
  lemma LogWriteSafe(l: Layout, s: Sys, op: int)
    requires Base(l, s) && l.size > LOGSIZE && SpaceOk(s) && op in s.ops && s.ops[op] < MAXOPBLOCKS
    ensures !LogWritePanics(l, s)
  {
    UnusedRemove(s.ops, op);
    UnusedNonneg(s.ops - {op});
  }

  // log_write panics exactly when the log is full, and then every running operation has used up
  // its whole reservation.
  lemma PanicExactly(l: Layout, s: Sys)
    requires Base(l, s) && l.size > LOGSIZE && SpaceOk(s) && |s.ops| > 0
    ensures LogWritePanics(l, s) <==> |s.lh| == LOGSIZE
    ensures LogWritePanics(l, s) ==> forall op :: op in s.ops ==> s.ops[op] == MAXOPBLOCKS
  {
    UnusedNonneg(s.ops);
    forall op | op in s.ops ensures LogWritePanics(l, s) ==> s.ops[op] == MAXOPBLOCKS {
      if s.ops[op] < MAXOPBLOCKS { LogWriteSafe(l, s, op); }
    }
  }

  lemma BeginSpace(l: Layout, s: Sys)
    requires Base(l, s) && Enabled(l, s, Begin) && SpaceOk(s) && s.hist.nextOp !in s.ops
    ensures SpaceOk(Apply(l, s, Begin))
  {
    var n := |s.ops|;
    assert Unused(s.ops) <= n * MAXOPBLOCKS by { UnusedNonneg(s.ops); }
    assert Unused(s.ops[s.hist.nextOp := 0]) == MAXOPBLOCKS + Unused(s.ops) by {
      UnusedSet(s.ops, s.hist.nextOp, 0);
      assert s.ops - {s.hist.nextOp} == s.ops;
    }
  }

  lemma WriteSpace(s: Sys, op: int, b: int, data: Block)
    requires SpaceOk(s) && op in s.ops && s.ops[op] < MAXOPBLOCKS
    ensures SpaceOk(ApplyWrite(s, op, b, data))
  {
    UnusedRemove(s.ops, op);
    UnusedSet(s.ops, op, s.ops[op] + 1);
  }

  lemma EndSpace(s: Sys, op: int)
    requires SpaceOk(s) && op in s.ops
    ensures SpaceOk(ApplyEnd(s, op))
  {
    UnusedRemove(s.ops, op);
  }

  lemma SpaceKeeps(l: Layout, s: Sys, a: Action)
    requires SysInv(l, s) && s.hist.nextOp !in s.ops && Enabled(l, s, a) && SpaceOk(s) && InBudget(s, a)
    ensures SpaceOk(Apply(l, s, a))
  {
    match a
    case Begin => BeginSpace(l, s);
    case Write(op, b, data) => WriteSpace(s, op, b, data);
    case End(op) => EndSpace(s, op);
    case Step => StepSpace(l, s);
    case Load(_) =>
    case Evict(_) =>
    case Crash =>
  }

  lemma StepSpace(l: Layout, s: Sys)
    requires SysInv(l, s) && s.pc != Running
    ensures |ApplyStep(l, s).lh| <= LOGSIZE && ApplyStep(l, s).ops == map[]
  {
    if s.pc == Boot { assert View(s, l.start) == s.disk[l.start]; }
  }

  // no operation within its budget would panic
  ghost predicate Spared(l: Layout, s: Sys) {
    forall op :: op in s.ops && s.ops[op] < MAXOPBLOCKS ==> !LogWritePanics(l, s)
  }

  // every write of the run was within its operation's budget
  ghost predicate BudgetRun(l: Layout, s: Sys, acts: seq<Action>) {
    acts != [] ==>
      var r := Exec(l, s, acts[..|acts| - 1]);
      r.Reached? && InBudget(r.s, acts[|acts| - 1]) && BudgetRun(l, s, acts[..|acts| - 1])
  }

  // In every state of every run whose callers keep to their budget, the log and
  // all unused reservations fit in LOGSIZE blocks; if the log has that many, no caller
  // within its budget can panic.
  lemma {:induction false} SpaceSafety(l: Layout, init: Disk, s: Sys, acts: seq<Action>)
    requires Initial(l, init, s) && Exec(l, s, acts).Reached? && BudgetRun(l, s, acts)
    ensures SpaceOk(Exec(l, s, acts).s)
    ensures l.size > LOGSIZE ==> Spared(l, Exec(l, s, acts).s)
  {
    var t := Exec(l, s, acts).s;
    InitialInv(l, init, s);
    if acts != [] {
      var before := acts[..|acts| - 1];
      SpaceSafety(l, init, s, before);
      RunKeeps(l, init, s, before);
      SpaceKeeps(l, Exec(l, s, before).s, acts[|acts| - 1]);
    }
    assert Base(l, t) by { RunKeeps(l, init, s, acts); }
    forall op | l.size > LOGSIZE && op in t.ops && t.ops[op] < MAXOPBLOCKS ensures !LogWritePanics(l, t) {
      LogWriteSafe(l, t, op);
    }
  }

  // the log_write calls an operation has made
  ghost function Calls(us: seq<Update>, op: int): (n: int)
    ensures n >= 0
  {
    if us == [] then 0
    else Calls(us[..|us| - 1], op) + if us[|us| - 1].op == op then 1 else 0
  }

  ghost predicate Covered(n: int, us: seq<Update>, op: int) { n <= Calls(us, op) }

  ghost predicate CallsBound(s: Sys) {
    forall op :: op in s.ops ==> Covered(s.ops[op], s.hist.updates, op)
  }

  lemma WriteCalls(s: Sys, op: int, b: int, data: Block)
    requires CallsBound(s) && op in s.ops
    ensures CallsBound(ApplyWrite(s, op, b, data))
  {
    var s' := ApplyWrite(s, op, b, data);
    forall p | p in s'.ops ensures Covered(s'.ops[p], s'.hist.updates, p) {
      assert Covered(s.ops[p], s.hist.updates, p);
      CallsSnoc(s.hist.updates, Update(op, b, data), p);
    }
  }

  lemma CallsSnoc(us: seq<Update>, u: Update, p: int)
    ensures Calls(us + [u], p) == Calls(us, p) + if u.op == p then 1 else 0
  {
    assert (us + [u])[..|us|] == us;
  }

  lemma CallsKeeps(l: Layout, s: Sys, a: Action)
    requires Base(l, s) && Enabled(l, s, a) && CallsBound(s)
    ensures CallsBound(Apply(l, s, a))
  {
    match a
    case Write(op, b, data) => WriteCalls(s, op, b, data);
    case Step => StepEffect(l, s);
    case _ =>
  }

  // An operation that has made fewer than MAXOPBLOCKS calls is within its budget.
  lemma {:induction false} CallsBudget(l: Layout, init: Disk, s: Sys, acts: seq<Action>, op: int)
    requires Initial(l, init, s) && Exec(l, s, acts).Reached?
    requires var t := Exec(l, s, acts).s; op in t.ops && Calls(t.hist.updates, op) < MAXOPBLOCKS
    ensures Exec(l, s, acts).s.ops[op] < MAXOPBLOCKS
  {
    CallsRun(l, s, acts);
    var t := Exec(l, s, acts).s;
    assert Covered(t.ops[op], t.hist.updates, op);
  }

  lemma {:induction false} CallsRun(l: Layout, s: Sys, acts: seq<Action>)
    requires CallsBound(s) && Exec(l, s, acts).Reached?
    ensures CallsBound(Exec(l, s, acts).s)
  {
    if acts != [] {
      CallsRun(l, s, acts[..|acts| - 1]);
      CallsKeeps(l, Exec(l, s, acts[..|acts| - 1]).s, acts[|acts| - 1]);
    }
  }

  // ---------------------------------------------------------------------
  // The same budget in terms of distinct blocks.

  // the blocks an operation has passed to log_write
  ghost function Blocks(us: seq<Update>, op: int): (bs: set<int>) {
    set i | 0 <= i < |us| && us[i].op == op :: us[i].b
  }

  ghost predicate Spans(n: int, us: seq<Update>, op: int) { n <= |Blocks(us, op)| }

  ghost predicate BlocksBound(s: Sys) {
    forall op :: op in s.ops ==> Spans(s.ops[op], s.hist.updates, op)
  }

  lemma BlocksSnoc(us: seq<Update>, u: Update, p: int)
    ensures Blocks(us + [u], p) == Blocks(us, p) + if u.op == p then {u.b} else {}
  {
    var us' := us + [u];
    forall b | b in Blocks(us, p) ensures b in Blocks(us', p) {
      var i :| 0 <= i < |us| && us[i].op == p && us[i].b == b;
      assert us'[i] == us[i];
    }
    if u.op == p { assert us'[|us|] == u; }
    forall b | b in Blocks(us', p) ensures b in Blocks(us, p) || (u.op == p && b == u.b) {
      var i :| 0 <= i < |us'| && us'[i].op == p && us'[i].b == b;
      assert i < |us| ==> us[i] == us'[i];
    }
  }

  // What an open operation has written is still in the log.
  lemma StillLogged(l: Layout, init: Disk, s: Sys, op: int)
    requires Inv(l, init, s) && op in s.ops
    ensures forall b :: b in Blocks(s.hist.updates, op) ==> b in s.lh
  {
    forall b | b in Blocks(s.hist.updates, op) ensures b in s.lh {
      var i :| 0 <= i < |s.hist.updates| && s.hist.updates[i].op == op && s.hist.updates[i].b == b;
      assert i >= s.hist.durable;
    }
  }

  lemma WriteBlocks(s: Sys, op: int, b: int, data: Block)
    requires BlocksBound(s) && op in s.ops && (b !in s.lh ==> b !in Blocks(s.hist.updates, op))
    ensures BlocksBound(ApplyWrite(s, op, b, data))
  {
    var s', us := ApplyWrite(s, op, b, data), s.hist.updates;
    forall p | p in s'.ops ensures Spans(s'.ops[p], s'.hist.updates, p) {
      assert Spans(s.ops[p], us, p);
      BlocksSnoc(us, Update(op, b, data), p);
      if p == op { MoreBlocks(Blocks(us, p), b); }
    }
  }

  lemma MoreBlocks(bs: set<int>, b: int)
    ensures |bs + {b}| >= |bs| && (b !in bs ==> |bs + {b}| == |bs| + 1)
  {
    if b in bs { assert bs + {b} == bs; }
  }

  // Any other action opens an operation without entries, closes one, or leaves them alone.
  lemma OtherBlocks(l: Layout, s: Sys, a: Action)
    requires Base(l, s) && Enabled(l, s, a) && !a.Write?
    ensures var s' := Apply(l, s, a);
      forall op :: op in s'.ops ==>
        s'.hist.updates == s.hist.updates && (s'.ops[op] == 0 || (op in s.ops && s'.ops[op] == s.ops[op]))
  {
    if a == Step { StepEffect(l, s); }
  }

  lemma BlocksKeeps(l: Layout, init: Disk, s: Sys, a: Action)
    requires Inv(l, init, s) && Enabled(l, s, a) && BlocksBound(s)
    ensures BlocksBound(Apply(l, s, a))
  {
    if a.Write? {
      StillLogged(l, init, s, a.op);
      WriteBlocks(s, a.op, a.b, a.data);
    } else {
      OtherBlocks(l, s, a);
      var s' := Apply(l, s, a);
      forall op | op in s'.ops ensures Spans(s'.ops[op], s'.hist.updates, op) {
        if op in s.ops { assert Spans(s.ops[op], s.hist.updates, op); }
      }
    }
  }

  lemma {:induction false} BlocksRun(l: Layout, init: Disk, s: Sys, acts: seq<Action>)
    requires Initial(l, init, s) && Exec(l, s, acts).Reached?
    ensures BlocksBound(Exec(l, s, acts).s)
  {
    if acts != [] {
      var before := acts[..|acts| - 1];
      BlocksRun(l, init, s, before);
      RunKeeps(l, init, s, before);
      BlocksKeeps(l, init, Exec(l, s, before).s, acts[|acts| - 1]);
    }
  }

  // a log_write comes from an operation that has passed fewer than MAXOPBLOCKS distinct blocks before
  ghost predicate Frugal(s: Sys, a: Action) {
    a.Write? ==> |Blocks(s.hist.updates, a.op)| < MAXOPBLOCKS
  }

  ghost predicate FrugalRun(l: Layout, s: Sys, acts: seq<Action>) {
    acts != [] ==>
      var r := Exec(l, s, acts[..|acts| - 1]);
      r.Reached? && Frugal(r.s, acts[|acts| - 1]) && FrugalRun(l, s, acts[..|acts| - 1])
  }

  lemma FrugalInBudget(s: Sys, a: Action)
    requires BlocksBound(s) && Frugal(s, a) && (a.Write? ==> a.op in s.ops)
    ensures InBudget(s, a)
  {
    if a.Write? { assert Spans(s.ops[a.op], s.hist.updates, a.op); }
  }

  lemma {:induction false} FrugalBudget(l: Layout, init: Disk, s: Sys, acts: seq<Action>)
    requires Initial(l, init, s) && Exec(l, s, acts).Reached? && FrugalRun(l, s, acts)
    ensures BudgetRun(l, s, acts)
  {
    if acts != [] {
      var before := acts[..|acts| - 1];
      FrugalBudget(l, init, s, before);
      BlocksRun(l, init, s, before);
      FrugalInBudget(Exec(l, s, before).s, acts[|acts| - 1]);
    }
  }

  // In every run of operations that log at most MAXOPBLOCKS distinct blocks, and none after the
  // last of these, no log_write panics. Filewrite's chunks are such operations.
  lemma BlocksBudget(l: Layout, init: Disk, s: Sys, acts: seq<Action>, op: int)
    requires Initial(l, init, s) && l.size > LOGSIZE && Exec(l, s, acts).Reached? && FrugalRun(l, s, acts)
    requires var t := Exec(l, s, acts).s; op in t.ops && |Blocks(t.hist.updates, op)| < MAXOPBLOCKS
    ensures !LogWritePanics(l, Exec(l, s, acts).s)
  {
    FrugalBudget(l, init, s, acts);
    assert BlocksBound(Exec(l, s, acts).s) by { BlocksRun(l, init, s, acts); }
    BudgetOf(Exec(l, s, acts).s, op);
    SpaceSafety(l, init, s, acts);
  }

  lemma BudgetOf(t: Sys, op: int)
    requires BlocksBound(t) && op in t.ops && |Blocks(t.hist.updates, op)| < MAXOPBLOCKS
    ensures t.ops[op] < MAXOPBLOCKS
  {
    assert Spans(t.ops[op], t.hist.updates, op);
  }
}
