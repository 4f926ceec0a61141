/**
 Process life cycles over whole runs: no exit is missed, no process is left
 without a living parent, and every exit is reported at most once.
 */
module ProcTheorems {
  import opened ProcMachine
  import opened ProcProofs

  lemma ForkKeeps(s: Sys, a: Action, q: int, c: int)
    requires Inv(s) && Enabled(s, a) && 0 <= q < NPROC && 0 <= c < NPROC
    requires a.ForkAlloc? || a.ForkAbort? || a.SetParent? || a.Start?
    ensures Good(Apply(s, a), q, c)
  {
    Recall(s, a.p, if a.ForkAlloc? then a.n else s.procs[a.p].pc.n, q, c);
    match a
    case ForkAlloc(p, n) => ForkAllocKeeps(s, p, n, q, c);
    case ForkAbort(p) => ForkAbortKeeps(s, p, q, c);
    case SetParent(p) => SetParentKeeps(s, p, q, c);
    case Start(p) => StartKeeps(s, p, q, c);
  }

  lemma ExitStepKeeps(s: Sys, p: int, q: int, c: int)
    requires Inv(s) && Enabled(s, ExitStep(p)) && 0 <= q < NPROC && 0 <= c < NPROC
    ensures Good(ExitNext(s, p), q, c)
  {
    if Passes(s, p) {
      Recall(s, p, p, q, c);
      ExitPassKeeps(s, p, q, c);
    } else {
      match s.procs[p].pc
      case ExitScan(k) => Recall(s, p, k, q, c); ExitGiveKeeps(s, p, k, q, c);
      case ExitWakeInit(k, j) => Recall(s, p, j, q, c); ExitWakeInitKeeps(s, p, k, j, q, c);
      case ExitWake(j) => Recall(s, p, j, q, c); ExitWakeKeeps(s, p, j, q, c);
    }
  }

  lemma WaitStepKeeps(s: Sys, p: int, copied: bool, q: int, c: int)
    requires Inv(s) && Enabled(s, WaitStep(p, copied)) && 0 <= q < NPROC && 0 <= c < NPROC
    ensures Good(WaitNext(s, p, copied), q, c)
  {
    var k := s.procs[p].pc.k;
    assert One(s, p);
    Recall(s, p, k, q, c);
    if copied && Reapable(s, p, k) { WaitReapKeeps(s, p, k, q, c); } else { WaitPassKeeps(s, p, copied, k, q, c); }
  }

  lemma PairKeeps(s: Sys, a: Action, q: int, c: int)
    requires Inv(s) && Enabled(s, a) && 0 <= q < NPROC && 0 <= c < NPROC
    ensures Good(Apply(s, a), q, c)
  {
    Recall(s, a.p, a.p, q, c);
    match a
    case Schedule(p) => ScheduleKeeps(s, p, q, c);
    case Yield(p) => YieldKeeps(s, p, q, c);
    case SleepElsewhere(p, chan) => SleepElsewhereKeeps(s, p, chan, q, c);
    case WakeElsewhere(p) => WakeElsewhereKeeps(s, p, q, c);
    case Kill(p) => KillKeeps(s, p, q, c);
    case ExitBegin(p) => ExitBeginKeeps(s, p, q, c);
    case ExitStep(p) => ExitStepKeeps(s, p, q, c);
    case ExitEnd(p, status) => ExitEndKeeps(s, p, status, q, c);
    case WaitBegin(p) => WaitBeginKeeps(s, p, q, c);
    case WaitStep(p, copied) => WaitStepKeeps(s, p, copied, q, c);
    case WaitEnd(p) => WaitEndKeeps(s, p, q, c);
    case _ => ForkKeeps(s, a, q, c);
  }

  lemma RestKeeps(s: Sys, a: Action)
    requires Inv(s) && Enabled(s, a)
    ensures |Apply(s, a).procs| == NPROC && -1 <= Apply(s, a).lock < NPROC
    ensures forall i :: i in Apply(s, a).reaped ==> i < Apply(s, a).nextpid && i in Apply(s, a).exits
  {
    if a.WaitStep? && Index(s.procs[a.p].pc.k) { assert One(s, s.procs[a.p].pc.k); }
  }

  lemma ApplyKeeps(s: Sys, a: Action)
    requires Inv(s) && Enabled(s, a)
    ensures Inv(Apply(s, a))
  {
    RestKeeps(s, a);
    var s' := Apply(s, a);
    forall q, c | 0 <= q < NPROC && 0 <= c < NPROC ensures Both(s', q, c) { PairKeeps(s, a, q, c); }
    forall q | 0 <= q < NPROC ensures One(s', q) { assert Both(s', q, q); }
    forall q, c | 0 <= q < NPROC && 0 <= c < NPROC ensures Two(s', q, c) { assert Both(s', q, c); }
  }

  // ---------------------------------------------------------------------
  // Runs.

  ghost predicate Linked(ss: seq<Sys>, acts: seq<Action>, i: int)
    requires |ss| == |acts| + 1 && 0 <= i < |acts|
  {
    Enabled(ss[i], acts[i]) && ss[i + 1] == Apply(ss[i], acts[i])
  }

  // After userinit: init is the only process.
  ghost predicate Initial(s: Sys) {
    && |s.procs| == NPROC && s.lock == NONE && s.exits == map[] && s.reaped == {}
    && s.procs[INIT] == FREE.(st := Runnable, pid := 1) && s.nextpid == 2
    && forall p :: 0 <= p < NPROC && p != INIT ==> s.procs[p] == FREE
  }

  ghost predicate Run(ss: seq<Sys>, acts: seq<Action>) {
    && |ss| == |acts| + 1 && Initial(ss[0])
    && forall i :: 0 <= i < |acts| ==> Linked(ss, acts, i)
  }

  lemma InitialInv(s: Sys)
    requires Initial(s)
    ensures Inv(s)
  {
  }

  lemma {:induction false} RunInv(ss: seq<Sys>, acts: seq<Action>, k: int)
    requires Run(ss, acts) && 0 <= k <= |acts|
    ensures Inv(ss[k])
    decreases k
  {
    if k == 0 {
      InitialInv(ss[0]);
    } else {
      RunInv(ss, acts, k - 1);
      assert Linked(ss, acts, k - 1);
      ApplyKeeps(ss[k - 1], acts[k - 1]);
    }
  }

  // Whenever wait_lock is free, nobody sleeps in wait with a child to reap.
  lemma NoMissedExit(ss: seq<Sys>, acts: seq<Action>, i: int, p: int, c: int)
    requires Run(ss, acts) && 0 <= i <= |acts| && |ss[i].procs| == NPROC && Index(p) && Index(c)
    requires ss[i].lock == NONE && Waits(ss[i].procs[p]) && ss[i].procs[c].parent == p
    ensures ss[i].procs[c].st != Zombie
  {
    RunInv(ss, acts, i);
    assert Two(ss[i], p, c);
  }

  // Every process that was started, but init, has a parent that can still wait for it.
  lemma LivingParent(ss: seq<Sys>, acts: seq<Action>, i: int, c: int)
    requires Run(ss, acts) && 0 <= i <= |acts| && |ss[i].procs| == NPROC && Index(c)
    requires c != INIT && Started(ss[i].procs[c])
    ensures Index(ss[i].procs[c].parent) && Alive(ss[i].procs[ss[i].procs[c].parent])
  {
    RunInv(ss, acts, i);
    assert One(ss[i], c);
    assert Two(ss[i], ss[i].procs[c].parent, c);
  }

  // Step i is a wait that reaps the child in slot k.
  ghost predicate Reaps(ss: seq<Sys>, acts: seq<Action>, i: int, k: int)
    requires Run(ss, acts)
  {
    && 0 <= i < |acts| && acts[i].WaitStep? && acts[i].copied && Enabled(ss[i], acts[i])
    && ss[i].procs[acts[i].p].pc.k == k && Reapable(ss[i], acts[i].p, k)
  }

  // The child wait reaps is its caller's, exited with the status it is reported with, and was
  // not reaped before.
  lemma ReapStep(ss: seq<Sys>, acts: seq<Action>, i: int, k: int)
    requires Run(ss, acts) && Reaps(ss, acts, i, k)
    ensures var x := ss[i].procs[k];
      x.pid !in ss[i].reaped && x.pid in ss[i + 1].reaped && x.pid in ss[i].exits && ss[i].exits[x.pid] == x.xstate
  {
    RunInv(ss, acts, i);
    assert Linked(ss, acts, i);
    assert One(ss[i], k);
  }

  // A pid, once reaped, stays so.
  lemma {:induction false} ReapedForGood(ss: seq<Sys>, acts: seq<Action>, i: int, j: int, pid: int)
    requires Run(ss, acts) && 0 <= i <= j <= |acts| && pid in ss[i].reaped
    ensures pid in ss[j].reaped
    decreases j
  {
    if i < j {
      ReapedForGood(ss, acts, i, j - 1, pid);
      assert Linked(ss, acts, j - 1);
    }
  }

  // No process is reaped twice: the waits of one run, whichever processes make them and
  // however the slots are used again in between, report different pids, each with the status
  // the process of that pid exited with.
  lemma ReapedOnce(ss: seq<Sys>, acts: seq<Action>, i: int, j: int, k: int, l: int)
    requires Run(ss, acts) && i < j && Reaps(ss, acts, i, k) && Reaps(ss, acts, j, l)
    ensures ss[i].procs[k].pid != ss[j].procs[l].pid
    ensures ss[i].procs[k].pid in ss[i].exits && ss[i].exits[ss[i].procs[k].pid] == ss[i].procs[k].xstate
    ensures ss[j].procs[l].pid in ss[j].exits && ss[j].exits[ss[j].procs[l].pid] == ss[j].procs[l].xstate
  {
    ReapStep(ss, acts, i, k);
    ReapStep(ss, acts, j, l);
    ReapedForGood(ss, acts, i + 1, j, ss[i].procs[k].pid);
  }
}
