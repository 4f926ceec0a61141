/**
 What every step of fork, exit, wait, sleep and wakeup keeps.
 */
module ProcProofs {
  import opened ProcMachine

  ghost predicate Exits(pc: Pc) { pc.ExitScan? || pc.ExitWakeInit? || pc.ExitWake? || pc.ExitDone? }
  ghost predicate Locks(pc: Pc) { Exits(pc) || pc.WaitScan? }
  ghost predicate Alive(x: Proc) { x.st == Sleeping || x.st == Runnable || x.st == Running }
  ghost predicate Started(x: Proc) { Alive(x) || x.st == Zombie }
  ghost predicate Waits(x: Proc) { x.st == Sleeping && x.pc == WaitSleep }
  ghost predicate Forks(x: Proc, n: int) { x.pc == ForkParent(n) || x.pc == ForkRun(n) }

  // A process at pc may still have child c: exit has not given it away.
  ghost predicate MayHave(pc: Pc, c: int) {
    match pc
    case ExitScan(k) => c >= k
    case ExitWakeInit(k, j) => c > k
    case ExitWake(j) => false
    case ExitDone => false
    case _ => true
  }

  // wakeup(p->parent) of a process at pc has been past process q.
  ghost predicate Past(pc: Pc, q: int) {
    match pc
    case ExitWake(j) => q < j
    case ExitDone => true
    case _ => false
  }

  // The holder of wait_lock has given init a child and is about to wake init.
  ghost predicate InitPending(s: Sys) {
    && 0 <= s.lock < |s.procs| && s.procs[s.lock].pc.ExitWakeInit? && s.procs[s.lock].pc.j <= INIT
  }

  // What holds of every process p.
  ghost predicate One(s: Sys, p: int)
    requires |s.procs| == NPROC && 0 <= p < NPROC
  {
    var x := s.procs[p];
    // exactly the holder of wait_lock is in exit or in wait's scan, and it is running
    && (Locks(x.pc) <==> s.lock == p) && (s.lock == p ==> x.st == Running)
    && (x.st == Unused || x.st == Used ==> x.pc == User) && (x.st == Zombie <==> x.pc == Dead)
    && (x.st == Sleeping ==> if x.pc == WaitSleep then x.chan == p else x.pc == User && x.chan >= NPROC)
    && (x.pc.ForkParent? || x.pc.ForkRun? ==> 0 <= x.pc.n < NPROC)
    && (x.pc.ExitScan? || x.pc.ExitWakeInit? || x.pc.WaitScan? ==> 0 <= x.pc.k)
      && (x.pc.ExitWakeInit? || x.pc.ExitWake? ==> 0 <= x.pc.j)
    && (p == INIT ==> Alive(x) && x.parent == NONE && !Exits(x.pc))
    && (p != INIT && Started(x) ==> 0 <= x.parent < NPROC)
    && (x.st != Unused ==> x.pid < s.nextpid && x.pid !in s.reaped)
    && (x.st == Zombie ==> x.pid in s.exits && s.exits[x.pid] == x.xstate)
  }

  // What holds between a process p and a child c.
  ghost predicate Kin(s: Sys, p: int, c: int)
    requires |s.procs| == NPROC && 0 <= p < NPROC && 0 <= c < NPROC
  {
    var x, y := s.procs[p], s.procs[c];
    y.parent == p ==>
      // a parent is alive, and its children have been started or are about to be
      && p != c && Alive(x) && (Started(y) || x.pc == ForkRun(c))
      // how far exit has come in giving the children away, and in waking the parent
      && MayHave(x.pc, c) && (Past(y.pc, p) ==> !Waits(x))
      // nobody sleeps in wait while a child is a zombie
      && (y.st == Zombie && Waits(x) ==> p == INIT && InitPending(s))
      // the children that wait has passed by are not zombies
      && (x.pc.WaitScan? && c < x.pc.k ==> y.st != Zombie)
  }

  // What holds between any two processes p and c.
  ghost predicate Apart(s: Sys, p: int, c: int)
    requires |s.procs| == NPROC && 0 <= p < NPROC && 0 <= c < NPROC
  {
    var x, y := s.procs[p], s.procs[c];
    // a process in fork has a new process of its own
    && (Forks(x, c) ==> p != c && y.st == Used && y.parent == if x.pc.ForkRun? then p else NONE)
    && (p != c && (x.pc.ForkParent? || x.pc.ForkRun?) ==> !Forks(y, x.pc.n))
    // a pid names one process
    && (x.st != Unused && y.st != Unused && x.pid == y.pid ==> p == c)
  }

  ghost predicate Two(s: Sys, p: int, c: int)
    requires |s.procs| == NPROC && 0 <= p < NPROC && 0 <= c < NPROC
  {
    Kin(s, p, c) && Apart(s, p, c)
  }

  ghost predicate Inv(s: Sys) {
    && |s.procs| == NPROC && -1 <= s.lock < NPROC
    && (forall p :: 0 <= p < NPROC ==> One(s, p))
    && (forall p, c :: 0 <= p < NPROC && 0 <= c < NPROC ==> Two(s, p, c))
    && (forall i :: i in s.reaped ==> i < s.nextpid && i in s.exits)
  }

  // All that is known about four processes.
  ghost predicate Facts(s: Sys, p: int, n: int, q: int, c: int) {
    && |s.procs| == NPROC && 0 <= p < NPROC && 0 <= n < NPROC && 0 <= q < NPROC && 0 <= c < NPROC
    && One(s, p) && One(s, n) && One(s, q) && One(s, c) && One(s, INIT)
    && Two(s, q, c) && Two(s, p, q) && Two(s, q, p) && Two(s, p, c) && Two(s, c, p)
    && Two(s, p, n) && Two(s, n, p) && Two(s, q, n) && Two(s, n, q) && Two(s, n, c) && Two(s, c, n)
  }

  ghost predicate Known(s: Sys, p: int, n: int, q: int, c: int) { forall x :: x == s ==> Facts(x, p, n, q, c) }

  lemma Recall(s: Sys, p: int, n: int, q: int, c: int)
    requires Inv(s) && 0 <= p < NPROC && 0 <= n < NPROC && 0 <= q < NPROC && 0 <= c < NPROC
    ensures Known(s, p, n, q, c)
  {
    assert Facts(s, p, n, q, c);
  }

  // One and Two for q and c, kept folded.
  ghost predicate Both(s: Sys, q: int, c: int) {
    |s.procs| == NPROC && 0 <= q < NPROC && 0 <= c < NPROC && One(s, q) && Two(s, q, c)
  }

  ghost predicate Good(s: Sys, q: int, c: int) { forall x :: x == s ==> Both(x, q, c) }

  ghost predicate Reapable(s: Sys, p: int, k: int)
    requires |s.procs| == NPROC
  {
    0 <= k < NPROC && k != p && s.procs[k].parent == p && s.procs[k].st == Zombie
  }

  lemma ScheduleKeeps(s: Sys, p: int, q: int, c: int)
    requires Known(s, p, p, q, c) && Enabled(s, Schedule(p))
    ensures Good(Apply(s, Schedule(p)), q, c)
  {
    assert Facts(s, p, p, q, c);
    assert Both(Apply(s, Schedule(p)), q, c);
  }

  lemma YieldKeeps(s: Sys, p: int, q: int, c: int)
    requires Known(s, p, p, q, c) && Enabled(s, Yield(p))
    ensures Good(Apply(s, Yield(p)), q, c)
  {
    assert Facts(s, p, p, q, c);
    assert Both(Apply(s, Yield(p)), q, c);
  }

  lemma SleepElsewhereKeeps(s: Sys, p: int, ch: int, q: int, c: int)
    requires Known(s, p, p, q, c) && Enabled(s, SleepElsewhere(p, ch))
    ensures Good(Apply(s, SleepElsewhere(p, ch)), q, c)
  {
    assert Facts(s, p, p, q, c);
    assert Both(Apply(s, SleepElsewhere(p, ch)), q, c);
  }

  lemma WakeElsewhereKeeps(s: Sys, p: int, q: int, c: int)
    requires Known(s, p, p, q, c) && Enabled(s, WakeElsewhere(p))
    ensures Good(Apply(s, WakeElsewhere(p)), q, c)
  {
    assert Facts(s, p, p, q, c);
    assert Both(Apply(s, WakeElsewhere(p)), q, c);
  }

  lemma ExitBeginKeeps(s: Sys, p: int, q: int, c: int)
    requires Known(s, p, p, q, c) && Enabled(s, ExitBegin(p))
    ensures Good(Apply(s, ExitBegin(p)), q, c)
  {
    assert Facts(s, p, p, q, c);
    assert Both(Apply(s, ExitBegin(p)), q, c);
  }

  lemma ExitEndKeeps(s: Sys, p: int, status: int, q: int, c: int)
    requires Known(s, p, p, q, c) && Enabled(s, ExitEnd(p, status))
    ensures Good(Apply(s, ExitEnd(p, status)), q, c)
  {
    assert Facts(s, p, p, q, c);
    assert Both(Apply(s, ExitEnd(p, status)), q, c);
  }

  lemma WaitBeginKeeps(s: Sys, p: int, q: int, c: int)
    requires Known(s, p, p, q, c) && Enabled(s, WaitBegin(p))
    ensures Good(Apply(s, WaitBegin(p)), q, c)
  {
    assert Facts(s, p, p, q, c);
    assert Both(Apply(s, WaitBegin(p)), q, c);
  }

  lemma KillKeepsOne(s: Sys, p: int, q: int, c: int)
    requires Enabled(s, Kill(p)) && Facts(s, p, p, q, c)
    ensures One(Apply(s, Kill(p)), q)
  {
  }

  lemma KillKeepsKin(s: Sys, p: int, q: int, c: int)
    requires Enabled(s, Kill(p)) && Facts(s, p, p, q, c)
    ensures Kin(Apply(s, Kill(p)), q, c)
  {
  }

  lemma KillKeepsApart(s: Sys, p: int, q: int, c: int)
    requires Enabled(s, Kill(p)) && Facts(s, p, p, q, c)
    ensures Apart(Apply(s, Kill(p)), q, c)
  {
  }

  lemma KillKeeps(s: Sys, p: int, q: int, c: int)
    requires Enabled(s, Kill(p)) && Known(s, p, p, q, c)
    ensures Good(Apply(s, Kill(p)), q, c)
  {
    assert Facts(s, p, p, q, c);
    KillKeepsOne(s, p, q, c);
    KillKeepsKin(s, p, q, c);
    KillKeepsApart(s, p, q, c);
    assert Both(Apply(s, Kill(p)), q, c);
  }

  lemma WaitEndKeepsOne(s: Sys, p: int, q: int, c: int)
    requires Enabled(s, WaitEnd(p)) && Facts(s, p, p, q, c)
    ensures One(Apply(s, WaitEnd(p)), q)
  {
  }

  lemma WaitEndKeepsKin(s: Sys, p: int, q: int, c: int)
    requires Enabled(s, WaitEnd(p)) && Facts(s, p, p, q, c)
    ensures Kin(Apply(s, WaitEnd(p)), q, c)
  {
  }

  lemma WaitEndKeepsApart(s: Sys, p: int, q: int, c: int)
    requires Enabled(s, WaitEnd(p)) && Facts(s, p, p, q, c)
    ensures Apart(Apply(s, WaitEnd(p)), q, c)
  {
  }

  lemma WaitEndKeeps(s: Sys, p: int, q: int, c: int)
    requires Enabled(s, WaitEnd(p)) && Known(s, p, p, q, c)
    ensures Good(Apply(s, WaitEnd(p)), q, c)
  {
    assert Facts(s, p, p, q, c);
    WaitEndKeepsOne(s, p, q, c);
    WaitEndKeepsKin(s, p, q, c);
    WaitEndKeepsApart(s, p, q, c);
    assert Both(Apply(s, WaitEnd(p)), q, c);
  }

  lemma ForkAllocKeepsOne(s: Sys, p: int, n: int, q: int, c: int)
    requires Enabled(s, ForkAlloc(p, n)) && s.nextpid !in s.reaped && Facts(s, p, n, q, c)
    ensures One(Apply(s, ForkAlloc(p, n)), q)
  {
  }

  lemma ForkAllocKeepsKin(s: Sys, p: int, n: int, q: int, c: int)
    requires Enabled(s, ForkAlloc(p, n)) && s.nextpid !in s.reaped && Facts(s, p, n, q, c)
    ensures Kin(Apply(s, ForkAlloc(p, n)), q, c)
  {
  }

  lemma ForkAllocKeepsApart(s: Sys, p: int, n: int, q: int, c: int)
    requires Enabled(s, ForkAlloc(p, n)) && s.nextpid !in s.reaped && Facts(s, p, n, q, c)
    ensures Apart(Apply(s, ForkAlloc(p, n)), q, c)
  {
  }

  lemma ForkAllocKeeps(s: Sys, p: int, n: int, q: int, c: int)
    requires Enabled(s, ForkAlloc(p, n)) && s.nextpid !in s.reaped && Known(s, p, n, q, c)
    ensures Good(Apply(s, ForkAlloc(p, n)), q, c)
  {
    assert Facts(s, p, n, q, c);
    ForkAllocKeepsOne(s, p, n, q, c);
    ForkAllocKeepsKin(s, p, n, q, c);
    ForkAllocKeepsApart(s, p, n, q, c);
    assert Both(Apply(s, ForkAlloc(p, n)), q, c);
  }

  lemma ForkAbortKeepsOne(s: Sys, p: int, q: int, c: int)
    requires Enabled(s, ForkAbort(p)) && Facts(s, p, s.procs[p].pc.n, q, c)
    ensures One(Apply(s, ForkAbort(p)), q)
  {
  }

  lemma ForkAbortKeepsKin(s: Sys, p: int, q: int, c: int)
    requires Enabled(s, ForkAbort(p)) && Facts(s, p, s.procs[p].pc.n, q, c)
    ensures Kin(Apply(s, ForkAbort(p)), q, c)
  {
  }

  lemma ForkAbortKeepsApart(s: Sys, p: int, q: int, c: int)
    requires Enabled(s, ForkAbort(p)) && Facts(s, p, s.procs[p].pc.n, q, c)
    ensures Apart(Apply(s, ForkAbort(p)), q, c)
  {
  }

  lemma ForkAbortKeeps(s: Sys, p: int, q: int, c: int)
    requires Enabled(s, ForkAbort(p)) && Known(s, p, s.procs[p].pc.n, q, c)
    ensures Good(Apply(s, ForkAbort(p)), q, c)
  {
    assert Facts(s, p, s.procs[p].pc.n, q, c);
    ForkAbortKeepsOne(s, p, q, c);
    ForkAbortKeepsKin(s, p, q, c);
    ForkAbortKeepsApart(s, p, q, c);
    assert Both(Apply(s, ForkAbort(p)), q, c);
  }

  lemma SetParentKeepsOne(s: Sys, p: int, q: int, c: int)
    requires Enabled(s, SetParent(p)) && Facts(s, p, s.procs[p].pc.n, q, c)
    ensures One(Apply(s, SetParent(p)), q)
  {
  }

  lemma SetParentKeepsKin(s: Sys, p: int, q: int, c: int)
    requires Enabled(s, SetParent(p)) && Facts(s, p, s.procs[p].pc.n, q, c)
    ensures Kin(Apply(s, SetParent(p)), q, c)
  {
  }

  lemma SetParentKeepsApart(s: Sys, p: int, q: int, c: int)
    requires Enabled(s, SetParent(p)) && Facts(s, p, s.procs[p].pc.n, q, c)
    ensures Apart(Apply(s, SetParent(p)), q, c)
  {
  }

  lemma SetParentKeeps(s: Sys, p: int, q: int, c: int)
    requires Enabled(s, SetParent(p)) && Known(s, p, s.procs[p].pc.n, q, c)
    ensures Good(Apply(s, SetParent(p)), q, c)
  {
    assert Facts(s, p, s.procs[p].pc.n, q, c);
    SetParentKeepsOne(s, p, q, c);
    SetParentKeepsKin(s, p, q, c);
    SetParentKeepsApart(s, p, q, c);
    assert Both(Apply(s, SetParent(p)), q, c);
  }

  lemma StartKeepsOne(s: Sys, p: int, q: int, c: int)
    requires Enabled(s, Start(p)) && Facts(s, p, s.procs[p].pc.n, q, c)
    ensures One(Apply(s, Start(p)), q)
  {
  }

  lemma StartKeepsKin(s: Sys, p: int, q: int, c: int)
    requires Enabled(s, Start(p)) && Facts(s, p, s.procs[p].pc.n, q, c)
    ensures Kin(Apply(s, Start(p)), q, c)
  {
  }

  lemma StartKeepsApart(s: Sys, p: int, q: int, c: int)
    requires Enabled(s, Start(p)) && Facts(s, p, s.procs[p].pc.n, q, c)
    ensures Apart(Apply(s, Start(p)), q, c)
  {
  }

  lemma StartKeeps(s: Sys, p: int, q: int, c: int)
    requires Enabled(s, Start(p)) && Known(s, p, s.procs[p].pc.n, q, c)
    ensures Good(Apply(s, Start(p)), q, c)
  {
    assert Facts(s, p, s.procs[p].pc.n, q, c);
    StartKeepsOne(s, p, q, c);
    StartKeepsKin(s, p, q, c);
    StartKeepsApart(s, p, q, c);
    assert Both(Apply(s, Start(p)), q, c);
  }

  lemma ExitGiveKeepsOne(s: Sys, p: int, k: int, q: int, c: int)
    requires Enabled(s, ExitStep(p)) && s.procs[p].pc == ExitScan(k) && Index(k) && k != p && s.procs[k].parent == p
      && Facts(s, p, k, q, c)
    ensures One(ExitNext(s, p), q)
  {
  }

  lemma ExitGiveKeepsKin(s: Sys, p: int, k: int, q: int, c: int)
    requires Enabled(s, ExitStep(p)) && s.procs[p].pc == ExitScan(k) && Index(k) && k != p && s.procs[k].parent == p
      && Facts(s, p, k, q, c)
    ensures Kin(ExitNext(s, p), q, c)
  {
  }

  lemma ExitGiveKeepsApart(s: Sys, p: int, k: int, q: int, c: int)
    requires Enabled(s, ExitStep(p)) && s.procs[p].pc == ExitScan(k) && Index(k) && k != p && s.procs[k].parent == p
      && Facts(s, p, k, q, c)
    ensures Apart(ExitNext(s, p), q, c)
  {
  }

  lemma ExitGiveKeeps(s: Sys, p: int, k: int, q: int, c: int)
    requires Enabled(s, ExitStep(p)) && s.procs[p].pc == ExitScan(k) && Index(k) && k != p && s.procs[k].parent == p
      && Known(s, p, k, q, c)
    ensures Good(ExitNext(s, p), q, c)
  {
    assert Facts(s, p, k, q, c);
    ExitGiveKeepsOne(s, p, k, q, c);
    ExitGiveKeepsKin(s, p, k, q, c);
    ExitGiveKeepsApart(s, p, k, q, c);
    assert Both(ExitNext(s, p), q, c);
  }

  // A step of exit that changes no other process.
  ghost predicate Passes(s: Sys, p: int)
    requires |s.procs| == NPROC && Index(p)
  {
    match s.procs[p].pc
    case ExitScan(k) => !Index(k) || k == p || s.procs[k].parent != p
    case ExitWakeInit(k, j) => !Index(j) || j == p
    case ExitWake(j) => !Index(j) || j == p
    case _ => false
  }

  lemma ExitPassKeepsOne(s: Sys, p: int, q: int, c: int)
    requires Enabled(s, ExitStep(p)) && Passes(s, p) && Facts(s, p, p, q, c)
    ensures One(ExitNext(s, p), q)
  {
  }

  lemma ExitPassKeepsKin(s: Sys, p: int, q: int, c: int)
    requires Enabled(s, ExitStep(p)) && Passes(s, p) && Facts(s, p, p, q, c)
    ensures Kin(ExitNext(s, p), q, c)
  {
  }

  lemma ExitPassKeepsApart(s: Sys, p: int, q: int, c: int)
    requires Enabled(s, ExitStep(p)) && Passes(s, p) && Facts(s, p, p, q, c)
    ensures Apart(ExitNext(s, p), q, c)
  {
  }

  lemma ExitPassKeeps(s: Sys, p: int, q: int, c: int)
    requires Enabled(s, ExitStep(p)) && Passes(s, p) && Known(s, p, p, q, c)
    ensures Good(ExitNext(s, p), q, c)
  {
    assert Facts(s, p, p, q, c);
    ExitPassKeepsOne(s, p, q, c);
    ExitPassKeepsKin(s, p, q, c);
    ExitPassKeepsApart(s, p, q, c);
    assert Both(ExitNext(s, p), q, c);
  }

  lemma ExitWakeInitKeepsOne(s: Sys, p: int, k: int, j: int, q: int, c: int)
    requires Enabled(s, ExitStep(p)) && s.procs[p].pc == ExitWakeInit(k, j) && Index(j) && j != p
      && Facts(s, p, j, q, c)
    ensures One(ExitNext(s, p), q)
  {
  }

  lemma ExitWakeInitKeepsKin(s: Sys, p: int, k: int, j: int, q: int, c: int)
    requires Enabled(s, ExitStep(p)) && s.procs[p].pc == ExitWakeInit(k, j) && Index(j) && j != p
      && Facts(s, p, j, q, c)
    ensures Kin(ExitNext(s, p), q, c)
  {
  }

  lemma ExitWakeInitKeepsApart(s: Sys, p: int, k: int, j: int, q: int, c: int)
    requires Enabled(s, ExitStep(p)) && s.procs[p].pc == ExitWakeInit(k, j) && Index(j) && j != p
      && Facts(s, p, j, q, c)
    ensures Apart(ExitNext(s, p), q, c)
  {
  }

  lemma ExitWakeInitKeeps(s: Sys, p: int, k: int, j: int, q: int, c: int)
    requires Enabled(s, ExitStep(p)) && s.procs[p].pc == ExitWakeInit(k, j) && Index(j) && j != p
      && Known(s, p, j, q, c)
    ensures Good(ExitNext(s, p), q, c)
  {
    assert Facts(s, p, j, q, c);
    ExitWakeInitKeepsOne(s, p, k, j, q, c);
    ExitWakeInitKeepsKin(s, p, k, j, q, c);
    ExitWakeInitKeepsApart(s, p, k, j, q, c);
    assert Both(ExitNext(s, p), q, c);
  }

  lemma ExitWakeKeepsOne(s: Sys, p: int, j: int, q: int, c: int)
    requires Enabled(s, ExitStep(p)) && s.procs[p].pc == ExitWake(j) && Index(j) && j != p && Facts(s, p, j, q, c)
    ensures One(ExitNext(s, p), q)
  {
  }

  lemma ExitWakeKeepsKin(s: Sys, p: int, j: int, q: int, c: int)
    requires Enabled(s, ExitStep(p)) && s.procs[p].pc == ExitWake(j) && Index(j) && j != p && Facts(s, p, j, q, c)
    ensures Kin(ExitNext(s, p), q, c)
  {
  }

  lemma ExitWakeKeepsApart(s: Sys, p: int, j: int, q: int, c: int)
    requires Enabled(s, ExitStep(p)) && s.procs[p].pc == ExitWake(j) && Index(j) && j != p && Facts(s, p, j, q, c)
    ensures Apart(ExitNext(s, p), q, c)
  {
  }

  lemma ExitWakeKeeps(s: Sys, p: int, j: int, q: int, c: int)
    requires Enabled(s, ExitStep(p)) && s.procs[p].pc == ExitWake(j) && Index(j) && j != p && Known(s, p, j, q, c)
    ensures Good(ExitNext(s, p), q, c)
  {
    assert Facts(s, p, j, q, c);
    ExitWakeKeepsOne(s, p, j, q, c);
    ExitWakeKeepsKin(s, p, j, q, c);
    ExitWakeKeepsApart(s, p, j, q, c);
    assert Both(ExitNext(s, p), q, c);
  }

  lemma WaitPassKeepsOne(s: Sys, p: int, copied: bool, n: int, q: int, c: int)
    requires Enabled(s, WaitStep(p, copied)) && s.procs[p].pc.k == n && Index(n) && !(copied && Reapable(s, p, n))
      && Facts(s, p, n, q, c)
    ensures One(WaitNext(s, p, copied), q)
  {
  }

  lemma WaitPassKeepsKin(s: Sys, p: int, copied: bool, n: int, q: int, c: int)
    requires Enabled(s, WaitStep(p, copied)) && s.procs[p].pc.k == n && Index(n) && !(copied && Reapable(s, p, n))
      && Facts(s, p, n, q, c)
    ensures Kin(WaitNext(s, p, copied), q, c)
  {
  }

  lemma WaitPassKeepsApart(s: Sys, p: int, copied: bool, n: int, q: int, c: int)
    requires Enabled(s, WaitStep(p, copied)) && s.procs[p].pc.k == n && Index(n) && !(copied && Reapable(s, p, n))
      && Facts(s, p, n, q, c)
    ensures Apart(WaitNext(s, p, copied), q, c)
  {
  }

  lemma WaitPassKeeps(s: Sys, p: int, copied: bool, n: int, q: int, c: int)
    requires Enabled(s, WaitStep(p, copied)) && s.procs[p].pc.k == n && Index(n) && !(copied && Reapable(s, p, n))
      && Known(s, p, n, q, c)
    ensures Good(WaitNext(s, p, copied), q, c)
  {
    assert Facts(s, p, n, q, c);
    WaitPassKeepsOne(s, p, copied, n, q, c);
    WaitPassKeepsKin(s, p, copied, n, q, c);
    WaitPassKeepsApart(s, p, copied, n, q, c);
    assert Both(WaitNext(s, p, copied), q, c);
  }

  lemma WaitReapKeepsOne(s: Sys, p: int, k: int, q: int, c: int)
    requires Enabled(s, WaitStep(p, true)) && s.procs[p].pc.k == k && Reapable(s, p, k) && Facts(s, p, k, q, c)
    ensures One(WaitNext(s, p, true), q)
  {
  }

  lemma WaitReapKeepsKin(s: Sys, p: int, k: int, q: int, c: int)
    requires Enabled(s, WaitStep(p, true)) && s.procs[p].pc.k == k && Reapable(s, p, k) && Facts(s, p, k, q, c)
    ensures Kin(WaitNext(s, p, true), q, c)
  {
  }

  lemma WaitReapKeepsApart(s: Sys, p: int, k: int, q: int, c: int)
    requires Enabled(s, WaitStep(p, true)) && s.procs[p].pc.k == k && Reapable(s, p, k) && Facts(s, p, k, q, c)
    ensures Apart(WaitNext(s, p, true), q, c)
  {
  }

  lemma WaitReapKeeps(s: Sys, p: int, k: int, q: int, c: int)
    requires Enabled(s, WaitStep(p, true)) && s.procs[p].pc.k == k && Reapable(s, p, k) && Known(s, p, k, q, c)
    ensures Good(WaitNext(s, p, true), q, c)
  {
    assert Facts(s, p, k, q, c);
    WaitReapKeepsOne(s, p, k, q, c);
    WaitReapKeepsKin(s, p, k, q, c);
    WaitReapKeepsApart(s, p, k, q, c);
    assert Both(WaitNext(s, p, true), q, c);
  }
}
