/**
 fork, exit, wait, sleep and wakeup of proc.c as steps of many processes. One
 step is one section under a p->lock; wait_lock is part of the state, because
 exit and wait hold it across many such sections.
 */
module ProcMachine {

  const NPROC: int := 64
  const INIT: int := 0         // initproc, the first process allocated
  const NONE: int := -1

  datatype Status = Unused | Used | Sleeping | Runnable | Running | Zombie

  // Where a process is in proc.c; User is everywhere else. k and j are the indices of table scans.
  datatype Pc =
    | User
    | ForkParent(n: int)          // before np->parent = p
    | ForkRun(n: int)             // before np->state = RUNNABLE
    | ExitScan(k: int)            // reparent's loop
    | ExitWakeInit(k: int, j: int)  // its wakeup(initproc)
    | ExitWake(j: int)            // wakeup(p->parent)
    | ExitDone                    // before p->state = ZOMBIE
    | Dead
    | WaitScan(k: int, kids: bool)
    | WaitSleep                   // in sleep(p, &wait_lock)

  // chan is the process slept on in wait, or NPROC and above for all other channels
  datatype Proc = Proc(st: Status, chan: int, parent: int, pid: int, xstate: int, killed: bool, pc: Pc)

  // lock is the holder of wait_lock. exits records the status each pid exited with, reaped
  // the pids that wait has returned.
  datatype Sys = Sys(procs: seq<Proc>, lock: int, nextpid: int, exits: map<int, int>, reaped: set<int>)

  datatype Action =
    | Schedule(p: int) | Yield(p: int) | SleepElsewhere(p: int, chan: int) | WakeElsewhere(p: int) | Kill(p: int)
    | ForkAlloc(p: int, n: int) | ForkAbort(p: int) | SetParent(p: int) | Start(p: int)
    | ExitBegin(p: int) | ExitStep(p: int) | ExitEnd(p: int, status: int)
    | WaitBegin(p: int) | WaitStep(p: int, copied: bool) | WaitEnd(p: int)

  const FREE: Proc := Proc(Unused, NONE, NONE, 0, 0, false, User)

  predicate Index(p: int) { 0 <= p < NPROC }

  function Put(s: Sys, p: int, x: Proc): (s': Sys)
    requires Index(p) && |s.procs| == NPROC
  {
    s.(procs := s.procs[p := x])
  }

  // wakeup's section for process j
  function Woken(x: Proc, chan: int): (x': Proc) {
    if x.st == Sleeping && x.chan == chan then x.(st := Runnable) else x
  }

  ghost predicate Enabled(s: Sys, a: Action) {
    && |s.procs| == NPROC && Index(a.p)
    && var x := s.procs[a.p];
      match a
      case Schedule(p) => x.st == Runnable
      case Yield(p) => x.st == Running && s.lock != p
      case SleepElsewhere(p, chan) => x.st == Running && x.pc == User && chan >= NPROC
      case WakeElsewhere(p) => x.st == Sleeping && x.chan >= NPROC
      case Kill(p) => x.st != Unused
      case ForkAlloc(p, n) => x.st == Running && x.pc == User && Index(n) && s.procs[n].st == Unused
      case ForkAbort(p) => x.st == Running && x.pc.ForkParent? && Index(x.pc.n)
      case SetParent(p) => x.st == Running && x.pc.ForkParent? && Index(x.pc.n) && s.lock == NONE
      case Start(p) => x.st == Running && x.pc.ForkRun? && Index(x.pc.n)
      case ExitBegin(p) => x.st == Running && x.pc == User && p != INIT && s.lock == NONE
      case ExitStep(p) => x.st == Running && (x.pc.ExitScan? || x.pc.ExitWakeInit? || x.pc.ExitWake?)
      case ExitEnd(p, status) => x.st == Running && x.pc == ExitDone
      case WaitBegin(p) => x.st == Running && (x.pc == User || x.pc == WaitSleep) && s.lock == NONE
      case WaitStep(p, copied) => x.st == Running && x.pc.WaitScan? && x.pc.k < NPROC
      case WaitEnd(p) => x.st == Running && x.pc.WaitScan? && x.pc.k >= NPROC
  }

  // One step of exit while it holds wait_lock.
  function ExitNext(s: Sys, p: int): (s': Sys)
    requires |s.procs| == NPROC && Index(p)
  {
    var x := s.procs[p];
    match x.pc
    case ExitScan(k) =>
      if !Index(k) then Put(s, p, x.(pc := ExitWake(0)))
      else if s.procs[k].parent == p && k != p then
        Put(Put(s, k, s.procs[k].(parent := INIT)), p, x.(pc := ExitWakeInit(k, 0)))
      else Put(s, p, x.(pc := ExitScan(k + 1)))
    case ExitWakeInit(k, j) =>
      if !Index(j) then Put(s, p, x.(pc := ExitScan(k + 1)))
      else if j == p then Put(s, p, x.(pc := ExitWakeInit(k, j + 1)))
      else Put(Put(s, j, Woken(s.procs[j], INIT)), p, x.(pc := ExitWakeInit(k, j + 1)))
    case ExitWake(j) =>
      if !Index(j) then Put(s, p, x.(pc := ExitDone))
      else if j == p then Put(s, p, x.(pc := ExitWake(j + 1)))
      else Put(Put(s, j, Woken(s.procs[j], x.parent)), p, x.(pc := ExitWake(j + 1)))
    case _ => s
  }

  // One step of wait's scan: a child that is a zombie is reaped, unless copying its status fails.
  function WaitNext(s: Sys, p: int, copied: bool): (s': Sys)
    requires |s.procs| == NPROC && Index(p) && s.procs[p].pc.WaitScan?
  {
    var x := s.procs[p];
    var k := x.pc.k;
    if !Index(k) || k == p || s.procs[k].parent != p then Put(s, p, x.(pc := WaitScan(k + 1, x.pc.kids)))
    else if s.procs[k].st != Zombie then Put(s, p, x.(pc := WaitScan(k + 1, true)))
    else if !copied then Put(s, p, x.(pc := User)).(lock := NONE)
    else Put(Put(s, k, FREE), p, x.(pc := User)).(lock := NONE, reaped := s.reaped + {s.procs[k].pid})
  }

  function WaitStop(s: Sys, p: int): (s': Sys)
    requires |s.procs| == NPROC && Index(p) && s.procs[p].pc.WaitScan?
  {
    var x := s.procs[p];
    if !x.pc.kids || x.killed then Put(s, p, x.(pc := User)).(lock := NONE)
    else Put(s, p, x.(st := Sleeping, chan := p, pc := WaitSleep)).(lock := NONE)
  }

  ghost function Apply(s: Sys, a: Action): (s': Sys)
    requires Enabled(s, a)
  {
    var x := s.procs[a.p];
    match a
    case Schedule(p) => Put(s, p, x.(st := Running))
    case Yield(p) => Put(s, p, x.(st := Runnable))
    case SleepElsewhere(p, chan) => Put(s, p, x.(st := Sleeping, chan := chan))
    case WakeElsewhere(p) => Put(s, p, x.(st := Runnable))
    case Kill(p) => Put(s, p, x.(killed := true, st := if x.st == Sleeping then Runnable else x.st))
    case ForkAlloc(p, n) =>
      Put(Put(s, n, FREE.(st := Used, pid := s.nextpid)), p, x.(pc := ForkParent(n))).(nextpid := s.nextpid + 1)
    case ForkAbort(p) => Put(Put(s, x.pc.n, FREE), p, x.(pc := User))
    case SetParent(p) => Put(Put(s, x.pc.n, s.procs[x.pc.n].(parent := p)), p, x.(pc := ForkRun(x.pc.n)))
    case Start(p) => Put(Put(s, x.pc.n, s.procs[x.pc.n].(st := Runnable)), p, x.(pc := User))
    case ExitBegin(p) => Put(s, p, x.(pc := ExitScan(0))).(lock := p)
    case ExitStep(p) => ExitNext(s, p)
    case ExitEnd(p, status) =>
      Put(s, p, x.(st := Zombie, xstate := status, pc := Dead)).(lock := NONE, exits := s.exits[x.pid := status])
    case WaitBegin(p) => Put(s, p, x.(pc := WaitScan(0, false))).(lock := p)
    case WaitStep(p, copied) => WaitNext(s, p, copied)
    case WaitEnd(p) => WaitStop(s, p)
  }
}
