/**
 The log in terms of the calls that are made: which log_writes a crash loses, and what every
 block holds before and after it. Nothing here looks at the history that the machine keeps.
 */
module LogCalls {
  import opened LogMachine
  import opened LogProofs
  import opened LogTheorems

  // The log_writes of a run, less those lost in crashes; the first firm of them were made before
  // the last header write of a commit.
  datatype Ledger = Ledger(writes: seq<Update>, firm: int)

  ghost function LedgerOf(l: Layout, s: Sys, acts: seq<Action>): (g: Ledger)
    ensures 0 <= g.firm <= |g.writes|
  {
    if acts == [] then Ledger([], 0)
    else
      var n := |acts| - 1;
      var g, r := LedgerOf(l, s, acts[..n]), Exec(l, s, acts[..n]);
      match acts[n]
      case Write(op, b, data) => g.(writes := g.writes + [Update(op, b, data)])
      case Step => if r.Reached? && r.s.pc == WriteHead then g.(firm := |g.writes|) else g
      case Crash => g.(writes := g.writes[..g.firm])
      case _ => g
  }

  // d is what block b holds after the updates us: the data of the last update of b.
  ghost predicate LastAt(us: seq<Update>, b: int, d: Block, i: int) {
    0 <= i < |us| && us[i].b == b && us[i].data == d && forall j :: i < j < |us| ==> us[j].b != b
  }

  ghost predicate Untouched(us: seq<Update>, b: int) { forall j :: 0 <= j < |us| ==> us[j].b != b }

  ghost predicate After(init: Disk, us: seq<Update>, b: int, d: Block) {
    if Untouched(us, b) then b in init && d == init[b] else exists i :: LastAt(us, b, d, i)
  }

  lemma {:induction false} ReplayLast(init: Disk, us: seq<Update>, b: int)
    requires b in init
    ensures b in Replay(init, us) && After(init, us, b, Replay(init, us)[b])
  {
    if us != [] {
      var n := |us| - 1;
      ReplayLast(init, us[..n], b);
      if us[n].b == b {
        assert LastAt(us, b, us[n].data, n);
      } else if Untouched(us[..n], b) {
        assert forall j :: 0 <= j < n ==> us[j] == us[..n][j];
      } else {
        var i :| LastAt(us[..n], b, Replay(init, us[..n])[b], i);
        assert forall j :: 0 <= j < n ==> us[j] == us[..n][j];
        assert LastAt(us, b, Replay(init, us[..n])[b], i);
      }
    }
  }

  // ---------------------------------------------------------------------
  // The history is the ledger.

  lemma LedgerStep(l: Layout, s: Sys, a: Action)
    requires Base(l, s) && Enabled(l, s, a)
    ensures var h, h' := s.hist, Apply(l, s, a).hist;
      match a
      case Write(op, b, data) => h'.updates == h.updates + [Update(op, b, data)] && h'.durable == h.durable
      case Step => h'.updates == h.updates && h'.durable == if s.pc == WriteHead then |h.updates| else h.durable
      case Crash => h'.updates == h.updates[..h.durable] && h'.durable == h.durable
      case _ => h'.updates == h.updates && h'.durable == h.durable
  {
    if a == Step { StepEffect(l, s); }
  }

  lemma {:induction false} LedgerIs(l: Layout, s: Sys, acts: seq<Action>)
    requires s.hist.updates == [] && s.hist.durable == 0 && Exec(l, s, acts).Reached?
    ensures var h := Exec(l, s, acts).s.hist; LedgerOf(l, s, acts) == Ledger(h.updates, h.durable)
  {
    if acts != [] {
      var n := |acts| - 1;
      LedgerIs(l, s, acts[..n]);
      LedgerStep(l, Exec(l, s, acts[..n]).s, acts[n]);
    }
  }

  // ---------------------------------------------------------------------
  // What the blocks hold.

  // In every state of every run in which the system is up, every block reads as the last log_write
  // of it that is not lost.
  lemma RunShowsCalls(l: Layout, init: Disk, s0: Sys, acts: seq<Action>, b: int)
    requires Initial(l, init, s0) && Exec(l, s0, acts).Reached? && b in l.homes
    requires !Recovering(Exec(l, s0, acts).s.pc)
    ensures var t := Exec(l, s0, acts).s;
      (b in t.cache || b in t.disk) && After(init, LedgerOf(l, s0, acts).writes, b, View(t, b))
  {
    InitialInv(l, init, s0);
    RunKeeps(l, init, s0, acts);
    LedgerIs(l, s0, acts);
    ReplayLast(init, Exec(l, s0, acts).s.hist.updates, b);
  }

  // A crash after any run, and any reboot that completes: every block holds the last log_write of
  // it among those before the last commit, on the disk and as seen, and that cut splits no operation.
  lemma CrashKeepsCalls(l: Layout, init: Disk, s0: Sys, run: seq<Action>, reboot: seq<Action>, b: int)
    requires Initial(l, init, s0) && Exec(l, s0, run).Reached? && Rebooting(reboot) && b in l.homes
    requires Base(l, Exec(l, s0, run).s)
    requires var r := Exec(l, Apply(l, Exec(l, s0, run).s, Crash), reboot); r.Reached? && r.s.pc == Running
    ensures var g := LedgerOf(l, s0, run);
      var t := Exec(l, Apply(l, Exec(l, s0, run).s, Crash), reboot).s;
      && b in t.disk && After(init, g.writes[..g.firm], b, t.disk[b]) && View(t, b) == t.disk[b]
      && forall i, j :: 0 <= i < g.firm <= j < |g.writes| ==> g.writes[i].op != g.writes[j].op
  {
    InitialInv(l, init, s0);
    RunKeeps(l, init, s0, run);
    LedgerIs(l, s0, run);
    var s := Exec(l, s0, run).s;
    CrashAtomicity(l, init, s, reboot);
    var t := Exec(l, Apply(l, s, Crash), reboot).s;
    assert b in Homes(l, t.disk);
    ReplayLast(init, s.hist.updates[..s.hist.durable], b);
  }

  // ---------------------------------------------------------------------
  // What has been committed.

  ghost predicate Empties(s: Sys) { s.pc == Running && s.ops == map[] ==> s.lh == [] }

  lemma EmptiesStep(l: Layout, s: Sys)
    requires Base(l, s) && s.pc != Running && (s.pc.Finish? ==> s.lh == [])
    ensures Empties(ApplyStep(l, s))
  {
  }

  lemma EmptiesKept(l: Layout, s: Sys, a: Action)
    requires Base(l, s) && Enabled(l, s, a) && Empties(s) && (s.pc.Finish? ==> s.lh == [])
    ensures Empties(Apply(l, s, a))
  {
    match a
    case Begin => assert s.hist.nextOp in Apply(l, s, a).ops;
    case Write(op, b, data) => assert op in ApplyWrite(s, op, b, data).ops;
    case Step => EmptiesStep(l, s);
    case _ =>
  }

  lemma {:induction false} EmptiesRun(l: Layout, init: Disk, s0: Sys, acts: seq<Action>)
    requires Initial(l, init, s0) && Exec(l, s0, acts).Reached?
    ensures Empties(Exec(l, s0, acts).s)
  {
    if acts != [] {
      var n := |acts| - 1;
      EmptiesRun(l, init, s0, acts[..n]);
      InitialInv(l, init, s0);
      RunKeeps(l, init, s0, acts[..n]);
      EmptiesKept(l, Exec(l, s0, acts[..n]).s, acts[n]);
    }
  }

  // Whenever no operation is open and no commit runs, every log_write made so far has been
  // committed, unless a crash lost it.
  lemma IdleIsCommitted(l: Layout, init: Disk, s0: Sys, acts: seq<Action>)
    requires Initial(l, init, s0) && Exec(l, s0, acts).Reached?
    requires var t := Exec(l, s0, acts).s; t.pc == Running && t.ops == map[]
    ensures LedgerOf(l, s0, acts).firm == |LedgerOf(l, s0, acts).writes|
  {
    InitialInv(l, init, s0);
    RunKeeps(l, init, s0, acts);
    LedgerIs(l, s0, acts);
    EmptiesRun(l, init, s0, acts);
    var t := Exec(l, s0, acts).s;
    assert Pending(t);
  }
}
