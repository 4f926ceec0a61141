/**
 log.c itself: the global `log`, updated in place, over a disk and a buffer cache.

 Beside the fields runs a ghost machine; every method is proved to follow it,
 one action at a time, so that what LogTheorems proves of runs holds at every
 block write of this code.
 */
module LogCode {
  import opened Params
  import opened LogMachine
  import opened LogProofs
  import opened LogTheorems
  import opened LogBudget
  import opened LogCalls

  function FirstBoot(disk: Disk, init: Disk): (s: Sys) {
    Sys(disk, map[], multiset{}, [], map[], false, Boot, History(0, [], 0, init, init))
  }

  ghost predicate Boots(l: Layout, init: Disk, s: Sys) {
    Initial(l, init, s)
  }

  // a run of the machine from its first boot
  ghost predicate Run(l: Layout, init: Disk, ss: seq<Sys>, acts: seq<Action>) {
    Chain(l, ss, acts) && forall s :: s == ss[0] ==> Boots(l, init, s)
  }

  lemma {:induction false} ChainInv(l: Layout, init: Disk, ss: seq<Sys>, acts: seq<Action>, k: int)
    requires Run(l, init, ss, acts) && 0 <= k <= |acts|
    ensures Inv(l, init, ss[k])
    decreases k
  {
    if k == 0 {
      assert Boots(l, init, ss[0]);
      InitialInv(l, init, ss[0]);
    } else {
      ChainInv(l, init, ss, acts, k - 1);
      assert Linked(l, ss, acts, k - 1);
      ApplyKeeps(l, init, ss[k - 1], acts[k - 1]);
    }
  }

  // Whatever state of the trail the power fails in: any reboot that completes,
  // however often it is itself cut short, leaves that state's durable blocks.
  lemma TrailCrash(l: Layout, init: Disk, ss: seq<Sys>, acts: seq<Action>, k: int, reboot: seq<Action>)
    requires Run(l, init, ss, acts) && 0 <= k <= |acts| && Rebooting(reboot) && Base(l, ss[k])
    requires var r := Exec(l, Apply(l, ss[k], Crash), reboot); r.Reached? && r.s.pc == Running
    ensures Homes(l, Exec(l, Apply(l, ss[k], Crash), reboot).s.disk) == ss[k].hist.dur
  {
    ChainInv(l, init, ss, acts, k);
    CrashAtomicity(l, init, ss[k], reboot);
  }

  // The log_writes on the trail are those the code has made, in order, less those a crash lost.
  lemma TrailCalls(l: Layout, init: Disk, ss: seq<Sys>, acts: seq<Action>, k: int)
    requires Run(l, init, ss, acts) && 0 <= k <= |acts|
    ensures LedgerOf(l, ss[0], acts[..k]) == Ledger(ss[k].hist.updates, ss[k].hist.durable)
  {
    assert Boots(l, init, ss[0]);
    ChainExec(l, ss[0], [], ss, acts, k);
    assert [] + acts[..k] == acts[..k];
    LedgerIs(l, ss[0], acts[..k]);
  }

  ghost function AfterInstall(n: int, t: int, recovering: bool): (pc: Pc) {
    if t == n then (if recovering then RClear else ClearHead)
    else if recovering then RInstall(t) else Install(t)
  }

  lemma InstallStep(l: Layout, s: Sys, t: int, recovering: bool)
    requires Base(l, s) && s.pc == AfterInstall(|s.lh|, t, recovering) && 0 <= t < |s.lh|
    ensures ApplyStep(l, s) == WriteBlock(s, s.lh[t], View(s, LogAt(l, t)), AfterInstall(|s.lh|, t + 1, recovering))
      .(pins := if recovering then s.pins else s.pins - multiset{s.lh[t]})
  {
  }

  class Log {
    const l: Layout
    ghost const init: Disk

    // the device and its cache
    var disk: Disk
    var cache: Disk
    var pins: multiset<int>

    // struct log
    var n: int               // lh.n
    var block: seq<int>      // lh.block
    var outstanding: int
    var committing: bool

    // the machine, and how it got here
    ghost var m: Sys
    ghost var trail: seq<Sys>
    ghost var acts: seq<Action>

    // initlog, on a disk whose home blocks stand for init
    constructor (l: Layout, disk: Disk, ghost init: Disk)
      requires Initial(l, init, FirstBoot(disk, init))
      ensures Valid() && m.pc == Running && n == 0 && m.ops == map[]
      ensures this.l == l && this.init == init && m.hist == History(0, [], 0, init, init)
    {
      this.l, this.init, this.disk := l, init, disk;
      cache, pins, n, block := map[], multiset{}, 0, seq(LOGSIZE, _ => 0);
      outstanding, committing := 0, false;
      m, trail, acts := FirstBoot(disk, init), [FirstBoot(disk, init)], [];
      new;
      assert Boots(l, init, m);
      RecoverFromLog();
    }

    // The trail is a run of the machine from its first boot.
    ghost predicate Traced()
      reads this`m, this`trail, this`acts
    {
      Run(l, init, trail, acts) && trail[|acts|] == m && Base(l, m)
    }

    // The fields agree with the machine; lh.n may already have been reset for a
    // header write that the machine has yet to make.
    ghost predicate Behind()
      reads this
    {
      && Traced() && |block| == LOGSIZE && 0 <= n <= LOGSIZE
      && disk == m.disk && cache == m.cache && pins == m.pins
      && outstanding == |m.ops| && committing == m.committing
    }

    ghost predicate Valid()
      reads this
    {
      Behind() && block[..n] == m.lh
    }

    // Since the trail had length k, the history has been h.
    ghost predicate Quiet(k: int, h: History)
      reads this`m, this`trail
    {
      m.hist == h && forall i :: 0 <= k <= i < |trail| ==> trail[i].hist == h
    }

    // Let the machine make action a, which takes it to s.
    ghost method Take(a: Action, s: Sys)
      requires Traced() && Enabled(l, m, a) && s == Apply(l, m, a)
      modifies this`m, this`trail, this`acts
      ensures Traced() && m == s
      ensures trail == old(trail) + [m] && acts == old(acts) + [a]
    {
      assert Base(l, s) by {
        ChainInv(l, init, trail, acts, |acts|);
        ApplyKeeps(l, init, m, a);
      }
      ChainSnoc(l, trail, acts, a, s);
      m, trail, acts := s, trail + [s], acts + [a];
    }

    // bread: from the buffer if there is one, else from the disk.  Whether a clean
    // copy then stays in memory is up to Load and Evict.
    method Bread(b: int) returns (data: Block)
      requires Behind() && b in disk
      ensures data == View(m, b) && data == if b in cache then cache[b] else disk[b]
    {
      data := if b in cache then cache[b] else disk[b];
    }

    // bwrite: buffer and disk block get the same content; the machine follows to s
    method Bwrite(b: int, data: Block, ghost s: Sys)
      requires Behind() && m.pc != Running && s == ApplyStep(l, m)
      requires s.disk == disk[b := data] && s.cache == cache[b := data]
      modifies this`disk, this`cache, this`m, this`trail, this`acts
      ensures Traced() && m == s && disk == s.disk && cache == s.cache && trail == old(trail) + [s]
      ensures disk == old(disk)[b := data] && cache == old(cache)[b := data]
    {
      cache := cache[b := data];
      disk := disk[b := data];
      Take(Step, s);
    }

    // bread of one block, and its content written to another
    method CopyBlock(from: int, to: int, ghost s: Sys)
      requires Behind() && m.pc != Running && s == ApplyStep(l, m) && from in disk
      requires s.disk == disk[to := View(m, from)] && s.cache == cache[to := View(m, from)]
      modifies this`disk, this`cache, this`m, this`trail, this`acts
      ensures Traced() && m == s && disk == s.disk && cache == s.cache && trail == old(trail) + [s]
      ensures disk == old(disk)[to := if from in old(cache) then old(cache)[from] else old(disk)[from]]
    {
      var data := Bread(from);
      Bwrite(to, data, s);
    }

    // one round of write_log: bread, bread, memmove, bwrite
    method CopyToLog(tail: int)
      requires Valid() && m.pc == WriteLog(tail)
      modifies this`disk, this`cache, this`m, this`trail, this`acts
      ensures Valid() && m.pc == if tail + 1 == n then WriteHead else WriteLog(tail + 1)
      ensures 0 <= tail < n && (block[tail] in old(cache) || block[tail] in old(disk))
      ensures disk == old(disk)[l.start + 1 + tail :=
        if block[tail] in old(cache) then old(cache)[block[tail]] else old(disk)[block[tail]]]
      ensures trail == old(trail) + [m] && m.hist == old(m.hist)
    {
      var _ := Bread(LogAt(l, tail));
      assert block[tail] == m.lh[tail];
      ghost var s := WriteBlock(m, LogAt(l, tail), View(m, block[tail]),
        if tail + 1 == n then WriteHead else WriteLog(tail + 1));
      assert s == ApplyStep(l, m);
      CopyBlock(block[tail], LogAt(l, tail), s);
    }

    // Copy the modified blocks from their buffers to the log.
    method WriteLogBlocks()
      requires Valid() && m.pc == WriteLog(0)
      modifies this`disk, this`cache, this`m, this`trail, this`acts
      ensures Valid() && m.pc == WriteHead
      ensures old(trail) <= trail && Quiet(|old(trail)|, old(m.hist))
    {
      var tail := 0;
      while tail < n
        invariant 0 <= tail <= n && Valid()
        invariant m.pc == if tail == n then WriteHead else WriteLog(tail)
        invariant old(trail) <= trail && Quiet(|old(trail)|, old(m.hist))
      {
        CopyToLog(tail);
        tail := tail + 1;
      }
    }

    // Write the header in memory to the log's first block.  The machine's next
    // step is a header write with exactly the entries that lh now holds.
    method WriteHeader()
      requires Behind()
      requires m.pc == WriteHead || m.pc == ClearHead || m.pc == RClear
      requires block[..n] == if m.pc == WriteHead then m.lh else []
      modifies this`disk, this`cache, this`m, this`trail, this`acts
      ensures Valid() && m == ApplyStep(l, old(m)) && trail == old(trail) + [m]
      ensures l.start in disk && disk == old(disk)[l.start := disk[l.start]] && |disk[l.start].words| == WORDS
      ensures disk[l.start].words[0] == n && forall j :: 0 <= j < n ==> disk[l.start].words[1 + j] == block[j]
    {
      var buf := Bread(l.start);
      var words := buf.words[0 := n];
      var i := 0;
      while i < n
        invariant 0 <= i <= n && |words| == WORDS && words[0] == n
        invariant forall j :: 0 <= j < i ==> words[1 + j] == block[j]
        invariant forall j :: i < j < WORDS ==> words[j] == buf.words[j]
      {
        words := words[1 + i := block[i]];
        i := i + 1;
      }
      HeaderWords(buf.words, words, block, n);
      ghost var s := ApplyStep(l, m);
      Bwrite(l.start, Block(words), s);
    }

    // one round of install_trans: bread, bread, memmove, bwrite and, unless recovering, bunpin
    method InstallOne(tail: int, recovering: bool)
      requires Valid() && 0 <= tail < n && m.pc == AfterInstall(n, tail, recovering)
      modifies this`disk, this`cache, this`pins, this`m, this`trail, this`acts
      ensures Valid() && trail == old(trail) + [m] && m.hist == old(m.hist)
      ensures m.pc == AfterInstall(n, tail + 1, recovering)
      ensures var t := LogAt(l, tail);
        t in old(disk) && disk == old(disk)[block[tail] := if t in old(cache) then old(cache)[t] else old(disk)[t]]
      ensures pins == if recovering then old(pins) else old(pins) - multiset{block[tail]}
    {
      var b := block[tail];
      assert b == m.lh[tail] && b in disk && LogAt(l, tail) in disk;
      var pinned := if recovering then pins else pins - multiset{b};
      ghost var s := WriteBlock(m, b, View(m, LogAt(l, tail)), AfterInstall(n, tail + 1, recovering)).(pins := pinned);
      assert s == ApplyStep(l, m) by { InstallStep(l, m, tail, recovering); }
      CopyBlock(LogAt(l, tail), b, s);
      pins := pinned;
    }

    // Copy committed blocks from the log to their homes.
    method InstallTrans(recovering: bool)
      requires Valid() && m.pc == AfterInstall(n, 0, recovering)
      modifies this`disk, this`cache, this`pins, this`m, this`trail, this`acts
      ensures Valid() && m.pc == if recovering then RClear else ClearHead
      ensures old(trail) <= trail && Quiet(|old(trail)|, old(m.hist))
    {
      var tail := 0;
      while tail < n
        invariant 0 <= tail <= n && Valid()
        invariant m.pc == AfterInstall(n, tail, recovering)
        invariant old(trail) <= trail && Quiet(|old(trail)|, old(m.hist))
      {
        InstallOne(tail, recovering);
        tail := tail + 1;
      }
    }

    // From trail index lo on: history h0 before index k, h1 from k on.
    ghost predicate Switch(lo: int, k: int, h0: History, h1: History)
      reads this`m, this`trail
    {
      && 0 <= lo <= k <= |trail| && m.hist == h1
      && (forall i :: lo <= i < k ==> trail[i].hist == h0)
      && (forall i :: k <= i < |trail| ==> trail[i].hist == h1)
    }

    // commit: at each of its block writes the durable state is the old one before
    // the header write, index k of the trail, and the complete new one from there on.
    method Commit() returns (ghost k: int)
      requires Valid() && m.pc == if n > 0 then WriteLog(0) else Finish
      modifies this`disk, this`cache, this`pins, this`n, this`m, this`trail, this`acts
      ensures Valid() && m.pc == Finish && n == 0 && old(trail) <= trail
      ensures old(n) > 0 ==> Switch(|old(trail)|, k, old(m.hist), Committed(old(m.hist)))
      ensures old(n) == 0 ==> trail == old(trail) && m == old(m) && k == |trail|
    {
      k := |trail|;
      if n > 0 {
        WriteLogBlocks();
        k := |trail|;
        CommitTail();
      }
    }

    // the header write and what follows it
    method CommitTail()
      requires Valid() && m.pc == WriteHead && n > 0
      modifies this`disk, this`cache, this`pins, this`n, this`m, this`trail, this`acts
      ensures Valid() && m.pc == Finish && n == 0 && old(trail) <= trail
      ensures Quiet(|old(trail)|, Committed(old(m.hist)))
    {
      WriteHeader();
      InstallAndErase(false);
    }

    // install_trans and the header write that erases the log, after the commit point or in recovery
    method InstallAndErase(recovering: bool)
      requires Valid() && m.pc == AfterInstall(n, 0, recovering)
      modifies this`disk, this`cache, this`pins, this`n, this`m, this`trail, this`acts
      ensures Valid() && m.pc == (if recovering then Running else Finish) && n == 0 && m.ops == map[]
      ensures old(trail) <= trail && Quiet(|old(trail)|, old(m.hist))
    {
      InstallTrans(recovering);
      EraseLog();
    }

    // log.lh.n = 0 and write_head
    method EraseLog()
      requires Valid() && (m.pc == RClear || m.pc == ClearHead)
      modifies this`disk, this`cache, this`n, this`m, this`trail, this`acts
      ensures Valid() && m.pc == (if old(m.pc) == RClear then Running else Finish) && n == 0 && m.ops == map[]
      ensures trail == old(trail) + [m] && m.hist == old(m.hist)
    {
      AllDurable();
      n := 0;
      WriteHeader();
    }

    // Recover from whatever the disk holds after a crash.
    method RecoverFromLog()
      requires Valid() && m.pc == Boot && n == 0
      modifies this`disk, this`cache, this`pins, this`n, this`block, this`m, this`trail, this`acts
      ensures Valid() && m.pc == Running && n == 0 && m.ops == map[]
      ensures old(trail) <= trail && Quiet(|old(trail)|, old(m.hist))
    {
      ReadHead();
      InstallAndErase(true);
    }

    method ReadHead()
      requires Valid() && m.pc == Boot && n == 0
      modifies this`n, this`block, this`m, this`trail, this`acts
      ensures Valid() && m.pc == AfterInstall(n, 0, true)
      ensures trail == old(trail) + [m] && m.hist == old(m.hist)
    {
      var buf := Bread(l.start);
      BootHeader();
      n := buf.words[0];
      var i := 0;
      while i < n
        modifies this`block
        invariant 0 <= i <= n && |block| == LOGSIZE
        invariant forall j :: 0 <= j < i ==> block[j] == buf.words[1 + j]
      {
        block := block[i := buf.words[1 + i]];
        i := i + 1;
      }
      assert block[..n] == Entries(buf);
      Take(Step, ApplyStep(l, m));
    }

    // The header found at boot is well formed.
    lemma BootHeader()
      requires Valid() && m.pc == Boot
      ensures HeadOk(View(m, l.start))
    {
      ChainInv(l, init, trail, acts, |acts|);
    }

    // One pass through begin_op's loop; false means that the caller sleeps.
    method BeginOp() returns (ok: bool)
      requires Valid() && (m.pc == Running || committing)
      modifies this`outstanding, this`m, this`trail, this`acts
      ensures Valid()
      ensures ok == !BeginWaits(old(m)) && outstanding == old(outstanding) + if ok then 1 else 0
      ensures ok <==> !committing && n + (old(outstanding) + 1) * MAXOPBLOCKS <= LOGSIZE
      ensures ok ==> m == Apply(l, old(m), Begin) && trail == old(trail) + [m]
      ensures !ok ==> m == old(m) && trail == old(trail)
    {
      if committing {
        ok := false;
      } else if n + (outstanding + 1) * MAXOPBLOCKS > LOGSIZE {
        ok := false;
      } else {
        ok := true;
        FreshOp();
        outstanding := outstanding + 1;
        Take(Begin, Apply(l, m, Begin));
      }
    }

    // log_write of a buffer whose content is now data: absorbed if the block is
    // already in the log, else appended and pinned.
    method LogWrite(b: int, data: Block, ghost op: int)
      requires Valid() && op in m.ops && b in l.homes
      requires !LogWritePanics(l, m)
      modifies this`cache, this`pins, this`n, this`block, this`m, this`trail, this`acts
      ensures Valid() && trail == old(trail) + [m] && acts == old(acts) + [Write(op, b, data)]
      ensures b in cache && cache[b] == data && (b in old(cache) || b in old(disk))
      ensures forall c :: c != b ==>
        (c in cache <==> c in old(cache)) && (c in cache ==> cache[c] == old(cache)[c])
      ensures block[..n] == if b in old(block[..n]) then old(block[..n]) else old(block[..n]) + [b]
      ensures pins == if b in old(block[..n]) then old(pins) else old(pins) + multiset{b}
      ensures m.hist.updates == old(m.hist.updates) + [Update(op, b, data)] && m.hist.durable == old(m.hist.durable)
      ensures m == ApplyWrite(old(m), op, b, data)
    {
      var i := 0;
      while i < n && block[i] != b
        invariant 0 <= i <= n
        invariant b !in block[..i]
      {
        i := i + 1;
      }
      assert i < n <==> b in m.lh;
      ghost var s := ApplyWrite(m, op, b, data);
      cache := cache[b := data];
      block := block[i := b];
      if i == n {
        pins := pins + multiset{b};
        n := n + 1;
      }
      assert block[..n] == s.lh;
      Take(Write(op, b, data), s);
    }

    // end_op: the last operation out commits for the group.
    method EndOp(ghost op: int) returns (ghost k: int)
      requires Valid() && m.pc == Running && op in m.ops
      modifies this`disk, this`cache, this`pins, this`n, this`outstanding, this`committing, this`m, this`trail,
        this`acts
      ensures Valid() && m.pc == Running && old(trail) <= trail
      ensures m.ops == old(m.ops) - {op} && outstanding == old(outstanding) - 1
      ensures m.hist.updates == old(m.hist.updates) && (outstanding == 0 ==> m.hist.durable == |m.hist.updates|)
      ensures m.ops != map[] ==> trail == old(trail) + [m] && m.hist == old(m.hist)
      ensures m.ops == map[] ==> n == 0 && Switch(|old(trail)|, k, old(m.hist), Committed(old(m.hist)))
    {
      EndCount(m.ops, op);
      outstanding := outstanding - 1;
      Take(End(op), ApplyEnd(m, op));
      k := |trail|;
      if outstanding == 0 {
        committing := true;
        k := EndCommit();
      }
    }

    method EndCommit() returns (ghost k: int)
      requires Valid() && m.pc == (if n > 0 then WriteLog(0) else Finish)
      modifies this`disk, this`cache, this`pins, this`n, this`committing, this`m, this`trail, this`acts
      ensures Valid() && m.pc == Running && n == 0 && m.ops == map[] && old(trail) <= trail
      ensures Switch(|old(trail)|, k, old(m.hist), Committed(old(m.hist)))
    {
      AllDurable();
      k := Commit();
      AllDurable();
      committing := false;
      Take(Step, ApplyStep(l, m));
    }

    // With nothing in the log there is nothing left to make durable.
    lemma AllDurable()
      requires Valid()
      ensures m.pc == Finish ==> Committed(m.hist) == m.hist && m.ops == map[]
      ensures m.pc != Running ==> m.ops == map[]
    {
      ChainInv(l, init, trail, acts, |acts|);
    }

    lemma FreshOp()
      requires Valid()
      ensures m.hist.nextOp !in m.ops
    {
      ChainInv(l, init, trail, acts, |acts|);
    }
  }

  lemma EndCount(ops: map<int, int>, op: int)
    requires op in ops
    ensures |ops - {op}| == |ops| - 1
    ensures |ops| == 1 <==> ops - {op} == map[]
  {
    var rest := ops - {op};
    assert ops == rest[op := ops[op]];
    assert rest.Keys == ops.Keys - {op};
    assert |rest| == 0 ==> rest == map[];
  }

  lemma HeaderWords(old': seq<int>, words: seq<int>, block: seq<int>, n: int)
    requires |old'| == |words| == WORDS && 0 <= n <= LOGSIZE == |block| && words[0] == n
    requires forall j :: 0 <= j < n ==> words[1 + j] == block[j]
    requires forall j :: n < j < WORDS ==> words[j] == old'[j]
    ensures Block(words) == WithHeader(Block(old'), block[..n])
  {
  }
}
