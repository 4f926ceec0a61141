/**
 Every action of the log keeps the invariant, hence every run does.
 */
module LogProofs {
  import opened Params
  import opened LogMachine

  lemma InitialInv(l: Layout, init: Disk, s: Sys)
    requires Initial(l, init, s)
    ensures Inv(l, init, s)
  {
    assert s.hist.updates[..0] == [];
  }

  // ---------------------------------------------------------------------
  // The history.

  lemma UpdatedHist(l: Layout, init: Disk, h: History, ops: map<int, int>, u: Update, ops': map<int, int>)
    requires HistOk(l, init, h, ops) && u.op in ops && u.b in l.homes && ops'.Keys == ops.Keys
    ensures HistOk(l, init, Updated(h, u), ops')
  {
    var us := h.updates + [u];
    assert us[..|us| - 1] == h.updates;
    assert us[..h.durable] == h.updates[..h.durable];
  }

  lemma CommittedHist(l: Layout, init: Disk, h: History)
    requires HistOk(l, init, h, map[])
    ensures HistOk(l, init, Committed(h), map[])
  {
    assert h.updates[..|h.updates|] == h.updates;
  }

  lemma LostHist(l: Layout, init: Disk, h: History, ops: map<int, int>)
    requires HistOk(l, init, h, ops)
    ensures HistOk(l, init, Lost(h), map[])
  {
    var us := h.updates[..h.durable];
    assert us[..|us|] == us;
  }

  // ---------------------------------------------------------------------
  // Operations.

  // SysInv for a machine that neither commits nor recovers
  ghost predicate RunningInv(l: Layout, s: Sys) {
    && Base(l, s) && s.pc == Running && !s.committing
    && Clean(l, s.disk, s.cache, s.pins) && s.pins == multiset(s.lh)
    && HeadOk(s.disk[l.start]) && Entries(s.disk[l.start]) == []
    && Durable(l, s.disk, s.hist.dur)
    && Agrees(l, s, s.hist.cur)
    && Pending(s)
  }

  lemma RunningIff(l: Layout, s: Sys)
    ensures RunningInv(l, s) <==> SysInv(l, s) && s.pc == Running
  {
  }

  lemma BeginKeeps(l: Layout, s: Sys)
    requires SysInv(l, s) && Enabled(l, s, Begin)
    ensures SysInv(l, Apply(l, s, Begin))
  {
    var s' := Apply(l, s, Begin);
    RunningIff(l, s);
    RunningIff(l, s');
  }

  lemma WriteAgrees(l: Layout, s: Sys, op: int, b: int, data: Block)
    requires RunningInv(l, s) && op in s.ops && b in l.homes && l.homes == s.hist.cur.Keys
      && Base(l, ApplyWrite(s, op, b, data))
    ensures var s' := ApplyWrite(s, op, b, data); Agrees(l, s', s'.hist.cur)
  {
    var s' := ApplyWrite(s, op, b, data);
    forall c | c in l.homes ensures View(s', c) == s'.hist.cur[c] { assert c != b ==> View(s', c) == View(s, c); }
  }

  lemma WriteKeeps(l: Layout, s: Sys, op: int, b: int, data: Block)
    requires SysInv(l, s) && Enabled(l, s, Write(op, b, data)) && l.homes == s.hist.cur.Keys
    ensures SysInv(l, ApplyWrite(s, op, b, data))
  {
    assert RunningInv(l, s) by { RunningIff(l, s); }
    assert RunningInv(l, ApplyWrite(s, op, b, data)) by { WriteRunning(l, s, op, b, data); }
    RunningIff(l, ApplyWrite(s, op, b, data));
  }

  lemma WriteRunning(l: Layout, s: Sys, op: int, b: int, data: Block)
    requires RunningInv(l, s) && op in s.ops && b in l.homes && |s.lh| < LOGSIZE && |s.lh| < l.size - 1
      && l.homes == s.hist.cur.Keys
    ensures RunningInv(l, ApplyWrite(s, op, b, data))
  {
    WriteBase(l, s, op, b, data);
    WriteAgrees(l, s, op, b, data);
    WritePending(s, op, b, data);
  }

  lemma WritePending(s: Sys, op: int, b: int, data: Block)
    requires Pending(s) && op in s.ops
    ensures Pending(ApplyWrite(s, op, b, data))
  {
    var s' := ApplyWrite(s, op, b, data);
    assert b in s'.lh by { if b !in s.lh { assert s'.lh[|s.lh|] == b; } }
    forall i | 0 <= s'.hist.durable <= i < |s'.hist.updates| ensures s'.hist.updates[i].b in s'.lh {
      if i < |s.hist.updates| { assert s.hist.updates[i].b in s.lh; }
    }
  }

  lemma WritePins(lh: seq<int>, b: int)
    ensures b in lh ==> b in multiset(lh)
    ensures multiset(lh + [b]) == multiset(lh) + multiset{b}
  {
  }

  lemma WriteBase(l: Layout, s: Sys, op: int, b: int, data: Block)
    requires RunningInv(l, s)
    requires op in s.ops && b in l.homes && |s.lh| < LOGSIZE && |s.lh| < l.size - 1
    ensures Base(l, ApplyWrite(s, op, b, data)) && CacheOk(l, ApplyWrite(s, op, b, data))
  {
    WritePins(s.lh, b);
    WriteList(l, s.lh, b);
    assert View(ApplyWrite(s, op, b, data), l.start) == View(s, l.start);
  }

  lemma WriteList(l: Layout, lh: seq<int>, b: int)
    requires ListOk(l, lh) && b in l.homes && |lh| < LOGSIZE && |lh| < l.size - 1
    ensures b !in lh ==> ListOk(l, lh + [b])
  {
  }

  lemma EndMode(l: Layout, s: Sys, op: int)
    requires RunningInv(l, s) && ModeOk(s) && op in s.ops
      && (|s.hist.updates| == s.hist.durable ==> s.hist.cur == s.hist.dur)
    ensures ModeOk(ApplyEnd(s, op))
  {
    assert s.hist.durable < |s.hist.updates| ==> s.hist.updates[s.hist.durable].b in s.lh;
  }

  lemma EndBase(l: Layout, s: Sys, op: int)
    requires Base(l, s) && s.pc == Running && op in s.ops
    ensures Base(l, ApplyEnd(s, op))
  {
    assert View(ApplyEnd(s, op), l.start) == View(s, l.start);
  }

  lemma EndAgrees(l: Layout, s: Sys, op: int)
    requires RunningInv(l, s) && op in s.ops && Base(l, ApplyEnd(s, op))
    ensures var s' := ApplyEnd(s, op); Agrees(l, s', s'.hist.cur) && Pending(s')
  {
    assert forall b :: b in s.disk ==> View(ApplyEnd(s, op), b) == View(s, b);
  }

  lemma EndRest(l: Layout, s: Sys, op: int)
    requires RunningInv(l, s) && op in s.ops && Base(l, ApplyEnd(s, op))
    ensures var s' := ApplyEnd(s, op);
      CacheOk(l, s') && HeaderOk(l, s') && Copied(l, s') && Durable(l, s'.disk, s'.hist.dur)
  {
  }

  lemma EndKeeps(l: Layout, s: Sys, op: int)
    requires SysInv(l, s) && Enabled(l, s, End(op))
    requires |s.hist.updates| == s.hist.durable ==> s.hist.cur == s.hist.dur
    ensures SysInv(l, ApplyEnd(s, op))
  {
    assert s.pc == Running;
    RunningIff(l, s);
    EndMode(l, s, op);
    EndBase(l, s, op);
    EndAgrees(l, s, op);
    EndRest(l, s, op);
  }

  // ---------------------------------------------------------------------
  // Buffers.

  lemma LoadKeeps(l: Layout, s: Sys, b: int)
    requires SysInv(l, s) && Enabled(l, s, Load(b))
    ensures SysInv(l, Apply(l, s, Load(b)))
  {
    LoadSeen(l, s, b);
    SameViewKeeps(l, s, s.(cache := s.cache[b := s.disk[b]]));
  }

  lemma LoadSeen(l: Layout, s: Sys, b: int)
    requires Base(l, s) && CacheOk(l, s) && b in s.disk && b !in s.cache
    ensures SameSeen(s, s.(cache := s.cache[b := s.disk[b]]))
  {
  }

  lemma EvictKeeps(l: Layout, s: Sys, b: int)
    requires SysInv(l, s) && Enabled(l, s, Evict(b))
    ensures SysInv(l, Apply(l, s, Evict(b)))
  {
    EvictSeen(l, s, b);
    SameViewKeeps(l, s, s.(cache := s.cache - {b}));
  }

  lemma EvictSeen(l: Layout, s: Sys, b: int)
    requires Base(l, s) && CacheOk(l, s) && b in s.cache && b !in s.pins
    ensures SameSeen(s, s.(cache := s.cache - {b}))
  {
  }

  // Filling or dropping a buffer that agrees with the disk shows nobody a different block.
  ghost predicate SameSeen(s: Sys, s': Sys) {
    && s' == s.(cache := s'.cache) && s'.cache.Keys <= s.disk.Keys
    && (forall b :: b in s'.cache && b !in s.pins ==> b in s.disk && s'.cache[b] == s.disk[b])
    && (forall b :: b in s.pins ==> b in s'.cache && b in s.cache && s'.cache[b] == s.cache[b])
  }

  lemma SameView(l: Layout, s: Sys, s': Sys, b: int)
    requires Base(l, s) && CacheOk(l, s) && SameSeen(s, s') && b in s.disk
    ensures View(s', b) == View(s, b)
  {
  }

  lemma SameViewBase(l: Layout, s: Sys, s': Sys)
    requires Base(l, s) && CacheOk(l, s) && SameSeen(s, s')
    ensures Base(l, s') && CacheOk(l, s')
  {
    SameView(l, s, s', l.start);
  }

  lemma SameViewKeeps(l: Layout, s: Sys, s': Sys)
    requires SysInv(l, s) && SameSeen(s, s')
    ensures SysInv(l, s')
  {
    SameViewBase(l, s, s');
    assert forall b :: b in s.disk ==> View(s', b) == View(s, b) by {
      forall b | b in s.disk ensures View(s', b) == View(s, b) { SameView(l, s, s', b); }
    }
    SameCopied(l, s, s');
    SameAgrees(l, s, s');
  }

  lemma SameCopied(l: Layout, s: Sys, s': Sys)
    requires Base(l, s) && Base(l, s') && HeaderOk(l, s) && Copied(l, s) && s' == s.(cache := s'.cache)
    requires forall b :: b in s.disk ==> View(s', b) == View(s, b)
    ensures HeaderOk(l, s') && Copied(l, s')
  {
    if s.pc.WriteLog? || s.pc.WriteHead? {
      forall i | 0 <= i < |s.lh|
        ensures View(s', s.lh[i]) == View(s, s.lh[i])
      {
        assert s.lh[i] in l.homes && s.lh[i] in s.disk;
      }
    }
  }

  lemma SameAgrees(l: Layout, s: Sys, s': Sys)
    requires Base(l, s) && Base(l, s') && s' == s.(cache := s'.cache)
    requires forall b :: b in s.disk ==> View(s', b) == View(s, b)
    ensures forall h :: Agrees(l, s, h) ==> Agrees(l, s', h)
  {
    forall b | b in l.homes ensures View(s', b) == View(s, b) { assert b in s.disk; }
  }

  lemma CrashKeeps(l: Layout, s: Sys)
    requires SysInv(l, s)
    ensures SysInv(l, Apply(l, s, Crash))
  {
    CrashInv(l, s);
  }

  lemma CrashInv(l: Layout, s: Sys)
    requires Base(l, s) && Durable(l, s.disk, s.hist.dur)
    requires HeadOk(s.disk[l.start]) && ListOk(l, Entries(s.disk[l.start]))
    ensures SysInv(l, Apply(l, s, Crash))
  {
  }

  // ---------------------------------------------------------------------
  // Block writes of commit.

  // A write through the buffer of an unpinned block changes nobody's view of any other block.
  lemma WriteBlockBase(l: Layout, s: Sys, b: int, data: Block, pc: Pc)
    requires Base(l, s) && CacheOk(l, s) && b in s.disk
    requires pc.WriteLog? || pc.Install? || pc.RInstall? ==> 0 <= pc.tail < |s.lh|
    requires b == l.start ==> |data.words| == WORDS
    ensures var s' := WriteBlock(s, b, data, pc);
      && Base(l, s')
      && forall c :: c in s.disk ==> View(s', c) == if c == b then data else View(s, c)
  {
  }

  // What a block write of commit or recovery makes of the cache.
  lemma WriteBlockClean(l: Layout, disk: Disk, cache: Disk, pins: multiset<int>, b: int, data: Block)
    requires Clean(l, disk, cache, pins)
    ensures Clean(l, disk[b := data], cache[b := data], pins)
  {
  }

  lemma WriteLogBase(l: Layout, s: Sys)
    requires SysInv(l, s) && s.pc.WriteLog?
    ensures var s' := ApplyStep(l, s);
      Base(l, s') && CacheOk(l, s')
        && forall c :: c in s.disk && c != LogAt(l, s.pc.tail) ==> View(s', c) == View(s, c) && s'.disk[c] == s.disk[c]
  {
    WriteBlockBase(l, s, LogAt(l, s.pc.tail), View(s, s.lh[s.pc.tail]), ApplyStep(l, s).pc);
    WriteBlockClean(l, s.disk, s.cache, s.pins, LogAt(l, s.pc.tail), View(s, s.lh[s.pc.tail]));
  }

  lemma WriteLogAgrees(l: Layout, s: Sys)
    requires SysInv(l, s) && s.pc.WriteLog? && Base(l, ApplyStep(l, s))
    requires forall c :: c in s.disk && c != LogAt(l, s.pc.tail) ==> View(ApplyStep(l, s), c) == View(s, c)
    ensures Agrees(l, ApplyStep(l, s), s.hist.cur)
  {
    forall b | b in l.homes
      ensures View(ApplyStep(l, s), b) == s.hist.cur[b]
    {
      assert b != LogAt(l, s.pc.tail) && b in s.disk;
    }
  }

  lemma WriteLogLogged(l: Layout, s: Sys)
    requires SysInv(l, s) && s.pc.WriteLog? && Base(l, ApplyStep(l, s))
    requires forall c :: c in s.disk && c != LogAt(l, s.pc.tail) ==> View(ApplyStep(l, s), c) == View(s, c)
    ensures Logged(l, ApplyStep(l, s), s.pc.tail + 1)
  {
    forall i | 0 <= i < s.pc.tail + 1 ensures ApplyStep(l, s).disk[LogAt(l, i)] == View(ApplyStep(l, s), s.lh[i]) {
      WriteLogEntry(l, s, i);
    }
  }

  lemma WriteLogEntry(l: Layout, s: Sys, i: int)
    requires Base(l, s) && s.pc.WriteLog? && Logged(l, s, s.pc.tail) && Base(l, ApplyStep(l, s)) && 0 <= i <= s.pc.tail
    requires forall c :: c in s.disk && c != LogAt(l, s.pc.tail) ==> View(ApplyStep(l, s), c) == View(s, c)
    ensures ApplyStep(l, s).disk[LogAt(l, i)] == View(ApplyStep(l, s), s.lh[i])
  {
    var b := s.lh[i];
    assert b in l.homes && b in s.disk && b != LogAt(l, s.pc.tail);
    assert View(ApplyStep(l, s), b) == View(s, b);
    if i < s.pc.tail { assert s.disk[LogAt(l, i)] == View(s, b); }
  }

  lemma WriteLogDurable(l: Layout, s: Sys)
    requires SysInv(l, s) && s.pc.WriteLog? && Base(l, ApplyStep(l, s))
    ensures Durable(l, ApplyStep(l, s).disk, s.hist.dur) && HeaderOk(l, ApplyStep(l, s))
  {
    var t, s' := s.pc.tail, ApplyStep(l, s);
    assert s'.disk[l.start] == s.disk[l.start];
    forall b | b in l.homes ensures s'.disk[b] == s.disk[b] { assert b != LogAt(l, t); }
  }

  lemma WriteLogKeeps(l: Layout, s: Sys)
    requires SysInv(l, s) && s.pc.WriteLog?
    ensures SysInv(l, ApplyStep(l, s))
  {
    WriteLogBase(l, s);
    WriteLogAgrees(l, s);
    WriteLogLogged(l, s);
    WriteLogDurable(l, s);
  }

  // The commit point.
  lemma WriteHeadBase(l: Layout, s: Sys)
    requires SysInv(l, s) && s.pc.WriteHead?
    ensures var s' := ApplyStep(l, s); Base(l, s') && Agrees(l, s', s'.hist.cur)
  {
    WriteBlockBase(l, s, l.start, WithHeader(View(s, l.start), s.lh), ApplyStep(l, s).pc);
  }

  lemma WriteHeadCache(l: Layout, s: Sys)
    requires SysInv(l, s) && s.pc.WriteHead?
    ensures CacheOk(l, ApplyStep(l, s))
  {
    assert s.lh[0..] == s.lh;
    WriteBlockClean(l, s.disk, s.cache, s.pins, l.start, WithHeader(View(s, l.start), s.lh));
  }

  lemma WriteHeadHeader(l: Layout, s: Sys)
    requires SysInv(l, s) && s.pc.WriteHead? && Base(l, ApplyStep(l, s))
    ensures HeaderOk(l, ApplyStep(l, s)) && Copied(l, ApplyStep(l, s))
  {
  }

  lemma WriteHeadKeeps(l: Layout, s: Sys)
    requires SysInv(l, s) && s.pc.WriteHead?
    ensures SysInv(l, ApplyStep(l, s))
  {
    WriteHeadBase(l, s);
    WriteHeadCache(l, s);
    WriteHeadHeader(l, s);
    CommitDurable(l, s, WithHeader(View(s, l.start), s.lh));
  }

  lemma CommitEntry(l: Layout, s: Sys, i: int)
    requires Base(l, s) && Logged(l, s, |s.lh|) && Agrees(l, s, s.hist.cur) && 0 <= i < |s.lh|
    ensures s.lh[i] in s.hist.cur && s.hist.cur[s.lh[i]] == s.disk[LogAt(l, i)] && LogAt(l, i) != l.start
  {
  }

  lemma CommitHome(l: Layout, s: Sys, b: int)
    requires Base(l, s) && CacheOk(l, s) && s.pc.WriteHead? && Agrees(l, s, s.hist.cur) && b in l.homes && b !in s.lh
    ensures s.hist.cur[b] == s.disk[b] && b != l.start
  {
    assert b !in multiset(s.lh);
    assert View(s, b) == s.disk[b];
  }

  // With every log block in place, the new header makes the disk stand for the current view.
  lemma CommitDurable(l: Layout, s: Sys, h: Block)
    requires Base(l, s) && CacheOk(l, s) && s.pc.WriteHead? && Logged(l, s, |s.lh|)
    requires Agrees(l, s, s.hist.cur) && Entries(h) == s.lh
    ensures Durable(l, s.disk[l.start := h], s.hist.cur)
  {
    var d := s.disk[l.start := h];
    assert forall i :: 0 <= i < |s.lh| ==> LogEntry(l, d, s.hist.cur, s.lh, i) by {
      forall i | 0 <= i < |s.lh| ensures LogEntry(l, d, s.hist.cur, s.lh, i) { CommitEntry(l, s, i); }
    }
    assert forall b :: b in l.homes && b !in s.lh ==> SameBlock(d, s.hist.cur, b) by {
      forall b | b in l.homes && b !in s.lh ensures SameBlock(d, s.hist.cur, b) { CommitHome(l, s, b); }
    }
    DurableFrom(l, d, s.hist.cur, s.lh);
  }

  ghost predicate LogEntry(l: Layout, d: Disk, h: Disk, lh: seq<int>, i: int)
    requires 0 <= i < |lh|
  {
    lh[i] in h && LogAt(l, i) in d && h[lh[i]] == d[LogAt(l, i)]
  }

  ghost predicate SameBlock(d: Disk, h: Disk, b: int) { b in d && b in h && h[b] == d[b] }

  lemma DurableFrom(l: Layout, d: Disk, h: Disk, lh: seq<int>)
    requires LayoutOk(l) && OnDisk(l, d) && l.homes <= h.Keys && Entries(d[l.start]) == lh && |lh| <= l.size - 1
    requires forall i :: 0 <= i < |lh| ==> LogEntry(l, d, h, lh, i)
    requires forall b :: b in l.homes && b !in lh ==> SameBlock(d, h, b)
    ensures Durable(l, d, h)
  {
    forall i | 0 <= i < |lh| ensures lh[i] in h && h[lh[i]] == d[LogAt(l, i)] { assert LogEntry(l, d, h, lh, i); }
    forall b | b in l.homes && b !in lh ensures h[b] == d[b] { assert SameBlock(d, h, b); }
  }

  lemma InstallSame(l: Layout, s: Sys)
    requires Base(l, s) && CacheOk(l, s) && s.pc.Install? && View(s, LogAt(l, s.pc.tail)) == View(s, s.lh[s.pc.tail])
    ensures var s' := ApplyStep(l, s); Base(l, s') && forall c :: c in s.disk ==> View(s', c) == View(s, c)
  {
    WriteBlockBase(l, s, s.lh[s.pc.tail], View(s, LogAt(l, s.pc.tail)), ApplyStep(l, s).pc);
  }

  lemma SeenAgrees(l: Layout, s: Sys, s': Sys, h: Disk)
    requires Base(l, s) && Base(l, s') && Agrees(l, s, h)
      && forall c :: c in s.disk ==> c in s'.disk && View(s', c) == View(s, c)
    ensures Agrees(l, s', h)
  {
    forall b | b in l.homes ensures View(s', b) == h[b] { assert b in s.disk; }
  }

  lemma InstallBase(l: Layout, s: Sys)
    requires SysInv(l, s) && s.pc.Install?
    ensures var s' := ApplyStep(l, s); Base(l, s') && Agrees(l, s', s'.hist.cur)
  {
    InstallView(l, s);
    InstallSame(l, s);
    SeenAgrees(l, s, ApplyStep(l, s), s.hist.cur);
  }

  lemma InstallCache(l: Layout, s: Sys)
    requires Base(l, s) && CacheOk(l, s) && s.pc.Install?
    ensures CacheOk(l, ApplyStep(l, s))
  {
    var t := s.pc.tail;
    InstallPins(l, s.lh, t);
    InstallClean(l, s.disk, s.cache, s.pins, s.lh[t], View(s, LogAt(l, t)), ApplyStep(l, s).pins);
  }

  lemma InstallHeader(l: Layout, s: Sys)
    requires SysInv(l, s) && (s.pc.Install? || s.pc.RInstall?) && Base(l, ApplyStep(l, s))
    ensures HeaderOk(l, ApplyStep(l, s)) && Durable(l, ApplyStep(l, s).disk, s.hist.dur)
  {
    var b := s.lh[s.pc.tail];
    assert b in l.homes && b != l.start && b in Entries(s.disk[l.start]);
    SameHeader(l, s, b);
    InstallDurable(l, s.disk, b, View(s, LogAt(l, s.pc.tail)), s.hist.dur);
  }

  lemma SameHeader(l: Layout, s: Sys, b: int)
    requires Base(l, s) && HeaderOk(l, s) && (s.pc.Install? || s.pc.RInstall?) && Base(l, ApplyStep(l, s))
      && b == s.lh[s.pc.tail] && b != l.start
    ensures HeaderOk(l, ApplyStep(l, s))
  {
    assert ApplyStep(l, s).disk[l.start] == s.disk[l.start];
  }

  // An unpinned block is seen as it is on the disk.
  lemma LogBlockView(l: Layout, s: Sys, i: int)
    requires Base(l, s) && CacheOk(l, s) && 0 <= i < |s.lh|
    ensures View(s, LogAt(l, i)) == s.disk[LogAt(l, i)]
  {
    assert LogAt(l, i) !in s.pins;
  }

  lemma InstallKeeps(l: Layout, s: Sys)
    requires SysInv(l, s) && s.pc.Install?
    ensures SysInv(l, ApplyStep(l, s))
  {
    var s' := ApplyStep(l, s);
    InstallBase(l, s);
    InstallCache(l, s);
    InstallHeader(l, s);
    LogBlockView(l, s, s.pc.tail);
    InstallCopied(l, s, View(s, LogAt(l, s.pc.tail)), s'.pc);
    assert Copied(l, s') by {
      SameInstalled(l, WriteBlock(s, s.lh[s.pc.tail], View(s, LogAt(l, s.pc.tail)), s'.pc), s', s.pc.tail + 1);
    }
  }

  lemma SameInstalled(l: Layout, s: Sys, s': Sys, k: int)
    requires Base(l, s) && Base(l, s') && s'.disk == s.disk && s'.lh == s.lh && k <= |s.lh| && Installed(l, s, k)
    ensures Installed(l, s', k)
  {
  }

  // The log block about to be installed is already what everybody sees.
  lemma InstallView(l: Layout, s: Sys)
    requires SysInv(l, s) && s.pc.Install?
    ensures View(s, LogAt(l, s.pc.tail)) == s.disk[LogAt(l, s.pc.tail)] == View(s, s.lh[s.pc.tail])
  {
    assert LogAt(l, s.pc.tail) !in s.pins;
    var e := Entries(s.disk[l.start]);
    assert e[s.pc.tail] in s.hist.dur;
  }

  // A listed home block is not what the disk relies on.
  lemma InstallDurable(l: Layout, d: Disk, b: int, data: Block, h: Disk)
    requires LayoutOk(l) && OnDisk(l, d) && Durable(l, d, h) && b in l.homes && b in Entries(d[l.start])
    ensures OnDisk(l, d[b := data]) && Durable(l, d[b := data], h)
  {
  }

  lemma InstallCopied(l: Layout, s: Sys, data: Block, pc: Pc)
    requires Base(l, s) && (s.pc.Install? || s.pc.RInstall?) && Installed(l, s, s.pc.tail)
    requires data == s.disk[LogAt(l, s.pc.tail)] && Base(l, WriteBlock(s, s.lh[s.pc.tail], data, pc))
    ensures Installed(l, WriteBlock(s, s.lh[s.pc.tail], data, pc), s.pc.tail + 1)
  {
  }

  lemma InstallClean(l: Layout, disk: Disk, cache: Disk, pins: multiset<int>, b: int, data: Block, pins': multiset<int>)
    requires Clean(l, disk, cache, pins) && pins' == pins - multiset{b} && b !in pins'
    ensures Clean(l, disk[b := data], cache[b := data], pins')
  {
  }

  lemma InstallPins(l: Layout, lh: seq<int>, t: int)
    requires ListOk(l, lh) && 0 <= t < |lh|
    ensures multiset(lh[t..]) - multiset{lh[t]} == multiset(lh[t + 1..])
    ensures lh[t] !in multiset(lh[t + 1..])
    ensures t + 1 == |lh| ==> multiset(lh[t + 1..]) == multiset{}
  {
    assert lh[t..] == [lh[t]] + lh[t + 1..];
  }

  lemma ClearHeadKeeps(l: Layout, s: Sys)
    requires SysInv(l, s) && s.pc.ClearHead?
    ensures SysInv(l, ApplyStep(l, s))
  {
    var s' := ApplyStep(l, s);
    WriteBlockBase(l, s, l.start, WithHeader(View(s, l.start), []), s'.pc);
    ErasedDurable(l, s, s'.disk);
  }

  // Once every listed block is installed, the header may go.
  lemma ErasedDurable(l: Layout, s: Sys, d: Disk)
    requires Base(l, s) && Installed(l, s, |s.lh|) && Durable(l, s.disk, s.hist.dur)
    requires Entries(s.disk[l.start]) == s.lh
    requires OnDisk(l, d) && Entries(d[l.start]) == []
    requires forall b :: b in l.homes ==> d[b] == s.disk[b]
    ensures Durable(l, d, s.hist.dur)
  {
    forall b | b in l.homes ensures s.hist.dur[b] == d[b] {
      if b in s.lh {
        var i :| 0 <= i < |s.lh| && s.lh[i] == b;
        assert s.disk[s.lh[i]] == s.disk[LogAt(l, i)];
      }
    }
  }

  lemma FinishKeeps(l: Layout, s: Sys)
    requires SysInv(l, s) && s.pc.Finish?
    ensures SysInv(l, ApplyStep(l, s))
  {
    RunningIff(l, ApplyStep(l, s));
  }

  // ---------------------------------------------------------------------
  // Block writes of recovery.

  lemma BootBase(l: Layout, s: Sys)
    requires SysInv(l, s) && s.pc.Boot?
    ensures View(s, l.start) == s.disk[l.start] && Base(l, ApplyStep(l, s))
  {
  }

  lemma BootKeeps(l: Layout, s: Sys)
    requires SysInv(l, s) && s.pc.Boot?
    ensures SysInv(l, ApplyStep(l, s))
  {
    BootBase(l, s);
  }

  lemma RInstallBase(l: Layout, s: Sys)
    requires SysInv(l, s) && s.pc.RInstall?
    ensures Base(l, ApplyStep(l, s)) && CacheOk(l, ApplyStep(l, s))
  {
    var t := s.pc.tail;
    WriteBlockBase(l, s, s.lh[t], View(s, LogAt(l, t)), ApplyStep(l, s).pc);
    InstallClean(l, s.disk, s.cache, s.pins, s.lh[t], View(s, LogAt(l, t)), s.pins);
  }

  lemma RInstallKeeps(l: Layout, s: Sys)
    requires SysInv(l, s) && s.pc.RInstall?
    ensures SysInv(l, ApplyStep(l, s))
  {
    RInstallBase(l, s);
    InstallHeader(l, s);
    LogBlockView(l, s, s.pc.tail);
    InstallCopied(l, s, View(s, LogAt(l, s.pc.tail)), ApplyStep(l, s).pc);
  }

  lemma RClearKeeps(l: Layout, s: Sys)
    requires SysInv(l, s) && s.pc.RClear?
    ensures SysInv(l, ApplyStep(l, s))
  {
    var s' := ApplyStep(l, s);
    WriteBlockBase(l, s, l.start, WithHeader(View(s, l.start), []), s'.pc);
    ErasedDurable(l, s, s'.disk);
    forall b | b in l.homes ensures View(s', b) == s'.hist.cur[b] {
      assert View(s, b) == s.disk[b];
    }
  }
}
