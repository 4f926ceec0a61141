/**
 The redo log as a state machine.

 One action is one lock-protected section (begin_op, log_write, end_op) or one
 block write of the committing or recovering thread.  A crash may happen
 between any two actions; it loses everything but the disk.
 */
module LogMachine {
  import opened Params

  // 32-bit words in a block of BSIZE = 1024 bytes
  const WORDS: int := 256

  datatype Block = Block(words: seq<int>)
  type Disk = map<int, Block>

  // The log occupies blocks start .. start+size-1: the header, then the log blocks. initlog
  // takes size from the superblock as it is.
  datatype Layout = Layout(start: int, size: int, homes: set<int>)

  ghost predicate LayoutOk(l: Layout) {
    && l.size >= 1
    && forall b :: b in l.homes ==> b < l.start || b >= l.start + l.size
  }

  // the block that holds log entry i
  function LogAt(l: Layout, i: int): (b: int) {
    l.start + 1 + i
  }

  ghost predicate OnDisk(l: Layout, d: Disk) {
    && (forall b :: l.start <= b < l.start + l.size ==> b in d)
    && l.homes <= d.Keys
  }

  // ---------------------------------------------------------------------
  // The header block: word 0 is the count, words 1.. are home block numbers.

  predicate HeadOk(h: Block) {
    |h.words| == WORDS && 0 <= h.words[0] <= LOGSIZE
  }

  function Entries(h: Block): (bs: seq<int>)
  {
    if HeadOk(h) then h.words[1..1 + h.words[0]] else []
  }

  function WithHeader(h: Block, bs: seq<int>): (h': Block)
    requires |bs| <= LOGSIZE && |h.words| == WORDS
    ensures HeadOk(h') && Entries(h') == bs
  {
    Block([|bs|] + bs + h.words[1 + |bs|..])
  }

  ghost predicate Distinct(bs: seq<int>) {
    forall i, j :: 0 <= i < j < |bs| ==> bs[i] != bs[j]
  }

  ghost predicate ListOk(l: Layout, bs: seq<int>) {
    && |bs| <= LOGSIZE && |bs| <= l.size - 1
    && Distinct(bs)
    && (forall i :: 0 <= i < |bs| ==> bs[i] in l.homes)
  }

  // ---------------------------------------------------------------------
  // The machine.

  datatype Pc =
    | Running
    // commit()
    | WriteLog(tail: int) | WriteHead | Install(tail: int) | ClearHead | Finish
    // recover_from_log()
    | Boot | RInstall(tail: int) | RClear

  // One log_write, with the content the block then has.
  datatype Update = Update(op: int, b: int, data: Block)

  // The abstract file system beside the machine.
  datatype History = History(
    nextOp: int,
    updates: seq<Update>,   // every update since the first boot, less those lost in crashes
    durable: int,           // how many of them have committed
    cur: Disk,              // home blocks with all updates applied
    dur: Disk)              // home blocks with the durable updates applied

  datatype Sys = Sys(
    disk: Disk,
    cache: Disk,            // buffers in memory
    pins: multiset<int>,    // bpin minus bunpin, per block
    lh: seq<int>,           // log.lh.block[0..log.lh.n)
    ops: map<int, int>,     // running operations; entries each has added to lh
    committing: bool,
    pc: Pc,
    hist: History)

  datatype Action =
    | Begin
    | Write(op: int, b: int, data: Block)
    | End(op: int)
    | Step                  // next block write of commit or recovery
    | Load(b: int)
    | Evict(b: int)
    | Crash

  function View(s: Sys, b: int): (r: Block)
    requires b in s.cache || b in s.disk
  {
    if b in s.cache then s.cache[b] else s.disk[b]
  }

  predicate BeginWaits(s: Sys) {
    s.committing || |s.lh| + (|s.ops| + 1) * MAXOPBLOCKS > LOGSIZE
  }

  predicate LogWritePanics(l: Layout, s: Sys) {
    |s.lh| >= LOGSIZE || |s.lh| >= l.size - 1 || |s.ops| < 1
  }

  ghost predicate Enabled(l: Layout, s: Sys, a: Action) {
    match a
    case Begin => s.pc == Running && !BeginWaits(s)
    case Write(op, b, _) => op in s.ops && b in l.homes && !LogWritePanics(l, s)
    case End(op) => op in s.ops
    case Step => s.pc != Running
    case Load(b) => b in s.disk && b !in s.cache
    case Evict(b) => b in s.cache && b !in s.pins
    case Crash => true
  }

  // What each action needs in order to be well defined.
  ghost predicate Base(l: Layout, s: Sys) {
    && LayoutOk(l)
    && OnDisk(l, s.disk)
    && s.cache.Keys <= s.disk.Keys
    && ListOk(l, s.lh)
    && 0 <= s.hist.durable <= |s.hist.updates|
    && |View(s, l.start).words| == WORDS
    && (s.pc.WriteLog? || s.pc.Install? || s.pc.RInstall? ==> 0 <= s.pc.tail < |s.lh|)
  }

  ghost function Apply(l: Layout, s: Sys, a: Action): (s': Sys)
    requires Base(l, s) && Enabled(l, s, a)
  {
    match a
    case Begin => s.(ops := s.ops[s.hist.nextOp := 0], hist := s.hist.(nextOp := s.hist.nextOp + 1))
    case Write(op, b, data) => ApplyWrite(s, op, b, data)
    case End(op) => ApplyEnd(s, op)
    case Step => ApplyStep(l, s)
    case Load(b) => s.(cache := s.cache[b := s.disk[b]])
    case Evict(b) => s.(cache := s.cache - {b})
    case Crash => Sys(s.disk, map[], multiset{}, [], map[], false, Boot, Lost(s.hist))
  }

  // bread, modify, log_write, brelse, all under the buffer's lock
  ghost function ApplyWrite(s: Sys, op: int, b: int, data: Block): (s': Sys)
    requires op in s.ops
  {
    var t := s.(cache := s.cache[b := data], hist := Updated(s.hist, Update(op, b, data)));
    if b in s.lh then t
    else t.(lh := s.lh + [b], pins := s.pins + multiset{b}, ops := s.ops[op := s.ops[op] + 1])
  }

  ghost function ApplyEnd(s: Sys, op: int): (s': Sys) {
    var ops := s.ops - {op};
    if ops == map[] then
      s.(ops := ops, committing := true, pc := if |s.lh| > 0 then WriteLog(0) else Finish)
    else s.(ops := ops)
  }

  // bwrite: the buffer and the disk block get the same content
  ghost function WriteBlock(s: Sys, b: int, data: Block, pc: Pc): (s': Sys) {
    s.(cache := s.cache[b := data], disk := s.disk[b := data], pc := pc)
  }

  ghost function ApplyStep(l: Layout, s: Sys): (s': Sys)
    requires Base(l, s) && s.pc != Running
  {
    match s.pc
    case WriteLog(t) =>
      WriteBlock(s, LogAt(l, t), View(s, s.lh[t]), if t + 1 == |s.lh| then WriteHead else WriteLog(t + 1))
    case WriteHead =>
      WriteBlock(s, l.start, WithHeader(View(s, l.start), s.lh), Install(0)).(hist := Committed(s.hist))
    case Install(t) =>
      WriteBlock(s, s.lh[t], View(s, LogAt(l, t)), if t + 1 == |s.lh| then ClearHead else Install(t + 1))
        .(pins := s.pins - multiset{s.lh[t]})
    case ClearHead =>
      WriteBlock(s, l.start, WithHeader(View(s, l.start), []), Finish).(lh := [])
    case Finish => s.(committing := false, pc := Running)
    case Boot =>
      var bs := Entries(View(s, l.start));
      s.(lh := bs, pc := if |bs| == 0 then RClear else RInstall(0))
    case RInstall(t) =>
      WriteBlock(s, s.lh[t], View(s, LogAt(l, t)), if t + 1 == |s.lh| then RClear else RInstall(t + 1))
    case RClear =>
      WriteBlock(s, l.start, WithHeader(View(s, l.start), []), Running).(lh := [])
  }

  // ---------------------------------------------------------------------
  // History: what happened, as a file system without a log would see it.

  function Updated(h: History, u: Update): (h': History) {
    h.(updates := h.updates + [u], cur := h.cur[u.b := u.data])
  }

  function Committed(h: History): (h': History) {
    h.(durable := |h.updates|, dur := h.cur)
  }

  function Lost(h: History): (h': History)
    requires 0 <= h.durable <= |h.updates|
  {
    h.(updates := h.updates[..h.durable], cur := h.dur)
  }

  ghost function Replay(init: Disk, us: seq<Update>): (h: Disk)
  {
    if us == [] then init
    else Replay(init, us[..|us| - 1])[us[|us| - 1].b := us[|us| - 1].data]
  }

  ghost predicate HistOk(l: Layout, init: Disk, h: History, ops: map<int, int>) {
    && 0 <= h.durable <= |h.updates|
    && h.cur == Replay(init, h.updates)
    && h.dur == Replay(init, h.updates[..h.durable])
    && h.cur.Keys == h.dur.Keys == init.Keys == l.homes
    && WholeOps(h, ops)
  }

  // The durable prefix of the history splits no operation.
  ghost predicate WholeOps(h: History, ops: map<int, int>)
  {
    && (forall op :: op in ops ==> op < h.nextOp)
    && (forall i :: 0 <= i < |h.updates| ==> h.updates[i].op < h.nextOp)
    && (forall i :: 0 <= i < h.durable <= |h.updates| ==> h.updates[i].op !in ops)
    && (forall i, j :: 0 <= i < h.durable <= j < |h.updates| ==> h.updates[i].op != h.updates[j].op)
  }

  // ---------------------------------------------------------------------
  // The invariant.

  ghost predicate Inv(l: Layout, init: Disk, s: Sys) {
    SysInv(l, s) && HistOk(l, init, s.hist, s.ops)
  }

  ghost predicate SysInv(l: Layout, s: Sys) {
    && Base(l, s)
    && CacheOk(l, s)
    && ModeOk(s)
    && HeaderOk(l, s)
    && Copied(l, s)
    && Durable(l, s.disk, s.hist.dur)
    && (!Recovering(s.pc) ==> Agrees(l, s, s.hist.cur))
    && Pending(s)
  }

  predicate Recovering(pc: Pc) { pc.Boot? || pc.RInstall? || pc.RClear? }

  predicate Committing(pc: Pc) { pc.WriteLog? || pc.WriteHead? || pc.Install? || pc.ClearHead? || pc.Finish? }

  // The home blocks that the disk stands for: a block listed in the header is
  // represented by its log block, any other by itself.
  ghost predicate Durable(l: Layout, d: Disk, h: Disk)
    requires LayoutOk(l) && OnDisk(l, d)
  {
    && l.homes <= h.Keys && |Entries(d[l.start])| <= l.size - 1
    && (forall i :: 0 <= i < |Entries(d[l.start])| ==>
          Entries(d[l.start])[i] in h && h[Entries(d[l.start])[i]] == d[LogAt(l, i)])
    && (forall b :: b in l.homes && b !in Entries(d[l.start]) ==> h[b] == d[b])
  }

  // What every process sees through the buffer cache.
  ghost predicate Agrees(l: Layout, s: Sys, h: Disk)
    requires Base(l, s)
  {
    l.homes <= h.Keys && forall b :: b in l.homes ==> View(s, b) == h[b]
  }

  ghost predicate CacheOk(l: Layout, s: Sys)
  {
    && Clean(l, s.disk, s.cache, s.pins)
    && PinsOk(s.pc, s.lh, s.pins)
  }

  // Every unpinned buffer agrees with the disk, so losing it loses nothing.
  ghost predicate Clean(l: Layout, disk: Disk, cache: Disk, pins: multiset<int>) {
    && (forall b :: b in cache && b !in pins ==> b in disk && cache[b] == disk[b])
    && (forall b :: b in pins ==> b in cache && b in l.homes)
  }

  // A block is pinned once for each log entry that still awaits installation.
  ghost predicate PinsOk(pc: Pc, lh: seq<int>, pins: multiset<int>) {
    match pc
    case Install(t) => 0 <= t <= |lh| && pins == multiset(lh[t..])
    case ClearHead => pins == multiset{}
    case Boot => pins == multiset{}
    case RInstall(_) => pins == multiset{}
    case RClear => pins == multiset{}
    case _ => pins == multiset(lh)
  }

  ghost predicate ModeOk(s: Sys) {
    && (s.committing <==> Committing(s.pc))
    && (s.pc != Running ==> s.ops == map[])
    && (s.pc.Boot? || s.pc.Finish? ==> s.lh == [])
    && (s.pc.WriteHead? || s.pc.ClearHead? ==> s.lh != [])
    && (Recovering(s.pc) || s.pc.Install? || s.pc.ClearHead? || s.pc.Finish? ==>
          s.hist.durable == |s.hist.updates| && s.hist.cur == s.hist.dur)
  }

  // The header on disk is empty except between the commit point and the erasure.
  ghost predicate HeaderOk(l: Layout, s: Sys)
    requires Base(l, s)
  {
    && HeadOk(s.disk[l.start])
    && ListOk(l, Entries(s.disk[l.start]))
    && match s.pc
       case Boot => true
       case Install(_) => Entries(s.disk[l.start]) == s.lh
       case ClearHead => Entries(s.disk[l.start]) == s.lh
       case RInstall(_) => Entries(s.disk[l.start]) == s.lh
       case RClear => Entries(s.disk[l.start]) == s.lh
       case _ => Entries(s.disk[l.start]) == []
  }

  // How far the copying of the current phase has come.
  ghost predicate Copied(l: Layout, s: Sys)
    requires Base(l, s)
  {
    match s.pc
    case WriteLog(t) => Logged(l, s, t)
    case WriteHead => Logged(l, s, |s.lh|)
    case Install(t) => Installed(l, s, t)
    case ClearHead => Installed(l, s, |s.lh|)
    case RInstall(t) => Installed(l, s, t)
    case RClear => Installed(l, s, |s.lh|)
    case _ => true
  }

  // log block i holds the current content of its home block
  ghost predicate Logged(l: Layout, s: Sys, k: int)
    requires Base(l, s) && k <= |s.lh|
  {
    forall i :: 0 <= i < k ==> s.disk[LogAt(l, i)] == View(s, s.lh[i])
  }

  // home block i holds the content of log block i
  ghost predicate Installed(l: Layout, s: Sys, k: int)
    requires Base(l, s) && k <= |s.lh|
  {
    forall i :: 0 <= i < k ==> s.disk[s.lh[i]] == s.disk[LogAt(l, i)]
  }

  // Every update that is not yet durable is in the log in memory.
  ghost predicate Pending(s: Sys) {
    forall i :: 0 <= s.hist.durable <= i < |s.hist.updates| ==> s.hist.updates[i].b in s.lh
  }

  ghost predicate Initial(l: Layout, init: Disk, s: Sys) {
    && Base(l, s)
    && s.pc == Boot && s.cache == map[] && s.pins == multiset{} && s.lh == [] && s.ops == map[]
    && !s.committing && s.hist == History(0, [], 0, init, init)
    && init.Keys == l.homes
    && HeadOk(s.disk[l.start]) && ListOk(l, Entries(s.disk[l.start]))
    && Durable(l, s.disk, init)
  }
}
