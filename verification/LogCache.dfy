/** The log of kernel/log.c over the buffer cache of kernel/bio.c.

    Both machines run together.  Processes bread and brelse buffers, operations
    change a locked buffer and log_write it, and the committer copies between
    locked buffers and writes them.  What the log machine takes for granted, that
    the cache hands out the latest contents of every block, is proved here, and so
    is what the cache asks of its clients: the log pins exactly the blocks whose
    latest contents are not on disk. */
module LogCache {
  import opened Params
  import opened Blocks
  import L = LogMachine
  import C = Bcache

  /** ROOTDEV. */
  const DEV := 1

  function At(b: int): C.Id {
    C.Id(DEV, b)
  }

  /** Who has changed a buffer that is neither logged nor written yet. */
  datatype Owner = ByOp(op: L.OpId) | ByCommit

  /** `due`: install_trans has written a block home and has yet to unpin it. */
  datatype State = State(log: L.State, cache: C.Cache, dirty: map<int, Owner>, due: bool)

  datatype Action =
    | Use(a: C.Action)                              // bread and brelse, by anybody
    | Begin(op: L.OpId)
    | Modify(op: L.OpId, k: int, data: Block)       // an operation changes a buffer
    | LogWrite(op: L.OpId, k: int)
    | End(op: L.OpId)
    | CopyToLog(k: int, from: int)                  // write_log: memmove, then bwrite
    | WriteLog(k: int)
    | SetHeader(k: int)                             // write_head: fill in, then bwrite
    | WriteHeader(k: int)
    | CopyHome(k: int, from: int)                   // install_trans: memmove, then bwrite
    | WriteHome(k: int)
    | Unpin(k: int)
    | ClearHeader(k: int)
    | FinishCommit
    | Crash(c: C.Cache)                             // with the cache of the next boot
    | ReadHeader(k: int)

  predicate IsBlock(g: L.Geometry, b: int) {
    0 <= b < g.size
  }

  /** Buffer k is locked, filled and holds block b. */
  predicate Has(s: State, k: int, b: int)
    requires C.Shaped(s.cache)
  {
    C.Holds(s.cache, k) && s.cache.bs[k].valid && s.cache.bs[k].id == At(b)
  }

  function BlockOf(s: State, k: int): int
    requires C.Shaped(s.cache) && C.IsBuf(k)
  {
    s.cache.bs[k].id.blockno
  }

  function Data(s: State, k: int): Block
    requires C.Shaped(s.cache) && C.IsBuf(k)
  {
    s.cache.bs[k].data
  }

  /** Entries of the header being written: all to commit, none to erase. */
  function Entries(log: L.State): seq<int> {
    if log.phase.WritingLog? then log.lh else []
  }

  /** What the code tests, and what operations keep to: they change buffers they
      have locked, log_write what they changed before they release it, and
      release before end_op. */
  ghost predicate Enabled(g: L.Geometry, s: State, a: Action) {
    C.Shaped(s.cache) &&
    match a
    case Use(a) =>
      if a.Unlock? then C.Holds(s.cache, a.b) && a.b !in s.dirty
      else (a.Reuse? || a.Recycle? || a.Lock? || a.Fill? || a.Drop?) && C.Enabled(s.cache, a)
    case Begin(op) => L.Enabled(g, s.log, L.Begin(op))
    case Modify(op, k, _) => op in s.log.ops && C.IsBuf(k) && OwnHome(g, s, op, k)
    case LogWrite(op, k) =>
      C.IsBuf(k) && OwnHome(g, s, op, k) && 0 <= BlockOf(s, k) && L.Enabled(g, s.log, L.LogWrite(op, BlockOf(s, k), Data(s, k)))
    case End(op) => L.Enabled(g, s.log, L.End(op)) && forall k | k in s.dirty :: s.dirty[k] != ByOp(op)
    case CopyToLog(k, from) =>
      && s.log.phase.WritingLog? && s.log.phase.tail < |s.log.lh| && s.dirty == map[]
      && Has(s, k, g.start + 1 + s.log.phase.tail) && Has(s, from, s.log.lh[s.log.phase.tail])
    case WriteLog(k) =>
      L.Enabled(g, s.log, L.WriteLogBlock) && ToBeWritten(s, k, g.start + 1 + s.log.phase.tail)
    case SetHeader(k) =>
      && (s.log.phase == L.WritingLog(|s.log.lh|) || (s.log.phase.Installing? && s.log.phase.tail == |s.log.lh| && !s.due))
      && s.dirty == map[] && |s.log.lh| <= LOGBLOCKS && Has(s, k, g.start)
    case WriteHeader(k) => L.Enabled(g, s.log, L.WriteHeader) && ToBeWritten(s, k, g.start)
    case CopyHome(k, from) =>
      && s.log.phase.Installing? && s.log.phase.tail < |s.log.lh| && !s.due && s.dirty == map[]
      && Has(s, k, s.log.lh[s.log.phase.tail]) && Has(s, from, g.start + 1 + s.log.phase.tail)
    case WriteHome(k) => L.Enabled(g, s.log, L.InstallBlock) && ToBeWritten(s, k, s.log.lh[s.log.phase.tail])
    case Unpin(k) =>
      && s.due && s.log.phase.Installing? && 0 < s.log.phase.tail <= |s.log.lh|
      && C.IsBuf(k) && s.cache.bs[k].id == At(s.log.lh[s.log.phase.tail - 1])
    case ClearHeader(k) => L.Enabled(g, s.log, L.ClearHeader) && ToBeWritten(s, k, g.start)
    case FinishCommit => L.Enabled(g, s.log, L.FinishCommit)
    case Crash(c) => L.Enabled(g, s.log, L.Crash) && C.Init(c) && c.disk == s.cache.disk
    case ReadHeader(k) => L.Enabled(g, s.log, L.ReadHeader) && s.dirty == map[] && Has(s, k, g.start)
  }

  /** Operation op may change and log buffer k. */
  predicate OwnHome(g: L.Geometry, s: State, op: L.OpId, k: int)
    requires C.Shaped(s.cache) && C.IsBuf(k)
  {
    Has(s, k, BlockOf(s, k)) && g.Home(BlockOf(s, k)) && (k in s.dirty ==> s.dirty[k] == ByOp(op))
  }

  predicate ToBeWritten(s: State, k: int, b: int)
    requires C.Shaped(s.cache)
  {
    k in s.dirty && s.dirty[k] == ByCommit && Has(s, k, b)
  }

  datatype Option<T> = None | Some(value: T)

  /** The log machine's part of a step. */
  ghost function LogStep(g: L.Geometry, s: State, a: Action): Option<L.Action>
    requires Enabled(g, s, a)
  {
    match a
    case Begin(op) => Some(L.Begin(op))
    case LogWrite(op, k) => Some(L.LogWrite(op, BlockOf(s, k), Data(s, k)))
    case End(op) => Some(L.End(op))
    case WriteLog(_) => Some(L.WriteLogBlock)
    case WriteHeader(_) => Some(L.WriteHeader)
    case WriteHome(_) => Some(L.InstallBlock)
    case ClearHeader(_) => Some(L.ClearHeader)
    case FinishCommit => Some(L.FinishCommit)
    case Crash(_) => Some(L.Crash)
    case ReadHeader(_) => Some(L.ReadHeader)
    case _ => None
  }

  /** The cache's part of a step.  log_write pins a block it appends. */
  ghost function CacheStep(g: L.Geometry, s: State, a: Action): Option<C.Action>
    requires Enabled(g, s, a)
  {
    match a
    case Use(a) => Some(a)
    case Modify(_, k, data) => Some(C.Store(k, data))
    case LogWrite(_, k) => if BlockOf(s, k) in s.log.lh then None else Some(C.Pin(k))
    case CopyToLog(k, from) => Some(C.Store(k, Data(s, from)))
    case WriteLog(k) => Some(C.Write(k))
    case SetHeader(k) => Some(C.Store(k, L.PutHead(Data(s, k), Entries(s.log))))
    case WriteHeader(k) => Some(C.Write(k))
    case CopyHome(k, from) => Some(C.Store(k, Data(s, from)))
    case WriteHome(k) => Some(C.Write(k))
    case Unpin(k) => Some(C.Unpin(k))
    case ClearHeader(k) => Some(C.Write(k))
    case _ => None
  }

  ghost predicate Allowed(g: L.Geometry, s: State, a: Action)
    requires Enabled(g, s, a)
  {
    CacheStep(g, s, a).Some? ==> C.Enabled(s.cache, CacheStep(g, s, a).value)
  }

  ghost function NextCache(g: L.Geometry, s: State, a: Action): C.Cache
    requires Enabled(g, s, a)
  {
    if a.Crash? then a.c
    else if CacheStep(g, s, a).Some? && Allowed(g, s, a) then C.Do(s.cache, CacheStep(g, s, a).value)
    else s.cache
  }

  ghost function NextDirty(s: State, a: Action): map<int, Owner> {
    match a
    case Modify(op, k, _) => s.dirty[k := ByOp(op)]
    case CopyToLog(k, _) => s.dirty[k := ByCommit]
    case SetHeader(k) => s.dirty[k := ByCommit]
    case CopyHome(k, _) => s.dirty[k := ByCommit]
    case LogWrite(_, k) => s.dirty - {k}
    case WriteLog(k) => s.dirty - {k}
    case WriteHeader(k) => s.dirty - {k}
    case WriteHome(k) => s.dirty - {k}
    case ClearHeader(k) => s.dirty - {k}
    case Crash(_) => map[]
    case _ => s.dirty
  }

  ghost function Do(g: L.Geometry, s: State, a: Action): State
    requires Enabled(g, s, a)
  {
    State(if LogStep(g, s, a).Some? then L.Do(g, s.log, LogStep(g, s, a).value) else s.log,
          NextCache(g, s, a),
          NextDirty(s, a),
          if a.WriteHome? then !s.log.phase.recovering else s.due && !a.Unpin? && !a.Crash?)
  }

  // ---- The invariant ----

  /** The blocks the log keeps pinned: logged and not yet installed. */
  function Pending(log: L.State, due: bool): seq<int>
    requires log.phase.Installing? ==> log.phase.tail <= |log.lh| && (due ==> log.phase.tail > 0)
  {
    if !log.phase.Installing? then log.lh
    else if log.phase.recovering then []
    else log.lh[if due then log.phase.tail - 1 else log.phase.tail..]
  }

  /** The phases fit together. */
  predicate Phases(s: State) {
    && (s.log.phase.Installing? ==> s.log.phase.tail <= |s.log.lh|)
    && (s.due ==> s.log.phase.Installing? && s.log.phase.tail > 0 && !s.log.phase.recovering)
    && (s.log.phase.Installing? && s.log.phase.recovering ==> s.log.view == s.log.disk)
  }

  /** One disk under both machines. */
  ghost predicate Disks(g: L.Geometry, s: State) {
    && |s.log.disk| == |s.log.view| == g.size
    && (forall id :: id in s.cache.disk <==> id.dev == DEV && IsBlock(g, id.blockno))
    && (forall b | IsBlock(g, b) :: s.cache.disk[At(b)] == s.log.disk[b])
  }

  ghost predicate Touched(s: State, b: int)
    requires C.Shaped(s.cache)
  {
    exists k :: k in s.dirty && C.IsBuf(k) && s.cache.bs[k].id == At(b)
  }

  /** The cache's latest contents are the log machine's, but for what is being changed. */
  ghost predicate Views(g: L.Geometry, s: State)
    requires C.Shaped(s.cache)
  {
    && |s.log.view| == g.size && s.cache.view.Keys == s.cache.disk.Keys
    && (forall b | IsBlock(g, b) && At(b) in s.cache.view && !Touched(s, b) :: s.cache.view[At(b)] == s.log.view[b])
  }

  /** What the committer is about to write to block b. */
  predicate ToWrite(g: L.Geometry, log: L.State, due: bool, b: int, data: Block)
    requires |log.view| == g.size && g.Valid() && L.DistinctHomes(g, log.lh)
  {
    match log.phase
    case WritingLog(t) =>
      if t < |log.lh| then b == g.start + 1 + t && g.Home(log.lh[t]) && data == log.view[log.lh[t]]
      else b == g.start && data == L.PutHead(log.view[g.start], log.lh)
    case Installing(t, _) =>
      if t < |log.lh| then !due && b == log.lh[t] && data == log.view[g.start + 1 + t]
      else !due && b == g.start && data == L.PutHead(log.view[g.start], [])
    case _ => false
  }

  predicate DirtyOK(g: L.Geometry, s: State, k: int)
    requires C.Shaped(s.cache) && k in s.dirty && |s.log.view| == g.size && g.Valid() && L.DistinctHomes(g, s.log.lh)
  {
    && C.IsBuf(k) && Has(s, k, BlockOf(s, k)) && IsBlock(g, BlockOf(s, k))
    && match s.dirty[k]
       case ByOp(op) => op in s.log.ops && g.Home(BlockOf(s, k))
       case ByCommit => s.dirty == map[k := ByCommit] && ToWrite(g, s.log, s.due, BlockOf(s, k), Data(s, k))
  }

  /** A buffer has one pin if its block is pending, else none. */
  predicate PinOK(s: State, k: int)
    requires C.Shaped(s.cache) && C.IsBuf(k) && Phases(s)
  {
    s.cache.pins[k] == if s.cache.bs[k].id.dev == DEV && s.cache.bs[k].id.blockno in Pending(s.log, s.due) then 1 else 0
  }

  ghost predicate Pinned(s: State, b: int)
    requires C.Shaped(s.cache)
  {
    exists k :: C.IsBuf(k) && s.cache.bs[k].id == At(b)
  }

  ghost predicate Pins(s: State)
    requires C.Shaped(s.cache) && Phases(s)
  {
    && (forall k | C.IsBuf(k) :: PinOK(s, k))
    && (forall b | b in Pending(s.log, s.due) :: Pinned(s, b))
  }

  ghost predicate Inv(g: L.Geometry, base: L.Disk, s: State) {
    && L.Inv(g, base, s.log) && C.Inv(s.cache)
    && Phases(s) && Disks(g, s) && Views(g, s) && Pins(s)
    && (forall k | k in s.dirty :: DirtyOK(g, s, k))
  }

  // ---- What the cache asks of the log ----

  lemma LogFacts(g: L.Geometry, base: L.Disk, log: L.State)
    requires L.Inv(g, base, log)
    ensures L.Shape(g, log) && L.OnDisk(g, log)
  {
  }

  lemma CacheFacts(c: C.Cache, k: int)
    requires C.Inv(c) && C.IsBuf(k)
    ensures C.Shaped(c) && C.Good(c, k)
  {
  }

  /** No two buffers hold a block. */
  lemma OneBuffer(c: C.Cache, j: int, k: int, b: int)
    requires C.Inv(c) && C.IsBuf(j) && C.IsBuf(k)
    ensures C.Shaped(c) && (c.bs[j].id == c.bs[k].id == At(b) ==> j == k)
  {
    hide C.Linked, C.Good, C.DiskCurrent;
  }

  /** The latest contents of a block the log has not pinned are on disk. */
  lemma Clean(g: L.Geometry, base: L.Disk, s: State, b: int)
    requires L.Inv(g, base, s.log) && Phases(s) && IsBlock(g, b) && b !in Pending(s.log, s.due)
    ensures |s.log.view| == |s.log.disk| == g.size && s.log.view[b] == s.log.disk[b]
  {
    LogFacts(g, base, s.log);
    if s.log.phase.Installing? && !s.log.phase.recovering && b in s.log.lh {
      var i :| 0 <= i < |s.log.lh| && s.log.lh[i] == b;
      var from := if s.due then s.log.phase.tail - 1 else s.log.phase.tail;
      if i >= from {
        InTail(s.log.lh, from, i);
      }
    }
  }

  lemma InTail(q: seq<int>, from: int, i: int)
    requires 0 <= from <= i < |q|
    ensures q[i] in q[from..]
  {
    assert q[from..][i - from] == q[i];
  }

  /** An unchanged buffer without pins agrees with the disk. */
  lemma BufferWritten(g: L.Geometry, base: L.Disk, s: State, k: int)
    requires Inv(g, base, s) && C.IsBuf(k) && k !in s.dirty
    requires s.cache.bs[k].id.dev == DEV && IsBlock(g, BlockOf(s, k))
    requires BlockOf(s, k) !in Pending(s.log, s.due) || s.log.view[BlockOf(s, k)] == s.log.disk[BlockOf(s, k)]
    ensures C.Written(s.cache, k)
  {
    hide L.Inv, C.Inv, DirtyOK;
    CacheFacts(s.cache, k);
    var b := BlockOf(s, k);
    if b !in Pending(s.log, s.due) {
      Clean(g, base, s, b);
    }
    if Touched(s, b) {
      var j :| j in s.dirty && C.IsBuf(j) && s.cache.bs[j].id == At(b);
      OneBuffer(s.cache, j, k, b);
    }
  }

  /** Every release, pin and unpin that the log causes is one the cache allows:
      the discipline Bcache demands is kept, not assumed. */
  lemma CacheAllows(g: L.Geometry, base: L.Disk, s: State, a: Action)
    requires Inv(g, base, s) && Enabled(g, s, a)
    ensures Allowed(g, s, a)
  {
    hide Inv, L.Enabled;
    if a.Use? && a.a.Unlock? {
      UnlockAllowed(g, base, s, a.a.b);
    } else if a.Unpin? {
      UnpinAllowed(g, base, s, a.k);
    }
  }

  lemma UnlockAllowed(g: L.Geometry, base: L.Disk, s: State, k: int)
    requires Inv(g, base, s) && C.Holds(s.cache, k) && k !in s.dirty
    ensures C.Enabled(s.cache, C.Unlock(k))
  {
    hide L.Inv, C.Inv, DirtyOK;
    CacheFacts(s.cache, k);
    assert PinOK(s, k);
    if s.cache.pins[k] == 0 {
      BufferWritten(g, base, s, k);
    }
  }

  lemma UnpinAllowed(g: L.Geometry, base: L.Disk, s: State, k: int)
    requires Inv(g, base, s) && Enabled(g, s, Unpin(k))
    ensures C.Enabled(s.cache, C.Unpin(k)) && s.cache.pins[k] == 1
  {
    hide L.Inv, C.Inv, DirtyOK, L.Enabled;
    InTail(s.log.lh, s.log.phase.tail - 1, s.log.phase.tail - 1);
    CacheFacts(s.cache, k);
    assert PinOK(s, k);
    JustInstalled(g, base, s);
    NothingDirtyWhenDue(g, base, s, k);
    BufferWritten(g, base, s, k);
  }

  lemma JustInstalled(g: L.Geometry, base: L.Disk, s: State)
    requires L.Inv(g, base, s.log) && s.log.phase.Installing? && 0 < s.log.phase.tail <= |s.log.lh|
    ensures var b := s.log.lh[s.log.phase.tail - 1];
            g.Home(b) && |s.log.view| == |s.log.disk| == g.size && s.log.view[b] == s.log.disk[b]
  {
    LogFacts(g, base, s.log);
    assert g.Home(s.log.lh[s.log.phase.tail - 1]);
  }

  lemma NothingDirtyWhenDue(g: L.Geometry, base: L.Disk, s: State, k: int)
    requires Inv(g, base, s) && s.due
    ensures k !in s.dirty
  {
    hide L.OnDisk, L.Contents, L.Whole, L.Reservation, C.Inv;
  }

  // ---- Every step keeps the two together ----

  /** bread and brelse: disk, latest contents and pins stay; a block changes buffer
      only where nobody refers to it; a locked and filled buffer keeps its data. */
  lemma UseEffect(c: C.Cache, a: C.Action, k: int)
    requires C.Inv(c) && C.Enabled(c, a) && C.IsBuf(k)
    requires a.Reuse? || a.Recycle? || a.Lock? || a.Fill? || a.Unlock? || a.Drop?
    ensures var d := C.Do(c, a);
            && C.Shaped(d) && d.disk == c.disk && d.view == c.view && d.pins == c.pins
            && (if a.Recycle? && a.b == k then c.pins[k] == 0 && !c.bs[k].locked && d.bs[k].id == a.id else d.bs[k].id == c.bs[k].id)
            && (c.bs[k].locked && c.bs[k].valid && a != C.Unlock(k) ==> d.bs[k].locked && d.bs[k].valid && d.bs[k].data == c.bs[k].data)
  {
    hide C.Linked, C.Unique, C.DiskCurrent, C.ToFront;
    C.StepShape(c, a);
    assert C.Good(c, k);
    if a.Drop? {
      C.DropFrame(c, a.b);
    }
    if k != a.b {
      assert C.SameButLinks(C.Do(c, a).bs[k], c.bs[k]);
    }
  }

  /** Both machines keep their own invariants. */
  lemma PartsStep(g: L.Geometry, base: L.Disk, s: State, a: Action)
    requires Inv(g, base, s) && Enabled(g, s, a)
    ensures L.Inv(g, base, Do(g, s, a).log) && C.Inv(Do(g, s, a).cache)
  {
    hide L.Inv, C.Inv, L.Do, C.Do, L.Enabled, C.Enabled, DirtyOK;
    CacheAllows(g, base, s, a);
    if LogStep(g, s, a).Some? {
      StepEnabled(g, s, a);
      L.InvStep(g, base, s.log, LogStep(g, s, a).value);
    }
    if a.Crash? {
      C.InitInv(a.c);
    } else if CacheStep(g, s, a).Some? {
      C.InvStep(s.cache, CacheStep(g, s, a).value);
    }
  }

  lemma StepEnabled(g: L.Geometry, s: State, a: Action)
    requires Enabled(g, s, a) && LogStep(g, s, a).Some?
    ensures L.Enabled(g, s.log, LogStep(g, s, a).value)
  {
  }

  lemma PhasesStep(g: L.Geometry, base: L.Disk, s: State, a: Action)
    requires Inv(g, base, s) && Enabled(g, s, a)
    ensures Phases(Do(g, s, a))
  {
    hide L.Inv, C.Inv, C.Enabled, C.Do, DirtyOK, NextCache, NextDirty, Disks, Views, Pins, Allowed;
    if LogStep(g, s, a).Some? {
      StepEnabled(g, s, a);
      LogFacts(g, base, s.log);
      if a.WriteHome? || a.ClearHeader? || a.WriteHeader? || a.WriteLog? {
        NotDueWhenDirty(g, base, s, a.k);
      }
      PhaseStep(g, s.log, s.due, LogStep(g, s, a).value);
    }
  }

  lemma NotDueWhenDirty(g: L.Geometry, base: L.Disk, s: State, k: int)
    requires Inv(g, base, s) && k in s.dirty
    ensures !s.due
  {
    hide Inv;
    if s.due {
      NothingDirtyWhenDue(g, base, s, k);
    }
  }

  lemma PhaseStep(g: L.Geometry, log: L.State, due: bool, a: L.Action)
    requires L.Shape(g, log) && L.OnDisk(g, log) && L.Enabled(g, log, a)
    requires due ==> log.phase.Installing? && log.phase.tail > 0 && !log.phase.recovering
    requires log.phase.Installing? && log.phase.recovering ==> log.view == log.disk
    ensures var t := L.Do(g, log, a);
            && (t.phase.Installing? ==> t.phase.tail <= |t.lh|)
            && (t.phase.Installing? && t.phase.recovering ==> t.view == t.disk)
            && (a == L.InstallBlock ==> log.phase.Installing? && t.phase.Installing? && t.phase.tail > 0 && t.phase.recovering == log.phase.recovering)
            && (due && a != L.InstallBlock && a != L.ClearHeader && a != L.Crash ==> t.phase == log.phase)
  {
    hide L.HeaderOK, L.DistinctHomes;
  }

  /** The part of the invariant that ties the machines together. */
  ghost predicate Tied(g: L.Geometry, s: State) {
    && C.Shaped(s.cache) && L.Shape(g, s.log) && Phases(s) && Disks(g, s) && Views(g, s) && Pins(s)
    && (forall k | k in s.dirty :: DirtyOK(g, s, k))
  }

  /** Which buffers are dirty says what the log is doing. */
  lemma DirtyPhase(g: L.Geometry, s: State, k: int)
    requires Tied(g, s) && k in s.dirty
    ensures C.IsBuf(k) && DirtyOK(g, s, k)
    ensures s.dirty[k].ByOp? ==> s.log.phase == L.Running
    ensures s.dirty[k].ByCommit? ==> s.log.phase.WritingLog? || s.log.phase.Installing?
  {
    hide Disks, Views, Pins;
  }

  /** From cache c to d buffer k keeps its block, or is one without a pin that gets
      a block the log has not pinned; a dirty one keeps everything. */
  predicate Carried(s: State, d: C.Cache, k: int)
    requires C.Shaped(s.cache) && C.Shaped(d) && C.IsBuf(k) && Phases(s)
  {
    var x, y := s.cache.bs[k], d.bs[k];
    && (y.id == x.id || (s.cache.pins[k] == 0 && k !in s.dirty && !(y.id.dev == DEV && y.id.blockno in Pending(s.log, s.due))))
    && (k in s.dirty ==> y.id == x.id && y.locked == x.locked && y.valid == x.valid && y.data == x.data)
  }

  /** Buffers keep their blocks and pins, and the log its pending blocks. */
  ghost predicate SamePins(s: State, t: State)
    requires C.Shaped(s.cache) && C.Shaped(t.cache) && Phases(s) && Phases(t)
  {
    && t.cache.pins == s.cache.pins && Pending(t.log, t.due) == Pending(s.log, s.due)
    && forall k | C.IsBuf(k) :: t.cache.bs[k].id == s.cache.bs[k].id
  }

  lemma KeepPins(s: State, t: State)
    requires C.Shaped(s.cache) && C.Shaped(t.cache) && Phases(s) && Phases(t) && Pins(s) && SamePins(s, t)
    ensures Pins(t)
  {
    hide Pending;
    forall k | C.IsBuf(k) ensures PinOK(t, k) {
      assert PinOK(s, k);
    }
    forall b | b in Pending(t.log, t.due) ensures Pinned(t, b) {
      assert Pinned(s, b);
      var k :| C.IsBuf(k) && s.cache.bs[k].id == At(b);
      assert C.IsBuf(k) && t.cache.bs[k].id == At(b);
    }
  }

  lemma TieCache(g: L.Geometry, s: State, d: C.Cache)
    requires Tied(g, s) && C.Shaped(d) && d.disk == s.cache.disk && d.view == s.cache.view && d.pins == s.cache.pins
    requires forall k | C.IsBuf(k) :: Carried(s, d, k)
    ensures Tied(g, s.(cache := d))
  {
    hide L.HeaderOK, L.DistinctHomes, Pending, ToWrite;
    var t := s.(cache := d);
    forall k | C.IsBuf(k) ensures PinOK(t, k) {
      assert Carried(s, d, k) && PinOK(s, k);
    }
    forall b | b in Pending(t.log, t.due) ensures Pinned(t, b) {
      assert Pinned(s, b);
      var k :| C.IsBuf(k) && s.cache.bs[k].id == At(b);
      assert PinOK(s, k) && Carried(s, d, k);
      assert C.IsBuf(k) && d.bs[k].id == At(b);
    }
    forall k | k in t.dirty ensures C.IsBuf(k) && d.bs[k].id == s.cache.bs[k].id && DirtyOK(g, t, k) {
      assert DirtyOK(g, s, k) && Carried(s, d, k);
    }
  }

  lemma TieUse(g: L.Geometry, base: L.Disk, s: State, a: C.Action)
    requires Inv(g, base, s) && Tied(g, s) && Enabled(g, s, Use(a))
    ensures Tied(g, Do(g, s, Use(a)))
  {
    hide L.Inv, C.Inv, C.Enabled, C.Do, Disks, Views, L.Shape, DirtyOK;
    CacheAllows(g, base, s, Use(a));
    UseEffect(s.cache, a, 0);
    var d := C.Do(s.cache, a);
    forall k | C.IsBuf(k) ensures Carried(s, d, k) {
      UseEffect(s.cache, a, k);
      if k in s.dirty {
        DirtyPhase(g, s, k);
        DirtyLocked(g, s, k);
      }
      if a.Recycle? && a.b == k {
        NotPending(s, a);
      }
    }
    TieCache(g, s, d);
  }

  lemma DirtyLocked(g: L.Geometry, s: State, k: int)
    requires C.Shaped(s.cache) && k in s.dirty && L.Shape(g, s.log) && DirtyOK(g, s, k)
    ensures C.IsBuf(k) && s.cache.bs[k].locked && s.cache.bs[k].valid
  {
  }

  /** A block that bget finds in no buffer is not pinned. */
  lemma NotPending(s: State, a: C.Action)
    requires C.Shaped(s.cache) && Phases(s) && Pins(s) && a.Recycle? && C.Enabled(s.cache, a)
    ensures !(a.id.dev == DEV && a.id.blockno in Pending(s.log, s.due))
  {
    hide Pending, PinOK;
  }

  /** The log moves on without touching contents or pins. */
  lemma TieLog(g: L.Geometry, s: State, log: L.State)
    requires Tied(g, s) && L.Shape(g, log) && Phases(s.(log := log)) && log.disk == s.log.disk && log.view == s.log.view
    requires Pending(log, s.due) == Pending(s.log, s.due)
    requires forall k | k in s.dirty :: s.dirty[k].ByOp? && s.dirty[k].op in log.ops
    ensures Tied(g, s.(log := log))
  {
    hide L.HeaderOK, L.DistinctHomes, ToWrite, Pending;
    var t := s.(log := log);
    assert Pins(t) by {
      KeepPins(s, t);
    }
    forall k | k in t.dirty ensures DirtyOK(g, t, k) {
      assert DirtyOK(g, s, k);
    }
    forall b | IsBlock(g, b) ensures Touched(t, b) == Touched(s, b) {}
  }

  /** begin_op, end_op and the reading of the header. */
  lemma TieBook(g: L.Geometry, base: L.Disk, s: State, a: Action)
    requires Inv(g, base, s) && Tied(g, s) && Enabled(g, s, a) && L.Shape(g, Do(g, s, a).log) && Phases(Do(g, s, a))
    requires a.Begin? || a.End? || a.FinishCommit? || a.ReadHeader?
    ensures Tied(g, Do(g, s, a))
  {
    hide L.Inv, C.Inv, L.HeaderOK, L.DistinctHomes, ToWrite, L.HeadBlocks, DirtyOK, Disks, Views, Pins;
    var t := Do(g, s, a);
    forall k | k in s.dirty ensures s.dirty[k].ByOp? && s.dirty[k].op in t.log.ops {
      DirtyPhase(g, s, k);
      OwnerRuns(g, s, k);
    }
    TieLog(g, s, t.log);
  }

  lemma OwnerRuns(g: L.Geometry, s: State, k: int)
    requires C.Shaped(s.cache) && L.Shape(g, s.log) && k in s.dirty && DirtyOK(g, s, k) && s.dirty[k].ByOp?
    ensures s.dirty[k].op in s.log.ops
  {
  }

  lemma StoreEffect(c: C.Cache, k: int, data: Block)
    requires C.Shaped(c) && C.Holds(c, k) && c.bs[k].valid
    ensures C.Enabled(c, C.Store(k, data))
    ensures C.Do(c, C.Store(k, data)) == c.(bs := c.bs[k := c.bs[k].(data := data)], view := c.view[c.bs[k].id := data])
  {
  }

  /** Somebody changes a buffer. */
  lemma TieStore(g: L.Geometry, s: State, k: int, data: Block, who: Owner)
    requires Tied(g, s) && C.IsBuf(k) && Has(s, k, BlockOf(s, k)) && IsBlock(g, BlockOf(s, k))
    requires match who
             case ByOp(op) => op in s.log.ops && g.Home(BlockOf(s, k)) && forall j | j in s.dirty :: s.dirty[j].ByOp?
             case ByCommit => s.dirty == map[] && ToWrite(g, s.log, s.due, BlockOf(s, k), data)
    ensures C.Enabled(s.cache, C.Store(k, data))
    ensures Tied(g, State(s.log, C.Do(s.cache, C.Store(k, data)), s.dirty[k := who], s.due))
  {
    hide L.HeaderOK, L.DistinctHomes, ToWrite, Pins, C.Do, C.Enabled;
    StoreEffect(s.cache, k, data);
    var t := State(s.log, C.Do(s.cache, C.Store(k, data)), s.dirty[k := who], s.due);
    KeepPins(s, t);
    forall j | j in t.dirty ensures DirtyOK(g, t, j) {
      assert j in s.dirty ==> DirtyOK(g, s, j);
    }
    assert k in t.dirty && C.IsBuf(k) && t.cache.bs[k].id == At(BlockOf(s, k));
    forall b | IsBlock(g, b) && !Touched(t, b) ensures !Touched(s, b) && b != BlockOf(s, k) {
      MoreTouched(s, t, b);
    }
  }

  lemma MoreTouched(s: State, t: State, b: int)
    requires C.Shaped(s.cache) && C.Shaped(t.cache) && s.dirty.Keys <= t.dirty.Keys
    requires forall j | C.IsBuf(j) :: t.cache.bs[j].id == s.cache.bs[j].id
    ensures Touched(s, b) ==> Touched(t, b)
  {
    if Touched(s, b) {
      var j :| j in s.dirty && C.IsBuf(j) && s.cache.bs[j].id == At(b);
      assert j in t.dirty && C.IsBuf(j) && t.cache.bs[j].id == At(b);
    }
  }

  /** The committer writes the buffer it has changed, and the log's step is done. */
  lemma TieWrite(g: L.Geometry, s: State, k: int, log: L.State, due: bool)
    requires Tied(g, s) && k in s.dirty && s.dirty[k] == ByCommit
    requires DirtyOK(g, s, k) && s.cache.bs[k].id in s.cache.view && s.cache.view[s.cache.bs[k].id] == Data(s, k)
    requires L.Shape(g, log) && log.disk == s.log.disk[BlockOf(s, k) := Data(s, k)] && log.view == s.log.view[BlockOf(s, k) := Data(s, k)]
    requires Phases(State(log, s.cache, map[], due)) && Pending(log, due) == Pending(s.log, s.due)
    ensures C.Enabled(s.cache, C.Write(k))
    ensures Tied(g, State(log, C.Do(s.cache, C.Write(k)), s.dirty - {k}, due))
  {
    hide L.HeaderOK, L.DistinctHomes, ToWrite, Pending, Pins;
    var t := State(log, C.Do(s.cache, C.Write(k)), s.dirty - {k}, due);
    assert t.dirty == map[];
    KeepPins(s, t);
    forall b | IsBlock(g, b) && b != BlockOf(s, k) ensures !Touched(s, b) {}
  }

  /** From s to t buffer k has been log_written. */
  ghost predicate LogWritten(s: State, t: State, k: int) {
    && C.Shaped(s.cache) && C.Shaped(t.cache) && C.IsBuf(k)
    && t.dirty == s.dirty - {k} && t.due == s.due && t.cache.disk == s.cache.disk && t.cache.view == s.cache.view
    && t.log.phase == s.log.phase == L.Running && t.log.ops == s.log.ops && t.log.disk == s.log.disk
    && (forall j | C.IsBuf(j) :: t.cache.bs[j] == s.cache.bs[j].(refcnt := t.cache.bs[j].refcnt))
    && var b := BlockOf(s, k);
       && Has(s, k, b) && 0 <= b < |s.log.view| && t.log.view == s.log.view[b := Data(s, k)]
       && t.log.lh == (if b in s.log.lh then s.log.lh else s.log.lh + [b])
       && t.cache.pins == (if b in s.log.lh then s.cache.pins else s.cache.pins[k := s.cache.pins[k] + 1])
  }

  lemma LogWriteEffect(g: L.Geometry, s: State, op: L.OpId, k: int)
    requires Enabled(g, s, LogWrite(op, k))
    ensures LogWritten(s, Do(g, s, LogWrite(op, k)), k)
  {
  }

  /** log_write. */
  lemma TieLogWrite(g: L.Geometry, base: L.Disk, s: State, op: L.OpId, k: int)
    requires Inv(g, base, s) && Tied(g, s) && Enabled(g, s, LogWrite(op, k)) && L.Shape(g, Do(g, s, LogWrite(op, k)).log)
    ensures Tied(g, Do(g, s, LogWrite(op, k)))
  {
    hide L.Inv, C.Inv, L.HeaderOK, L.DistinctHomes, ToWrite, Enabled, Do, Pins;
    var t := Do(g, s, LogWrite(op, k));
    LogWriteEffect(g, s, op, k);
    var b := BlockOf(s, k);
    CacheFacts(s.cache, k);
    LogWritePins(s, t, k);
    forall j | j in t.dirty ensures DirtyOK(g, t, j) {
      DirtyPhase(g, s, j);
    }
    assert Data(s, k) == s.cache.view[At(b)];
    forall c | IsBlock(g, c) && c != b && !Touched(t, c) ensures !Touched(s, c) {
      StillTouched(s, t, k, c);
    }
  }

  lemma LogWritePins(s: State, t: State, k: int)
    requires LogWritten(s, t, k) && C.Inv(s.cache) && Phases(s) && Phases(t) && Pins(s)
    ensures Pins(t)
  {
    hide C.Inv;
    forall j | C.IsBuf(j) ensures PinOK(t, j) {
      assert PinOK(s, j);
      OneBuffer(s.cache, j, k, BlockOf(s, k));
    }
    forall c | c in Pending(t.log, t.due) ensures Pinned(t, c) {
      assert c == BlockOf(s, k) || Pinned(s, c);
      var j :| C.IsBuf(j) && s.cache.bs[j].id == At(c);
      assert C.IsBuf(j) && t.cache.bs[j].id == At(c);
    }
  }

  lemma StillTouched(s: State, t: State, k: int, c: int)
    requires C.Shaped(s.cache) && C.Shaped(t.cache) && C.IsBuf(k) && t.dirty == s.dirty - {k} && s.cache.bs[k].id != At(c)
    requires forall j | C.IsBuf(j) :: t.cache.bs[j].id == s.cache.bs[j].id
    ensures Touched(s, c) ==> Touched(t, c)
  {
    if Touched(s, c) {
      var j :| j in s.dirty && C.IsBuf(j) && s.cache.bs[j].id == At(c);
      assert j in t.dirty && C.IsBuf(j) && t.cache.bs[j].id == At(c);
    }
  }

  /** With nothing dirty, a filled buffer has what the log machine's cache has. */
  lemma CleanData(g: L.Geometry, base: L.Disk, s: State, k: int, b: int)
    requires Inv(g, base, s) && s.dirty == map[] && Has(s, k, b)
    ensures IsBlock(g, b) && |s.log.view| == g.size && Data(s, k) == s.log.view[b]
  {
    hide L.Inv, C.Inv, Pins;
    CacheFacts(s.cache, k);
    assert !Touched(s, b);
  }

  lemma TieModify(g: L.Geometry, base: L.Disk, s: State, op: L.OpId, k: int, data: Block)
    requires Inv(g, base, s) && Tied(g, s) && Enabled(g, s, Modify(op, k, data))
    ensures Tied(g, Do(g, s, Modify(op, k, data)))
  {
    hide L.Inv, C.Inv, DirtyOK, Disks, Views, Pins;
    InRange(g, s, k);
    forall j | j in s.dirty ensures s.dirty[j].ByOp? {
      DirtyPhase(g, s, j);
    }
    CacheAllows(g, base, s, Modify(op, k, data));
    TieStore(g, s, k, data, ByOp(op));
  }

  lemma InRange(g: L.Geometry, s: State, k: int)
    requires Disks(g, s) && C.Shaped(s.cache) && C.Holds(s.cache, k)
    ensures IsBlock(g, BlockOf(s, k)) && s.cache.bs[k].id == At(BlockOf(s, k))
  {
  }

  /** The committer fills a buffer with what the log's next write is to be. */
  lemma TieCopy(g: L.Geometry, base: L.Disk, s: State, a: Action)
    requires Inv(g, base, s) && Tied(g, s) && Enabled(g, s, a) && (a.CopyToLog? || a.SetHeader? || a.CopyHome?)
    ensures Tied(g, Do(g, s, a))
  {
    hide L.Inv, C.Inv, DirtyOK, Disks, Views, Pins, L.HeaderOK;
    InRange(g, s, a.k);
    CacheAllows(g, base, s, a);
    var data: Block := CacheStep(g, s, a).value.data;
    if a.SetHeader? {
      CleanData(g, base, s, a.k, g.start);
    } else {
      CleanData(g, base, s, a.from, BlockOf(s, a.from));
      assert a.CopyToLog? ==> g.Home(s.log.lh[s.log.phase.tail]);
    }
    TieStore(g, s, a.k, data, ByCommit);
  }

  lemma WriteIsDirty(g: L.Geometry, s: State, a: Action)
    requires Enabled(g, s, a) && (a.WriteLog? || a.WriteHeader? || a.WriteHome? || a.ClearHeader?)
    ensures a.k in s.dirty && C.IsBuf(a.k)
  {
  }

  /** What a write of the committer does to both machines. */
  lemma CommitEffect(g: L.Geometry, s: State, a: Action)
    requires Tied(g, s) && Enabled(g, s, a) && Allowed(g, s, a) && !s.due && Phases(Do(g, s, a))
    requires a.WriteLog? || a.WriteHeader? || a.WriteHome? || a.ClearHeader?
    ensures a.k in s.dirty && s.dirty[a.k] == ByCommit && C.IsBuf(a.k) && DirtyOK(g, s, a.k) && C.Enabled(s.cache, C.Write(a.k))
    ensures var t, b := Do(g, s, a), BlockOf(s, a.k);
            && t.log.disk == s.log.disk[b := Data(s, a.k)] && t.log.view == s.log.view[b := Data(s, a.k)]
            && Pending(t.log, t.due) == Pending(s.log, s.due)
            && t == State(t.log, C.Do(s.cache, C.Write(a.k)), s.dirty - {a.k}, t.due)
  {
    hide Disks, Views, Pins, L.HeaderOK, L.PutHead, C.Do, C.Written;
    assert DirtyOK(g, s, a.k);
  }

  /** The committer's writes are the disk writes of the log machine. */
  lemma TieCommit(g: L.Geometry, base: L.Disk, s: State, a: Action)
    requires Inv(g, base, s) && Tied(g, s) && Enabled(g, s, a) && L.Shape(g, Do(g, s, a).log) && Phases(Do(g, s, a))
    requires a.WriteLog? || a.WriteHeader? || a.WriteHome? || a.ClearHeader?
    ensures Tied(g, Do(g, s, a))
  {
    hide L.Inv, C.Inv, Disks, Views, Pins, L.HeaderOK, L.PutHead, C.Do, L.Do, Do, Enabled, Allowed;
    WriteIsDirty(g, s, a);
    CacheAllows(g, base, s, a);
    CacheFacts(s.cache, a.k);
    NotDueWhenDirty(g, base, s, a.k);
    CommitEffect(g, s, a);
    var t := Do(g, s, a);
    TieWrite(g, s, a.k, t.log, t.due);
  }

  lemma TieUnpin(g: L.Geometry, base: L.Disk, s: State, k: int)
    requires Inv(g, base, s) && Tied(g, s) && Enabled(g, s, Unpin(k))
    ensures Tied(g, Do(g, s, Unpin(k)))
  {
    hide L.Inv, C.Inv, L.HeaderOK, DirtyOK, L.OnDisk, Pins, C.Written, Enabled, Do;
    UnpinEffect(g, base, s, k);
    var t := Do(g, s, Unpin(k));
    UnpinPins(g, s, t, k);
    forall j ensures j !in s.dirty {
      NothingDirtyWhenDue(g, base, s, j);
    }
    forall b | IsBlock(g, b) ensures !Touched(s, b) {}
  }

  /** From s to t buffer k has been unpinned. */
  ghost predicate Unpinned(s: State, t: State, k: int) {
    && C.Shaped(s.cache) && C.Shaped(t.cache) && C.IsBuf(k) && s.due && s.log.phase.Installing?
    && 0 < s.log.phase.tail <= |s.log.lh| && s.cache.bs[k].id == At(s.log.lh[s.log.phase.tail - 1]) && s.cache.pins[k] == 1
    && t == State(s.log, t.cache, s.dirty, false) && t.cache.disk == s.cache.disk && t.cache.view == s.cache.view
    && t.cache.pins == s.cache.pins[k := 0] && forall j | C.IsBuf(j) :: t.cache.bs[j].id == s.cache.bs[j].id
  }

  lemma UnpinEffect(g: L.Geometry, base: L.Disk, s: State, k: int)
    requires Inv(g, base, s) && Enabled(g, s, Unpin(k))
    ensures Unpinned(s, Do(g, s, Unpin(k)), k)
  {
    hide Inv;
    UnpinAllowed(g, base, s, k);
  }

  lemma UnpinPins(g: L.Geometry, s: State, t: State, k: int)
    requires Unpinned(s, t, k) && C.Inv(s.cache) && Phases(s) && Phases(t) && Pins(s) && L.DistinctHomes(g, s.log.lh)
    ensures Pins(t)
  {
    hide C.Inv;
    var lh, n := s.log.lh, s.log.phase.tail;
    assert lh[n - 1..] == [lh[n - 1]] + lh[n..];
    assert lh[n - 1] !in lh[n..];
    forall j | C.IsBuf(j) ensures PinOK(t, j) {
      assert PinOK(s, j);
      OneBuffer(s.cache, j, k, lh[n - 1]);
    }
    forall b | b in Pending(t.log, t.due) ensures Pinned(t, b) {
      assert Pinned(s, b);
      var j :| C.IsBuf(j) && s.cache.bs[j].id == At(b);
      assert C.IsBuf(j) && t.cache.bs[j].id == At(b);
    }
  }

  lemma TieCrash(g: L.Geometry, base: L.Disk, s: State, c: C.Cache)
    requires Inv(g, base, s) && Tied(g, s) && Enabled(g, s, Crash(c)) && L.Shape(g, Do(g, s, Crash(c)).log)
    ensures Tied(g, Do(g, s, Crash(c)))
  {
    hide L.Inv, C.Inv, L.HeaderOK, L.DistinctHomes, C.Linked;
    var t := Do(g, s, Crash(c));
    forall k | C.IsBuf(k) ensures PinOK(t, k) {
      assert C.Fresh(c.bs[k]);
    }
  }

  /** Every step of operations, committer, cache, crash and recovery keeps the log's
      invariant, the cache's, and the ties between them. */
  lemma InvStep(g: L.Geometry, base: L.Disk, s: State, a: Action)
    requires Inv(g, base, s) && Enabled(g, s, a)
    ensures Inv(g, base, Do(g, s, a))
  {
    hide L.Inv, C.Inv, Enabled, Do, Disks, Views, Pins, DirtyOK, Phases;
    LogFacts(g, base, s.log);
    CacheFacts(s.cache, 0);
    PartsStep(g, base, s, a);
    LogFacts(g, base, Do(g, s, a).log);
    PhasesStep(g, base, s, a);
    match a
    case Use(a) => TieUse(g, base, s, a);
    case Modify(op, k, data) => TieModify(g, base, s, op, k, data);
    case LogWrite(op, k) => TieLogWrite(g, base, s, op, k);
    case CopyToLog(_, _) => TieCopy(g, base, s, a);
    case SetHeader(_) => TieCopy(g, base, s, a);
    case CopyHome(_, _) => TieCopy(g, base, s, a);
    case WriteLog(_) => TieCommit(g, base, s, a);
    case WriteHeader(_) => TieCommit(g, base, s, a);
    case WriteHome(_) => TieCommit(g, base, s, a);
    case ClearHeader(_) => TieCommit(g, base, s, a);
    case Unpin(k) => TieUnpin(g, base, s, k);
    case Crash(c) => TieCrash(g, base, s, c);
    case _ => TieBook(g, base, s, a);
  }
}
