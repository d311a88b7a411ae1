/** Whole runs of the log over the buffer cache: crash atomicity of what bread hands
    out, safety of logged updates, and the buffers a commit needs. */
module LogRuns {
  import opened Params
  import opened Blocks
  import opened Lists
  import L = LogMachine
  import C = Bcache
  import opened LogCache

  /** A fresh file system and an empty cache. */
  ghost predicate Init(g: L.Geometry, base: L.Disk, s: State) {
    L.Init(g, base, s.log) && C.Init(s.cache) && s.dirty == map[] && !s.due && Disks(g, s)
  }

  datatype Run = Run(states: seq<State>, actions: seq<Action>)

  ghost predicate StepOf(g: L.Geometry, s: State, a: Action, t: State) {
    Enabled(g, s, a) && t == Do(g, s, a)
  }

  ghost predicate ValidRun(g: L.Geometry, base: L.Disk, r: Run) {
    && |r.states| == |r.actions| + 1 && Init(g, base, r.states[0])
    && forall i | 0 <= i < |r.actions| :: StepOf(g, r.states[i], r.actions[i], r.states[i + 1])
  }

  lemma InitInv(g: L.Geometry, base: L.Disk, s: State)
    requires Init(g, base, s)
    ensures Inv(g, base, s)
  {
    hide L.Inv, C.Inv, C.Linked;
    L.InvInit(g, base, s.log);
    C.InitInv(s.cache);
    forall k | C.IsBuf(k) ensures PinOK(s, k) {
      assert C.Fresh(s.cache.bs[k]);
    }
  }

  lemma {:induction false} RunInv(g: L.Geometry, base: L.Disk, r: Run, n: nat)
    requires ValidRun(g, base, r) && n < |r.states|
    ensures Inv(g, base, r.states[n])
  {
    hide LogCache.Inv, Enabled, Do, Init;
    if n == 0 {
      InitInv(g, base, r.states[0]);
    } else {
      RunInv(g, base, r, n - 1);
      assert StepOf(g, r.states[n - 1], r.actions[n - 1], r.states[n]);
      LogCache.InvStep(g, base, r.states[n - 1], r.actions[n - 1]);
    }
  }

  // ---- What bread hands out ----

  /** In every run, a filled buffer nobody is changing holds the contents the log
      machine has for its block; recycling has lost none of them. */
  lemma BreadIsLatest(g: L.Geometry, base: L.Disk, r: Run, n: nat, k: int)
    requires ValidRun(g, base, r) && n < |r.states| && C.IsBuf(k)
    ensures C.Shaped(r.states[n].cache)
    ensures var s := r.states[n];
            s.cache.bs[k].id.dev == DEV && s.cache.bs[k].valid && k !in s.dirty ==>
              IsBlock(g, BlockOf(s, k)) && |s.log.view| == g.size && Data(s, k) == s.log.view[BlockOf(s, k)]
  {
    hide ValidRun, L.Inv, C.Inv, DirtyOK, Pins;
    RunInv(g, base, r, n);
    var s := r.states[n];
    CacheFacts(s.cache, k);
    if s.cache.bs[k].id.dev == DEV && s.cache.bs[k].valid && k !in s.dirty {
      if Touched(s, BlockOf(s, k)) {
        var j :| j in s.dirty && C.IsBuf(j) && s.cache.bs[j].id == At(BlockOf(s, k));
        OneBuffer(s.cache, j, k, BlockOf(s, k));
      }
    }
  }

  /** In every run a logged block that is not yet installed sits in a buffer with
      exactly one pin, which bget cannot recycle. */
  lemma LoggedIsPinned(g: L.Geometry, base: L.Disk, r: Run, n: nat, b: int) returns (k: int)
    requires ValidRun(g, base, r) && n < |r.states| && Phases(r.states[n]) && b in Pending(r.states[n].log, r.states[n].due)
    ensures C.Shaped(r.states[n].cache) && C.IsBuf(k)
    ensures r.states[n].cache.bs[k].id == At(b) && r.states[n].cache.pins[k] == 1
    ensures forall id :: !C.Enabled(r.states[n].cache, C.Recycle(k, id))
  {
    hide ValidRun, L.Inv, C.Inv, DirtyOK, Views, Disks;
    RunInv(g, base, r, n);
    var s := r.states[n];
    CacheFacts(s.cache, 0);
    assert Pinned(s, b);
    k :| C.IsBuf(k) && s.cache.bs[k].id == At(b);
    assert PinOK(s, k);
    CacheFacts(s.cache, k);
  }

  // ---- Crashes ----

  /** The disk under the cache as a sequence of blocks. */
  ghost function DiskOf(g: L.Geometry, c: C.Cache): L.Disk
    requires forall b | IsBlock(g, b) :: At(b) in c.disk
  {
    seq(g.size, b requires IsBlock(g, b) => c.disk[At(b)])
  }

  lemma DiskIsLogs(g: L.Geometry, base: L.Disk, s: State)
    requires Inv(g, base, s)
    ensures (forall b | IsBlock(g, b) :: At(b) in s.cache.disk) && DiskOf(g, s.cache) == s.log.disk
  {
    hide L.Inv, C.Inv, DirtyOK, Views, Pins;
  }

  /** While no operation is outstanding the cache and the log machine agree on every
      home block, also on one that is being installed. */
  lemma QuietView(g: L.Geometry, base: L.Disk, s: State, b: int)
    requires Inv(g, base, s) && L.Quiescent(s.log) && g.Home(b)
    ensures At(b) in s.cache.view && |s.log.view| == g.size && s.cache.view[At(b)] == s.log.view[b]
  {
    hide L.Inv, C.Inv, Pins, DirtyOK;
    CacheFacts(s.cache, 0);
    if Touched(s, b) {
      var k :| k in s.dirty && C.IsBuf(k) && s.cache.bs[k].id == At(b);
      CacheFacts(s.cache, k);
      BeingInstalled(g, base, s, k);
    }
  }

  lemma BeingInstalled(g: L.Geometry, base: L.Disk, s: State, k: int)
    requires Inv(g, base, s) && L.Quiescent(s.log) && k in s.dirty && C.IsBuf(k) && g.Home(s.cache.bs[k].id.blockno)
    ensures s.cache.bs[k].valid && C.Assigned(s.cache.bs[k])
    ensures |s.log.view| == g.size && Data(s, k) == s.log.view[BlockOf(s, k)]
  {
    hide L.Inv, C.Inv, Pins, Views, Disks, L.HeaderOK;
    LogFacts(g, base, s.log);
    CacheFacts(s.cache, k);
    assert DirtyOK(g, s, k);
    InstallingSame(g, base, s.log);
  }

  /** During a commit the log area has what the cache has for the home block. */
  lemma InstallingSame(g: L.Geometry, base: L.Disk, log: L.State)
    requires L.Inv(g, base, log) && log.phase.Installing? && !log.phase.recovering && log.phase.tail < |log.lh|
    ensures var t := log.phase.tail; |log.view| == g.size && g.Home(log.lh[t]) && log.view[g.start + 1 + t] == log.view[log.lh[t]]
  {
    hide L.Replay, L.Whole, L.Reservation, L.HeaderOK;
    assert g.Home(log.lh[log.phase.tail]);
    assert log.kept[..log.durable] == log.kept;
  }

  /** Crash atomicity over the cache: wherever a crash strikes, recovery of the disk
      yields, for every home block, the contents bread would have handed out at an
      earlier moment with no operation outstanding, no older than the last header
      write. */
  lemma {:induction false} CrashOverCache(g: L.Geometry, base: L.Disk, r: Run, n: nat) returns (i: nat)
    requires ValidRun(g, base, r) && n < |r.states|
    ensures Inv(g, base, r.states[n]) && i <= n && L.Quiescent(r.states[i].log)
    ensures Recovers(g, r.states[n], r.states[i])
    ensures forall j | i < j < n :: !r.actions[j].WriteHeader?
  {
    hide LogCache.Inv, Enabled, Do, L.Recover, Recovers, SameRecovery, Init;
    RunInv(g, base, r, n);
    if n == 0 {
      i := 0;
      RecoversSelf(g, base, r.states[0]);
    } else {
      RunInv(g, base, r, n - 1);
      assert StepOf(g, r.states[n - 1], r.actions[n - 1], r.states[n]);
      RecoversStep(g, base, r.states[n - 1], r.actions[n - 1]);
      if r.actions[n - 1].WriteHeader? {
        i := n - 1;
      } else {
        i := CrashOverCache(g, base, r, n - 1);
        RecoversSame(g, base, r.states[n - 1], r.states[n], r.states[i]);
      }
    }
  }

  /** The disk at s recovers to what bread hands out at t. */
  ghost predicate Recovers(g: L.Geometry, s: State, t: State) {
    && (forall b | IsBlock(g, b) :: At(b) in s.cache.disk)
    && g.Valid() && L.HeaderOK(g, DiskOf(g, s.cache))
    && forall b | g.Home(b) :: At(b) in t.cache.view && L.Recover(g, DiskOf(g, s.cache))[b] == t.cache.view[At(b)]
  }

  lemma RecoversSelf(g: L.Geometry, base: L.Disk, s: State)
    requires Init(g, base, s) && Inv(g, base, s)
    ensures L.Quiescent(s.log) && Recovers(g, s, s)
  {
    hide LogCache.Inv, L.Recover;
    StartRecovers(g, base, s.log);
    DiskIsLogs(g, base, s);
    InvParts(g, base, s);
    forall b | g.Home(b) ensures At(b) in s.cache.view && L.Recover(g, DiskOf(g, s.cache))[b] == s.cache.view[At(b)] {
      QuietView(g, base, s, b);
    }
  }

  lemma InvParts(g: L.Geometry, base: L.Disk, s: State)
    requires Inv(g, base, s)
    ensures L.Inv(g, base, s.log)
  {
  }

  lemma StartRecovers(g: L.Geometry, base: L.Disk, log: L.State)
    requires L.Init(g, base, log)
    ensures L.Inv(g, base, log) && L.HeaderOK(g, log.disk) && L.SameHomes(g, L.Recover(g, log.disk), log.view)
  {
    L.InvInit(g, base, log);
    L.RecoveredMeaning(g, base, log);
    assert log.kept[..log.durable] == [];
  }

  lemma RecoversStep(g: L.Geometry, base: L.Disk, s: State, a: Action)
    requires Inv(g, base, s) && Enabled(g, s, a)
    ensures Inv(g, base, Do(g, s, a))
    ensures a.WriteHeader? ==> L.Quiescent(s.log) && Recovers(g, Do(g, s, a), s)
    ensures !a.WriteHeader? ==> SameRecovery(g, s, Do(g, s, a))
  {
    hide LogCache.Inv, L.Inv, L.Do, L.Recover, L.Enabled, NextCache, NextDirty;
    LogCache.InvStep(g, base, s, a);
    var t := Do(g, s, a);
    DiskIsLogs(g, base, s);
    DiskIsLogs(g, base, t);
    InvParts(g, base, s);
    InvParts(g, base, t);
    HeadersOK(g, base, s.log);
    HeadersOK(g, base, t.log);
    if LogStep(g, s, a).Some? {
      StepEnabled(g, s, a);
      L.RecoveredChangesOnlyAtHeader(g, base, s.log, LogStep(g, s, a).value);
    }
    if a.WriteHeader? {
      forall b | g.Home(b) ensures At(b) in s.cache.view && L.Recover(g, t.log.disk)[b] == s.cache.view[At(b)] {
        QuietView(g, base, s, b);
      }
    }
  }

  lemma HeadersOK(g: L.Geometry, base: L.Disk, log: L.State)
    requires L.Inv(g, base, log)
    ensures g.Valid() && |log.disk| == g.size && L.HeaderOK(g, log.disk)
  {
  }

  /** Recovery of both disks gives the same home blocks. */
  ghost predicate SameRecovery(g: L.Geometry, s: State, t: State) {
    && (forall b | IsBlock(g, b) :: At(b) in s.cache.disk && At(b) in t.cache.disk)
    && g.Valid() && L.HeaderOK(g, DiskOf(g, s.cache)) && L.HeaderOK(g, DiskOf(g, t.cache))
    && L.SameHomes(g, L.Recover(g, DiskOf(g, t.cache)), L.Recover(g, DiskOf(g, s.cache)))
  }

  lemma RecoversSame(g: L.Geometry, base: L.Disk, s: State, t: State, u: State)
    requires SameRecovery(g, s, t) && Recovers(g, s, u)
    ensures Recovers(g, t, u)
  {
    hide L.Recover, L.HeaderOK;
  }

  // ---- The buffers a commit needs ----

  /** Buffers somebody refers to without the log having pinned them. */
  ghost function Others(s: State): set<int>
    requires C.Shaped(s.cache)
  {
    set k: int | 0 <= k < NBUF && s.cache.pins[k] == 0 && s.cache.uses[k] > 0
  }

  /** The buffers of the first n blocks of q. */
  ghost function BufsOf(s: State, q: seq<int>, n: int): set<int>
    requires C.Shaped(s.cache) && 0 <= n <= |q|
  {
    set k: int | 0 <= k < NBUF && s.cache.bs[k].id.dev == DEV && s.cache.bs[k].id.blockno in q[..n]
  }

  lemma {:induction false} BufsOfSize(s: State, q: seq<int>, n: int)
    requires C.Inv(s.cache) && Distinct(q) && 0 <= n <= |q| && C.Shaped(s.cache) && forall b | b in q :: Pinned(s, b)
    ensures |BufsOf(s, q, n)| == n
  {
    hide C.Inv;
    if n > 0 {
      BufsOfSize(s, q, n - 1);
      assert Pinned(s, q[n - 1]);
      var k :| C.IsBuf(k) && s.cache.bs[k].id == At(q[n - 1]);
      NextBuf(s, q, n, k);
    }
  }

  lemma NextBuf(s: State, q: seq<int>, n: int, k: int)
    requires C.Inv(s.cache) && Distinct(q) && 0 < n <= |q| && C.Shaped(s.cache)
    requires C.IsBuf(k) && s.cache.bs[k].id == At(q[n - 1])
    ensures BufsOf(s, q, n) == BufsOf(s, q, n - 1) + {k} && k !in BufsOf(s, q, n - 1)
  {
    hide C.Inv;
    assert q[..n] == q[..n - 1] + [q[n - 1]];
    forall j | 0 <= j < NBUF ensures j in BufsOf(s, q, n) <==> j in BufsOf(s, q, n - 1) || j == k {
      OneBuffer(s.cache, j, k, q[n - 1]);
    }
  }

  lemma PendingDistinct(g: L.Geometry, base: L.Disk, s: State)
    requires L.Inv(g, base, s.log) && Phases(s)
    ensures Distinct(Pending(s.log, s.due))
  {
    LogFacts(g, base, s.log);
  }

  lemma SomeLeft(busy: set<int>, n: nat)
    requires forall k | k in busy :: 0 <= k < n
    ensures |busy| <= n && (|busy| < n <==> exists k :: 0 <= k < n && k !in busy)
  {
    SubsetSize(busy, UpTo(n));
    if |busy| < n {
      assert UpTo(n) - busy != {} by {
        assert UpTo(n) - busy == {} ==> busy == UpTo(n);
      }
      var k :| k in UpTo(n) - busy;
      assert 0 <= k < n && k !in busy;
    }
    if k :| 0 <= k < n && k !in busy {
      SubsetSize(busy, UpTo(n) - {k});
    }
  }

  /** Some buffer is unreferenced if and only if the pinned blocks and the buffers
      others refer to are fewer than NBUF. */
  lemma FreeBufferIff(g: L.Geometry, base: L.Disk, s: State)
    requires Inv(g, base, s)
    ensures C.Shaped(s.cache)
    ensures (exists k :: C.IsBuf(k) && s.cache.bs[k].refcnt == 0) <==> |Pending(s.log, s.due)| + |Others(s)| < NBUF
  {
    hide L.Inv, C.Inv, DirtyOK, Views, Disks, Pending, PinOK;
    CacheFacts(s.cache, 0);
    PendingDistinct(g, base, s);
    var q := Pending(s.log, s.due);
    BufsOfSize(s, q, |q|);
    assert q[..|q|] == q;
    var mine, others := BufsOf(s, q, |q|), Others(s);
    forall k ensures (k in mine + others ==> C.IsBuf(k) && s.cache.bs[k].refcnt > 0) && !(k in mine && k in others)
      ensures C.IsBuf(k) && k !in mine + others ==> s.cache.bs[k].refcnt == 0
    {
      if C.IsBuf(k) {
        BusyBuf(s, q, k);
      }
    }
    hide BufsOf, Others;
    assert |mine + others| == |mine| + |others|;
    SomeLeft(mine + others, NBUF);
  }

  lemma BusyBuf(s: State, q: seq<int>, k: int)
    requires C.Inv(s.cache) && C.Shaped(s.cache) && Phases(s) && Pins(s) && q == Pending(s.log, s.due) && C.IsBuf(k)
    ensures !(k in BufsOf(s, q, |q|) && k in Others(s)) && s.cache.bs[k].refcnt >= 0
    ensures k in BufsOf(s, q, |q|) + Others(s) <==> s.cache.bs[k].refcnt > 0
  {
    hide C.Inv, Pending;
    assert q[..|q|] == q;
    assert PinOK(s, k);
    CacheFacts(s.cache, k);
  }

  /** Block b is in no buffer. */
  predicate NotCached(s: State, b: int)
    requires C.Shaped(s.cache)
  {
    forall k | 0 <= k < NBUF :: s.cache.bs[k].id != At(b)
  }

  /** Nobody refers to a buffer of block b. */
  predicate Unused(s: State, b: int)
    requires C.Shaped(s.cache)
  {
    forall k | 0 <= k < NBUF && s.cache.bs[k].id == At(b) :: s.cache.bs[k].refcnt == 0
  }

  /** Both loops of bget fail for block b, and it panics. */
  ghost predicate NoBuffer(s: State, b: int)
    requires C.Shaped(s.cache)
  {
    NotCached(s, b) && forall k: int :: !C.Enabled(s.cache, C.Recycle(k, At(b)))
  }

  /** bget of a block nobody refers to panics if and only if the pinned blocks and
      the buffers others refer to make up the whole cache.  Only the log reads the
      log area, so this is when a commit panics: with the cache to itself, if and
      only if its log has NBUF blocks. */
  lemma BgetPanicsIff(g: L.Geometry, base: L.Disk, s: State, b: int)
    requires Inv(g, base, s) && IsBlock(g, b) && C.Shaped(s.cache) && Unused(s, b)
    ensures NoBuffer(s, b) <==> |Pending(s.log, s.due)| + |Others(s)| >= NBUF
  {
    hide L.Inv, C.Inv, DirtyOK, Views, Pins, Pending;
    FreeBufferIff(g, base, s);
    if k :| C.IsBuf(k) && s.cache.bs[k].refcnt == 0 {
      assert NotCached(s, b) ==> C.Enabled(s.cache, C.Recycle(k, At(b)));
    }
  }
}
