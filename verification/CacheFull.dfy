/** NBUF equals LOGBLOCKS (kernel/param.h:10-11), and log_write pins every block it
    appends.  A run in which three operations fill the log pins every buffer, and
    the commit that follows finds none for its first log block. */
module CacheFull {
  import opened Params
  import opened Blocks
  import L = LogMachine
  import C = Bcache
  import opened LogCache
  import opened LogRuns
  import opened LogFull
  import opened Lists

  // ---- An empty cache ----

  /** binit's ring, the other way round. */
  function EmptyBuf(k: int): C.Buf {
    C.Buf(false, C.Id(0, 0), false, 0, if k == 0 then C.HEAD else k - 1, if k == C.HEAD then 0 else k + 1, ZeroBlock())
  }

  ghost function EmptyCache(disk: map<C.Id, Block>): C.Cache {
    C.Cache(seq(NBUF + 1, k => EmptyBuf(k)), disk, seq(NBUF, k => k), seq(NBUF, _ => 0), seq(NBUF, _ => 0), disk)
  }

  lemma EmptyCacheInit(disk: map<C.Id, Block>)
    ensures C.Init(EmptyCache(disk))
  {
    var c := EmptyCache(disk);
    forall i | 0 <= i <= NBUF ensures C.Joined(c.bs, c.order, i) {}
  }

  ghost function Ids(): set<C.Id> {
    set b | 0 <= b < SMALL.size :: At(b)
  }

  ghost function BlankDisk(): map<C.Id, Block> {
    map id | id in Ids() :: ZeroBlock()
  }

  lemma BlankKeys(id: C.Id)
    ensures id in BlankDisk() <==> id.dev == DEV && IsBlock(SMALL, id.blockno)
    ensures id in BlankDisk() ==> BlankDisk()[id] == ZeroBlock()
  {
    if id.dev == DEV && IsBlock(SMALL, id.blockno) {
      assert At(id.blockno) == id;
    }
  }

  // ---- Reachable states ----

  ghost predicate Ends(r: LogRuns.Run, s: State) {
    LogRuns.ValidRun(SMALL, Blank(), r) && r.states[|r.states| - 1] == s
  }

  ghost predicate Reachable(s: State) {
    exists r :: Ends(r, s)
  }

  lemma Go(s: State, a: Action)
    requires Reachable(s) && Enabled(SMALL, s, a)
    ensures Reachable(Do(SMALL, s, a)) && Inv(SMALL, Blank(), s) && Inv(SMALL, Blank(), Do(SMALL, s, a))
  {
    hide Enabled, Do, Init, LogCache.Inv;
    var r :| Ends(r, s);
    var q := LogRuns.Run(r.states + [Do(SMALL, s, a)], r.actions + [a]);
    forall i | 0 <= i < |q.actions| ensures LogRuns.StepOf(SMALL, q.states[i], q.actions[i], q.states[i + 1]) {
      if i < |r.actions| {
        assert LogRuns.StepOf(SMALL, r.states[i], r.actions[i], r.states[i + 1]);
      }
    }
    assert Ends(q, Do(SMALL, s, a));
    LogRuns.RunInv(SMALL, Blank(), r, |r.states| - 1);
    LogRuns.RunInv(SMALL, Blank(), q, |q.states| - 1);
  }

  // ---- Filling the log ----

  /** Blocks 0 to k - 1 are logged, and nobody refers to a buffer but by a pin. */
  ghost predicate Filled(s: State, k: nat) {
    Logs(s, k) && forall j | C.IsBuf(j) :: Quiet(s, j, k)
  }

  ghost predicate Logs(s: State, k: nat) {
    && s.log.phase == L.Running && s.log.ops == {0, 1, 2} == s.log.issued.Keys
    && s.log.lh == seq(k, i => i) && s.log.charges == Spend(k)
    && |s.log.disk| == |s.log.view| == SMALL.size
    && s.dirty == map[] && !s.due && C.Shaped(s.cache) && s.cache.disk == BlankDisk()
  }

  /** The same with block k in buffer b, locked and filled. */
  ghost predicate Holding(s: State, n: nat, k: nat, b: int) {
    && Logs(s, n) && C.IsBuf(b) && (forall j | C.IsBuf(j) && j != b :: Quiet(s, j, k))
    && s.cache.uses[b] == 1 && s.cache.bs[b].locked && s.cache.bs[b].valid
    && s.cache.bs[b].id == At(k) && s.cache.bs[b].data == ZeroBlock()
  }

  predicate Quiet(s: State, j: int, k: nat)
    requires C.Shaped(s.cache) && C.IsBuf(j)
  {
    && s.cache.uses[j] == 0 && !s.cache.bs[j].locked
    && (C.Assigned(s.cache.bs[j]) ==> s.cache.bs[j].id.dev == DEV && 0 <= s.cache.bs[j].id.blockno < k)
  }

  ghost function Booted(): State {
    State(L.State(Blank(), Blank(), [], false, {}, {}, L.Running, [], 0, map[], {}, {}), EmptyCache(BlankDisk()), map[], false)
  }

  lemma BootedInit()
    ensures LogRuns.Init(SMALL, Blank(), Booted())
  {
    hide C.Linked, BlankDisk;
    EmptyCacheInit(BlankDisk());
    var s := Booted();
    forall id ensures id in s.cache.disk <==> id.dev == DEV && IsBlock(SMALL, id.blockno) {
      BlankKeys(id);
    }
    forall b | IsBlock(SMALL, b) ensures s.cache.disk[At(b)] == s.log.disk[b] {
      BlankKeys(At(b));
    }
  }

  lemma Start() returns (s: State)
    ensures Reachable(s) && Filled(s, 0)
  {
    hide Reachable, Begun, Filled, Booted;
    BootedReachable();
    s := BeginNext(Booted(), 0);
    s := BeginNext(s, 1);
    s := BeginNext(s, 2);
    BegunFilled(s);
  }

  lemma BegunFilled(s: State)
    requires Begun(s, 3)
    ensures Filled(s, 0)
  {
    hide BlankDisk;
    assert UpTo(3) == {0, 1, 2};
    assert Spend(0) == {};
  }

  /** Nothing logged, and operations 0 to n - 1 begun. */
  ghost predicate Begun(s: State, n: nat) {
    && s.log.phase == L.Running && !s.log.committing && s.log.ops == UpTo(n) == s.log.issued.Keys
    && s.log.lh == [] && s.log.charges == {} && |s.log.disk| == |s.log.view| == SMALL.size
    && s.dirty == map[] && !s.due && s.cache == EmptyCache(BlankDisk())
  }

  lemma BeginNext(s: State, n: nat) returns (t: State)
    requires Reachable(s) && Begun(s, n) && n < 3
    ensures Reachable(t) && Begun(t, n + 1)
  {
    hide LogCache.Inv, Reachable, EmptyCache, C.Enabled;
    assert C.Shaped(s.cache) by {
      ReachableInv(s);
      CacheInv(s);
    }
    Go(s, Begin(n));
    t := Do(SMALL, s, Begin(n));
  }

  lemma BootedReachable()
    ensures Reachable(Booted()) && Begun(Booted(), 0)
  {
    hide Init;
    BootedInit();
    assert Ends(LogRuns.Run([Booted()], []), Booted());
  }

  lemma Fetch(s: State, k: nat, b: int) returns (t: State)
    requires Reachable(s) && Filled(s, k) && k < LOGBLOCKS && C.IsBuf(b) && s.cache.bs[b].refcnt == 0
    ensures Reachable(t) && Holding(t, k, k, b)
  {
    hide LogCache.Inv, Reachable, C.InRange, BlankDisk;
    BlankKeys(At(k));
    forall j | C.IsBuf(j) ensures s.cache.bs[j].id != At(k) {
      assert Quiet(s, j, k);
    }
    assert Quiet(s, b, k);
    t := s;
    Go(t, Use(C.Recycle(b, At(k))));
    t := Do(SMALL, t, Use(C.Recycle(b, At(k))));
    Go(t, Use(C.Lock(b)));
    t := Do(SMALL, t, Use(C.Lock(b)));
    Go(t, Use(C.Fill(b)));
    t := Do(SMALL, t, Use(C.Fill(b)));
    forall j | C.IsBuf(j) && j != b ensures Quiet(t, j, k) {
      assert Quiet(s, j, k);
    }
  }

  lemma LogIt(s: State, k: nat, b: int) returns (t: State)
    requires Reachable(s) && Holding(s, k, k, b) && k < LOGBLOCKS
    ensures Reachable(t) && Holding(t, k + 1, k, b) && t.cache.pins[b] == 1
  {
    hide LogCache.Inv, Reachable, L.Enabled, Spend, BlankDisk;
    BlankKeys(At(k));
    CanLog(s.log, k);
    assert k !in s.log.lh;
    var a := LogWrite(k / MAXOPBLOCKS, b);
    Go(s, a);
    t := Do(SMALL, s, a);
    forall j | C.IsBuf(j) && j != b ensures Quiet(t, j, k) {
      assert Quiet(s, j, k);
    }
    NowPinned(t, k, b);
  }

  lemma NowPinned(s: State, k: nat, b: int)
    requires Holding(s, k + 1, k, b) && Inv(SMALL, Blank(), s)
    ensures s.cache.pins[b] == 1
  {
    hide L.Inv, C.Inv, Views, Disks, DirtyOK;
    assert PinOK(s, b);
    assert s.log.lh[k] == k;
  }

  lemma LetGo(s: State, k: nat, b: int) returns (t: State)
    requires Reachable(s) && Holding(s, k + 1, k, b) && k < LOGBLOCKS && s.cache.pins[b] == 1
    ensures Reachable(t) && Filled(t, k + 1)
  {
    hide LogCache.Inv, Reachable, C.InRange, C.ToFront, BlankDisk, C.Inv;
    BlankKeys(At(k));
    ReachableInv(s);
    UnlockAllowed(SMALL, Blank(), s, b);
    Go(s, Use(C.Unlock(b)));
    var u := Do(SMALL, s, Use(C.Unlock(b)));
    CacheInv(u);
    C.CanDrop(u.cache, b);
    CacheFacts(u.cache, b);
    Go(u, Use(C.Drop(b)));
    t := Do(SMALL, u, Use(C.Drop(b)));
    forall j | C.IsBuf(j) ensures Quiet(t, j, k + 1) {
      assert j != b ==> Quiet(s, j, k);
    }
  }

  lemma CacheInv(s: State)
    requires Inv(SMALL, Blank(), s)
    ensures C.Inv(s.cache)
  {
  }

  /** One more block is read, logged and released, and stays pinned. */
  lemma OneMore(s: State, k: nat) returns (t: State)
    requires Reachable(s) && Filled(s, k) && k < LOGBLOCKS
    ensures Reachable(t) && Filled(t, k + 1)
  {
    hide LogCache.Inv, Reachable, Holding;
    ReachableInv(s);
    FreeBufferIff(SMALL, Blank(), s);
    NoOthers(s, k);
    var b :| C.IsBuf(b) && s.cache.bs[b].refcnt == 0;
    t := Fetch(s, k, b);
    t := LogIt(t, k, b);
    t := LetGo(t, k, b);
  }

  lemma ReachableInv(s: State)
    requires Reachable(s)
    ensures Inv(SMALL, Blank(), s)
  {
    hide LogCache.Inv, Init, Enabled, Do;
    var r :| Ends(r, s);
    LogRuns.RunInv(SMALL, Blank(), r, |r.states| - 1);
  }

  lemma NoOthers(s: State, k: nat)
    requires Filled(s, k)
    ensures Others(s) == {}
  {
    forall j | C.IsBuf(j) ensures j !in Others(s) {
      assert Quiet(s, j, k);
    }
  }

  lemma {:induction false} FillCache(k: nat) returns (s: State)
    requires k <= LOGBLOCKS
    ensures Reachable(s) && Filled(s, k)
  {
    hide Reachable, Filled;
    if k == 0 {
      s := Start();
    } else {
      s := FillCache(k - 1);
      s := OneMore(s, k - 1);
    }
  }

  /** A reachable state at the start of a commit of LOGBLOCKS blocks in which bread of
      the first log block finds neither a buffer of it nor a free one: bget panics. */
  lemma FullLogCannotCommit() returns (s: State)
    ensures Reachable(s) && s.log.phase == L.WritingLog(0) && |s.log.lh| == LOGBLOCKS
    ensures C.Shaped(s.cache) && NoBuffer(s, SMALL.start + 1)
  {
    hide LogCache.Inv, Reachable, C.Enabled;
    var p := FillCache(LOGBLOCKS);
    NoOthers(p, LOGBLOCKS);
    s := EndAll(p);
    ReachableInv(s);
    forall j | 0 <= j < NBUF ensures p.cache.bs[j].id != At(SMALL.start + 1) {
      assert C.IsBuf(j) && Quiet(p, j, LOGBLOCKS);
    }
    BgetPanicsIff(SMALL, Blank(), s, SMALL.start + 1);
  }

  lemma EndAll(p: State) returns (s: State)
    requires Reachable(p) && Filled(p, LOGBLOCKS)
    ensures Reachable(s) && s.cache == p.cache
    ensures s.log.phase == L.WritingLog(0) && s.log.lh == p.log.lh && Others(p) == Others(s)
  {
    hide LogCache.Inv, Reachable, Spend, C.Enabled;
    Go(p, End(0));
    s := Do(SMALL, p, End(0));
    assert s.log.ops == {1, 2};
    Go(s, End(1));
    s := Do(SMALL, s, End(1));
    assert s.log.ops == {2};
    Go(s, End(2));
    s := Do(SMALL, s, End(2));
  }
}
