/** kernel/log.c as code over the machine of LogMachine.

    The object holds the fields of struct log, the cached blocks and the disk.
    Its ghost run records one machine action for every atomic event the code
    causes, so each method is proved to be a run of the machine, and what the
    machine guarantees at every state holds between any two disk writes. */
module Log {
  import opened Params
  import opened Blocks
  import opened Lists
  import opened LogMachine
  import LogCache

  /** The disk writes of one commit of `n` blocks, in order: up to the header, and after. */
  function LogWrites(n: nat): seq<Action> {
    seq(n, _ => WriteLogBlock) + [WriteHeader]
  }

  function HomeWrites(n: nat): seq<Action> {
    seq(n, _ => InstallBlock) + [ClearHeader]
  }

  function CommitWrites(n: nat): seq<Action> {
    if n == 0 then [] else LogWrites(n) + HomeWrites(n)
  }

  /** The same with what encloses them. */
  function CommitActions(op: OpId, n: nat): seq<Action> {
    [End(op)] + CommitWrites(n) + [FinishCommit]
  }

  /** The buffers pinned when a commit of n blocks makes its j-th bread, which is the one
      before its j-th disk write: all until the header is written, then fewer and fewer. */
  function Held(n: nat, j: nat): int {
    if j <= n then n else n - (j - n - 1)
  }

  /** bget finds a buffer for the j-th bread, where others(j) unpinned buffers are in use
      by other processes. */
  predicate Finds(n: nat, others: nat -> nat, j: nat) {
    Held(n, j) + others(j) < NBUF
  }

  /** The first `done` breads of a commit that goes on to `all` are served, and bget
      panics at the next. */
  ghost predicate Served(n: nat, others: nat -> nat, done: nat, all: nat) {
    done <= all && (forall j | 0 <= j < done :: Finds(n, others, j)) && (done < all ==> !Finds(n, others, done))
  }

  class RedoLog {
    const start: nat
    var n: nat
    var block: array<int>
    var outstanding: nat
    var committing: bool
    var view: seq<Block>
    var disk: seq<Block>
    /** The blocks whose buffers bpin holds in the cache. */
    var pinned: set<int>

    ghost const g: Geometry
    ghost const base: Disk
    ghost var run: Run

    ghost predicate Valid()
      reads this, block
    {
      && block.Length == LOGBLOCKS && n <= LOGBLOCKS
      && g.start == start && g.Valid() && |view| == |disk| == g.size
      && |run.states| > 0 && ValidRun(g, base, run)
      && Agrees(run.Last())
      && outstanding == |run.Last().ops|
      && committing == run.Last().committing
    }

    /** The fields hold what the machine state says. */
    ghost predicate Agrees(m: State)
      reads this, block
      requires block.Length == LOGBLOCKS && n <= LOGBLOCKS
    {
      && m.disk == disk && m.view == view && m.lh == block[..n]
      && (m.phase.Installing? ==> m.phase.tail <= |m.lh|) && pinned == Elems(LogCache.Pending(m, false))
    }

    constructor (g: Geometry, image: seq<Block>)
      requires g.Valid() && |image| == g.size && image[g.start][0] == 0
      ensures Valid() && fresh(block)
      ensures this.g == g && base == image
      ensures run.Last().phase == Running && outstanding == 0 && n == 0
      ensures view == image && disk == image
    {
      start := g.start;
      n, outstanding, committing := 0, 0, false;
      block := new int[LOGBLOCKS](_ => 0);
      view, disk, pinned := image, image, {};
      this.g, base := g, image;
      run := Run([State(image, image, [], false, {}, {}, Running, [], 0, map[], {}, {})], []);
    }

    /** Records that action `a` has happened. */
    ghost method Record(a: Action)
      requires |run.states| > 0 && ValidRun(g, base, run) && Enabled(g, run.Last(), a)
      modifies `run
      ensures run == Run(old(run).states + [Do(g, old(run).Last(), a)], old(run).actions + [a])
      ensures ValidRun(g, base, run) && run.Last() == Do(g, old(run).Last(), a)
    {
      hide Do, Enabled;
      run := Run(run.states + [Do(g, run.Last(), a)], run.actions + [a]);
    }

    /** write_head: copy the in-memory header into its block and write it. */
    method WriteHead()
      requires block.Length == LOGBLOCKS && n <= LOGBLOCKS && start < |view| == |disk|
      modifies `view, `disk
      ensures view == old(view)[start := PutHead(old(view)[start], block[..n])]
      ensures disk == old(disk)[start := PutHead(old(view)[start], block[..n])]
      ensures disk[start] == view[start] && disk[start][0] == n
      ensures forall j | 1 <= j <= n :: disk[start][j] == block[j - 1]
      ensures forall j | n < j < NINDIRECT :: disk[start][j] == old(view)[start][j]
    {
      var hb: seq<int> := view[start][0 := n];
      for i := 0 to n
        invariant hb == [n] + block[..i] + old(view)[start][1 + i..]
      {
        hb := hb[1 + i := block[i]];
        assert block[..i + 1] == block[..i] + [block[i]];
      }
      view := view[start := hb];
      disk := disk[start := hb];
    }

    /** read_head: load the block numbers a header lists. */
    method LoadHead(hb: Block)
      requires block.Length == LOGBLOCKS && 0 <= hb[0] <= LOGBLOCKS
      modifies `n, block
      ensures n <= LOGBLOCKS && block[..n] == HeadBlocks(hb)
      ensures n == hb[0] && forall j | 1 <= j <= n :: block[j - 1] == hb[j]
    {
      n := hb[0];
      for i := 0 to n
        invariant n == hb[0]
        invariant block[..i] == hb[1..1 + i]
      {
        block[i] := hb[1 + i];
        assert block[..i + 1] == hb[1..1 + i] + [hb[1 + i]];
      }
    }

    method ReadHead()
      requires Valid() && run.Last().phase == Rebooting
      modifies `n, `run, block
      ensures Valid()
      ensures run.actions == old(run).actions + [ReadHeader] && old(run).states <= run.states
      ensures run.Last() == Do(g, old(run).Last(), ReadHeader)
      ensures n == disk[start][0] && forall j | 1 <= j <= n :: block[j - 1] == disk[start][j]
      ensures view == disk && block[..n] == HeadBlocks(disk[start]) && run.Last().phase == Installing(0, true)
    {
      hide Inv, StepOf, ValidRun, HeadBlocks, DistinctHomes;
      Ready(g, base, run);
      LoadHead(view[start]);
      Record(ReadHeader);
    }

    /** Copies one cached block over another and writes the latter to disk. */
    method CopyAndWrite(to: nat, from: nat)
      requires to < |view| == |disk| && from < |view|
      modifies `view, `disk
      ensures view == old(view)[to := old(view)[from]]
      ensures disk == old(disk)[to := old(view)[from]]
    {
      view := view[to := view[from]];
      disk := disk[to := view[to]];
    }

    /** One iteration of write_log. */
    method WriteOne(tail: nat)
      requires Valid() && run.Last().phase == WritingLog(tail) && tail < n
      modifies `view, `disk, `run
      ensures Valid()
      ensures run.actions == old(run).actions + [WriteLogBlock] && old(run).states <= run.states
      ensures run.Last().phase == WritingLog(tail + 1) && run.Last().ops == old(run).Last().ops
    {
      hide Inv, StepOf, ValidRun, Elems, HeadBlocks, DistinctHomes;
      Ready(g, base, run);
      assert run.Last().lh[tail] == block[tail];
      CopyAndWrite(start + tail + 1, block[tail]);
      Record(WriteLogBlock);
    }

    /** write_log: one cached block after another goes to the log area, until bread of a
        log block finds no buffer beside the pinned ones and those of others. */
    method WriteLog(others: nat -> nat) returns (done: nat)
      requires Valid() && run.Last().phase == WritingLog(0)
      modifies `view, `disk, `run
      ensures Valid() && Served(n, others, done, n)
      ensures run.actions == old(run).actions + seq(done, _ => WriteLogBlock) && old(run).states <= run.states
      ensures run.Last().phase == WritingLog(done) && run.Last().ops == old(run).Last().ops
    {
      hide Inv, StepOf, ValidRun, Elems, Do, Enabled, HeadBlocks, DistinctHomes;
      PinnedSize();
      for tail := 0 to n
        invariant Valid() && Served(n, others, tail, tail)
        invariant run.actions == old(run).actions + seq(tail, _ => WriteLogBlock)
        invariant old(run).states <= run.states
        invariant run.Last().phase == WritingLog(tail) && run.Last().ops == old(run).Last().ops
      {
        if |pinned| + others(tail) >= NBUF {
          return tail;
        }
        WriteOne(tail);
      }
      done := n;
    }

    /** Every listed block that is not yet installed is pinned, once. */
    lemma PinnedSize()
      requires Valid()
      ensures var phase := run.Last().phase;
              |pinned| == if !phase.Installing? then n else if phase.recovering then 0 else n - phase.tail
    {
      hide Inv, StepOf, ValidRun, Elems;
      Ready(g, base, run);
      ElemsSize(LogCache.Pending(run.Last(), false));
    }

    /** One iteration of install_trans, with bunpin after a commit. */
    method InstallOne(tail: nat, recovering: bool)
      requires Valid() && run.Last().phase == Installing(tail, recovering) && tail < n
      modifies `view, `disk, `pinned, `run
      ensures Valid()
      ensures run.actions == old(run).actions + [InstallBlock] && old(run).states <= run.states
      ensures run.Last().phase == Installing(tail + 1, recovering) && run.Last().ops == old(run).Last().ops
      ensures 0 <= block[tail] < g.size
      ensures view == old(view)[block[tail] := old(view)[start + tail + 1]]
      ensures disk == old(disk)[block[tail] := old(view)[start + tail + 1]]
    {
      hide Inv, StepOf, ValidRun, Elems, HeadBlocks, DistinctHomes, Do, Enabled, LogCache.Pending;
      Ready(g, base, run);
      InstallStep(g, run.Last());
      assert run.Last().lh[tail] == block[tail];
      CopyAndWrite(block[tail], start + tail + 1);
      if !recovering {
        pinned := pinned - {block[tail]};
      }
      Record(InstallBlock);
    }

    /** install_trans: copy logged blocks to their home locations, until bread of a log
        block finds no buffer; the home block is pinned in the cache.  A recovering log
        has the cache to itself. */
    method InstallTrans(recovering: bool, others: nat -> nat) returns (done: nat)
      requires Valid() && run.Last().phase == Installing(0, recovering)
      modifies `view, `disk, `pinned, `run
      ensures Valid() && done <= n
      ensures recovering ==> done == n
      ensures !recovering ==> forall j | n < j <= n + done :: Finds(n, others, j)
      ensures done < n ==> !Finds(n, others, n + 1 + done)
      ensures run.actions == old(run).actions + seq(done, _ => InstallBlock) && old(run).states <= run.states
      ensures run.Last().phase == Installing(done, recovering) && run.Last().ops == old(run).Last().ops
      ensures DistinctHomes(g, block[..n])
      ensures old(view == disk) ==> view == disk == Installed(g, old(disk), block[..n], done)
    {
      hide Inv, StepOf, ValidRun, Elems, HeadBlocks, DistinctHomes, Do, Enabled, Installed, LogCache.Pending;
      Ready(g, base, run);
      InstalledNone(g, disk, block[..n]);
      for tail := 0 to n
        invariant Valid() && DistinctHomes(g, block[..n])
        invariant !recovering ==> forall j | n < j <= n + tail :: Finds(n, others, j)
        invariant run.actions == old(run).actions + seq(tail, _ => InstallBlock)
        invariant old(run).states <= run.states
        invariant run.Last().phase == Installing(tail, recovering) && run.Last().ops == old(run).Last().ops
        invariant old(view == disk) ==> view == disk == Installed(g, old(disk), block[..n], tail)
      {
        PinnedSize();
        if !recovering && |pinned| + others(n + 1 + tail) >= NBUF {
          return tail;
        }
        InstalledNext(g, old(disk), block[..n], tail);
        InstallOne(tail, recovering);
      }
      done := n;
    }

    /** The part of commit and recovery that erases the transaction. */
    method EraseLog()
      requires Valid() && run.Last().phase.Installing? && run.Last().phase.tail == n
      modifies `n, `view, `disk, `run
      ensures Valid() && n == 0 && pinned == {}
      ensures view == old(view)[start := PutHead(old(view)[start], [])]
      ensures disk == old(disk)[start := PutHead(old(view)[start], [])]
      ensures run.actions == old(run).actions + [ClearHeader]
      ensures old(run).states <= run.states
      ensures run.Last().phase == (if old(run).Last().phase.recovering then Running else Finishing)
      ensures run.Last().ops == old(run).Last().ops
    {
      hide Inv, StepOf, ValidRun, Elems;
      Ready(g, base, run);
      NonePending(run.Last());
      NoElems();
      n := 0;
      WriteHead();
      assert block[..0] == [];
      Record(ClearHeader);
    }

    /** The header write that commits. */
    method PublishHeader()
      requires Valid() && run.Last().phase == WritingLog(n)
      modifies `view, `disk, `run
      ensures Valid()
      ensures run.actions == old(run).actions + [WriteHeader] && old(run).states <= run.states
      ensures run.Last().phase == Installing(0, false) && run.Last().ops == old(run).Last().ops
    {
      hide Inv, StepOf, ValidRun, Elems, HeadBlocks, DistinctHomes;
      Ready(g, base, run);
      WriteHead();
      Record(WriteHeader);
    }

    /** commit up to the header write. */
    method CommitLog(others: nat -> nat) returns (done: nat)
      requires Valid() && run.Last().phase == WritingLog(0)
      modifies `view, `disk, `run
      ensures Valid() && Served(n, others, done, n + 1)
      ensures run.actions == old(run).actions + LogWrites(n)[..done] && old(run).states <= run.states
      ensures run.Last().ops == old(run).Last().ops && (done == n + 1 ==> run.Last().phase == Installing(0, false))
    {
      hide Inv, StepOf, ValidRun, Elems, HeadBlocks, DistinctHomes, Do, Enabled, LogCache.Pending;
      done := WriteLog(others);
      assert LogWrites(n)[..done] == seq(done, _ => WriteLogBlock);
      if done < n {
        return;
      }
      PinnedSize();
      if |pinned| + others(n) >= NBUF {
        return;
      }
      PublishHeader();
      done := n + 1;
    }

    /** commit after the header write. */
    method CommitHome(others: nat -> nat) returns (done: nat)
      requires Valid() && run.Last().phase == Installing(0, false)
      modifies `n, `view, `disk, `pinned, `run
      ensures Valid() && done <= old(n) + 1
      ensures forall j | old(n) < j <= old(n) + done :: Finds(old(n), others, j)
      ensures done < old(n) + 1 ==> !Finds(old(n), others, old(n) + 1 + done)
      ensures run.actions == old(run).actions + HomeWrites(old(n))[..done] && old(run).states <= run.states
      ensures run.Last().ops == old(run).Last().ops
      ensures if done == old(n) + 1 then n == 0 && pinned == {} && run.Last().phase == Finishing else n == old(n)
    {
      hide Inv, StepOf, ValidRun, Elems, HeadBlocks, DistinctHomes, Do, Enabled, LogCache.Pending;
      done := InstallTrans(false, others);
      assert HomeWrites(n)[..done] == seq(done, _ => InstallBlock);
      if done < n {
        return;
      }
      PinnedSize();
      if |pinned| + others(n + 1 + done) >= NBUF {
        return;
      }
      EraseLog();
      done := done + 1;
    }

    /** commit, when something was logged: its first `done` disk writes, which are all of
        them or those before the first bread that finds no buffer. */
    method Commit(others: nat -> nat) returns (done: nat)
      requires Valid() && n > 0 && run.Last().phase == WritingLog(0)
      modifies `n, `view, `disk, `pinned, `run
      ensures Valid() && Served(old(n), others, done, |CommitWrites(old(n))|)
      ensures run.actions == old(run).actions + CommitWrites(old(n))[..done] && old(run).states <= run.states
      ensures run.Last().ops == old(run).Last().ops
      ensures if done == |CommitWrites(old(n))| then n == 0 && pinned == {} && run.Last().phase == Finishing else n == old(n)
    {
      hide Inv, StepOf, ValidRun, Elems, HeadBlocks, DistinctHomes, Do, Enabled, LogCache.Pending, Finds, LogWrites, HomeWrites, CommitWrites;
      done := CommitLog(others);
      CommitParts(n, done, 0);
      if done == n + 1 {
        var more := CommitHome(others);
        CommitParts(old(n), done, more);
        done := done + more;
      }
    }

    /** One pass of begin_op's loop; where it is not admitted the code sleeps. */
    method BeginOp(op: OpId) returns (admitted: bool)
      requires Valid() && op !in run.Last().issued
      requires run.Last().phase != Rebooting && !(run.Last().phase.Installing? && run.Last().phase.recovering)
      modifies `outstanding, `run
      ensures Valid()
      ensures admitted == (!committing && n + (old(outstanding) + 1) * MAXOPBLOCKS <= LOGBLOCKS)
      ensures admitted ==> run.actions == old(run).actions + [Begin(op)] && op in run.Last().ops
      ensures !admitted ==> run == old(run) && outstanding == old(outstanding)
    {
      hide Inv, StepOf, ValidRun, Elems;
      Ready(g, base, run);
      if committing {
        admitted := false;
      } else if n + (outstanding + 1) * MAXOPBLOCKS > LOGBLOCKS {
        admitted := false;
      } else {
        outstanding := outstanding + 1;
        Record(Begin(op));
        admitted := true;
      }
    }

    /** The search and the append of log_write, with bpin of a block that is new. */
    method Enter(b: int)
      requires n < LOGBLOCKS == block.Length
      modifies `n, `pinned, block
      ensures n <= LOGBLOCKS && block[..n] == old(if b in block[..n] then block[..n] else block[..n] + [b])
      ensures pinned == old(pinned) + old(if b in block[..n] then {} else {b})
    {
      var i := 0;
      while i < n && block[i] != b
        invariant i <= n && b !in block[..i]
      {
        i := i + 1;
      }
      assert i < n ==> block[..n][i] == b;
      block[i] := b;
      if i == n {
        pinned := pinned + {b};
        n := n + 1;
      }
    }

    /** log_write of new contents for block `b`; false where the code panics.
        With a budgeted caller it panics exactly on a full log. */
    method LogWrite(op: OpId, b: nat, data: Block) returns (ok: bool)
      requires Valid() && g.Home(b) && op in run.Last().ops
      requires |Charged(run.Last().charges + {(op, b)}, op)| <= MAXOPBLOCKS
      modifies `n, `view, `pinned, `run, block
      ensures Valid()
      ensures pinned == old(pinned) + (if ok then {b} else {})
      ensures ok <==> old(n) < LOGBLOCKS
      ensures old(b !in block[..n]) ==> ok
      ensures ok ==> run.actions == old(run).actions + [LogMachine.LogWrite(op, b, data)] && view == old(view)[b := data]
      ensures !ok ==> run == old(run) && view == old(view) && n == old(n)
    {
      hide Inv, StepOf, ValidRun, Elems, HeadBlocks, DistinctHomes, Do, Enabled, Charged, LogCache.Pending;
      Ready(g, base, run);
      SomeoneIn(run.Last().ops, op);
      if b !in block[..n] {
        AppendFits(g, base, run.Last(), op, b);
      }
      if n >= LOGBLOCKS || outstanding < 1 {
        return false;
      }
      LogWriteStep(g, run.Last(), op, b, data);
      view := view[b := data];
      Enter(b);
      Record(LogMachine.LogWrite(op, b, data));
      ok := true;
    }

    /** end_op: the last operation out commits, and every state its disk passes
        through is a state of the machine.  Not ok where the commit panics for want of
        a buffer, after `done` of its disk writes; `committing` stays set. */
    method EndOp(op: OpId, others: nat -> nat) returns (ok: bool, done: nat)
      requires Valid() && op in run.Last().ops
      modifies `n, `outstanding, `committing, `view, `disk, `pinned, `run
      ensures Valid()
      ensures outstanding == old(outstanding) - 1 && old(run).states <= run.states
      ensures outstanding > 0 ==> ok && run.actions == old(run).actions + [End(op)] && n == old(n)
      ensures outstanding == 0 ==> Served(old(n), others, done, |CommitWrites(old(n))|) && (ok <==> done == |CommitWrites(old(n))|)
      ensures ok ==> !committing && run.Last().phase == Running
      ensures ok && outstanding == 0 ==> run.actions == old(run).actions + CommitActions(op, old(n)) && n == 0
      ensures !ok ==> run.actions == old(run).actions + [End(op)] + CommitWrites(old(n))[..done] && committing && n == old(n)
    {
      hide Inv, StepOf, ValidRun, Elems, HeadBlocks, DistinctHomes, Do, Enabled, LogCache.Pending, CommitWrites;
      Leave(op);
      ok, done := true, 0;
      if committing {
        done := EndCommit(others);
        ok := !committing;
        assert [End(op)] + (CommitWrites(old(n)) + [FinishCommit]) == CommitActions(op, old(n));
      }
    }

    /** The part of end_op under the log's lock. */
    method Leave(ghost op: OpId)
      requires Valid() && op in run.Last().ops
      modifies `outstanding, `committing, `run
      ensures Valid() && outstanding == old(outstanding) - 1 && (committing <==> outstanding == 0)
      ensures run.actions == old(run).actions + [End(op)] && old(run).states <= run.states
      ensures run.Last().phase == (if outstanding > 0 then Running else if n > 0 then WritingLog(0) else Finishing)
    {
      hide Inv, StepOf, ValidRun, Elems, HeadBlocks, DistinctHomes;
      Ready(g, base, run);
      ghost var was := run.Last();
      outstanding := outstanding - 1;
      committing := outstanding == 0;
      assert outstanding == |was.ops - {op}|;
      Record(End(op));
    }

    /** The rest of end_op for the last operation out. */
    method EndCommit(others: nat -> nat) returns (done: nat)
      requires Valid() && outstanding == 0 && committing
      requires run.Last().phase == (if n > 0 then WritingLog(0) else Finishing)
      modifies `n, `committing, `view, `disk, `pinned, `run
      ensures Valid() && old(run).states <= run.states
      ensures Served(old(n), others, done, |CommitWrites(old(n))|)
      ensures committing <==> done < |CommitWrites(old(n))|
      ensures committing ==> run.actions == old(run).actions + CommitWrites(old(n))[..done] && n == old(n)
      ensures !committing ==> n == 0 && run.Last().phase == Running
      ensures !committing ==> run.actions == old(run).actions + CommitWrites(old(n)) + [FinishCommit]
    {
      hide Inv, StepOf, ValidRun, Elems, HeadBlocks, DistinctHomes, Do, Enabled, LogCache.Pending, Finds, LogWrites, HomeWrites;
      done := 0;
      if n > 0 {
        var all := 2 * n + 2;
        CommitParts(n, 0, 0);
        done := Commit(others);
        if done < all {
          return;
        }
        assert CommitWrites(old(n))[..done] == CommitWrites(old(n));
      }
      Reopen();
    }

    /** The commit is over. */
    method Reopen()
      requires Valid() && outstanding == 0 && run.Last().phase == Finishing
      modifies `committing, `run
      ensures Valid() && !committing && run.Last().phase == Running
      ensures run.actions == old(run).actions + [FinishCommit] && old(run).states <= run.states
    {
      hide Inv, StepOf, ValidRun, Elems, HeadBlocks, DistinctHomes;
      Ready(g, base, run);
      committing := false;
      Record(FinishCommit);
    }

    /** Power loss: memory is gone, the disk stays. */
    method Reboot()
      requires Valid()
      modifies `n, `outstanding, `committing, `view, `pinned, `run
      ensures Valid()
      ensures run.actions == old(run).actions + [Crash] && run.Last().phase == Rebooting
      ensures old(run).states <= run.states
    {
      hide Inv, StepOf, ValidRun, Elems;
      Ready(g, base, run);
      n, outstanding, committing, view, pinned := 0, 0, false, disk, {};
      Record(Crash);
      assert block[..0] == [];
      NoElems();
    }

    /** recover_from_log: afterwards the disk is what Recover says. */
    method RecoverFromLog()
      requires Valid() && run.Last().phase == Rebooting
      modifies `n, `view, `disk, `pinned, `run, block
      ensures Valid() && n == 0 && run.Last().phase == Running
      ensures HeaderOK(g, old(disk)) && disk == view == Recover(g, old(disk))
      ensures var was, head := old(disk), old(disk)[start];
              && 0 <= head[0] <= LOGBLOCKS && disk[start][0] == 0
              && (forall j | 1 <= j <= head[0] :: g.Home(head[j]) && disk[head[j]] == was[start + j])
              && (forall b | g.Home(b) && !Names(head, b) :: disk[b] == was[b])
      ensures old(run).states <= run.states
    {
      hide Inv, StepOf, ValidRun, Elems, Names, Do, Enabled, Recover, HeadBlocks, DistinctHomes, Init;
      ghost var was := disk;
      Ready(g, base, run);
      ReadHead();
      ReplayLog();
      RecoverWords(g, was);
    }

    /** recover_from_log once the header has been read. */
    method ReplayLog()
      requires Valid() && run.Last().phase == Installing(0, true) && view == disk
      requires HeaderOK(g, disk) && block[..n] == HeadBlocks(disk[start])
      modifies `n, `view, `disk, `pinned, `run
      ensures Valid() && n == 0 && run.Last().phase == Running
      ensures disk == view == Recover(g, old(disk)) && old(run).states <= run.states
    {
      hide Inv, StepOf, ValidRun, Elems, Do, Enabled, HeadBlocks, DistinctHomes, Installed, PutHead, LogCache.Pending;
      ghost var blocks := block[..n];
      var done := InstallTrans(true, _ => 0);
      EraseLog();
    }
  }

  /** What every method may rely on about the current machine state. */
  lemma Ready(g: Geometry, base: Disk, r: Run)
    requires |r.states| > 0 && ValidRun(g, base, r)
    ensures Inv(g, base, r.Last())
    ensures var s := r.Last();
            && g.Valid() && |s.disk| == |s.view| == g.size && |s.lh| <= LOGBLOCKS
            && (forall i | 0 <= i < |s.lh| :: 0 <= s.lh[i] < g.size)
            && s.durable <= |s.kept| && DistinctHomes(g, s.lh)
            && (s.phase == Rebooting ==> s.view == s.disk && HeaderOK(g, s.disk))
            && (s.ops != {} ==> s.phase == Running)
            && s.ops <= s.issued.Keys
            && (s.committing <==> s.phase.WritingLog? || s.phase == Finishing ||
                                  (s.phase.Installing? && !s.phase.recovering))
            && (s.phase.WritingLog? || s.phase.Installing? ==> s.phase.tail <= |s.lh|)
            && (s.phase == Rebooting ==> s.lh == [])
  {
    RunInv(g, base, r, |r.states| - 1);
    assert forall i | 0 <= i < |r.Last().lh| :: g.Home(r.Last().lh[i]);
  }

  lemma CommitParts(n: nat, done: nat, more: nat)
    requires n > 0 && done <= n + 1 && more <= n + 1
    ensures |LogWrites(n)| == |HomeWrites(n)| == n + 1 && |CommitWrites(n)| == 2 * n + 2
    ensures CommitWrites(n)[..done] == LogWrites(n)[..done] && LogWrites(n)[..n + 1] == LogWrites(n)
    ensures CommitWrites(n)[..n + 1 + more] == LogWrites(n) + HomeWrites(n)[..more]
  {
  }

  lemma NonePending(m: State)
    requires m.phase.Installing? && m.phase.tail == |m.lh|
    ensures Elems(LogCache.Pending(m, false)) == {}
  {
  }

  lemma NoElems()
    ensures Elems([]) == {}
  {
  }

  lemma Appended(lh: seq<int>, b: int)
    ensures Elems(lh + [b]) == Elems(lh) + {b} && (b in lh ==> Elems(lh) + {b} == Elems(lh))
  {
    var q := lh + [b];
    assert q[|lh|] == b;
    forall x | x in Elems(lh) ensures x in Elems(q) {
      var i :| 0 <= i < |lh| && lh[i] == x;
      assert q[i] == x;
    }
  }

  lemma SomeoneIn(ops: set<OpId>, op: OpId)
    requires op in ops
    ensures |ops| > 0
  {
  }

  lemma LogWriteStep(g: Geometry, s: State, op: OpId, b: nat, data: Block)
    requires g.Valid() && |s.disk| == |s.view| == g.size && DistinctHomes(g, s.lh)
    requires s.phase == Running && op in s.ops && op in s.issued && g.Home(b) && |s.lh| < LOGBLOCKS
    requires |Charged(s.charges + {(op, b)}, op)| <= MAXOPBLOCKS
    ensures Enabled(g, s, LogWrite(op, b, data))
    ensures var u := Do(g, s, LogWrite(op, b, data));
            && u.view == s.view[b := data] && u.disk == s.disk && u.lh == (if b in s.lh then s.lh else s.lh + [b])
            && u.ops == s.ops && u.committing == s.committing && u.phase == Running
            && Elems(LogCache.Pending(u, false)) == Elems(LogCache.Pending(s, false)) + {b}
            && (b in s.lh ==> Elems(LogCache.Pending(u, false)) == Elems(LogCache.Pending(s, false)))
  {
    Appended(s.lh, b);
    assert forall i | 0 <= i < |s.lh| :: g.Home(s.lh[i]);
  }

  lemma InstallStep(g: Geometry, s: State)
    requires g.Valid() && |s.disk| == |s.view| == g.size && DistinctHomes(g, s.lh)
    requires s.phase.Installing? && s.phase.tail < |s.lh|
    ensures Enabled(g, s, InstallBlock)
    ensures var t, r := s.phase.tail, s.phase.recovering;
            var u := Do(g, s, InstallBlock);
            && g.Home(s.lh[t])
            && u.view == s.view[s.lh[t] := s.view[g.start + t + 1]] && u.disk == s.disk[s.lh[t] := s.view[g.start + t + 1]]
            && u.lh == s.lh && u.ops == s.ops && u.committing == s.committing && u.phase == Installing(t + 1, r)
            && Elems(LogCache.Pending(u, false)) == Elems(LogCache.Pending(s, false)) - (if r then {} else {s.lh[t]})
  {
    Unpinned(s.lh, s.phase.tail);
  }

  lemma Unpinned(lh: seq<int>, tail: nat)
    requires Distinct(lh) && tail < |lh|
    ensures Elems(lh[tail + 1..]) == Elems(lh[tail..]) - {lh[tail]}
  {
    PopFront(lh[tail..]);
    assert lh[tail..][1..] == lh[tail + 1..];
  }

  /** Before its header write a commit leaves the cached home blocks alone. */
  lemma CommitKeepsView(g: Geometry, base: Disk, s: State, a: Action)
    requires Inv(g, base, s) && Enabled(g, s, a) && (a.End? || a == WriteLogBlock)
    ensures SameHomes(g, Do(g, s, a).view, s.view)
  {
  }

  lemma CommitAt(op: OpId, n: nat, j: int)
    requires n > 0 && 0 <= j < |CommitActions(op, n)|
    ensures var a := CommitActions(op, n)[j];
            && (a == WriteHeader <==> j == n + 1) && (j <= n ==> a.End? || a == WriteLogBlock)
  {
  }

  /** A crash at any point of an end_op that commits: up to the header write
      recovery brings back the old contents, after it the new ones. */
  lemma {:induction false} CommitIsAtomic(g: Geometry, base: Disk, r: Run, i: nat, op: OpId, n: nat, k: nat)
    requires ValidRun(g, base, r) && n > 0 && i < k <= i + |CommitActions(op, n)| <= |r.actions|
    requires r.actions[i..i + |CommitActions(op, n)|] == CommitActions(op, n)
    ensures Inv(g, base, r.states[i]) && Inv(g, base, r.states[k])
    ensures k <= i + n + 1 ==> SameHomes(g, Recover(g, r.states[k].disk), Recover(g, r.states[i].disk))
    ensures k <= i + n + 1 ==> SameHomes(g, r.states[k].view, r.states[i].view)
    ensures k > i + n + 1 ==> SameHomes(g, Recover(g, r.states[k].disk), r.states[i].view)
    decreases k
  {
    hide Inv, Do, Enabled, Recover, CommitActions, Init;
    RunInv(g, base, r, i);
    RunInv(g, base, r, k - 1);
    RecoveredMeaning(g, base, r.states[i]);
    RecoveredMeaning(g, base, r.states[k - 1]);
    var a := r.actions[k - 1];
    CommitAt(op, n, k - 1 - i);
    assert a == CommitActions(op, n)[k - 1 - i];
    assert StepOf(g, r.states[k - 1], a, r.states[k]);
    if k > i + 1 {
      CommitIsAtomic(g, base, r, i, op, n, k - 1);
    }
    RecoveredChangesOnlyAtHeader(g, base, r.states[k - 1], a);
    RecoveredMeaning(g, base, r.states[k]);
    if k <= i + n + 1 {
      CommitKeepsView(g, base, r.states[k - 1], a);
    }
  }
}
