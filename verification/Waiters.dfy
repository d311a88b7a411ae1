/** The users of sleep and wakeup: mailboxes, sleep locks, begin_op, pipes and
    kwait.  For each, what it changes under its lock and whom it wakes, and why
    that satisfies Wakeup.Honest. */
module Waiters {
  import opened Params
  import opened Wakeup
  import Mbox
  import Pipe
  import Procs

  // ---- kernel/mbox.c, for a created box ----

  datatype MboxWait = NotFull | NotEmpty

  predicate MboxReady(b: Mbox.Box, w: MboxWait) {
    if w.NotFull? then b.count != Mbox.MBOX_SIZE else b.count != 0
  }

  /** mbox_send or mbox_recv after its wait loop, then wakeup(m). */
  predicate MboxChange(b: Mbox.Box, to: Mbox.Box, wakes: set<int>) {
    && Mbox.Sound(b) && wakes == {0}
    && (|| (b.count != Mbox.MBOX_SIZE && |to.buf| == Mbox.MBOX_SIZE && to == Mbox.Put(b, to.buf[b.tail]))
        || (b.count != 0 && to == Mbox.Take(b)))
  }

  function MboxClient(): Client<Mbox.Box, MboxWait, int> {
    Client((b, w) => MboxReady(b, w), w => 0, (i, w) => true, (t, b, to, wakes, swept) => MboxChange(b, to, wakes),
           (b, to) => to == b, (b, to, freed) => true, w => false, (b, owed) => false)
  }

  lemma MboxHonest()
    ensures Honest(MboxClient())
  {
  }

  /** While a mailbox is unlocked, no sender sleeps if there is room and no
      receiver sleeps if there is a message. */
  lemma MboxNoLostWakeup(ss: seq<State<Mbox.Box, MboxWait, int>>, acts: seq<Action<Mbox.Box, MboxWait, int>>, n: nat, i: int)
    requires ValidRun(MboxClient(), ss, acts) && n < |ss| && ss[n].holder == -1 && Waits(ss[n], i)
    ensures if ss[n].pc[i].w.NotFull? then ss[n].c.count == Mbox.MBOX_SIZE else ss[n].c.count == 0
  {
    MboxHonest();
    LoyalWakes(MboxClient(), ss, acts, n);
    NoLostWakeup(MboxClient(), ss, acts, n, i);
  }

  // ---- kernel/sleeplock.c ----

  /** acquiresleep sets locked silently; releasesleep clears it and wakes. */
  predicate SleeplockChange(locked: bool, to: bool, wakes: set<int>) {
    || (!locked && to && wakes == {})
    || (!to && wakes == {0})
  }

  function SleeplockClient(): Client<bool, (), int> {
    Client((locked, w) => !locked, w => 0, (i, w) => true, (t, locked, to, wakes, swept) => SleeplockChange(locked, to, wakes),
           (locked, to) => to == locked, (c, to, freed) => true, w => false, (c, owed) => false)
  }

  lemma SleeplockHonest()
    ensures Honest(SleeplockClient())
  {
  }

  lemma SleeplockNoLostWakeup(ss: seq<State<bool, (), int>>, acts: seq<Action<bool, (), int>>, n: nat, i: int)
    requires ValidRun(SleeplockClient(), ss, acts) && n < |ss| && ss[n].holder == -1 && Waits(ss[n], i)
    ensures ss[n].c
  {
    SleeplockHonest();
    LoyalWakes(SleeplockClient(), ss, acts, n);
    NoLostWakeup(SleeplockClient(), ss, acts, n, i);
  }

  // ---- kernel/log.c ----

  datatype LogState = LogState(n: int, outstanding: int, committing: bool)

  /** begin_op stops waiting. */
  predicate Admits(l: LogState) {
    !l.committing && l.n + (l.outstanding + 1) * MAXOPBLOCKS <= LOGBLOCKS
  }

  predicate LogChange(l: LogState, to: LogState, wakes: set<int>) {
    // begin_op
    || (Admits(l) && to == l.(outstanding := l.outstanding + 1) && wakes == {})
    // log_write of a new block
    || (l.n < LOGBLOCKS && l.outstanding >= 1 && to == l.(n := l.n + 1) && wakes == {})
    // end_op, the last one or not
    || (l.outstanding == 1 && !l.committing && to == LogState(l.n, 0, true) && wakes == {})
    || (l.outstanding > 1 && !l.committing && to == l.(outstanding := l.outstanding - 1) && wakes == {0})
    // end_op after the commit
    || (l.committing && to == l.(committing := false) && wakes == {0})
  }

  function LogClient(): Client<LogState, (), int> {
    Client((l, w) => Admits(l), w => 0, (i, w) => true, (t, l, to, wakes, swept) => LogChange(l, to, wakes),
           // commit empties the header without the lock
           (l: LogState, to: LogState) => to == l || (l.committing && to == l.(n := 0)), (l, to, freed) => true, w => false, (l, owed) => false)
  }

  lemma LogHonest()
    ensures Honest(LogClient())
  {
  }

  lemma BeginOpNoLostWakeup(ss: seq<State<LogState, (), int>>, acts: seq<Action<LogState, (), int>>, n: nat, i: int)
    requires ValidRun(LogClient(), ss, acts) && n < |ss| && ss[n].holder == -1 && Waits(ss[n], i)
    ensures ss[n].c.committing || ss[n].c.n + (ss[n].c.outstanding + 1) * MAXOPBLOCKS > LOGBLOCKS
  {
    LogHonest();
    LoyalWakes(LogClient(), ss, acts, n);
    NoLostWakeup(LogClient(), ss, acts, n, i);
  }

  // ---- kernel/pipe.c ----

  datatype PipeState = PipeState(used: nat, readopen: bool, writeopen: bool)

  /** What pipewrite and piperead wait for; also their channels. */
  datatype PipeWait = ToWrite | ToRead

  predicate PipeReady(c: PipeState, w: PipeWait) {
    if w.ToWrite? then c.used != Pipe.PIPESIZE || !c.readopen else c.used != 0 || !c.writeopen
  }

  /** One byte in or out, or pipeclose, each followed by its wakeup. */
  predicate PipeChange(c: PipeState, to: PipeState, wakes: set<PipeWait>) {
    || (c.readopen && c.used < Pipe.PIPESIZE && to == c.(used := c.used + 1) && wakes == {ToRead})
    || (c.used > 0 && to == c.(used := c.used - 1) && wakes == {ToWrite})
    || (to == c.(writeopen := false) && wakes == {ToRead})
    || (to == c.(readopen := false) && wakes == {ToWrite})
  }

  /** pipewrite returns -1 as soon as it finds itself killed, also when it has put
      bytes in since its last wakeup.  Both ends are open then. */
  predicate PipeDeserts(c: PipeState, owed: set<PipeWait>) {
    c.readopen && c.writeopen && owed == {ToRead}
  }

  function PipeClient(): Client<PipeState, PipeWait, PipeWait> {
    Client((c, w) => PipeReady(c, w), w => w, (i, w) => true, (t, c, to, wakes, swept) => PipeChange(c, to, wakes),
           (c, to) => to == c, (c, to, freed) => true, w => true, (c, owed) => PipeDeserts(c, owed))
  }

  lemma PipeHonest()
    ensures Honest(PipeClient())
  {
  }

  /** Somebody sleeps, or is on the way to sleep, in piperead. */
  ghost predicate ReaderWaits(s: State<PipeState, PipeWait, PipeWait>) {
    exists i: int :: Waits(s, i) && s.pc[i].w == ToRead
  }

  /** No killed writer has returned in the first n steps while a reader slept over a
      byte. */
  ghost predicate NoKillOverReader(ss: seq<State<PipeState, PipeWait, PipeWait>>, acts: seq<Action<PipeState, PipeWait, PipeWait>>, n: nat)
    requires n <= |acts| < |ss|
  {
    forall m | 0 <= m < n && acts[m].Desert? :: !(ss[m].c.used > 0 && ReaderWaits(ss[m]))
  }

  lemma {:induction false} PipeHarmless(ss: seq<State<PipeState, PipeWait, PipeWait>>, acts: seq<Action<PipeState, PipeWait, PipeWait>>, n: nat)
    requires ValidRun(PipeClient(), ss, acts) && n < |ss| && NoKillOverReader(ss, acts, n)
    ensures AllHarmless(PipeClient(), ss, acts, n)
  {
    hide Do, Honest;
    if n > 0 {
      PipeHarmless(ss, acts, n - 1);
      PipeHonest();
      RunInv(PipeClient(), ss, acts, n - 1);
      assert Enabled(PipeClient(), ss[n - 1], acts[n - 1]);
      HarmlessReturn(ss[n - 1], acts[n - 1]);
    }
  }

  lemma HarmlessReturn(s: State<PipeState, PipeWait, PipeWait>, a: Action<PipeState, PipeWait, PipeWait>)
    requires Inv(PipeClient(), s) && Enabled(PipeClient(), s, a) && (a.Desert? ==> !(s.c.used > 0 && ReaderWaits(s)))
    ensures Harmless(PipeClient(), s, a)
  {
    hide Inv;
    if a.Desert? {
      forall i | Waits(s, i) ensures !PipeReady(s.c, s.pc[i].w) {
        if PipeReady(s.c, s.pc[i].w) {
          ReadyIsOwed(PipeClient(), s, i);
        }
      }
    }
  }

  /** In every run of a pipe, while it is unlocked no writer sleeps with room or no
      reader and no reader with bytes or no writer, at any state up to n, if and only if
      no killed writer has returned by then while a reader slept over a byte. */
  lemma PipeLostExactly(ss: seq<State<PipeState, PipeWait, PipeWait>>, acts: seq<Action<PipeState, PipeWait, PipeWait>>, n: nat)
    requires ValidRun(PipeClient(), ss, acts) && n < |ss|
    ensures NeverForgotten(PipeClient(), ss, n) <==> NoKillOverReader(ss, acts, n)
  {
    PipeHonest();
    assert n <= |acts| < |ss|;
    hide Honest, ValidRun;
    LostExactly(PipeClient(), ss, acts, n);
    if NoKillOverReader(ss, acts, n) {
      PipeHarmless(ss, acts, n);
    }
    if AllHarmless(PipeClient(), ss, acts, n) {
      forall m | 0 <= m < n && acts[m].Desert? ensures !(ss[m].c.used > 0 && ReaderWaits(ss[m])) {
        assert Harmless(PipeClient(), ss[m], acts[m]);
      }
    }
  }

  lemma PipeNoLostWakeup(ss: seq<State<PipeState, PipeWait, PipeWait>>, acts: seq<Action<PipeState, PipeWait, PipeWait>>, n: nat, i: int)
    requires ValidRun(PipeClient(), ss, acts) && n < |ss| && NoKillOverReader(ss, acts, n) && ss[n].holder == -1 && Waits(ss[n], i)
    ensures if ss[n].pc[i].w.ToWrite? then ss[n].c.used == Pipe.PIPESIZE && ss[n].c.readopen else ss[n].c.used == 0 && ss[n].c.writeopen
  {
    PipeLostExactly(ss, acts, n);
    assert !Forgotten(PipeClient(), ss[n], i);
  }

  /** Such a run: a reader sleeps, a writer puts a byte in, is killed and returns, and
      the reader sleeps on. */
  lemma KilledWriterLosesWakeup() returns (ss: seq<State<PipeState, PipeWait, PipeWait>>, acts: seq<Action<PipeState, PipeWait, PipeWait>>)
    ensures ss != [] && ValidRun(PipeClient(), ss, acts)
    ensures var s := ss[|ss| - 1]; s.holder == -1 && Waits(s, 0) && s.pc[0].w == ToRead && s.c == PipeState(1, true, true)
  {
    hide ValidRun;
    ss, acts := ReaderAsleep();
    var s5 := ss[|ss| - 1];
    var one := PipeState(1, true, true);
    var s6 := s5.(pc := [Asleep(ToRead), Holding], holder := 1, tested := false);
    var s7 := s6.(c := one, owed := {ToRead});
    var s8 := s7.(killed := {1});
    var s9 := s8.(pc := [Asleep(ToRead), Outside], holder := -1);
    ss, acts := Then(ss, acts, Acquire(1), s6);
    ss, acts := Then(ss, acts, Change(1, one, {ToRead}, {}), s7);
    ss, acts := Then(ss, acts, Kill(1), s8);
    ss, acts := Then(ss, acts, Desert(1), s9);
  }

  /** A writer of a full pipe is killed while it wakes the readers, after its test, and
      falls asleep. */
  lemma KilledDuringScan() returns (ss: seq<State<PipeState, PipeWait, PipeWait>>, acts: seq<Action<PipeState, PipeWait, PipeWait>>)
    ensures ss != [] && ValidRun(PipeClient(), ss, acts)
    ensures var s := ss[|ss| - 1]; s.pc == [Asleep(ToWrite)] && s.killed == {0} && s.late == {0}
  {
    var s0 := State(PipeState(Pipe.PIPESIZE, true, true), [Outside], -1, {}, {}, NoScan, false, {}, {});
    var s1 := s0.(pc := [Holding], holder := 0);
    var s2 := s1.(tested := true);
    var s3 := s2.(scan := Scan(ToRead, 0));
    var s4 := s3.(killed := {0}, late := {0});
    var s5 := s4.(scan := Scan(ToRead, 1));
    ss, acts := [s0], [];
    assert ValidRun(PipeClient(), ss, acts);
    hide ValidRun;
    ss, acts := Then(ss, acts, Acquire(0), s1);
    ss, acts := Then(ss, acts, Test(0), s2);
    ss, acts := Then(ss, acts, StartScan(0, ToRead), s3);
    ss, acts := Then(ss, acts, Kill(0), s4);
    ss, acts := Then(ss, acts, ScanOne(0), s5);
    ss, acts := ThenSleep(ss, acts, s5);
  }

  lemma ThenSleep(ss: seq<State<PipeState, PipeWait, PipeWait>>, acts: seq<Action<PipeState, PipeWait, PipeWait>>, s: State<PipeState, PipeWait, PipeWait>)
    returns (rr: seq<State<PipeState, PipeWait, PipeWait>>, more: seq<Action<PipeState, PipeWait, PipeWait>>)
    requires ss != [] && ValidRun(PipeClient(), ss, acts) && ss[|ss| - 1] == s
    requires s.c == PipeState(Pipe.PIPESIZE, true, true) && s.pc == [Holding] && s.holder == 0 && s.tested && s.owed == {}
    requires s.scan == Scan(ToRead, 1) && s.killed == {0} && s.late == {0}
    ensures rr != [] && ValidRun(PipeClient(), rr, more)
    ensures var u := rr[|rr| - 1]; u.pc == [Asleep(ToWrite)] && u.killed == {0} && u.late == {0}
  {
    hide ValidRun;
    var s6 := s.(scan := NoScan, swept := s.swept + {ToRead});
    var s7 := s6.(pc := [Decided(ToWrite)]);
    var s8 := s7.(pc := [Dozing(ToWrite)]);
    var s9 := s8.(pc := [Leaving(ToWrite)], holder := -1);
    rr, more := Then(ss, acts, EndScan(0), s6);
    rr, more := Then(rr, more, Decide(0, ToWrite), s7);
    rr, more := Then(rr, more, Doze(0), s8);
    rr, more := Then(rr, more, Leave(0), s9);
    rr, more := Then(rr, more, FallAsleep(0), s9.(pc := [Asleep(ToWrite)]));
  }

  lemma Then(ss: seq<State<PipeState, PipeWait, PipeWait>>, acts: seq<Action<PipeState, PipeWait, PipeWait>>,
             a: Action<PipeState, PipeWait, PipeWait>, u: State<PipeState, PipeWait, PipeWait>)
    returns (rr: seq<State<PipeState, PipeWait, PipeWait>>, more: seq<Action<PipeState, PipeWait, PipeWait>>)
    requires ss != [] && ValidRun(PipeClient(), ss, acts) && Enabled(PipeClient(), ss[|ss| - 1], a) && u == Do(PipeClient(), ss[|ss| - 1], a)
    ensures rr != [] && ValidRun(PipeClient(), rr, more) && rr[|rr| - 1] == u
  {
    Longer(PipeClient(), ss, acts, a, u);
    rr, more := ss + [u], acts + [a];
  }

  lemma ReaderAsleep() returns (ss: seq<State<PipeState, PipeWait, PipeWait>>, acts: seq<Action<PipeState, PipeWait, PipeWait>>)
    ensures ss != [] && ValidRun(PipeClient(), ss, acts)
    ensures ss[|ss| - 1] == State(PipeState(0, true, true), [Asleep(ToRead), Outside], -1, {}, {}, NoScan, true, {}, {})
  {
    var s0 := State(PipeState(0, true, true), [Outside, Outside], -1, {}, {}, NoScan, false, {}, {});
    var s1 := s0.(pc := [Holding, Outside], holder := 0);
    var s1' := s1.(tested := true);
    var s2 := s1'.(pc := [Decided(ToRead), Outside]);
    var s3 := s2.(pc := [Dozing(ToRead), Outside]);
    var s4 := s3.(pc := [Leaving(ToRead), Outside], holder := -1);
    ss, acts := [s0], [];
    assert ValidRun(PipeClient(), ss, acts);
    hide ValidRun;
    ss, acts := Then(ss, acts, Acquire(0), s1);
    ss, acts := Then(ss, acts, Test(0), s1');
    ss, acts := Then(ss, acts, Decide(0, ToRead), s2);
    ss, acts := Then(ss, acts, Doze(0), s3);
    ss, acts := Then(ss, acts, Leave(0), s4);
    ss, acts := Then(ss, acts, FallAsleep(0), s4.(pc := [Asleep(ToRead), Outside]));
  }

  // ---- kwait, kernel/proc.c ----

  predicate HasZombie(c: Procs.State, p: int) {
    exists k | 0 <= k < |c.proc| :: c.proc[k].parent == p && c.proc[k].state.Zombie?
  }

  predicate Childless(c: Procs.State, p: int) {
    forall k | 0 <= k < |c.proc| :: c.proc[k].parent != p
  }

  /** kwait(p) has something to return. */
  predicate WaitDone(c: Procs.State, p: int) {
    HasZombie(c, p) || Childless(c, p)
  }

  /** The steps of Procs that are taken without wait_lock. */
  predicate Unlocked(a: Procs.Action) {
    a.Alloc? || a.AllocFails? || a.Start? || a.LeaveCpu?
  }

  /** reparent wakes init for each child it passes on. */
  predicate PassesChild(c: Procs.State, a: Procs.Action)
    requires Procs.Enabled(c, a)
  {
    a.Reparent? && c.proc[c.pc[a.t].i].parent == a.t
  }

  /** A step of the machine of Procs by t, which holds wait_lock.  kexit has woken the
      parent before it becomes a zombie. */
  ghost predicate FamilyStep(t: int, c: Procs.State, to: Procs.State, wakes: set<int>, swept: set<int>, a: Procs.Action) {
    && Procs.Inv(c) && Procs.Enabled(c, a) && a.t == t && !Unlocked(a) && to == Procs.Do(c, a)
    && wakes == (if PassesChild(c, a) then {Procs.INIT} else {})
    && (a.ExitEnd? ==> c.proc[t].parent in swept)
  }

  ghost predicate FamilyChange(t: int, c: Procs.State, to: Procs.State, wakes: set<int>, swept: set<int>) {
    exists a :: FamilyStep(t, c, to, wakes, swept, a)
  }

  ghost predicate SilentStep(c: Procs.State, to: Procs.State, a: Procs.Action) {
    Procs.Inv(c) && Procs.Enabled(c, a) && Unlocked(a) && to == Procs.Do(c, a)
  }

  ghost predicate FamilySilent(c: Procs.State, to: Procs.State) {
    exists a :: SilentStep(c, to, a)
  }

  /** freeproc, of a zombie or of a child that fork gives up, clears killed. */
  ghost predicate FamilyFrees(c: Procs.State, to: Procs.State, freed: set<int>) {
    forall k :: k in freed <==> 0 <= k < |c.proc| && k < |to.proc| && !c.proc[k].state.Unused? && to.proc[k].state.Unused?
  }

  ghost function WaitClient(): Client<Procs.State, int, int> {
    Client((c, p) => WaitDone(c, p), p => p, (i, p) => i == p >= 0,
           (t, c, to, wakes, swept) => FamilyChange(t, c, to, wakes, swept), (c, to) => FamilySilent(c, to), (c, to, freed) => FamilyFrees(c, to, freed),
           w => true, (c, owed) => false)
  }

  /** A step of Procs changes the children of nobody but the process that takes it,
      of init where reparent passes one on, and of the parent of one that exits. */
  lemma ChildrenStep(c: Procs.State, a: Procs.Action, k: int, p: int)
    requires Procs.Inv(c) && Procs.Enabled(c, a) && 0 <= k < |c.proc| && p >= 0 && p != a.t
    requires PassesChild(c, a) ==> p != Procs.INIT
    requires a.ExitEnd? ==> p != c.proc[a.t].parent
    ensures var d := Procs.Do(c, a);
            && |d.proc| == |c.proc| && (d.proc[k].parent == p <==> c.proc[k].parent == p)
            && (c.proc[k].parent == p ==> (d.proc[k].state.Zombie? <==> c.proc[k].state.Zombie?))
  {
    hide Procs.Pids, Procs.OwnBabies;
    assert Procs.IsSlot(c, k) && Procs.ProcOK(c, k) && Procs.PcOK(c, a.t);
  }

  lemma SameWait(c: Procs.State, a: Procs.Action, p: int)
    requires Procs.Inv(c) && Procs.Enabled(c, a) && p >= 0 && (p != a.t || Unlocked(a))
    requires PassesChild(c, a) ==> p != Procs.INIT
    requires a.ExitEnd? ==> p != c.proc[a.t].parent
    ensures WaitDone(Procs.Do(c, a), p) ==> WaitDone(c, p)
  {
    hide Procs.Inv, Procs.Enabled, Procs.Do;
    Procs.SameSize(c, a);
    var d := Procs.Do(c, a);
    forall k | 0 <= k < |c.proc|
      ensures d.proc[k].parent == p <==> c.proc[k].parent == p
      ensures c.proc[k].parent == p ==> (d.proc[k].state.Zombie? <==> c.proc[k].state.Zombie?)
    {
      if p == a.t {
        OwnSilent(c, a, k);
      } else {
        ChildrenStep(c, a, k, p);
      }
    }
  }

  /** Without wait_lock nobody changes even its own children. */
  lemma OwnSilent(c: Procs.State, a: Procs.Action, k: int)
    requires Procs.Inv(c) && Procs.Enabled(c, a) && Unlocked(a) && 0 <= k < |c.proc| && a.t >= 0
    ensures var d := Procs.Do(c, a);
            && |d.proc| == |c.proc| && (d.proc[k].parent == a.t <==> c.proc[k].parent == a.t)
            && (c.proc[k].parent == a.t ==> (d.proc[k].state.Zombie? <==> c.proc[k].state.Zombie?))
  {
    hide Procs.Pids, Procs.OwnBabies;
    assert Procs.IsSlot(c, k) && Procs.ProcOK(c, k) && Procs.PcOK(c, a.t);
  }

  /** Whatever a step of fork, exit, reparent or wait makes true for another process
      in kwait is announced to it, exit's before it happens. */
  lemma FamilyAnnounced(t: int, c: Procs.State, to: Procs.State, wakes: set<int>, swept: set<int>, p: int)
    requires FamilyChange(t, c, to, wakes, swept) && p != t && p >= 0 && WaitDone(to, p)
    ensures WaitDone(c, p) || p in wakes + swept
  {
    hide Procs.Inv, Procs.Enabled, Procs.Do, WaitDone;
    var a :| FamilyStep(t, c, to, wakes, swept, a);
    if p !in wakes + swept {
      SameWait(c, a, p);
    }
  }

  lemma WaitHonest()
    ensures Honest(WaitClient())
  {
    hide WaitDone, FamilyStep;
    var cl := WaitClient();
    forall t, c, to, wakes, swept | cl.change(t, c, to, wakes, swept) ensures Announced(cl, t, c, to, wakes + swept) {
      forall i: int, p | i != t && cl.mayWait(i, p) && cl.sat(to, p) ensures cl.sat(c, p) || cl.chan(p) in wakes + swept {
        FamilyAnnounced(t, c, to, wakes, swept, p);
      }
    }
    forall c, to | cl.silent(c, to) ensures Announced(cl, -1, c, to, {}) {
      SilentAnnounced(c, to);
    }
  }

  lemma SilentAnnounced(c: Procs.State, to: Procs.State)
    requires FamilySilent(c, to)
    ensures forall p | p >= 0 && WaitDone(to, p) :: WaitDone(c, p)
  {
    hide Procs.Inv, Procs.Enabled, Procs.Do, WaitDone;
    var a :| SilentStep(c, to, a);
    forall p | p >= 0 && WaitDone(to, p) ensures WaitDone(c, p) {
      SameWait(c, a, p);
    }
  }

  /** From the state userinit leaves, every run keeps the invariant of Procs, so asking
      for it in FamilyStep excludes nothing. */
  lemma {:induction false} FamilyInv(ss: seq<State<Procs.State, int, int>>, acts: seq<Action<Procs.State, int, int>>, n: nat)
    requires ValidRun(WaitClient(), ss, acts) && n < |ss| && Procs.Init(ss[0].c)
    ensures Procs.Inv(ss[n].c)
  {
    hide Procs.Inv, Procs.Enabled, Procs.Do;
    if n == 0 {
      Procs.InitInv(ss[0].c);
    } else {
      FamilyInv(ss, acts, n - 1);
      var c, d := ss[n - 1].c, ss[n].c;
      assert Enabled(WaitClient(), ss[n - 1], acts[n - 1]);
      if acts[n - 1].Change? {
        var a :| FamilyStep(acts[n - 1].t, c, d, acts[n - 1].wakes, ss[n - 1].swept, a);
        Procs.InvStep(c, a);
      } else if acts[n - 1].Silent? {
        var a :| SilentStep(c, d, a);
        Procs.InvStep(c, a);
      }
    }
  }

  /** While wait_lock is free, a process that sleeps in kwait has children and none of
      them is a zombie; and it has been killed only if the kill came after kwait's
      test. */
  lemma WaitNoLostWakeup(ss: seq<State<Procs.State, int, int>>, acts: seq<Action<Procs.State, int, int>>, n: nat, p: int)
    requires ValidRun(WaitClient(), ss, acts) && n < |ss| && ss[n].holder == -1 && Waits(ss[n], p)
    ensures ss[n].pc[p].w == p
    ensures forall k | 0 <= k < |ss[n].c.proc| :: !(ss[n].c.proc[k].parent == p && ss[n].c.proc[k].state.Zombie?)
    ensures exists k | 0 <= k < |ss[n].c.proc| :: ss[n].c.proc[k].parent == p
    ensures p in ss[n].killed <==> p in ss[n].late
  {
    hide FamilyChange, FamilySilent;
    WaitHonest();
    LoyalWakes(WaitClient(), ss, acts, n);
    NoLostWakeup(WaitClient(), ss, acts, n, p);
    RunInv(WaitClient(), ss, acts, n);
    assert WaitsRightly(WaitClient(), ss[n], p);
    KilledSleeper(WaitClient(), ss, acts, n, p);
  }

  /** The tests before each sleep, on the fields the code looks at, who may sleep and
      who tests killed before. */
  lemma SleepTests(b: Mbox.Box, locked: bool, l: LogState, c: PipeState, f: Procs.State, p: int)
    ensures MboxClient().sat(b, NotFull) <==> b.count != 16
    ensures MboxClient().sat(b, NotEmpty) <==> b.count != 0
    ensures SleeplockClient().sat(locked, ()) <==> !locked
    ensures LogClient().sat(l, ()) <==> !l.committing && l.n + (l.outstanding + 1) * 10 <= 30
    ensures LogClient().silent(l, l.(n := 0)) <==> l.committing || l.n == 0
    ensures PipeClient().sat(c, ToWrite) <==> c.used != 512 || !c.readopen
    ensures PipeClient().sat(c, ToRead) <==> c.used != 0 || !c.writeopen
    ensures WaitClient().sat(f, p) <==>
              || (exists k | 0 <= k < |f.proc| :: f.proc[k].parent == p && f.proc[k].state.Zombie?)
              || (forall k | 0 <= k < |f.proc| :: f.proc[k].parent != p)
    ensures MboxClient().mayWait(p, NotFull) && MboxClient().mayWait(p, NotEmpty) && SleeplockClient().mayWait(p, ()) && LogClient().mayWait(p, ())
    ensures PipeClient().mayWait(p, ToWrite) && PipeClient().mayWait(p, ToRead) && (WaitClient().mayWait(p, p) <==> p >= 0)
    ensures !MboxClient().heeds(NotFull) && !MboxClient().heeds(NotEmpty) && !SleeplockClient().heeds(()) && !LogClient().heeds(())
    ensures PipeClient().heeds(ToWrite) && PipeClient().heeds(ToRead) && WaitClient().heeds(p)
  {
  }

  /** A slot that a step of the run frees is not killed afterwards: the process that
      gets it next starts out alive. */
  lemma FreedNotKilled(ss: seq<State<Procs.State, int, int>>, acts: seq<Action<Procs.State, int, int>>, n: nat, k: int)
    requires ValidRun(WaitClient(), ss, acts) && n < |acts|
    requires 0 <= k < |ss[n].c.proc| && k < |ss[n + 1].c.proc|
    requires !ss[n].c.proc[k].state.Unused? && ss[n + 1].c.proc[k].state.Unused?
    ensures k !in ss[n + 1].killed && k !in ss[n + 1].late
  {
    hide FamilyChange, FamilySilent;
    assert Enabled(WaitClient(), ss[n], acts[n]) && ss[n + 1] == Do(WaitClient(), ss[n], acts[n]);
  }
}
