/** sleep and wakeup, kernel/proc.c, for any use of them: threads, a condition
    lock, and a client that says what the waiting is about.

    A thread in sleep takes its p->lock, then gives up the condition lock, then
    becomes SLEEPING and gives up p->lock in the scheduler.  wakeup goes through
    the process table, taking one p->lock at a time while it holds the condition
    lock.  Each of these is a step of its own. */
module Wakeup {
  /** C is what the condition lock protects, W the conditions waited for. */
  datatype Client<!C, !W, !Ch> = Client(
    sat: (C, W) -> bool,
    chan: W -> Ch,
    /** thread i may wait for w */
    mayWait: (int, W) -> bool,
    /** thread t, holding the lock and having woken the channels of the last
        argument, may change C and then wakes the channels of the next to last
        before it lets go of the lock */
    change: (int, C, C, set<Ch>, set<Ch>) -> bool,
    /** C may change without the lock */
    silent: (C, C) -> bool,
    /** a change may free the slots of these threads, and with it their killed flags */
    frees: (C, C, set<int>) -> bool,
    /** the waiter tests killed(p) before it sleeps */
    heeds: W -> bool,
    /** a killed thread may let go of the lock owing wakeups of these channels */
    deserts: (C, set<Ch>) -> bool)

  datatype Pc<W> =
    | Outside
    | Holding        // has the condition lock
    | Decided(w: W)  // the same, has made its tests and calls sleep
    | Dozing(w: W)   // in sleep: has both locks
    | Leaving(w: W)  // in sleep: has p->lock only
    | Asleep(w: W)
    | Woken          // RUNNABLE, to take the condition lock again

  datatype Scan<Ch> = NoScan | Scan(ch: Ch, i: nat)

  /** While the lock is held, `owed` are channels still to be woken and `swept`
      those woken already, and `tested` says that the holder has found itself not
      killed.  `late` are the threads killed after that test and before sleep took
      their p->lock. */
  datatype State<C, W, Ch> = State(c: C, pc: seq<Pc<W>>, holder: int, owed: set<Ch>, swept: set<Ch>, scan: Scan<Ch>,
                                   tested: bool, killed: set<int>, late: set<int>)

  datatype Action<C, W, Ch> =
    | Acquire(t: int)
    | Test(t: int)          // killed(p) says no
    | Decide(t: int, w: W)
    | Doze(t: int)
    | Leave(t: int)
    | FallAsleep(t: int)
    | Kill(t: int)          // kkill of thread t, under its p->lock
    | Change(t: int, to: C, wakes: set<Ch>, freed: set<int>)
    | Silent(to: C, freed: set<int>)
    | StartScan(t: int, ch: Ch)
    | ScanOne(t: int)
    | EndScan(t: int)
    | Release(t: int)
    | Desert(t: int)        // killed(p) says yes, and t returns

  predicate IsThread<C, W, Ch>(s: State<C, W, Ch>, t: int) {
    0 <= t < |s.pc|
  }

  predicate Working<C, W, Ch>(s: State<C, W, Ch>, t: int) {
    IsThread(s, t) && s.holder == t && s.pc[t].Holding?
  }

  /** Thread i has decided to sleep and given up the condition lock. */
  predicate Waits<C, W, Ch>(s: State<C, W, Ch>, i: int) {
    IsThread(s, i) && (s.pc[i].Leaving? || s.pc[i].Asleep?)
  }

  predicate Enabled<C, W(==), Ch(==)>(cl: Client<C, W, Ch>, s: State<C, W, Ch>, a: Action<C, W, Ch>) {
    match a
    case Acquire(t) => IsThread(s, t) && s.holder == -1 && (s.pc[t].Outside? || s.pc[t].Woken?)
    case Test(t) => Working(s, t) && s.scan.NoScan? && t !in s.killed
    case Decide(t, w) =>
      && Working(s, t) && s.scan.NoScan? && s.owed == {} && cl.mayWait(t, w) && !cl.sat(s.c, w)
      && (cl.heeds(w) ==> s.tested)
    case Doze(t) => IsThread(s, t) && s.holder == t && s.pc[t].Decided?
    case Leave(t) => IsThread(s, t) && s.holder == t && s.pc[t].Dozing?
    case FallAsleep(t) => IsThread(s, t) && s.pc[t].Leaving?
    case Kill(t) => IsThread(s, t) && !s.pc[t].Dozing? && !s.pc[t].Leaving?
    case Change(t, to, wakes, freed) =>
      Working(s, t) && s.scan.NoScan? && cl.change(t, s.c, to, wakes, s.swept) && cl.frees(s.c, to, freed)
    case Silent(to, freed) => cl.silent(s.c, to) && cl.frees(s.c, to, freed)
    case StartScan(t, ch) => Working(s, t) && s.scan.NoScan?
    case ScanOne(t) =>  // needs the p->lock of the process it looks at
      Working(s, t) && s.scan.Scan? && s.scan.i < |s.pc| && (s.scan.i == t || !s.pc[s.scan.i].Leaving?)
    case EndScan(t) => Working(s, t) && s.scan.Scan? && s.scan.i == |s.pc|
    case Release(t) => Working(s, t) && s.scan.NoScan? && s.owed == {}
    case Desert(t) => Working(s, t) && s.scan.NoScan? && s.owed != {} && cl.deserts(s.c, s.owed) && t in s.killed
  }

  function Do<C, W(==), Ch(==)>(cl: Client<C, W, Ch>, s: State<C, W, Ch>, a: Action<C, W, Ch>): State<C, W, Ch>
    requires Enabled(cl, s, a)
  {
    match a
    case Acquire(t) => s.(pc := s.pc[t := Holding], holder := t, owed := {}, swept := {}, tested := false)
    case Test(t) => s.(tested := true, late := s.late - {t})
    case Decide(t, w) => s.(pc := s.pc[t := Decided(w)])
    case Doze(t) => s.(pc := s.pc[t := Dozing(s.pc[t].w)])
    case Leave(t) => s.(pc := s.pc[t := Leaving(s.pc[t].w)], holder := -1)
    case FallAsleep(t) => s.(pc := s.pc[t := Asleep(s.pc[t].w)])
    case Kill(t) =>
      s.(pc := if s.pc[t].Asleep? then s.pc[t := Woken] else s.pc,
         killed := s.killed + {t},
         late := if s.pc[t].Decided? || (Working(s, t) && s.tested) then s.late + {t} else s.late)
    case Change(t, to, wakes, freed) =>
      s.(c := to, owed := s.owed + wakes, tested := false, killed := s.killed - freed, late := s.late - freed)
    case Silent(to, freed) => s.(c := to, killed := s.killed - freed, late := s.late - freed)
    case StartScan(t, ch) => s.(scan := Scan(ch, 0))
    case ScanOne(t) =>
      var i := s.scan.i;
      var hit := i != t && s.pc[i].Asleep? && cl.chan(s.pc[i].w) == s.scan.ch;
      s.(pc := if hit then s.pc[i := Woken] else s.pc, scan := Scan(s.scan.ch, i + 1))
    case EndScan(t) => s.(scan := NoScan, owed := s.owed - {s.scan.ch}, swept := s.swept + {s.scan.ch})
    case Release(t) => s.(pc := s.pc[t := Outside], holder := -1)
    case Desert(t) => s.(pc := s.pc[t := Outside], holder := -1)
  }

  /** What a client owes: a change that makes somebody else's condition true is
      followed, or preceded under the same lock, by a wakeup of its channel. */
  ghost predicate Honest<C(!new), W(!new), Ch(!new)>(cl: Client<C, W, Ch>) {
    && (forall t, c, to, wakes, swept | cl.change(t, c, to, wakes, swept) :: Announced(cl, t, c, to, wakes + swept))
    && (forall c, to | cl.silent(c, to) :: Announced(cl, -1, c, to, {}))
  }

  ghost predicate Announced<C, W(!new), Ch>(cl: Client<C, W, Ch>, t: int, c: C, to: C, chs: set<Ch>) {
    forall i: int, w | i != t && cl.mayWait(i, w) && cl.sat(to, w) :: cl.sat(c, w) || cl.chan(w) in chs
  }

  /** Thread has decided to sleep and still has the condition lock. */
  predicate InSleep<W>(pc: Pc<W>) {
    pc.Decided? || pc.Dozing?
  }

  /** One waiting thread: if its condition holds, the lock is held and a wakeup of
      its channel is still to come; a finished wakeup has left nobody behind. */
  predicate WaitsRightly<C, W, Ch>(cl: Client<C, W, Ch>, s: State<C, W, Ch>, i: int)
    requires Waits(s, i)
  {
    var w := s.pc[i].w;
    && cl.mayWait(i, w) && i != s.holder
    && (cl.sat(s.c, w) ==> s.holder != -1 && cl.chan(w) in s.owed)
    && (s.holder != -1 ==> cl.chan(w) !in s.swept)
    && (s.holder != -1 && s.scan.Scan? && cl.chan(w) == s.scan.ch ==> s.scan.i <= i)
  }

  ghost predicate Inv<C, W, Ch>(cl: Client<C, W, Ch>, s: State<C, W, Ch>) {
    && -1 <= s.holder < |s.pc|
    && (forall t | IsThread(s, t) :: (s.pc[t].Holding? || InSleep(s.pc[t])) == (s.holder == t))
    && (forall t | IsThread(s, t) && InSleep(s.pc[t]) :: s.scan.NoScan? && s.owed == {} && cl.mayWait(t, s.pc[t].w) && !cl.sat(s.c, s.pc[t].w))
    && (s.holder == -1 ==> s.scan.NoScan?)
    && (s.scan.Scan? ==> s.scan.i <= |s.pc|)
    && (forall i | Waits(s, i) :: WaitsRightly(cl, s, i))
  }

  /** Nobody waits for a condition that holds. */
  ghost predicate NoneReady<C, W, Ch>(cl: Client<C, W, Ch>, s: State<C, W, Ch>) {
    forall i | Waits(s, i) :: !cl.sat(s.c, s.pc[i].w)
  }

  /** A return without the wakeups that are owed, if it is one, leaves out none that
      anybody needs. */
  ghost predicate Harmless<C, W, Ch>(cl: Client<C, W, Ch>, s: State<C, W, Ch>, a: Action<C, W, Ch>) {
    a.Desert? ==> NoneReady(cl, s)
  }

  lemma InvStep<C(!new), W(!new), Ch(!new)>(cl: Client<C, W, Ch>, s: State<C, W, Ch>, a: Action<C, W, Ch>)
    requires Honest(cl) && Inv(cl, s) && Enabled(cl, s, a) && Harmless(cl, s, a)
    ensures Inv(cl, Do(cl, s, a))
  {
    hide Honest, WaitsRightly;
    var u := Do(cl, s, a);
    SameThreads(cl, s, a);
    forall i | Waits(u, i) ensures WaitsRightly(cl, u, i) {
      WaiterStep(cl, s, a, i);
    }
    forall t | IsThread(u, t)
      ensures (u.pc[t].Holding? || InSleep(u.pc[t])) == (u.holder == t)
      ensures InSleep(u.pc[t]) ==> u.scan.NoScan? && u.owed == {} && cl.mayWait(t, u.pc[t].w) && !cl.sat(u.c, u.pc[t].w)
    {
      HolderStep(cl, s, a, t);
    }
  }

  lemma WaiterStep<C(!new), W(!new), Ch(!new)>(cl: Client<C, W, Ch>, s: State<C, W, Ch>, a: Action<C, W, Ch>, i: int)
    requires Honest(cl) && Inv(cl, s) && Enabled(cl, s, a) && Harmless(cl, s, a) && Waits(Do(cl, s, a), i)
    ensures WaitsRightly(cl, Do(cl, s, a), i)
  {
    hide Honest;
    if Waits(s, i) {
      assert WaitsRightly(cl, s, i);
      if a.Change? || a.Silent? {
        WaiterTold(cl, s, a, i);
      }
    }
  }

  lemma WaiterTold<C(!new), W(!new), Ch(!new)>(cl: Client<C, W, Ch>, s: State<C, W, Ch>, a: Action<C, W, Ch>, i: int)
    requires Honest(cl) && Enabled(cl, s, a) && (a.Change? || a.Silent?) && Waits(s, i) && WaitsRightly(cl, s, i)
    ensures Waits(Do(cl, s, a), i) && WaitsRightly(cl, Do(cl, s, a), i)
  {
    if a.Change? {
      assert Announced(cl, a.t, s.c, a.to, a.wakes + s.swept);
    } else {
      assert Announced(cl, -1, s.c, a.to, {});
    }
  }

  lemma HolderStep<C(!new), W(!new), Ch(!new)>(cl: Client<C, W, Ch>, s: State<C, W, Ch>, a: Action<C, W, Ch>, t: int)
    requires Honest(cl) && Inv(cl, s) && Enabled(cl, s, a) && IsThread(Do(cl, s, a), t)
    ensures var u := Do(cl, s, a);
            && (u.pc[t].Holding? || InSleep(u.pc[t])) == (u.holder == t)
            && (InSleep(u.pc[t]) ==> u.scan.NoScan? && u.owed == {} && cl.mayWait(t, u.pc[t].w) && !cl.sat(u.c, u.pc[t].w))
  {
    hide WaitsRightly;
    assert IsThread(s, t);
    if a.Silent? {
      assert Announced(cl, -1, s.c, a.to, {});
    }
  }

  /** With the lock free, thread i sleeps for a condition that holds. */
  predicate Forgotten<C, W, Ch>(cl: Client<C, W, Ch>, s: State<C, W, Ch>, i: int) {
    s.holder == -1 && Waits(s, i) && cl.sat(s.c, s.pc[i].w)
  }

  /** A waiter whose condition holds is owed a wakeup. */
  lemma ReadyIsOwed<C(!new), W(!new), Ch(!new)>(cl: Client<C, W, Ch>, s: State<C, W, Ch>, i: int)
    requires Inv(cl, s) && Waits(s, i) && cl.sat(s.c, s.pc[i].w)
    ensures s.holder != -1 && cl.chan(s.pc[i].w) in s.owed
  {
    assert WaitsRightly(cl, s, i);
  }

  // ---- Whole runs ----

  ghost predicate ValidRun<C(!new), W(!new), Ch(!new)>(cl: Client<C, W, Ch>, ss: seq<State<C, W, Ch>>, acts: seq<Action<C, W, Ch>>) {
    && |ss| == |acts| + 1
    && ss[0].holder == -1 && ss[0].scan.NoScan? && (forall t | IsThread(ss[0], t) :: ss[0].pc[t].Outside?)
    && (forall i | 0 <= i < |acts| :: Enabled(cl, ss[i], acts[i]) && ss[i + 1] == Do(cl, ss[i], acts[i]))
  }

  lemma Longer<C(!new), W(!new), Ch(!new)>(cl: Client<C, W, Ch>, ss: seq<State<C, W, Ch>>, acts: seq<Action<C, W, Ch>>, a: Action<C, W, Ch>, u: State<C, W, Ch>)
    requires ss != [] && ValidRun(cl, ss, acts) && Enabled(cl, ss[|ss| - 1], a) && u == Do(cl, ss[|ss| - 1], a)
    ensures ValidRun(cl, ss + [u], acts + [a])
  {
    hide Enabled, Do;
  }

  /** The first n steps leave out no wakeup that anybody needs. */
  ghost predicate AllHarmless<C(!new), W(!new), Ch(!new)>(cl: Client<C, W, Ch>, ss: seq<State<C, W, Ch>>, acts: seq<Action<C, W, Ch>>, n: nat)
    requires n <= |acts| < |ss|
  {
    forall i | 0 <= i < n :: Harmless(cl, ss[i], acts[i])
  }

  lemma {:induction false} RunInv<C(!new), W(!new), Ch(!new)>(cl: Client<C, W, Ch>, ss: seq<State<C, W, Ch>>, acts: seq<Action<C, W, Ch>>, n: nat)
    requires Honest(cl) && ValidRun(cl, ss, acts) && n < |ss| && AllHarmless(cl, ss, acts, n)
    ensures Inv(cl, ss[n])
  {
    hide Do, Enabled, Harmless;
    if n > 0 {
      RunInv(cl, ss, acts, n - 1);
      assert Harmless(cl, ss[n - 1], acts[n - 1]);
      InvStep(cl, ss[n - 1], acts[n - 1]);
    }
  }

  /** No lost wakeup: whenever the condition lock is free, nobody sleeps, or is on the
      way to sleep, for a condition that holds. */
  lemma NoLostWakeup<C(!new), W(!new), Ch(!new)>(cl: Client<C, W, Ch>, ss: seq<State<C, W, Ch>>, acts: seq<Action<C, W, Ch>>, n: nat, i: int)
    requires Honest(cl) && ValidRun(cl, ss, acts) && n < |ss| && AllHarmless(cl, ss, acts, n)
    ensures ss[n].holder == -1 && IsThread(ss[n], i) && (ss[n].pc[i].Leaving? || ss[n].pc[i].Asleep?) ==> !cl.sat(ss[n].c, ss[n].pc[i].w)
    ensures !Forgotten(cl, ss[n], i)
  {
    RunInv(cl, ss, acts, n);
    if Waits(ss[n], i) {
      assert WaitsRightly(cl, ss[n], i);
    }
  }

  ghost predicate NeverForgotten<C(!new), W(!new), Ch(!new)>(cl: Client<C, W, Ch>, ss: seq<State<C, W, Ch>>, n: nat)
    requires n < |ss|
  {
    forall m, i: int | 0 <= m <= n :: !Forgotten(cl, ss[m], i)
  }

  /** In every run of every honest client, nobody is forgotten up to step n if and only
      if every killed thread that has returned owing wakeups did so while nobody waited
      for a condition that held. */
  lemma LostExactly<C(!new), W(!new), Ch(!new)>(cl: Client<C, W, Ch>, ss: seq<State<C, W, Ch>>, acts: seq<Action<C, W, Ch>>, n: nat)
    requires Honest(cl) && ValidRun(cl, ss, acts) && n < |ss|
    ensures NeverForgotten(cl, ss, n) <==> AllHarmless(cl, ss, acts, n)
  {
    if AllHarmless(cl, ss, acts, n) {
      forall m, i: int | 0 <= m <= n ensures !Forgotten(cl, ss[m], i) {
        NoLostWakeup(cl, ss, acts, m, i);
      }
    }
    if NeverForgotten(cl, ss, n) {
      forall m | 0 <= m < n ensures Harmless(cl, ss[m], acts[m]) {
        DesertForgets(cl, ss, acts, n, m);
      }
    }
  }

  lemma DesertForgets<C(!new), W(!new), Ch(!new)>(cl: Client<C, W, Ch>, ss: seq<State<C, W, Ch>>, acts: seq<Action<C, W, Ch>>, n: nat, m: nat)
    requires ValidRun(cl, ss, acts) && m < n < |ss| && NeverForgotten(cl, ss, n)
    ensures Harmless(cl, ss[m], acts[m])
  {
    assert Enabled(cl, ss[m], acts[m]) && ss[m + 1] == Do(cl, ss[m], acts[m]);
    if acts[m].Desert? {
      forall i | Waits(ss[m], i) ensures !cl.sat(ss[m].c, ss[m].pc[i].w) {
        assert !Forgotten(cl, ss[m + 1], i);
      }
    }
  }

  /** A client that always makes its wakeups. */
  ghost predicate Loyal<C(!new), W(!new), Ch(!new)>(cl: Client<C, W, Ch>) {
    forall c, owed :: !cl.deserts(c, owed)
  }

  lemma LoyalWakes<C(!new), W(!new), Ch(!new)>(cl: Client<C, W, Ch>, ss: seq<State<C, W, Ch>>, acts: seq<Action<C, W, Ch>>, n: nat)
    requires Loyal(cl) && ValidRun(cl, ss, acts) && n < |ss|
    ensures AllHarmless(cl, ss, acts, n)
  {
    forall i | 0 <= i < n ensures Harmless(cl, ss[i], acts[i]) {
      assert Enabled(cl, ss[i], acts[i]);
    }
  }

  /** No wakeup that is not meant: in every run a sleeper wakes exactly when it is
      killed, or when another thread's scan for its channel looks at it. */
  lemma WakesExactly<C(!new), W(!new), Ch(!new)>(cl: Client<C, W, Ch>, ss: seq<State<C, W, Ch>>, acts: seq<Action<C, W, Ch>>, n: nat, i: int)
    requires ValidRun(cl, ss, acts) && n < |acts| && IsThread(ss[n], i) && ss[n].pc[i].Asleep?
    ensures IsThread(ss[n + 1], i)
    ensures ss[n + 1].pc[i] ==
              if acts[n] == Kill(i) || (acts[n].ScanOne? && acts[n].t != i && ss[n].scan == Scan(cl.chan(ss[n].pc[i].w), i)) then Woken
              else ss[n].pc[i]
  {
    assert Enabled(cl, ss[n], acts[n]) && ss[n + 1] == Do(cl, ss[n], acts[n]);
  }

  // ---- Killed sleepers ----

  /** From its test until it is woken, a thread that heeds killed(p) is killed exactly
      if the kill came late. */
  predicate KillsSeen<C, W, Ch>(cl: Client<C, W, Ch>, s: State<C, W, Ch>, i: int)
    requires IsThread(s, i)
  {
    var pc := s.pc[i];
    (Working(s, i) && s.tested) || ((InSleep(pc) || Waits(s, i)) && cl.heeds(pc.w)) ==> (i in s.killed <==> i in s.late)
  }

  lemma KillStep<C(!new), W(!new), Ch(!new)>(cl: Client<C, W, Ch>, s: State<C, W, Ch>, a: Action<C, W, Ch>, i: int)
    requires Enabled(cl, s, a) && IsThread(s, i) && KillsSeen(cl, s, i)
    ensures IsThread(Do(cl, s, a), i) && KillsSeen(cl, Do(cl, s, a), i)
  {
  }

  /** In every run, a thread that tests killed(p) before it sleeps sleeps though
      killed if and only if the kill came between its last test and sleep's taking of
      p->lock, also during a wakeup scan in between. */
  lemma {:induction false} KilledSleeper<C(!new), W(!new), Ch(!new)>(cl: Client<C, W, Ch>, ss: seq<State<C, W, Ch>>, acts: seq<Action<C, W, Ch>>, n: nat, i: int)
    requires ValidRun(cl, ss, acts) && n < |ss| && IsThread(ss[n], i)
    ensures KillsSeen(cl, ss[n], i)
  {
    hide Do, Enabled;
    if n > 0 {
      SameThreads(cl, ss[n - 1], acts[n - 1]);
      KilledSleeper(cl, ss, acts, n - 1, i);
      KillStep(cl, ss[n - 1], acts[n - 1], i);
    }
  }

  lemma SameThreads<C(!new), W(!new), Ch(!new)>(cl: Client<C, W, Ch>, s: State<C, W, Ch>, a: Action<C, W, Ch>)
    requires Enabled(cl, s, a)
    ensures |Do(cl, s, a).pc| == |s.pc|
  {
  }

  /** That it can come then: a kill after the test does not keep the thread from
      falling asleep. */
  lemma LateKill<C(!new), W(!new), Ch(!new)>(cl: Client<C, W, Ch>, s: State<C, W, Ch>, t: int, w: W) returns (u: State<C, W, Ch>)
    requires Enabled(cl, s, Decide(t, w)) && cl.heeds(w)
    ensures Steps(cl, s, [Kill(t), Decide(t, w), Doze(t), Leave(t), FallAsleep(t)], u)
    ensures IsThread(u, t) && u.pc[t] == Asleep(w) && t in u.killed && t in u.late
  {
    var s0 := Do(cl, s, Kill(t));
    var s1 := Do(cl, s0, Decide(t, w));
    var s2 := Do(cl, s1, Doze(t));
    var s3 := Do(cl, s2, Leave(t));
    u := Do(cl, s3, FallAsleep(t));
    hide Do, Enabled;
    StepsOne(cl, s3, FallAsleep(t));
    StepsMore(cl, s2, Leave(t), [FallAsleep(t)], u);
    StepsMore(cl, s1, Doze(t), [Leave(t), FallAsleep(t)], u);
    StepsMore(cl, s0, Decide(t, w), [Doze(t), Leave(t), FallAsleep(t)], u);
    StepsMore(cl, s, Kill(t), [Decide(t, w), Doze(t), Leave(t), FallAsleep(t)], u);
  }

  ghost predicate Steps<C, W, Ch>(cl: Client<C, W, Ch>, s: State<C, W, Ch>, acts: seq<Action<C, W, Ch>>, u: State<C, W, Ch>)
    decreases |acts|
  {
    if acts == [] then s == u else Enabled(cl, s, acts[0]) && Steps(cl, Do(cl, s, acts[0]), acts[1..], u)
  }

  lemma StepsOne<C, W, Ch>(cl: Client<C, W, Ch>, s: State<C, W, Ch>, a: Action<C, W, Ch>)
    requires Enabled(cl, s, a)
    ensures Steps(cl, s, [a], Do(cl, s, a))
  {
    assert [a][1..] == [];
  }

  lemma StepsMore<C, W, Ch>(cl: Client<C, W, Ch>, s: State<C, W, Ch>, a: Action<C, W, Ch>, acts: seq<Action<C, W, Ch>>, u: State<C, W, Ch>)
    requires Enabled(cl, s, a) && Steps(cl, Do(cl, s, a), acts, u)
    ensures Steps(cl, s, [a] + acts, u)
  {
    assert ([a] + acts)[1..] == acts;
  }
}
