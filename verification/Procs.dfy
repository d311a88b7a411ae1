/** The life of processes, kernel/proc.c: fork, exit, reparenting, wait and reuse
    of slots, interleaved at the granularity of wait_lock and p->lock. */
module Procs {
  const INIT := 0
  const NONE := -1

  datatype PState = Unused | Used | Live | Zombie  // Live: SLEEPING, RUNNABLE or RUNNING

  datatype Proc = Proc(state: PState, parent: int, pid: int)

  /** Where a process is in the kernel. */
  datatype Pc =
    | Idle
    | Forking(np: int)  // has allocated np
    | Forked(np: int)   // has set np's parent
    | Exiting(i: nat)   // has wait_lock; reparent is at slot i
    | Dying             // has become ZOMBIE and still has its p->lock
    | Dead
    | Waiting(i: nat)   // has wait_lock; the scan of kwait is at slot i

  /** `reaped` lists the pids kwait has freed. */
  datatype State = State(proc: seq<Proc>, pc: seq<Pc>, waitLock: int, nextPid: int, reaped: seq<int>)

  datatype Action =
    | Alloc(t: int, np: int)
    | AllocFails(t: int)
    | SetParent(t: int)
    | Start(t: int)
    | ExitBegin(t: int)
    | Reparent(t: int)
    | ExitEnd(t: int)
    | LeaveCpu(t: int)
    | WaitBegin(t: int)
    | WaitLook(t: int)
    | WaitFails(t: int)  // kwait has found a zombie whose status it cannot copy out

  predicate IsSlot(s: State, k: int) {
    0 <= k < |s.proc| == |s.pc|
  }

  predicate Runs(s: State, t: int) {
    IsSlot(s, t) && s.proc[t].state.Live?
  }

  predicate Enabled(s: State, a: Action) {
    match a
    case Alloc(t, np) => Runs(s, t) && s.pc[t].Idle? && IsSlot(s, np) && s.proc[np].state.Unused?
    case AllocFails(t) => Runs(s, t) && s.pc[t].Forking? && IsSlot(s, s.pc[t].np)
    case SetParent(t) => Runs(s, t) && s.pc[t].Forking? && s.waitLock == NONE && IsSlot(s, s.pc[t].np)
    case Start(t) => Runs(s, t) && s.pc[t].Forked? && IsSlot(s, s.pc[t].np)
    case ExitBegin(t) => Runs(s, t) && s.pc[t].Idle? && t != INIT && s.waitLock == NONE
    case Reparent(t) => Runs(s, t) && s.pc[t].Exiting? && s.pc[t].i < |s.proc|
    case ExitEnd(t) => Runs(s, t) && s.pc[t].Exiting? && s.pc[t].i == |s.proc|
    case LeaveCpu(t) => IsSlot(s, t) && s.pc[t].Dying?
    case WaitBegin(t) => Runs(s, t) && s.pc[t].Idle? && s.waitLock == NONE
    case WaitLook(t) => Runs(s, t) && s.pc[t].Waiting? && (s.pc[t].i < |s.proc| ==> !(s.proc[s.pc[t].i].parent == t && s.pc[s.pc[t].i].Dying?))
    case WaitFails(t) => Runs(s, t) && s.pc[t].Waiting? && Reaps(s, t) && !s.pc[s.pc[t].i].Dying?
  }

  /** kwait finds a zombie child at the slot it looks at. */
  predicate Reaps(s: State, t: int)
    requires Runs(s, t) && s.pc[t].Waiting?
  {
    s.pc[t].i < |s.proc| && s.proc[s.pc[t].i].parent == t && s.proc[s.pc[t].i].state.Zombie?
  }

  const FREED := Proc(Unused, NONE, 0)

  function Do(s: State, a: Action): State
    requires Enabled(s, a)
  {
    match a
    case Alloc(t, np) =>
      s.(proc := s.proc[np := Proc(Used, NONE, s.nextPid)], pc := s.pc[t := Forking(np)], nextPid := s.nextPid + 1)
    case AllocFails(t) => s.(proc := s.proc[s.pc[t].np := FREED], pc := s.pc[t := Idle])
    case SetParent(t) =>
      var np := s.pc[t].np;
      s.(proc := s.proc[np := s.proc[np].(parent := t)], pc := s.pc[t := Forked(np)])
    case Start(t) =>
      var np := s.pc[t].np;
      s.(proc := s.proc[np := s.proc[np].(state := Live)], pc := s.pc[t := Idle])
    case ExitBegin(t) => s.(pc := s.pc[t := Exiting(0)], waitLock := t)
    case Reparent(t) =>
      var i := s.pc[t].i;
      s.(proc := if s.proc[i].parent == t then s.proc[i := s.proc[i].(parent := INIT)] else s.proc, pc := s.pc[t := Exiting(i + 1)])
    case ExitEnd(t) => s.(proc := s.proc[t := s.proc[t].(state := Zombie)], pc := s.pc[t := Dying], waitLock := NONE)
    case LeaveCpu(t) => s.(pc := s.pc[t := Dead])
    case WaitBegin(t) => s.(pc := s.pc[t := Waiting(0)], waitLock := t)
    case WaitLook(t) =>
      var i := s.pc[t].i;
      if Reaps(s, t) then
        s.(proc := s.proc[i := FREED], pc := s.pc[t := Idle][i := Idle], waitLock := NONE, reaped := s.reaped + [s.proc[i].pid])
      else if i >= |s.proc| then s.(pc := s.pc[t := Idle], waitLock := NONE)  // returns, or sleeps and starts over
      else s.(pc := s.pc[t := Waiting(i + 1)])
    case WaitFails(t) => s.(pc := s.pc[t := Idle], waitLock := NONE)
  }

  // ---- The invariant ----

  predicate Started(p: Proc) {
    p.state.Live? || p.state.Zombie?
  }

  predicate ProcOK(s: State, k: int)
    requires IsSlot(s, k)
  {
    var p := s.proc[k];
    && (p.parent != NONE ==> Runs(s, p.parent))
    && (Started(p) && k != INIT ==> p.parent != NONE)
    && (p.state.Unused? ==> p.parent == NONE)
    && (p.state.Zombie? <==> s.pc[k].Dying? || s.pc[k].Dead?)
    && (p.state.Unused? || p.state.Used? ==> s.pc[k].Idle?)
  }

  predicate PcOK(s: State, t: int)
    requires IsSlot(s, t)
  {
    && (s.waitLock == t <==> s.pc[t].Exiting? || s.pc[t].Waiting?)
    && match s.pc[t]
       case Forking(np) => IsSlot(s, np) && s.proc[np].state.Used? && s.proc[np].parent == NONE
       case Forked(np) => IsSlot(s, np) && s.proc[np].state.Used? && s.proc[np].parent == t
       case Exiting(i) => t != INIT && i <= |s.proc| && forall k | 0 <= k < i :: s.proc[k].parent != t
       case Waiting(i) => i <= |s.proc|
       case _ => true
  }

  function Baby(pc: Pc): int {
    if pc.Forking? || pc.Forked? then pc.np else NONE
  }

  /** No two forks share a child. */
  ghost predicate OwnBabies(s: State) {
    forall t, u | IsSlot(s, t) && IsSlot(s, u) && Baby(s.pc[t]) == Baby(s.pc[u]) != NONE :: t == u
  }

  /** Pids in use differ, and no pid has been reaped twice. */
  ghost predicate Pids(s: State) {
    && (forall k | IsSlot(s, k) && !s.proc[k].state.Unused? :: s.proc[k].pid < s.nextPid && s.proc[k].pid !in s.reaped)
    && (forall j, k | IsSlot(s, j) && IsSlot(s, k) && !s.proc[j].state.Unused? && !s.proc[k].state.Unused? && s.proc[j].pid == s.proc[k].pid :: j == k)
    && (forall i | 0 <= i < |s.reaped| :: s.reaped[i] < s.nextPid)
    && (forall i, j | 0 <= i < j < |s.reaped| :: s.reaped[i] != s.reaped[j])
  }

  ghost predicate Inv(s: State) {
    && IsSlot(s, INIT) && s.proc[INIT].state.Live?
    && (forall k | IsSlot(s, k) :: ProcOK(s, k) && PcOK(s, k))
    && OwnBabies(s) && Pids(s)
  }

  lemma ProcStep(s: State, a: Action, k: int)
    requires Inv(s) && Enabled(s, a) && IsSlot(s, k)
    ensures IsSlot(Do(s, a), k) && ProcOK(Do(s, a), k)
  {
    hide ProcOK, PcOK, Pids, OwnBabies, Do;
    ProcParent(s, a, k);
    ProcRest(s, a, k);
  }

  lemma ProcParent(s: State, a: Action, k: int)
    requires Inv(s) && Enabled(s, a) && IsSlot(s, k)
    ensures var u := Do(s, a); IsSlot(u, k) && (u.proc[k].parent != NONE ==> Runs(u, u.proc[k].parent))
  {
    hide Pids, OwnBabies;
    assert ProcOK(s, k) && PcOK(s, a.t);
  }

  lemma ProcRest(s: State, a: Action, k: int)
    requires Inv(s) && Enabled(s, a) && IsSlot(s, k)
    requires var u := Do(s, a); IsSlot(u, k) && (u.proc[k].parent != NONE ==> Runs(u, u.proc[k].parent))
    ensures ProcOK(Do(s, a), k)
  {
    hide OwnBabies, Pids, Inv, Do, Enabled, PcOK;
    HasParent(s, a, k);
    ZombiePc(s, a, k);
  }

  lemma HasParent(s: State, a: Action, k: int)
    requires Inv(s) && Enabled(s, a) && IsSlot(s, k)
    ensures var u := Do(s, a);
            && IsSlot(u, k) && (Started(u.proc[k]) && k != INIT ==> u.proc[k].parent != NONE)
            && (u.proc[k].state.Unused? ==> u.proc[k].parent == NONE)
  {
    hide OwnBabies, Pids;
    assert ProcOK(s, k) && PcOK(s, k);
    assert PcOK(s, a.t);
  }

  lemma ZombiePc(s: State, a: Action, k: int)
    requires Inv(s) && Enabled(s, a) && IsSlot(s, k)
    ensures var u := Do(s, a);
            && IsSlot(u, k) && (u.proc[k].state.Zombie? <==> u.pc[k].Dying? || u.pc[k].Dead?)
            && (u.proc[k].state.Unused? || u.proc[k].state.Used? ==> u.pc[k].Idle?)
  {
    hide OwnBabies, Pids;
    assert ProcOK(s, k) && PcOK(s, k);
    assert PcOK(s, a.t) && ProcOK(s, a.t);
  }

  lemma PcStep(s: State, a: Action, t: int)
    requires Inv(s) && Enabled(s, a) && IsSlot(s, t)
    ensures IsSlot(Do(s, a), t) && PcOK(Do(s, a), t)
  {
    if t == a.t {
      PcOwn(s, a);
    } else {
      PcOther(s, a, t);
    }
  }

  lemma PcOwn(s: State, a: Action)
    requires Inv(s) && Enabled(s, a)
    ensures IsSlot(Do(s, a), a.t) && PcOK(Do(s, a), a.t)
  {
    hide Pids, OwnBabies;
    assert PcOK(s, a.t) && ProcOK(s, a.t);
  }

  lemma PcOther(s: State, a: Action, t: int)
    requires Inv(s) && Enabled(s, a) && IsSlot(s, t) && t != a.t
    ensures IsSlot(Do(s, a), t) && PcOK(Do(s, a), t)
  {
    hide Pids, ProcOK, OwnBabies;
    assert PcOK(s, t) && PcOK(s, a.t);
    BabiesDiffer(s, t, a.t);
  }

  lemma BabiesDiffer(s: State, t: int, u: int)
    requires Inv(s) && IsSlot(s, t) && IsSlot(s, u) && t != u
    ensures Baby(s.pc[t]) == NONE || Baby(s.pc[t]) != Baby(s.pc[u])
  {
  }

  lemma BabyStep(s: State, a: Action, t: int)
    requires Inv(s) && Enabled(s, a) && IsSlot(s, t)
    ensures IsSlot(Do(s, a), t)
    ensures Baby(Do(s, a).pc[t]) == NONE || (a.Alloc? && t == a.t && Baby(Do(s, a).pc[t]) == a.np) || Baby(Do(s, a).pc[t]) == Baby(s.pc[t])
    ensures a.Alloc? ==> Baby(s.pc[t]) != a.np
  {
    hide Pids, OwnBabies;
    assert PcOK(s, t) && ProcOK(s, t);
  }

  lemma BabiesStep(s: State, a: Action)
    requires Inv(s) && Enabled(s, a)
    ensures OwnBabies(Do(s, a))
  {
    hide Pids, Do, Enabled, PcOK, ProcOK;
    var u := Do(s, a);
    BabyStep(s, a, INIT);
    forall t, v | IsSlot(u, t) && IsSlot(u, v) && Baby(u.pc[t]) == Baby(u.pc[v]) != NONE ensures t == v {
      SameSize(s, a);
      BabyStep(s, a, t);
      BabyStep(s, a, v);
    }
  }

  lemma SameSize(s: State, a: Action)
    requires Enabled(s, a)
    ensures |Do(s, a).proc| == |s.proc| && |Do(s, a).pc| == |s.pc|
  {
  }

  /** A step allocates one pid or frees one, and leaves the others alone. */
  lemma PidStep(s: State, a: Action, k: int)
    requires Inv(s) && Enabled(s, a) && IsSlot(s, k)
    ensures var u := Do(s, a);
            && IsSlot(u, k) && (u.nextPid == if a.Alloc? then s.nextPid + 1 else s.nextPid)
            && (u.reaped == s.reaped || (a.WaitLook? && Runs(s, a.t) && s.pc[a.t].Waiting? && Reaps(s, a.t) && u.reaped == s.reaped + [s.proc[s.pc[a.t].i].pid] && u.proc[s.pc[a.t].i].state.Unused?))
            && (!u.proc[k].state.Unused? ==>
                  if a.Alloc? && k == a.np then u.proc[k].pid == s.nextPid
                  else !s.proc[k].state.Unused? && u.proc[k].pid == s.proc[k].pid < s.nextPid && u.proc[k].pid !in s.reaped)
  {
    hide OwnBabies, PcOK, ProcOK;
    assert PcOK(s, a.t);
    BabyInUse(s, a.t);
  }

  lemma PidsStep(s: State, a: Action)
    requires Inv(s) && Enabled(s, a)
    ensures Pids(Do(s, a))
  {
    hide OwnBabies, PcOK, ProcOK, Do, Enabled;
    PidStep(s, a, INIT);
    SameSize(s, a);
    var u := Do(s, a);
    if u.reaped != s.reaped {
      assert IsSlot(s, s.pc[a.t].i);
    }
    forall k | IsSlot(u, k) && !u.proc[k].state.Unused? ensures u.proc[k].pid < u.nextPid && u.proc[k].pid !in u.reaped {
      PidStep(s, a, k);
    }
    forall j, k | IsSlot(u, j) && IsSlot(u, k) && !u.proc[j].state.Unused? && !u.proc[k].state.Unused? && u.proc[j].pid == u.proc[k].pid ensures j == k {
      PidStep(s, a, j);
      PidStep(s, a, k);
    }
  }

  lemma BabyInUse(s: State, t: int)
    requires IsSlot(s, t) && PcOK(s, t)
    ensures s.pc[t].Forking? || s.pc[t].Forked? ==> IsSlot(s, s.pc[t].np) && s.proc[s.pc[t].np].state.Used?
  {
  }

  lemma InvStep(s: State, a: Action)
    requires Inv(s) && Enabled(s, a)
    ensures Inv(Do(s, a))
  {
    hide OwnBabies, Pids, PcOK;
    var u := Do(s, a);
    forall k | IsSlot(u, k) ensures ProcOK(u, k) && PcOK(u, k) {
      ProcStep(s, a, k);
      PcStep(s, a, k);
    }
    BabiesStep(s, a);
    PidsStep(s, a);
    InitLives(s, a);
  }

  lemma InitLives(s: State, a: Action)
    requires Inv(s) && Enabled(s, a)
    ensures IsSlot(Do(s, a), INIT) && Do(s, a).proc[INIT].state.Live?
  {
  }

  // ---- Whole runs ----

  /** After userinit: one process, init. */
  predicate Init(s: State) {
    && 0 < |s.proc| == |s.pc| && s.proc[INIT] == Proc(Live, NONE, 1) && s.nextPid == 2 && s.waitLock == NONE && s.reaped == []
    && (forall k | 0 < k < |s.proc| :: s.proc[k] == FREED)
    && (forall k | 0 <= k < |s.pc| :: s.pc[k] == Idle)
  }

  ghost predicate ValidRun(ss: seq<State>, acts: seq<Action>) {
    |ss| == |acts| + 1 && Init(ss[0]) && forall i | 0 <= i < |acts| :: Enabled(ss[i], acts[i]) && ss[i + 1] == Do(ss[i], acts[i])
  }

  lemma {:induction false} RunInv(ss: seq<State>, acts: seq<Action>, n: nat)
    requires ValidRun(ss, acts) && n <= |acts|
    ensures Inv(ss[n])
  {
    hide Do, Enabled, PcOK, ProcOK, OwnBabies, Pids;
    if n == 0 {
      InitInv(ss[0]);
    } else {
      RunInv(ss, acts, n - 1);
      InvStep(ss[n - 1], acts[n - 1]);
    }
  }

  lemma InitInv(s: State)
    requires Init(s)
    ensures Inv(s)
  {
  }

  /** In every run, every started process but init has a parent, and every parent
      named by any slot is alive: no child is ever left to a zombie, a free slot
      or a process that reuses one. */
  lemma ParentsLive(ss: seq<State>, acts: seq<Action>, n: nat, k: int)
    requires ValidRun(ss, acts) && n <= |acts| && IsSlot(ss[n], k)
    ensures ss[n].proc[k].parent != NONE ==> Runs(ss[n], ss[n].proc[k].parent)
    ensures Started(ss[n].proc[k]) && k != INIT ==> ss[n].proc[k].parent != NONE
  {
    hide Do, Enabled, Init, OwnBabies, Pids, PcOK;
    RunInv(ss, acts, n);
    assert ProcOK(ss[n], k);
  }

  /** A zombie stays one until its parent's kwait frees it. */
  lemma ZombieStays(ss: seq<State>, acts: seq<Action>, n: nat, k: int)
    requires ValidRun(ss, acts) && n < |acts| && IsSlot(ss[n], k) && ss[n].proc[k].state.Zombie?
    ensures IsSlot(ss[n + 1], k)
    ensures || (ss[n + 1].proc[k].state.Zombie? && ss[n + 1].proc[k].pid == ss[n].proc[k].pid)
            || (acts[n] == WaitLook(ss[n].proc[k].parent) && ss[n + 1].proc[k] == Proc(Unused, NONE, 0) && ss[n + 1].reaped == ss[n].reaped + [ss[n].proc[k].pid])
  {
    RunInv(ss, acts, n);
    assert PcOK(ss[n], acts[n].t);
  }

  /** No process is reaped twice. */
  lemma ReapedOnce(ss: seq<State>, acts: seq<Action>, n: nat)
    requires ValidRun(ss, acts) && n <= |acts|
    ensures forall i, j | 0 <= i < j < |ss[n].reaped| :: ss[n].reaped[i] != ss[n].reaped[j]
    ensures forall k | IsSlot(ss[n], k) && !ss[n].proc[k].state.Unused? :: ss[n].proc[k].pid !in ss[n].reaped
  {
    hide Do, Enabled, Init, OwnBabies, PcOK;
    RunInv(ss, acts, n);
  }

  // ---- Whole calls ----

  ghost predicate Steps(s: State, acts: seq<Action>, u: State)
    decreases |acts|
  {
    if acts == [] then s == u else Enabled(s, acts[0]) && Steps(Do(s, acts[0]), acts[1..], u)
  }

  lemma {:induction false} StepsSnoc(s: State, acts: seq<Action>, p: State, a: Action)
    requires Steps(s, acts, p) && Enabled(p, a)
    ensures Steps(s, acts + [a], Do(p, a))
    decreases |acts|
  {
    hide Enabled, Do;
    if acts == [] {
      assert Steps(Do(p, a), [a][1..], Do(p, a));
    } else {
      StepsSnoc(Do(s, acts[0]), acts[1..], p, a);
      assert (acts + [a])[1..] == acts[1..] + [a];
    }
  }

  /** The table when reparent by t has passed the first n slots. */
  function Passed(proc: seq<Proc>, t: int, n: int): (r: seq<Proc>)
    ensures |r| == |proc|
  {
    seq(|proc|, k requires 0 <= k < |proc| => if k < n && proc[k].parent == t then proc[k].(parent := INIT) else proc[k])
  }

  function ExitActions(t: int, n: nat): seq<Action> {
    [ExitBegin(t)] + seq(n, _ => Reparent(t))
  }

  lemma {:induction false} ReparentSteps(s: State, t: int, n: nat) returns (u: State)
    requires Enabled(s, ExitBegin(t)) && n <= |s.proc|
    ensures Steps(s, ExitActions(t, n), u)
    ensures u == s.(proc := Passed(s.proc, t, n), pc := s.pc[t := Exiting(n)], waitLock := t)
  {
    if n == 0 {
      u := Do(s, ExitBegin(t));
      assert Steps(u, ExitActions(t, 0)[1..], u);
      assert Passed(s.proc, t, 0) == s.proc;
    } else {
      var p := ReparentSteps(s, t, n - 1);
      assert Passed(s.proc, t, n) == Do(p, Reparent(t)).proc;
      StepsSnoc(s, ExitActions(t, n - 1), p, Reparent(t));
      assert ExitActions(t, n) == ExitActions(t, n - 1) + [Reparent(t)];
      u := Do(p, Reparent(t));
    }
  }

  /** An exit that is not interrupted. */
  function Exited(proc: seq<Proc>, t: int): seq<Proc>
    requires 0 <= t < |proc|
  {
    var q := Passed(proc, t, |proc|);
    q[t := q[t].(state := Zombie)]
  }

  lemma ExitSteps(s: State, t: int) returns (u: State)
    requires Enabled(s, ExitBegin(t))
    ensures Steps(s, ExitActions(t, |s.proc|) + [ExitEnd(t)], u) && u.proc == Exited(s.proc, t) && u.waitLock == NONE
  {
    hide Steps;
    var p := ReparentSteps(s, t, |s.proc|);
    StepsSnoc(s, ExitActions(t, |s.proc|), p, ExitEnd(t));
    u := Do(p, ExitEnd(t));
  }

  predicate ZombieOf(p: Proc, t: int) {
    p.parent == t && p.state.Zombie?
  }

  function WaitActions(t: int, n: nat): seq<Action> {
    [WaitBegin(t)] + seq(n, _ => WaitLook(t))
  }

  lemma {:induction false} LookSteps(s: State, t: int, n: nat) returns (u: State)
    requires Enabled(s, WaitBegin(t)) && n <= |s.proc|
    requires forall k | 0 <= k < n :: !ZombieOf(s.proc[k], t) && !s.pc[k].Dying?
    ensures Steps(s, WaitActions(t, n), u) && u == s.(pc := s.pc[t := Waiting(n)], waitLock := t)
  {
    if n == 0 {
      u := Do(s, WaitBegin(t));
      assert Steps(u, WaitActions(t, 0)[1..], u);
    } else {
      var p := LookSteps(s, t, n - 1);
      assert !ZombieOf(s.proc[n - 1], t);
      StepsSnoc(s, WaitActions(t, n - 1), p, WaitLook(t));
      assert WaitActions(t, n) == WaitActions(t, n - 1) + [WaitLook(t)];
      u := Do(p, WaitLook(t));
    }
  }

  /** A kwait that is not interrupted frees the first zombie child. */
  lemma WaitSteps(s: State, t: int, k: nat) returns (u: State)
    requires Enabled(s, WaitBegin(t)) && k < |s.proc| && ZombieOf(s.proc[k], t) && !s.pc[k].Dying? && k != t
    requires forall j | 0 <= j < k :: !ZombieOf(s.proc[j], t) && !s.pc[j].Dying?
    ensures Steps(s, WaitActions(t, k) + [WaitLook(t)], u) && u.proc == s.proc[k := Proc(Unused, NONE, 0)] && u.reaped == s.reaped + [s.proc[k].pid]
  {
    hide Steps;
    var p := LookSteps(s, t, k);
    StepsSnoc(s, WaitActions(t, k), p, WaitLook(t));
    u := Do(p, WaitLook(t));
  }
}
