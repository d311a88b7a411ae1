/** Copy-on-write refines eager copying: in every run the memory of every
    process is what it would be if fork copied all pages at once. */
module CowRefines {
  import opened Params
  import opened Pool = PagePool
  import opened Cow

  // ---- The reference model ----

  type Memory = map<Pid, map<Vpn, seq<int>>>

  datatype EagerOp =
    | ESkip
    | EStart(p: Pid)
    | EStore(p: Pid, v: Vpn, off: nat, x: int)
    | EGrow(p: Pid, v: Vpn)
    | EShrink(p: Pid, v: Vpn)
    | EFork(p: Pid, c: Pid)
    | EExit(p: Pid)

  predicate EagerEnabled(m: Memory, op: EagerOp) {
    match op
    case ESkip => true
    case EStart(p) => p !in m
    case EStore(p, v, off, _) => p in m && v in m[p] && off < |m[p][v]|
    case EGrow(p, v) => p in m && v !in m[p]
    case EShrink(p, v) => p in m && v in m[p]
    case EFork(p, c) => p in m && c !in m
    case EExit(p) => p in m
  }

  function EagerDo(m: Memory, op: EagerOp): Memory
    requires EagerEnabled(m, op)
  {
    match op
    case ESkip => m
    case EStart(p) => m[p := map[]]
    case EStore(p, v, off, x) => m[p := m[p][v := m[p][v][off := x]]]
    case EGrow(p, v) => m[p := m[p][v := Filled(0)]]
    case EShrink(p, v) => m[p := m[p] - {v}]
    case EFork(p, c) => m[c := m[p]]
    case EExit(p) => m - {p}
  }

  // ---- What a copy-on-write state stands for ----

  predicate Live(s: State, p: Pid) {
    p in s.tasks && p in s.pt && !(s.tasks[p].Unmap? && s.tasks[p].t == p && s.tasks[p].whole)
  }

  predicate Visible(s: State, p: Pid, v: Vpn) {
    Live(s, p) && v in s.pt[p] && s.tasks[p] != Unmap(p, Some(v), false)
  }

  /** Who holds the page with the contents of (p, v): during a fault the new
      page takes over as soon as the old one is given up. */
  function Source(s: State, p: Pid, v: Vpn): Holder {
    if p in s.tasks && s.tasks[p] == FaultDropped(v) then Hand(p) else Mapped(p, v)
  }

  function Contents(s: State, p: Pid, v: Vpn): Frame {
    if Counted(s.ram, Source(s, p, v)) then s.ram.mem[s.ram.holders[Source(s, p, v)]] else Filled(0)
  }

  function View(s: State, p: Pid): map<Vpn, seq<int>>
    requires p in s.pt
  {
    map v | v in s.pt[p] && Visible(s, p, v) :: Contents(s, p, v)
  }

  function Alpha(s: State): Memory {
    map p | p in s.pt && Live(s, p) :: View(s, p)
  }

  function Abs(s: State, a: Action): EagerOp
    requires Cow.Enabled(s, a)
  {
    match a
    case Spawn(p) => EStart(p)
    case Store(p, v, off, x) => EStore(p, v, off, x)
    case GrowMap(p, _) => EGrow(p, s.tasks[p].v)
    case DropPte(p, t, v) => if s.tasks[p] == Rest then EShrink(p, v) else ESkip
    case ForkCommit(p) => EFork(p, s.tasks[p].child)
    case ExitStart(p) => EExit(p)
    case _ => ESkip
  }

  // ---- The simulation ----

  /** A visible page has its holder in the ledger. */
  lemma SourceHeld(s: State, p: Pid, v: Vpn)
    requires Cow.Inv(s) && Visible(s, p, v)
    ensures Counted(s.ram, Source(s, p, v))
    ensures s.tasks[p] != FaultDropped(v) ==> s.ram.holders[Mapped(p, v)] == s.pt[p][v].page
  {
    InOrder(s, p);
    assert Refers(s, Mapped(p, v));
  }

  /** Steps of other threads do not show. */
  lemma OtherView(s: State, a: Action, o: Pid)
    requires Cow.Inv(s) && Cow.Enabled(s, a) && o != a.p && Live(s, o)
    ensures Live(Cow.Do(s, a), o) && View(Cow.Do(s, a), o) == View(s, o)
  {
    hide Cow.Do, Cow.Enabled, Cow.Inv, TaskOK;
    var t := Cow.Do(s, a);
    Apart(s, a, o);
    forall v | Visible(s, o, v) ensures Contents(t, o, v) == Contents(s, o, v) {
      SourceHeld(s, o, v);
      assert SameHolder(s, t, Source(s, o, v));
      OthersPage(s, a, Source(s, o, v));
    }
  }

  /** Nobody but fork brings another process to life. */
  lemma OtherDead(s: State, a: Action, o: Pid)
    requires Cow.Inv(s) && Cow.Enabled(s, a) && o != a.p && !Live(s, o) && !(a.ForkCommit? && WorksOn(s, a.p, o))
    ensures !Live(Cow.Do(s, a), o)
  {
    hide Cow.Do, Cow.Enabled, Cow.Inv, TaskOK;
    StepTasks(s, a, o);
    if o in s.tasks {
      Apart(s, a, o);
    }
  }

  /** Only grow adds an entry to it, and only shrink and exit remove one. */
  lemma OwnEntry(s: State, a: Action, v: Vpn)
    requires Cow.Inv(s) && Cow.Enabled(s, a) && a.p in s.pt && a.p in Cow.Do(s, a).pt && !a.Spawn?
    ensures v in Cow.Do(s, a).pt[a.p] <==>
              if a.GrowMap? && s.tasks[a.p].v == v then true
              else if a.ClearPte? && s.tasks[a.p].t == a.p && s.tasks[a.p].cur.value == v then false
              else v in s.pt[a.p]
  {
    hide Cow.Inv, TaskOK, RamOp, Pool.Do, Pool.Enabled, NextTask, NextTasks;
    Basics(s, a.p);
  }

  lemma OwnLive(s: State, a: Action)
    requires Cow.Inv(s) && Cow.Enabled(s, a)
    ensures Live(Cow.Do(s, a), a.p) <==> (Live(s, a.p) || a.Spawn?) && !a.ExitStart?
  {
    hide Cow.Inv, TaskOK, RamOp, Pool.Do, Pool.Enabled, NextPt, NextTasks, Cow.Do;
    Basics(s, a.p);
    OwnNext(s, a);
    OwnTable(s, a);
  }

  /** Which of its own pages a step adds or removes. */
  lemma OwnVisible(s: State, a: Action, v: Vpn)
    requires Cow.Inv(s) && Cow.Enabled(s, a) && Live(s, a.p) && !a.ExitStart?
    ensures Visible(Cow.Do(s, a), a.p, v) <==>
              if Abs(s, a) == EGrow(a.p, v) then true
              else if Abs(s, a) == EShrink(a.p, v) then false
              else Visible(s, a.p, v)
  {
    hide Cow.Inv, TaskOK, RamOp, Pool.Do, Pool.Enabled, NextPt, NextTasks, Cow.Do;
    Basics(s, a.p);
    OwnNext(s, a);
    OwnTable(s, a);
    if a.p in Cow.Do(s, a).pt {
      OwnEntry(s, a, v);
    }
  }

  /** The step keeps the contents of a page the process still sees. */
  lemma OwnContents(s: State, a: Action, v: Vpn)
    requires Cow.Inv(s) && Cow.Enabled(s, a) && Visible(s, a.p, v) && Visible(Cow.Do(s, a), a.p, v)
    ensures Contents(Cow.Do(s, a), a.p, v) ==
            if a.Store? && a.v == v then Contents(s, a.p, v)[a.off := a.x] else Contents(s, a.p, v)
  {
    hide Cow.Inv, NextPt, TaskOK, Visible;
    SourceHeld(s, a.p, v);
    Cow.InvStep(s, a);
    SourceHeld(Cow.Do(s, a), a.p, v);
    if a.DropOld? {
      DropOldContents(s, a, v);
    } else if a.Store? {
      StoreContents(s, a, v);
    } else {
      SourceStep(s, a, v);
      QuietContents(s, a, v);
    }
  }

  /** The page of (p, v) stays the same page. */
  lemma SourceStep(s: State, a: Action, v: Vpn)
    requires Cow.Inv(s) && Cow.Enabled(s, a) && Visible(s, a.p, v) && Visible(Cow.Do(s, a), a.p, v) && !a.DropOld?
    requires Counted(s.ram, Source(s, a.p, v)) && Counted(Cow.Do(s, a).ram, Source(Cow.Do(s, a), a.p, v))
    ensures Cow.Do(s, a).ram.holders[Source(Cow.Do(s, a), a.p, v)] == s.ram.holders[Source(s, a.p, v)]
  {
    hide Cow.Inv, TaskOK, NextPt, NextTasks, Cow.Do;
    OwnNext(s, a);
    OwnState(s, a);
    Basics(s, a.p);
  }

  lemma QuietContents(s: State, a: Action, v: Vpn)
    requires Cow.Inv(s) && Cow.Enabled(s, a) && !a.Store? && Visible(s, a.p, v)
    requires Counted(s.ram, Source(s, a.p, v))
    ensures var q := s.ram.holders[Source(s, a.p, v)];
            IsPage(Cow.Do(s, a).ram, q) && Cow.Do(s, a).ram.mem[q] == s.ram.mem[q]
  {
    hide NextPt, NextTask, NextTasks, Pool.Inv, Pool.Do, Owned;
    InOrder(s, a.p);
    assert AlonePair(s, Hand(a.p), Source(s, a.p, v));
    HeldKeepsContents(s.ram, RamOp(s, a), Source(s, a.p, v));
  }

  lemma StoreContents(s: State, a: Action, v: Vpn)
    requires Cow.Inv(s) && Cow.Enabled(s, a) && a.Store? && Visible(s, a.p, v)
    requires Counted(s.ram, Source(s, a.p, v))
    ensures Contents(Cow.Do(s, a), a.p, v) ==
            if a.v == v then Contents(s, a.p, v)[a.off := a.x] else Contents(s, a.p, v)
  {
    hide Pool.Inv, Owned;
    InOrder(s, a.p);
    assert Refers(s, Mapped(a.p, a.v)) && Refers(s, Mapped(a.p, v));
    assert AlonePair(s, Mapped(a.p, a.v), Mapped(a.p, v));
  }

  lemma DropOldContents(s: State, a: Action, v: Vpn)
    requires Cow.Inv(s) && Cow.Enabled(s, a) && a.DropOld? && Visible(s, a.p, v)
    requires Counted(s.ram, Source(s, a.p, v)) && Counted(Cow.Do(s, a).ram, Source(Cow.Do(s, a), a.p, v))
    ensures Contents(Cow.Do(s, a), a.p, v) == Contents(s, a.p, v)
  {
    hide Pool.Inv, Owned, Alone;
    InOrder(s, a.p);
    assert Refers(s, Mapped(a.p, v));
  }

  /** A page just grown is zero. */
  lemma GrownIsZero(s: State, a: Action)
    requires Cow.Inv(s) && Cow.Enabled(s, a) && a.GrowMap?
    ensures Visible(Cow.Do(s, a), a.p, s.tasks[a.p].v) && Contents(Cow.Do(s, a), a.p, s.tasks[a.p].v) == Filled(0)
    ensures !Visible(s, a.p, s.tasks[a.p].v)
  {
    hide Pool.Inv, Owned, Alone;
    InOrder(s, a.p);
  }

  lemma OwnView(s: State, a: Action)
    requires Cow.Inv(s) && Cow.Enabled(s, a) && Live(s, a.p) && !a.ExitStart?
    requires EagerEnabled(Alpha(s), Abs(s, a)) && Live(Cow.Do(s, a), a.p)
    ensures var want := EagerDo(Alpha(s), Abs(s, a)); a.p in want && View(Cow.Do(s, a), a.p) == want[a.p]
  {
    hide Cow.Do, Cow.Enabled, Cow.Inv, TaskOK, Contents, EagerDo, Abs;
    var t := Cow.Do(s, a);
    EagerOwn(s, a);
    var want := EagerDo(Alpha(s), Abs(s, a))[a.p];
    forall v ensures v in View(t, a.p) <==> v in want {
      OwnPage(s, a, v);
    }
    forall v | v in want ensures View(t, a.p)[v] == want[v] {
      OwnPage(s, a, v);
    }
  }

  lemma EagerOwn(s: State, a: Action)
    requires Cow.Inv(s) && Cow.Enabled(s, a) && Live(s, a.p) && !a.ExitStart? && EagerEnabled(Alpha(s), Abs(s, a))
    ensures a.p in EagerDo(Alpha(s), Abs(s, a))
  {
  }

  lemma OwnPage(s: State, a: Action, v: Vpn)
    requires Cow.Inv(s) && Cow.Enabled(s, a) && Live(s, a.p) && !a.ExitStart?
    requires EagerEnabled(Alpha(s), Abs(s, a)) && Live(Cow.Do(s, a), a.p) && a.p in EagerDo(Alpha(s), Abs(s, a))
    ensures var want, view := EagerDo(Alpha(s), Abs(s, a))[a.p], View(Cow.Do(s, a), a.p);
            (v in view <==> v in want) && (v in want ==> view[v] == want[v])
  {
    hide Cow.Do, Cow.Enabled, Cow.Inv, TaskOK, Contents;
    OwnVisible(s, a, v);
    if a.GrowMap? {
      GrownIsZero(s, a);
    }
    if Visible(s, a.p, v) && Visible(Cow.Do(s, a), a.p, v) {
      OwnContents(s, a, v);
    }
  }

  lemma AbsEnabled(s: State, a: Action)
    requires Cow.Inv(s) && Cow.Enabled(s, a)
    ensures EagerEnabled(Alpha(s), Abs(s, a))
  {
    hide Cow.Inv, Pool.Enabled, Pool.Do, TaskOK;
    Basics(s, a.p);
    if a.DropPte? {
      DropVisible(s, a);
    } else if a.ForkCommit? || a.Store? {
      AbsOthers(s, a);
    }
  }

  lemma DropVisible(s: State, a: Action)
    requires Cow.Inv(s) && Cow.Enabled(s, a) && a.DropPte?
    ensures EagerEnabled(Alpha(s), Abs(s, a))
  {
    hide Pool.Inv, Owned, Alone;
    InOrder(s, a.p);
    assert Refers(s, Mapped(a.t, a.v));
  }

  lemma AbsOthers(s: State, a: Action)
    requires Cow.Inv(s) && Cow.Enabled(s, a) && (a.ForkCommit? || a.Store?)
    ensures EagerEnabled(Alpha(s), Abs(s, a))
  {
    hide Pool.Inv, Owned, Alone;
    InOrder(s, a.p);
  }

  /** The child fork starts sees exactly its parent's pages. */
  lemma ForkedView(s: State, a: Action, c: Pid)
    requires Cow.Inv(s) && Cow.Enabled(s, a) && a.ForkCommit? && WorksOn(s, a.p, c)
    ensures Live(s, a.p) && !Live(s, c) && Live(Cow.Do(s, a), c)
    ensures View(Cow.Do(s, a), c) == View(s, a.p)
  {
    hide Pool.Inv, Owned, Alone;
    InOrder(s, a.p);
    forall v | v in s.pt[c] ensures Contents(Cow.Do(s, a), c, v) == Contents(s, a.p, v) {
      assert Refers(s, Mapped(c, v)) && Refers(s, Mapped(a.p, v));
    }
  }

  /** Each step of the copy-on-write kernel is one step, or none, of the model
      in which fork copies everything. */
  lemma Simulates(s: State, a: Action)
    requires Cow.Inv(s) && Cow.Enabled(s, a)
    ensures Cow.Inv(Cow.Do(s, a))
    ensures EagerEnabled(Alpha(s), Abs(s, a))
    ensures Alpha(Cow.Do(s, a)) == EagerDo(Alpha(s), Abs(s, a))
  {
    hide Cow.Do, Cow.Enabled, Cow.Inv, TaskOK, View;
    var t := Cow.Do(s, a);
    Cow.InvStep(s, a);
    AbsEnabled(s, a);
    OwnLive(s, a);
    var want := EagerDo(Alpha(s), Abs(s, a));
    forall p ensures p in Alpha(t) <==> p in want
             ensures p in want ==> Alpha(t)[p] == want[p]
    {
      if p != a.p {
        SimulatesOther(s, a, p);
      } else if Live(s, p) && !a.ExitStart? {
        OwnView(s, a);
      } else {
        SpawnView(s, a);
      }
    }
  }

  lemma SpawnView(s: State, a: Action)
    requires Cow.Inv(s) && Cow.Enabled(s, a) && (!Live(s, a.p) || a.ExitStart?)
    ensures !a.Spawn? ==> Abs(s, a) == ESkip || Abs(s, a) == EExit(a.p)
    ensures a.Spawn? ==> View(Cow.Do(s, a), a.p) == map[]
  {
  }

  lemma SimulatesOther(s: State, a: Action, o: Pid)
    requires Cow.Inv(s) && Cow.Enabled(s, a) && o != a.p && EagerEnabled(Alpha(s), Abs(s, a))
    ensures var want := EagerDo(Alpha(s), Abs(s, a));
            && (o in Alpha(Cow.Do(s, a)) <==> o in want)
            && (o in want ==> Alpha(Cow.Do(s, a))[o] == want[o])
  {
    hide Cow.Do, Cow.Enabled, Cow.Inv, TaskOK, View;
    AbsTarget(s, a, o);
    if a.ForkCommit? && WorksOn(s, a.p, o) {
      ForkedView(s, a, o);
    } else if Live(s, o) {
      OtherView(s, a, o);
    } else {
      OtherDead(s, a, o);
    }
  }

  lemma AbsTarget(s: State, a: Action, o: Pid)
    requires Cow.Enabled(s, a) && o != a.p
    ensures Abs(s, a).EFork? && Abs(s, a).c == o <==> a.ForkCommit? && WorksOn(s, a.p, o)
    ensures !Abs(s, a).ESkip? ==> Abs(s, a).p == a.p
  {
  }

  // ---- Whole runs ----

  /** Any interleaving of any number of processes. */
  ghost predicate ValidRun(states: seq<State>, actions: seq<Action>) {
    && |states| == |actions| + 1
    && Cow.Init(states[0])
    && forall i | 0 <= i < |actions| :: StepOf(states[i], actions[i], states[i + 1])
  }

  predicate StepOf(s: State, a: Action, t: State) {
    Cow.Enabled(s, a) && t == Cow.Do(s, a)
  }

  /** The reference model after the first k steps. */
  ghost function Eager(states: seq<State>, actions: seq<Action>, k: nat): Option<Memory>
    requires ValidRun(states, actions) && k < |states|
  {
    if k == 0 then Some(map[]) else
      assert StepOf(states[k - 1], actions[k - 1], states[k]);
      var m := Eager(states, actions, k - 1);
      if m.Some? && EagerEnabled(m.value, Abs(states[k - 1], actions[k - 1]))
      then Some(EagerDo(m.value, Abs(states[k - 1], actions[k - 1])))
      else None
  }

  lemma InvInit(s: State)
    requires Cow.Init(s)
    ensures Cow.Inv(s) && Alpha(s) == map[]
  {
    Pool.InvInit(s.ram);
  }

  /** In every run, processes see the memory of the eager model. */
  lemma {:induction false} RunRefines(states: seq<State>, actions: seq<Action>, k: nat)
    requires ValidRun(states, actions) && k < |states|
    ensures Cow.Inv(states[k])
    ensures Eager(states, actions, k) == Some(Alpha(states[k]))
  {
    hide Cow.Do, Cow.Enabled, Cow.Inv, Alpha, EagerDo, EagerEnabled, Abs;
    if k == 0 {
      InvInit(states[0]);
    } else {
      RunRefines(states, actions, k - 1);
      assert StepOf(states[k - 1], actions[k - 1], states[k]);
      Simulates(states[k - 1], actions[k - 1]);
    }
  }

  // ---- Byte by byte ----

  predicate StoresTo(a: Action, p: Pid, v: Vpn, i: nat) {
    a.Store? && a.p == p && a.v == v && a.off == i
  }

  predicate GrowsTo(s: State, a: Action, p: Pid, v: Vpn) {
    a.GrowMap? && a.p == p && p in s.tasks && s.tasks[p].Grow? && s.tasks[p].v == v
  }

  predicate ForksTo(s: State, a: Action, p: Pid) {
    a.ForkCommit? && a.p in s.tasks && s.tasks[a.p].Fork? && s.tasks[a.p].child == p
  }

  /** What byte i of page v of process p is after the first k steps: what was stored to
      it last, by p or before the fork that made p, or 0 since it was grown. */
  ghost function ByteAt(states: seq<State>, actions: seq<Action>, k: nat, p: Pid, v: Vpn, i: nat): int
    requires k <= |actions| <= |states|
  {
    if k == 0 then 0
    else if StoresTo(actions[k - 1], p, v, i) then actions[k - 1].x
    else if GrowsTo(states[k - 1], actions[k - 1], p, v) then 0
    else ByteAt(states, actions, k - 1, if ForksTo(states[k - 1], actions[k - 1], p) then actions[k - 1].p else p, v, i)
  }

  predicate HasByte(m: Memory, p: Pid, v: Vpn, i: nat, x: int) {
    p in m && v in m[p] ==> |m[p][v]| == PGSIZE && i < PGSIZE && m[p][v][i] == x
  }

  lemma ByteStep(s: State, a: Action, m: Memory, p: Pid, v: Vpn, i: nat, x: int)
    requires Cow.Enabled(s, a) && EagerEnabled(m, Abs(s, a)) && i < PGSIZE && HasByte(m, if ForksTo(s, a, p) then a.p else p, v, i, x)
    ensures HasByte(EagerDo(m, Abs(s, a)), p, v, i, if StoresTo(a, p, v, i) then a.x else if GrowsTo(s, a, p, v) then 0 else x)
  {
    hide Pool.Enabled, WantsPage, Maps;
  }

  /** In every run the memory of every process is that history: a byte reads what was
      last stored to it, by the process or before the fork that made it, and 0 where
      nothing has been stored since the page was grown. */
  lemma {:induction false} MemoryIsHistory(states: seq<State>, actions: seq<Action>, k: nat, p: Pid, v: Vpn, i: nat)
    requires ValidRun(states, actions) && k < |states| && i < PGSIZE
    ensures Eager(states, actions, k).Some?
    ensures HasByte(Eager(states, actions, k).value, p, v, i, ByteAt(states, actions, k, p, v, i))
  {
    hide Cow.Do, Cow.Inv, Cow.Enabled, Alpha, EagerDo, EagerEnabled, Abs, HasByte, StoresTo, GrowsTo, ForksTo;
    RunRefines(states, actions, k);
    if k == 0 {
      NoMemory(p, v, i);
    } else {
      var s, a := states[k - 1], actions[k - 1];
      assert StepOf(s, a, states[k]);
      RunRefines(states, actions, k - 1);
      var q := if ForksTo(s, a, p) then a.p else p;
      MemoryIsHistory(states, actions, k - 1, q, v, i);
      ByteStep(s, a, Eager(states, actions, k - 1).value, p, v, i, ByteAt(states, actions, k - 1, q, v, i));
    }
  }

  lemma NoMemory(p: Pid, v: Vpn, i: nat)
    ensures HasByte(map[], p, v, i, 0)
  {
  }

  // ---- Consequences ----

  /** What a running process reads through its page table, byte by byte. */
  lemma LoadReadsLastStore(states: seq<State>, actions: seq<Action>, k: nat, p: Pid, v: Vpn, i: nat)
    requires ValidRun(states, actions) && k < |states| && i < PGSIZE && Resting(states[k], p) && v in states[k].pt[p]
    ensures Maps(states[k], p, v) && states[k].ram.mem[states[k].pt[p][v].page][i] == ByteAt(states, actions, k, p, v, i)
  {
    hide ValidRun, Cow.Inv, Alpha, Eager, ByteAt;
    RunRefines(states, actions, k);
    LoadSeesView(states[k], p, v);
    MemoryIsHistory(states, actions, k, p, v, i);
  }

  /** What a running process reads through its table is its view. */
  lemma LoadSeesView(s: State, p: Pid, v: Vpn)
    requires Cow.Inv(s) && Resting(s, p) && v in s.pt[p]
    ensures Maps(s, p, v) && p in Alpha(s) && v in Alpha(s)[p]
    ensures s.ram.mem[s.pt[p][v].page] == Alpha(s)[p][v]
  {
    InOrder(s, p);
    SourceHeld(s, p, v);
  }

  /** A writable mapping has a page to itself, whatever its process is doing; only
      one that is being removed is no longer counted. */
  lemma WritableMeansOne(s: State, p: Pid, v: Vpn)
    requires Cow.Inv(s) && Mapped(p, v) in s.ram.holders && p in s.pt && v in s.pt[p] && s.pt[p][v].writable
    ensures Maps(s, p, v) && s.ram.ref[s.pt[p][v].page] == 1
  {
    var h := Mapped(p, v);
    assert Refers(s, h);
    var all := HoldersOf(s.ram.holders, s.pt[p][v].page);
    forall k | k in all ensures k == h {
      assert AlonePair(s, h, k);
    }
    assert all == {h};
  }

  /** Counts are the live holders, corrected for steps in flight: every mapping
      is counted once, except one that its table's owner has in flight. */
  lemma CountsAreHolders(s: State, q: int)
    requires Cow.Inv(s) && IsPage(s.ram, q)
    ensures s.ram.ref[q] == |HoldersOf(s.ram.holders, q)|
    ensures forall t, v | t in s.pt && v in s.pt[t] && s.pt[t][v].page == q ::
              Mapped(t, v) in HoldersOf(s.ram.holders, q) || exists o :: o in s.tasks && Stale(o, s.tasks[o]) == Some((t, v))
    ensures forall t, v | Mapped(t, v) in HoldersOf(s.ram.holders, q) :: t in s.pt && v in s.pt[t] && s.pt[t][v].page == q
  {
    hide Alone;
    forall t, v | t in s.pt && v in s.pt[t] && s.pt[t][v].page == q && Mapped(t, v) !in HoldersOf(s.ram.holders, q)
      ensures exists o :: o in s.tasks && Stale(o, s.tasks[o]) == Some((t, v))
    {
      assert Refers(s, Mapped(t, v));
      if t in s.tasks {
        InOrder(s, t);
        assert Stale(t, s.tasks[t]) == Some((t, v));
      } else {
        var o :| WorksOn(s, o, t);
        InOrder(s, o);
        assert Stale(o, s.tasks[o]) == Some((t, v));
      }
    }
    forall t, v | Mapped(t, v) in HoldersOf(s.ram.holders, q) ensures t in s.pt && v in s.pt[t] && s.pt[t][v].page == q {
      assert Refers(s, Mapped(t, v));
    }
  }

  /** The thread abandons what it is doing for want of memory. */
  predicate GivesUp(s: State, a: Action) {
    a.ForkFail? || a.KallocFail? || (a.HandFree? && a.p in s.tasks && s.tasks[a.p].Grow?)
  }

  /** The code never meets a count it panics on: whatever a thread is in the middle
      of, the next step towards its end can be taken, and it need not give up but
      for a page it asks for while none is free. */
  lemma NeverStuck(s: State, p: Pid) returns (a: Action)
    requires Cow.Inv(s) && p in s.tasks && (s.tasks[p] == Rest ==> p in s.ram.transit)
    ensures a.p == p && Cow.Enabled(s, a)
    ensures GivesUp(s, a) ==> a == KallocFail(p) && s.ram.free == []
    ensures Left(Cow.Do(s, a), p) < Left(s, p)
  {
    hide Cow.Inv, Cow.Enabled, Cow.Do, Left;
    if p in s.ram.transit {
      a := TransitProgress(s, p);
      CloserTransit(s, p, a);
    } else {
      match s.tasks[p]
      case FaultDropped(v) =>
        a := DroppedProgress(s, p);
        CloserFault(s, p, a);
      case Grow(v, z) =>
        a := GrowProgress(s, p);
        if Hand(p) in s.ram.holders {
          CloserFault(s, p, a);
        } else {
          CloserKalloc(s, p, a);
        }
      case Kern =>
        a := KernProgress(s, p);
        CloserKern(s, p, a);
      case Fork(c, cur, cleared) =>
        a := ForkProgress(s, p);
        CloserFork(s, p, a);
      case Unmap(t, cur, whole) =>
        a := UnmapProgress(s, p);
        CloserUnmap(s, p, a);
      case _ => a := FaultProgress(s, p);
    }
  }

  lemma TransitProgress(s: State, p: Pid) returns (a: Action)
    requires Cow.Inv(s) && p in s.tasks && p in s.ram.transit
    ensures a == (if s.ram.transit[p].Popped? then KallocSet(p) else PushFree(p)) && Cow.Enabled(s, a)
  {
    hide Alone, Owned, Refers;
    InOrder(s, p);
    assert Pool.Idle(s.ram, s.ram.transit[p].q);
    a := if s.ram.transit[p].Popped? then KallocSet(p) else PushFree(p);
  }

  lemma DroppedProgress(s: State, p: Pid) returns (a: Action)
    requires Cow.Inv(s) && p in s.tasks && p !in s.ram.transit && s.tasks[p].FaultDropped?
    ensures a == Remap(p) && Cow.Enabled(s, a)
  {
    hide Alone, Owned, Refers;
    InOrder(s, p);
    a := Remap(p);
  }

  lemma KernProgress(s: State, p: Pid) returns (a: Action)
    requires Cow.Inv(s) && p in s.tasks && p !in s.ram.transit && s.tasks[p] == Kern
    ensures a == (if Hand(p) in s.ram.holders then HandFree(p) else KernEnd(p)) && Cow.Enabled(s, a)
  {
    hide Alone, Owned, Refers;
    a := if Hand(p) in s.ram.holders then HandFree(p) else KernEnd(p);
  }

  lemma GrowProgress(s: State, p: Pid) returns (a: Action)
    requires Cow.Inv(s) && p in s.tasks && p !in s.ram.transit && s.tasks[p].Grow?
    ensures a.p == p && Cow.Enabled(s, a)
    ensures if Hand(p) in s.ram.holders then a == (if s.tasks[p].zeroed then GrowMap(p, true) else GrowZero(p))
            else !s.tasks[p].zeroed && a == if s.ram.free == [] then KallocFail(p) else KallocPop(p)
  {
    hide Alone, Owned;
    InOrder(s, p);
    assert Refers(s, Mapped(p, s.tasks[p].v));
    a := if Hand(p) !in s.ram.holders then (if s.ram.free == [] then KallocFail(p) else KallocPop(p))
         else if s.tasks[p].zeroed then GrowMap(p, true) else GrowZero(p);
  }

  lemma FaultProgress(s: State, p: Pid) returns (a: Action)
    requires Cow.Inv(s) && p in s.tasks && p !in s.ram.transit
    requires s.tasks[p].FaultSole? || s.tasks[p].FaultWant? || s.tasks[p].FaultCopied?
    ensures a.p == p && Cow.Enabled(s, a)
    ensures GivesUp(s, a) ==> a == KallocFail(p) && s.ram.free == []
    ensures Left(Cow.Do(s, a), p) < Left(s, p)
  {
    hide Cow.Inv, Cow.Enabled, Cow.Do, Left;
    a := FaultStep(s, p);
    if a.KallocPop? || a.KallocFail? {
      CloserKalloc(s, p, a);
    } else {
      CloserFault(s, p, a);
    }
  }

  lemma FaultStep(s: State, p: Pid) returns (a: Action)
    requires Cow.Inv(s) && p in s.tasks && p !in s.ram.transit
    requires s.tasks[p].FaultSole? || s.tasks[p].FaultWant? || s.tasks[p].FaultCopied?
    ensures a.p == p && Cow.Enabled(s, a) && (a.SetWritable? || a.DropOld? || a.CopyPage? || a.KallocPop? || a == KallocFail(p))
    ensures a.KallocFail? ==> s.ram.free == []
  {
    hide Alone, Owned;
    InOrder(s, p);
    assert Refers(s, Mapped(p, s.tasks[p].v));
    a := if s.tasks[p].FaultSole? then SetWritable(p)
         else if s.tasks[p].FaultCopied? then DropOld(p)
         else if Hand(p) in s.ram.holders then CopyPage(p)
         else if s.ram.free == [] then KallocFail(p) else KallocPop(p);
  }

  lemma Pick<T>(entries: set<T>) returns (v: T)
    requires entries != {}
    ensures v in entries
  {
    v :| v in entries;
  }

  lemma UnmapProgress(s: State, p: Pid) returns (a: Action)
    requires Cow.Inv(s) && p in s.tasks && s.tasks[p].Unmap? && p !in s.ram.transit
    ensures a.p == p && Cow.Enabled(s, a) && (a.ClearPte? || a.UnmapEnd? || a.DropPte?)
  {
    hide Alone, Owned;
    InOrder(s, p);
    var t := s.tasks[p].t;
    if s.tasks[p].cur.Some? {
      a := ClearPte(p);
    } else if s.pt[t].Keys == {} {
      a := UnmapEnd(p);
    } else {
      var v := Pick(s.pt[t].Keys);
      a := DropPte(p, t, v);
    }
  }

  lemma CopiedAll(s: State, p: Pid, c: Pid)
    requires p in s.pt && c in s.pt && s.pt[p].Keys - s.pt[c].Keys == {} && forall v | v in s.pt[c] :: v in s.pt[p]
    ensures s.pt[c].Keys == s.pt[p].Keys
  {
    var mine, its := s.pt[p].Keys, s.pt[c].Keys;
    forall v | v in its ensures v in mine {
      assert v in s.pt[c];
    }
    assert mine == its + (mine - its);
  }

  lemma ForkProgress(s: State, p: Pid) returns (a: Action)
    requires Cow.Inv(s) && p in s.tasks && s.tasks[p].Fork? && p !in s.ram.transit
    ensures a.p == p && Cow.Enabled(s, a) && (a.ForkMap? || (a.ForkClear? && !s.tasks[p].cleared) || a.ForkInc? || a.ForkCommit?)
  {
    hide Cow.Inv, Cow.Enabled;
    if s.tasks[p].cur == None {
      a := ForkNext(s, p);
    } else {
      a := ForkCurrent(s, p);
    }
  }

  lemma ForkNext(s: State, p: Pid) returns (a: Action)
    requires Cow.Inv(s) && p in s.tasks && s.tasks[p].Fork? && p !in s.ram.transit && s.tasks[p].cur == None
    ensures a.p == p && Cow.Enabled(s, a) && (a.ForkMap? || a.ForkCommit?)
  {
    hide Alone, Owned;
    InOrder(s, p);
    var c := s.tasks[p].child;
    var left := s.pt[p].Keys - s.pt[c].Keys;
    if left == {} {
      CopiedAll(s, p, c);
      a := ForkCommit(p);
    } else {
      var v := Pick(left);
      assert Refers(s, Mapped(p, v));
      a := ForkMap(p, v);
    }
  }

  lemma ForkCurrent(s: State, p: Pid) returns (a: Action)
    requires Cow.Inv(s) && p in s.tasks && s.tasks[p].Fork? && p !in s.ram.transit && s.tasks[p].cur.Some?
    ensures a.p == p && Cow.Enabled(s, a) && ((a.ForkClear? && !s.tasks[p].cleared) || a.ForkInc?)
  {
    hide Alone, Owned;
    InOrder(s, p);
    var v := s.tasks[p].cur.value;
    assert Refers(s, Mapped(p, v));
    assert Mapped(p, v) in HoldersOf(s.ram.holders, s.pt[p][v].page);
    a := if s.tasks[p].cleared then ForkInc(p) else ForkClear(p);
  }

  // ---- Every operation can be finished ----

  /** Steps kalloc still takes: to take a page off the list, to count it. */
  function Fetching(s: State, p: Pid): nat {
    if Hand(p) in s.ram.holders then 0 else if p in s.ram.transit then 1 else 2
  }

  /** A bound on the steps thread p has to take to the end of what it is doing. */
  function Left(s: State, p: Pid): nat {
    if p !in s.tasks then 0
    else
      var busy := if p in s.ram.transit then 1 else 0;
      match s.tasks[p]
      case Rest => busy
      case FaultSole(_) => 1
      case FaultWant(_) => Fetching(s, p) + 4
      case FaultCopied(_) => 3
      case FaultDropped(_) => 1 + busy
      case Grow(_, zeroed) => if zeroed then 1 else Fetching(s, p) + 2
      case Kern => 1 + (if Hand(p) in s.ram.holders then 3 else 0) + (if p in s.ram.transit && s.ram.transit[p].Popped? then 4 else busy)
      case Unmap(t, cur, whole) =>
        var n := if whole then Entries(s, t) else 1;
        if cur == None then 3 * n + 2 else 3 * n + busy
      case Fork(c, cur, cleared) =>
        3 * Uncopied(s, p, c) + if cur == None then 2 else if cleared then 3 else 4
  }

  function Entries(s: State, t: Pid): nat {
    if t in s.pt then |s.pt[t].Keys| else 0
  }

  function Uncopied(s: State, p: Pid, c: Pid): nat {
    if p in s.pt && c in s.pt then |s.pt[p].Keys - s.pt[c].Keys| else 0
  }

  lemma CloserTransit(s: State, p: Pid, a: Action)
    requires Cow.Inv(s) && p in s.tasks && p in s.ram.transit && a == (if s.ram.transit[p].Popped? then KallocSet(p) else PushFree(p)) && Cow.Enabled(s, a)
    ensures Left(Cow.Do(s, a), p) < Left(s, p)
  {
    InOrder(s, p);
    hide Cow.Inv;
  }

  lemma CloserFault(s: State, p: Pid, a: Action)
    requires Cow.Inv(s) && p in s.tasks && p !in s.ram.transit && a.p == p && Cow.Enabled(s, a)
    requires a.SetWritable? || a.CopyPage? || a.DropOld? || a.Remap? || a.GrowMap? || (a.GrowZero? && !s.tasks[p].zeroed)
    ensures Left(Cow.Do(s, a), p) < Left(s, p)
  {
    hide Cow.Inv;
  }

  lemma CloserKalloc(s: State, p: Pid, a: Action)
    requires p in s.tasks && p !in s.ram.transit && s.tasks[p] != Kern && (a == KallocPop(p) || a == KallocFail(p)) && Cow.Enabled(s, a)
    requires s.tasks[p].Grow? ==> !s.tasks[p].zeroed
    ensures Left(Cow.Do(s, a), p) < Left(s, p)
  {
  }

  lemma CloserKern(s: State, p: Pid, a: Action)
    requires p in s.tasks && p !in s.ram.transit && s.tasks[p] == Kern && (a == HandFree(p) || a == KernEnd(p)) && Cow.Enabled(s, a)
    ensures Left(Cow.Do(s, a), p) < Left(s, p)
  {
  }

  lemma CloserUnmap(s: State, p: Pid, a: Action)
    requires Cow.Inv(s) && p in s.tasks && p !in s.ram.transit && s.tasks[p].Unmap? && a.p == p && Cow.Enabled(s, a)
    requires a.ClearPte? || a.UnmapEnd? || a.DropPte?
    ensures Left(Cow.Do(s, a), p) < Left(s, p)
  {
    hide Cow.Inv, Cow.Do, Cow.Enabled;
    Basics(s, p);
    UnmapEffect(s, a);
    if a.ClearPte? {
      UnmapsEntry(s, p);
      var t, v := s.tasks[p].t, s.tasks[p].cur.value;
      assert (s.pt[t] - {v}).Keys == s.pt[t].Keys - {v};
    }
  }

  lemma UnmapEffect(s: State, a: Action)
    requires Cow.Enabled(s, a) && a.p in s.tasks && s.tasks[a.p].Unmap?
    ensures var u, k := Cow.Do(s, a), s.tasks[a.p];
            && (a.DropPte? ==> k == Unmap(a.t, None, true) && u.pt == s.pt && a.p in u.tasks && u.tasks[a.p] == Unmap(a.t, Some(a.v), true))
            && (a.ClearPte? ==>
                  && k.t in s.pt && k.cur.Some? && u.pt == s.pt[k.t := s.pt[k.t] - {k.cur.value}] && u.ram == s.ram
                  && a.p in u.tasks && u.tasks[a.p] == if k.whole then Unmap(k.t, None, true) else Rest)
            && (a.UnmapEnd? ==> k.cur == None && u.ram == s.ram && (a.p in u.tasks ==> u.tasks[a.p] == Rest))
  {
  }

  lemma UnmapsEntry(s: State, p: Pid)
    requires Cow.Inv(s) && p in s.tasks && s.tasks[p].Unmap? && s.tasks[p].cur.Some?
    ensures s.tasks[p].t in s.pt && s.tasks[p].cur.value in s.pt[s.tasks[p].t]
  {
    InOrder(s, p);
  }

  lemma CloserFork(s: State, p: Pid, a: Action)
    requires Cow.Inv(s) && p in s.tasks && p !in s.ram.transit && s.tasks[p].Fork? && a.p == p && Cow.Enabled(s, a)
    requires a.ForkMap? || (a.ForkClear? && !s.tasks[p].cleared) || a.ForkInc? || a.ForkCommit?
    ensures Left(Cow.Do(s, a), p) < Left(s, p)
  {
    hide Cow.Inv, Cow.Do, Cow.Enabled, Left, Uncopied;
    Basics(s, p);
    ForkEffect(s, a);
    var c, u := s.tasks[p].child, Cow.Do(s, a);
    LeftFork(s, p);
    LeftFork(u, p);
    UncopiedNow(s, p, c);
    UncopiedNow(u, p, c);
    if a.ForkMap? {
      OneLess(s.pt[p].Keys, s.pt[c].Keys, a.v);
    }
  }

  lemma LeftFork(s: State, p: Pid)
    requires p in s.tasks
    ensures s.tasks[p].Fork? ==>
              Left(s, p) == 3 * Uncopied(s, p, s.tasks[p].child) + if s.tasks[p].cur == None then 2 else if s.tasks[p].cleared then 3 else 4
    ensures s.tasks[p] == Rest ==> Left(s, p) <= 1
  {
  }

  lemma UncopiedNow(s: State, p: Pid, c: Pid)
    ensures p in s.pt && c in s.pt ==> Uncopied(s, p, c) == |s.pt[p].Keys - s.pt[c].Keys|
    ensures c !in s.pt ==> Uncopied(s, p, c) == 0
  {
  }

  lemma OneLess(mine: set<Vpn>, its: set<Vpn>, v: Vpn)
    requires v in mine && v !in its
    ensures |mine - (its + {v})| == |mine - its| - 1
  {
    assert mine - (its + {v}) == (mine - its) - {v};
  }

  lemma ForkEffect(s: State, a: Action)
    requires Cow.Enabled(s, a) && a.p in s.tasks && s.tasks[a.p].Fork? && s.tasks[a.p].child != a.p && a.p in s.pt
    requires a.ForkMap? || a.ForkClear? || a.ForkInc? || a.ForkCommit?
    ensures var u, k := Cow.Do(s, a), s.tasks[a.p];
            && a.p in u.tasks && a.p in u.pt && u.pt[a.p].Keys == s.pt[a.p].Keys && u.ram.transit == s.ram.transit
            && (a.ForkMap? ==>
                  && k.cur == None && k.child in s.pt && a.v in s.pt[a.p] && a.v !in s.pt[k.child] && u.tasks[a.p] == Fork(k.child, Some(a.v), false)
                  && k.child in u.pt && u.pt[k.child].Keys == s.pt[k.child].Keys + {a.v})
            && (a.ForkClear? ==> k.cur.Some? && u.tasks[a.p] == Fork(k.child, k.cur, true) && u.pt == s.pt[a.p := u.pt[a.p]])
            && (a.ForkInc? ==> k.cur.Some? && k.cleared && u.tasks[a.p] == Fork(k.child, None, false) && u.pt == s.pt)
            && (a.ForkCommit? ==> u.tasks[a.p] == Rest)
  {
  }

  ghost predicate Leads(s: State, acts: seq<Action>, u: State)
    decreases |acts|
  {
    if acts == [] then s == u else Cow.Enabled(s, acts[0]) && Leads(Cow.Do(s, acts[0]), acts[1..], u)
  }

  /** Whatever a thread is in the middle of, it can finish by steps of its own, at most
      Left of them, and is then outside the kernel or gone. */
  lemma {:induction false} Finishes(s: State, p: Pid) returns (acts: seq<Action>, u: State)
    requires Cow.Inv(s)
    ensures Leads(s, acts, u) && |acts| <= Left(s, p) && forall i | 0 <= i < |acts| :: acts[i].p == p
    ensures Cow.Inv(u) && (p !in u.tasks || Resting(u, p))
    decreases Left(s, p)
  {
    hide Cow.Inv, Cow.Enabled, Cow.Do, Left;
    acts, u := [], s;
    if p in s.tasks {
      if s.tasks[p] == Rest && p !in s.ram.transit {
        Basics(s, p);
      } else {
        var a := NeverStuck(s, p);
        Cow.InvStep(s, a);
        var rest, end := Finishes(Cow.Do(s, a), p);
        acts, u := [a] + rest, end;
        assert acts[1..] == rest;
      }
    }
  }

  /** The last step of a fault leaves the page so that the store that faulted goes
      through. */
  lemma FaultServes(s: State, a: Action, off: nat, x: int)
    requires Cow.Inv(s) && Cow.Enabled(s, a) && (a.SetWritable? || a.Remap?) && off < PGSIZE
    ensures Cow.Enabled(Cow.Do(s, a), Store(a.p, s.tasks[a.p].v, off, x))
  {
    hide Cow.Inv;
  }
}
