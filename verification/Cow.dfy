/** Copy-on-write memory: fork, write fault, store, grow, shrink and exit of
    kernel/vm.c, interleaved at the locks of the page pool.

    Every process is a thread with its own page table.  A forking parent also
    owns the table of the child it is building, and kernel users of kalloc
    (page-table pages, trap frames, pipes) are threads without a table. */
module Cow {
  import opened Params
  import opened Pool = PagePool

  datatype Option<T> = None | Some(value: T)

  datatype Pte = Pte(page: int, writable: bool)

  type Table = map<Vpn, Pte>

  datatype Task =
    | Rest
    | FaultSole(v: Vpn)                                        // vmfault: count was 1
    | FaultWant(v: Vpn)                                        // vmfault: count was more, needs a page
    | FaultCopied(v: Vpn)
    | FaultDropped(v: Vpn)                                     // v still maps the old page, no longer counted
    | Grow(v: Vpn, zeroed: bool)                               // uvmalloc, one page
    | Fork(child: Pid, cur: Option<Vpn>, cleared: bool)        // uvmcopy; cur is mapped, not yet counted
    | Unmap(t: Pid, cur: Option<Vpn>, whole: bool)             // uvmunmap; cur is dropped, not yet cleared
    | Kern

  datatype State = State(ram: Ram, pt: map<Pid, Table>, tasks: map<Pid, Task>)

  datatype Action =
    | Spawn(p: Pid)
    | KernStart(p: Pid)
    | KernEnd(p: Pid)
    | Store(p: Pid, v: Vpn, off: nat, x: int)
    | CheckSole(p: Pid, v: Vpn)
    | CheckShared(p: Pid, v: Vpn)
    | SetWritable(p: Pid)
    | KallocPop(p: Pid)
    | KallocFail(p: Pid)
    | KallocSet(p: Pid)
    | PushFree(p: Pid)
    | CopyPage(p: Pid)
    | DropOld(p: Pid)
    | Remap(p: Pid)
    | GrowStart(p: Pid, v: Vpn)
    | GrowZero(p: Pid)
    | GrowMap(p: Pid, w: bool)
    | HandFree(p: Pid)
    | DropPte(p: Pid, t: Pid, v: Vpn)
    | ClearPte(p: Pid)
    | ExitStart(p: Pid)
    | UnmapEnd(p: Pid)
    | ForkStart(p: Pid, c: Pid)
    | ForkMap(p: Pid, v: Vpn)
    | ForkClear(p: Pid)
    | ForkInc(p: Pid)
    | ForkCommit(p: Pid)
    | ForkFail(p: Pid)

  // ---- Transitions ----

  /** Not between the two locks of an allocator routine. */
  predicate Free(s: State, p: Pid) {
    p in s.tasks && p !in s.ram.transit
  }

  predicate Resting(s: State, p: Pid) {
    Free(s, p) && s.tasks[p] == Rest && p in s.pt
  }

  predicate Maps(s: State, t: Pid, v: Vpn) {
    t in s.pt && v in s.pt[t] && IsPage(s.ram, s.pt[t][v].page)
  }

  predicate Fresh(s: State, p: Pid) {
    p !in s.tasks && p !in s.pt
  }

  predicate Holding(s: State, p: Pid) {
    Counted(s.ram, Hand(p))
  }

  /** The code asks kalloc for a page at this point. */
  predicate WantsPage(s: State, p: Pid) {
    && Free(s, p) && Hand(p) !in s.ram.holders
    && (s.tasks[p].FaultWant? || s.tasks[p].Grow? || s.tasks[p] == Kern)
  }

  predicate Enabled(s: State, a: Action) {
    match a
    case Spawn(p) => Fresh(s, p)
    case KernStart(p) => Fresh(s, p)
    case KernEnd(p) => Free(s, p) && s.tasks[p] == Kern && Hand(p) !in s.ram.holders
    case Store(p, v, off, _) => Resting(s, p) && Maps(s, p, v) && s.pt[p][v].writable && off < PGSIZE
    case CheckSole(p, v) =>
      Resting(s, p) && Maps(s, p, v) && !s.pt[p][v].writable && s.ram.ref[s.pt[p][v].page] <= 1
    case CheckShared(p, v) =>
      Resting(s, p) && Maps(s, p, v) && !s.pt[p][v].writable && s.ram.ref[s.pt[p][v].page] > 1
    case SetWritable(p) => Free(s, p) && s.tasks[p].FaultSole? && Maps(s, p, s.tasks[p].v)
    case KallocPop(p) => WantsPage(s, p) && s.ram.free != []
    case KallocFail(p) => WantsPage(s, p) && s.ram.free == [] && s.tasks[p] != Kern
    case KallocSet(p) => p in s.tasks && Pool.Enabled(s.ram, SetNew(p))
    case PushFree(p) => p in s.tasks && Pool.Enabled(s.ram, Push(p))
    case CopyPage(p) => Free(s, p) && s.tasks[p].FaultWant? && Holding(s, p) && Maps(s, p, s.tasks[p].v)
    case DropOld(p) => Free(s, p) && s.tasks[p].FaultCopied? && Counted(s.ram, Mapped(p, s.tasks[p].v))
    case Remap(p) =>
      && Free(s, p) && s.tasks[p].FaultDropped? && Holding(s, p) && p in s.pt
      && Mapped(p, s.tasks[p].v) !in s.ram.holders
    case GrowStart(p, v) => Resting(s, p) && v !in s.pt[p]
    case GrowZero(p) => Free(s, p) && s.tasks[p].Grow? && Holding(s, p)
    case GrowMap(p, _) =>
      && Free(s, p) && s.tasks[p].Grow? && s.tasks[p].zeroed && Holding(s, p) && p in s.pt
      && Mapped(p, s.tasks[p].v) !in s.ram.holders
    case HandFree(p) => Free(s, p) && (s.tasks[p].Grow? || s.tasks[p] == Kern) && Holding(s, p)
    case DropPte(p, t, v) =>
      && Free(s, p) && Counted(s.ram, Mapped(t, v))
      && ((Resting(s, p) && t == p) || s.tasks[p] == Unmap(t, None, true))
    case ClearPte(p) => Free(s, p) && s.tasks[p].Unmap? && s.tasks[p].cur.Some? && s.tasks[p].t in s.pt
    case ExitStart(p) => Resting(s, p)
    case UnmapEnd(p) =>
      && Free(s, p) && s.tasks[p].Unmap? && s.tasks[p].cur == None
      && s.tasks[p].t in s.pt && s.pt[s.tasks[p].t].Keys == {}
    case ForkStart(p, c) => Resting(s, p) && Fresh(s, c)
    case ForkMap(p, v) =>
      && Free(s, p) && s.tasks[p].Fork? && s.tasks[p].cur == None
      && s.tasks[p].child in s.pt && v !in s.pt[s.tasks[p].child] && Maps(s, p, v)
    case ForkClear(p) =>
      && Free(s, p) && s.tasks[p].Fork? && s.tasks[p].cur.Some? && !s.tasks[p].cleared
      && Maps(s, p, s.tasks[p].cur.value)
    case ForkInc(p) =>
      && Free(s, p) && s.tasks[p].Fork? && s.tasks[p].cur.Some? && s.tasks[p].cleared
      && Maps(s, p, s.tasks[p].cur.value)
      && Pool.Enabled(s.ram, Inc(Mapped(s.tasks[p].child, s.tasks[p].cur.value), s.pt[p][s.tasks[p].cur.value].page))
    case ForkCommit(p) =>
      && Free(s, p) && p in s.pt && s.tasks[p].Fork? && s.tasks[p].cur == None
      && s.tasks[p].child in s.pt && s.pt[s.tasks[p].child].Keys == s.pt[p].Keys
    case ForkFail(p) => Free(s, p) && s.tasks[p].Fork? && s.tasks[p].cur == None
  }

  /** The allocator's part of a step. */
  function RamOp(s: State, a: Action): (op: Op)
    requires Enabled(s, a)
    ensures Pool.Enabled(s.ram, op)
  {
    match a
    case Store(p, v, off, x) => Write(s.pt[p][v].page, s.ram.mem[s.pt[p][v].page][off := x])
    case KallocPop(p) => Pop(p)
    case KallocSet(p) => SetNew(p)
    case PushFree(p) => Push(p)
    case CopyPage(p) => Write(s.ram.holders[Hand(p)], s.ram.mem[s.pt[p][s.tasks[p].v].page])
    case DropOld(p) => Dec(p, Mapped(p, s.tasks[p].v))
    case Remap(p) => Move(Hand(p), Mapped(p, s.tasks[p].v))
    case GrowZero(p) => Write(s.ram.holders[Hand(p)], Filled(0))
    case GrowMap(p, _) => Move(Hand(p), Mapped(p, s.tasks[p].v))
    case HandFree(p) => Dec(p, Hand(p))
    case DropPte(p, t, v) => Dec(p, Mapped(t, v))
    case ForkInc(p) => Inc(Mapped(s.tasks[p].child, s.tasks[p].cur.value), s.pt[p][s.tasks[p].cur.value].page)
    case _ => Nop
  }

  /** The page tables after a step. */
  function NextPt(s: State, a: Action): map<Pid, Table>
    requires Enabled(s, a)
  {
    match a
    case Spawn(p) => s.pt[p := map[]]
    case SetWritable(p) => Put(s.pt, p, s.tasks[p].v, Pte(s.pt[p][s.tasks[p].v].page, true))
    case Remap(p) => Put(s.pt, p, s.tasks[p].v, Pte(s.ram.holders[Hand(p)], true))
    case GrowMap(p, w) => Put(s.pt, p, s.tasks[p].v, Pte(s.ram.holders[Hand(p)], w))
    case ClearPte(p) => s.pt[s.tasks[p].t := s.pt[s.tasks[p].t] - {s.tasks[p].cur.value}]
    case UnmapEnd(p) => s.pt - {s.tasks[p].t}
    case ForkStart(p, c) => s.pt[c := map[]]
    case ForkMap(p, v) => Put(s.pt, s.tasks[p].child, v, Pte(s.pt[p][v].page, false))
    case ForkClear(p) => Put(s.pt, p, s.tasks[p].cur.value, Pte(s.pt[p][s.tasks[p].cur.value].page, false))
    case _ => s.pt
  }

  function Put(pt: map<Pid, Table>, t: Pid, v: Vpn, e: Pte): map<Pid, Table>
    requires t in pt
  {
    pt[t := pt[t][v := e]]
  }

  /** What the acting thread does next; None once it is gone. */
  function NextTask(s: State, a: Action): Option<Task>
    requires Enabled(s, a)
  {
    match a
    case Spawn(_) => Some(Rest)
    case KernStart(_) => Some(Kern)
    case KernEnd(_) => None
    case CheckSole(_, v) => Some(FaultSole(v))
    case CheckShared(_, v) => Some(FaultWant(v))
    case CopyPage(p) => Some(FaultCopied(s.tasks[p].v))
    case DropOld(p) => Some(FaultDropped(s.tasks[p].v))
    case GrowStart(_, v) => Some(Grow(v, false))
    case GrowZero(p) => Some(Grow(s.tasks[p].v, true))
    case HandFree(p) => if s.tasks[p] == Kern then Some(Kern) else Some(Rest)
    case DropPte(p, t, v) => Some(Unmap(t, Some(v), s.tasks[p] != Rest))
    case ClearPte(p) => if s.tasks[p].whole then Some(Unmap(s.tasks[p].t, None, true)) else Some(Rest)
    case ExitStart(p) => Some(Unmap(p, None, true))
    case UnmapEnd(p) => if s.tasks[p].t == p then None else Some(Rest)
    case ForkStart(_, c) => Some(Fork(c, None, false))
    case ForkMap(p, v) => Some(Fork(s.tasks[p].child, Some(v), false))
    case ForkClear(p) => Some(Fork(s.tasks[p].child, s.tasks[p].cur, true))
    case ForkInc(p) => Some(Fork(s.tasks[p].child, None, false))
    case ForkFail(p) => Some(Unmap(s.tasks[p].child, None, true))
    case SetWritable(_) => Some(Rest)
    case KallocFail(_) => Some(Rest)
    case Remap(_) => Some(Rest)
    case GrowMap(_, _) => Some(Rest)
    case ForkCommit(_) => Some(Rest)
    case _ => Some(s.tasks[a.p])
  }

  function NextTasks(s: State, a: Action): map<Pid, Task>
    requires Enabled(s, a)
  {
    var n := NextTask(s, a);
    var own := if n.Some? then s.tasks[a.p := n.value] else s.tasks - {a.p};
    if a.ForkCommit? then own[s.tasks[a.p].child := Rest] else own
  }

  function Do(s: State, a: Action): State
    requires Enabled(s, a)
  {
    State(Pool.Do(s.ram, RamOp(s, a)), NextPt(s, a), NextTasks(s, a))
  }

  predicate Init(s: State) {
    Pool.Init(s.ram) && s.pt == map[] && s.tasks == map[]
  }

  // ---- The invariant ----

  /** The mapping a thread has in flight: present in a table, not counted. */
  function Stale(p: Pid, task: Task): Option<(Pid, Vpn)> {
    match task
    case FaultDropped(v) => Some((p, v))
    case Fork(c, Some(v), _) => Some((c, v))
    case Unmap(t, Some(v), _) => Some((t, v))
    case _ => None
  }

  /** The table, other than its own, that a thread is working on. */
  function Foreign(p: Pid, task: Task): Option<Pid> {
    match task
    case Fork(c, _, _) => Some(c)
    case Unmap(t, _, _) => if t == p then None else Some(t)
    case _ => None
  }

  /** Table `t` is there and all of it is counted, but for what `p` has in flight. */
  predicate CountedTable(s: State, p: Pid, t: Pid)
    requires p in s.tasks
  {
    t in s.pt &&
    forall v | v in s.pt[t] :: (Mapped(t, v) in s.ram.holders <==> Stale(p, s.tasks[p]) != Some((t, v)))
  }

  predicate InPlace(s: State, p: Pid, v: Vpn) {
    p in s.pt && v in s.pt[p] && !s.pt[p][v].writable
  }

  predicate ForkOK(s: State, p: Pid, c: Pid, cur: Option<Vpn>, cleared: bool)
    requires p in s.tasks
  {
    && c != p && c !in s.tasks && CountedTable(s, p, c) && p in s.pt
    && (cur.Some? ==> cur.value in s.pt[c])
    && (cleared ==> cur.Some?)
    && (forall v | v in s.pt[c] ::
          && v in s.pt[p] && s.pt[c][v] == Pte(s.pt[p][v].page, false)
          && (s.pt[p][v].writable ==> cur == Some(v) && !cleared))
  }

  predicate UnmapOK(s: State, p: Pid, t: Pid, cur: Option<Vpn>, whole: bool)
    requires p in s.tasks
  {
    && CountedTable(s, p, t)
    && (t != p ==> t !in s.tasks && whole)
    && (cur.Some? ==> cur.value in s.pt[t])
    && (cur == None ==> whole)
  }

  /** Which allocator routine a thread can be inside. */
  predicate TransitOK(s: State, p: Pid)
    requires p in s.tasks
  {
    p in s.ram.transit ==>
      if s.ram.transit[p].Popped?
      then Hand(p) !in s.ram.holders && (s.tasks[p].FaultWant? || s.tasks[p] == Kern || (s.tasks[p].Grow? && !s.tasks[p].zeroed))
      else s.tasks[p].FaultDropped? || s.tasks[p] == Kern || s.tasks[p] == Rest || (s.tasks[p].Unmap? && s.tasks[p].cur.Some?)
  }

  predicate HandOK(s: State, p: Pid)
    requires p in s.tasks
  {
    && (Hand(p) in s.ram.holders ==>
          s.tasks[p].FaultWant? || s.tasks[p].FaultCopied? || s.tasks[p].FaultDropped? || s.tasks[p].Grow? || s.tasks[p] == Kern)
    && (s.tasks[p].FaultCopied? || s.tasks[p].FaultDropped? ==> Holding(s, p))
    && (s.tasks[p].Grow? && s.tasks[p].zeroed ==> Holding(s, p) && s.ram.mem[s.ram.holders[Hand(p)]] == Filled(0))
    && (s.tasks[p].FaultCopied? && Maps(s, p, s.tasks[p].v) ==>
          s.ram.mem[s.ram.holders[Hand(p)]] == s.ram.mem[s.pt[p][s.tasks[p].v].page])
  }

  predicate TaskOK(s: State, p: Pid)
    requires p in s.tasks
  {
    && TransitOK(s, p) && HandOK(s, p)
    && if s.tasks[p] == Kern then p !in s.pt else
         && CountedTable(s, p, p)
         && match s.tasks[p]
            case FaultSole(v) => InPlace(s, p, v)
            case FaultWant(v) => InPlace(s, p, v)
            case FaultCopied(v) => InPlace(s, p, v)
            case FaultDropped(v) => InPlace(s, p, v)
            case Grow(v, _) => v !in s.pt[p]
            case Fork(c, cur, cleared) => ForkOK(s, p, c, cur, cleared)
            case Unmap(t, cur, whole) => UnmapOK(s, p, t, cur, whole)
            case _ => true
  }

  /** A holder in the ledger is a real mapping or a real thread. */
  predicate Refers(s: State, h: Holder) {
    h in s.ram.holders ==>
      match h
      case Mapped(t, v) => t in s.pt && v in s.pt[t] && s.pt[t][v].page == s.ram.holders[h]
      case Hand(p) => p in s.tasks
  }

  /** Holders that may change their page, so must be alone on it. */
  predicate Exclusive(s: State, h: Holder) {
    match h
    case Hand(_) => true
    case Mapped(p, v) =>
      || (p in s.pt && v in s.pt[p] && s.pt[p][v].writable)
      || (p in s.tasks && s.tasks[p] == FaultSole(v))
  }

  /** No other holder shares the page of an exclusive one. */
  predicate AlonePair(s: State, h: Holder, k: Holder) {
    h in s.ram.holders && k in s.ram.holders && s.ram.holders[h] == s.ram.holders[k] && Exclusive(s, h) ==> h == k
  }

  predicate WorksOn(s: State, o: Pid, t: Pid) {
    o in s.tasks && Foreign(o, s.tasks[o]) == Some(t)
  }

  ghost predicate Alone(s: State) {
    forall h, k :: AlonePair(s, h, k)
  }

  /** Every table has exactly one thread working on it. */
  ghost predicate Owned(s: State) {
    && (forall p, o, t | WorksOn(s, p, t) && WorksOn(s, o, t) :: p == o)
    && (forall t | t in s.pt && t !in s.tasks :: exists o :: WorksOn(s, o, t))
  }

  ghost predicate Inv(s: State) {
    && Pool.Inv(s.ram)
    && (forall h :: Refers(s, h))
    && (forall p | p in s.ram.transit :: p in s.tasks)
    && Alone(s) && Owned(s)
    && (forall p | p in s.tasks :: TaskOK(s, p))
  }

  // ---- What a step leaves alone ----

  predicate SameHolder(s: State, t: State, h: Holder) {
    && (h in s.ram.holders <==> h in t.ram.holders)
    && (h in s.ram.holders ==> s.ram.holders[h] == t.ram.holders[h])
  }

  predicate SameTable(s: State, t: State, x: Pid) {
    && (x in s.pt <==> x in t.pt)
    && (x in s.pt ==> s.pt[x] == t.pt[x] && forall v | v in s.pt[x] :: SameHolder(s, t, Mapped(x, v)))
  }

  predicate SamePage(s: State, t: State, q: int) {
    IsPage(s.ram, q) ==> IsPage(t.ram, q) && t.ram.mem[q] == s.ram.mem[q]
  }

  predicate Mine(s: State, p: Pid, x: Pid) {
    x == p || WorksOn(s, p, x)
  }

  lemma StepHolders(s: State, a: Action, h: Holder)
    requires Enabled(s, a) && !Mine(s, a.p, h.p)
    ensures SameHolder(s, Do(s, a), h)
  {
    hide NextPt, NextTask, NextTasks;
  }

  lemma StepPt(s: State, a: Action, x: Pid)
    requires Enabled(s, a) && !Mine(s, a.p, x) && !(a.ForkStart? && x == a.c)
    ensures x in s.pt <==> x in Do(s, a).pt
    ensures x in s.pt ==> s.pt[x] == Do(s, a).pt[x]
  {
    hide Do, NextPt, Enabled;
    OwnState(s, a);
    if ChangesPt(a) {
      ChangedPt(s, a, x);
    } else {
      QuietPt(s, a);
    }
  }

  lemma ChangedPt(s: State, a: Action, x: Pid)
    requires Enabled(s, a) && !Mine(s, a.p, x) && !(a.ForkStart? && x == a.c) && ChangesPt(a)
    ensures x in s.pt <==> x in NextPt(s, a)
    ensures x in s.pt ==> s.pt[x] == NextPt(s, a)[x]
  {
    hide Pool.Enabled;
  }

  lemma StepTables(s: State, a: Action, x: Pid)
    requires Enabled(s, a) && !Mine(s, a.p, x) && !(a.ForkStart? && x == a.c)
    ensures SameTable(s, Do(s, a), x)
  {
    hide Do, Enabled;
    StepPt(s, a, x);
    forall v | x in s.pt && v in s.pt[x] ensures SameHolder(s, Do(s, a), Mapped(x, v)) {
      StepHolders(s, a, Mapped(x, v));
    }
  }

  lemma StepTasks(s: State, a: Action, o: Pid)
    requires Enabled(s, a) && o != a.p && !(a.ForkCommit? && WorksOn(s, a.p, o))
    ensures o in s.tasks <==> o in Do(s, a).tasks
    ensures o in s.tasks ==> Do(s, a).tasks[o] == s.tasks[o]
    ensures o in s.ram.transit <==> o in Do(s, a).ram.transit
    ensures o in s.ram.transit ==> Do(s, a).ram.transit[o] == s.ram.transit[o]
  {
    hide NextPt, NextTask, NextTasks, RamOp, Pool.Do, Pool.Enabled;
    StepTask(s, a, o);
    StepTransit(s, a, o);
  }

  lemma StepTask(s: State, a: Action, o: Pid)
    requires Enabled(s, a) && o != a.p && !(a.ForkCommit? && WorksOn(s, a.p, o))
    ensures o in s.tasks <==> o in Do(s, a).tasks
    ensures o in s.tasks ==> Do(s, a).tasks[o] == s.tasks[o]
  {
    hide NextPt, RamOp, Pool.Do, Pool.Enabled;
  }

  lemma StepTransit(s: State, a: Action, o: Pid)
    requires Enabled(s, a) && o != a.p
    ensures o in s.ram.transit <==> o in Do(s, a).ram.transit
    ensures o in s.ram.transit ==> Do(s, a).ram.transit[o] == s.ram.transit[o]
  {
    hide NextPt, NextTask, NextTasks, RamOp, Pool.Do, Pool.Enabled;
    OwnOp(s, a);
    TransitOp(s.ram, RamOp(s, a), o);
  }

  /** A thread's allocator calls are its own. */
  lemma OwnOp(s: State, a: Action)
    requires Enabled(s, a)
    ensures var op := RamOp(s, a); op.Pop? || op.SetNew? || op.Dec? || op.Push? ==> op.p == a.p
  {
  }

  lemma TransitOp(r: Ram, op: Op, o: Pid)
    requires Pool.Enabled(r, op) && (op.Pop? || op.SetNew? || op.Dec? || op.Push? ==> op.p != o)
    ensures o in r.transit <==> o in Pool.Do(r, op).transit
    ensures o in r.transit ==> Pool.Do(r, op).transit[o] == r.transit[o]
  {
  }

  /** The page a step writes to is held by nobody else. */
  lemma WritesAlone(s: State, a: Action, h: Holder)
    requires Inv(s) && Enabled(s, a) && h in s.ram.holders && h.p != a.p
    requires RamOp(s, a).Write?
    ensures RamOp(s, a).q != s.ram.holders[h]
  {
    hide NextPt, NextTask, NextTasks, Pool.Do, Pool.Inv, Owned;
    if a.Store? {
      assert TaskOK(s, a.p);
      assert AlonePair(s, Mapped(a.p, a.v), h);
      assert Refers(s, Mapped(a.p, a.v));
    } else {
      assert AlonePair(s, Hand(a.p), h);
    }
  }

  /** Pages held by other threads keep their contents. */
  lemma OthersPage(s: State, a: Action, h: Holder)
    requires Inv(s) && Enabled(s, a) && h in s.ram.holders && h.p != a.p
    ensures SamePage(s, Do(s, a), s.ram.holders[h])
  {
    hide NextPt, NextTask, NextTasks, RamOp, Pool.Do, Pool.Inv, Owned, Alone, TaskOK;
    if RamOp(s, a).Write? {
      WritesAlone(s, a, h);
    }
    HeldKeepsContents(s.ram, RamOp(s, a), h);
  }

  // ---- Preservation: tasks of other threads ----

  /** Everything the invariant says about thread `o` is unchanged from s to t. */
  ghost predicate Undisturbed(s: State, t: State, o: Pid)
    requires o in s.tasks
  {
    && o in t.tasks && t.tasks[o] == s.tasks[o]
    && (o in s.ram.transit <==> o in t.ram.transit)
    && (o in s.ram.transit ==> t.ram.transit[o] == s.ram.transit[o])
    && SameHolder(s, t, Hand(o)) && SameTable(s, t, o)
    && (forall x | WorksOn(s, o, x) :: SameTable(s, t, x) && x !in t.tasks)
    && |s.ram.ref| == |t.ram.ref| && |s.ram.mem| == |t.ram.mem|
    && (Hand(o) in s.ram.holders ==> SamePage(s, t, s.ram.holders[Hand(o)]))
    && (s.tasks[o].FaultCopied? && Maps(s, o, s.tasks[o].v) ==> SamePage(s, t, s.pt[o][s.tasks[o].v].page))
  }

  lemma FrameTask(s: State, t: State, o: Pid)
    requires o in s.tasks && TaskOK(s, o) && Undisturbed(s, t, o)
    ensures TaskOK(t, o)
  {
    match s.tasks[o]
    case Fork(c, _, _) => assert WorksOn(s, o, c);
    case Unmap(x, _, _) => assert x != o ==> WorksOn(s, o, x);
    case _ =>
  }

  lemma WorksOutside(s: State, o: Pid, x: Pid)
    requires Inv(s) && WorksOn(s, o, x)
    ensures x !in s.tasks && x in s.pt && x != o
  {
  }

  /** The invariant in the words of a single thread. */
  lemma InOrder(s: State, p: Pid)
    requires Inv(s)
    ensures p in s.tasks ==> TaskOK(s, p)
    ensures p !in s.tasks ==> Hand(p) !in s.ram.holders && p !in s.ram.transit
  {
    assert Refers(s, Hand(p));
  }

  /** Plain facts about a thread and its table. */
  lemma Basics(s: State, p: Pid)
    requires Inv(s)
    ensures p in s.tasks ==>
              && (p in s.pt <==> s.tasks[p] != Kern)
              && (s.tasks[p].Grow? ==> s.tasks[p].v !in s.pt[p])
              && (s.tasks[p].FaultDropped? ==> s.tasks[p].v in s.pt[p])
              && (s.tasks[p].Unmap? && s.tasks[p].t != p ==> s.tasks[p].whole)
              && (s.tasks[p].Unmap? && s.tasks[p].cur == None ==> s.tasks[p].whole)
              && (s.tasks[p].Fork? ==> s.tasks[p].child != p && s.tasks[p].child !in s.tasks)
  {
  }

  /** A thread's own table comes with Spawn and goes with the end of its exit. */
  lemma OwnTable(s: State, a: Action)
    requires Inv(s) && Enabled(s, a)
    ensures a.p in Do(s, a).pt <==> a.Spawn? || (a.p in s.pt && !(a.UnmapEnd? && s.tasks[a.p].t == a.p))
  {
    hide Inv, TaskOK, RamOp, Pool.Do, Pool.Enabled, NextTask, NextTasks;
    Basics(s, a.p);
  }

  lemma OwnNext(s: State, a: Action)
    requires Inv(s) && Enabled(s, a)
    ensures a.p in Do(s, a).tasks <==> NextTask(s, a).Some?
    ensures NextTask(s, a).Some? ==> Do(s, a).tasks[a.p] == NextTask(s, a).value
  {
    hide Inv, TaskOK, RamOp, Pool.Do, Pool.Enabled, NextTask, NextPt;
    Basics(s, a.p);
  }

  lemma OwnState(s: State, a: Action)
    requires Enabled(s, a)
    ensures Do(s, a).ram == Pool.Do(s.ram, RamOp(s, a)) && Do(s, a).pt == NextPt(s, a)
  {
    hide NextTasks, NextPt, RamOp, Pool.Do;
  }

  lemma StepSizes(s: State, a: Action)
    requires Enabled(s, a)
    ensures |Do(s, a).ram.ref| == |s.ram.ref| && |Do(s, a).ram.mem| == |s.ram.mem|
  {
    hide NextPt, NextTask, NextTasks, RamOp;
  }

  lemma StartIsFresh(s: State, a: Action)
    requires Enabled(s, a)
    ensures a.ForkStart? ==> a.c !in s.tasks && a.c !in s.pt
    ensures a.p !in s.tasks ==> a.p !in s.pt
  {
  }

  lemma Apart(s: State, a: Action, o: Pid)
    requires Inv(s) && Enabled(s, a) && o != a.p && o in s.tasks
    ensures Undisturbed(s, Do(s, a), o)
  {
    hide Do, Enabled, TaskOK, Alone, Pool.Inv, Refers;
    var t := Do(s, a);
    StartIsFresh(s, a);
    StepSizes(s, a);
    if WorksOn(s, a.p, o) {
      WorksOutside(s, a.p, o);
    }
    StepTasks(s, a, o);
    StepTables(s, a, o);
    StepHolders(s, a, Hand(o));
    forall x | WorksOn(s, o, x) ensures SameTable(s, t, x) && x !in t.tasks {
      WorksOutside(s, o, x);
      StepTables(s, a, x);
      StepTasks(s, a, x);
    }
    if Hand(o) in s.ram.holders {
      OthersPage(s, a, Hand(o));
    }
    if s.tasks[o].FaultCopied? && Maps(s, o, s.tasks[o].v) {
      CopiedFrom(s, o);
      OthersPage(s, a, Mapped(o, s.tasks[o].v));
    }
  }

  lemma CopiedFrom(s: State, o: Pid)
    requires Inv(s) && o in s.tasks && s.tasks[o].FaultCopied? && Maps(s, o, s.tasks[o].v)
    ensures Mapped(o, s.tasks[o].v) in s.ram.holders
    ensures s.ram.holders[Mapped(o, s.tasks[o].v)] == s.pt[o][s.tasks[o].v].page
  {
    assert TaskOK(s, o);
    assert Refers(s, Mapped(o, s.tasks[o].v));
  }

  // ---- Preservation: the acting thread ----

  ghost predicate OwnOK(s: State, p: Pid) {
    if p in s.tasks then TaskOK(s, p) else Hand(p) !in s.ram.holders && p !in s.ram.transit
  }

  lemma OwnStart(s: State, a: Action)
    requires OwnOK(s, a.p) && Enabled(s, a) && (forall h :: Refers(s, h))
    requires a.Spawn? || a.KernStart? || a.KernEnd?
    ensures OwnOK(Do(s, a), a.p)
  {
  }

  lemma OwnFault(s: State, a: Action)
    requires OwnOK(s, a.p) && Enabled(s, a) && (forall h :: Refers(s, h))
    requires a.Store? || a.CheckSole? || a.CheckShared? || a.SetWritable?
    ensures OwnOK(Do(s, a), a.p)
  {
  }

  lemma OwnKalloc(s: State, a: Action)
    requires OwnOK(s, a.p) && Enabled(s, a) && (forall h :: Refers(s, h))
    requires a.KallocPop? || a.KallocFail? || a.KallocSet? || a.PushFree? || a.HandFree?
    ensures OwnOK(Do(s, a), a.p)
  {
  }

  lemma OwnCopy(s: State, a: Action)
    requires OwnOK(s, a.p) && Enabled(s, a) && (forall h :: Refers(s, h))
    requires a.CopyPage? || a.DropOld? || a.Remap?
    ensures OwnOK(Do(s, a), a.p)
  {
  }

  lemma OwnGrow(s: State, a: Action)
    requires OwnOK(s, a.p) && Enabled(s, a) && (forall h :: Refers(s, h))
    requires a.GrowStart? || a.GrowZero? || a.GrowMap?
    ensures OwnOK(Do(s, a), a.p)
  {
  }

  lemma OwnUnmap(s: State, a: Action)
    requires OwnOK(s, a.p) && Enabled(s, a) && (forall h :: Refers(s, h))
    requires a.DropPte? || a.ClearPte? || a.ExitStart? || a.UnmapEnd?
    ensures OwnOK(Do(s, a), a.p)
  {
    hide Refers;
    if a.DropPte? {
      OwnDropPte(s, a);
    } else if a.ClearPte? {
      OwnClearPte(s, a);
    }
  }

  lemma OwnClearPte(s: State, a: Action)
    requires OwnOK(s, a.p) && Enabled(s, a) && (forall h :: Refers(s, h)) && a.ClearPte?
    ensures OwnOK(Do(s, a), a.p)
  {
  }

  lemma OwnDropPte(s: State, a: Action)
    requires OwnOK(s, a.p) && Enabled(s, a) && (forall h :: Refers(s, h)) && a.DropPte?
    ensures OwnOK(Do(s, a), a.p)
  {
    assert Refers(s, Mapped(a.t, a.v));
  }

  lemma OwnFork(s: State, a: Action)
    requires OwnOK(s, a.p) && Enabled(s, a) && (forall h :: Refers(s, h))
    requires a.ForkStart? || a.ForkMap? || a.ForkClear? || a.ForkInc?
    ensures OwnOK(Do(s, a), a.p)
  {
    hide Do, Enabled, TaskOK, Refers;
    match a
    case ForkStart(_, _) => OwnForkStart(s, a);
    case ForkMap(_, _) => OwnForkMap(s, a);
    case ForkClear(_) => OwnForkClear(s, a);
    case ForkInc(_) => OwnForkInc(s, a);
  }

  lemma OwnForkStart(s: State, a: Action)
    requires OwnOK(s, a.p) && Enabled(s, a) && (forall h :: Refers(s, h)) && a.ForkStart?
    ensures OwnOK(Do(s, a), a.p)
  {
  }

  lemma OwnForkClear(s: State, a: Action)
    requires OwnOK(s, a.p) && Enabled(s, a) && (forall h :: Refers(s, h)) && a.ForkClear?
    ensures OwnOK(Do(s, a), a.p)
  {
  }

  lemma OwnForkInc(s: State, a: Action)
    requires OwnOK(s, a.p) && Enabled(s, a) && (forall h :: Refers(s, h)) && a.ForkInc?
    ensures OwnOK(Do(s, a), a.p)
  {
  }

  lemma OwnForkMap(s: State, a: Action)
    requires OwnOK(s, a.p) && Enabled(s, a) && (forall h :: Refers(s, h)) && a.ForkMap?
    ensures OwnOK(Do(s, a), a.p)
  {
    assert Refers(s, Mapped(s.tasks[a.p].child, a.v));
  }

  lemma OwnForkEnd(s: State, a: Action)
    requires OwnOK(s, a.p) && Enabled(s, a) && (forall h :: Refers(s, h))
    requires a.ForkCommit? || a.ForkFail?
    ensures OwnOK(Do(s, a), a.p)
  {
  }

  lemma OwnStep(s: State, a: Action)
    requires Inv(s) && Enabled(s, a)
    ensures OwnOK(Do(s, a), a.p)
  {
    hide Do, Enabled, TaskOK, Alone, Owned, Pool.Inv;
    InOrder(s, a.p);
    if a.Spawn? || a.KernStart? || a.KernEnd? {
      OwnStart(s, a);
    } else if a.Store? || a.CheckSole? || a.CheckShared? || a.SetWritable? {
      OwnFault(s, a);
    } else if a.KallocPop? || a.KallocFail? || a.KallocSet? || a.PushFree? || a.HandFree? {
      OwnKalloc(s, a);
    } else if a.CopyPage? || a.DropOld? || a.Remap? {
      OwnCopy(s, a);
    } else if a.GrowStart? || a.GrowZero? || a.GrowMap? {
      OwnGrow(s, a);
    } else if a.DropPte? || a.ClearPte? || a.ExitStart? || a.UnmapEnd? {
      OwnUnmap(s, a);
    } else if a.ForkStart? || a.ForkMap? || a.ForkClear? || a.ForkInc? {
      OwnFork(s, a);
    } else {
      OwnForkEnd(s, a);
    }
  }

  /** A process that fork has just started is in order. */
  lemma ForkedChild(s: State, a: Action, o: Pid)
    requires Inv(s) && Enabled(s, a) && a.ForkCommit? && WorksOn(s, a.p, o)
    ensures o in Do(s, a).tasks && TaskOK(Do(s, a), o)
  {
    InOrder(s, a.p);
    InOrder(s, o);
  }

  lemma TasksStep(s: State, a: Action, o: Pid)
    requires Inv(s) && Enabled(s, a) && o in Do(s, a).tasks
    ensures TaskOK(Do(s, a), o)
  {
    hide Do, Enabled, TaskOK, Alone, Owned, Pool.Inv;
    if o == a.p {
      OwnStep(s, a);
    } else if o in s.tasks {
      Apart(s, a, o);
      FrameTask(s, Do(s, a), o);
    } else if a.ForkCommit? && WorksOn(s, a.p, o) {
      ForkedChild(s, a, o);
    } else {
      StepTasks(s, a, o);
    }
  }

  // ---- Preservation: ledger, exclusivity, ownership ----

  lemma RefersStep(s: State, a: Action, h: Holder)
    requires Inv(s) && Enabled(s, a)
    ensures Refers(Do(s, a), h)
  {
    hide Pool.Inv, Alone, Owned;
    InOrder(s, a.p);
    assert Refers(s, h);
    if !Mine(s, a.p, h.p) {
      RefersElsewhere(s, a, h);
    } else if h.Hand? {
      RefersHand(s, a, h.p);
    } else {
      RefersMine(s, a, h.p, h.v);
    }
  }

  lemma RefersElsewhere(s: State, a: Action, h: Holder)
    requires Enabled(s, a) && !Mine(s, a.p, h.p) && Refers(s, h)
    ensures Refers(Do(s, a), h)
  {
    hide Do, Enabled;
    StepHolders(s, a, h);
    StepTasks(s, a, h.p);
    StartIsFresh(s, a);
    if !(a.ForkStart? && h.p == a.c) {
      StepPt(s, a, h.p);
    }
  }

  lemma RefersHand(s: State, a: Action, p: Pid)
    requires Enabled(s, a) && OwnOK(s, a.p) && Mine(s, a.p, p) && Refers(s, Hand(p))
    ensures Refers(Do(s, a), Hand(p))
  {
    hide NextPt, Stale;
  }

  lemma RefersMine(s: State, a: Action, p: Pid, v: Vpn)
    requires Enabled(s, a) && OwnOK(s, a.p) && Mine(s, a.p, p) && Refers(s, Mapped(p, v))
    ensures Refers(Do(s, a), Mapped(p, v))
  {
    hide Do, NextPt, OwnOK, Mine;
    OwnState(s, a);
    if ChangesPt(a) || a.ForkInc? {
      RefersChanged(s, a, p, v);
    } else if Mapped(p, v) in Do(s, a).ram.holders {
      QuietPt(s, a);
      QuietMapped(s, a, Mapped(p, v));
    }
  }

  predicate ChangesPt(a: Action) {
    || a.Spawn? || a.SetWritable? || a.Remap? || a.GrowMap? || a.ClearPte? || a.UnmapEnd?
    || a.ForkStart? || a.ForkMap? || a.ForkClear?
  }

  lemma QuietPt(s: State, a: Action)
    requires Enabled(s, a) && !ChangesPt(a)
    ensures NextPt(s, a) == s.pt
  {
  }

  lemma QuietMapped(s: State, a: Action, h: Holder)
    requires Enabled(s, a) && h.Mapped? && !a.Remap? && !a.GrowMap? && !a.ForkInc? && h in Do(s, a).ram.holders
    ensures h in s.ram.holders && Do(s, a).ram.holders[h] == s.ram.holders[h]
  {
    hide NextPt, NextTask, NextTasks;
  }

  lemma RefersChanged(s: State, a: Action, p: Pid, v: Vpn)
    requires Enabled(s, a) && OwnOK(s, a.p) && Mine(s, a.p, p) && Refers(s, Mapped(p, v)) && (ChangesPt(a) || a.ForkInc?)
    ensures Refers(Do(s, a), Mapped(p, v))
  {
    hide NextTask, NextTasks, HandOK, TransitOK;
  }

  lemma TransitStep(s: State, a: Action, p: Pid)
    requires Inv(s) && Enabled(s, a) && p in Do(s, a).ram.transit
    ensures p in Do(s, a).tasks
  {
    hide NextPt, TaskOK, Alone, Owned, Pool.Inv;
    if p == a.p {
      InOrder(s, p);
      OwnStep(s, a);
    } else if !(a.ForkCommit? && WorksOn(s, a.p, p)) {
      StepTasks(s, a, p);
    }
  }

  /** Where a holder after the step was before it. */
  function Before(s: State, a: Action, h: Holder): Holder
    requires Enabled(s, a)
  {
    if (a.Remap? || a.GrowMap?) && h == Mapped(a.p, s.tasks[a.p].v) then Hand(a.p) else h
  }

  /** No step but these four makes a holder or makes one exclusive. */
  predicate Claims(a: Action) {
    a.CheckSole? || a.KallocSet? || a.ForkInc?
  }

  lemma BeforeStep(s: State, a: Action, h: Holder)
    requires Enabled(s, a) && OwnOK(s, a.p) && Refers(s, h) && h in Do(s, a).ram.holders && !Claims(a)
    ensures Before(s, a, h) in s.ram.holders
    ensures s.ram.holders[Before(s, a, h)] == Do(s, a).ram.holders[h]
    ensures Exclusive(Do(s, a), h) ==> Exclusive(s, Before(s, a, h))
  {
    if Mine(s, a.p, h.p) {
      BeforeMine(s, a, h);
    } else {
      BeforeElsewhere(s, a, h);
    }
  }

  lemma BeforeElsewhere(s: State, a: Action, h: Holder)
    requires Enabled(s, a) && !Mine(s, a.p, h.p) && Refers(s, h) && h in Do(s, a).ram.holders
    ensures h in s.ram.holders && s.ram.holders[h] == Do(s, a).ram.holders[h]
    ensures Exclusive(Do(s, a), h) ==> Exclusive(s, h)
  {
    hide Do, Enabled;
    StepHolders(s, a, h);
    StepTasks(s, a, h.p);
    StartIsFresh(s, a);
    if !(a.ForkStart? && h.p == a.c) {
      StepPt(s, a, h.p);
    }
  }

  lemma BeforeMine(s: State, a: Action, h: Holder)
    requires Enabled(s, a) && OwnOK(s, a.p) && Mine(s, a.p, h.p) && h in Do(s, a).ram.holders && !Claims(a)
    ensures Before(s, a, h) in s.ram.holders
    ensures s.ram.holders[Before(s, a, h)] == Do(s, a).ram.holders[h]
    ensures Exclusive(Do(s, a), h) ==> Exclusive(s, Before(s, a, h))
  {
    hide NextPt, NextTask, NextTasks, TaskOK, Exclusive, RamOp, Pool.Do, Pool.Enabled, Before;
    BeforeHolds(s, a, h);
    if h.Mapped? && Exclusive(Do(s, a), h) {
      ExclusiveMine(s, a, h.p, h.v);
    } else {
      HandExclusive(s, h);
    }
  }

  lemma BeforeHolds(s: State, a: Action, h: Holder)
    requires Enabled(s, a) && OwnOK(s, a.p) && Mine(s, a.p, h.p) && h in Do(s, a).ram.holders && !Claims(a)
    ensures Before(s, a, h) in s.ram.holders
    ensures s.ram.holders[Before(s, a, h)] == Do(s, a).ram.holders[h]
    ensures h.Hand? ==> Before(s, a, h) == h
  {
    hide NextPt, NextTask, NextTasks, TaskOK, Exclusive, Stale, OwnOK, Mine;
  }

  lemma HandExclusive(s: State, h: Holder)
    ensures h.Hand? ==> Exclusive(s, h)
  {
  }

  lemma ExclusiveMine(s: State, a: Action, p: Pid, v: Vpn)
    requires Enabled(s, a) && OwnOK(s, a.p) && Mine(s, a.p, p) && !Claims(a)
    requires Exclusive(Do(s, a), Mapped(p, v))
    ensures Exclusive(s, Before(s, a, Mapped(p, v)))
  {
    hide RamOp, Pool.Do, Pool.Enabled, CountedTable, HandOK, TransitOK;
  }

  lemma AloneStep(s: State, a: Action, h: Holder, k: Holder)
    requires Inv(s) && Enabled(s, a)
    ensures AlonePair(Do(s, a), h, k)
  {
    hide Do, Enabled, Pool.Inv, Owned, TaskOK, Exclusive;
    InOrder(s, a.p);
    assert Refers(s, h) && Refers(s, k);
    var t := Do(s, a);
    if h in t.ram.holders && k in t.ram.holders && t.ram.holders[h] == t.ram.holders[k] && Exclusive(t, h) {
      if Claims(a) {
        AloneClaim(s, a, h, k);
      } else {
        BeforeStep(s, a, h);
        BeforeStep(s, a, k);
        assert AlonePair(s, Before(s, a, h), Before(s, a, k));
        BeforeInjective(s, a, h, k);
      }
    }
  }

  lemma BeforeInjective(s: State, a: Action, h: Holder, k: Holder)
    requires Enabled(s, a) && h in Do(s, a).ram.holders && k in Do(s, a).ram.holders
    requires Before(s, a, h) == Before(s, a, k)
    ensures h == k
  {
    hide NextPt, NextTask, NextTasks;
  }

  lemma AloneClaim(s: State, a: Action, h: Holder, k: Holder)
    requires Inv(s) && Enabled(s, a) && Claims(a)
    requires h in Do(s, a).ram.holders && k in Do(s, a).ram.holders
    requires Do(s, a).ram.holders[h] == Do(s, a).ram.holders[k] && Exclusive(Do(s, a), h)
    ensures h == k
  {
    hide Inv, TaskOK, Exclusive;
    match a
    case CheckSole(p, v) => AloneSole(s, p, v, h, k);
    case KallocSet(p) => AloneNew(s, p, h, k);
    case ForkInc(p) => AloneInc(s, p, h, k);
  }

  lemma AloneNew(s: State, p: Pid, h: Holder, k: Holder)
    requires Inv(s) && Enabled(s, KallocSet(p))
    requires var t := Do(s, KallocSet(p));
             h in t.ram.holders && k in t.ram.holders && t.ram.holders[h] == t.ram.holders[k] && Exclusive(t, h)
    ensures h == k
  {
    hide TaskOK, Owned, Refers;
    assert Idle(s.ram, s.ram.transit[p].q);
    assert AlonePair(s, h, k);
  }

  lemma AloneSole(s: State, p: Pid, v: Vpn, h: Holder, k: Holder)
    requires Inv(s) && Enabled(s, CheckSole(p, v))
    requires h in s.ram.holders && k in s.ram.holders && s.ram.holders[h] == s.ram.holders[k]
    requires Exclusive(Do(s, CheckSole(p, v)), h)
    ensures h == k
  {
    InOrder(s, p);
    assert Refers(s, Mapped(p, v));
    if h == Mapped(p, v) {
      SoleHolder(s.ram.holders, h, k);
    } else {
      assert AlonePair(s, h, k);
    }
  }

  lemma AloneInc(s: State, p: Pid, h: Holder, k: Holder)
    requires Inv(s) && Enabled(s, ForkInc(p))
    requires h in Do(s, ForkInc(p)).ram.holders && k in Do(s, ForkInc(p)).ram.holders
    requires Do(s, ForkInc(p)).ram.holders[h] == Do(s, ForkInc(p)).ram.holders[k] && Exclusive(Do(s, ForkInc(p)), h)
    ensures h == k
  {
    hide Pool.Inv, Owned;
    InOrder(s, p);
    var v, c := s.tasks[p].cur.value, s.tasks[p].child;
    assert Refers(s, Mapped(p, v));
    assert AlonePair(s, h, k);
    assert AlonePair(s, h, Mapped(p, v));
  }

  lemma OwnedStep(s: State, a: Action)
    requires Inv(s) && Enabled(s, a)
    ensures Owned(Do(s, a))
  {
    hide Do, Enabled, Alone, Pool.Inv, TaskOK, Refers;
    var t := Do(s, a);
    forall p, o, x | WorksOn(t, p, x) && WorksOn(t, o, x) ensures p == o {
      OwnedOnce(s, a, p, x);
      OwnedOnce(s, a, o, x);
    }
    forall x | x in t.pt && x !in t.tasks ensures exists o :: WorksOn(t, o, x) {
      OwnedSomewhere(s, a, x);
    }
  }

  /** Who works on a table after the step worked on it before, unless fork just made it. */
  lemma OwnedOnce(s: State, a: Action, p: Pid, x: Pid)
    requires Inv(s) && Enabled(s, a) && WorksOn(Do(s, a), p, x)
    ensures WorksOn(s, p, x) || (p == a.p && a.ForkStart? && x == a.c)
    ensures a.ForkStart? && x == a.c ==> p == a.p
  {
    hide Inv, TaskOK, Do, Pool.Enabled, NextPt, NextTasks, NextTask;
    StartIsFresh(s, a);
    if p == a.p {
      OwnNext(s, a);
      OwnForeign(s, a);
    } else if a.ForkCommit? && WorksOn(s, a.p, p) {
      ChildRests(s, a);
    } else {
      StepTasks(s, a, p);
      WorksOutside(s, p, x);
    }
  }

  lemma OwnForeign(s: State, a: Action)
    requires Enabled(s, a) && NextTask(s, a).Some? && Foreign(a.p, NextTask(s, a).value).Some?
    ensures var now := Foreign(a.p, NextTask(s, a).value);
            if a.ForkStart? then now == Some(a.c) else a.p in s.tasks && Foreign(a.p, s.tasks[a.p]) == now
  {
  }

  lemma ChildRests(s: State, a: Action)
    requires Enabled(s, a) && a.ForkCommit?
    ensures s.tasks[a.p].child in Do(s, a).tasks && Do(s, a).tasks[s.tasks[a.p].child] == Rest
  {
    hide NextPt, RamOp, Pool.Do, Pool.Enabled;
  }

  lemma OwnedSomewhere(s: State, a: Action, x: Pid)
    requires Inv(s) && Enabled(s, a) && x in Do(s, a).pt && x !in Do(s, a).tasks
    ensures exists o :: WorksOn(Do(s, a), o, x)
  {
    hide Pool.Inv, Alone, TaskOK, Refers;
    var t := Do(s, a);
    if a.ForkStart? && x == a.c {
      assert WorksOn(t, a.p, x);
    } else if Mine(s, a.p, x) {
      OwnedMine(s, a, x);
    } else {
      OwnedElsewhere(s, a, x);
    }
  }

  lemma OwnedMine(s: State, a: Action, x: Pid)
    requires Inv(s) && Enabled(s, a) && Mine(s, a.p, x) && x in Do(s, a).pt && x !in Do(s, a).tasks
    ensures WorksOn(Do(s, a), a.p, x)
  {
    hide Pool.Inv, Alone, Refers, RamOp, Pool.Do, Owned, NextPt, NextTask, Enabled, TaskOK;
    if x == a.p {
      LeavesNoTable(s, a);
    } else {
      WorksOutside(s, a.p, x);
      InOrder(s, a.p);
      KeepsForeign(s, a, x);
    }
  }

  lemma LeavesNoTable(s: State, a: Action)
    requires Inv(s) && Enabled(s, a)
    ensures a.p in Do(s, a).pt ==> a.p in Do(s, a).tasks
  {
    hide Inv, TaskOK, Do, Pool.Enabled, NextPt, NextTasks;
    Basics(s, a.p);
    OwnTable(s, a);
    OwnNext(s, a);
  }

  lemma KeepsForeign(s: State, a: Action, x: Pid)
    requires Inv(s) && Enabled(s, a) && WorksOn(s, a.p, x) && x != a.p
    ensures a.p in Do(s, a).tasks
    ensures WorksOn(Do(s, a), a.p, x) || x !in Do(s, a).pt || x in Do(s, a).tasks
  {
    hide Inv, TaskOK, Do, Pool.Enabled, NextPt, NextTasks;
    Basics(s, a.p);
    OwnNext(s, a);
    if a.ForkCommit? || a.UnmapEnd? {
      EndsForeign(s, a, x);
    }
  }

  lemma EndsForeign(s: State, a: Action, x: Pid)
    requires Enabled(s, a) && WorksOn(s, a.p, x) && (a.ForkCommit? || a.UnmapEnd?)
    ensures x !in Do(s, a).pt || x in Do(s, a).tasks
  {
    hide RamOp, Pool.Do, Pool.Enabled;
  }

  lemma OwnedElsewhere(s: State, a: Action, x: Pid)
    requires Inv(s) && Enabled(s, a) && !Mine(s, a.p, x) && x in Do(s, a).pt && x !in Do(s, a).tasks
    requires !(a.ForkStart? && x == a.c)
    ensures exists o :: WorksOn(Do(s, a), o, x)
  {
    hide Do, Enabled, Pool.Inv, Alone, Refers, TaskOK;
    StepPt(s, a, x);
    StepTasks(s, a, x);
    var o :| WorksOn(s, o, x);
    if a.ForkCommit? && WorksOn(s, a.p, o) {
      WorksOutside(s, a.p, o);
    }
    StepTasks(s, a, o);
    assert WorksOn(Do(s, a), o, x);
  }

  /** Every step of every thread keeps the invariant. */
  lemma InvStep(s: State, a: Action)
    requires Inv(s) && Enabled(s, a)
    ensures Inv(Do(s, a))
  {
    hide Enabled, Alone, Owned, TaskOK, Refers, Pool.Inv, Pool.Do, NextPt, NextTasks, RamOp;
    var t := Do(s, a);
    Pool.InvStep(s.ram, RamOp(s, a));
    forall h ensures Refers(t, h) {
      RefersStep(s, a, h);
    }
    forall p | p in t.ram.transit ensures p in t.tasks {
      TransitStep(s, a, p);
    }
    AllAlone(s, a);
    OwnedStep(s, a);
    forall p | p in t.tasks ensures TaskOK(t, p) {
      TasksStep(s, a, p);
    }
  }

  lemma AllAlone(s: State, a: Action)
    requires Inv(s) && Enabled(s, a)
    ensures Alone(Do(s, a))
  {
    hide Do, Enabled, Owned, TaskOK, Refers, Pool.Inv, AlonePair;
    forall h, k ensures AlonePair(Do(s, a), h, k) {
      AloneStep(s, a, h, k);
    }
  }
}
