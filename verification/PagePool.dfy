/** Physical pages under kernel/kalloc.c: the free list, the reference counts
    and page contents, one operation per critical section of ref.lock or
    kmem.lock.

    `holders` is history: it lists who has been counted for which page.  A page
    is `transit` with a thread between the two locks that kalloc, kfree and
    ref_dec take one after the other. */
module PagePool {
  import opened Params

  type Pid = int
  type Vpn = int
  type Frame = f: seq<int> | |f| == PGSIZE witness seq(PGSIZE, _ => 0)

  /** memset of a whole page. */
  function Filled(x: int): (f: Frame)
    ensures forall i | 0 <= i < PGSIZE :: f[i] == x
  {
    seq(PGSIZE, _ => x)
  }

  /** A page is held by a mapping in a page table, or by a thread that has
      allocated it and keeps it. */
  datatype Holder = Mapped(p: Pid, v: Vpn) | Hand(p: Pid)

  datatype Transit = Popped(q: int) | Dropping(q: int)

  datatype Ram = Ram(
    free: seq<int>,
    ref: seq<int>,
    mem: seq<Frame>,
    holders: map<Holder, int>,
    transit: map<Pid, Transit>)

  datatype Op =
    | Nop
    | Pop(p: Pid)              // kalloc under kmem.lock
    | SetNew(p: Pid)           // kalloc under ref.lock
    | Dec(p: Pid, h: Holder)   // kfree or ref_dec under ref.lock
    | Push(p: Pid)             // kfree or ref_dec under kmem.lock
    | Inc(h: Holder, q: int)   // ref_inc
    | Move(h: Holder, k: Holder)
    | Write(q: int, f: Frame)

  predicate IsPage(r: Ram, q: int) {
    0 <= q < |r.ref| == |r.mem|
  }

  predicate Counted(r: Ram, h: Holder) {
    h in r.holders && IsPage(r, r.holders[h])
  }

  predicate Enabled(r: Ram, op: Op) {
    match op
    case Nop => true
    case Pop(p) => p !in r.transit && r.free != []
    case SetNew(p) => p in r.transit && r.transit[p].Popped? && IsPage(r, r.transit[p].q) && Hand(p) !in r.holders
    case Dec(p, h) => p !in r.transit && Counted(r, h)
    case Push(p) => p in r.transit && r.transit[p].Dropping? && IsPage(r, r.transit[p].q)
    case Inc(h, q) => h !in r.holders && IsPage(r, q) && r.ref[q] > 0
    case Move(h, k) => h in r.holders && k !in r.holders
    case Write(q, _) => IsPage(r, q)
  }

  function Do(r: Ram, op: Op): Ram
    requires Enabled(r, op)
  {
    match op
    case Nop => r
    case Pop(p) => r.(free := r.free[1..], transit := r.transit[p := Popped(r.free[0])])
    case SetNew(p) =>
      var q := r.transit[p].q;
      r.(ref := r.ref[q := 1], mem := r.mem[q := Filled(5)],
         holders := r.holders[Hand(p) := q], transit := r.transit - {p})
    case Dec(p, h) =>
      var q := r.holders[h];
      var now := r.ref[q] - 1;
      r.(ref := r.ref[q := now], holders := r.holders - {h},
         transit := if now > 0 then r.transit else r.transit[p := Dropping(q)])
    case Push(p) =>
      var q := r.transit[p].q;
      r.(free := [q] + r.free, mem := r.mem[q := Filled(1)], transit := r.transit - {p})
    case Inc(h, q) => r.(ref := r.ref[q := r.ref[q] + 1], holders := r.holders[h := q])
    case Move(h, k) => r.(holders := (r.holders - {h})[k := r.holders[h]])
    case Write(q, f) => r.(mem := r.mem[q := f])
  }

  // ---- Counting holders ----

  function HoldersOf(hs: map<Holder, int>, q: int): set<Holder> {
    set h | h in hs && hs[h] == q
  }

  lemma CountAdd(hs: map<Holder, int>, h: Holder, q: int, x: int)
    requires h !in hs
    ensures |HoldersOf(hs[h := q], x)| == |HoldersOf(hs, x)| + (if x == q then 1 else 0)
  {
    assert HoldersOf(hs[h := q], x) == HoldersOf(hs, x) + (if x == q then {h} else {});
  }

  lemma CountDel(hs: map<Holder, int>, h: Holder, x: int)
    requires h in hs
    ensures |HoldersOf(hs - {h}, x)| == |HoldersOf(hs, x)| - (if x == hs[h] then 1 else 0)
  {
    assert HoldersOf(hs, x) == HoldersOf(hs - {h}, x) + (if x == hs[h] then {h} else {});
  }

  /** A count of at most one leaves room for one holder only. */
  lemma SoleHolder(hs: map<Holder, int>, h: Holder, k: Holder)
    requires h in hs && k in hs && hs[h] == hs[k] && |HoldersOf(hs, hs[h])| <= 1
    ensures h == k
  {
    var all := HoldersOf(hs, hs[h]);
    assert |all - {h}| == |all| - 1;
    assert k != h ==> k in all - {h};
  }

  // ---- The invariant ----

  /** Every count is the number of holders. */
  ghost predicate Counts(r: Ram) {
    && |r.ref| == |r.mem|
    && (forall h | h in r.holders :: IsPage(r, r.holders[h]))
    && (forall q | IsPage(r, q) :: r.ref[q] == |HoldersOf(r.holders, q)|)
  }

  predicate Idle(r: Ram, q: int) {
    IsPage(r, q) && forall h | h in r.holders :: r.holders[h] != q
  }

  /** Free pages and pages in transit have no holder and occur once. */
  ghost predicate Unheld(r: Ram) {
    && (forall i | 0 <= i < |r.free| :: Idle(r, r.free[i]))
    && (forall i, j | 0 <= i < j < |r.free| :: r.free[i] != r.free[j])
    && (forall p | p in r.transit :: Idle(r, r.transit[p].q) && r.transit[p].q !in r.free)
    && (forall p, o | p in r.transit && o in r.transit && p != o :: r.transit[p].q != r.transit[o].q)
  }

  ghost predicate Somewhere(r: Ram, q: int) {
    || q in r.free
    || (exists h :: h in r.holders && r.holders[h] == q)
    || (exists p :: p in r.transit && r.transit[p].q == q)
  }

  ghost predicate Inv(r: Ram) {
    Counts(r) && Unheld(r) && forall q | IsPage(r, q) :: Somewhere(r, q)
  }

  lemma CountsStep(r: Ram, op: Op)
    requires Inv(r) && Enabled(r, op)
    ensures Counts(Do(r, op))
  {
    var t := Do(r, op);
    forall q | IsPage(t, q) ensures t.ref[q] == |HoldersOf(t.holders, q)| {
      assert IsPage(r, q);
      match op
      case SetNew(p) =>
        CountAdd(r.holders, Hand(p), r.transit[p].q, q);
        if q == r.transit[p].q {
          assert HoldersOf(r.holders, q) == {};
        }
      case Dec(_, h) => CountDel(r.holders, h, q);
      case Inc(h, x) => CountAdd(r.holders, h, x, q);
      case Move(h, k) =>
        CountDel(r.holders, h, q);
        CountAdd(r.holders - {h}, k, r.holders[h], q);
      case _ =>
    }
  }

  lemma UnheldStep(r: Ram, op: Op)
    requires Counts(r) && Unheld(r) && Enabled(r, op)
    ensures Unheld(Do(r, op))
  {
    match op
    case Pop(p) => UnheldPop(r, p);
    case SetNew(p) => UnheldSetNew(r, p);
    case Dec(p, h) => UnheldDec(r, p, h);
    case Push(p) => UnheldPush(r, p);
    case Inc(h, q) => UnheldInc(r, h, q);
    case Move(h, k) =>
    case _ =>
  }

  lemma UnheldPop(r: Ram, p: Pid)
    requires Unheld(r) && Enabled(r, Pop(p))
    ensures Unheld(Do(r, Pop(p)))
  {
  }

  lemma UnheldSetNew(r: Ram, p: Pid)
    requires Unheld(r) && Enabled(r, SetNew(p))
    ensures Unheld(Do(r, SetNew(p)))
  {
  }

  lemma UnheldDec(r: Ram, p: Pid, h: Holder)
    requires Counts(r) && Unheld(r) && Enabled(r, Dec(p, h))
    ensures Unheld(Do(r, Dec(p, h)))
  {
    forall k | k in r.holders && r.holders[k] == r.holders[h] && r.ref[r.holders[h]] <= 1 ensures k == h {
      SoleHolder(r.holders, h, k);
    }
  }

  lemma UnheldPush(r: Ram, p: Pid)
    requires Unheld(r) && Enabled(r, Push(p))
    ensures Unheld(Do(r, Push(p)))
  {
  }

  lemma UnheldInc(r: Ram, h: Holder, q: int)
    requires Counts(r) && Unheld(r) && Enabled(r, Inc(h, q))
    ensures Unheld(Do(r, Inc(h, q)))
  {
  }

  lemma SomewhereStep(r: Ram, op: Op, q: int)
    requires Inv(r) && Enabled(r, op) && IsPage(r, q)
    ensures Somewhere(Do(r, op), q)
  {
    var t := Do(r, op);
    if h :| h in r.holders && r.holders[h] == q {
      SomewhereHeld(r, op, h);
    } else if p :| p in r.transit && r.transit[p].q == q {
      if p in t.transit {
        assert t.transit[p].q == q;
      } else if op.SetNew? {
        assert Hand(p) in t.holders && t.holders[Hand(p)] == q;
      } else {
        assert t.free[0] == q;
      }
    } else {
      assert q in r.free;
      if op.Pop? && q == r.free[0] {
        assert t.transit[op.p].q == q;
      } else if op.Pop? {
        var i :| 0 <= i < |r.free| && r.free[i] == q;
        assert t.free[i - 1] == q;
      } else if op.Push? {
        var i :| 0 <= i < |r.free| && r.free[i] == q;
        assert t.free[i + 1] == q;
      }
    }
  }

  lemma SomewhereHeld(r: Ram, op: Op, h: Holder)
    requires Inv(r) && Enabled(r, op) && h in r.holders
    ensures Somewhere(Do(r, op), r.holders[h])
  {
    var t := Do(r, op);
    var q := r.holders[h];
    if op.Move? && op.h == h {
      assert op.k in t.holders && t.holders[op.k] == q;
    } else if op.Dec? && op.h == h {
      if r.ref[q] > 1 {
        CountDel(r.holders, h, q);
        var k :| k in HoldersOf(t.holders, q);
        assert k in t.holders && t.holders[k] == q;
      } else {
        assert t.transit[op.p].q == q;
      }
    } else {
      assert h in t.holders && t.holders[h] == q;
    }
  }

  /** Every critical section of the allocator keeps counts equal to holders,
      the free list duplicate-free and unheld, and loses no page. */
  lemma InvStep(r: Ram, op: Op)
    requires Inv(r) && Enabled(r, op)
    ensures Inv(Do(r, op))
  {
    CountsStep(r, op);
    UnheldStep(r, op);
    forall q | IsPage(Do(r, op), q) ensures Somewhere(Do(r, op), q) {
      SomewhereStep(r, op, q);
    }
  }

  /** Only an explicit write changes the contents of a held page. */
  lemma HeldKeepsContents(r: Ram, op: Op, h: Holder)
    requires Inv(r) && Enabled(r, op) && h in r.holders && (op.Write? ==> op.q != r.holders[h])
    ensures IsPage(Do(r, op), r.holders[h]) && Do(r, op).mem[r.holders[h]] == r.mem[r.holders[h]]
  {
  }

  /** After kinit: every page is free. */
  predicate Init(r: Ram) {
    && |r.free| == |r.ref| == |r.mem|
    && (forall i | 0 <= i < |r.free| :: r.free[i] == |r.free| - 1 - i)
    && (forall i | 0 <= i < |r.ref| :: r.ref[i] == 0)
    && r.holders == map[] && r.transit == map[]
  }

  lemma InvInit(r: Ram)
    requires Init(r)
    ensures Inv(r)
  {
    forall q | IsPage(r, q) ensures r.ref[q] == |HoldersOf(r.holders, q)| && Somewhere(r, q) {
      assert HoldersOf(r.holders, q) == {};
      assert r.free[|r.free| - 1 - q] == q;
    }
  }
}
