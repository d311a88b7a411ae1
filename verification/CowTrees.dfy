/** Copy-on-write over real page tables: the tables of Cow are maps, and this module
    keeps beside each the Sv39 tree that the code writes.  Every step of Cow that
    changes a table is the write of one entry of a tree with the value kernel/vm.c
    computes, and what the hardware finds in the trees is what Cow says. */
module CowTrees {
  import opened Params
  import opened Pool = PagePool
  import Cow
  import opened Sv39Tree
  import CowRefines

  type Trees = map<Pid, Pt>

  // ---- Entries ----

  /** PTE_V | PTE_R | PTE_U, and PTE_W. */
  const USER := 19
  const W := 4

  predicate HasW(pte: int) {
    pte / W % 2 == 1
  }

  /** pte | PTE_W. */
  function SetW(pte: int): int {
    if HasW(pte) then pte else pte + W
  }

  /** pte & ~PTE_W. */
  function ClearW(pte: int): int {
    if HasW(pte) then pte - W else pte
  }

  /** vmfault's entry for a copied page: PA2PTE(mem) | PTE_FLAGS(pte) | PTE_W. */
  function Refill(page: int, pte: int): int {
    MakePte(page, SetW(pte % 1024))
  }

  lemma WriteBit(pte: int)
    ensures HasW(SetW(pte)) && PageOf(SetW(pte)) == PageOf(pte) && IsSet(SetW(pte)) == IsSet(pte)
    ensures !HasW(ClearW(pte)) && PageOf(ClearW(pte)) == PageOf(pte) && IsSet(ClearW(pte)) == IsSet(pte)
  {
    var h, r := pte / 8, pte % 8;
    WriteBitAt(h, r);
    WriteBitAt(h, if r < 4 then r + 4 else r - 4);
  }

  /** The three low bits of an entry, the highest of them W. */
  lemma WriteBitAt(h: int, r: int)
    requires 0 <= r < 8
    ensures (8 * h + r) / 4 % 2 == r / 4 && (8 * h + r) / 1024 == h / 128 && (8 * h + r) % 2 == r % 2
  {
    Quotient(2 * h, r);
    Parity(h, r / 4);
    Parity(4 * h, r);
    Pages(h / 128, 8 * (h % 128) + r);
  }

  lemma Quotient(a: int, f: int)
    ensures (4 * a + f) / 4 == a + f / 4
  {
  }

  lemma Parity(a: int, f: int)
    ensures (2 * a + f) % 2 == f % 2
  {
  }

  lemma Pages(k: int, x: int)
    requires 0 <= x < 1024
    ensures (1024 * k + x) / 1024 == k && (1024 * k + x) % 1024 == x
  {
  }

  lemma Flags(pte: int)
    ensures IsSet(pte % 1024) == IsSet(pte) && 0 <= SetW(pte % 1024) < 1024
  {
    var f := pte % 1024;
    Parity(512 * (pte / 1024), f);
    BelowPage(f);
  }

  lemma BelowPage(f: int)
    requires 0 <= f < 1024
    ensures 0 <= SetW(f) < 1024
  {
    WriteBit(f);
    Pages(0, f);
    assert PageOf(SetW(f)) == 0;
  }

  lemma RefillBits(page: int, pte: int)
    requires IsSet(pte)
    ensures HasW(Refill(page, pte)) && PageOf(Refill(page, pte)) == page && IsSet(Refill(page, pte))
  {
    Flags(pte);
    WriteBit(pte % 1024);
    var f := SetW(pte % 1024);
    PteParts(page, f);
    HighBits(page, f);
  }

  /** The page number does not reach the write bit. */
  lemma HighBits(page: int, flags: int)
    requires 0 <= flags < 1024
    ensures HasW(MakePte(page, flags)) == HasW(flags)
  {
    Quotient(256 * page, flags);
    Parity(128 * page, flags / 4);
  }

  // ---- What a tree shows ----

  /** Page q of the pool is physical page first + q. */
  predicate ShowsAt(first: int, table: Cow.Table, t: Pt, v: Vpn)
    requires IsVpn(v)
  {
    var pte := Leaf(t, v);
    if IsSet(pte) then v in table && table[v] == Cow.Pte(PageOf(pte) - first, HasW(pte)) else v !in table
  }

  ghost predicate Shows(first: int, table: Cow.Table, t: Pt) {
    && Tree(t) && (forall v | v in table :: IsVpn(v))
    && (forall v | IsVpn(v) :: ShowsAt(first, table, t, v))
  }

  ghost predicate Shown(first: int, s: Cow.State, ts: Trees) {
    ts.Keys == s.pt.Keys && forall p | p in s.pt :: Shows(first, s.pt[p], ts[p])
  }

  /** walk has added what tables page number v needs; no entry changes. */
  ghost predicate Walked(t: Pt, u: Pt, v: Vpn) {
    IsVpn(v) && Tree(u) && There(u, LowOf(v)) && forall w | IsVpn(w) :: Leaf(u, w) == Leaf(t, w)
  }

  /** A tree whose entry for v is pte, and is otherwise t. */
  ghost predicate Wrote(t: Pt, u: Pt, v: Vpn, pte: int) {
    exists m :: Walked(t, m, v) && Page(m, LowOf(v)) in m.mem && u == SetLeaf(m, v, pte)
  }

  ghost predicate Blank(t: Pt) {
    Tree(t) && forall v | IsVpn(v) :: Leaf(t, v) == 0
  }

  /** Table p of ts has been given entry pte for v, and the others are as they were. */
  ghost predicate WroteIn(ts: Trees, us: Trees, p: Pid, v: Vpn, pte: int) {
    p in ts && us.Keys == ts.Keys && Wrote(ts[p], us[p], v, pte) && forall o | o in ts && o != p :: us[o] == ts[o]
  }

  ghost predicate Added(ts: Trees, us: Trees, p: Pid) {
    us.Keys == ts.Keys + {p} && p in us && Blank(us[p]) && forall o | o in ts && o != p :: us[o] == ts[o]
  }

  /** The entry mappages makes for a new page; xperm may have PTE_W and PTE_X. */
  predicate GrowPte(page: int, w: bool, pte: int) {
    pte == MakePte(page, USER + (if w then W else 0)) || pte == MakePte(page, USER + 8 + (if w then W else 0))
  }

  /** What the code writes where Cow takes step a. */
  ghost predicate TreeStep(first: int, s: Cow.State, a: Cow.Action, ts: Trees, us: Trees)
    requires Cow.Enabled(s, a)
  {
    match a
    case Spawn(p) => Added(ts, us, p)
    case ForkStart(p, c) => Added(ts, us, c)
    case SetWritable(p) => var v := s.tasks[p].v; p in ts && IsVpn(v) && WroteIn(ts, us, p, v, SetW(Leaf(ts[p], v)))
    case Remap(p) =>
      var v := s.tasks[p].v;
      p in ts && IsVpn(v) && WroteIn(ts, us, p, v, Refill(first + s.ram.holders[Hand(p)], Leaf(ts[p], v)))
    case GrowMap(p, w) =>
      var v := s.tasks[p].v;
      exists pte :: GrowPte(first + s.ram.holders[Hand(p)], w, pte) && WroteIn(ts, us, p, v, pte)
    case ClearPte(p) => WroteIn(ts, us, s.tasks[p].t, s.tasks[p].cur.value, 0)
    case UnmapEnd(p) => us == ts - {s.tasks[p].t}
    case ForkMap(p, v) => p in ts && IsVpn(v) && WroteIn(ts, us, s.tasks[p].child, v, ClearW(Leaf(ts[p], v)))
    case ForkClear(p) =>
      var v := s.tasks[p].cur.value;
      p in ts && IsVpn(v) && WroteIn(ts, us, p, v, ClearW(Leaf(ts[p], v)))
    case _ => us == ts
  }

  // ---- Every step keeps them together ----

  lemma WroteLeaf(t: Pt, u: Pt, v: Vpn, pte: int)
    requires Wrote(t, u, v, pte)
    ensures IsVpn(v) && Tree(u) && forall w | IsVpn(w) :: Leaf(u, w) == if w == v then pte else Leaf(t, w)
  {
    hide Page, Leaf, Tree, SetLeaf;
    var m :| Walked(t, m, v) && Page(m, LowOf(v)) in m.mem && u == SetLeaf(m, v, pte);
    SetLeafSpec(m, v, pte);
  }

  /** Writing an entry is what Cow's Put does to the map. */
  lemma ShowsPut(first: int, table: Cow.Table, t: Pt, u: Pt, v: Vpn, pte: int)
    requires Shows(first, table, t) && Wrote(t, u, v, pte) && IsSet(pte)
    ensures Shows(first, table[v := Cow.Pte(PageOf(pte) - first, HasW(pte))], u)
  {
    hide Leaf, Tree, IsSet, HasW, PageOf;
    WroteLeaf(t, u, v, pte);
    var more := table[v := Cow.Pte(PageOf(pte) - first, HasW(pte))];
    forall w | IsVpn(w) ensures ShowsAt(first, more, u, w) {
      assert ShowsAt(first, table, t, w);
    }
  }

  lemma ShowsClear(first: int, table: Cow.Table, t: Pt, u: Pt, v: Vpn)
    requires Shows(first, table, t) && Wrote(t, u, v, 0)
    ensures Shows(first, table - {v}, u)
  {
    hide Leaf, Tree, HasW, PageOf;
    WroteLeaf(t, u, v, 0);
    forall w | IsVpn(w) ensures ShowsAt(first, table - {v}, u, w) {
      assert ShowsAt(first, table, t, w);
    }
  }

  lemma ShowsBlank(first: int, t: Pt)
    requires Blank(t)
    ensures Shows(first, map[], t)
  {
    hide Leaf, Tree, HasW, PageOf;
  }

  /** The tables of Cow after a put, beside the trees. */
  lemma ShownPut(first: int, s: Cow.State, pt: map<Pid, Cow.Table>, ts: Trees, us: Trees, p: Pid, v: Vpn, pte: int)
    requires Shown(first, s, ts) && p in s.pt && WroteIn(ts, us, p, v, pte) && IsSet(pte)
    requires pt == Cow.Put(s.pt, p, v, Cow.Pte(PageOf(pte) - first, HasW(pte)))
    ensures Shown(first, s.(pt := pt), us)
  {
    hide Shows, IsSet, HasW, PageOf, Wrote;
    ShowsPut(first, s.pt[p], ts[p], us[p], v, pte);
  }

  lemma Entry(first: int, s: Cow.State, ts: Trees, p: Pid, v: Vpn)
    requires Shown(first, s, ts) && p in s.pt && v in s.pt[p]
    ensures p in ts && IsVpn(v) && IsSet(Leaf(ts[p], v)) && s.pt[p][v] == Cow.Pte(PageOf(Leaf(ts[p], v)) - first, HasW(Leaf(ts[p], v)))
  {
    hide Leaf, Tree, HasW, PageOf;
    assert Shows(first, s.pt[p], ts[p]);
    assert ShowsAt(first, s.pt[p], ts[p], v);
  }

  lemma StepChanges(first: int, s: Cow.State, a: Cow.Action, ts: Trees, us: Trees)
    requires Cow.Inv(s) && Cow.Enabled(s, a) && Shown(first, s, ts) && TreeStep(first, s, a, ts, us)
    requires a.SetWritable? || a.Remap? || a.ForkMap? || a.ForkClear?
    ensures Shown(first, s.(pt := Cow.NextPt(s, a)), us)
  {
    hide Cow.Inv, Shown, WroteIn, Leaf, IsSet, HasW, PageOf, SetW, ClearW, Refill;
    Cow.Basics(s, a.p);
    InTable(s, a);
    var p := a.p;
    match a
    case SetWritable(_) =>
      var v := s.tasks[p].v;
      Entry(first, s, ts, p, v);
      WriteBit(Leaf(ts[p], v));
      ShownPut(first, s, Cow.NextPt(s, a), ts, us, p, v, SetW(Leaf(ts[p], v)));
    case Remap(_) =>
      var v, q := s.tasks[p].v, first + s.ram.holders[Hand(p)];
      Entry(first, s, ts, p, v);
      RefillBits(q, Leaf(ts[p], v));
      ShownPut(first, s, Cow.NextPt(s, a), ts, us, p, v, Refill(q, Leaf(ts[p], v)));
    case ForkMap(_, v) =>
      Entry(first, s, ts, p, v);
      WriteBit(Leaf(ts[p], v));
      ShownPut(first, s, Cow.NextPt(s, a), ts, us, s.tasks[p].child, v, ClearW(Leaf(ts[p], v)));
    case ForkClear(_) =>
      var v := s.tasks[p].cur.value;
      Entry(first, s, ts, p, v);
      WriteBit(Leaf(ts[p], v));
      ShownPut(first, s, Cow.NextPt(s, a), ts, us, p, v, ClearW(Leaf(ts[p], v)));
  }

  /** The entry that is changed or copied is there. */
  lemma InTable(s: Cow.State, a: Cow.Action)
    requires Cow.Inv(s) && Cow.Enabled(s, a)
    ensures a.SetWritable? || a.Remap? ==> a.p in s.pt && s.tasks[a.p].v in s.pt[a.p]
    ensures a.ForkMap? ==> a.p in s.pt && a.v in s.pt[a.p] && s.tasks[a.p].child in s.pt
    ensures a.ForkClear? ==> a.p in s.pt && s.tasks[a.p].cur.value in s.pt[a.p]
    ensures a.ClearPte? ==> s.tasks[a.p].t in s.pt && s.tasks[a.p].cur.value in s.pt[s.tasks[a.p].t]
  {
    hide Cow.Inv;
    Cow.Basics(s, a.p);
    Cow.InOrder(s, a.p);
  }

  lemma StepGrows(first: int, s: Cow.State, a: Cow.Action, ts: Trees, us: Trees)
    requires Cow.Enabled(s, a) && Shown(first, s, ts) && TreeStep(first, s, a, ts, us) && a.GrowMap?
    ensures Shown(first, s.(pt := Cow.NextPt(s, a)), us)
  {
    hide Shown, WroteIn, IsSet, PageOf;
    var q, w := first + s.ram.holders[Hand(a.p)], if a.w then W else 0;
    var pte :| GrowPte(q, a.w, pte) && WroteIn(ts, us, a.p, s.tasks[a.p].v, pte);
    PteParts(q, USER + w);
    HighBits(q, USER + w);
    PteParts(q, USER + 8 + w);
    HighBits(q, USER + 8 + w);
    ShownPut(first, s, Cow.NextPt(s, a), ts, us, a.p, s.tasks[a.p].v, pte);
  }

  lemma StepEnds(first: int, s: Cow.State, a: Cow.Action, ts: Trees, us: Trees)
    requires Cow.Inv(s) && Cow.Enabled(s, a) && Shown(first, s, ts) && TreeStep(first, s, a, ts, us)
    requires a.Spawn? || a.ForkStart? || a.ClearPte? || a.UnmapEnd?
    ensures Shown(first, s.(pt := Cow.NextPt(s, a)), us)
  {
    hide Cow.Inv, Shows, Wrote, Blank;
    match a
    case Spawn(p) => ShowsBlank(first, us[p]);
    case ForkStart(_, c) => ShowsBlank(first, us[c]);
    case ClearPte(p) =>
      var t := s.tasks[p].t;
      ShowsClear(first, s.pt[t], ts[t], us[t], s.tasks[p].cur.value);
    case UnmapEnd(_) =>
  }

  /** The trees the code writes show the tables of Cow after every step. */
  lemma ShownStep(first: int, s: Cow.State, a: Cow.Action, ts: Trees, us: Trees)
    requires Cow.Inv(s) && Cow.Enabled(s, a) && Shown(first, s, ts) && TreeStep(first, s, a, ts, us)
    ensures Shown(first, Cow.Do(s, a), us)
  {
    hide Cow.Inv, Cow.Do, Cow.Enabled, Shows, TreeStep, Cow.NextPt;
    Cow.OwnState(s, a);
    if a.GrowMap? {
      StepGrows(first, s, a, ts, us);
    } else if a.SetWritable? || a.Remap? || a.ForkMap? || a.ForkClear? {
      StepChanges(first, s, a, ts, us);
    } else if Cow.ChangesPt(a) {
      StepEnds(first, s, a, ts, us);
    } else {
      Cow.QuietPt(s, a);
      QuietTrees(first, s, a, ts, us);
    }
  }

  lemma QuietTrees(first: int, s: Cow.State, a: Cow.Action, ts: Trees, us: Trees)
    requires Cow.Enabled(s, a) && TreeStep(first, s, a, ts, us) && !Cow.ChangesPt(a)
    ensures us == ts
  {
  }

  // ---- The code can always write what it is to write ----

  /** A set entry is in a table of the tree. */
  lemma WalkedSelf(t: Pt, v: Vpn)
    requires Tree(t) && IsVpn(v) && IsSet(Leaf(t, v))
    ensures Walked(t, t, v)
  {
    hide Page;
  }

  lemma WriteEntry(ts: Trees, p: Pid, m: Pt, v: Vpn, pte: int) returns (us: Trees)
    requires p in ts && Walked(ts[p], m, v)
    ensures WroteIn(ts, us, p, v, pte)
  {
    hide Leaf;
    us := ts[p := SetLeaf(m, v, pte)];
  }

  /** The tree in which walk finds or makes the table step a writes to: a given one with
      the tables that are missing, or as it is. */
  ghost predicate Supplied(s: Cow.State, a: Cow.Action, ts: Trees, m: Pt)
    requires Cow.Enabled(s, a)
  {
    match a
    case Spawn(_) => Blank(m)
    case ForkStart(_, _) => Blank(m)
    case GrowMap(p, _) => p in ts && Walked(ts[p], m, s.tasks[p].v)
    case ForkMap(p, v) => s.tasks[p].child in ts && Walked(ts[s.tasks[p].child], m, v)
    case _ => true
  }

  /** Given what tables it needs, the code can write what TreeStep says. */
  lemma CanWrite(first: int, s: Cow.State, a: Cow.Action, ts: Trees, m: Pt) returns (us: Trees)
    requires Cow.Inv(s) && Cow.Enabled(s, a) && Shown(first, s, ts) && Supplied(s, a, ts, m)
    ensures TreeStep(first, s, a, ts, us)
  {
    hide Cow.Inv, Shown, WroteIn, Walked, Leaf, Blank, Supplied;
    if a.SetWritable? || a.Remap? || a.ForkMap? || a.ForkClear? {
      us := CanChange(first, s, a, ts, m);
    } else if Cow.ChangesPt(a) {
      us := CanMakeOrClear(first, s, a, ts, m);
    } else {
      us := ts;
    }
  }

  lemma CanChange(first: int, s: Cow.State, a: Cow.Action, ts: Trees, m: Pt) returns (us: Trees)
    requires Cow.Inv(s) && Cow.Enabled(s, a) && Shown(first, s, ts) && Supplied(s, a, ts, m)
    requires a.SetWritable? || a.Remap? || a.ForkMap? || a.ForkClear?
    ensures TreeStep(first, s, a, ts, us)
  {
    hide Cow.Inv, Shown, WroteIn, Walked, Leaf, SetW, ClearW, Refill, Blank, GrowPte, Added;
    InTable(s, a);
    var p := a.p;
    match a
    case SetWritable(_) => us := Rewrite(first, s, ts, p, s.tasks[p].v, SetW(EntryAt(ts, p, s.tasks[p].v)));
    case Remap(_) =>
      us := Rewrite(first, s, ts, p, s.tasks[p].v, Refill(first + s.ram.holders[Hand(p)], EntryAt(ts, p, s.tasks[p].v)));
    case ForkMap(_, v) =>
      Entry(first, s, ts, p, v);
      us := WriteEntry(ts, s.tasks[p].child, m, v, ClearW(Leaf(ts[p], v)));
    case ForkClear(_) => us := Rewrite(first, s, ts, p, s.tasks[p].cur.value, ClearW(EntryAt(ts, p, s.tasks[p].cur.value)));
  }

  lemma CanMakeOrClear(first: int, s: Cow.State, a: Cow.Action, ts: Trees, m: Pt) returns (us: Trees)
    requires Cow.Inv(s) && Cow.Enabled(s, a) && Shown(first, s, ts) && Supplied(s, a, ts, m)
    requires a.Spawn? || a.ForkStart? || a.GrowMap? || a.ClearPte? || a.UnmapEnd?
    ensures TreeStep(first, s, a, ts, us)
  {
    hide Cow.Inv, Shown, WroteIn, Walked, Leaf, SetW, ClearW, Refill, Blank, Added;
    InTable(s, a);
    var p := a.p;
    match a
    case Spawn(_) => us := AddTree(ts, p, m);
    case ForkStart(_, c) => us := AddTree(ts, c, m);
    case GrowMap(_, w) =>
      var pte := MakePte(first + s.ram.holders[Hand(p)], USER + (if w then W else 0));
      us := WriteEntry(ts, p, m, s.tasks[p].v, pte);
      assert GrowPte(first + s.ram.holders[Hand(p)], w, pte);
    case ClearPte(_) => us := Rewrite(first, s, ts, s.tasks[p].t, s.tasks[p].cur.value, 0);
    case UnmapEnd(_) => us := ts - {s.tasks[p].t};
  }

  ghost function EntryAt(ts: Trees, p: Pid, v: Vpn): int {
    if p in ts && IsVpn(v) then Leaf(ts[p], v) else 0
  }

  lemma AddTree(ts: Trees, p: Pid, m: Pt) returns (us: Trees)
    requires Blank(m)
    ensures Added(ts, us, p)
  {
    us := ts[p := m];
  }

  lemma Rewrite(first: int, s: Cow.State, ts: Trees, p: Pid, v: Vpn, pte: int) returns (us: Trees)
    requires Shown(first, s, ts) && p in s.pt && v in s.pt[p]
    ensures p in ts && IsVpn(v) && WroteIn(ts, us, p, v, pte)
  {
    hide Leaf, WroteIn, Walked;
    Entry(first, s, ts, p, v);
    WalkedSelf(ts[p], v);
    us := WriteEntry(ts, p, ts[p], v, pte);
  }

  // ---- Whole runs ----

  ghost predicate TreeRun(first: int, states: seq<Cow.State>, actions: seq<Cow.Action>, trees: seq<Trees>) {
    && CowRefines.ValidRun(states, actions) && |trees| == |states| && trees[0] == map[]
    && forall i | 0 <= i < |actions| :: Cow.Enabled(states[i], actions[i]) && TreeStep(first, states[i], actions[i], trees[i], trees[i + 1])
  }

  lemma {:induction false} RunShown(first: int, states: seq<Cow.State>, actions: seq<Cow.Action>, trees: seq<Trees>, k: nat)
    requires TreeRun(first, states, actions, trees) && k < |states|
    ensures Cow.Inv(states[k]) && Shown(first, states[k], trees[k])
  {
    hide Cow.Inv, Cow.Do, Cow.Enabled, TreeStep, Shows;
    CowRefines.RunRefines(states, actions, k);
    if k > 0 {
      RunShown(first, states, actions, trees, k - 1);
      assert CowRefines.StepOf(states[k - 1], actions[k - 1], states[k]);
      ShownStep(first, states[k - 1], actions[k - 1], trees[k - 1], trees[k]);
    }
  }

  /** What the hardware finds for a page number in the tree of a process that is not
      inside the kernel: an entry exactly if the process has the page, leading to its
      contents, and to a page that is not shared if the entry allows stores. */
  lemma HardwareSees(first: int, s: Cow.State, t: Pt, p: Pid, v: Vpn)
    requires Cow.Inv(s) && Cow.Resting(s, p) && Shows(first, s.pt[p], t) && IsVpn(v)
    ensures p in CowRefines.Alpha(s)
    ensures var pte, memory := Leaf(t, v), CowRefines.Alpha(s)[p];
            && (pte % 2 == 1 <==> v in memory)
            && (pte % 2 == 1 ==> IsPage(s.ram, pte / 1024 - first) && s.ram.mem[pte / 1024 - first] == memory[v])
            && (pte % 2 == 1 && pte / 4 % 2 == 1 ==> IsPage(s.ram, pte / 1024 - first) && s.ram.ref[pte / 1024 - first] == 1)
  {
    hide Cow.Inv, Leaf, Tree, CowRefines.Alpha;
    assert ShowsAt(first, s.pt[p], t, v);
    RestingView(s, p, v);
    if v in s.pt[p] {
      CowRefines.LoadSeesView(s, p, v);
      RestingWritable(s, p, v);
    }
  }

  /** In every run, that is what the process has in the kernel whose fork copies
      everything. */
  lemma HardwareSeesView(first: int, states: seq<Cow.State>, actions: seq<Cow.Action>, trees: seq<Trees>, k: nat, p: Pid, v: Vpn)
    requires TreeRun(first, states, actions, trees) && k < |states| == |trees| && Cow.Resting(states[k], p) && IsVpn(v)
    ensures p in trees[k] && CowRefines.Eager(states, actions, k).Some? && p in CowRefines.Eager(states, actions, k).value
    ensures var s, pte, memory := states[k], Leaf(trees[k][p], v), CowRefines.Eager(states, actions, k).value[p];
            && (pte % 2 == 1 <==> v in memory)
            && (pte % 2 == 1 ==> IsPage(s.ram, pte / 1024 - first) && s.ram.mem[pte / 1024 - first] == memory[v])
            && (pte % 2 == 1 && pte / 4 % 2 == 1 ==> IsPage(s.ram, pte / 1024 - first) && s.ram.ref[pte / 1024 - first] == 1)
  {
    hide TreeRun, Cow.Inv, Leaf, Shows, CowRefines.Eager, CowRefines.ValidRun, CowRefines.Alpha;
    RunShown(first, states, actions, trees, k);
    Refines(first, states, actions, trees, k);
    HardwareSees(first, states[k], trees[k][p], p, v);
  }

  lemma RestingWritable(s: Cow.State, p: Pid, v: Vpn)
    requires Cow.Inv(s) && Cow.Resting(s, p) && v in s.pt[p] && Cow.Maps(s, p, v)
    ensures s.pt[p][v].writable ==> s.ram.ref[s.pt[p][v].page] == 1
  {
    Cow.InOrder(s, p);
    if s.pt[p][v].writable {
      CowRefines.WritableMeansOne(s, p, v);
    }
  }

  // ---- The flags of entries ----

  /** V, R and U are set, and W and X may be; no other flag is. */
  predicate UserFlags(pte: int) {
    pte % 1024 in {19, 23, 27, 31}
  }

  ghost predicate AllUser(ts: Trees) {
    forall p, v | p in ts && IsVpn(v) && IsSet(Leaf(ts[p], v)) :: UserFlags(Leaf(ts[p], v))
  }

  lemma FlagsKept(page: int, pte: int)
    requires UserFlags(pte)
    ensures UserFlags(SetW(pte)) && UserFlags(ClearW(pte)) && UserFlags(Refill(page, pte))
  {
    var h, f := pte / 1024, pte % 1024;
    assert pte == 1024 * h + f;
    Quotient(256 * h, f);
    Parity(128 * h, f / 4);
    Pages(h, f);
    Pages(h, SetW(f));
    Pages(h, ClearW(f));
    Pages(page, SetW(f));
  }

  lemma NewFlags(page: int, w: bool, pte: int)
    requires GrowPte(page, w, pte)
    ensures UserFlags(pte)
  {
    Pages(page, USER + (if w then W else 0));
    Pages(page, USER + 8 + (if w then W else 0));
  }

  lemma UserWrote(ts: Trees, us: Trees, p: Pid, v: Vpn, pte: int)
    requires AllUser(ts) && WroteIn(ts, us, p, v, pte) && (IsSet(pte) ==> UserFlags(pte))
    ensures AllUser(us)
  {
    hide Leaf, Wrote, IsSet, UserFlags;
    WroteLeaf(ts[p], us[p], v, pte);
  }

  lemma UserStep(first: int, s: Cow.State, a: Cow.Action, ts: Trees, us: Trees)
    requires Cow.Inv(s) && Cow.Enabled(s, a) && Shown(first, s, ts) && TreeStep(first, s, a, ts, us) && AllUser(ts)
    ensures AllUser(us)
  {
    hide Cow.Inv, Shown, WroteIn, Leaf, SetW, ClearW, Refill, UserFlags, GrowPte, AllUser;
    InTable(s, a);
    if Cow.ChangesPt(a) {
      var p := a.p;
      match a
      case SetWritable(_) =>
        var pte := OldEntry(first, s, ts, p, s.tasks[p].v);
        FlagsKept(0, pte);
        UserWrote(ts, us, p, s.tasks[p].v, SetW(pte));
      case Remap(_) =>
        var q := first + s.ram.holders[Hand(p)];
        var pte := OldEntry(first, s, ts, p, s.tasks[p].v);
        FlagsKept(q, pte);
        UserWrote(ts, us, p, s.tasks[p].v, Refill(q, pte));
      case ForkMap(_, v) =>
        var pte := OldEntry(first, s, ts, p, v);
        FlagsKept(0, pte);
        UserWrote(ts, us, s.tasks[p].child, v, ClearW(pte));
      case ForkClear(_) =>
        var pte := OldEntry(first, s, ts, p, s.tasks[p].cur.value);
        FlagsKept(0, pte);
        UserWrote(ts, us, p, s.tasks[p].cur.value, ClearW(pte));
      case GrowMap(_, w) =>
        var q := first + s.ram.holders[Hand(p)];
        var pte :| GrowPte(q, w, pte) && WroteIn(ts, us, p, s.tasks[p].v, pte);
        NewFlags(q, w, pte);
        UserWrote(ts, us, p, s.tasks[p].v, pte);
      case ClearPte(_) => UserWrote(ts, us, s.tasks[p].t, s.tasks[p].cur.value, 0);
      case _ => UserEnds(first, s, a, ts, us);
    } else {
      QuietTrees(first, s, a, ts, us);
    }
  }

  lemma OldEntry(first: int, s: Cow.State, ts: Trees, p: Pid, v: Vpn) returns (pte: int)
    requires Shown(first, s, ts) && p in s.pt && v in s.pt[p] && AllUser(ts)
    ensures p in ts && IsVpn(v) && pte == Leaf(ts[p], v) && UserFlags(pte)
  {
    hide Leaf;
    Entry(first, s, ts, p, v);
    pte := Leaf(ts[p], v);
  }

  lemma UserEnds(first: int, s: Cow.State, a: Cow.Action, ts: Trees, us: Trees)
    requires Cow.Enabled(s, a) && TreeStep(first, s, a, ts, us) && AllUser(ts) && (a.Spawn? || a.ForkStart? || a.UnmapEnd?)
    ensures AllUser(us)
  {
    hide Leaf, Tree;
  }

  /** In every run, every entry of every process has V, R and U, W and X or not, and no
      other flag. */
  lemma {:induction false} EntryFlags(first: int, states: seq<Cow.State>, actions: seq<Cow.Action>, trees: seq<Trees>, k: nat)
    requires TreeRun(first, states, actions, trees) && k < |states|
    ensures |trees| == |states| && AllUser(trees[k])
    ensures forall p, v | p in trees[k] && IsVpn(v) && Leaf(trees[k][p], v) % 2 == 1 :: Leaf(trees[k][p], v) % 1024 in {19, 23, 27, 31}
  {
    hide Cow.Inv, Cow.Do, Cow.Enabled, TreeStep, Shown, Leaf;
    if k > 0 {
      EntryFlags(first, states, actions, trees, k - 1);
      RunShown(first, states, actions, trees, k - 1);
      UserStep(first, states[k - 1], actions[k - 1], trees[k - 1], trees[k]);
    }
  }

  lemma Refines(first: int, states: seq<Cow.State>, actions: seq<Cow.Action>, trees: seq<Trees>, k: nat)
    requires TreeRun(first, states, actions, trees) && k < |states|
    ensures CowRefines.ValidRun(states, actions) && CowRefines.Eager(states, actions, k) == Cow.Some(CowRefines.Alpha(states[k]))
  {
    CowRefines.RunRefines(states, actions, k);
  }

  lemma RestingView(s: Cow.State, p: Pid, v: Vpn)
    requires Cow.Resting(s, p)
    ensures p in CowRefines.Alpha(s) && (v in CowRefines.Alpha(s)[p] <==> v in s.pt[p])
  {
  }
}
