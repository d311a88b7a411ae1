/** Three-level page tables, section 4.4 of the RISC-V Privileged Architecture
    and kernel/vm.c: a tree of table pages in memory, and the map from virtual
    page numbers to entries it stands for. */
module Sv39Tree {
  const ENTRIES := 512

  /** MAXVA / PGSIZE. */
  const VPNS := 0x400_0000

  type Table = t: seq<int> | |t| == ENTRIES witness seq(ENTRIES, _ => 0)

  function EmptyTable(): Table {
    seq(ENTRIES, _ => 0)
  }

  // An entry is a physical page number above ten flag bits, the lowest V, the next three R, W, X.

  predicate IsSet(pte: int) {
    pte % 2 == 1
  }

  function PageOf(pte: int): int {
    pte / 1024
  }

  function MakePte(page: int, flags: int): int {
    page * 1024 + flags
  }

  lemma PteParts(page: int, flags: int)
    requires 0 <= flags < 1024
    ensures PageOf(MakePte(page, flags)) == page && MakePte(page, flags) % 1024 == flags
    ensures IsSet(MakePte(page, flags)) == (flags % 2 == 1)
  {
    PteSet(page, flags);
  }

  lemma PteSet(page: int, flags: int)
    ensures IsSet(MakePte(page, flags)) == (flags % 2 == 1)
  {
  }

  /** No R, W or X: the entry points to a table. */
  predicate IsPointer(pte: int) {
    IsSet(pte) && pte / 2 % 8 == 0
  }

  // ---- Tables and entries by position ----

  datatype Pos = Root | Mid(i: int) | Low(i: int, j: int)

  datatype Pt = Pt(root: int, mem: map<int, Table>)

  predicate IsIndex(i: int) {
    0 <= i < ENTRIES
  }

  predicate IsPos(x: Pos) {
    match x
    case Root => true
    case Mid(i) => IsIndex(i)
    case Low(i, j) => IsIndex(i) && IsIndex(j)
  }

  function Above(x: Pos): Pos
    requires !x.Root?
  {
    match x
    case Mid(_) => Root
    case Low(i, _) => Mid(i)
  }

  function Index(x: Pos): int
    requires !x.Root?
  {
    match x
    case Mid(i) => i
    case Low(_, j) => j
  }

  function Depth(x: Pos): nat {
    match x
    case Root => 0
    case Mid(_) => 1
    case Low(_, _) => 2
  }

  /** The table page at a position, 0 if there is none. */
  function Page(s: Pt, x: Pos): int
    requires IsPos(x)
    decreases Depth(x)
  {
    if x.Root? then s.root
    else
      var up := Page(s, Above(x));
      if up in s.mem && IsSet(s.mem[up][Index(x)]) then PageOf(s.mem[up][Index(x)]) else 0
  }

  predicate IsVpn(v: int) {
    0 <= v < VPNS
  }

  /** The level-0 table of a page number; PX(2, va) and PX(1, va). */
  function LowOf(v: int): (x: Pos)
    requires IsVpn(v)
    ensures IsPos(x) && Reached(x)
  {
    Low(v / 262144, v / 512 % 512)
  }

  lemma VpnParts(v: int, w: int)
    requires IsVpn(v) && IsVpn(w) && LowOf(v) == LowOf(w) && v % 512 == w % 512
    ensures v == w
  {
  }

  /** The entry of a page number, 0 where there is no table for it. */
  function Leaf(s: Pt, v: int): int
    requires IsVpn(v)
  {
    var t := Page(s, LowOf(v));
    if t in s.mem then s.mem[t][v % 512] else 0
  }

  // ---- The invariant ----

  predicate There(s: Pt, x: Pos) {
    IsPos(x) && Page(s, x) != 0
  }

  /** The pages of mem are exactly the tables of the tree, each at one position. */
  ghost predicate Tree(s: Pt) {
    && s.root != 0 && 0 !in s.mem
    && (forall x | There(s, x) :: Page(s, x) in s.mem && Reached(x))
    && (forall x, y | There(s, x) && There(s, y) && Page(s, x) == Page(s, y) :: x == y)
    && (forall q | q in s.mem :: Placed(s, q))
    && (forall x, k | There(s, x) && !x.Low? && IsIndex(k) :: Plain(s.mem[Page(s, x)][k]))
  }

  /** Page numbers below VPNS use half of the root table. */
  predicate Reached(x: Pos) {
    x.Root? || x.i < 256
  }

  ghost predicate Placed(s: Pt, q: int) {
    exists x :: There(s, x) && Page(s, x) == q
  }

  /** An entry of an upper table: none, or a pointer with no flag but V. */
  predicate Plain(pte: int) {
    pte == 0 || (pte % 1024 == 1 && pte / 1024 != 0)
  }

  /** The entry of a virtual address in the words of the tables, bits 38 to 30,
      29 to 21 and 20 to 12 of the address choosing the entry at each level. */
  lemma WalkWords(s: Pt, va: int)
    requires Tree(s) && 0 <= va < VPNS * 4096
    ensures s.root in s.mem
    ensures var top := s.mem[s.root][va / 0x4000_0000];
            && (top % 2 == 0 ==> Leaf(s, va / 4096) == 0)
            && (top % 2 == 1 ==>
                  && top / 1024 in s.mem
                  && var mid := s.mem[top / 1024][va / 0x20_0000 % 512];
                     && (mid % 2 == 0 ==> Leaf(s, va / 4096) == 0)
                     && (mid % 2 == 1 ==> mid / 1024 in s.mem && Leaf(s, va / 4096) == s.mem[mid / 1024][va / 4096 % 512]))
  {
    hide Tree;
    var i, j := va / 0x4000_0000, va / 0x20_0000 % 512;
    AddressParts(va);
    assert IsIndex(i) && IsIndex(j);
    assert Above(Low(i, j)) == Mid(i) && Above(Mid(i)) == Root;
    TreePage(s, Root);
    TreePage(s, Mid(i));
    TreePage(s, Low(i, j));
    TreeEntry(s, Root, i);
    if There(s, Mid(i)) {
      TreeEntry(s, Mid(i), j);
    }
  }

  lemma AddressParts(va: int)
    requires 0 <= va < VPNS * 4096
    ensures LowOf(va / 4096) == Low(va / 0x4000_0000, va / 0x20_0000 % 512)
    ensures 0 <= va / 0x4000_0000 < 512
  {
    assert va / 4096 / 262144 == va / 0x4000_0000;
    assert va / 4096 / 512 == va / 0x20_0000;
  }

  lemma TreePage(s: Pt, x: Pos)
    requires Tree(s)
    ensures There(s, Root) && 0 !in s.mem
    ensures There(s, x) ==> Page(s, x) in s.mem
  {
  }

  lemma TreeEntry(s: Pt, x: Pos, k: int)
    requires Tree(s) && There(s, x) && !x.Low? && IsIndex(k)
    ensures Page(s, x) in s.mem && Plain(s.mem[Page(s, x)][k])
  {
  }

  /** A root with no entries is a tree that maps nothing. */
  lemma RootOnly(s: Pt)
    requires s.root != 0 && s.mem == map[s.root := EmptyTable()]
    ensures Tree(s) && forall v | IsVpn(v) :: Leaf(s, v) == 0
  {
    forall x | IsPos(x) && !x.Root? ensures Page(s, x) == 0 {
      if x.Low? {
        assert Page(s, Above(x)) == 0;
      }
    }
    assert There(s, Root);
  }

  // ---- Adding a table ----

  ghost predicate CanAttach(s: Pt, x: Pos, q: int) {
    Tree(s) && IsPos(x) && !x.Root? && Page(s, x) == 0 && There(s, Above(x)) && Reached(x) && q !in s.mem && q != 0
  }

  function Attach(s: Pt, x: Pos, q: int): Pt
    requires IsPos(x) && !x.Root? && Page(s, Above(x)) in s.mem
  {
    var up := Page(s, Above(x));
    s.(mem := s.mem[q := EmptyTable()][up := s.mem[up][Index(x) := MakePte(q, 1)]])
  }

  lemma {:induction false} AttachPage(s: Pt, x: Pos, q: int, y: Pos)
    requires CanAttach(s, x, q) && IsPos(y)
    ensures Page(Attach(s, x, q), y) == if y == x then q else Page(s, y)
    decreases Depth(y)
  {
    hide MakePte, PageOf;
    PteParts(q, 1);
    if !y.Root? {
      AttachPage(s, x, q, Above(y));
      assert There(s, Above(y)) ==> Page(s, Above(y)) in s.mem;
      assert There(s, Above(y)) && Page(s, Above(y)) == Page(s, Above(x)) ==> Above(y) == Above(x);
    }
  }

  lemma AttachLeaf(s: Pt, x: Pos, q: int, v: int)
    requires CanAttach(s, x, q) && IsVpn(v)
    ensures Leaf(Attach(s, x, q), v) == Leaf(s, v)
  {
    hide Page;
    AttachPage(s, x, q, LowOf(v));
    assert There(s, LowOf(v)) ==> Page(s, LowOf(v)) in s.mem;
    assert There(s, LowOf(v)) ==> Page(s, LowOf(v)) != Page(s, Above(x));
  }

  lemma AttachTree(s: Pt, x: Pos, q: int)
    requires CanAttach(s, x, q)
    ensures Tree(Attach(s, x, q)) && Attach(s, x, q).mem.Keys == s.mem.Keys + {q}
  {
    hide Page;
    var t := Attach(s, x, q);
    forall y | IsPos(y) ensures Page(t, y) == if y == x then q else Page(s, y) {
      AttachPage(s, x, q, y);
    }
    forall p | p in t.mem ensures Placed(t, p) {
      if p == q {
        assert There(t, x) && Page(t, x) == q;
      } else {
        var y :| There(s, y) && Page(s, y) == p;
        assert There(t, y) && Page(t, y) == p;
      }
    }
    forall y, k | There(t, y) && !y.Low? && IsIndex(k) ensures Plain(t.mem[Page(t, y)][k]) {
      if y != x {
        assert There(s, y) && Plain(s.mem[Page(s, y)][k]);
        PteParts(q, 1);
      }
    }
  }

  // ---- Changing an entry ----

  function SetLeaf(s: Pt, v: int, pte: int): Pt
    requires IsVpn(v) && Page(s, LowOf(v)) in s.mem
  {
    var t := Page(s, LowOf(v));
    s.(mem := s.mem[t := s.mem[t][v % 512 := pte]])
  }

  lemma {:induction false} SetLeafPage(s: Pt, v: int, pte: int, y: Pos)
    requires Tree(s) && IsVpn(v) && There(s, LowOf(v)) && IsPos(y)
    ensures Page(s, LowOf(v)) in s.mem && Page(SetLeaf(s, v, pte), y) == Page(s, y)
    decreases Depth(y)
  {
    if !y.Root? {
      SetLeafPage(s, v, pte, Above(y));
      assert There(s, Above(y)) ==> Page(s, Above(y)) != Page(s, LowOf(v));
    }
  }

  /** Writing one entry changes the map at one page number. */
  lemma SetLeafSpec(s: Pt, v: int, pte: int)
    requires Tree(s) && IsVpn(v) && There(s, LowOf(v))
    ensures Page(s, LowOf(v)) in s.mem && Tree(SetLeaf(s, v, pte))
    ensures SetLeaf(s, v, pte).mem.Keys == s.mem.Keys
    ensures forall w | IsVpn(w) :: Leaf(SetLeaf(s, v, pte), w) == if w == v then pte else Leaf(s, w)
  {
    hide Page, LowOf;
    var t := SetLeaf(s, v, pte);
    forall y | IsPos(y) ensures Page(t, y) == Page(s, y) {
      SetLeafPage(s, v, pte, y);
    }
    forall p | p in t.mem ensures Placed(t, p) {
      var y :| There(s, y) && Page(s, y) == p;
      assert There(t, y);
    }
    forall y, k | There(t, y) && !y.Low? && IsIndex(k) ensures Plain(t.mem[Page(t, y)][k]) {
      LowIsLow(v);
      assert There(s, y) && Plain(s.mem[Page(s, y)][k]);
    }
    forall w | IsVpn(w) ensures Leaf(t, w) == if w == v then pte else Leaf(s, w) {
      SetLeafElsewhere(s, v, pte, w);
    }
  }

  lemma LowIsLow(v: int)
    requires IsVpn(v)
    ensures LowOf(v).Low?
  {
  }

  lemma SetLeafElsewhere(s: Pt, v: int, pte: int, w: int)
    requires Tree(s) && IsVpn(v) && IsVpn(w) && There(s, LowOf(v))
    ensures Page(s, LowOf(v)) in s.mem && Leaf(SetLeaf(s, v, pte), w) == if w == v then pte else Leaf(s, w)
  {
    hide Page;
    SetLeafPage(s, v, pte, LowOf(w));
    if LowOf(v) == LowOf(w) && v % 512 == w % 512 {
      VpnParts(v, w);
    }
    assert There(s, LowOf(w)) && Page(s, LowOf(w)) == Page(s, LowOf(v)) ==> LowOf(w) == LowOf(v);
  }
}
