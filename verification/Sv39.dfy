/** kernel/vm.c as code over the trees of Sv39Tree: walk, mappages, uvmunmap,
    uvmalloc, uvmdealloc and freewalk.  Addresses are page numbers except where
    the code rounds sizes. */
module Sv39 {
  import opened Params
  import opened Sv39Tree
  import opened Lists

  const PTE_V := 1
  const PTE_R := 2
  const PTE_U := 16

  function Count(data: map<int, int>, q: int): int {
    if q in data then data[q] else 0
  }

  /** perm | PTE_V. */
  function WithV(perm: int): int {
    if perm % 2 == 1 then perm else perm + 1
  }

  /** Same entries. */
  ghost predicate SameMap(s: Pt, t: Pt) {
    forall w | IsVpn(w) :: Leaf(t, w) == Leaf(s, w)
  }

  class Vm {
    const root: int
    var free: seq<int>
    var mem: map<int, Table>
    var data: map<int, int>
    ghost var grown: nat  // tables ever added

    ghost function St(): Pt
      reads this
    {
      Pt(root, mem)
    }

    /** Free pages, table pages and counted data pages are apart. */
    ghost predicate Apart()
      reads this
    {
      && Distinct(free) && Elems(free) !! mem.Keys && Elems(free) !! data.Keys && mem.Keys !! data.Keys
      && 0 !in Elems(free) && 0 !in data
      && (forall q | q in data :: data[q] > 0)
    }

    ghost predicate Valid()
      reads this
    {
      Tree(St()) && Apart()
    }

    ghost function Pages(): set<int>
      reads this
    {
      Elems(free) + mem.Keys + data.Keys
    }

    /** An empty user page table: a root and nothing mapped. */
    constructor (pool: seq<int>, data: map<int, int>)
      requires Distinct(pool) && pool != [] && 0 !in Elems(pool)
      requires Elems(pool) !! data.Keys && 0 !in data && forall q | q in data :: data[q] > 0
      ensures Valid() && Pages() == Elems(pool) + data.Keys && this.data == data && free == pool[1..]
      ensures forall v | IsVpn(v) :: Leaf(St(), v) == 0
    {
      root := pool[0];
      free := pool[1..];
      mem := map[pool[0] := EmptyTable()];
      this.data, grown := data, 0;
      new;
      PopFront(pool);
      RootOnly(St());
    }

    /** uvmcreate: null if and only if there is no free page. */
    static method UvmCreate(pool: seq<int>, data: map<int, int>) returns (vm: Vm?)
      requires Distinct(pool) && 0 !in Elems(pool)
      requires Elems(pool) !! data.Keys && 0 !in data && forall q | q in data :: data[q] > 0
      ensures vm == null <==> pool == []
      ensures vm != null ==> fresh(vm) && vm.Valid() && forall v | IsVpn(v) :: Leaf(vm.St(), v) == 0
    {
      if pool == [] {
        return null;
      }
      vm := new Vm(pool, data);
    }

    /** One level of walk: the table below `table`, found, added or 0. */
    method Descend(table: int, k: int, alloc: bool, ghost x: Pos) returns (next: int)
      requires Valid() && IsPos(x) && Reached(x) && !x.Root? && There(St(), Above(x)) && table == Page(St(), Above(x)) && k == Index(x)
      modifies `free, `mem, `grown
      ensures Valid() && Pages() == old(Pages()) && old(mem.Keys) <= mem.Keys && SameMap(old(St()), St())
      ensures next == Page(St(), x)
      ensures !alloc || old(Page(St(), x)) != 0 ==> mem == old(mem) && free == old(free) && grown == old(grown)
      ensures next == 0 && alloc ==> free == []
      ensures |free| + grown == old(|free| + grown)
      ensures Elems(free) <= old(Elems(free))
    {
      var pte := mem[table][k];
      if IsSet(pte) {
        assert Plain(pte);
        return PageOf(pte);
      }
      if !alloc || free == [] {
        return 0;
      }
      next := free[0];
      PopFront(free);
      free := free[1..];
      ghost var s := St();
      AttachTree(s, x, next);
      AttachPage(s, x, next, x);
      forall w | IsVpn(w) ensures Leaf(Attach(s, x, next), w) == Leaf(s, w) {
        AttachLeaf(s, x, next, w);
      }
      mem := mem[next := EmptyTable()];
      mem := mem[table := mem[table][k := MakePte(next, PTE_V)]];
      grown := grown + 1;
    }

    /** walk: the level-0 table of a page number; 0 if it is not there and
        cannot or shall not be made.  No entry of the map changes. */
    method Walk(v: int, alloc: bool) returns (t: int)
      requires Valid() && IsVpn(v)
      modifies `free, `mem, `grown
      ensures Valid() && Pages() == old(Pages()) && old(mem.Keys) <= mem.Keys && SameMap(old(St()), St())
      ensures t == Page(St(), LowOf(v))
      ensures !alloc ==> mem == old(mem) && free == old(free) && grown == old(grown)
      ensures t == 0 && alloc ==> free == []
      ensures |free| + grown == old(|free| + grown)
      ensures Elems(free) <= old(Elems(free))
    {
      hide Apart, Page, Leaf, Tree;
      t := root;
      RootThere(St());
      var level := 2;
      while level > 0
        invariant 0 <= level <= 2 && Valid() && t == Page(St(), Passed(v, level)) && t != 0
        invariant Pages() == old(Pages()) && old(mem.Keys) <= mem.Keys && SameMap(old(St()), St())
        invariant !alloc ==> mem == old(mem) && free == old(free) && grown == old(grown)
        invariant Elems(free) <= old(Elems(free)) && |free| + grown == old(|free| + grown)
      {
        t := Descend(t, Px(level, v), alloc, Passed(v, level - 1));
        if t == 0 {
          NoTable(St(), v, level - 1);
          return;
        }
        level := level - 1;
      }
    }

    /** mappages of n pages from page number v to pages from `page` on.  It fails
        only when memory for tables runs out, having mapped the first `done`. */
    method MapPages(v: int, n: int, page: int, perm: int) returns (r: int, ghost done: int)
      requires Valid() && 0 <= v && 0 < n && v + n <= VPNS && 0 <= perm < 1024
      requires forall w | v <= w < v + n :: !IsSet(Leaf(St(), w))
      modifies `free, `mem, `grown
      ensures Valid() && Pages() == old(Pages()) && old(mem.Keys) <= mem.Keys && Elems(free) <= old(Elems(free))
      ensures 0 <= done <= n && r == (if done == n then 0 else -1) && (r == -1 ==> free == [])
      ensures |free| + grown == old(|free| + grown)
      ensures forall w | IsVpn(w) :: Leaf(St(), w) ==
                if v <= w < v + done then (page + (w - v)) * 1024 + perm + (1 - perm % 2) else Leaf(old(St()), w)
    {
      hide Page, Leaf, Tree, Elems;
      var a := v;
      var pa := page;
      done := 0;
      ghost var s := St();
      while true
        invariant Valid() && Pages() == old(Pages()) && old(mem.Keys) <= mem.Keys && Elems(free) <= old(Elems(free))
        invariant a == v + done && pa == page + done && 0 <= done < n && |free| + grown == old(|free| + grown)
        invariant MappedTo(s, St(), v, done, page, perm)
        decreases n - done
      {
        ghost var before := St();
        var t := Walk(a, true);
        MappedWalk(s, before, St(), v, done, page, perm);
        if t == 0 {
          return -1, done;
        }
        ghost var u := St();
        SetLeafSpec(u, a, MakePte(pa, WithV(perm)));
        mem := mem[t := mem[t][a % 512 := MakePte(pa, WithV(perm))]];
        assert St() == SetLeaf(u, a, MakePte(pa, WithV(perm)));
        MappedOne(s, u, St(), v, done, page, perm);
        done := done + 1;
        if a == v + n - 1 {
          break;
        }
        a := a + 1;
        pa := pa + 1;
      }
      r := 0;
    }

    /** uvmunmap: the set entries of the range are cleared, nothing else changes;
        with doFree each page they named loses one reference, and a page that
        loses its last becomes free. */
    method Unmap(v: int, n: int, doFree: bool)
      requires Valid() && 0 <= v && 0 <= n && v + n <= VPNS
      requires doFree ==> Owned(St(), data, v, n)
      modifies `free, `mem, `data, `grown
      ensures Valid() && Pages() == old(Pages()) && mem.Keys == old(mem.Keys) && grown == old(grown)
      ensures forall w | IsVpn(w) :: Leaf(St(), w) == if v <= w < v + n && Leaf(old(St()), w) % 2 == 1 then 0 else Leaf(old(St()), w)
      ensures Cleared(old(St()), St(), v, n)
      ensures forall q :: Count(data, q) == Count(old(data), q) - (if doFree then Mentions(old(St()), v, v + n, q) else 0)
    {
      hide Page, Leaf, Tree, Mentions;
      ghost var s := St();
      ghost var k := 0;
      NoMentions(s, v);
      var a := v;
      while a < v + n
        invariant 0 <= k <= n && a == v + k && Valid() && Pages() == old(Pages()) && mem.Keys == old(mem.Keys) && grown == old(grown)
        invariant Cleared(s, St(), v, k)
        invariant forall q :: Count(data, q) == Count(old(data), q) - (if doFree then Mentions(s, v, a, q) else 0)
      {
        var t := Walk(a, false);
        ghost var u := St();
        if t != 0 {
          LeafThere(u, a);
        }
        if t != 0 && IsSet(mem[t][a % 512]) {
          if doFree {
            Mentioned(s, v, a, v + n);
            RefDec(PageOf(mem[t][a % 512]));
          }
          SetLeafSpec(u, a, 0);
          mem := mem[t := mem[t][a % 512 := 0]];
          assert St() == SetLeaf(u, a, 0);
        } else {
          NoLeaf(St(), a);
        }
        MentionsStep(s, v, a);
        a, k := a + 1, k + 1;
      }
    }

    /** ref_dec of a counted page. */
    method RefDec(q: int)
      requires Apart() && q in data
      modifies `free, `data
      ensures Apart() && Pages() == old(Pages()) && Elems(free) <= old(Elems(free)) + {q}
      ensures forall p :: Count(data, p) == Count(old(data), p) - (if p == q then 1 else 0)
    {
      if data[q] == 1 {
        PushFront(free, q);
        data := data - {q};
        free := [q] + free;
      } else {
        data := data[q := data[q] - 1];
      }
    }

    /** uvmdealloc; Up is PGROUNDUP in pages. */
    method UvmDealloc(oldsz: int, newsz: int) returns (r: int)
      requires Valid() && 0 <= newsz && 0 <= oldsz <= VPNS * PGSIZE
      requires newsz < oldsz ==> Owned(St(), data, Up(newsz), Up(oldsz) - Up(newsz))
      modifies `free, `mem, `data, `grown
      ensures Valid() && Pages() == old(Pages()) && mem.Keys == old(mem.Keys) && grown == old(grown)
      ensures r == (if newsz < oldsz then newsz else oldsz)
      ensures forall w | IsVpn(w) :: Leaf(St(), w) ==
                if newsz <= w * PGSIZE < oldsz && Leaf(old(St()), w) % 2 == 1 then 0 else Leaf(old(St()), w)
      ensures Cleared(old(St()), St(), Up(newsz), Up(oldsz) - Up(newsz))
      ensures forall q :: Count(data, q) == Count(old(data), q) - Mentions(old(St()), Up(newsz), Up(oldsz), q)
    {
      hide Leaf, Tree, Apart;
      ghost var s := St();
      if newsz >= oldsz {
        return oldsz;
      }
      if Up(newsz) < Up(oldsz) {
        Unmap(Up(newsz), Up(oldsz) - Up(newsz), true);
      }
      return newsz;
    }

    /** uvmalloc.  Success maps every page of the range to its own page that was
        free; failure leaves the same mappings and the same counts as before, and
        happens only if the pages asked for and the tables used up the memory. */
    method UvmAlloc(oldsz: int, newsz: int, xperm: int) returns (r: int)
      requires Valid() && 0 <= oldsz && 0 <= newsz <= VPNS * PGSIZE && xperm in {0, 4, 8, 12}
      requires forall w | IsVpn(w) && oldsz <= w * PGSIZE < newsz :: !IsSet(Leaf(St(), w))
      modifies `free, `mem, `data, `grown
      ensures Valid() && Pages() == old(Pages())
      ensures newsz >= oldsz && r == newsz ==> forall w | IsVpn(w) ::
                if oldsz <= w * PGSIZE < newsz then Leaf(St(), w) / 1024 in old(free) && Leaf(St(), w) % 1024 == 1 + 2 + 16 + xperm
                else Leaf(St(), w) == Leaf(old(St()), w)
      ensures newsz < oldsz ==> r == oldsz && St() == old(St()) && data == old(data)
      ensures newsz >= oldsz ==>
                || (r == newsz && Grown(old(St()), St(), old(data), data, old(free), Up(oldsz), Up(newsz), PTE_R + PTE_U + xperm + PTE_V))
                || (r == 0 && SameMappings(old(St()), St()) && SameCounts(old(data), data) &&
                    old(|free|) <= Up(newsz) - Up(oldsz) + grown - old(grown))
    {
      hide Leaf, Tree, Grown, Elems, Owned, Mentions, Apart;
      if newsz < oldsz {
        return oldsz;
      }
      ghost var s := St();
      ghost var flags := PTE_R + PTE_U + xperm + PTE_V;
      var lo := Up(oldsz);
      var a := lo;
      Positive();
      GrownStart(s, data, free, lo, flags);
      while a * PGSIZE < newsz
        invariant lo <= a && (lo < a ==> a <= Up(newsz)) && Valid() && Pages() == old(Pages())
        invariant Elems(free) <= old(Elems(free)) && |free| + grown + (a - lo) == old(|free| + grown)
        invariant Grown(s, St(), old(data), data, old(free), lo, a, flags)
      {
        assert a < Up(newsz);
        GrownRest(s, St(), old(data), data, old(free), lo, a, flags, a);
        var ok := GrowOne(a, PTE_R + PTE_U + xperm, s, old(data), old(free), lo);
        if !ok {
          GrownOwned(s, St(), old(data), data, old(free), lo, a, flags);
          ghost var t := St();
          ghost var counts := data;
          r := UvmDealloc(a * PGSIZE, lo * PGSIZE);
          Restored(s, t, St(), old(data), counts, data, old(free), lo, a, flags);
          return 0;
        }
        a := a + 1;
      }
      forall w | IsVpn(w) ensures
          if oldsz <= w * PGSIZE < newsz then Leaf(St(), w) / 1024 in old(free) && Leaf(St(), w) % 1024 == 19 + xperm
          else Leaf(St(), w) == Leaf(s, w)
      {
        GrownAt(s, St(), old(data), data, old(free), lo, a, flags, w);
      }
      return newsz;
    }

    lemma Positive()
      requires Apart()
      ensures forall q | q in data :: data[q] > 0
    {
    }

    /** One page of uvmalloc's loop. */
    method GrowOne(a: int, perm: int, ghost s: Pt, ghost counts: map<int, int>, ghost pool: seq<int>, ghost lo: int) returns (ok: bool)
      requires Valid() && 0 <= lo <= a < VPNS && 0 <= perm < 1023 && perm % 2 == 0 && !IsSet(Leaf(St(), a))
      requires Elems(free) <= Elems(pool) && Grown(s, St(), counts, data, pool, lo, a, perm + 1)
      modifies `free, `mem, `data, `grown
      ensures Valid() && Pages() == old(Pages()) && Elems(free) <= Elems(pool)
      ensures Grown(s, St(), counts, data, pool, lo, if ok then a + 1 else a, perm + 1)
      ensures if ok then |free| + grown + 1 == old(|free| + grown) else old(|free| + grown) <= 1 + grown
    {
      hide Leaf, Tree, Grown;
      if free == [] {
        return false;
      }
      var q := free[0];
      PopFront(free);
      ghost var t := St();
      ghost var was := data;
      free := free[1..];
      data := data[q := 1];
      assert Valid() && Pages() == old(Pages());
      ghost var rest := free;
      var r, done := MapPages(a, 1, q, perm);
      ghost var u := St();
      if r != 0 {
        RefDec(q);
        GrownSame(s, t, u, counts, was, data, pool, lo, a, perm + 1);
        return false;
      }
      GrownMore(s, t, u, counts, was, pool, lo, a, perm + 1, q);
      return true;
    }

    /** freewalk of the table at position x of tree s, none of whose leaf entries
        is set: every table page below it, and no other page, becomes free. */
    method FreeWalk(table: int, ghost s: Pt, ghost x: Pos)
      requires Tree(s) && There(s, x) && table == Page(s, x)
      requires forall w | IsVpn(w) :: !IsSet(Leaf(s, w))
      requires Apart() && forall y | There(s, y) && Under(y, x) :: Intact(s, mem, y)
      modifies `free, `mem
      ensures Apart() && mem == old(mem) - Below(s, x)
      ensures Elems(free) == old(Elems(free)) + Below(s, x) && |free| == old(|free|) + |Below(s, x)|
      decreases 2 - Depth(x)
    {
      hide Page, Leaf, Tree, Below, Done, Freed, Intact, Under, Elems;
      var i := 0;
      FreedStart(s, x, mem, free);
      while i < ENTRIES
        invariant 0 <= i <= ENTRIES && Apart() && Freed(s, x, i, old(mem), old(free), mem, free)
      {
        FreedHas(s, x, i, old(mem), old(free), mem, free);
        var pte := mem[table][i];
        EntryKinds(s, x, i);
        if IsPointer(pte) {
          ghost var mid, pool := mem, free;
          IntactChild(s, x, i, old(mem), old(free), mem, free);
          FreeWalk(PageOf(pte), s, Child(x, i));
          DoneStep(s, x, i);
          mem := mem[table := mem[table][i := 0]];
          FreedChild(s, x, i, old(mem), old(free), mid, pool, mem, free);
        } else {
          assert !IsSet(pte);  // no panic
          FreedSkip(s, x, i, old(mem), old(free), mem, free);
        }
        i := i + 1;
      }
      FreedEnd(s, x, old(mem), old(free), mem, free);
      mem := mem - {table};
      free := [table] + free;
    }

    /** uvmfree, for a table with nothing mapped above sz: all its tables are
        free again, and every page it mapped has lost one reference. */
    method UvmFree(sz: int)
      requires Valid() && 0 <= sz <= VPNS * PGSIZE && Owned(St(), data, 0, Up(sz))
      requires forall w | IsVpn(w) && sz <= w * PGSIZE :: !IsSet(Leaf(St(), w))
      modifies `free, `mem, `data, `grown
      ensures Apart() && mem == map[] && Pages() == old(Pages()) && old(mem.Keys) <= Elems(free)
      ensures forall q :: Count(data, q) == Count(old(data), q) - Mentions(old(St()), 0, Up(sz), q)
    {
      hide Leaf, Tree, Mentions, Owned, Page, Elems, Below, Apart, Intact, Cleared, Count, Under, Up;
      ghost var s := St();
      UpRange(sz);
      if sz > 0 {
        Unmap(0, Up(sz), true);
        AllClear(s, St(), Up(sz));
      } else {
        UpNone(s);
      }
      FreeTables();
    }

    method FreeTables()
      requires Valid() && forall w | IsVpn(w) :: !IsSet(Leaf(St(), w))
      modifies `free, `mem
      ensures Apart() && mem == map[] && Elems(free) == old(Elems(free)) + old(mem.Keys)
    {
      hide Leaf, Tree, Page, Elems, Below, Apart, Intact;
      RootThere(St());
      WholeTree(St());
      FreeWalk(root, St(), Root);
    }
  }

  /** The first `done` of the range are mapped, the rest is as it was. */
  ghost predicate MappedTo(s: Pt, t: Pt, v: int, done: int, page: int, perm: int) {
    forall w | IsVpn(w) :: Leaf(t, w) == if v <= w < v + done then MakePte(page + (w - v), WithV(perm)) else Leaf(s, w)
  }

  lemma MappedWalk(s: Pt, t: Pt, u: Pt, v: int, done: int, page: int, perm: int)
    requires MappedTo(s, t, v, done, page, perm) && SameMap(t, u)
    ensures MappedTo(s, u, v, done, page, perm)
  {
  }

  lemma MappedOne(s: Pt, t: Pt, u: Pt, v: int, done: int, page: int, perm: int)
    requires MappedTo(s, t, v, done, page, perm) && IsVpn(v + done) && 0 <= done
    requires forall w | IsVpn(w) :: Leaf(u, w) == if w == v + done then MakePte(page + done, WithV(perm)) else Leaf(t, w)
    ensures MappedTo(s, u, v, done + 1, page, perm)
  {
  }

  ghost predicate Cleared(s: Pt, t: Pt, v: int, n: int) {
    forall w | IsVpn(w) :: Leaf(t, w) == if v <= w < v + n && IsSet(Leaf(s, w)) then 0 else Leaf(s, w)
  }

  /** The number of entries of the range that map page q. */
  ghost function Mentions(s: Pt, lo: int, hi: int, q: int): nat
    decreases hi - lo
  {
    if hi <= lo then 0 else Mentions(s, lo, hi - 1, q) + (if Maps(s, hi - 1, q) then 1 else 0)
  }

  predicate Maps(s: Pt, w: int, q: int) {
    IsVpn(w) && IsSet(Leaf(s, w)) && PageOf(Leaf(s, w)) == q
  }

  /** Every mapping of the range is counted. */
  ghost predicate Owned(s: Pt, data: map<int, int>, v: int, n: int) {
    forall q :: Mentions(s, v, v + n, q) <= Count(data, q)
  }

  lemma NoMentions(s: Pt, v: int)
    ensures forall q :: Mentions(s, v, v, q) == 0
  {
  }

  lemma MentionsStep(s: Pt, v: int, a: int)
    requires v <= a
    ensures forall q :: Mentions(s, v, a + 1, q) == Mentions(s, v, a, q) + (if Maps(s, a, q) then 1 else 0)
  {
  }

  lemma {:induction false} MentionsMono(s: Pt, v: int, a: int, hi: int, q: int)
    requires v <= a <= hi
    ensures Mentions(s, v, a, q) <= Mentions(s, v, hi, q)
    decreases hi - a
  {
    if a < hi {
      MentionsMono(s, v, a + 1, hi, q);
    }
  }

  /** An entry of the range is not among those before it. */
  lemma Mentioned(s: Pt, v: int, a: int, hi: int)
    requires v <= a < hi && IsVpn(a) && IsSet(Leaf(s, a))
    ensures Mentions(s, v, a, PageOf(Leaf(s, a))) < Mentions(s, v, hi, PageOf(Leaf(s, a)))
  {
    MentionsMono(s, v, a + 1, hi, PageOf(Leaf(s, a)));
  }

  lemma {:induction false} MentionsSame(s: Pt, t: Pt, lo: int, hi: int, q: int)
    requires forall w | lo <= w < hi && IsVpn(w) :: Leaf(s, w) == Leaf(t, w)
    ensures Mentions(s, lo, hi, q) == Mentions(t, lo, hi, q)
    decreases hi - lo
  {
    hide Leaf;
    if lo < hi {
      MentionsSame(s, t, lo, hi - 1, q);
    }
  }

  /** PGROUNDUP in pages: the first page boundary not below sz. */
  function Up(sz: int): (u: int)
    ensures sz <= u * PGSIZE < sz + PGSIZE
  {
    (sz + PGSIZE - 1) / PGSIZE
  }

  ghost predicate SameMappings(s: Pt, t: Pt) {
    forall w | IsVpn(w) :: IsSet(Leaf(s, w)) || IsSet(Leaf(t, w)) ==> Leaf(t, w) == Leaf(s, w)
  }

  ghost predicate SameCounts(x: map<int, int>, y: map<int, int>) {
    forall q :: Count(y, q) == Count(x, q)
  }

  /** Pages lo to hi are mapped with `flags`, each to its own page from `pool`
      with one reference more than it had; other entries and counts are as in s. */
  ghost predicate Grown(s: Pt, t: Pt, was: map<int, int>, now: map<int, int>, pool: seq<int>, lo: int, hi: int, flags: int) {
    && (forall w | IsVpn(w) && !(lo <= w < hi) :: Leaf(t, w) == Leaf(s, w))
    && (forall w | lo <= w < hi && IsVpn(w) :: GrownEntry(Leaf(t, w), now, pool, flags))
    && (forall w, x | lo <= w < x < hi && IsVpn(w) && IsVpn(x) :: PageOf(Leaf(t, w)) != PageOf(Leaf(t, x)))
    && (forall q :: Count(now, q) == Count(was, q) + Mentions(t, lo, hi, q))
  }

  predicate GrownEntry(pte: int, now: map<int, int>, pool: seq<int>, flags: int) {
    var q := PageOf(pte);
    pte == MakePte(q, flags) && IsSet(pte) && q in Elems(pool) && q in now
  }

  lemma GrownStart(s: Pt, data: map<int, int>, pool: seq<int>, lo: int, flags: int)
    ensures Grown(s, s, data, data, pool, lo, lo, flags)
  {
  }

  lemma GrownRest(s: Pt, t: Pt, was: map<int, int>, now: map<int, int>, pool: seq<int>, lo: int, a: int, flags: int, w: int)
    requires Grown(s, t, was, now, pool, lo, a, flags) && IsVpn(w) && w >= a
    ensures Leaf(t, w) == Leaf(s, w)
  {
  }

  /** A mapped page in the bits of its entry. */
  lemma GrownAt(s: Pt, t: Pt, was: map<int, int>, now: map<int, int>, pool: seq<int>, lo: int, hi: int, flags: int, w: int)
    requires Grown(s, t, was, now, pool, lo, hi, flags) && IsVpn(w) && 0 <= flags < 1024
    ensures if lo <= w < hi then Leaf(t, w) / 1024 in pool && Leaf(t, w) % 1024 == flags else Leaf(t, w) == Leaf(s, w)
  {
    hide Leaf;
    if lo <= w < hi {
      assert GrownEntry(Leaf(t, w), now, pool, flags);
      PteParts(PageOf(Leaf(t, w)), flags);
    }
  }

  lemma GrownOwned(s: Pt, t: Pt, was: map<int, int>, now: map<int, int>, pool: seq<int>, lo: int, a: int, flags: int)
    requires Grown(s, t, was, now, pool, lo, a, flags) && forall q | q in was :: was[q] > 0
    ensures Owned(t, now, lo, a - lo)
  {
    hide Mentions, Leaf;
  }

  lemma GrownSame(s: Pt, t: Pt, u: Pt, was: map<int, int>, now: map<int, int>, now': map<int, int>, pool: seq<int>, lo: int, a: int, flags: int)
    requires Grown(s, t, was, now, pool, lo, a, flags) && SameMap(t, u) && SameCounts(now, now')
    requires forall q | q in now' :: now'[q] > 0
    requires forall q | q in now :: now[q] > 0
    ensures Grown(s, u, was, now', pool, lo, a, flags)
  {
    hide Leaf;
    forall w | lo <= w < a && IsVpn(w) ensures GrownEntry(Leaf(u, w), now', pool, flags) {
      assert GrownEntry(Leaf(t, w), now, pool, flags);
      assert Count(now', PageOf(Leaf(t, w))) > 0;
    }
    forall q ensures Mentions(u, lo, a, q) == Mentions(t, lo, a, q) {
      MentionsSame(u, t, lo, a, q);
    }
  }

  lemma GrownMore(s: Pt, t: Pt, u: Pt, was: map<int, int>, now: map<int, int>, pool: seq<int>, lo: int, a: int, flags: int, q: int)
    requires Grown(s, t, was, now, pool, lo, a, flags) && 0 <= lo <= a && IsVpn(a) && 0 <= flags < 1024 && flags % 2 == 1
    requires q !in now && q in Elems(pool) && MappedTo(t, u, a, 1, q, flags)
    ensures Grown(s, u, was, now[q := 1], pool, lo, a + 1, flags)
  {
    hide Leaf;
    var later, hi := now[q := 1], a + 1;
    PteParts(q, flags);
    forall w | lo <= w < a + 1 && IsVpn(w) ensures GrownEntry(Leaf(u, w), later, pool, flags) {
      if w < a {
        assert GrownEntry(Leaf(t, w), now, pool, flags);
      }
    }
    forall w | lo <= w < a && IsVpn(w) ensures PageOf(Leaf(u, w)) != q {
      assert GrownEntry(Leaf(t, w), now, pool, flags);
    }
    MentionsStep(u, lo, a);
    forall p ensures Mentions(u, lo, a, p) == Mentions(t, lo, a, p) {
      MentionsSame(u, t, lo, a, p);
    }
  }

  lemma Restored(s: Pt, t: Pt, u: Pt, was: map<int, int>, now: map<int, int>, last: map<int, int>, pool: seq<int>, lo: int, a: int, flags: int)
    requires Grown(s, t, was, now, pool, lo, a, flags) && Cleared(t, u, lo, a - lo)
    requires forall w | lo <= w < a && IsVpn(w) :: !IsSet(Leaf(s, w))
    requires forall q :: Count(last, q) == Count(now, q) - Mentions(t, lo, a, q)
    ensures SameMappings(s, u) && SameCounts(was, last)
  {
  }

  lemma LeafThere(s: Pt, v: int)
    requires Tree(s) && IsVpn(v) && Page(s, LowOf(v)) != 0
    ensures There(s, LowOf(v)) && Page(s, LowOf(v)) in s.mem && Leaf(s, v) == s.mem[Page(s, LowOf(v))][v % 512]
  {
    hide Page;
  }

  lemma NoLeaf(s: Pt, v: int)
    requires Tree(s) && IsVpn(v) && (Page(s, LowOf(v)) != 0 ==> Page(s, LowOf(v)) in s.mem && !IsSet(s.mem[Page(s, LowOf(v))][v % 512]))
    ensures !IsSet(Leaf(s, v))
  {
  }

  /** PX(level, va) of kernel/riscv.h for va of page number v. */
  function Px(level: int, v: int): int {
    if level == 2 then v / 262144 % 512 else if level == 1 then v / 512 % 512 else v % 512
  }

  /** The table walk reaches before looking at `level`. */
  function Passed(v: int, level: int): (x: Pos)
    requires IsVpn(v) && 0 <= level <= 2
    ensures IsPos(x) && Reached(x) && (level < 2 ==> !x.Root? && Above(x) == Passed(v, level + 1) && Index(x) == Px(level + 1, v))
    decreases 2 - level
  {
    if level == 2 then Root else if level == 1 then Mid(v / 262144) else LowOf(v)
  }

  lemma NoTable(s: Pt, v: int, level: int)
    requires Tree(s) && IsVpn(v) && 0 <= level < 2 && Page(s, Passed(v, level)) == 0
    ensures Page(s, LowOf(v)) == 0
  {
  }

  lemma RootThere(s: Pt)
    requires Tree(s)
    ensures There(s, Root) && Page(s, Root) == s.root
  {
  }

  // ---- The tables below a position ----

  predicate Under(y: Pos, x: Pos) {
    y == x || x.Root? || (x.Mid? && y.Low? && y.i == x.i)
  }

  /** The table at y is still as in tree s. */
  predicate Intact(s: Pt, mem: map<int, Table>, y: Pos) {
    IsPos(y) && Page(s, y) in mem && Page(s, y) in s.mem && mem[Page(s, y)] == s.mem[Page(s, y)]
  }

  predicate HasChild(x: Pos, i: int) {
    IsIndex(i) && !x.Low?
  }

  function Child(x: Pos, i: int): (y: Pos)
    requires HasChild(x, i)
    ensures !y.Root? && Above(y) == x && Index(y) == i && (IsPos(x) ==> IsPos(y))
  {
    if x.Root? then Mid(i) else Low(x.i, i)
  }

  ghost predicate IsBelow(s: Pt, x: Pos, q: int) {
    exists y :: There(s, y) && Under(y, x) && Page(s, y) == q
  }

  ghost function Below(s: Pt, x: Pos): set<int> {
    set q | q in s.mem && IsBelow(s, x, q)
  }

  /** The tables below the first i entries of the table at x. */
  ghost function Done(s: Pt, x: Pos, i: int): set<int>
    decreases i
  {
    if i <= 0 then {} else Done(s, x, i - 1) + (if HasChild(x, i - 1) then Below(s, Child(x, i - 1)) else {})
  }

  lemma BelowHas(s: Pt, x: Pos, y: Pos, q: int)
    requires Tree(s) && There(s, y) && Under(y, x) && q == Page(s, y)
    ensures q in Below(s, x) && q in s.mem
  {
  }

  /** What freewalk can meet in a table: a pointer to the table at the child
      position, or an entry that is not set and no such table. */
  lemma EntryKinds(s: Pt, x: Pos, i: int)
    requires Tree(s) && There(s, x) && IsIndex(i) && Page(s, x) in s.mem
    requires forall w | IsVpn(w) :: !IsSet(Leaf(s, w))
    ensures var pte := s.mem[Page(s, x)][i];
            if HasChild(x, i) && There(s, Child(x, i)) then IsPointer(pte) && PageOf(pte) == Page(s, Child(x, i)) else !IsSet(pte)
  {
    if x.Low? {
      LowEntry(s, x, i);
    } else {
      assert Plain(s.mem[Page(s, x)][i]);
    }
  }

  lemma LowEntry(s: Pt, x: Pos, k: int)
    requires Tree(s) && There(s, x) && x.Low? && IsIndex(k) && Page(s, x) in s.mem
    requires forall w | IsVpn(w) :: !IsSet(Leaf(s, w))
    ensures !IsSet(s.mem[Page(s, x)][k])
  {
    hide Page;
    var v := x.i * 262144 + x.j * 512 + k;
    assert v / 512 == x.i * 512 + x.j && v % 512 == k;
    assert v / 262144 == x.i && v / 512 % 512 == x.j;
    assert LowOf(v) == x && !IsSet(Leaf(s, v));
  }

  lemma {:induction false} DoneHas(s: Pt, x: Pos, i: int, q: int)
    ensures q in Done(s, x, i) <==> exists k :: 0 <= k < i && HasChild(x, k) && q in Below(s, Child(x, k))
    decreases i
  {
    hide Below;
    if i > 0 {
      DoneHas(s, x, i - 1, q);
    }
  }

  /** A table below the i-th child is below no earlier child and not at x. */
  lemma UnderChild(s: Pt, x: Pos, i: int, y: Pos)
    requires Tree(s) && There(s, x) && HasChild(x, i) && There(s, y) && Under(y, Child(x, i))
    ensures Under(y, x) && Page(s, y) != Page(s, x) && Page(s, y) !in Done(s, x, i)
  {
    hide Page, Done;
    DoneHas(s, x, i, Page(s, y));
    forall k | 0 <= k < i ensures Page(s, y) !in Below(s, Child(x, k)) {
      assert !Under(y, Child(x, k));
    }
  }

  /** freewalk before entry i of the table at x. */
  ghost predicate Freed(s: Pt, x: Pos, i: int, mem0: map<int, Table>, free0: seq<int>, mem: map<int, Table>, free: seq<int>) {
    && IsPos(x) && 0 <= i <= ENTRIES && Page(s, x) in mem && Page(s, x) in s.mem
    && mem - {Page(s, x)} == mem0 - Done(s, x, i) - {Page(s, x)}
    && (forall k | i <= k < ENTRIES :: mem[Page(s, x)][k] == s.mem[Page(s, x)][k])
    && Elems(free) == Elems(free0) + Done(s, x, i) && |free| == |free0| + |Done(s, x, i)|
  }

  lemma FreedStart(s: Pt, x: Pos, mem: map<int, Table>, free: seq<int>)
    requires Tree(s) && There(s, x) && forall y | There(s, y) && Under(y, x) :: Intact(s, mem, y)
    ensures Freed(s, x, 0, mem, free, mem, free)
  {
  }

  lemma FreedHas(s: Pt, x: Pos, i: int, mem0: map<int, Table>, free0: seq<int>, mem: map<int, Table>, free: seq<int>)
    requires Freed(s, x, i, mem0, free0, mem, free) && i < ENTRIES
    ensures Page(s, x) in mem && Page(s, x) in s.mem && mem[Page(s, x)][i] == s.mem[Page(s, x)][i]
  {
  }

  lemma FreedSkip(s: Pt, x: Pos, i: int, mem0: map<int, Table>, free0: seq<int>, mem: map<int, Table>, free: seq<int>)
    requires Freed(s, x, i, mem0, free0, mem, free) && i < ENTRIES && Tree(s) && There(s, x)
    requires !(HasChild(x, i) && There(s, Child(x, i)))
    ensures Freed(s, x, i + 1, mem0, free0, mem, free)
  {
    hide Page, Elems, Done;
    DoneStep(s, x, i);
  }

  lemma FreedChild(s: Pt, x: Pos, i: int, mem0: map<int, Table>, free0: seq<int>, mid: map<int, Table>, pool: seq<int>, mem: map<int, Table>, free: seq<int>)
    requires Freed(s, x, i, mem0, free0, mid, pool) && i < ENTRIES && Tree(s) && There(s, x) && HasChild(x, i) && There(s, Child(x, i))
    requires Page(s, x) in mem && mem == (mid - Below(s, Child(x, i)))[Page(s, x) := mid[Page(s, x)][i := 0]]
    requires Elems(free) == Elems(pool) + Below(s, Child(x, i)) && |free| == |pool| + |Below(s, Child(x, i))|
    ensures Freed(s, x, i + 1, mem0, free0, mem, free)
  {
    hide Page, Elems, Done, Below;
    DoneStep(s, x, i);
    var t, more := Page(s, x), Below(s, Child(x, i));
    assert mem - {t} == (mid - {t}) - more;
  }

  lemma FreedEnd(s: Pt, x: Pos, mem0: map<int, Table>, free0: seq<int>, mem: map<int, Table>, free: seq<int>)
    requires Freed(s, x, ENTRIES, mem0, free0, mem, free) && Tree(s) && There(s, x) && Distinct(free) && Elems(free) !! mem.Keys
    ensures Page(s, x) in mem && Page(s, x) != 0 && mem - {Page(s, x)} == mem0 - Below(s, x)
    ensures var all := [Page(s, x)] + free;
            Distinct(all) && Elems(all) == Elems(free) + {Page(s, x)} && Elems(all) == Elems(free0) + Below(s, x) && |all| == |free0| + |Below(s, x)|
  {
    hide Page, Elems, Done, Below;
    BelowParts(s, x);
    PushFront(free, Page(s, x));
  }

  lemma IntactChild(s: Pt, x: Pos, i: int, mem0: map<int, Table>, free0: seq<int>, mem: map<int, Table>, free: seq<int>)
    requires Tree(s) && There(s, x) && HasChild(x, i) && forall y | There(s, y) && Under(y, x) :: Intact(s, mem0, y)
    requires Freed(s, x, i, mem0, free0, mem, free)
    ensures forall y | There(s, y) && Under(y, Child(x, i)) :: Intact(s, mem, y)
  {
    hide Page, Done, Below, Elems;
    forall y | There(s, y) && Under(y, Child(x, i)) ensures Intact(s, mem, y) {
      BelowHas(s, Child(x, i), y, Page(s, y));
      UnderChild(s, x, i, y);
      assert Intact(s, mem0, y) && Page(s, y) in mem - {Page(s, x)};
    }
  }

  lemma DoneStep(s: Pt, x: Pos, i: int)
    requires Tree(s) && There(s, x) && IsIndex(i)
    ensures if HasChild(x, i) && There(s, Child(x, i))
            then Done(s, x, i + 1) == Done(s, x, i) + Below(s, Child(x, i)) && Done(s, x, i) !! Below(s, Child(x, i)) &&
                 Page(s, x) !in Below(s, Child(x, i)) && |Done(s, x, i + 1)| == |Done(s, x, i)| + |Below(s, Child(x, i))|
            else Done(s, x, i + 1) == Done(s, x, i)
  {
    hide Page;
    if HasChild(x, i) {
      var c := Child(x, i);
      if There(s, c) {
        forall q | q in Below(s, c) ensures q !in Done(s, x, i) && q != Page(s, x) {
          var y :| There(s, y) && Under(y, c) && Page(s, y) == q;
          UnderChild(s, x, i, y);
        }
      } else {
        NothingBelow(s, c);
      }
    }
  }

  lemma NothingBelow(s: Pt, x: Pos)
    requires IsPos(x) && !x.Root? && 0 !in s.mem && Page(s, x) == 0
    ensures Below(s, x) == {}
  {
  }

  lemma BelowParts(s: Pt, x: Pos)
    requires Tree(s) && There(s, x)
    ensures Below(s, x) == Done(s, x, ENTRIES) + {Page(s, x)} && Page(s, x) !in Done(s, x, ENTRIES)
  {
    hide Page, Done, Below;
    forall q | q in Below(s, x) ensures q == Page(s, x) || q in Done(s, x, ENTRIES) {
      DoneHas(s, x, ENTRIES, q);
      if q != Page(s, x) {
        InChild(s, x, q);
      }
    }
    forall q | q in Done(s, x, ENTRIES) ensures q in Below(s, x) && q != Page(s, x) {
      DoneHas(s, x, ENTRIES, q);
      var k :| 0 <= k < ENTRIES && HasChild(x, k) && q in Below(s, Child(x, k));
      ChildBelow(s, x, k, q);
    }
    BelowHas(s, x, x, Page(s, x));
  }

  /** The tables below the root are all there are. */
  lemma WholeTree(s: Pt)
    requires Tree(s)
    ensures Below(s, Root) == s.mem.Keys && forall y | There(s, y) && Under(y, Root) :: Intact(s, s.mem, y)
  {
  }

  lemma AllClear(s: Pt, t: Pt, n: int)
    requires Cleared(s, t, 0, n) && forall w | IsVpn(w) && n <= w :: !IsSet(Leaf(s, w))
    ensures forall w | IsVpn(w) :: !IsSet(Leaf(t, w))
  {
  }

  lemma UpRange(sz: int)
    requires 0 <= sz <= VPNS * PGSIZE
    ensures 0 <= Up(sz) <= VPNS
  {
  }

  lemma UpNone(s: Pt)
    ensures Up(0) == 0 && forall q :: Mentions(s, 0, 0, q) == 0
  {
  }

  lemma InChild(s: Pt, x: Pos, q: int)
    requires Tree(s) && There(s, x) && q in Below(s, x) && q != Page(s, x)
    ensures exists k :: 0 <= k < ENTRIES && HasChild(x, k) && q in Below(s, Child(x, k))
  {
    hide Page;
    var y :| There(s, y) && Under(y, x) && Page(s, y) == q;
    var k := if x.Root? then y.i else y.j;
    assert HasChild(x, k) && Under(y, Child(x, k));
  }

  lemma ChildBelow(s: Pt, x: Pos, k: int, q: int)
    requires Tree(s) && There(s, x) && HasChild(x, k) && q in Below(s, Child(x, k))
    ensures q in Below(s, x) && q != Page(s, x)
  {
  }
}
