/** user/umalloc.c as code: malloc, free and morecore over headers in memory.

    Memory is counted in units of one 16-byte header, so `Header *` arithmetic is
    integer arithmetic; 0 is the null pointer.  `base` is the static header, which
    lies below the heap. */
module Umalloc {
  import opened FreeList

  const HEADER := 16

  /** The node of the circular list at index i: base, then the free blocks. */
  function Node(base: int, fl: seq<Block>, i: int): int {
    if 1 <= i <= |fl| then fl[i - 1].addr else base
  }

  function NodeSize(fl: seq<Block>, i: int): int {
    if 1 <= i <= |fl| then fl[i - 1].n else 0
  }

  predicate Link(ptr: map<int, int>, size: map<int, int>, base: int, fl: seq<Block>, i: int) {
    var a := Node(base, fl, i);
    a in ptr && a in size && ptr[a] == Node(base, fl, i + 1) && size[a] == NodeSize(fl, i)
  }

  /** The headers in memory form the circular list of base and the free blocks. */
  ghost predicate Rep(ptr: map<int, int>, size: map<int, int>, base: int, fl: seq<Block>) {
    && (forall i | 0 <= i < |fl| :: base < fl[i].addr)
    && (forall i | 0 <= i <= |fl| :: Link(ptr, size, base, fl, i))
  }

  ghost predicate InLive(live: map<int, int>, u: int) {
    exists a :: a in live && In(Block(a, live[a]), u)
  }

  /** Every unit obtained from sbrk is in exactly one of: the free list, the live
      blocks, the block b. */
  ghost predicate Parted(fl: seq<Block>, live: map<int, int>, owned: set<int>, b: Block) {
    && (forall u :: u in owned <==> Has(fl, u) || InLive(live, u) || In(b, u))
    && (forall u | Has(fl, u) :: !InLive(live, u) && !In(b, u))
    && (forall u | InLive(live, u) :: !In(b, u))
    && (forall a, c, u | a in live && c in live && In(Block(a, live[a]), u) && In(Block(c, live[c]), u) :: a == c)
  }

  /** Units for nbytes of payload and the header, as malloc computes them. */
  function UnitsFor(nbytes: int): (u: int)
    ensures nbytes <= (u - 1) * 16 < nbytes + 16
  {
    (nbytes + HEADER - 1) / HEADER + 1
  }

  lemma UnitsEnough(nbytes: int)
    requires 0 <= nbytes
    ensures UnitsFor(nbytes) > 0 && nbytes <= (UnitsFor(nbytes) - 1) * 16 < nbytes + 16
    ensures UnitsFor(nbytes) < MAX_UNITS <==> nbytes <= 0x8000_0000 - 2 * HEADER
  {
  }

  /** morecore passes a product of unsigned numbers to sbrk, which takes an int. */
  function SbrkArg(nu: int): int {
    var x := nu * HEADER % 0x1_0000_0000;
    if x >= 0x8000_0000 then x - 0x1_0000_0000 else x
  }

  const MAX_UNITS := 0x800_0000

  /** sbrk is asked for the units morecore records exactly up to this size; the
      largest malloc request gets one unit instead of 2^28 + 1. */
  lemma SbrkExact(nu: int)
    requires 0 < nu <= UnitsFor(0xffff_ffff)
    ensures SbrkArg(nu) == nu * HEADER <==> nu < MAX_UNITS
    ensures SbrkArg(UnitsFor(0xffff_ffff)) == HEADER
  {
  }

  /** What happens otherwise: sbrk moves the break by its wrapped argument and returns
      the old one, morecore frees nu units there, and malloc hands out exactly those,
      which reach beyond the new break. */
  lemma Overdrawn(fl: seq<Block>, top: int, nu: int)
    requires Sorted(fl) && (forall i | 0 <= i < |fl| :: fl[i].addr + fl[i].n <= top && fl[i].n < nu)
    requires MAX_UNITS <= nu <= UnitsFor(0xffff_ffff)
    ensures top + SbrkArg(nu) / HEADER < top + nu
    ensures var more := Insert(fl, |fl|, Block(top, nu));
            exists i :: 0 <= i < |more| && (forall j | 0 <= j < |more| && j != i :: more[j].n < nu <= more[i].n) && Carved(more, i, nu) == Block(top, nu)
  {
    var b := Block(top, nu);
    var more, i := Insert(fl, |fl|, b), First(fl, |fl|, b);
    forall j | 0 <= j < |more| ensures if j == i then more[j] == Merged(fl, |fl|, b) else more[j].n < nu {
      InsertAt(fl, |fl|, b, j);
    }
    assert more[i].n >= nu && Carved(more, i, nu) == b;
  }

  /** After malloc(0xffffffff) a live block of 2^28 + 1 units stands on one unit of memory. */
  lemma HugeMalloc(fl: seq<Block>, top: int)
    requires Sorted(fl) && forall i | 0 <= i < |fl| :: fl[i].addr + fl[i].n <= top && fl[i].n < UnitsFor(0xffff_ffff)
    ensures var nu := UnitsFor(0xffff_ffff);
            && nu == 0x1000_0001 && SbrkArg(nu) / HEADER == 1
            && exists i :: 0 <= i < |Insert(fl, |fl|, Block(top, nu))| && Carved(Insert(fl, |fl|, Block(top, nu)), i, nu) == Block(top, nu)
  {
    Overdrawn(fl, top, UnitsFor(0xffff_ffff));
  }

  /** The last n units of block i are taken, the first of them the header before r. */
  predicate CutFrom(fl: seq<Block>, rest: seq<Block>, i: int, r: int, n: int) {
    && 0 <= i < |fl| && fl[i].n >= n && r - 1 == fl[i].addr + fl[i].n - n
    && rest == if fl[i].n == n then fl[..i] + fl[i + 1..] else fl[i := Block(fl[i].addr, fl[i].n - n)]
  }

  const NOTHING := Block(0, 0)

  ghost function Pos(fl: seq<Block>, bp: int): (k: int)
    requires Sorted(fl)
    ensures 0 <= k <= |fl|
    ensures forall i | 0 <= i < k :: fl[i].addr < bp
    ensures forall i | k <= i < |fl| :: fl[i].addr >= bp
  {
    if fl == [] then 0
    else
      var n := |fl| - 1;
      if fl[n].addr < bp then
        assert forall i | 0 <= i < n :: Before(fl[i], fl[n]);
        |fl|
      else Pos(fl[..n], bp)
  }

  class Heap {
    const base: int
    const limit: int
    var ptr: map<int, int>
    var size: map<int, int>
    var freep: int
    var top: int

    ghost var fl: seq<Block>
    ghost var spot: int
    ghost var live: map<int, int>
    ghost var owned: set<int>

    /** All but the partition. */
    ghost predicate Shaped()
      reads this
    {
      && 0 < base < top
      && Sorted(fl) && (forall i | 0 <= i < |fl| :: base < fl[i].addr && fl[i].addr + fl[i].n <= top)
      && (freep == 0 ==> fl == [] && live == map[])
      && (freep != 0 ==> Rep(ptr, size, base, fl) && 0 <= spot <= |fl| && freep == Node(base, fl, spot))
      && (forall a | a in live :: live[a] > 0 && base < a && a + live[a] <= top && a in size && size[a] == live[a])
      && (forall u | u in owned :: base < u < top)
    }

    ghost predicate Valid()
      reads this
    {
      Shaped() && Parted(fl, live, owned, NOTHING)
    }

    constructor (base: int, top: int, limit: int)
      requires 0 < base < top
      ensures Valid() && live == map[] && owned == {}
    {
      this.base, this.top, this.limit := base, top, limit;
      ptr, size, freep := map[], map[], 0;
      fl, spot, live, owned := [], 0, map[], {};
    }

    /** The search of free: the node after which bp belongs.  It ends because the
        distance to that node shrinks around the circle. */
    method Search(bp: int) returns (p: int, ghost k: int)
      requires Shaped() && freep != 0 && base < bp && !Has(fl, bp)
      ensures k == Pos(fl, bp) && p == Node(base, fl, k)
    {
      k := Pos(fl, bp);
      p := freep;
      ghost var j := spot;
      assert Link(ptr, size, base, fl, j);
      NotAtNode(fl, bp);
      while !(bp > p && bp < ptr[p])
        invariant 0 <= j <= |fl| && p == Node(base, fl, j) && Link(ptr, size, base, fl, j)
        decreases if j <= k then k - j else |fl| + 1 - j + k
      {
        Around(base, fl, j, k);
        if p >= ptr[p] && (bp > p || bp < ptr[p]) {
          break;
        }
        j := if j == |fl| then 0 else j + 1;
        p := ptr[p];
        assert Link(ptr, size, base, fl, j);
      }
      Around(base, fl, j, k);
    }

    /** free of a block that is in no list: it joins its neighbours. */
    method FreeBlock(bp: int, ghost b: Block)
      requires Shaped() && freep != 0 && Parted(fl, live, owned, b)
      requires b.addr == bp && b.n > 0 && base < bp && bp + b.n <= top && bp in size && size[bp] == b.n
      modifies `ptr, `size, `freep, `fl, `spot
      ensures Valid() && freep != 0 && fl == Insert(old(fl), Pos(old(fl), bp), b)
      ensures forall u :: Has(fl, u) <==> Has(old(fl), u) || bp <= u < bp + b.n
    {
      hide Parted, Insert, Fits, Has, Sorted, Spliced, Rep, Pos;
      BlockFits(fl, live, owned, b);
      var p, k := Search(bp);
      ghost var ptr0, size0 := ptr, size;
      HeadersApart(fl, live, owned, b);
      SpliceReady(ptr, size, base, fl, k, b);
      Splice(p, bp);
      SizesKept(ptr0, size0, ptr, size, p, bp, live);
      RepInsert(ptr0, size0, ptr, size, base, fl, k, b);
      InsertSorted(fl, k, b);
      InsertInside(fl, k, b, base, top);
      InsertParted(fl, k, b, live, owned);
      SpotKept(base, fl, k, b);
      forall u ensures Has(Insert(fl, k, b), u) <==> Has(fl, u) || In(b, u) {
        InsertHas(fl, k, b, u);
      }
      fl, spot := Insert(fl, k, b), k;
    }

    /** The two joins of free. */
    method Splice(p: int, bp: int)
      requires p in ptr && p in size && bp in size && p != bp && (bp + size[bp] == ptr[p] ==> ptr[p] in size && ptr[p] in ptr && ptr[p] != bp)
      modifies `ptr, `size, `freep
      ensures freep == p
      ensures Spliced(old(ptr), old(size), ptr, size, p, bp)
    {
      if bp + size[bp] == ptr[p] {
        size := size[bp := size[bp] + size[ptr[p]]];
        ptr := ptr[bp := ptr[ptr[p]]];
      } else {
        ptr := ptr[bp := ptr[p]];
      }
      if p + size[p] == bp {
        size := size[p := size[p] + size[bp]];
        ptr := ptr[p := ptr[bp]];
      } else {
        ptr := ptr[p := bp];
      }
      freep := p;
    }

    /** free(ap) of a live block: its units, and no others, become free. */
    method Free(ap: int)
      requires Valid() && ap - 1 in live
      modifies `ptr, `size, `freep, `fl, `spot, `live
      ensures Valid() && live == old(live) - {ap - 1}
      ensures fl == Insert(old(fl), Pos(old(fl), ap - 1), Block(ap - 1, old(live)[ap - 1]))
      ensures forall u :: Has(fl, u) <==> Has(old(fl), u) || ap - 1 <= u < ap - 1 + old(live)[ap - 1]
      ensures forall i, j | 0 <= i < j < |fl| :: fl[i].addr + fl[i].n < fl[j].addr
    {
      hide Parted, Insert, Rep, Has;
      ghost var b := Block(ap - 1, live[ap - 1]);
      PartedFree(fl, live, owned, ap - 1);
      live := live - {ap - 1};
      FreeBlock(ap - 1, b);
      Gaps();
    }

    /** sbrk for another part of the program. */
    method OtherSbrk(n: nat)
      requires Valid()
      modifies `top
      ensures Valid() && top == old(top) + n
    {
      hide Parted, Rep;
      top := top + n;
    }

    /** morecore: at least nu more units on the free list, or 0 if sbrk fails.  `over` where
        the argument of sbrk overflows; what the code does then is in Overdrawn. */
    method Morecore(nu: int) returns (p: int, over: bool)
      requires Valid() && freep != 0 && 0 < nu
      modifies `ptr, `size, `freep, `fl, `spot, `top, `owned
      ensures Valid() && freep != 0
      ensures over <==> nu >= MAX_UNITS
      ensures p == 0 <==> over || old(top) + (if nu < 4096 then 4096 else nu) > limit
      ensures p == 0 ==> fl == old(fl) && owned == old(owned) && top == old(top) && freep == old(freep) && spot == old(spot)
      ensures p != 0 ==> top == old(top) + if nu < 4096 then 4096 else nu
      ensures p != 0 ==> p == freep && owned == old(owned) + Units(old(top), top - old(top)) && (exists i :: 0 <= i < |fl| && fl[i].n >= nu)
    {
      hide Parted, Insert, Rep, Has;
      var n := if nu < 4096 then 4096 else nu;
      if n >= MAX_UNITS {
        return 0, true;
      }
      if top + n > limit {
        return 0, false;
      }
      var hp := top;
      ghost var b := Block(hp, n);
      PartedMore(fl, live, owned, top, n);
      top := top + n;
      owned := owned + Units(hp, n);
      RepSize(ptr, size, base, fl, hp, n);
      size := size[hp := n];
      FreeBlock(hp, b);
      InsertBig(old(fl), Pos(old(fl), hp), b);
      return freep, false;
    }

    /** malloc: first fit around the circle, growing the heap at most once.  The
        block was free or new, is large enough and becomes live; 0 only if no free
        block is large enough and sbrk fails.  `over` exactly where no free block is
        large enough and the argument of sbrk overflows. */
    method Malloc(nbytes: int) returns (r: int, over: bool)
      requires Valid() && 0 <= nbytes <= 0xffff_ffff
      modifies `ptr, `size, `freep, `fl, `spot, `live, `top, `owned
      ensures Valid()
      ensures over <==> nbytes > 0x8000_0000 - 2 * HEADER && forall i | 0 <= i < |old(fl)| :: old(fl)[i].n < UnitsFor(nbytes)
      ensures over ==> r == 0 && live == old(live) && fl == old(fl) && top == old(top)
      ensures r == 0 && !over ==>
                && live == old(live) && (forall i | 0 <= i < |fl| :: fl[i].n < UnitsFor(nbytes))
                && top + (if UnitsFor(nbytes) < 4096 then 4096 else UnitsFor(nbytes)) > limit
      ensures r != 0 ==>
                && live == old(live)[r - 1 := UnitsFor(nbytes)]
                && (forall u | r - 1 <= u < r - 1 + UnitsFor(nbytes) :: u in owned)
                && (forall a | a in old(live) :: a + old(live)[a] <= r - 1 || r - 1 + UnitsFor(nbytes) <= a)
      ensures r != 0 ==> forall i, j | 0 <= i < j < |fl| :: fl[i].addr + fl[i].n < fl[j].addr
      ensures (exists i | 0 <= i < |old(fl)| :: old(fl)[i].n >= UnitsFor(nbytes)) ==>
                r != 0 && top == old(top) && exists i :: CutFrom(old(fl), fl, i, r, UnitsFor(nbytes))
    {
      hide Parted, Rep, Has, Sorted, InLive, Scanning, Node, NodeSize, CutFrom, UnitsFor, Shaped;
      UnitsEnough(nbytes);
      var nunits := UnitsFor(nbytes);
      if freep == 0 {
        Start();
      }
      var prevp := freep;
      Circle();
      NodeLinked(ptr, size, base, fl, spot);
      var p := ptr[prevp];
      ghost var c := After1(fl, spot);
      ghost var grown := false;
      ScanStart(fl, spot, nunits);
      while true
        invariant Valid() && freep != 0 && live == old(live) && Scanning(fl, spot, c, nunits, grown)
        invariant !grown ==> fl == old(fl) && top == old(top)
        invariant grown ==> nunits < MAX_UNITS && forall i | 0 <= i < |old(fl)| :: old(fl)[i].n < nunits
        invariant p == Node(base, fl, c) && prevp == Node(base, fl, Before1(fl, c))
        decreases !grown, Span(c, spot, |fl|)
      {
        Circle();
        ScanHas(fl, spot, c, nunits, grown);
        NodeLinked(ptr, size, base, fl, c);
        if size[p] >= nunits {
          NodeBlock(base, fl, c);
          r := TakeLive(prevp, p, nunits, c);
          return r, false;
        }
        if p == freep {
          SamePlace(base, fl, c, spot);
          ScanOver(fl, spot, nunits, grown);
          p, over := Morecore(nunits);
          if p == 0 {
            return 0, over;
          }
          Circle();
          ScanGrown(fl, spot, nunits);
          grown, c := true, spot;
          NodeLinked(ptr, size, base, fl, c);
        } else {
          ScanNext(fl, spot, c, nunits, grown);
        }
        prevp := p;
        c := After1(fl, c);
        p := ptr[p];
      }
    }

    lemma Circle()
      requires Valid() && freep != 0
      ensures Rep(ptr, size, base, fl) && 0 <= spot <= |fl| && freep == Node(base, fl, spot)
      ensures Sorted(fl) && forall i | 0 <= i < |fl| :: base < fl[i].addr
    {
    }

    lemma LiveSizes()
      requires Valid()
      ensures forall a | a in live :: live[a] > 0
    {
    }

    lemma Gaps()
      requires Valid()
      ensures forall i, j | 0 <= i < j < |fl| :: fl[i].addr + fl[i].n < fl[j].addr
    {
      forall i, j | 0 <= i < j < |fl| ensures fl[i].addr + fl[i].n < fl[j].addr {
        assert Before(fl[i], fl[j]);
      }
    }

    /** The first call links base to itself. */
    method Start()
      requires Valid() && freep == 0
      modifies `ptr, `size, `freep, `spot
      ensures Valid() && freep != 0
    {
      hide Parted;
      ptr, size := ptr[base := base], size[base := 0];
      freep, spot := base, 0;
    }

    /** The block it gives out overlaps no live one, and no two free blocks touch. */
    method TakeLive(prevp: int, p: int, nunits: int, ghost c: int) returns (r: int)
      requires Valid() && freep != 0 && 0 < c <= |fl| && p == Node(base, fl, c) && prevp == Node(base, fl, c - 1)
      requires 0 < nunits <= NodeSize(fl, c)
      modifies `ptr, `size, `freep, `fl, `spot, `live
      ensures Valid() && r != 0 && live == old(live)[r - 1 := nunits] && CutFrom(old(fl), fl, c - 1, r, nunits)
      ensures forall u | r - 1 <= u < r - 1 + nunits :: u in owned
      ensures forall a | a in old(live) :: a + old(live)[a] <= r - 1 || r - 1 + nunits <= a
      ensures forall i, j | 0 <= i < j < |fl| :: fl[i].addr + fl[i].n < fl[j].addr
    {
      hide Parted, Rep, Has, Sorted, InLive, Node, NodeSize;
      NodeBlock(base, fl, c);
      LiveSizes();
      r := Take(prevp, p, nunits, c);
      LiveApart(old(live), r - 1, nunits);
      Gaps();
    }

    /** Cuts nunits off the block at p, or takes all of it. */
    method Take(prevp: int, p: int, nunits: int, ghost c: int) returns (r: int)
      requires Valid() && freep != 0 && 0 < c <= |fl| && p == Node(base, fl, c) && prevp == Node(base, fl, c - 1)
      requires 0 < nunits <= NodeSize(fl, c)
      modifies `ptr, `size, `freep, `fl, `spot, `live
      ensures Valid() && r == Carved(old(fl), c - 1, nunits).addr + 1 && r != 0
      ensures fl == Carve(old(fl), c - 1, nunits) && live == old(live)[r - 1 := nunits]
      ensures forall u | r - 1 <= u < r - 1 + nunits :: u in owned && !InLive(old(live), u)
    {
      hide Parted, Rep, Has, InLive, Sorted, Carve, NodeSize;
      NodeLinked(ptr, size, base, fl, c);
      NodeLinked(ptr, size, base, fl, c - 1);
      NodeBlock(base, fl, c);
      ghost var ptr0, size0, b := ptr, size, Carved(fl, c - 1, nunits);
      CarveApart(fl, live, owned, c - 1, nunits);
      CarveParted(fl, live, owned, c - 1, nunits);
      CarveSorted(fl, c - 1, nunits);
      CarveInside(base, fl, c, nunits, top);
      var q := Cut(prevp, p, nunits);
      RepCarve(ptr0, size0, ptr, size, base, fl, c, nunits);
      fl, spot, live := Carve(fl, c - 1, nunits), c - 1, live[q := nunits];
      return q + 1;
    }

    method Cut(prevp: int, p: int, nunits: int) returns (q: int)
      requires prevp in ptr && p in ptr && p in size && nunits <= size[p]
      modifies `ptr, `size, `freep
      ensures freep == prevp && q == p + old(size[p]) - nunits
      ensures if old(size[p]) == nunits then ptr == old(ptr)[prevp := old(ptr[p])] && size == old(size)
              else ptr == old(ptr) && size == old(size)[p := old(size[p]) - nunits][q := nunits]
    {
      q := p;
      if size[p] == nunits {
        ptr := ptr[prevp := ptr[p]];
      } else {
        size := size[p := size[p] - nunits];
        q := p + size[p];
        size := size[q := nunits];
      }
      freep := prevp;
    }
  }

  lemma NotAtNode(fl: seq<Block>, bp: int)
    requires Sorted(fl) && !Has(fl, bp)
    ensures forall i | 0 <= i < |fl| :: fl[i].addr != bp
  {
  }

  /** Addresses rise along the list, so node j and the next enclose node k's
      successor position only if j == k. */
  lemma Around(base: int, fl: seq<Block>, j: int, k: int)
    requires Sorted(fl) && (forall i | 0 <= i < |fl| :: base < fl[i].addr) && 0 <= j <= |fl| && 0 <= k <= |fl|
    ensures j < |fl| ==> Node(base, fl, j) < Node(base, fl, j + 1)
    ensures j < k ==> Node(base, fl, j + 1) <= Node(base, fl, k) && Node(base, fl, j) < Node(base, fl, k)
    ensures j > k ==> Node(base, fl, k + 1) <= Node(base, fl, j)
  {
  }

  /** What the joins do to the headers of p and bp. */
  ghost predicate Spliced(ptr: map<int, int>, size: map<int, int>, ptr': map<int, int>, size': map<int, int>, p: int, bp: int) {
    && p in ptr && p in size && bp in size && p != bp
    && (var nx := ptr[p];
        var next := bp + size[bp] == nx;
        var prev := p + size[p] == bp;
        && (next ==> nx in ptr && nx in size)
        && (var n := if next then size[bp] + size[nx] else size[bp];
            var after := if next then ptr[nx] else nx;
            && ptr' == ptr[bp := after][p := if prev then after else bp]
            && size' == (if prev then size[bp := n][p := size[p] + n] else size[bp := n])))
  }

  lemma SpliceReady(ptr: map<int, int>, size: map<int, int>, base: int, fl: seq<Block>, k: int, b: Block)
    requires Sorted(fl) && Rep(ptr, size, base, fl) && Fits(fl, k, b) && base < b.addr
    ensures var p := Node(base, fl, k);
            && p in ptr && p in size && p != b.addr && (p != base ==> 0 < k <= |fl| && p == fl[k - 1].addr)
            && (b.addr + b.n == ptr[p] ==> ptr[p] in size && ptr[p] in ptr && ptr[p] != b.addr)
  {
    assert Link(ptr, size, base, fl, k);
    if k < |fl| {
      assert Link(ptr, size, base, fl, k + 1);
    } else {
      assert Link(ptr, size, base, fl, 0);
    }
  }

  /** Joining blocks writes no header of a block that is neither. */
  lemma SizesKept(ptr: map<int, int>, size: map<int, int>, ptr': map<int, int>, size': map<int, int>, p: int, bp: int, live: map<int, int>)
    requires Spliced(ptr, size, ptr', size', p, bp) && p !in live && bp !in live && forall a | a in live :: a in size && size[a] == live[a]
    ensures forall a | a in live :: a in size' && size'[a] == live[a]
  {
  }

  /** A block apart from the free list fits at the place of its address. */
  lemma BlockFits(fl: seq<Block>, live: map<int, int>, owned: set<int>, b: Block)
    requires Sorted(fl) && Parted(fl, live, owned, b) && b.n > 0
    ensures Fits(fl, Pos(fl, b.addr), b) && !Has(fl, b.addr)
  {
    assert In(b, b.addr);
    var k := Pos(fl, b.addr);
    forall i | 0 <= i < k ensures fl[i].addr + fl[i].n <= b.addr {
      assert !In(fl[i], b.addr);
    }
    forall i | k <= i < |fl| ensures b.addr + b.n <= fl[i].addr {
      assert In(fl[i], fl[i].addr);
      assert Has(fl, fl[i].addr) && !In(b, fl[i].addr);
    }
  }

  /** No live block has its header where the list has one, or at b. */
  lemma HeadersApart(fl: seq<Block>, live: map<int, int>, owned: set<int>, b: Block)
    requires Sorted(fl) && Parted(fl, live, owned, b) && b.n > 0 && forall a | a in live :: live[a] > 0
    ensures b.addr !in live && forall i | 0 <= i < |fl| :: fl[i].addr !in live
  {
    forall a | a in live ensures InLive(live, a) {
      assert In(Block(a, live[a]), a);
    }
    assert In(b, b.addr);
    forall i | 0 <= i < |fl| ensures Has(fl, fl[i].addr) {
      assert In(fl[i], fl[i].addr);
    }
  }

  lemma RepInsert(ptr: map<int, int>, size: map<int, int>, ptr': map<int, int>, size': map<int, int>, base: int, fl: seq<Block>, k: int, b: Block)
    requires Sorted(fl) && Rep(ptr, size, base, fl) && Fits(fl, k, b) && base < b.addr && b.addr in size && size[b.addr] == b.n
    requires Spliced(ptr, size, ptr', size', Node(base, fl, k), b.addr)
    ensures Rep(ptr', size', base, Insert(fl, k, b))
  {
    hide Insert;
    var r := Insert(fl, k, b);
    InsertLength(fl, k, b);
    forall i | 0 <= i < |r| ensures base < r[i].addr {
      InsertAt(fl, k, b, i);
    }
    forall i | 0 <= i <= |r| ensures Link(ptr', size', base, r, i) {
      RepInsertAt(ptr, size, ptr', size', base, fl, k, b, i);
    }
  }

  lemma RepInsertAt(ptr: map<int, int>, size: map<int, int>, ptr': map<int, int>, size': map<int, int>, base: int, fl: seq<Block>, k: int, b: Block, i: int)
    requires Sorted(fl) && Rep(ptr, size, base, fl) && Fits(fl, k, b) && base < b.addr && b.addr in size && size[b.addr] == b.n
    requires Spliced(ptr, size, ptr', size', Node(base, fl, k), b.addr) && 0 <= i <= |Insert(fl, k, b)|
    ensures Link(ptr', size', base, Insert(fl, k, b), i)
  {
    hide Insert, Sorted, Spliced, Rep, Link;
    if i < k {
      LinkBefore(ptr, size, ptr', size', base, fl, k, b, i);
    } else if i == k {
      LinkPrev(ptr, size, ptr', size', base, fl, k, b);
    } else if i == k + 1 && !JoinsPrev(fl, k, b) {
      LinkNew(ptr, size, ptr', size', base, fl, k, b);
    } else {
      LinkLater(ptr, size, ptr', size', base, fl, k, b, i);
    }
  }

  /** Headers of other nodes are untouched. */
  lemma OtherNode(ptr: map<int, int>, size: map<int, int>, ptr': map<int, int>, size': map<int, int>, base: int, fl: seq<Block>, k: int, b: Block, j: int)
    requires Sorted(fl) && Rep(ptr, size, base, fl) && Fits(fl, k, b) && base < b.addr && 0 <= j <= |fl| && j != k
    requires Spliced(ptr, size, ptr', size', Node(base, fl, k), b.addr)
    ensures var a := Node(base, fl, j); a in ptr' && a in size' && ptr'[a] == Node(base, fl, j + 1) && size'[a] == NodeSize(fl, j)
  {
    assert Link(ptr, size, base, fl, j);
    var a := Node(base, fl, j);
    assert a != Node(base, fl, k) by {
      Around(base, fl, j, k);
      Around(base, fl, k, j);
    }
    assert a != b.addr by {
      assert 0 < j <= k ==> fl[j - 1].addr + fl[j - 1].n <= b.addr && fl[j - 1].n > 0;
      assert j > k ==> b.addr + b.n <= fl[j - 1].addr;
    }
  }

  /** Node j of the new list. */
  lemma NewNode(base: int, fl: seq<Block>, k: int, b: Block, j: int)
    requires 0 <= k <= |fl| && 0 <= j
    ensures var r := Insert(fl, k, b);
            var prev := JoinsPrev(fl, k, b);
            var n := if JoinsNext(fl, k, b) then b.n + fl[k].n else b.n;
            var from := j - k - (if prev then 0 else 1) + After(fl, k, b);
            && |r| == |fl| + 1 + First(fl, k, b) - After(fl, k, b)
            && (j < k ==> Node(base, r, j) == Node(base, fl, j) && NodeSize(r, j) == NodeSize(fl, j))
            && (j == k ==> Node(base, r, j) == Node(base, fl, k) && NodeSize(r, j) == NodeSize(fl, k) + (if prev then n else 0))
            && (j == k + 1 && !prev ==> Node(base, r, j) == b.addr && NodeSize(r, j) == n)
            && (j > k + (if prev then 0 else 1) ==> Node(base, r, j) == Node(base, fl, from) && NodeSize(r, j) == NodeSize(fl, from))
  {
  }

  lemma LinkBefore(ptr: map<int, int>, size: map<int, int>, ptr': map<int, int>, size': map<int, int>, base: int, fl: seq<Block>, k: int, b: Block, i: int)
    requires Sorted(fl) && Rep(ptr, size, base, fl) && Fits(fl, k, b) && base < b.addr && 0 <= i < k
    requires Spliced(ptr, size, ptr', size', Node(base, fl, k), b.addr)
    ensures Link(ptr', size', base, Insert(fl, k, b), i)
  {
    hide Insert, Sorted, Spliced, Node, NodeSize, Rep;
    OtherNode(ptr, size, ptr', size', base, fl, k, b, i);
    NewNode(base, fl, k, b, i);
    NewNode(base, fl, k, b, i + 1);
  }

  /** The comparisons of the code are the tests for touching blocks. */
  lemma Touching(ptr: map<int, int>, size: map<int, int>, base: int, fl: seq<Block>, k: int, b: Block)
    requires Sorted(fl) && Rep(ptr, size, base, fl) && Fits(fl, k, b) && base < b.addr
    ensures Link(ptr, size, base, fl, k) && (k < |fl| ==> Link(ptr, size, base, fl, k + 1))
    ensures JoinsNext(fl, k, b) <==> b.addr + b.n == Node(base, fl, k + 1)
    ensures JoinsPrev(fl, k, b) <==> Node(base, fl, k) + NodeSize(fl, k) == b.addr
  {
  }

  lemma LinkPrev(ptr: map<int, int>, size: map<int, int>, ptr': map<int, int>, size': map<int, int>, base: int, fl: seq<Block>, k: int, b: Block)
    requires Sorted(fl) && Rep(ptr, size, base, fl) && Fits(fl, k, b) && base < b.addr && b.addr in size && size[b.addr] == b.n
    requires Spliced(ptr, size, ptr', size', Node(base, fl, k), b.addr)
    ensures Link(ptr', size', base, Insert(fl, k, b), k)
  {
    hide Insert, Sorted, Rep;
    Touching(ptr, size, base, fl, k, b);
    NewNode(base, fl, k, b, k);
    NewNode(base, fl, k, b, k + 1);
  }

  lemma LinkNew(ptr: map<int, int>, size: map<int, int>, ptr': map<int, int>, size': map<int, int>, base: int, fl: seq<Block>, k: int, b: Block)
    requires Sorted(fl) && Rep(ptr, size, base, fl) && Fits(fl, k, b) && base < b.addr && b.addr in size && size[b.addr] == b.n
    requires Spliced(ptr, size, ptr', size', Node(base, fl, k), b.addr) && !JoinsPrev(fl, k, b)
    ensures Link(ptr', size', base, Insert(fl, k, b), k + 1)
  {
    hide Insert, Sorted, Rep;
    Touching(ptr, size, base, fl, k, b);
    NewNode(base, fl, k, b, k + 1);
    NewNode(base, fl, k, b, k + 2);
  }

  lemma LinkLater(ptr: map<int, int>, size: map<int, int>, ptr': map<int, int>, size': map<int, int>, base: int, fl: seq<Block>, k: int, b: Block, i: int)
    requires Sorted(fl) && Rep(ptr, size, base, fl) && Fits(fl, k, b) && base < b.addr
    requires Spliced(ptr, size, ptr', size', Node(base, fl, k), b.addr) && k < i <= |Insert(fl, k, b)| && (i == k + 1 ==> JoinsPrev(fl, k, b))
    ensures Link(ptr', size', base, Insert(fl, k, b), i)
  {
    hide Insert, Sorted, Spliced, Node, NodeSize, Rep;
    NewNode(base, fl, k, b, i);
    NewNode(base, fl, k, b, i + 1);
    OtherNode(ptr, size, ptr', size', base, fl, k, b, i - k - (if JoinsPrev(fl, k, b) then 0 else 1) + After(fl, k, b));
  }

  lemma SpotKept(base: int, fl: seq<Block>, k: int, b: Block)
    requires 0 <= k <= |fl|
    ensures k <= |Insert(fl, k, b)| && Node(base, Insert(fl, k, b), k) == Node(base, fl, k)
  {
  }

  lemma InsertInside(fl: seq<Block>, k: int, b: Block, base: int, top: int)
    requires 0 <= k <= |fl| && base < b.addr && b.addr + b.n <= top
    requires forall i | 0 <= i < |fl| :: base < fl[i].addr && fl[i].addr + fl[i].n <= top
    ensures forall i | 0 <= i < |Insert(fl, k, b)| :: base < Insert(fl, k, b)[i].addr && Insert(fl, k, b)[i].addr + Insert(fl, k, b)[i].n <= top
  {
  }

  /** Freeing moves the units of b into the list: none lost, none gained. */
  lemma InsertParted(fl: seq<Block>, k: int, b: Block, live: map<int, int>, owned: set<int>)
    requires Sorted(fl) && Fits(fl, k, b) && Parted(fl, live, owned, b)
    ensures Parted(Insert(fl, k, b), live, owned, NOTHING)
  {
    hide Insert, Has, InLive;
    forall u ensures Has(Insert(fl, k, b), u) <==> Has(fl, u) || In(b, u) {
      InsertHas(fl, k, b, u);
    }
  }

  lemma LiveApart(live: map<int, int>, at: int, n: int)
    requires n > 0 && (forall a | a in live :: live[a] > 0) && forall u | at <= u < at + n :: !InLive(live, u)
    ensures forall a | a in live :: a + live[a] <= at || at + n <= a
  {
    forall a | a in live ensures a + live[a] <= at || at + n <= a {
      var u := if a < at then at else a;
      assert In(Block(a, live[a]), u) ==> InLive(live, u);
    }
  }

  function Units(a: int, n: int): (r: set<int>)
    ensures forall u :: u in r <==> a <= u < a + n
    decreases n
  {
    if n <= 0 then {} else Units(a, n - 1) + {a + n - 1}
  }

  lemma PartedFree(fl: seq<Block>, live: map<int, int>, owned: set<int>, a: int)
    requires a in live && Parted(fl, live, owned, NOTHING)
    ensures Parted(fl, live - {a}, owned, Block(a, live[a]))
  {
    hide Has;
    var rest, b := live - {a}, Block(a, live[a]);
    forall u ensures InLive(live, u) <==> InLive(rest, u) || In(b, u) {
      if InLive(live, u) {
        var c :| c in live && In(Block(c, live[c]), u);
        assert c != a ==> c in rest && In(Block(c, rest[c]), u);
      }
      if InLive(rest, u) {
        var c :| c in rest && In(Block(c, rest[c]), u);
        assert In(Block(c, live[c]), u);
      }
    }
    forall u | InLive(rest, u) ensures !In(b, u) {
      var c :| c in rest && In(Block(c, rest[c]), u);
      assert In(Block(c, live[c]), u);
    }
    forall c, d, u | c in rest && d in rest && In(Block(c, rest[c]), u) && In(Block(d, rest[d]), u) ensures c == d {
      assert In(Block(c, live[c]), u) && In(Block(d, live[d]), u);
    }
  }

  lemma PartedMore(fl: seq<Block>, live: map<int, int>, owned: set<int>, top: int, n: int)
    requires Parted(fl, live, owned, NOTHING) && forall u | u in owned :: u < top
    ensures Parted(fl, live, owned + Units(top, n), Block(top, n))
  {
  }

  lemma RepSize(ptr: map<int, int>, size: map<int, int>, base: int, fl: seq<Block>, hp: int, n: int)
    requires Rep(ptr, size, base, fl) && base < hp && forall i | 0 <= i < |fl| :: fl[i].addr < hp
    ensures Rep(ptr, size[hp := n], base, fl)
  {
    var size' := size[hp := n];
    forall i | 0 <= i <= |fl| ensures Link(ptr, size', base, fl, i) {
      assert Link(ptr, size, base, fl, i);
    }
  }

  lemma InsertBig(fl: seq<Block>, k: int, b: Block)
    requires Sorted(fl) && Fits(fl, k, b)
    ensures exists i :: 0 <= i < |Insert(fl, k, b)| && Insert(fl, k, b)[i].n >= b.n
  {
    hide Insert;
    InsertLength(fl, k, b);
    InsertAt(fl, k, b, First(fl, k, b));
  }

  function After1(fl: seq<Block>, i: int): int {
    if i == |fl| then 0 else i + 1
  }

  function Before1(fl: seq<Block>, i: int): int {
    if i == 0 then |fl| else i - 1
  }

  /** From c around to s. */
  predicate InSpan(c: int, s: int, i: int) {
    if c <= s then c <= i <= s else i >= c || i <= s
  }

  function Span(c: int, s: int, n: int): int {
    if c <= s then s - c else n + 1 - c + s
  }

  lemma NodeLinked(ptr: map<int, int>, size: map<int, int>, base: int, fl: seq<Block>, i: int)
    requires Rep(ptr, size, base, fl) && 0 <= i <= |fl|
    ensures Link(ptr, size, base, fl, i) && Node(base, fl, i) in ptr && Node(base, fl, i) in size
    ensures ptr[Node(base, fl, i)] == Node(base, fl, After1(fl, i)) && size[Node(base, fl, i)] == NodeSize(fl, i)
  {
  }

  lemma SamePlace(base: int, fl: seq<Block>, i: int, j: int)
    requires Sorted(fl) && (forall i | 0 <= i < |fl| :: base < fl[i].addr) && 0 <= i <= |fl| && 0 <= j <= |fl|
    ensures Node(base, fl, i) == Node(base, fl, j) ==> i == j
  {
  }

  lemma CarveParted(fl: seq<Block>, live: map<int, int>, owned: set<int>, i: int, n: int)
    requires Sorted(fl) && Parted(fl, live, owned, NOTHING) && 0 <= i < |fl| && 0 < n <= fl[i].n && Carved(fl, i, n).addr !in live
    ensures var b := Carved(fl, i, n);
            && Parted(Carve(fl, i, n), live[b.addr := n], owned, NOTHING)
            && (forall u | In(b, u) :: u in owned && !InLive(live, u))
  {
    hide Has, Carve, Carved;
    var b := Carved(fl, i, n);
    var more := live[b.addr := n];
    forall u ensures (Has(fl, u) <==> Has(Carve(fl, i, n), u) || In(b, u)) && !(Has(Carve(fl, i, n), u) && In(b, u)) {
      CarveHas(fl, i, n, u);
    }
    CarvedBlock(fl, i, n);
    MoreLive(live, b, more);
  }

  lemma CarvedBlock(fl: seq<Block>, i: int, n: int)
    requires 0 <= i < |fl| && 0 < n
    ensures Carved(fl, i, n).n == n && In(Carved(fl, i, n), Carved(fl, i, n).addr)
  {
  }

  lemma MoreLive(live: map<int, int>, b: Block, more: map<int, int>)
    requires b.addr !in live && more == live[b.addr := b.n] && forall u | In(b, u) :: !InLive(live, u)
    requires forall a, c, u | a in live && c in live && In(Block(a, live[a]), u) && In(Block(c, live[c]), u) :: a == c
    ensures forall u :: InLive(more, u) <==> InLive(live, u) || In(b, u)
    ensures forall a, c, u | a in more && c in more && In(Block(a, more[a]), u) && In(Block(c, more[c]), u) :: a == c
  {
    forall u ensures InLive(more, u) <==> InLive(live, u) || In(b, u) {
      if InLive(live, u) {
        var a :| a in live && In(Block(a, live[a]), u);
        assert In(Block(a, more[a]), u);
      }
      if In(b, u) {
        assert In(Block(b.addr, more[b.addr]), u);
      }
    }
    forall a, c, u | a in more && c in more && In(Block(a, more[a]), u) && In(Block(c, more[c]), u) ensures a == c {
      if a != b.addr && c != b.addr {
        assert In(Block(a, live[a]), u) && In(Block(c, live[c]), u);
      }
    }
  }

  lemma NodeBlock(base: int, fl: seq<Block>, c: int)
    requires 0 < c <= |fl|
    ensures Node(base, fl, c) == fl[c - 1].addr && NodeSize(fl, c) == fl[c - 1].n
  {
  }

  lemma CarveInside(base: int, fl: seq<Block>, c: int, n: int, top: int)
    requires 0 < c <= |fl| && 0 < n <= fl[c - 1].n && forall i | 0 <= i < |fl| :: base < fl[i].addr && fl[i].addr + fl[i].n <= top
    ensures var r := Carve(fl, c - 1, n);
            && c - 1 <= |r| && Node(base, r, c - 1) == Node(base, fl, c - 1)
            && forall i | 0 <= i < |r| :: base < r[i].addr && r[i].addr + r[i].n <= top
  {
  }

  /** No live header lies in a free block. */
  lemma CarveApart(fl: seq<Block>, live: map<int, int>, owned: set<int>, i: int, n: int)
    requires Parted(fl, live, owned, NOTHING) && (forall a | a in live :: live[a] > 0) && 0 <= i < |fl| && 0 < n <= fl[i].n
    ensures fl[i].addr !in live && Carved(fl, i, n).addr !in live
  {
    forall a | a in live ensures InLive(live, a) {
      assert In(Block(a, live[a]), a);
    }
    assert In(fl[i], fl[i].addr) && In(fl[i], Carved(fl, i, n).addr);
    assert Has(fl, fl[i].addr) && Has(fl, Carved(fl, i, n).addr);
  }

  lemma RepCarve(ptr: map<int, int>, size: map<int, int>, ptr': map<int, int>, size': map<int, int>, base: int, fl: seq<Block>, c: int, n: int)
    requires Sorted(fl) && Rep(ptr, size, base, fl) && 0 < c <= |fl| && 0 < n <= fl[c - 1].n
    requires if fl[c - 1].n == n then ptr' == ptr[Node(base, fl, c - 1) := Node(base, fl, c + 1)] && size' == size
             else ptr' == ptr && size' == size[fl[c - 1].addr := fl[c - 1].n - n][Carved(fl, c - 1, n).addr := n]
    ensures Rep(ptr', size', base, Carve(fl, c - 1, n))
  {
    var r := Carve(fl, c - 1, n);
    forall i | 0 <= i <= |r| ensures Link(ptr', size', base, r, i) {
      if fl[c - 1].n == n {
        LinkTaken(ptr, size, ptr', base, fl, c, i);
      } else {
        LinkCut(ptr, size, size', base, fl, c, n, i);
      }
    }
  }

  /** Node i once node c has been taken out of the list. */
  lemma LinkTaken(ptr: map<int, int>, size: map<int, int>, ptr': map<int, int>, base: int, fl: seq<Block>, c: int, i: int)
    requires Sorted(fl) && Rep(ptr, size, base, fl) && 0 < c <= |fl| && 0 <= i < |fl|
    requires ptr' == ptr[Node(base, fl, c - 1) := Node(base, fl, c + 1)]
    ensures Link(ptr', size, base, Carve(fl, c - 1, fl[c - 1].n), i)
  {
    hide Sorted;
    var r := Carve(fl, c - 1, fl[c - 1].n);
    var from := if i >= c then i + 1 else i;
    assert Link(ptr, size, base, fl, from);
    SamePlace(base, fl, from, c - 1);
    assert Node(base, r, i) == Node(base, fl, from) && NodeSize(r, i) == NodeSize(fl, from);
    assert Node(base, r, i + 1) == Node(base, fl, if i + 1 >= c then i + 2 else i + 1);
  }

  /** Node i once node c has lost the last n of its units. */
  lemma LinkCut(ptr: map<int, int>, size: map<int, int>, size': map<int, int>, base: int, fl: seq<Block>, c: int, n: int, i: int)
    requires Sorted(fl) && Rep(ptr, size, base, fl) && 0 < c <= |fl| && 0 < n < fl[c - 1].n && 0 <= i <= |fl|
    requires size' == size[fl[c - 1].addr := fl[c - 1].n - n][Carved(fl, c - 1, n).addr := n]
    ensures Link(ptr, size', base, Carve(fl, c - 1, n), i)
  {
    hide Sorted;
    var r := Carve(fl, c - 1, n);
    assert Link(ptr, size, base, fl, i) && base < fl[c - 1].addr;
    SamePlace(base, fl, i, c);
    NotInside(fl, c - 1, Carved(fl, c - 1, n).addr);
    assert Node(base, r, i) == Node(base, fl, i) && Node(base, r, i + 1) == Node(base, fl, i + 1);
    assert NodeSize(r, i) == (if i == c then fl[c - 1].n - n else NodeSize(fl, i));
  }

  /** No block begins inside another. */
  lemma NotInside(fl: seq<Block>, i: int, u: int)
    requires Sorted(fl) && 0 <= i < |fl| && fl[i].addr < u < fl[i].addr + fl[i].n
    ensures forall j | 0 <= j < |fl| :: fl[j].addr != u
  {
  }

  // ---- The scan of malloc ----

  /** The scan is at node c on its way around to node s: what it has passed is too
      small, and after the heap has grown something ahead is large enough. */
  ghost predicate Scanning(fl: seq<Block>, s: int, c: int, nunits: int, grown: bool) {
    && 0 <= c <= |fl| && 0 <= s <= |fl|
    && (forall i | 0 <= i <= |fl| && !InSpan(c, s, i) :: NodeSize(fl, i) < nunits)
    && (grown ==> exists i :: 0 <= i <= |fl| && NodeSize(fl, i) >= nunits)
  }

  lemma ScanStart(fl: seq<Block>, s: int, nunits: int)
    requires 0 <= s <= |fl|
    ensures Scanning(fl, s, After1(fl, s), nunits, false)
  {
  }

  lemma ScanHas(fl: seq<Block>, s: int, c: int, nunits: int, grown: bool)
    requires Scanning(fl, s, c, nunits, grown) && nunits > 0
    ensures 0 <= c <= |fl| && 0 <= s <= |fl| && (NodeSize(fl, c) >= nunits ==> c > 0)
    ensures c != s ==> Span(After1(fl, c), s, |fl|) < Span(c, s, |fl|)
  {
  }

  lemma ScanNext(fl: seq<Block>, s: int, c: int, nunits: int, grown: bool)
    requires Scanning(fl, s, c, nunits, grown) && c != s && NodeSize(fl, c) < nunits
    ensures Scanning(fl, s, After1(fl, c), nunits, grown)
  {
  }

  /** Back at s: nothing is large enough, and the heap has not grown yet. */
  lemma ScanOver(fl: seq<Block>, s: int, nunits: int, grown: bool)
    requires Scanning(fl, s, s, nunits, grown) && NodeSize(fl, s) < nunits
    ensures !grown && forall i | 0 <= i < |fl| :: fl[i].n < nunits
  {
    forall i | 0 <= i < |fl| ensures fl[i].n < nunits {
      assert NodeSize(fl, i + 1) == fl[i].n;
    }
  }

  lemma ScanGrown(fl: seq<Block>, s: int, nunits: int)
    requires 0 <= s <= |fl| && exists i :: 0 <= i < |fl| && fl[i].n >= nunits
    ensures Scanning(fl, s, After1(fl, s), nunits, true)
  {
    var i :| 0 <= i < |fl| && fl[i].n >= nunits;
    assert NodeSize(fl, i + 1) >= nunits;
  }
}
