/** The free list of user/umalloc.c as a value: blocks in address order, no two
    of them touching, after section 8.7 of The C Programming Language.
    Addresses and sizes are in units of one header. */
module FreeList {
  datatype Block = Block(addr: int, n: int)

  predicate In(b: Block, u: int) {
    b.addr <= u < b.addr + b.n
  }

  /** Block i ends before block j begins, with a gap. */
  predicate Before(x: Block, y: Block) {
    x.addr + x.n < y.addr
  }

  ghost predicate Sorted(fl: seq<Block>) {
    && (forall i | 0 <= i < |fl| :: fl[i].n > 0)
    && (forall i, j | 0 <= i < j < |fl| :: Before(fl[i], fl[j]))
  }

  ghost predicate Has(fl: seq<Block>, u: int) {
    exists i :: 0 <= i < |fl| && In(fl[i], u)
  }

  // ---- Freeing a block ----

  /** Block b lies between fl[..k] and fl[k..] and overlaps neither. */
  ghost predicate Fits(fl: seq<Block>, k: int, b: Block) {
    && 0 <= k <= |fl| && b.n > 0
    && (forall i | 0 <= i < k :: fl[i].addr + fl[i].n <= b.addr)
    && (forall i | k <= i < |fl| :: b.addr + b.n <= fl[i].addr)
  }

  predicate JoinsNext(fl: seq<Block>, k: int, b: Block)
    requires 0 <= k <= |fl|
  {
    k < |fl| && b.addr + b.n == fl[k].addr
  }

  predicate JoinsPrev(fl: seq<Block>, k: int, b: Block)
    requires 0 <= k <= |fl|
  {
    k > 0 && fl[k - 1].addr + fl[k - 1].n == b.addr
  }

  /** Blocks fl[First..After] become one with b. */
  function First(fl: seq<Block>, k: int, b: Block): int
    requires 0 <= k <= |fl|
  {
    if JoinsPrev(fl, k, b) then k - 1 else k
  }

  function After(fl: seq<Block>, k: int, b: Block): int
    requires 0 <= k <= |fl|
  {
    if JoinsNext(fl, k, b) then k + 1 else k
  }

  function Merged(fl: seq<Block>, k: int, b: Block): Block
    requires 0 <= k <= |fl|
  {
    var n := if JoinsNext(fl, k, b) then b.n + fl[k].n else b.n;
    if JoinsPrev(fl, k, b) then Block(fl[k - 1].addr, fl[k - 1].n + n) else Block(b.addr, n)
  }

  /** The list with b freed: joined to its neighbours where it touches them. */
  function Insert(fl: seq<Block>, k: int, b: Block): seq<Block>
    requires 0 <= k <= |fl|
  {
    fl[..First(fl, k, b)] + [Merged(fl, k, b)] + fl[After(fl, k, b)..]
  }

  lemma InsertAt(fl: seq<Block>, k: int, b: Block, i: int)
    requires 0 <= k <= |fl| && 0 <= i < |Insert(fl, k, b)|
    ensures var first, after := First(fl, k, b), After(fl, k, b);
            && |Insert(fl, k, b)| == |fl| + 1 + first - after
            && Insert(fl, k, b)[i] == if i < first then fl[i] else if i == first then Merged(fl, k, b) else fl[i - first - 1 + after]
  {
  }

  /** Freeing keeps the list sorted and coalesced. */
  lemma InsertSorted(fl: seq<Block>, k: int, b: Block)
    requires Sorted(fl) && Fits(fl, k, b)
    ensures Sorted(Insert(fl, k, b))
  {
    hide Insert, Merged, First, After, Before;
    var r := Insert(fl, k, b);
    forall i, j | 0 <= i < j < |r| ensures Before(r[i], r[j]) {
      InsertPair(fl, k, b, i, j);
    }
    forall i | 0 <= i < |r| ensures r[i].n > 0 {
      InsertPositive(fl, k, b, i);
    }
  }

  lemma InsertPair(fl: seq<Block>, k: int, b: Block, i: int, j: int)
    requires Sorted(fl) && Fits(fl, k, b) && 0 <= i < j < |Insert(fl, k, b)|
    ensures Before(Insert(fl, k, b)[i], Insert(fl, k, b)[j])
  {
  }

  lemma InsertPositive(fl: seq<Block>, k: int, b: Block, i: int)
    requires Sorted(fl) && Fits(fl, k, b) && 0 <= i < |Insert(fl, k, b)|
    ensures Insert(fl, k, b)[i].n > 0
  {
  }

  /** Freeing adds the units of the block and no others. */
  lemma InsertHas(fl: seq<Block>, k: int, b: Block, u: int)
    requires Sorted(fl) && Fits(fl, k, b)
    ensures Has(Insert(fl, k, b), u) <==> Has(fl, u) || In(b, u)
  {
    hide Insert, Sorted, Merged;
    var r := Insert(fl, k, b);
    var first, after := First(fl, k, b), After(fl, k, b);
    MergedUnits(fl, k, b, u);
    InsertLength(fl, k, b);
    if Has(fl, u) {
      var i :| 0 <= i < |fl| && In(fl[i], u);
      var to := if i < first then i else if i >= after then i - after + first + 1 else first;
      InsertAt(fl, k, b, to);
      assert In(r[to], u);
    }
    if In(b, u) {
      InsertAt(fl, k, b, first);
      assert In(r[first], u);
    }
    if Has(r, u) {
      var i :| 0 <= i < |r| && In(r[i], u);
      InsertAt(fl, k, b, i);
    }
  }

  lemma InsertLength(fl: seq<Block>, k: int, b: Block)
    requires 0 <= k <= |fl|
    ensures |Insert(fl, k, b)| == |fl| + 1 + First(fl, k, b) - After(fl, k, b)
  {
  }

  lemma MergedUnits(fl: seq<Block>, k: int, b: Block, u: int)
    requires Sorted(fl) && Fits(fl, k, b)
    ensures In(Merged(fl, k, b), u) <==> In(b, u) || exists i :: First(fl, k, b) <= i < After(fl, k, b) && In(fl[i], u)
  {
  }

  // ---- Taking units from a block ----

  /** The list after n units are taken from the end of block i, all or part of it. */
  function Carve(fl: seq<Block>, i: int, n: int): seq<Block>
    requires 0 <= i < |fl|
  {
    if fl[i].n == n then fl[..i] + fl[i + 1..] else fl[i := Block(fl[i].addr, fl[i].n - n)]
  }

  function Carved(fl: seq<Block>, i: int, n: int): Block
    requires 0 <= i < |fl|
  {
    Block(fl[i].addr + fl[i].n - n, n)
  }

  lemma CarveSorted(fl: seq<Block>, i: int, n: int)
    requires Sorted(fl) && 0 <= i < |fl| && 0 < n <= fl[i].n
    ensures Sorted(Carve(fl, i, n))
  {
  }

  /** Carving moves exactly the carved units out of the list. */
  lemma CarveHas(fl: seq<Block>, i: int, n: int, u: int)
    requires Sorted(fl) && 0 <= i < |fl| && 0 < n <= fl[i].n
    ensures Has(fl, u) <==> Has(Carve(fl, i, n), u) || In(Carved(fl, i, n), u)
    ensures !(Has(Carve(fl, i, n), u) && In(Carved(fl, i, n), u))
  {
    var r := Carve(fl, i, n);
    if Has(fl, u) {
      var j :| 0 <= j < |fl| && In(fl[j], u);
      if fl[i].n == n {
        assert j < i ==> r[j] == fl[j];
        assert j > i ==> r[j - 1] == fl[j];
      } else {
        assert j != i ==> r[j] == fl[j];
        assert r[i] == Block(fl[i].addr, fl[i].n - n);
      }
    }
    if Has(r, u) {
      var j :| 0 <= j < |r| && In(r[j], u);
      var from := if fl[i].n == n && j >= i then j + 1 else j;
      assert In(fl[from], u);
    }
  }
}
