/** kernel/kalloc.c as code: the free list threaded through the free pages and
    the reference count array, each method one critical section and a step of
    PagePool.  Pages are numbered by address / PGSIZE; 0 is the null pointer. */
module KAlloc {
  import opened Params
  import opened PagePool

  /** The list from `freelist` runs through the pages of `free`, in order. */
  predicate Threaded(freelist: int, link: seq<int>, first: nat, free: seq<int>) {
    && |link| > first > 0
    && freelist == (if free == [] then 0 else first + free[0])
    && (forall i | 0 <= i < |free| :: 0 <= free[i] < |link| - first)
    && (forall i | 0 <= i < |free| :: Leads(link, first, free, i))
  }

  predicate Leads(link: seq<int>, first: nat, free: seq<int>, i: int)
    requires 0 <= i < |free| && 0 <= free[i] < |link| - first
  {
    link[first + free[i]] == if i + 1 < |free| then first + free[i + 1] else 0
  }

  lemma ThreadedPop(freelist: int, link: seq<int>, first: nat, free: seq<int>)
    requires Threaded(freelist, link, first, free) && freelist != 0
    ensures free != [] && freelist == first + free[0] && first <= freelist < |link|
    ensures Threaded(link[freelist], link, first, free[1..])
  {
    var rest := free[1..];
    forall i | 0 <= i < |rest| ensures 0 <= rest[i] < |link| - first && Leads(link, first, rest, i) {
      assert Leads(link, first, free, i + 1);
    }
    assert Leads(link, first, free, 0);
  }

  lemma ThreadedPush(freelist: int, link: seq<int>, first: nat, free: seq<int>, q: int)
    requires Threaded(freelist, link, first, free) && first <= q < |link| && q - first !in free
    ensures Threaded(q, link[q := freelist], first, [q - first] + free)
  {
    var more, link' := [q - first] + free, link[q := freelist];
    forall i | 0 <= i < |more| ensures 0 <= more[i] < |link| - first && Leads(link', first, more, i) {
      if i > 0 {
        assert Leads(link, first, free, i - 1);
      }
    }
  }

  lemma EmptyList(freelist: int, link: seq<int>, first: nat, free: seq<int>)
    requires Threaded(freelist, link, first, free)
    ensures freelist == 0 <==> free == []
  {
  }

  lemma HolderHasPage(r: Ram, h: Holder)
    requires Inv(r) && h in r.holders
    ensures IsPage(r, r.holders[h])
  {
  }

  lemma CountIs(r: Ram, q: int)
    requires Inv(r) && IsPage(r, q)
    ensures r.ref[q] == |HoldersOf(r.holders, q)|
  {
  }

  class Memory {
    const first: nat
    var freelist: int
    const link: array<int>
    const refcount: array<int>
    const page: array<Frame>

    ghost var free: seq<int>
    ghost var holders: map<Holder, int>
    ghost var transit: map<Pid, Transit>

    ghost predicate Sound()
      reads this, link, refcount, page
    {
      && link.Length == refcount.Length == page.Length
      && link != refcount && Threaded(freelist, link[..], first, free)
    }

    /** The managed pages, counted from the first. */
    ghost function St(): Ram
      requires Sound()
      reads this, link, refcount, page
    {
      Ram(free, refcount[first..], page[first..], holders, transit)
    }

    /** kinit and freerange, for memory of `top` pages of which the kernel image
        takes the first ones. */
    constructor (first: nat, top: nat)
      requires 0 < first < top
      ensures Sound() && Init(St()) && Inv(St())
      ensures fresh(link) && fresh(refcount) && fresh(page) && this.first == first && link.Length == top
    {
      this.first, freelist := first, 0;
      link := new int[top](_ => 0);
      refcount := new int[top](_ => 0);
      page := new Frame[top](_ => Filled(0));
      free, holders, transit := [], map[], map[];
      new;
      for q := first to top
        modifies `freelist, `free, link, refcount, page
        invariant Sound() && |free| == q - first
        invariant forall i | 0 <= i < |free| :: free[i] == |free| - 1 - i
        invariant forall k | 0 <= k < top :: refcount[k] == 0
      {
        refcount[q] := 1;
        refcount[q] := refcount[q] - 1;
        PushRun(q);
      }
      InvInit(St());
    }

    /** Fill with junk and put on the list. */
    method PushRun(q: int)
      requires Sound() && first <= q < link.Length && q - first !in free
      modifies `freelist, `free, link, page
      ensures Sound() && free == [q - first] + old(free) && page[..] == old(page[..])[q := Filled(1)]
    {
      page[q] := Filled(1);
      link[q] := freelist;
      ThreadedPush(freelist, old(link[..]), first, free, q);
      freelist := q;
      free := [q - first] + free;
    }

    /** kalloc under kmem.lock; 0 if memory is exhausted. */
    method Pop(ghost p: Pid) returns (q: int)
      requires Sound() && Inv(St()) && p !in transit
      modifies `freelist, `free, `transit
      ensures Sound() && Inv(St())
      ensures q == 0 <==> old(free) == []
      ensures if q == 0 then St() == old(St())
              else Enabled(old(St()), Op.Pop(p)) && St() == Do(old(St()), Op.Pop(p)) && transit[p] == Popped(q - first)
    {
      hide Inv, Threaded;
      ghost var r := St();
      q := freelist;
      EmptyList(freelist, link[..], first, free);
      if q != 0 {
        ThreadedPop(freelist, link[..], first, free);
        freelist := link[q];
        free, transit := free[1..], transit[p := Popped(q - first)];
        PagePool.InvStep(r, Op.Pop(p));
      }
    }

    /** kalloc under ref.lock: the page is the caller's, with count 1.  The count
        was 0, so the unexpected case in the code does not arise. */
    method SetNew(q: int, ghost p: Pid)
      requires Sound() && Inv(St()) && p in transit && transit[p] == Popped(q - first) && Hand(p) !in holders
      modifies `holders, `transit, refcount, page
      ensures first <= q < refcount.Length && old(refcount[q]) == 0
      ensures Sound() && Inv(St()) && St() == Do(old(St()), Op.SetNew(p))
    {
      hide Unheld, Somewhere, Counts;
      ghost var r := St();
      PoppedIdle(r, p);
      page[q] := Filled(5);
      refcount[q] := 1;
      holders, transit := holders[Hand(p) := q - first], transit - {p};
      PagePool.InvStep(r, Op.SetNew(p));
    }

    /** kfree or ref_dec under ref.lock, for a holder of the page: no panic. */
    method Dec(q: int, ghost p: Pid, ghost h: Holder) returns (now: int)
      requires Sound() && Inv(St()) && p !in transit && h in holders && holders[h] == q - first
      modifies `holders, `transit, refcount
      ensures first <= q < refcount.Length && old(refcount[q]) > 0
      ensures Sound() && Inv(St()) && Enabled(old(St()), Op.Dec(p, h)) && St() == Do(old(St()), Op.Dec(p, h))
      ensures now == refcount[q] && (now == 0 ==> p in transit && transit[p] == Dropping(q - first))
    {
      hide Unheld, Somewhere;
      ghost var r := St();
      assert IsPage(r, r.holders[h]);
      assert h in HoldersOf(r.holders, q - first);
      refcount[q] := refcount[q] - 1;
      now := refcount[q];
      holders := holders - {h};
      if now <= 0 {
        transit := transit[p := Dropping(q - first)];
      }
      PagePool.InvStep(r, Op.Dec(p, h));
    }

    /** kfree or ref_dec under kmem.lock. */
    method Push(q: int, ghost p: Pid)
      requires Sound() && Inv(St()) && p in transit && transit[p] == Dropping(q - first)
      modifies `freelist, `free, `transit, link, page
      ensures Sound() && Inv(St()) && Enabled(old(St()), Op.Push(p)) && St() == Do(old(St()), Op.Push(p))
    {
      ghost var r := St();
      assert Idle(r, q - first);
      PushRun(q);
      transit := transit - {p};
      PagePool.InvStep(r, Op.Push(p));
    }

    /** ref_inc: a new holder is counted, and the pool stays in order if and only if
        somebody held the page before. */
    method RefInc(q: int, ghost h: Holder)
      requires Sound() && Inv(St()) && h !in holders && first <= q < refcount.Length
      modifies `holders, refcount
      ensures Sound() && refcount[q] == old(refcount[q]) + 1
      ensures St() == WithHolder(old(St()), h, q - first)
      ensures Inv(St()) <==> old(refcount[q]) > 0
    {
      hide Unheld, Somewhere, Counts;
      ghost var r := St();
      refcount[q] := refcount[q] + 1;
      holders := holders[h := q - first];
      if r.ref[q - first] > 0 {
        PagePool.InvStep(r, Op.Inc(h, q - first));
      } else {
        RevivedFree(r, h, q - first);
      }
    }

    /** ref_get: the number of holders. */
    method RefGet(q: int) returns (n: int)
      requires Sound() && Inv(St()) && first <= q < refcount.Length
      ensures n == |HoldersOf(holders, q - first)|
    {
      n := refcount[q];
      assert IsPage(St(), q - first);
    }

    /** kfree or ref_dec without interleaving: the last holder's release puts the
        page on the free list, any other only lowers the count. */
    method Kfree(q: int, ghost p: Pid, ghost h: Holder)
      requires Sound() && Inv(St()) && p !in transit && h in holders && holders[h] == q - first
      modifies `freelist, `free, `holders, `transit, link, refcount, page
      ensures Sound() && Inv(St()) && holders == old(holders) - {h} && transit == old(transit)
      ensures free == if |HoldersOf(old(holders), q - first)| == 1 then [q - first] + old(free) else old(free)
      ensures first <= q < page.Length
      ensures |HoldersOf(old(holders), q - first)| == 1 ==> forall i | 0 <= i < PGSIZE :: page[q][i] == 1
      ensures forall k | first <= k < page.Length && (k != q || |HoldersOf(old(holders), q - first)| != 1) :: page[k] == old(page[k])
    {
      hide Inv, Threaded, HoldersOf;
      HolderHasPage(St(), h);
      CountIs(St(), q - first);
      var now := Dec(q, p, h);
      if now > 0 {
        return;
      }
      ghost var mem := page[first..];
      Push(q, p);
      forall k | first <= k < page.Length ensures page[k] == if k == q then Filled(1) else mem[k - first] {
        assert page[first..][k - first] == page[k];
      }
    }

    /** kalloc without interleaving. */
    method Kalloc(ghost p: Pid) returns (q: int)
      requires Sound() && Inv(St()) && p !in transit && Hand(p) !in holders
      modifies `freelist, `free, `holders, `transit, refcount, page
      ensures Sound() && Inv(St()) && transit == old(transit)
      ensures if old(free) == [] then q == 0 && St() == old(St())
              else q == first + old(free)[0] && free == old(free)[1..] && holders == old(holders)[Hand(p) := q - first] &&
                   q < page.Length && forall i | 0 <= i < PGSIZE :: page[q][i] == 5
    {
      hide Inv, Threaded;
      q := Pop(p);
      if q == 0 {
        return;
      }
      SetNew(q, p);
      assert page[first..][q - first] == Filled(5);
    }
  }

  ghost function WithHolder(r: Ram, h: Holder, q: int): Ram
    requires IsPage(r, q)
  {
    r.(ref := r.ref[q := r.ref[q] + 1], holders := r.holders[h := q])
  }

  /** A page that nobody holds is on the free list or on its way there or from it, and
      stays there when ref_inc counts it. */
  lemma RevivedFree(r: Ram, h: Holder, q: int)
    requires Inv(r) && IsPage(r, q) && r.ref[q] <= 0
    ensures !Inv(WithHolder(r, h, q))
  {
    assert HoldersOf(r.holders, q) == {};
    assert Somewhere(r, q);
    forall k | k in r.holders ensures r.holders[k] != q {
      assert r.holders[k] == q ==> k in HoldersOf(r.holders, q);
    }
    var t := WithHolder(r, h, q);
    assert !Idle(t, q) by {
      assert h in t.holders && t.holders[h] == q;
    }
    if q in r.free {
      var i :| 0 <= i < |r.free| && r.free[i] == q;
      assert !Idle(t, t.free[i]);
    } else {
      var p :| p in r.transit && r.transit[p].q == q;
      assert !Idle(t, t.transit[p].q);
    }
  }

  lemma PoppedIdle(r: Ram, p: Pid)
    requires Inv(r) && p in r.transit
    ensures IsPage(r, r.transit[p].q) && r.ref[r.transit[p].q] == 0
  {
    hide Somewhere;
    assert Idle(r, r.transit[p].q);
    assert HoldersOf(r.holders, r.transit[p].q) == {};
  }
}
