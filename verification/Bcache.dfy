/** kernel/bio.c: the buffer cache as a doubly linked list of buffers in least
    recently used order, and its agreement with a plain map of blocks.

    Each method is one critical section of bcache.lock or of a buffer's sleep
    lock, so any interleaving of processes is a sequence of method calls. */
module Bcache {
  import opened Params
  import opened Lists
  import opened Blocks

  datatype Id = Id(dev: int, blockno: int)

  /** struct buf; prev and next are indices, NBUF stands for bcache.head. */
  datatype Buf = Buf(valid: bool, id: Id, locked: bool, refcnt: nat, prev: int, next: int, data: Block)

  const HEAD := NBUF

  /** binit leaves every buffer as device 0, block 0: not yet assigned. */
  predicate Assigned(b: Buf) {
    b.id.dev != 0
  }

  // ---- The list ----

  /** The i-th buffer of the list; before the first and after the last is the head. */
  function Node(order: seq<int>, i: int): (n: int)
    ensures 0 <= i < |order| && IsBuf(order[i]) ==> IsBuf(n)
  {
    if 0 <= i < |order| then order[i] else HEAD
  }

  predicate IsBuf(b: int) {
    0 <= b < NBUF
  }

  predicate Joined(bs: seq<Buf>, order: seq<int>, i: int)
    requires |bs| == NBUF + 1 && forall k | 0 <= k < |order| :: IsBuf(order[k])
  {
    bs[Node(order, i - 1)].next == Node(order, i) && bs[Node(order, i)].prev == Node(order, i - 1)
  }

  /** The links form a ring through the head and the buffers of `order`. */
  ghost predicate Linked(bs: seq<Buf>, order: seq<int>) {
    && |bs| == NBUF + 1
    && (forall k | 0 <= k < |order| :: IsBuf(order[k]))
    && (forall j, k | 0 <= j < k < |order| :: order[j] != order[k])
    && (forall i | 0 <= i <= |order| :: Joined(bs, order, i))
  }

  predicate SameLinks(x: Buf, y: Buf) {
    x.prev == y.prev && x.next == y.next
  }

  lemma LinkedSame(bs: seq<Buf>, cs: seq<Buf>, order: seq<int>)
    requires Linked(bs, order) && |cs| == |bs| && forall k | 0 <= k < |bs| :: SameLinks(cs[k], bs[k])
    ensures Linked(cs, order)
  {
    forall i | 0 <= i <= |order| ensures Joined(cs, order, i) {
      assert Joined(bs, order, i);
      assert SameLinks(cs[Node(order, i)], bs[Node(order, i)]) && SameLinks(cs[Node(order, i - 1)], bs[Node(order, i - 1)]);
    }
  }

  function SetNext(bs: seq<Buf>, a: int, b: int): seq<Buf>
    requires 0 <= a < |bs|
  {
    bs[a := bs[a].(next := b)]
  }

  function SetPrev(bs: seq<Buf>, a: int, b: int): seq<Buf>
    requires 0 <= a < |bs|
  {
    bs[a := bs[a].(prev := b)]
  }

  predicate InRange(bs: seq<Buf>, b: int) {
    |bs| == NBUF + 1 && 0 <= b <= NBUF && 0 <= bs[b].prev <= NBUF && 0 <= bs[b].next <= NBUF
  }

  /** Take b out of the list. */
  function Unlink(bs: seq<Buf>, b: int): seq<Buf>
    requires InRange(bs, b)
  {
    SetNext(SetPrev(bs, bs[b].next, bs[b].prev), bs[b].prev, bs[b].next)
  }

  /** Put b right after the head. */
  function Push(bs: seq<Buf>, b: int): seq<Buf>
    requires |bs| == NBUF + 1 && 0 <= b < NBUF && 0 <= bs[HEAD].next <= NBUF
  {
    var first := bs[HEAD].next;
    SetNext(SetPrev(SetPrev(SetNext(bs, b, first), b, HEAD), first, b), HEAD, b)
  }

  function Without(order: seq<int>, i: int): seq<int>
    requires 0 <= i < |order|
  {
    order[..i] + order[i + 1..]
  }

  lemma UnlinkLinked(bs: seq<Buf>, order: seq<int>, i: int)
    requires Linked(bs, order) && 0 <= i < |order|
    ensures InRange(bs, order[i]) && Linked(Unlink(bs, order[i]), Without(order, i)) && order[i] !in Without(order, i)
    ensures bs[order[i]].prev == Node(order, i - 1) && bs[order[i]].next == Node(order, i + 1)
  {
    assert Joined(bs, order, i) && Joined(bs, order, i + 1);
    WithoutOrder(order, i);
    forall k | 0 <= k < |order| ensures Joined(Unlink(bs, order[i]), Without(order, i), k) {
      UnlinkJoined(bs, order, i, k);
    }
  }

  lemma UnlinkJoined(bs: seq<Buf>, order: seq<int>, i: int, k: int)
    requires Linked(bs, order) && 0 <= i < |order| && 0 <= k < |order|
    ensures InRange(bs, order[i]) && |Unlink(bs, order[i])| == NBUF + 1
    ensures (forall j | 0 <= j < |Without(order, i)| :: IsBuf(Without(order, i)[j])) && Joined(Unlink(bs, order[i]), Without(order, i), k)
  {
    hide Without;
    WithoutOrder(order, i);
    NodeWithout(order, i, k);
    NodeWithout(order, i, k - 1);
    assert Joined(bs, order, i) && Joined(bs, order, i + 1);
    assert Joined(bs, order, if k <= i then k else k + 1);
  }

  lemma NodeWithout(order: seq<int>, i: int, k: int)
    requires 0 <= i < |order| && -1 <= k < |order|
    ensures Node(Without(order, i), k) == Node(order, if k < i then k else k + 1)
  {
  }

  lemma WithoutOrder(order: seq<int>, i: int)
    requires 0 <= i < |order| && (forall k | 0 <= k < |order| :: IsBuf(order[k]))
    requires forall j, k | 0 <= j < k < |order| :: order[j] != order[k]
    ensures var rest := Without(order, i);
            && |rest| == |order| - 1 && order[i] !in rest && (forall k | 0 <= k < |rest| :: IsBuf(rest[k]))
            && (forall j, k | 0 <= j < k < |rest| :: rest[j] != rest[k])
  {
  }

  lemma AtFront(bs: seq<Buf>, order: seq<int>)
    requires Linked(bs, order) && order != []
    ensures IsBuf(order[0]) && bs[HEAD].next == order[0] && bs[order[0]].prev == HEAD
  {
    assert Joined(bs, order, 0);
  }

  lemma PushLinked(bs: seq<Buf>, order: seq<int>, b: int)
    requires Linked(bs, order) && IsBuf(b) && b !in order
    ensures 0 <= bs[HEAD].next <= NBUF && Linked(Push(bs, b), [b] + order)
  {
    assert Joined(bs, order, 0);
    var more, cs := [b] + order, Push(bs, b);
    forall k | 0 <= k <= |more| ensures Joined(cs, more, k) {
      if k >= 2 {
        assert Joined(bs, order, k - 1);
      }
    }
  }

  // ---- Agreement with the disk ----

  /** The cache and the disk.  `uses` counts processes between bget and brelse and
      `pins` calls of bpin not yet undone; `view` is the latest contents stored to
      each block.  The last three are history. */
  datatype Cache = Cache(
    bs: seq<Buf>,
    disk: map<Id, Block>,
    order: seq<int>,
    uses: seq<nat>,
    pins: seq<nat>,
    view: map<Id, Block>)

  datatype Action =
    | Reuse(b: int)               // bget finds the block
    | Recycle(b: int, id: Id)     // bget takes a free buffer
    | Lock(b: int)                // acquiresleep in bget
    | Fill(b: int)                // bread
    | Store(b: int, data: Block)  // the holder changes the data
    | Write(b: int)               // bwrite
    | Unlock(b: int)              // releasesleep in brelse
    | Drop(b: int)                // the rest of brelse
    | Pin(b: int)
    | Unpin(b: int)

  predicate Shaped(c: Cache) {
    |c.bs| == NBUF + 1 && |c.uses| == |c.pins| == |c.order| == NBUF && c.view.Keys == c.disk.Keys
  }

  predicate Holds(c: Cache, b: int)
    requires Shaped(c)
  {
    IsBuf(b) && c.bs[b].locked && Assigned(c.bs[b]) && c.bs[b].id in c.disk
  }

  /** The disk has what the buffer holds. */
  predicate Written(c: Cache, b: int)
    requires Shaped(c) && IsBuf(b)
  {
    c.bs[b].valid && c.bs[b].id in c.disk ==> c.bs[b].data == c.disk[c.bs[b].id]
  }

  /** What the code checks, and what its clients keep to: only the holder of a
      buffer changes it, and a change is written or pinned before release. */
  ghost predicate Enabled(c: Cache, a: Action)
    requires Shaped(c)
  {
    IsBuf(a.b) &&
    match a
    case Reuse(b) => Assigned(c.bs[b])
    case Recycle(b, id) => c.bs[b].refcnt == 0 && id.dev != 0 && id in c.disk && forall k | IsBuf(k) :: c.bs[k].id != id
    case Lock(b) => c.uses[b] > 0 && !c.bs[b].locked
    case Fill(b) => Holds(c, b) && !c.bs[b].valid
    case Store(b, _) => Holds(c, b) && c.bs[b].valid
    case Write(b) => Holds(c, b) && c.bs[b].valid
    case Unlock(b) => Holds(c, b) && (c.pins[b] == 0 ==> Written(c, b))
    case Drop(b) => c.uses[b] > (if c.bs[b].locked then 1 else 0) && c.bs[b].refcnt > 0 && InRange(c.bs, b) && b in c.order
    case Pin(b) => Assigned(c.bs[b])
    case Unpin(b) => c.pins[b] > 0 && c.bs[b].refcnt > 0 && (c.pins[b] == 1 ==> c.bs[b].locked || Written(c, b))
  }

  function IndexOf(order: seq<int>, b: int): (i: int)
    requires b in order
    ensures 0 <= i < |order| && order[i] == b
  {
    if order[0] == b then 0 else 1 + IndexOf(order[1..], b)
  }

  function Release(x: Buf): Buf {
    x.(refcnt := if x.refcnt > 0 then x.refcnt - 1 else 0)
  }

  ghost function Do(c: Cache, a: Action): Cache
    requires Shaped(c) && Enabled(c, a)
  {
    var x := c.bs[a.b];
    match a
    case Reuse(b) => c.(bs := c.bs[b := x.(refcnt := x.refcnt + 1)], uses := c.uses[b := c.uses[b] + 1])
    case Recycle(b, id) => c.(bs := c.bs[b := x.(id := id, valid := false, refcnt := 1)], uses := c.uses[b := c.uses[b] + 1])
    case Lock(b) => c.(bs := c.bs[b := x.(locked := true)])
    case Fill(b) => c.(bs := c.bs[b := x.(data := c.disk[x.id], valid := true)])
    case Store(b, data) => c.(bs := c.bs[b := x.(data := data)], view := c.view[x.id := data])
    case Write(b) => c.(disk := c.disk[x.id := x.data])
    case Unlock(b) => c.(bs := c.bs[b := x.(locked := false)])
    case Drop(b) =>
      var d := c.(bs := c.bs[b := Release(x)], uses := c.uses[b := c.uses[b] - 1]);
      if d.bs[b].refcnt == 0 then ToFront(d, b) else d
    case Pin(b) => c.(bs := c.bs[b := x.(refcnt := x.refcnt + 1)], pins := c.pins[b := c.pins[b] + 1])
    case Unpin(b) => c.(bs := c.bs[b := Release(x)], pins := c.pins[b := c.pins[b] - 1])
  }

  /** A buffer nobody refers to becomes the most recently used. */
  ghost function ToFront(c: Cache, b: int): Cache
    requires InRange(c.bs, b) && IsBuf(b) && b in c.order
  {
    var bs := Unlink(c.bs, b);
    if 0 <= bs[HEAD].next <= NBUF then c.(bs := Push(bs, b), order := [b] + Without(c.order, IndexOf(c.order, b))) else c
  }

  // ---- The invariant ----

  /** At most one buffer is assigned to a block. */
  ghost predicate Unique(bs: seq<Buf>)
    requires |bs| == NBUF + 1
  {
    forall j, k | IsBuf(j) && IsBuf(k) && Assigned(bs[j]) && bs[j].id == bs[k].id :: j == k
  }

  predicate Caches(b: Buf, id: Id) {
    b.id == id && b.valid
  }

  /** One buffer: its count is accounted for, valid contents are the latest, and
      contents the disk does not have are locked or pinned. */
  predicate Good(c: Cache, k: int)
    requires Shaped(c) && IsBuf(k)
  {
    var x := c.bs[k];
    && x.refcnt == c.uses[k] + c.pins[k]
    && (x.locked ==> c.uses[k] > 0)
    && (if Assigned(x) then
          && x.id in c.disk
          && (x.valid ==> x.data == c.view[x.id] && (x.locked || c.pins[k] > 0 || x.data == c.disk[x.id]))
        else x.refcnt == 0 && !x.valid)
  }

  ghost predicate Cached(bs: seq<Buf>, id: Id)
    requires |bs| == NBUF + 1
  {
    exists k :: IsBuf(k) && Caches(bs[k], id)
  }

  /** The latest contents of a block that no valid buffer holds are on disk. */
  ghost predicate DiskCurrent(c: Cache)
    requires Shaped(c)
  {
    forall id | id in c.disk && !Cached(c.bs, id) :: c.view[id] == c.disk[id]
  }

  ghost predicate Inv(c: Cache) {
    Shaped(c) && Linked(c.bs, c.order) && Unique(c.bs) && (forall k | IsBuf(k) :: Good(c, k)) && DiskCurrent(c)
  }

  // ---- Every step keeps it ----

  predicate SameButLinks(x: Buf, y: Buf) {
    x.(prev := 0, next := 0) == y.(prev := 0, next := 0)
  }

  lemma UnlinkFrame(bs: seq<Buf>, b: int, k: int)
    requires InRange(bs, b) && 0 <= k <= NBUF
    ensures |Unlink(bs, b)| == |bs| && SameButLinks(Unlink(bs, b)[k], bs[k])
  {
  }

  lemma PushFrame(bs: seq<Buf>, b: int, k: int)
    requires |bs| == NBUF + 1 && 0 <= b < NBUF && 0 <= bs[HEAD].next <= NBUF && 0 <= k <= NBUF
    ensures |Push(bs, b)| == |bs| && SameButLinks(Push(bs, b)[k], bs[k])
  {
  }

  /** Moving to the front is a change of links only, and of order by a permutation. */
  lemma ToFrontLinked(c: Cache, b: int)
    requires Shaped(c) && Linked(c.bs, c.order) && IsBuf(b) && b in c.order && InRange(c.bs, b)
    ensures var d := ToFront(c, b);
            && d == c.(bs := d.bs, order := [b] + Without(c.order, IndexOf(c.order, b)))
            && |d.order| == NBUF && |d.bs| == NBUF + 1 && Linked(d.bs, d.order)
            && forall k | 0 <= k <= NBUF :: SameButLinks(d.bs[k], c.bs[k])
  {
    hide Linked, Unlink, Push, IndexOf;
    var i, bs := IndexOf(c.order, b), Unlink(c.bs, b);
    UnlinkLinked(c.bs, c.order, i);
    UnlinkFrame(c.bs, b, b);
    PushLinked(bs, Without(c.order, i), b);
    PushFrame(bs, b, b);
    forall k | 0 <= k <= NBUF ensures SameButLinks(Push(bs, b)[k], c.bs[k]) {
      UnlinkFrame(c.bs, b, k);
      PushFrame(bs, b, k);
    }
  }

  /** What a step does to the buffers, links aside: at most its own buffer changes. */
  lemma StepShape(c: Cache, a: Action)
    requires Inv(c) && Enabled(c, a)
    ensures var d := Do(c, a); Shaped(d) && Linked(d.bs, d.order) && forall k | 0 <= k <= NBUF && k != a.b :: SameButLinks(d.bs[k], c.bs[k])
    ensures a.Drop? ==> SameButLinks(Do(c, a).bs[a.b], Release(c.bs[a.b]))
  {
    hide Linked, ToFront, Good, DiskCurrent, Unique;
    var d := Do(c, a);
    if a.Drop? {
      var e := c.(bs := c.bs[a.b := Release(c.bs[a.b])], uses := c.uses[a.b := c.uses[a.b] - 1]);
      LinkedSame(c.bs, e.bs, c.order);
      if e.bs[a.b].refcnt == 0 {
        ToFrontLinked(e, a.b);
        assert SameButLinks(d.bs[a.b], e.bs[a.b]);
        forall k | 0 <= k <= NBUF && k != a.b ensures SameButLinks(d.bs[k], c.bs[k]) {
          assert SameButLinks(d.bs[k], e.bs[k]);
        }
      }
    } else {
      LinkedSame(c.bs, d.bs, c.order);
    }
  }

  lemma UniqueStep(c: Cache, a: Action)
    requires Inv(c) && Enabled(c, a)
    ensures Shaped(Do(c, a)) && Unique(Do(c, a).bs)
  {
    hide Linked, ToFront, Good, DiskCurrent;
    StepShape(c, a);
    var d := Do(c, a);
    forall k | IsBuf(k) ensures if a.Recycle? && k == a.b then d.bs[k].id == a.id else d.bs[k].id == c.bs[k].id {
      assert k != a.b ==> SameButLinks(d.bs[k], c.bs[k]);
    }
  }

  lemma FillFromDisk(c: Cache, b: int)
    requires Inv(c) && Enabled(c, Fill(b))
    ensures c.view[c.bs[b].id] == c.disk[c.bs[b].id]
  {
  }

  lemma GoodStep(c: Cache, a: Action, k: int)
    requires Inv(c) && Enabled(c, a) && IsBuf(k)
    ensures Shaped(Do(c, a)) && Good(Do(c, a), k)
  {
    hide Linked, ToFront, DiskCurrent;
    StepShape(c, a);
    var d := Do(c, a);
    assert Good(c, k) && Good(c, a.b);
    if a.Drop? {
      DropFrame(c, a.b);
    } else if a.Fill? {
      FillFromDisk(c, a.b);
    }
    if k != a.b {
      assert SameButLinks(d.bs[k], c.bs[k]);
      assert c.bs[k].id != c.bs[a.b].id || !Assigned(c.bs[k]);
    }
  }

  lemma DropFrame(c: Cache, b: int)
    requires Shaped(c) && Enabled(c, Drop(b))
    ensures var d := Do(c, Drop(b)); d == c.(bs := d.bs, order := d.order, uses := c.uses[b := c.uses[b] - 1])
  {
  }

  lemma CurrentStep(c: Cache, a: Action, id: Id)
    requires Inv(c) && Enabled(c, a) && Shaped(Do(c, a)) && id in Do(c, a).disk && !Cached(Do(c, a).bs, id)
    ensures Do(c, a).view[id] == Do(c, a).disk[id]
  {
    hide Linked, ToFront, Unique;
    StepShape(c, a);
    if a.Drop? {
      DropFrame(c, a.b);
    }
    var d := Do(c, a);
    assert Good(c, a.b);
    forall k | IsBuf(k) && k != a.b ensures Caches(d.bs[k], id) == Caches(c.bs[k], id) {
      assert SameButLinks(d.bs[k], c.bs[k]);
    }
    if Cached(c.bs, id) {
      var k :| IsBuf(k) && Caches(c.bs[k], id);
    } else {
      assert !Caches(c.bs[a.b], id) && !Caches(d.bs[a.b], id);
    }
  }

  lemma InvStep(c: Cache, a: Action)
    requires Inv(c) && Enabled(c, a)
    ensures Inv(Do(c, a))
  {
    hide Linked, Do, Enabled, Unique, Good;
    StepShape(c, a);
    UniqueStep(c, a);
    forall k | IsBuf(k) ensures Good(Do(c, a), k) {
      GoodStep(c, a, k);
    }
    forall id | id in Do(c, a).disk && !Cached(Do(c, a).bs, id) ensures Do(c, a).view[id] == Do(c, a).disk[id] {
      CurrentStep(c, a, id);
    }
  }

  // ---- Whole runs against a plain map of blocks ----

  predicate Fresh(x: Buf) {
    !x.valid && x.id == Id(0, 0) && !x.locked && x.refcnt == 0
  }

  /** After binit. */
  ghost predicate Init(c: Cache) {
    && Shaped(c) && Linked(c.bs, c.order) && c.view == c.disk
    && (forall k | IsBuf(k) :: Fresh(c.bs[k]) && c.uses[k] == 0 && c.pins[k] == 0)
  }

  ghost predicate ValidRun(cs: seq<Cache>, acts: seq<Action>) {
    && |cs| == |acts| + 1 && Init(cs[0])
    && (forall i | 0 <= i < |acts| :: Shaped(cs[i]) && Enabled(cs[i], acts[i]) && cs[i + 1] == Do(cs[i], acts[i]))
  }

  lemma {:induction false} RunInv(cs: seq<Cache>, acts: seq<Action>, n: nat)
    requires ValidRun(cs, acts) && n <= |acts|
    ensures Inv(cs[n])
  {
    hide Do, Enabled, Good, Unique, Linked;
    if n == 0 {
      InitInv(cs[0]);
    } else {
      RunInv(cs, acts, n - 1);
      InvStep(cs[n - 1], acts[n - 1]);
    }
  }

  lemma InitInv(c: Cache)
    requires Init(c)
    ensures Inv(c)
  {
  }

  /** The blocks as a plain map: what the stores of a run's first n steps make of the disk. */
  ghost function Stores(cs: seq<Cache>, acts: seq<Action>, n: nat): map<Id, Block>
    requires ValidRun(cs, acts) && n <= |acts|
  {
    if n == 0 then cs[0].disk
    else
      var m := Stores(cs, acts, n - 1);
      var a := acts[n - 1];
      if a.Store? then m[cs[n - 1].bs[a.b].id := a.data] else m
  }

  lemma {:induction false} StoresAreView(cs: seq<Cache>, acts: seq<Action>, n: nat)
    requires ValidRun(cs, acts) && n <= |acts|
    ensures cs[n].view == Stores(cs, acts, n)
  {
    hide Do, Enabled, Init;
    if n == 0 {
      InitView(cs[0]);
    } else {
      StoresAreView(cs, acts, n - 1);
      StepView(cs[n - 1], acts[n - 1]);
    }
  }

  lemma InitView(c: Cache)
    requires Init(c)
    ensures c.view == c.disk
  {
  }

  /** Only a store changes what a block should hold. */
  lemma StepView(c: Cache, a: Action)
    requires Shaped(c) && Enabled(c, a)
    ensures Do(c, a).view == if a.Store? then c.view[c.bs[a.b].id := a.data] else c.view
  {
    if a.Drop? {
      DropFrame(c, a.b);
    }
  }

  /** In every run: a valid buffer holds the latest contents of its block; once
      nobody refers to it the disk has them too; no block is in two buffers. */
  lemma CacheAgrees(cs: seq<Cache>, acts: seq<Action>, n: nat, b: int)
    requires ValidRun(cs, acts) && n <= |acts| && IsBuf(b)
    ensures |cs[n].bs| == NBUF + 1
    ensures var x := cs[n].bs[b];
            Assigned(x) && x.valid ==>
              && x.id in Stores(cs, acts, n) && x.data == Stores(cs, acts, n)[x.id]
              && (x.refcnt == 0 ==> x.id in cs[n].disk && x.data == cs[n].disk[x.id])
    ensures forall k | IsBuf(k) && Assigned(cs[n].bs[b]) && cs[n].bs[k].id == cs[n].bs[b].id :: k == b
  {
    hide Do, Enabled, Init, Stores, Linked, DiskCurrent;
    RunInv(cs, acts, n);
    StoresAreView(cs, acts, n);
    assert Good(cs[n], b);
  }

  /** With no buffer locked or pinned, every store has reached the disk. */
  lemma QuietDiskHasAll(cs: seq<Cache>, acts: seq<Action>, n: nat)
    requires ValidRun(cs, acts) && n <= |acts|
    requires Shaped(cs[n]) && forall k | IsBuf(k) :: !cs[n].bs[k].locked && cs[n].pins[k] == 0
    ensures cs[n].disk == Stores(cs, acts, n)
  {
    hide Do, Enabled, Init, Stores, Linked, Unique;
    RunInv(cs, acts, n);
    StoresAreView(cs, acts, n);
    var c := cs[n];
    forall id | id in c.disk ensures c.disk[id] == c.view[id] {
      if Cached(c.bs, id) {
        var k :| IsBuf(k) && Caches(c.bs[k], id);
        assert Good(c, k);
      }
    }
  }

  // ---- The code ----

  /** b is free, and everything less recently used is not. */
  ghost predicate Oldest(c: Cache, b: int)
    requires Shaped(c)
  {
    exists i :: 0 <= i < NBUF && OldestAt(c, b, i)
  }

  predicate OldestAt(c: Cache, b: int, i: int)
    requires Shaped(c) && 0 <= i < NBUF
  {
    && c.order[i] == b && IsBuf(b) && c.bs[b].refcnt == 0
    && forall j | i < j < NBUF && IsBuf(c.order[j]) :: c.bs[c.order[j]].refcnt > 0
  }

  // ---- One holder at a time ----

  lemma LockStep(c: Cache, a: Action, b: int)
    requires Inv(c) && Enabled(c, a) && IsBuf(b)
    ensures Shaped(Do(c, a)) && Do(c, a).bs[b].locked == (if a == Lock(b) then true else if a == Unlock(b) then false else c.bs[b].locked)
    ensures a == Lock(b) ==> !c.bs[b].locked
  {
    hide Linked, ToFront, Good, DiskCurrent, Unique;
    StepShape(c, a);
    if a.b != b {
      assert SameButLinks(Do(c, a).bs[b], c.bs[b]);
    }
  }

  lemma {:induction false} StaysLocked(cs: seq<Cache>, acts: seq<Action>, i: nat, j: nat, b: int)
    requires ValidRun(cs, acts) && i < j <= |acts| && acts[i] == Lock(b) && IsBuf(b) && forall k | i < k < j :: acts[k] != Unlock(b)
    ensures Shaped(cs[j]) && cs[j].bs[b].locked
    decreases j - i
  {
    hide Do, Enabled, Init, Inv;
    RunInv(cs, acts, j - 1);
    LockStep(cs[j - 1], acts[j - 1], b);
    if i < j - 1 {
      StaysLocked(cs, acts, i, j - 1, b);
    }
  }

  /** In every run, between two acquisitions of a buffer's sleep lock it is released. */
  lemma OneHolder(cs: seq<Cache>, acts: seq<Action>, i: nat, j: nat, b: int)
    requires ValidRun(cs, acts) && i < j < |acts| && acts[i] == acts[j] == Lock(b)
    ensures exists k :: i < k < j && acts[k] == Unlock(b)
  {
    assert Enabled(cs[i], Lock(b)) && Enabled(cs[j], Lock(b));
    hide Do, Init, Inv;
    if forall k | i < k < j :: acts[k] != Unlock(b) {
      StaysLocked(cs, acts, i, j, b);
    }
  }

  // ---- Least recently used ----

  /** The number of steps at which the last release freed buffer b; 0 if none has. */
  ghost function LastFreed(cs: seq<Cache>, acts: seq<Action>, n: nat, b: int): (t: nat)
    requires ValidRun(cs, acts) && n <= |acts|
    ensures t <= n
  {
    if n == 0 then 0
    else if acts[n - 1] == Drop(b) && cs[n - 1].bs[b].refcnt == 1 then n
    else LastFreed(cs, acts, n - 1, b)
  }

  /** The list is in the order of the releases that freed its buffers, the last first. */
  lemma {:induction false} OrderOfRelease(cs: seq<Cache>, acts: seq<Action>, n: nat, i: int, j: int)
    requires ValidRun(cs, acts) && n <= |acts| && 0 <= i < j < NBUF
    ensures |cs[n].order| == NBUF
    ensures var x, y := LastFreed(cs, acts, n, cs[n].order[i]), LastFreed(cs, acts, n, cs[n].order[j]); x > y || x == y == 0
  {
    hide Do, Enabled, Init, Inv, IndexOf, Without;
    RunInv(cs, acts, n);
    InvShaped(cs[n]);
    if n > 0 {
      RunInv(cs, acts, n - 1);
      var c, a := cs[n - 1], acts[n - 1];
      OrderStep(c, a);
      if a.Drop? && c.bs[a.b].refcnt == 1 {
        var k := IndexOf(c.order, a.b);
        OrderDistinct(c);
        FrontAt(c.order, k, i);
        FrontAt(c.order, k, j);
        if i > 0 {
          OrderOfRelease(cs, acts, n - 1, if i <= k then i - 1 else i, if j <= k then j - 1 else j);
        }
      } else {
        OrderOfRelease(cs, acts, n - 1, i, j);
      }
    }
  }

  lemma FrontAt(order: seq<int>, k: int, i: int)
    requires 0 <= k < |order| && 0 <= i < |order|
    ensures |Without(order, k)| == |order| - 1
    ensures ([order[k]] + Without(order, k))[i] == if i == 0 then order[k] else if i <= k then order[i - 1] else order[i]
  {
  }

  lemma OrderDistinct(c: Cache)
    requires Inv(c)
    ensures forall j, k | 0 <= j < k < |c.order| :: c.order[j] != c.order[k]
  {
  }

  /** Only a release that frees its buffer changes the order. */
  lemma OrderStep(c: Cache, a: Action)
    requires Inv(c) && Enabled(c, a)
    ensures IsBuf(a.b)
    ensures a.Drop? && c.bs[a.b].refcnt == 1 ==> a.b in c.order && Do(c, a).order == [a.b] + Without(c.order, IndexOf(c.order, a.b))
    ensures !(a.Drop? && c.bs[a.b].refcnt == 1) ==> Do(c, a).order == c.order
  {
    hide Linked, ToFront, Good, DiskCurrent, Unique, IndexOf;
    if a.Drop? {
      var e := c.(bs := c.bs[a.b := Release(c.bs[a.b])], uses := c.uses[a.b := c.uses[a.b] - 1]);
      LinkedSame(c.bs, e.bs, c.order);
      if e.bs[a.b].refcnt == 0 {
        ToFrontLinked(e, a.b);
      }
    }
  }

  /** The buffer bget recycles is the free one whose release was the longest ago. */
  lemma RecyclesLru(cs: seq<Cache>, acts: seq<Action>, n: nat, b: int, k: int)
    requires ValidRun(cs, acts) && n <= |acts| && Shaped(cs[n]) && Oldest(cs[n], b)
    requires IsBuf(k) && k != b && cs[n].bs[k].refcnt == 0
    ensures var x, y := LastFreed(cs, acts, n, k), LastFreed(cs, acts, n, b); x > y || x == y == 0
  {
    hide Do, Enabled, Init, LastFreed, Good, DiskCurrent, Unique;
    RunInv(cs, acts, n);
    var i :| 0 <= i < NBUF && OldestAt(cs[n], b, i);
    OrderHasAll(cs[n].order, k);
    var j :| 0 <= j < NBUF && cs[n].order[j] == k;
    OrderOfRelease(cs, acts, n, j, i);
  }

  /** The list has every buffer. */
  lemma OrderHasAll(order: seq<int>, b: int)
    requires |order| == NBUF && IsBuf(b) && forall k | 0 <= k < |order| :: IsBuf(order[k])
    requires forall j, k | 0 <= j < k < |order| :: order[j] != order[k]
    ensures exists i :: 0 <= i < NBUF && order[i] == b
  {
    AllListed(order, NBUF, b);
  }

  class BufferCache {
    const buf: array<Buf>
    var disk: map<Id, Block>
    ghost var order: seq<int>
    ghost var uses: seq<nat>
    ghost var pins: seq<nat>
    ghost var view: map<Id, Block>

    ghost function St(): Cache
      reads this, buf
    {
      Cache(buf[..], disk, order, uses, pins, view)
    }

    /** binit. */
    constructor (disk: map<Id, Block>)
      ensures Init(St()) && fresh(buf) && this.disk == disk
    {
      buf := new Buf[NBUF + 1](_ => Buf(false, Id(0, 0), false, 0, HEAD, HEAD, ZeroBlock()));
      this.disk, view := disk, disk;
      order := [];
      uses, pins := seq(NBUF, _ => 0), seq(NBUF, _ => 0);
      new;
      for b := 0 to NBUF
        modifies buf, `order
        invariant Linked(buf[..], order) && |order| == b && forall k | 0 <= k < |order| :: order[k] < b
        invariant forall k | 0 <= k <= NBUF :: Fresh(buf[k])
      {
        ghost var bs := buf[..];
        PushLinked(bs, order, b);
        buf[b] := buf[b].(next := buf[HEAD].next);
        buf[b] := buf[b].(prev := HEAD);
        buf[buf[HEAD].next] := buf[buf[HEAD].next].(prev := b);
        buf[HEAD] := buf[HEAD].(next := b);
        order := [b] + order;
        assert buf[..] == Push(bs, b);
      }
    }

    /** The first part of bget, under bcache.lock: the block's buffer if it is
        cached, else the least recently used free buffer, now assigned to it;
        -1 where bget panics, which is when neither exists. */
    method Bget(id: Id) returns (b: int)
      requires Inv(St()) && id in disk && id.dev != 0
      modifies buf, `uses
      ensures Inv(St())
      ensures b == -1 ==> St() == old(St()) && forall k | IsBuf(k) :: buf[k].id != id && buf[k].refcnt > 0
      ensures b != -1 ==> IsBuf(b) && if old(buf[b].id) == id
                then Enabled(old(St()), Reuse(b)) && St() == Do(old(St()), Reuse(b))
                else Enabled(old(St()), Recycle(b, id)) && St() == Do(old(St()), Recycle(b, id)) && Oldest(old(St()), b)
      ensures b != -1 && old(buf[b].id) == id ==> buf[..] == old(buf[..])[b := old(buf[b]).(refcnt := old(buf[b].refcnt) + 1)]
      ensures b != -1 && old(buf[b].id) != id ==>
                && (forall k | IsBuf(k) :: old(buf[k].id) != id) && old(buf[b].refcnt) == 0
                && buf[..] == old(buf[..])[b := old(buf[b]).(id := id, valid := false, refcnt := 1)]
    {
      hide Linked, Unique, Good, DiskCurrent;
      ghost var c := St();
      b := Find(id);
      if b != HEAD {
        buf[b] := buf[b].(refcnt := buf[b].refcnt + 1);
        uses := uses[b := uses[b] + 1];
        InvStep(c, Reuse(b));
        return;
      }
      b := FindFree();
      if b == HEAD {
        return -1;
      }
      buf[b] := buf[b].(id := id, valid := false, refcnt := 1);
      uses := uses[b := uses[b] + 1];
      InvStep(c, Recycle(b, id));
    }

    /** Scan from the most recently used: a buffer of this block, or HEAD. */
    method Find(id: Id) returns (b: int)
      requires Inv(St())
      ensures b == HEAD || (IsBuf(b) && buf[b].id == id)
      ensures b == HEAD ==> forall k | IsBuf(k) :: buf[k].id != id
    {
      hide Unique, Good, DiskCurrent;
      ghost var i := 0;
      assert Joined(buf[..], order, 0);
      b := buf[HEAD].next;
      while b != HEAD
        invariant 0 <= i <= NBUF && b == Node(order, i)
        invariant forall j | 0 <= j < i :: buf[order[j]].id != id
        decreases NBUF - i
      {
        if buf[b].id == id {
          return;
        }
        assert Joined(buf[..], order, i + 1);
        b, i := buf[b].next, i + 1;
      }
      forall k | IsBuf(k) ensures buf[k].id != id {
        OrderHasAll(order, k);
      }
    }

    /** Scan from the least recently used: the first free buffer, or HEAD. */
    method FindFree() returns (b: int)
      requires Inv(St())
      ensures b == HEAD || (IsBuf(b) && Oldest(St(), b) && buf[b].refcnt == 0)
      ensures b == HEAD ==> forall k | IsBuf(k) :: buf[k].refcnt > 0
    {
      hide Unique, Good, DiskCurrent;
      ghost var i := NBUF - 1;
      assert Joined(buf[..], order, NBUF);
      b := buf[HEAD].prev;
      while b != HEAD
        invariant -1 <= i < NBUF && b == Node(order, i)
        invariant forall j | i < j < NBUF :: buf[order[j]].refcnt > 0
        decreases i
      {
        if buf[b].refcnt == 0 {
          assert OldestAt(St(), b, i);
          return;
        }
        assert Joined(buf[..], order, i);
        b, i := buf[b].prev, i - 1;
      }
      forall k | IsBuf(k) ensures buf[k].refcnt > 0 {
        OrderHasAll(order, k);
      }
    }

    /** The rest of bread, with the buffer locked: its contents are the latest. */
    method Bread(b: int)
      requires Inv(St()) && Holds(St(), b)
      modifies buf
      ensures Inv(St()) && buf[b].valid && buf[b].data == view[buf[b].id]
      ensures if old(buf[b].valid) then St() == old(St()) else St() == Do(old(St()), Fill(b))
      ensures buf[..] == old(buf[..])[b := old(buf[b]).(valid := true, data := if old(buf[b].valid) then old(buf[b].data) else disk[buf[b].id])]
    {
      hide Linked, Unique, DiskCurrent;
      ghost var c := St();
      if !buf[b].valid {
        buf[b] := buf[b].(data := disk[buf[b].id], valid := true);
        InvStep(c, Fill(b));
      }
      assert Good(St(), b);
    }

    /** bwrite. */
    method Bwrite(b: int)
      requires Inv(St()) && Holds(St(), b) && buf[b].valid
      modifies `disk
      ensures Inv(St()) && St() == Do(old(St()), Write(b)) && disk == old(disk)[buf[b].id := buf[b].data]
    {
      hide Inv;
      ghost var c := St();
      InvShaped(c);
      disk := disk[buf[b].id := buf[b].data];
      InvStep(c, Write(b));
    }

    /** The rest of brelse, after releasesleep. */
    method Brelse(b: int)
      requires Inv(St()) && IsBuf(b) && uses[b] > (if buf[b].locked then 1 else 0)
      modifies buf, `uses, `order
      ensures Enabled(old(St()), Drop(b)) && Inv(St()) && St() == Do(old(St()), Drop(b))
      ensures buf[b].refcnt == old(buf[b].refcnt) - 1
      ensures buf[b].refcnt > 0 ==> order == old(order) && buf[..] == old(buf[..])[b := old(buf[b]).(refcnt := buf[b].refcnt)]
      ensures buf[b].refcnt == 0 ==> order != [] && order[0] == b == buf[HEAD].next && buf[b].prev == HEAD
      ensures forall k | 0 <= k <= NBUF :: buf[k].(prev := 0, next := 0) == old(buf[k]).(prev := 0, next := 0, refcnt := buf[k].refcnt)
      ensures forall k | 0 <= k <= NBUF && k != b :: buf[k].refcnt == old(buf[k].refcnt)
    {
      hide Linked, Unique, DiskCurrent, ToFront, Good;
      ghost var c := St();
      CanDrop(c, b);
      buf[b] := buf[b].(refcnt := buf[b].refcnt - 1);
      uses := uses[b := uses[b] - 1];
      if buf[b].refcnt == 0 {
        LinkedSame(c.bs, buf[..], order);
        MoveToFront(b);
      }
      InvStep(c, Drop(b));
    }

    method MoveToFront(b: int)
      requires Shaped(St()) && Linked(buf[..], order) && IsBuf(b) && b in order && InRange(buf[..], b)
      modifies buf, `order
      ensures St() == ToFront(old(St()), b) && order != [] && order[0] == b == buf[HEAD].next && buf[b].prev == HEAD
      ensures forall k | 0 <= k <= NBUF :: buf[k].(prev := 0, next := 0) == old(buf[k]).(prev := 0, next := 0)
    {
      hide Linked, IndexOf;
      ghost var c := St();
      ghost var i := IndexOf(order, b);
      UnlinkLinked(c.bs, order, i);
      Unsplice(b);
      PushLinked(Unlink(c.bs, b), Without(order, i), b);
      Insert(b);
      order := [b] + Without(order, i);
      ToFrontLinked(c, b);
      AtFront(buf[..], order);
      assert forall k | 0 <= k <= NBUF :: SameButLinks(buf[..][k], c.bs[k]);
    }

    method Unsplice(b: int)
      requires buf.Length == NBUF + 1 && InRange(buf[..], b)
      requires buf[b].prev != b && buf[b].next != b
      modifies buf
      ensures buf[..] == Unlink(old(buf[..]), b)
    {
      buf[buf[b].next] := buf[buf[b].next].(prev := buf[b].prev);
      buf[buf[b].prev] := buf[buf[b].prev].(next := buf[b].next);
    }

    method Insert(b: int)
      requires buf.Length == NBUF + 1 && IsBuf(b) && 0 <= buf[HEAD].next <= NBUF
      modifies buf
      ensures buf[..] == Push(old(buf[..]), b)
    {
      buf[b] := buf[b].(next := buf[HEAD].next);
      buf[b] := buf[b].(prev := HEAD);
      buf[buf[HEAD].next] := buf[buf[HEAD].next].(prev := b);
      buf[HEAD] := buf[HEAD].(next := b);
    }

    /** bpin. */
    method Bpin(b: int)
      requires Inv(St()) && IsBuf(b) && Assigned(buf[b])
      modifies buf, `pins
      ensures Inv(St()) && St() == Do(old(St()), Pin(b))
      ensures buf[..] == old(buf[..])[b := old(buf[b]).(refcnt := old(buf[b].refcnt) + 1)]
    {
      hide Inv;
      ghost var c := St();
      InvShaped(c);
      buf[b] := buf[b].(refcnt := buf[b].refcnt + 1);
      pins := pins[b := pins[b] + 1];
      InvStep(c, Pin(b));
    }

    /** bunpin.  The cache stays in order if and only if another pin is left, or somebody
        has the buffer locked, or the disk has what it holds. */
    method Bunpin(b: int)
      requires Inv(St()) && IsBuf(b) && pins[b] > 0
      modifies buf, `pins
      ensures old(buf[b]).refcnt > 0 && St() == Unpinned(old(St()), b)
      ensures buf[..] == old(buf[..])[b := old(buf[b]).(refcnt := old(buf[b].refcnt) - 1)]
      ensures Inv(St()) <==> old(pins)[b] > 1 || old(buf[b]).locked || Written(old(St()), b)
    {
      hide Linked, Unique, DiskCurrent;
      ghost var c := St();
      assert Good(c, b);
      buf[b] := buf[b].(refcnt := buf[b].refcnt - 1);
      pins := pins[b := pins[b] - 1];
      if Enabled(c, Unpin(b)) {
        InvStep(c, Unpin(b));
      } else {
        assert !Good(St(), b);
      }
    }
  }

  ghost function Unpinned(c: Cache, b: int): Cache
    requires Shaped(c) && IsBuf(b) && c.pins[b] > 0 && c.bs[b].refcnt > 0
  {
    c.(bs := c.bs[b := c.bs[b].(refcnt := c.bs[b].refcnt - 1)], pins := c.pins[b := c.pins[b] - 1])
  }

  lemma InvShaped(c: Cache)
    requires Inv(c)
    ensures Shaped(c)
  {
  }

  lemma CanDrop(c: Cache, b: int)
    requires Inv(c) && IsBuf(b) && c.uses[b] > (if c.bs[b].locked then 1 else 0)
    ensures Enabled(c, Drop(b))
  {
    hide Unique, DiskCurrent;
    assert Good(c, b);
    OrderHasAll(c.order, b);
    var i :| 0 <= i < NBUF && c.order[i] == b;
    UnlinkLinked(c.bs, c.order, i);
  }
}
