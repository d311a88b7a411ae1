/** kernel/virtio_disk.c: the driver and a device that completes requests in any
    order, after sections 2.6 and 5.2 of Virtio 1.1.

    Driver steps are what happens under vdisk_lock; the device takes entries of
    the available ring and adds entries to the used ring whenever it likes. */
module Virtio {
  import opened Lists

  const NUM := 8
  const UINT16 := 0x1_0000

  /** struct virtq_desc; addr is the buffer for a data descriptor. */
  datatype Desc = Desc(addr: int, hasNext: bool, next: int)

  const BLANK := Desc(0, false, 0)

  /** A request: its buffer, its second and third descriptor, and its number. */
  datatype Chain = Chain(b: int, mid: int, tail: int, rid: int)

  datatype State = State(
    // struct disk
    free: seq<bool>,
    desc: seq<Desc>,
    info: seq<int>,
    avail: seq<int>,
    availIdx: int,
    usedIdx: int,
    busy: set<int>,         // buffers with b->disk == 1
    // the device
    used: seq<int>,
    devUsedIdx: int,
    devAvailIdx: int,
    fetched: set<int>,
    // history: requests by first descriptor, and where each of them is
    chains: map<int, Chain>,
    availQ: seq<int>,
    usedQ: seq<int>,
    finished: set<int>,
    completed: seq<int>,
    nextRid: int)

  datatype Action =
    | Submit(b: int, i0: int, i1: int, i2: int)
    | Fetch
    | Complete(h: int)
    | Intr
    | Reclaim(h: int)

  predicate IsDesc(i: int) {
    0 <= i < NUM
  }

  predicate Sized(s: State) {
    |s.free| == |s.desc| == |s.info| == |s.avail| == |s.used| == NUM
  }

  ghost predicate Enabled(s: State, a: Action) {
    Sized(s) &&
    match a
    case Submit(b, i0, i1, i2) =>  // the caller has b locked
      && IsDesc(i0) && IsDesc(i1) && IsDesc(i2) && s.free[i0] && s.free[i1] && s.free[i2]
      && i0 != i1 && i1 != i2 && i0 != i2 && b != 0 && forall h | h in s.chains :: s.chains[h].b != b
    case Fetch => s.devAvailIdx != s.availIdx
    case Complete(h) => h in s.fetched
    case Intr => s.usedIdx != s.devUsedIdx
    case Reclaim(h) => IsDesc(h) && h in s.chains && s.info[h] !in s.busy
  }

  /** The device reads the entry of the available ring it has not looked at yet. */
  function NextAvail(s: State): int
    requires Sized(s)
  {
    s.avail[s.devAvailIdx % NUM]
  }

  function NextUsed(s: State): int
    requires Sized(s)
  {
    s.used[s.usedIdx % NUM]
  }

  ghost function Do(s: State, a: Action): State
    requires Enabled(s, a)
  {
    match a
    case Submit(b, i0, i1, i2) =>
      s.(free := s.free[i0 := false][i1 := false][i2 := false],
         desc := s.desc[i0 := Desc(0, true, i1)][i1 := Desc(b, true, i2)][i2 := Desc(0, false, 0)],
         info := s.info[i0 := b], busy := s.busy + {b},
         avail := s.avail[s.availIdx % NUM := i0], availIdx := (s.availIdx + 1) % UINT16,
         chains := s.chains[i0 := Chain(b, i1, i2, s.nextRid)], availQ := s.availQ + [i0], nextRid := s.nextRid + 1)
    case Fetch =>
      s.(fetched := s.fetched + {NextAvail(s)}, devAvailIdx := (s.devAvailIdx + 1) % UINT16,
         availQ := if s.availQ == [] then [] else s.availQ[1..])
    case Complete(h) =>
      s.(used := s.used[s.devUsedIdx % NUM := h], devUsedIdx := (s.devUsedIdx + 1) % UINT16,
         fetched := s.fetched - {h}, usedQ := s.usedQ + [h])
    case Intr =>
      var id := NextUsed(s);
      if !(IsDesc(id) && id in s.chains && s.usedQ != []) then s else
      s.(busy := s.busy - {s.info[id]}, usedIdx := (s.usedIdx + 1) % UINT16,
         usedQ := s.usedQ[1..], finished := s.finished + {id}, completed := s.completed + [s.chains[id].rid])
    case Reclaim(h) =>
      var c := s.chains[h];
      if !(IsDesc(c.mid) && IsDesc(c.tail)) then s else
      s.(info := s.info[h := 0], free := s.free[h := true][c.mid := true][c.tail := true],
         desc := s.desc[h := BLANK][c.mid := BLANK][c.tail := BLANK],
         chains := s.chains - {h}, finished := s.finished - {h})
  }

  // ---- Rings ----

  function Slot(from: int, i: int): (k: int)
    ensures 0 <= k < NUM
  {
    (from + i) % NUM
  }

  /** The entries a 16-bit index `from` has yet to reach hold exactly `q`. */
  predicate Holds(ring: seq<int>, from: int, to: int, q: seq<int>) {
    && |ring| == NUM && 0 <= from < UINT16 && |q| <= NUM && to == (from + |q|) % UINT16
    && forall i | 0 <= i < |q| :: ring[Slot(from, i)] == q[i]
  }

  lemma RingPut(ring: seq<int>, from: int, to: int, q: seq<int>, x: int)
    requires Holds(ring, from, to, q) && |q| < NUM
    ensures Holds(ring[to % NUM := x], from, (to + 1) % UINT16, q + [x])
  {
    assert to % NUM == Slot(from, |q|);
    forall i | 0 <= i < |q| ensures Slot(from, i) != to % NUM {}
  }

  lemma RingTake(ring: seq<int>, from: int, to: int, q: seq<int>)
    requires Holds(ring, from, to, q)
    ensures from != to <==> q != []
    ensures q != [] ==> ring[from % NUM] == q[0] && Holds(ring, (from + 1) % UINT16, to, q[1..])
  {
  }

  // ---- The invariant ----

  predicate Member(s: State, h: int, i: int)
    requires h in s.chains
  {
    i == h || i == s.chains[h].mid || i == s.chains[h].tail
  }

  /** A request: three descriptors linked in order, its own buffer recorded, and
      the buffer busy until the request is finished. */
  predicate ChainOK(s: State, h: int)
    requires Sized(s) && h in s.chains
  {
    var c := s.chains[h];
    && IsDesc(h) && IsDesc(c.mid) && IsDesc(c.tail) && h != c.mid && c.mid != c.tail && h != c.tail
    && s.desc[h].hasNext && s.desc[h].next == c.mid
    && s.desc[c.mid] == Desc(c.b, true, c.tail) && !s.desc[c.tail].hasNext
    && !s.free[h] && !s.free[c.mid] && !s.free[c.tail]
    && s.info[h] == c.b && c.b != 0 && (c.b in s.busy <==> h !in s.finished)
    && 0 <= c.rid < s.nextRid && (c.rid in s.completed <==> h in s.finished)
  }

  /** Requests share no descriptor, no buffer and no number. */
  predicate Apart(s: State, g: int, h: int)
    requires g in s.chains && h in s.chains
  {
    && s.chains[g].b != s.chains[h].b && s.chains[g].rid != s.chains[h].rid
    && !Member(s, g, h) && !Member(s, g, s.chains[h].mid) && !Member(s, g, s.chains[h].tail)
  }

  /** Every descriptor is free or in a request. */
  ghost predicate Used(s: State, i: int)
    requires Sized(s) && IsDesc(i)
  {
    s.free[i] || exists h :: h in s.chains && Member(s, h, i)
  }

  /** Every request is in exactly one place on its way. */
  predicate Placed(s: State, h: int) {
    && (h in s.chains <==> h in s.availQ || h in s.fetched || h in s.usedQ || h in s.finished)
    && (h in s.availQ ==> h !in s.fetched && h !in s.usedQ && h !in s.finished)
    && (h in s.fetched ==> h !in s.usedQ && h !in s.finished)
    && (h in s.usedQ ==> h !in s.finished)
  }

  ghost predicate Chains(s: State)
    requires Sized(s)
  {
    && (forall h | h in s.chains :: ChainOK(s, h))
    && (forall g, h | g in s.chains && h in s.chains && g != h :: Apart(s, g, h))
    && (forall i | IsDesc(i) :: Used(s, i))
  }

  ghost predicate Places(s: State) {
    && (forall h :: Placed(s, h)) && Distinct(s.availQ) && Distinct(s.usedQ)
  }

  ghost predicate Rings(s: State) {
    Holds(s.avail, s.devAvailIdx, s.availIdx, s.availQ) && Holds(s.used, s.usedIdx, s.devUsedIdx, s.usedQ)
  }

  /** A submitted request is completed or on its way. */
  ghost predicate Accounted(s: State, r: int) {
    r in s.completed || exists h :: h in s.chains && s.chains[h].rid == r
  }

  ghost predicate Once(s: State) {
    && 0 <= s.nextRid && Distinct(s.completed) && (forall i | 0 <= i < |s.completed| :: 0 <= s.completed[i] < s.nextRid)
    && (forall r | 0 <= r < s.nextRid :: Accounted(s, r))
  }

  ghost predicate Inv(s: State) {
    Sized(s) && Chains(s) && Places(s) && Rings(s) && Once(s)
  }

  // ---- Every step keeps it ----

  lemma QueuesAreDescs(s: State)
    requires Inv(s)
    ensures forall i | 0 <= i < |s.availQ| :: s.availQ[i] in s.chains && IsDesc(s.availQ[i])
    ensures forall i | 0 <= i < |s.usedQ| :: s.usedQ[i] in s.chains && IsDesc(s.usedQ[i])
  {
    hide Holds, Apart;
    forall i | 0 <= i < |s.availQ| ensures s.availQ[i] in s.chains && IsDesc(s.availQ[i]) {
      assert Placed(s, s.availQ[i]) && ChainOK(s, s.availQ[i]);
    }
    forall i | 0 <= i < |s.usedQ| ensures s.usedQ[i] in s.chains && IsDesc(s.usedQ[i]) {
      assert Placed(s, s.usedQ[i]) && ChainOK(s, s.usedQ[i]);
    }
  }

  /** The entry at hand is the oldest not yet handled, and a request. */
  lemma NextEntries(s: State)
    requires Inv(s)
    ensures s.devAvailIdx != s.availIdx <==> s.availQ != []
    ensures s.availQ != [] ==> NextAvail(s) == s.availQ[0]
    ensures s.usedIdx != s.devUsedIdx <==> s.usedQ != []
    ensures s.usedQ != [] ==> NextUsed(s) == s.usedQ[0] && s.usedQ[0] in s.chains && IsDesc(s.usedQ[0])
  {
    hide Chains, Places;
    RingTake(s.avail, s.devAvailIdx, s.availIdx, s.availQ);
    RingTake(s.used, s.usedIdx, s.devUsedIdx, s.usedQ);
    QueuesAreDescs(s);
  }

  /** No ring entry is overwritten before it is consumed. */
  lemma RingsStep(s: State, a: Action)
    requires Inv(s) && Enabled(s, a)
    ensures Rings(Do(s, a))
  {
    hide Holds, Apart, ChainOK, Used;
    QueuesAreDescs(s);
    NextEntries(s);
    match a
    case Submit(b, i0, i1, i2) =>
      FreeNotHead(s, i0);
      FewOthers(s.availQ, NUM, i0);
      RingPut(s.avail, s.devAvailIdx, s.availIdx, s.availQ, i0);
    case Fetch => RingTake(s.avail, s.devAvailIdx, s.availIdx, s.availQ);
    case Complete(h) =>
      FetchedIsDesc(s, h);
      FewOthers(s.usedQ, NUM, h);
      RingPut(s.used, s.usedIdx, s.devUsedIdx, s.usedQ, h);
    case Intr => RingTake(s.used, s.usedIdx, s.devUsedIdx, s.usedQ);
    case Reclaim(h) =>
  }

  lemma FreeNotHead(s: State, i: int)
    requires Inv(s) && IsDesc(i) && s.free[i]
    ensures i !in s.chains && i !in s.availQ && i !in s.fetched && i !in s.usedQ && i !in s.finished
  {
    hide Holds, Apart;
    assert Placed(s, i);
    assert i in s.chains ==> ChainOK(s, i);
  }

  lemma FetchedIsDesc(s: State, h: int)
    requires Inv(s) && h in s.fetched
    ensures h in s.chains && IsDesc(h) && h !in s.usedQ
  {
    hide Holds, Apart;
    assert Placed(s, h) && ChainOK(s, h);
  }

  /** What the interrupt handler completes has not been completed before. */
  lemma IntrFresh(s: State)
    requires Inv(s) && s.usedQ != []
    ensures var id := NextUsed(s); id in s.chains && id !in s.finished && s.chains[id].rid !in s.completed && 0 <= s.chains[id].rid < s.nextRid
  {
    hide Rings, Apart, Used;
    NextEntries(s);
    var id := NextUsed(s);
    assert Placed(s, id) && ChainOK(s, id);
  }

  lemma OnceStep(s: State, a: Action)
    requires Inv(s) && Enabled(s, a)
    ensures Once(Do(s, a))
  {
    hide Rings, Chains, Places;
    NextEntries(s);
    var u := Do(s, a);
    if a.Intr? {
      IntrFresh(s);
    } else if a.Submit? {
      FreeNotHead(s, a.i0);
    } else if a.Reclaim? {
      QuietIsFinished(s, a.h);
    }
    forall r | 0 <= r < u.nextRid ensures Accounted(u, r) {
      if r == s.nextRid {
        assert a.i0 in u.chains && u.chains[a.i0].rid == r;
      } else {
        assert Accounted(s, r);
        if r !in s.completed {
          var h :| h in s.chains && s.chains[h].rid == r;
          assert h in u.chains ==> u.chains[h].rid == r;
        }
      }
    }
  }

  /** What a step does to the place of each request. */
  predicate Moves(s: State, u: State, a: Action, h: int)
    requires Sized(s)
  {
    && (h in u.chains <==> (h in s.chains && a != Reclaim(h)) || (a.Submit? && h == a.i0))
    && (h in u.availQ <==> (h in s.availQ && !(a.Fetch? && h == NextAvail(s))) || (a.Submit? && h == a.i0))
    && (h in u.fetched <==> (h in s.fetched && a != Complete(h)) || (a.Fetch? && h == NextAvail(s)))
    && (h in u.usedQ <==> (h in s.usedQ && !(a.Intr? && h == NextUsed(s))) || a == Complete(h))
    && (h in u.finished <==> (h in s.finished && a != Reclaim(h)) || (a.Intr? && h == NextUsed(s)))
  }

  lemma StepMoves(s: State, a: Action, h: int)
    requires Inv(s) && Enabled(s, a)
    ensures Moves(s, Do(s, a), a, h)
  {
    hide Rings, Chains;
    NextEntries(s);
    if a.Reclaim? {
      QuietIsFinished(s, a.h);
    } else if a.Fetch? {
      Tail(s.availQ, h);
    } else if a.Intr? {
      Tail(s.usedQ, h);
    }
  }

  lemma Tail(q: seq<int>, x: int)
    requires q != [] && Distinct(q)
    ensures Distinct(q[1..]) && (x in q[1..] <==> x in q && x != q[0])
  {
  }

  lemma Append(q: seq<int>, x: int)
    requires Distinct(q) && x !in q
    ensures Distinct(q + [x])
  {
  }

  lemma PlacesStep(s: State, a: Action)
    requires Inv(s) && Enabled(s, a)
    ensures Places(Do(s, a))
  {
    hide Rings, Chains, Do, Distinct;
    var u := Do(s, a);
    forall h ensures Placed(u, h) {
      StepMoves(s, a, h);
      PlacedStep(s, a, h);
    }
    QueuesStep(s, a);
  }

  lemma PlacedStep(s: State, a: Action, h: int)
    requires Inv(s) && Enabled(s, a) && Moves(s, Do(s, a), a, h)
    ensures Placed(Do(s, a), h)
  {
    hide Rings, Chains, Do;
    assert Placed(s, h);
    NextEntries(s);
    if a.Submit? {
      FreeNotHead(s, a.i0);
    } else if a.Reclaim? {
      QuietIsFinished(s, a.h);
    }
  }

  lemma QueuesStep(s: State, a: Action)
    requires Inv(s) && Enabled(s, a)
    ensures Distinct(Do(s, a).availQ) && Distinct(Do(s, a).usedQ)
  {
    hide Rings, Chains, Distinct;
    NextEntries(s);
    match a
    case Submit(b, i0, i1, i2) => FreeNotHead(s, i0); Append(s.availQ, i0);
    case Fetch => Tail(s.availQ, 0);
    case Complete(h) => assert Placed(s, h); Append(s.usedQ, h);
    case Intr => Tail(s.usedQ, 0);
    case Reclaim(h) =>
  }

  /** A request whose buffer is not busy is finished. */
  lemma QuietIsFinished(s: State, h: int)
    requires Inv(s) && h in s.chains && IsDesc(h) && s.info[h] !in s.busy
    ensures h in s.finished && s.chains[h].rid in s.completed && IsDesc(s.chains[h].mid) && IsDesc(s.chains[h].tail)
  {
    hide Holds, Apart;
    assert ChainOK(s, h);
  }

  lemma ChainOf(s: State, h: int)
    requires Inv(s) && h in s.chains
    ensures ChainOK(s, h)
  {
    hide Rings, Places, Once, ChainOK, Apart, Used;
  }

  lemma ApartOf(s: State, g: int, h: int)
    requires Inv(s) && g in s.chains && h in s.chains && g != h
    ensures Apart(s, g, h)
  {
    hide Rings, Places, Once, ChainOK, Apart, Used;
  }

  lemma SubmitApart(s: State, b: int, i0: int, i1: int, i2: int, h: int)
    requires Inv(s) && Enabled(s, Submit(b, i0, i1, i2)) && h in s.chains
    ensures IsDesc(h) && IsDesc(s.chains[h].mid) && IsDesc(s.chains[h].tail)
    ensures !Member(s, h, i0) && !Member(s, h, i1) && !Member(s, h, i2) && s.chains[h].b != b && s.chains[h].rid != s.nextRid
  {
    hide Rings, Places, Apart, Used;
    assert ChainOK(s, h);
  }

  lemma ChainStep(s: State, a: Action, h: int)
    requires Inv(s) && Enabled(s, a) && h in Do(s, a).chains
    ensures Sized(Do(s, a)) && ChainOK(Do(s, a), h)
  {
    hide Inv, Enabled, Do, ChainOK;
    match a
    case Submit(b, i0, i1, i2) => ChainSubmit(s, b, i0, i1, i2, h);
    case Fetch => ChainSame(s, a, h);
    case Complete(_) => ChainSame(s, a, h);
    case Intr => ChainIntr(s, h);
    case Reclaim(g) => ChainReclaim(s, g, h);
  }

  lemma StepSized(s: State, a: Action)
    requires Enabled(s, a)
    ensures Sized(Do(s, a))
  {
  }

  lemma ChainSame(s: State, a: Action, h: int)
    requires Inv(s) && Enabled(s, a) && (a.Fetch? || a.Complete?) && h in Do(s, a).chains
    ensures Sized(Do(s, a)) && ChainOK(Do(s, a), h)
  {
    hide Inv;
    StepSized(s, a);
    ChainOf(s, h);
  }

  lemma ChainSubmit(s: State, b: int, i0: int, i1: int, i2: int, h: int)
    requires Inv(s) && Enabled(s, Submit(b, i0, i1, i2)) && h in Do(s, Submit(b, i0, i1, i2)).chains
    ensures Sized(Do(s, Submit(b, i0, i1, i2))) && ChainOK(Do(s, Submit(b, i0, i1, i2)), h)
  {
    hide Rings, Places, Used, Apart, Once;
    FreeNotHead(s, i0);
    OnceBounds(s);
    if h != i0 {
      assert ChainOK(s, h);
      SubmitApart(s, b, i0, i1, i2, h);
    }
  }

  lemma ChainIntr(s: State, h: int)
    requires Inv(s) && Enabled(s, Intr) && h in Do(s, Intr).chains
    ensures Sized(Do(s, Intr)) && ChainOK(Do(s, Intr), h)
  {
    hide Rings, Places, Used, Once, Member;
    NextEntries(s);
    IntrFresh(s);
    var id := NextUsed(s);
    assert ChainOK(s, h) && ChainOK(s, id);
    assert h != id ==> Apart(s, h, id);
  }

  lemma ChainReclaim(s: State, g: int, h: int)
    requires Inv(s) && Enabled(s, Reclaim(g)) && h in Do(s, Reclaim(g)).chains
    ensures Sized(Do(s, Reclaim(g))) && ChainOK(Do(s, Reclaim(g)), h)
  {
    hide Inv;
    StepSized(s, Reclaim(g));
    QuietIsFinished(s, g);
    assert h != g;
    ChainOf(s, h);
    ChainOf(s, g);
    ApartOf(s, g, h);
    var u, c := Do(s, Reclaim(g)), s.chains[h];
    assert u.chains[h] == c && u.busy == s.busy && u.completed == s.completed && u.nextRid == s.nextRid;
    assert !Member(s, g, h) && !Member(s, g, c.mid) && !Member(s, g, c.tail);
    assert u.desc[h] == s.desc[h] && u.desc[c.mid] == s.desc[c.mid] && u.desc[c.tail] == s.desc[c.tail];
    assert u.free[h] == s.free[h] && u.free[c.mid] == s.free[c.mid] && u.free[c.tail] == s.free[c.tail];
  }

  lemma OnceBounds(s: State)
    requires Inv(s)
    ensures s.nextRid !in s.completed && 0 <= s.nextRid
  {
  }

  lemma ApartStep(s: State, a: Action, g: int, h: int)
    requires Inv(s) && Enabled(s, a) && g in Do(s, a).chains && h in Do(s, a).chains && g != h
    ensures Apart(Do(s, a), g, h)
  {
    hide Rings, Places, Used, ChainOK, Do;
    StepChains(s, a);
    if a.Submit? && h == a.i0 {
      SubmitApart(s, a.b, a.i0, a.i1, a.i2, g);
    } else if a.Submit? && g == a.i0 {
      SubmitApart(s, a.b, a.i0, a.i1, a.i2, h);
    } else {
      assert Apart(s, g, h);
    }
  }

  /** What a step does to the set of requests. */
  lemma StepChains(s: State, a: Action)
    requires Inv(s) && Enabled(s, a)
    ensures Do(s, a).chains == if a.Submit? then s.chains[a.i0 := Chain(a.b, a.i1, a.i2, s.nextRid)] else if a.Reclaim? then s.chains - {a.h} else s.chains
    ensures |Do(s, a).free| == NUM
  {
    hide Rings, Chains, Places;
    if a.Reclaim? {
      QuietIsFinished(s, a.h);
    }
  }

  lemma UsedStep(s: State, a: Action, i: int)
    requires Inv(s) && Enabled(s, a) && IsDesc(i) && Sized(Do(s, a))
    ensures Used(Do(s, a), i)
  {
    hide Rings, Places, Apart, ChainOK;
    StepChains(s, a);
    var u := Do(s, a);
    assert Used(s, i);
    if a.Submit? && (i == a.i0 || i == a.i1 || i == a.i2) {
      assert Member(u, a.i0, i);
    } else if !s.free[i] {
      var h :| h in s.chains && Member(s, h, i);
      if a.Submit? {
        FreeNotHead(s, a.i0);
      } else if a.Reclaim? && h == a.h {
        QuietIsFinished(s, h);
      }
      assert u.free[i] || (h in u.chains && Member(u, h, i));
    } else if a.Reclaim? {
      QuietIsFinished(s, a.h);
    }
  }

  /** Every driver and device step keeps the table partitioned, the rings intact
      and every request accounted for. */
  lemma InvStep(s: State, a: Action)
    requires Inv(s) && Enabled(s, a)
    ensures Inv(Do(s, a))
  {
    hide Rings, Places, Once, ChainOK, Apart, Used;
    var u := Do(s, a);
    RingsStep(s, a);
    PlacesStep(s, a);
    OnceStep(s, a);
    assert Sized(u);
    forall h | h in u.chains ensures ChainOK(u, h) {
      ChainStep(s, a, h);
    }
    forall g, h | g in u.chains && h in u.chains && g != h ensures Apart(u, g, h) {
      ApartStep(s, a, g, h);
    }
    forall i | IsDesc(i) ensures Used(u, i) {
      UsedStep(s, a, i);
    }
  }

  // ---- Whole runs ----

  /** After virtio_disk_init. */
  ghost predicate Init(s: State) {
    && Sized(s) && (forall i | IsDesc(i) :: s.free[i])
    && s.availIdx == s.usedIdx == s.devUsedIdx == s.devAvailIdx == 0 && s.busy == {} && s.fetched == {} && s.finished == {}
    && s.chains == map[] && s.availQ == [] && s.usedQ == [] && s.completed == [] && s.nextRid == 0
  }

  ghost predicate ValidRun(ss: seq<State>, acts: seq<Action>) {
    |ss| == |acts| + 1 && Init(ss[0]) && forall i | 0 <= i < |acts| :: Enabled(ss[i], acts[i]) && ss[i + 1] == Do(ss[i], acts[i])
  }

  lemma {:induction false} RunInv(ss: seq<State>, acts: seq<Action>, n: nat)
    requires ValidRun(ss, acts) && n <= |acts|
    ensures Inv(ss[n])
  {
    hide Do, Enabled, Chains, Places, Rings, Once;
    if n == 0 {
      InitInv(ss[0]);
    } else {
      RunInv(ss, acts, n - 1);
      InvStep(ss[n - 1], acts[n - 1]);
    }
  }

  lemma InitInv(s: State)
    requires Init(s)
    ensures Inv(s)
  {
  }

  /** In every run each descriptor is free or belongs to exactly one request. */
  lemma DescriptorsPartition(ss: seq<State>, acts: seq<Action>, n: nat, i: int)
    requires ValidRun(ss, acts) && n <= |acts| && IsDesc(i)
    ensures |ss[n].free| == NUM
    ensures ss[n].free[i] <==> forall h | h in ss[n].chains :: !Member(ss[n], h, i)
    ensures forall g, h | g in ss[n].chains && h in ss[n].chains && Member(ss[n], g, i) && Member(ss[n], h, i) :: g == h
  {
    hide Do, Enabled, Init, Inv;
    RunInv(ss, acts, n);
    Partition(ss[n], i);
  }

  lemma Partition(s: State, i: int)
    requires Inv(s) && IsDesc(i)
    ensures |s.free| == NUM && (s.free[i] <==> forall h | h in s.chains :: !Member(s, h, i))
    ensures forall g, h | g in s.chains && h in s.chains && Member(s, g, i) && Member(s, h, i) :: g == h
  {
    hide Places, Rings, Once, ChainOK, Apart;
    assert Used(s, i);
    forall h | h in s.chains && Member(s, h, i) ensures !s.free[i] {
      NotFree(s, h, i);
    }
    forall g, h | g in s.chains && h in s.chains && Member(s, g, i) && Member(s, h, i) ensures g == h {
      if g != h {
        ApartOf(s, g, h);
        NotShared(s, g, h, i);
      }
    }
  }

  lemma NotFree(s: State, h: int, i: int)
    requires Inv(s) && IsDesc(i) && h in s.chains && Member(s, h, i)
    ensures !s.free[i]
  {
    hide Places, Rings, Once, Chains;
    ChainOf(s, h);
  }

  lemma NotShared(s: State, g: int, h: int, i: int)
    requires g in s.chains && h in s.chains && Apart(s, g, h)
    ensures !(Member(s, g, i) && Member(s, h, i))
  {
  }

  /** In every run each request is completed at most once, is completed or still
      accounted for, and its buffer is released only by its own completion. */
  lemma CompletedOnce(ss: seq<State>, acts: seq<Action>, n: nat)
    requires ValidRun(ss, acts) && n <= |acts|
    ensures Distinct(ss[n].completed) && forall r | 0 <= r < ss[n].nextRid :: Accounted(ss[n], r)
    ensures forall h | h in ss[n].chains :: ss[n].chains[h].b in ss[n].busy <==> ss[n].chains[h].rid !in ss[n].completed
  {
    hide Do, Enabled, Init, Places, Rings;
    RunInv(ss, acts, n);
    forall h | h in ss[n].chains ensures ss[n].chains[h].b in ss[n].busy <==> ss[n].chains[h].rid !in ss[n].completed {
      assert ChainOK(ss[n], h);
    }
  }
}
