/** The redo log of kernel/log.c as a state machine.

    One action is one atomic event of the running system: an operation
    starting, logging a block or ending; one block reaching the disk; or a
    crash, which may strike between any two of them, recovery included.
    `view` is what the buffer cache hands out for each block and is lost in a
    crash; `disk` survives.  `kept`, `durable`, `issued`, `current` and
    `committed` are history: they record what the file system did and never
    influence an action. */
module LogMachine {
  import opened Params
  import opened Blocks

  type Disk = seq<Block>

  type OpId = nat

  /** Where the log lives: header at `start`, data blocks right after it. */
  datatype Geometry = Geometry(start: nat, size: nat) {
    predicate Valid() {
      start + LOGBLOCKS < size
    }

    predicate Home(b: int) {
      0 <= b < size && !(start <= b <= start + LOGBLOCKS)
    }
  }

  /** Operation `op` logged new contents for a block. */
  datatype Event = Event(op: OpId, block: nat, data: Block)

  datatype Phase =
    | Running
    | WritingLog(tail: nat)
    | Installing(tail: nat, recovering: bool)
    | Finishing
    | Rebooting

  datatype State = State(
    disk: Disk,
    view: Disk,
    lh: seq<int>,                  // in-memory header: the logged block numbers
    committing: bool,
    ops: set<OpId>,                // the outstanding operations
    charges: set<(OpId, int)>,     // which distinct blocks each of them logged
    phase: Phase,
    kept: seq<Event>,
    durable: nat,
    issued: map<OpId, seq<Event>>,
    current: set<OpId>,
    committed: set<OpId>)

  datatype Action =
    | Begin(op: OpId)
    | LogWrite(op: OpId, block: nat, data: Block)
    | End(op: OpId)
    | WriteLogBlock
    | WriteHeader
    | InstallBlock
    | ClearHeader
    | FinishCommit
    | Crash
    | ReadHeader

  // ---- Header layout ----

  /** The block numbers a header block lists. */
  function HeadBlocks(b: Block): seq<int> {
    if 0 <= b[0] <= LOGBLOCKS then b[1..1 + b[0]] else []
  }

  /** write_head: overwrite the count and that many entries, keep the rest. */
  function PutHead(b: Block, blocks: seq<int>): Block
    requires |blocks| <= LOGBLOCKS
  {
    [|blocks|] + blocks + b[1 + |blocks|..]
  }

  predicate DistinctHomes(g: Geometry, blocks: seq<int>) {
    && |blocks| <= LOGBLOCKS
    && (forall i | 0 <= i < |blocks| :: g.Home(blocks[i]))
    && (forall i, j | 0 <= i < j < |blocks| :: blocks[i] != blocks[j])
  }

  predicate HeaderOK(g: Geometry, d: Disk)
    requires g.Valid() && |d| == g.size
  {
    0 <= d[g.start][0] <= LOGBLOCKS && DistinctHomes(g, HeadBlocks(d[g.start]))
  }

  // ---- Histories ----

  /** The disk after applying logged writes in order. */
  function Replay(base: Disk, ev: seq<Event>): (d: Disk)
    ensures |d| == |base|
  {
    if ev == [] then base else
      var e := ev[|ev| - 1];
      var d := Replay(base, ev[..|ev| - 1]);
      if e.block < |d| then d[e.block := e.data] else d
  }

  /** The events of one operation. */
  function Proj(ev: seq<Event>, op: OpId): seq<Event> {
    if ev == [] then [] else
      var e := ev[|ev| - 1];
      Proj(ev[..|ev| - 1], op) + (if e.op == op then [e] else [])
  }

  // ---- Transitions ----

  predicate Enabled(g: Geometry, s: State, a: Action) {
    && g.Valid() && |s.disk| == |s.view| == g.size && |s.lh| <= LOGBLOCKS
    && (forall i | 0 <= i < |s.lh| :: 0 <= s.lh[i] < g.size)
    && match a
       case Begin(op) =>
         && s.phase == Running && op !in s.issued
         && !s.committing
         && |s.lh| + (|s.ops| + 1) * MAXOPBLOCKS <= LOGBLOCKS
       case LogWrite(op, b, _) =>
         // The last clause is the contract of begin_op's callers: an operation
         // logs at most MAXOPBLOCKS distinct blocks.
         && s.phase == Running && op in s.ops && op in s.issued && g.Home(b)
         && |s.lh| < LOGBLOCKS
         && |Charged(s.charges + {(op, b)}, op)| <= MAXOPBLOCKS
       case End(op) => s.phase == Running && op in s.ops
       case WriteLogBlock => s.phase.WritingLog? && s.phase.tail < |s.lh|
       case WriteHeader => s.phase == WritingLog(|s.lh|)
       case InstallBlock => s.phase.Installing? && s.phase.tail < |s.lh|
       case ClearHeader => s.phase.Installing? && s.phase.tail == |s.lh|
       case FinishCommit => s.phase == Finishing
       case Crash => s.durable <= |s.kept|
       case ReadHeader => s.phase == Rebooting && HeaderOK(g, s.disk)
  }

  /** The blocks `op` has logged so far. */
  function Charged(charges: set<(OpId, int)>, op: OpId): set<(OpId, int)> {
    set c | c in charges && c.0 == op
  }

  function Do(g: Geometry, s: State, a: Action): State
    requires Enabled(g, s, a)
  {
    match a
    case Begin(op) =>
      s.(ops := s.ops + {op}, issued := s.issued[op := []], current := s.current + {op})
    case LogWrite(op, b, v) =>
      var e := Event(op, b, v);
      s.(view := s.view[b := v],
         lh := if b in s.lh then s.lh else s.lh + [b],
         charges := s.charges + {(op, b)},
         kept := s.kept + [e],
         issued := s.issued[op := s.issued[op] + [e]])
    case End(op) =>
      var ops := s.ops - {op};
      s.(ops := ops,
         charges := s.charges - Charged(s.charges, op),
         committing := ops == {},
         phase := if ops != {} then Running else if s.lh == [] then Finishing else WritingLog(0))
    case WriteLogBlock =>
      var t := s.phase.tail;
      var v := s.view[s.lh[t]];
      s.(view := s.view[g.start + 1 + t := v],
         disk := s.disk[g.start + 1 + t := v],
         phase := WritingLog(t + 1))
    case WriteHeader =>
      var h := PutHead(s.view[g.start], s.lh);
      s.(view := s.view[g.start := h],
         disk := s.disk[g.start := h],
         phase := Installing(0, false),
         durable := |s.kept|,
         committed := s.committed + s.current,
         current := {})
    case InstallBlock =>
      var t := s.phase.tail;
      var v := s.view[g.start + 1 + t];
      s.(view := s.view[s.lh[t] := v],
         disk := s.disk[s.lh[t] := v],
         phase := Installing(t + 1, s.phase.recovering))
    case ClearHeader =>
      var h := PutHead(s.view[g.start], []);
      s.(lh := [],
         view := s.view[g.start := h],
         disk := s.disk[g.start := h],
         phase := if s.phase.recovering then Running else Finishing)
    case FinishCommit =>
      s.(committing := false, phase := Running)
    case Crash =>
      s.(view := s.disk, lh := [], committing := false, ops := {}, charges := {},
         phase := Rebooting, kept := s.kept[..s.durable], current := {})
    case ReadHeader =>
      s.(lh := HeadBlocks(s.view[g.start]), phase := Installing(0, true))
  }

  /** A freshly made file system: empty log, nothing in memory. */
  predicate Init(g: Geometry, base: Disk, s: State) {
    && g.Valid() && |base| == g.size
    && base[g.start][0] == 0
    && s == State(base, base, [], false, {}, {}, Running, [], 0, map[], {}, {})
  }

  // ---- Recovery as a function of the disk alone ----

  /** install_trans after `k` blocks. */
  function Installed(g: Geometry, d: Disk, blocks: seq<int>, k: nat): (r: Disk)
    requires g.Valid() && |d| == g.size && DistinctHomes(g, blocks) && k <= |blocks|
    ensures |r| == |d|
  {
    if k == 0 then d else
      var p := Installed(g, d, blocks, k - 1);
      p[blocks[k - 1] := p[g.start + k]]
  }

  /** recover_from_log run to completion. */
  function Recover(g: Geometry, d: Disk): (r: Disk)
    requires g.Valid() && |d| == g.size && HeaderOK(g, d)
    ensures |r| == |d|
  {
    var hb := HeadBlocks(d[g.start]);
    var p := Installed(g, d, hb, |hb|);
    p[g.start := PutHead(p[g.start], [])]
  }

  ghost predicate SameHomes(g: Geometry, d: Disk, e: Disk) {
    && |d| == |e| == g.size
    && forall b | g.Home(b) :: d[b] == e[b]
  }

  /** The home contents `d` stands for once its log has been installed. */
  ghost predicate RecoversTo(g: Geometry, d: Disk, v: Disk) {
    && g.Valid() && |d| == |v| == g.size && HeaderOK(g, d)
    && var hb := HeadBlocks(d[g.start]);
    && (forall i | 0 <= i < |hb| :: v[hb[i]] == d[g.start + 1 + i])
    && (forall b | g.Home(b) && b !in hb :: v[b] == d[b])
  }

  lemma InstalledNone(g: Geometry, d: Disk, blocks: seq<int>)
    requires g.Valid() && |d| == g.size && DistinctHomes(g, blocks)
    ensures Installed(g, d, blocks, 0) == d
  {
  }

  lemma InstalledNext(g: Geometry, d: Disk, blocks: seq<int>, k: nat)
    requires g.Valid() && |d| == g.size && DistinctHomes(g, blocks) && k < |blocks|
    ensures var p := Installed(g, d, blocks, k);
            0 <= blocks[k] < g.size && Installed(g, d, blocks, k + 1) == p[blocks[k] := p[g.start + k + 1]]
  {
    assert g.Home(blocks[k]);
  }

  /** Of disk d the first k listed blocks have been overwritten in r. */
  ghost predicate Overwritten(g: Geometry, d: Disk, blocks: seq<int>, k: nat, r: Disk) {
    && |r| == |d| == g.size && k <= |blocks| && 0 <= g.start && g.start + k < g.size && (forall i | 0 <= i < k :: 0 <= blocks[i] < g.size)
    && (forall i | 0 <= i < k :: r[blocks[i]] == d[g.start + 1 + i])
    && (forall b | 0 <= b < |d| && Unlisted(blocks, k, b) :: r[b] == d[b])
  }

  predicate Unlisted(blocks: seq<int>, k: nat, b: int)
    requires k <= |blocks|
  {
    forall i | 0 <= i < k :: blocks[i] != b
  }

  lemma InstalledSpec(g: Geometry, d: Disk, blocks: seq<int>, k: nat)
    requires g.Valid() && |d| == g.size && DistinctHomes(g, blocks) && k <= |blocks|
    ensures var r := Installed(g, d, blocks, k);
            && (forall i | 0 <= i < k :: r[blocks[i]] == d[g.start + 1 + i])
            && (forall b | 0 <= b < |d| && b !in blocks[..k] :: r[b] == d[b])
  {
    hide Installed, DistinctHomes;
    InstalledOverwrites(g, d, blocks, k);
    forall b | b !in blocks[..k] ensures Unlisted(blocks, k, b) {
      assert forall i | 0 <= i < k :: blocks[..k][i] == blocks[i];
    }
  }

  lemma {:induction false} InstalledOverwrites(g: Geometry, d: Disk, blocks: seq<int>, k: nat)
    requires g.Valid() && |d| == g.size && DistinctHomes(g, blocks) && k <= |blocks|
    ensures Overwritten(g, d, blocks, k, Installed(g, d, blocks, k))
  {
    hide DistinctHomes, Installed, Overwritten;
    if k == 0 {
      InstalledNone(g, d, blocks);
      NoneOverwritten(g, d, blocks);
    } else {
      InstalledOverwrites(g, d, blocks, k - 1);
      InstalledNext(g, d, blocks, k - 1);
      HomeApart(g, blocks, k);
      OneOverwritten(g, d, blocks, k, Installed(g, d, blocks, k - 1));
    }
  }

  lemma NoneOverwritten(g: Geometry, d: Disk, blocks: seq<int>)
    requires g.Valid() && |d| == g.size
    ensures Overwritten(g, d, blocks, 0, d)
  {
  }

  lemma OneOverwritten(g: Geometry, d: Disk, blocks: seq<int>, k: nat, p: Disk)
    requires 0 < k <= |blocks| && Overwritten(g, d, blocks, k - 1, p)
    requires 0 <= blocks[k - 1] < g.size && g.start + k < g.size && Unlisted(blocks, k - 1, g.start + k) && Unlisted(blocks, k - 1, blocks[k - 1])
    ensures Overwritten(g, d, blocks, k, p[blocks[k - 1] := p[g.start + k]])
  {
    forall b | 0 <= b < |d| && Unlisted(blocks, k, b) ensures Unlisted(blocks, k - 1, b) && b != blocks[k - 1] {
    }
  }

  /** No listed block is in the log, and none is listed twice. */
  lemma HomeApart(g: Geometry, blocks: seq<int>, k: nat)
    requires g.Valid() && DistinctHomes(g, blocks) && 0 < k <= |blocks|
    ensures 0 <= blocks[k - 1] < g.size && g.start + k < g.size && Unlisted(blocks, k - 1, g.start + k) && Unlisted(blocks, k - 1, blocks[k - 1])
  {
    assert g.Home(blocks[k - 1]);
    assert forall i | 0 <= i < |blocks| :: g.Home(blocks[i]);
  }

  /** Word 0 of the header is the count, and the words after it name blocks. */
  predicate Names(head: Block, b: int) {
    exists j | 1 <= j <= head[0] && j < NINDIRECT :: head[j] == b
  }

  /** Completed recovery leaves exactly the home contents the disk stood for,
      and an empty log. */
  lemma RecoverSpec(g: Geometry, d: Disk, v: Disk)
    requires RecoversTo(g, d, v)
    ensures SameHomes(g, Recover(g, d), v)
    ensures HeadBlocks(Recover(g, d)[g.start]) == []
    ensures RecoversTo(g, Recover(g, d), v)
  {
    var hb := HeadBlocks(d[g.start]);
    InstalledSpec(g, d, hb, |hb|);
    assert hb[..|hb|] == hb;
  }

  /** The same in words of the header block, kernel/log.c:35-38: the block that word j
      names gets the j-th block of the log, every other home block keeps its contents,
      and the count is 0 afterwards. */
  lemma RecoverWords(g: Geometry, d: Disk)
    requires g.Valid() && |d| == g.size && HeaderOK(g, d)
    ensures var head, r := d[g.start], Recover(g, d);
            && 0 <= head[0] <= LOGBLOCKS
            && (forall j | 1 <= j <= head[0] :: g.Home(head[j]) && r[head[j]] == d[g.start + j])
            && (forall b | g.Home(b) && !Names(head, b) :: r[b] == d[b])
            && r[g.start][0] == 0 && (forall j | 0 < j < NINDIRECT :: r[g.start][j] == head[j])
            && (forall b | g.start < b <= g.start + LOGBLOCKS :: r[b] == d[b])
  {
    hide Installed, Names, HeadBlocks, PutHead;
    var head, hb := d[g.start], HeadBlocks(d[g.start]);
    InstalledSpec(g, d, hb, |hb|);
    assert hb[..|hb|] == hb;
    HeadWords(head);
    PutWords(Installed(g, d, hb, |hb|)[g.start], []);
    forall b | b in hb ensures g.Home(b) {}
    forall j | 1 <= j <= head[0] ensures g.Home(head[j]) && Recover(g, d)[head[j]] == d[g.start + j] {
      assert hb[j - 1] == head[j];
    }
  }

  lemma HeadWords(head: Block)
    requires 0 <= head[0] <= LOGBLOCKS
    ensures |HeadBlocks(head)| == head[0] && (forall j | 1 <= j <= head[0] :: HeadBlocks(head)[j - 1] == head[j])
    ensures forall b :: b in HeadBlocks(head) <==> Names(head, b)
  {
    var hb := HeadBlocks(head);
    forall b ensures b in hb <==> Names(head, b) {
      if b in hb {
        var i :| 0 <= i < |hb| && hb[i] == b;
        assert head[i + 1] == b;
      }
      if Names(head, b) {
        var j :| 1 <= j <= head[0] && j < NINDIRECT && head[j] == b;
        assert hb[j - 1] == b;
      }
    }
  }

  lemma PutWords(head: Block, blocks: seq<int>)
    requires |blocks| <= LOGBLOCKS
    ensures var r := PutHead(head, blocks);
            && r[0] == |blocks| && (forall j | 1 <= j <= |blocks| :: r[j] == blocks[j - 1])
            && (forall j | |blocks| < j < NINDIRECT :: r[j] == head[j])
  {
  }

  // ---- Lemmas about histories ----

  lemma {:induction false} ProjAppend(a: seq<Event>, b: seq<Event>, op: OpId)
    ensures Proj(a + b, op) == Proj(a, op) + Proj(b, op)
  {
    if b == [] {
      assert a + b == a;
    } else {
      var c := b[..|b| - 1];
      assert (a + b)[..|a + b| - 1] == a + c;
      ProjAppend(a, c, op);
    }
  }

  lemma ReplaySnoc(base: Disk, ev: seq<Event>, e: Event)
    requires e.block < |base|
    ensures Replay(base, ev + [e]) == Replay(base, ev)[e.block := e.data]
  {
  }

  lemma ProjSnoc(ev: seq<Event>, e: Event, op: OpId)
    ensures Proj(ev + [e], op) == Proj(ev, op) + (if e.op == op then [e] else [])
  {
  }

  /** If every operation is charged at most MAXOPBLOCKS, so are they together. */
  lemma {:induction false} ChargeBound(charges: set<(OpId, int)>, ops: set<OpId>)
    requires forall c | c in charges :: c.0 in ops
    requires forall op | op in ops :: |Charged(charges, op)| <= MAXOPBLOCKS
    ensures |charges| <= MAXOPBLOCKS * |ops|
    decreases |ops|
  {
    if ops == {} {
      assert charges == {};
    } else {
      var op :| op in ops;
      var rest := charges - Charged(charges, op);
      forall o | o in ops - {op} ensures |Charged(rest, o)| <= MAXOPBLOCKS {
        assert Charged(rest, o) == Charged(charges, o);
      }
      ChargeBound(rest, ops - {op});
      assert charges == rest + Charged(charges, op);
    }
  }

  // ---- The invariant ----

  predicate Shape(g: Geometry, s: State) {
    && g.Valid() && |s.disk| == |s.view| == g.size
    && DistinctHomes(g, s.lh)
    && HeaderOK(g, s.disk)
    && s.durable <= |s.kept|
    && s.ops <= s.issued.Keys
    && (s.ops != {} ==> s.phase == Running)
    && (s.phase.WritingLog? ==> s.phase.tail <= |s.lh|)
    && (s.phase.Installing? ==> s.phase.tail <= |s.lh|)
    && (s.phase == Finishing || s.phase == Rebooting ==> s.lh == [])
    && (s.phase == Running && s.ops == {} ==> s.lh == [])
    && (s.committing <==> s.phase.WritingLog? || s.phase == Finishing ||
                          (s.phase.Installing? && !s.phase.recovering))
  }

  /** Room is reserved for everything outstanding operations may still log. */
  predicate Reservation(s: State) {
    && (forall c | c in s.charges :: c.0 in s.ops && c.1 in s.lh)
    && (forall op | op in s.ops :: |Charged(s.charges, op)| <= MAXOPBLOCKS)
    && |s.lh| + MAXOPBLOCKS * |s.ops| - |s.charges| <= LOGBLOCKS
  }

  /** What each phase has put on disk. */
  ghost predicate OnDisk(g: Geometry, s: State)
    requires Shape(g, s)
  {
    && (forall b | g.start <= b <= g.start + LOGBLOCKS :: s.view[b] == s.disk[b])
    && (s.phase == Running || s.phase.WritingLog? || s.phase == Finishing ==>
          HeadBlocks(s.disk[g.start]) == [])
    && (s.phase.WritingLog? ==>
          forall i | 0 <= i < s.phase.tail :: s.disk[g.start + 1 + i] == s.view[s.lh[i]])
    && (s.phase.Installing? ==>
          && HeadBlocks(s.disk[g.start]) == s.lh
          && (forall i | 0 <= i < s.phase.tail :: s.disk[s.lh[i]] == s.disk[g.start + 1 + i])
          && (forall i | 0 <= i < s.phase.tail :: s.view[s.lh[i]] == s.disk[s.lh[i]]))
    && (s.phase == Rebooting ==> s.view == s.disk)
    && (forall b | g.Home(b) && b !in s.lh :: s.view[b] == s.disk[b])
  }

  /** Disk and cache stand for the committed and the logged history. */
  ghost predicate Contents(g: Geometry, base: Disk, s: State)
    requires Shape(g, s)
  {
    && |base| == g.size
    && RecoversTo(g, s.disk, Replay(base, s.kept[..s.durable]))
    && (s.phase == Rebooting || s.phase.Installing? ==> s.durable == |s.kept|)
    && (s.phase != Rebooting && !(s.phase.Installing? && s.phase.recovering) ==>
          SameHomes(g, s.view, Replay(base, s.kept)))
  }

  /** What survives of operation `op`: all of it, before the durable mark if
      its header has landed and after it if not, or nothing. */
  predicate KeptWhole(s: State, op: OpId)
    requires s.durable <= |s.kept|
  {
    var before, after := Proj(s.kept[..s.durable], op), Proj(s.kept[s.durable..], op);
    if op in s.committed then op in s.issued && before == s.issued[op] && after == []
    else if op in s.current then op in s.issued && before == [] && after == s.issued[op]
    else before == [] && after == []
  }

  /** Every operation is kept whole or not at all, and committed ones are kept. */
  ghost predicate Whole(s: State)
    requires s.durable <= |s.kept|
  {
    && s.ops <= s.current
    && s.committed !! s.current
    && forall op: OpId :: KeptWhole(s, op)
  }

  ghost predicate Inv(g: Geometry, base: Disk, s: State) {
    && Shape(g, s) && Reservation(s) && OnDisk(g, s) && Contents(g, base, s) && Whole(s)
  }

  // ---- Preservation ----

  lemma HeadRoundTrip(b: Block, blocks: seq<int>)
    requires |blocks| <= LOGBLOCKS
    ensures HeadBlocks(PutHead(b, blocks)) == blocks
    ensures PutHead(b, blocks)[0] == |blocks|
  {
  }

  lemma ShapeStep(g: Geometry, s: State, a: Action)
    requires Shape(g, s) && OnDisk(g, s) && Enabled(g, s, a)
    ensures Shape(g, Do(g, s, a))
  {
    match a
    case LogWrite(op, b, v) => ShapeLogWrite(g, s, op, b, v);
    case WriteHeader => HeadRoundTrip(s.view[g.start], s.lh);
    case InstallBlock => assert g.Home(s.lh[s.phase.tail]);
    case ClearHeader => HeadRoundTrip(s.view[g.start], []);
    case _ =>
  }

  lemma ShapeLogWrite(g: Geometry, s: State, op: OpId, b: nat, v: Block)
    requires Shape(g, s) && Enabled(g, s, LogWrite(op, b, v))
    ensures Shape(g, Do(g, s, LogWrite(op, b, v)))
  {
  }

  lemma ReservationStep(g: Geometry, s: State, a: Action)
    requires Shape(g, s) && Reservation(s) && Enabled(g, s, a)
    ensures Reservation(Do(g, s, a))
  {
    match a
    case Begin(op) => ReservationBegin(g, s, op);
    case LogWrite(op, b, v) => ReservationLogWrite(g, s, op, b, v);
    case End(op) => ReservationEnd(g, s, op);
    case _ =>
  }

  lemma ReservationBegin(g: Geometry, s: State, op: OpId)
    requires Shape(g, s) && Reservation(s) && Enabled(g, s, Begin(op))
    ensures Reservation(Do(g, s, Begin(op)))
  {
    hide HeaderOK, DistinctHomes;
    var t := Do(g, s, Begin(op));
    assert op !in s.ops && |t.ops| == |s.ops| + 1;
    forall o | o in t.ops ensures |Charged(t.charges, o)| <= MAXOPBLOCKS {
      if o == op {
        assert Charged(s.charges, o) == {};
      }
    }
  }

  lemma ReservationLogWrite(g: Geometry, s: State, op: OpId, b: nat, v: Block)
    requires Shape(g, s) && Reservation(s) && Enabled(g, s, LogWrite(op, b, v))
    ensures Reservation(Do(g, s, LogWrite(op, b, v)))
  {
    var t := Do(g, s, LogWrite(op, b, v));
    forall o | o in t.ops ensures |Charged(t.charges, o)| <= MAXOPBLOCKS {
      if o != op {
        assert Charged(t.charges, o) == Charged(s.charges, o);
      }
    }
    if (op, b) in s.charges {
      assert t.charges == s.charges;
    }
  }

  lemma ReservationEnd(g: Geometry, s: State, op: OpId)
    requires Shape(g, s) && Reservation(s) && Enabled(g, s, End(op))
    ensures Reservation(Do(g, s, End(op)))
  {
    hide HeaderOK, DistinctHomes;
    var t := Do(g, s, End(op));
    forall o | o in t.ops ensures |Charged(t.charges, o)| <= MAXOPBLOCKS {
      assert Charged(t.charges, o) == Charged(s.charges, o);
    }
    assert s.charges == t.charges + Charged(s.charges, op);
    assert |s.charges| == |t.charges| + |Charged(s.charges, op)|;
    assert |s.ops| == |t.ops| + 1;
  }

  lemma OnDiskStep(g: Geometry, s: State, a: Action)
    requires Shape(g, s) && OnDisk(g, s) && Enabled(g, s, a) && Shape(g, Do(g, s, a))
    ensures OnDisk(g, Do(g, s, a))
  {
    match a
    case WriteLogBlock => OnDiskWriteLog(g, s);
    case WriteHeader => OnDiskWriteHeader(g, s);
    case InstallBlock => OnDiskInstall(g, s);
    case ClearHeader => OnDiskClear(g, s);
    case _ =>
  }

  lemma OnDiskWriteLog(g: Geometry, s: State)
    requires Shape(g, s) && OnDisk(g, s) && Enabled(g, s, WriteLogBlock) && Shape(g, Do(g, s, WriteLogBlock))
    ensures OnDisk(g, Do(g, s, WriteLogBlock))
  {
    var t := Do(g, s, WriteLogBlock);
    forall i | 0 <= i < t.phase.tail ensures t.disk[g.start + 1 + i] == t.view[t.lh[i]] {
      assert g.Home(s.lh[i]);
    }
  }

  lemma OnDiskWriteHeader(g: Geometry, s: State)
    requires Shape(g, s) && OnDisk(g, s) && Enabled(g, s, WriteHeader) && Shape(g, Do(g, s, WriteHeader))
    ensures OnDisk(g, Do(g, s, WriteHeader))
  {
  }

  lemma OnDiskInstall(g: Geometry, s: State)
    requires Shape(g, s) && OnDisk(g, s) && Enabled(g, s, InstallBlock) && Shape(g, Do(g, s, InstallBlock))
    ensures OnDisk(g, Do(g, s, InstallBlock))
  {
    hide HeadBlocks, HeaderOK;
    var t := Do(g, s, InstallBlock);
    var home := s.lh[s.phase.tail];
    assert g.Home(home) && s.view[g.start + 1 + s.phase.tail] == s.disk[g.start + 1 + s.phase.tail];
    forall b | g.start <= b <= g.start + LOGBLOCKS ensures t.disk[b] == s.disk[b] && t.view[b] == s.view[b] {}
    InstalledEntries(g, s, t);
    forall b | g.Home(b) && b !in t.lh ensures t.view[b] == t.disk[b] {}
  }

  lemma InstalledEntries(g: Geometry, s: State, t: State)
    requires Shape(g, s) && OnDisk(g, s) && Enabled(g, s, InstallBlock) && t == Do(g, s, InstallBlock)
    ensures forall i | 0 <= i < t.phase.tail :: t.disk[t.lh[i]] == t.disk[g.start + 1 + i] && t.view[t.lh[i]] == t.disk[t.lh[i]]
  {
    hide HeadBlocks, HeaderOK;
    var k := s.phase.tail;
    forall i | 0 <= i < t.phase.tail
      ensures t.disk[t.lh[i]] == t.disk[g.start + 1 + i] && t.view[t.lh[i]] == t.disk[t.lh[i]]
    {
      assert g.Home(s.lh[i]) && g.Home(s.lh[k]);
      assert i < k ==> s.lh[i] != s.lh[k];
    }
  }

  lemma OnDiskClear(g: Geometry, s: State)
    requires Shape(g, s) && OnDisk(g, s) && Enabled(g, s, ClearHeader) && Shape(g, Do(g, s, ClearHeader))
    ensures OnDisk(g, Do(g, s, ClearHeader))
  {
  }

  // Crash safety of the four kinds of disk write: what a disk stands for
  // changes only when a header with entries reaches it.

  /** Filling the log area under an empty header changes nothing. */
  lemma LogBlockIsInvisible(g: Geometry, d: Disk, v: Disk, b: int, x: Block)
    requires RecoversTo(g, d, v) && HeadBlocks(d[g.start]) == []
    requires g.start < b <= g.start + LOGBLOCKS
    ensures RecoversTo(g, d[b := x], v)
  {
  }

  /** The header write switches the disk to the logged contents at once. */
  lemma HeaderPublishes(g: Geometry, d: Disk, v: Disk, w: Disk, blocks: seq<int>)
    requires RecoversTo(g, d, v) && HeadBlocks(d[g.start]) == []
    requires |w| == g.size && DistinctHomes(g, blocks)
    requires forall i | 0 <= i < |blocks| :: d[g.start + 1 + i] == w[blocks[i]]
    requires forall b | g.Home(b) && b !in blocks :: w[b] == d[b]
    ensures RecoversTo(g, d[g.start := PutHead(d[g.start], blocks)], w)
  {
  }

  /** Installing block k, once or again, changes nothing, on disk or in a cache w
      that has the log block. */
  lemma InstallIsInvisible(g: Geometry, d: Disk, w: Disk, v: Disk, lh: seq<int>, k: nat)
    requires RecoversTo(g, d, v) && HeadBlocks(d[g.start]) == lh && k < |lh| && DistinctHomes(g, lh)
    requires |w| == g.size && w[g.start + 1 + k] == d[g.start + 1 + k]
    ensures g.Home(lh[k]) && RecoversTo(g, d[lh[k] := w[g.start + 1 + k]], v)
    ensures SameHomes(g, w, v) ==> SameHomes(g, w[lh[k] := w[g.start + 1 + k]], v)
  {
  }

  /** Erasing the header after a full installation changes nothing. */
  lemma ClearIsInvisible(g: Geometry, d: Disk, v: Disk)
    requires RecoversTo(g, d, v)
    requires forall i | 0 <= i < |HeadBlocks(d[g.start])| :: d[HeadBlocks(d[g.start])[i]] == d[g.start + 1 + i]
    ensures RecoversTo(g, d[g.start := PutHead(d[g.start], [])], v)
    ensures SameHomes(g, d, v)
  {
  }

  lemma ContentsStep(g: Geometry, base: Disk, s: State, a: Action)
    requires Shape(g, s) && OnDisk(g, s) && Contents(g, base, s) && Enabled(g, s, a)
    requires Shape(g, Do(g, s, a)) && OnDisk(g, Do(g, s, a))
    ensures Contents(g, base, Do(g, s, a))
  {
    hide HeaderOK, DistinctHomes, RecoversTo, Replay;
    match a
    case LogWrite(op, b, v) => ContentsLogWrite(g, base, s, op, b, v);
    case WriteLogBlock => ContentsWriteLog(g, base, s);
    case WriteHeader => ContentsWriteHeader(g, base, s);
    case InstallBlock => ContentsInstall(g, base, s);
    case ClearHeader => ContentsClear(g, base, s);
    case Crash =>
      var t := Do(g, s, Crash);
      assert t.kept[..t.durable] == s.kept[..s.durable];
    case _ =>
  }

  lemma ContentsLogWrite(g: Geometry, base: Disk, s: State, op: OpId, b: nat, v: Block)
    requires Shape(g, s) && OnDisk(g, s) && Contents(g, base, s) && Enabled(g, s, LogWrite(op, b, v))
    requires Shape(g, Do(g, s, LogWrite(op, b, v)))
    ensures Contents(g, base, Do(g, s, LogWrite(op, b, v)))
  {
    var t := Do(g, s, LogWrite(op, b, v));
    ReplaySnoc(base, s.kept, Event(op, b, v));
    assert t.kept[..t.durable] == s.kept[..s.durable];
  }

  lemma ContentsWriteLog(g: Geometry, base: Disk, s: State)
    requires Shape(g, s) && OnDisk(g, s) && Contents(g, base, s) && Enabled(g, s, WriteLogBlock)
    requires Shape(g, Do(g, s, WriteLogBlock))
    ensures Contents(g, base, Do(g, s, WriteLogBlock))
  {
    LogBlockIsInvisible(g, s.disk, Replay(base, s.kept[..s.durable]), g.start + 1 + s.phase.tail, s.view[s.lh[s.phase.tail]]);
  }

  lemma ContentsWriteHeader(g: Geometry, base: Disk, s: State)
    requires Shape(g, s) && OnDisk(g, s) && Contents(g, base, s) && Enabled(g, s, WriteHeader)
    requires Shape(g, Do(g, s, WriteHeader))
    ensures Contents(g, base, Do(g, s, WriteHeader))
  {
    var t := Do(g, s, WriteHeader);
    var w := Replay(base, s.kept);
    assert t.kept[..t.durable] == s.kept;
    assert s.view[g.start] == s.disk[g.start];
    forall i | 0 <= i < |s.lh| ensures s.disk[g.start + 1 + i] == w[s.lh[i]] {
      assert g.Home(s.lh[i]);
    }
    HeaderPublishes(g, s.disk, Replay(base, s.kept[..s.durable]), w, s.lh);
  }

  lemma ContentsInstall(g: Geometry, base: Disk, s: State)
    requires Shape(g, s) && OnDisk(g, s) && Contents(g, base, s) && Enabled(g, s, InstallBlock)
    requires Shape(g, Do(g, s, InstallBlock))
    ensures Contents(g, base, Do(g, s, InstallBlock))
  {
    hide Replay, RecoversTo, HeadBlocks, DistinctHomes, SameHomes, HeaderOK;
    assert s.kept[..s.durable] == s.kept;
    InstallIsInvisible(g, s.disk, s.view, Replay(base, s.kept), s.lh, s.phase.tail);
  }

  lemma ContentsClear(g: Geometry, base: Disk, s: State)
    requires Shape(g, s) && OnDisk(g, s) && Contents(g, base, s) && Enabled(g, s, ClearHeader)
    requires Shape(g, Do(g, s, ClearHeader)) && OnDisk(g, Do(g, s, ClearHeader))
    ensures Contents(g, base, Do(g, s, ClearHeader))
  {
    assert s.kept[..s.durable] == s.kept;
    assert s.view[g.start] == s.disk[g.start];
    ClearIsInvisible(g, s.disk, Replay(base, s.kept));
  }

  lemma WholeStep(g: Geometry, s: State, a: Action)
    requires Shape(g, s) && Whole(s) && Enabled(g, s, a)
    requires Shape(g, Do(g, s, a))
    ensures Whole(Do(g, s, a))
  {
    var t := Do(g, s, a);
    if a.Begin? {
      assert KeptWhole(s, a.op);
    }
    forall op: OpId ensures KeptWhole(t, op) {
      assert KeptWhole(s, op);
      match a
      case LogWrite(o, b, v) => KeptLogWrite(g, s, o, b, v, op);
      case WriteHeader => KeptWriteHeader(g, s, op);
      case Crash =>
        assert t.kept[..t.durable] == s.kept[..s.durable];
        assert t.kept[t.durable..] == [];
      case _ =>
    }
  }

  lemma KeptLogWrite(g: Geometry, s: State, o: OpId, b: nat, v: Block, op: OpId)
    requires Shape(g, s) && s.ops <= s.current && s.committed !! s.current
    requires Enabled(g, s, LogWrite(o, b, v)) && KeptWhole(s, op)
    ensures KeptWhole(Do(g, s, LogWrite(o, b, v)), op)
  {
    var t := Do(g, s, LogWrite(o, b, v));
    var e := Event(o, b, v);
    assert t.kept[..t.durable] == s.kept[..s.durable];
    assert t.kept[t.durable..] == s.kept[s.durable..] + [e];
    ProjSnoc(s.kept[s.durable..], e, op);
  }

  lemma KeptWriteHeader(g: Geometry, s: State, op: OpId)
    requires Shape(g, s) && Enabled(g, s, WriteHeader) && KeptWhole(s, op)
    ensures KeptWhole(Do(g, s, WriteHeader), op)
  {
    var t := Do(g, s, WriteHeader);
    assert t.kept[..t.durable] == s.kept[..s.durable] + s.kept[s.durable..];
    assert t.kept[t.durable..] == [];
    ProjAppend(s.kept[..s.durable], s.kept[s.durable..], op);
  }

  /** Every action keeps the invariant. */
  lemma InvStep(g: Geometry, base: Disk, s: State, a: Action)
    requires Inv(g, base, s) && Enabled(g, s, a)
    ensures Inv(g, base, Do(g, s, a))
  {
    ShapeStep(g, s, a);
    ReservationStep(g, s, a);
    OnDiskStep(g, s, a);
    ContentsStep(g, base, s, a);
    WholeStep(g, s, a);
  }

  lemma InvInit(g: Geometry, base: Disk, s: State)
    requires Init(g, base, s)
    ensures Inv(g, base, s)
  {
  }

  // ---- Whole runs ----

  /** Any interleaving of operations, disk writes and crashes. */
  datatype Run = Run(states: seq<State>, actions: seq<Action>) {
    function Last(): State
      requires |states| > 0
    {
      states[|states| - 1]
    }
  }

  predicate StepOf(g: Geometry, s: State, a: Action, t: State) {
    Enabled(g, s, a) && t == Do(g, s, a)
  }

  predicate ValidRun(g: Geometry, base: Disk, r: Run) {
    && |r.states| == |r.actions| + 1
    && Init(g, base, r.states[0])
    && forall i | 0 <= i < |r.actions| :: StepOf(g, r.states[i], r.actions[i], r.states[i + 1])
  }

  lemma {:induction false} RunInv(g: Geometry, base: Disk, r: Run, k: nat)
    requires ValidRun(g, base, r) && k < |r.states|
    ensures Inv(g, base, r.states[k])
  {
    hide Inv, Do, Enabled, Init;
    if k == 0 {
      InvInit(g, base, r.states[0]);
    } else {
      RunInv(g, base, r, k - 1);
      assert StepOf(g, r.states[k - 1], r.actions[k - 1], r.states[k]);
      InvStep(g, base, r.states[k - 1], r.actions[k - 1]);
    }
  }

  /** A moment at which no operation is in progress and the cache is up. */
  predicate Quiescent(s: State) {
    s.ops == {} && s.phase != Rebooting && !(s.phase.Installing? && s.phase.recovering)
  }

  /** The home contents a crash right now would recover to. */
  lemma RecoveredMeaning(g: Geometry, base: Disk, s: State)
    requires Inv(g, base, s)
    ensures g.Valid() && |s.disk| == g.size && HeaderOK(g, s.disk) && s.durable <= |s.kept|
    ensures SameHomes(g, Recover(g, s.disk), Replay(base, s.kept[..s.durable]))
    ensures Quiescent(s) ==> SameHomes(g, s.view, Replay(base, s.kept))
    ensures s.phase.WritingLog? ==> s.ops == {}
  {
    RecoverSpec(g, s.disk, Replay(base, s.kept[..s.durable]));
  }

  /** What a crash would recover to changes only when a header lands, and then
      it becomes the whole cached state of a quiescent moment. */
  lemma RecoveredChangesOnlyAtHeader(g: Geometry, base: Disk, s: State, a: Action)
    requires Inv(g, base, s) && Enabled(g, s, a)
    ensures Inv(g, base, Do(g, s, a))
    ensures a != WriteHeader ==> SameHomes(g, Recover(g, Do(g, s, a).disk), Recover(g, s.disk))
    ensures a == WriteHeader ==> Quiescent(s) && SameHomes(g, Recover(g, Do(g, s, a).disk), s.view)
  {
    hide Inv;
    InvStep(g, base, s, a);
    var t := Do(g, s, a);
    RecoveredMeaning(g, base, s);
    RecoveredMeaning(g, base, t);
    if a == WriteHeader {
      assert t.kept[..t.durable] == s.kept;
    } else {
      assert t.kept[..t.durable] == s.kept[..s.durable];
    }
  }

  /** Crash atomicity: wherever a crash strikes, recovery yields the logical
      state of an earlier moment with no operation outstanding. */
  lemma {:induction false} CrashAtomicity(g: Geometry, base: Disk, r: Run, k: nat) returns (i: nat)
    requires ValidRun(g, base, r) && k < |r.states|
    ensures Inv(g, base, r.states[k])
    ensures i <= k && Quiescent(r.states[i])
    ensures SameHomes(g, Recover(g, r.states[k].disk), r.states[i].view)
    ensures forall j | i < j < k :: r.actions[j] != WriteHeader
  {
    hide Inv, Do, Enabled;
    RunInv(g, base, r, k);
    RecoveredMeaning(g, base, r.states[k]);
    if k == 0 {
      i := 0;
      assert r.states[0].kept[..0] == [];
    } else {
      RunInv(g, base, r, k - 1);
      assert StepOf(g, r.states[k - 1], r.actions[k - 1], r.states[k]);
      RecoveredChangesOnlyAtHeader(g, base, r.states[k - 1], r.actions[k - 1]);
      if r.actions[k - 1] == WriteHeader {
        i := k - 1;
      } else {
        i := CrashAtomicity(g, base, r, k - 1);
      }
    }
  }

  /** All or nothing: the recovered disk is the replay of a sequence of logged
      writes in which every operation appears completely or not at all, and
      completely once the header of its transaction has landed. */
  lemma AllOrNothing(g: Geometry, base: Disk, r: Run, k: nat) returns (ev: seq<Event>)
    requires ValidRun(g, base, r) && k < |r.states|
    ensures Inv(g, base, r.states[k])
    ensures SameHomes(g, Recover(g, r.states[k].disk), Replay(base, ev))
    ensures forall op: OpId :: KeptOrLost(r.states[k], ev, op)
  {
    RunInv(g, base, r, k);
    var s := r.states[k];
    ev := s.kept[..s.durable];
    RecoveredMeaning(g, base, s);
    forall op: OpId ensures KeptOrLost(s, ev, op) {
      assert KeptWhole(s, op);
    }
  }

  /** How operation `op` appears in a recovered history `ev`. */
  predicate KeptOrLost(s: State, ev: seq<Event>, op: OpId) {
    && (op in s.committed ==> op in s.issued && Proj(ev, op) == s.issued[op])
    && (op !in s.issued || op in s.ops ==> Proj(ev, op) == [])
    && (op in s.issued ==> Proj(ev, op) == s.issued[op] || Proj(ev, op) == [])
  }

  lemma CommittedStep(g: Geometry, s: State, a: Action, op: OpId)
    requires Shape(g, s) && Whole(s) && Enabled(g, s, a) && op in s.committed
    ensures op in Do(g, s, a).committed
    ensures op in s.issued && op in Do(g, s, a).issued && Do(g, s, a).issued[op] == s.issued[op]
  {
    assert KeptWhole(s, op);
  }

  /** A committed operation stays committed, and its record is never revised. */
  lemma {:induction false} StaysCommitted(g: Geometry, base: Disk, r: Run, i: nat, k: nat, op: OpId)
    requires ValidRun(g, base, r) && i < k < |r.states|
    requires op in r.states[i].committed
    ensures op in r.states[k].committed
    ensures op in r.states[i].issued && op in r.states[k].issued && r.states[k].issued[op] == r.states[i].issued[op]
    decreases k - i
  {
    hide Do, Enabled, Shape, Whole, OnDisk, Contents, Reservation;
    if i < k - 1 {
      StaysCommitted(g, base, r, i, k - 1, op);
    }
    RunInv(g, base, r, k - 1);
    assert StepOf(g, r.states[k - 1], r.actions[k - 1], r.states[k]);
    CommittedStep(g, r.states[k - 1], r.actions[k - 1], op);
  }

  /** All that a committed operation has logged is in the recovered disk of every
      later state, through any number of crashes. */
  lemma CommittedForever(g: Geometry, base: Disk, r: Run, i: nat, k: nat, op: OpId) returns (ev: seq<Event>)
    requires ValidRun(g, base, r) && i < k < |r.states| && op in r.states[i].committed
    ensures Inv(g, base, r.states[k]) && op in r.states[i].issued
    ensures SameHomes(g, Recover(g, r.states[k].disk), Replay(base, ev))
    ensures Proj(ev, op) == r.states[i].issued[op]
  {
    hide ValidRun, Inv, Recover;
    ev := AllOrNothing(g, base, r, k);
    StaysCommitted(g, base, r, i, k, op);
    assert KeptOrLost(r.states[k], ev, op);
  }

  /** The writes a header write at this state makes durable. */
  function Landing(s: State): seq<Event>
    requires s.durable <= |s.kept|
  {
    s.kept[s.durable..]
  }

  lemma CommittedByHeader(g: Geometry, base: Disk, s: State, op: OpId)
    requires Inv(g, base, s) && Enabled(g, s, WriteHeader)
    ensures s.durable <= |s.kept| && s.ops == {}
    ensures Proj(Landing(s), op) != [] ==> op in s.issued && Proj(Landing(s), op) == s.issued[op] && op in Do(g, s, WriteHeader).committed
    ensures op in s.committed ==> Proj(Landing(s), op) == []
  {
    hide Reservation, OnDisk, Contents;
    assert KeptWhole(s, op);
  }

  /** No operation is split over two commits: of two header writes in a run at most
      one makes writes of it durable, and then all it ever logged. */
  lemma NeverSplit(g: Geometry, base: Disk, r: Run, j: nat, k: nat, op: OpId)
    requires ValidRun(g, base, r) && j < k < |r.actions| && r.actions[j] == r.actions[k] == WriteHeader
    ensures Inv(g, base, r.states[j]) && Inv(g, base, r.states[k])
    ensures Proj(Landing(r.states[j]), op) == [] || Proj(Landing(r.states[k]), op) == []
    ensures Proj(Landing(r.states[j]), op) != [] ==>
              op in r.states[k].issued && Proj(Landing(r.states[j]), op) == r.states[k].issued[op]
  {
    hide Inv, Enabled, Do, Landing;
    RunInv(g, base, r, j);
    RunInv(g, base, r, k);
    assert StepOf(g, r.states[j], WriteHeader, r.states[j + 1]) && StepOf(g, r.states[k], WriteHeader, r.states[k + 1]);
    CommittedByHeader(g, base, r.states[j], op);
    CommittedByHeader(g, base, r.states[k], op);
    if Proj(Landing(r.states[j]), op) != [] {
      IssuedAtHeader(g, r.states[j], op);
      if j + 1 < k {
        StaysCommitted(g, base, r, j + 1, k, op);
      }
    }
  }

  lemma IssuedAtHeader(g: Geometry, s: State, op: OpId)
    requires Enabled(g, s, WriteHeader)
    ensures Do(g, s, WriteHeader).issued == s.issued
  {
  }

  // ---- Reservation ----

  /** A within-budget write of a block not yet logged always finds room. */
  lemma AppendFits(g: Geometry, base: Disk, s: State, op: OpId, b: int)
    requires Inv(g, base, s) && op in s.ops && b !in s.lh
    requires |Charged(s.charges + {(op, b)}, op)| <= MAXOPBLOCKS
    ensures |s.lh| < LOGBLOCKS
  {
    var c := s.charges + {(op, b)};
    forall o | o in s.ops ensures |Charged(c, o)| <= MAXOPBLOCKS {
      if o != op {
        assert Charged(c, o) == Charged(s.charges, o);
      }
    }
    ChargeBound(c, s.ops);
  }

  /** A full log means every outstanding operation has spent its whole budget,
      so the only within-budget writes left are repeats of logged blocks. */
  lemma FullLogMeansSpent(g: Geometry, base: Disk, s: State)
    requires Inv(g, base, s) && |s.lh| == LOGBLOCKS && s.phase == Running
    ensures forall op | op in s.ops :: |Charged(s.charges, op)| == MAXOPBLOCKS
  {
    forall op | op in s.ops ensures |Charged(s.charges, op)| == MAXOPBLOCKS {
      var rest := s.charges - Charged(s.charges, op);
      forall o | o in s.ops - {op} ensures |Charged(rest, o)| <= MAXOPBLOCKS {
        assert Charged(rest, o) == Charged(s.charges, o);
      }
      ChargeBound(rest, s.ops - {op});
      assert s.charges == rest + Charged(s.charges, op);
    }
  }

  /** A write within its operation's budget is refused exactly when the log is full
      and already lists the block. */
  lemma RefusedExactly(g: Geometry, base: Disk, s: State, op: OpId, b: nat, v: Block)
    requires Inv(g, base, s) && s.phase == Running && op in s.ops && g.Home(b)
    requires |Charged(s.charges + {(op, b)}, op)| <= MAXOPBLOCKS
    ensures Enabled(g, s, LogWrite(op, b, v)) <==> !(|s.lh| == LOGBLOCKS && b in s.lh)
  {
    hide Reservation, OnDisk, Contents, Whole;
    if b !in s.lh {
      AppendFits(g, base, s, op, b);
    }
    forall i | 0 <= i < |s.lh| ensures 0 <= s.lh[i] < g.size {
      assert g.Home(s.lh[i]);
    }
  }

  /** An idle log is empty and admits any new operation; no operation can end
      while a commit is in progress. */
  lemma IdleAdmits(g: Geometry, base: Disk, s: State, op: OpId)
    requires Inv(g, base, s)
    ensures s.phase == Running && s.ops == {} ==> s.lh == []
    ensures s.phase == Running && s.ops == {} && op !in s.issued ==> Enabled(g, s, Begin(op))
    ensures Enabled(g, s, End(op)) ==> !s.committing
  {
  }

  // ---- Recovery step by step ----

  lemma RecoveryStarts(g: Geometry, base: Disk, s: State)
    requires Inv(g, base, s) && s.phase == Rebooting
    ensures Enabled(g, s, ReadHeader)
    ensures var t := Do(g, s, ReadHeader);
            && t.phase == Installing(0, true) && t.lh == HeadBlocks(s.disk[g.start])
            && t.disk == t.view == s.disk
  {
  }

  lemma RecoveryInstalls(g: Geometry, base: Disk, d: Disk, s: State, k: nat)
    requires Inv(g, base, s) && s.phase == Installing(k, true) && k < |s.lh|
    requires |d| == g.size && s.disk == s.view == Installed(g, d, s.lh, k)
    ensures Enabled(g, s, InstallBlock)
    ensures var t := Do(g, s, InstallBlock);
            && t.phase == Installing(k + 1, true) && t.lh == s.lh
            && t.disk == t.view == Installed(g, d, s.lh, k + 1)
  {
    hide OnDisk, Contents, Reservation, Whole, HeaderOK;
    assert forall i | 0 <= i < |s.lh| :: g.Home(s.lh[i]);
  }

  /** Installed block by block, the machine's recovery computes Recover. */
  lemma {:induction false} RecoverySteps(g: Geometry, base: Disk, s: State, k: nat) returns (t: State, acts: seq<Action>)
    requires Inv(g, base, s) && s.phase == Rebooting
    requires k <= |HeadBlocks(s.disk[g.start])|
    ensures Inv(g, base, t) && t.phase == Installing(k, true)
    ensures t.lh == HeadBlocks(s.disk[g.start])
    ensures t.disk == t.view == Installed(g, s.disk, t.lh, k)
    ensures |acts| == k + 1 && Crash !in acts && Steps(g, s, acts, t)
  {
    hide Do, Enabled, Contents, Reservation, OnDisk, Whole;
    if k == 0 {
      RecoveryStarts(g, base, s);
      InvStep(g, base, s, ReadHeader);
      t := Do(g, s, ReadHeader);
      acts := [ReadHeader];
      assert Steps(g, t, acts[1..], t);
    } else {
      var p, pa := RecoverySteps(g, base, s, k - 1);
      RecoveryInstalls(g, base, s.disk, p, k - 1);
      InvStep(g, base, p, InstallBlock);
      t := Do(g, p, InstallBlock);
      acts := pa + [InstallBlock];
      StepsSnoc(g, s, pa, p, InstallBlock);
    }
  }

  /** Left alone, a rebooted system reaches the running state with its disk
      exactly as Recover says. */
  lemma RecoveryCompletes(g: Geometry, base: Disk, s: State) returns (t: State, acts: seq<Action>)
    requires Inv(g, base, s) && s.phase == Rebooting
    ensures Inv(g, base, t) && t.phase == Running && t.ops == {}
    ensures t.disk == t.view == Recover(g, s.disk)
    ensures Crash !in acts && Steps(g, s, acts, t)
  {
    hide OnDisk, Contents, Reservation, Whole, Steps;
    var p, pa := RecoverySteps(g, base, s, |HeadBlocks(s.disk[g.start])|);
    assert Enabled(g, p, ClearHeader) by {
      assert forall i | 0 <= i < |p.lh| :: g.Home(p.lh[i]);
    }
    InvStep(g, base, p, ClearHeader);
    t := Do(g, p, ClearHeader);
    acts := pa + [ClearHeader];
    StepsSnoc(g, s, pa, p, ClearHeader);
  }

  predicate Steps(g: Geometry, s: State, acts: seq<Action>, t: State)
    decreases |acts|
  {
    if acts == [] then s == t
    else Enabled(g, s, acts[0]) && Steps(g, Do(g, s, acts[0]), acts[1..], t)
  }

  lemma {:induction false} StepsSnoc(g: Geometry, s: State, acts: seq<Action>, p: State, a: Action)
    requires Steps(g, s, acts, p) && Enabled(g, p, a)
    ensures Steps(g, s, acts + [a], Do(g, p, a))
    decreases |acts|
  {
    if acts == [] {
      assert Steps(g, Do(g, p, a), [a][1..], Do(g, p, a));
    } else {
      StepsSnoc(g, Do(g, s, acts[0]), acts[1..], p, a);
      assert (acts + [a])[1..] == acts[1..] + [a];
    }
  }
}
