/** The block tree of a file, kernel/fs.c: direct, indirect and doubly-indirect
    blocks of every inode, and the free map over them, as one value. */
module FsTree {
  import opened Params

  type Byte = x: int | 0 <= x < 256

  type Block = b: seq<Byte> | |b| == BSIZE witness seq(BSIZE, _ => 0)

  const WORD_LIMIT := 0x1_0000_0000

  function ZeroBlock(): Block {
    seq(BSIZE, _ => 0)
  }

  // ---- A pointer block as 256 little-endian words ----

  function Word(b: Block, i: int): (w: int)
    requires 0 <= i < NINDIRECT
    ensures 0 <= w < WORD_LIMIT
  {
    Combine(b[4 * i], b[4 * i + 1], b[4 * i + 2], b[4 * i + 3])
  }

  function Combine(b0: int, b1: int, b2: int, b3: int): (w: int)
    ensures 0 <= b0 < 256 && 0 <= b1 < 256 && 0 <= b2 < 256 && 0 <= b3 < 256 ==> 0 <= w < WORD_LIMIT
  {
    b0 + 256 * b1 + 65536 * b2 + 16777216 * b3
  }

  lemma Digits(w: int)
    requires 0 <= w < WORD_LIMIT
    ensures 0 <= w / 16777216 < 256
    ensures Combine(w % 256, w / 256 % 256, w / 65536 % 256, w / 16777216) == w
  {
    assert w / 65536 == w / 256 / 256;
    assert w / 16777216 == w / 65536 / 256;
  }

  /** The bytes of a word, the lowest first. */
  lemma WordDigits(b: Block, i: int)
    requires 0 <= i < NINDIRECT
    ensures b[4 * i] == Word(b, i) % 256 && b[4 * i + 1] == Word(b, i) / 256 % 256
    ensures b[4 * i + 2] == Word(b, i) / 65536 % 256 && b[4 * i + 3] == Word(b, i) / 16777216
  {
    var b1: int, b2: int, b3: int := b[4 * i + 1], b[4 * i + 2], b[4 * i + 3];
    LowDigit(b[4 * i], b1 + 256 * b2 + 65536 * b3);
    LowDigit(b1, b2 + 256 * b3);
    LowDigit(b2, b3);
    Quotients(Word(b, i));
  }

  lemma LowDigit(d: int, rest: int)
    requires 0 <= d < 256
    ensures (d + 256 * rest) % 256 == d && (d + 256 * rest) / 256 == rest
  {
  }

  lemma Quotients(w: int)
    ensures w / 65536 == w / 256 / 256 && w / 16777216 == w / 256 / 256 / 256
  {
    assert w / 16777216 == w / 65536 / 256;
  }

  function SetWord(b: Block, i: int, w: int): (r: Block)
    requires 0 <= i < NINDIRECT && 0 <= w < WORD_LIMIT
    ensures Word(r, i) == w
    ensures forall j | 0 <= j < NINDIRECT && j != i :: Word(r, j) == Word(b, j)
  {
    Digits(w);
    PutBytes(b, 4 * i, w % 256, w / 256 % 256, w / 65536 % 256, w / 16777216)
  }

  function PutBytes(b: Block, k: int, b0: Byte, b1: Byte, b2: Byte, b3: Byte): (r: Block)
    requires 0 <= k <= BSIZE - 4
    ensures r[k] == b0 && r[k + 1] == b1 && r[k + 2] == b2 && r[k + 3] == b3
    ensures forall j | 0 <= j < BSIZE && !(k <= j < k + 4) :: r[j] == b[j]
  {
    b[k := b0][k + 1 := b1][k + 2 := b2][k + 3 := b3]
  }

  lemma ZeroWords(i: int)
    requires 0 <= i < NINDIRECT
    ensures Word(ZeroBlock(), i) == 0
  {
  }

  // ---- Inodes and slots ----

  const IND := NDIRECT
  const DBL := NDIRECT + 1

  /** addrs has the NDIRECT + 2 entries of struct dinode. */
  datatype Inode = Inode(addrs: seq<int>, size: int)

  datatype Fs = Fs(meta: int, used: seq<bool>, blk: seq<Block>, ino: seq<Inode>)

  /** A place in a file's tree that can hold a block number. */
  datatype Slot =
    | Top(i: int)              // addrs[i], the two roots IND and DBL included
    | IndLeaf(j: int)
    | DblMid(i: int)
    | DblLeaf(i: int, j: int)

  predicate IsSlot(sl: Slot) {
    match sl
    case Top(i) => 0 <= i <= DBL
    case IndLeaf(j) => 0 <= j < NINDIRECT
    case DblMid(i) => 0 <= i < NINDIRECT
    case DblLeaf(i, j) => 0 <= i < NINDIRECT && 0 <= j < NINDIRECT
  }

  /** The slot whose block stores slot `sl`. */
  function Parent(sl: Slot): Slot
    requires !sl.Top?
  {
    match sl
    case IndLeaf(_) => Top(IND)
    case DblMid(_) => Top(DBL)
    case DblLeaf(i, _) => DblMid(i)
  }

  function Index(sl: Slot): int {
    match sl
    case Top(i) => i
    case IndLeaf(j) => j
    case DblMid(i) => i
    case DblLeaf(_, j) => j
  }

  function Depth(sl: Slot): nat {
    match sl
    case Top(_) => 0
    case IndLeaf(_) => 1
    case DblMid(_) => 1
    case DblLeaf(_, _) => 2
  }

  predicate Shaped(s: Fs) {
    && 0 < s.meta <= |s.blk| == |s.used| <= WORD_LIMIT
    && forall p | 0 <= p < |s.ino| :: |s.ino[p].addrs| == NDIRECT + 2
  }

  predicate IsFile(s: Fs, p: int) {
    0 <= p < |s.ino|
  }

  /** The block number in a slot; 0 is none.  A slot below an empty slot is empty. */
  function Val(s: Fs, p: int, sl: Slot): int
    requires Shaped(s) && IsFile(s, p) && IsSlot(sl)
    decreases Depth(sl)
  {
    if sl.Top? then s.ino[p].addrs[sl.i]
    else
      var a := Val(s, p, Parent(sl));
      if 0 < a < |s.blk| then Word(s.blk[a], Index(sl)) else 0
  }

  /** The slot of the bn-th block of a file. */
  function Leaf(bn: int): (sl: Slot)
    requires 0 <= bn < MAXFILE
    ensures IsSlot(sl)
  {
    if bn < NDIRECT then Top(bn)
    else if bn - NDIRECT < NINDIRECT then IndLeaf(bn - NDIRECT)
    else DblLeaf((bn - NDIRECT - NINDIRECT) / NINDIRECT, (bn - NDIRECT - NINDIRECT) % NINDIRECT)
  }

  lemma LeafInjective(a: int, b: int)
    requires 0 <= a < MAXFILE && 0 <= b < MAXFILE && Leaf(a) == Leaf(b)
    ensures a == b
  {
  }

  predicate IsLeaf(sl: Slot) {
    (sl.Top? && sl.i < NDIRECT) || sl.IndLeaf? || sl.DblLeaf?
  }

  // ---- The invariant ----

  datatype Place = Place(p: int, sl: Slot)

  predicate IsPlace(s: Fs, x: Place) {
    IsFile(s, x.p) && IsSlot(x.sl)
  }

  function At(s: Fs, x: Place): int
    requires Shaped(s) && IsPlace(s, x)
  {
    Val(s, x.p, x.sl)
  }

  /** Every block number is a data block that is marked used. */
  ghost predicate Marked(s: Fs)
    requires Shaped(s)
  {
    forall x | IsPlace(s, x) && At(s, x) != 0 :: s.meta <= At(s, x) < |s.blk| && s.used[At(s, x)]
  }

  /** No block is reachable twice, within a file or across files. */
  ghost predicate Once(s: Fs)
    requires Shaped(s)
  {
    forall x, y | IsPlace(s, x) && IsPlace(s, y) && At(s, x) == At(s, y) != 0 :: x == y
  }

  /** A used block is metadata or reachable: nothing leaks. */
  ghost predicate Conserved(s: Fs)
    requires Shaped(s)
  {
    && (forall b | 0 <= b < s.meta :: s.used[b])
    && (forall b | s.meta <= b < |s.blk| && s.used[b] :: Reachable(s, b))
  }

  ghost predicate Reachable(s: Fs, b: int)
    requires Shaped(s)
  {
    exists x :: IsPlace(s, x) && At(s, x) == b
  }

  ghost predicate Tree(s: Fs) {
    Shaped(s) && Marked(s) && Once(s) && Conserved(s)
  }

  /** All blocks below a file's size are there. */
  predicate Backed(s: Fs, p: int, size: int)
    requires Shaped(s) && IsFile(s, p)
  {
    && 0 <= size <= MAXFILE * BSIZE
    && forall bn | 0 <= bn < MAXFILE && bn * BSIZE < size :: Val(s, p, Leaf(bn)) != 0
  }

  ghost predicate Valid(s: Fs) {
    Tree(s) && forall p | IsFile(s, p) :: Backed(s, p, s.ino[p].size)
  }

  /** Empty inodes, with the metadata blocks and no others in use, are in order. */
  lemma EmptyFiles(s: Fs)
    requires 0 < s.meta <= |s.blk| == |s.used| <= WORD_LIMIT
    requires forall b | 0 <= b < |s.used| :: s.used[b] <==> b < s.meta
    requires forall p | 0 <= p < |s.ino| :: s.ino[p] == Inode(NoAddrs(), 0)
    ensures Valid(s) && forall p | IsFile(s, p) :: Contents(s, p) == []
  {
    forall x | IsPlace(s, x) ensures At(s, x) == 0 {
      NothingAt(s, x);
    }
  }

  lemma {:induction false} NothingAt(s: Fs, x: Place)
    requires Shaped(s) && IsPlace(s, x) && forall p | 0 <= p < |s.ino| :: s.ino[p] == Inode(NoAddrs(), 0)
    ensures At(s, x) == 0
    decreases Depth(x.sl)
  {
    if !x.sl.Top? {
      NothingAt(s, Place(x.p, Parent(x.sl)));
    }
  }

  // ---- Growing a tree ----

  /** balloc of block `b`: mark it and zero it. */
  function Allot(s: Fs, b: int): Fs
    requires 0 <= b < |s.used| == |s.blk|
  {
    s.(used := s.used[b := true], blk := s.blk[b := ZeroBlock()])
  }

  /** Store block number `b` in a slot whose parent is there. */
  function SetSlot(s: Fs, p: int, sl: Slot, b: int): Fs
    requires Shaped(s) && IsFile(s, p) && IsSlot(sl) && 0 <= b < WORD_LIMIT
    requires sl.Top? || 0 < Val(s, p, Parent(sl)) < |s.blk|
  {
    if sl.Top? then s.(ino := s.ino[p := Inode(s.ino[p].addrs[sl.i := b], s.ino[p].size)])
    else
      var a := Val(s, p, Parent(sl));
      s.(blk := s.blk[a := SetWord(s.blk[a], Index(sl), b)])
  }

  /** An empty slot that can be filled, and a free block to fill it with. */
  ghost predicate CanGraft(s: Fs, p: int, sl: Slot, b: int) {
    && Tree(s) && IsFile(s, p) && IsSlot(sl) && Val(s, p, sl) == 0
    && (sl.Top? || Val(s, p, Parent(sl)) != 0)
    && s.meta <= b < |s.blk| && !s.used[b]
  }

  ghost function Graft(s: Fs, p: int, sl: Slot, b: int): Fs
    requires CanGraft(s, p, sl, b)
  {
    ParentInRange(s, p, sl);
    AllotKeeps(s, p, if sl.Top? then sl else Parent(sl), b);
    SetSlot(Allot(s, b), p, sl, b)
  }

  lemma ParentInRange(s: Fs, p: int, sl: Slot)
    requires Tree(s) && IsFile(s, p) && IsSlot(sl)
    ensures !sl.Top? && Val(s, p, Parent(sl)) != 0 ==> s.meta <= Val(s, p, Parent(sl)) < |s.blk| && s.used[Val(s, p, Parent(sl))]
    ensures Val(s, p, sl) != 0 ==> s.meta <= Val(s, p, sl) < |s.blk| && s.used[Val(s, p, sl)]
  {
    assert At(s, Place(p, sl)) == Val(s, p, sl);
    if !sl.Top? {
      assert At(s, Place(p, Parent(sl))) == Val(s, p, Parent(sl));
    }
  }

  /** Marking and zeroing a free block disturbs no tree. */
  lemma {:induction false} AllotKeeps(s: Fs, p: int, sl: Slot, b: int)
    requires Tree(s) && IsFile(s, p) && IsSlot(sl) && s.meta <= b < |s.blk| && !s.used[b]
    ensures Shaped(Allot(s, b)) && Val(Allot(s, b), p, sl) == Val(s, p, sl)
    decreases Depth(sl)
  {
    if !sl.Top? {
      AllotKeeps(s, p, Parent(sl), b);
      ParentInRange(s, p, sl);
    }
  }

  /** Grafting below a pointer block is one word written to it. */
  lemma GraftIn(s: Fs, p: int, sl: Slot, b: int)
    requires CanGraft(s, p, sl, b) && !sl.Top?
    ensures var a := Val(s, p, Parent(sl));
            && s.meta <= a < |s.blk| && a != b
            && Graft(s, p, sl, b) ==
                 Fs(s.meta, s.used[b := true], s.blk[b := ZeroBlock()][a := SetWord(s.blk[a], Index(sl), b)], s.ino)
  {
    hide Word, SetWord;
    ParentInRange(s, p, sl);
    AllotKeeps(s, p, Parent(sl), b);
  }

  /** Grafting fills its slot and no other. */
  lemma {:induction false} GraftVal(s: Fs, p: int, sl: Slot, b: int, x: Place)
    requires CanGraft(s, p, sl, b) && IsPlace(s, x)
    ensures Shaped(Graft(s, p, sl, b)) && IsPlace(Graft(s, p, sl, b), x)
    ensures At(Graft(s, p, sl, b), x) == if x == Place(p, sl) then b else At(s, x)
    decreases Depth(x.sl)
  {
    hide Word, SetWord;
    ParentInRange(s, p, sl);
    AllotKeeps(s, p, if sl.Top? then sl else Parent(sl), b);
    if !x.sl.Top? {
      var px := Place(x.p, Parent(x.sl));
      GraftVal(s, p, sl, b, px);
      ParentInRange(s, x.p, x.sl);
      if px == Place(p, sl) {
        ZeroWords(Index(x.sl));
      } else if !sl.Top? && At(s, px) != 0 {
        if At(s, px) == At(s, Place(p, Parent(sl))) {
          assert px == Place(p, Parent(sl));
        }
      }
    }
  }

  lemma GraftShape(s: Fs, p: int, sl: Slot, b: int)
    requires CanGraft(s, p, sl, b)
    ensures var t := Graft(s, p, sl, b);
            && Shaped(t) && t.meta == s.meta && t.used == s.used[b := true]
            && |t.blk| == |s.blk| && |t.ino| == |s.ino|
            && (forall f | IsFile(s, f) :: t.ino[f].size == s.ino[f].size)
            && (forall f | IsFile(s, f) && f != p :: t.ino[f] == s.ino[f])
  {
    hide Word, SetWord;
    GraftVal(s, p, sl, b, Place(p, sl));
  }

  lemma GraftTree(s: Fs, p: int, sl: Slot, b: int)
    requires CanGraft(s, p, sl, b)
    ensures Tree(Graft(s, p, sl, b))
  {
    hide Graft, Val;
    var t := Graft(s, p, sl, b);
    GraftShape(s, p, sl, b);
    forall x | IsPlace(t, x) ensures At(t, x) == if x == Place(p, sl) then b else At(s, x) {
      GraftVal(s, p, sl, b, x);
    }
    GraftMarked(s, t, Place(p, sl), b);
    GraftOnce(s, t, Place(p, sl), b);
    GraftConserved(s, t, Place(p, sl), b);
  }

  /** t differs from s by block `b` in place `g`. */
  ghost predicate Grown(s: Fs, t: Fs, g: Place, b: int) {
    && Tree(s) && Shaped(t) && IsPlace(s, g) && At(s, g) == 0
    && s.meta <= b < |s.blk| && !s.used[b]
    && t.meta == s.meta && t.used == s.used[b := true] && |t.blk| == |s.blk| && |t.ino| == |s.ino|
    && forall x | IsPlace(t, x) :: At(t, x) == if x == g then b else At(s, x)
  }

  lemma GraftMarked(s: Fs, t: Fs, g: Place, b: int)
    requires Grown(s, t, g, b)
    ensures Marked(t)
  {
    hide At;
    forall x | IsPlace(t, x) && At(t, x) != 0 ensures t.meta <= At(t, x) < |t.blk| && t.used[At(t, x)] {
      assert IsPlace(s, x);
    }
  }

  lemma GraftOnce(s: Fs, t: Fs, g: Place, b: int)
    requires Grown(s, t, g, b)
    ensures Once(t)
  {
    hide At;
    forall x, y | IsPlace(t, x) && IsPlace(t, y) && At(t, x) == At(t, y) != 0 ensures x == y {
      assert IsPlace(s, x) && IsPlace(s, y);
    }
  }

  lemma GraftConserved(s: Fs, t: Fs, g: Place, b: int)
    requires Grown(s, t, g, b)
    ensures Conserved(t)
  {
    hide At;
    forall c | s.meta <= c < |s.blk| && t.used[c] ensures Reachable(t, c) {
      if c == b {
        assert IsPlace(t, g) && At(t, g) == b;
      } else {
        var x :| IsPlace(s, x) && At(s, x) == c;
        assert IsPlace(t, x) && At(t, x) == c;
      }
    }
  }

  // ---- Contents ----

  /** The data block of a file holding byte `k`, and the byte. */
  function DataBlock(s: Fs, p: int, k: int): int
    requires Shaped(s) && IsFile(s, p) && 0 <= k < MAXFILE * BSIZE
  {
    Val(s, p, Leaf(k / BSIZE))
  }

  function FileByte(s: Fs, p: int, k: int): Byte
    requires Shaped(s) && IsFile(s, p) && 0 <= k < MAXFILE * BSIZE
  {
    if 0 < DataBlock(s, p, k) < |s.blk| then s.blk[DataBlock(s, p, k)][k % BSIZE] else 0
  }

  /** A file as the sequence of its bytes. */
  function Contents(s: Fs, p: int): (c: seq<Byte>)
    requires Shaped(s) && IsFile(s, p) && 0 <= s.ino[p].size <= MAXFILE * BSIZE
    ensures |c| == s.ino[p].size
  {
    seq(s.ino[p].size, k requires 0 <= k < s.ino[p].size => FileByte(s, p, k))
  }

  /** Where the bytes of a file are on disk: its block number k / 1024 is in the inode, in
      the indirect block, or in a block the doubly-indirect block names, little-endian. */
  lemma ByteOnDisk(s: Fs, p: int, k: int)
    requires Valid(s) && IsFile(s, p) && 0 <= k < s.ino[p].size
    ensures |s.ino[p].addrs| == 13 && s.ino[p].size <= MAXFILE * BSIZE
    ensures k / 1024 < 11 ==> Holds(s, s.ino[p].addrs[k / 1024]) && Contents(s, p)[k] == s.blk[s.ino[p].addrs[k / 1024]][k % 1024]
    ensures 0 <= k / 1024 - 11 < 256 ==>
              var top := s.ino[p].addrs[11];
              Holds(s, top) && Holds(s, Word(s.blk[top], k / 1024 - 11)) && Contents(s, p)[k] == s.blk[Word(s.blk[top], k / 1024 - 11)][k % 1024]
    ensures 256 <= k / 1024 - 11 ==>
              var top, i, j := s.ino[p].addrs[12], (k / 1024 - 267) / 256, (k / 1024 - 267) % 256;
              Holds(s, top) && i < 256 && Holds(s, Word(s.blk[top], i)) && Holds(s, Word(s.blk[Word(s.blk[top], i)], j)) &&
              Contents(s, p)[k] == s.blk[Word(s.blk[Word(s.blk[top], i)], j)][k % 1024]
  {
    hide Once, Conserved;
    var bn := k / 1024;
    assert Backed(s, p, s.ino[p].size);
    assert bn < MAXFILE && bn * BSIZE < s.ino[p].size;
    InRange(s, p, Leaf(bn));
    if bn >= 11 {
      InRange(s, p, Parent(Leaf(bn)));
    }
    if bn >= 267 {
      InRange(s, p, Top(DBL));
    }
  }

  predicate Holds(s: Fs, a: int) {
    0 < a < |s.blk|
  }

  lemma InRange(s: Fs, p: int, sl: Slot)
    requires Tree(s) && IsFile(s, p) && IsSlot(sl)
    ensures Val(s, p, sl) != 0 ==> 0 < Val(s, p, sl) < |s.blk|
  {
    assert IsPlace(s, Place(p, sl)) && At(s, Place(p, sl)) == Val(s, p, sl);
  }

  /** Grafting changes no data block in use. */
  lemma GraftData(s: Fs, p: int, sl: Slot, b: int, x: Place)
    requires CanGraft(s, p, sl, b) && IsPlace(s, x) && IsLeaf(x.sl) && At(s, x) != 0
    ensures s.meta <= At(s, x) < |s.blk| == |Graft(s, p, sl, b).blk|
    ensures Graft(s, p, sl, b).blk[At(s, x)] == s.blk[At(s, x)]
  {
    hide Word, SetWord;
    GraftShape(s, p, sl, b);
    ParentInRange(s, p, sl);
    AllotKeeps(s, p, if sl.Top? then sl else Parent(sl), b);
    if !sl.Top? {
      var y := Place(p, Parent(sl));
      assert IsPlace(s, y) && At(s, y) != 0 && x != y;
    }
  }

  /** Overwriting a data block. */
  function PutData(s: Fs, a: int, data: Block): Fs
    requires 0 <= a < |s.blk|
  {
    s.(blk := s.blk[a := data])
  }

  lemma {:induction false} PutDataVal(s: Fs, y: Place, data: Block, x: Place)
    requires Tree(s) && IsPlace(s, y) && IsLeaf(y.sl) && At(s, y) != 0 && IsPlace(s, x)
    ensures s.meta <= At(s, y) < |s.blk| && Shaped(PutData(s, At(s, y), data))
    ensures At(PutData(s, At(s, y), data), x) == At(s, x)
    decreases Depth(x.sl)
  {
    hide Word;
    if !x.sl.Top? {
      var px := Place(x.p, Parent(x.sl));
      PutDataVal(s, y, data, px);
      assert px != y;
      assert At(s, px) == Val(s, x.p, Parent(x.sl));
    }
  }

  /** Writing a data block keeps every tree as it is. */
  lemma PutDataTree(s: Fs, y: Place, data: Block)
    requires Tree(s) && IsPlace(s, y) && IsLeaf(y.sl) && At(s, y) != 0
    ensures s.meta <= At(s, y) < |s.blk| && Tree(PutData(s, At(s, y), data))
    ensures forall x | IsPlace(s, x) :: At(PutData(s, At(s, y), data), x) == At(s, x)
  {
    hide Val;
    PutDataVal(s, y, data, y);
    var t := PutData(s, At(s, y), data);
    forall x | IsPlace(s, x) ensures At(t, x) == At(s, x) {
      PutDataVal(s, y, data, x);
    }
    SameTrees(s, t);
  }

  /** Trees depend on block numbers and marks only. */
  lemma SameTrees(s: Fs, t: Fs)
    requires Tree(s) && Shaped(t) && t.meta == s.meta && t.used == s.used && |t.blk| == |s.blk| && |t.ino| == |s.ino|
    requires forall x | IsPlace(s, x) :: At(t, x) == At(s, x)
    ensures Tree(t)
  {
  }

  // ---- Truncation ----

  ghost predicate Owns(s: Fs, p: int, b: int)
    requires Shaped(s) && IsFile(s, p)
  {
    exists sl :: IsSlot(sl) && Val(s, p, sl) == b
  }

  /** The first i entries zeroed. */
  function Cleared(addrs: seq<int>, i: int): (r: seq<int>)
    requires 0 <= i <= |addrs|
    ensures |r| == |addrs| && forall k | 0 <= k < |addrs| :: r[k] == if k < i then 0 else addrs[k]
  {
    seq(i, _ => 0) + addrs[i..]
  }

  lemma ClearedStart(addrs: seq<int>)
    ensures Cleared(addrs, 0) == addrs
  {
  }

  lemma ClearedNext(addrs: seq<int>, i: int)
    requires 0 <= i < |addrs|
    ensures Cleared(addrs, i)[i] == addrs[i] && Cleared(addrs, i)[i := 0] == Cleared(addrs, i + 1)
  {
  }

  function NoAddrs(): seq<int> {
    seq(NDIRECT + 2, _ => 0)
  }

  /** itrunc: the file is empty and exactly its own blocks are free. */
  ghost predicate Truncated(s: Fs, t: Fs, p: int)
    requires Shaped(s) && IsFile(s, p)
  {
    && t.meta == s.meta && t.blk == s.blk && |t.used| == |s.used|
    && t.ino == s.ino[p := Inode(NoAddrs(), 0)]
    && (forall b | 0 < b < |s.used| :: t.used[b] <==> s.used[b] && !Owns(s, p, b))
    && t.used[0] == s.used[0]
  }

  lemma {:induction false} TruncatedVal(s: Fs, t: Fs, p: int, x: Place)
    requires Tree(s) && IsFile(s, p) && Truncated(s, t, p) && IsPlace(s, x)
    ensures Shaped(t) && At(t, x) == if x.p == p then 0 else At(s, x)
    decreases Depth(x.sl)
  {
    hide Word, Owns;
    if !x.sl.Top? {
      TruncatedVal(s, t, p, Place(x.p, Parent(x.sl)));
    }
  }

  /** Truncation frees nothing that another file uses, and leaks nothing. */
  lemma TruncatedTree(s: Fs, t: Fs, p: int)
    requires Tree(s) && IsFile(s, p) && Truncated(s, t, p)
    ensures Tree(t)
    ensures forall x | IsPlace(s, x) :: At(t, x) == if x.p == p then 0 else At(s, x)
  {
    hide Val;
    TruncatedVal(s, t, p, Place(p, Top(0)));
    forall x | IsPlace(s, x) ensures At(t, x) == if x.p == p then 0 else At(s, x) {
      TruncatedVal(s, t, p, x);
    }
    forall x | IsPlace(t, x) && At(t, x) != 0 ensures t.meta <= At(t, x) < |t.blk| && t.used[At(t, x)] {
      OtherFileKeeps(s, p, x);
    }
    forall c | t.meta <= c < |t.blk| && t.used[c] ensures Reachable(t, c) {
      var x :| IsPlace(s, x) && At(s, x) == c;
      assert x.p != p ==> IsPlace(t, x) && At(t, x) == c;
    }
    forall b | 0 <= b < t.meta ensures t.used[b] {
      if b > 0 {
        MetaNotOwned(s, p, b);
      }
    }
  }

  lemma OtherFileKeeps(s: Fs, p: int, x: Place)
    requires Tree(s) && IsFile(s, p) && IsPlace(s, x) && x.p != p && At(s, x) != 0
    ensures !Owns(s, p, At(s, x)) && s.meta <= At(s, x) < |s.blk|
  {
    hide Val;
    forall sl | IsSlot(sl) ensures Val(s, p, sl) != At(s, x) {
      assert At(s, Place(p, sl)) == Val(s, p, sl);
    }
  }

  lemma MetaNotOwned(s: Fs, p: int, b: int)
    requires Tree(s) && IsFile(s, p) && 0 < b < s.meta
    ensures !Owns(s, p, b)
  {
    hide Val;
    forall sl | IsSlot(sl) ensures Val(s, p, sl) != b {
      assert At(s, Place(p, sl)) == Val(s, p, sl);
    }
  }
}
