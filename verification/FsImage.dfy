/** The blocks on disk that hold a file system: data and pointer blocks as they are, the
    free map packed into bitmap blocks, and the inodes, kernel/fs.h:32-52. */
module FsImage {
  import opened Params
  import Blocks
  import opened Bitmap
  import opened FsTree
  import opened FsMap
  import opened FsWrite

  /** Inodes per block. */
  const IPB := 16

  const WORDS := BSIZE / 4

  /** Where bitmap and inode blocks begin, and the two words of each inode, type and
      link count, that the model has no use for. */
  datatype Layout = Layout(bmapstart: int, inodestart: int, head: (int, int) -> int)

  /** A block of bytes as 256 words. */
  function Words(b: Block): Blocks.Block {
    seq(WORDS, i requires 0 <= i < WORDS => Word(b, i))
  }

  /** Bits from b on, the first lowest. */
  function Packed(used: seq<bool>, b: int, n: nat): int
    decreases n
  {
    if n == 0 then 0 else Flag(used, b) + 2 * Packed(used, b + 1, n - 1)
  }

  function Flag(used: seq<bool>, b: int): int {
    if 0 <= b < |used| && used[b] then 1 else 0
  }

  /** The bitmap block whose first bit is that of block `base`. */
  function BitmapWords(used: seq<bool>, base: int): Blocks.Block {
    seq(WORDS, i requires 0 <= i < WORDS => Packed(used, base + 32 * i, 32))
  }

  // The words of a bitmap block are its bytes, four to a word, the first lowest.

  lemma PackedByte(used: seq<bool>, b: int, n: nat)
    ensures Packed(used, b, 8 + n) == Packed(used, b, 8) + 256 * Packed(used, b + 8, n)
  {
    PackedHalf(used, b, 4 + n);
    PackedHalf(used, b + 4, n);
    PackedHalf(used, b, 4);
    PackedHalf(used, b + 4, 0);
  }

  lemma PackedHalf(used: seq<bool>, b: int, n: nat)
    ensures Packed(used, b, 4 + n) == Flag(used, b) + 2 * Flag(used, b + 1) + 4 * Flag(used, b + 2) + 8 * Flag(used, b + 3) + 16 * Packed(used, b + 4, n)
  {
    assert Packed(used, b, 4 + n) == Flag(used, b) + 2 * Packed(used, b + 1, 3 + n);
    assert Packed(used, b + 1, 3 + n) == Flag(used, b + 1) + 2 * Packed(used, b + 2, 2 + n);
    assert Packed(used, b + 2, 2 + n) == Flag(used, b + 2) + 2 * Packed(used, b + 3, 1 + n);
    assert Packed(used, b + 3, 1 + n) == Flag(used, b + 3) + 2 * Packed(used, b + 4, n);
  }

  lemma ByteDigits(x: int)
    requires 0 <= x < 256
    ensures x == x % 2 + 2 * (x / 2 % 2) + 4 * (x / 4 % 2) + 8 * (x / 8 % 2) + 16 * (x / 16 % 2) + 32 * (x / 32 % 2) + 64 * (x / 64 % 2) + 128 * (x / 128 % 2)
  {
    Nibble(x);
    Nibble(x / 16);
    Sixteenths(x);
  }

  lemma Nibble(x: int)
    requires 0 <= x < 256
    ensures x == x % 2 + 2 * (x / 2 % 2) + 4 * (x / 4 % 2) + 8 * (x / 8 % 2) + 16 * (x / 16)
  {
    assert x / 2 / 2 == x / 4 && x / 4 / 2 == x / 8 && x / 8 / 2 == x / 16;
  }

  lemma Sixteenths(x: int)
    requires 0 <= x < 256
    ensures x / 16 / 16 == 0 && x / 16 / 2 == x / 32 && x / 16 / 4 == x / 64 && x / 16 / 8 == x / 128
  {
  }

  lemma DigitBit(bm: seq<BitBlock>, size: nat, b: int, j: int)
    requires size <= |bm| * BPB && 0 <= b && b % 8 == 0 && 0 <= j < 8 && HasBit(bm, b)
    requires b + j >= size ==> HasBit(bm, b + j) && !Bit(bm, b + j)
    ensures Spelled(Bits(bm, size), b, ByteOf(bm, b) as int, j)
  {
    hide Has;
    SameByteAs(b, j);
    Numbers(ByteOf(bm, b), j);
  }

  lemma SameByteAs(b: int, j: int)
    requires 0 <= b && b % 8 == 0 && 0 <= j < 8
    ensures (b + j) / 8192 == b / 8192 && (b + j) % 8192 / 8 == b % 8192 / 8 && (b + j) % 8 == j
  {
    var k := b / 8192;
    var r := b % 8192 / 8;
    assert b == 8192 * k + 8 * r;
    Quotient(k, 8 * r + j);
    Remainder(1024 * k + r, j);
  }

  lemma PackedIsByte(bm: seq<BitBlock>, size: nat, b: int)
    requires size <= |bm| * BPB && 0 <= b && b % 8 == 0 && HasBit(bm, b)
    requires forall c | size <= c < b + 8 :: HasBit(bm, c) && !Bit(bm, c)
    ensures Packed(Bits(bm, size), b, 8) == bm[b / 8192][b % 8192 / 8] as int
  {
    hide Bit, Bits, Packed, Spelled;
    var used, x := Bits(bm, size), ByteOf(bm, b) as int;
    forall j | 0 <= j < 8 ensures Spelled(used, b, x, j) {
      DigitBit(bm, size, b, j);
    }
    EightFlags(used, b, x);
  }

  /** Flag b + j is bit j of x. */
  predicate Spelled(used: seq<bool>, b: int, x: int, j: int) {
    0 <= j < 8 && Flag(used, b + j) == x / [1, 2, 4, 8, 16, 32, 64, 128][j] % 2
  }

  lemma EightFlags(used: seq<bool>, b: int, x: int)
    requires 0 <= x < 256 && forall j | 0 <= j < 8 :: Spelled(used, b, x, j)
    ensures Packed(used, b, 8) == x
  {
    hide Flag, Packed;
    assert Spelled(used, b, x, 0) && Spelled(used, b, x, 1) && Spelled(used, b, x, 2) && Spelled(used, b, x, 3);
    assert Spelled(used, b, x, 4) && Spelled(used, b, x, 5) && Spelled(used, b, x, 6) && Spelled(used, b, x, 7);
    ByteDigits(x);
    PackedHalf(used, b, 4);
    PackedHalf(used, b + 4, 0);
    PackedNone(used, b + 8);
  }

  lemma PackedNone(used: seq<bool>, b: int)
    ensures Packed(used, b, 0) == 0
  {
  }

  /** A word of the bitmap in the image is four bytes of the bitmap block. */
  lemma BitmapBytes(bm: seq<BitBlock>, size: nat, k: int, i: int)
    requires size <= |bm| * BPB && 0 <= k < |bm| && 0 <= i < WORDS
    requires forall c | size <= c < 8192 * k + 32 * i + 32 :: HasBit(bm, c) && !Bit(bm, c)
    ensures BitmapWords(Bits(bm, size), 8192 * k)[i] ==
              bm[k][4 * i] as int + 256 * bm[k][4 * i + 1] as int + 65536 * bm[k][4 * i + 2] as int + 16777216 * bm[k][4 * i + 3] as int
  {
    hide Bit, Packed, Bits, Flag;
    var used, b := Bits(bm, size), 8192 * k + 32 * i;
    PackedByte(used, b, 24);
    PackedByte(used, b + 8, 16);
    PackedByte(used, b + 16, 8);
    forall j | 0 <= j < 4 ensures Packed(used, b + 8 * j, 8) == bm[k][4 * i + j] as int {
      Quotient(k, 32 * i + 8 * j);
      PackedIsByte(bm, size, b + 8 * j);
    }
    assert Packed(used, b + 8 * 0, 8) == bm[k][4 * i] as int;
    assert Packed(used, b + 8 * 1, 8) == bm[k][4 * i + 1] as int;
    assert Packed(used, b + 8 * 2, 8) == bm[k][4 * i + 2] as int;
    assert Packed(used, b + 8 * 3, 8) == bm[k][4 * i + 3] as int;
  }

  /** Word j of an inode on disk. */
  function InodeWord(l: Layout, ino: seq<Inode>, p: int, j: int): int {
    if j < 2 then l.head(p, j)
    else if !(0 <= p < |ino|) then 0
    else if j == 2 then ino[p].size
    else if 0 <= j - 3 < |ino[p].addrs| then ino[p].addrs[j - 3]
    else 0
  }

  function InodeWords(l: Layout, ino: seq<Inode>, k: int): Blocks.Block {
    seq(WORDS, i requires 0 <= i < WORDS => InodeWord(l, ino, k * IPB + i / 16, i % 16))
  }

  predicate IsBitmapBlock(l: Layout, s: Fs, b: int) {
    b < s.meta && l.bmapstart <= b <= l.bmapstart + |s.used| / BPB
  }

  predicate IsInodeBlock(l: Layout, s: Fs, b: int) {
    b < s.meta && l.inodestart <= b <= l.inodestart + |s.ino| / IPB
  }

  /** Block b of the disk. */
  function ImageAt(l: Layout, s: Fs, b: int): Blocks.Block
    requires 0 <= b < |s.blk|
  {
    if IsBitmapBlock(l, s, b) then BitmapWords(s.used, (b - l.bmapstart) * BPB)
    else if IsInodeBlock(l, s, b) then InodeWords(l, s.ino, b - l.inodestart)
    else Words(s.blk[b])
  }

  function Image(l: Layout, s: Fs): (d: seq<Blocks.Block>)
    ensures |d| == |s.blk|
  {
    seq(|s.blk|, b requires 0 <= b < |s.blk| => ImageAt(l, s, b))
  }

  // ---- What a transaction changes on disk ----

  /** The block a log reference is to: itself, BBLOCK and IBLOCK. */
  function Site(l: Layout, r: LogRef): int {
    match r
    case Blk(b) => b
    case BitmapBlk(k) => l.bmapstart + k
    case InodeBlk(p) => l.inodestart + p / IPB
  }

  function Sites(l: Layout, logged: set<LogRef>): set<int> {
    set r | r in logged :: Site(l, r)
  }

  lemma {:induction false} PackedSame(s: seq<bool>, t: seq<bool>, b: int, n: nat)
    requires |s| == |t| && forall c | b <= c < b + n && 0 <= c < |s| :: s[c] == t[c]
    ensures Packed(s, b, n) == Packed(t, b, n)
    decreases n
  {
    if n > 0 {
      PackedSame(s, t, b + 1, n - 1);
    }
  }

  lemma BitmapCovered(s: Fs, t: Fs, logged: set<LogRef>, p: int, k: int, base: int)
    requires Covers(s, t, logged, p) && BitmapBlk(k) !in logged && base == 8192 * k
    ensures BitmapWords(t.used, base) == BitmapWords(s.used, base)
  {
    hide Packed, Covers;
    forall i | 0 <= i < WORDS ensures Packed(t.used, base + 32 * i, 32) == Packed(s.used, base + 32 * i, 32) {
      WordCovered(s, t, logged, p, k, base, i);
    }
  }

  lemma WordCovered(s: Fs, t: Fs, logged: set<LogRef>, p: int, k: int, base: int, i: int)
    requires Covers(s, t, logged, p) && BitmapBlk(k) !in logged && 0 <= i < WORDS && base == 8192 * k
    ensures Packed(t.used, base + 32 * i, 32) == Packed(s.used, base + 32 * i, 32)
  {
    hide Packed;
    forall c | base <= c < base + 8192 && 0 <= c < |s.used| ensures s.used[c] == t.used[c] {
      BlockOfBit(k, base, c);
    }
    PackedSame(t.used, s.used, base + 32 * i, 32);
  }

  lemma BlockOfBit(k: int, base: int, c: int)
    requires base == 8192 * k && base <= c < base + 8192
    ensures c / BPB == k
  {
    Quotient(k, c - base);
  }

  lemma InodeCovered(l: Layout, s: Fs, t: Fs, logged: set<LogRef>, p: int, k: int)
    requires Transaction(s, t, logged, p) && (t.ino[p] == s.ino[p] || k != p / IPB)
    ensures InodeWords(l, t.ino, k) == InodeWords(l, s.ino, k)
  {
    forall i | 0 <= i < WORDS ensures InodeWord(l, t.ino, k * IPB + i / 16, i % 16) == InodeWord(l, s.ino, k * IPB + i / 16, i % 16) {
      SameBlock(k, i / 16);
    }
  }

  lemma SameBlock(k: int, i: int)
    requires 0 <= i < 16
    ensures (k * IPB + i) / IPB == k
  {
  }

  /** The disk changes only at blocks the transaction has logged. */
  lemma ImageCovered(l: Layout, s: Fs, t: Fs, logged: set<LogRef>, p: int, b: int)
    requires Transaction(s, t, logged, p) && 0 <= b < |s.blk| && b !in Sites(l, logged)
    ensures |t.blk| == |s.blk| && ImageAt(l, t, b) == ImageAt(l, s, b)
  {
    hide BitmapWords, InodeWords, Words;
    if IsBitmapBlock(l, s, b) {
      assert Site(l, BitmapBlk(b - l.bmapstart)) == b;
      BitmapCovered(s, t, logged, p, b - l.bmapstart, (b - l.bmapstart) * BPB);
    } else if IsInodeBlock(l, s, b) {
      assert Site(l, InodeBlk(p)) == l.inodestart + p / IPB;
      InodeCovered(l, s, t, logged, p, b - l.inodestart);
    } else {
      assert Site(l, Blk(b)) == b;
    }
  }

  // ---- What the disk says about the files ----

  /** Bitmap, inodes and data have their own blocks, apart from those of `log`. */
  predicate Fitted(l: Layout, s: Fs, log: set<int>) {
    && 0 <= l.bmapstart && l.bmapstart + |s.used| / BPB < l.inodestart && l.inodestart + |s.ino| / IPB < s.meta
    && forall b | b in log :: 0 <= b < s.meta && !IsBitmapBlock(l, s, b) && !IsInodeBlock(l, s, b)
  }

  /** Where the disk has an inode: 16 to a block, its size in word 2 and its block
      numbers from word 3 on. */
  lemma InodeOnDisk(l: Layout, s: Fs, log: set<int>, p: int, i: int)
    requires Shaped(s) && Fitted(l, s, log) && IsFile(s, p) && 0 <= i < 13
    ensures 0 <= l.inodestart + p / 16 < |s.blk|
    ensures Image(l, s)[l.inodestart + p / 16][p % 16 * 16 + 2] == s.ino[p].size
    ensures Image(l, s)[l.inodestart + p / 16][p % 16 * 16 + 3 + i] == s.ino[p].addrs[i]
  {
    hide BitmapWords, Words, InodeWords;
    var b := l.inodestart + p / 16;
    assert Image(l, s)[b] == ImageAt(l, s, b);
    assert IsInodeBlock(l, s, b) && !IsBitmapBlock(l, s, b);
    InodeWordsAt(l, s.ino, p, 2);
    InodeWordsAt(l, s.ino, p, 3 + i);
  }

  lemma InodeWordsAt(l: Layout, ino: seq<Inode>, p: int, j: int)
    requires 0 <= j < 16
    ensures InodeWords(l, ino, p / 16)[p % 16 * 16 + j] == InodeWord(l, ino, p, j)
  {
    hide InodeWord;
    InodeIndex(p, j);
  }

  lemma InodeIndex(p: int, j: int)
    requires 0 <= j < 16
    ensures (p % 16 * 16 + j) / 16 == p % 16 && (p % 16 * 16 + j) % 16 == j && p / 16 * 16 + p % 16 == p
  {
  }

  lemma WordsDiffer(b: Block, c: Block)
    requires Words(b) == Words(c)
    ensures b == c
  {
    forall k | 0 <= k < BSIZE ensures b[k] == c[k] {
      assert Words(b)[k / 4] == Word(b, k / 4) && Words(c)[k / 4] == Word(c, k / 4);
      Bytes(b[4 * (k / 4)], b[4 * (k / 4) + 1], b[4 * (k / 4) + 2], b[4 * (k / 4) + 3],
            c[4 * (k / 4)], c[4 * (k / 4) + 1], c[4 * (k / 4) + 2], c[4 * (k / 4) + 3]);
      assert k == 4 * (k / 4) + k % 4;
    }
  }

  lemma Bytes(b0: Byte, b1: Byte, b2: Byte, b3: Byte, c0: Byte, c1: Byte, c2: Byte, c3: Byte)
    requires Combine(b0, b1, b2, b3) == Combine(c0, c1, c2, c3)
    ensures b0 == c0 && b1 == c1 && b2 == c2 && b3 == c3
  {
    Digit(b0, b1 + 256 * b2 + 65536 * b3, c0, c1 + 256 * c2 + 65536 * c3);
    Digit(b1, b2 + 256 * b3, c1, c2 + 256 * c3);
    Digit(b2, b3, c2, c3);
  }

  lemma Digit(b: Byte, r: int, c: Byte, q: int)
    requires b + 256 * r == c + 256 * q
    ensures b == c && r == q
  {
  }

  /** The same disk outside the log area holds the same inodes and data blocks. */
  lemma SameDiskSameFiles(l: Layout, s: Fs, t: Fs, log: set<int>)
    requires Shaped(s) && Shaped(t) && t.meta == s.meta && |t.blk| == |s.blk| && |t.ino| == |s.ino| && Fitted(l, s, log)
    requires forall b | 0 <= b < |s.blk| && b !in log :: ImageAt(l, s, b) == ImageAt(l, t, b)
    ensures t.ino == s.ino && forall b | s.meta <= b < |s.blk| :: t.blk[b] == s.blk[b]
  {
    hide Words;
    forall b | s.meta <= b < |s.blk| ensures t.blk[b] == s.blk[b] {
      assert b !in log;
      assert ImageAt(l, s, b) == ImageAt(l, t, b);
      WordsDiffer(s.blk[b], t.blk[b]);
    }
    forall p | 0 <= p < |s.ino| ensures t.ino[p] == s.ino[p] {
      SameInode(l, s, t, log, p);
    }
  }

  lemma SameInode(l: Layout, s: Fs, t: Fs, log: set<int>, p: int)
    requires Shaped(s) && Shaped(t) && t.meta == s.meta && |t.blk| == |s.blk| && |t.ino| == |s.ino| && Fitted(l, s, log)
    requires forall b | 0 <= b < |s.blk| && b !in log :: ImageAt(l, s, b) == ImageAt(l, t, b)
    requires 0 <= p < |s.ino|
    ensures t.ino[p] == s.ino[p]
  {
    var k := p / IPB;
    var b := l.inodestart + k;
    assert IsInodeBlock(l, s, b) && !IsBitmapBlock(l, s, b) && b !in log;
    assert ImageAt(l, s, b) == InodeWords(l, s.ino, k) && ImageAt(l, t, b) == InodeWords(l, t.ino, k);
    assert k * IPB + p % IPB == p;
    forall j | 2 <= j < 16 ensures InodeWord(l, s.ino, p, j) == InodeWord(l, t.ino, p, j) {
      var i := 16 * (p % IPB) + j;
      assert i / 16 == p % IPB && i % 16 == j;
      assert InodeWords(l, s.ino, k)[i] == InodeWords(l, t.ino, k)[i];
    }
    assert InodeWord(l, s.ino, p, 2) == InodeWord(l, t.ino, p, 2);
    forall i | 0 <= i < NDIRECT + 2 ensures s.ino[p].addrs[i] == t.ino[p].addrs[i] {
      assert InodeWord(l, s.ino, p, i + 3) == InodeWord(l, t.ino, p, i + 3);
    }
  }

  lemma {:induction false} SameVal(s: Fs, t: Fs, p: int, sl: Slot)
    requires Tree(s) && Shaped(t) && t.meta == s.meta && |t.blk| == |s.blk| && t.ino == s.ino && IsFile(s, p) && IsSlot(sl)
    requires forall b | s.meta <= b < |s.blk| :: t.blk[b] == s.blk[b]
    ensures Val(t, p, sl) == Val(s, p, sl)
    decreases Depth(sl)
  {
    hide Marked, Once, Conserved;
    if !sl.Top? {
      SameVal(s, t, p, Parent(sl));
      ParentInRange(s, p, sl);
    }
  }

  /** Two file systems in order with the same disk have the same files. */
  lemma DiskTellsFiles(l: Layout, s: Fs, t: Fs, log: set<int>, p: int)
    requires Valid(s) && Valid(t) && t.meta == s.meta && |t.blk| == |s.blk| && |t.ino| == |s.ino| && Fitted(l, s, log)
    requires forall b | 0 <= b < |s.blk| && b !in log :: ImageAt(l, s, b) == ImageAt(l, t, b)
    requires IsFile(s, p)
    ensures Contents(t, p) == Contents(s, p)
  {
    hide Val, Marked, Once, Conserved, ImageAt;
    SameDiskSameFiles(l, s, t, log);
    forall k | 0 <= k < s.ino[p].size ensures FileByte(t, p, k) == FileByte(s, p, k) {
      SameVal(s, t, p, Leaf(k / BSIZE));
      ParentInRange(s, p, Leaf(k / BSIZE));
    }
  }
}
