/** Why writei writes what it reports: the file between two iterations of its
    loop, and the blocks it logs on the way. */
module FsWrite {
  import opened Params
  import opened Lists
  import opened Bitmap
  import opened FsTree
  import opened FsMap

  function Max(a: int, b: int): int {
    if a < b then b else a
  }

  /** File p of t is that of s with src[..tot] written at `off`, its size not yet updated. */
  ghost predicate Writing(s: Fs, t: Fs, p: int, off: int, src: seq<Byte>, tot: int) {
    && Tree(s) && Tree(t) && IsFile(s, p) && t.meta == s.meta && |t.blk| == |s.blk| && |t.ino| == |s.ino|
    && 0 <= off <= s.ino[p].size <= MAXFILE * BSIZE && 0 <= tot <= |src| && off + tot <= MAXFILE * BSIZE
    && t.ino[p].size == s.ino[p].size
    && Backed(t, p, Max(s.ino[p].size, off + tot))
    && (forall k | 0 <= k < Max(s.ino[p].size, off + tot) :: ByteWritten(s, t, p, off, src, tot, k))
    && (forall f | IsFile(s, f) && f != p :: SameFile(s, t, f))
  }

  predicate ByteWritten(s: Fs, t: Fs, p: int, off: int, src: seq<Byte>, tot: int, k: int)
    requires Shaped(s) && Shaped(t) && IsFile(s, p) && IsFile(t, p) && 0 <= k < MAXFILE * BSIZE && 0 <= tot <= |src|
  {
    FileByte(t, p, k) == if off <= k < off + tot then src[k - off] else FileByte(s, p, k)
  }

  /** Another file: same inode, same blocks, same data. */
  ghost predicate SameFile(s: Fs, t: Fs, f: int)
    requires Shaped(s) && Shaped(t) && |t.ino| == |s.ino| && |t.blk| == |s.blk| && IsFile(s, f)
  {
    && t.ino[f] == s.ino[f]
    && (forall sl | IsSlot(sl) :: SameSlot(s, t, f, sl))
  }

  predicate SameSlot(s: Fs, t: Fs, f: int, sl: Slot)
    requires Shaped(s) && Shaped(t) && |t.ino| == |s.ino| && |t.blk| == |s.blk| && IsFile(s, f) && IsSlot(sl)
  {
    && Val(t, f, sl) == Val(s, f, sl)
    && (IsLeaf(sl) && 0 < Val(s, f, sl) < |s.blk| ==> t.blk[Val(s, f, sl)] == s.blk[Val(s, f, sl)])
  }

  lemma LeafIsLeaf(bn: int)
    requires 0 <= bn < MAXFILE
    ensures IsLeaf(Leaf(bn))
  {
  }

  lemma WritingStart(s: Fs, p: int, off: int, src: seq<Byte>)
    requires Tree(s) && IsFile(s, p) && Backed(s, p, s.ino[p].size) && 0 <= off <= s.ino[p].size
    ensures Writing(s, s, p, off, src, 0)
  {
  }

  /** Extending a file's tree shows in no file. */
  lemma ExtendsOther(s: Fs, t: Fs, p: int, f: int)
    requires Extends(s, t, p) && IsFile(s, f) && f != p
    ensures SameFile(s, t, f)
  {
    hide Val;
    forall sl | IsSlot(sl) ensures SameSlot(s, t, f, sl) {
      assert Kept(s, t, p, Place(f, sl));
    }
  }

  lemma SameFileTrans(s: Fs, t: Fs, u: Fs, f: int)
    requires Shaped(s) && Shaped(t) && Shaped(u) && |u.ino| == |t.ino| == |s.ino| && |u.blk| == |t.blk| == |s.blk|
    requires IsFile(s, f) && SameFile(s, t, f) && SameFile(t, u, f)
    ensures SameFile(s, u, f)
  {
  }

  lemma ExtendsByte(t: Fs, u: Fs, p: int, k: int)
    requires Tree(t) && Extends(t, u, p) && IsFile(t, p) && 0 <= k < MAXFILE * BSIZE && DataBlock(t, p, k) != 0
    ensures DataBlock(u, p, k) == DataBlock(t, p, k) && FileByte(u, p, k) == FileByte(t, p, k)
  {
    hide Val, Marked, Once, Conserved;
    LeafIsLeaf(k / BSIZE);
    assert Kept(t, u, p, Place(p, Leaf(k / BSIZE)));
  }

  lemma BackedByte(t: Fs, p: int, size: int, k: int)
    requires Shaped(t) && IsFile(t, p) && Backed(t, p, size) && 0 <= k < size
    ensures DataBlock(t, p, k) != 0
  {
  }

  /** bmap, successful or not, leaves the file as written so far. */
  lemma WritingExtends(s: Fs, t: Fs, u: Fs, p: int, off: int, src: seq<Byte>, tot: int)
    requires Writing(s, t, p, off, src, tot) && Tree(u) && Extends(t, u, p)
    ensures Writing(s, u, p, off, src, tot)
  {
    hide Val, Marked, Once, Conserved, FileByte, DataBlock, Kept, SameFile;
    var size := Max(s.ino[p].size, off + tot);
    forall k | 0 <= k < size ensures ByteWritten(s, u, p, off, src, tot, k) {
      assert ByteWritten(s, t, p, off, src, tot, k);
      BackedByte(t, p, size, k);
      ExtendsByte(t, u, p, k);
    }
    forall bn | 0 <= bn < MAXFILE && bn * BSIZE < size ensures Val(u, p, Leaf(bn)) != 0 {
      KeptLeaf(t, u, p, bn);
    }
    forall f | IsFile(s, f) && f != p ensures SameFile(s, u, f) {
      ExtendsOther(t, u, p, f);
      SameFileTrans(s, t, u, f);
    }
  }

  lemma KeptLeaf(t: Fs, u: Fs, p: int, bn: int)
    requires Extends(t, u, p) && IsFile(t, p) && 0 <= bn < MAXFILE && Val(t, p, Leaf(bn)) != 0
    ensures Val(u, p, Leaf(bn)) == Val(t, p, Leaf(bn))
  {
    hide Val;
    assert Kept(t, u, p, Place(p, Leaf(bn)));
  }

  /** memmove of data into a block at offset o. */
  function Splice(b: Block, o: int, data: seq<Byte>): (r: Block)
    requires 0 <= o && o + |data| <= BSIZE
    ensures forall j | 0 <= j < BSIZE :: r[j] == if o <= j < o + |data| then data[j - o] else b[j]
  {
    b[..o] + data + b[o + |data|..]
  }

  /** Putting the next bytes into their block extends what is written. */
  lemma WritingPut(s: Fs, t: Fs, u: Fs, p: int, off: int, src: seq<Byte>, tot: int, m: int, addr: int)
    requires Writing(s, t, p, off, src, tot) && 0 < m && tot + m <= |src|
    requires off + tot + m <= MAXFILE * BSIZE && (off + tot) % BSIZE + m <= BSIZE
    requires Mapped(t, u, p, (off + tot) / BSIZE, addr) && addr != 0
    ensures Writing(s, PutData(u, addr, Splice(u.blk[addr], (off + tot) % BSIZE, src[tot..tot + m])), p, off, src, tot + m)
  {
    hide Val, Marked, Once, Conserved, FileByte, DataBlock, Kept, SameFile, Extends, Splice;
    var bn := (off + tot) / BSIZE;
    var v := PutData(u, addr, Splice(u.blk[addr], (off + tot) % BSIZE, src[tot..tot + m]));
    WritingExtends(s, t, u, p, off, src, tot);
    LeafIsLeaf(bn);
    PutDataTree(u, Place(p, Leaf(bn)), v.blk[addr]);
    var done := tot + m;
    var size := Max(s.ino[p].size, off + done);
    forall k | 0 <= k < size ensures ByteWritten(s, v, p, off, src, done, k) {
      PutByteHere(s, t, u, p, off, src, tot, m, addr, k);
    }
    forall b | 0 <= b < MAXFILE && b * BSIZE < size ensures Val(v, p, Leaf(b)) != 0 {
      assert At(v, Place(p, Leaf(b))) == At(u, Place(p, Leaf(b)));
      if b != bn {
        assert b * BSIZE < Max(s.ino[p].size, off + tot);
      }
    }
    forall f | IsFile(s, f) && f != p ensures SameFile(s, v, f) {
      PutOther(u, p, bn, v.blk[addr], f);
      SameFileTrans(s, u, v, f);
    }
  }

  lemma PutOther(u: Fs, p: int, bn: int, data: Block, f: int)
    requires Tree(u) && IsFile(u, p) && IsFile(u, f) && f != p && 0 <= bn < MAXFILE && Val(u, p, Leaf(bn)) != 0
    ensures 0 < Val(u, p, Leaf(bn)) < |u.blk| && Shaped(PutData(u, Val(u, p, Leaf(bn)), data))
    ensures SameFile(u, PutData(u, Val(u, p, Leaf(bn)), data), f)
  {
    hide Val, Conserved;
    LeafIsLeaf(bn);
    var y := Place(p, Leaf(bn));
    PutDataTree(u, y, data);
    var v := PutData(u, At(u, y), data);
    forall sl | IsSlot(sl) ensures SameSlot(u, v, f, sl) {
      assert At(v, Place(f, sl)) == At(u, Place(f, sl));
      assert At(u, Place(f, sl)) == At(u, y) ==> Place(f, sl) == y;
    }
  }

  lemma PutByteHere(s: Fs, t: Fs, u: Fs, p: int, off: int, src: seq<Byte>, tot: int, m: int, addr: int, k: int)
    requires Writing(s, t, p, off, src, tot) && Writing(s, u, p, off, src, tot) && 0 < m && tot + m <= |src|
    requires off + tot + m <= MAXFILE * BSIZE && (off + tot) % BSIZE + m <= BSIZE
    requires Mapped(t, u, p, (off + tot) / BSIZE, addr) && addr != 0
    requires 0 <= k < Max(s.ino[p].size, off + tot + m)
    ensures var v := PutData(u, addr, Splice(u.blk[addr], (off + tot) % BSIZE, src[tot..tot + m]));
            Shaped(v) && ByteWritten(s, v, p, off, src, tot + m, k)
  {
    hide Val, Marked, Conserved, Kept, SameFile, Extends, Splice;
    var bn := (off + tot) / BSIZE;
    var data := Splice(u.blk[addr], (off + tot) % BSIZE, src[tot..tot + m]);
    var v := PutData(u, addr, data);
    LeafIsLeaf(bn);
    LeafIsLeaf(k / BSIZE);
    PutDataTree(u, Place(p, Leaf(bn)), data);
    var x := Place(p, Leaf(k / BSIZE));
    assert At(v, x) == At(u, x);
    if k / BSIZE != bn {
      if Leaf(k / BSIZE) == Leaf(bn) {
        LeafInjective(k / BSIZE, bn);
      }
      assert x != Place(p, Leaf(bn)) && At(u, Place(p, Leaf(bn))) == addr;
      assert ByteWritten(s, u, p, off, src, tot, k);
    } else if k < Max(s.ino[p].size, off + tot) {
      assert ByteWritten(s, u, p, off, src, tot, k);
    }
  }

  // ---- The finished write ----

  function SetSize(s: Fs, p: int, size: int): Fs
    requires IsFile(s, p)
  {
    s.(ino := s.ino[p := Inode(s.ino[p].addrs, size)])
  }

  lemma {:induction false} SetSizeVal(s: Fs, p: int, size: int, x: Place)
    requires Shaped(s) && IsFile(s, p) && IsPlace(s, x)
    ensures Shaped(SetSize(s, p, size)) && At(SetSize(s, p, size), x) == At(s, x)
    decreases Depth(x.sl)
  {
    hide Word;
    if !x.sl.Top? {
      SetSizeVal(s, p, size, Place(x.p, Parent(x.sl)));
    }
  }

  lemma SetSizeTree(s: Fs, p: int, size: int)
    requires Tree(s) && IsFile(s, p)
    ensures Tree(SetSize(s, p, size))
    ensures forall x | IsPlace(s, x) :: At(SetSize(s, p, size), x) == At(s, x)
  {
    hide Val;
    forall x | IsPlace(s, x) ensures At(SetSize(s, p, size), x) == At(s, x) {
      SetSizeVal(s, p, size, x);
    }
    SetSizeVal(s, p, size, Place(p, Top(0)));
    SameTrees(s, SetSize(s, p, size));
  }

  /** The file as a byte sequence with `data` written at `off`. */
  function Written(c: seq<Byte>, off: int, data: seq<Byte>): seq<Byte>
    requires 0 <= off <= |c|
  {
    c[..off] + data + (if off + |data| < |c| then c[off + |data|..] else [])
  }

  /** writei as its callers see it: this file is overwritten or extended by
      exactly the bytes reported, every other file is untouched. */
  ghost predicate Wrote(s: Fs, t: Fs, p: int, off: int, data: seq<Byte>) {
    && Valid(s) && Valid(t) && IsFile(s, p) && |t.ino| == |s.ino| && 0 <= off <= s.ino[p].size
    && t.ino[p].size == Max(s.ino[p].size, off + |data|)
    && Contents(t, p) == Written(Contents(s, p), off, data)
    && (forall f | IsFile(s, f) && f != p :: t.ino[f] == s.ino[f] && Contents(t, f) == Contents(s, f))
  }

  /** What was written reads back, and the rest of the file is as it was. */
  lemma ReadBack(s: Fs, t: Fs, p: int, off: int, data: seq<Byte>)
    requires Wrote(s, t, p, off, data)
    ensures IsFile(t, p) && |Contents(t, p)| == Max(|Contents(s, p)|, off + |data|)
    ensures Contents(t, p)[off..off + |data|] == data
    ensures forall k | 0 <= k < |Contents(s, p)| && !(off <= k < off + |data|) :: Contents(t, p)[k] == Contents(s, p)[k]
  {
  }

  lemma SameContents(s: Fs, t: Fs, f: int)
    requires Shaped(s) && Shaped(t) && |t.ino| == |s.ino| && |t.blk| == |s.blk| && IsFile(s, f) && SameFile(s, t, f)
    requires Backed(s, f, s.ino[f].size)
    ensures Backed(t, f, t.ino[f].size) && Contents(t, f) == Contents(s, f)
  {
  }

  /** itrunc empties its file and leaves every other as it was. */
  lemma TruncatedFiles(s: Fs, t: Fs, p: int)
    requires Valid(s) && IsFile(s, p) && Truncated(s, t, p)
    ensures Valid(t) && |t.ino| == |s.ino| && Contents(t, p) == []
    ensures forall f | IsFile(s, f) && f != p :: t.ino[f] == s.ino[f] && Contents(t, f) == Contents(s, f)
  {
    hide Val, Marked, Once, Conserved, Owns;
    TruncatedTree(s, t, p);
    forall f | IsFile(s, f) && f != p ensures Backed(t, f, t.ino[f].size) && Contents(t, f) == Contents(s, f) {
      forall sl | IsSlot(sl) ensures SameSlot(s, t, f, sl) {
        assert At(t, Place(f, sl)) == At(s, Place(f, sl));
      }
      SameContents(s, t, f);
    }
  }

  lemma WritingDone(s: Fs, t: Fs, p: int, off: int, src: seq<Byte>, tot: int)
    requires Valid(s) && Writing(s, t, p, off, src, tot)
    ensures Wrote(s, SetSize(t, p, Max(s.ino[p].size, off + tot)), p, off, src[..tot])
  {
    hide Val, Marked, Once, Conserved, SameFile;
    var size := Max(s.ino[p].size, off + tot);
    var u := SetSize(t, p, size);
    SetSizeTree(t, p, size);
    forall bn | 0 <= bn < MAXFILE ensures Val(u, p, Leaf(bn)) == Val(t, p, Leaf(bn)) {
      assert At(u, Place(p, Leaf(bn))) == At(t, Place(p, Leaf(bn)));
    }
    forall k | 0 <= k < size ensures Contents(u, p)[k] == Written(Contents(s, p), off, src[..tot])[k] {
      assert ByteWritten(s, t, p, off, src, tot, k);
    }
    forall f | IsFile(s, f) && f != p ensures u.ino[f] == s.ino[f] && Backed(u, f, u.ino[f].size) && Contents(u, f) == Contents(s, f) {
      SetSizeOther(t, p, size, f);
      SameFileTrans(s, t, u, f);
      SameContents(s, u, f);
      SameInode(s, u, f);
    }
  }

  /** Where filewrite resumes after i bytes of src. */
  ghost predicate Resumes(s: Fs, t: Fs, p: int, src: seq<Byte>, off: int, i: int) {
    0 <= i <= |src| && off + i < WORD_LIMIT && ((i == 0 && s == t) || Wrote(s, t, p, off, src[..i]))
  }

  /** What one transaction of a write to file p changes, it has logged. */
  ghost predicate Transaction(s: Fs, t: Fs, logged: set<LogRef>, p: int) {
    IsFile(s, p) && Covers(s, t, logged, p) && (t.ino[p] == s.ino[p] || InodeBlk(p) in logged)
  }

  /** The bytes filewrite puts into one transaction. */
  const CHUNK := (MAXOPBLOCKS - 1 - 1 - 2) / 2 * BSIZE

  /** filewrite between its transactions: the k-th state has the first k chunks of src
      written at `off`, and the last one `done` bytes. */
  ghost predicate Chunked(states: seq<Fs>, ops: seq<set<LogRef>>, p: int, src: seq<Byte>, off: int, done: int) {
    && |states| == |ops| + 1
    && (forall k | 0 <= k < |ops| :: Transaction(states[k], states[k + 1], ops[k], p))
    && (forall k | 0 <= k <= |ops| :: Resumes(states[0], states[k], p, src, off, if k < |ops| then k * CHUNK else done))
  }

  lemma ChunkedNone(s: Fs, p: int, src: seq<Byte>, off: int)
    requires off < WORD_LIMIT
    ensures Chunked([s], [], p, src, off, 0) && Resumes(s, s, p, src, off, 0)
  {
  }

  lemma ChunkedMore(states: seq<Fs>, ops: seq<set<LogRef>>, p: int, src: seq<Byte>, off: int, t: Fs, logged: set<LogRef>, done: int)
    requires Chunked(states, ops, p, src, off, |ops| * CHUNK)
    requires Transaction(states[|ops|], t, logged, p) && Resumes(states[0], t, p, src, off, done)
    ensures Chunked(states + [t], ops + [logged], p, src, off, done)
  {
    hide Transaction, Resumes;
    var more := states + [t];
    forall k | 0 <= k <= |ops| + 1 ensures Resumes(more[0], more[k], p, src, off, if k < |ops| + 1 then k * CHUNK else done) {
      if k <= |ops| {
        assert Resumes(states[0], states[k], p, src, off, k * CHUNK);
      }
    }
    forall k | 0 <= k < |ops| + 1 ensures Transaction(more[k], more[k + 1], (ops + [logged])[k], p) {
      if k < |ops| {
        assert Transaction(states[k], states[k + 1], ops[k], p);
      }
    }
  }

  lemma WroteSize(s: Fs, t: Fs, p: int, off: int, src: seq<Byte>, i: int)
    requires 0 <= i <= |src| && Wrote(s, t, p, off, src[..i])
    ensures Valid(t) && IsFile(t, p) && off + i <= t.ino[p].size <= MAXFILE * BSIZE && off <= s.ino[p].size
  {
  }

  /** Writing on from where a write ended is one longer write. */
  lemma WroteMore(s: Fs, t: Fs, u: Fs, p: int, off: int, src: seq<Byte>, i: int, r: int)
    requires 0 <= i && 0 <= r && i + r <= |src| && Wrote(t, u, p, off + i, src[i..i + r])
    requires Resumes(s, t, p, src, off, i)
    ensures Wrote(s, u, p, off, src[..i + r])
  {
    hide Marked, Once, Conserved, Val, FileByte;
    if i == 0 && s == t {
      assert src[i..i + r] == src[..i + r];
    } else {
      var c := Contents(s, p);
      WrittenMore(c, off, src, i, r);
    }
  }

  lemma WrittenMore(c: seq<Byte>, off: int, src: seq<Byte>, i: int, r: int)
    requires 0 <= off <= |c| && 0 <= i && 0 <= r && i + r <= |src|
    ensures Written(Written(c, off, src[..i]), off + i, src[i..i + r]) == Written(c, off, src[..i + r])
  {
  }

  lemma SameInode(s: Fs, t: Fs, f: int)
    requires Shaped(s) && Shaped(t) && |t.ino| == |s.ino| && |t.blk| == |s.blk| && IsFile(s, f) && SameFile(s, t, f)
    ensures t.ino[f] == s.ino[f]
  {
  }

  lemma SetSizeOther(t: Fs, p: int, size: int, f: int)
    requires Tree(t) && IsFile(t, p) && IsFile(t, f) && f != p
    ensures Shaped(SetSize(t, p, size)) && SameFile(t, SetSize(t, p, size), f)
  {
    hide Val, Marked, Once, Conserved;
    SetSizeTree(t, p, size);
    forall sl | IsSlot(sl) ensures SameSlot(t, SetSize(t, p, size), f, sl) {
      assert At(SetSize(t, p, size), Place(f, sl)) == At(t, Place(f, sl));
    }
  }

  // ---- What a write logs ----

  /** Blocks logged while writing file blocks lo to hi: the bitmap, the inode,
      and blocks on the paths to them. */
  ghost predicate LogsRange(t: Fs, p: int, lo: int, hi: int, r: LogRef)
    requires Shaped(t) && IsFile(t, p)
  {
    || IsBitmap(r, |t.blk|)
    || r == InodeBlk(p)
    || exists bn, sl :: 0 <= lo <= bn <= hi && bn < MAXFILE && OnPath(t, p, bn, sl, r)
  }

  predicate OnPath(t: Fs, p: int, bn: int, sl: Slot, r: LogRef)
    requires Shaped(t) && IsFile(t, p) && 0 <= bn < MAXFILE
  {
    sl in Path(bn) && IsSlot(sl) && Val(t, p, sl) != 0 && r == Blk(Val(t, p, sl))
  }

  lemma LogsLater(t: Fs, u: Fs, p: int, lo: int, hi: int, r: LogRef)
    requires Extends(t, u, p) && IsFile(t, p) && LogsRange(t, p, lo, hi, r)
    ensures LogsRange(u, p, lo, hi, r)
  {
    hide Val;
    if !IsBitmap(r, |t.blk|) && r != InodeBlk(p) {
      var bn, sl :| 0 <= lo <= bn <= hi && bn < MAXFILE && OnPath(t, p, bn, sl, r);
      assert Kept(t, u, p, Place(p, sl));
      assert OnPath(u, p, bn, sl, r);
    }
  }

  lemma LogsHere(u: Fs, p: int, lo: int, bn: int, hi: int, r: LogRef)
    requires Shaped(u) && IsFile(u, p) && 0 <= lo <= bn < MAXFILE && bn <= hi && LogsPath(u, p, bn, r)
    ensures LogsRange(u, p, lo, hi, r)
  {
    hide Val;
    if !IsBitmap(r, |u.blk|) {
      var sl :| sl in Path(bn) && IsSlot(sl) && Val(u, p, sl) != 0 && r == Blk(Val(u, p, sl));
      assert OnPath(u, p, bn, sl, r);
    }
  }

  /** Logging is about block numbers, so overwriting data does not matter. */
  lemma LogsPut(u: Fs, v: Fs, p: int, lo: int, hi: int, r: LogRef)
    requires Shaped(u) && Shaped(v) && IsFile(u, p) && |v.ino| == |u.ino| && |v.blk| == |u.blk|
    requires forall x | IsPlace(u, x) :: At(v, x) == At(u, x)
    requires LogsRange(u, p, lo, hi, r)
    ensures LogsRange(v, p, lo, hi, r)
  {
    hide Val;
    if !IsBitmap(r, |u.blk|) && r != InodeBlk(p) {
      var bn, sl :| 0 <= lo <= bn <= hi && bn < MAXFILE && OnPath(u, p, bn, sl, r);
      assert At(v, Place(p, sl)) == At(u, Place(p, sl));
      assert OnPath(v, p, bn, sl, r);
    }
  }

  ghost predicate LogsOnly(t: Fs, p: int, lo: int, hi: int, logged: set<LogRef>)
    requires Shaped(t) && IsFile(t, p)
  {
    forall r | r in logged :: LogsRange(t, p, lo, hi, r)
  }

  /** One iteration of writei logs within the range: bmap, then the data block. */
  lemma LogsIteration(t: Fs, u: Fs, v: Fs, p: int, lo: int, bn: int, hi: int, addr: int, before: set<LogRef>, path: set<LogRef>)
    requires Mapped(t, u, p, bn, addr) && 0 <= lo <= bn <= hi && bn < MAXFILE
    requires Shaped(v) && |v.ino| == |u.ino| && |v.blk| == |u.blk| && forall x | IsPlace(u, x) :: At(v, x) == At(u, x)
    requires LogsOnly(t, p, lo, hi, before) && forall r | r in path :: LogsPath(u, p, bn, r)
    ensures IsFile(u, p) && LogsOnly(v, p, lo, hi, before + path)
    ensures addr != 0 ==> LogsOnly(v, p, lo, hi, before + path + {Blk(addr)})
  {
    hide Val, At, LogsRange, LogsPath, Tree, Path;
    forall r | r in before + path ensures LogsRange(v, p, lo, hi, r) {
      if r in path {
        LogsHere(u, p, lo, bn, hi, r);
      } else {
        LogsLater(t, u, p, lo, hi, r);
      }
      LogsPut(u, v, p, lo, hi, r);
    }
    if addr != 0 {
      LogsLeaf(u, p, bn);
      LogsHere(u, p, lo, bn, hi, Blk(addr));
      LogsPut(u, v, p, lo, hi, Blk(addr));
    }
  }

  lemma LogsLeaf(u: Fs, p: int, bn: int)
    requires Shaped(u) && IsFile(u, p) && 0 <= bn < MAXFILE && Val(u, p, Leaf(bn)) != 0
    ensures LogsPath(u, p, bn, Blk(Val(u, p, Leaf(bn))))
  {
  }

  /** The last step of writei: the new size, and the inode logged. */
  lemma LogsSize(t: Fs, p: int, size: int, lo: int, hi: int, logged: set<LogRef>)
    requires Tree(t) && IsFile(t, p) && LogsOnly(t, p, lo, hi, logged)
    ensures Tree(SetSize(t, p, size)) && LogsOnly(SetSize(t, p, size), p, lo, hi, logged + {InodeBlk(p)})
  {
    hide Val, At, Marked, Once, Conserved;
    SetSizeTree(t, p, size);
    forall r | r in logged ensures LogsRange(SetSize(t, p, size), p, lo, hi, r) {
      LogsPut(t, SetSize(t, p, size), p, lo, hi, r);
    }
  }

  /** bmap below the size of a file finds the block and changes nothing. */
  lemma ReadMapped(s: Fs, t: Fs, p: int, o: int, addr: int)
    requires Mapped(s, t, p, o / BSIZE, addr) && Backed(s, p, s.ino[p].size) && 0 <= o < s.ino[p].size
    ensures t == s && addr == DataBlock(s, p, o) && 0 < addr < |s.blk|
  {
  }

  lemma SliceMore(c: seq<Byte>, off: int, tot: int, m: int)
    requires 0 <= off && 0 <= tot && 0 <= m && off + tot + m <= |c|
    ensures c[off..off + (tot + m)] == c[off..off + tot] + c[off + tot..off + tot + m]
  {
  }

  /** A run of bytes within one block, as readi copies it. */
  lemma BlockBytes(s: Fs, p: int, o: int, m: int)
    requires Tree(s) && IsFile(s, p) && Backed(s, p, s.ino[p].size)
    requires 0 <= o && 0 < m && o + m <= s.ino[p].size && o % BSIZE + m <= BSIZE
    ensures var addr := DataBlock(s, p, o);
            0 < addr < |s.blk| && Contents(s, p)[o..o + m] == s.blk[addr][o % BSIZE..o % BSIZE + m]
  {
    hide Val, Once, Conserved;
    BackedByte(s, p, s.ino[p].size, o);
    var addr := DataBlock(s, p, o);
    assert At(s, Place(p, Leaf(o / BSIZE))) == addr;
    var c, run := Contents(s, p)[o..o + m], s.blk[addr][o % BSIZE..o % BSIZE + m];
    forall j | 0 <= j < m ensures c[j] == run[j] {
      assert (o + j) / BSIZE == o / BSIZE && (o + j) % BSIZE == o % BSIZE + j;
      assert c[j] == FileByte(s, p, o + j);
    }
  }

  lemma WritingKeeps(s: Fs, t: Fs, p: int, off: int, src: seq<Byte>, tot: int)
    requires Writing(s, t, p, off, src, tot)
    ensures IsFile(t, p) && t.ino[p].size == s.ino[p].size && Tree(t) && |t.ino| == |s.ino|
  {
  }

  lemma LogsNone(s: Fs, p: int, lo: int, hi: int)
    requires Shaped(s) && IsFile(s, p)
    ensures LogsOnly(s, p, lo, hi, {})
  {
  }

  lemma LogsSubset(s: Fs, p: int, lo: int, hi: int, few: set<LogRef>, many: set<LogRef>)
    requires Shaped(s) && IsFile(s, p) && few <= many && LogsOnly(s, p, lo, hi, many)
    ensures LogsOnly(s, p, lo, hi, few)
  {
  }

  lemma SameFull(s: Fs, t: Fs)
    requires t.used == s.used
    ensures Full(t) == Full(s)
  {
  }

  /** Bytes of a write of n at `off` that go into the block reached after r of them. */
  function BytesHere(off: int, n: int, r: int): (m: int)
    requires 0 <= off && 0 <= r < n
    ensures 0 < m <= n - r && (off + r) % BSIZE + m <= BSIZE
    ensures r + m < n ==> (off + r + m) % BSIZE == 0
  {
    if n - r < BSIZE - (off + r) % BSIZE then n - r else BSIZE - (off + r) % BSIZE
  }

  /** The source ends before the block being written is complete. */
  lemma Short(off: int, n: int, r: int, len: int)
    requires 0 <= off && 0 <= r < n && r <= len < r + BytesHere(off, n, r)
    ensures len < n && (off + len) / BSIZE == (off + r) / BSIZE
  {
    var k, o := (off + r) / 1024, (off + r) % 1024;
    assert off + len == 1024 * k + (o + len - r);
    SameBlockAs(k, o + len - r);
  }

  lemma SameBlockAs(k: int, o: int)
    requires 0 <= o < 1024
    ensures (1024 * k + o) / 1024 == k
  {
  }

  lemma MappedKeeps(t: Fs, u: Fs, p: int, bn: int, addr: int)
    requires Mapped(t, u, p, bn, addr)
    ensures Tree(t) && Tree(u) && Extends(t, u, p) && |u.ino| == |t.ino| && |u.blk| == |t.blk| && u.meta == t.meta
    ensures IsFile(t, p) && IsFile(u, p) && 0 <= bn < MAXFILE
    ensures addr == Val(u, p, Leaf(bn))
    ensures if addr == 0 then Full(u) else 0 < addr < |u.blk|
  {
  }

  lemma PutDataMapped(t: Fs, u: Fs, p: int, bn: int, addr: int, data: Block)
    requires Mapped(t, u, p, bn, addr) && addr != 0
    ensures 0 < addr < |u.blk| && IsFile(u, p)
    ensures var v := PutData(u, addr, data); Tree(v) && |v.ino| == |u.ino| && forall x | IsPlace(u, x) :: At(v, x) == At(u, x)
  {
    hide Val, Marked, Once, Conserved;
    LeafIsLeaf(bn);
    PutDataTree(u, Place(p, Leaf(bn)), data);
  }

  // ---- The reservation arithmetic of filewrite ----

  /** The slots other than leaves that lead to blocks lo to lo + 3: at most three. */
  function Pointers(lo: int): seq<Slot> {
    if lo + 3 < NDIRECT + NINDIRECT then [Top(IND)]
    else if lo >= NDIRECT + NINDIRECT then
      [Top(DBL), DblMid((lo - NDIRECT - NINDIRECT) / NINDIRECT), DblMid((lo - NDIRECT - NINDIRECT) / NINDIRECT + 1)]
    else [Top(IND), Top(DBL), DblMid(0)]
  }

  lemma NextMid(a: int, b: int)
    requires 0 <= a <= b <= a + 3
    ensures b / 256 == a / 256 || b / 256 == a / 256 + 1
    ensures b < 256 ==> b / 256 == 0
  {
  }

  lemma PathAbove(bn: int, sl: Slot)
    requires 0 <= bn < MAXFILE && sl in Path(bn) && sl != Leaf(bn)
    ensures bn >= NDIRECT
    ensures bn < NDIRECT + NINDIRECT ==> sl == Top(IND)
    ensures bn >= NDIRECT + NINDIRECT ==> sl == Top(DBL) || sl == DblMid((bn - NDIRECT - NINDIRECT) / 256)
  {
  }

  lemma PointersCover(lo: int, bn: int, sl: Slot)
    requires 0 <= lo <= bn <= lo + 3 && bn < MAXFILE && sl in Path(bn) && sl != Leaf(bn)
    ensures exists i :: 0 <= i < |Pointers(lo)| && Pointers(lo)[i] == sl
  {
    hide Path, Leaf;
    PathAbove(bn, sl);
    if lo >= NDIRECT + NINDIRECT {
      NextMid(lo - NDIRECT - NINDIRECT, bn - NDIRECT - NINDIRECT);
      assert Pointers(lo)[0] == Top(DBL);
      assert Pointers(lo)[1] == DblMid((lo - NDIRECT - NINDIRECT) / 256);
      assert Pointers(lo)[2] == DblMid((lo - NDIRECT - NINDIRECT) / 256 + 1);
    } else if bn < NDIRECT + NINDIRECT {
      assert Pointers(lo)[0] == sl;
    } else {
      NextMid(0, bn - NDIRECT - NINDIRECT);
      assert Pointers(lo)[1] == Top(DBL) && Pointers(lo)[2] == DblMid(0);
    }
  }

  lemma {:induction false} FewBlocks(t: Fs, p: int, slots: seq<Slot>, logged: set<LogRef>)
    requires Shaped(t) && IsFile(t, p)
    requires forall r | r in logged :: exists i :: 0 <= i < |slots| && IsSlot(slots[i]) && r == Blk(Val(t, p, slots[i]))
    ensures |logged| <= |slots|
  {
    hide Val;
    if slots == [] {
      assert logged == {};
    } else {
      var sl := slots[|slots| - 1];
      var r := if IsSlot(sl) then {Blk(Val(t, p, sl))} else {};
      var rest, fewer := logged - r, slots[..|slots| - 1];
      forall x | x in rest ensures exists i :: 0 <= i < |fewer| && IsSlot(fewer[i]) && x == Blk(Val(t, p, fewer[i])) {
        var i :| 0 <= i < |slots| && IsSlot(slots[i]) && x == Blk(Val(t, p, slots[i]));
        assert fewer[i] == slots[i];
      }
      FewBlocks(t, p, fewer, rest);
      assert logged <= rest + r;
    }
  }

  function Leaves(lo: int): seq<Slot>
    requires 0 <= lo < MAXFILE
  {
    [Leaf(lo)] + (if lo + 1 < MAXFILE then [Leaf(lo + 1)] else []) +
    (if lo + 2 < MAXFILE then [Leaf(lo + 2)] else []) + (if lo + 3 < MAXFILE then [Leaf(lo + 3)] else [])
  }

  /** Four blocks of data, three of pointers, the bitmap and the inode: what one
      chunk of filewrite can log, on any disk with a one-block bitmap. */
  lemma NineBlocks(t: Fs, p: int, lo: int, hi: int, logged: set<LogRef>)
    requires Shaped(t) && IsFile(t, p) && |t.blk| < BPB && 0 <= lo < MAXFILE && hi <= lo + 3
    requires LogsOnly(t, p, lo, hi, logged)
    ensures |logged| <= 9 < MAXOPBLOCKS
  {
    hide Val, Pointers, Leaves, OnPath, IsSlot;
    var slots := Leaves(lo) + Pointers(lo);
    PointersFew(lo);
    var blocks := set r | r in logged && r.Blk?;
    forall r | r in blocks ensures exists i :: 0 <= i < |slots| && IsSlot(slots[i]) && r == Blk(Val(t, p, slots[i])) {
      var bn, sl :| 0 <= lo <= bn <= hi && bn < MAXFILE && OnPath(t, p, bn, sl, r);
      SlotListed(t, p, lo, bn, sl, r);
    }
    FewBlocks(t, p, slots, blocks);
    forall r | r in logged ensures r in blocks + {BitmapBlk(0)} + {InodeBlk(p)} {
      RefKinds(t, p, lo, hi, r);
    }
    SubsetSize(logged, blocks + {BitmapBlk(0)} + {InodeBlk(p)});
  }

  lemma ChunkFits(t: Fs, p: int, off: int, n: int, logged: set<LogRef>)
    requires Tree(t) && IsFile(t, p) && |t.blk| < BPB && 0 <= off && 0 < n <= 3 * BSIZE && off + n <= MAXFILE * BSIZE
    requires LogsOnly(t, p, off / BSIZE, (off + n - 1) / BSIZE, logged)
    ensures |logged| <= 9 < MAXOPBLOCKS
  {
    hide Marked, Once, Conserved, LogsOnly;
    NineBlocks(t, p, off / BSIZE, (off + n - 1) / BSIZE, logged);
  }

  lemma RefKinds(t: Fs, p: int, lo: int, hi: int, r: LogRef)
    requires Shaped(t) && IsFile(t, p) && |t.blk| < BPB && LogsRange(t, p, lo, hi, r)
    ensures r.Blk? || r == BitmapBlk(0) || r == InodeBlk(p)
  {
  }

  lemma SlotListed(t: Fs, p: int, lo: int, bn: int, sl: Slot, r: LogRef)
    requires Shaped(t) && IsFile(t, p) && 0 <= lo <= bn <= lo + 3 && bn < MAXFILE && OnPath(t, p, bn, sl, r)
    ensures var slots := Leaves(lo) + Pointers(lo);
            exists i :: 0 <= i < |slots| && IsSlot(slots[i]) && r == Blk(Val(t, p, slots[i]))
  {
    hide Val, Pointers, Leaf, Path;
    var slots := Leaves(lo) + Pointers(lo);
    if sl == Leaf(bn) {
      assert slots[bn - lo] == sl;
    } else {
      PointersCover(lo, bn, sl);
      var i :| 0 <= i < |Pointers(lo)| && Pointers(lo)[i] == sl;
      assert slots[|Leaves(lo)| + i] == sl;
    }
  }

  lemma PointersFew(lo: int)
    requires 0 <= lo < MAXFILE
    ensures |Pointers(lo)| <= 3 && |Leaves(lo)| <= 4
  {
  }
}
