/** kernel/fs.c as code: the bitmap allocator, bmap, itrunc, readi and writei. */
module FileSys {
  import opened Params
  import opened Bitmap
  import opened FsTree
  import opened FsMap
  import opened FsWrite

  class FileSystem {
    const size: nat
    const meta: nat
    var bitmap: seq<BitBlock>
    var blk: seq<Block>
    var ino: seq<Inode>
    ghost var logged: set<LogRef>

    ghost predicate Sound()
      reads this
    {
      size <= |bitmap| * BPB && |blk| == size && 0 < meta <= size <= WORD_LIMIT
    }

    ghost function St(): (s: Fs)
      requires Sound()
      reads this
    {
      Fs(meta, Bits(bitmap, size), blk, ino)
    }

    /** The disk mkfs starts from: the blocks below meta in use, all else free, and
        every inode empty. */
    constructor (size: nat, meta: nat, inodes: nat)
      requires 0 < meta <= size <= WORD_LIMIT
      ensures Ok() && Valid(St()) && this.size == size && this.meta == meta && |ino| == inodes && logged == {}
      ensures forall b | 0 <= b < size :: St().used[b] <==> b < meta
      ensures forall p | 0 <= p < inodes :: Contents(St(), p) == []
    {
      this.size, this.meta := size, meta;
      bitmap := seq(size / BPB + 1, _ => seq(BSIZE, _ => 0));
      blk := seq(size, _ => ZeroBlock());
      ino := seq(inodes, _ => Inode(NoAddrs(), 0));
      logged := {};
      new;
      BlankBits(bitmap, size);
      for b := 0 to meta
        modifies `bitmap
        invariant Sound() && |bitmap| == size / BPB + 1
        invariant forall c | 0 <= c < size :: Bits(bitmap, size)[c] <==> c < b
      {
        BitsChange(bitmap, size, b);
        bitmap := SetBit(bitmap, b);
      }
      EmptyFiles(St());
    }

    /** balloc: the lowest free block, marked and zeroed; 0 if there is none. */
    method Balloc() returns (b: int)
      requires Sound()
      modifies `bitmap, `blk, `logged
      ensures Sound()
      ensures old(Full(St())) ==> b == 0 && St() == old(St()) && logged == old(logged)
      ensures !old(Full(St())) ==>
                && 0 <= b < size && !old(St()).used[b] && (forall c | 0 <= c < b :: old(St()).used[c])
                && St() == Allot(old(St()), b) && logged == old(logged) + {BitmapBlk(b / BPB), Blk(b)}
                && b / 8192 < |old(bitmap)| == |bitmap|
                && old(bitmap)[b / 8192][b % 8192 / 8] as int / [1, 2, 4, 8, 16, 32, 64, 128][b % 8] % 2 == 0
                && bitmap == old(bitmap)[b / 8192 := old(bitmap)[b / 8192][b % 8192 / 8 := bitmap[b / 8192][b % 8192 / 8]]]
                && bitmap[b / 8192][b % 8192 / 8] as int == old(bitmap)[b / 8192][b % 8192 / 8] as int + [1, 2, 4, 8, 16, 32, 64, 128][b % 8]
    {
      hide Has, With, PutByte, ByteOf;
      ghost var used := Bits(bitmap, size);
      var base := 0;
      while base < size
        invariant base % BPB == 0 && 0 <= base
        invariant forall c | 0 <= c < base && c < size :: used[c]
        invariant bitmap == old(bitmap) && blk == old(blk) && logged == old(logged)
      {
        var bi := 0;
        while bi < BPB && base + bi < size
          invariant 0 <= bi <= BPB && base + bi <= size
          invariant forall c | 0 <= c < base + bi :: used[c]
          invariant bitmap == old(bitmap) && blk == old(blk) && logged == old(logged)
        {
          BlockBit(bitmap, base, bi, 0);
          if !Has(bitmap[base / BPB][bi / 8], bi % 8) {
            assert !used[base + bi];
            b := Claim(base, bi);
            return;
          }
          bi := bi + 1;
        }
        base := base + BPB;
      }
      b := 0;
    }

    /** The bit found free is set, and the block zeroed. */
    method Claim(base: int, bi: int) returns (b: int)
      requires Sound() && 0 <= base && base % BPB == 0 && 0 <= bi < BPB && base + bi < size
      modifies `bitmap, `blk, `logged
      requires !Has(bitmap[base / BPB][bi / 8], bi % 8)
      ensures Sound() && b == base + bi && St() == Allot(old(St()), b)
      ensures b / 8192 < |old(bitmap)| == |bitmap|
      ensures old(bitmap)[b / 8192][b % 8192 / 8] as int / [1, 2, 4, 8, 16, 32, 64, 128][b % 8] % 2 == 0
      ensures bitmap == old(bitmap)[b / 8192 := old(bitmap)[b / 8192][b % 8192 / 8 := bitmap[b / 8192][b % 8192 / 8]]]
      ensures bitmap[b / 8192][b % 8192 / 8] as int == old(bitmap)[b / 8192][b % 8192 / 8] as int + [1, 2, 4, 8, 16, 32, 64, 128][b % 8]
      ensures logged == old(logged) + {BitmapBlk(b / BPB), Blk(b)}
    {
      hide Has, With, PutByte, ByteOf;
      var data := bitmap[base / BPB];
      BlockBit(bitmap, base, bi, With(data[bi / 8], bi % 8));
      b := base + bi;
      InBlock(base, bi);
      Numbers(data[bi / 8], bi % 8);
      WithNumber(data[bi / 8], bi % 8);
      BitsChange(bitmap, size, b);
      bitmap := bitmap[base / BPB := data[bi / 8 := With(data[bi / 8], bi % 8)]];
      blk := blk[b := ZeroBlock()];
      logged := logged + {BitmapBlk(b / BPB), Blk(b)};
    }

    /** bfree: only ever called on a used block, or the kernel panics. */
    method Bfree(b: int)
      requires Sound() && 0 <= b < size && St().used[b]
      modifies `bitmap, `logged
      ensures Sound()
      ensures St() == old(St()).(used := old(St()).used[b := false])
      ensures logged == old(logged) + {BitmapBlk(b / BPB)}
      ensures bitmap == old(bitmap)[b / 8192 := old(bitmap)[b / 8192][b % 8192 / 8 := bitmap[b / 8192][b % 8192 / 8]]]
      ensures bitmap[b / 8192][b % 8192 / 8] as int == old(bitmap)[b / 8192][b % 8192 / 8] as int - [1, 2, 4, 8, 16, 32, 64, 128][b % 8]
    {
      WithoutNumber(ByteOf(bitmap, b), b % 8);
      BitsChange(bitmap, size, b);
      bitmap := ClearBit(bitmap, b);
      logged := logged + {BitmapBlk(b / BPB)};
    }

    /** Trees are in order; the boot block, never allocated, is zero. */
    ghost predicate Ok()
      reads this
    {
      Sound() && Tree(St()) && blk[0] == ZeroBlock()
    }

    method FillTop(p: int, i: int) returns (a: int)
      requires Ok() && 0 <= p < |ino| && 0 <= i <= DBL
      modifies `bitmap, `blk, `ino, `logged
      ensures Ok() && FilledTo(old(St()), St(), p, Top(i), a)
      ensures forall r | r in logged - old(logged) :: a != 0 && (IsBitmap(r, size) || r == Blk(a))
      ensures old(ino[p].addrs[i]) != 0 ==> logged == old(logged)
      ensures old(logged) <= logged && Covers(old(St()), St(), logged, p)
    {
      hide Marked, Once, Conserved, Bits, Graft, Covers;
      CoversNone(St(), logged, p);
      ghost var s := St();
      a := ino[p].addrs[i];
      if a == 0 {
        a := Balloc();
        if !Full(s) {
          FreeIsData(s, a);
        }
        if a == 0 {
          return;
        }
        CoversAllot(s, a, logged, p);
        ghost var t := St();
        ino := ino[p := Inode(ino[p].addrs[i := a], ino[p].size)];
        CoversInode(s, t, St(), logged, p);
        assert CanGraft(s, p, Top(i), a);
        GraftTree(s, p, Top(i), a);
        GraftTop(s, p, i, a);
      }
    }

    /** The same for entry `k` of the pointer block at `addr`, which is slot `sl`. */
    method FillIn(addr: int, k: int, ghost p: int, ghost sl: Slot) returns (a: int)
      requires Ok() && IsFile(St(), p) && IsSlot(sl) && !sl.Top? && Index(sl) == k
      requires addr == Val(St(), p, Parent(sl)) != 0
      modifies `bitmap, `blk, `logged
      ensures Ok() && FilledTo(old(St()), St(), p, sl, a)
      ensures forall r | r in logged - old(logged) :: a != 0 && (IsBitmap(r, size) || r == Blk(a) || r == Blk(addr))
      ensures Val(old(St()), p, sl) != 0 ==> logged == old(logged)
      ensures old(logged) <= logged && Covers(old(St()), St(), logged, p)
    {
      hide Word, SetWord, Marked, Once, Graft, Bits, Covers;
      CoversNone(St(), logged, p);
      ghost var s := St();
      ParentInRange(s, p, sl);
      a := Word(blk[addr], k);
      if a == 0 {
        a := Balloc();
        if a != 0 {
          assert CanGraft(s, p, sl, a);
          GraftIn(s, p, sl, a);
          ghost var t, some := St(), logged;
          CoversAllot(s, a, logged, p);
          blk := blk[addr := SetWord(blk[addr], k, a)];
          logged := logged + {Blk(addr)};
          CoversBlock(s, t, St(), some, logged, p, addr);
          GraftTree(s, p, sl, a);
        }
      }
    }

    /** bmap. */
    method Bmap(p: int, bn: int) returns (addr: int)
      requires Ok() && 0 <= p < |ino| && 0 <= bn < MAXFILE
      modifies `bitmap, `blk, `ino, `logged
      ensures Ok() && Mapped(old(St()), St(), p, bn, addr)
      ensures old(logged) <= logged && forall r | r in logged - old(logged) :: LogsPath(St(), p, bn, r)
      ensures Val(old(St()), p, Leaf(bn)) != 0 ==> logged == old(logged)
      ensures Covers(old(St()), St(), logged, p)
    {
      PathThere(St(), p, bn);
      hide Covers, Marked, Once, Conserved, Extends, CanGraft, Graft, Bits, Val, Mapped, LogsPath;
      ghost var s := St();
      if bn < NDIRECT {
        addr := FillTop(p, bn);
        MappedDirect(s, St(), p, bn, addr);
        FilledEffect(s, St(), p, Top(bn), addr);
        forall r | r in logged - old(logged) ensures LogsPath(St(), p, bn, r) {
          LogsOnPath(St(), p, bn, Top(bn), r);
        }
      } else if bn - NDIRECT < NINDIRECT {
        addr := BmapIndirect(p, bn);
      } else {
        addr := BmapDouble(p, bn);
      }
    }

    method BmapIndirect(p: int, bn: int) returns (addr: int)
      requires Ok() && 0 <= p < |ino| && NDIRECT <= bn < NDIRECT + NINDIRECT
      modifies `bitmap, `blk, `ino, `logged
      ensures Ok() && Mapped(old(St()), St(), p, bn, addr)
      ensures old(logged) <= logged && forall r | r in logged - old(logged) :: LogsPath(St(), p, bn, r)
      ensures Val(old(St()), p, Leaf(bn)) != 0 ==> logged == old(logged)
      ensures Covers(old(St()), St(), logged, p)
    {
      PathThere(St(), p, bn);
      hide Covers, Marked, Once, Conserved, Extends, CanGraft, Graft, Bits, Val, Mapped, LogsPath;
      ghost var s := St();
      var root := FillTop(p, IND);
      ghost var t := St();
      FilledEffect(s, t, p, Top(IND), root);
      if root == 0 {
        MappedNot(s, t, p, bn);
        return 0;
      }
      ghost var some := logged;
      addr := FillIn(root, bn - NDIRECT, p, IndLeaf(bn - NDIRECT));
      CoversTrans(s, t, St(), some, logged, p);
      MappedIndirect(s, t, St(), p, bn, root, addr);
      FilledEffect(t, St(), p, Leaf(bn), addr);
      forall r | r in logged - old(logged) ensures LogsPath(St(), p, bn, r) {
        LogsOnPath(St(), p, bn, if r == Blk(addr) && addr != 0 then Leaf(bn) else Top(IND), r);
      }
    }

    /** bmap on a full disk goes on with block 0, finds no entry and fails to allocate
        again. */
    method ReadNothing(second: int) returns (entry: int)
      requires Ok() && Full(St()) && 0 <= second < NINDIRECT
      modifies `bitmap, `blk, `logged
      ensures Ok() && St() == old(St()) && logged == old(logged) && entry == 0
    {
      hide Tree, Bits, Word;
      ZeroWords(second);
      entry := Word(blk[0], second);
      if entry == 0 {
        entry := Balloc();
      }
    }

    method BmapDouble(p: int, bn: int) returns (addr: int)
      requires Ok() && 0 <= p < |ino| && NDIRECT + NINDIRECT <= bn < MAXFILE
      modifies `bitmap, `blk, `ino, `logged
      ensures Ok() && Mapped(old(St()), St(), p, bn, addr)
      ensures old(logged) <= logged && forall r | r in logged - old(logged) :: LogsPath(St(), p, bn, r)
      ensures Val(old(St()), p, Leaf(bn)) != 0 ==> logged == old(logged)
      ensures Covers(old(St()), St(), logged, p)
    {
      PathThere(St(), p, bn);
      hide Covers, Marked, Once, Conserved, Extends, CanGraft, Graft, Bits, Val, Mapped, LogsPath, Word;
      ghost var s := St();
      var root := FillTop(p, DBL);
      ghost var t := St();
      FilledEffect(s, t, p, Top(DBL), root);
      if root == 0 {
        NoMid(s, t, p, bn);
        MappedNot(s, t, p, bn);
        return 0;
      }
      var first := (bn - NDIRECT - NINDIRECT) / NINDIRECT;
      var second := (bn - NDIRECT - NINDIRECT) % NINDIRECT;
      ghost var some := logged;
      var mid := FillIn(root, first, p, DblMid(first));
      ghost var u, more := St(), logged;
      CoversTrans(s, t, u, some, more, p);
      FilledEffect(t, u, p, DblMid(first), mid);
      if mid == 0 {
        ExtendsTrans(s, t, u, p);
        var entry := ReadNothing(second);
        MappedNot(s, u, p, bn);
        forall r | r in logged - old(logged) ensures LogsPath(St(), p, bn, r) {
          LogsOnPath(St(), p, bn, Top(DBL), r);
        }
        return entry;
      }
      addr := FillIn(mid, second, p, DblLeaf(first, second));
      CoversTrans(s, u, St(), more, logged, p);
      MappedDouble(s, t, u, St(), p, bn, root, mid, addr);
      FilledEffect(u, St(), p, Leaf(bn), addr);
      forall r | r in logged - old(logged) ensures LogsPath(St(), p, bn, r) {
        LogsOnPath(St(), p, bn,
                   if r == Blk(addr) && addr != 0 then Leaf(bn) else if r == Blk(mid) then DblMid(first) else Top(DBL), r);
      }
    }

    /** Mid-truncation: only marks change, and those of the slots below rank r. */
    ghost predicate Trimming(s: Fs, p: int, r: int)
      reads this
    {
      && Sound() && Tree(s) && IsFile(s, p) && s.meta == meta && |s.blk| == size
      && blk == s.blk && Freed(s, St().used, p, r) && BitsLogged(s.used, St().used, logged)
    }

    /** Free one slot's block, if it has one. */
    method Release(b: int, ghost s: Fs, ghost p: int, ghost sl: Slot)
      requires IsSlot(sl) && Trimming(s, p, Rank(sl)) && b == Val(s, p, sl)
      modifies `bitmap, `logged
      ensures Trimming(s, p, Rank(sl) + 1)
      ensures forall r | r in logged - old(logged) :: IsBitmap(r, size)
      ensures old(logged) <= logged
    {
      hide Val, Rank, Bits, Tree;
      FreedStep(s, St().used, p, sl);
      if b != 0 {
        Bfree(b);
      }
    }

    method TrimDirect(p: int)
      requires Sound() && Tree(St()) && 0 <= p < |ino|
      modifies `bitmap, `ino, `logged
      ensures Trimming(old(St()), p, AFTER_DIRECT)
      ensures |ino| == |old(ino)| && ino == old(ino)[p := ino[p]] && ino[p].size == old(ino[p].size)
      ensures ino[p].addrs == Cleared(old(ino[p].addrs), NDIRECT)
      ensures old(logged) <= logged && forall r | r in logged - old(logged) :: IsBitmap(r, size)
    {
      hide Rank, Tree, Bits, Cleared;
      ghost var s := St();
      ShapedTree(s);
      NothingPassed(s, p);
      ClearedStart(s.ino[p].addrs);
      for i := 0 to NDIRECT
        invariant Trimming(s, p, i)
        invariant |ino| == |s.ino| && ino == s.ino[p := ino[p]] && ino[p].size == s.ino[p].size
        invariant ino[p].addrs == Cleared(s.ino[p].addrs, i)
        invariant old(logged) <= logged && forall r | r in logged - old(logged) :: IsBitmap(r, size)
      {
        TopRank(i);
        ClearedNext(s.ino[p].addrs, i);
        var a := ino[p].addrs[i];
        Release(a, s, p, Top(i));
        ino := ino[p := Inode(ino[p].addrs[i := 0], ino[p].size)];
      }
    }

    method TrimIndirect(p: int, ghost s: Fs)
      requires Trimming(s, p, AFTER_DIRECT) && 0 <= p < |ino| && |ino[p].addrs| == NDIRECT + 2
      requires ino[p].addrs[IND] == s.ino[p].addrs[IND]
      modifies `bitmap, `ino, `logged
      ensures Trimming(s, p, AFTER_IND)
      ensures ino == old(ino)[p := Inode(old(ino[p].addrs)[IND := 0], old(ino[p].size))]
      ensures old(logged) <= logged && forall r | r in logged - old(logged) :: IsBitmap(r, size)
    {
      hide Tree, Bits, Word;
      ShapedTree(s);
      var root := ino[p].addrs[IND];
      if root != 0 {
        ParentInRange(s, p, Top(IND));
        for j := 0 to NINDIRECT
          invariant Trimming(s, p, NDIRECT + j) && ino == old(ino)
          invariant old(logged) <= logged && forall r | r in logged - old(logged) :: IsBitmap(r, size)
        {
          Release(Word(blk[root], j), s, p, IndLeaf(j));
        }
        Release(root, s, p, Top(IND));
      } else {
        NoIndirect(s, p);
        FreedSkip(s, St().used, p, AFTER_DIRECT, AFTER_IND);
      }
      ino := ino[p := Inode(ino[p].addrs[IND := 0], ino[p].size)];
    }

    /** One second-level pointer block of the doubly-indirect tree. */
    method TrimMid(mid: int, i: int, ghost p: int, ghost s: Fs)
      requires 0 <= i < NINDIRECT && Trimming(s, p, MidStart(i)) && mid == Val(s, p, DblMid(i))
      modifies `bitmap, `logged
      ensures Trimming(s, p, MidStart(i + 1))
      ensures old(logged) <= logged && forall r | r in logged - old(logged) :: IsBitmap(r, size)
    {
      hide Tree, Bits, Word;
      ShapedTree(s);
      if mid != 0 {
        ParentInRange(s, p, DblMid(i));
        for j := 0 to NINDIRECT
          invariant Trimming(s, p, MidStart(i) + j)
          invariant old(logged) <= logged && forall r | r in logged - old(logged) :: IsBitmap(r, size)
        {
          Release(Word(blk[mid], j), s, p, DblLeaf(i, j));
        }
        Release(mid, s, p, DblMid(i));
      } else {
        NoLeaves(s, p, i);
        FreedSkip(s, St().used, p, MidStart(i), MidStart(i + 1));
      }
    }

    method TrimDouble(p: int, ghost s: Fs)
      requires Trimming(s, p, AFTER_IND) && 0 <= p < |ino| && |ino[p].addrs| == NDIRECT + 2
      requires ino[p].addrs[DBL] == s.ino[p].addrs[DBL]
      modifies `bitmap, `ino, `logged
      ensures Trimming(s, p, AFTER_DBL)
      ensures ino == old(ino)[p := Inode(old(ino[p].addrs)[DBL := 0], old(ino[p].size))]
      ensures old(logged) <= logged && forall r | r in logged - old(logged) :: IsBitmap(r, size)
    {
      hide Tree, Bits, Word;
      ShapedTree(s);
      var root := ino[p].addrs[DBL];
      if root != 0 {
        ParentInRange(s, p, Top(DBL));
        for i := 0 to NINDIRECT
          invariant Trimming(s, p, MidStart(i)) && ino == old(ino)
          invariant old(logged) <= logged && forall r | r in logged - old(logged) :: IsBitmap(r, size)
        {
          TrimMid(Word(blk[root], i), i, p, s);
        }
        Release(root, s, p, Top(DBL));
      } else {
        NoDouble(s, p);
        FreedSkip(s, St().used, p, AFTER_IND, AFTER_DBL);
      }
      ino := ino[p := Inode(ino[p].addrs[DBL := 0], ino[p].size)];
    }

    /** itrunc: the file is emptied and exactly its own blocks become free. */
    method Itrunc(p: int)
      requires Ok() && 0 <= p < |ino|
      modifies `bitmap, `ino, `logged
      ensures Ok() && Truncated(old(St()), St(), p) && (old(Valid(St())) ==> Valid(St()))
      ensures old(logged) <= logged && Transaction(old(St()), St(), logged, p)
      ensures forall r | r in logged - old(logged) :: IsBitmap(r, size) || r == InodeBlk(p)
    {
      hide Rank, Bits, Freed, Marked, Once, Conserved;
      ghost var s := St();
      TrimDirect(p);
      TrimIndirect(p, s);
      TrimDouble(p, s);
      FreedAll(s, St().used, p);
      FreedBoot(s, St().used, p);
      ino := ino[p := Inode(ino[p].addrs, 0)];
      logged := logged + {InodeBlk(p)};
      assert ino[p].addrs == NoAddrs();
      assert Truncated(s, St(), p);
      TruncatedTree(s, St(), p);
      if Valid(s) {
        TruncatedFiles(s, St(), p);
      }
    }

    /** readi: the bytes of the file from `off`, at most n of them, copied to a
        destination that accepts the first `room` bytes; -1 if and only if that is
        too few.  It allocates nothing. */
    method Readi(p: int, off: int, n: int, room: nat) returns (tot: int, data: seq<Byte>)
      requires Ok() && Valid(St()) && 0 <= p < |ino| && 0 <= off < WORD_LIMIT && 0 <= n < WORD_LIMIT
      modifies `bitmap, `blk, `ino, `logged
      ensures Ok() && St() == old(St()) && logged == old(logged)
      ensures off > ino[p].size || off + n >= WORD_LIMIT ==> tot == 0 && data == []
      ensures off <= ino[p].size && off + n < WORD_LIMIT ==>
                && (tot == -1 <==> n > room && ino[p].size - off > room)
                && (tot != -1 ==> 0 <= tot <= n && off + tot <= ino[p].size && (tot == n || off + tot == ino[p].size))
                && (tot != -1 ==> data == Contents(St(), p)[off..off + tot])
                && (tot == -1 ==> |data| <= room && off + |data| <= ino[p].size && data == Contents(St(), p)[off..off + |data|])
    {
      hide Val, Marked, Once, Conserved, Bits, Contents;
      data := [];
      if off > ino[p].size || off + n >= WORD_LIMIT {
        return 0, [];
      }
      var want := if off + n > ino[p].size then ino[p].size - off else n;
      ghost var s := St();
      tot := 0;
      while tot < want
        invariant Ok() && St() == s && logged == old(logged) && ino == s.ino
        invariant 0 <= tot <= want && tot <= room && |data| == tot && off + want <= ino[p].size
        invariant data == Contents(s, p)[off..off + tot]
      {
        var m := BytesHere(off, want, tot);
        var bytes := ReadBlock(p, off + tot, m);
        if tot + m > room {
          return -1, data;
        }
        SliceMore(Contents(s, p), off, tot, m);
        data := data + bytes;
        tot := tot + m;
      }
    }

    /** One iteration of readi's loop: bmap finds the block, so the loop does not
        break off. */
    method ReadBlock(p: int, o: int, m: int) returns (bytes: seq<Byte>)
      requires Ok() && Valid(St()) && 0 <= p < |ino| && 0 <= o && 0 < m && o + m <= ino[p].size && o % BSIZE + m <= BSIZE
      modifies `bitmap, `blk, `ino, `logged
      ensures Ok() && St() == old(St()) && logged == old(logged)
      ensures bytes == Contents(St(), p)[o..o + m]
    {
      hide Val, Marked, Once, Conserved, Bits, Mapped, FileByte, DataBlock;
      ghost var s := St();
      var addr := Bmap(p, o / BSIZE);
      ReadMapped(s, St(), p, o, addr);
      BlockBytes(s, p, o, m);
      bytes := blk[addr][o % BSIZE..o % BSIZE + m];
    }

    /** writei: src holds the bytes the source can supply.  Returns -1 with nothing
        changed, or the number of bytes written: fewer than n only if the source
        ran out or the disk is full.  The block the source ran out in is mapped
        but keeps its data. */
    method Writei(p: int, src: seq<Byte>, off: int, n: int) returns (r: int)
      requires Ok() && Valid(St()) && 0 <= p < |ino| && 0 <= off < WORD_LIMIT && 0 <= n < WORD_LIMIT
      modifies `bitmap, `blk, `ino, `logged
      ensures Ok() && |ino| == |old(ino)| && old(logged) <= logged
      ensures r == -1 <==> off > old(ino[p].size) || off + n >= WORD_LIMIT || off + n > MAXFILE * BSIZE
      ensures r == -1 ==> St() == old(St()) && logged == old(logged)
      ensures r != -1 ==>
                && 0 <= r <= n && r <= |src| && Wrote(old(St()), St(), p, off, src[..r])
                && (r == 0 || r == n || (off + r) % BSIZE == 0)
                && (r < n ==> Full(St()) || (|src| < n && (off + |src|) / BSIZE == (off + r) / BSIZE))
                && LogsOnly(St(), p, off / BSIZE, (off + n - 1) / BSIZE, logged - old(logged))
                && Covers(old(St()), St(), logged, p) && InodeBlk(p) in logged
    {
      hide Val, Marked, Once, Conserved, Bits, Writing, Wrote, LogsOnly, Full, Covers;
      if off > ino[p].size || off + n >= WORD_LIMIT {
        return -1;
      }
      if off + n > MAXFILE * BSIZE {
        return -1;
      }
      ghost var s := St();
      ghost var lo, hi := off / BSIZE, (off + n - 1) / BSIZE;
      WritingStart(s, p, off, src);
      LogsNone(s, p, lo, hi);
      CoversNone(s, logged, p);
      assert logged - old(logged) == {};
      r := 0;
      while r < n
        invariant 0 <= r <= n && r <= |src| && Ok() && |ino| == |s.ino|
        invariant Writing(s, St(), p, off, src, r)
        invariant old(logged) <= logged && LogsOnly(St(), p, lo, hi, logged - old(logged))
        invariant Covers(s, St(), logged, p)
        invariant r == 0 || r == n || (off + r) % BSIZE == 0
      {
        ghost var now, some := St(), logged;
        var m := BytesHere(off, n, r);
        var fits := WriteBlock(p, src, off, n, r, s, old(logged));
        CoversTrans(s, now, St(), some, logged, p);
        if !fits {
          break;
        }
        r := r + m;
      }
      ghost var t := St();
      ghost var size' := Max(s.ino[p].size, off + r);
      WritingKeeps(s, t, p, off, src, r);
      WritingDone(s, t, p, off, src, r);
      ghost var more := logged - old(logged);
      LogsSize(t, p, size', lo, hi, more);
      assert r < n ==> Full(t) || (|src| < n && (off + |src|) / BSIZE == (off + r) / BSIZE);
      if off + r > ino[p].size {
        ino := ino[p := Inode(ino[p].addrs, off + r)];
      }
      ghost var some := logged;
      logged := logged + {InodeBlk(p)};
      assert SetSize(t, p, size').ino == ino;
      assert St() == SetSize(t, p, size');
      CoversMore(s, t, some, logged, p);
      CoversInode(s, t, St(), logged, p);
      SameFull(t, St());
      LogsSubset(St(), p, lo, hi, logged - old(logged), more + {InodeBlk(p)});
    }

    /** One iteration of writei's loop; false where it breaks off. */
    method WriteBlock(p: int, src: seq<Byte>, off: int, n: int, r: int, ghost s: Fs, ghost base: set<LogRef>) returns (fits: bool)
      requires Ok() && 0 <= p < |ino| && 0 <= r < n && r <= |src| && 0 <= off && off + n <= MAXFILE * BSIZE
      requires |ino| == |s.ino| && Writing(s, St(), p, off, src, r)
      requires base <= logged && LogsOnly(St(), p, off / BSIZE, (off + n - 1) / BSIZE, logged - base)
      modifies `bitmap, `blk, `ino, `logged
      ensures Ok() && |ino| == |s.ino|
      ensures fits ==> r + BytesHere(off, n, r) <= |src| && Writing(s, St(), p, off, src, r + BytesHere(off, n, r))
      ensures !fits ==> Writing(s, St(), p, off, src, r) && (Full(St()) || (|src| < n && (off + |src|) / BSIZE == (off + r) / BSIZE))
      ensures base <= logged && LogsOnly(St(), p, off / BSIZE, (off + n - 1) / BSIZE, logged - base)
      ensures old(logged) <= logged && Covers(old(St()), St(), logged, p)
    {
      hide Val, Marked, Once, Conserved, Bits, Writing, LogsOnly, LogsPath, Full, Mapped, Splice, Covers;
      ghost var lo, bn, hi := off / BSIZE, (off + r) / BSIZE, (off + n - 1) / BSIZE;
      ghost var t := St();
      ghost var before := logged - base;
      var addr := Bmap(p, (off + r) / BSIZE);
      ghost var u := St();
      ghost var path := logged - old(logged);
      MappedKeeps(t, u, p, bn, addr);
      WritingExtends(s, t, u, p, off, src, r);
      LogsIteration(t, u, u, p, lo, bn, hi, addr, before, path);
      assert logged - base == before + path;
      if addr == 0 {
        return false;
      }
      var m := BytesHere(off, n, r);
      if r + m > |src| {
        Short(off, n, r, |src|);
        return false;
      }
      WritingPut(s, t, u, p, off, src, r, m, addr);
      blk := blk[addr := Splice(blk[addr], (off + r) % BSIZE, src[r..r + m])];
      PutDataMapped(t, u, p, bn, addr, blk[addr]);
      assert St() == PutData(u, addr, blk[addr]);
      LogsIteration(t, u, St(), p, lo, bn, hi, addr, before, path);
      ghost var some := logged;
      logged := logged + {Blk(addr)};
      CoversBlock(t, u, St(), some, logged, p, addr);
      LogsSubset(St(), p, lo, hi, logged - base, before + path + {Blk(addr)});
      return true;
    }

    /** filewrite on an inode: chunks of three blocks, each its own transaction
        (begin_op to end_op) within the reservation of a log with a one-block
        bitmap.  Returns n, or -1 with the bytes before offset' written: then the
        offset is past the end, the file too large, the disk full or src short. */
    method FileWrite(p: int, src: seq<Byte>, offset: int, n: int) 
      returns (ret: int, offset': int, ghost ops: seq<set<LogRef>>, ghost states: seq<Fs>)
      requires Ok() && Valid(St()) && 0 <= p < |ino| && 0 <= offset < WORD_LIMIT && -0x8000_0000 <= n < 0x8000_0000
      modifies `bitmap, `blk, `ino, `logged
      ensures Ok() && Valid(St()) && |ino| == |old(ino)|
      ensures ret == n || ret == -1
      ensures var done := offset' - offset;
              && 0 <= done <= Max(n, 0) && done <= |src| && (0 <= n ==> (ret == n <==> done == n))
              && ((done == 0 && St() == old(St())) || Wrote(old(St()), St(), p, offset, src[..done]))
      ensures 0 <= n && ret == -1 ==>
                || offset > old(ino[p].size) || offset + n > MAXFILE * BSIZE || Full(St()) || n > |src|
      ensures size < BPB ==> forall i | 0 <= i < |ops| :: |ops[i]| <= 9 < MAXOPBLOCKS
      ensures Chunked(states, ops, p, src, offset, offset' - offset) && states[0] == old(St()) && states[|ops|] == St()
    {
      hide Tree, Bits, Wrote, Full, Valid, Chunked, Transaction;
      var max := ((MAXOPBLOCKS - 1 - 1 - 2) / 2) * BSIZE;
      var i := 0;
      offset', ops, states := offset, [], [St()];
      ghost var s := St();
      ChunkedNone(s, p, src, offset);
      while i < n
        invariant 0 <= i <= Max(n, 0) && i <= |src| && offset' == offset + i
        invariant Ok() && Valid(St()) && |ino| == |s.ino| && Resumes(s, St(), p, src, offset, i)
        invariant size < BPB ==> forall i | 0 <= i < |ops| :: |ops[i]| <= 9 < MAXOPBLOCKS
        invariant |states| == |ops| + 1 && states[0] == s && states[|ops|] == St() && Chunked(states, ops, p, src, offset, i)
        invariant i < n ==> i == |ops| * CHUNK
      {
        var n1 := if n - i > max then max else n - i;
        var r := WriteChunk(p, src, offset, i, n1, s);
        ChunkedMore(states, ops, p, src, offset, St(), logged, if r > 0 then i + r else i);
        ops, states := ops + [logged], states + [St()];
        if r > 0 {
          offset' := offset' + r;
        }
        if r != n1 {
          break;
        }
        i := i + r;
      }
      ret := if i == n then n else -1;
    }

    /** One transaction of filewrite. */
    method WriteChunk(p: int, src: seq<Byte>, offset: int, i: int, n1: int, ghost s: Fs) returns (r: int)
      requires Ok() && Valid(St()) && 0 <= p < |ino| == |s.ino| && 0 <= offset && 0 <= i <= |src|
      requires Resumes(s, St(), p, src, offset, i) && 0 < n1 <= 3 * BSIZE
      modifies `bitmap, `blk, `ino, `logged
      ensures Ok() && Valid(St()) && |ino| == |s.ino| && -1 <= r <= n1
      ensures r == -1 ==> St() == old(St()) && (offset > s.ino[p].size || offset + i + n1 > MAXFILE * BSIZE)
      ensures r >= 0 ==> i + r <= |src| && Wrote(s, St(), p, offset, src[..i + r]) && Resumes(s, St(), p, src, offset, i + r)
      ensures 0 <= r < n1 ==> Full(St()) || i + n1 > |src|
      ensures size < BPB ==> |logged| <= 9 < MAXOPBLOCKS
      ensures Transaction(old(St()), St(), logged, p)
      ensures r <= 0 ==> Resumes(s, St(), p, src, offset, i)
    {
      hide Tree, Bits, Wrote, LogsOnly, Full, Valid, Covers;
      CoversNone(St(), {}, p);
      ghost var t := St();
      logged := {};
      if i != 0 || t != s {
        WroteSize(s, t, p, offset, src, i);
      }
      r := Writei(p, src[i..], offset + i, n1);
      if r >= 0 {
        assert src[i..][..r] == src[i..i + r];
        WroteMore(s, t, St(), p, offset, src, i, r);
        WroteSize(s, St(), p, offset, src, i + r);
        if size < BPB {
          assert logged - {} == logged;
          ChunkFits(St(), p, offset + i, n1, logged);
        }
      }
    }
  }
}
