/** What bmap and itrunc do to the trees of FsTree, as relations between the
    state before and after. */
module FsMap {
  import opened Params
  import opened Bitmap
  import opened FsTree

  /** Blocks a transaction may log. */
  datatype LogRef = BitmapBlk(i: int) | InodeBlk(p: int) | Blk(b: int)

  // ---- What bmap may change ----

  /** t is s with some empty slots of file p filled; all data is as it was. */
  ghost predicate Extends(s: Fs, t: Fs, p: int) {
    && Shaped(s) && Shaped(t) && t.meta == s.meta && |t.blk| == |s.blk| && |t.ino| == |s.ino|
    && (forall f | IsFile(s, f) :: t.ino[f].size == s.ino[f].size)
    && (forall f | IsFile(s, f) && f != p :: t.ino[f] == s.ino[f])
    && (forall x | IsPlace(s, x) :: Kept(s, t, p, x))
  }

  predicate Kept(s: Fs, t: Fs, p: int, x: Place)
    requires Shaped(s) && Shaped(t) && |t.blk| == |s.blk| && |t.ino| == |s.ino| && IsPlace(s, x)
  {
    && (At(s, x) != 0 || x.p != p ==> At(t, x) == At(s, x))
    && (IsLeaf(x.sl) && 0 < At(s, x) < |s.blk| ==> t.blk[At(s, x)] == s.blk[At(s, x)])
  }

  lemma GraftExtends(s: Fs, p: int, sl: Slot, b: int)
    requires CanGraft(s, p, sl, b)
    ensures Tree(Graft(s, p, sl, b)) && Extends(s, Graft(s, p, sl, b), p)
  {
    hide Graft, Val;
    GraftShape(s, p, sl, b);
    GraftTree(s, p, sl, b);
    var t := Graft(s, p, sl, b);
    forall x | IsPlace(s, x) ensures Kept(s, t, p, x) {
      GraftVal(s, p, sl, b, x);
      if IsLeaf(x.sl) && At(s, x) != 0 {
        GraftData(s, p, sl, b, x);
      }
    }
  }

  lemma ExtendsTrans(s: Fs, t: Fs, u: Fs, p: int)
    requires Extends(s, t, p) && Extends(t, u, p)
    ensures Extends(s, u, p)
  {
    hide At;
    forall x | IsPlace(s, x) ensures Kept(s, u, p, x) {
      assert Kept(s, t, p, x) && Kept(t, u, p, x);
    }
  }

  /** What filling one slot does: nothing if it is filled or the disk is full. */
  ghost predicate FilledTo(s: Fs, t: Fs, p: int, sl: Slot, a: int) {
    && Tree(s) && IsFile(s, p) && IsSlot(sl)
    && if a == 0 then t == s && Val(s, p, sl) == 0 && Full(s)
       else if Val(s, p, sl) != 0 then t == s && a == Val(s, p, sl)
       else CanGraft(s, p, sl, a) && t == Graft(s, p, sl, a)
  }

  lemma FilledEffect(s: Fs, t: Fs, p: int, sl: Slot, a: int)
    requires FilledTo(s, t, p, sl, a)
    ensures Tree(t) && Extends(s, t, p) && |t.ino| == |s.ino| && |t.blk| == |s.blk|
    ensures IsFile(t, p) && Val(t, p, sl) == a
    ensures forall x | IsPlace(s, x) && x != Place(p, sl) :: At(t, x) == At(s, x)
    ensures a != 0 ==> 0 < a < |t.blk| && (Val(s, p, sl) == 0 ==> t.blk[a] == ZeroBlock())
    ensures a == 0 || Val(s, p, sl) != 0 ==> t == s
  {
    hide Graft, Val;
    ParentInRange(s, p, sl);
    if a != 0 && Val(s, p, sl) == 0 {
      GraftExtends(s, p, sl, a);
      GraftVal(s, p, sl, a, Place(p, sl));
      forall x | IsPlace(s, x) && x != Place(p, sl) ensures At(t, x) == At(s, x) {
        GraftVal(s, p, sl, a, x);
      }
      GraftZero(s, p, sl, a);
    }
  }

  lemma GraftTop(s: Fs, p: int, i: int, b: int)
    requires CanGraft(s, p, Top(i), b)
    ensures Graft(s, p, Top(i), b) ==
              Fs(s.meta, s.used[b := true], s.blk[b := ZeroBlock()], s.ino[p := Inode(s.ino[p].addrs[i := b], s.ino[p].size)])
  {
  }

  /** A free block is not metadata. */
  lemma FreeIsData(s: Fs, b: int)
    requires Tree(s) && 0 <= b < |s.used| && !s.used[b]
    ensures s.meta <= b < |s.blk|
  {
  }

  lemma GraftZero(s: Fs, p: int, sl: Slot, b: int)
    requires CanGraft(s, p, sl, b)
    ensures |Graft(s, p, sl, b).blk| == |s.blk| && Graft(s, p, sl, b).blk[b] == ZeroBlock()
  {
    hide Word, SetWord;
    if !sl.Top? {
      GraftIn(s, p, sl, b);
    }
  }

  /** The slots bmap passes on its way to the bn-th block. */
  function Path(bn: int): set<Slot>
    requires 0 <= bn < MAXFILE
  {
    if bn < NDIRECT then {Leaf(bn)}
    else if bn - NDIRECT < NINDIRECT then {Top(IND), Leaf(bn)}
    else {Top(DBL), Parent(Leaf(bn)), Leaf(bn)}
  }

  /** bmap from s to t: the bn-th block of file p is `addr`, found or allocated;
      0 only on a full disk.  A block that is there is found unchanged, and
      nothing off the path to it changes. */
  ghost predicate Mapped(s: Fs, t: Fs, p: int, bn: int, addr: int) {
    && Tree(s) && Tree(t) && IsFile(s, p) && 0 <= bn < MAXFILE && Extends(s, t, p)
    && Val(t, p, Leaf(bn)) == addr
    && (addr == 0 ==> Full(t))
    && (addr != 0 ==> 0 < addr < |t.blk| && (Val(s, p, Leaf(bn)) == 0 ==> t.blk[addr] == ZeroBlock()))
    && (Val(s, p, Leaf(bn)) != 0 ==> t == s)
    && (forall x | IsPlace(s, x) && !(x.p == p && x.sl in Path(bn)) :: At(t, x) == At(s, x))
  }

  /** What a bmap may log: bitmap blocks and the blocks on its path. */
  ghost predicate LogsPath(t: Fs, p: int, bn: int, r: LogRef)
    requires Shaped(t) && IsFile(t, p) && 0 <= bn < MAXFILE
  {
    || IsBitmap(r, |t.blk|)
    || exists sl :: sl in Path(bn) && IsSlot(sl) && Val(t, p, sl) != 0 && r == Blk(Val(t, p, sl))
  }

  lemma LogsOnPath(t: Fs, p: int, bn: int, sl: Slot, r: LogRef)
    requires Shaped(t) && IsFile(t, p) && 0 <= bn < MAXFILE && sl in Path(bn) && IsSlot(sl)
    requires Val(t, p, sl) != 0 && (IsBitmap(r, |t.blk|) || r == Blk(Val(t, p, sl)))
    ensures LogsPath(t, p, bn, r)
  {
  }

  lemma MappedDirect(s: Fs, t: Fs, p: int, bn: int, addr: int)
    requires 0 <= bn < NDIRECT && FilledTo(s, t, p, Top(bn), addr)
    ensures Mapped(s, t, p, bn, addr)
  {
    hide Val, At, Tree, Extends, CanGraft, Graft;
    FilledEffect(s, t, p, Top(bn), addr);
  }

  lemma MappedIndirect(s: Fs, t: Fs, u: Fs, p: int, bn: int, root: int, addr: int)
    requires NDIRECT <= bn < NDIRECT + NINDIRECT
    requires FilledTo(s, t, p, Top(IND), root) && root != 0 && FilledTo(t, u, p, Leaf(bn), addr)
    ensures Mapped(s, u, p, bn, addr) && Val(u, p, Top(IND)) == root
  {
    hide Marked, Once, Conserved, Extends, CanGraft, Graft, Word;
    FilledEffect(s, t, p, Top(IND), root);
    FilledEffect(t, u, p, Leaf(bn), addr);
    ExtendsTrans(s, t, u, p);
    assert At(u, Place(p, Top(IND))) == At(t, Place(p, Top(IND)));
    assert At(t, Place(p, Leaf(bn))) == At(s, Place(p, Leaf(bn)));
  }

  lemma MappedDouble(s: Fs, t: Fs, u: Fs, v: Fs, p: int, bn: int, root: int, mid: int, addr: int)
    requires NDIRECT + NINDIRECT <= bn < MAXFILE
    requires FilledTo(s, t, p, Top(DBL), root) && root != 0
    requires FilledTo(t, u, p, Parent(Leaf(bn)), mid) && mid != 0 && FilledTo(u, v, p, Leaf(bn), addr)
    ensures Mapped(s, v, p, bn, addr) && Val(v, p, Top(DBL)) == root && Val(v, p, Parent(Leaf(bn))) == mid
  {
    hide Marked, Once, Conserved, Extends, CanGraft, Graft, Word;
    FilledEffect(s, t, p, Top(DBL), root);
    FilledEffect(t, u, p, Parent(Leaf(bn)), mid);
    FilledEffect(u, v, p, Leaf(bn), addr);
    ExtendsTrans(s, t, u, p);
    ExtendsTrans(s, u, v, p);
    var a, b, c := Place(p, Top(DBL)), Place(p, Parent(Leaf(bn))), Place(p, Leaf(bn));
    assert At(v, a) == At(u, a) == At(t, a) && At(v, b) == At(u, b);
    assert At(u, c) == At(t, c) == At(s, c) && At(t, b) == At(s, b);
  }

  /** A full disk stops bmap before the leaf. */
  lemma MappedNot(s: Fs, t: Fs, p: int, bn: int)
    requires Tree(s) && Tree(t) && Full(t) && IsFile(s, p) && 0 <= bn < MAXFILE && Extends(s, t, p)
    requires !Leaf(bn).Top? && Val(t, p, Parent(Leaf(bn))) == 0
    requires forall x | IsPlace(s, x) && !(x.p == p && x.sl in Path(bn)) :: At(t, x) == At(s, x)
    ensures Mapped(s, t, p, bn, 0)
  {
    assert Kept(s, t, p, Place(p, Leaf(bn)));
  }

  predicate IsBitmap(r: LogRef, size: int) {
    r.BitmapBlk? && 0 <= r.i <= size / BPB
  }

  predicate Full(s: Fs) {
    forall b | 0 <= b < |s.used| :: s.used[b]
  }

  // ---- Truncation in order ----

  const AFTER_DIRECT := NDIRECT
  const AFTER_IND := 268     // NDIRECT + NINDIRECT + 1
  const AFTER_DBL := 66061   // AFTER_IND + NINDIRECT * (NINDIRECT + 1) + 1

  /** The order in which itrunc gives up slots. */
  function Rank(sl: Slot): int {
    match sl
    case Top(i) => if i < NDIRECT then i else if i == IND then AFTER_IND - 1 else AFTER_DBL - 1
    case IndLeaf(j) => NDIRECT + j
    case DblLeaf(i, j) => MidStart(i) + j
    case DblMid(i) => MidStart(i) + NINDIRECT
  }

  function MidStart(i: int): int {
    AFTER_IND + i * 257
  }

  lemma RankInjective(a: Slot, b: Slot)
    requires IsSlot(a) && IsSlot(b) && Rank(a) == Rank(b)
    ensures a == b
  {
  }

  /** Block `b` sits in a slot itrunc has passed. */
  ghost predicate Passed(s: Fs, p: int, r: int, b: int)
    requires Shaped(s) && IsFile(s, p)
  {
    exists sl :: IsSlot(sl) && Rank(sl) < r && Val(s, p, sl) == b
  }

  /** The free map once all slots below rank `r` are given up. */
  ghost predicate Freed(s: Fs, used: seq<bool>, p: int, r: int)
    requires Shaped(s) && IsFile(s, p)
  {
    && |used| == |s.used| && used[0] == s.used[0]
    && forall b | 0 < b < |used| :: (used[b] <==> s.used[b] && !Passed(s, p, r, b))
  }

  /** Giving up one more slot frees a block that was used, and only that one. */
  lemma FreedStep(s: Fs, used: seq<bool>, p: int, sl: Slot)
    requires Tree(s) && IsFile(s, p) && IsSlot(sl) && Freed(s, used, p, Rank(sl))
    ensures var b := Val(s, p, sl);
            if b == 0 then Freed(s, used, p, Rank(sl) + 1)
            else 0 < b < |used| && used[b] && Freed(s, used[b := false], p, Rank(sl) + 1)
  {
    hide Val, Rank;
    var b := Val(s, p, sl);
    ParentInRange(s, p, sl);
    forall o | IsSlot(o) && Rank(o) < Rank(sl) + 1 ensures o == sl || (Rank(o) < Rank(sl) && (b != 0 ==> Val(s, p, o) != b)) {
      if Rank(o) == Rank(sl) {
        RankInjective(o, sl);
      } else if b != 0 {
        assert At(s, Place(p, o)) == Val(s, p, o) && At(s, Place(p, sl)) == b;
      }
    }
    var next := if b == 0 then used else used[b := false];
    forall c | 0 < c < |used| ensures next[c] <==> s.used[c] && !Passed(s, p, Rank(sl) + 1, c) {
      PassedStep(s, p, sl, c);
    }
  }

  lemma PassedStep(s: Fs, p: int, sl: Slot, c: int)
    requires Shaped(s) && IsFile(s, p) && IsSlot(sl) && c != 0
    ensures Passed(s, p, Rank(sl) + 1, c) <==> Passed(s, p, Rank(sl), c) || Val(s, p, sl) == c
  {
    hide Val, Rank;
    if o :| IsSlot(o) && Rank(o) < Rank(sl) + 1 && Val(s, p, o) == c {
      if Rank(o) == Rank(sl) {
        RankInjective(o, sl);
      }
    }
  }

  /** Empty slots may be skipped. */
  lemma FreedSkip(s: Fs, used: seq<bool>, p: int, r: int, r': int)
    requires Shaped(s) && IsFile(s, p) && r <= r' && Freed(s, used, p, r)
    requires forall sl | IsSlot(sl) && r <= Rank(sl) < r' :: Val(s, p, sl) == 0
    ensures Freed(s, used, p, r')
  {
  }

  lemma FreedAll(s: Fs, used: seq<bool>, p: int)
    requires Shaped(s) && IsFile(s, p) && Freed(s, used, p, AFTER_DBL)
    ensures forall b | 0 < b < |used| :: used[b] <==> s.used[b] && !Owns(s, p, b)
  {
  }

  lemma ShapedTree(s: Fs)
    requires Tree(s)
    ensures Shaped(s)
  {
  }

  lemma NothingPassed(s: Fs, p: int)
    requires Shaped(s) && IsFile(s, p)
    ensures Freed(s, s.used, p, 0)
  {
  }

  lemma TopRank(i: int)
    requires 0 <= i < NDIRECT
    ensures Rank(Top(i)) == i
  {
  }

  lemma NoIndirect(s: Fs, p: int)
    requires Shaped(s) && IsFile(s, p) && s.ino[p].addrs[IND] == 0
    ensures forall sl | IsSlot(sl) && AFTER_DIRECT <= Rank(sl) < AFTER_IND :: Val(s, p, sl) == 0
  {
  }

  lemma RankInMid(sl: Slot, i: int)
    requires IsSlot(sl) && 0 <= i < NINDIRECT && MidStart(i) <= Rank(sl) < MidStart(i + 1)
    ensures (sl.DblMid? || sl.DblLeaf?) && sl.i == i
  {
  }

  lemma NoLeaves(s: Fs, p: int, i: int)
    requires Shaped(s) && IsFile(s, p) && 0 <= i < NINDIRECT && Val(s, p, DblMid(i)) == 0
    ensures forall sl | IsSlot(sl) && MidStart(i) <= Rank(sl) < MidStart(i + 1) :: Val(s, p, sl) == 0
  {
    hide Rank, MidStart, Word;
    forall sl | IsSlot(sl) && MidStart(i) <= Rank(sl) < MidStart(i + 1) ensures Val(s, p, sl) == 0 {
      RankInMid(sl, i);
    }
  }

  lemma NoDouble(s: Fs, p: int)
    requires Shaped(s) && IsFile(s, p) && s.ino[p].addrs[DBL] == 0
    ensures forall sl | IsSlot(sl) && AFTER_IND <= Rank(sl) < AFTER_DBL :: Val(s, p, sl) == 0
  {
    forall sl | IsSlot(sl) && AFTER_IND <= Rank(sl) < AFTER_DBL ensures Val(s, p, sl) == 0 {
      assert sl == Top(DBL) || sl.DblMid? || sl.DblLeaf?;
      if sl.DblLeaf? {
        assert Val(s, p, DblMid(sl.i)) == 0;
      }
    }
  }

  lemma FreedBoot(s: Fs, used: seq<bool>, p: int)
    requires Shaped(s) && IsFile(s, p) && Freed(s, used, p, AFTER_DBL)
    ensures |used| == |s.used| && used[0] == s.used[0]
  {
  }

  lemma PathThere(s: Fs, p: int, bn: int)
    requires Shaped(s) && IsFile(s, p) && 0 <= bn < MAXFILE
    ensures Val(s, p, Leaf(bn)) != 0 ==> forall sl | sl in Path(bn) :: IsSlot(sl) && Val(s, p, sl) != 0
  {
    hide Word;
    if Val(s, p, Leaf(bn)) != 0 && !Leaf(bn).Top? {
      assert Val(s, p, Parent(Leaf(bn))) != 0;
      if Leaf(bn).DblLeaf? {
        assert Val(s, p, Top(DBL)) != 0;
      }
    }
  }

  lemma NoMid(s: Fs, t: Fs, p: int, bn: int)
    requires Shaped(t) && IsFile(t, p) && NDIRECT + NINDIRECT <= bn < MAXFILE && Val(t, p, Top(DBL)) == 0
    ensures Val(t, p, Parent(Leaf(bn))) == 0
  {
  }

  // ---- What a change has logged ----

  /** What has changed in the free map is in bitmap blocks that are logged. */
  ghost predicate BitsLogged(was: seq<bool>, now: seq<bool>, logged: set<LogRef>) {
    |now| == |was| && forall b | 0 <= b < |was| :: now[b] == was[b] || BitmapBlk(b / BPB) in logged
  }

  /** Whatever differs between s and t, but for inode p, has been logged. */
  ghost predicate Covers(s: Fs, t: Fs, logged: set<LogRef>, p: int) {
    && t.meta == s.meta && |t.blk| == |s.blk| && |t.used| == |s.used| && |t.ino| == |s.ino|
    && (forall b | 0 <= b < |s.blk| :: t.blk[b] == s.blk[b] || Blk(b) in logged)
    && (forall b | 0 <= b < |s.used| :: t.used[b] == s.used[b] || BitmapBlk(b / BPB) in logged)
    && (forall q | 0 <= q < |s.ino| && q != p :: t.ino[q] == s.ino[q])
  }

  lemma CoversNone(s: Fs, logged: set<LogRef>, p: int)
    ensures Covers(s, s, logged, p)
  {
  }

  lemma CoversTrans(s: Fs, t: Fs, u: Fs, some: set<LogRef>, all: set<LogRef>, p: int)
    requires Covers(s, t, some, p) && Covers(t, u, all, p) && some <= all
    ensures Covers(s, u, all, p)
  {
    forall b | 0 <= b < |s.blk| ensures u.blk[b] == s.blk[b] || Blk(b) in all {
      assert t.blk[b] == s.blk[b] || Blk(b) in some;
    }
    forall b | 0 <= b < |s.used| ensures u.used[b] == s.used[b] || BitmapBlk(b / BPB) in all {
      assert t.used[b] == s.used[b] || BitmapBlk(b / BPB) in some;
    }
  }

  lemma CoversAllot(s: Fs, b: int, logged: set<LogRef>, p: int)
    requires 0 <= b < |s.used| == |s.blk| && Blk(b) in logged && BitmapBlk(b / BPB) in logged
    ensures Covers(s, Allot(s, b), logged, p)
  {
  }

  lemma CoversInode(s: Fs, t: Fs, u: Fs, logged: set<LogRef>, p: int)
    requires Covers(s, t, logged, p) && 0 <= p < |t.ino| == |u.ino| && u == t.(ino := t.ino[p := u.ino[p]])
    ensures Covers(s, u, logged, p)
  {
  }

  lemma CoversMore(s: Fs, t: Fs, some: set<LogRef>, all: set<LogRef>, p: int)
    requires Covers(s, t, some, p) && some <= all
    ensures Covers(s, t, all, p)
  {
  }

  lemma CoversBlock(s: Fs, t: Fs, u: Fs, logged: set<LogRef>, all: set<LogRef>, p: int, b: int)
    requires Covers(s, t, logged, p) && logged <= all && Blk(b) in all && 0 <= b < |t.blk| == |u.blk| && u == t.(blk := t.blk[b := u.blk[b]])
    ensures Covers(s, u, all, p)
  {
  }
}
