/** A crash anywhere in filewrite, kernel/file.c:149-172 over kernel/log.c: each chunk is
    one operation of the log machine, and what recovery brings back is the file with a
    whole number of chunks written. */
module FsCrash {
  import opened Params
  import opened Lists
  import opened Blocks
  import opened L = LogMachine
  import F = FsTree
  import FsMap
  import W = FsWrite
  import I = FsImage

  // ---- Operations one after the other ----

  /** The operations that have ended in the first i steps. */
  function Ended(acts: seq<Action>, i: nat): nat
    requires i <= |acts|
  {
    if i == 0 then 0 else Ended(acts, i - 1) + (if acts[i - 1].End? then 1 else 0)
  }

  function Crashed(acts: seq<Action>, i: nat): bool
    requires i <= |acts|
  {
    i > 0 && (acts[i - 1] == Crash || Crashed(acts, i - 1))
  }

  /** Step i of a run in which one process makes operations one at a time, the k-th of
      which logs the blocks of sites[k] and leaves in each what imgs[k + 1] has.  Commits
      and crashes may come at any time; after a crash the process is gone. */
  predicate Obeys(g: Geometry, r: Run, imgs: seq<Disk>, sites: seq<set<int>>, i: nat)
    requires i < |r.actions| < |r.states| && |imgs| == |sites| + 1
  {
    var k := Ended(r.actions, i);
    match r.actions[i]
    case Begin(_) => !Crashed(r.actions, i) && r.states[i].ops == {} && k < |sites|
    case LogWrite(_, b, _) => k < |sites| && b in sites[k]
    case End(_) => k < |sites| && forall b | b in sites[k] && g.Home(b) :: LeftIn(r.states[i].view, imgs[k + 1], b)
    case _ => true
  }

  predicate LeftIn(view: Disk, img: Disk, b: int) {
    0 <= b < |view| && b < |img| && view[b] == img[b]
  }

  /** Each image differs from the one before only at the blocks of its operation. */
  ghost predicate Steps(g: Geometry, imgs: seq<Disk>, sites: seq<set<int>>) {
    && |imgs| == |sites| + 1 && (forall k | 0 <= k < |imgs| :: |imgs[k]| == g.size)
    && forall k, b | 0 <= k < |sites| && g.Home(b) && b !in sites[k] :: LeftIn(imgs[k], imgs[k + 1], b)
  }

  ghost predicate InTurn(g: Geometry, base: Disk, r: Run, imgs: seq<Disk>, sites: seq<set<int>>) {
    && ValidRun(g, base, r) && Steps(g, imgs, sites) && SameHomes(g, base, imgs[0])
    && forall i | 0 <= i < |r.actions| :: Obeys(g, r, imgs, sites, i)
  }

  // ---- What is logged and what is recovered ----

  /** Between operations the logged history is an image; within one it differs at the
      blocks of the operation only. */
  ghost predicate Upto(g: Geometry, base: Disk, s: State, imgs: seq<Disk>, sites: seq<set<int>>, k: nat)
    requires |imgs| == |sites| + 1
  {
    && k <= |sites| && |base| == g.size && (forall x, y | x in s.ops && y in s.ops :: x == y)
    && (if s.ops == {} then SameHomes(g, Replay(base, s.kept), imgs[k])
        else && k < |sites| && (forall b | g.Home(b) && b !in sites[k] :: LeftIn(imgs[k], Replay(base, s.kept), b))
             && (forall b | b in s.lh :: b in sites[k]) && (forall c | c in s.charges :: c.1 in sites[k]))
  }

  /** After a crash no operation is in progress and no commit. */
  predicate Over(s: State) {
    s.ops == {} && (s.phase == Running || s.phase == Rebooting || (s.phase.Installing? && s.phase.recovering))
  }

  ghost predicate Fine(g: Geometry, base: Disk, r: Run, imgs: seq<Disk>, sites: seq<set<int>>, i: nat)
    requires i <= |r.actions| < |r.states| && |imgs| == |sites| + 1
  {
    if Crashed(r.actions, i) then Over(r.states[i]) else Upto(g, base, r.states[i], imgs, sites, Ended(r.actions, i))
  }

  lemma StepUpto(g: Geometry, base: Disk, r: Run, imgs: seq<Disk>, sites: seq<set<int>>, i: nat)
    requires InTurn(g, base, r, imgs, sites) && i < |r.actions| && Inv(g, base, r.states[i]) && r.actions[i] != Crash
    requires Upto(g, base, r.states[i], imgs, sites, Ended(r.actions, i)) && !Crashed(r.actions, i)
    ensures Upto(g, base, r.states[i + 1], imgs, sites, Ended(r.actions, i + 1))
  {
    hide Inv, Do, Enabled, Replay, InTurn;
    Facts(g, base, r, imgs, sites, i);
    var s, a, k := r.states[i], r.actions[i], Ended(r.actions, i);
    match a
    case Begin(_) => BeginKept(g, base, s, a);
    case LogWrite(op, b, v) => WriteUpto(g, base, s, a, imgs, sites, k);
    case End(_) => EndUpto(g, base, r, imgs, sites, i);
    case _ => QuietKept(g, base, s, a);
  }

  lemma Facts(g: Geometry, base: Disk, r: Run, imgs: seq<Disk>, sites: seq<set<int>>, i: nat)
    requires InTurn(g, base, r, imgs, sites) && i < |r.actions|
    ensures |r.states| == |r.actions| + 1 && |imgs| == |sites| + 1
    ensures StepOf(g, r.states[i], r.actions[i], r.states[i + 1]) && Obeys(g, r, imgs, sites, i) && Steps(g, imgs, sites)
  {
  }

  /** The log is empty when an operation begins with none in progress. */
  lemma BeginKept(g: Geometry, base: Disk, s: State, a: Action)
    requires Inv(g, base, s) && Enabled(g, s, a) && a.Begin? && s.ops == {}
    ensures var t := Do(g, s, a); t.kept == s.kept && t.ops == {a.op} && t.lh == [] && t.charges == {}
  {
  }

  lemma QuietKept(g: Geometry, base: Disk, s: State, a: Action)
    requires Inv(g, base, s) && Enabled(g, s, a) && !a.Begin? && !a.LogWrite? && !a.End? && a != Crash
    ensures Do(g, s, a).kept == s.kept && Do(g, s, a).ops == s.ops == {}
  {
  }

  lemma WriteUpto(g: Geometry, base: Disk, s: State, a: Action, imgs: seq<Disk>, sites: seq<set<int>>, k: nat)
    requires Enabled(g, s, a) && a.LogWrite? && |imgs| == |sites| + 1 && Upto(g, base, s, imgs, sites, k)
    requires k < |sites| && a.block in sites[k]
    ensures Upto(g, base, Do(g, s, a), imgs, sites, k)
  {
    hide Replay;
    ReplaySnoc(base, s.kept, Event(a.op, a.block, a.data));
    assert s.ops != {};
  }

  lemma EndUpto(g: Geometry, base: Disk, r: Run, imgs: seq<Disk>, sites: seq<set<int>>, i: nat)
    requires InTurn(g, base, r, imgs, sites) && i < |r.actions| && Inv(g, base, r.states[i]) && r.actions[i].End?
    requires Upto(g, base, r.states[i], imgs, sites, Ended(r.actions, i))
    ensures Upto(g, base, r.states[i + 1], imgs, sites, Ended(r.actions, i + 1))
  {
    hide Inv, InTurn, Replay;
    Facts(g, base, r, imgs, sites, i);
    var s, a, k := r.states[i], r.actions[i], Ended(r.actions, i);
    ViewIsReplay(g, base, s);
    assert s.ops - {a.op} == {};
    forall b | g.Home(b) ensures Replay(base, s.kept)[b] == imgs[k + 1][b] {
      if b in sites[k] {
        assert LeftIn(s.view, imgs[k + 1], b);
      } else {
        assert LeftIn(imgs[k], Replay(base, s.kept), b) && LeftIn(imgs[k], imgs[k + 1], b);
      }
    }
  }

  lemma ViewIsReplay(g: Geometry, base: Disk, s: State)
    requires Inv(g, base, s) && s.ops != {}
    ensures SameHomes(g, s.view, Replay(base, s.kept))
  {
  }

  lemma StepOver(g: Geometry, s: State, a: Action)
    requires Enabled(g, s, a) && (a == Crash || (Over(s) && !a.Begin?))
    ensures Over(Do(g, s, a)) && (Over(s) ==> a != WriteHeader)
  {
  }

  lemma {:induction false} RunFine(g: Geometry, base: Disk, r: Run, imgs: seq<Disk>, sites: seq<set<int>>, i: nat)
    requires InTurn(g, base, r, imgs, sites) && i <= |r.actions|
    ensures |r.states| == |r.actions| + 1 && |imgs| == |sites| + 1 && Inv(g, base, r.states[i]) && Fine(g, base, r, imgs, sites, i)
  {
    hide Inv, Do, Enabled, Replay, Upto, Over, Obeys, Steps;
    RunInv(g, base, r, i);
    if i == 0 {
      StartUpto(g, base, r, imgs, sites);
    } else {
      RunFine(g, base, r, imgs, sites, i - 1);
      Facts(g, base, r, imgs, sites, i - 1);
      if Crashed(r.actions, i) {
        GoneProcess(g, base, r, imgs, sites, i - 1);
        StepOver(g, r.states[i - 1], r.actions[i - 1]);
      } else {
        StepUpto(g, base, r, imgs, sites, i - 1);
      }
    }
  }

  /** A process that is gone begins nothing. */
  lemma GoneProcess(g: Geometry, base: Disk, r: Run, imgs: seq<Disk>, sites: seq<set<int>>, i: nat)
    requires InTurn(g, base, r, imgs, sites) && i < |r.actions| && Crashed(r.actions, i + 1)
    ensures r.actions[i] == Crash || (Crashed(r.actions, i) && !r.actions[i].Begin?)
  {
    Facts(g, base, r, imgs, sites, i);
  }

  lemma StartUpto(g: Geometry, base: Disk, r: Run, imgs: seq<Disk>, sites: seq<set<int>>)
    requires InTurn(g, base, r, imgs, sites)
    ensures |r.states| == |r.actions| + 1 && |imgs| == |sites| + 1 && Fine(g, base, r, imgs, sites, 0)
  {
    hide Obeys;
  }

  /** Wherever a crash strikes, recovery brings back the image left by a whole number of
      operations: all that had ended at the last header write, and nothing of a later
      one. */
  lemma {:induction false} RecoversWhole(g: Geometry, base: Disk, r: Run, imgs: seq<Disk>, sites: seq<set<int>>, n: nat) returns (c: nat)
    requires InTurn(g, base, r, imgs, sites) && n <= |r.actions|
    ensures |r.states| == |r.actions| + 1 && |imgs| == |sites| + 1 && Inv(g, base, r.states[n])
    ensures c <= |sites| && c <= Ended(r.actions, n) && SameHomes(g, Recover(g, r.states[n].disk), imgs[c])
    ensures forall j | 0 <= j < n && r.actions[j] == WriteHeader :: Ended(r.actions, j) <= c
  {
    hide Inv, Do, Enabled, Recover, Obeys, Steps, Upto, Over, Replay;
    RunFine(g, base, r, imgs, sites, n);
    if n == 0 {
      c := 0;
      StartRecovers(g, base, r, imgs, sites);
    } else {
      RunFine(g, base, r, imgs, sites, n - 1);
      Facts(g, base, r, imgs, sites, n - 1);
      RecoveredChangesOnlyAtHeader(g, base, r.states[n - 1], r.actions[n - 1]);
      c := RecoversWhole(g, base, r, imgs, sites, n - 1);
      if r.actions[n - 1] == WriteHeader {
        c := Ended(r.actions, n - 1);
        HeaderHasAll(g, base, r, imgs, sites, n - 1);
        EndedGrows(r.actions, n - 1);
      }
    }
  }

  lemma {:induction false} EndedGrows(acts: seq<Action>, n: nat)
    requires n <= |acts|
    ensures forall j | 0 <= j <= n :: Ended(acts, j) <= Ended(acts, n)
  {
    if n > 0 {
      EndedGrows(acts, n - 1);
    }
  }

  /** A header is written between operations, by a process that is still there. */
  lemma HeaderHasAll(g: Geometry, base: Disk, r: Run, imgs: seq<Disk>, sites: seq<set<int>>, i: nat)
    requires InTurn(g, base, r, imgs, sites) && i < |r.actions| && r.actions[i] == WriteHeader
    requires |r.states| == |r.actions| + 1 && |imgs| == |sites| + 1 && Inv(g, base, r.states[i]) && Fine(g, base, r, imgs, sites, i)
    ensures Ended(r.actions, i) <= |sites| && SameHomes(g, r.states[i].view, imgs[Ended(r.actions, i)])
  {
    hide Inv, Replay, Obeys, Steps, InTurn;
    Facts(g, base, r, imgs, sites, i);
    RecoveredMeaning(g, base, r.states[i]);
  }

  lemma StartRecovers(g: Geometry, base: Disk, r: Run, imgs: seq<Disk>, sites: seq<set<int>>)
    requires InTurn(g, base, r, imgs, sites)
    ensures |r.states| == |r.actions| + 1 && |imgs| == |sites| + 1
    ensures Inv(g, base, r.states[0]) && SameHomes(g, Recover(g, r.states[0].disk), imgs[0])
  {
    hide Obeys, Recover, Inv;
    InvInit(g, base, r.states[0]);
    RecoveredMeaning(g, base, r.states[0]);
    assert r.states[0].kept[..r.states[0].durable] == [];
  }

  /** An operation of at most MAXOPBLOCKS blocks is never refused a block. */
  lemma NeverRefused(g: Geometry, base: Disk, r: Run, imgs: seq<Disk>, sites: seq<set<int>>, i: nat, op: OpId, b: nat, v: Block)
    requires InTurn(g, base, r, imgs, sites) && i <= |r.actions| && |r.states| == |r.actions| + 1
    requires op in r.states[i].ops && g.Home(b)
    requires Ended(r.actions, i) < |sites| ==> b in sites[Ended(r.actions, i)] && |sites[Ended(r.actions, i)]| <= MAXOPBLOCKS
    ensures Enabled(g, r.states[i], LogWrite(op, b, v))
  {
    hide InTurn, Inv, Replay, Do;
    RunFine(g, base, r, imgs, sites, i);
    var s := r.states[i];
    assert !Crashed(r.actions, i);
    var all := sites[Ended(r.actions, i)];
    Allowed(g, base, s, op);
    Listed(s.lh, all);
    Pairs(Charged(s.charges + {(op, b)}, op), op, all);
  }

  lemma Allowed(g: Geometry, base: Disk, s: State, op: OpId)
    requires Inv(g, base, s) && op in s.ops
    ensures g.Valid() && |s.disk| == |s.view| == g.size && s.phase == Running && op in s.issued && DistinctHomes(g, s.lh)
    ensures forall j | 0 <= j < |s.lh| :: g.Home(s.lh[j])
  {
  }

  /** Different blocks of a set are no more than it has. */
  lemma Listed(lh: seq<int>, all: set<int>)
    requires (forall j, k | 0 <= j < k < |lh| :: lh[j] != lh[k]) && forall b | b in lh :: b in all
    ensures |lh| <= |all|
  {
    ElemsSize(lh);
    SubsetSize(Elems(lh), all);
  }

  lemma {:induction false} Pairs(c: set<(OpId, int)>, op: OpId, all: set<int>)
    requires forall x | x in c :: x.0 == op && x.1 in all
    ensures |c| <= |all|
    decreases c
  {
    if c != {} {
      var x :| x in c;
      Pairs(c - {x}, op, all - {x.1});
    }
  }

  // ---- The chunks of filewrite ----

  function Images(l: I.Layout, states: seq<F.Fs>): (imgs: seq<Disk>)
    ensures |imgs| == |states|
  {
    seq(|states|, k requires 0 <= k < |states| => I.Image(l, states[k]))
  }

  function AllSites(l: I.Layout, ops: seq<set<FsMap.LogRef>>): (sites: seq<set<int>>)
    ensures |sites| == |ops|
  {
    seq(|ops|, k requires 0 <= k < |ops| => I.Sites(l, ops[k]))
  }

  lemma {:induction false} SameSize(states: seq<F.Fs>, ops: seq<set<FsMap.LogRef>>, p: int, src: seq<F.Byte>, off: int, done: int, k: nat)
    requires W.Chunked(states, ops, p, src, off, done) && k <= |ops|
    ensures |states[k].blk| == |states[0].blk| && states[k].meta == states[0].meta && |states[k].ino| == |states[0].ino|
  {
    hide W.Resumes;
    if k > 0 {
      SameSize(states, ops, p, src, off, done, k - 1);
      assert W.Transaction(states[k - 1], states[k], ops[k - 1], p);
    }
  }

  lemma ChunksStep(g: Geometry, l: I.Layout, states: seq<F.Fs>, ops: seq<set<FsMap.LogRef>>, p: int, src: seq<F.Byte>, off: int, done: int)
    requires W.Chunked(states, ops, p, src, off, done) && |states[0].blk| == g.size
    ensures Steps(g, Images(l, states), AllSites(l, ops))
  {
    hide I.ImageAt, W.Resumes, W.Transaction, I.Sites;
    var imgs, sites := Images(l, states), AllSites(l, ops);
    forall k | 0 <= k < |imgs| ensures |imgs[k]| == g.size {
      SameSize(states, ops, p, src, off, done, k);
    }
    forall k, b | 0 <= k < |sites| && g.Home(b) && b !in sites[k] ensures LeftIn(imgs[k], imgs[k + 1], b) {
      SameSize(states, ops, p, src, off, done, k);
      assert W.Transaction(states[k], states[k + 1], ops[k], p);
      I.ImageCovered(l, states[k], states[k + 1], ops[k], p, b);
    }
  }

  lemma {:induction false} SitesSize(l: I.Layout, logged: set<FsMap.LogRef>)
    ensures |I.Sites(l, logged)| <= |logged|
    decreases logged
  {
    if logged != {} {
      var x :| x in logged;
      SitesSize(l, logged - {x});
      assert I.Sites(l, logged) == I.Sites(l, logged - {x}) + {I.Site(l, x)};
    }
  }

  /** The log area. */
  function LogArea(g: Geometry): set<int> {
    Range(g.start, LOGBLOCKS + 1)
  }

  function Range(a: int, n: nat): (r: set<int>)
    ensures forall b :: b in r <==> a <= b < a + n
    decreases n
  {
    if n == 0 then {} else Range(a, n - 1) + {a + n - 1}
  }

  /** A crash anywhere in filewrite.  Given the transactions `ops` it has made and the file
      systems between them, recovery of the disk at any state of any run of the log that
      makes them one after the other brings back the file system after a whole number c
      of chunks, no fewer than had ended at the last header write.  In it the file is
      the old one overwritten by the first c chunks, or by all bytes that filewrite has
      written, and every other file is as it was. */
  lemma FileWriteCrash(g: Geometry, base: Disk, l: I.Layout, states: seq<F.Fs>, ops: seq<set<FsMap.LogRef>>,
                       p: int, src: seq<F.Byte>, off: int, done: int, r: Run, n: nat) returns (c: nat)
    requires W.Chunked(states, ops, p, src, off, done) && |states[0].blk| == g.size
    requires ValidRun(g, base, r) && SameHomes(g, base, I.Image(l, states[0])) && n <= |r.actions|
    requires forall i | 0 <= i < |r.actions| :: Obeys(g, r, Images(l, states), AllSites(l, ops), i)
    ensures Inv(g, base, r.states[n]) && c <= |ops| && c <= Ended(r.actions, n)
    ensures SameHomes(g, Recover(g, r.states[n].disk), I.Image(l, states[c]))
    ensures forall j | 0 <= j < n && r.actions[j] == WriteHeader :: Ended(r.actions, j) <= c
    ensures W.Resumes(states[0], states[c], p, src, off, if c < |ops| then c * 3072 else done)
  {
    hide I.Image, Obeys, Inv, Recover, Init, StepOf, W.Resumes, W.Transaction;
    ChunksStep(g, l, states, ops, p, src, off, done);
    c := RecoversWhole(g, base, r, Images(l, states), AllSites(l, ops), n);
  }

  /** On a disk with one bitmap block, where no transaction of filewrite logs more than
      nine blocks, none of its log_writes panics. */
  lemma FileWriteFits(g: Geometry, base: Disk, l: I.Layout, states: seq<F.Fs>, ops: seq<set<FsMap.LogRef>>,
                      p: int, src: seq<F.Byte>, off: int, done: int, r: Run, i: nat, op: OpId, ref: FsMap.LogRef, v: Block)
    requires W.Chunked(states, ops, p, src, off, done) && |states[0].blk| == g.size && (forall k | 0 <= k < |ops| :: |ops[k]| <= 9)
    requires ValidRun(g, base, r) && SameHomes(g, base, I.Image(l, states[0])) && i <= |r.actions|
    requires forall i | 0 <= i < |r.actions| :: Obeys(g, r, Images(l, states), AllSites(l, ops), i)
    requires op in r.states[i].ops && I.Site(l, ref) >= 0 && g.Home(I.Site(l, ref))
    requires Ended(r.actions, i) < |ops| ==> ref in ops[Ended(r.actions, i)]
    ensures Enabled(g, r.states[i], LogWrite(op, I.Site(l, ref), v))
  {
    hide I.Image, Obeys, Inv, Enabled, Init, StepOf, W.Resumes, W.Transaction, I.Site;
    ChunksStep(g, l, states, ops, p, src, off, done);
    var k := Ended(r.actions, i);
    if k < |ops| {
      SitesSize(l, ops[k]);
    }
    NeverRefused(g, base, r, Images(l, states), AllSites(l, ops), i, op, I.Site(l, ref), v);
  }

  /** The disk recovery leaves says what the files are: any file system in order that has
      it has the files of that moment. */
  lemma RecoveredFile(g: Geometry, l: I.Layout, s: F.Fs, t: F.Fs, disk: Disk, p: int)
    requires F.Valid(s) && F.Valid(t) && t.meta == s.meta && |t.blk| == |s.blk| == g.size && |t.ino| == |s.ino|
    requires I.Fitted(l, s, LogArea(g)) && F.IsFile(s, p)
    requires SameHomes(g, disk, I.Image(l, s)) && SameHomes(g, disk, I.Image(l, t))
    ensures F.Contents(t, p) == F.Contents(s, p)
  {
    hide I.ImageAt, F.Valid;
    forall b | 0 <= b < |s.blk| && b !in LogArea(g) ensures I.ImageAt(l, s, b) == I.ImageAt(l, t, b) {
      assert g.Home(b);
      assert disk[b] == I.Image(l, s)[b] == I.Image(l, t)[b];
    }
    I.DiskTellsFiles(l, s, t, LogArea(g), p);
  }
}
