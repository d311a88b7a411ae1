/** log_write tests for a full log before it looks for an absorbable entry
    (kernel/log.c:221-229), so a write within its operation's budget can still
    panic.  A concrete run shows it; LogMachine.RefusedExactly says when it
    happens. */
module LogFull {
  import opened Params
  import opened Blocks
  import opened LogMachine
  import Log

  const SMALL := Geometry(LOGBLOCKS, 2 * LOGBLOCKS + 1)

  function Blank(): Disk {
    seq(SMALL.size, _ => ZeroBlock())
  }

  function Spend(k: nat): set<(OpId, int)> {
    set i: nat | i < k :: (i / MAXOPBLOCKS, i)
  }

  lemma {:induction false} IntervalSize(c: set<(OpId, int)>, op: OpId, lo: int, hi: int)
    requires lo <= hi && forall p | p in c :: p.0 == op && lo <= p.1 < hi
    ensures |c| <= hi - lo
    decreases hi - lo
  {
    if lo == hi {
      assert c == {};
    } else {
      IntervalSize(c - {(op, hi - 1)}, op, lo, hi - 1);
      assert c <= (c - {(op, hi - 1)}) + {(op, hi - 1)};
    }
  }

  /** Three operations logging blocks 0, 1, 2, ... in turn, ten each. */
  lemma {:induction false} FillLog(k: nat) returns (r: Run)
    requires k <= LOGBLOCKS
    ensures |r.states| > 0 && ValidRun(SMALL, Blank(), r)
    ensures r.Last().phase == Running && r.Last().ops == {0, 1, 2} == r.Last().issued.Keys
    ensures r.Last().lh == seq(k, i => i) && r.Last().charges == Spend(k)
  {
    hide ValidRun, Spend;
    if k == 0 {
      r := ThreeBegun();
    } else {
      var p := FillLog(k - 1);
      r := Extend(p, k - 1);
    }
  }

  lemma ThreeBegun() returns (r: Run)
    ensures |r.states| > 0 && ValidRun(SMALL, Blank(), r)
    ensures r.Last().phase == Running && r.Last().ops == {0, 1, 2} == r.Last().issued.Keys
    ensures r.Last().lh == seq(0, i => i) && r.Last().charges == Spend(0)
  {
    hide Init;
    var s := State(Blank(), Blank(), [], false, {}, {}, Running, [], 0, map[], {}, {});
    var s1 := Do(SMALL, s, Begin(0));
    var s2 := Do(SMALL, s1, Begin(1));
    var s3 := Do(SMALL, s2, Begin(2));
    r := Run([s, s1, s2, s3], [Begin(0), Begin(1), Begin(2)]);
    BlankInit(s);
    assert StepOf(SMALL, s, Begin(0), s1) && StepOf(SMALL, s1, Begin(1), s2) && StepOf(SMALL, s2, Begin(2), s3);
  }

  lemma BlankInit(s: State)
    requires s == State(Blank(), Blank(), [], false, {}, {}, Running, [], 0, map[], {}, {})
    ensures Init(SMALL, Blank(), s)
  {
  }

  lemma CanLog(s: State, k: nat)
    requires k < LOGBLOCKS && s.phase == Running && s.ops == {0, 1, 2} == s.issued.Keys
    requires |s.disk| == |s.view| == SMALL.size
    requires s.lh == seq(k, i => i) && s.charges == Spend(k)
    ensures Enabled(SMALL, s, LogWrite(k / MAXOPBLOCKS, k, ZeroBlock()))
    ensures var t := Do(SMALL, s, LogWrite(k / MAXOPBLOCKS, k, ZeroBlock()));
            && t.phase == Running && t.ops == s.ops && t.issued.Keys == s.issued.Keys
            && t.lh == seq(k + 1, i => i) && t.charges == Spend(k + 1)
  {
    var op := k / MAXOPBLOCKS;
    assert Spend(k + 1) == Spend(k) + {(op, k)};
    IntervalSize(Charged(Spend(k + 1), op), op, op * MAXOPBLOCKS, op * MAXOPBLOCKS + MAXOPBLOCKS);
  }

  lemma Extend(p: Run, k: nat) returns (r: Run)
    requires k < LOGBLOCKS && |p.states| > 0 && ValidRun(SMALL, Blank(), p)
    requires p.Last().phase == Running && p.Last().ops == {0, 1, 2} == p.Last().issued.Keys
    requires p.Last().lh == seq(k, i => i) && p.Last().charges == Spend(k)
    ensures |r.states| > 0 && ValidRun(SMALL, Blank(), r)
    ensures r.Last().phase == Running && r.Last().ops == {0, 1, 2} == r.Last().issued.Keys
    ensures r.Last().lh == seq(k + 1, i => i) && r.Last().charges == Spend(k + 1)
  {
    hide Do, Enabled, Inv, Spend;
    var a := LogWrite(k / MAXOPBLOCKS, k, ZeroBlock());
    Log.Ready(SMALL, Blank(), p);
    CanLog(p.Last(), k);
    r := Run(p.states + [Do(SMALL, p.Last(), a)], p.actions + [a]);
  }

  /** A reachable state in which repeating a block its operation has already
      logged is within budget, yet is refused because the log is full. */
  lemma RepeatOnFullLogPanics() returns (r: Run, op: OpId, b: nat)
    ensures ValidRun(SMALL, Blank(), r) && op in r.Last().ops && b in r.Last().lh
    ensures |Charged(r.Last().charges + {(op, b)}, op)| <= MAXOPBLOCKS
    ensures forall v: Block :: !Enabled(SMALL, r.Last(), LogWrite(op, b, v))
  {
    r := FillLog(LOGBLOCKS);
    op, b := 2, 20;
    var s := r.Last();
    assert s.lh[20] == 20;
    assert (2, 20) in Spend(LOGBLOCKS) by {
      assert 20 / MAXOPBLOCKS == 2;
    }
    assert s.charges + {(op, b)} == s.charges;
    IntervalSize(Charged(s.charges, op), op, 20, 30);
  }
}
