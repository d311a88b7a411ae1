/** The loops of kernel/virtio_disk.c as code: allocating and freeing
    descriptors, and the interrupt handler. */
module VirtioTable {
  import opened Virtio

  predicate FreeAt(free: seq<bool>, i: int) {
    0 <= i < |free| && free[i]
  }

  class Driver {
    const free: array<bool>
    const desc: array<Desc>
    const info: array<int>
    const status: array<int>
    var usedIdx: int
    var busy: set<int>  // buffers with b->disk == 1

    ghost predicate Valid()
      reads this
    {
      free.Length == desc.Length == info.Length == status.Length == NUM
    }

    /** alloc_desc: the lowest free descriptor, or -1. */
    method AllocDesc() returns (i: int)
      requires Valid()
      modifies free
      ensures i == -1 ==> free[..] == old(free[..]) && forall k | 0 <= k < NUM :: !free[k]
      ensures i != -1 ==> FreeAt(old(free[..]), i) && free[..] == old(free[..])[i := false] && forall k | 0 <= k < i :: !old(free[k])
    {
      for k := 0 to NUM
        invariant free[..] == old(free[..]) && forall j | 0 <= j < k :: !free[j]
      {
        if free[k] {
          free[k] := false;
          return k;
        }
      }
      return -1;
    }

    /** free_desc, for a descriptor that is in use. */
    method FreeDesc(i: int)
      requires Valid() && IsDesc(i) && !free[i]
      modifies free, desc
      ensures free[..] == old(free[..])[i := true] && desc[..] == old(desc[..])[i := Desc(0, false, 0)]
    {
      desc[i] := desc[i].(addr := 0);
      desc[i] := desc[i].(hasNext := false);
      desc[i] := desc[i].(next := 0);
      free[i] := true;
    }

    /** free_chain of a request: exactly its three descriptors become free, so the
        loop ends, and the result is that of Virtio.Reclaim. */
    method FreeChain(h: int, ghost s: State)
      requires Valid() && Sized(s) && h in s.chains && ChainOK(s, h) && s.free == free[..] && s.desc == desc[..]
      modifies free, desc
      ensures free[..] == s.free[h := true][s.chains[h].mid := true][s.chains[h].tail := true]
      ensures desc[..] == s.desc[h := Desc(0, false, 0)][s.chains[h].mid := Desc(0, false, 0)][s.chains[h].tail := Desc(0, false, 0)]
    {
      ghost var c := s.chains[h];
      var i := h;
      ghost var step := 0;
      while true
        invariant 0 <= step <= 2 && i == (if step == 0 then h else if step == 1 then c.mid else c.tail)
        invariant step == 0 ==> free[..] == s.free && desc[..] == s.desc
        invariant step == 1 ==> free[..] == s.free[h := true] && desc[..] == s.desc[h := BLANK]
        invariant step == 2 ==> free[..] == s.free[h := true][c.mid := true] && desc[..] == s.desc[h := BLANK][c.mid := BLANK]
        decreases 2 - step
      {
        var flag, nxt := desc[..][i].hasNext, desc[..][i].next;
        assert !free[..][i];
        FreeDesc(i);
        if flag {
          i, step := nxt, step + 1;
        } else {
          break;
        }
      }
    }

    /** alloc3_desc: three different descriptors, or none and everything free as before. */
    method Alloc3() returns (ok: bool, idx: seq<int>)
      requires Valid()
      modifies free, desc
      ensures ok ==>
                && |idx| == 3 && idx[0] != idx[1] && idx[1] != idx[2] && idx[0] != idx[2]
                && (forall j | 0 <= j < 3 :: FreeAt(old(free[..]), idx[j]))
                && free[..] == old(free[..])[idx[0] := false][idx[1] := false][idx[2] := false] && desc[..] == old(desc[..])
      ensures !ok ==> free[..] == old(free[..]) && forall k | 0 <= k < NUM && !free[k] :: desc[k] == old(desc[k])
      ensures !ok ==> forall i, j, k | FreeAt(free[..], i) && FreeAt(free[..], j) && FreeAt(free[..], k) :: i == j || j == k || i == k
    {
      idx := [];
      var i := 0;
      while i < 3
        invariant 0 <= i <= 3 && |idx| == i && desc[..] == old(desc[..])
        invariant forall j | 0 <= j < i :: FreeAt(old(free[..]), idx[j]) && !free[idx[j]]
        invariant forall j, k | 0 <= j < k < i :: idx[j] != idx[k]
        invariant forall k | 0 <= k < NUM && k !in idx :: free[k] == old(free[k])
      {
        var d := AllocDesc();
        if d < 0 {
          Undo(idx);
          Pigeons(old(free[..]), idx);
          return false, idx;
        }
        idx := idx + [d];
        i := i + 1;
      }
      return true, idx;
    }

    /** The undoing of a partial allocation. */
    method Undo(idx: seq<int>)
      requires Valid() && (forall j | 0 <= j < |idx| :: IsDesc(idx[j]) && !free[idx[j]]) && forall j, k | 0 <= j < k < |idx| :: idx[j] != idx[k]
      modifies free, desc
      ensures forall k | 0 <= k < NUM :: if k in idx then free[k] else free[k] == old(free[k]) && desc[k] == old(desc[k])
    {
      for j := 0 to |idx|
        invariant forall k | j <= k < |idx| :: !free[idx[k]]
        invariant forall k | 0 <= k < j :: free[idx[k]]
        invariant forall k | 0 <= k < NUM && k !in idx :: free[k] == old(free[k]) && desc[k] == old(desc[k])
      {
        FreeDesc(idx[j]);
      }
    }

    /** virtio_disk_intr against a used ring holding `q`: the buffers of exactly those
        requests are released, and the ring is consumed to its end; or, where some
        request has failed, those before the first such one, and it panics. */
    method Interrupt(used: seq<int>, devUsedIdx: int, ghost q: seq<int>) returns (ok: bool, ghost n: nat)
      requires Valid() && Holds(used, usedIdx, devUsedIdx, q) && forall i | 0 <= i < |q| :: IsDesc(q[i])
      modifies `usedIdx, `busy
      ensures Valid() && n <= |q| && Holds(used, usedIdx, devUsedIdx, q[n..])
      ensures forall i | 0 <= i < n :: IsDesc(q[i]) && status[q[i]] == 0
      ensures forall b :: b in busy <==> b in old(busy) && forall i | 0 <= i < n && IsDesc(q[i]) :: info[q[i]] != b
      ensures ok ==> n == |q| && usedIdx == devUsedIdx
      ensures !ok ==> n < |q| && IsDesc(q[n]) && status[q[n]] != 0
    {
      hide Holds;
      n := 0;
      RingTake(used, usedIdx, devUsedIdx, q[n..]);
      while usedIdx != devUsedIdx
        invariant n <= |q| && Holds(used, usedIdx, devUsedIdx, q[n..])
        invariant forall i | 0 <= i < n :: status[q[i]] == 0
        invariant forall b :: b in busy <==> b in old(busy) && forall i | 0 <= i < n :: info[q[i]] != b
        decreases |q| - n
      {
        RingTake(used, usedIdx, devUsedIdx, q[n..]);
        HoldsSize(used, usedIdx, devUsedIdx, q[n..]);
        var id := used[usedIdx % NUM];
        assert id == q[n];
        if status[id] != 0 {
          return false, n;
        }
        busy := busy - {info[id]};
        usedIdx := (usedIdx + 1) % UINT16;
        assert q[n..][1..] == q[n + 1..];
        n := n + 1;
      }
      RingTake(used, usedIdx, devUsedIdx, q[n..]);
      ok := true;
    }
  }

  /** Fewer than three descriptors were free if they are all in idx. */
  lemma Pigeons(free: seq<bool>, idx: seq<int>)
    requires |idx| < 3 && forall k | FreeAt(free, k) :: k in idx
    ensures forall i, j, k | FreeAt(free, i) && FreeAt(free, j) && FreeAt(free, k) :: i == j || j == k || i == k
  {
  }

  lemma HoldsSize(ring: seq<int>, from: int, to: int, q: seq<int>)
    requires Holds(ring, from, to, q)
    ensures |ring| == NUM && 0 <= from < UINT16
  {
  }
}
