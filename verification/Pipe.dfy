/** kernel/pipe.c: a ring of PIPESIZE bytes with 32-bit counters that only grow
    and wrap, against an unbounded queue.  Each method is what pipewrite or
    piperead does between taking the lock and giving it up or sleeping. */
module Pipe {
  const PIPESIZE := 512
  const UINT := 0x1_0000_0000

  /** nwrite - nread in 32-bit arithmetic. */
  function Used(nread: int, nwrite: int): (n: int)
    ensures 0 <= n < UINT
  {
    (nwrite - nread) % UINT
  }

  function Next(n: int): (r: int)
    requires 0 <= n < UINT
    ensures 0 <= r < UINT
  {
    (n + 1) % UINT
  }

  /** The index of the i-th byte to be read. */
  function Place(nread: int, i: int): (k: int)
    ensures 0 <= k < PIPESIZE
  {
    (nread + i) % PIPESIZE
  }

  function Queued(data: seq<int>, nread: int, nwrite: int): (q: seq<int>)
    requires |data| == PIPESIZE && 0 <= Used(nread, nwrite) <= PIPESIZE
    ensures |q| == Used(nread, nwrite)
  {
    seq(Used(nread, nwrite), i requires 0 <= i => data[Place(nread, i)])
  }

  lemma WrapUsed(nread: int, nwrite: int)
    requires 0 <= nread < UINT && 0 <= nwrite < UINT && Used(nread, nwrite) <= PIPESIZE
    ensures Used(nread, nwrite) < PIPESIZE ==> Used(nread, Next(nwrite)) == Used(nread, nwrite) + 1
    ensures Used(nread, nwrite) > 0 ==> Used(Next(nread), nwrite) == Used(nread, nwrite) - 1
    ensures nwrite == (nread + PIPESIZE) % UINT <==> Used(nread, nwrite) == PIPESIZE
    ensures nwrite == nread <==> Used(nread, nwrite) == 0
    ensures nwrite % PIPESIZE == Place(nread, Used(nread, nwrite))
  {
    hide Next, Place;
    assert nwrite == nread + Used(nread, nwrite) || nwrite == nread + Used(nread, nwrite) - UINT;
    WrapPut(nread, nwrite);
    WrapTake(nread, nwrite);
    WrapTail(nread, nwrite);
  }

  lemma WrapPut(nread: int, nwrite: int)
    requires 0 <= nread < UINT && 0 <= nwrite < UINT
    ensures Used(nread, nwrite) < PIPESIZE ==> Used(nread, Next(nwrite)) == Used(nread, nwrite) + 1
  {
  }

  lemma WrapTake(nread: int, nwrite: int)
    requires 0 <= nread < UINT && 0 <= nwrite < UINT
    ensures Used(nread, nwrite) > 0 ==> Used(Next(nread), nwrite) == Used(nread, nwrite) - 1
  {
  }

  lemma WrapTail(nread: int, nwrite: int)
    requires 0 <= nread < UINT && 0 <= nwrite < UINT
    ensures nwrite % PIPESIZE == Place(nread, Used(nread, nwrite))
  {
  }

  lemma Places(nread: int, i: int, j: int)
    requires 0 <= i < PIPESIZE && 0 <= j < PIPESIZE && Place(nread, i) == Place(nread, j)
    ensures i == j
  {
  }

  lemma WrapPlace(nread: int, i: int)
    requires 0 <= nread < UINT
    ensures Place(Next(nread), i) == Place(nread, i + 1)
  {
  }

  /** pi->data[pi->nwrite++ % PIPESIZE] = ch appends ch. */
  lemma PutQueued(data: seq<int>, nread: int, nwrite: int, ch: int)
    requires |data| == PIPESIZE && 0 <= nread < UINT && 0 <= nwrite < UINT && Used(nread, nwrite) < PIPESIZE
    ensures Used(nread, Next(nwrite)) == Used(nread, nwrite) + 1
    ensures Queued(data[nwrite % PIPESIZE := ch], nread, Next(nwrite)) == Queued(data, nread, nwrite) + [ch]
  {
    hide Next, Used;
    WrapUsed(nread, nwrite);
    var n := Used(nread, nwrite);
    var q := Queued(data[nwrite % PIPESIZE := ch], nread, Next(nwrite));
    forall i | 0 <= i < n ensures q[i] == data[Place(nread, i)] {
      if Place(nread, i) == Place(nread, n) {
        Places(nread, i, n);
      }
    }
  }

  /** pi->data[pi->nread++ % PIPESIZE] is the oldest byte, and removes it. */
  lemma TakeQueued(data: seq<int>, nread: int, nwrite: int)
    requires |data| == PIPESIZE && 0 <= nread < UINT && 0 <= nwrite < UINT && 0 < Used(nread, nwrite) <= PIPESIZE
    ensures Used(Next(nread), nwrite) == Used(nread, nwrite) - 1
    ensures Queued(data, nread, nwrite) == [data[nread % PIPESIZE]] + Queued(data, Next(nread), nwrite)
  {
    hide Next, Used;
    WrapUsed(nread, nwrite);
    var q, rest := Queued(data, nread, nwrite), Queued(data, Next(nread), nwrite);
    forall i | 0 <= i < |rest| ensures rest[i] == q[i + 1] {
      WrapPlace(nread, i);
    }
  }

  /** How a pass through pipewrite or piperead ends: it returns the count so far,
      returns -1, or sleeps. */
  datatype Exit = Done | Fail | Sleep

  class PipeRing {
    const data: array<int>
    var nread: int
    var nwrite: int
    var readopen: bool
    var writeopen: bool

    // All bytes ever put in and ever taken out.
    ghost var accepted: seq<int>
    ghost var consumed: seq<int>

    /** First in, first out: kept by every critical section, so it holds for any
        interleaving of readers and writers and across counter wrap. */
    ghost predicate Valid()
      reads this, data
    {
      && data.Length == PIPESIZE && 0 <= nread < UINT && 0 <= nwrite < UINT && Used(nread, nwrite) <= PIPESIZE
      && accepted == consumed + Contents()
    }

    ghost function Contents(): seq<int>
      requires data.Length == PIPESIZE && Used(nread, nwrite) <= PIPESIZE
      reads this, data
    {
      Queued(data[..], nread, nwrite)
    }

    /** pipealloc. */
    constructor ()
      ensures Valid() && fresh(data) && accepted == consumed == [] && readopen && writeopen
    {
      data := new int[PIPESIZE](_ => 0);
      nread, nwrite, readopen, writeopen := 0, 0, true, true;
      accepted, consumed := [], [];
    }

    /** pipewrite from byte i0 of n on, until it is done, finds the read end closed,
        itself killed or the pipe full, or cannot copy from the source, which ends at
        |src|.  The first `alive` tests of killed say no.  It puts in as many bytes as
        these allow. */
    method WriteSome(src: seq<int>, i0: int, n: int, alive: nat) returns (exit: Exit, i: int)
      requires Valid() && 0 <= i0 <= |src| && (i0 == 0 || i0 <= n)
      modifies `nwrite, `accepted, data
      ensures Valid() && i0 <= i <= |src| && accepted == old(accepted) + src[i0..i]
      ensures Contents() == old(Contents()) + src[i0..i] && |Contents()| <= 512
      ensures !readopen || n <= i0 ==> i == i0
      ensures readopen && i0 < n ==> i <= n && i - i0 <= alive && (i == n || i == |src| || i - i0 == alive || |Contents()| == 512)
      ensures exit == Fail <==> i < n && (!readopen || i - i0 == alive)
      ensures exit == Sleep <==> i < n && readopen && i - i0 < alive && |Contents()| == 512
    {
      hide Next, Used, Queued;
      i := i0;
      while i < n
        invariant Valid() && i0 <= i <= |src| && (i <= n || i == i0) && accepted == old(accepted) + src[i0..i]
        invariant Contents() == old(Contents()) + src[i0..i] && |Contents()| <= PIPESIZE && i - i0 <= alive && (!readopen ==> i == i0)
      {
        if !readopen || i - i0 == alive {
          return Fail, i;
        }
        WrapUsed(nread, nwrite);
        if nwrite == (nread + PIPESIZE) % UINT {
          return Sleep, i;
        }
        if i == |src| {
          break;
        }
        PutOne(src[i]);
        i := i + 1;
      }
      exit := Done;
    }

    method PutOne(ch: int)
      requires Valid() && Used(nread, nwrite) < PIPESIZE
      modifies `nwrite, `accepted, data
      ensures Valid() && Contents() == old(Contents()) + [ch] && accepted == old(accepted) + [ch]
    {
      PutQueued(data[..], nread, nwrite, ch);
      data[nwrite % PIPESIZE] := ch;
      nwrite := Next(nwrite);
      accepted := accepted + [ch];
    }

    /** A pass of piperead: it sleeps, or fails if killed, exactly on an empty pipe
        that can still be written to; else it delivers the oldest bytes. */
    method Read(n: int, room: nat, killed: bool) returns (exit: Exit, i: int, out: seq<int>)
      requires Valid()
      modifies `nread, `consumed
      ensures Valid()
      ensures exit == Done <==> old(Contents()) != [] || !writeopen
      ensures exit == Sleep <==> old(Contents()) == [] && writeopen && !killed
      ensures exit == Done ==> i == |out| && out <= old(Contents()) && (n <= 0 ==> i == 0)
      ensures exit == Done && n > 0 ==> i <= n && i <= room && (i == n || i == room || i == |old(Contents())|)
      ensures exit == Done ==> consumed == old(consumed) + old(Contents())[..if room < n && room < |old(Contents())| then i + 1 else i]
      ensures exit != Done ==> consumed == old(consumed) && Contents() == old(Contents()) && i == 0 && out == []
    {
      hide Next, Used, Queued;
      WrapUsed(nread, nwrite);
      i, out := 0, [];
      if nread == nwrite && writeopen {
        return if killed then Fail else Sleep, i, out;
      }
      exit := Done;
      if n > 0 {
        i, out := ReadSome(n, room);
      }
    }

    /** The copy loop of piperead.  The destination accepts `room` bytes; a byte
        that cannot be delivered has still been taken. */
    method ReadSome(n: int, room: nat) returns (i: int, out: seq<int>)
      requires Valid() && 0 <= n
      modifies `nread, `consumed
      ensures Valid() && i == |out| && out <= old(Contents())
      ensures i <= n && i <= room && (i == n || i == room || i == |old(Contents())|)
      ensures consumed == old(consumed) + old(Contents())[..if room < n && room < |old(Contents())| then i + 1 else i]
    {
      hide Next, Used;
      ghost var q := Contents();
      i, out := 0, [];
      while i < n
        invariant Valid() && i == |out| <= n && i <= room
        invariant i <= |q| && out == q[..i] && Contents() == q[i..] && consumed == old(consumed) + q[..i]
      {
        WrapUsed(nread, nwrite);
        if nread == nwrite {
          break;
        }
        TakeQueued(data[..], nread, nwrite);
        var ch := data[nread % PIPESIZE];
        Advance();
        if i == room {
          break;
        }
        out := out + [ch];
        i := i + 1;
      }
    }

    method Advance()
      requires Valid() && Used(nread, nwrite) > 0
      modifies `nread, `consumed
      ensures Valid() && Contents() == old(Contents())[1..] && consumed == old(consumed) + [old(Contents())[0]]
    {
      TakeQueued(data[..], nread, nwrite);
      consumed := consumed + [data[nread % PIPESIZE]];
      nread := Next(nread);
    }
  }
}
