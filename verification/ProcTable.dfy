/** The loops of kernel/proc.c over the process table, as code: wakeup, reparent,
    kexit, kwait and kkill, each uninterrupted. */
module ProcTable {
  import Procs

  const INIT := Procs.INIT
  const NONE := Procs.NONE

  datatype PState = UNUSED | USED | SLEEPING | RUNNABLE | RUNNING | ZOMBIE

  datatype Proc = Proc(state: PState, chan: int, parent: int, pid: int, killed: bool, xstate: int)

  /** What the machine of Procs knows of a process. */
  function Seen(p: Proc): Procs.Proc {
    Procs.Proc(match p.state
               case UNUSED => Procs.Unused
               case USED => Procs.Used
               case ZOMBIE => Procs.Zombie
               case _ => Procs.Live, p.parent, p.pid)
  }

  function View(ps: seq<Proc>): (r: seq<Procs.Proc>)
    ensures |r| == |ps|
  {
    seq(|ps|, k requires 0 <= k < |ps| => Seen(ps[k]))
  }

  function Woken(p: Proc, chan: int): Proc {
    if p.state == SLEEPING && p.chan == chan then p.(state := RUNNABLE) else p
  }

  const FREED := Proc(UNUSED, 0, NONE, 0, false, 0)

  class Table {
    const proc: array<Proc>

    /** wakeup(chan) by process `me`. */
    method Wakeup(chan: int, me: int)
      modifies proc
      ensures forall k | 0 <= k < proc.Length ::
                proc[k] == if k != me && old(proc[k].state) == SLEEPING && old(proc[k].chan) == chan then old(proc[k]).(state := RUNNABLE) else old(proc[k])
    {
      for p := 0 to proc.Length
        invariant forall k | 0 <= k < p :: proc[k] == (if k == me then old(proc[k]) else Woken(old(proc[k]), chan))
        invariant forall k | p <= k < proc.Length :: proc[k] == old(proc[k])
      {
        if p != me {
          if proc[p].state == SLEEPING && proc[p].chan == chan {
            proc[p] := proc[p].(state := RUNNABLE);
          }
        }
      }
    }

    /** reparent by the exiting process p: its children are init's, and init is awake. */
    method Reparent(p: int, initChan: int)
      requires 0 < p < proc.Length
      modifies proc
      ensures forall k | 0 <= k < proc.Length ::
                && proc[k].parent == (if old(proc[k].parent) == p then INIT else old(proc[k].parent))
                && proc[k].state == (if k != p && old(proc[k].state) == SLEEPING && old(proc[k].chan) == initChan &&
                                       (exists j | 0 <= j < proc.Length :: old(proc[j].parent) == p) then RUNNABLE else old(proc[k].state))
                && proc[k].(parent := 0, state := UNUSED) == old(proc[k]).(parent := 0, state := UNUSED)
    {
      ghost var ps := proc[..];
      var pp := 0;
      ghost var woke := false;
      while pp < proc.Length
        invariant 0 <= pp <= proc.Length
        invariant woke == exists k | 0 <= k < pp :: ps[k].parent == p
        invariant forall k | 0 <= k < proc.Length :: proc[k] == Half(ps, p, initChan, pp, woke, k)
      {
        if proc[pp].parent == p {
          proc[pp] := proc[pp].(parent := INIT);
          Wakeup(initChan, p);
          woke := true;
        }
        pp := pp + 1;
      }
    }

    /** kexit under wait_lock: p is a zombie without children, they are init's, and
        exactly p's parent and an init that got children wake from kwait.  The
        channel of slot k, its address, is k + 1. */
    method Exit(p: int, status: int)
      requires 0 < p < proc.Length && proc[p].parent != p && proc[p].state == RUNNING
      modifies proc
      ensures proc[p] == old(proc[p]).(state := ZOMBIE, xstate := status)
      ensures forall k | 0 <= k < proc.Length && k != p ::
                && proc[k].parent == (if old(proc[k].parent) == p then INIT else old(proc[k].parent)) != p
                && proc[k].state == (if old(proc[k].state) == SLEEPING && (
                                          || old(proc[k].chan) == proc[p].parent + 1
                                          || (old(proc[k].chan) == INIT + 1 && (exists j | 0 <= j < proc.Length :: old(proc[j].parent) == p)))
                                     then RUNNABLE else old(proc[k].state))
                && proc[k].(parent := 0, state := UNUSED) == old(proc[k]).(parent := 0, state := UNUSED)
      ensures View(proc[..]) == Procs.Exited(View(old(proc[..])), p)
    {
      hide View, Procs.Exited;
      Reparent(p, Chan(INIT));
      Wakeup(Chan(proc[p].parent), p);
      proc[p] := proc[p].(xstate := status);
      proc[p] := proc[p].(state := ZOMBIE);
      ExitView(old(proc[..]), proc[..], p);
    }

    /** One turn of kwait's loop by p.  It frees the first zombie child, or keeps it
        if its status cannot be copied out; it sleeps exactly when p has children,
        none of them a zombie, and has not been killed. */
    method Wait(p: int, copies: bool) returns (r: int, slept: bool)
      requires 0 <= p < proc.Length && proc[p].parent != p
      modifies proc
      ensures slept <==>
                && (exists k | 0 <= k < proc.Length :: old(proc[k].parent) == p)
                && (forall k | 0 <= k < proc.Length :: !(old(proc[k].parent) == p && old(proc[k].state) == ZOMBIE))
                && !old(proc[p].killed)
      ensures slept ==> proc[..] == old(proc[..])[p := old(proc[p]).(chan := p + 1, state := SLEEPING)]
      ensures (exists k | 0 <= k < proc.Length :: old(proc[k].parent) == p && old(proc[k].state) == ZOMBIE) && copies ==>
                exists k | 0 <= k < proc.Length ::
                  && old(proc[k].parent) == p && old(proc[k].state) == ZOMBIE
                  && (forall j | 0 <= j < k :: !(old(proc[j].parent) == p && old(proc[j].state) == ZOMBIE))
                  && r == old(proc[k].pid) && proc[..] == old(proc[..])[k := Proc(UNUSED, 0, NONE, 0, false, 0)]
                  && View(proc[..]) == View(old(proc[..]))[k := Procs.Proc(Procs.Unused, NONE, 0)]
      ensures !slept && !((exists k | 0 <= k < proc.Length :: old(proc[k].parent) == p && old(proc[k].state) == ZOMBIE) && copies) ==>
                r == -1 && proc[..] == old(proc[..])
    {
      var havekids := false;
      for pp := 0 to proc.Length
        invariant proc[..] == old(proc[..])
        invariant havekids <==> exists k | 0 <= k < pp :: proc[k].parent == p
        invariant forall k | 0 <= k < pp :: !(proc[k].parent == p && proc[k].state == ZOMBIE)
      {
        if proc[pp].parent == p {
          havekids := true;
          if proc[pp].state == ZOMBIE {
            assert old(proc[pp].parent) == p && old(proc[pp].state) == ZOMBIE;
            if !copies {
              return -1, false;
            }
            r := proc[pp].pid;
            proc[pp] := FREED;
            return r, false;
          }
        }
      }
      if !havekids || proc[p].killed {
        return -1, false;
      }
      proc[p] := proc[p].(chan := Chan(p));
      proc[p] := proc[p].(state := SLEEPING);
      return 0, true;
    }

    /** kkill: the first process with the pid is marked, and no longer sleeps. */
    method Kill(pid: int) returns (r: int)
      modifies proc
      ensures r == -1 ==> proc[..] == old(proc[..]) && forall k | 0 <= k < proc.Length :: proc[k].pid != pid
      ensures r != -1 ==> r == 0 && exists k | 0 <= k < proc.Length ::
                && old(proc[k].pid) == pid && (forall j | 0 <= j < k :: old(proc[j].pid) != pid)
                && (forall j | 0 <= j < proc.Length && j != k :: proc[j] == old(proc[j]))
                && proc[k].killed && proc[k].state == (if old(proc[k].state) == SLEEPING then RUNNABLE else old(proc[k].state))
                && proc[k].chan == old(proc[k].chan) && proc[k].parent == old(proc[k].parent)
                && proc[k].pid == old(proc[k].pid) && proc[k].xstate == old(proc[k].xstate)
    {
      for p := 0 to proc.Length
        invariant proc[..] == old(proc[..]) && forall k | 0 <= k < p :: proc[k].pid != pid
      {
        if proc[p].pid == pid {
          proc[p] := proc[p].(killed := true);
          if proc[p].state == SLEEPING {
            proc[p] := proc[p].(state := RUNNABLE);
          }
          assert old(proc[p].pid) == pid;
          return 0;
        }
      }
      return -1;
    }
  }

  /** The channel of process p in kwait: its own address. */
  function Chan(p: int): int {
    p + 1
  }

  lemma ExitView(before: seq<Proc>, after: seq<Proc>, p: int)
    requires 0 <= p < |before| == |after| && after[p].state == ZOMBIE && after[p].parent == before[p].parent != p && after[p].pid == before[p].pid
    requires forall k | 0 <= k < |before| && k != p ::
               && after[k].parent == (if before[k].parent == p then INIT else before[k].parent) && after[k].pid == before[k].pid
               && (after[k].state == before[k].state || (before[k].state == SLEEPING && after[k].state == RUNNABLE))
    ensures View(after) == Procs.Exited(View(before), p)
  {
  }

  /** Entry k when reparent has passed the first pp entries. */
  function Half(ps: seq<Proc>, p: int, chan: int, pp: int, woke: bool, k: int): Proc
    requires 0 <= k < |ps|
  {
    var x := if k < pp && ps[k].parent == p then ps[k].(parent := INIT) else ps[k];
    if woke && k != p then Woken(x, chan) else x
  }
}
