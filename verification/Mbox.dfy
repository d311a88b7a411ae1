/** kernel/mbox.c: mailboxes found by key, each a ring of MBOX_SIZE messages. */
module Mbox {
  const MAX_MBOX := 32
  const MBOX_SIZE := 16

  datatype Box = Box(key: int, buf: seq<int>, head: int, tail: int, count: int)

  /** An index into the ring. */
  function Slot(i: int): (r: int)
    ensures 0 <= r < MBOX_SIZE
  {
    i % MBOX_SIZE
  }

  predicate Sound(b: Box) {
    && |b.buf| == MBOX_SIZE && 0 <= b.head < MBOX_SIZE && 0 <= b.count <= MBOX_SIZE
    && b.tail == Slot(b.head + b.count)
  }

  /** The messages of a box, oldest first. */
  function Messages(b: Box): (q: seq<int>)
    requires Sound(b)
    ensures |q| == b.count
  {
    seq(b.count, i requires 0 <= i => b.buf[Slot(b.head + i)])
  }

  /** mbox_send with room in the box. */
  function Put(b: Box, msg: int): (r: Box)
    requires Sound(b) && b.count != MBOX_SIZE
    ensures Sound(r) && r.key == b.key && Messages(r) == Messages(b) + [msg]
  {
    var r := b.(buf := b.buf[b.tail := msg], tail := Slot(b.tail + 1), count := b.count + 1);
    PutKeeps(b, r, msg);
    r
  }

  lemma PutKeeps(b: Box, r: Box, msg: int)
    requires Sound(b) && b.count != MBOX_SIZE
    requires r == b.(buf := b.buf[b.tail := msg], tail := Slot(b.tail + 1), count := b.count + 1)
    ensures Sound(r) && Messages(r) == Messages(b) + [msg]
  {
    hide Slot;
    SlotNext(b.head + b.count);
    var q, m := Messages(r), Messages(b);
    forall i | 0 <= i < b.count ensures q[i] == m[i] {
      SlotsDiffer(b.head, i, b.count);
    }
  }

  /** mbox_recv with a message in the box: the message is box.buf[box.head]. */
  function Take(b: Box): (r: Box)
    requires Sound(b) && b.count != 0
    ensures Sound(r) && r.key == b.key && Messages(b) == [b.buf[b.head]] + Messages(r)
  {
    var r := b.(head := Slot(b.head + 1), count := b.count - 1);
    TakeKeeps(b, r);
    r
  }

  lemma TakeKeeps(b: Box, r: Box)
    requires Sound(b) && b.count != 0 && r == b.(head := Slot(b.head + 1), count := b.count - 1)
    ensures Sound(r) && Messages(b) == [b.buf[b.head]] + Messages(r)
  {
    hide Slot;
    Turn(b.head, b.count - 1);
    AtHead(b.head);
    var q, m := Messages(r), Messages(b);
    forall i | 0 <= i < b.count - 1 ensures q[i] == m[i + 1] {
      Turn(b.head, i);
    }
  }

  lemma SlotNext(i: int)
    ensures Slot(Slot(i) + 1) == Slot(i + 1)
  {
  }

  lemma SlotsDiffer(head: int, i: int, j: int)
    requires 0 <= i < j < MBOX_SIZE
    ensures Slot(head + i) != Slot(head + j)
  {
  }

  lemma AtHead(head: int)
    requires 0 <= head < MBOX_SIZE
    ensures Slot(head) == head
  {
  }

  lemma Turn(head: int, i: int)
    requires 0 <= head < MBOX_SIZE && 0 <= i < MBOX_SIZE
    ensures Slot(Slot(head + 1) + i) == Slot(head + (i + 1))
  {
  }

  // ---- Creation ----

  /** Keys are handed out from the front, and no key other than -1 twice. */
  ghost predicate Keyed(keys: seq<int>) {
    && (forall i, j | 0 <= i < j < |keys| && keys[j] != -1 :: keys[i] != -1)
    && (forall i, j | 0 <= i < j < |keys| && keys[i] == keys[j] :: keys[i] == -1)
  }

  lemma KeyedClaim(keys: seq<int>, i: int, key: int)
    requires Keyed(keys) && 0 <= i < |keys| && keys[i] == -1 && key != -1 && forall j | 0 <= j < i :: keys[j] != key && keys[j] != -1
    ensures Keyed(keys[i := key]) && forall j | i <= j < |keys| :: keys[j] == -1
  {
  }

  /** A call of mbox_create(key): about to look at box i, or returned with id. */
  datatype Caller = Looking(key: int, i: nat) | Got(key: int, id: int)

  /** One iteration of the loop, under the lock of box i. */
  function Look(keys: seq<int>, c: Caller): (seq<int>, Caller)
    requires c.Looking?
  {
    if c.i >= |keys| then (keys, Got(c.key, -1))
    else if keys[c.i] == c.key then (keys, Got(c.key, c.i))
    else if keys[c.i] == -1 then (keys[c.i := c.key], Got(c.key, c.i))
    else (keys, Looking(c.key, c.i + 1))
  }

  /** A caller for key k: boxes it has passed belong to others for good. */
  predicate CallerOK(keys: seq<int>, c: Caller) {
    match c
    case Looking(k, i) => i <= |keys| && forall j | 0 <= j < i :: keys[j] != k && keys[j] != -1
    case Got(k, id) => if id == -1 then forall j | 0 <= j < |keys| :: keys[j] != k && keys[j] != -1 else 0 <= id < |keys| && keys[id] == k
  }

  /** Boxes and any number of callers with any keys. */
  ghost predicate Inv(keys: seq<int>, cs: seq<Caller>) {
    Keyed(keys) && forall t | 0 <= t < |cs| && cs[t].key != -1 :: CallerOK(keys, cs[t])
  }

  lemma LookInv(keys: seq<int>, cs: seq<Caller>, t: int)
    requires Inv(keys, cs) && 0 <= t < |cs| && cs[t].Looking?
    ensures var (keys', c) := Look(keys, cs[t]); Inv(keys', cs[t := c])
  {
    var (keys', c) := Look(keys, cs[t]);
    if keys' != keys {
      KeyedClaim(keys, cs[t].i, cs[t].key);
    }
  }

  /** The keys of the boxes and the calls after each step, and who took it. */
  datatype Run = Run(keys: seq<seq<int>>, calls: seq<seq<Caller>>, who: seq<int>)

  /** Every interleaving of calls, from mboxinit on. */
  ghost predicate ValidRun(r: Run) {
    && |r.keys| == |r.calls| == |r.who| + 1
    && |r.keys[0]| == MAX_MBOX && (forall j | 0 <= j < MAX_MBOX :: r.keys[0][j] == -1)
    && (forall t | 0 <= t < |r.calls[0]| :: r.calls[0][t].Looking? && r.calls[0][t].i == 0)
    && (forall n | 0 <= n < |r.who| :: Stepped(r.keys[n], r.calls[n], r.who[n], r.keys[n + 1], r.calls[n + 1]))
  }

  predicate Stepped(keys: seq<int>, cs: seq<Caller>, t: int, keys': seq<int>, cs': seq<Caller>) {
    0 <= t < |cs| && cs[t].Looking? && var (k, c) := Look(keys, cs[t]); keys' == k && cs' == cs[t := c]
  }

  lemma {:induction false} RunInv(r: Run, n: nat)
    requires ValidRun(r) && n <= |r.who|
    ensures Inv(r.keys[n], r.calls[n])
  {
    hide Look;
    if n > 0 {
      RunInv(r, n - 1);
      assert Stepped(r.keys[n - 1], r.calls[n - 1], r.who[n - 1], r.keys[n], r.calls[n]);
      LookInv(r.keys[n - 1], r.calls[n - 1], r.who[n - 1]);
    }
  }

  /** After n steps of r, calls t and u have both returned for the key. */
  predicate BothGot(r: Run, n: nat, t: int, u: int, key: int) {
    && n < |r.calls| && 0 <= t < |r.calls[n]| && 0 <= u < |r.calls[n]|
    && r.calls[n][t].Got? && r.calls[n][u].Got? && r.calls[n][t].key == r.calls[n][u].key == key
  }

  /** In every run, among calls with any keys, those with this key get one id. */
  ghost predicate AlwaysOneId(key: int) {
    forall r: Run, n: nat, t: int, u: int | ValidRun(r) && BothGot(r, n, t, u, key) :: r.calls[n][t].id == r.calls[n][u].id
  }

  /** Concurrent calls with one key never get different ids, whatever keys other
      calls use; this key is not -1. */
  lemma OneIdPerKey(r: Run, n: nat, t: int, u: int, key: int)
    requires ValidRun(r) && BothGot(r, n, t, u, key) && key != -1
    ensures r.calls[n][t].id == r.calls[n][u].id
  {
    RunInv(r, n);
    assert CallerOK(r.keys[n], r.calls[n][t]) && CallerOK(r.keys[n], r.calls[n][u]);
  }

  /** With key -1 the code hands out a free box without taking it: after another
      key takes that box, the next call with -1 gets a different id. */
  lemma MinusOneGetsTwoIds() returns (r: Run)
    ensures ValidRun(r) && BothGot(r, 4, 0, 2, -1) && r.calls[4][0].id != r.calls[4][2].id
  {
    var none := seq(MAX_MBOX, _ => -1);
    var one := none[0 := 5];
    var c0 := [Looking(-1, 0), Looking(5, 0), Looking(-1, 0)];
    var c1 := c0[0 := Got(-1, 0)];
    var c2 := c1[1 := Got(5, 0)];
    var c3 := c2[2 := Looking(-1, 1)];
    var c4 := c3[2 := Got(-1, 1)];
    r := Run([none, none, one, one, one], [c0, c1, c2, c3, c4], [0, 1, 2, 2]);
    assert Stepped(none, c0, 0, none, c1) && Stepped(none, c1, 1, one, c2);
    assert Stepped(one, c2, 2, one, c3) && Stepped(one, c3, 2, one, c4);
  }

  /** mbox_create gives one id per key in every run exactly for the other keys. */
  lemma OneIdExactly(key: int)
    ensures AlwaysOneId(key) <==> key != -1
  {
    if key == -1 {
      var r := MinusOneGetsTwoIds();
      assert BothGot(r, 4, 0, 2, key);
    } else {
      forall r: Run, n: nat, t: int, u: int | ValidRun(r) && BothGot(r, n, t, u, key) ensures r.calls[n][t].id == r.calls[n][u].id {
        OneIdPerKey(r, n, t, u, key);
      }
    }
  }

  // ---- The code ----

  predicate IsId(id: int) {
    0 <= id < MAX_MBOX
  }

  class Mailboxes {
    const box: array<Box>

    // For each box, all messages sent to it and received from it since its creation.
    ghost var sent: seq<seq<int>>
    ghost var received: seq<seq<int>>

    /** First in, first out: kept by every call, so it holds for any interleaving of
        senders and receivers. */
    ghost predicate Valid()
      reads this, box
    {
      && box.Length == |sent| == |received| == MAX_MBOX
      && (forall i | IsId(i) :: Sound(box[i]) && sent[i] == received[i] + Messages(box[i]))
    }

    ghost function Keys(): seq<int>
      reads this, box
    {
      seq(box.Length, i requires 0 <= i < box.Length reads this, box => box[i].key)
    }

    /** mboxinit. */
    constructor ()
      ensures Valid() && fresh(box) && forall i | IsId(i) :: box[i].key == -1
    {
      box := new Box[MAX_MBOX](_ => Box(-1, seq(MBOX_SIZE, _ => 0), 0, 0, 0));
      sent, received := seq(MAX_MBOX, _ => []), seq(MAX_MBOX, _ => []);
    }

    /** mbox_create, uninterrupted: the steps of Look from box 0 on.  A new box is
        empty; -1 means that all boxes belong to other keys. */
    method Create(key: int) returns (id: int)
      requires Valid() && Keyed(Keys())
      modifies box, `sent, `received
      ensures Valid() && Keyed(Keys())
      ensures id == -1 ==> box[..] == old(box[..]) && forall j | IsId(j) :: box[j].key !in {key, -1}
      ensures id != -1 ==> IsId(id) && box[id].key == key && box[..] == old(box[..])[id := box[id]]
      ensures (exists j | IsId(j) :: old(box[j].key) == key) ==> box[..] == old(box[..])
      ensures id != -1 && old(box[id].key) != key ==> old(box[id].key) == -1 && Messages(box[id]) == [] && box[id] == Box(key, old(box[id].buf), 0, 0, 0)
    {
      var i := 0;
      while i < MAX_MBOX
        invariant 0 <= i <= MAX_MBOX && box[..] == old(box[..]) && sent == old(sent) && received == old(received)
        invariant forall j | 0 <= j < i :: box[j].key !in {key, -1}
      {
        if box[i].key == key {
          return i;
        }
        if box[i].key == -1 {
          ghost var keys := Keys();
          KeyedClaim(keys, i, key);
          assert forall j | i <= j < MAX_MBOX :: box[j].key == keys[j];
          Claim(i, key);
          assert Keys() == keys[i := key];
          return i;
        }
        i := i + 1;
      }
      return -1;
    }

    method Claim(i: int, key: int)
      requires Valid() && IsId(i)
      modifies box, `sent, `received
      ensures Valid() && box[..] == old(box[..])[i := Box(key, old(box[i]).buf, 0, 0, 0)]
    {
      box[i] := box[i].(key := key);
      box[i] := box[i].(head := 0, tail := 0, count := 0);
      sent, received := sent[i := []], received[i := []];
    }

    /** mbox_send once the box has room. */
    method Send(id: int, msg: int) returns (r: int)
      requires Valid() && (IsId(id) ==> box[id].count != MBOX_SIZE)
      modifies box, `sent
      ensures Valid() && r == (if IsId(id) then 0 else -1)
      ensures !IsId(id) ==> box[..] == old(box[..]) && sent == old(sent)
      ensures IsId(id) ==> sent == old(sent)[id := old(sent)[id] + [msg]] && box[..] == old(box[..])[id := Put(old(box[id]), msg)]
      ensures IsId(id) ==>
                box[id] == old(box[id]).(buf := old(box[id]).buf[old(box[id].tail) := msg], tail := (old(box[id].tail) + 1) % 16, count := old(box[id].count) + 1)
    {
      if id < 0 || id >= MAX_MBOX {
        return -1;
      }
      ghost var b := box[id];
      box[id] := box[id].(buf := box[id].buf[box[id].tail := msg]);
      box[id] := box[id].(tail := Slot(box[id].tail + 1));
      box[id] := box[id].(count := box[id].count + 1);
      sent := sent[id := sent[id] + [msg]];
      assert box[id] == Put(b, msg);
      return 0;
    }

    /** mbox_recv once the box has a message: the oldest one. */
    method Recv(id: int) returns (r: int, msg: int)
      requires Valid() && (IsId(id) ==> box[id].count != 0)
      modifies box, `received
      ensures Valid() && r == (if IsId(id) then 0 else -1)
      ensures !IsId(id) ==> box[..] == old(box[..]) && received == old(received)
      ensures IsId(id) ==>
                && received == old(received)[id := old(received)[id] + [msg]]
                && box[..] == old(box[..])[id := Take(old(box[id]))] && msg == Messages(old(box[id]))[0]
                && msg == old(box[id]).buf[old(box[id].head)]
                && box[id] == old(box[id]).(head := (old(box[id].head) + 1) % 16, count := old(box[id].count) - 1)
    {
      if id < 0 || id >= MAX_MBOX {
        return -1, 0;
      }
      ghost var b := box[id];
      msg := box[id].buf[box[id].head];
      box[id] := box[id].(head := Slot(box[id].head + 1));
      box[id] := box[id].(count := box[id].count - 1);
      received := received[id := received[id] + [msg]];
      assert box[id] == Take(b);
      return 0, msg;
    }
  }
}
