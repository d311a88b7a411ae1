/** Lists without repetition and their elements as sets. */
module Lists {
  predicate Distinct(q: seq<int>) {
    forall i, j | 0 <= i < j < |q| :: q[i] != q[j]
  }

  function Elems(q: seq<int>): set<int> {
    set i | 0 <= i < |q| :: q[i]
  }

  lemma {:induction false} ElemsSize(q: seq<int>)
    requires Distinct(q)
    ensures |Elems(q)| == |q|
  {
    if q != [] {
      var init := q[..|q| - 1];
      ElemsSize(init);
      assert Elems(q) == Elems(init) + {q[|q| - 1]};
    }
  }

  lemma SubsetSize<T>(a: set<T>, b: set<T>)
    ensures a <= b ==> |a| <= |b|
  {
    if a <= b {
      assert b == a + (b - a);
    }
  }

  function UpTo(n: nat): (r: set<int>)
    ensures |r| == n && forall k :: k in r <==> 0 <= k < n
  {
    if n == 0 then {} else UpTo(n - 1) + {n - 1}
  }

  /** n different numbers below n are all of them. */
  lemma AllListed(q: seq<int>, n: nat, b: int)
    requires Distinct(q) && |q| == n && 0 <= b < n && forall k | 0 <= k < |q| :: 0 <= q[k] < n
    ensures exists i :: 0 <= i < n && q[i] == b
  {
    ElemsSize(q);
    SubsetSize(Elems(q), UpTo(n) - {b});
    assert b in Elems(q);
  }

  /** Different numbers below n other than x are fewer than n. */
  lemma FewOthers(q: seq<int>, n: nat, x: int)
    requires Distinct(q) && 0 <= x < n && x !in q && forall k | 0 <= k < |q| :: 0 <= q[k] < n
    ensures |q| < n
  {
    ElemsSize(q);
    SubsetSize(Elems(q), UpTo(n) - {x});
  }

  lemma PushFront(s: seq<int>, q: int)
    requires Distinct(s) && q !in Elems(s)
    ensures Distinct([q] + s) && Elems([q] + s) == Elems(s) + {q}
  {
    var t := [q] + s;
    forall x | x in Elems(s) ensures x in Elems(t) {
      var i :| 0 <= i < |s| && s[i] == x;
      assert t[i + 1] == x;
    }
    assert t[0] == q;
  }

  lemma PopFront(s: seq<int>)
    requires Distinct(s) && s != []
    ensures Distinct(s[1..]) && Elems(s) == Elems(s[1..]) + {s[0]} && s[0] !in Elems(s[1..])
  {
    assert s == [s[0]] + s[1..];
    PushFront(s[1..], s[0]);
  }
}
