/** Operations shared by the fixed-size tables: first match, and removal by moving the last entry into the hole. */
module Slots {
  /** Index of the first element satisfying f, or the length. */
  function FirstWhere<T>(s: seq<T>, f: T -> bool): (i: nat)
    ensures i <= |s|
    ensures i < |s| ==> f(s[i])
    ensures forall j :: 0 <= j < i ==> !f(s[j])
  {
    if s == [] then 0
    else if f(s[0]) then 0
    else
      var k := FirstWhere(s[1..], f);
      assert forall j :: 0 < j < k + 1 ==> s[j] == s[1..][j - 1];
      k + 1
  }

  function SwapOut<T>(s: seq<T>, i: nat): (r: seq<T>)
    requires i < |s|
    ensures |r| == |s| - 1
    ensures forall k :: 0 <= k < |r| ==> r[k] == if k == i then s[|s| - 1] else s[k]
  {
    s[i := s[|s| - 1]][..|s| - 1]
  }

  /** Exactly one copy of the removed element goes. */
  lemma SwapOutMultiset<T>(s: seq<T>, i: nat)
    requires i < |s|
    ensures multiset(SwapOut(s, i)) == multiset(s) - multiset{s[i]}
  {
    var last := s[|s| - 1];
    var t := s[i := last];
    assert multiset(t) == multiset(s) - multiset{s[i]} + multiset{last};
    assert t[|s| - 1] == last;
    assert t == t[..|s| - 1] + [last];
    var a, b := multiset(SwapOut(s, i)), multiset(s) - multiset{s[i]};
    assert SwapOut(s, i) == t[..|s| - 1];
    assert a + multiset{last} == b + multiset{last};
    forall x ensures a[x] == b[x] {
      assert (a + multiset{last})[x] == (b + multiset{last})[x];
    }
  }

  lemma SwapOutMembers<T>(s: seq<T>, i: nat)
    requires i < |s| && forall a, b :: 0 <= a < b < |s| ==> s[a] != s[b]
    ensures forall m :: m in SwapOut(s, i) <==> m in s && m != s[i]
  {
    var u := SwapOut(s, i);
    forall m | m in s && m != s[i] ensures m in u {
      var k :| 0 <= k < |s| && s[k] == m;
      assert u[if k == |s| - 1 then i else k] == m;
    }
  }

  /** idx lists in increasing order exactly the places of s where f holds. */
  ghost predicate Picks<T>(idx: seq<nat>, s: seq<T>, f: T -> bool) {
    && (forall a, b :: 0 <= a < b < |idx| ==> idx[a] < idx[b])
    && (forall i :: i in idx ==> i < |s| && f(s[i]))
    && (forall i :: 0 <= i < |s| && f(s[i]) ==> i in idx)
  }

  /** The places, listed by a walk over s. */
  function Places<T>(s: seq<T>, f: T -> bool): seq<nat> {
    if s == [] then []
    else
      var n := |s| - 1;
      Places(s[..n], f) + if f(s[n]) then [n] else []
  }

  lemma {:induction false} PlacesPick<T>(s: seq<T>, f: T -> bool)
    ensures Picks(Places(s, f), s, f)
  {
    if s != [] {
      var n := |s| - 1;
      PlacesPick(s[..n], f);
      var before, idx := Places(s[..n], f), Places(s, f);
      forall i | 0 <= i < n ensures i in before <==> f(s[i]) {
        assert s[..n][i] == s[i];
      }
      forall a | 0 <= a < |before| ensures before[a] < n {
        assert before[a] in before;
      }
    }
  }
}
