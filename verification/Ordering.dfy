/**
  Sorting as a choice of index permutation.

  `Array.prototype.sort` (ECMA-262 section 23.1.3.30) rearranges elements by what the comparator
  says about their keys. A consistent comparator leaves one possible stable result, `StableOrder`;
  an inconsistent one leaves the order to the engine, which the model receives as a parameter.
*/
module Ordering {
  /** `p` lists each index below `n` once. */
  predicate IsPermutation(p: seq<nat>, n: nat) {
    && |p| == n
    && (forall i :: 0 <= i < n ==> p[i] < n)
    && (forall i, j :: 0 <= i < j < n ==> p[i] != p[j])
  }

  /** `p` if it is a permutation; an engine that returns anything else is taken to change nothing. */
  function Choice(p: seq<nat>, n: nat): (q: seq<nat>)
    ensures IsPermutation(q, n)
  {
    if IsPermutation(p, n) then p else seq(n, i requires 0 <= i < n => i)
  }

  /** `s` rearranged by `p`. */
  function Arrange<T>(s: seq<T>, p: seq<nat>): (r: seq<T>)
    ensures |r| == |s|
    ensures forall i :: 0 <= i < |s| ==> r[i] == s[Choice(p, |s|)[i]]
  {
    var q := Choice(p, |s|);
    seq(|s|, i requires 0 <= i < |s| => s[q[i]])
  }

  /** Nothing is lost: every index below `n` is listed. */
  lemma PermutationsAreOnto(p: seq<nat>, n: nat)
    requires IsPermutation(p, n)
    ensures forall k :: 0 <= k < n ==> k in p
  {
    var image := set i | 0 <= i < n :: p[i];
    var all := Below(n);
    ImageSize(p, n);
    assert image <= all;
    if image != all {
      StrictSubsetIsSmaller(image, all);
      assert false;
    }
    forall k | 0 <= k < n ensures k in p {
      assert k in image;
    }
  }

  lemma {:induction false} ImageSize(p: seq<nat>, n: nat)
    requires n <= |p| && forall i, j :: 0 <= i < j < n ==> p[i] != p[j]
    ensures |set i | 0 <= i < n :: p[i]| == n
  {
    if n > 0 {
      ImageSize(p, n - 1);
      assert (set i | 0 <= i < n :: p[i]) == (set i | 0 <= i < n - 1 :: p[i]) + {p[n - 1]};
    }
  }

  function Below(n: nat): (all: set<nat>)
    ensures |all| == n && forall k :: k in all <==> 0 <= k < n
  {
    if n == 0 then {} else Below(n - 1) + {n - 1}
  }

  lemma StrictSubsetIsSmaller<T>(a: set<T>, b: set<T>)
    requires a < b
    ensures |a| < |b|
  {
    assert b == a + (b - a);
  }

  /** Rearranging keeps every element, as often as it occurs. */
  lemma ArrangeKeepsElements<T>(s: seq<T>, p: seq<nat>)
    ensures multiset(Arrange(s, p)) == multiset(s)
  {
    PickingKeepsElements(s, Choice(p, |s|), Arrange(s, p));
  }

  function Without<T>(s: seq<T>, k: nat): (r: seq<T>)
    requires k < |s|
    ensures |r| == |s| - 1 && forall i :: 0 <= i < |r| ==> r[i] == if i < k then s[i] else s[i + 1]
  {
    s[..k] + s[k + 1..]
  }

  lemma DroppingTheLargest(q: seq<nat>, k: nat)
    requires IsPermutation(q, |q|) && k < |q| && q[k] == |q| - 1
    ensures IsPermutation(Without(q, k), |q| - 1)
  {
  }

  lemma {:induction false} PickingKeepsElements<T>(s: seq<T>, q: seq<nat>, r: seq<T>)
    requires IsPermutation(q, |s|) && |r| == |s| && forall i :: 0 <= i < |s| ==> r[i] == s[q[i]]
    ensures multiset(r) == multiset(s)
    decreases |s|
  {
    if s != [] {
      var n := |s| - 1;
      PermutationsAreOnto(q, |s|);
      assert n in q;
      var k :| 0 <= k < |q| && q[k] == n;
      DroppingTheLargest(q, k);
      PickingKeepsElements(s[..n], Without(q, k), Without(r, k));
      ElementsWithout(r, k);
      ElementsWithout(s, n);
      assert Without(s, n) == s[..n];
    }
  }

  lemma ElementsWithout<T>(s: seq<T>, k: nat)
    requires k < |s|
    ensures multiset(s) == multiset(Without(s, k)) + multiset{s[k]}
  {
    assert s == s[..k] + [s[k]] + s[k + 1..];
  }

  ghost predicate IsStableOrder(p: seq<nat>, keys: seq<int>) {
    && IsPermutation(p, |keys|)
    && forall i, j :: 0 <= i < j < |keys| ==> Before(keys, p[i], p[j])
  }

  predicate Before(keys: seq<int>, a: nat, b: nat)
    requires a < |keys| && b < |keys|
  {
    keys[a] < keys[b] || (keys[a] == keys[b] && a < b)
  }

  /** The stable ascending order of `keys`: each index goes behind every key that is not greater. */
  function StableOrder(keys: seq<int>): (p: seq<nat>)
    ensures IsStableOrder(p, keys)
  {
    if keys == [] then []
    else
      var n := |keys| - 1;
      var p := StableOrder(keys[..n]);
      var at := InsertionPoint(keys[..n], p, keys[n]);
      InsertingIsPermutation(p, at, n);
      InsertingIsStable(keys, p, at);
      p[..at] + [n] + p[at..]
  }

  function InsertionPoint(keys: seq<int>, p: seq<nat>, key: int): (at: nat)
    requires forall i :: 0 <= i < |p| ==> p[i] < |keys|
    requires forall i, j :: 0 <= i < j < |p| ==> keys[p[i]] <= keys[p[j]]
    ensures at <= |p|
    ensures forall i :: 0 <= i < at ==> keys[p[i]] <= key
    ensures forall i :: at <= i < |p| ==> key < keys[p[i]]
  {
    if p == [] || keys[p[|p| - 1]] <= key then |p|
    else InsertionPoint(keys, p[..|p| - 1], key)
  }

  lemma InsertingIsPermutation(p: seq<nat>, at: nat, n: nat)
    requires IsPermutation(p, n) && at <= n
    ensures IsPermutation(p[..at] + [n] + p[at..], n + 1)
  {
  }

  lemma InsertingIsStable(keys: seq<int>, p: seq<nat>, at: nat)
    requires keys != [] && IsStableOrder(p, keys[..|keys| - 1]) && at <= |p|
    requires forall i :: 0 <= i < at ==> keys[p[i]] <= keys[|keys| - 1]
    requires forall i :: at <= i < |p| ==> keys[|keys| - 1] < keys[p[i]]
    requires IsPermutation(p[..at] + [|keys| - 1] + p[at..], |keys|)
    ensures IsStableOrder(p[..at] + [|keys| - 1] + p[at..], keys)
  {
    var n := |keys| - 1;
    var r := p[..at] + [n] + p[at..];
    forall i, j | 0 <= i < j < |keys| ensures Before(keys, r[i], r[j]) {
      var i', j' := if i < at then i else i - 1, if j < at then j else j - 1;
      if i != at && j != at {
        assert Before(keys[..n], p[i'], p[j']);
      }
    }
  }

  /** A stable order is the only one: the sort leaves the engine no choice. */
  lemma {:induction false} StableOrderIsUnique(p: seq<nat>, keys: seq<int>)
    requires IsStableOrder(p, keys)
    ensures p == StableOrder(keys)
  {
    var q := StableOrder(keys);
    if p != q {
      var i :| 0 <= i < |p| && p[i] != q[i] && p[..i] == q[..i] by {
        FirstDifference(p, q);
      }
      LaterPosition(p, q, i);
      LaterPosition(q, p, i);
    }
  }

  lemma {:induction false} FirstDifference(p: seq<nat>, q: seq<nat>)
    requires |p| == |q| && p != q
    ensures exists i :: 0 <= i < |p| && p[i] != q[i] && p[..i] == q[..i]
  {
    if p[0] != q[0] {
      assert p[..0] == q[..0];
    } else {
      FirstDifference(p[1..], q[1..]);
      var i :| 0 <= i < |p| - 1 && p[1..][i] != q[1..][i] && p[1..][..i] == q[1..][..i];
      assert p[..i + 1] == [p[0]] + p[1..][..i] && q[..i + 1] == [q[0]] + q[1..][..i];
    }
  }

  lemma LaterPosition(p: seq<nat>, q: seq<nat>, i: nat)
    requires IsPermutation(p, |p|) && IsPermutation(q, |p|) && i < |p|
    requires p[i] != q[i] && p[..i] == q[..i]
    ensures exists j :: i < j < |p| && p[j] == q[i]
  {
    PermutationsAreOnto(p, |p|);
    assert q[i] in p;
    var j :| 0 <= j < |p| && p[j] == q[i];
  }
}
