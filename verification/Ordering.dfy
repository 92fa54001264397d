/** Integer keys in ascending order. */
module Ordering {

  lemma SomeKey(keys: set<int>)
    ensures keys == {} || exists k :: k in keys
  {
    if !(exists k :: k in keys) {
      assert keys <= {};
      assert keys == {};
    }
  }

  lemma {:induction false} LeastExists(keys: set<int>)
    ensures keys != {} ==> exists k :: k in keys && forall l :: l in keys ==> k <= l
    decreases |keys|
  {
    if keys != {} {
      SomeKey(keys);
      var k :| k in keys;
      var rest := keys - {k};
      LeastExists(rest);
      assert forall l :: l in keys ==> l == k || l in rest;
      if rest == {} {
        assert forall l :: l in keys ==> k <= l;
      } else {
        var m :| m in rest && forall l :: l in rest ==> m <= l;
        var least := if k < m then k else m;
        assert least in keys && forall l :: l in keys ==> least <= l;
      }
    }
  }

  function Least(keys: set<int>): (k: int)
    requires keys != {}
    ensures k in keys && forall l :: l in keys ==> k <= l
  {
    LeastExists(keys);
    var k :| k in keys && forall l :: l in keys ==> k <= l;
    k
  }

  predicate Ascending(s: seq<int>) {
    forall i, j :: 0 <= i < j < |s| ==> s[i] < s[j]
  }

  lemma LeastFirst(keys: set<int>, k: int, rest: seq<int>)
    requires k in keys && forall l :: l in keys ==> k <= l
    requires Ascending(rest) && forall x :: x in rest <==> x in keys - {k}
    ensures Ascending([k] + rest) && forall x :: x in [k] + rest <==> x in keys
  {
    forall i | 0 <= i < |rest|
      ensures k < rest[i]
    {
      assert rest[i] in rest;
    }
  }

  /** The keys in ascending order. */
  function Sorted(keys: set<int>): (r: seq<int>)
    ensures forall k :: k in r <==> k in keys
    ensures Ascending(r)
    ensures |r| == |keys|
    decreases |keys|
  {
    if keys == {} then []
    else
      var k := Least(keys);
      var rest := Sorted(keys - {k});
      LeastFirst(keys, k, rest);
      [k] + rest
  }

  ghost function FirstKeys(s: seq<int>, k: nat): set<int>
    requires k <= |s|
  {
    set i | 0 <= i < k :: s[i]
  }

  lemma {:induction false} AscendingPrefix(s: seq<int>, k: nat)
    requires Ascending(s) && k <= |s|
    ensures |FirstKeys(s, k)| == k
  {
    if k > 0 {
      AscendingPrefix(s, k - 1);
      assert FirstKeys(s, k) == FirstKeys(s, k - 1) + {s[k - 1]};
      assert s[k - 1] !in FirstKeys(s, k - 1);
    }
  }

  /** How many of the keys are smaller. */
  ghost function Rank(keys: set<int>, k: int): nat {
    |Smaller(keys, k)|
  }

  ghost function Smaller(keys: set<int>, k: int): set<int> {
    set x | x in keys && x < k
  }

  lemma SmallerComeFirst(s: seq<int>, keys: set<int>, p: nat)
    requires Ascending(s) && p < |s| && forall k :: k in s <==> k in keys
    ensures Smaller(keys, s[p]) == FirstKeys(s, p)
  {
    forall x
      ensures x in Smaller(keys, s[p]) <==> x in FirstKeys(s, p)
    {
      if x in Smaller(keys, s[p]) {
        assert x in s;
        var i :| 0 <= i < |s| && s[i] == x;
      }
      if x in FirstKeys(s, p) {
        var i :| 0 <= i < p && s[i] == x;
        assert s[i] in s;
      }
    }
  }

  /** In ascending order a key stands at the place given by how many are smaller. */
  lemma SortedAtRank(keys: set<int>, k: int)
    requires k in keys
    ensures Rank(keys, k) < |keys| && Sorted(keys)[Rank(keys, k)] == k
  {
    var s := Sorted(keys);
    assert k in s;
    var p :| 0 <= p < |s| && s[p] == k;
    SmallerComeFirst(s, keys, p);
    AscendingPrefix(s, p);
  }
}
