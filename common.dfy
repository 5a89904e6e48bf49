/** Small value types and sequence/map folds shared by the handler and routing modules. */
module Common {

  /** Python's `None`-or-value, and the `Empty` sentinel of the memo fields. */
  datatype Option<+T> = None | Some(value: T)

  /** A value, or the exception the source raises instead of returning one. */
  datatype Result<+T, +E> = Success(value: T) | Failure(error: E)

  /** `list(reversed(s))`. */
  function Reversed<T>(s: seq<T>): (r: seq<T>)
    ensures |r| == |s|
    ensures forall i :: 0 <= i < |s| ==> r[i] == s[|s| - 1 - i]
  {
    if s == [] then [] else Reversed(s[1..]) + [s[0]]
  }

  lemma {:induction false} ReversedReversed<T>(s: seq<T>)
    ensures Reversed(Reversed(s)) == s
  {
    var r := Reversed(Reversed(s));
    assert |r| == |s|;
    forall i | 0 <= i < |s| ensures r[i] == s[i] {
      assert r[i] == Reversed(s)[|s| - 1 - i];
    }
  }

  /** The concatenation `xss[0] + xss[1] + ...`, i.e. repeated `list.extend`. */
  function Flatten<T>(xss: seq<seq<T>>): seq<T>
  {
    if xss == [] then [] else Flatten(xss[..|xss| - 1]) + xss[|xss| - 1]
  }

  /** Where the items of `xss[i]` start inside `Flatten(xss)`. */
  function Offset<T>(xss: seq<seq<T>>, i: nat): nat
    requires i <= |xss|
  {
    |Flatten(xss[..i])|
  }

  /** Every item of every inner sequence sits in the concatenation at its offset, in order. */
  lemma {:induction false} FlattenAt<T>(xss: seq<seq<T>>, i: nat, j: nat)
    requires i < |xss| && j < |xss[i]|
    ensures Offset(xss, i) + j < |Flatten(xss)|
    ensures Flatten(xss)[Offset(xss, i) + j] == xss[i][j]
    decreases |xss|
  {
    var n := |xss| - 1;
    var init := xss[..n];
    assert Flatten(xss) == Flatten(init) + xss[n];
    if i == n {
      assert xss[..i] == init;
    } else {
      assert init[..i] == xss[..i];
      FlattenAt(init, i, j);
    }
  }

  /** The items of an earlier inner sequence come entirely before those of a later one. */
  lemma {:induction false} OffsetMonotone<T>(xss: seq<seq<T>>, i: nat, k: nat)
    requires i < k <= |xss|
    ensures Offset(xss, i) + |xss[i]| <= Offset(xss, k)
    decreases k
  {
    assert xss[..k][..k - 1] == xss[..k - 1];
    assert Flatten(xss[..k]) == Flatten(xss[..k - 1]) + xss[k - 1];
    if i < k - 1 {
      OffsetMonotone(xss, i, k - 1);
    } else {
      assert xss[..k - 1] == xss[..i];
    }
  }

  /** An item is in the concatenation exactly when it is in one of the inner sequences. */
  lemma {:induction false} FlattenContains<T>(xss: seq<seq<T>>, x: T)
    ensures x in Flatten(xss) <==> exists i :: 0 <= i < |xss| && x in xss[i]
    decreases |xss|
  {
    if xss != [] {
      var n := |xss| - 1;
      FlattenContains(xss[..n], x);
      assert Flatten(xss) == Flatten(xss[..n]) + xss[n];
      if x in Flatten(xss[..n]) {
        var i :| 0 <= i < n && x in xss[..n][i];
        assert x in xss[i];
      }
      if exists i :: 0 <= i < |xss| && x in xss[i] {
        var i :| 0 <= i < |xss| && x in xss[i];
        if i < n {
          assert x in xss[..n][i];
        }
      }
    }
  }

  /** Successive `dict.update` calls: `acc = {}; for m in ms: acc.update(m)`. */
  function MergeMaps<K, V>(ms: seq<map<K, V>>): map<K, V>
  {
    if ms == [] then map[] else MergeMaps(ms[..|ms| - 1]) + ms[|ms| - 1]
  }

  /** The merge holds a key exactly when some merged map does. */
  lemma {:induction false} MergeMapsKeys<K, V>(ms: seq<map<K, V>>, k: K)
    ensures k in MergeMaps(ms) <==> exists i :: 0 <= i < |ms| && k in ms[i]
    decreases |ms|
  {
    if ms != [] {
      var n := |ms| - 1;
      MergeMapsKeys(ms[..n], k);
      if k in MergeMaps(ms[..n]) {
        var i :| 0 <= i < n && k in ms[..n][i];
        assert k in ms[i];
      }
      if exists i :: 0 <= i < |ms| && k in ms[i] {
        var i :| 0 <= i < |ms| && k in ms[i];
        if i < n {
          assert k in ms[..n][i];
        }
      }
    }
  }

  /** On a key several maps define, the last (closest) map that defines it wins. */
  lemma {:induction false} MergeMapsLastWins<K, V>(ms: seq<map<K, V>>, i: nat, k: K)
    requires i < |ms| && k in ms[i]
    requires forall j :: i < j < |ms| ==> k !in ms[j]
    ensures k in MergeMaps(ms) && MergeMaps(ms)[k] == ms[i][k]
    decreases |ms|
  {
    var n := |ms| - 1;
    if i < n {
      assert k !in ms[n];
      MergeMapsLastWins(ms[..n], i, k);
    }
  }
}
