/**
 * The shape of a routing trie: for every node of the arena, its children map. Index 0
 * is the root. Everything the builder promises about which nodes exist and how they
 * are linked is stated on shapes; the node attributes live in the RoutingTrie module.
 */
module TrieShape {
  import opened Common
  import opened Routes

  /**
   * A child key: a literal string (a path segment, or a whole plain or mounted path),
   * the shared `PathParameterSentinel`, or a parameter definition itself, which is what
   * the mount walk uses as key for a parameter component.
   */
  datatype Key = Lit(text: string) | Sentinel | Definition(definition: PathParameterDefinition)

  /** `children` of every node, by arena index. */
  type Shape = seq<map<Key, nat>>

  /** The key a parameterised route descends by: the sentinel for a parameter. */
  function ComponentKey(c: PathComponent): Key
  {
    if c.Parameter? then Sentinel else Lit(c.text)
  }

  /** The key a mount route descends by: the component itself. */
  function MountKey(c: PathComponent): Key
  {
    if c.Parameter? then Definition(c.definition) else Lit(c.text)
  }

  function ComponentKeys(cs: seq<PathComponent>): seq<Key>
  {
    seq(|cs|, i requires 0 <= i < |cs| => ComponentKey(cs[i]))
  }

  function MountKeys(cs: seq<PathComponent>): seq<Key>
  {
    seq(|cs|, i requires 0 <= i < |cs| => MountKey(cs[i]))
  }

  /** Every child exists and has a larger index than its parent, so the trie is acyclic. */
  ghost predicate Ordered(s: Shape)
  {
    forall i, k :: 0 <= i < |s| && k in s[i] ==> i < s[i][k] < |s|
  }

  /** The node reached from `from` by following `keys`, if every step exists. */
  function Follow(s: Shape, from: nat, keys: seq<Key>): (r: Option<nat>)
    ensures r.Some? ==> r.value < |s|
  {
    if keys == [] then
      (if from < |s| then Some(from) else None)
    else
      match Follow(s, from, keys[..|keys| - 1])
      case None => None
      case Some(c) =>
        var k := keys[|keys| - 1];
        if k in s[c] && s[c][k] < |s| then Some(s[c][k]) else None
  }

  /** The children of node `j` before an update; none if it did not exist yet. */
  function PriorChildren(before: Shape, j: nat): map<Key, nat>
  {
    if j < |before| then before[j] else map[]
  }

  /** No node was removed and no existing child was removed or replaced. */
  ghost predicate Grows(before: Shape, after: Shape)
  {
    && |before| <= |after|
    && forall i, k :: 0 <= i < |before| && k in before[i] ==> k in after[i] && after[i][k] == before[i][k]
  }

  /** `if key not in children[parent]: add a new, empty node there`; `child` is the child. */
  ghost predicate AddsChild(before: Shape, after: Shape, parent: nat, key: Key, child: nat)
  {
    && parent < |before|
    && if key in before[parent] then
         after == before && child == before[parent][key]
       else
         var grown: map<Key, nat> := before[parent][key := child];
         child == |before| && after == before[parent := grown] + [map[]]
  }

  /** A walk so far: `trail[m + 1]` is the child of `trail[m]` under `keys[m]`. */
  ghost predicate Linked(s: Shape, keys: seq<Key>, trail: seq<nat>)
  {
    && 0 < |trail| <= |keys| + 1
    && (forall m :: 0 <= m < |trail| ==> trail[m] < |s|)
    && forall m :: 0 <= m < |trail| - 1 ==> keys[m] in s[trail[m]] && s[trail[m]][keys[m]] == trail[m + 1]
  }

  /**
   * Children were added only along the walk: a node off the trail has the children it
   * had, and the m-th node of the trail gained at most the key `keys[m]`.
   */
  ghost predicate OnlyAlong(before: Shape, after: Shape, keys: seq<Key>, trail: seq<nat>)
    requires 0 < |trail| <= |keys| + 1
  {
    && (forall j :: 0 <= j < |after| && j !in trail[..|trail| - 1] ==> after[j] == PriorChildren(before, j))
    && forall m :: 0 <= m < |trail| - 1 && trail[m] < |after| ==>
         after[trail[m]].Keys <= PriorChildren(before, trail[m]).Keys + {keys[m]}
  }

  lemma AddsChildGrows(before: Shape, after: Shape, parent: nat, key: Key, child: nat)
    requires Ordered(before) && AddsChild(before, after, parent, key, child)
    ensures Ordered(after) && Grows(before, after)
    ensures parent < child < |after| && key in after[parent] && after[parent][key] == child
    ensures |after| <= |before| + 1
  {
    if key !in before[parent] {
      forall i, k | 0 <= i < |after| && k in after[i]
        ensures i < after[i][k] < |after|
      {
        if i != parent {
          assert after[i] == before[i];
        }
      }
    }
  }

  lemma GrowsTransitive(a: Shape, b: Shape, c: Shape)
    requires Grows(a, b) && Grows(b, c)
    ensures Grows(a, c)
  {
  }

  /** Growing the trie keeps whatever was reachable reachable, at the same node. */
  lemma {:induction false} FollowGrows(before: Shape, after: Shape, from: nat, keys: seq<Key>)
    requires Grows(before, after)
    requires Follow(before, from, keys).Some?
    ensures Follow(after, from, keys) == Follow(before, from, keys)
    decreases |keys|
  {
    if keys != [] {
      FollowGrows(before, after, from, keys[..|keys| - 1]);
    }
  }

  /** A walk that succeeds succeeds on each of its prefixes. */
  lemma {:induction false} FollowPrefix(s: Shape, from: nat, keys: seq<Key>, m: nat)
    requires m <= |keys| && Follow(s, from, keys).Some?
    ensures Follow(s, from, keys[..m]).Some?
    decreases |keys|
  {
    if m < |keys| {
      var init := keys[..|keys| - 1];
      assert init[..m] == keys[..m];
      FollowPrefix(s, from, init, m);
    } else {
      assert keys[..m] == keys;
    }
  }

  /** A linked trail from the root is what `Follow` finds. */
  lemma {:induction false} LinkedFollow(s: Shape, keys: seq<Key>, trail: seq<nat>, m: nat)
    requires Linked(s, keys, trail) && trail[0] == 0 && m < |trail|
    ensures Follow(s, 0, keys[..m]) == Some(trail[m])
    decreases m
  {
    if m > 0 {
      LinkedFollow(s, keys, trail, m - 1);
      assert keys[..m][..m - 1] == keys[..m - 1];
    }
  }

  /** Along a walk that already succeeds, every step's key is already there. */
  lemma ExistingStep(s: Shape, keys: seq<Key>, i: nat, current: nat)
    requires i < |keys| && Follow(s, 0, keys).Some? && Follow(s, 0, keys[..i]) == Some(current)
    ensures keys[i] in s[current]
  {
    FollowPrefix(s, 0, keys, i + 1);
    assert keys[..i + 1][..i] == keys[..i];
  }

  /** One more step of a walk keeps the trail linked. */
  lemma LinkedStep(before: Shape, after: Shape, keys: seq<Key>, trail: seq<nat>, child: nat)
    requires Ordered(before) && Linked(before, keys, trail) && |trail| <= |keys|
    requires AddsChild(before, after, trail[|trail| - 1], keys[|trail| - 1], child)
    ensures Linked(after, keys, trail + [child])
  {
    AddsChildGrows(before, after, trail[|trail| - 1], keys[|trail| - 1], child);
  }

  /** One more step of a walk adds children only at the node it descends from. */
  lemma OnlyAlongStep(start: Shape, before: Shape, after: Shape, keys: seq<Key>, trail: seq<nat>, child: nat)
    requires 0 < |trail| <= |keys| && |start| <= |before|
    requires Ordered(before) && OnlyAlong(start, before, keys, trail)
    requires forall m :: 0 <= m < |trail| - 1 ==> trail[m] < trail[|trail| - 1]
    requires AddsChild(before, after, trail[|trail| - 1], keys[|trail| - 1], child)
    ensures OnlyAlong(start, after, keys, trail + [child])
  {
    var last := trail[|trail| - 1];
    var key := keys[|trail| - 1];
    var next := trail + [child];
    AddsChildGrows(before, after, last, key, child);
    assert next[..|next| - 1] == trail;
    assert trail == trail[..|trail| - 1] + [last];
    forall j | 0 <= j < |after| && j !in trail
      ensures after[j] == PriorChildren(start, j)
    {
      if j < |before| {
        assert after[j] == before[j];
      } else {
        assert j == child && after[j] == map[];
      }
    }
    forall m | 0 <= m < |next| - 1 && next[m] < |after|
      ensures after[next[m]].Keys <= PriorChildren(start, next[m]).Keys + {keys[m]}
    {
      if m < |trail| - 1 {
        assert after[next[m]] == before[next[m]];
      } else {
        assert last !in trail[..|trail| - 1];
      }
    }
  }

  /** `s` with `child` put under `key` at `parent`. */
  function WithEdge(s: Shape, parent: nat, key: Key, child: nat): (r: Shape)
    requires parent < |s|
    ensures |r| == |s| && r[parent] == s[parent][key := child]
    ensures forall i :: 0 <= i < |s| && i != parent ==> r[i] == s[i]
  {
    var grown: map<Key, nat> := s[parent][key := child];
    s[parent := grown]
  }

  /** Putting an existing, later node under a new key keeps the shape ordered and growing. */
  lemma AddEdge(s: Shape, parent: nat, key: Key, child: nat)
    requires Ordered(s) && parent < child < |s|
    ensures Ordered(WithEdge(s, parent, key, child))
    ensures key !in s[parent] ==> Grows(s, WithEdge(s, parent, key, child))
    ensures key in s[parent] && s[parent][key] == child ==> WithEdge(s, parent, key, child) == s
  {
    var t := WithEdge(s, parent, key, child);
    forall i, k | 0 <= i < |t| && k in t[i]
      ensures i < t[i][k] < |t|
    {
      if i != parent {
        assert t[i] == s[i];
      }
    }
    if key in s[parent] && s[parent][key] == child {
      assert s[parent][key := child] == s[parent];
      assert t == s;
    }
  }

  /**
   * A walk from the root over `keys` so far, starting on shape `start`: `trail` is
   * linked, ascending, the shape only grew, and only along the trail.
   */
  ghost predicate Walk(start: Shape, s: Shape, keys: seq<Key>, trail: seq<nat>)
  {
    && 0 < |trail| <= |keys| + 1 && trail[0] == 0
    && (forall m :: 0 <= m < |trail| - 1 ==> trail[m] < trail[m + 1])
    && (forall m :: 0 <= m < |trail| - 1 ==> trail[m] < trail[|trail| - 1])
    && Linked(s, keys, trail)
    && Grows(start, s)
    && OnlyAlong(start, s, keys, trail)
  }

  lemma WalkStart(s: Shape, keys: seq<Key>)
    requires |s| > 0
    ensures Walk(s, s, keys, [0])
  {
  }

  /** One step of a walk: descend from the last node of the trail by the next key. */
  lemma WalkStep(start: Shape, before: Shape, after: Shape, keys: seq<Key>, trail: seq<nat>, child: nat)
    requires Ordered(before) && Walk(start, before, keys, trail) && |trail| <= |keys|
    requires AddsChild(before, after, trail[|trail| - 1], keys[|trail| - 1], child)
    ensures Ordered(after) && Walk(start, after, keys, trail + [child])
  {
    AddsChildGrows(before, after, trail[|trail| - 1], keys[|trail| - 1], child);
    LinkedStep(before, after, keys, trail, child);
    OnlyAlongStep(start, before, after, keys, trail, child);
    GrowsTransitive(start, before, after);
  }

  /** A step of a walk that already succeeded on the starting shape adds nothing. */
  lemma WalkStepExisting(start: Shape, after: Shape, keys: seq<Key>, trail: seq<nat>, child: nat)
    requires Walk(start, start, keys, trail) && |trail| <= |keys|
    requires AddsChild(start, after, trail[|trail| - 1], keys[|trail| - 1], child)
    requires Follow(start, 0, keys).Some?
    ensures after == start
  {
    LinkedFollow(start, keys, trail, |trail| - 1);
    ExistingStep(start, keys, |trail| - 1, trail[|trail| - 1]);
  }

  /** A finished walk ends where `Follow` leads. */
  lemma WalkEnd(start: Shape, s: Shape, keys: seq<Key>, trail: seq<nat>)
    requires Walk(start, s, keys, trail) && |trail| == |keys| + 1
    ensures Follow(s, 0, keys) == Some(trail[|keys|])
  {
    LinkedFollow(s, keys, trail, |keys|);
    assert keys[..|keys|] == keys;
  }

  /** The nodes that following `keys` from the root passes through, the root first. */
  function TrailOf(s: Shape, keys: seq<Key>): (r: seq<nat>)
    ensures |r| == |keys| + 1
  {
    seq(|keys| + 1, m requires 0 <= m <= |keys| =>
      match Follow(s, 0, keys[..m]) case Some(x) => x case None => 0)
  }

  /** A finished walk went through exactly the nodes `TrailOf` names. */
  lemma WalkTrail(start: Shape, s: Shape, keys: seq<Key>, trail: seq<nat>)
    requires Walk(start, s, keys, trail) && |trail| == |keys| + 1
    ensures trail == TrailOf(s, keys)
  {
    forall m | 0 <= m <= |keys| ensures trail[m] == TrailOf(s, keys)[m] {
      LinkedFollow(s, keys, trail, m);
    }
  }

  /** `s` without the child under `key` at the root. */
  function WithoutRootKey(s: Shape, key: Key): (r: Shape)
    requires |s| > 0
    ensures |r| == |s| && key !in r[0]
    ensures forall k :: k in s[0] && k != key ==> k in r[0] && r[0][k] == s[0][k]
    ensures forall i :: 0 < i < |s| ==> r[i] == s[i]
  {
    var shrunk: map<Key, nat> := s[0] - {key};
    s[0 := shrunk]
  }

  /** A new child under the root grows the shape, and taking it away gives the shape back. */
  lemma RootEdge(s: Shape, key: Key, child: nat)
    requires |s| > 0 && key !in s[0]
    ensures Grows(s, WithEdge(s, 0, key, child))
    ensures WithoutRootKey(WithEdge(s, 0, key, child), key) == s
  {
    var t := WithEdge(s, 0, key, child);
    assert WithoutRootKey(t, key)[0] == s[0];
  }

  /**
   * After a finished walk, a node the walk descended from has a child under `k` exactly
   * when it had one before or the walk descended from it by `k`; any other node has
   * the children it had.
   */
  lemma WalkKey(before: Shape, after: Shape, keys: seq<Key>, trail: seq<nat>, j: nat, k: Key)
    requires Walk(before, after, keys, trail) && |trail| == |keys| + 1 && j < |after|
    ensures j !in trail[..|keys|] ==> after[j] == PriorChildren(before, j)
    ensures forall m :: 0 <= m < |keys| && trail[m] == j ==>
      (k in after[j] <==> k in PriorChildren(before, j) || keys[m] == k)
  {
  }
}
