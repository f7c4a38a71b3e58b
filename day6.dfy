/**
 * day6.py: the orbit map. Every `target)orbiter` pair makes the orbiter a
 * child of the target; the checksum adds up every object's depth below the
 * centre of mass, and the transfer count goes through the lowest common
 * ancestor of two objects.
 *
 * Every name has exactly one node, so the map from names to the names of
 * their children is the whole object graph; an `Orbit` value is the subtree
 * reachable from one node, as the recursive functions walk it.
 */
module Day6 {
  import opened Wrappers

  // ---------------------------------------------------------------- map_orbits

  /** The object graph by name: each name to the names of its children, in input order. */
  type OrbitMap = map<string, seq<string>>

  /** One pass of the `for target, orbiter in orbits` loop. */
  function AddPair(m: OrbitMap, target: string, orbiter: string): OrbitMap
  {
    var withTarget := if target in m then m else m[target := []];
    var withBoth := if orbiter in withTarget then withTarget else withTarget[orbiter := []];
    withBoth[target := withBoth[target] + [orbiter]]
  }

  /** `map_orbits`, as a fold over the pairs. */
  function MapSpec(pairs: seq<(string, string)>): OrbitMap
  {
    if pairs == [] then map[]
    else
      var last := pairs[|pairs| - 1];
      AddPair(MapSpec(pairs[..|pairs| - 1]), last.0, last.1)
  }

  /** `map_orbits`. */
  method MapOrbits(pairs: seq<(string, string)>) returns (orbitMap: OrbitMap)
    ensures orbitMap == MapSpec(pairs)
  {
    orbitMap := map[];
    var i := 0;
    while i < |pairs|
      invariant 0 <= i <= |pairs|
      invariant orbitMap == MapSpec(pairs[..i])
    {
      var (target, orbiter) := pairs[i];
      if target !in orbitMap {
        orbitMap := orbitMap[target := []];
      }
      if orbiter !in orbitMap {
        orbitMap := orbitMap[orbiter := []];
      }
      orbitMap := orbitMap[target := orbitMap[target] + [orbiter]];
      assert pairs[..i + 1][..i] == pairs[..i];
      i := i + 1;
    }
    assert pairs[..|pairs|] == pairs;
  }

  /** The name appears on one side of some pair. */
  predicate Mentioned(pairs: seq<(string, string)>, name: string)
  {
    exists i :: 0 <= i < |pairs| && (pairs[i].0 == name || pairs[i].1 == name)
  }

  /** The orbiters of the pairs whose target is `name`, in input order. */
  function ChildrenIn(pairs: seq<(string, string)>, name: string): seq<string>
  {
    if pairs == [] then []
    else
      var last := pairs[|pairs| - 1];
      ChildrenIn(pairs[..|pairs| - 1], name) + (if last.0 == name then [last.1] else [])
  }

  /** Every child is itself a node of the map. */
  predicate Closed(m: OrbitMap)
  {
    forall name, i :: name in m && 0 <= i < |m[name]| ==> m[name][i] in m
  }

  /** One pair gives both names a node and appends the orbiter to the target's children. */
  lemma {:induction false} AddPairShape(m: OrbitMap, target: string, orbiter: string, name: string)
    ensures name in AddPair(m, target, orbiter) <==> name in m || name == target || name == orbiter
    ensures name in AddPair(m, target, orbiter) ==>
      AddPair(m, target, orbiter)[name] == (if name in m then m[name] else []) + (if name == target then [orbiter] else [])
  {
  }

  lemma {:induction false} AddPairClosed(m: OrbitMap, target: string, orbiter: string)
    requires Closed(m)
    ensures Closed(AddPair(m, target, orbiter))
  {
    var m' := AddPair(m, target, orbiter);
    forall name, i | name in m' && 0 <= i < |m'[name]|
      ensures m'[name][i] in m'
    {
      AddPairShape(m, target, orbiter, name);
      AddPairShape(m, target, orbiter, m'[name][i]);
      if name in m && i < |m[name]| {
        assert m'[name][i] == m[name][i];
      }
    }
  }

  /**
   * `map_orbits` gives exactly the mentioned names a node, each node's children
   * are the orbiters paired with it in input order, and every child has a node.
   */
  lemma {:induction false} MapShape(pairs: seq<(string, string)>)
    ensures forall name :: name in MapSpec(pairs) <==> Mentioned(pairs, name)
    ensures forall name :: name in MapSpec(pairs) ==> MapSpec(pairs)[name] == ChildrenIn(pairs, name)
    ensures Closed(MapSpec(pairs))
    decreases |pairs|
  {
    if pairs != [] {
      var init, last := pairs[..|pairs| - 1], pairs[|pairs| - 1];
      MapShape(init);
      var m := MapSpec(init);
      assert MapSpec(pairs) == AddPair(m, last.0, last.1);
      AddPairClosed(m, last.0, last.1);
      forall name
        ensures name in MapSpec(pairs) <==> Mentioned(pairs, name)
        ensures name in MapSpec(pairs) ==> MapSpec(pairs)[name] == ChildrenIn(pairs, name)
      {
        AddPairShape(m, last.0, last.1, name);
        MentionedStep(pairs, name);
        if name !in m {
          NotMentionedNoChildren(init, name);
        }
      }
    }
  }

  lemma {:induction false} MentionedStep(pairs: seq<(string, string)>, name: string)
    requires pairs != []
    ensures Mentioned(pairs, name) <==> Mentioned(pairs[..|pairs| - 1], name) || pairs[|pairs| - 1].0 == name || pairs[|pairs| - 1].1 == name
  {
    var init := pairs[..|pairs| - 1];
    if Mentioned(pairs, name) {
      var i :| 0 <= i < |pairs| && (pairs[i].0 == name || pairs[i].1 == name);
      if i < |init| {
        assert init[i] == pairs[i];
      }
    }
    if Mentioned(init, name) {
      var i :| 0 <= i < |init| && (init[i].0 == name || init[i].1 == name);
      assert pairs[i] == init[i];
    }
  }

  lemma {:induction false} NotMentionedNoChildren(pairs: seq<(string, string)>, name: string)
    requires !Mentioned(pairs, name)
    ensures ChildrenIn(pairs, name) == []
    decreases |pairs|
  {
    if pairs != [] {
      var init := pairs[..|pairs| - 1];
      forall i | 0 <= i < |init|
        ensures init[i].0 != name && init[i].1 != name
      {
        assert init[i] == pairs[i];
      }
      NotMentionedNoChildren(init, name);
    }
  }

  // ---------------------------------------------------------------- the object tree

  /** An `OrbitObject` together with everything that orbits it, directly or not. */
  datatype Orbit = Orbit(name: string, children: seq<Orbit>)

  /**
   * The subtree reachable from `name`, unfolded `fuel` levels deep: the nested
   * objects that the recursive functions below walk.
   */
  function Unfold(m: OrbitMap, name: string, fuel: nat): (t: Orbit)
    requires Closed(m) && name in m
    ensures t.name == name
    ensures fuel > 0 ==> |t.children| == |m[name]| && forall i :: 0 <= i < |m[name]| ==> t.children[i].name == m[name][i]
    decreases fuel
  {
    if fuel == 0 then Orbit(name, [])
    else Orbit(name, seq(|m[name]|, i requires 0 <= i < |m[name]| => Unfold(m, m[name][i], fuel - 1)))
  }

  /** Some node of the subtree is named `target`. */
  predicate Contains(t: Orbit, target: string)
  {
    t.name == target || exists i :: 0 <= i < |t.children| && Contains(t.children[i], target)
  }

  /** Each node of `p` is a child of the one before it. */
  predicate Chain(p: seq<Orbit>)
  {
    forall k :: 0 <= k < |p| - 1 ==> p[k + 1] in p[k].children
  }

  // ---------------------------------------------------------------- path_to

  /** `path_to(target, current)`. */
  function PathTo(target: string, current: Orbit): seq<Orbit>
    decreases current, |current.children| + 1
  {
    if current.name == target then [current]
    else
      var path := PathFrom(target, current, 0);
      if path != [] then [current] + path else []
  }

  /** The `for child in current.children` loop of `path_to`, from the `i`-th child on. */
  function PathFrom(target: string, current: Orbit, i: nat): seq<Orbit>
    requires i <= |current.children|
    decreases current, |current.children| - i
  {
    if i == |current.children| then []
    else
      var path := PathTo(target, current.children[i]);
      if path != [] then path else PathFrom(target, current, i + 1)
  }

  /**
   * `path_to` finds nothing exactly when no node of the subtree has the name;
   * otherwise its path runs from `current`, child by child, to a node of that name.
   */
  lemma {:induction false} PathToSpec(target: string, current: Orbit)
    ensures var p := PathTo(target, current);
      (p == [] <==> !Contains(current, target)) &&
      (p != [] ==> p[0] == current && p[|p| - 1].name == target && Chain(p))
    decreases current, |current.children| + 1
  {
    if current.name != target {
      PathFromSpec(target, current, 0);
      var path := PathFrom(target, current, 0);
      if path != [] {
        var p := [current] + path;
        forall k | 0 <= k < |p| - 1
          ensures p[k + 1] in p[k].children
        {
          if k > 0 {
            assert p[k] == path[k - 1] && p[k + 1] == path[k];
          }
        }
      }
    }
  }

  lemma {:induction false} PathFromSpec(target: string, current: Orbit, i: nat)
    requires i <= |current.children|
    ensures var p := PathFrom(target, current, i);
      (p == [] <==> forall j :: i <= j < |current.children| ==> !Contains(current.children[j], target)) &&
      (p != [] ==> p[0] in current.children && p[|p| - 1].name == target && Chain(p))
    decreases current, |current.children| - i
  {
    if i < |current.children| {
      PathToSpec(target, current.children[i]);
      PathFromSpec(target, current, i + 1);
    }
  }

  // ---------------------------------------------------------------- lowest_common_ancestor

  function Names(p: seq<Orbit>): set<string>
  {
    set k | 0 <= k < |p| :: p[k].name
  }

  /** The `for ancestor in reversed(path_to_second)` loop: the last node of `p` whose name is in `names`. */
  function LastNamed(p: seq<Orbit>, names: set<string>): (r: Option<Orbit>)
    ensures r.None? <==> forall k :: 0 <= k < |p| ==> p[k].name !in names
    ensures r.Some? ==> exists k :: (0 <= k < |p| && p[k] == r.value && r.value.name in names &&
      forall j :: k < j < |p| ==> p[j].name !in names)
  {
    if p == [] then None
    else if p[|p| - 1].name in names then Some(p[|p| - 1])
    else
      var r := LastNamed(p[..|p| - 1], names);
      assert forall k :: 0 <= k < |p| - 1 ==> p[..|p| - 1][k] == p[k];
      r
  }

  /** `lowest_common_ancestor`; `None` where the source raises "No common ancestors found". */
  function LowestCommonAncestor(root: Orbit, first: string, second: string): Option<Orbit>
  {
    LastNamed(PathTo(second, root), Names(PathTo(first, root)))
  }

  /**
   * The ancestor is the deepest node on the path to `second` whose name is on the
   * path to `first`; when both names occur below the root there always is one,
   * since both paths start at the root.
   */
  lemma {:induction false} LowestCommonAncestorSpec(root: Orbit, first: string, second: string)
    ensures var p1, p2 := PathTo(first, root), PathTo(second, root);
      var r := LowestCommonAncestor(root, first, second);
      (r.None? <==> forall k :: 0 <= k < |p2| ==> p2[k].name !in Names(p1)) &&
      (r.Some? ==> exists k :: (0 <= k < |p2| && p2[k] == r.value && r.value.name in Names(p1) &&
        forall j :: k < j < |p2| ==> p2[j].name !in Names(p1)))
    ensures Contains(root, first) && Contains(root, second) ==> LowestCommonAncestor(root, first, second).Some?
  {
    PathToSpec(first, root);
    PathToSpec(second, root);
    var p1, p2 := PathTo(first, root), PathTo(second, root);
    if p1 != [] && p2 != [] {
      assert p2[0].name in Names(p1);
    }
  }

  // ---------------------------------------------------------------- orbit_checksum

  /** `orbit_checksum(orbiter, depth)`, as a value. */
  function Checksum(orbiter: Orbit, depth: int): int
    decreases orbiter, |orbiter.children| + 1
  {
    depth + ChecksumFrom(orbiter, depth + 1, 0)
  }

  /** The `sum(orbit_checksum(child, depth + 1) ...)` part, from the `i`-th child on. */
  function ChecksumFrom(orbiter: Orbit, depth: int, i: nat): int
    requires i <= |orbiter.children|
    decreases orbiter, |orbiter.children| - i
  {
    if i == |orbiter.children| then 0 else Checksum(orbiter.children[i], depth) + ChecksumFrom(orbiter, depth, i + 1)
  }

  /** The `orbits` fields after `orbit_checksum`, by name: each visited node gets its depth, in visiting order. */
  function Assign(orbiter: Orbit, depth: int, orbits: map<string, int>): map<string, int>
    decreases orbiter, |orbiter.children| + 1
  {
    AssignFrom(orbiter, depth + 1, 0, orbits[orbiter.name := depth])
  }

  function AssignFrom(orbiter: Orbit, depth: int, i: nat, orbits: map<string, int>): map<string, int>
    requires i <= |orbiter.children|
    decreases orbiter, |orbiter.children| - i
  {
    if i == |orbiter.children| then orbits
    else AssignFrom(orbiter, depth, i + 1, Assign(orbiter.children[i], depth, orbits))
  }

  /** The nodes of a subtree in the order `orbit_checksum` visits them, each with its depth. */
  function Labels(orbiter: Orbit, depth: int): seq<(string, int)>
    decreases orbiter, |orbiter.children| + 1
  {
    [(orbiter.name, depth)] + LabelsFrom(orbiter, depth + 1, 0)
  }

  function LabelsFrom(orbiter: Orbit, depth: int, i: nat): seq<(string, int)>
    requires i <= |orbiter.children|
    decreases orbiter, |orbiter.children| - i
  {
    if i == |orbiter.children| then [] else Labels(orbiter.children[i], depth) + LabelsFrom(orbiter, depth, i + 1)
  }

  /** The depths of a list of labels, added up. */
  function DepthSum(labels: seq<(string, int)>): int
  {
    if labels == [] then 0 else labels[0].1 + DepthSum(labels[1..])
  }

  /** The labels written in order over a map: the last label with a name wins. */
  function Override(orbits: map<string, int>, labels: seq<(string, int)>): map<string, int>
    decreases |labels|
  {
    if labels == [] then orbits else Override(orbits[labels[0].0 := labels[0].1], labels[1..])
  }

  /** The same labels, every depth moved by `e`. */
  function Shift(labels: seq<(string, int)>, e: int): (r: seq<(string, int)>)
    ensures |r| == |labels|
  {
    seq(|labels|, k requires 0 <= k < |labels| => (labels[k].0, labels[k].1 + e))
  }

  lemma {:induction false} DepthSumAppend(a: seq<(string, int)>, b: seq<(string, int)>)
    ensures DepthSum(a + b) == DepthSum(a) + DepthSum(b)
    decreases |a|
  {
    if a == [] {
      assert a + b == b;
    } else {
      assert (a + b)[1..] == a[1..] + b;
      DepthSumAppend(a[1..], b);
    }
  }

  lemma {:induction false} OverrideAppend(m: map<string, int>, a: seq<(string, int)>, b: seq<(string, int)>)
    ensures Override(m, a + b) == Override(Override(m, a), b)
    decreases |a|
  {
    if a == [] {
      assert a + b == b;
    } else {
      assert (a + b)[1..] == a[1..] + b;
      OverrideAppend(m[a[0].0 := a[0].1], a[1..], b);
    }
  }

  /** `orbit_checksum` adds up the depths of every node of the subtree. */
  lemma {:induction false} ChecksumIsDepthSum(orbiter: Orbit, depth: int)
    ensures Checksum(orbiter, depth) == DepthSum(Labels(orbiter, depth))
    decreases orbiter, |orbiter.children| + 1
  {
    ChecksumFromIsDepthSum(orbiter, depth + 1, 0);
    var rest := LabelsFrom(orbiter, depth + 1, 0);
    assert ([(orbiter.name, depth)] + rest)[1..] == rest;
  }

  lemma {:induction false} ChecksumFromIsDepthSum(orbiter: Orbit, depth: int, i: nat)
    requires i <= |orbiter.children|
    ensures ChecksumFrom(orbiter, depth, i) == DepthSum(LabelsFrom(orbiter, depth, i))
    decreases orbiter, |orbiter.children| - i
  {
    if i < |orbiter.children| {
      ChecksumIsDepthSum(orbiter.children[i], depth);
      ChecksumFromIsDepthSum(orbiter, depth, i + 1);
      DepthSumAppend(Labels(orbiter.children[i], depth), LabelsFrom(orbiter, depth, i + 1));
    }
  }

  /** `orbit_checksum` writes each visited node's depth, in visiting order. */
  lemma {:induction false} AssignIsOverride(orbiter: Orbit, depth: int, orbits: map<string, int>)
    ensures Assign(orbiter, depth, orbits) == Override(orbits, Labels(orbiter, depth))
    decreases orbiter, |orbiter.children| + 1
  {
    var rest := LabelsFrom(orbiter, depth + 1, 0);
    AssignFromIsOverride(orbiter, depth + 1, 0, orbits[orbiter.name := depth]);
    assert ([(orbiter.name, depth)] + rest)[1..] == rest;
  }

  lemma {:induction false} AssignFromIsOverride(orbiter: Orbit, depth: int, i: nat, orbits: map<string, int>)
    requires i <= |orbiter.children|
    ensures AssignFrom(orbiter, depth, i, orbits) == Override(orbits, LabelsFrom(orbiter, depth, i))
    decreases orbiter, |orbiter.children| - i
  {
    if i < |orbiter.children| {
      var child := orbiter.children[i];
      AssignIsOverride(child, depth, orbits);
      AssignFromIsOverride(orbiter, depth, i + 1, Assign(child, depth, orbits));
      OverrideAppend(orbits, Labels(child, depth), LabelsFrom(orbiter, depth, i + 1));
    }
  }

  /** Every name of the list gets a field, and no other name changes. */
  lemma {:induction false} OverrideFrame(m: map<string, int>, labels: seq<(string, int)>, name: string)
    ensures name in Override(m, labels) <==> name in m || exists k :: 0 <= k < |labels| && labels[k].0 == name
    ensures (forall k :: 0 <= k < |labels| ==> labels[k].0 != name) && name in m ==> Override(m, labels)[name] == m[name]
    decreases |labels|
  {
    if labels != [] {
      OverrideFrame(m[labels[0].0 := labels[0].1], labels[1..], name);
      if exists k :: 0 <= k < |labels[1..]| && labels[1..][k].0 == name {
        var k :| 0 <= k < |labels[1..]| && labels[1..][k].0 == name;
        assert labels[k + 1].0 == name;
      }
      if k :| 0 <= k < |labels| && labels[k].0 == name {
        if k > 0 {
          assert labels[1..][k - 1].0 == name;
        }
      }
    }
  }

  /** When no name repeats, each name's field ends up holding exactly its own depth. */
  lemma {:induction false} OverrideDistinct(m: map<string, int>, labels: seq<(string, int)>, k: nat)
    requires k < |labels|
    requires forall a, b :: 0 <= a < b < |labels| ==> labels[a].0 != labels[b].0
    ensures labels[k].0 in Override(m, labels) && Override(m, labels)[labels[k].0] == labels[k].1
    decreases |labels|
  {
    var rest := labels[1..];
    if k == 0 {
      forall j | 0 <= j < |rest|
        ensures rest[j].0 != labels[0].0
      {
        assert rest[j] == labels[j + 1];
      }
      OverrideFrame(m[labels[0].0 := labels[0].1], rest, labels[0].0);
    } else {
      assert rest[k - 1] == labels[k];
      OverrideDistinct(m[labels[0].0 := labels[0].1], rest, k - 1);
    }
  }

  lemma {:induction false} ShiftAppend(a: seq<(string, int)>, b: seq<(string, int)>, e: int)
    ensures Shift(a + b, e) == Shift(a, e) + Shift(b, e)
  {
  }

  /** Starting deeper moves every visited node's depth by the same amount. */
  lemma {:induction false} LabelsShift(orbiter: Orbit, depth: int, e: int)
    ensures Labels(orbiter, depth + e) == Shift(Labels(orbiter, depth), e)
    decreases orbiter, |orbiter.children| + 1
  {
    LabelsFromShift(orbiter, depth + 1, 0, e);
    ShiftAppend([(orbiter.name, depth)], LabelsFrom(orbiter, depth + 1, 0), e);
  }

  lemma {:induction false} LabelsFromShift(orbiter: Orbit, depth: int, i: nat, e: int)
    requires i <= |orbiter.children|
    ensures LabelsFrom(orbiter, depth + e, i) == Shift(LabelsFrom(orbiter, depth, i), e)
    decreases orbiter, |orbiter.children| - i
  {
    if i < |orbiter.children| {
      LabelsShift(orbiter.children[i], depth, e);
      LabelsFromShift(orbiter, depth, i + 1, e);
      ShiftAppend(Labels(orbiter.children[i], depth), LabelsFrom(orbiter, depth, i + 1), e);
    }
  }

  /** The root is visited first, at the starting depth. */
  lemma {:induction false} LabelsStart(orbiter: Orbit, depth: int)
    ensures |Labels(orbiter, depth)| > 0 && Labels(orbiter, depth)[0] == (orbiter.name, depth)
  {
  }

  /** The nodes' `orbits` fields, by name; `orbit_checksum` writes them as it walks the tree. */
  class OrbitTable {
    var orbits: map<string, int>

    constructor ()
      ensures orbits == map[]
    {
      orbits := map[];
    }

    /** `orbit_checksum(orbiter, depth)`: returns the checksum and records every visited node's depth. */
    method OrbitChecksum(orbiter: Orbit, depth: int) returns (sum: int)
      modifies this
      ensures sum == Checksum(orbiter, depth)
      ensures orbits == Assign(orbiter, depth, old(orbits))
      decreases orbiter
    {
      orbits := orbits[orbiter.name := depth];
      var total := 0;
      var i := 0;
      while i < |orbiter.children|
        invariant 0 <= i <= |orbiter.children|
        invariant total + ChecksumFrom(orbiter, depth + 1, i) == ChecksumFrom(orbiter, depth + 1, 0)
        invariant AssignFrom(orbiter, depth + 1, i, orbits) == Assign(orbiter, depth, old(orbits))
      {
        var s := OrbitChecksum(orbiter.children[i], depth + 1);
        total := total + s;
        i := i + 1;
      }
      sum := depth + total;
    }
  }
}
