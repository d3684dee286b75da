/**
 * The snapshot forest of one VM: pre-order flattening into a caller's list,
 * and depth-first search for the node that carries a given snapshot.
 */
module Snapshot {
  import opened Wrappers
  import Query

  /** Identity of a `vim.vm.Snapshot` managed object. */
  datatype SnapshotRef = SnapshotRef(moId: string)

  /** One node of the host's snapshot forest (`vim.vm.SnapshotTree`). */
  datatype SnapshotTree = SnapshotTree(
    snapshot: SnapshotRef,
    name: string,
    description: string,
    childSnapshotList: seq<SnapshotTree>)

  /** The pre-order traversal of a forest: each node, then its children's traversal, siblings in order. */
  function PreOrder(forest: seq<SnapshotTree>): seq<SnapshotTree>
    decreases forest
  {
    if forest == [] then []
    else [forest[0]] + PreOrder(forest[0].childSnapshotList) + PreOrder(forest[1..])
  }

  /** The number of nodes in a forest. */
  function NodeCount(forest: seq<SnapshotTree>): nat
    decreases forest
  {
    if forest == [] then 0
    else 1 + NodeCount(forest[0].childSnapshotList) + NodeCount(forest[1..])
  }

  /** The traversal of two forests side by side is the traversal of the first, then of the second. */
  lemma {:induction false} PreOrderOfConcat(a: seq<SnapshotTree>, b: seq<SnapshotTree>)
    ensures PreOrder(a + b) == PreOrder(a) + PreOrder(b)
    decreases a
  {
    if a == [] {
      assert a + b == b;
    } else {
      assert (a + b)[0] == a[0];
      assert (a + b)[1..] == a[1..] + b;
      PreOrderOfConcat(a[1..], b);
    }
  }

  /** The traversal visits every node exactly as often as it occurs: its length is the node count. */
  lemma {:induction false} PreOrderLength(forest: seq<SnapshotTree>)
    ensures |PreOrder(forest)| == NodeCount(forest)
    decreases forest
  {
    if forest != [] {
      PreOrderLength(forest[0].childSnapshotList);
      PreOrderLength(forest[1..]);
    }
  }

  /** Node `i` of the sequence `p` is immediately followed by the traversal of its children. */
  predicate FollowedBySubtree(p: seq<SnapshotTree>, i: nat)
    requires i < |p|
  {
    var sub := PreOrder(p[i].childSnapshotList);
    i + 1 + |sub| <= |p| && p[i + 1 .. i + 1 + |sub|] == sub
  }

  /** The property survives placing the sequence between two others. */
  lemma Embed(u: seq<SnapshotTree>, a: seq<SnapshotTree>, v: seq<SnapshotTree>, k: nat)
    requires k < |a| && FollowedBySubtree(a, k)
    ensures FollowedBySubtree(u + a + v, |u| + k)
  {
    var p := u + a + v;
    var sub := PreOrder(a[k].childSnapshotList);
    assert p[|u| + k] == a[k];
    assert p[|u| + k + 1 .. |u| + k + 1 + |sub|] == a[k + 1 .. k + 1 + |sub|];
  }

  /** A tree's root is followed by the traversal of its children, whatever comes after them. */
  lemma RootFollowedBySubtree(t: SnapshotTree, rest: seq<SnapshotTree>)
    ensures FollowedBySubtree([t] + PreOrder(t.childSnapshotList) + rest, 0)
  {
    var sub := PreOrder(t.childSnapshotList);
    assert ([t] + sub + rest)[1 .. 1 + |sub|] == sub;
  }

  /** The property survives placing another sequence before this one. */
  lemma EmbedAfter(u: seq<SnapshotTree>, a: seq<SnapshotTree>, k: nat)
    requires k < |a| && FollowedBySubtree(a, k)
    ensures FollowedBySubtree(u + a, |u| + k)
  {
    var p := u + a;
    var sub := PreOrder(a[k].childSnapshotList);
    assert p[|u| + k] == a[k];
    assert p[|u| + k + 1 .. |u| + k + 1 + |sub|] == a[k + 1 .. k + 1 + |sub|];
  }

  /** A node inside the root's children keeps the property in the whole tree's traversal. */
  lemma InChildren(t: SnapshotTree, a: seq<SnapshotTree>, b: seq<SnapshotTree>, i: nat)
    requires 0 < i <= |a| && FollowedBySubtree(a, i - 1)
    ensures FollowedBySubtree([t] + a + b, i)
  {
    Embed([t], a, b, i - 1);
  }

  /** A node inside the later siblings keeps the property in the whole forest's traversal. */
  lemma InSiblings(t: SnapshotTree, a: seq<SnapshotTree>, b: seq<SnapshotTree>, i: nat)
    requires |a| < i < 1 + |a| + |b| && FollowedBySubtree(b, i - 1 - |a|)
    ensures FollowedBySubtree([t] + a + b, i)
  {
    EmbedAfter([t] + a, b, i - 1 - |a|);
  }

  /**
   * Every node of the traversal is immediately followed by the traversal of
   * its own children: a parent precedes all of its descendants, and a
   * subtree occupies one contiguous stretch.
   */
  lemma {:induction false} SubtreeFollowsNode(forest: seq<SnapshotTree>, i: nat)
    requires i < |PreOrder(forest)|
    ensures FollowedBySubtree(PreOrder(forest), i)
    decreases forest
  {
    var t := forest[0];
    var a := PreOrder(t.childSnapshotList);
    var b := PreOrder(forest[1..]);
    assert PreOrder(forest) == [t] + a + b;
    if i == 0 {
      RootFollowedBySubtree(t, b);
    } else if i <= |a| {
      SubtreeFollowsNode(t.childSnapshotList, i - 1);
      InChildren(t, a, b, i);
    } else {
      SubtreeFollowsNode(forest[1..], i - 1 - |a|);
      InSiblings(t, a, b, i);
    }
  }

  /** The Python list that `flatten_snapshot_tree` appends to, shared with its caller. */
  class TreeList {
    var items: seq<SnapshotTree>

    constructor(items: seq<SnapshotTree>)
      ensures this.items == items
    {
      this.items := items;
    }

    /** `list.append`. */
    method Append(t: SnapshotTree)
      modifies this
      ensures items == old(items) + [t]
    {
      items := items + [t];
    }
  }

  /**
   * `flatten_snapshot_tree`: appends the pre-order traversal of `fromList`
   * onto `toList`; what `toList` held before stays as an unchanged prefix,
   * and an empty forest leaves it as it was.
   */
  method FlattenSnapshotTree(fromList: seq<SnapshotTree>, toList: TreeList)
    modifies toList
    ensures toList.items == old(toList.items) + PreOrder(fromList)
    decreases fromList
  {
    if |fromList| == 0 {
      return;
    }
    for i := 0 to |fromList|
      invariant toList.items == old(toList.items) + PreOrder(fromList[..i])
    {
      var tree := fromList[i];
      toList.Append(tree);
      FlattenSnapshotTree(tree.childSnapshotList, toList);
      PreOrderOfConcat(fromList[..i], [tree]);
      assert fromList[..i + 1] == fromList[..i] + [tree];
      assert PreOrder([tree]) == [tree] + PreOrder(tree.childSnapshotList) + PreOrder([]);
    }
    assert fromList[..|fromList|] == fromList;
  }

  /** The node-test `find_snapshot_tree` applies: does this node carry the snapshot? */
  function Carries(bySnapshot: SnapshotRef): SnapshotTree -> bool
  {
    (t: SnapshotTree) => t.snapshot == bySnapshot
  }

  /**
   * `find_snapshot_tree`: depth-first search of the forest for the node that
   * carries `bySnapshot`; a node is tested before its children, and an
   * earlier sibling's whole subtree before a later sibling.
   */
  function FindSnapshotTree(fromList: seq<SnapshotTree>, bySnapshot: SnapshotRef): (r: Option<SnapshotTree>)
    ensures r.Some? ==> r.value.snapshot == bySnapshot && r.value in PreOrder(fromList)
    decreases fromList
  {
    if fromList == [] then None
    else
      var tree := fromList[0];
      if tree.snapshot == bySnapshot then Some(tree)
      else
        var matchedChild :=
          if |tree.childSnapshotList| > 0 then FindSnapshotTree(tree.childSnapshotList, bySnapshot) else None;
        if matchedChild.Some? then matchedChild
        else FindSnapshotTree(fromList[1..], bySnapshot)
  }

  /** One step of the search: the root, then the children's forest, then the later siblings. */
  lemma FindStep(fromList: seq<SnapshotTree>, bySnapshot: SnapshotRef)
    requires fromList != []
    ensures var tree := fromList[0];
      var inChildren := FindSnapshotTree(tree.childSnapshotList, bySnapshot);
      FindSnapshotTree(fromList, bySnapshot) ==
        if tree.snapshot == bySnapshot then Some(tree)
        else if inChildren.Some? then inChildren
        else FindSnapshotTree(fromList[1..], bySnapshot)
  {
  }

  /** The search returns exactly the first node, in pre-order, that carries the snapshot. */
  lemma {:induction false} FindIsFirstInPreOrder(fromList: seq<SnapshotTree>, bySnapshot: SnapshotRef)
    ensures FindSnapshotTree(fromList, bySnapshot) == Query.Get(PreOrder(fromList), Carries(bySnapshot))
    decreases fromList
  {
    if fromList != [] {
      var tree := fromList[0];
      var c := Carries(bySnapshot);
      var a := PreOrder(tree.childSnapshotList);
      var b := PreOrder(fromList[1..]);
      FindStep(fromList, bySnapshot);
      FindIsFirstInPreOrder(tree.childSnapshotList, bySnapshot);
      FindIsFirstInPreOrder(fromList[1..], bySnapshot);
      assert PreOrder(fromList) == [tree] + (a + b);
      Query.GetOfCons(tree, a + b, c);
      Query.GetOfConcat(a, b, c);
    }
  }

  /** The search finds nothing exactly when no node of the forest carries the snapshot. */
  lemma FindNoneIffAbsent(fromList: seq<SnapshotTree>, bySnapshot: SnapshotRef)
    ensures FindSnapshotTree(fromList, bySnapshot).None?
      <==> forall i :: 0 <= i < |PreOrder(fromList)| ==> PreOrder(fromList)[i].snapshot != bySnapshot
  {
    FindIsFirstInPreOrder(fromList, bySnapshot);
    var p := PreOrder(fromList);
    assert forall i :: 0 <= i < |p| ==> Carries(bySnapshot)(p[i]) == (p[i].snapshot == bySnapshot);
  }

  /** `SnapshotType`: the (memory, quiesced) flags of each kind of snapshot. */
  datatype SnapshotType = Simple | Quiesced | Memory {
    function IsMemory(): bool { this == Memory }
    function IsQuiesced(): bool { this == Quiesced }
  }

  /** No kind of snapshot is both a memory snapshot and a quiesced one. */
  lemma NeverMemoryAndQuiesced(t: SnapshotType)
    ensures !(t.IsMemory() && t.IsQuiesced())
    ensures t == Simple <==> !t.IsMemory() && !t.IsQuiesced()
  {
  }

  /** `Snapshot`: a snapshot object together with the tree node that describes it. */
  datatype Snapshot = Snapshot(vimObj: SnapshotRef, snapshotTree: SnapshotTree) {
    function Name(): string { snapshotTree.name }
    function Description(): string { snapshotTree.description }
  }

  /**
   * A `Snapshot` built from the node that the search located reports the name
   * and description of the first pre-order node carrying that snapshot.
   */
  lemma {:induction false} FoundSnapshotDescribesFirstNode(fromList: seq<SnapshotTree>, bySnapshot: SnapshotRef, k: nat)
    requires k < |PreOrder(fromList)| && PreOrder(fromList)[k].snapshot == bySnapshot
    requires forall j :: 0 <= j < k ==> PreOrder(fromList)[j].snapshot != bySnapshot
    ensures FindSnapshotTree(fromList, bySnapshot).Some?
    ensures var s := Snapshot(bySnapshot, FindSnapshotTree(fromList, bySnapshot).value);
      s.Name() == PreOrder(fromList)[k].name && s.Description() == PreOrder(fromList)[k].description
  {
    FindIsFirstInPreOrder(fromList, bySnapshot);
    Query.GetIsFirstMatch(PreOrder(fromList), Carries(bySnapshot), k);
  }
}
