/**
 The B+ tree in the heap: nodes with arrays that are shifted in place, as the source has them.

 The source casts a node pointer to a leaf or an inner node by depth, so one class stands for both.
 Every method is proved against the function of module BTree that says what it computes.
 */
module BTreeHeap {
  import opened BTree

  class Node {
    const keys: array<int>
    const vals: array<int>
    const kids: array<Node?>
    var numKeys: nat
    ghost var tree: Tree
    ghost var repr: set<object>

    // The node's own cells.
    ghost function Cells(): set<object> {
      {this, keys, vals, kids}
    }

    ghost predicate LeafOk(dim: Dim)
      reads this, keys, vals
    {
      && keys.Length == vals.Length == dim.M && keys != vals && numKeys <= dim.M
      && tree == Leaf(keys[..], vals[..numKeys])
      && repr == Cells()
    }

    // The children are subtrees apart from this node's cells and from each other.
    ghost predicate Apart()
      reads this, repr, kids
    {
      && numKeys < kids.Length
      && (forall i :: 0 <= i <= numKeys ==>
            kids[i] != null && kids[i] in repr && kids[i].repr <= repr && kids[i].repr !! Cells())
      && (forall i, j :: 0 <= i < j <= numKeys ==> kids[i].repr !! kids[j].repr)
    }

    ghost predicate InnerOk(dim: Dim, d: nat)
      requires d > 0
      reads this, repr, keys, kids
      decreases d, 0
    {
      && keys.Length == dim.N && kids.Length == dim.N + 1 && numKeys <= dim.N && keys != vals
      && tree.Inner? && tree.keys == keys[..numKeys] && |tree.kids| == numKeys + 1
      && Apart()
      && (forall i :: 0 <= i <= numKeys ==> kids[i].Valid(dim, d - 1) && kids[i].tree == tree.kids[i])
    }

    // The node is the root of a subtree of depth d that stores the value tree in the cells repr.
    ghost predicate Valid(dim: Dim, d: nat)
      reads this, repr
      decreases d, 1
    {
      && Cells() <= repr
      && if d == 0 then LeafOk(dim) else InnerOk(dim, d)
    }

    // new_leaf_node: the keys are zeroed, the values are not.
    constructor NewLeaf(dim: Dim)
      ensures Valid(dim, 0) && fresh(repr)
      ensures keys[..] == seq(dim.M, _ => 0) && numKeys == 0
    {
      keys := new int[dim.M](_ => 0);
      vals := new int[dim.M];
      kids := new Node?[0];
      numKeys := 0;
      new;
      repr := Cells();
      tree := Leaf(keys[..], []);
    }

    // new_inner_node
    constructor NewInner(dim: Dim)
      ensures numKeys == 0 && keys.Length == dim.N && kids.Length == dim.N + 1 && keys != vals
      ensures fresh(Cells())
    {
      keys := new int[dim.N];
      vals := new int[0];
      kids := new Node?[dim.N + 1](_ => null);
      numKeys := 0;
      repr := {};
    }

    // leaf_position_for
    method LeafPosition(key: int) returns (k: nat)
      requires numKeys <= keys.Length
      ensures k == LeafPos(key, keys[..numKeys])
    {
      k := 0;
      while k < numKeys && keys[k] < key
        invariant k <= numKeys
        invariant forall j :: 0 <= j < k ==> keys[j] < key
      {
        k := k + 1;
      }
      LeafPosIs(key, keys[..numKeys], k);
    }

    // inner_position_for
    method InnerPosition(key: int) returns (k: nat)
      requires numKeys <= keys.Length
      ensures k == InnerPos(key, keys[..numKeys])
    {
      k := 0;
      while k < numKeys && keys[k] <= key
        invariant k <= numKeys
        invariant forall j :: 0 <= j < k ==> keys[j] <= key
      {
        k := k + 1;
      }
      InnerPosIs(key, keys[..numKeys], k);
    }

    // leaf_insert_nonfull: overwrite the value if the slot holds the key, else shift and store.
    method LeafInsertNonfull(dim: Dim, key: int, val: int, index: nat)
      requires Valid(dim, 0) && index <= numKeys < dim.M
      modifies this`numKeys, this`tree, keys, vals
      ensures Valid(dim, 0)
      ensures tree == LeafPut(old(tree).slots, old(tree).vals, index, key, val)
    {
      ghost var ks, vs := keys[..], vals[..];
      if keys[index] == key {
        vals[index] := val;
        assert vals[..] == vs[index := val];
      } else {
        ShiftLeaf(index);
        StoreShifted(ks, index, numKeys, key);
        StoreShifted(vs, index, numKeys, val);
        numKeys := numKeys + 1;
        keys[index] := key;
        vals[index] := val;
        assert keys[..] == Shifted(ks, index, numKeys - 1)[index := key];
        assert vals[..] == Shifted(vs, index, numKeys - 1)[index := val];
      }
      tree := Leaf(keys[..], vals[..numKeys]);
    }

    // Move the entries from index on up by one.
    method ShiftLeaf(index: nat)
      requires index <= numKeys < keys.Length == vals.Length && keys != vals
      modifies keys, vals
      ensures keys[..] == Shifted(old(keys[..]), index, numKeys)
      ensures vals[..] == Shifted(old(vals[..]), index, numKeys)
    {
      ghost var ks, vs := keys[..], vals[..];
      var i := numKeys;
      while i > index
        invariant index <= i <= numKeys
        invariant keys[..] == Shifted(ks, i, numKeys) && vals[..] == Shifted(vs, i, numKeys)
      {
        ShiftStep(ks, i, numKeys);
        ShiftStep(vs, i, numKeys);
        keys[i] := keys[i - 1];
        vals[i] := vals[i - 1];
        i := i - 1;
      }
    }

    // What an insertion below this node reports: this node holds the left part, and after a split
    // the new sibling holds the right part in cells of its own.
    ghost predicate Reports(dim: Dim, d: nat, r: Ins, wasSplit: bool, sep: int, right: Node?)
      reads this, repr, right, if right == null then {} else right.repr
    {
      Valid(dim, d) &&
      match r
      case One(t) => !wasSplit && tree == t
      case Two(l, s, rt) =>
        wasSplit && tree == l && sep == s &&
        right != null && right.Valid(dim, d) && right.tree == rt && right.repr !! repr
    }

    // Copy the upper keys and values to a fresh leaf.
    method SplitLeaf(dim: Dim) returns (sibling: Node)
      requires dim.Ok() && Valid(dim, 0) && numKeys == dim.M
      modifies this`numKeys, this`tree
      ensures Valid(dim, 0) && tree == Leaf(old(tree).slots, old(tree).vals[..LeafHalf(dim.M)])
      ensures sibling.Valid(dim, 0) && fresh(sibling.repr)
      ensures numKeys == LeafHalf(dim.M) && sibling.numKeys == dim.M - LeafHalf(dim.M)
      ensures sibling.tree == Leaf(Moved(dim, old(tree).slots), old(tree).vals[LeafHalf(dim.M)..])
    {
      var threshold := LeafHalf(dim.M);
      sibling := new Node.NewLeaf(dim);
      sibling.numKeys := numKeys - threshold;
      var j := 0;
      while j < sibling.numKeys
        invariant j <= sibling.numKeys == dim.M - threshold
        invariant forall m {:trigger sibling.keys[m]} :: 0 <= m < dim.M ==>
          sibling.keys[m] == if m < j then keys[threshold + m] else 0
        invariant forall m {:trigger sibling.vals[m]} :: 0 <= m < j ==> sibling.vals[m] == vals[threshold + m]
        modifies sibling.keys, sibling.vals
      {
        sibling.keys[j] := keys[threshold + j];
        sibling.vals[j] := vals[threshold + j];
        j := j + 1;
      }
      numKeys := threshold;
      assert sibling.keys[..] == Moved(dim, keys[..]);
      assert sibling.vals[..sibling.numKeys] == vals[..dim.M][threshold..];
      sibling.tree := Leaf(sibling.keys[..], sibling.vals[..sibling.numKeys]);
      assert vals[..threshold] == vals[..dim.M][..threshold];
      tree := Leaf(keys[..], vals[..numKeys]);
    }

    // leaf_insert
    method LeafInsert(dim: Dim, key: int, val: int) returns (wasSplit: bool, sep: int, right: Node?)
      requires dim.Ok() && Valid(dim, 0)
      modifies this`numKeys, this`tree, keys, vals
      ensures Reports(dim, 0, BTree.LeafInsert(dim, old(tree), key, val), wasSplit, sep, right)
      ensures wasSplit ==> fresh(right.repr)
    {
      wasSplit, sep, right := false, 0, null;
      var i := LeafPosition(key);
      if numKeys == dim.M {
        var sibling := SplitLeaf(dim);
        if i < LeafHalf(dim.M) {
          LeafInsertNonfull(dim, key, val, i);
        } else {
          sibling.LeafInsertNonfull(dim, key, val, i - LeafHalf(dim.M));
        }
        wasSplit, sep, right := true, sibling.keys[0], sibling;
      } else {
        LeafInsertNonfull(dim, key, val, i);
      }
    }

    // The node while the child at index has changed under it: everything but that child is as
    // tree says.
    ghost predicate Opened(dim: Dim, d: nat, index: nat)
      reads *
    {
      && Cells() <= repr
      && keys.Length == dim.N && kids.Length == dim.N + 1 && index <= numKeys <= dim.N && keys != vals
      && tree.Inner? && tree.keys == keys[..numKeys] && |tree.kids| == numKeys + 1
      && (forall i :: 0 <= i <= numKeys ==>
            kids[i] != null && kids[i].repr !! Cells() && kids[i].Valid(dim, d))
      && (forall i :: 0 <= i <= numKeys && i != index ==> kids[i].repr <= repr && kids[i].tree == tree.kids[i])
      && (forall i, j :: 0 <= i < j <= numKeys ==> kids[i].repr !! kids[j].repr)
    }

    // The child changed, but was not split.
    ghost method CloseOne(dim: Dim, d: nat, index: nat)
      requires d > 0 && Opened(dim, d - 1, index)
      modifies this`tree, this`repr
      ensures Valid(dim, d)
      ensures tree == Inner(old(tree).keys, old(tree).kids[index := kids[index].tree])
      ensures repr == old(repr) + kids[index].repr
    {
      tree := Inner(tree.keys, tree.kids[index := kids[index].tree]);
      repr := repr + kids[index].repr;
    }

    // Move the separators from index on, and the children after index, up by one.
    method ShiftInner(index: nat)
      requires index <= numKeys < keys.Length && kids.Length == keys.Length + 1
      modifies keys, kids
      ensures keys[..] == Shifted(old(keys[..]), index, numKeys)
      ensures kids[..] == Shifted(old(kids[..]), index, numKeys + 1)
    {
      ghost var ks, cs := keys[..], kids[..];
      kids[numKeys + 1] := kids[numKeys];
      ShiftStep(cs, numKeys + 1, numKeys + 1);
      var i := numKeys;
      while i != index
        invariant index <= i <= numKeys
        invariant keys[..] == Shifted(ks, i, numKeys)
        invariant kids[..] == Shifted(cs, i, numKeys + 1)
      {
        ShiftStep(ks, i, numKeys);
        ShiftStep(cs, i, numKeys + 1);
        kids[i] := kids[i - 1];
        keys[i] := keys[i - 1];
        i := i - 1;
      }
    }

    // The new separator and sibling go to the end.
    method PlaceLast(sep: int, right: Node)
      requires numKeys < keys.Length && kids.Length == keys.Length + 1
      modifies this`numKeys, keys, kids
      ensures numKeys == old(numKeys) + 1
      ensures keys[..numKeys] == InsertAt(old(keys[..numKeys]), old(numKeys), sep)
      ensures kids[..numKeys + 1] == InsertAt<Node?>(old(kids[..numKeys + 1]), numKeys, right)
    {
      hide InsertAt;
      ghost var ks, cs := keys[..], kids[..];
      keys[numKeys] := sep;
      numKeys := numKeys + 1;
      kids[numKeys] := right;
      StoreLast(ks, numKeys - 1, sep);
      StoreLast<Node?>(cs, numKeys, right);
      assert keys[..] == ks[numKeys - 1 := sep];
      assert kids[..] == cs[numKeys := right];
    }

    // They go before separators and children that are moved up.
    method PlaceBefore(index: nat, sep: int, right: Node)
      requires index < numKeys < keys.Length && kids.Length == keys.Length + 1
      modifies this`numKeys, keys, kids
      ensures numKeys == old(numKeys) + 1
      ensures keys[..numKeys] == InsertAt(old(keys[..numKeys]), index, sep)
      ensures kids[..numKeys + 1] == InsertAt<Node?>(old(kids[..numKeys + 1]), index + 1, right)
    {
      hide InsertAt, Shifted;
      ghost var ks, cs := keys[..], kids[..];
      ShiftInner(index);
      kids[index + 1] := right;
      keys[index] := sep;
      numKeys := numKeys + 1;
      StoreShifted(ks, index, numKeys - 1, sep);
      StoreAfter<Node?>(cs, index, numKeys, right);
      assert keys[..] == Shifted(ks, index, numKeys - 1)[index := sep];
      assert kids[..] == Shifted<Node?>(cs, index, numKeys)[index + 1 := right];
    }

    // The new separator and sibling take their places; result.left is the child itself, which
    // stays where it is.
    method PlaceSibling(index: nat, sep: int, right: Node)
      requires index <= numKeys < keys.Length && kids.Length == keys.Length + 1
      modifies this`numKeys, keys, kids
      ensures numKeys == old(numKeys) + 1
      ensures keys[..numKeys] == InsertAt(old(keys[..numKeys]), index, sep)
      ensures kids[..numKeys + 1] == InsertAt<Node?>(old(kids[..numKeys + 1]), index + 1, right)
    {
      if index == numKeys {
        PlaceLast(sep, right);
      } else {
        PlaceBefore(index, sep, right);
      }
    }

    // The nodes cs and right root subtrees of depth d, apart from each other and from this node.
    ghost predicate KidsApart(dim: Dim, d: nat, cs: seq<Node?>, right: Node)
      reads *
    {
      && (forall i :: 0 <= i < |cs| ==>
            cs[i] != null && cs[i].repr !! Cells() && cs[i].Valid(dim, d) && cs[i].repr !! right.repr)
      && (forall i, j :: 0 <= i < j < |cs| ==> cs[i].repr !! cs[j].repr)
      && right.Valid(dim, d) && right.repr !! Cells()
    }

    // PlaceSibling touches no subtree.
    method PlaceApart(dim: Dim, d: nat, index: nat, sep: int, right: Node)
      requires index <= numKeys < keys.Length && kids.Length == keys.Length + 1
      requires KidsApart(dim, d, kids[..numKeys + 1], right)
      modifies this`numKeys, keys, kids
      ensures numKeys == old(numKeys) + 1
      ensures keys[..numKeys] == InsertAt(old(keys[..numKeys]), index, sep)
      ensures kids[..numKeys + 1] == InsertAt<Node?>(old(kids[..numKeys + 1]), index + 1, right)
      ensures KidsApart(dim, d, old(kids[..numKeys + 1]), right)
      ensures right.tree == old(right.tree) && right.repr == old(right.repr)
      ensures forall i :: 0 <= i <= old(numKeys) ==>
        old(kids[..numKeys + 1])[i].tree == old(kids[i].tree) && old(kids[..numKeys + 1])[i].repr == old(kids[i].repr)
    {
      hide InsertAt;
      PlaceSibling(index, sep, right);
    }

    // The child at index was split: adopt its new sibling.
    method AdoptSplit(dim: Dim, d: nat, index: nat, sep: int, right: Node)
      requires d > 0 && Opened(dim, d - 1, index) && numKeys < dim.N
      requires KidsApart(dim, d - 1, kids[..numKeys + 1], right)
      modifies this`numKeys, this`tree, this`repr, keys, kids
      ensures Valid(dim, d)
      ensures tree == Adopt(old(tree), index, old(kids[index].tree), sep, right.tree)
      ensures repr == old(repr) + old(kids[index].repr) + right.repr
    {
      hide InsertAt, Adopt;
      ghost var left, was := kids[index], tree;
      ghost var cs := kids[..numKeys + 1];
      PlaceApart(dim, d - 1, index, sep, right);
      tree := Adopt(was, index, left.tree, sep, right.tree);
      repr := repr + left.repr + right.repr;
      AdoptedKids(dim, d, index, sep, right, cs, was);
    }

    // After a child was adopted every child is in its place.
    lemma {:induction false} AdoptedKids(dim: Dim, d: nat, index: nat, sep: int, right: Node, cs: seq<Node?>, was: Tree)
      requires d > 0 && index < |cs| && numKeys < kids.Length
      requires kids[..numKeys + 1] == InsertAt<Node?>(cs, index + 1, right)
      requires was.Inner? && |was.kids| == |cs| == |was.keys| + 1
      requires KidsApart(dim, d - 1, cs, right) && right.repr <= repr
      requires forall i :: 0 <= i < |cs| ==> cs[i].repr <= repr && (i != index ==> cs[i].tree == was.kids[i])
      requires tree == Adopt(was, index, cs[index].tree, sep, right.tree)
      requires keys.Length == dim.N && kids.Length == dim.N + 1 && numKeys <= dim.N && keys != vals
      requires tree.keys == keys[..numKeys] && |tree.kids| == numKeys + 1 && Cells() <= repr
      ensures Valid(dim, d)
    {
      hide InsertAt, Adopt;
      forall i | 0 <= i <= numKeys
        ensures kids[i] == if i <= index then cs[i] else if i == index + 1 then right else cs[i - 1]
      {
        assert kids[..numKeys + 1][i] == kids[i];
      }
    }

    // Insertion into the child at index: the rest of the node stays as it is.
    method InsertIntoKid(dim: Dim, d: nat, index: nat, child: Node, key: int, val: int)
      returns (wasSplit: bool, sep: int, right: Node?)
      requires dim.Ok() && d > 0 && Valid(dim, d) && InnerOk(dim, d) && Shaped(dim, tree, d)
      requires index <= numKeys && kids[index] == child
      modifies child.repr
      ensures Opened(dim, d - 1, index) && tree == old(tree) && repr == old(repr) && numKeys == old(numKeys)
      ensures kids[..] == old(kids[..])
      ensures
        child.Reports(dim, d - 1, BTree.InsertInto(dim, old(tree).kids[index], d - 1, key, val), wasSplit, sep, right)
      ensures fresh(child.repr - old(child.repr))
      ensures wasSplit ==> fresh(right.repr - old(child.repr)) && KidsApart(dim, d - 1, kids[..numKeys + 1], right)
      decreases d, 0
    {
      ghost var was := child.repr;
      assert forall i :: 0 <= i <= numKeys && i != index ==> kids[i].repr !! was;
      assert !(this in was || keys in was || kids in was);
      wasSplit, sep, right := child.InsertInto(dim, d - 1, key, val);
      forall i | 0 <= i <= numKeys && i != index
        ensures kids[i].Valid(dim, d - 1) && kids[i].tree == tree.kids[i] && kids[i].repr == old(kids[i].repr)
      {
      }
    }

    // inner_insert_nonfull
    method InnerInsertNonfull(dim: Dim, d: nat, key: int, val: int)
      requires dim.Ok() && d > 0 && Valid(dim, d) && Shaped(dim, tree, d) && |tree.keys| == numKeys < dim.N
      modifies repr
      ensures Valid(dim, d) && fresh(repr - old(repr))
      ensures tree == InsertNonfull(dim, old(tree), d, key, val)
      decreases d, 1
    {
      hide InnerPos, Shaped;
      var index := InnerPosition(key);
      var wasSplit, sep, right := InsertIntoKid(dim, d, index, kids[index], key, val);
      if wasSplit {
        AdoptSplit(dim, d, index, sep, right);
      } else {
        CloseOne(dim, d, index);
      }
    }

    // Copy the upper separators and children to a fresh inner node.
    method CopyUpper(dim: Dim) returns (sibling: Node)
      requires dim.Ok() && keys.Length == dim.N && kids.Length == dim.N + 1 && numKeys == dim.N
      ensures fresh(sibling.Cells()) && sibling.keys != sibling.vals
      ensures sibling.keys.Length == dim.N && sibling.kids.Length == dim.N + 1
      ensures sibling.numKeys == dim.N - InnerHalf(dim.N)
      ensures sibling.keys[..sibling.numKeys] == keys[..][InnerHalf(dim.N)..]
      ensures sibling.kids[..sibling.numKeys + 1] == kids[..][InnerHalf(dim.N)..]
    {
      var threshold := InnerHalf(dim.N);
      sibling := new Node.NewInner(dim);
      sibling.numKeys := numKeys - threshold;
      var i := 0;
      while i < sibling.numKeys
        invariant i <= sibling.numKeys == dim.N - threshold
        invariant forall m {:trigger sibling.keys[m]} :: 0 <= m < i ==> sibling.keys[m] == keys[threshold + m]
        invariant forall m {:trigger sibling.kids[m]} :: 0 <= m < i ==> sibling.kids[m] == kids[threshold + m]
        modifies sibling.keys, sibling.kids
      {
        sibling.keys[i] := keys[threshold + i];
        sibling.kids[i] := kids[threshold + i];
        i := i + 1;
      }
      sibling.kids[sibling.numKeys] := kids[numKeys];
    }

    // The cells of the first h children and those of the others.
    lemma {:induction false} Partition(h: nat) returns (lower: set<object>, upper: set<object>)
      requires h <= numKeys + 1 && Apart()
      ensures forall i :: 0 <= i < h ==> kids[i].repr <= lower
      ensures forall i :: h <= i <= numKeys ==> kids[i].repr <= upper
      ensures lower !! upper && lower !! Cells() && upper !! Cells() && lower + upper <= repr
    {
      hide Union;
      var cs := kids[..numKeys + 1];
      var rs := Reprs(cs);
      assert forall i :: 0 <= i <= numKeys ==> cs[i] == kids[i] && rs[i] == kids[i].repr;
      lower, upper := Union(rs[..h]), Union(rs[h..]);
      UnionBounds(rs[..h], repr - Cells());
      UnionBounds(rs[h..], repr - Cells());
      forall i | 0 <= i < h
        ensures rs[..h][i] !! upper
      {
        assert forall j :: 0 <= j < |rs[h..]| ==> rs[h..][j] == kids[h + j].repr;
        UnionApart(rs[h..], rs[i]);
      }
      UnionApart(rs[..h], upper);
      forall i | h <= i <= numKeys
        ensures kids[i].repr <= upper
      {
        assert rs[h..][i - h] == kids[i].repr;
      }
    }

    // A node is valid once its cells hold the roots of its subtrees.
    lemma {:induction false} Assembled(dim: Dim, d: nat)
      requires d > 0 && keys.Length == dim.N && kids.Length == dim.N + 1 && numKeys <= dim.N && keys != vals
      requires tree.Inner? && tree.keys == keys[..numKeys] && |tree.kids| == numKeys + 1 && Cells() <= repr
      requires forall i :: 0 <= i <= numKeys ==> kids[i] != null && kids[i].repr !! Cells() && kids[i].repr <= repr
      requires forall i :: 0 <= i <= numKeys ==> kids[i].Valid(dim, d - 1) && kids[i].tree == tree.kids[i]
      requires forall i, j :: 0 <= i < j <= numKeys ==> kids[i].repr !! kids[j].repr
      ensures Valid(dim, d)
    {
    }

    // A new sibling takes over the upper part of a full node, with the cells of its children.
    ghost method TakeUpper(dim: Dim, d: nat, from: Node, upper: set<object>)
      requires dim.Ok() && d > 0 && from.InnerOk(dim, d) && from.numKeys == dim.N
      requires from.repr !! Cells() && upper <= from.repr
      requires forall i :: InnerHalf(dim.N) <= i <= dim.N ==> from.kids[i].repr <= upper
      requires keys.Length == dim.N && kids.Length == dim.N + 1 && keys != vals && numKeys == dim.N - InnerHalf(dim.N)
      requires keys[..numKeys] == from.keys[..][InnerHalf(dim.N)..]
      requires kids[..numKeys + 1] == from.kids[..][InnerHalf(dim.N)..]
      modifies this`tree, this`repr
      ensures Valid(dim, d) && tree == RightHalf(dim, from.tree) && repr == Cells() + upper
    {
      var h := InnerHalf(dim.N);
      tree := RightHalf(dim, from.tree);
      repr := Cells() + upper;
      forall i | 0 <= i <= numKeys
        ensures kids[i] == from.kids[h + i] && tree.kids[i] == from.tree.kids[h + i]
      {
        assert kids[..numKeys + 1][i] == kids[i];
      }
      assert tree.keys == keys[..numKeys];
      Assembled(dim, d);
    }

    // A full node keeps its lower part.
    method KeepLower(dim: Dim, d: nat, ghost lower: set<object>)
      requires dim.Ok() && d > 0 && InnerOk(dim, d) && numKeys == dim.N
      requires lower <= repr && forall i :: 0 <= i < InnerHalf(dim.N) ==> kids[i].repr <= lower
      modifies this`numKeys, this`tree, this`repr
      ensures Valid(dim, d) && tree == LeftHalf(dim, old(tree)) && numKeys == InnerHalf(dim.N) - 1
      ensures repr == Cells() + lower
    {
      numKeys := InnerHalf(dim.N) - 1;
      tree := LeftHalf(dim, tree);
      repr := Cells() + lower;
      Assembled(dim, d);
    }

    // The early split of a full inner node.
    method SplitInner(dim: Dim, d: nat) returns (sibling: Node)
      requires dim.Ok() && d > 0 && Valid(dim, d) && InnerOk(dim, d) && numKeys == dim.N
      modifies this`numKeys, this`tree, this`repr
      ensures Valid(dim, d) && tree == LeftHalf(dim, old(tree)) && repr <= old(repr)
      ensures numKeys == InnerHalf(dim.N) - 1 && keys.Length == dim.N && keys[numKeys] == old(tree).keys[numKeys]
      ensures sibling.Valid(dim, d) && sibling.tree == RightHalf(dim, old(tree))
      ensures sibling.numKeys == dim.N - InnerHalf(dim.N)
      ensures sibling.repr !! repr && fresh(sibling.repr - old(repr))
    {
      ghost var lower, upper := Partition(InnerHalf(dim.N));
      sibling := CopyUpper(dim);
      sibling.TakeUpper(dim, d, this, upper);
      KeepLower(dim, d, lower);
    }

    // The cells and the tree of a new root over two subtrees.
    ghost method TakeTwo(dim: Dim, d: nat, left: Node, sep: int, right: Node)
      requires dim.Ok() && left.Valid(dim, d) && right.Valid(dim, d) && left.repr !! right.repr
      requires Cells() !! left.repr && Cells() !! right.repr
      requires keys.Length == dim.N && kids.Length == dim.N + 1 && keys != vals && numKeys == 1
      requires keys[0] == sep && kids[0] == left && kids[1] == right
      modifies this`tree, this`repr
      ensures Valid(dim, d + 1) && tree == Inner([sep], [left.tree, right.tree])
      ensures repr == Cells() + left.repr + right.repr
    {
      tree := Inner([sep], [left.tree, right.tree]);
      repr := Cells() + left.repr + right.repr;
      assert forall i :: 0 <= i <= 1 ==> kids[i] == if i == 0 then left else right;
      Assembled(dim, d + 1);
    }

    // inner_insert
    method InnerInsert(dim: Dim, d: nat, key: int, val: int) returns (wasSplit: bool, sep: int, right: Node?)
      requires dim.Ok() && d > 0 && Valid(dim, d) && Shaped(dim, tree, d)
      modifies repr
      ensures Reports(dim, d, BTree.InnerInsert(dim, old(tree), d, key, val), wasSplit, sep, right)
      ensures fresh(repr - old(repr)) && (wasSplit ==> fresh(right.repr - old(repr)))
      decreases d, 2
    {
      hide InnerPos;
      wasSplit, sep, right := false, 0, null;
      if numKeys == dim.N {
        var sibling := SplitInner(dim, d);
        sep := keys[numKeys];
        if key < sep {
          InnerInsertNonfull(dim, d, key, val);
        } else {
          sibling.InnerInsertNonfull(dim, d, key, val);
        }
        wasSplit, right := true, sibling;
      } else {
        InnerInsertNonfull(dim, d, key, val);
      }
    }

    method InsertInto(dim: Dim, d: nat, key: int, val: int) returns (wasSplit: bool, sep: int, right: Node?)
      requires dim.Ok() && Valid(dim, d) && Shaped(dim, tree, d)
      modifies repr
      ensures Reports(dim, d, BTree.InsertInto(dim, old(tree), d, key, val), wasSplit, sep, right)
      ensures fresh(repr - old(repr)) && (wasSplit ==> fresh(right.repr - old(repr)))
      decreases d, 3
    {
      if d == 0 {
        wasSplit, sep, right := LeafInsert(dim, key, val);
      } else {
        wasSplit, sep, right := InnerInsert(dim, d, key, val);
      }
    }

    // The path of del_tm from this node down, and its write.
    method DeleteIn(dim: Dim, d: nat, key: int) returns (found: bool)
      requires dim.Ok() && Valid(dim, d) && Shaped(dim, tree, d)
      modifies repr
      ensures Valid(dim, d) && repr == old(repr)
      ensures tree == DelIn(dim, old(tree), d, key)
      ensures found == DelHits(LeafFor(dim, old(tree), d, key), key)
      decreases d
    {
      if d == 0 {
        found := DeleteInLeaf(dim, key);
      } else {
        var index := InnerPosition(key);
        found := DeleteInKid(dim, d, index, kids[index], key);
        CloseOne(dim, d, index);
      }
    }

    method DeleteInKid(dim: Dim, d: nat, index: nat, child: Node, key: int) returns (found: bool)
      requires dim.Ok() && d > 0 && Valid(dim, d) && InnerOk(dim, d) && Shaped(dim, tree, d)
      requires index <= numKeys && kids[index] == child
      modifies child.repr
      ensures Opened(dim, d - 1, index) && tree == old(tree) && repr == old(repr) && kids[index] == child
      ensures child.tree == DelIn(dim, old(tree).kids[index], d - 1, key) && child.repr == old(child.repr)
      ensures found == DelHits(LeafFor(dim, old(tree).kids[index], d - 1, key), key)
      ensures child.repr <= repr
      decreases d, 0
    {
      ghost var was := child.repr;
      assert forall i :: 0 <= i <= numKeys && i != index ==> kids[i].repr !! was;
      assert !(this in was || keys in was || kids in was);
      found := child.DeleteIn(dim, d - 1, key);
      forall i | 0 <= i <= numKeys && i != index
        ensures kids[i].Valid(dim, d - 1) && kids[i].tree == tree.kids[i] && kids[i].repr == old(kids[i].repr)
      {
      }
    }

    // The write of del_tm.  A match past the keys writes a value no one reads.
    method DeleteInLeaf(dim: Dim, key: int) returns (found: bool)
      requires Valid(dim, 0)
      modifies this`tree, vals
      ensures Valid(dim, 0) && tree == LeafDel(old(tree), key) && found == DelHits(old(tree), key)
    {
      var index := LeafPosition(key);
      found := index < keys.Length && keys[index] == key;
      if found {
        ghost var vs := vals[..];
        vals[index] := 0;
        assert vals[..] == vs[index := 0];
        tree := Leaf(keys[..], vals[..numKeys]);
      }
    }
  }

  // s with the elements from i to n - 1 moved up by one; the element at i stays behind.
  function Shifted<T>(s: seq<T>, i: nat, n: nat): (r: seq<T>)
    requires i <= n < |s|
    ensures |r| == |s|
    ensures forall j {:trigger r[j]} :: 0 <= j < |s| ==> r[j] == s[if i < j <= n then j - 1 else j]
  {
    s[..i] + [s[i]] + s[i..n] + s[n + 1..]
  }

  // One step of a shifting loop.
  lemma {:induction false} ShiftStep<T>(s: seq<T>, i: nat, n: nat)
    requires 0 < i <= n < |s|
    ensures Shifted(s, n, n) == s
    ensures Shifted(s, i, n)[i - 1] == s[i - 1]
    ensures Shifted(s, i, n)[i := s[i - 1]] == Shifted(s, i - 1, n)
  {
  }

  // Shifting and storing inserts among the first n elements.
  lemma {:induction false} StoreShifted<T>(s: seq<T>, i: nat, n: nat, x: T)
    requires i <= n < |s|
    ensures Shifted(s, i, n)[i := x] == InsertAt(s[..n], i, x) + s[n + 1..]
    ensures Shifted(s, i, n)[i := x][..n + 1] == InsertAt(s[..n], i, x)
  {
  }

  // The same, one place further.
  lemma {:induction false} StoreAfter<T>(s: seq<T>, i: nat, n: nat, x: T)
    requires i < n < |s|
    ensures Shifted(s, i, n)[i] == s[i]
    ensures Shifted(s, i, n)[i + 1 := x][..n + 1] == InsertAt(s[..n], i + 1, x)
  {
  }

  lemma {:induction false} StoreLast<T>(s: seq<T>, n: nat, x: T)
    requires n < |s|
    ensures s[n := x][..n + 1] == InsertAt(s[..n], n, x)
  {
  }

  ghost function CellsOf(n: Node?): set<object>
    reads n
  {
    if n == null then {} else n.repr
  }

  ghost function Reprs(cs: seq<Node?>): (rs: seq<set<object>>)
    reads cs
    ensures |rs| == |cs| && forall i :: 0 <= i < |cs| ==> rs[i] == CellsOf(cs[i])
  {
    if cs == [] then [] else [CellsOf(cs[0])] + Reprs(cs[1..])
  }

  ghost function Union(rs: seq<set<object>>): set<object> {
    if rs == [] then {} else rs[0] + Union(rs[1..])
  }

  lemma {:induction false} UnionBounds(rs: seq<set<object>>, x: set<object>)
    requires forall i :: 0 <= i < |rs| ==> rs[i] <= x
    ensures Union(rs) <= x && forall i :: 0 <= i < |rs| ==> rs[i] <= Union(rs)
  {
    if rs != [] {
      UnionBounds(rs[1..], x);
    }
  }

  lemma {:induction false} UnionApart(rs: seq<set<object>>, x: set<object>)
    requires forall i :: 0 <= i < |rs| ==> rs[i] !! x
    ensures Union(rs) !! x
  {
    if rs != [] {
      UnionApart(rs[1..], x);
    }
  }
}
