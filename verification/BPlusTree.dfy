/** The B+ tree object: root and depth, with the operations of the index. */
module BPlusTreeObject {
  import opened BTree
  import opened BTreeShape
  import opened BTreeInsert
  import opened BTreeQuery
  import opened BTreeHeap

  class BPlusTree {
    const dim: Dim
    var depth: nat
    var root: Node

    ghost function View(): Root
      reads this, root
    {
      Root(root.tree, depth)
    }

    // Physical keys and their values; 0 marks a deleted key.
    ghost function Entries(): map<int, int>
      reads this, root
    {
      Contents(root.tree)
    }

    ghost predicate Valid()
      reads this, root, root.repr
    {
      this !in root.repr && root.Valid(dim, depth) && RootWf(dim, View()) && Shaped(dim, root.tree, depth)
    }

    // N > 2 is asserted by the source; it asks M > 0, but a leaf with one slot cannot be split.
    constructor (N: nat, M: nat)
      requires N > 2 && M > 1
      ensures Valid() && fresh(root.repr) && Entries() == map[]
      ensures dim == Dim(N, M)
    {
      dim := Dim(N, M);
      depth := 0;
      root := new Node.NewLeaf(Dim(N, M));
      new;
      EmptyOk(dim);
      WfShaped(dim, Empty(dim).t, 0, None, None);
      assert View() == Empty(dim);
    }

    // insert_tm
    method Insert(key: int, val: int)
      requires Valid()
      modifies this, root.repr
      ensures Valid() && View() == BTree.Insert(dim, old(View()), key, val)
      ensures fresh(root.repr - old(root.repr))
      ensures key != 0 ==> Entries() == old(Entries())[key := val]
    {
      InsertFacts(dim, View(), key, val);
      InsertAtRoot(key, val);
    }

    // Insert below the root; if the root was split, put a new one over the parts.
    method InsertAtRoot(key: int, val: int)
      requires dim.Ok() && this !in root.repr && root.Valid(dim, depth) && Shaped(dim, root.tree, depth)
      modifies this, root.repr
      ensures this !in root.repr && root.Valid(dim, depth)
      ensures View() == BTree.Insert(dim, old(View()), key, val)
      ensures fresh(root.repr - old(root.repr))
    {
      var wasSplit, sep, right := root.InsertInto(dim, depth, key, val);
      if wasSplit {
        root := GrowRoot(dim, depth, root, sep, right);
        depth := depth + 1;
      }
    }

    // find_tm
    method Find(key: int) returns (found: bool, value: int)
      requires Valid()
      ensures found <==> key in Live(Entries())
      ensures found ==> value == Live(Entries())[key]
    {
      hide Contents, InnerPos;
      FindIsLookup(dim, View(), key);
      var node: Node, d: nat := root, depth;
      while d != 0
        invariant node.Valid(dim, d) && Shaped(dim, node.tree, d)
        invariant LeafFor(dim, node.tree, d, key) == LeafFor(dim, root.tree, depth, key)
        decreases d
      {
        var index := node.InnerPosition(key);
        assert node.InnerOk(dim, d);
        node := node.kids[index];
        d := d - 1;
      }
      var index := node.LeafPosition(key);
      found, value := false, 0;
      if index < node.numKeys && node.keys[index] == key {
        value := node.vals[index];
        found := value != 0;
      }
    }

    // del_tm
    method Delete(key: int) returns (found: bool)
      requires Valid()
      modifies root.repr
      ensures Valid() && View() == Del(dim, old(View()), key)
      ensures found == DelFound(dim, old(View()), key)
      ensures Live(Entries()) == old(Live(Entries())) - {key}
      ensures key != 0 ==> (found <==> key in old(Entries()))
    {
      DelFacts(dim, View(), key);
      LiveStep(Entries(), Remove(key));
      found := root.DeleteIn(dim, depth, key);
    }

    // One descent of findLastLessThan_tm.
    method LeafBefore(key: int) returns (leaf: Node)
      requires Valid()
      ensures leaf.Valid(dim, 0) && leaf.tree == LeafBelow(dim, root.tree, depth, key)
    {
      hide Contents, InnerPos, LeafPos;
      var d := depth;
      leaf := root;
      while d != 0
        invariant leaf.Valid(dim, d) && Shaped(dim, leaf.tree, d)
        invariant LeafBelow(dim, leaf.tree, d, key) == LeafBelow(dim, root.tree, depth, key)
        decreases d
      {
        var pos := leaf.InnerPosition(key);
        assert leaf.InnerOk(dim, d);
        if pos > 0 && key == leaf.keys[pos - 1] {
          pos := pos - 1;
        }
        leaf := leaf.kids[pos];
        d := d - 1;
      }
    }

    // findLastLessThan_tm.  A position of -1 stands for the unsigned wrap-around of the source.
    method FindLastLessThan(key: int) returns (found: bool, value: int, outKey: int)
      requires Valid()
      ensures found <==> exists k :: k in Live(Entries()) && k < key
      ensures found ==> outKey in Live(Entries()) && outKey < key && value == Live(Entries())[outKey]
      ensures found ==> forall k :: k in Live(Entries()) && k < key ==> k <= outKey
      decreases |Below(Entries(), key)|
    {
      hide Contents, InnerPos, LeafBelow, Shaped;
      FindLastIsPredecessor(dim, View(), key);
      CandidateIsPredecessor(dim, View(), key);
      var leaf := LeafBefore(key);
      var k := leaf.LeafPosition(key);
      var pos := (k as int) - 1;
      if 0 <= pos < leaf.numKeys && key == leaf.keys[pos] {
        pos := pos - 1;
      }
      found, value, outKey := false, 0, 0;
      if 0 <= pos < leaf.numKeys {
        if leaf.vals[pos] != 0 {
          found, value, outKey := true, leaf.vals[pos], leaf.keys[pos];
        } else {
          FewerBelow(Entries(), leaf.keys[pos], key);
          found, value, outKey := FindLastLessThan(leaf.keys[pos]);
        }
      }
    }
  }

  lemma {:induction false} InsertFacts(dim: Dim, r: Root, key: int, val: int)
    requires RootWf(dim, r) && Shaped(dim, r.t, r.d)
    ensures var r' := BTree.Insert(dim, r, key, val);
      RootWf(dim, r') && Shaped(dim, r'.t, r'.d) && (key != 0 ==> Contents(r'.t) == Contents(r.t)[key := val])
  {
    InsertKeeps(dim, r, key, val);
    InsertIsUpdate(dim, r, key, val);
    WfShaped(dim, BTree.Insert(dim, r, key, val).t, BTree.Insert(dim, r, key, val).d, None, None);
  }

  lemma {:induction false} DelFacts(dim: Dim, r: Root, key: int)
    requires RootWf(dim, r) && Shaped(dim, r.t, r.d)
    ensures var r' := Del(dim, r, key);
      RootWf(dim, r') && Shaped(dim, r'.t, r'.d) &&
      Contents(r'.t) == (if key in Contents(r.t) then Contents(r.t)[key := 0] else Contents(r.t)) &&
      (key != 0 ==> (DelFound(dim, r, key) <==> key in Contents(r.t)))
  {
    DelIsUpdate(dim, r, key);
    WfShaped(dim, Del(dim, r, key).t, r.d, None, None);
  }

  // A new root over the two parts of a split one.
  method GrowRoot(dim: Dim, d: nat, left: Node, sep: int, right: Node) returns (root: Node)
    requires dim.Ok() && left.Valid(dim, d) && right.Valid(dim, d) && left.repr !! right.repr
    ensures root.Valid(dim, d + 1) && root.tree == Inner([sep], [left.tree, right.tree])
    ensures fresh(root.repr - left.repr - right.repr)
  {
    root := new Node.NewInner(dim);
    root.numKeys := 1;
    root.keys[0] := sep;
    root.kids[0] := left;
    root.kids[1] := right;
    root.TakeTwo(dim, d, left, sep, right);
  }
}
