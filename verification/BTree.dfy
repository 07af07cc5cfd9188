/**
 The B+ tree as values: what each operation of the tree computes.

 A leaf keeps all M key slots, because insert reads a slot past num_keys and a split leaves stale
 keys there; its num_keys is the length of vals.  An inner node keeps its separators and children.
 A value of 0 is the null that del writes.
 */
module BTree {

  // N keys per inner node, M per leaf.
  datatype Dim = Dim(N: nat, M: nat) {
    predicate Ok() {
      N >= 3 && M >= 2
    }
  }

  datatype Tree =
    | Leaf(slots: seq<int>, vals: seq<int>)
    | Inner(keys: seq<int>, kids: seq<Tree>)

  // The outcome of an insertion into a subtree: was it split?
  datatype Ins = One(t: Tree) | Two(left: Tree, sep: int, right: Tree)

  datatype Option<T> = None | Some(value: T)

  // Leaves at depth 0 and nothing but inner nodes above; enough slots and children to read.
  predicate Shaped(dim: Dim, t: Tree, d: nat)
    decreases d
  {
    match t
    case Leaf(slots, vals) => d == 0 && |vals| <= |slots| == dim.M
    case Inner(keys, kids) =>
      d > 0 && |kids| == |keys| + 1 && |keys| <= dim.N &&
      forall i :: 0 <= i < |kids| ==> Shaped(dim, kids[i], d - 1)
  }

  // leaf_position_for: the number of leading keys below key.
  function LeafPos(key: int, keys: seq<int>): (i: nat)
    ensures i <= |keys|
    ensures forall j :: 0 <= j < i ==> keys[j] < key
    ensures i < |keys| ==> keys[i] >= key
  {
    if keys == [] || keys[0] >= key then 0 else 1 + LeafPos(key, keys[1..])
  }

  // inner_position_for: the number of leading keys at most key.
  function InnerPos(key: int, keys: seq<int>): (i: nat)
    ensures i <= |keys|
    ensures forall j :: 0 <= j < i ==> keys[j] <= key
    ensures i < |keys| ==> keys[i] > key
  {
    if keys == [] || keys[0] > key then 0 else 1 + InnerPos(key, keys[1..])
  }

  // The position is the only index that separates the keys.
  lemma {:induction false} LeafPosIs(x: int, keys: seq<int>, i: nat)
    requires i <= |keys| && (forall j :: 0 <= j < i ==> keys[j] < x) && (i < |keys| ==> x <= keys[i])
    ensures LeafPos(x, keys) == i
  {
  }

  lemma {:induction false} InnerPosIs(x: int, keys: seq<int>, i: nat)
    requires i <= |keys| && (forall j :: 0 <= j < i ==> keys[j] <= x) && (i < |keys| ==> x < keys[i])
    ensures InnerPos(x, keys) == i
  {
  }

  function InsertAt<T>(s: seq<T>, i: nat, x: T): (r: seq<T>)
    requires i <= |s|
    ensures |r| == |s| + 1
    ensures forall j {:trigger r[j]} :: 0 <= j < |r| ==> r[j] == if j < i then s[j] else if j == i then x else s[j - 1]
  {
    s[..i] + [x] + s[i..]
  }

  // leaf_insert_nonfull: overwrite if the slot holds the key, else shift and store.
  function LeafPut(slots: seq<int>, vals: seq<int>, i: nat, key: int, val: int): (r: Tree)
    requires i <= |vals| < |slots|
    ensures r.Leaf? && |r.slots| == |slots| && |vals| <= |r.vals| <= |slots|
  {
    var n := |vals|;
    if slots[i] == key then Leaf(slots, if i < n then vals[i := val] else vals)
    else Leaf(InsertAt(slots[..n], i, key) + slots[n + 1..], InsertAt(vals, i, val))
  }

  function LeafHalf(m: nat): nat {
    (m + 1) / 2
  }

  // The slots of the new sibling of a split leaf: the upper keys, then zeroes.
  function Moved(dim: Dim, slots: seq<int>): (r: seq<int>)
    requires |slots| == dim.M
    ensures |r| == dim.M
    ensures forall i {:trigger r[i]} :: 0 <= i < dim.M ==>
      r[i] == if i < dim.M - LeafHalf(dim.M) then slots[LeafHalf(dim.M) + i] else 0
  {
    slots[LeafHalf(dim.M)..] + seq(LeafHalf(dim.M), _ => 0)
  }

  // leaf_insert
  function LeafInsert(dim: Dim, t: Tree, key: int, val: int): (r: Ins)
    requires dim.Ok() && t.Leaf? && |t.vals| <= |t.slots| == dim.M
  {
    var i := LeafPos(key, t.slots[..|t.vals|]);
    if |t.vals| == dim.M then
      var h := LeafHalf(dim.M);
      var moved := Moved(dim, t.slots);
      if i < h then Two(LeafPut(t.slots, t.vals[..h], i, key, val), moved[0], Leaf(moved, t.vals[h..]))
      else
        var right := LeafPut(moved, t.vals[h..], i - h, key, val);
        Two(Leaf(t.slots, t.vals[..h]), right.slots[0], right)
    else One(LeafPut(t.slots, t.vals, i, key, val))
  }

  function InnerHalf(n: nat): nat {
    (n + 1) / 2
  }

  // The two halves a full inner node is split into; the separator between them moves up.
  function LeftHalf(dim: Dim, t: Tree): Tree
    requires dim.Ok() && t.Inner? && |t.keys| == dim.N && |t.kids| == dim.N + 1
  {
    Inner(t.keys[..InnerHalf(dim.N) - 1], t.kids[..InnerHalf(dim.N)])
  }

  function RightHalf(dim: Dim, t: Tree): Tree
    requires dim.Ok() && t.Inner? && |t.keys| == dim.N && |t.kids| == dim.N + 1
  {
    Inner(t.keys[InnerHalf(dim.N)..], t.kids[InnerHalf(dim.N)..])
  }

  // inner_insert: a full node is split first, whether or not its child will be.
  function InnerInsert(dim: Dim, t: Tree, d: nat, key: int, val: int): Ins
    requires dim.Ok() && Shaped(dim, t, d) && d > 0
    decreases d, 1
  {
    if |t.keys| == dim.N then
      var left, sep, right := LeftHalf(dim, t), t.keys[InnerHalf(dim.N) - 1], RightHalf(dim, t);
      if key < sep then Two(InsertNonfull(dim, left, d, key, val), sep, right)
      else Two(left, sep, InsertNonfull(dim, right, d, key, val))
    else One(InsertNonfull(dim, t, d, key, val))
  }

  // inner_insert_nonfull
  function InsertNonfull(dim: Dim, t: Tree, d: nat, key: int, val: int): Tree
    requires dim.Ok() && Shaped(dim, t, d) && d > 0 && |t.keys| < dim.N
    decreases d, 0
  {
    var i := InnerPos(key, t.keys);
    match InsertInto(dim, t.kids[i], d - 1, key, val)
    case One(c) => Inner(t.keys, t.kids[i := c])
    case Two(left, sep, right) => Adopt(t, i, left, sep, right)
  }

  // The child at i was split in two.
  function Adopt(t: Tree, i: nat, left: Tree, sep: int, right: Tree): (r: Tree)
    requires t.Inner? && i <= |t.keys| && |t.kids| == |t.keys| + 1
    ensures r.Inner? && r.keys == InsertAt(t.keys, i, sep) && |r.kids| == |t.kids| + 1
    ensures forall j {:trigger r.kids[j]} :: 0 <= j < |r.kids| ==>
      r.kids[j] == if j < i then t.kids[j] else if j == i then left else if j == i + 1 then right else t.kids[j - 1]
  {
    Inner(InsertAt(t.keys, i, sep), t.kids[..i] + [left, right] + t.kids[i + 1..])
  }

  function InsertInto(dim: Dim, t: Tree, d: nat, key: int, val: int): Ins
    requires dim.Ok() && Shaped(dim, t, d)
    decreases d, 2
  {
    if d == 0 then LeafInsert(dim, t, key, val) else InnerInsert(dim, t, d, key, val)
  }

  // A tree with its depth.
  datatype Root = Root(t: Tree, d: nat)

  function Empty(dim: Dim): Root {
    Root(Leaf(seq(dim.M, _ => 0), []), 0)
  }

  // insert_tm
  function Insert(dim: Dim, r: Root, key: int, val: int): Root
    requires dim.Ok() && Shaped(dim, r.t, r.d)
  {
    match InsertInto(dim, r.t, r.d, key, val)
    case One(t) => Root(t, r.d)
    case Two(left, sep, right) => Root(Inner([sep], [left, right]), r.d + 1)
  }

  // The leaf that key is routed to.
  function LeafFor(dim: Dim, t: Tree, d: nat, key: int): (r: Tree)
    requires Shaped(dim, t, d)
    ensures r.Leaf? && Shaped(dim, r, 0)
    decreases d
  {
    if d == 0 then t else LeafFor(dim, t.kids[InnerPos(key, t.keys)], d - 1, key)
  }

  // find_tm: the value found, if any; null values are not found.
  function Find(dim: Dim, r: Root, key: int): Option<int>
    requires Shaped(dim, r.t, r.d)
  {
    var leaf := LeafFor(dim, r.t, r.d, key);
    var i := LeafPos(key, leaf.slots[..|leaf.vals|]);
    if i < |leaf.vals| && leaf.slots[i] == key && leaf.vals[i] != 0 then Some(leaf.vals[i]) else None
  }

  // The slot del_tm compares; reading past the last slot counts as no match.
  predicate DelHits(leaf: Tree, key: int)
    requires leaf.Leaf? && |leaf.vals| <= |leaf.slots|
  {
    var i := LeafPos(key, leaf.slots[..|leaf.vals|]);
    i < |leaf.slots| && leaf.slots[i] == key
  }

  // del_tm's answer.
  predicate DelFound(dim: Dim, r: Root, key: int)
    requires Shaped(dim, r.t, r.d)
  {
    DelHits(LeafFor(dim, r.t, r.d, key), key)
  }

  function LeafDel(leaf: Tree, key: int): Tree
    requires leaf.Leaf? && |leaf.vals| <= |leaf.slots|
  {
    var i := LeafPos(key, leaf.slots[..|leaf.vals|]);
    if DelHits(leaf, key) && i < |leaf.vals| then Leaf(leaf.slots, leaf.vals[i := 0]) else leaf
  }

  function DelIn(dim: Dim, t: Tree, d: nat, key: int): Tree
    requires Shaped(dim, t, d)
    decreases d
  {
    if d == 0 then LeafDel(t, key)
    else
      var i := InnerPos(key, t.keys);
      Inner(t.keys, t.kids[i := DelIn(dim, t.kids[i], d - 1, key)])
  }

  // The tree del_tm leaves behind.
  function Del(dim: Dim, r: Root, key: int): Root
    requires Shaped(dim, r.t, r.d)
  {
    Root(DelIn(dim, r.t, r.d, key), r.d)
  }

  // The child findLastLessThan_tm follows: one to the left where key equals a separator.
  function BelowPos(key: int, keys: seq<int>): (i: nat)
    ensures i <= |keys|
  {
    var i := InnerPos(key, keys);
    if i > 0 && key == keys[i - 1] then i - 1 else i
  }

  function LeafBelow(dim: Dim, t: Tree, d: nat, key: int): (r: Tree)
    requires Shaped(dim, t, d)
    ensures r.Leaf? && Shaped(dim, r, 0)
    decreases d
  {
    if d == 0 then t else LeafBelow(dim, t.kids[BelowPos(key, t.keys)], d - 1, key)
  }

  // One descent of findLastLessThan_tm: the entry before key's position in the leaf it reaches.
  function Candidate(dim: Dim, r: Root, key: int): Option<(int, int)>
    requires Shaped(dim, r.t, r.d)
  {
    var leaf := LeafBelow(dim, r.t, r.d, key);
    var i := LeafPos(key, leaf.slots[..|leaf.vals|]);
    if i > 0 then Some((leaf.slots[i - 1], leaf.vals[i - 1])) else None
  }

  // ---------- the finite map a tree stands for ----------

  // Physical keys and their values; a value of 0 marks a deleted key.
  ghost function Contents(t: Tree): map<int, int> {
    match t
    case Leaf(slots, vals) => if |vals| <= |slots| then Pairs(slots[..|vals|], vals) else map[]
    case Inner(_, kids) => AllContents(kids)
  }

  ghost function AllContents(kids: seq<Tree>): map<int, int> {
    if kids == [] then map[] else Contents(kids[0]) + AllContents(kids[1..])
  }

  function Pairs(keys: seq<int>, vals: seq<int>): map<int, int>
    requires |keys| == |vals|
  {
    if keys == [] then map[]
    else Pairs(keys[..|keys| - 1], vals[..|keys| - 1])[keys[|keys| - 1] := vals[|keys| - 1]]
  }

  // The live entries: what a caller sees.
  ghost function Live(m: map<int, int>): map<int, int> {
    map k | k in m && m[k] != 0 :: m[k]
  }

  // The number of physical keys.
  function Size(t: Tree): nat {
    match t
    case Leaf(_, vals) => |vals|
    case Inner(_, kids) => AllSizes(kids)
  }

  function AllSizes(kids: seq<Tree>): nat {
    if kids == [] then 0 else Size(kids[0]) + AllSizes(kids[1..])
  }
}
