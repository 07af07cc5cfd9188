/**
 insert_tm is map update.

 leaf_insert_nonfull compares the slot at the insertion point without asking whether it is in use.
 On well-formed trees that comparison is wrong in exactly one case, FalseHit, which needs key 0.
 */
module BTreeInsert {
  import opened BTree
  import opened BTreeShape

  // The insertion point lies past the keys, and the slot there already holds the key.  A full
  // leaf is split first, and the slot is then a zeroed one of the new sibling.
  predicate FalseHit(leaf: Tree, key: int)
    requires leaf.Leaf? && |leaf.vals| <= |leaf.slots|
  {
    var n := |leaf.vals|;
    LeafPos(key, leaf.slots[..n]) == n && (if n < |leaf.slots| then leaf.slots[n] == key else key == 0)
  }

  // What insertion makes of the contents.
  ghost function Updated(leaf: Tree, m: map<int, int>, key: int, val: int): map<int, int>
    requires leaf.Leaf? && |leaf.vals| <= |leaf.slots|
  {
    if FalseHit(leaf, key) then m else m[key := val]
  }

  // ---------- leaves ----------

  lemma {:induction false} LeafWfFrom(dim: Dim, head: seq<int>, tail: seq<int>, lo: Bound, hi: Bound)
    requires |head| + |tail| == dim.M && Sorted(head) && forall i :: 0 <= i < |head| ==> Within(lo, head[i], hi)
    requires forall i :: 0 <= i < |tail| ==> tail[i] == 0 || (hi.Some? && tail[i] >= hi.value)
    ensures LeafWf(dim, head + tail, |head|, lo, hi)
  {
    assert (head + tail)[..|head|] == head;
  }

  lemma {:induction false} LeafPutWf(dim: Dim, slots: seq<int>, vals: seq<int>, lo: Bound, hi: Bound, key: int,
                                     val: int)
    requires LeafWf(dim, slots, |vals|, lo, hi) && |vals| < dim.M && Within(lo, key, hi)
    ensures var i := LeafPos(key, slots[..|vals|]);
      var r := LeafPut(slots, vals, i, key, val);
      LeafWf(dim, r.slots, |r.vals|, lo, hi)
  {
    hide InsertAt, LeafPos;
    var n := |vals|;
    var i := LeafPos(key, slots[..n]);
    if slots[i] != key {
      assert i < n ==> slots[..n][i] == slots[i];
      SortedInsert(slots[..n], i, key);
      LeafWfFrom(dim, InsertAt(slots[..n], i, key), slots[n + 1..], lo, hi);
    }
  }

  lemma {:induction false} LeafPutContents(dim: Dim, slots: seq<int>, vals: seq<int>, lo: Bound, hi: Bound,
                                           key: int, val: int)
    requires LeafWf(dim, slots, |vals|, lo, hi) && |vals| < dim.M && Within(lo, key, hi)
    ensures var i := LeafPos(key, slots[..|vals|]);
      Contents(LeafPut(slots, vals, i, key, val)) ==
        if i == |vals| && slots[i] == key then Contents(Leaf(slots, vals)) else Contents(Leaf(slots, vals))[key := val]
  {
    var n := |vals|;
    var i := LeafPos(key, slots[..n]);
    var r := LeafPut(slots, vals, i, key, val);
    if slots[i] != key {
      assert i < n ==> slots[..n][i] == slots[i];
      PairsInsert(slots[..n], vals, i, key, val);
      assert r.slots[..n + 1] == InsertAt(slots[..n], i, key);
    } else if i < n {
      PairsSet(slots[..n], vals, i, val);
    }
  }

  // The leaf's first key survives an insertion at or above it.
  lemma {:induction false} LeafPutMin(slots: seq<int>, vals: seq<int>, key: int, val: int)
    requires 1 <= |vals| < |slots| && slots[0] <= key
    ensures var i := LeafPos(key, slots[..|vals|]);
      LeafPut(slots, vals, i, key, val).slots[0] == slots[0]
  {
    var i := LeafPos(key, slots[..|vals|]);
    if i == 0 {
      assert slots[..|vals|][0] == slots[0];
    }
  }

  // The two halves of a full leaf, before the new entry goes into one of them.
  lemma {:induction false} HalvesWf(dim: Dim, t: Tree, lo: Bound, hi: Bound)
    requires dim.Ok() && Wf(dim, t, 0, lo, hi) && |t.vals| == dim.M
    ensures var h := LeafHalf(dim.M);
      var moved := Moved(dim, t.slots);
      && LeafWf(dim, t.slots, h, lo, Some(t.slots[h]))
      && LeafWf(dim, moved, dim.M - h, Some(t.slots[h]), hi)
      && Contents(t) == Contents(Leaf(t.slots, t.vals[..h])) + Contents(Leaf(moved, t.vals[h..]))
  {
    var h := LeafHalf(dim.M);
    var moved := Moved(dim, t.slots);
    assert t.slots[..dim.M] == t.slots;
    assert moved[..dim.M - h] == t.slots[h..];
    PairsSplit(t.slots, t.vals, h);
  }

  // How the result of an insertion into a subtree fits where the subtree was.
  ghost predicate Fits(dim: Dim, t: Tree, r: Ins, d: nat, lo: Bound, hi: Bound, key: int) {
    match r
    case One(t') =>
      Wf(dim, t', d, lo, hi) && (Occupied(dim, t) ==> Occupied(dim, t')) &&
      (HasKeys(t) && MinKey(t) <= key ==> MinKey(t') == MinKey(t))
    case Two(left, sep, right) =>
      Wf(dim, left, d, lo, Some(sep)) && Wf(dim, right, d, Some(sep), hi) &&
      Occupied(dim, left) && Occupied(dim, right) && MinKey(right) == sep && Within(lo, sep, hi) &&
      (MinKey(t) <= key ==> MinKey(left) == MinKey(t))
  }

  ghost function InsContents(r: Ins): map<int, int> {
    match r
    case One(t) => Contents(t)
    case Two(left, _, right) => Contents(left) + Contents(right)
  }

  lemma {:induction false} LeafPosPrefix(key: int, keys: seq<int>, h: nat)
    requires h <= |keys|
    ensures LeafPos(key, keys) < h ==> LeafPos(key, keys[..h]) == LeafPos(key, keys)
    ensures LeafPos(key, keys) >= h ==> LeafPos(key, keys[h..]) == LeafPos(key, keys) - h
  {
    if h > 0 {
      LeafPosPrefix(key, keys[1..], h - 1);
      assert keys[..h][1..] == keys[1..][..h - 1];
      assert keys[1..][h - 1..] == keys[h..];
    } else {
      assert keys[0..] == keys;
    }
  }

  // ---------- a full leaf ----------

  // The two halves of a full leaf and where the new entry goes.
  lemma {:induction false} SplitPoint(dim: Dim, t: Tree, lo: Bound, hi: Bound, key: int)
    requires dim.Ok() && Wf(dim, t, 0, lo, hi) && |t.vals| == dim.M
    ensures var h := LeafHalf(dim.M);
      var i := LeafPos(key, t.slots);
      && t.slots[..dim.M] == t.slots
      && (i < h ==> LeafPos(key, t.slots[..h]) == i && key < t.slots[h])
      && (i >= h ==> LeafPos(key, t.slots[h..]) == i - h && t.slots[h - 1] < key)
  {
    var h := LeafHalf(dim.M);
    assert t.slots[..dim.M] == t.slots;
    LeafPosPrefix(key, t.slots, h);
  }

  lemma {:induction false} SplitLeftFits(dim: Dim, t: Tree, lo: Bound, hi: Bound, key: int, val: int)
    requires dim.Ok() && Wf(dim, t, 0, lo, hi) && |t.vals| == dim.M && Within(lo, key, hi)
    requires LeafPos(key, t.slots) < LeafHalf(dim.M) && t.slots[..dim.M] == t.slots
    ensures Fits(dim, t, LeafInsert(dim, t, key, val), 0, lo, hi, key)
  {
    var h := LeafHalf(dim.M);
    HalvesWf(dim, t, lo, hi);
    SplitPoint(dim, t, lo, hi, key);
    LeafPutWf(dim, t.slots, t.vals[..h], lo, Some(t.slots[h]), key, val);
    if t.slots[0] <= key {
      LeafPutMin(t.slots, t.vals[..h], key, val);
    }
  }

  // Any bound between the two halves separates them.
  lemma {:induction false} HalvesAt(dim: Dim, t: Tree, lo: Bound, hi: Bound, sep: int)
    requires dim.Ok() && Wf(dim, t, 0, lo, hi) && |t.vals| == dim.M
    requires t.slots[LeafHalf(dim.M) - 1] < sep <= t.slots[LeafHalf(dim.M)]
    ensures var h := LeafHalf(dim.M);
      && LeafWf(dim, Moved(dim, t.slots), dim.M - h, Some(sep), hi)
      && LeafWf(dim, t.slots, h, lo, Some(sep))
  {
    HalvesWf(dim, t, lo, hi);
    var h := LeafHalf(dim.M);
    assert forall i :: 0 <= i < h - 1 ==> t.slots[..dim.M][i] < t.slots[..dim.M][h - 1];
    assert t.slots[..dim.M] == t.slots;
  }

  lemma {:induction false} SplitLeftContents(dim: Dim, t: Tree, lo: Bound, hi: Bound, key: int, val: int)
    requires dim.Ok() && Wf(dim, t, 0, lo, hi) && |t.vals| == dim.M && Within(lo, key, hi)
    requires LeafPos(key, t.slots) < LeafHalf(dim.M) && t.slots[..dim.M] == t.slots
    ensures InsContents(LeafInsert(dim, t, key, val)) == Contents(t)[key := val]
  {
    var h := LeafHalf(dim.M);
    var a, b := Leaf(t.slots, t.vals[..h]), Leaf(Moved(dim, t.slots), t.vals[h..]);
    HalvesWf(dim, t, lo, hi);
    SplitPoint(dim, t, lo, hi, key);
    LeafPutContents(dim, t.slots, t.vals[..h], lo, Some(t.slots[h]), key, val);
    NotInRight(dim, b, Some(t.slots[h]), hi, key);
    PutLeft(Contents(a), Contents(b), key, val);
  }

  lemma {:induction false} NotInRight(dim: Dim, b: Tree, lo: Bound, hi: Bound, key: int)
    requires Wf(dim, b, 0, lo, hi) && lo.Some? && key < lo.value
    ensures key !in Contents(b)
  {
    if key in Contents(b) {
      ContentsWithin(dim, b, 0, lo, hi, key);
    }
  }

  lemma {:induction false} PutLeft(a: map<int, int>, b: map<int, int>, key: int, val: int)
    requires key !in b
    ensures a[key := val] + b == (a + b)[key := val]
  {
  }

  lemma {:induction false} PutRight(a: map<int, int>, b: map<int, int>, key: int, val: int)
    ensures a + b[key := val] == (a + b)[key := val]
  {
  }

  // The sibling an insertion to the right of the split point ends in.
  function RightSibling(dim: Dim, t: Tree, key: int, val: int): Tree
    requires dim.Ok() && t.Leaf? && |t.vals| == |t.slots| == dim.M
  {
    var h := LeafHalf(dim.M);
    LeafPut(Moved(dim, t.slots), t.vals[h..], LeafPos(key, Moved(dim, t.slots)[..dim.M - h]), key, val)
  }

  lemma {:induction false} SplitRightForm(dim: Dim, t: Tree, lo: Bound, hi: Bound, key: int, val: int)
    requires dim.Ok() && Wf(dim, t, 0, lo, hi) && |t.vals| == dim.M
    requires LeafPos(key, t.slots) >= LeafHalf(dim.M) && t.slots[..dim.M] == t.slots
    ensures var right := RightSibling(dim, t, key, val);
      LeafInsert(dim, t, key, val) == Two(Leaf(t.slots, t.vals[..LeafHalf(dim.M)]), right.slots[0], right)
  {
    SplitPoint(dim, t, lo, hi, key);
    assert Moved(dim, t.slots)[..dim.M - LeafHalf(dim.M)] == t.slots[LeafHalf(dim.M)..];
  }

  lemma {:induction false} SplitRightFits(dim: Dim, t: Tree, lo: Bound, hi: Bound, key: int, val: int)
    requires dim.Ok() && Wf(dim, t, 0, lo, hi) && |t.vals| == dim.M && Within(lo, key, hi)
    requires LeafPos(key, t.slots) >= LeafHalf(dim.M) && t.slots[..dim.M] == t.slots
    ensures Fits(dim, t, LeafInsert(dim, t, key, val), 0, lo, hi, key)
  {
    var h := LeafHalf(dim.M);
    var moved := Moved(dim, t.slots);
    SplitPoint(dim, t, lo, hi, key);
    var sep := if key < t.slots[h] then key else t.slots[h];
    HalvesAt(dim, t, lo, hi, sep);
    RightPut(dim, moved, t.vals[h..], Some(sep), hi, key, val, sep);
    SplitRightForm(dim, t, lo, hi, key, val);
    LeavesFit(dim, t, Leaf(t.slots, t.vals[..h]), sep, RightSibling(dim, t, key, val), lo, hi, key);
  }

  lemma {:induction false} LeavesFit(dim: Dim, t: Tree, left: Tree, sep: int, right: Tree, lo: Bound,
                                     hi: Bound, key: int)
    requires dim.Ok() && left.Leaf? && right.Leaf? && t.Leaf?
    requires LeafWf(dim, left.slots, |left.vals|, lo, Some(sep)) && |left.vals| >= dim.M / 2
    requires LeafWf(dim, right.slots, |right.vals|, Some(sep), hi) && |right.vals| >= dim.M / 2
    requires right.slots[0] == sep && left.slots == t.slots && Within(lo, sep, hi)
    ensures Fits(dim, t, Two(left, sep, right), 0, lo, hi, key)
  {
  }

  // The right half after the insertion starts with the separator.
  lemma {:induction false} RightPut(dim: Dim, slots: seq<int>, vals: seq<int>, lo: Bound, hi: Bound, key: int,
                                    val: int, sep: int)
    requires LeafWf(dim, slots, |vals|, lo, hi) && 1 <= |vals| < dim.M && Within(lo, key, hi)
    requires sep == if key < slots[0] then key else slots[0]
    ensures var r := LeafPut(slots, vals, LeafPos(key, slots[..|vals|]), key, val);
      LeafWf(dim, r.slots, |r.vals|, lo, hi) && r.slots[0] == sep
  {
    LeafPutWf(dim, slots, vals, lo, hi, key, val);
    if slots[0] <= key {
      LeafPutMin(slots, vals, key, val);
    } else {
      assert slots[..|vals|][0] == slots[0];
    }
  }

  // The slot compared past the keys of the new sibling is a zeroed one.
  lemma {:induction false} RightHit(dim: Dim, t: Tree, lo: Bound, hi: Bound, key: int)
    requires dim.Ok() && Wf(dim, t, 0, lo, hi) && |t.vals| == dim.M
    requires LeafPos(key, t.slots) >= LeafHalf(dim.M) && t.slots[..dim.M] == t.slots
    ensures var n := dim.M - LeafHalf(dim.M);
      var moved := Moved(dim, t.slots);
      var i := LeafPos(key, moved[..n]);
      n < dim.M && (FalseHit(t, key) <==> i == n && moved[i] == key)
  {
    SplitPoint(dim, t, lo, hi, key);
    assert Moved(dim, t.slots)[..dim.M - LeafHalf(dim.M)] == t.slots[LeafHalf(dim.M)..];
  }

  lemma {:induction false} RightSiblingContents(dim: Dim, t: Tree, lo: Bound, hi: Bound, key: int, val: int)
    requires dim.Ok() && Wf(dim, t, 0, lo, hi) && |t.vals| == dim.M && Within(lo, key, hi)
    requires LeafPos(key, t.slots) >= LeafHalf(dim.M) && t.slots[..dim.M] == t.slots
    ensures var b := Leaf(Moved(dim, t.slots), t.vals[LeafHalf(dim.M)..]);
      Contents(RightSibling(dim, t, key, val)) == Updated(t, Contents(b), key, val)
  {
    var h := LeafHalf(dim.M);
    SplitPoint(dim, t, lo, hi, key);
    RightHit(dim, t, lo, hi, key);
    var sep := if key < t.slots[h] then key else t.slots[h];
    HalvesAt(dim, t, lo, hi, sep);
    hide LeafPos, Moved, Contents, LeafWf, FalseHit;
    LeafPutContents(dim, Moved(dim, t.slots), t.vals[h..], Some(sep), hi, key, val);
  }

  lemma {:induction false} SplitRightContents(dim: Dim, t: Tree, lo: Bound, hi: Bound, key: int, val: int)
    requires dim.Ok() && Wf(dim, t, 0, lo, hi) && |t.vals| == dim.M && Within(lo, key, hi)
    requires LeafPos(key, t.slots) >= LeafHalf(dim.M) && t.slots[..dim.M] == t.slots
    ensures InsContents(LeafInsert(dim, t, key, val)) == Updated(t, Contents(t), key, val)
  {
    var h := LeafHalf(dim.M);
    var a, b := Leaf(t.slots, t.vals[..h]), Leaf(Moved(dim, t.slots), t.vals[h..]);
    HalvesWf(dim, t, lo, hi);
    SplitRightForm(dim, t, lo, hi, key, val);
    RightSiblingContents(dim, t, lo, hi, key, val);
    PutRight(Contents(a), Contents(b), key, val);
    assert InsContents(LeafInsert(dim, t, key, val)) == Contents(a) + Contents(RightSibling(dim, t, key, val));
  }

  lemma {:induction false} LeafInsertFits(dim: Dim, t: Tree, lo: Bound, hi: Bound, key: int, val: int)
    requires dim.Ok() && Wf(dim, t, 0, lo, hi) && Within(lo, key, hi)
    ensures Fits(dim, t, LeafInsert(dim, t, key, val), 0, lo, hi, key)
    ensures InsContents(LeafInsert(dim, t, key, val)) == Updated(t, Contents(t), key, val)
  {
    if |t.vals| < dim.M {
      LeafPutWf(dim, t.slots, t.vals, lo, hi, key, val);
      LeafPutContents(dim, t.slots, t.vals, lo, hi, key, val);
      if |t.vals| >= 1 && t.slots[0] <= key {
        LeafPutMin(t.slots, t.vals, key, val);
      }
    } else {
      assert t.slots[..dim.M] == t.slots;
      if LeafPos(key, t.slots) < LeafHalf(dim.M) {
        SplitLeftFits(dim, t, lo, hi, key, val);
        SplitLeftContents(dim, t, lo, hi, key, val);
      } else {
        SplitRightFits(dim, t, lo, hi, key, val);
        SplitRightContents(dim, t, lo, hi, key, val);
      }
    }
  }

  // The highest slot leaf_insert_nonfull writes in a leaf of n keys: the one it overwrites, or the one
  // past the keys, where the last of them is shifted to or the new one stored.
  function HighestStore(slots: seq<int>, n: nat, i: nat, key: int): nat
    requires i < |slots|
  {
    if slots[i] == key then i else n
  }

  // The highest slot leaf_insert writes in the half of a full leaf that takes the key.
  function SplitStore(dim: Dim, slots: seq<int>, key: int): nat
    requires |slots| == dim.M >= 1
  {
    var i, h := LeafPos(key, slots), LeafHalf(dim.M);
    if i < h then HighestStore(slots, h, i, key) else HighestStore(Moved(dim, slots), dim.M - h, i - h, key)
  }

  // It is past the slots of the half exactly when a leaf has one slot and the key is below the one it
  // holds: the lower half of the split is then as full as the leaf was.
  lemma {:induction false} SplitStoresPast(dim: Dim, slots: seq<int>, key: int)
    requires |slots| == dim.M >= 1
    ensures SplitStore(dim, slots, key) >= dim.M <==> dim.M == 1 && key < slots[0]
  {
    hide LeafPos;
    if dim.M > 1 {
      assert 1 <= LeafHalf(dim.M) < dim.M;
    }
  }

  // Below its highest store the put is what LeafPut says, and it leaves the slots above alone.
  lemma {:induction false} PutStopsThere(slots: seq<int>, vals: seq<int>, i: nat, key: int, val: int)
    requires i <= |vals| < |slots|
    ensures var r, top := LeafPut(slots, vals, i, key, val), HighestStore(slots, |vals|, i, key);
      && |r.vals| == (if slots[i] == key then |vals| else |vals| + 1)
      && r.slots[top] == (if i < |vals| && slots[i] != key then slots[|vals| - 1] else key)
      && forall j :: top < j < |slots| ==> r.slots[j] == slots[j]
  {
  }

  // ---------- inner nodes ----------

  // A child replaced by the outcome of an insertion into it keeps the node well-formed.
  lemma {:induction false} ReplaceWf(dim: Dim, t: Tree, i: nat, c: Tree, d: nat, lo: Bound, hi: Bound, key: int)
    requires Wf(dim, t, d, lo, hi) && t.Inner? && i < |t.kids| && dim.Ok()
    requires Fits(dim, t.kids[i], One(c), d - 1, Lo(t.keys, lo, i), Hi(t.keys, hi, i), key)
    requires i > 0 ==> t.keys[i - 1] <= key
    ensures Wf(dim, Inner(t.keys, t.kids[i := c]), d, lo, hi)
  {
  }

  // The separator of a split child goes strictly between its neighbours.
  lemma {:induction false} SepBetween(dim: Dim, t: Tree, i: nat, left: Tree, sep: int, right: Tree, d: nat,
                                      lo: Bound, hi: Bound, key: int)
    requires Wf(dim, t, d, lo, hi) && t.Inner? && i < |t.kids| && dim.Ok()
    requires Fits(dim, t.kids[i], Two(left, sep, right), d - 1, Lo(t.keys, lo, i), Hi(t.keys, hi, i), key)
    ensures i > 0 ==> t.keys[i - 1] < sep
    ensures i < |t.keys| ==> sep < t.keys[i]
    ensures Within(lo, sep, hi)
  {
    MinKeyIsLeast(dim, left, d - 1, Lo(t.keys, lo, i), Some(sep));
  }

  lemma {:induction false} AdoptWf(dim: Dim, t: Tree, i: nat, left: Tree, sep: int, right: Tree, d: nat,
                                   lo: Bound, hi: Bound, key: int)
    requires Wf(dim, t, d, lo, hi) && t.Inner? && i < |t.kids| && |t.keys| < dim.N && dim.Ok()
    requires Fits(dim, t.kids[i], Two(left, sep, right), d - 1, Lo(t.keys, lo, i), Hi(t.keys, hi, i), key)
    requires i > 0 ==> t.keys[i - 1] <= key
    ensures Wf(dim, Adopt(t, i, left, sep, right), d, lo, hi)
  {
    SepBetween(dim, t, i, left, sep, right, d, lo, hi, key);
    SortedInsert(t.keys, i, sep);
    var r := Adopt(t, i, left, sep, right);
    forall j | 0 <= j < |r.keys|
      ensures Within(lo, r.keys[j], hi)
    {
    }
    forall j | 0 <= j < |r.kids|
      ensures Wf(dim, r.kids[j], d - 1, Lo(r.keys, lo, j), Hi(r.keys, hi, j)) && Occupied(dim, r.kids[j])
      ensures j > 0 ==> MinKey(r.kids[j]) == r.keys[j - 1]
    {
      AdoptKid(dim, t, i, left, sep, right, d, lo, hi, key, j);
    }
  }

  lemma {:induction false} AdoptKid(dim: Dim, t: Tree, i: nat, left: Tree, sep: int, right: Tree, d: nat,
                                    lo: Bound, hi: Bound, key: int, j: nat)
    requires Wf(dim, t, d, lo, hi) && t.Inner? && i < |t.kids| && dim.Ok() && j <= |t.kids|
    requires Fits(dim, t.kids[i], Two(left, sep, right), d - 1, Lo(t.keys, lo, i), Hi(t.keys, hi, i), key)
    requires i > 0 ==> t.keys[i - 1] <= key
    ensures var r := Adopt(t, i, left, sep, right);
      && Wf(dim, r.kids[j], d - 1, Lo(r.keys, lo, j), Hi(r.keys, hi, j)) && Occupied(dim, r.kids[j])
      && (j > 0 ==> MinKey(r.kids[j]) == r.keys[j - 1])
  {
  }

  // Where a key is routed after a child was split.
  lemma {:induction false} PosAfterInsert(x: int, keys: seq<int>, i: nat, sep: int, keys': seq<int>)
    requires i <= |keys| && |keys'| == |keys| + 1
    requires forall j {:trigger keys'[j]} :: 0 <= j < |keys'| ==>
      keys'[j] == if j < i then keys[j] else if j == i then sep else keys[j - 1]
    requires (i > 0 ==> keys[i - 1] < sep) && (i < |keys| ==> sep < keys[i]) && Sorted(keys)
    ensures var j := InnerPos(x, keys);
      InnerPos(x, keys') == if j < i || (j == i && x < sep) then j else j + 1
  {
    var j := InnerPos(x, keys);
    var j' := if j < i || (j == i && x < sep) then j else j + 1;
    InnerPosIs(x, keys', j');
  }

  // r is t with the child at i replaced by left and right, read element by element.
  ghost predicate Adopted(t: Tree, i: nat, left: Tree, sep: int, right: Tree, r: Tree) {
    && t.Inner? && |t.kids| == |t.keys| + 1 && i <= |t.keys|
    && r.Inner? && |r.keys| == |t.keys| + 1 && |r.kids| == |t.kids| + 1
    && (forall j {:trigger r.keys[j]} :: 0 <= j < |r.keys| ==>
          r.keys[j] == if j < i then t.keys[j] else if j == i then sep else t.keys[j - 1])
    && (forall j {:trigger r.kids[j]} :: 0 <= j < |r.kids| ==>
          r.kids[j] ==
            if j < i then t.kids[j] else if j == i then left else if j == i + 1 then right else t.kids[j - 1])
  }

  lemma {:induction false} AdoptIsAdopted(t: Tree, i: nat, left: Tree, sep: int, right: Tree)
    requires t.Inner? && |t.kids| == |t.keys| + 1 && i <= |t.keys|
    ensures Adopted(t, i, left, sep, right, Adopt(t, i, left, sep, right))
  {
  }

  lemma {:induction false} AdoptRoutes(t: Tree, i: nat, left: Tree, sep: int, right: Tree, r: Tree, x: int)
    requires Adopted(t, i, left, sep, right, r) && Sorted(t.keys)
    requires (i > 0 ==> t.keys[i - 1] < sep) && (i < |t.keys| ==> sep < t.keys[i])
    ensures var j := InnerPos(x, t.keys);
      r.kids[InnerPos(x, r.keys)] == if j != i then t.kids[j] else if x < sep then left else right
  {
    PosAfterInsert(x, t.keys, i, sep, r.keys);
  }

  // ---------- contents of inner nodes ----------

  lemma {:induction false} ReplaceContents(dim: Dim, t: Tree, c: Tree, d: nat, lo: Bound, hi: Bound, key: int, val: int)
    requires Wf(dim, t, d, lo, hi) && t.Inner?
    requires var i := InnerPos(key, t.keys);
      Wf(dim, Inner(t.keys, t.kids[i := c]), d, lo, hi) &&
      (Contents(c) == Contents(t.kids[i]) || Contents(c) == Contents(t.kids[i])[key := val])
    ensures var i := InnerPos(key, t.keys);
      Contents(Inner(t.keys, t.kids[i := c])) ==
        if Contents(c) == Contents(t.kids[i]) then Contents(t) else Contents(t)[key := val]
  {
    var i := InnerPos(key, t.keys);
    var r := Inner(t.keys, t.kids[i := c]);
    var b := if Contents(c) == Contents(t.kids[i]) then Contents(t) else Contents(t)[key := val];
    forall x
      ensures Agree(Contents(r), b, x)
    {
      ContentsRouted(dim, t, d, lo, hi, x);
      ContentsRouted(dim, r, d, lo, hi, x);
    }
    AgreeEverywhere(Contents(r), b);
  }

  lemma {:induction false} AdoptContents(dim: Dim, t: Tree, left: Tree, sep: int, right: Tree, d: nat,
                                         lo: Bound, hi: Bound, m: map<int, int>, key: int, val: int)
    requires Wf(dim, t, d, lo, hi) && t.Inner? && dim.Ok()
    requires var i := InnerPos(key, t.keys);
      && Fits(dim, t.kids[i], Two(left, sep, right), d - 1, Lo(t.keys, lo, i), Hi(t.keys, hi, i), key)
      && Wf(dim, Adopt(t, i, left, sep, right), d, lo, hi)
      && m == Contents(left) + Contents(right)
      && (m == Contents(t.kids[i]) || m == Contents(t.kids[i])[key := val])
    ensures var i := InnerPos(key, t.keys);
      Contents(Adopt(t, i, left, sep, right)) ==
        if m == Contents(t.kids[i]) then Contents(t) else Contents(t)[key := val]
  {
    var i := InnerPos(key, t.keys);
    var r := Adopt(t, i, left, sep, right);
    var b := if m == Contents(t.kids[i]) then Contents(t) else Contents(t)[key := val];
    SepBetween(dim, t, i, left, sep, right, d, lo, hi, key);
    AdoptIsAdopted(t, i, left, sep, right);
    forall x
      ensures Agree(Contents(r), b, x)
    {
      AdoptContentsAt(dim, t, i, left, sep, right, r, d, lo, hi, x);
      ContentsRouted(dim, t, d, lo, hi, x);
    }
    AgreeEverywhere(Contents(r), b);
  }

  lemma {:induction false} AdoptContentsAt(dim: Dim, t: Tree, i: nat, left: Tree, sep: int, right: Tree,
                                           r: Tree, d: nat, lo: Bound, hi: Bound, x: int)
    requires Wf(dim, t, d, lo, hi) && t.Inner? && i <= |t.keys|
    requires (i > 0 ==> t.keys[i - 1] < sep) && (i < |t.keys| ==> sep < t.keys[i])
    requires Wf(dim, left, d - 1, Lo(t.keys, lo, i), Some(sep)) && Wf(dim, right, d - 1, Some(sep), Hi(t.keys, hi, i))
    requires Adopted(t, i, left, sep, right, r) && Wf(dim, r, d, lo, hi)
    ensures var j := InnerPos(x, t.keys);
      Agree(Contents(r), if j == i then Contents(left) + Contents(right) else Contents(t.kids[j]), x)
  {
    hide Contents, AllContents, InnerPos;
    ContentsRouted(dim, r, d, lo, hi, x);
    AdoptRoutes(t, i, left, sep, right, r, x);
    SidesOf(dim, left, right, d - 1, Lo(t.keys, lo, i), sep, Hi(t.keys, hi, i), x);
  }

  // A key is found in the half it is on.
  lemma {:induction false} SidesOf(dim: Dim, left: Tree, right: Tree, d: nat, lo: Bound, sep: int, hi: Bound, x: int)
    requires Wf(dim, left, d, lo, Some(sep)) && Wf(dim, right, d, Some(sep), hi)
    ensures Agree(Contents(left) + Contents(right), if x < sep then Contents(left) else Contents(right), x)
  {
    if x in Contents(left) {
      ContentsWithin(dim, left, d, lo, Some(sep), x);
    }
    if x in Contents(right) {
      ContentsWithin(dim, right, d, Some(sep), hi, x);
    }
  }

  // ---------- the early split of an inner node ----------

  lemma {:induction false} LeftHalfWf(dim: Dim, t: Tree, d: nat, lo: Bound, hi: Bound)
    requires dim.Ok() && Wf(dim, t, d, lo, hi) && t.Inner? && |t.keys| == dim.N
    ensures Wf(dim, LeftHalf(dim, t), d, lo, Some(t.keys[InnerHalf(dim.N) - 1]))
  {
    hide Shaped, LeafWf, MinKey, Occupied;
    var h := InnerHalf(dim.N);
    var left, sep := LeftHalf(dim, t), Some(t.keys[h - 1]);
    forall i | 0 <= i < |left.kids|
      ensures Wf(dim, left.kids[i], d - 1, Lo(left.keys, lo, i), Hi(left.keys, sep, i))
      ensures Occupied(dim, left.kids[i]) && (i > 0 ==> MinKey(left.kids[i]) == left.keys[i - 1])
    {
      assert left.kids[i] == t.kids[i];
      assert Lo(left.keys, lo, i) == Lo(t.keys, lo, i) && Hi(left.keys, sep, i) == Hi(t.keys, hi, i);
    }
    WfOf(dim, left.keys, left.kids, d, lo, sep);
  }

  lemma {:induction false} RightHalfWf(dim: Dim, t: Tree, d: nat, lo: Bound, hi: Bound)
    requires dim.Ok() && Wf(dim, t, d, lo, hi) && t.Inner? && |t.keys| == dim.N
    ensures Wf(dim, RightHalf(dim, t), d, Some(t.keys[InnerHalf(dim.N) - 1]), hi)
  {
    hide Shaped, LeafWf, MinKey, Occupied;
    var h := InnerHalf(dim.N);
    var right, sep := RightHalf(dim, t), Some(t.keys[h - 1]);
    forall i | 0 <= i < |right.kids|
      ensures Wf(dim, right.kids[i], d - 1, Lo(right.keys, sep, i), Hi(right.keys, hi, i))
      ensures Occupied(dim, right.kids[i]) && (i > 0 ==> MinKey(right.kids[i]) == right.keys[i - 1])
    {
      assert right.kids[i] == t.kids[h + i];
      assert Lo(right.keys, sep, i) == Lo(t.keys, lo, h + i) && Hi(right.keys, hi, i) == Hi(t.keys, hi, h + i);
    }
    WfOf(dim, right.keys, right.kids, d, sep, hi);
  }

  // A node is well-formed if its children are, between its keys.
  lemma {:induction false} WfOf(dim: Dim, keys: seq<int>, kids: seq<Tree>, d: nat, lo: Bound, hi: Bound)
    requires d > 0 && |kids| == |keys| + 1 && 1 <= |keys| <= dim.N && Sorted(keys)
    requires forall i :: 0 <= i < |keys| ==> Within(lo, keys[i], hi)
    requires forall i :: 0 <= i < |kids| ==>
      Wf(dim, kids[i], d - 1, Lo(keys, lo, i), Hi(keys, hi, i)) && Occupied(dim, kids[i])
    requires forall i :: 0 < i < |kids| ==> MinKey(kids[i]) == keys[i - 1]
    ensures Wf(dim, Inner(keys, kids), d, lo, hi)
  {
  }

  lemma {:induction false} InnerHalvesWf(dim: Dim, t: Tree, d: nat, lo: Bound, hi: Bound)
    requires dim.Ok() && Wf(dim, t, d, lo, hi) && t.Inner? && |t.keys| == dim.N
    ensures var sep := t.keys[InnerHalf(dim.N) - 1];
      && Wf(dim, LeftHalf(dim, t), d, lo, Some(sep)) && Wf(dim, RightHalf(dim, t), d, Some(sep), hi)
      && Occupied(dim, LeftHalf(dim, t)) && Occupied(dim, RightHalf(dim, t))
      && MinKey(LeftHalf(dim, t)) == MinKey(t) && MinKey(RightHalf(dim, t)) == sep
  {
    LeftHalfWf(dim, t, d, lo, hi);
    RightHalfWf(dim, t, d, lo, hi);
    assert RightHalf(dim, t).kids[0] == t.kids[InnerHalf(dim.N)];
  }

  // Routing in a half is routing in the node.
  lemma {:induction false} HalfRoutes(dim: Dim, t: Tree, x: int)
    requires dim.Ok() && t.Inner? && |t.keys| == dim.N && |t.kids| == dim.N + 1 && Sorted(t.keys)
    ensures var half := if x < t.keys[InnerHalf(dim.N) - 1] then LeftHalf(dim, t) else RightHalf(dim, t);
      half.kids[InnerPos(x, half.keys)] == t.kids[InnerPos(x, t.keys)]
  {
    var h, j := InnerHalf(dim.N), InnerPos(x, t.keys);
    if x < t.keys[h - 1] {
      InnerPosIs(x, LeftHalf(dim, t).keys, j);
    } else {
      InnerPosIs(x, RightHalf(dim, t).keys, j - h);
    }
  }

  lemma {:induction false} InnerHalvesContents(dim: Dim, t: Tree, d: nat, lo: Bound, hi: Bound)
    requires dim.Ok() && Wf(dim, t, d, lo, hi) && t.Inner? && |t.keys| == dim.N
    ensures Contents(t) == Contents(LeftHalf(dim, t)) + Contents(RightHalf(dim, t))
  {
    var sep := t.keys[InnerHalf(dim.N) - 1];
    var left, right := LeftHalf(dim, t), RightHalf(dim, t);
    var b := Contents(left) + Contents(right);
    InnerHalvesWf(dim, t, d, lo, hi);
    forall x
      ensures Agree(Contents(t), b, x)
    {
      ContentsRouted(dim, t, d, lo, hi, x);
      HalfRoutes(dim, t, x);
      if x < sep {
        ContentsRouted(dim, left, d, lo, Some(sep), x);
      } else {
        ContentsRouted(dim, right, d, Some(sep), hi, x);
      }
      SidesOf(dim, left, right, d, lo, sep, hi, x);
    }
    AgreeEverywhere(Contents(t), b);
  }

  // ---------- insertion into any subtree ----------

  // The updated contents of the subtree t of depth d.
  ghost function Expected(dim: Dim, t: Tree, d: nat, key: int, val: int): map<int, int>
    requires Shaped(dim, t, d)
  {
    Updated(LeafFor(dim, t, d, key), Contents(t), key, val)
  }

  // Updating the child that holds the key updates the node alike.
  lemma {:induction false} ExpectedOfKid(dim: Dim, t: Tree, d: nat, lo: Bound, hi: Bound, key: int, val: int)
    requires Wf(dim, t, d, lo, hi) && t.Inner? && Shaped(dim, t, d)
    ensures var c := t.kids[InnerPos(key, t.keys)];
      var m := Expected(dim, c, d - 1, key, val);
      && LeafFor(dim, t, d, key) == LeafFor(dim, c, d - 1, key)
      && (m == Contents(c) || m == Contents(c)[key := val])
      && Expected(dim, t, d, key, val) == if m == Contents(c) then Contents(t) else Contents(t)[key := val]
  {
    ContentsRouted(dim, t, d, lo, hi, key);
    var c := t.kids[InnerPos(key, t.keys)];
    if Contents(c)[key := val] == Contents(c) {
      assert key in Contents(c) && Contents(c)[key] == val;
      assert Contents(t)[key := val] == Contents(t);
    }
  }

  lemma {:induction false} InsertNonfullFits(dim: Dim, t: Tree, d: nat, lo: Bound, hi: Bound, key: int, val: int)
    requires dim.Ok() && Wf(dim, t, d, lo, hi) && Shaped(dim, t, d) && t.Inner? && |t.keys| < dim.N
    requires Within(lo, key, hi)
    ensures var r := InsertNonfull(dim, t, d, key, val);
      && Wf(dim, r, d, lo, hi) && r.Inner? && |r.kids| >= |t.kids|
      && (MinKey(t) <= key ==> MinKey(r) == MinKey(t))
      && Contents(r) == Expected(dim, t, d, key, val)
    decreases d, 0
  {
    var i := InnerPos(key, t.keys);
    RoutedWithin(t.keys, lo, hi, key);
    InsertIntoFits(dim, t.kids[i], d - 1, Lo(t.keys, lo, i), Hi(t.keys, hi, i), key, val);
    ExpectedOfKid(dim, t, d, lo, hi, key, val);
    match InsertInto(dim, t.kids[i], d - 1, key, val)
    case One(c) =>
      ReplaceWf(dim, t, i, c, d, lo, hi, key);
      ReplaceContents(dim, t, c, d, lo, hi, key, val);
    case Two(left, sep, right) =>
      AdoptWf(dim, t, i, left, sep, right, d, lo, hi, key);
      AdoptContents(dim, t, left, sep, right, d, lo, hi, Contents(left) + Contents(right), key, val);
  }

  lemma {:induction false} InnerInsertFits(dim: Dim, t: Tree, d: nat, lo: Bound, hi: Bound, key: int, val: int)
    requires dim.Ok() && Wf(dim, t, d, lo, hi) && Shaped(dim, t, d) && t.Inner? && Within(lo, key, hi)
    ensures Fits(dim, t, InnerInsert(dim, t, d, key, val), d, lo, hi, key)
    ensures InsContents(InnerInsert(dim, t, d, key, val)) == Expected(dim, t, d, key, val)
    decreases d, 2
  {
    if |t.keys| == dim.N {
      InnerHalvesWf(dim, t, d, lo, hi);
      if key < t.keys[InnerHalf(dim.N) - 1] {
        IntoLeftHalf(dim, t, d, lo, hi, key, val);
      } else {
        IntoRightHalf(dim, t, d, lo, hi, key, val);
      }
    } else {
      InsertNonfullFits(dim, t, d, lo, hi, key, val);
    }
  }

  // The half of a full node that a key goes to, as far as insertion is concerned.
  lemma {:induction false} HalfFacts(dim: Dim, t: Tree, d: nat, lo: Bound, hi: Bound, key: int)
    requires dim.Ok() && Wf(dim, t, d, lo, hi) && Shaped(dim, t, d) && t.Inner? && |t.keys| == dim.N
    ensures var sep := t.keys[InnerHalf(dim.N) - 1];
      var half := if key < sep then LeftHalf(dim, t) else RightHalf(dim, t);
      && Shaped(dim, half, d) && half.Inner? && |half.keys| < dim.N && Within(lo, sep, hi)
      && LeafFor(dim, t, d, key) == LeafFor(dim, half, d, key)
      && (key < sep ==> key !in Contents(RightHalf(dim, t)))
  {
    hide Contents, Pairs, AllContents, MinKey;
    var sep := t.keys[InnerHalf(dim.N) - 1];
    InnerHalvesWf(dim, t, d, lo, hi);
    HalfRoutes(dim, t, key);
    if key < sep {
      WfShaped(dim, LeftHalf(dim, t), d, lo, Some(sep));
      if key in Contents(RightHalf(dim, t)) {
        ContentsWithin(dim, RightHalf(dim, t), d, Some(sep), hi, key);
      }
    } else {
      WfShaped(dim, RightHalf(dim, t), d, Some(sep), hi);
    }
  }

  lemma {:induction false} IntoLeftHalf(dim: Dim, t: Tree, d: nat, lo: Bound, hi: Bound, key: int, val: int)
    requires dim.Ok() && Wf(dim, t, d, lo, hi) && Shaped(dim, t, d) && t.Inner? && |t.keys| == dim.N
    requires Within(lo, key, hi) && key < t.keys[InnerHalf(dim.N) - 1]
    ensures Fits(dim, t, InnerInsert(dim, t, d, key, val), d, lo, hi, key)
    ensures InsContents(InnerInsert(dim, t, d, key, val)) == Expected(dim, t, d, key, val)
    decreases d, 1
  {
    hide Wf, Contents, MinKey, InsertNonfull, LeafFor, LeftHalf, RightHalf;
    var sep := t.keys[InnerHalf(dim.N) - 1];
    var left, right := LeftHalf(dim, t), RightHalf(dim, t);
    InnerHalvesWf(dim, t, d, lo, hi);
    InnerHalvesContents(dim, t, d, lo, hi);
    HalfFacts(dim, t, d, lo, hi, key);
    InsertNonfullFits(dim, left, d, lo, Some(sep), key, val);
    PutLeft(Contents(left), Contents(right), key, val);
  }

  lemma {:induction false} IntoRightHalf(dim: Dim, t: Tree, d: nat, lo: Bound, hi: Bound, key: int, val: int)
    requires dim.Ok() && Wf(dim, t, d, lo, hi) && Shaped(dim, t, d) && t.Inner? && |t.keys| == dim.N
    requires Within(lo, key, hi) && key >= t.keys[InnerHalf(dim.N) - 1]
    ensures Fits(dim, t, InnerInsert(dim, t, d, key, val), d, lo, hi, key)
    ensures InsContents(InnerInsert(dim, t, d, key, val)) == Expected(dim, t, d, key, val)
    decreases d, 1
  {
    hide Wf, Contents, MinKey, InsertNonfull, LeafFor, LeftHalf, RightHalf;
    var sep := t.keys[InnerHalf(dim.N) - 1];
    var left, right := LeftHalf(dim, t), RightHalf(dim, t);
    InnerHalvesWf(dim, t, d, lo, hi);
    InnerHalvesContents(dim, t, d, lo, hi);
    HalfFacts(dim, t, d, lo, hi, key);
    InsertNonfullFits(dim, right, d, Some(sep), hi, key, val);
    PutRight(Contents(left), Contents(right), key, val);
  }

  lemma {:induction false} InsertIntoFits(dim: Dim, t: Tree, d: nat, lo: Bound, hi: Bound, key: int, val: int)
    requires dim.Ok() && Wf(dim, t, d, lo, hi) && Shaped(dim, t, d) && Within(lo, key, hi)
    ensures Fits(dim, t, InsertInto(dim, t, d, key, val), d, lo, hi, key)
    ensures InsContents(InsertInto(dim, t, d, key, val)) == Expected(dim, t, d, key, val)
    decreases d, 3
  {
    if d == 0 {
      LeafInsertFits(dim, t, lo, hi, key, val);
    } else {
      InnerInsertFits(dim, t, d, lo, hi, key, val);
    }
  }

  // ---------- main results ----------

  // insert_tm keeps the tree well-formed and is map update, except where the slot it compares
  // past the keys already holds the key; then the entry is lost.
  lemma {:induction false} InsertKeeps(dim: Dim, r: Root, key: int, val: int)
    requires RootWf(dim, r) && Shaped(dim, r.t, r.d)
    ensures RootWf(dim, Insert(dim, r, key, val))
    ensures Contents(Insert(dim, r, key, val).t) == Expected(dim, r.t, r.d, key, val)
  {
    InsertIntoFits(dim, r.t, r.d, None, None, key, val);
    match InsertInto(dim, r.t, r.d, key, val)
    case One(_) =>
    case Two(left, sep, right) =>
      NewRoot(dim, left, sep, right, r.d);
  }

  lemma {:induction false} NewRoot(dim: Dim, left: Tree, sep: int, right: Tree, d: nat)
    requires dim.Ok() && Wf(dim, left, d, None, Some(sep)) && Wf(dim, right, d, Some(sep), None)
    requires Occupied(dim, left) && Occupied(dim, right) && MinKey(right) == sep
    ensures Wf(dim, Inner([sep], [left, right]), d + 1, None, None)
    ensures Contents(Inner([sep], [left, right])) == Contents(left) + Contents(right)
  {
    assert [left, right][1..] == [right];
    assert AllContents([right]) == Contents(right) + AllContents([]);
  }

  // The false hit needs key 0: every other key is inserted.
  lemma {:induction false} FalseHitNeedsZero(dim: Dim, t: Tree, d: nat, lo: Bound, hi: Bound, key: int)
    requires Wf(dim, t, d, lo, hi) && Shaped(dim, t, d) && Within(lo, key, hi)
    ensures FalseHit(LeafFor(dim, t, d, key), key) ==> key == 0
    ensures FalseHit(LeafFor(dim, t, d, key), key) ==> key !in Contents(t)
    decreases d
  {
    if d > 0 {
      var i := InnerPos(key, t.keys);
      RoutedWithin(t.keys, lo, hi, key);
      FalseHitNeedsZero(dim, t.kids[i], d - 1, Lo(t.keys, lo, i), Hi(t.keys, hi, i), key);
      ContentsRouted(dim, t, d, lo, hi, key);
    } else {
      PairsKeys(t.slots[..|t.vals|], t.vals, key);
    }
  }

  // Insertion is map update exactly when the compared slot is no false hit; for a key other than
  // 0 it always is.
  lemma {:induction false} InsertIsUpdate(dim: Dim, r: Root, key: int, val: int)
    requires RootWf(dim, r) && Shaped(dim, r.t, r.d)
    ensures Contents(Insert(dim, r, key, val).t) == Contents(r.t)[key := val]
      <==> !FalseHit(LeafFor(dim, r.t, r.d, key), key)
    ensures key != 0 ==> Contents(Insert(dim, r, key, val).t) == Contents(r.t)[key := val]
  {
    InsertKeeps(dim, r, key, val);
    FalseHitNeedsZero(dim, r.t, r.d, None, None, key);
    if FalseHit(LeafFor(dim, r.t, r.d, key), key) {
      assert key in Contents(r.t)[key := val];
    }
  }

  // The smallest case: key 0 inserted into the empty tree is lost.
  lemma {:induction false} ZeroIsLost(dim: Dim, val: int)
    requires dim.Ok()
    ensures Shaped(dim, Empty(dim).t, 0)
    ensures 0 !in Contents(Insert(dim, Empty(dim), 0, val).t)
  {
    var r := Empty(dim);
    assert RootWf(dim, r);
    InsertKeeps(dim, r, 0, val);
  }
}
