/**
 The shape that every operation of the B+ tree keeps: sorted keys within bounds, leaves at one
 depth, separators equal to the least physical key on their right, occupancy, and stale slots that
 can never be mistaken for a key.
 */
module BTreeShape {
  import opened BTree

  type Bound = Option<int>

  predicate Within(lo: Bound, k: int, hi: Bound) {
    (lo.Some? ==> lo.value <= k) && (hi.Some? ==> k < hi.value)
  }

  ghost predicate Sorted(keys: seq<int>) {
    forall i, j :: 0 <= i < j < |keys| ==> keys[i] < keys[j]
  }

  function Lo(keys: seq<int>, lo: Bound, i: nat): Bound
    requires i <= |keys|
  {
    if i == 0 then lo else Some(keys[i - 1])
  }

  function Hi(keys: seq<int>, hi: Bound, i: nat): Bound
    requires i <= |keys|
  {
    if i == |keys| then hi else Some(keys[i])
  }

  // The least physical key, found down the leftmost path.
  function MinKey(t: Tree): int {
    match t
    case Leaf(slots, _) => if slots == [] then 0 else slots[0]
    case Inner(_, kids) => if kids == [] then 0 else MinKey(kids[0])
  }

  // What every node but the root holds at least.
  predicate Occupied(dim: Dim, t: Tree) {
    match t
    case Leaf(_, vals) => |vals| >= dim.M / 2
    case Inner(_, kids) => |kids| >= (dim.N + 1) / 2
  }

  ghost predicate LeafWf(dim: Dim, slots: seq<int>, n: nat, lo: Bound, hi: Bound) {
    && n <= |slots| == dim.M
    && Sorted(slots[..n])
    && (forall i :: 0 <= i < n ==> Within(lo, slots[i], hi))
    // a slot past the keys holds 0 or a stale key from the right of the leaf
    && (forall i :: n <= i < |slots| ==> slots[i] == 0 || (hi.Some? && slots[i] >= hi.value))
  }

  ghost predicate Wf(dim: Dim, t: Tree, d: nat, lo: Bound, hi: Bound)
    decreases d
  {
    match t
    case Leaf(slots, vals) => d == 0 && LeafWf(dim, slots, |vals|, lo, hi)
    case Inner(keys, kids) =>
      && d > 0 && |kids| == |keys| + 1 && 1 <= |keys| <= dim.N
      && Sorted(keys)
      && (forall i :: 0 <= i < |keys| ==> Within(lo, keys[i], hi))
      && (forall i :: 0 <= i < |kids| ==>
            Wf(dim, kids[i], d - 1, Lo(keys, lo, i), Hi(keys, hi, i)) && Occupied(dim, kids[i]))
      && (forall i :: 0 < i < |kids| ==> MinKey(kids[i]) == keys[i - 1])
  }

  ghost predicate RootWf(dim: Dim, r: Root) {
    dim.Ok() && Wf(dim, r.t, r.d, None, None)
  }

  lemma {:induction false} WfShaped(dim: Dim, t: Tree, d: nat, lo: Bound, hi: Bound)
    requires Wf(dim, t, d, lo, hi)
    ensures Shaped(dim, t, d)
    decreases d
  {
    if t.Inner? {
      forall i | 0 <= i < |t.kids|
        ensures Shaped(dim, t.kids[i], d - 1)
      {
        WfShaped(dim, t.kids[i], d - 1, Lo(t.keys, lo, i), Hi(t.keys, hi, i));
      }
    }
  }

  // ---------- contents ----------

  // Two maps agree at k.
  ghost predicate Agree(a: map<int, int>, b: map<int, int>, k: int) {
    (k in a <==> k in b) && (k in a ==> a[k] == b[k])
  }

  lemma {:induction false} AgreeEverywhere(a: map<int, int>, b: map<int, int>)
    requires forall k :: Agree(a, b, k)
    ensures a == b
  {
    forall k
      ensures (k in a <==> k in b) && (k in a ==> a[k] == b[k])
    {
      assert Agree(a, b, k);
    }
  }

  lemma {:induction false} PairsAt(keys: seq<int>, vals: seq<int>, i: nat)
    requires |keys| == |vals| && Sorted(keys) && i < |keys|
    ensures keys[i] in Pairs(keys, vals) && Pairs(keys, vals)[keys[i]] == vals[i]
  {
    if i < |keys| - 1 {
      PairsAt(keys[..|keys| - 1], vals[..|keys| - 1], i);
    }
  }

  lemma {:induction false} PairsKeys(keys: seq<int>, vals: seq<int>, k: int)
    requires |keys| == |vals|
    ensures k in Pairs(keys, vals) <==> k in keys
  {
    if keys != [] {
      PairsKeys(keys[..|keys| - 1], vals[..|keys| - 1], k);
      assert keys == keys[..|keys| - 1] + [keys[|keys| - 1]];
    }
  }

  lemma {:induction false} PairsSet(keys: seq<int>, vals: seq<int>, i: nat, v: int)
    requires |keys| == |vals| && Sorted(keys) && i < |keys|
    ensures Pairs(keys, vals[i := v]) == Pairs(keys, vals)[keys[i] := v]
  {
    var a, b := Pairs(keys, vals[i := v]), Pairs(keys, vals)[keys[i] := v];
    forall k
      ensures Agree(a, b, k)
    {
      PairsKeys(keys, vals, k);
      PairsKeys(keys, vals[i := v], k);
      if k in keys {
        var j :| 0 <= j < |keys| && keys[j] == k;
        PairsAt(keys, vals, j);
        PairsAt(keys, vals[i := v], j);
      }
    }
    AgreeEverywhere(a, b);
  }

  lemma {:induction false} SortedInsert(keys: seq<int>, i: nat, k: int)
    requires Sorted(keys) && i <= |keys|
    requires forall j :: 0 <= j < i ==> keys[j] < k
    requires forall j :: i <= j < |keys| ==> k < keys[j]
    ensures Sorted(InsertAt(keys, i, k))
  {
  }

  lemma {:induction false} InInsert(keys: seq<int>, i: nat, k: int, x: int)
    requires i <= |keys|
    ensures x in InsertAt(keys, i, k) <==> x == k || x in keys
  {
    assert keys == keys[..i] + keys[i..];
  }

  lemma {:induction false} PairsInsert(keys: seq<int>, vals: seq<int>, i: nat, k: int, v: int)
    requires |keys| == |vals| && Sorted(keys) && i <= |keys|
    requires forall j :: 0 <= j < i ==> keys[j] < k
    requires forall j :: i <= j < |keys| ==> k < keys[j]
    ensures Pairs(InsertAt(keys, i, k), InsertAt(vals, i, v)) == Pairs(keys, vals)[k := v]
  {
    var keys', vals' := InsertAt(keys, i, k), InsertAt(vals, i, v);
    var a, b := Pairs(keys', vals'), Pairs(keys, vals)[k := v];
    SortedInsert(keys, i, k);
    forall x
      ensures Agree(a, b, x)
    {
      PairsKeys(keys, vals, x);
      PairsKeys(keys', vals', x);
      InInsert(keys, i, k, x);
      if x == k {
        PairsAt(keys', vals', i);
      } else if x in keys {
        var j :| 0 <= j < |keys| && keys[j] == x;
        PairsAt(keys, vals, j);
        PairsAt(keys', vals', if j < i then j else j + 1);
      }
    }
    AgreeEverywhere(a, b);
  }

  // Splitting a run of pairs splits its map.
  lemma {:induction false} PairsSplit(keys: seq<int>, vals: seq<int>, h: nat)
    requires |keys| == |vals| && h <= |keys|
    ensures Pairs(keys, vals) == Pairs(keys[..h], vals[..h]) + Pairs(keys[h..], vals[h..])
  {
    if h < |keys| {
      var n := |keys| - 1;
      PairsSplit(keys[..n], vals[..n], h);
      assert keys[..n][..h] == keys[..h] && vals[..n][..h] == vals[..h];
      assert keys[..n][h..] == keys[h..][..n - h] && vals[..n][h..] == vals[h..][..n - h];
    } else {
      assert keys[..h] == keys && vals[..h] == vals;
    }
  }

  lemma {:induction false} ContentsWithin(dim: Dim, t: Tree, d: nat, lo: Bound, hi: Bound, k: int)
    requires Wf(dim, t, d, lo, hi) && k in Contents(t)
    ensures Within(lo, k, hi)
    decreases d
  {
    match t
    case Leaf(slots, vals) =>
      PairsKeys(slots[..|vals|], vals, k);
    case Inner(keys, kids) =>
      var i := KidWith(kids, k);
      ContentsWithin(dim, kids[i], d - 1, Lo(keys, lo, i), Hi(keys, hi, i), k);
  }

  lemma {:induction false} KidWith(kids: seq<Tree>, k: int) returns (i: nat)
    requires k in AllContents(kids)
    ensures i < |kids| && k in Contents(kids[i])
  {
    if k in Contents(kids[0]) {
      i := 0;
    } else {
      i := KidWith(kids[1..], k);
      i := i + 1;
    }
  }

  lemma {:induction false} InNoKid(kids: seq<Tree>, k: int)
    requires forall j :: 0 <= j < |kids| ==> k !in Contents(kids[j])
    ensures k !in AllContents(kids)
  {
    if kids != [] {
      InNoKid(kids[1..], k);
    }
  }

  lemma {:induction false} AllContentsAt(kids: seq<Tree>, i: nat, k: int)
    requires i < |kids| && forall j :: 0 <= j < |kids| && j != i ==> k !in Contents(kids[j])
    ensures Agree(AllContents(kids), Contents(kids[i]), k)
  {
    if i > 0 {
      AllContentsAt(kids[1..], i - 1, k);
    } else {
      InNoKid(kids[1..], k);
    }
  }

  // A key is found, if at all, in the child it is routed to.
  lemma {:induction false} ContentsRouted(dim: Dim, t: Tree, d: nat, lo: Bound, hi: Bound, k: int)
    requires Wf(dim, t, d, lo, hi) && t.Inner?
    ensures Agree(Contents(t), Contents(t.kids[InnerPos(k, t.keys)]), k)
  {
    var i := InnerPos(k, t.keys);
    forall j | 0 <= j < |t.kids| && j != i
      ensures k !in Contents(t.kids[j])
    {
      if k in Contents(t.kids[j]) {
        ContentsWithin(dim, t.kids[j], d - 1, Lo(t.keys, lo, j), Hi(t.keys, hi, j), k);
      }
    }
    AllContentsAt(t.kids, i, k);
  }

  // The routed key lies within the bounds of its child.
  lemma {:induction false} RoutedWithin(keys: seq<int>, lo: Bound, hi: Bound, k: int)
    requires Within(lo, k, hi)
    ensures var i := InnerPos(k, keys); Within(Lo(keys, lo, i), k, Hi(keys, hi, i))
  {
  }

  predicate HasKeys(t: Tree) {
    t.Leaf? ==> |t.vals| >= 1
  }

  lemma {:induction false} MinKeyIsLeast(dim: Dim, t: Tree, d: nat, lo: Bound, hi: Bound)
    requires dim.Ok() && Wf(dim, t, d, lo, hi) && HasKeys(t)
    ensures MinKey(t) in Contents(t) && Within(lo, MinKey(t), hi)
    ensures forall k :: k in Contents(t) ==> MinKey(t) <= k
    decreases d
  {
    hide AllContents, Pairs;
    match t
    case Leaf(slots, vals) =>
      PairsAt(slots[..|vals|], vals, 0);
      forall k | k in Contents(t)
        ensures MinKey(t) <= k
      {
        PairsKeys(slots[..|vals|], vals, k);
      }
    case Inner(keys, kids) =>
      MinKeyIsLeast(dim, kids[0], d - 1, Lo(keys, lo, 0), Hi(keys, hi, 0));
      ContentsRouted(dim, t, d, lo, hi, MinKey(t));
      ContentsWithin(dim, kids[0], d - 1, Lo(keys, lo, 0), Hi(keys, hi, 0), MinKey(t));
      assert InnerPos(MinKey(t), keys) == 0;
      forall k | k in Contents(t)
        ensures MinKey(t) <= k
      {
        var i := KidWith(kids, k);
        ContentsWithin(dim, kids[i], d - 1, Lo(keys, lo, i), Hi(keys, hi, i), k);
      }
  }
}
