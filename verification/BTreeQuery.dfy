/**
 find_tm, del_tm and findLastLessThan_tm against the finite map, the depth bound, and whole runs.
 */
module BTreeQuery {
  import opened BTree
  import opened BTreeShape
  import opened BTreeInsert

  // ---------- find ----------

  lemma {:induction false} LeafForHolds(dim: Dim, t: Tree, d: nat, lo: Bound, hi: Bound, key: int)
    requires Wf(dim, t, d, lo, hi) && Shaped(dim, t, d)
    ensures Agree(Contents(t), Contents(LeafFor(dim, t, d, key)), key)
    ensures Within(lo, key, hi) ==> exists lo', hi' ::
      Within(lo', key, hi') && Wf(dim, LeafFor(dim, t, d, key), 0, lo', hi')
    ensures exists lo', hi' :: Wf(dim, LeafFor(dim, t, d, key), 0, lo', hi')
    decreases d
  {
    if d > 0 {
      var i := InnerPos(key, t.keys);
      ContentsRouted(dim, t, d, lo, hi, key);
      LeafForHolds(dim, t.kids[i], d - 1, Lo(t.keys, lo, i), Hi(t.keys, hi, i), key);
    }
  }

  // The entry at the position of a key decides whether the leaf holds the key.
  lemma {:induction false} LeafLookup(dim: Dim, leaf: Tree, lo: Bound, hi: Bound, key: int)
    requires Wf(dim, leaf, 0, lo, hi)
    ensures var i := LeafPos(key, leaf.slots[..|leaf.vals|]);
      && (key in Contents(leaf) <==> i < |leaf.vals| && leaf.slots[i] == key)
      && (key in Contents(leaf) ==> Contents(leaf)[key] == leaf.vals[i])
  {
    var keys := leaf.slots[..|leaf.vals|];
    var i := LeafPos(key, keys);
    PairsKeys(keys, leaf.vals, key);
    if i < |keys| {
      PairsAt(keys, leaf.vals, i);
    }
  }

  // find_tm answers with the value of a live key, and with nothing otherwise.
  lemma {:induction false} FindIsLookup(dim: Dim, r: Root, key: int)
    requires RootWf(dim, r) && Shaped(dim, r.t, r.d)
    ensures Find(dim, r, key) ==
      if key in Contents(r.t) && Contents(r.t)[key] != 0 then Some(Contents(r.t)[key]) else None
  {
    LeafForHolds(dim, r.t, r.d, None, None, key);
    var lo, hi :| Wf(dim, LeafFor(dim, r.t, r.d, key), 0, lo, hi);
    LeafLookup(dim, LeafFor(dim, r.t, r.d, key), lo, hi, key);
  }

  // ---------- delete ----------

  lemma {:induction false} LeafDelWf(dim: Dim, leaf: Tree, lo: Bound, hi: Bound, key: int)
    requires Wf(dim, leaf, 0, lo, hi)
    ensures var r := LeafDel(leaf, key);
      && Wf(dim, r, 0, lo, hi) && r.slots == leaf.slots && |r.vals| == |leaf.vals|
      && Contents(r) == if key in Contents(leaf) then Contents(leaf)[key := 0] else Contents(leaf)
  {
    LeafLookup(dim, leaf, lo, hi, key);
    var i := LeafPos(key, leaf.slots[..|leaf.vals|]);
    if i < |leaf.vals| && leaf.slots[i] == key {
      PairsSet(leaf.slots[..|leaf.vals|], leaf.vals, i, 0);
    }
  }

  lemma {:induction false} DelInWf(dim: Dim, t: Tree, d: nat, lo: Bound, hi: Bound, key: int)
    requires dim.Ok() && Wf(dim, t, d, lo, hi) && Shaped(dim, t, d)
    ensures var r := DelIn(dim, t, d, key);
      Wf(dim, r, d, lo, hi) && MinKey(r) == MinKey(t) && (Occupied(dim, t) ==> Occupied(dim, r))
    decreases d
  {
    if d == 0 {
      LeafDelWf(dim, t, lo, hi, key);
    } else {
      var i := InnerPos(key, t.keys);
      DelInWf(dim, t.kids[i], d - 1, Lo(t.keys, lo, i), Hi(t.keys, hi, i), key);
    }
  }

  lemma {:induction false} DelInContents(dim: Dim, t: Tree, d: nat, lo: Bound, hi: Bound, key: int)
    requires dim.Ok() && Wf(dim, t, d, lo, hi) && Shaped(dim, t, d)
    ensures Contents(DelIn(dim, t, d, key)) == if key in Contents(t) then Contents(t)[key := 0] else Contents(t)
    decreases d
  {
    if d == 0 {
      LeafDelWf(dim, t, lo, hi, key);
    } else {
      var i := InnerPos(key, t.keys);
      var c := DelIn(dim, t.kids[i], d - 1, key);
      DelInWf(dim, t, d, lo, hi, key);
      DelInContents(dim, t.kids[i], d - 1, Lo(t.keys, lo, i), Hi(t.keys, hi, i), key);
      ContentsRouted(dim, t, d, lo, hi, key);
      ReplaceContents(dim, t, c, d, lo, hi, key, 0);
      NullTwice(Contents(t.kids[i]), key);
      NullTwice(Contents(t), key);
    }
  }

  lemma {:induction false} NullTwice(m: map<int, int>, key: int)
    ensures m[key := 0] == m <==> key in m && m[key] == 0
  {
    assert key in m[key := 0];
  }

  // del_tm writes null to the key's value and changes nothing else.  It answers true for every
  // physical key, also one that is already deleted, and else exactly where the slot it compares
  // past the keys holds the key, which again needs key 0.
  lemma {:induction false} DelIsUpdate(dim: Dim, r: Root, key: int)
    requires RootWf(dim, r) && Shaped(dim, r.t, r.d)
    ensures RootWf(dim, Del(dim, r, key))
    ensures Contents(Del(dim, r, key).t) == if key in Contents(r.t) then Contents(r.t)[key := 0] else Contents(r.t)
    ensures DelFound(dim, r, key) <==>
      key in Contents(r.t) ||
      (FalseHit(LeafFor(dim, r.t, r.d, key), key) && |LeafFor(dim, r.t, r.d, key).vals| < dim.M)
    ensures key != 0 ==> (DelFound(dim, r, key) <==> key in Contents(r.t))
  {
    DelInWf(dim, r.t, r.d, None, None, key);
    DelInContents(dim, r.t, r.d, None, None, key);
    LeafForHolds(dim, r.t, r.d, None, None, key);
    var lo, hi :| Within(lo, key, hi) && Wf(dim, LeafFor(dim, r.t, r.d, key), 0, lo, hi);
    LeafLookup(dim, LeafFor(dim, r.t, r.d, key), lo, hi, key);
  }

  // ---------- predecessor ----------

  // The greatest key of m below key, if there is one.
  ghost predicate IsPredecessor(m: map<int, int>, key: int, r: Option<(int, int)>) {
    match r
    case Some((k, v)) => k in m && m[k] == v && k < key && forall x :: x in m && x < key ==> x <= k
    case None => forall x :: x in m ==> x >= key
  }

  lemma {:induction false} LeafPredecessor(dim: Dim, leaf: Tree, lo: Bound, hi: Bound, key: int)
    requires Wf(dim, leaf, 0, lo, hi)
    ensures var i := LeafPos(key, leaf.slots[..|leaf.vals|]);
      IsPredecessor(Contents(leaf), key, if i > 0 then Some((leaf.slots[i - 1], leaf.vals[i - 1])) else None)
  {
    var keys := leaf.slots[..|leaf.vals|];
    var i := LeafPos(key, keys);
    if i > 0 {
      PairsAt(keys, leaf.vals, i - 1);
    }
    forall x | x in Contents(leaf) && x < key
      ensures i > 0 && x <= keys[i - 1]
    {
      PairsKeys(keys, leaf.vals, x);
    }
  }

  // The child findLastLessThan_tm follows holds the predecessor, if the node does.
  lemma {:induction false} BelowKid(dim: Dim, t: Tree, d: nat, lo: Bound, hi: Bound, key: int, r: Option<(int, int)>)
    requires dim.Ok() && Wf(dim, t, d, lo, hi) && t.Inner?
    requires IsPredecessor(Contents(t.kids[BelowPos(key, t.keys)]), key, r)
    ensures IsPredecessor(Contents(t), key, r)
  {
    hide Pairs, AllContents;
    var i := BelowPos(key, t.keys);
    var c := t.kids[i];
    if i > 0 {
      MinKeyIsLeast(dim, c, d - 1, Lo(t.keys, lo, i), Hi(t.keys, hi, i));
      assert MinKey(c) == t.keys[i - 1] < key;
    }
    if r.Some? {
      PredecessorRouted(dim, t, d, lo, hi, i, r.value.0);
    }
    forall x | x in Contents(t) && x < key
      ensures r.Some? && x <= r.value.0
    {
      var j := KidWith(t.kids, x);
      ContentsWithin(dim, t.kids[j], d - 1, Lo(t.keys, lo, j), Hi(t.keys, hi, j), x);
      if j == i {
        assert x in Contents(c);
      } else {
        assert j < i;
      }
    }
  }

  lemma {:induction false} PredecessorRouted(dim: Dim, t: Tree, d: nat, lo: Bound, hi: Bound, i: nat, k: int)
    requires Wf(dim, t, d, lo, hi) && t.Inner? && i < |t.kids| && k in Contents(t.kids[i])
    ensures k in Contents(t) && Contents(t)[k] == Contents(t.kids[i])[k]
  {
    ContentsWithin(dim, t.kids[i], d - 1, Lo(t.keys, lo, i), Hi(t.keys, hi, i), k);
    InnerPosIs(k, t.keys, i);
    ContentsRouted(dim, t, d, lo, hi, k);
  }

  lemma {:induction false} CandidateIn(dim: Dim, t: Tree, d: nat, lo: Bound, hi: Bound, key: int)
    requires dim.Ok() && Wf(dim, t, d, lo, hi) && Shaped(dim, t, d)
    ensures IsPredecessor(Contents(t), key, Candidate(dim, Root(t, d), key))
    decreases d
  {
    hide Contents, AllContents, Pairs, IsPredecessor;
    if d == 0 {
      LeafPredecessor(dim, t, lo, hi, key);
    } else {
      var i := BelowPos(key, t.keys);
      CandidateIn(dim, t.kids[i], d - 1, Lo(t.keys, lo, i), Hi(t.keys, hi, i), key);
      BelowKid(dim, t, d, lo, hi, key, Candidate(dim, Root(t, d), key));
    }
  }

  // One descent finds the greatest physical key below the argument, deleted or not.
  lemma {:induction false} CandidateIsPredecessor(dim: Dim, r: Root, key: int)
    requires RootWf(dim, r) && Shaped(dim, r.t, r.d)
    ensures IsPredecessor(Contents(r.t), key, Candidate(dim, r, key))
  {
    CandidateIn(dim, r.t, r.d, None, None, key);
  }

  // The physical keys below key: each restart at a deleted key has fewer.
  ghost function Below(m: map<int, int>, key: int): set<int> {
    set k | k in m && k < key
  }

  // findLastLessThan_tm: descend, and start again from a deleted key.
  ghost function FindLast(dim: Dim, r: Root, key: int): Option<(int, int)>
    requires RootWf(dim, r) && Shaped(dim, r.t, r.d)
    decreases |Below(Contents(r.t), key)|
  {
    match Candidate(dim, r, key)
    case None => None
    case Some((k, v)) =>
      if v != 0 then Some((k, v))
      else
        (CandidateIsPredecessor(dim, r, key);
         FewerBelow(Contents(r.t), k, key);
         FindLast(dim, r, k))
  }

  lemma {:induction false} FewerBelow(m: map<int, int>, k: int, key: int)
    requires k in m && k < key
    ensures |Below(m, k)| < |Below(m, key)|
  {
    assert k in Below(m, key) && k !in Below(m, k);
    assert Below(m, k) <= Below(m, key) - {k};
    Smaller(Below(m, k), Below(m, key) - {k});
  }

  lemma {:induction false} Smaller(a: set<int>, b: set<int>)
    requires a <= b
    ensures |a| <= |b|
  {
    assert b == a + (b - a);
  }

  // findLastLessThan_tm answers with the greatest live key strictly below the argument, and with
  // its value; it answers nothing iff there is none.  This holds of trees with deleted keys.
  lemma {:induction false} FindLastIsPredecessor(dim: Dim, r: Root, key: int)
    requires RootWf(dim, r) && Shaped(dim, r.t, r.d)
    ensures IsPredecessor(Live(Contents(r.t)), key, FindLast(dim, r, key))
    decreases |Below(Contents(r.t), key)|
  {
    CandidateIsPredecessor(dim, r, key);
    match Candidate(dim, r, key)
    case None =>
    case Some((k, v)) =>
      if v == 0 {
        FewerBelow(Contents(r.t), k, key);
        FindLastIsPredecessor(dim, r, k);
      }
  }

  // ---------- the number of keys and the depth ----------

  lemma {:induction false} PairsCount(keys: seq<int>, vals: seq<int>)
    requires |keys| == |vals| && Sorted(keys)
    ensures |Pairs(keys, vals)| == |keys|
  {
    if keys != [] {
      var n := |keys| - 1;
      PairsCount(keys[..n], vals[..n]);
      PairsKeys(keys[..n], vals[..n], keys[n]);
    }
  }

  // Size counts the physical keys.
  lemma {:induction false} SizeCounts(dim: Dim, t: Tree, d: nat, lo: Bound, hi: Bound)
    requires Wf(dim, t, d, lo, hi)
    ensures |Contents(t)| == Size(t)
    decreases d, 1, 0
  {
    if t.Leaf? {
      PairsCount(t.slots[..|t.vals|], t.vals);
    } else {
      SizesFrom(dim, t, d, lo, hi, 0);
      assert t.kids[0..] == t.kids;
    }
  }

  lemma {:induction false} SizesFrom(dim: Dim, t: Tree, d: nat, lo: Bound, hi: Bound, i: nat)
    requires Wf(dim, t, d, lo, hi) && t.Inner? && i <= |t.kids|
    ensures |AllContents(t.kids[i..])| == AllSizes(t.kids[i..])
    decreases d, 0, |t.kids| - i
  {
    if i < |t.kids| {
      SizeCounts(dim, t.kids[i], d - 1, Lo(t.keys, lo, i), Hi(t.keys, hi, i));
      SizesFrom(dim, t, d, lo, hi, i + 1);
      assert t.kids[i..][1..] == t.kids[i + 1..];
      var a, b := Contents(t.kids[i]), AllContents(t.kids[i + 1..]);
      forall k | k in a
        ensures k !in b
      {
        ContentsWithin(dim, t.kids[i], d - 1, Lo(t.keys, lo, i), Hi(t.keys, hi, i), k);
        if k in b {
          var m := KidWith(t.kids[i + 1..], k);
          var j := m + i + 1;
          ContentsWithin(dim, t.kids[j], d - 1, Lo(t.keys, lo, j), Hi(t.keys, hi, j), k);
        }
      }
      DisjointSizes(a, b);
    }
  }

  lemma {:induction false} DisjointSizes(a: map<int, int>, b: map<int, int>)
    requires a.Keys !! b.Keys
    ensures |a + b| == |a| + |b|
  {
    assert (a + b).Keys == a.Keys + b.Keys;
    assert |a.Keys + b.Keys| == |a.Keys| + |b.Keys|;
  }

  // The least number of keys in a subtree of depth d that is not the root.
  function LeastKeys(dim: Dim, d: nat): nat {
    if d == 0 then dim.M / 2 else (dim.N + 1) / 2 * LeastKeys(dim, d - 1)
  }

  lemma {:induction false} SizesAtLeast(kids: seq<Tree>, b: nat)
    requires forall i :: 0 <= i < |kids| ==> Size(kids[i]) >= b
    ensures AllSizes(kids) >= |kids| * b
  {
    if kids != [] {
      SizesAtLeast(kids[1..], b);
      assert |kids| * b == b + (|kids| - 1) * b;
    }
  }

  lemma {:induction false} SubtreeHolds(dim: Dim, t: Tree, d: nat, lo: Bound, hi: Bound)
    requires Wf(dim, t, d, lo, hi) && Occupied(dim, t)
    ensures Size(t) >= LeastKeys(dim, d)
    decreases d
  {
    if d > 0 {
      KidsHold(dim, t, d, lo, hi);
      Times((dim.N + 1) / 2, |t.kids|, LeastKeys(dim, d - 1));
    }
  }

  lemma {:induction false} KidsHold(dim: Dim, t: Tree, d: nat, lo: Bound, hi: Bound)
    requires Wf(dim, t, d, lo, hi) && d > 0
    ensures Size(t) >= |t.kids| * LeastKeys(dim, d - 1)
    decreases d, 0
  {
    forall i | 0 <= i < |t.kids|
      ensures Size(t.kids[i]) >= LeastKeys(dim, d - 1)
    {
      SubtreeHolds(dim, t.kids[i], d - 1, Lo(t.keys, lo, i), Hi(t.keys, hi, i));
    }
    SizesAtLeast(t.kids, LeastKeys(dim, d - 1));
  }

  lemma {:induction false} Times(a: nat, b: nat, c: nat)
    requires a <= b
    ensures a * c <= b * c
  {
  }

  // Logarithmic depth: a tree of depth d >= 1 holds at least 2 * floor((N+1)/2)^(d-1) * floor(M/2)
  // physical keys.
  lemma {:induction false} DepthBound(dim: Dim, r: Root)
    requires RootWf(dim, r) && r.d >= 1
    ensures |Contents(r.t)| >= 2 * LeastKeys(dim, r.d - 1)
    ensures LeastKeys(dim, r.d - 1) == Power((dim.N + 1) / 2, r.d - 1) * (dim.M / 2)
  {
    SizeCounts(dim, r.t, r.d, None, None);
    KidsHold(dim, r.t, r.d, None, None);
    Times(2, |r.t.kids|, LeastKeys(dim, r.d - 1));
    LeastKeysPower(dim, r.d - 1);
  }

  function Power(b: nat, e: nat): nat {
    if e == 0 then 1 else b * Power(b, e - 1)
  }

  lemma {:induction false} LeastKeysPower(dim: Dim, d: nat)
    ensures LeastKeys(dim, d) == Power((dim.N + 1) / 2, d) * (dim.M / 2)
  {
    if d > 0 {
      LeastKeysPower(dim, d - 1);
      Regroup((dim.N + 1) / 2, Power((dim.N + 1) / 2, d - 1), dim.M / 2);
    }
  }

  lemma {:induction false} Regroup(a: nat, b: nat, c: nat)
    ensures a * (b * c) == (a * b) * c
  {
  }

  // ---------- whole runs ----------

  datatype Op = Put(key: int, val: int) | Remove(key: int)

  // The tree after a run of operations on an empty one.
  function TreeAfter(dim: Dim, ops: seq<Op>): Root {
    if ops == [] then Empty(dim)
    else
      var r, op := TreeAfter(dim, ops[..|ops| - 1]), ops[|ops| - 1];
      if dim.Ok() && Shaped(dim, r.t, r.d) then
        (if op.Put? then Insert(dim, r, op.key, op.val) else Del(dim, r, op.key))
      else r
  }

  // The finite map the same run builds: putting null or removing deletes the key.
  function MapAfter(ops: seq<Op>): map<int, int> {
    if ops == [] then map[]
    else
      var m, op := MapAfter(ops[..|ops| - 1]), ops[|ops| - 1];
      if op.Put? && op.val != 0 then m[op.key := op.val] else m - {op.key}
  }

  // The keys ever put.
  function KeysPut(ops: seq<Op>): set<int> {
    set i | 0 <= i < |ops| && ops[i].Put? :: ops[i].key
  }

  lemma {:induction false} EmptyOk(dim: Dim)
    requires dim.Ok()
    ensures RootWf(dim, Empty(dim)) && Contents(Empty(dim).t) == map[]
  {
  }

  // Key 0 is on the tree once it was put where the compared slot was no false hit.
  ghost predicate ZeroKept(dim: Dim, ops: seq<Op>) {
    ops != [] &&
    var before, op := ops[..|ops| - 1], ops[|ops| - 1];
    var r := TreeAfter(dim, before);
    ZeroKept(dim, before) ||
    (op.Put? && op.key == 0 && Shaped(dim, r.t, r.d) && !FalseHit(LeafFor(dim, r.t, r.d, 0), 0))
  }

  // The map without key 0 where the tree has lost it.
  function Kept(m: map<int, int>, zero: bool): map<int, int> {
    if zero then m else m - {0}
  }

  // The physical keys of the tree are the keys ever put, and its live entries are the map, save for
  // key 0 until it is kept.
  lemma {:induction false} RunKeeps(dim: Dim, ops: seq<Op>)
    requires dim.Ok()
    ensures var r, zero := TreeAfter(dim, ops), ZeroKept(dim, ops);
      && RootWf(dim, r) && Shaped(dim, r.t, r.d)
      && (0 in Contents(r.t) <==> zero)
      && Contents(r.t).Keys == (if zero then KeysPut(ops) else KeysPut(ops) - {0})
      && Live(Contents(r.t)) == Kept(MapAfter(ops), zero)
  {
    hide Insert, Del, FalseHit;
    if ops == [] {
      EmptyOk(dim);
      WfShaped(dim, Empty(dim).t, 0, None, None);
    } else {
      var before, op := ops[..|ops| - 1], ops[|ops| - 1];
      RunKeeps(dim, before);
      var r := TreeAfter(dim, before);
      KeysPutStep(ops);
      OpKeeps(dim, r, op);
      WfShaped(dim, TreeAfter(dim, ops).t, TreeAfter(dim, ops).d, None, None);
      var hit := op.Put? && FalseHit(LeafFor(dim, r.t, r.d, op.key), op.key);
      StepKept(Contents(r.t), MapAfter(before), op, hit);
    }
  }

  // What an operation makes of the contents; hit says that an insertion is a false hit.
  ghost function Stepped(m: map<int, int>, op: Op, hit: bool): map<int, int> {
    if op.Put? then (if hit then m else m[op.key := op.val])
    else if op.key in m then m[op.key := 0]
    else m
  }

  lemma {:induction false} OpKeeps(dim: Dim, r: Root, op: Op)
    requires RootWf(dim, r) && Shaped(dim, r.t, r.d)
    ensures var r' := if op.Put? then Insert(dim, r, op.key, op.val) else Del(dim, r, op.key);
      var hit := op.Put? && FalseHit(LeafFor(dim, r.t, r.d, op.key), op.key);
      && RootWf(dim, r') && Contents(r'.t) == Stepped(Contents(r.t), op, hit)
      && (hit ==> op.key == 0 && 0 !in Contents(r.t))
  {
    if op.Put? {
      InsertKeeps(dim, r, op.key, op.val);
      FalseHitNeedsZero(dim, r.t, r.d, None, None, op.key);
    } else {
      DelIsUpdate(dim, r, op.key);
    }
  }

  // One operation keeps contents and map in step.
  lemma {:induction false} StepKept(c: map<int, int>, m: map<int, int>, op: Op, hit: bool)
    requires Live(c) == Kept(m, 0 in c) && (hit ==> op.Put? && op.key == 0 && 0 !in c)
    ensures var c' := Stepped(c, op, hit);
      var m' := if op.Put? && op.val != 0 then m[op.key := op.val] else m - {op.key};
      && (0 in c' <==> 0 in c || (op.Put? && op.key == 0 && !hit))
      && Live(c') == Kept(m', 0 in c')
  {
    LiveStep(c, op);
  }

  lemma {:induction false} LiveStep(m: map<int, int>, op: Op)
    ensures Live(Stepped(m, op, false)) ==
      if op.Put? && op.val != 0 then Live(m)[op.key := op.val] else Live(m) - {op.key}
  {
  }

  lemma {:induction false} KeysPutStep(ops: seq<Op>)
    requires ops != []
    ensures var op := ops[|ops| - 1];
      KeysPut(ops) == KeysPut(ops[..|ops| - 1]) + if op.Put? then {op.key} else {}
  {
    var n := |ops| - 1;
    forall k | k in KeysPut(ops)
      ensures k in KeysPut(ops[..n]) + if ops[n].Put? then {ops[n].key} else {}
    {
      var i :| 0 <= i < |ops| && ops[i].Put? && ops[i].key == k;
      if i < n {
        assert ops[..n][i].key == k;
      }
    }
    forall k | k in KeysPut(ops[..n])
      ensures k in KeysPut(ops)
    {
      var i :| 0 <= i < n && ops[..n][i].Put? && ops[..n][i].key == k;
      assert ops[i].key == k;
    }
  }

  // From the empty tree, any run of insertions and deletions answers find and the predecessor query
  // on every key like a finite map, which key 0 enters only where no false hit loses it; del answers
  // whether the key was ever put.
  lemma {:induction false} RunRefinesMap(dim: Dim, ops: seq<Op>, key: int)
    requires dim.Ok()
    ensures var r, m := TreeAfter(dim, ops), Kept(MapAfter(ops), ZeroKept(dim, ops));
      && RootWf(dim, r) && Shaped(dim, r.t, r.d)
      && Find(dim, r, key) == (if key in m then Some(m[key]) else None)
      && IsPredecessor(m, key, FindLast(dim, r, key))
      && (key != 0 ==> (DelFound(dim, r, key) <==> key in KeysPut(ops)))
  {
    RunKeeps(dim, ops);
    var r := TreeAfter(dim, ops);
    FindIsLookup(dim, r, key);
    FindLastIsPredecessor(dim, r, key);
    DelIsUpdate(dim, r, key);
  }

  // Where del_tm's answer is that of the map: for a key other than 0 exactly where the key is not
  // one that was deleted before.
  lemma {:induction false} DelAgrees(dim: Dim, r: Root, key: int)
    requires RootWf(dim, r) && Shaped(dim, r.t, r.d)
    ensures var c, leaf := Contents(r.t), LeafFor(dim, r.t, r.d, key);
      (DelFound(dim, r, key) <==> key in Live(c)) <==>
        !(key in c && c[key] == 0) && !(FalseHit(leaf, key) && |leaf.vals| < dim.M)
    ensures key != 0 ==>
      ((DelFound(dim, r, key) <==> key in Live(Contents(r.t))) <==>
        !(key in Contents(r.t) && Contents(r.t)[key] == 0))
  {
    DelIsUpdate(dim, r, key);
    FalseHitNeedsZero(dim, r.t, r.d, None, None, key);
  }

  // A second deletion of the same key still answers true.
  lemma {:induction false} DelTwice(dim: Dim, val: int)
    requires dim.Ok() && val != 0
    ensures var ops := [Put(1, val), Remove(1)];
      && Shaped(dim, TreeAfter(dim, ops).t, TreeAfter(dim, ops).d)
      && 1 !in MapAfter(ops) && DelFound(dim, TreeAfter(dim, ops), 1)
  {
    var ops := [Put(1, val), Remove(1)];
    RunRefinesMap(dim, ops, 1);
    assert ops[0] == Put(1, val) && ops[..1] == [Put(1, val)];
    assert 1 in KeysPut(ops);
  }
}
