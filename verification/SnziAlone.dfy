/**
 Operations of the SNZI object that meet no other thread: snzi_inc and snzi_dec return within a fixed
 number of steps, and leave the counts, the version and the indicator that sequential code would.
 */
module SnziAlone {
  import opened Replay
  import Root = SnziRoot
  import Tree = SnziTree

  // ---------- the root ----------

  function RootSteps(r: Root.State, t: nat, k: nat): Root.State {
    if k == 0 then r
    else
      var r' := RootSteps(r, t, k - 1);
      if Root.Enabled(r', Root.Go(t)) then Root.Next(r', Root.Go(t)) else r'
  }

  // The operation takes k steps, and is under way until then.
  ghost predicate RootTakes(r: Root.State, t: nat, k: nat, r': Root.State) {
    && t < |r.pcs| && RootSteps(r, t, k) == r' && r'.pcs == r.pcs[t := Root.Idle]
    && forall j :: 0 <= j < k ==> t < |RootSteps(r, t, j).pcs| && !RootSteps(r, t, j).pcs[t].Idle?
  }

  // The root when the arrival or the departure of t has returned: the surplus is one more or less, the
  // first arrival sets the indicator and the last departure clears it.
  function Arrived(r: Root.State, t: nat): Root.State
    requires t < |r.pcs|
  {
    r.(word := Root.Raised(r.word), ind := if Root.Raised(r.word).a then Root.Ind(true, r.ind.k + 1) else r.ind,
       pcs := r.pcs[t := Root.Idle], arrived := r.arrived + 1)
  }

  function Departed(r: Root.State, t: nat): Root.State
    requires t < |r.pcs|
  {
    r.(word := Root.Lowered(r.word), ind := if r.word.c >= 2 then r.ind else Root.Ind(false, r.ind.k + 1),
       pcs := r.pcs[t := Root.Idle])
  }

  lemma {:induction false} RootArrivesAlone(r: Root.State, t: nat) returns (k: nat)
    requires t < |r.pcs| && r.pcs[t].ArrLoad?
    ensures k <= 5
    ensures RootTakes(r, t, k, Arrived(r, t))
  {
    var temp := Root.Raised(r.word);
    assert RootSteps(r, t, 0) == r;
    assert RootSteps(r, t, 1) == r.(pcs := r.pcs[t := Root.ArrSwap(r.word)]);
    if temp.a {
      assert RootSteps(r, t, 2) == r.(word := temp, pcs := r.pcs[t := Root.AnnLoad(temp)]);
      assert RootSteps(r, t, 3) == r.(word := temp, pcs := r.pcs[t := Root.AnnSwap(temp, r.ind)]);
      var ind := Root.Ind(true, r.ind.k + 1);
      assert RootSteps(r, t, 4) == r.(word := temp, ind := ind, pcs := r.pcs[t := Root.AnnDone(temp)]);
      assert RootSteps(r, t, 5).pcs == r.pcs[t := Root.Idle];
      k := 5;
    } else {
      assert RootSteps(r, t, 2).pcs == r.pcs[t := Root.Idle];
      k := 2;
    }
  }

  lemma {:induction false} RootDepartsAlone(r: Root.State, t: nat) returns (k: nat)
    requires t < |r.pcs| && r.pcs[t].DepLoad?
    ensures k <= 5
    ensures RootTakes(r, t, k, Departed(r, t))
  {
    var x, w := r.word, Root.Lowered(r.word);
    assert RootSteps(r, t, 0) == r;
    assert RootSteps(r, t, 1) == r.(pcs := r.pcs[t := Root.DepSwap(x)]);
    if x.c >= 2 {
      assert RootSteps(r, t, 2).pcs == r.pcs[t := Root.Idle];
      k := 2;
    } else {
      assert RootSteps(r, t, 2) == r.(word := w, pcs := r.pcs[t := Root.ClrLoad(x.v)]);
      assert RootSteps(r, t, 3) == r.(word := w, pcs := r.pcs[t := Root.ClrCheck(x.v, r.ind)]);
      assert RootSteps(r, t, 4) == r.(word := w, pcs := r.pcs[t := Root.ClrSwap(x.v, r.ind)]);
      assert RootSteps(r, t, 5).pcs == r.pcs[t := Root.Idle];
      k := 5;
    }
  }

  // ---------- leaf and root ----------

  // The next step of t: of its root operation, if that is under way.
  function Step(s: Tree.State, t: nat): Tree.Event
    requires t < |s.root.pcs|
  {
    if s.root.pcs[t].Idle? then Tree.Go(t) else Tree.RootGo(t)
  }

  function Steps(s: Tree.State, t: nat, k: nat): Tree.State {
    if k == 0 then s
    else
      var s' := Steps(s, t, k - 1);
      if t < |s'.root.pcs| && Tree.Enabled(s', Step(s', t)) then Tree.Next(s', Step(s', t)) else s'
  }

  // k steps of t lead from s to s'.
  ghost predicate Leads(s: Tree.State, t: nat, k: nat, s': Tree.State) {
    Steps(s, t, k) == s'
  }

  lemma {:induction false} Chain(s: Tree.State, t: nat, j: nat, s1: Tree.State, k: nat, s2: Tree.State)
    requires Leads(s, t, j, s1) && Leads(s1, t, k, s2)
    ensures Leads(s, t, j + k, s2)
  {
    hide Tree.Enabled, Tree.Next, Step;
    if k > 0 {
      Chain(s, t, j, s1, k - 1, Steps(s1, t, k - 1));
    }
  }

  lemma {:induction false} OneStep(s: Tree.State, t: nat)
    requires t < |s.root.pcs| && Tree.Enabled(s, Step(s, t))
    ensures Leads(s, t, 1, Tree.Next(s, Step(s, t)))
  {
    assert Steps(s, t, 0) == s;
  }

  // The state in which the root operation of t has led the root to r.
  function InPhase(s: Tree.State, t: nat, r: Root.State): Tree.State
    requires Tree.Shape(s) && t < |s.pcs|
  {
    s.(root := r, net := Tree.Plus(s.net, s.home[t], r.arrived - s.root.arrived))
  }

  // The root operation of t runs to its end.
  lemma {:induction false} RootPhase(s: Tree.State, t: nat, r: Root.State, k: nat, r': Root.State)
    requires Tree.Shape(s) && t < |s.pcs| && s.root == r && RootTakes(r, t, k, r')
    ensures Leads(s, t, k, InPhase(s, t, r'))
  {
    PartPhase(s, t, k, k);
  }

  lemma {:induction false} PartPhase(s: Tree.State, t: nat, k: nat, j: nat)
    requires Tree.Shape(s) && t < |s.pcs| && j <= k
    requires forall i :: 0 <= i < k ==> t < |RootSteps(s.root, t, i).pcs| && !RootSteps(s.root, t, i).pcs[t].Idle?
    ensures var r := RootSteps(s.root, t, j);
      Leads(s, t, j, InPhase(s, t, r)) && |r.pcs| == |s.root.pcs|
  {
    if j == 0 {
      assert RootSteps(s.root, t, 0) == s.root && Steps(s, t, 0) == s;
      assert Tree.Plus(s.net, s.home[t], 0) == s.net;
    } else {
      hide Root.Next, Root.Enabled, InPhase, Leads;
      PartPhase(s, t, k, j - 1);
      var r := RootSteps(s.root, t, j - 1);
      PhaseStep(s, t, r);
      assert RootSteps(s.root, t, j) == Root.Next(r, Root.Go(t));
      Chain(s, t, j - 1, InPhase(s, t, r), 1, InPhase(s, t, Root.Next(r, Root.Go(t))));
    }
  }

  lemma {:induction false} PhaseStep(s: Tree.State, t: nat, r: Root.State)
    requires Tree.Shape(s) && t < |s.pcs| && |r.pcs| == |s.root.pcs| && !r.pcs[t].Idle?
    ensures Root.Enabled(r, Root.Go(t)) && |Root.Next(r, Root.Go(t)).pcs| == |r.pcs|
    ensures Leads(InPhase(s, t, r), t, 1, InPhase(s, t, Root.Next(r, Root.Go(t))))
  {
    hide Root.Next, Tree.Next, Tree.Plus, Leads, Steps;
    PlusTwice(s.net, s.home[t], r.arrived - s.root.arrived, 0);
    var s1 := InPhase(s, t, r);
    RootGoes(s1, t);
    var r' := Root.Next(r, Root.Go(t));
    PlusTwice(s.net, s.home[t], r.arrived - s.root.arrived, r'.arrived - r.arrived);
    OneStep(s1, t);
  }

  lemma {:induction false} PlusTwice(net: seq<int>, l: nat, a: int, b: int)
    requires l < |net|
    ensures |Tree.Plus(net, l, a)| == |net| && Tree.Plus(Tree.Plus(net, l, a), l, b) == Tree.Plus(net, l, a + b)
  {
  }

  // One step of a root operation that is under way.
  lemma {:induction false} RootGoes(s: Tree.State, t: nat)
    requires Tree.Shape(s) && t < |s.pcs| && !s.root.pcs[t].Idle?
    ensures Tree.Enabled(s, Step(s, t)) && Root.Enabled(s.root, Root.Go(t))
    ensures var r := Root.Next(s.root, Root.Go(t));
      && |r.pcs| == |s.root.pcs|
      && Tree.Next(s, Step(s, t)) == s.(root := r, net := Tree.Plus(s.net, s.home[t], r.arrived - s.root.arrived))
  {
  }

  lemma {:induction false} RootVisit(s: Tree.State, t: nat) returns (n: nat)
    requires Tree.Shape(s) && t < |s.pcs| && (s.root.pcs[t].ArrLoad? || s.root.pcs[t].DepLoad?)
    ensures n <= 5
    ensures Leads(s, t, n,
      if s.root.pcs[t].ArrLoad? then s.(root := Arrived(s.root, t), net := Tree.Plus(s.net, s.home[t], 1))
      else s.(root := Departed(s.root, t)))
  {
    var r := s.root;
    hide RootTakes, Leads;
    if r.pcs[t].ArrLoad? {
      n := RootArrivesAlone(r, t);
      RootPhase(s, t, r, n, Arrived(r, t));
    } else {
      n := RootDepartsAlone(r, t);
      RootPhase(s, t, r, n, Departed(r, t));
      assert Tree.Plus(s.net, s.home[t], 0) == s.net;
    }
  }

  // ---------- snzi_inc and snzi_dec ----------

  // Nothing of the object is different but what is said of the caller's leaf and of the root.
  ghost predicate Only(s: Tree.State, s': Tree.State, t: nat, leaf: Tree.Leaf, arrived: nat, net: int)
    requires Tree.Shape(s) && t < |s.pcs|
  {
    var l := s.home[t];
    && s'.home == s.home && s'.pcs == s.pcs[t := Tree.Idle] && s'.leaves == s.leaves[l := leaf]
    && s'.arrived == s.arrived[l := arrived] && s'.leaving == s.leaving && s'.net == s.net[l := net]
  }

  // The leaf is in use: three steps raise its count.
  lemma {:induction false} IncUsed(s: Tree.State, t: nat) returns (s': Tree.State)
    requires Tree.Shape(s) && t < |s.pcs| && s.root.pcs[t].Idle? && s.pcs[t] == Tree.ArrLoad(0)
    requires s.leaves[s.home[t]].Count? && s.leaves[s.home[t]].c >= 1
    ensures Leads(s, t, 3, s') && s'.root == s.root
    ensures var l := s.home[t];
      Only(s, s', t, Tree.Count(s.leaves[l].c + 1, s.leaves[l].v), s.arrived[l] + 1, s.net[l])
  {
    var l, x := s.home[t], s.leaves[s.home[t]];
    assert Steps(s, t, 0) == s;
    assert Steps(s, t, 1) == s.(pcs := s.pcs[t := Tree.ArrInc(x, 0)]);
    assert Steps(s, t, 2) == s.(leaves := s.leaves[l := Tree.Bumped(x, 1)], pcs := s.pcs[t := Tree.Undo(0)]);
    s' := Steps(s, t, 3);
    assert s.net[l := s.net[l]] == s.net;
  }

  // The leaf is empty: the thread leaves it half full while it arrives at the root.
  lemma {:induction false} IncHalf(s: Tree.State, t: nat) returns (s': Tree.State)
    requires Tree.Shape(s) && t < |s.pcs| && s.root.pcs[t].Idle? && s.pcs[t] == Tree.ArrLoad(0)
    requires s.leaves[s.home[t]].Count? && s.leaves[s.home[t]].c == 0
    ensures Leads(s, t, 3, s')
    ensures var l := s.home[t];
      s' == s.(root := s.root.(pcs := s.root.pcs[t := Root.ArrLoad]), leaves := s.leaves[l := Tree.Half],
               pcs := s.pcs[t := Tree.Up(true, s.leaves[l].v + 1, 0)])
  {
    var l, x := s.home[t], s.leaves[s.home[t]];
    assert Steps(s, t, 0) == s;
    assert Steps(s, t, 1) == s.(pcs := s.pcs[t := Tree.ArrHalf(x, 0)]);
    assert Steps(s, t, 2) == s.(leaves := s.leaves[l := Tree.Half], pcs := s.pcs[t := Tree.UpCall(true, x.v + 1, 0)]);
    s' := Steps(s, t, 3);
    assert s'.pcs == s.pcs[t := Tree.Up(true, x.v + 1, 0)];
  }

  // Back from the root, it fills the leaf and returns.
  lemma {:induction false} IncFills(s: Tree.State, t: nat, v: int)
    requires Tree.Shape(s) && t < |s.pcs| && s.root.pcs[t].Idle? && s.pcs[t] == Tree.Up(true, v, 0)
    requires s.leaves[s.home[t]].Half?
    ensures var l := s.home[t];
      Leads(s, t, 3, s.(leaves := s.leaves[l := Tree.Count(1, v)], pcs := s.pcs[t := Tree.Idle],
                        arrived := s.arrived[l := s.arrived[l] + 1]))
  {
    var l := s.home[t];
    assert Steps(s, t, 0) == s;
    assert Steps(s, t, 1) == s.(pcs := s.pcs[t := Tree.Fill(true, v, 0)]);
    assert Steps(s, t, 2) == s.(leaves := s.leaves[l := Tree.Count(1, v)], pcs := s.pcs[t := Tree.Undo(0)]);
    assert Steps(s, t, 3).pcs == s.pcs[t := Tree.Idle];
  }

  lemma {:induction false} IncEmpty(s: Tree.State, t: nat) returns (k: nat)
    requires Tree.Shape(s) && t < |s.pcs| && s.root.pcs[t].Idle? && s.pcs[t] == Tree.ArrLoad(0)
    requires s.leaves[s.home[t]].Count? && s.leaves[s.home[t]].c == 0
    ensures k <= 11
    ensures var l, x := s.home[t], s.leaves[s.home[t]];
      Leads(s, t, k, s.(root := Arrived(s.root, t), leaves := s.leaves[l := Tree.Count(1, x.v + 1)],
                        pcs := s.pcs[t := Tree.Idle], arrived := s.arrived[l := s.arrived[l] + 1],
                        net := Tree.Plus(s.net, l, 1)))
  {
    hide Tree.Enabled, Tree.Next, Leads;
    var l, x := s.home[t], s.leaves[s.home[t]];
    var s1 := IncHalf(s, t);
    var n := RootVisit(s1, t);
    assert s.root.pcs[t := Root.ArrLoad][t := Root.Idle] == s.root.pcs[t := Root.Idle];
    var s2 := s.(root := Arrived(s.root, t), leaves := s.leaves[l := Tree.Half],
      pcs := s.pcs[t := Tree.Up(true, x.v + 1, 0)], net := Tree.Plus(s.net, l, 1));
    IncFills(s2, t, x.v + 1);
    assert s2.leaves[l := Tree.Count(1, x.v + 1)] == s.leaves[l := Tree.Count(1, x.v + 1)];
    assert s2.pcs[t := Tree.Idle] == s.pcs[t := Tree.Idle];
    var s3 := s2.(leaves := s.leaves[l := Tree.Count(1, x.v + 1)], pcs := s.pcs[t := Tree.Idle],
      arrived := s.arrived[l := s.arrived[l] + 1]);
    Chain(s, t, 3, s1, n, s2);
    Chain(s, t, 3 + n, s2, 3, s3);
    k := 3 + n + 3;
  }

  // snzi_inc alone returns within 11 steps: it raises the count of a leaf in use, and fills an empty one
  // with a new version after an arrival at the root.
  lemma {:induction false} IncAlone(s: Tree.State, t: nat) returns (k: nat, s': Tree.State)
    requires Tree.Shape(s) && t < |s.pcs| && s.root.pcs[t].Idle? && s.pcs[t] == Tree.ArrLoad(0)
    requires s.leaves[s.home[t]].Count? && s.leaves[s.home[t]].c >= 0
    ensures k <= 11 && Leads(s, t, k, s')
    ensures var l, x := s.home[t], s.leaves[s.home[t]];
      if x.c >= 1 then s'.root == s.root && Only(s, s', t, Tree.Count(x.c + 1, x.v), s.arrived[l] + 1, s.net[l])
      else s'.root == Arrived(s.root, t) && Only(s, s', t, Tree.Count(1, x.v + 1), s.arrived[l] + 1, s.net[l] + 1)
  {
    var l, x := s.home[t], s.leaves[s.home[t]];
    if x.c >= 1 {
      s' := IncUsed(s, t);
      k := 3;
    } else {
      k := IncEmpty(s, t);
      s' := s.(root := Arrived(s.root, t), leaves := s.leaves[l := Tree.Count(1, x.v + 1)],
               pcs := s.pcs[t := Tree.Idle], arrived := s.arrived[l := s.arrived[l] + 1],
               net := Tree.Plus(s.net, l, 1));
      hide Leads;
    }
  }

  lemma {:induction false} DecLowers(s: Tree.State, t: nat)
    requires Tree.Shape(s) && t < |s.pcs| && s.root.pcs[t].Idle? && s.pcs[t].DepLoad?
    requires s.leaves[s.home[t]].Count?
    ensures var l, x := s.home[t], s.leaves[s.home[t]];
      Leads(s, t, 2, s.(leaves := s.leaves[l := Tree.Count(x.c - 1, x.v)],
                        pcs := s.pcs[t := if x.c == 1 then Tree.DownCall else Tree.Idle]))
  {
    var l, x := s.home[t], s.leaves[s.home[t]];
    assert Steps(s, t, 0) == s;
    assert Steps(s, t, 1) == s.(pcs := s.pcs[t := Tree.DepSwap(x)]);
    assert Steps(s, t, 2).pcs == s.pcs[t := if x.c == 1 then Tree.DownCall else Tree.Idle];
  }

  // The state in which t has called root_depart.
  function Called(s: Tree.State, t: nat): Tree.State
    requires Tree.Shape(s) && t < |s.pcs|
  {
    s.(root := s.root.(pcs := s.root.pcs[t := Root.DepLoad], leaving := s.root.leaving + 1),
       pcs := s.pcs[t := Tree.Down], net := Tree.Plus(s.net, s.home[t], -1))
  }

  // The last departure from the root, with the call before it and the return after it.
  lemma {:induction false} DecDown(s: Tree.State, t: nat) returns (k: nat)
    requires Tree.Shape(s) && t < |s.pcs| && s.root.pcs[t].Idle? && s.pcs[t].DownCall?
    ensures k <= 7
    ensures Leads(s, t, k, s.(root := Departed(s.root.(leaving := s.root.leaving + 1), t), pcs := s.pcs[t := Tree.Idle],
                              net := Tree.Plus(s.net, s.home[t], -1)))
  {
    hide Leads;
    var s1 := Called(s, t);
    assert Tree.Next(s, Tree.Go(t)) == s1;
    OneStep(s, t);
    var n := RootVisit(s1, t);
    var s2 := s1.(root := Departed(s1.root, t));
    var s3 := s2.(pcs := s.pcs[t := Tree.Idle]);
    assert Tree.Next(s2, Tree.Go(t)) == s3;
    OneStep(s2, t);
    Chain(s, t, 1, s1, n, s2);
    Chain(s, t, 1 + n, s2, 1, s3);
    assert s.root.pcs[t := Root.DepLoad][t := Root.Idle] == s.root.pcs[t := Root.Idle];
    k := n + 2;
  }

  // snzi_dec alone returns within 9 steps: it lowers the count of its leaf, and departs from the root if
  // it was the last at the leaf.
  lemma {:induction false} DecAlone(s: Tree.State, t: nat) returns (k: nat, s': Tree.State)
    requires Tree.Shape(s) && t < |s.pcs| && s.root.pcs[t].Idle? && s.pcs[t].DepLoad?
    requires s.leaves[s.home[t]].Count? && s.leaves[s.home[t]].c >= 1
    ensures k <= 9 && Leads(s, t, k, s')
    ensures var l, x := s.home[t], s.leaves[s.home[t]];
      if x.c > 1 then s'.root == s.root && Only(s, s', t, Tree.Count(x.c - 1, x.v), s.arrived[l], s.net[l])
      else s'.root == Departed(s.root.(leaving := s.root.leaving + 1), t) &&
           Only(s, s', t, Tree.Count(0, x.v), s.arrived[l], s.net[l] - 1)
  {
    hide Tree.Enabled, Tree.Next, Leads;
    var l, x := s.home[t], s.leaves[s.home[t]];
    DecLowers(s, t);
    var s1 := s.(leaves := s.leaves[l := Tree.Count(x.c - 1, x.v)],
                 pcs := s.pcs[t := if x.c == 1 then Tree.DownCall else Tree.Idle]);
    assert s.arrived[l := s.arrived[l]] == s.arrived && s.net[l := s.net[l]] == s.net;
    if x.c > 1 {
      k, s' := 2, s1;
    } else {
      var n := DecDown(s1, t);
      s' := s1.(root := Departed(s.root.(leaving := s.root.leaving + 1), t), pcs := s1.pcs[t := Tree.Idle],
                net := Tree.Plus(s.net, l, -1));
      Chain(s, t, 2, s1, n, s');
      k := 2 + n;
      assert s1.pcs[t := Tree.Idle] == s.pcs[t := Tree.Idle];
    }
  }
}
