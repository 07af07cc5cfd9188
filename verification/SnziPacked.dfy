/**
 The SNZI object on its packed 32-bit words, one leaf per thread, and the object itself with its
 words changed in place.

 As long as the versions fit 16 bits and the counter of root.state fits 31 bits, the packed object
 takes exactly the steps of the unbounded one in SnziTree, so it inherits its results.
 */
module SnziPacked {
  import opened Replay
  import opened Words
  import opened SnziWords
  import Root = SnziPackedRoot
  import SnziRoot
  import Tree = SnziTree

  datatype Pc =
    | Idle
    | ArrLoad(undo: nat)
    | ArrInc(x: nat, undo: nat)
    | ArrHalf(x: nat, undo: nat)
    | UpCall(own: bool, x: nat, v: int, undo: nat)
    | Up(own: bool, x: nat, v: int, undo: nat)
    | Fill(own: bool, x: nat, v: int, undo: nat)
    | Undo(undo: nat)
    | Undoing(undo: nat)
    | DepLoad
    | DepSwap(x: nat)
    | DownCall
    | Down

  datatype State = State(rootVar: nat, rootState: nat, leafVars: seq<nat>, rootPcs: seq<Root.Pc>, pcs: seq<Pc>)

  function Init(n: nat): State {
    State(0, 0, seq(n, _ => 0), seq(n, _ => Root.Idle), seq(n, _ => Idle))
  }

  predicate Enabled(p: State, e: Tree.Event) {
    e.t < |p.pcs| == |p.rootPcs| == |p.leafVars| &&
    match e
    case Inc(t) => p.pcs[t].Idle?
    case Dec(t) => p.pcs[t].Idle?
    case Go(t) => !p.pcs[t].Idle? && p.rootPcs[t].Idle?
    case RootGo(t) => !p.rootPcs[t].Idle?
  }

  // What a leaf step does: the new leaf word, the new place, and a root operation it calls.
  datatype LeafMem = LeafMem(w: nat, pc: Pc, call: Root.Pc)

  function LeafStep(w: nat, pc: Pc): LeafMem {
    match pc
    case Idle => LeafMem(w, pc, Root.Idle)
    case ArrLoad(undo) =>
      var d := LeafDecode(w);
      LeafMem(w, if d.c == -1 then UpCall(false, w, d.v, undo)
                 else if d.c >= 1 then ArrInc(w, undo)
                 else if d.c == 0 then ArrHalf(w, undo)
                 else ArrLoad(undo), Root.Idle)
    case ArrInc(x, undo) =>
      var d := LeafDecode(x);
      if w != x then LeafMem(w, ArrLoad(undo), Root.Idle)
      else LeafMem(LeafEncode(Short(d.c + 1), d.v), Undo(undo), Root.Idle)
    case ArrHalf(x, undo) =>
      var v := Short(LeafDecode(x).v + 1);
      if w != x then LeafMem(w, ArrLoad(undo), Root.Idle)
      else LeafMem(LeafEncode(-1, v), UpCall(true, LeafEncode(-1, v), v, undo), Root.Idle)
    case UpCall(own, x, v, undo) => LeafMem(w, Up(own, x, v, undo), Root.ArrLoad)
    case Up(own, x, v, undo) => LeafMem(w, Fill(own, x, v, undo), Root.Idle)
    case Fill(own, x, v, undo) =>
      var undo' := if w == x then undo else undo + 1;
      LeafMem(if w == x then LeafEncode(1, Short(v)) else w,
              if own then Undo(undo') else ArrLoad(undo'), Root.Idle)
    case Undo(undo) =>
      if undo == 0 then LeafMem(w, Idle, Root.Idle) else LeafMem(w, Undoing(undo - 1), Root.DepLoad)
    case Undoing(undo) => LeafMem(w, Undo(undo), Root.Idle)
    case DepLoad => LeafMem(w, DepSwap(w), Root.Idle)
    case DepSwap(x) =>
      var d := LeafDecode(x);
      if w != x then LeafMem(w, DepLoad, Root.Idle)
      else LeafMem(LeafEncode(Short(d.c - 1), d.v), if d.c == 1 then DownCall else Idle, Root.Idle)
    case DownCall => LeafMem(w, Down, Root.DepLoad)
    case Down => LeafMem(w, Idle, Root.Idle)
  }

  function Next(p: State, e: Tree.Event): State
    requires Enabled(p, e)
  {
    match e
    case Inc(t) => p.(pcs := p.pcs[t := ArrLoad(0)])
    case Dec(t) => p.(pcs := p.pcs[t := DepLoad])
    case Go(t) =>
      var r := LeafStep(p.leafVars[t], p.pcs[t]);
      p.(leafVars := p.leafVars[t := r.w], pcs := p.pcs[t := r.pc], rootPcs := p.rootPcs[t := r.call])
    case RootGo(t) =>
      var r := Root.RootStep(p.rootVar, p.rootState, p.rootPcs[t]);
      p.(rootVar := r.w, rootState := r.st, rootPcs := p.rootPcs[t := r.pc])
  }

  function After(n: nat, es: seq<Tree.Event>): State {
    if es == [] then Init(n)
    else
      var p := After(n, Front(es));
      if Enabled(p, Last(es)) then Next(p, Last(es)) else p
  }

  // root_query
  predicate Query(p: State) {
    BitAnd(p.rootState, 0x8000_0000) > 0
  }

  // ---------- packing ----------

  function PackLeaf(x: Tree.Leaf): nat {
    if x.Half? then ALL_ONES else if 0 <= x.c < 0x8000 then LeafEncode(x.c, Short(x.v)) else 0
  }

  function PackPc(p: Tree.Pc): Pc {
    match p
    case Idle => Pc.Idle
    case ArrLoad(undo) => Pc.ArrLoad(undo)
    case ArrInc(x, undo) => ArrInc(PackLeaf(x), undo)
    case ArrHalf(x, undo) => ArrHalf(PackLeaf(x), undo)
    case UpCall(own, v, undo) => UpCall(own, ALL_ONES, Short(v), undo)
    case Up(own, v, undo) => Up(own, ALL_ONES, Short(v), undo)
    case Fill(own, v, undo) => Fill(own, ALL_ONES, Short(v), undo)
    case Undo(undo) => Undo(undo)
    case Undoing(undo) => Undoing(undo)
    case DepLoad => Pc.DepLoad
    case DepSwap(x) => Pc.DepSwap(PackLeaf(x))
    case DownCall => DownCall
    case Down => Down
  }

  function Pack(s: Tree.State): State {
    State(Root.PackWord(s.root.word), Root.PackInd(s.root.ind),
          seq(|s.leaves|, l requires 0 <= l < |s.leaves| => PackLeaf(s.leaves[l])),
          seq(|s.root.pcs|, t requires 0 <= t < |s.root.pcs| => Root.PackPc(s.root.pcs[t])),
          seq(|s.pcs|, t requires 0 <= t < |s.pcs| => PackPc(s.pcs[t])))
  }

  // ---------- one thread per leaf ----------

  // The only user of a leaf finds there what it has left there, and never has to help or undo.
  ghost predicate SoloOk(p: Tree.Pc, x: Tree.Leaf) {
    match p
    case Idle => x.Count?
    case ArrLoad(undo) => undo == 0 && x.Count?
    case ArrInc(y, undo) => undo == 0 && x == y && x.Count? && x.c >= 1
    case ArrHalf(y, undo) => undo == 0 && x == y && x.Count? && x.c == 0
    case UpCall(own, _, undo) => own && undo == 0 && x.Half?
    case Up(own, _, undo) => own && undo == 0 && x.Half?
    case Fill(own, _, undo) => own && undo == 0 && x.Half?
    case Undo(undo) => undo == 0 && x.Count?
    case Undoing(undo) => false
    case DepLoad => x.Count?
    case DepSwap(y) => x == y && x.Count?
    case DownCall => x.Count? && x.c == 0
    case Down => x.Count? && x.c == 0
  }

  ghost predicate Solo(n: nat, s: Tree.State) {
    && Tree.Inv(s) && s.home == Tree.OwnLeaf(n) && |s.leaves| == |s.pcs| == n
    && forall t :: 0 <= t < n ==> SoloOk(s.pcs[t], s.leaves[t])
  }

  lemma {:induction false} SoloNext(n: nat, s: Tree.State, e: Tree.Event)
    requires Solo(n, s) && Tree.Enabled(s, e)
    ensures Solo(n, Tree.Next(s, e))
  {
    var s', t := Tree.Next(s, e), e.t;
    Tree.InvNext(s, e);
    assert s.home[t] == t;
    forall u | 0 <= u < n
      ensures SoloOk(s'.pcs[u], s'.leaves[u])
    {
      assert SoloOk(s.pcs[u], s.leaves[u]) && SoloOk(s.pcs[t], s.leaves[t]);
    }
  }

  lemma {:induction false} AtMostOneEach(pcs: seq<SnziRoot.Pc>, net: seq<int>)
    requires |pcs| == |net|
    requires forall t :: 0 <= t < |pcs| ==> net[t] + (if SnziRoot.Holds(pcs[t]) then 1 else 0) <= 1
    ensures SnziRoot.Holding(pcs) + Tree.Sum(net) <= |pcs|
  {
    if pcs != [] {
      AtMostOneEach(Front(pcs), Front(net));
    }
  }

  // The root count never exceeds the number of leaves.
  lemma {:induction false} RootCountBounded(n: nat, s: Tree.State)
    requires Solo(n, s)
    ensures 0 <= s.root.word.c <= n
  {
    forall t | 0 <= t < n
      ensures s.net[t] + (if SnziRoot.Holds(s.root.pcs[t]) then 1 else 0) <= 1
    {
      assert Tree.LeafOk(s, t) && Tree.ThreadOk(s, t) && SoloOk(s.pcs[t], s.leaves[t]);
      Tree.SumAtOwn(n, Tree.Owes(s), t);
    }
    AtMostOneEach(s.root.pcs, s.net);
  }

  // ---------- the simulation ----------

  // The bounds under which nothing wraps around.
  ghost predicate InRange(s: Tree.State) {
    && s.root.word.v < 0x1_0000 && s.root.ind.k < 0x8000_0000
    && forall l :: 0 <= l < |s.leaves| ==> s.leaves[l].Count? ==> s.leaves[l].c < 0x8000
  }

  ghost predicate InRangeRun(n: nat, es: seq<Tree.Event>) {
    InRange(Tree.After(n, Tree.OwnLeaf(n), es)) && (es != [] ==> InRangeRun(n, Front(es)))
  }

  ghost predicate Sim(n: nat, s: Tree.State) {
    Solo(n, s) && forall t :: 0 <= t < n ==> Root.Loaded(n, s.root, s.root.pcs[t])
  }

  lemma {:induction false} SimNext(n: nat, s: Tree.State, e: Tree.Event)
    requires Sim(n, s) && Tree.Enabled(s, e)
    ensures Sim(n, Tree.Next(s, e))
  {
    var s' := Tree.Next(s, e);
    SoloNext(n, s, e);
    RootCountBounded(n, s);
    RootCountBounded(n, s');
    Tree.RootSees(s, e);
    if s'.root != s.root {
      var f :| SnziRoot.Enabled(s.root, f) && s'.root == SnziRoot.Next(s.root, f);
      forall u | 0 <= u < n
        ensures Root.Loaded(n, s'.root, s'.root.pcs[u])
      {
        Root.LoadedNext(n, s.root, f, u);
      }
    }
  }

  lemma {:induction false} LeafFields(c: int, v: int)
    requires 0 <= c < 0x8000
    ensures LeafDecode(PackLeaf(Tree.Count(c, v))) == LeafWord(c, Short(v))
  {
    LeafRoundTrip(c, Short(v));
  }

  // A packed leaf step is the leaf step, packed.
  lemma {:induction false} LeafStepPacked(s: Tree.State, t: nat)
    requires Tree.Enabled(s, Tree.Go(t)) && s.home[t] == t && SoloOk(s.pcs[t], s.leaves[t])
    requires s.leaves[t].Count? ==> 0 <= s.leaves[t].c < 0x8000
    requires Tree.Registered(s.pcs[t]) && s.leaves[t].Count? ==> s.leaves[t].c >= 1
    requires s.pcs[t].ArrInc? ==> s.leaves[t].c + 1 < 0x8000
    ensures var s' := Tree.LeafStep(s, t);
      LeafStep(PackLeaf(s.leaves[t]), PackPc(s.pcs[t])) ==
        LeafMem(PackLeaf(s'.leaves[t]), PackPc(s'.pcs[t]), Root.PackPc(s'.root.pcs[t]))
  {
    hide LeafEncode, LeafDecode, Short;
    var p, x := s.pcs[t], s.leaves[t];
    if x.Count? {
      LeafFields(x.c, x.v);
      ShortAdds(x.v, 1);
      ShortAdds(x.v, 0);
      HalfIsAllOnes(Short(x.v + 1));
    }
    match p
    case Fill(_, v, _) => ShortAdds(v, 0);
    case _ =>
  }

  // A step of t changes t's part of each sequence.
  ghost predicate Local(s: Tree.State, s': Tree.State, t: nat) {
    && t < |s.pcs| == |s.leaves| == |s.root.pcs| && |s'.pcs| == |s'.leaves| == |s'.root.pcs| == |s.pcs|
    && s'.leaves == s.leaves[t := s'.leaves[t]]
    && s'.pcs == s.pcs[t := s'.pcs[t]]
    && s'.root.pcs == s.root.pcs[t := s'.root.pcs[t]]
  }

  lemma {:induction false} StepIsLocal(n: nat, s: Tree.State, e: Tree.Event)
    requires Solo(n, s) && Tree.Enabled(s, e)
    ensures Local(s, Tree.Next(s, e), e.t)
    ensures e.Go? ==> Tree.Next(s, e).root.word == s.root.word && Tree.Next(s, e).root.ind == s.root.ind
    ensures e.RootGo? ==> Tree.Next(s, e).leaves == s.leaves && Tree.Next(s, e).pcs == s.pcs
  {
    hide Tree.Inv, SoloOk;
    assert s.home[e.t] == e.t;
  }

  lemma {:induction false} PackLocal(s: Tree.State, s': Tree.State, t: nat)
    requires Local(s, s', t)
    ensures Pack(s').leafVars == Pack(s).leafVars[t := PackLeaf(s'.leaves[t])]
    ensures Pack(s').pcs == Pack(s).pcs[t := PackPc(s'.pcs[t])]
    ensures Pack(s').rootPcs == Pack(s).rootPcs[t := Root.PackPc(s'.root.pcs[t])]
  {
    hide PackLeaf, PackPc, Root.PackPc;
  }

  // Within range, a step of the packed object is the step of the unbounded one, packed.
  lemma {:induction false} PackedNext(n: nat, s: Tree.State, e: Tree.Event)
    requires n < 0x8000 && Sim(n, s) && Tree.Enabled(s, e)
    requires InRange(s) && InRange(Tree.Next(s, e))
    ensures Enabled(Pack(s), e) && Next(Pack(s), e) == Pack(Tree.Next(s, e))
  {
    StepIsLocal(n, s, e);
    PackLocal(s, Tree.Next(s, e), e.t);
    match e
    case Go(t) => PackedGo(n, s, t);
    case RootGo(t) => PackedRootGo(n, s, t);
    case _ =>
  }

  lemma {:induction false} PackedGo(n: nat, s: Tree.State, t: nat)
    requires n < 0x8000 && Sim(n, s) && Tree.Enabled(s, Tree.Go(t))
    requires InRange(s) && InRange(Tree.Next(s, Tree.Go(t)))
    ensures Enabled(Pack(s), Tree.Go(t)) && Next(Pack(s), Tree.Go(t)) == Pack(Tree.Next(s, Tree.Go(t)))
  {
    LeafFacts(n, s, t);
    assert s.home[t] == t && SoloOk(s.pcs[t], s.leaves[t]);
    LeafStepPacked(s, t);
    StepIsLocal(n, s, Tree.Go(t));
    PackLocal(s, Tree.Next(s, Tree.Go(t)), t);
    hide LeafStep, Tree.LeafStep, PackLeaf, Root.PackWord, Tree.Inv;
  }

  lemma {:induction false} PackedRootGo(n: nat, s: Tree.State, t: nat)
    requires n < 0x8000 && Sim(n, s) && Tree.Enabled(s, Tree.RootGo(t))
    requires InRange(s) && InRange(Tree.Next(s, Tree.RootGo(t)))
    ensures Enabled(Pack(s), Tree.RootGo(t)) && Next(Pack(s), Tree.RootGo(t)) == Pack(Tree.Next(s, Tree.RootGo(t)))
  {
    SoloNext(n, s, Tree.RootGo(t));
    RootCountBounded(n, s);
    RootCountBounded(n, Tree.Next(s, Tree.RootGo(t)));
    Root.RootStepPacked(n, s.root, t);
    StepIsLocal(n, s, Tree.RootGo(t));
    PackLocal(s, Tree.Next(s, Tree.RootGo(t)), t);
    hide Root.RootStep, SnziRoot.Next, PackLeaf, Root.PackWord, Tree.Inv;
  }

  lemma {:induction false} LeafFacts(n: nat, s: Tree.State, t: nat)
    requires Sim(n, s) && Tree.Enabled(s, Tree.Go(t)) && InRange(s) && InRange(Tree.Next(s, Tree.Go(t)))
    ensures s.leaves[t].Count? ==> 0 <= s.leaves[t].c < 0x8000
    ensures Tree.Registered(s.pcs[t]) && s.leaves[t].Count? ==> s.leaves[t].c >= 1
    ensures s.pcs[t].ArrInc? ==> s.leaves[t].c + 1 < 0x8000
  {
    assert s.home[t] == t && SoloOk(s.pcs[t], s.leaves[t]) && Tree.LeafOk(s, t);
    if Tree.Registered(s.pcs[t]) {
      Tree.Occupied(s, t);
    }
    if s.pcs[t].ArrInc? {
      assert Tree.Next(s, Tree.Go(t)).leaves[t] == Tree.Bumped(s.leaves[t], 1);
    }
  }

  lemma {:induction false} InitPacked(n: nat)
    requires n < 0x8000
    ensures Sim(n, Tree.Init(n, Tree.OwnLeaf(n))) && Pack(Tree.Init(n, Tree.OwnLeaf(n))) == Init(n)
  {
    var s := Tree.Init(n, Tree.OwnLeaf(n));
    Tree.InitInv(n, Tree.OwnLeaf(n));
    ZeroWords();
    hide LeafEncode, RootEncode, Tree.Inv;
    assert Pack(s).leafVars == Init(n).leafVars;
    assert Pack(s).rootPcs == Init(n).rootPcs;
    assert Pack(s).pcs == Init(n).pcs;
  }

  lemma {:induction false} ZeroWords()
    ensures RootEncode(0, false, 0) == 0 && LeafEncode(0, 0) == 0
  {
    RootForm(0, false, 0);
    LeafForm(0, 0);
  }

  // ---------- main results ----------

  // Every run that stays in range is, on the packed words, the same run as on unbounded versions
  // and counters.
  lemma {:induction false} PackedRefines(n: nat, es: seq<Tree.Event>)
    requires n < 0x8000 && Tree.Legal(n, Tree.OwnLeaf(n), es) && InRangeRun(n, es)
    ensures Sim(n, Tree.After(n, Tree.OwnLeaf(n), es))
    ensures After(n, es) == Pack(Tree.After(n, Tree.OwnLeaf(n), es))
  {
    hide Sim, Pack, InRange;
    if es == [] {
      InitPacked(n);
    } else {
      PackedRefines(n, Front(es));
      var s := Tree.After(n, Tree.OwnLeaf(n), Front(es));
      SimNext(n, s, Last(es));
      PackedNext(n, s, Last(es));
    }
  }

  // In such a run snzi_query on the packed words answers 1 while some thread is present, and with
  // no operation in flight only then; and the root count never exceeds the number of leaves.
  lemma {:induction false} PackedQuery(n: nat, es: seq<Tree.Event>)
    requires n < 0x8000 && Tree.Legal(n, Tree.OwnLeaf(n), es) && InRangeRun(n, es)
    ensures var s := Tree.After(n, Tree.OwnLeaf(n), es);
      && 0 <= s.root.word.c <= n
      && (Query(After(n, es)) <==> SnziRoot.Query(s.root))
      && ((exists t :: 0 <= t < n && s.leaving[t] < s.arrived[t]) ==> Query(After(n, es)))
      && ((forall t :: 0 <= t < n ==> s.pcs[t].Idle?) ==>
            (Query(After(n, es)) <==> exists t :: 0 <= t < n && s.leaving[t] < s.arrived[t]))
  {
    var s := Tree.After(n, Tree.OwnLeaf(n), es);
    PackedRefines(n, es);
    RootCountBounded(n, s);
    QueryForm(s.root.ind.bit, s.root.ind.k);
    if t :| 0 <= t < n && s.leaving[t] < s.arrived[t] {
      Tree.TreeSafety(n, Tree.OwnLeaf(n), es, t);
    }
    if forall t :: 0 <= t < n ==> s.pcs[t].Idle? {
      Tree.TreeQuiescent(n, Tree.OwnLeaf(n), es);
    }
  }

  /** The object: each method is one atomic step of one thread. */
  class SnziObject {
    const n: nat
    var rootVar: nat
    var rootState: nat
    const leafVars: array<nat>
    var rootPcs: seq<Root.Pc>
    var pcs: seq<Pc>
    ghost var trace: seq<Tree.Event>

    ghost function View(): State
      reads this, leafVars
    {
      State(rootVar, rootState, leafVars[..], rootPcs, pcs)
    }

    ghost predicate Valid()
      reads this, leafVars
    {
      View() == After(n, trace) && |pcs| == |rootPcs| == leafVars.Length == n
    }

    // snzi_init
    constructor (n: nat)
      ensures Valid() && fresh(leafVars) && this.n == n && trace == [] && View() == Init(n)
    {
      this.n := n;
      rootVar := 0;
      rootState := 0;
      leafVars := new nat[n](_ => 0);
      rootPcs := seq(n, _ => Root.Idle);
      pcs := seq(n, _ => Idle);
      trace := [];
    }

    // snzi_inc is called.
    method Increment(t: nat)
      requires Valid() && t < n && pcs[t].Idle?
      modifies this
      ensures Valid() && trace == old(trace) + [Tree.Inc(t)] && View() == Next(old(View()), Tree.Inc(t))
    {
      FrontOfAppend(trace, Tree.Inc(t));
      trace := trace + [Tree.Inc(t)];
      pcs := pcs[t := ArrLoad(0)];
    }

    // snzi_dec is called.
    method Decrement(t: nat)
      requires Valid() && t < n && pcs[t].Idle?
      modifies this
      ensures Valid() && trace == old(trace) + [Tree.Dec(t)] && View() == Next(old(View()), Tree.Dec(t))
    {
      FrontOfAppend(trace, Tree.Dec(t));
      trace := trace + [Tree.Dec(t)];
      pcs := pcs[t := DepLoad];
    }

    // snzi_query
    method ReadIndicator() returns (bit: bool)
      requires Valid()
      ensures bit == Query(View())
      ensures n < 0x8000 && Tree.Legal(n, Tree.OwnLeaf(n), trace) && InRangeRun(n, trace) ==>
        var s := Tree.After(n, Tree.OwnLeaf(n), trace);
        (exists t :: 0 <= t < n && s.leaving[t] < s.arrived[t]) ==> bit
    {
      if n < 0x8000 && Tree.Legal(n, Tree.OwnLeaf(n), trace) && InRangeRun(n, trace) {
        PackedQuery(n, trace);
      }
      bit := BitAnd(rootState, 0x8000_0000) > 0;
    }

    // A step of leaf_arrive that reads the leaf or tries to raise its count.
    method StepLeafArrive(t: nat)
      requires Valid() && t < n && rootPcs[t].Idle?
      requires pcs[t].ArrLoad? || pcs[t].ArrInc? || pcs[t].ArrHalf?
      modifies this, leafVars
      ensures Valid() && trace == old(trace) + [Tree.Go(t)] && View() == Next(old(View()), Tree.Go(t))
    {
      hide LeafEncode, LeafDecode, Short;
      ghost var was := View();
      FrontOfAppend(trace, Tree.Go(t));
      trace := trace + [Tree.Go(t)];
      var w := leafVars[t];
      match pcs[t]
      case ArrLoad(undo) =>
        var d := LeafDecode(w);
        if d.c == -1 {
          pcs := pcs[t := UpCall(false, w, d.v, undo)];
        } else if d.c >= 1 {
          pcs := pcs[t := ArrInc(w, undo)];
        } else if d.c == 0 {
          pcs := pcs[t := ArrHalf(w, undo)];
        }
      case ArrInc(x, undo) =>
        var d := LeafDecode(x);
        if w == x {
          leafVars[t] := LeafEncode(Short(d.c + 1), d.v);
          pcs := pcs[t := Undo(undo)];
        } else {
          pcs := pcs[t := ArrLoad(undo)];
        }
      case ArrHalf(x, undo) =>
        var v := Short(LeafDecode(x).v + 1);
        if w == x {
          var temp := LeafEncode(-1, v);
          leafVars[t] := temp;
          pcs := pcs[t := UpCall(true, temp, v, undo)];
        } else {
          pcs := pcs[t := ArrLoad(undo)];
        }
      assert leafVars[..] == was.leafVars[t := LeafStep(was.leafVars[t], was.pcs[t]).w];
      assert View() == Next(was, Tree.Go(t));
    }

    // A step of leaf_arrive that arrives at the root, fills the half state, or undoes an arrival.
    method StepLeafFill(t: nat)
      requires Valid() && t < n && rootPcs[t].Idle?
      requires pcs[t].UpCall? || pcs[t].Up? || pcs[t].Fill? || pcs[t].Undo? || pcs[t].Undoing?
      modifies this, leafVars
      ensures Valid() && trace == old(trace) + [Tree.Go(t)] && View() == Next(old(View()), Tree.Go(t))
    {
      hide LeafEncode, LeafDecode, Short;
      ghost var was := View();
      FrontOfAppend(trace, Tree.Go(t));
      trace := trace + [Tree.Go(t)];
      match pcs[t]
      case UpCall(own, x, v, undo) =>
        rootPcs := rootPcs[t := Root.ArrLoad];
        pcs := pcs[t := Up(own, x, v, undo)];
      case Up(own, x, v, undo) =>
        pcs := pcs[t := Fill(own, x, v, undo)];
      case Fill(own, x, v, undo) =>
        var undo' := undo;
        if leafVars[t] == x {
          leafVars[t] := LeafEncode(1, Short(v));
        } else {
          undo' := undo + 1;
        }
        pcs := pcs[t := if own then Undo(undo') else ArrLoad(undo')];
      case Undo(undo) =>
        if undo == 0 {
          pcs := pcs[t := Idle];
        } else {
          rootPcs := rootPcs[t := Root.DepLoad];
          pcs := pcs[t := Undoing(undo - 1)];
        }
      case Undoing(undo) =>
        pcs := pcs[t := Undo(undo)];
      assert leafVars[..] == was.leafVars[t := LeafStep(was.leafVars[t], was.pcs[t]).w];
      assert View() == Next(was, Tree.Go(t));
    }

    // One step of leaf_depart.
    method StepLeafDepart(t: nat)
      requires Valid() && t < n && rootPcs[t].Idle?
      requires pcs[t].DepLoad? || pcs[t].DepSwap? || pcs[t].DownCall? || pcs[t].Down?
      modifies this, leafVars
      ensures Valid() && trace == old(trace) + [Tree.Go(t)] && View() == Next(old(View()), Tree.Go(t))
    {
      hide LeafEncode, LeafDecode, Short;
      ghost var was := View();
      FrontOfAppend(trace, Tree.Go(t));
      trace := trace + [Tree.Go(t)];
      match pcs[t]
      case DepLoad =>
        pcs := pcs[t := DepSwap(leafVars[t])];
      case DepSwap(x) =>
        var d := LeafDecode(x);
        if leafVars[t] == x {
          leafVars[t] := LeafEncode(Short(d.c - 1), d.v);
          pcs := pcs[t := if d.c == 1 then DownCall else Idle];
        } else {
          pcs := pcs[t := DepLoad];
        }
      case DownCall =>
        rootPcs := rootPcs[t := Root.DepLoad];
        pcs := pcs[t := Down];
      case Down =>
        pcs := pcs[t := Idle];
      assert leafVars[..] == was.leafVars[t := LeafStep(was.leafVars[t], was.pcs[t]).w];
      assert View() == Next(was, Tree.Go(t));
    }

    // One step of root_arrive.
    method StepRootArrive(t: nat)
      requires Valid() && t < n
      requires rootPcs[t].ArrLoad? || rootPcs[t].ArrSwap? ||
               rootPcs[t].AnnLoad? || rootPcs[t].AnnSwap? || rootPcs[t].AnnDone?
      modifies this`rootVar, this`rootState, this`rootPcs, this`trace
      ensures Valid() && trace == old(trace) + [Tree.RootGo(t)] && View() == Next(old(View()), Tree.RootGo(t))
    {
      hide RootEncode, RootDecode, StateSuccessor, Short;
      FrontOfAppend(trace, Tree.RootGo(t));
      trace := trace + [Tree.RootGo(t)];
      match rootPcs[t]
      case ArrLoad =>
        rootPcs := rootPcs[t := Root.ArrSwap(rootVar)];
      case ArrSwap(x) =>
        var d := RootDecode(x);
        var temp := if d.c == 0 then RootEncode(1, true, Short(d.v + 1)) else RootEncode(Short(d.c + 1), d.a, d.v);
        if rootVar == x {
          rootVar := temp;
          rootPcs := rootPcs[t := if RootDecode(temp).a then Root.AnnLoad(temp) else Root.Idle];
        } else {
          rootPcs := rootPcs[t := Root.ArrLoad];
        }
      case AnnLoad(temp) =>
        rootPcs := rootPcs[t := Root.AnnSwap(temp, rootState)];
      case AnnSwap(temp, i) =>
        if rootState == i {
          rootState := StateSuccessor(i, true);
          rootPcs := rootPcs[t := Root.AnnDone(temp)];
        } else {
          rootPcs := rootPcs[t := Root.AnnLoad(temp)];
        }
      case AnnDone(temp) =>
        var d := RootDecode(temp);
        if rootVar == RootEncode(d.c, false, d.v) {
          rootVar := temp;
        }
        rootPcs := rootPcs[t := Root.Idle];
    }

    // One step of root_depart.
    method StepRootDepart(t: nat)
      requires Valid() && t < n
      requires rootPcs[t].DepLoad? || rootPcs[t].DepSwap? ||
               rootPcs[t].ClrLoad? || rootPcs[t].ClrCheck? || rootPcs[t].ClrSwap?
      modifies this`rootVar, this`rootState, this`rootPcs, this`trace
      ensures Valid() && trace == old(trace) + [Tree.RootGo(t)] && View() == Next(old(View()), Tree.RootGo(t))
    {
      hide RootEncode, RootDecode, StateSuccessor, Short;
      FrontOfAppend(trace, Tree.RootGo(t));
      trace := trace + [Tree.RootGo(t)];
      match rootPcs[t]
      case DepLoad =>
        rootPcs := rootPcs[t := Root.DepSwap(rootVar)];
      case DepSwap(x) =>
        var d := RootDecode(x);
        if rootVar == x {
          rootVar := RootEncode(Short(d.c - 1), false, d.v);
          rootPcs := rootPcs[t := if d.c >= 2 then Root.Idle else Root.ClrLoad(d.v)];
        } else {
          rootPcs := rootPcs[t := Root.DepLoad];
        }
      case ClrLoad(v) =>
        rootPcs := rootPcs[t := Root.ClrCheck(v, rootState)];
      case ClrCheck(v, i) =>
        rootPcs := rootPcs[t := if Short(rootVar / 0x1_0000) != v then Root.Idle else Root.ClrSwap(v, i)];
      case ClrSwap(v, i) =>
        if rootState == i {
          rootState := StateSuccessor(i, false);
          rootPcs := rootPcs[t := Root.Idle];
        } else {
          rootPcs := rootPcs[t := Root.ClrLoad(v)];
        }
    }
  }
}
