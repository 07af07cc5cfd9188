/**
 The whole SNZI object: leaves in front of one root.  snzi_inc and snzi_dec run leaf_arrive and
 leaf_depart, which arrive at and depart from the root.  Any number of threads may share a leaf.

 A leaf word in its half state is stored as all ones and loses its version, so Half carries none
 and a thread that helps sees version -1.
 */
module SnziTree {
  import opened Replay
  import Root = SnziRoot

  datatype Leaf = Count(c: int, v: int) | Half

  datatype Pc =
    | Idle
    | ArrLoad(undo: nat)                     // read leaf.var
    | ArrInc(x: Leaf, undo: nat)             // c >= 1: compare-and-swap c + 1
    | ArrHalf(x: Leaf, undo: nat)            // c == 0: compare-and-swap to the half state
    | UpCall(own: bool, v: int, undo: nat)   // about to arrive at the root
    | Up(own: bool, v: int, undo: nat)       // arriving at the root
    | Fill(own: bool, v: int, undo: nat)     // compare-and-swap the half state to 1
    | Undo(undo: nat)                        // departures from the root still owed
    | Undoing(undo: nat)                     // departing from the root
    | DepLoad                                // read leaf.var
    | DepSwap(x: Leaf)                       // compare-and-swap c - 1
    | DownCall                               // about to depart from the root
    | Down                                   // departing from the root

  // home[t] is the leaf of thread t; arrived and leaving count, per leaf, completed snzi_inc and
  // started snzi_dec calls; net counts, per leaf, completed arrivals at the root minus started
  // departures from it.
  datatype State = State(root: Root.State, leaves: seq<Leaf>, home: seq<nat>, pcs: seq<Pc>,
                         arrived: seq<nat>, leaving: seq<nat>, net: seq<int>)

  datatype Event = Inc(t: nat) | Dec(t: nat) | Go(t: nat) | RootGo(t: nat)

  function Init(leaves: nat, home: seq<nat>): State {
    State(Root.Init(|home|), seq(leaves, _ => Count(0, 0)), home, seq(|home|, _ => Idle),
          seq(leaves, _ => 0), seq(leaves, _ => 0), seq(leaves, _ => 0))
  }

  predicate Shape(s: State) {
    |s.root.pcs| == |s.pcs| == |s.home| &&
    |s.arrived| == |s.leaving| == |s.net| == |s.leaves| &&
    forall t :: 0 <= t < |s.home| ==> s.home[t] < |s.leaves|
  }

  // RootGo steps a running root operation; a leaf step needs its root operation to have returned.
  // Only the caller's discipline is asked of Dec: no departure without a completed arrival.
  predicate Enabled(s: State, e: Event) {
    Shape(s) && e.t < |s.pcs| &&
    match e
    case Inc(t) => s.pcs[t].Idle?
    case Dec(t) => s.pcs[t].Idle? && s.leaving[s.home[t]] < s.arrived[s.home[t]]
    case Go(t) => !s.pcs[t].Idle? && s.root.pcs[t].Idle?
    case RootGo(t) => !s.root.pcs[t].Idle?
  }

  function Plus(s: seq<int>, l: nat, d: int): seq<int>
    requires l < |s|
  {
    s[l := s[l] + d]
  }

  function Next(s: State, e: Event): State
    requires Enabled(s, e)
  {
    var l := s.home[e.t];
    match e
    case Inc(t) => s.(pcs := s.pcs[t := ArrLoad(0)])
    case Dec(t) => s.(pcs := s.pcs[t := DepLoad], leaving := s.leaving[l := s.leaving[l] + 1])
    case Go(t) => LeafStep(s, t)
    case RootGo(t) =>
      var r := Root.Next(s.root, Root.Go(t));
      s.(root := r, net := Plus(s.net, l, r.arrived - s.root.arrived))
  }

  function LeafStep(s: State, t: nat): State
    requires Enabled(s, Go(t))
  {
    var l := s.home[t];
    var x' := s.leaves[l];
    match s.pcs[t]
    case ArrLoad(undo) =>
      s.(pcs := s.pcs[t := if x'.Half? then UpCall(false, -1, undo)
                           else if x'.c >= 1 then ArrInc(x', undo)
                           else if x'.c == 0 then ArrHalf(x', undo)
                           else ArrLoad(undo)])
    case ArrInc(x, undo) =>
      if x' != x then s.(pcs := s.pcs[t := ArrLoad(undo)])
      else s.(leaves := s.leaves[l := Bumped(x, 1)], pcs := s.pcs[t := Undo(undo)])
    case ArrHalf(x, undo) =>
      if x' != x then s.(pcs := s.pcs[t := ArrLoad(undo)])
      else s.(leaves := s.leaves[l := Half], pcs := s.pcs[t := UpCall(true, Version(x) + 1, undo)])
    case UpCall(own, v, undo) =>
      s.(root := Root.Next(s.root, Root.Arrive(t)), pcs := s.pcs[t := Up(own, v, undo)])
    case Up(own, v, undo) => s.(pcs := s.pcs[t := Fill(own, v, undo)])
    case Fill(own, v, undo) =>
      var undo' := if x' == Half then undo else undo + 1;
      s.(leaves := if x' == Half then s.leaves[l := Count(1, v)] else s.leaves,
         pcs := s.pcs[t := if own then Undo(undo') else ArrLoad(undo')])
    case Undo(undo) =>
      if undo == 0 then s.(pcs := s.pcs[t := Idle], arrived := s.arrived[l := s.arrived[l] + 1])
      else RootDepart(s, t, Undoing(undo - 1))
    case Undoing(undo) => s.(pcs := s.pcs[t := Undo(undo)])
    case DepLoad => s.(pcs := s.pcs[t := DepSwap(x')])
    case DepSwap(x) =>
      if x' != x then s.(pcs := s.pcs[t := DepLoad])
      else s.(leaves := s.leaves[l := Bumped(x, -1)],
              pcs := s.pcs[t := if x.Count? && x.c == 1 then DownCall else Idle])
    case DownCall => RootDepart(s, t, Down)
    case Down => s.(pcs := s.pcs[t := Idle])
  }

  function Version(x: Leaf): int {
    if x.Half? then -1 else x.v
  }

  // leaf_encode(c + d, v); the half state reads as c == -1.
  function Bumped(x: Leaf, d: int): Leaf {
    Count((if x.Half? then -1 else x.c) + d, Version(x))
  }

  // The call of root_depart.  SafeCalls below shows that the root's own discipline always allows it.
  function RootDepart(s: State, t: nat, p: Pc): State
    requires Shape(s) && t < |s.pcs| && s.root.pcs[t].Idle?
  {
    s.(root := s.root.(pcs := s.root.pcs[t := Root.DepLoad], leaving := s.root.leaving + 1),
       pcs := s.pcs[t := p], net := Plus(s.net, s.home[t], -1))
  }

  ghost predicate Legal(leaves: nat, home: seq<nat>, es: seq<Event>) {
    es == [] || (Legal(leaves, home, Front(es)) && Enabled(After(leaves, home, Front(es)), Last(es)))
  }

  function After(leaves: nat, home: seq<nat>, es: seq<Event>): (s: State)
    ensures |s.pcs| == |s.root.pcs| == |home| && s.home == home
    ensures |s.leaves| == |s.arrived| == |s.leaving| == |s.net| == leaves
  {
    if es == [] then Init(leaves, home)
    else
      var s := After(leaves, home, Front(es));
      if Enabled(s, Last(es)) then Next(s, Last(es)) else s
  }

  // ---------- sums over threads and leaves ----------

  // Operations that own one unit of their leaf's count while they run: an arrival that has
  // registered and not returned, a departure that has not lowered the count.
  predicate Registered(p: Pc) {
    ((p.UpCall? || p.Up? || p.Fill?) && p.own) || p.Undo? || p.Undoing? || p.DepLoad? || p.DepSwap?
  }

  // Arrivals at the root that thread t has completed and not yet given away.
  function Owed(p: Pc, rootIdle: bool): nat {
    match p
    case ArrLoad(undo) => undo
    case ArrInc(_, undo) => undo
    case ArrHalf(_, undo) => undo
    case UpCall(_, _, undo) => undo
    case Up(_, _, undo) => undo + if rootIdle then 1 else 0
    case Fill(_, _, undo) => undo + 1
    case Undo(undo) => undo
    case Undoing(undo) => undo
    case DownCall => 1
    case _ => 0
  }

  // The sum of f over the threads whose home is leaf l.
  function SumAt(home: seq<nat>, f: seq<nat>, l: nat): nat
    requires |home| == |f|
  {
    if home == [] then 0
    else SumAt(Front(home), Front(f), l) + if Last(home) == l then Last(f) else 0
  }

  lemma {:induction false} SumAtUpdate(home: seq<nat>, f: seq<nat>, l: nat, t: nat, x: nat)
    requires |home| == |f| && t < |f|
    ensures SumAt(home, f[t := x], l) == SumAt(home, f, l) + if home[t] == l then x - f[t] else 0
  {
    if t == |f| - 1 {
      assert Front(f[t := x]) == Front(f);
    } else {
      SumAtUpdate(Front(home), Front(f), l, t, x);
      assert Front(f[t := x]) == Front(f)[t := x];
    }
  }

  lemma {:induction false} SumAtLeast(home: seq<nat>, f: seq<nat>, l: nat, t: nat)
    requires |home| == |f| && t < |f| && home[t] == l
    ensures SumAt(home, f, l) >= f[t]
  {
    if t < |f| - 1 {
      SumAtLeast(Front(home), Front(f), l, t);
    }
  }

  lemma {:induction false} SumAtTwo(home: seq<nat>, f: seq<nat>, l: nat, t: nat, u: nat)
    requires |home| == |f| && t < u < |f| && home[t] == l == home[u]
    ensures SumAt(home, f, l) >= f[t] + f[u]
  {
    if u == |f| - 1 {
      SumAtLeast(Front(home), Front(f), l, t);
    } else {
      SumAtTwo(Front(home), Front(f), l, t, u);
    }
  }

  lemma {:induction false} SumAtZero(home: seq<nat>, f: seq<nat>, l: nat)
    requires |home| == |f| && forall t :: 0 <= t < |f| && home[t] == l ==> f[t] == 0
    ensures SumAt(home, f, l) == 0
  {
    if home != [] {
      SumAtZero(Front(home), Front(f), l);
    }
  }

  function Sum(f: seq<int>): int {
    if f == [] then 0 else Sum(Front(f)) + Last(f)
  }

  lemma {:induction false} SumPlus(f: seq<int>, l: nat, d: int)
    requires l < |f|
    ensures Sum(Plus(f, l, d)) == Sum(f) + d
  {
    if l == |f| - 1 {
      assert Front(Plus(f, l, d)) == Front(f);
    } else {
      SumPlus(Front(f), l, d);
      assert Front(Plus(f, l, d)) == Plus(Front(f), l, d);
    }
  }

  // A sum of naturals is at least the number of entries that are positive.
  lemma {:induction false} SumCounts(f: seq<int>, s: seq<Leaf>)
    requires |f| == |s|
    requires forall l :: 0 <= l < |f| ==> f[l] >= Full(s[l])
    ensures Sum(f) >= NonEmpty(s)
  {
    if f != [] {
      SumCounts(Front(f), Front(s));
    }
  }

  function Full(x: Leaf): nat {
    if x.Count? && x.c >= 1 then 1 else 0
  }

  function NonEmpty(s: seq<Leaf>): nat {
    if s == [] then 0 else NonEmpty(Front(s)) + Full(Last(s))
  }

  lemma {:induction false} NonEmptyAt(s: seq<Leaf>, l: nat)
    requires l < |s|
    ensures NonEmpty(s) >= Full(s[l])
  {
    if l < |s| - 1 {
      NonEmptyAt(Front(s), l);
    }
  }

  // One thread per leaf.
  function OwnLeaf(n: nat): seq<nat> {
    seq(n, i => i)
  }

  lemma {:induction false} SumAtOwn(n: nat, f: seq<nat>, l: nat)
    requires |f| == n && l < n
    ensures SumAt(OwnLeaf(n), f, l) == f[l]
  {
    var home := OwnLeaf(n);
    assert Front(home) == OwnLeaf(n - 1) && Last(home) == n - 1;
    if l == n - 1 {
      SumAtZero(Front(home), Front(f), l);
    } else {
      SumAtOwn(n - 1, Front(f), l);
    }
  }

  // ---------- the invariant ----------

  function Regs(s: State): (r: seq<nat>)
    ensures |r| == |s.pcs|
  {
    seq(|s.pcs|, t requires 0 <= t < |s.pcs| => if Registered(s.pcs[t]) then 1 else 0)
  }

  function Owes(s: State): (r: seq<nat>)
    requires Shape(s)
    ensures |r| == |s.pcs|
  {
    seq(|s.pcs|, t requires 0 <= t < |s.pcs| => Owed(s.pcs[t], s.root.pcs[t].Idle?))
  }

  // The half state counts as 1: the arrival that made it is registered.
  function Value(x: Leaf): int {
    if x.Half? then 1 else x.c
  }

  predicate Filling(p: Pc) {
    (p.UpCall? || p.Up? || p.Fill?) && p.own
  }

  // A thread runs a root operation only where the leaf code called one.
  predicate InRoot(p: Pc, r: Root.Pc) {
    r.Idle? || p.Up? || p.Undoing? || p.Down?
  }

  // A root arrival runs under Up, a root departure elsewhere.
  predicate Direction(p: Pc, r: Root.Pc) {
    (p.Up? ==> !r.DepLoad? && !r.DepSwap? && !Root.Clearing(r)) &&
    (p.Undoing? || p.Down? ==> r.Idle? || r.DepLoad? || r.DepSwap? || Root.Clearing(r))
  }

  ghost predicate ThreadOk(s: State, t: nat)
    requires Shape(s) && t < |s.pcs|
  {
    InRoot(s.pcs[t], s.root.pcs[t]) && Direction(s.pcs[t], s.root.pcs[t]) &&
    (s.pcs[t].ArrInc? ==> s.pcs[t].x.Count? && s.pcs[t].x.c >= 1) &&
    (s.pcs[t].ArrHalf? ==> s.pcs[t].x.Count? && s.pcs[t].x.c == 0)
  }

  // The count of a leaf is what its threads own of it, and its balance at the root is what its
  // threads still owe plus one if the leaf is not empty.
  ghost predicate LeafCounts(s: State, l: nat)
    requires Shape(s) && l < |s.leaves|
  {
    && s.leaving[l] <= s.arrived[l]
    && Value(s.leaves[l]) == SumAt(s.home, Regs(s), l) + s.arrived[l] - s.leaving[l]
    && s.net[l] == Full(s.leaves[l]) + SumAt(s.home, Owes(s), l)
  }

  ghost predicate LeafOk(s: State, l: nat)
    requires Shape(s) && l < |s.leaves|
  {
    && LeafCounts(s, l)
    && (s.leaves[l].Half? ==> exists t :: 0 <= t < |s.pcs| && s.home[t] == l && Filling(s.pcs[t]))
  }

  ghost predicate Inv(s: State) {
    && Shape(s)
    && Root.Inv(s.root) && Root.Exact(s.root)
    && Sum(s.net) == s.root.arrived - s.root.leaving
    && (forall t :: 0 <= t < |s.pcs| ==> ThreadOk(s, t))
    && (forall l :: 0 <= l < |s.leaves| ==> LeafOk(s, l))
  }

  // ---------- preservation ----------

  predicate Moves(s: State, s': State, t: nat) {
    Shape(s) && Shape(s') && s'.home == s.home && t < |s.pcs| == |s'.pcs| && |s'.leaves| == |s.leaves| &&
    s'.pcs == s.pcs[t := s'.pcs[t]] && s'.root.pcs == s.root.pcs[t := s'.root.pcs[t]]
  }

  function Reg(s: State, t: nat): nat
    requires t < |s.pcs|
  {
    if Registered(s.pcs[t]) then 1 else 0
  }

  function Owe(s: State, t: nat): nat
    requires Shape(s) && t < |s.pcs|
  {
    Owed(s.pcs[t], s.root.pcs[t].Idle?)
  }

  lemma {:induction false} Deltas(s: State, s': State, t: nat, l: nat)
    requires Moves(s, s', t)
    ensures SumAt(s'.home, Regs(s'), l) ==
      SumAt(s.home, Regs(s), l) + if s.home[t] == l then Reg(s', t) - Reg(s, t) else 0
    ensures SumAt(s'.home, Owes(s'), l) ==
      SumAt(s.home, Owes(s), l) + if s.home[t] == l then Owe(s', t) - Owe(s, t) else 0
  {
    assert Regs(s') == Regs(s)[t := Reg(s', t)];
    assert Owes(s') == Owes(s)[t := Owe(s', t)];
    SumAtUpdate(s.home, Regs(s), l, t, Reg(s', t));
    SumAtUpdate(s.home, Owes(s), l, t, Owe(s', t));
  }

  // A leaf other than the home of the moving thread is not affected.
  lemma {:induction false} OtherLeaf(s: State, s': State, t: nat, l: nat)
    requires Moves(s, s', t) && l < |s.leaves| && l != s.home[t] && LeafOk(s, l)
    requires s'.leaves[l] == s.leaves[l] && s'.net[l] == s.net[l]
    requires s'.arrived[l] == s.arrived[l] && s'.leaving[l] == s.leaving[l]
    ensures LeafOk(s', l)
  {
    hide SumAt;
    Deltas(s, s', t, l);
    if s.leaves[l].Half? {
      var u :| 0 <= u < |s.pcs| && s.home[u] == l && Filling(s.pcs[u]);
      assert s'.home[u] == l && Filling(s'.pcs[u]);
    }
  }

  // What the counts say about the leaf of a registered thread.
  lemma {:induction false} Occupied(s: State, t: nat)
    requires Inv(s) && t < |s.pcs| && Registered(s.pcs[t])
    ensures Value(s.leaves[s.home[t]]) >= 1
    ensures !Filling(s.pcs[t]) ==> s.leaves[s.home[t]].Count?
  {
    var l := s.home[t];
    assert LeafOk(s, l);
    SumAtLeast(s.home, Regs(s), l, t);
    if s.leaves[l].Half? && !Filling(s.pcs[t]) {
      var u :| 0 <= u < |s.pcs| && s.home[u] == l && Filling(s.pcs[u]);
      if u < t {
        SumAtTwo(s.home, Regs(s), l, u, t);
      } else {
        SumAtTwo(s.home, Regs(s), l, t, u);
      }
    }
  }

  lemma {:induction false} SumAtMost(f: seq<int>, l: nat)
    requires l < |f| && forall i :: 0 <= i < |f| ==> f[i] >= 0
    ensures 0 <= f[l] <= Sum(f)
  {
    if |f| > 1 {
      SumAtMost(Front(f), if l < |f| - 1 then l else 0);
    }
  }

  // A thread that owes a departure may start it: the root has a completed arrival for it.
  lemma {:induction false} SafeCall(s: State, t: nat)
    requires Inv(s) && t < |s.pcs| && Owe(s, t) >= 1
    ensures s.root.leaving < s.root.arrived
  {
    var l := s.home[t];
    forall i | 0 <= i < |s.net|
      ensures s.net[i] >= 0
    {
      assert LeafOk(s, i);
    }
    assert LeafOk(s, l);
    SumAtLeast(s.home, Owes(s), l, t);
    SumAtMost(s.net, l);
  }

  lemma {:induction false} RootMoves(s: State, e: Event)
    requires Inv(s) && Enabled(s, e)
    ensures Moves(s, Next(s, e), e.t)
  {
    hide Root.Inv, Root.Exact, SumAt, Sum, LeafOk, ThreadOk;
  }

  // The root sees its own steps, an arrival, an allowed departure, or nothing.
  lemma {:induction false} RootSees(s: State, e: Event)
    requires Inv(s) && Enabled(s, e)
    ensures var r := Next(s, e).root;
      r == s.root ||
      (exists f :: Root.Enabled(s.root, f) && r == Root.Next(s.root, f))
  {
    var t := e.t;
    assert ThreadOk(s, t);
    if e.RootGo? {
      assert Root.Enabled(s.root, Root.Go(t));
    } else if e.Go? && s.pcs[t].UpCall? {
      assert Root.Enabled(s.root, Root.Arrive(t));
    } else if e.Go? && (s.pcs[t].DownCall? || (s.pcs[t].Undo? && s.pcs[t].undo > 0)) {
      SafeCall(s, t);
      assert Root.Enabled(s.root, Root.Depart(t));
      assert Next(s, e).root == Root.Next(s.root, Root.Depart(t));
    }
  }

  lemma {:induction false} RootKept(s: State, e: Event)
    requires Inv(s) && Enabled(s, e)
    ensures Root.Inv(Next(s, e).root) && Root.Exact(Next(s, e).root)
  {
    RootSees(s, e);
    if Next(s, e).root != s.root {
      var f :| Root.Enabled(s.root, f) && Next(s, e).root == Root.Next(s.root, f);
      Root.InvNext(s.root, f);
      Root.ExactNext(s.root, f);
    }
  }

  lemma {:induction false} NetKept(s: State, e: Event)
    requires Inv(s) && Enabled(s, e)
    ensures Sum(Next(s, e).net) == Next(s, e).root.arrived - Next(s, e).root.leaving
  {
    hide Root.Inv, Root.Exact, SumAt, Sum, LeafOk;
    var l := s.home[e.t];
    if e.RootGo? {
      SumPlus(s.net, l, Root.Next(s.root, Root.Go(e.t)).arrived - s.root.arrived);
    } else {
      SumPlus(s.net, l, -1);
    }
  }

  lemma {:induction false} ThreadsKept(s: State, e: Event, u: nat)
    requires Inv(s) && Enabled(s, e) && u < |s.pcs|
    requires Moves(s, Next(s, e), e.t)
    ensures ThreadOk(Next(s, e), u)
  {
    hide Root.Inv, Root.Exact, SumAt, Sum, LeafOk;
    assert ThreadOk(s, u);
  }

  lemma {:induction false} HalfKept(s: State, e: Event)
    requires Inv(s) && Enabled(s, e)
    requires Moves(s, Next(s, e), e.t)
    ensures var s', l := Next(s, e), s.home[e.t];
      s'.leaves[l].Half? ==> exists t :: 0 <= t < |s'.pcs| && s'.home[t] == l && Filling(s'.pcs[t])
  {
    hide Root.Inv, Root.Exact, SumAt, Sum;
    var s', t := Next(s, e), e.t;
    var l := s.home[t];
    assert LeafOk(s, l);
    if s'.leaves[l].Half? {
      if s.leaves[l].Half? {
        var u :| 0 <= u < |s.pcs| && s.home[u] == l && Filling(s.pcs[u]);
        assert s'.home[u] == l && Filling(s'.pcs[u]);
      } else {
        assert s'.home[t] == l && Filling(s'.pcs[t]);
      }
    }
  }

  lemma {:induction false} CountsKeptRoot(s: State, e: Event)
    requires Inv(s) && Enabled(s, e) && e.RootGo?
    requires Moves(s, Next(s, e), e.t)
    ensures LeafCounts(Next(s, e), s.home[e.t])
  {
    hide Root.Inv, Root.Exact, SumAt, Sum;
    assert LeafOk(s, s.home[e.t]) && ThreadOk(s, e.t);
    Deltas(s, Next(s, e), e.t, s.home[e.t]);
  }

  // What a leaf step changes, thread and leaf together.
  ghost predicate StepBalanced(s: State, e: Event)
    requires Enabled(s, e)
  {
    var s', l := Next(s, e), s.home[e.t];
    && Shape(s') && |s'.pcs| == |s.pcs| && |s'.leaves| == |s.leaves|
    && s'.leaving[l] <= s'.arrived[l]
    && Value(s'.leaves[l]) - Value(s.leaves[l]) ==
         Reg(s', e.t) - Reg(s, e.t) + (s'.arrived[l] - s.arrived[l]) - (s'.leaving[l] - s.leaving[l])
    && s'.net[l] - s.net[l] ==
         Full(s'.leaves[l]) - Full(s.leaves[l]) + Owe(s', e.t) - Owe(s, e.t)
  }

  lemma {:induction false} ArriveBalanced(s: State, t: nat)
    requires Enabled(s, Go(t)) && ThreadOk(s, t) && s.leaving[s.home[t]] <= s.arrived[s.home[t]]
    requires s.pcs[t].ArrLoad? || s.pcs[t].ArrInc? || s.pcs[t].ArrHalf? ||
             s.pcs[t].UpCall? || s.pcs[t].Up? || s.pcs[t].Fill?
    requires Registered(s.pcs[t]) ==> Value(s.leaves[s.home[t]]) >= 1
    ensures StepBalanced(s, Go(t))
  {
    hide SumAt;
  }

  lemma {:induction false} DepartBalanced(s: State, e: Event)
    requires Enabled(s, e) && !e.RootGo? && ThreadOk(s, e.t) && s.leaving[s.home[e.t]] <= s.arrived[s.home[e.t]]
    requires e.Go? ==> s.pcs[e.t].Undo? || s.pcs[e.t].Undoing? || s.pcs[e.t].DepLoad? || s.pcs[e.t].DepSwap? ||
                       s.pcs[e.t].DownCall? || s.pcs[e.t].Down?
    requires Registered(s.pcs[e.t]) ==> s.leaves[s.home[e.t]].Count? && Value(s.leaves[s.home[e.t]]) >= 1
    ensures StepBalanced(s, e)
  {
    hide Root.Next, SumAt;
  }

  lemma {:induction false} CountsKeptGo(s: State, e: Event)
    requires Inv(s) && Enabled(s, e) && !e.RootGo?
    requires Moves(s, Next(s, e), e.t)
    ensures LeafCounts(Next(s, e), s.home[e.t])
  {
    var l := s.home[e.t];
    if Registered(s.pcs[e.t]) {
      Occupied(s, e.t);
    }
    assert LeafOk(s, l) && ThreadOk(s, e.t);
    if e.Go? && (s.pcs[e.t].ArrLoad? || s.pcs[e.t].ArrInc? || s.pcs[e.t].ArrHalf? ||
                 s.pcs[e.t].UpCall? || s.pcs[e.t].Up? || s.pcs[e.t].Fill?) {
      ArriveBalanced(s, e.t);
    } else {
      DepartBalanced(s, e);
    }
    hide Next, Inv, SumAt, Reg, Owe, Value, Full;
    Deltas(s, Next(s, e), e.t, l);
  }

  lemma {:induction false} LeafKept(s: State, e: Event)
    requires Inv(s) && Enabled(s, e)
    requires Moves(s, Next(s, e), e.t)
    ensures LeafOk(Next(s, e), s.home[e.t])
  {
    hide Inv, LeafCounts;
    HalfKept(s, e);
    if e.RootGo? {
      CountsKeptRoot(s, e);
    } else {
      CountsKeptGo(s, e);
    }
  }

  lemma {:induction false} InvNext(s: State, e: Event)
    requires Inv(s) && Enabled(s, e)
    ensures Inv(Next(s, e))
  {
    hide Root.Inv, Root.Exact, SumAt, Sum, LeafOk, ThreadOk, Root.Next;
    var s' := Next(s, e);
    RootMoves(s, e);
    RootKept(s, e);
    NetKept(s, e);
    forall u | 0 <= u < |s.pcs|
      ensures ThreadOk(s', u)
    {
      ThreadsKept(s, e, u);
    }
    forall l | 0 <= l < |s'.leaves|
      ensures LeafOk(s', l)
    {
      assert LeafOk(s, l);
      if l == s.home[e.t] {
        LeafKept(s, e);
      } else {
        OtherLeaf(s, s', e.t, l);
      }
    }
  }

  lemma {:induction false} InitInv(leaves: nat, home: seq<nat>)
    requires forall t :: 0 <= t < |home| ==> home[t] < leaves
    ensures Inv(Init(leaves, home))
  {
    var s := Init(leaves, home);
    Root.HoldingNone(s.root.pcs);
    SumZero(s.net);
    forall l | 0 <= l < |s.leaves|
      ensures LeafOk(s, l)
    {
      SumAtZero(home, Regs(s), l);
      SumAtZero(home, Owes(s), l);
    }
  }

  lemma {:induction false} SumZero(f: seq<int>)
    requires forall l :: 0 <= l < |f| ==> f[l] == 0
    ensures Sum(f) == 0
  {
    if f != [] {
      SumZero(Front(f));
    }
  }

  lemma {:induction false} InvAlways(leaves: nat, home: seq<nat>, es: seq<Event>)
    requires forall t :: 0 <= t < |home| ==> home[t] < leaves
    requires Legal(leaves, home, es)
    ensures var s := After(leaves, home, es);
      Inv(s) && s.home == home && |s.leaves| == leaves
  {
    if es == [] {
      InitInv(leaves, home);
    } else {
      InvAlways(leaves, home, Front(es));
      InvNext(After(leaves, home, Front(es)), Last(es));
    }
  }

  // ---------- main results ----------

  lemma {:induction false} IndicatorShows(s: State, l: nat)
    requires Inv(s) && l < |s.leaves| && s.leaving[l] < s.arrived[l]
    ensures s.leaves[l].Count? && s.leaves[l].c >= 1 && Root.Query(s.root)
  {
    assert LeafOk(s, l);
    if s.leaves[l].Half? {
      var t :| 0 <= t < |s.pcs| && s.home[t] == l && Filling(s.pcs[t]);
      SumAtLeast(s.home, Regs(s), l, t);
    }
    SurplusCoversLeaves(s);
    NonEmptyAt(s.leaves, l);
  }

  lemma {:induction false} SurplusCoversLeaves(s: State)
    requires Inv(s)
    ensures s.root.arrived - s.root.leaving >= NonEmpty(s.leaves)
  {
    forall l | 0 <= l < |s.net|
      ensures s.net[l] >= Full(s.leaves[l])
    {
      assert LeafOk(s, l);
    }
    SumCounts(s.net, s.leaves);
  }

  // While some thread has completed snzi_inc and not started its snzi_dec, snzi_query answers
  // true, whatever the interleaving, and however threads share leaves.
  lemma {:induction false} TreeSafety(leaves: nat, home: seq<nat>, es: seq<Event>, l: nat)
    requires forall t :: 0 <= t < |home| ==> home[t] < leaves
    requires Legal(leaves, home, es) && l < leaves
    requires After(leaves, home, es).leaving[l] < After(leaves, home, es).arrived[l]
    ensures Root.Query(After(leaves, home, es).root)
  {
    InvAlways(leaves, home, es);
    IndicatorShows(After(leaves, home, es), l);
  }

  // Conservation: the arrivals a leaf has completed at the root minus the departures it has
  // started are 1 if the leaf is not empty, plus the arrivals not yet resolved, the undos still
  // owed and the departures still pending.  So the root surplus never falls below the number of
  // non-empty leaves, and no departure reaches the root ahead of its arrival.
  lemma {:induction false} LeafConservation(leaves: nat, home: seq<nat>, es: seq<Event>, l: nat)
    requires forall t :: 0 <= t < |home| ==> home[t] < leaves
    requires Legal(leaves, home, es) && l < leaves
    ensures var s := After(leaves, home, es);
      && s.net[l] == Full(s.leaves[l]) + SumAt(home, Owes(s), l)
      && Sum(s.net) == s.root.arrived - s.root.leaving
      && s.root.arrived - s.root.leaving >= NonEmpty(s.leaves)
      && (forall t :: 0 <= t < |s.pcs| && Owe(s, t) >= 1 ==> s.root.leaving < s.root.arrived)
  {
    InvAlways(leaves, home, es);
    var s := After(leaves, home, es);
    assert LeafOk(s, l);
    SurplusCoversLeaves(s);
    forall t | 0 <= t < |s.pcs| && Owe(s, t) >= 1
      ensures s.root.leaving < s.root.arrived
    {
      SafeCall(s, t);
    }
  }

  lemma {:induction false} QuietIndicator(s: State)
    requires Inv(s) && forall t :: 0 <= t < |s.pcs| ==> s.pcs[t].Idle?
    ensures Root.Query(s.root) <==> exists l :: 0 <= l < |s.leaves| && s.leaving[l] < s.arrived[l]
  {
    if l :| 0 <= l < |s.leaves| && s.leaving[l] < s.arrived[l] {
      IndicatorShows(s, l);
    } else {
      forall l | 0 <= l < |s.net|
        ensures s.net[l] == 0
      {
        assert LeafOk(s, l);
        SumAtZero(s.home, Owes(s), l);
        SumAtZero(s.home, Regs(s), l);
        assert !(s.leaving[l] < s.arrived[l]);
      }
      SumZero(s.net);
      forall t | 0 <= t < |s.root.pcs|
        ensures s.root.pcs[t].Idle?
      {
        assert ThreadOk(s, t);
      }
      Root.HoldingNone(s.root.pcs);
      assert !Root.Query(s.root);
    }
  }

  // With no operation in flight the query answers true exactly when some leaf has more completed
  // arrivals than departures.
  lemma {:induction false} TreeQuiescent(leaves: nat, home: seq<nat>, es: seq<Event>)
    requires forall t :: 0 <= t < |home| ==> home[t] < leaves
    requires Legal(leaves, home, es)
    requires forall t :: 0 <= t < |home| ==> After(leaves, home, es).pcs[t].Idle?
    ensures var s := After(leaves, home, es);
      Root.Query(s.root) <==> exists l :: 0 <= l < leaves && s.leaving[l] < s.arrived[l]
  {
    hide Inv, SumAt, Sum;
    InvAlways(leaves, home, es);
    QuietIndicator(After(leaves, home, es));
  }
}
