/**
 The lock over the SNZI object (10.2): the readers' indicator is the query bit of a SNZI object
 whose compare-and-swap steps interleave with the steps of the lock.

 Each thread uses its own leaf.  A transaction that has queried the indicator has root.state in its
 read set, so every store to root.state condemns it.  The SNZI object's results are all that is
 needed to show that it keeps the indicator contract of SpRwl.
 */
module SnziLock {
  import opened Replay
  import opened SpRwl
  import opened SpRwlSafety
  import Root = SnziRoot
  import Tree = SnziTree

  // One query bit stands for all threads.
  function BitConfig(n: nat, retries: int, policy: int): Config {
    Config(n, 1, seq(n, _ => 0), retries, policy)
  }

  datatype Both = Both(lock: State, obj: Tree.State)

  // A step of the lock, or a step of a snzi_inc or snzi_dec that the lock code has called.
  datatype Step = Lock(e: Event) | Snzi(f: Tree.Event)

  predicate CanStep(s: Both, x: Step)
    requires Tree.Shape(s.obj) && |s.obj.pcs| == |s.lock.pcs|
  {
    match x
    case Lock(e) => !e.Signal?
    case Snzi(f) =>
      f.t < |s.obj.pcs| &&
      match f
      case Inc(t) => s.lock.pcs[t].RdArrive? && s.obj.pcs[t].Idle?
      case Dec(t) => s.lock.pcs[t].RdLeave? && s.obj.pcs[t].Idle?
      case Go(t) => !s.obj.pcs[t].Idle? && s.obj.root.pcs[t].Idle?
      case RootGo(t) => !s.obj.root.pcs[t].Idle?
  }

  // What the lock sees of a step of the object: the query bit after it, whether root.state was
  // stored to, and whether the operation has returned.
  function Seen(s: Both, f: Tree.Event): Event
    requires Tree.Enabled(s.obj, f)
  {
    var o := Tree.Next(s.obj, f);
    Signal(f.t, [Root.Query(o.root)], if o.root.ind != s.obj.root.ind then {0} else {}, o.pcs[f.t].Idle?)
  }

  function StepOf(s: Both, x: Step): Event
    requires x.Snzi? ==> Tree.Enabled(s.obj, x.f)
  {
    match x
    case Lock(e) => e
    case Snzi(f) => Seen(s, f)
  }

  predicate Ready(c: Config, s: Both, x: Step) {
    && Tree.Shape(s.obj) && |s.obj.pcs| == |s.lock.pcs|
    && CanStep(s, x)
    && (x.Lock? ==> Enabled(c, s.lock, x.e))
    && (x.Snzi? ==> Tree.Enabled(s.obj, x.f) && Enabled(c, s.lock, Seen(s, x.f)))
  }

  function StepBoth(c: Config, s: Both, x: Step): Both
    requires Ready(c, s, x)
  {
    Both(Next(c, s.lock, StepOf(s, x)), if x.Snzi? then Tree.Next(s.obj, x.f) else s.obj)
  }

  function InitBoth(c: Config, m: Memory): Both {
    Both(Init(c, m), Tree.Init(c.n, Tree.OwnLeaf(c.n)))
  }

  function AfterBoth(c: Config, m: Memory, xs: seq<Step>): Both {
    if xs == [] then InitBoth(c, m)
    else
      var s := AfterBoth(c, m, Front(xs));
      if Ready(c, s, Last(xs)) then StepBoth(c, s, Last(xs)) else s
  }

  // A run of lock and object together.  Nothing is asked of the indicator here: a lock step must
  // be enabled in the lock, an object step must continue or start the call the lock is making.
  ghost predicate LegalBoth(c: Config, m: Memory, xs: seq<Step>) {
    xs == [] ||
    (LegalBoth(c, m, Front(xs)) &&
     var s := AfterBoth(c, m, Front(xs));
     Tree.Shape(s.obj) && |s.obj.pcs| == |s.lock.pcs| && CanStep(s, Last(xs)) &&
     (Last(xs).Lock? ==> Enabled(c, s.lock, Last(xs).e)))
  }

  // The run of the abstract lock that a run of both amounts to.
  function Trace(c: Config, m: Memory, xs: seq<Step>): seq<Event> {
    if xs == [] then []
    else
      var s := AfterBoth(c, m, Front(xs));
      Trace(c, m, Front(xs)) + if Ready(c, s, Last(xs)) then [StepOf(s, Last(xs))] else []
  }

  // ---------- how lock and object stay in step ----------

  predicate Arriving(p: Tree.Pc) {
    !p.Idle? && !Departing(p)
  }

  predicate Departing(p: Tree.Pc) {
    p.DepLoad? || p.DepSwap? || p.DownCall? || p.Down?
  }

  ghost predicate Linked(p: Pc, q: Tree.Pc, arrived: nat, leaving: nat) {
    if p.RdArrive? then (q.Idle? || Arriving(q)) && arrived == leaving
    else if p.RdLeave? then (q.Idle? && arrived == leaving + 1) || (Departing(q) && arrived == leaving)
    else q.Idle? && arrived == leaving + if Present(p) then 1 else 0
  }

  ghost predicate BothOk(c: Config, s: Both) {
    && Tree.Inv(s.obj) && s.obj.home == Tree.OwnLeaf(c.n) && |s.obj.leaves| == c.n
    && |s.lock.pcs| == c.n
    && s.lock.cells == [Root.Query(s.obj.root)]
    && forall t :: 0 <= t < c.n ==> Linked(s.lock.pcs[t], s.obj.pcs[t], s.obj.arrived[t], s.obj.leaving[t])
  }

  // The lock calls snzi_dec only after its snzi_inc has returned, so every object step is allowed.
  lemma {:induction false} AlwaysReady(c: Config, s: Both, x: Step)
    requires BothOk(c, s) && CanStep(s, x)
    requires x.Lock? ==> Enabled(c, s.lock, x.e)
    ensures Ready(c, s, x)
  {
    hide Tree.SumAt, Tree.Sum, Tree.LeafOk, Root.Inv, Root.Exact, DoomCells;
    if x.Snzi? {
      var t := x.f.t;
      assert Linked(s.lock.pcs[t], s.obj.pcs[t], s.obj.arrived[t], s.obj.leaving[t]);
      assert Tree.ThreadOk(s.obj, t);
    }
  }

  lemma {:induction false} CondemnKeeps(p: Pc, q: Tree.Pc, arrived: nat, leaving: nat)
    requires Linked(p, q, arrived, leaving)
    ensures Linked(Condemn(p), q, arrived, leaving)
  {
  }

  // A step of thread t's snzi call moves only t's own counts.
  lemma {:induction false} ObjectStep(c: Config, s: Both, f: Tree.Event)
    requires BothOk(c, s) && Ready(c, s, Snzi(f))
    ensures var o, t := Tree.Next(s.obj, f), f.t;
      && |o.pcs| == c.n && |o.arrived| == |o.leaving| == c.n
      && (forall u :: 0 <= u < c.n && u != t ==>
            o.pcs[u] == s.obj.pcs[u] && o.arrived[u] == s.obj.arrived[u] && o.leaving[u] == s.obj.leaving[u])
  {
    hide Tree.SumAt, Tree.Sum, Tree.LeafOk, Root.Inv, Root.Exact, DoomCells;
    assert s.obj.home[f.t] == f.t;
  }

  lemma {:induction false} OwnStep(c: Config, s: Both, f: Tree.Event)
    requires BothOk(c, s) && Ready(c, s, Snzi(f))
    ensures var o, t := Tree.Next(s.obj, f), f.t;
      && |o.pcs| == c.n && |o.arrived| == |o.leaving| == c.n
      && Linked(Next(c, s.lock, Seen(s, f)).pcs[t], o.pcs[t], o.arrived[t], o.leaving[t])
  {
    hide Tree.SumAt, Tree.Sum, Tree.LeafOk, Root.Inv, Root.Exact, DoomCells;
    var t := f.t;
    assert s.obj.home[t] == t;
    assert Linked(s.lock.pcs[t], s.obj.pcs[t], s.obj.arrived[t], s.obj.leaving[t]);
    assert Tree.ThreadOk(s.obj, t);
  }

  // A lock step keeps t's call where it is; for other threads it may only condemn a transaction.
  lemma {:induction false} LockStepLinked(c: Config, s: State, e: Event, u: nat, q: Tree.Pc, arrived: nat, leaving: nat)
    requires Enabled(c, s, e) && !e.Signal? && u < |s.pcs|
    requires Linked(s.pcs[u], q, arrived, leaving)
    ensures |Next(c, s, e).pcs| == |s.pcs| && Next(c, s, e).cells == s.cells
    ensures Linked(Next(c, s, e).pcs[u], q, arrived, leaving)
  {
    if u != e.t {
      CondemnKeeps(s.pcs[u], q, arrived, leaving);
      OthersStay(c, s, e, u);
    }
  }

  lemma {:induction false} BothNextLock(c: Config, s: Both, e: Event)
    requires BothOk(c, s) && Ready(c, s, Lock(e))
    ensures BothOk(c, StepBoth(c, s, Lock(e)))
  {
    hide Tree.Inv, Linked, Next;
    LockStepLinked(c, s.lock, e, e.t, s.obj.pcs[e.t], s.obj.arrived[e.t], s.obj.leaving[e.t]);
    var s' := StepBoth(c, s, Lock(e));
    forall u | 0 <= u < c.n
      ensures Linked(s'.lock.pcs[u], s'.obj.pcs[u], s'.obj.arrived[u], s'.obj.leaving[u])
    {
      LockStepLinked(c, s.lock, e, u, s.obj.pcs[u], s.obj.arrived[u], s.obj.leaving[u]);
    }
  }

  lemma {:induction false} BothNextSnzi(c: Config, s: Both, f: Tree.Event)
    requires BothOk(c, s) && Ready(c, s, Snzi(f))
    ensures BothOk(c, StepBoth(c, s, Snzi(f)))
  {
    hide Tree.SumAt, Tree.Sum, Tree.LeafOk, Root.Inv, Root.Exact, DoomCells, Tree.Inv, Linked;
    var s' := StepBoth(c, s, Snzi(f));
    Tree.InvNext(s.obj, f);
    ObjectStep(c, s, f);
    OwnStep(c, s, f);
    forall u | 0 <= u < c.n
      ensures Linked(s'.lock.pcs[u], s'.obj.pcs[u], s'.obj.arrived[u], s'.obj.leaving[u])
    {
      if u != f.t {
        CondemnKeeps(s.lock.pcs[u], s.obj.pcs[u], s.obj.arrived[u], s.obj.leaving[u]);
      }
    }
  }

  lemma {:induction false} BothNext(c: Config, s: Both, x: Step)
    requires BothOk(c, s) && Ready(c, s, x)
    ensures BothOk(c, StepBoth(c, s, x))
  {
    match x
    case Lock(e) => BothNextLock(c, s, e);
    case Snzi(f) => BothNextSnzi(c, s, f);
  }

  // The SNZI object keeps the indicator contract: a present reader has arrived and not started to
  // leave, so the query bit is set.
  lemma {:induction false} ContractFromObject(c: Config, s: Both)
    requires BothOk(c, s) && c.cellOf == seq(c.n, _ => 0)
    ensures IndicatorHolds(c, s.lock)
  {
    hide Tree.SumAt, Tree.Sum, Tree.LeafOk, Root.Inv, Root.Exact, DoomCells;
    forall t | 0 <= t < |s.lock.pcs| && Present(s.lock.pcs[t])
      ensures s.lock.cells[c.cellOf[t]]
    {
      assert Linked(s.lock.pcs[t], s.obj.pcs[t], s.obj.arrived[t], s.obj.leaving[t]);
      Tree.IndicatorShows(s.obj, t);
    }
  }

  // ---------- main results ----------

  lemma {:induction false} InitBothOk(n: nat, retries: int, policy: int, m: Memory)
    ensures BothOk(BitConfig(n, retries, policy), InitBoth(BitConfig(n, retries, policy), m))
  {
    hide Tree.Inv, Root.Inv, Root.Exact;
    Tree.InitInv(n, Tree.OwnLeaf(n));
    hide Tree.Inv;
  }

  // A step of both is a step of the abstract lock that keeps the indicator contract.
  lemma {:induction false} StepRefines(c: Config, s: Both, x: Step)
    requires BothOk(c, s) && Ready(c, s, x) && c.cellOf == seq(c.n, _ => 0)
    ensures BothOk(c, StepBoth(c, s, x))
    ensures x.Snzi? ==> Tree.Enabled(s.obj, x.f)
    ensures Enabled(c, s.lock, StepOf(s, x)) && StepBoth(c, s, x).lock == Next(c, s.lock, StepOf(s, x))
    ensures IndicatorHolds(c, StepBoth(c, s, x).lock)
  {
    hide BothOk, Enabled, Next;
    BothNext(c, s, x);
    ContractFromObject(c, StepBoth(c, s, x));
  }

  // Every run of lock and object is a run of the abstract lock whose indicator keeps its contract.
  lemma {:induction false} Refines(n: nat, retries: int, policy: int, m: Memory, xs: seq<Step>)
    requires LegalBoth(BitConfig(n, retries, policy), m, xs)
    ensures var c := BitConfig(n, retries, policy);
      var s := AfterBoth(c, m, xs);
      && BothOk(c, s)
      && Legal(c, m, Trace(c, m, xs))
      && After(c, m, Trace(c, m, xs)) == s.lock
  {
    hide BothOk, Enabled, Next, CanStep, StepBoth, Ready, StepOf, IndicatorHolds;
    var c := BitConfig(n, retries, policy);
    if xs == [] {
      InitBothOk(n, retries, policy, m);
    } else {
      Refines(n, retries, policy, m, Front(xs));
      var s, x := AfterBoth(c, m, Front(xs)), Last(xs);
      AlwaysReady(c, s, x);
      StepRefines(c, s, x);
      FrontOfAppend(Trace(c, m, Front(xs)), StepOf(s, x));
    }
  }

  // A step of the object disturbs other threads only if it stores to the indicator word; then it condemns
  // exactly the transactions that have queried it.
  lemma {:induction false} ObjectDisturbs(n: nat, retries: int, policy: int, s: Both, f: Tree.Event, u: nat)
    requires BothOk(BitConfig(n, retries, policy), s) && Ready(BitConfig(n, retries, policy), s, Snzi(f))
    requires u < |s.lock.pcs| && u != f.t
    ensures var s' := StepBoth(BitConfig(n, retries, policy), s, Snzi(f));
      && |s'.lock.pcs| == |s.lock.pcs|
      && s'.lock.pcs[u] ==
           if s'.obj.root.ind != s.obj.root.ind && s.lock.pcs[u].TxScan? && s.lock.pcs[u].k > 0
           then Condemn(s.lock.pcs[u]) else s.lock.pcs[u]
  {
    hide Tree.Next, Tree.Enabled, Tree.Inv, Tree.Shape;
    var e := Seen(s, f);
    assert e.touched == {} || 0 in e.touched;
  }

  // Every run of the lock over the SNZI object, interleaved step by step with the object's own
  // compare-and-swaps, is serialisable.
  lemma {:induction false} SnziLockSerialisable(n: nat, retries: int, policy: int, m: Memory, xs: seq<Step>)
    requires LegalBoth(BitConfig(n, retries, policy), m, xs)
    ensures Serial(m, AfterBoth(BitConfig(n, retries, policy), m, xs).lock)
  {
    var c := BitConfig(n, retries, policy);
    Refines(n, retries, policy, m, xs);
    Serialisable(c, m, Trace(c, m, xs));
  }

  // While a reader is in its section no step of the lock or of the object changes memory, and a
  // fallback writer is not in its section.
  lemma {:induction false} SnziLockSnapshot(n: nat, retries: int, policy: int, m: Memory, xs: seq<Step>,
                                            x: Step, r: nat)
    requires LegalBoth(BitConfig(n, retries, policy), m, xs + [x])
    requires r < |AfterBoth(BitConfig(n, retries, policy), m, xs).lock.pcs|
    requires AfterBoth(BitConfig(n, retries, policy), m, xs).lock.pcs[r].RdBody?
    ensures var c := BitConfig(n, retries, policy);
      && AfterBoth(c, m, xs + [x]).lock.mem == AfterBoth(c, m, xs).lock.mem
      && (forall u :: 0 <= u < |AfterBoth(c, m, xs).lock.pcs| ==> !AfterBoth(c, m, xs).lock.pcs[u].GlBody?)
  {
    hide BothOk, Enabled, Next, Ready, CanStep, StepBoth, Legal;
    var c := BitConfig(n, retries, policy);
    FrontOfAppend(xs, x);
    Refines(n, retries, policy, m, xs);
    var s := AfterBoth(c, m, xs);
    AlwaysReady(c, s, x);
    StepRefines(c, s, x);
    ReaderSnapshot(c, m, Trace(c, m, xs), r);
    forall u | 0 <= u < |s.lock.pcs|
      ensures !s.lock.pcs[u].GlBody?
    {
      if s.lock.pcs[u].GlBody? {
        FallbackWriterAlone(c, m, Trace(c, m, xs), u);
      }
    }
  }
}
