/**
 The speculative read-write lock as an interleaving of atomic steps, over any readers' indicator.

 A section runs as a hardware transaction, as an uninstrumented reader, or under the fallback
 lock.  The readers' indicator is a row of cells: a writer may only pass a cell that reads false,
 and a thread that has finished arriving at the indicator must find its own cell true until it
 starts to leave.  That contract (IndicatorHolds) is all the proofs use; module FlagLock and module
 SnziLock show that the flag array and the SNZI object keep it.
 */
module SpRwl {
  import opened Replay
  import opened Htm

  // cellOf[t] is the indicator cell that stands for thread t.
  datatype Config = Config(n: nat, cells: nat, cellOf: seq<nat>, retries: int, policy: int) {
    predicate Ok() {
      |cellOf| == n && forall t :: 0 <= t < n ==> cellOf[t] < cells
    }
  }

  datatype Pc =
    | Idle
    | WaitFree(ro: bool, tries: int)         // spinning on writer_lock before a transaction
    | TxSubscribe(ro: bool, tries: int)      // begun, about to read writer_lock
    | TxBody(ro: bool, tries: int, tx: Tx)
    | TxScan(tries: int, tx: Tx, k: nat)     // writer at its release, about to read cell k
    | GlAcquire                              // compare-and-swap loop on writer_lock
    | GlScan(k: nat)                         // owns writer_lock, waiting for cell k
    | GlBody(log: Log)
    | RdArrive                               // arriving at the indicator
    | RdCheck                                // arrived, about to read writer_lock
    | RdBody(log: Log)
    | RdLeave(retry: bool)                   // leaving the indicator
    | RdWait                                 // spinning on writer_lock after backing off

  // The history lists completed sections in the order in which they complete.
  datatype State = State(locked: bool, cells: seq<bool>, mem: Memory, pcs: seq<Pc>, hist: seq<Section>)

  datatype Cause = Capacity | OtherCause

  datatype Event =
    | Enter(t: nat, ro: bool)                // TM_BEGIN
    | Go(t: nat)                             // the next lock step of t
    | Read(t: nat, a: int)
    | Write(t: nat, a: int, v: int)
    | Finish(t: nat)                         // TM_END
    | Abort(t: nat, why: Cause)              // the hardware aborts t's transaction
    | Signal(t: nat, cells: seq<bool>, touched: set<nat>, done: bool)
                                             // one atomic step of t inside the indicator

  // ---------- hardware transactions ----------

  predicate IsTx(p: Pc) {
    p.TxBody? || p.TxScan?
  }

  predicate LiveTx(p: Pc) {
    IsTx(p) && !p.tx.doomed
  }

  // A transaction conflicts with an access of another thread to what it wrote, and with a write
  // to what it read; it has read the lock word and every cell it scanned.
  predicate Hit(p: Pc, l: Loc, write: bool) {
    IsTx(p) &&
    match l
    case Data(a) => a in p.tx.buf || (write && a in p.tx.rs)
    case LockWord => write
    case Cell(j) => write && p.TxScan? && j < p.k
  }

  function Condemn(p: Pc): Pc {
    if IsTx(p) then p.(tx := p.tx.(doomed := true)) else p
  }

  function Doom(pcs: seq<Pc>, t: nat, l: Loc, write: bool): (r: seq<Pc>)
    ensures |r| == |pcs|
    ensures forall i :: 0 <= i < |pcs| ==>
      r[i] == if i != t && Hit(pcs[i], l, write) then Condemn(pcs[i]) else pcs[i]
  {
    seq(|pcs|, i requires 0 <= i < |pcs| => if i != t && Hit(pcs[i], l, write) then Condemn(pcs[i]) else pcs[i])
  }

  function DoomCells(pcs: seq<Pc>, t: nat, touched: set<nat>): (r: seq<Pc>)
    ensures |r| == |pcs|
    ensures forall i :: 0 <= i < |pcs| ==>
      r[i] == if i != t && (exists j :: j in touched && Hit(pcs[i], Cell(j), true)) then Condemn(pcs[i]) else pcs[i]
  {
    seq(|pcs|, i requires 0 <= i < |pcs| =>
      if i != t && (exists j :: j in touched && Hit(pcs[i], Cell(j), true)) then Condemn(pcs[i]) else pcs[i])
  }

  // ---------- retry budget ----------

  // The budget after an abort.
  function Spend(c: Config, tries: int, why: Cause): int {
    if why == Capacity then SpendBudget(c.policy, tries) else tries - 1
  }

  function AfterAbort(c: Config, ro: bool, tries: int, why: Cause): Pc {
    var left := Spend(c, tries, why);
    if left > 0 then WaitFree(ro, left) else if ro then RdArrive else GlAcquire
  }

  // ---------- steps ----------

  predicate Enabled(c: Config, s: State, e: Event) {
    e.t < |s.pcs| &&
    var p := s.pcs[e.t];
    match e
    case Enter(_, _) => p.Idle?
    case Go(_) =>
      p.WaitFree? || p.TxSubscribe? || (p.TxScan? && !p.tx.doomed) ||
      p.GlAcquire? || p.GlScan? || p.RdCheck? || p.RdWait?
    case Read(_, _) => (p.TxBody? && !p.tx.doomed) || p.GlBody? || p.RdBody?
    case Write(_, _, _) => (p.TxBody? && !p.tx.doomed && !p.ro) || p.GlBody?
    case Finish(_) => (p.TxBody? && !p.tx.doomed) || p.GlBody? || p.RdBody?
    case Abort(_, _) => p.TxSubscribe? || IsTx(p)
    case Signal(_, cells, touched, done) =>
      (p.RdArrive? || p.RdLeave?) && |cells| == |s.cells| &&
      (forall j: nat :: j < |cells| && cells[j] != s.cells[j] ==> j in touched)
  }

  function Next(c: Config, s: State, e: Event): State
    requires Enabled(c, s, e)
  {
    var t := e.t;
    var p := s.pcs[t];
    match e
    case Enter(_, ro) => s.(pcs := s.pcs[t := WaitFree(ro, c.retries)])
    case Go(_) => LockStep(c, s, t)
    case Read(_, a) =>
      var pcs := Doom(s.pcs, t, Data(a), false);
      if p.TxBody? then s.(pcs := pcs[t := TxBody(p.ro, p.tries, TxAfterRead(s.mem, p.tx, a))])
      else if p.GlBody? then s.(pcs := pcs[t := GlBody(p.log + [Rd(a, Get(s.mem, a))])])
      else s.(pcs := pcs[t := RdBody(p.log + [Rd(a, Get(s.mem, a))])])
    case Write(_, a, v) =>
      var pcs := Doom(s.pcs, t, Data(a), true);
      if p.TxBody? then s.(pcs := pcs[t := TxBody(p.ro, p.tries, TxAfterWrite(p.tx, a, v))])
      else s.(mem := s.mem[a := v], pcs := pcs[t := GlBody(p.log + [Wr(a, v)])])
    case Finish(_) =>
      if p.TxBody? then
        if p.ro then Commit(s, t, p.tx)
        else s.(pcs := s.pcs[t := TxScan(p.tries, p.tx, 0)])
      else if p.GlBody? then
        State(false, s.cells, s.mem, Doom(s.pcs, t, LockWord, true)[t := Idle], s.hist + [Section(t, p.log)])
      else s.(pcs := s.pcs[t := RdLeave(false)], hist := s.hist + [Section(t, p.log)])
    case Abort(_, why) =>
      var ro := if p.TxScan? then false else p.ro;
      s.(pcs := s.pcs[t := AfterAbort(c, ro, p.tries, why)])
    case Signal(_, cells, touched, done) =>
      var q := if !done then p else if p.RdArrive? then RdCheck else if p.retry then RdWait else Idle;
      s.(cells := cells, pcs := DoomCells(s.pcs, t, touched)[t := q])
  }

  // The transaction publishes its write buffer in one step.
  function Commit(s: State, t: nat, tx: Tx): State
    requires t < |s.pcs|
  {
    s.(mem := s.mem + tx.buf, pcs := s.pcs[t := Idle], hist := s.hist + [Section(t, tx.log)])
  }

  function LockStep(c: Config, s: State, t: nat): State
    requires Enabled(c, s, Go(t))
  {
    var p := s.pcs[t];
    match p
    case WaitFree(ro, tries) =>
      if s.locked then s else s.(pcs := s.pcs[t := TxSubscribe(ro, tries)])
    case TxSubscribe(ro, tries) =>
      if s.locked then s.(pcs := s.pcs[t := AfterAbort(c, ro, tries, OtherCause)])
      else s.(pcs := s.pcs[t := TxBody(ro, tries, Fresh())])
    case TxScan(tries, tx, k) =>
      if k >= |s.cells| then Commit(s, t, tx)
      else if s.cells[k] then s.(pcs := s.pcs[t := AfterAbort(c, false, tries, OtherCause)])
      else s.(pcs := s.pcs[t := TxScan(tries, tx, k + 1)])
    case GlAcquire =>
      if s.locked then s
      else s.(locked := true, pcs := Doom(s.pcs, t, LockWord, true)[t := GlScan(0)])
    case GlScan(k) =>
      if k >= |s.cells| then s.(pcs := s.pcs[t := GlBody([])])
      else if s.cells[k] then s
      else s.(pcs := s.pcs[t := GlScan(k + 1)])
    case RdCheck =>
      s.(pcs := s.pcs[t := if s.locked then RdLeave(true) else RdBody([])])
    case RdWait =>
      if s.locked then s else s.(pcs := s.pcs[t := RdArrive])
  }

  function Init(c: Config, m: Memory): State {
    State(false, seq(c.cells, _ => false), m, seq(c.n, _ => Idle), [])
  }

  // A step moves its own thread; it may condemn the transactions of others.
  lemma {:induction false} OthersStay(c: Config, s: State, e: Event, u: nat)
    requires Enabled(c, s, e) && u < |s.pcs| && u != e.t
    ensures |Next(c, s, e).pcs| == |s.pcs|
    ensures Next(c, s, e).pcs[u] == s.pcs[u] || Next(c, s, e).pcs[u] == Condemn(s.pcs[u])
  {
  }

  // ---------- the indicator's contract ----------

  predicate Present(p: Pc) {
    p.RdCheck? || p.RdBody?
  }

  // A thread that has arrived and not started to leave has its cell set.
  ghost predicate IndicatorHolds(c: Config, s: State) {
    |s.pcs| == |c.cellOf| &&
    forall t :: 0 <= t < |s.pcs| && Present(s.pcs[t]) ==> c.cellOf[t] < |s.cells| && s.cells[c.cellOf[t]]
  }

  // A run: every event is enabled where it happens, and the indicator keeps its contract.
  ghost predicate Legal(c: Config, m: Memory, es: seq<Event>) {
    es == [] ||
    (Legal(c, m, Front(es)) && Enabled(c, After(c, m, Front(es)), Last(es)) &&
     IndicatorHolds(c, Next(c, After(c, m, Front(es)), Last(es))))
  }

  function After(c: Config, m: Memory, es: seq<Event>): State {
    if es == [] then Init(c, m)
    else
      var s := After(c, m, Front(es));
      if Enabled(c, s, Last(es)) then Next(c, s, Last(es)) else s
  }
}
