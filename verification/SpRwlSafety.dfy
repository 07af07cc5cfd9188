/**
 Safety of the speculative read-write lock over whole runs: serialisability, reader snapshots,
 and the exclusion of writers and readers.  Only the indicator contract of SpRwl is assumed.
 */
module SpRwlSafety {
  import opened Replay
  import opened Htm
  import opened SpRwl

  predicate Holder(p: Pc) {
    p.GlScan? || p.GlBody?
  }

  ghost predicate ThreadOk(s: State, p: Pc) {
    && (Holder(p) ==> s.locked)
    && (LiveTx(p) ==> !s.locked && TxOk(s.mem, p.tx))
    && (p.TxBody? && LiveTx(p) && p.ro ==> p.tx.buf == map[])
    && (p.TxScan? && LiveTx(p) ==> p.k <= |s.cells| && forall j :: 0 <= j < p.k ==> !s.cells[j])
    && (p.GlScan? ==> p.k <= |s.cells|)
    && (p.RdBody? ==> Valid(s.mem, p.log) && Writes(p.log) == map[])
  }

  ghost predicate PairOk(c: Config, p: Pc, u: nat, q: Pc)
    requires u < |c.cellOf|
  {
    && !(Holder(p) && Holder(q))
    && (Holder(p) && q.RdBody? ==> p.GlScan? && p.k <= c.cellOf[u])
    && (LiveTx(p) && LiveTx(q) ==> p.tx.buf.Keys !! q.tx.rs && p.tx.buf.Keys !! q.tx.buf.Keys)
  }

  ghost predicate Shape(c: Config, s: State) {
    c.Ok() && |s.pcs| == c.n && |s.cells| == c.cells
  }

  ghost predicate Threads(s: State) {
    forall t :: 0 <= t < |s.pcs| ==> ThreadOk(s, s.pcs[t])
  }

  ghost predicate Pairs(c: Config, s: State)
    requires Shape(c, s)
  {
    forall t, u :: 0 <= t < |s.pcs| && 0 <= u < |s.pcs| && t != u ==> PairOk(c, s.pcs[t], u, s.pcs[u])
  }

  // Memory is what a serial run of the completed sections yields, with at most the accesses of
  // the fallback writer in its section on top.
  ghost predicate BaseOk(base: Memory, s: State, p: Pc) {
    && (p.GlScan? || p.RdBody? ==> base == s.mem)
    && (p.GlBody? ==> Valid(base, p.log) && Apply(base, p.log) == s.mem)
  }

  ghost predicate MemoryOk(m0: Memory, s: State) {
    && ReplayValid(m0, s.hist)
    && (!s.locked ==> ReplayMemory(m0, s.hist) == s.mem)
    && forall t :: 0 <= t < |s.pcs| ==> BaseOk(ReplayMemory(m0, s.hist), s, s.pcs[t])
  }

  ghost predicate Inv(c: Config, m0: Memory, s: State) {
    Shape(c, s) && IndicatorHolds(c, s) && Threads(s) && Pairs(c, s) && MemoryOk(m0, s)
  }

  // ---------- preservation, event by event ----------

  // A step of t leaves every other thread where it is, except that it may condemn transactions.
  ghost predicate OnlyMoves(s: State, s': State, t: nat) {
    |s'.pcs| == |s.pcs| && |s'.cells| == |s.cells| &&
    forall u :: 0 <= u < |s.pcs| && u != t ==> s'.pcs[u] == s.pcs[u] || s'.pcs[u] == Condemn(s.pcs[u])
  }

  lemma {:induction false} PairsKept(c: Config, s: State, s': State, t: nat)
    requires Shape(c, s) && Shape(c, s') && Pairs(c, s) && t < |s.pcs| && OnlyMoves(s, s', t)
    requires forall u :: 0 <= u < |s.pcs| && u != t ==>
      PairOk(c, s'.pcs[t], u, s'.pcs[u]) && PairOk(c, s'.pcs[u], t, s'.pcs[t])
    ensures Pairs(c, s')
  {
    forall u, w | 0 <= u < |s'.pcs| && 0 <= w < |s'.pcs| && u != w
      ensures PairOk(c, s'.pcs[u], w, s'.pcs[w])
    {
      if u != t && w != t {
        assert PairOk(c, s.pcs[u], w, s.pcs[w]);
      }
    }
  }

  lemma {:induction false} InvEnter(c: Config, m0: Memory, s: State, e: Event)
    requires Inv(c, m0, s) && e.Enter? && Enabled(c, s, e)
    ensures Inv(c, m0, Next(c, s, e))
  {
    hide Valid, Apply, ReadSet, Writes, ReplayValid, ReplayMemory, TxOk;
  }

  lemma {:induction false} InvAbort(c: Config, m0: Memory, s: State, e: Event)
    requires Inv(c, m0, s) && e.Abort? && Enabled(c, s, e)
    ensures Inv(c, m0, Next(c, s, e))
  {
    hide Valid, Apply, ReadSet, Writes, ReplayValid, ReplayMemory, TxOk;
  }

  // A store to a cell condemns the transactions that have scanned it.
  lemma {:induction false} SignalKeepsThread(c: Config, m0: Memory, s: State, e: Event, u: nat)
    requires Inv(c, m0, s) && e.Signal? && Enabled(c, s, e) && u < |s.pcs|
    ensures var s' := Next(c, s, e);
      ThreadOk(s', s'.pcs[u]) && BaseOk(ReplayMemory(m0, s'.hist), s', s'.pcs[u])
  {
    hide Valid, Apply, ReadSet, Writes, ReplayValid, ReplayMemory;
    var s' := Next(c, s, e);
    var p := s'.pcs[u];
    assert ThreadOk(s, s.pcs[u]) && BaseOk(ReplayMemory(m0, s.hist), s, s.pcs[u]);
    if p.TxScan? && LiveTx(p) {
      forall j | 0 <= j < p.k
        ensures !s'.cells[j]
      {
        assert Hit(s.pcs[u], Cell(j), true);
      }
    }
  }

  lemma {:induction false} SignalKeepsPairs(c: Config, m0: Memory, s: State, e: Event)
    requires Inv(c, m0, s) && e.Signal? && Enabled(c, s, e)
    ensures Pairs(c, Next(c, s, e))
  {
    hide Valid, Apply, ReadSet, Writes, ReplayValid, ReplayMemory;
    var s', p := Next(c, s, e), s.pcs[e.t];
    forall u | 0 <= u < |s.pcs| && u != e.t
      ensures PairOk(c, s'.pcs[e.t], u, s'.pcs[u]) && PairOk(c, s'.pcs[u], e.t, s'.pcs[e.t])
    {
      assert PairOk(c, p, u, s.pcs[u]) && PairOk(c, s.pcs[u], e.t, p);
    }
    PairsKept(c, s, s', e.t);
  }

  lemma {:induction false} InvSignal(c: Config, m0: Memory, s: State, e: Event)
    requires Inv(c, m0, s) && e.Signal? && Enabled(c, s, e)
    requires IndicatorHolds(c, Next(c, s, e))
    ensures Inv(c, m0, Next(c, s, e))
  {
    hide Valid, Apply, ReadSet, Writes, ReplayValid, ReplayMemory, PairOk;
    var s' := Next(c, s, e);
    forall u | 0 <= u < |s'.pcs|
      ensures ThreadOk(s', s'.pcs[u]) && BaseOk(ReplayMemory(m0, s'.hist), s', s'.pcs[u])
    {
      SignalKeepsThread(c, m0, s, e, u);
    }
    SignalKeepsPairs(c, m0, s, e);
  }

  lemma {:induction false} ReadKeepsOwn(c: Config, m0: Memory, s: State, e: Event)
    requires Inv(c, m0, s) && e.Read? && Enabled(c, s, e)
    ensures var s' := Next(c, s, e);
      ThreadOk(s', s'.pcs[e.t]) && BaseOk(ReplayMemory(m0, s'.hist), s', s'.pcs[e.t])
  {
    hide Valid, Apply, ReadSet, Writes, ReplayValid, ReplayMemory;
    var p := s.pcs[e.t];
    var base := ReplayMemory(m0, s.hist);
    assert ThreadOk(s, p) && BaseOk(base, s, p);
    if p.TxBody? {
      TxOkRead(s.mem, p.tx, e.a);
    } else if p.RdBody? {
      ReaderExtends(s.mem, p.log, e.a);
    } else {
      ExtendLog(base, p.log, Rd(e.a, Get(s.mem, e.a)));
    }
  }

  lemma {:induction false} ReadKeepsPairs(c: Config, m0: Memory, s: State, e: Event)
    requires Inv(c, m0, s) && e.Read? && Enabled(c, s, e)
    ensures Pairs(c, Next(c, s, e))
  {
    hide Valid, Apply, ReadSet, Writes, ReplayValid, ReplayMemory;
    var s', p := Next(c, s, e), s.pcs[e.t];
    forall u | 0 <= u < |s.pcs| && u != e.t
      ensures PairOk(c, s'.pcs[e.t], u, s'.pcs[u]) && PairOk(c, s'.pcs[u], e.t, s'.pcs[e.t])
    {
      assert PairOk(c, p, u, s.pcs[u]) && PairOk(c, s.pcs[u], e.t, p);
    }
    PairsKept(c, s, s', e.t);
  }

  lemma {:induction false} InvRead(c: Config, m0: Memory, s: State, e: Event)
    requires Inv(c, m0, s) && e.Read? && Enabled(c, s, e)
    ensures Inv(c, m0, Next(c, s, e))
  {
    hide Valid, Apply, ReadSet, Writes, ReplayValid, ReplayMemory, PairOk;
    ReadKeepsOwn(c, m0, s, e);
    ReadKeepsPairs(c, m0, s, e);
    OthersKept(c, m0, s, Next(c, s, e), e.t);
  }

  // Threads other than t keep their part of the invariant when memory, lock, cells and history
  // do not change.
  lemma {:induction false} OthersKept(c: Config, m0: Memory, s: State, s': State, t: nat)
    requires Inv(c, m0, s) && OnlyMoves(s, s', t)
    requires s'.mem == s.mem && s'.locked == s.locked && s'.cells == s.cells && s'.hist == s.hist
    ensures forall u :: 0 <= u < |s.pcs| && u != t ==>
      ThreadOk(s', s'.pcs[u]) && BaseOk(ReplayMemory(m0, s'.hist), s', s'.pcs[u])
  {
    hide Valid, Apply, ReadSet, Writes, ReplayValid, ReplayMemory;
    forall u | 0 <= u < |s.pcs| && u != t
      ensures ThreadOk(s', s'.pcs[u]) && BaseOk(ReplayMemory(m0, s'.hist), s', s'.pcs[u])
    {
      assert ThreadOk(s, s.pcs[u]) && BaseOk(ReplayMemory(m0, s.hist), s, s.pcs[u]);
    }
  }

  lemma {:induction false} InvWrite(c: Config, m0: Memory, s: State, e: Event)
    requires Inv(c, m0, s) && e.Write? && Enabled(c, s, e)
    ensures Inv(c, m0, Next(c, s, e))
  {
    hide Valid, Apply, ReadSet, Writes, ReplayValid, ReplayMemory;
    var s', p := Next(c, s, e), s.pcs[e.t];
    var base := ReplayMemory(m0, s.hist);
    assert ThreadOk(s, p) && BaseOk(base, s, p);
    if p.TxBody? {
      TxOkWrite(s.mem, p.tx, e.a, e.v);
      OthersKept(c, m0, s, s', e.t);
    } else {
      ExtendLog(base, p.log, Wr(e.a, e.v));
      forall u | 0 <= u < |s.pcs| && u != e.t
        ensures ThreadOk(s', s'.pcs[u]) && BaseOk(base, s', s'.pcs[u])
      {
        assert ThreadOk(s, s.pcs[u]) && BaseOk(base, s, s.pcs[u]) && PairOk(c, p, u, s.pcs[u]);
      }
    }
    forall u | 0 <= u < |s.pcs| && u != e.t
      ensures PairOk(c, s'.pcs[e.t], u, s'.pcs[u]) && PairOk(c, s'.pcs[u], e.t, s'.pcs[e.t])
    {
      assert PairOk(c, p, u, s.pcs[u]) && PairOk(c, s.pcs[u], e.t, p);
    }
    PairsKept(c, s, s', e.t);
  }

  // A committing transaction changes nothing another live transaction has read, and finds no
  // reader in its section: it has seen every cell false, and the cells still are.
  lemma {:induction false} InvCommit(c: Config, m0: Memory, s: State, t: nat, tx: Tx)
    requires Inv(c, m0, s) && t < |s.pcs| && LiveTx(s.pcs[t]) && s.pcs[t].tx == tx
    requires tx.buf == map[] || (s.pcs[t].TxScan? && s.pcs[t].k == |s.cells|)
    ensures Inv(c, m0, Commit(s, t, tx))
  {
    hide Valid, Apply, ReadSet, Writes, ReplayValid, ReplayMemory;
    var s', p := Commit(s, t, tx), s.pcs[t];
    var base, base' := ReplayMemory(m0, s.hist), ReplayMemory(m0, s'.hist);
    assert ThreadOk(s, p);
    ApplyIsMerge(s.mem, tx.log);
    ExtendHistory(m0, s.hist, Section(t, tx.log));
    forall u | 0 <= u < |s'.pcs| && u != t
      ensures ThreadOk(s', s'.pcs[u]) && BaseOk(base', s', s'.pcs[u])
    {
      CommitKeepsOther(c, m0, s, t, tx, u);
    }
    PairsKept(c, s, s', t);
  }

  lemma {:induction false} CommitKeepsOther(c: Config, m0: Memory, s: State, t: nat, tx: Tx, u: nat)
    requires Inv(c, m0, s) && t < |s.pcs| && LiveTx(s.pcs[t]) && s.pcs[t].tx == tx
    requires tx.buf == map[] || (s.pcs[t].TxScan? && s.pcs[t].k == |s.cells|)
    requires u < |s.pcs| && u != t
    ensures var s' := Commit(s, t, tx);
      ThreadOk(s', s.pcs[u]) && BaseOk(s.mem + tx.buf, s', s.pcs[u])
  {
    hide Valid, Apply, ReadSet, Writes, ReplayValid, ReplayMemory;
    var p, q := s.pcs[t], s.pcs[u];
    assert ThreadOk(s, p) && ThreadOk(s, q) && PairOk(c, p, u, q) && PairOk(c, q, t, p);
    if LiveTx(q) {
      TxOkDisjoint(s.mem, q.tx, tx.buf);
    } else if q.RdBody? {
      assert s.cells[c.cellOf[u]];
      assert tx.buf == map[];
      assert s.mem + tx.buf == s.mem;
    }
  }

  // A commit writes nothing that another live transaction or a reader in its section has read.
  lemma {:induction false} CommitSpares(c: Config, m0: Memory, s: State, t: nat, u: nat)
    requires Inv(c, m0, s) && Publishes(s, t) && u < |s.pcs| && u != t
    ensures LiveTx(s.pcs[u]) ==> s.pcs[t].tx.buf.Keys !! ReadSet(s.pcs[u].tx.log)
    ensures s.pcs[u].RdBody? ==> s.pcs[t].tx.buf == map[]
  {
    hide Valid, Apply, ReadSet, Writes, ReplayValid, ReplayMemory;
    assert ThreadOk(s, s.pcs[t]) && ThreadOk(s, s.pcs[u]) && PairOk(c, s.pcs[t], u, s.pcs[u]);
    if s.pcs[u].RdBody? {
      assert s.cells[c.cellOf[u]];
    }
  }

  // Every value that another live transaction or a reader in its section has read is still there.
  ghost predicate Spares(s: State, t: nat, m: Memory) {
    && (forall u, a :: 0 <= u < |s.pcs| && u != t && LiveTx(s.pcs[u]) && a in ReadSet(s.pcs[u].tx.log) ==>
          Get(m, a) == Get(s.mem, a))
    && (forall u, a :: 0 <= u < |s.pcs| && u != t && s.pcs[u].RdBody? ==> Get(m, a) == Get(s.mem, a))
  }

  lemma {:induction false} CommitSparesAll(c: Config, m0: Memory, s: State, t: nat)
    requires Inv(c, m0, s) && Publishes(s, t)
    ensures Spares(s, t, s.mem + s.pcs[t].tx.buf)
  {
    forall u | 0 <= u < |s.pcs| && u != t
      ensures LiveTx(s.pcs[u]) ==> s.pcs[t].tx.buf.Keys !! ReadSet(s.pcs[u].tx.log)
      ensures s.pcs[u].RdBody? ==> s.pcs[t].tx.buf == map[]
    {
      CommitSpares(c, m0, s, t, u);
    }
    hide Inv, ReadSet;
  }

  // A transaction that the next step of its thread commits.
  predicate Publishes(s: State, t: nat) {
    t < |s.pcs| && LiveTx(s.pcs[t]) &&
    match s.pcs[t]
    case TxBody(ro, _, _) => ro
    case TxScan(_, _, k) => k >= |s.cells|
    case _ => false
  }

  lemma {:induction false} InvFinish(c: Config, m0: Memory, s: State, e: Event)
    requires Inv(c, m0, s) && e.Finish? && Enabled(c, s, e)
    ensures Inv(c, m0, Next(c, s, e))
  {
    hide Valid, Apply, ReadSet, Writes, ReplayValid, ReplayMemory;
    var s', p := Next(c, s, e), s.pcs[e.t];
    var base := ReplayMemory(m0, s.hist);
    assert ThreadOk(s, p) && BaseOk(base, s, p);
    if p.TxBody? && p.ro {
      InvCommit(c, m0, s, e.t, p.tx);
    } else if p.TxBody? {
      OthersKept(c, m0, s, s', e.t);
      FinishKeepsPairs(c, m0, s, e);
    } else {
      ExtendHistory(m0, s.hist, Section(e.t, p.log));
      if p.RdBody? {
        ApplyIsMerge(base, p.log);
        assert base + map[] == base;
      }
      forall u | 0 <= u < |s.pcs| && u != e.t
        ensures ThreadOk(s', s'.pcs[u]) && BaseOk(s.mem, s', s'.pcs[u])
      {
        assert ThreadOk(s, s.pcs[u]) && BaseOk(base, s, s.pcs[u]);
        assert PairOk(c, p, u, s.pcs[u]) && PairOk(c, s.pcs[u], e.t, p);
      }
      FinishKeepsPairs(c, m0, s, e);
    }
  }

  lemma {:induction false} FinishKeepsPairs(c: Config, m0: Memory, s: State, e: Event)
    requires Inv(c, m0, s) && e.Finish? && Enabled(c, s, e)
    ensures Pairs(c, Next(c, s, e))
  {
    hide Valid, Apply, ReadSet, Writes, ReplayValid, ReplayMemory;
    var s', p := Next(c, s, e), s.pcs[e.t];
    forall u | 0 <= u < |s.pcs| && u != e.t
      ensures PairOk(c, s'.pcs[e.t], u, s'.pcs[u]) && PairOk(c, s'.pcs[u], e.t, s'.pcs[e.t])
    {
      assert PairOk(c, p, u, s.pcs[u]) && PairOk(c, s.pcs[u], e.t, p);
    }
    PairsKept(c, s, s', e.t);
  }

  lemma {:induction false} InvGo(c: Config, m0: Memory, s: State, e: Event)
    requires Inv(c, m0, s) && e.Go? && Enabled(c, s, e)
    ensures Inv(c, m0, Next(c, s, e))
  {
    var s', p := Next(c, s, e), s.pcs[e.t];
    if p.TxScan? && p.k >= |s.cells| {
      InvCommit(c, m0, s, e.t, p.tx);
    } else if p.GlAcquire? && !s.locked {
      InvAcquire(c, m0, s, e);
    } else {
      OthersKept(c, m0, s, s', e.t);
      GoKeepsOwn(c, m0, s, e);
      GoKeepsPairs(c, m0, s, e);
    }
  }

  lemma {:induction false} GoKeepsOwn(c: Config, m0: Memory, s: State, e: Event)
    requires Inv(c, m0, s) && e.Go? && Enabled(c, s, e)
    requires !(s.pcs[e.t].GlAcquire? && !s.locked) && !(s.pcs[e.t].TxScan? && s.pcs[e.t].k >= |s.cells|)
    ensures var s' := Next(c, s, e);
      ThreadOk(s', s'.pcs[e.t]) && BaseOk(ReplayMemory(m0, s'.hist), s', s'.pcs[e.t]) &&
      IndicatorHolds(c, s')
  {
    hide Valid, Apply, ReadSet, Writes, ReplayValid, ReplayMemory;
    EmptyLog(s.mem);
    assert ThreadOk(s, s.pcs[e.t]) && BaseOk(ReplayMemory(m0, s.hist), s, s.pcs[e.t]);
  }

  // Taking the fallback lock condemns every transaction that has read the lock word.
  lemma {:induction false} InvAcquire(c: Config, m0: Memory, s: State, e: Event)
    requires Inv(c, m0, s) && e.Go? && Enabled(c, s, e)
    requires s.pcs[e.t].GlAcquire? && !s.locked
    ensures Inv(c, m0, Next(c, s, e))
  {
    hide Valid, Apply, ReadSet, Writes, ReplayValid, ReplayMemory;
    var s' := Next(c, s, e);
    var base := ReplayMemory(m0, s.hist);
    forall u | 0 <= u < |s.pcs| && u != e.t
      ensures ThreadOk(s', s'.pcs[u]) && BaseOk(base, s', s'.pcs[u])
      ensures PairOk(c, s'.pcs[e.t], u, s'.pcs[u]) && PairOk(c, s'.pcs[u], e.t, s'.pcs[e.t])
    {
      assert ThreadOk(s, s.pcs[u]) && BaseOk(base, s, s.pcs[u]);
    }
    PairsKept(c, s, s', e.t);
  }

  lemma {:induction false} GoKeepsPairs(c: Config, m0: Memory, s: State, e: Event)
    requires Inv(c, m0, s) && e.Go? && Enabled(c, s, e)
    requires !(s.pcs[e.t].GlAcquire? && !s.locked) && !(s.pcs[e.t].TxScan? && s.pcs[e.t].k >= |s.cells|)
    ensures Pairs(c, Next(c, s, e))
  {
    hide Valid, Apply, ReadSet, Writes, ReplayValid, ReplayMemory;
    var s', p := Next(c, s, e), s.pcs[e.t];
    assert ThreadOk(s, p);
    forall u | 0 <= u < |s.pcs| && u != e.t
      ensures PairOk(c, s'.pcs[e.t], u, s'.pcs[u]) && PairOk(c, s'.pcs[u], e.t, s'.pcs[e.t])
    {
      assert ThreadOk(s, s.pcs[u]);
      assert PairOk(c, p, u, s.pcs[u]) && PairOk(c, s.pcs[u], e.t, p);
    }
    PairsKept(c, s, s', e.t);
  }

  lemma {:induction false} InvNext(c: Config, m0: Memory, s: State, e: Event)
    requires Inv(c, m0, s) && Enabled(c, s, e) && IndicatorHolds(c, Next(c, s, e))
    ensures Inv(c, m0, Next(c, s, e))
  {
    match e
    case Enter(_, _) => InvEnter(c, m0, s, e);
    case Go(_) => InvGo(c, m0, s, e);
    case Read(_, _) => InvRead(c, m0, s, e);
    case Write(_, _, _) => InvWrite(c, m0, s, e);
    case Finish(_) => InvFinish(c, m0, s, e);
    case Abort(_, _) => InvAbort(c, m0, s, e);
    case Signal(_, _, _, _) => InvSignal(c, m0, s, e);
  }

  lemma {:induction false} InvAlways(c: Config, m0: Memory, es: seq<Event>)
    requires c.Ok() && Legal(c, m0, es)
    ensures Inv(c, m0, After(c, m0, es))
  {
    if es != [] {
      InvAlways(c, m0, Front(es));
      InvNext(c, m0, After(c, m0, Front(es)), Last(es));
    }
  }

  // The lock word is never set without a holder.
  ghost predicate Owned(s: State) {
    s.locked ==> exists t :: 0 <= t < |s.pcs| && Holder(s.pcs[t])
  }

  lemma {:induction false} OwnedNext(c: Config, s: State, e: Event)
    requires Owned(s) && Enabled(c, s, e)
    requires forall t, u :: 0 <= t < |s.pcs| && 0 <= u < |s.pcs| && t != u ==> !(Holder(s.pcs[t]) && Holder(s.pcs[u]))
    requires forall t :: 0 <= t < |s.pcs| && Holder(s.pcs[t]) ==> s.locked
    ensures Owned(Next(c, s, e))
  {
    var s' := Next(c, s, e);
    if s'.locked {
      if s.locked {
        var t :| 0 <= t < |s.pcs| && Holder(s.pcs[t]);
        assert Holder(s'.pcs[t]);
      } else {
        assert Holder(s'.pcs[e.t]);
      }
    }
  }

  lemma {:induction false} OwnedAlways(c: Config, m0: Memory, es: seq<Event>)
    requires c.Ok() && Legal(c, m0, es)
    ensures Owned(After(c, m0, es))
  {
    if es != [] {
      OwnedAlways(c, m0, Front(es));
      InvAlways(c, m0, Front(es));
      var s := After(c, m0, Front(es));
      forall t, u | 0 <= t < |s.pcs| && 0 <= u < |s.pcs| && t != u
        ensures !(Holder(s.pcs[t]) && Holder(s.pcs[u]))
      {
        assert PairOk(c, s.pcs[t], u, s.pcs[u]);
      }
      forall t | 0 <= t < |s.pcs| && Holder(s.pcs[t])
        ensures s.locked
      {
        assert ThreadOk(s, s.pcs[t]);
      }
      OwnedNext(c, s, Last(es));
    }
  }

  // ---------- main results ----------

  // Replaying the completed sections one at a time, in the order in which they completed, returns
  // every logged read.  It ends in the memory of the state, unless a fallback writer is in its section:
  // then that section comes next in the order.
  ghost predicate Serial(m0: Memory, s: State) {
    && ReplayValid(m0, s.hist)
    && (!s.locked ==> ReplayMemory(m0, s.hist) == s.mem)
    && (forall t :: 0 <= t < |s.pcs| && (s.pcs[t].GlScan? || s.pcs[t].RdBody?) ==>
          ReplayMemory(m0, s.hist) == s.mem)
    && (forall t :: 0 <= t < |s.pcs| && s.pcs[t].GlBody? ==>
          ReplayValid(m0, s.hist + [Section(t, s.pcs[t].log)]) &&
          ReplayMemory(m0, s.hist + [Section(t, s.pcs[t].log)]) == s.mem)
    && ((forall t :: 0 <= t < |s.pcs| ==> !s.pcs[t].GlBody?) ==> ReplayMemory(m0, s.hist) == s.mem)
  }

  // Every run is serialisable.
  lemma {:induction false} Serialisable(c: Config, m0: Memory, es: seq<Event>)
    requires c.Ok() && Legal(c, m0, es)
    ensures Serial(m0, After(c, m0, es))
  {
    hide ReplayValid, ReplayMemory, Apply, Valid, ThreadOk, PairOk, IndicatorHolds, Legal, After;
    InvAlways(c, m0, es);
    OwnedAlways(c, m0, es);
    var s := After(c, m0, es);
    forall t | 0 <= t < |s.pcs|
      ensures s.pcs[t].GlScan? || s.pcs[t].RdBody? ==> ReplayMemory(m0, s.hist) == s.mem
      ensures s.pcs[t].GlBody? ==>
        ReplayValid(m0, s.hist + [Section(t, s.pcs[t].log)]) &&
        ReplayMemory(m0, s.hist + [Section(t, s.pcs[t].log)]) == s.mem
    {
      assert BaseOk(ReplayMemory(m0, s.hist), s, s.pcs[t]);
      if s.pcs[t].GlBody? {
        ExtendHistory(m0, s.hist, Section(t, s.pcs[t].log));
      }
    }
  }

  lemma {:induction false} SnapshotStep(c: Config, m0: Memory, s: State, e: Event, r: nat)
    requires Inv(c, m0, s) && Enabled(c, s, e) && r < |s.pcs| && s.pcs[r].RdBody?
    ensures Next(c, s, e).mem == s.mem
  {
    hide Valid, Apply, ReadSet, Writes, ReplayValid, ReplayMemory, Doom, DoomCells, TxOk;
    var p := s.pcs[e.t];
    assert ThreadOk(s, s.pcs[r]) && ThreadOk(s, p) && s.cells[c.cellOf[r]];
    if e.t != r {
      assert PairOk(c, p, r, s.pcs[r]);
    }
    assert s.mem + map[] == s.mem;
  }

  // While a thread is in an uninstrumented read section no step changes memory, and all its
  // reads so far are reads of that one memory.
  lemma {:induction false} ReaderSnapshot(c: Config, m0: Memory, es: seq<Event>, r: nat)
    requires c.Ok() && Legal(c, m0, es)
    requires r < |After(c, m0, es).pcs| && After(c, m0, es).pcs[r].RdBody?
    ensures var s := After(c, m0, es);
      && (forall e :: Enabled(c, s, e) ==> Next(c, s, e).mem == s.mem)
      && forall i :: 0 <= i < |s.pcs[r].log| ==>
           s.pcs[r].log[i].Rd? && Get(s.mem, s.pcs[r].log[i].a) == s.pcs[r].log[i].v
  {
    InvAlways(c, m0, es);
    var s := After(c, m0, es);
    hide Enabled, Next;
    forall e | Enabled(c, s, e)
      ensures Next(c, s, e).mem == s.mem
    {
      SnapshotStep(c, m0, s, e, r);
    }
    assert ThreadOk(s, s.pcs[r]);
    ReaderSeesOneMemory(s.mem, s.pcs[r].log);
  }

  // At the instant an HTM writer commits, all cells and the lock word are clear at once, though
  // the cells were read one by one, and no thread is inside or about to enter a read section.
  lemma {:induction false} CommitSeesAllClear(c: Config, m0: Memory, es: seq<Event>, t: nat)
    requires c.Ok() && Legal(c, m0, es)
    requires t < |After(c, m0, es).pcs| && After(c, m0, es).pcs[t].TxScan?
    requires !After(c, m0, es).pcs[t].tx.doomed && After(c, m0, es).pcs[t].k == |After(c, m0, es).cells|
    ensures var s := After(c, m0, es);
      && !s.locked
      && (forall j :: 0 <= j < |s.cells| ==> !s.cells[j])
      && (forall u :: 0 <= u < |s.pcs| ==> !Present(s.pcs[u]) && !Holder(s.pcs[u]))
  {
    InvAlways(c, m0, es);
    var s := After(c, m0, es);
    assert ThreadOk(s, s.pcs[t]);
    forall u | 0 <= u < |s.pcs|
      ensures !Present(s.pcs[u]) && !Holder(s.pcs[u])
    {
      assert ThreadOk(s, s.pcs[u]);
    }
  }

  // The fallback writer is alone in its section: no reader, no second holder of the lock, and no
  // transaction that could still commit.
  lemma {:induction false} FallbackWriterAlone(c: Config, m0: Memory, es: seq<Event>, t: nat)
    requires c.Ok() && Legal(c, m0, es)
    requires t < |After(c, m0, es).pcs| && After(c, m0, es).pcs[t].GlBody?
    ensures var s := After(c, m0, es);
      s.locked && forall u :: 0 <= u < |s.pcs| && u != t ==>
        !Holder(s.pcs[u]) && !s.pcs[u].RdBody? && !LiveTx(s.pcs[u])
  {
    InvAlways(c, m0, es);
    var s := After(c, m0, es);
    assert ThreadOk(s, s.pcs[t]);
    forall u | 0 <= u < |s.pcs| && u != t
      ensures !Holder(s.pcs[u]) && !s.pcs[u].RdBody? && !LiveTx(s.pcs[u])
    {
      assert PairOk(c, s.pcs[t], u, s.pcs[u]) && ThreadOk(s, s.pcs[u]);
    }
  }
}
