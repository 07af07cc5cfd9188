/**
 Safety of HERWL over whole runs: every reader in its section still finds in memory every value it
 has read, although writers may commit during the section, and the completed sections are
 serialisable in the order in which they complete.
 */
module HerwlSafety {
  import opened Replay
  import opened Htm
  import opened Herwl

  // Threads that own writer_lock, at value 1 and at value 2.
  predicate OwnsOne(p: Pc) {
    p.RotBegin? || IsRot(p) || p.RotUnlock? || p.GlSet?
  }

  predicate OwnsTwo(p: Pc) {
    p.GlWait? || p.GlBody?
  }

  // A reader's counter is odd from its announcement to its release.
  predicate Announced(p: Pc) {
    p.RdCheck? || p.RdBack? || p.RdBody?
  }

  ghost predicate ThreadOk(s: State, p: Pc, counter: nat) {
    && (OwnsOne(p) ==> s.lock == 1)
    && (OwnsTwo(p) ==> s.lock == 2)
    && (LiveHtm(p) ==> s.lock == 0)
    && (LiveHtm(p) || LiveRot(p) ==> TxOk(s.mem, p.tx))
    && (Announced(p) <==> Odd(counter))
    && (p.RdBody? ==> Valid(s.mem, p.log) && Writes(p.log) == map[])
    && (p.RotSnap? || p.RotWait? ==> |p.snap| == |s.counters|)
    && (p.TxQuiesce? || p.RotSnap? || p.RotWait? || p.GlWait? ==> p.k <= |s.counters|)
  }

  // The reader at r, in its section with the given log and counter, cannot be hurt by p's commit:
  // it has read nothing of p's write buffer, or p will still wait for its counter to move.
  ghost predicate Harmless(p: Pc, r: nat, log: Log, counter: nat) {
    && (p.TxQuiesce? && LiveHtm(p) && r < p.k ==> p.tx.buf.Keys !! ReadSet(log))
    && (p.RotSnap? && LiveRot(p) && r < p.k && r < |p.snap| ==>
          p.tx.buf.Keys !! ReadSet(log) || p.snap[r] == counter)
    && (p.RotWait? && LiveRot(p) && r < |p.snap| ==>
          p.tx.buf.Keys !! ReadSet(log) || (p.k <= r && p.snap[r] == counter))
    && (p.GlWait? ==> p.k <= r)
    && !p.GlBody?
  }

  ghost predicate PairOk(p: Pc, u: nat, q: Pc, counter: nat) {
    && !((OwnsOne(p) || OwnsTwo(p)) && (OwnsOne(q) || OwnsTwo(q)))
    && (LiveHtm(p) && LiveHtm(q) ==> p.tx.buf.Keys !! q.tx.rs && p.tx.buf.Keys !! q.tx.buf.Keys)
    && (q.RdBody? ==> Harmless(p, u, q.log, counter))
  }

  ghost predicate BaseOk(base: Memory, s: State, p: Pc) {
    && (p.RdBody? || p.GlWait? ==> base == s.mem)
    && (p.GlBody? ==> Valid(base, p.log) && Apply(base, p.log) == s.mem)
  }

  ghost predicate Good(m0: Memory, s: State, t: nat)
    requires t < |s.pcs| == |s.counters|
  {
    ThreadOk(s, s.pcs[t], s.counters[t]) && BaseOk(ReplayMemory(m0, s.hist), s, s.pcs[t])
  }

  ghost predicate Pairs(s: State)
    requires |s.pcs| == |s.counters|
  {
    forall t, u :: 0 <= t < |s.pcs| && 0 <= u < |s.pcs| && t != u ==>
      PairOk(s.pcs[t], u, s.pcs[u], s.counters[u])
  }

  ghost predicate Inv(m0: Memory, s: State) {
    && |s.pcs| == |s.counters|
    && ReplayValid(m0, s.hist)
    && (s.lock != 2 ==> ReplayMemory(m0, s.hist) == s.mem)
    && (forall t :: 0 <= t < |s.pcs| ==> Good(m0, s, t))
    && Pairs(s)
  }

  ghost predicate OnlyMoves(s: State, s': State, t: nat) {
    |s.pcs| == |s.counters| == |s'.pcs| == |s'.counters| &&
    forall u :: 0 <= u < |s.pcs| && u != t ==>
      (s'.pcs[u] == s.pcs[u] || s'.pcs[u] == Condemn(s.pcs[u])) && s'.counters[u] == s.counters[u]
  }

  lemma {:induction false} PairsKept(s: State, s': State, t: nat)
    requires t < |s.pcs| && OnlyMoves(s, s', t) && Pairs(s)
    requires forall u :: 0 <= u < |s.pcs| && u != t ==>
      PairOk(s'.pcs[t], u, s'.pcs[u], s'.counters[u]) && PairOk(s'.pcs[u], t, s'.pcs[t], s'.counters[t])
    ensures Pairs(s')
  {
    forall u, w | 0 <= u < |s'.pcs| && 0 <= w < |s'.pcs| && u != w
      ensures PairOk(s'.pcs[u], w, s'.pcs[w], s'.counters[w])
    {
      if u != t && w != t {
        assert PairOk(s.pcs[u], w, s.pcs[w], s.counters[w]);
      }
    }
  }

  // Threads other than t keep their part when memory, lock and history do not change.
  lemma {:induction false} OthersKept(m0: Memory, s: State, s': State, t: nat)
    requires Inv(m0, s) && t < |s.pcs| && OnlyMoves(s, s', t)
    requires s'.mem == s.mem && s'.lock == s.lock && s'.hist == s.hist
    ensures forall u :: 0 <= u < |s.pcs| && u != t ==> Good(m0, s', u)
  {
    hide Valid, Apply, ReadSet, Writes, ReplayValid, ReplayMemory;
    forall u | 0 <= u < |s.pcs| && u != t
      ensures Good(m0, s', u)
    {
      assert Good(m0, s, u);
    }
  }

  // ---------- data accesses ----------

  lemma {:induction false} ReadOwn(c: Config, m0: Memory, s: State, e: Event)
    requires Inv(m0, s) && e.Read? && Enabled(c, s, e)
    ensures Good(m0, Next(c, s, e), e.t)
  {
    hide Valid, Apply, ReadSet, Writes, ReplayValid, ReplayMemory;
    var p, base := s.pcs[e.t], ReplayMemory(m0, s.hist);
    assert Good(m0, s, e.t);
    if p.TxBody? || p.RotBody? {
      TxOkRead(s.mem, p.tx, e.a);
    } else if p.RdBody? {
      ReaderExtends(s.mem, p.log, e.a);
    } else {
      ExtendLog(base, p.log, Rd(e.a, Get(s.mem, e.a)));
    }
  }

  // A read changes what others must respect only if the reading thread is a reader; then it
  // condemns every writer that has the address in its write buffer.
  lemma {:induction false} ReadPairs(c: Config, m0: Memory, s: State, e: Event, u: nat)
    requires Inv(m0, s) && e.Read? && Enabled(c, s, e) && u < |s.pcs| && u != e.t
    ensures var s' := Next(c, s, e);
      PairOk(s'.pcs[e.t], u, s'.pcs[u], s'.counters[u]) && PairOk(s'.pcs[u], e.t, s'.pcs[e.t], s'.counters[e.t])
  {
    hide Valid, Apply, ReadSet, Writes, ReplayValid, ReplayMemory;
    assert Good(m0, s, e.t);
    assert PairOk(s.pcs[e.t], u, s.pcs[u], s.counters[u]) && PairOk(s.pcs[u], e.t, s.pcs[e.t], s.counters[e.t]);
    if s.pcs[e.t].RdBody? {
      ReaderExtends(s.mem, s.pcs[e.t].log, e.a);
      ReaderHarmless(s.pcs[u], e.t, s.pcs[e.t].log, s.counters[e.t], e.a, Get(s.mem, e.a));
    } else {
      WriterReads(c, s, e, u);
    }
  }

  lemma {:induction false} ReaderHarmless(p: Pc, r: nat, log: Log, counter: nat, a: int, v: int)
    requires Harmless(p, r, log, counter) && ReadSet(log + [Rd(a, v)]) == ReadSet(log) + {a}
    ensures Harmless(if Hit(p, Data(a), false) then Condemn(p) else p, r, log + [Rd(a, v)], counter)
  {
    hide Valid, Apply, ReadSet, Writes, ReplayValid, ReplayMemory;
  }

  lemma {:induction false} WriterReads(c: Config, s: State, e: Event, u: nat)
    requires e.Read? && Enabled(c, s, e) && u < |s.pcs| && u != e.t && !s.pcs[e.t].RdBody?
    requires PairOk(s.pcs[e.t], u, s.pcs[u], s.counters[u]) && PairOk(s.pcs[u], e.t, s.pcs[e.t], s.counters[e.t])
    ensures var s' := Next(c, s, e);
      PairOk(s'.pcs[e.t], u, s'.pcs[u], s'.counters[u]) && PairOk(s'.pcs[u], e.t, s'.pcs[e.t], s'.counters[e.t])
  {
    hide Valid, Apply, ReadSet, Writes, ReplayValid, ReplayMemory;
  }

  lemma {:induction false} InvRead(c: Config, m0: Memory, s: State, e: Event)
    requires Inv(m0, s) && e.Read? && Enabled(c, s, e)
    ensures Inv(m0, Next(c, s, e))
  {
    hide Valid, Apply, ReadSet, Writes, ReplayValid, ReplayMemory, PairOk;
    var s' := Next(c, s, e);
    ReadOwn(c, m0, s, e);
    OthersKept(m0, s, s', e.t);
    forall u | 0 <= u < |s.pcs| && u != e.t
      ensures PairOk(s'.pcs[e.t], u, s'.pcs[u], s'.counters[u]) && PairOk(s'.pcs[u], e.t, s'.pcs[e.t], s'.counters[e.t])
    {
      ReadPairs(c, m0, s, e, u);
    }
    PairsKept(s, s', e.t);
  }

  lemma {:induction false} WriteGood(c: Config, m0: Memory, s: State, e: Event, u: nat)
    requires Inv(m0, s) && e.Write? && Enabled(c, s, e) && u < |s.pcs|
    ensures Good(m0, Next(c, s, e), u)
  {
    hide Valid, Apply, ReadSet, Writes, ReplayValid, ReplayMemory;
    var p := s.pcs[e.t];
    assert Good(m0, s, u) && Good(m0, s, e.t);
    if u != e.t {
      assert PairOk(p, u, s.pcs[u], s.counters[u]);
    } else if p.GlBody? {
      ExtendLog(ReplayMemory(m0, s.hist), p.log, Wr(e.a, e.v));
    } else {
      TxOkWrite(s.mem, p.tx, e.a, e.v);
    }
  }

  lemma {:induction false} WritePairs(c: Config, m0: Memory, s: State, e: Event, u: nat)
    requires Inv(m0, s) && e.Write? && Enabled(c, s, e) && u < |s.pcs| && u != e.t
    ensures var s' := Next(c, s, e);
      PairOk(s'.pcs[e.t], u, s'.pcs[u], s'.counters[u]) && PairOk(s'.pcs[u], e.t, s'.pcs[e.t], s'.counters[e.t])
  {
    hide Valid, Apply, ReadSet, Writes, ReplayValid, ReplayMemory, TxOk, Good, BaseOk, Doom;
    assert PairOk(s.pcs[e.t], u, s.pcs[u], s.counters[u]) && PairOk(s.pcs[u], e.t, s.pcs[e.t], s.counters[e.t]);
  }

  lemma {:induction false} InvWrite(c: Config, m0: Memory, s: State, e: Event)
    requires Inv(m0, s) && e.Write? && Enabled(c, s, e)
    ensures Inv(m0, Next(c, s, e))
  {
    hide Valid, Apply, ReadSet, Writes, ReplayValid, ReplayMemory, PairOk;
    var s' := Next(c, s, e);
    assert Good(m0, s, e.t);
    forall u | 0 <= u < |s.pcs|
      ensures Good(m0, s', u)
    {
      WriteGood(c, m0, s, e, u);
    }
    forall u | 0 <= u < |s.pcs| && u != e.t
      ensures PairOk(s'.pcs[e.t], u, s'.pcs[u], s'.counters[u]) && PairOk(s'.pcs[u], e.t, s'.pcs[e.t], s'.counters[e.t])
    {
      WritePairs(c, m0, s, e, u);
    }
    PairsKept(s, s', e.t);
  }

  // ---------- commits ----------

  // A writer about to publish: every scan is over.
  predicate Publishes(s: State, t: nat) {
    t < |s.pcs| && (s.pcs[t].TxQuiesce? || s.pcs[t].RotWait?) && !s.pcs[t].tx.doomed && s.pcs[t].k >= |s.counters|
  }

  predicate LiveTx(p: Pc) {
    LiveHtm(p) || LiveRot(p)
  }

  // Every value that another live transaction or a reader in its section has read is still there.
  ghost predicate Spares(s: State, t: nat, m: Memory) {
    && (forall u, a :: 0 <= u < |s.pcs| && u != t && LiveTx(s.pcs[u]) && a in ReadSet(s.pcs[u].tx.log) ==>
          Get(m, a) == Get(s.mem, a))
    && (forall u, a :: 0 <= u < |s.pcs| && u != t && s.pcs[u].RdBody? && a in ReadSet(s.pcs[u].log) ==>
          Get(m, a) == Get(s.mem, a))
  }

  lemma {:induction false} CommitSpares(m0: Memory, s: State, t: nat, u: nat)
    requires Inv(m0, s) && Publishes(s, t) && u < |s.pcs| && u != t
    ensures LiveTx(s.pcs[u]) ==> s.pcs[t].tx.buf.Keys !! ReadSet(s.pcs[u].tx.log)
    ensures s.pcs[u].RdBody? ==> s.pcs[t].tx.buf.Keys !! ReadSet(s.pcs[u].log)
  {
    hide Valid, Apply, ReadSet, Writes, ReplayValid, ReplayMemory;
    assert Good(m0, s, t) && Good(m0, s, u) && PairOk(s.pcs[t], u, s.pcs[u], s.counters[u]);
  }

  lemma {:induction false} CommitSparesAll(m0: Memory, s: State, t: nat)
    requires Inv(m0, s) && Publishes(s, t)
    ensures Spares(s, t, s.mem + s.pcs[t].tx.buf)
  {
    forall u | 0 <= u < |s.pcs| && u != t
      ensures LiveTx(s.pcs[u]) ==> s.pcs[t].tx.buf.Keys !! ReadSet(s.pcs[u].tx.log)
      ensures s.pcs[u].RdBody? ==> s.pcs[t].tx.buf.Keys !! ReadSet(s.pcs[u].log)
    {
      CommitSpares(m0, s, t, u);
    }
    hide Inv, ReadSet;
  }

  lemma {:induction false} CommitGood(m0: Memory, s: State, t: nat, u: nat)
    requires Inv(m0, s) && Publishes(s, t) && u < |s.pcs| && u != t
    ensures var m := s.mem + s.pcs[t].tx.buf;
      ThreadOk(s.(mem := m), s.pcs[u], s.counters[u]) && BaseOk(m, s.(mem := m), s.pcs[u])
  {
    hide Valid, Apply, ReadSet, Writes, ReplayValid, ReplayMemory;
    var p, q := s.pcs[t], s.pcs[u];
    assert Good(m0, s, t) && Good(m0, s, u);
    assert PairOk(p, u, q, s.counters[u]) && PairOk(q, t, p, s.counters[t]);
    if LiveHtm(q) {
      TxOkDisjoint(s.mem, q.tx, p.tx.buf);
    } else if q.RdBody? {
      ReadsDisjoint(s.mem, q.log, p.tx.buf);
    }
  }

  lemma {:induction false} InvCommit(c: Config, m0: Memory, s: State, t: nat)
    requires Inv(m0, s) && Publishes(s, t)
    ensures Inv(m0, Commit(s, t, s.pcs[t].tx, if s.pcs[t].RotWait? then RotUnlock else Idle))
  {
    hide Valid, Apply, ReadSet, Writes, ReplayValid, ReplayMemory;
    var p := s.pcs[t];
    var s' := Commit(s, t, p.tx, if p.RotWait? then RotUnlock else Idle);
    assert Good(m0, s, t);
    SectionCompletes(m0, s.hist, t, p.tx.log);
    forall u | 0 <= u < |s.pcs| && u != t
      ensures Good(m0, s', u)
      ensures PairOk(s'.pcs[t], u, s'.pcs[u], s'.counters[u]) && PairOk(s'.pcs[u], t, s'.pcs[t], s'.counters[t])
    {
      CommitGood(m0, s, t, u);
      assert PairOk(p, u, s.pcs[u], s.counters[u]) && PairOk(s.pcs[u], t, p, s.counters[t]);
    }
    PairsKept(s, s', t);
  }

  lemma {:induction false} FinishGood(c: Config, m0: Memory, s: State, e: Event, u: nat)
    requires Inv(m0, s) && e.Finish? && Enabled(c, s, e) && u < |s.pcs|
    requires s.pcs[e.t].RdBody? || s.pcs[e.t].GlBody?
    ensures Good(m0, Next(c, s, e), u)
  {
    hide Valid, Apply, ReadSet, Writes, ReplayValid, ReplayMemory;
    var p, base := s.pcs[e.t], ReplayMemory(m0, s.hist);
    assert Good(m0, s, e.t) && Good(m0, s, u);
    SectionCompletes(m0, s.hist, e.t, p.log);
    ApplyIsMerge(base, p.log);
    assert s.mem + map[] == s.mem;
    if u != e.t {
      assert PairOk(p, u, s.pcs[u], s.counters[u]);
    }
  }

  lemma {:induction false} FinishPairs(c: Config, m0: Memory, s: State, e: Event, u: nat)
    requires Inv(m0, s) && e.Finish? && Enabled(c, s, e) && u < |s.pcs| && u != e.t
    ensures var s' := Next(c, s, e);
      PairOk(s'.pcs[e.t], u, s'.pcs[u], s'.counters[u]) && PairOk(s'.pcs[u], e.t, s'.pcs[e.t], s'.counters[e.t])
  {
    hide Valid, Apply, ReadSet, Writes, ReplayValid, ReplayMemory;
    assert PairOk(s.pcs[e.t], u, s.pcs[u], s.counters[u]) && PairOk(s.pcs[u], e.t, s.pcs[e.t], s.counters[e.t]);
  }

  lemma {:induction false} InvFinish(c: Config, m0: Memory, s: State, e: Event)
    requires Inv(m0, s) && e.Finish? && Enabled(c, s, e)
    ensures Inv(m0, Next(c, s, e))
  {
    hide Valid, Apply, ReadSet, Writes, ReplayValid, ReplayMemory, PairOk;
    var s', p := Next(c, s, e), s.pcs[e.t];
    assert Good(m0, s, e.t);
    if p.RdBody? || p.GlBody? {
      SectionCompletes(m0, s.hist, e.t, p.log);
      ApplyIsMerge(ReplayMemory(m0, s.hist), p.log);
      assert s.mem + map[] == s.mem;
      forall u | 0 <= u < |s.pcs|
        ensures Good(m0, s', u)
      {
        FinishGood(c, m0, s, e, u);
      }
    } else {
      OthersKept(m0, s, s', e.t);
    }
    forall u | 0 <= u < |s.pcs| && u != e.t
      ensures PairOk(s'.pcs[e.t], u, s'.pcs[u], s'.counters[u]) && PairOk(s'.pcs[u], e.t, s'.pcs[e.t], s'.counters[e.t])
    {
      FinishPairs(c, m0, s, e, u);
    }
    PairsKept(s, s', e.t);
  }

  // ---------- lock steps ----------

  lemma {:induction false} InvEnterAbort(c: Config, m0: Memory, s: State, e: Event)
    requires Inv(m0, s) && (e.Enter? || e.Abort?) && Enabled(c, s, e)
    ensures Inv(m0, Next(c, s, e))
  {
    hide Valid, Apply, ReadSet, Writes, ReplayValid, ReplayMemory;
    var s' := Next(c, s, e);
    assert Good(m0, s, e.t);
    OthersKept(m0, s, s', e.t);
    forall u | 0 <= u < |s.pcs| && u != e.t
      ensures PairOk(s'.pcs[e.t], u, s'.pcs[u], s'.counters[u]) && PairOk(s'.pcs[u], e.t, s'.pcs[e.t], s'.counters[e.t])
    {
      assert PairOk(s.pcs[e.t], u, s.pcs[u], s.counters[u]) && PairOk(s.pcs[u], e.t, s.pcs[e.t], s.counters[e.t]);
    }
    PairsKept(s, s', e.t);
  }

  // Steps of a reader's acquire loop.
  predicate ReaderStep(s: State, e: Event) {
    e.Go? && e.t < |s.pcs| &&
    (s.pcs[e.t].RdSpin? || s.pcs[e.t].RdCount? || s.pcs[e.t].RdCheck? || s.pcs[e.t].RdBack?)
  }

  lemma {:induction false} GoGoodReader(c: Config, m0: Memory, s: State, e: Event, u: nat)
    requires Inv(m0, s) && ReaderStep(s, e) && Enabled(c, s, e) && u < |s.pcs|
    ensures Good(m0, Next(c, s, e), u)
  {
    hide Valid, Apply, ReadSet, Writes, ReplayValid, ReplayMemory;
    EmptyLog(s.mem);
    assert Good(m0, s, e.t) && Good(m0, s, u);
  }

  lemma {:induction false} GoPairsReader(c: Config, m0: Memory, s: State, e: Event, u: nat)
    requires Inv(m0, s) && ReaderStep(s, e) && Enabled(c, s, e) && u < |s.pcs| && u != e.t
    ensures var s' := Next(c, s, e);
      PairOk(s'.pcs[e.t], u, s'.pcs[u], s'.counters[u]) && PairOk(s'.pcs[u], e.t, s'.pcs[e.t], s'.counters[e.t])
  {
    hide Valid, Apply, ReadSet, Writes, ReplayValid, ReplayMemory;
    EmptyLog(s.mem);
    assert Good(m0, s, u);
    assert PairOk(s.pcs[e.t], u, s.pcs[u], s.counters[u]) && PairOk(s.pcs[u], e.t, s.pcs[e.t], s.counters[e.t]);
  }

  lemma {:induction false} InvReaderStep(c: Config, m0: Memory, s: State, e: Event)
    requires Inv(m0, s) && ReaderStep(s, e) && Enabled(c, s, e)
    ensures Inv(m0, Next(c, s, e))
  {
    hide Valid, Apply, ReadSet, Writes, ReplayValid, ReplayMemory, PairOk;
    var s' := Next(c, s, e);
    forall u | 0 <= u < |s.pcs|
      ensures Good(m0, s', u)
    {
      GoGoodReader(c, m0, s, e, u);
    }
    forall u | 0 <= u < |s.pcs| && u != e.t
      ensures PairOk(s'.pcs[e.t], u, s'.pcs[u], s'.counters[u]) && PairOk(s'.pcs[u], e.t, s'.pcs[e.t], s'.counters[e.t])
    {
      GoPairsReader(c, m0, s, e, u);
    }
    PairsKept(s, s', e.t);
  }

  // Steps that scan the counters.
  predicate ScanStep(p: Pc) {
    p.TxQuiesce? || p.RotSnap? || p.RotWait? || p.GlWait?
  }

  // Steps of a writer that change the lock word.
  predicate StoresLock(p: Pc) {
    p.RotLock? || p.RotUnlock? || p.GlSet?
  }

  lemma {:induction false} ScanGoodOwn(c: Config, m0: Memory, s: State, e: Event)
    requires Inv(m0, s) && e.Go? && Enabled(c, s, e) && !Publishes(s, e.t) && ScanStep(s.pcs[e.t])
    ensures Good(m0, Next(c, s, e), e.t)
  {
    hide Valid, Apply, ReadSet, Writes, ReplayValid, ReplayMemory, PairOk;
    EmptyLog(s.mem);
    assert Good(m0, s, e.t);
  }

  lemma {:induction false} LockGoodOwn(c: Config, m0: Memory, s: State, e: Event)
    requires Inv(m0, s) && e.Go? && Enabled(c, s, e) && !ReaderStep(s, e) && !ScanStep(s.pcs[e.t])
    ensures Good(m0, Next(c, s, e), e.t)
  {
    hide Valid, Apply, ReadSet, Writes, ReplayValid, ReplayMemory, PairOk;
    EmptyLog(s.mem);
    assert Good(m0, s, e.t);
  }

  lemma {:induction false} LockGoodOther(c: Config, m0: Memory, s: State, e: Event, u: nat)
    requires Inv(m0, s) && e.Go? && Enabled(c, s, e) && StoresLock(s.pcs[e.t]) && u < |s.pcs| && u != e.t
    ensures Good(m0, Next(c, s, e), u)
  {
    hide Valid, Apply, ReadSet, Writes, ReplayValid, ReplayMemory;
    assert Good(m0, s, e.t) && Good(m0, s, u);
    assert PairOk(s.pcs[e.t], u, s.pcs[u], s.counters[u]);
  }

  // One more counter scanned: a reader found announced is waited for, one found silent has not
  // begun, and one that moved on has begun anew after the buffer was complete.
  lemma {:induction false} GoPairsScan(c: Config, m0: Memory, s: State, e: Event, u: nat)
    requires Inv(m0, s) && e.Go? && Enabled(c, s, e) && !Publishes(s, e.t) && ScanStep(s.pcs[e.t])
    requires u < |s.pcs| && u != e.t
    ensures var s' := Next(c, s, e);
      PairOk(s'.pcs[e.t], u, s'.pcs[u], s'.counters[u]) && PairOk(s'.pcs[u], e.t, s'.pcs[e.t], s'.counters[e.t])
  {
    hide Valid, Apply, ReadSet, Writes, ReplayValid, ReplayMemory, TxOk;
    assert Good(m0, s, e.t) && Good(m0, s, u);
    assert PairOk(s.pcs[e.t], u, s.pcs[u], s.counters[u]) && PairOk(s.pcs[u], e.t, s.pcs[e.t], s.counters[e.t]);
  }

  lemma {:induction false} GoPairsLock(c: Config, m0: Memory, s: State, e: Event, u: nat)
    requires Inv(m0, s) && e.Go? && Enabled(c, s, e) && !ReaderStep(s, e) && !ScanStep(s.pcs[e.t])
    requires u < |s.pcs| && u != e.t
    ensures var s' := Next(c, s, e);
      PairOk(s'.pcs[e.t], u, s'.pcs[u], s'.counters[u]) && PairOk(s'.pcs[u], e.t, s'.pcs[e.t], s'.counters[e.t])
  {
    hide Valid, Apply, ReadSet, Writes, ReplayValid, ReplayMemory, TxOk;
    assert Good(m0, s, e.t) && Good(m0, s, u);
    assert PairOk(s.pcs[e.t], u, s.pcs[u], s.counters[u]) && PairOk(s.pcs[u], e.t, s.pcs[e.t], s.counters[e.t]);
  }

  lemma {:induction false} InvScanStep(c: Config, m0: Memory, s: State, e: Event)
    requires Inv(m0, s) && e.Go? && Enabled(c, s, e) && !Publishes(s, e.t) && ScanStep(s.pcs[e.t])
    ensures Inv(m0, Next(c, s, e))
  {
    hide Valid, Apply, ReadSet, Writes, ReplayValid, ReplayMemory, PairOk;
    var s' := Next(c, s, e);
    ScanGoodOwn(c, m0, s, e);
    OthersKept(m0, s, s', e.t);
    forall u | 0 <= u < |s.pcs| && u != e.t
      ensures PairOk(s'.pcs[e.t], u, s'.pcs[u], s'.counters[u]) && PairOk(s'.pcs[u], e.t, s'.pcs[e.t], s'.counters[e.t])
    {
      GoPairsScan(c, m0, s, e, u);
    }
    PairsKept(s, s', e.t);
  }

  lemma {:induction false} InvLockStep(c: Config, m0: Memory, s: State, e: Event)
    requires Inv(m0, s) && e.Go? && Enabled(c, s, e) && !ReaderStep(s, e) && !ScanStep(s.pcs[e.t])
    ensures Inv(m0, Next(c, s, e))
  {
    hide Valid, Apply, ReadSet, Writes, ReplayValid, ReplayMemory, PairOk;
    var s' := Next(c, s, e);
    assert Good(m0, s, e.t);
    LockGoodOwn(c, m0, s, e);
    if StoresLock(s.pcs[e.t]) {
      forall u | 0 <= u < |s.pcs| && u != e.t
        ensures Good(m0, s', u)
      {
        LockGoodOther(c, m0, s, e, u);
      }
    } else {
      OthersKept(m0, s, s', e.t);
    }
    forall u | 0 <= u < |s.pcs| && u != e.t
      ensures PairOk(s'.pcs[e.t], u, s'.pcs[u], s'.counters[u]) && PairOk(s'.pcs[u], e.t, s'.pcs[e.t], s'.counters[e.t])
    {
      GoPairsLock(c, m0, s, e, u);
    }
    PairsKept(s, s', e.t);
  }

  lemma {:induction false} InvGo(c: Config, m0: Memory, s: State, e: Event)
    requires Inv(m0, s) && e.Go? && Enabled(c, s, e)
    ensures Inv(m0, Next(c, s, e))
  {
    if Publishes(s, e.t) {
      InvCommit(c, m0, s, e.t);
    } else if ReaderStep(s, e) {
      InvReaderStep(c, m0, s, e);
    } else if ScanStep(s.pcs[e.t]) {
      InvScanStep(c, m0, s, e);
    } else {
      InvLockStep(c, m0, s, e);
    }
  }

  lemma {:induction false} InvNext(c: Config, m0: Memory, s: State, e: Event)
    requires Inv(m0, s) && Enabled(c, s, e)
    ensures Inv(m0, Next(c, s, e))
  {
    match e
    case Enter(_, _) => InvEnterAbort(c, m0, s, e);
    case Go(_) => InvGo(c, m0, s, e);
    case Read(_, _) => InvRead(c, m0, s, e);
    case Write(_, _, _) => InvWrite(c, m0, s, e);
    case Finish(_) => InvFinish(c, m0, s, e);
    case Abort(_, _) => InvEnterAbort(c, m0, s, e);
  }

  lemma {:induction false} InvAlways(c: Config, m0: Memory, es: seq<Event>)
    requires Legal(c, m0, es)
    ensures Inv(m0, After(c, m0, es))
  {
    if es != [] {
      InvAlways(c, m0, Front(es));
      InvNext(c, m0, After(c, m0, Front(es)), Last(es));
    }
  }

  // ---------- main results ----------

  // After any step of any thread (hardware commit, rollback-only commit, or a write under the
  // global lock), every address a reader in its section has read still holds the value it read.
  lemma {:induction false} ReaderConsistency(c: Config, m0: Memory, es: seq<Event>, r: nat)
    requires Legal(c, m0, es)
    requires r < |After(c, m0, es).pcs| && After(c, m0, es).pcs[r].RdBody?
    ensures var s := After(c, m0, es);
      forall i :: 0 <= i < |s.pcs[r].log| ==>
        s.pcs[r].log[i].Rd? && Get(s.mem, s.pcs[r].log[i].a) == s.pcs[r].log[i].v
  {
    InvAlways(c, m0, es);
    var s := After(c, m0, es);
    assert Good(m0, s, r);
    ReaderSeesOneMemory(s.mem, s.pcs[r].log);
  }

  // A commit that happens while a reader is in its section writes no address the reader has read.
  lemma {:induction false} CommitAvoidsReaders(c: Config, m0: Memory, es: seq<Event>, t: nat, r: nat)
    requires Legal(c, m0, es) && Publishes(After(c, m0, es), t)
    requires r < |After(c, m0, es).pcs| && After(c, m0, es).pcs[r].RdBody?
    ensures After(c, m0, es).pcs[t].tx.buf.Keys !! ReadSet(After(c, m0, es).pcs[r].log)
  {
    InvAlways(c, m0, es);
    var s := After(c, m0, es);
    assert Good(m0, s, t) && Good(m0, s, r) && PairOk(s.pcs[t], r, s.pcs[r], s.counters[r]);
  }

  // Every run is serialisable in the order in which sections complete: readers at their release,
  // speculating writers at their commit, global-lock writers at their release.
  lemma {:induction false} HerwlSerialisable(c: Config, m0: Memory, es: seq<Event>)
    requires Legal(c, m0, es)
    ensures var s := After(c, m0, es);
      && ReplayValid(m0, s.hist)
      && (s.lock != 2 ==> ReplayMemory(m0, s.hist) == s.mem)
      && (forall t :: 0 <= t < |s.pcs| && (s.pcs[t].GlWait? || s.pcs[t].RdBody?) ==>
            ReplayMemory(m0, s.hist) == s.mem)
      && (forall t :: 0 <= t < |s.pcs| && s.pcs[t].GlBody? ==>
            ReplayValid(m0, s.hist + [Section(t, s.pcs[t].log)]) &&
            ReplayMemory(m0, s.hist + [Section(t, s.pcs[t].log)]) == s.mem)
  {
    InvAlways(c, m0, es);
    var s := After(c, m0, es);
    forall t | 0 <= t < |s.pcs|
      ensures s.pcs[t].GlWait? || s.pcs[t].RdBody? ==> ReplayMemory(m0, s.hist) == s.mem
      ensures s.pcs[t].GlBody? ==>
        ReplayValid(m0, s.hist + [Section(t, s.pcs[t].log)]) &&
        ReplayMemory(m0, s.hist + [Section(t, s.pcs[t].log)]) == s.mem
    {
      assert |s.pcs| == |s.counters| && Good(m0, s, t);
      if s.pcs[t].GlBody? {
        ExtendHistory(m0, s.hist, Section(t, s.pcs[t].log));
      }
    }
  }

  // At most one thread owns writer_lock; an owner that writes memory directly is alone with it: no
  // reader is in its section and no hardware transaction can commit.
  lemma {:induction false} GlobalWriterAlone(c: Config, m0: Memory, es: seq<Event>, t: nat)
    requires Legal(c, m0, es) && t < |After(c, m0, es).pcs| && After(c, m0, es).pcs[t].GlBody?
    ensures var s := After(c, m0, es);
      s.lock == 2 && forall u :: 0 <= u < |s.pcs| && u != t ==>
        !OwnsOne(s.pcs[u]) && !OwnsTwo(s.pcs[u]) && !s.pcs[u].RdBody? && !LiveHtm(s.pcs[u])
  {
    InvAlways(c, m0, es);
    var s := After(c, m0, es);
    assert Good(m0, s, t);
    forall u | 0 <= u < |s.pcs| && u != t
      ensures !OwnsOne(s.pcs[u]) && !OwnsTwo(s.pcs[u]) && !s.pcs[u].RdBody? && !LiveHtm(s.pcs[u])
    {
      assert Good(m0, s, u) && PairOk(s.pcs[t], u, s.pcs[u], s.counters[u]);
    }
  }
}
