/**
 A section of the speculative read-write lock that meets no other thread: in each of the three modes it
 gets in, does what plain code does, and gets out, within a number of steps that is stated.
 */
module SpRwlAlone {
  import opened Replay
  import opened Requests
  import opened Htm
  import opened SpRwl
  import opened FlagLock

  // ---------- runs from a given state ----------

  function Run(c: Config, s: State, es: seq<Event>): State {
    if es == [] then s
    else
      var s' := Run(c, s, Front(es));
      if Enabled(c, s', Last(es)) then Next(c, s', Last(es)) else s'
  }

  ghost predicate Runs(c: Config, s: State, es: seq<Event>) {
    es == [] || (Runs(c, s, Front(es)) && Enabled(c, Run(c, s, Front(es)), Last(es)))
  }

  function Gos(t: nat, k: nat): seq<Event> {
    seq(k, _ => Go(t))
  }

  function Making(t: nat, rs: seq<Request>): seq<Event> {
    if rs == [] then [] else Making(t, Front(rs)) + [Access(t, Last(rs))]
  }

  function Access(t: nat, r: Request): Event {
    match r
    case Load(a) => Read(t, a)
    case Store(a, v) => Write(t, a, v)
  }

  // Other threads are where they were, save that their transactions may be condemned.
  ghost predicate SameElse(s: State, s': State, t: nat) {
    |s'.pcs| == |s.pcs| &&
    forall u :: 0 <= u < |s.pcs| && u != t ==> s'.pcs[u] == s.pcs[u] || s'.pcs[u] == Condemn(s.pcs[u])
  }

  lemma {:induction false} ElseStep(c: Config, s: State, e: Event)
    requires Enabled(c, s, e)
    ensures SameElse(s, Next(c, s, e), e.t)
  {
    forall u | 0 <= u < |s.pcs| && u != e.t
      ensures |Next(c, s, e).pcs| == |s.pcs|
      ensures Next(c, s, e).pcs[u] == s.pcs[u] || Next(c, s, e).pcs[u] == Condemn(s.pcs[u])
    {
      OthersStay(c, s, e, u);
    }
  }

  // All steps are steps of t.
  predicate AllBy(es: seq<Event>, t: nat) {
    forall i :: 0 <= i < |es| ==> es[i].t == t
  }

  lemma {:induction false} BothBy(a: seq<Event>, b: seq<Event>, t: nat)
    requires AllBy(a, t) && AllBy(b, t)
    ensures AllBy(a + b, t)
  {
  }

  lemma {:induction false} MakingBy(t: nat, rs: seq<Request>)
    ensures AllBy(Making(t, rs), t)
  {
    if rs != [] {
      MakingBy(t, Front(rs));
    }
  }

  // Three runs in a row, all of t.
  lemma {:induction false} ChainThree(c: Config, s: State, t: nat, a: seq<Event>, s1: State, rs: seq<Request>,
                                      s2: State, b: seq<Event>, s3: State)
    requires Leads(c, s, a, s1) && Leads(c, s1, Making(t, rs), s2) && Leads(c, s2, b, s3)
    requires AllBy(a, t) && AllBy(b, t)
    ensures Leads(c, s, a + Making(t, rs) + b, s3) && SameElse(s, s3, t)
  {
    hide AllBy;
    Chain(c, s, a, s1, Making(t, rs), s2);
    Chain(c, s, a + Making(t, rs), s2, b, s3);
    MakingBy(t, rs);
    BothBy(a, Making(t, rs), t);
    BothBy(a + Making(t, rs), b, t);
    ElseAlong(c, s, a + Making(t, rs) + b, t);
  }

  lemma {:induction false} ElseAlong(c: Config, s: State, es: seq<Event>, t: nat)
    requires Runs(c, s, es) && AllBy(es, t)
    ensures SameElse(s, Run(c, s, es), t)
  {
    if es != [] {
      ElseAlong(c, s, Front(es), t);
      ElseStep(c, Run(c, s, Front(es)), Last(es));
      hide Enabled, Next;
    }
  }

  // ---------- the accesses of a section ----------

  lemma {:induction false} TxAccess(c: Config, s: State, t: nat, rs: seq<Request>, r: Request)
    requires t < |s.pcs| && s.pcs[t].TxBody? && !s.pcs[t].tx.doomed && (s.pcs[t].ro ==> r.Load?)
    requires s.pcs[t].tx.log == Logged(s.mem, rs) && s.pcs[t].tx.buf == Writes(s.pcs[t].tx.log)
    ensures var e, p := Access(t, r), s.pcs[t];
      && Enabled(c, s, e)
      && var q := Next(c, s, e).pcs[t];
         && Next(c, s, e) == s.(pcs := Next(c, s, e).pcs) && |Next(c, s, e).pcs| == |s.pcs|
         && q.TxBody? && q.ro == p.ro && q.tries == p.tries && !q.tx.doomed
         && q.tx.log == Logged(s.mem, rs + [r]) && q.tx.buf == Writes(q.tx.log)
  {
    hide Doom, Hit, Logged;
    var p := s.pcs[t];
    LoggedRecords(s.mem, rs);
    LoggedMore(s.mem, rs, r);
    if r.Load? {
      WritesAnswer(s.mem, p.tx.log, rs, r.a);
    }
    FrontOfAppend(p.tx.log, Plainly(s.mem, rs, r));
  }

  lemma {:induction false} TxAccesses(c: Config, s: State, t: nat, ro: bool, tries: int, rs: seq<Request>)
    requires t < |s.pcs| && s.pcs[t] == TxBody(ro, tries, Fresh()) && (ro ==> OnlyLoads(rs))
    ensures Runs(c, s, Making(t, rs))
    ensures var s' := Run(c, s, Making(t, rs));
      && s' == s.(pcs := s'.pcs) && |s'.pcs| == |s.pcs|
      && s'.pcs[t].TxBody? && s'.pcs[t].ro == ro && s'.pcs[t].tries == tries && !s'.pcs[t].tx.doomed
      && s'.pcs[t].tx.log == Logged(s.mem, rs) && s'.pcs[t].tx.buf == Writes(s'.pcs[t].tx.log)
  {
    hide Enabled, Next, Logged;
    if rs == [] {
      LoggedNone(s.mem);
    } else {
      TxAccesses(c, s, t, ro, tries, Front(rs));
      var s1 := Run(c, s, Making(t, Front(rs)));
      TxAccess(c, s1, t, Front(rs), Last(rs));
      FrontOfAppend(Making(t, Front(rs)), Access(t, Last(rs)));
      assert Front(rs) + [Last(rs)] == rs;
    }
  }

  lemma {:induction false} DirectAccess(c: Config, s: State, t: nat, m: Memory, rs: seq<Request>, r: Request)
    requires t < |s.pcs| && (s.pcs[t].GlBody? || (s.pcs[t].RdBody? && OnlyLoads(rs) && r.Load?))
    requires s.pcs[t].log == Logged(m, rs) && s.mem == Stored(m, rs)
    ensures var e, p := Access(t, r), s.pcs[t];
      && Enabled(c, s, e)
      && var s' := Next(c, s, e);
         && s' == s.(pcs := s'.pcs, mem := s'.mem) && |s'.pcs| == |s.pcs| && s'.mem == Stored(m, rs + [r])
         && s'.pcs[t] == (if p.GlBody? then GlBody(Logged(m, rs + [r])) else RdBody(Logged(m, rs + [r])))
  {
    hide Doom, Hit, Logged, Stored;
    LoggedMore(m, rs, r);
    if r.Load? {
      AnswerIsGet(m, rs, r.a);
    }
  }

  lemma {:induction false} DirectAccesses(c: Config, s: State, t: nat, rs: seq<Request>)
    requires t < |s.pcs| && (s.pcs[t] == GlBody([]) || (s.pcs[t] == RdBody([]) && OnlyLoads(rs)))
    ensures Runs(c, s, Making(t, rs))
    ensures var s' := Run(c, s, Making(t, rs));
      && s' == s.(pcs := s'.pcs, mem := Stored(s.mem, rs)) && |s'.pcs| == |s.pcs|
      && s'.pcs[t] == (if s.pcs[t].GlBody? then GlBody(Logged(s.mem, rs)) else RdBody(Logged(s.mem, rs)))
  {
    hide Enabled, Next, Logged, Stored;
    if rs == [] {
      LoggedNone(s.mem);
    } else {
      DirectAccesses(c, s, t, Front(rs));
      var s1 := Run(c, s, Making(t, Front(rs)));
      DirectAccess(c, s1, t, s.mem, Front(rs), Last(rs));
      FrontOfAppend(Making(t, Front(rs)), Access(t, Last(rs)));
      assert Front(rs) + [Last(rs)] == rs;
    }
  }

  // ---------- the steps before and after ----------

  // The run es leads from s to s'.
  ghost predicate Leads(c: Config, s: State, es: seq<Event>, s': State) {
    Runs(c, s, es) && Run(c, s, es) == s'
  }

  lemma {:induction false} Chain(c: Config, s: State, a: seq<Event>, s1: State, b: seq<Event>, s2: State)
    requires Leads(c, s, a, s1) && Leads(c, s1, b, s2)
    ensures Leads(c, s, a + b, s2)
  {
    hide Enabled, Next;
    if b == [] {
      assert a + b == a;
    } else {
      Chain(c, s, a, s1, Front(b), Run(c, s1, Front(b)));
      assert Front(a + b) == a + Front(b);
    }
  }

  lemma {:induction false} OneStep(c: Config, s: State, e: Event)
    requires Enabled(c, s, e)
    ensures Leads(c, s, [e], Next(c, s, e))
  {
    assert Front([e]) == [] && Run(c, s, []) == s && Runs(c, s, []);
  }

  // All cells read clear.
  predicate AllClear(s: State) {
    forall j :: 0 <= j < |s.cells| ==> !s.cells[j]
  }

  // A scan over clear cells reads one cell a step.
  lemma {:induction false} ScanAlone(c: Config, s: State, t: nat, k: nat)
    requires t < |s.pcs| && AllClear(s) && k <= |s.cells|
    requires s.pcs[t] == GlScan(0) || (s.pcs[t].TxScan? && !s.pcs[t].tx.doomed && s.pcs[t].k == 0)
    ensures Leads(c, s, Gos(t, k), s.(pcs := s.pcs[t := s.pcs[t].(k := k)]))
  {
    if k == 0 {
      assert s.pcs[t := s.pcs[t].(k := 0)] == s.pcs;
    } else {
      ScanAlone(c, s, t, k - 1);
      assert Front(Gos(t, k)) == Gos(t, k - 1);
      hide AfterAbort, Commit, Doom;
      var s1 := s.(pcs := s.pcs[t := s.pcs[t].(k := k - 1)]);
      assert Next(c, s1, Go(t)) == s.(pcs := s.pcs[t := s.pcs[t].(k := k)]);
    }
  }

  // A transaction begins in two steps while the lock word is clear.
  lemma {:induction false} BeginsAlone(c: Config, s: State, t: nat, ro: bool, tries: int)
    requires t < |s.pcs| && !s.locked && s.pcs[t] == WaitFree(ro, tries)
    ensures Leads(c, s, [Go(t), Go(t)], s.(pcs := s.pcs[t := TxBody(ro, tries, Fresh())]))
  {
    var s1 := s.(pcs := s.pcs[t := TxSubscribe(ro, tries)]);
    var s2 := s.(pcs := s.pcs[t := TxBody(ro, tries, Fresh())]);
    assert Next(c, s, Go(t)) == s1;
    assert Next(c, s1, Go(t)).pcs == s2.pcs;
    hide Next, Enabled;
    OneStep(c, s, Go(t));
    OneStep(c, s1, Go(t));
    Chain(c, s, [Go(t)], s1, [Go(t)], s2);
    assert [Go(t)] + [Go(t)] == [Go(t), Go(t)];
  }

  // A committing writer gets through a scan of clear cells and publishes what it wrote.
  lemma {:induction false} CommitsAlone(c: Config, s: State, t: nat)
    requires t < |s.pcs| && AllClear(s) && s.pcs[t].TxScan? && !s.pcs[t].tx.doomed && s.pcs[t].k == 0
    ensures Leads(c, s, Gos(t, |s.cells| + 1),
      s.(mem := s.mem + s.pcs[t].tx.buf, pcs := s.pcs[t := Idle], hist := s.hist + [Section(t, s.pcs[t].tx.log)]))
  {
    hide Leads, AfterAbort, Doom, Hit;
    var n := |s.cells|;
    ScanAlone(c, s, t, n);
    var s1 := s.(pcs := s.pcs[t := s.pcs[t].(k := n)]);
    assert s1.pcs[t := Idle] == s.pcs[t := Idle];
    var s2 := Commit(s1, t, s.pcs[t].tx);
    assert Next(c, s1, Go(t)) == s2;
    OneStep(c, s1, Go(t));
    hide Enabled, Next;
    Chain(c, s, Gos(t, n), s1, [Go(t)], s2);
    assert Gos(t, n) + [Go(t)] == Gos(t, n + 1);
  }

  // The fallback lock is taken, and the cells scanned, in as many steps as there are cells and two more.
  lemma {:induction false} AcquiresAlone(c: Config, s: State, t: nat)
    requires t < |s.pcs| && !s.locked && AllClear(s) && s.pcs[t].GlAcquire?
    ensures Leads(c, s, Gos(t, |s.cells| + 2),
      s.(locked := true, pcs := Doom(s.pcs, t, LockWord, true)[t := GlBody([])]))
  {
    hide Hit;
    var n := |s.cells|;
    var s1 := Next(c, s, Go(t));
    assert s1 == s.(locked := true, pcs := Doom(s.pcs, t, LockWord, true)[t := GlScan(0)]);
    OneStep(c, s, Go(t));
    ScanAlone(c, s1, t, n);
    var s2 := s1.(pcs := s1.pcs[t := GlScan(n)]);
    OneStep(c, s2, Go(t));
    assert s1.pcs[t := GlScan(n)][t := GlBody([])] == Doom(s.pcs, t, LockWord, true)[t := GlBody([])];
    var s3 := Next(c, s2, Go(t));
    hide Leads;
    Chain(c, s, [Go(t)], s1, Gos(t, n), s2);
    Chain(c, s, [Go(t)] + Gos(t, n), s2, [Go(t)], s3);
    assert [Go(t)] + Gos(t, n) + [Go(t)] == Gos(t, n + 2);
  }

  // ---------- whole sections ----------

  // The section of t is over: memory and history are what plain code makes of them, the lock is free,
  // and nothing else has happened.
  ghost predicate RanPlainly(s: State, s': State, t: nat, rs: seq<Request>) {
    && t < |s.pcs| && SameElse(s, s', t) && s'.pcs[t].Idle?
    && s'.mem == Stored(s.mem, rs) && s'.hist == s.hist + [Section(t, Logged(s.mem, rs))]
    && !s'.locked && s'.cells == s.cells
  }

  // What t does in a transaction: begin, two steps to its first access, and at a writer's end one step
  // for each cell and one for the commit.
  function TxSection(t: nat, ro: bool, rs: seq<Request>, cells: nat): seq<Event> {
    [Enter(t, ro)] + [Go(t), Go(t)] + Making(t, rs) + TxRelease(t, ro, cells)
  }

  lemma {:induction false} EntersAlone(c: Config, s: State, t: nat, ro: bool)
    requires t < |s.pcs| && s.pcs[t].Idle? && !s.locked
    ensures Leads(c, s, [Enter(t, ro)] + [Go(t), Go(t)], s.(pcs := s.pcs[t := TxBody(ro, c.retries, Fresh())]))
  {
    var s1 := s.(pcs := s.pcs[t := WaitFree(ro, c.retries)]);
    OneStep(c, s, Enter(t, ro));
    BeginsAlone(c, s1, t, ro, c.retries);
    var s2 := s1.(pcs := s1.pcs[t := TxBody(ro, c.retries, Fresh())]);
    assert s2 == s.(pcs := s.pcs[t := TxBody(ro, c.retries, Fresh())]);
    hide Leads;
    Chain(c, s, [Enter(t, ro)], s1, [Go(t), Go(t)], s2);
  }

  // The release of a transaction.
  function TxRelease(t: nat, ro: bool, cells: nat): seq<Event> {
    [Finish(t)] + if ro then [] else Gos(t, cells + 1)
  }

  lemma {:induction false} EndsAlone(c: Config, s: State, t: nat)
    requires t < |s.pcs| && s.pcs[t].TxBody? && !s.pcs[t].tx.doomed && (!s.pcs[t].ro ==> AllClear(s))
    ensures Leads(c, s, TxRelease(t, s.pcs[t].ro, |s.cells|), Commit(s, t, s.pcs[t].tx))
  {
    var s1 := Next(c, s, Finish(t));
    OneStep(c, s, Finish(t));
    if s.pcs[t].ro {
      assert [Finish(t)] + [] == [Finish(t)];
    } else {
      CommitsAlone(c, s1, t);
      assert s1.pcs[t := Idle] == s.pcs[t := Idle];
      Chain(c, s, [Finish(t)], s1, Gos(t, |s.cells| + 1), Commit(s, t, s.pcs[t].tx));
    }
  }

  // A section alone in a transaction commits at its first try.
  lemma {:induction false} AloneInTransaction(c: Config, s: State, t: nat, ro: bool, rs: seq<Request>)
    requires t < |s.pcs| && s.pcs[t].Idle? && !s.locked && (ro ==> OnlyLoads(rs)) && (!ro ==> AllClear(s))
    ensures Runs(c, s, TxSection(t, ro, rs, |s.cells|))
    ensures RanPlainly(s, Run(c, s, TxSection(t, ro, rs, |s.cells|)), t, rs)
  {
    hide Stored, Logged, Next, Enabled;
    EntersAlone(c, s, t, ro);
    var s2 := s.(pcs := s.pcs[t := TxBody(ro, c.retries, Fresh())]);
    TxAccesses(c, s2, t, ro, c.retries, rs);
    LoggedStores(s.mem, rs);
    var s3 := Run(c, s2, Making(t, rs));
    EndsAlone(c, s3, t);
    var s4 := Commit(s3, t, s3.pcs[t].tx);
    assert Leads(c, s2, Making(t, rs), s3);
    ChainThree(c, s, t, [Enter(t, ro)] + [Go(t), Go(t)], s2, rs, s3, TxRelease(t, ro, |s.cells|), s4);
  }

  // A section alone under the fallback lock.
  function LockSection(t: nat, rs: seq<Request>, cells: nat): seq<Event> {
    Gos(t, cells + 2) + Making(t, rs) + [Finish(t)]
  }

  lemma {:induction false} UnlocksAlone(c: Config, s: State, t: nat)
    requires t < |s.pcs| && s.pcs[t].GlBody?
    ensures Leads(c, s, [Finish(t)],
      State(false, s.cells, s.mem, Doom(s.pcs, t, LockWord, true)[t := Idle], s.hist + [Section(t, s.pcs[t].log)]))
  {
    hide Doom;
    OneStep(c, s, Finish(t));
  }

  lemma {:induction false} AloneUnderLock(c: Config, s: State, t: nat, rs: seq<Request>)
    requires t < |s.pcs| && s.pcs[t].GlAcquire? && !s.locked && AllClear(s)
    ensures Runs(c, s, LockSection(t, rs, |s.cells|))
    ensures RanPlainly(s, Run(c, s, LockSection(t, rs, |s.cells|)), t, rs)
  {
    hide Stored, Logged, Doom, Hit, Next, Enabled, AllClear;
    AcquiresAlone(c, s, t);
    var s1 := s.(locked := true, pcs := Doom(s.pcs, t, LockWord, true)[t := GlBody([])]);
    DirectAccesses(c, s1, t, rs);
    var s2 := Run(c, s1, Making(t, rs));
    UnlocksAlone(c, s2, t);
    var s3 := State(false, s2.cells, s2.mem, Doom(s2.pcs, t, LockWord, true)[t := Idle],
      s2.hist + [Section(t, s2.pcs[t].log)]);
    assert Leads(c, s1, Making(t, rs), s2);
    ChainThree(c, s, t, Gos(t, |s.cells| + 2), s1, rs, s2, [Finish(t)], s3);
  }

  // A section alone in read mode: raise the flag, look at the lock word, read, lower the flag.
  function ReadSection(cells: seq<bool>, t: nat, rs: seq<Request>): seq<Event>
    requires t < |cells|
  {
    [StoreEvent(cells, t, true), Go(t)] + Making(t, rs) + [Finish(t), StoreEvent(cells[t := true], t, false)]
  }

  // Raising the flag and finding the lock word clear takes a reader into its section.
  lemma {:induction false} ReaderEntersAlone(c: Config, s: State, t: nat)
    requires t < |s.pcs| && t < |s.cells| && s.pcs[t].RdArrive? && !s.locked
    ensures Runs(c, s, [StoreEvent(s.cells, t, true), Go(t)])
    ensures var s' := Run(c, s, [StoreEvent(s.cells, t, true), Go(t)]);
      && s' == s.(cells := s.cells[t := true], pcs := s'.pcs) && |s'.pcs| == |s.pcs| && s'.pcs[t] == RdBody([])
  {
    hide Hit;
    var e := StoreEvent(s.cells, t, true);
    var s1 := Next(c, s, e);
    assert Enabled(c, s, e) && s1 == s.(cells := s.cells[t := true], pcs := s1.pcs) && s1.pcs[t].RdCheck?;
    var s2 := Next(c, s1, Go(t));
    assert s2 == s1.(pcs := s2.pcs) && s2.pcs[t] == RdBody([]);
    OneStep(c, s, e);
    OneStep(c, s1, Go(t));
    hide Next, Enabled;
    Chain(c, s, [e], s1, [Go(t)], s2);
    assert [e] + [Go(t)] == [e, Go(t)];
  }

  lemma {:induction false} ReaderLeavesAlone(c: Config, s: State, t: nat)
    requires t < |s.pcs| && t < |s.cells| && s.pcs[t].RdBody?
    ensures Runs(c, s, [Finish(t), StoreEvent(s.cells, t, false)])
    ensures var s' := Run(c, s, [Finish(t), StoreEvent(s.cells, t, false)]);
      && |s'.pcs| == |s.pcs| && s'.pcs[t].Idle?
      && s' == s.(cells := s.cells[t := false], pcs := s'.pcs, hist := s.hist + [Section(t, s.pcs[t].log)])
  {
    hide Hit;
    var e := StoreEvent(s.cells, t, false);
    var s1 := Next(c, s, Finish(t));
    assert s1 == s.(pcs := s1.pcs, hist := s.hist + [Section(t, s.pcs[t].log)]) && s1.pcs[t] == RdLeave(false);
    var s2 := Next(c, s1, e);
    assert s2 == s1.(cells := s.cells[t := false], pcs := s2.pcs) && s2.pcs[t].Idle?;
    OneStep(c, s, Finish(t));
    OneStep(c, s1, e);
    hide Next, Enabled;
    Chain(c, s, [Finish(t)], s1, [e], s2);
    assert [Finish(t)] + [e] == [Finish(t), e];
  }

  lemma {:induction false} AloneAsReader(c: Config, s: State, t: nat, rs: seq<Request>)
    requires t < |s.pcs| && t < |s.cells| && s.pcs[t].RdArrive? && !s.locked && OnlyLoads(rs) && !s.cells[t]
    ensures Runs(c, s, ReadSection(s.cells, t, rs))
    ensures RanPlainly(s, Run(c, s, ReadSection(s.cells, t, rs)), t, rs)
  {
    hide Stored, Logged, Next, Enabled;
    ReaderEntersAlone(c, s, t);
    var raise, lower := [StoreEvent(s.cells, t, true), Go(t)], [Finish(t), StoreEvent(s.cells[t := true], t, false)];
    var s1 := Run(c, s, raise);
    DirectAccesses(c, s1, t, rs);
    var s2 := Run(c, s1, Making(t, rs));
    ReaderLeavesAlone(c, s2, t);
    var s3 := Run(c, s2, lower);
    assert Leads(c, s, raise, s1) && Leads(c, s1, Making(t, rs), s2) && Leads(c, s2, lower, s3);
    ChainThree(c, s, t, raise, s1, rs, s2, lower, s3);
    assert s.cells[t := true][t := false] == s.cells;
  }

  // ---------- a set lock word ----------

  // What t is waiting for has not happened.
  predicate Waits(s: State, t: nat)
    requires t < |s.pcs|
  {
    match s.pcs[t]
    case WaitFree(_, _) => s.locked
    case GlAcquire => s.locked
    case RdWait => s.locked
    case GlScan(k) => k < |s.cells| && s.cells[k]
    case _ => false
  }

  // Until it does, t takes no other step, however often it looks.
  lemma {:induction false} StaysWhileSet(c: Config, s: State, t: nat, k: nat)
    requires t < |s.pcs| && Waits(s, t)
    ensures Leads(c, s, Gos(t, k), s)
  {
    if k > 0 {
      StaysWhileSet(c, s, t, k - 1);
      assert Front(Gos(t, k)) == Gos(t, k - 1);
    }
  }

  // A reader that has raised its flag and finds the lock word set lowers its flag again and then waits.
  lemma {:induction false} BacksOff(c: Config, s: State, t: nat)
    requires t < |s.pcs| && t < |s.cells| && s.pcs[t].RdArrive? && s.locked
    ensures var es := [StoreEvent(s.cells, t, true), Go(t), StoreEvent(s.cells[t := true], t, false)];
      && Runs(c, s, es)
      && var s' := Run(c, s, es);
         && |s'.pcs| == |s.pcs| && s'.pcs[t].RdWait? && s' == s.(cells := s.cells[t := false], pcs := s'.pcs)
         && Next(c, s', Go(t)) == s'
         && Next(c, s'.(locked := false), Go(t)) == s'.(locked := false, pcs := s'.pcs[t := RdArrive])
  {
    hide Hit;
    var e, e' := StoreEvent(s.cells, t, true), StoreEvent(s.cells[t := true], t, false);
    var s1 := Next(c, s, e);
    assert s1 == s.(cells := s.cells[t := true], pcs := s1.pcs) && s1.pcs[t].RdCheck?;
    var s2 := Next(c, s1, Go(t));
    assert s2 == s1.(pcs := s2.pcs) && s2.pcs[t] == RdLeave(true);
    var s3 := Next(c, s2, e');
    assert s3 == s2.(cells := s.cells[t := true][t := false], pcs := s3.pcs) && s3.pcs[t].RdWait?;
    assert s.cells[t := true][t := false] == s.cells[t := false];
    OneStep(c, s, e);
    OneStep(c, s1, Go(t));
    OneStep(c, s2, e');
    Chain(c, s, [e], s1, [Go(t)], s2);
    Chain(c, s, [e] + [Go(t)], s2, [e'], s3);
    assert [e] + [Go(t)] + [e'] == [e, Go(t), e'];
  }

  // ---------- a clear lock word ----------

  function OwnSteps(es: seq<Event>, t: nat): nat {
    if es == [] then 0 else OwnSteps(Front(es), t) + if Last(es).t == t then 1 else 0
  }

  // Whatever others do, the lock word is clear when t takes a step, and t is neither aborted nor kept
  // waiting by the indicator.
  ghost predicate ClearFor(c: Config, s: State, es: seq<Event>, t: nat) {
    es == [] ||
    (ClearFor(c, s, Front(es), t) &&
     (Last(es).t == t ==> !Run(c, s, Front(es)).locked && !Last(es).Abort? && (Last(es).Signal? ==> Last(es).done)))
  }

  // Among any steps of other threads a reader takes two of its own into its section.
  lemma {:induction false} ReaderEnters(c: Config, s: State, es: seq<Event>, t: nat)
    requires Runs(c, s, es) && t < |s.pcs| && s.pcs[t].RdArrive? && ClearFor(c, s, es, t) && OwnSteps(es, t) <= 2
    ensures |Run(c, s, es).pcs| == |s.pcs|
    ensures Run(c, s, es).pcs[t] == [RdArrive, RdCheck, RdBody([])][OwnSteps(es, t)]
  {
    if es != [] {
      ReaderEnters(c, s, Front(es), t);
      var s1, e := Run(c, s, Front(es)), Last(es);
      if e.t != t {
        OthersStay(c, s1, e, t);
        hide Next;
      }
      hide Doom, DoomCells;
    }
  }

  // And a transaction begins after two of its own steps, though others may have condemned it since.
  lemma {:induction false} TransactionBegins(c: Config, s: State, es: seq<Event>, t: nat, ro: bool, tries: int)
    requires Runs(c, s, es) && t < |s.pcs| && s.pcs[t] == WaitFree(ro, tries) && ClearFor(c, s, es, t)
    requires OwnSteps(es, t) <= 2
    ensures |Run(c, s, es).pcs| == |s.pcs|
    ensures var p := Run(c, s, es).pcs[t];
      if OwnSteps(es, t) == 0 then p == s.pcs[t]
      else if OwnSteps(es, t) == 1 then p == TxSubscribe(ro, tries)
      else p == TxBody(ro, tries, Fresh()) || p == Condemn(TxBody(ro, tries, Fresh()))
  {
    if es != [] {
      TransactionBegins(c, s, Front(es), t, ro, tries);
      var s1, e := Run(c, s, Front(es)), Last(es);
      if e.t != t {
        OthersStay(c, s1, e, t);
        hide Next;
      }
      hide Doom, DoomCells, Hit;
    }
  }
}
