/**
 A HERWL section that meets no other thread: as a reader, in a hardware or a rollback-only transaction,
 and under the global lock it gets in, does what plain code does, and gets out, within a number of
 steps that is stated.
 */
module HerwlAlone {
  import opened Replay
  import opened Requests
  import opened Htm
  import opened Herwl
  import opened HerwlProgress

  // ---------- runs from a given state ----------

  function Run(c: Config, s: State, es: seq<Event>): State {
    if es == [] then s
    else
      var s' := Run(c, s, Front(es));
      if Enabled(c, s', Last(es)) then Next(c, s', Last(es)) else s'
  }

  ghost predicate Runs(c: Config, s: State, es: seq<Event>) {
    es == [] || (Runs(c, s, Front(es)) && Enabled(c, Run(c, s, Front(es)), Last(es)))
  }

  // The run es leads from s to s'.
  ghost predicate Leads(c: Config, s: State, es: seq<Event>, s': State) {
    Runs(c, s, es) && Run(c, s, es) == s'
  }

  lemma {:induction false} Chain(c: Config, s: State, a: seq<Event>, s1: State, b: seq<Event>, s2: State)
    requires Leads(c, s, a, s1) && Leads(c, s1, b, s2)
    ensures Leads(c, s, a + b, s2)
  {
    hide Enabled, Next;
    if b == [] {
      assert a + b == a;
    } else {
      Chain(c, s, a, s1, Front(b), Run(c, s1, Front(b)));
      assert Front(a + b) == a + Front(b);
    }
  }

  lemma {:induction false} OneStep(c: Config, s: State, e: Event)
    requires Enabled(c, s, e)
    ensures Leads(c, s, [e], Next(c, s, e))
  {
    assert Front([e]) == [] && Run(c, s, []) == s && Runs(c, s, []);
  }

  function Gos(t: nat, k: nat): seq<Event> {
    seq(k, _ => Go(t))
  }

  function Making(t: nat, rs: seq<Request>): seq<Event> {
    if rs == [] then [] else Making(t, Front(rs)) + [Access(t, Last(rs))]
  }

  function Access(t: nat, r: Request): Event {
    match r
    case Load(a) => Read(t, a)
    case Store(a, v) => Write(t, a, v)
  }

  // Other threads are where they were, save that their transactions may be condemned.
  ghost predicate SameElse(s: State, s': State, t: nat) {
    |s'.pcs| == |s.pcs| &&
    forall u :: 0 <= u < |s.pcs| && u != t ==> s'.pcs[u] == s.pcs[u] || s'.pcs[u] == Condemn(s.pcs[u])
  }

  lemma {:induction false} ElseStep(c: Config, s: State, e: Event)
    requires Enabled(c, s, e)
    ensures SameElse(s, Next(c, s, e), e.t)
  {
    hide Enabled, Next;
    SameCount(c, s, e);
    forall u | 0 <= u < |s.pcs| && u != e.t
      ensures Next(c, s, e).pcs[u] == s.pcs[u] || Next(c, s, e).pcs[u] == Condemn(s.pcs[u])
    {
      OthersStay(c, s, e, u);
    }
  }

  lemma {:induction false} SameCount(c: Config, s: State, e: Event)
    requires Enabled(c, s, e)
    ensures |Next(c, s, e).pcs| == |s.pcs|
  {
    hide Doom, Hit, SpendHtm, SpendRot, WriterLoop, TxRead, TxAfterRead, TxAfterWrite;
  }

  // All steps are steps of t.
  predicate AllBy(es: seq<Event>, t: nat) {
    forall i :: 0 <= i < |es| ==> es[i].t == t
  }

  lemma {:induction false} BothBy(a: seq<Event>, b: seq<Event>, t: nat)
    requires AllBy(a, t) && AllBy(b, t)
    ensures AllBy(a + b, t)
  {
  }

  lemma {:induction false} MakingBy(t: nat, rs: seq<Request>)
    ensures AllBy(Making(t, rs), t)
  {
    if rs != [] {
      MakingBy(t, Front(rs));
    }
  }

  // Three runs in a row, all of t.
  lemma {:induction false} ChainThree(c: Config, s: State, t: nat, a: seq<Event>, s1: State, rs: seq<Request>,
                                      s2: State, b: seq<Event>, s3: State)
    requires Leads(c, s, a, s1) && Leads(c, s1, Making(t, rs), s2) && Leads(c, s2, b, s3)
    requires AllBy(a, t) && AllBy(b, t)
    ensures Leads(c, s, a + Making(t, rs) + b, s3) && SameElse(s, s3, t)
  {
    hide AllBy;
    Chain(c, s, a, s1, Making(t, rs), s2);
    Chain(c, s, a + Making(t, rs), s2, b, s3);
    MakingBy(t, rs);
    BothBy(a, Making(t, rs), t);
    BothBy(a + Making(t, rs), b, t);
    ElseAlong(c, s, a + Making(t, rs) + b, t);
  }

  lemma {:induction false} ElseAlong(c: Config, s: State, es: seq<Event>, t: nat)
    requires Runs(c, s, es) && AllBy(es, t)
    ensures SameElse(s, Run(c, s, es), t)
  {
    if es != [] {
      hide Enabled, Next;
      ElseAlong(c, s, Front(es), t);
      ElseStep(c, Run(c, s, Front(es)), Last(es));
    }
  }

  // ---------- the accesses of a section ----------

  predicate InTx(p: Pc) {
    p.TxBody? || p.RotBody?
  }

  lemma {:induction false} TxAccess(c: Config, s: State, t: nat, rs: seq<Request>, r: Request)
    requires t < |s.pcs| == |s.counters| && InTx(s.pcs[t]) && !s.pcs[t].tx.doomed
    requires s.pcs[t].tx.log == Logged(s.mem, rs) && s.pcs[t].tx.buf == Writes(s.pcs[t].tx.log)
    ensures var e, p := Access(t, r), s.pcs[t];
      && Enabled(c, s, e)
      && var q := Next(c, s, e).pcs[t];
         && Next(c, s, e) == s.(pcs := Next(c, s, e).pcs) && |Next(c, s, e).pcs| == |s.pcs|
         && InTx(q) && q.TxBody? == p.TxBody? && q.tries == p.tries && !q.tx.doomed
         && q.tx.log == Logged(s.mem, rs + [r]) && q.tx.buf == Writes(q.tx.log)
  {
    hide Doom, Hit, Logged;
    var p := s.pcs[t];
    LoggedRecords(s.mem, rs);
    LoggedMore(s.mem, rs, r);
    if r.Load? {
      WritesAnswer(s.mem, p.tx.log, rs, r.a);
    }
    FrontOfAppend(p.tx.log, Plainly(s.mem, rs, r));
  }

  lemma {:induction false} TxAccesses(c: Config, s: State, t: nat, rs: seq<Request>)
    requires t < |s.pcs| == |s.counters| && InTx(s.pcs[t]) && s.pcs[t].tx == Fresh()
    ensures Runs(c, s, Making(t, rs))
    ensures var s' := Run(c, s, Making(t, rs));
      && s' == s.(pcs := s'.pcs) && |s'.pcs| == |s.pcs|
      && InTx(s'.pcs[t]) && s'.pcs[t].TxBody? == s.pcs[t].TxBody? && s'.pcs[t].tries == s.pcs[t].tries
      && !s'.pcs[t].tx.doomed
      && s'.pcs[t].tx.log == Logged(s.mem, rs) && s'.pcs[t].tx.buf == Writes(s'.pcs[t].tx.log)
  {
    hide Enabled, Next, Logged;
    if rs == [] {
      LoggedNone(s.mem);
    } else {
      TxAccesses(c, s, t, Front(rs));
      var s1 := Run(c, s, Making(t, Front(rs)));
      TxAccess(c, s1, t, Front(rs), Last(rs));
      FrontOfAppend(Making(t, Front(rs)), Access(t, Last(rs)));
      assert Front(rs) + [Last(rs)] == rs;
    }
  }

  lemma {:induction false} DirectAccess(c: Config, s: State, t: nat, m: Memory, rs: seq<Request>, r: Request)
    requires t < |s.pcs| == |s.counters| && (s.pcs[t].GlBody? || (s.pcs[t].RdBody? && r.Load?))
    requires s.pcs[t].log == Logged(m, rs) && s.mem == Stored(m, rs)
    ensures var e, p := Access(t, r), s.pcs[t];
      && Enabled(c, s, e)
      && var s' := Next(c, s, e);
         && s' == s.(pcs := s'.pcs, mem := s'.mem) && |s'.pcs| == |s.pcs| && s'.mem == Stored(m, rs + [r])
         && s'.pcs[t] == (if p.GlBody? then GlBody(Logged(m, rs + [r])) else RdBody(Logged(m, rs + [r])))
  {
    hide Doom, Hit, Logged, Stored;
    LoggedMore(m, rs, r);
    if r.Load? {
      AnswerIsGet(m, rs, r.a);
    }
  }

  lemma {:induction false} DirectAccesses(c: Config, s: State, t: nat, rs: seq<Request>)
    requires t < |s.pcs| == |s.counters| && (s.pcs[t] == GlBody([]) || (s.pcs[t] == RdBody([]) && OnlyLoads(rs)))
    ensures Runs(c, s, Making(t, rs))
    ensures var s' := Run(c, s, Making(t, rs));
      && s' == s.(pcs := s'.pcs, mem := Stored(s.mem, rs)) && |s'.pcs| == |s.pcs|
      && s'.pcs[t] == (if s.pcs[t].GlBody? then GlBody(Logged(s.mem, rs)) else RdBody(Logged(s.mem, rs)))
  {
    hide Enabled, Next, Logged, Stored;
    if rs == [] {
      LoggedNone(s.mem);
    } else {
      DirectAccesses(c, s, t, Front(rs));
      var s1 := Run(c, s, Making(t, Front(rs)));
      DirectAccess(c, s1, t, s.mem, Front(rs), Last(rs));
      FrontOfAppend(Making(t, Front(rs)), Access(t, Last(rs)));
      assert Front(rs) + [Last(rs)] == rs;
    }
  }

  // ---------- the scans of the counters ----------

  // No reader is announced.
  predicate AllEven(s: State) {
    forall j :: 0 <= j < |s.counters| ==> !Odd(s.counters[j])
  }

  // A thread about to read the first counter of a scan that waits for readers: with none announced it
  // reads one a step.
  predicate AtScan(s: State, t: nat) {
    && t < |s.pcs| == |s.counters| && AllEven(s)
    && ((s.pcs[t].TxQuiesce? && s.pcs[t].k == 0 && !s.pcs[t].tx.doomed) || s.pcs[t] == GlWait(0))
  }

  function Reading(p: Pc, k: nat): Pc {
    if p.TxQuiesce? then TxQuiesce(p.tries, p.tx, k) else GlWait(k)
  }

  lemma {:induction false} ScanStep(c: Config, s: State, t: nat, k: nat, s1: State)
    requires AtScan(s, t) && k < |s.counters| && s1 == s.(pcs := s.pcs[t := Reading(s.pcs[t], k)])
    ensures Enabled(c, s1, Go(t))
    ensures Next(c, s1, Go(t)) == s.(pcs := s.pcs[t := Reading(s.pcs[t], k + 1)])
  {
    hide Doom, Hit, Commit;
  }

  lemma {:induction false} ScanAlone(c: Config, s: State, t: nat, k: nat)
    requires AtScan(s, t) && k <= |s.counters|
    ensures Leads(c, s, Gos(t, k), s.(pcs := s.pcs[t := Reading(s.pcs[t], k)]))
  {
    if k == 0 {
      assert s.pcs[t := Reading(s.pcs[t], 0)] == s.pcs;
    } else {
      ScanAlone(c, s, t, k - 1);
      assert Front(Gos(t, k)) == Gos(t, k - 1);
      ScanStep(c, s, t, k - 1, s.(pcs := s.pcs[t := Reading(s.pcs[t], k - 1)]));
      hide Enabled, Next, AtScan;
    }
  }

  // What follows such a scan: a commit, or the section under the global lock.
  function AfterScan(s: State, t: nat): State
    requires AtScan(s, t)
  {
    if s.pcs[t].TxQuiesce? then Commit(s, t, s.pcs[t].tx, Idle) else s.(pcs := s.pcs[t := GlBody([])])
  }

  lemma {:induction false} ScanEnds(c: Config, s: State, t: nat)
    requires AtScan(s, t)
    ensures Leads(c, s, Gos(t, |s.counters| + 1), AfterScan(s, t))
  {
    var n := |s.counters|;
    ScanAlone(c, s, t, n);
    var s1 := s.(pcs := s.pcs[t := Reading(s.pcs[t], n)]);
    assert Enabled(c, s1, Go(t));
    assert s1.pcs[t := AfterScan(s, t).pcs[t]] == s.pcs[t := AfterScan(s, t).pcs[t]];
    assert Next(c, s1, Go(t)) == AfterScan(s, t);
    OneStep(c, s1, Go(t));
    hide Enabled, Next;
    Chain(c, s, Gos(t, n), s1, [Go(t)], AfterScan(s, t));
    assert Gos(t, n) + [Go(t)] == Gos(t, n + 1);
  }

  // The counters of the announced readers among the first k; 0 stands for all others.
  function OddOnes(counters: seq<nat>, k: nat): seq<nat> {
    seq(|counters|, j requires 0 <= j < |counters| => if j < k && Odd(counters[j]) then counters[j] else 0)
  }

  // The snapshot of a rollback-only writer notes exactly the announced readers, one counter a step.
  lemma {:induction false} SnapAlone(c: Config, s: State, t: nat, k: nat)
    requires t < |s.pcs| == |s.counters| && s.pcs[t].RotSnap? && !s.pcs[t].tx.doomed && k <= |s.counters|
    requires s.pcs[t].k == 0 && s.pcs[t].snap == OddOnes(s.counters, 0)
    ensures var p := s.pcs[t];
      Leads(c, s, Gos(t, k), s.(pcs := s.pcs[t := RotSnap(p.tries, p.tx, k, OddOnes(s.counters, k))]))
  {
    var p := s.pcs[t];
    if k == 0 {
      assert s.pcs[t := RotSnap(p.tries, p.tx, 0, OddOnes(s.counters, 0))] == s.pcs;
    } else {
      SnapAlone(c, s, t, k - 1);
      assert Front(Gos(t, k)) == Gos(t, k - 1);
      var s1 := s.(pcs := s.pcs[t := RotSnap(p.tries, p.tx, k - 1, OddOnes(s.counters, k - 1))]);
      SnapStep(c, s1, t);
      assert OddOnes(s.counters, k - 1)[k - 1 := OddOnes(s.counters, k)[k - 1]] == OddOnes(s.counters, k);
      hide Enabled, Next;
    }
  }

  lemma {:induction false} SnapStep(c: Config, s: State, t: nat)
    requires t < |s.pcs| == |s.counters| && s.pcs[t].RotSnap? && !s.pcs[t].tx.doomed
    requires s.pcs[t].k < |s.counters| == |s.pcs[t].snap|
    ensures var p, x := s.pcs[t], s.counters[s.pcs[t].k];
      Enabled(c, s, Go(t)) && Next(c, s, Go(t)) ==
        s.(pcs := s.pcs[t := RotSnap(p.tries, p.tx, p.k + 1, p.snap[p.k := if Odd(x) then x else 0])])
  {
    hide Doom, Hit, Commit;
  }

  lemma {:induction false} SnapEnds(c: Config, s: State, t: nat)
    requires t < |s.pcs| == |s.counters| && s.pcs[t].RotSnap? && !s.pcs[t].tx.doomed
    requires s.pcs[t].k == 0 && s.pcs[t].snap == OddOnes(s.counters, 0)
    ensures var n, p := |s.counters|, s.pcs[t];
      Leads(c, s, Gos(t, n + 1), s.(pcs := s.pcs[t := RotWait(p.tries, p.tx, 0, OddOnes(s.counters, n))]))
  {
    hide Leads;
    var n, p := |s.counters|, s.pcs[t];
    SnapAlone(c, s, t, n);
    var s1 := s.(pcs := s.pcs[t := RotSnap(p.tries, p.tx, n, OddOnes(s.counters, n))]);
    var s2 := s.(pcs := s.pcs[t := RotWait(p.tries, p.tx, 0, OddOnes(s.counters, n))]);
    assert Next(c, s1, Go(t)) == s1.(pcs := s1.pcs[t := RotWait(p.tries, p.tx, 0, OddOnes(s.counters, n))]);
    assert s1.pcs[t := RotWait(p.tries, p.tx, 0, OddOnes(s.counters, n))] == s2.pcs;
    OneStep(c, s1, Go(t));
    Chain(c, s, Gos(t, n), s1, [Go(t)], s2);
    assert Gos(t, n) + [Go(t)] == Gos(t, n + 1);
  }

  // Every reader of the snapshot has moved on since, be it into another section.
  predicate MovedOn(s: State, t: nat) {
    && t < |s.pcs| == |s.counters| && s.pcs[t].RotWait? && !s.pcs[t].tx.doomed && s.pcs[t].k == 0
    && |s.pcs[t].snap| == |s.counters|
    && forall j :: 0 <= j < |s.counters| ==> s.pcs[t].snap[j] == 0 || s.counters[j] != s.pcs[t].snap[j]
  }

  function Waiting(p: Pc, k: nat): Pc
    requires p.RotWait?
  {
    RotWait(p.tries, p.tx, k, p.snap)
  }

  lemma {:induction false} MovedStep(c: Config, s: State, t: nat, k: nat)
    requires MovedOn(s, t) && k < |s.counters|
    ensures var s1 := s.(pcs := s.pcs[t := Waiting(s.pcs[t], k)]);
      Enabled(c, s1, Go(t)) && Next(c, s1, Go(t)) == s.(pcs := s.pcs[t := Waiting(s.pcs[t], k + 1)])
  {
    hide Doom, Hit, Commit;
  }

  lemma {:induction false} MovedAlone(c: Config, s: State, t: nat, k: nat)
    requires MovedOn(s, t) && k <= |s.counters|
    ensures Leads(c, s, Gos(t, k), s.(pcs := s.pcs[t := Waiting(s.pcs[t], k)]))
  {
    if k == 0 {
      assert s.pcs[t := Waiting(s.pcs[t], 0)] == s.pcs;
    } else {
      MovedAlone(c, s, t, k - 1);
      assert Front(Gos(t, k)) == Gos(t, k - 1);
      MovedStep(c, s, t, k - 1);
      hide Enabled, Next, MovedOn, Waiting;
    }
  }

  // Then the wait is over after a step for each counter, and the writer commits.
  lemma {:induction false} WaitEnds(c: Config, s: State, t: nat)
    requires MovedOn(s, t)
    ensures Leads(c, s, Gos(t, |s.counters| + 1), Commit(s, t, s.pcs[t].tx, RotUnlock))
  {
    hide Leads;
    var n := |s.counters|;
    MovedAlone(c, s, t, n);
    var s1 := s.(pcs := s.pcs[t := Waiting(s.pcs[t], n)]);
    assert s1.pcs[t := RotUnlock] == s.pcs[t := RotUnlock];
    assert Next(c, s1, Go(t)) == Commit(s, t, s.pcs[t].tx, RotUnlock);
    OneStep(c, s1, Go(t));
    Chain(c, s, Gos(t, n), s1, [Go(t)], Commit(s, t, s.pcs[t].tx, RotUnlock));
    assert Gos(t, n) + [Go(t)] == Gos(t, n + 1);
  }

  // ---------- whole sections ----------

  // The section of t is over: memory and history are what plain code makes of them.
  ghost predicate RanPlainly(s: State, s': State, t: nat, rs: seq<Request>) {
    && t < |s.pcs| && SameElse(s, s', t) && s'.pcs[t].Idle?
    && s'.mem == Stored(s.mem, rs) && s'.hist == s.hist + [Section(t, Logged(s.mem, rs))]
  }

  // A hardware transaction: begin, two steps to the first access, and at the end one step for each
  // counter and one for the commit.
  function HtmSection(t: nat, rs: seq<Request>, n: nat): seq<Event> {
    [Enter(t, false)] + Gos(t, 2) + Making(t, rs) + [Finish(t)] + Gos(t, n + 1)
  }

  lemma {:induction false} TwoSteps(c: Config, s: State, t: nat)
    requires Enabled(c, s, Go(t)) && Enabled(c, Next(c, s, Go(t)), Go(t))
    ensures Leads(c, s, Gos(t, 2), Next(c, Next(c, s, Go(t)), Go(t)))
  {
    hide Enabled, Next;
    var s1 := Next(c, s, Go(t));
    OneStep(c, s, Go(t));
    OneStep(c, s1, Go(t));
    Chain(c, s, [Go(t)], s1, [Go(t)], Next(c, s1, Go(t)));
    assert [Go(t)] + [Go(t)] == Gos(t, 2);
  }

  lemma {:induction false} HtmBegins(c: Config, s: State, t: nat)
    requires t < |s.pcs| == |s.counters| && s.pcs[t].Idle? && s.lock == 0 && c.htmRetries > 0
    ensures Leads(c, s, [Enter(t, false)] + Gos(t, 2), s.(pcs := s.pcs[t := TxBody(c.htmRetries, Fresh())]))
  {
    var s1 := Next(c, s, Enter(t, false));
    assert s1 == s.(pcs := s.pcs[t := WrSpin(c.htmRetries)]);
    assert Next(c, s1, Go(t)) == s1.(pcs := s.pcs[t := TxSubscribe(c.htmRetries)]);
    assert Next(c, Next(c, s1, Go(t)), Go(t)) == s.(pcs := s.pcs[t := TxBody(c.htmRetries, Fresh())]);
    OneStep(c, s, Enter(t, false));
    TwoSteps(c, s1, t);
    hide Enabled, Next;
    Chain(c, s, [Enter(t, false)], s1, Gos(t, 2), s.(pcs := s.pcs[t := TxBody(c.htmRetries, Fresh())]));
  }

  lemma {:induction false} HtmEnds(c: Config, s: State, t: nat)
    requires t < |s.pcs| == |s.counters| && s.pcs[t].TxBody? && !s.pcs[t].tx.doomed && AllEven(s)
    ensures Leads(c, s, [Finish(t)] + Gos(t, |s.counters| + 1), Commit(s, t, s.pcs[t].tx, Idle))
  {
    var s1 := Next(c, s, Finish(t));
    assert s1 == s.(pcs := s.pcs[t := TxQuiesce(s.pcs[t].tries, s.pcs[t].tx, 0)]);
    OneStep(c, s, Finish(t));
    ScanEnds(c, s1, t);
    assert s1.pcs[t := Idle] == s.pcs[t := Idle];
    hide Enabled, Next;
    Chain(c, s, [Finish(t)], s1, Gos(t, |s.counters| + 1), Commit(s, t, s.pcs[t].tx, Idle));
  }

  lemma {:induction false} AloneInHtm(c: Config, s: State, t: nat, rs: seq<Request>)
    requires t < |s.pcs| == |s.counters| && s.pcs[t].Idle? && s.lock == 0 && c.htmRetries > 0 && AllEven(s)
    ensures Runs(c, s, HtmSection(t, rs, |s.counters|))
    ensures var s' := Run(c, s, HtmSection(t, rs, |s.counters|));
      RanPlainly(s, s', t, rs) && s'.lock == 0 && s'.counters == s.counters
  {
    hide Stored, Logged, Next, Enabled;
    HtmBegins(c, s, t);
    var s1 := s.(pcs := s.pcs[t := TxBody(c.htmRetries, Fresh())]);
    TxAccesses(c, s1, t, rs);
    LoggedStores(s.mem, rs);
    var s2 := Run(c, s1, Making(t, rs));
    assert Leads(c, s1, Making(t, rs), s2);
    HtmEnds(c, s2, t);
    var s3 := Commit(s2, t, s2.pcs[t].tx, Idle);
    var begin, end := [Enter(t, false)] + Gos(t, 2), [Finish(t)] + Gos(t, |s.counters| + 1);
    ChainThree(c, s, t, begin, s1, rs, s2, end, s3);
    assert HtmSection(t, rs, |s.counters|) == begin + Making(t, rs) + end;
  }

  // A rollback-only transaction: take the lock word, begin, and at the end two scans of the counters
  // with a step after each and one more to free the lock word.
  function RotSection(t: nat, rs: seq<Request>, n: nat): seq<Event> {
    Gos(t, 2) + Making(t, rs) + [Finish(t)] + Gos(t, n + 1) + Gos(t, n + 1) + [Go(t)]
  }

  lemma {:induction false} RotBegins(c: Config, s: State, t: nat)
    requires t < |s.pcs| == |s.counters| && s.pcs[t].RotLock? && s.lock == 0 && c.rotRetries > 0
    ensures Leads(c, s, Gos(t, 2),
      s.(lock := 1, pcs := Doom(s.pcs, t, LockWord, true)[t := RotBody(c.rotRetries, Fresh())]))
  {
    hide Hit;
    var pcs := Doom(s.pcs, t, LockWord, true);
    assert Next(c, s, Go(t)) == s.(lock := 1, pcs := pcs[t := RotBegin(c.rotRetries)]);
    var q := RotBody(c.rotRetries, Fresh());
    assert pcs[t := RotBegin(c.rotRetries)][t := q] == pcs[t := q];
    TwoSteps(c, s, t);
  }

  lemma {:induction false} RotQuiesces(c: Config, s: State, t: nat)
    requires t < |s.pcs| == |s.counters| && s.pcs[t].RotSnap? && !s.pcs[t].tx.doomed && AllEven(s)
    requires s.pcs[t].k == 0 && s.pcs[t].snap == OddOnes(s.counters, 0)
    ensures var n := |s.counters|;
      Leads(c, s, Gos(t, n + 1) + Gos(t, n + 1), Commit(s, t, s.pcs[t].tx, RotUnlock))
  {
    hide Leads, Enabled, Next;
    var n, p := |s.counters|, s.pcs[t];
    SnapEnds(c, s, t);
    var s1 := s.(pcs := s.pcs[t := RotWait(p.tries, p.tx, 0, OddOnes(s.counters, n))]);
    WaitEnds(c, s1, t);
    assert s1.pcs[t := RotUnlock] == s.pcs[t := RotUnlock];
    Chain(c, s, Gos(t, n + 1), s1, Gos(t, n + 1), Commit(s1, t, p.tx, RotUnlock));
  }

  lemma {:induction false} RotEnds(c: Config, s: State, t: nat) returns (s': State)
    requires t < |s.pcs| == |s.counters| && s.pcs[t].RotBody? && !s.pcs[t].tx.doomed && AllEven(s)
    ensures var n, tx := |s.counters|, s.pcs[t].tx;
      && Leads(c, s, [Finish(t)] + Gos(t, n + 1) + Gos(t, n + 1) + [Go(t)], s')
      && |s'.pcs| == |s.pcs| && s'.pcs[t].Idle?
      && s' == s.(lock := 0, mem := s.mem + tx.buf, pcs := s'.pcs, hist := s.hist + [Section(t, tx.log)])
  {
    hide Hit, Leads;
    var n, p := |s.counters|, s.pcs[t];
    var s1 := s.(pcs := s.pcs[t := RotSnap(p.tries, p.tx, 0, OddOnes(s.counters, 0))]);
    assert seq(n, _ => 0) == OddOnes(s.counters, 0);
    assert Next(c, s, Finish(t)) == s1;
    OneStep(c, s, Finish(t));
    RotQuiesces(c, s1, t);
    var s2 := Commit(s1, t, p.tx, RotUnlock);
    OneStep(c, s2, Go(t));
    s' := Next(c, s2, Go(t));
    hide Enabled, Next;
    Chain(c, s, [Finish(t)], s1, Gos(t, n + 1) + Gos(t, n + 1), s2);
    assert [Finish(t)] + (Gos(t, n + 1) + Gos(t, n + 1)) == [Finish(t)] + Gos(t, n + 1) + Gos(t, n + 1);
    Chain(c, s, [Finish(t)] + Gos(t, n + 1) + Gos(t, n + 1), s2, [Go(t)], s');
  }

  lemma {:induction false} AloneInRot(c: Config, s: State, t: nat, rs: seq<Request>)
    requires t < |s.pcs| == |s.counters| && s.pcs[t].RotLock? && s.lock == 0 && c.rotRetries > 0 && AllEven(s)
    ensures Runs(c, s, RotSection(t, rs, |s.counters|))
    ensures var s' := Run(c, s, RotSection(t, rs, |s.counters|));
      RanPlainly(s, s', t, rs) && s'.lock == 0 && s'.counters == s.counters
  {
    hide Stored, Logged, Next, Enabled, Doom, Hit;
    RotBegins(c, s, t);
    var s1 := s.(lock := 1, pcs := Doom(s.pcs, t, LockWord, true)[t := RotBody(c.rotRetries, Fresh())]);
    TxAccesses(c, s1, t, rs);
    LoggedStores(s.mem, rs);
    var s2 := Run(c, s1, Making(t, rs));
    assert Leads(c, s1, Making(t, rs), s2);
    var s3 := RotEnds(c, s2, t);
    var n := |s.counters|;
    var end := [Finish(t)] + Gos(t, n + 1) + Gos(t, n + 1) + [Go(t)];
    ChainThree(c, s, t, Gos(t, 2), s1, rs, s2, end, s3);
    assert RotSection(t, rs, n) == Gos(t, 2) + Making(t, rs) + end;
  }

  // Under the global lock: raise the lock word to 2 and scan the counters.
  function GlobalSection(t: nat, rs: seq<Request>, n: nat): seq<Event> {
    [Go(t)] + Gos(t, n + 1) + Making(t, rs) + [Finish(t)]
  }

  lemma {:induction false} GlobalBegins(c: Config, s: State, t: nat) returns (s': State)
    requires t < |s.pcs| == |s.counters| && s.pcs[t].GlSet? && AllEven(s)
    ensures Leads(c, s, [Go(t)] + Gos(t, |s.counters| + 1), s')
    ensures |s'.pcs| == |s.pcs| && s'.pcs[t] == GlBody([]) && s' == s.(lock := 2, pcs := s'.pcs)
  {
    hide Hit;
    var s1 := Next(c, s, Go(t));
    assert s1 == s.(lock := 2, pcs := s1.pcs) && |s1.pcs| == |s.pcs| && s1.pcs[t] == GlWait(0);
    OneStep(c, s, Go(t));
    ScanEnds(c, s1, t);
    s' := AfterScan(s1, t);
    hide Enabled, Next, Leads;
    Chain(c, s, [Go(t)], s1, Gos(t, |s.counters| + 1), s');
  }

  lemma {:induction false} UnlocksAlone(c: Config, s: State, t: nat)
    requires t < |s.pcs| == |s.counters| && s.pcs[t].GlBody?
    ensures Leads(c, s, [Finish(t)],
      s.(lock := 0, pcs := Doom(s.pcs, t, LockWord, true)[t := Idle], hist := s.hist + [Section(t, s.pcs[t].log)]))
  {
    hide Doom;
    OneStep(c, s, Finish(t));
  }

  lemma {:induction false} AloneUnderGlobal(c: Config, s: State, t: nat, rs: seq<Request>)
    requires t < |s.pcs| == |s.counters| && s.pcs[t].GlSet? && AllEven(s)
    ensures Runs(c, s, GlobalSection(t, rs, |s.counters|))
    ensures var s' := Run(c, s, GlobalSection(t, rs, |s.counters|));
      RanPlainly(s, s', t, rs) && s'.lock == 0 && s'.counters == s.counters
  {
    hide Stored, Logged, Doom, Hit, Enabled, Next;
    var s1 := GlobalBegins(c, s, t);
    DirectAccesses(c, s1, t, rs);
    var s2 := Run(c, s1, Making(t, rs));
    assert Leads(c, s1, Making(t, rs), s2);
    UnlocksAlone(c, s2, t);
    var s3 := s2.(lock := 0, pcs := Doom(s2.pcs, t, LockWord, true)[t := Idle],
      hist := s2.hist + [Section(t, s2.pcs[t].log)]);
    ChainThree(c, s, t, [Go(t)] + Gos(t, |s.counters| + 1), s1, rs, s2, [Finish(t)], s3);
  }

  // A reader: begin, three steps to the first load, one to leave; its counter moves on by two.
  function ReadSection(t: nat, rs: seq<Request>): seq<Event> {
    [Enter(t, true), Go(t)] + Gos(t, 2) + Making(t, rs) + [Finish(t)]
  }

  lemma {:induction false} ReaderBegins(c: Config, s: State, t: nat)
    requires t < |s.pcs| == |s.counters| && s.pcs[t].Idle? && s.lock != 2
    ensures Leads(c, s, [Enter(t, true), Go(t)] + Gos(t, 2),
      s.(counters := s.counters[t := s.counters[t] + 1], pcs := s.pcs[t := RdBody([])]))
  {
    var s1 := Next(c, s, Enter(t, true));
    var s2 := Next(c, s1, Go(t));
    assert s1 == s.(pcs := s.pcs[t := RdSpin]) && s2 == s.(pcs := s.pcs[t := RdCount]);
    var s3 := Next(c, s2, Go(t));
    assert s3 == s.(counters := s.counters[t := s.counters[t] + 1], pcs := s.pcs[t := RdCheck]);
    assert Next(c, s3, Go(t)) == s3.(pcs := s.pcs[t := RdBody([])]);
    OneStep(c, s, Enter(t, true));
    OneStep(c, s1, Go(t));
    TwoSteps(c, s2, t);
    hide Enabled, Next, Leads;
    Chain(c, s, [Enter(t, true)], s1, [Go(t)], s2);
    assert [Enter(t, true)] + [Go(t)] == [Enter(t, true), Go(t)];
    Chain(c, s, [Enter(t, true), Go(t)], s2, Gos(t, 2), s3.(pcs := s.pcs[t := RdBody([])]));
  }

  lemma {:induction false} ReaderEnds(c: Config, s: State, t: nat)
    requires t < |s.pcs| == |s.counters| && s.pcs[t].RdBody?
    ensures Leads(c, s, [Finish(t)], s.(counters := s.counters[t := s.counters[t] + 1], pcs := s.pcs[t := Idle],
      hist := s.hist + [Section(t, s.pcs[t].log)]))
  {
    OneStep(c, s, Finish(t));
  }

  lemma {:induction false} AloneAsReader(c: Config, s: State, t: nat, rs: seq<Request>)
    requires t < |s.pcs| == |s.counters| && s.pcs[t].Idle? && s.lock != 2 && OnlyLoads(rs)
    ensures Runs(c, s, ReadSection(t, rs))
    ensures var s' := Run(c, s, ReadSection(t, rs));
      && RanPlainly(s, s', t, rs) && s'.lock == s.lock && s'.counters == s.counters[t := s.counters[t] + 2]
  {
    hide Stored, Logged, Next, Enabled;
    ReaderBegins(c, s, t);
    var s1 := s.(counters := s.counters[t := s.counters[t] + 1], pcs := s.pcs[t := RdBody([])]);
    DirectAccesses(c, s1, t, rs);
    var s2 := Run(c, s1, Making(t, rs));
    assert Leads(c, s1, Making(t, rs), s2);
    ReaderEnds(c, s2, t);
    var s3 := s2.(counters := s2.counters[t := s2.counters[t] + 1], pcs := s2.pcs[t := Idle],
      hist := s2.hist + [Section(t, s2.pcs[t].log)]);
    assert s3.counters == s.counters[t := s.counters[t] + 2];
    ChainThree(c, s, t, [Enter(t, true), Go(t)] + Gos(t, 2), s1, rs, s2, [Finish(t)], s3);
  }

  // What t is waiting for has not happened.
  predicate Waits(s: State, t: nat)
    requires t < |s.pcs| == |s.counters|
  {
    match s.pcs[t]
    case RdSpin => s.lock == 2
    case WrSpin(_) => s.lock != 0
    case RotLock => s.lock != 0
    case TxQuiesce(_, tx, k) => k < |s.counters| && Odd(s.counters[k])
    case GlWait(k) => k < |s.counters| && Odd(s.counters[k])
    case RotWait(_, tx, k, snap) =>
      !tx.doomed && k < |s.counters| == |snap| && Odd(s.counters[k]) && s.counters[k] == snap[k]
    case _ => false
  }

  lemma {:induction false} Stays(c: Config, s: State, t: nat)
    requires t < |s.pcs| == |s.counters| && Waits(s, t)
    ensures Enabled(c, s, Go(t)) && Next(c, s, Go(t)) == s
  {
  }

  // Until it does, t takes no other step, however often it looks.
  lemma {:induction false} StaysWhileSet(c: Config, s: State, t: nat, k: nat)
    requires t < |s.pcs| == |s.counters| && Waits(s, t)
    ensures Leads(c, s, Gos(t, k), s)
  {
    if k > 0 {
      StaysWhileSet(c, s, t, k - 1);
      assert Front(Gos(t, k)) == Gos(t, k - 1);
      Stays(c, s, t);
      hide Enabled, Next, Waits;
    }
  }

  // A reader that has announced itself and meets a global-lock writer takes that back and spins until
  // the lock word is no longer 2.
  lemma {:induction false} BacksOff(c: Config, s: State, t: nat)
    requires t < |s.pcs| == |s.counters| && s.pcs[t].RdCheck? && s.lock == 2
    ensures Leads(c, s, Gos(t, 2), s.(counters := s.counters[t := s.counters[t] + 1], pcs := s.pcs[t := RdSpin]))
    ensures var s' := s.(counters := s.counters[t := s.counters[t] + 1], pcs := s.pcs[t := RdSpin]);
      && Next(c, s', Go(t)) == s'
      && forall lock: nat :: lock != 2 ==> Next(c, s'.(lock := lock), Go(t)).pcs[t] == RdCount
  {
    assert Next(c, s, Go(t)) == s.(pcs := s.pcs[t := RdBack]);
    TwoSteps(c, s, t);
  }

  // ---------- a lock word below 2 ----------

  function OwnSteps(es: seq<Event>, t: nat): nat {
    if es == [] then 0 else OwnSteps(Front(es), t) + if Last(es).t == t then 1 else 0
  }

  // Whatever others do, no writer holds the global lock when t takes a step.
  ghost predicate ClearFor(c: Config, s: State, es: seq<Event>, t: nat) {
    es == [] || (ClearFor(c, s, Front(es), t) && (Last(es).t == t ==> Run(c, s, Front(es)).lock != 2))
  }

  // Among any steps of other threads a reader takes three of its own into its section.
  lemma {:induction false} ReaderEnters(c: Config, s: State, es: seq<Event>, t: nat)
    requires Runs(c, s, es) && t < |s.pcs| && s.pcs[t].RdSpin? && ClearFor(c, s, es, t) && OwnSteps(es, t) <= 3
    ensures |Run(c, s, es).pcs| == |s.pcs|
    ensures Run(c, s, es).pcs[t] == [RdSpin, RdCount, RdCheck, RdBody([])][OwnSteps(es, t)]
  {
    if es != [] {
      ReaderEnters(c, s, Front(es), t);
      var s1, e := Run(c, s, Front(es)), Last(es);
      hide Enabled, Next;
      if e.t != t {
        OthersStay(c, s1, e, t);
        SameCount(c, s1, e);
      } else {
        StepsIn(c, s1, e);
      }
    }
  }

  lemma {:induction false} StepsIn(c: Config, s: State, e: Event)
    requires Enabled(c, s, e) && s.lock != 2 && (s.pcs[e.t].RdSpin? || s.pcs[e.t].RdCount? || s.pcs[e.t].RdCheck?)
    ensures |Next(c, s, e).pcs| == |s.pcs|
    ensures Next(c, s, e).pcs[e.t] ==
      if s.pcs[e.t].RdSpin? then RdCount else if s.pcs[e.t].RdCount? then RdCheck else RdBody([])
  {
  }
}
