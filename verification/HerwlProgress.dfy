/**
 Deadlock freedom of HERWL.  An announced reader waits for nothing; a quiescing writer and the owner of
 the lock word wait for announced readers; everyone else waits for the owner of the lock word.
 */
module HerwlProgress {
  import opened Replay
  import opened Htm
  import opened Herwl
  import opened HerwlSafety

  // The lock word is never set without an owner.
  ghost predicate Owned(s: State) {
    && s.lock <= 2
    && (s.lock == 1 ==> exists t :: 0 <= t < |s.pcs| && OwnsOne(s.pcs[t]))
    && (s.lock == 2 ==> exists t :: 0 <= t < |s.pcs| && OwnsTwo(s.pcs[t]))
  }

  // A snapshot holds only odd counters.
  predicate SnapOk(p: Pc) {
    p.RotSnap? || p.RotWait? ==> forall k :: 0 <= k < |p.snap| ==> p.snap[k] == 0 || Odd(p.snap[k])
  }

  ghost predicate Sound(m0: Memory, s: State) {
    Inv(m0, s) && Owned(s) && forall t :: 0 <= t < |s.pcs| ==> SnapOk(s.pcs[t])
  }

  lemma {:induction false} OthersStay(c: Config, s: State, e: Event, u: nat)
    requires Enabled(c, s, e) && u < |s.pcs| && u != e.t
    ensures |Next(c, s, e).pcs| == |s.pcs|
    ensures Next(c, s, e).pcs[u] == s.pcs[u] || Next(c, s, e).pcs[u] == Condemn(s.pcs[u])
  {
  }

  // How a step from p to q may change the lock word.
  predicate LockFlow(p: Pc, q: Pc, was: nat, now: nat) {
    && now <= 2
    && (OwnsOne(p) ==> now == 0 || OwnsOne(q) || (now == 2 && OwnsTwo(q)))
    && (OwnsTwo(p) ==> now == 0 || OwnsTwo(q))
    && (now != was && now == 1 ==> OwnsOne(q))
    && (now != was && now == 2 ==> OwnsTwo(q))
  }

  lemma {:induction false} OwnStep(c: Config, s: State, e: Event)
    requires Enabled(c, s, e) && s.lock <= 2
    requires OwnsOne(s.pcs[e.t]) ==> s.lock == 1
    requires OwnsTwo(s.pcs[e.t]) ==> s.lock == 2
    ensures |Next(c, s, e).pcs| == |s.pcs|
    ensures LockFlow(s.pcs[e.t], Next(c, s, e).pcs[e.t], s.lock, Next(c, s, e).lock)
  {
    hide Doom;
  }

  predicate HasSnap(p: Pc) {
    p.RotSnap? || p.RotWait?
  }

  lemma {:induction false} NoSnap(c: Config, s: State, e: Event)
    requires Enabled(c, s, e) && !e.Finish? && !HasSnap(s.pcs[e.t])
    ensures |Next(c, s, e).pcs| == |s.pcs| && !HasSnap(Next(c, s, e).pcs[e.t])
  {
    hide Doom;
  }

  lemma {:induction false} SnapFinish(c: Config, s: State, e: Event)
    requires Enabled(c, s, e) && e.Finish?
    ensures |Next(c, s, e).pcs| == |s.pcs| && SnapOk(Next(c, s, e).pcs[e.t])
  {
    hide Doom;
  }

  lemma {:induction false} SnapScan(c: Config, s: State, e: Event)
    requires Enabled(c, s, e) && HasSnap(s.pcs[e.t]) && SnapOk(s.pcs[e.t])
    ensures |Next(c, s, e).pcs| == |s.pcs| && SnapOk(Next(c, s, e).pcs[e.t])
  {
    hide Doom;
  }

  lemma {:induction false} SnapStep(c: Config, s: State, e: Event)
    requires Enabled(c, s, e) && SnapOk(s.pcs[e.t])
    ensures |Next(c, s, e).pcs| == |s.pcs| && SnapOk(Next(c, s, e).pcs[e.t])
  {
    if e.Finish? {
      SnapFinish(c, s, e);
    } else if HasSnap(s.pcs[e.t]) {
      SnapScan(c, s, e);
    } else {
      NoSnap(c, s, e);
    }
    hide Enabled, Next;
  }

  lemma {:induction false} OwnedNext(c: Config, m0: Memory, s: State, e: Event)
    requires Sound(m0, s) && Enabled(c, s, e)
    ensures Owned(Next(c, s, e))
  {
    var s' := Next(c, s, e);
    assert Good(m0, s, e.t);
    OwnStep(c, s, e);
    hide Inv, Good, Enabled, Next, SnapOk;
    if s'.lock == s.lock == 1 {
      var t :| 0 <= t < |s.pcs| && OwnsOne(s.pcs[t]);
      OwnerStays(c, s, e, t);
      assert OwnsOne(s'.pcs[t]);
    } else if s'.lock == s.lock == 2 {
      var t :| 0 <= t < |s.pcs| && OwnsTwo(s.pcs[t]);
      OwnerStays(c, s, e, t);
      assert OwnsTwo(s'.pcs[t]);
    }
  }

  lemma {:induction false} OwnerStays(c: Config, s: State, e: Event, t: nat)
    requires Enabled(c, s, e) && t < |s.pcs|
    ensures |Next(c, s, e).pcs| == |s.pcs|
    ensures t != e.t ==> OwnsOne(Next(c, s, e).pcs[t]) == OwnsOne(s.pcs[t])
    ensures t != e.t ==> OwnsTwo(Next(c, s, e).pcs[t]) == OwnsTwo(s.pcs[t])
    ensures t != e.t ==> SnapOk(s.pcs[t]) ==> SnapOk(Next(c, s, e).pcs[t])
  {
    if t != e.t {
      OthersStay(c, s, e, t);
    }
  }

  lemma {:induction false} SoundNext(c: Config, m0: Memory, s: State, e: Event)
    requires Sound(m0, s) && Enabled(c, s, e)
    ensures Sound(m0, Next(c, s, e))
  {
    InvNext(c, m0, s, e);
    OwnedNext(c, m0, s, e);
    SnapStep(c, s, e);
    hide Inv, Enabled, Next, SnapOk, Owned;
    forall u | 0 <= u < |Next(c, s, e).pcs|
      ensures SnapOk(Next(c, s, e).pcs[u])
    {
      OwnerStays(c, s, e, u);
    }
  }

  lemma {:induction false} SoundAlways(c: Config, m0: Memory, es: seq<Event>)
    requires Legal(c, m0, es)
    ensures Sound(m0, After(c, m0, es))
  {
    hide Sound, Enabled, Next;
    if es == [] {
      SoundInit(c, m0);
    } else {
      SoundAlways(c, m0, Front(es));
      SoundNext(c, m0, After(c, m0, Front(es)), Last(es));
    }
  }

  lemma {:induction false} SoundInit(c: Config, m0: Memory)
    ensures Sound(m0, Init(c, m0))
  {
  }

  // Memory is the serial memory in every state but those where a thread writes it directly.
  lemma {:induction false} SerialButForGlobal(c: Config, m0: Memory, es: seq<Event>)
    requires Legal(c, m0, es)
    requires forall t :: 0 <= t < |After(c, m0, es).pcs| ==> !After(c, m0, es).pcs[t].GlBody?
    ensures ReplayMemory(m0, After(c, m0, es).hist) == After(c, m0, es).mem
  {
    hide Inv;
    HerwlSerialisable(c, m0, es);
    SoundAlways(c, m0, es);
    var s := After(c, m0, es);
    if s.lock == 2 {
      var t :| 0 <= t < |s.pcs| && OwnsTwo(s.pcs[t]);
    }
  }

  // A step of t that is no data access and does something; an abort only where nothing else is left.
  ghost predicate Progress(c: Config, s: State, e: Event) {
    && Enabled(c, s, e) && !e.Enter? && !e.Read? && !e.Write?
    && (e.Abort? ==> (IsHtm(s.pcs[e.t]) || IsRot(s.pcs[e.t])) && s.pcs[e.t].tx.doomed)
    && Next(c, s, e) != s
  }

  lemma {:induction false} Moves(c: Config, s: State, e: Event)
    requires Enabled(c, s, e) && !e.Enter? && !e.Read? && !e.Write?
    requires e.Abort? ==> (IsHtm(s.pcs[e.t]) || IsRot(s.pcs[e.t])) && s.pcs[e.t].tx.doomed
    requires |Next(c, s, e).pcs| == |s.pcs| ==> Next(c, s, e).pcs[e.t] != s.pcs[e.t]
    ensures Progress(c, s, e)
  {
  }

  // Rank 0: an announced reader.
  lemma {:induction false} AnnouncedMoves(c: Config, m0: Memory, s: State, k: nat)
    requires Sound(m0, s) && k < |s.counters| && Odd(s.counters[k])
    ensures exists e :: Progress(c, s, e)
  {
    assert Good(m0, s, k);
    var p := s.pcs[k];
    Moves(c, s, if p.RdBody? then Herwl.Finish(k) else Go(k));
  }

  // Rank 1: a thread that scans the counters waits only for an announced reader.  A condemned
  // transaction that is suspended aborts only when its scan is over and it has resumed.
  lemma {:induction false} ScanMoves(c: Config, m0: Memory, s: State, t: nat)
    requires Sound(m0, s) && t < |s.pcs| && ScanStep(s.pcs[t])
    ensures exists e :: Progress(c, s, e)
  {
    var p := s.pcs[t];
    assert Good(m0, s, t) && SnapOk(p);
    if !p.RotSnap? && p.k < |s.counters| && Odd(s.counters[p.k]) {
      AnnouncedMoves(c, m0, s, p.k);
    } else if (p.TxQuiesce? && p.tx.doomed && p.k >= |s.counters|) || (IsRot(p) && p.tx.doomed) {
      Moves(c, s, Abort(t, Other));
    } else {
      Moves(c, s, Go(t));
    }
  }

  lemma {:induction false} OwnerMoves(c: Config, m0: Memory, s: State, t: nat)
    requires Sound(m0, s) && t < |s.pcs| && (OwnsOne(s.pcs[t]) || OwnsTwo(s.pcs[t]))
    ensures exists e :: Progress(c, s, e)
  {
    var p := s.pcs[t];
    if ScanStep(p) {
      ScanMoves(c, m0, s, t);
    } else if p.RotBody? && p.tx.doomed {
      Moves(c, s, Abort(t, Other));
    } else if p.RotBody? || p.GlBody? {
      Moves(c, s, Herwl.Finish(t));
    } else {
      Moves(c, s, Go(t));
    }
  }

  // Deadlock freedom: in every reachable state with an unfinished operation some thread can take a
  // step that is not a turn of a spin loop.
  lemma {:induction false} NoDeadlock(c: Config, m0: Memory, es: seq<Event>, t: nat)
    requires Legal(c, m0, es) && t < |After(c, m0, es).pcs| && !After(c, m0, es).pcs[t].Idle?
    ensures exists e :: Progress(c, After(c, m0, es), e)
  {
    SoundAlways(c, m0, es);
    SomeoneMoves(c, m0, After(c, m0, es), t);
  }

  lemma {:induction false} SomeoneMoves(c: Config, m0: Memory, s: State, t: nat)
    requires Sound(m0, s) && t < |s.pcs| && !s.pcs[t].Idle?
    ensures exists e :: Progress(c, s, e)
  {
    var p := s.pcs[t];
    if OwnsOne(p) || OwnsTwo(p) {
      OwnerMoves(c, m0, s, t);
    } else if ScanStep(p) {
      ScanMoves(c, m0, s, t);
    } else if s.lock != 0 && (p.WrSpin? || p.RotLock? || p.RdSpin?) {
      var u :| 0 <= u < |s.pcs| && (OwnsOne(s.pcs[u]) || OwnsTwo(s.pcs[u]));
      OwnerMoves(c, m0, s, u);
    } else if p.TxBody? && p.tx.doomed {
      Moves(c, s, Abort(t, Other));
    } else if p.TxBody? || p.RdBody? {
      Moves(c, s, Herwl.Finish(t));
    } else {
      Moves(c, s, Go(t));
    }
  }

  // ---------- the retry budgets ----------

  // The event aborts a transaction of its thread: a hardware one, or a rollback-only one.
  predicate AbortsHtm(s: State, e: Event) {
    e.t < |s.pcs| && ((e.Abort? && !IsRot(s.pcs[e.t])) || (e.Go? && s.pcs[e.t].TxSubscribe? && s.lock != 0))
  }

  predicate AbortsRot(s: State, e: Event) {
    e.t < |s.pcs| && e.Abort? && IsRot(s.pcs[e.t])
  }

  // The aborts of t of either kind since it last began a section.
  datatype Aborts = Aborts(htm: nat, rot: nat)

  function Count(n: Aborts, s: State, e: Event): Aborts {
    if e.Enter? then Aborts(0, 0)
    else Aborts(n.htm + if AbortsHtm(s, e) then 1 else 0, n.rot + if AbortsRot(s, e) then 1 else 0)
  }

  function AbortsOf(c: Config, m: Memory, es: seq<Event>, t: nat): Aborts {
    if es == [] then Aborts(0, 0)
    else
      var n := AbortsOf(c, m, Front(es), t);
      if Last(es).t == t then Count(n, After(c, m, Front(es)), Last(es)) else n
  }

  function Positive(x: int): nat {
    if x > 0 then x else 0
  }

  // Every abort has cost at least one try of the loop it happened in.
  predicate Budget(p: Pc, c: Config, n: Aborts) {
    var h, r := Positive(c.htmRetries), Positive(c.rotRetries);
    match p
    case WrSpin(tries) => 0 < tries <= h - n.htm && n.rot == 0
    case TxSubscribe(tries) => 0 < tries <= h - n.htm && n.rot == 0
    case TxBody(tries, _) => 0 < tries <= h - n.htm && n.rot == 0
    case TxQuiesce(tries, _, _) => 0 < tries <= h - n.htm && n.rot == 0
    case RotLock => n.htm <= h && n.rot == 0
    case RotBegin(tries) => n.htm <= h && n.rot <= r && (tries > 0 ==> tries <= r - n.rot)
    case RotBody(tries, _) => n.htm <= h && 0 < tries <= r - n.rot
    case RotSnap(tries, _, _, _) => n.htm <= h && 0 < tries <= r - n.rot
    case RotWait(tries, _, _, _) => n.htm <= h && 0 < tries <= r - n.rot
    case _ => n.htm <= h && n.rot <= r
  }

  lemma {:induction false} SpendLeavesLess(c: Config, tries: int, why: Cause)
    requires tries > 0
    ensures SpendHtm(c, tries, why) < tries && SpendRot(c, tries, why) < tries
  {
  }

  lemma {:induction false} BudgetOwn(c: Config, s: State, e: Event, n: Aborts)
    requires Enabled(c, s, e) && Budget(s.pcs[e.t], c, n)
    ensures |Next(c, s, e).pcs| == |s.pcs|
    ensures Budget(Next(c, s, e).pcs[e.t], c, Count(n, s, e))
  {
    hide Doom, Hit, SpendHtm, SpendRot, TxRead, TxAfterRead, TxAfterWrite, Odd;
    var p := s.pcs[e.t];
    if p.TxSubscribe? || IsHtm(p) || IsRot(p) {
      SpendLeavesLess(c, p.tries, if e.Abort? then e.why else User);
    }
  }

  // A section aborts at most HTM_RETRIES times in hardware transactions and at most ROT_RETRIES times
  // in rollback-only ones before it runs under the global lock.
  lemma {:induction false} RetriesBounded(c: Config, m: Memory, es: seq<Event>, t: nat)
    requires Legal(c, m, es) && t < c.n
    ensures |After(c, m, es).pcs| == c.n && Budget(After(c, m, es).pcs[t], c, AbortsOf(c, m, es, t))
    ensures AbortsOf(c, m, es, t).htm <= Positive(c.htmRetries) && AbortsOf(c, m, es, t).rot <= Positive(c.rotRetries)
  {
    if es != [] {
      RetriesBounded(c, m, Front(es), t);
      var s, e := After(c, m, Front(es)), Last(es);
      if e.t == t {
        BudgetOwn(c, s, e, AbortsOf(c, m, Front(es), t));
      } else {
        OthersStay(c, s, e, t);
      }
      hide Enabled, Next, Count;
    }
  }
}
