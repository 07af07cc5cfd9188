/**
 Progress of the base lock: a section gives up on transactions after a bounded number of aborts,
 and a fallback writer that owns the lock word gets through to its section.
 */
module FallbackProgress {
  import opened Replay
  import opened Htm
  import opened SpRwl
  import opened SpRwlSafety
  import opened FlagLock
  import opened Requests
  import opened SpRwlEvents
  import opened Words

  // ---------- the retry budget ----------

  // The event aborts a transaction of its thread.
  predicate IsAbort(s: State, e: Event) {
    e.t < |s.pcs| &&
    (e.Abort? ||
     (e.Go? && s.pcs[e.t].TxSubscribe? && s.locked) ||
     (e.Go? && s.pcs[e.t].TxScan? && s.pcs[e.t].k < |s.cells| && s.cells[s.pcs[e.t].k]))
  }

  // The aborts of t since it last began a section.
  function Aborts(c: Config, m: Memory, es: seq<Event>, t: nat): nat {
    if es == [] then 0
    else if Last(es).Enter? && Last(es).t == t then 0
    else Aborts(c, m, Front(es), t) + if Last(es).t == t && IsAbort(After(c, m, Front(es)), Last(es)) then 1 else 0
  }

  lemma {:induction false} SpendLeavesLess(c: Config, tries: int, why: Cause)
    ensures tries >= 1 ==> Spend(c, tries, why) <= tries - 1
    ensures tries <= 0 ==> Spend(c, tries, why) <= 0
  {
  }

  // In the retry loop every abort has cost at least one try; past the loop there are no more.
  predicate Budget(p: Pc, retries: int, aborts: nat) {
    match p
    case WaitFree(_, tries) => InLoop(tries, retries, aborts)
    case TxSubscribe(_, tries) => InLoop(tries, retries, aborts)
    case TxBody(_, tries, _) => InLoop(tries, retries, aborts)
    case TxScan(tries, _, _) => InLoop(tries, retries, aborts)
    case _ => aborts <= MostAborts(retries)
  }

  predicate InLoop(tries: int, retries: int, aborts: nat) {
    if aborts == 0 then tries == retries else 0 < tries <= retries - aborts
  }

  function MostAborts(retries: int): nat {
    if retries >= 1 then retries else 1
  }

  lemma {:induction false} BudgetOwn(c: Config, s: State, e: Event, aborts: nat)
    requires Enabled(c, s, e) && Budget(s.pcs[e.t], c.retries, aborts)
    ensures |Next(c, s, e).pcs| == |s.pcs|
    ensures Budget(Next(c, s, e).pcs[e.t], c.retries,
      if e.Enter? then 0 else aborts + if IsAbort(s, e) then 1 else 0)
  {
    hide Spend;
    var p := s.pcs[e.t];
    if p.TxSubscribe? || IsTx(p) {
      SpendLeavesLess(c, p.tries, if e.Abort? then e.why else OtherCause);
    }
  }

  lemma {:induction false} BudgetNext(c: Config, s: State, e: Event, t: nat, aborts: nat)
    requires Enabled(c, s, e) && t < |s.pcs| && Budget(s.pcs[t], c.retries, aborts)
    ensures |Next(c, s, e).pcs| == |s.pcs|
    ensures Budget(Next(c, s, e).pcs[t], c.retries,
      if e.Enter? && e.t == t then 0 else aborts + if e.t == t && IsAbort(s, e) then 1 else 0)
  {
    hide Enabled, Next;
    if e.t == t {
      BudgetOwn(c, s, e, aborts);
    } else {
      OthersStay(c, s, e, t);
    }
  }

  // Reaching the fallback takes at most HTM_RETRIES aborts (one, if that is not positive), under
  // every retry policy and every sequence of aborts.
  lemma {:induction false} RetriesBounded(c: Config, m: Memory, es: seq<Event>, t: nat)
    requires Legal(c, m, es) && t < c.n
    ensures |After(c, m, es).pcs| == c.n && Budget(After(c, m, es).pcs[t], c.retries, Aborts(c, m, es, t))
    ensures Aborts(c, m, es, t) <= MostAborts(c.retries)
  {
    hide Enabled, Next, IndicatorHolds;
    if es != [] {
      RetriesBounded(c, m, Front(es), t);
      BudgetNext(c, After(c, m, Front(es)), Last(es), t, Aborts(c, m, Front(es), t));
    }
  }

  // ---------- the exact budget ----------

  // Why an aborting event aborts: a set lock word or flag is no matter of capacity.
  function CauseOf(e: Event): Cause {
    if e.Abort? then e.why else OtherCause
  }

  // A capacity abort takes all tries under policy 0 and half of them under policy 2; every other abort
  // takes one.
  function Spent(policy: int, left: int, why: Cause): int {
    if why == Capacity && policy == 0 then 0
    else if why == Capacity && policy == 2 then left / 2
    else left - 1
  }

  // The tries left of the section that t last began.
  function TriesLeft(c: Config, m: Memory, es: seq<Event>, t: nat): int {
    if es == [] || (Last(es).Enter? && Last(es).t == t) then c.retries
    else
      var left := TriesLeft(c, m, Front(es), t);
      if Last(es).t == t && IsAbort(After(c, m, Front(es)), Last(es)) then Spent(c.policy, left, CauseOf(Last(es)))
      else left
  }

  // Until the tries run out, and before the first abort, the section is in the retry loop with what is
  // left of its tries; after that it is in read mode or at the fallback lock.
  predicate OnBudget(p: Pc, left: int, aborts: nat) {
    match p
    case Idle => true
    case WaitFree(_, tries) => tries == left && (aborts > 0 ==> left > 0)
    case TxSubscribe(_, tries) => tries == left && (aborts > 0 ==> left > 0)
    case TxBody(_, tries, _) => tries == left && (aborts > 0 ==> left > 0)
    case TxScan(tries, _, _) => tries == left && (aborts > 0 ==> left > 0)
    case _ => aborts > 0 && left <= 0
  }

  lemma {:induction false} OnBudgetAfterAbort(c: Config, ro: bool, left: int, aborts: nat, why: Cause)
    requires aborts > 0 ==> left > 0
    ensures OnBudget(AfterAbort(c, ro, left, why), Spent(c.policy, left, why), aborts + 1)
  {
  }

  lemma {:induction false} OnBudgetOwn(c: Config, s: State, e: Event, left: int, aborts: nat)
    requires Enabled(c, s, e) && OnBudget(s.pcs[e.t], left, aborts)
    ensures |Next(c, s, e).pcs| == |s.pcs|
    ensures var p := Next(c, s, e).pcs[e.t];
      if e.Enter? then OnBudget(p, c.retries, 0)
      else if IsAbort(s, e) then OnBudget(p, Spent(c.policy, left, CauseOf(e)), aborts + 1)
      else OnBudget(p, left, aborts)
  {
    hide Doom, DoomCells, AfterAbort, Hit, Get, TxRead, TxAfterRead, TxAfterWrite, Fresh, Spent;
    var p := s.pcs[e.t];
    if p.TxSubscribe? || IsTx(p) {
      OnBudgetAfterAbort(c, if p.TxScan? then false else p.ro, left, aborts, CauseOf(e));
    }
  }

  // In every run a section is in the retry loop exactly until its tries run out.
  lemma {:induction false} BudgetIsExact(c: Config, m: Memory, es: seq<Event>, t: nat)
    requires Legal(c, m, es) && t < c.n
    ensures |After(c, m, es).pcs| == c.n
    ensures OnBudget(After(c, m, es).pcs[t], TriesLeft(c, m, es, t), Aborts(c, m, es, t))
  {
    hide IndicatorHolds, IsAbort;
    if es != [] {
      BudgetIsExact(c, m, Front(es), t);
      var s, e := After(c, m, Front(es)), Last(es);
      if e.t == t {
        OnBudgetOwn(c, s, e, TriesLeft(c, m, Front(es), t), Aborts(c, m, Front(es), t));
      } else {
        OthersStay(c, s, e, t);
      }
      hide Enabled, Next;
    }
  }

  // The capacity aborts of t since it last began a section.
  function CapacityAborts(c: Config, m: Memory, es: seq<Event>, t: nat): nat {
    if es == [] || (Last(es).Enter? && Last(es).t == t) then 0
    else
      var k := CapacityAborts(c, m, Front(es), t);
      if Last(es).t == t && IsAbort(After(c, m, Front(es)), Last(es)) && CauseOf(Last(es)) == Capacity then k + 1 else k
  }

  // Without capacity aborts, or under a policy that is neither 0 nor 2, every abort costs one try.
  lemma {:induction false} OneTryEach(c: Config, m: Memory, es: seq<Event>, t: nat)
    requires CapacityAborts(c, m, es, t) == 0 || (c.policy != 0 && c.policy != 2)
    ensures TriesLeft(c, m, es, t) == c.retries - Aborts(c, m, es, t)
  {
    hide IsAbort, After;
    if es != [] && !(Last(es).Enter? && Last(es).t == t) {
      OneTryEach(c, m, Front(es), t);
    }
  }

  // Under policy 0 the first capacity abort ends the loop.
  lemma {:induction false} CapacityEndsLoop(c: Config, m: Memory, es: seq<Event>, t: nat)
    requires c.policy == 0 && CapacityAborts(c, m, es, t) > 0
    ensures TriesLeft(c, m, es, t) <= 0
  {
    hide IsAbort, After;
    if !(Last(es).t == t && IsAbort(After(c, m, Front(es)), Last(es)) && CauseOf(Last(es)) == Capacity) {
      CapacityEndsLoop(c, m, Front(es), t);
    }
  }

  // Under policy 2 capacity aborts alone halve the tries again and again.
  lemma {:induction false} CapacityHalves(c: Config, m: Memory, es: seq<Event>, t: nat)
    requires c.policy == 2 && c.retries >= 0 && CapacityAborts(c, m, es, t) == Aborts(c, m, es, t)
    ensures TriesLeft(c, m, es, t) == c.retries / Pow2(Aborts(c, m, es, t))
  {
    hide IsAbort, After;
    if es != [] && !(Last(es).Enter? && Last(es).t == t) {
      CapacityAtMost(c, m, Front(es), t);
      CapacityHalves(c, m, Front(es), t);
      HalvedAgain(c.retries, Pow2(Aborts(c, m, Front(es), t)));
    }
  }

  lemma {:induction false} CapacityAtMost(c: Config, m: Memory, es: seq<Event>, t: nat)
    ensures CapacityAborts(c, m, es, t) <= Aborts(c, m, es, t)
  {
    hide IsAbort, After;
    if es != [] && !(Last(es).Enter? && Last(es).t == t) {
      CapacityAtMost(c, m, Front(es), t);
    }
  }

  lemma {:induction false} HalvedAgain(x: nat, p: nat)
    requires p > 0
    ensures x / p / 2 == x / (2 * p)
  {
    var q, r := x / p, x % p;
    assert x == p * q + r;
    ModIs(x, 2 * p, q / 2, p * (q % 2) + r);
  }

  // What a section with k aborts, none of them for capacity, is up to: still trying if k is less than
  // HTM_RETRIES, and at HTM_RETRIES in read mode if it is a reader and at the fallback lock if not.
  lemma {:induction false} WhereAfterAborts(c: Config, m: Memory, es: seq<Event>, t: nat)
    requires Legal(c, m, es) && t < c.n && c.retries >= 1 && CapacityAborts(c, m, es, t) == 0
    ensures |After(c, m, es).pcs| == c.n
    ensures var p, k := After(c, m, es).pcs[t], Aborts(c, m, es, t);
      && k <= c.retries
      && (!p.Idle? ==> (k < c.retries <==> p.WaitFree? || p.TxSubscribe? || IsTx(p)))
      && (!p.Idle? && k == c.retries && RoleOf(es, t) == Reader ==> ReadMode(p))
      && (!p.Idle? && k == c.retries && RoleOf(es, t) == Writer ==> p.GlAcquire? || Holder(p))
  {
    hide Legal, After, TriesLeft, CapacityAborts, Aborts;
    RetriesBounded(c, m, es, t);
    BudgetIsExact(c, m, es, t);
    OneTryEach(c, m, es, t);
    RolesAreKept(c, m, es, t);
  }

  // ---------- the fallback writer ----------

  // Steps a thread can still take while another thread owns the lock word, before it must wait.
  function Weight(p: Pc, cells: nat): nat {
    match p
    case WaitFree(_, _) => 0
    case GlAcquire => 0
    case RdWait => 0
    case GlBody(_) => 0
    case Idle => 1
    case RdLeave(retry) => if retry then 1 else 2
    case RdCheck => 2
    case RdBody(_) => 3
    case RdArrive => 3
    case TxSubscribe(_, _) => 4
    case TxBody(_, _, _) => 4
    case TxScan(_, _, _) => 4
    case GlScan(k) => if k <= cells then cells - k + 1 else 0
  }

  function Total(pcs: seq<Pc>, cells: nat): nat {
    if pcs == [] then 0 else Total(Front(pcs), cells) + Weight(Last(pcs), cells)
  }

  lemma {:induction false} TotalDrops(pcs: seq<Pc>, pcs': seq<Pc>, cells: nat, t: nat)
    requires |pcs| == |pcs'| && t < |pcs| && Weight(pcs'[t], cells) < Weight(pcs[t], cells)
    requires forall u :: 0 <= u < |pcs| ==> Weight(pcs'[u], cells) <= Weight(pcs[u], cells)
    ensures Total(pcs', cells) < Total(pcs, cells)
  {
    if t == |pcs| - 1 {
      TotalGrowsNot(Front(pcs), Front(pcs'), cells);
    } else {
      TotalDrops(Front(pcs), Front(pcs'), cells, t);
    }
  }

  lemma {:induction false} TotalGrowsNot(pcs: seq<Pc>, pcs': seq<Pc>, cells: nat)
    requires |pcs| == |pcs'|
    requires forall u :: 0 <= u < |pcs| ==> Weight(pcs'[u], cells) <= Weight(pcs[u], cells)
    ensures Total(pcs', cells) <= Total(pcs, cells)
  {
    if pcs != [] {
      TotalGrowsNot(Front(pcs), Front(pcs'), cells);
    }
  }

  // Only the holder of the lock word can weigh more than 4.
  lemma {:induction false} TotalBounded(pcs: seq<Pc>, cells: nat)
    requires forall t, u :: 0 <= t < u < |pcs| ==> !(pcs[t].GlScan? && pcs[u].GlScan?)
    ensures Total(pcs, cells) <= 4 * |pcs| + cells + 1
    ensures (forall t :: 0 <= t < |pcs| ==> !pcs[t].GlScan?) ==> Total(pcs, cells) <= 4 * |pcs|
  {
    if pcs != [] {
      TotalBounded(Front(pcs), cells);
    }
  }

  ghost predicate Scanning(s: State, w: nat) {
    w < |s.pcs| && s.pcs[w].GlScan?
  }

  // An event that neither turns a spin loop nor accesses data inside a section.
  predicate Works(c: Config, s: State, e: Event) {
    Enabled(c, s, e) && !e.Read? && !e.Write? && Next(c, s, e) != s
  }

  ghost predicate FlagState(c: Config, m: Memory, s: State) {
    Inv(c, m, s) && FlagsMirror(s) && c.cells == c.n && c.cellOf == seq(c.n, i => i)
  }

  // While w owns the lock word and scans the flags, no thread gains weight, and a step that works
  // loses some.
  lemma {:induction false} OwnWeight(c: Config, m: Memory, s: State, e: Event, w: nat)
    requires FlagState(c, m, s) && Scanning(s, w) && Enabled(c, s, e) && FlagEvent(s, e)
    ensures var s' := Next(c, s, e);
      && |s'.pcs| == |s.pcs| && |s'.cells| == |s.cells|
      && Weight(s'.pcs[e.t], |s.cells|) <= Weight(s.pcs[e.t], |s.cells|)
      && (Works(c, s, e) ==> Weight(s'.pcs[e.t], |s.cells|) < Weight(s.pcs[e.t], |s.cells|))
  {
    var p := s.pcs[e.t];
    assert ThreadOk(s, s.pcs[w]) && ThreadOk(s, p);
    if e.t != w {
      assert PairOk(c, s.pcs[w], e.t, p);
    }
  }

  lemma {:induction false} OtherWeight(c: Config, s: State, e: Event, u: nat)
    requires Enabled(c, s, e) && u < |s.pcs| && u != e.t
    ensures |Next(c, s, e).pcs| == |s.pcs| && Weight(Next(c, s, e).pcs[u], |s.cells|) == Weight(s.pcs[u], |s.cells|)
  {
    hide Enabled, Next;
    OthersStay(c, s, e, u);
  }

  lemma {:induction false} WorkLosesWeight(c: Config, m: Memory, s: State, e: Event, w: nat)
    requires FlagState(c, m, s) && Scanning(s, w) && Enabled(c, s, e) && FlagEvent(s, e)
    ensures var s' := Next(c, s, e);
      && |s'.pcs| == |s.pcs| && |s'.cells| == |s.cells|
      && Total(s'.pcs, |s.cells|) <= Total(s.pcs, |s.cells|)
      && (Works(c, s, e) ==> Total(s'.pcs, |s.cells|) < Total(s.pcs, |s.cells|))
  {
    var s', n := Next(c, s, e), |s.cells|;
    OwnWeight(c, m, s, e, w);
    forall u | 0 <= u < |s.pcs|
      ensures Weight(s'.pcs[u], n) <= Weight(s.pcs[u], n)
    {
      if u != e.t {
        OtherWeight(c, s, e, u);
      }
    }
    hide Next, Works, Weight, Inv;
    TotalGrowsNot(s.pcs, s'.pcs, n);
    if Weight(s'.pcs[e.t], n) < Weight(s.pcs[e.t], n) {
      TotalDrops(s.pcs, s'.pcs, n, e.t);
    }
  }

  // While w scans, some thread can take a step that works: w itself, or the owner of the flag w
  // waits for.
  lemma {:induction false} ScanNotStuck(c: Config, m: Memory, s: State, w: nat)
    requires FlagState(c, m, s) && Scanning(s, w)
    ensures exists e :: Works(c, s, e) && FlagEvent(s, e) && !e.Enter? && !e.Abort?
  {
    var k := s.pcs[w].k;
    assert ThreadOk(s, s.pcs[w]);
    var e := if k >= |s.cells| || !s.cells[k] then Go(w)
             else if s.pcs[k].RdCheck? then Go(k)
             else if s.pcs[k].RdBody? then SpRwl.Finish(k)
             else FlagStore(s, k);
    if e.Signal? {
      assert s.pcs[k].RdLeave?;
    }
    assert Next(c, s, e).pcs[e.t] != s.pcs[e.t];
    assert Works(c, s, e);
  }

  // ---------- deadlock freedom ----------

  // An event that works and that the thread's code takes on its own.
  ghost predicate Progress(c: Config, s: State, e: Event) {
    && Works(c, s, e) && FlagEvent(s, e) && !e.Enter?
    && (e.Abort? ==> IsTx(s.pcs[e.t]) && s.pcs[e.t].tx.doomed)
  }

  lemma {:induction false} Moves(c: Config, s: State, e: Event)
    requires Enabled(c, s, e) && FlagEvent(s, e) && !e.Enter? && !e.Read? && !e.Write?
    requires e.Abort? ==> IsTx(s.pcs[e.t]) && s.pcs[e.t].tx.doomed
    requires |Next(c, s, e).pcs| == |s.pcs| ==> Next(c, s, e).pcs[e.t] != s.pcs[e.t]
    ensures Progress(c, s, e)
  {
  }

  lemma {:induction false} HolderMoves(c: Config, m: Memory, s: State)
    requires FlagState(c, m, s) && Owned(s) && s.locked
    ensures exists e :: Progress(c, s, e)
  {
    var w :| 0 <= w < |s.pcs| && Holder(s.pcs[w]);
    if s.pcs[w].GlScan? {
      ScanNotStuck(c, m, s, w);
      var e :| Works(c, s, e) && FlagEvent(s, e) && !e.Enter? && !e.Abort?;
      assert Progress(c, s, e);
    } else {
      Moves(c, s, SpRwl.Finish(w));
    }
  }

  lemma {:induction false} SomeoneMoves(c: Config, m: Memory, s: State, t: nat)
    requires FlagState(c, m, s) && Owned(s) && t < |s.pcs| && !s.pcs[t].Idle?
    ensures exists e :: Progress(c, s, e)
  {
    var p := s.pcs[t];
    if Holder(p) || (s.locked && (p.WaitFree? || p.GlAcquire? || p.RdWait?)) {
      assert ThreadOk(s, p);
      HolderMoves(c, m, s);
    } else if p.RdArrive? || p.RdLeave? {
      Moves(c, s, FlagStore(s, t));
    } else if IsTx(p) && p.tx.doomed {
      Moves(c, s, Abort(t, OtherCause));
    } else if p.TxBody? || p.RdBody? {
      Moves(c, s, SpRwl.Finish(t));
    } else {
      Moves(c, s, Go(t));
    }
  }

  // In every reachable state of the base lock with an unfinished operation some thread can take a
  // step that is neither a data access nor a turn of a spin loop.
  lemma {:induction false} NoDeadlock(n: nat, retries: int, policy: int, m: Memory, es: seq<Event>, t: nat)
    requires FlagLegal(FlagConfig(n, retries, policy), m, es) && t < n
    ensures var c := FlagConfig(n, retries, policy);
      var s := After(c, m, es);
      |s.pcs| == n && (!s.pcs[t].Idle? ==> exists e :: Progress(c, s, e))
  {
    var c := FlagConfig(n, retries, policy);
    FlagStateAlways(n, retries, policy, m, es);
    FlagsKeepContract(n, retries, policy, m, es);
    OwnedAlways(c, m, es);
    if !After(c, m, es).pcs[t].Idle? {
      SomeoneMoves(c, m, After(c, m, es), t);
    }
  }

  // ---------- runs ----------

  // w owns the lock word and scans throughout fs, which follows es.
  ghost predicate ScansThroughout(c: Config, m: Memory, es: seq<Event>, fs: seq<Event>, w: nat) {
    Scanning(After(c, m, es + fs), w) && (fs != [] ==> ScansThroughout(c, m, es, Front(fs), w))
  }

  // How many events of fs work, and how many of them raise the flag of u.
  function WorkIn(c: Config, m: Memory, es: seq<Event>, fs: seq<Event>): nat {
    if fs == [] then 0
    else WorkIn(c, m, es, Front(fs)) + if Works(c, After(c, m, es + Front(fs)), Last(fs)) then 1 else 0
  }

  predicate Raises(s: State, e: Event, u: nat) {
    e.Signal? && e.t == u && u < |s.pcs| && s.pcs[u].RdArrive?
  }

  function RaisesIn(c: Config, m: Memory, es: seq<Event>, fs: seq<Event>, u: nat): nat {
    if fs == [] then 0
    else RaisesIn(c, m, es, Front(fs), u) + if Raises(After(c, m, es + Front(fs)), Last(fs), u) then 1 else 0
  }

  lemma {:induction false} FlagStateAlways(n: nat, retries: int, policy: int, m: Memory, es: seq<Event>)
    requires FlagLegal(FlagConfig(n, retries, policy), m, es)
    ensures var c := FlagConfig(n, retries, policy);
      var s := After(c, m, es);
      FlagState(c, m, s) && |s.cells| == n == |s.pcs|
  {
    FlagsKeepContract(n, retries, policy, m, es);
    InvAlways(FlagConfig(n, retries, policy), m, es);
  }

  lemma {:induction false} AppendFront(es: seq<Event>, fs: seq<Event>)
    requires fs != []
    ensures es + fs != [] && Front(es + fs) == es + Front(fs) && Last(es + fs) == Last(fs)
  {
  }

  // The steps that work before the scan is over are bounded by the weight at its start.
  lemma {:induction false} WorkBounded(n: nat, retries: int, policy: int, m: Memory, es: seq<Event>,
                                       fs: seq<Event>, w: nat)
    requires FlagLegal(FlagConfig(n, retries, policy), m, es + fs)
    requires ScansThroughout(FlagConfig(n, retries, policy), m, es, fs, w)
    ensures var c := FlagConfig(n, retries, policy);
      FlagLegal(c, m, es) &&
      WorkIn(c, m, es, fs) + Total(After(c, m, es + fs).pcs, n) <= Total(After(c, m, es).pcs, n)
  {
    hide FlagState, Works, Enabled, Next, Scanning, FlagEvent;
    if fs == [] {
      assert es + fs == es;
    } else {
      var c := FlagConfig(n, retries, policy);
      AppendFront(es, fs);
      WorkBounded(n, retries, policy, m, es, Front(fs), w);
      FlagStateAlways(n, retries, policy, m, es + Front(fs));
      WorkLosesWeight(c, m, After(c, m, es + Front(fs)), Last(fs), w);
    }
  }

  // A fallback writer gets through: from the moment it owns the lock word, fewer than 5 n + 2 steps
  // that work are taken by all threads together until its scan is over, and until then some thread
  // can always take such a step.
  lemma {:induction false} FallbackGetsThrough(n: nat, retries: int, policy: int, m: Memory, es: seq<Event>,
                                               fs: seq<Event>, w: nat)
    requires FlagLegal(FlagConfig(n, retries, policy), m, es + fs)
    requires ScansThroughout(FlagConfig(n, retries, policy), m, es, fs, w)
    ensures var c := FlagConfig(n, retries, policy);
      && WorkIn(c, m, es, fs) <= 5 * n + 1
      && (exists e :: Works(c, After(c, m, es + fs), e) && FlagEvent(After(c, m, es + fs), e) && !e.Enter? && !e.Abort?)
  {
    var c := FlagConfig(n, retries, policy);
    WorkBounded(n, retries, policy, m, es, fs, w);
    FlagStateAlways(n, retries, policy, m, es);
    FlagStateAlways(n, retries, policy, m, es + fs);
    ScanNotStuck(c, m, After(c, m, es + fs), w);
    OneScanner(c, m, After(c, m, es));
    TotalBounded(After(c, m, es).pcs, n);
  }

  lemma {:induction false} OneScanner(c: Config, m: Memory, s: State)
    requires Inv(c, m, s)
    ensures forall t, u :: 0 <= t < u < |s.pcs| ==> !(s.pcs[t].GlScan? && s.pcs[u].GlScan?)
  {
    forall t, u | 0 <= t < u < |s.pcs|
      ensures !(s.pcs[t].GlScan? && s.pcs[u].GlScan?)
    {
      assert PairOk(c, s.pcs[t], u, s.pcs[u]);
    }
  }

  // w owns the lock word throughout fs, which follows es: until its release.
  ghost predicate HoldsThroughout(c: Config, m: Memory, es: seq<Event>, fs: seq<Event>, w: nat) {
    Holding(After(c, m, es + fs), w) && (fs != [] ==> HoldsThroughout(c, m, es, Front(fs), w))
  }

  ghost predicate Holding(s: State, w: nat) {
    w < |s.pcs| && Holder(s.pcs[w])
  }

  // From the moment a writer owns the lock word until it releases it, through its scan and its
  // section, each thread raises its reader flag at most once.
  lemma {:induction false} RaisesAtMostOnce(n: nat, retries: int, policy: int, m: Memory, es: seq<Event>,
                                            fs: seq<Event>, w: nat, u: nat)
    requires FlagLegal(FlagConfig(n, retries, policy), m, es + fs) && u < n
    requires HoldsThroughout(FlagConfig(n, retries, policy), m, es, fs, w)
    ensures var c := FlagConfig(n, retries, policy);
      var s := After(c, m, es + fs);
      |s.pcs| == n && RaisesIn(c, m, es, fs, u) + (if MayRaise(s.pcs[u]) then 1 else 0) <= 1
  {
    hide FlagState, Works, Enabled, Next, Holding, FlagEvent, MayRaise;
    var c := FlagConfig(n, retries, policy);
    FlagStateAlways(n, retries, policy, m, es + fs);
    if fs != [] {
      AppendFront(es, fs);
      RaisesAtMostOnce(n, retries, policy, m, es, Front(fs), w, u);
      FlagStateAlways(n, retries, policy, m, es + Front(fs));
      RaiseNext(c, m, After(c, m, es + Front(fs)), Last(fs), w, u);
    }
  }

  // Places from which a thread can still raise its flag while another thread owns the lock word.
  predicate MayRaise(p: Pc) {
    p.RdArrive? || p.TxSubscribe? || IsTx(p)
  }

  lemma {:induction false} RaiseOwn(c: Config, s: State, e: Event)
    requires Enabled(c, s, e) && FlagEvent(s, e) && s.locked && !LiveTx(s.pcs[e.t])
    ensures var p, q := s.pcs[e.t], Next(c, s, e).pcs[e.t];
      |Next(c, s, e).pcs| == |s.pcs| && (MayRaise(q) ==> MayRaise(p) && !p.RdArrive?)
  {
    hide Doom, DoomCells, Spend;
  }

  lemma {:induction false} RaiseNext(c: Config, m: Memory, s: State, e: Event, w: nat, u: nat)
    requires FlagState(c, m, s) && Holding(s, w) && Enabled(c, s, e) && FlagEvent(s, e) && u < |s.pcs|
    ensures var s' := Next(c, s, e);
      && |s'.pcs| == |s.pcs|
      && (MayRaise(s'.pcs[u]) ==> MayRaise(s.pcs[u]) && !Raises(s, e, u))
      && (Raises(s, e, u) ==> MayRaise(s.pcs[u]))
  {
    hide TxOk, Valid, Apply, Writes, ReadSet, ReplayValid, ReplayMemory;
    assert ThreadOk(s, s.pcs[w]) && ThreadOk(s, s.pcs[u]) && ThreadOk(s, s.pcs[e.t]);
    hide Next, FlagEvent, Inv, FlagsMirror, ThreadOk;
    if u == e.t {
      RaiseOwn(c, s, e);
    } else {
      OthersStay(c, s, e, u);
    }
  }
}
