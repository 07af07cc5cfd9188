/**
 Deadlock freedom of the scheduled lock: while some operation is unfinished, some thread can take a
 step that is not a turn of a spin loop.

 The argument follows the wait-for relation downwards: a reader waiting for a posted writer, a
 writer waiting for the lock word, the holder of the lock word waiting for readers, a reader that
 has arrived at the indicator.
 */
module ScheduleProgress {
  import opened Replay
  import opened SpRwl
  import opened SpRwlSafety
  import opened SnziLock
  import opened ScheduledLock
  import Root = SnziRoot
  import Tree = SnziTree

  // A thread between the begin and the end of a write section.
  predicate Writing(p: Pc) {
    match p
    case WaitFree(ro, _) => !ro
    case TxSubscribe(ro, _) => !ro
    case TxBody(ro, _, _) => !ro
    case TxScan(_, _, _) => true
    case GlAcquire => true
    case GlScan(_) => true
    case GlBody(_) => true
    case _ => false
  }

  // Where waiting code can stand, and whom it can wait for.
  predicate WaitOk(w: Wait, p: Pc, n: nat) {
    match w
    case Free => true
    case Stamp => p.GlBody? || (p.TxSubscribe? && !p.ro)
    case Unstamp => p.Idle?
    case ScanFlag(i, _, target) => p.RdArrive? && i <= n && target < n
    case ScanClock(i, _, target) => p.RdArrive? && i < n && target < n
    case ScanTake(i, _, target) => p.RdArrive? && i < n && target < n
    case Announce(target) => p.RdArrive? && target < n
    case Await(target) => p.RdArrive? && target < n
    case Retract => p.RdArrive?
    case Pause(_) => p.GlAcquire? || (p.WaitFree? && !p.ro)
  }

  // is_waiting is set while its owner waits, and names whom it waits for.
  predicate Posted(w: Wait, flag: nat) {
    (w.Await? ==> flag == w.target + 1) && (flag != 0 ==> w.Await? || w.Retract?)
  }

  // A posted time belongs to a writer, and is_waiting names a thread.
  ghost predicate BoardOk(c: Config, s: Sched) {
    && Shaped(s) && |s.waits| == |s.both.obj.pcs| == c.n
    && (forall t :: 0 <= t < c.n && !s.waits[t].Free? ==> s.both.obj.pcs[t].Idle?)
    && (forall t :: 0 <= t < c.n ==> WaitOk(s.waits[t], s.both.lock.pcs[t], c.n))
    && (forall t :: 0 <= t < c.n ==> s.waiting[t] <= c.n && Posted(s.waits[t], s.waiting[t]))
    && (forall t :: 0 <= t < c.n && s.clocks[t] != 0 ==> Writing(s.both.lock.pcs[t]) || s.waits[t].Unstamp?)
  }

  lemma {:induction false} DelayOwn(c: Config, s: Sched, t: nat, time: int)
    requires BoardOk(c, s) && CanAct(c, s, Delay(t, time))
    ensures var s' := WaitStep(s, t, time);
      && s'.both == s.both
      && s'.waits == s.waits[t := s'.waits[t]] && s'.waiting == s.waiting[t := s'.waiting[t]]
      && s'.clocks == s.clocks[t := s'.clocks[t]]
      && WaitOk(s'.waits[t], s.both.lock.pcs[t], c.n)
      && s'.waiting[t] <= c.n && Posted(s'.waits[t], s'.waiting[t])
      && (s'.clocks[t] != 0 ==> Writing(s.both.lock.pcs[t]) || s'.waits[t].Unstamp?)
  {
    hide Tree.Shape;
    assert WaitOk(s.waits[t], s.both.lock.pcs[t], c.n) && Posted(s.waits[t], s.waiting[t]);
  }

  lemma {:induction false} BoardDelay(c: Config, s: Sched, t: nat, time: int)
    requires BoardOk(c, s) && CanAct(c, s, Delay(t, time))
    ensures BoardOk(c, NextSched(c, s, Delay(t, time)))
  {
    DelayOwn(c, s, t, time);
    hide WaitStep, WaitOk, Writing, Posted;
  }

  // A lock step takes a writer only from one place of its section to the next or to its end.
  lemma {:induction false} LockMovesOwn(c: Config, s: State, e: Event, until: int)
    requires Enabled(c, s, e) && c.n > 0
    ensures var p, q := s.pcs[e.t], Next(c, s, e).pcs[e.t];
      var w := Then(p, q, e == Go(e.t), until);
      |Next(c, s, e).pcs| == |s.pcs| && WaitOk(w, q, c.n) && (Writing(p) ==> Writing(q) || w.Unstamp?)
  {
  }

  // It leaves other threads where they are, save that it may condemn their transactions.
  lemma {:induction false} LockMovesOther(c: Config, s: State, e: Event, u: nat, w: Wait)
    requires Enabled(c, s, e) && u < |s.pcs| && u != e.t && WaitOk(w, s.pcs[u], c.n)
    ensures |Next(c, s, e).pcs| == |s.pcs|
    ensures WaitOk(w, Next(c, s, e).pcs[u], c.n) && Writing(Next(c, s, e).pcs[u]) == Writing(s.pcs[u])
  {
    hide Enabled, Next;
    OthersStay(c, s, e, u);
  }

  // No operation of the object runs in waiting code.
  lemma {:induction false} WaitsOutside(c: Config, s: Both, x: Step, until: int)
    requires BothOk(c, s) && Ready(c, s, x)
    ensures var s', t := StepBoth(c, s, x), Thread(x);
      && |s'.obj.pcs| == |s.obj.pcs| && |s'.lock.pcs| == |s.lock.pcs|
      && (forall u :: 0 <= u < |s.obj.pcs| && u != t ==> s'.obj.pcs[u] == s.obj.pcs[u])
      && (!Then(s.lock.pcs[t], s'.lock.pcs[t], x == Lock(Go(t)), until).Free? ==> s'.obj.pcs[t].Idle?)
  {
    match x
    case Lock(e) => LockWaitsOutside(c, s, e, until);
    case Snzi(f) => ObjectStep(c, s, f);
  }

  lemma {:induction false} LockWaitsOutside(c: Config, s: Both, e: Event, until: int)
    requires BothOk(c, s) && Ready(c, s, Lock(e))
    ensures var p, q := s.lock.pcs[e.t], Next(c, s.lock, e).pcs[e.t];
      |Next(c, s.lock, e).pcs| == |s.lock.pcs| &&
      (!Then(p, q, e == Go(e.t), until).Free? ==> s.obj.pcs[e.t].Idle?)
  {
    hide Tree.Inv, Doom;
    assert Linked(s.lock.pcs[e.t], s.obj.pcs[e.t], s.obj.arrived[e.t], s.obj.leaving[e.t]);
  }

  lemma {:induction false} BoardDo(c: Config, s: Sched, x: Step, until: int)
    requires BothOk(c, s.both) && BoardOk(c, s) && CanAct(c, s, Do(x, until))
    ensures BoardOk(c, NextSched(c, s, Do(x, until)))
  {
    var s', t := NextSched(c, s, Do(x, until)), Thread(x);
    var e := StepOf(s.both, x);
    assert e.t == t && Enabled(c, s.both.lock, e) && (e == Go(t) <==> x == Lock(Go(t)));
    WaitsOutside(c, s.both, x, until);
    LockMovesOwn(c, s.both.lock, e, until);
    assert s'.both.lock == Next(c, s.both.lock, e);
    hide Enabled, Next, StepOf, Ready, BothOk, StepBoth, WaitOk, Writing, Then;
    forall u | 0 <= u < c.n
      ensures WaitOk(s'.waits[u], s'.both.lock.pcs[u], c.n) && Posted(s'.waits[u], s'.waiting[u])
      ensures s'.clocks[u] != 0 ==> Writing(s'.both.lock.pcs[u]) || s'.waits[u].Unstamp?
    {
      if u != t {
        LockMovesOther(c, s.both.lock, e, u, s.waits[u]);
      }
    }
  }

  // ---------- who can move ----------

  // A step that is neither time, nor a data access, nor a new operation, nor a hardware abort that
  // is not due, and that does something.
  ghost predicate Progress(c: Config, s: Sched, a: Act) {
    && MayAct(c, s, a) && CanAct(c, s, a) && !a.Tick?
    && (a.Do? && a.x.Lock? ==>
          !a.x.e.Enter? && !a.x.e.Read? && !a.x.e.Write? &&
          (a.x.e.Abort? ==> IsTx(s.both.lock.pcs[a.x.e.t]) && s.both.lock.pcs[a.x.e.t].tx.doomed))
    && NextSched(c, s, a) != s
  }

  ghost predicate CanMove(c: Config, s: Sched, t: nat) {
    exists a :: Progress(c, s, a) && Actor(a, t)
  }

  predicate Actor(a: Act, t: nat) {
    match a
    case Do(x, _) => Thread(x) == t
    case Delay(u, _) => u == t
    case Tick(_) => false
  }

  predicate Unfinished(s: Sched, t: nat)
    requires Shaped(s) && t < |s.waits|
  {
    !s.both.lock.pcs[t].Idle? || !s.waits[t].Free?
  }

  ghost predicate Good(c: Config, s: Sched) {
    BothOk(c, s.both) && Owned(s.both.lock) && BoardOk(c, s) && c.n == |s.both.lock.pcs|
  }

  lemma {:induction false} LockCanMove(c: Config, s: Sched, e: Event)
    requires Good(c, s) && e.t < c.n && s.waits[e.t].Free? && Enabled(c, s.both.lock, e)
    requires !e.Signal? && !e.Enter? && !e.Read? && !e.Write?
    requires e.Abort? ==> IsTx(s.both.lock.pcs[e.t]) && s.both.lock.pcs[e.t].tx.doomed
    requires Next(c, s.both.lock, e).pcs[e.t] != s.both.lock.pcs[e.t]
    ensures CanMove(c, s, e.t)
  {
    var a := Do(Lock(e), 0);
    AlwaysReady(c, s.both, Lock(e));
    assert Progress(c, s, a) && Actor(a, e.t);
  }

  lemma {:induction false} ObjectCanMove(c: Config, s: Sched, f: Tree.Event)
    requires Good(c, s) && f.t < c.n && s.waits[f.t].Free? && CanStep(s.both, Snzi(f))
    requires Ready(c, s.both, Snzi(f)) ==> Tree.Next(s.both.obj, f) != s.both.obj
    ensures CanMove(c, s, f.t)
  {
    var a := Do(Snzi(f), 0);
    AlwaysReady(c, s.both, Snzi(f));
    assert Progress(c, s, a) && Actor(a, f.t);
  }

  lemma {:induction false} DelayCanMove(c: Config, s: Sched, t: nat)
    requires Good(c, s) && t < c.n && !s.waits[t].Free?
    requires s.waits[t].Await? ==> At(s.clocks, s.waits[t].target) == 0
    requires s.waits[t].Pause? ==> s.now >= s.waits[t].until
    ensures CanMove(c, s, t)
  {
    var a := Delay(t, 1);
    assert NextSched(c, s, a).waits[t] != s.waits[t];
    assert Progress(c, s, a) && Actor(a, t);
  }

  // A leaf step or a root step of a running operation always moves it on.
  lemma {:induction false} OperationMoves(s: Tree.State, f: Tree.Event)
    requires Tree.Inv(s) && Tree.Enabled(s, f)
    ensures Tree.Next(s, f).pcs[f.t] != s.pcs[f.t] || Tree.Next(s, f).root.pcs[f.t] != s.root.pcs[f.t]
  {
    assert Tree.LeafOk(s, s.home[f.t]) && Tree.ThreadOk(s, f.t);
  }

  // Rank 0: a thread inside the indicator, or present at it.
  lemma {:induction false} OperationCanMove(c: Config, s: Sched, t: nat)
    requires Good(c, s) && t < c.n
    requires !s.both.obj.pcs[t].Idle? || !s.both.obj.root.pcs[t].Idle?
    ensures CanMove(c, s, t)
  {
    var p, q := s.both.lock.pcs[t], s.both.obj.pcs[t];
    assert Linked(p, q, s.both.obj.arrived[t], s.both.obj.leaving[t]) && Tree.ThreadOk(s.both.obj, t);
    assert WaitOk(s.waits[t], p, c.n);
    var f := if s.both.obj.root.pcs[t].Idle? then Tree.Go(t) else Tree.RootGo(t);
    if Tree.Enabled(s.both.obj, f) {
      OperationMoves(s.both.obj, f);
    }
    ObjectCanMove(c, s, f);
  }

  lemma {:induction false} PresentCanMove(c: Config, s: Sched, t: nat)
    requires Good(c, s) && t < c.n && (Present(s.both.lock.pcs[t]) || s.both.lock.pcs[t].RdLeave?)
    ensures CanMove(c, s, t)
  {
    var p := s.both.lock.pcs[t];
    assert Linked(p, s.both.obj.pcs[t], s.both.obj.arrived[t], s.both.obj.leaving[t]) && Tree.ThreadOk(s.both.obj, t);
    assert WaitOk(s.waits[t], p, c.n);
    if p.RdCheck? {
      LockCanMove(c, s, Go(t));
    } else if p.RdBody? {
      LockCanMove(c, s, SpRwl.Finish(t));
    } else if s.both.obj.pcs[t].Idle? {
      ObjectCanMove(c, s, Tree.Dec(t));
    } else {
      OperationCanMove(c, s, t);
    }
  }

  // Rank 1: the holder of the lock word waits only for a set indicator, and behind a set indicator
  // there is a thread of rank 0.
  lemma {:induction false} IndicatorCanMove(c: Config, s: Sched)
    requires Good(c, s) && Root.Query(s.both.obj.root)
    ensures exists t :: 0 <= t < c.n && CanMove(c, s, t)
  {
    var o := s.both.obj;
    if t :| 0 <= t < c.n && !o.pcs[t].Idle? {
      OperationCanMove(c, s, t);
    } else {
      Tree.QuietIndicator(o);
      var l :| 0 <= l < |o.leaves| && o.leaving[l] < o.arrived[l];
      assert Linked(s.both.lock.pcs[l], o.pcs[l], o.arrived[l], o.leaving[l]);
      PresentCanMove(c, s, l);
    }
  }

  lemma {:induction false} HolderCanMove(c: Config, s: Sched, t: nat)
    requires Good(c, s) && t < c.n && Holder(s.both.lock.pcs[t])
    ensures exists u :: 0 <= u < c.n && CanMove(c, s, u)
  {
    var p := s.both.lock.pcs[t];
    assert WaitOk(s.waits[t], p, c.n);
    if !s.waits[t].Free? {
      DelayCanMove(c, s, t);
    } else if p.GlBody? {
      LockCanMove(c, s, SpRwl.Finish(t));
    } else if p.k == 0 && Root.Query(s.both.obj.root) {
      IndicatorCanMove(c, s);
    } else {
      LockCanMove(c, s, Go(t));
    }
  }

  // Rank 2: a thread that waits for the lock word.
  lemma {:induction false} LockedCanMove(c: Config, s: Sched)
    requires Good(c, s) && s.both.lock.locked
    ensures exists u :: 0 <= u < c.n && CanMove(c, s, u)
  {
    var t :| 0 <= t < |s.both.lock.pcs| && Holder(s.both.lock.pcs[t]);
    HolderCanMove(c, s, t);
  }

  lemma {:induction false} TxCanMove(c: Config, s: Sched, t: nat)
    requires Good(c, s) && t < c.n && s.waits[t].Free? && (s.both.lock.pcs[t].TxSubscribe? || IsTx(s.both.lock.pcs[t]))
    ensures CanMove(c, s, t)
  {
    var p := s.both.lock.pcs[t];
    if p.TxSubscribe? {
      LockCanMove(c, s, Go(t));
    } else if p.tx.doomed {
      LockCanMove(c, s, Abort(t, OtherCause));
    } else if p.TxBody? {
      LockCanMove(c, s, SpRwl.Finish(t));
    } else {
      LockCanMove(c, s, Go(t));
    }
  }

  lemma {:induction false} FreeCanMove(c: Config, s: Sched, t: nat)
    requires Good(c, s) && t < c.n && s.waits[t].Free? && !s.both.lock.pcs[t].Idle?
    ensures exists u :: 0 <= u < c.n && CanMove(c, s, u)
  {
    var p := s.both.lock.pcs[t];
    assert Linked(p, s.both.obj.pcs[t], s.both.obj.arrived[t], s.both.obj.leaving[t]);
    if Present(p) || p.RdLeave? {
      PresentCanMove(c, s, t);
    } else if Holder(p) {
      HolderCanMove(c, s, t);
    } else if p.TxSubscribe? || IsTx(p) {
      TxCanMove(c, s, t);
    } else if p.RdArrive? && s.both.obj.pcs[t].Idle? {
      assert Tree.ThreadOk(s.both.obj, t);
      ObjectCanMove(c, s, Tree.Inc(t));
    } else if p.RdArrive? {
      OperationCanMove(c, s, t);
    } else if s.both.lock.locked {
      LockedCanMove(c, s);
    } else {
      LockCanMove(c, s, Go(t));
    }
  }

  // Rank 3: a thread in waiting code.  A pause ends by itself; a posted time that is waited for
  // belongs to a writer, which is of lower rank.
  lemma {:induction false} WriterCanMove(c: Config, s: Sched, t: nat)
    requires Good(c, s) && t < c.n && s.clocks[t] != 0
    requires s.waits[t].Pause? ==> s.now >= s.waits[t].until
    ensures exists u :: 0 <= u < c.n && CanMove(c, s, u)
  {
    assert WaitOk(s.waits[t], s.both.lock.pcs[t], c.n);
    if s.waits[t].Free? {
      FreeCanMove(c, s, t);
    } else {
      DelayCanMove(c, s, t);
    }
  }

  lemma {:induction false} SomeoneCanMove(c: Config, s: Sched, t: nat)
    requires Good(c, s) && t < c.n && Unfinished(s, t)
    requires forall u :: 0 <= u < c.n && s.waits[u].Pause? ==> s.now >= s.waits[u].until
    ensures exists u :: 0 <= u < c.n && CanMove(c, s, u)
  {
    assert WaitOk(s.waits[t], s.both.lock.pcs[t], c.n);
    if s.waits[t].Free? {
      FreeCanMove(c, s, t);
    } else if s.waits[t].Await? && At(s.clocks, s.waits[t].target) != 0 {
      WriterCanMove(c, s, s.waits[t].target);
    } else {
      DelayCanMove(c, s, t);
    }
  }

  // ---------- every reachable state ----------

  lemma {:induction false} GoodAlways(n: nat, retries: int, policy: int, m: Memory, now: int, acts: seq<Act>)
    requires LegalSched(BitConfig(n, retries, policy), m, now, acts)
    ensures Good(BitConfig(n, retries, policy), AfterSched(BitConfig(n, retries, policy), m, now, acts))
  {
    var c := BitConfig(n, retries, policy);
    Unscheduled(n, retries, policy, m, now, acts);
    Refines(n, retries, policy, m, Project(acts));
    OwnedAlways(c, m, Trace(c, m, Project(acts)));
    BoardAlways(n, retries, policy, m, now, acts);
  }

  lemma {:induction false} BoardAlways(n: nat, retries: int, policy: int, m: Memory, now: int, acts: seq<Act>)
    requires LegalSched(BitConfig(n, retries, policy), m, now, acts)
    ensures BoardOk(BitConfig(n, retries, policy), AfterSched(BitConfig(n, retries, policy), m, now, acts))
  {
    hide BothOk, Ready, Enabled, Next, StepBoth, CanStep, Legal, LegalBoth;
    if acts != [] {
      var c := BitConfig(n, retries, policy);
      BoardAlways(n, retries, policy, m, now, Front(acts));
      Unscheduled(n, retries, policy, m, now, Front(acts));
      Refines(n, retries, policy, m, Project(Front(acts)));
      var s := AfterSched(c, m, now, Front(acts));
      match Last(acts)
      case Do(x, until) =>
        AlwaysReady(c, s.both, x);
        BoardDo(c, s, x, until);
      case Delay(t, time) => BoardDelay(c, s, t, time);
      case Tick(_) =>
    }
  }

  function Latest(waits: seq<Wait>, now: int): int {
    if waits == [] then now
    else
      var rest := Latest(Front(waits), now);
      if Last(waits).Pause? && Last(waits).until > rest then Last(waits).until else rest
  }

  lemma {:induction false} LatestBounds(waits: seq<Wait>, now: int)
    ensures Latest(waits, now) >= now
    ensures forall t :: 0 <= t < |waits| && waits[t].Pause? ==> waits[t].until <= Latest(waits, now)
  {
    if waits != [] {
      LatestBounds(Front(waits), now);
    }
  }

  function Later(s: Sched, d: nat): Sched {
    s.(now := s.now + d)
  }

  // ---------- main results ----------

  // Deadlock freedom: in every reachable state with an unfinished operation, some thread can take
  // a step that is not a turn of a spin loop, at the latest when the running pauses are over.
  lemma {:induction false} NoDeadlock(n: nat, retries: int, policy: int, m: Memory, now: int, acts: seq<Act>, t: nat)
    requires LegalSched(BitConfig(n, retries, policy), m, now, acts)
    requires var s := AfterSched(BitConfig(n, retries, policy), m, now, acts);
      Shaped(s) && t < |s.waits| && Unfinished(s, t)
    ensures var c := BitConfig(n, retries, policy);
      exists d: nat, a :: Progress(c, Later(AfterSched(c, m, now, acts), d), a)
  {
    hide BothOk, Legal, LegalBoth, LegalSched, AfterSched, Progress;
    var c := BitConfig(n, retries, policy);
    var s := AfterSched(c, m, now, acts);
    GoodAlways(n, retries, policy, m, now, acts);
    LatestBounds(s.waits, s.now);
    var d: nat := Latest(s.waits, s.now) - s.now;
    SomeoneCanMove(c, Later(s, d), t);
    var u :| 0 <= u < c.n && CanMove(c, Later(s, d), u);
    var a :| Progress(c, Later(s, d), a) && Actor(a, u);
    assert Progress(c, Later(s, d), a);
  }

  // is_waiting is 0 or names a thread, and only writers in their section have a time posted; so
  // whoever waits for itself, or for a thread that has gone on, does not spin.
  lemma {:induction false} BoardIsSane(n: nat, retries: int, policy: int, m: Memory, now: int, acts: seq<Act>, t: nat)
    requires LegalSched(BitConfig(n, retries, policy), m, now, acts) && t < n
    ensures var s := AfterSched(BitConfig(n, retries, policy), m, now, acts);
      && Shaped(s) && |s.waits| == n
      && s.waiting[t] <= n
      && (s.clocks[t] != 0 ==> Writing(s.both.lock.pcs[t]) || s.waits[t].Unstamp?)
      && (s.waits[t].Await? ==> s.waits[t].target < n && s.clocks[t] == 0 && s.waiting[t] == s.waits[t].target + 1)
  {
    hide BothOk, Legal, LegalBoth, LegalSched, AfterSched;
    GoodAlways(n, retries, policy, m, now, acts);
    var s := AfterSched(BitConfig(n, retries, policy), m, now, acts);
    assert WaitOk(s.waits[t], s.both.lock.pcs[t], n);
  }
}
