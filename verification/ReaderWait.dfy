/**
 What the waiting code of the 10.2 lock does, said over the scheduling words alone: whom a reader waits
 for, how long, and which sections post a time.
 */
module ReaderWait {
  import opened Replay
  import opened Htm
  import opened SpRwl
  import opened SpRwlEvents
  import opened SnziLock
  import opened ScheduledLock
  import opened ScheduleProgress

  // The state after k steps of t's waiting code, with nobody else taking a step.
  function WaitSteps(s: Sched, t: nat, k: nat): Sched
    requires Shaped(s) && t < |s.waits|
    ensures Shaped(WaitSteps(s, t, k)) && |WaitSteps(s, t, k).waits| == |s.waits|
  {
    if k == 0 then s else WaitStep(WaitSteps(s, t, k - 1), t, 0)
  }

  lemma {:induction false} WaitStepsOn(s: Sched, t: nat, j: nat, k: nat)
    requires Shaped(s) && t < |s.waits|
    ensures WaitSteps(WaitSteps(s, t, j), t, k) == WaitSteps(s, t, j + k)
  {
    hide WaitStep;
    if k > 0 {
      WaitStepsOn(s, t, j, k - 1);
    }
  }

  // ---------- whom a reader waits for ----------

  // Nobody before i has announced a wait.
  predicate NoneWaits(waiting: seq<nat>, i: nat)
    requires i <= |waiting|
  {
    forall j :: 0 <= j < i ==> waiting[j] == 0
  }

  // The thread at target has the latest of the times posted before i, and is the first with it.
  predicate IsLatest(clocks: seq<int>, i: nat, target: nat)
    requires i <= |clocks|
  {
    && target < i && clocks[target] > 0
    && (forall j :: 0 <= j < i ==> clocks[j] <= clocks[target])
    && (forall j :: 0 <= j < target ==> clocks[j] < clocks[target])
  }

  predicate NonePosts(clocks: seq<int>, i: nat)
    requires i <= |clocks|
  {
    forall j :: 0 <= j < i ==> clocks[j] <= 0
  }

  // Where the scan ends: a reader joins the wait of the first thread that waits; if there is none, it
  // waits for the writer with the latest posted time; if there is none either, it does not wait.
  ghost predicate Picks(waiting: seq<nat>, clocks: seq<int>, w: Wait)
    requires |waiting| == |clocks|
  {
    if NoneWaits(waiting, |waiting|) then
      if NonePosts(clocks, |clocks|) then w == Free
      else w.Announce? && IsLatest(clocks, |clocks|, w.target)
    else exists i :: 0 <= i < |waiting| && NoneWaits(waiting, i) && waiting[i] != 0 && w == Announce(waiting[i] - 1)
  }

  // What the scan knows when it is about to look at thread i.
  predicate ScanKnows(clocks: seq<int>, i: nat, start: int, target: nat)
    requires i <= |clocks|
  {
    if start == 0 then NonePosts(clocks, i) else IsLatest(clocks, i, target) && start == clocks[target]
  }

  lemma {:induction false} ScanOne(s: Sched, t: nat, i: nat, start: int, target: nat)
    returns (k: nat, start': int, target': nat)
    requires Shaped(s) && t < |s.waits| && s.waits[t] == ScanFlag(i, start, target) && i < |s.waiting|
    requires s.waiting[i] == 0 && ScanKnows(s.clocks, i, start, target)
    ensures 2 <= k <= 3 && ScanKnows(s.clocks, i + 1, start', target')
    ensures WaitSteps(s, t, k) == s.(waits := s.waits[t := ScanFlag(i + 1, start', target')])
  {
    assert WaitSteps(s, t, 1) == WaitStep(WaitSteps(s, t, 0), t, 0) ==
      s.(waits := s.waits[t := ScanClock(i, start, target)]);
    if s.clocks[i] > start {
      assert WaitSteps(s, t, 2).waits == s.waits[t := ScanTake(i, start, target)];
      assert WaitSteps(s, t, 3).waits == s.waits[t := ScanFlag(i + 1, s.clocks[i], i)];
      k, start', target' := 3, s.clocks[i], i;
    } else {
      assert WaitSteps(s, t, 2).waits == s.waits[t := ScanFlag(i + 1, start, target)];
      k, start', target' := 2, start, target;
    }
  }

  // The scan from thread i on.
  lemma {:induction false} ScanFrom(s: Sched, t: nat, i: nat, start: int, target: nat) returns (k: nat, w: Wait)
    requires Shaped(s) && t < |s.waits| && s.waits[t] == ScanFlag(i, start, target) && i <= |s.waiting|
    requires NoneWaits(s.waiting, i) && ScanKnows(s.clocks, i, start, target)
    ensures k <= 3 * (|s.waiting| - i) + 1 && Picks(s.waiting, s.clocks, w)
    ensures WaitSteps(s, t, k) == s.(waits := s.waits[t := w])
    decreases |s.waiting| - i
  {
    hide WaitStep, Picks;
    if i < |s.waiting| && s.waiting[i] == 0 {
      var j, start', target' := ScanOne(s, t, i, start, target);
      var s1 := s.(waits := s.waits[t := ScanFlag(i + 1, start', target')]);
      var k1;
      k1, w := ScanFrom(s1, t, i + 1, start', target');
      WaitStepsOn(s, t, j, k1);
      assert s1.waits[t := w] == s.waits[t := w];
      k := j + k1;
    } else {
      k := 1;
      w := ScanStops(s, t, i, start, target);
    }
  }

  lemma {:induction false} ScanStops(s: Sched, t: nat, i: nat, start: int, target: nat) returns (w: Wait)
    requires Shaped(s) && t < |s.waits| && s.waits[t] == ScanFlag(i, start, target) && i <= |s.waiting|
    requires NoneWaits(s.waiting, i) && ScanKnows(s.clocks, i, start, target)
    requires i == |s.waiting| || s.waiting[i] != 0
    ensures Picks(s.waiting, s.clocks, w) && WaitSteps(s, t, 1) == s.(waits := s.waits[t := w])
  {
    assert WaitSteps(s, t, 1) == WaitStep(WaitSteps(s, t, 0), t, 0);
    w := WaitSteps(s, t, 1).waits[t];
  }

  // A whole scan over a board that stands still ends within 3 n + 1 steps, has changed nothing but the
  // reader's own place, and has picked whom to wait for.
  lemma {:induction false} ScanPicks(s: Sched, t: nat) returns (k: nat, w: Wait)
    requires Shaped(s) && t < |s.waits| && s.waits[t] == ScanFlag(0, 0, 0)
    ensures k <= 3 * |s.waiting| + 1 && Picks(s.waiting, s.clocks, w)
    ensures WaitSteps(s, t, k) == s.(waits := s.waits[t := w])
  {
    k, w := ScanFrom(s, t, 0, 0, 0);
  }

  // ---------- how long ----------

  // A reader that has picked somebody announces it; while that thread has a time posted it stays, and
  // once the time is withdrawn it takes back the announcement and goes on.
  lemma {:induction false} WaitsUntilWithdrawn(s: Sched, t: nat, target: nat, k: nat)
    requires Shaped(s) && t < |s.waits| && s.waits[t] == Announce(target) && target < |s.clocks|
    ensures var s1 := s.(waiting := s.waiting[t := target + 1], waits := s.waits[t := Await(target)]);
      && (s.clocks[target] != 0 && k >= 1 ==> WaitSteps(s, t, k) == s1)
      && (s.clocks[target] == 0 ==>
            WaitSteps(s, t, 3) == s.(waiting := s.waiting[t := 0], waits := s.waits[t := Free]))
  {
    var s1 := s.(waiting := s.waiting[t := target + 1], waits := s.waits[t := Await(target)]);
    assert WaitSteps(s, t, 1) == WaitStep(WaitSteps(s, t, 0), t, 0) == s1;
    if s.clocks[target] != 0 {
      if k > 1 {
        WaitsUntilWithdrawn(s, t, target, k - 1);
      }
    } else {
      assert WaitSteps(s, t, 2) == s1.(waits := s1.waits[t := Retract]);
      assert WaitSteps(s, t, 3).waits == s.waits[t := Free] && WaitSteps(s, t, 3).waiting == s.waiting[t := 0];
    }
  }

  // Whatever the others do, a waiting reader goes on only at a step of its own that finds the time of
  // its target withdrawn, and a pausing writer only when its time has come.
  lemma {:induction false} OnlyThenGoesOn(c: Config, s: Sched, a: Act, t: nat)
    requires CanAct(c, s, a) && t < |s.waits| && (s.waits[t].Await? || s.waits[t].Pause?)
    ensures var s' := NextSched(c, s, a);
      |s'.waits| == |s.waits| &&
      (s'.waits[t] != s.waits[t] <==>
         a.Delay? && a.t == t &&
         if s.waits[t].Await? then At(s.clocks, s.waits[t].target) == 0 else s.waits[t].until <= s.now)
  {
    hide Ready, StepBoth, Enabled, Next;
  }

  // ---------- who posts a time ----------

  // In its transaction, or in its section under the fallback lock.
  predicate WritesNow(p: Pc) {
    ((p.TxSubscribe? || p.TxBody?) && !p.ro) || p.TxScan? || p.GlBody?
  }

  ghost predicate PostOk(c: Config, s: Sched) {
    && Shaped(s) && |s.waits| == c.n
    && forall t :: 0 <= t < c.n && s.waits[t].Free? && WritesNow(s.both.lock.pcs[t]) ==> s.clocks[t] > 0
  }

  // A step into such a place from elsewhere is followed by the posting of a time.
  lemma {:induction false} StampsFirst(c: Config, s: State, e: Event, until: int)
    requires Enabled(c, s, e)
    ensures var p, q := s.pcs[e.t], Next(c, s, e).pcs[e.t];
      |Next(c, s, e).pcs| == |s.pcs| && (WritesNow(q) ==> WritesNow(p) || Then(p, q, e == Go(e.t), until).Stamp?)
  {
    hide Doom, DoomCells, Hit, Spend, TxRead, TxAfterRead, TxAfterWrite;
  }

  lemma {:induction false} PostsDo(c: Config, s: Sched, x: Step, until: int)
    requires PostOk(c, s) && CanAct(c, s, Do(x, until))
    ensures PostOk(c, NextSched(c, s, Do(x, until)))
  {
    var s', t, e := NextSched(c, s, Do(x, until)), Thread(x), StepOf(s.both, x);
    assert e.t == t && Enabled(c, s.both.lock, e) && (e == Go(t) <==> x == Lock(Go(t)));
    assert s'.both.lock == Next(c, s.both.lock, e);
    StampsFirst(c, s.both.lock, e, until);
    hide Enabled, Next, StepOf, Ready, StepBoth, Then;
    forall u | 0 <= u < c.n && s'.waits[u].Free? && WritesNow(s'.both.lock.pcs[u])
      ensures s'.clocks[u] > 0
    {
      if u != t {
        OthersStay(c, s.both.lock, e, u);
      }
    }
  }

  lemma {:induction false} PostsDelay(c: Config, s: Sched, t: nat, time: int)
    requires PostOk(c, s) && CanAct(c, s, Delay(t, time)) && WaitOk(s.waits[t], s.both.lock.pcs[t], c.n)
    ensures PostOk(c, NextSched(c, s, Delay(t, time)))
  {
  }

  // In every run a writer outside its waiting code has a time posted throughout its transaction or its
  // section, and a reader or an idle thread outside its waiting code has none.
  lemma {:induction false} WritersPost(n: nat, retries: int, policy: int, m: Memory, now: int, acts: seq<Act>, t: nat)
    requires LegalSched(BitConfig(n, retries, policy), m, now, acts) && t < n
    ensures PostOk(BitConfig(n, retries, policy), AfterSched(BitConfig(n, retries, policy), m, now, acts))
    ensures var s := AfterSched(BitConfig(n, retries, policy), m, now, acts);
      && Shaped(s) && |s.waits| == n
      && (s.waits[t].Free? && WritesNow(s.both.lock.pcs[t]) ==> s.clocks[t] > 0)
      && (s.waits[t].Free? && !Writing(s.both.lock.pcs[t]) ==> s.clocks[t] == 0)
  {
    hide BothOk, Ready, Enabled, Next, StepBoth, CanStep, Legal, LegalBoth;
    var c := BitConfig(n, retries, policy);
    BoardAlways(n, retries, policy, m, now, acts);
    if acts != [] {
      WritersPost(n, retries, policy, m, now, Front(acts), t);
      BoardAlways(n, retries, policy, m, now, Front(acts));
      Unscheduled(n, retries, policy, m, now, Front(acts));
      Refines(n, retries, policy, m, Project(Front(acts)));
      var s := AfterSched(c, m, now, Front(acts));
      match Last(acts)
      case Do(x, until) =>
        AlwaysReady(c, s.both, x);
        PostsDo(c, s, x, until);
      case Delay(u, time) =>
        assert WaitOk(s.waits[u], s.both.lock.pcs[u], n);
        PostsDelay(c, s, u, time);
      case Tick(_) =>
    }
  }

  // Read mode begins with a scan, and a reader that has backed off does not scan again; a writer that
  // finds a reader at its end pauses; nobody else waits.
  lemma {:induction false} WaitsBegin(c: Config, s: Sched, x: Step, until: int)
    requires CanAct(c, s, Do(x, until))
    ensures var s', t := NextSched(c, s, Do(x, until)), Thread(x);
      && |s'.both.lock.pcs| == |s.both.lock.pcs| == |s'.waits|
      && var p, q, w := s.both.lock.pcs[t], s'.both.lock.pcs[t], s'.waits[t];
         && (!ReadMode(p) && ReadMode(q) ==> q.RdArrive? && w == ScanFlag(0, 0, 0))
         && (ReadMode(p) ==> w.Free?)
         && (p.TxScan? && p.k < |s.both.lock.cells| && s.both.lock.cells[p.k] && x == Lock(Go(t)) ==> w == Pause(until))
  {
    hide Doom, DoomCells, Hit, Spend, TxRead, TxAfterRead, TxAfterWrite;
    var e := StepOf(s.both, x);
    assert e.t == Thread(x) && Enabled(c, s.both.lock, e);
  }
}
