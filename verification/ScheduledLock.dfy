/**
 The 10.2 lock with its scheduling: writers post the clock time at which they expect to end, a
 reader that gives up on transactions joins the wait of another reader or waits for the last of
 the posted writers, and a writer aborted by a reader pauses until a given time.

 The waiting code runs between the steps of SnziLock and never changes lock, object or memory, so
 every run of the scheduled lock is a run of SnziLock.  The times themselves are free: a writer
 posts any positive time and pauses until any time.
 */
module ScheduledLock {
  import opened Replay
  import opened SpRwl
  import opened SpRwlSafety
  import opened SnziLock
  import Tree = SnziTree

  datatype Wait =
    | Free                                             // not in waiting code
    | Stamp                                            // about to post the writer's time
    | Unstamp                                          // about to withdraw it
    | ScanFlag(i: nat, start: int, target: nat)        // about to read is_waiting[i]
    | ScanClock(i: nat, start: int, target: nat)       // about to compare clocks_w[i]
    | ScanTake(i: nat, start: int, target: nat)        // about to read clocks_w[i] again
    | Announce(target: nat)                            // about to set is_waiting
    | Await(target: nat)                               // spinning on clocks_w[target]
    | Retract                                          // about to clear is_waiting
    | Pause(until: int)                                // spinning on the clock

  datatype Sched = Sched(both: Both, waits: seq<Wait>, clocks: seq<int>, waiting: seq<nat>, now: int)

  datatype Act =
    | Do(x: Step, until: int)                          // a step of lock or object
    | Delay(t: nat, time: int)                         // a step of waiting code
    | Tick(d: nat)                                     // time passes

  function Thread(x: Step): nat {
    match x
    case Lock(e) => e.t
    case Snzi(f) => f.t
  }

  // The waiting code that follows a lock step from p to q.
  function Then(p: Pc, q: Pc, explicitAbort: bool, until: int): Wait {
    if p.WaitFree? && q.TxSubscribe? && !q.ro then Stamp
    else if p.GlScan? && q.GlBody? then Stamp
    else if q.RdArrive? && !p.RdArrive? && !p.RdWait? then ScanFlag(0, 0, 0)
    else if q.Idle? && (p.TxScan? || p.GlBody?) then Unstamp
    else if explicitAbort && p.TxScan? && (q.WaitFree? || q.GlAcquire?) then Pause(until)
    else Free
  }

  function At(clocks: seq<int>, i: nat): int {
    if i < |clocks| then clocks[i] else 0
  }

  predicate Shaped(s: Sched) {
    |s.waits| == |s.clocks| == |s.waiting| == |s.both.lock.pcs|
  }

  // A thread takes lock steps only outside its waiting code.
  predicate CanAct(c: Config, s: Sched, a: Act) {
    Shaped(s) &&
    match a
    case Do(x, _) => Thread(x) < |s.waits| && s.waits[Thread(x)].Free? && Ready(c, s.both, x)
    case Delay(t, time) => t < |s.waits| && !s.waits[t].Free? && (s.waits[t].Stamp? ==> time > 0)
    case Tick(_) => true
  }

  function NextSched(c: Config, s: Sched, a: Act): Sched
    requires CanAct(c, s, a)
  {
    match a
    case Do(x, until) =>
      var t, b := Thread(x), StepBoth(c, s.both, x);
      var after := if t < |b.lock.pcs| then Then(s.both.lock.pcs[t], b.lock.pcs[t], x == Lock(Go(t)), until) else Free;
      s.(both := b, waits := s.waits[t := after])
    case Delay(t, time) => WaitStep(s, t, time)
    case Tick(d) => s.(now := s.now + d)
  }

  function WaitStep(s: Sched, t: nat, time: int): Sched
    requires Shaped(s) && t < |s.waits|
  {
    match s.waits[t]
    case Free => s
    case Stamp => s.(clocks := s.clocks[t := time], waits := s.waits[t := Free])
    case Unstamp => s.(clocks := s.clocks[t := 0], waits := s.waits[t := Free])
    case ScanFlag(i, start, target) =>
      s.(waits := s.waits[t :=
        if i >= |s.waiting| then (if start != 0 then Announce(target) else Free)
        else if s.waiting[i] != 0 then Announce(s.waiting[i] - 1)
        else ScanClock(i, start, target)])
    case ScanClock(i, start, target) =>
      s.(waits := s.waits[t :=
        if At(s.clocks, i) > start then ScanTake(i, start, target) else ScanFlag(i + 1, start, target)])
    case ScanTake(i, start, target) => s.(waits := s.waits[t := ScanFlag(i + 1, At(s.clocks, i), i)])
    case Announce(target) => s.(waiting := s.waiting[t := target + 1], waits := s.waits[t := Await(target)])
    case Await(target) => if At(s.clocks, target) != 0 then s else s.(waits := s.waits[t := Retract])
    case Retract => s.(waiting := s.waiting[t := 0], waits := s.waits[t := Free])
    case Pause(until) => if s.now < until then s else s.(waits := s.waits[t := Free])
  }

  function InitSched(c: Config, m: Memory, now: int): Sched {
    Sched(InitBoth(c, m), seq(c.n, _ => Free), seq(c.n, _ => 0), seq(c.n, _ => 0), now)
  }

  function AfterSched(c: Config, m: Memory, now: int, acts: seq<Act>): Sched {
    if acts == [] then InitSched(c, m, now)
    else
      var s := AfterSched(c, m, now, Front(acts));
      if CanAct(c, s, Last(acts)) then NextSched(c, s, Last(acts)) else s
  }

  // A step of lock or object that the thread's code allows; no more is asked of the object.
  predicate MayDo(c: Config, s: Both, x: Step) {
    Tree.Shape(s.obj) && |s.obj.pcs| == |s.lock.pcs| && CanStep(s, x) && (x.Lock? ==> Enabled(c, s.lock, x.e))
  }

  predicate MayAct(c: Config, s: Sched, a: Act) {
    Shaped(s) &&
    match a
    case Do(x, _) => Thread(x) < |s.waits| && s.waits[Thread(x)].Free? && MayDo(c, s.both, x)
    case Delay(t, time) => t < |s.waits| && !s.waits[t].Free? && (s.waits[t].Stamp? ==> time > 0)
    case Tick(_) => true
  }

  ghost predicate LegalSched(c: Config, m: Memory, now: int, acts: seq<Act>) {
    acts == [] || (LegalSched(c, m, now, Front(acts)) && MayAct(c, AfterSched(c, m, now, Front(acts)), Last(acts)))
  }

  // ---------- every run is a run of SnziLock ----------

  function Project(acts: seq<Act>): seq<Step> {
    if acts == [] then []
    else Project(Front(acts)) + if Last(acts).Do? then [Last(acts).x] else []
  }

  lemma {:induction false} Unscheduled(n: nat, retries: int, policy: int, m: Memory, now: int, acts: seq<Act>)
    requires LegalSched(BitConfig(n, retries, policy), m, now, acts)
    ensures var c := BitConfig(n, retries, policy);
      && LegalBoth(c, m, Project(acts))
      && AfterBoth(c, m, Project(acts)) == AfterSched(c, m, now, acts).both
  {
    hide BothOk, Ready, Enabled, Next, StepBoth, CanStep, Legal, Then;
    if acts != [] {
      var c := BitConfig(n, retries, policy);
      Unscheduled(n, retries, policy, m, now, Front(acts));
      Refines(n, retries, policy, m, Project(Front(acts)));
      var s := AfterSched(c, m, now, Front(acts));
      if Last(acts).Do? {
        AlwaysReady(c, s.both, Last(acts).x);
        FrontOfAppend(Project(Front(acts)), Last(acts).x);
      } else {
        assert Project(acts) == Project(Front(acts));
      }
    }
  }

  // The scheduled lock is serialisable, and memory stands still while a reader is in its section.
  lemma {:induction false} ScheduledSerialisable(n: nat, retries: int, policy: int, m: Memory, now: int, acts: seq<Act>)
    requires LegalSched(BitConfig(n, retries, policy), m, now, acts)
    ensures Serial(m, AfterSched(BitConfig(n, retries, policy), m, now, acts).both.lock)
  {
    Unscheduled(n, retries, policy, m, now, acts);
    SnziLockSerialisable(n, retries, policy, m, Project(acts));
  }

  lemma {:induction false} ScheduledSnapshot(n: nat, retries: int, policy: int, m: Memory, now: int,
                                             acts: seq<Act>, a: Act, r: nat)
    requires LegalSched(BitConfig(n, retries, policy), m, now, acts + [a])
    requires var s := AfterSched(BitConfig(n, retries, policy), m, now, acts).both.lock;
      r < |s.pcs| && s.pcs[r].RdBody?
    ensures var c := BitConfig(n, retries, policy);
      AfterSched(c, m, now, acts + [a]).both.lock.mem == AfterSched(c, m, now, acts).both.lock.mem
  {
    hide BothOk, Ready, Enabled, Next, StepBoth, CanStep, Legal, LegalBoth;
    var c := BitConfig(n, retries, policy);
    FrontOfAppend(acts, a);
    Unscheduled(n, retries, policy, m, now, acts);
    Unscheduled(n, retries, policy, m, now, acts + [a]);
    if a.Do? {
      assert Project(acts + [a]) == Project(acts) + [a.x];
      SnziLockSnapshot(n, retries, policy, m, Project(acts), a.x, r);
    }
  }
}
