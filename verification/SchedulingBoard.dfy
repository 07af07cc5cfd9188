/** The scheduling words of the 10.2 lock, changed in place by the atomic steps of the waiting code. */
module SchedulingBoard {
  import opened Replay
  import opened SpRwl
  import opened SnziLock
  import opened ScheduledLock
  import opened ScheduleProgress

  class ScheduledRwLock {
    const conf: Config
    const clocksW: array<int>
    const isWaiting: array<nat>
    var both: Both
    var waits: seq<Wait>
    var now: int
    ghost const start: Memory
    ghost const epoch: int
    ghost var trace: seq<Act>

    ghost function View(): Sched
      reads this, clocksW, isWaiting
    {
      Sched(both, waits, clocksW[..], isWaiting[..], now)
    }

    // The object is where a run of the scheduled lock has led.
    ghost predicate Valid()
      reads this, clocksW, isWaiting
    {
      && conf == BitConfig(conf.n, conf.retries, conf.policy)
      && LegalSched(conf, start, epoch, trace)
      && View() == AfterSched(conf, start, epoch, trace)
      && clocksW.Length == isWaiting.Length == |waits| == |both.lock.pcs| == conf.n
    }

    constructor (n: nat, retries: int, policy: int, m: Memory, now: int)
      ensures Valid() && fresh(clocksW) && fresh(isWaiting) && start == m
      ensures conf == BitConfig(n, retries, policy) && View() == InitSched(conf, m, now)
    {
      conf := BitConfig(n, retries, policy);
      clocksW := new int[n](_ => 0);
      isWaiting := new nat[n](_ => 0);
      both := InitBoth(BitConfig(n, retries, policy), m);
      waits := seq(n, _ => Free);
      this.now := now;
      start := m;
      epoch := now;
      trace := [];
    }

    lemma Advanced(a: Act, s: Sched)
      requires conf == BitConfig(conf.n, conf.retries, conf.policy)
      requires LegalSched(conf, start, epoch, trace) && s == AfterSched(conf, start, epoch, trace) && MayAct(conf, s, a)
      ensures CanAct(conf, s, a)
      ensures LegalSched(conf, start, epoch, trace + [a])
      ensures AfterSched(conf, start, epoch, trace + [a]) == NextSched(conf, s, a)
    {
      hide BothOk, Ready, Enabled, Next, StepBoth, CanStep, Legal, LegalBoth;
      FrontOfAppend(trace, a);
      if a.Do? {
        Unscheduled(conf.n, conf.retries, conf.policy, start, epoch, trace);
        Refines(conf.n, conf.retries, conf.policy, start, Project(trace));
        AlwaysReady(conf, s.both, a.x);
      }
    }

    // While a reader is in its section no step changes memory.
    lemma ReaderKeepsMemory(x: Step, until: int, r: nat)
      requires Valid() && MayAct(conf, View(), Do(x, until)) && CanAct(conf, View(), Do(x, until))
      requires r < |both.lock.pcs| && both.lock.pcs[r].RdBody?
      ensures StepBoth(conf, both, x).lock.mem == both.lock.mem
    {
      hide BothOk, Enabled, Next, StepBoth, CanStep, Legal, LegalBoth;
      FrontOfAppend(trace, Do(x, until));
      Advanced(Do(x, until), View());
      ScheduledSnapshot(conf.n, conf.retries, conf.policy, start, epoch, trace, Do(x, until), r);
    }

    // A step of lock or object outside the waiting code.
    method Advance(x: Step, until: int)
      requires Valid() && MayAct(conf, View(), Do(x, until))
      modifies this`both, this`waits, this`trace
      ensures CanAct(conf, old(View()), Do(x, until)) && View() == NextSched(conf, old(View()), Do(x, until))
      ensures Valid() && trace == old(trace) + [Do(x, until)]
      ensures forall r :: 0 <= r < |old(both).lock.pcs| && old(both).lock.pcs[r].RdBody? ==>
        both.lock.mem == old(both).lock.mem
    {
      hide Ready, Enabled, Next, LegalSched, AfterSched, MayDo;
      Advanced(Do(x, until), View());
      forall r | 0 <= r < |both.lock.pcs| && both.lock.pcs[r].RdBody?
        ensures StepBoth(conf, both, x).lock.mem == both.lock.mem
      {
        ReaderKeepsMemory(x, until, r);
      }
      trace := trace + [Do(x, until)];
      BoardAlways(conf.n, conf.retries, conf.policy, start, epoch, trace);
      var t, b := Thread(x), StepBoth(conf, both, x);
      if t < |b.lock.pcs| {
        waits := waits[t := Then(both.lock.pcs[t], b.lock.pcs[t], x == Lock(Go(t)), until)];
      }
      both := b;
    }

    // START_RDTSC_W2 and END_RDTSC_W2: the store to the writer's own clock.
    method PostTime(t: nat, time: int)
      requires Valid() && t < conf.n && ((waits[t].Stamp? && time > 0) || waits[t].Unstamp?)
      modifies this`waits, this`trace, clocksW
      ensures Valid() && View() == WaitStep(old(View()), t, time) && trace == old(trace) + [Delay(t, time)]
      ensures clocksW[t] == if old(waits)[t].Stamp? then time else 0
    {
      hide LegalSched, AfterSched;
      ghost var was := View();
      Advanced(Delay(t, time), was);
      trace := trace + [Delay(t, time)];
      clocksW[t] := if waits[t].Stamp? then time else 0;
      assert clocksW[..] == was.clocks[t := clocksW[t]];
      waits := waits[t := Free];
    }

    // READER_WAIT_FUNCTION: one step of the scan.
    method Scan(t: nat)
      requires Valid() && t < conf.n && (waits[t].ScanFlag? || waits[t].ScanClock? || waits[t].ScanTake?)
      modifies this`waits, this`trace
      ensures Valid() && View() == WaitStep(old(View()), t, 0) && trace == old(trace) + [Delay(t, 0)]
    {
      hide LegalSched, AfterSched;
      InRange(t);
      Advanced(Delay(t, 0), View());
      trace := trace + [Delay(t, 0)];
      match waits[t]
      case ScanFlag(i, startTime, target) =>
        if i >= isWaiting.Length {
          waits := waits[t := if startTime != 0 then Announce(target) else Free];
        } else {
          var temp := isWaiting[i];
          waits := waits[t := if temp != 0 then Announce(temp - 1) else ScanClock(i, startTime, target)];
        }
      case ScanClock(i, startTime, target) =>
        var later := clocksW[i] > startTime;
        waits := waits[t := if later then ScanTake(i, startTime, target) else ScanFlag(i + 1, startTime, target)];
      case ScanTake(i, startTime, target) =>
        waits := waits[t := ScanFlag(i + 1, clocksW[i], i)];
    }

    // READER_WAIT_FUNCTION: announce the wait, spin, withdraw it.
    method Join(t: nat)
      requires Valid() && t < conf.n && (waits[t].Announce? || waits[t].Await? || waits[t].Retract?)
      modifies this`waits, this`trace, isWaiting
      ensures Valid() && View() == WaitStep(old(View()), t, 0) && trace == old(trace) + [Delay(t, 0)]
      ensures waits[t].Await? ==> waits[t].target < conf.n && isWaiting[t] == waits[t].target + 1 && clocksW[t] == 0
      ensures waits[t].Free? ==> isWaiting[t] == 0
    {
      hide LegalSched, AfterSched;
      InRange(t);
      ghost var was := View();
      Advanced(Delay(t, 0), was);
      trace := trace + [Delay(t, 0)];
      match waits[t] {
        case Announce(target) =>
          isWaiting[t] := target + 1;
          assert isWaiting[..] == was.waiting[t := target + 1];
          waits := waits[t := Await(target)];
        case Await(target) =>
          if clocksW[target] == 0 {
            waits := waits[t := Retract];
          }
        case Retract =>
          isWaiting[t] := 0;
          assert isWaiting[..] == was.waiting[t := 0];
          waits := waits[t := Free];
      }
      Announced(t);
    }

    // Whoever waits has announced whom it waits for and has no time posted itself.
    lemma Announced(t: nat)
      requires Valid() && t < conf.n
      ensures waits[t].Await? ==> waits[t].target < conf.n && isWaiting[t] == waits[t].target + 1 && clocksW[t] == 0
    {
      hide LegalSched, AfterSched;
      BoardIsSane(conf.n, conf.retries, conf.policy, start, epoch, trace, t);
      assert View().waiting[t] == isWaiting[t] && View().clocks[t] == clocksW[t];
    }

    // WRITER_WAIT_FUNCTION: one look at the clock.
    method Rest(t: nat)
      requires Valid() && t < conf.n && waits[t].Pause?
      modifies this`waits, this`trace
      ensures Valid() && View() == WaitStep(old(View()), t, 0) && trace == old(trace) + [Delay(t, 0)]
    {
      hide LegalSched, AfterSched;
      Advanced(Delay(t, 0), View());
      trace := trace + [Delay(t, 0)];
      if waits[t].until <= now {
        waits := waits[t := Free];
      }
    }

    // The indices that the waiting code reads are thread indices.
    lemma InRange(t: nat)
      requires Valid() && t < conf.n
      ensures waits[t].ScanClock? || waits[t].ScanTake? ==> waits[t].i < conf.n
      ensures waits[t].Await? ==> waits[t].target < conf.n
    {
      hide LegalSched, AfterSched, BothOk;
      BoardAlways(conf.n, conf.retries, conf.policy, start, epoch, trace);
      assert WaitOk(waits[t], both.lock.pcs[t], conf.n);
    }
  }
}
