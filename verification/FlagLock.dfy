/**
 The base lock (10.02): the readers' indicator is an array with one flag per thread.

 The flag array keeps the indicator contract by itself, so every result of SpRwlSafety holds of
 every run.  Class SpecRwLock is the lock with its shared words changed in place, one atomic step
 per method call.
 */
module FlagLock {
  import opened Replay
  import opened Htm
  import opened SpRwl
  import opened SpRwlSafety
  import opened Requests
  import opened SpRwlEvents

  // One flag per thread.
  function FlagConfig(n: nat, retries: int, policy: int): Config {
    Config(n, n, seq(n, i => i), retries, policy)
  }

  // A store to the thread's own flag.
  function StoreEvent(cells: seq<bool>, t: nat, up: bool): Event
    requires t < |cells|
  {
    Signal(t, cells[t := up], {t}, true)
  }

  // An arriving thread stores 1 in its own flag, a leaving one stores 0; nothing else writes flags.
  function FlagStore(s: State, t: nat): Event
    requires t < |s.pcs| && t < |s.cells|
  {
    StoreEvent(s.cells, t, s.pcs[t].RdArrive?)
  }

  predicate FlagEvent(s: State, e: Event) {
    e.Signal? ==> e.t < |s.pcs| && e.t < |s.cells| && e == FlagStore(s, e.t)
  }

  ghost predicate FlagLegal(c: Config, m: Memory, es: seq<Event>) {
    es == [] ||
    (FlagLegal(c, m, Front(es)) && Enabled(c, After(c, m, Front(es)), Last(es)) &&
     FlagEvent(After(c, m, Front(es)), Last(es)))
  }

  // A flag is set exactly between the store of 1 and the store of 0.
  ghost predicate FlagsMirror(s: State) {
    |s.cells| == |s.pcs| &&
    forall t :: 0 <= t < |s.pcs| ==> (s.cells[t] <==> Flagged(s.pcs[t]))
  }

  predicate Flagged(p: Pc) {
    Present(p) || p.RdLeave?
  }

  lemma {:induction false} FlagStepOwn(c: Config, s: State, e: Event)
    requires FlagsMirror(s) && Enabled(c, s, e) && FlagEvent(s, e)
    ensures var s' := Next(c, s, e);
      && |s'.cells| == |s'.pcs| == |s.pcs| && (s'.cells[e.t] <==> Flagged(s'.pcs[e.t]))
      && s'.cells == s.cells[e.t := s'.cells[e.t]]
  {
    hide Doom, DoomCells, Hit, TxRead, TxAfterRead, TxAfterWrite, Get, Fresh;
    assert s.cells[e.t] <==> Flagged(s.pcs[e.t]);
  }

  lemma {:induction false} FlagStep(c: Config, s: State, e: Event)
    requires FlagsMirror(s) && Enabled(c, s, e) && FlagEvent(s, e)
    requires c.cells == c.n == |s.pcs| && c.cellOf == seq(c.n, i => i)
    ensures FlagsMirror(Next(c, s, e)) && IndicatorHolds(c, Next(c, s, e))
  {
    FlagStepOwn(c, s, e);
    hide Next, Enabled;
    var s' := Next(c, s, e);
    forall u | 0 <= u < |s'.pcs|
      ensures s'.cells[u] <==> Flagged(s'.pcs[u])
    {
      if u != e.t {
        OthersStay(c, s, e, u);
        assert s.cells[u] <==> Flagged(s.pcs[u]);
      }
    }
  }

  // The flag array keeps the indicator contract in every run.
  lemma {:induction false} FlagsKeepContract(n: nat, retries: int, policy: int, m: Memory, es: seq<Event>)
    requires FlagLegal(FlagConfig(n, retries, policy), m, es)
    ensures var c := FlagConfig(n, retries, policy);
      Legal(c, m, es) && FlagsMirror(After(c, m, es)) && |After(c, m, es).pcs| == n
  {
    var c := FlagConfig(n, retries, policy);
    if es != [] {
      FlagsKeepContract(n, retries, policy, m, Front(es));
      FlagStep(c, After(c, m, Front(es)), Last(es));
    }
  }

  // Every run of the flag-array lock is serialisable.
  lemma {:induction false} FlagLockSerialisable(n: nat, retries: int, policy: int, m: Memory, es: seq<Event>)
    requires FlagLegal(FlagConfig(n, retries, policy), m, es)
    ensures Serial(m, After(FlagConfig(n, retries, policy), m, es))
  {
    FlagsKeepContract(n, retries, policy, m, es);
    Serialisable(FlagConfig(n, retries, policy), m, es);
  }

  /** The lock object: its words are updated in place by the atomic steps of n threads. */
  class SpecRwLock {
    const conf: Config
    const readerLocks: array<bool>
    var writerLock: bool
    var mem: Memory
    var pcs: seq<Pc>
    var hist: seq<Section>
    ghost const start: Memory
    ghost var trace: seq<Event>

    ghost function View(): State
      reads this, readerLocks
    {
      State(writerLock, readerLocks[..], mem, pcs, hist)
    }

    // The object is where a run of the lock has led.
    ghost predicate Valid()
      reads this, readerLocks
    {
      && conf == FlagConfig(conf.n, conf.retries, conf.policy)
      && FlagLegal(conf, start, trace)
      && View() == After(conf, start, trace)
      && |pcs| == conf.n == readerLocks.Length
    }

    constructor (n: nat, retries: int, policy: int, m: Memory)
      ensures Valid() && fresh(readerLocks)
      ensures conf == FlagConfig(n, retries, policy) && start == m && View() == Init(conf, m)
    {
      conf := FlagConfig(n, retries, policy);
      readerLocks := new bool[n](_ => false);
      writerLock := false;
      mem := m;
      pcs := seq(n, _ => Idle);
      hist := [];
      start := m;
      trace := [];
    }

    // The trace grows by one event and the state by one step.
    lemma {:induction false} Advanced(e: Event, s: State)
      requires conf == FlagConfig(conf.n, conf.retries, conf.policy)
      requires FlagLegal(conf, start, trace) && s == After(conf, start, trace)
      requires Enabled(conf, s, e) && FlagEvent(s, e)
      ensures FlagLegal(conf, start, trace + [e]) && After(conf, start, trace + [e]) == Next(conf, s, e)
    {
      FrontOfAppend(trace, e);
    }

    // TM_BEGIN: a fresh retry budget.
    method Begin(t: nat, ro: bool)
      requires Valid() && t < |pcs| && pcs[t].Idle?
      modifies this
      ensures Valid() && View() == Next(conf, old(View()), Enter(t, ro)) && trace == old(trace) + [Enter(t, ro)]
      ensures pcs[t] == WaitFree(ro, conf.retries)
    {
      hide FlagLegal, After, Doom, DoomCells;
      Advanced(Enter(t, ro), View());
      trace := trace + [Enter(t, ro)];
      pcs := pcs[t := WaitFree(ro, conf.retries)];
    }

    // A data read of the running section.
    method ReadWord(t: nat, a: int) returns (v: int)
      requires Valid() && Enabled(conf, View(), Read(t, a))
      modifies this
      ensures Valid() && View() == Next(conf, old(View()), Read(t, a)) && trace == old(trace) + [Read(t, a)]
      ensures v == Answer(mem, Asked(old(trace), t), a)
    {
      AnswerIsRead(t, a);
      hide FlagLegal, After, Doom, DoomCells;
      Advanced(Read(t, a), View());
      trace := trace + [Read(t, a)];
      var p := pcs[t];
      pcs := Doom(pcs, t, Data(a), false);
      if p.TxBody? {
        v := TxRead(mem, p.tx, a);
        pcs := pcs[t := TxBody(p.ro, p.tries, TxAfterRead(mem, p.tx, a))];
      } else {
        v := Get(mem, a);
        if p.GlBody? {
          pcs := pcs[t := GlBody(p.log + [Rd(a, v)])];
        } else {
          pcs := pcs[t := RdBody(p.log + [Rd(a, v)])];
        }
      }
    }

    // A data write: buffered in a transaction, in place under the fallback lock.
    method WriteWord(t: nat, a: int, v: int)
      requires Valid() && Enabled(conf, View(), Write(t, a, v))
      modifies this
      ensures Valid() && View() == Next(conf, old(View()), Write(t, a, v)) && trace == old(trace) + [Write(t, a, v)]
      ensures Asked(trace, t) == Asked(old(trace), t) + [Store(a, v)]
      ensures Records(if pcs[t].TxBody? then pcs[t].tx.log else pcs[t].log, Asked(trace, t))
    {
      hide FlagLegal, After, Doom, DoomCells;
      Advanced(Write(t, a, v), View());
      trace := trace + [Write(t, a, v)];
      var p := pcs[t];
      pcs := Doom(pcs, t, Data(a), true);
      if p.TxBody? {
        pcs := pcs[t := TxBody(p.ro, p.tries, TxAfterWrite(p.tx, a, v))];
      } else {
        mem := mem[a := v];
        pcs := pcs[t := GlBody(p.log + [Wr(a, v)])];
      }
      FrontOfAppend(old(trace), Write(t, a, v));
      LogsOk(t);
    }

    // The log of a thread in its section is what it has asked for.
    lemma LogsOk(t: nat)
      requires Valid() && t < |pcs|
      ensures LogOk(pcs[t], Asked(trace, t), Closed(trace, t))
    {
      FlagsKeepContract(conf.n, conf.retries, conf.policy, start, trace);
      LogsAreRequests(conf, start, trace);
      assert View().pcs[t] == pcs[t];
    }

    // What a read finds is what the section stored there last, or else what memory holds.
    lemma AnswerIsRead(t: nat, a: int)
      requires Valid() && Enabled(conf, View(), Read(t, a))
      ensures Answer(mem, Asked(trace, t), a) ==
        if pcs[t].TxBody? then TxRead(mem, pcs[t].tx, a) else Get(mem, a)
    {
      FlagsKeepContract(conf.n, conf.retries, conf.policy, start, trace);
      hide FlagLegal, Legal, After, Asked;
      ReadAnswers(conf, start, trace, t, a);
      var p, q := pcs[t], Next(conf, View(), Read(t, a)).pcs[t];
      assert Last(if q.TxBody? then q.tx.log else q.log) == Rd(a, Answer(mem, Asked(trace, t), a));
    }

    // TM_END: the first step of the release.
    method End(t: nat)
      requires Valid() && Enabled(conf, View(), SpRwl.Finish(t))
      modifies this
      ensures Valid() && View() == Next(conf, old(View()), SpRwl.Finish(t)) && trace == old(trace) + [SpRwl.Finish(t)]
      ensures !pcs[t].TxScan? ==> |hist| == |old(hist)| + 1 && ReplayMemory(start, hist) == mem
    {
      if pcs[t].TxBody? && pcs[t].ro {
        Publish(t);
        return;
      }
      if pcs[t].RdBody? {
        SerialReader(t);
      }
      hide FlagLegal, After, Doom, DoomCells, ReplayMemory;
      Advanced(SpRwl.Finish(t), View());
      trace := trace + [SpRwl.Finish(t)];
      match pcs[t]
      case TxBody(_, tries, tx) =>
        pcs := pcs[t := TxScan(tries, tx, 0)];
      case GlBody(log) =>
        writerLock := false;
        pcs := Doom(pcs, t, LockWord, true)[t := Idle];
        hist := hist + [Section(t, log)];
        SerialMemory();
      case RdBody(log) =>
        hist := hist + [Section(t, log)];
        pcs := pcs[t := RdLeave(false)];
    }

    // What the invariant says of the object's state.
    lemma StateOk()
      requires Valid()
      ensures Inv(conf, start, View())
    {
      FlagsKeepContract(conf.n, conf.retries, conf.policy, start, trace);
      InvAlways(conf, start, trace);
    }

    // While the lock word is clear, memory is the serial memory of the completed sections.
    lemma SerialMemory()
      requires Valid() && !writerLock
      ensures ReplayValid(start, hist) && ReplayMemory(start, hist) == mem
    {
      StateOk();
    }

    // A reader's section, complete at its release, leaves the serial memory as it is.
    lemma SerialReader(t: nat)
      requires Valid() && t < |pcs| && pcs[t].RdBody?
      ensures ReplayMemory(start, hist + [Section(t, pcs[t].log)]) == mem
    {
      StateOk();
      assert ThreadOk(View(), View().pcs[t]) && BaseOk(ReplayMemory(start, hist), View(), View().pcs[t]);
      SectionCompletes(start, hist, t, pcs[t].log);
    }

    // The commit instruction: memory takes the whole write buffer and nothing else, is again the
    // serial memory, and keeps whatever another live transaction or a reader has read.
    method Publish(t: nat)
      requires Valid() && Publishes(View(), t)
      modifies this`mem, this`pcs, this`hist, this`trace
      ensures Valid() && View() == Commit(old(View()), t, old(pcs)[t].tx)
      ensures trace == old(trace) + [if old(pcs)[t].TxBody? then SpRwl.Finish(t) else Go(t)]
      ensures ReplayValid(start, hist) && ReplayMemory(start, hist) == mem
      ensures Spares(old(View()), t, mem)
    {
      ghost var was := View();
      StateOk();
      CommitSparesAll(conf, start, was, t);
      hide FlagLegal, After, Inv, ReadSet, Spares, Doom, DoomCells;
      ghost var e := if pcs[t].TxBody? then SpRwl.Finish(t) else Go(t);
      Advanced(e, was);
      trace := trace + [e];
      var tx := pcs[t].tx;
      mem := mem + tx.buf;
      pcs := pcs[t := Idle];
      hist := hist + [Section(t, tx.log)];
      assert View() == Commit(was, t, tx);
      SerialAfterCommit(was, t);
    }

    // A thread that commits is outside the lock, so memory is serial afterwards.
    lemma SerialAfterCommit(was: State, t: nat)
      requires Valid() && Inv(conf, start, was) && Publishes(was, t) && View() == Commit(was, t, was.pcs[t].tx)
      ensures ReplayValid(start, hist) && ReplayMemory(start, hist) == mem
    {
      assert ThreadOk(was, was.pcs[t]);
      SerialMemory();
    }

    // The hardware rolls the transaction back and the retry loop goes on.
    method RollBack(t: nat, why: Cause)
      requires Valid() && t < |pcs| && (pcs[t].TxSubscribe? || IsTx(pcs[t]))
      modifies this
      ensures Valid() && View() == Next(conf, old(View()), Abort(t, why)) && trace == old(trace) + [Abort(t, why)]
      ensures mem == old(mem) && hist == old(hist)
      ensures var ro, tries := !old(pcs)[t].TxScan? && old(pcs)[t].ro, old(pcs)[t].tries;
        && (why != Capacity && tries > 1 ==> pcs[t] == WaitFree(ro, tries - 1))
        && (tries <= 1 || (why == Capacity && conf.policy == 0) ==> pcs[t] == if ro then RdArrive else GlAcquire)
    {
      hide FlagLegal, After, Doom, DoomCells;
      Advanced(Abort(t, why), View());
      trace := trace + [Abort(t, why)];
      var ro := if pcs[t].TxScan? then false else pcs[t].ro;
      pcs := pcs[t := AfterAbort(conf, ro, pcs[t].tries, why)];
    }

    // The store of 1 or 0 to the thread's own flag.
    method StoreFlag(t: nat)
      requires Valid() && t < |pcs| && (pcs[t].RdArrive? || pcs[t].RdLeave?)
      modifies this, readerLocks
      ensures Valid() && View() == Next(conf, old(View()), FlagStore(old(View()), t))
      ensures trace == old(trace) + [FlagStore(old(View()), t)]
    {
      hide FlagLegal, After, Doom, DoomCells;
      ghost var was := View();
      ghost var e := FlagStore(was, t);
      Advanced(e, was);
      trace := trace + [e];
      var p := pcs[t];
      readerLocks[t] := p.RdArrive?;
      pcs := DoomCells(pcs, t, {t})[t := if p.RdArrive? then RdCheck else if p.retry then RdWait else Idle];
      assert readerLocks[..] == was.cells[t := p.RdArrive?];
    }

    // One step of the loop around USE_HTM, or of the flag scan of a committing writer.
    method AdvanceTx(t: nat)
      requires Valid() && Enabled(conf, View(), Go(t))
      requires pcs[t].WaitFree? || pcs[t].TxSubscribe? || pcs[t].TxScan?
      modifies this
      ensures Valid() && View() == Next(conf, old(View()), Go(t)) && trace == old(trace) + [Go(t)]
    {
      var p := pcs[t];
      if p.TxScan? && p.k >= readerLocks.Length {
        Publish(t);
        return;
      }
      hide FlagLegal, After, Doom, DoomCells;
      Advanced(Go(t), View());
      trace := trace + [Go(t)];
      if p.WaitFree? {
        if !writerLock {
          pcs := pcs[t := TxSubscribe(p.ro, p.tries)];
        }
      } else if p.TxSubscribe? {
        if writerLock {
          pcs := pcs[t := AfterAbort(conf, p.ro, p.tries, OtherCause)];
        } else {
          pcs := pcs[t := TxBody(p.ro, p.tries, Fresh())];
        }
      } else if readerLocks[p.k] {
        pcs := pcs[t := AfterAbort(conf, false, p.tries, OtherCause)];
      } else {
        pcs := pcs[t := TxScan(p.tries, p.tx, p.k + 1)];
      }
    }

    // One step of USE_GL and its flag scan, or of READ_MODE between its stores.
    method AdvanceLock(t: nat)
      requires Valid() && Enabled(conf, View(), Go(t))
      requires pcs[t].GlAcquire? || pcs[t].GlScan? || pcs[t].RdCheck? || pcs[t].RdWait?
      modifies this
      ensures Valid() && View() == Next(conf, old(View()), Go(t)) && trace == old(trace) + [Go(t)]
      ensures old(pcs)[t].RdCheck? && !old(writerLock) ==> pcs[t] == RdBody([])
      ensures old(pcs)[t].GlAcquire? && !old(writerLock) ==> writerLock && pcs[t] == GlScan(0)
      ensures pcs[t].GlScan? ==> writerLock && forall u :: 0 <= u < |pcs| ==> !LiveTx(pcs[u])
      ensures pcs[t].GlBody? ==> writerLock && forall u :: 0 <= u < |pcs| && u != t ==>
        !pcs[u].RdBody? && !Holder(pcs[u]) && !LiveTx(pcs[u])
      ensures pcs[t].RdBody? ==> ReplayMemory(start, hist) == mem && forall u :: 0 <= u < |pcs| ==> !pcs[u].GlBody?
    {
      hide FlagLegal, After, Doom, DoomCells;
      Advanced(Go(t), View());
      trace := trace + [Go(t)];
      var p := pcs[t];
      if p.GlAcquire? {
        if !writerLock {
          writerLock := true;
          pcs := Doom(pcs, t, LockWord, true)[t := GlScan(0)];
        }
      } else if p.GlScan? {
        if p.k >= readerLocks.Length {
          pcs := pcs[t := GlBody([])];
        } else if !readerLocks[p.k] {
          pcs := pcs[t := GlScan(p.k + 1)];
        }
      } else if p.RdCheck? {
        pcs := pcs[t := if writerLock then RdLeave(true) else RdBody([])];
      } else if !writerLock {
        pcs := pcs[t := RdArrive];
      }
      Alone(t);
    }

    // Whom the holder of the lock word and a reader in its section exclude.
    lemma Alone(t: nat)
      requires Valid() && t < |pcs|
      ensures pcs[t].GlScan? ==> writerLock && forall u :: 0 <= u < |pcs| ==> !LiveTx(pcs[u])
      ensures pcs[t].GlBody? ==> writerLock && forall u :: 0 <= u < |pcs| && u != t ==>
        !pcs[u].RdBody? && !Holder(pcs[u]) && !LiveTx(pcs[u])
      ensures pcs[t].RdBody? ==> ReplayMemory(start, hist) == mem && forall u :: 0 <= u < |pcs| ==> !pcs[u].GlBody?
    {
      StateOk();
      hide ReplayMemory, ReplayValid, Replay.Valid, Apply, FlagLegal, After;
      ghost var s := View();
      assert ThreadOk(s, s.pcs[t]) && BaseOk(ReplayMemory(start, hist), s, s.pcs[t]);
      forall u | 0 <= u < |s.pcs| && u != t
        ensures Holder(s.pcs[t]) ==> !LiveTx(s.pcs[u]) && !Holder(s.pcs[u]) && (s.pcs[t].GlBody? ==> !s.pcs[u].RdBody?)
        ensures s.pcs[t].RdBody? ==> !s.pcs[u].GlBody?
      {
        assert ThreadOk(s, s.pcs[u]) && PairOk(conf, s.pcs[t], u, s.pcs[u]) && PairOk(conf, s.pcs[u], t, s.pcs[t]);
      }
    }

    // What a reader in its section can rely on: the lock object holds a serial memory, and every
    // value the reader has seen is the value memory still holds.
    lemma {:induction false} ReaderIsConsistent(r: nat)
      requires Valid() && r < |pcs| && pcs[r].RdBody?
      ensures ReplayValid(start, hist) && ReplayMemory(start, hist) == mem
      ensures forall i :: 0 <= i < |pcs[r].log| ==> pcs[r].log[i].Rd? && Get(mem, pcs[r].log[i].a) == pcs[r].log[i].v
    {
      FlagsKeepContract(conf.n, conf.retries, conf.policy, start, trace);
      Serialisable(conf, start, trace);
      InvAlways(conf, start, trace);
      assert ThreadOk(View(), View().pcs[r]);
      ReaderSeesOneMemory(mem, pcs[r].log);
    }
  }
}
