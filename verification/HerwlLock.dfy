/** The HERWL lock with its shared words changed in place, one atomic step per method call. */
module HerwlLock {
  import opened Replay
  import opened Htm
  import opened Herwl
  import opened HerwlSafety
  import opened Requests
  import opened HerwlEvents

  class ElidedLock {
    const conf: Config
    const counters: array<nat>
    var writerLock: nat
    var mem: Memory
    var pcs: seq<Pc>
    var hist: seq<Section>
    ghost const start: Memory
    ghost var trace: seq<Event>

    ghost function View(): State
      reads this, counters
    {
      State(writerLock, counters[..], mem, pcs, hist)
    }

    // The object is where a run of the lock has led.
    ghost predicate Valid()
      reads this, counters
    {
      Legal(conf, start, trace) && View() == After(conf, start, trace) && |pcs| == counters.Length == conf.n
    }

    constructor (conf: Config, m: Memory)
      ensures Valid() && fresh(counters) && this.conf == conf && start == m && View() == Init(conf, m)
    {
      this.conf := conf;
      counters := new nat[conf.n](_ => 0);
      writerLock := 0;
      mem := m;
      pcs := seq(conf.n, _ => Idle);
      hist := [];
      start := m;
      trace := [];
    }

    lemma {:induction false} Advanced(e: Event, s: State)
      requires Legal(conf, start, trace) && s == After(conf, start, trace) && Enabled(conf, s, e)
      ensures Legal(conf, start, trace + [e]) && After(conf, start, trace + [e]) == Next(conf, s, e)
    {
      FrontOfAppend(trace, e);
    }

    // TM_BEGIN
    method Begin(t: nat, ro: bool)
      requires Valid() && t < |pcs| && pcs[t].Idle?
      modifies this`pcs, this`trace
      ensures Valid() && View() == Next(conf, old(View()), Enter(t, ro)) && trace == old(trace) + [Enter(t, ro)]
      ensures Plays(pcs[t], if ro then Reader else Writer)
    {
      hide Legal, After, Doom;
      Advanced(Enter(t, ro), View());
      trace := trace + [Enter(t, ro)];
      pcs := pcs[t := if ro then RdSpin else WriterLoop(conf.htmRetries)];
    }

    // A data read; a reader's reads are uninstrumented.
    method ReadWord(t: nat, a: int) returns (v: int)
      requires Valid() && Enabled(conf, View(), Read(t, a))
      modifies this`pcs, this`trace
      ensures Valid() && View() == Next(conf, old(View()), Read(t, a)) && trace == old(trace) + [Read(t, a)]
      ensures v == Answer(mem, Asked(old(trace), t), a)
    {
      AnswerIsRead(t, a);
      hide Legal, After, Doom;
      Advanced(Read(t, a), View());
      trace := trace + [Read(t, a)];
      var p := pcs[t];
      pcs := Doom(pcs, t, Data(a), false);
      if p.TxBody? {
        v := TxRead(mem, p.tx, a);
        pcs := pcs[t := TxBody(p.tries, TxAfterRead(mem, p.tx, a))];
      } else if p.RotBody? {
        v := TxRead(mem, p.tx, a);
        pcs := pcs[t := RotBody(p.tries, TxAfterRead(mem, p.tx, a))];
      } else {
        v := Get(mem, a);
        pcs := pcs[t := if p.GlBody? then GlBody(p.log + [Rd(a, v)]) else RdBody(p.log + [Rd(a, v)])];
      }
    }

    // A data write: buffered in a transaction, in place under the global lock.
    method WriteWord(t: nat, a: int, v: int)
      requires Valid() && Enabled(conf, View(), Write(t, a, v))
      modifies this`mem, this`pcs, this`trace
      ensures Valid() && View() == Next(conf, old(View()), Write(t, a, v)) && trace == old(trace) + [Write(t, a, v)]
      ensures Asked(trace, t) == Asked(old(trace), t) + [Store(a, v)] && Records(LogOf(pcs[t]), Asked(trace, t))
    {
      hide Legal, After, Doom;
      Advanced(Write(t, a, v), View());
      trace := trace + [Write(t, a, v)];
      var p := pcs[t];
      pcs := Doom(pcs, t, Data(a), true);
      if p.GlBody? {
        mem := mem[a := v];
        pcs := pcs[t := GlBody(p.log + [Wr(a, v)])];
      } else if p.TxBody? {
        pcs := pcs[t := TxBody(p.tries, TxAfterWrite(p.tx, a, v))];
      } else {
        pcs := pcs[t := RotBody(p.tries, TxAfterWrite(p.tx, a, v))];
      }
      FrontOfAppend(old(trace), Write(t, a, v));
      LogsOk(t);
    }

    // The log of a thread in its section is what it has asked for.
    lemma LogsOk(t: nat)
      requires Valid() && t < |pcs|
      ensures LogOk(pcs[t], Asked(trace, t), Closed(trace, t))
    {
      LogsAreRequests(conf, start, trace);
      assert View().pcs[t] == pcs[t];
    }

    // What a read finds is what the section stored there last, or else what memory holds.
    lemma AnswerIsRead(t: nat, a: int)
      requires Valid() && Enabled(conf, View(), Read(t, a))
      ensures Answer(mem, Asked(trace, t), a) ==
        if pcs[t].TxBody? || pcs[t].RotBody? then TxRead(mem, pcs[t].tx, a) else Get(mem, a)
    {
      hide Legal, After, Asked;
      ReadAnswers(conf, start, trace, t, a);
      assert Last(LogOf(Next(conf, View(), Read(t, a)).pcs[t])) == Rd(a, Answer(mem, Asked(trace, t), a));
    }

    // TM_END: the first step of the release.
    method End(t: nat)
      requires Valid() && Enabled(conf, View(), Herwl.Finish(t))
      modifies this, counters
      ensures Valid() && View() == Next(conf, old(View()), Herwl.Finish(t)) && trace == old(trace) + [Herwl.Finish(t)]
    {
      hide Legal, After, Doom;
      ghost var was := View();
      Advanced(Herwl.Finish(t), was);
      trace := trace + [Herwl.Finish(t)];
      match pcs[t]
      case RdBody(log) =>
        counters[t] := counters[t] + 1;
        assert counters[..] == was.counters[t := was.counters[t] + 1];
        pcs := pcs[t := Idle];
        hist := hist + [Section(t, log)];
      case GlBody(log) =>
        writerLock := 0;
        pcs := Doom(pcs, t, LockWord, true)[t := Idle];
        hist := hist + [Section(t, log)];
      case TxBody(tries, tx) =>
        pcs := pcs[t := TxQuiesce(tries, tx, 0)];
      case RotBody(tries, tx) =>
        pcs := pcs[t := RotSnap(tries, tx, 0, seq(counters.Length, _ => 0))];
    }

    // What the invariant says of the object's state.
    lemma StateOk()
      requires Valid()
      ensures Inv(start, View())
    {
      InvAlways(conf, start, trace);
    }

    // Unless a writer runs under the global lock, memory is the serial memory of the completed sections.
    lemma SerialMemory()
      requires Valid() && writerLock != 2
      ensures ReplayValid(start, hist) && ReplayMemory(start, hist) == mem
    {
      StateOk();
    }

    // The commit instruction: memory takes the whole write buffer and nothing else, is again the
    // serial memory, and keeps whatever another live transaction or a reader has read.
    method Publish(t: nat)
      requires Valid() && Publishes(View(), t) && Enabled(conf, View(), Go(t))
      modifies this`mem, this`pcs, this`hist, this`trace
      ensures Valid()
      ensures View() == Commit(old(View()), t, old(pcs)[t].tx, if old(pcs)[t].RotWait? then RotUnlock else Idle)
      ensures View() == Next(conf, old(View()), Go(t)) && trace == old(trace) + [Go(t)]
      ensures ReplayValid(start, hist) && ReplayMemory(start, hist) == mem
      ensures Spares(old(View()), t, mem)
    {
      ghost var was := View();
      StateOk();
      CommitSparesAll(start, was, t);
      hide Legal, After, Inv, ReadSet, Spares, Doom;
      CanPublish(was, t);
      Advanced(Go(t), was);
      trace := trace + [Go(t)];
      var p := pcs[t];
      mem := mem + p.tx.buf;
      pcs := pcs[t := if p.RotWait? then RotUnlock else Idle];
      hist := hist + [Section(t, p.tx.log)];
      SerialMemory();
    }

    // A thread whose scan is over may commit, and does not run under the global lock.
    lemma CanPublish(s: State, t: nat)
      requires Inv(start, s) && Publishes(s, t)
      ensures Enabled(conf, s, Go(t)) && s.lock != 2
      ensures Next(conf, s, Go(t)) == Commit(s, t, s.pcs[t].tx, if s.pcs[t].RotWait? then RotUnlock else Idle)
    {
      assert Good(start, s, t);
    }

    // A thread in a transaction has tries left, and an abort costs what the loop says.
    lemma TriesCount(t: nat, why: Cause)
      requires Valid() && Enabled(conf, View(), Abort(t, why))
      ensures SpendHtm(conf, pcs[t].tries, why) == HtmSpent(conf.policy, pcs[t].tries, why)
      ensures SpendRot(conf, pcs[t].tries, why) == RotSpent(conf.policy, pcs[t].tries, why)
    {
      BudgetIsExact(conf, start, trace, t);
      assert View().pcs[t] == pcs[t];
      SpentAs(conf, pcs[t].tries, why);
    }

    // The hardware rolls the transaction back and the retry loop goes on.
    method RollBack(t: nat, why: Cause)
      requires Valid() && t < |pcs|
      requires pcs[t].TxSubscribe? || pcs[t].TxBody? || IsRot(pcs[t]) ||
        (pcs[t].TxQuiesce? && pcs[t].k >= counters.Length)
      modifies this`pcs, this`trace
      ensures Valid() && View() == Next(conf, old(View()), Abort(t, why)) && trace == old(trace) + [Abort(t, why)]
      ensures mem == old(mem) && hist == old(hist)
      ensures IsRot(old(pcs)[t]) ==> pcs[t] == RotBegin(RotSpent(conf.policy, old(pcs)[t].tries, why))
      ensures !IsRot(old(pcs)[t]) ==>
        var left := HtmSpent(conf.policy, old(pcs)[t].tries, why);
        pcs[t] == if left > 0 then WrSpin(left) else RotLock
    {
      TriesCount(t, why);
      hide Legal, After, Doom;
      Advanced(Abort(t, why), View());
      trace := trace + [Abort(t, why)];
      var p := pcs[t];
      if IsRot(p) {
        pcs := pcs[t := RotBegin(SpendRot(conf, p.tries, why))];
      } else {
        pcs := pcs[t := WriterLoop(SpendHtm(conf, p.tries, why))];
      }
    }

    // One step of a reader's acquire loop.
    method StepReader(t: nat)
      requires Valid() && t < |pcs| && (pcs[t].RdSpin? || pcs[t].RdCount? || pcs[t].RdCheck? || pcs[t].RdBack?)
      modifies this`pcs, this`trace, counters
      ensures Valid() && View() == Next(conf, old(View()), Go(t)) && trace == old(trace) + [Go(t)]
      ensures old(pcs)[t].RdCheck? && writerLock != 2 ==> pcs[t] == RdBody([])
      ensures pcs[t].RdBody? ==> ReplayMemory(start, hist) == mem && forall u :: 0 <= u < |pcs| ==> !pcs[u].GlBody?
    {
      hide Legal, After, Doom;
      ghost var was := View();
      Advanced(Go(t), was);
      trace := trace + [Go(t)];
      match pcs[t] {
        case RdSpin =>
          if writerLock != 2 {
            pcs := pcs[t := RdCount];
          }
        case RdCount =>
          counters[t] := counters[t] + 1;
          assert counters[..] == was.counters[t := was.counters[t] + 1];
          pcs := pcs[t := RdCheck];
        case RdCheck =>
          pcs := pcs[t := if writerLock == 2 then RdBack else RdBody([])];
        case RdBack =>
          counters[t] := counters[t] + 1;
          assert counters[..] == was.counters[t := was.counters[t] + 1];
          pcs := pcs[t := RdSpin];
      }
      ReaderEnters(t);
    }

    // A reader that has entered its section starts from the serial memory.
    lemma ReaderEnters(t: nat)
      requires Valid() && t < |pcs|
      ensures pcs[t].RdBody? ==> ReplayMemory(start, hist) == mem && forall u :: 0 <= u < |pcs| ==> !pcs[u].GlBody?
    {
      StateOk();
      hide ReplayMemory, ReplayValid, Replay.Valid, Apply, Legal, After;
      ghost var s := View();
      assert Good(start, s, t);
      forall u | 0 <= u < |s.pcs| && u != t
        ensures s.pcs[t].RdBody? ==> !s.pcs[u].GlBody?
      {
        assert PairOk(s.pcs[u], t, s.pcs[t], s.counters[t]);
      }
    }

    // One step of the hardware loop, or of the quiescence of a suspended transaction.
    method StepHtm(t: nat)
      requires Valid() && Enabled(conf, View(), Go(t))
      requires pcs[t].WrSpin? || pcs[t].TxSubscribe? || pcs[t].TxQuiesce?
      modifies this
      ensures Valid() && View() == Next(conf, old(View()), Go(t)) && trace == old(trace) + [Go(t)]
    {
      hide Legal, After, Doom, Spares, ReplayValid, ReplayMemory, Commit;
      if pcs[t].TxQuiesce? && pcs[t].k >= counters.Length {
        Publish(t);
        return;
      }
      Advanced(Go(t), View());
      trace := trace + [Go(t)];
      match pcs[t]
      case WrSpin(tries) =>
        if writerLock == 0 {
          pcs := pcs[t := TxSubscribe(tries)];
        }
      case TxSubscribe(tries) =>
        if writerLock != 0 {
          pcs := pcs[t := WriterLoop(SpendHtm(conf, tries, User))];
        } else {
          pcs := pcs[t := TxBody(tries, Fresh())];
        }
      case TxQuiesce(tries, tx, k) =>
        if !Odd(counters[k]) {
          pcs := pcs[t := TxQuiesce(tries, tx, k + 1)];
        }
    }

    // One step of USE_ROT outside the transaction, or of ACQUIRE_GLOBAL_LOCK.
    method StepLock(t: nat)
      requires Valid() && Enabled(conf, View(), Go(t))
      requires pcs[t].RotLock? || pcs[t].RotBegin? || pcs[t].RotUnlock? || pcs[t].GlSet? || pcs[t].GlWait?
      modifies this`writerLock, this`pcs, this`trace
      ensures Valid() && View() == Next(conf, old(View()), Go(t)) && trace == old(trace) + [Go(t)]
      ensures pcs[t].RotBegin? || pcs[t].RotBody? || pcs[t].GlWait? ==>
        forall u :: 0 <= u < |pcs| && u != t ==> !LiveHtm(pcs[u]) && !OwnsOne(pcs[u]) && !OwnsTwo(pcs[u])
      ensures pcs[t].GlBody? ==> forall u :: 0 <= u < |pcs| && u != t ==>
        !LiveHtm(pcs[u]) && !OwnsOne(pcs[u]) && !OwnsTwo(pcs[u]) && !pcs[u].RdBody?
    {
      hide Legal, After, Doom;
      Advanced(Go(t), View());
      trace := trace + [Go(t)];
      match pcs[t] {
        case RotLock =>
          if writerLock == 0 {
            writerLock := 1;
            pcs := Doom(pcs, t, LockWord, true)[t := RotBegin(conf.rotRetries)];
          }
        case RotBegin(tries) =>
          pcs := pcs[t := if tries > 0 then RotBody(tries, Fresh()) else GlSet];
        case RotUnlock =>
          writerLock := 0;
          pcs := Doom(pcs, t, LockWord, true)[t := Idle];
        case GlSet =>
          writerLock := 2;
          pcs := Doom(pcs, t, LockWord, true)[t := GlWait(0)];
        case GlWait(k) =>
          if k >= counters.Length {
            pcs := pcs[t := GlBody([])];
          } else if !Odd(counters[k]) {
            pcs := pcs[t := GlWait(k + 1)];
          }
      }
      OwnerExcludes(t);
    }

    // Whom the owner of the lock word excludes.
    lemma OwnerExcludes(t: nat)
      requires Valid() && t < |pcs|
      ensures OwnsOne(pcs[t]) || OwnsTwo(pcs[t]) ==>
        forall u :: 0 <= u < |pcs| && u != t ==> !LiveHtm(pcs[u]) && !OwnsOne(pcs[u]) && !OwnsTwo(pcs[u])
      ensures pcs[t].GlBody? ==> forall u :: 0 <= u < |pcs| && u != t ==> !pcs[u].RdBody?
    {
      StateOk();
      hide ReplayMemory, ReplayValid, Replay.Valid, Apply, Legal, After;
      ghost var s := View();
      assert Good(start, s, t);
      forall u | 0 <= u < |s.pcs| && u != t
        ensures OwnsOne(s.pcs[t]) || OwnsTwo(s.pcs[t]) ==>
          !LiveHtm(s.pcs[u]) && !OwnsOne(s.pcs[u]) && !OwnsTwo(s.pcs[u])
        ensures s.pcs[t].GlBody? ==> !s.pcs[u].RdBody?
      {
        assert Good(start, s, u) && PairOk(s.pcs[t], u, s.pcs[u], s.counters[u]);
      }
    }

    // One step of the quiescence of a rollback-only transaction.
    method StepQuiesce(t: nat)
      requires Valid() && Enabled(conf, View(), Go(t)) && (pcs[t].RotSnap? || pcs[t].RotWait?)
      modifies this`mem, this`pcs, this`hist, this`trace
      ensures Valid() && View() == Next(conf, old(View()), Go(t)) && trace == old(trace) + [Go(t)]
    {
      hide Legal, After, Doom, Spares, ReplayValid, ReplayMemory, Commit;
      if pcs[t].RotWait? && pcs[t].k >= counters.Length {
        Publish(t);
        return;
      }
      Advanced(Go(t), View());
      trace := trace + [Go(t)];
      match pcs[t]
      case RotSnap(tries, tx, k, snap) =>
        if k >= counters.Length {
          pcs := pcs[t := RotWait(tries, tx, 0, snap)];
        } else {
          var temp := counters[k];
          pcs := pcs[t := RotSnap(tries, tx, k + 1, snap[k := if Odd(temp) then temp else 0])];
        }
      case RotWait(tries, tx, k, snap) =>
        if snap[k] == 0 || counters[k] != snap[k] {
          pcs := pcs[t := RotWait(tries, tx, k + 1, snap)];
        }
    }

    // What a reader in its section can rely on, at every moment and whatever commits meanwhile.
    lemma {:induction false} ReaderIsConsistent(r: nat)
      requires Valid() && r < |pcs| && pcs[r].RdBody?
      ensures ReplayValid(start, hist) && ReplayMemory(start, hist) == mem
      ensures forall i :: 0 <= i < |pcs[r].log| ==> pcs[r].log[i].Rd? && Get(mem, pcs[r].log[i].a) == pcs[r].log[i].v
    {
      ReaderConsistency(conf, start, trace, r);
      InvAlways(conf, start, trace);
      assert Good(start, View(), r);
    }
  }
}
