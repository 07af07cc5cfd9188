/**
 The speculative read-write lock against its events alone: what a section asked for, whether it began
 as a reader or a writer, and how often it was aborted are read off the run, and every run does what
 they say.
 */
module SpRwlEvents {
  import opened Replay
  import opened Requests
  import opened Htm
  import opened SpRwl
  import opened SpRwlSafety

  // ---------- what sections ask for ----------

  function Asks(e: Event): seq<Request> {
    match e
    case Read(_, a) => [Load(a)]
    case Write(_, a, v) => [Store(a, v)]
    case _ => []
  }

  // The data accesses t has asked for since its last step of another kind.
  function Asked(es: seq<Event>, t: nat): seq<Request> {
    if es == [] then []
    else if Last(es).t != t then Asked(Front(es), t)
    else if Last(es).Read? || Last(es).Write? then Asked(Front(es), t) + Asks(Last(es))
    else []
  }

  // The data accesses t had asked for when it last reached the end of a section.
  function Closed(es: seq<Event>, t: nat): seq<Request> {
    if es == [] then []
    else if Last(es).t == t && Last(es).Finish? then Asked(Front(es), t)
    else Closed(Front(es), t)
  }

  predicate Inside(p: Pc) {
    IsTx(p) || p.GlBody? || p.RdBody?
  }

  // A step from p to q completes a section.
  predicate Completes(p: Pc, q: Pc) {
    Inside(p) && (q.Idle? || q.RdLeave?)
  }

  // The sections completed, in order, and what they asked for.
  function Jobs(c: Config, m: Memory, es: seq<Event>): seq<Job> {
    if es == [] then []
    else
      var pcs, pcs', t := After(c, m, Front(es)).pcs, After(c, m, es).pcs, Last(es).t;
      Jobs(c, m, Front(es)) +
      if t < |pcs| && t < |pcs'| && Completes(pcs[t], pcs'[t]) then [Job(t, Closed(es, t))] else []
  }

  // The log of a thread in its section records what it has asked for.
  predicate LogOk(p: Pc, asked: seq<Request>, closed: seq<Request>) {
    && (p.TxBody? ==> Records(p.tx.log, asked))
    && (p.TxScan? ==> Records(p.tx.log, closed))
    && (p.GlBody? || p.RdBody? ==> Records(p.log, asked))
  }

  lemma {:induction false} LogStep(c: Config, s: State, e: Event, es: seq<Event>)
    requires Enabled(c, s, e) && es != [] && Last(es) == e
    requires LogOk(s.pcs[e.t], Asked(Front(es), e.t), Closed(Front(es), e.t))
    ensures |Next(c, s, e).pcs| == |s.pcs|
    ensures LogOk(Next(c, s, e).pcs[e.t], Asked(es, e.t), Closed(es, e.t))
  {
    hide Doom, DoomCells, AfterAbort, Records, Record, Hit;
    RecordsNone();
    var p, asked := s.pcs[e.t], Asked(Front(es), e.t);
    if e.Read? || e.Write? {
      var log := if p.TxBody? then p.tx.log else p.log;
      var v := if e.Write? then e.v else if p.TxBody? then TxRead(s.mem, p.tx, e.a) else Get(s.mem, e.a);
      var x := if e.Write? then Wr(e.a, v) else Rd(e.a, v);
      assert Record(x, Asks(e)[0]) by {
        Plain(x, e);
      }
      RecordsMore(log, asked, x, Asks(e)[0]);
    } else if e.Abort? || (e.Go? && (p.TxSubscribe? || p.TxScan?)) {
      AbortLeaves(c, if p.TxScan? then false else p.ro, p.tries, if e.Abort? then e.why else OtherCause);
    }
  }

  lemma {:induction false} Plain(x: Access, e: Event)
    requires (e.Write? && x == Wr(e.a, e.v)) || (e.Read? && x.Rd? && x.a == e.a)
    ensures Record(x, Asks(e)[0])
  {
  }

  lemma {:induction false} AbortLeaves(c: Config, ro: bool, tries: int, why: Cause)
    ensures var q := AfterAbort(c, ro, tries, why);
      !Inside(q) && !q.Idle? && !q.RdLeave?
  {
  }

  // A section is recorded in the history as it completes, with the log of its accesses.
  lemma {:induction false} HistStep(c: Config, s: State, e: Event)
    requires Enabled(c, s, e)
    ensures var p, s' := s.pcs[e.t], Next(c, s, e);
      |s'.pcs| == |s.pcs| && s'.hist ==
        s.hist + if Completes(p, s'.pcs[e.t]) then [Section(e.t, if IsTx(p) then p.tx.log else p.log)] else []
  {
    hide Doom, DoomCells, AfterAbort, Hit, TxRead, TxAfterRead, TxAfterWrite;
    var p := s.pcs[e.t];
    if e.Abort? || (e.Go? && (p.TxSubscribe? || p.TxScan?)) {
      AbortLeaves(c, if p.TxScan? then false else p.ro, p.tries, if e.Abort? then e.why else OtherCause);
    }
  }

  // A section completes by its release, or by the last step of a committing writer.
  lemma {:induction false} ClosedAtEnd(c: Config, s: State, e: Event, es: seq<Event>)
    requires Enabled(c, s, e) && es != [] && Last(es) == e && Completes(s.pcs[e.t], Next(c, s, e).pcs[e.t])
    requires LogOk(s.pcs[e.t], Asked(Front(es), e.t), Closed(Front(es), e.t))
    ensures var p := s.pcs[e.t];
      Records(if IsTx(p) then p.tx.log else p.log, Closed(es, e.t))
  {
    hide Doom, DoomCells, AfterAbort, Hit, TxRead, TxAfterRead, TxAfterWrite, Records;
    var p := s.pcs[e.t];
    if e.Abort? || (e.Go? && (p.TxSubscribe? || p.TxScan?)) {
      AbortLeaves(c, if p.TxScan? then false else p.ro, p.tries, if e.Abort? then e.why else OtherCause);
    }
  }

  // In every run, the log of a thread in its section is the list of what it has asked for, and the
  // history lists the completed sections with what each of them asked for.
  lemma {:induction false} LogsAreRequests(c: Config, m: Memory, es: seq<Event>)
    requires Legal(c, m, es)
    ensures var s := After(c, m, es);
      && (forall t :: 0 <= t < |s.pcs| ==> LogOk(s.pcs[t], Asked(es, t), Closed(es, t)))
      && RecordsJobs(s.hist, Jobs(c, m, es))
  {
    if es == [] {
      RecordsNone();
    } else {
      LogsAreRequests(c, m, Front(es));
      var s, e := After(c, m, Front(es)), Last(es);
      HistoryStep(c, s, e, es, Jobs(c, m, Front(es)));
      forall u | 0 <= u < |Next(c, s, e).pcs|
        ensures LogOk(Next(c, s, e).pcs[u], Asked(es, u), Closed(es, u))
      {
        LogStepAny(c, s, e, es, u);
      }
      hide Enabled, Next, LogOk, Records, RecordsJobs;
    }
  }

  lemma {:induction false} LogStepAny(c: Config, s: State, e: Event, es: seq<Event>, u: nat)
    requires Enabled(c, s, e) && es != [] && Last(es) == e && |Next(c, s, e).pcs| == |s.pcs| && u < |s.pcs|
    requires LogOk(s.pcs[u], Asked(Front(es), u), Closed(Front(es), u))
    ensures LogOk(Next(c, s, e).pcs[u], Asked(es, u), Closed(es, u))
  {
    hide Enabled, Next, Records;
    if u == e.t {
      LogStep(c, s, e, es);
    } else {
      OthersStay(c, s, e, u);
    }
  }

  lemma {:induction false} HistoryStep(c: Config, s: State, e: Event, es: seq<Event>, jobs: seq<Job>)
    requires Enabled(c, s, e) && es != [] && Last(es) == e && RecordsJobs(s.hist, jobs)
    requires LogOk(s.pcs[e.t], Asked(Front(es), e.t), Closed(Front(es), e.t))
    ensures |Next(c, s, e).pcs| == |s.pcs|
    ensures RecordsJobs(Next(c, s, e).hist,
      jobs + if Completes(s.pcs[e.t], Next(c, s, e).pcs[e.t]) then [Job(e.t, Closed(es, e.t))] else [])
  {
    HistStep(c, s, e);
    var p := s.pcs[e.t];
    if Completes(p, Next(c, s, e).pcs[e.t]) {
      ClosedAtEnd(c, s, e, es);
      RecordsJob(s.hist, jobs, Section(e.t, if IsTx(p) then p.tx.log else p.log), Job(e.t, Closed(es, e.t)));
    }
    hide Enabled, Next, Records, RecordsJobs;
  }

  // Every run does what plain code would: the completed sections, run one after the other on their
  // requests alone, make every access that was made and leave the memory that is there, with the
  // fallback writer in its section as the next of them.
  lemma {:induction false} RunsAsPlainCode(c: Config, m: Memory, es: seq<Event>)
    requires c.Ok() && Legal(c, m, es)
    ensures var s, jobs := After(c, m, es), Jobs(c, m, es);
      && s.hist == SerialHistory(m, jobs)
      && ((forall t :: 0 <= t < |s.pcs| ==> !s.pcs[t].GlBody?) ==> s.mem == SerialMemory(m, jobs))
      && (forall t :: 0 <= t < |s.pcs| && s.pcs[t].GlBody? ==>
            s.mem == SerialMemory(m, jobs + [Job(t, Asked(es, t))]) &&
            s.pcs[t].log == Logged(SerialMemory(m, jobs), Asked(es, t)))
  {
    hide Legal, After, Records, RecordsJobs, Asked, Closed, SerialMemory, SerialHistory;
    hide ReplayMemory, ReplayValid, Valid;
    LogsAreRequests(c, m, es);
    Serialisable(c, m, es);
    var s, jobs := After(c, m, es), Jobs(c, m, es);
    JobsArePlain(m, s.hist, jobs);
    InvAlways(c, m, es);
    forall t | 0 <= t < |s.pcs| && s.pcs[t].GlBody?
      ensures s.mem == SerialMemory(m, jobs + [Job(t, Asked(es, t))])
      ensures s.pcs[t].log == Logged(SerialMemory(m, jobs), Asked(es, t))
    {
      assert BaseOk(ReplayMemory(m, s.hist), s, s.pcs[t]) && LogOk(s.pcs[t], Asked(es, t), Closed(es, t));
      RecordsArePlain(SerialMemory(m, jobs), s.pcs[t].log, Asked(es, t));
      OneMore(m, jobs, Job(t, Asked(es, t)));
    }
  }

  // A read answers with the value that the section stored there last, or else with what memory holds.
  lemma {:induction false} ReadAnswers(c: Config, m: Memory, es: seq<Event>, t: nat, a: int)
    requires c.Ok() && Legal(c, m, es) && Enabled(c, After(c, m, es), Read(t, a))
    ensures var s := After(c, m, es);
      var q := Next(c, s, Read(t, a)).pcs[t];
      (q.TxBody? || q.GlBody? || q.RdBody?) &&
      (if q.TxBody? then q.tx.log else q.log) ==
        (if q.TxBody? then s.pcs[t].tx.log else s.pcs[t].log) + [Rd(a, Answer(s.mem, Asked(es, t), a))]
  {
    hide Legal, After, Records, Asked, Closed, Doom;
    LogsAreRequests(c, m, es);
    InvAlways(c, m, es);
    var s := After(c, m, es);
    var p := s.pcs[t];
    assert LogOk(p, Asked(es, t), Closed(es, t)) && ThreadOk(s, p) && BaseOk(ReplayMemory(m, s.hist), s, p);
    WritesAnswer(s.mem, if p.TxBody? then p.tx.log else p.log, Asked(es, t), a);
    if p.GlBody? {
      ApplyAt(ReplayMemory(m, s.hist), p.log, a);
    }
  }

  // ---------- what condemns a transaction ----------

  // The event conflicts with a transaction of another thread that has made the requests rs, and scanned
  // the cells before k: it reads what those store, writes what those touch, stores to the lock word or
  // to a scanned cell.
  ghost predicate Conflicts(s: State, s': State, e: Event, rs: seq<Request>, k: nat) {
    match e
    case Read(_, a) => Touches(rs, a, false)
    case Write(_, a, _) => Touches(rs, a, true)
    case Signal(_, _, touched, _) => exists j :: j in touched && j < k
    case _ => s'.locked != s.locked
  }

  // In every run a step of another thread condemns a live transaction exactly if it conflicts with what
  // the transaction has asked for so far.
  lemma {:induction false} CondemnedIffConflict(c: Config, m: Memory, es: seq<Event>, e: Event, u: nat)
    requires c.Ok() && Legal(c, m, es) && Enabled(c, After(c, m, es), e) && e.t != u
    requires u < |After(c, m, es).pcs| && LiveTx(After(c, m, es).pcs[u])
    ensures var s, s' := After(c, m, es), Next(c, After(c, m, es), e);
      && |s'.pcs| == |s.pcs| && IsTx(s'.pcs[u])
      && (s'.pcs[u].tx.doomed <==>
            if s.pcs[u].TxScan? then Conflicts(s, s', e, Closed(es, u), s.pcs[u].k)
            else Conflicts(s, s', e, Asked(es, u), 0))
  {
    hide Legal, After, Records, Asked, Closed, ReplayMemory, ReplayValid, AfterAbort, Touches;
    LogsAreRequests(c, m, es);
    InvAlways(c, m, es);
    var s := After(c, m, es);
    var p := s.pcs[u];
    assert LogOk(p, Asked(es, u), Closed(es, u)) && ThreadOk(s, p) && ThreadOk(s, s.pcs[e.t]);
    if e.Read? || e.Write? {
      RecordsTouch(p.tx.log, if p.TxScan? then Closed(es, u) else Asked(es, u), e.a);
    }
    CondemnStep(c, s, e, u);
  }

  // The step of the hardware: what a transaction has read and written, and what it has scanned.
  lemma {:induction false} CondemnStep(c: Config, s: State, e: Event, u: nat)
    requires Enabled(c, s, e) && u < |s.pcs| && u != e.t && LiveTx(s.pcs[u]) && !s.locked && !Holder(s.pcs[e.t])
    ensures var s', p := Next(c, s, e), s.pcs[u];
      && |s'.pcs| == |s.pcs| && IsTx(s'.pcs[u])
      && (s'.pcs[u].tx.doomed <==>
            match e
            case Read(_, a) => a in p.tx.buf
            case Write(_, a, _) => a in p.tx.buf || a in p.tx.rs
            case Signal(_, _, touched, _) => p.TxScan? && exists j :: j in touched && j < p.k
            case _ => s'.locked != s.locked)
  {
    hide AfterAbort, TxRead, TxAfterRead, TxAfterWrite;
  }

  // ---------- readers and writers ----------

  // What t last began a section as.
  function RoleOf(es: seq<Event>, t: nat): Role {
    if es == [] then Outside
    else if Last(es).t == t && Last(es).Enter? then if Last(es).ro then Reader else Writer
    else RoleOf(Front(es), t)
  }

  // Where a reader and a writer can be: only a reader is in read mode, and only a writer scans the
  // cells, waits for the lock word to take it, or holds it.
  predicate Plays(p: Pc, role: Role) {
    match p
    case Idle => true
    case WaitFree(ro, _) => role == if ro then Reader else Writer
    case TxSubscribe(ro, _) => role == if ro then Reader else Writer
    case TxBody(ro, _, _) => role == if ro then Reader else Writer
    case TxScan(_, _, _) => role == Writer
    case GlAcquire => role == Writer
    case GlScan(_) => role == Writer
    case GlBody(_) => role == Writer
    case _ => role == Reader
  }

  lemma {:induction false} PlaysOwn(c: Config, s: State, e: Event, role: Role)
    requires Enabled(c, s, e) && Plays(s.pcs[e.t], role)
    ensures |Next(c, s, e).pcs| == |s.pcs|
    ensures Plays(Next(c, s, e).pcs[e.t], if e.Enter? then if e.ro then Reader else Writer else role)
  {
    hide Doom, DoomCells, AfterAbort, Hit, Get, TxRead, TxAfterRead, TxAfterWrite, Fresh;
    var p := s.pcs[e.t];
    if e.Abort? || (e.Go? && (p.TxSubscribe? || p.TxScan?)) {
      AbortPlays(c, if p.TxScan? then false else p.ro, p.tries, if e.Abort? then e.why else OtherCause);
    }
  }

  lemma {:induction false} AbortPlays(c: Config, ro: bool, tries: int, why: Cause)
    ensures Plays(AfterAbort(c, ro, tries, why), if ro then Reader else Writer)
  {
  }

  predicate ReadMode(p: Pc) {
    p.RdArrive? || p.RdCheck? || p.RdBody? || p.RdLeave? || p.RdWait?
  }

  // In every run a section that began as a reader never waits for the lock word to take it or holds
  // it, and one that began as a writer is never in read mode.
  lemma {:induction false} RolesAreKept(c: Config, m: Memory, es: seq<Event>, t: nat)
    requires Legal(c, m, es) && t < c.n
    ensures |After(c, m, es).pcs| == c.n && Plays(After(c, m, es).pcs[t], RoleOf(es, t))
  {
    if es != [] {
      RolesAreKept(c, m, Front(es), t);
      var s, e := After(c, m, Front(es)), Last(es);
      if e.t == t {
        PlaysOwn(c, s, e, RoleOf(Front(es), t));
      } else {
        OthersStay(c, s, e, t);
      }
      hide Enabled, Next;
    }
  }

  // ---------- every section runs once ----------

  function Begun(es: seq<Event>, t: nat): nat {
    if es == [] then 0 else Begun(Front(es), t) + if Last(es).t == t && Last(es).Enter? then 1 else 0
  }

  // Begun, and not yet complete.
  predicate Underway(p: Pc) {
    !p.Idle? && !(p.RdLeave? && !p.retry)
  }

  lemma {:induction false} UnderwayOwn(c: Config, s: State, e: Event)
    requires Enabled(c, s, e)
    ensures var p, s' := s.pcs[e.t], Next(c, s, e);
      var q := s'.pcs[e.t];
      && (e.Enter? ==> !Underway(p) && Underway(q) && !Completes(p, q))
      && (!e.Enter? && Completes(p, q) ==> Underway(p) && !Underway(q))
      && (!e.Enter? && !Completes(p, q) ==> Underway(p) == Underway(q))
  {
    hide Doom, DoomCells, Spend, Hit, TxRead, TxAfterRead, TxAfterWrite;
  }

  lemma {:induction false} DoneStep(c: Config, s: State, e: Event, t: nat)
    requires Enabled(c, s, e) && t < |s.pcs|
    ensures var s' := Next(c, s, e);
      && |s'.pcs| == |s.pcs|
      && Done(s'.hist, t) + (if Underway(s'.pcs[t]) then 1 else 0) ==
         Done(s.hist, t) + (if Underway(s.pcs[t]) then 1 else 0) + if e.t == t && e.Enter? then 1 else 0
  {
    HistStep(c, s, e);
    UnderwayOwn(c, s, e);
    if e.t != t {
      OthersStay(c, s, e, t);
    }
    hide Enabled, Next;
    var p, s' := s.pcs[e.t], Next(c, s, e);
    if Completes(p, s'.pcs[e.t]) {
      FrontOfAppend(s.hist, Section(e.t, if IsTx(p) then p.tx.log else p.log));
    }
  }

  // In every run each section that was begun has completed once, or is under way.
  lemma {:induction false} EachSectionOnce(c: Config, m: Memory, es: seq<Event>, t: nat)
    requires Legal(c, m, es) && t < c.n
    ensures var s := After(c, m, es);
      |s.pcs| == c.n && Begun(es, t) == Done(s.hist, t) + if Underway(s.pcs[t]) then 1 else 0
  {
    if es != [] {
      EachSectionOnce(c, m, Front(es), t);
      DoneStep(c, After(c, m, Front(es)), Last(es), t);
    }
  }
}
