/**
 HERWL against its events alone: what a section asked for, whether it began as a reader or a writer, and
 how often it was aborted in either kind of transaction are read off the run, and every run does what
 they say.
 */
module HerwlEvents {
  import opened Replay
  import opened Requests
  import opened Htm
  import opened Herwl
  import opened HerwlSafety
  import opened HerwlProgress

  // ---------- what sections ask for ----------

  function Asks(e: Event): seq<Request> {
    match e
    case Read(_, a) => [Load(a)]
    case Write(_, a, v) => [Store(a, v)]
    case _ => []
  }

  // The data accesses t has asked for since its last step of another kind.
  function Asked(es: seq<Event>, t: nat): seq<Request> {
    if es == [] then []
    else if Last(es).t != t then Asked(Front(es), t)
    else if Last(es).Read? || Last(es).Write? then Asked(Front(es), t) + Asks(Last(es))
    else []
  }

  // The data accesses t had asked for when it last reached the end of a section.
  function Closed(es: seq<Event>, t: nat): seq<Request> {
    if es == [] then []
    else if Last(es).t == t && Last(es).Finish? then Asked(Front(es), t)
    else Closed(Front(es), t)
  }

  predicate Inside(p: Pc) {
    IsHtm(p) || IsRot(p) || p.GlBody? || p.RdBody?
  }

  // A step from p to q completes a section.
  predicate Completes(p: Pc, q: Pc) {
    Inside(p) && (q.Idle? || q.RotUnlock?)
  }

  // The log of the section.
  function LogOf(p: Pc): Log {
    if IsHtm(p) || IsRot(p) then p.tx.log else if p.GlBody? || p.RdBody? then p.log else []
  }

  // The sections completed, in order, and what they asked for.
  function Jobs(c: Config, m: Memory, es: seq<Event>): seq<Job> {
    if es == [] then []
    else
      var pcs, pcs', t := After(c, m, Front(es)).pcs, After(c, m, es).pcs, Last(es).t;
      Jobs(c, m, Front(es)) +
      if t < |pcs| && t < |pcs'| && Completes(pcs[t], pcs'[t]) then [Job(t, Closed(es, t))] else []
  }

  // Still making accesses.
  predicate InBody(p: Pc) {
    p.TxBody? || p.RotBody? || p.GlBody? || p.RdBody?
  }

  // The log of a thread in its section records what it has asked for.
  predicate LogOk(p: Pc, asked: seq<Request>, closed: seq<Request>) {
    Inside(p) ==> Records(LogOf(p), if InBody(p) then asked else closed)
  }

  lemma {:induction false} AccessStep(c: Config, s: State, e: Event, es: seq<Event>)
    requires Enabled(c, s, e) && es != [] && Last(es) == e && (e.Read? || e.Write?)
    requires LogOk(s.pcs[e.t], Asked(Front(es), e.t), Closed(Front(es), e.t))
    ensures |Next(c, s, e).pcs| == |s.pcs|
    ensures LogOk(Next(c, s, e).pcs[e.t], Asked(es, e.t), Closed(es, e.t))
  {
    hide Doom, Records, Record, Hit;
    var p, asked := s.pcs[e.t], Asked(Front(es), e.t);
    var v := if e.Write? then e.v else if IsHtm(p) || IsRot(p) then TxRead(s.mem, p.tx, e.a) else Get(s.mem, e.a);
    var x := if e.Write? then Wr(e.a, v) else Rd(e.a, v);
    assert Record(x, Asks(e)[0]) by {
      Plain(x, e);
    }
    RecordsMore(LogOf(p), asked, x, Asks(e)[0]);
  }

  lemma {:induction false} Plain(x: Access, e: Event)
    requires (e.Write? && x == Wr(e.a, e.v)) || (e.Read? && x.Rd? && x.a == e.a)
    ensures Record(x, Asks(e)[0])
  {
  }

  // What a step that is no data access does to a section: it begins with an empty log, keeps the log
  // from its release on, completes, or is given up.
  ghost predicate StepShape(s: State, e: Event, s': State)
    requires e.t < |s.pcs| == |s'.pcs|
  {
    var p, q := s.pcs[e.t], s'.pcs[e.t];
    && (InBody(q) ==> LogOf(q) == [])
    && (Inside(q) && !InBody(q) ==> Inside(p) && LogOf(q) == LogOf(p) && (InBody(p) <==> e.Finish?))
    && (Completes(p, q) ==> (InBody(p) <==> e.Finish?))
    && s'.hist == s.hist + if Completes(p, q) then [Section(e.t, LogOf(p))] else []
  }

  lemma {:induction false} ShapeInside(c: Config, s: State, t: nat)
    requires Enabled(c, s, Go(t)) && Inside(s.pcs[t])
    ensures |Next(c, s, Go(t)).pcs| == |s.pcs| && StepShape(s, Go(t), Next(c, s, Go(t)))
  {
    hide Doom, Hit, WriterLoop, SpendHtm, Odd;
  }

  lemma {:induction false} ShapeOutside(c: Config, s: State, t: nat)
    requires Enabled(c, s, Go(t)) && !Inside(s.pcs[t])
    ensures |Next(c, s, Go(t)).pcs| == |s.pcs| && StepShape(s, Go(t), Next(c, s, Go(t)))
  {
    hide Doom, Hit, WriterLoop, SpendHtm, Odd;
    if s.pcs[t].TxSubscribe? {
      LoopOutside(SpendHtm(c, s.pcs[t].tries, User));
    }
  }

  lemma {:induction false} ShapeOfStep(c: Config, s: State, e: Event)
    requires Enabled(c, s, e) && !e.Read? && !e.Write?
    ensures |Next(c, s, e).pcs| == |s.pcs| && StepShape(s, e, Next(c, s, e))
  {
    if e.Go? {
      if Inside(s.pcs[e.t]) {
        ShapeInside(c, s, e.t);
      } else {
        ShapeOutside(c, s, e.t);
      }
    } else {
      hide Doom, Hit, WriterLoop, SpendHtm, SpendRot, LockStep;
      LoopOutside(c.htmRetries);
      if e.Abort? && !IsRot(s.pcs[e.t]) {
        LoopOutside(SpendHtm(c, s.pcs[e.t].tries, e.why));
      }
    }
  }

  lemma {:induction false} OtherStep(c: Config, s: State, e: Event, es: seq<Event>)
    requires Enabled(c, s, e) && es != [] && Last(es) == e && !e.Read? && !e.Write?
    requires LogOk(s.pcs[e.t], Asked(Front(es), e.t), Closed(Front(es), e.t)) && Records([], [])
    ensures |Next(c, s, e).pcs| == |s.pcs|
    ensures LogOk(Next(c, s, e).pcs[e.t], Asked(es, e.t), Closed(es, e.t))
  {
    ShapeOfStep(c, s, e);
    hide Enabled, Next, Records, LogOf, Inside, InBody;
  }

  lemma {:induction false} LoopOutside(tries: int)
    ensures !Inside(WriterLoop(tries)) && !WriterLoop(tries).Idle? && !WriterLoop(tries).RotUnlock?
    ensures Plays(WriterLoop(tries), Writer)
  {
  }

  lemma {:induction false} LogStep(c: Config, s: State, e: Event, es: seq<Event>)
    requires Enabled(c, s, e) && es != [] && Last(es) == e
    requires LogOk(s.pcs[e.t], Asked(Front(es), e.t), Closed(Front(es), e.t))
    ensures |Next(c, s, e).pcs| == |s.pcs|
    ensures LogOk(Next(c, s, e).pcs[e.t], Asked(es, e.t), Closed(es, e.t))
  {
    RecordsNone();
    if e.Read? || e.Write? {
      AccessStep(c, s, e, es);
    } else {
      OtherStep(c, s, e, es);
    }
  }

  // A section is recorded in the history as it completes, with the log of its accesses.
  lemma {:induction false} HistStep(c: Config, s: State, e: Event)
    requires Enabled(c, s, e)
    ensures var p, s' := s.pcs[e.t], Next(c, s, e);
      |s'.pcs| == |s.pcs| &&
      s'.hist == s.hist + if Completes(p, s'.pcs[e.t]) then [Section(e.t, LogOf(p))] else []
  {
    if e.Read? || e.Write? {
      hide Doom, Hit, TxRead, TxAfterRead, TxAfterWrite, Get, LogOf;
    } else {
      ShapeOfStep(c, s, e);
    }
  }

  // A section completes by its release, or by the last step of a committing writer.
  lemma {:induction false} ClosedAtEnd(c: Config, s: State, e: Event, es: seq<Event>)
    requires Enabled(c, s, e) && es != [] && Last(es) == e && Completes(s.pcs[e.t], Next(c, s, e).pcs[e.t])
    requires LogOk(s.pcs[e.t], Asked(Front(es), e.t), Closed(Front(es), e.t))
    ensures Records(LogOf(s.pcs[e.t]), Closed(es, e.t))
  {
    if e.Read? || e.Write? {
      hide Doom, Hit, TxRead, TxAfterRead, TxAfterWrite, Get, LogOf, Records;
    } else {
      ShapeOfStep(c, s, e);
      hide Enabled, Next, Records, LogOf;
    }
  }

  lemma {:induction false} LogStepAny(c: Config, s: State, e: Event, es: seq<Event>, u: nat)
    requires Enabled(c, s, e) && es != [] && Last(es) == e && |Next(c, s, e).pcs| == |s.pcs| && u < |s.pcs|
    requires LogOk(s.pcs[u], Asked(Front(es), u), Closed(Front(es), u))
    ensures LogOk(Next(c, s, e).pcs[u], Asked(es, u), Closed(es, u))
  {
    hide Enabled, Next, Records;
    if u == e.t {
      LogStep(c, s, e, es);
    } else {
      OthersStay(c, s, e, u);
    }
  }

  lemma {:induction false} HistoryStep(c: Config, s: State, e: Event, es: seq<Event>, jobs: seq<Job>)
    requires Enabled(c, s, e) && es != [] && Last(es) == e && RecordsJobs(s.hist, jobs)
    requires LogOk(s.pcs[e.t], Asked(Front(es), e.t), Closed(Front(es), e.t))
    ensures |Next(c, s, e).pcs| == |s.pcs|
    ensures RecordsJobs(Next(c, s, e).hist,
      jobs + if Completes(s.pcs[e.t], Next(c, s, e).pcs[e.t]) then [Job(e.t, Closed(es, e.t))] else [])
  {
    HistStep(c, s, e);
    var p := s.pcs[e.t];
    if Completes(p, Next(c, s, e).pcs[e.t]) {
      ClosedAtEnd(c, s, e, es);
      RecordsJob(s.hist, jobs, Section(e.t, LogOf(p)), Job(e.t, Closed(es, e.t)));
    }
    hide Enabled, Next, Records, RecordsJobs;
  }

  // In every run, the log of a thread in its section is the list of what it has asked for, and the
  // history lists the completed sections with what each of them asked for.
  lemma {:induction false} LogsAreRequests(c: Config, m: Memory, es: seq<Event>)
    requires Legal(c, m, es)
    ensures var s := After(c, m, es);
      && (forall t :: 0 <= t < |s.pcs| ==> LogOk(s.pcs[t], Asked(es, t), Closed(es, t)))
      && RecordsJobs(s.hist, Jobs(c, m, es))
  {
    if es == [] {
      RecordsNone();
    } else {
      LogsAreRequests(c, m, Front(es));
      var s, e := After(c, m, Front(es)), Last(es);
      HistoryStep(c, s, e, es, Jobs(c, m, Front(es)));
      forall u | 0 <= u < |Next(c, s, e).pcs|
        ensures LogOk(Next(c, s, e).pcs[u], Asked(es, u), Closed(es, u))
      {
        LogStepAny(c, s, e, es, u);
      }
      hide Enabled, Next, LogOk, Records, RecordsJobs;
    }
  }

  // Every run does what plain code would: the completed sections, run one after the other on their
  // requests alone, make every access that was made and leave the memory that is there, with the
  // global-lock writer in its section as the next of them.
  lemma {:induction false} RunsAsPlainCode(c: Config, m: Memory, es: seq<Event>)
    requires Legal(c, m, es)
    ensures var s, jobs := After(c, m, es), Jobs(c, m, es);
      && s.hist == SerialHistory(m, jobs)
      && ((forall t :: 0 <= t < |s.pcs| ==> !s.pcs[t].GlBody?) ==> s.mem == SerialMemory(m, jobs))
      && (forall t :: 0 <= t < |s.pcs| && s.pcs[t].GlBody? ==>
            s.mem == SerialMemory(m, jobs + [Job(t, Asked(es, t))]) &&
            s.pcs[t].log == Logged(SerialMemory(m, jobs), Asked(es, t)))
  {
    hide Legal, After, Records, RecordsJobs, Asked, Closed, SerialMemory, SerialHistory;
    hide ReplayMemory, ReplayValid, Valid, Inv;
    LogsAreRequests(c, m, es);
    HerwlSerialisable(c, m, es);
    var s, jobs := After(c, m, es), Jobs(c, m, es);
    JobsArePlain(m, s.hist, jobs);
    if forall t :: 0 <= t < |s.pcs| ==> !s.pcs[t].GlBody? {
      SerialButForGlobal(c, m, es);
    }
    forall t | 0 <= t < |s.pcs| && s.pcs[t].GlBody?
      ensures s.mem == SerialMemory(m, jobs + [Job(t, Asked(es, t))])
      ensures s.pcs[t].log == Logged(SerialMemory(m, jobs), Asked(es, t))
    {
      GlobalBase(c, m, es, t);
      assert LogOk(s.pcs[t], Asked(es, t), Closed(es, t));
      RecordsArePlain(SerialMemory(m, jobs), s.pcs[t].log, Asked(es, t));
      OneMore(m, jobs, Job(t, Asked(es, t)));
    }
  }

  lemma {:induction false} GlobalBase(c: Config, m: Memory, es: seq<Event>, t: nat)
    requires Legal(c, m, es) && t < |After(c, m, es).pcs| && After(c, m, es).pcs[t].GlBody?
    ensures var s := After(c, m, es);
      Valid(ReplayMemory(m, s.hist), s.pcs[t].log) && Apply(ReplayMemory(m, s.hist), s.pcs[t].log) == s.mem
  {
    InvAlways(c, m, es);
    var s := After(c, m, es);
    assert |s.pcs| == |s.counters| && Good(m, s, t);
  }

  // A read answers with the value that the section stored there last, or else with what memory holds.
  lemma {:induction false} ReadAnswers(c: Config, m: Memory, es: seq<Event>, t: nat, a: int)
    requires Legal(c, m, es) && Enabled(c, After(c, m, es), Read(t, a))
    ensures var s := After(c, m, es);
      var q := Next(c, s, Read(t, a)).pcs[t];
      InBody(q) && LogOf(q) == LogOf(s.pcs[t]) + [Rd(a, Answer(s.mem, Asked(es, t), a))]
  {
    hide Legal, After, Records, Asked, Closed, Doom, ReplayMemory, ReplayValid;
    LogsAreRequests(c, m, es);
    InvAlways(c, m, es);
    var s := After(c, m, es);
    var p := s.pcs[t];
    assert LogOk(p, Asked(es, t), Closed(es, t)) && Good(m, s, t);
    WritesAnswer(s.mem, LogOf(p), Asked(es, t), a);
    if p.GlBody? {
      ApplyAt(ReplayMemory(m, s.hist), p.log, a);
    }
  }

  // ---------- what condemns a transaction ----------

  // The event conflicts with a transaction of another thread that has made the requests rs.  A rollback-
  // only transaction minds only accesses to what it stores; a hardware one also stores to what it loads
  // and to the lock word.
  ghost predicate Conflicts(s: State, s': State, e: Event, rs: seq<Request>, htm: bool) {
    match e
    case Read(_, a) => Touches(rs, a, false)
    case Write(_, a, _) => Touches(rs, a, htm)
    case _ => htm && s'.lock != s.lock
  }

  // In every run a step of another thread condemns a live transaction exactly if it conflicts with what
  // the transaction has asked for so far.
  lemma {:induction false} CondemnedIffConflict(c: Config, m: Memory, es: seq<Event>, e: Event, u: nat)
    requires Legal(c, m, es) && Enabled(c, After(c, m, es), e) && e.t != u && u < |After(c, m, es).pcs|
    requires LiveHtm(After(c, m, es).pcs[u]) || LiveRot(After(c, m, es).pcs[u])
    ensures var s, s' := After(c, m, es), Next(c, After(c, m, es), e);
      && |s'.pcs| == |s.pcs| && (IsHtm(s'.pcs[u]) || IsRot(s'.pcs[u]))
      && (s'.pcs[u].tx.doomed <==>
            Conflicts(s, s', e, if InBody(s.pcs[u]) then Asked(es, u) else Closed(es, u), IsHtm(s.pcs[u])))
  {
    hide Legal, After, Records, Asked, Closed, ReplayMemory, ReplayValid, Touches, PairOk;
    LogsAreRequests(c, m, es);
    InvAlways(c, m, es);
    var s := After(c, m, es);
    var p := s.pcs[u];
    assert LogOk(p, Asked(es, u), Closed(es, u)) && Good(m, s, u) && Good(m, s, e.t);
    if e.Read? || e.Write? {
      RecordsTouch(p.tx.log, if InBody(p) then Asked(es, u) else Closed(es, u), e.a);
    }
    CondemnStep(c, s, e, u);
  }

  // The step of the hardware: what a transaction has written, and if it is tracked what it has read.
  lemma {:induction false} CondemnStep(c: Config, s: State, e: Event, u: nat)
    requires Enabled(c, s, e) && u < |s.pcs| && u != e.t && (LiveHtm(s.pcs[u]) || LiveRot(s.pcs[u]))
    requires OwnsOne(s.pcs[e.t]) ==> s.lock == 1
    requires OwnsTwo(s.pcs[e.t]) ==> s.lock == 2
    ensures var s', p := Next(c, s, e), s.pcs[u];
      && |s'.pcs| == |s.pcs| && (IsHtm(s'.pcs[u]) || IsRot(s'.pcs[u]))
      && (s'.pcs[u].tx.doomed <==>
            match e
            case Read(_, a) => a in p.tx.buf
            case Write(_, a, _) => a in p.tx.buf || (IsHtm(p) && a in p.tx.rs)
            case _ => IsHtm(p) && s'.lock != s.lock)
  {
    hide TxRead, TxAfterRead, TxAfterWrite, SpendHtm, SpendRot, WriterLoop, Odd, Get, Fresh;
    if e.Read? || e.Write? {
      hide LockStep, Commit;
    }
  }

  // ---------- readers and writers ----------

  // What t last began a section as.
  function RoleOf(es: seq<Event>, t: nat): Role {
    if es == [] then Outside
    else if Last(es).t == t && Last(es).Enter? then if Last(es).ro then Reader else Writer
    else RoleOf(Front(es), t)
  }

  // Only a reader runs uninstrumented, and only a writer speculates or takes the lock word.
  predicate Plays(p: Pc, role: Role) {
    match p
    case Idle => true
    case RdSpin => role == Reader
    case RdCount => role == Reader
    case RdCheck => role == Reader
    case RdBack => role == Reader
    case RdBody(_) => role == Reader
    case _ => role == Writer
  }

  lemma {:induction false} PlaysOwn(c: Config, s: State, e: Event, role: Role)
    requires Enabled(c, s, e) && Plays(s.pcs[e.t], role)
    ensures |Next(c, s, e).pcs| == |s.pcs|
    ensures Plays(Next(c, s, e).pcs[e.t], if e.Enter? then if e.ro then Reader else Writer else role)
  {
    hide Doom, Hit, Get, TxRead, TxAfterRead, TxAfterWrite, Fresh, SpendHtm, SpendRot, WriterLoop, Odd;
    var p := s.pcs[e.t];
    LoopOutside(c.htmRetries);
    if p.TxSubscribe? || IsHtm(p) {
      LoopOutside(SpendHtm(c, p.tries, if e.Abort? then e.why else User));
    }
  }

  // In every run a section runs the code of what it began as.
  lemma {:induction false} RolesAreKept(c: Config, m: Memory, es: seq<Event>, t: nat)
    requires Legal(c, m, es) && t < c.n
    ensures |After(c, m, es).pcs| == c.n && Plays(After(c, m, es).pcs[t], RoleOf(es, t))
  {
    if es != [] {
      RolesAreKept(c, m, Front(es), t);
      var s, e := After(c, m, Front(es)), Last(es);
      if e.t == t {
        PlaysOwn(c, s, e, RoleOf(Front(es), t));
      } else {
        OthersStay(c, s, e, t);
      }
      hide Enabled, Next;
    }
  }

  // ---------- every section runs once ----------

  function Begun(es: seq<Event>, t: nat): nat {
    if es == [] then 0 else Begun(Front(es), t) + if Last(es).t == t && Last(es).Enter? then 1 else 0
  }

  // Begun, and not yet complete.
  predicate Underway(p: Pc) {
    !p.Idle? && !p.RotUnlock?
  }

  lemma {:induction false} UnderwayOwn(c: Config, s: State, e: Event)
    requires Enabled(c, s, e)
    ensures var p, s' := s.pcs[e.t], Next(c, s, e);
      && |s'.pcs| == |s.pcs|
      && var q := s'.pcs[e.t];
         && (e.Enter? ==> !Underway(p) && Underway(q) && !Completes(p, q))
         && (!e.Enter? && Completes(p, q) ==> Underway(p) && !Underway(q))
         && (!e.Enter? && !Completes(p, q) ==> Underway(p) == Underway(q))
  {
    hide Doom, Hit, Get, TxRead, TxAfterRead, TxAfterWrite, Fresh, SpendHtm, SpendRot;
  }

  lemma {:induction false} DoneStep(c: Config, s: State, e: Event, t: nat)
    requires Enabled(c, s, e) && t < |s.pcs|
    ensures var s' := Next(c, s, e);
      && |s'.pcs| == |s.pcs|
      && Done(s'.hist, t) + (if Underway(s'.pcs[t]) then 1 else 0) ==
         Done(s.hist, t) + (if Underway(s.pcs[t]) then 1 else 0) + if e.t == t && e.Enter? then 1 else 0
  {
    HistStep(c, s, e);
    UnderwayOwn(c, s, e);
    if e.t != t {
      OthersStay(c, s, e, t);
    }
    hide Enabled, Next;
    var p, s' := s.pcs[e.t], Next(c, s, e);
    if Completes(p, s'.pcs[e.t]) {
      FrontOfAppend(s.hist, Section(e.t, LogOf(p)));
    }
  }

  // In every run each section that was begun has completed once, or is under way.
  lemma {:induction false} EachSectionOnce(c: Config, m: Memory, es: seq<Event>, t: nat)
    requires Legal(c, m, es) && t < c.n
    ensures var s := After(c, m, es);
      |s.pcs| == c.n && Begun(es, t) == Done(s.hist, t) + if Underway(s.pcs[t]) then 1 else 0
  {
    if es != [] {
      EachSectionOnce(c, m, Front(es), t);
      DoneStep(c, After(c, m, Front(es)), Last(es), t);
    }
  }

  // ---------- the exact budgets ----------

  // Why an aborting event aborts: a set lock word is an abort by the program.
  function CauseOf(e: Event): Cause {
    if e.Abort? then e.why else User
  }

  // An abort of a hardware transaction costs a try, and a conflict another one; before that a capacity
  // abort takes what the policy says: all, half or one.
  function HtmSpent(policy: int, left: int, why: Cause): int {
    match why
    case Conflict => left - 2
    case Capacity => if policy == 0 then -1 else if policy == 2 then left / 2 - 1 else left - 2
    case User => left - 1
    case Other => left - 1
  }

  // An abort of a rollback-only transaction costs a try, save that capacity is for the policy to say.
  function RotSpent(policy: int, left: int, why: Cause): int {
    if why == Capacity && policy == 0 then 0 else if why == Capacity && policy == 2 then left / 2 else left - 1
  }

  // The tries left of the section that t last began, in either loop.
  datatype Tries = Tries(htm: int, rot: int)

  function TriesAfter(c: Config, left: Tries, s: State, e: Event): Tries {
    if e.Enter? then Tries(c.htmRetries, c.rotRetries)
    else if AbortsHtm(s, e) then left.(htm := HtmSpent(c.policy, left.htm, CauseOf(e)))
    else if AbortsRot(s, e) then left.(rot := RotSpent(c.policy, left.rot, CauseOf(e)))
    else left
  }

  function TriesLeft(c: Config, m: Memory, es: seq<Event>, t: nat): Tries {
    if es == [] then Tries(c.htmRetries, c.rotRetries)
    else
      var left := TriesLeft(c, m, Front(es), t);
      if Last(es).t == t then TriesAfter(c, left, After(c, m, Front(es)), Last(es)) else left
  }

  // A writer is in the hardware loop until those tries run out, then in the rollback-only loop until
  // those run out, and then at the global lock.
  predicate OnBudget(p: Pc, left: Tries) {
    match p
    case WrSpin(tries) => tries == left.htm > 0
    case TxSubscribe(tries) => tries == left.htm > 0
    case TxBody(tries, _) => tries == left.htm > 0
    case TxQuiesce(tries, _, _) => tries == left.htm > 0
    case RotLock => left.htm <= 0
    case RotBegin(tries) => left.htm <= 0 && tries == left.rot
    case RotBody(tries, _) => left.htm <= 0 && tries == left.rot > 0
    case RotSnap(tries, _, _, _) => left.htm <= 0 && tries == left.rot > 0
    case RotWait(tries, _, _, _) => left.htm <= 0 && tries == left.rot > 0
    case GlSet => left.htm <= 0 && left.rot <= 0
    case GlWait(_) => left.htm <= 0 && left.rot <= 0
    case GlBody(_) => left.htm <= 0 && left.rot <= 0
    case _ => true
  }

  // No rollback-only transaction has been tried while the section is in the hardware loop.
  predicate Unspent(p: Pc, c: Config, left: Tries) {
    (p.WrSpin? || p.TxSubscribe? || IsHtm(p) || p.RotLock?) ==> left.rot == c.rotRetries
  }

  lemma {:induction false} SpentAs(c: Config, left: int, why: Cause)
    requires left > 0
    ensures SpendHtm(c, left, why) == HtmSpent(c.policy, left, why)
    ensures SpendRot(c, left, why) == RotSpent(c.policy, left, why)
  {
  }

  lemma {:induction false} OnBudgetOwn(c: Config, s: State, e: Event, left: Tries)
    requires Enabled(c, s, e) && OnBudget(s.pcs[e.t], left) && Unspent(s.pcs[e.t], c, left)
    ensures |Next(c, s, e).pcs| == |s.pcs|
    ensures OnBudget(Next(c, s, e).pcs[e.t], TriesAfter(c, left, s, e))
    ensures Unspent(Next(c, s, e).pcs[e.t], c, TriesAfter(c, left, s, e))
  {
    hide Doom, Hit, Get, TxRead, TxAfterRead, TxAfterWrite, Fresh, SpendHtm, SpendRot, HtmSpent, RotSpent;
    var p := s.pcs[e.t];
    if p.TxSubscribe? || IsHtm(p) || IsRot(p) {
      SpentAs(c, p.tries, CauseOf(e));
    }
  }

  // In every run a section is in the loop that its tries put it in.
  lemma {:induction false} BudgetIsExact(c: Config, m: Memory, es: seq<Event>, t: nat)
    requires Legal(c, m, es) && t < c.n
    ensures |After(c, m, es).pcs| == c.n
    ensures OnBudget(After(c, m, es).pcs[t], TriesLeft(c, m, es, t))
    ensures Unspent(After(c, m, es).pcs[t], c, TriesLeft(c, m, es, t))
  {
    if es != [] {
      BudgetIsExact(c, m, Front(es), t);
      var s, e := After(c, m, Front(es)), Last(es);
      if e.t == t {
        OnBudgetOwn(c, s, e, TriesLeft(c, m, Front(es), t));
      } else {
        OthersStay(c, s, e, t);
      }
      hide Enabled, Next, TriesAfter;
    }
  }

  // The aborts of hardware transactions for a conflict, and of either kind for capacity, since t last
  // began a section.
  function ForConflict(c: Config, m: Memory, es: seq<Event>, t: nat): nat {
    if es == [] || (Last(es).t == t && Last(es).Enter?) then 0
    else
      var k := ForConflict(c, m, Front(es), t);
      if Last(es).t == t && AbortsHtm(After(c, m, Front(es)), Last(es)) && CauseOf(Last(es)) == Conflict then k + 1
      else k
  }

  function ForCapacity(c: Config, m: Memory, es: seq<Event>, t: nat): nat {
    if es == [] || (Last(es).t == t && Last(es).Enter?) then 0
    else
      var k := ForCapacity(c, m, Front(es), t);
      if Last(es).t == t && Last(es).Abort? && Last(es).why == Capacity then k + 1 else k
  }

  // Without capacity aborts each abort has cost one try of its loop, and a conflict in hardware two.
  lemma {:induction false} CostOfAborts(c: Config, m: Memory, es: seq<Event>, t: nat)
    requires ForCapacity(c, m, es, t) == 0
    ensures TriesLeft(c, m, es, t).htm == c.htmRetries - AbortsOf(c, m, es, t).htm - ForConflict(c, m, es, t)
    ensures TriesLeft(c, m, es, t).rot == c.rotRetries - AbortsOf(c, m, es, t).rot
  {
    hide After;
    if es != [] && !(Last(es).t == t && Last(es).Enter?) {
      CostOfAborts(c, m, Front(es), t);
    }
  }
}
