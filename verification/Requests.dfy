/**
 What sections ask of memory, and what plain sequential code makes of it.

 A request is a data access as the program makes it: the address of a load, the address and value of
 a store.  Nothing here knows of locks, transactions or buffers.
 */
module Requests {
  import opened Replay

  datatype Request = Load(a: int) | Store(a: int, v: int)

  // A section and what it asked for.
  datatype Job = Job(t: nat, requests: seq<Request>)

  // What a thread last began a section as, if it ever did.
  datatype Role = Outside | Reader | Writer

  // ---------- plain code ----------

  // Memory after the stores, in order.
  function Stored(m: Memory, rs: seq<Request>): Memory {
    if rs == [] then m
    else match Last(rs)
      case Load(_) => Stored(m, Front(rs))
      case Store(a, v) => Stored(m, Front(rs))[a := v]
  }

  // What is loaded from a after the requests: the value stored there last, or else what memory holds.
  function Answer(m: Memory, rs: seq<Request>, a: int): int {
    if rs == [] then Get(m, a)
    else if Last(rs).Store? && Last(rs).a == a then Last(rs).v
    else Answer(m, Front(rs), a)
  }

  // The accesses of plain code that makes the requests.
  function Logged(m: Memory, rs: seq<Request>): Log {
    if rs == [] then []
    else Logged(m, Front(rs)) + [Plainly(m, Front(rs), Last(rs))]
  }

  // The access that plain code makes for a request after those in rs.
  function Plainly(m: Memory, rs: seq<Request>, r: Request): Access {
    match r
    case Load(a) => Rd(a, Answer(m, rs, a))
    case Store(a, v) => Wr(a, v)
  }

  // Memory and accesses when the jobs run one after the other.
  function SerialMemory(m: Memory, jobs: seq<Job>): Memory {
    if jobs == [] then m else Stored(SerialMemory(m, Front(jobs)), Last(jobs).requests)
  }

  function SerialHistory(m: Memory, jobs: seq<Job>): seq<Section> {
    if jobs == [] then []
    else
      var log := Logged(SerialMemory(m, Front(jobs)), Last(jobs).requests);
      SerialHistory(m, Front(jobs)) + [Section(Last(jobs).t, log)]
  }

  lemma {:induction false} OneMore(m: Memory, jobs: seq<Job>, job: Job)
    ensures SerialMemory(m, jobs + [job]) == Stored(SerialMemory(m, jobs), job.requests)
  {
    FrontOfAppend(jobs, job);
  }

  // ---------- logs of requests ----------

  predicate Record(x: Access, r: Request) {
    match r
    case Load(a) => x.Rd? && x.a == a
    case Store(a, v) => x == Wr(a, v)
  }

  predicate Records(log: Log, rs: seq<Request>) {
    |log| == |rs| && forall i :: 0 <= i < |log| ==> Record(log[i], rs[i])
  }

  predicate RecordsJobs(h: seq<Section>, jobs: seq<Job>) {
    |h| == |jobs| && forall i :: 0 <= i < |h| ==> h[i].t == jobs[i].t && Records(h[i].log, jobs[i].requests)
  }

  lemma {:induction false} RecordsNone()
    ensures Records([], []) && RecordsJobs([], [])
  {
  }

  lemma {:induction false} RecordsFront(log: Log, rs: seq<Request>)
    requires Records(log, rs) && log != []
    ensures Records(Front(log), Front(rs)) && Record(Last(log), Last(rs))
  {
  }

  lemma {:induction false} RecordsMore(log: Log, rs: seq<Request>, x: Access, r: Request)
    requires Records(log, rs) && Record(x, r)
    ensures Records(log + [x], rs + [r])
  {
  }

  lemma {:induction false} RecordsJob(h: seq<Section>, jobs: seq<Job>, x: Section, job: Job)
    requires RecordsJobs(h, jobs) && x.t == job.t && Records(x.log, job.requests)
    ensures RecordsJobs(h + [x], jobs + [job])
  {
  }

  lemma {:induction false} AnswerIsGet(m: Memory, rs: seq<Request>, a: int)
    ensures Answer(m, rs, a) == Get(Stored(m, rs), a)
  {
    if rs != [] {
      AnswerIsGet(m, Front(rs), a);
    }
  }

  // A log that records the requests and replays is the one that plain code makes.
  lemma {:induction false} RecordsArePlain(m: Memory, log: Log, rs: seq<Request>)
    requires Records(log, rs) && Valid(m, log)
    ensures log == Logged(m, rs) && Apply(m, log) == Stored(m, rs)
  {
    if log != [] {
      RecordsFront(log, rs);
      RecordsArePlain(m, Front(log), Front(rs));
      if Last(rs).Load? {
        AnswerIsGet(m, Front(rs), Last(rs).a);
      }
      assert log == Front(log) + [Last(log)];
    }
  }

  // Plain code makes a log that records its requests and replays.
  lemma {:induction false} LoggedNone(m: Memory)
    ensures Logged(m, []) == [] && Stored(m, []) == m && Writes(Logged(m, [])) == map[]
  {
  }

  lemma {:induction false} LoggedMore(m: Memory, rs: seq<Request>, r: Request)
    ensures Logged(m, rs + [r]) == Logged(m, rs) + [Plainly(m, rs, r)]
    ensures Stored(m, rs + [r]) == match r case Load(_) => Stored(m, rs) case Store(a, v) => Stored(m, rs)[a := v]
  {
    FrontOfAppend(rs, r);
  }

  lemma {:induction false} LoggedRecords(m: Memory, rs: seq<Request>)
    ensures Records(Logged(m, rs), rs)
  {
    if rs != [] {
      LoggedRecords(m, Front(rs));
      RecordsMore(Logged(m, Front(rs)), Front(rs), Plainly(m, Front(rs), Last(rs)), Last(rs));
      assert Front(rs) + [Last(rs)] == rs;
    }
  }

  lemma {:induction false} LoggedStores(m: Memory, rs: seq<Request>)
    ensures m + Writes(Logged(m, rs)) == Stored(m, rs)
  {
    if rs != [] {
      LoggedStores(m, Front(rs));
      FrontOfAppend(Logged(m, Front(rs)), Plainly(m, Front(rs), Last(rs)));
    }
  }

  // The same for whole histories.
  lemma {:induction false} JobsArePlain(m: Memory, h: seq<Section>, jobs: seq<Job>)
    requires RecordsJobs(h, jobs) && ReplayValid(m, h)
    ensures h == SerialHistory(m, jobs) && ReplayMemory(m, h) == SerialMemory(m, jobs)
  {
    if h != [] {
      hide Records;
      JobsArePlain(m, Front(h), Front(jobs));
      RecordsArePlain(SerialMemory(m, Front(jobs)), Last(h).log, Last(jobs).requests);
      assert h == Front(h) + [Last(h)];
    }
  }

  // The value a log last wrote is the answer; where it wrote nothing, memory's is.
  lemma {:induction false} WritesAnswer(m: Memory, log: Log, rs: seq<Request>, a: int)
    requires Records(log, rs)
    ensures Answer(m, rs, a) == if a in Writes(log) then Writes(log)[a] else Get(m, a)
  {
    if log != [] {
      RecordsFront(log, rs);
      WritesAnswer(m, Front(log), Front(rs), a);
    }
  }

  // The requests touch a in a way that a read, or a write, of a by somebody else conflicts with.
  predicate Touches(rs: seq<Request>, a: int, write: bool) {
    exists i :: 0 <= i < |rs| && rs[i].a == a && (write || rs[i].Store?)
  }

  lemma {:induction false} RecordsTouch(log: Log, rs: seq<Request>, a: int)
    requires Records(log, rs)
    ensures a in Writes(log) <==> Touches(rs, a, false)
    ensures a in Writes(log) || a in ReadSet(log) <==> Touches(rs, a, true)
  {
    if log != [] {
      RecordsFront(log, rs);
      RecordsTouch(Front(log), Front(rs), a);
      TouchesMore(Front(rs), Last(rs), a);
      assert Front(rs) + [Last(rs)] == rs;
    }
  }

  lemma {:induction false} TouchesMore(rs: seq<Request>, r: Request, a: int)
    ensures Touches(rs + [r], a, false) <==> Touches(rs, a, false) || r == Store(a, if r.Store? then r.v else 0)
    ensures Touches(rs + [r], a, true) <==> Touches(rs, a, true) || r.a == a
  {
    forall write: bool | Touches(rs, a, write)
      ensures Touches(rs + [r], a, write)
    {
      var i :| 0 <= i < |rs| && rs[i].a == a && (write || rs[i].Store?);
      assert (rs + [r])[i] == rs[i];
    }
    assert (rs + [r])[|rs|] == r;
  }

  // Loads leave memory alone.
  predicate OnlyLoads(rs: seq<Request>) {
    forall i :: 0 <= i < |rs| ==> rs[i].Load?
  }

  // The sections of t in a history.
  function Done(h: seq<Section>, t: nat): nat {
    if h == [] then 0 else Done(Front(h), t) + if Last(h).t == t then 1 else 0
  }
}
