/**
 Data memory, logs of section accesses, and serial replay.

 A section is one critical section between TM_BEGIN and TM_END.  Its log is the list of data
 accesses it made, with the value every read returned.  Serial replay runs whole sections one
 after the other on a memory and asks that every logged read returns the logged value.
 */
module Replay {

  type Memory = map<int, int>

  // A word that was never written holds 0.
  function Get(m: Memory, a: int): int {
    if a in m then m[a] else 0
  }

  datatype Access = Rd(a: int, v: int) | Wr(a: int, v: int)

  type Log = seq<Access>

  function Front<T>(s: seq<T>): seq<T>
    requires s != []
  {
    s[..|s| - 1]
  }

  function Last<T>(s: seq<T>): T
    requires s != []
  {
    s[|s| - 1]
  }

  // The addresses read by a log.
  function ReadSet(log: Log): set<int> {
    if log == [] then {}
    else ReadSet(Front(log)) + if Last(log).Rd? then {Last(log).a} else {}
  }

  // The final value of every address written by a log.
  function Writes(log: Log): map<int, int> {
    if log == [] then map[]
    else if Last(log).Wr? then Writes(Front(log))[Last(log).a := Last(log).v]
    else Writes(Front(log))
  }

  // The memory after the log's writes, in order.
  function Apply(m: Memory, log: Log): Memory {
    if log == [] then m
    else if Last(log).Wr? then Apply(m, Front(log))[Last(log).a := Last(log).v]
    else Apply(m, Front(log))
  }

  // Every read of the log returns what a run of the log alone from m reads.
  ghost predicate Valid(m: Memory, log: Log) {
    log == [] ||
    (Valid(m, Front(log)) && (Last(log).Rd? ==> Get(Apply(m, Front(log)), Last(log).a) == Last(log).v))
  }

  datatype Section = Section(t: nat, log: Log)

  // The memory after a serial run of whole sections.
  function ReplayMemory(m: Memory, h: seq<Section>): Memory {
    if h == [] then m else Apply(ReplayMemory(m, Front(h)), Last(h).log)
  }

  // A serial run of whole sections reproduces every logged read.
  ghost predicate ReplayValid(m: Memory, h: seq<Section>) {
    h == [] ||
    (ReplayValid(m, Front(h)) && Valid(ReplayMemory(m, Front(h)), Last(h).log))
  }

  lemma {:induction false} FrontOfAppend<T>(s: seq<T>, x: T)
    ensures Front(s + [x]) == s && Last(s + [x]) == x
  {
  }

  lemma {:induction false} ApplyIsMerge(m: Memory, log: Log)
    ensures Apply(m, log) == m + Writes(log)
  {
    if log != [] {
      ApplyIsMerge(m, Front(log));
    }
  }

  lemma {:induction false} ApplyAt(m: Memory, log: Log, a: int)
    ensures Get(Apply(m, log), a) == if a in Writes(log) then Writes(log)[a] else Get(m, a)
  {
    ApplyIsMerge(m, log);
  }

  // A log replays alike on two memories that agree wherever it reads.
  lemma {:induction false} ValidTransfers(m: Memory, m': Memory, log: Log)
    requires forall a :: a in ReadSet(log) ==> Get(m, a) == Get(m', a)
    requires Valid(m, log)
    ensures Valid(m', log)
  {
    if log != [] {
      ValidTransfers(m, m', Front(log));
      if Last(log).Rd? {
        assert Last(log).a in ReadSet(log);
        ApplyAt(m, Front(log), Last(log).a);
        ApplyAt(m', Front(log), Last(log).a);
      }
    }
  }

  lemma {:induction false} EmptyLog(m: Memory)
    ensures Valid(m, []) && Apply(m, []) == m && ReadSet([]) == {} && Writes([]) == map[]
  {
  }

  lemma {:induction false} ExtendLog(m: Memory, log: Log, x: Access)
    requires Valid(m, log)
    requires x.Rd? ==> Get(Apply(m, log), x.a) == x.v
    ensures Valid(m, log + [x])
    ensures Apply(m, log + [x]) == if x.Wr? then Apply(m, log)[x.a := x.v] else Apply(m, log)
    ensures ReadSet(log + [x]) == ReadSet(log) + if x.Rd? then {x.a} else {}
    ensures Writes(log + [x]) == if x.Wr? then Writes(log)[x.a := x.v] else Writes(log)
  {
    FrontOfAppend(log, x);
  }

  lemma {:induction false} ExtendHistory(m: Memory, h: seq<Section>, x: Section)
    requires ReplayValid(m, h)
    requires Valid(ReplayMemory(m, h), x.log)
    ensures ReplayValid(m, h + [x])
    ensures ReplayMemory(m, h + [x]) == Apply(ReplayMemory(m, h), x.log)
  {
    FrontOfAppend(h, x);
  }

  // The reads of a log without writes are reads of one and the same memory.
  lemma {:induction false} ReaderSeesOneMemory(m: Memory, log: Log)
    requires Valid(m, log) && Writes(log) == map[]
    ensures forall i :: 0 <= i < |log| ==> log[i].Rd? && Get(m, log[i].a) == log[i].v
  {
    if log != [] {
      var x := Last(log);
      assert x.Wr? ==> x.a in Writes(log);
      ReaderSeesOneMemory(m, Front(log));
      ApplyAt(m, Front(log), Last(log).a);
    }
  }
}
