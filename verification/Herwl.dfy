/**
 Hardware read-write lock elision (HERWL) as an interleaving of atomic steps.

 Readers announce themselves by making a per-thread counter odd and run concurrently with
 speculating writers.  A writer speculates in a hardware transaction, then in a rollback-only
 transaction (which tracks writes but not reads) under writer_lock == 1, and at last runs under
 writer_lock == 2.
 */
module Herwl {
  import opened Replay
  import opened Htm

  datatype Config = Config(n: nat, htmRetries: int, rotRetries: int, policy: int)

  datatype Pc =
    | Idle
    | RdSpin                                   // while writer_lock == 2
    | RdCount                                  // about to make the counter odd
    | RdCheck                                  // about to test writer_lock == 2
    | RdBack                                   // about to make the counter even and retry
    | RdBody(log: Log)
    | WrSpin(tries: int)                       // while writer_lock != 0
    | TxSubscribe(tries: int)                  // begun, about to read writer_lock
    | TxBody(tries: int, tx: Tx)
    | TxQuiesce(tries: int, tx: Tx, k: nat)    // suspended, waiting for counter k to be even
    | RotLock                                  // compare-and-swap writer_lock 0 -> 1
    | RotBegin(tries: int)                     // owns writer_lock == 1
    | RotBody(tries: int, tx: Tx)
    | RotSnap(tries: int, tx: Tx, k: nat, snap: seq<nat>)
    | RotWait(tries: int, tx: Tx, k: nat, snap: seq<nat>)
    | RotUnlock                                // committed, about to clear writer_lock
    | GlSet                                    // about to set writer_lock to 2
    | GlWait(k: nat)                           // waiting for counter k to be even
    | GlBody(log: Log)

  datatype State = State(lock: nat, counters: seq<nat>, mem: Memory, pcs: seq<Pc>, hist: seq<Section>)

  datatype Cause = Conflict | User | Capacity | Other

  datatype Event =
    | Enter(t: nat, ro: bool)
    | Go(t: nat)
    | Read(t: nat, a: int)
    | Write(t: nat, a: int, v: int)
    | Finish(t: nat)
    | Abort(t: nat, why: Cause)              // not while suspended: the writer resumes first

  predicate IsHtm(p: Pc) {
    p.TxBody? || p.TxQuiesce?
  }

  predicate IsRot(p: Pc) {
    p.RotBody? || p.RotSnap? || p.RotWait?
  }

  predicate LiveHtm(p: Pc) {
    IsHtm(p) && !p.tx.doomed
  }

  predicate LiveRot(p: Pc) {
    IsRot(p) && !p.tx.doomed
  }

  // Rollback-only transactions do not track reads, and never the lock word.
  predicate Hit(p: Pc, l: Loc, write: bool) {
    match l
    case Data(a) => (IsHtm(p) && (a in p.tx.buf || (write && a in p.tx.rs))) || (IsRot(p) && a in p.tx.buf)
    case LockWord => IsHtm(p) && write
    case Cell(_) => false
  }

  function Condemn(p: Pc): Pc {
    if IsHtm(p) || IsRot(p) then p.(tx := p.tx.(doomed := true)) else p
  }

  function Doom(pcs: seq<Pc>, t: nat, l: Loc, write: bool): (r: seq<Pc>)
    ensures |r| == |pcs|
    ensures forall i :: 0 <= i < |pcs| ==>
      r[i] == if i != t && Hit(pcs[i], l, write) then Condemn(pcs[i]) else pcs[i]
  {
    seq(|pcs|, i requires 0 <= i < |pcs| => if i != t && Hit(pcs[i], l, write) then Condemn(pcs[i]) else pcs[i])
  }

  // The budget of the hardware loop: every abort costs one try, a conflict two.
  function SpendHtm(c: Config, tries: int, why: Cause): int {
    match why
    case Conflict => tries - 2
    case Capacity => SpendBudget(c.policy, tries) - 1
    case User => tries - 1
    case Other => tries - 1
  }

  function SpendRot(c: Config, tries: int, why: Cause): int {
    if why == Capacity then SpendBudget(c.policy, tries) else tries - 1
  }

  function WriterLoop(tries: int): Pc {
    if tries > 0 then WrSpin(tries) else RotLock
  }

  predicate Enabled(c: Config, s: State, e: Event) {
    |s.pcs| == |s.counters| && e.t < |s.pcs| &&
    var p := s.pcs[e.t];
    match e
    case Enter(_, _) => p.Idle?
    case Go(_) =>
      p.RdSpin? || p.RdCount? || p.RdCheck? || p.RdBack? || p.WrSpin? || p.TxSubscribe? ||
      (p.TxQuiesce? && (p.tx.doomed ==> p.k < |s.counters|)) || p.RotLock? || p.RotBegin? ||
      ((p.RotSnap? || p.RotWait?) && !p.tx.doomed && |p.snap| == |s.counters|) ||
      p.RotUnlock? || p.GlSet? || p.GlWait?
    case Read(_, _) => p.RdBody? || p.GlBody? || ((p.TxBody? || p.RotBody?) && !p.tx.doomed)
    case Write(_, _, _) => p.GlBody? || ((p.TxBody? || p.RotBody?) && !p.tx.doomed)
    case Finish(_) => p.RdBody? || p.GlBody? || ((p.TxBody? || p.RotBody?) && !p.tx.doomed)
    case Abort(_, _) => p.TxSubscribe? || p.TxBody? || (p.TxQuiesce? && p.k >= |s.counters|) || IsRot(p)
  }

  function Next(c: Config, s: State, e: Event): State
    requires Enabled(c, s, e)
  {
    var t := e.t;
    var p := s.pcs[t];
    match e
    case Enter(_, ro) => s.(pcs := s.pcs[t := if ro then RdSpin else WriterLoop(c.htmRetries)])
    case Go(_) => LockStep(c, s, t)
    case Read(_, a) =>
      var pcs := Doom(s.pcs, t, Data(a), false);
      s.(pcs := pcs[t :=
        if p.TxBody? then TxBody(p.tries, TxAfterRead(s.mem, p.tx, a))
        else if p.RotBody? then RotBody(p.tries, TxAfterRead(s.mem, p.tx, a))
        else if p.GlBody? then GlBody(p.log + [Rd(a, Get(s.mem, a))])
        else RdBody(p.log + [Rd(a, Get(s.mem, a))])])
    case Write(_, a, v) =>
      var pcs := Doom(s.pcs, t, Data(a), true);
      if p.GlBody? then s.(mem := s.mem[a := v], pcs := pcs[t := GlBody(p.log + [Wr(a, v)])])
      else s.(pcs := pcs[t :=
        if p.TxBody? then TxBody(p.tries, TxAfterWrite(p.tx, a, v))
        else RotBody(p.tries, TxAfterWrite(p.tx, a, v))])
    case Finish(_) =>
      if p.RdBody? then
        s.(counters := s.counters[t := s.counters[t] + 1], pcs := s.pcs[t := Idle],
           hist := s.hist + [Section(t, p.log)])
      else if p.GlBody? then
        s.(lock := 0, pcs := Doom(s.pcs, t, LockWord, true)[t := Idle], hist := s.hist + [Section(t, p.log)])
      else if p.TxBody? then s.(pcs := s.pcs[t := TxQuiesce(p.tries, p.tx, 0)])
      else s.(pcs := s.pcs[t := RotSnap(p.tries, p.tx, 0, seq(|s.counters|, _ => 0))])
    case Abort(_, why) =>
      s.(pcs := s.pcs[t :=
        if IsRot(p) then RotBegin(SpendRot(c, p.tries, why)) else WriterLoop(SpendHtm(c, p.tries, why))])
  }

  // Publish the write buffer and record the section.
  function Commit(s: State, t: nat, tx: Tx, p: Pc): State
    requires t < |s.pcs|
  {
    s.(mem := s.mem + tx.buf, pcs := s.pcs[t := p], hist := s.hist + [Section(t, tx.log)])
  }

  predicate Odd(x: nat) {
    x % 2 == 1
  }

  function LockStep(c: Config, s: State, t: nat): State
    requires Enabled(c, s, Go(t))
  {
    match s.pcs[t]
    case RdSpin => if s.lock == 2 then s else s.(pcs := s.pcs[t := RdCount])
    case RdCount => s.(counters := s.counters[t := s.counters[t] + 1], pcs := s.pcs[t := RdCheck])
    case RdCheck => s.(pcs := s.pcs[t := if s.lock == 2 then RdBack else RdBody([])])
    case RdBack => s.(counters := s.counters[t := s.counters[t] + 1], pcs := s.pcs[t := RdSpin])
    case WrSpin(tries) => if s.lock != 0 then s else s.(pcs := s.pcs[t := TxSubscribe(tries)])
    case TxSubscribe(tries) =>
      if s.lock != 0 then s.(pcs := s.pcs[t := WriterLoop(SpendHtm(c, tries, User))])
      else s.(pcs := s.pcs[t := TxBody(tries, Fresh())])
    case TxQuiesce(tries, tx, k) =>
      if k >= |s.counters| then Commit(s, t, tx, Idle)
      else if Odd(s.counters[k]) then s
      else s.(pcs := s.pcs[t := TxQuiesce(tries, tx, k + 1)])
    case RotLock =>
      if s.lock != 0 then s
      else s.(lock := 1, pcs := Doom(s.pcs, t, LockWord, true)[t := RotBegin(c.rotRetries)])
    case RotBegin(tries) =>
      s.(pcs := s.pcs[t := if tries > 0 then RotBody(tries, Fresh()) else GlSet])
    case RotSnap(tries, tx, k, snap) =>
      if k >= |s.counters| then s.(pcs := s.pcs[t := RotWait(tries, tx, 0, snap)])
      else s.(pcs := s.pcs[t := RotSnap(tries, tx, k + 1, snap[k := if Odd(s.counters[k]) then s.counters[k] else 0])])
    case RotWait(tries, tx, k, snap) =>
      if k >= |s.counters| then Commit(s, t, tx, RotUnlock)
      else if snap[k] != 0 && s.counters[k] == snap[k] then s
      else s.(pcs := s.pcs[t := RotWait(tries, tx, k + 1, snap)])
    case RotUnlock => s.(lock := 0, pcs := Doom(s.pcs, t, LockWord, true)[t := Idle])
    case GlSet => s.(lock := 2, pcs := Doom(s.pcs, t, LockWord, true)[t := GlWait(0)])
    case GlWait(k) =>
      if k >= |s.counters| then s.(pcs := s.pcs[t := GlBody([])])
      else if Odd(s.counters[k]) then s
      else s.(pcs := s.pcs[t := GlWait(k + 1)])
  }

  function Init(c: Config, m: Memory): State {
    State(0, seq(c.n, _ => 0), m, seq(c.n, _ => Idle), [])
  }

  ghost predicate Legal(c: Config, m: Memory, es: seq<Event>) {
    es == [] || (Legal(c, m, Front(es)) && Enabled(c, After(c, m, Front(es)), Last(es)))
  }

  function After(c: Config, m: Memory, es: seq<Event>): State {
    if es == [] then Init(c, m)
    else
      var s := After(c, m, Front(es));
      if Enabled(c, s, Last(es)) then Next(c, s, Last(es)) else s
  }
}
