/**
 What the locks assume of hardware transactions.

 A transaction buffers its writes and tracks what it read.  An access of another thread, in a
 transaction or not, that conflicts with a tracked location condemns it: it can then only abort.
 Commit publishes the whole buffer in one step.
 */
module Htm {
  import opened Replay

  datatype Tx = Tx(log: Log, rs: set<int>, buf: map<int, int>, doomed: bool)

  function Fresh(): Tx {
    Tx([], {}, map[], false)
  }

  function TxRead(m: Memory, tx: Tx, a: int): int {
    if a in tx.buf then tx.buf[a] else Get(m, a)
  }

  function TxAfterRead(m: Memory, tx: Tx, a: int): Tx {
    tx.(log := tx.log + [Rd(a, TxRead(m, tx, a))], rs := tx.rs + {a})
  }

  function TxAfterWrite(tx: Tx, a: int, v: int): Tx {
    tx.(log := tx.log + [Wr(a, v)], buf := tx.buf[a := v])
  }

  // Shared locations a transaction can conflict on.
  datatype Loc = Data(a: int) | LockWord | Cell(j: nat)

  // SPEND_BUDGET: what a capacity abort leaves of the retry budget.
  function SpendBudget(policy: int, tries: int): int {
    if policy == 0 then 0 else if policy == 2 then Halve(tries) else tries - 1
  }

  // Division by two that truncates toward zero.
  function Halve(x: int): int {
    if x >= 0 then x / 2 else -((-x) / 2)
  }

  // The hardware sets of a transaction match its log, and its reads still hold in memory.
  ghost predicate TxOk(m: Memory, tx: Tx) {
    tx.rs == ReadSet(tx.log) && tx.buf == Writes(tx.log) && Valid(m, tx.log)
  }

  lemma {:induction false} TxOkRead(m: Memory, tx: Tx, a: int)
    requires TxOk(m, tx)
    ensures TxOk(m, TxAfterRead(m, tx, a))
  {
    ApplyAt(m, tx.log, a);
    ExtendLog(m, tx.log, Rd(a, TxRead(m, tx, a)));
  }

  lemma {:induction false} TxOkWrite(m: Memory, tx: Tx, a: int, v: int)
    requires TxOk(m, tx)
    ensures TxOk(m, TxAfterWrite(tx, a, v))
  {
    ExtendLog(m, tx.log, Wr(a, v));
  }

  // A transaction that read nothing of what another publishes keeps its reads.
  lemma {:induction false} TxOkDisjoint(m: Memory, tx: Tx, buf: map<int, int>)
    requires TxOk(m, tx) && buf.Keys !! tx.rs
    ensures TxOk(m + buf, tx)
  {
    ValidTransfers(m, m + buf, tx.log);
  }

  lemma {:induction false} ReadsDisjoint(m: Memory, log: Log, buf: map<int, int>)
    requires Valid(m, log) && buf.Keys !! ReadSet(log)
    ensures Valid(m + buf, log)
  {
    ValidTransfers(m, m + buf, log);
  }

  lemma {:induction false} ReaderExtends(m: Memory, log: Log, a: int)
    requires Valid(m, log) && Writes(log) == map[]
    ensures var log' := log + [Rd(a, Get(m, a))];
      Valid(m, log') && Writes(log') == map[] && ReadSet(log') == ReadSet(log) + {a}
  {
    ApplyAt(m, log, a);
    ExtendLog(m, log, Rd(a, Get(m, a)));
  }

  // Completing a section that ran alone on the serial memory extends the serial history.
  lemma {:induction false} SectionCompletes(m0: Memory, h: seq<Section>, t: nat, log: Log)
    requires ReplayValid(m0, h) && Valid(ReplayMemory(m0, h), log)
    ensures ReplayValid(m0, h + [Section(t, log)])
    ensures ReplayMemory(m0, h + [Section(t, log)]) == ReplayMemory(m0, h) + Writes(log)
  {
    ExtendHistory(m0, h, Section(t, log));
    ApplyIsMerge(ReplayMemory(m0, h), log);
  }
}
