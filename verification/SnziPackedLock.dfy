/**
 The 10.2 lock reads its readers' indicator from the packed words of the SNZI object: while the
 versions and the counter of root.state are in range, the bit it reads is that of SnziLock.
 */
module SnziPackedLock {
  import opened Replay
  import opened SpRwl
  import opened SnziLock
  import Root = SnziRoot
  import Tree = SnziTree
  import Packed = SnziPacked

  // The steps of the object in a run of lock and object.
  function ObjectTrace(xs: seq<Step>): seq<Tree.Event> {
    if xs == [] then []
    else ObjectTrace(Front(xs)) + if Last(xs).Snzi? then [Last(xs).f] else []
  }

  lemma {:induction false} ObjectOf(c: Config, s: Both, x: Step)
    requires Ready(c, s, x)
    ensures x.Snzi? ==> Tree.Enabled(s.obj, x.f)
    ensures StepBoth(c, s, x).obj == if x.Snzi? then Tree.Next(s.obj, x.f) else s.obj
  {
  }

  lemma {:induction false} ObjectRun(n: nat, retries: int, policy: int, m: Memory, xs: seq<Step>)
    requires LegalBoth(BitConfig(n, retries, policy), m, xs)
    ensures Tree.Legal(n, Tree.OwnLeaf(n), ObjectTrace(xs))
    ensures Tree.After(n, Tree.OwnLeaf(n), ObjectTrace(xs)) == AfterBoth(BitConfig(n, retries, policy), m, xs).obj
  {
    hide Ready, StepBoth, Tree.Next, Tree.Enabled, BothOk, Legal, Enabled, CanStep;
    if xs != [] {
      var c := BitConfig(n, retries, policy);
      ObjectRun(n, retries, policy, m, Front(xs));
      Refines(n, retries, policy, m, Front(xs));
      AlwaysReady(c, AfterBoth(c, m, Front(xs)), Last(xs));
      ObjectOf(c, AfterBoth(c, m, Front(xs)), Last(xs));
      if Last(xs).Snzi? {
        FrontOfAppend(ObjectTrace(Front(xs)), Last(xs).f);
      } else {
        assert ObjectTrace(xs) == ObjectTrace(Front(xs));
      }
    }
  }

  // The lock calls snzi_inc and snzi_dec in turn, so no leaf counts past 1.
  lemma {:induction false} LeafCountsAtMostOne(c: Config, s: Both, t: nat)
    requires BothOk(c, s) && t < |s.obj.leaves| && s.obj.leaves[t].Count?
    ensures 0 <= s.obj.leaves[t].c <= 1
  {
    assert Tree.LeafOk(s.obj, t);
    assert Linked(s.lock.pcs[t], s.obj.pcs[t], s.obj.arrived[t], s.obj.leaving[t]);
    Tree.SumAtOwn(c.n, Tree.Regs(s.obj), t);
  }

  // Fewer than 2^16 versions of the root and fewer than 2^31 changes of root.state so far.
  ghost predicate Fits(c: Config, m: Memory, xs: seq<Step>) {
    var s := AfterBoth(c, m, xs).obj.root;
    s.word.v < 0x1_0000 && s.ind.k < 0x8000_0000
  }

  ghost predicate FitsThroughout(c: Config, m: Memory, xs: seq<Step>) {
    Fits(c, m, xs) && (xs != [] ==> FitsThroughout(c, m, Front(xs)))
  }

  lemma {:induction false} StateInRange(n: nat, retries: int, policy: int, m: Memory, xs: seq<Step>)
    requires LegalBoth(BitConfig(n, retries, policy), m, xs) && Fits(BitConfig(n, retries, policy), m, xs)
    ensures Packed.InRange(Tree.After(n, Tree.OwnLeaf(n), ObjectTrace(xs)))
  {
    hide BothOk, Legal, LegalBoth, AfterBoth;
    var c := BitConfig(n, retries, policy);
    var s := AfterBoth(c, m, xs);
    ObjectRun(n, retries, policy, m, xs);
    Refines(n, retries, policy, m, xs);
    forall l | 0 <= l < |s.obj.leaves| && s.obj.leaves[l].Count?
      ensures s.obj.leaves[l].c < 0x8000
    {
      LeafCountsAtMostOne(c, s, l);
    }
  }

  lemma {:induction false} RunInRange(n: nat, retries: int, policy: int, m: Memory, xs: seq<Step>)
    requires LegalBoth(BitConfig(n, retries, policy), m, xs)
    requires FitsThroughout(BitConfig(n, retries, policy), m, xs)
    ensures Packed.InRangeRun(n, ObjectTrace(xs))
  {
    hide Packed.InRange, Fits, Ready, AfterBoth, CanStep, Enabled;
    StateInRange(n, retries, policy, m, xs);
    if xs != [] {
      RunInRange(n, retries, policy, m, Front(xs));
      if Last(xs).Snzi? {
        FrontOfAppend(ObjectTrace(Front(xs)), Last(xs).f);
      } else {
        assert ObjectTrace(xs) == ObjectTrace(Front(xs));
      }
    }
  }

  // The bit that a lock step reads from the packed words is the cell of the abstract lock.
  lemma {:induction false} PackedCell(n: nat, retries: int, policy: int, m: Memory, xs: seq<Step>)
    requires n < 0x8000 && LegalBoth(BitConfig(n, retries, policy), m, xs)
    requires FitsThroughout(BitConfig(n, retries, policy), m, xs)
    ensures AfterBoth(BitConfig(n, retries, policy), m, xs).lock.cells ==
      [Packed.Query(Packed.After(n, ObjectTrace(xs)))]
  {
    RunInRange(n, retries, policy, m, xs);
    ObjectRun(n, retries, policy, m, xs);
    Refines(n, retries, policy, m, xs);
    Packed.PackedQuery(n, ObjectTrace(xs));
  }
}
