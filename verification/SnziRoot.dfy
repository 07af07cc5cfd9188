/**
 The root of the SNZI readers' indicator: root_arrive, root_depart and root_query as interleaved
 atomic reads and compare-and-swaps of any number of threads.

 Versions and change counters are unbounded here; module SnziPacked packs them.
 */
module SnziRoot {
  import opened Replay

  // root.var: surplus, announce bit, version.
  datatype Word = Word(c: int, a: bool, v: nat)

  // root.state: the indicator bit and a counter that every store increments.
  datatype Ind = Ind(bit: bool, k: nat)

  datatype Pc =
    | Idle
    | ArrLoad                                // read root.var
    | ArrSwap(x: Word)                       // compare-and-swap the surplus up
    | AnnLoad(temp: Word)                    // read root.state
    | AnnSwap(temp: Word, i: Ind)            // set the bit
    | AnnDone(temp: Word)                    // the last compare-and-swap on root.var
    | DepLoad                                // read root.var
    | DepSwap(x: Word)                       // compare-and-swap the surplus down
    | ClrLoad(v: nat)                        // read root.state
    | ClrCheck(v: nat, i: Ind)               // re-read the version
    | ClrSwap(v: nat, i: Ind)                // clear the bit

  // arrived counts completed arrivals, leaving counts started departures.
  datatype State = State(word: Word, ind: Ind, pcs: seq<Pc>, arrived: nat, leaving: nat)

  datatype Event = Arrive(t: nat) | Depart(t: nat) | Go(t: nat)

  function Init(n: nat): State {
    State(Word(0, false, 0), Ind(false, 0), seq(n, _ => Idle), 0, 0)
  }

  // Callers start no departure that has no completed arrival.
  predicate Enabled(s: State, e: Event) {
    e.t < |s.pcs| &&
    match e
    case Arrive(t) => s.pcs[t].Idle?
    case Depart(t) => s.pcs[t].Idle? && s.leaving < s.arrived
    case Go(t) => !s.pcs[t].Idle?
  }

  function Raised(x: Word): Word {
    if x.c == 0 then Word(1, true, x.v + 1) else Word(x.c + 1, x.a, x.v)
  }

  function Lowered(x: Word): Word {
    Word(x.c - 1, false, x.v)
  }

  function Next(s: State, e: Event): State
    requires Enabled(s, e)
  {
    match e
    case Arrive(t) => s.(pcs := s.pcs[t := ArrLoad])
    case Depart(t) => s.(pcs := s.pcs[t := DepLoad], leaving := s.leaving + 1)
    case Go(t) =>
      match s.pcs[t]
      case ArrLoad => s.(pcs := s.pcs[t := ArrSwap(s.word)])
      case ArrSwap(x) =>
        if s.word != x then s.(pcs := s.pcs[t := ArrLoad])
        else if Raised(x).a then s.(word := Raised(x), pcs := s.pcs[t := AnnLoad(Raised(x))])
        else s.(word := Raised(x), pcs := s.pcs[t := Idle], arrived := s.arrived + 1)
      case AnnLoad(temp) => s.(pcs := s.pcs[t := AnnSwap(temp, s.ind)])
      case AnnSwap(temp, i) =>
        if s.ind != i then s.(pcs := s.pcs[t := AnnLoad(temp)])
        else s.(ind := Ind(true, i.k + 1), pcs := s.pcs[t := AnnDone(temp)])
      case AnnDone(temp) =>
        // expected value without the announce bit, new value with it
        var w := if s.word == Word(temp.c, false, temp.v) then temp else s.word;
        s.(word := w, pcs := s.pcs[t := Idle], arrived := s.arrived + 1)
      case DepLoad => s.(pcs := s.pcs[t := DepSwap(s.word)])
      case DepSwap(x) =>
        if s.word != x then s.(pcs := s.pcs[t := DepLoad])
        else s.(word := Lowered(x), pcs := s.pcs[t := if x.c >= 2 then Idle else ClrLoad(x.v)])
      case ClrLoad(v) => s.(pcs := s.pcs[t := ClrCheck(v, s.ind)])
      case ClrCheck(v, i) => s.(pcs := s.pcs[t := if s.word.v != v then Idle else ClrSwap(v, i)])
      case ClrSwap(v, i) =>
        if s.ind != i then s.(pcs := s.pcs[t := ClrLoad(v)])
        else s.(ind := Ind(false, i.k + 1), pcs := s.pcs[t := Idle])
  }

  // root_query
  predicate Query(s: State) {
    s.ind.bit
  }

  ghost predicate Legal(n: nat, es: seq<Event>) {
    es == [] || (Legal(n, Front(es)) && Enabled(After(n, Front(es)), Last(es)))
  }

  function After(n: nat, es: seq<Event>): State {
    if es == [] then Init(n)
    else
      var s := After(n, Front(es));
      if Enabled(s, Last(es)) then Next(s, Last(es)) else s
  }

  // ---------- the invariant ----------

  // Threads that hold one unit of the surplus while their operation runs: an arrival after its
  // compare-and-swap, a departure before it.
  predicate Holds(p: Pc) {
    p.AnnLoad? || p.AnnSwap? || p.AnnDone? || p.DepLoad? || p.DepSwap?
  }

  function Holding(pcs: seq<Pc>): nat {
    if pcs == [] then 0 else Holding(Front(pcs)) + if Holds(Last(pcs)) then 1 else 0
  }

  lemma {:induction false} HoldingUpdate(pcs: seq<Pc>, t: nat, p: Pc)
    requires t < |pcs|
    ensures Holding(pcs[t := p]) ==
      Holding(pcs) - (if Holds(pcs[t]) then 1 else 0) + (if Holds(p) then 1 else 0)
  {
    if t == |pcs| - 1 {
      assert Front(pcs[t := p]) == Front(pcs);
    } else {
      HoldingUpdate(Front(pcs), t, p);
      assert Front(pcs[t := p]) == Front(pcs)[t := p];
    }
  }

  lemma {:induction false} HoldingPositive(pcs: seq<Pc>, t: nat)
    requires t < |pcs| && Holds(pcs[t])
    ensures Holding(pcs) >= 1
  {
    if t < |pcs| - 1 {
      HoldingPositive(Front(pcs), t);
    }
  }

  lemma {:induction false} HoldingNone(pcs: seq<Pc>)
    requires forall t :: 0 <= t < |pcs| ==> !Holds(pcs[t])
    ensures Holding(pcs) == 0
  {
    if pcs != [] {
      HoldingNone(Front(pcs));
    }
  }

  // A departure that took the surplus to zero and is still in its clear loop.
  predicate Clearing(p: Pc) {
    p.ClrLoad? || p.ClrCheck? || p.ClrSwap?
  }

  // The bit has been set in the current version and must stay set: the announce bit is gone, or
  // some arrival has finished setting it, or some departure still has to lower the surplus.
  ghost predicate MustStay(s: State) {
    s.word.c >= 1 &&
    (!s.word.a || s.leaving < s.arrived ||
     exists t :: 0 <= t < |s.pcs| && (s.pcs[t].AnnDone? || s.pcs[t].DepLoad? || s.pcs[t].DepSwap?))
  }

  ghost predicate ThreadOk(s: State, p: Pc) {
    && (p.AnnLoad? || p.AnnSwap? || p.AnnDone? ==> p.temp.v == s.word.v)
    && (p.AnnSwap? || p.ClrCheck? || p.ClrSwap? ==> p.i.k <= s.ind.k)
    && (Clearing(p) ==> p.v <= s.word.v && (p.v == s.word.v ==> s.word.c == 0))
    && (p.ClrSwap? && MustStay(s) ==> p.i.k < s.ind.k)
  }

  ghost predicate Inv(s: State) {
    && s.leaving <= s.arrived
    && s.word.c == Holding(s.pcs) + s.arrived - s.leaving
    && (MustStay(s) ==> s.ind.bit)
    && (forall t :: 0 <= t < |s.pcs| ==> ThreadOk(s, s.pcs[t]))
  }

  // Distinct clearing threads belong to distinct versions, and a set bit over a zero surplus is
  // owed by the clearing thread of the current version.
  ghost predicate Exact(s: State) {
    && (forall t, u :: 0 <= t < u < |s.pcs| && Clearing(s.pcs[t]) && Clearing(s.pcs[u]) ==>
          s.pcs[t].v != s.pcs[u].v)
    && (s.word.c == 0 && s.ind.bit ==>
          exists t :: 0 <= t < |s.pcs| && Clearing(s.pcs[t]) && s.pcs[t].v == s.word.v)
  }

  lemma {:induction false} Surplus(s: State, t: nat)
    requires Inv(s) && t < |s.pcs| && Holds(s.pcs[t])
    ensures s.word.c >= 1 + s.arrived - s.leaving
  {
    HoldingPositive(s.pcs, t);
  }

  function Hold(p: Pc): nat {
    if Holds(p) then 1 else 0
  }

  // A step changes the surplus by what it changes of its thread and of the counts.
  lemma {:induction false} CountOwn(s: State, e: Event)
    requires Inv(s) && Enabled(s, e)
    ensures var s' := Next(s, e);
      && s'.pcs == s.pcs[e.t := s'.pcs[e.t]] && s'.leaving <= s'.arrived
      && s'.word.c - s.word.c ==
           Hold(s'.pcs[e.t]) - Hold(s.pcs[e.t]) + (s'.arrived - s.arrived) - (s'.leaving - s.leaving)
  {
    hide Holding, MustStay;
    assert ThreadOk(s, s.pcs[e.t]);
    if Holds(s.pcs[e.t]) {
      Surplus(s, e.t);
    }
  }

  lemma {:induction false} CountNext(s: State, e: Event)
    requires Inv(s) && Enabled(s, e)
    ensures var s' := Next(s, e);
      s'.leaving <= s'.arrived && s'.word.c == Holding(s'.pcs) + s'.arrived - s'.leaving
  {
    CountOwn(s, e);
    HoldingUpdate(s.pcs, e.t, Next(s, e).pcs[e.t]);
    hide Next, Holding, MustStay;
  }

  // Only a successful setting of the bit makes it one that must stay.
  lemma {:induction false} StayNext(s: State, e: Event)
    requires Inv(s) && Enabled(s, e) && MustStay(Next(s, e))
    ensures MustStay(s) || (e.Go? && s.pcs[e.t].AnnSwap? && s.ind == s.pcs[e.t].i)
  {
    hide Holding;
    var s', t := Next(s, e), e.t;
    assert ThreadOk(s, s.pcs[t]);
    if Holds(s.pcs[t]) {
      Surplus(s, t);
    }
    if u :| 0 <= u < |s'.pcs| && (s'.pcs[u].AnnDone? || s'.pcs[u].DepLoad? || s'.pcs[u].DepSwap?) {
      if u != t {
        Surplus(s, u);
      }
    }
    if s.word.c == 0 {
      HoldingZero(s.pcs);
    }
  }

  lemma {:induction false} HoldingZero(pcs: seq<Pc>)
    requires Holding(pcs) == 0
    ensures forall t :: 0 <= t < |pcs| ==> !Holds(pcs[t])
  {
    forall t | 0 <= t < |pcs|
      ensures !Holds(pcs[t])
    {
      if Holds(pcs[t]) {
        HoldingPositive(pcs, t);
      }
    }
  }

  lemma {:induction false} BitNext(s: State, e: Event)
    requires Inv(s) && Enabled(s, e)
    ensures MustStay(Next(s, e)) ==> Next(s, e).ind.bit
  {
    hide Holding;
    if MustStay(Next(s, e)) {
      StayNext(s, e);
      assert ThreadOk(s, s.pcs[e.t]);
    }
  }

  lemma {:induction false} ThreadOwn(s: State, e: Event)
    requires Inv(s) && Enabled(s, e)
    ensures ThreadOk(Next(s, e), Next(s, e).pcs[e.t])
  {
    hide Holding;
    assert ThreadOk(s, s.pcs[e.t]);
    if Holds(s.pcs[e.t]) {
      Surplus(s, e.t);
    }
    if MustStay(Next(s, e)) {
      StayNext(s, e);
    }
  }

  // What a step does to the shared words, as far as another thread is concerned.
  lemma {:induction false} WordsNext(s: State, e: Event)
    requires Inv(s) && Enabled(s, e)
    ensures var s' := Next(s, e);
      && s'.pcs == s.pcs[e.t := s'.pcs[e.t]]
      && s'.word.v >= s.word.v && s'.ind.k >= s.ind.k
      && (s'.word.v > s.word.v ==> s.word.c == 0)
      && (s.word.c == 0 ==> s'.word.c == 0 || s'.word.v > s.word.v)
      && (MustStay(s') && !MustStay(s) ==> s'.ind.k > s.ind.k)
  {
    hide Holding;
    assert ThreadOk(s, s.pcs[e.t]);
    if Holds(s.pcs[e.t]) {
      Surplus(s, e.t);
    }
    if MustStay(Next(s, e)) {
      StayNext(s, e);
    }
  }

  lemma {:induction false} ThreadOther(s: State, e: Event, u: nat)
    requires Inv(s) && Enabled(s, e) && u < |s.pcs| && u != e.t
    ensures ThreadOk(Next(s, e), s.pcs[u])
  {
    WordsNext(s, e);
    hide Holding, Next, MustStay;
    assert ThreadOk(s, s.pcs[u]);
    if Holds(s.pcs[u]) {
      Surplus(s, u);
    }
  }

  lemma {:induction false} InvNext(s: State, e: Event)
    requires Inv(s) && Enabled(s, e)
    ensures Inv(Next(s, e))
  {
    CountNext(s, e);
    BitNext(s, e);
    WordsNext(s, e);
    ThreadOwn(s, e);
    hide Next, Holding, MustStay, ThreadOk;
    forall u | 0 <= u < |s.pcs| && u != e.t
      ensures ThreadOk(Next(s, e), s.pcs[u])
    {
      ThreadOther(s, e, u);
    }
  }

  // A thread begins to clear only as it takes the surplus to zero, and a set bit over a zero
  // surplus keeps a thread that clears it.
  lemma {:induction false} ExactOwn(s: State, e: Event)
    requires Inv(s) && Enabled(s, e)
    ensures var s', p := Next(s, e), s.pcs[e.t];
      var p' := s'.pcs[e.t];
      && (Clearing(p') && Clearing(p) ==> p'.v == p.v)
      && (Clearing(p') && !Clearing(p) ==> p'.v == s.word.v && s.word.c >= 1)
      && (s'.word.c == 0 && s'.ind.bit ==>
            (Clearing(p') && p'.v == s'.word.v) ||
            (s.word.c == 0 && s.ind.bit && s'.word.v == s.word.v && !(Clearing(p) && p.v == s.word.v)))
  {
    hide Holding, MustStay;
    assert ThreadOk(s, s.pcs[e.t]);
    if Holds(s.pcs[e.t]) {
      Surplus(s, e.t);
    }
  }

  lemma {:induction false} ExactNext(s: State, e: Event)
    requires Inv(s) && Exact(s) && Enabled(s, e)
    ensures Exact(Next(s, e))
  {
    var s', t := Next(s, e), e.t;
    WordsNext(s, e);
    ExactOwn(s, e);
    hide Next, Holding, MustStay;
    forall u, w | 0 <= u < w < |s'.pcs| && Clearing(s'.pcs[u]) && Clearing(s'.pcs[w])
      ensures s'.pcs[u].v != s'.pcs[w].v
    {
      assert ThreadOk(s, s.pcs[u]) && ThreadOk(s, s.pcs[w]);
    }
    if s'.word.c == 0 && s'.ind.bit && !(Clearing(s'.pcs[t]) && s'.pcs[t].v == s'.word.v) {
      var u :| 0 <= u < |s.pcs| && Clearing(s.pcs[u]) && s.pcs[u].v == s.word.v;
      assert Clearing(s'.pcs[u]) && s'.pcs[u].v == s'.word.v;
    }
  }

  lemma {:induction false} InitInv(n: nat)
    ensures Inv(Init(n)) && Exact(Init(n))
  {
    HoldingNone(Init(n).pcs);
  }

  lemma {:induction false} InvAlways(n: nat, es: seq<Event>)
    requires Legal(n, es)
    ensures Inv(After(n, es)) && Exact(After(n, es)) && |After(n, es).pcs| == n
  {
    hide Inv, Exact;
    if es == [] {
      InitInv(n);
    } else {
      InvAlways(n, Front(es));
      InvNext(After(n, Front(es)), Last(es));
      ExactNext(After(n, Front(es)), Last(es));
    }
  }

  // ---------- main results ----------

  // Whenever more arrivals have completed than departures have started, the query answers true,
  // under every interleaving: a late clear of an older version never hides a present thread.
  lemma {:induction false} RootSafety(n: nat, es: seq<Event>)
    requires Legal(n, es) && After(n, es).leaving < After(n, es).arrived
    ensures Query(After(n, es))
  {
    InvAlways(n, es);
  }

  // A true answer over a zero surplus has exactly one cause: the one thread that took the current
  // version to zero is still in its clear loop.
  lemma {:induction false} RootExactness(n: nat, es: seq<Event>)
    requires Legal(n, es) && After(n, es).word.c == 0 && Query(After(n, es))
    ensures var s := After(n, es);
      exists t :: 0 <= t < |s.pcs| && Clearing(s.pcs[t]) && s.pcs[t].v == s.word.v &&
        forall u :: 0 <= u < |s.pcs| && Clearing(s.pcs[u]) && s.pcs[u].v == s.word.v ==> u == t
  {
    InvAlways(n, es);
    var s := After(n, es);
    var t :| 0 <= t < |s.pcs| && Clearing(s.pcs[t]) && s.pcs[t].v == s.word.v;
    forall u | 0 <= u < |s.pcs| && Clearing(s.pcs[u]) && s.pcs[u].v == s.word.v
      ensures u == t
    {
      OneClearer(s, t, u);
    }
  }

  lemma {:induction false} OneClearer(s: State, t: nat, u: nat)
    requires Exact(s) && t < |s.pcs| && u < |s.pcs|
    requires Clearing(s.pcs[t]) && Clearing(s.pcs[u]) && s.pcs[t].v == s.pcs[u].v
    ensures t == u
  {
  }

  // With no operation in flight the answer is exact.
  lemma {:induction false} RootQuiescent(n: nat, es: seq<Event>)
    requires Legal(n, es)
    requires forall t :: 0 <= t < |After(n, es).pcs| ==> After(n, es).pcs[t].Idle?
    ensures var s := After(n, es);
      s.word.c == s.arrived - s.leaving && (Query(s) <==> s.leaving < s.arrived)
  {
    InvAlways(n, es);
    HoldingNone(After(n, es).pcs);
  }
}
