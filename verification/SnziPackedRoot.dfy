/**
 The root of the SNZI object on its packed 32-bit words.

 A step on the packed words is the step of SnziRoot, packed, as long as counts fit 15 bits, versions
 16 bits and the counter of root.state 31 bits.
 */
module SnziPackedRoot {
  import opened SnziWords
  import Root = SnziRoot

  datatype Pc =
    | Idle
    | ArrLoad
    | ArrSwap(x: nat)
    | AnnLoad(temp: nat)
    | AnnSwap(temp: nat, i: nat)
    | AnnDone(temp: nat)
    | DepLoad
    | DepSwap(x: nat)
    | ClrLoad(v: int)
    | ClrCheck(v: int, i: nat)
    | ClrSwap(v: int, i: nat)

  // The word root_arrive wants to install over x.
  function Raised(x: nat): nat {
    var d := RootDecode(x);
    if d.c == 0 then RootEncode(1, true, Short(d.v + 1)) else RootEncode(Short(d.c + 1), d.a, d.v)
  }

  // The word root_depart wants to install over x.
  function Lowered(x: nat): nat {
    RootEncode(Short(RootDecode(x).c - 1), false, RootDecode(x).v)
  }

  datatype RootMem = RootMem(w: nat, st: nat, pc: Pc)

  // One atomic step of root_arrive or root_depart on root.var and root.state.
  function RootStep(w: nat, st: nat, pc: Pc): RootMem {
    match pc
    case Idle => RootMem(w, st, pc)
    case ArrLoad => RootMem(w, st, ArrSwap(w))
    case ArrSwap(x) =>
      if w != x then RootMem(w, st, ArrLoad)
      else RootMem(Raised(x), st, if RootDecode(Raised(x)).a then AnnLoad(Raised(x)) else Idle)
    case AnnLoad(temp) => RootMem(w, st, AnnSwap(temp, st))
    case AnnSwap(temp, i) =>
      if st != i then RootMem(w, st, AnnLoad(temp)) else RootMem(w, StateSuccessor(i, true), AnnDone(temp))
    case AnnDone(temp) =>
      var d := RootDecode(temp);
      RootMem(if w == RootEncode(d.c, false, d.v) then temp else w, st, Idle)
    case DepLoad => RootMem(w, st, DepSwap(w))
    case DepSwap(x) =>
      if w != x then RootMem(w, st, DepLoad)
      else RootMem(Lowered(x), st, if RootDecode(x).c >= 2 then Idle else ClrLoad(RootDecode(x).v))
    case ClrLoad(v) => RootMem(w, st, ClrCheck(v, st))
    case ClrCheck(v, i) => RootMem(w, st, if Short(w / 0x1_0000) != v then Idle else ClrSwap(v, i))
    case ClrSwap(v, i) =>
      if st != i then RootMem(w, st, ClrLoad(v)) else RootMem(w, StateSuccessor(i, false), Idle)
  }

  // ---------- packing ----------

  predicate WordFits(x: Root.Word) {
    0 <= x.c < 0x8000 && x.v < 0x1_0000
  }

  function PackWord(x: Root.Word): nat {
    if 0 <= x.c < 0x8000 then RootEncode(x.c, x.a, Short(x.v)) else 0
  }

  function PackInd(i: Root.Ind): nat {
    StateWord(i.bit, i.k)
  }

  function PackPc(p: Root.Pc): Pc {
    match p
    case Idle => Pc.Idle
    case ArrLoad => Pc.ArrLoad
    case ArrSwap(x) => Pc.ArrSwap(PackWord(x))
    case AnnLoad(temp) => AnnLoad(PackWord(temp))
    case AnnSwap(temp, i) => AnnSwap(PackWord(temp), PackInd(i))
    case AnnDone(temp) => AnnDone(PackWord(temp))
    case DepLoad => Pc.DepLoad
    case DepSwap(x) => Pc.DepSwap(PackWord(x))
    case ClrLoad(v) => ClrLoad(Short(v))
    case ClrCheck(v, i) => ClrCheck(Short(v), PackInd(i))
    case ClrSwap(v, i) => ClrSwap(Short(v), PackInd(i))
  }

  lemma {:induction false} WordForm(x: Root.Word)
    requires WordFits(x)
    ensures PackWord(x) == x.v * 0x1_0000 + LowHalf(x.c, x.a)
    ensures RootDecode(PackWord(x)) == RootWord(x.c, x.a, Short(x.v))
    ensures PackWord(x) / 0x1_0000 == x.v
  {
    hide RootDecode, RootEncode;
    RootForm(x.c, x.a, Short(x.v));
    RootFields(x.c, x.a, x.v);
  }

  lemma {:induction false} WordInjective(x: Root.Word, y: Root.Word)
    requires WordFits(x) && WordFits(y)
    ensures PackWord(x) == PackWord(y) <==> x == y
  {
    hide RootDecode, PackWord;
    WordForm(x);
    WordForm(y);
  }

  lemma {:induction false} ShortInjective(v: nat, w: nat)
    requires v < 0x1_0000 && w < 0x1_0000
    ensures Short(v) == Short(w) <==> v == w
  {
  }

  lemma {:induction false} RaisedForm(x: Root.Word)
    requires WordFits(x) && WordFits(Root.Raised(x))
    ensures Raised(PackWord(x)) == PackWord(Root.Raised(x))
  {
    hide RootDecode, RootEncode;
    WordForm(x);
    ShortAdds(x.v, 1);
  }

  lemma {:induction false} LoweredForm(x: Root.Word)
    requires WordFits(x) && WordFits(Root.Lowered(x))
    ensures Lowered(PackWord(x)) == PackWord(Root.Lowered(x))
  {
    hide RootDecode, RootEncode;
    WordForm(x);
  }

  // What a thread has loaded is a value the words have had.
  ghost predicate Loaded(n: nat, s: Root.State, p: Root.Pc) {
    match p
    case ArrSwap(x) => 0 <= x.c <= n && x.v <= s.word.v
    case AnnLoad(temp) => 1 <= temp.c <= n && temp.a && temp.v <= s.word.v
    case AnnSwap(temp, i) => 1 <= temp.c <= n && temp.a && temp.v <= s.word.v && i.k <= s.ind.k
    case AnnDone(temp) => 1 <= temp.c <= n && temp.a && temp.v <= s.word.v
    case DepSwap(x) => 0 <= x.c <= n && x.v <= s.word.v
    case ClrLoad(v) => v <= s.word.v
    case ClrCheck(v, i) => v <= s.word.v && i.k <= s.ind.k
    case ClrSwap(v, i) => v <= s.word.v && i.k <= s.ind.k
    case _ => true
  }

  ghost predicate RootFits(n: nat, s: Root.State) {
    0 <= s.word.c <= n < 0x8000 && s.word.v < 0x1_0000 && s.ind.k < 0x8000_0000
  }

  // A packed root step is the root step, packed.
  lemma {:induction false} RootStepPacked(n: nat, s: Root.State, t: nat)
    requires t < |s.pcs| && !s.pcs[t].Idle?
    requires Loaded(n, s, s.pcs[t]) && RootFits(n, s) && RootFits(n, Root.Next(s, Root.Go(t)))
    ensures var s' := Root.Next(s, Root.Go(t));
      RootStep(PackWord(s.word), PackInd(s.ind), PackPc(s.pcs[t])) ==
        RootMem(PackWord(s'.word), PackInd(s'.ind), PackPc(s'.pcs[t]))
  {
    hide RootDecode, RootEncode, PackWord, StateSuccessor, Raised, Lowered, Short;
    match s.pcs[t]
    case ArrSwap(x) =>
      WordInjective(s.word, x);
      if s.word == x {
        RaisedForm(x);
        WordForm(Root.Raised(x));
      }
    case AnnSwap(temp, i) =>
      if s.ind == i {
        SuccessorForm(i.bit, i.k, true);
      }
    case AnnDone(temp) =>
      WordForm(temp);
      Unannounced(temp);
      WordInjective(s.word, Root.Word(temp.c, false, temp.v));
    case DepSwap(x) =>
      WordInjective(s.word, x);
      WordForm(x);
      if s.word == x {
        LoweredForm(x);
      }
    case ClrCheck(v, _) =>
      WordForm(s.word);
      ShortInjective(s.word.v, v);
    case ClrSwap(_, i) =>
      if s.ind == i {
        SuccessorForm(i.bit, i.k, false);
      }
    case _ =>
  }

  lemma {:induction false} Unannounced(temp: Root.Word)
    requires WordFits(temp)
    ensures RootEncode(temp.c, false, Short(temp.v)) == PackWord(Root.Word(temp.c, false, temp.v))
  {
  }

  // A root step loads only values that the words have.
  lemma {:induction false} LoadedNext(n: nat, s: Root.State, e: Root.Event, u: nat)
    requires Root.Enabled(s, e) && u < |s.pcs|
    requires Loaded(n, s, s.pcs[e.t]) && Loaded(n, s, s.pcs[u])
    requires 0 <= s.word.c <= n && 0 <= Root.Next(s, e).word.c <= n
    ensures Loaded(n, Root.Next(s, e), Root.Next(s, e).pcs[u])
  {
  }
}
