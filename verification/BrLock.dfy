/**
 The big-reader lock: a reader takes its own word, a writer takes writer_lock and then the word of
 every thread, in order.
 */
module BrLock {
  import opened Replay
  import opened Requests

  datatype Pc =
    | Idle
    | RdSpin                // while the own word is set
    | RdSwap                // compare-and-swap on the own word
    | RdIn
    | WrSpin                // while writer_lock is set
    | WrSwap                // compare-and-swap on writer_lock
    | TakeSpin(k: nat)      // while word k is set
    | TakeSwap(k: nat)      // compare-and-swap on word k
    | WrIn
    | GiveBack(k: nat)      // about to clear word k
    | WrUnlock              // about to clear writer_lock

  datatype State = State(writer: bool, words: seq<bool>, pcs: seq<Pc>)

  datatype Event = Enter(t: nat, ro: bool) | Go(t: nat)

  function Init(n: nat): State {
    State(false, seq(n, _ => false), seq(n, _ => Idle))
  }

  predicate Enabled(s: State, e: Event) {
    e.t < |s.pcs| == |s.words| &&
    match e
    case Enter(t, _) => s.pcs[t].Idle?
    case Go(t) => !s.pcs[t].Idle?
  }

  function Next(s: State, e: Event): State
    requires Enabled(s, e)
  {
    match e
    case Enter(t, ro) => s.(pcs := s.pcs[t := if ro then RdSpin else WrSpin])
    case Go(t) =>
      match s.pcs[t]
      case RdSpin => if s.words[t] then s else s.(pcs := s.pcs[t := RdSwap])
      case RdSwap =>
        if s.words[t] then s.(pcs := s.pcs[t := RdSpin])
        else s.(words := s.words[t := true], pcs := s.pcs[t := RdIn])
      case RdIn => s.(words := s.words[t := false], pcs := s.pcs[t := Idle])
      case WrSpin => if s.writer then s else s.(pcs := s.pcs[t := WrSwap])
      case WrSwap =>
        if s.writer then s.(pcs := s.pcs[t := WrSpin])
        else s.(writer := true, pcs := s.pcs[t := TakeSpin(0)])
      case TakeSpin(k) =>
        if k >= |s.words| then s.(pcs := s.pcs[t := WrIn])
        else if s.words[k] then s
        else s.(pcs := s.pcs[t := TakeSwap(k)])
      case TakeSwap(k) =>
        if k >= |s.words| || s.words[k] then s.(pcs := s.pcs[t := TakeSpin(k)])
        else s.(words := s.words[k := true], pcs := s.pcs[t := TakeSpin(k + 1)])
      case WrIn => s.(pcs := s.pcs[t := GiveBack(0)])
      case GiveBack(k) =>
        if k >= |s.words| then s.(pcs := s.pcs[t := WrUnlock])
        else s.(words := s.words[k := false], pcs := s.pcs[t := GiveBack(k + 1)])
      case WrUnlock => s.(writer := false, pcs := s.pcs[t := Idle])
  }

  ghost predicate Legal(n: nat, es: seq<Event>) {
    es == [] || (Legal(n, Front(es)) && Enabled(After(n, Front(es)), Last(es)))
  }

  function After(n: nat, es: seq<Event>): State {
    if es == [] then Init(n)
    else
      var s := After(n, Front(es));
      if Enabled(s, Last(es)) then Next(s, Last(es)) else s
  }

  // ---------- ownership ----------

  predicate OwnsLock(p: Pc) {
    p.TakeSpin? || p.TakeSwap? || p.WrIn? || p.GiveBack? || p.WrUnlock?
  }

  // Thread t at p owns word j.
  predicate OwnsWord(p: Pc, t: nat, j: nat) {
    match p
    case RdIn => t == j
    case TakeSpin(k) => j < k
    case TakeSwap(k) => j < k
    case WrIn => true
    case GiveBack(k) => j >= k
    case _ => false
  }

  // Every set word has exactly one owner, and so has writer_lock.
  ghost predicate Inv(s: State) {
    && |s.pcs| == |s.words|
    && (forall t :: 0 <= t < |s.pcs| && s.pcs[t].TakeSpin? ==> s.pcs[t].k <= |s.words|)
    && (forall t :: 0 <= t < |s.pcs| && s.pcs[t].TakeSwap? ==> s.pcs[t].k < |s.words|)
    && LockOk(s)
    && (forall j :: 0 <= j < |s.words| ==> WordOk(s, j))
  }

  ghost predicate LockOk(s: State) {
    && (forall t :: 0 <= t < |s.pcs| && OwnsLock(s.pcs[t]) ==> s.writer)
    && (s.writer ==> exists t :: 0 <= t < |s.pcs| && OwnsLock(s.pcs[t]))
    && (forall t, u :: 0 <= t < |s.pcs| && 0 <= u < |s.pcs| && OwnsLock(s.pcs[t]) && OwnsLock(s.pcs[u]) ==> t == u)
  }

  ghost predicate WordOk(s: State, j: nat)
    requires j < |s.words|
  {
    && (forall t :: 0 <= t < |s.pcs| && OwnsWord(s.pcs[t], t, j) ==> s.words[j])
    && (s.words[j] ==> exists t :: 0 <= t < |s.pcs| && OwnsWord(s.pcs[t], t, j))
    && (forall t, u :: 0 <= t < |s.pcs| && 0 <= u < |s.pcs| ==>
          OwnsWord(s.pcs[t], t, j) && OwnsWord(s.pcs[u], u, j) ==> t == u)
  }

  // A step gives its thread a word that was clear, clears a word it gives up, and touches no other.
  lemma {:induction false} StepOwns(s: State, e: Event, j: nat)
    requires Inv(s) && Enabled(s, e) && j < |s.words|
    ensures var s', t := Next(s, e), e.t;
      && |s'.words| == |s.words| && s'.pcs == s.pcs[t := s'.pcs[t]]
      && (if OwnsWord(s.pcs[t], t, j) == OwnsWord(s'.pcs[t], t, j) then s'.words[j] == s.words[j]
          else s.words[j] == OwnsWord(s.pcs[t], t, j) && s'.words[j] == OwnsWord(s'.pcs[t], t, j))
  {
    assert WordOk(s, j);
  }

  lemma {:induction false} WordNext(s: State, e: Event, j: nat)
    requires Inv(s) && Enabled(s, e) && j < |s.words|
    ensures |Next(s, e).words| == |s.words| && WordOk(Next(s, e), j)
  {
    var s', t := Next(s, e), e.t;
    StepOwns(s, e, j);
    assert WordOk(s, j);
    hide Next, OwnsWord, Inv;
    if s'.words[j] {
      if s.words[j] {
        var u :| 0 <= u < |s.pcs| && OwnsWord(s.pcs[u], u, j);
        assert OwnsWord(s'.pcs[u], u, j);
      } else {
        assert OwnsWord(s'.pcs[t], t, j);
      }
    }
  }

  lemma {:induction false} LockNext(s: State, e: Event)
    requires Inv(s) && Enabled(s, e)
    ensures LockOk(Next(s, e))
  {
    hide WordOk;
    var s', t := Next(s, e), e.t;
    if s'.writer {
      if s.writer {
        var u :| 0 <= u < |s.pcs| && OwnsLock(s.pcs[u]);
        assert OwnsLock(s'.pcs[u]);
      } else {
        assert OwnsLock(s'.pcs[t]);
      }
    }
  }

  lemma {:induction false} InvNext(s: State, e: Event)
    requires Inv(s) && Enabled(s, e)
    ensures Inv(Next(s, e))
  {
    hide WordOk, OwnsWord, LockOk;
    LockNext(s, e);
    forall j | 0 <= j < |Next(s, e).words|
      ensures WordOk(Next(s, e), j)
    {
      WordNext(s, e, j);
    }
  }

  lemma {:induction false} InvAlways(n: nat, es: seq<Event>)
    requires Legal(n, es)
    ensures Inv(After(n, es)) && |After(n, es).pcs| == n
  {
    hide Inv;
    if es == [] {
      InitInv(n);
    } else {
      InvAlways(n, Front(es));
      InvNext(After(n, Front(es)), Last(es));
    }
  }

  lemma {:induction false} InitInv(n: nat)
    ensures Inv(Init(n))
  {
    assert forall j :: 0 <= j < n ==> WordOk(Init(n), j);
  }

  // ---------- main results ----------

  // A writer in its section owns writer_lock and every word, and nobody else is in a section.
  lemma {:induction false} WriterAlone(n: nat, es: seq<Event>, t: nat)
    requires Legal(n, es) && t < |After(n, es).pcs| && After(n, es).pcs[t].WrIn?
    ensures IsAlone(After(n, es), t)
  {
    InvAlways(n, es);
    AloneIn(After(n, es), t);
  }

  ghost predicate IsAlone(s: State, t: nat) {
    && s.writer && (forall j :: 0 <= j < |s.words| ==> s.words[j])
    && (forall u :: 0 <= u < |s.pcs| && u != t ==> !s.pcs[u].RdIn? && !OwnsLock(s.pcs[u]))
  }

  lemma {:induction false} AloneIn(s: State, t: nat)
    requires Inv(s) && t < |s.pcs| && s.pcs[t].WrIn?
    ensures IsAlone(s, t)
  {
    forall u | 0 <= u < |s.pcs| && u != t
      ensures !s.pcs[u].RdIn? && !OwnsLock(s.pcs[u])
    {
      assert WordOk(s, u) && OwnsWord(s.pcs[t], t, u);
    }
    forall j | 0 <= j < |s.words|
      ensures s.words[j]
    {
      assert WordOk(s, j) && OwnsWord(s.pcs[t], t, j);
    }
  }

  // A set word has exactly one owner; a clear one has none.
  lemma {:induction false} OneOwner(n: nat, es: seq<Event>, j: nat)
    requires Legal(n, es) && j < n
    ensures var s := After(n, es);
      |s.words| == |s.pcs| == n &&
      (s.words[j] <==> exists t :: 0 <= t < n && IsOnlyOwner(s, t, j))
  {
    InvAlways(n, es);
    var s := After(n, es);
    assert WordOk(s, j);
    if s.words[j] {
      var t :| 0 <= t < n && OwnsWord(s.pcs[t], t, j);
      assert IsOnlyOwner(s, t, j);
    }
  }

  ghost predicate IsOnlyOwner(s: State, t: nat, j: nat) {
    && t < |s.pcs| && OwnsWord(s.pcs[t], t, j)
    && forall u :: 0 <= u < |s.pcs| && OwnsWord(s.pcs[u], u, j) ==> u == t
  }

  // A compare-and-swap that fails is a turn of the loop around it.
  predicate SwapFails(s: State, t: nat)
    requires |s.pcs| == |s.words| && t < |s.pcs|
  {
    match s.pcs[t]
    case RdSwap => s.words[t]
    case WrSwap => s.writer
    case TakeSwap(k) => k >= |s.words| || s.words[k]
    case _ => false
  }

  // It sends the thread back to look at the word before it tries again.
  lemma {:induction false} FailedSwapLooksAgain(s: State, t: nat)
    requires Inv(s) && t < |s.pcs| && SwapFails(s, t)
    ensures var s' := Next(s, Go(t));
      s' == s.(pcs := s'.pcs) && s'.pcs[t] != s.pcs[t] && Next(s', Go(t)) == s'
  {
    hide WordOk, LockOk;
  }

  // Thread t can take a step that is not a turn of a loop.
  ghost predicate CanMove(s: State, t: nat) {
    Enabled(s, Go(t)) && Next(s, Go(t)) != s && !SwapFails(s, t)
  }

  // The owner of writer_lock waits at most for a reader in its section, never for another waiter.
  lemma {:induction false} OwnerCanMove(s: State, t: nat)
    requires Inv(s) && t < |s.pcs| && OwnsLock(s.pcs[t])
    ensures exists u :: CanMove(s, u)
  {
    var p := s.pcs[t];
    if (p.TakeSpin? || p.TakeSwap?) && p.k < |s.words| && s.words[p.k] {
      assert WordOk(s, p.k);
      var u :| 0 <= u < |s.pcs| && OwnsWord(s.pcs[u], u, p.k);
      assert u == t || !OwnsLock(s.pcs[u]);
      assert Next(s, Go(u)).pcs[u] == Idle;
      assert CanMove(s, u);
    } else {
      assert Next(s, Go(t)).pcs[t] != p;
      assert CanMove(s, t);
    }
  }

  // The ordered collection of words admits no cyclic wait: while some operation is unfinished, some
  // thread can take a step that is neither a turn of a spin loop nor a compare-and-swap that fails.
  lemma {:induction false} NoDeadlock(n: nat, es: seq<Event>, t: nat)
    requires Legal(n, es) && t < |After(n, es).pcs| && !After(n, es).pcs[t].Idle?
    ensures exists u :: CanMove(After(n, es), u)
  {
    InvAlways(n, es);
    var s := After(n, es);
    var p := s.pcs[t];
    if OwnsLock(p) {
      OwnerCanMove(s, t);
    } else if (p.RdSpin? || p.RdSwap?) && s.words[t] {
      assert WordOk(s, t);
      var u :| 0 <= u < |s.pcs| && OwnsWord(s.pcs[u], u, t);
      OwnerCanMove(s, u);
    } else if (p.WrSpin? || p.WrSwap?) && s.writer {
      var u :| 0 <= u < |s.pcs| && OwnsLock(s.pcs[u]);
      OwnerCanMove(s, u);
    } else {
      assert Next(s, Go(t)).pcs[t] != p;
      assert CanMove(s, t);
    }
  }

  // ---------- readers and writers, by the events ----------

  // What t last began a section as.
  function RoleOf(es: seq<Event>, t: nat): Role {
    if es == [] then Outside
    else if Last(es).t == t && Last(es).Enter? then if Last(es).ro then Reader else Writer
    else RoleOf(Front(es), t)
  }

  predicate Plays(p: Pc, role: Role) {
    match p
    case Idle => true
    case RdSpin => role == Reader
    case RdSwap => role == Reader
    case RdIn => role == Reader
    case _ => role == Writer
  }

  lemma {:induction false} PlaysNext(s: State, e: Event, t: nat, role: Role)
    requires Enabled(s, e) && t < |s.pcs| && Plays(s.pcs[t], role)
    ensures |Next(s, e).pcs| == |s.pcs|
    ensures Plays(Next(s, e).pcs[t], if e.t == t && e.Enter? then if e.ro then Reader else Writer else role)
  {
  }

  // In every run a section runs the code of what it began as.
  lemma {:induction false} RolesAreKept(n: nat, es: seq<Event>, t: nat)
    requires Legal(n, es) && t < n
    ensures |After(n, es).pcs| == n && Plays(After(n, es).pcs[t], RoleOf(es, t))
  {
    if es != [] {
      RolesAreKept(n, Front(es), t);
      PlaysNext(After(n, Front(es)), Last(es), t, RoleOf(Front(es), t));
      hide Enabled, Next, Plays;
    }
  }

  // Between its acquire and its release.
  predicate Acquired(p: Pc) {
    p.RdIn? || p.WrIn?
  }

  // Whoever began a section as a writer and has acquired excludes everybody who has acquired; whoever
  // began one as a reader holds at most its own word.
  lemma {:induction false} WritersExclude(n: nat, es: seq<Event>, t: nat)
    requires Legal(n, es) && t < n
    ensures |After(n, es).pcs| == n
    ensures var s := After(n, es);
      && (RoleOf(es, t) == Writer && Acquired(s.pcs[t]) ==>
            s.writer && (forall j :: 0 <= j < |s.words| ==> s.words[j]) &&
            forall u :: 0 <= u < n && u != t ==> !Acquired(s.pcs[u]))
      && (RoleOf(es, t) == Reader ==> !OwnsLock(s.pcs[t]) && forall j :: OwnsWord(s.pcs[t], t, j) ==> j == t)
  {
    RolesAreKept(n, es, t);
    InvAlways(n, es);
    hide Inv, Legal, After;
    var s := After(n, es);
    if RoleOf(es, t) == Writer && Acquired(s.pcs[t]) {
      AloneIn(s, t);
      forall u | 0 <= u < n && u != t
        ensures !Acquired(s.pcs[u])
      {
        assert !s.pcs[u].RdIn? && !OwnsLock(s.pcs[u]);
      }
    }
  }

  function Begun(es: seq<Event>, t: nat): nat {
    if es == [] then 0 else Begun(Front(es), t) + if Last(es).t == t && Last(es).Enter? then 1 else 0
  }

  // The releases that t has begun.
  function Released(n: nat, es: seq<Event>, t: nat): nat {
    if es == [] then 0
    else
      var s := After(n, Front(es));
      Released(n, Front(es), t) + if Last(es) == Go(t) && t < |s.pcs| && Acquired(s.pcs[t]) then 1 else 0
  }

  // On the way in, or inside.
  predicate Underway(p: Pc) {
    !p.Idle? && !p.GiveBack? && !p.WrUnlock?
  }

  lemma {:induction false} UnderwayNext(s: State, e: Event, t: nat)
    requires Enabled(s, e) && t < |s.pcs|
    ensures |Next(s, e).pcs| == |s.pcs|
    ensures Underway(Next(s, e).pcs[t]) ==
      if e.t == t && e.Enter? then true else if e == Go(t) && Acquired(s.pcs[t]) then false else Underway(s.pcs[t])
    ensures e.t == t && e.Enter? ==> !Underway(s.pcs[t])
    ensures Acquired(s.pcs[t]) ==> Underway(s.pcs[t])
  {
  }

  // In every run each section that was begun has been left once, or is on its way in or inside.
  lemma {:induction false} EachSectionOnce(n: nat, es: seq<Event>, t: nat)
    requires Legal(n, es) && t < n
    ensures |After(n, es).pcs| == n
    ensures var p := After(n, es).pcs[t];
      Begun(es, t) == Released(n, es, t) + if Underway(p) then 1 else 0
  {
    if es != [] {
      EachSectionOnce(n, Front(es), t);
      UnderwayNext(After(n, Front(es)), Last(es), t);
      hide Enabled, Next;
    }
  }

  // ---------- a section alone ----------

  // The state after k steps of t.
  function Steps(s: State, t: nat, k: nat): State {
    if k == 0 then s
    else
      var s' := Steps(s, t, k - 1);
      if Enabled(s', Go(t)) then Next(s', Go(t)) else s'
  }

  lemma {:induction false} StepsOn(s: State, t: nat, j: nat, k: nat)
    ensures Steps(Steps(s, t, j), t, k) == Steps(s, t, j + k)
  {
    hide Enabled, Next;
    if k > 0 {
      StepsOn(s, t, j, k - 1);
    }
  }

  // What t is waiting for has not happened.
  predicate Waits(s: State, t: nat)
    requires t < |s.pcs| == |s.words|
  {
    match s.pcs[t]
    case RdSpin => s.words[t]
    case WrSpin => s.writer
    case TakeSpin(k) => k < |s.words| && s.words[k]
    case _ => false
  }

  // Until it does, t takes no other step, however often it looks.
  lemma {:induction false} StaysWhileSet(s: State, t: nat, k: nat)
    requires t < |s.pcs| == |s.words| && Waits(s, t)
    ensures Steps(s, t, k) == s
  {
    if k > 0 {
      StaysWhileSet(s, t, k - 1);
    }
  }

  // A reader gets in with two steps and out with one.
  lemma {:induction false} ReaderGetsThrough(s: State, t: nat)
    requires t < |s.pcs| == |s.words| && s.pcs[t].RdSpin? && !s.words[t]
    ensures Steps(s, t, 2) == s.(words := s.words[t := true], pcs := s.pcs[t := RdIn])
    ensures Steps(s, t, 3) == s.(pcs := s.pcs[t := Idle])
  {
    assert Steps(s, t, 1) == Next(Steps(s, t, 0), Go(t)) == s.(pcs := s.pcs[t := RdSwap]);
    assert Steps(s, t, 2).pcs == s.pcs[t := RdIn];
    assert Steps(s, t, 3).pcs == s.pcs[t := Idle] && Steps(s, t, 3).words == s.words;
  }

  // The first k words are as given, the others as they were.
  function WordsUpTo(words: seq<bool>, k: nat, up: bool): seq<bool>
    requires k <= |words|
  {
    seq(k, _ => up) + words[k..]
  }

  lemma {:induction false} TakesAlone(s: State, t: nat, k: nat)
    requires t < |s.pcs| == |s.words| && s.pcs[t] == TakeSpin(0) && k <= |s.words|
    requires forall j :: 0 <= j < |s.words| ==> !s.words[j]
    ensures Steps(s, t, 2 * k) == s.(words := WordsUpTo(s.words, k, true), pcs := s.pcs[t := TakeSpin(k)])
  {
    hide Steps, Next, Enabled, WordsUpTo;
    UpToNone(s.words, true);
    if k == 0 {
      NoStep(s, t);
      assert s.pcs[t := TakeSpin(0)] == s.pcs;
    } else {
      TakesAlone(s, t, k - 1);
      var s1 := Steps(s, t, 2 * k - 2);
      UpToMore(s.words, k - 1, true);
      TakesOne(s1, t, k - 1);
      StepsOn(s, t, 2 * k - 2, 2);
      assert s1.pcs[t := TakeSpin(k)] == s.pcs[t := TakeSpin(k)];
    }
  }

  lemma {:induction false} NoStep(s: State, t: nat)
    ensures Steps(s, t, 0) == s
  {
  }

  lemma {:induction false} UpToNone(words: seq<bool>, up: bool)
    ensures WordsUpTo(words, 0, up) == words
  {
  }

  lemma {:induction false} UpToMore(words: seq<bool>, k: nat, up: bool)
    requires k < |words|
    ensures |WordsUpTo(words, k, up)| == |words| && WordsUpTo(words, k, up)[k] == words[k]
    ensures WordsUpTo(words, k, up)[k := up] == WordsUpTo(words, k + 1, up)
  {
  }

  lemma {:induction false} TakesOne(s: State, t: nat, k: nat)
    requires t < |s.pcs| == |s.words| && s.pcs[t] == TakeSpin(k) && k < |s.words| && !s.words[k]
    ensures Steps(s, t, 2) == s.(words := s.words[k := true], pcs := s.pcs[t := TakeSpin(k + 1)])
  {
    assert Steps(s, t, 1) == Next(Steps(s, t, 0), Go(t)) == s.(pcs := s.pcs[t := TakeSwap(k)]);
    assert Steps(s, t, 2).pcs == s.pcs[t := TakeSpin(k + 1)];
  }

  lemma {:induction false} GivesAlone(s: State, t: nat, k: nat)
    requires t < |s.pcs| == |s.words| && s.pcs[t] == GiveBack(0) && k <= |s.words|
    ensures Steps(s, t, k) == s.(words := WordsUpTo(s.words, k, false), pcs := s.pcs[t := GiveBack(k)])
  {
    hide WordsUpTo;
    UpToNone(s.words, false);
    if k == 0 {
      assert s.pcs[t := GiveBack(0)] == s.pcs;
    } else {
      GivesAlone(s, t, k - 1);
      UpToMore(s.words, k - 1, false);
      var s1 := s.(words := WordsUpTo(s.words, k - 1, false), pcs := s.pcs[t := GiveBack(k - 1)]);
      assert Steps(s, t, k) == Next(s1, Go(t));
      hide Steps, Enabled;
    }
  }

  lemma {:induction false} TakesLock(s: State, t: nat)
    requires t < |s.pcs| == |s.words| && s.pcs[t].WrSpin? && !s.writer
    ensures Steps(s, t, 2) == s.(writer := true, pcs := s.pcs[t := TakeSpin(0)])
  {
    assert Steps(s, t, 1) == Next(Steps(s, t, 0), Go(t)) == s.(pcs := s.pcs[t := WrSwap]);
    assert Steps(s, t, 2).pcs == s.pcs[t := TakeSpin(0)];
  }

  lemma {:induction false} OneStep(s: State, t: nat)
    requires Enabled(s, Go(t))
    ensures Steps(s, t, 1) == Next(s, Go(t))
  {
    hide Next;
    assert Steps(s, t, 0) == s;
  }

  // A writer gets in with 2 n + 3 steps, holding every word.
  lemma {:induction false} WriterGetsIn(s: State, t: nat)
    requires t < |s.pcs| == |s.words| && s.pcs[t].WrSpin? && !s.writer
    requires forall j :: 0 <= j < |s.words| ==> !s.words[j]
    ensures var n := |s.words|;
      Steps(s, t, 2 * n + 3) == State(true, seq(n, _ => true), s.pcs[t := WrIn])
  {
    hide Steps;
    var n := |s.words|;
    TakesLock(s, t);
    var s1 := s.(writer := true, pcs := s.pcs[t := TakeSpin(0)]);
    TakesAlone(s1, t, n);
    StepsOn(s, t, 2, 2 * n);
    var s2 := Steps(s, t, 2 * n + 2);
    OneStep(s2, t);
    StepsOn(s, t, 2 * n + 2, 1);
    assert WordsUpTo(s.words, n, true) == seq(n, _ => true);
    assert s2.pcs[t := WrIn] == s.pcs[t := WrIn];
  }

  // And out with n + 3, freeing every word and writer_lock.
  lemma {:induction false} WriterGetsOut(s: State, t: nat)
    requires t < |s.pcs| == |s.words| && s.pcs[t].WrIn?
    ensures var n := |s.words|;
      Steps(s, t, n + 3) == State(false, seq(n, _ => false), s.pcs[t := Idle])
  {
    hide Steps;
    var n := |s.words|;
    var s1 := s.(pcs := s.pcs[t := GiveBack(0)]);
    OneStep(s, t);
    GivesAlone(s1, t, n);
    StepsOn(s, t, 1, n);
    assert WordsUpTo(s.words, n, false) == seq(n, _ => false);
    var s2 := s.(words := seq(n, _ => false), pcs := s.pcs[t := GiveBack(n)]);
    assert s1.pcs[t := GiveBack(n)] == s2.pcs;
    OneStep(s2, t);
    StepsOn(s, t, n + 1, 1);
    var s3 := s2.(pcs := s.pcs[t := WrUnlock]);
    assert s2.pcs[t := WrUnlock] == s3.pcs && s3.pcs[t := Idle] == s.pcs[t := Idle];
    OneStep(s3, t);
    StepsOn(s, t, n + 2, 1);
  }

  /** The lock object: its words are changed in place by the atomic steps of n threads. */
  class BigReaderLock {
    const n: nat
    const readerLocks: array<bool>
    var writerLock: bool
    var pcs: seq<Pc>
    ghost var trace: seq<Event>

    ghost function View(): State
      reads this, readerLocks
    {
      State(writerLock, readerLocks[..], pcs)
    }

    ghost predicate Valid()
      reads this, readerLocks
    {
      Legal(n, trace) && View() == After(n, trace) && |pcs| == readerLocks.Length == n
    }

    constructor (n: nat)
      ensures Valid() && fresh(readerLocks) && this.n == n && View() == Init(n)
    {
      this.n := n;
      readerLocks := new bool[n](_ => false);
      writerLock := false;
      pcs := seq(n, _ => Idle);
      trace := [];
    }

    lemma Advanced(e: Event, s: State)
      requires Legal(n, trace) && s == After(n, trace) && Enabled(s, e)
      ensures Legal(n, trace + [e]) && After(n, trace + [e]) == Next(s, e)
    {
      FrontOfAppend(trace, e);
    }

    method Begin(t: nat, ro: bool)
      requires Valid() && t < n && pcs[t].Idle?
      modifies this`pcs, this`trace
      ensures Valid() && View() == Next(old(View()), Enter(t, ro)) && trace == old(trace) + [Enter(t, ro)]
      ensures Plays(pcs[t], if ro then Reader else Writer)
    {
      hide Legal, After;
      Advanced(Enter(t, ro), View());
      trace := trace + [Enter(t, ro)];
      pcs := pcs[t := if ro then RdSpin else WrSpin];
    }

    // One step of ACQUIRE_READ_LOCK or RELEASE_READ_LOCK.
    method StepReader(t: nat)
      requires Valid() && t < n && (pcs[t].RdSpin? || pcs[t].RdSwap? || pcs[t].RdIn?)
      modifies this`pcs, this`trace, readerLocks
      ensures Valid() && View() == Next(old(View()), Go(t)) && trace == old(trace) + [Go(t)]
      ensures pcs[t].RdIn? ==> forall u :: 0 <= u < n ==> !pcs[u].WrIn?
    {
      hide Legal, After;
      ghost var was := View();
      Advanced(Go(t), was);
      trace := trace + [Go(t)];
      match pcs[t] {
        case RdSpin =>
          if !readerLocks[t] {
            pcs := pcs[t := RdSwap];
          }
        case RdSwap =>
          if readerLocks[t] {
            pcs := pcs[t := RdSpin];
          } else {
            readerLocks[t] := true;
            assert readerLocks[..] == was.words[t := true];
            pcs := pcs[t := RdIn];
          }
        case RdIn =>
          readerLocks[t] := false;
          assert readerLocks[..] == was.words[t := false];
          pcs := pcs[t := Idle];
      }
      ReadersExclude();
    }

    // One step of ACQUIRE_WRITE_LOCK.
    method StepWriter(t: nat)
      requires Valid() && t < n && (pcs[t].WrSpin? || pcs[t].WrSwap? || pcs[t].TakeSpin? || pcs[t].TakeSwap?)
      modifies this`writerLock, this`pcs, this`trace, readerLocks
      ensures Valid() && View() == Next(old(View()), Go(t)) && trace == old(trace) + [Go(t)]
      ensures pcs[t].WrIn? ==> IsAlone(View(), t)
    {
      hide Legal, After;
      ghost var was := View();
      Advanced(Go(t), was);
      trace := trace + [Go(t)];
      match pcs[t] {
        case WrSpin =>
          if !writerLock {
            pcs := pcs[t := WrSwap];
          }
        case WrSwap =>
          if writerLock {
            pcs := pcs[t := WrSpin];
          } else {
            writerLock := true;
            pcs := pcs[t := TakeSpin(0)];
          }
        case TakeSpin(k) =>
          if k >= readerLocks.Length {
            pcs := pcs[t := WrIn];
          } else if !readerLocks[k] {
            pcs := pcs[t := TakeSwap(k)];
          }
        case TakeSwap(k) =>
          if k >= readerLocks.Length || readerLocks[k] {
            pcs := pcs[t := TakeSpin(k)];
          } else {
            readerLocks[k] := true;
            assert readerLocks[..] == was.words[k := true];
            pcs := pcs[t := TakeSpin(k + 1)];
          }
      }
      WriterExcludes(t);
    }

    lemma WriterExcludes(t: nat)
      requires Valid() && t < n
      ensures pcs[t].WrIn? ==> IsAlone(View(), t)
    {
      InvAlways(n, trace);
      if pcs[t].WrIn? {
        AloneIn(View(), t);
      }
    }

    lemma ReadersExclude()
      requires Valid()
      ensures forall t, u :: 0 <= t < n && 0 <= u < n && pcs[t].RdIn? ==> !pcs[u].WrIn?
    {
      InvAlways(n, trace);
      forall u | 0 <= u < n && pcs[u].WrIn?
        ensures forall t :: 0 <= t < n ==> !pcs[t].RdIn?
      {
        AloneIn(View(), u);
        assert IsAlone(View(), u);
      }
    }

    // One step of RELEASE_WRITE_LOCK.
    method StepRelease(t: nat)
      requires Valid() && t < n && (pcs[t].WrIn? || pcs[t].GiveBack? || pcs[t].WrUnlock?)
      modifies this`writerLock, this`pcs, this`trace, readerLocks
      ensures Valid() && View() == Next(old(View()), Go(t)) && trace == old(trace) + [Go(t)]
    {
      hide Legal, After;
      ghost var was := View();
      Advanced(Go(t), was);
      trace := trace + [Go(t)];
      match pcs[t]
      case WrIn =>
        pcs := pcs[t := GiveBack(0)];
      case GiveBack(k) =>
        if k >= readerLocks.Length {
          pcs := pcs[t := WrUnlock];
        } else {
          readerLocks[k] := false;
          assert readerLocks[..] == was.words[k := false];
          pcs := pcs[t := GiveBack(k + 1)];
        }
      case WrUnlock =>
        writerLock := false;
        pcs := pcs[t := Idle];
    }
  }
}
