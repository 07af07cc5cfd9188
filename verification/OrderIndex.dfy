/**
 The secondary index over orders: customer and order number packed into one key of a B+ tree, and
 the query for a customer's last order.

 The shift is 32 in tpcctables_tm.cc and 8 in tpcctables.cc.
 */
module OrderIndex {
  import opened Words
  import opened BTree
  import opened BTreeQuery
  import opened BPlusTreeObject

  const MAX_WAREHOUSE_ID := 100
  const DISTRICTS := 10
  const CUSTOMERS := 3000

  datatype Customer = Customer(w: nat, d: nat, c: nat) {
    predicate Ok() {
      1 <= w <= MAX_WAREHOUSE_ID && 1 <= d <= DISTRICTS && 1 <= c <= CUSTOMERS
    }

    predicate Before(that: Customer) {
      w < that.w || (w == that.w && (d < that.d || (d == that.d && c < that.c)))
    }
  }

  datatype OrderId = OrderId(who: Customer, o: nat) {
    // Order numbers that the shift leaves room for.
    predicate Ok(shift: nat) {
      who.Ok() && 1 <= o < Pow2(shift)
    }

    predicate Before(that: OrderId) {
      who.Before(that.who) || (who == that.who && o < that.o)
    }
  }

  function TopId(who: Customer): nat {
    (who.w * DISTRICTS + who.d) * CUSTOMERS + who.c
  }

  // (top << shift) | o
  function Pack(shift: nat, top: nat, o: nat): nat {
    BitOr(top * Pow2(shift), o)
  }

  // makeOrderByCustomerKey
  function Key(shift: nat, id: OrderId): nat {
    Pack(shift, TopId(id.who), id.o)
  }

  // ---------- the packed key ----------

  lemma {:induction false} TopIdOrder(a: Customer, b: Customer)
    requires a.Ok() && b.Ok()
    ensures TopId(a) < TopId(b) <==> a.Before(b)
    ensures TopId(a) == TopId(b) <==> a == b
  {
  }

  lemma {:induction false} Radix(p: nat, x: nat, y: nat, x': nat, y': nat)
    requires y < p && x < x'
    ensures x * p + y < x' * p + y'
  {
    assert (x + 1) * p <= x' * p by {
      assert (x' - x - 1) * p >= 0;
    }
  }

  lemma {:induction false} MixedRadix(p: nat, x: nat, y: nat, x': nat, y': nat)
    requires y < p && y' < p
    ensures x * p + y < x' * p + y' <==> x < x' || (x == x' && y < y')
    ensures x * p + y == x' * p + y' <==> x == x' && y == y'
  {
    if x < x' {
      Radix(p, x, y, x', y');
    } else if x' < x {
      Radix(p, x', y', x, y);
    }
  }

  lemma {:induction false} PackOrder(shift: nat, x: nat, o: nat, x': nat, o': nat)
    requires o < Pow2(shift) && o' < Pow2(shift)
    ensures Pack(shift, x, o) < Pack(shift, x', o') <==> x < x' || (x == x' && o < o')
    ensures Pack(shift, x, o) == Pack(shift, x', o') <==> x == x' && o == o'
    ensures Pack(shift, x, o) >= o
    ensures Pack(shift, x, o) + Pow2(shift) == Pack(shift, x + 1, o)
  {
    hide BitOr;
    OrShifted(x, shift, o);
    OrShifted(x', shift, o');
    OrShifted(x + 1, shift, o);
    MixedRadix(Pow2(shift), x, o, x', o');
    assert (x + 1) * Pow2(shift) == x * Pow2(shift) + Pow2(shift);
  }

  // Keys compare as the tuples (w, d, c, o) do, so they are also injective.
  lemma {:induction false} KeyOrder(shift: nat, a: OrderId, b: OrderId)
    requires a.Ok(shift) && b.Ok(shift)
    ensures Key(shift, a) < Key(shift, b) <==> a.Before(b)
    ensures Key(shift, a) == Key(shift, b) <==> a == b
    ensures Key(shift, a) > 0
  {
    PackOrder(shift, TopId(a.who), a.o, TopId(b.who), b.o);
    TopIdOrder(a.who, b.who);
  }

  // The key is shift-and-add exactly where customer and order number share no binary digit.
  lemma {:induction false} KeyIsSum(shift: nat, id: OrderId)
    ensures Key(shift, id) == TopId(id.who) * Pow2(shift) + id.o <==>
      BitAnd(TopId(id.who) * Pow2(shift), id.o) == 0
  {
    OrPlusAnd(TopId(id.who) * Pow2(shift), id.o);
  }

  // An order number past the shift spills its upper digits into the customer part of the key.
  lemma {:induction false} PastTheShift(shift: nat, top: nat, q: nat, r: nat)
    requires r < Pow2(shift)
    ensures Pack(shift, top, q * Pow2(shift) + r) == Pack(shift, BitOr(top, q), r)
  {
    hide BitOr;
    var x := BitOr(top, q);
    OrZero(x);
    OrSplit(top, 0, q, r, shift);
    OrSplit(x, 0, 0, r, shift);
    OrCommutes(0, r);
    OrZero(r);
  }

  // The customer part and the rest of the key of an order with any number.
  function Spilled(shift: nat, id: OrderId): nat {
    BitOr(TopId(id.who), Above(id.o, Pow2(shift)))
  }

  function Rest(shift: nat, id: OrderId): nat {
    Words.Below(id.o, Pow2(shift))
  }

  lemma {:induction false} SpilledKey(shift: nat, id: OrderId)
    ensures Key(shift, id) == Pack(shift, Spilled(shift, id), Rest(shift, id)) && Rest(shift, id) < Pow2(shift)
    ensures Spilled(shift, id) >= TopId(id.who)
  {
    hide BitOr, Pack, TopId, Above, Words.Below;
    var p := Pow2(shift);
    Split(id.o, p);
    PastTheShift(shift, TopId(id.who), Above(id.o, p), Words.Below(id.o, p));
    OrAtLeast(TopId(id.who), Above(id.o, p));
  }

  // Any two orders have the same key exactly when the customer part with the spilled digits and the
  // rest agree.
  lemma {:induction false} SameKey(shift: nat, a: OrderId, b: OrderId)
    ensures Key(shift, a) == Key(shift, b) <==>
      Spilled(shift, a) == Spilled(shift, b) && Rest(shift, a) == Rest(shift, b)
  {
    hide Pack, Key, Spilled, Rest;
    SpilledKey(shift, a);
    SpilledKey(shift, b);
    PackOrder(shift, Spilled(shift, a), Rest(shift, a), Spilled(shift, b), Rest(shift, b));
  }

  // So no order has its key alone: a number that fits spills nothing, and the customer part itself,
  // spilled, changes nothing.
  lemma {:induction false} NeverAlone(shift: nat, id: OrderId)
    requires id.Ok(shift)
    ensures Spilled(shift, id) == TopId(id.who) && Rest(shift, id) == id.o
    ensures var other := OrderId(id.who, TopId(id.who) * Pow2(shift) + id.o);
      other != id && Key(shift, other) == Key(shift, id)
  {
    hide BitOr, TopId;
    var p, top := Pow2(shift), TopId(id.who);
    PastTheShift(shift, top, top, id.o);
    OrSelf(top);
    OrZero(top);
    DivSmall(id.o, p);
    assert top >= 1 by {
      TopIdPositive(id.who);
    }
    assert top * p > 0;
  }

  lemma {:induction false} TopIdPositive(who: Customer)
    requires who.Ok()
    ensures TopId(who) >= 1
  {
  }

  lemma {:induction false} DivSmall(x: nat, p: nat)
    requires x < p
    ensures Above(x, p) == 0 && Words.Below(x, p) == x
  {
  }

  lemma {:induction false} OrSelf(x: nat)
    ensures BitOr(x, x) == x
  {
    if x != 0 {
      OrSelf(x / 2);
    }
  }

  // With the shift of 8 the 257th order of a customer can take the key of its first, and the 513th
  // the key of another customer's first.
  lemma {:induction false} EightBitsCollide()
    ensures Key(8, OrderId(Customer(1, 1, 1), 257)) == Key(8, OrderId(Customer(1, 1, 1), 1))
    ensures Key(8, OrderId(Customer(1, 1, 1), 513)) == Key(8, OrderId(Customer(1, 1, 3), 1))
    ensures Customer(1, 1, 1).Ok() && Customer(1, 1, 3).Ok()
  {
    var top := TopId(Customer(1, 1, 1));
    hide BitOr;
    OrOne(top);
    OrTwo(top);
    assert Pow2(8) == 256;
    PastTheShift(8, top, 1, 1);
    PastTheShift(8, top, 2, 1);
  }

  lemma {:induction false} OrOne(x: nat)
    ensures BitOr(x, 1) == if x % 2 == 1 then x else x + 1
  {
    OrZero(x / 2);
  }

  lemma {:induction false} OrTwo(x: nat)
    requires x % 4 == 1
    ensures BitOr(x, 2) == x + 2
  {
    hide BitOr;
    OrOne(x / 2);
    Halves(x / 2, 1, 1, 0);
  }

  lemma {:induction false} KeyPositive(shift: nat, id: OrderId)
    requires id.who.Ok()
    ensures Key(shift, id) > 0
  {
    hide BitOr;
    OrAtLeast(TopId(id.who) * Pow2(shift), id.o);
    assert TopId(id.who) * Pow2(shift) > 0;
  }

  // The keys, and the bound below, fit a signed 64-bit word.
  lemma {:induction false} KeyFits(id: OrderId)
    requires id.Ok(32)
    ensures Key(32, id) + Pow2(32) < Pow2(63)
  {
    TopIdFits(id.who);
    PackFits(TopId(id.who), id.o);
  }

  lemma {:induction false} TopIdFits(who: Customer)
    requires who.Ok()
    ensures TopId(who) + 2 <= Pow2(22)
  {
    assert Pow2(11) == 2048;
    Pow2Adds(11, 11);
  }

  lemma {:induction false} PackFits(x: nat, o: nat)
    requires x + 2 <= Pow2(22) && o < Pow2(32)
    ensures Pack(32, x, o) + Pow2(32) < Pow2(63)
  {
    hide BitOr, Pow2;
    OrShifted(x, 32, o);
    Pow2Adds(22, 32);
    Pow2Adds(54, 9);
    var p := Pow2(32);
    Times(x + 2, Pow2(22), p);
    assert (x + 2) * p == x * p + 2 * p;
  }

  lemma {:induction false} Pow2Adds(a: nat, b: nat)
    ensures Pow2(a) * Pow2(b) == Pow2(a + b)
    ensures Pow2(a) <= Pow2(a + b)
  {
    if b > 0 {
      Pow2Adds(a, b - 1);
      Doubled(Pow2(a), Pow2(b - 1));
    }
  }

  // The bound findLastOrderByCustomer asks for.
  function LastKey(shift: nat, who: Customer): nat {
    Key(shift, OrderId(who, 1)) + Pow2(shift)
  }

  // It is above every key of the customer and of those before it, and above no other.
  lemma {:induction false} LastKeyBounds(shift: nat, who: Customer, id: OrderId)
    requires who.Ok() && id.Ok(shift)
    ensures Key(shift, id) < LastKey(shift, who) <==> id.who == who || id.who.Before(who)
  {
    PackOrder(shift, TopId(who), 1, TopId(who), 1);
    PackOrder(shift, TopId(id.who), id.o, TopId(who) + 1, 1);
    TopIdOrder(id.who, who);
  }

  // ---------- the query ----------

  // An order as it was filed.
  datatype Entry = Entry(id: OrderId, order: int)

  // The files hold, for every key in use, the order filed last under it.
  ghost predicate WellFiled(shift: nat, files: map<int, Entry>) {
    forall k :: k in files ==>
      files[k].order != 0 && files[k].id.who.Ok() && files[k].id.o >= 1 && Key(shift, files[k].id) == k
  }

  // The index maps every key in use to the order filed last under it.
  ghost predicate Indexes(shift: nat, m: map<int, int>, files: map<int, Entry>) {
    WellFiled(shift, files) && m.Keys == files.Keys && forall k :: k in files ==> m[k] == files[k].order
  }

  // Every order number on file fits the shift.
  ghost predicate Fit(shift: nat, files: map<int, Entry>) {
    forall k :: k in files ==> files[k].id.Ok(shift)
  }

  // What findLastOrderByCustomer answers: the order under the greatest key below the bound.
  ghost predicate IsAnswer(shift: nat, files: map<int, Entry>, who: Customer, r: Option<Entry>) {
    match r
    case Some(e) => AtGreatest(files, LastKey(shift, who), Key(shift, e.id), e)
    case None => forall k :: k in files ==> k >= LastKey(shift, who)
  }

  // e is on file under k, the greatest key below the bound.
  ghost predicate AtGreatest(files: map<int, Entry>, bound: int, k: int, e: Entry) {
    k in files && files[k] == e && k < bound && forall x :: x in files && x < bound ==> x <= k
  }

  ghost predicate HasOrder(files: map<int, Entry>, who: Customer) {
    exists k :: k in files && files[k].id.who == who
  }

  // e is on file, and no order of its customer or of a customer between the two is later.
  ghost predicate IsLast(files: map<int, Entry>, who: Customer, e: Entry) {
    && (e.id.who == who || e.id.who.Before(who))
    && (exists k :: k in files && files[k] == e)
    && forall k :: k in files && (files[k].id.who == who || files[k].id.who.Before(who)) ==>
         files[k].id == e.id || files[k].id.Before(e.id)
  }

  // e is the customer's order with the largest number.
  ghost predicate IsNewest(files: map<int, Entry>, who: Customer, e: Entry) {
    && e.id.who == who && (exists k :: k in files && files[k] == e)
    && forall k :: k in files && files[k].id.who == who ==> files[k].id.o <= e.id.o
  }

  lemma {:induction false} AnswerIsLast(shift: nat, files: map<int, Entry>, who: Customer, e: Entry)
    requires WellFiled(shift, files) && Fit(shift, files) && who.Ok() && IsAnswer(shift, files, who, Some(e))
    ensures IsLast(files, who, e)
  {
    hide Key, LastKey;
    LastKeyBounds(shift, who, e.id);
    forall k | k in files && (files[k].id.who == who || files[k].id.who.Before(who))
      ensures files[k].id == e.id || files[k].id.Before(e.id)
    {
      LastKeyBounds(shift, who, files[k].id);
      KeyOrder(shift, files[k].id, e.id);
    }
  }

  lemma {:induction false} NoAnswer(shift: nat, files: map<int, Entry>, who: Customer)
    requires WellFiled(shift, files) && Fit(shift, files) && who.Ok() && IsAnswer(shift, files, who, None)
    ensures forall k :: k in files ==> files[k].id.who != who && !files[k].id.who.Before(who)
  {
    hide Key, LastKey;
    forall k | k in files
      ensures files[k].id.who != who && !files[k].id.who.Before(who)
    {
      LastKeyBounds(shift, who, files[k].id);
    }
  }

  // If the customer has an order, the last order up to the customer is its own with the largest
  // number; if not, it is another customer's.
  lemma {:induction false} LastIsOwn(files: map<int, Entry>, who: Customer, e: Entry)
    requires IsLast(files, who, e)
    ensures e.id.who == who <==> HasOrder(files, who)
    ensures e.id.who == who ==> IsNewest(files, who, e)
  {
    if HasOrder(files, who) {
      var k :| k in files && files[k].id.who == who;
      assert files[k].id == e.id || files[k].id.Before(e.id);
    }
  }

  // While every order number fits the shift, the answer is the customer's order with the largest
  // number if the customer has an order, and else the last order of the customers before it.
  lemma {:induction false} AnswerIfFit(shift: nat, files: map<int, Entry>, who: Customer, r: Option<Entry>)
    requires WellFiled(shift, files) && Fit(shift, files) && who.Ok() && IsAnswer(shift, files, who, r)
    ensures HasOrder(files, who) ==> r.Some? && IsNewest(files, who, r.value)
    ensures r.Some? ==> IsLast(files, who, r.value) && (r.value.id.who == who <==> HasOrder(files, who))
    ensures r.None? <==> forall k :: k in files ==> files[k].id.who != who && !files[k].id.who.Before(who)
  {
    hide IsAnswer;
    if r.Some? {
      AnswerIsLast(shift, files, who, r.value);
      LastIsOwn(files, who, r.value);
    } else {
      NoAnswer(shift, files, who);
    }
  }

  // The bound of the query, against the key of any order: spilled digits may take a key to the
  // customer from one before it, past it, or to the one number below the bound of the next.
  lemma {:induction false} KeyUnderBound(shift: nat, who: Customer, id: OrderId)
    requires shift >= 1
    ensures Key(shift, id) < LastKey(shift, who) <==>
      Spilled(shift, id) <= TopId(who) || (Spilled(shift, id) == TopId(who) + 1 && Rest(shift, id) == 0)
  {
    hide BitOr, Pack, TopId, Spilled, Rest;
    SpilledKey(shift, id);
    PackOrder(shift, TopId(who), 1, TopId(who), 1);
    PackOrder(shift, Spilled(shift, id), Rest(shift, id), TopId(who) + 1, 1);
  }

  // No order on file has a key below the bound of the customer part top, and above that of top and r.
  ghost predicate NoneAbove(shift: nat, files: map<int, Entry>, top: nat, r: nat) {
    forall k :: k in files ==>
      var x, y := Spilled(shift, files[k].id), Rest(shift, files[k].id);
      !(x == top && y > r) && !(x == top + 1 && y == 0)
  }

  // Whatever numbers are on file, an order that was just filed is the answer to the query for its
  // customer exactly when its spilled digits leave the customer part alone and no order on file has a
  // key above its own and below the bound, or raise it by one and leave no rest.
  lemma {:induction false} AnswerPastTheShift(shift: nat, files: map<int, Entry>, id: OrderId, order: int)
    requires shift >= 1 && WellFiled(shift, files) && id.who.Ok() && id.o >= 1
    ensures IsAnswer(shift, files[Key(shift, id) := Entry(id, order)], id.who, Some(Entry(id, order))) <==>
      (Spilled(shift, id) == TopId(id.who) && NoneAbove(shift, files, TopId(id.who), Rest(shift, id))) ||
      (Spilled(shift, id) == TopId(id.who) + 1 && Rest(shift, id) == 0)
  {
    hide BitOr, Pack, TopId, Spilled, Rest, Key, LastKey;
    var x, r, top, key := Spilled(shift, id), Rest(shift, id), TopId(id.who), Key(shift, id);
    var files' := files[key := Entry(id, order)];
    SpilledKey(shift, id);
    KeyUnderBound(shift, id.who, id);
    forall k | k in files
      ensures var y, q := Spilled(shift, files[k].id), Rest(shift, files[k].id);
        && (k < LastKey(shift, id.who) <==> y <= top || (y == top + 1 && q == 0))
        && (k > key <==> y > x || (y == x && q > r))
    {
      KeyUnderBound(shift, id.who, files[k].id);
      SpilledKey(shift, files[k].id);
      PackOrder(shift, x, r, Spilled(shift, files[k].id), Rest(shift, files[k].id));
    }
    if x == top && !NoneAbove(shift, files, top, r) {
      var k :| k in files &&
        ((Spilled(shift, files[k].id) == top && Rest(shift, files[k].id) > r) ||
         (Spilled(shift, files[k].id) == top + 1 && Rest(shift, files[k].id) == 0));
      assert k in files' && k > key;
    }
  }

  // A customer without an order is answered with another customer's.
  lemma {:induction false} FallsThrough(shift: nat, order: int)
    requires shift >= 1 && order != 0
    ensures var id := OrderId(Customer(1, 1, 1), 1);
      var files := map[Key(shift, id) := Entry(id, order)];
      && Customer(1, 1, 2).Ok() && WellFiled(shift, files) && Fit(shift, files) && !HasOrder(files, Customer(1, 1, 2))
      && IsAnswer(shift, files, Customer(1, 1, 2), Some(Entry(id, order)))
  {
    hide Key, LastKey;
    LastKeyBounds(shift, Customer(1, 1, 2), OrderId(Customer(1, 1, 1), 1));
  }

  // With the shift of 8, the 513th order of customer (1, 1, 1) is not its last order but that of
  // customer (1, 1, 3), who has none; customer (1, 1, 1) is answered with its first.
  lemma {:induction false} EightBitsMislead(first: int, late: int)
    requires first != 0 && late != 0
    ensures var one, many := OrderId(Customer(1, 1, 1), 1), OrderId(Customer(1, 1, 1), 513);
      var files := map[Key(8, one) := Entry(one, first)][Key(8, many) := Entry(many, late)];
      && WellFiled(8, files)
      && IsAnswer(8, files, Customer(1, 1, 1), Some(Entry(one, first)))
      && IsAnswer(8, files, Customer(1, 1, 3), Some(Entry(many, late)))
  {
    var one, third := OrderId(Customer(1, 1, 1), 1), OrderId(Customer(1, 1, 3), 1);
    assert Pow2(8) == 256;
    EightBitsCollide();
    hide Key, LastKey;
    KeyOrder(8, one, third);
    LastKeyBounds(8, one.who, one);
    LastKeyBounds(8, one.who, third);
    LastKeyBounds(8, third.who, one);
    LastKeyBounds(8, third.who, third);
  }

  // Filing an order is one more entry of the map.
  lemma {:induction false} IndexGrows(shift: nat, m: map<int, int>, files: map<int, Entry>, id: OrderId, order: int)
    requires Indexes(shift, m, files) && id.who.Ok() && id.o >= 1 && order != 0
    ensures Indexes(shift, m[Key(shift, id) := order], files[Key(shift, id) := Entry(id, order)])
  {
    hide Key;
  }

  /** orders_by_customer_ */
  class OrdersByCustomer {
    const shift: nat
    const tree: BPlusTree
    ghost var files: map<int, Entry>

    ghost predicate Valid()
      reads this, tree, tree.root, tree.root.repr
    {
      this !in tree.root.repr && tree.Valid() && Indexes(shift, Live(tree.Entries()), files)
    }

    constructor (shift: nat, N: nat, M: nat)
      requires N > 2 && M > 1
      ensures Valid() && fresh(tree) && fresh(tree.root.repr) && this.shift == shift && files == map[]
    {
      this.shift := shift;
      tree := new BPlusTree(N, M);
      files := map[];
    }

    // The secondary part of insertOrder, for any order number.
    method InsertOrder(id: OrderId, order: int)
      requires Valid() && id.who.Ok() && id.o >= 1 && order != 0
      modifies this`files, tree, tree.root.repr
      ensures Valid() && files == old(files)[Key(shift, id) := Entry(id, order)]
      ensures fresh(tree.root.repr - old(tree.root.repr))
    {
      hide Key;
      KeyPositive(shift, id);
      IndexGrows(shift, Live(tree.Entries()), files, id, order);
      LiveStep(tree.Entries(), Put(Key(shift, id), order));
      tree.Insert(Key(shift, id), order);
      files := files[Key(shift, id) := Entry(id, order)];
    }

    // findLastOrderByCustomer; 0 is the null it returns when nothing is found.
    method FindLastOrder(who: Customer) returns (order: int)
      requires Valid() && who.Ok()
      ensures exists r :: IsAnswer(shift, files, who, r) && order == OrderOf(r) && (order == 0 <==> r.None?)
      ensures Fit(shift, files) && HasOrder(files, who) ==> exists e :: IsNewest(files, who, e) && order == e.order
      ensures Fit(shift, files) && order != 0 ==> exists e ::
        IsLast(files, who, e) && order == e.order && (e.id.who == who <==> HasOrder(files, who))
      ensures Fit(shift, files) ==>
        (order == 0 <==> forall k :: k in files ==> files[k].id.who != who && !files[k].id.who.Before(who))
    {
      var key := Key(shift, OrderId(who, 1)) + Pow2(shift);
      var found, value, outKey := tree.FindLastLessThan(key);
      order := if found then value else 0;
      ghost var r := if found then Some(files[outKey]) else None;
      assert IsAnswer(shift, files, who, r);
      if Fit(shift, files) {
        AnswerIfFit(shift, files, who, r);
      }
    }
  }

  function OrderOf(r: Option<Entry>): int {
    if r.Some? then r.value.order else 0
  }
}
