/**
 The 32-bit words of the SNZI object: root.var and leaf.var pack a 16-bit count and a 16-bit
 version, root.state packs the indicator bit and a 31-bit counter.

 A short is an int between -2^15 and 2^15 - 1; words are unsigned.
 */
module SnziWords {
  import opened Words

  const WORD := 0x1_0000_0000

  predicate IsShort(x: int) {
    -0x8000 <= x < 0x8000
  }

  // Conversion of a short to unsigned int: sign extension.
  function Unsigned(x: int): (r: nat)
    requires IsShort(x)
    ensures r < WORD
  {
    if x >= 0 then x else x + WORD
  }

  // Conversion to short: the low 16 bits, read as a signed number.
  function Short(x: int): (r: int)
    ensures IsShort(r) && (r - x) % 0x1_0000 == 0
  {
    var low := x % 0x1_0000;
    if low >= 0x8000 then low - 0x1_0000 else low
  }

  function RootEncode(c: int, a: bool, v: int): nat
    requires IsShort(c) && IsShort(v)
  {
    BitOr(BitOr(BitOr(0, Unsigned(c)), if a then 0x8000 else 0), Unsigned(v) * 0x1_0000 % WORD)
  }

  datatype RootWord = RootWord(c: int, a: bool, v: int)

  function RootDecode(x: nat): (d: RootWord)
    ensures IsShort(d.c) && IsShort(d.v)
  {
    RootWord(Short(BitAnd(x, 0x7FFF)), BitAnd(x, 0x8000) > 0, Short(x / 0x1_0000))
  }

  function LeafEncode(c: int, v: int): nat
    requires IsShort(c) && IsShort(v)
  {
    BitOr(BitOr(0, Unsigned(c)), Unsigned(v) * 0x1_0000 % WORD)
  }

  datatype LeafWord = LeafWord(c: int, v: int)

  function LeafDecode(x: nat): (d: LeafWord)
    ensures IsShort(d.c) && IsShort(d.v)
  {
    LeafWord(Short(BitAnd(x, 0xFFFF)), Short(x / 0x1_0000))
  }

  const ALL_ONES := 0xFFFF_FFFF

  // ---------- the words as sums ----------

  lemma {:induction false} Powers()
    ensures Pow2(15) == 0x8000 && Pow2(16) == 0x1_0000 && Pow2(31) == 0x8000_0000
  {
    assert Pow2(8) == 256;
    assert Pow2(15) == 0x8000;
    assert Pow2(24) == 0x100_0000;
    assert Pow2(31) == 0x8000_0000;
  }

  lemma {:induction false} ShiftedVersion(v: int)
    requires IsShort(v)
    ensures Unsigned(v) * 0x1_0000 % WORD == v % 0x1_0000 * 0x1_0000
  {
  }

  // The low half: count and announce bit.
  function LowHalf(c: nat, a: bool): nat {
    c + if a then 0x8000 else 0
  }

  lemma {:induction false} RootForm(c: int, a: bool, v: int)
    requires 0 <= c < 0x8000 && IsShort(v)
    ensures RootEncode(c, a, v) == v % 0x1_0000 * 0x1_0000 + LowHalf(c, a)
  {
    hide BitOr, Pow2;
    Powers();
    ShiftedVersion(v);
    OrZero(c);
    OrCommutes(0, c);
    OrShifted(1, 15, c);
    OrCommutes(0x8000, c);
    OrShifted(v % 0x1_0000, 16, LowHalf(c, a));
    OrCommutes(v % 0x1_0000 * 0x1_0000, LowHalf(c, a));
  }

  lemma {:induction false} ShortAdds(v: int, d: int)
    ensures Short(Short(v) + d) == Short(v + d)
  {
  }

  lemma {:induction false} ShortSmall(c: int)
    requires 0 <= c < 0x8000
    ensures Short(c) == c
  {
  }

  lemma {:induction false} RootFields(c: int, a: bool, v: nat)
    requires 0 <= c < 0x8000 && v < 0x1_0000
    ensures RootDecode(v * 0x1_0000 + LowHalf(c, a)) == RootWord(c, a, Short(v))
  {
    hide BitAnd, Short, Pow2;
    var x, q := v * 0x1_0000 + LowHalf(c, a), 2 * v + if a then 1 else 0;
    Powers();
    ShortSmall(c);
    AndMask(x, 15);
    AndBit(x, 15);
    ModIs(x, 0x8000, q, c);
    ModIs(x, 0x1_0000, v, LowHalf(c, a));
    ModIs(q, 2, v, if a then 1 else 0);
  }

  // root_decode inverts root_encode exactly on counts that are not negative.
  lemma {:induction false} RootRoundTrip(c: int, a: bool, v: int)
    requires IsShort(c) && IsShort(v)
    ensures RootDecode(RootEncode(c, a, v)) == RootWord(c, a, v) <==> c >= 0
  {
    hide BitAnd, BitOr, RootEncode, RootDecode;
    if c >= 0 {
      RootForm(c, a, v);
      RootFields(c, a, v % 0x1_0000);
    } else {
      CountDecodesNonnegative(RootEncode(c, a, v));
    }
  }

  lemma {:induction false} CountDecodesNonnegative(x: nat)
    ensures RootDecode(x).c >= 0
  {
    hide BitAnd, Pow2;
    Powers();
    AndMask(x, 15);
  }

  // A negative count fills the version half with ones.
  lemma {:induction false} LeafForm(c: int, v: int)
    requires IsShort(c) && IsShort(v)
    ensures LeafEncode(c, v) == (if c >= 0 then v % 0x1_0000 else 0xFFFF) * 0x1_0000 + c % 0x1_0000
  {
    hide BitOr, Pow2;
    Powers();
    ShiftedVersion(v);
    var low, high, ver := c % 0x1_0000, if c >= 0 then 0 else 0xFFFF, v % 0x1_0000;
    assert Unsigned(c) == high * 0x1_0000 + low;
    OrZero(Unsigned(c));
    OrCommutes(0, Unsigned(c));
    OrSplit(high, low, ver, 0, 16);
    OrZero(low);
    OrZero(ver);
    OrCommutes(0, ver);
    OrOnes(16, ver);
  }

  lemma {:induction false} LeafFields(x: nat, high: nat, low: nat)
    requires high < 0x1_0000 && low < 0x1_0000 && x == high * 0x1_0000 + low
    ensures LeafDecode(x) == LeafWord(Short(low), Short(high))
  {
    hide BitAnd, Pow2;
    Powers();
    AndMask(x, 16);
    ModIs(x, 0x1_0000, high, low);
  }

  // leaf_decode inverts leaf_encode exactly on counts that are not negative and on version -1.
  lemma {:induction false} LeafRoundTrip(c: int, v: int)
    requires IsShort(c) && IsShort(v)
    ensures LeafDecode(LeafEncode(c, v)) == LeafWord(c, v) <==> c >= 0 || v == -1
  {
    hide BitAnd, BitOr, LeafEncode, LeafDecode;
    LeafForm(c, v);
    LeafFields(LeafEncode(c, v), if c >= 0 then v % 0x1_0000 else 0xFFFF, c % 0x1_0000);
  }

  // The half state is all ones, whatever its version; whoever reads it sees count and version -1.
  lemma {:induction false} HalfIsAllOnes(v: int)
    requires IsShort(v)
    ensures LeafEncode(-1, v) == ALL_ONES && LeafDecode(ALL_ONES) == LeafWord(-1, -1)
  {
    hide BitAnd, BitOr;
    LeafForm(-1, v);
    LeafFields(ALL_ONES, 0xFFFF, 0xFFFF);
  }

  // ---------- root.state ----------

  // (i & 0x7FFFFFFF) + 1, with the sign bit set by an arrival.
  function StateSuccessor(i: nat, bit: bool): nat {
    var k := BitAnd(i, 0x7FFF_FFFF) + 1;
    if bit then BitOr(k, 0x8000_0000) else k
  }

  function StateWord(bit: bool, k: nat): nat {
    k + if bit then 0x8000_0000 else 0
  }

  // The counter goes up by one as long as it fits 31 bits.
  lemma {:induction false} SuccessorForm(was: bool, k: nat, bit: bool)
    requires k + 1 < 0x8000_0000
    ensures StateSuccessor(StateWord(was, k), bit) == StateWord(bit, k + 1)
  {
    hide BitAnd, BitOr, Pow2;
    Powers();
    AndMask(StateWord(was, k), 31);
    OrShifted(1, 31, k + 1);
    OrCommutes(0x8000_0000, k + 1);
  }

  // (state & 0x80000000) > 0
  lemma {:induction false} QueryForm(bit: bool, k: nat)
    requires k < 0x8000_0000
    ensures BitAnd(StateWord(bit, k), 0x8000_0000) > 0 <==> bit
  {
    hide BitAnd, Pow2;
    Powers();
    AndBit(StateWord(bit, k), 31);
  }
}
