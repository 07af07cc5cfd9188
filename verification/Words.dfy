/** Bitwise or and and on unsigned words, written out on the binary digits. */
module Words {

  function Pow2(s: nat): (p: nat)
    ensures p >= 1
  {
    if s == 0 then 1 else 2 * Pow2(s - 1)
  }

  // The digits of x from a power p of two on, and those before it.
  function Above(x: nat, p: nat): nat
    requires p >= 1
  {
    x / p
  }

  function Below(x: nat, p: nat): nat
    requires p >= 1
  {
    x % p
  }

  lemma {:induction false} Split(x: nat, p: nat)
    requires p >= 1
    ensures x == Above(x, p) * p + Below(x, p) && Below(x, p) < p
  {
  }

  function BitOr(a: nat, b: nat): nat {
    if a == 0 && b == 0 then 0
    else (if a % 2 == 1 || b % 2 == 1 then 1 else 0) + 2 * BitOr(a / 2, b / 2)
  }

  function BitAnd(a: nat, b: nat): nat {
    if a == 0 && b == 0 then 0
    else (if a % 2 == 1 && b % 2 == 1 then 1 else 0) + 2 * BitAnd(a / 2, b / 2)
  }

  // The digits that both words set are counted twice by the sum and once by the or.
  lemma {:induction false} OrPlusAnd(a: nat, b: nat)
    ensures BitOr(a, b) + BitAnd(a, b) == a + b
  {
    if a != 0 || b != 0 {
      OrPlusAnd(a / 2, b / 2);
    }
  }

  // An and sets no digit that either word lacks; an or keeps every digit.
  lemma {:induction false} OrAtLeast(a: nat, b: nat)
    ensures BitAnd(a, b) <= b && BitOr(a, b) >= a
  {
    if a != 0 || b != 0 {
      OrAtLeast(a / 2, b / 2);
    }
  }

  lemma {:induction false} AndShifted(x: nat, s: nat, y: nat)
    requires y < Pow2(s)
    ensures BitAnd(x * Pow2(s), y) == 0
  {
    if s == 0 {
      OrZero(x);
      OrPlusAnd(x, 0);
    } else {
      Doubled(x, Pow2(s - 1));
      AndShifted(x, s - 1, y / 2);
    }
  }

  lemma {:induction false} OrZero(x: nat)
    ensures BitOr(x, 0) == x
  {
    if x != 0 {
      OrZero(x / 2);
    }
  }

  lemma {:induction false} Doubled(x: nat, p: nat)
    ensures x * (2 * p) == 2 * (x * p)
    ensures x * (2 * p) % 2 == 0 && x * (2 * p) / 2 == x * p
  {
  }

  // A word shifted past another one does not overlap it.
  lemma {:induction false} OrShifted(x: nat, s: nat, y: nat)
    requires y < Pow2(s)
    ensures BitOr(x * Pow2(s), y) == x * Pow2(s) + y
  {
    AndShifted(x, s, y);
    OrPlusAnd(x * Pow2(s), y);
  }

  lemma {:induction false} OrCommutes(a: nat, b: nat)
    ensures BitOr(a, b) == BitOr(b, a)
  {
    if a != 0 || b != 0 {
      OrCommutes(a / 2, b / 2);
    }
  }

  // Masking with s ones keeps the s lowest digits.
  lemma {:induction false} AndMask(x: nat, s: nat)
    ensures BitAnd(x, Pow2(s) - 1) == x % Pow2(s)
  {
    if s == 0 {
      OrZero(x);
      OrPlusAnd(x, 0);
    } else if x == 0 {
      AndZero(Pow2(s) - 1);
    } else {
      AndMask(x / 2, s - 1);
      HalfMod(x, Pow2(s - 1));
    }
  }

  lemma {:induction false} AndZero(x: nat)
    ensures BitAnd(0, x) == 0
  {
    if x != 0 {
      AndZero(x / 2);
    }
  }

  lemma {:induction false} HalfMod(x: nat, p: nat)
    requires p >= 1
    ensures x % (2 * p) == 2 * (x / 2 % p) + x % 2
  {
    var q, r := x / 2 / p, x / 2 % p;
    assert x / 2 == q * p + r;
    assert x == q * (2 * p) + (2 * r + x % 2) by {
      Doubled(q, p);
    }
    ModIs(x, 2 * p, q, 2 * r + x % 2);
  }

  lemma {:induction false} Far(d: int, p: nat)
    requires d != 0
    ensures d * p >= p || d * p <= 0 - p
  {
    if d > 0 {
      assert (d - 1) * p >= 0;
    } else {
      assert (-d - 1) * p >= 0;
    }
  }

  lemma {:induction false} ModIs(x: nat, p: nat, q: nat, r: nat)
    requires r < p && x == q * p + r
    ensures x % p == r && x / p == q
  {
    assert (x / p - q) * p == r - x % p;
    if x / p != q {
      Far(x / p - q, p);
    }
  }

  // Digits above and below a position are combined apart.
  lemma {:induction false} OrSplit(x: nat, y: nat, x': nat, y': nat, s: nat)
    requires y < Pow2(s) && y' < Pow2(s)
    ensures BitOr(x * Pow2(s) + y, x' * Pow2(s) + y') == BitOr(x, x') * Pow2(s) + BitOr(y, y')
  {
    hide BitOr;
    if s == 0 {
      OrZero(0);
    } else {
      var p := Pow2(s - 1);
      Doubled(x, p);
      Doubled(x', p);
      Doubled(BitOr(x, x'), p);
      OrSplit(x, y / 2, x', y' / 2, s - 1);
      Halves(x * p, y, x' * p, y');
    }
  }

  lemma {:induction false} Halves(a: nat, y: nat, a': nat, y': nat)
    ensures BitOr(2 * a + y, 2 * a' + y') ==
      2 * BitOr(a + y / 2, a' + y' / 2) + (if y % 2 == 1 || y' % 2 == 1 then 1 else 0)
    ensures BitOr(y, y') == 2 * BitOr(y / 2, y' / 2) + (if y % 2 == 1 || y' % 2 == 1 then 1 else 0)
  {
    assert (2 * a + y) / 2 == a + y / 2 && (2 * a' + y') / 2 == a' + y' / 2;
  }

  // All ones absorb any other word of the same width.
  lemma {:induction false} OrOnes(s: nat, y: nat)
    requires y < Pow2(s)
    ensures BitOr(Pow2(s) - 1, y) == Pow2(s) - 1
  {
    if s > 0 {
      OrOnes(s - 1, y / 2);
    }
  }

  // Masking with one digit tests that digit.
  lemma {:induction false} AndBit(x: nat, s: nat)
    ensures BitAnd(x, Pow2(s)) == if x / Pow2(s) % 2 == 1 then Pow2(s) else 0
  {
    if s == 0 {
      OrZero(x / 2);
      OrPlusAnd(x / 2, 0);
    } else {
      AndBit(x / 2, s - 1);
      Quotient(x, Pow2(s - 1));
    }
  }

  lemma {:induction false} Quotient(x: nat, p: nat)
    requires p >= 1
    ensures x / 2 / p == x / (2 * p)
  {
    var q, r := x / 2 / p, x / 2 % p;
    assert x / 2 == q * p + r;
    Doubled(q, p);
    ModIs(x, 2 * p, q, 2 * r + x % 2);
  }
}
