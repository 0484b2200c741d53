/** Bitwise arithmetic on unsigned integers, as the id containers use it: a word
    of an id holds a generation tag in its high bits and a slot index in its low
    bits, and both are reached only through masks. */
module Bits {

  function Pow2(n: nat): (p: nat)
    ensures p >= 1
  {
    if n == 0 then 1 else 2 * Pow2(n - 1)
  }

  /** Bitwise conjunction of two unsigned integers. */
  function And(a: nat, b: nat): (r: nat)
    ensures r <= a && r <= b
  {
    if a == 0 || b == 0 then 0
    else 2 * And(a / 2, b / 2) + (if a % 2 == 1 && b % 2 == 1 then 1 else 0)
  }

  /** Bitwise disjunction of two unsigned integers. */
  function Or(a: nat, b: nat): (r: nat)
    ensures r >= a && r >= b
  {
    if a == 0 then b
    else if b == 0 then a
    else 2 * Or(a / 2, b / 2) + (if a % 2 == 1 || b % 2 == 1 then 1 else 0)
  }

  /** A number with `high` above the lowest k bits and `low` in them. */
  function Join(k: nat, high: nat, low: nat): nat {
    high * Pow2(k) + low
  }

  /** Halving a joined number halves its low part. */
  lemma JoinHalf(k: nat, high: nat, low: nat)
    requires k > 0
    ensures Join(k, high, low) / 2 == Join(k - 1, high, low / 2)
    ensures Join(k, high, low) % 2 == low % 2
  {
    var p := Pow2(k - 1);
    assert high * (2 * p) == 2 * (high * p);
  }

  lemma JoinParts(k: nat, high: nat, low: nat)
    requires low < Pow2(k)
    ensures Join(k, high, low) / Pow2(k) == high
    ensures Join(k, high, low) % Pow2(k) == low
  {
    DivideByMultiple(high, Pow2(k), low);
  }

  lemma DivideByMultiple(q: nat, d: nat, r: nat)
    requires r < d
    ensures (q * d + r) / d == q && (q * d + r) % d == r
  {
    var n := q * d + r;
    var a, b := n / d, n % d;
    assert n == a * d + b;
    MultipleGap(a - q, d);
    assert (a - q) * d == r - b;
  }

  lemma MultipleGap(x: int, d: int)
    requires d >= 0
    ensures x >= 1 ==> x * d >= d
    ensures x <= -1 ==> x * d <= -d
  {
    if x >= 1 {
      assert x * d == (x - 1) * d + d;
    } else if x <= -1 {
      assert x * d == (x + 1) * d - d;
    }
  }

  lemma SmallModulo(a: nat, n: nat)
    requires a < n
    ensures a % n == a
  {
  }

  // Quotient and remainder by name, so that a proof can keep them closed.

  function Quo(a: nat, n: nat): nat
    requires n > 0
  {
    a / n
  }

  function Rem(a: nat, n: nat): nat
    requires n > 0
  {
    a % n
  }

  lemma Split(a: nat, n: nat)
    requires n > 0
    ensures a == Quo(a, n) * n + Rem(a, n) && Rem(a, n) < n
  {
  }

  lemma RemIs(a: nat, q: nat, n: nat, r: nat)
    requires r < n && a == q * n + r
    ensures Rem(a, n) == r
  {
    DivideByMultiple(q, n, r);
  }

  lemma AddOne(a: nat, n: nat)
    requires n > 0
    ensures Rem(Rem(a, n) + 1, n) == Rem(a + 1, n)
  {
    hide Quo, Rem;
    Split(a, n);
    var q, r := Quo(a, n), Rem(a, n);
    if r + 1 < n {
      RemIs(a + 1, q, n, r + 1);
      RemIs(r + 1, 0, n, r + 1);
    } else {
      RemIs(a + 1, q + 1, n, 0);
      RemIs(r + 1, 1, n, 0);
    }
  }

  lemma AddMultiple(a: nat, d: nat, n: nat)
    requires n > 0
    ensures Rem(a + d, n) == Rem(a, n) <==> Rem(d, n) == 0
  {
    hide Quo, Rem;
    Split(a, n);
    Split(d, n);
    var q, r := Quo(a, n), Rem(a, n);
    var q', r' := Quo(d, n), Rem(d, n);
    if r + r' < n {
      RemIs(a + d, q + q', n, r + r');
    } else {
      RemIs(a + d, q + q' + 1, n, r + r' - n);
    }
  }

  /** The two halves of a joined number are conjoined independently. */
  lemma {:induction false} AndJoin(k: nat, h1: nat, l1: nat, h2: nat, l2: nat)
    requires l1 < Pow2(k) && l2 < Pow2(k)
    ensures And(l1, l2) < Pow2(k)
    ensures And(Join(k, h1, l1), Join(k, h2, l2)) == Join(k, And(h1, h2), And(l1, l2))
  {
    if k > 0 {
      AndJoin(k - 1, h1, l1 / 2, h2, l2 / 2);
      JoinHalf(k, h1, l1);
      JoinHalf(k, h2, l2);
      JoinHalf(k, And(h1, h2), And(l1, l2));
      AndStep(l1, l2);
      AndStep(Join(k, h1, l1), Join(k, h2, l2));
    }
  }

  lemma AndStep(a: nat, b: nat)
    ensures And(a, b) / 2 == And(a / 2, b / 2)
    ensures And(a, b) % 2 == (if a % 2 == 1 && b % 2 == 1 then 1 else 0)
  {
  }

  lemma {:induction false} OrJoin(k: nat, h1: nat, l1: nat, h2: nat, l2: nat)
    requires l1 < Pow2(k) && l2 < Pow2(k)
    ensures Or(l1, l2) < Pow2(k)
    ensures Or(Join(k, h1, l1), Join(k, h2, l2)) == Join(k, Or(h1, h2), Or(l1, l2))
  {
    if k > 0 {
      OrJoin(k - 1, h1, l1 / 2, h2, l2 / 2);
      JoinHalf(k, h1, l1);
      JoinHalf(k, h2, l2);
      JoinHalf(k, Or(h1, h2), Or(l1, l2));
      OrStep(l1, l2);
      OrStep(Join(k, h1, l1), Join(k, h2, l2));
    }
  }

  lemma OrStep(a: nat, b: nat)
    ensures Or(a, b) / 2 == Or(a / 2, b / 2)
    ensures Or(a, b) % 2 == (if a % 2 == 1 || b % 2 == 1 then 1 else 0)
  {
  }

  lemma JoinZero(k: nat, low: nat)
    ensures Join(k, 0, low) == low
  {
  }

  lemma OrZero(a: nat)
    ensures Or(a, 0) == a && Or(0, a) == a
  {
  }

  /** A mask of k ones keeps a number of at most k bits. */
  lemma {:induction false} AndOnes(k: nat, x: nat)
    requires x < Pow2(k)
    ensures And(x, Pow2(k) - 1) == x
    ensures And(Pow2(k) - 1, x) == x
  {
    if k > 0 && x > 0 {
      AndOnes(k - 1, x / 2);
    }
  }

  /** A mask of k ones is the remainder modulo 2^k. */
  lemma MaskIsModulo(k: nat, x: nat)
    ensures And(x, Pow2(k) - 1) == x % Pow2(k)
  {
    var q, r := Quo(x, Pow2(k)), Rem(x, Pow2(k));
    Split(x, Pow2(k));
    MaskJoin(k, q, r);
    assert x == Join(k, q, r);
  }

  lemma MaskJoin(k: nat, q: nat, r: nat)
    requires r < Pow2(k)
    ensures And(Join(k, q, r), Pow2(k) - 1) == r
  {
    hide Pow2, And, Join;
    JoinZero(k, Pow2(k) - 1);
    AndJoin(k, q, r, 0, Pow2(k) - 1);
    AndOnes(k, r);
    AndZero(q);
    JoinZero(k, r);
  }

  lemma AndZero(a: nat)
    ensures And(a, 0) == 0
  {
  }

  lemma {:induction false} Pow2Grows(a: nat, b: nat)
    requires a < b
    ensures 2 * Pow2(a) <= Pow2(b)
  {
    if a + 1 < b {
      Pow2Grows(a, b - 1);
    }
  }
}
