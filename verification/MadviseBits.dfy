/** Bitwise operations on unsigned words, and what masking with a power of two does. */
module MadviseBits {

  function Pow2(k: nat): (p: nat)
    ensures p >= 1
  {
    if k == 0 then 1 else 2 * Pow2(k - 1)
  }

  /** The bitwise AND of two `w`-bit words, from the highest bit down. */
  function And(w: nat, a: nat, b: nat): nat
    requires a < Pow2(w) && b < Pow2(w)
  {
    if w == 0 then 0
    else
      var high := Pow2(w - 1);
      (if a >= high && b >= high then high else 0) +
      And(w - 1, if a >= high then a - high else a, if b >= high then b - high else b)
  }

  /** The bitwise complement of a `w`-bit word. */
  function Not(w: nat, x: nat): nat
    requires x < Pow2(w)
  {
    Pow2(w) - 1 - x
  }

  /** The greatest multiple of `m` not above `x`, by counting down. */
  function RoundDown(x: nat, m: nat): (r: nat)
    requires m >= 1
    ensures r <= x < r + m
  {
    if x < m then 0 else m + RoundDown(x - m, m)
  }

  lemma {:induction false} Pow2Grows(k: nat, w: nat)
    requires k <= w
    ensures Pow2(k) <= Pow2(w)
  {
    if k < w {
      Pow2Grows(k, w - 1);
    }
  }

  /** A higher power of two can be rounded apart. */
  lemma {:induction false} RoundDownShift(x: nat, k: nat, j: nat)
    requires k <= j
    ensures RoundDown(x + Pow2(j), Pow2(k)) == RoundDown(x, Pow2(k)) + Pow2(j)
    decreases j
  {
    if k < j {
      RoundDownShift(x + Pow2(j - 1), k, j - 1);
      RoundDownShift(x, k, j - 1);
    }
  }

  lemma {:induction false} AndZero(w: nat, x: nat)
    requires x < Pow2(w)
    ensures And(w, x, 0) == 0
  {
    if w > 0 {
      AndZero(w - 1, if x >= Pow2(w - 1) then x - Pow2(w - 1) else x);
    }
  }

  /** A mask of all bits from `k` up keeps the multiple of 2^k. */
  lemma {:induction false} AndHighBits(x: nat, k: nat, w: nat, mask: nat)
    requires k <= w && x < Pow2(w) && mask == Pow2(w) - Pow2(k)
    ensures And(w, x, mask) == RoundDown(x, Pow2(k))
    decreases w
  {
    if k == w {
      AndZero(w, x);
    } else {
      Pow2Grows(k, w - 1);
      var high := Pow2(w - 1);
      var low := if x >= high then x - high else x;
      AndHighBits(low, k, w - 1, mask - high);
      RoundDownShift(low, k, w - 1);
    }
  }

  /** Masking a `w`-bit word with ~(2^k - 1) rounds it down to a multiple of 2^k. */
  lemma MaskRoundsDown(x: nat, k: nat, w: nat)
    requires k <= w && x < Pow2(w)
    ensures Pow2(k) <= Pow2(w)
    ensures And(w, x, Not(w, Pow2(k) - 1)) == RoundDown(x, Pow2(k))
  {
    Pow2Grows(k, w);
    AndHighBits(x, k, w, Pow2(w) - Pow2(k));
  }

  lemma {:induction false} MultiplesApart(m: nat, a: nat, b: nat)
    requires m >= 1 && a < b
    ensures m * a + m <= m * b
  {
    if b > a + 1 {
      MultiplesApart(m, a, b - 1);
    }
  }

  /** Quotient and remainder are the only way to write a number. */
  lemma DivisionUnique(x: nat, m: nat, q: nat, r: nat)
    requires m >= 1 && r < m && x == m * q + r
    ensures x % m == r && x / m == q
  {
    if q < x / m {
      MultiplesApart(m, q, x / m);
    } else if x / m < q {
      MultiplesApart(m, x / m, q);
    }
  }

  lemma {:induction false} RoundDownMod(x: nat, m: nat)
    requires m >= 1
    ensures RoundDown(x, m) == x - x % m && RoundDown(x, m) % m == 0
  {
    if x < m {
      DivisionUnique(x, m, 0, x);
      DivisionUnique(0, m, 0, 0);
    } else {
      RoundDownMod(x - m, m);
      var q, r := (x - m) / m, (x - m) % m;
      assert x - m == m * q + r;
      assert m * q + m == m * (q + 1);
      DivisionUnique(x, m, q + 1, r);
      DivisionUnique(x - r, m, q + 1, 0);
    }
  }

  lemma {:induction false} RoundOrder(x: nat, y: nat, m: nat)
    requires m >= 1 && x <= y
    ensures RoundDown(x, m) <= RoundDown(y, m)
  {
    if x >= m {
      RoundOrder(x - m, y - m, m);
    }
  }

  /** No multiple of `m` lies between the rounded number and the number. */
  lemma RoundDownIsGreatest(x: nat, m: nat, y: nat)
    requires m >= 1 && y % m == 0 && y <= x
    ensures y <= RoundDown(x, m)
  {
    RoundDownMod(y, m);
    RoundOrder(y, x, m);
  }

  /** Adding m - 1 and rounding down gives the least multiple not below. */
  lemma RoundUpIsLeast(x: nat, m: nat, y: nat)
    requires m >= 1 && y % m == 0 && x <= y
    ensures RoundDown(x + m - 1, m) <= y
  {
    RoundDownMod(y, m);
    RoundStays(y, m, m - 1);
    RoundOrder(x + m - 1, y + m - 1, m);
  }

  lemma {:induction false} RoundStays(y: nat, m: nat, r: nat)
    requires m >= 1 && r < m && RoundDown(y, m) == y
    ensures RoundDown(y + r, m) == y
  {
    if y >= m {
      RoundStays(y - m, m, r);
    }
  }
}
