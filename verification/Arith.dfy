/** Division and remainder by a positive divisor, defined by repeated subtraction.
    The queues address slots with shifts and masks (`index >> bits`, `index & mask`);
    on the non-negative indices used here these are the functions below, and
    `QuotRemAreDivMod` ties both to Dafny's own operators. */
module Arith {

  function Quot(a: nat, b: nat): nat
    requires b > 0
    decreases a
  {
    if a < b then 0 else 1 + Quot(a - b, b)
  }

  function Rem(a: nat, b: nat): nat
    requires b > 0
    decreases a
  {
    if a < b then a else Rem(a - b, b)
  }

  lemma {:induction false} QuotRem(a: nat, b: nat)
    requires b > 0
    ensures a == Quot(a, b) * b + Rem(a, b) && Rem(a, b) < b
    decreases a
  {
    if a >= b {
      QuotRem(a - b, b);
      var q := Quot(a - b, b);
      assert (1 + q) * b == b + q * b;
    }
  }

  lemma QuotRemAreDivMod(a: nat, b: nat)
    requires b > 0
    ensures Quot(a, b) == a / b && Rem(a, b) == a % b
  {
    QuotRem(a, b);
    UniqueDivMod(a, b, Quot(a, b), Rem(a, b));
  }

  lemma UniqueDivMod(a: nat, b: nat, q: nat, r: nat)
    requires b > 0 && r < b && a == q * b + r
    ensures q == a / b && r == a % b
  {
    var q', r' := a / b, a % b;
    assert a == b * q' + r';
    SameQuotient(b, q, r, q', r');
  }

  lemma SameQuotient(b: nat, q: nat, r: nat, q': nat, r': nat)
    requires r < b && r' < b && q * b + r == b * q' + r'
    ensures q == q' && r == r'
  {
    var d := q - q';
    assert d * b == r' - r;
    MulMono(d, b);
  }

  lemma MulMono(d: int, b: nat)
    ensures d >= 1 ==> d * b >= b
    ensures d <= -1 ==> d * b + b <= 0
  {
    if d >= 1 {
      assert d * b == b + (d - 1) * b;
    } else if d <= -1 {
      assert d * b == (d + 1) * b - b;
    }
  }

  lemma {:induction false} QuotMono(a: nat, a': nat, b: nat)
    requires b > 0 && a <= a'
    ensures Quot(a, b) <= Quot(a', b)
    decreases a'
  {
    if a >= b {
      QuotMono(a - b, a' - b, b);
    }
  }

  /** A quotient and a remainder determine the number. */
  lemma {:induction false} SameCell(a: nat, a': nat, b: nat)
    requires b > 0 && Quot(a, b) == Quot(a', b) && Rem(a, b) == Rem(a', b)
    ensures a == a'
    decreases a
  {
    if a >= b {
      SameCell(a - b, a' - b, b);
    }
  }

  /** Nothing follows the last number of a block inside that block. */
  lemma {:induction false} BlockEnd(a: nat, a': nat, b: nat)
    requires b > 0 && a <= a' && Quot(a, b) == Quot(a', b) && Rem(a, b) == b - 1
    ensures a == a'
    decreases a
  {
    if a >= b {
      BlockEnd(a - b, a' - b, b);
    }
  }

  lemma {:induction false} QuotSucc(a: nat, b: nat)
    requires b > 0
    ensures Rem(a, b) == b - 1 ==> Quot(a + 1, b) == Quot(a, b) + 1 && Rem(a + 1, b) == 0
    ensures Rem(a, b) != b - 1 ==> Quot(a + 1, b) == Quot(a, b) && Rem(a + 1, b) == Rem(a, b) + 1
    ensures Rem(a, b) < b
    decreases a
  {
    if a >= b {
      QuotSucc(a - b, b);
      assert Quot(a + 1, b) == 1 + Quot(a + 1 - b, b);
    }
  }

  lemma {:induction false} RemPlus(a: nat, b: nat, d: nat)
    requires b > 0 && 0 < d < b
    ensures Rem(a + d, b) != Rem(a, b)
    decreases a
  {
    if a >= b {
      RemPlus(a - b, b, d);
      assert Rem(a + d, b) == Rem(a + d - b, b);
    }
  }

  /** Two numbers in one window of length b with equal remainders are equal. */
  lemma WindowUnique(low: nat, m: nat, n: nat, b: nat)
    requires b > 0 && low <= m < low + b && low <= n < low + b
    requires Rem(m, b) == Rem(n, b)
    ensures m == n
  {
    var d := if m < n then n - m else m - n;
    if d > 0 {
      RemPlus(if m < n then m else n, b, d);
    }
  }

  lemma {:induction false} AddBlocks(a: nat, b: nat, n: nat)
    requires b > 0
    ensures n * b >= 0
    ensures Quot(a + n * b, b) == Quot(a, b) + n && Rem(a + n * b, b) == Rem(a, b)
    decreases n
  {
    if n > 0 {
      AddBlocks(a, b, n - 1);
      assert n * b == (n - 1) * b + b;
      assert a + n * b >= b;
      assert a + n * b - b == a + (n - 1) * b;
    }
  }
}
