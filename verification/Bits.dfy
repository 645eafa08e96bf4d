/** Shifts, masks and exclusive-or on unbounded integers, one bit at a time. */
module Bits {

  function Pow2(k: nat): (r: nat)
    ensures r > 0
  {
    if k == 0 then 1 else 2 * Pow2(k - 1)
  }

  /** `a << k`. */
  function Shl(a: int, k: nat): (r: int)
    ensures a >= 0 ==> r >= a
  {
    if k == 0 then a else 2 * Shl(a, k - 1)
  }

  /** `a >> k`, rounding down as an arithmetic shift does. */
  function Shr(a: int, k: nat): (r: int)
    ensures a >= 0 ==> 0 <= r <= a
    decreases k
  {
    if k == 0 then a else Shr(a / 2, k - 1)
  }

  /** `a & (2^k - 1)`, on the two's complement form of a negative `a`. */
  function Low(a: int, k: nat): (r: nat)
    ensures r < Pow2(k)
    decreases k
  {
    if k == 0 then 0 else a % 2 + 2 * Low(a / 2, k - 1)
  }

  /** Bitwise exclusive-or of nonnegative integers. */
  function Xor(a: nat, b: nat): nat
    decreases a + b
  {
    if a == 0 && b == 0 then 0 else (a + b) % 2 + 2 * Xor(a / 2, b / 2)
  }

  // ---- shifts and masks ---------------------------------------------------

  lemma {:induction false} SplitAt(a: int, k: nat)
    ensures a == Shl(Shr(a, k), k) + Low(a, k)
    decreases k
  {
    if k > 0 { SplitAt(a / 2, k - 1); }
  }

  lemma {:induction false} ShlAdd(a: int, b: int, k: nat)
    ensures Shl(a + b, k) == Shl(a, k) + Shl(b, k)
  {
    if k > 0 { ShlAdd(a, b, k - 1); }
  }

  /** Appending `v` below `a` and reading the two halves back. */
  lemma {:induction false} JoinSplit(a: int, v: nat, k: nat)
    requires v < Pow2(k)
    ensures Shr(Shl(a, k) + v, k) == a && Low(Shl(a, k) + v, k) == v
  {
    if k > 0 {
      var s := Shl(a, k) + v;
      assert s / 2 == Shl(a, k - 1) + v / 2 && s % 2 == v % 2;
      JoinSplit(a, v / 2, k - 1);
    }
  }

  lemma {:induction false} ShrShr(a: int, j: nat, k: nat)
    ensures Shr(Shr(a, j), k) == Shr(a, j + k)
    decreases j
  {
    if j > 0 { ShrShr(a / 2, j - 1, k); }
  }

  lemma {:induction false} ShlShl(a: int, j: nat, k: nat)
    ensures Shl(Shl(a, j), k) == Shl(a, j + k)
    decreases k
  {
    if k > 0 { ShlShl(a, j, k - 1); }
  }

  lemma {:induction false} LowSmall(v: nat, k: nat)
    requires v < Pow2(k)
    ensures Low(v, k) == v && Shr(v, k) == 0
  {
    if k > 0 { LowSmall(v / 2, k - 1); }
  }

  lemma {:induction false} ShrSmall(v: nat, j: nat, k: nat)
    requires v < Pow2(j + k)
    ensures Shr(v, j) < Pow2(k)
  {
    if j > 0 { ShrSmall(v / 2, j - 1, k); }
  }

  // ---- exclusive-or -------------------------------------------------------

  lemma {:induction false} XorZero(a: nat)
    ensures Xor(a, 0) == a && Xor(0, a) == a
  {
    if a > 0 { XorZero(a / 2); }
  }

  lemma {:induction false} XorComm(a: nat, b: nat)
    ensures Xor(a, b) == Xor(b, a)
    decreases a + b
  {
    if a + b > 0 { XorComm(a / 2, b / 2); }
  }

  /** Peeling one bit off, and putting one bit on. */
  lemma XorDouble(a: nat, i: nat, b: nat, j: nat)
    requires i < 2 && j < 2
    ensures Xor(2 * a + i, 2 * b + j) == (i + j) % 2 + 2 * Xor(a, b)
  {
    var x, y := 2 * a + i, 2 * b + j;
    Halve(a, i);
    Halve(b, j);
    Parity(x, y, i, j);
    XorUnfold(x, y);
  }

  lemma Halve(a: nat, i: nat)
    requires i < 2
    ensures (2 * a + i) / 2 == a && (2 * a + i) % 2 == i
  {
  }

  lemma XorTwice(a: nat, b: nat)
    ensures Xor(2 * a, 2 * b) == 2 * Xor(a, b)
  {
    XorDouble(a, 0, b, 0);
  }

  lemma XorHalf(a: nat, b: nat)
    ensures Xor(a, b) / 2 == Xor(a / 2, b / 2) && Xor(a, b) % 2 == (a + b) % 2
  {
  }

  lemma Parity(x: nat, y: nat, u: nat, v: nat)
    requires x % 2 == u % 2 && y % 2 == v % 2
    ensures (x + y) % 2 == (u + v) % 2
  {
  }

  lemma {:induction false} XorAssoc(a: nat, b: nat, c: nat)
    ensures Xor(Xor(a, b), c) == Xor(a, Xor(b, c))
    decreases a + b + c
  {
    if a + b + c > 0 {
      XorAssoc(a / 2, b / 2, c / 2);
      var x, y := Xor(a, b), Xor(b, c);
      XorHalf(a, b);
      XorHalf(b, c);
      XorUnfold(x, c);
      XorUnfold(a, y);
      Parity(x, c, a + b, c);
      Parity(a, y, a, b + c);
    }
  }

  lemma XorUnfold(a: nat, b: nat)
    ensures Xor(a, b) == (a + b) % 2 + 2 * Xor(a / 2, b / 2)
  {
  }

  /** The exclusive-or of two numbers vanishes exactly when they are equal. */
  lemma {:induction false} XorEqualsZero(a: nat, b: nat)
    ensures Xor(a, b) == 0 <==> a == b
    decreases a + b
  {
    if a + b > 0 { XorEqualsZero(a / 2, b / 2); }
  }

  lemma XorSwap(p: nat, q: nat, r: nat, s: nat)
    ensures Xor(Xor(p, q), Xor(r, s)) == Xor(Xor(p, r), Xor(q, s))
  {
    XorAssoc(p, q, Xor(r, s));
    XorAssoc(q, r, s);
    XorComm(q, r);
    XorAssoc(r, q, s);
    XorAssoc(p, r, Xor(q, s));
  }

  /** Adding the same number twice cancels it. */
  lemma XorCancel(a: nat, b: nat)
    ensures Xor(a, Xor(a, b)) == b
  {
    XorAssoc(a, a, b);
    XorEqualsZero(a, a);
    XorZero(b);
  }

  lemma {:induction false} XorShr(a: nat, b: nat, k: nat)
    ensures Shr(Xor(a, b), k) == Xor(Shr(a, k), Shr(b, k))
  {
    if k > 0 {
      XorHalf(a, b);
      XorShr(a / 2, b / 2, k - 1);
    }
  }

  lemma XorPush(a: nat, b: nat, la: nat, lb: nat)
    ensures Xor(a % 2 + 2 * la, b % 2 + 2 * lb) == Xor(a, b) % 2 + 2 * Xor(la, lb)
  {
    var i, j := a % 2, b % 2;
    XorDouble(la, i, lb, j);
    XorHalf(a, b);
    Parity(i, j, a, b);
  }

  lemma {:induction false} XorLow(a: nat, b: nat, k: nat)
    ensures Low(Xor(a, b), k) == Xor(Low(a, k), Low(b, k))
  {
    if k > 0 {
      XorLow(a / 2, b / 2, k - 1);
      XorPush(a, b, Low(a / 2, k - 1), Low(b / 2, k - 1));
      var m := Low(Xor(a, b) / 2, k - 1);
      assert Low(Xor(a, b), k) == Xor(a, b) % 2 + 2 * m;
      XorHalf(a, b);
    }
  }

  lemma {:induction false} XorShl(a: nat, b: nat, k: nat)
    ensures Xor(Shl(a, k), Shl(b, k)) == Shl(Xor(a, b), k)
  {
    if k > 0 {
      XorShl(a, b, k - 1);
      XorTwice(Shl(a, k - 1), Shl(b, k - 1));
    }
  }

  /** Or-ing a short value into cleared low bits is addition. */
  lemma {:induction false} XorJoin(a: nat, v: nat, k: nat)
    requires v < Pow2(k)
    ensures Xor(Shl(a, k), v) == Shl(a, k) + v
  {
    if k == 0 {
      XorZero(a);
    } else {
      var rest, half, bit := Shl(a, k - 1), v / 2, v % 2;
      XorJoin(a, half, k - 1);
      XorDouble(rest, 0, half, bit);
    }
  }

  lemma {:induction false} XorBound(a: nat, b: nat, k: nat)
    requires a < Pow2(k) && b < Pow2(k)
    ensures Xor(a, b) < Pow2(k)
  {
    if k > 0 { XorBound(a / 2, b / 2, k - 1); }
  }
}
