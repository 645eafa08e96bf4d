/**
 The bech32 checksum, which the repository implements twice: docs/app.js (32-bit signed
 operators) and lib/mock_router.py (unbounded integers).  `FoldFits` keeps the register below
 2^30, where the two kinds of operator agree, so one model serves both.
 */
module Bech32 {
  import opened Bits

  const GENERATORS: seq<nat> := [0x3b6a57b2, 0x26508e6d, 0x1ea119fa, 0x3d4233dd, 0x2a1462b3]

  /** What the bits shifted out of the register add back in: bit `i` adds generator `i`. */
  function Feedback(top: nat, gens: seq<nat>): nat {
    if gens == [] then 0 else Xor(if top % 2 == 1 then gens[0] else 0, Feedback(top / 2, gens[1..]))
  }

  /** 2^25: the register's top five bits start here. */
  const TOP: nat := 0x200_0000

  /** One symbol enters the 30-bit register: `(chk & 0x1ffffff) << 5 ^ v`, then the feedback of `chk >> 25`. */
  function Step(chk: nat, v: nat): nat {
    Xor(Xor(chk % TOP * 32, v), Feedback(chk / TOP, GENERATORS))
  }

  function Fold(chk: nat, values: seq<nat>): nat
    decreases |values|
  {
    if values == [] then chk else Fold(Step(chk, values[0]), values[1..])
  }

  function Polymod(values: seq<nat>): nat {
    Fold(1, values)
  }

  ghost predicate AllBelow(values: seq<nat>, bound: nat) {
    forall i :: 0 <= i < |values| ==> values[i] < bound
  }

  function Zeros(n: nat): (r: seq<nat>)
    ensures |r| == n && forall i :: 0 <= i < n ==> r[i] == 0
  {
    seq(n, _ => 0)
  }

  /** Taking bit `i` of `top` out of the feedback and into the register. */
  lemma FeedbackPeel(chk: nat, top: nat, i: nat)
    requires i < 5
    ensures Xor(chk, Feedback(Shr(top, i), GENERATORS[i..]))
         == Xor(if Shr(top, i) % 2 == 1 then Xor(chk, GENERATORS[i]) else chk,
                Feedback(Shr(top, i + 1), GENERATORS[i + 1..]))
  {
    var here, rest := Shr(top, i), GENERATORS[i..];
    var pick := if here % 2 == 1 then rest[0] else 0;
    assert Shr(top, i + 1) == here / 2 by { ShrShr(top, i, 1); }
    assert rest[1..] == GENERATORS[i + 1..];
    assert Feedback(here, rest) == Xor(pick, Feedback(here / 2, rest[1..]));
    XorAssoc(chk, pick, Feedback(here / 2, rest[1..]));
    XorZero(chk);
  }

  /** The loops of both sources compute the fold. */
  method ComputePolymod(values: seq<nat>) returns (chk: nat)
    ensures chk == Polymod(values)
  {
    chk := 1;
    var k := 0;
    while k < |values|
      invariant 0 <= k <= |values|
      invariant Fold(chk, values[k..]) == Polymod(values)
    {
      ghost var next := Step(chk, values[k]);
      var top := chk / TOP;
      chk := Xor(chk % TOP * 32, values[k]);
      var i := 0;
      while i < 5
        invariant 0 <= i <= 5
        invariant Xor(chk, Feedback(Shr(top, i), GENERATORS[i..])) == next
      {
        FeedbackPeel(chk, top, i);
        if Shr(top, i) % 2 == 1 {
          chk := Xor(chk, GENERATORS[i]);
        }
        i := i + 1;
      }
      XorZero(chk);
      assert values[k..][1..] == values[k + 1..];
      k := k + 1;
    }
  }

  // ---- linearity over GF(2) -------------------------------------------------

  lemma {:induction false} FeedbackLinear(a: nat, b: nat, gens: seq<nat>)
    ensures Feedback(Xor(a, b), gens) == Xor(Feedback(a, gens), Feedback(b, gens))
  {
    if gens == [] {
    } else {
      var rest := gens[1..];
      var x, y := if a % 2 == 1 then gens[0] else 0, if b % 2 == 1 then gens[0] else 0;
      PickLinear(a, b, gens[0]);
      XorHalf(a, b);
      FeedbackLinear(a / 2, b / 2, rest);
      XorSwap(x, y, Feedback(a / 2, rest), Feedback(b / 2, rest));
    }
  }

  lemma PickLinear(a: nat, b: nat, g: nat)
    ensures (if Xor(a, b) % 2 == 1 then g else 0)
         == Xor(if a % 2 == 1 then g else 0, if b % 2 == 1 then g else 0)
  {
    XorHalf(a, b);
    Parity(a, b, a % 2, b % 2);
    PickCases(a % 2, b % 2, g);
  }

  lemma PickCases(i: nat, j: nat, g: nat)
    requires i < 2 && j < 2
    ensures (if (i + j) % 2 == 1 then g else 0) == Xor(if i == 1 then g else 0, if j == 1 then g else 0)
  {
    XorZero(g);
    XorZero(0);
    XorEqualsZero(g, g);
  }

  lemma ShiftFive(a: nat)
    ensures Shr(a, 5) == a / 32 && Shl(a, 5) == 32 * a
  {
    assert a / 2 / 2 == a / 4 && a / 4 / 2 == a / 8 && a / 8 / 2 == a / 16 && a / 16 / 2 == a / 32;
    assert Shl(a, 2) == 2 * Shl(a, 1) && Shl(a, 1) == 2 * Shl(a, 0);
    assert Shl(a, 4) == 2 * Shl(a, 3) && Shl(a, 3) == 2 * Shl(a, 2);
  }

  lemma ShiftTen(a: nat)
    ensures Shr(a, 10) == a / 1024 && Shl(a, 10) == 1024 * a
  {
    ShiftFive(a);
    ShiftFive(a / 32);
    ShiftFive(32 * a);
    ShrShr(a, 5, 5);
    ShlShl(a, 5, 5);
  }

  lemma TimesTop(q: nat, k: nat)
    requires k == 25
    ensures Shl(q, k) == TOP * q
  {
    ShlShl(q, k - 5, 5);
    ShlShl(q, k - 15, 10);
    ShiftTen(q);
    ShiftTen(1024 * q);
    ShiftFive(1024 * 1024 * q);
  }

  /** Dividing by 2^25 is the shift by 25, and the remainder is the mask. */
  lemma ShiftTop(a: nat, k: nat)
    requires k == 25
    ensures a / TOP == Shr(a, k) && a % TOP == Low(a, k)
  {
    Pow2Values();
    SplitAt(a, k);
    TimesTop(Shr(a, k), k);
  }

  lemma TopParts(a: nat, b: nat, k: nat)
    requires k == 25
    ensures Xor(a, b) / TOP == Xor(a / TOP, b / TOP)
    ensures Xor(a, b) % TOP == Xor(a % TOP, b % TOP)
  {
    ShiftTop(a, k);
    ShiftTop(b, k);
    ShiftTop(Xor(a, b), k);
    XorShr(a, b, k);
    XorLow(a, b, k);
  }

  lemma TimesSymbol(a: nat, b: nat)
    ensures Xor(a * 32, b * 32) == Xor(a, b) * 32
  {
    assert Shl(a, 5) == a * 32 by { ShiftFive(a); }
    assert Shl(b, 5) == b * 32 by { ShiftFive(b); }
    assert Shl(Xor(a, b), 5) == Xor(a, b) * 32 by { ShiftFive(Xor(a, b)); }
    XorShl(a, b, 5);
  }

  lemma StepLinear(a: nat, b: nat, u: nat, v: nat)
    ensures Step(Xor(a, b), Xor(u, v)) == Xor(Step(a, u), Step(b, v))
  {
    TopParts(a, b, 25);
    var p, q := a % TOP * 32, b % TOP * 32;
    var f, g := Feedback(a / TOP, GENERATORS), Feedback(b / TOP, GENERATORS);
    TimesSymbol(a % TOP, b % TOP);
    FeedbackLinear(a / TOP, b / TOP, GENERATORS);
    XorSwap(p, q, u, v);
    XorSwap(Xor(p, u), Xor(q, v), f, g);
  }

  /** The symbol-by-symbol difference of two lists. */
  function Difference(xs: seq<nat>, ys: seq<nat>): (r: seq<nat>)
    requires |xs| == |ys|
    ensures |r| == |xs| && forall i :: 0 <= i < |r| ==> r[i] == Xor(xs[i], ys[i])
  {
    seq(|xs|, i requires 0 <= i < |xs| => Xor(xs[i], ys[i]))
  }

  lemma {:induction false} FoldLinear(a: nat, b: nat, xs: seq<nat>, ys: seq<nat>)
    requires |xs| == |ys|
    ensures Fold(Xor(a, b), Difference(xs, ys)) == Xor(Fold(a, xs), Fold(b, ys))
    decreases |xs|
  {
    if xs == [] {
    } else {
      var x, y := Step(a, xs[0]), Step(b, ys[0]);
      assert Difference(xs, ys)[1..] == Difference(xs[1..], ys[1..]);
      assert Step(Xor(a, b), Difference(xs, ys)[0]) == Xor(x, y) by { StepLinear(a, b, xs[0], ys[0]); }
      FoldLinear(x, y, xs[1..], ys[1..]);
    }
  }

  lemma {:induction false} FoldConcat(chk: nat, xs: seq<nat>, ys: seq<nat>)
    ensures Fold(chk, xs + ys) == Fold(Fold(chk, xs), ys)
    decreases |xs|
  {
    if xs == [] {
      assert xs + ys == ys;
    } else {
      assert (xs + ys)[1..] == xs[1..] + ys;
      FoldConcat(Step(chk, xs[0]), xs[1..], ys);
    }
  }

  // ---- the zero-symbol step is injective -------------------------------------

  function Bit(a: nat, j: nat): nat {
    Shr(a, j) % 2
  }

  /** How many chosen generators carry bit `j`. */
  function Carriers(top: nat, gens: seq<nat>, j: nat): nat {
    if gens == [] then 0
    else (if top % 2 == 1 then Bit(gens[0], j) else 0) + Carriers(top / 2, gens[1..], j)
  }

  lemma {:induction false} FeedbackBit(top: nat, gens: seq<nat>, j: nat)
    ensures Bit(Feedback(top, gens), j) == Carriers(top, gens, j) % 2
  {
    if gens == [] {
      LowSmall(0, j);
    } else {
      var pick, rest := if top % 2 == 1 then gens[0] else 0, Feedback(top / 2, gens[1..]);
      FeedbackBit(top / 2, gens[1..], j);
      XorShr(pick, rest, j);
      XorHalf(Shr(pick, j), Shr(rest, j));
      LowSmall(0, j);
      Parity(Bit(pick, j), Carriers(top / 2, gens[1..], j), Shr(pick, j), Shr(rest, j));
    }
  }

  lemma CarriersUnfold(top: nat, j: nat)
    requires top < 32
    ensures Carriers(top, GENERATORS, j)
         == (if top % 2 == 1 then Bit(0x3b6a57b2, j) else 0)
          + (if top / 2 % 2 == 1 then Bit(0x26508e6d, j) else 0)
          + (if top / 2 / 2 % 2 == 1 then Bit(0x1ea119fa, j) else 0)
          + (if top / 2 / 2 / 2 % 2 == 1 then Bit(0x3d4233dd, j) else 0)
          + (if top / 2 / 2 / 2 / 2 % 2 == 1 then Bit(0x2a1462b3, j) else 0)
  {
    var g1, g2, g3, g4 := GENERATORS[1..], GENERATORS[2..], GENERATORS[3..], GENERATORS[4..];
    assert g1[1..] == g2 && g2[1..] == g3 && g3[1..] == g4 && g4[1..] == [];
    assert Carriers(top / 2 / 2 / 2 / 2 / 2, [], j) == 0;
    var c4 := Carriers(top / 2 / 2 / 2 / 2, g4, j);
    var c3 := Carriers(top / 2 / 2 / 2, g3, j);
    var c2 := Carriers(top / 2 / 2, g2, j);
    var c1 := Carriers(top / 2, g1, j);
    assert c4 == if top / 2 / 2 / 2 / 2 % 2 == 1 then Bit(0x2a1462b3, j) else 0;
  }

  lemma GeneratorBits()
    ensures Bit(0x3b6a57b2, 0) == 0 && Bit(0x26508e6d, 0) == 1 && Bit(0x1ea119fa, 0) == 0 && Bit(0x3d4233dd, 0) == 1 && Bit(0x2a1462b3, 0) == 1
    ensures Bit(0x3b6a57b2, 1) == 1 && Bit(0x26508e6d, 1) == 0 && Bit(0x1ea119fa, 1) == 1 && Bit(0x3d4233dd, 1) == 0 && Bit(0x2a1462b3, 1) == 1
    ensures Bit(0x3b6a57b2, 2) == 0 && Bit(0x26508e6d, 2) == 1 && Bit(0x1ea119fa, 2) == 0 && Bit(0x3d4233dd, 2) == 1 && Bit(0x2a1462b3, 2) == 0
    ensures Bit(0x3b6a57b2, 3) == 0 && Bit(0x26508e6d, 3) == 1 && Bit(0x1ea119fa, 3) == 1 && Bit(0x3d4233dd, 3) == 1 && Bit(0x2a1462b3, 3) == 0
    ensures Bit(0x3b6a57b2, 4) == 1 && Bit(0x26508e6d, 4) == 0 && Bit(0x1ea119fa, 4) == 1 && Bit(0x3d4233dd, 4) == 1 && Bit(0x2a1462b3, 4) == 1
  {
  }

  /** No nonempty choice of generators cancels in the low symbol. */
  lemma LowSymbolDeterminesTop(top: nat)
    requires top < 32 && forall j :: 0 <= j < 5 ==> Bit(Feedback(top, GENERATORS), j) == 0
    ensures top == 0
  {
    GeneratorBits();
    forall j | 0 <= j < 5 ensures Carriers(top, GENERATORS, j) % 2 == 0 {
      FeedbackBit(top, GENERATORS, j);
    }
    CarriersUnfold(top, 0);
    CarriersUnfold(top, 1);
    CarriersUnfold(top, 2);
    CarriersUnfold(top, 3);
    CarriersUnfold(top, 4);
  }

  lemma Pow2Values()
    ensures Pow2(5) == 32 && Pow2(25) == 0x200_0000 && Pow2(30) == 0x4000_0000
  {
    assert Pow2(10) == 1024;
    assert Pow2(20) == 1024 * 1024;
    assert Pow2(30) == 1024 * 1024 * 1024;
  }

  lemma {:induction false} FeedbackFits(top: nat, gens: seq<nat>)
    requires AllBelow(gens, Pow2(30))
    ensures Feedback(top, gens) < Pow2(30)
  {
    if gens == [] {
    } else {
      FeedbackFits(top / 2, gens[1..]);
      XorBound(if top % 2 == 1 then gens[0] else 0, Feedback(top / 2, gens[1..]), 30);
    }
  }

  /** The register never leaves 30 bits, so JavaScript's signed operators see it exactly. */
  lemma StepFits(chk: nat, v: nat)
    requires v < Pow2(30)
    ensures Step(chk, v) < Pow2(30)
  {
    Pow2Values();
    var w := chk % TOP * 32;
    XorBound(w, v, 30);
    FeedbackFits(chk / TOP, GENERATORS);
    XorBound(Xor(w, v), Feedback(chk / TOP, GENERATORS), 30);
  }

  lemma {:induction false} FoldFits(chk: nat, values: seq<nat>)
    requires chk < Pow2(30) && AllBelow(values, Pow2(30))
    ensures Fold(chk, values) < Pow2(30)
    decreases |values|
  {
    if values != [] {
      StepFits(chk, values[0]);
      FoldFits(Step(chk, values[0]), values[1..]);
    }
  }

  lemma LowBitsClear(a: nat, j: nat)
    requires j < 5
    ensures Bit(a * 32, j) == 0
  {
    assert a * 32 / 2 == a * 16 && a * 16 / 2 == a * 8 && a * 8 / 2 == a * 4 && a * 4 / 2 == a * 2;
    assert j == 0 || j == 1 || j == 2 || j == 3 || j == 4;
  }

  /** If a zero symbol empties the register, the register was empty. */
  lemma StepZeroInjective(chk: nat)
    requires chk < Pow2(30) && Step(chk, 0) == 0
    ensures chk == 0
  {
    Pow2Values();
    var low, top := chk % TOP, chk / TOP;
    XorZero(low * 32);
    XorEqualsZero(low * 32, Feedback(top, GENERATORS));
    forall j | 0 <= j < 5 ensures Bit(Feedback(top, GENERATORS), j) == 0 {
      LowBitsClear(low, j);
    }
    LowSymbolDeterminesTop(top);
    NoFeedback(GENERATORS);
  }

  lemma {:induction false} NoFeedback(gens: seq<nat>)
    ensures Feedback(0, gens) == 0
  {
    if gens != [] {
      NoFeedback(gens[1..]);
      XorZero(0);
    }
  }

  lemma {:induction false} FoldZerosInjective(chk: nat, n: nat)
    requires chk < Pow2(30) && Fold(chk, Zeros(n)) == 0
    ensures chk == 0
    decreases n
  {
    if n > 0 {
      assert Zeros(n)[1..] == Zeros(n - 1);
      Pow2Values();
      StepFits(chk, 0);
      FoldZerosInjective(Step(chk, 0), n - 1);
      StepZeroInjective(chk);
    }
  }

  lemma {:induction false} FoldZeros(n: nat)
    ensures Fold(0, Zeros(n)) == 0
  {
    if n > 0 {
      assert Zeros(n)[1..] == Zeros(n - 1);
      StepSmall(0, 0);
      FoldZeros(n - 1);
    }
  }

  // ---- six symbols fill the register without feedback -------------------------

  function Digits(acc: nat, symbols: seq<nat>): nat
    decreases |symbols|
  {
    if symbols == [] then acc else Digits(32 * acc + symbols[0], symbols[1..])
  }

  lemma JoinSymbol(chk: nat, v: nat)
    requires v < 32
    ensures Xor(chk * 32, v) == 32 * chk + v
  {
    ShiftFive(chk);
    JoinWidth(chk, v, 5, chk * 32);
  }

  lemma JoinWidth(chk: nat, v: nat, k: nat, shifted: nat)
    requires v < Pow2(k) && shifted == Shl(chk, k)
    ensures Xor(shifted, v) == shifted + v
  {
    XorJoin(chk, v, k);
  }

  lemma StepSmall(chk: nat, v: nat)
    requires chk < TOP && v < 32
    ensures Step(chk, v) == 32 * chk + v
  {
    NoFeedback(GENERATORS);
    assert chk % TOP == chk && chk / TOP == 0;
    JoinSymbol(chk, v);
    XorZero(32 * chk + v);
  }

  // ---- the generator of BIP 173 -------------------------------------------------

  /** Twice an element of GF(32), the field in which x^5 = x^3 + 1: a carry out of bit 4 turns bits 3 and 0 over. */
  function Doubled(v: nat): nat {
    if v < 16 then 2 * v else if v / 4 % 2 == 1 then 2 * v - 32 - 8 + 1 else 2 * v - 32 + 8 + 1
  }

  /** The generator polynomial x^6 + 29 x^5 + 22 x^4 + 20 x^3 + 21 x^2 + 29 x + 18, its leading term apart, times 2^i. */
  function Coefficients(i: nat): (r: seq<nat>)
    ensures |r| == 6
  {
    if i == 0 then [29, 22, 20, 21, 29, 18] else
      var c := Coefficients(i - 1);
      [Doubled(c[0]), Doubled(c[1]), Doubled(c[2]), Doubled(c[3]), Doubled(c[4]), Doubled(c[5])]
  }

  lemma SixDigits(s: seq<nat>)
    requires |s| == 6
    ensures Digits(0, s) == ((((s[0] * 32 + s[1]) * 32 + s[2]) * 32 + s[3]) * 32 + s[4]) * 32 + s[5]
  {
    var d1 := s[0];
    var d2 := 32 * d1 + s[1];
    var d3 := 32 * d2 + s[2];
    var d4 := 32 * d3 + s[3];
    var d5 := 32 * d4 + s[4];
    assert Digits(0, s) == Digits(d1, s[1..]);
    assert s[1..][1..] == s[2..] && Digits(d1, s[1..]) == Digits(d2, s[2..]);
    assert s[2..][1..] == s[3..] && Digits(d2, s[2..]) == Digits(d3, s[3..]);
    assert s[3..][1..] == s[4..] && Digits(d3, s[3..]) == Digits(d4, s[4..]);
    assert s[4..][1..] == s[5..] && Digits(d4, s[4..]) == Digits(d5, s[5..]);
    assert s[5..][1..] == [] && Digits(d5, s[5..]) == Digits(32 * d5 + s[5], []);
  }

  lemma NextCoefficients(i: nat, c: seq<nat>, d: seq<nat>)
    requires Coefficients(i) == c && |c| == |d| == 6 && forall k :: 0 <= k < 6 ==> d[k] == Doubled(c[k])
    ensures Coefficients(i + 1) == d
  {
  }

  lemma CoefficientsAre()
    ensures Coefficients(1) == [19, 5, 1, 3, 19, 13] && Coefficients(2) == [15, 10, 2, 6, 15, 26]
    ensures Coefficients(3) == [30, 20, 4, 12, 30, 29] && Coefficients(4) == [21, 1, 8, 24, 21, 19]
  {
    NextCoefficients(0, [29, 22, 20, 21, 29, 18], [19, 5, 1, 3, 19, 13]);
    NextCoefficients(1, [19, 5, 1, 3, 19, 13], [15, 10, 2, 6, 15, 26]);
    NextCoefficients(2, [15, 10, 2, 6, 15, 26], [30, 20, 4, 12, 30, 29]);
    NextCoefficients(3, [30, 20, 4, 12, 30, 29], [21, 1, 8, 24, 21, 19]);
  }

  /** The five generators are the multiples of that polynomial by the powers of two, six symbols in a number. */
  lemma GeneratorsSpelled()
    ensures |GENERATORS| == 5 && forall i :: 0 <= i < 5 ==> GENERATORS[i] == Digits(0, Coefficients(i))
  {
    CoefficientsAre();
    SixDigits([29, 22, 20, 21, 29, 18]);
    SixDigits([19, 5, 1, 3, 19, 13]);
    SixDigits([15, 10, 2, 6, 15, 26]);
    SixDigits([30, 20, 4, 12, 30, 29]);
    SixDigits([21, 1, 8, 24, 21, 19]);
  }

  function Capacity(k: nat): (r: nat)
    ensures r > 0
  {
    if k == 0 then 1 else 32 * Capacity(k - 1)
  }

  lemma CapacityFive(k: nat)
    requires k <= 5
    ensures Capacity(k) <= TOP
  {
    CapacityMonotone(k, 5);
    assert Capacity(5) == TOP;
  }

  /** While fewer than six symbols have entered, the fold is plain base-32 accumulation. */
  lemma {:induction false} FoldIsDigits(chk: nat, symbols: seq<nat>, k: nat)
    requires chk < Capacity(k) && k + |symbols| <= 6 && AllBelow(symbols, 32)
    ensures Fold(chk, symbols) == Digits(chk, symbols) < Capacity(k + |symbols|)
    decreases |symbols|
  {
    if symbols == [] {
    } else {
      CapacityFive(k);
      StepSmall(chk, symbols[0]);
      FoldIsDigits(32 * chk + symbols[0], symbols[1..], k + 1);
    }
  }

  lemma {:induction false} CapacityMonotone(j: nat, k: nat)
    requires j <= k
    ensures Capacity(j) <= Capacity(k)
    decreases k - j
  {
    if j < k { CapacityMonotone(j + 1, k); }
  }

  lemma {:induction false} DigitsZero(acc: nat, symbols: seq<nat>)
    requires Digits(acc, symbols) == 0
    ensures acc == 0 && forall i :: 0 <= i < |symbols| ==> symbols[i] == 0
    decreases |symbols|
  {
    if symbols != [] {
      DigitsZero(32 * acc + symbols[0], symbols[1..]);
      assert symbols == [symbols[0]] + symbols[1..];
    }
  }

  // ---- error detection ----------------------------------------------------------

  ghost predicate DifferOnlyIn(xs: seq<nat>, ys: seq<nat>, lo: nat, hi: nat)
    requires lo <= hi <= |xs| == |ys|
  {
    && (forall i :: 0 <= i < lo || hi <= i < |xs| ==> xs[i] == ys[i])
    && AllBelow(xs[lo..hi], 32) && AllBelow(ys[lo..hi], 32)
  }

  lemma XorSymbols(a: nat, b: nat)
    requires a < 32 && b < 32
    ensures Xor(a, b) < 32
  {
    Pow2Values();
    XorBound(a, b, 5);
  }

  lemma DifferenceWindow(xs: seq<nat>, ys: seq<nat>, lo: nat, hi: nat)
    requires lo <= hi <= |xs| == |ys| && DifferOnlyIn(xs, ys, lo, hi)
    ensures Difference(xs, ys) == Zeros(lo) + Difference(xs, ys)[lo..hi] + Zeros(|xs| - hi)
    ensures AllBelow(Difference(xs, ys)[lo..hi], 32)
    ensures Difference(xs, ys)[lo..hi] == Zeros(hi - lo) ==> xs == ys
  {
    var d := Difference(xs, ys);
    forall i | 0 <= i < |d|
      ensures d[i] == 0 <==> xs[i] == ys[i]
      ensures lo <= i < hi ==> d[i] < 32
    {
      XorEqualsZero(xs[i], ys[i]);
      if lo <= i < hi {
        assert xs[lo..hi][i - lo] < 32 && ys[lo..hi][i - lo] < 32;
        XorSymbols(xs[i], ys[i]);
      }
    }
    if d[lo..hi] == Zeros(hi - lo) {
      forall i | lo <= i < hi ensures xs[i] == ys[i] {
        assert d[lo..hi][i - lo] == d[i];
      }
    }
  }

  /** Six symbols after any zeros leave a nonzero remainder that no later zeros can clear. */
  lemma WindowVisible(lo: nat, mid: seq<nat>, rest: nat)
    requires |mid| <= 6 && AllBelow(mid, 32)
    requires Fold(0, Zeros(lo) + mid + Zeros(rest)) == 0
    ensures mid == Zeros(|mid|)
  {
    FoldConcat(0, Zeros(lo) + mid, Zeros(rest));
    FoldConcat(0, Zeros(lo), mid);
    FoldZeros(lo);
    FoldIsDigits(0, mid, 0);
    MidFits(mid);
    FoldZerosInjective(Fold(0, mid), rest);
    DigitsZero(0, mid);
  }

  /**
   Burst detection (BIP 173, "Checksum"): a change of symbols confined to six consecutive
   positions always changes the checksum, whatever the length and whatever stands around it.
   */
  lemma BurstChangesPolymod(xs: seq<nat>, ys: seq<nat>, lo: nat, hi: nat)
    requires lo <= hi <= |xs| == |ys| && hi - lo <= 6
    requires DifferOnlyIn(xs, ys, lo, hi)
    ensures Polymod(xs) == Polymod(ys) <==> xs == ys
  {
    FoldLinear(1, 1, xs, ys);
    XorEqualsZero(1, 1);
    XorEqualsZero(Polymod(xs), Polymod(ys));
    DifferenceWindow(xs, ys, lo, hi);
    if Polymod(xs) == Polymod(ys) {
      WindowVisible(lo, Difference(xs, ys)[lo..hi], |xs| - hi);
    }
  }

  lemma MidFits(mid: seq<nat>)
    requires |mid| <= 6
    ensures Capacity(|mid|) <= Capacity(6) == Pow2(30)
  {
    CapacityMonotone(|mid|, 6);
    Pow2Values();
    assert Capacity(6) == 0x4000_0000;
  }

  /** A checked string with a burst error never checks. */
  lemma BurstDetected(xs: seq<nat>, ys: seq<nat>, lo: nat, hi: nat)
    requires lo <= hi <= |xs| == |ys| && hi - lo <= 6
    requires DifferOnlyIn(xs, ys, lo, hi)
    requires Polymod(xs) == 1 && xs != ys
    ensures Polymod(ys) != 1
  {
    BurstChangesPolymod(xs, ys, lo, hi);
  }

  /** In particular no swap of two neighbouring symbols goes unnoticed. */
  lemma SwapDetected(xs: seq<nat>, i: nat)
    requires i + 1 < |xs| && xs[i] != xs[i + 1] && xs[i] < 32 && xs[i + 1] < 32
    requires Polymod(xs) == 1
    ensures Polymod(xs[i := xs[i + 1]][i + 1 := xs[i]]) != 1
  {
    var ys := xs[i := xs[i + 1]][i + 1 := xs[i]];
    assert ys[i] != xs[i];
    BurstDetected(xs, ys, i, i + 2);
  }

  // ---- checksum creation -----------------------------------------------------------

  /** `rem >> 5 * n`. */
  function DropDigits(rem: nat, n: nat): nat
    decreases n
  {
    if n == 0 then rem else DropDigits(rem / 32, n - 1)
  }

  /** Symbol `i` of six, as both sources derive it: `(rem >> 5 * (5 - i)) & 31`. */
  function ChecksumSymbol(rem: nat, i: nat): (r: nat)
    requires i < 6
    ensures r < 32
  {
    DropDigits(rem, 5 - i) % 32
  }

  function ChecksumOf(rem: nat): (r: seq<nat>)
    ensures |r| == 6 && AllBelow(r, 32)
  {
    seq(6, i requires 0 <= i < 6 => ChecksumSymbol(rem, i))
  }

  function CreateChecksum(prefix: seq<nat>, data: seq<nat>): (r: seq<nat>)
    ensures |r| == 6 && AllBelow(r, 32)
  {
    ChecksumOf(Xor(Polymod(prefix + data + Zeros(6)), 1))
  }

  lemma {:induction false} DigitsAppend(acc: nat, symbols: seq<nat>, last: nat)
    ensures Digits(acc, symbols + [last]) == 32 * Digits(acc, symbols) + last
    decreases |symbols|
  {
    if symbols == [] {
      assert symbols + [last] == [last];
      assert Digits(32 * acc + last, []) == 32 * acc + last;
    } else {
      assert (symbols + [last])[1..] == symbols[1..] + [last];
      DigitsAppend(32 * acc + symbols[0], symbols[1..], last);
    }
  }

  lemma {:induction false} DropOneMore(rem: nat, n: nat)
    ensures DropDigits(rem, n + 1) == DropDigits(rem, n) / 32
    decreases n
  {
    if n > 0 { DropOneMore(rem / 32, n - 1); }
  }

  lemma {:induction false} DropAll(rem: nat, n: nat)
    requires rem < Capacity(n)
    ensures DropDigits(rem, n) == 0
    decreases n
  {
    if n > 0 { DropAll(rem / 32, n - 1); }
  }

  /** The first `k` checksum symbols are the top `k` base-32 digits of a 30-bit remainder. */
  lemma {:induction false} DigitsOfTop(rem: nat, k: nat)
    requires k <= 6 && rem < Capacity(6)
    ensures Digits(0, ChecksumOf(rem)[..k]) == DropDigits(rem, 6 - k)
  {
    var cs := ChecksumOf(rem);
    if k == 0 {
      DropAll(rem, 6);
    } else {
      assert cs[..k] == cs[..k - 1] + [cs[k - 1]];
      DigitsAppend(0, cs[..k - 1], cs[k - 1]);
      DigitsOfTop(rem, k - 1);
      DropOneMore(rem, 6 - k);
    }
  }

  lemma DigitsOfChecksum(rem: nat)
    requires rem < Pow2(30)
    ensures Digits(0, ChecksumOf(rem)) == rem
  {
    MidFits([]);
    DigitsOfTop(rem, 6);
    assert ChecksumOf(rem)[..6] == ChecksumOf(rem);
  }

  lemma {:induction false} DigitsInjective(a: nat, xs: seq<nat>, b: nat, ys: seq<nat>)
    requires |xs| == |ys| && AllBelow(xs, 32) && AllBelow(ys, 32)
    requires Digits(a, xs) == Digits(b, ys)
    ensures a == b && xs == ys
    decreases |xs|
  {
    if xs == [] {
    } else {
      DigitsInjective(32 * a + xs[0], xs[1..], 32 * b + ys[0], ys[1..]);
      assert xs == [xs[0]] + xs[1..] && ys == [ys[0]] + ys[1..];
    }
  }

  /**
   The created checksum is the one and only six-symbol suffix that makes the whole check
   (BIP 173, "Checksum", for whichever prefix expansion is used).
   */
  lemma ChecksumUnique(prefix: seq<nat>, data: seq<nat>, suffix: seq<nat>)
    requires AllBelow(prefix, Pow2(30)) && AllBelow(data, 32)
    requires |suffix| == 6 && AllBelow(suffix, 32)
    ensures Polymod(prefix + data + suffix) == 1 <==> suffix == CreateChecksum(prefix, data)
  {
    var body := prefix + data;
    var m, d := Polymod(body + Zeros(6)), Digits(0, suffix);
    SuffixAddsDigits(body, suffix);
    Pow2Values();
    FoldFits(1, body + Zeros(6));
    XorBound(m, 1, 30);
    XorMovesAcross(m, d, 1);
    DigitsOfChecksum(Xor(m, 1));
    if d == Xor(m, 1) {
      DigitsInjective(0, suffix, 0, CreateChecksum(prefix, data));
    }
  }

  /** A suffix of up to six symbols only adds its own digits to the remainder of the zero suffix. */
  lemma SuffixAddsDigits(body: seq<nat>, suffix: seq<nat>)
    requires |suffix| <= 6 && AllBelow(suffix, 32)
    ensures Polymod(body + suffix) == Xor(Polymod(body + Zeros(|suffix|)), Digits(0, suffix))
  {
    var c := Polymod(body);
    FoldConcat(1, body, suffix);
    FoldConcat(1, body, Zeros(|suffix|));
    DifferenceFromZeros(suffix);
    FoldLinear(c, 0, Zeros(|suffix|), suffix);
    XorZero(c);
    FoldIsDigits(0, suffix, 0);
  }

  lemma DifferenceFromZeros(xs: seq<nat>)
    ensures Difference(Zeros(|xs|), xs) == xs
  {
    forall i | 0 <= i < |xs| ensures Difference(Zeros(|xs|), xs)[i] == xs[i] {
      XorZero(xs[i]);
    }
  }

  lemma XorMovesAcross(m: nat, d: nat, e: nat)
    ensures Xor(m, d) == e <==> d == Xor(m, e)
  {
    XorCancel(m, d);
    XorCancel(m, e);
  }

  /** The loop that pushes the six symbols. */
  method ComputeChecksum(prefix: seq<nat>, data: seq<nat>) returns (ret: seq<nat>)
    requires AllBelow(prefix, Pow2(30)) && AllBelow(data, 32)
    ensures |ret| == 6 && AllBelow(ret, 32)
    ensures ret == CreateChecksum(prefix, data)
    ensures Polymod(prefix + data + ret) == 1
  {
    var mod := ComputePolymod(prefix + data + Zeros(6));
    mod := Xor(mod, 1);
    ret := [];
    var i := 0;
    while i < 6
      invariant 0 <= i <= 6
      invariant ret == ChecksumOf(mod)[..i]
    {
      ret := ret + [ChecksumSymbol(mod, i)];
      i := i + 1;
    }
    assert ret == ChecksumOf(mod);
    ChecksumUnique(prefix, data, ret);
  }
}
