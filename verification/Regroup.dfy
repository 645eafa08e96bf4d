/**
 Bit regrouping: the never-masked accumulators of convertBits (docs/app.js, 32-bit) and of
 _bech32_encode (lib/mock_router.py, unbounded), specified by the bit string they rewrite.
 On these operands `(acc << k) | v` is `Shl(acc, k) + v` and `(acc >> k) & mask` is `Low(Shr(acc, k), _)`.
 */
module Regroup {
  import opened Bits
  import opened Prelude

  /** The low `w` bits of `v`, most significant first. */
  function BitsOf(v: int, w: nat): (r: seq<bool>)
    ensures |r| == w
    decreases w
  {
    if w == 0 then [] else BitsOf(v / 2, w - 1) + [v % 2 == 1]
  }

  function Flatten(data: seq<int>, w: nat): (r: seq<bool>)
    ensures |r| == w * |data|
  {
    if data == [] then [] else
      var rest := Flatten(data[1..], w);
      assert w * |data| == w + w * |data[1..]|;
      BitsOf(data[0], w) + rest
  }

  /** The i-th bit from the top of a symbol. */
  lemma {:induction false} BitSpelled(v: nat, w: nat, i: nat)
    requires i < w
    ensures BitsOf(v, w)[i] <==> Shr(v, w - 1 - i) % 2 == 1
    decreases w
  {
    if i < w - 1 { BitSpelled(v / 2, w - 1, i); }
  }

  /** The bits of a list stand symbol after symbol. */
  lemma {:induction false} FlattenSpelled(data: seq<int>, w: nat, k: nat, i: nat, at: nat)
    requires k < |data| && i < w && at == w * k + i
    ensures at < |Flatten(data, w)| && Flatten(data, w)[at] == BitsOf(data[k], w)[i]
    decreases k
  {
    var first, rest := BitsOf(data[0], w), Flatten(data[1..], w);
    assert Flatten(data, w) == first + rest;
    if k > 0 {
      OneMore(w, k - 1);
      FlattenSpelled(data[1..], w, k - 1, i, at - w);
      assert (first + rest)[at] == rest[at - w];
    } else {
      OneMore(w, 0);
      assert (first + rest)[i] == first[i];
    }
  }

  lemma OneMore(w: nat, n: nat)
    ensures w * (n + 1) == w + w * n && w * 0 == 0
  {
  }

  function Falses(n: nat): (r: seq<bool>)
    ensures |r| == n
  {
    seq(n, _ => false)
  }

  ghost predicate InRange(data: seq<int>, w: nat) {
    forall i :: 0 <= i < |data| ==> 0 <= data[i] < Pow2(w)
  }

  /**
   What regrouping means: `ret` spells the bits of `data`, cut into `to`-bit symbols, where
   padding completes the last symbol with zeros and no padding demands that fewer than `from`
   bits are left over, all of them zero.
   */
  ghost predicate Regrouped(data: seq<int>, from: nat, to: nat, pad: bool, ret: seq<int>, slack: nat) {
    && InRange(ret, to)
    && slack < to
    && if pad then Flatten(ret, to) == Flatten(data, from) + Falses(slack)
       else slack < from && Flatten(data, from) == Flatten(ret, to) + Falses(slack)
  }

  // ---- bits of shifted values ------------------------------------------------

  lemma {:induction false} BitsOfJoin(acc: int, b: nat, v: nat, w: nat)
    requires v < Pow2(w)
    ensures BitsOf(Shl(acc, w) + v, b + w) == BitsOf(acc, b) + BitsOf(v, w)
    decreases w
  {
    if w == 0 {
      assert BitsOf(acc, b) + [] == BitsOf(acc, b);
    } else {
      var s := Shl(acc, w) + v;
      assert s / 2 == Shl(acc, w - 1) + v / 2 && s % 2 == v % 2;
      BitsOfJoin(acc, b, v / 2, w - 1);
      assert BitsOf(acc, b) + (BitsOf(v / 2, w - 1) + [v % 2 == 1]) == BitsOf(acc, b) + BitsOf(v / 2, w - 1) + [v % 2 == 1];
    }
  }

  lemma {:induction false} BitsOfSplit(acc: int, a: nat, b: nat)
    ensures BitsOf(acc, a + b) == BitsOf(Shr(acc, b), a) + BitsOf(acc, b)
    decreases b
  {
    if b == 0 {
    } else {
      BitsOfSplit(acc / 2, a, b - 1);
      assert BitsOf(Shr(acc, b), a) + (BitsOf(acc / 2, b - 1) + [acc % 2 == 1])
          == BitsOf(Shr(acc, b), a) + BitsOf(acc / 2, b - 1) + [acc % 2 == 1];
    }
  }

  lemma {:induction false} BitsOfLow(acc: int, w: nat, k: nat)
    requires w <= k
    ensures BitsOf(Low(acc, k), w) == BitsOf(acc, w)
    decreases k
  {
    if w > 0 {
      assert Low(acc, k) / 2 == Low(acc / 2, k - 1) && Low(acc, k) % 2 == acc % 2;
      BitsOfLow(acc / 2, w - 1, k - 1);
    }
  }

  lemma {:induction false} BitsOfZero(w: nat)
    ensures BitsOf(0, w) == Falses(w)
  {
    if w > 0 { BitsOfZero(w - 1); }
  }

  lemma {:induction false} BitsOfInjective(u: nat, v: nat, w: nat)
    requires u < Pow2(w) && v < Pow2(w) && BitsOf(u, w) == BitsOf(v, w)
    ensures u == v
    decreases w
  {
    if w > 0 {
      var x, y := BitsOf(u / 2, w - 1), BitsOf(v / 2, w - 1);
      assert BitsOf(u, w)[..w - 1] == x && BitsOf(v, w)[..w - 1] == y;
      assert BitsOf(u, w)[w - 1] == (u % 2 == 1) && BitsOf(v, w)[w - 1] == (v % 2 == 1);
      BitsOfInjective(u / 2, v / 2, w - 1);
    }
  }

  lemma {:induction false} FlattenAppend(data: seq<int>, v: int, w: nat)
    ensures Flatten(data + [v], w) == Flatten(data, w) + BitsOf(v, w)
    decreases |data|
  {
    if data == [] {
      assert Flatten([v][1..], w) == [];
      assert Flatten([v], w) == BitsOf(v, w) + [];
    } else {
      assert (data + [v])[1..] == data[1..] + [v];
      FlattenAppend(data[1..], v, w);
    }
  }

  /** Two symbol lists of one bit string are the same list. */
  lemma {:induction false} FlattenInjective(xs: seq<int>, ys: seq<int>, w: nat)
    requires w > 0 && InRange(xs, w) && InRange(ys, w) && Flatten(xs, w) == Flatten(ys, w)
    ensures xs == ys
    decreases |xs|
  {
    SameLength(|xs|, |ys|, w);
    if xs == [] {
    } else {
      SameHalves(BitsOf(xs[0], w), Flatten(xs[1..], w), BitsOf(ys[0], w), Flatten(ys[1..], w));
      BitsOfInjective(xs[0], ys[0], w);
      FlattenInjective(xs[1..], ys[1..], w);
      assert xs == [xs[0]] + xs[1..] && ys == [ys[0]] + ys[1..];
    }
  }

  lemma SameHalves(a: seq<bool>, b: seq<bool>, c: seq<bool>, d: seq<bool>)
    requires |a| == |c| && a + b == c + d
    ensures a == c && b == d
  {
    assert a == (a + b)[..|a|] && c == (c + d)[..|a|];
    assert b == (a + b)[|a|..] && d == (c + d)[|a|..];
  }

  lemma SameLength(m: nat, n: nat, w: nat)
    requires w > 0 && w * m == w * n
    ensures m == n
  {
    if m < n { MulMonotone(m, n, w); } else if n < m { MulMonotone(n, m, w); }
  }

  lemma MulMonotone(m: nat, n: nat, w: nat)
    requires w > 0 && m < n
    ensures w * m < w * n
  {
    assert w * n == w * m + w * (n - m);
    assert w * (n - m) > 0;
  }

  // ---- the 32-bit accumulator --------------------------------------------------

  /** JavaScript's ToInt32. */
  function ToInt32(x: int): (r: int)
    ensures -0x8000_0000 <= r < 0x8000_0000
  {
    var u := x % 0x1_0000_0000;
    if u >= 0x8000_0000 then u - 0x1_0000_0000 else u
  }

  lemma Shl32(q: int)
    ensures Shl(q, 32) == q * 0x1_0000_0000
  {
    Shl8(q);
    Shl8(Shl(q, 8));
    Shl8(Shl(q, 16));
    Shl8(Shl(q, 24));
    ShlShl(q, 8, 8);
    ShlShl(q, 16, 8);
    ShlShl(q, 24, 8);
  }

  lemma Shl8(a: int)
    ensures Shl(a, 8) == 256 * a
  {
    assert Shl(a, 2) == 2 * Shl(a, 1) && Shl(a, 1) == 2 * Shl(a, 0);
    assert Shl(a, 4) == 2 * Shl(a, 3) && Shl(a, 3) == 2 * Shl(a, 2);
    assert Shl(a, 6) == 2 * Shl(a, 5) && Shl(a, 5) == 2 * Shl(a, 4);
    assert Shl(a, 8) == 2 * Shl(a, 7) && Shl(a, 7) == 2 * Shl(a, 6);
  }

  lemma {:induction false} BitsOfPeriodic(v: int, q: int, k: nat, w: nat)
    requires w <= k
    ensures BitsOf(v + Shl(q, k), w) == BitsOf(v, w)
    decreases w
  {
    if w > 0 {
      assert (v + Shl(q, k)) / 2 == v / 2 + Shl(q, k - 1) && (v + Shl(q, k)) % 2 == v % 2;
      BitsOfPeriodic(v / 2, q, k - 1, w - 1);
    }
  }

  /** Wrapping to 32 bits keeps the low 32 bits. */
  lemma ToInt32KeepsBits(x: int, w: nat)
    requires w <= 32
    ensures BitsOf(ToInt32(x), w) == BitsOf(x, w)
  {
    var q := x / 0x1_0000_0000 + (if x % 0x1_0000_0000 >= 0x8000_0000 then 1 else 0);
    assert x == ToInt32(x) + q * 0x1_0000_0000;
    Shl32(q);
    BitsOfPeriodic(ToInt32(x), q, 32, w);
  }

  // ---- docs/app.js: convertBits ---------------------------------------------------

  ghost predicate RegroupsTo(data: seq<int>, from: nat, to: nat, pad: bool, ret: seq<int>) {
    exists slack :: Regrouped(data, from, to, pad, ret, slack)
  }

  ghost predicate Convertible(data: seq<int>, from: nat, to: nat, pad: bool) {
    exists ret :: RegroupsTo(data, from, to, pad, ret)
  }

  /** One round of the accumulator: a value in, then whole symbols out. */
  ghost predicate Pending(done: seq<bool>, ret: seq<int>, to: nat, acc: int, bits: nat) {
    InRange(ret, to) && done == Flatten(ret, to) + BitsOf(acc, bits)
  }

  /** `(acc << from) | v`, in an accumulator that grows or one that wraps at 32 bits. */
  lemma {:induction false} Absorb(data: seq<int>, i: nat, from: nat, ret: seq<int>, to: nat, acc: int, bits: nat)
    requires i < |data| && 0 <= data[i] < Pow2(from)
    requires Pending(Flatten(data[..i], from), ret, to, acc, bits)
    ensures Pending(Flatten(data[..i + 1], from), ret, to, Shl(acc, from) + data[i], bits + from)
  {
    var v := data[i];
    BitsOfJoin(acc, bits, v, from);
    assert Flatten(ret, to) + BitsOf(acc, bits) + BitsOf(v, from)
        == Flatten(ret, to) + (BitsOf(acc, bits) + BitsOf(v, from));
    FlattenAppend(data[..i], v, from);
    assert data[..i + 1] == data[..i] + [v];
  }

  lemma {:induction false} AbsorbWrapped(data: seq<int>, i: nat, from: nat, ret: seq<int>, to: nat, acc: int, bits: nat)
    requires i < |data| && 0 <= data[i] < Pow2(from) && bits + from <= 32
    requires Pending(Flatten(data[..i], from), ret, to, acc, bits)
    ensures Pending(Flatten(data[..i + 1], from), ret, to, ToInt32(Shl(acc, from)) + data[i], bits + from)
  {
    Absorb(data, i, from, ret, to, acc, bits);
    WrapThenOr(Shl(acc, from), data[i], bits + from);
    PendingSame(Flatten(data[..i + 1], from), ret, to, Shl(acc, from) + data[i], ToInt32(Shl(acc, from)) + data[i], bits + from);
  }

  lemma PendingSame(done: seq<bool>, ret: seq<int>, to: nat, acc: int, other: int, bits: nat)
    requires Pending(done, ret, to, acc, bits) && BitsOf(acc, bits) == BitsOf(other, bits)
    ensures Pending(done, ret, to, other, bits)
  {
  }

  lemma WrapThenOr(x: int, v: nat, w: nat)
    requires w <= 32
    ensures BitsOf(ToInt32(x) + v, w) == BitsOf(x + v, w)
  {
    var q := x / 0x1_0000_0000 + (if x % 0x1_0000_0000 >= 0x8000_0000 then 1 else 0);
    assert x == ToInt32(x) + q * 0x1_0000_0000;
    Shl32(q);
    BitsOfPeriodic(ToInt32(x) + v, q, 32, w);
  }

  lemma {:induction false} PopOut(done: seq<bool>, ret: seq<int>, to: nat, acc: int, bits: nat)
    requires Pending(done, ret, to, acc, bits) && to <= bits
    ensures Pending(done, ret + [Low(Shr(acc, bits - to), to)], to, acc, bits - to)
  {
    var s := Low(Shr(acc, bits - to), to);
    BitsOfSplit(acc, to, bits - to);
    BitsOfLow(Shr(acc, bits - to), to, to);
    FlattenAppend(ret, s, to);
    assert Flatten(ret, to) + (BitsOf(s, to) + BitsOf(acc, bits - to))
        == Flatten(ret, to) + BitsOf(s, to) + BitsOf(acc, bits - to);
  }

  lemma {:induction false} ShrZeroIff(v: nat, w: nat)
    ensures Shr(v, w) == 0 <==> v < Pow2(w)
    decreases w
  {
    if w > 0 { ShrZeroIff(v / 2, w - 1); }
  }

  /** `(acc << (to - bits)) & maxv`: the left-over bits, moved to the top of a symbol. */
  lemma PaddedSymbol(acc: int, bits: nat, to: nat)
    requires bits < to <= 32
    ensures BitsOf(Low(Shl(acc, to - bits), to), to) == BitsOf(acc, bits) + Falses(to - bits)
    ensures BitsOf(Low(ToInt32(Shl(acc, to - bits)), to), to) == BitsOf(acc, bits) + Falses(to - bits)
  {
    PaddedWith(acc, bits, to - bits, to);
  }

  lemma PaddedWith(acc: int, bits: nat, fill: nat, to: nat)
    requires to == bits + fill && to <= 32
    ensures BitsOf(Low(Shl(acc, fill), to), to) == BitsOf(acc, bits) + Falses(fill)
    ensures BitsOf(Low(ToInt32(Shl(acc, fill)), to), to) == BitsOf(acc, bits) + Falses(fill)
  {
    var x := Shl(acc, fill);
    ShiftedBits(acc, bits, fill);
    BitsOfLow(x, to, to);
    BitsOfLow(ToInt32(x), to, to);
    ToInt32KeepsBits(x, to);
  }

  lemma ShiftedBits(acc: int, bits: nat, fill: nat)
    ensures BitsOf(Shl(acc, fill), bits + fill) == BitsOf(acc, bits) + Falses(fill)
  {
    BitsOfJoin(acc, bits, 0, fill);
    BitsOfZero(fill);
  }

  /** Closing the last symbol with zeros. */
  lemma CloseWithPadding(done: seq<bool>, ret: seq<int>, to: nat, acc: int, bits: nat, last: nat)
    requires Pending(done, ret, to, acc, bits) && 0 < bits < to && last < Pow2(to)
    requires BitsOf(last, to) == BitsOf(acc, bits) + Falses(to - bits)
    ensures InRange(ret + [last], to) && Flatten(ret + [last], to) == done + Falses(to - bits)
  {
    FlattenAppend(ret, last, to);
    assert Flatten(ret, to) + (BitsOf(acc, bits) + Falses(to - bits))
        == Flatten(ret, to) + BitsOf(acc, bits) + Falses(to - bits);
  }

  lemma QuotientLess(to: nat, q: nat, r: nat, q': nat)
    requires r < to && q < q'
    ensures to * q + r < to * q'
  {
    assert to * q' == to * q + to * (q' - q);
    if q + 1 < q' { MulMonotone(1, q' - q, to); }
  }

  lemma DivModUnique(to: nat, q: nat, r: nat, q': nat, r': nat)
    requires r < to && r' < to && to * q + r == to * q' + r'
    ensures q == q' && r == r'
  {
    if q < q' {
      QuotientLess(to, q, r, q');
    } else if q' < q {
      QuotientLess(to, q', r', q);
    }
  }

  /** Without padding the left-over bits decide: they must be few and all zero. */
  lemma Leftover(data: seq<int>, from: nat, to: nat, ret: seq<int>, acc: int, bits: nat)
    requires Pending(Flatten(data, from), ret, to, acc, bits) && bits < to
    ensures Convertible(data, from, to, false) <==> bits < from && BitsOf(acc, bits) == Falses(bits)
  {
    if bits < from && BitsOf(acc, bits) == Falses(bits) {
      assert Regrouped(data, from, to, false, ret, bits);
      assert RegroupsTo(data, from, to, false, ret);
    }
    if Convertible(data, from, to, false) {
      var r :| RegroupsTo(data, from, to, false, r);
      var slack :| Regrouped(data, from, to, false, r, slack);
      DivModUnique(to, |ret|, bits, |r|, slack);
      var all := Flatten(data, from);
      assert all[|all| - bits..] == BitsOf(acc, bits);
      assert all[|all| - bits..] == Falses(bits);
    }
  }

  lemma LeftoverZero(acc: int, bits: nat, to: nat)
    requires bits < to <= 32
    ensures Low(ToInt32(Shl(acc, to - bits)), to) == 0 <==> BitsOf(acc, bits) == Falses(bits)
  {
    var s := Low(ToInt32(Shl(acc, to - bits)), to);
    PaddedSymbol(acc, bits, to);
    BitsOfZero(to);
    if BitsOf(acc, bits) == Falses(bits) {
      assert Falses(bits) + Falses(to - bits) == Falses(to);
      BitsOfInjective(s, 0, to);
    }
    assert s == 0 ==> BitsOf(acc, bits) == (BitsOf(acc, bits) + Falses(to - bits))[..bits] == Falses(bits);
  }

  /** The inner loop both sources share: whole symbols leave the accumulator from the top. */
  method EmitSymbols(ghost done: seq<bool>, before: seq<int>, to: nat, acc: int, ready: nat) returns (out: seq<int>, bits: nat)
    requires to > 0 && Pending(done, before, to, acc, ready)
    ensures Pending(done, out, to, acc, bits) && bits < to
  {
    out, bits := before, ready;
    while bits >= to
      invariant Pending(done, out, to, acc, bits)
    {
      PopOut(done, out, to, acc, bits);
      bits := bits - to;
      out := out + [Low(Shr(acc, bits), to)];
    }
  }

  lemma PadOrNot(data: seq<int>, from: nat, to: nat, out: seq<int>, acc: int, bits: nat, last: nat)
    requires Pending(Flatten(data, from), out, to, acc, bits) && bits < to && last < Pow2(to)
    requires BitsOf(last, to) == BitsOf(acc, bits) + Falses(to - bits)
    ensures if bits > 0 then Regrouped(data, from, to, true, out + [last], to - bits)
                        else Regrouped(data, from, to, true, out, 0)
  {
    if bits > 0 {
      CloseWithPadding(Flatten(data, from), out, to, acc, bits, last);
    }
  }

  /** What the code after the loop relies on. */
  lemma LastSymbol(data: seq<int>, from: nat, to: nat, out: seq<int>, acc: int, bits: nat, last: nat)
    requires Pending(Flatten(data, from), out, to, acc, bits) && bits < to <= 32
    requires last == Low(ToInt32(Shl(acc, to - bits)), to)
    ensures Convertible(data, from, to, true)
    ensures RegroupsTo(data, from, to, true, if bits > 0 then out + [last] else out)
    ensures Convertible(data, from, to, false) <==> !(bits >= from || last != 0)
    ensures Convertible(data, from, to, false) ==> RegroupsTo(data, from, to, false, out)
  {
    PaddedSymbol(acc, bits, to);
    PadOrNot(data, from, to, out, acc, bits, last);
    assert RegroupsTo(data, from, to, true, if bits > 0 then out + [last] else out);
    Leftover(data, from, to, out, acc, bits);
    LeftoverZero(acc, bits, to);
    if Convertible(data, from, to, false) {
      assert Regrouped(data, from, to, false, out, bits);
    }
  }

  /** The guard of convertBits: it refuses what does not fit in `from` bits. */
  lemma Refused(data: seq<int>, i: nat, from: nat)
    requires i < |data|
    ensures data[i] >= 0 && Shr(data[i], from) == 0 <==> 0 <= data[i] < Pow2(from)
    ensures InRange(data, from) ==> data[i] >= 0 && Shr(data[i], from) == 0
  {
    if data[i] >= 0 { ShrZeroIff(data[i], from); }
  }

  /** What the loop of convertBits has done after `i` values. */
  ghost predicate Scanned(data: seq<int>, i: nat, from: nat, to: nat, out: seq<int>, acc: int, bits: nat) {
    i <= |data| && InRange(data[..i], from) && Pending(Flatten(data[..i], from), out, to, acc, bits)
  }

  lemma {:induction false} ScanOne(data: seq<int>, i: nat, from: nat, to: nat, out: seq<int>, acc: int, bits: nat)
    requires i < |data| && Scanned(data, i, from, to, out, acc, bits)
    requires data[i] >= 0 && Shr(data[i], from) == 0 && bits + from <= 32
    ensures Scanned(data, i + 1, from, to, out, ToInt32(Shl(acc, from)) + data[i], bits + from)
  {
    Refused(data, i, from);
    AbsorbWrapped(data, i, from, out, to, acc, bits);
    assert data[..i + 1] == data[..i] + [data[i]];
  }

  /** One value goes in, then all whole symbols come out. */
  method TakeValue(ghost data: seq<int>, ghost i: nat, v: int, from: nat, to: nat, before: seq<int>, held: int, ready: nat)
    returns (out: seq<int>, acc: int, bits: nat)
    requires 1 <= to && from + to <= 32 && ready < to && i < |data| && v == data[i] && v >= 0 && Shr(v, from) == 0
    requires Scanned(data, i, from, to, before, held, ready)
    ensures Scanned(data, i + 1, from, to, out, acc, bits) && bits < to
  {
    ScanOne(data, i, from, to, before, held, ready);
    acc := ToInt32(Shl(held, from)) + v;
    out, bits := EmitSymbols(Flatten(data[..i + 1], from), before, to, acc, ready + from);
  }

  /** The loop of convertBits; the accumulator wraps at 32 bits and is never masked. */
  method Accumulate(data: seq<int>, from: nat, to: nat) returns (ok: bool, out: seq<int>, acc: int, bits: nat)
    requires 1 <= from && 1 <= to && from + to <= 32
    ensures ok <==> InRange(data, from)
    ensures ok ==> bits < to && Pending(Flatten(data, from), out, to, acc, bits)
  {
    ok, out, acc, bits := true, [], 0, 0;
    var i := 0;
    while i < |data|
      invariant Scanned(data, i, from, to, out, acc, bits) && bits < to
    {
      var v := data[i];
      if v < 0 || Shr(v, from) != 0 {
        Refused(data, i, from);
        return false, [], 0, 0;
      }
      out, acc, bits := TakeValue(data, i, v, from, to, out, acc, bits);
      i := i + 1;
    }
    assert data[..i] == data;
  }

  /** docs/app.js convertBits on 32-bit integers. */
  method ConvertBits(data: seq<int>, from: nat, to: nat, pad: bool) returns (ret: Option<seq<int>>)
    requires 1 <= from && 1 <= to && from + to <= 32
    requires forall i :: 0 <= i < |data| ==> -0x8000_0000 <= data[i] < 0x8000_0000
    ensures ret.Some? <==> InRange(data, from) && Convertible(data, from, to, pad)
    ensures pad && InRange(data, from) ==> ret.Some?
    ensures ret.Some? ==> RegroupsTo(data, from, to, pad, ret.value)
  {
    var ok, out, acc, bits := Accumulate(data, from, to);
    if !ok {
      return None;
    }
    var last := Low(ToInt32(Shl(acc, to - bits)), to);
    LastSymbol(data, from, to, out, acc, bits, last);
    if pad {
      if bits > 0 {
        out := out + [last];
      }
    } else if bits >= from || last != 0 {
      return None;
    }
    ret := Some(out);
  }

  lemma GrowingLast(data: seq<int>, from: nat, to: nat, out: seq<int>, acc: int, bits: nat)
    requires Pending(Flatten(data, from), out, to, acc, bits) && bits < to <= 32
    ensures RegroupsTo(data, from, to, true, if bits > 0 then out + [Low(Shl(acc, to - bits), to)] else out)
  {
    PaddedSymbol(acc, bits, to);
    PadOrNot(data, from, to, out, acc, bits, Low(Shl(acc, to - bits), to));
  }

  method GrowingAccumulate(data: seq<int>, from: nat, to: nat) returns (ret: seq<int>, acc: nat, bits: nat)
    requires to > 0 && InRange(data, from)
    ensures bits < to && Pending(Flatten(data, from), ret, to, acc, bits)
  {
    ret, acc, bits := [], 0, 0;
    var i := 0;
    while i < |data|
      invariant 0 <= i <= |data| && bits < to
      invariant Pending(Flatten(data[..i], from), ret, to, acc, bits)
    {
      Absorb(data, i, from, ret, to, acc, bits);
      acc := Shl(acc, from) + data[i];
      ret, bits := EmitSymbols(Flatten(data[..i + 1], from), ret, to, acc, bits + from);
      i := i + 1;
    }
    assert data[..i] == data;
  }

  /**
   The conversion loop of lib/mock_router.py _bech32_encode (which fixes `from` to 8 and `to`
   to 5): an unbounded accumulator that only grows.
   */
  method GrowingConvert(data: seq<int>, from: nat, to: nat) returns (ret: seq<int>)
    requires 1 <= to <= 32 && InRange(data, from)
    ensures RegroupsTo(data, from, to, true, ret)
  {
    var acc, bits: nat;
    ret, acc, bits := GrowingAccumulate(data, from, to);
    GrowingLast(data, from, to, ret, acc, bits);
    if bits > 0 {
      ret := ret + [Low(Shl(acc, to - bits), to)];
    }
  }

  // ---- what regrouping guarantees ---------------------------------------------------

  /** The result is determined: the wrapping and the growing accumulator agree at every length. */
  lemma RegroupUnique(data: seq<int>, from: nat, to: nat, pad: bool, r: seq<int>, s: nat, r': seq<int>, s': nat)
    requires to > 0
    requires Regrouped(data, from, to, pad, r, s) && Regrouped(data, from, to, pad, r', s')
    ensures r == r' && s == s'
  {
    if pad {
      PadLengths(|Flatten(data, from)|, to, |r|, s, |r'|, s');
    } else {
      DivModUnique(to, |r|, s, |r'|, s');
      var all := Flatten(data, from);
      assert Flatten(r, to) == all[..|all| - s] == Flatten(r', to);
    }
    FlattenInjective(r, r', to);
  }

  lemma PadLengths(total: nat, to: nat, q: nat, s: nat, q': nat, s': nat)
    requires s < to && s' < to && to * q == total + s && to * q' == total + s'
    ensures q == q' && s == s'
  {
    if s <= s' {
      DivModUnique(to, q', 0, q, s' - s);
    } else {
      DivModUnique(to, q, 0, q', s - s');
    }
  }

  /** Widening with padding and narrowing without loses nothing and is never refused. */
  lemma RegroupRoundTrip(data: seq<int>, wide: nat, narrow: nat, mid: seq<int>, slack: nat, back: seq<int>, slack': nat)
    requires InRange(data, wide) && 0 < narrow < wide
    requires Regrouped(data, wide, narrow, true, mid, slack)
    ensures Regrouped(mid, narrow, wide, false, data, slack)
    ensures Regrouped(mid, narrow, wide, false, back, slack') ==> back == data
  {
    assert Flatten(mid, narrow) == Flatten(data, wide) + Falses(slack);
    if Regrouped(mid, narrow, wide, false, back, slack') {
      RegroupUnique(mid, narrow, wide, false, data, slack, back, slack');
    }
  }

  /** Regrouping with padding never identifies two inputs of one length. */
  lemma RegroupInjective(a: seq<int>, b: seq<int>, wide: nat, narrow: nat, mid: seq<int>, s: nat, s': nat)
    requires InRange(a, wide) && InRange(b, wide) && |a| == |b| && wide > 0
    requires Regrouped(a, wide, narrow, true, mid, s) && Regrouped(b, wide, narrow, true, mid, s')
    ensures a == b
  {
    var n := wide * |a|;
    assert Flatten(a, wide) == Flatten(mid, narrow)[..n] == Flatten(b, wide);
    FlattenInjective(a, b, wide);
  }
}
