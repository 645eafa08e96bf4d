/** hexToNpub of docs/app.js and _bech32_encode of lib/mock_router.py: prefix, symbols, checksum. */
module Npub {
  import opened Bits
  import opened Bech32
  import opened Prelude
  import opened Regroup

  const CHARSET: string := "qpzry9x8gf2tvdw0s3jn54khce6mua7l"

  function HighParts(hrp: string): (r: seq<nat>)
    ensures |r| == |hrp|
  {
    seq(|hrp|, i requires 0 <= i < |hrp| => hrp[i] as int / 32)
  }

  function LowParts(hrp: string): (r: seq<nat>)
    ensures |r| == |hrp|
  {
    seq(|hrp|, i requires 0 <= i < |hrp| => hrp[i] as int % 32)
  }

  /** docs/app.js bech32HrpExpand: high parts, then low parts, nothing between. */
  function ExpandDashboard(hrp: string): seq<nat> {
    HighParts(hrp) + LowParts(hrp)
  }

  /** lib/mock_router.py _bech32_hrp_expand: with the zero separator of BIP 173. */
  function ExpandRouter(hrp: string): seq<nat> {
    HighParts(hrp) + [0] + LowParts(hrp)
  }

  predicate Halves(c: char, high: nat, low: nat) { low < 32 && 32 * high + low == c as int }

  /** Both expansions, by the codes of the prefix: five low bits and the rest, and between them a zero or nothing. */
  lemma ExpansionsSpelled(hrp: string, d: seq<nat>, r: seq<nat>)
    requires d == ExpandDashboard(hrp) && r == ExpandRouter(hrp)
    ensures |d| == 2 * |hrp| && |r| == 2 * |hrp| + 1 && r[|hrp|] == 0
    ensures forall i :: 0 <= i < |hrp| ==> Halves(hrp[i], d[i], d[|hrp| + i])
    ensures forall i :: 0 <= i < |hrp| ==> Halves(hrp[i], r[i], r[|hrp| + 1 + i])
  {
  }

  function Spell(symbols: seq<nat>): (r: string)
    requires AllBelow(symbols, 32)
    ensures |r| == |symbols|
  {
    seq(|symbols|, i requires 0 <= i < |symbols| => CHARSET[symbols[i]])
  }

  /** Prefix, separator, data symbols and their checksum under the given expansion. */
  function Encoded(hrp: string, expanded: seq<nat>, data: seq<nat>): string
    requires AllBelow(data, 32)
  {
    hrp + "1" + Spell(data + CreateChecksum(expanded, data))
  }

  // ---- parseInt on pairs of characters --------------------------------------------

  predicate IsHexDigit(c: char) { '0' <= c <= '9' || 'a' <= c <= 'f' || 'A' <= c <= 'F' }

  function HexValue(c: char): (r: nat)
    requires IsHexDigit(c)
    ensures r < 16
  {
    if c <= '9' then c as int - '0' as int else if c <= 'F' then c as int - 'A' as int + 10 else c as int - 'a' as int + 10
  }

  /** The hexadecimal digits by their character codes. */
  lemma DigitCodes(c: char)
    ensures IsHexDigit(c) <==> 48 <= c as int <= 57 || 65 <= c as int <= 70 || 97 <= c as int <= 102
    ensures IsHexDigit(c) ==> HexValue(c) == if c as int <= 57 then c as int - 48 else if c as int <= 70 then c as int - 55 else c as int - 87
  {
  }

  /** White space and line ends of JavaScript. */
  predicate IsJsSpace(c: char) {
    var n := c as int;
    9 <= n <= 13 || n == 32 || n == 0xa0 || n == 0x1680 || 0x2000 <= n <= 0x200a || 0x2028 <= n <= 0x2029
    || n == 0x202f || n == 0x205f || n == 0x3000 || n == 0xfeff
  }

  function DropJsSpaces(s: string): string {
    if s != "" && IsJsSpace(s[0]) then DropJsSpaces(s[1..]) else s
  }

  /** The number the leading hexadecimal digits go on to spell. */
  function LeadingHex(s: string, front: nat): nat
    decreases |s|
  {
    if s == "" || !IsHexDigit(s[0]) then front else LeadingHex(s[1..], 16 * front + HexValue(s[0]))
  }

  function DigitsOnly(s: string): Option<int> {
    if s == "" || !IsHexDigit(s[0]) then None else Some(LeadingHex(s, 0))
  }

  function BehindPrefix(s: string): string {
    if |s| >= 2 && s[0] == '0' && (s[1] == 'x' || s[1] == 'X') then s[2..] else s
  }

  /** `parseInt(s, 16)`: None is NaN. */
  function ParseHex(s: string): Option<int> {
    var t := DropJsSpaces(s);
    if t != "" && t[0] == '-' then
      var n := DigitsOnly(BehindPrefix(t[1..]));
      if n.Some? then Some(-n.value) else None
    else DigitsOnly(BehindPrefix(if t != "" && t[0] == '+' then t[1..] else t))
  }

  /** What the number operators make of NaN. */
  function Number(n: Option<int>): int { if n.Some? then n.value else 0 }

  function HexIf(c: char): Option<int> { if IsHexDigit(c) then Some(HexValue(c)) else None }

  /** What parseInt makes of any two characters. */
  function PairValue(c: char, d: char): Option<int> {
    if IsHexDigit(c) && IsHexDigit(d) then Some(16 * HexValue(c) + HexValue(d))
    else if c == '0' && (d == 'x' || d == 'X') then None
    else if IsHexDigit(c) then Some(HexValue(c))
    else if c == '-' then (if IsHexDigit(d) then Some(0 - HexValue(d) as int) else None)
    else if c == '+' || IsJsSpace(c) then HexIf(d)
    else None
  }

  lemma {:induction false} ShortDigits(s: string)
    requires |s| <= 2
    ensures |s| == 1 ==> DigitsOnly(s) == HexIf(s[0])
    ensures |s| == 2 && IsHexDigit(s[0]) ==>
              DigitsOnly(s) == if IsHexDigit(s[1]) then Some(16 * HexValue(s[0]) + HexValue(s[1])) else Some(HexValue(s[0]))
  {
    if s != "" && IsHexDigit(s[0]) {
      var rest := s[1..];
      assert LeadingHex(s, 0) == LeadingHex(rest, HexValue(s[0]));
      if rest != "" && IsHexDigit(rest[0]) {
        assert LeadingHex(rest, HexValue(s[0])) == LeadingHex(rest[1..], 16 * HexValue(s[0]) + HexValue(rest[0]));
      }
    }
  }

  lemma {:induction false} ParsesPair(s: string)
    requires |s| == 2
    ensures ParseHex(s) == PairValue(s[0], s[1])
  {
    var rest := s[1..];
    ShortDigits(s);
    ShortDigits(rest);
    if IsJsSpace(s[0]) {
      assert DropJsSpaces(s) == DropJsSpaces(rest);
      if IsJsSpace(rest[0]) { assert rest[1..] == "" && DropJsSpaces(rest) == ""; }
    }
  }

  function Pair(hex: string, k: nat): string
    requires 2 * k < |hex|
  {
    if 2 * k + 1 < |hex| then [hex[2 * k], hex[2 * k + 1]] else [hex[2 * k]]
  }

  /** The numbers of a text of pairs, as the number operators see them. */
  function Values(hex: string): (r: seq<int>)
    ensures |r| == (|hex| + 1) / 2 && forall k :: 0 <= k < |r| ==> r[k] == Number(ParseHex(Pair(hex, k)))
  {
    seq((|hex| + 1) / 2, k requires 0 <= k < (|hex| + 1) / 2 => Number(ParseHex(Pair(hex, k))))
  }

  /** docs/app.js hexToBytes, of any text. */
  method HexToBytes(hex: string) returns (bytes: seq<Option<int>>)
    ensures |bytes| == (|hex| + 1) / 2 && forall k :: 0 <= k < |bytes| ==> bytes[k] == ParseHex(Pair(hex, k))
  {
    bytes := [];
    var i := 0;
    while i < |hex|
      invariant 0 <= i <= |hex| + 1 && i == 2 * |bytes|
      invariant forall k :: 0 <= k < |bytes| ==> bytes[k] == ParseHex(Pair(hex, k))
    {
      bytes := bytes + [ParseHex(Pair(hex, i / 2))];
      i := i + 2;
    }
  }

  /** A minus before a digit other than zero: the only pairs worth less than nothing. */
  ghost predicate MinusPair(hex: string, k: nat)
    requires 2 * k + 1 < |hex|
  {
    hex[2 * k] == '-' && IsHexDigit(hex[2 * k + 1]) && hex[2 * k + 1] != '0'
  }

  ghost predicate Negative(hex: string) {
    exists k: nat :: 2 * k + 1 < |hex| && MinusPair(hex, k)
  }

  lemma PairRange(c: char, d: char)
    ensures -16 < Number(PairValue(c, d)) < 256
    ensures Number(PairValue(c, d)) < 0 <==> c == '-' && IsHexDigit(d) && d != '0'
  {
  }

  lemma ValuesInRange(hex: string)
    requires |hex| == 64
    ensures InRange(Values(hex), 8) <==> !Negative(hex)
    ensures forall k :: 0 <= k < |Values(hex)| ==> -0x8000_0000 <= Values(hex)[k] < 0x8000_0000
  {
    assert Pow2(8) == 256;
    forall k: nat | k < 32
      ensures -16 < Values(hex)[k] < 256 && (Values(hex)[k] < 0 <==> MinusPair(hex, k))
    {
      ParsesPair(Pair(hex, k));
      PairRange(hex[2 * k], hex[2 * k + 1]);
    }
  }

  // ---- the dashboard's encoder ------------------------------------------------------

  ghost predicate IsSymbolsOf(data: seq<nat>, hex: string) {
    RegroupsTo(Values(hex), 8, 5, true, data)
  }

  lemma SymbolsFit(bytes: seq<int>, data: seq<int>)
    requires RegroupsTo(bytes, 8, 5, true, data)
    ensures forall i :: 0 <= i < |data| ==> 0 <= data[i] < 32
  {
    Pow2Values();
  }

  lemma ExpandFits(hrp: string)
    ensures AllBelow(ExpandDashboard(hrp), Pow2(30)) && AllBelow(ExpandRouter(hrp), Pow2(30))
  {
    Pow2Values();
  }

  /** The text the dashboard shows for a key. */
  ghost predicate IsNpub(text: string, hex: string) {
    exists data: seq<nat> :: AllBelow(data, 32) && IsSymbolsOf(data, hex)
      && text == Encoded("npub", ExpandDashboard("npub"), data)
  }

  /** docs/app.js hexToNpub: any 64 characters but those with a negative pair make an npub. */
  method HexToNpub(hex: string) returns (text: string)
    ensures text != "" <==> |hex| == 64 && !Negative(hex)
    ensures text != "" ==> IsNpub(text, hex)
  {
    if |hex| != 64 {
      return "";
    }
    var bytes := HexToBytes(hex);
    var numbers := seq(|bytes|, k requires 0 <= k < |bytes| => Number(bytes[k]));
    assert numbers == Values(hex);
    ValuesInRange(hex);
    var converted := ConvertBits(numbers, 8, 5, true);
    if converted.None? {
      return "";
    }
    SymbolsFit(numbers, converted.value);
    var data: seq<nat> := converted.value;
    ExpandFits("npub");
    var checksum := ComputeChecksum(ExpandDashboard("npub"), data);
    text := "npub" + "1" + Spell(data + checksum);
    assert IsSymbolsOf(data, hex);
  }

  /** The text the router's encoder makes: the symbols of the bytes behind a prefix, and a checksum that passes BIP 173. */
  ghost predicate IsRouterText(text: string, hrp: string, bytes: seq<int>) {
    exists data: seq<nat> :: AllBelow(data, 32) && RegroupsTo(bytes, 8, 5, true, data)
      && text == Encoded(hrp, ExpandRouter(hrp), data)
      && Polymod(ExpandRouter(hrp) + data + CreateChecksum(ExpandRouter(hrp), data)) == 1
  }

  /** lib/mock_router.py _bech32_encode. */
  method RouterEncode(hrp: string, bytes: seq<int>) returns (text: string)
    requires InRange(bytes, 8)
    ensures IsRouterText(text, hrp, bytes)
  {
    var ret5 := GrowingConvert(bytes, 8, 5);
    SymbolsFit(bytes, ret5);
    var symbols: seq<nat> := ret5;
    ExpandFits(hrp);
    var checksum := ComputeChecksum(ExpandRouter(hrp), symbols);
    text := hrp + "1" + Spell(symbols + checksum);
    assert AllBelow(symbols, 32) && RegroupsTo(bytes, 8, 5, true, symbols);
  }

  // ---- keys are never confused --------------------------------------------------

  /** The charset read backwards. */
  function CharsetIndex(c: char): nat {
    match c
    case 'q' => 0 case 'p' => 1 case 'z' => 2 case 'r' => 3 case 'y' => 4 case '9' => 5 case 'x' => 6 case '8' => 7
    case 'g' => 8 case 'f' => 9 case '2' => 10 case 't' => 11 case 'v' => 12 case 'd' => 13 case 'w' => 14 case '0' => 15
    case 's' => 16 case '3' => 17 case 'j' => 18 case 'n' => 19 case '5' => 20 case '4' => 21 case 'k' => 22 case 'h' => 23
    case 'c' => 24 case 'e' => 25 case '6' => 26 case 'm' => 27 case 'u' => 28 case 'a' => 29 case '7' => 30 case 'l' => 31 case _ => 32
  }

  lemma CharsetDistinct(i: nat)
    requires i < 32
    ensures CharsetIndex(CHARSET[i]) == i
  {
  }

  lemma SpellInjective(xs: seq<nat>, ys: seq<nat>)
    requires AllBelow(xs, 32) && AllBelow(ys, 32) && Spell(xs) == Spell(ys)
    ensures xs == ys
  {
    forall i | 0 <= i < |xs| ensures xs[i] == ys[i] {
      assert Spell(xs)[i] == Spell(ys)[i];
      CharsetDistinct(xs[i]);
      CharsetDistinct(ys[i]);
    }
  }

  lemma EncodedInjective(hrp: string, expanded: seq<nat>, d: seq<nat>, e: seq<nat>)
    requires AllBelow(d, 32) && AllBelow(e, 32) && Encoded(hrp, expanded, d) == Encoded(hrp, expanded, e)
    ensures d == e
  {
    var all, all' := d + CreateChecksum(expanded, d), e + CreateChecksum(expanded, e);
    assert Spell(all) == Encoded(hrp, expanded, d)[|hrp| + 1..];
    assert Spell(all') == Encoded(hrp, expanded, e)[|hrp| + 1..];
    SpellInjective(all, all');
    assert d == all[..|all| - 6] && e == all'[..|all'| - 6];
  }

  /** Two texts have one npub exactly when parseInt finds the same numbers in both. */
  lemma {:induction false} SameNpubIff(a: string, b: string, text: string)
    requires |a| == |b| == 64 && !Negative(a) && !Negative(b) && IsNpub(text, a)
    ensures IsNpub(text, b) <==> Values(a) == Values(b)
  {
    if IsNpub(text, b) {
      var d: seq<nat> :| AllBelow(d, 32) && IsSymbolsOf(d, a) && text == Encoded("npub", ExpandDashboard("npub"), d);
      var e: seq<nat> :| AllBelow(e, 32) && IsSymbolsOf(e, b) && text == Encoded("npub", ExpandDashboard("npub"), e);
      EncodedInjective("npub", ExpandDashboard("npub"), d, e);
      var s :| Regrouped(Values(a), 8, 5, true, d, s);
      var s' :| Regrouped(Values(b), 8, 5, true, d, s');
      ValuesInRange(a);
      ValuesInRange(b);
      RegroupInjective(Values(a), Values(b), 8, 5, d, s, s');
    }
  }

  function LowerHex(c: char): char {
    if 'A' <= c <= 'F' then (c as int - 'A' as int + 'a' as int) as char else c
  }

  ghost predicate IsHexKey(hex: string) {
    |hex| == 64 && forall i :: 0 <= i < 64 ==> IsHexDigit(hex[i])
  }

  ghost predicate SameButCase(a: string, b: string) {
    |a| == |b| && forall i :: 0 <= i < |a| ==> LowerHex(a[i]) == LowerHex(b[i])
  }

  lemma SamePair(a: char, b: char, c: char, d: char)
    requires IsHexDigit(a) && IsHexDigit(b) && IsHexDigit(c) && IsHexDigit(d)
    ensures PairValue(a, b) == PairValue(c, d) <==> LowerHex(a) == LowerHex(c) && LowerHex(b) == LowerHex(d)
  {
    SameDigit(a, c);
    SameDigit(b, d);
  }

  lemma SameDigit(c: char, d: char)
    requires IsHexDigit(c) && IsHexDigit(d)
    ensures HexValue(c) == HexValue(d) <==> LowerHex(c) == LowerHex(d)
  {
  }

  lemma KeyPair(a: string, b: string, k: nat)
    requires IsHexKey(a) && IsHexKey(b) && k < 32
    ensures Values(a)[k] == Values(b)[k] <==> LowerHex(a[2 * k]) == LowerHex(b[2 * k]) && LowerHex(a[2 * k + 1]) == LowerHex(b[2 * k + 1])
  {
    ParsesPair(Pair(a, k));
    ParsesPair(Pair(b, k));
    SamePair(a[2 * k], a[2 * k + 1], b[2 * k], b[2 * k + 1]);
  }

  lemma SameKeyValues(a: string, b: string)
    requires IsHexKey(a) && IsHexKey(b)
    ensures Values(a) == Values(b) <==> SameButCase(a, b)
  {
    if Values(a) == Values(b) {
      forall i | 0 <= i < 64 ensures LowerHex(a[i]) == LowerHex(b[i]) {
        KeyPair(a, b, i / 2);
        assert i == 2 * (i / 2) || i == 2 * (i / 2) + 1;
      }
    }
    if SameButCase(a, b) {
      forall k: nat | k < 32 ensures Values(a)[k] == Values(b)[k] { KeyPair(a, b, k); }
    }
  }

  lemma KeyIsPositive(hex: string)
    requires IsHexKey(hex)
    ensures !Negative(hex)
  {
  }

  /** Two keys have one npub exactly when they are one key, up to the case of their digits. */
  lemma {:induction false} NpubInjective(a: string, b: string, text: string)
    requires IsHexKey(a) && IsHexKey(b) && IsNpub(text, a)
    ensures IsNpub(text, b) <==> SameButCase(a, b)
  {
    KeyIsPositive(a);
    KeyIsPositive(b);
    SameNpubIff(a, b, text);
    SameKeyValues(a, b);
  }

  // ---- the texts, read back --------------------------------------------------------

  /** A text of prefix, "1" and symbols. */
  ghost predicate Reads(text: string, hrp: string, symbols: seq<nat>) {
    && |text| == |hrp| + 1 + |symbols| && text[..|hrp|] == hrp && text[|hrp|] == '1'
    && forall i :: 0 <= i < |symbols| ==> symbols[i] < 32 && CharsetIndex(text[|hrp| + 1 + i]) == symbols[i]
  }

  lemma {:induction false} EncodedReads(hrp: string, expanded: seq<nat>, data: seq<nat>)
    requires AllBelow(data, 32)
    ensures Reads(Encoded(hrp, expanded, data), hrp, data + CreateChecksum(expanded, data))
  {
    var symbols := data + CreateChecksum(expanded, data);
    var text := Encoded(hrp, expanded, data);
    assert text == hrp + ("1" + Spell(symbols));
    forall i | 0 <= i < |symbols| ensures symbols[i] < 32 && CharsetIndex(text[|hrp| + 1 + i]) == symbols[i] {
      assert text[|hrp| + 1 + i] == Spell(symbols)[i] == CHARSET[symbols[i]];
      CharsetDistinct(symbols[i]);
    }
  }

  lemma NpubPrefix()
    ensures ExpandDashboard("npub") == [3, 3, 3, 3, 14, 16, 21, 2]
  {
    assert 'n' as int == 110 && 'p' as int == 112 && 'u' as int == 117 && 'b' as int == 98;
  }

  lemma {:induction false} KeySymbols(values: seq<int>, data: seq<nat>)
    requires |values| == 32 && RegroupsTo(values, 8, 5, true, data)
    ensures |data| == 52
  {
    var slack :| Regrouped(values, 8, 5, true, data, slack);
    assert |Flatten(data, 5)| == |Flatten(values, 8)| + slack;
  }

  /** An npub is "npub1", then 52 symbols that spell the pairs' numbers bit by bit, then six that make the checksum good. */
  lemma {:induction false} NpubReads(text: string, hex: string) returns (symbols: seq<nat>)
    requires |hex| == 64 && IsNpub(text, hex)
    ensures |text| == 63 && |symbols| == 58 && Reads(text, "npub", symbols)
    ensures RegroupsTo(Values(hex), 8, 5, true, symbols[..52])
    ensures Polymod([3, 3, 3, 3, 14, 16, 21, 2] + symbols) == 1
  {
    var data: seq<nat> :| AllBelow(data, 32) && IsSymbolsOf(data, hex) && text == Encoded("npub", ExpandDashboard("npub"), data);
    symbols := data + CreateChecksum(ExpandDashboard("npub"), data);
    KeySymbols(Values(hex), data);
    EncodedReads("npub", ExpandDashboard("npub"), data);
    NpubChecks(data, CreateChecksum(ExpandDashboard("npub"), data));
    assert symbols[..52] == data;
  }

  lemma {:induction false} NpubChecks(data: seq<nat>, checksum: seq<nat>)
    requires AllBelow(data, 32) && checksum == CreateChecksum(ExpandDashboard("npub"), data)
    ensures Polymod([3, 3, 3, 3, 14, 16, 21, 2] + (data + checksum)) == 1
  {
    ExpandFits("npub");
    ChecksumUnique(ExpandDashboard("npub"), data, checksum);
    NpubPrefix();
    assert ExpandDashboard("npub") + data + checksum == ExpandDashboard("npub") + (data + checksum);
  }

  /** The router's text is the prefix, "1", symbols that spell the bytes bit by bit, and six that make BIP 173's checksum good. */
  lemma {:induction false} RouterTextReads(text: string, hrp: string, bytes: seq<int>) returns (symbols: seq<nat>)
    requires IsRouterText(text, hrp, bytes)
    ensures |symbols| >= 6 && Reads(text, hrp, symbols)
    ensures RegroupsTo(bytes, 8, 5, true, symbols[..|symbols| - 6]) && Polymod(ExpandRouter(hrp) + symbols) == 1
  {
    var data: seq<nat> :| AllBelow(data, 32) && RegroupsTo(bytes, 8, 5, true, data)
      && text == Encoded(hrp, ExpandRouter(hrp), data)
      && Polymod(ExpandRouter(hrp) + data + CreateChecksum(ExpandRouter(hrp), data)) == 1;
    symbols := data + CreateChecksum(ExpandRouter(hrp), data);
    EncodedReads(hrp, ExpandRouter(hrp), data);
    assert symbols[..|symbols| - 6] == data;
    assert ExpandRouter(hrp) + data + CreateChecksum(ExpandRouter(hrp), data) == ExpandRouter(hrp) + symbols;
  }

  // ---- the two prefix expansions ----------------------------------------------------

  /** Equal tails keep different registers apart. */
  lemma TailKeepsApart(c: nat, d: nat, tail: seq<nat>)
    requires c < Pow2(30) && d < Pow2(30)
    ensures Fold(c, tail) == Fold(d, tail) <==> c == d
  {
    FoldLinear(c, d, tail, tail);
    XorEqualsZero(Fold(c, tail), Fold(d, tail));
    XorEqualsZero(c, d);
    forall i | 0 <= i < |tail| ensures Difference(tail, tail)[i] == 0 {
      XorEqualsZero(tail[i], tail[i]);
    }
    assert Difference(tail, tail) == Zeros(|tail|);
    XorBound(c, d, 30);
    if Fold(c, tail) == Fold(d, tail) {
      FoldZerosInjective(Xor(c, d), |tail|);
    }
  }

  /** The dashboard leaves the separator out; the two checks agree only where a zero symbol changes nothing. */
  lemma ExpansionsAgreeIff(hrp: string, tail: seq<nat>)
    ensures Polymod(ExpandDashboard(hrp) + tail) == Polymod(ExpandRouter(hrp) + tail)
       <==> Polymod(HighParts(hrp)) == Step(Polymod(HighParts(hrp)), 0)
  {
    var rest := LowParts(hrp) + tail;
    assert ExpandDashboard(hrp) + tail == HighParts(hrp) + rest;
    assert ExpandRouter(hrp) + tail == HighParts(hrp) + ([0] + rest);
    Pow2Values();
    ZeroBetween(HighParts(hrp), rest);
  }

  lemma ZeroBetween(high: seq<nat>, rest: seq<nat>)
    requires AllBelow(high, Pow2(30))
    ensures Polymod(high + rest) == Polymod(high + ([0] + rest)) <==> Polymod(high) == Step(Polymod(high), 0)
  {
    var s := Polymod(high);
    Pow2Values();
    FoldFits(1, high);
    StepFits(s, 0);
    FoldConcat(1, high, rest);
    FoldConcat(1, high, [0] + rest);
    assert ([0] + rest)[1..] == rest;
    TailKeepsApart(s, Step(s, 0), rest);
  }

  lemma FourThrees(threes: seq<nat>)
    requires |threes| == 4 && forall i :: 0 <= i < 4 ==> threes[i] == 3
    ensures Digits(1, threes) == 1150051
  {
    assert Digits(1, threes) == Digits(35, threes[1..]);
    assert Digits(35, threes[1..]) == Digits(1123, threes[1..][1..]);
    var last := threes[1..][1..][1..];
    assert Digits(1123, threes[1..][1..]) == Digits(35939, last);
    assert Digits(35939, last) == Digits(1150051, last[1..]) && last[1..] == [];
  }

  lemma NpubHighParts()
    ensures Polymod(HighParts("npub")) == 1150051
  {
    var threes := HighParts("npub");
    FourThrees(threes);
    FoldIsDigits(1, threes, 1);
  }

  /** Hence no text the dashboard shows for a key passes the BIP 173 check the router's encoder meets. */
  lemma NpubFailsBip173(data: seq<nat>)
    requires AllBelow(data, 32)
    ensures Polymod(ExpandRouter("npub") + data + CreateChecksum(ExpandDashboard("npub"), data)) != 1
  {
    var checksum := CreateChecksum(ExpandDashboard("npub"), data);
    ExpandFits("npub");
    ChecksumUnique(ExpandDashboard("npub"), data, checksum);
    ExpansionsAgreeIff("npub", data + checksum);
    assert ExpandDashboard("npub") + data + checksum == ExpandDashboard("npub") + (data + checksum);
    assert ExpandRouter("npub") + data + checksum == ExpandRouter("npub") + (data + checksum);
    NpubHighParts();
    StepSmall(1150051, 0);
  }
}
