/**
 btoa and atob, and the base64url steps docs/v4-to-v3-converter.js wraps around them: swap two
 characters of the alphabet, strip the padding, and put both back (RFC 4648, sections 4 and 5).
 */
module Base64 {
  import opened Prelude

  function Symbol(v: nat): char
    requires v < 64
  {
    if v < 26 then 'A' + v as char
    else if v < 52 then 'a' + (v - 26) as char
    else if v < 62 then '0' + (v - 52) as char
    else if v == 62 then '+' else '/'
  }

  predicate InAlphabet(c: char) {
    'A' <= c <= 'Z' || 'a' <= c <= 'z' || '0' <= c <= '9' || c == '+' || c == '/'
  }

  function SymbolValue(c: char): (v: nat)
    requires InAlphabet(c)
    ensures v < 64
  {
    if 'A' <= c <= 'Z' then c as int - 'A' as int
    else if 'a' <= c <= 'z' then c as int - 'a' as int + 26
    else if '0' <= c <= '9' then c as int - '0' as int + 52
    else if c == '+' then 62 else 63
  }

  lemma SymbolRoundTrip(v: nat)
    requires v < 64
    ensures InAlphabet(Symbol(v)) && SymbolValue(Symbol(v)) == v
  {
  }

  /** The alphabet by character codes: A to Z, a to z, 0 to 9, plus, slash (RFC 4648 section 4). */
  lemma SymbolCodes(v: nat)
    requires v < 64
    ensures Symbol(v) as int == if v < 26 then 65 + v else if v < 52 then 71 + v else if v < 62 then v - 4 else if v == 62 then 43 else 47
  {
  }

  // ---- encoding ---------------------------------------------------------------

  /** The symbols of a byte string without padding. */
  function Symbols(b: seq<Byte>): string {
    if b == [] then ""
    else if |b| == 1 then [Symbol(b[0] / 4), Symbol(b[0] % 4 * 16)]
    else if |b| == 2 then [Symbol(b[0] / 4), Symbol(b[0] % 4 * 16 + b[1] / 16), Symbol(b[1] % 16 * 4)]
    else Group(b[0], b[1], b[2]) + Symbols(b[3..])
  }

  function Group(x: Byte, y: Byte, z: Byte): (s: string)
    ensures |s| == 4
  {
    [Symbol(x / 4), Symbol(x % 4 * 16 + y / 16), Symbol(y % 16 * 4 + z / 64), Symbol(z % 64)]
  }

  function Padding(n: nat): string {
    if n % 3 == 1 then "==" else if n % 3 == 2 then "=" else ""
  }

  function Btoa(b: seq<Byte>): string {
    Symbols(b) + Padding(|b|)
  }

  /** `.replace(/\+/g, "-").replace(/\//g, "_")` and, for decoding, the reverse. */
  function Replace(s: string, c: char, d: char): (r: string)
    ensures |r| == |s| && forall i :: 0 <= i < |s| ==> r[i] == if s[i] == c then d else s[i]
  {
    seq(|s|, i requires 0 <= i < |s| => if s[i] == c then d else s[i])
  }

  /** `.replace(/=+$/, "")`. */
  function StripPadding(s: string): string {
    if s != [] && s[|s| - 1] == '=' then StripPadding(s[..|s| - 1]) else s
  }

  function ToUrl(s: string): string {
    StripPadding(Replace(Replace(s, '+', '-'), '/', '_'))
  }

  function FromUrl(s: string): string {
    Replace(Replace(s, '-', '+'), '_', '/')
  }

  function Padded(s: string): (r: string)
    ensures |r| % 4 == 0
  {
    if |s| % 4 == 1 then s + "===" else if |s| % 4 == 2 then s + "==" else if |s| % 4 == 3 then s + "=" else s
  }

  /** `while (base64.length % 4 !== 0) base64 += "="`. */
  method Pad(s: string) returns (r: string)
    ensures r == Padded(s)
  {
    r := s;
    while |r| % 4 != 0
      invariant Padded(r) == Padded(s) && |s| <= |r| <= |Padded(s)|
      decreases |Padded(s)| - |r|
    {
      r := r + "=";
    }
  }

  // ---- decoding ----------------------------------------------------------------

  predicate IsAsciiSpace(c: char) {
    c == '\t' || c == '\n' || c as int == 0x0c || c == '\r' || c == ' '
  }

  function DropSpaces(s: string): string {
    if s == [] then [] else (if IsAsciiSpace(s[0]) then [] else [s[0]]) + DropSpaces(s[1..])
  }

  ghost predicate AllInAlphabet(s: string) {
    forall i :: 0 <= i < |s| ==> InAlphabet(s[i])
  }

  function Unsymbols(s: string): seq<Byte>
    requires forall i :: 0 <= i < |s| ==> InAlphabet(s[i])
  {
    if |s| < 2 then []
    else
      var v0, v1 := SymbolValue(s[0]), SymbolValue(s[1]);
      if |s| == 2 then [v0 * 4 + v1 / 16]
      else
        var v2 := SymbolValue(s[2]);
        if |s| == 3 then [v0 * 4 + v1 / 16, v1 % 16 * 16 + v2 / 4]
        else
          var v3 := SymbolValue(s[3]);
          [v0 * 4 + v1 / 16, v1 % 16 * 16 + v2 / 4, v2 % 4 * 64 + v3] + Unsymbols(s[4..])
  }

  /** At most two padding characters come off, and only a whole number of groups may carry them. */
  function WithoutPadding(s: string): string {
    if |s| % 4 == 0 && |s| > 0 && s[|s| - 1] == '=' then
      if s[|s| - 2] == '=' then s[..|s| - 2] else s[..|s| - 1]
    else s
  }

  /** The forgiving decoder of the web platform; None is the exception it throws. */
  function Atob(text: string): Option<seq<Byte>> {
    var s := WithoutPadding(DropSpaces(text));
    if |s| % 4 == 1 || !(forall i :: 0 <= i < |s| ==> InAlphabet(s[i])) then None else Some(Unsymbols(s))
  }

  // ---- round trips ---------------------------------------------------------------

  lemma SixBits(x: Byte, y: Byte, z: Byte)
    ensures x / 4 * 4 + (x % 4 * 16 + y / 16) / 16 == x
    ensures (x % 4 * 16 + y / 16) % 16 * 16 + (y % 16 * 4 + z / 64) / 4 == y
    ensures (y % 16 * 4 + z / 64) % 4 * 64 + z % 64 == z
  {
  }

  lemma {:induction false} UnsymbolsGroup(x: Byte, y: Byte, z: Byte, rest: string)
    requires AllInAlphabet(rest)
    ensures AllInAlphabet(Group(x, y, z) + rest)
    ensures Unsymbols(Group(x, y, z) + rest) == [x, y, z] + Unsymbols(rest)
  {
    FourSymbols(x / 4, x % 4 * 16 + y / 16, y % 16 * 4 + z / 64, z % 64, rest);
    SixBits(x, y, z);
  }

  lemma {:induction false} FourSymbols(v0: nat, v1: nat, v2: nat, v3: nat, rest: string)
    requires v0 < 64 && v1 < 64 && v2 < 64 && v3 < 64 && AllInAlphabet(rest)
    ensures var s := [Symbol(v0), Symbol(v1), Symbol(v2), Symbol(v3)] + rest;
            && AllInAlphabet(s)
            && Unsymbols(s) == [v0 * 4 + v1 / 16, v1 % 16 * 16 + v2 / 4, v2 % 4 * 64 + v3] + Unsymbols(rest)
  {
    SymbolRoundTrip(v0);
    SymbolRoundTrip(v1);
    SymbolRoundTrip(v2);
    SymbolRoundTrip(v3);
    FourChars(Symbol(v0), Symbol(v1), Symbol(v2), Symbol(v3), rest);
  }

  lemma {:induction false} FourChars(c0: char, c1: char, c2: char, c3: char, rest: string)
    requires InAlphabet(c0) && InAlphabet(c1) && InAlphabet(c2) && InAlphabet(c3) && AllInAlphabet(rest)
    ensures var s := [c0, c1, c2, c3] + rest;
            var v0, v1, v2, v3 := SymbolValue(c0), SymbolValue(c1), SymbolValue(c2), SymbolValue(c3);
            && AllInAlphabet(s)
            && Unsymbols(s) == [v0 * 4 + v1 / 16, v1 % 16 * 16 + v2 / 4, v2 % 4 * 64 + v3] + Unsymbols(rest)
  {
    assert ([c0, c1, c2, c3] + rest)[4..] == rest;
  }

  lemma UnsymbolsOne(x: Byte)
    ensures AllInAlphabet(Symbols([x])) && Unsymbols(Symbols([x])) == [x]
  {
    SymbolRoundTrip(x / 4);
    SymbolRoundTrip(x % 4 * 16);
  }

  lemma UnsymbolsTwo(x: Byte, y: Byte)
    ensures AllInAlphabet(Symbols([x, y])) && Unsymbols(Symbols([x, y])) == [x, y]
  {
    SymbolRoundTrip(x / 4);
    SymbolRoundTrip(x % 4 * 16 + y / 16);
    SymbolRoundTrip(y % 16 * 4);
    SixBits(x, y, 0);
  }

  lemma {:induction false} UnsymbolsSymbols(b: seq<Byte>)
    ensures AllInAlphabet(Symbols(b)) && Unsymbols(Symbols(b)) == b
  {
    if b == [] {
    } else if |b| == 1 {
      UnsymbolsOne(b[0]);
      assert b == [b[0]];
    } else if |b| == 2 {
      UnsymbolsTwo(b[0], b[1]);
      assert b == [b[0], b[1]];
    } else {
      UnsymbolsSymbols(b[3..]);
      UnsymbolsGroup(b[0], b[1], b[2], Symbols(b[3..]));
      assert b == [b[0], b[1], b[2]] + b[3..];
    }
  }

  lemma {:induction false} NothingToDrop(s: string)
    requires forall i :: 0 <= i < |s| ==> !IsAsciiSpace(s[i])
    ensures DropSpaces(s) == s
  {
    if s != [] { NothingToDrop(s[1..]); }
  }

  lemma {:induction false} StripAfter(s: string, n: nat)
    requires forall i :: 0 <= i < |s| ==> s[i] != '='
    ensures StripPadding(s + seq(n, _ => '=')) == s
    decreases n
  {
    var t := s + seq(n, _ => '=');
    if n > 0 {
      assert t[..|t| - 1] == s + seq(n - 1, _ => '=');
      StripAfter(s, n - 1);
    } else {
      assert t == s;
    }
  }

  lemma {:induction false} PaddedSymbols(b: seq<Byte>)
    ensures Padded(Symbols(b)) == Btoa(b)
    ensures |Symbols(b)| % 4 == if |b| % 3 == 0 then 0 else |b| % 3 + 1
  {
    if |b| > 2 {
      var rest := b[3..];
      PaddedSymbols(rest);
      PadGroup(Group(b[0], b[1], b[2]), Symbols(rest));
      assert Padding(|b|) == Padding(|rest|) by { assert (3 + |rest|) % 3 == |rest| % 3; }
      assert Group(b[0], b[1], b[2]) + (Symbols(rest) + Padding(|rest|)) == Btoa(b);
    }
  }

  lemma PadGroup(g: string, s: string)
    requires |g| == 4
    ensures Padded(g + s) == g + Padded(s) && |g + s| % 4 == |s| % 4
  {
    assert (4 + |s|) % 4 == |s| % 4;
  }

  lemma PaddingComesOff(s: string, k: nat)
    requires AllInAlphabet(s) && k < 3
    requires |s| % 4 == if k == 0 then 0 else 4 - k
    ensures WithoutPadding(s + seq(k, _ => '=')) == s
  {
    var pad := seq(k, _ => '=');
    assert s != [] ==> InAlphabet(s[|s| - 1]);
    if k == 0 {
      assert s + pad == s;
    } else if k == 1 {
      assert pad == "=";
      OnePad(s, s + pad);
    } else {
      assert pad == "==";
      TwoPads(s, s + pad);
    }
  }

  lemma {:induction false} OnePad(s: string, t: string)
    requires |s| % 4 == 3 && s[|s| - 1] != '=' && t == s + "="
    ensures WithoutPadding(t) == s
  {
    assert t[|t| - 2] == s[|s| - 1] && t[..|t| - 1] == s;
  }

  lemma {:induction false} TwoPads(s: string, t: string)
    requires |s| % 4 == 2 && t == s + "=="
    ensures WithoutPadding(t) == s
  {
    assert t[..|t| - 2] == s;
  }

  lemma AtobBtoa(b: seq<Byte>)
    ensures Atob(Btoa(b)) == Some(b)
  {
    var s, k := Symbols(b), |Padding(|b|)|;
    UnsymbolsSymbols(b);
    PaddedSymbols(b);
    assert Btoa(b) == s + seq(k, _ => '=');
    assert DropSpaces(Btoa(b)) == Btoa(b) by { NothingToDrop(Btoa(b)); }
    assert WithoutPadding(Btoa(b)) == s by { PaddingComesOff(s, k); }
    assert |s| % 4 != 1;
  }

  lemma SwapBack(s: string)
    requires AllInAlphabet(s)
    ensures FromUrl(Replace(Replace(s, '+', '-'), '/', '_')) == s
    ensures forall i :: 0 <= i < |s| ==> Replace(Replace(s, '+', '-'), '/', '_')[i] != '='
  {
  }

  /** Swapping the alphabet and stripping the padding loses nothing. */
  lemma UrlRoundTrip(b: seq<Byte>)
    ensures Padded(FromUrl(ToUrl(Btoa(b)))) == Btoa(b)
  {
    var s, k := Symbols(b), |Padding(|b|)|;
    var url := Replace(Replace(s, '+', '-'), '/', '_');
    UnsymbolsSymbols(b);
    SwapBack(s);
    PaddedSymbols(b);
    assert Replace(Replace(Btoa(b), '+', '-'), '/', '_') == url + seq(k, _ => '=');
    StripAfter(url, k);
  }

  /** What the converter decodes is what was encoded. */
  lemma DecodeEncoded(b: seq<Byte>)
    ensures Atob(Padded(FromUrl(ToUrl(Btoa(b))))) == Some(b)
  {
    UrlRoundTrip(b);
    AtobBtoa(b);
  }

  /** Nothing but the letters of the two last symbols, and the padding, sets the url form apart (RFC 4648 section 5). */
  lemma {:induction false} UrlLetters(b: seq<Byte>)
    ensures var s, u := Symbols(b), ToUrl(Btoa(b));
            && |u| == |s| && s <= Btoa(b)
            && forall i :: 0 <= i < |s| ==> u[i] == if s[i] == '+' then '-' else if s[i] == '/' then '_' else s[i]
  {
    var s, k := Symbols(b), |Padding(|b|)|;
    var url := Replace(Replace(s, '+', '-'), '/', '_');
    UnsymbolsSymbols(b);
    SwapBack(s);
    PaddedSymbols(b);
    assert Replace(Replace(Btoa(b), '+', '-'), '/', '_') == url + seq(k, _ => '=');
    StripAfter(url, k);
  }

  lemma VectorGroups()
    ensures Group(102, 111, 111) == "Zm9v" && Group(98, 97, 114) == "YmFy"
  {
    assert Symbol(25) == 'Z' && Symbol(38) == 'm' && Symbol(61) == '9' && Symbol(47) == 'v';
    assert Symbol(24) == 'Y' && Symbol(5) == 'F' && Symbol(50) == 'y';
  }

  /** Test vectors of RFC 4648 section 10: "f", "fo", "foo", "foobar". */
  lemma {:induction false} TestVectors(f: seq<Byte>, fo: seq<Byte>, foo: seq<Byte>, foobar: seq<Byte>)
    requires f == [102] && fo == [102, 111] && foo == [102, 111, 111] && foobar == foo + [98, 97, 114]
    ensures Btoa(f) == "Zg==" && Btoa(fo) == "Zm8=" && Btoa(foo) == "Zm9v" && Btoa(foobar) == "Zm9vYmFy"
  {
    VectorGroups();
    assert Symbol(25) == 'Z' && Symbol(32) == 'g' && Symbol(38) == 'm' && Symbol(60) == '8';
    assert foo[3..] == [] && foobar[3..] == [98, 97, 114] && [98, 97, 114][3..] == [];
    assert Symbols([98, 97, 114]) == "YmFy" + Symbols([]);
    assert Symbols(foobar) == "Zm9v" + Symbols([98, 97, 114]);
    assert "YmFy" + "" == "YmFy" && "Zm9v" + "" == "Zm9v";
  }
}
