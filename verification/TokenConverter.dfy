/**
 docs/v4-to-v3-converter.js: V4 (CBOR) cashu tokens rewritten as V3 (JSON) tokens.
 TextDecoder, JSON.stringify and JSON.parse are parameters; btoa, atob and the CBOR reader are not.
 A token's text fields are JavaScript strings, and "" stands for an absent unit or memo, which
 the source cannot tell apart from an empty one.
 */
module TokenConverter {
  import opened Prelude
  import Base64
  import Cbor

  datatype Proof = Proof(id: string, amount: int, secret: string, C: string)

  datatype DecodedToken = DecodedToken(mint: string, proofs: seq<Proof>, unit: string, memo: string)

  datatype V3Entry = V3Entry(mint: string, proofs: seq<Proof>)

  datatype V3Payload = V3Payload(token: seq<V3Entry>, unit: string, mint: string, memo: string)

  /** The JSON library, seen through the one shape the converter writes. */
  datatype Json = Json(stringify: V3Payload -> string, parse: string -> Option<V3Payload>)

  predicate Latin1(s: string) {
    forall i :: 0 <= i < |s| ==> s[i] as int < 0x100
  }

  predicate ProofLatin1(p: Proof) {
    Latin1(p.id) && Latin1(p.secret) && Latin1(p.C)
  }

  ghost predicate PayloadLatin1(p: V3Payload) {
    && Latin1(p.unit) && Latin1(p.mint) && Latin1(p.memo)
    && forall e :: e in p.token ==> Latin1(e.mint) && forall q :: q in e.proofs ==> ProofLatin1(q)
  }

  /** What is used of JSON: parsing undoes printing, and printing escapes no Latin-1 away nor adds any other. */
  ghost predicate Lawful(json: Json) {
    forall p :: && json.parse(json.stringify(p)) == Some(p)
                && (Latin1(json.stringify(p)) <==> PayloadLatin1(p))
  }

  // ---- text and bytes ------------------------------------------------------------

  function Codes(s: string): (b: seq<Byte>)
    requires Latin1(s)
    ensures |b| == |s|
  {
    seq(|s|, i requires 0 <= i < |s| => s[i] as int)
  }

  function Chars(b: seq<Byte>): (s: string)
    ensures |s| == |b| && Latin1(s)
  {
    seq(|b|, i requires 0 <= i < |b| => b[i] as char)
  }

  lemma CharsCodes(s: string)
    requires Latin1(s)
    ensures Chars(Codes(s)) == s
  {
  }

  function HexDigit(v: nat): char
    requires v < 16
  {
    if v < 10 then '0' + v as char else 'a' + (v - 10) as char
  }

  /** bytesToHex: two lower-case digits a byte. */
  function Hex(b: seq<Byte>): (s: string)
    ensures |s| == 2 * |b| && Latin1(s)
  {
    if b == [] then "" else [HexDigit(b[0] / 16), HexDigit(b[0] % 16)] + Hex(b[1..])
  }

  lemma {:induction false} HexInjective(a: seq<Byte>, b: seq<Byte>)
    requires Hex(a) == Hex(b)
    ensures a == b
  {
    if a == [] {
    } else {
      assert Hex(a)[0] == Hex(b)[0] && Hex(a)[1] == Hex(b)[1];
      assert Hex(a)[2..] == Hex(a[1..]) && Hex(b)[2..] == Hex(b[1..]);
      HexInjective(a[1..], b[1..]);
      assert a[0] / 16 == b[0] / 16 && a[0] % 16 == b[0] % 16;
      assert a == [a[0]] + a[1..] && b == [b[0]] + b[1..];
    }
  }

  /** A hexadecimal digit by its character code; 16 for anything but 0 to 9 and a to f. */
  function Nibble(c: char): (v: nat) {
    var n := c as int;
    if 48 <= n <= 57 then n - 48 else if 97 <= n <= 102 then n - 87 else 16
  }

  /** A text that, read two digits at a time, is these bytes. */
  ghost predicate SpellsBytes(text: string, b: seq<Byte>) {
    && |text| == 2 * |b|
    && forall i :: 0 <= i < |b| ==> Nibble(text[2 * i]) < 16 && Nibble(text[2 * i + 1]) < 16
                                    && 16 * Nibble(text[2 * i]) + Nibble(text[2 * i + 1]) == b[i]
  }

  lemma NibbleReads(v: nat)
    requires v < 16
    ensures Nibble(HexDigit(v)) == v
  {
  }

  lemma {:induction false} HexAt(b: seq<Byte>, i: nat)
    requires i < |b|
    ensures Hex(b)[2 * i] == HexDigit(b[i] / 16) && Hex(b)[2 * i + 1] == HexDigit(b[i] % 16)
  {
    if i > 0 {
      HexAt(b[1..], i - 1);
      assert Hex(b)[2..] == Hex(b[1..]);
    }
  }

  lemma {:induction false} HexReadsBack(b: seq<Byte>)
    ensures SpellsBytes(Hex(b), b)
  {
    forall i | 0 <= i < |b|
      ensures Nibble(Hex(b)[2 * i]) < 16 && Nibble(Hex(b)[2 * i + 1]) < 16 && 16 * Nibble(Hex(b)[2 * i]) + Nibble(Hex(b)[2 * i + 1]) == b[i]
    {
      HexAt(b, i);
      NibbleReads(b[i] / 16);
      NibbleReads(b[i] % 16);
    }
  }

  // ---- V3 ----------------------------------------------------------------------------

  function PayloadOf(t: DecodedToken): V3Payload {
    V3Payload([V3Entry(t.mint, t.proofs)], if t.unit == "" then "sat" else t.unit, t.mint, t.memo)
  }

  /** encodeV3Token; None is the exception btoa throws on text outside Latin-1. */
  function EncodeV3(json: Json, t: DecodedToken): Option<string> {
    var text := json.stringify(PayloadOf(t));
    if Latin1(text) then Some("cashuA" + Base64.ToUrl(Base64.Btoa(Codes(text)))) else None
  }

  /** decodeV3 on what follows "cashuA". */
  function DecodeV3(json: Json, payload: string): Option<DecodedToken> {
    match Base64.Atob(Base64.Padded(Base64.FromUrl(payload)))
    case None => None
    case Some(bytes) =>
      match json.parse(Chars(bytes))
      case None => None
      case Some(p) =>
        if p.token == [] then None
        else Some(DecodedToken(p.token[0].mint, p.token[0].proofs, if p.unit == "" then "sat" else p.unit, p.memo))
  }

  // ---- V4 ------------------------------------------------------------------------------

  datatype KeysetProof = KeysetProof(amount: int, secret: string, c: seq<Byte>)

  datatype Keyset = Keyset(id: seq<Byte>, proofs: seq<KeysetProof>)

  datatype Template = Template(mint: string, unit: string, keysets: seq<Keyset>, memo: string)

  /** What decoding the bytes behind "cashuB" comes to. */
  datatype Outcome = Decoded(token: DecodedToken) | Throws | OtherShape

  type Entries = seq<Entry<Cbor.Value>>

  function IntAt(o: Entries, key: string): Option<int> {
    match Lookup(o, key) case Some(v) => (if v.Int? then Some(v.n) else None) case None => None
  }

  function TextAt(o: Entries, key: string): Option<string> {
    match Lookup(o, key) case Some(v) => (if v.Text? then Some(v.text) else None) case None => None
  }

  function BytesAt(o: Entries, key: string): Option<seq<Byte>> {
    match Lookup(o, key) case Some(v) => (if v.Bytes? then Some(v.bytes) else None) case None => None
  }

  function ArrayAt(o: Entries, key: string): Option<seq<Cbor.Value>> {
    match Lookup(o, key) case Some(v) => (if v.Array? then Some(v.items) else None) case None => None
  }

  /** A text field that may be missing, in which case it acts like an empty one. */
  function OptionalText(o: Entries, key: string): Option<string> {
    if Lookup(o, key).None? then Some("") else TextAt(o, key)
  }

  function AsProof(v: Cbor.Value): Option<KeysetProof> {
    if !v.Object? then None else
      var a, s, c := IntAt(v.entries, "a"), TextAt(v.entries, "s"), BytesAt(v.entries, "c");
      if a.Some? && s.Some? && c.Some? then Some(KeysetProof(a.value, s.value, c.value)) else None
  }

  function AsProofs(vs: seq<Cbor.Value>): Option<seq<KeysetProof>> {
    if vs == [] then Some([]) else
      var p, ps := AsProof(vs[0]), AsProofs(vs[1..]);
      if p.Some? && ps.Some? then Some([p.value] + ps.value) else None
  }

  function AsKeyset(v: Cbor.Value): Option<Keyset> {
    if !v.Object? then None else
      var i, p := BytesAt(v.entries, "i"), ArrayAt(v.entries, "p");
      if i.None? || p.None? then None else
        var proofs := AsProofs(p.value);
        if proofs.Some? then Some(Keyset(i.value, proofs.value)) else None
  }

  function AsKeysets(vs: seq<Cbor.Value>): Option<seq<Keyset>> {
    if vs == [] then Some([]) else
      var k, ks := AsKeyset(vs[0]), AsKeysets(vs[1..]);
      if k.Some? && ks.Some? then Some([k.value] + ks.value) else None
  }

  /** The token template inside a decoded value, where the fields have the types the wallet format gives them. */
  function AsTemplate(v: Cbor.Value): Option<Template> {
    if !v.Object? then None else
      var m, u, t, d := TextAt(v.entries, "m"), OptionalText(v.entries, "u"), ArrayAt(v.entries, "t"), OptionalText(v.entries, "d");
      if m.None? || u.None? || t.None? || d.None? then None else
        var keysets := AsKeysets(t.value);
        if keysets.Some? then Some(Template(m.value, u.value, keysets.value, d.value)) else None
  }

  /** The proofs of one keyset, then of all keysets in order. */
  function ProofsOf(k: Keyset): (r: seq<Proof>)
    ensures |r| == |k.proofs|
  {
    seq(|k.proofs|, i requires 0 <= i < |k.proofs| =>
      Proof(Hex(k.id), k.proofs[i].amount, k.proofs[i].secret, Hex(k.proofs[i].c)))
  }

  function AllProofs(ks: seq<Keyset>): seq<Proof> {
    if ks == [] then [] else ProofsOf(ks[0]) + AllProofs(ks[1..])
  }

  /** The inner loop: one keyset's proofs behind those already pushed. */
  method PushKeyset(before: seq<Proof>, k: Keyset) returns (proofs: seq<Proof>)
    ensures proofs == before + ProofsOf(k)
    ensures |proofs| == |before| + |k.proofs| && proofs[..|before|] == before
    ensures forall j :: 0 <= j < |k.proofs| ==> Says(proofs[|before|..][j], k.id, k.proofs[j])
  {
    proofs := before;
    var keysetId := Hex(k.id);
    for j := 0 to |k.proofs|
      invariant proofs == before + ProofsOf(k)[..j]
    {
      var p := k.proofs[j];
      proofs := proofs + [Proof(keysetId, p.amount, p.secret, Hex(p.c))];
    }
    assert proofs[..|before|] == before && proofs[|before|..] == ProofsOf(k);
    forall j | 0 <= j < |k.proofs| ensures Says(ProofsOf(k)[j], k.id, k.proofs[j]) { ProofSays(k, j); }
  }

  /** A V3 proof that says what a V4 proof says: amount and secret, and id and C digit by digit. */
  ghost predicate Says(q: Proof, id: seq<Byte>, p: KeysetProof) {
    q.amount == p.amount && q.secret == p.secret && SpellsBytes(q.id, id) && SpellsBytes(q.C, p.c)
  }

  lemma ProofSays(k: Keyset, j: nat)
    requires j < |k.proofs|
    ensures Says(ProofsOf(k)[j], k.id, k.proofs[j])
  {
    HexReadsBack(k.id);
    HexReadsBack(k.proofs[j].c);
  }

  lemma {:induction false} AllProofsLast(ks: seq<Keyset>, k: Keyset)
    ensures AllProofs(ks + [k]) == AllProofs(ks) + ProofsOf(k)
  {
    if ks == [] {
      assert [k][1..] == [] && ProofsOf(k) + [] == ProofsOf(k);
      assert [] + [k] == [k] && [] + ProofsOf(k) == ProofsOf(k);
    } else {
      AllProofsLast(ks[1..], k);
      assert (ks + [k])[1..] == ks[1..] + [k];
      assert ProofsOf(ks[0]) + (AllProofs(ks[1..]) + ProofsOf(k)) == ProofsOf(ks[0]) + AllProofs(ks[1..]) + ProofsOf(k);
    }
  }

  /** The nested loops of decodeV4 that push one proof after another. */
  method CollectProofs(ks: seq<Keyset>) returns (proofs: seq<Proof>)
    ensures proofs == AllProofs(ks)
  {
    proofs := [];
    for i := 0 to |ks|
      invariant proofs == AllProofs(ks[..i])
    {
      AllProofsLast(ks[..i], ks[i]);
      assert ks[..i + 1] == ks[..i] + [ks[i]];
      proofs := PushKeyset(proofs, ks[i]);
    }
    assert ks[..|ks|] == ks;
  }

  function TokenOf(t: Template): DecodedToken {
    DecodedToken(t.mint, AllProofs(t.keysets), if t.unit == "" then "sat" else t.unit, t.memo)
  }

  /** decodeV4 on what follows "cashuB". */
  function DecodeV4(utf8: Cbor.Decoder, payload: string): Outcome {
    match Base64.Atob(Base64.Padded(Base64.FromUrl(payload)))
    case None => Throws
    case Some(bytes) =>
      match Cbor.Read(utf8, bytes, 0)
      case Err(_) => Throws
      case Ok(v, _) =>
        if !v.Object? || Lookup(v.entries, "t").None? then Throws
        else match AsTemplate(v)
             case Some(t) => Decoded(TokenOf(t))
             case None => OtherShape
  }

  method ComputeDecodeV4(utf8: Cbor.Decoder, payload: string) returns (r: Outcome)
    ensures r == DecodeV4(utf8, payload)
  {
    var base64 := Base64.Pad(Base64.FromUrl(payload));
    var bytes := Base64.Atob(base64);
    if bytes.None? {
      return Throws;
    }
    var reader := new Cbor.Reader(utf8, bytes.value);
    var cbor := reader.Next();
    if cbor.Err? {
      return Throws;
    }
    if !cbor.value.Object? || Lookup(cbor.value.entries, "t").None? {
      return Throws;
    }
    var template := AsTemplate(cbor.value);
    if template.None? {
      return OtherShape;
    }
    var t := template.value;
    var proofs := CollectProofs(t.keysets);
    r := Decoded(DecodedToken(t.mint, proofs, if t.unit == "" then "sat" else t.unit, t.memo));
  }

  // ---- ensureV3 ----------------------------------------------------------------------------

  function StripPrefix(token: string): string {
    if StartsWith(token, "web+cashu://") then "cashu" + token[12..]
    else if StartsWith(token, "cashu://") then "cashu" + token[8..]
    else if StartsWith(token, "cashu:") then "cashu" + token[6..]
    else if StartsWith(token, "cashu") then "cashu" + token[5..]
    else token
  }

  /** What ensureV3 hands back: new text, or its argument, or (for other shapes) unmodelled text. */
  datatype Ensured = Converted(text: string) | Unchanged | Unmodelled

  function EnsureV3(utf8: Cbor.Decoder, json: Json, token: string): Ensured {
    var stripped := StripPrefix(token);
    if !StartsWith(stripped, "cashu") then Unchanged
    else if |stripped| < 6 || stripped[5] != 'B' then Unchanged
    else
      match DecodeV4(utf8, stripped[6..])
      case Throws => Unchanged
      case OtherShape => Unmodelled
      case Decoded(t) => (match EncodeV3(json, t) case Some(text) => Converted(text) case None => Unchanged)
  }

  // ---- the conversion keeps the token -----------------------------------------------------------

  ghost predicate TokenLatin1(t: DecodedToken) {
    Latin1(t.mint) && Latin1(t.unit) && Latin1(t.memo) && forall p :: p in t.proofs ==> ProofLatin1(p)
  }

  /** Encoding succeeds exactly on Latin-1 tokens, and decoding gives the same token back. */
  lemma V3RoundTrip(json: Json, t: DecodedToken)
    requires Lawful(json)
    ensures EncodeV3(json, t).Some? <==> TokenLatin1(t)
    ensures EncodeV3(json, t).Some? ==>
      var text := EncodeV3(json, t).value;
      StartsWith(text, "cashuA") && DecodeV3(json, text[6..]) == Some(t.(unit := if t.unit == "" then "sat" else t.unit))
  {
    var text := json.stringify(PayloadOf(t));
    assert json.parse(text) == Some(PayloadOf(t));
    if Latin1(text) {
      Base64.DecodeEncoded(Codes(text));
      CharsCodes(text);
    }
  }

  /** The V3 decoder on any payload's text: the first entry's mint and proofs, and "sat" for a missing unit; no entry is an error. */
  lemma V3Reads(json: Json, p: V3Payload)
    requires Lawful(json) && Latin1(json.stringify(p))
    ensures DecodeV3(json, Base64.ToUrl(Base64.Btoa(Codes(json.stringify(p))))) ==
            if p.token == [] then None
            else Some(DecodedToken(p.token[0].mint, p.token[0].proofs, if p.unit == "" then "sat" else p.unit, p.memo))
  {
    var text := json.stringify(p);
    assert json.parse(text) == Some(p);
    Base64.DecodeEncoded(Codes(text));
    CharsCodes(text);
  }

  /**
   A V4 token is converted exactly when its text is Latin-1, and then the V3 text decodes to the
   same mint, unit, memo and proofs in the same order.  Otherwise it comes back unchanged.
   */
  lemma ConversionKeepsToken(utf8: Cbor.Decoder, json: Json, payload: string)
    requires Lawful(json) && DecodeV4(utf8, payload).Decoded?
    ensures var t, r := DecodeV4(utf8, payload).token, EnsureV3(utf8, json, "cashu" + (['B'] + payload));
            if TokenLatin1(t)
            then r.Converted? && StartsWith(r.text, "cashuA") && DecodeV3(json, r.text[6..]) == Some(t)
            else r == Unchanged
  {
    BareStripped(['B'] + payload);
    assert (['B'] + payload)[1..] == payload;
    V3RoundTrip(json, DecodeV4(utf8, payload).token);
  }

  /** "cashu" directly followed by anything but a colon is its own stripped form. */
  lemma BareStripped(tail: string)
    requires tail != [] && tail[0] != ':'
    ensures StripPrefix("cashu" + tail) == "cashu" + tail
    ensures StartsWith("cashu" + tail, "cashu") && ("cashu" + tail)[5] == tail[0] && ("cashu" + tail)[6..] == tail[1..]
  {
    var token := "cashu" + tail;
    assert token[0] == 'c' && token[5] == tail[0] && token[5..] == tail;
  }

  /** What stands behind a scheme; "cashu:" followed by two slashes is the scheme "cashu://". */
  function Behind(scheme: string, tail: string): string {
    if scheme == "cashu:" && StartsWith(tail, "//") then tail[2..] else tail
  }

  lemma SchemeStripped(scheme: string, tail: string)
    requires scheme == "cashu:" || scheme == "cashu://" || scheme == "web+cashu://"
    ensures StripPrefix(scheme + tail) == "cashu" + Behind(scheme, tail)
  {
    var token := scheme + tail;
    assert token[0] == scheme[0] && token[..|scheme|] == scheme && token[|scheme|..] == tail;
    if scheme == "cashu:" {
      SlashesBehind(tail);
    }
  }

  lemma SlashesBehind(tail: string)
    ensures StartsWith("cashu:" + tail, "cashu://") <==> StartsWith(tail, "//")
    ensures StartsWith(tail, "//") ==> ("cashu:" + tail)[8..] == tail[2..]
  {
    var token := "cashu:" + tail;
    if StartsWith(tail, "//") {
      assert tail == "//" + tail[2..];
      assert token == "cashu://" + tail[2..];
    }
    if StartsWith(token, "cashu://") {
      assert tail[0] == token[6] == "cashu://"[6] && tail[1] == token[7] == "cashu://"[7];
    }
  }

  /** Text that already is V3 is left alone, so converting twice is converting once. */
  lemma V3Untouched(utf8: Cbor.Decoder, json: Json, rest: string)
    ensures EnsureV3(utf8, json, "cashu" + (['A'] + rest)) == Unchanged
  {
    BareStripped(['A'] + rest);
  }

  /**
   Stripping a URI scheme puts "cashu" in its place.  Behind a scheme, then, only a text that starts
   with the version letter is converted, and it is converted like the bare token; anything else, the
   empty text and a whole token included, comes back unchanged.
   */
  lemma UriConversion(utf8: Cbor.Decoder, json: Json, scheme: string, tail: string)
    requires scheme == "cashu:" || scheme == "cashu://" || scheme == "web+cashu://"
    ensures var rest := Behind(scheme, tail);
            EnsureV3(utf8, json, scheme + tail) ==
            if rest != "" && rest[0] == 'B' then EnsureV3(utf8, json, "cashu" + rest) else Unchanged
  {
    var rest := Behind(scheme, tail);
    SchemeStripped(scheme, tail);
    if rest != "" && rest[0] == 'B' {
      BareStripped(rest);
    } else {
    }
  }

  // ---- value -------------------------------------------------------------------------------------

  function Total(proofs: seq<Proof>): int {
    if proofs == [] then 0 else proofs[0].amount + Total(proofs[1..])
  }

  function KeysetTotal(ps: seq<KeysetProof>): int {
    if ps == [] then 0 else ps[0].amount + KeysetTotal(ps[1..])
  }

  function TemplateTotal(ks: seq<Keyset>): int {
    if ks == [] then 0 else KeysetTotal(ks[0].proofs) + TemplateTotal(ks[1..])
  }

  lemma {:induction false} TotalConcat(a: seq<Proof>, b: seq<Proof>)
    ensures Total(a + b) == Total(a) + Total(b)
  {
    if a == [] {
      assert a + b == b;
    } else {
      assert (a + b)[1..] == a[1..] + b;
      TotalConcat(a[1..], b);
    }
  }

  lemma {:induction false} ProofsOfTotal(k: Keyset)
    ensures Total(ProofsOf(k)) == KeysetTotal(k.proofs)
    decreases |k.proofs|
  {
    if k.proofs != [] {
      var rest := Keyset(k.id, k.proofs[1..]);
      assert ProofsOf(k)[1..] == ProofsOf(rest);
      ProofsOfTotal(rest);
    }
  }

  /** No keyset's value is lost or counted twice. */
  lemma {:induction false} AmountConserved(ks: seq<Keyset>)
    ensures Total(AllProofs(ks)) == TemplateTotal(ks)
  {
    if ks != [] {
      TotalConcat(ProofsOf(ks[0]), AllProofs(ks[1..]));
      ProofsOfTotal(ks[0]);
      AmountConserved(ks[1..]);
    }
  }

  // ---- tokens as wallets write them ----------------------------------------------------------------

  /** base64url of the bytes of a wire tree, whatever head widths and key order it uses, is decoded to its template. */
  lemma WireTokenDecoded(utf8: Cbor.Decoder, item: Cbor.Item, t: Template)
    requires Cbor.WellFormed(item) && AsTemplate(Cbor.Meaning(utf8, item)) == Some(t)
    ensures DecodeV4(utf8, Base64.ToUrl(Base64.Btoa(Cbor.Wire(item)))) == Decoded(TokenOf(t))
  {
    var bytes := Cbor.Wire(item);
    Base64.DecodeEncoded(bytes);
    assert bytes[0..0 + |bytes|] == bytes;
    Cbor.ReadWire(utf8, bytes, 0, item);
  }

  /** End to end: the wire token becomes V3 text for the same token, with the same total. */
  lemma WireTokenConverted(utf8: Cbor.Decoder, json: Json, item: Cbor.Item, t: Template)
    requires Lawful(json) && Cbor.WellFormed(item) && AsTemplate(Cbor.Meaning(utf8, item)) == Some(t)
    requires TokenLatin1(TokenOf(t))
    ensures var r := EnsureV3(utf8, json, "cashu" + (['B'] + Base64.ToUrl(Base64.Btoa(Cbor.Wire(item)))));
            r.Converted? && StartsWith(r.text, "cashuA")
            && DecodeV3(json, r.text[6..]) == Some(TokenOf(t))
            && Total(DecodeV3(json, r.text[6..]).value.proofs) == TemplateTotal(t.keysets)
  {
    WireTokenDecoded(utf8, item, t);
    ConversionKeepsToken(utf8, json, Base64.ToUrl(Base64.Btoa(Cbor.Wire(item))));
    AmountConserved(t.keysets);
  }

  // the wallet format: text still as bytes
  datatype WireProof = WireProof(amount: nat, secret: seq<Byte>, c: seq<Byte>)
  datatype WireKeyset = WireKeyset(id: seq<Byte>, proofs: seq<WireProof>)
  datatype WireToken = WireToken(mint: seq<Byte>, unit: seq<Byte>, keysets: seq<WireKeyset>, memo: Option<seq<Byte>>)

  function Narrowest(n: nat): Cbor.Width {
    if n < 24 then Cbor.Inline else if n < 0x100 then Cbor.One else if n < 0x1_0000 then Cbor.Two else Cbor.Four
  }

  function KeyItem(c: char): Cbor.Item
    requires c as int < 0x100
  {
    Cbor.WText(Cbor.Inline, [c as int])
  }

  function TextItem(b: seq<Byte>): Cbor.Item { Cbor.WText(Narrowest(|b|), b) }

  function BytesItem(b: seq<Byte>): Cbor.Item { Cbor.WBytes(Narrowest(|b|), b) }

  /** A map whose keys are single characters, written in the given order. */
  function Fields(keys: string, items: seq<Cbor.Item>): (r: seq<Cbor.Item>)
    requires Latin1(keys) && |keys| == |items|
    ensures |r| == 2 * |items|
  {
    if keys == "" then [] else
      var n := |keys| - 1;
      Fields(keys[..n], items[..n]) + [KeyItem(keys[n]), items[n]]
  }

  function Record(keys: string, items: seq<Cbor.Item>): Cbor.Item
    requires Latin1(keys) && |keys| == |items|
  {
    Cbor.WMap(Cbor.Inline, Fields(keys, items))
  }

  // field names in the order wallets write them
  const PROOF_KEYS := "asc"
  const KEYSET_KEYS := "ip"
  const TOKEN_KEYS := "mut"
  const MEMO_KEYS := "mutd"

  function ProofItem(p: WireProof): Cbor.Item {
    Record(PROOF_KEYS, [Cbor.WUint(Narrowest(p.amount), p.amount), TextItem(p.secret), BytesItem(p.c)])
  }

  function ProofItems(ps: seq<WireProof>): (r: seq<Cbor.Item>)
    ensures |r| == |ps|
  {
    if ps == [] then [] else [ProofItem(ps[0])] + ProofItems(ps[1..])
  }

  function KeysetItem(k: WireKeyset): Cbor.Item {
    Record(KEYSET_KEYS, [BytesItem(k.id), ListItem(ProofItems(k.proofs))])
  }

  function KeysetItems(ks: seq<WireKeyset>): (r: seq<Cbor.Item>)
    ensures |r| == |ks|
  {
    if ks == [] then [] else [KeysetItem(ks[0])] + KeysetItems(ks[1..])
  }

  function TokenFields(t: WireToken): (r: seq<Cbor.Item>)
    ensures |r| == 3
  {
    [TextItem(t.mint), TextItem(t.unit), ListItem(KeysetItems(t.keysets))]
  }

  function TokenItem(t: WireToken): Cbor.Item {
    if t.memo.Some? then Record(MEMO_KEYS, TokenFields(t) + [TextItem(t.memo.value)]) else Record(TOKEN_KEYS, TokenFields(t))
  }

  /** Single ASCII characters decode to themselves, as UTF-8 has it. */
  ghost predicate ReadsAscii(utf8: Cbor.Decoder) {
    forall c: char :: c as int < 0x80 ==> utf8([c as int]) == [c]
  }

  function ReadProofs(utf8: Cbor.Decoder, ps: seq<WireProof>): (r: seq<KeysetProof>)
    ensures |r| == |ps|
  {
    if ps == [] then [] else [KeysetProof(ps[0].amount, utf8(ps[0].secret), ps[0].c)] + ReadProofs(utf8, ps[1..])
  }

  function ReadKeysets(utf8: Cbor.Decoder, ks: seq<WireKeyset>): (r: seq<Keyset>)
    ensures |r| == |ks|
  {
    if ks == [] then [] else [Keyset(ks[0].id, ReadProofs(utf8, ks[0].proofs))] + ReadKeysets(utf8, ks[1..])
  }

  function ReadToken(utf8: Cbor.Decoder, t: WireToken): Template {
    Template(utf8(t.mint), utf8(t.unit), ReadKeysets(utf8, t.keysets), if t.memo.Some? then utf8(t.memo.value) else "")
  }

  ghost predicate Sized(n: nat) { n < 0x1_0000_0000 }

  ghost predicate ProofsFit(ps: seq<WireProof>) {
    Sized(|ps|) && forall p :: p in ps ==> Sized(p.amount) && Sized(|p.secret|) && Sized(|p.c|)
  }

  /** Every amount and every length fits the 32-bit heads. */
  ghost predicate TokenFits(t: WireToken) {
    && Sized(|t.mint|) && Sized(|t.unit|) && Sized(|t.keysets|)
    && (t.memo.Some? ==> Sized(|t.memo.value|))
    && forall k :: k in t.keysets ==> Sized(|k.id|) && ProofsFit(k.proofs)
  }

  ghost predicate AsciiKeys(keys: string) {
    && (forall i :: 0 <= i < |keys| ==> keys[i] as int < 0x80)
    && (forall i, j :: 0 <= i < j < |keys| ==> keys[i] != keys[j])
  }

  function EntriesOf(utf8: Cbor.Decoder, keys: string, items: seq<Cbor.Item>): (r: Entries)
    requires |keys| == |items|
    ensures |r| == |keys|
  {
    seq(|keys|, i requires 0 <= i < |keys| => Entry([keys[i]], Cbor.Meaning(utf8, items[i])))
  }

  lemma {:induction false} MeaningsAppend(utf8: Cbor.Decoder, a: seq<Cbor.Item>, b: seq<Cbor.Item>)
    ensures Cbor.Meanings(utf8, a + b) == Cbor.Meanings(utf8, a) + Cbor.Meanings(utf8, b)
  {
    if a == [] {
      assert a + b == b;
    } else {
      assert (a + b)[1..] == a[1..] + b;
      MeaningsAppend(utf8, a[1..], b);
    }
  }

  /** One more key and value behind fields already read. */
  lemma RecordStep(before: seq<Cbor.Value>, n: nat, entries: Entries, k: char, v: Cbor.Value)
    requires |before| == 2 * n && Cbor.Properties(before, []) == entries && Fresh(entries, [k])
    ensures Cbor.Properties(before + [Cbor.Text([k]), v], []) == entries + [Entry([k], v)]
  {
    Cbor.PropertiesAppend(before, n, Cbor.Text([k]), v, []);
    AssignFresh(entries, [k], v);
  }

  lemma FieldsMeaning(utf8: Cbor.Decoder, keys: string, items: seq<Cbor.Item>, n: nat)
    requires ReadsAscii(utf8) && AsciiKeys(keys) && |keys| == |items| == n + 1
    ensures Cbor.Meanings(utf8, Fields(keys, items)) ==
            Cbor.Meanings(utf8, Fields(keys[..n], items[..n])) + [Cbor.Text([keys[n]]), Cbor.Meaning(utf8, items[n])]
  {
    MeaningsAppend(utf8, Fields(keys[..n], items[..n]), [KeyItem(keys[n]), items[n]]);
  }

  /** A record is read back as an object with exactly its fields, in order. */
  lemma {:induction false} RecordMeaning(utf8: Cbor.Decoder, keys: string, items: seq<Cbor.Item>)
    requires ReadsAscii(utf8) && AsciiKeys(keys) && |keys| == |items|
    ensures Cbor.Properties(Cbor.Meanings(utf8, Fields(keys, items)), []) == EntriesOf(utf8, keys, items)
    decreases |keys|
  {
    if keys == "" {
    } else {
      var n := |keys| - 1;
      var v, entries := Cbor.Meaning(utf8, items[n]), EntriesOf(utf8, keys[..n], items[..n]);
      RecordMeaning(utf8, keys[..n], items[..n]);
      FieldsMeaning(utf8, keys, items, n);
      RecordStep(Cbor.Meanings(utf8, Fields(keys[..n], items[..n])), n, entries, keys[n], v);
      assert EntriesOf(utf8, keys, items) == entries + [Entry([keys[n]], v)];
    }
  }

  lemma {:induction false} FieldsWellFormed(keys: string, items: seq<Cbor.Item>)
    requires Latin1(keys) && |keys| == |items| && Cbor.AllWellFormed(items)
    ensures Cbor.AllWellFormed(Fields(keys, items))
    decreases |keys|
  {
    if keys != "" {
      var n := |keys| - 1;
      FieldsWellFormed(keys[..n], items[..n]);
    }
  }

  /** What a record of at most 23 fields is read back as. */
  lemma RecordReadable(utf8: Cbor.Decoder, keys: string, items: seq<Cbor.Item>)
    requires ReadsAscii(utf8) && AsciiKeys(keys) && |keys| == |items| < 24 && Cbor.AllWellFormed(items)
    ensures Cbor.WellFormed(Record(keys, items))
    ensures Cbor.Meaning(utf8, Record(keys, items)) == Cbor.Object(EntriesOf(utf8, keys, items))
  {
    FieldsWellFormed(keys, items);
    RecordMeaning(utf8, keys, items);
  }

  lemma FieldAt(utf8: Cbor.Decoder, keys: string, items: seq<Cbor.Item>, i: nat, name: string)
    requires AsciiKeys(keys) && |keys| == |items| && i < |keys| && name == [keys[i]]
    ensures Lookup(EntriesOf(utf8, keys, items), name) == Some(Cbor.Meaning(utf8, items[i]))
  {
    LookupAt(EntriesOf(utf8, keys, items), i);
  }

  lemma NoField(utf8: Cbor.Decoder, keys: string, items: seq<Cbor.Item>, name: string)
    requires |keys| == |items| && |name| == 1 && name[0] !in keys
    ensures Lookup(EntriesOf(utf8, keys, items), name).None?
  {
    LookupFresh(EntriesOf(utf8, keys, items), name);
  }

  lemma ProofReadable(utf8: Cbor.Decoder, p: WireProof)
    requires ReadsAscii(utf8) && Sized(p.amount) && Sized(|p.secret|) && Sized(|p.c|)
    ensures Cbor.WellFormed(ProofItem(p))
    ensures AsProof(Cbor.Meaning(utf8, ProofItem(p))) == Some(KeysetProof(p.amount, utf8(p.secret), p.c))
  {
    var items := [Cbor.WUint(Narrowest(p.amount), p.amount), TextItem(p.secret), BytesItem(p.c)];
    RecordReadable(utf8, PROOF_KEYS, items);
    FieldAt(utf8, PROOF_KEYS, items, 0, "a");
    FieldAt(utf8, PROOF_KEYS, items, 1, "s");
    FieldAt(utf8, PROOF_KEYS, items, 2, "c");
  }

  lemma {:induction false} ProofsReadable(utf8: Cbor.Decoder, ps: seq<WireProof>)
    requires ReadsAscii(utf8) && forall p :: p in ps ==> Sized(p.amount) && Sized(|p.secret|) && Sized(|p.c|)
    ensures Cbor.AllWellFormed(ProofItems(ps))
    ensures AsProofs(Cbor.Meanings(utf8, ProofItems(ps))) == Some(ReadProofs(utf8, ps))
  {
    if ps != [] {
      ProofReadable(utf8, ps[0]);
      ProofsReadable(utf8, ps[1..]);
      var items, ms := ProofItems(ps), Cbor.Meanings(utf8, ProofItems(ps));
      assert items[1..] == ProofItems(ps[1..]);
      assert ms[0] == Cbor.Meaning(utf8, ProofItem(ps[0])) && ms[1..] == Cbor.Meanings(utf8, ProofItems(ps[1..]));
    }
  }

  function ListItem(items: seq<Cbor.Item>): Cbor.Item { Cbor.WArray(Narrowest(|items|), items) }

  lemma {:induction false} KeysetReadable(utf8: Cbor.Decoder, k: WireKeyset)
    requires ReadsAscii(utf8) && Sized(|k.id|) && ProofsFit(k.proofs)
    ensures Cbor.WellFormed(KeysetItem(k))
    ensures AsKeyset(Cbor.Meaning(utf8, KeysetItem(k))) == Some(Keyset(k.id, ReadProofs(utf8, k.proofs)))
  {
    var id, list := BytesItem(k.id), ListItem(ProofItems(k.proofs));
    ProofsReadable(utf8, k.proofs);
    KeysetEntries(utf8, id, list);
  }

  lemma KeysetEntries(utf8: Cbor.Decoder, id: Cbor.Item, list: Cbor.Item)
    requires ReadsAscii(utf8) && Cbor.WellFormed(id) && Cbor.WellFormed(list)
    ensures Cbor.WellFormed(Record(KEYSET_KEYS, [id, list]))
    ensures var es := EntriesOf(utf8, KEYSET_KEYS, [id, list]);
            && Cbor.Meaning(utf8, Record(KEYSET_KEYS, [id, list])) == Cbor.Object(es)
            && Lookup(es, "i") == Some(Cbor.Meaning(utf8, id)) && Lookup(es, "p") == Some(Cbor.Meaning(utf8, list))
  {
    RecordReadable(utf8, KEYSET_KEYS, [id, list]);
    FieldAt(utf8, KEYSET_KEYS, [id, list], 0, "i");
    FieldAt(utf8, KEYSET_KEYS, [id, list], 1, "p");
  }

  lemma {:induction false} KeysetsReadable(utf8: Cbor.Decoder, ks: seq<WireKeyset>)
    requires ReadsAscii(utf8) && forall k :: k in ks ==> Sized(|k.id|) && ProofsFit(k.proofs)
    ensures Cbor.AllWellFormed(KeysetItems(ks))
    ensures AsKeysets(Cbor.Meanings(utf8, KeysetItems(ks))) == Some(ReadKeysets(utf8, ks))
  {
    if ks != [] {
      KeysetReadable(utf8, ks[0]);
      KeysetsReadable(utf8, ks[1..]);
      var items, ms := KeysetItems(ks), Cbor.Meanings(utf8, KeysetItems(ks));
      assert items[1..] == KeysetItems(ks[1..]);
      assert ms[0] == Cbor.Meaning(utf8, KeysetItem(ks[0])) && ms[1..] == Cbor.Meanings(utf8, KeysetItems(ks[1..]));
    }
  }

  lemma TokenFieldsReadable(utf8: Cbor.Decoder, t: WireToken, keys: string, items: seq<Cbor.Item>)
    requires ReadsAscii(utf8) && TokenFits(t) && AsciiKeys(keys) && 3 <= |keys| == |items| < 24
    requires keys[..3] == TOKEN_KEYS && items[..3] == TokenFields(t)
    ensures var es := EntriesOf(utf8, keys, items);
            TextAt(es, "m") == Some(utf8(t.mint)) && OptionalText(es, "u") == Some(utf8(t.unit))
            && ArrayAt(es, "t") == Some(Cbor.Meanings(utf8, KeysetItems(t.keysets)))
  {
    assert items[0] == items[..3][0] && items[1] == items[..3][1] && items[2] == items[..3][2];
    assert keys[0] == keys[..3][0] && keys[1] == keys[..3][1] && keys[2] == keys[..3][2];
    KeysetsReadable(utf8, t.keysets);
    FieldAt(utf8, keys, items, 0, "m");
    FieldAt(utf8, keys, items, 1, "u");
    FieldAt(utf8, keys, items, 2, "t");
  }

  lemma TokenFieldsWellFormed(utf8: Cbor.Decoder, t: WireToken)
    requires ReadsAscii(utf8) && TokenFits(t)
    ensures Cbor.AllWellFormed(TokenFields(t))
  {
    KeysetsReadable(utf8, t.keysets);
    ThreeWellFormed(TextItem(t.mint), TextItem(t.unit), ListItem(KeysetItems(t.keysets)));
  }

  lemma ThreeWellFormed(a: Cbor.Item, b: Cbor.Item, c: Cbor.Item)
    requires Cbor.WellFormed(a) && Cbor.WellFormed(b) && Cbor.WellFormed(c)
    ensures Cbor.AllWellFormed([a, b, c])
  {
  }

  lemma TokenEntries(utf8: Cbor.Decoder, t: WireToken, keys: string, items: seq<Cbor.Item>)
    requires ReadsAscii(utf8) && TokenFits(t) && AsciiKeys(keys) && 3 <= |keys| == |items| < 24
    requires keys[..3] == TOKEN_KEYS && items[..3] == TokenFields(t) && Cbor.AllWellFormed(items)
    requires OptionalText(EntriesOf(utf8, keys, items), "d") == Some(if t.memo.Some? then utf8(t.memo.value) else "")
    ensures Cbor.WellFormed(Record(keys, items))
    ensures AsTemplate(Cbor.Meaning(utf8, Record(keys, items))) == Some(ReadToken(utf8, t))
  {
    RecordReadable(utf8, keys, items);
    KeysetsReadable(utf8, t.keysets);
    TokenFieldsReadable(utf8, t, keys, items);
  }

  /** A token in the wallet format is read as itself, whatever its text, keysets and amounts below 2^32. */
  lemma TokenReadable(utf8: Cbor.Decoder, t: WireToken)
    requires ReadsAscii(utf8) && TokenFits(t)
    ensures Cbor.WellFormed(TokenItem(t))
    ensures AsTemplate(Cbor.Meaning(utf8, TokenItem(t))) == Some(ReadToken(utf8, t))
  {
    var items := TokenFields(t);
    TokenFieldsWellFormed(utf8, t);
    if t.memo.Some? {
      items := items + [TextItem(t.memo.value)];
      FieldAt(utf8, MEMO_KEYS, items, 3, "d");
      TokenEntries(utf8, t, MEMO_KEYS, items);
    } else {
      NoField(utf8, TOKEN_KEYS, items, "d");
      TokenEntries(utf8, t, TOKEN_KEYS, items);
    }
  }

  /** How many proofs stand in the first n keysets. */
  function ProofsBefore(ks: seq<WireKeyset>, n: nat): nat
    requires n <= |ks|
  {
    if n == 0 then 0 else |ks[0].proofs| + ProofsBefore(ks[1..], n - 1)
  }

  /** A V3 proof that says what a wallet's proof says: the amount, the secret's text, and id and C digit by digit. */
  ghost predicate SameProof(utf8: Cbor.Decoder, id: seq<Byte>, p: WireProof, q: Proof) {
    q.amount == p.amount && q.secret == utf8(p.secret) && SpellsBytes(q.id, id) && SpellsBytes(q.C, p.c)
  }

  ghost predicate StandsAt(utf8: Cbor.Decoder, ks: seq<WireKeyset>, proofs: seq<Proof>, i: nat, j: nat)
    requires i < |ks| && j < |ks[i].proofs|
  {
    ProofsBefore(ks, i) + j < |proofs| && SameProof(utf8, ks[i].id, ks[i].proofs[j], proofs[ProofsBefore(ks, i) + j])
  }

  /** Every proof of every keyset, at its place: behind those of the earlier keysets, in order; and no more. */
  ghost predicate SameProofs(utf8: Cbor.Decoder, ks: seq<WireKeyset>, proofs: seq<Proof>) {
    && |proofs| == ProofsBefore(ks, |ks|)
    && forall i: nat, j: nat {:trigger StandsAt(utf8, ks, proofs, i, j)} :: i < |ks| && j < |ks[i].proofs| ==> StandsAt(utf8, ks, proofs, i, j)
  }

  lemma {:induction false} ReadProofAt(utf8: Cbor.Decoder, ps: seq<WireProof>, j: nat)
    requires j < |ps|
    ensures ReadProofs(utf8, ps)[j] == KeysetProof(ps[j].amount, utf8(ps[j].secret), ps[j].c)
  {
    if j > 0 { ReadProofAt(utf8, ps[1..], j - 1); }
  }

  lemma KeysetStands(utf8: Cbor.Decoder, k: WireKeyset, j: nat)
    requires j < |k.proofs|
    ensures SameProof(utf8, k.id, k.proofs[j], ProofsOf(Keyset(k.id, ReadProofs(utf8, k.proofs)))[j])
  {
    ReadProofAt(utf8, k.proofs, j);
    ProofSays(Keyset(k.id, ReadProofs(utf8, k.proofs)), j);
  }

  lemma {:induction false} AllProofsLength(utf8: Cbor.Decoder, ks: seq<WireKeyset>)
    ensures |AllProofs(ReadKeysets(utf8, ks))| == ProofsBefore(ks, |ks|)
  {
    if ks != [] { AllProofsLength(utf8, ks[1..]); }
  }

  function ProofRead(utf8: Cbor.Decoder, k: WireKeyset, j: nat): Proof
    requires j < |k.proofs|
  {
    ProofsOf(Keyset(k.id, ReadProofs(utf8, k.proofs)))[j]
  }

  lemma InFront(a: seq<Proof>, b: seq<Proof>, i: nat)
    requires i < |a|
    ensures i < |a + b| && (a + b)[i] == a[i]
  {
  }

  lemma Behindhand(a: seq<Proof>, b: seq<Proof>, n: nat, i: nat)
    requires n == |a| && i < |b|
    ensures n + i < |a + b| && (a + b)[n + i] == b[i]
  {
  }

  lemma {:induction false} PlaceOf(utf8: Cbor.Decoder, ks: seq<WireKeyset>, i: nat, j: nat, all: seq<Proof>)
    requires i < |ks| && j < |ks[i].proofs| && all == AllProofs(ReadKeysets(utf8, ks))
    ensures ProofsBefore(ks, i) + j < |all| && all[ProofsBefore(ks, i) + j] == ProofRead(utf8, ks[i], j)
    decreases i
  {
    var rest := AllProofs(ReadKeysets(utf8, ks[1..]));
    FirstThenRest(utf8, ks);
    if i == 0 {
      PlaceFirst(utf8, ks[0], j, rest);
    } else {
      PlaceOf(utf8, ks[1..], i - 1, j, rest);
      PlaceLater(utf8, ks, i, j, ProofsOf(Keyset(ks[0].id, ReadProofs(utf8, ks[0].proofs))), rest);
    }
  }

  lemma PlaceFirst(utf8: Cbor.Decoder, k: WireKeyset, j: nat, rest: seq<Proof>)
    requires j < |k.proofs|
    ensures var all := ProofsOf(Keyset(k.id, ReadProofs(utf8, k.proofs))) + rest; j < |all| && all[j] == ProofRead(utf8, k, j)
  {
    InFront(ProofsOf(Keyset(k.id, ReadProofs(utf8, k.proofs))), rest, j);
  }

  lemma {:induction false} PlaceLater(utf8: Cbor.Decoder, ks: seq<WireKeyset>, i: nat, j: nat, first: seq<Proof>, rest: seq<Proof>)
    requires 0 < i < |ks| && j < |ks[i].proofs| && |first| == |ks[0].proofs|
    requires ProofsBefore(ks[1..], i - 1) + j < |rest|
    requires rest[ProofsBefore(ks[1..], i - 1) + j] == ProofRead(utf8, ks[1..][i - 1], j)
    ensures ProofsBefore(ks, i) + j < |first + rest| && (first + rest)[ProofsBefore(ks, i) + j] == ProofRead(utf8, ks[i], j)
  {
    Behindhand(first, rest, |ks[0].proofs|, ProofsBefore(ks[1..], i - 1) + j);
  }

  lemma {:induction false} FirstThenRest(utf8: Cbor.Decoder, ks: seq<WireKeyset>)
    requires ks != []
    ensures AllProofs(ReadKeysets(utf8, ks)) == ProofsOf(Keyset(ks[0].id, ReadProofs(utf8, ks[0].proofs))) + AllProofs(ReadKeysets(utf8, ks[1..]))
    ensures |ProofsOf(Keyset(ks[0].id, ReadProofs(utf8, ks[0].proofs)))| == |ks[0].proofs|
  {
  }

  lemma ProofStands(utf8: Cbor.Decoder, ks: seq<WireKeyset>, i: nat, j: nat)
    requires i < |ks| && j < |ks[i].proofs|
    ensures StandsAt(utf8, ks, AllProofs(ReadKeysets(utf8, ks)), i, j)
  {
    PlaceOf(utf8, ks, i, j, AllProofs(ReadKeysets(utf8, ks)));
    KeysetStands(utf8, ks[i], j);
  }

  lemma {:induction false} ProofsStand(utf8: Cbor.Decoder, ks: seq<WireKeyset>)
    ensures SameProofs(utf8, ks, AllProofs(ReadKeysets(utf8, ks)))
  {
    AllProofsLength(utf8, ks);
    forall i: nat, j: nat | i < |ks| && j < |ks[i].proofs| ensures StandsAt(utf8, ks, AllProofs(ReadKeysets(utf8, ks)), i, j) {
      ProofStands(utf8, ks, i, j);
    }
  }

  /**
   Hence converting a wallet's token gives the V3 text of a payload that says what the token says: mint, unit
   and memo, and every proof at its place with its amount, its secret, and its id and C digit by digit.
   */
  lemma WalletTokenConverted(utf8: Cbor.Decoder, json: Json, t: WireToken) returns (p: V3Payload)
    requires Lawful(json) && ReadsAscii(utf8) && TokenFits(t) && TokenLatin1(TokenOf(ReadToken(utf8, t)))
    ensures Cbor.WellFormed(TokenItem(t))
    ensures var r := EnsureV3(utf8, json, "cashu" + (['B'] + Base64.ToUrl(Base64.Btoa(Cbor.Wire(TokenItem(t))))));
            && Latin1(json.stringify(p)) && r == Converted("cashuA" + Base64.ToUrl(Base64.Btoa(Codes(json.stringify(p)))))
            && DecodeV3(json, r.text[6..]) == Some(TokenOf(ReadToken(utf8, t)))
            && Total(DecodeV3(json, r.text[6..]).value.proofs) == TemplateTotal(ReadKeysets(utf8, t.keysets))
    ensures |p.token| == 1 && p.token[0].mint == utf8(t.mint) && p.mint == utf8(t.mint)
    ensures p.unit == (if utf8(t.unit) == "" then "sat" else utf8(t.unit)) && p.memo == (if t.memo.Some? then utf8(t.memo.value) else "")
    ensures SameProofs(utf8, t.keysets, p.token[0].proofs)
  {
    p := PayloadOf(TokenOf(ReadToken(utf8, t)));
    TokenReadable(utf8, t);
    var payload := Base64.ToUrl(Base64.Btoa(Cbor.Wire(TokenItem(t))));
    WireTokenConverted(utf8, json, TokenItem(t), ReadToken(utf8, t));
    WireTokenDecoded(utf8, TokenItem(t), ReadToken(utf8, t));
    ProofsStand(utf8, t.keysets);
    EncodedAs(utf8, json, payload, TokenOf(ReadToken(utf8, t)));
  }

  lemma EncodedAs(utf8: Cbor.Decoder, json: Json, payload: string, t: DecodedToken)
    requires DecodeV4(utf8, payload) == Decoded(t) && EnsureV3(utf8, json, "cashu" + (['B'] + payload)).Converted?
    ensures Latin1(json.stringify(PayloadOf(t)))
    ensures EnsureV3(utf8, json, "cashu" + (['B'] + payload)) == Converted("cashuA" + Base64.ToUrl(Base64.Btoa(Codes(json.stringify(PayloadOf(t))))))
  {
    BareStripped(['B'] + payload);
    assert (['B'] + payload)[1..] == payload;
  }

  /** A text that is not a cashu token, or whose payload is damaged, comes back as it was. */
  lemma ForeignUntouched(utf8: Cbor.Decoder, json: Json, token: string)
    requires !("cashu" <= token) && !("web+cashu://" <= token)
    ensures EnsureV3(utf8, json, token) == Unchanged
  {
    var long, longer := "cashu:", "cashu://";
    NoLongerPrefix("cashu", long, token);
    NoLongerPrefix("cashu", longer, token);
  }

  lemma NoLongerPrefix(a: string, b: string, s: string)
    requires a <= b && !(a <= s)
    ensures !(b <= s)
  {
    if |a| <= |s| {
      var i :| 0 <= i < |a| && a[i] != s[i];
      assert b[i] == a[i];
    }
  }

  lemma DamagedUntouched(utf8: Cbor.Decoder, json: Json, payload: string)
    requires Base64.Atob(Base64.Padded(Base64.FromUrl(payload))).None?
             || Cbor.Read(utf8, Base64.Atob(Base64.Padded(Base64.FromUrl(payload))).value, 0).Err?
    ensures EnsureV3(utf8, json, "cashu" + (['B'] + payload)) == Unchanged
  {
    BareStripped(['B'] + payload);
    assert (['B'] + payload)[1..] == payload;
  }

  /** A wallet's token with text outside Latin-1 comes back as it was. */
  lemma WalletTokenKept(utf8: Cbor.Decoder, json: Json, t: WireToken)
    requires Lawful(json) && ReadsAscii(utf8) && TokenFits(t) && !TokenLatin1(TokenOf(ReadToken(utf8, t)))
    ensures Cbor.WellFormed(TokenItem(t))
    ensures EnsureV3(utf8, json, "cashu" + (['B'] + Base64.ToUrl(Base64.Btoa(Cbor.Wire(TokenItem(t)))))) == Unchanged
  {
    TokenReadable(utf8, t);
    WireTokenDecoded(utf8, TokenItem(t), ReadToken(utf8, t));
    ConversionKeepsToken(utf8, json, Base64.ToUrl(Base64.Btoa(Cbor.Wire(TokenItem(t)))));
  }

  /** There are such tokens for every decoder that ever reads text outside Latin-1: that text as the mint, and nothing else. */
  lemma NonLatinTokenKept(utf8: Cbor.Decoder, json: Json, mint: seq<Byte>)
    requires Lawful(json) && ReadsAscii(utf8) && Sized(|mint|) && !Latin1(utf8(mint))
    ensures var t := WireToken(mint, [], [], None);
            && Cbor.WellFormed(TokenItem(t))
            && EnsureV3(utf8, json, "cashu" + (['B'] + Base64.ToUrl(Base64.Btoa(Cbor.Wire(TokenItem(t)))))) == Unchanged
  {
    WalletTokenKept(utf8, json, WireToken(mint, [], [], None));
  }
}
