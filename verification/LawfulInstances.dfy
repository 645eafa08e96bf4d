/**
 What TokenConverter asks of JSON and MockMint of the curve can be met: a printer that writes lengths and tags in
 unary, with its inverse, and addition modulo 2.
 */
module LawfulInstances {
  import opened Prelude
  import opened TokenConverter
  import Mint = MockMint

  // ---- a lawful printer ---------------------------------------------------------------

  /** A number in unary, then `rest`; what follows is written behind it in one go. */
  function PutNat(n: nat, rest: string): string {
    if n == 0 then "0" + rest else "1" + PutNat(n - 1, rest)
  }

  function PutInt(n: int, rest: string): string { if n < 0 then "-" + PutNat(-n, rest) else "+" + PutNat(n, rest) }

  function PutText(s: string, rest: string): string { PutNat(|s|, s + rest) }

  function PutProof(p: Proof, rest: string): string {
    PutText(p.id, PutInt(p.amount, PutText(p.secret, PutText(p.C, rest))))
  }

  function PutProofs(ps: seq<Proof>, rest: string): string
    decreases |ps|
  {
    if ps == [] then "0" + rest else "1" + PutProof(ps[0], PutProofs(ps[1..], rest))
  }

  function PutEntries(es: seq<V3Entry>, rest: string): string
    decreases |es|
  {
    if es == [] then "0" + rest else "1" + PutText(es[0].mint, PutProofs(es[0].proofs, PutEntries(es[1..], rest)))
  }

  function Print(p: V3Payload): string { PutEntries(p.token, PutText(p.unit, PutText(p.mint, PutText(p.memo, "")))) }

  /** The payload a text was printed from, if it was. */
  ghost function Parse(s: string): Option<V3Payload> {
    if exists p :: Print(p) == s then (var p :| Print(p) == s; Some(p)) else None
  }

  lemma {:induction false} NatReads(m: nat, n: nat, x: string, y: string)
    requires PutNat(m, x) == PutNat(n, y)
    ensures m == n && x == y
  {
    Tagged(if m == 0 then x else PutNat(m - 1, x), if n == 0 then y else PutNat(n - 1, y), m == 0, n == 0);
    if m > 0 && n > 0 { NatReads(m - 1, n - 1, x, y); }
  }

  /** A tag and what is behind it. */
  lemma Tagged(x: string, y: string, a: bool, b: bool)
    requires (if a then "0" else "1") + x == (if b then "0" else "1") + y
    ensures a == b && x == y
  {
    var s, t := (if a then "0" else "1") + x, (if b then "0" else "1") + y;
    assert s[0] == t[0] && s[1..] == x && t[1..] == y;
  }

  lemma IntReads(m: int, n: int, x: string, y: string)
    requires PutInt(m, x) == PutInt(n, y)
    ensures m == n && x == y
  {
    var s, t := PutInt(m, x), PutInt(n, y);
    assert s[0] == t[0];
    assert s[1..] == PutNat(if m < 0 then -m else m, x) && t[1..] == PutNat(if n < 0 then -n else n, y);
    NatReads(if m < 0 then -m else m, if n < 0 then -n else n, x, y);
  }

  lemma {:induction false} TextReads(a: string, b: string, x: string, y: string)
    requires PutText(a, x) == PutText(b, y)
    ensures a == b && x == y
  {
    NatReads(|a|, |b|, a + x, b + y);
    assert a == (a + x)[..|a|] && b == (b + y)[..|b|] && x == (a + x)[|a|..] && y == (b + y)[|b|..];
  }

  lemma {:induction false} ProofReads(p: Proof, q: Proof, x: string, y: string)
    requires PutProof(p, x) == PutProof(q, y)
    ensures p == q && x == y
  {
    TextReads(p.id, q.id, PutInt(p.amount, PutText(p.secret, PutText(p.C, x))), PutInt(q.amount, PutText(q.secret, PutText(q.C, y))));
    IntReads(p.amount, q.amount, PutText(p.secret, PutText(p.C, x)), PutText(q.secret, PutText(q.C, y)));
    TextReads(p.secret, q.secret, PutText(p.C, x), PutText(q.C, y));
    TextReads(p.C, q.C, x, y);
  }

  lemma {:induction false} ProofsRead(ps: seq<Proof>, qs: seq<Proof>, x: string, y: string)
    requires PutProofs(ps, x) == PutProofs(qs, y)
    ensures ps == qs && x == y
    decreases |ps|
  {
    Tagged(if ps == [] then x else PutProof(ps[0], PutProofs(ps[1..], x)), if qs == [] then y else PutProof(qs[0], PutProofs(qs[1..], y)),
           ps == [], qs == []);
    if ps != [] {
      ProofReads(ps[0], qs[0], PutProofs(ps[1..], x), PutProofs(qs[1..], y));
      ProofsRead(ps[1..], qs[1..], x, y);
      assert ps == [ps[0]] + ps[1..] && qs == [qs[0]] + qs[1..];
    }
  }

  lemma {:induction false} EntriesRead(es: seq<V3Entry>, fs: seq<V3Entry>, x: string, y: string)
    requires PutEntries(es, x) == PutEntries(fs, y)
    ensures es == fs && x == y
    decreases |es|
  {
    Tagged(if es == [] then x else PutText(es[0].mint, PutProofs(es[0].proofs, PutEntries(es[1..], x))),
           if fs == [] then y else PutText(fs[0].mint, PutProofs(fs[0].proofs, PutEntries(fs[1..], y))), es == [], fs == []);
    if es != [] {
      TextReads(es[0].mint, fs[0].mint, PutProofs(es[0].proofs, PutEntries(es[1..], x)), PutProofs(fs[0].proofs, PutEntries(fs[1..], y)));
      ProofsRead(es[0].proofs, fs[0].proofs, PutEntries(es[1..], x), PutEntries(fs[1..], y));
      EntriesRead(es[1..], fs[1..], x, y);
      assert es == [es[0]] + es[1..] && fs == [fs[0]] + fs[1..];
    }
  }

  lemma {:induction false} PrintsApart(p: V3Payload, q: V3Payload)
    requires Print(p) == Print(q)
    ensures p == q
  {
    EntriesRead(p.token, q.token, PutText(p.unit, PutText(p.mint, PutText(p.memo, ""))), PutText(q.unit, PutText(q.mint, PutText(q.memo, ""))));
    TextReads(p.unit, q.unit, PutText(p.mint, PutText(p.memo, "")), PutText(q.mint, PutText(q.memo, "")));
    TextReads(p.mint, q.mint, PutText(p.memo, ""), PutText(q.memo, ""));
    TextReads(p.memo, q.memo, "", "");
  }

  // ---- Latin-1 in, Latin-1 out -----------------------------------------------------------

  lemma Latin1Behind(a: string, b: string)
    ensures Latin1(a + b) <==> Latin1(a) && Latin1(b)
  {
    forall i | 0 <= i < |a| ensures a[i] == (a + b)[i] {}
    forall i | 0 <= i < |b| ensures b[i] == (a + b)[|a| + i] {}
  }

  lemma {:induction false} NatLatin1(n: nat, rest: string)
    ensures Latin1(PutNat(n, rest)) <==> Latin1(rest)
  {
    if n == 0 { Latin1Behind("0", rest); } else { Latin1Behind("1", PutNat(n - 1, rest)); NatLatin1(n - 1, rest); }
  }

  lemma {:induction false} TextLatin1(s: string, rest: string)
    ensures Latin1(PutText(s, rest)) <==> Latin1(s) && Latin1(rest)
  {
    NatLatin1(|s|, s + rest);
    Latin1Behind(s, rest);
  }

  lemma {:induction false} ProofPrintsLatin1(p: Proof, rest: string)
    ensures Latin1(PutProof(p, rest)) <==> ProofLatin1(p) && Latin1(rest)
  {
    var c := PutText(p.C, rest);
    var secret := PutText(p.secret, c);
    TextLatin1(p.id, PutInt(p.amount, secret));
    if p.amount < 0 { Latin1Behind("-", PutNat(-p.amount, secret)); NatLatin1(-p.amount, secret); }
    else { Latin1Behind("+", PutNat(p.amount, secret)); NatLatin1(p.amount, secret); }
    TextLatin1(p.secret, c);
    TextLatin1(p.C, rest);
  }

  lemma {:induction false} ProofsPrintLatin1(ps: seq<Proof>, rest: string)
    ensures Latin1(PutProofs(ps, rest)) <==> (forall q :: q in ps ==> ProofLatin1(q)) && Latin1(rest)
    decreases |ps|
  {
    if ps == [] {
      Latin1Behind("0", rest);
    } else {
      var tail := PutProofs(ps[1..], rest);
      Latin1Behind("1", PutProof(ps[0], tail));
      ProofPrintsLatin1(ps[0], tail);
      ProofsPrintLatin1(ps[1..], rest);
      assert ps == [ps[0]] + ps[1..];
    }
  }

  ghost predicate EntryLatin1(e: V3Entry) { Latin1(e.mint) && forall q :: q in e.proofs ==> ProofLatin1(q) }

  lemma FirstAndOthers(es: seq<V3Entry>)
    requires es != []
    ensures (forall e :: e in es ==> EntryLatin1(e)) <==> EntryLatin1(es[0]) && forall e :: e in es[1..] ==> EntryLatin1(e)
  {
    assert es == [es[0]] + es[1..];
  }

  lemma {:induction false} EntriesPrintLatin1(es: seq<V3Entry>, rest: string)
    ensures Latin1(PutEntries(es, rest)) <==> (forall e :: e in es ==> EntryLatin1(e)) && Latin1(rest)
    decreases |es|
  {
    if es == [] {
      Latin1Behind("0", rest);
    } else {
      var tail := PutEntries(es[1..], rest);
      var proofs := PutProofs(es[0].proofs, tail);
      Latin1Behind("1", PutText(es[0].mint, proofs));
      TextLatin1(es[0].mint, proofs);
      ProofsPrintLatin1(es[0].proofs, tail);
      EntriesPrintLatin1(es[1..], rest);
      FirstAndOthers(es);
    }
  }

  lemma {:induction false} PrintLatin1(p: V3Payload)
    ensures Latin1(Print(p)) <==> PayloadLatin1(p)
  {
    var memo := PutText(p.memo, "");
    var mint := PutText(p.mint, memo);
    EntriesPrintLatin1(p.token, PutText(p.unit, mint));
    TextLatin1(p.unit, mint);
    TextLatin1(p.mint, memo);
    TextLatin1(p.memo, "");
    assert (forall e :: e in p.token ==> EntryLatin1(e)) <==> (forall e :: e in p.token ==> Latin1(e.mint) && forall q :: q in e.proofs ==> ProofLatin1(q));
  }

  /** TokenConverter's assumptions about JSON hold of this printer and its inverse. */
  lemma LawfulJson()
    ensures Lawful(Json(Print, Parse))
  {
    forall p ensures Parse(Print(p)) == Some(p) && (Latin1(Print(p)) <==> PayloadLatin1(p)) {
      var q := Parse(Print(p)).value;
      PrintsApart(p, q);
      PrintLatin1(p);
    }
  }

  // ---- a lawful curve --------------------------------------------------------------------

  /** The two residues modulo 2 under addition; a scalar acts by its own residue, and a text hashes to the residue of its length. */
  function Parities(): Mint.Curve<bool> {
    Mint.Curve((x: bool, y: bool) => x != y, (x: bool) => x, false, true, (k: nat, x: bool) => k % 2 == 1 && x,
               (s: string) => Some(|s| % 2 == 1), (x: bool) => if x then "1" else "0",
               (s: string) => if s == "1" then Some(true) else if s == "0" then Some(false) else None)
  }

  lemma GroupLaws(x: bool, y: bool, z: bool)
    ensures var c := Parities();
            c.add(c.add(x, y), z) == c.add(x, c.add(y, z)) && c.add(x, c.neg(x)) == c.zero && c.add(x, c.zero) == x
  {
  }

  lemma ScalarLaws(j: nat, k: nat, x: bool, y: bool)
    ensures var c := Parities();
            c.act(k, c.add(x, y)) == c.add(c.act(k, x), c.act(k, y)) && c.act(j, c.act(k, x)) == c.act(k, c.act(j, x))
  {
  }

  lemma PointReads(x: bool)
    ensures Parities().parse(Parities().hex(x)) == Some(x)
  {
    assert "1" != "0" by { assert "1"[0] != "0"[0]; }
  }

  lemma AddsUp()
    ensures Mint.Associates(Parities())
  {
    var c := Parities();
    forall x, y, z ensures c.add(c.add(x, y), z) == c.add(x, c.add(y, z)) { GroupLaws(x, y, z); }
  }

  lemma CancelsOut()
    ensures Mint.Cancels(Parities())
  {
    var c := Parities();
    forall x ensures c.add(x, c.neg(x)) == c.zero && c.add(x, c.zero) == x { GroupLaws(x, x, x); }
  }

  lemma ScalesUp()
    ensures Mint.ScalesLawfully(Parities())
  {
    var c := Parities();
    forall k, x, y ensures c.act(k, c.add(x, y)) == c.add(c.act(k, x), c.act(k, y)) { ScalarLaws(k, k, x, y); }
    forall j, k, x ensures c.act(j, c.act(k, x)) == c.act(k, c.act(j, x)) { ScalarLaws(j, k, x, x); }
  }

  lemma ReadsBack()
    ensures Mint.PointsReadBack(Parities())
  {
    var c := Parities();
    forall x ensures c.parse(c.hex(x)) == Some(x) { PointReads(x); }
  }

  /** MockMint's assumptions about the curve hold of a group that is not trivial. */
  lemma LawfulCurve()
    ensures Mint.Lawful(Parities()) && Parities().base != Parities().zero
  {
    AddsUp();
    CancelsOut();
    ScalesUp();
    ReadsBack();
  }
}
