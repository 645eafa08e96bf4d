/** Small shared pieces: options, results, decimal text and insertion-ordered dictionaries. */
module Prelude {

  datatype Option<+T> = None | Some(value: T)

  type Byte = b: int | 0 <= b < 256

  predicate StartsWith(s: string, prefix: string) { prefix <= s }

  /** No element twice. */
  ghost predicate Distinct<T>(s: seq<T>) {
    forall i, j :: 0 <= i < j < |s| ==> s[i] != s[j]
  }

  function Digit(d: nat): (c: char)
    requires d < 10
    ensures '0' <= c <= '9'
  {
    '0' + d as char
  }

  predicate IsDigit(c: char) { '0' <= c <= '9' }

  /** The decimal text of a nonnegative integer. */
  function Decimal(n: nat): (s: string)
    ensures |s| > 0 && forall i :: 0 <= i < |s| ==> IsDigit(s[i])
  {
    if n < 10 then [Digit(n)] else Decimal(n / 10) + [Digit(n % 10)]
  }

  function IntText(n: int): string {
    if n < 0 then "-" + Decimal(-n) else Decimal(n)
  }

  /** A number below nothing is a minus and its size. */
  lemma NegativeText(n: int)
    requires n > 0
    ensures IntText(-n) == "-" + Decimal(n) && IntText(n) == Decimal(n)
  {
  }

  /** The last digit is that of the number, the ones before it spell the tenth, and one digit is its own code. */
  lemma DecimalSpelled(n: nat)
    ensures n < 10 ==> |Decimal(n)| == 1 && Decimal(n)[0] as int == 48 + n
    ensures n >= 10 ==> Decimal(n) == Decimal(n / 10) + Decimal(n % 10)
  {
  }

  /** What a run of digits is worth. */
  function DigitsValue(s: string): nat
    requires forall i :: 0 <= i < |s| ==> IsDigit(s[i])
  {
    if s == [] then 0 else
      var last := s[|s| - 1];
      assert IsDigit(last);
      10 * DigitsValue(s[..|s| - 1]) + (last as int - '0' as int)
  }

  lemma {:induction false} DecimalValue(n: nat)
    ensures DigitsValue(Decimal(n)) == n
  {
    if n < 10 {
      assert Decimal(n)[..0] == [];
    } else {
      DecimalValue(n / 10);
      assert Decimal(n)[..|Decimal(n)| - 1] == Decimal(n / 10);
    }
  }

  lemma DecimalInjective(m: nat, n: nat)
    requires Decimal(m) == Decimal(n)
    ensures m == n
  {
    DecimalValue(m);
    DecimalValue(n);
  }

  // ---- dictionaries that keep insertion order ---------------------------------

  datatype Entry<+V> = Entry(key: string, value: V)

  /** Assigning to a key keeps its place if it has one and appends it otherwise. */
  function Assign<V>(entries: seq<Entry<V>>, key: string, value: V): (r: seq<Entry<V>>)
  {
    if entries == [] then [Entry(key, value)]
    else if entries[0].key == key then [Entry(key, value)] + entries[1..]
    else [entries[0]] + Assign(entries[1..], key, value)
  }

  function Lookup<V>(entries: seq<Entry<V>>, key: string): Option<V> {
    if entries == [] then None
    else if entries[0].key == key then Some(entries[0].value)
    else Lookup(entries[1..], key)
  }

  ghost predicate Fresh<V>(entries: seq<Entry<V>>, key: string) {
    forall i :: 0 <= i < |entries| ==> entries[i].key != key
  }

  lemma {:induction false} AssignFresh<V>(entries: seq<Entry<V>>, key: string, value: V)
    requires Fresh(entries, key)
    ensures Assign(entries, key, value) == entries + [Entry(key, value)]
  {
    if entries == [] {
    } else {
      AssignFresh(entries[1..], key, value);
      assert entries == [entries[0]] + entries[1..];
    }
  }

  ghost predicate DistinctKeys<V>(entries: seq<Entry<V>>) {
    forall i, j :: 0 <= i < j < |entries| ==> entries[i].key != entries[j].key
  }

  lemma {:induction false} LookupAt<V>(entries: seq<Entry<V>>, i: nat)
    requires DistinctKeys(entries) && i < |entries|
    ensures Lookup(entries, entries[i].key) == Some(entries[i].value)
  {
    if i > 0 { LookupAt(entries[1..], i - 1); }
  }

  lemma {:induction false} LookupFresh<V>(entries: seq<Entry<V>>, key: string)
    ensures Lookup(entries, key).None? <==> Fresh(entries, key)
  {
    if entries != [] {
      LookupFresh(entries[1..], key);
      assert entries == [entries[0]] + entries[1..];
    }
  }
}
