/**
 decodeCBOR of docs/v4-to-v3-converter.js: a recursive reader over a byte buffer and a shared
 offset, with the wire syntax it accepts (RFC 8949, section 3, the subset with heads of up to
 32 bits and definite lengths).  `utf8` stands for TextDecoder.
 */
module Cbor {
  import opened Prelude

  /** A decoded JavaScript value. */
  datatype Value =
    | Int(n: int)
    | Bytes(bytes: seq<Byte>)
    | Text(text: string)
    | Array(items: seq<Value>)
    | Object(entries: seq<Entry<Value>>)

  datatype Error = UnexpectedEnd | UnsupportedMajor | UnsupportedInfo | Indefinite | OutOfRange

  datatype Result<+T> = Ok(value: T, next: nat) | Err(error: Error)

  type Decoder = seq<Byte> -> string

  // ---- the reader, as a function of buffer and offset ---------------------------

  /** `bytes` big-endian bytes at `off`, as DataView reads them. */
  function BigEndian(data: seq<Byte>, off: nat, bytes: nat): nat
    requires off + bytes <= |data|
  {
    if bytes == 0 then 0 else 256 * BigEndian(data, off, bytes - 1) + data[off + bytes - 1]
  }

  function FixedUint(data: seq<Byte>, off: nat, bytes: nat): (r: Result<nat>)
    ensures r.Ok? ==> r.next == off + bytes <= |data|
  {
    if off + bytes <= |data| then Ok(BigEndian(data, off, bytes), off + bytes) else Err(OutOfRange)
  }

  function ReadUint(data: seq<Byte>, off: nat, info: nat): (r: Result<nat>)
    requires off <= |data|
    ensures r.Ok? ==> off <= r.next <= |data|
  {
    if info < 24 then Ok(info, off)
    else if info == 24 then FixedUint(data, off, 1)
    else if info == 25 then FixedUint(data, off, 2)
    else if info == 26 then FixedUint(data, off, 4)
    else Err(UnsupportedInfo)
  }

  /** The length of a string, array or map; 31 marks an indefinite one, which every caller refuses. */
  function ReadLength(data: seq<Byte>, off: nat, info: nat): (r: Result<nat>)
    requires off <= |data|
    ensures r.Ok? ==> off <= r.next <= |data|
  {
    if info == 31 then Err(Indefinite) else ReadUint(data, off, info)
  }

  function ReadRaw(data: seq<Byte>, off: nat, info: nat): (r: Result<seq<Byte>>)
    requires off <= |data|
    ensures r.Ok? ==> off <= r.next <= |data|
  {
    var len := ReadLength(data, off, info);
    if len.Err? then Err(len.error)
    else if len.next + len.value > |data| then Err(OutOfRange)
    else Ok(data[len.next..len.next + len.value], len.next + len.value)
  }

  /** A property key: JavaScript turns any value into a string. */
  function KeyText(v: Value): string
    decreases v, 1
  {
    match v
    case Int(n) => IntText(n)
    case Bytes(bytes) => JoinBytes(bytes)
    case Text(text) => text
    case Array(items) => JoinItems(items)
    case Object(_) => "[object Object]"
  }

  function JoinBytes(bytes: seq<Byte>): string {
    if bytes == [] then ""
    else if |bytes| == 1 then Decimal(bytes[0])
    else Decimal(bytes[0]) + "," + JoinBytes(bytes[1..])
  }

  function JoinItems(items: seq<Value>): string
    decreases items, 0
  {
    if items == [] then ""
    else if |items| == 1 then KeyText(items[0])
    else KeyText(items[0]) + "," + JoinItems(items[1..])
  }

  /** `map[key] = value` on a plain object, where `__proto__` never becomes a property of its own. */
  function SetProperty(entries: seq<Entry<Value>>, key: string, value: Value): seq<Entry<Value>> {
    if key == "__proto__" then entries else Assign(entries, key, value)
  }

  /** The keys JavaScript makes of values: numbers in decimal, text as it is, lists with commas between, objects by their kind. */
  lemma KeysSpelled(n: int, text: string, entries: seq<Entry<Value>>)
    ensures KeyText(Int(n)) == IntText(n) && KeyText(Text(text)) == text && KeyText(Object(entries)) == "[object Object]"
    ensures KeyText(Bytes([])) == "" && KeyText(Array([])) == ""
  {
  }

  lemma {:induction false} ListKeysSpelled(b: Byte, bytes: seq<Byte>, v: Value, items: seq<Value>)
    ensures KeyText(Bytes([b])) == Decimal(b) && KeyText(Array([v])) == KeyText(v)
    ensures bytes != [] ==> KeyText(Bytes([b] + bytes)) == Decimal(b) + "," + KeyText(Bytes(bytes))
    ensures items != [] ==> KeyText(Array([v] + items)) == KeyText(v) + "," + KeyText(Array(items))
  {
    assert ([b] + bytes)[1..] == bytes && ([v] + items)[1..] == items;
  }

  /** A key but `__proto__` is set, where it stands or at the end; `__proto__` is not. */
  lemma {:induction false} PropertySet(entries: seq<Entry<Value>>, key: string, value: Value)
    ensures key == "__proto__" ==> SetProperty(entries, key, value) == entries
    ensures key != "__proto__" ==>
              Lookup(SetProperty(entries, key, value), key) == Some(value)
              && |SetProperty(entries, key, value)| == if Lookup(entries, key).Some? then |entries| else |entries| + 1
  {
    if key != "__proto__" && entries != [] && entries[0].key != key { PropertySet(entries[1..], key, value); }
  }

  /** Every read that returns has moved forward inside the buffer, so decoding always ends. */
  function Read(utf8: Decoder, data: seq<Byte>, off: nat): (r: Result<Value>)
    requires off <= |data|
    ensures r.Ok? ==> off < r.next <= |data|
    decreases |data| - off, 0
  {
    if off >= |data| then Err(UnexpectedEnd) else
      var major, info := data[off] / 32, data[off] % 32;
      if major == 0 then
        var n := ReadUint(data, off + 1, info);
        if n.Ok? then Ok(Int(n.value), n.next) else Err(n.error)
      else if major == 1 then
        var n := ReadUint(data, off + 1, info);
        if n.Ok? then Ok(Int(-(n.value + 1)), n.next) else Err(n.error)
      else if major == 2 then
        var b := ReadRaw(data, off + 1, info);
        if b.Ok? then Ok(Bytes(b.value), b.next) else Err(b.error)
      else if major == 3 then
        var b := ReadRaw(data, off + 1, info);
        if b.Ok? then Ok(Text(utf8(b.value)), b.next) else Err(b.error)
      else if major == 4 then
        var len := ReadLength(data, off + 1, info);
        if len.Err? then Err(len.error) else
          var items := ReadItems(utf8, data, len.next, len.value, []);
          if items.Ok? then Ok(Array(items.value), items.next) else Err(items.error)
      else if major == 5 then
        var len := ReadLength(data, off + 1, info);
        if len.Err? then Err(len.error) else
          var flat := ReadItems(utf8, data, len.next, 2 * len.value, []);
          if flat.Ok? then Ok(Object(Properties(flat.value, [])), flat.next) else Err(flat.error)
      else Err(UnsupportedMajor)
  }

  /** `count` more values, after those in `done`. */
  function ReadItems(utf8: Decoder, data: seq<Byte>, off: nat, count: nat, done: seq<Value>): (r: Result<seq<Value>>)
    requires off <= |data|
    ensures r.Ok? ==> off <= r.next <= |data|
    decreases |data| - off, 1
  {
    if count == 0 then Ok(done, off) else
      var item := Read(utf8, data, off);
      if item.Err? then Err(item.error) else ReadItems(utf8, data, item.next, count - 1, done + [item.value])
  }

  /** Keys and values in turn, assigned from the left. */
  function Properties(flat: seq<Value>, done: seq<Entry<Value>>): seq<Entry<Value>> {
    if |flat| < 2 then done else Properties(flat[2..], SetProperty(done, KeyText(flat[0]), flat[1]))
  }

  lemma {:induction false} PropertiesAppend(flat: seq<Value>, n: nat, key: Value, value: Value, done: seq<Entry<Value>>)
    requires |flat| == 2 * n
    ensures Properties(flat + [key, value], done) == SetProperty(Properties(flat, done), KeyText(key), value)
    decreases |flat|
  {
    var longer := flat + [key, value];
    if flat == [] {
      assert longer[2..] == [];
    } else {
      assert longer[2..] == flat[2..] + [key, value];
      PropertiesAppend(flat[2..], n - 1, key, value, SetProperty(done, KeyText(flat[0]), flat[1]));
    }
  }

  lemma ReadItemsStep(utf8: Decoder, data: seq<Byte>, off: nat, n: nat, done: seq<Value>, v: Value, mid: nat)
    requires off <= |data| && n > 0 && Read(utf8, data, off) == Ok(v, mid)
    ensures ReadItems(utf8, data, off, n, done) == ReadItems(utf8, data, mid, n - 1, done + [v])
  {
  }

  lemma ReadPairStep(utf8: Decoder, data: seq<Byte>, off: nat, n: nat, done: seq<Value>, k: Value, mid: nat, v: Value, next: nat)
    requires off <= |data| && mid <= |data| && n >= 2
    requires Read(utf8, data, off) == Ok(k, mid) && Read(utf8, data, mid) == Ok(v, next)
    ensures ReadItems(utf8, data, off, n, done) == ReadItems(utf8, data, next, n - 2, done + [k, v])
  {
    ReadItemsStep(utf8, data, off, n, done, k, mid);
    ReadItemsStep(utf8, data, mid, n - 1, done + [k], v, next);
    assert done + [k] + [v] == done + [k, v];
  }

  // ---- the reader as the source runs it: one buffer, one moving offset --------------

  class Reader {
    const utf8: Decoder
    const data: seq<Byte>
    var offset: nat

    constructor (utf8: Decoder, data: seq<Byte>)
      ensures this.utf8 == utf8 && this.data == data && offset == 0
    {
      this.utf8, this.data, offset := utf8, data, 0;
    }

    method Uint(info: nat) returns (r: Result<nat>)
      requires offset <= |data|
      modifies this
      ensures r == ReadUint(data, old(offset), info)
      ensures offset == if r.Ok? then r.next else old(offset)
    {
      if info < 24 {
        r := Ok(info, offset);
      } else if info == 24 {
        r := FixedUint(data, offset, 1);
      } else if info == 25 {
        r := FixedUint(data, offset, 2);
      } else if info == 26 {
        r := FixedUint(data, offset, 4);
      } else {
        r := Err(UnsupportedInfo);
      }
      if r.Ok? {
        offset := r.next;
      }
    }

    method Length(info: nat) returns (r: Result<nat>)
      requires offset <= |data|
      modifies this
      ensures r == ReadLength(data, old(offset), info)
      ensures offset == if r.Ok? then r.next else old(offset)
    {
      if info == 31 {
        r := Err(Indefinite);
      } else {
        r := Uint(info);
      }
    }

    method Raw(info: nat) returns (r: Result<seq<Byte>>)
      requires offset <= |data|
      modifies this
      ensures r == ReadRaw(data, old(offset), info)
      ensures r.Ok? ==> offset == r.next
      ensures old(offset) <= offset <= |data|
    {
      var len := Length(info);
      if len.Err? {
        return Err(len.error);
      }
      if offset + len.value > |data| {
        return Err(OutOfRange);
      }
      var bytes := data[offset..offset + len.value];
      offset := offset + len.value;
      r := Ok(bytes, offset);
    }

    /** One value; on success the offset stands exactly behind it. */
    method Next() returns (r: Result<Value>)
      requires offset <= |data|
      modifies this
      ensures r == Read(utf8, data, old(offset))
      ensures r.Ok? ==> offset == r.next
      ensures old(offset) <= offset <= |data|
      decreases |data| - offset, 0
    {
      if offset >= |data| {
        return Err(UnexpectedEnd);
      }
      var major, info := data[offset] / 32, data[offset] % 32;
      offset := offset + 1;
      if major == 0 || major == 1 {
        var n := Uint(info);
        if n.Err? {
          return Err(n.error);
        }
        var k: int := if major == 0 then n.value else -(n.value as int + 1);
        r := Ok(Int(k), offset);
      } else if major == 2 || major == 3 {
        var b := Raw(info);
        if b.Err? {
          return Err(b.error);
        }
        r := Ok(if major == 2 then Bytes(b.value) else Text(utf8(b.value)), offset);
      } else if major == 4 {
        var items := Items(info);
        r := if items.Ok? then Ok(Array(items.value), offset) else Err(items.error);
      } else if major == 5 {
        var entries := Entries(info);
        r := if entries.Ok? then Ok(Object(entries.value), offset) else Err(entries.error);
      } else {
        r := Err(UnsupportedMajor);
      }
    }

    method Items(info: nat) returns (r: Result<seq<Value>>)
      requires offset <= |data|
      modifies this
      ensures var len := ReadLength(data, old(offset), info);
              r == if len.Ok? then ReadItems(utf8, data, len.next, len.value, []) else Err(len.error)
      ensures r.Ok? ==> offset == r.next
      ensures old(offset) <= offset <= |data|
      decreases |data| - offset, 1
    {
      var len := Length(info);
      if len.Err? {
        return Err(len.error);
      }
      var arr, i := [], 0;
      while i < len.value
        invariant 0 <= i <= len.value && len.next <= offset <= |data|
        invariant ReadItems(utf8, data, len.next, len.value, []) == ReadItems(utf8, data, offset, len.value - i, arr)
      {
        var item := Next();
        if item.Err? {
          return Err(item.error);
        }
        arr := arr + [item.value];
        i := i + 1;
      }
      r := Ok(arr, offset);
    }

    method Entries(info: nat) returns (r: Result<seq<Entry<Value>>>)
      requires offset <= |data|
      modifies this
      ensures var len := ReadLength(data, old(offset), info);
              if len.Err? then r == Err(len.error) else
                var flat := ReadItems(utf8, data, len.next, 2 * len.value, []);
                r == if flat.Ok? then Ok(Properties(flat.value, []), flat.next) else Err(flat.error)
      ensures r.Ok? ==> offset == r.next
      ensures old(offset) <= offset <= |data|
      decreases |data| - offset, 1
    {
      var len := Length(info);
      if len.Err? {
        return Err(len.error);
      }
      var entries: seq<Entry<Value>>, i := [], 0;
      ghost var flat: seq<Value> := [];
      while i < len.value
        invariant 0 <= i <= len.value && len.next <= offset <= |data|
        invariant ReadItems(utf8, data, len.next, 2 * len.value, []) == ReadItems(utf8, data, offset, 2 * (len.value - i), flat)
        invariant |flat| == 2 * i && entries == Properties(flat, [])
      {
        ghost var start, left := offset, 2 * (len.value - i);
        var key := Next();
        if key.Err? {
          return Err(key.error);
        }
        ghost var mid := offset;
        var value := Next();
        if value.Err? {
          return Err(value.error);
        }
        ReadPairStep(utf8, data, start, left, flat, key.value, mid, value.value, offset);
        PropertiesAppend(flat, i, key.value, value.value, []);
        entries := SetProperty(entries, KeyText(key.value), value.value);
        flat := flat + [key.value, value.value];
        i := i + 1;
      }
      r := Ok(entries, offset);
    }
  }

  /** What is refused at the first byte, and how. */
  lemma FirstByteRefused(utf8: Decoder, data: seq<Byte>, off: nat)
    requires off <= |data|
    ensures off == |data| ==> Read(utf8, data, off) == Err(UnexpectedEnd)
    ensures off < |data| && data[off] >= 192 ==> Read(utf8, data, off) == Err(UnsupportedMajor)
    ensures off < |data| && 64 <= data[off] < 192 && data[off] % 32 == 31 ==> Read(utf8, data, off) == Err(Indefinite)
    ensures off < |data| && data[off] < 192 && 27 <= data[off] % 32 <= 30 ==> Read(utf8, data, off) == Err(UnsupportedInfo)
    ensures off < |data| && data[off] < 64 && data[off] % 32 == 31 ==> Read(utf8, data, off) == Err(UnsupportedInfo)
    ensures off < |data| && 64 <= data[off] < 128 && data[off] % 32 < 24 && off + 1 + data[off] % 32 > |data| ==>
              Read(utf8, data, off) == Err(OutOfRange)
    ensures off + 1 == |data| && data[off] < 192 && 24 <= data[off] % 32 <= 26 ==> Read(utf8, data, off) == Err(OutOfRange)
  {
  }

  // ---- the wire syntax ------------------------------------------------------------

  /** Where a head keeps its argument: in the initial byte, or in one, two or four bytes behind it. */
  datatype Width = Inline | One | Two | Four

  /** A wire tree: a value together with the width chosen for every head. */
  datatype Item =
    | WUint(w: Width, n: nat)
    | WNeg(w: Width, n: nat)
    | WBytes(w: Width, bytes: seq<Byte>)
    | WText(w: Width, bytes: seq<Byte>)
    | WArray(w: Width, items: seq<Item>)
    | WMap(w: Width, pairs: seq<Item>)  // key, value, key, value, ...

  predicate HeadFits(w: Width, n: nat) {
    match w
    case Inline => n < 24
    case One => n < 0x100
    case Two => n < 0x1_0000
    case Four => n < 0x1_0000_0000
  }

  function Head(major: nat, w: Width, n: nat): (r: seq<Byte>)
    requires major < 6 && HeadFits(w, n)
    ensures 1 <= |r| <= 5
  {
    match w
    case Inline => [32 * major + n]
    case One => [32 * major + 24, n]
    case Two => [32 * major + 25, n / 0x100, n % 0x100]
    case Four => [32 * major + 26, n / 0x100_0000, n / 0x1_0000 % 0x100, n / 0x100 % 0x100, n % 0x100]
  }

  ghost predicate WellFormed(item: Item)
  {
    match item
    case WUint(w, n) => HeadFits(w, n)
    case WNeg(w, n) => HeadFits(w, n)
    case WBytes(w, bytes) => HeadFits(w, |bytes|)
    case WText(w, bytes) => HeadFits(w, |bytes|)
    case WArray(w, items) => HeadFits(w, |items|) && forall i :: 0 <= i < |items| ==> WellFormed(items[i])
    case WMap(w, pairs) => |pairs| % 2 == 0 && HeadFits(w, |pairs| / 2) && forall i :: 0 <= i < |pairs| ==> WellFormed(pairs[i])
  }

  ghost predicate AllWellFormed(items: seq<Item>) {
    forall i :: 0 <= i < |items| ==> WellFormed(items[i])
  }

  function Wire(item: Item): (r: seq<Byte>)
    requires WellFormed(item)
    ensures |r| > 0
    decreases item, 0
  {
    match item
    case WUint(w, n) => Head(0, w, n)
    case WNeg(w, n) => Head(1, w, n)
    case WBytes(w, bytes) => Head(2, w, |bytes|) + bytes
    case WText(w, bytes) => Head(3, w, |bytes|) + bytes
    case WArray(w, items) => Head(4, w, |items|) + WireAll(items)
    case WMap(w, pairs) => Head(5, w, |pairs| / 2) + WireAll(pairs)
  }

  function WireAll(items: seq<Item>): seq<Byte>
    requires AllWellFormed(items)
    decreases items, 1
  {
    if items == [] then [] else Wire(items[0]) + WireAll(items[1..])
  }

  /** The JavaScript value a wire tree stands for. */
  function Meaning(utf8: Decoder, item: Item): Value
    decreases item, 0
  {
    match item
    case WUint(_, n) => Int(n)
    case WNeg(_, n) => Int(-(n + 1))
    case WBytes(_, bytes) => Bytes(bytes)
    case WText(_, bytes) => Text(utf8(bytes))
    case WArray(_, items) => Array(Meanings(utf8, items))
    case WMap(_, pairs) => Object(Properties(Meanings(utf8, pairs), []))
  }

  function Meanings(utf8: Decoder, items: seq<Item>): (r: seq<Value>)
    ensures |r| == |items|
    decreases items, 1
  {
    if items == [] then [] else [Meaning(utf8, items[0])] + Meanings(utf8, items[1..])
  }

  // ---- every well-formed wire tree is read back exactly -------------------------------

  /** `part` stands in `data` at `off`. */
  predicate StandsAt(data: seq<Byte>, off: nat, part: seq<Byte>) {
    off + |part| <= |data| && data[off..off + |part|] == part
  }

  lemma StandsSplit(data: seq<Byte>, off: nat, a: seq<Byte>, b: seq<Byte>)
    requires StandsAt(data, off, a + b)
    ensures StandsAt(data, off, a) && StandsAt(data, off + |a|, b)
  {
    assert data[off..off + |a|] == (a + b)[..|a|] == a;
    assert data[off + |a|..off + |a| + |b|] == (a + b)[|a|..] == b;
  }

  lemma ReadHead(data: seq<Byte>, off: nat, major: nat, w: Width, n: nat)
    requires major < 6 && HeadFits(w, n) && StandsAt(data, off, Head(major, w, n))
    ensures data[off] / 32 == major
    ensures ReadUint(data, off + 1, data[off] % 32) == Ok(n, off + |Head(major, w, n)|)
    ensures ReadLength(data, off + 1, data[off] % 32) == Ok(n, off + |Head(major, w, n)|)
  {
    var h := Head(major, w, n);
    assert data[off] == data[off..off + |h|][0] == h[0];
    assert InitialByte(major, w, n) == h[0];
    StandsSplit(data, off, [h[0]], h[1..]);
    assert h == [h[0]] + h[1..];
    ReadArgument(data, off + 1, w, n, h[1..]);
  }

  function InitialByte(major: nat, w: Width, n: nat): (r: nat)
    requires major < 6 && HeadFits(w, n)
    ensures r / 32 == major
    ensures r % 32 == match w case Inline => n case One => 24 case Two => 25 case Four => 26
  {
    32 * major + match w case Inline => n case One => 24 case Two => 25 case Four => 26
  }

  /** The bytes of a part, where it stands. */
  lemma StandingByte(data: seq<Byte>, off: nat, part: seq<Byte>, k: nat)
    requires StandsAt(data, off, part) && k < |part|
    ensures data[off + k] == part[k]
  {
    assert data[off..off + |part|][k] == part[k];
  }

  lemma ReadArgument(data: seq<Byte>, off: nat, w: Width, n: nat, arg: seq<Byte>)
    requires HeadFits(w, n) && arg == Head(0, w, n)[1..] && StandsAt(data, off, arg)
    ensures w.One? ==> FixedUint(data, off, 1) == Ok(n, off + 1)
    ensures w.Two? ==> FixedUint(data, off, 2) == Ok(n, off + 2)
    ensures w.Four? ==> FixedUint(data, off, 4) == Ok(n, off + 4)
  {
    match w
    case Inline =>
    case One => ReadOneByte(data, off, n, arg);
    case Two => ReadTwoBytes(data, off, n, arg);
    case Four => ReadFourBytes(data, off, n, arg);
  }

  lemma ReadOneByte(data: seq<Byte>, off: nat, n: nat, arg: seq<Byte>)
    requires |arg| == 1 && arg[0] == n && StandsAt(data, off, arg)
    ensures FixedUint(data, off, 1) == Ok(n, off + 1)
  {
    StandingByte(data, off, arg, 0);
    BigEndianNext(data, off, 0);
  }

  lemma ReadTwoBytes(data: seq<Byte>, off: nat, n: nat, arg: seq<Byte>)
    requires |arg| == 2 && arg[0] == n / 0x100 && arg[1] == n % 0x100 && StandsAt(data, off, arg)
    ensures FixedUint(data, off, 2) == Ok(n, off + 2)
  {
    StandingByte(data, off, arg, 0);
    StandingByte(data, off, arg, 1);
    BigEndianNext(data, off, 0);
    BigEndianNext(data, off, 1);
  }

  lemma ReadFourBytes(data: seq<Byte>, off: nat, n: nat, arg: seq<Byte>)
    requires |arg| == 4 && StandsAt(data, off, arg)
    requires arg[0] == n / 0x100_0000 && arg[1] == n / 0x1_0000 % 0x100 && arg[2] == n / 0x100 % 0x100 && arg[3] == n % 0x100
    ensures FixedUint(data, off, 4) == Ok(n, off + 4)
  {
    StandingByte(data, off, arg, 0);
    StandingByte(data, off, arg, 1);
    StandingByte(data, off, arg, 2);
    StandingByte(data, off, arg, 3);
    BigEndianFour(data, off);
    FourBytes(n);
  }

  lemma FourBytes(n: nat)
    ensures 0x1_0000 * (n / 0x1_0000 % 0x100) + 0x100 * (n / 0x100 % 0x100) + n % 0x100 + 0x100_0000 * (n / 0x100_0000) == n
  {
    assert n / 0x100 / 0x100 == n / 0x1_0000 && n / 0x1_0000 / 0x100 == n / 0x100_0000;
  }

  lemma BigEndianNext(data: seq<Byte>, off: nat, bytes: nat)
    requires off + bytes < |data|
    ensures BigEndian(data, off, 0) == 0
    ensures BigEndian(data, off, bytes + 1) == 0x100 * BigEndian(data, off, bytes) + data[off + bytes]
  {
  }

  /** The number `getUint32` returns. */
  lemma BigEndianFour(data: seq<Byte>, off: nat)
    requires off + 4 <= |data|
    ensures BigEndian(data, off, 4) == 0x100_0000 * (data[off] as int) + 0x1_0000 * (data[off + 1] as int)
                                     + 0x100 * (data[off + 2] as int) + data[off + 3]
  {
    BigEndianNext(data, off, 0);
    BigEndianNext(data, off, 1);
    BigEndianNext(data, off, 2);
    BigEndianNext(data, off, 3);
  }

  /**
   Reading a wire tree yields its meaning and stops exactly behind it, whatever follows and
   whichever head widths were used.
   */
  lemma {:induction false} ReadWire(utf8: Decoder, data: seq<Byte>, off: nat, item: Item)
    requires WellFormed(item) && StandsAt(data, off, Wire(item))
    ensures Read(utf8, data, off) == Ok(Meaning(utf8, item), off + |Wire(item)|)
    decreases item, 0
  {
    match item
    case WUint(w, n) => ReadHead(data, off, 0, w, n);
    case WNeg(w, n) => ReadHead(data, off, 1, w, n);
    case WBytes(w, bytes) => ReadString(utf8, data, off, 2, w, bytes);
    case WText(w, bytes) => ReadString(utf8, data, off, 3, w, bytes);
    case WArray(w, items) => ReadArray(utf8, data, off, w, items);
    case WMap(w, pairs) => ReadObject(utf8, data, off, w, pairs, |pairs| / 2);
  }

  lemma ReadString(utf8: Decoder, data: seq<Byte>, off: nat, major: nat, w: Width, bytes: seq<Byte>)
    requires (major == 2 || major == 3) && HeadFits(w, |bytes|)
    requires StandsAt(data, off, Head(major, w, |bytes|) + bytes)
    ensures Read(utf8, data, off)
         == Ok(if major == 2 then Bytes(bytes) else Text(utf8(bytes)), off + |Head(major, w, |bytes|)| + |bytes|)
  {
    StandsSplit(data, off, Head(major, w, |bytes|), bytes);
    ReadHead(data, off, major, w, |bytes|);
  }

  lemma ArrayRead(utf8: Decoder, data: seq<Byte>, off: nat, count: nat, start: nat, vs: seq<Value>, end: nat)
    requires off < |data| && data[off] / 32 == 4 && ReadLength(data, off + 1, data[off] % 32) == Ok(count, start)
    requires ReadItems(utf8, data, start, count, []) == Ok(vs, end)
    ensures Read(utf8, data, off) == Ok(Array(vs), end)
  {
  }

  lemma ObjectRead(utf8: Decoder, data: seq<Byte>, off: nat, count: nat, total: nat, start: nat, vs: seq<Value>, end: nat)
    requires off < |data| && data[off] / 32 == 5 && ReadLength(data, off + 1, data[off] % 32) == Ok(count, start)
    requires total == 2 * count && ReadItems(utf8, data, start, total, []) == Ok(vs, end)
    ensures Read(utf8, data, off) == Ok(Object(Properties(vs, [])), end)
  {
  }

  lemma {:induction false} ReadArray(utf8: Decoder, data: seq<Byte>, off: nat, w: Width, items: seq<Item>)
    requires HeadFits(w, |items|) && AllWellFormed(items)
    requires StandsAt(data, off, Head(4, w, |items|) + WireAll(items))
    ensures Read(utf8, data, off)
         == Ok(Array(Meanings(utf8, items)), off + |Head(4, w, |items|)| + |WireAll(items)|)
    decreases items, 2
  {
    var h := Head(4, w, |items|);
    StandsSplit(data, off, h, WireAll(items));
    ReadHead(data, off, 4, w, |items|);
    ReadWireAll(utf8, data, off + |h|, items, []);
    var vs := Meanings(utf8, items);
    assert [] + vs == vs;
    ArrayRead(utf8, data, off, |items|, off + |h|, vs, off + |h| + |WireAll(items)|);
  }

  lemma {:induction false} ReadObject(utf8: Decoder, data: seq<Byte>, off: nat, w: Width, pairs: seq<Item>, n: nat)
    requires |pairs| == 2 * n && HeadFits(w, n) && AllWellFormed(pairs)
    requires StandsAt(data, off, Head(5, w, n) + WireAll(pairs))
    ensures Read(utf8, data, off)
         == Ok(Object(Properties(Meanings(utf8, pairs), [])), off + |Head(5, w, n)| + |WireAll(pairs)|)
    decreases pairs, 2
  {
    var h := Head(5, w, n);
    StandsSplit(data, off, h, WireAll(pairs));
    ReadHead(data, off, 5, w, n);
    ReadWireAll(utf8, data, off + |h|, pairs, []);
    var vs := Meanings(utf8, pairs);
    assert [] + vs == vs;
    ObjectRead(utf8, data, off, n, |pairs|, off + |h|, vs, off + |h| + |WireAll(pairs)|);
  }

  lemma {:induction false} ReadWireAll(utf8: Decoder, data: seq<Byte>, off: nat, items: seq<Item>, done: seq<Value>)
    requires AllWellFormed(items) && StandsAt(data, off, WireAll(items))
    ensures ReadItems(utf8, data, off, |items|, done) == Ok(done + Meanings(utf8, items), off + |WireAll(items)|)
    decreases items, 1
  {
    if items == [] {
      assert done + [] == done;
    } else {
      var first, rest := items[0], items[1..];
      var mid, v, vs := off + |Wire(first)|, Meaning(utf8, first), Meanings(utf8, rest);
      StandsSplit(data, off, Wire(first), WireAll(rest));
      ReadWire(utf8, data, off, first);
      ReadItemsStep(utf8, data, off, |items|, done, v, mid);
      ReadWireAll(utf8, data, mid, rest, done + [v]);
      OneThenMore(done, v, vs);
    }
  }

  lemma OneThenMore(done: seq<Value>, v: Value, vs: seq<Value>)
    ensures done + [v] + vs == done + ([v] + vs)
  {
  }

  // ---- nothing else is accepted ----------------------------------------------------------

  function FourOf(n: nat): seq<int> {
    [n / 0x100_0000, n / 0x1_0000 % 0x100, n / 0x100 % 0x100, n % 0x100]
  }

  lemma ByteDigits(data: seq<Byte>, off: nat, bytes: nat, n: nat)
    requires bytes <= 4 && off + bytes <= |data| && n == BigEndian(data, off, bytes)
    ensures bytes == 1 ==> [n] == data[off..off + 1]
    ensures bytes == 2 ==> n < 0x1_0000 && [n / 0x100, n % 0x100] == data[off..off + 2]
    ensures bytes == 4 ==> n < 0x1_0000_0000 && FourOf(n) == data[off..off + 4]
  {
    if bytes > 0 { BigEndianNext(data, off, 0); }
    if bytes == 2 { BigEndianNext(data, off, 1); }
    if bytes == 4 {
      BigEndianFour(data, off);
      FourDigits(data[off], data[off + 1], data[off + 2], data[off + 3]);
      assert data[off..off + 4] == [data[off], data[off + 1], data[off + 2], data[off + 3]];
    }
  }

  lemma FourDigits(a: Byte, b: Byte, c: Byte, d: Byte)
    ensures FourOf(0x100_0000 * (a as int) + 0x1_0000 * (b as int) + 0x100 * (c as int) + d) == [a as int, b, c, d]
  {
    var n := 0x100_0000 * (a as int) + 0x1_0000 * (b as int) + 0x100 * (c as int) + d;
    assert n == 0x100 * (0x1_0000 * a + 0x100 * b + c) + d;
    assert n / 0x100 == 0x100 * (0x100 * a + b) + c && n % 0x100 == d;
    assert n / 0x1_0000 == n / 0x100 / 0x100 == 0x100 * a + b;
    assert n / 0x100_0000 == n / 0x1_0000 / 0x100 == a;
  }

  lemma SliceFirst(data: seq<Byte>, off: nat, n: nat)
    requires off + 1 + n <= |data|
    ensures data[off..off + 1 + n] == [data[off]] + data[off + 1..off + 1 + n]
  {
  }

  /** Every head the reader takes is the head of some width. */
  lemma HeadOf(data: seq<Byte>, off: nat) returns (w: Width)
    requires off < |data| && data[off] / 32 < 6
    requires ReadUint(data, off + 1, data[off] % 32).Ok?
    ensures var n := ReadUint(data, off + 1, data[off] % 32);
            && HeadFits(w, n.value)
            && StandsAt(data, off, Head(data[off] / 32, w, n.value))
            && n.next == off + |Head(data[off] / 32, w, n.value)|
  {
    var major, info := data[off] / 32, data[off] % 32;
    var n := ReadUint(data, off + 1, info);
    if info < 24 {
      w := Inline;
    } else {
      w := if info == 24 then One else if info == 25 then Two else Four;
      var bytes := if info == 24 then 1 else if info == 25 then 2 else 4;
      ByteDigits(data, off + 1, bytes, n.value);
      SliceFirst(data, off, bytes);
    }
    assert data[off..off + |Head(major, w, n.value)|] == Head(major, w, n.value);
  }

  lemma StandsJoin(data: seq<Byte>, off: nat, a: seq<Byte>, b: seq<Byte>)
    requires StandsAt(data, off, a) && StandsAt(data, off + |a|, b)
    ensures StandsAt(data, off, a + b)
  {
    assert data[off..off + |a| + |b|] == data[off..off + |a|] + data[off + |a|..off + |a| + |b|];
  }

  /** Whatever the reader returns is the meaning of a wire tree standing exactly where it read. */
  lemma {:induction false} ReadSound(utf8: Decoder, data: seq<Byte>, off: nat) returns (item: Item)
    requires off <= |data| && Read(utf8, data, off).Ok?
    ensures WellFormed(item) && StandsAt(data, off, Wire(item))
    ensures Read(utf8, data, off) == Ok(Meaning(utf8, item), off + |Wire(item)|)
    decreases |data| - off, 0
  {
    var major := data[off] / 32;
    if major <= 3 {
      item := ReadLeafSound(utf8, data, off);
    } else {
      var head := ReadUint(data, off + 1, data[off] % 32);
      var items := ReadItemsSound(utf8, data, head.next, if major == 4 then head.value else 2 * head.value, []);
      item := TreeStands(data, off, head.value, head.next, items);
    }
    ReadWire(utf8, data, off, item);
  }

  /** An array or map head with its items standing behind it. */
  lemma {:induction false} TreeStands(data: seq<Byte>, off: nat, n: nat, start: nat, items: seq<Item>) returns (item: Item)
    requires off < |data| && 4 <= data[off] / 32 <= 5 && ReadUint(data, off + 1, data[off] % 32) == Ok(n, start)
    requires |items| == (if data[off] / 32 == 4 then n else 2 * n) && AllWellFormed(items) && StandsAt(data, start, WireAll(items))
    ensures WellFormed(item) && StandsAt(data, off, Wire(item))
  {
    var w := HeadOf(data, off);
    StandsJoin(data, off, Head(data[off] / 32, w, n), WireAll(items));
    item := if data[off] / 32 == 4 then WArray(w, items) else WMap(w, items);
  }

  lemma ReadLeafSound(utf8: Decoder, data: seq<Byte>, off: nat) returns (item: Item)
    requires off < |data| && data[off] / 32 <= 3 && Read(utf8, data, off).Ok?
    ensures WellFormed(item) && StandsAt(data, off, Wire(item))
  {
    var major, head := data[off] / 32, ReadUint(data, off + 1, data[off] % 32);
    var w := HeadOf(data, off);
    var n, start := head.value, head.next;
    if major == 0 {
      item := WUint(w, n);
    } else if major == 1 {
      item := WNeg(w, n);
    } else {
      var raw := data[start..start + n];
      StandsJoin(data, off, Head(major, w, n), raw);
      item := if major == 2 then WBytes(w, raw) else WText(w, raw);
    }
  }

  lemma {:induction false} ReadItemsSound(utf8: Decoder, data: seq<Byte>, off: nat, n: nat, done: seq<Value>) returns (items: seq<Item>)
    requires off <= |data| && ReadItems(utf8, data, off, n, done).Ok?
    ensures |items| == n && AllWellFormed(items) && StandsAt(data, off, WireAll(items))
    decreases |data| - off, 1
  {
    if n == 0 {
      items := [];
    } else {
      var first := ReadSound(utf8, data, off);
      var v, mid := Meaning(utf8, first), off + |Wire(first)|;
      ReadItemsStep(utf8, data, off, n, done, v, mid);
      var rest := ReadItemsSound(utf8, data, mid, n - 1, done + [v]);
      StandsJoin(data, off, Wire(first), WireAll(rest));
      items := [first] + rest;
      WireAllFirst(first, rest);
    }
  }

  lemma {:induction false} WireAllFirst(first: Item, rest: seq<Item>)
    requires WellFormed(first) && AllWellFormed(rest)
    ensures AllWellFormed([first] + rest) && WireAll([first] + rest) == Wire(first) + WireAll(rest)
  {
    assert ([first] + rest)[1..] == rest;
  }

  /** The reader succeeds at an offset exactly when a well-formed wire tree stands there. */
  lemma ReaderAcceptsExactlyWire(utf8: Decoder, data: seq<Byte>, off: nat)
    requires off <= |data|
    ensures Read(utf8, data, off).Ok? <==> exists item :: WellFormed(item) && StandsAt(data, off, Wire(item))
  {
    if Read(utf8, data, off).Ok? {
      var item := ReadSound(utf8, data, off);
    }
    if item :| WellFormed(item) && StandsAt(data, off, Wire(item)) {
      ReadWire(utf8, data, off, item);
    }
  }

  /** No two wire trees share a beginning: what follows cannot change what is read. */
  lemma WirePrefixFree(utf8: Decoder, a: Item, b: Item, rest: seq<Byte>, rest': seq<Byte>)
    requires WellFormed(a) && WellFormed(b) && Wire(a) + rest == Wire(b) + rest'
    ensures Wire(a) == Wire(b) && Meaning(utf8, a) == Meaning(utf8, b)
  {
    var data := Wire(a) + rest;
    StandsFirst(Wire(a), rest);
    StandsFirst(Wire(b), rest');
    ReadWire(utf8, data, 0, a);
    ReadWire(utf8, data, 0, b);
    assert Wire(a) == data[..|Wire(a)|] == Wire(b);
  }

  lemma StandsFirst(a: seq<Byte>, b: seq<Byte>)
    ensures StandsAt(a + b, 0, a)
  {
    assert (a + b)[0..|a|] == a;
  }
}
