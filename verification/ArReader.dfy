/**
 The ar loop of _repack_ar_to_targz (lib/deploy.py): headers of 60 bytes at even offsets, a name field, a
 decimal size field, early exits on anything cut short.
 */
module ArReader {
  import opened Prelude
  import opened PyText

  type Bytes = seq<Byte>

  /** bytes.decode("ascii", errors="replace"). */
  function DecodeAscii(b: Bytes): (s: string)
    ensures |s| == |b| && forall i :: 0 <= i < |b| ==> s[i] == if b[i] < 128 then b[i] as char else '\U{fffd}'
  {
    seq(|b|, i requires 0 <= i < |b| => if b[i] < 128 then b[i] as char else '\U{fffd}')
  }

  /** str.rstrip("/"). */
  function DropSlashes(s: string): string {
    if s != "" && s[|s| - 1] == '/' then DropSlashes(s[..|s| - 1]) else s
  }

  const MAGIC: Bytes := [33, 60, 97, 114, 99, 104, 62, 10]
  const HEADER := 60

  /** The name field, without surrounding blanks and the slashes that end it. */
  function NameIn(field: string): string { DropSlashes(Strip(field)) }

  function NameOf(header: Bytes): string
    requires |header| == HEADER
  {
    NameIn(DecodeAscii(header[0..16]))
  }

  /** The size field: blank, not a number, or a number. */
  datatype Size = Blank | BadNumber | Size(n: int)

  function SizeIn(field: string): Size {
    var text := Strip(field);
    if text == "" then Blank else
      var n := ParseInt(text);
      if n.None? then BadNumber else Size(n.value)
  }

  function SizeOf(header: Bytes): Size
    requires |header| == HEADER
  {
    SizeIn(DecodeAscii(header[48..58]))
  }

  /** The loop does not care how the two header fields are read. */
  datatype Fields = Fields(name: Bytes -> string, size: Bytes -> Size)

  const AR := Fields(
    (h: Bytes) => if |h| == HEADER then NameOf(h) else "",
    (h: Bytes) => if |h| == HEADER then SizeOf(h) else Blank)

  type Members = seq<Entry<Bytes>>

  /** Raised: int() refused a size field. NegativeSize: the field was read as a negative number. */
  datatype Outcome = Parsed(members: Members) | Raised | NegativeSize

  /** What the loop does from `pos` on. */
  function ReadFrom(f: Fields, data: Bytes, pos: nat, members: Members): Outcome
    decreases |data| - pos
  {
    if pos + HEADER > |data| then Parsed(members) else
      var header := data[pos..pos + HEADER];
      match f.size(header)
      case Blank => Parsed(members)
      case BadNumber => Raised
      case Size(n) =>
        if n < 0 then NegativeSize else
          var end := pos + HEADER + n;
          if end > |data| then Parsed(members)
          else ReadFrom(f, data, end + n % 2, Assign(members, f.name(header), data[pos + HEADER..end]))
  }

  /** The whole function: what becomes of the file. */
  datatype Repack = Unchanged | Repacked(members: Members) | Failed(outcome: Outcome)

  function RepackOf(data: Bytes): Repack {
    if |data| >= 2 && data[..2] == [0x1f, 0x8b] then Unchanged
    else if !(MAGIC <= data) then Unchanged
    else
      var r := ReadFrom(AR, data, |MAGIC|, []);
      if !r.Parsed? then Failed(r) else if r.members == [] then Unchanged else Repacked(r.members)
  }

  /** The loop as written, one header after another. */
  method ReadMembers(f: Fields, data: Bytes) returns (outcome: Outcome)
    requires MAGIC <= data
    ensures outcome == ReadFrom(f, data, |MAGIC|, [])
  {
    var members: Members := [];
    var pos: nat := |MAGIC|;
    ghost var whole := ReadFrom(f, data, pos, members);
    while pos < |data|
      invariant whole == ReadFrom(f, data, pos, members)
      decreases |data| - pos
    {
      if pos + HEADER > |data| { break; }
      var header := data[pos..pos + HEADER];
      var size := f.size(header);
      if size.Blank? { return Parsed(members); }
      if size.BadNumber? { return Raised; }
      if size.n < 0 { return NegativeSize; }
      var contentStart := pos + HEADER;
      var contentEnd := contentStart + size.n;
      if contentEnd > |data| { return Parsed(members); }
      members := Assign(members, f.name(header), data[contentStart..contentEnd]);
      if size.n % 2 != 0 {
        contentEnd := contentEnd + 1;
      }
      pos := contentEnd;
    }
    outcome := Parsed(members);
  }

  method ComputeRepack(data: Bytes) returns (r: Repack)
    ensures r == RepackOf(data)
  {
    if |data| >= 2 && data[..2] == [0x1f, 0x8b] { return Unchanged; }
    if !(MAGIC <= data) { return Unchanged; }
    var outcome := ReadMembers(AR, data);
    if !outcome.Parsed? { return Failed(outcome); }
    if |outcome.members| == 0 { return Unchanged; }
    r := Repacked(outcome.members);
  }

  // ---- archives as ar writes them ------------------------------------------------------

  /**
   One member: its name, how many slashes end it in the name field, what stands between name and size and
   after the size, and the content.
   */
  datatype Member = Member(name: string, slashes: nat, between: Bytes, after: Bytes, content: Bytes)

  ghost predicate Ascii(s: string) { forall i :: 0 <= i < |s| ==> s[i] as int < 128 }

  /** A name field of at most 16 characters without surrounding blanks, and a size that fits ten digits. */
  ghost predicate Writable(m: Member) {
    && Ascii(m.name) && |m.name| + m.slashes <= 16
    && (m.name != "" ==> !IsSpace(m.name[0]) && !IsSpace(m.name[|m.name| - 1]) && m.name[|m.name| - 1] != '/')
    && |m.between| == 32 && |m.after| == 2
    && |Decimal(|m.content|)| <= 10
  }

  function EncodeAscii(s: string): (b: Bytes)
    requires Ascii(s)
    ensures |b| == |s| && forall i :: 0 <= i < |s| ==> b[i] == s[i] as int
  {
    seq(|s|, i requires 0 <= i < |s| => s[i] as int)
  }

  function Padded(s: string, width: nat): string
    requires |s| <= width
  {
    s + Repeat(' ', width - |s|)
  }

  function NameField(m: Member): string
    requires Writable(m)
  {
    Padded(m.name + Repeat('/', m.slashes), 16)
  }

  function SizeField(m: Member): string
    requires Writable(m)
  {
    Padded(Decimal(|m.content|), 10)
  }

  lemma FieldsAscii(m: Member)
    requires Writable(m)
    ensures Ascii(NameField(m)) && |NameField(m)| == 16 && Ascii(SizeField(m)) && |SizeField(m)| == 10
  {
  }

  function HeaderOf(m: Member): (h: Bytes)
    requires Writable(m)
    ensures |h| == HEADER
  {
    FieldsAscii(m);
    EncodeAscii(NameField(m)) + m.between + EncodeAscii(SizeField(m)) + m.after
  }

  function Span(m: Member): nat { HEADER + |m.content| + |m.content| % 2 }

  /** Header, content, and a newline when the content is odd. */
  function Write(m: Member): (b: Bytes)
    requires Writable(m)
    ensures |b| == Span(m)
  {
    HeaderOf(m) + m.content + Filler(m)
  }

  function Filler(m: Member): (b: Bytes)
    ensures |b| == |m.content| % 2
  {
    if |m.content| % 2 == 1 then [10] else []
  }

  ghost predicate AllWritable(ms: seq<Member>) {
    forall i {:trigger Writable(ms[i])} :: 0 <= i < |ms| ==> Writable(ms[i])
  }

  lemma TailWritable(ms: seq<Member>)
    requires AllWritable(ms) && ms != []
    ensures Writable(ms[0]) && AllWritable(ms[1..])
  {
    forall i | 0 <= i < |ms| - 1 ensures Writable(ms[1..][i]) { assert Writable(ms[i + 1]); }
  }

  function WriteAll(ms: seq<Member>): Bytes
    requires AllWritable(ms)
  {
    if ms == [] then [] else
      TailWritable(ms);
      Write(ms[0]) + WriteAll(ms[1..])
  }

  /** The dictionary the members make, in order, a repeated name overwriting in place. */
  function Collect(members: Members, ms: seq<Member>): Members
    decreases |ms|
  {
    if ms == [] then members else Collect(Assign(members, ms[0].name, ms[0].content), ms[1..])
  }

  // ---- the fields read back --------------------------------------------------------------

  lemma {:induction false} DropsSlashes(s: string, n: nat)
    requires s == "" || s[|s| - 1] != '/'
    ensures DropSlashes(s + Repeat('/', n)) == s
  {
    var t := s + Repeat('/', n);
    if n == 0 {
      assert t == s;
    } else {
      DropsSlashes(s, n - 1);
      assert t[..|t| - 1] == s + Repeat('/', n - 1);
    }
  }

  lemma DecodeEncoded(s: string)
    requires Ascii(s)
    ensures DecodeAscii(EncodeAscii(s)) == s
  {
  }

  lemma FieldSlices(m: Member)
    requires Writable(m)
    ensures Ascii(NameField(m)) && HeaderOf(m)[0..16] == EncodeAscii(NameField(m))
    ensures Ascii(SizeField(m)) && HeaderOf(m)[48..58] == EncodeAscii(SizeField(m))
  {
    FieldsAscii(m);
  }

  lemma NameInPadded(name: string, slashes: nat, width: nat)
    requires |name| + slashes <= width
    requires name != "" ==> !IsSpace(name[0]) && !IsSpace(name[|name| - 1]) && name[|name| - 1] != '/'
    ensures NameIn(Padded(name + Repeat('/', slashes), width)) == name
  {
    var full := name + Repeat('/', slashes);
    StripPadded(full, width - |full|);
    DropsSlashes(name, slashes);
  }

  lemma SizeInPadded(n: nat, width: nat)
    requires |Decimal(n)| <= width
    ensures SizeIn(Padded(Decimal(n), width)) == Size(n)
  {
    StripPadded(Decimal(n), width - |Decimal(n)|);
    ParseDecimal(n);
  }

  /** Both header fields of a written member read back. */
  lemma HeaderReads(m: Member)
    requires Writable(m)
    ensures NameOf(HeaderOf(m)) == m.name && SizeOf(HeaderOf(m)) == Size(|m.content|)
  {
    FieldSlices(m);
    DecodeEncoded(NameField(m));
    DecodeEncoded(SizeField(m));
    NameInPadded(m.name, m.slashes, 16);
    SizeInPadded(|m.content|, 10);
  }

  // ---- whole archives, cut anywhere -------------------------------------------------------

  /** The reader understands this member's header. */
  ghost predicate Knows(f: Fields, m: Member) {
    Writable(m) && f.name(HeaderOf(m)) == m.name && f.size(HeaderOf(m)) == Size(|m.content|)
  }

  ghost predicate Understands(f: Fields, ms: seq<Member>) {
    AllWritable(ms) && forall i {:trigger Knows(f, ms[i])} :: 0 <= i < |ms| ==> Knows(f, ms[i])
  }

  lemma {:induction false} TailUnderstood(f: Fields, ms: seq<Member>)
    requires Understands(f, ms) && ms != []
    ensures Knows(f, ms[0]) && Understands(f, ms[1..])
  {
    TailWritable(ms);
    forall i | 0 <= i < |ms| - 1 ensures Knows(f, ms[1..][i]) { assert Knows(f, ms[i + 1]); }
  }

  /** Where the i-th member's content ends, counted from the first header. */
  ghost function ContentEnd(ms: seq<Member>, i: nat): nat
    requires i < |ms|
  {
    if i == 0 then HEADER + |ms[0].content| else Span(ms[0]) + ContentEnd(ms[1..], i - 1)
  }

  /** How many members' contents lie within the first `room` bytes. */
  ghost function Kept(ms: seq<Member>, room: nat): (n: nat)
    ensures n <= |ms|
    decreases |ms|
  {
    if ms == [] || HEADER + |ms[0].content| > room then 0
    else 1 + Kept(ms[1..], if Span(ms[0]) <= room then room - Span(ms[0]) else 0)
  }

  lemma {:induction false} KeptIff(ms: seq<Member>, room: nat, i: nat)
    requires i < |ms|
    ensures i < Kept(ms, room) <==> ContentEnd(ms, i) <= room
  {
    if i > 0 {
      KeptIff(ms[1..], if Span(ms[0]) <= room then room - Span(ms[0]) else 0, i - 1);
      ContentEndLarge(ms[1..], i - 1);
    }
  }

  lemma {:induction false} ContentEndLarge(ms: seq<Member>, i: nat)
    requires i < |ms|
    ensures ContentEnd(ms, i) >= HEADER
  {
    if i > 0 { ContentEndLarge(ms[1..], i - 1); }
  }

  /** A part of a text that is there up to a cut, found in the cut text. */
  lemma PartBeforeCut(data: Bytes, pos: nat, text: Bytes, from: nat, to: nat)
    requires pos <= |data| <= pos + |text| && data[pos..] == text[..|data| - pos]
    requires from <= to <= |data| - pos
    ensures data[pos + from..pos + to] == text[from..to]
  {
    SliceBehind(data, pos, from, to);
    SliceBefore(text, |data| - pos, from, to);
  }

  lemma SliceBehind(data: Bytes, pos: nat, from: nat, to: nat)
    requires pos <= |data| && from <= to <= |data| - pos
    ensures data[pos..][from..to] == data[pos + from..pos + to]
  {
  }

  lemma SliceBefore(text: Bytes, end: nat, from: nat, to: nat)
    requires from <= to <= end <= |text|
    ensures text[..end][from..to] == text[from..to]
  {
  }

  lemma RestBeforeCut(data: Bytes, pos: nat, first: Bytes, rest: Bytes)
    requires pos <= |data| <= pos + |first + rest| && data[pos..] == (first + rest)[..|data| - pos]
    requires pos + |first| <= |data|
    ensures data[pos + |first|..] == rest[..|data| - pos - |first|]
  {
    assert data[pos + |first|..] == data[pos..][|first|..];
    assert (first + rest)[..|data| - pos][|first|..] == rest[..|data| - pos - |first|];
  }

  lemma PartsOf(a: Bytes, b: Bytes, c: Bytes, d: Bytes)
    ensures (a + b + c + d)[0..|a|] == a && (a + b + c + d)[|a|..|a| + |b|] == b
  {
    assert a + b + c + d == a + (b + (c + d));
  }

  lemma {:induction false} PartsBeforeCut(data: Bytes, pos: nat, text: Bytes, header: Bytes, content: Bytes, filler: Bytes, rest: Bytes, next: nat)
    requires text == header + content + filler + rest && |header| == HEADER && next == pos + HEADER + |content| + |filler|
    requires pos <= |data| <= pos + |text| && data[pos..] == text[..|data| - pos]
    ensures pos + HEADER <= |data| ==> data[pos..pos + HEADER] == header
    ensures pos + HEADER + |content| <= |data| ==> data[pos + HEADER..pos + HEADER + |content|] == content
    ensures next <= |data| ==> data[next..] == rest[..|data| - next]
  {
    PartsOf(header, content, filler, rest);
    if pos + HEADER <= |data| { PartBeforeCut(data, pos, text, 0, HEADER); }
    if pos + HEADER + |content| <= |data| { PartBeforeCut(data, pos, text, HEADER, HEADER + |content|); }
    if next <= |data| { RestBeforeCut(data, pos, header + content + filler, rest); }
  }

  /** The bytes of the first member, as far as they are there. */
  lemma {:induction false} FirstMember(ms: seq<Member>, data: Bytes, pos: nat, next: nat)
    requires AllWritable(ms) && ms != [] && Writable(ms[0]) && AllWritable(ms[1..]) && pos <= |data| <= pos + |WriteAll(ms)|
    requires data[pos..] == WriteAll(ms)[..|data| - pos] && next == pos + Span(ms[0])
    ensures pos + HEADER <= |data| ==> data[pos..pos + HEADER] == HeaderOf(ms[0])
    ensures pos + HEADER + |ms[0].content| <= |data| ==> data[pos + HEADER..pos + HEADER + |ms[0].content|] == ms[0].content
    ensures next <= |data| ==> data[next..] == WriteAll(ms[1..])[..|data| - next]
    ensures |WriteAll(ms)| == Span(ms[0]) + |WriteAll(ms[1..])|
  {
    PartsBeforeCut(data, pos, WriteAll(ms), HeaderOf(ms[0]), ms[0].content, Filler(ms[0]), WriteAll(ms[1..]), next);
  }

  /** One whole member: the loop goes on behind it. */
  lemma {:induction false} ReadOne(f: Fields, data: Bytes, pos: nat, members: Members, header: Bytes, name: string, content: Bytes)
    requires pos + HEADER + |content| <= |data| && data[pos..pos + HEADER] == header
    requires f.size(header) == Size(|content|) && f.name(header) == name && data[pos + HEADER..pos + HEADER + |content|] == content
    ensures ReadFrom(f, data, pos, members) == ReadFrom(f, data, pos + HEADER + |content| + |content| % 2, Assign(members, name, content))
  {
  }

  /** From any header on, cut anywhere, the loop collects exactly the members whose content is all there. */
  lemma {:induction false} ReadsKept(f: Fields, ms: seq<Member>, data: Bytes, pos: nat, members: Members)
    requires Understands(f, ms) && pos <= |data| <= pos + |WriteAll(ms)|
    requires data[pos..] == WriteAll(ms)[..|data| - pos]
    ensures ReadFrom(f, data, pos, members) == Parsed(Collect(members, ms[..Kept(ms, |data| - pos)]))
    decreases |ms|
  {
    if ms == [] {
      assert ReadFrom(f, data, pos, members) == Parsed(members);
    } else {
      var more, next := Assign(members, ms[0].name, ms[0].content), pos + Span(ms[0]);
      OthersStand(f, ms, data, pos, next);
      ReadsFirst(f, ms, data, pos, members, next);
      if next <= |data| { ReadsKept(f, ms[1..], data, next, more); } else { ReadsNothing(f, ms[1..], data, next, more); }
      KeptGoesOn(f, ms, data, pos, members, more, next);
    }
  }

  /** From what becomes of the first member and of the others to what becomes of all. */
  lemma {:induction false} KeptGoesOn(f: Fields, ms: seq<Member>, data: Bytes, pos: nat, members: Members, more: Members, next: nat)
    requires ms != [] && pos <= |data| && next == pos + Span(ms[0]) && more == Assign(members, ms[0].name, ms[0].content)
    requires ReadFrom(f, data, pos, members) == if pos + HEADER + |ms[0].content| > |data| then Parsed(members) else ReadFrom(f, data, next, more)
    requires ReadFrom(f, data, next, more) == Parsed(Collect(more, ms[1..][..Kept(ms[1..], if next <= |data| then |data| - next else 0)]))
    ensures ReadFrom(f, data, pos, members) == Parsed(Collect(members, ms[..Kept(ms, |data| - pos)]))
  {
    if pos + HEADER + |ms[0].content| > |data| {
      assert ms[..0] == [];
    } else {
      KeptCollects(members, ms, |data| - pos, more, if next <= |data| then |data| - next else 0);
    }
  }

  /** Behind the end of the data the loop collects nothing. */
  lemma ReadsNothing(f: Fields, ms: seq<Member>, data: Bytes, pos: nat, members: Members)
    requires pos > |data|
    ensures ReadFrom(f, data, pos, members) == Parsed(Collect(members, ms[..Kept(ms, 0)]))
  {
    assert Kept(ms, 0) == 0 && ms[..0] == [];
  }

  /** What the loop does with the first member. */
  lemma {:induction false} ReadsFirst(f: Fields, ms: seq<Member>, data: Bytes, pos: nat, members: Members, next: nat)
    requires AllWritable(ms) && ms != [] && Knows(f, ms[0]) && pos <= |data| <= pos + |WriteAll(ms)|
    requires data[pos..] == WriteAll(ms)[..|data| - pos] && next == pos + Span(ms[0])
    ensures ReadFrom(f, data, pos, members) ==
            if pos + HEADER + |ms[0].content| > |data| then Parsed(members)
            else ReadFrom(f, data, next, Assign(members, ms[0].name, ms[0].content))
  {
    TailWritable(ms);
    FirstMember(ms, data, pos, next);
    MemberRead(f, data, pos, members, ms[0].name, HeaderOf(ms[0]), ms[0].content, next);
  }

  /** What is left for the other members. */
  lemma {:induction false} OthersStand(f: Fields, ms: seq<Member>, data: Bytes, pos: nat, next: nat)
    requires Understands(f, ms) && ms != [] && pos <= |data| <= pos + |WriteAll(ms)|
    requires data[pos..] == WriteAll(ms)[..|data| - pos] && next == pos + Span(ms[0])
    ensures Knows(f, ms[0]) && Understands(f, ms[1..]) && |data| <= next + |WriteAll(ms[1..])|
    ensures next <= |data| ==> data[next..] == WriteAll(ms[1..])[..|data| - next]
  {
    TailUnderstood(f, ms);
    FirstMember(ms, data, pos, next);
  }

  /** A header and its content, as far as they are there: one more member, or the end of the loop. */
  lemma {:induction false} MemberRead(f: Fields, data: Bytes, pos: nat, members: Members, name: string, header: Bytes, content: Bytes, next: nat)
    requires pos <= |data| && next == pos + HEADER + |content| + |content| % 2 && f.size(header) == Size(|content|) && f.name(header) == name
    requires pos + HEADER <= |data| ==> data[pos..pos + HEADER] == header
    requires pos + HEADER + |content| <= |data| ==> data[pos + HEADER..pos + HEADER + |content|] == content
    ensures ReadFrom(f, data, pos, members) ==
            if pos + HEADER + |content| > |data| then Parsed(members)
            else ReadFrom(f, data, next, Assign(members, name, content))
  {
    if pos + HEADER + |content| > |data| {
      CutShort(f, data, pos, members, |content|);
    } else {
      ReadOne(f, data, pos, members, header, name, content);
    }
  }

  /** With the first member kept, collecting goes on behind it. */
  lemma {:induction false} KeptCollects(members: Members, ms: seq<Member>, room: nat, more: Members, left: nat)
    requires ms != [] && HEADER + |ms[0].content| <= room && more == Assign(members, ms[0].name, ms[0].content)
    requires left == if Span(ms[0]) <= room then room - Span(ms[0]) else 0
    ensures Collect(members, ms[..Kept(ms, room)]) == Collect(more, ms[1..][..Kept(ms[1..], left)])
    ensures left == 0 ==> Kept(ms[1..], left) == 0
  {
    CollectFirst(members, ms, Kept(ms, room));
  }

  lemma {:induction false} CollectFirst(members: Members, ms: seq<Member>, n: nat)
    requires 0 < n <= |ms|
    ensures Collect(members, ms[..n]) == Collect(Assign(members, ms[0].name, ms[0].content), ms[1..][..n - 1])
  {
    assert ms[..n][1..] == ms[1..][..n - 1];
  }

  /** A member whose content runs past the cut ends the loop. */
  lemma {:induction false} CutShort(f: Fields, data: Bytes, pos: nat, members: Members, length: nat)
    requires pos <= |data| < pos + HEADER + length
    requires pos + HEADER <= |data| ==> f.size(data[pos..pos + HEADER]) == Size(length)
    ensures ReadFrom(f, data, pos, members) == Parsed(members)
  {
  }

  lemma ReaderUnderstands(ms: seq<Member>)
    requires AllWritable(ms)
    ensures Understands(AR, ms)
  {
    forall i | 0 <= i < |ms| ensures Knows(AR, ms[i]) {
      assert Writable(ms[i]);
      HeaderReads(ms[i]);
    }
  }

  lemma CutTail(a: Bytes, b: Bytes, cut: nat)
    requires |a| <= cut <= |a + b|
    ensures (a + b)[..cut][|a|..] == b[..cut - |a|]
  {
  }

  lemma {:induction false} CutBehind(f: Fields, magic: Bytes, ms: seq<Member>, data: Bytes, cut: nat)
    requires Understands(f, ms) && |magic| <= cut <= |magic + WriteAll(ms)| && data == (magic + WriteAll(ms))[..cut]
    ensures ReadFrom(f, data, |magic|, []) == Parsed(Collect([], ms[..Kept(ms, cut - |magic|)]))
  {
    CutTail(magic, WriteAll(ms), cut);
    ReadsKept(f, ms, data, |magic|, []);
  }

  /** The archive cut after any byte behind the magic gives exactly the members whose content ends before the cut. */
  lemma ArchiveCut(ms: seq<Member>, cut: nat)
    requires AllWritable(ms) && |MAGIC| <= cut <= |MAGIC + WriteAll(ms)|
    ensures var n := Kept(ms, cut - |MAGIC|);
            ReadFrom(AR, (MAGIC + WriteAll(ms))[..cut], |MAGIC|, []) == Parsed(Collect([], ms[..n]))
            && forall i :: 0 <= i < |ms| ==> (i < n <==> |MAGIC| + ContentEnd(ms, i) <= cut)
  {
    ReaderUnderstands(ms);
    CutBehind(AR, MAGIC, ms, (MAGIC + WriteAll(ms))[..cut], cut);
    forall i | 0 <= i < |ms| ensures i < Kept(ms, cut - |MAGIC|) <==> |MAGIC| + ContentEnd(ms, i) <= cut {
      KeptIff(ms, cut - |MAGIC|, i);
    }
  }

  function EntriesOf(ms: seq<Member>): (r: Members)
    ensures |r| == |ms|
  {
    seq(|ms|, i requires 0 <= i < |ms| => Entry(ms[i].name, ms[i].content))
  }

  lemma {:induction false} CollectDistinct(members: Members, ms: seq<Member>)
    requires forall i, j :: 0 <= i < j < |ms| ==> ms[i].name != ms[j].name
    requires forall i :: 0 <= i < |ms| ==> Prelude.Fresh(members, ms[i].name)
    ensures Collect(members, ms) == members + EntriesOf(ms)
    decreases |ms|
  {
    if ms == [] {
      assert members + EntriesOf(ms) == members;
    } else {
      AssignFresh(members, ms[0].name, ms[0].content);
      CollectDistinct(members + [Entry(ms[0].name, ms[0].content)], ms[1..]);
      assert EntriesOf(ms) == [Entry(ms[0].name, ms[0].content)] + EntriesOf(ms[1..]);
    }
  }

  lemma CollectFresh(ms: seq<Member>)
    requires forall i, j :: 0 <= i < j < |ms| ==> ms[i].name != ms[j].name
    ensures Collect([], ms) == EntriesOf(ms)
  {
    CollectDistinct([], ms);
    assert [] + EntriesOf(ms) == EntriesOf(ms);
  }

  lemma {:induction false} WholeReads(f: Fields, magic: Bytes, ms: seq<Member>)
    requires Understands(f, ms)
    ensures ReadFrom(f, magic + WriteAll(ms), |magic|, []) == Parsed(Collect([], ms))
  {
    var data := magic + WriteAll(ms);
    WholeSlice(data, |data|);
    CutBehind(f, magic, ms, data, |data|);
    KeepsAll(ms);
    WholeSlice(ms, |ms|);
  }

  lemma WholeSlice<T>(s: seq<T>, n: nat)
    requires n == |s|
    ensures s[..n] == s
  {
  }

  lemma ReadsAsArchive(data: Bytes, members: Members)
    requires MAGIC <= data && ReadFrom(AR, data, |MAGIC|, []) == Parsed(members)
    ensures RepackOf(data) == if members == [] then Unchanged else Repacked(members)
  {
    assert data[0] == MAGIC[0] == 33;
    assert data[..2][0] == data[0];
  }

  /** Reading undoes writing: members with distinct names come back in order, and only an empty archive is left alone. */
  lemma ArchiveRoundTrip(ms: seq<Member>)
    requires AllWritable(ms) && forall i, j :: 0 <= i < j < |ms| ==> ms[i].name != ms[j].name
    ensures RepackOf(MAGIC + WriteAll(ms)) == if ms == [] then Unchanged else Repacked(EntriesOf(ms))
  {
    ReaderUnderstands(ms);
    WholeReads(AR, MAGIC, ms);
    CollectFresh(ms);
    ReadsAsArchive(MAGIC + WriteAll(ms), EntriesOf(ms));
  }

  lemma {:induction false} KeepsAll(ms: seq<Member>)
    requires AllWritable(ms)
    ensures Kept(ms, |WriteAll(ms)|) == |ms|
  {
    if ms != [] {
      TailWritable(ms);
      KeepsAll(ms[1..]);
    }
  }

  // ---- files that are left alone, and loops that end early ------------------------------------------

  lemma MagicSpelled()
    ensures DecodeAscii(MAGIC) == "!<arch>\n"
  {
  }

  /** A gzip file, and a file that does not begin with the magic, are left alone. */
  lemma LeftAlone(data: Bytes)
    requires (|data| >= 2 && data[0] == 0x1f && data[1] == 0x8b) || |data| < 8 || DecodeAscii(data[..8]) != "!<arch>\n"
    ensures RepackOf(data) == Unchanged
  {
    if |data| >= 2 && data[0] == 0x1f && data[1] == 0x8b {
      assert data[..2] == [0x1f, 0x8b];
    } else if MAGIC <= data {
      assert data[..8] == MAGIC;
      MagicSpelled();
    }
  }

  /** Whatever stands behind whole members, the loop comes to it with those members collected. */
  lemma {:induction false} ReadsThrough(f: Fields, ms: seq<Member>, data: Bytes, pos: nat, members: Members)
    requires Understands(f, ms) && pos + |WriteAll(ms)| <= |data| && data[pos..pos + |WriteAll(ms)|] == WriteAll(ms)
    ensures ReadFrom(f, data, pos, members) == ReadFrom(f, data, pos + |WriteAll(ms)|, Collect(members, ms))
    decreases |ms|
  {
    if ms != [] {
      var next := pos + Span(ms[0]);
      ThroughOne(f, ms, data, pos, next, members);
      ReadsThrough(f, ms[1..], data, next, Assign(members, ms[0].name, ms[0].content));
    }
  }

  lemma {:induction false} ThroughOne(f: Fields, ms: seq<Member>, data: Bytes, pos: nat, next: nat, members: Members)
    requires Understands(f, ms) && ms != [] && next == pos + Span(ms[0])
    requires pos + |WriteAll(ms)| <= |data| && data[pos..pos + |WriteAll(ms)|] == WriteAll(ms)
    ensures Understands(f, ms[1..]) && pos + |WriteAll(ms)| == next + |WriteAll(ms[1..])|
    ensures data[next..next + |WriteAll(ms[1..])|] == WriteAll(ms[1..])
    ensures ReadFrom(f, data, pos, members) == ReadFrom(f, data, next, Assign(members, ms[0].name, ms[0].content))
  {
    TailUnderstood(f, ms);
    ThroughFirst(ms, data, pos, next);
    ReadOne(f, data, pos, members, HeaderOf(ms[0]), ms[0].name, ms[0].content);
  }

  lemma {:induction false} ThroughFirst(ms: seq<Member>, data: Bytes, pos: nat, next: nat)
    requires AllWritable(ms) && ms != [] && Writable(ms[0]) && AllWritable(ms[1..]) && next == pos + Span(ms[0])
    requires pos + |WriteAll(ms)| <= |data| && data[pos..pos + |WriteAll(ms)|] == WriteAll(ms)
    ensures data[pos..pos + HEADER] == HeaderOf(ms[0]) && data[pos + HEADER..pos + HEADER + |ms[0].content|] == ms[0].content
    ensures pos + |WriteAll(ms)| == next + |WriteAll(ms[1..])| && data[next..next + |WriteAll(ms[1..])|] == WriteAll(ms[1..])
  {
    var cut := data[..pos + |WriteAll(ms)|];
    assert cut[pos..] == WriteAll(ms) && WriteAll(ms)[..|WriteAll(ms)|] == WriteAll(ms);
    FirstMember(ms, cut, pos, next);
    assert WriteAll(ms[1..])[..|WriteAll(ms[1..])|] == WriteAll(ms[1..]);
    assert cut[next..] == data[next..next + |WriteAll(ms[1..])|];
  }

  lemma {:induction false} ComesTo(f: Fields, magic: Bytes, ms: seq<Member>, tail: Bytes)
    requires Understands(f, ms)
    ensures var data, at := magic + (WriteAll(ms) + tail), |magic| + |WriteAll(ms)|;
            ReadFrom(f, data, |magic|, []) == ReadFrom(f, data, at, Collect([], ms)) && data[at..] == tail
  {
    var data := magic + (WriteAll(ms) + tail);
    assert data[|magic|..|magic| + |WriteAll(ms)|] == WriteAll(ms);
    ReadsThrough(f, ms, data, |magic|, []);
  }

  lemma {:induction false} HeaderEnds(f: Fields, data: Bytes, at: nat, members: Members, header: Bytes)
    requires at + HEADER <= |data| && data[at..at + HEADER] == header && (f.size(header).Size? ==> f.size(header).n < 0)
    ensures ReadFrom(f, data, at, members) ==
            match f.size(header) case Blank => Parsed(members) case BadNumber => Raised case Size(_) => NegativeSize
  {
  }

  lemma {:induction false} OddRead(f: Fields, magic: Bytes, ms: seq<Member>, header: Bytes, rest: Bytes)
    requires Understands(f, ms) && |header| == HEADER && (f.size(header).Size? ==> f.size(header).n < 0)
    ensures ReadFrom(f, magic + (WriteAll(ms) + (header + rest)), |magic|, []) ==
            match f.size(header) case Blank => Parsed(Collect([], ms)) case BadNumber => Raised case Size(_) => NegativeSize
  {
    var data, at := magic + (WriteAll(ms) + (header + rest)), |magic| + |WriteAll(ms)|;
    ComesTo(f, magic, ms, header + rest);
    assert data[at..at + HEADER] == data[at..][..HEADER] == header;
    HeaderEnds(f, data, at, Collect([], ms), header);
  }

  lemma RepackReads(data: Bytes)
    requires MAGIC <= data
    ensures var r := ReadFrom(AR, data, |MAGIC|, []);
            RepackOf(data) == if !r.Parsed? then Failed(r) else if r.members == [] then Unchanged else Repacked(r.members)
  {
    MagicFirst(data);
  }

  /** Behind whole members, a header with a blank size ends the loop, one that int() refuses raises, a negative one is an outcome of its own. */
  lemma {:induction false} OddHeader(ms: seq<Member>, header: Bytes, rest: Bytes)
    requires AllWritable(ms) && |header| == HEADER
    ensures var r := RepackOf(MAGIC + (WriteAll(ms) + (header + rest)));
            && (SizeOf(header).Blank? ==> r == if ms == [] then Unchanged else Repacked(Collect([], ms)))
            && (SizeOf(header).BadNumber? ==> r == Failed(Raised))
            && (SizeOf(header).Size? && SizeOf(header).n < 0 ==> r == Failed(NegativeSize))
  {
    ReaderUnderstands(ms);
    RepackReads(MAGIC + (WriteAll(ms) + (header + rest)));
    if SizeOf(header).Size? ==> SizeOf(header).n < 0 { OddRead(AR, MAGIC, ms, header, rest); }
    if ms != [] { CollectsSome(ms); }
  }

  lemma MagicFirst(data: Bytes)
    requires MAGIC <= data
    ensures !(|data| >= 2 && data[..2] == [0x1f, 0x8b])
  {
    assert data[0] == MAGIC[0] == 33;
    assert data[..2][0] == data[0];
  }

  lemma {:induction false} CollectsSome(ms: seq<Member>)
    requires ms != []
    ensures Collect([], ms) != []
  {
    CollectGrows(Assign([], ms[0].name, ms[0].content), ms[1..]);
  }

  lemma {:induction false} CollectGrows(members: Members, ms: seq<Member>)
    ensures |Collect(members, ms)| >= |members|
    decreases |ms|
  {
    if ms != [] {
      AssignGrows(members, ms[0].name, ms[0].content);
      CollectGrows(Assign(members, ms[0].name, ms[0].content), ms[1..]);
    }
  }

  lemma {:induction false} AssignGrows(members: Members, key: string, value: Bytes)
    ensures |Assign(members, key, value)| >= |members|
  {
    if members != [] && members[0].key != key { AssignGrows(members[1..], key, value); }
  }

  /** The size field: stripped, blank or read by int(). */
  lemma SizeSpelled(field: string)
    ensures SizeIn(field) == if Strip(field) == "" then Blank
                             else if ParseInt(Strip(field)).None? then BadNumber else Size(ParseInt(Strip(field)).value)
  {
  }
}
