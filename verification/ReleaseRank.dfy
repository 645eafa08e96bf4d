/** Release ordering (lib/install_paths.py): a tag is parsed into seven numbers, which are compared like a tuple. */
module ReleaseRank {
  import opened Prelude
  import opened PyText

  // ---- the parser -----------------------------------------------------------------------

  /** str.split(sep) with a separator: always at least one part. */
  function SplitOn(s: string, sep: char): (parts: seq<string>)
    ensures |parts| > 0
    decreases |s|
  {
    var n := IndexOf(s, sep);
    if n == |s| then [s] else [s[..n]] + SplitOn(s[n + 1..], sep)
  }

  predicate AllDigits(s: string) { forall i :: 0 <= i < |s| ==> IsDigit(s[i]) }

  /** A letter under IGNORECASE: the long s is the one foreign letter the patterns' letters fold to. */
  predicate SameLetter(c: char, p: char) { LowerChar(c) == p || (p == 's' && c == '\U{17f}') }

  predicate Opens(segment: string, word: string) {
    |word| <= |segment| && forall i :: 0 <= i < |word| ==> SameLetter(segment[i], word[i])
  }

  /** What follows the word of a segment: an optional dot and optional digits, up to the end or a last newline. */
  function Number(rest: string): Option<nat> {
    var body := if rest != "" && rest[|rest| - 1] == '\n' then rest[..|rest| - 1] else rest;
    var digits := if body != "" && body[0] == '.' then body[1..] else body;
    if AllDigits(digits) then Some(DigitsValue(digits)) else None
  }

  const ALPHA := "alpha"
  const BETA := "beta"
  const RC := "rc"
  const PRE := "pre"
  const POST := "post"

  /** The number behind `word`, if the segment is that word. */
  function After(segment: string, word: string): Option<nat> {
    if Opens(segment, word) then Number(segment[|word|..]) else None
  }

  /** The last four places of a rank. */
  datatype Tail = Tail(stageRank: int, stageNum: int, preRank: int, preNum: int)

  const FINAL := Tail(3, 0, 1, 0)

  /** One segment: a stage, or a pre/post mark, or nothing that counts. */
  function Segment(t: Tail, segment: string): Tail {
    if After(segment, ALPHA).Some? then t.(stageRank := 0, stageNum := After(segment, ALPHA).value)
    else if After(segment, BETA).Some? then t.(stageRank := 1, stageNum := After(segment, BETA).value)
    else if After(segment, RC).Some? then t.(stageRank := 2, stageNum := After(segment, RC).value)
    else if After(segment, PRE).Some? then t.(preRank := 0, preNum := After(segment, PRE).value)
    else if After(segment, POST).Some? then
      t.(preRank := if Lower(segment[..4]) == POST then 1 else 0, preNum := After(segment, POST).value)
    else t
  }

  function Segments(t: Tail, segments: seq<string>): Tail
    decreases |segments|
  {
    if segments == [] then t else Segments(Segment(t, segments[0]), segments[1..])
  }

  /** Unparsable: InstallPathError. BadNumber: int() raised on the minor or patch part. */
  datatype Rank = Rank(places: seq<int>) | Unparsable | BadNumber

  function Part(numbers: seq<string>, i: nat): Option<int> {
    if i < |numbers| then ParseInt(numbers[i]) else Some(0)
  }

  function RankParts(parts: seq<string>): Rank
    requires |parts| > 0
  {
    var numbers := SplitOn(parts[0], '.');
    if numbers[0] == "" || !AllDigits(numbers[0]) then Unparsable else
      var minor, patch := Part(numbers, 1), Part(numbers, 2);
      if minor.None? || patch.None? then BadNumber else
        var t := Segments(FINAL, parts[1..]);
        Rank([DigitsValue(numbers[0]), minor.value, patch.value, t.stageRank, t.stageNum, t.preRank, t.preNum])
  }

  function WithoutV(text: string): string {
    if text != "" && (text[0] == 'v' || text[0] == 'V') then text[1..] else text
  }

  /** The tag without surrounding blanks and its leading v. */
  function Bare(tag: string): string { WithoutV(Strip(tag)) }

  function ReleaseRankOf(tag: string): Rank {
    if Bare(tag) == "" then Unparsable else RankParts(SplitOn(Bare(tag), '-'))
  }

  /** release_rank, with its two loops. */
  method ComputeRank(tag: string) returns (rank: Rank)
    ensures rank == ReleaseRankOf(tag)
  {
    var text := Strip(tag);
    if |text| > 0 && (text[0] == 'v' || text[0] == 'V') { text := text[1..]; }
    if |text| == 0 { return Unparsable; }
    var parts := SplitOn(text, '-');
    var numbers := SplitOn(parts[0], '.');
    if |numbers[0]| == 0 || !AllDigits(numbers[0]) { return Unparsable; }
    var minor, patch := ParseMinorPatch(numbers);
    if minor.None? || patch.None? { return BadNumber; }
    var t := FINAL;
    var rest := parts[1..];
    for i := 0 to |rest|
      invariant Segments(FINAL, rest) == Segments(t, rest[i..])
    {
      assert rest[i..][0] == rest[i] && rest[i..][1..] == rest[i + 1..];
      t := Segment(t, rest[i]);
    }
    assert rest[|rest|..] == [];
    rank := Rank([DigitsValue(numbers[0]), minor.value, patch.value, t.stageRank, t.stageNum, t.preRank, t.preNum]);
  }

  lemma ParseZero()
    ensures ParseInt("0") == Some(0)
  {
    assert Decimal(0) == "0";
    ParseDecimal(0);
  }

  /** The loop that fills the number parts up to three, and the conversion of the last two. */
  method ParseMinorPatch(numbers: seq<string>) returns (minor: Option<int>, patch: Option<int>)
    requires |numbers| > 0
    ensures minor == Part(numbers, 1) && patch == Part(numbers, 2)
  {
    var full := numbers;
    while |full| < 3
      invariant |full| >= |numbers| && full[..|numbers|] == numbers
      invariant forall i :: |numbers| <= i < |full| ==> full[i] == "0"
    {
      full := full + ["0"];
    }
    ParseZero();
    assert forall i :: 0 <= i < |numbers| ==> full[i] == full[..|numbers|][i];
    minor, patch := ParseInt(full[1]), ParseInt(full[2]);
  }

  // ---- the order --------------------------------------------------------------------------

  /** Tuple comparison. */
  predicate LexLess(a: seq<int>, b: seq<int>)
    requires |a| == |b|
  {
    a != [] && (a[0] < b[0] || (a[0] == b[0] && LexLess(a[1..], b[1..])))
  }

  /** release_at_least; None where either tag raises. */
  function AtLeast(tag: string, minimum: string): Option<bool> {
    var a, b := ReleaseRankOf(tag), ReleaseRankOf(minimum);
    if !a.Rank? || !b.Rank? || |a.places| != |b.places| then None else Some(!LexLess(a.places, b.places))
  }

  lemma {:induction false} LexTotal(a: seq<int>, b: seq<int>)
    requires |a| == |b|
    ensures LexLess(a, b) || LexLess(b, a) || a == b
    ensures !(LexLess(a, b) && LexLess(b, a)) && (a == b ==> !LexLess(a, b))
  {
    if a != [] {
      LexTotal(a[1..], b[1..]);
      if a[0] == b[0] && a[1..] == b[1..] { assert a == [a[0]] + a[1..] && b == [b[0]] + b[1..]; }
    }
  }

  lemma {:induction false} LexTransitive(a: seq<int>, b: seq<int>, c: seq<int>)
    requires |a| == |b| == |c| && !LexLess(a, b) && !LexLess(b, c)
    ensures !LexLess(a, c)
  {
    if a != [] && a[0] == b[0] == c[0] { LexTransitive(a[1..], b[1..], c[1..]); }
  }

  /** On the tags that parse, release_at_least is a total preorder. */
  lemma AtLeastIsTotalPreorder(a: string, b: string, c: string)
    requires ReleaseRankOf(a).Rank? && ReleaseRankOf(b).Rank? && ReleaseRankOf(c).Rank?
    ensures AtLeast(a, a) == Some(true)
    ensures AtLeast(a, b) == Some(true) || AtLeast(b, a) == Some(true)
    ensures AtLeast(a, b) == Some(true) && AtLeast(b, c) == Some(true) ==> AtLeast(a, c) == Some(true)
    ensures AtLeast(a, b) == AtLeast(b, a) == Some(true) <==> ReleaseRankOf(a) == ReleaseRankOf(b)
  {
    var x, y, z := ReleaseRankOf(a).places, ReleaseRankOf(b).places, ReleaseRankOf(c).places;
    LexTotal(x, x);
    LexTotal(x, y);
    if AtLeast(a, b) == Some(true) && AtLeast(b, c) == Some(true) { LexTransitive(x, y, z); }
  }

  // ---- printed tags -----------------------------------------------------------------------

  datatype Prefix = NoPrefix | SmallV | BigV
  datatype Stage = Alpha | Beta | Rc
  datatype Mark = Pre | Post

  /** What stands behind a word: a dot or not, a number or not. */
  datatype Suffix = Suffix(dot: bool, number: Option<nat>)

  datatype Release = Release(prefix: Prefix, major: nat, minor: nat, patch: nat, stage: Option<(Stage, Suffix)>, mark: Option<(Mark, Suffix)>)

  function NumberOf(s: Suffix): nat { if s.number.Some? then s.number.value else 0 }

  function SuffixText(s: Suffix): string {
    (if s.dot then "." else "") + if s.number.Some? then Decimal(s.number.value) else ""
  }

  function StageWord(s: Stage): string { if s.Alpha? then ALPHA else if s.Beta? then BETA else RC }

  function MarkWord(m: Mark): string { if m.Pre? then PRE else POST }

  function PrefixText(p: Prefix): string { if p.NoPrefix? then "" else if p.SmallV? then "v" else "V" }

  function NumberText(r: Release): string { Join([Decimal(r.major), Decimal(r.minor), Decimal(r.patch)], ".") }

  function StageParts(r: Release): seq<string> {
    if r.stage.Some? then [StageWord(r.stage.value.0) + SuffixText(r.stage.value.1)] else []
  }

  function MarkParts(r: Release): seq<string> {
    if r.mark.Some? then [MarkWord(r.mark.value.0) + SuffixText(r.mark.value.1)] else []
  }

  function SegmentTexts(r: Release): seq<string> { StageParts(r) + MarkParts(r) }

  function Parts(r: Release): seq<string> { [NumberText(r)] + SegmentTexts(r) }

  function Print(r: Release): string { PrefixText(r.prefix) + Join(Parts(r), "-") }

  predicate Lacks(s: string, c: char) { forall i :: 0 <= i < |s| ==> s[i] != c }

  lemma SplitFirst(part: string, rest: string, sep: char)
    requires Lacks(part, sep)
    ensures SplitOn(part + ([sep] + rest), sep) == [part] + SplitOn(rest, sep)
  {
    var text := part + ([sep] + rest);
    IndexOfIs(text, sep, |part|);
    assert text[..|part|] == part && text[|part| + 1..] == rest;
  }

  lemma JoinMore(part: string, rest: seq<string>, glue: string)
    requires rest != []
    ensures Join([part] + rest, glue) == part + (glue + Join(rest, glue))
  {
    assert ([part] + rest)[1..] == rest;
  }

  lemma {:induction false} SplitOnJoin(parts: seq<string>, sep: char)
    requires parts != [] && forall i :: 0 <= i < |parts| ==> Lacks(parts[i], sep)
    ensures SplitOn(Join(parts, [sep]), sep) == parts
  {
    if |parts| == 1 {
    } else {
      var rest := parts[1..];
      assert parts == [parts[0]] + rest;
      SplitOnJoin(rest, sep);
      JoinMore(parts[0], rest, [sep]);
      SplitFirst(parts[0], Join(rest, [sep]), sep);
    }
  }

  lemma SuffixReads(s: Suffix)
    ensures Number(SuffixText(s)) == Some(NumberOf(s))
  {
    var digits := if s.number.Some? then Decimal(s.number.value) else "";
    if s.number.Some? { DecimalValue(s.number.value); }
    assert SuffixText(s) == if s.dot then ['.'] + digits else digits;
  }

  lemma OpensOwn(word: string, rest: string)
    requires forall i :: 0 <= i < |word| ==> 'a' <= word[i] <= 'z'
    ensures Opens(word + rest, word) && (word + rest)[|word|..] == rest
  {
  }

  lemma FirstLetterDiffers(segment: string, word: string)
    requires segment != "" && word != "" && !SameLetter(segment[0], word[0])
    ensures After(segment, word).None?
  {
  }

  lemma StageReads(t: Tail, stage: Stage, s: Suffix)
    ensures Segment(t, StageWord(stage) + SuffixText(s)) ==
            t.(stageRank := if stage.Alpha? then 0 else if stage.Beta? then 1 else 2, stageNum := NumberOf(s))
  {
    var word := StageWord(stage);
    SuffixReads(s);
    OpensOwn(word, SuffixText(s));
    assert (word + SuffixText(s))[0] == word[0];
    if !stage.Alpha? { FirstLetterDiffers(word + SuffixText(s), ALPHA); }
    if stage.Rc? { FirstLetterDiffers(word + SuffixText(s), BETA); }
  }

  lemma NoStage(segment: string)
    requires segment != "" && segment[0] == 'p'
    ensures After(segment, ALPHA).None? && After(segment, BETA).None? && After(segment, RC).None?
  {
    FirstLetterDiffers(segment, ALPHA);
    FirstLetterDiffers(segment, BETA);
    FirstLetterDiffers(segment, RC);
  }

  lemma PreReads(t: Tail, s: Suffix)
    ensures Segment(t, PRE + SuffixText(s)) == t.(preRank := 0, preNum := NumberOf(s))
  {
    SuffixReads(s);
    OpensOwn(PRE, SuffixText(s));
    NoStage(PRE + SuffixText(s));
  }

  lemma PostReads(t: Tail, s: Suffix)
    ensures Segment(t, POST + SuffixText(s)) == t.(preRank := 1, preNum := NumberOf(s))
  {
    var segment := POST + SuffixText(s);
    SuffixReads(s);
    OpensOwn(POST, SuffixText(s));
    NoStage(segment);
    assert segment[..4] == POST && Lower(POST) == POST;
    assert segment[1] == 'o' && !SameLetter(segment[1], PRE[1]);
  }

  lemma MarkReads(t: Tail, mark: Mark, s: Suffix)
    ensures Segment(t, MarkWord(mark) + SuffixText(s)) == t.(preRank := if mark.Post? then 1 else 0, preNum := NumberOf(s))
  {
    if mark.Pre? { PreReads(t, s); } else { PostReads(t, s); }
  }

  /** The last four places a release stands for. */
  function TailOf(r: Release): Tail {
    Tail(if r.stage.None? then 3 else if r.stage.value.0.Alpha? then 0 else if r.stage.value.0.Beta? then 1 else 2,
         if r.stage.None? then 0 else NumberOf(r.stage.value.1),
         if r.mark.Some? && r.mark.value.0.Pre? then 0 else 1,
         if r.mark.None? then 0 else NumberOf(r.mark.value.1))
  }

  lemma {:induction false} SegmentsAppend(t: Tail, a: seq<string>, b: seq<string>)
    ensures Segments(t, a + b) == Segments(Segments(t, a), b)
    decreases |a|
  {
    if a == [] {
      assert a + b == b;
    } else {
      assert (a + b)[1..] == a[1..] + b;
      SegmentsAppend(Segment(t, a[0]), a[1..], b);
    }
  }

  lemma SegmentsOne(t: Tail, segment: string)
    ensures Segments(t, [segment]) == Segment(t, segment)
  {
    assert [segment][1..] == [];
  }

  lemma TailReads(r: Release)
    ensures Segments(FINAL, StageParts(r) + MarkParts(r)) == TailOf(r)
  {
    SegmentsAppend(FINAL, StageParts(r), MarkParts(r));
    if r.stage.Some? {
      StageReads(FINAL, r.stage.value.0, r.stage.value.1);
      SegmentsOne(FINAL, StageWord(r.stage.value.0) + SuffixText(r.stage.value.1));
    }
    var t := Segments(FINAL, StageParts(r));
    if r.mark.Some? {
      MarkReads(t, r.mark.value.0, r.mark.value.1);
      SegmentsOne(t, MarkWord(r.mark.value.0) + SuffixText(r.mark.value.1));
    }
  }

  lemma JoinThree(a: string, b: string, c: string)
    ensures Join([a, b, c], ".") == a + "." + (b + "." + c)
  {
    assert [a, b, c][1..] == [b, c] && [b, c][1..] == [c];
    assert Join([c], ".") == c;
    assert Join([b, c], ".") == b + "." + c;
  }

  lemma ThreeNumbers(a: string, b: string, c: string)
    requires a != "" && b != "" && c != "" && AllDigits(a) && AllDigits(b) && AllDigits(c)
    ensures var text := Join([a, b, c], ".");
            && SplitOn(text, '.') == [a, b, c]
            && Lacks(text, '-') && text != "" && IsDigit(text[0]) && IsDigit(text[|text| - 1])
  {
    JoinThree(a, b, c);
    SplitOnJoin([a, b, c], '.');
  }

  lemma NumbersSplit(r: Release)
    ensures SplitOn(NumberText(r), '.') == [Decimal(r.major), Decimal(r.minor), Decimal(r.patch)]
    ensures Lacks(NumberText(r), '-') && NumberText(r) != "" && IsDigit(NumberText(r)[0]) && IsDigit(NumberText(r)[|NumberText(r)| - 1])
  {
    ThreeNumbers(Decimal(r.major), Decimal(r.minor), Decimal(r.patch));
  }

  /** No blank and no hyphen. */
  predicate Plain(s: string) { forall i :: 0 <= i < |s| ==> !IsSpace(s[i]) && s[i] != '-' }

  ghost predicate AllPlain(segments: seq<string>) {
    forall i :: 0 <= i < |segments| ==> segments[i] != "" && Plain(segments[i])
  }

  lemma SegmentsPlain(r: Release)
    ensures AllPlain(SegmentTexts(r))
  {
    if r.stage.Some? { WordPlain(StageWord(r.stage.value.0), r.stage.value.1); }
    if r.mark.Some? { WordPlain(MarkWord(r.mark.value.0), r.mark.value.1); }
  }

  lemma WordPlain(word: string, s: Suffix)
    requires word != "" && forall i :: 0 <= i < |word| ==> 'a' <= word[i] <= 'z'
    ensures word + SuffixText(s) != "" && Plain(word + SuffixText(s))
  {
    assert Plain(word) && Plain(SuffixText(s));
  }

  lemma {:induction false} JoinLast(parts: seq<string>, glue: string)
    requires parts != [] && parts[|parts| - 1] != ""
    ensures var t := Join(parts, glue);
            t != "" && t[|t| - 1] == parts[|parts| - 1][|parts[|parts| - 1]| - 1] && parts[0] <= t
  {
    if |parts| > 1 { JoinLast(parts[1..], glue); }
  }

  /** A first part between digits and plain segments make a text that splits back and has no blank at its ends. */
  lemma JoinedSegments(first: string, segments: seq<string>)
    requires first != "" && IsDigit(first[0]) && IsDigit(first[|first| - 1]) && Lacks(first, '-') && AllPlain(segments)
    ensures var text := Join([first] + segments, "-");
            && text != "" && IsDigit(text[0]) && !IsSpace(text[|text| - 1])
            && SplitOn(text, '-') == [first] + segments
  {
    var parts := [first] + segments;
    var last := parts[|parts| - 1];
    assert segments != [] ==> last == segments[|segments| - 1];
    JoinLast(parts, "-");
    forall i | 0 <= i < |parts| ensures Lacks(parts[i], '-') {
      if i > 0 { assert parts[i] == segments[i - 1] && Plain(segments[i - 1]); }
    }
    SplitOnJoin(parts, '-');
  }

  lemma BareReads(r: Release)
    ensures Bare(Print(r)) == Join(Parts(r), "-") && Join(Parts(r), "-") != "" && SplitOn(Join(Parts(r), "-"), '-') == Parts(r)
  {
    NumbersSplit(r);
    SegmentsPlain(r);
    TextReads(r.prefix, NumberText(r), SegmentTexts(r));
  }

  lemma {:induction false} TextReads(prefix: Prefix, first: string, segments: seq<string>)
    requires first != "" && IsDigit(first[0]) && IsDigit(first[|first| - 1]) && Lacks(first, '-') && AllPlain(segments)
    ensures var text := Join([first] + segments, "-");
            Bare(PrefixText(prefix) + text) == text && text != "" && SplitOn(text, '-') == [first] + segments
  {
    JoinedSegments(first, segments);
  }

  lemma NumbersRead(r: Release)
    ensures var numbers := SplitOn(NumberText(r), '.');
            && numbers[0] != "" && AllDigits(numbers[0]) && DigitsValue(numbers[0]) == r.major
            && Part(numbers, 1) == Some(r.minor) && Part(numbers, 2) == Some(r.patch)
  {
    NumbersSplit(r);
    DecimalValue(r.major);
    ParseDecimal(r.minor);
    ParseDecimal(r.patch);
  }

  function Places(r: Release): seq<int> {
    var t := TailOf(r);
    [r.major, r.minor, r.patch] + [t.stageRank, t.stageNum, t.preRank, t.preNum]
  }

  lemma RankOfParts(parts: seq<string>, numbers: seq<string>, major: nat, minor: int, patch: int, t: Tail)
    requires |parts| > 0 && SplitOn(parts[0], '.') == numbers && Segments(FINAL, parts[1..]) == t
    requires numbers != [] && numbers[0] != "" && AllDigits(numbers[0]) && DigitsValue(numbers[0]) == major
    requires Part(numbers, 1) == Some(minor) && Part(numbers, 2) == Some(patch)
    ensures RankParts(parts) == Rank([major, minor, patch] + [t.stageRank, t.stageNum, t.preRank, t.preNum])
  {
  }

  lemma PartsRank(r: Release)
    ensures RankParts(Parts(r)) == Rank(Places(r))
  {
    NumbersRead(r);
    TailReads(r);
    assert Parts(r)[1..] == SegmentTexts(r);
    RankOfParts(Parts(r), SplitOn(NumberText(r), '.'), r.major, r.minor, r.patch, TailOf(r));
  }

  /** release_rank of a printed release is its components. */
  lemma RankReadsComponents(r: Release)
    ensures ReleaseRankOf(Print(r)) == Rank(Places(r))
  {
    BareReads(r);
    PartsRank(r);
  }

  lemma PrintedAtLeast(a: Release, b: Release)
    ensures AtLeast(Print(a), Print(b)) == Some(!LexLess(Places(a), Places(b)))
  {
    RankReadsComponents(a);
    RankReadsComponents(b);
  }

  // ---- the order the numbers mean -------------------------------------------------------------

  function StageAge(s: Stage): int { if s.Alpha? then 0 else if s.Beta? then 1 else 2 }

  /** alpha before beta before rc before the final release; within a stage by number. */
  predicate StageOlder(a: Option<(Stage, Suffix)>, b: Option<(Stage, Suffix)>) {
    a.Some? && (b.None? || StageAge(a.value.0) < StageAge(b.value.0)
                || (a.value.0 == b.value.0 && NumberOf(a.value.1) < NumberOf(b.value.1)))
  }

  predicate IsPre(m: Option<(Mark, Suffix)>) { m.Some? && m.value.0.Pre? }

  function MarkNumber(m: Option<(Mark, Suffix)>): nat { if m.None? then 0 else NumberOf(m.value.1) }

  /** Every pre before the release itself, which counts as post 0; within a mark by number. */
  predicate MarkOlder(a: Option<(Mark, Suffix)>, b: Option<(Mark, Suffix)>) {
    if IsPre(a) == IsPre(b) then MarkNumber(a) < MarkNumber(b) else IsPre(a)
  }

  predicate Older(a: Release, b: Release) {
    if a.major != b.major then a.major < b.major
    else if a.minor != b.minor then a.minor < b.minor
    else if a.patch != b.patch then a.patch < b.patch
    else if StageOlder(a.stage, b.stage) || StageOlder(b.stage, a.stage) then StageOlder(a.stage, b.stage)
    else MarkOlder(a.mark, b.mark)
  }

  lemma LexStep(x: int, a: seq<int>, y: int, b: seq<int>)
    requires |a| == |b|
    ensures LexLess([x] + a, [y] + b) <==> x < y || (x == y && LexLess(a, b))
  {
    assert ([x] + a)[1..] == a && ([y] + b)[1..] == b;
  }

  lemma LexTail(a: Tail, b: Tail)
    ensures LexLess([a.stageRank, a.stageNum, a.preRank, a.preNum], [b.stageRank, b.stageNum, b.preRank, b.preNum]) <==>
            (if a.stageRank != b.stageRank then a.stageRank < b.stageRank
             else if a.stageNum != b.stageNum then a.stageNum < b.stageNum
             else if a.preRank != b.preRank then a.preRank < b.preRank
             else a.preNum < b.preNum)
  {
    LexStep(a.stageRank, [a.stageNum, a.preRank, a.preNum], b.stageRank, [b.stageNum, b.preRank, b.preNum]);
    LexStep(a.stageNum, [a.preRank, a.preNum], b.stageNum, [b.preRank, b.preNum]);
    LexStep(a.preRank, [a.preNum], b.preRank, [b.preNum]);
    LexStep(a.preNum, [], b.preNum, []);
    assert [a.stageRank] + [a.stageNum, a.preRank, a.preNum] == [a.stageRank, a.stageNum, a.preRank, a.preNum];
    assert [b.stageRank] + [b.stageNum, b.preRank, b.preNum] == [b.stageRank, b.stageNum, b.preRank, b.preNum];
    assert [a.stageNum] + [a.preRank, a.preNum] == [a.stageNum, a.preRank, a.preNum];
    assert [b.stageNum] + [b.preRank, b.preNum] == [b.stageNum, b.preRank, b.preNum];
  }

  lemma LexSeven(x: seq<int>, a: Tail, y: seq<int>, b: Tail)
    requires |x| == |y| == 3
    ensures LexLess(x + [a.stageRank, a.stageNum, a.preRank, a.preNum], y + [b.stageRank, b.stageNum, b.preRank, b.preNum]) <==>
            (if x[0] != y[0] then x[0] < y[0]
             else if x[1] != y[1] then x[1] < y[1]
             else if x[2] != y[2] then x[2] < y[2]
             else LexLess([a.stageRank, a.stageNum, a.preRank, a.preNum], [b.stageRank, b.stageNum, b.preRank, b.preNum]))
  {
    var s, t := [a.stageRank, a.stageNum, a.preRank, a.preNum], [b.stageRank, b.stageNum, b.preRank, b.preNum];
    LexStep(x[2], s, y[2], t);
    LexStep(x[1], [x[2]] + s, y[1], [y[2]] + t);
    LexStep(x[0], [x[1]] + ([x[2]] + s), y[0], [y[1]] + ([y[2]] + t));
    assert x + s == [x[0]] + ([x[1]] + ([x[2]] + s));
    assert y + t == [y[0]] + ([y[1]] + ([y[2]] + t));
  }

  lemma TailOrder(a: Release, b: Release)
    ensures LexLess([TailOf(a).stageRank, TailOf(a).stageNum, TailOf(a).preRank, TailOf(a).preNum],
                    [TailOf(b).stageRank, TailOf(b).stageNum, TailOf(b).preRank, TailOf(b).preNum]) <==>
            (if StageOlder(a.stage, b.stage) || StageOlder(b.stage, a.stage) then StageOlder(a.stage, b.stage) else MarkOlder(a.mark, b.mark))
  {
    LexTail(TailOf(a), TailOf(b));
  }

  /** release_at_least of printed releases is the order of their numbers and stages. */
  lemma AtLeastAgreesWithNumbers(a: Release, b: Release)
    ensures AtLeast(Print(a), Print(b)) == Some(!Older(a, b))
  {
    PrintedAtLeast(a, b);
    LexSeven([a.major, a.minor, a.patch], TailOf(a), [b.major, b.minor, b.patch], TailOf(b));
    TailOrder(a, b);
  }

  /**
   A pre-N precedes what it is a pre of, with a stage or without; a post-N follows it, except that a post of
   number 0 has the very rank of the release itself.
   */
  lemma PreAndPost(r: Release, pre: Suffix, post: Suffix)
    requires r.mark.None?
    ensures AtLeast(Print(r.(mark := Some((Pre, pre)))), Print(r)) == Some(false)
    ensures AtLeast(Print(r.(mark := Some((Post, post)))), Print(r)) == Some(true)
    ensures ReleaseRankOf(Print(r)) == ReleaseRankOf(Print(r.(mark := Some((Post, post))))) <==> NumberOf(post) == 0
  {
    var later := r.(mark := Some((Post, post)));
    AtLeastAgreesWithNumbers(r.(mark := Some((Pre, pre))), r);
    AtLeastAgreesWithNumbers(later, r);
    RankReadsComponents(r);
    RankReadsComponents(later);
    PostPlaces(r, post);
  }

  lemma PostPlaces(r: Release, post: Suffix)
    requires r.mark.None?
    ensures Places(r) == Places(r.(mark := Some((Post, post)))) <==> NumberOf(post) == 0
  {
    var x, y := Places(r), Places(r.(mark := Some((Post, post))));
    assert x[6] == 0 && y[6] == NumberOf(post) && x[..6] == y[..6];
    assert x == x[..6] + [x[6]] && y == y[..6] + [y[6]];
  }

  /** Every stage precedes the final release of the same numbers, whatever pre or post marks either bears. */
  lemma StageBeforeFinal(stage: Release, final: Release)
    requires stage.stage.Some? && final.stage.None?
    requires stage.major == final.major && stage.minor == final.minor && stage.patch == final.patch
    ensures AtLeast(Print(stage), Print(final)) == Some(false)
  {
    AtLeastAgreesWithNumbers(stage, final);
  }

  // ---- the words, and texts that are no releases -------------------------------------------------

  lemma WordsSpelled()
    ensures StageWord(Alpha) == "alpha" && StageWord(Beta) == "beta" && StageWord(Rc) == "rc" && MarkWord(Pre) == "pre" && MarkWord(Post) == "post"
  {
  }

  /** A printed release, character for character. */
  lemma PrintSpelled(r: Release)
    ensures Print(r) == (if r.prefix.NoPrefix? then "" else if r.prefix.SmallV? then "v" else "V")
                        + (Decimal(r.major) + "." + (Decimal(r.minor) + "." + Decimal(r.patch))
                        + ((if r.stage.None? then "" else
                              "-" + ((if r.stage.value.0.Alpha? then "alpha" else if r.stage.value.0.Beta? then "beta" else "rc") + SuffixText(r.stage.value.1)))
                        + (if r.mark.None? then "" else "-" + ((if r.mark.value.0.Pre? then "pre" else "post") + SuffixText(r.mark.value.1)))))
  {
    WordsSpelled();
    JoinThree(Decimal(r.major), Decimal(r.minor), Decimal(r.patch));
    JoinedSegmentTexts(NumberText(r), StageParts(r), MarkParts(r));
  }

  lemma JoinedSegmentTexts(first: string, a: seq<string>, b: seq<string>)
    requires |a| <= 1 && |b| <= 1
    ensures Join([first] + (a + b), "-") == first + ((if a == [] then "" else "-" + a[0]) + (if b == [] then "" else "-" + b[0]))
  {
    if a != [] && b != [] {
      assert [first] + (a + b) == [first] + ([a[0]] + [b[0]]);
      JoinMore(first, [a[0]] + [b[0]], "-");
      JoinMore(a[0], [b[0]], "-");
    } else if a != [] {
      assert [first] + (a + b) == [first] + [a[0]];
      JoinMore(first, [a[0]], "-");
    } else if b != [] {
      assert [first] + (a + b) == [first] + [b[0]];
      JoinMore(first, [b[0]], "-");
    } else {
      assert [first] + (a + b) == [first];
    }
  }

  lemma {:induction false} SplitStarts(s: string, sep: char)
    ensures SplitOn(s, sep)[0] <= s && (s != "" && s[0] != sep ==> SplitOn(s, sep)[0] != "")
  {
  }

  /** A tag that, blanks and a leading v apart, is empty or begins with anything but a digit is refused: "nightly", "", "v". */
  lemma NoNumberFirst(tag: string)
    requires Bare(tag) == "" || !('0' <= Bare(tag)[0] <= '9')
    ensures ReleaseRankOf(tag) == Unparsable
  {
    if Bare(tag) != "" {
      SplitStarts(Bare(tag), '-');
      var first := SplitOn(Bare(tag), '-')[0];
      SplitStarts(first, '.');
      if first != "" && SplitOn(first, '.')[0] != "" { assert SplitOn(first, '.')[0][0] == Bare(tag)[0]; }
    }
  }

  lemma SplitWhole(part: string, sep: char)
    requires Lacks(part, sep)
    ensures SplitOn(part, sep) == [part]
  {
    IndexOfIs(part, sep, |part|);
  }

  /** Missing numbers count as zero. */
  lemma OneNumber(major: nat)
    ensures ReleaseRankOf(Decimal(major)) == Rank([major, 0, 0, 3, 0, 1, 0])
  {
    var tag := Decimal(major);
    DecimalValue(major);
    StripKeeps(tag);
    SplitWhole(tag, '-');
    SplitWhole(tag, '.');
    RankOfParts([tag], [tag], major, 0, 0, FINAL);
  }

  lemma TwoNumbers(major: nat, minor: nat)
    ensures ReleaseRankOf(Decimal(major) + ("." + Decimal(minor))) == Rank([major, minor, 0, 3, 0, 1, 0])
  {
    var a, b := Decimal(major), Decimal(minor);
    var tag := a + ("." + b);
    DecimalValue(major);
    ParseDecimal(minor);
    TwoSplit(a, b);
    RankOfParts([tag], [a, b], major, minor, 0, FINAL);
  }

  lemma TwoSplit(a: string, b: string)
    requires a != "" && b != "" && AllDigits(a) && AllDigits(b)
    ensures var tag := a + ("." + b); Bare(tag) == tag && SplitOn(tag, '-') == [tag] && SplitOn(tag, '.') == [a, b]
  {
    var tag := a + ("." + b);
    assert tag[0] == a[0] && tag[|tag| - 1] == b[|b| - 1];
    StripKeeps(tag);
    assert forall i :: 0 <= i < |tag| ==> IsDigit(tag[i]) || tag[i] == '.';
    SplitWhole(tag, '-');
    SplitFirst(a, b, '.');
    SplitWhole(b, '.');
  }

  /** A second or third number that int() refuses raises, whatever follows. */
  lemma BadNumberRaises(tag: string)
    requires Bare(tag) != ""
    requires var numbers := SplitOn(SplitOn(Bare(tag), '-')[0], '.');
             && numbers[0] != "" && AllDigits(numbers[0])
             && ((|numbers| > 1 && ParseInt(numbers[1]).None?) || (|numbers| > 2 && ParseInt(numbers[2]).None?))
    ensures ReleaseRankOf(tag) == BadNumber
  {
  }

  /** The words count in any case. */
  lemma SegmentAnyCase(t: Tail, a: string, b: string)
    requires Lower(a) == Lower(b)
    ensures Segment(t, a) == Segment(t, b)
  {
    AfterAnyCase(a, b, ALPHA);
    AfterAnyCase(a, b, BETA);
    AfterAnyCase(a, b, RC);
    AfterAnyCase(a, b, PRE);
    AfterAnyCase(a, b, POST);
    if |a| >= 4 { assert Lower(a[..4]) == Lower(a)[..4] == Lower(b)[..4] == Lower(b[..4]); }
  }

  lemma SameLower(a: string, b: string)
    requires Lower(a) == Lower(b)
    ensures |a| == |b| && forall i :: 0 <= i < |a| ==> LowerChar(a[i]) == LowerChar(b[i])
  {
    assert |a| == |Lower(a)| == |Lower(b)| == |b|;
    forall i | 0 <= i < |a| ensures LowerChar(a[i]) == LowerChar(b[i]) { assert Lower(a)[i] == Lower(b)[i]; }
  }

  lemma AfterAnyCase(a: string, b: string, word: string)
    requires Lower(a) == Lower(b)
    ensures After(a, word) == After(b, word)
  {
    SameLower(a, b);
    OpensAnyCase(a, b, word);
    if Opens(a, word) { NumberAnyCase(a[|word|..], b[|word|..]); }
  }

  lemma OpensAnyCase(a: string, b: string, word: string)
    requires |a| == |b| && forall i :: 0 <= i < |a| ==> LowerChar(a[i]) == LowerChar(b[i])
    ensures Opens(a, word) <==> Opens(b, word)
  {
    if |word| <= |a| {
      forall i | 0 <= i < |word| ensures SameLetter(a[i], word[i]) <==> SameLetter(b[i], word[i]) {}
    }
  }

  predicate NumberChar(c: char) { IsDigit(c) || c == '.' || c == '\n' }

  lemma JunkNumber(a: string, i: nat)
    requires i < |a| && !NumberChar(a[i])
    ensures Number(a) == None
  {
    var body := if a[|a| - 1] == '\n' then a[..|a| - 1] else a;
    assert body[i] == a[i];
    var digits := if body[0] == '.' then body[1..] else body;
    assert digits[if body[0] == '.' then i - 1 else i] == a[i];
  }

  lemma NumberAnyCase(a: string, b: string)
    requires |a| == |b| && forall i :: 0 <= i < |a| ==> LowerChar(a[i]) == LowerChar(b[i])
    ensures Number(a) == Number(b)
  {
    if i :| 0 <= i < |a| && !NumberChar(a[i]) {
      JunkNumber(a, i);
      JunkNumber(b, i);
    } else {
      assert a == b;
    }
  }

  /** A segment that begins with none of the words' letters counts for nothing. */
  lemma OtherSegment(t: Tail, segment: string)
    requires segment == "" || LowerChar(segment[0]) !in "abrp"
    ensures Segment(t, segment) == t
  {
    if segment != "" {
      FirstLetterDiffers(segment, ALPHA);
      FirstLetterDiffers(segment, BETA);
      FirstLetterDiffers(segment, RC);
      FirstLetterDiffers(segment, PRE);
      FirstLetterDiffers(segment, POST);
    }
  }

  /** The long s passes the pattern of "post" but is not lower-cased to it, so such a segment counts as a pre. */
  lemma LongSIsPre(t: Tail, segment: string)
    requires |segment| == 4 && segment[0] == 'p' && segment[1] == 'o' && segment[2] == '\U{17f}' && segment[3] == 't'
    ensures Segment(t, segment) == t.(preRank := 0, preNum := 0)
  {
    NoStage(segment);
    assert segment[4..] == "" && segment[..4] == segment;
    assert !SameLetter(segment[1], PRE[1]);
    assert Lower(segment)[2] == segment[2] != POST[2];
  }
}
