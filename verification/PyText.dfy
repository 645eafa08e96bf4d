/** The Python string operations the lock and release code lean on: whitespace, strip, split, folding, lower. */
module PyText {
  import opened Prelude

  /** What str.isspace, str.split, str.strip and the regex class \s agree to call white space. */
  predicate IsSpace(c: char) {
    || ('\t' <= c <= '\r') || ('\U{1c}' <= c <= ' ') || c == '\U{85}' || c == '\U{a0}' || c == '\U{1680}'
    || ('\U{2000}' <= c <= '\U{200a}') || c == '\U{2028}' || c == '\U{2029}' || c == '\U{202f}'
    || c == '\U{205f}' || c == '\U{3000}'
  }

  /** White space by its character codes. */
  lemma SpaceCodes(c: char)
    ensures IsSpace(c) <==> (c as int) in {9, 10, 11, 12, 13, 28, 29, 30, 31, 32, 133, 160, 5760, 8192, 8193, 8194, 8195, 8196, 8197,
                                           8198, 8199, 8200, 8201, 8202, 8232, 8233, 8239, 8287, 12288}
  {
  }

  /** A nonempty run without white space: what split() yields. */
  predicate IsWord(s: string) {
    s != "" && forall i :: 0 <= i < |s| ==> !IsSpace(s[i])
  }

  function DropSpaces(s: string): (r: string)
    ensures |r| <= |s|
    ensures r == "" || !IsSpace(r[0])
  {
    if s == "" || !IsSpace(s[0]) then s else DropSpaces(s[1..])
  }

  function TrimEnd(s: string): (r: string)
    ensures r <= s
    ensures r == "" || !IsSpace(r[|r| - 1])
  {
    if s == "" || !IsSpace(s[|s| - 1]) then s else TrimEnd(s[..|s| - 1])
  }

  /** str.strip(). */
  function Strip(s: string): string { TrimEnd(DropSpaces(s)) }

  /** How long the leading run without white space is. */
  function WordLength(s: string): (n: nat)
    ensures n <= |s| && (n < |s| ==> IsSpace(s[n]))
    ensures forall i :: 0 <= i < n ==> !IsSpace(s[i])
  {
    if s == "" || IsSpace(s[0]) then 0 else
      var n := WordLength(s[1..]);
      assert forall i :: 0 < i < n + 1 ==> s[i] == s[1..][i - 1];
      n + 1
  }

  /** str.split(): the words, in order. */
  function Split(s: string): (words: seq<string>)
    ensures forall i :: 0 <= i < |words| ==> IsWord(words[i])
    decreases |s|
  {
    var rest := DropSpaces(s);
    if rest == "" then [] else
      var n := WordLength(rest);
      [rest[..n]] + Split(rest[n..])
  }

  /** re.sub(r"\s+", "_", s). */
  function Fold(s: string): string
    decreases |s|
  {
    if s == "" then ""
    else if IsSpace(s[0]) then "_" + Fold(DropSpaces(s))
    else [s[0]] + Fold(s[1..])
  }

  function Join(words: seq<string>, glue: string): string {
    if words == [] then "" else if |words| == 1 then words[0] else words[0] + glue + Join(words[1..], glue)
  }

  /** str.lower() as far as comparison with ASCII text can tell: the Kelvin sign is the one foreign capital of an ASCII letter. */
  function LowerChar(c: char): char {
    if 'A' <= c <= 'Z' then c - 'A' + 'a' else if c == '\U{212a}' then 'k' else c
  }

  /** Lower case by character codes. */
  lemma LowerCodes(c: char)
    ensures LowerChar(c) as int == if 65 <= c as int <= 90 then c as int + 32 else if c as int == 8490 then 107 else c as int
  {
  }

  function Lower(s: string): (r: string)
    ensures |r| == |s| && forall i :: 0 <= i < |s| ==> r[i] == LowerChar(s[i])
  {
    seq(|s|, i requires 0 <= i < |s| => LowerChar(s[i]))
  }

  /** Where `c` first occurs, or the length of `s`. */
  function IndexOf(s: string, c: char): (n: nat)
    ensures n <= |s| && (n < |s| ==> s[n] == c)
    ensures forall i :: 0 <= i < n ==> s[i] != c
  {
    if s == "" || s[0] == c then 0 else
      var n := IndexOf(s[1..], c);
      assert forall i :: 0 < i < n + 1 ==> s[i] == s[1..][i - 1];
      n + 1
  }

  lemma {:induction false} IndexOfIs(s: string, c: char, n: nat)
    requires n <= |s| && (forall i :: 0 <= i < n ==> s[i] != c) && (n < |s| ==> s[n] == c)
    ensures IndexOf(s, c) == n
  {
    if n > 0 {
      IndexOfIs(s[1..], c, n - 1);
    }
  }

  lemma StripKeeps(s: string)
    requires s != "" && !IsSpace(s[0]) && !IsSpace(s[|s| - 1])
    ensures Strip(s) == s && Strip(s + "\n") == s
  {
    assert (s + "\n")[..|s + "\n"| - 1] == s;
  }

  lemma {:induction false} WordLengthIs(w: string, rest: string)
    requires IsWord(w) && (rest == "" || IsSpace(rest[0]))
    ensures WordLength(w + rest) == |w|
  {
    assert (w + rest)[0] == w[0] && (w + rest)[1..] == w[1..] + rest;
    if |w| == 1 {
      assert w[1..] + rest == rest;
    } else {
      WordLengthIs(w[1..], rest);
    }
  }

  /** A word followed by a space or the end is split off whole. */
  lemma SplitWord(w: string, rest: string)
    requires IsWord(w) && (rest == "" || IsSpace(rest[0]))
    ensures Split(w + rest) == [w] + Split(rest)
  {
    WordLengthIs(w, rest);
    assert (w + rest)[0] == w[0];
    assert (w + rest)[..|w|] == w && (w + rest)[|w|..] == rest;
  }

  lemma SplitSpace(rest: string)
    ensures Split(" " + rest) == Split(rest)
  {
    assert (" " + rest)[1..] == rest;
    assert DropSpaces(" " + rest) == DropSpaces(rest);
  }

  /** split() undoes joining words with single spaces. */
  lemma {:induction false} SplitJoin(words: seq<string>)
    requires forall i :: 0 <= i < |words| ==> IsWord(words[i])
    ensures Split(Join(words, " ")) == words
  {
    if words == [] {
    } else if |words| == 1 {
      assert words[0] + "" == words[0];
      SplitWord(words[0], "");
    } else {
      var tail := Join(words[1..], " ");
      SplitJoin(words[1..]);
      SplitSpace(tail);
      assert words[0] + " " + tail == words[0] + (" " + tail);
      SplitWord(words[0], " " + tail);
    }
  }

  // ---- folding is joining the words ----------------------------------------------

  lemma {:induction false} FoldWord(w: string, rest: string)
    requires forall i :: 0 <= i < |w| ==> !IsSpace(w[i])
    ensures Fold(w + rest) == w + Fold(rest)
  {
    if w == "" {
      assert w + rest == rest;
    } else {
      assert (w + rest)[0] == w[0] && (w + rest)[1..] == w[1..] + rest;
      FoldWord(w[1..], rest);
    }
  }

  lemma {:induction false} DropSpacesSuffix(s: string)
    requires s != "" && !IsSpace(s[|s| - 1])
    ensures DropSpaces(s) != "" && DropSpaces(s)[|DropSpaces(s)| - 1] == s[|s| - 1]
  {
    if IsSpace(s[0]) { DropSpacesSuffix(s[1..]); }
  }

  lemma {:induction false} FoldStripped(s: string)
    requires s == "" || (!IsSpace(s[0]) && !IsSpace(s[|s| - 1]))
    ensures Fold(s) == Join(Split(s), "_")
    decreases |s|
  {
    if s != "" {
      var n := WordLength(s);
      var w, rest := s[..n], s[n..];
      assert s == w + rest;
      FoldWord(w, rest);
      if rest == "" {
        assert Split(rest) == [] && Split(s) == [w];
        assert w + "" == w;
      } else {
        var next := DropSpaces(rest);
        DropSpacesSuffix(rest);
        FoldStripped(next);
        assert Split(rest) == Split(next) == [next[..WordLength(next)]] + Split(next[WordLength(next)..]);
        assert Split(s)[1..] == Split(next);
      }
    }
  }

  lemma DropSpacesAppend(s: string, c: char)
    requires IsSpace(c)
    ensures DropSpaces(s + [c]) == if DropSpaces(s) == "" then "" else DropSpaces(s) + [c]
  {
    if s == "" {
      assert s + [c] == [c] && [c][1..] == "";
      assert DropSpaces([c][1..]) == "";
    } else if IsSpace(s[0]) {
      assert (s + [c])[1..] == s[1..] + [c];
      DropSpacesAppend(s[1..], c);
    }
  }

  lemma {:induction false} SplitTrailing(s: string, c: char)
    requires IsSpace(c)
    ensures Split(s + [c]) == Split(s)
    decreases |s|
  {
    var rest := DropSpaces(s);
    DropSpacesAppend(s, c);
    if rest != "" {
      var n := WordLength(rest);
      assert rest + [c] == rest[..n] + (rest[n..] + [c]);
      SplitTrailing(rest[n..], c);
      SplitWord(rest[..n], rest[n..] + [c]);
      assert Split(s + [c]) == Split(rest + [c]);
    }
  }

  lemma {:induction false} SplitTrimmed(s: string)
    ensures Split(TrimEnd(s)) == Split(s)
  {
    if s != "" && IsSpace(s[|s| - 1]) {
      var t := s[..|s| - 1];
      SplitTrimmed(t);
      SplitTrailing(t, s[|s| - 1]);
      assert s == t + [s[|s| - 1]];
    }
  }

  lemma TrimEndFirst(s: string)
    requires s != "" && !IsSpace(s[0])
    ensures TrimEnd(s) != "" && TrimEnd(s)[0] == s[0]
  {
    if IsSpace(s[|s| - 1]) { TrimEndFirst(s[..|s| - 1]); }
  }

  lemma SplitStripped(s: string)
    ensures Split(Strip(s)) == Split(s)
  {
    SplitTrimmed(DropSpaces(s));
  }

  /** Stripping and folding white space is joining the words with underscores. */
  lemma FoldJoinsWords(s: string)
    ensures Fold(Strip(s)) == Join(Split(s), "_")
  {
    SplitStripped(s);
    if DropSpaces(s) != "" { TrimEndFirst(DropSpaces(s)); }
    FoldStripped(Strip(s));
  }

  lemma {:induction false} FoldHasNoSpace(s: string)
    ensures forall i :: 0 <= i < |Fold(s)| ==> !IsSpace(Fold(s)[i])
    decreases |s|
  {
    if s == "" {
    } else if IsSpace(s[0]) {
      FoldHasNoSpace(DropSpaces(s));
    } else {
      FoldHasNoSpace(s[1..]);
    }
  }

  /** Stripping twice is stripping once. */
  lemma StripStripped(s: string)
    ensures Strip(Strip(s)) == Strip(s)
  {
    if DropSpaces(s) != "" {
      TrimEndFirst(DropSpaces(s));
      StripKeeps(Strip(s));
    }
  }

  /** Text after a blank does not change the first word. */
  lemma {:induction false} FirstWordStays(a: string, b: string)
    requires Split(a) != [] && (b == "" || IsSpace(b[0]))
    ensures Split(a + b) != [] && Split(a + b)[0] == Split(a)[0]
  {
    if IsSpace(a[0]) {
      assert (a + b)[1..] == a[1..] + b;
      FirstWordStays(a[1..], b);
    } else {
      var n := WordLength(a);
      assert a + b == a[..n] + (a[n..] + b);
      WordLengthIs(a[..n], a[n..] + b);
      assert (a + b)[..n] == a[..n];
    }
  }

  // ---- int(): an optional sign, then digits with single underscores between them ------------------

  predicate DigitOrMark(c: char) { IsDigit(c) || c == '_' }

  /** Digits with single underscores between them. */
  predicate IsDigitRun(s: string) {
    && s != "" && IsDigit(s[0]) && IsDigit(s[|s| - 1])
    && (forall i :: 0 <= i < |s| ==> DigitOrMark(s[i]))
    && forall i :: 0 < i < |s| && s[i] == '_' ==> s[i - 1] != '_'
  }

  /** The value of the digits, underscores skipped. */
  function RunValue(s: string): nat
    requires forall i :: 0 <= i < |s| ==> DigitOrMark(s[i])
  {
    if s == "" then 0 else
      var last := s[|s| - 1];
      assert DigitOrMark(last);
      var before := RunValue(s[..|s| - 1]);
      if last == '_' then before else 10 * before + (last as int - '0' as int)
  }

  function DigitRun(s: string): Option<nat> {
    if IsDigitRun(s) then Some(RunValue(s)) else None
  }

  /** int(text) of ASCII text; None where it raises. */
  function ParseInt(text: string): Option<int> {
    var s := Strip(text);
    if s != "" && s[0] == '-' then Signed(-1, DigitRun(s[1..]))
    else if s != "" && s[0] == '+' then Signed(1, DigitRun(s[1..]))
    else Signed(1, DigitRun(s))
  }

  function Signed(sign: int, n: Option<nat>): Option<int> {
    if n.None? then None else
      var value: int := sign * n.value;
      Some(value)
  }

  lemma {:induction false} RunOfDecimal(n: nat)
    ensures RunValue(Decimal(n)) == n
  {
    var s := Decimal(n);
    if n < 10 {
      assert s[..0] == "";
    } else {
      RunOfDecimal(n / 10);
      assert s[..|s| - 1] == Decimal(n / 10);
    }
  }

  lemma ParseDecimal(n: nat)
    ensures ParseInt(Decimal(n)) == Some(n)
  {
    RunOfDecimal(n);
    StripKeeps(Decimal(n));
  }

  /** Text without surrounding blanks survives padding and stripping. */
  lemma StripPadded(s: string, n: nat)
    requires s != "" ==> !IsSpace(s[0]) && !IsSpace(s[|s| - 1])
    ensures Strip(s + Repeat(' ', n)) == s
  {
    if s == "" {
      assert s + Repeat(' ', n) == Repeat(' ', n);
      DropBlanks(n);
    } else {
      assert DropSpaces(s + Repeat(' ', n)) == s + Repeat(' ', n);
      TrimBlanks(s, n);
    }
  }

  function Repeat(c: char, n: nat): (s: string)
    ensures |s| == n && forall i :: 0 <= i < n ==> s[i] == c
  {
    seq(n, _ => c)
  }

  lemma {:induction false} DropBlanks(n: nat)
    ensures DropSpaces(Repeat(' ', n)) == ""
  {
    if n > 0 {
      DropBlanks(n - 1);
      assert Repeat(' ', n)[1..] == Repeat(' ', n - 1);
    }
  }

  lemma {:induction false} TrimBlanks(s: string, n: nat)
    requires s != "" && !IsSpace(s[|s| - 1])
    ensures TrimEnd(s + Repeat(' ', n)) == s
  {
    var t := s + Repeat(' ', n);
    if n == 0 {
      assert t == s;
    } else {
      TrimBlanks(s, n - 1);
      assert t[..|t| - 1] == s + Repeat(' ', n - 1);
    }
  }

  lemma SignedText(text: string, digits: string)
    requires text != "" && text[1..] == digits && Strip(text) == text && (text[0] == '-' || text[0] == '+')
    requires IsDigitRun(digits)
    ensures var n: int := RunValue(digits); ParseInt(text) == Some(if text[0] == '-' then -n else n)
  {
  }

  lemma SignStripped(sign: char, digits: string)
    requires (sign == '-' || sign == '+') && digits != "" && forall i :: 0 <= i < |digits| ==> IsDigit(digits[i])
    ensures Strip([sign] + digits) == [sign] + digits && ([sign] + digits)[1..] == digits && IsDigitRun(digits)
  {
    var text := [sign] + digits;
    assert text[|text| - 1] == digits[|digits| - 1];
    StripKeeps(text);
  }

  /** A sign may stand before the digits. */
  lemma ParseSigned(n: nat, sign: char, digits: string)
    requires (sign == '-' || sign == '+') && digits == Decimal(n)
    ensures var m: int := n; ParseInt([sign] + digits) == Some(if sign == '-' then -m else m)
  {
    RunOfDecimal(n);
    SignStripped(sign, digits);
    SignedText([sign] + digits, digits);
  }

  /** An underscore may stand between two digits. */
  lemma UnderscoreBetween(d: char, e: char)
    requires IsDigit(d) && IsDigit(e)
    ensures ParseInt([d, '_', e]) == Some(10 * (d as int - 48) + (e as int - 48))
  {
    var s := [d, '_', e];
    StripKeeps(s);
    assert s[..2] == [d, '_'] && [d, '_'][..1] == [d] && [d][..0] == [];
    assert RunValue([d]) == d as int - 48;
    assert RunValue([d, '_']) == RunValue([d]);
    assert RunValue(s) == 10 * RunValue([d, '_']) + (e as int - 48);
  }

  /** It may not stand first, last or behind another. */
  lemma BadRun(s: string, i: nat)
    requires Strip(s) == s && i < |s| && s[0] != '-' && s[0] != '+'
    requires s[i] == '_' && (i == 0 || i == |s| - 1 || s[i - 1] == '_')
    ensures ParseInt(s) == None
  {
    if IsDigitRun(s) { RunHas(s, i); }
  }

  lemma RunHas(s: string, i: nat)
    requires IsDigitRun(s) && i < |s|
    ensures (s[i] == '_' ==> 0 < i < |s| - 1 && s[i - 1] != '_') && (IsDigit(s[i]) || s[i] == '_')
  {
    assert DigitOrMark(s[i]);
  }

  lemma {:induction false} BlankIsNoNumber(text: string)
    requires Strip(text) == ""
    ensures ParseInt(text) == None
  {
  }

  lemma {:induction false} BareSign(text: string)
    requires |text| == 1 && (text[0] == '-' || text[0] == '+')
    ensures ParseInt(text) == None
  {
    var rest := text[1..];
    StripKeeps(text);
    assert rest == "" && !IsDigitRun(rest);
  }

  /** Nothing but digits, underscores, one sign and surrounding blanks is ever part of a number. */
  lemma ParseJunk(text: string, i: nat)
    requires Strip(text) == text && i < |text| && !IsDigit(text[i]) && text[i] != '_'
    requires i > 0 || (text[0] != '-' && text[0] != '+')
    ensures ParseInt(text) == None
  {
    if text[0] == '-' || text[0] == '+' {
      assert text[1..][i - 1] == text[i];
      assert !DigitOrMark(text[1..][i - 1]);
    } else {
      assert !DigitOrMark(text[i]);
    }
  }
}
