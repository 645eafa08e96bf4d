/**
 The one-line holder record of the bench lock file (lib/bench_lock.py): how it is built, how it is
 parsed, and when it still claims an owner.
 */
module HolderLine {
  import opened Prelude
  import opened PyText

  const RELEASED := "released"

  datatype Holder = Holder(raw: string, profile: string, pid: string, task: string, purpose: string, since: string, host: string)

  const NO_HOLDER := Holder("", "", "", "", "", "", "")

  /** clean_field: strip, fold white space, fall back to a default. */
  function Clean(value: string, default: string): string {
    var folded := Fold(Strip(value));
    if folded == "" then default else folded
  }

  /** Who opens the window: the arguments of holder_line after its environment fallbacks. */
  datatype Claim = Claim(profile: string, pid: int, purpose: string, since: string, task: string, host: string)

  function Pair(key: string, value: string): string { key + "=" + value }

  /** The words of a holder line, from its already cleaned parts. */
  function Words(who: string, pid: string, purpose: string, since: string, task: string, host: string): seq<string> {
    [who, Pair("pid", pid), Pair("purpose", purpose), Pair("since", since), Pair("task", task), Pair("host", host)]
  }

  function Line(c: Claim): string {
    Join(Words(Clean(c.profile, "unknown"), IntText(c.pid), Clean(c.purpose, "ad-hoc"), c.since,
               Clean(c.task, "-"), Clean(c.host, "unknown")), " ")
  }

  function KeyOf(token: string): string
    requires '=' in token
  {
    Lower(token[..IndexOf(token, '=')])
  }

  function ValueOf(token: string): string
    requires '=' in token
  {
    var n := IndexOf(token, '=');
    assert n < |token|;
    token[n + 1..]
  }

  /** The key=value tokens as a dictionary; a later token overwrites an earlier one. */
  function FieldsOf(tokens: seq<string>): map<string, string> {
    if tokens == [] then map[] else
      var n := |tokens| - 1;
      if '=' in tokens[n] then FieldsOf(tokens[..n])[KeyOf(tokens[n]) := ValueOf(tokens[n])] else FieldsOf(tokens[..n])
  }

  function Get(fields: map<string, string>, key: string): string {
    if key in fields then fields[key] else ""
  }

  /** HOLDER_LINE_RE on the words of a stripped text. */
  predicate LineShape(tokens: seq<string>) {
    && |tokens| >= 4
    && "pid=" < tokens[1] && (forall i :: 4 <= i < |tokens[1]| ==> IsDigit(tokens[1][i]))
    && "purpose=" < tokens[2]
    && "since=" < tokens[3]
  }

  /** Shape first, then a profile= field, then a bare first word. */
  function ProfileOf(tokens: seq<string>): string {
    var found := if LineShape(tokens) then tokens[0] else Get(FieldsOf(tokens), "profile");
    if found == "" && tokens != [] && '=' !in tokens[0] then tokens[0] else found
  }

  function ParseHolder(text: string): Holder {
    var raw := Strip(text);
    if raw == "" then NO_HOLDER else
      var tokens := Split(raw);
      var fields := FieldsOf(tokens);
      var task := Get(fields, "task");
      Holder(raw, ProfileOf(tokens), Get(fields, "pid"), if task == "-" then "" else task,
             Get(fields, "purpose"), Get(fields, "since"), Get(fields, "host"))
  }

  /** parse_holder, with the loop that fills the dictionary. */
  method ComputeHolder(text: string) returns (holder: Holder)
    ensures holder == ParseHolder(text)
  {
    var raw := Strip(text);
    if raw == "" { return NO_HOLDER; }
    var fields: map<string, string> := map[];
    var tokens := Split(raw);
    for i := 0 to |tokens|
      invariant fields == FieldsOf(tokens[..i])
    {
      assert tokens[..i + 1][..i] == tokens[..i];
      if '=' in tokens[i] {
        fields := fields[KeyOf(tokens[i]) := ValueOf(tokens[i])];
      }
    }
    assert tokens[..|tokens|] == tokens;
    var profile := if LineShape(tokens) then tokens[0] else Get(fields, "profile");
    if profile == "" && |tokens| > 0 && '=' !in tokens[0] {
      profile := tokens[0];
    }
    var task := Get(fields, "task");
    holder := Holder(raw, profile, Get(fields, "pid"), if task == "-" then "" else task,
                     Get(fields, "purpose"), Get(fields, "since"), Get(fields, "host"));
  }

  /** Holder.is_live_metadata: the text claims an owner. */
  predicate Live(text: string) {
    var raw := Strip(text);
    raw != "" && !StartsWith(Lower(raw), RELEASED)
  }

  // ---- cleaned fields --------------------------------------------------------------

  /** A cleaned field is one word, and it is the words of the value joined by underscores. */
  lemma CleanIsWord(value: string, default: string)
    requires IsWord(default)
    ensures IsWord(Clean(value, default))
    ensures Split(value) != [] ==> Clean(value, default) == Join(Split(value), "_")
    ensures Split(value) == [] <==> Fold(Strip(value)) == ""
  {
    FoldJoinsWords(value);
    FoldHasNoSpace(Strip(value));
    if Split(value) != [] {
      assert IsWord(Split(value)[0]);
    }
  }

  /** Cleaning a cleaned field changes nothing. */
  lemma CleanIdempotent(value: string, default: string)
    requires IsWord(default)
    ensures Clean(Clean(value, default), default) == Clean(value, default)
  {
    var w := Clean(value, default);
    CleanIsWord(value, default);
    StripKeeps(w);
    FoldWord(w, "");
    assert w + "" == w;
  }

  // ---- dictionary lookups ------------------------------------------------------------

  /** A field holds what the last token for its key says. */
  lemma {:induction false} FieldIsLast(tokens: seq<string>, i: nat, key: string)
    requires i < |tokens| && '=' in tokens[i] && KeyOf(tokens[i]) == key
    requires forall j :: i < j < |tokens| ==> '=' !in tokens[j] || KeyOf(tokens[j]) != key
    ensures key in FieldsOf(tokens) && FieldsOf(tokens)[key] == ValueOf(tokens[i])
  {
    var n := |tokens| - 1;
    if i < n {
      FieldIsLast(tokens[..n], i, key);
    }
  }

  lemma PairToken(key: string, value: string)
    requires forall i :: 0 <= i < |key| ==> key[i] != '=' && LowerChar(key[i]) == key[i]
    ensures '=' in Pair(key, value) && KeyOf(Pair(key, value)) == key && ValueOf(Pair(key, value)) == value
  {
    var token := Pair(key, value);
    assert token[|key|] == '=';
    IndexOfIs(token, '=', |key|);
    assert token[..|key|] == key && token[|key| + 1..] == value;
    assert Lower(key) == key;
  }

  lemma WordsAreWords(who: string, pid: string, purpose: string, since: string, task: string, host: string)
    requires IsWord(who) && IsWord(pid) && IsWord(purpose) && IsWord(since) && IsWord(task) && IsWord(host)
    ensures forall w :: w in Words(who, pid, purpose, since, task, host) ==> IsWord(w)
  {
  }

  /** The parts of a claim are words, and so are those of its line. */
  lemma ClaimWords(c: Claim)
    requires c.pid >= 0 && IsWord(c.since)
    ensures IsWord(Clean(c.profile, "unknown")) && IsWord(IntText(c.pid)) && IsWord(Clean(c.purpose, "ad-hoc"))
    ensures IsWord(Clean(c.task, "-")) && IsWord(Clean(c.host, "unknown"))
  {
    assert IsWord("unknown") && IsWord("ad-hoc") && IsWord("-");
    CleanIsWord(c.profile, "unknown");
    CleanIsWord(c.purpose, "ad-hoc");
    CleanIsWord(c.task, "-");
    CleanIsWord(c.host, "unknown");
    assert IsWord(IntText(c.pid));
  }

  lemma {:induction false} JoinEnds(words: seq<string>)
    requires words != [] && forall w :: w in words ==> IsWord(w)
    ensures var s := Join(words, " ");
            s != "" && words[0] <= s && !IsSpace(s[0]) && !IsSpace(s[|s| - 1])
            && (|words| > 1 ==> |s| > |words[0]| && s[|words[0]|] == ' ')
  {
    assert IsWord(words[0]);
    if |words| > 1 {
      var tail := Join(words[1..], " ");
      JoinEnds(words[1..]);
      assert Join(words, " ") == words[0] + (" " + tail);
    } else {
      assert Join(words, " ") == words[0];
    }
  }

  /** A line of words, stripped and split, is those words. */
  lemma WordsSplit(words: seq<string>)
    requires words != [] && forall w :: w in words ==> IsWord(w)
    ensures var s := Join(words, " ");
            s != "" && Strip(s + "\n") == s && Split(s) == words
  {
    JoinEnds(words);
    StripKeeps(Join(words, " "));
    SplitJoin(words);
  }

  /** The field of the i-th word, when no later word has its key. */
  lemma FieldOfWord(w: seq<string>, i: nat, key: string, value: string)
    requires i < |w| && w[i] == Pair(key, value)
    requires forall k :: 0 <= k < |key| ==> key[k] != '=' && LowerChar(key[k]) == key[k]
    requires forall j :: i < j < |w| ==> '=' !in w[j] || KeyOf(w[j]) != key
    ensures Get(FieldsOf(w), key) == value
  {
    PairToken(key, value);
    FieldIsLast(w, i, key);
  }

  /** The keys of a line's words, from the second on. */
  lemma {:induction false} WordsKeys(who: string, pid: string, purpose: string, since: string, task: string, host: string)
    ensures var w := Words(who, pid, purpose, since, task, host);
            && '=' in w[1] && '=' in w[2] && '=' in w[3] && '=' in w[4] && '=' in w[5]
            && KeyOf(w[2]) == "purpose" && KeyOf(w[3]) == "since" && KeyOf(w[4]) == "task" && KeyOf(w[5]) == "host"
  {
    KeyedPair("pid", pid);
    KeyedPair("purpose", purpose);
    KeyedPair("since", since);
    KeyedPair("task", task);
    KeyedPair("host", host);
  }

  lemma KeyedPair(key: string, value: string)
    requires forall i :: 0 <= i < |key| ==> key[i] != '=' && LowerChar(key[i]) == key[i]
    ensures '=' in Pair(key, value) && KeyOf(Pair(key, value)) == key
  {
    PairToken(key, value);
  }

  lemma WordsFields(who: string, pid: string, purpose: string, since: string, task: string, host: string)
    ensures var f := FieldsOf(Words(who, pid, purpose, since, task, host));
            Get(f, "pid") == pid && Get(f, "purpose") == purpose && Get(f, "since") == since
            && Get(f, "task") == task && Get(f, "host") == host
  {
    var w := Words(who, pid, purpose, since, task, host);
    WordsKeys(who, pid, purpose, since, task, host);
    FieldOfWord(w, 1, "pid", pid);
    FieldOfWord(w, 2, "purpose", purpose);
    FieldOfWord(w, 3, "since", since);
    FieldOfWord(w, 4, "task", task);
    FieldOfWord(w, 5, "host", host);
  }

  lemma WordsShape(who: string, pid: string, purpose: string, since: string, task: string, host: string)
    requires IsWord(who) && pid != "" && purpose != "" && since != ""
    requires forall i :: 0 <= i < |pid| ==> IsDigit(pid[i])
    ensures ProfileOf(Words(who, pid, purpose, since, task, host)) == who
  {
    assert LineShape(Words(who, pid, purpose, since, task, host));
  }

  /**
   Parsing the written line gives back the folded profile, purpose and host, the pid, and the task id with
   "-" read as none: for every text of profile, purpose, task and host, `=` signs and blanks included.
   */
  lemma LineRoundTrip(c: Claim)
    requires c.pid >= 0 && IsWord(c.since)
    ensures ParseHolder(Line(c) + "\n") ==
            Holder(Line(c), Clean(c.profile, "unknown"), Decimal(c.pid),
                   if Clean(c.task, "-") == "-" then "" else Clean(c.task, "-"),
                   Clean(c.purpose, "ad-hoc"), c.since, Clean(c.host, "unknown"))
  {
    var who, pid, purpose := Clean(c.profile, "unknown"), IntText(c.pid), Clean(c.purpose, "ad-hoc");
    var task, host := Clean(c.task, "-"), Clean(c.host, "unknown");
    ClaimWords(c);
    WordsAreWords(who, pid, purpose, c.since, task, host);
    WordsSplit(Words(who, pid, purpose, c.since, task, host));
    WordsFields(who, pid, purpose, c.since, task, host);
    WordsShape(who, pid, purpose, c.since, task, host);
  }

  lemma LineStarts(c: Claim)
    requires c.pid >= 0 && IsWord(c.since)
    ensures var who, line := Clean(c.profile, "unknown"), Line(c);
            Strip(line + "\n") == line && who < line && line[|who|] == ' '
  {
    var who, pid, purpose := Clean(c.profile, "unknown"), IntText(c.pid), Clean(c.purpose, "ad-hoc");
    var task, host := Clean(c.task, "-"), Clean(c.host, "unknown");
    ClaimWords(c);
    WordsAreWords(who, pid, purpose, c.since, task, host);
    WordsSplit(Words(who, pid, purpose, c.since, task, host));
    JoinEnds(Words(who, pid, purpose, c.since, task, host));
  }

  lemma PrefixAt(prefix: string, s: string, i: nat)
    requires prefix <= s && i < |prefix|
    ensures prefix[i] == s[i]
  {
  }

  /** The line, character for character. */
  lemma LineSpelled(c: Claim)
    ensures Line(c) == Clean(c.profile, "unknown") + (" pid=" + IntText(c.pid) + (" purpose=" + Clean(c.purpose, "ad-hoc") + (" since=" + c.since
                       + (" task=" + Clean(c.task, "-") + (" host=" + Clean(c.host, "unknown"))))))
  {
    var who, pid, purpose := Clean(c.profile, "unknown"), IntText(c.pid), Clean(c.purpose, "ad-hoc");
    var task, host := Clean(c.task, "-"), Clean(c.host, "unknown");
    var w := Words(who, pid, purpose, c.since, task, host);
    SixWords(w);
    SpacedPair("pid", pid, " pid=");
    SpacedPair("purpose", purpose, " purpose=");
    SpacedPair("since", c.since, " since=");
    SpacedPair("task", task, " task=");
    SpacedPair("host", host, " host=");
  }

  lemma SpacedPair(key: string, value: string, start: string)
    requires start == " " + key + "="
    ensures " " + Pair(key, value) == start + value
  {
  }

  lemma SixWords(w: seq<string>)
    requires |w| == 6
    ensures Join(w, " ") == w[0] + ((" " + w[1]) + ((" " + w[2]) + ((" " + w[3]) + ((" " + w[4]) + (" " + w[5])))))
  {
    var tails := seq(6, i requires 0 <= i < 6 => Join(w[i..], " "));
    forall i | 0 <= i < 5 ensures tails[i] == w[i] + (" " + tails[i + 1]) { JoinFirst(w, i); }
    assert w[0..] == w && w[5..] == [w[5]];
    Nested(w, tails);
  }

  lemma Nested(w: seq<string>, tails: seq<string>)
    requires |w| == 6 && |tails| == 6 && tails[5] == w[5]
    requires forall i :: 0 <= i < 5 ==> tails[i] == w[i] + (" " + tails[i + 1])
    ensures tails[0] == w[0] + ((" " + w[1]) + ((" " + w[2]) + ((" " + w[3]) + ((" " + w[4]) + (" " + w[5])))))
  {
    assert tails[3] == w[3] + ((" " + w[4]) + (" " + w[5]));
    assert tails[2] == w[2] + ((" " + w[3]) + ((" " + w[4]) + (" " + w[5])));
    assert tails[1] == w[1] + ((" " + w[2]) + ((" " + w[3]) + ((" " + w[4]) + (" " + w[5]))));
  }

  lemma {:induction false} JoinFirst(w: seq<string>, i: nat)
    requires i + 1 < |w|
    ensures Join(w[i..], " ") == w[i] + (" " + Join(w[i + 1..], " "))
  {
    assert w[i..][1..] == w[i + 1..];
  }

  // ---- whose line it is ---------------------------------------------------------------

  /** A key counts in any case, and a value runs from the first `=` to the end of the word. */
  lemma KeyAnyCase(key: string, value: string)
    requires '=' !in key
    ensures var token := key + "=" + value; '=' in token && KeyOf(token) == Lower(key) && ValueOf(token) == value
  {
    var token := key + "=" + value;
    assert token[|key|] == '=';
    IndexOfIs(token, '=', |key|);
    assert token[..|key|] == key && token[|key| + 1..] == value;
  }

  /** A text without words has no holder; any other keeps its stripped text, and a task of "-" is none. */
  lemma HolderFields(text: string)
    ensures Split(text) == [] ==> ParseHolder(text) == Holder("", "", "", "", "", "", "")
    ensures Split(text) != [] ==>
              var h, f := ParseHolder(text), FieldsOf(Split(text));
              && h.raw == Strip(text) && h.raw != "" && h.profile == ProfileOf(Split(text))
              && h.pid == (if "pid" in f then f["pid"] else "") && h.purpose == (if "purpose" in f then f["purpose"] else "")
              && h.since == (if "since" in f then f["since"] else "") && h.host == (if "host" in f then f["host"] else "")
              && h.task == (if "task" in f && f["task"] != "-" then f["task"] else "")
  {
    SplitStripped(text);
    if Strip(text) != "" {
      TrimEndFirst(DropSpaces(text));
      assert Split(Strip(text)) != [];
    }
  }

  /** In the canonical shape the profile is the first word, whatever it is. */
  lemma ShapedProfile(who: string, pid: string, purpose: string, since: string, others: seq<string>)
    requires who != "" && pid != "" && purpose != "" && since != "" && forall i :: 0 <= i < |pid| ==> '0' <= pid[i] <= '9'
    ensures ProfileOf([who, "pid=" + pid, "purpose=" + purpose, "since=" + since] + others) == who
  {
    var w := [who, "pid=" + pid, "purpose=" + purpose, "since=" + since] + others;
    assert LineShape(w);
  }

  /** Out of that shape, the last profile= field with a value. */
  lemma KeyedProfile(tokens: seq<string>, i: nat, value: string)
    requires i < |tokens| && tokens[i] == "profile=" + value && value != ""
    requires forall j :: i < j < |tokens| ==> '=' !in tokens[j] || KeyOf(tokens[j]) != "profile"
    requires |tokens| < 4 || !("pid=" <= tokens[1])
    ensures ProfileOf(tokens) == value
  {
    assert tokens[i] == Pair("profile", value);
    PairToken("profile", value);
    FieldIsLast(tokens, i, "profile");
  }

  /** Without such a field, the first word if it has no `=`, and nobody otherwise. */
  lemma BareProfile(tokens: seq<string>)
    requires tokens != [] && forall w :: w in tokens ==> IsWord(w)
    requires forall i :: 0 <= i < |tokens| && '=' in tokens[i] ==> KeyOf(tokens[i]) != "profile"
    ensures '=' !in tokens[0] ==> ProfileOf(tokens) == tokens[0]
    ensures '=' in tokens[0] && (|tokens| < 4 || !("pid=" <= tokens[1])) ==> ProfileOf(tokens) == ""
  {
    assert IsWord(tokens[0]);
    NoSuchField(tokens, "profile");
  }

  lemma {:induction false} NoSuchField(tokens: seq<string>, key: string)
    requires forall i :: 0 <= i < |tokens| && '=' in tokens[i] ==> KeyOf(tokens[i]) != key
    ensures key !in FieldsOf(tokens)
  {
    if tokens != [] { NoSuchField(tokens[..|tokens| - 1], key); }
  }

  // ---- whether it claims an owner ---------------------------------------------------------

  /** A marker without the character that ends a word cannot run past the word. */
  lemma MarkerWithinWord(who: string, text: string, marker: string)
    requires who < text && forall i :: 0 <= i < |marker| ==> marker[i] != LowerChar(text[|who|])
    ensures StartsWith(Lower(text), marker) <==> StartsWith(Lower(who), marker)
  {
    assert Lower(who) == Lower(text)[..|who|];
    if StartsWith(Lower(text), marker) {
      if |who| < |marker| {
        PrefixAt(marker, Lower(text), |who|);
      } else {
        assert Lower(who)[..|marker|] == Lower(text)[..|marker|];
      }
    }
  }

  lemma BlankNotInMarker(c: char)
    requires IsSpace(c)
    ensures forall i :: 0 <= i < |RELEASED| ==> RELEASED[i] != LowerChar(c)
  {
    assert LowerChar(c) == c;
    assert forall i :: 0 <= i < |RELEASED| ==> 'a' <= RELEASED[i] <= 'z';
  }

  lemma StrippedFirstWord(t: string)
    requires t != "" && !IsSpace(t[0])
    ensures StartsWith(Lower(t), RELEASED) <==> StartsWith(Lower(t[..WordLength(t)]), RELEASED)
  {
    var n := WordLength(t);
    if n < |t| {
      BlankNotInMarker(t[n]);
      MarkerWithinWord(t[..n], t, RELEASED);
    } else {
      assert t[..n] == t;
    }
  }

  /** Whether a text claims an owner shows in its first word. */
  lemma LiveIsFirstWord(text: string)
    ensures Live(text) <==> Split(text) != [] && !StartsWith(Lower(Split(text)[0]), RELEASED)
  {
    var t := Strip(text);
    SplitStripped(text);
    if t != "" {
      TrimEndFirst(DropSpaces(text));
      StrippedFirstWord(t);
      assert DropSpaces(t) == t && Split(t)[0] == t[..WordLength(t)];
    }
  }

  /** A word that begins with the eight letters of the legacy marker, each in either case. */
  predicate Resigned(word: string) {
    && |word| >= 8
    && (word[0] == 'r' || word[0] == 'R') && (word[1] == 'e' || word[1] == 'E') && (word[2] == 'l' || word[2] == 'L')
    && (word[3] == 'e' || word[3] == 'E') && (word[4] == 'a' || word[4] == 'A') && (word[5] == 's' || word[5] == 'S')
    && (word[6] == 'e' || word[6] == 'E') && (word[7] == 'd' || word[7] == 'D')
  }

  lemma MarkerSpelled(word: string)
    ensures StartsWith(Lower(word), RELEASED) <==> Resigned(word)
  {
    var low := Lower(word);
    if |word| >= 8 {
      assert low[..8] == RELEASED <==> forall i :: 0 <= i < 8 ==> low[i] == RELEASED[i];
      assert low[0] == LowerChar(word[0]) && low[1] == LowerChar(word[1]) && low[2] == LowerChar(word[2]) && low[3] == LowerChar(word[3]);
      assert low[4] == LowerChar(word[4]) && low[5] == LowerChar(word[5]) && low[6] == LowerChar(word[6]) && low[7] == LowerChar(word[7]);
    }
  }

  /** A text claims no owner exactly when it has no words, or its first one begins with "released", letter by letter in either case. */
  lemma NoOwnerExactly(text: string)
    ensures Live(text) <==> Split(text) != [] && !Resigned(Split(text)[0])
  {
    LiveIsFirstWord(text);
    if Split(text) != [] { MarkerSpelled(Split(text)[0]); }
  }

  /** A text whose first word is so marked claims no owner, whatever follows. */
  lemma ResignedIsNobody(word: string, rest: string)
    requires IsWord(word) && Resigned(word) && (rest == "" || IsSpace(rest[0]))
    ensures !Live(word + rest)
  {
    SplitWord(word, rest);
    NoOwnerExactly(word + rest);
  }

  /** The line claims an owner exactly when the cleaned profile does not begin with "released" in any case. */
  lemma LineLive(c: Claim)
    requires c.pid >= 0 && IsWord(c.since)
    ensures Live(Line(c) + "\n") <==> !StartsWith(Lower(Clean(c.profile, "unknown")), RELEASED)
    ensures Live(Line(c) + "\n") <==> !Resigned(Clean(c.profile, "unknown"))
  {
    MarkerSpelled(Clean(c.profile, "unknown"));
    LineStarts(c);
    BlankNotInMarker(' ');
    MarkerWithinWord(Clean(c.profile, "unknown"), Line(c), RELEASED);
  }
}
