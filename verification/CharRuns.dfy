/** Stripping, and replacing the runs of a class of characters: what they do to the words in between. */
module CharRuns {
  import opened Text

  type Class = char -> bool

  // ---------------------------------------------------------------- strip

  /** `s.lstrip(chars)`. */
  function StripLeft(s: string, c: Class): string {
    if s != "" && c(s[0]) then StripLeft(s[1..], c) else s
  }

  /** `s.rstrip(chars)`. */
  function StripRight(s: string, c: Class): string {
    if s != "" && c(s[|s| - 1]) then StripRight(s[..|s| - 1], c) else s
  }

  /** `s.strip(chars)`. */
  function StripBoth(s: string, c: Class): string { StripRight(StripLeft(s, c), c) }

  ghost predicate All(s: string, c: Class) { forall i :: 0 <= i < |s| ==> c(s[i]) }

  /** Nothing of the class at either end. */
  predicate Bare(s: string, c: Class) { s != "" ==> !c(s[0]) && !c(s[|s| - 1]) }

  /** Stripping takes characters of the class off both ends, and as many as there are. */
  lemma {:induction false} StripIs(s: string, c: Class) returns (left: string, right: string)
    ensures s == left + StripBoth(s, c) + right && All(left, c) && All(right, c) && Bare(StripBoth(s, c), c)
  {
    left := StripLeftIs(s, c);
    right := StripRightIs(StripLeft(s, c), c);
  }

  lemma {:induction false} StripLeftIs(s: string, c: Class) returns (left: string)
    ensures s == left + StripLeft(s, c) && All(left, c)
    ensures StripLeft(s, c) != "" ==> !c(StripLeft(s, c)[0])
  {
    left := "";
    if s != "" && c(s[0]) {
      var more := StripLeftIs(s[1..], c);
      left := [s[0]] + more;
    }
  }

  lemma {:induction false} StripRightIs(s: string, c: Class) returns (right: string)
    ensures s == StripRight(s, c) + right && All(right, c)
    ensures StripRight(s, c) != "" ==> !c(StripRight(s, c)[|StripRight(s, c)| - 1])
  {
    right := "";
    if s != "" && c(s[|s| - 1]) {
      var more := StripRightIs(s[..|s| - 1], c);
      right := more + [s[|s| - 1]];
    }
  }

  /** Whatever stands bare between characters of the class is what stripping leaves. */
  lemma StripOnly(left: string, middle: string, right: string, c: Class)
    requires All(left, c) && All(right, c) && Bare(middle, c)
    ensures StripBoth(left + middle + right, c) == middle
  {
    assert left + middle + right == left + (middle + right);
    StripLeftAll(left, middle + right, c);
    if middle == "" {
      assert middle + right == right == right + "";
      StripLeftAll(right, "", c);
    } else {
      StripRightAll(middle, right, c);
    }
  }

  lemma {:induction false} StripLeftAll(left: string, s: string, c: Class)
    requires All(left, c)
    ensures StripLeft(left + s, c) == StripLeft(s, c)
  {
    if left == "" {
      assert left + s == s;
    } else {
      StripLeftAll(left[1..], s, c);
      assert (left + s)[1..] == left[1..] + s;
    }
  }

  lemma {:induction false} StripRightAll(s: string, right: string, c: Class)
    requires All(right, c)
    ensures StripRight(s + right, c) == StripRight(s, c)
  {
    if right == "" {
      assert s + right == s;
    } else {
      StripRightAll(s, right[..|right| - 1], c);
      assert (s + right)[..|s + right| - 1] == s + right[..|right| - 1];
    }
  }

  // ---------------------------------------------------------------- runs

  /** `re.sub(r"[...]+", sep, s)` for a class of characters. */
  function SubRuns(s: string, c: Class, sep: string): string {
    if s == "" then ""
    else if !c(s[0]) then [s[0]] + SubRuns(s[1..], c, sep)
    else if |s| > 1 && c(s[1]) then SubRuns(s[1..], c, sep)
    else sep + SubRuns(s[1..], c, sep)
  }

  /** How many characters stand in front of the first one of the class. */
  function WordLength(s: string, c: Class): (n: nat)
    ensures n <= |s| && forall i :: 0 <= i < n ==> !c(s[i])
    ensures n < |s| ==> c(s[n])
  {
    if s == "" || c(s[0]) then 0 else 1 + WordLength(s[1..], c)
  }

  /** The maximal runs of characters outside the class. */
  function Words(s: string, c: Class): seq<string>
    decreases |s|
  {
    if s == "" then []
    else if c(s[0]) then Words(s[1..], c)
    else [s[..WordLength(s, c)]] + Words(s[WordLength(s, c)..], c)
  }

  /** Gaps and words in turn, a gap first and last. */
  function Alternating(gaps: seq<string>, words: seq<string>): string
    requires |gaps| == |words| + 1
  {
    gaps[0] + if words == [] then "" else words[0] + Alternating(gaps[1..], words[1..])
  }

  /** The text is these words and gaps in turn: words outside the class, gaps inside it, only outer gaps empty. */
  ghost predicate SplitBy(s: string, c: Class, words: seq<string>, gaps: seq<string>) {
    && |gaps| == |words| + 1 && s == Alternating(gaps, words)
    && (forall i, x :: 0 <= i < |words| && x in words[i] ==> !c(x))
    && (forall i :: 0 <= i < |gaps| ==> All(gaps[i], c))
    && (forall i :: 0 <= i < |words| ==> words[i] != "")
    && (forall i :: 0 < i < |gaps| - 1 ==> gaps[i] != "")
  }

  lemma {:induction false} WordsAre(s: string, c: Class) returns (gaps: seq<string>)
    ensures SplitBy(s, c, Words(s, c), gaps)
    ensures s != "" && c(s[0]) ==> gaps[0] != ""
    decreases |s|
  {
    hide Alternating, WordLength;
    if s == "" {
      gaps := [""];
      NothingAlternates();
    } else if c(s[0]) {
      var more := WordsAre(s[1..], c);
      gaps := more[0 := [s[0]] + more[0]];
      AlternatingCons(s[0], more, Words(s[1..], c));
    } else {
      var n := WordLength(s, c);
      assert s == s[..n] + s[n..];
      WordsStep(s, c);
      var more := WordsAre(s[n..], c);
      gaps := [""] + more;
      AlternatingWord(s[..n], more, Words(s[n..], c));
    }
  }

  lemma NothingAlternates()
    ensures Alternating([""], []) == ""
  {
  }

  lemma AlternatingCons(x: char, gaps: seq<string>, words: seq<string>)
    requires |gaps| == |words| + 1
    ensures Alternating(gaps[0 := [x] + gaps[0]], words) == [x] + Alternating(gaps, words)
  {
    assert gaps[0 := [x] + gaps[0]][1..] == gaps[1..];
  }

  lemma AlternatingWord(word: string, gaps: seq<string>, words: seq<string>)
    requires |gaps| == |words| + 1
    ensures Alternating([""] + gaps, [word] + words) == word + Alternating(gaps, words)
  {
    assert ([""] + gaps)[1..] == gaps && ([word] + words)[1..] == words;
  }

  lemma WordsStep(s: string, c: Class)
    requires s != "" && !c(s[0])
    ensures Words(s, c) == [s[..WordLength(s, c)]] + Words(s[WordLength(s, c)..], c) && WordLength(s, c) > 0
  {
  }

  // ---------------------------------------------------------------- replacing the runs

  lemma {:induction false} SubRunsWord(word: string, rest: string, c: Class, sep: string)
    requires forall i :: 0 <= i < |word| ==> !c(word[i])
    ensures SubRuns(word + rest, c, sep) == word + SubRuns(rest, c, sep)
  {
    if word == "" {
      assert word + rest == rest;
    } else {
      SubRunsWord(word[1..], rest, c, sep);
      assert (word + rest)[1..] == word[1..] + rest;
      ConcatAssoc([word[0]], word[1..], SubRuns(rest, c, sep));
    }
  }

  function When(there: bool, sep: string): string { if there then sep else "" }

  function Lead(s: string, c: Class, sep: string): string { When(s != "" && c(s[0]), sep) }

  function Tail(s: string, c: Class, sep: string): string { When(s != "" && Words(s, c) != [] && c(s[|s| - 1]), sep) }

  /** Replacing the runs joins the words, and leaves a separator for a run at either end. */
  lemma {:induction false} SubRunsJoins(s: string, c: Class, sep: string)
    ensures SubRuns(s, c, sep) == Lead(s, c, sep) + Join(sep, Words(s, c)) + Tail(s, c, sep)
    decreases |s|
  {
    hide Join, SubRuns, Words, Lead, Tail;
    if s == "" {
      NoWords(c, sep);
    } else if c(s[0]) {
      SubRunsJoins(s[1..], c, sep);
      RunFirst(s, c, sep);
    } else {
      var n := WordLength(s, c);
      var word, rest := s[..n], s[n..];
      assert s == word + rest;
      SubRunsWord(word, rest, c, sep);
      SubRunsJoins(rest, c, sep);
      WordFirst(s, c, sep);
    }
  }

  lemma NoWords(c: Class, sep: string)
    ensures Words("", c) == [] && Join(sep, []) == "" && SubRuns("", c, sep) == ""
    ensures Lead("", c, sep) == "" && Tail("", c, sep) == ""
  {
  }

  lemma RunFirst(s: string, c: Class, sep: string)
    requires s != "" && c(s[0])
    requires SubRuns(s[1..], c, sep) == Lead(s[1..], c, sep) + Join(sep, Words(s[1..], c)) + Tail(s[1..], c, sep)
    ensures SubRuns(s, c, sep) == Lead(s, c, sep) + Join(sep, Words(s, c)) + Tail(s, c, sep)
  {
    hide Join, SubRuns, Words, Lead, Tail;
    var rest := s[1..];
    SubRunsStep(s, c, sep);
    WordsAfterRun(s, c, sep);
    NoLead(sep, Join(sep, Words(rest, c)), Tail(rest, c, sep));
  }

  lemma NoLead(sep: string, joined: string, tail: string)
    ensures sep + ("" + joined + tail) == sep + joined + tail
  {
  }

  lemma SubRunsStep(s: string, c: Class, sep: string)
    requires s != "" && c(s[0])
    ensures SubRuns(s, c, sep) == if |s| > 1 && c(s[1]) then SubRuns(s[1..], c, sep) else sep + SubRuns(s[1..], c, sep)
    ensures Lead(s, c, sep) == sep && Lead(s[1..], c, sep) == When(|s| > 1 && c(s[1]), sep)
  {
  }

  lemma WordsAfterRun(s: string, c: Class, sep: string)
    requires s != "" && c(s[0])
    ensures Words(s, c) == Words(s[1..], c) && Tail(s, c, sep) == Tail(s[1..], c, sep)
  {
    if |s| == 1 {
      NoWords(c, sep);
    } else {
      assert s[1..][|s| - 2] == s[|s| - 1];
    }
  }

  lemma WordFirst(s: string, c: Class, sep: string)
    requires s != "" && !c(s[0])
    requires var rest := s[WordLength(s, c)..];
      SubRuns(s, c, sep)
        == s[..WordLength(s, c)] + (Lead(rest, c, sep) + Join(sep, Words(rest, c)) + Tail(rest, c, sep))
    ensures SubRuns(s, c, sep) == Lead(s, c, sep) + Join(sep, Words(s, c)) + Tail(s, c, sep)
  {
    hide SubRuns, Words, Join, WordLength, Lead, Tail;
    var word, rest := s[..WordLength(s, c)], s[WordLength(s, c)..];
    WordsStep(s, c);
    JoinFirst(sep, word, Words(rest, c));
    EndsOf(s, c, sep);
    Regroup(word, Lead(rest, c, sep), Join(sep, Words(rest, c)), Tail(rest, c, sep));
  }

  lemma EndsOf(s: string, c: Class, sep: string)
    requires s != "" && !c(s[0])
    ensures var rest := s[WordLength(s, c)..];
      && Lead(s, c, sep) == "" && Lead(rest, c, sep) == When(rest != "", sep)
      && (Words(rest, c) == [] ==> Tail(rest, c, sep) == "" && Tail(s, c, sep) == Lead(rest, c, sep))
      && (Words(rest, c) != [] ==> Tail(s, c, sep) == Tail(rest, c, sep) && rest != "")
  {
    hide Words;
    var rest := s[WordLength(s, c)..];
    WordsStep(s, c);
    if rest == "" {
      NoWords(c, sep);
    } else {
      assert s[|s| - 1] == rest[|rest| - 1];
      if Words(rest, c) == [] {
        RunToTheEnd(rest, c);
      }
    }
  }

  lemma Regroup(word: string, lead: string, joined: string, tail: string)
    ensures word + (lead + joined + tail) == "" + (word + lead + joined) + tail
    ensures word + (lead + "" + "") == "" + word + lead
  {
  }

  lemma JoinFirst(sep: string, word: string, words: seq<string>)
    ensures Join(sep, [word] + words) == if words == [] then word else word + sep + Join(sep, words)
    ensures words == [] ==> Join(sep, words) == ""
  {
    assert ([word] + words)[1..] == words;
  }

  lemma {:induction false} RunToTheEnd(s: string, c: Class)
    requires s != "" && Words(s, c) == []
    ensures c(s[|s| - 1])
  {
    if |s| > 1 && c(s[0]) {
      RunToTheEnd(s[1..], c);
    }
  }

  /** With a separator that is stripped off, replacing the runs and stripping is joining the words and stripping. */
  lemma StrippedJoin(s: string, c: Class, sep: string, strip: Class)
    requires All(sep, strip)
    ensures StripBoth(SubRuns(s, c, sep), strip) == StripBoth(Join(sep, Words(s, c)), strip)
  {
    hide SubRuns, Words, Join, StripBoth;
    var joined := Join(sep, Words(s, c));
    SubRunsJoins(s, c, sep);
    var left, right := StripIs(joined, strip);
    var before, after := Lead(s, c, sep), Tail(s, c, sep);
    Nested(before, left, StripBoth(joined, strip), right, after);
    StripOnly(before + left, StripBoth(joined, strip), right + after, strip);
  }

  lemma Nested(a: string, b: string, m: string, d: string, e: string)
    ensures a + (b + m + d) + e == (a + b) + m + (d + e)
  {
  }
}
