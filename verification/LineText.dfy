/** Python's `splitlines` and `strip`, and the squeezing of blanks in one line. */
module LineText {
  import opened Text
  import opened CharRuns
  import opened Html

  // ---------------------------------------------------------------- str.splitlines

  /** The line boundaries of `str.splitlines`. */
  predicate LineBreak(c: char) {
    var n := c as int;
    10 <= n <= 13 || 28 <= n <= 30 || n == 0x85 || n == 0x2028 || n == 0x2029
  }

  /** The boundaries, one by one. */
  lemma LineBreaksAre(c: char)
    ensures LineBreak(c) <==> c in {
      '\n', '\U{000B}', '\U{000C}', '\r', '\U{001C}', '\U{001D}', '\U{001E}', '\U{0085}', '\U{2028}', '\U{2029}'}
  {
  }

  /** The length of the line that starts `s`. */
  function LineLength(s: string): (n: nat)
    ensures n <= |s|
    ensures forall i :: 0 <= i < n ==> !LineBreak(s[i])
    ensures n < |s| ==> LineBreak(s[n])
  {
    if s == "" || LineBreak(s[0]) then 0 else 1 + LineLength(s[1..])
  }

  /** The number of characters in the line boundary at `n`: CR LF is one boundary. */
  function BreakLength(s: string, n: nat): (k: nat)
    requires n < |s|
    ensures 1 <= k && n + k <= |s|
  {
    if s[n] == '\r' && n + 1 < |s| && s[n + 1] == '\n' then 2 else 1
  }

  function SplitLines(s: string): seq<string>
    decreases |s|
  {
    if s == "" then []
    else
      var n := LineLength(s);
      [s[..n]] + if n == |s| then [] else SplitLines(s[n + BreakLength(s, n)..])
  }

  lemma {:induction false} SplitLinesClean(s: string)
    ensures forall i, j :: 0 <= i < |SplitLines(s)| && 0 <= j < |SplitLines(s)[i]| ==> !LineBreak(SplitLines(s)[i][j])
    decreases |s|
  {
    if s != "" {
      var n := LineLength(s);
      if n < |s| {
        SplitLinesClean(s[n + BreakLength(s, n)..]);
      }
    }
  }

  // ---------------------------------------------------------------- one line

  predicate Blank(c: char) { c == ' ' || c == '\t' }

  /** `re.sub(r"[ \t]+", " ", line)`. */
  function Squeeze(line: string): string { SubRuns(line, Blank, " ") }

  /** `str.strip()`. */
  function Strip(s: string): string { StripBoth(s, PythonSpace) }

  function CleanLine(line: string): string { Strip(Squeeze(line)) }

  /** The characters of a line that are not white space. */
  function Ink(s: string): string {
    if s == "" then "" else (if PythonSpace(s[0]) then "" else [s[0]]) + Ink(s[1..])
  }

  /** No blank at either end, no tab, no two blanks in a row. */
  predicate Tidy(s: string) {
    && (s != "" ==> !PythonSpace(s[0]) && !PythonSpace(s[|s| - 1]))
    && Single(s)
  }

  predicate Single(s: string) {
    && (forall i :: 0 <= i < |s| ==> s[i] != '\t')
    && (forall i :: 0 <= i < |s| - 1 ==> s[i] != ' ' || s[i + 1] != ' ')
  }

  lemma {:induction false} SqueezeSingle(line: string)
    ensures Single(Squeeze(line))
    ensures Squeeze(line) != "" && Squeeze(line)[0] == ' ' ==> line != "" && Blank(line[0])
  {
    if line != "" {
      SqueezeSingle(line[1..]);
      var rest := Squeeze(line[1..]);
      if !Blank(line[0]) {
        SingleCons(line[0], rest);
      } else if !(|line| > 1 && Blank(line[1])) {
        assert line[1..] != "" ==> line[1..][0] == line[1];
        SingleCons(' ', rest);
      }
    }
  }

  lemma SingleCons(c: char, s: string)
    requires Single(s) && c != '\t' && (c == ' ' && s != "" ==> s[0] != ' ')
    ensures Single([c] + s)
  {
    assert forall i :: 0 <= i < |s| ==> ([c] + s)[i + 1] == s[i];
  }

  lemma {:induction false} SqueezeInk(line: string)
    ensures Ink(Squeeze(line)) == Ink(line)
    ensures forall i :: 0 <= i < |Squeeze(line)| ==> Squeeze(line)[i] == ' ' || Squeeze(line)[i] in line
  {
    hide PythonSpace;
    if line != "" {
      BlankIsSpace(line[0]);
      SqueezeInk(line[1..]);
      var rest := Squeeze(line[1..]);
      assert forall c :: c in line[1..] ==> c in line;
      if !Blank(line[0]) {
        assert Squeeze(line)[1..] == rest;
      } else if !(|line| > 1 && Blank(line[1])) {
        assert (" " + rest)[1..] == rest;
      }
    }
  }

  lemma {:induction false} InkAppend(s: string, t: string)
    ensures Ink(s + t) == Ink(s) + Ink(t)
  {
    hide PythonSpace;
    if s == "" {
      assert s + t == t;
    } else {
      InkAppend(s[1..], t);
      var head := if PythonSpace(s[0]) then "" else [s[0]];
      assert (s + t)[1..] == s[1..] + t && (s + t)[0] == s[0];
      ConcatAssoc(head, Ink(s[1..]), Ink(t));
    }
  }

  lemma {:induction false} WhiteHasNoInk(s: string)
    requires forall i :: 0 <= i < |s| ==> PythonSpace(s[i])
    ensures Ink(s) == ""
  {
    if s != "" {
      WhiteHasNoInk(s[1..]);
    }
  }

  lemma StripInk(s: string)
    ensures Ink(Strip(s)) == Ink(s) && Bare(Strip(s), PythonSpace)
    ensures exists a, b :: 0 <= a <= b <= |s| && Strip(s) == s[a..b]
  {
    hide Ink, StripBoth;
    var left, right := StripIs(s, PythonSpace);
    InkAppend(left + Strip(s), right);
    InkAppend(left, Strip(s));
    WhiteHasNoInk(left);
    WhiteHasNoInk(right);
    assert Strip(s) == s[|left|..|left| + |Strip(s)|];
  }

  /** A cleaned line is tidy and keeps every character that is not white space, in order. */
  lemma CleanLineTidy(line: string)
    ensures Tidy(CleanLine(line)) && Ink(CleanLine(line)) == Ink(line)
    ensures forall i :: 0 <= i < |CleanLine(line)| ==> CleanLine(line)[i] == ' ' || CleanLine(line)[i] in line
  {
    hide Ink, Squeeze, Strip, PythonSpace;
    SqueezeSingle(line);
    SqueezeInk(line);
    StripInk(Squeeze(line));
    var a, b :| 0 <= a <= b <= |Squeeze(line)| && Strip(Squeeze(line)) == Squeeze(line)[a..b];
    assert forall i :: a <= i < b ==> CleanLine(line)[i - a] == Squeeze(line)[i];
  }

  /** The text after the first line and its boundary. */
  function AfterLine(s: string): string
    requires LineLength(s) < |s|
  {
    s[LineLength(s) + BreakLength(s, LineLength(s))..]
  }

  lemma NothingFlat()
    ensures Flat<char>([]) == ""
  {
  }

  lemma SplitLinesCons(s: string)
    requires s != ""
    ensures LineLength(s) == |s| ==> Flat(SplitLines(s)) == s
    ensures LineLength(s) < |s| ==> Flat(SplitLines(s)) == s[..LineLength(s)] + Flat(SplitLines(AfterLine(s)))
  {
    hide LineBreak, LineLength, BreakLength, Flat;
    var n := LineLength(s);
    FlatCons(s[..n], if n == |s| then [] else SplitLines(AfterLine(s)));
    if n == |s| {
      NothingFlat();
    }
  }

  lemma {:induction false} SplitLinesInk(s: string)
    ensures Ink(Flat(SplitLines(s))) == Ink(s)
    decreases |s|
  {
    hide Ink, SplitLines, Flat, LineLength;
    if s == "" {
      NoLines();
    } else {
      SplitLinesCons(s);
      var n := LineLength(s);
      if n < |s| {
        var gap := s[n..n + BreakLength(s, n)];
        SplitLinesInk(AfterLine(s));
        WhiteHasNoInk(gap);
        InkAppend(s[..n], Flat(SplitLines(AfterLine(s))));
        InkAppend(s[..n], gap + AfterLine(s));
        InkAppend(gap, AfterLine(s));
        assert s == s[..n] + (gap + AfterLine(s));
      }
    }
  }

  lemma NoLines()
    ensures Flat(SplitLines("")) == ""
  {
  }

  // ---------------------------------------------------------------- what splitlines and strip mean

  /** One line boundary: CR LF, or one boundary character. */
  predicate Boundary(b: string) { b == "\r\n" || (|b| == 1 && LineBreak(b[0])) }

  /** The lines, each followed by its end. */
  function Ended(lines: seq<string>, ends: seq<string>): string
    requires |lines| == |ends|
  {
    if lines == [] then "" else lines[0] + ends[0] + Ended(lines[1..], ends[1..])
  }

  /**
   * The lines hold no boundary, and followed by one boundary each they are the text; only after a last line that is
   * not empty it may be missing. No boundary ends between a CR and an LF.
   */
  ghost predicate AreLines(s: string, lines: seq<string>, ends: seq<string>) {
    && |lines| == |ends| && s == Ended(lines, ends)
    && (forall i, c :: 0 <= i < |lines| && c in lines[i] ==> !LineBreak(c))
    && (forall i :: 0 <= i < |ends| - 1 ==> Boundary(ends[i]))
    && (ends != [] ==> Boundary(ends[|ends| - 1]) || (ends[|ends| - 1] == "" && lines[|lines| - 1] != ""))
    && (forall i :: 0 <= i < |ends| - 1 && ends[i] == "\r" && lines[i + 1] == "" ==> ends[i + 1] != "\n")
  }

  lemma {:induction false} SplitLinesAre(s: string) returns (ends: seq<string>)
    ensures AreLines(s, SplitLines(s), ends)
    decreases |s|
  {
    hide SplitLines, AreLines, LineLength, LineBreak;
    if s == "" {
      ends := [];
      NothingToSplit();
    } else {
      var n := LineLength(s);
      if n == |s| {
        ends := [""];
        LastLine(s);
      } else {
        var rest := SplitLinesAre(AfterLine(s));
        var gap := s[n..n + BreakLength(s, n)];
        ends := [gap] + rest;
        OneMoreLine(s, rest);
      }
    }
  }

  lemma NothingToSplit()
    ensures AreLines("", SplitLines(""), [])
  {
  }

  lemma LastLine(s: string)
    requires s != "" && LineLength(s) == |s|
    ensures AreLines(s, SplitLines(s), [""])
  {
    hide LineBreak, LineLength, SplitLines, Ended, Boundary;
    WholeLine(s);
    EndedOne(s);
    NoBreakIn(s, |s|);
    assert s[..|s|] == s;
  }

  lemma WholeLine(s: string)
    requires s != "" && LineLength(s) == |s|
    ensures SplitLines(s) == [s]
  {
    hide LineLength;
    assert s[..|s|] == s;
  }

  lemma EndedOne(s: string)
    ensures Ended([s], [""]) == s
  {
    assert Ended([s][1..], [""][1..]) == "";
  }

  lemma OneMoreLine(s: string, rest: seq<string>)
    requires s != "" && LineLength(s) < |s| && AreLines(AfterLine(s), SplitLines(AfterLine(s)), rest)
    ensures AreLines(s, SplitLines(s), [s[LineLength(s)..LineLength(s) + BreakLength(s, LineLength(s))]] + rest)
  {
    hide LineBreak, SplitLines, AreLines, LineLength, Boundary, BreakLength;
    var n := LineLength(s);
    var gap := s[n..n + BreakLength(s, n)];
    SplitLinesStep(s);
    BreakIs(s, n);
    NoBreakIn(s, n);
    ThreeParts(s, n, BreakLength(s, n));
    LineInFront(s[..n], gap, AfterLine(s), SplitLines(AfterLine(s)), rest);
  }

  lemma ThreeParts(s: string, n: nat, k: nat)
    requires n + k <= |s|
    ensures s == s[..n] + s[n..n + k] + s[n + k..]
  {
  }

  lemma SplitLinesStep(s: string)
    requires s != "" && LineLength(s) < |s|
    ensures SplitLines(s) == [s[..LineLength(s)]] + SplitLines(AfterLine(s))
  {
    hide LineLength, BreakLength;
  }

  lemma NoBreakIn(s: string, n: nat)
    requires n <= |s| && forall i :: 0 <= i < n ==> !LineBreak(s[i])
    ensures forall c :: c in s[..n] ==> !LineBreak(c)
  {
    hide LineBreak;
  }

  lemma BreakIs(s: string, n: nat)
    requires n < |s| && LineBreak(s[n])
    ensures var k := n + BreakLength(s, n);
      Boundary(s[n..k]) && (s[n..k] == "\r" && s[k..] != "" ==> s[k..][0] != '\n')
  {
    hide LineBreak;
    if BreakLength(s, n) == 2 {
      assert s[n..n + 2] == "\r\n";
    } else {
      assert s[n..n + 1] == [s[n]];
      assert n + 1 < |s| ==> s[n + 1..][0] == s[n + 1];
    }
  }

  lemma LineInFront(line: string, gap: string, s: string, lines: seq<string>, ends: seq<string>)
    requires AreLines(s, lines, ends) && Boundary(gap) && forall c :: c in line ==> !LineBreak(c)
    requires gap == "\r" && s != "" ==> s[0] != '\n'
    ensures AreLines(line + gap + s, [line] + lines, [gap] + ends)
  {
    hide LineBreak, Boundary;
    assert ([line] + lines)[1..] == lines && ([gap] + ends)[1..] == ends;
    FirstEnd(lines, ends);
  }

  lemma FirstEnd(lines: seq<string>, ends: seq<string>)
    requires |lines| == |ends|
    ensures lines != [] && lines[0] == "" && ends[0] == "\n" ==>
      Ended(lines, ends) != "" && Ended(lines, ends)[0] == '\n'
  {
  }

  // ---------------------------------------------------------------- words

  /** A cleaned line is its words, the maximal runs without blanks and tabs, joined by one blank each and stripped. */
  lemma CleanLineJoinsWords(line: string)
    ensures CleanLine(line) == Strip(Join(" ", Words(line, Blank)))
  {
    StrippedJoin(line, Blank, " ", PythonSpace);
  }

  /** A tidy line is left as it is. */
  lemma {:induction false} SqueezeNothing(line: string)
    requires Single(line)
    ensures Squeeze(line) == line
  {
    if line != "" {
      assert forall i :: 0 <= i < |line| - 1 ==> line[1..][i] == line[i + 1];
      SqueezeNothing(line[1..]);
    }
  }

  lemma TidyUnchanged(line: string)
    requires Tidy(line)
    ensures CleanLine(line) == line
  {
    hide Single, Squeeze;
    SqueezeNothing(line);
  }

  // ---------------------------------------------------------------- character by character

  /**
   * From one kept character to the next: of a run of blanks in between one is kept, and nothing else is left out.
   */
  ghost predicate Follows(line: string, p: nat, q: nat) {
    && p < q < |line|
    && if Blank(line[q]) then !Blank(line[p]) && forall k :: p < k < q ==> Blank(line[k]) else q == p + 1
  }

  ghost predicate Shows(line: string, out: string, at: seq<nat>) {
    && |at| == |out|
    && (forall i :: 0 <= i < |at| ==> at[i] < |line| && out[i] == if Blank(line[at[i]]) then ' ' else line[at[i]])
    && (forall i :: 0 <= i < |at| - 1 ==> Follows(line, at[i], at[i + 1]))
  }

  /** Outside the kept part there is only white space. */
  ghost predicate WhiteAround(line: string, at: seq<nat>) {
    forall k :: 0 <= k < |line| && (at == [] || k < at[0] || at[|at| - 1] < k) ==> PythonSpace(line[k])
  }

  /** `out` is the line from its first to its last character that is not white space, with one blank for each run. */
  ghost predicate Squeezed(line: string, out: string) {
    exists at :: Shows(line, out, at) && WhiteAround(line, at) && Bare(out, PythonSpace)
  }

  /** The kept characters of a whole line; of the blanks in front, the last one. */
  ghost predicate ShowsAll(line: string, out: string, at: seq<nat>) {
    && Shows(line, out, at)
    && (line == "" <==> at == [])
    && (at != [] ==> at[|at| - 1] == |line| - 1)
    && (at != [] && at[0] > 0 ==> forall k :: 0 <= k <= at[0] ==> Blank(line[k]))
  }

  function Shifted(at: seq<nat>): seq<nat> { seq(|at|, i requires 0 <= i < |at| => at[i] + 1) }

  lemma ShiftShows(line: string, out: string, at: seq<nat>)
    requires line != "" && Shows(line[1..], out, at)
    ensures Shows(line, out, Shifted(at))
  {
    hide Blank;
    forall i | 0 <= i < |at| - 1 ensures Follows(line, at[i] + 1, at[i + 1] + 1) {
      assert Follows(line[1..], at[i], at[i + 1]);
      forall k | at[i] + 1 < k < at[i + 1] + 1 && Blank(line[at[i + 1] + 1]) ensures Blank(line[k]) {
        assert line[k] == line[1..][k - 1];
      }
    }
  }

  lemma ShowsFirst(line: string, out: string, at: seq<nat>, c: char)
    requires line != "" && Shows(line, out, at) && (at != [] ==> Follows(line, 0, at[0]))
    requires c == if Blank(line[0]) then ' ' else line[0]
    ensures Shows(line, [c] + out, [0] + at)
  {
    hide Follows, Blank;
    var longer := [0] + at;
    forall i | 0 <= i < |longer| - 1 ensures Follows(line, longer[i], longer[i + 1]) {
      assert i > 0 ==> longer[i] == at[i - 1];
    }
  }

  lemma {:induction false} SqueezeShows(line: string) returns (at: seq<nat>)
    ensures ShowsAll(line, Squeeze(line), at)
  {
    if line == "" {
      at := [];
    } else {
      var rest := SqueezeShows(line[1..]);
      ShiftShows(line, Squeeze(line[1..]), rest);
      var shifted := Shifted(rest);
      FrontBlanks(line, rest);
      if Blank(line[0]) && |line| > 1 && Blank(line[1]) {
        at := shifted;
      } else {
        at := [0] + shifted;
        ShowsFirst(line, Squeeze(line[1..]), shifted, if Blank(line[0]) then ' ' else line[0]);
      }
    }
  }

  lemma FrontBlanks(line: string, rest: seq<nat>)
    requires line != "" && ShowsAll(line[1..], Squeeze(line[1..]), rest)
    ensures |line| == 1 <==> rest == []
    ensures rest != [] ==> rest[|rest| - 1] + 2 == |line|
    ensures rest != [] && rest[0] > 0 ==> forall k :: 0 < k <= rest[0] + 1 ==> Blank(line[k])
    ensures rest != [] && !(Blank(line[0]) && Blank(line[1])) ==> Follows(line, 0, rest[0] + 1)
  {
    hide Follows, Squeeze, Blank;
    if rest != [] && rest[0] == 0 {
      FollowsNext(line, 0);
    } else if rest != [] {
      assert line[1] == line[1..][0];
      forall k | 0 < k <= rest[0] + 1 ensures Blank(line[k]) {
        assert line[k] == line[1..][k - 1];
      }
      if !Blank(line[0]) {
        FollowsRun(line, 0, rest[0] + 1);
      }
    }
  }

  lemma FollowsNext(line: string, p: nat)
    requires p + 1 < |line|
    ensures !(Blank(line[p]) && Blank(line[p + 1])) ==> Follows(line, p, p + 1)
  {
  }

  lemma FollowsRun(line: string, p: nat, q: nat)
    requires p < q < |line| && !Blank(line[p]) && forall k :: p < k <= q ==> Blank(line[k])
    ensures Follows(line, p, q)
  {
  }

  /** Cutting white space off the ends of what is shown leaves the positions between. */
  lemma ShowsPart(line: string, out: string, at: seq<nat>, a: nat, b: nat)
    requires a <= b <= |out| && Shows(line, out, at)
    ensures Shows(line, out[a..b], at[a..b])
  {
    hide Follows, Blank;
    var part := at[a..b];
    forall i | 0 <= i < |part| - 1 ensures Follows(line, part[i], part[i + 1]) {
      assert part[i] == at[a + i] && part[i + 1] == at[a + i + 1];
    }
  }

  lemma {:induction false} KeptOrBlank(line: string, out: string, at: seq<nat>, k: nat, n: nat) returns (i: nat)
    requires Shows(line, out, at) && 0 < n <= |at| && at[0] <= k <= at[n - 1]
    ensures i < n && at[i] <= k && (at[i] == k || (Blank(line[k]) && i + 1 < n && k < at[i + 1]))
    decreases n
  {
    hide Blank;
    if n == 1 || k == at[n - 1] {
      i := n - 1;
    } else {
      assert Follows(line, at[n - 2], at[n - 1]);
      if k > at[n - 2] {
        i := n - 2;
      } else {
        i := KeptOrBlank(line, out, at, k, n - 1);
      }
    }
  }

  lemma {:induction false} AtIncreases(line: string, out: string, at: seq<nat>, i: nat, j: nat)
    requires i <= j < |at| && Shows(line, out, at)
    ensures at[i] <= at[j]
    decreases j
  {
    hide Blank;
    if i < j {
      AtIncreases(line, out, at, i, j - 1);
      assert Follows(line, at[j - 1], at[j]);
    }
  }

  lemma ShownSize(line: string, out: string, at: seq<nat>)
    requires ShowsAll(line, out, at)
    ensures Shows(line, out, at) && |at| == |out| && forall i :: 0 <= i < |at| ==> at[i] < |line|
  {
  }

  lemma CutAtWhite(line: string, out: string, at: seq<nat>, a: nat, b: nat)
    requires ShowsAll(line, out, at) && a <= b <= |out| && All(out[..a], PythonSpace) && All(out[b..], PythonSpace)
    ensures WhiteAround(line, at[a..b])
  {
    hide Shows, PythonSpace, Blank;
    ShownSize(line, out, at);
    var part := at[a..b];
    forall k | 0 <= k < |line| && (part == [] || k < part[0] || part[|part| - 1] < k) ensures PythonSpace(line[k]) {
      if k < at[0] {
        BlankIsSpace(line[k]);
      } else {
        var i := KeptOrBlank(line, out, at, k, |at|);
        if at[i] == k {
          OutsidePart(line, out, at, a, b, i);
          WhiteThere(line, out, at, a, b, i);
        } else {
          BlankIsSpace(line[k]);
        }
      }
    }
  }

  lemma BlankIsSpace(c: char)
    ensures Blank(c) ==> PythonSpace(c)
    ensures PythonSpace(' ')
  {
  }

  lemma OutsidePart(line: string, out: string, at: seq<nat>, a: nat, b: nat, i: nat)
    requires Shows(line, out, at) && a <= b <= |out| && i < |out|
    requires a == b || at[i] < at[a] || at[b - 1] < at[i]
    ensures i < a || i >= b
  {
    if a <= i < b {
      AtIncreases(line, out, at, a, i);
      AtIncreases(line, out, at, i, b - 1);
    }
  }

  lemma WhiteThere(line: string, out: string, at: seq<nat>, a: nat, b: nat, i: nat)
    requires Shows(line, out, at) && a <= b <= |out| && i < |out|
    requires All(out[..a], PythonSpace) && All(out[b..], PythonSpace)
    requires i < a || i >= b
    ensures PythonSpace(line[at[i]])
  {
    hide PythonSpace;
    if i < a {
      assert out[..a][i] == out[i];
    } else {
      assert out[b..][i - b] == out[i];
    }
    BlankIsSpace(line[at[i]]);
  }

  lemma Slices(left: string, middle: string, right: string)
    ensures var s := left + middle + right;
      var a, b := |left|, |left| + |middle|;
      b <= |s| && s[..a] == left && s[a..b] == middle && s[b..] == right
  {
  }

  /** A cleaned line keeps all but white space at its ends, and one blank of each run of blanks. */
  lemma CleanLineSqueezed(line: string)
    ensures Squeezed(line, CleanLine(line))
  {
    hide Squeeze, ShowsAll, Shows, StripBoth, WhiteAround, All, Bare;
    var out := Squeeze(line);
    var at := SqueezeShows(line);
    var left, right := StripIs(out, PythonSpace);
    var a, b := |left|, |left| + |Strip(out)|;
    Slices(left, Strip(out), right);
    ShownSize(line, out, at);
    ShowsPart(line, out, at, a, b);
    CutAtWhite(line, out, at, a, b);
  }

  /**
   * Two characters of a line with only blanks or tabs between them, themselves neither, stand side by side with one
   * blank between them, or with none if there was none.
   */
  lemma OneBlankBetween(line: string, out: string, p: nat, q: nat) returns (i: nat)
    requires Squeezed(line, out)
    requires p < q < |line| && !PythonSpace(line[p]) && !PythonSpace(line[q])
    requires forall k :: p < k < q ==> Blank(line[k])
    ensures i < |out| && out[i] == line[p]
    ensures if q == p + 1 then i + 1 < |out| && out[i + 1] == line[q]
      else i + 2 < |out| && out[i + 1] == ' ' && out[i + 2] == line[q]
  {
    hide Follows, PythonSpace, Blank, Bare;
    var at :| Shows(line, out, at) && WhiteAround(line, at) && Bare(out, PythonSpace);
    BlankIsSpace(line[p]);
    BlankIsSpace(line[q]);
    i := KeptOrBlank(line, out, at, p, |at|);
    var j := KeptOrBlank(line, out, at, q, |at|);
    NextShown(line, out, at, i, j);
  }

  lemma NextShown(line: string, out: string, at: seq<nat>, i: nat, j: nat)
    requires Shows(line, out, at) && i < |at| && j < |at| && at[i] < at[j]
    requires !Blank(line[at[i]]) && !Blank(line[at[j]]) && forall k :: at[i] < k < at[j] ==> Blank(line[k])
    ensures out[i] == line[at[i]] && out[j] == line[at[j]]
    ensures if at[j] == at[i] + 1 then j == i + 1 else j == i + 2 && out[i + 1] == ' '
  {
    hide Blank;
    if j <= i {
      AtIncreases(line, out, at, j, i);
    }
    assert Follows(line, at[i], at[i + 1]);
    AtIncreases(line, out, at, i + 1, j);
    if j > i + 1 {
      assert Follows(line, at[i + 1], at[i + 2]);
      AtIncreases(line, out, at, i + 2, j);
      if j > i + 2 {
        assert Follows(line, at[i + 2], at[i + 3]);
        AtIncreases(line, out, at, i + 3, j);
      }
    }
  }
}
