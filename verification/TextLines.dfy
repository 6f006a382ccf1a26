/** From plain text to tidy lines: cleaned lines and the collapse of empty ones. */
module TextLines {
  import opened Text
  import opened Html
  import opened LineText

  // ---------------------------------------------------------------- empty lines

  /** The maximal runs of non-empty lines, and whether the last line is in the last run. */
  function Paragraphs(lines: seq<string>): (r: (seq<seq<string>>, bool))
    ensures r.1 ==> r.0 != []
  {
    if lines == [] then ([], false)
    else
      var last := lines[|lines| - 1];
      var (paragraphs, open) := Paragraphs(lines[..|lines| - 1]);
      if last == "" then (paragraphs, false)
      else if open then (paragraphs[..|paragraphs| - 1] + [paragraphs[|paragraphs| - 1] + [last]], true)
      else (paragraphs + [[last]], true)
  }

  /** The paragraphs with one empty line between each two. */
  function Separated(paragraphs: seq<seq<string>>): seq<string> {
    if paragraphs == [] then []
    else if |paragraphs| == 1 then paragraphs[0]
    else Separated(paragraphs[..|paragraphs| - 1]) + [""] + paragraphs[|paragraphs| - 1]
  }

  lemma {:induction false} ParagraphsNonEmpty(lines: seq<string>)
    ensures forall p :: 0 <= p < |Paragraphs(lines).0| ==> Paragraphs(lines).0[p] != [] && "" !in Paragraphs(lines).0[p]
  {
    if lines != [] {
      ParagraphsNonEmpty(lines[..|lines| - 1]);
    }
  }

  lemma SeparatedSnoc(front: seq<seq<string>>, last: seq<string>)
    ensures Separated(front + [last]) == (if front == [] then [] else Separated(front) + [""]) + last
  {
    assert (front + [last])[..|front|] == front;
  }

  /** Adding a line to the last paragraph adds it at the end. */
  lemma SeparatedExtend(paragraphs: seq<seq<string>>, line: string)
    requires paragraphs != []
    ensures Separated(paragraphs[..|paragraphs| - 1] + [paragraphs[|paragraphs| - 1] + [line]])
      == Separated(paragraphs) + [line]
  {
    hide Separated;
    var front, last := paragraphs[..|paragraphs| - 1], paragraphs[|paragraphs| - 1];
    SeparatedSnoc(front, last);
    SeparatedSnoc(front, last + [line]);
    assert front + [last] == paragraphs;
    var head := if front == [] then [] else Separated(front) + [""];
    ConcatAssoc(head, last, [line]);
  }

  lemma {:induction false} SeparatedEnds(paragraphs: seq<seq<string>>)
    requires forall p :: 0 <= p < |paragraphs| ==> paragraphs[p] != [] && "" !in paragraphs[p]
    ensures paragraphs != [] ==> Separated(paragraphs) != []
    ensures Separated(paragraphs) != [] ==>
      Separated(paragraphs)[0] != "" && Separated(paragraphs)[|Separated(paragraphs)| - 1] != ""
    ensures forall i :: 0 <= i < |Separated(paragraphs)| - 1 ==>
      Separated(paragraphs)[i] != "" || Separated(paragraphs)[i + 1] != ""
  {
    if |paragraphs| == 1 {
      assert forall i :: 0 <= i < |paragraphs[0]| ==> paragraphs[0][i] in paragraphs[0];
    } else if paragraphs != [] {
      var last := paragraphs[|paragraphs| - 1];
      SeparatedEnds(paragraphs[..|paragraphs| - 1]);
      assert forall i :: 0 <= i < |last| ==> last[i] in last;
    }
  }

  /** The lines the fallback writer prints. */
  function TidyLines(text: string): seq<string> {
    var split := SplitLines(text);
    Separated(Paragraphs(seq(|split|, i requires 0 <= i < |split| => CleanLine(split[i]))).0)
  }

  /** The result list while the loop has seen `lines`: an empty line may still be waiting for the next paragraph. */
  function Collapsed(lines: seq<string>): seq<string> {
    var (paragraphs, open) := Paragraphs(lines);
    Separated(paragraphs) + (if paragraphs != [] && !open then [""] else [])
  }

  /** An empty line is kept only after a non-empty one. */
  lemma CollapsedStep(lines: seq<string>, line: string)
    ensures Collapsed(lines + [line])
      == if line != "" || (Collapsed(lines) != [] && Collapsed(lines)[|Collapsed(lines)| - 1] != "")
         then Collapsed(lines) + [line] else Collapsed(lines)
  {
    hide Separated;
    var (paragraphs, open) := Paragraphs(lines);
    assert (lines + [line])[..|lines|] == lines;
    ParagraphsNonEmpty(lines);
    SeparatedEnds(paragraphs);
    if line != "" && open {
      SeparatedExtend(paragraphs, line);
    } else if line != "" {
      SeparatedSnoc(paragraphs, [line]);
    }
    if paragraphs == [] {
      SeparatedNothing();
    }
  }

  lemma SeparatedNothing()
    ensures Separated([]) == []
  {
  }

  lemma CollapsedNothing()
    ensures Collapsed([]) == []
  {
  }

  lemma CollapsedEnd(lines: seq<string>)
    ensures var tidy := Separated(Paragraphs(lines).0);
      (Collapsed(lines) == tidy || Collapsed(lines) == tidy + [""]) && (tidy != [] ==> tidy[|tidy| - 1] != "")
  {
    ParagraphsNonEmpty(lines);
    SeparatedEnds(Paragraphs(lines).0);
  }

  lemma {:induction false} SeparatedMembers(paragraphs: seq<seq<string>>, line: string)
    requires line in Separated(paragraphs) && line != ""
    ensures exists p :: 0 <= p < |paragraphs| && line in paragraphs[p]
  {
    if |paragraphs| > 1 {
      var front := paragraphs[..|paragraphs| - 1];
      if line in Separated(front) {
        SeparatedMembers(front, line);
        var p :| 0 <= p < |front| && line in front[p];
        assert line in paragraphs[p];
      }
    }
  }

  lemma {:induction false} ParagraphMembers(lines: seq<string>, p: nat, line: string)
    requires p < |Paragraphs(lines).0| && line in Paragraphs(lines).0[p]
    ensures line in lines
  {
    var front, last := lines[..|lines| - 1], lines[|lines| - 1];
    var (paragraphs, open) := Paragraphs(front);
    if p < |paragraphs| && line in paragraphs[p] {
      ParagraphMembers(front, p, line);
    } else {
      assert line == last;
    }
  }

  /**
   * The final lines: every one is tidy and without line boundaries, the first and the last are not
   * empty, and no two empty lines follow each other.
   */
  lemma TidyLinesShape(text: string)
    ensures forall i :: 0 <= i < |TidyLines(text)| ==> Tidy(TidyLines(text)[i])
    ensures forall i, j :: 0 <= i < |TidyLines(text)| && 0 <= j < |TidyLines(text)[i]| ==>
      !LineBreak(TidyLines(text)[i][j])
    ensures TidyLines(text) != [] ==> TidyLines(text)[0] != "" && TidyLines(text)[|TidyLines(text)| - 1] != ""
    ensures forall i :: 0 <= i < |TidyLines(text)| - 1 ==> TidyLines(text)[i] != "" || TidyLines(text)[i + 1] != ""
  {
    hide CleanLine, SplitLines, Tidy, LineBreak, Separated, Paragraphs;
    var split := SplitLines(text);
    var lines := seq(|split|, i requires 0 <= i < |split| => CleanLine(split[i]));
    var result := TidyLines(text);
    ParagraphsNonEmpty(lines);
    SeparatedEnds(Paragraphs(lines).0);
    forall i | 0 <= i < |result|
      ensures Tidy(result[i]) && forall j :: 0 <= j < |result[i]| ==> !LineBreak(result[i][j])
    {
      if result[i] != "" {
        SeparatedMembers(Paragraphs(lines).0, result[i]);
        var p :| 0 <= p < |Paragraphs(lines).0| && result[i] in Paragraphs(lines).0[p];
        ParagraphMembers(lines, p, result[i]);
        var k :| 0 <= k < |lines| && lines[k] == result[i];
        LineIsTidy(text, k);
      } else {
        EmptyIsTidy();
      }
    }
  }

  lemma EmptyIsTidy()
    ensures Tidy("")
  {
  }

  lemma LineIsTidy(text: string, k: nat)
    requires k < |SplitLines(text)|
    ensures Tidy(CleanLine(SplitLines(text)[k]))
    ensures forall j :: 0 <= j < |CleanLine(SplitLines(text)[k])| ==> !LineBreak(CleanLine(SplitLines(text)[k])[j])
  {
    hide CleanLine, SplitLines, Tidy;
    var line := SplitLines(text)[k];
    CleanLineTidy(line);
    SplitLinesClean(text);
    forall j | 0 <= j < |CleanLine(line)| ensures !LineBreak(CleanLine(line)[j]) {
      if CleanLine(line)[j] != ' ' {
        var i :| 0 <= i < |line| && line[i] == CleanLine(line)[j];
      }
    }
  }

  // ---------------------------------------------------------------- nothing printed is lost

  // ---------------------------------------------------------------- which lines are printed

  ghost predicate Increasing(home: seq<nat>) { forall r, q :: 0 <= r < q < |home| ==> home[r] < home[q] }

  /** No empty line first or last, and no two in a row. */
  predicate SingleGaps(result: seq<string>) {
    && (result != [] ==> result[0] != "" && result[|result| - 1] != "")
    && (forall r :: 0 <= r < |result| - 1 ==> result[r] != "" || result[r + 1] != "")
  }

  /**
   * Where the lines of the result come from: line r is the squeezed line number `home[r]`, the lines left out are
   * white space, and none is left out after a line that is not empty.
   */
  ghost predicate Placed(lines: seq<string>, result: seq<string>, home: seq<nat>) {
    && |home| == |result| && Increasing(home) && SingleGaps(result)
    && (forall r :: 0 <= r < |home| ==> home[r] < |lines| && Squeezed(lines[home[r]], result[r]))
    && (forall k: nat :: k < |lines| && k !in home ==> Squeezed(lines[k], ""))
    && (forall r :: 0 <= r < |home| - 1 && result[r] != "" ==> home[r + 1] == home[r] + 1)
  }

  ghost predicate Printed(text: string, result: seq<string>) { exists home :: Placed(SplitLines(text), result, home) }

  ghost predicate Picks(lines: seq<string>, result: seq<string>, home: seq<nat>) {
    && |home| == |result| && Increasing(home)
    && (forall r :: 0 <= r < |home| ==> home[r] < |lines| && lines[home[r]] == result[r])
    && (forall k: nat :: k < |lines| && k !in home ==> lines[k] == "")
    && (forall r :: 0 <= r < |home| - 1 && result[r] != "" ==> home[r + 1] == home[r] + 1)
  }

  lemma {:induction false} CollapsedPicks(lines: seq<string>) returns (home: seq<nat>)
    ensures Picks(lines, Collapsed(lines), home)
    ensures home != [] && Collapsed(lines)[|home| - 1] != "" ==> home[|home| - 1] == |lines| - 1
  {
    hide Collapsed, Picks;
    if lines == [] {
      home := [];
      CollapsedNothing();
      PickNothing();
    } else {
      var front, last := lines[..|lines| - 1], lines[|lines| - 1];
      assert lines == front + [last];
      home := CollapsedPicks(front);
      CollapsedStep(front, last);
      var kept := Collapsed(front);
      PickSize(front, kept, home);
      if last != "" || (kept != [] && kept[|kept| - 1] != "") {
        PickLast(front, kept, home, last);
        home := home + [|front|];
      } else {
        PickNot(front, kept, home);
      }
    }
  }

  lemma PickNothing()
    ensures Picks([], [], [])
  {
  }

  lemma PickSize(lines: seq<string>, result: seq<string>, home: seq<nat>)
    requires Picks(lines, result, home)
    ensures |home| == |result|
  {
  }

  lemma PickLast(lines: seq<string>, result: seq<string>, home: seq<nat>, line: string)
    requires Picks(lines, result, home)
    requires home != [] && result[|home| - 1] != "" ==> home[|home| - 1] == |lines| - 1
    ensures Picks(lines + [line], result + [line], home + [|lines|])
  {
    var all, longer := lines + [line], home + [|lines|];
    assert longer[|home|] == |lines|;
    forall k: nat | k < |all| && k !in longer ensures all[k] == "" {
      assert forall r :: 0 <= r < |home| ==> home[r] == longer[r];
    }
  }

  lemma PickNot(lines: seq<string>, result: seq<string>, home: seq<nat>)
    requires Picks(lines, result, home)
    ensures Picks(lines + [""], result, home)
  {
    assert forall k :: 0 <= k < |lines| ==> (lines + [""])[k] == lines[k];
  }

  lemma PickFront(lines: seq<string>, result: seq<string>, home: seq<nat>)
    requires Picks(lines, result + [""], home)
    ensures Picks(lines, result, home[..|result|])
  {
    var front := home[..|result|];
    assert forall q :: 0 <= q < |front| ==> front[q] == home[q];
    forall k: nat | k < |lines| && k !in front ensures lines[k] == "" {
      if k in home {
        var r :| 0 <= r < |home| && home[r] == k;
      }
    }
  }

  /** The printed lines are the squeezed lines of the text, in order, one empty line for each run of white ones. */
  lemma TidyLinesPrinted(text: string)
    ensures Printed(text, TidyLines(text))
  {
    hide CleanLine, SplitLines, Squeezed, Separated, Paragraphs, Collapsed, Tidy, Picks, Placed;
    var split := SplitLines(text);
    var lines := seq(|split|, i requires 0 <= i < |split| => CleanLine(split[i]));
    var home := CollapsedPicks(lines);
    PickSize(lines, Collapsed(lines), home);
    CollapsedEnd(lines);
    if Collapsed(lines) != TidyLines(text) {
      PickFront(lines, TidyLines(text), home);
      home := home[..|TidyLines(text)|];
    }
    TidyLinesShape(text);
    forall k | 0 <= k < |split| ensures Squeezed(split[k], lines[k]) {
      CleanLineSqueezed(split[k]);
    }
    PlacedBy(split, lines, TidyLines(text), home);
  }

  lemma PlacedBy(split: seq<string>, lines: seq<string>, result: seq<string>, home: seq<nat>)
    requires Picks(lines, result, home) && SingleGaps(result)
    requires |split| == |lines| && forall k :: 0 <= k < |split| ==> Squeezed(split[k], lines[k])
    ensures Placed(split, result, home)
  {
    hide Squeezed;
  }

  /**
   * Two characters of one line of the text with only blanks and tabs between them are printed on one line, with
   * exactly one blank between them, or with none if they stood side by side.
   */
  lemma OneBlankPrinted(text: string, result: seq<string>, k: nat, p: nat, q: nat) returns (r: nat, i: nat)
    requires Printed(text, result) && k < |SplitLines(text)|
    requires var line := SplitLines(text)[k];
      p < q < |line| && !PythonSpace(line[p]) && !PythonSpace(line[q]) && forall m :: p < m < q ==> line[m] in " \t"
    ensures var line := SplitLines(text)[k];
      && r < |result| && i < |result[r]| && result[r][i] == line[p]
      && if q == p + 1 then i + 1 < |result[r]| && result[r][i + 1] == line[q]
         else i + 2 < |result[r]| && result[r][i + 1] == ' ' && result[r][i + 2] == line[q]
  {
    hide SplitLines, PythonSpace, Squeezed, Placed;
    var home :| Placed(SplitLines(text), result, home);
    r := PlaceOf(SplitLines(text), result, home, k, p);
    i := OneBlankBetween(SplitLines(text)[k], result[r], p, q);
  }

  lemma PlaceOf(lines: seq<string>, result: seq<string>, home: seq<nat>, k: nat, p: nat) returns (r: nat)
    requires Placed(lines, result, home) && k < |lines| && p < |lines[k]| && !PythonSpace(lines[k][p])
    ensures r < |result| && Squeezed(lines[k], result[r])
  {
    hide PythonSpace, Squeezed;
    if k !in home {
      NothingSqueezed(lines[k], p);
    }
    r :| 0 <= r < |home| && home[r] == k;
  }

  lemma NothingSqueezed(line: string, p: nat)
    requires p < |line| && Squeezed(line, "")
    ensures PythonSpace(line[p])
  {
  }

  /** `_html_to_text_lines`, given the standard library's character reference table. */
  method HtmlToTextLines(decode: string -> string, doc: string) returns (result: seq<string>)
    ensures result == TidyLines(Unescape(decode, StripMarkup(doc)))
    ensures Printed(Unescape(decode, StripMarkup(doc)), result)
  {
    hide StripMarkup, Unescape, CleanLine, SplitLines, Separated, Paragraphs, Collapsed;
    var text := Unescape(decode, StripMarkup(doc));
    var split := SplitLines(text);
    var lines := seq(|split|, i requires 0 <= i < |split| => CleanLine(split[i]));
    result := [];
    CollapsedNothing();
    for i := 0 to |lines|
      invariant result == Collapsed(lines[..i])
    {
      CollapsedStep(lines[..i], lines[i]);
      assert lines[..i + 1] == lines[..i] + [lines[i]];
      if lines[i] != "" || (result != [] && result[|result| - 1] != "") {
        result := result + [lines[i]];
      }
    }
    assert lines[..|lines|] == lines;
    ghost var tidy := Separated(Paragraphs(lines).0);
    CollapsedEnd(lines);
    while result != [] && result[|result| - 1] == ""
      invariant result == tidy || result == tidy + [""]
      decreases |result|
    {
      result := result[..|result| - 1];
    }
    TidyLinesPrinted(text);
  }

  // ---------------------------------------------------------------- nothing printed is lost

  lemma {:induction false} CleanLinesInk(lines: seq<string>)
    ensures Ink(Flat(seq(|lines|, i requires 0 <= i < |lines| => CleanLine(lines[i])))) == Ink(Flat(lines))
  {
    hide CleanLine, Ink, Tidy;
    if lines != [] {
      var clean := seq(|lines|, i requires 0 <= i < |lines| => CleanLine(lines[i]));
      var rest := lines[1..];
      CleanLinesInk(rest);
      assert clean[1..] == seq(|rest|, i requires 0 <= i < |rest| => CleanLine(rest[i]));
      CleanLineTidy(lines[0]);
      InkAppend(clean[0], Flat(clean[1..]));
      InkAppend(lines[0], Flat(rest));
    }
  }

  lemma {:induction false} SeparatedText(paragraphs: seq<seq<string>>)
    ensures Flat(Separated(paragraphs)) == Flat(Flat(paragraphs))
  {
    if paragraphs != [] {
      hide Separated, Flat;
      var front, last := paragraphs[..|paragraphs| - 1], paragraphs[|paragraphs| - 1];
      SeparatedText(front);
      SeparatedSnoc(front, last);
      FlatAppend(Separated(front) + [""], last);
      FlatSnoc(Separated(front), "");
      assert Flat(Separated(front)) + "" == Flat(Separated(front));
      FlatSnoc(front, last);
      assert front + [last] == paragraphs;
      FlatAppend(Flat(front), last);
      SeparatedText0(front, last);
    } else {
      SeparatedNothing();
    }
  }

  lemma SeparatedText0(front: seq<seq<string>>, last: seq<string>)
    ensures front == [] ==> Flat(Flat(front)) + Flat(last) == Flat([] + last)
  {
    assert [] + last == last;
  }

  lemma {:induction false} ParagraphsText(lines: seq<string>)
    ensures Flat(Flat(Paragraphs(lines).0)) == Flat(lines)
  {
    if lines != [] {
      var front, last := lines[..|lines| - 1], lines[|lines| - 1];
      var (paragraphs, open) := Paragraphs(front);
      ParagraphsText(front);
      FlatSnoc(front, last);
      assert front + [last] == lines;
      if last != "" {
        ParagraphsAdd(paragraphs, open, last);
      } else {
        assert Flat(front) + "" == Flat(front);
      }
    }
  }

  lemma ParagraphsAdd(paragraphs: seq<seq<string>>, open: bool, last: string)
    requires open ==> paragraphs != []
    ensures var longer := if open then paragraphs[..|paragraphs| - 1] + [paragraphs[|paragraphs| - 1] + [last]]
                          else paragraphs + [[last]];
      Flat(Flat(longer)) == Flat(Flat(paragraphs)) + last
  {
    if open {
      var before, p := paragraphs[..|paragraphs| - 1], paragraphs[|paragraphs| - 1];
      FlatSnoc(before, p + [last]);
      FlatSnoc(before, p);
      assert before + [p] == paragraphs;
      assert Flat(before) + (p + [last]) == (Flat(before) + p) + [last];
    } else {
      FlatSnoc(paragraphs, [last]);
    }
    FlatSnoc(Flat(paragraphs), last);
  }

  /** The final lines hold every character of the text that is not white space, in order, and no other. */
  lemma TidyLinesInk(text: string)
    ensures Ink(Flat(TidyLines(text))) == Ink(text)
  {
    hide CleanLine, SplitLines, Separated, Paragraphs, Ink;
    var split := SplitLines(text);
    var lines := seq(|split|, i requires 0 <= i < |split| => CleanLine(split[i]));
    SeparatedText(Paragraphs(lines).0);
    ParagraphsText(lines);
    CleanLinesInk(split);
    SplitLinesInk(text);
  }
}
