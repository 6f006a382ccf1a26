/** How large a written file gets: which texts its ten-digit offsets can hold. */
module PdfSize {
  import opened Text
  import opened Latin1
  import opened PdfWriter
  import opened PdfReader
  import opened PdfText
  import opened PdfFile
  import opened PdfRoundTrip

  // ---------------------------------------------------------------- sizes of the pieces

  lemma {:induction false} EscapeSize(s: string)
    ensures |s| <= |PdfEscape(s)| <= 2 * |s|
  {
    hide PdfEscape;
    if s == "" {
      NothingEscaped();
    } else {
      EscapeSize(s[1..]);
      PdfEscapeCons(s[0], s[1..]);
      assert s == [s[0]] + s[1..];
    }
  }

  lemma NothingEscaped()
    ensures PdfEscape("") == ""
  {
  }

  lemma {:induction false} ShowOpsSize(lines: seq<string>)
    ensures |Flat(lines)| <= |Flat(ShowOps(lines))| <= 2 * |Flat(lines)| + 10 * |lines|
    decreases |lines|
  {
    hide PdfEscape;
    if lines != [] {
      var front, last := lines[..|lines| - 1], lines[|lines| - 1];
      ShowOpsSize(front);
      EscapeSize(last);
      assert lines == front + [last];
      FlatSnoc(front, last);
      assert ShowOps(lines) == ShowOps(front) + [ShowOp(|front|, last)];
      FlatSnoc(ShowOps(front), ShowOp(|front|, last));
    }
  }

  lemma StreamSize(lines: seq<string>)
    ensures |Flat(lines)| <= |StreamText(lines)| <= 2 * |Flat(lines)| + 10 * |lines| + 60
  {
    hide Flat, ShowOps;
    ShowOpsSize(lines);
    JoinFour("\n", "BT", "/F1 11 Tf", "72 720 Td", "15 TL");
  }

  lemma FewDigits(n: nat)
    requires n < XREF_LIMIT
    ensures |Dec(n)| <= 10
  {
    hide Dec;
    DecLength(n, 10);
    TenDigits();
  }

  lemma PageObjectSize(num: nat)
    requires num + 1 < XREF_LIMIT
    ensures |ObjectBytes(num, Encode(PageText(num + 1)))| <= 150
  {
    hide Dec, Encode;
    FewDigits(num);
    FewDigits(num + 1);
  }

  lemma StreamObjectSize(num: nat, lines: seq<string>)
    ensures var size := |ObjectBytes(num, StreamBody(Encode(StreamText(lines))))|;
      && |Flat(lines)| <= size
      && (num < XREF_LIMIT && 2 * |Flat(lines)| + 10 * |lines| + 60 < XREF_LIMIT ==>
          size <= 2 * |Flat(lines)| + 10 * |lines| + 130)
  {
    hide Dec, Encode, StreamText, Flat;
    StreamSize(lines);
    if num < XREF_LIMIT && 2 * |Flat(lines)| + 10 * |lines| + 60 < XREF_LIMIT {
      FewDigits(num);
      FewDigits(|StreamText(lines)|);
    }
  }

  lemma {:induction false} KidsSize(count: nat, i: nat)
    requires i <= count && PageNumber(count) < XREF_LIMIT
    ensures |KidsFrom(count, i)| <= 15 * (count - i)
    decreases count - i
  {
    hide Dec;
    if i < count {
      FewDigits(PageNumber(i));
      KidsSize(count, i + 1);
    }
  }

  lemma TreeSize(count: nat)
    requires count > 0 && PageNumber(count) < XREF_LIMIT
    ensures |ObjectBytes(2, Encode(PagesText(count)))| <= 15 * count + 80
  {
    hide Dec, Encode, KidsFrom, KidRefs, Join;
    JoinKids(count, 0);
    assert KidRefs(count)[0..] == KidRefs(count);
    KidsSize(count, 0);
    FewDigits(count);
    FewDigits(2);
  }

  // ---------------------------------------------------------------- sizes of the objects so far

  function Chars(pages: seq<seq<string>>): nat { |Flat(Flat(pages))| }

  /** The bytes of the first three objects and the objects of the first `i` pages. */
  function SizeUpTo(pages: seq<seq<string>>, i: nat): nat
    requires i <= |pages|
  {
    |Flat(ObjectParts(Bodies(pages))[..3 + 2 * i])|
  }

  lemma AddPage(pages: seq<seq<string>>, i: nat)
    requires i < |pages|
    ensures Chars(pages[..i + 1]) == Chars(pages[..i]) + |Flat(pages[i])|
    ensures |Flat(pages[..i + 1])| == |Flat(pages[..i])| + |pages[i]|
  {
    FlatTake(pages, i);
    FlatAppend(Flat(pages[..i]), pages[i]);
  }

  lemma NoChars(pages: seq<seq<string>>)
    ensures Chars(pages[..0]) == 0
  {
  }

  lemma PrefixSize(pages: seq<seq<string>>, i: nat)
    requires i <= |pages|
    ensures Chars(pages[..i]) <= Chars(pages) && |Flat(pages[..i])| <= |Flat(pages)|
  {
    assert pages == pages[..i] + pages[i..];
    FlatAppend(pages[..i], pages[i..]);
    FlatAppend(Flat(pages[..i]), Flat(pages[i..]));
  }

  lemma TwoObjects(pages: seq<seq<string>>, i: nat)
    requires i < |pages|
    ensures SizeUpTo(pages, i + 1) == SizeUpTo(pages, i)
      + |ObjectBytes(4 + 2 * i, Encode(PageText(5 + 2 * i)))|
      + |ObjectBytes(5 + 2 * i, StreamBody(Encode(StreamText(pages[i]))))|
  {
    hide Encode, Dec, PageText, StreamBody, StreamText, ObjectBytes, Flat;
    var parts := ObjectParts(Bodies(pages));
    FlatTake(parts, 3 + 2 * i);
    FlatTake(parts, 4 + 2 * i);
  }

  lemma {:induction false} SizeAtLeast(pages: seq<seq<string>>, i: nat)
    requires i <= |pages|
    ensures SizeUpTo(pages, i) >= Chars(pages[..i])
  {
    hide SizeUpTo, Encode, PageText, StreamBody, ObjectBytes, Chars;
    if i == 0 {
      NoChars(pages);
    } else {
      SizeAtLeast(pages, i - 1);
      TwoObjects(pages, i - 1);
      StreamObjectSize(3 + 2 * i, pages[i - 1]);
      AddPage(pages, i - 1);
    }
  }

  predicate Small(pages: seq<seq<string>>) {
    && PageNumber(|pages|) < XREF_LIMIT
    && 2 * Chars(pages) + 10 * |Flat(pages)| + 60 < XREF_LIMIT
  }

  lemma FirstThree(pages: seq<seq<string>>)
    requires pages != [] && Small(pages)
    ensures SizeUpTo(pages, 0) <= 15 * |pages| + 300
  {
    hide Encode, Dec, PagesText, ObjectBytes, Flat, Chars;
    var parts := ObjectParts(Bodies(pages));
    FlatTake(parts, 0);
    FlatTake(parts, 1);
    FlatTake(parts, 2);
    assert |Flat(parts[..0])| == 0 by {
      NothingYet(parts);
    }
    TreeSize(|pages|);
    FixedObjects();
  }

  lemma NothingYet(parts: seq<Bytes>)
    ensures Flat(parts[..0]) == []
  {
  }

  lemma FixedObjects()
    ensures |ObjectBytes(1, Encode(CATALOG))| <= 80
    ensures |ObjectBytes(3, Encode(FONT))| <= 120
  {
    hide Encode, Dec;
    FewDigits(1);
    FewDigits(3);
  }

  lemma {:induction false} SizeAtMost(pages: seq<seq<string>>, i: nat)
    requires i <= |pages| && pages != [] && Small(pages)
    ensures SizeUpTo(pages, i)
      <= 15 * |pages| + 300 + 280 * i + 2 * Chars(pages[..i]) + 10 * |Flat(pages[..i])|
  {
    hide SizeUpTo, Encode, PageText, StreamBody, ObjectBytes, Chars, Flat;
    if i == 0 {
      FirstThree(pages);
    } else {
      SizeAtMost(pages, i - 1);
      TwoObjects(pages, i - 1);
      AddPage(pages, i - 1);
      PrefixSize(pages, i);
      PageObjectSize(2 + 2 * i);
      StreamObjectSize(3 + 2 * i, pages[i - 1]);
    }
  }

  /** The last object starts after the text of all pages but its own, and not much later. */
  lemma LastOffset(pages: seq<seq<string>>)
    requires pages != []
    ensures OffsetOf(Bodies(pages), 2 * |pages| + 3) >= Chars(pages[..|pages| - 1])
    ensures Small(pages) ==>
      OffsetOf(Bodies(pages), 2 * |pages| + 3) <= 295 * |pages| + 320 + 2 * Chars(pages) + 10 * |Flat(pages)|
  {
    hide Chars, Flat, Encode, BodyOf, ObjectParts, ObjectBytes, Small;
    var p := |pages|;
    SizeAtLeast(pages, p - 1);
    OffsetsIncrease(Bodies(pages), 2 * p + 2, 2 * p + 3);
    OffsetsIncrease(Bodies(pages), 2 * p + 3, 2 * p + 4);
    if Small(pages) {
      SizeAtMost(pages, p);
      assert pages[..p] == pages;
    }
  }

  // ---------------------------------------------------------------- sizes of the lines

  predicate Narrow(lines: seq<string>) { forall i :: 0 <= i < |lines| ==> |lines[i]| <= WRAP_WIDTH }

  lemma {:induction false} FewChunks(line: string)
    ensures WRAP_WIDTH * |Chunks(line, WRAP_WIDTH)| < WRAP_WIDTH + |line|
  {
    if |line| > WRAP_WIDTH {
      FewChunks(line[WRAP_WIDTH..]);
    }
  }

  lemma {:induction false} FewPages(lines: seq<string>)
    ensures |Chunks(lines, PAGE_LINES)| <= |lines|
  {
    if |lines| > PAGE_LINES {
      FewPages(lines[PAGE_LINES..]);
    }
  }

  /** Wrapped lines are narrow, and there is one more than the line count for at most every 95 characters. */
  lemma {:induction false} WrapAllSize(lines: seq<string>)
    ensures Narrow(WrapAll(lines))
    ensures WRAP_WIDTH * |WrapAll(lines)| <= WRAP_WIDTH * |lines| + |Flat(lines)|
  {
    hide Chunks;
    if lines != [] {
      WrapAllCons(lines);
      WrapAllSize(lines[1..]);
      WrappedMeaning(lines[0], WRAP_WIDTH);
      FewChunks(lines[0]);
    }
  }

  lemma {:induction false} NarrowParts(pages: seq<seq<string>>, i: nat)
    requires Narrow(Flat(pages)) && i < |pages|
    ensures Narrow(pages[i])
  {
    var rest := Flat(pages[1..]);
    assert Flat(pages) == pages[0] + rest;
    if i == 0 {
      forall k | 0 <= k < |pages[0]| ensures |pages[0][k]| <= WRAP_WIDTH {
        assert pages[0][k] == Flat(pages)[k];
      }
    } else {
      forall k | 0 <= k < |rest| ensures |rest[k]| <= WRAP_WIDTH {
        assert rest[k] == Flat(pages)[|pages[0]| + k];
      }
      NarrowParts(pages[1..], i - 1);
    }
  }

  lemma {:induction false} NarrowSize(lines: seq<string>)
    requires Narrow(lines)
    ensures |Flat(lines)| <= WRAP_WIDTH * |lines|
  {
    if lines != [] {
      NarrowSize(lines[1..]);
    }
  }

  /** A line is cut after every 95 characters and nowhere else, and no printed line is wider. */
  lemma CutAfter95(lines: seq<string>, k: nat, i: nat, p: nat, q: nat)
    requires lines != []
    requires k < |lines| && i < |Wrapped(lines[k], WRAP_WIDTH)|
    requires p < |PagesOf(lines)| && q < |PagesOf(lines)[p]|
    ensures |PagesOf(lines)[p][q]| <= 95
    ensures i + 1 < |Wrapped(lines[k], WRAP_WIDTH)| ==> |Wrapped(lines[k], WRAP_WIDTH)[i]| == 95
  {
    hide Wrapped, PagesOf, WrapAll;
    WrapAllKeepsText(lines);
    PagesAre(lines);
    ChunksFlat(WrapAll(lines), PAGE_LINES);
    WrapAllSize(lines);
    NarrowParts(PagesOf(lines), p);
    WrappedMeaning(lines[k], WRAP_WIDTH);
  }

  // ---------------------------------------------------------------- which texts fit

  /** The pages of a text hold its characters, the last page at most 44 lines of 95. */
  lemma PagesSize(lines: seq<string>)
    requires lines != []
    ensures var pages := PagesOf(lines);
      && pages != [] && Flat(pages) == WrapAll(lines) && Chars(pages) == |Flat(lines)|
      && |pages| <= |WrapAll(lines)|
      && Chars(pages[..|pages| - 1]) >= |Flat(lines)| - PAGE_LINES * WRAP_WIDTH
  {
    hide WrapAll, Flat, PagesOf, Chunks;
    WrapAllKeepsText(lines);
    PagesAre(lines);
    var pages := PagesOf(lines);
    ChunksFlat(WrapAll(lines), PAGE_LINES);
    FewPages(WrapAll(lines));
    WrapAllSize(lines);
    AddPage(pages, |pages| - 1);
    assert pages[..|pages|] == pages;
    NarrowParts(pages, |pages| - 1);
    NarrowSize(pages[|pages| - 1]);
  }

  /** A text this long overflows the ten-digit offsets, and the reader gets nothing. */
  lemma LongText(lines: seq<string>)
    requires lines != [] && |Flat(lines)| >= XREF_LIMIT + 4180
    ensures ReadPdf(FileBytes(Bodies(PagesOf(lines)))) == None
  {
    hide PagesOf, WrapAll, Flat, Chars, Bodies, OffsetOf, FileBytes, ReadPdf, Fits;
    var pages := PagesOf(lines);
    PagesSize(lines);
    LastOffset(pages);
    BodiesCount(pages);
    FitsWhen(Bodies(pages));
    ReadBack(pages);
  }

  /** A text this short fits, and the reader shows its pages. */
  lemma ShortText(lines: seq<string>)
    requires lines != [] && 400 * |lines| + 6 * |Flat(lines)| + 1000 < XREF_LIMIT
    ensures ReadPdf(FileBytes(Bodies(PagesOf(lines)))) == Some(ShownPages(PagesOf(lines)))
  {
    hide PagesOf, WrapAll, Flat, Chars, Bodies, OffsetOf, FileBytes, ReadPdf, Fits;
    var pages := PagesOf(lines);
    PagesSize(lines);
    WrapAllSize(lines);
    LastOffset(pages);
    BodiesCount(pages);
    FitsWhen(Bodies(pages));
    ReadBack(pages);
  }

  /** One line of twice ten thousand million characters: its file cannot be read. */
  lemma OverlongFile()
    ensures ReadPdf(FileBytes(Bodies(PagesOf([seq(2 * XREF_LIMIT, _ => 'a')])))) == None
  {
    hide ReadPdf, FileBytes, Bodies, PagesOf;
    var line: string := seq(2 * XREF_LIMIT, _ => 'a');
    assert Flat([line]) == line + Flat<char>([]);
    LongText([line]);
  }
}
