/** Reading back what the writer wrote, from startxref to the shown lines. */
module PdfRoundTrip {
  import opened Text
  import opened Latin1
  import opened PdfWriter
  import opened PdfReader
  import opened PdfText
  import opened PdfFile

  // ---------------------------------------------------------------- tokens of the fixed dictionaries

  lemma CatalogTokens(rest: Bytes)
    ensures Encode(CATALOG) + rest
      == Encode("<< /Type /Catalog /Pages ") + (Encode(Dec(2)) + (Encode(" 0 R") + (Encode(" >>") + rest)))
  {
    assert Dec(2) == "2";
    assert CATALOG == "<< /Type /Catalog /Pages " + ("2" + (" 0 R" + " >>"));
    Split4("<< /Type /Catalog /Pages ", "2", " 0 R", " >>");
  }

  lemma Split4(a: string, b: string, c: string, d: string)
    ensures Encode(a + (b + (c + d))) == Encode(a) + (Encode(b) + (Encode(c) + Encode(d)))
  {
    hide Encode;
    EncodeAppend(a, b + (c + d));
    EncodeAppend(b, c + d);
    EncodeAppend(c, d);
  }

  lemma PageTokens(content: nat, rest: Bytes)
    ensures Encode(PageText(content)) + rest
      == Encode("<< /Type /Page /Parent ") + (Encode(Dec(2)) + (Encode(" 0 R") +
         (Encode(" /MediaBox [0 0 612 792] /Resources << /Font << /F1 ") + (Encode(Dec(3)) + (Encode(" 0 R") +
         (Encode(" >> >> /Contents ") + (Encode(Dec(content)) + (Encode(" 0 R") + (Encode(" >>") + rest)))))))))
  {
    assert Dec(2) == "2" && Dec(3) == "3";
    hide Encode, Dec;
    assert " 0 R >>" == " 0 R" + " >>";
    PageSplit("<< /Type /Page /Parent ", "2", " 0 R", " /MediaBox [0 0 612 792] /Resources << /Font << /F1 ", "3",
      " >> >> /Contents ", Dec(content), " >>", rest);
  }

  lemma PageSplit(a: string, b: string, r: string, c: string, d: string, e: string, g: string, h: string, rest: Bytes)
    ensures Encode((a + (b + (r + (c + (d + (r + e)))))) + (g + (r + h))) + rest
      == Encode(a) + (Encode(b) + (Encode(r) + (Encode(c) + (Encode(d) + (Encode(r) + (Encode(e) + (Encode(g) +
         (Encode(r) + (Encode(h) + rest)))))))))
  {
    hide Encode;
    EncodeAppend(a + (b + (r + (c + (d + (r + e))))), g + (r + h));
    EncodeAppend(a, b + (r + (c + (d + (r + e)))));
    EncodeAppend(b, r + (c + (d + (r + e))));
    EncodeAppend(r, c + (d + (r + e)));
    EncodeAppend(c, d + (r + e));
    EncodeAppend(d, r + e);
    EncodeAppend(r, e);
    EncodeAppend(g, r + h);
    EncodeAppend(r, h);
  }

  lemma ReadFontDictIs(b: Bytes, pos: nat, rest: Bytes)
    requires At(b, pos, Encode(FONT) + rest)
    ensures ReadFontDict(b, pos).Some?
  {
    hide Encode, At, Skip;
    var s1, s2, s3 := "<< /Type /Font ", "/Subtype /Type1 /BaseFont /Helvetica ", "/Encoding /WinAnsiEncoding >>";
    EncodeAppend(s1, s2 + s3);
    EncodeAppend(s2, s3);
    assert Encode(FONT) + rest == Encode(s1) + (Encode(s2) + (Encode(s3) + rest));
    SkipThen(b, pos, s1, Encode(s2) + (Encode(s3) + rest));
    SkipThen(b, pos + |s1|, s2, Encode(s3) + rest);
    SkipThen(b, pos + |s1| + |s2|, s3, rest);
  }

  // ---------------------------------------------------------------- Kids

  /** The page references from page `i` on, with the separators before them. */
  function KidsFrom(count: nat, i: nat): string
    requires i <= count
    decreases count - i
  {
    if i == count then ""
    else (if i > 0 then " " else "") + (Dec(PageNumber(i)) + (" 0 R" + KidsFrom(count, i + 1)))
  }

  lemma {:induction false} JoinKids(count: nat, i: nat)
    requires i < count
    ensures KidsFrom(count, i) == (if i > 0 then " " else "") + Join(" ", KidRefs(count)[i..])
    decreases count - i
  {
    hide Dec;
    var refs := KidRefs(count)[i..];
    assert refs[0] == Dec(PageNumber(i)) + " 0 R";
    assert refs[1..] == KidRefs(count)[i + 1..];
    if i + 1 < count {
      JoinKids(count, i + 1);
    }
  }

  function Kids(count: nat, i: nat): seq<nat>
    requires i <= count
  {
    seq<nat>(count - i, j requires 0 <= j => PageNumber(i + j))
  }

  lemma {:induction false} ReadKidsFrom(b: Bytes, pos: nat, count: nat, i: nat, rest: Bytes)
    requires i <= count
    requires At(b, pos, Encode(KidsFrom(count, i)) + (Encode("]") + rest))
    ensures ReadKids(b, pos) == Some((Kids(count, i), pos + |KidsFrom(count, i)| + 1))
    ensures At(b, pos + |KidsFrom(count, i)| + 1, rest)
    decreases count - i
  {
    hide Encode, Dec, At, Skip, Ref;
    if i == count {
      assert Encode("") + (Encode("]") + rest) == Encode("]") + rest;
      SkipThen(b, pos, "]", rest);
    } else {
      ReadOneKid(b, pos, count, i, Encode("]") + rest);
      var q := pos + |KidsFrom(count, i)| - |KidsFrom(count, i + 1)|;
      ReadKidsFrom(b, q, count, i + 1, rest);
      assert Kids(count, i) == [PageNumber(i)] + Kids(count, i + 1);
    }
  }

  lemma ReadOneKid(b: Bytes, pos: nat, count: nat, i: nat, rest: Bytes)
    requires i < count
    requires At(b, pos, Encode(KidsFrom(count, i)) + rest)
    ensures Skip(b, pos, "]") == None
    ensures Skip(b, pos, " ").Some? <==> i > 0
    ensures Ref(b, if i > 0 then pos + 1 else pos)
      == Some((PageNumber(i), pos + |KidsFrom(count, i)| - |KidsFrom(count, i + 1)|))
    ensures At(b, pos + |KidsFrom(count, i)| - |KidsFrom(count, i + 1)|, Encode(KidsFrom(count, i + 1)) + rest)
  {
    hide Encode, Dec, Ref, At, Skip;
    var digits, more := Dec(PageNumber(i)), KidsFrom(count, i + 1);
    var tail := Encode(digits) + (Encode(" 0 R") + (Encode(more) + rest));
    KidBytes(count, i, rest);
    FirstDigit(PageNumber(i));
    if i == 0 {
      assert [] + tail == tail;
      SkipFails(b, pos, tail, "]", 0);
      SkipFails(b, pos, tail, " ", 0);
      RefThen(b, pos, PageNumber(i), Encode(more) + rest);
    } else {
      SpaceByte();
      SkipThen(b, pos, " ", tail);
      SkipFails(b, pos, Encode(" ") + tail, "]", 0);
      RefThen(b, pos + 1, PageNumber(i), Encode(more) + rest);
    }
  }

  lemma FirstDigit(n: nat)
    ensures |Dec(n)| >= 1 && IsDigitByte(Encode(Dec(n))[0])
  {
    hide Encode, Dec;
    DecVal(n);
    EncodeDigits(Dec(n));
  }

  lemma SpaceByte()
    ensures Encode(" ") == [32]
  {
  }

  lemma KidBytes(count: nat, i: nat, rest: Bytes)
    requires i < count
    ensures Encode(KidsFrom(count, i)) + rest
      == (if i > 0 then Encode(" ") else []) +
         (Encode(Dec(PageNumber(i))) + (Encode(" 0 R") + (Encode(KidsFrom(count, i + 1)) + rest)))
  {
    hide Encode, Dec;
    var digits, more := Dec(PageNumber(i)), KidsFrom(count, i + 1);
    EncodeAppend(digits, " 0 R" + more);
    EncodeAppend(" 0 R", more);
    if i == 0 {
      assert "" + (digits + (" 0 R" + more)) == digits + (" 0 R" + more);
    } else {
      EncodeAppend(" ", digits + (" 0 R" + more));
    }
  }

  // ---------------------------------------------------------------- objects

  lemma ReadCatalog(b: Bytes, pos: nat, rest: Bytes)
    requires At(b, pos, Encode(CATALOG) + rest)
    ensures Skip(b, pos, "<< /Type /Catalog /Pages ") == Some(pos + 25)
    ensures Ref(b, pos + 25) == Some((2, pos + 29 + |Dec(2)|))
    ensures Skip(b, pos + 29 + |Dec(2)|, " >>") == Some(pos + 32 + |Dec(2)|)
  {
    hide Encode, Dec, At, Skip, Ref;
    CatalogTokens(rest);
    SkipThen(b, pos, "<< /Type /Catalog /Pages ", Encode(Dec(2)) + (Encode(" 0 R") + (Encode(" >>") + rest)));
    RefThen(b, pos + 25, 2, Encode(" >>") + rest);
    SkipThen(b, pos + 29 + |Dec(2)|, " >>", rest);
  }

  lemma PagesTokens(count: nat, rest: Bytes)
    requires count > 0
    ensures Encode(PagesText(count)) + rest
      == Encode("<< /Type /Pages /Kids [") + (Encode(KidsFrom(count, 0)) + (Encode("]") + (Encode(" /Count ") +
         (Encode(Dec(count)) + (Encode(" >>") + rest)))))
  {
    JoinKids(count, 0);
    assert KidRefs(count)[0..] == KidRefs(count);
    assert "" + Join(" ", KidRefs(count)) == Join(" ", KidRefs(count));
    hide Encode, Dec, KidsFrom, Join, KidRefs;
    assert "] /Count " == "]" + " /Count ";
    PagesSplit("<< /Type /Pages /Kids [", KidsFrom(count, 0), "]", " /Count ", Dec(count), " >>", rest);
  }

  lemma PagesSplit(a: string, b: string, c: string, d: string, e: string, g: string, rest: Bytes)
    ensures Encode(a + (b + ((c + d) + (e + g)))) + rest
      == Encode(a) + (Encode(b) + (Encode(c) + (Encode(d) + (Encode(e) + (Encode(g) + rest)))))
  {
    hide Encode;
    EncodeAppend(a, b + ((c + d) + (e + g)));
    EncodeAppend(b, (c + d) + (e + g));
    EncodeAppend(c + d, e + g);
    EncodeAppend(c, d);
    EncodeAppend(e, g);
  }

  /** The page tree: its kids are the page objects in order and Count is their number. */
  lemma ReadPageTree(b: Bytes, pos: nat, count: nat, rest: Bytes)
    requires count > 0
    requires At(b, pos, Encode(PagesText(count)) + rest)
    ensures Skip(b, pos, "<< /Type /Pages /Kids [") == Some(pos + 23)
    ensures ReadKids(b, pos + 23) == Some((Kids(count, 0), pos + 24 + |KidsFrom(count, 0)|))
    ensures Skip(b, pos + 24 + |KidsFrom(count, 0)|, " /Count ") == Some(pos + 32 + |KidsFrom(count, 0)|)
    ensures Number(b, pos + 32 + |KidsFrom(count, 0)|) == Some((count, pos + 32 + |KidsFrom(count, 0)| + |Dec(count)|))
    ensures Skip(b, pos + 32 + |KidsFrom(count, 0)| + |Dec(count)|, " >>").Some?
  {
    hide Encode, Dec, At, Skip, Number, ReadKids, KidsFrom, Kids, PagesText;
    PagesTokens(count, rest);
    var r2 := Encode(Dec(count)) + (Encode(" >>") + rest);
    var r1 := Encode(" /Count ") + r2;
    SkipThen(b, pos, "<< /Type /Pages /Kids [", Encode(KidsFrom(count, 0)) + (Encode("]") + r1));
    ReadKidsFrom(b, pos + 23, count, 0, r1);
    var p := pos + 24 + |KidsFrom(count, 0)|;
    SkipThen(b, p, " /Count ", r2);
    NumberThen(b, p + 8, count, " >>", rest);
    SkipThen(b, p + 8 + |Dec(count)|, " >>", rest);
  }

  lemma ReadPageDictIs(b: Bytes, pos: nat, content: nat)
    requires At(b, pos, Encode(PageText(content)) + Encode("\nendobj\n"))
    ensures ReadPageDict(b, pos) == Some((2, 3, content))
  {
    hide Encode, Dec, At, Skip, Ref, PageText;
    var end := Encode("\nendobj\n");
    assert end + [] == end;
    PageTokens(content, end);
    var r3 := Encode(Dec(content)) + (Encode(" 0 R") + (Encode(" >>") + end));
    var r2 := Encode(" >> >> /Contents ") + r3;
    var r1 := Encode(" /MediaBox [0 0 612 792] /Resources << /Font << /F1 ") + (Encode(Dec(3)) + (Encode(" 0 R") + r2));
    SkipThen(b, pos, "<< /Type /Page /Parent ", Encode(Dec(2)) + (Encode(" 0 R") + r1));
    RefThen(b, pos + 23, 2, r1);
    var p := pos + 27 + |Dec(2)|;
    SkipThen(b, p, " /MediaBox [0 0 612 792] /Resources << /Font << /F1 ", Encode(Dec(3)) + (Encode(" 0 R") + r2));
    RefThen(b, p + 52, 3, r2);
    var q := p + 56 + |Dec(3)|;
    SkipThen(b, q, " >> >> /Contents ", r3);
    RefThen(b, q + 17, content, Encode(" >>") + end);
    var r := q + 21 + |Dec(content)|;
    SkipThen(b, r, " >>", end);
    SkipThen(b, r + 3, "\nendobj\n", []);
  }

  /** The Length written is the stream's own byte count, so exactly the stream is cut out. */
  lemma ReadStreamObjectIs(b: Bytes, pos: nat, stream: Bytes)
    requires At(b, pos, StreamBody(stream) + Encode("\nendobj\n"))
    ensures ReadStreamObject(b, pos) == Some(stream)
  {
    hide Encode, Dec, At, Skip, Number;
    var end := Encode("\nendobj\n");
    assert end + [] == end;
    var r1 := Encode("\nendstream") + end;
    var token := " >>\nstream\n";
    EncodeAppend("<< /Length ", Dec(|stream|) + token);
    EncodeAppend(Dec(|stream|), token);
    var r2 := Encode(token) + (stream + r1);
    assert StreamBody(stream) + end == Encode("<< /Length ") + (Encode(Dec(|stream|)) + r2);
    SkipThen(b, pos, "<< /Length ", Encode(Dec(|stream|)) + r2);
    NumberThen(b, pos + 11, |stream|, token, stream + r1);
    var p := pos + 11 + |Dec(|stream|)|;
    SkipThen(b, p, token, stream + r1);
    CutStream(b, p + 11, stream, r1);
    SkipThen(b, p + 11 + |stream|, "\nendstream", end);
    SkipThen(b, p + 11 + |stream| + 10, "\nendobj\n", []);
  }

  lemma CutStream(b: Bytes, pos: nat, stream: Bytes, rest: Bytes)
    requires At(b, pos, stream + rest)
    ensures pos + |stream| <= |b| && b[pos..pos + |stream|] == stream
    ensures At(b, pos + |stream|, rest)
  {
    AtSplit(b, pos, stream, rest);
  }

  // ---------------------------------------------------------------- whole files

  lemma ReadPageIs(pages: seq<seq<string>>, i: nat)
    requires i < |pages|
    ensures ReadPage(FileBytes(Bodies(pages)), Entries(Bodies(pages)), 2, PageNumber(i)) == Some(ShownLines(pages[i]))
  {
    hide Encode, Dec, At, Skip, FileBytes, FindObject, ReadPageDict, ReadFontDict, ReadStreamObject, ReadStream,
      OffsetOf, StreamText, PageText, PagesText, StreamBody, ShownLines, Entries;
    var bodies := Bodies(pages);
    var f := FileBytes(bodies);
    var end := Encode("\nendobj\n");
    var num := PageNumber(i);
    FindObjectIs(bodies, num);
    ReadPageDictIs(f, OffsetOf(bodies, num) + |Dec(num)| + 7, num + 1);
    FindObjectIs(bodies, 3);
    var fontPos := OffsetOf(bodies, 3) + |Dec(3)| + 7;
    ReadFontDictIs(f, fontPos, end);
    FindObjectIs(bodies, num + 1);
    ReadStreamObjectIs(f, OffsetOf(bodies, num + 1) + |Dec(num + 1)| + 7, Encode(StreamText(pages[i])));
    ReadStreamText(pages[i]);
  }

  /** What a document of these pages must show. */
  function ShownPages(pages: seq<seq<string>>): seq<seq<Shown>> {
    seq(|pages|, i requires 0 <= i < |pages| => ShownLines(pages[i]))
  }

  lemma {:induction false} ReadPagesFrom(pages: seq<seq<string>>, i: nat)
    requires i <= |pages|
    ensures ReadPages(FileBytes(Bodies(pages)), Entries(Bodies(pages)), 2, Kids(|pages|, i))
      == Some(ShownPages(pages)[i..])
    decreases |pages| - i
  {
    hide FileBytes, Bodies, Entries, ReadPage, ShownLines;
    if i < |pages| {
      ReadPageIs(pages, i);
      ReadPagesFrom(pages, i + 1);
      assert Kids(|pages|, i)[1..] == Kids(|pages|, i + 1);
      assert ShownPages(pages)[i..] == [ShownPages(pages)[i]] + ShownPages(pages)[i + 1..];
    } else {
      assert Kids(|pages|, i) == [];
      assert ShownPages(pages)[i..] == [];
    }
  }

  /**
   * The round trip: a reader gets every page back, line for line, exactly when every object offset
   * has at most ten digits; otherwise it rejects the file at the first overlong entry.
   */
  lemma ReadBack(pages: seq<seq<string>>)
    requires pages != []
    ensures ReadPdf(FileBytes(Bodies(pages)))
      == if Fits(Bodies(pages)) then Some(ShownPages(pages)) else None
  {
    hide Encode, Dec, At, Skip, Ref, Number, FileBytes, FindObject, ReadXref, ReadKids, ReadPages, OffsetOf, KidsFrom,
        Kids,
      PageText, PagesText, StreamText, ShownPages, Entries, Fits;
    var bodies := Bodies(pages);
    var f := FileBytes(bodies);
    var end := Encode("\nendobj\n");
    FileStarts(bodies);
    ReadXrefIs(bodies);
    if Fits(bodies) {
      FindObjectIs(bodies, 1);
      ReadCatalog(f, OffsetOf(bodies, 1) + |Dec(1)| + 7, end);
      FindObjectIs(bodies, 2);
      ReadPageTree(f, OffsetOf(bodies, 2) + |Dec(2)| + 7, |pages|, end);
      ReadPagesFrom(pages, 0);
      assert ShownPages(pages)[0..] == ShownPages(pages);
      KidsCount(|pages|);
    }
  }

  lemma KidsCount(count: nat)
    ensures |Kids(count, 0)| == count
  {
  }

  // ---------------------------------------------------------------- when the offsets fit

  /** The last object decides, and any file below the limit is fine. */
  lemma FitsWhen(bodies: seq<Bytes>)
    requires bodies != []
    ensures Fits(bodies) <==> OffsetOf(bodies, |bodies|) < XREF_LIMIT
    ensures |FileBytes(bodies)| < XREF_LIMIT ==> Fits(bodies)
  {
    hide OffsetOf, FileBytes;
    forall k | 1 <= k <= |bodies| ensures OffsetOf(bodies, k) <= OffsetOf(bodies, |bodies|) {
      OffsetsIncrease(bodies, k, |bodies|);
    }
    ObjectAt(bodies, |bodies|);
  }

  // ---------------------------------------------------------------- text

  lemma {:induction false} NormalizedHasNoReturn(t: Bytes)
    ensures 13 !in Normalized(t)
  {
    if t != [] {
      NormalizedHasNoReturn(t[1..]);
      if |t| > 1 {
        NormalizedHasNoReturn(t[2..]);
      }
    }
  }

  /** A shown line is the original line exactly when that is Latin-1 without carriage returns. */
  lemma LineReadsBack(line: string)
    ensures Decode(Normalized(Encode(line))) == line <==> IsLatin1(line) && '\r' !in line
  {
    var t := Encode(line);
    DecodeEncode(line);
    NormalizedSame(t);
    if Decode(Normalized(t)) == line {
      NormalizedHasNoReturn(t);
      forall i | 0 <= i < |line| ensures line[i] != '\r' && t[i] != 13 {
        assert line[i] == DecodeByte(Normalized(t)[i]);
        assert Normalized(t)[i] in Normalized(t);
        assert t[i] == EncodeChar(line[i]);
      }
    }
    if IsLatin1(line) && '\r' !in line {
      forall i | 0 <= i < |t| ensures t[i] != 13 {
        assert line[i] in line;
        assert t[i] == EncodeChar(line[i]);
      }
    }
  }

  function ShownTexts(page: seq<Shown>): seq<string> {
    seq(|page|, i requires 0 <= i < |page| => Decode(page[i].text))
  }

  function Images(lines: seq<string>): seq<string> {
    seq(|lines|, i requires 0 <= i < |lines| => Image(lines[i]))
  }

  predicate NoReturns(lines: seq<string>) { forall i :: 0 <= i < |lines| ==> '\r' !in lines[i] }

  /** Without carriage returns, a line reads back as its Latin-1 image. */
  lemma LineImage(line: string)
    requires '\r' !in line
    ensures Decode(Normalized(Encode(line))) == Image(line)
  {
    var t := Encode(line);
    NormalizedSame(t);
    forall i | 0 <= i < |t| ensures t[i] != 13 {
      assert line[i] in line;
      assert t[i] == EncodeChar(line[i]);
    }
  }

  lemma PageTextsAre(lines: seq<string>)
    requires NoReturns(lines)
    ensures ShownTexts(ShownLines(lines)) == Images(lines)
  {
    hide Encode, Normalized, Image, Decode;
    forall i | 0 <= i < |lines| ensures ShownTexts(ShownLines(lines))[i] == Images(lines)[i] {
      LineImage(lines[i]);
    }
  }

  /** All chunks of all lines. */
  function WrapAll(lines: seq<string>): seq<string> {
    Flat(seq(|lines|, i requires 0 <= i < |lines| => Wrapped(lines[i], WRAP_WIDTH)))
  }

  lemma WrapAllCons(lines: seq<string>)
    requires lines != []
    ensures WrapAll(lines) == Wrapped(lines[0], WRAP_WIDTH) + WrapAll(lines[1..])
  {
    hide Wrapped;
    var parts := seq(|lines|, i requires 0 <= i < |lines| => Wrapped(lines[i], WRAP_WIDTH));
    var rest := lines[1..];
    assert parts[1..] == seq(|rest|, i requires 0 <= i < |rest| => Wrapped(rest[i], WRAP_WIDTH));
  }

  /** Joining the chunks of the lines restores their characters. */
  lemma {:induction false} WrapAllKeepsText(lines: seq<string>)
    ensures Flat(WrapAll(lines)) == Flat(lines)
    ensures lines != [] ==> WrapAll(lines) != []
  {
    if lines != [] {
      var first, rest := Wrapped(lines[0], WRAP_WIDTH), lines[1..];
      WrapAllKeepsText(rest);
      WrappedMeaning(lines[0], WRAP_WIDTH);
      WrapAllCons(lines);
      FlatAppend(first, WrapAll(rest));
    }
  }

  /** A character absent from a concatenation is absent from its parts. */
  lemma {:induction false} PartsLack(parts: seq<string>, c: char)
    requires c !in Flat(parts)
    ensures forall i :: 0 <= i < |parts| ==> c !in parts[i]
  {
    if parts != [] {
      assert Flat(parts) == parts[0] + Flat(parts[1..]);
      PartsLack(parts[1..], c);
    }
  }

  lemma {:induction false} FlatLacks(parts: seq<string>, c: char)
    requires forall i :: 0 <= i < |parts| ==> c !in parts[i]
    ensures c !in Flat(parts)
  {
    if parts != [] {
      FlatLacks(parts[1..], c);
    }
  }

  lemma {:induction false} ImagesFlat(lines: seq<string>)
    ensures Flat(Images(lines)) == Image(Flat(lines))
  {
    hide Image;
    if lines == [] {
      assert |Image("")| == 0;
    } else {
      ImagesFlat(lines[1..]);
      ImageAppend(lines[0], Flat(lines[1..]));
      assert Images(lines)[1..] == Images(lines[1..]);
    }
  }

  /** Every line shown stands on the sheet, below the one before it, with at most 44 to a page. */
  lemma LinesOnSheet(lines: seq<string>, p: nat, i: nat)
    requires lines != []
    requires p < |PagesOf(lines)| && i < |PagesOf(lines)[p]|
    ensures |PagesOf(lines)[p]| <= 44 && (p + 1 < |PagesOf(lines)| ==> |PagesOf(lines)[p]| == 44)
    ensures var s := ShownLines(PagesOf(lines)[p]);
      s[i].x == 72 && 75 <= s[i].y <= 720 && (i > 0 ==> s[i].y < s[i - 1].y)
  {
    WrapAllKeepsText(lines);
    ChunksFlat(WrapAll(lines), PAGE_LINES);
  }

  function PageTexts(pages: seq<seq<Shown>>): seq<seq<string>> {
    seq(|pages|, i requires 0 <= i < |pages| => ShownTexts(pages[i]))
  }

  function AllTexts(pages: seq<seq<Shown>>): seq<string> { Flat(PageTexts(pages)) }

  lemma ImagesAppend(a: seq<string>, b: seq<string>)
    ensures Images(a + b) == Images(a) + Images(b)
  {
  }

  lemma {:induction false} AllTextsAre(pages: seq<seq<string>>)
    requires NoReturns(Flat(pages))
    ensures AllTexts(ShownPages(pages)) == Images(Flat(pages))
  {
    hide ShownLines, Image;
    var shown := ShownPages(pages);
    var texts := PageTexts(shown);
    if pages == [] {
      assert shown == [] && texts == [];
    } else {
      var rest := pages[1..];
      assert Flat(pages) == pages[0] + Flat(rest);
      assert forall i :: 0 <= i < |pages[0]| ==> pages[0][i] == Flat(pages)[i];
      assert forall i :: 0 <= i < |Flat(rest)| ==> Flat(rest)[i] == Flat(pages)[|pages[0]| + i];
      PageTextsAre(pages[0]);
      AllTextsAre(rest);
      assert texts[1..] == PageTexts(ShownPages(rest));
      assert texts[0] == ShownTexts(ShownLines(pages[0])) && AllTexts(shown) == texts[0] + Flat(texts[1..]);
      ImagesAppend(pages[0], Flat(rest));
    }
  }

  /**
   * From lines to file and back: exactly while all objects start below the limit, the reader shows the
   * wrapped lines in order, and joined up they are the Latin-1 image of the original lines.
   */
  lemma FallbackRoundTrip(lines: seq<string>)
    requires lines != [] && NoReturns(lines)
    ensures ReadPdf(FileBytes(Bodies(PagesOf(lines))))
      == if Fits(Bodies(PagesOf(lines))) then Some(ShownPages(PagesOf(lines))) else None
    ensures AllTexts(ShownPages(PagesOf(lines))) == Images(WrapAll(lines))
    ensures Flat(AllTexts(ShownPages(PagesOf(lines)))) == Image(Flat(lines))
  {
    hide FileBytes, Bodies, ReadPdf, Fits, AllTexts, WrapAll, ShownPages, Images, Image, OffsetOf;
    var pages := PagesOf(lines);
    WrapAllKeepsText(lines);
    PagesAre(lines);
    ChunksFlat(WrapAll(lines), PAGE_LINES);
    ReadBack(pages);
    FlatLacks(lines, '\r');
    PartsLack(WrapAll(lines), '\r');
    AllTextsAre(pages);
    ImagesFlat(WrapAll(lines));
  }

  lemma BodiesCount(pages: seq<seq<string>>)
    ensures |Bodies(pages)| == 2 * |pages| + 3
  {
  }

  lemma PagesAre(lines: seq<string>)
    requires WrapAll(lines) != []
    ensures PagesOf(lines) == Chunks(WrapAll(lines), PAGE_LINES)
  {
  }
}
