/** The cross-reference table of a written file: where everything stands and what the reader finds there. */
module PdfFile {
  import opened Text
  import opened Latin1
  import opened PdfWriter
  import opened PdfReader
  import opened PdfText

  const XREF_LIMIT: nat := 10000000000

  function TableOffset(bodies: seq<Bytes>): nat { XrefOffset(bodies) + 8 + |Dec(|bodies| + 1)| }

  lemma FileLayout(bodies: seq<Bytes>)
    ensures At(FileBytes(bodies), |Header()|, Flat(ObjectParts(bodies)))
    ensures At(FileBytes(bodies), XrefOffset(bodies), Encode("xref\n0 " + (Dec(|bodies| + 1) + "\n")))
    ensures At(FileBytes(bodies), TableOffset(bodies), Flat(XrefRows(bodies)))
    ensures At(FileBytes(bodies), TableOffset(bodies) + |Flat(XrefRows(bodies))|,
               TrailerBytes(|bodies| + 1, XrefOffset(bodies)))
    ensures |FileBytes(bodies)| == TableOffset(bodies) + |Flat(XrefRows(bodies))|
                                   + |TrailerBytes(|bodies| + 1, XrefOffset(bodies))|
  {
    hide Encode, Dec, Header, Flat, ObjectParts, XrefRows, TrailerBytes;
    var f := FileBytes(bodies);
    var r3 := Flat(XrefRows(bodies)) + TrailerBytes(|bodies| + 1, XrefOffset(bodies));
    var r2 := Encode("xref\n0 " + (Dec(|bodies| + 1) + "\n")) + r3;
    var r1 := Flat(ObjectParts(bodies)) + r2;
    assert f[0..0 + |Header() + r1|] == f;
    AtSplit(f, 0, Header(), r1);
    AtSplit(f, |Header()|, Flat(ObjectParts(bodies)), r2);
    AtSplit(f, XrefOffset(bodies), Encode("xref\n0 " + (Dec(|bodies| + 1) + "\n")), r3);
    AtSplit(f, TableOffset(bodies), Flat(XrefRows(bodies)), TrailerBytes(|bodies| + 1, XrefOffset(bodies)));
  }

  /** The file starts with its version (section 7.5.2) and a comment of four bytes above 127, so it counts as binary. */
  lemma FileStarts(bodies: seq<Bytes>)
    ensures Skip(FileBytes(bodies), 0, "%PDF-1.") == Some(7)
    ensures |FileBytes(bodies)| > 14 && FileBytes(bodies)[7..10] == Encode("4\n%")
    ensures forall i :: 10 <= i < 14 ==> FileBytes(bodies)[i] >= 128
  {
    hide Encode, Flat, ObjectParts, XrefRows, TrailerBytes, XrefOffset, Dec;
    var version, comment := "%PDF-1.", "4\n%\U{e2}\U{e3}\U{cf}\U{d3}\n";
    var f, rest := FileBytes(bodies), FileBytes(bodies)[|Header()|..];
    HeaderBytes();
    EncodeAppend(version, comment);
    assert f == Encode(version) + (Encode(comment) + rest);
    assert f[0..0 + |f|] == f;
    SkipThen(f, 0, version, Encode(comment) + rest);
    assert f[7..15] == Encode(comment);
    assert forall i :: 7 <= i < 15 ==> f[i] == Encode(comment)[i - 7];
    assert f[7..10] == Encode(comment)[..3];
  }

  lemma HeaderBytes()
    ensures Header() == Encode("%PDF-1." + "4\n%\U{e2}\U{e3}\U{cf}\U{d3}\n")
    ensures var comment := Encode("4\n%\U{e2}\U{e3}\U{cf}\U{d3}\n");
      |comment| == 8 && comment[..3] == Encode("4\n%") && forall i :: 3 <= i < 7 ==> comment[i] >= 128
  {
    assert "%PDF-1.4\n%\U{e2}\U{e3}\U{cf}\U{d3}\n" == "%PDF-1." + "4\n%\U{e2}\U{e3}\U{cf}\U{d3}\n";
  }

  /** Object `num` starts at its recorded offset with its own number. */
  lemma ObjectAt(bodies: seq<Bytes>, num: nat)
    requires 1 <= num <= |bodies|
    ensures At(FileBytes(bodies), OffsetOf(bodies, num), ObjectBytes(num, bodies[num - 1]))
    ensures OffsetOf(bodies, num) < OffsetOf(bodies, num + 1)
  {
    hide FileBytes, Encode, Dec, Header, Flat, XrefOffset, TableOffset, XrefRows, TrailerBytes;
    FileLayout(bodies);
    AtFlat(FileBytes(bodies), |Header()|, ObjectParts(bodies), num - 1);
    DecVal(num);
  }

  // ---------------------------------------------------------------- entries

  /** The code's `010d` field keeps an entry at 20 bytes exactly while the offset has ten digits. */
  lemma XrefRowLength(offset: nat)
    ensures |XrefRow(offset)| == 20 <==> offset < XREF_LIMIT
    ensures |XrefRow(offset)| >= 20
  {
    hide Encode, Padded, Dec;
    PaddedVal(offset, 10);
    DecLength(offset, 10);
    TenDigits();
  }

  lemma TenDigits()
    ensures Pow10(10) == XREF_LIMIT
  {
    assert Pow10(5) == 100000;
  }

  lemma RowBytes(offset: nat)
    ensures XrefRow(offset) == Encode(Padded(offset, 10)) + ([32] + [48, 48, 48, 48, 48] + [32, 110] + [32, 10])
  {
    hide Padded;
    EncodeAppend(Padded(offset, 10), " 00000 n \n");
    assert Encode(" 00000 n \n") == [32] + [48, 48, 48, 48, 48] + [32, 110] + [32, 10];
  }

  /** An entry reads back as the offset it was printed from, unless the offset overflows its field. */
  lemma ReadRow(b: Bytes, pos: nat, offset: nat)
    requires At(b, pos, XrefRow(offset))
    ensures ReadEntry(b, pos) == if offset < XREF_LIMIT then Some(Entry(offset, true)) else None
  {
    hide Encode, Padded, XrefRow, DigitsVal, EncodeChar;
    var digits := Encode(Padded(offset, 10));
    RowBytes(offset);
    XrefRowLength(offset);
    PaddedVal(offset, 10);
    EncodeDigits(Padded(offset, 10));
    var row := b[pos..pos + |XrefRow(offset)|];
    assert forall i :: 0 <= i < |row| ==> row[i] == b[pos + i];
    if offset < XREF_LIMIT {
      assert b[pos..pos + 10] == row[..10] == digits;
      assert b[pos + 11..pos + 16] == row[11..16] == [48, 48, 48, 48, 48];
      assert b[pos + 18..pos + 20] == row[18..20] == [32, 10];
      assert row[10] == 32 && row[16] == 32 && row[17] == 110;
    } else {
      assert |digits| > 10;
      assert IsDigitByte(digits[10]) && row[10] == digits[10];
    }
  }

  lemma ReadFreeRow(b: Bytes, pos: nat)
    requires At(b, pos, Encode("0000000000 65535 f \n"))
    ensures ReadEntry(b, pos) == Some(Entry(0, false))
  {
    var zeros: Bytes := [48, 48, 48, 48, 48, 48, 48, 48, 48, 48];
    FreeRowBytes();
    ZeroDigits(zeros);
    hide Encode, DigitsVal, EncodeChar;
    var row := b[pos..pos + 20];
    assert forall i :: 0 <= i < 20 ==> row[i] == b[pos + i];
    assert b[pos..pos + 10] == row[..10] == zeros;
    assert b[pos + 11..pos + 16] == row[11..16] == [54, 53, 53, 51, 53];
    assert b[pos + 18..pos + 20] == row[18..20] == [32, 10];
    assert row[10] == 32 && row[16] == 32 && row[17] == 102;
  }

  lemma FreeRowBytes()
    ensures Encode("0000000000 65535 f \n")
      == [48, 48, 48, 48, 48, 48, 48, 48, 48, 48] + [32] + [54, 53, 53, 51, 53] + [32, 102] + [32, 10]
  {
  }

  lemma ZeroDigits(zeros: Bytes)
    requires forall i :: 0 <= i < |zeros| ==> zeros[i] == 48
    ensures DigitsVal(zeros) == 0
  {
    assert Decode(zeros) + "" == Decode(zeros);
    ZerosVal(Decode(zeros), "");
  }

  predicate Fits(bodies: seq<Bytes>) {
    forall k :: 1 <= k <= |bodies| ==> OffsetOf(bodies, k) < XREF_LIMIT
  }

  function Entries(bodies: seq<Bytes>): seq<Entry> {
    [Entry(0, false)] + seq(|bodies|, i requires 0 <= i < |bodies| => Entry(OffsetOf(bodies, i + 1), true))
  }

  /** As long as the rows so far fit, row j stands at 20 * j. */
  lemma {:induction false} RowsLength(bodies: seq<Bytes>, j: nat)
    requires j <= |bodies| + 1
    requires forall k :: 1 <= k < j ==> OffsetOf(bodies, k) < XREF_LIMIT
    ensures |XrefRows(bodies)| == |bodies| + 1
    ensures |Flat(XrefRows(bodies)[..j])| == 20 * j
  {
    hide Encode, OffsetOf, XrefRow;
    if j > 0 {
      RowsLength(bodies, j - 1);
      FlatTake(XrefRows(bodies), j - 1);
      if j > 1 {
        XrefRowLength(OffsetOf(bodies, j - 1));
      }
    }
  }

  lemma RowAt(bodies: seq<Bytes>, j: nat)
    requires j <= |bodies|
    requires forall k :: 1 <= k < j ==> OffsetOf(bodies, k) < XREF_LIMIT
    ensures At(FileBytes(bodies), TableOffset(bodies) + 20 * j, XrefRows(bodies)[j])
  {
    hide FileBytes, Encode, OffsetOf, XrefRow, TableOffset, XrefOffset, TrailerBytes, Header, Flat, ObjectParts;
    FileLayout(bodies);
    RowsLength(bodies, j);
    AtFlat(FileBytes(bodies), TableOffset(bodies), XrefRows(bodies), j);
  }

  /** The table reads back in full exactly when every offset fits its ten-digit field. */
  lemma {:induction false} ReadRows(bodies: seq<Bytes>, j: nat)
    requires j <= |bodies| + 1
    requires forall k :: 1 <= k < j ==> OffsetOf(bodies, k) < XREF_LIMIT
    ensures ReadTable(FileBytes(bodies), TableOffset(bodies) + 20 * j, |bodies| + 1 - j)
      == if Fits(bodies) then Some(Entries(bodies)[j..]) else None
    decreases |bodies| + 1 - j
  {
    hide FileBytes, Encode, OffsetOf, XrefRow, TableOffset, ReadEntry;
    if j <= |bodies| {
      RowAt(bodies, j);
      var pos := TableOffset(bodies) + 20 * j;
      if j == 0 {
        ReadFreeRow(FileBytes(bodies), pos);
      } else {
        ReadRow(FileBytes(bodies), pos, OffsetOf(bodies, j));
      }
      if j == 0 || OffsetOf(bodies, j) < XREF_LIMIT {
        ReadRows(bodies, j + 1);
        assert Entries(bodies)[j..] == [Entries(bodies)[j]] + Entries(bodies)[j + 1..];
      }
    }
  }

  // ---------------------------------------------------------------- trailer and startxref

  lemma RefThen(b: Bytes, pos: nat, k: nat, rest: Bytes)
    requires At(b, pos, Encode(Dec(k)) + (Encode(" 0 R") + rest))
    ensures Ref(b, pos) == Some((k, pos + |Dec(k)| + 4))
    ensures At(b, pos + |Dec(k)| + 4, rest)
  {
    hide Encode, Dec, At, Skip, Number;
    NumberThen(b, pos, k, " 0 R", rest);
    SkipThen(b, pos + |Dec(k)|, " 0 R", rest);
  }

  /** The trailer, token by token. */
  lemma TrailerTokens(size: nat, x: nat)
    ensures TrailerBytes(size, x)
      == Encode("trailer\n") + (Encode("<< /Size ") + (Encode(Dec(size)) + (Encode(" /Root ") + (Encode(Dec(1)) +
         (Encode(" 0 R") + (Encode(" >>\n") + (Encode("startxref\n") + (Encode(Dec(x)) + Encode("\n%%EOF\n")))))))))
  {
    assert " /Root 1 0 R >>\n" == " /Root " + ("1" + (" 0 R" + " >>\n"));
    assert "\n%%EOF\n" == "\n" + "%%EOF\n";
    assert Dec(1) == "1";
    TokenSplit("trailer\n", "<< /Size ", Dec(size), " /Root ", "1", " 0 R", " >>\n", "startxref\n", Dec(x), "\n",
      "%%EOF\n");
  }

  lemma TokenSplit(a: string, b: string, c: string, d: string, e: string, f: string, g: string, h: string,
    i: string, j: string, k: string)
    ensures Encode(a) + (Encode(b + c + (d + (e + (f + g)))) + (Encode(h + i + j) + Encode(k)))
      == Encode(a) + (Encode(b) + (Encode(c) + (Encode(d) + (Encode(e) + (Encode(f) + (Encode(g) + (Encode(h) +
         (Encode(i) + Encode(j + k)))))))))
  {
    hide Encode;
    EncodeAppend(b + c, d + (e + (f + g)));
    EncodeAppend(b, c);
    EncodeAppend(d, e + (f + g));
    EncodeAppend(e, f + g);
    EncodeAppend(f, g);
    EncodeAppend(h + i, j);
    EncodeAppend(h, i);
    EncodeAppend(j, k);
  }

  lemma {:induction false} DigitsStartIs(b: Bytes, start: nat, end: nat)
    requires start <= end <= |b|
    requires forall i :: start <= i < end ==> IsDigitByte(b[i])
    requires start > 0 && !IsDigitByte(b[start - 1])
    ensures DigitsStart(b, end) == start
    decreases end - start
  {
    if start < end {
      DigitsStartIs(b, start, end - 1);
    }
  }

  lemma ReadStartXref(b: Bytes, pos: nat, x: nat)
    requires At(b, pos, Encode("startxref\n") + (Encode(Dec(x)) + Encode("\n%%EOF\n")))
    requires |b| == pos + 10 + |Dec(x)| + 7
    ensures StartXref(b) == Some(x)
  {
    hide Encode, Dec, DigitsVal, DigitsStart;
    var keyword, digits, tail := Encode("startxref\n"), Encode(Dec(x)), Encode("\n%%EOF\n");
    AtSplit(b, pos, keyword, digits + tail);
    AtSplit(b, pos + 10, digits, tail);
    DecVal(x);
    EncodeDigits(Dec(x));
    KeywordEnd();
    assert b[pos + 9] == b[pos..pos + 10][9];
    DigitsRun(b, pos + 10, digits);
  }

  lemma KeywordEnd()
    ensures Encode("startxref\n")[9] == 10
  {
  }

  lemma DigitsRun(b: Bytes, start: nat, digits: Bytes)
    requires At(b, start, digits) && start > 0 && !IsDigitByte(b[start - 1])
    requires forall i :: 0 <= i < |digits| ==> IsDigitByte(digits[i])
    ensures DigitsStart(b, start + |digits|) == start
  {
    forall i | start <= i < start + |digits| ensures IsDigitByte(b[i]) {
      assert b[i] == b[start..start + |digits|][i - start];
    }
    DigitsStartIs(b, start, start + |digits|);
  }

  lemma ReadTrailer(b: Bytes, pos: nat, size: nat, x: nat)
    requires At(b, pos, TrailerBytes(size, x)) && |b| == pos + |TrailerBytes(size, x)|
    ensures Skip(b, pos, "trailer\n") == Some(pos + 8)
    ensures Skip(b, pos + 8, "<< /Size ") == Some(pos + 17)
    ensures Number(b, pos + 17) == Some((size, pos + 17 + |Dec(size)|))
    ensures Skip(b, pos + 17 + |Dec(size)|, " /Root ") == Some(pos + 24 + |Dec(size)|)
    ensures Ref(b, pos + 24 + |Dec(size)|) == Some((1, pos + 28 + |Dec(size)| + |Dec(1)|))
    ensures StartXref(b) == Some(x)
  {
    hide TrailerBytes, Encode, Dec, At, Skip, Number, Ref, StartXref;
    TrailerTokens(size, x);
    var end := Encode("startxref\n") + (Encode(Dec(x)) + Encode("\n%%EOF\n"));
    var root := Encode(Dec(1)) + (Encode(" 0 R") + (Encode(" >>\n") + end));
    SkipThen(b, pos, "trailer\n", Encode("<< /Size ") + (Encode(Dec(size)) + (Encode(" /Root ") + root)));
    SkipThen(b, pos + 8, "<< /Size ", Encode(Dec(size)) + (Encode(" /Root ") + root));
    NumberThen(b, pos + 17, size, " /Root ", root);
    var p := pos + 17 + |Dec(size)|;
    SkipThen(b, p, " /Root ", root);
    RefThen(b, p + 7, 1, Encode(" >>\n") + end);
    var q := p + 11 + |Dec(1)|;
    SkipThen(b, q, " >>\n", end);
    ReadStartXref(b, q + 4, x);
  }

  /** The reader gets the whole table, with every object's true offset, or rejects the file. */
  lemma ReadXrefIs(bodies: seq<Bytes>)
    ensures ReadXref(FileBytes(bodies)) == if Fits(bodies) then Some((Entries(bodies), 1)) else None
  {
    hide FileBytes, TrailerBytes, Encode, Dec, At, Skip, Number, Ref, StartXref, Flat, XrefRows, Entries, Fits,
        ObjectParts, ReadTable;
    var f := FileBytes(bodies);
    var n := |bodies| + 1;
    FileLayout(bodies);
    var end := TableOffset(bodies) + |Flat(XrefRows(bodies))|;
    ReadTrailer(f, end, n, XrefOffset(bodies));
    TableHeader(bodies);
    ReadRows(bodies, 0);
    if Fits(bodies) {
      FitsEnd(bodies);
    }
  }

  lemma TableHeader(bodies: seq<Bytes>)
    ensures Skip(FileBytes(bodies), XrefOffset(bodies), "xref\n0 ") == Some(XrefOffset(bodies) + 7)
    ensures Number(FileBytes(bodies), XrefOffset(bodies) + 7)
      == Some((|bodies| + 1, XrefOffset(bodies) + 7 + |Dec(|bodies| + 1)|))
    ensures Skip(FileBytes(bodies), XrefOffset(bodies) + 7 + |Dec(|bodies| + 1)|, "\n") == Some(TableOffset(bodies))
  {
    hide FileBytes, TrailerBytes, Encode, Dec, At, Skip, Number, Flat, XrefRows, ObjectParts;
    var digits := Dec(|bodies| + 1);
    FileLayout(bodies);
    EncodeAppend("xref\n0 ", digits + "\n");
    EncodeAppend(digits, "\n");
    assert Encode("\n") + [] == Encode("\n");
    SkipThen(FileBytes(bodies), XrefOffset(bodies), "xref\n0 ", Encode(digits) + (Encode("\n") + []));
    NumberThen(FileBytes(bodies), XrefOffset(bodies) + 7, |bodies| + 1, "\n", []);
    SkipThen(FileBytes(bodies), XrefOffset(bodies) + 7 + |digits|, "\n", []);
  }

  lemma FitsEnd(bodies: seq<Bytes>)
    requires Fits(bodies)
    ensures |Flat(XrefRows(bodies))| == 20 * (|bodies| + 1)
    ensures Entries(bodies)[0..] == Entries(bodies)
  {
    hide Encode, OffsetOf, XrefRow;
    RowsLength(bodies, |bodies| + 1);
    assert XrefRows(bodies)[..|bodies| + 1] == XrefRows(bodies);
  }

  /** Looking object `num` up finds its body. */
  lemma FindObjectIs(bodies: seq<Bytes>, num: nat)
    requires 1 <= num <= |bodies|
    ensures FindObject(FileBytes(bodies), Entries(bodies), num) == Some(OffsetOf(bodies, num) + |Dec(num)| + 7)
    ensures At(FileBytes(bodies), OffsetOf(bodies, num) + |Dec(num)| + 7, bodies[num - 1] + Encode("\nendobj\n"))
  {
    hide FileBytes, Encode, Dec, OffsetOf, At, Skip, Number;
    ObjectAt(bodies, num);
    var rest := bodies[num - 1] + Encode("\nendobj\n");
    EncodeAppend(Dec(num), " 0 obj\n");
    assert Encode(Dec(num) + " 0 obj\n") + rest == Encode(Dec(num)) + (Encode(" 0 obj\n") + rest);
    NumberThen(FileBytes(bodies), OffsetOf(bodies, num), num, " 0 obj\n", rest);
    SkipThen(FileBytes(bodies), OffsetOf(bodies, num) + |Dec(num)|, " 0 obj\n", rest);
  }

  /** Whether all entries fit is decided by the last object's offset alone. */
  lemma {:induction false} OffsetsIncrease(bodies: seq<Bytes>, j: nat, k: nat)
    requires 1 <= j <= k <= |bodies| + 1
    ensures OffsetOf(bodies, j) <= OffsetOf(bodies, k)
    decreases k - j
  {
    hide OffsetOf;
    if j < k {
      OffsetsIncrease(bodies, j, k - 1);
      ObjectAt(bodies, k - 1);
    }
  }
}
