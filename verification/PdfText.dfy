/** What the reader makes of the writer's tokens, literal strings and content streams. */
module PdfText {
  import opened Text
  import opened Latin1
  import opened PdfWriter
  import opened PdfReader

  // ---------------------------------------------------------------- tokens

  lemma SkipThen(b: Bytes, pos: nat, token: string, rest: Bytes)
    requires At(b, pos, Encode(token) + rest)
    ensures Skip(b, pos, token) == Some(pos + |token|)
    ensures At(b, pos + |token|, rest)
  {
    AtSplit(b, pos, Encode(token), rest);
  }

  /** Two tokens that differ at `i` cannot stand at the same place. */
  lemma SkipFails(b: Bytes, pos: nat, there: Bytes, token: string, i: nat)
    requires At(b, pos, there)
    requires i < |there| && i < |token| && EncodeChar(token[i]) != there[i]
    ensures Skip(b, pos, token) == None
  {
    assert b[pos..pos + |there|][i] == b[pos + i];
    if pos + |token| <= |b| {
      assert b[pos..pos + |token|][i] == b[pos + i] && Encode(token)[i] == EncodeChar(token[i]);
    }
  }

  lemma EncodeDigits(s: string)
    requires AllDigits(s)
    ensures forall i :: 0 <= i < |s| ==> IsDigitByte(Encode(s)[i])
    ensures DigitsVal(Encode(s)) == Val(s)
  {
    forall i | 0 <= i < |s| ensures IsDigitByte(Encode(s)[i]) {
      assert IsDigit(s[i]);
    }
    assert IsLatin1(s) by {
      forall i | 0 <= i < |s| ensures s[i] as int < 0x100 {
        assert IsDigit(s[i]);
      }
    }
    DecodeEncode(s);
  }

  lemma {:induction false} DigitsEndIs(b: Bytes, pos: nat, end: nat)
    requires pos <= end <= |b|
    requires forall i :: pos <= i < end ==> IsDigitByte(b[i])
    requires end < |b| ==> !IsDigitByte(b[end])
    ensures DigitsEnd(b, pos) == end
    decreases end - pos
  {
    if pos < end {
      DigitsEndIs(b, pos + 1, end);
    }
  }

  lemma NumberThen(b: Bytes, pos: nat, n: nat, token: string, rest: Bytes)
    requires At(b, pos, Encode(Dec(n)) + (Encode(token) + rest))
    requires token != "" && !IsDigit(token[0])
    ensures Number(b, pos) == Some((n, pos + |Dec(n)|))
    ensures At(b, pos + |Dec(n)|, Encode(token) + rest)
  {
    var digits, tail := Encode(Dec(n)), Encode(token) + rest;
    assert tail[0] == EncodeChar(token[0]);
    hide Encode, Dec;
    var end := pos + |digits|;
    AtSplit(b, pos, digits, tail);
    DecVal(n);
    EncodeDigits(Dec(n));
    forall i | pos <= i < end ensures IsDigitByte(b[i]) {
      assert b[i] == b[pos..end][i - pos];
    }
    assert b[end] == b[end..end + |tail|][0];
    DigitsEndIs(b, pos, end);
  }

  // ---------------------------------------------------------------- literal strings

  /** Section 7.3.4.2: an unescaped CR or CR LF inside a literal string reads as one LF. */
  function Normalized(t: Bytes): Bytes {
    if t == [] then []
    else if t[0] == 13 then [10] + Normalized(if |t| > 1 && t[1] == 10 then t[2..] else t[1..])
    else [t[0]] + Normalized(t[1..])
  }

  /** A line reads back as itself exactly when it has no carriage return. */
  lemma {:induction false} NormalizedSame(t: Bytes)
    ensures Normalized(t) == t <==> 13 !in t
    ensures |Normalized(t)| <= |t|
  {
    if t != [] {
      NormalizedSame(t[1..]);
      if |t| > 1 {
        NormalizedSame(t[2..]);
      }
      assert t == [t[0]] + t[1..];
      if t[0] == 13 {
        assert Normalized(t)[0] == 10;
      } else if Normalized(t) == t {
        assert Normalized(t)[1..] == Normalized(t[1..]);
      }
    }
  }

  predicate Special(c: char) { c == '\\' || c == '(' || c == ')' }

  /** The three replacements, done one after another, escape each special character once. */
  lemma PdfEscapeCons(c: char, s: string)
    ensures PdfEscape([c] + s) == (if Special(c) then ['\\', c] else [c]) + PdfEscape(s)
  {
    var s1 := ReplaceChar(s, '\\', "\\\\");
    var s2 := ReplaceChar(s1, '(', "\\(");
    var c1 := ReplaceChar([c], '\\', "\\\\");
    var c2 := ReplaceChar(c1, '(', "\\(");
    ReplaceCharAppend([c], s, '\\', "\\\\");
    ReplaceCharAppend(c1, s1, '(', "\\(");
    ReplaceCharAppend(c2, s2, ')', "\\)");
    ReplaceCharOne(c, '\\', "\\\\");
    assert "\\\\" == ['\\'] + ['\\'] && "\\(" == ['\\'] + ['('];
    ReplaceCharAppend(['\\'], ['\\'], '(', "\\(");
    ReplaceCharAppend(['\\'], ['\\'], ')', "\\)");
    ReplaceCharAppend(['\\'], ['('], ')', "\\)");
    ReplaceCharOne(c, '(', "\\(");
    ReplaceCharOne(c, ')', "\\)");
    ReplaceCharOne('\\', '(', "\\(");
    ReplaceCharOne('\\', ')', "\\)");
    ReplaceCharOne('(', ')', "\\)");
  }

  lemma EscapedStep(b: Bytes, pos: nat)
    requires pos + 1 < |b| && b[pos] == 92 && b[pos + 1] in {40, 41, 92}
    ensures ReadString(b, pos, 0) == Prepend([b[pos + 1]], ReadString(b, pos + 2, 0))
  {
  }

  lemma PlainStep(b: Bytes, pos: nat)
    requires pos < |b| && b[pos] !in {13, 40, 41, 92}
    ensures ReadString(b, pos, 0) == Prepend([b[pos]], ReadString(b, pos + 1, 0))
  {
  }

  lemma NormalizedCons(x: byte, t: Bytes)
    requires x != 13
    ensures Normalized([x] + t) == [x] + Normalized(t)
  {
    assert ([x] + t)[1..] == t;
  }

  /** The first character of an escaped string, as it stands in the file. */
  lemma EscapedHead(b: Bytes, pos: nat, c: char, t: string, rest: Bytes)
    requires At(b, pos, Encode(PdfEscape([c] + t)) + rest)
    ensures |PdfEscape([c] + t)| == (if Special(c) then 2 else 1) + |PdfEscape(t)|
    ensures At(b, pos + (if Special(c) then 2 else 1), Encode(PdfEscape(t)) + rest)
    ensures if Special(c) then b[pos] == 92 && b[pos + 1] == EncodeChar(c) else b[pos] == EncodeChar(c)
  {
    hide PdfEscape;
    PdfEscapeCons(c, t);
    var head := if Special(c) then ['\\', c] else [c];
    EncodeAppend(head, PdfEscape(t));
    var tail := Encode(PdfEscape(t)) + rest;
    assert Encode(PdfEscape([c] + t)) + rest == Encode(head) + tail;
    AtSplit(b, pos, Encode(head), tail);
    assert b[pos] == Encode(head)[0];
    assert Special(c) ==> b[pos + 1] == Encode(head)[1];
  }

  lemma {:induction false} ReadEscaped(b: Bytes, pos: nat, s: string, rest: Bytes)
    requires At(b, pos, Encode(PdfEscape(s)) + ([41] + rest))
    ensures ReadString(b, pos, 0) == Some((Normalized(Encode(s)), pos + |PdfEscape(s)| + 1))
    decreases 2 * |s|
  {
    if s == "" {
      assert b[pos] == (Encode(PdfEscape(s)) + ([41] + rest))[0] == 41;
    } else {
      hide ReadString, Normalized, PdfEscape;
      var c, t := s[0], s[1..];
      assert s == [c] + t;
      EscapedHead(b, pos, c, t, [41] + rest);
      assert Encode(s) == [EncodeChar(c)] + Encode(t);
      hide Encode, At;
      if Special(c) {
        ReadEscaped(b, pos + 2, t, rest);
        EscapedStep(b, pos);
        NormalizedCons(EncodeChar(c), Encode(t));
      } else if c == '\r' {
        ReadAfterReturn(b, pos, t, rest);
      } else {
        ReadEscaped(b, pos + 1, t, rest);
        PlainStep(b, pos);
        NormalizedCons(EncodeChar(c), Encode(t));
      }
    }
  }

  /** The carriage return case: a line feed right after it belongs to the same end-of-line marker. */
  lemma {:induction false} ReadAfterReturn(b: Bytes, pos: nat, t: string, rest: Bytes)
    requires pos < |b| && b[pos] == 13
    requires At(b, pos + 1, Encode(PdfEscape(t)) + ([41] + rest))
    ensures ReadString(b, pos, 0)
      == Some((Normalized([13] + Encode(t)), pos + 1 + |PdfEscape(t)| + 1))
    decreases 2 * |t| + 1
  {
    var tail := Encode(PdfEscape(t)) + ([41] + rest);
    assert b[pos + 1] == tail[0];
    if t == "" {
      ReadEscaped(b, pos + 1, t, rest);
      assert [13] + Encode(t) == [13];
    } else {
      var c, u := t[0], t[1..];
      assert t == [c] + u;
      EscapedHead(b, pos + 1, c, u, [41] + rest);
      var whole := [13] + Encode(t);
      assert whole[1] == EncodeChar(c);
      if c == '\n' {
        ReadEscaped(b, pos + 2, u, rest);
        assert whole[2..] == Encode(u);
      } else {
        ReadEscaped(b, pos + 1, t, rest);
        assert whole[1..] == Encode(t);
      }
    }
  }

  // ---------------------------------------------------------------- content streams

  function EncodeAll(parts: seq<string>): seq<Bytes> {
    seq(|parts|, i requires 0 <= i < |parts| => Encode(parts[i]))
  }

  lemma {:induction false} EncodeFlat(parts: seq<string>)
    ensures Encode(Flat(parts)) == Flat(EncodeAll(parts))
  {
    hide Encode;
    if parts == [] {
      assert |Encode("")| == 0;
    } else {
      EncodeFlat(parts[1..]);
      EncodeAppend(parts[0], Flat(parts[1..]));
      assert EncodeAll(parts)[1..] == EncodeAll(parts[1..]);
    }
  }

  /** What a page of `lines` must show: line i at the left margin, i leadings below the top. */
  function ShownLines(lines: seq<string>): seq<Shown> {
    seq(|lines|, i requires 0 <= i < |lines| => Shown(72, 720 - 15 * i, Normalized(Encode(lines[i]))))
  }

  /** One `"\n(" ... ") Tj"` command. */
  lemma ReadTj(s: Bytes, pos: nat, line: string, rest: Bytes)
    requires At(s, pos, Encode("\n(" + PdfEscape(line) + ") Tj") + rest)
    ensures Skip(s, pos, "\nET") == None && Skip(s, pos, "\nT*") == None
    ensures Skip(s, pos, "\n(") == Some(pos + 2)
    ensures ReadString(s, pos + 2, 0) == Some((Normalized(Encode(line)), pos + 3 + |PdfEscape(line)|))
    ensures Skip(s, pos + 3 + |PdfEscape(line)|, " Tj") == Some(pos + 6 + |PdfEscape(line)|)
    ensures At(s, pos + 6 + |PdfEscape(line)|, rest)
  {
    hide PdfEscape, ReadString, Normalized, Encode;
    var text := PdfEscape(line);
    var afterOpen := Encode(text) + ([41] + (Encode(" Tj") + rest));
    TjBytes(text, rest);
    SkipThen(s, pos, "\n(", afterOpen);
    OpenIsNoOperator();
    SkipFails(s, pos, Encode("\n(") + afterOpen, "\nET", 1);
    SkipFails(s, pos, Encode("\n(") + afterOpen, "\nT*", 1);
    ReadEscaped(s, pos + 2, line, Encode(" Tj") + rest);
    AtSplit(s, pos + 2, Encode(text), [41] + (Encode(" Tj") + rest));
    AtSplit(s, pos + 2 + |text|, [41], Encode(" Tj") + rest);
    SkipThen(s, pos + 3 + |text|, " Tj", rest);
  }

  lemma OpenIsNoOperator()
    ensures Encode("\n(") == [10, 40]
  {
  }

  lemma TjBytes(text: string, rest: Bytes)
    ensures Encode("\n(" + text + ") Tj") + rest == Encode("\n(") + (Encode(text) + ([41] + (Encode(" Tj") + rest)))
  {
    CloseBytes();
    hide Encode;
    EncodeAppend("\n(", text);
    EncodeAppend("\n(" + text, ") Tj");
  }

  lemma CloseBytes()
    ensures Encode(") Tj") == [41] + Encode(" Tj")
  {
    assert ") Tj" == [')'] + " Tj";
    EncodeAppend([')'], " Tj");
  }

  lemma ReadEnd(s: Bytes, pos: nat, y: int)
    requires At(s, pos, Encode("\nET")) && pos + 3 == |s|
    ensures ReadOps(s, pos, 72, y, 15) == Some([])
  {
    assert Skip(s, pos, "\nET") == Some(pos + 3);
  }

  lemma {:induction false} ReadShowOps(s: Bytes, start: nat, lines: seq<string>, k: nat)
    requires At(s, start, Flat(EncodeAll(ShowOps(lines))) + Encode("\nET"))
    requires start + |Flat(EncodeAll(ShowOps(lines)))| + 3 == |s|
    requires k <= |lines|
    ensures ReadOps(s, start + |Flat(EncodeAll(ShowOps(lines))[..k])|, 72, if k == 0 then 720 else 735 - 15 * k, 15)
      == Some(ShownLines(lines)[k..])
    decreases |lines| - k
  {
    hide ReadOps, ShowOp, Encode, Flat;
    var parts := EncodeAll(ShowOps(lines));
    var pos := start + |Flat(parts[..k])|;
    AtSplit(s, start, Flat(parts), Encode("\nET"));
    if k == |lines| {
      assert parts[..k] == parts;
      ReadEnd(s, pos, if k == 0 then 720 else 735 - 15 * k);
      assert ShownLines(lines)[k..] == [];
    } else {
      AtFlat(s, start, parts, k);
      ReadShowOps(s, start, lines, k + 1);
      ReadOneLine(s, pos, lines[k], k);
      assert ShownLines(lines)[k..] == [ShownLines(lines)[k]] + ShownLines(lines)[k + 1..];
    }
  }

  lemma ReadOneLine(s: Bytes, pos: nat, line: string, k: nat)
    requires At(s, pos, Encode(ShowOp(k, line)))
    ensures ReadOps(s, pos, 72, if k == 0 then 720 else 735 - 15 * k, 15)
      == match ReadOps(s, pos + |ShowOp(k, line)|, 72, 720 - 15 * k, 15)
         case None => None
         case Some(rest) => Some([Shown(72, 720 - 15 * k, Normalized(Encode(line)))] + rest)
  {
    hide Encode, PdfEscape, ReadString, Normalized, ReadOps;
    var tj := "\n(" + PdfEscape(line) + ") Tj";
    if k == 0 {
      assert ShowOp(k, line) == tj;
      ReadShown(s, pos, line, 720);
    } else {
      assert ShowOp(k, line) == "\nT*" + tj;
      EncodeAppend("\nT*", tj);
      SkipThen(s, pos, "\nT*", Encode(tj));
      NextLineIsNotEnd(s, pos, Encode(tj));
      ReadMove(s, pos, 735 - 15 * k);
      ReadShown(s, pos + 3, line, 720 - 15 * k);
    }
  }

  /** `T*` moves down by the leading. */
  lemma ReadMove(s: Bytes, pos: nat, y: int)
    requires Skip(s, pos, "\nET") == None && Skip(s, pos, "\nT*") == Some(pos + 3)
    ensures ReadOps(s, pos, 72, y, 15) == ReadOps(s, pos + 3, 72, y - 15, 15)
  {
    hide Encode, ReadString;
  }

  lemma ReadShown(s: Bytes, pos: nat, line: string, y: int)
    requires At(s, pos, Encode("\n(" + PdfEscape(line) + ") Tj"))
    ensures ReadOps(s, pos, 72, y, 15)
      == match ReadOps(s, pos + 6 + |PdfEscape(line)|, 72, y, 15)
         case None => None
         case Some(rest) => Some([Shown(72, y, Normalized(Encode(line)))] + rest)
  {
    hide Encode, PdfEscape, ReadString, Normalized, Skip;
    var tj := "\n(" + PdfEscape(line) + ") Tj";
    assert Encode(tj) + [] == Encode(tj);
    ReadTj(s, pos, line, []);
  }

  lemma NextLineIsNotEnd(s: Bytes, pos: nat, rest: Bytes)
    requires At(s, pos, Encode("\nT*") + rest)
    ensures Skip(s, pos, "\nET") == None
  {
    SkipFails(s, pos, Encode("\nT*") + rest, "\nET", 1);
  }

  lemma PreludeNumbers()
    ensures Dec(72) == "72" && Dec(720) == "720" && Dec(15) == "15"
  {
    assert Dec(7) == "7" && Dec(1) == "1";
  }

  /** The stream's bytes, token by token. */
  lemma PreludeBytes(rest: Bytes)
    ensures Encode(Join("\n", PRELUDE)) + rest
      == Encode("BT") + (Encode("\n") + (Encode("/F1 11 Tf") + (Encode("\n") +
         (Encode(Dec(72)) + (Encode(" ") + (Encode(Dec(720)) + (Encode(" Td") + (Encode("\n") +
         (Encode(Dec(15)) + (Encode(" TL") + rest))))))))))
  {
    var bt, n, tf, td, tl := "BT", "\n", "/F1 11 Tf", "72 720 Td", "15 TL";
    JoinFour(n, bt, tf, td, tl);
    PreludeNumbers();
    assert td == Dec(72) + " " + Dec(720) + " Td";
    assert tl == Dec(15) + " TL";
    hide Encode, Join, Dec;
    PreludeSplit(bt, n, tf, Dec(72), " ", Dec(720), " Td", Dec(15), " TL", rest);
  }

  lemma PreludeSplit(bt: string, n: string, tf: string, x: string, sp: string, y: string, td: string,
    l: string, tl: string, rest: Bytes)
    ensures Encode(bt + n + tf + n + (x + sp + y + td) + n + (l + tl)) + rest
      == Encode(bt) + (Encode(n) + (Encode(tf) + (Encode(n) + (Encode(x) + (Encode(sp) + (Encode(y) + (Encode(td) +
         (Encode(n) + (Encode(l) + (Encode(tl) + rest))))))))))
  {
    hide Encode;
    EncodeAppend(bt + n + tf + n + (x + sp + y + td) + n, l + tl);
    EncodeAppend(bt + n + tf + n + (x + sp + y + td), n);
    EncodeAppend(bt + n + tf + n, x + sp + y + td);
    EncodeAppend(bt + n + tf, n);
    EncodeAppend(bt + n, tf);
    EncodeAppend(bt, n);
    EncodeAppend(x + sp + y, td);
    EncodeAppend(x + sp, y);
    EncodeAppend(x, sp);
    EncodeAppend(l, tl);
  }

  lemma ReadTdThen(s: Bytes, pos: nat, x: nat, y: nat, rest: Bytes)
    requires At(s, pos, Encode(Dec(x)) + (Encode(" ") + (Encode(Dec(y)) + (Encode(" Td") + rest))))
    ensures ReadTd(s, pos) == Some((x, y, pos + |Dec(x)| + |Dec(y)| + 4))
    ensures At(s, pos + |Dec(x)| + |Dec(y)| + 4, rest)
  {
    hide Encode, Dec, At, Skip, Number;
    NumberThen(s, pos, x, " ", Encode(Dec(y)) + (Encode(" Td") + rest));
    SkipThen(s, pos + |Dec(x)|, " ", Encode(Dec(y)) + (Encode(" Td") + rest));
    NumberThen(s, pos + |Dec(x)| + 1, y, " Td", rest);
    SkipThen(s, pos + |Dec(x)| + 1 + |Dec(y)|, " Td", rest);
  }

  lemma ReadTLThen(s: Bytes, pos: nat, leading: nat, rest: Bytes)
    requires At(s, pos, Encode(Dec(leading)) + (Encode(" TL") + rest))
    ensures ReadTL(s, pos) == Some((leading, pos + |Dec(leading)| + 3))
    ensures At(s, pos + |Dec(leading)| + 3, rest)
  {
    hide Encode, Dec, At, Skip, Number;
    NumberThen(s, pos, leading, " TL", rest);
    SkipThen(s, pos + |Dec(leading)|, " TL", rest);
  }

  lemma ReadFont(s: Bytes, rest: Bytes)
    requires At(s, 0, Encode("BT") + (Encode("\n") + (Encode("/F1 11 Tf") + (Encode("\n") + rest))))
    ensures Skip(s, 0, "BT") == Some(2) && Skip(s, 2, "\n") == Some(3)
    ensures Skip(s, 3, "/F1 11 Tf") == Some(12) && Skip(s, 12, "\n") == Some(13)
    ensures At(s, 13, rest)
  {
    hide Encode, At, Skip;
    SkipThen(s, 0, "BT", Encode("\n") + (Encode("/F1 11 Tf") + (Encode("\n") + rest)));
    SkipThen(s, 2, "\n", Encode("/F1 11 Tf") + (Encode("\n") + rest));
    SkipThen(s, 3, "/F1 11 Tf", Encode("\n") + rest);
    SkipThen(s, 12, "\n", rest);
  }

  /** The prelude sets the left margin, the first baseline and the leading. */
  lemma ReadPrelude(s: Bytes, ops: Bytes)
    requires At(s, 0, Encode("BT") + (Encode("\n") + (Encode("/F1 11 Tf") + (Encode("\n") +
      (Encode(Dec(72)) + (Encode(" ") + (Encode(Dec(720)) + (Encode(" Td") + (Encode("\n") +
      (Encode(Dec(15)) + (Encode(" TL") + ops)))))))))))
    ensures ReadStream(s) == ReadOps(s, 21 + |Dec(72)| + |Dec(720)| + |Dec(15)|, 72, 720, 15)
    ensures At(s, 21 + |Dec(72)| + |Dec(720)| + |Dec(15)|, ops)
  {
    hide Encode, ReadOps, Dec, At, Skip, ReadTd, ReadTL;
    var r4 := Encode(Dec(15)) + (Encode(" TL") + ops);
    ReadFont(s, Encode(Dec(72)) + (Encode(" ") + (Encode(Dec(720)) + (Encode(" Td") + (Encode("\n") + r4)))));
    ReadTdThen(s, 13, 72, 720, Encode("\n") + r4);
    var p := 13 + |Dec(72)| + |Dec(720)| + 4;
    SkipThen(s, p, "\n", r4);
    ReadTLThen(s, p + 1, 15, ops);
  }

  /** The stream of a page shows its lines, each on its own baseline and in order. */
  lemma ReadStreamText(lines: seq<string>)
    ensures ReadStream(Encode(StreamText(lines))) == Some(ShownLines(lines))
  {
    hide Encode, Join, Flat, ReadStream, ReadOps, EncodeAll, ShowOps, ShownLines, Dec, At;
    var head, ops := Join("\n", PRELUDE), Flat(ShowOps(lines));
    var bytes := Flat(EncodeAll(ShowOps(lines))) + Encode("\nET");
    EncodeAppend(head, ops + "\nET");
    EncodeAppend(ops, "\nET");
    EncodeFlat(ShowOps(lines));
    var s := Encode(head) + bytes;
    PreludeBytes(bytes);
    AtWhole(s);
    ReadPrelude(s, bytes);
    PreludeLength();
    AllOps(s, 21 + |Dec(72)| + |Dec(720)| + |Dec(15)|, lines);
  }

  lemma AtWhole(s: Bytes)
    ensures At(s, 0, s)
  {
  }

  lemma PreludeLength()
    ensures |Encode(Join("\n", PRELUDE))| == 21 + |Dec(72)| + |Dec(720)| + |Dec(15)|
  {
    hide Encode, Join, Dec;
    PreludeBytes([]);
  }

  lemma AllOps(s: Bytes, start: nat, lines: seq<string>)
    requires At(s, start, Flat(EncodeAll(ShowOps(lines))) + Encode("\nET"))
    requires start + |Flat(EncodeAll(ShowOps(lines)))| + 3 == |s|
    ensures ReadOps(s, start, 72, 720, 15) == Some(ShownLines(lines))
  {
    hide ReadOps, ShowOp, Encode;
    ReadShowOps(s, start, lines, 0);
    assert EncodeAll(ShowOps(lines))[..0] == [];
    assert ShownLines(lines)[0..] == ShownLines(lines);
  }
}
