/**
 * A small PDF reader, written from ISO 32000-1. It takes no offset, length, number or text from the writer,
 * but it is no general reader: it knows the dictionaries of these files, with their keys in this order, the
 * page size and the font, by their text. It finds the cross-reference table through startxref (section 7.5.5),
 * looks every object up in that table (7.5.4), follows the catalog, the page tree's Kids and each page's Contents,
 * cuts streams out by their Length (7.3.8), decodes literal strings (7.3.4.2) and runs the text operators.
 */
module PdfReader {
  import opened Text
  import opened Latin1

  // ---------------------------------------------------------------- tokens

  function Skip(b: Bytes, pos: nat, token: string): Option<nat> {
    if At(b, pos, Encode(token)) then Some(pos + |token|) else None
  }

  predicate IsDigitByte(x: byte) { 48 <= x <= 57 }

  function DigitsEnd(b: Bytes, pos: nat): (e: nat)
    requires pos <= |b|
    ensures pos <= e <= |b|
    ensures forall i :: pos <= i < e ==> IsDigitByte(b[i])
    ensures e < |b| ==> !IsDigitByte(b[e])
    decreases |b| - pos
  {
    if pos < |b| && IsDigitByte(b[pos]) then DigitsEnd(b, pos + 1) else pos
  }

  function DigitsStart(b: Bytes, end: nat): (s: nat)
    requires end <= |b|
    ensures s <= end
    ensures forall i :: s <= i < end ==> IsDigitByte(b[i])
    ensures s > 0 ==> !IsDigitByte(b[s - 1])
    decreases end
  {
    if end > 0 && IsDigitByte(b[end - 1]) then DigitsStart(b, end - 1) else end
  }

  function DigitsVal(b: Bytes): nat
    requires forall i :: 0 <= i < |b| ==> IsDigitByte(b[i])
  {
    assert AllDigits(Decode(b)) by {
      forall i | 0 <= i < |Decode(b)| ensures IsDigit(Decode(b)[i]) {
        assert IsDigitByte(b[i]);
      }
    }
    Val(Decode(b))
  }

  /** A non-empty run of digits: its value and where it ends. */
  function Number(b: Bytes, pos: nat): Option<(nat, nat)> {
    if pos > |b| then None
    else
      var end := DigitsEnd(b, pos);
      if end == pos then None else Some((DigitsVal(b[pos..end]), end))
  }

  /** An indirect reference `k 0 R`. */
  function Ref(b: Bytes, pos: nat): Option<(nat, nat)> {
    var (k, p) :- Number(b, pos);
    var q :- Skip(b, p, " 0 R");
    Some((k, q))
  }

  // ---------------------------------------------------------------- cross-reference table

  datatype Entry = Entry(offset: nat, inUse: bool)

  /** One 20-byte entry: ten digits, a space, five digits, a space, n or f, a two-byte EOL. */
  function ReadEntry(b: Bytes, pos: nat): Option<Entry> {
    if |b| < pos + 20 then None
    else
      var offset, generation, eol := b[pos..pos + 10], b[pos + 11..pos + 16], b[pos + 18..pos + 20];
      if && (forall i :: 0 <= i < 10 ==> IsDigitByte(offset[i]))
         && b[pos + 10] == 32
         && (forall i :: 0 <= i < 5 ==> IsDigitByte(generation[i]))
         && b[pos + 16] == 32
         && (b[pos + 17] == 110 || b[pos + 17] == 102)
         && (eol == [32, 10] || eol == [32, 13] || eol == [13, 10])
      then Some(Entry(DigitsVal(offset), b[pos + 17] == 110))
      else None
  }

  function ReadTable(b: Bytes, pos: nat, count: nat): Option<seq<Entry>>
    decreases count
  {
    if count == 0 then Some([])
    else
      var first :- ReadEntry(b, pos);
      var rest :- ReadTable(b, pos + 20, count - 1);
      Some([first] + rest)
  }

  /** The offset on the line between `startxref` and the final `%%EOF`. */
  function StartXref(b: Bytes): Option<nat> {
    if |b| < 7 || !At(b, |b| - 7, Encode("\n%%EOF\n")) then None
    else
      var start := DigitsStart(b, |b| - 7);
      if start == |b| - 7 || start < 10 || !At(b, start - 10, Encode("startxref\n")) then None
      else Some(DigitsVal(b[start..|b| - 7]))
  }

  /** The cross-reference table and the number of the root object. */
  function ReadXref(b: Bytes): Option<(seq<Entry>, nat)> {
    var x :- StartXref(b);
    var p0 :- Skip(b, x, "xref\n0 ");
    var (count, p1) :- Number(b, p0);
    var p2 :- Skip(b, p1, "\n");
    var table :- ReadTable(b, p2, count);
    var p3 :- Skip(b, p2 + 20 * count, "trailer\n");
    var p4 :- Skip(b, p3, "<< /Size ");
    var (size, p5) :- Number(b, p4);
    var p6 :- Skip(b, p5, " /Root ");
    var (root, p7) :- Ref(b, p6);
    if size == count then Some((table, root)) else None
  }

  /** Where the body of object `num` starts, checked against the number written there. */
  function FindObject(b: Bytes, table: seq<Entry>, num: nat): Option<nat> {
    if num >= |table| || !table[num].inUse then None
    else
      var (k, p) :- Number(b, table[num].offset);
      var q :- Skip(b, p, " 0 obj\n");
      if k == num then Some(q) else None
  }

  // ---------------------------------------------------------------- literal strings

  predicate IsOctal(x: byte) { 48 <= x <= 55 }

  /** The value and length of the octal escape at `pos`: one to three octal digits. */
  function Octal(b: Bytes, pos: nat): (byte, nat)
    requires pos < |b| && IsOctal(b[pos])
  {
    var d0 := b[pos] as int - 48;
    if pos + 1 >= |b| || !IsOctal(b[pos + 1]) then (d0 as byte, 1)
    else
      var d1 := d0 * 8 + (b[pos + 1] as int - 48);
      if pos + 2 >= |b| || !IsOctal(b[pos + 2]) then (d1 as byte, 2)
      else (((d1 * 8 + (b[pos + 2] as int - 48)) % 0x100) as byte, 3)
  }

  function Prepend(head: Bytes, r: Option<(Bytes, nat)>): Option<(Bytes, nat)> {
    match r
    case None => None
    case Some((tail, end)) => Some((head + tail, end))
  }

  /** The literal string whose text starts at `pos`, inside `depth` further parentheses. */
  function ReadString(b: Bytes, pos: nat, depth: nat): Option<(Bytes, nat)>
    decreases if pos <= |b| then |b| - pos else 0
  {
    if pos >= |b| then None
    else if b[pos] == 41 then
      if depth == 0 then Some(([], pos + 1)) else Prepend([41], ReadString(b, pos + 1, depth - 1))
    else if b[pos] == 40 then Prepend([40], ReadString(b, pos + 1, depth + 1))
    else if b[pos] == 13 then
      if pos + 1 < |b| && b[pos + 1] == 10 then Prepend([10], ReadString(b, pos + 2, depth))
      else Prepend([10], ReadString(b, pos + 1, depth))
    else if b[pos] != 92 then Prepend([b[pos]], ReadString(b, pos + 1, depth))
    else if pos + 1 >= |b| then None
    else
      var x := b[pos + 1];
      if x == 110 then Prepend([10], ReadString(b, pos + 2, depth))
      else if x == 114 then Prepend([13], ReadString(b, pos + 2, depth))
      else if x == 116 then Prepend([9], ReadString(b, pos + 2, depth))
      else if x == 98 then Prepend([8], ReadString(b, pos + 2, depth))
      else if x == 102 then Prepend([12], ReadString(b, pos + 2, depth))
      else if x == 10 then ReadString(b, pos + 2, depth)
      else if x == 13 then ReadString(b, if pos + 2 < |b| && b[pos + 2] == 10 then pos + 3 else pos + 2, depth)
      else if IsOctal(x) then
        var (value, length) := Octal(b, pos + 1);
        Prepend([value], ReadString(b, pos + 1 + length, depth))
      else Prepend([x], ReadString(b, pos + 2, depth))
  }

  // ---------------------------------------------------------------- content streams

  /** A string shown at the left end of a baseline. */
  datatype Shown = Shown(x: nat, y: int, text: Bytes)

  /** The operators after the text matrix is set: T* moves down by the leading, Tj shows a string. */
  function ReadOps(s: Bytes, pos: nat, x: nat, y: int, leading: nat): Option<seq<Shown>>
    decreases if pos <= |s| then |s| - pos else 0
  {
    if Skip(s, pos, "\nET") == Some(|s|) then Some([])
    else
      match Skip(s, pos, "\nT*")
      case Some(p) => ReadOps(s, p, x, y - leading, leading)
      case None =>
        var p :- Skip(s, pos, "\n(");
        var (text, q) :- ReadString(s, p, 0);
        var r :- Skip(s, q, " Tj");
        if r <= pos then None
        else
          var rest :- ReadOps(s, r, x, y, leading);
          Some([Shown(x, y, text)] + rest)
  }

  /** `x y Td`: the start of the first line. */
  function ReadTd(s: Bytes, pos: nat): Option<(nat, nat, nat)> {
    var (x, p) :- Number(s, pos);
    var q :- Skip(s, p, " ");
    var (y, r) :- Number(s, q);
    var end :- Skip(s, r, " Td");
    Some((x, y, end))
  }

  /** `leading TL`. */
  function ReadTL(s: Bytes, pos: nat): Option<(nat, nat)> {
    var (leading, p) :- Number(s, pos);
    var end :- Skip(s, p, " TL");
    Some((leading, end))
  }

  function ReadStream(s: Bytes): Option<seq<Shown>> {
    var p0 :- Skip(s, 0, "BT");
    var p1 :- Skip(s, p0, "\n");
    var p2 :- Skip(s, p1, "/F1 11 Tf");
    var p3 :- Skip(s, p2, "\n");
    var (x, y, p4) :- ReadTd(s, p3);
    var p5 :- Skip(s, p4, "\n");
    var (leading, p6) :- ReadTL(s, p5);
    ReadOps(s, p6, x, y, leading)
  }

  // ---------------------------------------------------------------- the document

  /** The references of a Kids array, up to its closing bracket. */
  function ReadKids(b: Bytes, pos: nat): Option<(seq<nat>, nat)>
    decreases if pos <= |b| then |b| - pos else 0
  {
    match Skip(b, pos, "]")
    case Some(p) => Some(([], p))
    case None =>
      var p := if Skip(b, pos, " ").Some? then pos + 1 else pos;
      var (kid, q) :- Ref(b, p);
      if q <= pos then None
      else
        var (rest, end) :- ReadKids(b, q);
        Some(([kid] + rest, end))
  }

  /** A stream object: the Length bytes after the keyword, which endstream must follow. */
  function ReadStreamObject(b: Bytes, pos: nat): Option<Bytes> {
    var p1 :- Skip(b, pos, "<< /Length ");
    var (length, p2) :- Number(b, p1);
    var p3 :- Skip(b, p2, " >>\nstream\n");
    var p4 :- Skip(b, p3 + length, "\nendstream");
    var p5 :- Skip(b, p4, "\nendobj\n");
    if p3 + length <= |b| then Some(b[p3..p3 + length]) else None
  }

  function ReadContents(b: Bytes, table: seq<Entry>, num: nat): Option<seq<Shown>> {
    var pos :- FindObject(b, table, num);
    var stream :- ReadStreamObject(b, pos);
    ReadStream(stream)
  }

  /** A page dictionary: its Parent, font and Contents references. */
  function ReadPageDict(b: Bytes, pos: nat): Option<(nat, nat, nat)> {
    var p1 :- Skip(b, pos, "<< /Type /Page /Parent ");
    var (up, p2) :- Ref(b, p1);
    var p3 :- Skip(b, p2, " /MediaBox [0 0 612 792] /Resources << /Font << /F1 ");
    var (font, p4) :- Ref(b, p3);
    var p5 :- Skip(b, p4, " >> >> /Contents ");
    var (contents, p6) :- Ref(b, p5);
    var p7 :- Skip(b, p6, " >>");
    var p8 :- Skip(b, p7, "\nendobj\n");
    Some((up, font, contents))
  }

  /** The font whose encoding gives the shown bytes their characters. */
  function ReadFontDict(b: Bytes, pos: nat): Option<nat> {
    var p1 :- Skip(b, pos, "<< /Type /Font ");
    var p2 :- Skip(b, p1, "/Subtype /Type1 /BaseFont /Helvetica ");
    Skip(b, p2, "/Encoding /WinAnsiEncoding >>")
  }

  function ReadPage(b: Bytes, table: seq<Entry>, parent: nat, num: nat): Option<seq<Shown>> {
    var pos :- FindObject(b, table, num);
    var (up, font, contents) :- ReadPageDict(b, pos);
    var fontPos :- FindObject(b, table, font);
    var q :- ReadFontDict(b, fontPos);
    if up == parent then ReadContents(b, table, contents) else None
  }

  function ReadPages(b: Bytes, table: seq<Entry>, parent: nat, kids: seq<nat>): Option<seq<seq<Shown>>> {
    if kids == [] then Some([])
    else
      var first :- ReadPage(b, table, parent, kids[0]);
      var rest :- ReadPages(b, table, parent, kids[1..]);
      Some([first] + rest)
  }

  /** What every page of the file shows, in page order. */
  function ReadPdf(b: Bytes): Option<seq<seq<Shown>>> {
    var start :- Skip(b, 0, "%PDF-1.");
    var (table, root) :- ReadXref(b);
    var p0 :- FindObject(b, table, root);
    var p1 :- Skip(b, p0, "<< /Type /Catalog /Pages ");
    var (pages, p2) :- Ref(b, p1);
    var p3 :- Skip(b, p2, " >>");
    var q0 :- FindObject(b, table, pages);
    var q1 :- Skip(b, q0, "<< /Type /Pages /Kids [");
    var (kids, q2) :- ReadKids(b, q1);
    var q3 :- Skip(b, q2, " /Count ");
    var (count, q4) :- Number(b, q3);
    var q5 :- Skip(b, q4, " >>");
    if count == |kids| then ReadPages(b, table, pages, kids) else None
  }
}
