/** The self-contained PDF writer of resume_templates.py: spec functions and the loops that compute them. */
module PdfWriter {
  import opened Text
  import opened Latin1

  const PAGE_LINES: nat := 44
  const WRAP_WIDTH: nat := 95

  // ---------------------------------------------------------------- strings and lines

  function PdfEscape(text: string): string {
    ReplaceChar(ReplaceChar(ReplaceChar(text, '\\', "\\\\"), '(', "\\("), ')', "\\)")
  }

  function Wrapped(line: string, width: nat): seq<string>
    requires width > 0
  {
    if line == "" then [""] else Chunks(line, width)
  }

  method Wrap(line: string, width: nat := WRAP_WIDTH) returns (chunks: seq<string>)
    requires width > 0
    ensures chunks == Wrapped(line, width)
  {
    if line == "" {
      return [""];
    }
    chunks := [];
    var rest := line;
    while |rest| > width
      invariant rest != ""
      invariant chunks + Chunks(rest, width) == Chunks(line, width)
      decreases |rest|
    {
      chunks := chunks + [rest[..width]];
      rest := rest[width..];
    }
    chunks := chunks + [rest];
  }

  /** Every chunk fits the width, all but the last fill it, and together they are the line. */
  lemma WrappedMeaning(line: string, width: nat)
    requires width > 0
    ensures Flat(Wrapped(line, width)) == line
    ensures |Wrapped(line, width)| > 0
    ensures forall i :: 0 <= i < |Wrapped(line, width)| ==> |Wrapped(line, width)[i]| <= width
    ensures forall i :: 0 <= i < |Wrapped(line, width)| - 1 ==> |Wrapped(line, width)[i]| == width
    ensures "" in Wrapped(line, width) ==> line == ""
  {
    ChunksFlat(line, width);
    if line == "" {
      assert Flat([""]) == "" + Flat<char>([]);
    }
  }

  // ---------------------------------------------------------------- content streams

  const PRELUDE: seq<string> := ["BT", "/F1 11 Tf", "72 720 Td", "15 TL"]

  function ShowOp(index: nat, line: string): string {
    (if index > 0 then "\nT*" else "") + "\n(" + PdfEscape(line) + ") Tj"
  }

  function ShowOps(lines: seq<string>): seq<string> {
    seq(|lines|, i requires 0 <= i < |lines| => ShowOp(i, lines[i]))
  }

  function StreamText(lines: seq<string>): string {
    Join("\n", PRELUDE) + (Flat(ShowOps(lines)) + "\nET")
  }

  lemma JoinFour(sep: string, a: string, b: string, c: string, d: string)
    ensures Join(sep, [a, b, c, d]) == a + sep + b + sep + c + sep + d
  {
    JoinSnoc(sep, [a], b);
    JoinSnoc(sep, [a, b], c);
    JoinSnoc(sep, [a, b, c], d);
    assert [a] + [b] == [a, b] && [a, b] + [c] == [a, b, c] && [a, b, c] + [d] == [a, b, c, d];
  }

  lemma NoOps(ops: seq<string>)
    ensures Flat(ops[..0]) == ""
  {
  }

  method ContentStream(lines: seq<string>) returns (stream: Bytes)
    ensures stream == Encode(StreamText(lines))
  {
    hide Encode, Join, PdfEscape, Flat;
    var cmds := PRELUDE;
    assert Flat(ShowOps(lines)[..0]) == "" by {
      NoOps(ShowOps(lines));
    }
    ghost var ops := ShowOps(lines);
    for index := 0 to |lines|
      invariant |cmds| >= 4
      invariant Join("\n", cmds) == Join("\n", PRELUDE) + Flat(ops[..index])
    {
      var line := lines[index];
      ghost var before := Join("\n", cmds);
      if index > 0 {
        JoinSnoc("\n", cmds, "T*");
        cmds := cmds + ["T*"];
      }
      JoinSnoc("\n", cmds, "(" + PdfEscape(line) + ") Tj");
      cmds := cmds + ["(" + PdfEscape(line) + ") Tj"];
      assert Join("\n", cmds) == before + ShowOp(index, line);
      FlatTake(ops, index);
    }
    JoinSnoc("\n", cmds, "ET");
    cmds := cmds + ["ET"];
    assert ops[..|lines|] == ops;
    assert Join("\n", cmds) == StreamText(lines);
    stream := Encode(Join("\n", cmds));
  }

  // ---------------------------------------------------------------- the file

  function Header(): Bytes { Encode("%PDF-1.4\n%\U{e2}\U{e3}\U{cf}\U{d3}\n") }

  function ObjectBytes(num: nat, body: Bytes): Bytes {
    Encode(Dec(num) + " 0 obj\n") + (body + Encode("\nendobj\n"))
  }

  /** Objects 1, 2, ..., |bodies| in file order. */
  function ObjectParts(bodies: seq<Bytes>): seq<Bytes> {
    seq(|bodies|, i requires 0 <= i < |bodies| => ObjectBytes(i + 1, bodies[i]))
  }

  function OffsetOf(bodies: seq<Bytes>, num: nat): nat
    requires 1 <= num <= |bodies| + 1
  {
    |Header()| + |Flat(ObjectParts(bodies)[..num - 1])|
  }

  function XrefRow(offset: nat): Bytes { Encode(Padded(offset, 10) + " 00000 n \n") }

  function XrefRows(bodies: seq<Bytes>): seq<Bytes> {
    [Encode("0000000000 65535 f \n")] + seq(|bodies|, i requires 0 <= i < |bodies| => XrefRow(OffsetOf(bodies, i + 1)))
  }

  function TrailerBytes(size: nat, xrefOffset: nat): Bytes {
    Encode("trailer\n") + (Encode("<< /Size " + Dec(size) + " /Root 1 0 R >>\n") +
    (Encode("startxref\n" + Dec(xrefOffset) + "\n") + Encode("%%EOF\n")))
  }

  function XrefOffset(bodies: seq<Bytes>): nat { |Header()| + |Flat(ObjectParts(bodies))| }

  function FileBytes(bodies: seq<Bytes>): Bytes {
    Header() + (Flat(ObjectParts(bodies)) + (Encode("xref\n0 " + (Dec(|bodies| + 1) + "\n")) +
    (Flat(XrefRows(bodies)) + TrailerBytes(|bodies| + 1, XrefOffset(bodies)))))
  }

  /** Whether `objects` is numbered 1, 2, ... with no gap below its largest number. */
  ghost predicate Numbered(objects: map<nat, Bytes>, max: nat) {
    && max in objects
    && (forall k :: k in objects ==> k <= max)
    && (forall k :: 1 <= k <= max ==> k in objects)
  }

  lemma {:induction false} HasMax(keys: set<nat>) returns (m: nat)
    requires keys != {}
    ensures m in keys && forall k :: k in keys ==> k <= m
  {
    m :| m in keys;
    var rest := keys - {m};
    assert forall k :: k in keys ==> k == m || k in rest;
    if rest != {} {
      var top := HasMax(rest);
      m := if m < top then top else m;
    }
  }

  /** One more object: its bytes go at the end and no earlier offset moves. */
  lemma ObjectStep(bodies: seq<Bytes>, body: Bytes)
    ensures Flat(ObjectParts(bodies + [body])) == Flat(ObjectParts(bodies)) + ObjectBytes(|bodies| + 1, body)
    ensures OffsetOf(bodies + [body], |bodies| + 1) == |Header()| + |Flat(ObjectParts(bodies))|
    ensures forall k :: 1 <= k <= |bodies| ==> OffsetOf(bodies + [body], k) == OffsetOf(bodies, k)
  {
    hide Encode, Header, ObjectBytes;
    var before := ObjectParts(bodies);
    assert ObjectParts(bodies + [body]) == before + [ObjectBytes(|bodies| + 1, body)];
    FlatSnoc(before, ObjectBytes(|bodies| + 1, body));
    assert (before + [ObjectBytes(|bodies| + 1, body)])[..|bodies|] == before;
    forall k | 1 <= k <= |bodies| ensures OffsetOf(bodies + [body], k) == OffsetOf(bodies, k) {
      assert (before + [ObjectBytes(|bodies| + 1, body)])[..k - 1] == before[..k - 1];
    }
  }

  /** None stands for the exception Python raises on an empty or gapped numbering. */
  method AssemblePdf(objects: map<nat, Bytes>) returns (r: Option<Bytes>)
    ensures r.Some? <==> exists max: nat :: Numbered(objects, max)
    ensures forall max: nat :: Numbered(objects, max) ==>
      r == Some(FileBytes(seq(max, i requires 0 <= i < max => objects[i + 1])))
  {
    hide Encode, Header, Dec, Padded, Flat, ObjectParts, OffsetOf, XrefRows;
    if objects == map[] {
      return None;
    }
    ghost var top := HasMax(objects.Keys);
    var maxNum :| maxNum in objects && forall k :: k in objects ==> k <= maxNum;
    assert forall max: nat :: Numbered(objects, max) ==> max == maxNum;
    var out := Header();
    var offsets: map<nat, nat> := map[];
    ghost var bodies: seq<Bytes> := [];
    NoObjects();
    for num := 1 to maxNum + 1
      invariant forall k :: 1 <= k < num ==> k in objects
      invariant |bodies| == num - 1 && forall i :: 0 <= i < num - 1 ==> bodies[i] == objects[i + 1]
      invariant out == Header() + Flat(ObjectParts(bodies))
      invariant forall k :: 1 <= k < num ==> k in offsets && offsets[k] == OffsetOf(bodies, k)
    {
      if num !in objects {
        return None;
      }
      offsets := offsets[num := |out|];
      ObjectStep(bodies, objects[num]);
      out := out + Encode(Dec(num) + " 0 obj\n");
      out := out + objects[num];
      out := out + Encode("\nendobj\n");
      bodies := bodies + [objects[num]];
    }
    assert Numbered(objects, maxNum);
    assert bodies == seq(maxNum, i requires 0 <= i < maxNum => objects[i + 1]);
    var xrefOffset := |out|;
    out := out + Encode("xref\n0 " + (Dec(maxNum + 1) + "\n"));
    ghost var start := out;
    out := out + Encode("0000000000 65535 f \n");
    XrefRowsAre(bodies);
    for num := 1 to maxNum + 1
      invariant out == start + Flat(XrefRows(bodies)[..num])
    {
      out := out + Encode(Padded(offsets[num], 10) + " 00000 n \n");
      XrefRowIs(bodies, num);
    }
    assert XrefRows(bodies)[..maxNum + 1] == XrefRows(bodies);
    ghost var table := out;
    out := out + Encode("trailer\n");
    out := out + Encode("<< /Size " + Dec(maxNum + 1) + " /Root 1 0 R >>\n");
    out := out + Encode("startxref\n" + Dec(xrefOffset) + "\n");
    out := out + Encode("%%EOF\n");
    FilePieces(Header(), Flat(ObjectParts(bodies)), Encode("xref\n0 " + (Dec(maxNum + 1) + "\n")),
      Flat(XrefRows(bodies)),
      Encode("trailer\n"), Encode("<< /Size " + Dec(maxNum + 1) + " /Root 1 0 R >>\n"),
      Encode("startxref\n" + Dec(xrefOffset) + "\n"), Encode("%%EOF\n"));
    return Some(out);
  }

  lemma FilePieces(a: Bytes, b: Bytes, c: Bytes, d: Bytes, e: Bytes, g: Bytes, h: Bytes, i: Bytes)
    ensures a + b + c + d + e + g + h + i == a + (b + (c + (d + (e + (g + (h + i))))))
  {
  }

  lemma NoObjects()
    ensures Header() == Header() + Flat(ObjectParts([]))
  {
    hide Header;
    assert ObjectParts([]) == [];
  }

  lemma XrefRowsAre(bodies: seq<Bytes>)
    ensures |XrefRows(bodies)| == |bodies| + 1
    ensures Flat(XrefRows(bodies)[..1]) == Encode("0000000000 65535 f \n")
  {
    hide Encode, OffsetOf, XrefRow;
    var rows := XrefRows(bodies);
    FlatTake(rows, 0);
    assert rows[..0] == [];
  }

  lemma XrefRowIs(bodies: seq<Bytes>, num: nat)
    requires 1 <= num <= |bodies|
    ensures |XrefRows(bodies)| == |bodies| + 1
    ensures XrefRows(bodies)[num] == XrefRow(OffsetOf(bodies, num))
    ensures Flat(XrefRows(bodies)[..num + 1]) == Flat(XrefRows(bodies)[..num]) + XrefRow(OffsetOf(bodies, num))
  {
    hide Encode, OffsetOf, XrefRow;
    FlatTake(XrefRows(bodies), num);
  }

  // ---------------------------------------------------------------- pages

  const CATALOG: string := "<< /Type /Catalog /Pages 2 0 R >>"
  const FONT: string :=
    "<< /Type /Font " + ("/Subtype /Type1 /BaseFont /Helvetica " + "/Encoding /WinAnsiEncoding >>")

  function PageText(content: nat): string {
    ("<< /Type /Page /Parent " + ("2" + (" 0 R" + (" /MediaBox [0 0 612 792] /Resources << /Font << /F1 " +
    ("3" + (" 0 R" + " >> >> /Contents ")))))) + (Dec(content) + " 0 R >>")
  }

  function StreamBody(stream: Bytes): Bytes {
    Encode("<< /Length " + (Dec(|stream|) + " >>\nstream\n")) + (stream + Encode("\nendstream"))
  }

  function PageNumber(i: nat): nat { 4 + 2 * i }

  function KidRefs(count: nat): seq<string> { seq(count, i requires 0 <= i => Dec(PageNumber(i)) + " 0 R") }

  function PagesText(count: nat): string {
    "<< /Type /Pages /Kids [" + (Join(" ", KidRefs(count)) + ("] /Count " + (Dec(count) + " >>")))
  }

  /** The body the writer gives object `num`. */
  function BodyOf(pages: seq<seq<string>>, num: nat): Bytes
    requires 1 <= num <= 2 * |pages| + 3
  {
    if num == 1 then Encode(CATALOG)
    else if num == 2 then Encode(PagesText(|pages|))
    else if num == 3 then Encode(FONT)
    else if num % 2 == 0 then Encode(PageText(num + 1))
    else StreamBody(Encode(StreamText(pages[(num - 5) / 2])))
  }

  function Bodies(pages: seq<seq<string>>): seq<Bytes> {
    seq(2 * |pages| + 3, i requires 0 <= i < 2 * |pages| + 3 => BodyOf(pages, i + 1))
  }

  function PagesOf(lines: seq<string>): seq<seq<string>> {
    var wrapped := Flat(seq(|lines|, i requires 0 <= i < |lines| => Wrapped(lines[i], WRAP_WIDTH)));
    if wrapped == [] then [[""]] else Chunks(wrapped, PAGE_LINES)
  }

  /** The object loop: numbers 4, 5, 6, ... go to page and stream in turn, and 1..2p+3 are all used. */
  method BuildObjects(pages: seq<seq<string>>) returns (objects: map<nat, Bytes>)
    ensures forall k: nat :: k in objects <==> 1 <= k <= 2 * |pages| + 3
    ensures forall k :: 1 <= k <= 2 * |pages| + 3 ==> objects[k] == BodyOf(pages, k)
  {
    hide Encode, Join, StreamText, PageText, PagesText, StreamBody, Dec;
    objects := map[1 := Encode(CATALOG), 3 := Encode(FONT)];
    var kids: seq<string> := [];
    var nextNum: nat := 4;
    for i := 0 to |pages|
      invariant nextNum == 4 + 2 * i
      invariant kids == KidRefs(i)
      invariant forall k: nat :: k in objects <==> 1 <= k < nextNum && k != 2
      invariant forall k :: k in objects ==> objects[k] == BodyOf(pages, k)
    {
      var pageNum := nextNum;
      var contentNum := nextNum + 1;
      nextNum := nextNum + 2;
      kids := kids + [Dec(pageNum) + " 0 R"];
      objects := objects[pageNum := Encode(PageText(contentNum))];
      var stream := ContentStream(pages[i]);
      objects := objects[contentNum := StreamBody(stream)];
    }
    objects := objects[2 := Encode(PagesText(|kids|))];
  }

  method FallbackTextPdf(docLines: seq<string>) returns (pdf: Bytes)
    ensures pdf == FileBytes(Bodies(PagesOf(if docLines == [] then [""] else docLines)))
  {
    hide FileBytes, BodyOf, Wrapped;
    var lines := if docLines == [] then [""] else docLines;
    ghost var parts := seq(|lines|, i requires 0 <= i < |lines| => Wrapped(lines[i], WRAP_WIDTH));
    var wrapped: seq<string> := [];
    for i := 0 to |lines|
      invariant wrapped == Flat(parts[..i])
    {
      var chunks := Wrap(lines[i]);
      wrapped := wrapped + chunks;
      FlatTake(parts, i);
    }
    assert parts[..|lines|] == parts;
    var pages := if wrapped == [] then [[""]] else Chunks(wrapped, PAGE_LINES);
    var objects := BuildObjects(pages);
    var r := AssemblePdf(objects);
    ghost var max := 2 * |pages| + 3;
    assert Numbered(objects, max) by {
      assert max in objects.Keys;
      assert forall k :: k in objects ==> k in objects.Keys;
    }
    assert seq(max, i requires 0 <= i < max => objects[i + 1]) == Bodies(pages);
    pdf := r.value;
  }
}
