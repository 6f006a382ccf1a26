/** The HTML side of the fallback writer: escaping, the five regex passes and character references. */
module Html {
  import opened Text

  // ---------------------------------------------------------------- html.escape

  function Escape(s: string): string {
    ReplaceChar(ReplaceChar(ReplaceChar(ReplaceChar(ReplaceChar(s,
      '&', "&amp;"), '<', "&lt;"), '>', "&gt;"), '"', "&quot;"), '\'', "&#x27;")
  }

  function EscapeChar(c: char): string {
    if c == '&' then "&amp;" else if c == '<' then "&lt;" else if c == '>' then "&gt;"
    else if c == '"' then "&quot;" else if c == '\'' then "&#x27;" else [c]
  }

  /** A string none of whose characters is `c` is left alone. */
  lemma {:induction false} ReplaceAbsent(s: string, c: char, sub: string)
    requires c !in s
    ensures ReplaceChar(s, c, sub) == s
  {
    if s != "" {
      ReplaceAbsent(s[1..], c, sub);
    }
  }

  /** The five replacements, done one after another, escape each character once. */
  lemma EscapeCons(c: char, s: string)
    ensures Escape([c] + s) == EscapeChar(c) + Escape(s)
  {
    EscapeOne(c);
    hide EscapeChar, ReplaceChar;
    var s1, c1 := ReplaceChar(s, '&', "&amp;"), ReplaceChar([c], '&', "&amp;");
    var s2, c2 := ReplaceChar(s1, '<', "&lt;"), ReplaceChar(c1, '<', "&lt;");
    var s3, c3 := ReplaceChar(s2, '>', "&gt;"), ReplaceChar(c2, '>', "&gt;");
    var s4, c4 := ReplaceChar(s3, '"', "&quot;"), ReplaceChar(c3, '"', "&quot;");
    ReplaceCharAppend([c], s, '&', "&amp;");
    ReplaceCharAppend(c1, s1, '<', "&lt;");
    ReplaceCharAppend(c2, s2, '>', "&gt;");
    ReplaceCharAppend(c3, s3, '"', "&quot;");
    ReplaceCharAppend(c4, s4, '\'', "&#x27;");
  }

  lemma EscapeOne(c: char)
    ensures Escape([c]) == EscapeChar(c)
  {
    var c1 := ReplaceChar([c], '&', "&amp;");
    var c2 := ReplaceChar(c1, '<', "&lt;");
    var c3 := ReplaceChar(c2, '>', "&gt;");
    var c4 := ReplaceChar(c3, '"', "&quot;");
    ReplaceCharOne(c, '&', "&amp;");
    ReplaceCharOne(c, '<', "&lt;");
    ReplaceCharOne(c, '>', "&gt;");
    ReplaceCharOne(c, '"', "&quot;");
    ReplaceCharOne(c, '\'', "&#x27;");
    var e := EscapeChar(c);
    hide ReplaceChar;
    ReplaceAbsent(e, '<', "&lt;");
    ReplaceAbsent(e, '>', "&gt;");
    ReplaceAbsent(e, '"', "&quot;");
    ReplaceAbsent(e, '\'', "&#x27;");
  }

  /** Escaped text holds nothing a tag could start or end with. */
  lemma {:induction false} EscapeHasNoMarkup(s: string)
    ensures '<' !in Escape(s) && '>' !in Escape(s)
    ensures Escape(s) == "" <==> s == ""
  {
    hide Escape;
    EscapeEmpty();
    if s != "" {
      EscapeHasNoMarkup(s[1..]);
      assert s == [s[0]] + s[1..];
      EscapeCons(s[0], s[1..]);
    }
  }

  lemma EscapeEmpty()
    ensures Escape("") == ""
  {
  }

  // ---------------------------------------------------------------- html.unescape

  predicate NameChar(c: char) { c !in {'\t', '\n', '\U{000C}', ' ', '<', '&', '#', ';'} }

  predicate HexDigit(c: char) { '0' <= c <= '9' || 'a' <= c <= 'f' || 'A' <= c <= 'F' }

  /** How many characters from `pos` on satisfy `test`, at most `limit`. */
  function Run(s: string, pos: nat, limit: nat, test: char -> bool): (n: nat)
    requires pos <= |s|
    ensures pos + n <= |s| && n <= limit
    decreases limit
  {
    if limit == 0 || pos == |s| || !test(s[pos]) then 0 else 1 + Run(s, pos + 1, limit - 1, test)
  }

  function WithSemicolon(s: string, end: nat): (e: nat)
    requires end <= |s|
    ensures end <= e <= |s|
  {
    if end < |s| && s[end] == ';' then end + 1 else end
  }

  /** Where the character reference after the ampersand s[0] ends; 1 when there is none. */
  function RefEnd(s: string): (e: nat)
    requires s != "" && s[0] == '&'
    ensures 1 <= e <= |s|
  {
    if |s| > 1 && s[1] == '#' then
      var digits := Run(s, 2, |s|, IsDigit);
      if digits > 0 then WithSemicolon(s, 2 + digits)
      else if |s| > 2 && s[2] in {'x', 'X'} then
        var hex := Run(s, 3, |s|, HexDigit);
        if hex > 0 then WithSemicolon(s, 3 + hex) else 1
      else 1
    else
      var name := Run(s, 1, 32, NameChar);
      if name > 0 then WithSemicolon(s, 1 + name) else 1
  }

  const DIGITS := "0123456789"
  const HEX_DIGITS := "0123456789abcdefABCDEF"

  /** All of `s[from..to]` is in the class, and the run cannot go on. */
  ghost predicate IsRun(s: string, from: nat, to: nat, limit: nat, test: char -> bool) {
    && from < to <= |s| && to - from <= limit && (forall i :: from <= i < to ==> test(s[i]))
    && (to == |s| || to - from == limit || !test(s[to]))
  }

  /** The reference is digits, hexadecimal digits or a name up to `to`, as long as it can be, and a semicolon there. */
  ghost predicate IsReference(s: string, to: nat, n: nat) {
    && n == (if to < |s| && s[to] == ';' then to + 1 else to)
    && if |s| > 1 && s[1] == '#' then
         || IsRun(s, 2, to, |s|, c => c in DIGITS)
         || (|s| > 2 && (s[2] == 'x' || s[2] == 'X') && IsRun(s, 3, to, |s|, c => c in HEX_DIGITS))
       else IsRun(s, 1, to, 32, c => c !in "\t\n\U{000C} <&#;")
  }

  lemma ClassesAre(c: char)
    ensures IsDigit(c) <==> c in DIGITS
    ensures HexDigit(c) <==> c in HEX_DIGITS
    ensures NameChar(c) <==> c !in "\t\n\U{000C} <&#;"
  {
    if '0' <= c <= '9' {
      assert c == DIGITS[c as int - 48] == HEX_DIGITS[c as int - 48];
    } else if 'a' <= c <= 'f' {
      assert c == HEX_DIGITS[c as int - 87];
    } else if 'A' <= c <= 'F' {
      assert c == HEX_DIGITS[c as int - 49];
    }
  }

  lemma {:induction false} RunLength(s: string, pos: nat, limit: nat, test: char -> bool)
    requires pos <= |s|
    ensures var n := Run(s, pos, limit, test);
      if n > 0 then IsRun(s, pos, pos + n, limit, test) else limit == 0 || pos == |s| || !test(s[pos])
    decreases limit
  {
    if limit > 0 && pos < |s| && test(s[pos]) {
      RunLength(s, pos + 1, limit - 1, test);
    }
  }

  lemma IsRunSame(s: string, from: nat, to: nat, limit: nat, p: char -> bool, q: char -> bool)
    requires forall c :: p(c) == q(c)
    ensures IsRun(s, from, to, limit, p) <==> IsRun(s, from, to, limit, q)
  {
  }

  lemma ReferenceClasses(s: string, from: nat, to: nat)
    ensures IsRun(s, from, to, |s|, IsDigit) <==> IsRun(s, from, to, |s|, c => c in DIGITS)
    ensures IsRun(s, from, to, |s|, HexDigit) <==> IsRun(s, from, to, |s|, c => c in HEX_DIGITS)
    ensures IsRun(s, from, to, 32, NameChar) <==> IsRun(s, from, to, 32, c => c !in "\t\n\U{000C} <&#;")
  {
    hide IsRun, IsDigit, HexDigit, NameChar;
    forall c: char
      ensures IsDigit(c) == (c in DIGITS) && HexDigit(c) == (c in HEX_DIGITS)
      ensures NameChar(c) == (c !in "\t\n\U{000C} <&#;")
    {
      ClassesAre(c);
    }
    IsRunSame(s, from, to, |s|, IsDigit, c => c in DIGITS);
    IsRunSame(s, from, to, |s|, HexDigit, c => c in HEX_DIGITS);
    IsRunSame(s, from, to, 32, NameChar, c => c !in "\t\n\U{000C} <&#;");
  }

  /** Where a character reference ends, and when there is none. */
  lemma RefEndIs(s: string)
    requires s != "" && s[0] == '&'
    ensures RefEnd(s) > 1 ==> exists to :: IsReference(s, to, RefEnd(s))
    ensures RefEnd(s) == 1 ==> forall to, n :: !IsReference(s, to, n)
  {
    hide IsRun, IsDigit, HexDigit, NameChar, Run;
    if |s| > 1 && s[1] == '#' {
      RunLength(s, 2, |s|, IsDigit);
      var digits := Run(s, 2, |s|, IsDigit);
      ReferenceClasses(s, 2, 2 + digits);
      if digits > 0 {
        assert IsReference(s, 2 + digits, RefEnd(s));
      } else if |s| > 2 && s[2] in {'x', 'X'} {
        RunLength(s, 3, |s|, HexDigit);
        var hex := Run(s, 3, |s|, HexDigit);
        ReferenceClasses(s, 3, 3 + hex);
        if hex > 0 {
          assert IsReference(s, 3 + hex, RefEnd(s));
        }
      }
    } else {
      RunLength(s, 1, 32, NameChar);
      var name := Run(s, 1, 32, NameChar);
      ReferenceClasses(s, 1, 1 + name);
      if name > 0 {
        assert IsReference(s, 1 + name, RefEnd(s));
      }
    }
    if RefEnd(s) == 1 {
      forall to: nat, n: nat ensures !IsReference(s, to, n) {
        NoReference(s, to, n);
      }
    }
  }

  lemma NoReference(s: string, to: nat, n: nat)
    requires s != "" && s[0] == '&' && RefEnd(s) == 1
    ensures !IsReference(s, to, n)
  {
    hide IsDigit, HexDigit, NameChar, Run;
    ReferenceClasses(s, 2, to);
    ReferenceClasses(s, 3, to);
    ReferenceClasses(s, 1, to);
    if |s| > 1 && s[1] == '#' {
      RunLength(s, 2, |s|, IsDigit);
      if |s| > 2 && s[2] in {'x', 'X'} {
        RunLength(s, 3, |s|, HexDigit);
      }
    } else {
      RunLength(s, 1, 32, NameChar);
    }
  }

  /** html.unescape: `decode` is the standard library's table, from reference body to text. */
  function Unescape(decode: string -> string, s: string): string
    decreases |s|
  {
    if s == "" then ""
    else if s[0] != '&' || RefEnd(s) == 1 then [s[0]] + Unescape(decode, s[1..])
    else decode(s[1..RefEnd(s)]) + Unescape(decode, s[RefEnd(s)..])
  }

  /** The five table entries that html.escape relies on. */
  ghost predicate Standard(decode: string -> string) {
    && decode("amp;") == "&" && decode("lt;") == "<" && decode("gt;") == ">"
    && decode("quot;") == "\"" && decode("#x27;") == "'"
  }

  /** Escaping a character and unescaping it gives it back, whatever follows. */
  lemma UnescapeEscapedChar(decode: string -> string, c: char, rest: string)
    requires Standard(decode)
    ensures Unescape(decode, EscapeChar(c) + rest) == [c] + Unescape(decode, rest)
  {
    hide Unescape;
    if c == '&' {
      NamedRef(decode, "amp;", rest, 3);
      assert "&" + "amp;" == "&amp;";
    } else if c == '<' {
      NamedRef(decode, "lt;", rest, 2);
      assert "&" + "lt;" == "&lt;";
    } else if c == '>' {
      NamedRef(decode, "gt;", rest, 2);
      assert "&" + "gt;" == "&gt;";
    } else if c == '"' {
      NamedRef(decode, "quot;", rest, 4);
      assert "&" + "quot;" == "&quot;";
    } else if c == '\'' {
      HexRef(decode, rest);
    } else {
      UnescapePlain(decode, [c], rest);
    }
  }

  lemma {:induction false} RunIs(s: string, pos: nat, limit: nat, test: char -> bool, n: nat)
    requires n < limit && pos + n < |s|
    requires forall i :: pos <= i < pos + n ==> test(s[i])
    requires !test(s[pos + n])
    ensures Run(s, pos, limit, test) == n
    decreases n
  {
    if n > 0 {
      RunIs(s, pos + 1, limit - 1, test, n - 1);
    }
  }

  lemma NamedRef(decode: string -> string, body: string, rest: string, n: nat)
    requires 0 < n < 32 && |body| == n + 1 && body[n] == ';'
    requires forall i :: 0 <= i < n ==> NameChar(body[i])
    ensures Unescape(decode, ("&" + body) + rest) == decode(body) + Unescape(decode, rest)
  {
    var s := ("&" + body) + rest;
    assert forall i :: 0 <= i <= n ==> s[1 + i] == body[i];
    RunIs(s, 1, 32, NameChar, n);
    assert s[1] != '#';
    assert s[1..n + 2] == body;
    assert s[n + 2..] == rest;
  }

  lemma HexRef(decode: string -> string, rest: string)
    ensures Unescape(decode, "&#x27;" + rest) == decode("#x27;") + Unescape(decode, rest)
  {
    var s := "&#x27;" + rest;
    RunIs(s, 2, |s|, IsDigit, 0);
    RunIs(s, 3, |s|, HexDigit, 2);
    assert s[1..6] == "#x27;";
    assert s[6..] == rest;
  }

  /** Unescaping undoes escaping, and what follows is not disturbed. */
  lemma {:induction false} UnescapeEscape(decode: string -> string, s: string, rest: string)
    requires Standard(decode)
    ensures Unescape(decode, Escape(s) + rest) == s + Unescape(decode, rest)
  {
    hide Escape, EscapeChar, Unescape;
    EscapeEmpty();
    if s == "" {
      assert "" + rest == rest;
    } else {
      assert s == [s[0]] + s[1..];
      EscapeCons(s[0], s[1..]);
      assert Escape(s) + rest == EscapeChar(s[0]) + (Escape(s[1..]) + rest);
      UnescapeEscapedChar(decode, s[0], Escape(s[1..]) + rest);
      UnescapeEscape(decode, s[1..], rest);
    }
  }

  lemma {:induction false} UnescapePlain(decode: string -> string, s: string, rest: string)
    requires '&' !in s
    ensures Unescape(decode, s + rest) == s + Unescape(decode, rest)
  {
    hide Unescape;
    if s == "" {
      assert s + rest == rest;
    } else {
      UnescapePlain(decode, s[1..], rest);
      assert (s + rest)[1..] == s[1..] + rest && (s + rest)[0] == s[0] && s[0] in s;
      UnescapeFirst(decode, s + rest);
      ConcatAssoc([s[0]], s[1..], Unescape(decode, rest));
      assert [s[0]] + s[1..] == s;
    }
  }

  lemma UnescapeFirst(decode: string -> string, s: string)
    requires s != "" && s[0] != '&'
    ensures Unescape(decode, s) == [s[0]] + Unescape(decode, s[1..])
  {
  }

  // ---------------------------------------------------------------- regex passes

  function Lower(c: char): char {
    if 'A' <= c <= 'Z' then (c as int + 32) as char else c
  }

  /** The capital letters become the small ones; nothing else changes. */
  lemma LowerIs(c: char)
    ensures Lower(c) == if 'A' <= c <= 'Z' then "abcdefghijklmnopqrstuvwxyz"[c as int - 65] else c
  {
    if 'A' <= c <= 'Z' {
      SmallLetters(c as int - 65);
    }
  }

  lemma SmallLetters(i: nat)
    requires i < 26
    ensures "abcdefghijklmnopqrstuvwxyz"[i] as int == i + 97
  {
  }

  function LowerAll(s: string): (r: string)
    ensures |r| == |s|
  {
    seq(|s|, i requires 0 <= i < |s| => Lower(s[i]))
  }

  /** The first position of `c` in `s` at or after `pos`, or |s|. */
  function IndexOf(s: string, c: char, pos: nat): (i: nat)
    requires pos <= |s|
    ensures pos <= i <= |s|
    ensures i < |s| ==> s[i] == c
    ensures forall j :: pos <= j < i ==> s[j] != c
    decreases |s| - pos
  {
    if pos == |s| || s[pos] == c then pos else IndexOf(s, c, pos + 1)
  }

  /**
   * `re.sub` for a pattern that matches `<body>` up to the first `>` whenever `test` accepts the body:
   * `<li[^>]*>`, `<br\s*\/?>`, `</(h1|...)>` and `<[^>]+>` are all of this kind.
   */
  function SubTags(s: string, test: string -> bool, sub: string): string
    decreases |s|
  {
    if s == "" then ""
    else
      var end := if s[0] == '<' then IndexOf(s, '>', 1) else |s|;
      if end < |s| && test(s[1..end]) then sub + SubTags(s[end + 1..], test, sub)
      else [s[0]] + SubTags(s[1..], test, sub)
  }

  predicate PythonSpace(c: char) {
    var n := c as int;
    9 <= n <= 13 || 28 <= n <= 32 || n == 0x85 || n == 0xA0 || n == 0x1680 || 0x2000 <= n <= 0x200A
    || n == 0x2028 || n == 0x2029 || n == 0x202F || n == 0x205F || n == 0x3000
  }

  /** The characters that `str.isspace` accepts. */
  lemma PythonSpacesAre(c: char)
    ensures PythonSpace(c) <==> c in {
      '\t', '\n', '\U{000B}', '\U{000C}', '\r', '\U{001C}', '\U{001D}', '\U{001E}', '\U{001F}', ' ', '\U{0085}',
      '\U{00A0}', '\U{1680}', '\U{2000}', '\U{2001}', '\U{2002}', '\U{2003}', '\U{2004}', '\U{2005}', '\U{2006}',
      '\U{2007}', '\U{2008}', '\U{2009}', '\U{200A}', '\U{2028}', '\U{2029}', '\U{202F}', '\U{205F}', '\U{3000}'}
  {
  }

  predicate IsLiOpen(body: string) { |body| >= 2 && LowerAll(body[..2]) == "li" }

  predicate IsBr(body: string) {
    |body| >= 2 && LowerAll(body[..2]) == "br" && forall c :: c in BrInner(body) ==> PythonSpace(c)
  }

  /** What follows `br`, but for a slash at the end. */
  function BrInner(body: string): string
    requires |body| >= 2
  {
    if body[|body| - 1] == '/' && |body| > 2 then body[2..|body| - 1] else body[2..]
  }

  /** `br`, white space, and perhaps a slash at the end. */
  lemma BrIs(body: string)
    ensures IsBr(body) <==> exists white, slash :: IsBrOf(body, white, slash)
  {
    hide PythonSpace, LowerAll;
    if IsBr(body) {
      var slash := if body[|body| - 1] == '/' && |body| > 2 then "/" else "";
      assert body[2..] == BrInner(body) + slash;
      assert IsBrOf(body, BrInner(body), slash);
    }
    if white, slash :| IsBrOf(body, white, slash) {
      if slash == "/" {
        assert body[|body| - 1] == body[2..][|white|];
        assert BrInner(body) == body[2..][..|white|] == white;
      } else {
        SlashIsInk();
        assert body[2..] == white;
        assert white != "" ==> body[|body| - 1] == white[|white| - 1] && white[|white| - 1] in white;
      }
    }
  }

  lemma SlashIsInk()
    ensures !PythonSpace('/')
  {
  }

  ghost predicate IsBrOf(body: string, white: string, slash: string) {
    && |body| >= 2 && LowerAll(body[..2]) == "br" && body[2..] == white + slash
    && (slash == "" || slash == "/") && forall c :: c in white ==> PythonSpace(c)
  }

  predicate IsBlockClose(body: string) {
    LowerAll(body) in {"/h1", "/h2", "/h3", "/h4", "/h5", "/h6", "/p", "/li", "/div", "/section", "/header", "/ul"}
  }

  predicate IsAnyTag(body: string) { body != "" }

  predicate HasPrefix(s: string, prefix: string) { |prefix| <= |s| && LowerAll(s[..|prefix|]) == prefix }

  /** The first position of `token` in `s`, ignoring case. */
  function Find(s: string, token: string): (r: Option<nat>)
    ensures r.Some? ==> r.value + |token| <= |s|
  {
    if HasPrefix(s, token) then Some(0)
    else if s == "" then None
    else
      match Find(s[1..], token)
      case None => None
      case Some(i) => Some(i + 1)
  }

  /** `re.sub("(?is)" + open + ".*?" + close, "", s)`. */
  function RemoveSpans(s: string, open: string, close: string): string
    requires open != ""
    decreases |s|
  {
    if s == "" then ""
    else
      match SpanEnd(s, open, close)
      case Some(n) => RemoveSpans(s[n..], open, close)
      case None => [s[0]] + RemoveSpans(s[1..], open, close)
  }

  /** The length of the span that starts `s`, if one does. */
  function SpanEnd(s: string, open: string, close: string): (n: Option<nat>)
    ensures n.Some? ==> |open| <= n.value <= |s|
  {
    if HasPrefix(s, open) then
      match Find(s[|open|..], close)
      case None => None
      case Some(i) => Some(|open| + i + |close|)
    else None
  }

  /** The passes over single tags, in the order the code runs them. */
  function TagPasses(doc: string): string {
    var t3 := SubTags(doc, IsLiOpen, "\U{2022} ");
    var t4 := SubTags(t3, IsBr, "\n");
    var t5 := SubTags(t4, IsBlockClose, "\n");
    SubTags(t5, IsAnyTag, "")
  }

  function StripMarkup(doc: string): string {
    var t1 := RemoveSpans(doc, "<style", "</style>");
    var t2 := RemoveSpans(t1, "<head", "</head>");
    TagPasses(t2)
  }

  // ---------------------------------------------------------------- documents as tags and text

  datatype Seg = Tag(body: string) | Txt(text: string)

  predicate SegOk(seg: Seg) {
    match seg
    case Tag(body) => body != "" && '<' !in body && '>' !in body
    case Txt(text) => '<' !in text
  }

  predicate SegsOk(segs: seq<Seg>) { forall i :: 0 <= i < |segs| ==> SegOk(segs[i]) }

  function SegText(seg: Seg): string {
    match seg
    case Tag(body) => "<" + body + ">"
    case Txt(text) => text
  }

  function Render(segs: seq<Seg>): string {
    if segs == [] then "" else SegText(segs[0]) + Render(segs[1..])
  }

  lemma {:induction false} RenderAppend(a: seq<Seg>, b: seq<Seg>)
    ensures Render(a + b) == Render(a) + Render(b)
  {
    hide Render, SegText;
    if a == [] {
      assert a + b == b;
      RenderNothing();
    } else {
      RenderAppend(a[1..], b);
      assert (a + b)[1..] == a[1..] + b && (a + b)[0] == a[0];
      RenderCons(a + b);
      RenderCons(a);
      ConcatAssoc(SegText(a[0]), Render(a[1..]), Render(b));
    }
  }

  lemma RenderNothing()
    ensures Render([]) == ""
  {
  }

  lemma RenderCons(segs: seq<Seg>)
    requires segs != []
    ensures Render(segs) == SegText(segs[0]) + Render(segs[1..])
  {
  }

  // ------------------------------ tag passes

  /** What a tag pass does to a document: the accepted tags become text, nothing else changes. */
  function SubSegs(segs: seq<Seg>, test: string -> bool, sub: string): (r: seq<Seg>)
    ensures |r| == |segs|
    ensures forall i :: 0 <= i < |segs| ==>
      r[i] == if segs[i].Tag? && test(segs[i].body) then Txt(sub) else segs[i]
  {
    seq(|segs|, i requires 0 <= i < |segs| =>
      if segs[i].Tag? && test(segs[i].body) then Txt(sub) else segs[i])
  }

  lemma {:induction false} SubTagsText(text: string, rest: string, test: string -> bool, sub: string)
    requires '<' !in text
    ensures SubTags(text + rest, test, sub) == text + SubTags(rest, test, sub)
  {
    if text == "" {
      assert text + rest == rest;
    } else {
      SubTagsText(text[1..], rest, test, sub);
      assert (text + rest)[1..] == text[1..] + rest;
      assert text[0] in text;
    }
  }

  lemma SubTagsTag(body: string, rest: string, test: string -> bool, sub: string)
    requires SegOk(Tag(body))
    ensures SubTags(SegText(Tag(body)) + rest, test, sub)
      == (if test(body) then sub else SegText(Tag(body))) + SubTags(rest, test, sub)
  {
    hide IndexOf;
    var s := SegText(Tag(body)) + rest;
    TagEnd(s, body, rest);
    if !test(body) {
      var inner := body + ">";
      assert s[1..] == inner + rest;
      SubTagsText(inner, rest, test, sub);
      assert [s[0]] + (inner + SubTags(rest, test, sub)) == SegText(Tag(body)) + SubTags(rest, test, sub);
    }
  }

  lemma TagEnd(s: string, body: string, rest: string)
    requires SegOk(Tag(body)) && s == SegText(Tag(body)) + rest
    ensures s != "" && s[0] == '<' && IndexOf(s, '>', 1) == |body| + 1 < |s|
    ensures s[1..|body| + 1] == body && s[|body| + 2..] == rest
  {
    hide IndexOf;
    assert s[|body| + 1] == '>';
    assert forall i :: 1 <= i < |body| + 1 ==> s[i] == body[i - 1] && body[i - 1] in body;
    assert IndexOf(s, '>', 1) >= |body| + 1;
  }

  /** On a well-formed document a regex pass rewrites exactly the tags it is meant for. */
  lemma {:induction false} SubTagsSegs(segs: seq<Seg>, test: string -> bool, sub: string)
    requires SegsOk(segs)
    ensures SubTags(Render(segs), test, sub) == Render(SubSegs(segs, test, sub))
  {
    hide SubTags, SegText;
    if segs == [] {
      SubTagsEmpty(test, sub);
    } else {
      SubTagsSegs(segs[1..], test, sub);
      assert SubSegs(segs, test, sub)[1..] == SubSegs(segs[1..], test, sub);
      match segs[0]
      case Tag(body) =>
        SubTagsTag(body, Render(segs[1..]), test, sub);
        TxtText(sub);
      case Txt(text) =>
        TxtText(text);
        SubTagsText(text, Render(segs[1..]), test, sub);
    }
  }

  lemma SubTagsEmpty(test: string -> bool, sub: string)
    ensures SubTags("", test, sub) == ""
  {
  }

  lemma TxtText(text: string)
    ensures SegText(Txt(text)) == text
  {
  }

  // ------------------------------ span passes

  /** The first tag of `segs` whose body is `name`, ignoring case. */
  function FindTag(segs: seq<Seg>, name: string): (r: Option<nat>)
    ensures r.Some? ==> r.value < |segs| && segs[r.value].Tag? && |segs[r.value].body| == |name|
  {
    if segs == [] then None
    else if segs[0].Tag? && LowerAll(segs[0].body) == name then Some(0)
    else
      match FindTag(segs[1..], name)
      case None => None
      case Some(i) => Some(i + 1)
  }

  /** Drop everything from each tag that starts with `open` to the next `close` tag. */
  function RemoveSegs(segs: seq<Seg>, open: string, close: string): seq<Seg>
    decreases |segs|
  {
    if segs == [] then []
    else if segs[0].Tag? && HasPrefix(segs[0].body, open) && FindTag(segs[1..], close).Some? then
      RemoveSegs(segs[FindTag(segs[1..], close).value + 2..], open, close)
    else [segs[0]] + RemoveSegs(segs[1..], open, close)
  }

  predicate NameOk(name: string) {
    name != "" && '<' !in name && '>' !in name
  }

  /** Text without `<` cannot hold the start of a tag, so the search moves past it. */
  lemma {:induction false} FindPastText(text: string, rest: string, token: string)
    requires '<' !in text && token != "" && token[0] == '<'
    ensures Find(text + rest, token)
      == match Find(rest, token) case None => None case Some(i) => Some(|text| + i)
  {
    if text == "" {
      assert text + rest == rest;
    } else {
      FindPastText(text[1..], rest, token);
      assert (text + rest)[1..] == text[1..] + rest;
      assert text[0] in text;
      NoPrefix(text + rest, token);
    }
  }

  lemma NoPrefix(s: string, token: string)
    requires s != "" && s[0] != '<' && token != "" && token[0] == '<'
    ensures !HasPrefix(s, token)
  {
    if |token| <= |s| {
      assert LowerAll(s[..|token|])[0] == Lower(s[0]);
    }
  }

  /** A tag's own characters, in front of whatever follows it. */
  lemma TagChars(body: string, rest: string)
    requires SegOk(Tag(body))
    ensures var s := SegText(Tag(body)) + rest;
      |s| >= |body| + 2 && s[0] == '<' && s[|body| + 1] == '>' &&
      forall i :: 1 <= i <= |body| ==> s[i] == body[i - 1] && s[i] != '>'
  {
    assert forall i :: 0 <= i < |body| ==> body[i] in body;
  }

  lemma OpenOfTag(body: string, rest: string, name: string)
    requires SegOk(Tag(body)) && NameOk(name)
    ensures HasPrefix(SegText(Tag(body)) + rest, "<" + name) <==> HasPrefix(body, name)
  {
    hide HasPrefix;
    var s, token := SegText(Tag(body)) + rest, "<" + name;
    TagChars(body, rest);
    LowerPrefix(s, token);
    LowerPrefix(body, name);
    assert forall i :: 0 <= i < |name| ==> name[i] in name;
    assert forall i :: 1 <= i < |token| ==> token[i] == name[i - 1] && token[i] != '>';
    assert Lower(s[|body| + 1]) == '>';
    if HasPrefix(s, token) {
      forall i | 0 <= i < |name| ensures Lower(body[i]) == name[i] {
        assert Lower(s[i + 1]) == token[i + 1];
      }
    }
  }

  /** A tag is found at its own start exactly when its body is the wanted one. */
  lemma CloseOfTag(body: string, rest: string, name: string)
    requires SegOk(Tag(body)) && NameOk(name)
    ensures HasPrefix(SegText(Tag(body)) + rest, "<" + name + ">") <==> LowerAll(body) == name
  {
    hide HasPrefix, LowerAll, Lower, SegText, SegOk;
    var s, token := SegText(Tag(body)) + rest, "<" + name + ">";
    TagChars(body, rest);
    LowerPrefix(s, token);
    if HasPrefix(s, token) {
      CloseTagBody(s, body, name);
    }
    if LowerAll(body) == name {
      CloseTagFound(s, body, name);
    }
  }

  lemma CloseTagBody(s: string, body: string, name: string)
    requires NameOk(name) && |s| >= |body| + 2 && s[|body| + 1] == '>'
    requires forall i :: 1 <= i <= |body| ==> s[i] == body[i - 1] && s[i] != '>'
    requires var token := "<" + name + ">"; |token| <= |s| && forall i :: 0 <= i < |token| ==> Lower(s[i]) == token[i]
    ensures LowerAll(body) == name
  {
    hide LowerAll;
    LowerChars(body);
    var token := "<" + name + ">";
    assert forall i :: 0 <= i < |name| ==> name[i] in name;
    assert forall i :: 1 <= i <= |name| ==> token[i] == name[i - 1];
    assert Lower(s[|name| + 1]) == token[|name| + 1] == '>';
    assert |name| == |body|;
    forall i | 0 <= i < |name| ensures LowerAll(body)[i] == name[i] {
      assert Lower(s[i + 1]) == token[i + 1];
    }
  }

  lemma LowerChars(s: string)
    ensures |LowerAll(s)| == |s| && forall i :: 0 <= i < |s| ==> LowerAll(s)[i] == Lower(s[i])
  {
  }

  lemma CloseTagFound(s: string, body: string, name: string)
    requires |s| >= |body| + 2 && s[0] == '<' && s[|body| + 1] == '>'
    requires forall i :: 1 <= i <= |body| ==> s[i] == body[i - 1]
    requires LowerAll(body) == name
    ensures var token := "<" + name + ">"; |token| <= |s| && forall i :: 0 <= i < |token| ==> Lower(s[i]) == token[i]
  {
    hide LowerAll;
    LowerChars(body);
  }

  lemma LowerPrefix(s: string, prefix: string)
    ensures HasPrefix(s, prefix) <==> |prefix| <= |s| && forall i :: 0 <= i < |prefix| ==> Lower(s[i]) == prefix[i]
  {
    if |prefix| <= |s| {
      var l := LowerAll(s[..|prefix|]);
      assert forall i :: 0 <= i < |prefix| ==> l[i] == Lower(s[i]);
      if HasPrefix(s, prefix) {
        assert forall i :: 0 <= i < |prefix| ==> l[i] == prefix[i];
      }
    }
  }

  /** Searching a rendered document for a closing tag finds exactly the first such tag. */
  lemma {:induction false} FindInSegs(segs: seq<Seg>, name: string)
    requires SegsOk(segs) && NameOk(name)
    ensures Find(Render(segs), "<" + name + ">")
      == match FindTag(segs, name)
         case None => None
         case Some(i) => Some(|Render(segs[..i])|)
  {
    hide SegText, HasPrefix, Find;
    var token := "<" + name + ">";
    if segs == [] {
      FindEmpty(token);
    } else {
      FindInSegs(segs[1..], name);
      var rest := Render(segs[1..]);
      match segs[0] {
        case Txt(text) =>
          TxtText(text);
          FindPastText(text, rest, token);
        case Tag(body) =>
          FindInTag(body, rest, name);
      }
      var found := FindTag(segs, name);
      if found.Some? && found.value > 0 {
        assert segs[..found.value][1..] == segs[1..][..found.value - 1];
      }
    }
  }

  lemma FindEmpty(token: string)
    requires token != ""
    ensures Find("", token) == None
  {
  }

  lemma FindInTag(body: string, rest: string, name: string)
    requires SegOk(Tag(body)) && NameOk(name)
    ensures Find(SegText(Tag(body)) + rest, "<" + name + ">")
      == if LowerAll(body) == name then Some(0)
         else match Find(rest, "<" + name + ">")
              case None => None
              case Some(i) => Some(|SegText(Tag(body))| + i)
  {
    var s, token := SegText(Tag(body)) + rest, "<" + name + ">";
    CloseOfTag(body, rest, name);
    if LowerAll(body) != name {
      assert SegText(Tag(body)) == "<" + (body + ">");
      assert s[1..] == (body + ">") + rest;
      FindPastText(body + ">", rest, token);
    }
  }

  lemma {:induction false} RemoveText(text: string, rest: string, open: string, close: string)
    requires '<' !in text && open != "" && open[0] == '<'
    ensures RemoveSpans(text + rest, open, close) == text + RemoveSpans(rest, open, close)
  {
    hide RemoveSpans, HasPrefix, Find;
    if text == "" {
      assert text + rest == rest;
    } else {
      RemoveText(text[1..], rest, open, close);
      assert (text + rest)[1..] == text[1..] + rest && (text + rest)[0] == text[0];
      assert text[0] in text;
      NoPrefix(text + rest, open);
      NoSpan(text + rest, open, close);
      ConcatAssoc([text[0]], text[1..], RemoveSpans(rest, open, close));
      assert [text[0]] + text[1..] == text;
    }
  }

  lemma RemoveKept(body: string, rest: string, open: string, close: string)
    requires SegOk(Tag(body)) && NameOk(open)
    requires HasPrefix(body, open) ==>
      1 + |open| <= |SegText(Tag(body))| && Find((SegText(Tag(body)) + rest)[1 + |open|..], close) == None
    ensures RemoveSpans(SegText(Tag(body)) + rest, "<" + open, close)
      == SegText(Tag(body)) + RemoveSpans(rest, "<" + open, close)
  {
    hide RemoveSpans, HasPrefix, Find, SegOk;
    var s := SegText(Tag(body)) + rest;
    OpenOfTag(body, rest, open);
    TagTail(body, rest);
    RemoveText(body + ">", rest, "<" + open, close);
    NoSpan(s, "<" + open, close);
    ConcatAssoc("<", body + ">", RemoveSpans(rest, "<" + open, close));
  }

  lemma TagTail(body: string, rest: string)
    requires SegOk(Tag(body))
    ensures var s := SegText(Tag(body)) + rest;
      s != "" && s[0] == '<' && s[1..] == (body + ">") + rest && "<" + (body + ">") == SegText(Tag(body))
        && '<' !in body + ">"
  {
  }

  lemma NoSpan(s: string, open: string, close: string)
    requires open != "" && s != "" && (HasPrefix(s, open) ==> |open| <= |s| && Find(s[|open|..], close) == None)
    ensures RemoveSpans(s, open, close) == [s[0]] + RemoveSpans(s[1..], open, close)
  {
    hide HasPrefix, Find;
  }

  /** What follows the matched start of a tag: the rest of its body, then the document. */
  lemma AfterOpen(body: string, rest: string, open: string, close: string)
    requires SegOk(Tag(body)) && NameOk(open) && NameOk(close) && HasPrefix(body, open)
    ensures 1 + |open| <= |SegText(Tag(body))|
    ensures Find((SegText(Tag(body)) + rest)[1 + |open|..], "<" + close + ">")
      == match Find(rest, "<" + close + ">")
         case None => None
         case Some(i) => Some(|SegText(Tag(body))| - 1 - |open| + i)
  {
    var s := SegText(Tag(body)) + rest;
    var tail := body[|open|..] + ">";
    assert s[1 + |open|..] == tail + rest;
    assert '<' !in tail by {
      assert forall i :: 0 <= i < |body| ==> body[i] in body;
    }
    FindPastText(tail, rest, "<" + close + ">");
  }

  /** A span that is found is cut out together with both its tags. */
  lemma RemoveFound(body: string, segs: seq<Seg>, open: string, close: string)
    requires SegOk(Tag(body)) && SegsOk(segs) && NameOk(open) && NameOk(close)
    requires HasPrefix(body, open) && FindTag(segs, close).Some?
    ensures RemoveSpans(SegText(Tag(body)) + Render(segs), "<" + open, "<" + close + ">")
      == RemoveSpans(Render(segs[FindTag(segs, close).value + 1..]), "<" + open, "<" + close + ">")
  {
    hide Find, Render, HasPrefix, RemoveSpans, FindTag, SegOk;
    var s, k, token := SegText(Tag(body)) + Render(segs), FindTag(segs, close).value, "<" + close + ">";
    AfterOpen(body, Render(segs), open, close);
    FindInSegs(segs, close);
    OpenOfTag(body, Render(segs), open);
    var i := Find(s[1 + |open|..], token).value;
    SpanFound(s, "<" + open, token, i);
    RemoveAt(s, "<" + open, token, |"<" + open| + i + |token|);
    CutRender(segs, k);
    DropBoth(SegText(Tag(body)), Render(segs[..k]) + SegText(segs[k]), Render(segs[k + 1..]));
  }

  lemma SpanFound(s: string, open: string, close: string, i: nat)
    requires HasPrefix(s, open) && |open| <= |s| && Find(s[|open|..], close) == Some(i)
    ensures SpanEnd(s, open, close) == Some(|open| + i + |close|)
  {
    hide Find;
  }

  lemma RemoveAt(s: string, open: string, close: string, n: nat)
    requires open != "" && s != "" && SpanEnd(s, open, close) == Some(n)
    ensures RemoveSpans(s, open, close) == RemoveSpans(s[n..], open, close)
  {
    hide SpanEnd;
  }

  lemma CutRender(segs: seq<Seg>, k: nat)
    requires k < |segs|
    ensures Render(segs) == Render(segs[..k]) + SegText(segs[k]) + Render(segs[k + 1..])
  {
    hide Render;
    RenderAppend(segs[..k], segs[k..]);
    assert segs == segs[..k] + segs[k..];
    RenderCons(segs[k..]);
    assert segs[k..][1..] == segs[k + 1..];
    ConcatAssoc(Render(segs[..k]), SegText(segs[k]), Render(segs[k + 1..]));
  }

  lemma DropBoth(a: string, b: string, rest: string)
    ensures (a + (b + rest))[|a| + |b|..] == rest
  {
  }

  lemma RemoveEmpty(open: string, close: string)
    requires open != ""
    ensures RemoveSpans("", open, close) == ""
  {
  }

  /** On a well-formed document a span pass drops exactly the spans between matching tags. */
  lemma {:induction false} RemoveSpansSegs(segs: seq<Seg>, open: string, close: string)
    requires SegsOk(segs) && NameOk(open) && NameOk(close)
    ensures RemoveSpans(Render(segs), "<" + open, "<" + close + ">") == Render(RemoveSegs(segs, open, close))
    decreases |segs|
  {
    hide SegText, HasPrefix, Find, RemoveSpans;
    if segs == [] {
      RemoveEmpty("<" + open, "<" + close + ">");
    } else {
      var rest := Render(segs[1..]);
      match segs[0]
      case Txt(text) =>
        TxtText(text);
        RemoveText(text, rest, "<" + open, "<" + close + ">");
        RemoveSpansSegs(segs[1..], open, close);
      case Tag(body) =>
        FindInSegs(segs[1..], close);
        if HasPrefix(body, open) {
          AfterOpen(body, rest, open, close);
        }
        if HasPrefix(body, open) && FindTag(segs[1..], close).Some? {
          RemoveSpansSegs(segs[FindTag(segs[1..], close).value + 2..], open, close);
          RemoveFound(body, segs[1..], open, close);
        } else {
          RemoveSpansSegs(segs[1..], open, close);
          RemoveKept(body, rest, open, "<" + close + ">");
        }
    }
  }

  predicate NoOpen(segs: seq<Seg>, open: string) {
    forall i :: 0 <= i < |segs| && segs[i].Tag? ==> !HasPrefix(segs[i].body, open)
  }

  predicate NoClose(segs: seq<Seg>, close: string) {
    forall i :: 0 <= i < |segs| && segs[i].Tag? ==> LowerAll(segs[i].body) != close
  }

  lemma NoOpenAppend(a: seq<Seg>, b: seq<Seg>, open: string)
    ensures NoOpen(a + b, open) <==> NoOpen(a, open) && NoOpen(b, open)
  {
    hide HasPrefix;
    assert forall i :: 0 <= i < |a| ==> (a + b)[i] == a[i];
    assert forall i :: 0 <= i < |b| ==> (a + b)[|a| + i] == b[i];
  }

  lemma NoCloseAppend(a: seq<Seg>, b: seq<Seg>, close: string)
    ensures NoClose(a + b, close) <==> NoClose(a, close) && NoClose(b, close)
  {
    hide LowerAll;
    assert forall i :: 0 <= i < |a| ==> (a + b)[i] == a[i];
    assert forall i :: 0 <= i < |b| ==> (a + b)[|a| + i] == b[i];
  }

  lemma SegsOkAppend(a: seq<Seg>, b: seq<Seg>)
    ensures SegsOk(a + b) <==> SegsOk(a) && SegsOk(b)
  {
    hide SegOk;
    assert forall i :: 0 <= i < |a| ==> (a + b)[i] == a[i];
    assert forall i :: 0 <= i < |b| ==> (a + b)[|a| + i] == b[i];
  }

  lemma {:induction false} RemoveSegsAppend(a: seq<Seg>, b: seq<Seg>, open: string, close: string)
    requires NoOpen(a, open)
    ensures RemoveSegs(a + b, open, close) == a + RemoveSegs(b, open, close)
  {
    hide HasPrefix;
    if a == [] {
      assert a + b == b;
    } else {
      RemoveSegsAppend(a[1..], b, open, close);
      assert (a + b)[1..] == a[1..] + b;
    }
  }

  lemma {:induction false} NoCloseNoSpan(segs: seq<Seg>, open: string, close: string)
    requires NoClose(segs, close)
    ensures FindTag(segs, close) == None
    ensures RemoveSegs(segs, open, close) == segs
  {
    hide HasPrefix, LowerAll;
    if segs != [] {
      NoCloseNoSpan(segs[1..], open, close);
    }
  }

  lemma {:induction false} FindTagAt(segs: seq<Seg>, k: nat, name: string)
    requires k < |segs| && segs[k].Tag? && LowerAll(segs[k].body) == name
    requires forall i :: 0 <= i < k && segs[i].Tag? ==> LowerAll(segs[i].body) != name
    ensures FindTag(segs, name) == Some(k)
  {
    hide LowerAll;
    if k > 0 {
      FindTagAt(segs[1..], k - 1, name);
    }
  }

  /** A span pass takes out the first span, from its opening tag to the first closing tag after it. */
  lemma SpanPass(before: seq<Seg>, openBody: string, inner: seq<Seg>, closeBody: string, after: seq<Seg>,
    open: string, close: string)
    requires NoOpen(before, open) && NoClose(inner, close)
    requires HasPrefix(openBody, open) && LowerAll(closeBody) == close
    ensures RemoveSegs(before + ([Tag(openBody)] + (inner + ([Tag(closeBody)] + after))), open, close)
      == before + RemoveSegs(after, open, close)
  {
    hide HasPrefix, LowerAll;
    var tail := inner + ([Tag(closeBody)] + after);
    RemoveSegsAppend(before, [Tag(openBody)] + tail, open, close);
    FindTagAt(tail, |inner|, close);
    assert ([Tag(openBody)] + tail)[1..] == tail;
    assert ([Tag(openBody)] + tail)[|inner| + 2..] == after;
  }
}
