/** The resume renderer of resume_templates.py, and what survives of a resume when its markup is stripped. */
module Resume {
  import opened Text
  import opened Html

  // ---------------------------------------------------------------- pieces of a rendered body

  /** The tags the block renderers emit. */
  datatype HtmlTag =
    | HeaderOpen | H1Open | LabelOpen | ContactsOpen | SummaryOpen | UlOpen | LiOpen | SectionOpen | H2Open
    | EntryOpen | EntryTitleOpen | EntryMetaOpen | POpen
    | HeaderClose | H1Close | PClose | UlClose | LiClose | SectionClose | H2Close | DivClose

  function TagName(tag: HtmlTag): string {
    match tag
    case HeaderOpen => "header"
    case H1Open => "h1"
    case UlOpen => "ul"
    case LiOpen => "li"
    case SectionOpen => "section"
    case H2Open => "h2"
    case EntryOpen => "div"
    case HeaderClose => "/header"
    case H1Close => "/h1"
    case PClose => "/p"
    case UlClose => "/ul"
    case LiClose => "/li"
    case SectionClose => "/section"
    case H2Close => "/h2"
    case DivClose => "/div"
    case _ => "p"
  }

  function TagClass(tag: HtmlTag): string {
    match tag
    case HeaderOpen => "resume-header"
    case LabelOpen => "label"
    case ContactsOpen => "contacts"
    case SummaryOpen => "summary"
    case SectionOpen => "resume-section"
    case EntryOpen => "entry"
    case EntryTitleOpen => "entry-title"
    case EntryMetaOpen => "entry-meta"
    case _ => ""
  }

  function TagBody(tag: HtmlTag): string {
    TagName(tag) + (if TagClass(tag) == "" then "" else " class=\"" + TagClass(tag) + "\"")
  }

  predicate IsClose(tag: HtmlTag) {
    tag in {HeaderClose, H1Close, PClose, UlClose, LiClose, SectionClose, H2Close, DivClose}
  }

  /** Markup, a user's text (escaped when rendered), or a separator of the template's own. */
  datatype Piece = Markup(tag: HtmlTag) | Raw(text: string) | Sep(text: string)

  function PieceSeg(piece: Piece): Seg {
    match piece
    case Markup(tag) => Tag(TagBody(tag))
    case Raw(text) => Txt(Escape(text))
    case Sep(text) => Txt(text)
  }

  function SegsOf(pieces: seq<Piece>): seq<Seg> {
    seq(|pieces|, i requires 0 <= i < |pieces| => PieceSeg(pieces[i]))
  }

  predicate PiecesOk(pieces: seq<Piece>) {
    forall i :: 0 <= i < |pieces| && pieces[i].Sep? ==> '<' !in pieces[i].text && '&' !in pieces[i].text
  }

  /** What a reader of the plain text sees of a piece. */
  function PlainPiece(piece: Piece): string {
    match piece
    case Markup(tag) => if tag == LiOpen then "\U{2022} " else if IsClose(tag) then "\n" else ""
    case Raw(text) => text
    case Sep(text) => text
  }

  function PlainText(pieces: seq<Piece>): string {
    if pieces == [] then "" else PlainPiece(pieces[0]) + PlainText(pieces[1..])
  }

  // ---------------------------------------------------------------- block renderers

  function JoinPieces(sep: string, parts: seq<seq<Piece>>): seq<Piece> {
    if parts == [] then [] else if |parts| == 1 then parts[0] else parts[0] + [Sep(sep)] + JoinPieces(sep, parts[1..])
  }

  /** `[_esc(p) for p in texts if p]`. */
  function NonEmpty(texts: seq<string>): seq<seq<Piece>> {
    if texts == [] then []
    else (if texts[0] == "" then [] else [[Raw(texts[0])]]) + NonEmpty(texts[1..])
  }

  datatype Location = Address(parts: seq<string>) | Place(text: string)

  datatype SocialProfile = SocialProfile(network: string, url: string)

  datatype Basics = Basics(name: string, title: string, summary: string, email: string, phone: string, url: string,
    location: Location, profiles: seq<SocialProfile>)

  datatype WorkItem = WorkItem(name: string, company: string, position: string, startDate: string, endDate: string,
    summary: string, highlights: seq<string>)

  datatype EducationItem = EducationItem(institution: string, studyType: string, area: string,
    startDate: string, endDate: string)

  datatype Skill = Skill(name: string, keywords: seq<string>)

  datatype Project = Project(name: string, description: string, highlights: seq<string>)

  datatype JsonResume = JsonResume(basics: Basics, work: seq<WorkItem>, education: seq<EducationItem>,
    skills: seq<Skill>, projects: seq<Project>)

  /** `if text: parts.append(f"{open}{text}{close}")`. */
  function Wrap(open: HtmlTag, inner: seq<Piece>, close: HtmlTag): seq<Piece> {
    if inner == [] then [] else [Markup(open)] + inner + [Markup(close)]
  }

  function Field(text: string): seq<Piece> { if text == "" then [] else [Raw(text)] }

  function LocationContact(location: Location): seq<seq<Piece>> {
    match location
    case Address(parts) => if NonEmpty(parts) == [] then [] else [JoinPieces(", ", NonEmpty(parts))]
    case Place(text) => NonEmpty([text])
  }

  function ProfileContacts(profiles: seq<SocialProfile>): seq<seq<Piece>> {
    if profiles == [] then []
    else
      var p := profiles[0];
      var network := if p.network == "" then Sep("Profile") else Raw(p.network);
      (if p.url == "" then [] else [[network, Sep(": "), Raw(p.url)]]) + ProfileContacts(profiles[1..])
  }

  function BasicsBlock(basics: Basics): seq<Piece> {
    var contacts := NonEmpty([basics.email, basics.phone, basics.url])
      + LocationContact(basics.location) + ProfileContacts(basics.profiles);
    [Markup(HeaderOpen)]
    + Wrap(H1Open, Field(basics.name), H1Close)
    + Wrap(LabelOpen, Field(basics.title), PClose)
    + Wrap(ContactsOpen, JoinPieces(" \U{b7} ", contacts), PClose)
    + Wrap(SummaryOpen, Field(basics.summary), PClose)
    + [Markup(HeaderClose)]
  }

  /** The end falls back to "Present", so the result is never empty, even without any date. */
  function DateRange(start: string, end: string): seq<Piece> {
    var endPiece := if end == "" then Sep("Present") else Raw(end);
    if start == "" then [endPiece] else [Raw(start), Sep(" \U{2013} "), endPiece]
  }

  function ListItems(items: seq<seq<Piece>>): seq<Piece> {
    if items == [] then [] else [Markup(LiOpen)] + items[0] + [Markup(LiClose)] + ListItems(items[1..])
  }

  function Highlights(items: seq<string>): seq<Piece> { Wrap(UlOpen, ListItems(NonEmpty(items)), UlClose) }

  function Section(title: string, body: seq<Piece>): seq<Piece> {
    if body == [] then []
    else [Markup(SectionOpen), Markup(H2Open), Sep(title), Markup(H2Close)] + body + [Markup(SectionClose)]
  }

  function WorkEntry(item: WorkItem): seq<Piece> {
    var org := if item.name != "" then item.name else item.company;
    [Markup(EntryOpen)]
    + Wrap(EntryTitleOpen, JoinPieces(" \U{2014} ", NonEmpty([item.position, org])), PClose)
    + Wrap(EntryMetaOpen, DateRange(item.startDate, item.endDate), PClose)
    + Wrap(POpen, Field(item.summary), PClose)
    + Highlights(item.highlights)
    + [Markup(DivClose)]
  }

  function EducationEntry(item: EducationItem): seq<Piece> {
    var study := JoinPieces(" ", NonEmpty([item.studyType, item.area]));
    var parts := (if study == [] then [] else [study]) + NonEmpty([item.institution]);
    [Markup(EntryOpen)]
    + Wrap(EntryTitleOpen, JoinPieces(" \U{2014} ", parts), PClose)
    + Wrap(EntryMetaOpen, DateRange(item.startDate, item.endDate), PClose)
    + [Markup(DivClose)]
  }

  /** A keyword list makes an item even when all its keywords are empty; otherwise the name decides. */
  function SkillItem(skill: Skill): seq<seq<Piece>> {
    if skill.keywords != [] then
      var kw := JoinPieces(", ", NonEmpty(skill.keywords));
      [if skill.name == "" then kw else [Raw(skill.name), Sep(": ")] + kw]
    else NonEmpty([skill.name])
  }

  function ProjectEntry(item: Project): seq<Piece> {
    [Markup(EntryOpen)]
    + Wrap(EntryTitleOpen, Field(item.name), PClose)
    + Wrap(POpen, Field(item.description), PClose)
    + Highlights(item.highlights)
    + [Markup(DivClose)]
  }

  function Map<A, B>(f: A -> B, s: seq<A>): seq<B> { seq(|s|, i requires 0 <= i < |s| => f(s[i])) }

  function BodySections(resume: JsonResume): seq<Piece> {
    Section("Experience", Flat(Map(WorkEntry, resume.work)))
    + Section("Education", Flat(Map(EducationEntry, resume.education)))
    + Section("Skills", Wrap(UlOpen, ListItems(Flat(Map(SkillItem, resume.skills))), UlClose))
    + Section("Projects", Flat(Map(ProjectEntry, resume.projects)))
  }

  function Body(resume: JsonResume): seq<Piece> { BasicsBlock(resume.basics) + BodySections(resume) }

  /** The head's tags before its style element; `title` is the escaped name. */
  function HeadSegs(title: string): seq<Seg> {
    [Tag("meta charset=\"utf-8\""), Tag("title"), Txt(title), Tag("/title")]
  }

  function StyleSegs(css: string): seq<Seg> { [Tag("style"), Txt(css), Tag("/style")] }

  const PREAMBLE: seq<Seg> := [Tag("!DOCTYPE html"), Tag("html")]

  function BodySegs(resume: JsonResume): seq<Seg> {
    [Tag("body")] + SegsOf(Body(resume)) + [Tag("/body"), Tag("/html")]
  }

  /** The whole document; `css` is the template's style sheet. */
  function Document(resume: JsonResume, css: string): string {
    var title := if resume.basics.name == "" then "Resume" else Escape(resume.basics.name);
    Render(PREAMBLE + ([Tag("head")] + (HeadSegs(title) + (StyleSegs(css) + ([Tag("/head")] + BodySegs(resume))))))
  }

  // ---------------------------------------------------------------- every piece is harmless

  lemma NamesOk(tag: HtmlTag)
    ensures TagName(tag) != "" && '<' !in TagName(tag) && '>' !in TagName(tag)
  {
  }

  lemma ClassesOk(tag: HtmlTag)
    ensures '<' !in TagClass(tag) && '>' !in TagClass(tag)
  {
  }

  lemma TagOk(tag: HtmlTag)
    ensures SegOk(Tag(TagBody(tag)))
  {
    hide TagName, TagClass;
    NamesOk(tag);
    ClassesOk(tag);
    assert '<' !in " class=\"" && '>' !in " class=\"";
  }

  predicate LowerCase(s: string) { forall i :: 0 <= i < |s| ==> Lower(s[i]) == s[i] }

  lemma LowerNames(tag: HtmlTag)
    ensures LowerCase(TagName(tag))
  {
  }

  lemma LowerClasses(tag: HtmlTag)
    ensures LowerCase(TagClass(tag))
  {
  }

  lemma LowerCaseLiterals()
    ensures LowerCase(" class=\"") && LowerCase("\"")
  {
  }

  lemma LowerCaseAppend(s: string, t: string)
    requires LowerCase(s) && LowerCase(t)
    ensures LowerCase(s + t)
  {
  }

  lemma LowerBody(tag: HtmlTag)
    ensures LowerCase(TagBody(tag))
  {
    hide TagName, TagClass, LowerCase;
    LowerNames(tag);
    LowerClasses(tag);
    LowerCaseLiterals();
    var attribute := " class=\"" + TagClass(tag);
    LowerCaseAppend(" class=\"", TagClass(tag));
    LowerCaseAppend(attribute, "\"");
    LowerCaseAppend(TagName(tag), attribute + "\"");
    assert TagName(tag) + "" == TagName(tag);
  }

  lemma LowerCaseSame(s: string)
    requires LowerCase(s)
    ensures LowerAll(s) == s
  {
  }

  predicate StartOk(tag: HtmlTag, name: string, class_: string) {
    && name != ""
    && (name[0] == '/' <==> IsClose(tag))
    && (IsClose(tag) ==> |name| != 5) && (IsClose(tag) || tag == LiOpen ==> class_ == "")
    && (name[0] == 'l' <==> tag == LiOpen) && (tag == LiOpen ==> name == "li")
    && name[0] != 'b'
    && (name[0] == 's' ==> |name| > 1 && name[1] == 'e')
  }

  lemma Starts(tag: HtmlTag)
    ensures StartOk(tag, TagName(tag), TagClass(tag))
  {
  }

  lemma Closers(tag: HtmlTag)
    requires IsClose(tag)
    ensures TagName(tag) in
      {"/h1", "/h2", "/h3", "/h4", "/h5", "/h6", "/p", "/li", "/div", "/section", "/header", "/ul"}
  {
  }

  /** Which of the regexes accept a tag of the template. */
  lemma TagTests(tag: HtmlTag)
    ensures IsLiOpen(TagBody(tag)) <==> tag == LiOpen
    ensures !IsBr(TagBody(tag))
    ensures IsBlockClose(TagBody(tag)) <==> IsClose(tag)
    ensures !HasPrefix(TagBody(tag), "style") && LowerAll(TagBody(tag)) != "/head"
  {
    hide TagName, TagClass;
    Starts(tag);
    LowerBody(tag);
    var body := TagBody(tag);
    assert TagName(tag) + "" == TagName(tag);
    LowerCaseSame(body);
    if IsClose(tag) {
      Closers(tag);
    }
    var style, li, br := "style", "li", "br";
    assert body[0] == TagName(tag)[0] && (|TagName(tag)| > 1 ==> body[1] == TagName(tag)[1]);
    assert style[0] == 's' && style[1] == 't' && li[0] == 'l' && br[0] == 'b' && "/head"[0] == '/';
    LowerPrefix(body, style);
    LowerPrefix(body, li);
    LowerPrefix(body, br);
    assert tag == LiOpen ==> body == li;
    assert IsLiOpen(body) <==> HasPrefix(body, "li");
    assert IsBr(body) ==> HasPrefix(body, "br");
  }

  // ---------------------------------------------------------------- stripping a body

  lemma PieceOk(piece: Piece)
    requires piece.Sep? ==> '<' !in piece.text
    ensures SegOk(PieceSeg(piece))
  {
    hide Escape, TagBody;
    match piece
    case Markup(tag) => TagOk(tag);
    case Raw(text) => EscapeHasNoMarkup(text);
    case Sep(text) =>
  }

  /** The four tag passes on one segment of a document. */
  function PlainSeg(seg: Seg): string {
    match seg
    case Txt(text) => text
    case Tag(body) =>
      if IsLiOpen(body) then "\U{2022} " else if IsBr(body) || IsBlockClose(body) then "\n" else ""
  }

  function PlainSegs(segs: seq<Seg>): string {
    if segs == [] then "" else PlainSeg(segs[0]) + PlainSegs(segs[1..])
  }

  lemma {:induction false} RenderIsPlain(segs: seq<Seg>, done: seq<Seg>)
    requires |done| == |segs|
    requires forall i :: 0 <= i < |segs| ==> done[i] == Txt(PlainSeg(segs[i]))
    ensures Render(done) == PlainSegs(segs)
  {
    hide PlainSeg;
    if segs != [] {
      RenderIsPlain(segs[1..], done[1..]);
    }
  }

  /** On a well-formed document the passes leave the text and turn each tag into its plain form. */
  lemma TagPassesAre(segs: seq<Seg>)
    requires SegsOk(segs)
    ensures TagPasses(Render(segs)) == PlainSegs(segs)
  {
    hide SubTags, Render, IsLiOpen, IsBr, IsBlockClose;
    var s3 := SubSegs(segs, IsLiOpen, "\U{2022} ");
    var s4 := SubSegs(s3, IsBr, "\n");
    var s5 := SubSegs(s4, IsBlockClose, "\n");
    var s6 := SubSegs(s5, IsAnyTag, "");
    SubTagsSegs(segs, IsLiOpen, "\U{2022} ");
    SubTagsSegs(s3, IsBr, "\n");
    SubTagsSegs(s4, IsBlockClose, "\n");
    SubTagsSegs(s5, IsAnyTag, "");
    RenderIsPlain(segs, s6);
  }

  /** Unescaping the stripped body gives the plain text: user text verbatim, tags as bullets and breaks. */
  lemma {:induction false} UnescapePieces(decode: string -> string, pieces: seq<Piece>, rest: string)
    requires Standard(decode) && PiecesOk(pieces)
    ensures Unescape(decode, PlainSegs(SegsOf(pieces)) + rest) == PlainText(pieces) + Unescape(decode, rest)
  {
    hide Escape, Unescape, TagBody, PlainSeg, PlainPiece;
    if pieces == [] {
      assert "" + rest == rest;
    } else {
      var more := PlainSegs(SegsOf(pieces[1..])) + rest;
      UnescapePieces(decode, pieces[1..], rest);
      assert SegsOf(pieces)[1..] == SegsOf(pieces[1..]);
      assert PlainSegs(SegsOf(pieces)) + rest == PlainSeg(PieceSeg(pieces[0])) + more;
      UnescapePiece(decode, pieces[0], more);
    }
  }

  lemma UnescapePiece(decode: string -> string, piece: Piece, rest: string)
    requires Standard(decode) && (piece.Sep? ==> '&' !in piece.text)
    ensures Unescape(decode, PlainSeg(PieceSeg(piece)) + rest) == PlainPiece(piece) + Unescape(decode, rest)
  {
    hide Escape, Unescape, TagBody, IsLiOpen, IsBr, IsBlockClose;
    match piece
    case Markup(tag) =>
      TagTests(tag);
      UnescapePlain(decode, PlainPiece(piece), rest);
    case Raw(text) => UnescapeEscape(decode, text, rest);
    case Sep(text) => UnescapePlain(decode, text, rest);
  }

  // ---------------------------------------------------------------- the document around the body

  predicate Outer(name: string) { name in {"!DOCTYPE html", "html", "body", "/body", "/html"} }

  lemma OuterStart(name: string)
    requires Outer(name)
    ensures |name| >= 4 && name[0] in {'!', 'h', 'b', '/'}
    ensures name[0] == 'h' ==> name[1] == 't'
    ensures name[0] == 'b' ==> name[1] == 'o'
  {
  }

  lemma OuterOk(name: string)
    requires Outer(name)
    ensures SegOk(Tag(name))
  {
  }

  lemma OuterTags(name: string)
    requires Outer(name)
    ensures SegOk(Tag(name)) && PlainSeg(Tag(name)) == ""
    ensures !HasPrefix(name, "style") && !HasPrefix(name, "head") && LowerAll(name) != "/head"
  {
    hide Outer, IsBlockClose;
    OuterStart(name);
    OuterOk(name);
    OuterLower(name);
    var style, head, li, br := "style", "head", "li", "br";
    assert style[0] == 's' && head[0] == 'h' && head[1] == 'e' && li[0] == 'l' && br[0] == 'b' && br[1] == 'r';
    LowerPrefix(name, style);
    LowerPrefix(name, head);
    LowerPrefix(name, li);
    LowerPrefix(name, br);
    assert IsLiOpen(name) ==> HasPrefix(name, li);
    assert IsBr(name) ==> HasPrefix(name, br);
  }

  lemma OuterLower(name: string)
    requires Outer(name)
    ensures !IsBlockClose(name) && LowerAll(name) != "/head"
  {
    if name == "!DOCTYPE html" {
      assert LowerAll(name)[0] == '!';
    } else {
      assert LowerCase(name);
      LowerCaseSame(name);
    }
  }

  lemma HeadTags(name: string)
    requires name in {"title", "/title", "head", "/head", "/style"}
    ensures SegOk(Tag(name)) && !HasPrefix(name, "style") && LowerAll(name) == name
  {
    var style := "style";
    assert style[0] == 's';
    LowerPrefix(name, style);
    assert LowerCase(name);
    LowerCaseSame(name);
  }

  lemma MetaTag()
    ensures SegOk(Tag("meta charset=\"utf-8\"")) && !HasPrefix("meta charset=\"utf-8\"", "style")
    ensures LowerAll("meta charset=\"utf-8\"") != "/head"
  {
    var style, name := "style", "meta charset=\"utf-8\"";
    assert style[0] == 's' && name[0] == 'm';
    LowerPrefix(name, style);
  }

  lemma StyleTag()
    ensures SegOk(Tag("style")) && HasPrefix("style", "style")
  {
    var style := "style";
    LowerPrefix(style, style);
  }

  lemma HeadOk(title: string)
    requires '<' !in title
    ensures SegsOk(HeadSegs(title)) && NoOpen(HeadSegs(title), "style") && NoClose(HeadSegs(title), "/head")
  {
    hide HasPrefix;
    MetaTag();
    HeadTags("title");
    HeadTags("/title");
  }

  lemma BodyTags(pieces: seq<Piece>)
    requires PiecesOk(pieces)
    ensures SegsOk(SegsOf(pieces)) && NoOpen(SegsOf(pieces), "style") && NoClose(SegsOf(pieces), "/head")
  {
    hide HasPrefix, LowerAll, TagBody, SegOk, Escape;
    forall i | 0 <= i < |pieces|
      ensures SegOk(SegsOf(pieces)[i])
      ensures SegsOf(pieces)[i].Tag? ==>
        !HasPrefix(SegsOf(pieces)[i].body, "style") && LowerAll(SegsOf(pieces)[i].body) != "/head"
    {
      PieceOk(pieces[i]);
      if pieces[i].Markup? {
        TagTests(pieces[i].tag);
      }
    }
  }

  /** The first pass takes the style element out, with everything in it. */
  lemma StylePass(before: seq<Seg>, css: string, after: seq<Seg>)
    requires NoOpen(before, "style") && NoOpen(after, "style")
    ensures RemoveSegs(before + (StyleSegs(css) + after), "style", "/style") == before + after
  {
    hide HasPrefix, LowerAll, NoOpen, RemoveSegs;
    StyleTag();
    HeadTags("/style");
    assert StyleSegs(css) + after == [Tag("style")] + ([Txt(css)] + ([Tag("/style")] + after));
    SpanPass(before, "style", [Txt(css)], "/style", after, "style", "/style");
    RemoveNothing(after, "style", "/style");
  }

  lemma RemoveNothing(segs: seq<Seg>, open: string, close: string)
    requires NoOpen(segs, open)
    ensures RemoveSegs(segs, open, close) == segs
  {
    RemoveSegsAppend(segs, [], open, close);
    assert segs + [] == segs;
  }

  lemma PreambleOk()
    ensures SegsOk(PREAMBLE) && NoOpen(PREAMBLE, "style") && NoOpen(PREAMBLE, "head") && PlainSegs(PREAMBLE) == ""
  {
    hide HasPrefix, LowerAll, SegOk, PlainSeg;
    OuterTags("!DOCTYPE html");
    OuterTags("html");
    assert PREAMBLE[1..] == [Tag("html")] && PREAMBLE[1..][1..] == [];
  }

  /** The second pass takes the head out; the resume's own `header` tags survive, as no `/head` follows them. */
  lemma HeadPass(before: seq<Seg>, head: seq<Seg>, body: seq<Seg>)
    requires NoOpen(before, "head") && NoClose(head, "/head") && NoClose(body, "/head")
    ensures RemoveSegs(before + ([Tag("head")] + (head + ([Tag("/head")] + body))), "head", "/head") == before + body
  {
    hide HasPrefix, LowerAll, NoOpen, NoClose, RemoveSegs;
    HeadTags("/head");
    HeadHasPrefix();
    SpanPass(before, "head", head, "/head", body, "head", "/head");
    NoCloseNoSpan(body, "head", "/head");
  }

  lemma HeadHasPrefix()
    ensures HasPrefix("head", "head")
  {
    var head := "head";
    LowerPrefix(head, head);
  }

  lemma OuterSegs(name: string)
    requires Outer(name)
    ensures SegsOk([Tag(name)]) && NoOpen([Tag(name)], "style") && NoClose([Tag(name)], "/head")
  {
    hide HasPrefix, LowerAll, SegOk, Outer;
    OuterTags(name);
  }

  lemma BodyOk(resume: JsonResume)
    requires PiecesOk(Body(resume))
    ensures SegsOk(BodySegs(resume)) && NoOpen(BodySegs(resume), "style") && NoClose(BodySegs(resume), "/head")
  {
    hide SegsOk, NoOpen, NoClose, SegsOf, Body;
    var inner := SegsOf(Body(resume));
    BodyTags(Body(resume));
    OuterSegs("body");
    OuterSegs("/body");
    OuterSegs("/html");
    AppendOk([Tag("/body")], [Tag("/html")]);
    AppendOk([Tag("body")], inner);
    AppendOk([Tag("body")] + inner, [Tag("/body")] + [Tag("/html")]);
    assert [Tag("/body")] + [Tag("/html")] == [Tag("/body"), Tag("/html")];
  }

  lemma AppendOk(a: seq<Seg>, b: seq<Seg>)
    ensures SegsOk(a + b) <==> SegsOk(a) && SegsOk(b)
    ensures NoOpen(a + b, "style") <==> NoOpen(a, "style") && NoOpen(b, "style")
    ensures NoClose(a + b, "/head") <==> NoClose(a, "/head") && NoClose(b, "/head")
  {
    hide *;
    SegsOkAppend(a, b);
    NoOpenAppend(a, b, "style");
    NoCloseAppend(a, b, "/head");
  }

  lemma {:induction false} PlainSegsAppend(a: seq<Seg>, b: seq<Seg>)
    ensures PlainSegs(a + b) == PlainSegs(a) + PlainSegs(b)
  {
    hide PlainSeg, PlainSegs;
    if a == [] {
      assert a + b == b;
      PlainNothing();
    } else {
      PlainSegsAppend(a[1..], b);
      assert (a + b)[1..] == a[1..] + b && (a + b)[0] == a[0];
      PlainCons(a + b);
      PlainCons(a);
      ConcatAssoc(PlainSeg(a[0]), PlainSegs(a[1..]), PlainSegs(b));
    }
  }

  lemma PlainNothing()
    ensures PlainSegs([]) == ""
  {
  }

  lemma PlainCons(segs: seq<Seg>)
    requires segs != []
    ensures PlainSegs(segs) == PlainSeg(segs[0]) + PlainSegs(segs[1..])
  {
    hide PlainSeg;
  }

  lemma BodyPlain(resume: JsonResume)
    ensures PlainSegs(BodySegs(resume)) == PlainSegs(SegsOf(Body(resume)))
  {
    hide PlainSeg, SegsOf, Body;
    OuterTags("body");
    OuterTags("/body");
    OuterTags("/html");
    var inner := SegsOf(Body(resume));
    var end := [Tag("/body"), Tag("/html")];
    assert end[1..] == [Tag("/html")] && end[1..][1..] == [];
    PlainSegsAppend([Tag("body")] + inner, end);
    PlainSegsAppend([Tag("body")], inner);
    assert [Tag("body")][1..] == [];
  }

  /** Stripping the head, the style sheet and all tags of a document leaves the plain form of its body. */
  lemma StripDocument(resume: JsonResume, css: string)
    requires PiecesOk(Body(resume)) && '<' !in css
    ensures StripMarkup(Document(resume, css)) == PlainSegs(SegsOf(Body(resume)))
  {
    hide SegsOk, NoOpen, NoClose, BodySegs, HeadSegs, StyleSegs, Render, PlainSegs, StripMarkup, Escape, Body, SegsOf;
    var title := if resume.basics.name == "" then "Resume" else Escape(resume.basics.name);
    TitleOk(resume.basics.name);
    var head, style, body := HeadSegs(title), StyleSegs(css), BodySegs(resume);
    HeadOk(title);
    PreambleOk();
    BodyOk(resume);
    StripPasses(PREAMBLE, head, css, body);
    PlainSegsAppend(PREAMBLE, body);
    BodyPlain(resume);
  }

  lemma TitleOk(name: string)
    ensures '<' !in (if name == "" then "Resume" else Escape(name))
  {
    hide Escape;
    EscapeHasNoMarkup(name);
  }

  /** The fixed single tags around the head. */
  lemma HeadSegsOk(name: string)
    requires name in {"head", "/head", "/style"}
    ensures SegsOk([Tag(name)]) && NoOpen([Tag(name)], "style")
  {
    hide HasPrefix, LowerAll, SegOk;
    HeadTags(name);
  }

  lemma StyleOk(css: string)
    requires '<' !in css
    ensures SegsOk(StyleSegs(css))
  {
    StyleTag();
    HeadTags("/style");
  }

  lemma StripPasses(pre: seq<Seg>, head: seq<Seg>, css: string, body: seq<Seg>)
    requires SegsOk(pre) && SegsOk(head) && SegsOk(body) && '<' !in css
    requires NoOpen(pre, "style") && NoOpen(pre, "head") && NoOpen(head, "style") && NoOpen(body, "style")
    requires NoClose(head, "/head") && NoClose(body, "/head")
    ensures StripMarkup(Render(pre + ([Tag("head")] + (head + (StyleSegs(css) + ([Tag("/head")] + body))))))
      == PlainSegs(pre + body)
  {
    hide HasPrefix, LowerAll, SegsOk, NoOpen, NoClose, RemoveSegs, RemoveSpans, Render, PlainSegs, TagPasses, StyleSegs;
    var before, after := pre + ([Tag("head")] + head), [Tag("/head")] + body;
    var doc := before + (StyleSegs(css) + after);
    var doc2 := before + after;
    assert pre + ([Tag("head")] + (head + (StyleSegs(css) + after))) == doc;
    assert pre + ([Tag("head")] + (head + after)) == doc2;
    HeadSegsOk("head");
    HeadSegsOk("/head");
    StyleOk(css);
    AppendOk([Tag("head")], head);
    AppendOk(pre, [Tag("head")] + head);
    AppendOk([Tag("/head")], body);
    SegsOkAppend(StyleSegs(css), after);
    SegsOkAppend(before, StyleSegs(css) + after);
    SegsOkAppend(before, after);
    SegsOkAppend(pre, body);
    StylePass(before, css, after);
    HeadPass(pre, head, body);
    NamesAreOk();
    RemoveSpansSegs(doc, "style", "/style");
    RemoveSpansSegs(doc2, "head", "/head");
    TagPassesAre(pre + body);
    TokensAre();
  }

  lemma NamesAreOk()
    ensures NameOk("style") && NameOk("/style") && NameOk("head") && NameOk("/head")
  {
  }

  lemma TokensAre()
    ensures "<" + "style" == "<style" && "<" + "/style" + ">" == "</style>"
    ensures "<" + "head" == "<head" && "<" + "/head" + ">" == "</head>"
  {
  }
}
