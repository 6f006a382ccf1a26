/** The markup of a rendered resume is well nested: every tag is closed, by its own name, in reverse order. */
module ResumeMarkup {
  import opened Text
  import opened Html
  import opened Resume

  /** The names of the open tags after some pieces, the innermost last; None if a tag closes what is not open. */
  function OpenAfter(pieces: seq<Piece>, open: seq<string>): Option<seq<string>> {
    if pieces == [] then Some(open)
    else
      match pieces[0]
      case Markup(tag) =>
        var name := TagName(tag);
        if name == "" then None
        else if name[0] != '/' then OpenAfter(pieces[1..], open + [name])
        else if open != [] && open[|open| - 1] == name[1..] then OpenAfter(pieces[1..], open[..|open| - 1])
        else None
      case _ => OpenAfter(pieces[1..], open)
  }

  /** Whatever is open before the pieces is open after them. */
  ghost predicate Nested(pieces: seq<Piece>) { forall open :: OpenAfter(pieces, open) == Some(open) }

  lemma {:induction false} OpenAfterAppend(a: seq<Piece>, b: seq<Piece>, open: seq<string>)
    requires OpenAfter(a, open).Some?
    ensures OpenAfter(a + b, open) == OpenAfter(b, OpenAfter(a, open).value)
  {
    hide TagName;
    if a == [] {
      assert a + b == b;
    } else {
      assert (a + b)[0] == a[0] && (a + b)[1..] == a[1..] + b;
      match a[0]
      case Markup(tag) =>
        OpenAfterAppend(a[1..], b, if TagName(tag)[0] != '/' then open + [TagName(tag)] else open[..|open| - 1]);
      case _ => OpenAfterAppend(a[1..], b, open);
    }
  }

  lemma NestedAppend(a: seq<Piece>, b: seq<Piece>)
    requires Nested(a) && Nested(b)
    ensures Nested(a + b)
  {
    hide OpenAfter;
    forall open ensures OpenAfter(a + b, open) == Some(open) {
      OpenAfterAppend(a, b, open);
    }
  }

  lemma TextNested(pieces: seq<Piece>)
    requires |pieces| <= 3 && forall i :: 0 <= i < |pieces| ==> !pieces[i].Markup?
    ensures Nested(pieces)
  {
    if |pieces| > 0 {
      TextNested(pieces[1..]);
    }
  }

  /** The closing tag has the name of the opening one. */
  predicate Pair(open: HtmlTag, close: HtmlTag) {
    TagName(open) != "" && TagName(open)[0] != '/' && TagName(close) == "/" + TagName(open)
  }

  lemma Pairs()
    ensures Pair(HeaderOpen, HeaderClose) && Pair(H1Open, H1Close) && Pair(UlOpen, UlClose) && Pair(LiOpen, LiClose)
    ensures Pair(SectionOpen, SectionClose) && Pair(H2Open, H2Close) && Pair(EntryOpen, DivClose)
    ensures Pair(LabelOpen, PClose) && Pair(ContactsOpen, PClose) && Pair(SummaryOpen, PClose) && Pair(POpen, PClose)
    ensures Pair(EntryTitleOpen, PClose) && Pair(EntryMetaOpen, PClose)
  {
  }

  lemma Around(open: HtmlTag, inner: seq<Piece>, close: HtmlTag)
    requires Nested(inner) && Pair(open, close)
    ensures Nested([Markup(open)] + inner + [Markup(close)])
  {
    hide OpenAfter;
    forall stack ensures OpenAfter([Markup(open)] + inner + [Markup(close)], stack) == Some(stack) {
      OpensTag(open, stack);
      assert [Markup(open)] + inner + [Markup(close)] == [Markup(open)] + (inner + [Markup(close)]);
      OpenAfterAppend([Markup(open)], inner + [Markup(close)], stack);
      OpenAfterAppend(inner, [Markup(close)], stack + [TagName(open)]);
      ClosesTag(open, close, stack);
    }
  }

  lemma OpensTag(open: HtmlTag, stack: seq<string>)
    requires TagName(open) != "" && TagName(open)[0] != '/'
    ensures OpenAfter([Markup(open)], stack) == Some(stack + [TagName(open)])
  {
    hide TagName;
    assert OpenAfter([], stack + [TagName(open)]) == Some(stack + [TagName(open)]);
  }

  lemma ClosesTag(open: HtmlTag, close: HtmlTag, stack: seq<string>)
    requires Pair(open, close)
    ensures OpenAfter([Markup(close)], stack + [TagName(open)]) == Some(stack)
  {
    hide TagName;
    var all := stack + [TagName(open)];
    assert TagName(close)[1..] == TagName(open) && all[..|stack|] == stack;
    assert OpenAfter([], stack) == Some(stack);
  }

  lemma WrapNested(open: HtmlTag, inner: seq<Piece>, close: HtmlTag)
    requires Nested(inner) && Pair(open, close)
    ensures Nested(Wrap(open, inner, close))
  {
    hide Nested, Pair;
    if inner != [] {
      Around(open, inner, close);
    }
  }

  // ---------------------------------------------------------------- block by block

  ghost predicate AllNested(parts: seq<seq<Piece>>) { forall i :: 0 <= i < |parts| ==> Nested(parts[i]) }

  lemma {:induction false} JoinNested(sep: string, parts: seq<seq<Piece>>)
    requires AllNested(parts)
    ensures Nested(JoinPieces(sep, parts))
  {
    hide Nested;
    if parts == [] {
      TextNested([]);
    } else if |parts| > 1 {
      JoinNested(sep, parts[1..]);
      TextNested([Sep(sep)]);
      NestedAppend(parts[0], [Sep(sep)]);
      NestedAppend(parts[0] + [Sep(sep)], JoinPieces(sep, parts[1..]));
    }
  }

  lemma {:induction false} FlatNested(parts: seq<seq<Piece>>)
    requires AllNested(parts)
    ensures Nested(Flat(parts))
  {
    hide Nested;
    if parts == [] {
      TextNested([]);
    } else {
      FlatNested(parts[1..]);
      NestedAppend(parts[0], Flat(parts[1..]));
    }
  }

  lemma {:induction false} ItemsNested(items: seq<seq<Piece>>)
    requires AllNested(items)
    ensures Nested(ListItems(items))
  {
    hide Nested, Pair;
    if items == [] {
      TextNested([]);
    } else {
      Pairs();
      ItemsNested(items[1..]);
      Around(LiOpen, items[0], LiClose);
      NestedAppend([Markup(LiOpen)] + items[0] + [Markup(LiClose)], ListItems(items[1..]));
    }
  }

  lemma {:induction false} NonEmptyNested(texts: seq<string>)
    ensures AllNested(NonEmpty(texts))
  {
    hide Nested;
    if texts != [] {
      NonEmptyNested(texts[1..]);
      TextNested([Raw(texts[0])]);
    }
  }

  lemma {:induction false} ProfilesNested(profiles: seq<SocialProfile>)
    ensures AllNested(ProfileContacts(profiles))
  {
    hide Nested;
    if profiles != [] {
      var p := profiles[0];
      ProfilesNested(profiles[1..]);
      TextNested([if p.network == "" then Sep("Profile") else Raw(p.network), Sep(": "), Raw(p.url)]);
    }
  }

  lemma LocationNested(location: Location)
    ensures AllNested(LocationContact(location))
  {
    hide Nested, NonEmpty, JoinPieces;
    match location
    case Address(parts) =>
      NonEmptyNested(parts);
      JoinNested(", ", NonEmpty(parts));
    case Place(text) => NonEmptyNested([text]);
  }

  lemma FieldNested(open: HtmlTag, text: string, close: HtmlTag)
    requires Pair(open, close)
    ensures Nested(Wrap(open, Field(text), close))
  {
    hide Nested, Wrap;
    TextNested(Field(text));
    WrapNested(open, Field(text), close);
  }

  lemma BasicsNested(b: Basics)
    ensures Nested(BasicsBlock(b))
  {
    hide Nested, Wrap, JoinPieces, NonEmpty, LocationContact, ProfileContacts, Pair;
    Pairs();
    var contacts := NonEmpty([b.email, b.phone, b.url]) + LocationContact(b.location) + ProfileContacts(b.profiles);
    NonEmptyNested([b.email, b.phone, b.url]);
    LocationNested(b.location);
    ProfilesNested(b.profiles);
    JoinNested(" \U{b7} ", contacts);
    FieldNested(H1Open, b.name, H1Close);
    FieldNested(LabelOpen, b.title, PClose);
    WrapNested(ContactsOpen, JoinPieces(" \U{b7} ", contacts), PClose);
    FieldNested(SummaryOpen, b.summary, PClose);
    var p1, p2 := Wrap(H1Open, Field(b.name), H1Close), Wrap(LabelOpen, Field(b.title), PClose);
    var p3, p4 := Wrap(ContactsOpen, JoinPieces(" \U{b7} ", contacts), PClose),
        Wrap(SummaryOpen, Field(b.summary), PClose);
    NestedAppend(p1, p2);
    NestedAppend(p1 + p2, p3);
    NestedAppend(p1 + p2 + p3, p4);
    Around(HeaderOpen, p1 + p2 + p3 + p4, HeaderClose);
    assert [Markup(HeaderOpen)] + p1 + p2 + p3 + p4 == [Markup(HeaderOpen)] + (p1 + p2 + p3 + p4);
  }

  lemma HighlightsNested(items: seq<string>)
    ensures Nested(Highlights(items))
  {
    hide Nested, Wrap, ListItems, NonEmpty, Pair;
    Pairs();
    NonEmptyNested(items);
    ItemsNested(NonEmpty(items));
    WrapNested(UlOpen, ListItems(NonEmpty(items)), UlClose);
  }

  /** Up to four nested parts in an entry. */
  lemma EntryNested(a: seq<Piece>, b: seq<Piece>, c: seq<Piece>, d: seq<Piece>)
    requires Nested(a) && Nested(b) && Nested(c) && Nested(d)
    ensures Nested([Markup(EntryOpen)] + a + b + c + d + [Markup(DivClose)])
  {
    hide Nested, Pair;
    Pairs();
    NestedAppend(a, b);
    NestedAppend(a + b, c);
    NestedAppend(a + b + c, d);
    Around(EntryOpen, a + b + c + d, DivClose);
    assert [Markup(EntryOpen)] + a + b + c + d == [Markup(EntryOpen)] + (a + b + c + d);
  }

  lemma DatesNested(start: string, end: string)
    ensures Nested(Wrap(EntryMetaOpen, DateRange(start, end), PClose))
  {
    hide Nested, Wrap, Pair;
    Pairs();
    TextNested(DateRange(start, end));
    WrapNested(EntryMetaOpen, DateRange(start, end), PClose);
  }

  lemma WorkNested(w: WorkItem)
    ensures Nested(WorkEntry(w))
  {
    hide Nested, Wrap, JoinPieces, NonEmpty, DateRange, Highlights, Pair;
    Pairs();
    var texts := [w.position, if w.name != "" then w.name else w.company];
    NonEmptyNested(texts);
    JoinNested(" \U{2014} ", NonEmpty(texts));
    WrapNested(EntryTitleOpen, JoinPieces(" \U{2014} ", NonEmpty(texts)), PClose);
    DatesNested(w.startDate, w.endDate);
    FieldNested(POpen, w.summary, PClose);
    HighlightsNested(w.highlights);
    EntryNested(Wrap(EntryTitleOpen, JoinPieces(" \U{2014} ", NonEmpty(texts)), PClose),
      Wrap(EntryMetaOpen, DateRange(w.startDate, w.endDate), PClose), Wrap(POpen, Field(w.summary), PClose),
      Highlights(w.highlights));
  }

  lemma EducationNested(e: EducationItem)
    ensures Nested(EducationEntry(e))
  {
    hide Nested, Wrap, JoinPieces, NonEmpty, DateRange, Pair;
    Pairs();
    var study := JoinPieces(" ", NonEmpty([e.studyType, e.area]));
    var parts := (if study == [] then [] else [study]) + NonEmpty([e.institution]);
    NonEmptyNested([e.studyType, e.area]);
    JoinNested(" ", NonEmpty([e.studyType, e.area]));
    NonEmptyNested([e.institution]);
    JoinNested(" \U{2014} ", parts);
    WrapNested(EntryTitleOpen, JoinPieces(" \U{2014} ", parts), PClose);
    DatesNested(e.startDate, e.endDate);
    TextNested([]);
    var a, b := Wrap(EntryTitleOpen, JoinPieces(" \U{2014} ", parts), PClose),
        Wrap(EntryMetaOpen, DateRange(e.startDate, e.endDate), PClose);
    EntryNested(a, b, [], []);
    assert [Markup(EntryOpen)] + a + b + [] + [] == [Markup(EntryOpen)] + a + b;
  }

  lemma {:induction false} SkillsNested(skills: seq<Skill>)
    ensures AllNested(Flat(Map(SkillItem, skills)))
  {
    hide Nested, SkillItem;
    if skills != [] {
      SkillNested(skills[0]);
      SkillsNested(skills[1..]);
      assert Map(SkillItem, skills) == [SkillItem(skills[0])] + Map(SkillItem, skills[1..]);
      FlatCons(SkillItem(skills[0]), Map(SkillItem, skills[1..]));
    }
  }

  lemma SkillNested(s: Skill)
    ensures AllNested(SkillItem(s))
  {
    hide Nested, NonEmpty, JoinPieces;
    if s.keywords != [] {
      NonEmptyNested(s.keywords);
      JoinNested(", ", NonEmpty(s.keywords));
      TextNested([Raw(s.name), Sep(": ")]);
      NestedAppend([Raw(s.name), Sep(": ")], JoinPieces(", ", NonEmpty(s.keywords)));
    } else {
      NonEmptyNested([s.name]);
    }
  }

  lemma ProjectNested(p: Project)
    ensures Nested(ProjectEntry(p))
  {
    hide Nested, Wrap, Highlights, Pair;
    Pairs();
    FieldNested(EntryTitleOpen, p.name, PClose);
    FieldNested(POpen, p.description, PClose);
    HighlightsNested(p.highlights);
    TextNested([]);
    var a, b, c := Wrap(EntryTitleOpen, Field(p.name), PClose), Wrap(POpen, Field(p.description), PClose),
        Highlights(p.highlights);
    EntryNested(a, b, c, []);
    assert [Markup(EntryOpen)] + a + b + c + [] == [Markup(EntryOpen)] + a + b + c;
  }

  lemma EntriesNested<A>(entry: A -> seq<Piece>, items: seq<A>)
    requires forall i :: 0 <= i < |items| ==> Nested(entry(items[i]))
    ensures Nested(Flat(Map(entry, items)))
  {
    hide Nested;
    FlatNested(Map(entry, items));
  }

  lemma SectionNested(title: string, body: seq<Piece>)
    requires Nested(body)
    ensures Nested(Section(title, body))
  {
    hide Nested, Pair;
    Pairs();
    TextNested([Sep(title)]);
    Around(H2Open, [Sep(title)], H2Close);
    var heading := [Markup(H2Open)] + [Sep(title)] + [Markup(H2Close)];
    NestedAppend(heading, body);
    Around(SectionOpen, heading + body, SectionClose);
    assert [Markup(SectionOpen), Markup(H2Open), Sep(title), Markup(H2Close)] + body
      == [Markup(SectionOpen)] + (heading + body);
    TextNested([]);
  }

  /** The whole body is well nested. */
  lemma BodyNested(r: JsonResume)
    ensures Nested(Body(r))
  {
    hide Nested, Section, BasicsBlock, WorkEntry, EducationEntry, SkillItem, ProjectEntry, Wrap, ListItems, Pair;
    Pairs();
    BasicsNested(r.basics);
    forall i | 0 <= i < |r.work| ensures Nested(WorkEntry(r.work[i])) {
      WorkNested(r.work[i]);
    }
    forall i | 0 <= i < |r.education| ensures Nested(EducationEntry(r.education[i])) {
      EducationNested(r.education[i]);
    }
    forall i | 0 <= i < |r.projects| ensures Nested(ProjectEntry(r.projects[i])) {
      ProjectNested(r.projects[i]);
    }
    EntriesNested(WorkEntry, r.work);
    EntriesNested(EducationEntry, r.education);
    EntriesNested(ProjectEntry, r.projects);
    var items := Flat(Map(SkillItem, r.skills));
    SkillsNested(r.skills);
    ItemsNested(items);
    WrapNested(UlOpen, ListItems(items), UlClose);
    var a, b := Section("Experience", Flat(Map(WorkEntry, r.work))),
        Section("Education", Flat(Map(EducationEntry, r.education)));
    var c, d := Section("Skills", Wrap(UlOpen, ListItems(items), UlClose)),
        Section("Projects", Flat(Map(ProjectEntry, r.projects)));
    SectionNested("Experience", Flat(Map(WorkEntry, r.work)));
    SectionNested("Education", Flat(Map(EducationEntry, r.education)));
    SectionNested("Skills", Wrap(UlOpen, ListItems(items), UlClose));
    SectionNested("Projects", Flat(Map(ProjectEntry, r.projects)));
    NestedAppend(a, b);
    NestedAppend(a + b, c);
    NestedAppend(a + b + c, d);
    NestedAppend(BasicsBlock(r.basics), a + b + c + d);
  }

  // ---------------------------------------------------------------- the whole document

  /** The name of a tag: its text up to the first blank. */
  function SegName(body: string): string {
    if body == "" || body[0] == ' ' then "" else [body[0]] + SegName(body[1..])
  }

  /** Tags without an end. */
  predicate Void(name: string) { name == "meta" || name == "!DOCTYPE" }

  /** The names of the open tags after some segments of a document. */
  function OpenIn(segs: seq<Seg>, open: seq<string>): Option<seq<string>> {
    if segs == [] then Some(open)
    else
      match segs[0]
      case Txt(_) => OpenIn(segs[1..], open)
      case Tag(body) =>
        var name := SegName(body);
        if Void(name) then OpenIn(segs[1..], open)
        else if name == "" then None
        else if name[0] != '/' then OpenIn(segs[1..], open + [name])
        else if open != [] && open[|open| - 1] == name[1..] then OpenIn(segs[1..], open[..|open| - 1])
        else None
  }

  lemma {:induction false} NameFirst(name: string, rest: string)
    requires ' ' !in name && (rest == "" || rest[0] == ' ')
    ensures SegName(name + rest) == name
  {
    if name == "" {
      assert name + rest == rest;
    } else {
      NameFirst(name[1..], rest);
      assert (name + rest)[1..] == name[1..] + rest;
    }
  }

  lemma PlainNames(tag: HtmlTag)
    ensures ' ' !in TagName(tag) && !Void(TagName(tag))
  {
  }

  lemma NameOfTag(tag: HtmlTag)
    ensures SegName(TagBody(tag)) == TagName(tag)
  {
    hide TagName, TagClass;
    PlainNames(tag);
    NameFirst(TagName(tag), if TagClass(tag) == "" then "" else " class=\"" + TagClass(tag) + "\"");
  }

  lemma {:induction false} OpenInPieces(pieces: seq<Piece>, open: seq<string>)
    ensures OpenIn(SegsOf(pieces), open) == OpenAfter(pieces, open)
  {
    hide TagName, TagBody, SegName, Void, Escape;
    if pieces != [] {
      assert SegsOf(pieces)[0] == PieceSeg(pieces[0]) && SegsOf(pieces)[1..] == SegsOf(pieces[1..]);
      match pieces[0]
      case Markup(tag) =>
        NameOfTag(tag);
        PlainNames(tag);
        OpenInPieces(pieces[1..], open + [TagName(tag)]);
        if open != [] {
          OpenInPieces(pieces[1..], open[..|open| - 1]);
        }
      case _ => OpenInPieces(pieces[1..], open);
    }
  }

  lemma {:induction false} OpenInAppend(a: seq<Seg>, b: seq<Seg>, open: seq<string>)
    requires OpenIn(a, open).Some?
    ensures OpenIn(a + b, open) == OpenIn(b, OpenIn(a, open).value)
  {
    hide SegName, Void;
    if a == [] {
      assert a + b == b;
    } else {
      assert (a + b)[0] == a[0] && (a + b)[1..] == a[1..] + b;
      match a[0]
      case Txt(_) => OpenInAppend(a[1..], b, open);
      case Tag(body) =>
        var name := SegName(body);
        OpenInAppend(a[1..], b,
          if Void(name) then open else if name[0] != '/' then open + [name] else open[..|open| - 1]);
    }
  }

  lemma StartOpens()
    ensures OpenIn(PREAMBLE, []) == Some(["html"]) && OpenIn([Tag("head")], ["html"]) == Some(["html", "head"])
  {
    NamesOfFixedTags();
    hide SegName;
    assert OpenIn([Tag("html")], []) == Some(["html"]) by {
      assert [] + ["html"] == ["html"] && OpenIn([], ["html"]) == Some(["html"]);
    }
    assert PREAMBLE[1..] == [Tag("html")];
    assert ["html"] + ["head"] == ["html", "head"] && OpenIn([], ["html", "head"]) == Some(["html", "head"]);
  }

  lemma NamesOfFixedTags()
    ensures SegName("!DOCTYPE html") == "!DOCTYPE" && SegName("html") == "html" && SegName("head") == "head"
    ensures SegName("meta charset=\"utf-8\"") == "meta" && SegName("title") == "title" && SegName("/title") == "/title"
    ensures SegName("style") == "style" && SegName("/style") == "/style" && SegName("/head") == "/head"
    ensures SegName("body") == "body" && SegName("/body") == "/body" && SegName("/html") == "/html"
  {
    hide SegName;
    FixedName("!DOCTYPE", " html");
    FixedName("meta", " charset=\"utf-8\"");
    FixedName("html", "");
    FixedName("head", "");
    FixedName("title", "");
    FixedName("/title", "");
    FixedName("style", "");
    FixedName("/style", "");
    FixedName("/head", "");
    FixedName("body", "");
    FixedName("/body", "");
    FixedName("/html", "");
    assert "!DOCTYPE" + " html" == "!DOCTYPE html" && "meta" + " charset=\"utf-8\"" == "meta charset=\"utf-8\"";
  }

  lemma FixedName(name: string, rest: string)
    requires ' ' !in name && (rest == "" || rest[0] == ' ')
    ensures SegName(name + rest) == name && (rest == "" ==> SegName(name) == name)
  {
    hide SegName;
    NameFirst(name, rest);
    assert rest == "" ==> name + rest == name;
  }

  /** Opening a tag, some text and closing it again. */
  lemma ElementCloses(name: string, text: string, open: seq<string>)
    requires name != "" && name[0] != '/' && !Void(name) && !Void("/" + name)
    requires SegName(name) == name && SegName("/" + name) == "/" + name
    ensures OpenIn([Tag(name), Txt(text), Tag("/" + name)], open) == Some(open)
  {
    hide SegName, Void;
    var all, segs := open + [name], [Tag(name), Txt(text), Tag("/" + name)];
    assert all[..|open|] == open && ("/" + name)[1..] == name;
    assert OpenIn([], open) == Some(open);
    assert OpenIn([Tag("/" + name)], all) == Some(open);
    assert segs[1..][1..] == [Tag("/" + name)] && segs[1..][0] == Txt(text);
    assert OpenIn(segs[1..], all) == Some(open);
  }

  lemma HeadCloses(title: string, css: string)
    ensures OpenIn(HeadSegs(title), ["html", "head"]) == Some(["html", "head"])
    ensures OpenIn(StyleSegs(css), ["html", "head"]) == Some(["html", "head"])
    ensures OpenIn([Tag("/head")], ["html", "head"]) == Some(["html"])
    ensures OpenIn([Tag("body")], ["html"]) == Some(["html", "body"])
    ensures OpenIn([Tag("/body"), Tag("/html")], ["html", "body"]) == Some([])
  {
    NamesOfFixedTags();
    hide SegName;
    var open := ["html", "head"];
    assert "/" + "title" == "/title" && "/" + "style" == "/style";
    ElementCloses("title", title, open);
    ElementCloses("style", css, open);
    assert HeadSegs(title)[1..] == [Tag("title"), Txt(title), Tag("/title")];
    assert "/" + "head" == "/head" && "/" + "body" == "/body" && "/" + "html" == "/html";
    ClosesLast("head", ["html"]);
    ClosesLast("body", ["html"]);
    ClosesLast("html", []);
    assert ["html"] + ["head"] == open && ["html"] + ["body"] == ["html", "body"] && [] + ["html"] == ["html"];
    assert [Tag("/body"), Tag("/html")] == [Tag("/body")] + [Tag("/html")];
    OpenInAppend([Tag("/body")], [Tag("/html")], ["html", "body"]);
    assert OpenIn([], ["html", "body"]) == Some(["html", "body"]);
  }

  lemma ClosesLast(name: string, open: seq<string>)
    requires SegName("/" + name) == "/" + name && !Void("/" + name)
    ensures OpenIn([Tag("/" + name)], open + [name]) == Some(open)
  {
    hide SegName, Void;
    assert (open + [name])[..|open|] == open && ("/" + name)[1..] == name;
    assert OpenIn([], open) == Some(open);
  }

  /** The segments of the whole document. */
  function DocumentSegs(r: JsonResume, css: string): seq<Seg> {
    var title := if r.basics.name == "" then "Resume" else Escape(r.basics.name);
    PREAMBLE + ([Tag("head")] + (HeadSegs(title) + (StyleSegs(css) + ([Tag("/head")] + BodySegs(r)))))
  }

  /** The document is well nested, from its first tag to its last: nothing is left open. */
  lemma DocumentNested(r: JsonResume, css: string)
    ensures Document(r, css) == Render(DocumentSegs(r, css)) && OpenIn(DocumentSegs(r, css), []) == Some([])
  {
    hide OpenIn, Render, HeadSegs, StyleSegs, Body, Escape, SegsOf, Nested;
    var title := if r.basics.name == "" then "Resume" else Escape(r.basics.name);
    StartOpens();
    HeadCloses(title, css);
    var open := ["html", "body"];
    BodyNested(r);
    NestedThere(Body(r), open);
    OpenInPieces(Body(r), open);
    var body := SegsOf(Body(r));
    OpenInAppend(body, [Tag("/body"), Tag("/html")], open);
    OpenInAppend([Tag("body")], body + [Tag("/body"), Tag("/html")], ["html"]);
    assert BodySegs(r) == [Tag("body")] + (body + [Tag("/body"), Tag("/html")]);
    var s5 := [Tag("/head")] + BodySegs(r);
    OpenInAppend([Tag("/head")], BodySegs(r), ["html", "head"]);
    OpenInAppend(StyleSegs(css), s5, ["html", "head"]);
    OpenInAppend(HeadSegs(title), StyleSegs(css) + s5, ["html", "head"]);
    OpenInAppend([Tag("head")], HeadSegs(title) + (StyleSegs(css) + s5), ["html"]);
    OpenInAppend(PREAMBLE, [Tag("head")] + (HeadSegs(title) + (StyleSegs(css) + s5)), []);
  }

  lemma NestedThere(pieces: seq<Piece>, open: seq<string>)
    requires Nested(pieces)
    ensures OpenAfter(pieces, open) == Some(open)
  {
  }
}
