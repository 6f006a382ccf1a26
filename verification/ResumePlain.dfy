/** The plain text of a resume, written down without any markup, and the proof that the renderer's is the same. */
module ResumePlain {
  import opened Text
  import opened Resume
  import opened ResumeText

  // ---------------------------------------------------------------- the text, straight from the data

  /** A line of its own, unless there is nothing to say. */
  function Line(text: string): string { if text == "" then "" else text + "\n" }

  function LocationTexts(location: Location): seq<string> {
    match location
    case Address(parts) => Keep([Join(", ", Keep(parts))])
    case Place(text) => Keep([text])
  }

  function ProfileTexts(profiles: seq<SocialProfile>): seq<string> {
    if profiles == [] then []
    else
      var p := profiles[0];
      (if p.url == "" then [] else [(if p.network == "" then "Profile" else p.network) + ": " + p.url])
      + ProfileTexts(profiles[1..])
  }

  /** Name, label, contacts and summary, then an empty line. */
  function BasicsText(b: Basics): string {
    var contacts := Keep([b.email, b.phone, b.url]) + LocationTexts(b.location) + ProfileTexts(b.profiles);
    Line(b.name) + Line(b.title) + Line(Join(" \U{b7} ", contacts)) + Line(b.summary) + "\n"
  }

  function DatesText(start: string, end: string): string {
    (if start == "" then "" else start + " \U{2013} ") + if end == "" then "Present" else end
  }

  function Bullet(text: string): string { "\U{2022} " + text + "\n" }

  function BulletsText(texts: seq<string>): string { if texts == [] then "" else Flat(Map(Bullet, texts)) + "\n" }

  function WorkText(w: WorkItem): string {
    Line(Join(" \U{2014} ", Keep([w.position, if w.name != "" then w.name else w.company])))
    + Line(DatesText(w.startDate, w.endDate)) + Line(w.summary) + BulletsText(Keep(w.highlights)) + "\n"
  }

  function EducationText(e: EducationItem): string {
    Line(Join(" \U{2014} ", Keep([Join(" ", Keep([e.studyType, e.area])), e.institution])))
    + Line(DatesText(e.startDate, e.endDate)) + "\n"
  }

  /** A skill with keywords is an item even when all of them are empty. */
  function SkillTexts(s: Skill): seq<string> {
    if s.keywords != [] then [(if s.name == "" then "" else s.name + ": ") + Join(", ", Keep(s.keywords))]
    else Keep([s.name])
  }

  function ProjectText(p: Project): string {
    Line(p.name) + Line(p.description) + BulletsText(Keep(p.highlights)) + "\n"
  }

  /** A heading, the entries and an empty line, or nothing without entries. */
  function SectionText(title: string, text: string): string { if text == "" then "" else title + "\n" + text + "\n" }

  function PlainResume(r: JsonResume): string {
    BasicsText(r.basics)
    + (SectionText("Experience", Flat(Map(WorkText, r.work)))
    + SectionText("Education", Flat(Map(EducationText, r.education)))
    + SectionText("Skills", BulletsText(Flat(Map(SkillTexts, r.skills))))
    + SectionText("Projects", Flat(Map(ProjectText, r.projects))))
  }

  // ---------------------------------------------------------------- plain text of composed pieces

  lemma PlainCons(piece: Piece, rest: seq<Piece>)
    ensures PlainText([piece] + rest) == PlainPiece(piece) + PlainText(rest)
  {
    hide PlainPiece;
    assert ([piece] + rest)[1..] == rest;
  }

  lemma {:induction false} PlainAppend(a: seq<Piece>, b: seq<Piece>)
    ensures PlainText(a + b) == PlainText(a) + PlainText(b)
  {
    hide PlainPiece, PlainText;
    if a == [] {
      assert a + b == b;
      NothingPlain();
      assert "" + PlainText(b) == PlainText(b);
    } else {
      PlainAppend(a[1..], b);
      PlainCons(a[0], a[1..]);
      PlainCons(a[0], a[1..] + b);
      assert [a[0]] + a[1..] == a && [a[0]] + (a[1..] + b) == a + b;
      ConcatAssoc(PlainPiece(a[0]), PlainText(a[1..]), PlainText(b));
    }
  }

  lemma PlainOne(piece: Piece)
    ensures PlainText([piece]) == PlainPiece(piece)
  {
    hide PlainPiece;
    assert PlainText([piece]) == PlainPiece(piece) + PlainText([]);
  }

  lemma {:induction false} PlainJoin(sep: string, parts: seq<seq<Piece>>)
    ensures PlainText(JoinPieces(sep, parts)) == Join(sep, Map(PlainText, parts))
  {
    if parts == [] {
      assert Map(PlainText, parts) == [];
    } else if |parts| == 1 {
      assert Map(PlainText, parts) == [PlainText(parts[0])];
    } else {
      PlainJoin(sep, parts[1..]);
      assert Map(PlainText, parts)[1..] == Map(PlainText, parts[1..]);
      PlainAppend(parts[0] + [Sep(sep)], JoinPieces(sep, parts[1..]));
      PlainAppend(parts[0], [Sep(sep)]);
      PlainOne(Sep(sep));
    }
  }

  lemma {:induction false} PlainNonEmpty(texts: seq<string>)
    ensures Map(PlainText, NonEmpty(texts)) == Keep(texts) && |NonEmpty(texts)| == |Keep(texts)|
  {
    if texts != [] {
      PlainNonEmpty(texts[1..]);
      PlainOne(Raw(texts[0]));
      if texts[0] != "" {
        assert Map(PlainText, NonEmpty(texts)) == [PlainText([Raw(texts[0])])] + Map(PlainText, NonEmpty(texts[1..]));
      }
    }
  }

  lemma MapAppend<A, B>(f: A -> B, a: seq<A>, b: seq<A>)
    ensures Map(f, a + b) == Map(f, a) + Map(f, b)
  {
  }

  predicate Said(texts: seq<string>) { forall i :: 0 <= i < |texts| ==> texts[i] != "" }

  lemma {:induction false} KeepSaid(texts: seq<string>)
    ensures Said(Keep(texts))
  {
    if texts != [] {
      KeepSaid(texts[1..]);
    }
  }

  lemma JoinSaid(sep: string, texts: seq<string>)
    requires Said(texts)
    ensures Join(sep, texts) == "" <==> texts == []
  {
  }

  /** A paragraph is a line of its own. */
  lemma PlainWrap(open: HtmlTag, inner: seq<Piece>, close: HtmlTag)
    requires open != LiOpen && !IsClose(open) && IsClose(close) && (inner == [] <==> PlainText(inner) == "")
    ensures PlainText(Wrap(open, inner, close)) == Line(PlainText(inner))
  {
    if inner != [] {
      PlainAppend([Markup(open)] + inner, [Markup(close)]);
      PlainAppend([Markup(open)], inner);
      PlainOne(Markup(open));
      PlainOne(Markup(close));
    }
  }

  lemma PlainField(open: HtmlTag, text: string, close: HtmlTag)
    requires open != LiOpen && !IsClose(open) && IsClose(close)
    ensures PlainText(Wrap(open, Field(text), close)) == Line(text)
  {
    hide Wrap, Line;
    PlainOne(Raw(text));
    assert PlainText([]) == "";
    PlainWrap(open, Field(text), close);
  }

  /** Joined texts of which none is empty. */
  lemma PlainJoined(open: HtmlTag, sep: string, parts: seq<seq<Piece>>, texts: seq<string>, close: HtmlTag)
    requires open != LiOpen && !IsClose(open) && IsClose(close)
    requires Map(PlainText, parts) == texts && Said(texts) && |parts| == |texts|
    ensures PlainText(Wrap(open, JoinPieces(sep, parts), close)) == Line(Join(sep, texts))
  {
    hide Wrap, Line, Join, JoinPieces;
    PlainJoin(sep, parts);
    JoinSaid(sep, texts);
    SomePieces(sep, parts);
    PlainWrap(open, JoinPieces(sep, parts), close);
  }

  lemma SomePieces(sep: string, parts: seq<seq<Piece>>)
    requires Said(Map(PlainText, parts))
    ensures JoinPieces(sep, parts) == [] <==> parts == []
  {
    if parts != [] {
      assert Map(PlainText, parts)[0] == PlainText(parts[0]) != "";
    }
  }

  // ---------------------------------------------------------------- block by block

  lemma KeepOne(text: string)
    ensures Keep([text]) == if text == "" then [] else [text]
  {
  }

  lemma PlainLocation(location: Location)
    ensures Map(PlainText, LocationContact(location)) == LocationTexts(location)
    ensures Said(LocationTexts(location))
  {
    hide JoinPieces, Join, NonEmpty, PlainText, Keep;
    match location
    case Address(parts) =>
      KeepOne(Join(", ", Keep(parts)));
      PlainJoin(", ", NonEmpty(parts));
      PlainNonEmpty(parts);
      KeepSaid(parts);
      JoinSaid(", ", Keep(parts));
    case Place(text) =>
      PlainNonEmpty([text]);
      KeepSaid([text]);
  }

  lemma {:induction false} PlainProfiles(profiles: seq<SocialProfile>)
    ensures Map(PlainText, ProfileContacts(profiles)) == ProfileTexts(profiles) && Said(ProfileTexts(profiles))
  {
    if profiles != [] {
      var p := profiles[0];
      PlainProfiles(profiles[1..]);
      if p.url != "" {
        var network := if p.network == "" then Sep("Profile") else Raw(p.network);
        PlainProfile(network, p.url);
        assert Map(PlainText, ProfileContacts(profiles))
          == [PlainText([network, Sep(": "), Raw(p.url)])] + Map(PlainText, ProfileContacts(profiles[1..]));
      }
    }
  }

  lemma PlainProfile(network: Piece, url: string)
    requires !network.Markup?
    ensures PlainText([network, Sep(": "), Raw(url)]) == network.text + ": " + url
  {
    PlainAppend([network, Sep(": ")], [Raw(url)]);
    PlainAppend([network], [Sep(": ")]);
    PlainOne(network);
    PlainOne(Sep(": "));
    PlainOne(Raw(url));
    assert [network, Sep(": ")] + [Raw(url)] == [network, Sep(": "), Raw(url)];
    assert [network] + [Sep(": ")] == [network, Sep(": ")];
  }

  lemma PlainBasics(b: Basics)
    ensures PlainText(BasicsBlock(b)) == BasicsText(b)
  {
    hide PlainText, Wrap, JoinPieces, Join, Line, NonEmpty, Keep, LocationContact, LocationTexts, ProfileContacts,
      ProfileTexts, Map, Said, PlainPiece;
    var three := [b.email, b.phone, b.url];
    var c1, c2, c3 := NonEmpty(three), LocationContact(b.location), ProfileContacts(b.profiles);
    var t1, t2, t3 := Keep(three), LocationTexts(b.location), ProfileTexts(b.profiles);
    PlainNonEmpty(three);
    KeepSaid(three);
    PlainLocation(b.location);
    PlainProfiles(b.profiles);
    ThreeLists(c1, c2, c3, t1, t2, t3);
    var p1, p2 := Wrap(H1Open, Field(b.name), H1Close), Wrap(LabelOpen, Field(b.title), PClose);
    var p3 := Wrap(ContactsOpen, JoinPieces(" \U{b7} ", c1 + c2 + c3), PClose);
    var p4 := Wrap(SummaryOpen, Field(b.summary), PClose);
    PlainField(H1Open, b.name, H1Close);
    PlainField(LabelOpen, b.title, PClose);
    PlainJoined(ContactsOpen, " \U{b7} ", c1 + c2 + c3, t1 + t2 + t3, PClose);
    PlainField(SummaryOpen, b.summary, PClose);
    Plain6([Markup(HeaderOpen)], p1, p2, p3, p4, [Markup(HeaderClose)]);
    PlainOne(Markup(HeaderOpen));
    PlainOne(Markup(HeaderClose));
    HeaderPlain();
  }

  lemma HeaderPlain()
    ensures PlainPiece(Markup(HeaderOpen)) == "" && PlainPiece(Markup(HeaderClose)) == "\n"
    ensures PlainPiece(Markup(EntryOpen)) == "" && PlainPiece(Markup(DivClose)) == "\n"
  {
  }

  lemma ThreeLists(c1: seq<seq<Piece>>, c2: seq<seq<Piece>>, c3: seq<seq<Piece>>, t1: seq<string>, t2: seq<string>,
    t3: seq<string>)
    requires Map(PlainText, c1) == t1 && Map(PlainText, c2) == t2 && Map(PlainText, c3) == t3
    requires Said(t1) && Said(t2) && Said(t3)
    ensures Map(PlainText, c1 + c2 + c3) == t1 + t2 + t3 && Said(t1 + t2 + t3) && |c1 + c2 + c3| == |t1 + t2 + t3|
  {
    hide PlainText;
    MapAppend(PlainText, c1 + c2, c3);
    MapAppend(PlainText, c1, c2);
  }

  lemma Plain6(a: seq<Piece>, b: seq<Piece>, c: seq<Piece>, d: seq<Piece>, e: seq<Piece>, f: seq<Piece>)
    ensures PlainText(a + b + c + d + e + f)
      == PlainText(a) + (PlainText(b) + PlainText(c) + PlainText(d) + PlainText(e) + PlainText(f))
  {
    hide PlainText;
    PlainAppend(a + b + c + d + e, f);
    PlainAppend(a + b + c + d, e);
    PlainAppend(a + b + c, d);
    PlainAppend(a + b, c);
    PlainAppend(a, b);
  }

  lemma PlainDates(start: string, end: string)
    ensures PlainText(Wrap(EntryMetaOpen, DateRange(start, end), PClose)) == Line(DatesText(start, end))
  {
    hide Wrap, Line, PlainText;
    var endPiece := if end == "" then Sep("Present") else Raw(end);
    PlainOne(endPiece);
    if start != "" {
      PlainAppend([Raw(start), Sep(" \U{2013} ")], [endPiece]);
      PlainAppend([Raw(start)], [Sep(" \U{2013} ")]);
      PlainOne(Raw(start));
      PlainOne(Sep(" \U{2013} "));
      assert [Raw(start), Sep(" \U{2013} ")] + [endPiece] == DateRange(start, end);
      assert [Raw(start)] + [Sep(" \U{2013} ")] == [Raw(start), Sep(" \U{2013} ")];
    }
    assert start == "" ==> "" + endPiece.text == endPiece.text;
    PlainWrap(EntryMetaOpen, DateRange(start, end), PClose);
  }

  lemma {:induction false} PlainItems(items: seq<seq<Piece>>)
    ensures PlainText(ListItems(items)) == Flat(Map(Bullet, Map(PlainText, items)))
    ensures ListItems(items) == [] <==> items == []
  {
    hide PlainText, Flat, Bullet;
    if items == [] {
      NoItems();
    } else {
      var rest := items[1..];
      PlainItems(rest);
      PlainAppend([Markup(LiOpen)] + items[0] + [Markup(LiClose)], ListItems(rest));
      PlainItem(items[0]);
      assert Map(PlainText, items) == [PlainText(items[0])] + Map(PlainText, rest);
      assert Map(Bullet, Map(PlainText, items)) == [Bullet(PlainText(items[0]))] + Map(Bullet, Map(PlainText, rest));
      FlatCons(Bullet(PlainText(items[0])), Map(Bullet, Map(PlainText, rest)));
    }
  }

  lemma PlainItem(item: seq<Piece>)
    ensures PlainText([Markup(LiOpen)] + item + [Markup(LiClose)]) == Bullet(PlainText(item))
  {
    hide PlainText;
    PlainAppend([Markup(LiOpen)] + item, [Markup(LiClose)]);
    PlainAppend([Markup(LiOpen)], item);
    PlainOne(Markup(LiOpen));
    PlainOne(Markup(LiClose));
  }

  lemma NoItems()
    ensures PlainText([]) == "" && Map(PlainText, []) == [] && Map(Bullet, []) == [] && Flat<char>([]) == ""
  {
  }

  lemma PlainBullets(items: seq<seq<Piece>>, texts: seq<string>)
    requires Map(PlainText, items) == texts && |items| == |texts|
    ensures PlainText(Wrap(UlOpen, ListItems(items), UlClose)) == BulletsText(texts)
  {
    hide PlainText, Wrap, ListItems;
    PlainItems(items);
    if items == [] {
      WrapNothing();
    } else {
      BulletsSaid(texts);
      PlainWrap(UlOpen, ListItems(items), UlClose);
    }
  }

  lemma WrapNothing()
    ensures PlainText(Wrap(UlOpen, [], UlClose)) == ""
  {
  }

  lemma BulletsSaid(texts: seq<string>)
    requires texts != []
    ensures Flat(Map(Bullet, texts)) != ""
  {
    assert Map(Bullet, texts)[0] == Bullet(texts[0]);
  }

  lemma PlainHighlights(items: seq<string>)
    ensures PlainText(Highlights(items)) == BulletsText(Keep(items))
  {
    hide PlainText, Wrap, ListItems, NonEmpty, Keep, BulletsText;
    PlainNonEmpty(items);
    PlainBullets(NonEmpty(items), Keep(items));
  }

  lemma PlainWork(w: WorkItem)
    ensures PlainText(WorkEntry(w)) == WorkText(w)
  {
    hide PlainText, Wrap, JoinPieces, Join, Line, NonEmpty, Keep, DateRange, DatesText, Highlights, BulletsText, Said,
      PlainPiece;
    var texts := [w.position, if w.name != "" then w.name else w.company];
    PlainNonEmpty(texts);
    KeepSaid(texts);
    PlainJoined(EntryTitleOpen, " \U{2014} ", NonEmpty(texts), Keep(texts), PClose);
    PlainDates(w.startDate, w.endDate);
    PlainField(POpen, w.summary, PClose);
    PlainHighlights(w.highlights);
    Plain6([Markup(EntryOpen)], Wrap(EntryTitleOpen, JoinPieces(" \U{2014} ", NonEmpty(texts)), PClose),
      Wrap(EntryMetaOpen, DateRange(w.startDate, w.endDate), PClose), Wrap(POpen, Field(w.summary), PClose),
      Highlights(w.highlights), [Markup(DivClose)]);
    PlainOne(Markup(EntryOpen));
    PlainOne(Markup(DivClose));
    HeaderPlain();
  }

  lemma PlainStudy(e: EducationItem)
    ensures var study := JoinPieces(" ", NonEmpty([e.studyType, e.area]));
      var parts := (if study == [] then [] else [study]) + NonEmpty([e.institution]);
      var texts := Keep([Join(" ", Keep([e.studyType, e.area])), e.institution]);
      Map(PlainText, parts) == texts && Said(texts) && |parts| == |texts|
  {
    hide PlainText, JoinPieces, Join, NonEmpty;
    var two := [e.studyType, e.area];
    var study, text := JoinPieces(" ", NonEmpty(two)), Join(" ", Keep(two));
    PlainNonEmpty(two);
    KeepSaid(two);
    PlainJoin(" ", NonEmpty(two));
    JoinSaid(" ", Keep(two));
    SomePieces(" ", NonEmpty(two));
    PlainNonEmpty([e.institution]);
    KeepSaid([text, e.institution]);
    var parts := (if study == [] then [] else [study]) + NonEmpty([e.institution]);
    assert [text, e.institution][1..] == [e.institution];
    MapAppend(PlainText, if study == [] then [] else [study], NonEmpty([e.institution]));
  }

  lemma PlainEducation(e: EducationItem)
    ensures PlainText(EducationEntry(e)) == EducationText(e)
  {
    hide PlainText, Wrap, JoinPieces, Join, Line, NonEmpty, Keep, DateRange, DatesText, Said, PlainPiece, Map;
    var study := JoinPieces(" ", NonEmpty([e.studyType, e.area]));
    var parts := (if study == [] then [] else [study]) + NonEmpty([e.institution]);
    var texts := Keep([Join(" ", Keep([e.studyType, e.area])), e.institution]);
    PlainStudy(e);
    PlainJoined(EntryTitleOpen, " \U{2014} ", parts, texts, PClose);
    PlainDates(e.startDate, e.endDate);
    var a, b, c := Wrap(EntryTitleOpen, JoinPieces(" \U{2014} ", parts), PClose),
        Wrap(EntryMetaOpen, DateRange(e.startDate, e.endDate), PClose), [Markup(DivClose)];
    PlainAppend([Markup(EntryOpen)] + a + b, c);
    PlainAppend([Markup(EntryOpen)] + a, b);
    PlainAppend([Markup(EntryOpen)], a);
    PlainOne(Markup(EntryOpen));
    PlainOne(Markup(DivClose));
    HeaderPlain();
  }

  lemma PlainSkill(s: Skill)
    ensures Map(PlainText, SkillItem(s)) == SkillTexts(s) && |SkillItem(s)| == |SkillTexts(s)|
  {
    hide PlainText, JoinPieces, Join, NonEmpty, Keep;
    if s.keywords != [] {
      var kw := JoinPieces(", ", NonEmpty(s.keywords));
      PlainNonEmpty(s.keywords);
      PlainJoin(", ", NonEmpty(s.keywords));
      PlainAppend([Raw(s.name), Sep(": ")], kw);
      PlainAppend([Raw(s.name)], [Sep(": ")]);
      PlainOne(Raw(s.name));
      PlainOne(Sep(": "));
      assert [Raw(s.name)] + [Sep(": ")] == [Raw(s.name), Sep(": ")];
      assert "" + PlainText(kw) == PlainText(kw);
    } else {
      PlainNonEmpty([s.name]);
    }
  }

  lemma {:induction false} PlainSkills(skills: seq<Skill>)
    ensures var items, texts := Flat(Map(SkillItem, skills)), Flat(Map(SkillTexts, skills));
      Map(PlainText, items) == texts && |items| == |texts|
  {
    hide PlainText, SkillItem, SkillTexts;
    if skills != [] {
      PlainSkill(skills[0]);
      PlainSkills(skills[1..]);
      assert Map(SkillItem, skills) == [SkillItem(skills[0])] + Map(SkillItem, skills[1..]);
      assert Map(SkillTexts, skills) == [SkillTexts(skills[0])] + Map(SkillTexts, skills[1..]);
      FlatCons(SkillItem(skills[0]), Map(SkillItem, skills[1..]));
      FlatCons(SkillTexts(skills[0]), Map(SkillTexts, skills[1..]));
      MapAppend(PlainText, SkillItem(skills[0]), Flat(Map(SkillItem, skills[1..])));
    }
  }

  lemma PlainProject(p: Project)
    ensures PlainText(ProjectEntry(p)) == ProjectText(p)
  {
    hide PlainText, Wrap, Line, Highlights, BulletsText, PlainPiece, Keep;
    PlainField(EntryTitleOpen, p.name, PClose);
    PlainField(POpen, p.description, PClose);
    PlainHighlights(p.highlights);
    var a, b, c, d := Wrap(EntryTitleOpen, Field(p.name), PClose), Wrap(POpen, Field(p.description), PClose),
        Highlights(p.highlights), [Markup(DivClose)];
    PlainAppend([Markup(EntryOpen)] + a + b + c, d);
    PlainAppend([Markup(EntryOpen)] + a + b, c);
    PlainAppend([Markup(EntryOpen)] + a, b);
    PlainAppend([Markup(EntryOpen)], a);
    PlainOne(Markup(EntryOpen));
    PlainOne(Markup(DivClose));
    HeaderPlain();
  }

  /** Entry by entry. */
  lemma {:induction false} PlainEntries<A>(entry: A -> seq<Piece>, text: A -> string, items: seq<A>)
    requires forall i :: 0 <= i < |items| ==> PlainText(entry(items[i])) == text(items[i])
    ensures PlainText(Flat(Map(entry, items))) == Flat(Map(text, items))
  {
    hide PlainText;
    if items == [] {
      NothingPlain();
    } else {
      PlainEntries(entry, text, items[1..]);
      assert Map(entry, items) == [entry(items[0])] + Map(entry, items[1..]);
      assert Map(text, items) == [text(items[0])] + Map(text, items[1..]);
      FlatCons(entry(items[0]), Map(entry, items[1..]));
      FlatCons(text(items[0]), Map(text, items[1..]));
      PlainAppend(entry(items[0]), Flat(Map(entry, items[1..])));
    }
  }

  lemma NothingPlain()
    ensures PlainText(Flat<Piece>([])) == Flat<char>([]) == ""
  {
  }

  lemma PlainSection(title: string, body: seq<Piece>)
    requires body == [] <==> PlainText(body) == ""
    ensures PlainText(Section(title, body)) == SectionText(title, PlainText(body))
  {
    if body != [] {
      PlainAppend([Markup(SectionOpen), Markup(H2Open), Sep(title), Markup(H2Close)] + body, [Markup(SectionClose)]);
      PlainAppend([Markup(SectionOpen), Markup(H2Open), Sep(title), Markup(H2Close)], body);
      Heading(title);
      PlainOne(Markup(SectionClose));
    }
  }

  lemma Heading(title: string)
    ensures PlainText([Markup(SectionOpen), Markup(H2Open), Sep(title), Markup(H2Close)]) == title + "\n"
  {
    PlainAppend([Markup(SectionOpen), Markup(H2Open), Sep(title)], [Markup(H2Close)]);
    PlainAppend([Markup(SectionOpen), Markup(H2Open)], [Sep(title)]);
    PlainAppend([Markup(SectionOpen)], [Markup(H2Open)]);
    PlainOne(Markup(SectionOpen));
    PlainOne(Markup(H2Open));
    PlainOne(Sep(title));
    PlainOne(Markup(H2Close));
    assert [Markup(SectionOpen), Markup(H2Open), Sep(title)] + [Markup(H2Close)]
      == [Markup(SectionOpen), Markup(H2Open), Sep(title), Markup(H2Close)];
    assert [Markup(SectionOpen), Markup(H2Open)] + [Sep(title)] == [Markup(SectionOpen), Markup(H2Open), Sep(title)];
    assert [Markup(SectionOpen)] + [Markup(H2Open)] == [Markup(SectionOpen), Markup(H2Open)];
  }

  /** Pieces that say nothing are none: every entry ends with a tag that is read as a line end. */
  lemma {:induction false} EntriesSaid<A>(entry: A -> seq<Piece>, items: seq<A>)
    requires forall i :: 0 <= i < |items| ==> PlainText(entry(items[i])) != ""
    ensures Flat(Map(entry, items)) == [] <==> PlainText(Flat(Map(entry, items))) == ""
  {
    hide PlainText;
    if items == [] {
      NothingPlain();
      assert Map(entry, items) == [];
    } else {
      assert Map(entry, items) == [entry(items[0])] + Map(entry, items[1..]);
      FlatCons(entry(items[0]), Map(entry, items[1..]));
      PlainAppend(entry(items[0]), Flat(Map(entry, items[1..])));
      NothingPlain();
      EntriesSaid(entry, items[1..]);
    }
  }

  lemma ExperienceIs(r: JsonResume)
    ensures PlainText(Section("Experience", Flat(Map(WorkEntry, r.work))))
      == SectionText("Experience", Flat(Map(WorkText, r.work)))
  {
    hide PlainText, Section, WorkEntry, SectionText, Line, BulletsText, Join, Keep, DatesText;
    forall i | 0 <= i < |r.work| ensures PlainText(WorkEntry(r.work[i])) == WorkText(r.work[i]) != "" {
      PlainWork(r.work[i]);
    }
    PlainEntries(WorkEntry, WorkText, r.work);
    EntriesSaid(WorkEntry, r.work);
    PlainSection("Experience", Flat(Map(WorkEntry, r.work)));
  }

  lemma EducationIs(r: JsonResume)
    ensures PlainText(Section("Education", Flat(Map(EducationEntry, r.education))))
      == SectionText("Education", Flat(Map(EducationText, r.education)))
  {
    hide PlainText, Section, EducationEntry, SectionText, Line, Join, Keep, DatesText;
    forall i | 0 <= i < |r.education|
      ensures PlainText(EducationEntry(r.education[i])) == EducationText(r.education[i]) != ""
    {
      PlainEducation(r.education[i]);
    }
    PlainEntries(EducationEntry, EducationText, r.education);
    EntriesSaid(EducationEntry, r.education);
    PlainSection("Education", Flat(Map(EducationEntry, r.education)));
  }

  lemma SkillsIs(r: JsonResume)
    ensures var items := Flat(Map(SkillItem, r.skills));
      PlainText(Section("Skills", Wrap(UlOpen, ListItems(items), UlClose)))
      == SectionText("Skills", BulletsText(Flat(Map(SkillTexts, r.skills))))
  {
    hide PlainText, Section, SectionText, SkillItem, SkillTexts, ListItems;
    var items := Flat(Map(SkillItem, r.skills));
    PlainSkills(r.skills);
    PlainBullets(items, Flat(Map(SkillTexts, r.skills)));
    PlainItems(items);
    PlainSection("Skills", Wrap(UlOpen, ListItems(items), UlClose));
  }

  lemma ProjectsIs(r: JsonResume)
    ensures PlainText(Section("Projects", Flat(Map(ProjectEntry, r.projects))))
      == SectionText("Projects", Flat(Map(ProjectText, r.projects)))
  {
    hide PlainText, Section, ProjectEntry, SectionText, Line, BulletsText, Keep;
    forall i | 0 <= i < |r.projects|
      ensures PlainText(ProjectEntry(r.projects[i])) == ProjectText(r.projects[i]) != ""
    {
      PlainProject(r.projects[i]);
    }
    PlainEntries(ProjectEntry, ProjectText, r.projects);
    EntriesSaid(ProjectEntry, r.projects);
    PlainSection("Projects", Flat(Map(ProjectEntry, r.projects)));
  }

  /** The renderer's body, stripped of its markup, is the plain resume. */
  lemma PlainTextIs(r: JsonResume)
    ensures PlainText(Body(r)) == PlainResume(r)
  {
    hide PlainText, Section, SectionText, BasicsBlock, BasicsText, WorkEntry, EducationEntry, SkillItem, ProjectEntry,
      BulletsText;
    PlainBasics(r.basics);
    ExperienceIs(r);
    EducationIs(r);
    SkillsIs(r);
    ProjectsIs(r);
    var a, b := Section("Experience", Flat(Map(WorkEntry, r.work))),
        Section("Education", Flat(Map(EducationEntry, r.education)));
    var c := Section("Skills", Wrap(UlOpen, ListItems(Flat(Map(SkillItem, r.skills))), UlClose));
    var d := Section("Projects", Flat(Map(ProjectEntry, r.projects)));
    PlainAppend(a + b + c, d);
    PlainAppend(a + b, c);
    PlainAppend(a, b);
    PlainAppend(BasicsBlock(r.basics), a + b + c + d);
  }
}
