/** What the plain text of a rendered resume contains: every non-empty field, once, in reading order. */
module ResumeText {
  import opened Text
  import opened Html
  import opened Resume

  /** The user texts of a body, in order. */
  function Raws(pieces: seq<Piece>): seq<string> {
    if pieces == [] then [] else (if pieces[0].Raw? then [pieces[0].text] else []) + Raws(pieces[1..])
  }

  /** The non-empty texts of a list. */
  function Keep(texts: seq<string>): seq<string> {
    if texts == [] then [] else (if texts[0] == "" then [] else [texts[0]]) + Keep(texts[1..])
  }

  // ---------------------------------------------------------------- the fields, straight from the data

  function LocationFields(location: Location): seq<string> {
    match location
    case Address(parts) => Keep(parts)
    case Place(text) => Keep([text])
  }

  function ProfileFields(profile: SocialProfile): seq<string> {
    if profile.url == "" then [] else Keep([profile.network, profile.url])
  }

  function BasicsFields(b: Basics): seq<string> {
    Keep([b.name, b.title, b.email, b.phone, b.url]) + LocationFields(b.location)
    + Flat(Map(ProfileFields, b.profiles)) + Keep([b.summary])
  }

  function WorkFields(w: WorkItem): seq<string> {
    Keep([w.position, if w.name != "" then w.name else w.company, w.startDate, w.endDate, w.summary] + w.highlights)
  }

  function EducationFields(e: EducationItem): seq<string> {
    Keep([e.studyType, e.area, e.institution, e.startDate, e.endDate])
  }

  function SkillFields(s: Skill): seq<string> { Keep([s.name] + s.keywords) }

  function ProjectFields(p: Project): seq<string> { Keep([p.name, p.description] + p.highlights) }

  function Fields(r: JsonResume): seq<string> {
    BasicsFields(r.basics) + (Flat(Map(WorkFields, r.work)) + Flat(Map(EducationFields, r.education))
    + Flat(Map(SkillFields, r.skills)) + Flat(Map(ProjectFields, r.projects)))
  }

  // ---------------------------------------------------------------- pieces carry exactly some texts

  /** `pieces` holds exactly the user texts `texts`, and separators without markup. */
  ghost predicate Carries(pieces: seq<Piece>, texts: seq<string>) { PiecesOk(pieces) && Raws(pieces) == texts }

  predicate PlainSep(text: string) { '<' !in text && '&' !in text }

  lemma {:induction false} CarriesAppend(a: seq<Piece>, b: seq<Piece>, s: seq<string>, t: seq<string>)
    requires Carries(a, s) && Carries(b, t)
    ensures Carries(a + b, s + t)
  {
    if a == [] {
      assert a + b == b;
      assert s + t == t;
    } else {
      assert Carries(a[1..], Raws(a[1..]));
      CarriesAppend(a[1..], b, Raws(a[1..]), t);
      assert (a + b)[1..] == a[1..] + b;
    }
  }

  lemma CarriesSep(text: string)
    requires PlainSep(text)
    ensures Carries([Sep(text)], [])
  {
    assert [Sep(text)][1..] == [];
  }

  lemma CarriesMarkup(tag: HtmlTag)
    ensures Carries([Markup(tag)], [])
  {
    assert [Markup(tag)][1..] == [];
  }

  lemma CarriesRaw(text: string)
    ensures Carries([Raw(text)], [text])
  {
    assert [Raw(text)][1..] == [];
  }

  lemma {:induction false} KeepAppend(a: seq<string>, b: seq<string>)
    ensures Keep(a + b) == Keep(a) + Keep(b)
  {
    if a == [] {
      assert a + b == b;
    } else {
      KeepAppend(a[1..], b);
      var head := if a[0] == "" then [] else [a[0]];
      assert (a + b)[1..] == a[1..] + b && (a + b)[0] == a[0];
      ConcatAssoc(head, Keep(a[1..]), Keep(b));
    }
  }

  lemma CarriesField(text: string)
    ensures Carries(Field(text), Keep([text]))
  {
    CarriesRaw(text);
    assert [text][1..] == [];
  }

  lemma CarriesWrap(open: HtmlTag, inner: seq<Piece>, close: HtmlTag, texts: seq<string>)
    requires Carries(inner, texts)
    ensures Carries(Wrap(open, inner, close), texts)
  {
    if inner != [] {
      hide Carries;
      CarriesMarkup(open);
      CarriesMarkup(close);
      CarriesAppend([Markup(open)], inner, [], texts);
      CarriesAppend([Markup(open)] + inner, [Markup(close)], [] + texts, []);
      assert [] + texts + [] == texts;
    }
  }

  /** Lists of inline parts. */
  ghost predicate AllCarry(parts: seq<seq<Piece>>, texts: seq<seq<string>>) {
    |parts| == |texts| && forall i :: 0 <= i < |parts| ==> Carries(parts[i], texts[i])
  }

  lemma {:induction false} CarriesJoin(sep: string, parts: seq<seq<Piece>>, texts: seq<seq<string>>)
    requires PlainSep(sep) && AllCarry(parts, texts)
    ensures Carries(JoinPieces(sep, parts), Flat(texts))
  {
    hide Carries, PlainSep;
    if parts == [] {
      CarriesNothing();
    } else if |parts| == 1 {
      assert texts[1..] == [];
      assert Flat(texts) == texts[0];
    } else {
      CarriesJoin(sep, parts[1..], texts[1..]);
      CarriesSep(sep);
      CarriesAppend(parts[0], [Sep(sep)], texts[0], []);
      CarriesAppend(parts[0] + [Sep(sep)], JoinPieces(sep, parts[1..]), texts[0] + [], Flat(texts[1..]));
      assert texts[0] + [] == texts[0];
    }
  }

  lemma CarriesNothing()
    ensures Carries([], [])
  {
  }

  lemma {:induction false} CarriesListItems(items: seq<seq<Piece>>, texts: seq<seq<string>>)
    requires AllCarry(items, texts)
    ensures Carries(ListItems(items), Flat(texts))
  {
    hide Carries;
    if items == [] {
      CarriesNothing();
    } else {
      CarriesListItems(items[1..], texts[1..]);
      CarriesMarkup(LiOpen);
      CarriesMarkup(LiClose);
      CarriesAppend([Markup(LiOpen)], items[0], [], texts[0]);
      CarriesAppend([Markup(LiOpen)] + items[0], [Markup(LiClose)], [] + texts[0], []);
      CarriesAppend([Markup(LiOpen)] + items[0] + [Markup(LiClose)], ListItems(items[1..]), [] + texts[0] + [],
        Flat(texts[1..]));
      assert [] + texts[0] + [] == texts[0];
    }
  }

  lemma {:induction false} CarriesFlat(parts: seq<seq<Piece>>, texts: seq<seq<string>>)
    requires AllCarry(parts, texts)
    ensures Carries(Flat(parts), Flat(texts))
  {
    hide Carries;
    if parts == [] {
      CarriesNothing();
    } else {
      CarriesFlat(parts[1..], texts[1..]);
      CarriesAppend(parts[0], Flat(parts[1..]), texts[0], Flat(texts[1..]));
    }
  }

  /** `NonEmpty(texts)` carries one text a part. */
  function Singles(texts: seq<string>): seq<seq<string>> { seq(|texts|, i requires 0 <= i < |texts| => [texts[i]]) }

  lemma {:induction false} CarriesNonEmpty(texts: seq<string>)
    ensures AllCarry(NonEmpty(texts), Singles(Keep(texts)))
    ensures Flat(Singles(Keep(texts))) == Keep(texts)
  {
    hide Carries;
    if texts != [] {
      CarriesNonEmpty(texts[1..]);
      CarriesRaw(texts[0]);
      if texts[0] != "" {
        assert Singles(Keep(texts))[1..] == Singles(Keep(texts[1..]));
        assert Keep(texts) == [texts[0]] + Keep(texts[1..]);
      } else {
        assert Keep(texts) == Keep(texts[1..]);
        assert NonEmpty(texts) == NonEmpty(texts[1..]);
      }
    }
  }

  lemma CarriesJoined(sep: string, texts: seq<string>)
    requires PlainSep(sep)
    ensures Carries(JoinPieces(sep, NonEmpty(texts)), Keep(texts))
  {
    CarriesNonEmpty(texts);
    CarriesJoin(sep, NonEmpty(texts), Singles(Keep(texts)));
  }

  lemma Seps()
    ensures PlainSep(", ") && PlainSep(" \U{b7} ") && PlainSep(": ") && PlainSep("Profile") && PlainSep("Present")
    ensures PlainSep(" \U{2013} ") && PlainSep(" \U{2014} ") && PlainSep(" ")
    ensures PlainSep("Experience") && PlainSep("Education") && PlainSep("Skills") && PlainSep("Projects")
  {
  }

  // ---------------------------------------------------------------- the blocks

  lemma CarriesHighlights(items: seq<string>)
    ensures Carries(Highlights(items), Keep(items))
  {
    hide Carries;
    CarriesNonEmpty(items);
    CarriesListItems(NonEmpty(items), Singles(Keep(items)));
    CarriesWrap(UlOpen, ListItems(NonEmpty(items)), UlClose, Keep(items));
  }

  lemma CarriesDates(start: string, end: string)
    ensures Carries(DateRange(start, end), Keep([start, end]))
  {
    Seps();
    hide PlainSep;
    var endPiece := if end == "" then Sep("Present") else Raw(end);
    CarriesSep("Present");
    CarriesRaw(end);
    CarriesSep(" \U{2013} ");
    CarriesRaw(start);
    assert [start, end][1..] == [end] && [end][1..] == [];
    assert Keep([end]) == if end == "" then [] else [end];
    assert Keep([start, end]) == (if start == "" then [] else [start]) + Keep([end]);
    assert Carries([endPiece], Keep([end]));
    if start != "" {
      CarriesAppend([Raw(start)], [Sep(" \U{2013} ")], [start], []);
      CarriesAppend([Raw(start)] + [Sep(" \U{2013} ")], [endPiece], [start] + [], Keep([end]));
      assert [Raw(start)] + [Sep(" \U{2013} ")] + [endPiece] == DateRange(start, end);
    }
  }

  lemma CarriesEntry(title: seq<Piece>, meta: seq<Piece>, text: seq<Piece>, list: seq<Piece>,
    s: seq<string>, t: seq<string>, u: seq<string>, v: seq<string>)
    requires Carries(title, s) && Carries(meta, t) && Carries(text, u) && Carries(list, v)
    ensures Carries([Markup(EntryOpen)] + title + meta + text + list + [Markup(DivClose)], s + (t + (u + v)))
  {
    hide Carries;
    CarriesMarkup(EntryOpen);
    CarriesMarkup(DivClose);
    CarriesAppend([Markup(EntryOpen)], title, [], s);
    CarriesAppend([Markup(EntryOpen)] + title, meta, [] + s, t);
    CarriesAppend([Markup(EntryOpen)] + title + meta, text, [] + s + t, u);
    CarriesAppend([Markup(EntryOpen)] + title + meta + text, list, [] + s + t + u, v);
    CarriesAppend([Markup(EntryOpen)] + title + meta + text + list, [Markup(DivClose)], [] + s + t + u + v, []);
    assert [] + s + t + u + v + [] == s + (t + (u + v));
  }

  lemma CarriesWork(w: WorkItem)
    ensures Carries(WorkEntry(w), WorkFields(w))
  {
    Seps();
    hide Carries, PlainSep, Keep, NonEmpty, JoinPieces, Wrap, Field, DateRange, Highlights;
    var org := if w.name != "" then w.name else w.company;
    CarriesJoined(" \U{2014} ", [w.position, org]);
    CarriesDates(w.startDate, w.endDate);
    CarriesField(w.summary);
    CarriesHighlights(w.highlights);
    var title := JoinPieces(" \U{2014} ", NonEmpty([w.position, org]));
    CarriesWrap(EntryTitleOpen, title, PClose, Keep([w.position, org]));
    CarriesWrap(EntryMetaOpen, DateRange(w.startDate, w.endDate), PClose, Keep([w.startDate, w.endDate]));
    CarriesWrap(POpen, Field(w.summary), PClose, Keep([w.summary]));
    CarriesEntry(Wrap(EntryTitleOpen, title, PClose), Wrap(EntryMetaOpen, DateRange(w.startDate, w.endDate), PClose),
      Wrap(POpen, Field(w.summary), PClose), Highlights(w.highlights),
      Keep([w.position, org]), Keep([w.startDate, w.endDate]), Keep([w.summary]), Keep(w.highlights));
    KeepAppend([w.summary], w.highlights);
    KeepAppend([w.startDate, w.endDate], [w.summary] + w.highlights);
    KeepAppend([w.position, org], [w.startDate, w.endDate] + ([w.summary] + w.highlights));
    assert [w.position, org] + ([w.startDate, w.endDate] + ([w.summary] + w.highlights))
      == [w.position, org, w.startDate, w.endDate, w.summary] + w.highlights;
  }

  lemma CarriesEducation(e: EducationItem)
    ensures Carries(EducationEntry(e), EducationFields(e))
  {
    Seps();
    hide Carries, PlainSep, Keep, NonEmpty, JoinPieces, Wrap, DateRange;
    var study := JoinPieces(" ", NonEmpty([e.studyType, e.area]));
    var parts := (if study == [] then [] else [study]) + NonEmpty([e.institution]);
    CarriesHeading(e);
    CarriesDates(e.startDate, e.endDate);
    var title := JoinPieces(" \U{2014} ", parts);
    CarriesWrap(EntryTitleOpen, title, PClose, Keep([e.studyType, e.area, e.institution]));
    CarriesWrap(EntryMetaOpen, DateRange(e.startDate, e.endDate), PClose, Keep([e.startDate, e.endDate]));
    CarriesNothing();
    var a, b := Wrap(EntryTitleOpen, title, PClose), Wrap(EntryMetaOpen, DateRange(e.startDate, e.endDate), PClose);
    CarriesEntry(a, b, [], [], Keep([e.studyType, e.area, e.institution]), Keep([e.startDate, e.endDate]), [], []);
    assert [Markup(EntryOpen)] + a + b + [] + [] + [Markup(DivClose)] == EducationEntry(e);
    KeepAppend([e.studyType, e.area, e.institution], [e.startDate, e.endDate]);
    assert [e.studyType, e.area, e.institution] + [e.startDate, e.endDate]
      == [e.studyType, e.area, e.institution, e.startDate, e.endDate];
    assert Keep([e.startDate, e.endDate]) + ([] + []) == Keep([e.startDate, e.endDate]);
  }

  lemma CarriesHeading(e: EducationItem)
    ensures var study := JoinPieces(" ", NonEmpty([e.studyType, e.area]));
      var parts := (if study == [] then [] else [study]) + NonEmpty([e.institution]);
      Carries(JoinPieces(" \U{2014} ", parts), Keep([e.studyType, e.area, e.institution]))
  {
    Seps();
    hide Carries, PlainSep, Keep, NonEmpty, JoinPieces;
    var study := JoinPieces(" ", NonEmpty([e.studyType, e.area]));
    var texts := Keep([e.studyType, e.area]);
    CarriesJoined(" ", [e.studyType, e.area]);
    CarriesNonEmpty([e.institution]);
    var rest := Singles(Keep([e.institution]));
    var parts := (if study == [] then [] else [study]) + NonEmpty([e.institution]);
    var first := if study == [] then [] else [texts];
    if study == [] {
      RawsOfNothing(texts);
    }
    CarriesJoin(" \U{2014} ", parts, first + rest);
    FlatAppend(first, rest);
    assert Flat(first) == texts by {
      assert [texts][1..] == [];
      assert texts + Flat<string>([]) == texts;
    }
    KeepAppend([e.studyType, e.area], [e.institution]);
    assert [e.studyType, e.area] + [e.institution] == [e.studyType, e.area, e.institution];
  }

  lemma RawsOfNothing(texts: seq<string>)
    requires Carries([], texts)
    ensures texts == []
  {
  }

  lemma CarriesProject(p: Project)
    ensures Carries(ProjectEntry(p), ProjectFields(p))
  {
    hide Carries, PlainSep, Keep, Wrap, Field, Highlights;
    CarriesField(p.name);
    CarriesField(p.description);
    CarriesHighlights(p.highlights);
    CarriesNothing();
    var a, b := Wrap(EntryTitleOpen, Field(p.name), PClose), Wrap(POpen, Field(p.description), PClose);
    CarriesWrap(EntryTitleOpen, Field(p.name), PClose, Keep([p.name]));
    CarriesWrap(POpen, Field(p.description), PClose, Keep([p.description]));
    CarriesEntry(a, [], b, Highlights(p.highlights), Keep([p.name]), [], Keep([p.description]), Keep(p.highlights));
    assert [Markup(EntryOpen)] + a + [] + b + Highlights(p.highlights) + [Markup(DivClose)] == ProjectEntry(p);
    KeepAppend([p.description], p.highlights);
    KeepAppend([p.name], [p.description] + p.highlights);
    assert [p.name] + ([p.description] + p.highlights) == [p.name, p.description] + p.highlights;
    assert [] + (Keep([p.description]) + Keep(p.highlights)) == Keep([p.description]) + Keep(p.highlights);
  }

  /** A skill's item, or no item at all, with the texts of what it shows. */
  lemma CarriesSkill(s: Skill) returns (texts: seq<seq<string>>)
    ensures AllCarry(SkillItem(s), texts) && Flat(texts) == SkillFields(s)
  {
    Seps();
    hide Carries, PlainSep, Keep, NonEmpty, JoinPieces;
    if s.keywords != [] {
      var kw := JoinPieces(", ", NonEmpty(s.keywords));
      CarriesJoined(", ", s.keywords);
      KeepAppend([s.name], s.keywords);
      KeepOne(s.name);
      CarriesRaw(s.name);
      CarriesSep(": ");
      CarriesAppend([Raw(s.name)], [Sep(": ")], [s.name], []);
      CarriesAppend([Raw(s.name)] + [Sep(": ")], kw, [s.name] + [], Keep(s.keywords));
      assert [Raw(s.name)] + [Sep(": ")] + kw == [Raw(s.name), Sep(": ")] + kw;
      assert [s.name] + [] + Keep(s.keywords) == [s.name] + Keep(s.keywords);
      assert [] + Keep(s.keywords) == Keep(s.keywords);
      texts := [SkillFields(s)];
      assert Flat(texts) == SkillFields(s) + Flat<string>([]);
    } else {
      CarriesNonEmpty([s.name]);
      assert [s.name] + s.keywords == [s.name];
      texts := Singles(Keep([s.name]));
    }
  }

  lemma KeepOne(text: string)
    ensures Keep([text]) == if text == "" then [] else [text]
  {
    assert [text][1..] == [];
  }

  lemma {:induction false} CarriesSkills(skills: seq<Skill>) returns (texts: seq<seq<string>>)
    ensures AllCarry(Flat(Map(SkillItem, skills)), texts) && Flat(texts) == Flat(Map(SkillFields, skills))
  {
    hide Carries, SkillItem, SkillFields, Flat, AllCarry, Map;
    if skills == [] {
      texts := [];
      NoSkills();
    } else {
      var first := CarriesSkill(skills[0]);
      var rest := CarriesSkills(skills[1..]);
      MapCons(SkillItem, skills);
      MapCons(SkillFields, skills);
      FlatCons(SkillItem(skills[0]), Map(SkillItem, skills[1..]));
      FlatCons(SkillFields(skills[0]), Map(SkillFields, skills[1..]));
      FlatAppend(first, rest);
      AllCarryAppend(SkillItem(skills[0]), first, Flat(Map(SkillItem, skills[1..])), rest);
      texts := first + rest;
    }
  }

  lemma NoSkills()
    ensures AllCarry(Flat(Map(SkillItem, [])), []) && Flat<string>([]) == Flat(Map(SkillFields, []))
  {
  }

  lemma MapCons<A, B>(f: A -> B, s: seq<A>)
    requires s != []
    ensures Map(f, s) == [f(s[0])] + Map(f, s[1..])
  {
  }

  lemma AllCarryAppend(a: seq<seq<Piece>>, s: seq<seq<string>>, b: seq<seq<Piece>>, t: seq<seq<string>>)
    requires AllCarry(a, s) && AllCarry(b, t)
    ensures AllCarry(a + b, s + t)
  {
    hide Carries;
  }

  lemma CarriesSkillSection(skills: seq<Skill>)
    ensures Carries(Section("Skills", Wrap(UlOpen, ListItems(Flat(Map(SkillItem, skills))), UlClose)),
                    Flat(Map(SkillFields, skills)))
  {
    Seps();
    hide Carries, PlainSep, Map, SkillItem, SkillFields, ListItems, Wrap;
    var texts := CarriesSkills(skills);
    var items := Flat(Map(SkillItem, skills));
    CarriesListItems(items, texts);
    CarriesWrap(UlOpen, ListItems(items), UlClose, Flat(texts));
    CarriesSection("Skills", Wrap(UlOpen, ListItems(items), UlClose), Flat(texts));
  }

  lemma CarriesSection(title: string, body: seq<Piece>, texts: seq<string>)
    requires PlainSep(title) && Carries(body, texts)
    ensures Carries(Section(title, body), texts)
  {
    hide Carries, PlainSep;
    if body != [] {
      CarriesMarkup(SectionOpen);
      CarriesMarkup(H2Open);
      CarriesMarkup(H2Close);
      CarriesMarkup(SectionClose);
      CarriesSep(title);
      CarriesAppend([Markup(SectionOpen)], [Markup(H2Open)], [], []);
      CarriesAppend([Markup(SectionOpen)] + [Markup(H2Open)], [Sep(title)], [] + [], []);
      CarriesAppend([Markup(SectionOpen)] + [Markup(H2Open)] + [Sep(title)], [Markup(H2Close)], [] + [] + [], []);
      var head := [Markup(SectionOpen)] + [Markup(H2Open)] + [Sep(title)] + [Markup(H2Close)];
      CarriesAppend(head, body, [] + [] + [] + [], texts);
      CarriesAppend(head + body, [Markup(SectionClose)], [] + [] + [] + [] + texts, []);
      assert [] + [] + [] + [] + texts + [] == texts;
      assert head + body + [Markup(SectionClose)] == Section(title, body);
    }
  }

  /** A section of entries that each carry their fields. */
  lemma CarriesEntries<T>(title: string, entry: T -> seq<Piece>, fields: T -> seq<string>, items: seq<T>)
    requires PlainSep(title)
    requires forall i :: 0 <= i < |items| ==> Carries(entry(items[i]), fields(items[i]))
    ensures Carries(Section(title, Flat(Map(entry, items))), Flat(Map(fields, items)))
  {
    hide Carries, PlainSep, Section;
    CarriesFlat(Map(entry, items), Map(fields, items));
    CarriesSection(title, Flat(Map(entry, items)), Flat(Map(fields, items)));
  }

  // ---------------------------------------------------------------- the header

  lemma CarriesLocation(location: Location) returns (texts: seq<seq<string>>)
    ensures AllCarry(LocationContact(location), texts) && Flat(texts) == LocationFields(location)
  {
    Seps();
    hide Carries, PlainSep, JoinPieces;
    match location
    case Place(text) =>
      CarriesNonEmpty([text]);
      texts := Singles(Keep([text]));
    case Address(parts) =>
      CarriesNonEmpty(parts);
      CarriesJoined(", ", parts);
      if NonEmpty(parts) == [] {
        assert Singles(Keep(parts)) == [];
        texts := [];
      } else {
        texts := [Keep(parts)];
        assert Flat(texts) == Keep(parts) + Flat<string>([]);
      }
  }

  lemma CarriesProfile(p: SocialProfile)
    requires p.url != ""
    ensures Carries([if p.network == "" then Sep("Profile") else Raw(p.network), Sep(": "), Raw(p.url)],
      ProfileFields(p))
  {
    Seps();
    hide Carries, PlainSep;
    var network := if p.network == "" then Sep("Profile") else Raw(p.network);
    CarriesSep("Profile");
    CarriesRaw(p.network);
    CarriesSep(": ");
    CarriesRaw(p.url);
    KeepAppend([p.network], [p.url]);
    assert [p.network] + [p.url] == [p.network, p.url];
    KeepOne(p.network);
    KeepOne(p.url);
    CarriesAppend([network], [Sep(": ")], Keep([p.network]), []);
    CarriesAppend([network] + [Sep(": ")], [Raw(p.url)], Keep([p.network]) + [], [p.url]);
    assert Keep([p.network]) + [] + [p.url] == ProfileFields(p);
    assert [network] + [Sep(": ")] + [Raw(p.url)] == [network, Sep(": "), Raw(p.url)];
  }

  lemma {:induction false} CarriesProfiles(profiles: seq<SocialProfile>) returns (texts: seq<seq<string>>)
    ensures AllCarry(ProfileContacts(profiles), texts) && Flat(texts) == Flat(Map(ProfileFields, profiles))
  {
    hide Carries, Keep, Flat, AllCarry, Map, ProfileContacts;
    if profiles == [] {
      texts := [];
      NoProfiles();
    } else {
      var p := profiles[0];
      var rest := CarriesProfiles(profiles[1..]);
      MapCons(ProfileFields, profiles);
      FlatCons(ProfileFields(p), Map(ProfileFields, profiles[1..]));
      FirstContact(profiles);
      if p.url == "" {
        texts := rest;
      } else {
        CarriesProfile(p);
        AllCarryOne([if p.network == "" then Sep("Profile") else Raw(p.network), Sep(": "), Raw(p.url)],
          ProfileFields(p));
        AllCarryAppend([[if p.network == "" then Sep("Profile") else Raw(p.network), Sep(": "), Raw(p.url)]],
                       [ProfileFields(p)], ProfileContacts(profiles[1..]), rest);
        texts := [ProfileFields(p)] + rest;
        FlatCons(ProfileFields(p), rest);
      }
    }
  }

  lemma NoProfiles()
    ensures AllCarry(ProfileContacts([]), []) && Flat<string>([]) == Flat(Map(ProfileFields, []))
  {
  }

  lemma FirstContact(profiles: seq<SocialProfile>)
    requires profiles != []
    ensures profiles[0].url == "" ==> ProfileContacts(profiles) == ProfileContacts(profiles[1..])
    ensures profiles[0].url != "" ==>
      ProfileContacts(profiles)
      == [[if profiles[0].network == "" then Sep("Profile") else Raw(profiles[0].network), Sep(": "),
           Raw(profiles[0].url)]] + ProfileContacts(profiles[1..])
  {
  }

  lemma AllCarryOne(part: seq<Piece>, text: seq<string>)
    requires Carries(part, text)
    ensures AllCarry([part], [text])
  {
    hide Carries;
  }

  lemma CarriesContacts(b: Basics)
    ensures Carries(JoinPieces(" \U{b7} ", NonEmpty([b.email, b.phone, b.url]) + LocationContact(b.location)
      + ProfileContacts(b.profiles)),
      Keep([b.email, b.phone, b.url]) + LocationFields(b.location) + Flat(Map(ProfileFields, b.profiles)))
  {
    Seps();
    hide Carries, PlainSep, NonEmpty, Keep, LocationContact, ProfileContacts, LocationFields, ProfileFields, Map,
      JoinPieces;
    CarriesNonEmpty([b.email, b.phone, b.url]);
    var social := CarriesProfiles(b.profiles);
    var place := CarriesLocation(b.location);
    var first := Singles(Keep([b.email, b.phone, b.url]));
    CarriesJoin(" \U{b7} ", NonEmpty([b.email, b.phone, b.url]) + LocationContact(b.location)
      + ProfileContacts(b.profiles),
      first + place + social);
    FlatAppend(first + place, social);
    FlatAppend(first, place);
  }

  lemma CarriesBasics(b: Basics)
    ensures Carries(BasicsBlock(b), BasicsFields(b))
  {
    hide Carries, NonEmpty, Keep, LocationContact, ProfileContacts, LocationFields, ProfileFields, Map, JoinPieces,
      Wrap, Field;
    var contacts := NonEmpty([b.email, b.phone, b.url]) + LocationContact(b.location) + ProfileContacts(b.profiles);
    var middle := Keep([b.email, b.phone, b.url]) + LocationFields(b.location) + Flat(Map(ProfileFields, b.profiles));
    CarriesContacts(b);
    CarriesField(b.name);
    CarriesField(b.title);
    CarriesField(b.summary);
    CarriesWrap(H1Open, Field(b.name), H1Close, Keep([b.name]));
    CarriesWrap(LabelOpen, Field(b.title), PClose, Keep([b.title]));
    CarriesWrap(ContactsOpen, JoinPieces(" \U{b7} ", contacts), PClose, middle);
    CarriesWrap(SummaryOpen, Field(b.summary), PClose, Keep([b.summary]));
    CarriesMarkup(HeaderOpen);
    CarriesMarkup(HeaderClose);
    var p1, p2 := Wrap(H1Open, Field(b.name), H1Close), Wrap(LabelOpen, Field(b.title), PClose);
    var p3 := Wrap(ContactsOpen, JoinPieces(" \U{b7} ", contacts), PClose);
    var p4 := Wrap(SummaryOpen, Field(b.summary), PClose);
    var t1, t2, t4 := Keep([b.name]), Keep([b.title]), Keep([b.summary]);
    CarriesAppend([Markup(HeaderOpen)], p1, [], t1);
    CarriesAppend([Markup(HeaderOpen)] + p1, p2, [] + t1, t2);
    CarriesAppend([Markup(HeaderOpen)] + p1 + p2, p3, [] + t1 + t2, middle);
    CarriesAppend([Markup(HeaderOpen)] + p1 + p2 + p3, p4, [] + t1 + t2 + middle, t4);
    CarriesAppend([Markup(HeaderOpen)] + p1 + p2 + p3 + p4, [Markup(HeaderClose)], [] + t1 + t2 + middle + t4, []);
    KeepAppend([b.title], [b.email, b.phone, b.url]);
    KeepAppend([b.name], [b.title] + [b.email, b.phone, b.url]);
    assert [b.name] + ([b.title] + [b.email, b.phone, b.url]) == [b.name, b.title, b.email, b.phone, b.url];
    assert [] + t1 + t2 + middle + t4 + [] == BasicsFields(b);
  }

  /** Every non-empty field of a resume is rendered once, in reading order, and nothing else as user text. */
  lemma BodyCarriesFields(r: JsonResume)
    ensures PiecesOk(Body(r)) && Raws(Body(r)) == Fields(r)
  {
    Seps();
    hide Carries, PlainSep, Section, Map, WorkEntry, EducationEntry, ProjectEntry, SkillItem, Wrap, ListItems,
      WorkFields, EducationFields, ProjectFields, SkillFields, BasicsBlock, BasicsFields;
    CarriesBasics(r.basics);
    forall i | 0 <= i < |r.work| ensures Carries(WorkEntry(r.work[i]), WorkFields(r.work[i])) {
      CarriesWork(r.work[i]);
    }
    forall i | 0 <= i < |r.education| ensures Carries(EducationEntry(r.education[i]), EducationFields(r.education[i])) {
      CarriesEducation(r.education[i]);
    }
    forall i | 0 <= i < |r.projects| ensures Carries(ProjectEntry(r.projects[i]), ProjectFields(r.projects[i])) {
      CarriesProject(r.projects[i]);
    }
    CarriesEntries("Experience", WorkEntry, WorkFields, r.work);
    CarriesEntries("Education", EducationEntry, EducationFields, r.education);
    CarriesSkillSection(r.skills);
    CarriesEntries("Projects", ProjectEntry, ProjectFields, r.projects);
    var s1, s2 := Section("Experience", Flat(Map(WorkEntry, r.work))),
        Section("Education", Flat(Map(EducationEntry, r.education)));
    var s3 := Section("Skills", Wrap(UlOpen, ListItems(Flat(Map(SkillItem, r.skills))), UlClose));
    var s4 := Section("Projects", Flat(Map(ProjectEntry, r.projects)));
    var f1, f2 := Flat(Map(WorkFields, r.work)), Flat(Map(EducationFields, r.education));
    var f3, f4 := Flat(Map(SkillFields, r.skills)), Flat(Map(ProjectFields, r.projects));
    CarriesAppend(s1, s2, f1, f2);
    CarriesAppend(s1 + s2, s3, f1 + f2, f3);
    CarriesAppend(s1 + s2 + s3, s4, f1 + f2 + f3, f4);
    CarriesAppend(BasicsBlock(r.basics), BodySections(r), BasicsFields(r.basics), f1 + f2 + f3 + f4);
    CarriesMeans(Body(r), Fields(r));
  }

  lemma CarriesMeans(pieces: seq<Piece>, texts: seq<string>)
    requires Carries(pieces, texts)
    ensures PiecesOk(pieces) && Raws(pieces) == texts
  {
  }

  /**
   * The whole pipeline on a whole document: stripping the head, the style sheet and the tags and then
   * unescaping leaves the plain text of the body, with the user's own characters, markup or not, verbatim.
   */
  lemma DocumentText(decode: string -> string, r: JsonResume, css: string)
    requires Standard(decode) && '<' !in css
    ensures Unescape(decode, StripMarkup(Document(r, css))) == PlainText(Body(r))
    ensures Raws(Body(r)) == Fields(r)
  {
    hide StripMarkup, Document, Body, Unescape, PlainText, PlainSegs, SegsOf, Fields;
    BodyCarriesFields(r);
    StripDocument(r, css);
    UnescapePieces(decode, Body(r), "");
    UnescapeNothing(decode);
    assert PlainSegs(SegsOf(Body(r))) + "" == PlainSegs(SegsOf(Body(r)));
    assert PlainText(Body(r)) + "" == PlainText(Body(r));
  }

  lemma UnescapeNothing(decode: string -> string)
    ensures Unescape(decode, "") == ""
  {
  }
}
