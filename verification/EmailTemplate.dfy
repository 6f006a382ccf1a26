/** The application email: three tokens replaced one after the other. */
module EmailTemplate {
  import opened Text
  import opened Like

  /** Python's `s.replace(m, v)` for a nonempty m: matches from the left, never looking into what it put in. */
  function Replace(s: string, m: string, v: string): string
    requires m != ""
    decreases |s|
  {
    if s == "" then ""
    else if m <= s then v + Replace(s[|m|..], m, v)
    else [s[0]] + Replace(s[1..], m, v)
  }

  datatype Token = JobTitle | Company | CandidateName

  function Name(t: Token): string {
    match t
    case JobTitle => "job_title"
    case Company => "company"
    case CandidateName => "candidate_name"
  }

  function Marker(t: Token): (m: string)
    ensures m != ""
  {
    "{" + Name(t) + "}"
  }

  const TOKEN_NAMES := [JobTitle, Company, CandidateName]

  type Values = Token -> string

  /** The replacements in the given order. */
  function Substituted(template: string, order: seq<Token>, values: Values): string
    decreases |order|
  {
    if order == [] then template
    else Substituted(Replace(template, Marker(order[0]), values(order[0])), order[1..], values)
  }

  method Substitute(template: string, values: Values) returns (result: string)
    ensures result == Substituted(template, TOKEN_NAMES, values)
  {
    hide Replace, Marker;
    result := template;
    for i := 0 to |TOKEN_NAMES|
      invariant Substituted(result, TOKEN_NAMES[i..], values) == Substituted(template, TOKEN_NAMES, values)
    {
      var token := TOKEN_NAMES[i];
      assert TOKEN_NAMES[i..][0] == token && TOKEN_NAMES[i..][1..] == TOKEN_NAMES[i + 1..];
      result := Replace(result, Marker(token), values(token));
    }
  }

  // ---------------------------------------------------------------- templates as segments

  datatype Seg = Lit(text: string) | Slot(token: Token)

  /** The segments with every slot filled at once. */
  function Fill(segs: seq<Seg>, content: Values): string {
    if segs == [] then ""
    else (if segs[0].Lit? then segs[0].text else content(segs[0].token)) + Fill(segs[1..], content)
  }

  predicate MarkerChar(c: char) { c == '{' || c == '}' || c == '_' || 'a' <= c <= 'z' }

  /** Literals hold no brace, and what follows a slot starts with a character no marker contains. */
  predicate WellFormed(segs: seq<Seg>) {
    segs == []
    || (&& WellFormed(segs[1..])
        && (segs[0].Lit? ==> '{' !in segs[0].text)
        && (segs[0].Slot? && |segs| > 1 ==> segs[1].Lit? && segs[1].text != "" && !MarkerChar(segs[1].text[0])))
  }

  const SUBJECT: seq<Seg> := [Lit("Application for "), Slot(JobTitle), Lit(" at "), Slot(Company)]

  const SECOND_PARAGRAPH :=
    ".\n\nPlease find my application attached. " + "I look forward to hearing from you " + "about the "

  const BODY: seq<Seg> := [
    Lit("Hello "), Slot(Company), Lit(" team,\n\nMy name is "), Slot(CandidateName),
    Lit(" and I would like to apply for the "), Slot(JobTitle), Lit(" position at "), Slot(Company),
    Lit(SECOND_PARAGRAPH), Slot(JobTitle),
    Lit(" role.\n\nBest regards,\n"), Slot(CandidateName), Lit("\n")]

  function TemplateText(segs: seq<Seg>): string { Fill(segs, Marker) }

  lemma MarkersAre()
    ensures Marker(JobTitle) == "{job_title}" && Marker(Company) == "{company}"
    ensures Marker(CandidateName) == "{candidate_name}"
  {
  }

  lemma FillLit(text: string, rest: seq<Seg>, content: Values)
    ensures Fill([Lit(text)] + rest, content) == text + Fill(rest, content)
  {
    assert ([Lit(text)] + rest)[1..] == rest;
  }

  lemma FillSlot(t: Token, rest: seq<Seg>, content: Values)
    ensures Fill([Slot(t)] + rest, content) == content(t) + Fill(rest, content)
  {
    assert ([Slot(t)] + rest)[1..] == rest;
  }

  /** The two templates, word for word. */
  lemma TemplatesAre()
    ensures TemplateText(SUBJECT) == "Application for " + ("{job_title}" + (" at " + "{company}"))
    ensures TemplateText(BODY)
      == "Hello " + ("{company}" + (" team,\n\nMy name is " + ("{candidate_name}"
      + (" and I would like to apply for the " + ("{job_title}" + (" position at " + ("{company}"
      + ((".\n\nPlease find my application attached. " + "I look forward to hearing from you " + "about the ")
      + ("{job_title}" + (" role.\n\nBest regards,\n" + ("{candidate_name}" + "\n")))))))))))
  {
    hide Fill, Marker;
    MarkersAre();
    SubjectFilled(Marker);
    BodyFilled(Marker);
  }

  lemma SubjectFilled(content: Values)
    ensures Fill(SUBJECT, content) == "Application for " + (content(JobTitle) + (" at " + content(Company)))
  {
    hide Fill;
    NothingFilled(content);
    assert SUBJECT == [Lit("Application for ")] + ([Slot(JobTitle)] + ([Lit(" at ")] + ([Slot(Company)] + [])));
    FillLit("Application for ", [Slot(JobTitle)] + ([Lit(" at ")] + ([Slot(Company)] + [])), content);
    FillSlot(JobTitle, [Lit(" at ")] + ([Slot(Company)] + []), content);
    FillLit(" at ", [Slot(Company)] + [], content);
    FillSlot(Company, [], content);
    assert content(Company) + "" == content(Company);
  }

  lemma NothingFilled(content: Values)
    ensures Fill([], content) == ""
  {
  }

  lemma BodyFilled(content: Values)
    ensures Fill(BODY, content)
      == "Hello " + (content(Company) + (" team,\n\nMy name is " + (content(CandidateName)
      + (" and I would like to apply for the " + (content(JobTitle) + (" position at " + (content(Company)
      + (SECOND_PARAGRAPH + (content(JobTitle)
      + (" role.\n\nBest regards,\n" + (content(CandidateName) + "\n")))))))))))
  {
    hide Fill;
    NothingFilled(content);
    var s0 := [Lit("\n")] + [];
    var s1 := [Lit(" role.\n\nBest regards,\n")] + ([Slot(CandidateName)] + s0);
    var s2 := [Lit(SECOND_PARAGRAPH)] + ([Slot(JobTitle)] + s1);
    var s3 := [Lit(" position at ")] + ([Slot(Company)] + s2);
    var s4 := [Lit(" and I would like to apply for the ")] + ([Slot(JobTitle)] + s3);
    var s5 := [Lit(" team,\n\nMy name is ")] + ([Slot(CandidateName)] + s4);
    assert BODY == [Lit("Hello ")] + ([Slot(Company)] + s5);
    FillLit("\n", [], content);
    FillSlot(CandidateName, s0, content);
    FillLit(" role.\n\nBest regards,\n", [Slot(CandidateName)] + s0, content);
    FillSlot(JobTitle, s1, content);
    FillLit(SECOND_PARAGRAPH, [Slot(JobTitle)] + s1, content);
    FillSlot(Company, s2, content);
    FillLit(" position at ", [Slot(Company)] + s2, content);
    FillSlot(JobTitle, s3, content);
    FillLit(" and I would like to apply for the ", [Slot(JobTitle)] + s3, content);
    FillSlot(CandidateName, s4, content);
    FillLit(" team,\n\nMy name is ", [Slot(CandidateName)] + s4, content);
    FillSlot(Company, s5, content);
    FillLit("Hello ", [Slot(Company)] + s5, content);
    assert "\n" + "" == "\n";
  }

  datatype Rendered = Rendered(subject: string, body: string)

  method RenderApplicationEmail(values: Values) returns (r: Rendered)
    ensures r.subject == Substituted(TemplateText(SUBJECT), TOKEN_NAMES, values)
    ensures r.body == Substituted(TemplateText(BODY), TOKEN_NAMES, values)
  {
    hide Substituted, Fill;
    var subject := Substitute(TemplateText(SUBJECT), values);
    var body := Substitute(TemplateText(BODY), values);
    r := Rendered(subject, body);
  }

  // ---------------------------------------------------------------- replacing in parts

  lemma {:induction false} ReplaceSkips(a: string, b: string, m: string, v: string)
    requires m != "" && m[0] !in a
    ensures Replace(a + b, m, v) == a + Replace(b, m, v)
  {
    if a == "" {
      assert a + b == b;
    } else {
      assert (a + b)[0] == a[0] && (a + b)[1..] == a[1..] + b;
      ReplaceSkips(a[1..], b, m, v);
    }
  }

  /** A match cannot run over a character the marker does not contain. */
  lemma MatchStaysLeft(a: string, b: string, m: string)
    requires b != "" ==> b[0] !in m
    ensures m <= a + b <==> m <= a
  {
    if |m| <= |a| {
      assert (a + b)[..|m|] == a[..|m|];
    } else if b != "" {
      assert (a + b)[|a|] == b[0] && m[|a|] in m;
    }
  }

  lemma {:induction false} ReplaceSplits(a: string, b: string, m: string, v: string)
    requires m != "" && (b != "" ==> b[0] !in m)
    ensures Replace(a + b, m, v) == Replace(a, m, v) + Replace(b, m, v)
    decreases |a|
  {
    if a == "" {
      assert a + b == b;
    } else {
      MatchStaysLeft(a, b, m);
      if m <= a {
        assert (a + b)[|m|..] == a[|m|..] + b;
        ReplaceSplits(a[|m|..], b, m, v);
      } else {
        assert (a + b)[0] == a[0] && (a + b)[1..] == a[1..] + b;
        ReplaceSplits(a[1..], b, m, v);
      }
    }
  }

  lemma MarkerChars(t: Token)
    ensures Marker(t)[0] == '{' && forall c :: c in Marker(t) ==> MarkerChar(c)
  {
  }

  lemma FillStart(segs: seq<Seg>, content: Values)
    requires segs != [] && segs[0].Lit? && segs[0].text != ""
    ensures Fill(segs, content) != "" && Fill(segs, content)[0] == segs[0].text[0]
  {
  }

  function ReplacedIn(content: Values, t: Token, v: string): Values { u => Replace(content(u), Marker(t), v) }

  function SubstitutedIn(content: Values, order: seq<Token>, values: Values): Values {
    u => Substituted(content(u), order, values)
  }

  /** Replacing a marker in a filled template replaces it in what fills the slots, and nowhere else. */
  lemma {:induction false} ReplaceFill(segs: seq<Seg>, content: Values, t: Token, v: string)
    requires WellFormed(segs)
    ensures Replace(Fill(segs, content), Marker(t), v) == Fill(segs, ReplacedIn(content, t, v))
  {
    hide Replace, MarkerChar, Marker;
    if segs == [] {
      ReplaceEmpty(Marker(t), v);
    } else {
      var rest := Fill(segs[1..], content);
      MarkerChars(t);
      ReplaceFill(segs[1..], content, t, v);
      if segs[0].Lit? {
        ReplaceSkips(segs[0].text, rest, Marker(t), v);
      } else {
        if |segs| > 1 {
          FillStart(segs[1..], content);
        }
        ReplaceSplits(content(segs[0].token), rest, Marker(t), v);
      }
    }
  }

  lemma ReplaceEmpty(m: string, v: string)
    requires m != ""
    ensures Replace("", m, v) == ""
  {
  }

  lemma {:induction false} FillSame(segs: seq<Seg>, a: Values, b: Values)
    requires forall t :: a(t) == b(t)
    ensures Fill(segs, a) == Fill(segs, b)
  {
    if segs != [] {
      FillSame(segs[1..], a, b);
    }
  }

  lemma FirstReplacement(s: string, order: seq<Token>, values: Values)
    requires order != []
    ensures Substituted(s, order, values) == Substituted(Replace(s, Marker(order[0]), values(order[0])), order[1..],
      values)
  {
  }

  /** Sequential replacement in a template is sequential replacement in each slot on its own. */
  lemma {:induction false} SubstitutedFill(segs: seq<Seg>, content: Values, order: seq<Token>, values: Values)
    requires WellFormed(segs)
    ensures Substituted(Fill(segs, content), order, values) == Fill(segs, SubstitutedIn(content, order, values))
    decreases |order|
  {
    hide Replace, Marker;
    if order == [] {
      FillSame(segs, content, SubstitutedIn(content, order, values));
    } else {
      var next := ReplacedIn(content, order[0], values(order[0]));
      ReplaceFill(segs, content, order[0], values(order[0]));
      SubstitutedFill(segs, next, order[1..], values);
      forall u: Token ensures SubstitutedIn(next, order[1..], values)(u) == SubstitutedIn(content, order, values)(u) {
        FirstReplacement(content(u), order, values);
        assert next(u) == Replace(content(u), Marker(order[0]), values(order[0]));
      }
      FillSame(segs, SubstitutedIn(next, order[1..], values), SubstitutedIn(content, order, values));
    }
  }

  // ---------------------------------------------------------------- what ends up in a slot

  lemma NamesDiffer(t: Token, u: Token)
    requires t != u
    ensures !(Marker(t) <= Marker(u))
  {
    assert Marker(JobTitle)[1] == 'j';
    assert Marker(Company)[1] == 'c' && Marker(Company)[2] == 'o';
    assert Marker(CandidateName)[1] == 'c' && Marker(CandidateName)[2] == 'a';
    var a, b := Marker(t), Marker(u);
    if |a| <= |b| {
      assert b[..|a|][1] == b[1] && b[..|a|][2] == b[2];
    }
  }

  lemma NameHasNoBrace(t: Token)
    ensures '{' !in Name(t) && '}' !in Name(t) && Name(t) != ""
  {
  }

  /** A marker is replaced as a whole by its own replacement and untouched by another's. */
  lemma ReplaceMarker(t: Token, u: Token, v: string)
    ensures Replace(Marker(u), Marker(t), v) == if t == u then v else Marker(u)
  {
    var m, n := Marker(t), Marker(u);
    if t == u {
      assert n[|m|..] == "";
      assert Replace(n, m, v) == v + Replace("", m, v);
    } else {
      NamesDiffer(t, u);
      NameHasNoBrace(u);
      var rest := n[1..];
      assert rest == Name(u) + "}" && '{' !in rest;
      ReplaceSkips(rest, "", m, v);
      assert rest + "" == rest;
      assert [n[0]] + rest == n;
    }
  }

  function Position(order: seq<Token>, t: Token): (k: nat)
    requires t in order
    ensures k < |order| && order[k] == t
  {
    if order[0] == t then 0 else 1 + Position(order[1..], t)
  }

  /** What a slot shows: its value, with the markers of the later tokens replaced in it. */
  function Shown(t: Token, order: seq<Token>, values: Values): string
    requires t in order
  {
    Substituted(values(t), order[Position(order, t) + 1..], values)
  }

  function AllShown(order: seq<Token>, values: Values): Values {
    t => if t in order then Shown(t, order, values) else ""
  }

  lemma {:induction false} MarkerBecomes(t: Token, order: seq<Token>, values: Values)
    requires t in order
    ensures Substituted(Marker(t), order, values) == Shown(t, order, values)
    decreases |order|
  {
    hide Replace, Marker;
    ReplaceMarker(order[0], t, values(order[0]));
    if order[0] != t {
      MarkerBecomes(t, order[1..], values);
      assert order[1..][Position(order[1..], t) + 1..] == order[Position(order, t) + 1..];
    }
  }

  ghost predicate AllTokens(order: seq<Token>) { forall t: Token :: t in order }

  /** For all values and any order: every slot shows its value after the later replacements, literals stay. */
  lemma SequentialMeaning(segs: seq<Seg>, order: seq<Token>, values: Values)
    requires WellFormed(segs) && AllTokens(order)
    ensures Substituted(TemplateText(segs), order, values)
      == Fill(segs, AllShown(order, values))
  {
    hide Marker, Substituted, Shown, WellFormed, Fill;
    SubstitutedFill(segs, Marker, order, values);
    forall t: Token ensures SubstitutedIn(Marker, order, values)(t) == AllShown(order, values)(t) {
      MarkerBecomes(t, order, values);
    }
    FillSame(segs, SubstitutedIn(Marker, order, values), AllShown(order, values));
  }

  // ---------------------------------------------------------------- when it is one simultaneous substitution

  /** Without a match nothing is replaced. */
  lemma {:induction false} ReplaceAbsent(s: string, m: string, v: string)
    requires m != "" && !Contains(s, m)
    ensures Replace(s, m, v) == s
  {
    if s != "" {
      assert s[0..] == s;
      forall i | 0 <= i <= |s[1..]| ensures !(m <= s[1..][i..]) {
        assert s[1..][i..] == s[i + 1..];
      }
      ReplaceAbsent(s[1..], m, v);
    }
  }

  predicate Lacks(s: string, t: Token) { !Contains(s, Marker(t)) }

  /** No value contains the marker of a token replaced after it. */
  ghost predicate NoLaterMarker(order: seq<Token>, values: Values) {
    forall i, j :: 0 <= i < j < |order| ==> Lacks(values(order[i]), order[j])
  }

  lemma {:induction false} NothingToReplace(s: string, order: seq<Token>, values: Values)
    requires forall j :: 0 <= j < |order| ==> Lacks(s, order[j])
    ensures Substituted(s, order, values) == s
    decreases |order|
  {
    hide Replace, Marker, Contains;
    if order != [] {
      assert Lacks(s, order[0]);
      ReplaceAbsent(s, Marker(order[0]), values(order[0]));
      assert forall j :: 0 <= j < |order| - 1 ==> order[1..][j] == order[j + 1];
      NothingToReplace(s, order[1..], values);
    }
  }

  lemma SimultaneousIf(segs: seq<Seg>, order: seq<Token>, values: Values)
    requires WellFormed(segs) && AllTokens(order) && NoLaterMarker(order, values)
    ensures Substituted(TemplateText(segs), order, values) == Fill(segs, values)
  {
    hide Marker, Contains, WellFormed, Fill, Substituted;
    SequentialMeaning(segs, order, values);
    forall t: Token ensures t in order && Shown(t, order, values) == values(t) {
      var k := Position(order, t);
      var later := order[k + 1..];
      forall j | 0 <= j < |later| ensures Lacks(values(t), later[j]) {
        assert later[j] == order[k + 1 + j];
      }
      NothingToReplace(values(t), later, values);
    }
    FillSame(segs, AllShown(order, values), values);
  }

  ghost predicate NoBrace(values: Values) { forall t: Token :: '{' !in values(t) }

  lemma NoBraceNoMarker(s: string, t: Token)
    requires '{' !in s
    ensures Lacks(s, t)
  {
    MarkerChars(t);
    forall i | 0 <= i <= |s| ensures !(Marker(t) <= s[i..]) {
      assert i < |s| ==> s[i..][0] == s[i];
    }
  }

  lemma {:induction false} NoBraceLeft(segs: seq<Seg>, content: Values)
    requires WellFormed(segs) && NoBrace(content)
    ensures '{' !in Fill(segs, content)
  {
    hide MarkerChar;
    if segs != [] {
      NoBraceLeft(segs[1..], content);
    }
  }

  predicate StartsPlain(segs: seq<Seg>) {
    segs == [] || (segs[0].Lit? && segs[0].text != "" && !MarkerChar(segs[0].text[0]))
  }

  lemma WellFormedCons(text: string, token: Token, rest: seq<Seg>)
    requires WellFormed(rest) && StartsPlain(rest) && '{' !in text
    ensures WellFormed([Lit(text), Slot(token)] + rest)
    ensures text != "" && !MarkerChar(text[0]) ==> StartsPlain([Lit(text), Slot(token)] + rest)
  {
    var tail := [Slot(token)] + rest;
    assert tail[1..] == rest;
    assert WellFormed(tail);
    assert ([Lit(text), Slot(token)] + rest)[1..] == tail;
  }

  lemma TextsPlain()
    ensures '{' !in "Application for " && '{' !in " at " && '{' !in "Hello " && '{' !in " team,\n\nMy name is "
    ensures '{' !in " and I would like to apply for the " && '{' !in " position at "
    ensures '{' !in " role.\n\nBest regards,\n" && '{' !in "\n"
  {
  }

  lemma SecondParagraphPlain()
    ensures '{' !in SECOND_PARAGRAPH && SECOND_PARAGRAPH != "" && SECOND_PARAGRAPH[0] == '.'
  {
    var a, b, c := ".\n\nPlease find my application attached. ", "I look forward to hearing from you ", "about the ";
    assert '{' !in a && '{' !in b && '{' !in c;
    assert SECOND_PARAGRAPH == a + b + c;
  }

  lemma SubjectWellFormed()
    ensures WellFormed(SUBJECT)
  {
    hide WellFormed;
    TextsPlain();
    NothingWellFormed();
    WellFormedCons(" at ", Company, []);
    WellFormedCons("Application for ", JobTitle, [Lit(" at "), Slot(Company)] + []);
    assert SUBJECT == [Lit("Application for "), Slot(JobTitle)] + ([Lit(" at "), Slot(Company)] + []);
  }

  lemma NothingWellFormed()
    ensures WellFormed([]) && StartsPlain([])
  {
  }

  lemma BodyEndWellFormed(long: string)
    requires '{' !in long && long != "" && !MarkerChar(long[0])
    ensures var end := [Lit(long), Slot(JobTitle), Lit(" role.\n\nBest regards,\n"), Slot(CandidateName), Lit("\n")];
      WellFormed(end) && StartsPlain(end)
  {
    hide WellFormed;
    TextsPlain();
    LastLine();
    var end := [Lit("\n")];
    WellFormedCons(" role.\n\nBest regards,\n", CandidateName, end);
    var end' := [Lit(" role.\n\nBest regards,\n"), Slot(CandidateName)] + end;
    WellFormedCons(long, JobTitle, end');
    assert [Lit(long), Slot(JobTitle)] + end'
      == [Lit(long), Slot(JobTitle), Lit(" role.\n\nBest regards,\n"), Slot(CandidateName), Lit("\n")];
  }

  lemma LastLine()
    ensures WellFormed([Lit("\n")]) && StartsPlain([Lit("\n")])
  {
  }

  lemma BodyStartWellFormed(end: seq<Seg>)
    requires WellFormed(end) && StartsPlain(end)
    ensures WellFormed([
      Lit("Hello "), Slot(Company), Lit(" team,\n\nMy name is "), Slot(CandidateName),
      Lit(" and I would like to apply for the "), Slot(JobTitle), Lit(" position at "), Slot(Company)] + end)
  {
    hide WellFormed;
    TextsPlain();
    WellFormedCons(" position at ", Company, end);
    var s3 := [Lit(" position at "), Slot(Company)] + end;
    WellFormedCons(" and I would like to apply for the ", JobTitle, s3);
    var s2 := [Lit(" and I would like to apply for the "), Slot(JobTitle)] + s3;
    WellFormedCons(" team,\n\nMy name is ", CandidateName, s2);
    var s1 := [Lit(" team,\n\nMy name is "), Slot(CandidateName)] + s2;
    WellFormedCons("Hello ", Company, s1);
    assert [Lit("Hello "), Slot(Company)] + s1 == [
      Lit("Hello "), Slot(Company), Lit(" team,\n\nMy name is "), Slot(CandidateName),
      Lit(" and I would like to apply for the "), Slot(JobTitle), Lit(" position at "), Slot(Company)] + end;
  }

  lemma TemplatesWellFormed()
    ensures WellFormed(SUBJECT) && WellFormed(BODY)
  {
    hide WellFormed;
    SubjectWellFormed();
    SecondParagraphPlain();
    BodyEndWellFormed(SECOND_PARAGRAPH);
    BodyStartWellFormed(BODY[8..]);
    assert BODY == [
      Lit("Hello "), Slot(Company), Lit(" team,\n\nMy name is "), Slot(CandidateName),
      Lit(" and I would like to apply for the "), Slot(JobTitle), Lit(" position at "), Slot(Company)] + BODY[8..];
  }

  /**
   * Values without an opening brace: subject and body are one simultaneous substitution, whatever the order
   * of the tokens, and no marker is left.
   */
  lemma BraceFreeEmail(order: seq<Token>, values: Values)
    requires AllTokens(order) && NoBrace(values)
    ensures Substituted(TemplateText(SUBJECT), order, values) == Fill(SUBJECT, values)
    ensures Substituted(TemplateText(BODY), order, values) == Fill(BODY, values)
    ensures '{' !in Fill(SUBJECT, values) && '{' !in Fill(BODY, values)
  {
    hide WellFormed, Fill, Substituted, Marker, Contains, TemplateText;
    TemplatesWellFormed();
    forall i, j | 0 <= i < j < |order| ensures Lacks(values(order[i]), order[j]) {
      NoBraceNoMarker(values(order[i]), order[j]);
    }
    SimultaneousIf(SUBJECT, order, values);
    SimultaneousIf(BODY, order, values);
    NoBraceLeft(SUBJECT, values);
    NoBraceLeft(BODY, values);
  }

  // ---------------------------------------------------------------- when it is not

  function Braces(s: string): nat { |Filter(c => c == '{', s)| }

  lemma BracesAppend(a: string, b: string)
    ensures Braces(a + b) == Braces(a) + Braces(b)
  {
    FilterAppend(c => c == '{', a, b);
  }

  lemma {:induction false} NoBraces(s: string)
    ensures '{' !in s ==> Braces(s) == 0
  {
    if s != "" {
      NoBraces(s[1..]);
    }
  }

  lemma MarkerBrace(t: Token)
    ensures Braces(Marker(t)) == 1
  {
    NameHasNoBrace(t);
    BracesAppend("{" + Name(t), "}");
    BracesAppend("{", Name(t));
    NoBraces(Name(t));
    assert Braces("{") == 1 && Braces("}") == 0;
  }

  /** Every match that is replaced by brace-free text takes a brace away. */
  lemma {:induction false} ReplaceTakesBraces(s: string, t: Token, v: string)
    requires '{' !in v
    ensures Braces(Replace(s, Marker(t), v)) <= Braces(s)
    ensures !Lacks(s, t) ==> Braces(Replace(s, Marker(t), v)) < Braces(s)
    decreases |s|
  {
    hide Marker, Braces, Lacks;
    var m := Marker(t);
    if s == "" {
      NothingLacks(t);
    } else if m <= s {
      ReplaceTakesBraces(s[|m|..], t, v);
      BracesAppend(v, Replace(s[|m|..], m, v));
      NoBraces(v);
      assert s == m + s[|m|..];
      BracesAppend(m, s[|m|..]);
      MarkerBrace(t);
    } else {
      ReplaceTakesBraces(s[1..], t, v);
      LacksTail(s, t);
      BracesAppend([s[0]], Replace(s[1..], m, v));
      BracesAppend([s[0]], s[1..]);
      assert s == [s[0]] + s[1..];
    }
  }

  lemma NothingLacks(t: Token)
    ensures Lacks("", t)
  {
  }

  lemma LacksTail(s: string, t: Token)
    requires s != "" && !(Marker(t) <= s)
    ensures Lacks(s[1..], t) ==> Lacks(s, t)
  {
    if Lacks(s[1..], t) {
      forall i | 0 <= i <= |s| ensures !(Marker(t) <= s[i..]) {
        if i == 0 {
          assert s[0..] == s;
        } else {
          assert s[i..] == s[1..][i - 1..];
        }
      }
    }
  }

  lemma {:induction false} FewerBraces(segs: seq<Seg>, t: Token, a: Values, b: Values)
    requires forall u: Token :: Braces(a(u)) <= Braces(b(u))
    ensures Braces(Fill(segs, a)) <= Braces(Fill(segs, b))
    ensures Slot(t) in segs && Braces(a(t)) < Braces(b(t)) ==> Braces(Fill(segs, a)) < Braces(Fill(segs, b))
  {
    hide Braces;
    if segs != [] {
      FewerBraces(segs[1..], t, a, b);
      var x := if segs[0].Lit? then segs[0].text else a(segs[0].token);
      var y := if segs[0].Lit? then segs[0].text else b(segs[0].token);
      BracesAppend(x, Fill(segs[1..], a));
      BracesAppend(y, Fill(segs[1..], b));
    }
  }

  lemma ShownInTurn(values: Values)
    ensures AllTokens(TOKEN_NAMES)
    ensures Shown(JobTitle, TOKEN_NAMES, values)
      == Replace(Replace(values(JobTitle), Marker(Company), values(Company)), Marker(CandidateName),
        values(CandidateName))
    ensures Shown(Company, TOKEN_NAMES, values)
      == Replace(values(Company), Marker(CandidateName), values(CandidateName))
    ensures Shown(CandidateName, TOKEN_NAMES, values) == values(CandidateName)
  {
    hide Replace, Marker;
    assert TOKEN_NAMES[0] == JobTitle && TOKEN_NAMES[1] == Company && TOKEN_NAMES[2] == CandidateName;
    forall t: Token ensures t in TOKEN_NAMES {
      match t
      case JobTitle =>
      case Company =>
      case CandidateName =>
    }
    assert Position(TOKEN_NAMES, JobTitle) == 0;
    assert TOKEN_NAMES[1..][0] == Company;
    assert Position(TOKEN_NAMES, Company) == 1;
    assert TOKEN_NAMES[1..][1..] == TOKEN_NAMES[2..] && TOKEN_NAMES[2..][0] == CandidateName;
    assert TOKEN_NAMES[2..][1..] == [] && TOKEN_NAMES[3..] == [];
  }

  /**
   * With a company and a candidate name free of braces, a template that uses the job title comes out as one
   * simultaneous substitution if and only if the job title contains neither of the other two markers.
   */
  lemma TitleExactly(segs: seq<Seg>, values: Values)
    requires WellFormed(segs) && Slot(JobTitle) in segs
    requires '{' !in values(Company) && '{' !in values(CandidateName)
    ensures Substituted(TemplateText(segs), TOKEN_NAMES, values) == Fill(segs, values)
      <==> Lacks(values(JobTitle), Company) && Lacks(values(JobTitle), CandidateName)
  {
    hide Marker, WellFormed, Fill, Substituted, TemplateText, Shown, Replace, Braces, Contains;
    ShownInTurn(values);
    SequentialMeaning(segs, TOKEN_NAMES, values);
    var shown := AllShown(TOKEN_NAMES, values);
    NoBraceNoMarker(values(Company), CandidateName);
    ReplaceAbsent(values(Company), Marker(CandidateName), values(CandidateName));
    ReplaceTwice(values(JobTitle), values(Company), values(CandidateName));
    FewerBraces(segs, JobTitle, shown, values);
    if Lacks(values(JobTitle), Company) && Lacks(values(JobTitle), CandidateName) {
      FillSame(segs, shown, values);
    }
  }

  lemma ReplaceTwice(title: string, company: string, name: string)
    requires '{' !in company && '{' !in name
    ensures var r := Replace(Replace(title, Marker(Company), company), Marker(CandidateName), name);
      && (Lacks(title, Company) && Lacks(title, CandidateName) ==> r == title)
      && Braces(r) <= Braces(title)
      && (!(Lacks(title, Company) && Lacks(title, CandidateName)) ==> Braces(r) < Braces(title))
  {
    hide Marker, Replace, Braces, Contains;
    ReplaceTakesBraces(title, Company, company);
    ReplaceTakesBraces(Replace(title, Marker(Company), company), CandidateName, name);
    if Lacks(title, Company) {
      ReplaceAbsent(title, Marker(Company), company);
      if Lacks(title, CandidateName) {
        ReplaceAbsent(title, Marker(CandidateName), name);
      }
    }
  }

  /** With a job title and a candidate name free of braces, the company must not contain the candidate's marker. */
  lemma CompanyExactly(segs: seq<Seg>, values: Values)
    requires WellFormed(segs) && Slot(Company) in segs
    requires '{' !in values(JobTitle) && '{' !in values(CandidateName)
    ensures Substituted(TemplateText(segs), TOKEN_NAMES, values) == Fill(segs, values)
      <==> Lacks(values(Company), CandidateName)
  {
    hide Marker, WellFormed, Fill, Substituted, TemplateText, Shown, Replace, Braces, Contains;
    ShownInTurn(values);
    SequentialMeaning(segs, TOKEN_NAMES, values);
    var shown := AllShown(TOKEN_NAMES, values);
    NoBraceNoMarker(values(JobTitle), Company);
    NoBraceNoMarker(values(JobTitle), CandidateName);
    ReplaceAbsent(values(JobTitle), Marker(Company), values(Company));
    ReplaceAbsent(values(JobTitle), Marker(CandidateName), values(CandidateName));
    ReplaceTakesBraces(values(Company), CandidateName, values(CandidateName));
    FewerBraces(segs, Company, shown, values);
    if Lacks(values(Company), CandidateName) {
      ReplaceAbsent(values(Company), Marker(CandidateName), values(CandidateName));
      FillSame(segs, shown, values);
    }
  }

  /** A job title that is the company marker itself: the letter names the company twice. */
  lemma MarkerAsTitle(values: Values)
    requires values(JobTitle) == Marker(Company) && '{' !in values(Company) && '{' !in values(CandidateName)
    ensures Substituted(TemplateText(SUBJECT), TOKEN_NAMES, values)
      == "Application for " + values(Company) + " at " + values(Company)
    ensures Substituted(TemplateText(SUBJECT), TOKEN_NAMES, values) != Fill(SUBJECT, values)
  {
    hide Marker, WellFormed, Substituted, TemplateText, Shown, Replace, Contains;
    TemplatesWellFormed();
    assert SUBJECT[1] == Slot(JobTitle);
    TitleExactly(SUBJECT, values);
    MarkerInMarker(Company);
    ShownInTurn(values);
    SequentialMeaning(SUBJECT, TOKEN_NAMES, values);
    ReplaceMarker(Company, Company, values(Company));
    NoBraceNoMarker(values(Company), CandidateName);
    ReplaceAbsent(values(Company), Marker(CandidateName), values(CandidateName));
    FillSubject(AllShown(TOKEN_NAMES, values));
  }

  lemma MarkerInMarker(t: Token)
    ensures !Lacks(Marker(t), t)
  {
    assert Marker(t) <= Marker(t)[0..];
  }

  lemma FillSubject(content: Values)
    ensures Fill(SUBJECT, content) == "Application for " + content(JobTitle) + " at " + content(Company)
  {
    var pre := "Application for ";
    FillTwo(pre, JobTitle, SUBJECT[2..], content);
    FillTwo(" at ", Company, [], content);
    assert SUBJECT == [Lit(pre), Slot(JobTitle)] + SUBJECT[2..];
    assert SUBJECT[2..] == [Lit(" at "), Slot(Company)] + [];
  }

  lemma FillTwo(text: string, t: Token, rest: seq<Seg>, content: Values)
    ensures Fill([Lit(text), Slot(t)] + rest, content) == text + content(t) + Fill(rest, content)
  {
    var tail := [Slot(t)] + rest;
    assert ([Lit(text), Slot(t)] + rest)[1..] == tail;
    assert tail[1..] == rest;
    assert Fill(tail, content) == content(t) + Fill(rest, content);
  }
}
