/** Slugs: the regex part of `_slugify`, and the two searches for a free one. */
module Slugs {
  import opened Text
  import opened CharRuns
  import opened Html

  // ---------------------------------------------------------------- _slugify

  predicate Alnum(c: char) { 'a' <= c <= 'z' || 'A' <= c <= 'Z' || '0' <= c <= '9' }

  predicate Other(c: char) { !Alnum(c) }

  predicate Hyphen(c: char) { c == '-' }

  /** `re.sub(r"[^a-zA-Z0-9]+", "-", s)`. */
  function Hyphenate(s: string): string { SubRuns(s, Other, "-") }

  /** `_slugify` after Unicode folding. */
  function Slugify(folded: string): string {
    var slug := StripBoth(Hyphenate(LowerAll(folded)), Hyphen);
    if slug == "" then "company" else slug
  }

  predicate SlugChar(c: char) { 'a' <= c <= 'z' || '0' <= c <= '9' || c == '-' }

  /** Lower-case letters and digits in groups, one hyphen between groups. */
  predicate Hyphened(s: string) {
    && (forall i :: 0 <= i < |s| ==> SlugChar(s[i]))
    && (forall i :: 0 <= i < |s| - 1 ==> s[i] != '-' || s[i + 1] != '-')
  }

  predicate IsSlug(s: string) { Hyphened(s) && s != "" && s[0] != '-' && s[|s| - 1] != '-' }

  lemma {:induction false} HyphenateShape(s: string)
    requires forall i :: 0 <= i < |s| ==> Lower(s[i]) == s[i]
    ensures Hyphened(Hyphenate(s))
    ensures Hyphenate(s) != "" && Hyphenate(s)[0] == '-' ==> s != "" && !Alnum(s[0])
    ensures Hyphened(s) ==> Hyphenate(s) == s
  {
    if s != "" {
      HyphenateShape(s[1..]);
      var rest := Hyphenate(s[1..]);
      assert s == [s[0]] + s[1..];
      if Hyphened(s) {
        assert Hyphened(s[1..]);
      }
      if Alnum(s[0]) {
        HyphenedCons(s[0], rest);
      } else if !(|s| > 1 && !Alnum(s[1])) {
        assert s[1..] != "" ==> s[1..][0] == s[1];
        HyphenedCons('-', rest);
      }
    }
  }

  lemma HyphenedCons(c: char, s: string)
    requires Hyphened(s) && SlugChar(c) && (c == '-' && s != "" ==> s[0] != '-')
    ensures Hyphened([c] + s)
  {
    assert forall i :: 0 <= i < |s| ==> ([c] + s)[i + 1] == s[i];
  }

  lemma StripShape(s: string)
    requires Hyphened(s)
    ensures var r := StripBoth(s, Hyphen); r != "" ==> IsSlug(r)
    ensures IsSlug(s) ==> StripBoth(s, Hyphen) == s
  {
    hide StripBoth;
    var left, right := StripIs(s, Hyphen);
    var r := StripBoth(s, Hyphen);
    assert forall i :: 0 <= i < |r| ==> r[i] == s[|left| + i];
    if IsSlug(s) {
      assert "" + s + "" == s;
      StripOnly("", s, "", Hyphen);
    }
  }

  lemma LowerTwice(s: string)
    ensures forall i :: 0 <= i < |s| ==> Lower(LowerAll(s)[i]) == LowerAll(s)[i]
    ensures IsSlug(s) ==> LowerAll(s) == s
  {
  }

  lemma CompanyIsSlug()
    ensures IsSlug("company")
  {
  }

  /** Every name gives a slug, and a slug gives itself. */
  lemma SlugifyShape(folded: string)
    ensures IsSlug(Slugify(folded))
    ensures IsSlug(folded) ==> Slugify(folded) == folded
  {
    hide Hyphenate, LowerAll, Lower, Hyphened, StripBoth;
    LowerTwice(folded);
    CompanyIsSlug();
    HyphenateShape(LowerAll(folded));
    StripShape(Hyphenate(LowerAll(folded)));
  }

  /**
   * The slug of a name is its maximal runs of letters and digits, in lower case, joined by hyphens, or "company" if
   * there are none.
   */
  lemma SlugJoinsWords(folded: string)
    ensures var words := Words(LowerAll(folded), Other);
      Slugify(folded) == if words == [] then "company" else Join("-", words)
  {
    hide SubRuns, StripBoth, Words, Join, LowerAll;
    var text := LowerAll(folded);
    var words := Words(text, Other);
    StrippedJoin(text, Other, "-", Hyphen);
    var gaps := WordsAre(text, Other);
    if words == [] {
      JoinNothing();
    } else {
      JoinBare(words);
      assert "" + Join("-", words) + "" == Join("-", words);
      StripOnly("", Join("-", words), "", Hyphen);
    }
  }

  lemma JoinNothing()
    ensures Join("-", []) == "" && StripBoth("", Hyphen) == ""
  {
  }

  lemma {:induction false} JoinBare(words: seq<string>)
    requires words != [] && forall i :: 0 <= i < |words| ==> words[i] != "" && forall c :: c in words[i] ==> !Other(c)
    ensures var s := Join("-", words); s != "" && !Hyphen(s[0]) && !Hyphen(s[|s| - 1])
  {
    hide Alnum;
    var first := words[0];
    assert first[0] in first && first[|first| - 1] in first;
    HyphenIsOther();
    if |words| > 1 {
      JoinBare(words[1..]);
    }
  }

  lemma HyphenIsOther()
    ensures Other('-')
  {
  }

  // ---------------------------------------------------------------- candidates

  /** base, base-2, base-3, ... */
  function Candidate(base: string, k: nat): string {
    if k == 0 then base else base + "-" + Dec(k + 1)
  }

  lemma CandidatesDiffer(base: string, j: nat, k: nat)
    requires Candidate(base, j) == Candidate(base, k)
    ensures j == k
  {
    if j > 0 && k > 0 {
      assert Dec(j + 1) == Candidate(base, j)[|base| + 1..];
      assert Dec(k + 1) == Candidate(base, k)[|base| + 1..];
      DecInjective(j + 1, k + 1);
    }
  }

  ghost predicate AllTaken(base: string, taken: set<string>, n: nat) {
    forall j :: 0 <= j < n ==> Candidate(base, j) in taken
  }

  /** Distinct candidates cannot all be taken for longer than the set is large. */
  lemma {:induction false} Pigeonhole(base: string, taken: set<string>, n: nat)
    requires AllTaken(base, taken, n)
    ensures n <= |taken|
  {
    hide Candidate;
    if n > 0 {
      var last := Candidate(base, n - 1);
      forall j | 0 <= j < n - 1 ensures Candidate(base, j) in taken - {last} {
        if Candidate(base, j) == last {
          CandidatesDiffer(base, j, n - 1);
        }
      }
      Pigeonhole(base, taken - {last}, n - 1);
    }
  }

  ghost predicate IsFirstFree(base: string, taken: set<string>, k: nat) {
    AllTaken(base, taken, k) && Candidate(base, k) !in taken
  }

  /** The index of the first free candidate from `k` on. */
  function FreeFrom(base: string, taken: set<string>, k: nat): (free: nat)
    requires AllTaken(base, taken, k)
    ensures IsFirstFree(base, taken, free)
    decreases |taken| - k
  {
    Pigeonhole(base, taken, k);
    if Candidate(base, k) !in taken then k
    else
      assert AllTaken(base, taken, k + 1);
      Pigeonhole(base, taken, k + 1);
      FreeFrom(base, taken, k + 1)
  }

  function FirstFree(base: string, taken: set<string>): (free: nat)
    ensures IsFirstFree(base, taken, free)
    ensures free <= |taken|
  {
    var free := FreeFrom(base, taken, 0);
    Pigeonhole(base, taken, free);
    free
  }

  lemma FirstFreeUnique(base: string, taken: set<string>, k: nat)
    requires IsFirstFree(base, taken, k)
    ensures k == FirstFree(base, taken)
  {
  }

  // ---------------------------------------------------------------- the two searches

  /** `_unique_slug`: ends for every finite set, and takes the first free candidate. */
  method UniqueSlug(base: string, taken: set<string>) returns (slug: string, taken': set<string>)
    ensures slug == Candidate(base, FirstFree(base, taken))
    ensures taken' == taken + {slug}
  {
    slug := base;
    var suffix := 2;
    while slug in taken
      invariant suffix >= 2 && slug == Candidate(base, suffix - 2)
      invariant AllTaken(base, taken, suffix - 2)
      decreases |taken| + 2 - suffix
    {
      assert AllTaken(base, taken, suffix - 1);
      Pigeonhole(base, taken, suffix - 1);
      slug := base + "-" + Dec(suffix);
      suffix := suffix + 1;
    }
    FirstFreeUnique(base, taken, suffix - 2);
    taken' := taken + {slug};
  }

  const MAX_SLUG_ATTEMPTS: nat := 10000

  /** `generate_unique_slug`, where `base` is the library slug; None stands for the RuntimeError. */
  method GenerateUniqueSlug(base: string, taken: set<string>) returns (r: Option<string>)
    ensures r == if FirstFree(base, taken) <= MAX_SLUG_ATTEMPTS then Some(Candidate(base, FirstFree(base, taken)))
      else None
    ensures r == None <==> AllTaken(base, taken, 10001)
  {
    if base !in taken {
      FirstFreeUnique(base, taken, 0);
      return Some(base);
    }
    for suffix := 2 to MAX_SLUG_ATTEMPTS + 2
      invariant AllTaken(base, taken, suffix - 1)
    {
      var candidate := base + "-" + Dec(suffix);
      assert candidate == Candidate(base, suffix - 1);
      if candidate !in taken {
        FirstFreeUnique(base, taken, suffix - 1);
        return Some(candidate);
      }
    }
    return None;
  }

  /** Both searches agree, and the bounded one gives up only on a market with more than 10000 slugs. */
  lemma SearchesAgree(base: string, taken: set<string>)
    ensures AllTaken(base, taken, 10001) <==> FirstFree(base, taken) > MAX_SLUG_ATTEMPTS
    ensures AllTaken(base, taken, 10001) ==> |taken| > 10000
  {
    if AllTaken(base, taken, 10001) {
      Pigeonhole(base, taken, 10001);
    }
  }

  /** A candidate built on a slug is a slug, so suffixed names keep the shape. */
  lemma CandidateIsSlug(base: string, k: nat)
    requires IsSlug(base)
    ensures IsSlug(Candidate(base, k))
  {
    hide Dec, IsSlug;
    if k > 0 {
      DecVal(k + 1);
      SuffixedIsSlug(base, Dec(k + 1));
    }
  }

  lemma SuffixedIsSlug(base: string, digits: string)
    requires IsSlug(base) && AllDigits(digits) && digits != ""
    ensures IsSlug(base + "-" + digits)
  {
    hide Hyphened, Val;
    SuffixedHyphened(base, digits);
  }

  lemma SuffixedHyphened(base: string, digits: string)
    requires Hyphened(base) && base != "" && base[|base| - 1] != '-' && AllDigits(digits) && digits != ""
    ensures Hyphened(base + "-" + digits)
    ensures (base + "-" + digits)[0] == base[0] && (base + "-" + digits)[|base| + |digits|] == digits[|digits| - 1]
    ensures digits[|digits| - 1] != '-'
  {
    var s := base + "-" + digits;
    assert forall i :: 0 <= i < |base| ==> s[i] == base[i];
    assert s[|base|] == '-';
    assert forall i :: |base| < i < |s| ==> s[i] == digits[i - |base| - 1];
  }
}
