/** The SQL LIKE predicate and the patterns jobs.py builds for it. */
module Like {
  import opened Text

  /** `_like_pattern` before its percent signs: three replacements, one after another. */
  function EscapeLike(needle: string): string {
    ReplaceChar(ReplaceChar(ReplaceChar(needle, '\\', "\\\\"), '%', "\\%"), '_', "\\_")
  }

  function LikePattern(needle: string): string { "%" + EscapeLike(needle) + "%" }

  /**
   * LIKE with backslash as its escape character (section 8.5 of ISO/IEC 9075-2): an escaped character
   * stands for itself, `%` for any string, `_` for any one character.
   */
  predicate Matches(pattern: string, text: string)
    decreases |pattern|, |text|
  {
    if pattern == "" then text == ""
    else if pattern[0] == '\\' then
      |pattern| > 1 && text != "" && text[0] == pattern[1] && Matches(pattern[2..], text[1..])
    else if pattern[0] == '%' then Matches(pattern[1..], text) || (text != "" && Matches(pattern, text[1..]))
    else if pattern[0] == '_' then text != "" && Matches(pattern[1..], text[1..])
    else text != "" && text[0] == pattern[0] && Matches(pattern[1..], text[1..])
  }

  /** The standard raises an error unless each escape character is followed by `%`, `_` or itself. */
  predicate LegalPattern(pattern: string)
    decreases |pattern|
  {
    if pattern == "" then true
    else if pattern[0] == '\\' then |pattern| > 1 && pattern[1] in {'\\', '%', '_'} && LegalPattern(pattern[2..])
    else LegalPattern(pattern[1..])
  }

  predicate Wild(c: char) { c == '\\' || c == '%' || c == '_' }

  lemma EscapeLikeCons(c: char, s: string)
    ensures EscapeLike([c] + s) == (if Wild(c) then ['\\', c] else [c]) + EscapeLike(s)
  {
    EscapeLikeOne(c);
    hide ReplaceChar;
    var s1, c1 := ReplaceChar(s, '\\', "\\\\"), ReplaceChar([c], '\\', "\\\\");
    var s2, c2 := ReplaceChar(s1, '%', "\\%"), ReplaceChar(c1, '%', "\\%");
    ReplaceCharAppend([c], s, '\\', "\\\\");
    ReplaceCharAppend(c1, s1, '%', "\\%");
    ReplaceCharAppend(c2, s2, '_', "\\_");
  }

  lemma EscapeLikeOne(c: char)
    ensures EscapeLike([c]) == if Wild(c) then ['\\', c] else [c]
  {
    ReplaceCharOne(c, '\\', "\\\\");
    ReplaceCharOne(c, '%', "\\%");
    ReplaceCharOne(c, '_', "\\_");
    ReplaceCharOne('\\', '%', "\\%");
    ReplaceCharOne('\\', '_', "\\_");
    ReplaceCharOne('%', '_', "\\_");
    hide ReplaceChar;
    assert "\\\\" == ['\\'] + ['\\'] && "\\%" == ['\\'] + ['%'];
    ReplaceCharAppend(['\\'], ['\\'], '%', "\\%");
    ReplaceCharAppend(['\\'], ['\\'], '_', "\\_");
    ReplaceCharAppend(['\\'], ['%'], '_', "\\_");
  }

  /** An escaped needle matches exactly itself, whatever the pattern goes on with. */
  lemma {:induction false} EscapedMatchesItself(needle: string, rest: string, text: string)
    ensures Matches(EscapeLike(needle) + rest, text) <==> needle <= text && Matches(rest, text[|needle|..])
  {
    if needle == "" {
      assert EscapeLike("") + rest == rest;
    } else {
      hide EscapeLike;
      var c, tail := needle[0], needle[1..];
      assert needle == [c] + tail;
      EscapeLikeCons(c, tail);
      var pattern := EscapeLike(needle) + rest;
      if Wild(c) {
        assert pattern[0] == '\\' && pattern[1] == c && pattern[2..] == EscapeLike(tail) + rest;
      } else {
        assert pattern[0] == c && pattern[1..] == EscapeLike(tail) + rest;
      }
      if text != "" {
        EscapedMatchesItself(tail, rest, text[1..]);
        assert needle <= text <==> text[0] == c && tail <= text[1..];
      }
    }
  }

  predicate Contains(text: string, needle: string) { exists i :: 0 <= i <= |text| && needle <= text[i..] }

  lemma {:induction false} PercentMatchesAll(text: string)
    ensures Matches("%", text)
  {
    assert "%"[1..] == "";
    if text != "" {
      PercentMatchesAll(text[1..]);
    }
  }

  lemma {:induction false} LeadingPercent(rest: string, text: string)
    ensures Matches("%" + rest, text) <==> exists i :: 0 <= i <= |text| && Matches(rest, text[i..])
  {
    var pattern := "%" + rest;
    assert pattern[1..] == rest;
    assert text[0..] == text;
    if text != "" {
      LeadingPercent(rest, text[1..]);
      if Matches(pattern, text[1..]) {
        var i :| 0 <= i <= |text| - 1 && Matches(rest, text[1..][i..]);
        assert text[1..][i..] == text[i + 1..];
      }
      if exists i :: 1 <= i <= |text| && Matches(rest, text[i..]) {
        var i :| 1 <= i <= |text| && Matches(rest, text[i..]);
        assert text[1..][i - 1..] == text[i..];
      }
    }
  }

  /** The pattern built from a needle matches a text if and only if the needle is a substring of it. */
  lemma LikeIsSubstring(needle: string, text: string)
    ensures Matches(LikePattern(needle), text) <==> Contains(text, needle)
  {
    hide EscapeLike, Matches;
    var rest := EscapeLike(needle) + "%";
    assert LikePattern(needle) == "%" + rest;
    LeadingPercent(rest, text);
    forall i | 0 <= i <= |text| ensures Matches(rest, text[i..]) <==> needle <= text[i..] {
      EscapedMatchesItself(needle, "%", text[i..]);
      if needle <= text[i..] {
        PercentMatchesAll(text[i..][|needle|..]);
      }
    }
  }

  /** No needle makes the database raise a pattern error. */
  lemma {:induction false} LikePatternLegal(needle: string)
    ensures LegalPattern(EscapeLike(needle) + "%") && LegalPattern(LikePattern(needle))
  {
    var rest := EscapeLike(needle) + "%";
    if needle == "" {
      assert rest == "%" && "%"[1..] == "";
    } else {
      hide EscapeLike;
      var c, tail := needle[0], needle[1..];
      assert needle == [c] + tail;
      EscapeLikeCons(c, tail);
      LikePatternLegal(tail);
      if Wild(c) {
        assert rest[2..] == EscapeLike(tail) + "%";
      } else {
        assert rest[1..] == EscapeLike(tail) + "%";
      }
    }
    assert LikePattern(needle) == "%" + rest && LikePattern(needle)[1..] == rest;
  }
}
