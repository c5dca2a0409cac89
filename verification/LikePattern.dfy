/**
  LIKE patterns with ESCAPE '\' and the escaping of user text that is pasted into them.

  The matcher is parametrised by the character comparison of the backend: exact on PostgreSQL,
  ASCII case folding on SQLite.
 */
module LikePattern {

  type CharEq = (char, char) -> bool

  const ESCAPE: char := '\\'

  /** strings.ReplaceAll for a pattern of one character. */
  function ReplaceAll(s: string, c: char, sub: string): string
  {
    if s == [] then [] else (if s[0] == c then sub else [s[0]]) + ReplaceAll(s[1..], c, sub)
  }

  /** Three sequential passes; the backslash pass has to come first. */
  function EscapeLike(s: string): string
  {
    ReplaceAll(ReplaceAll(ReplaceAll(s, '\\', "\\\\"), '%', "\\%"), '_', "\\_")
  }

  predicate IsSpecial(c: char)
  {
    c == '%' || c == '_' || c == ESCAPE
  }

  /** The reference: every special character gets one backslash, in a single pass. */
  function EscapeOnce(s: string): string
  {
    if s == [] then [] else (if IsSpecial(s[0]) then [ESCAPE, s[0]] else [s[0]]) + EscapeOnce(s[1..])
  }

  lemma {:induction false} ReplaceAllAppend(a: string, b: string, c: char, sub: string)
    ensures ReplaceAll(a + b, c, sub) == ReplaceAll(a, c, sub) + ReplaceAll(b, c, sub)
  {
    if a == [] {
      assert a + b == b;
    } else {
      assert (a + b)[1..] == a[1..] + b;
      ReplaceAllAppend(a[1..], b, c, sub);
    }
  }

  lemma {:induction false} EscapeLikeIsOnePass(s: string)
    ensures EscapeLike(s) == EscapeOnce(s)
  {
    if s == [] {
    } else {
      var h := [s[0]];
      assert s == h + s[1..] && h[1..] == [];
      ReplaceAllAppend(h, s[1..], '\\', "\\\\");
      var h1 := ReplaceAll(h, '\\', "\\\\");
      assert h1 == if s[0] == '\\' then "\\\\" else h;
      ReplaceAllAppend(h1, ReplaceAll(s[1..], '\\', "\\\\"), '%', "\\%");
      var h2 := ReplaceAll(h1, '%', "\\%");
      if s[0] == '\\' {
        assert h1[1..] == "\\" && h1[1..][1..] == [];
        assert h2 == h1;
      }
      assert h2 == if s[0] == '\\' then "\\\\" else if s[0] == '%' then "\\%" else h;
      ReplaceAllAppend(h2, ReplaceAll(ReplaceAll(s[1..], '\\', "\\\\"), '%', "\\%"), '_', "\\_");
      var h3 := ReplaceAll(h2, '_', "\\_");
      if |h2| == 2 {
        assert h2[1..] == [h2[1]] && h2[1..][1..] == [];
        assert h3 == h2;
      }
      EscapeLikeIsOnePass(s[1..]);
    }
  }

  /** SQL LIKE with ESCAPE '\': % any run, _ any one character, \x the character x. */
  predicate Like(eq: CharEq, pattern: string, text: string)
    decreases |pattern|, |text|
  {
    if pattern == [] then text == []
    else if pattern[0] == '%' then
      Like(eq, pattern[1..], text) || (text != [] && Like(eq, pattern, text[1..]))
    else if pattern[0] == '_' then
      text != [] && Like(eq, pattern[1..], text[1..])
    else if pattern[0] == ESCAPE then
      |pattern| >= 2 && text != [] && eq(pattern[1], text[0]) && Like(eq, pattern[2..], text[1..])
    else
      text != [] && eq(pattern[0], text[0]) && Like(eq, pattern[1..], text[1..])
  }

  /** s occurs in text at offset k, character by character under eq. */
  predicate OccursAt(eq: CharEq, s: string, text: string, k: nat)
  {
    k + |s| <= |text| && forall i :: 0 <= i < |s| ==> eq(s[i], text[k + i])
  }

  /** Under plain equality that is a slice of the text. */
  lemma {:induction false} OccursIsSlice(eq: CharEq, s: string, text: string, k: nat)
    requires forall a, b :: eq(a, b) <==> a == b
    ensures OccursAt(eq, s, text, k) <==> k + |s| <= |text| && text[k..k + |s|] == s
  {
    if OccursAt(eq, s, text, k) {
      assert forall i :: 0 <= i < |s| ==> text[k..k + |s|][i] == s[i];
    }
    if k + |s| <= |text| && text[k..k + |s|] == s {
      assert forall i :: 0 <= i < |s| ==> s[i] == text[k..k + |s|][i] == text[k + i];
    }
  }

  lemma {:induction false} OccursStep(eq: CharEq, s: string, text: string)
    requires s != [] && text != []
    ensures OccursAt(eq, s, text, 0) <==> eq(s[0], text[0]) && OccursAt(eq, s[1..], text[1..], 0)
  {
    if OccursAt(eq, s, text, 0) {
      assert forall i :: 0 <= i < |s| - 1 ==> s[1..][i] == s[i + 1] && text[1..][i] == text[i + 1];
    }
    if eq(s[0], text[0]) && OccursAt(eq, s[1..], text[1..], 0) {
      forall i | 0 <= i < |s| ensures eq(s[i], text[i]) {
        if i > 0 { assert s[1..][i - 1] == s[i] && text[1..][i - 1] == text[i]; }
      }
    }
  }

  lemma {:induction false} EscapedMatchesLiterally(eq: CharEq, s: string, p: string, text: string)
    ensures Like(eq, EscapeOnce(s) + p, text) <==> OccursAt(eq, s, text, 0) && Like(eq, p, text[|s|..])
  {
    if s == [] {
      assert EscapeOnce(s) + p == p && text[|s|..] == text;
    } else {
      var e := EscapeOnce(s) + p;
      assert e[if IsSpecial(s[0]) then 2 else 1..] == EscapeOnce(s[1..]) + p;
      if text != [] {
        EscapedMatchesLiterally(eq, s[1..], p, text[1..]);
        OccursStep(eq, s, text);
        if OccursAt(eq, s, text, 0) { assert text[1..][|s| - 1..] == text[|s|..]; }
      }
    }
  }

  /** Some end of text matches the pattern. */
  predicate MatchesAnEnd(eq: CharEq, p: string, text: string)
  {
    exists k :: 0 <= k <= |text| && Like(eq, p, text[k..])
  }

  lemma {:induction false} EndsOf(eq: CharEq, p: string, text: string)
    requires text != []
    ensures MatchesAnEnd(eq, p, text) <==> Like(eq, p, text) || MatchesAnEnd(eq, p, text[1..])
  {
    var rest := text[1..];
    assert text[0..] == text;
    if MatchesAnEnd(eq, p, text) && !Like(eq, p, text) {
      var k :| 0 <= k <= |text| && Like(eq, p, text[k..]);
      assert rest[k - 1..] == text[k..];
    }
    if MatchesAnEnd(eq, p, rest) {
      var k :| 0 <= k <= |rest| && Like(eq, p, rest[k..]);
      assert rest[k..] == text[k + 1..];
    }
  }

  lemma {:induction false} PercentSkips(eq: CharEq, p: string, text: string)
    ensures Like(eq, "%" + p, text) <==> MatchesAnEnd(eq, p, text)
    decreases |text|
  {
    assert ("%" + p)[0] == '%' && ("%" + p)[1..] == p;
    if text == [] {
      assert text[0..] == text;
    } else {
      PercentSkips(eq, p, text[1..]);
      EndsOf(eq, p, text);
    }
  }

  /** esc(s)% is the prefix test. */
  lemma {:induction false} StartsWithPattern(eq: CharEq, s: string, text: string)
    ensures Like(eq, EscapeLike(s) + "%", text) <==> OccursAt(eq, s, text, 0)
  {
    EscapeLikeIsOnePass(s);
    EscapedMatchesLiterally(eq, s, "%", text);
    if |s| <= |text| {
      var rest := text[|s|..];
      PercentSkips(eq, [], rest);
      assert rest[|rest|..] == [];
      assert "%" + [] == "%";
    }
  }

  /** %esc(s) is the suffix test. */
  lemma {:induction false} EndsWithPattern(eq: CharEq, s: string, text: string)
    ensures Like(eq, "%" + EscapeLike(s), text) <==> |s| <= |text| && OccursAt(eq, s, text, |text| - |s|)
  {
    EscapeLikeIsOnePass(s);
    PercentSkips(eq, EscapeLike(s), text);
    forall k | 0 <= k <= |text|
      ensures Like(eq, EscapeLike(s), text[k..]) <==> k == |text| - |s| && OccursAt(eq, s, text, k)
    {
      EscapedMatchesLiterally(eq, s, [], text[k..]);
      assert EscapeOnce(s) + [] == EscapeOnce(s);
      OccursInSuffix(eq, s, text, k);
    }
  }

  /** %esc(s)% is the substring test. */
  lemma {:induction false} ContainsPattern(eq: CharEq, s: string, text: string)
    ensures Like(eq, "%" + EscapeLike(s) + "%", text) <==> exists k :: 0 <= k <= |text| && OccursAt(eq, s, text, k)
  {
    assert "%" + EscapeLike(s) + "%" == "%" + (EscapeLike(s) + "%");
    PercentSkips(eq, EscapeLike(s) + "%", text);
    forall k | 0 <= k <= |text|
      ensures Like(eq, EscapeLike(s) + "%", text[k..]) <==> OccursAt(eq, s, text, k)
    {
      StartsWithPattern(eq, s, text[k..]);
      OccursInSuffix(eq, s, text, k);
    }
  }

  lemma {:induction false} OccursInSuffix(eq: CharEq, s: string, text: string, k: nat)
    requires k <= |text|
    ensures OccursAt(eq, s, text[k..], 0) <==> OccursAt(eq, s, text, k)
  {
    if k + |s| <= |text| {
      assert forall i :: 0 <= i < |s| ==> text[k..][i] == text[k + i];
    }
  }
}
