/** Turning a raw user term into an FTS5 MATCH expression made of literal strings only. */
module LiteralFts5 {
  import opened Options

  const QUOTE: char := '\"'

  /** Unicode white space, the separator of strings.FieldsSeq. */
  predicate IsSpace(c: char)
  {
    || c in {'\t', '\n', '\U{B}', '\U{C}', '\r', ' ', '\U{85}', '\U{A0}', '\U{1680}'}
    || '\U{2000}' <= c <= '\U{200A}'
    || c in {'\U{2028}', '\U{2029}', '\U{202F}', '\U{205F}', '\U{3000}'}
  }

  /** The length of the leading run of characters that are not white space. */
  function RunLength(s: string): (n: nat)
    ensures n <= |s|
    ensures forall i :: 0 <= i < n ==> !IsSpace(s[i])
    ensures n < |s| ==> IsSpace(s[n])
  {
    if s == [] || IsSpace(s[0]) then 0 else 1 + RunLength(s[1..])
  }

  /** The maximal runs of non-space characters, in order. */
  function Fields(term: string): seq<string>
    decreases |term|
  {
    if term == [] then []
    else if IsSpace(term[0]) then Fields(term[1..])
    else [term[..RunLength(term)]] + Fields(term[RunLength(term)..])
  }

  function DoubleQuotes(s: string): string
  {
    if s == [] then [] else (if s[0] == QUOTE then [QUOTE, QUOTE] else [s[0]]) + DoubleQuotes(s[1..])
  }

  function Quoted(tok: string): string
  {
    [QUOTE] + DoubleQuotes(tok) + [QUOTE]
  }

  /** What the builder holds after writing the tokens. */
  function Rendered(toks: seq<string>): string
  {
    if toks == [] then []
    else if |toks| == 1 then Quoted(toks[0])
    else Rendered(toks[..|toks| - 1]) + " " + Quoted(toks[|toks| - 1])
  }

  method LiteralFTS5(term: string) returns (b: string)
    ensures b == Rendered(Fields(term))
  {
    var toks := Fields(term);
    b := [];
    for i := 0 to |toks|
      invariant b == Rendered(toks[..i]) && (i > 0 ==> b != [])
    {
      assert toks[..i + 1][..i] == toks[..i];
      if |b| > 0 {
        b := b + " ";
      }
      b := b + [QUOTE];
      b := b + DoubleQuotes(toks[i]);
      b := b + [QUOTE];
    }
    assert toks[..|toks|] == toks;
  }

  // -----------------------------------------------------------------------------------------
  // Reading it back, by the FTS5 rules for quoted strings
  // -----------------------------------------------------------------------------------------

  predicate Fts5Space(c: char)
  {
    c in {' ', '\t', '\n', '\r'}
  }

  /** The body of a string after its opening quote: "" is a quote, a single quote ends it. */
  function StringBody(s: string): (r: Option<(string, string)>)
    ensures r.Some? ==> |r.value.1| < |s|
  {
    if s == [] then None
    else if s[0] != QUOTE then
      var r := StringBody(s[1..]);
      if r.None? then None else Some(([s[0]] + r.value.0, r.value.1))
    else if |s| > 1 && s[1] == QUOTE then
      var r := StringBody(s[2..]);
      if r.None? then None else Some(([QUOTE] + r.value.0, r.value.1))
    else Some(([], s[1..]))
  }

  /** The strings of an expression that is a sequence of quoted strings; None if anything else occurs in it. */
  function Strings(s: string): Option<seq<string>>
    decreases |s|
  {
    if s == [] then Some([])
    else if Fts5Space(s[0]) then Strings(s[1..])
    else if s[0] != QUOTE then None
    else
      var r := StringBody(s[1..]);
      if r.None? then None
      else
        var tail := Strings(r.value.1);
        if tail.None? then None else Some([r.value.0] + tail.value)
  }

  lemma {:induction false} BodyReadsToken(tok: string, rest: string)
    requires rest == [] || rest[0] != QUOTE
    ensures StringBody(DoubleQuotes(tok) + [QUOTE] + rest) == Some((tok, rest))
  {
    var s := DoubleQuotes(tok) + [QUOTE] + rest;
    if tok == [] {
      assert s == [QUOTE] + rest && s[1..] == rest;
    } else {
      BodyReadsToken(tok[1..], rest);
      var tail := DoubleQuotes(tok[1..]) + [QUOTE] + rest;
      if tok[0] == QUOTE { assert s[2..] == tail; } else { assert s[1..] == tail; }
      assert tok == [tok[0]] + tok[1..];
    }
  }

  /** The same text, built from the front. */
  lemma {:induction false} RenderedFromFront(toks: seq<string>)
    requires |toks| > 1
    ensures Rendered(toks) == Quoted(toks[0]) + " " + Rendered(toks[1..])
    decreases |toks|
  {
    var n := |toks|;
    if n == 2 {
      assert toks[..1] == [toks[0]] && toks[1..] == [toks[1]];
    } else {
      RenderedFromFront(toks[..n - 1]);
      assert toks[..n - 1][1..] == toks[1..][..n - 2];
      assert toks[1..][n - 2] == toks[n - 1];
    }
  }

  lemma {:induction false} StringsStep(tok: string, rest: string)
    requires rest == [] || rest[0] == ' '
    requires Strings(rest).Some?
    ensures Strings(Quoted(tok) + rest) == Some([tok] + Strings(rest).value)
  {
    var s := Quoted(tok) + rest;
    assert s[1..] == DoubleQuotes(tok) + [QUOTE] + rest;
    BodyReadsToken(tok, rest);
  }

  lemma {:induction false} SkipSpace(s: string)
    ensures Strings(" " + s) == Strings(s)
  {
    assert (" " + s)[1..] == s;
  }

  lemma {:induction false} StringsOfRendered(toks: seq<string>)
    ensures Strings(Rendered(toks)) == Some(toks)
  {
    if |toks| == 1 {
      StringsStep(toks[0], []);
      assert Quoted(toks[0]) + [] == Rendered(toks);
      assert [toks[0]] + [] == toks;
    } else if |toks| > 1 {
      RenderedFromFront(toks);
      StringsOfRendered(toks[1..]);
      SkipSpace(Rendered(toks[1..]));
      StringsStep(toks[0], " " + Rendered(toks[1..]));
      assert Quoted(toks[0]) + (" " + Rendered(toks[1..])) == Rendered(toks);
      assert [toks[0]] + toks[1..] == toks;
    }
  }

  /** A token is never empty and holds no white space, so nothing outside quotes reaches FTS5. */
  lemma {:induction false} FieldsAreTokens(term: string)
    ensures forall i :: 0 <= i < |Fields(term)| ==> Fields(term)[i] != [] && forall c :: c in Fields(term)[i] ==>
      !IsSpace(c)
    ensures Fields(term) == [] <==> forall c :: c in term ==> IsSpace(c)
    decreases |term|
  {
    if term == [] {
    } else {
      if IsSpace(term[0]) {
        FieldsAreTokens(term[1..]);
        assert forall c :: c in term ==> c == term[0] || c in term[1..];
      } else {
        FieldsAreTokens(term[RunLength(term)..]);
      }
    }
  }

  /** A word up to the next white space, or to the end, is one token, and white space itself is none. */
  lemma {:induction false} FieldsAreRuns(word: string, sep: char, rest: string)
    requires word != [] && IsSpace(sep) && forall c :: c in word ==> !IsSpace(c)
    ensures Fields(word) == [word]
    ensures Fields(word + [sep] + rest) == [word] + Fields(rest)
    ensures Fields([sep] + rest) == Fields(rest)
  {
    var s := word + [sep] + rest;
    RunOfWord(word, []);
    RunOfWord(word, [sep] + rest);
    assert word + [] == word && word[|word|..] == [] && word[..|word|] == word;
    assert word + ([sep] + rest) == s && s[..|word|] == word && s[|word|..] == [sep] + rest;
    assert ([sep] + rest)[1..] == rest;
  }

  lemma {:induction false} RunOfWord(word: string, rest: string)
    requires (forall c :: c in word ==> !IsSpace(c)) && (rest == [] || IsSpace(rest[0]))
    ensures RunLength(word + rest) == |word|
  {
    var s := word + rest;
    assert forall i :: 0 <= i < |word| ==> s[i] == word[i] && word[i] in word;
    assert rest != [] ==> s[|word|] == rest[0];
  }

  function Flatten(toks: seq<string>): string
  {
    if toks == [] then [] else toks[0] + Flatten(toks[1..])
  }

  function WithoutSpaces(s: string): string
  {
    if s == [] then [] else (if IsSpace(s[0]) then [] else [s[0]]) + WithoutSpaces(s[1..])
  }

  lemma {:induction false} WithoutSpacesSplit(s: string, n: nat)
    requires n <= |s| && forall i :: 0 <= i < n ==> !IsSpace(s[i])
    ensures WithoutSpaces(s) == s[..n] + WithoutSpaces(s[n..])
  {
    if n == 0 {
      assert s[..0] == [] && s[0..] == s;
    } else {
      var t := s[1..];
      assert forall i :: 0 <= i < n - 1 ==> t[i] == s[i + 1];
      WithoutSpacesSplit(t, n - 1);
      assert t[n - 1..] == s[n..];
      assert !IsSpace(s[0]);
      assert s[..n] == [s[0]] + t[..n - 1];
    }
  }

  /** Splitting loses and invents nothing but white space. */
  lemma {:induction false} FieldsKeepEveryCharacter(term: string)
    ensures Flatten(Fields(term)) == WithoutSpaces(term)
    decreases |term|
  {
    if term == [] {
    } else {
      if IsSpace(term[0]) {
        FieldsKeepEveryCharacter(term[1..]);
      } else {
        var n := RunLength(term);
        FieldsKeepEveryCharacter(term[n..]);
        WithoutSpacesSplit(term, n);
        assert Fields(term)[1..] == Fields(term[n..]);
      }
    }
  }

  /** FTS5 reads the expression as exactly the tokens of the term; it is empty exactly when the term is blank. */
  lemma {:induction false} LiteralTermsOnly(term: string)
    ensures Strings(Rendered(Fields(term))) == Some(Fields(term))
    ensures Rendered(Fields(term)) == [] <==> forall c :: c in term ==> IsSpace(c)
  {
    StringsOfRendered(Fields(term));
    FieldsAreTokens(term);
  }
}
