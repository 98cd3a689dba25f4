/**
 * `generateSlug`: six string passes, shown to compute the hyphen-joined words of the input.
 * Lower-casing and canonical decomposition are parameters: the Unicode tables are not part of this model.
 */
module Slug {
  /** `toLowerCase` and `normalize('NFD')`. */
  datatype Unicode = Unicode(lower: string -> string, decompose: string -> string)

  predicate IsAlphanumeric(c: char) {
    'a' <= c <= 'z' || '0' <= c <= '9'
  }

  /** The white space of JavaScript's `\s`. */
  predicate IsSpace(c: char) {
    || c in "\t\n\r "
    || c == '\U{000B}' || c == '\U{000C}' || c == '\U{00A0}' || c == '\U{1680}'
    || '\U{2000}' <= c <= '\U{200A}'
    || c == '\U{2028}' || c == '\U{2029}' || c == '\U{202F}' || c == '\U{205F}' || c == '\U{3000}' || c == '\U{FEFF}'
  }

  predicate IsNoAccent(c: char) {
    !('\U{0300}' <= c <= '\U{036F}')
  }

  predicate IsNoHyphen(c: char) {
    c != '-'
  }

  /** What `[^a-z0-9\s-]` does not remove. */
  predicate IsAllowed(c: char) {
    IsAlphanumeric(c) || IsSpace(c) || c == '-'
  }

  // ---------------------------------------------------------------------------------------------
  // The passes
  // ---------------------------------------------------------------------------------------------

  function Filter(keep: char -> bool, s: string): string {
    if s == "" then "" else if keep(s[0]) then [s[0]] + Filter(keep, s[1..]) else Filter(keep, s[1..])
  }

  function StripAccents(s: string): string {
    Filter(IsNoAccent, s)
  }

  function KeepAllowed(s: string): string {
    Filter(IsAllowed, s)
  }

  /** Every run of white space becomes one hyphen. */
  function HyphenateSpaces(s: string): string {
    if s == "" then ""
    else if IsSpace(s[0]) then
      if |s| > 1 && IsSpace(s[1]) then HyphenateSpaces(s[1..]) else "-" + HyphenateSpaces(s[1..])
    else [s[0]] + HyphenateSpaces(s[1..])
  }

  /** Every run of hyphens becomes one hyphen. */
  function CollapseHyphens(s: string): string {
    if s == "" then ""
    else if |s| > 1 && s[0] == '-' && s[1] == '-' then CollapseHyphens(s[1..])
    else [s[0]] + CollapseHyphens(s[1..])
  }

  function TrimLeft(s: string): string {
    if s != "" && s[0] == '-' then TrimLeft(s[1..]) else s
  }

  function TrimRight(s: string): string {
    if s != "" && s[|s| - 1] == '-' then TrimRight(s[..|s| - 1]) else s
  }

  function GenerateSlug(unicode: Unicode, input: string): string {
    var lowered := unicode.lower(input);
    var decomposed := unicode.decompose(lowered);
    var stripped := StripAccents(decomposed);
    var kept := KeepAllowed(stripped);
    var hyphenated := HyphenateSpaces(kept);
    var collapsed := CollapseHyphens(hyphenated);
    TrimLeft(TrimRight(collapsed))
  }

  // ---------------------------------------------------------------------------------------------
  // The reference: the words of a text
  // ---------------------------------------------------------------------------------------------

  predicate Separates(c: char) {
    IsSpace(c) || c == '-'
  }

  /** The letters and digits before the first separator. */
  function FirstWord(s: string): string {
    if s == "" || Separates(s[0]) then ""
    else if IsAlphanumeric(s[0]) then [s[0]] + FirstWord(s[1..])
    else FirstWord(s[1..])
  }

  function AfterSeparator(s: string): (rest: string)
    ensures |rest| <= |s| && (s != "" ==> |rest| < |s|)
  {
    if s == "" then "" else if Separates(s[0]) then s[1..] else AfterSeparator(s[1..])
  }

  /** The non-empty words of a text, in order. */
  function Words(s: string): seq<string>
    decreases |s|
  {
    if s == "" then []
    else if FirstWord(s) == "" then Words(AfterSeparator(s))
    else [FirstWord(s)] + Words(AfterSeparator(s))
  }

  function Join(words: seq<string>): string {
    if words == [] then ""
    else if |words| == 1 then words[0]
    else words[0] + "-" + Join(words[1..])
  }

  predicate IsWord(word: string) {
    word != "" && forall i :: 0 <= i < |word| ==> IsAlphanumeric(word[i])
  }

  predicate AreWords(words: seq<string>) {
    forall i :: 0 <= i < |words| ==> IsWord(words[i])
  }

  /** The text matches `[a-z0-9]+(-[a-z0-9]+)*`. */
  ghost predicate IsSlug(s: string) {
    exists words :: words != [] && AreWords(words) && s == Join(words)
  }

  function Letters(s: string): string {
    Filter(IsAlphanumeric, s)
  }

  function WithoutHyphens(s: string): string {
    Filter(IsNoHyphen, s)
  }

  /** The classes of the patterns, by code point. */
  lemma ClassesByCodePoint(c: char)
    ensures IsAlphanumeric(c) <==> 48 <= c as int <= 57 || 97 <= c as int <= 122
    ensures IsSpace(c) <==>
      || 9 <= c as int <= 13
      || c as int in {32, 160, 5760, 8232, 8233, 8239, 8287, 12288, 65279}
      || 8192 <= c as int <= 8202
    ensures IsNoAccent(c) <==> !(768 <= c as int <= 879)
    ensures IsAllowed(c) <==> IsAlphanumeric(c) || IsSpace(c) || c as int == 45
    ensures Separates(c) <==> IsSpace(c) || c as int == 45
  {
  }

  // ---------------------------------------------------------------------------------------------
  // The first two passes do not change the words
  // ---------------------------------------------------------------------------------------------

  ghost predicate KeepsWordCharacters(keep: char -> bool) {
    forall c :: IsAlphanumeric(c) || Separates(c) ==> keep(c)
  }

  lemma {:induction false} FilterKeepsFirstWord(keep: char -> bool, s: string)
    requires KeepsWordCharacters(keep)
    ensures FirstWord(Filter(keep, s)) == FirstWord(s)
    ensures AfterSeparator(Filter(keep, s)) == Filter(keep, AfterSeparator(s))
  {
    if s != "" {
      FilterKeepsFirstWord(keep, s[1..]);
      if keep(s[0]) {
        assert Filter(keep, s)[1..] == Filter(keep, s[1..]);
      }
    }
  }

  lemma {:induction false} FilterKeepsWords(keep: char -> bool, s: string)
    requires KeepsWordCharacters(keep)
    ensures Words(Filter(keep, s)) == Words(s)
    decreases |s|
  {
    if s != "" {
      FilterKeepsFirstWord(keep, s);
      FilterKeepsWords(keep, AfterSeparator(s));
    }
  }

  // ---------------------------------------------------------------------------------------------
  // The last passes join the words
  // ---------------------------------------------------------------------------------------------

  predicate IsKept(s: string) {
    forall i :: 0 <= i < |s| ==> IsAlphanumeric(s[i]) || Separates(s[i])
  }

  lemma {:induction false} KeptIsKept(s: string)
    ensures IsKept(KeepAllowed(s))
  {
    if s != "" {
      KeptIsKept(s[1..]);
    }
  }

  /** Every run of separators becomes one hyphen. */
  function Squeeze(s: string): string {
    if s == "" then ""
    else if Separates(s[0]) then
      if |s| > 1 && Separates(s[1]) then Squeeze(s[1..]) else "-" + Squeeze(s[1..])
    else [s[0]] + Squeeze(s[1..])
  }

  lemma {:induction false} HyphenatedHead(s: string)
    requires s != ""
    ensures HyphenateSpaces(s) != ""
    ensures HyphenateSpaces(s)[0] == if Separates(s[0]) then '-' else s[0]
  {
    if IsSpace(s[0]) && |s| > 1 && IsSpace(s[1]) {
      HyphenatedHead(s[1..]);
    }
  }

  lemma {:induction false} TwoPassesSqueeze(s: string)
    ensures CollapseHyphens(HyphenateSpaces(s)) == Squeeze(s)
  {
    if s != "" {
      TwoPassesSqueeze(s[1..]);
      if |s| > 1 {
        HyphenatedHead(s[1..]);
      }
      if !(IsSpace(s[0]) && |s| > 1 && IsSpace(s[1])) {
        assert HyphenateSpaces(s)[1..] == HyphenateSpaces(s[1..]);
      }
    }
  }

  lemma {:induction false} TrimRightBehind(c: char, t: string)
    ensures TrimRight([c] + t) == if c == '-' && TrimRight(t) == "" then "" else [c] + TrimRight(t)
    decreases |t|
  {
    if t == "" {
      assert [c] + t == [c] && [c][..0] == "";
    } else if t[|t| - 1] == '-' {
      TrimRightBehind(c, t[..|t| - 1]);
      assert ([c] + t)[..|t|] == [c] + t[..|t| - 1];
    }
  }

  /** The joined words, after a hyphen if the text opens with a separator and has a word behind it. */
  function Cut(s: string): string {
    if s != "" && Separates(s[0]) && Words(s) != [] then "-" + Join(Words(s)) else Join(Words(s))
  }

  lemma CutAtSeparator(s: string)
    requires s != "" && Separates(s[0])
    ensures Words(s) == Words(s[1..])
  {
  }

  lemma {:induction false} FirstWordIsAlphanumeric(s: string)
    ensures forall i :: 0 <= i < |FirstWord(s)| ==> IsAlphanumeric(FirstWord(s)[i])
  {
    if s != "" && !Separates(s[0]) {
      FirstWordIsAlphanumeric(s[1..]);
    }
  }

  lemma {:induction false} WordsAreWords(s: string)
    ensures AreWords(Words(s))
    decreases |s|
  {
    if s != "" {
      FirstWordIsAlphanumeric(s);
      WordsAreWords(AfterSeparator(s));
    }
  }

  lemma JoinStartsWithALetter(s: string)
    ensures Words(s) != [] ==> Join(Words(s)) != "" && IsAlphanumeric(Join(Words(s))[0])
  {
    WordsAreWords(s);
    if Words(s) != [] {
      assert IsWord(Words(s)[0]);
    }
  }

  lemma JoinBehindALetter(c: char, words: seq<string>)
    requires words != []
    ensures Join([[c] + words[0]] + words[1..]) == [c] + Join(words)
  {
    var longer := [[c] + words[0]] + words[1..];
    assert longer[1..] == words[1..];
    if |words| > 1 {
      assert [c] + words[0] + "-" + Join(words[1..]) == [c] + (words[0] + "-" + Join(words[1..]));
    }
  }

  lemma CutAddsALetter(s: string)
    requires s != "" && IsKept(s) && !Separates(s[0])
    ensures Cut(s) == [s[0]] + Cut(s[1..])
  {
    var rest := s[1..];
    assert FirstWord(s) == [s[0]] + FirstWord(rest);
    assert Words(s) == [FirstWord(s)] + Words(AfterSeparator(rest));
    assert Words(s)[1..] == Words(AfterSeparator(rest));
    if rest == "" {
      assert FirstWord(s) == [s[0]];
    } else if Separates(rest[0]) {
      CutAtSeparator(rest);
      assert FirstWord(s) == [s[0]];
    } else {
      assert FirstWord(rest) != "";
      assert Words(rest)[1..] == Words(AfterSeparator(rest));
      JoinBehindALetter(s[0], Words(rest));
      assert Words(s) == [[s[0]] + Words(rest)[0]] + Words(rest)[1..];
    }
  }

  /** The squeezed text, cut at the right. */
  lemma {:induction false} SqueezeJoins(s: string)
    requires IsKept(s)
    ensures TrimRight(Squeeze(s)) == Cut(s)
    decreases |s|
  {
    if s != "" {
      var rest := s[1..];
      SqueezeJoins(rest);
      if Separates(s[0]) {
        CutAtSeparator(s);
        if rest == "" || !Separates(rest[0]) {
          TrimRightBehind('-', Squeeze(rest));
          JoinStartsWithALetter(rest);
        }
      } else {
        TrimRightBehind(s[0], Squeeze(rest));
        CutAddsALetter(s);
      }
    }
  }

  lemma {:induction false} WithoutLeadingHyphens(s: string)
    ensures TrimLeft("-" + s) == TrimLeft(s)
  {
    assert ("-" + s)[1..] == s;
  }

  /** The six passes compute the hyphen-joined words of the lowered, decomposed input. */
  lemma SlugIsTheJoinedWords(unicode: Unicode, input: string)
    ensures GenerateSlug(unicode, input) == Join(Words(unicode.decompose(unicode.lower(input))))
  {
    var text := unicode.decompose(unicode.lower(input));
    var kept := KeepAllowed(StripAccents(text));
    FilterKeepsWords(IsNoAccent, text);
    FilterKeepsWords(IsAllowed, StripAccents(text));
    KeptIsKept(StripAccents(text));
    TwoPassesSqueeze(kept);
    SqueezeJoins(kept);
    JoinStartsWithALetter(kept);
    WithoutLeadingHyphens(Join(Words(kept)));
  }

  // ---------------------------------------------------------------------------------------------
  // Normal form
  // ---------------------------------------------------------------------------------------------

  function Concat(words: seq<string>): string {
    if words == [] then "" else words[0] + Concat(words[1..])
  }

  lemma {:induction false} LettersSplit(s: string)
    ensures Letters(s) == FirstWord(s) + Letters(AfterSeparator(s))
  {
    if s != "" && !Separates(s[0]) {
      LettersSplit(s[1..]);
    }
  }

  lemma {:induction false} WordsHoldTheLetters(s: string)
    ensures Concat(Words(s)) == Letters(s)
    decreases |s|
  {
    if s != "" {
      LettersSplit(s);
      WordsHoldTheLetters(AfterSeparator(s));
      if FirstWord(s) != "" {
        assert Words(s)[1..] == Words(AfterSeparator(s));
      }
    }
  }

  lemma {:induction false} LettersAreNoHyphens(s: string)
    requires forall i :: 0 <= i < |s| ==> IsAlphanumeric(s[i])
    ensures WithoutHyphens(s) == s
  {
    if s != "" {
      LettersAreNoHyphens(s[1..]);
    }
  }

  lemma {:induction false} FilterConcat(keep: char -> bool, a: string, b: string)
    ensures Filter(keep, a + b) == Filter(keep, a) + Filter(keep, b)
  {
    if a == "" {
      assert a + b == b;
    } else {
      FilterConcat(keep, a[1..], b);
      assert (a + b)[1..] == a[1..] + b;
    }
  }

  lemma HyphenVanishes(a: string, b: string)
    ensures WithoutHyphens(a + "-" + b) == WithoutHyphens(a) + WithoutHyphens(b)
  {
    FilterConcat(IsNoHyphen, a + "-", b);
    FilterConcat(IsNoHyphen, a, "-");
  }

  lemma {:induction false} JoinWithoutHyphens(words: seq<string>)
    requires AreWords(words)
    ensures WithoutHyphens(Join(words)) == Concat(words)
  {
    if words != [] {
      assert IsWord(words[0]);
      LettersAreNoHyphens(words[0]);
      if |words| == 1 {
        assert Concat(words) == words[0];
      } else {
        JoinWithoutHyphens(words[1..]);
        HyphenVanishes(words[0], Join(words[1..]));
      }
    }
  }

  /** A slug is empty or matches `[a-z0-9]+(-[a-z0-9]+)*`; it is empty just when the input has no letter or digit. */
  lemma SlugNormalForm(unicode: Unicode, input: string)
    ensures
      var slug := GenerateSlug(unicode, input);
      && (slug == "" || IsSlug(slug))
      && (slug == "" <==> Letters(unicode.decompose(unicode.lower(input))) == "")
      && WithoutHyphens(slug) == Letters(unicode.decompose(unicode.lower(input)))
  {
    var text := unicode.decompose(unicode.lower(input));
    SlugIsTheJoinedWords(unicode, input);
    WordsAreWords(text);
    WordsHoldTheLetters(text);
    JoinWithoutHyphens(Words(text));
    JoinStartsWithALetter(text);
    if Words(text) == [] {
      assert Letters(text) == "";
    }
  }

  // ---------------------------------------------------------------------------------------------
  // Idempotence
  // ---------------------------------------------------------------------------------------------

  predicate IsSlugText(s: string) {
    forall i :: 0 <= i < |s| ==> IsAlphanumeric(s[i]) || s[i] == '-'
  }

  /** What is assumed of the Unicode functions: they leave texts over the slug alphabet alone. */
  ghost predicate FixesSlugTexts(unicode: Unicode) {
    forall s: string :: IsSlugText(s) ==> unicode.lower(s) == s && unicode.decompose(s) == s
  }

  lemma {:induction false} JoinIsSlugText(words: seq<string>)
    requires AreWords(words)
    ensures IsSlugText(Join(words))
  {
    if |words| > 1 {
      JoinIsSlugText(words[1..]);
    }
  }

  lemma {:induction false} SplitBehindAWord(word: string, rest: string)
    requires forall i :: 0 <= i < |word| ==> IsAlphanumeric(word[i])
    ensures FirstWord(word + "-" + rest) == word && AfterSeparator(word + "-" + rest) == rest
  {
    var text := word + "-" + rest;
    if word == "" {
      assert text[0] == '-' && text[1..] == rest;
    } else {
      SplitBehindAWord(word[1..], rest);
      assert text[0] == word[0] && text[1..] == word[1..] + "-" + rest;
    }
  }

  lemma {:induction false} LastWordStandsAlone(word: string)
    requires forall i :: 0 <= i < |word| ==> IsAlphanumeric(word[i])
    ensures FirstWord(word) == word && AfterSeparator(word) == ""
  {
    if word != "" {
      LastWordStandsAlone(word[1..]);
    }
  }

  /** Joining and splitting are inverse on lists of words. */
  lemma {:induction false} WordsOfJoin(words: seq<string>)
    requires AreWords(words)
    ensures Words(Join(words)) == words
  {
    if |words| == 1 {
      LastWordStandsAlone(words[0]);
    } else if |words| > 1 {
      SplitBehindAWord(words[0], Join(words[1..]));
      WordsOfJoin(words[1..]);
    }
  }

  /** A slug of a slug is that slug. */
  lemma SlugIsIdempotent(unicode: Unicode, input: string)
    requires FixesSlugTexts(unicode)
    ensures GenerateSlug(unicode, GenerateSlug(unicode, input)) == GenerateSlug(unicode, input)
  {
    var words := Words(unicode.decompose(unicode.lower(input)));
    var slug := GenerateSlug(unicode, input);
    SlugIsTheJoinedWords(unicode, input);
    WordsAreWords(unicode.decompose(unicode.lower(input)));
    JoinIsSlugText(words);
    SlugIsTheJoinedWords(unicode, slug);
    WordsOfJoin(words);
  }
}
