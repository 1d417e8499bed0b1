/** Display names of word themes and the ordering of the theme list
    (the naming and sorting half of backend/services/word_service.py). */
module Themes {
  import opened Common

  /** One entry of the theme list shown to the organiser. */
  datatype ThemeInfo = ThemeInfo(id: string, name: string, wordCount: nat)

  /** The fixed display names. */
  const NameMap: map<string, string> := map[
    "geral" := "Geral",
    "biblia_completa" := "Bíblia",
    "cinema" := "Cinema & Filmes",
    "desenhos_animes" := "Desenhos & Animes",
    "esporte" := "Esportes",
    "geografia" := "Geografia",
    "geracaZ" := "Geração Z",
    "jogos" := "Jogos & Games",
    "musica" := "Música",
    "QI_elevado" := "QI Elevado (Difícil)"
  ]

  /** `replace('_', ' ')`. */
  function SpaceUnderscores(s: string): (r: string)
    ensures |r| == |s|
  {
    if s == [] then []
    else [if s[0] == '_' then ' ' else s[0]] + SpaceUnderscores(s[1..])
  }

  /** Every underscore becomes a space and every other character is kept. */
  lemma {:induction false} SpaceUnderscoresAt(s: string, i: nat)
    requires i < |s|
    ensures SpaceUnderscores(s)[i] == if s[i] == '_' then ' ' else s[i]
  {
    if i > 0 {
      SpaceUnderscoresAt(s[1..], i - 1);
    }
  }

  /** Python's `str.title()` as it walks the string: a letter after a letter is
      lower-cased, any other letter is upper-cased, everything else is copied and
      ends the current word. `afterLetter` says whether the previous character was
      a letter. */
  function TitleFrom(s: string, afterLetter: bool): (r: string)
    ensures |r| == |s|
  {
    if s == [] then []
    else
      var c := s[0];
      var c' := if !IsLetter(c) then c else if afterLetter then LowerChar(c) else UpperChar(c);
      [c'] + TitleFrom(s[1..], IsLetter(c))
  }

  function Title(s: string): (r: string)
    ensures |r| == |s|
  {
    TitleFrom(s, false)
  }

  /** The character-by-character reading of `Title`: the letter that opens a
      word is upper case, the other letters are lower case, the rest is copied. */
  lemma {:induction false} TitleFromAt(s: string, afterLetter: bool, i: nat)
    requires i < |s|
    ensures TitleFrom(s, afterLetter)[i] ==
      if !IsLetter(s[i]) then s[i]
      else if (if i == 0 then afterLetter else IsLetter(s[i - 1])) then LowerChar(s[i])
      else UpperChar(s[i])
  {
    if i > 0 {
      TitleFromAt(s[1..], IsLetter(s[0]), i - 1);
    }
  }

  lemma TitleAt(s: string, i: nat)
    requires i < |s|
    ensures Title(s)[i] ==
      if !IsLetter(s[i]) then s[i]
      else if i > 0 && IsLetter(s[i - 1]) then LowerChar(s[i])
      else UpperChar(s[i])
  {
    TitleFromAt(s, false, i);
  }

  /** Position `i` of `s` holds a letter that opens a word. */
  predicate OpensWord(s: string, i: nat)
    requires i < |s|
  {
    IsLetter(s[i]) && (i == 0 || !IsLetter(s[i - 1]))
  }

  /** A title-cased spaced id has no underscore and a capital at the start
      of every word of the id. */
  lemma TitleOfSpaced(themeId: string)
    ensures var r := Title(SpaceUnderscores(themeId));
      && '_' !in r
      && |r| == |themeId|
      && forall i :: 0 <= i < |r| && OpensWord(themeId, i) ==> !IsLower(r[i])
  {
    var spaced := SpaceUnderscores(themeId);
    var r := Title(spaced);
    forall i | 0 <= i < |r|
      ensures r[i] != '_'
      ensures OpensWord(themeId, i) ==> !IsLower(r[i])
    {
      TitleAt(spaced, i);
      SpaceUnderscoresAt(themeId, i);
      assert IsLetter(spaced[i]) == IsLetter(themeId[i]);
      if i > 0 {
        SpaceUnderscoresAt(themeId, i - 1);
        assert IsLetter(spaced[i - 1]) == IsLetter(themeId[i - 1]);
      }
    }
  }

  /** `_format_theme_name`: the fixed name when there is one, otherwise the id
      with underscores turned into spaces and title-cased. */
  function FormatThemeName(themeId: string): string {
    if themeId in NameMap then NameMap[themeId]
    else Title(SpaceUnderscores(themeId))
  }

  /** A theme with a fixed name is shown under it; any other gets a generated
      name of the id's length, with no underscore and a capital at the start of
      every word. */
  lemma FormatThemeNameFacts(themeId: string)
    ensures themeId in NameMap ==> FormatThemeName(themeId) == NameMap[themeId]
    ensures themeId !in NameMap ==>
      var r := FormatThemeName(themeId);
      && |r| == |themeId| && '_' !in r
      && forall i :: 0 <= i < |r| && OpensWord(themeId, i) ==> !IsLower(r[i])
  {
    TitleOfSpaced(themeId);
  }

  /** Python's ordering of strings: lexicographic by code point. */
  predicate LexLessEq(a: string, b: string) {
    if a == [] then true
    else if b == [] then false
    else if a[0] != b[0] then a[0] < b[0]
    else LexLessEq(a[1..], b[1..])
  }

  lemma {:induction false} LexTotal(a: string, b: string)
    ensures LexLessEq(a, b) || LexLessEq(b, a)
  {
    if a != [] && b != [] && a[0] == b[0] {
      LexTotal(a[1..], b[1..]);
    }
  }

  predicate SortedByName(s: seq<ThemeInfo>) {
    forall i :: 0 <= i < |s| - 1 ==> LexLessEq(s[i].name, s[i + 1].name)
  }

  /** Inserts `x` before the first entry whose name is not smaller. */
  function InsertByName(x: ThemeInfo, s: seq<ThemeInfo>): (r: seq<ThemeInfo>)
    ensures multiset(r) == multiset(s) + multiset{x}
    ensures |r| > 0 && (r[0] == x || (s != [] && r[0] == s[0]))
  {
    if s == [] || LexLessEq(x.name, s[0].name) then [x] + s
    else
      assert s == [s[0]] + s[1..];
      [s[0]] + InsertByName(x, s[1..])
  }

  lemma {:induction false} InsertByNameSorted(x: ThemeInfo, s: seq<ThemeInfo>)
    requires SortedByName(s)
    ensures SortedByName(InsertByName(x, s))
  {
    if s != [] && !LexLessEq(x.name, s[0].name) {
      LexTotal(x.name, s[0].name);
      InsertByNameSorted(x, s[1..]);
    }
  }

  /** The list sorted by display name: an insertion sort standing in for
      Python's `list.sort` with the name as key. */
  function SortByName(s: seq<ThemeInfo>): (r: seq<ThemeInfo>)
    ensures SortedByName(r)
    ensures multiset(r) == multiset(s)
  {
    if s == [] then []
    else
      var rest := SortByName(s[1..]);
      InsertByNameSorted(s[0], rest);
      assert s == [s[0]] + s[1..];
      InsertByName(s[0], rest)
  }

  /** Word themes are listed; the challenge bank is not. */
  predicate IsChallengeTheme(themeId: string) {
    Lower(themeId) == "desafios"
  }
}
