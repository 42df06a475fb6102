/**
 * The checks on what the user types before a project is created
 * (bookwriter/validators/input_validator.py), and the two sanitisers. Each
 * check gives None for a valid input or the first reason it is refused;
 * the wording of the messages is not modelled.
 */
module InputValidator {
  import opened Wrappers
  import Text

  datatype InputProblem =
    | NameEmpty | NameTooShort | NameTooLong | NameBadChar(c: char)
    | PremiseEmpty | PremiseTooShort | PremiseTooLong | PremiseFewWords
    | TooFewChapters | TooManyChapters
    | ThemesEmpty | NoValidTheme | TooManyThemes | ThemeTooShort(theme: string) | ThemeTooLong(theme: string)
    | NoAuthors | TooManyAuthors | AuthorsBlank
    | NoProfile | UnknownProfile(profile: string)
    | UnknownDimension(dimension: string) | UnknownLevel(dimension: string, level: string)

  // ---------------------------------------------------------------- project name

  /** The characters a project name may not hold, in the order they are checked. */
  const InvalidNameChars: seq<char> := ['<', '>', ':', '"', '/', '\\', '|', '?', '*']

  /** The position in `chars` of the first of them, in list order, that occurs in `s`. */
  function FirstIn(chars: seq<char>, s: string): (r: Option<nat>)
    ensures r.None? <==> forall i :: 0 <= i < |chars| ==> chars[i] !in s
    ensures r.Some? ==> r.value < |chars| && chars[r.value] in s
    ensures r.Some? ==> forall j :: 0 <= j < r.value ==> chars[j] !in s
    decreases |chars|
  {
    if chars == [] then None
    else if chars[0] in s then Some(0)
    else
      var r := FirstIn(chars[1..], s);
      assert forall i :: 1 <= i < |chars| ==> chars[1..][i - 1] == chars[i];
      if r.Some? then Some(r.value + 1) else None
  }

  /** A character of the stripped text is a character of the text. */
  lemma InStrip(s: string, c: char)
    requires c in Text.Strip(s)
    ensures c in s
  {
    var k := |s| - |Text.TrimStart(s)|;
    var t := Text.Strip(s);
    Text.StripIsSlice(s, k, t);
    var j :| 0 <= j < |t| && t[j] == c;
    assert t[j] == s[k..k + |t|][j] == s[k + j];
  }

  /** `validate_project_name`: on the stripped name, a length of 3 to 100 and none of the invalid characters. */
  function ValidateProjectName(name: string): (r: Option<InputProblem>)
    ensures r.None? <==> (3 <= |Text.Strip(name)| <= 100 &&
      forall i :: 0 <= i < |InvalidNameChars| ==> InvalidNameChars[i] !in Text.Strip(name))
    ensures Text.IsBlank(name) ==> r == Some(NameEmpty)
    ensures r.Some? && r.value.NameBadChar? ==> r.value.c in InvalidNameChars && r.value.c in name
  {
    var t := Text.Strip(name);
    if t == [] then Some(NameEmpty)
    else if |t| < 3 then Some(NameTooShort)
    else if |t| > 100 then Some(NameTooLong)
    else
      match FirstIn(InvalidNameChars, t)
      case Some(i) =>
        InStrip(name, InvalidNameChars[i]);
        Some(NameBadChar(InvalidNameChars[i]))
      case None => None
  }

  // ---------------------------------------------------------------- premise and chapters

  /** `validate_premise`: on the stripped premise, 20 to 2000 characters and at least 10 words. */
  function ValidatePremise(premise: string): (r: Option<InputProblem>)
    ensures r.None? <==> 20 <= |Text.Strip(premise)| <= 2000 && |Text.Words(Text.Strip(premise))| >= 10
    ensures Text.IsBlank(premise) ==> r == Some(PremiseEmpty)
  {
    var t := Text.Strip(premise);
    if t == [] then Some(PremiseEmpty)
    else if |t| < 20 then Some(PremiseTooShort)
    else if |t| > 2000 then Some(PremiseTooLong)
    else if |Text.Words(t)| < 10 then Some(PremiseFewWords)
    else None
  }

  /** `validate_chapter_count` on an integer: 3 to 50 chapters. */
  function ValidateChapterCount(chapters: int): (r: Option<InputProblem>)
    ensures r.None? <==> 3 <= chapters <= 50
    ensures r == Some(TooFewChapters) <==> chapters < 3
  {
    if chapters < 3 then Some(TooFewChapters)
    else if chapters > 50 then Some(TooManyChapters)
    else None
  }

  // ---------------------------------------------------------------- themes

  /** `[t.strip() for t in pieces if t.strip()]`. */
  function Kept(pieces: seq<string>): (r: seq<string>)
    ensures |r| <= |pieces|
    ensures forall i :: 0 <= i < |r| ==> r[i] != [] && Text.Strip(r[i]) == r[i]
    ensures r == [] <==> forall i :: 0 <= i < |pieces| ==> Text.IsBlank(pieces[i])
    decreases |pieces|
  {
    if pieces == [] then []
    else
      var init := pieces[..|pieces| - 1];
      var t := Text.Strip(pieces[|pieces| - 1]);
      var a := Kept(init);
      assert forall i :: 0 <= i < |init| ==> init[i] == pieces[i];
      KeptAppend(pieces, a, t);
      a + (if t != [] then [t] else [])
  }

  /** The step of `Kept`: the kept pieces of all but the last piece, then the last one stripped if not empty. */
  lemma KeptAppend(pieces: seq<string>, a: seq<string>, t: string)
    requires pieces != [] && t == Text.Strip(pieces[|pieces| - 1])
    requires |a| <= |pieces| - 1
    requires forall i :: 0 <= i < |a| ==> a[i] != [] && Text.Strip(a[i]) == a[i]
    requires a == [] <==> forall i :: 0 <= i < |pieces| - 1 ==> Text.IsBlank(pieces[i])
    ensures var r := a + (if t != [] then [t] else []);
      |r| <= |pieces| &&
      (forall i :: 0 <= i < |r| ==> r[i] != [] && Text.Strip(r[i]) == r[i]) &&
      (r == [] <==> forall i :: 0 <= i < |pieces| ==> Text.IsBlank(pieces[i]))
  {
    var last := pieces[|pieces| - 1];
    assert t == [] <==> Text.IsBlank(last);
    if t == [] {
      assert a + [] == a;
    } else {
      Text.StripIdempotent(last);
      var r := a + [t];
      assert forall i :: 0 <= i < |a| ==> r[i] == a[i];
      assert r[|a|] == t;
      assert !Text.IsBlank(pieces[|pieces| - 1]);
    }
  }

  /** The themes `validate_themes` checks: the non-empty stripped pieces of the stripped text split at commas. */
  function ThemeList(themes: string): seq<string> {
    Kept(Text.Split(Text.Strip(themes), ","))
  }

  /** The first theme, in order, shorter than 3 or longer than 50 characters. */
  function FirstBadTheme(ts: seq<string>): (r: Option<InputProblem>)
    ensures r.None? <==> forall i :: 0 <= i < |ts| ==> 3 <= |ts[i]| <= 50
    decreases |ts|
  {
    if ts == [] then None
    else if |ts[0]| < 3 then Some(ThemeTooShort(ts[0]))
    else if |ts[0]| > 50 then Some(ThemeTooLong(ts[0]))
    else
      var r := FirstBadTheme(ts[1..]);
      assert forall i :: 1 <= i < |ts| ==> ts[1..][i - 1] == ts[i];
      r
  }

  /** `validate_themes`: 1 to 10 themes, each of 3 to 50 characters. */
  function ValidateThemes(themes: string): (r: Option<InputProblem>)
    ensures r.None? <==> (1 <= |ThemeList(themes)| <= 10 &&
      forall i :: 0 <= i < |ThemeList(themes)| ==> 3 <= |ThemeList(themes)[i]| <= 50)
  {
    BlankThemes(themes);
    ThemeProblem(Text.IsBlank(themes), ThemeList(themes))
  }

  /** The checks of `validate_themes` in order, on whether the text is blank and on its theme list. */
  function ThemeProblem(blank: bool, ts: seq<string>): (r: Option<InputProblem>)
    ensures r.None? <==> !blank && 1 <= |ts| <= 10 && forall i :: 0 <= i < |ts| ==> 3 <= |ts[i]| <= 50
    ensures blank ==> r == Some(ThemesEmpty)
  {
    if blank then Some(ThemesEmpty)
    else if |ts| == 0 then Some(NoValidTheme)
    else if |ts| > 10 then Some(TooManyThemes)
    else FirstBadTheme(ts)
  }

  /** Blank text has no themes. */
  lemma BlankThemes(themes: string)
    ensures Text.IsBlank(themes) ==> ThemeList(themes) == []
  {
    if Text.IsBlank(themes) {
      assert Text.Strip(themes) == [];
      assert Text.FindFrom("", ",", 0) == -1;
      assert Text.Split("", ",") == [""];
      assert Kept([""]) == Kept([]) + [];
    }
  }

  // ---------------------------------------------------------------- authors and profiles

  /** `validate_author_selection`: 1 to 5 entries, at least one of them not blank. */
  function ValidateAuthorSelection(authors: seq<string>): (r: Option<InputProblem>)
    ensures r.None? <==> 1 <= |authors| <= 5 && exists i :: 0 <= i < |authors| && !Text.IsBlank(authors[i])
  {
    if |authors| == 0 then Some(NoAuthors)
    else if |authors| > 5 then Some(TooManyAuthors)
    else if forall i :: 0 <= i < |authors| ==> Text.IsBlank(authors[i]) then Some(AuthorsBlank)
    else None
  }

  /** `validate_style_profile`: a profile name that is not blank and is one of the available ones. */
  function ValidateStyleProfile(profile: string, available: seq<string>): (r: Option<InputProblem>)
    ensures r.None? <==> !Text.IsBlank(profile) && profile in available
  {
    if Text.IsBlank(profile) then Some(NoProfile)
    else if profile !in available then Some(UnknownProfile(profile))
    else None
  }

  /**
   * `validate_custom_dimensions` with the list of level names per dimension
   * its signature declares, corrected: the first pair, in order, whose
   * dimension is unknown or whose level is not one of that dimension's.
   */
  function ValidateCustomDimensions(dims: seq<(string, string)>, valid: map<string, seq<string>>): (r: Option<InputProblem>)
    ensures r.None? <==> forall i :: 0 <= i < |dims| ==> dims[i].0 in valid && dims[i].1 in valid[dims[i].0]
    ensures r.Some? ==> exists i :: (0 <= i < |dims| &&
      (r.value == UnknownDimension(dims[i].0) || r.value == UnknownLevel(dims[i].0, dims[i].1)))
    decreases |dims|
  {
    if dims == [] then None
    else
      var (d, l) := dims[0];
      if d !in valid then Some(UnknownDimension(d))
      else if l !in valid[d] then Some(UnknownLevel(d, l))
      else
        var r := ValidateCustomDimensions(dims[1..], valid);
        assert forall i :: 1 <= i < |dims| ==> dims[1..][i - 1] == dims[i];
        r
  }

  /**
   * `validate_custom_dimensions` as written: the message for a wrong level
   * lists `valid_dimensions[dimension].keys()`, which a list does not have,
   * so with the declared list of levels that branch raises AttributeError.
   */
  function ValidateCustomDimensionsAsWritten(dims: seq<(string, string)>, valid: map<string, seq<string>>): (r: Result<Option<InputProblem>>)
    decreases |dims|
  {
    if dims == [] then Ok(None)
    else
      var (d, l) := dims[0];
      if d !in valid then Ok(Some(UnknownDimension(d)))
      else if l !in valid[d] then Raise(AttributeError)
      else ValidateCustomDimensionsAsWritten(dims[1..], valid)
  }

  /** The as-written check raises on a known dimension given an unknown level, where a refusal is meant. */
  lemma CustomDimensionsLevelRaises()
    ensures ValidateCustomDimensionsAsWritten([("prose", "x")], map["prose" := ["simple"]]) == Raise(AttributeError)
    ensures ValidateCustomDimensions([("prose", "x")], map["prose" := ["simple"]]) == Some(UnknownLevel("prose", "x"))
  {
  }

  /** Both versions agree wherever the as-written one does not raise. */
  lemma {:induction false} CustomDimensionsAgree(dims: seq<(string, string)>, valid: map<string, seq<string>>)
    ensures ValidateCustomDimensionsAsWritten(dims, valid).Ok? ==>
      ValidateCustomDimensionsAsWritten(dims, valid).value == ValidateCustomDimensions(dims, valid)
    decreases |dims|
  {
    if dims != [] {
      CustomDimensionsAgree(dims[1..], valid);
    }
  }

  // ---------------------------------------------------------------- project creation

  /** `validate_project_creation`: the first failure in the order name, premise, chapters, themes, authors. */
  function ValidateProjectCreation(name: string, premise: string, chapters: int, themes: string, authors: seq<string>)
    : (r: Option<InputProblem>)
    ensures r.None? <==>
      ValidateProjectName(name).None? && ValidatePremise(premise).None? && ValidateChapterCount(chapters).None?
      && ValidateThemes(themes).None? && ValidateAuthorSelection(authors).None?
    ensures ValidateProjectName(name).Some? ==> r == ValidateProjectName(name)
    ensures ValidateProjectName(name).None? && ValidatePremise(premise).Some? ==> r == ValidatePremise(premise)
    ensures (ValidateProjectName(name).None? && ValidatePremise(premise).None? && ValidateChapterCount(chapters).Some?) ==>
      r == ValidateChapterCount(chapters)
    ensures (ValidateProjectName(name).None? && ValidatePremise(premise).None? && ValidateChapterCount(chapters).None?
      && ValidateThemes(themes).Some?) ==> r == ValidateThemes(themes)
  {
    var n := ValidateProjectName(name);
    var p := ValidatePremise(premise);
    var c := ValidateChapterCount(chapters);
    var t := ValidateThemes(themes);
    if n.Some? then n
    else if p.Some? then p
    else if c.Some? then c
    else if t.Some? then t
    else ValidateAuthorSelection(authors)
  }

  // ---------------------------------------------------------------- sanitisers

  /** What `[\s_]+` matches one of. */
  predicate Sep(c: char) {
    Text.IsSpace(c) || c == '_'
  }

  /** No two underscores in a row. */
  predicate NoDoubleUnderscore(s: string) {
    forall i :: 0 <= i < |s| - 1 ==> !(s[i] == '_' && s[i + 1] == '_')
  }

  /** None of the invalid characters. */
  predicate NoInvalid(s: string) {
    forall i :: 0 <= i < |s| ==> s[i] !in InvalidNameChars
  }

  /** `re.sub(r'[<>:"/\\|?*]', '_', s)`. */
  function ReplaceInvalid(s: string): (r: string)
    ensures |r| == |s| && NoInvalid(r)
    ensures forall i :: 0 <= i < |s| && s[i] !in InvalidNameChars ==> r[i] == s[i]
    ensures forall i :: 0 <= i < |s| && s[i] in InvalidNameChars ==> r[i] == '_'
  {
    seq(|s|, i requires 0 <= i < |s| => if s[i] in InvalidNameChars then '_' else s[i])
  }

  /** The text after a leading run of separators. */
  function DropSeps(s: string): (r: string)
    ensures |r| <= |s| && r == s[|s| - |r|..]
    ensures r == [] || !Sep(r[0])
    decreases |s|
  {
    if s != [] && Sep(s[0]) then DropSeps(s[1..]) else s
  }

  /** `re.sub(r'[\s_]+', '_', s)`: each maximal run of whitespace and underscores becomes one underscore. */
  function Collapse(s: string): (r: string)
    ensures r == [] <==> s == []
    ensures Text.NoSpace(r) && NoDoubleUnderscore(r)
    ensures r != [] ==> (r[0] == '_' <==> Sep(s[0]))
    ensures NoInvalid(s) ==> NoInvalid(r)
    decreases |s|
  {
    if s == [] then []
    else if Sep(s[0]) then
      var t := DropSeps(s);
      assert NoInvalid(s) ==> NoInvalid(t) by {
        if NoInvalid(s) {
          forall i | 0 <= i < |t| ensures t[i] !in InvalidNameChars {
            assert t[i] == s[|s| - |t| + i];
          }
        }
      }
      "_" + Collapse(t)
    else
      assert NoInvalid(s) ==> NoInvalid(s[1..]) by {
        if NoInvalid(s) {
          forall i | 0 <= i < |s| - 1 ensures s[1..][i] !in InvalidNameChars {
            assert s[1..][i] == s[i + 1];
          }
        }
      }
      [s[0]] + Collapse(s[1..])
  }

  /** `sanitize_project_name`: strip, replace the invalid characters, collapse separator runs, keep 100 characters. */
  function SanitizeProjectName(name: string): (r: string)
    ensures |r| <= 100
    ensures Text.NoSpace(r) && NoDoubleUnderscore(r) && NoInvalid(r)
  {
    var c := Collapse(ReplaceInvalid(Text.Strip(name)));
    var r := Text.Take(c, 100);
    PrefixClean(c, r);
    r
  }

  /** A prefix of a clean name is clean. */
  lemma PrefixClean(c: string, r: string)
    requires |r| <= |c| && r == c[..|r|]
    requires Text.NoSpace(c) && NoDoubleUnderscore(c) && NoInvalid(c)
    ensures Text.NoSpace(r) && NoDoubleUnderscore(r) && NoInvalid(r)
  {
    assert forall i :: 0 <= i < |r| ==> r[i] == c[i];
  }

  /** A text with no whitespace and no double underscore is its own collapse. */
  lemma {:induction false} CollapseClean(s: string)
    requires Text.NoSpace(s) && NoDoubleUnderscore(s)
    ensures Collapse(s) == s
    decreases |s|
  {
    if s != [] {
      var tail := s[1..];
      assert Text.NoSpace(tail) && NoDoubleUnderscore(tail) by {
        assert forall i :: 0 <= i < |tail| ==> tail[i] == s[i + 1];
      }
      CollapseClean(tail);
      assert s == [s[0]] + tail;
      if Sep(s[0]) {
        assert s[0] == '_';
        assert tail == [] || !Sep(tail[0]);
        assert DropSeps(tail) == tail;
        assert DropSeps(s) == tail;
        assert [s[0]] == "_";
      }
    }
  }

  /** A text without whitespace is its own strip. */
  lemma NoSpaceStrip(s: string)
    requires Text.NoSpace(s)
    ensures Text.Strip(s) == s
  {
    if s != [] {
      Text.StripNoop(s);
    }
  }

  /** A text without the invalid characters is left alone by their replacement. */
  lemma ReplaceInvalidClean(s: string)
    requires NoInvalid(s)
    ensures ReplaceInvalid(s) == s
  {
  }

  /** Sanitising a sanitised name changes nothing. */
  lemma SanitizeIdempotent(name: string)
    ensures SanitizeProjectName(SanitizeProjectName(name)) == SanitizeProjectName(name)
  {
    var r := SanitizeProjectName(name);
    NoSpaceStrip(r);
    ReplaceInvalidClean(r);
    CollapseClean(r);
    assert Text.Take(r, 100) == r;
  }

  /** `theme[0].upper() + theme[1:]` (for one character, `theme.upper()`, the same thing). */
  function Capitalize(t: string): (r: string)
    requires t != []
    ensures |r| == |t| && r[0] == Text.UpperChar(t[0]) && r[1..] == t[1..]
  {
    [Text.UpperChar(t[0])] + t[1..]
  }

  /** Every theme capitalised. */
  function CapitalizeAll(ts: seq<string>): (r: seq<string>)
    requires forall i :: 0 <= i < |ts| ==> ts[i] != []
    ensures |r| == |ts| && forall i :: 0 <= i < |ts| ==> r[i] == Capitalize(ts[i])
  {
    seq(|ts|, i requires 0 <= i < |ts| => Capitalize(ts[i]))
  }

  lemma CapitalizeAllSnoc(ts: seq<string>, t: string)
    requires forall i :: 0 <= i < |ts| ==> ts[i] != []
    requires t != []
    ensures CapitalizeAll(ts + [t]) == CapitalizeAll(ts) + [Capitalize(t)]
  {
  }

  /** One more piece: kept, stripped, when it is not blank. */
  lemma KeptStep(pieces: seq<string>, i: nat, t: string)
    requires i < |pieces| && t == Text.Strip(pieces[i])
    ensures t != [] ==> Kept(pieces[..i + 1]) == Kept(pieces[..i]) + [t]
    ensures t == [] ==> Kept(pieces[..i + 1]) == Kept(pieces[..i])
  {
    assert pieces[..i + 1][..i] == pieces[..i];
  }

  /** One more piece of `sanitize_themes`: a non-blank one adds its capitalized strip. */
  lemma CleanStep(pieces: seq<string>, i: nat, theme: string, cleaned: seq<string>)
    requires i < |pieces| && theme == Text.Strip(pieces[i]) && cleaned == CapitalizeAll(Kept(pieces[..i]))
    ensures theme != [] ==> theme != [] && cleaned + [Capitalize(theme)] == CapitalizeAll(Kept(pieces[..i + 1]))
    ensures theme == [] ==> cleaned == CapitalizeAll(Kept(pieces[..i + 1]))
  {
    KeptStep(pieces, i, theme);
    if theme != [] {
      CapitalizeAllSnoc(Kept(pieces[..i]), theme);
    }
  }

  /** `sanitize_themes`: each non-empty stripped comma piece, in order, with its first character upper-cased. */
  function CleanThemes(themes: string): seq<string> {
    var kept := Kept(Text.Split(themes, ","));
    CapitalizeAll(kept)
  }

  method SanitizeThemes(themes: string) returns (r: seq<string>)
    ensures r == CleanThemes(themes)
  {
    var pieces := Text.Split(themes, ",");
    r := CleanPieces(pieces);
  }

  /** The comprehension of `sanitize_themes` over the comma pieces. */
  method CleanPieces(pieces: seq<string>) returns (cleaned: seq<string>)
    ensures cleaned == CapitalizeAll(Kept(pieces))
  {
    cleaned := [];
    for i := 0 to |pieces|
      invariant cleaned == CapitalizeAll(Kept(pieces[..i]))
    {
      var theme := Text.Strip(pieces[i]);
      CleanStep(pieces, i, theme, cleaned);
      if theme != [] {
        cleaned := cleaned + [Capitalize(theme)];
      }
    }
    assert pieces[..|pieces|] == pieces;
  }
}
