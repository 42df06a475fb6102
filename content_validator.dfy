/**
 * The checks on generated content (bookwriter/validators/content_validator.py):
 * the outline's structure section by section, a generated page, and a blurb.
 * Each check yields the list of problems found, valid exactly when the list
 * is empty; Python's exceptions on values of the wrong type are kept as
 * Raise. The wording of the messages is not modelled.
 */
module ContentValidator {
  import opened Wrappers
  import Text
  import opened Json
  import opened Problems
  import OutlineGenerator
  import PageGenerator

  datatype Issue =
    | MissingSection(section: string)
    | NoSetting | ShortSetting | NoTimePeriod
    | NoCharacters | InvalidCharacter(name: string) | MissingField(name: string, field: string) | ShortField(name: string, field: string)
    | NoOutline | EmptyOutline
    | ChapterMissingField(chapter: int, field: string) | WrongNumber(chapter: int, found: JsonValue)
    | ShortTitle(chapter: int) | ShortSummary(chapter: int) | NoKeyEvents(chapter: int) | BadPages(chapter: int, pages: JsonValue)
    | StyleMissing(field: string)

  /** `key not in v or not v[key]`, raising like `in` and `[]` do. */
  function AbsentOrFalse(v: JsonValue, key: string): (r: Result<bool>)
    ensures v.JObject? ==> r == Ok(!HasKey(v.members, key) || !Truthy(Lookup(v.members, key)))
    ensures r == Ok(false) ==> v.JObject? && HasKey(v.members, key) && Truthy(Lookup(v.members, key))
    ensures r.Raise? ==> r.error == TypeError
  {
    match In(key, v)
    case Raise(e) => Raise(e)
    case Ok(false) => Ok(true)
    case Ok(true) =>
      match GetItem(v, key)
      case Raise(e) => Raise(e)
      case Ok(x) => Ok(!Truthy(x))
  }

  // ---------------------------------------------------------------- world and style

  /** `_validate_world_section`: a setting of at least 20 characters and a time period. */
  function WorldIssues(world: JsonValue): (r: Result<seq<Issue>>)
    ensures world.JObject? ==>
      var ms := world.members;
      var settingOk := HasKey(ms, "setting") && Truthy(Lookup(ms, "setting"));
      (r.Raise? <==> settingOk && Len(Lookup(ms, "setting")).Raise?) &&
      (r.Ok? ==>
        (NoSetting in r.value <==> !settingOk) &&
        (ShortSetting in r.value <==> settingOk && Len(Lookup(ms, "setting")).value < 20) &&
        (NoTimePeriod in r.value <==> !HasKey(ms, "time_period") || !Truthy(Lookup(ms, "time_period"))))
  {
    var setting: Result<seq<Issue>> :=
      match AbsentOrFalse(world, "setting")
      case Raise(e) => Raise(e)
      case Ok(true) => Ok([NoSetting])
      case Ok(false) =>
        match Len(Lookup(world.members, "setting"))
        case Raise(e) => Raise(e)
        case Ok(n) => Ok(if n < 20 then [ShortSetting] else []);
    var period: Result<seq<Issue>> :=
      match AbsentOrFalse(world, "time_period")
      case Raise(e) => Raise(e)
      case Ok(m) => Ok(if m then [NoTimePeriod] else []);
    Then(setting, period)
  }

  const StyleFields: seq<string> := ["tone", "point_of_view", "tense"]

  /** The style fields, in order, that are absent or empty. */
  function MissingStyle(style: JsonValue, fields: seq<string>): (r: Result<seq<Issue>>)
    ensures style.JObject? ==> r.Ok? && forall f :: StyleMissing(f) in r.value <==>
      f in fields && (!HasKey(style.members, f) || !Truthy(Lookup(style.members, f)))
    ensures r.Ok? ==> forall x :: x in r.value ==> x.StyleMissing?
    decreases |fields|
  {
    if fields == [] then Ok([])
    else
      var head: Result<seq<Issue>> :=
        match AbsentOrFalse(style, fields[0])
        case Raise(e) => Raise(e)
        case Ok(m) => Ok(if m then [StyleMissing(fields[0])] else []);
      Then(head, MissingStyle(style, fields[1..]))
  }

  /** `_validate_style_section`. */
  function StyleIssues(style: JsonValue): (r: Result<seq<Issue>>)
    ensures style.JObject? ==> r.Ok? && forall f :: StyleMissing(f) in r.value <==>
      f in StyleFields && (!HasKey(style.members, f) || !Truthy(Lookup(style.members, f)))
  {
    MissingStyle(style, StyleFields)
  }

  // ---------------------------------------------------------------- characters

  const CharacterFields: seq<string> := ["description", "personality", "story_arc"]

  /** One character field: absent or empty, or present with fewer than 10 characters (`len` raises on a number). */
  function FieldIssue(name: string, ms: seq<Member>, field: string): (r: Result<seq<Issue>>)
    ensures r.Raise? <==> HasKey(ms, field) && Truthy(Lookup(ms, field)) && Len(Lookup(ms, field)).Raise?
    ensures r.Ok? ==> (r.value == [MissingField(name, field)] <==> !HasKey(ms, field) || !Truthy(Lookup(ms, field)))
    ensures r.Ok? ==> (r.value == [ShortField(name, field)] <==>
      HasKey(ms, field) && Truthy(Lookup(ms, field)) && Len(Lookup(ms, field)).value < 10)
    ensures r.Ok? ==> r.value == [] || r.value == [MissingField(name, field)] || r.value == [ShortField(name, field)]
  {
    if !HasKey(ms, field) || !Truthy(Lookup(ms, field)) then Ok([MissingField(name, field)])
    else
      match Len(Lookup(ms, field))
      case Raise(e) => Raise(e)
      case Ok(n) => Ok(if n < 10 then [ShortField(name, field)] else [])
  }

  function FieldsIssues(name: string, ms: seq<Member>, fields: seq<string>): (r: Result<seq<Issue>>)
    decreases |fields|
  {
    if fields == [] then Ok([])
    else Then(FieldIssue(name, ms, fields[0]), FieldsIssues(name, ms, fields[1..]))
  }

  /** The problems of one character: not a dict, or each of its three fields. */
  function CharacterIssues(name: string, data: JsonValue): (r: Result<seq<Issue>>)
    ensures !data.JObject? ==> r == Ok([InvalidCharacter(name)])
  {
    if !data.JObject? then Ok([InvalidCharacter(name)])
    else FieldsIssues(name, data.members, CharacterFields)
  }

  /** The characters loop, one character at a time in dict order. */
  function AllCharacters(ms: seq<Member>): (r: Result<seq<Issue>>)
    decreases |ms|
  {
    if ms == [] then Ok([])
    else Then(AllCharacters(ms[..|ms| - 1]), CharacterIssues(ms[|ms| - 1].key, ms[|ms| - 1].value))
  }

  /** `_validate_characters_section`: one problem for no characters; `.items()` on a non-dict raises. */
  function CharactersIssues(characters: JsonValue): (r: Result<seq<Issue>>)
    ensures !Truthy(characters) ==> r == Ok([NoCharacters])
    ensures Truthy(characters) && !characters.JObject? ==> r == Raise(AttributeError)
    ensures Truthy(characters) && characters.JObject? ==> r == AllCharacters(characters.members)
  {
    if !Truthy(characters) then Ok([NoCharacters])
    else if !characters.JObject? then Raise(AttributeError)
    else AllCharacters(characters.members)
  }

  // ---------------------------------------------------------------- chapters

  const ChapterFields: seq<string> := ["number", "title", "summary", "key_events", "pages_estimate"]

  /** The required chapter fields, in order, that `in` does not find. */
  function MissingChapterFields(c: JsonValue, n: int, fields: seq<string>): (r: Result<seq<Issue>>)
    ensures c.JObject? ==> r.Ok? && forall f :: ChapterMissingField(n, f) in r.value <==> f in fields && !HasKey(c.members, f)
    ensures r.Ok? ==> forall x :: x in r.value ==> x.ChapterMissingField? && x.chapter == n
    ensures r.Raise? ==> r.error == TypeError
    decreases |fields|
  {
    if fields == [] then Ok([])
    else
      var head: Result<seq<Issue>> :=
        match In(fields[0], c)
        case Raise(e) => Raise(e)
        case Ok(found) => Ok(if found then [] else [ChapterMissingField(n, fields[0])]);
      Then(head, MissingChapterFields(c, n, fields[1..]))
  }

  /** `not v or len(v) < min`, raising on a true value without a length. */
  function TooShort(v: JsonValue, min: nat): (r: Result<bool>)
    ensures r.Raise? <==> Truthy(v) && Len(v).Raise?
    ensures r.Ok? ==> (r.value <==> !Truthy(v) || Len(v).value < min)
  {
    if !Truthy(v) then Ok(true)
    else
      match Len(v)
      case Raise(e) => Raise(e)
      case Ok(k) => Ok(k < min)
  }

  /** The integer a JSON int (or bool) stands for. */
  function IntOf(v: JsonValue): int
    requires IsInt(v)
  {
    if v.JInt? then v.i else if v.b then 1 else 0
  }

  /** `not isinstance(pages, int) or pages < 5 or pages > 30`. */
  predicate BadEstimate(v: JsonValue) {
    !IsInt(v) || IntOf(v) < 5 || IntOf(v) > 30
  }

  /** An issue about chapter `n` of the outline. */
  predicate AboutChapter(x: Issue, n: int) {
    OfChapter(x) && x.chapter == n
  }

  predicate OfChapter(x: Issue) {
    x.ChapterMissingField? || x.WrongNumber? || x.ShortTitle? || x.ShortSummary? || x.NoKeyEvents? || x.BadPages?
  }

  /** `if 'number' in chapter and chapter['number'] != expected_number`. */
  function NumberIssue(c: JsonValue, n: int): (r: Result<seq<Issue>>)
    ensures c.JObject? ==> r.Ok?
    ensures c.JObject? && HasKey(c.members, "number") && !EqualsInt(Lookup(c.members, "number"), n) ==>
      r == Ok([WrongNumber(n, Lookup(c.members, "number"))])
    ensures c.JObject? && !(HasKey(c.members, "number") && !EqualsInt(Lookup(c.members, "number"), n)) ==> r == Ok([])
    ensures r.Ok? ==> forall x :: x in r.value ==> x.WrongNumber? && AboutChapter(x, n)
  {
    match Present(c, "number")
    case Raise(e) => Raise(e)
    case Ok(None) => Ok([])
    case Ok(Some(v)) => Ok(if !EqualsInt(v, n) then [WrongNumber(n, v)] else [])
  }

  /** The title and summary checks: present and `not v or len(v) < min`. */
  function ShortIssue(c: JsonValue, key: string, min: nat, issue: Issue): (r: Result<seq<Issue>>)
    ensures c.JObject? ==> (r.Raise? <==> HasKey(c.members, key) && TooShort(Lookup(c.members, key), min).Raise?)
    ensures c.JObject? && r.Ok? ==>
      r.value == if HasKey(c.members, key) && TooShort(Lookup(c.members, key), min).value then [issue] else []
    ensures r.Ok? ==> r.value == [] || r.value == [issue]
  {
    match Present(c, key)
    case Raise(e) => Raise(e)
    case Ok(None) => Ok([])
    case Ok(Some(v)) =>
      match TooShort(v, min)
      case Raise(e) => Raise(e)
      case Ok(short) => Ok(if short then [issue] else [])
  }

  /** `not isinstance(events, list) or len(events) == 0`. */
  predicate NoEvents(v: JsonValue) {
    !v.JArray? || |v.items| == 0
  }

  function EventsIssue(c: JsonValue, n: int): (r: Result<seq<Issue>>)
    ensures c.JObject? ==>
      r == Ok(if HasKey(c.members, "key_events") && NoEvents(Lookup(c.members, "key_events")) then [NoKeyEvents(n)] else [])
    ensures r.Ok? ==> r.value == [] || r.value == [NoKeyEvents(n)]
  {
    match Present(c, "key_events")
    case Raise(e) => Raise(e)
    case Ok(None) => Ok([])
    case Ok(Some(v)) => Ok(if NoEvents(v) then [NoKeyEvents(n)] else [])
  }

  function PagesIssue(c: JsonValue, n: int): (r: Result<seq<Issue>>)
    ensures c.JObject? ==> r.Ok?
    ensures c.JObject? && HasKey(c.members, "pages_estimate") && BadEstimate(Lookup(c.members, "pages_estimate")) ==>
      r == Ok([BadPages(n, Lookup(c.members, "pages_estimate"))])
    ensures c.JObject? && !(HasKey(c.members, "pages_estimate") && BadEstimate(Lookup(c.members, "pages_estimate"))) ==> r == Ok([])
    ensures r.Ok? ==> forall x :: x in r.value ==> x.BadPages? && AboutChapter(x, n)
  {
    match Present(c, "pages_estimate")
    case Raise(e) => Raise(e)
    case Ok(None) => Ok([])
    case Ok(Some(v)) => Ok(if BadEstimate(v) then [BadPages(n, v)] else [])
  }

  /** The checks on the values of the fields present, in the order number, title, summary, key events, pages. */
  function ValueIssues(c: JsonValue, n: int): Result<seq<Issue>>
  {
    Then(NumberIssue(c, n), Then(ShortIssue(c, "title", 3, ShortTitle(n)), Then(ShortIssue(c, "summary", 20, ShortSummary(n)),
      Then(EventsIssue(c, n), PagesIssue(c, n)))))
  }

  /** Every problem the value checks report is about chapter `n`. */
  lemma ValueIssuesAbout(c: JsonValue, n: int)
    ensures ValueIssues(c, n).Ok? ==> forall x :: x in ValueIssues(c, n).value ==> AboutChapter(x, n)
  {
    var a, b, s, e, p := NumberIssue(c, n), ShortIssue(c, "title", 3, ShortTitle(n)),
      ShortIssue(c, "summary", 20, ShortSummary(n)), EventsIssue(c, n), PagesIssue(c, n);
    if ValueIssues(c, n).Ok? {
      assert a.Ok? && b.Ok? && s.Ok? && e.Ok? && p.Ok?;
      assert ValueIssues(c, n).value == a.value + (b.value + (s.value + (e.value + p.value)));
      assert AboutChapter(NoKeyEvents(n), n) && AboutChapter(ShortSummary(n), n) && AboutChapter(ShortTitle(n), n);
    }
  }

  /** For a dict chapter, the value checks raise exactly when a true title or summary has no length. */
  lemma ValueIssuesRaise(c: JsonValue, n: int)
    requires c.JObject?
    ensures ValueIssues(c, n).Raise? <==>
      (HasKey(c.members, "title") && TooShort(Lookup(c.members, "title"), 3).Raise?) ||
      (HasKey(c.members, "summary") && TooShort(Lookup(c.members, "summary"), 20).Raise?)
  {
    var _ := ShortIssue(c, "title", 3, ShortTitle(n));
    var _ := ShortIssue(c, "summary", 20, ShortSummary(n));
  }

  /** For a dict chapter, which value checks report a problem, exactly. */
  lemma ValueIssuesOfDict(c: JsonValue, n: int)
    requires c.JObject? && ValueIssues(c, n).Ok?
    ensures var r := ValueIssues(c, n).value; var ms := c.members;
      (HasKey(ms, "number") ==> (WrongNumber(n, Lookup(ms, "number")) in r <==> !EqualsInt(Lookup(ms, "number"), n))) &&
      (ShortTitle(n) in r <==> HasKey(ms, "title") && TooShort(Lookup(ms, "title"), 3).value) &&
      (ShortSummary(n) in r <==> HasKey(ms, "summary") && TooShort(Lookup(ms, "summary"), 20).value) &&
      (NoKeyEvents(n) in r <==> HasKey(ms, "key_events") && NoEvents(Lookup(ms, "key_events"))) &&
      (HasKey(ms, "pages_estimate") ==>
        (BadPages(n, Lookup(ms, "pages_estimate")) in r <==> BadEstimate(Lookup(ms, "pages_estimate"))))
  {
    var a, b, s, e, p := NumberIssue(c, n), ShortIssue(c, "title", 3, ShortTitle(n)),
      ShortIssue(c, "summary", 20, ShortSummary(n)), EventsIssue(c, n), PagesIssue(c, n);
    assert a.Ok? && b.Ok? && s.Ok? && e.Ok? && p.Ok?;
    var ms := c.members;
    assert ValueIssues(c, n) == Then(a, Then(b, Then(s, Then(e, p))));
    if HasKey(ms, "number") {
      InThen5(a, b, s, e, p, WrongNumber(n, Lookup(ms, "number")));
    }
    InThen5(a, b, s, e, p, ShortTitle(n));
    InThen5(a, b, s, e, p, ShortSummary(n));
    InThen5(a, b, s, e, p, NoKeyEvents(n));
    if HasKey(ms, "pages_estimate") {
      InThen5(a, b, s, e, p, BadPages(n, Lookup(ms, "pages_estimate")));
    }
  }

  /** `_validate_chapter`: the missing fields, then the checks on the values present. */
  function ChapterIssues(c: JsonValue, n: int): Result<seq<Issue>>
  {
    Then(MissingChapterFields(c, n, ChapterFields), ValueIssues(c, n))
  }

  /** Every problem found in a chapter is about that chapter's number. */
  lemma ChapterIssuesAbout(c: JsonValue, n: int)
    ensures ChapterIssues(c, n).Ok? ==> forall x :: x in ChapterIssues(c, n).value ==> AboutChapter(x, n)
  {
    ValueIssuesAbout(c, n);
  }

  /** The chapters before n, then chapter n: every problem is about one of chapters 1 to n. */
  lemma ThenRange(before: Result<seq<Issue>>, last: Result<seq<Issue>>, n: int)
    requires 1 <= n
    requires before.Ok? ==> forall x :: x in before.value ==> OfChapter(x) && 1 <= x.chapter <= n - 1
    requires last.Ok? ==> forall x :: x in last.value ==> AboutChapter(x, n)
    ensures Then(before, last).Ok? ==> forall x :: x in Then(before, last).value ==> OfChapter(x) && 1 <= x.chapter <= n
  {
    if Then(before, last).Ok? {
      forall x | x in Then(before, last).value ensures OfChapter(x) && 1 <= x.chapter <= n {
        InThen(before, last, x);
      }
    }
  }

  /** Result k of the list is about chapter k + 1. */
  ghost predicate Numbered(rs: seq<Result<seq<Issue>>>) {
    forall i :: 0 <= i < |rs| && rs[i].Ok? ==> forall x :: x in rs[i].value ==> AboutChapter(x, i + 1)
  }

  /** Collecting numbered results: every problem is about one of chapters 1 to n. */
  lemma {:induction false} CollectRange(rs: seq<Result<seq<Issue>>>)
    requires Numbered(rs)
    ensures Collect(rs).Ok? ==> forall x :: x in Collect(rs).value ==> OfChapter(x) && 1 <= x.chapter <= |rs|
    decreases |rs|
  {
    if rs != [] {
      var n := |rs|;
      var front := rs[..n - 1];
      assert Numbered(front) by {
        forall i | 0 <= i < |front| ensures front[i] == rs[i] {}
      }
      CollectRange(front);
      ThenRange(Collect(front), rs[n - 1], n);
    }
  }

  /**
   * Collecting numbered results: the problems about chapter k are exactly
   * those of result k, and that result is not an exception.
   */
  lemma {:induction false} CollectAbout(rs: seq<Result<seq<Issue>>>, k: nat, x: Issue)
    requires Numbered(rs) && Collect(rs).Ok? && 1 <= k <= |rs| && AboutChapter(x, k)
    ensures rs[k - 1].Ok?
    ensures x in Collect(rs).value <==> x in rs[k - 1].value
    decreases |rs|
  {
    var n := |rs|;
    var front := rs[..n - 1];
    assert Numbered(front) by {
      forall i | 0 <= i < |front| ensures front[i] == rs[i] {}
    }
    var before, last := Collect(front), rs[n - 1];
    CollectRange(front);
    assert Collect(rs) == Then(before, last);
    assert before.Ok? && last.Ok?;
    InThen(before, last, x);
    if k == n {
      assert x !in before.value;
    } else {
      CollectAbout(front, k, x);
      assert front[k - 1] == rs[k - 1];
      assert x !in last.value;
    }
  }

  /** A check whose problems are all about the number it was given. */
  ghost predicate KeepsNumber(check: (JsonValue, int) -> Result<seq<Issue>>) {
    forall c, n :: check(c, n).Ok? ==> forall x :: x in check(c, n).value ==> AboutChapter(x, n)
  }

  lemma ChecksNumbered(items: seq<JsonValue>, check: (JsonValue, int) -> Result<seq<Issue>>)
    requires KeepsNumber(check)
    ensures Numbered(Checks(items, check))
  {
  }

  lemma ChapterIssuesKeepNumber()
    ensures KeepsNumber(ChapterIssues)
  {
    forall c, n ensures ChapterIssues(c, n).Ok? ==> forall x :: x in ChapterIssues(c, n).value ==> AboutChapter(x, n) {
      ChapterIssuesAbout(c, n);
    }
  }

  /** The chapter checks of the outline. */
  function ChapterChecks(items: seq<JsonValue>): seq<Result<seq<Issue>>> {
    Checks(items, ChapterIssues)
  }

  /** The chapter loop. */
  function AllChapters(items: seq<JsonValue>): Result<seq<Issue>> {
    Collect(ChapterChecks(items))
  }

  /**
   * The problems the loop reports about chapter k are exactly those of
   * chapter k checked on its own as number k: no chapter's problems are
   * lost, duplicated or attributed to another, and none is about a
   * chapter outside 1 to n.
   */
  lemma ChaptersNumbered(items: seq<JsonValue>, k: nat, x: Issue)
    requires AllChapters(items).Ok?
    ensures forall y :: y in AllChapters(items).value ==> OfChapter(y) && 1 <= y.chapter <= |items|
    ensures 1 <= k <= |items| && AboutChapter(x, k) ==>
      ChapterIssues(items[k - 1], k).Ok? && (x in AllChapters(items).value <==> x in ChapterIssues(items[k - 1], k).value)
  {
    ChapterIssuesKeepNumber();
    ChecksNumbered(items, ChapterIssues);
    CollectRange(ChapterChecks(items));
    if 1 <= k <= |items| && AboutChapter(x, k) {
      CollectAbout(ChapterChecks(items), k, x);
    }
  }

  /** `_validate_plot_section`: an outline that is a non-empty list, each chapter checked in order. */
  function PlotIssues(plot: JsonValue): (r: Result<seq<Issue>>)
    ensures plot.JObject? && !HasKey(plot.members, "outline") ==> r == Ok([NoOutline])
    ensures plot.JObject? && HasKey(plot.members, "outline") ==>
      var o := Lookup(plot.members, "outline");
      r == if !o.JArray? || |o.items| == 0 then Ok([EmptyOutline]) else AllChapters(o.items)
  {
    match Present(plot, "outline")
    case Raise(e) => Raise(e)
    case Ok(None) => Ok([NoOutline])
    case Ok(Some(o)) =>
      if !o.JArray? || |o.items| == 0 then Ok([EmptyOutline]) else AllChapters(o.items)
  }

  // ---------------------------------------------------------------- the loops

  /** Once a prefix of the characters raises, the whole loop raises the same way. */
  lemma {:induction false} CharactersStop(ms: seq<Member>, j: nat)
    requires j <= |ms| && AllCharacters(ms[..j]).Raise?
    ensures AllCharacters(ms) == AllCharacters(ms[..j])
    decreases |ms|
  {
    if j < |ms| {
      var front := ms[..|ms| - 1];
      assert front[..j] == ms[..j];
      CharactersStop(front, j);
    } else {
      assert ms[..j] == ms;
    }
  }

  /** `for char_name, char_data in characters.items()`, collecting the problems. */
  method ValidateCharacters(characters: JsonValue) returns (r: Result<seq<Issue>>)
    ensures r == CharactersIssues(characters)
  {
    if !Truthy(characters) {
      return Ok([NoCharacters]);
    }
    if !characters.JObject? {
      return Raise(AttributeError);
    }
    var ms := characters.members;
    var problems: seq<Issue> := [];
    for i := 0 to |ms|
      invariant AllCharacters(ms[..i]) == Ok(problems)
    {
      assert ms[..i + 1][..i] == ms[..i];
      var c := CharacterIssues(ms[i].key, ms[i].value);
      if c.Raise? {
        CharactersStop(ms, i + 1);
        return c;
      }
      problems := problems + c.value;
    }
    assert ms[..|ms|] == ms;
    return Ok(problems);
  }

  /** The chapter loop of `_validate_plot_section`. */
  method ValidateChapters(items: seq<JsonValue>) returns (r: Result<seq<Issue>>)
    ensures r == AllChapters(items)
  {
    r := ExtendAll(items, ChapterIssues);
  }

  /** `_validate_plot_section` with its chapter loop. */
  method ValidatePlot(plot: JsonValue) returns (r: Result<seq<Issue>>)
    ensures r == PlotIssues(plot)
  {
    var outline := Present(plot, "outline");
    match outline {
      case Raise(e) => return Raise(e);
      case Ok(None) => return Ok([NoOutline]);
      case Ok(Some(o)) =>
        if !o.JArray? || |o.items| == 0 {
          return Ok([EmptyOutline]);
        }
        r := ValidateChapters(o.items);
    }
  }

  // ---------------------------------------------------------------- outline

  /** One required section: a problem when `in` does not find it. */
  function SectionCheck(data: JsonValue, section: string): (r: Result<seq<Issue>>)
    ensures data.JObject? ==> r == Ok(if HasKey(data.members, section) then [] else [MissingSection(section)])
    ensures r.Raise? <==> !(data.JObject? || data.JArray? || data.JString?)
    ensures r.Ok? ==> r.value == [] || r.value == [MissingSection(section)]
  {
    match In(section, data)
    case Raise(e) => Raise(e)
    case Ok(found) => Ok(if found then [] else [MissingSection(section)])
  }

  /** The required sections, in order, that `in` does not find. */
  function MissingSections(data: JsonValue, sections: seq<string>): (r: Result<seq<Issue>>)
    ensures data.JObject? ==> r.Ok? && forall s :: MissingSection(s) in r.value <==> s in sections && !HasKey(data.members, s)
    ensures r.Ok? ==> forall x :: x in r.value ==> x.MissingSection?
    ensures r.Raise? <==> sections != [] && !(data.JObject? || data.JArray? || data.JString?)
    decreases |sections|
  {
    if sections == [] then Ok([])
    else
      var front := sections[..|sections| - 1];
      assert sections == front + [sections[|sections| - 1]];
      Then(MissingSections(data, front), SectionCheck(data, sections[|sections| - 1]))
  }

  /** `outline_data.get(key, {})` on a dict. */
  function Section(ms: seq<Member>, key: string): (v: JsonValue)
    ensures Get(JObject(ms), key, JObject([])) == Ok(v)
  {
    if HasKey(ms, key) then Lookup(ms, key) else JObject([])
  }

  /**
   * `validate_outline_structure`: when a section is missing, only the
   * missing sections; otherwise the problems of world, characters, plot and
   * style in that order. `.get` on a value that is not a dict raises.
   */
  function OutlineStructure(data: JsonValue): (r: Result<seq<Issue>>)
  {
    match MissingSections(data, OutlineGenerator.RequiredSections)
    case Raise(e) => Raise(e)
    case Ok(missing) =>
      if missing != [] then Ok(missing)
      else if !data.JObject? then Raise(AttributeError)
      else
        var ms := data.members;
        Then(WorldIssues(Section(ms, "world")),
          Then(CharactersIssues(Section(ms, "characters")),
            Then(PlotIssues(Section(ms, "plot")), StyleIssues(Section(ms, "style")))))
  }

  /** An outline missing a section is refused with exactly the missing sections as its problems. */
  lemma MissingSectionsOnly(data: JsonValue, s: string)
    requires data.JObject? && s in OutlineGenerator.RequiredSections && !HasKey(data.members, s)
    ensures OutlineStructure(data).Ok?
    ensures forall x :: x in OutlineStructure(data).value ==> x.MissingSection?
    ensures forall t :: MissingSection(t) in OutlineStructure(data).value <==>
      t in OutlineGenerator.RequiredSections && !HasKey(data.members, t)
  {
    var m := MissingSections(data, OutlineGenerator.RequiredSections);
    assert MissingSection(s) in m.value;
  }

  /** Once a prefix of the sections raises, the whole scan raises the same way. */
  lemma {:induction false} SectionsStop(data: JsonValue, sections: seq<string>, j: nat)
    requires j <= |sections| && MissingSections(data, sections[..j]).Raise?
    ensures MissingSections(data, sections) == MissingSections(data, sections[..j])
    decreases |sections|
  {
    if j < |sections| {
      var front := sections[..|sections| - 1];
      assert front[..j] == sections[..j];
      SectionsStop(data, front, j);
    } else {
      assert sections[..j] == sections;
    }
  }

  /** `for section in required_sections: if section not in outline_data`, collecting the problems. */
  method ScanSections(data: JsonValue, sections: seq<string>) returns (r: Result<seq<Issue>>)
    ensures r == MissingSections(data, sections)
  {
    var problems: seq<Issue> := [];
    for i := 0 to |sections|
      invariant MissingSections(data, sections[..i]) == Ok(problems)
    {
      assert sections[..i + 1][..i] == sections[..i];
      var c := SectionCheck(data, sections[i]);
      if c.Raise? {
        SectionsStop(data, sections, i + 1);
        return c;
      }
      problems := problems + c.value;
    }
    assert sections[..|sections|] == sections;
    return Ok(problems);
  }

  /** `validate_outline_structure` as the source runs it: the section loop, then the four section checks. */
  method ValidateOutlineStructure(data: JsonValue) returns (r: Result<seq<Issue>>)
    ensures r == OutlineStructure(data)
  {
    var missing := ScanSections(data, OutlineGenerator.RequiredSections);
    if missing.Raise? || missing.value != [] {
      return missing;
    }
    if !data.JObject? {
      return Raise(AttributeError);
    }
    var ms := data.members;
    var world := WorldIssues(Section(ms, "world"));
    var characters := ValidateCharacters(Section(ms, "characters"));
    var plot := ValidatePlot(Section(ms, "plot"));
    r := Then(world, Then(characters, Then(plot, StyleIssues(Section(ms, "style")))));
  }

  // ---------------------------------------------------------------- pages

  datatype PageIssue =
    | EmptyPage | ShortPage(words: nat) | LongPage(words: nat) | ChapterMarker | CodeBlock
    | Repeated(count: nat, excerpt: string) | MetaContent(indicator: string)

  /** The end of the run of whitespace starting at `i` (what `\s+` consumes, greedily). */
  function SpaceRunEnd(s: string, i: nat): (k: nat)
    requires i <= |s|
    ensures i <= k <= |s| && (k == |s| || !Text.IsSpace(s[k]))
    ensures forall j :: i <= j < k ==> Text.IsSpace(s[j])
    decreases |s| - i
  {
    if i < |s| && Text.IsSpace(s[i]) then SpaceRunEnd(s, i + 1) else i
  }

  /** `Cap[íi]tulo` starting at `j`. */
  predicate CapituloAt(s: string, j: nat) {
    j + 8 <= |s| && s[j] == 'C' && s[j + 1] == 'a' && s[j + 2] == 'p' && (s[j + 3] == 'í' || s[j + 3] == 'i')
    && s[j + 4] == 't' && s[j + 5] == 'u' && s[j + 6] == 'l' && s[j + 7] == 'o'
  }

  /** `^##\s+Cap[íi]tulo` matching at `i` in multi-line mode: at a line start, `##`, whitespace, the word. */
  predicate MarkerAt(s: string, i: nat) {
    i + 2 <= |s| && (i == 0 || s[i - 1] == '\n') && s[i] == '#' && s[i + 1] == '#'
    && SpaceRunEnd(s, i + 2) > i + 2 && CapituloAt(s, SpaceRunEnd(s, i + 2))
  }

  /** `re.search(r'^##\s+Cap[íi]tulo', content, re.MULTILINE)` finds a match. */
  predicate HasChapterMarker(s: string) {
    exists i: nat :: i < |s| && MarkerAt(s, i)
  }

  /** `[s.strip() for s in content.split('.') if s.strip()]`. */
  function Sentences(content: string): seq<string> {
    PageGenerator.Paragraphs(Text.Split(content, "."))
  }

  /** A sentence of at least 20 characters that occurs more than twice. */
  predicate Repeats(ss: seq<string>, s: string) {
    |s| >= 20 && multiset(ss)[s] > 2
  }

  /** The first sentence from `i` on that repeats. */
  function FirstRepeat(ss: seq<string>, i: nat): (r: Option<nat>)
    ensures r.Some? ==> i <= r.value < |ss| && Repeats(ss, ss[r.value])
    ensures r.Some? ==> forall k :: i <= k < r.value ==> !Repeats(ss, ss[k])
    ensures r.None? ==> forall k :: i <= k < |ss| ==> !Repeats(ss, ss[k])
    decreases |ss| - i
  {
    if i >= |ss| then None
    else if Repeats(ss, ss[i]) then Some(i)
    else FirstRepeat(ss, i + 1)
  }

  /** `_check_repetition` on the sentences: fewer than three are never checked; otherwise the first repeated sentence, with its count and its first 50 characters. */
  function RepeatedIn(ss: seq<string>): (r: Option<PageIssue>)
    ensures r.Some? ==> r.value.Repeated? && r.value.count > 2 && |r.value.excerpt| <= 50
  {
    if |ss| < 3 then None
    else
      match FirstRepeat(ss, 0)
      case None => None
      case Some(k) => Some(Repeated(multiset(ss)[ss[k]], Text.Take(ss[k], 50)))
  }

  function Repetition(content: string): Option<PageIssue> {
    RepeatedIn(Sentences(content))
  }

  /** No element occurs more often than the list is long. */
  lemma {:induction false} MultiplicityBound(ss: seq<string>, x: string)
    ensures multiset(ss)[x] <= |ss|
    decreases |ss|
  {
    if ss != [] {
      var front := ss[..|ss| - 1];
      assert ss == front + [ss[|ss| - 1]];
      MultiplicityBound(front, x);
    }
  }

  /**
   * A repetition is reported exactly when some sentence of at least 20
   * characters occurs more than twice; the guard on fewer than three
   * sentences excludes nothing, since no sentence can then occur three times.
   */
  lemma RepetitionIff(ss: seq<string>)
    ensures RepeatedIn(ss).Some? <==> exists k :: 0 <= k < |ss| && Repeats(ss, ss[k])
  {
    if |ss| < 3 {
      forall k | 0 <= k < |ss| ensures !Repeats(ss, ss[k]) {
        MultiplicityBound(ss, ss[k]);
      }
    }
  }

  /** `sum(1 for s in sentences if s == sent)`. */
  method CountOccurrences(ss: seq<string>, x: string) returns (count: nat)
    ensures count == multiset(ss)[x]
  {
    count := 0;
    for j := 0 to |ss|
      invariant count == multiset(ss[..j])[x]
    {
      assert ss[..j + 1] == ss[..j] + [ss[j]];
      if ss[j] == x {
        count := count + 1;
      }
    }
    assert ss[..|ss|] == ss;
  }

  /** The loop of `_check_repetition`: each sentence in turn, short ones skipped, its occurrences counted. */
  method FindRepetition(ss: seq<string>) returns (r: Option<PageIssue>)
    ensures r == RepeatedIn(ss)
  {
    if |ss| < 3 {
      return None;
    }
    for i := 0 to |ss|
      invariant FirstRepeat(ss, 0) == FirstRepeat(ss, i)
    {
      if |ss[i]| < 20 {
        continue;
      }
      var count := CountOccurrences(ss, ss[i]);
      if count > 2 {
        return Some(Repeated(count, Text.Take(ss[i], 50)));
      }
    }
    return None;
  }

  /** `_check_repetition`. */
  method CheckRepetition(content: string) returns (r: Option<PageIssue>)
    ensures r == Repetition(content)
  {
    r := FindRepetition(Sentences(content));
  }

  const MetaIndicators: seq<string> := ["instrucciones:", "nota del autor:", "este capítulo debe", "el personaje debería",
    "la escena debe", "importante:", "recordatorio:", "continúa desde aquí"]

  /** The first of `xs`, from position `i` on, that occurs in `s`. */
  function FirstContained(s: string, xs: seq<string>, i: nat): (r: Option<nat>)
    ensures r.Some? ==> i <= r.value < |xs| && Text.Contains(s, xs[r.value])
    ensures r.Some? ==> forall k :: i <= k < r.value ==> !Text.Contains(s, xs[k])
    ensures r.None? ==> forall k :: i <= k < |xs| ==> !Text.Contains(s, xs[k])
    decreases |xs| - i
  {
    if i >= |xs| then None
    else if Text.Contains(s, xs[i]) then Some(i)
    else FirstContained(s, xs, i + 1)
  }

  /** `_check_meta_content`: the first indicator, in list order, found in the lower-cased page. */
  function Meta(content: string): (r: Option<PageIssue>)
    ensures r.Some? ==> (r.value.MetaContent? && r.value.indicator in MetaIndicators
      && Text.Contains(Text.Lower(content), r.value.indicator))
    ensures r.None? <==> forall k :: 0 <= k < |MetaIndicators| ==> !Text.Contains(Text.Lower(content), MetaIndicators[k])
  {
    match FirstContained(Text.Lower(content), MetaIndicators, 0)
    case None => None
    case Some(k) => Some(MetaContent(MetaIndicators[k]))
  }

  function Listed(o: Option<PageIssue>): seq<PageIssue> {
    if o.Some? then [o.value] else []
  }

  /** The problems of a non-blank page from its word count and the outcome of each check, in the source's order. */
  function PageChecks(n: nat, minWords: int, maxWords: int, marker: bool, fence: bool,
                      repetition: Option<PageIssue>, meta: Option<PageIssue>): seq<PageIssue> {
    (if n < minWords then [ShortPage(n)] else [])
    + (if n > maxWords then [LongPage(n)] else [])
    + (if marker then [ChapterMarker] else [])
    + (if fence then [CodeBlock] else [])
    + Listed(repetition)
    + Listed(meta)
  }

  /**
   * `validate_page_content`: a blank page is only empty; otherwise the
   * word-count bounds, a chapter heading, a code fence, a repeated sentence
   * and meta-instructions, in that order.
   */
  function PageIssues(content: string, minWords: int, maxWords: int): seq<PageIssue> {
    if Text.IsBlank(content) then [EmptyPage]
    else PageChecks(|Text.Words(content)|, minWords, maxWords, HasChapterMarker(content),
      Text.Contains(content, PageGenerator.Fence), Repetition(content), Meta(content))
  }

  /** A non-blank page passes exactly when every check does. */
  lemma PageChecksValid(n: nat, minWords: int, maxWords: int, marker: bool, fence: bool,
                        repetition: Option<PageIssue>, meta: Option<PageIssue>)
    ensures PageChecks(n, minWords, maxWords, marker, fence, repetition, meta) == [] <==>
      minWords <= n <= maxWords && !marker && !fence && repetition.None? && meta.None?
  {
    var r := PageChecks(n, minWords, maxWords, marker, fence, repetition, meta);
    assert |r| == (if n < minWords then 1 else 0) + (if n > maxWords then 1 else 0) + (if marker then 1 else 0)
      + (if fence then 1 else 0) + |Listed(repetition)| + |Listed(meta)|;
  }

  /** The code-fence and heading problems stand exactly for their checks. */
  lemma PageChecksFlags(n: nat, minWords: int, maxWords: int, marker: bool, fence: bool,
                        repetition: Option<PageIssue>, meta: Option<PageIssue>)
    requires repetition.Some? ==> repetition.value.Repeated?
    requires meta.Some? ==> meta.value.MetaContent?
    ensures CodeBlock in PageChecks(n, minWords, maxWords, marker, fence, repetition, meta) <==> fence
    ensures ChapterMarker in PageChecks(n, minWords, maxWords, marker, fence, repetition, meta) <==> marker
  {
    var counts := (if n < minWords then [ShortPage(n)] else []) + (if n > maxWords then [LongPage(n)] else []);
    var rest := Listed(repetition) + Listed(meta);
    var m: seq<PageIssue> := if marker then [ChapterMarker] else [];
    var f: seq<PageIssue> := if fence then [CodeBlock] else [];
    assert PageChecks(n, minWords, maxWords, marker, fence, repetition, meta) == counts + m + f + rest;
    assert CodeBlock !in counts && CodeBlock !in rest && CodeBlock !in m;
    assert ChapterMarker !in counts && ChapterMarker !in rest && ChapterMarker !in f;
  }

  /** A page is valid exactly when it is not blank and passes every check. */
  lemma PageValidIff(content: string, minWords: int, maxWords: int)
    ensures PageIssues(content, minWords, maxWords) == [] <==>
      !Text.IsBlank(content) && minWords <= |Text.Words(content)| <= maxWords && !HasChapterMarker(content)
      && !Text.Contains(content, PageGenerator.Fence) && Repetition(content).None? && Meta(content).None?
  {
    if !Text.IsBlank(content) {
      PageChecksValid(|Text.Words(content)|, minWords, maxWords, HasChapterMarker(content),
        Text.Contains(content, PageGenerator.Fence), Repetition(content), Meta(content));
    }
  }

  /** The code-block problem is reported exactly for a non-blank page containing a fence. */
  lemma CodeBlockIff(content: string, minWords: int, maxWords: int)
    ensures CodeBlock in PageIssues(content, minWords, maxWords) <==>
      !Text.IsBlank(content) && Text.Contains(content, PageGenerator.Fence)
  {
    if !Text.IsBlank(content) {
      PageChecksFlags(|Text.Words(content)|, minWords, maxWords, HasChapterMarker(content),
        Text.Contains(content, PageGenerator.Fence), Repetition(content), Meta(content));
    }
  }

  /** A page as the generator cleans it is never flagged for a code block. */
  lemma CleanedPageHasNoCodeBlock(raw: string, minWords: int, maxWords: int)
    ensures CodeBlock !in PageIssues(PageGenerator.PostProcess(raw), minWords, maxWords)
  {
    PageGenerator.PostProcessHasNoFence(raw);
    CodeBlockIff(PageGenerator.PostProcess(raw), minWords, maxWords);
  }

  // ---------------------------------------------------------------- cleaned pages carry no heading

  /** `##` at index `j`. */
  ghost predicate HashesAt(s: string, j: int) {
    0 <= j && j + 1 < |s| && s[j] == '#' && s[j + 1] == '#'
  }

  /** No line break among `s[k..j]`. */
  ghost predicate SameLine(s: string, k: nat, j: nat) {
    k <= j <= |s| && forall m :: k <= m < j ==> s[m] != '\n'
  }

  /** Every `##` has a non-space character before it on its own line. */
  ghost predicate Guarded(s: string) {
    forall j :: HashesAt(s, j) ==> exists k: nat :: k < j && !Text.IsSpace(s[k]) && SameLine(s, k, j)
  }

  /** A text in which every `##` follows other text on its line has no chapter marker, which needs `##` at a line start. */
  lemma GuardedHasNoMarker(s: string)
    requires Guarded(s)
    ensures !HasChapterMarker(s)
  {
    forall i: nat | i < |s| ensures !MarkerAt(s, i) {
      assert HashesAt(s, i) ==> i > 0 && s[i - 1] != '\n';
    }
  }

  /** A slice that starts at the beginning, after blank text or after a line break keeps the property. */
  lemma GuardedSlice(s: string, a: nat, b: nat, t: string)
    requires Guarded(s) && a <= b <= |s| && t == s[a..b]
    requires Text.IsBlank(s[..a]) || (a > 0 && s[a - 1] == '\n')
    ensures Guarded(t)
  {
    forall j | HashesAt(t, j) ensures exists k: nat :: k < j && !Text.IsSpace(t[k]) && SameLine(t, k, j) {
      assert HashesAt(s, a + j);
      if Text.IsBlank(s[..a]) {
        assert forall m :: 0 <= m < a ==> s[..a][m] == s[m];
      }
      var k: nat :| k < a + j && !Text.IsSpace(s[k]) && SameLine(s, k, a + j);
      assert k >= a;
      assert t[k - a] == s[k];
      assert SameLine(t, k - a, j);
    }
  }

  /** Two such texts joined where no `##` can straddle the seam. */
  lemma GuardedConcat(a: string, b: string)
    requires Guarded(a) && Guarded(b)
    requires a == [] || b == [] || a[|a| - 1] != '#' || b[0] != '#'
    ensures Guarded(a + b)
  {
    var t := a + b;
    forall j | HashesAt(t, j) ensures exists k: nat :: k < j && !Text.IsSpace(t[k]) && SameLine(t, k, j) {
      if j + 1 < |a| {
        assert HashesAt(a, j);
        var k: nat :| k < j && !Text.IsSpace(a[k]) && SameLine(a, k, j);
        assert t[k] == a[k];
        assert SameLine(t, k, j);
      } else if j >= |a| {
        assert HashesAt(b, j - |a|);
        var k: nat :| k < j - |a| && !Text.IsSpace(b[k]) && SameLine(b, k, j - |a|);
        assert t[k + |a|] == b[k];
        assert SameLine(t, k + |a|, j);
      }
    }
  }

  /** A separator made of line breaks. */
  ghost predicate Breaks(sep: string) {
    sep != [] && forall m :: 0 <= m < |sep| ==> sep[m] == '\n'
  }

  /** A text without `#` has the property trivially. */
  lemma NoHashGuarded(s: string)
    requires forall m :: 0 <= m < |s| ==> s[m] != '#'
    ensures Guarded(s)
  {
  }

  lemma {:induction false} GuardedJoin(sep: string, xs: seq<string>)
    requires Breaks(sep)
    requires forall k :: 0 <= k < |xs| ==> Guarded(xs[k])
    ensures Guarded(Text.Join(sep, xs))
    decreases |xs|
  {
    if |xs| > 1 {
      GuardedJoin(sep, xs[1..]);
      NoHashGuarded(sep);
      GuardedConcat(xs[0], sep);
      assert (xs[0] + sep)[|xs[0] + sep| - 1] == '\n';
      GuardedConcat(xs[0] + sep, Text.Join(sep, xs[1..]));
    }
  }

  /** `strip()` keeps the property: it drops only leading blank text. */
  lemma GuardedStrip(s: string)
    requires Guarded(s)
    ensures Guarded(Text.Strip(s))
  {
    var t := Text.TrimStart(s);
    var k := |s| - |t|;
    assert Text.IsBlank(s[..k]);
    var st := Text.Strip(s);
    Text.StripIsSlice(s, k, st);
    GuardedSlice(s, k, k + |st|, st);
  }

  /** The pieces of a split on a separator that ends in a line break keep the property. */
  lemma {:induction false} GuardedSplit(s: string, sep: string)
    requires Guarded(s) && sep != [] && sep[|sep| - 1] == '\n'
    ensures forall k :: 0 <= k < |Text.Split(s, sep)| ==> Guarded(Text.Split(s, sep)[k])
    decreases |s|
  {
    var i := Text.FindFrom(s, sep, 0);
    if i >= 0 {
      var rest := s[i + |sep|..];
      GuardedSlice(s, 0, i, s[..i]);
      assert s[i + |sep| - 1] == '\n' by {
        assert Text.OccursAt(s, sep, i);
        assert s[i + |sep| - 1] == s[i..i + |sep|][|sep| - 1];
      }
      GuardedSlice(s, i + |sep|, |s|, rest);
      GuardedSplit(rest, sep);
      assert Text.Split(s, sep) == [s[..i]] + Text.Split(rest, sep);
    } else {
      GuardedSlice(s, 0, |s|, s);
    }
  }

  /** Before the first occurrence of a one-character separator, that character does not occur. */
  lemma BeforeFirst(s: string, sep: string, i: nat)
    requires |sep| == 1 && i <= |s|
    requires forall j :: 0 <= j < i ==> !Text.OccursAt(s, sep, j)
    ensures forall m :: 0 <= m < i ==> s[m] != sep[0]
  {
    forall m | 0 <= m < i ensures s[m] != sep[0] {
      assert !Text.OccursAt(s, sep, m);
      assert s[m..m + 1] == [s[m]];
    }
  }

  /** `c` does not occur in `s`. */
  ghost predicate Avoids(s: string, c: char) {
    forall m :: 0 <= m < |s| ==> s[m] != c
  }

  /** No piece of a split on a one-character separator contains that character. */
  lemma {:induction false} SplitAvoids(s: string, sep: string)
    requires |sep| == 1
    ensures forall k :: 0 <= k < |Text.Split(s, sep)| ==> Avoids(Text.Split(s, sep)[k], sep[0])
    decreases |s|
  {
    var i := Text.FindFrom(s, sep, 0);
    if i >= 0 {
      var rest := s[i + |sep|..];
      BeforeFirst(s, sep, i);
      assert Avoids(s[..i], sep[0]);
      SplitAvoids(rest, sep);
      var pieces, all := Text.Split(rest, sep), Text.Split(s, sep);
      assert all == [s[..i]] + pieces;
      forall k | 0 <= k < |all| ensures Avoids(all[k], sep[0]) {
        if k == 0 {
          assert all[k] == s[..i];
        } else {
          assert all[k] == pieces[k - 1];
        }
      }
    } else {
      BeforeFirst(s, sep, |s|);
      assert Avoids(s, sep[0]);
    }
  }

  /** The lines of a split on line breaks are single lines. */
  lemma SplitLines(s: string)
    ensures forall k :: 0 <= k < |Text.Split(s, "\n")| ==> SameLine(Text.Split(s, "\n")[k], 0, |Text.Split(s, "\n")[k]|)
  {
    var nl := "\n";
    assert |nl| == 1 && nl[0] == '\n';
    SplitAvoids(s, nl);
    forall k | 0 <= k < |Text.Split(s, nl)| ensures SameLine(Text.Split(s, nl)[k], 0, |Text.Split(s, nl)[k]|) {
      assert Avoids(Text.Split(s, nl)[k], '\n');
    }
  }

  /** The two separators of the cleanup are line breaks. */
  lemma BreakSeparators()
    ensures Breaks("\n") && Breaks("\n\n")
  {
    forall m | 0 <= m < 1 ensures "\n"[m] == '\n' {}
    forall m | 0 <= m < 2 ensures "\n\n"[m] == '\n' {}
  }

  /** Hashes with only whitespace before them on a line are where its stripped text starts. */
  lemma HashesAfterBlank(line: string, j: nat)
    requires HashesAt(line, j)
    requires forall k :: 0 <= k < j ==> Text.IsSpace(line[k])
    ensures Text.StartsWith(Text.Strip(line), "##")
  {
    var p := "##";
    assert |p| == 2 && p[0] == '#' && p[1] == '#';
    assert Text.IsBlank(line[..j]) by {
      assert forall m :: 0 <= m < j ==> line[..j][m] == line[m];
    }
    var h := line[j..j + 2];
    assert h[0] == p[0] && h[1] == p[1];
    assert h == p;
    Text.StripStartsWith(line, j, p);
  }

  /** On a single line whose stripped text does not start with `##`, a non-space character precedes each `##`. */
  lemma GuardedAt(line: string, j: nat)
    requires SameLine(line, 0, |line|)
    requires !Text.StartsWith(Text.Strip(line), "##")
    requires HashesAt(line, j)
    ensures exists k: nat :: k < j && !Text.IsSpace(line[k]) && SameLine(line, k, j)
  {
    var k := FirstNonSpace(line, 0, j);
    if k == j {
      HashesAfterBlank(line, j);
      assert false;
    }
    assert SameLine(line, k, j);
  }

  /** The first index in `from..j` of a non-space character, or `j` when there is none. */
  function FirstNonSpace(s: string, from: nat, j: nat): (k: nat)
    requires from <= j <= |s|
    ensures from <= k <= j
    ensures forall m :: from <= m < k ==> Text.IsSpace(s[m])
    ensures k < j ==> !Text.IsSpace(s[k])
    decreases j - from
  {
    if from == j then j else if !Text.IsSpace(s[from]) then from else FirstNonSpace(s, from + 1, j)
  }

  /** A single line whose stripped text does not start with `##` has the property. */
  lemma GuardedLine(line: string)
    requires SameLine(line, 0, |line|)
    requires !Text.StartsWith(Text.Strip(line), "##")
    ensures Guarded(line)
  {
    forall j | HashesAt(line, j) ensures exists k: nat :: k < j && !Text.IsSpace(line[k]) && SameLine(line, k, j) {
      GuardedAt(line, j);
    }
  }

  /** The text after the heading lines are dropped has the property: every kept line has it, and line breaks join them. */
  lemma WithoutHeadingsGuarded(content: string)
    ensures Guarded(PageGenerator.WithoutHeadings(content))
  {
    var lines := Text.Split(PageGenerator.Unfenced(content), "\n");
    var kept := PageGenerator.KeptLines(lines);
    SplitLines(PageGenerator.Unfenced(content));
    forall k | 0 <= k < |kept| ensures Guarded(kept[k]) {
      var j :| 0 <= j < |lines| && lines[j] == kept[k];
      GuardedLine(kept[k]);
    }
    BreakSeparators();
    GuardedJoin("\n", kept);
    GuardedStrip(Text.Join("\n", kept));
  }

  lemma {:induction false} ParagraphsGuarded(pieces: seq<string>)
    requires forall k :: 0 <= k < |pieces| ==> Guarded(pieces[k])
    ensures forall k :: 0 <= k < |PageGenerator.Paragraphs(pieces)| ==> Guarded(PageGenerator.Paragraphs(pieces)[k])
    decreases |pieces|
  {
    if pieces != [] {
      var front := pieces[..|pieces| - 1];
      var piece := pieces[|pieces| - 1];
      assert forall k :: 0 <= k < |front| ==> front[k] == pieces[k];
      ParagraphsGuarded(front);
      GuardedStrip(piece);
      var init := PageGenerator.Paragraphs(front);
      var p := Text.Strip(piece);
      var ps := PageGenerator.Paragraphs(pieces);
      assert ps == if p != [] then init + [p] else init;
      forall k | 0 <= k < |ps| ensures Guarded(ps[k]) {
        if k < |init| {
          assert ps[k] == init[k];
        } else {
          assert ps[k] == p;
        }
      }
    }
  }

  /** A page as the generator cleans it is never flagged for a chapter heading. */
  lemma CleanedPageHasNoMarker(raw: string, minWords: int, maxWords: int)
    ensures !HasChapterMarker(PageGenerator.PostProcess(raw))
    ensures ChapterMarker !in PageIssues(PageGenerator.PostProcess(raw), minWords, maxWords)
  {
    var w := PageGenerator.WithoutHeadings(raw);
    WithoutHeadingsGuarded(raw);
    GuardedSplit(w, "\n\n");
    ParagraphsGuarded(Text.Split(w, "\n\n"));
    BreakSeparators();
    GuardedJoin("\n\n", PageGenerator.PageParagraphs(raw));
    GuardedHasNoMarker(PageGenerator.PostProcess(raw));
    var c := PageGenerator.PostProcess(raw);
    if !Text.IsBlank(c) {
      PageChecksFlags(|Text.Words(c)|, minWords, maxWords, HasChapterMarker(c),
        Text.Contains(c, PageGenerator.Fence), Repetition(c), Meta(c));
    }
  }

  // ---------------------------------------------------------------- blurb

  datatype BlurbIssue = EmptyBlurb | ShortBlurb(words: nat) | LongBlurb(words: nat) | Spoiler(word: string)

  const SpoilerWords: seq<string> := ["al final", "finalmente", "descubre que", "resulta ser"]

  /** The words of `ws`, in order, that occur in `s`. */
  function Occurring(s: string, ws: seq<string>): (r: seq<string>)
    ensures forall w :: w in r <==> w in ws && Text.Contains(s, w)
    ensures |r| <= |ws|
    decreases |ws|
  {
    if ws == [] then []
    else (if Text.Contains(s, ws[0]) then [ws[0]] else []) + Occurring(s, ws[1..])
  }

  /** The problems of a non-blank blurb from its word count and the spoiler phrases found. */
  function BlurbChecks(n: nat, spoilers: seq<string>): seq<BlurbIssue> {
    (if n < 100 then [ShortBlurb(n)] else [])
    + (if n > 250 then [LongBlurb(n)] else [])
    + seq(|spoilers|, i requires 0 <= i < |spoilers| => Spoiler(spoilers[i]))
  }

  /** `validate_blurb`: a blank blurb is only empty; otherwise 100 to 250 words, and one problem per spoiler phrase in the lower-cased text. */
  function BlurbIssues(blurb: string): seq<BlurbIssue> {
    if Text.IsBlank(blurb) then [EmptyBlurb]
    else BlurbChecks(|Text.Words(blurb)|, Occurring(Text.Lower(blurb), SpoilerWords))
  }

  /** One spoiler problem per phrase found, and the blurb passes exactly when its length fits and none is found. */
  lemma BlurbChecksIff(n: nat, spoilers: seq<string>, w: string)
    ensures Spoiler(w) in BlurbChecks(n, spoilers) <==> w in spoilers
    ensures BlurbChecks(n, spoilers) == [] <==> 100 <= n <= 250 && spoilers == []
  {
    var tail := seq(|spoilers|, i requires 0 <= i < |spoilers| => Spoiler(spoilers[i]));
    assert BlurbChecks(n, spoilers) == (if n < 100 then [ShortBlurb(n)] else []) + (if n > 250 then [LongBlurb(n)] else []) + tail;
    if Spoiler(w) in BlurbChecks(n, spoilers) {
      assert Spoiler(w) in tail;
      var i :| 0 <= i < |tail| && tail[i] == Spoiler(w);
    }
    if w in spoilers {
      var i :| 0 <= i < |spoilers| && spoilers[i] == w;
      assert tail[i] == Spoiler(w);
    }
  }

  /** A spoiler is reported exactly for each listed phrase the lower-cased blurb contains. */
  lemma BlurbSpoilers(blurb: string, w: string)
    requires !Text.IsBlank(blurb)
    ensures Spoiler(w) in BlurbIssues(blurb) <==> w in SpoilerWords && Text.Contains(Text.Lower(blurb), w)
  {
    BlurbChecksIff(|Text.Words(blurb)|, Occurring(Text.Lower(blurb), SpoilerWords), w);
  }

  /** A blurb is valid exactly when it is not blank, has 100 to 250 words and no spoiler phrase. */
  lemma BlurbValidIff(blurb: string)
    ensures BlurbIssues(blurb) == [] <==>
      !Text.IsBlank(blurb) && 100 <= |Text.Words(blurb)| <= 250
      && forall k :: 0 <= k < |SpoilerWords| ==> !Text.Contains(Text.Lower(blurb), SpoilerWords[k])
  {
    if !Text.IsBlank(blurb) {
      var spoilers := Occurring(Text.Lower(blurb), SpoilerWords);
      BlurbChecksIff(|Text.Words(blurb)|, spoilers, "");
      if spoilers != [] {
        assert spoilers[0] in spoilers;
      }
    }
  }
}
