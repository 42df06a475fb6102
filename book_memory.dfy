/**
 * The project memory of `BookWriter` (bookwriter/core.py, the `memory.json`
 * dict) as a typed record, and the pure parts of the engine that read it:
 * the initial memory and the defaults `load_memory` fills in, the typed
 * reading of a generated outline, the character profiles, the status
 * projection, the cursor of the writing loop, the chapter heading and the
 * extraction of a finished chapter from the manuscript.
 */
module BookMemory {
  import opened Wrappers
  import Text
  import Problems
  import opened Json
  import Narrative
  import InputValidator
  import CharacterUpdater
  import OutlineGenerator
  import PromptBuilder

  // ---------------------------------------------------------------- the record

  /** `memory['metadata']`; a stored file may lack any of these keys. */
  datatype Metadata = Metadata(
    title: Option<string>,
    authorStyle: Option<string>,
    styleProfile: Option<string>,
    blurb: Option<string>,
    coverPrompt: Option<string>)

  /**
   * One entry of `memory['characters']`: its description and current state,
   * and whether the dict has any key at all (`filled`; an empty dict is
   * skipped by the profile builder).
   */
  datatype Character = Character(description: Option<string>, state: Option<string>, filled: bool)

  /** `memory['characters']`: the names in dict order and the entry of each. */
  datatype Cast = Cast(names: seq<string>, people: map<string, Character>)

  /** What a dict guarantees: each name once, and exactly the names that have an entry. */
  predicate WellFormedCast(c: Cast) {
    CharacterUpdater.Distinct(c.names)
    && (forall i :: 0 <= i < |c.names| ==> c.names[i] in c.people)
    && (forall n :: n in c.people ==> n in c.names)
  }

  /** `memory['plot']`. */
  datatype Plot = Plot(outline: seq<Narrative.Chapter>, premise: Option<string>, themes: Option<seq<string>>)

  /** One entry of `chapters_summary`. */
  datatype Summary = Summary(number: int, title: string, summary: string)

  /** `writing_progress`: the index of the chapter being written and how many of its pages are written. */
  datatype Progress = Progress(chapterIndex: nat, pageInChapter: nat)

  datatype ProjectMemory = ProjectMemory(
    metadata: Metadata,
    cast: Cast,
    plot: Plot,
    chaptersSummary: seq<Summary>,
    progress: Progress)

  // ---------------------------------------------------------------- creation and loading

  const DefaultProfile := "balanced_neutral"

  /** `_get_initial_memory` (the creation time and the model name are not modelled). */
  function InitialMemory(title: string, authorStyle: string, styleProfile: string): ProjectMemory {
    ProjectMemory(
      Metadata(Some(title), Some(authorStyle), Some(styleProfile), Some(""), Some("")),
      Cast([], map[]),
      Plot([], Some(""), Some([])),
      [],
      Progress(0, 0))
  }

  /** What `memory.json` holds when the project opens. */
  datatype MemoryFile = NoMemoryFile | CorruptFile | StoredMemory(stored: ProjectMemory)

  /** The three `setdefault` calls of `load_memory` on the metadata. */
  function WithDefaults(md: Metadata): Metadata {
    md.(blurb := Some(md.blurb.GetOr("")),
        coverPrompt := Some(md.coverPrompt.GetOr("")),
        styleProfile := Some(md.styleProfile.GetOr(DefaultProfile)))
  }

  /** `load_memory`: a missing or undecodable file keeps the initial memory. */
  function Loaded(file: MemoryFile, initial: ProjectMemory): ProjectMemory {
    match file
    case StoredMemory(m) => m.(metadata := WithDefaults(m.metadata))
    case _ => initial
  }

  /**
   * The memory `__init__` ends with: ValueError for a refused project name;
   * otherwise the initial memory of the sanitised name, with the author
   * list joined by commas (a single author is a list of one), then loaded.
   */
  function OpenedMemory(name: string, authors: seq<string>, profile: string, file: MemoryFile): (r: Result<ProjectMemory>)
    ensures r.Raise? <==> InputValidator.ValidateProjectName(name).Some?
    ensures r.Raise? ==> r.error == ValueError
    ensures r.Ok? && !file.StoredMemory? ==> r.value.metadata.title == Some(InputValidator.SanitizeProjectName(name))
  {
    if InputValidator.ValidateProjectName(name).Some? then Raise(ValueError)
    else Ok(Loaded(file, InitialMemory(InputValidator.SanitizeProjectName(name), Text.Join(", ", authors), profile)))
  }

  /**
   * After loading, the blurb, the cover prompt and the style profile are
   * always present; a stored value is kept, a missing one becomes "", "" and
   * "balanced_neutral"; nothing else of a stored memory changes.
   */
  lemma LoadFillsDefaults(file: MemoryFile, title: string, authorStyle: string, profile: string)
    ensures var m := Loaded(file, InitialMemory(title, authorStyle, profile));
      m.metadata.blurb.Some? && m.metadata.coverPrompt.Some? && m.metadata.styleProfile.Some?
    ensures file.StoredMemory? ==>
      var s := file.stored;
      var m := Loaded(file, InitialMemory(title, authorStyle, profile));
      m.cast == s.cast && m.plot == s.plot && m.chaptersSummary == s.chaptersSummary && m.progress == s.progress
      && m.metadata.title == s.metadata.title && m.metadata.authorStyle == s.metadata.authorStyle
      && (s.metadata.blurb.Some? ==> m.metadata.blurb == s.metadata.blurb)
      && (s.metadata.blurb.None? ==> m.metadata.blurb == Some(""))
      && (s.metadata.coverPrompt.Some? ==> m.metadata.coverPrompt == s.metadata.coverPrompt)
      && (s.metadata.coverPrompt.None? ==> m.metadata.coverPrompt == Some(""))
      && (s.metadata.styleProfile.Some? ==> m.metadata.styleProfile == s.metadata.styleProfile)
      && (s.metadata.styleProfile.None? ==> m.metadata.styleProfile == Some(DefaultProfile))
  {
  }

  /** Saving the loaded memory and opening the project again gives the same memory. */
  lemma ReloadChangesNothing(file: MemoryFile, initial: ProjectMemory, other: ProjectMemory)
    requires initial.metadata.blurb.Some? && initial.metadata.coverPrompt.Some? && initial.metadata.styleProfile.Some?
    ensures Loaded(StoredMemory(Loaded(file, initial)), other) == Loaded(file, initial)
  {
    var m := Loaded(file, initial);
    assert WithDefaults(m.metadata) == m.metadata;
  }

  // ---------------------------------------------------------------- reading a generated outline

  /** A str value, or None for a missing key or any other type. */
  function StringOf(v: Option<JsonValue>): Option<string> {
    match v
    case Some(JString(s)) => Some(s)
    case _ => None
  }

  /** A list of strings, or None. */
  function StringsOf(v: Option<JsonValue>): Option<seq<string>> {
    match v
    case Some(JArray(items)) =>
      if forall i :: 0 <= i < |items| ==> items[i].JString? then
        Some(seq(|items|, i requires 0 <= i < |items| => items[i].s))
      else None
    case _ => None
  }

  /** An int value, or None. */
  function IntOf(v: Option<JsonValue>): Option<int> {
    match v
    case Some(JInt(i)) => Some(i)
    case _ => None
  }

  /** The least integer at or above `r`. */
  function Ceil(r: real): int {
    -((-r).Floor)
  }

  /** An integer page reaches a page estimate exactly when it reaches the estimate's ceiling. */
  lemma CeilCompare(page: int, r: real)
    ensures page as real >= r <==> page >= Ceil(r)
  {
  }

  /** A numeric page estimate, read as its ceiling; None for a missing or non-numeric one. */
  function PagesOf(v: Option<JsonValue>): Option<int> {
    match v
    case Some(x) => if NumberOf(x).Some? then Some(Ceil(NumberOf(x).value)) else None
    case None => None
  }

  /** One outline chapter as the engine reads it. */
  function ChapterOf(v: JsonValue): Narrative.Chapter {
    match v
    case JObject(ms) =>
      Narrative.Chapter(IntOf(Find(ms, "number")), StringOf(Find(ms, "title")), StringOf(Find(ms, "summary")),
                        StringsOf(Find(ms, "key_events")), StringsOf(Find(ms, "character_focus")),
                        PagesOf(Find(ms, "pages_estimate")))
    case _ => Narrative.Chapter(None, None, None, None, None, None)
  }

  /** One character entry as the engine reads it. */
  function CharacterOf(v: JsonValue): Character {
    match v
    case JObject(ms) => Character(StringOf(Find(ms, "description")), StringOf(Find(ms, "current_state")), |ms| > 0)
    case _ => Character(None, None, false)
  }

  /** The characters dict: its names in order, each with its entry. */
  function CastOf(ms: seq<Member>): (c: Cast)
    ensures WellFormedCast(c)
    ensures forall n :: n in c.people <==> HasKey(ms, n)
  {
    var names := CharacterUpdater.Dedup(Keys(ms));
    Cast(names, map n | n in names :: CharacterOf(Find(ms, n).value))
  }

  /**
   * `memory.update(outline_data)` for a generated outline: its characters and
   * its plot replace the memory's; the metadata, the summaries and the
   * progress are kept.
   */
  function Adopted(m: ProjectMemory, data: JsonValue): ProjectMemory
    requires OutlineGenerator.Processable(data)
  {
    var chapters := OutlineGenerator.ChaptersOf(data);
    var plot := OutlineGenerator.PlotOf(data);
    m.(cast := CastOf(OutlineGenerator.CharactersOf(data)),
       plot := Plot(seq(|chapters|, i requires 0 <= i < |chapters| => ChapterOf(chapters[i])),
                    StringOf(Find(plot, "premise")), StringsOf(Find(plot, "themes"))))
  }

  /** A positive estimate reads as at least one page. */
  lemma PositivePages(v: JsonValue)
    requires NumberOf(v).Some? && NumberOf(v).value > 0.0
    ensures PagesOf(Some(v)).Some? && PagesOf(Some(v)).value >= 1
  {
  }

  /** Filling a character's state twice changes nothing the second time. */
  lemma FillStateIdempotent(v: JsonValue, w: JsonValue)
    requires OutlineGenerator.FillState(v) == Ok(w)
    ensures OutlineGenerator.FillState(w) == Ok(w)
  {
  }

  /** A character dict every entry of which is already filled passes the filling loop unchanged. */
  lemma {:induction false} StatesFixed(ms: seq<Member>)
    requires forall i :: 0 <= i < |ms| ==> OutlineGenerator.FillState(ms[i].value) == Ok(ms[i].value)
    ensures OutlineGenerator.FillStates(ms) == Ok(ms)
    decreases |ms|
  {
    if ms != [] {
      var init, last := ms[..|ms| - 1], ms[|ms| - 1];
      assert forall i :: 0 <= i < |init| ==> init[i] == ms[i];
      StatesFixed(init);
      assert OutlineGenerator.FillState(last.value) == Ok(last.value);
      assert Member(last.key, last.value) == last;
      Problems.InitLast(ms);
      assert OutlineGenerator.FillStates(ms) == Ok(init + [Member(last.key, last.value)]);
    }
  }

  /** A chapter whose estimate and focus were filled reads with at least one page. */
  lemma FilledChapterPages(c: JsonValue, c': JsonValue)
    requires OutlineGenerator.FillPages(c).Ok?
    requires OutlineGenerator.FillFocus(OutlineGenerator.FillPages(c).value) == Ok(c')
    ensures Narrative.PagesEstimate(ChapterOf(c')) >= 1
  {
    var paged := OutlineGenerator.FillPages(c).value;
    assert Find(c'.members, "pages_estimate") == Find(paged.members, "pages_estimate");
    PositivePages(Lookup(paged.members, "pages_estimate"));
  }

  /** What the post-processing leaves: every character filled already, every chapter of at least one page. */
  lemma ProcessedOutline(data: JsonValue, d: JsonValue)
    requires OutlineGenerator.Processable(data) && OutlineGenerator.PostProcessed(data) == Ok(d)
    ensures OutlineGenerator.Processable(d)
    ensures |OutlineGenerator.ChaptersOf(d)| == |OutlineGenerator.ChaptersOf(data)|
    ensures OutlineGenerator.FillStates(OutlineGenerator.CharactersOf(d)) == Ok(OutlineGenerator.CharactersOf(d))
    ensures forall i :: 0 <= i < |OutlineGenerator.ChaptersOf(d)| ==>
      Narrative.PagesEstimate(ChapterOf(OutlineGenerator.ChaptersOf(d)[i])) >= 1
  {
    OutlineGenerator.PostProcessOnlyFills(data);
    var chars := OutlineGenerator.CharactersOf(d);
    forall i | 0 <= i < |chars| ensures OutlineGenerator.FillState(chars[i].value) == Ok(chars[i].value) {
      FillStateIdempotent(OutlineGenerator.CharactersOf(data)[i].value, chars[i].value);
    }
    StatesFixed(chars);
    var olds := OutlineGenerator.ChaptersOf(data);
    var news := OutlineGenerator.ChaptersOf(d);
    forall i | 0 <= i < |news| ensures Narrative.PagesEstimate(ChapterOf(news[i])) >= 1 {
      FilledChapterPages(olds[i], news[i]);
    }
  }

  /** A valid outline of `n` chapters lists `n` chapters. */
  lemma ChapterCount(data: JsonValue, n: int)
    requires OutlineGenerator.WellFormed(data, n)
    ensures OutlineGenerator.Processable(data) && |OutlineGenerator.ChaptersOf(data)| == n
  {
    OutlineGenerator.WellFormedProcessable(data, n);
  }

  /**
   * What a generated outline guarantees the engine: it has the requested
   * number of chapters, each with a page estimate of at least one page, and
   * every character already has a state, so the state-initialising loop of
   * `generate_outline` changes nothing.
   */
  lemma GeneratedOutline(parse: Parser, response: string, n: int, d: JsonValue)
    requires OutlineGenerator.GenerateOutcome(parse, response, n) == Ok(OutlineGenerator.Generated(d))
    ensures OutlineGenerator.Processable(d)
    ensures |OutlineGenerator.ChaptersOf(d)| == n
    ensures OutlineGenerator.FillStates(OutlineGenerator.CharactersOf(d)) == Ok(OutlineGenerator.CharactersOf(d))
    ensures forall i :: 0 <= i < |OutlineGenerator.ChaptersOf(d)| ==>
      Narrative.PagesEstimate(ChapterOf(OutlineGenerator.ChaptersOf(d)[i])) >= 1
  {
    var data := OutlineGenerator.ParseOutlineResponse(parse, response).value;
    ChapterCount(data, n);
    ProcessedOutline(data, d);
  }

  /**
   * Adopting an outline replaces the cast and the plot and nothing else: one
   * typed chapter per outline chapter, with no chapter of fewer than one page
   * when the outline has none.
   */
  lemma AdoptedOutline(m: ProjectMemory, d: JsonValue)
    requires OutlineGenerator.Processable(d)
    requires forall i :: 0 <= i < |OutlineGenerator.ChaptersOf(d)| ==>
      Narrative.PagesEstimate(ChapterOf(OutlineGenerator.ChaptersOf(d)[i])) >= 1
    ensures var a := Adopted(m, d);
      |a.plot.outline| == |OutlineGenerator.ChaptersOf(d)|
      && (forall i :: 0 <= i < |a.plot.outline| ==> Narrative.PagesEstimate(a.plot.outline[i]) >= 1)
      && a.metadata == m.metadata && a.chaptersSummary == m.chaptersSummary && a.progress == m.progress
      && WellFormedCast(a.cast)
  {
    var chapters := OutlineGenerator.ChaptersOf(d);
    var a := Adopted(m, d);
    forall i | 0 <= i < |a.plot.outline| ensures Narrative.PagesEstimate(a.plot.outline[i]) >= 1 {
      assert a.plot.outline[i] == ChapterOf(chapters[i]);
    }
  }

  // ---------------------------------------------------------------- the system prompt

  /** `_build_system_prompt`: the prompt builder's system prompt for this book, with the engine's defaults. */
  function SystemPromptOf(builder: PromptBuilder.PromptBuilder, m: ProjectMemory): string {
    builder.SystemPrompt(m.metadata.authorStyle.GetOr("neutral"), m.metadata.title.GetOr("Sin Título"),
                         m.plot.premise.GetOr("No especificada"), m.plot.themes.GetOr([]))
  }

  // ---------------------------------------------------------------- character profiles

  const ProfileStart := "- **"
  const ProfileName := ":** "
  const ProfileState := "\n  Estado actual: "
  const NoDescription := "Sin descripción"
  const UnknownState := "Desconocido"

  /** The profile of one character: name, description, current state. */
  function Profile(name: string, c: Character): string {
    ProfileStart + name + ProfileName + c.description.GetOr(NoDescription) + ProfileState + c.state.GetOr(UnknownState)
  }

  /** `characters.get(name, {})` is a non-empty dict. */
  predicate Profiled(cast: Cast, name: string) {
    name in cast.people && cast.people[name].filled
  }

  /** The profiles of the focused names that are non-empty characters, in focus order. */
  function ProfileLines(cast: Cast, focus: seq<string>): seq<string>
    decreases |focus|
  {
    if focus == [] then []
    else
      var name := focus[|focus| - 1];
      ProfileLines(cast, focus[..|focus| - 1]) + (if Profiled(cast, name) then [Profile(name, cast.people[name])] else [])
  }

  /**
   * Every profiled focused name has its profile among the lines, and every
   * line is the profile of a profiled focused name.
   */
  lemma {:induction false} ProfileLinesListFocus(cast: Cast, focus: seq<string>)
    ensures forall i :: 0 <= i < |focus| && Profiled(cast, focus[i]) ==>
      Profile(focus[i], cast.people[focus[i]]) in ProfileLines(cast, focus)
    ensures forall p :: p in ProfileLines(cast, focus) ==>
      exists i :: 0 <= i < |focus| && Profiled(cast, focus[i]) && p == Profile(focus[i], cast.people[focus[i]])
    decreases |focus|
  {
    if focus != [] {
      var init := focus[..|focus| - 1];
      ProfileLinesListFocus(cast, init);
      assert forall i :: 0 <= i < |init| ==> init[i] == focus[i];
    }
  }

  /** The joined profiles are empty exactly when no focused name is a non-empty character. */
  lemma ProfilesEmptyIff(cast: Cast, focus: seq<string>)
    ensures Text.Join("\n", ProfileLines(cast, focus)) == "" <==> forall i :: 0 <= i < |focus| ==> !Profiled(cast, focus[i])
  {
    ProfileLinesListFocus(cast, focus);
    var ps := ProfileLines(cast, focus);
    if ps != [] {
      assert ps[0] in ps;
      var i :| 0 <= i < |focus| && Profiled(cast, focus[i]) && ps[0] == Profile(focus[i], cast.people[focus[i]]);
      assert |ps[0]| > 0;
      if |ps| > 1 {
        assert Text.Join("\n", ps) == ps[0] + "\n" + Text.Join("\n", ps[1..]);
      }
    }
  }

  // ---------------------------------------------------------------- character states

  /** `current_states`: every character's state, "Desconocido" where it has none. */
  function CurrentStates(cast: Cast): (states: map<string, string>)
    ensures forall n :: n in states <==> n in cast.people
  {
    map n | n in cast.people :: cast.people[n].state.GetOr(UnknownState)
  }

  /** The current states are keyed by exactly the roster. */
  lemma CurrentStatesKeys(cast: Cast)
    requires WellFormedCast(cast)
    ensures forall n :: n in CurrentStates(cast) <==> n in cast.names
  {
  }

  /** The characters after the new states of the names in `done` are written. */
  function Updated(cast: Cast, states: map<string, string>, done: seq<string>): Cast {
    Cast(cast.names, map n | n in cast.people ::
      if n in states && n in done then cast.people[n].(state := Some(states[n]), filled := true) else cast.people[n])
  }

  /** `characters[name]['current_state'] = state` on a character that exists. */
  function SetState(cast: Cast, name: string, state: string): (r: Cast)
    requires name in cast.people
    ensures r.names == cast.names && r.people.Keys == cast.people.Keys
    ensures r.people[name].state == Some(state) && r.people[name].description == cast.people[name].description
    ensures forall n :: n in cast.people && n != name ==> r.people[n] == cast.people[n]
  {
    Cast(cast.names, cast.people[name := cast.people[name].(state := Some(state), filled := true)])
  }

  /** Before any name is done, nothing is updated. */
  lemma UpdatedNone(cast: Cast, states: map<string, string>)
    ensures Updated(cast, states, []) == cast
  {
    assert Updated(cast, states, []).people == cast.people;
  }

  /** In a roster without repeats, name `i` is not among the first `i`. */
  lemma NotYetDone(names: seq<string>, i: nat)
    requires CharacterUpdater.Distinct(names) && i < |names|
    ensures names[i] !in names[..i]
    ensures forall m :: m in names[..i + 1] <==> m in names[..i] || m == names[i]
  {
    assert names[..i + 1] == names[..i] + [names[i]];
    forall j | 0 <= j < i ensures names[..i][j] != names[i] {
      assert names[..i][j] == names[j];
    }
  }

  /** Writing the one state of a name not yet done. */
  lemma UpdatedOne(cast: Cast, states: map<string, string>, done: seq<string>, n: string)
    requires n in cast.people && n !in done
    ensures n in Updated(cast, states, done).people
    ensures var before := Updated(cast, states, done);
      Updated(cast, states, done + [n]) == if n in states then SetState(before, n, states[n]) else before
  {
    var before := Updated(cast, states, done);
    var after := Updated(cast, states, done + [n]);
    var target := if n in states then SetState(before, n, states[n]) else before;
    forall m | m in after.people ensures after.people[m] == target.people[m] {
      assert m in done + [n] <==> m in done || m == n;
    }
    assert after.people == target.people;
  }

  /**
   * One more name of the roster done: its new state is written when the
   * update has one for it, and nothing else changes.
   */
  lemma UpdatedStep(cast: Cast, states: map<string, string>, i: nat)
    requires WellFormedCast(cast) && i < |cast.names|
    ensures cast.names[i] in Updated(cast, states, cast.names[..i]).people
    ensures var n := cast.names[i];
      var before := Updated(cast, states, cast.names[..i]);
      Updated(cast, states, cast.names[..i + 1]) == if n in states then SetState(before, n, states[n]) else before
  {
    NotYetDone(cast.names, i);
    assert cast.names[..i + 1] == cast.names[..i] + [cast.names[i]];
    UpdatedOne(cast, states, cast.names[..i], cast.names[i]);
  }

  /** The update keeps the names and their order. */
  lemma UpdatedKeepsCast(cast: Cast, states: map<string, string>, done: seq<string>)
    requires WellFormedCast(cast)
    ensures WellFormedCast(Updated(cast, states, done))
    ensures Updated(cast, states, done).names == cast.names
  {
  }

  /** When the new states cover every name, afterwards every character has a state. */
  lemma UpdatedStatesComplete(cast: Cast, states: map<string, string>)
    requires WellFormedCast(cast)
    requires forall n :: n in cast.names ==> n in states
    ensures forall n :: n in Updated(cast, states, cast.names).people ==>
      Updated(cast, states, cast.names).people[n].state == Some(states[n])
  {
  }

  // ---------------------------------------------------------------- the cursor

  /** The book is finished, or has no outline yet: `generate_page` writes nothing. */
  predicate Finished(m: ProjectMemory) {
    m.plot.outline == [] || m.progress.chapterIndex >= |m.plot.outline|
  }

  /** The chapter being written. */
  function Current(m: ProjectMemory): Narrative.Chapter
    requires !Finished(m)
  {
    m.plot.outline[m.progress.chapterIndex]
  }

  /** The page number of the next page. */
  function NextPage(m: ProjectMemory): nat {
    m.progress.pageInChapter + 1
  }

  /** The entry `_complete_chapter` appends: number 0, title "" and summary "" when missing. */
  function SummaryOf(c: Narrative.Chapter): Summary {
    Summary(c.number.GetOr(0), c.title.GetOr(""), c.summary.GetOr(""))
  }

  /**
   * The memory after a page of the current chapter is written: on its last
   * page (as many as `pages_estimate`, 10 when missing) the summary is
   * appended, the characters take their new states and the cursor moves to
   * the next chapter; otherwise only the written-page count moves.
   */
  function Advanced(m: ProjectMemory, cast: Cast): ProjectMemory
    requires !Finished(m)
  {
    var c := Current(m);
    if NextPage(m) >= Narrative.PagesEstimate(c) then
      m.(cast := cast, chaptersSummary := m.chaptersSummary + [SummaryOf(c)],
         progress := Progress(m.progress.chapterIndex + 1, 0))
    else m.(progress := Progress(m.progress.chapterIndex, NextPage(m)))
  }

  /** `p` is strictly later than `q` in writing order. */
  predicate LaterThan(p: Progress, q: Progress) {
    p.chapterIndex > q.chapterIndex || (p.chapterIndex == q.chapterIndex && p.pageInChapter > q.pageInChapter)
  }

  /** `p` is `q` or later. */
  predicate NotBefore(p: Progress, q: Progress) {
    p == q || LaterThan(p, q)
  }

  lemma NotBeforeTransitive(p: Progress, q: Progress, r: Progress)
    requires NotBefore(q, p) && NotBefore(r, q)
    ensures NotBefore(r, p)
  {
  }

  /**
   * Writing a page always moves the cursor forward: the chapter index never
   * decreases, and within a chapter the page count grows by one.
   */
  lemma AdvanceMovesForward(m: ProjectMemory, cast: Cast)
    requires !Finished(m)
    ensures LaterThan(Advanced(m, cast).progress, m.progress)
    ensures Advanced(m, cast).progress.chapterIndex >= m.progress.chapterIndex
    ensures Advanced(m, cast).progress.chapterIndex == m.progress.chapterIndex ==>
      Advanced(m, cast).progress.pageInChapter == m.progress.pageInChapter + 1
  {
  }

  /**
   * The summaries record the finished chapters: one entry per chapter before
   * the cursor, copied from its outline entry.
   */
  predicate Chronicle(m: ProjectMemory) {
    m.progress.chapterIndex <= |m.plot.outline|
    && |m.chaptersSummary| == m.progress.chapterIndex
    && forall k :: 0 <= k < |m.chaptersSummary| ==> m.chaptersSummary[k] == SummaryOf(m.plot.outline[k])
  }

  lemma InitialChronicle(title: string, authorStyle: string, profile: string)
    ensures Chronicle(InitialMemory(title, authorStyle, profile))
  {
  }

  /** Writing a page keeps exactly one summary per finished chapter. */
  lemma AdvanceKeepsChronicle(m: ProjectMemory, cast: Cast)
    requires !Finished(m) && Chronicle(m)
    ensures Chronicle(Advanced(m, cast))
  {
    var a := Advanced(m, cast);
    if NextPage(m) >= Narrative.PagesEstimate(Current(m)) {
      assert a.chaptersSummary == m.chaptersSummary + [SummaryOf(m.plot.outline[m.progress.chapterIndex])];
      forall k | 0 <= k < |a.chaptersSummary| ensures a.chaptersSummary[k] == SummaryOf(a.plot.outline[k]) {
        if k < |m.chaptersSummary| {
          assert a.chaptersSummary[k] == m.chaptersSummary[k];
        }
      }
    }
  }

  // ---------------------------------------------------------------- status

  /** `current_chapter_number`: the chapter's number, None without one, "N/A" once the book is finished. */
  datatype Shown = Number(n: int) | NoNumber | NotApplicable

  const FinishedTitle := "Libro completado"

  /** What `get_status` returns (the cover path, a file-system test, is not modelled). */
  datatype Status =
    | NoOutline
    | Report(title: string, style: string, styleProfile: string, totalChapters: nat,
             chapterNumber: Shown, chapterTitle: Option<string>, currentPage: nat, pagesInChapter: int,
             characters: nat, completed: bool, embeddings: bool, blurb: string, coverPrompt: string)

  function ShownNumber(c: Narrative.Chapter): Shown {
    match c.number
    case Some(n) => Number(n)
    case None => NoNumber
  }

  /** `get_status`, where `embeddings` is the availability flag of the semantic memory. */
  function GetStatus(m: ProjectMemory, embeddings: bool): Status {
    var outline := m.plot.outline;
    var md := m.metadata;
    if outline == [] then NoOutline
    else
      var completed := m.progress.chapterIndex >= |outline|;
      var number := if completed then NotApplicable else ShownNumber(Current(m));
      var title := if completed then Some(FinishedTitle) else Current(m).title;
      var page := if completed then 0 else NextPage(m);
      var pages := if completed then 0 else Narrative.PagesEstimate(Current(m));
      Report(md.title.GetOr(""), md.authorStyle.GetOr(""), md.styleProfile.GetOr(DefaultProfile), |outline|,
             number, title, page, pages, |m.cast.people|, completed, embeddings, md.blurb.GetOr(""), md.coverPrompt.GetOr(""))
  }

  /**
   * The status and the page writer agree: the status is "no outline" or
   * "completed" exactly when there is nothing to write; while writing, it
   * names the page the writer writes next, of the chapter it writes; once
   * completed it shows page 0 of 0 of chapter "N/A".
   */
  lemma StatusAgreesWithWriter(m: ProjectMemory, embeddings: bool)
    ensures var s := GetStatus(m, embeddings);
      (s.NoOutline? <==> m.plot.outline == [])
      && (s.NoOutline? || s.completed <==> Finished(m))
      && (!Finished(m) ==>
            s.currentPage == NextPage(m) && s.pagesInChapter == Narrative.PagesEstimate(Current(m))
            && s.chapterNumber == ShownNumber(Current(m)) && s.chapterTitle == Current(m).title)
      && (s.Report? && s.completed ==> s.currentPage == 0 && s.pagesInChapter == 0 && s.chapterNumber == NotApplicable)
  {
  }

  // ---------------------------------------------------------------- the manuscript

  const ChapterMark := "## Capítulo "

  /** The heading line of a chapter, without its surrounding blank lines. */
  function Header(c: Narrative.Chapter): string {
    ChapterMark + Narrative.NumberText(c) + ": " + Narrative.TitleText(c)
  }

  /** What `_append_page_to_book` writes before the first page of a chapter. */
  function Heading(c: Narrative.Chapter): string {
    "\n\n" + Header(c) + "\n\n"
  }

  /** What `_append_page_to_book` writes for page `page`: the heading on page 1 only, then the page and a newline. */
  function PageText(c: Narrative.Chapter, page: int, content: string): string {
    (if page == 1 then Heading(c) else "") + content + "\n"
  }

  /** What writing pages 1, 2, ... of chapter `c` with these contents appends to the manuscript. */
  function WrittenPages(c: Narrative.Chapter, contents: seq<string>): string {
    if contents == [] then ""
    else WrittenPages(c, contents[..|contents| - 1]) + PageText(c, |contents|, contents[|contents| - 1])
  }

  /** Each content followed by a newline. */
  function Lines(contents: seq<string>): string {
    if contents == [] then "" else Lines(contents[..|contents| - 1]) + contents[|contents| - 1] + "\n"
  }

  /**
   * A chapter's heading is written exactly once, right before its first
   * page: the pages of a chapter append the heading and then every page
   * followed by a newline.
   */
  lemma {:induction false} HeadingOnce(c: Narrative.Chapter, contents: seq<string>)
    ensures WrittenPages(c, contents) == (if contents == [] then "" else Heading(c)) + Lines(contents)
  {
    if |contents| > 1 {
      var init := contents[..|contents| - 1];
      var last := contents[|contents| - 1];
      HeadingOnce(c, init);
      var tail := last + "\n";
      assert PageText(c, |contents|, last) == tail;
      assert Lines(contents) == Lines(init) + tail;
      assert WrittenPages(c, contents) == (Heading(c) + Lines(init)) + tail;
    }
  }

  /** The pattern that ends a chapter: the heading prefix of the next number (0 + 1 without a number). */
  function NextHeader(c: Narrative.Chapter): string {
    ChapterMark + Text.IntToString(c.number.GetOr(0) + 1) + ":"
  }

  /**
   * The slice from the last occurrence of `head` to the first occurrence of
   * `next` at or after it, or to the end; None when `head` does not occur.
   */
  function Extract(book: string, head: string, next: string): (r: Option<string>)
    ensures r.None? <==> !Text.Contains(book, head)
  {
    Text.ContainsIff(book, head);
    var start := Text.RFind(book, head);
    if start < 0 then None
    else
      var end := Text.FindFrom(book, next, start);
      Some(if end < 0 then book[start..] else book[start..end])
  }

  /**
   * The extracted text is the slice of the manuscript that starts at the
   * last occurrence of `head` and runs to an occurrence of `next` or to the
   * end, with no occurrence of `next` starting inside it.
   */
  lemma ExtractBounds(book: string, head: string, next: string)
    requires Text.Contains(book, head)
    ensures var s := Text.RFind(book, head);
      var t := Extract(book, head, next).value;
      Text.OccursAt(book, head, s) && (forall j :: s < j ==> !Text.OccursAt(book, head, j))
      && s + |t| <= |book| && book[s..s + |t|] == t
      && (s + |t| == |book| || Text.OccursAt(book, next, s + |t|))
      && (forall j :: s <= j < s + |t| ==> !Text.OccursAt(book, next, j))
  {
    Text.ContainsIff(book, head);
    var s := Text.RFind(book, head);
    assert s >= 0;
    var end := Text.FindFrom(book, next, s);
    var t := Extract(book, head, next).value;
    if end < 0 {
      assert t == book[s..];
      assert s + |t| == |book|;
    } else {
      assert t == book[s..end];
      assert s + |t| == end;
    }
  }

  /**
   * The text `_process_completed_chapter` indexes: from the last occurrence
   * of the chapter's heading to the first occurrence of the next chapter's
   * heading prefix at or after it, or to the end; None without the heading.
   */
  function ChapterText(book: string, c: Narrative.Chapter): (r: Option<string>)
    ensures r.None? <==> !Text.Contains(book, Header(c))
  {
    Extract(book, Header(c), NextHeader(c))
  }

  /** An occurrence after a prefix is an occurrence in what follows it. */
  lemma OccursAfter(x: string, y: string, t: string, k: int)
    requires k >= 0
    ensures Text.OccursAt(x + y, t, |x| + k) <==> Text.OccursAt(y, t, k)
  {
    if k + |t| <= |y| {
      assert (x + y)[|x| + k..|x| + k + |t|] == y[k..k + |t|];
    }
  }

  /**
   * What was written last is what is extracted: when the manuscript ends
   * with `head` followed by text that holds neither `head` again nor `next`,
   * the extracted text is `head` and all that follows it.
   */
  lemma ExtractLast(before: string, head: string, next: string, rest: string)
    requires Text.FindFrom(head + rest, head, 1) == -1
    requires Text.FindFrom(head + rest, next, 0) == -1
    ensures Extract(before + (head + rest), head, next) == Some(head + rest)
  {
    var tail := head + rest;
    var book := before + tail;
    assert Text.OccursAt(tail, head, 0);
    OccursAfter(before, tail, head, 0);
    forall j | j > |before| ensures !Text.OccursAt(book, head, j) {
      OccursAfter(before, tail, head, j - |before|);
    }
    var s := Text.RFind(book, head);
    assert s == |before|;
    forall j | j >= s ensures !Text.OccursAt(book, next, j) {
      OccursAfter(before, tail, next, j - |before|);
    }
    assert Text.FindFrom(book, next, s) == -1;
    assert book[s..] == tail;
  }

  /**
   * The chapter written last is the one indexed: when the manuscript ends
   * with the chapter's heading followed by text that holds neither the
   * heading again nor the next chapter's heading prefix, the indexed text is
   * that heading and all that follows it.
   */
  lemma LastChapterIndexed(before: string, c: Narrative.Chapter, rest: string)
    requires Text.FindFrom(Header(c) + rest, Header(c), 1) == -1
    requires Text.FindFrom(Header(c) + rest, NextHeader(c), 0) == -1
    ensures ChapterText(before + (Header(c) + rest), c) == Some(Header(c) + rest)
  {
    ExtractLast(before, Header(c), NextHeader(c), rest);
  }
}
