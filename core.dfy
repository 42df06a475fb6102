/**
 * `BookWriter` (bookwriter/core.py): the engine that opens a project,
 * generates the outline, writes the book page by page, closes each chapter
 * (semantic indexing, character states, chapter summary) and drives the
 * whole-book loop. The project memory is the typed record of `BookMemory`;
 * the manuscript file is a string field that only ever grows.
 */
module Core {
  import opened Wrappers
  import Text
  import opened Json
  import Narrative
  import GroqCall
  import StyleProfiles
  import StyleManager
  import PromptBuilder
  import SemanticMemory
  import OutlineGenerator
  import PageGenerator
  import CharacterUpdater
  import InputValidator
  import ContentValidator
  import opened BookMemory

  // ---------------------------------------------------------------- page messages

  /** How many characters of the manuscript the page prompt sees. */
  const TailLength: nat := 1500

  /** The scene type every page is written with. */
  const Scene := "mixed"

  /**
   * The status message of `generate_page`: the book is complete, the page
   * generator refused the response (the message is the response itself), or
   * page `page` of `total` of the chapter numbered `chapter` was written.
   */
  datatype PageStatus = BookComplete | GenerationFailed(response: string) | PageWritten(page: nat, total: int, chapter: string)

  /**
   * `"Error" in status`: only a refused response can contain the word; the
   * completion and success messages are fixed texts around numbers and never do.
   */
  predicate ReportsError(s: PageStatus) {
    s.GenerationFailed? && Text.Contains(s.response, "Error")
  }

  /** `_get_last_written_text(1500)`: the last 1500 characters of the manuscript ("" without one). */
  function LastWrittenText(book: string): (r: string)
    ensures |r| == if |book| < TailLength then |book| else TailLength
    ensures book == book[..|book| - |r|] + r
  {
    var r := Text.TakeLast(book, TailLength);
    assert book == book[..|book| - |r|] + book[|book| - |r|..];
    r
  }

  /** The semantic search query: the last written text, or the chapter summary before anything is written. */
  function SearchQuery(last: string, c: Narrative.Chapter): (q: string)
    ensures last != "" ==> q == last
    ensures last == "" ==> q == c.summary.GetOr("")
  {
    if last != "" then last else c.summary.GetOr("")
  }

  /** `_build_character_profiles`: the profiles of the focused characters, one per line. */
  function ProfilesText(cast: Cast, focus: seq<string>): string {
    Text.Join("\n", ProfileLines(cast, focus))
  }

  // ---------------------------------------------------------------- counting pages

  /** `sum(chap.get('pages_estimate', 10) for chap in chapters)`. */
  function SumPages(chapters: seq<Narrative.Chapter>): int
    decreases |chapters|
  {
    if chapters == [] then 0
    else SumPages(chapters[..|chapters| - 1]) + Narrative.PagesEstimate(chapters[|chapters| - 1])
  }

  /** The total of a sequence of chapters none of which is shorter than a page is at least their number. */
  lemma {:induction false} SumPagesAtLeastCount(chapters: seq<Narrative.Chapter>)
    requires forall i :: 0 <= i < |chapters| ==> Narrative.PagesEstimate(chapters[i]) >= 1
    ensures SumPages(chapters) >= |chapters|
    decreases |chapters|
  {
    if chapters != [] {
      var init := chapters[..|chapters| - 1];
      assert forall i :: 0 <= i < |init| ==> init[i] == chapters[i];
      SumPagesAtLeastCount(init);
    }
  }

  /** The pages of the first `k + 1` chapters are those of the first `k` and of chapter `k`. */
  lemma SumPagesSnoc(chapters: seq<Narrative.Chapter>, k: nat)
    requires k < |chapters|
    ensures SumPages(chapters[..k + 1]) == SumPages(chapters[..k]) + Narrative.PagesEstimate(chapters[k])
  {
    assert chapters[..k + 1][..k] == chapters[..k];
  }

  /**
   * `write_full_book`'s count of pages already written, as written: chapter
   * number minus one (from the status; 1 without an outline) chapters of
   * pages, plus the current page minus one. The chapter number of a finished
   * book is "N/A" and of an unnumbered chapter None, and subtracting from
   * either raises TypeError; a number past the outline runs the sum off its
   * end (IndexError).
   */
  function InitialCountAsWritten(s: Status, outline: seq<Narrative.Chapter>): (r: Result<int>)
    ensures r.Raise? ==> r.error == TypeError || r.error == IndexError
    ensures s.NoOutline? ==> r == Ok(0)
  {
    match s
    case NoOutline => Ok(0 + 1 - 1)
    case Report(_, _, _, _, number, _, page, _, _, _, _, _, _) =>
      match number
      case NotApplicable => Raise(TypeError)
      case NoNumber => Raise(TypeError)
      case Number(n) =>
        var done := n - 1;
        if done > |outline| then Raise(IndexError)
        else Ok((if done > 0 then SumPages(outline[..done]) else 0) + page - 1)
  }

  /**
   * The count the loop evidently means: every page of the chapters before the
   * cursor and the written pages of the current one; every page once the book
   * is finished.
   */
  function InitialCount(m: ProjectMemory): int {
    var outline := m.plot.outline;
    if m.progress.chapterIndex >= |outline| then SumPages(outline)
    else SumPages(outline[..m.progress.chapterIndex]) + m.progress.pageInChapter
  }

  /** Chapters numbered 1, 2, 3, ... in outline order, as a generated outline numbers them. */
  predicate Numbered(outline: seq<Narrative.Chapter>) {
    forall k :: 0 <= k < |outline| ==> outline[k].number == Some(k + 1)
  }

  /** On a finished book the count as written raises TypeError instead of counting every page. */
  lemma CompletedBookRaises(m: ProjectMemory, embeddings: bool)
    requires m.plot.outline != [] && m.progress.chapterIndex >= |m.plot.outline|
    ensures InitialCountAsWritten(GetStatus(m, embeddings), m.plot.outline) == Raise(TypeError)
    ensures InitialCount(m) == SumPages(m.plot.outline)
  {
  }

  /** While writing a numbered outline, the count as written and the intended count agree. */
  lemma CountAsWrittenAgrees(m: ProjectMemory, embeddings: bool)
    requires !Finished(m) && Numbered(m.plot.outline)
    ensures InitialCountAsWritten(GetStatus(m, embeddings), m.plot.outline) == Ok(InitialCount(m))
  {
    var k := m.progress.chapterIndex;
    assert Current(m).number == Some(k + 1);
  }

  /** Writing a page within the chapter's estimate adds exactly one page to the count. */
  lemma AdvanceCountsOnePage(m: ProjectMemory, cast: Cast)
    requires !Finished(m) && m.progress.pageInChapter < Narrative.PagesEstimate(Current(m))
    ensures InitialCount(Advanced(m, cast)) == InitialCount(m) + 1
  {
    var k := m.progress.chapterIndex;
    var outline := m.plot.outline;
    SumPagesSnoc(outline, k);
    if k + 1 == |outline| {
      assert outline[..k + 1] == outline;
    }
  }

  // ---------------------------------------------------------------- whole-book messages

  /**
   * A message of `write_full_book`: writing the page the status named before the
   * call, the error of a refused page, or the end of the process.
   */
  datatype Message = Writing(page: nat, pages: int, chapter: Shown) | Failed(status: string) | Done

  /** One item the generator yields: the progress ratio and the message. */
  datatype Progressed = Progressed(ratio: real, message: Message)

  /** `get_status().get('completed', False)`: a status without an outline is not completed. */
  predicate Completed(s: Status) {
    s.Report? && s.completed
  }

  /** The status is completed exactly when the outline exists and the cursor is past its end. */
  lemma CompletedIff(m: ProjectMemory, embeddings: bool)
    ensures Completed(GetStatus(m, embeddings)) <==> m.plot.outline != [] && m.progress.chapterIndex >= |m.plot.outline|
    ensures !Completed(GetStatus(m, embeddings)) && m.plot.outline != [] ==> !Finished(m)
  {
  }

  /** `pages_written / total_pages`, Python's true division. */
  function Ratio(written: int, total: int): real
    requires total != 0
  {
    written as real / total as real
  }

  /**
   * Each item reports a written page: the `k`-th at the ratio of `start + k + 1`
   * pages to the total.
   */
  predicate Reported(reports: seq<Progressed>, start: int, total: int) {
    forall k :: 0 <= k < |reports| ==>
      reports[k].message.Writing? && total != 0 && reports[k].ratio == Ratio(start + k + 1, total)
  }

  lemma ReportedSnoc(reports: seq<Progressed>, start: int, total: int, item: Progressed)
    requires Reported(reports, start, total)
    requires item.message.Writing? && total != 0 && item.ratio == Ratio(start + |reports| + 1, total)
    ensures Reported(reports + [item], start, total)
    ensures (reports + [item])[..|reports|] == reports
  {
  }

  /** The items drawn when a page stops the process: the reported pages, then at most the one failure. */
  lemma StoppedReports(reports: seq<Progressed>, tail: seq<Progressed>, start: int, total: int, r: Result<()>)
    requires Reported(reports, start, total)
    requires r.Ok? ==>
      total != 0 && |tail| == 1 && tail[0].message.Failed? && tail[0].ratio == Ratio(start + |reports|, total)
    requires r.Raise? ==> tail == []
    ensures |reports + tail| <= |reports| + 1
    ensures (reports + tail)[..|reports|] == reports
    ensures reports + tail != [] ==> Reported((reports + tail)[..|reports + tail| - 1], start, total)
    ensures reports + tail != [] && (reports + tail)[|reports + tail| - 1].message.Writing? ==>
      Reported(reports + tail, start, total)
    ensures reports + tail != [] && (reports + tail)[|reports + tail| - 1].message.Failed? ==>
      total != 0 && (reports + tail)[|reports + tail| - 1].ratio == Ratio(start + |reports + tail| - 1, total)
    ensures reports + tail != [] ==> !(reports + tail)[|reports + tail| - 1].message.Done?
    ensures r.Ok? ==> reports + tail != [] && !(reports + tail)[|reports + tail| - 1].message.Writing?
  {
    var all := reports + tail;
    assert all[..|reports|] == reports;
    if r.Raise? {
      assert all == reports;
      if reports != [] {
        assert reports[|reports| - 1].message.Writing?;
        ReportedPrefix(reports, start, total, |reports| - 1);
      }
    } else {
      assert all[|all| - 1] == tail[0];
    }
  }

  /** A prefix of the reported pages is reported. */
  lemma ReportedPrefix(reports: seq<Progressed>, start: int, total: int, n: nat)
    requires Reported(reports, start, total) && n <= |reports|
    ensures Reported(reports[..n], start, total)
  {
    assert forall k :: 0 <= k < n ==> reports[..n][k] == reports[k];
  }

  /** The progress message built from the status before the page is written. */
  function WritingMessage(s: Status): Message
    requires s.Report?
  {
    Writing(s.currentPage, s.pagesInChapter, s.chapterNumber)
  }

  /** What one page of `write_full_book` leads to: another item, or the end with its last items. */
  datatype Step = Wrote(item: Progressed) | Stopped(r: Result<()>, tail: seq<Progressed>)

  datatype OutlineMessage =
    /** One of the input checks refused the request. */
    | InvalidInput(problem: InputValidator.InputProblem)
    /** The response did not parse, or the outline failed the structure check. */
    | OutlineRejected(outcome: OutlineGenerator.Outcome)
    /** "Outline, world and characters generated". */
    | OutlineGenerated

  /** The first refused input of `generate_outline`, in the order the checks run. */
  function InputProblem(premise: string, chapters: int, themes: string): (r: Option<InputValidator.InputProblem>)
    ensures r.None? <==>
      InputValidator.ValidatePremise(premise).None? && InputValidator.ValidateChapterCount(chapters).None?
      && InputValidator.ValidateThemes(themes).None?
    ensures InputValidator.ValidatePremise(premise).Some? ==> r == InputValidator.ValidatePremise(premise)
  {
    if InputValidator.ValidatePremise(premise).Some? then InputValidator.ValidatePremise(premise)
    else if InputValidator.ValidateChapterCount(chapters).Some? then InputValidator.ValidateChapterCount(chapters)
    else InputValidator.ValidateThemes(themes)
  }

  /** `generate_outline` before the call: the premise and the cleaned themes go to the plot. */
  function WithPremise(m: ProjectMemory, premise: string, themes: string): ProjectMemory {
    m.(plot := m.plot.(premise := Some(premise),
                       themes := Some(InputValidator.CleanThemes(themes))))
  }

  /**
   * What `generate_outline` does with an outline once it is adopted:
   * `validate_outline_structure` only logs its problems and
   * `get_outline_summary` only logs its text, but either may raise, and the
   * error leaves the method with the outline already in the memory.
   */
  function AfterAdoption(d: JsonValue): (r: Result<OutlineMessage>)
    ensures r.Ok? <==> ContentValidator.OutlineStructure(d).Ok? && OutlineGenerator.OutlineSummary(d).Ok?
    ensures r.Ok? ==> r == Ok(OutlineGenerated)
  {
    match ContentValidator.OutlineStructure(d)
    case Raise(e) => Raise(e)
    case Ok(_) =>
      match OutlineGenerator.OutlineSummary(d)
      case Raise(e) => Raise(e)
      case Ok(_) => Ok(OutlineGenerated)
  }

  /** The structure check and the summary that follow the adoption, each of which may raise. */
  method FinishOutline(d: JsonValue) returns (r: Result<OutlineMessage>)
    ensures r == AfterAdoption(d)
  {
    var check := ContentValidator.ValidateOutlineStructure(d);
    if check.Raise? {
      return Raise(check.error);
    }
    var summary := OutlineGenerator.GetOutlineSummary(d);
    if summary.Raise? {
      return Raise(summary.error);
    }
    return Ok(OutlineGenerated);
  }

  /**
   * What `generate_outline` makes of the generator's outcome: an error is
   * raised and a rejected outline reported, both over the memory `m1` with
   * the premise stored; an accepted outline is adopted and then checked and
   * summarised, which may still raise.
   */
  predicate OutlineAnswered(m1: ProjectMemory, outcome: Result<OutlineGenerator.Outcome>, r: Result<OutlineMessage>,
                            m: ProjectMemory)
  {
    match outcome
    case Raise(e) => r == Raise(e) && m == m1
    case Ok(Generated(d)) => r == AfterAdoption(d) && OutlineGenerator.Processable(d) && m == Adopted(m1, d)
    case Ok(x) => r == Ok(OutlineRejected(x)) && m == m1
  }

  /**
   * After an accepted outline for `n` chapters the memory holds exactly `n`
   * chapters, each of at least one page, a well-formed cast, and the old
   * progress, summaries and metadata. `OutlineAnswered` adopts the outline
   * whether or not the check and the summary that follow raise.
   */
  lemma AdoptedChapters(parse: Parser, text: string, n: int, m1: ProjectMemory, d: JsonValue)
    requires OutlineGenerator.GenerateOutcome(parse, text, n) == Ok(OutlineGenerator.Generated(d))
    ensures OutlineGenerator.Processable(d)
    ensures var m := Adopted(m1, d);
      && |m.plot.outline| == n
      && (forall i :: 0 <= i < |m.plot.outline| ==> Narrative.PagesEstimate(m.plot.outline[i]) >= 1)
      && WellFormedCast(m.cast) && m.progress == m1.progress && m.chaptersSummary == m1.chaptersSummary
      && m.metadata == m1.metadata
  {
    GeneratedOutline(parse, text, n, d);
    AdoptedOutline(m1, d);
  }

  /**
   * Once the structure check of an accepted outline passes, `generate_outline`
   * still raises exactly when the summary does: on true `key_locations`
   * without a length, or on one of the first three chapters whose summary
   * does not slice.
   */
  lemma AdoptionRaises(parse: Parser, text: string, n: int, d: JsonValue)
    requires OutlineGenerator.GenerateOutcome(parse, text, n) == Ok(OutlineGenerator.Generated(d))
    requires ContentValidator.OutlineStructure(d).Ok?
    ensures OutlineGenerator.Processable(d)
    ensures AfterAdoption(d).Raise? <==>
      OutlineGenerator.BadLocations(OutlineGenerator.WorldOf(d)) || OutlineGenerator.UnslicedHead(OutlineGenerator.ChaptersOf(d))
  {
    OutlineGenerator.GeneratedSummary(parse, text, n, d);
  }

  // ---------------------------------------------------------------- the semantic memory after a chapter

  /**
   * `add_chapter(chapter, text)` as seen from outside: with the service up and
   * every chunk embedded, the chunks' vectors and records are appended;
   * otherwise the index and the records are what they were.
   */
  predicate Indexed(m: SemanticMemory.Memory, index: Option<seq<SemanticMemory.Vector>>, records: seq<SemanticMemory.ChunkMeta>,
                    index0: Option<seq<SemanticMemory.Vector>>, records0: seq<SemanticMemory.ChunkMeta>, chapter: int, text: string)
  {
    var chunks := SemanticMemory.ChunkTexts(Text.Words(text));
    if m.available && chunks != [] && m.Embeddable(chunks) then
      index == Some(index0.GetOr([]) + m.Embeddings(chunks)) && records == records0 + SemanticMemory.Records(chapter, chunks)
    else index == index0 && records == records0
  }

  /**
   * What `_process_completed_chapter` does to the semantic memory: nothing
   * when the manuscript lacks the chapter's heading, otherwise what
   * `add_chapter` does with the chapter's text.
   */
  predicate ChapterFiled(m: SemanticMemory.Memory, index: Option<seq<SemanticMemory.Vector>>, records: seq<SemanticMemory.ChunkMeta>,
                         index0: Option<seq<SemanticMemory.Vector>>, records0: seq<SemanticMemory.ChunkMeta>,
                         book: string, c: Narrative.Chapter)
  {
    match ChapterText(book, c)
    case None => index == index0 && records == records0
    case Some(text) => Indexed(m, index, records, index0, records0, c.number.GetOr(0), text)
  }

  // ---------------------------------------------------------------- what the service was asked

  /** `after` is `before` followed by `n` copies of `request` (the retries of one call). */
  predicate Asked(before: seq<GroqCall.Request>, after: seq<GroqCall.Request>, request: GroqCall.Request, n: nat) {
    after == before + GroqCall.Repeat(request, n)
  }

  /**
   * The states the character updater returns for the response `text`: the
   * current states when the response does not parse to a non-empty value,
   * otherwise the validated states of every name.
   */
  ghost predicate StatesAnswer(parse: Parser, text: string, r: Result<map<string, string>>,
                               names: seq<string>, current: map<string, string>)
  {
    var u := CharacterUpdater.ParseUpdateResponse(parse, text);
    ((u.None? || !Truthy(u.value)) ==> r == Ok(current))
    && (u.Some? && Truthy(u.value) ==> CharacterUpdater.IsValidation(r, u.value, names, current))
  }

  // ---------------------------------------------------------------- the engine

  /**
   * `BookWriter`: the service client and the generators built on it, the
   * semantic memory, the project memory, the manuscript and the number of
   * ten-second pauses the whole-book loop has taken.
   */
  class BookWriter {
    const client: GroqCall.Client
    const styles: StyleManager.StyleManager
    const builder: PromptBuilder.PromptBuilder
    const outlines: OutlineGenerator.OutlineGenerator
    const pages: PageGenerator.PageGenerator
    const updater: CharacterUpdater.CharacterUpdater
    const semantic: SemanticMemory.Memory
    var memory: ProjectMemory
    var book: string
    var pauses: nat

    /** The generators share the engine's client and prompt builder; the characters form a dict. */
    predicate Valid()
      reads this
    {
      outlines.client == client && outlines.builder == builder
      && pages.client == client && pages.builder == builder
      && updater.client == client
      && WellFormedCast(memory.cast)
    }

    /**
     * The wiring of `__init__` once the memory is loaded: the style manager of
     * the chosen profile and overrides, the prompt builder on its full
     * configuration, and the three generators on the one client.
     */
    constructor (client: GroqCall.Client, semantic: SemanticMemory.Memory, parse: Parser,
                 profile: string, custom: seq<StyleProfiles.Setting>, memory: ProjectMemory, book: string)
      requires WellFormedCast(memory.cast)
      ensures Valid()
      ensures this.client == client && this.semantic == semantic
      ensures this.memory == memory && this.book == book && pauses == 0
      ensures fresh(styles) && styles.profileName == profile && builder.styleConfig == styles.config
    {
      this.client := client;
      this.semantic := semantic;
      var styles := new StyleManager.StyleManager(profile, custom, []);
      var builder := new PromptBuilder.PromptBuilder(styles.GetFullConfig());
      this.styles := styles;
      this.builder := builder;
      outlines := new OutlineGenerator.OutlineGenerator(client, builder, parse);
      pages := new PageGenerator.PageGenerator(client, builder);
      updater := new CharacterUpdater.CharacterUpdater(client, parse);
      this.memory := memory;
      this.book := book;
      pauses := 0;
    }

    /**
     * `BookWriter(project_name, author_style, style_profile, custom_dimensions)`:
     * ValueError for a refused project name; otherwise an engine on the
     * initial memory of the sanitised name, replaced by the stored one when
     * the memory file holds one.
     */
    static method Open(name: string, authors: seq<string>, profile: string, custom: seq<StyleProfiles.Setting>,
                       file: MemoryFile, book: string,
                       client: GroqCall.Client, semantic: SemanticMemory.Memory, parse: Parser)
      returns (r: Result<BookWriter>)
      requires file.StoredMemory? ==> WellFormedCast(file.stored.cast)
      ensures r.Raise? <==> InputValidator.ValidateProjectName(name).Some?
      ensures r.Raise? ==> r.error == ValueError
      ensures r.Ok? ==>
        fresh(r.value) && r.value.Valid() && r.value.client == client && r.value.semantic == semantic
        && r.value.memory == OpenedMemory(name, authors, profile, file).value && r.value.book == book && r.value.pauses == 0
        && r.value.styles.profileName == profile
    {
      var loaded := OpenedMemory(name, authors, profile, file);
      if loaded.Raise? {
        return Raise(loaded.error);
      }
      var writer := new BookWriter(client, semantic, parse, profile, custom, loaded.value, book);
      return Ok(writer);
    }

    /** `_build_character_profiles`: the profile of each focused name that is a non-empty character. */
    method BuildCharacterProfiles(focus: seq<string>) returns (text: string)
      ensures text == ProfilesText(memory.cast, focus)
    {
      if focus == [] {
        return "";
      }
      var profiles: seq<string> := [];
      var i := 0;
      while i < |focus|
        invariant 0 <= i <= |focus|
        invariant profiles == ProfileLines(memory.cast, focus[..i])
      {
        var name := focus[i];
        assert focus[..i + 1][..i] == focus[..i];
        if Profiled(memory.cast, name) {
          profiles := profiles + [Profile(name, memory.cast.people[name])];
        }
        i := i + 1;
      }
      assert focus[..i] == focus;
      text := if profiles != [] then Text.Join("\n", profiles) else "";
    }

    /** `_append_page_to_book`: the heading before the first page of a chapter, then the page. */
    method AppendPageToBook(c: Narrative.Chapter, page: int, content: string)
      modifies this`book
      ensures book == old(book) + PageText(c, page, content)
    {
      if page == 1 {
        book := book + Heading(c);
      }
      book := book + (content + "\n");
    }

    /**
     * `_process_completed_chapter`: the chapter's text, as found in the
     * manuscript, goes to the semantic memory; a missing heading skips it, and
     * a failure of the embedding service is swallowed.
     */
    method ProcessCompletedChapter(c: Narrative.Chapter)
      modifies semantic
      ensures ChapterFiled(semantic, semantic.index, semantic.metadata, old(semantic.index), old(semantic.metadata), book, c)
    {
      var text := ChapterText(book, c);
      if text.Some? {
        var _ := semantic.AddChapter(c.number.GetOr(0), text.value);
      }
    }

    /**
     * `_update_character_states`: nothing without characters; otherwise the
     * character updater is asked once, with the current states ("Desconocido"
     * where a character has none), and every state it returns is written.
     */
    method UpdateCharacterStates(content: string) returns (r: Result<map<string, string>>)
      requires Valid()
      modifies this`memory, client
      ensures Valid()
      ensures r.Raise? ==> memory == old(memory)
      ensures r.Ok? ==> (forall n :: n in r.value <==> n in old(memory.cast.names))
      ensures r.Ok? ==> memory == old(memory).(cast := Updated(old(memory.cast), r.value, old(memory.cast.names)))
      ensures old(memory.cast.names) == [] ==>
        r == Ok(map[]) && client.calls == old(client.calls) && client.requests == old(client.requests)
      ensures old(client.requests) <= client.requests
      ensures var names := old(memory.cast.names);
        var o := GroqCall.Retry(GroqCall.Replies(client, old(client.calls)), client.waitOf, 0);
        names != [] ==>
          StatesAnswer(updater.parse, o.text, r, names, CurrentStates(old(memory.cast)))
          && Asked(old(client.requests), client.requests,
                   GroqCall.Request(SystemPromptOf(builder, old(memory)), CharacterUpdater.UpdatePrompt(content, names)), o.attempts)
    {
      var names := memory.cast.names;
      if names == [] {
        return Ok(map[]);
      }
      var system := SystemPromptOf(builder, memory);
      var current := CurrentStates(memory.cast);
      CurrentStatesKeys(memory.cast);
      r := updater.UpdateAfterChapter(system, content, names, current);
      if r.Ok? {
        ApplyStates(r.value);
      }
    }

    /** The assignment loop of `_update_character_states`, over the roster. */
    method ApplyStates(states: map<string, string>)
      requires WellFormedCast(memory.cast)
      modifies this`memory
      ensures memory == old(memory).(cast := Updated(old(memory.cast), states, old(memory.cast.names)))
      ensures WellFormedCast(memory.cast)
    {
      var cast := memory.cast;
      var names := cast.names;
      UpdatedNone(cast, states);
      var i := 0;
      while i < |names|
        invariant 0 <= i <= |names|
        invariant memory.cast == Updated(cast, states, names[..i])
        invariant memory == old(memory).(cast := memory.cast)
      {
        UpdatedStep(cast, states, i);
        var n := names[i];
        if n in states {
          memory := memory.(cast := SetState(memory.cast, n, states[n]));
        }
        i := i + 1;
      }
      assert names[..i] == names;
      UpdatedKeepsCast(cast, states, names);
    }

    /**
     * `_complete_chapter`: the chapter goes to the semantic memory, the
     * characters take their new states, its summary is appended and the
     * cursor moves to the first page of the next chapter. A failure of the
     * state update leaves the memory as it was.
     */
    method CompleteChapter(c: Narrative.Chapter, content: string) returns (r: Result<map<string, string>>)
      requires Valid() && !Finished(memory) && c == Current(memory) && NextPage(memory) >= Narrative.PagesEstimate(c)
      modifies this`memory, client, semantic
      ensures Valid()
      ensures r.Raise? ==> memory == old(memory)
      ensures r.Ok? ==>
        memory == Advanced(old(memory), Updated(old(memory.cast), r.value, old(memory.cast.names)))
        && (forall n :: n in r.value <==> n in old(memory.cast.names))
      ensures ChapterFiled(semantic, semantic.index, semantic.metadata, old(semantic.index), old(semantic.metadata), book, c)
      ensures old(client.requests) <= client.requests
    {
      ProcessCompletedChapter(c);
      r := UpdateCharacterStates(content);
      if r.Raise? {
        return;
      }
      memory := memory.(chaptersSummary := memory.chaptersSummary + [SummaryOf(c)],
                        progress := Progress(memory.progress.chapterIndex + 1, 0));
    }

    /** `generate_page`'s semantic search query for the next page. */
    function PageQuery(): string
      reads this
      requires !Finished(memory)
    {
      SearchQuery(LastWrittenText(book), Current(memory))
    }

    /** What the semantic search returns for `generate_page`'s query. */
    function PageContext(): Result<string>
      reads this, semantic
      requires !Finished(memory)
    {
      semantic.Search(PageQuery())
    }

    /** The request `generate_page` sends for the next page, given the retrieved context. */
    function PageRequest(context: string): GroqCall.Request
      reads this
      requires !Finished(memory)
    {
      var c := Current(memory);
      GroqCall.Request(SystemPromptOf(builder, memory),
        PageGenerator.FullPrompt(builder, c, ProfilesText(memory.cast, c.characterFocus.GetOr([])), LastWrittenText(book),
                                 context, NextPage(memory), Narrative.PagesEstimate(c), Scene))
    }

    /**
     * The bookkeeping of `generate_page` after an accepted page: the page goes
     * to the manuscript; on the chapter's last page the chapter is completed,
     * otherwise the written-page count moves on.
     */
    method WritePage(c: Narrative.Chapter, content: string) returns (r: Result<()>)
      requires Valid() && !Finished(memory) && c == Current(memory)
      modifies this`memory, this`book, client, semantic
      ensures Valid()
      ensures book == old(book) + PageText(c, NextPage(old(memory)), content)
      ensures r.Raise? ==> memory == old(memory)
      ensures r.Ok? ==> memory == Advanced(old(memory), memory.cast) && memory.cast.names == old(memory.cast.names)
      ensures NextPage(old(memory)) >= Narrative.PagesEstimate(c) ==>
        ChapterFiled(semantic, semantic.index, semantic.metadata, old(semantic.index), old(semantic.metadata), book, c)
      ensures NextPage(old(memory)) < Narrative.PagesEstimate(c) ==>
        semantic.index == old(semantic.index) && semantic.metadata == old(semantic.metadata) && client.requests == old(client.requests)
      ensures old(client.requests) <= client.requests
    {
      var page := NextPage(memory);
      AppendPageToBook(c, page, content);
      if page >= Narrative.PagesEstimate(c) {
        var states := CompleteChapter(c, content);
        if states.Raise? {
          return Raise(states.error);
        }
        UpdatedKeepsCast(old(memory.cast), states.value, old(memory.cast.names));
      } else {
        memory := memory.(progress := Progress(memory.progress.chapterIndex, page));
      }
      return Ok(());
    }

    /**
     * `generate_page`. A finished book is reported without any work. Otherwise
     * the next page of the current chapter is asked for, with the chapter's
     * character profiles, the manuscript's last 1500 characters and the
     * semantic context of those (or of the chapter summary) as its material;
     * a search failure or a chapter of zero pages raises before any request.
     * A rejected answer is returned as it came and changes nothing; an
     * accepted one is written to the manuscript and the progress moves on.
     */
    method GeneratePage() returns (r: Result<(PageStatus, string)>)
      requires Valid()
      modifies this`memory, this`book, client, semantic
      ensures Valid()
      ensures old(book) <= book
      ensures memory == old(memory) || (!Finished(old(memory)) && memory == Advanced(old(memory), memory.cast))
      ensures Finished(old(memory)) ==>
        r == Ok((BookComplete, "")) && memory == old(memory) && book == old(book) && client.requests == old(client.requests)
      ensures !Finished(old(memory)) && old(PageContext()).Raise? ==>
        r == Raise(old(PageContext()).error) && memory == old(memory) && book == old(book)
        && client.requests == old(client.requests)
      ensures !Finished(old(memory)) && old(PageContext()).Ok? && Narrative.PagesEstimate(Current(old(memory))) == 0 ==>
        r == Raise(ZeroDivisionError) && memory == old(memory) && book == old(book) && client.requests == old(client.requests)
      ensures !Finished(old(memory)) && old(PageContext()).Ok? && Narrative.PagesEstimate(Current(old(memory))) != 0 ==>
        var o := GroqCall.Retry(GroqCall.Replies(client, old(client.calls)), client.waitOf, 0);
        var answer := PageGenerator.Gate(o.text);
        var c := Current(old(memory));
        old(client.requests) + GroqCall.Repeat(old(PageRequest(PageContext().value)), o.attempts) <= client.requests
        && (!answer.0 ==> r == Ok((GenerationFailed(o.text), "")) && memory == old(memory) && book == old(book))
        && (answer.0 ==>
              book == old(book) + PageText(c, NextPage(old(memory)), answer.1)
              && (r.Raise? ==> memory == old(memory))
              && (r.Ok? ==> r.value == (PageWritten(NextPage(old(memory)), Narrative.PagesEstimate(c), Narrative.NumberText(c)), answer.1)
                            && memory == Advanced(old(memory), memory.cast)))
    {
      if Finished(memory) {
        return Ok((BookComplete, ""));
      }
      var c := Current(memory);
      var profiles := BuildCharacterProfiles(c.characterFocus.GetOr([]));
      var last := LastWrittenText(book);
      var context := semantic.Search(SearchQuery(last, c));
      if context.Raise? {
        return Raise(context.error);
      }
      r := AnswerPage(profiles, last, context.value);
    }

    /**
     * The rest of `generate_page` once the context is retrieved: the page is
     * asked for, and an accepted answer is written.
     */
    method AnswerPage(profiles: string, last: string, context: string) returns (r: Result<(PageStatus, string)>)
      requires Valid() && !Finished(memory)
      requires profiles == ProfilesText(memory.cast, Current(memory).characterFocus.GetOr([]))
      requires last == LastWrittenText(book)
      modifies this`memory, this`book, client, semantic
      ensures Valid()
      ensures old(book) <= book
      ensures memory == old(memory) || memory == Advanced(old(memory), memory.cast)
      ensures Narrative.PagesEstimate(Current(old(memory))) == 0 ==>
        r == Raise(ZeroDivisionError) && memory == old(memory) && book == old(book) && client.requests == old(client.requests)
      ensures Narrative.PagesEstimate(Current(old(memory))) != 0 ==>
        var o := GroqCall.Retry(GroqCall.Replies(client, old(client.calls)), client.waitOf, 0);
        var answer := PageGenerator.Gate(o.text);
        var c := Current(old(memory));
        old(client.requests) + GroqCall.Repeat(old(PageRequest(context)), o.attempts) <= client.requests
        && (!answer.0 ==> r == Ok((GenerationFailed(o.text), "")) && memory == old(memory) && book == old(book))
        && (answer.0 ==>
              book == old(book) + PageText(c, NextPage(old(memory)), answer.1)
              && (r.Raise? ==> memory == old(memory))
              && (r.Ok? ==> r.value == (PageWritten(NextPage(old(memory)), Narrative.PagesEstimate(c), Narrative.NumberText(c)), answer.1)
                            && memory == Advanced(old(memory), memory.cast)))
    {
      var c := Current(memory);
      var page := NextPage(memory);
      var total := Narrative.PagesEstimate(c);
      var system := SystemPromptOf(builder, memory);
      var generated := pages.Generate(system, c, profiles, last, context, page, total, Scene);
      if generated.Raise? {
        return Raise(generated.error);
      }
      var (success, content) := generated.value;
      if !success {
        return Ok((GenerationFailed(content), ""));
      }
      var written := WritePage(c, content);
      if written.Raise? {
        return Raise(written.error);
      }
      return Ok((PageWritten(page, total, Narrative.NumberText(c)), content));
    }

    /**
     * The call half of `generate_outline`: the outline is asked for with the
     * current memory's system prompt and, when accepted, adopted.
     */
    method AskOutline(premise: string, chapters: int, themes: string, style: string) returns (r: Result<OutlineMessage>)
      requires Valid()
      modifies this`memory, client
      ensures Valid()
      ensures memory.progress == old(memory.progress) && memory.chaptersSummary == old(memory.chaptersSummary)
      ensures memory.metadata == old(memory.metadata)
      ensures
        var o := GroqCall.Retry(GroqCall.Replies(client, old(client.calls)), client.waitOf, 0);
        Asked(old(client.requests), client.requests,
              GroqCall.Request(SystemPromptOf(builder, old(memory)), builder.OutlinePrompt(premise, chapters, themes, style)),
              o.attempts)
        && OutlineAnswered(old(memory), OutlineGenerator.GenerateOutcome(outlines.parse, o.text, chapters), r, memory)
    {
      var system := SystemPromptOf(builder, memory);
      var outcome := outlines.Generate(system, premise, chapters, themes, style);
      var after := Ok(OutlineGenerated);
      if outcome.Ok? && outcome.value.Generated? {
        var d := outcome.value.outline;
        GeneratedOutline(outlines.parse, GroqCall.Retry(GroqCall.Replies(client, old(client.calls)), client.waitOf, 0).text, chapters, d);
        AdoptedOutline(memory, d);
        memory := Adopted(memory, d);
        after := FinishOutline(d);
      }
      r := match outcome
        case Raise(e) => Raise(e)
        case Ok(Generated(_)) => after
        case Ok(x) => Ok(OutlineRejected(x));
    }

    /**
     * `generate_outline` once its inputs are accepted: the premise and the
     * cleaned themes are stored, then the outline is asked for with the
     * metadata's author style; a memory without one raises KeyError.
     */
    method AskWithPremise(premise: string, chapters: int, themes: string) returns (r: Result<OutlineMessage>)
      requires Valid()
      modifies this`memory, client
      ensures Valid()
      ensures memory.progress == old(memory.progress) && memory.chaptersSummary == old(memory.chaptersSummary)
      ensures old(memory).metadata.authorStyle.None? ==>
        r == Raise(KeyError) && memory == WithPremise(old(memory), premise, themes) && client.requests == old(client.requests)
      ensures old(memory).metadata.authorStyle.Some? ==>
        var m1 := WithPremise(old(memory), premise, themes);
        var o := GroqCall.Retry(GroqCall.Replies(client, old(client.calls)), client.waitOf, 0);
        Asked(old(client.requests), client.requests,
              GroqCall.Request(SystemPromptOf(builder, m1),
                               builder.OutlinePrompt(premise, chapters, themes, old(memory).metadata.authorStyle.value)),
              o.attempts)
        && OutlineAnswered(m1, OutlineGenerator.GenerateOutcome(outlines.parse, o.text, chapters), r, memory)
    {
      var cleaned := InputValidator.SanitizeThemes(themes);
      memory := memory.(plot := memory.plot.(premise := Some(premise), themes := Some(cleaned)));
      if memory.metadata.authorStyle.None? {
        return Raise(KeyError);
      }
      r := AskOutline(premise, chapters, themes, memory.metadata.authorStyle.value);
    }

    /**
     * `generate_outline`. Refused inputs are reported, in the order premise,
     * chapter count, themes, and change nothing. Otherwise the premise and the
     * cleaned themes are stored, the outline is asked for with the metadata's
     * author style (a memory without one raises KeyError) and, when the
     * generator accepts it, the outline's characters and plot replace the
     * memory's (`AdoptedChapters` says what that memory holds); the structure
   * check and the summary that follow may still raise (`AfterAdoption`). The
     * state-filling loop that follows finds every character already filled
     * (`BookMemory.GeneratedOutline`), so it changes nothing.
     */
    method GenerateOutline(premise: string, chapters: int, themes: string) returns (r: Result<OutlineMessage>)
      requires Valid()
      modifies this`memory, client
      ensures Valid()
      ensures memory.progress == old(memory.progress) && memory.chaptersSummary == old(memory.chaptersSummary)
      ensures InputProblem(premise, chapters, themes).Some? ==>
        r == Ok(InvalidInput(InputProblem(premise, chapters, themes).value)) && memory == old(memory)
        && client.requests == old(client.requests)
      ensures InputProblem(premise, chapters, themes).None? && old(memory).metadata.authorStyle.None? ==>
        r == Raise(KeyError) && memory == WithPremise(old(memory), premise, themes) && client.requests == old(client.requests)
      ensures InputProblem(premise, chapters, themes).None? && old(memory).metadata.authorStyle.Some? ==>
        var m1 := WithPremise(old(memory), premise, themes);
        var o := GroqCall.Retry(GroqCall.Replies(client, old(client.calls)), client.waitOf, 0);
        Asked(old(client.requests), client.requests,
              GroqCall.Request(SystemPromptOf(builder, m1),
                               builder.OutlinePrompt(premise, chapters, themes, old(memory).metadata.authorStyle.value)),
              o.attempts)
        && OutlineAnswered(m1, OutlineGenerator.GenerateOutcome(outlines.parse, o.text, chapters), r, memory)
    {
      var problem := InputProblem(premise, chapters, themes);
      if problem.Some? {
        return Ok(InvalidInput(problem.value));
      }
      r := AskWithPremise(premise, chapters, themes);
    }

    /**
     * One page of `write_full_book`: `generate_page`, seen through what the
     * loop relies on. The manuscript only grows, the outline and the metadata
     * stay, the cursor never moves back and the summaries keep recording the
     * finished chapters; a finished book is left alone.
     */
    method WritingStep() returns (r: Result<(PageStatus, string)>)
      requires Valid()
      modifies this`memory, this`book, client, semantic
      ensures Valid()
      ensures old(book) <= book
      ensures memory.plot == old(memory.plot) && memory.metadata == old(memory.metadata)
      ensures NotBefore(memory.progress, old(memory.progress))
      ensures Chronicle(old(memory)) ==> Chronicle(memory)
      ensures Finished(old(memory)) ==> r == Ok((BookComplete, "")) && memory == old(memory) && book == old(book)
    {
      r := GeneratePage();
      if memory != old(memory) {
        AdvanceMovesForward(old(memory), memory.cast);
        if Chronicle(old(memory)) {
          AdvanceKeepsChronicle(old(memory), memory.cast);
        }
      }
    }

    /**
     * The body of `write_full_book`'s loop: one page is asked for; a raised
     * error ends the process, a status holding "Error" ends it with one last
     * item at the current ratio, and any other page is reported with the
     * status taken before it at the ratio of one more written page. Both
     * ratios divide by the page total, so a zero total raises once the page
     * is back.
     */
    method PageStep(status: Status, written: int, total: int) returns (s: Step)
      requires Valid()
      requires status == GetStatus(memory, semantic.available) && total == SumPages(memory.plot.outline)
      modifies this`memory, this`book, client, semantic
      ensures Valid()
      ensures old(book) <= book
      ensures memory.plot == old(memory.plot) && memory.metadata == old(memory.metadata)
      ensures NotBefore(memory.progress, old(memory.progress))
      ensures Chronicle(old(memory)) ==> Chronicle(memory)
      ensures s.Wrote? ==>
        total != 0 && s.item.message.Writing? && s.item == Progressed(Ratio(written + 1, total), WritingMessage(status))
      ensures s.Stopped? && s.r.Ok? ==>
        total != 0 && |s.tail| == 1 && s.tail[0].message.Failed? && s.tail[0].ratio == Ratio(written, total)
      ensures s.Stopped? && s.r.Raise? ==> s.tail == []
      ensures total == 0 ==> s.Stopped? && s.r.Raise?
      ensures Finished(old(memory)) && total == 0 ==> s == Stopped(Raise(ZeroDivisionError), [])
    {
      var page := WritingStep();
      if page.Raise? {
        return Stopped(Raise(page.error), []);
      }
      if total == 0 {
        return Stopped(Raise(ZeroDivisionError), []);
      }
      if ReportsError(page.value.0) {
        return Stopped(Ok(()), [Progressed(Ratio(written, total), Failed(page.value.0.response))]);
      }
      s := Wrote(Progressed(Ratio(written + 1, total), WritingMessage(status)));
    }

    /**
     * `write_full_book`, the generator, as the list of items a consumer
     * draws from it within `limit` pages. The page total and the pages
     * already written are counted once at the start; each page is asked for
     * with `generate_page`; a page whose status holds "Error" ends the
     * process with its message; every other page counts as written and is
     * reported with the status taken before it, at the new ratio, and
     * followed by a pause. A completed book ends with ratio 1.0. Without an
     * outline the status never completes and the first ratio divides by a
     * zero total.
     */
    method WriteFullBook(limit: nat) returns (reports: seq<Progressed>, r: Result<()>)
      requires Valid()
      modifies this`memory, this`book, this`pauses, client, semantic
      ensures Valid()
      ensures old(book) <= book && old(pauses) <= pauses
      ensures memory.plot == old(memory.plot) && memory.metadata == old(memory.metadata)
      ensures NotBefore(memory.progress, old(memory.progress))
      ensures Chronicle(old(memory)) ==> Chronicle(memory)
      ensures |reports| <= limit + 1
      ensures Completed(GetStatus(old(memory), semantic.available)) ==>
        reports == [Progressed(1.0, Done)] && r == Ok(()) && memory == old(memory) && book == old(book)
      ensures old(memory).plot.outline == [] && limit > 0 ==> r == Raise(ZeroDivisionError) && reports == []
      ensures reports != [] ==> Reported(reports[..|reports| - 1], InitialCount(old(memory)), SumPages(old(memory).plot.outline))
      ensures reports != [] && reports[|reports| - 1].message.Writing? ==>
        Reported(reports, InitialCount(old(memory)), SumPages(old(memory).plot.outline))
      ensures reports != [] && reports[|reports| - 1].message.Failed? ==>
        SumPages(old(memory).plot.outline) != 0
        && reports[|reports| - 1].ratio == Ratio(InitialCount(old(memory)) + |reports| - 1, SumPages(old(memory).plot.outline))
      ensures reports != [] && reports[|reports| - 1].message.Done? ==> r == Ok(()) && Finished(memory)
      ensures r.Ok? && (reports == [] || reports[|reports| - 1].message.Writing?) ==>
        |reports| == limit && !Completed(GetStatus(memory, semantic.available))
    {
      var total := SumPages(memory.plot.outline);
      var written := InitialCount(memory);
      reports := [];
      var stopped := false;
      var tail: seq<Progressed> := [];
      var stop: Result<()> := Ok(());
      while !stopped && !Completed(GetStatus(memory, semantic.available)) && |reports| < limit
        invariant Valid()
        invariant |reports| <= limit
        invariant old(book) <= book && old(pauses) <= pauses
        invariant memory.plot == old(memory.plot) && memory.metadata == old(memory.metadata)
        invariant NotBefore(memory.progress, old(memory.progress))
        invariant Chronicle(old(memory)) ==> Chronicle(memory)
        invariant written == InitialCount(old(memory)) + |reports|
        invariant total == SumPages(old(memory).plot.outline)
        invariant Reported(reports, InitialCount(old(memory)), total)
        invariant !stopped && reports == [] ==> memory == old(memory) && book == old(book)
        invariant Completed(GetStatus(old(memory), semantic.available)) ==> reports == [] && !stopped
        invariant total == 0 ==> reports == []
        invariant stopped && stop.Ok? ==>
          total != 0 && |tail| == 1 && tail[0].message.Failed? && tail[0].ratio == Ratio(written, total)
        invariant stopped && stop.Raise? ==> tail == []
        invariant stopped && old(memory).plot.outline == [] ==> stop == Raise(ZeroDivisionError)
        decreases limit - |reports|, if stopped then 0 else 1
      {
        var status := GetStatus(memory, semantic.available);
        ghost var before := memory;
        var step := PageStep(status, written, total);
        NotBeforeTransitive(old(memory.progress), before.progress, memory.progress);
        if step.Stopped? {
          stopped, tail, stop := true, step.tail, step.r;
        } else {
          ReportedSnoc(reports, InitialCount(old(memory)), total, step.item);
          written := written + 1;
          reports := reports + [step.item];
          pauses := pauses + 1;
        }
      }
      if stopped {
        StoppedReports(reports, tail, InitialCount(old(memory)), total, stop);
        return reports + tail, stop;
      }
      if Completed(GetStatus(memory, semantic.available)) {
        CompletedIff(memory, semantic.available);
        assert (reports + [Progressed(1.0, Done)])[..|reports|] == reports;
        reports := reports + [Progressed(1.0, Done)];
      }
      r := Ok(());
    }
  }
}
