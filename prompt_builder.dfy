/**
 * The prompt builder: turns the active style configuration into the
 * system prompt, the outline prompt, the page prompt and the
 * character-update prompt. Its fields are fixed once built; the section
 * builders accumulate text in loops, and each is proved equal to a
 * specification function.
 *
 * The fixed wording of the prompts is not modelled: each passage is a named
 * constant without its text, and the model states where the variable parts
 * (numbers, lists, context, defaults) go and which sections are chosen.
 */
module PromptBuilder {
  import opened Wrappers
  import Text
  import opened StyleProfiles
  import Narrative
  import SemanticMemory

  // ---------------------------------------------------------------- lists as lines

  /** `for item in items: s += f"{before}{item}{after}"`, item by item in list order. */
  function Bulleted(before: string, items: seq<string>, after: string): string
    decreases |items|
  {
    if items == [] then ""
    else Bulleted(before, items[..|items| - 1], after) + before + items[|items| - 1] + after
  }

  /** Splitting the list splits the text: the items are listed in order, each once. */
  lemma {:induction false} BulletedAppend(before: string, xs: seq<string>, ys: seq<string>, after: string)
    ensures Bulleted(before, xs + ys, after) == Bulleted(before, xs, after) + Bulleted(before, ys, after)
    decreases |ys|
  {
    if ys == [] {
      assert xs + ys == xs;
    } else {
      var init := ys[..|ys| - 1];
      var last := ys[|ys| - 1];
      assert (xs + ys)[..|xs + ys| - 1] == xs + init;
      assert (xs + ys)[|xs + ys| - 1] == last;
      BulletedAppend(before, xs, init, after);
      LineAssoc(Bulleted(before, xs, after), Bulleted(before, init, after), before, last, after);
    }
  }

  /** Appending one line after two texts. */
  lemma LineAssoc(a: string, b: string, before: string, item: string, after: string)
    ensures (a + b) + before + item + after == a + (b + before + item + after)
  {
  }

  /** One line of `enumerate(items, 1)`: `f"{indent}{i}. {item}\n"`. */
  function NumberedLine(indent: string, i: int, item: string): string {
    indent + Text.IntToString(i) + ". " + item + "\n"
  }

  /** The lines of `enumerate(items, 1)`: the item at position k carries the number k + 1. */
  function Numbered(indent: string, items: seq<string>): string
    decreases |items|
  {
    if items == [] then ""
    else Numbered(indent, items[..|items| - 1]) + NumberedLine(indent, |items|, items[|items| - 1])
  }

  /** The numbering starts at 1: the text opens with the first item's line, numbered 1. */
  lemma {:induction false} NumberedStartsAtOne(indent: string, items: seq<string>)
    requires items != []
    ensures Text.StartsWith(Numbered(indent, items), NumberedLine(indent, 1, items[0]))
    decreases |items|
  {
    if |items| > 1 {
      var init := items[..|items| - 1];
      NumberedStartsAtOne(indent, init);
      assert init[0] == items[0];
      var p := NumberedLine(indent, 1, items[0]);
      var a := Numbered(indent, init);
      var b := NumberedLine(indent, |items|, items[|items| - 1]);
      assert (a + b)[..|p|] == a[..|p|];
    } else {
      assert items[..0] == [];
    }
  }

  /** The loop that renders a bulleted list. */
  method BulletList(before: string, items: seq<string>, after: string) returns (s: string)
    ensures s == Bulleted(before, items, after)
  {
    s := "";
    for i := 0 to |items|
      invariant s == Bulleted(before, items[..i], after)
    {
      assert items[..i + 1][..i] == items[..i];
      s := s + before + items[i] + after;
    }
    assert items[..|items|] == items;
  }

  /** The loop over `enumerate(items, 1)`. */
  method NumberedList(indent: string, items: seq<string>) returns (s: string)
    ensures s == Numbered(indent, items)
  {
    s := "";
    for i := 0 to |items|
      invariant s == Numbered(indent, items[..i])
    {
      assert items[..i + 1][..i] == items[..i];
      s := s + NumberedLine(indent, i + 1, items[i]);
    }
    assert items[..|items|] == items;
  }

  // ---------------------------------------------------------------- fixed wording

  /** Headers and captions of the sections (prompt_builder.py lines 214, 221, 226, 243, 256, 266, 277, 333, 338, 346, 354, 369). */
  const ContextHeader: string
  const AnchorCaption: string
  const ChapterStart: string
  const StyleHeader: string
  const CharacteristicsCaption: string
  const SpecialHeader: string
  const AvoidHeader: string
  const WritingHeader: string
  const ProseCaption: string
  const DescriptionCaption: string
  const DialogueCaption: string
  const ExamplesHeader: string

  /** The wording around the values of the system prompt (lines 48-55). */
  const IntroLead: string
  const IntroTitle: string
  const IntroPremise: string
  const IntroThemes: string

  /** The wording around the values of the page prompt's opening block (lines 197-210). */
  const PageLead: string
  const ChapterLead: string
  const SummaryCaption: string
  const KeyEventsCaption: string
  const CharactersCaption: string
  const NoCharactersInFocus: string

  /** The sentence for a chapter without key events (line 401). */
  const NoKeyEvents: string

  /** The wording of the outline prompt (lines 99-112), its instruction header (line 288) and the required JSON structure (lines 118-167). */
  const OutlineLead: string
  const OutlinePremise: string
  const OutlineThemes: string
  const OutlineStyle: string
  const OutlineDensity: string
  const OutlineDepth: string
  const OutlineInstructionsHeader: string
  const OutlineJsonStructure: string

  /** The wording of the character-update prompt before the excerpt (lines 426-428), before the names (lines 431-432) and after them (lines 434-451). */
  const CharacterUpdateHead: string
  const CharacterUpdateNames: string
  const CharacterUpdateTail: string

  // ---------------------------------------------------------------- key events

  /** `_format_key_events`: a fixed sentence for no events, otherwise the numbered lines, stripped. */
  function KeyEventsText(events: seq<string>): string {
    if events == [] then NoKeyEvents else Text.Strip(Numbered("  ", events))
  }

  /** With at least one event the stripped text starts with the number 1 (the indent is gone). */
  lemma KeyEventsStartAtOne(events: seq<string>)
    requires events != []
    ensures Text.StartsWith(KeyEventsText(events), "1.")
  {
    var t := Numbered("  ", events);
    NumberedStartsAtOne("  ", events);
    assert Text.IntToString(1) == "1";
    assert t[0] == ' ' && t[1] == ' ' && t[2] == '1' && t[3] == '.';
    assert Text.IsBlank(t[..2]) by {
      assert forall i :: 0 <= i < 2 ==> t[..2][i] == t[i];
    }
    assert t[2..4] == "1.";
    Text.StripStartsWith(t, 2, "1.");
  }

  /** The loop of `_format_key_events`. */
  method FormatKeyEvents(events: seq<string>) returns (r: string)
    ensures r == KeyEventsText(events)
  {
    if events == [] {
      return NoKeyEvents;
    }
    var formatted := NumberedList("  ", events);
    r := Text.Strip(formatted);
  }

  // ---------------------------------------------------------------- style section

  /** An entry of the style section around its rendered characteristics. */
  function EntryWith(dimension: string, info: LevelInfo, characteristics: string): string {
    "- **" + Text.Title(Text.Replace(dimension, "_", " ")) + ":** " + info.name + "\n"
    + "  " + info.description + "\n" + CharacteristicsCaption + characteristics + "\n"
  }

  /** The entry for a catalogue level: the dimension key in title case, the level's name and description, and its first three characteristics. */
  function EntryText(dimension: string, info: LevelInfo): string {
    EntryWith(dimension, info, Bulleted("    • ", Text.Prefix(info.characteristics, 3), "\n"))
  }

  /** The text one `dimension: level` entry contributes: nothing unless the pair is in the catalogue. */
  function StyleEntry(s: Setting): (r: string)
    ensures r != "" <==> IsLevel(s.dimension, s.level)
  {
    match GetDimensionInfo(s.dimension, s.level)
    case None => ""
    case Some(info) => EntryText(s.dimension, info)
  }

  /** One iteration of `_build_style_section`'s loop. */
  method BuildStyleEntry(s: Setting) returns (entry: string)
    ensures entry == StyleEntry(s)
  {
    var info := GetDimensionInfo(s.dimension, s.level);
    entry := "";
    if info.Some? {
      var bullets := BulletList("    • ", Text.Prefix(info.value.characteristics, 3), "\n");
      entry := EntryWith(s.dimension, info.value, bullets);
    }
  }

  /** The entries of all settings, in dict order. */
  function StyleEntries(settings: seq<Setting>): string
    decreases |settings|
  {
    if settings == [] then ""
    else StyleEntries(settings[..|settings| - 1]) + StyleEntry(settings[|settings| - 1])
  }

  /** The entries of a longer prefix add the next setting's entry. */
  lemma StyleEntriesStep(settings: seq<Setting>, i: nat)
    requires i < |settings|
    ensures StyleEntries(settings[..i + 1]) == StyleEntries(settings[..i]) + StyleEntry(settings[i])
  {
    assert settings[..i + 1][..i] == settings[..i];
    assert settings[..i + 1][i] == settings[i];
  }

  /** An entry lists the first min(3, n) characteristics of that level of the catalogue, and no others. */
  lemma StyleEntryShape(s: Setting)
    requires IsLevel(s.dimension, s.level)
    ensures FindLevel(s.dimension, s.level).Some?
    ensures var info := Info(FindLevel(s.dimension, s.level).value);
      var shown := Text.Prefix(info.characteristics, 3);
      StyleEntry(s) == EntryWith(s.dimension, info, Bulleted("    • ", shown, "\n")) &&
      |shown| <= 3 && shown == info.characteristics[..|shown|] &&
      (|info.characteristics| >= 3 ==> |shown| == 3)
  {
  }

  /** No setting in the list names a catalogue level. */
  predicate NoLevels(settings: seq<Setting>) {
    forall k :: 0 <= k < |settings| ==> !IsLevel(settings[k].dimension, settings[k].level)
  }

  lemma NoLevelsSnoc(settings: seq<Setting>)
    requires settings != []
    ensures NoLevels(settings) <==> NoLevels(settings[..|settings| - 1]) && !IsLevel(settings[|settings| - 1].dimension, settings[|settings| - 1].level)
  {
    var init := settings[..|settings| - 1];
    assert forall k :: 0 <= k < |init| ==> init[k] == settings[k];
  }

  /** The section has no entries exactly when no setting names a catalogue level. */
  lemma {:induction false} StyleEntriesEmpty(settings: seq<Setting>)
    ensures StyleEntries(settings) == "" <==> NoLevels(settings)
    decreases |settings|
  {
    if settings != [] {
      var init := settings[..|settings| - 1];
      var last := settings[|settings| - 1];
      StyleEntriesEmpty(init);
      NoLevelsSnoc(settings);
      var a := StyleEntries(init);
      var b := StyleEntry(last);
      assert StyleEntries(settings) == a + b;
      assert |a + b| == |a| + |b|;
    }
  }

  // ---------------------------------------------------------------- notes and lengths

  /** The position note of `_build_page_writing_instructions`. */
  datatype Note = FirstPage | LastPage | NearEnd | NoNote

  /** Which note a page gets: the first page, the last page, past 70% of the chapter (as Python's float test decides it), or none. */
  function PageNote(page: int, total: int): Note {
    if page == 1 then FirstPage
    else if page == total then LastPage
    else if PastSeventy(page, total) then NearEnd
    else NoNote
  }

  /** `n` is a power of two. */
  predicate IsPowerOfTwo(n: nat)
    decreases n
  {
    n == 1 || (n > 1 && n % 2 == 0 && IsPowerOfTwo(n / 2))
  }

  /** The largest power of two not above `m`. */
  function Pow2Floor(m: nat): (p: nat)
    requires m >= 1
    ensures IsPowerOfTwo(p) && p <= m < 2 * p
    decreases m
  {
    if m < 2 then 1 else 2 * Pow2Floor(m / 2)
  }

  /**
   * Whether the binary64 product `total * 0.7` lands just below the integer
   * 0.7·total. The double nearest 0.7 is 0.7 - 0.2·2^-52, so for a total 10k
   * the exact product is m - (2/7)·m·2^-52 with m = 7k; with 2^e <= m < 2^(e+1)
   * the doubles below m are 2^(e-52) apart, and round-to-nearest-even gives
   * the double below m exactly when 4m > 7·2^e (at equality the tie goes to m,
   * whose last mantissa bit is 0). A negative product rounds towards zero,
   * that is up, so it never falls below.
   */
  predicate SeventyRoundsDown(total: int) {
    total > 0 && total % 10 == 0 && 4 * (total / 10 * 7) > 7 * Pow2Floor(total / 10 * 7)
  }

  /**
   * `page > total * 0.7` in double precision for an integer page and total:
   * away from the integers the product is off by far less than the 0.1 that
   * separates 0.7·total from the nearest integer, so the test is the exact
   * one unless 0.7·total is an integer whose product rounds down.
   */
  predicate PastSeventy(page: int, total: int) {
    10 * page > 7 * total || (10 * page == 7 * total && SeventyRoundsDown(total))
  }

  /** Page 1 always gets the first-page note, even when it is also the last page; a page strictly inside the chapter gets the near-end note iff it lies past 70% of it, by the float test. */
  lemma PageNoteCases(page: int, total: int)
    ensures page == 1 ==> PageNote(page, total) == FirstPage
    ensures page != 1 && page == total ==> PageNote(page, total) == LastPage
    ensures 1 < page < total ==> (PageNote(page, total) == NearEnd <==> PastSeventy(page, total))
    ensures 1 < page < total ==> (PageNote(page, total) == NoNote <==> !PastSeventy(page, total))
    ensures PageNote(page, total) == NearEnd ==> page != 1 && page != total
  {
  }

  /** The float test is the exact `10·page > 7·total` except at 0.7·total itself, when the product rounds down. */
  lemma PastSeventyNearExact(page: int, total: int)
    ensures 10 * page > 7 * total ==> PastSeventy(page, total)
    ensures PastSeventy(page, total) ==> 10 * page >= 7 * total
    ensures (total <= 0 || total % 10 != 0) ==> (PastSeventy(page, total) <==> 10 * page > 7 * total)
  {
  }

  /** Pages 63 of 90, 119 of 170 and 126 of 180 get the near-end note: 0.7 times the total rounds down below the page. */
  lemma SeventyNearEndExamples()
    ensures PageNote(63, 90) == NearEnd && PageNote(119, 170) == NearEnd && PageNote(126, 180) == NearEnd
  {
    assert Pow2Floor(63) == 32;
    assert Pow2Floor(119) == 64 && Pow2Floor(126) == 64;
  }

  /** Page 70 of 100 and page 7 of 10 get no note: 0.7 times the total rounds to the page itself. */
  lemma SeventyNoNoteExamples()
    ensures PageNote(70, 100) == NoNote && PageNote(7, 10) == NoNote
  {
    assert Pow2Floor(70) == 64 && Pow2Floor(7) == 4;
  }

  /** Doubling m doubles the power of two below it. */
  lemma {:induction false} Pow2FloorDouble(m: nat)
    requires m >= 1
    ensures Pow2Floor(2 * m) == 2 * Pow2Floor(m)
  {
    assert (2 * m) / 2 == m;
  }

  /** Doubling a total that rounds down gives another that does: 90, 180, 360, ... all get the note at 70%. */
  lemma SeventyRoundsDownDouble(total: int)
    requires SeventyRoundsDown(total)
    ensures SeventyRoundsDown(2 * total)
  {
    var m := total / 10 * 7;
    assert (2 * total) / 10 * 7 == 2 * m;
    Pow2FloorDouble(m);
  }

  /** The wording of the three notes (lines 361, 363 and 365). */
  const FirstPageNote: string
  const LastPageNote: string
  const NearEndNote: string

  function NoteText(note: Note): string {
    match note
    case FirstPage => FirstPageNote
    case LastPage => LastPageNote
    case NearEnd => NearEndNote
    case NoNote => ""
  }

  /** The word band of `_build_length_instruction`, by narrative density. */
  function LengthBand(density: string): (int, int) {
    if density == "fast_paced" then (350, 450)
    else if density == "contemplative" || density == "epic" then (500, 650)
    else (400, 550)
  }

  /** The three bands are the only ones, each a proper range, and every density outside the catalogue gets the balanced one. */
  lemma LengthBandCases(density: string)
    ensures LengthBand(density) in {(350, 450), (500, 650), (400, 550)}
    ensures LengthBand(density).0 < LengthBand(density).1
    ensures !IsLevel("narrative_density", density) ==> LengthBand(density) == LengthBand("balanced")
    ensures LengthBand("fast_paced").1 < LengthBand("balanced").1 < LengthBand("contemplative").1 == LengthBand("epic").1
  {
  }

  /** The wording around the two numbers of the length instruction (lines 388-396). */
  const LengthLead: string
  const LengthMiddle: string
  const LengthTail: string

  /** `_build_length_instruction`'s text: the lower and the upper bound of the band, in that order. */
  function LengthInstructionText(band: (int, int)): string {
    LengthLead + Text.IntToString(band.0) + LengthMiddle + Text.IntToString(band.1) + LengthTail
  }

  // ---------------------------------------------------------------- outline instructions

  /** The wording of the outline instruction lines (lines 292-322), one constant per branch. */
  const FastPacedLines: string
  const ContemplativeLines: string
  const EpicLines: string
  const BalancedLines: string
  const PhilosophicalLines: string
  const DeconstructiveLines: string
  const EntertainmentLines: string

  /** The lines for a narrative density; anything not fast_paced, contemplative or epic gets the balanced lines. */
  function DensityLines(density: string): string {
    if density == "fast_paced" then FastPacedLines
    else if density == "contemplative" then ContemplativeLines
    else if density == "epic" then EpicLines
    else BalancedLines
  }

  /** The lines for a thematic depth; none for layered or any other value. */
  function ThematicLines(depth: string): string {
    if depth == "philosophical" then PhilosophicalLines
    else if depth == "deconstructive" then DeconstructiveLines
    else if depth == "entertainment" then EntertainmentLines
    else ""
  }

  /** `_build_outline_instructions`: the header, the density lines, a blank line, the depth lines, a final newline. */
  function OutlineInstructions(density: string, depth: string): string {
    OutlineInstructionsHeader + DensityLines(density) + "\n" + ThematicLines(depth) + "\n"
  }

  /** Unknown densities fall back to the balanced lines, and unknown depths (layered among them) add no lines. */
  lemma OutlineInstructionsFallback(density: string, depth: string)
    ensures density !in {"fast_paced", "contemplative", "epic"} ==>
      OutlineInstructions(density, depth) == OutlineInstructions("balanced", depth)
    ensures depth !in {"philosophical", "deconstructive", "entertainment"} ==>
      OutlineInstructions(density, depth) == OutlineInstructionsHeader + DensityLines(density) + "\n\n"
  {
    if depth !in {"philosophical", "deconstructive", "entertainment"} {
      assert ThematicLines(depth) == "";
      assert OutlineInstructionsHeader + DensityLines(density) + "\n" + "" + "\n"
        == OutlineInstructionsHeader + DensityLines(density) + "\n\n";
    }
  }

  // ---------------------------------------------------------------- page prompt pieces

  /** The text `search_relevant_context` returns when it has nothing to offer; line 213 compares with the same literal. */
  const ContextPlaceholder := SemanticMemory.NoContext

  /** Relevant context is shown when there is some and it is not the placeholder. */
  predicate HasContext(context: string) {
    context != "" && context != ContextPlaceholder
  }

  function ContextSection(context: string): string {
    if HasContext(context) then ContextHeader + context + "\n\n" else ""
  }

  /** The continuation anchor: the last text after "...", or the chapter-start marker. */
  function Anchor(lastText: string): string {
    if lastText != "" then AnchorCaption + "..." + lastText + "\n\n" else ChapterStart
  }

  /** The opening of the page prompt: position, chapter heading, summary, the key events as given, and the characters in scene. */
  function PageHeaderWith(chapter: Narrative.Chapter, profiles: string, page: int, total: int, events: string): string {
    PageLead + Text.IntToString(page) + " de " + Text.IntToString(total)
    + ChapterLead + Narrative.NumberText(chapter) + ": \"" + Narrative.TitleText(chapter) + "\"**\n\n"
    + SummaryCaption + chapter.summary.GetOr("No especificado") + "\n\n"
    + KeyEventsCaption + events + "\n\n"
    + CharactersCaption + (if profiles != "" then profiles else NoCharactersInFocus) + "\n\n"
  }

  function PageHeader(chapter: Narrative.Chapter, profiles: string, page: int, total: int): string {
    PageHeaderWith(chapter, profiles, page, total, KeyEventsText(chapter.keyEvents.GetOr([])))
  }

  /** The page prompt after its opening block: the context section when there is context, the anchor, then the instructions. */
  function PagePromptFrom(header: string, context: string, lastText: string, instructions: string): string {
    header + ContextSection(context) + Anchor(lastText) + instructions
  }

  /** A writing-instruction block around its rendered characteristics. */
  function InfoWith(caption: string, info: LevelInfo, characteristics: string): string {
    caption + info.name + "\n" + characteristics + "\n"
  }

  /** `info.get('name')` and its first `limit` characteristics under a caption, when the level is in the catalogue. */
  function InfoBlock(caption: string, info: Option<LevelInfo>, limit: nat): string {
    match info
    case None => ""
    case Some(i) => InfoWith(caption, i, Bulleted("  • ", Text.Prefix(i.characteristics, limit), "\n"))
  }

  method BuildInfoBlock(caption: string, info: Option<LevelInfo>, limit: nat) returns (s: string)
    ensures s == InfoBlock(caption, info, limit)
  {
    match info
    case None => s := "";
    case Some(i) =>
      var bullets := BulletList("  • ", Text.Prefix(i.characteristics, limit), "\n");
      s := InfoWith(caption, i, bullets);
  }

  /** At most two style examples, each followed by a blank line, under a header; nothing without examples. */
  function ExamplesBlock(examples: seq<string>): string {
    if examples == [] then "" else ExamplesHeader + Bulleted("", Text.Prefix(examples, 2), "\n\n")
  }

  // ---------------------------------------------------------------- character-update and system prompts

  /** `build_character_update_prompt`: the last 2000 characters of the chapter, then the names joined by ", ". */
  function CharacterUpdatePrompt(content: string, names: seq<string>): (r: string)
    ensures var excerpt := Text.TakeLast(content, 2000);
      |excerpt| == (if |content| < 2000 then |content| else 2000) &&
      excerpt == content[|content| - |excerpt|..] &&
      |CharacterUpdateHead| + |excerpt| <= |r| &&
      r[|CharacterUpdateHead|..|CharacterUpdateHead| + |excerpt|] == excerpt
  {
    var excerpt := Text.TakeLast(content, 2000);
    var rest := CharacterUpdateNames + Text.Join(", ", names) + CharacterUpdateTail;
    var r := CharacterUpdateHead + excerpt + rest;
    assert r[|CharacterUpdateHead|..|CharacterUpdateHead| + |excerpt|] == excerpt;
    r
  }

  /** `', '.join(themes) if themes else 'A desarrollar'`. */
  function ThemesText(themes: seq<string>): string {
    if themes != [] then Text.Join(", ", themes) else "A desarrollar"
  }

  /** The opening of the system prompt: author style, title, premise and themes. */
  function SystemIntro(authorStyle: string, title: string, premise: string, themes: seq<string>): string {
    IntroLead + authorStyle + IntroTitle + title + IntroPremise + premise + IntroThemes + ThemesText(themes) + "\n\n"
  }

  /** `_build_special_instructions_section`: the instructions numbered from 1, one per line, then a blank line. */
  function SpecialSection(instructions: seq<string>): string {
    SpecialHeader + Numbered("", instructions) + "\n"
  }

  /** `_build_avoid_section`: one "- ❌" line per item, then a blank line. */
  function AvoidSection(avoid: seq<string>): string {
    AvoidHeader + Bulleted("- ❌ ", avoid, "\n") + "\n"
  }

  /** The system prompt after its intro and style section: the special and avoid sections, each only for a non-empty list. */
  function SystemPromptFrom(intro: string, style: string, special: seq<string>, avoid: seq<string>): string {
    intro + style + (if special != [] then SpecialSection(special) else "") + (if avoid != [] then AvoidSection(avoid) else "")
  }

  // ---------------------------------------------------------------- the builder

  class PromptBuilder {
    const styleConfig: ProfileConfig
    const dimensions: seq<Setting>
    const specialInstructions: seq<string>
    const avoidList: seq<string>
    const examples: seq<string>

    /** `__init__`: each list read with `.get`, missing keys giving an empty dict or list. */
    constructor(styleConfig: ProfileConfig)
      ensures this.styleConfig == styleConfig
      ensures dimensions == styleConfig.dimensions.GetOr([])
      ensures specialInstructions == styleConfig.specialInstructions.GetOr([])
      ensures avoidList == styleConfig.avoid.GetOr([])
      ensures examples == styleConfig.examples.GetOr([])
    {
      this.styleConfig := styleConfig;
      dimensions := styleConfig.dimensions.GetOr([]);
      specialInstructions := styleConfig.specialInstructions.GetOr([]);
      avoidList := styleConfig.avoid.GetOr([]);
      examples := styleConfig.examples.GetOr([]);
    }

    /** `self.dimensions.get(dimension, default)`. */
    function Level(dimension: string, default: string): string {
      LevelOf(dimensions, dimension).GetOr(default)
    }

    /** `_build_style_section`. */
    function StyleSection(): string {
      StyleHeader + StyleEntries(dimensions)
    }

    /** `build_system_prompt`. */
    function SystemPrompt(authorStyle: string, title: string, premise: string, themes: seq<string>): string {
      SystemPromptFrom(SystemIntro(authorStyle, title, premise, themes), StyleSection(), specialInstructions, avoidList)
    }

    /** The three catalogue blocks of the writing instructions (defaults moderate, selective and natural). */
    function WritingBlocks(): string {
      InfoBlock(ProseCaption, GetDimensionInfo("prose_complexity", Level("prose_complexity", "moderate")), 3)
      + InfoBlock(DescriptionCaption, GetDimensionInfo("description_level", Level("description_level", "selective")), 3)
      + InfoBlock(DialogueCaption, GetDimensionInfo("dialogue_style", Level("dialogue_style", "natural")), 2)
    }

    /** `_build_page_writing_instructions`: the catalogue blocks, the position note, and the examples. */
    function PageWritingInstructions(page: int, total: int): string {
      WritingHeader + WritingBlocks() + NoteText(PageNote(page, total)) + ExamplesBlock(examples)
    }

    /** `_build_length_instruction`: the band of the configured narrative density (balanced by default). */
    function LengthInstruction(): string {
      LengthInstructionText(LengthBand(Level("narrative_density", "balanced")))
    }

    /** `build_page_prompt`. */
    function PagePrompt(chapter: Narrative.Chapter, profiles: string, lastText: string, context: string, page: int, total: int): string {
      PagePromptFrom(PageHeader(chapter, profiles, page, total), context, lastText,
                     PageWritingInstructions(page, total) + LengthInstruction())
    }

    /** `build_outline_prompt`: premise, themes, style and the configured density and depth (balanced and layered by default). */
    function OutlinePrompt(premise: string, chapters: int, themes: string, authorStyle: string): string {
      var density := Level("narrative_density", "balanced");
      var depth := Level("thematic_depth", "layered");
      var densityInfo := GetDimensionInfo("narrative_density", density);
      var depthInfo := GetDimensionInfo("thematic_depth", depth);
      OutlineLead + Text.IntToString(chapters) + OutlinePremise + premise + OutlineThemes + themes
      + OutlineStyle + authorStyle + OutlineDensity
      + (if densityInfo.Some? then densityInfo.value.name else "Equilibrado") + "\n  "
      + (if densityInfo.Some? then densityInfo.value.description else "") + OutlineDepth
      + (if depthInfo.Some? then depthInfo.value.name else "Por Capas") + "\n  "
      + (if depthInfo.Some? then depthInfo.value.description else "") + "\n\n"
      + OutlineInstructions(density, depth) + OutlineJsonStructure
    }

    method BuildStyleSection() returns (section: string)
      ensures section == StyleSection()
    {
      section := StyleHeader;
      for i := 0 to |dimensions|
        invariant section == StyleHeader + StyleEntries(dimensions[..i])
      {
        var entry := BuildStyleEntry(dimensions[i]);
        StyleEntriesStep(dimensions, i);
        Text.AppendAssoc(StyleHeader, StyleEntries(dimensions[..i]), entry);
        section := section + entry;
      }
      assert dimensions[..|dimensions|] == dimensions;
    }

    method BuildSpecialInstructionsSection() returns (section: string)
      ensures section == SpecialSection(specialInstructions)
    {
      var lines := NumberedList("", specialInstructions);
      section := SpecialHeader + lines + "\n";
    }

    method BuildAvoidSection() returns (section: string)
      ensures section == AvoidSection(avoidList)
    {
      var lines := BulletList("- ❌ ", avoidList, "\n");
      section := AvoidHeader + lines + "\n";
    }

    method BuildSystemPrompt(authorStyle: string, title: string, premise: string, themes: seq<string>) returns (prompt: string)
      ensures prompt == SystemPrompt(authorStyle, title, premise, themes)
    {
      var style := BuildStyleSection();
      prompt := SystemIntro(authorStyle, title, premise, themes) + style;
      if specialInstructions != [] {
        var special := BuildSpecialInstructionsSection();
        prompt := prompt + special;
      }
      if avoidList != [] {
        var avoid := BuildAvoidSection();
        prompt := prompt + avoid;
      }
    }

    method BuildPageWritingInstructions(page: int, total: int) returns (instructions: string)
      ensures instructions == PageWritingInstructions(page, total)
    {
      var prose := BuildInfoBlock(ProseCaption, GetDimensionInfo("prose_complexity", Level("prose_complexity", "moderate")), 3);
      var description := BuildInfoBlock(DescriptionCaption, GetDimensionInfo("description_level", Level("description_level", "selective")), 3);
      var dialogue := BuildInfoBlock(DialogueCaption, GetDimensionInfo("dialogue_style", Level("dialogue_style", "natural")), 2);
      assert prose + description + dialogue == WritingBlocks();
      instructions := WritingHeader + (prose + description + dialogue) + NoteText(PageNote(page, total));
      if examples != [] {
        var shown := BulletList("", Text.Prefix(examples, 2), "\n\n");
        instructions := instructions + (ExamplesHeader + shown);
      }
    }

    method BuildPagePrompt(chapter: Narrative.Chapter, profiles: string, lastText: string, context: string, page: int, total: int)
      returns (prompt: string)
      ensures prompt == PagePrompt(chapter, profiles, lastText, context, page, total)
    {
      var events := FormatKeyEvents(chapter.keyEvents.GetOr([]));
      var header := PageHeaderWith(chapter, profiles, page, total, events);
      var contextSection := "";
      if HasContext(context) {
        contextSection := ContextHeader + context + "\n\n";
      }
      var anchor;
      if lastText != "" {
        anchor := AnchorCaption + "..." + lastText + "\n\n";
      } else {
        anchor := ChapterStart;
      }
      var writing := BuildPageWritingInstructions(page, total);
      prompt := header + contextSection + anchor + (writing + LengthInstruction());
    }
  }

  // ---------------------------------------------------------------- properties of the prompts

  /** The special and avoid sections appear exactly for non-empty lists, special before avoid, after the intro and the style section. */
  lemma SystemPromptOptional(intro: string, style: string, special: seq<string>, avoid: seq<string>)
    ensures var p := SystemPromptFrom(intro, style, special, avoid);
      Text.StartsWith(p, intro + style) &&
      (special == [] && avoid == [] ==> p == intro + style) &&
      (special == [] && avoid != [] ==> p == intro + style + AvoidSection(avoid)) &&
      (special != [] && avoid == [] ==> p == intro + style + SpecialSection(special)) &&
      (special != [] && avoid != [] ==> p == intro + style + SpecialSection(special) + AvoidSection(avoid))
  {
    var p := SystemPromptFrom(intro, style, special, avoid);
    var head := intro + style;
    var s := if special != [] then SpecialSection(special) else "";
    var a := if avoid != [] then AvoidSection(avoid) else "";
    Text.AppendAssoc(head, s, a);
    assert p[..|head|] == head;
  }

  /** The special instructions are numbered from 1, right after the section header. */
  lemma SystemPromptSpecialNumbered(intro: string, style: string, special: seq<string>, avoid: seq<string>)
    requires special != []
    ensures Text.StartsWith(SystemPromptFrom(intro, style, special, avoid),
                            intro + style + SpecialHeader + NumberedLine("", 1, special[0]))
  {
    var head := intro + style;
    var line := NumberedLine("", 1, special[0]);
    var a := if avoid != [] then AvoidSection(avoid) else "";
    NumberedStartsAtOne("", special);
    Text.StartsWithFrame(SpecialHeader, Numbered("", special), "\n", line);
    Text.StartsWithFrame(head, SpecialSection(special), a, SpecialHeader + line);
    Text.AppendAssoc(head, SpecialHeader, line);
  }

  /** A non-empty avoid list closes the system prompt. */
  lemma SystemPromptAvoidLast(intro: string, style: string, special: seq<string>, avoid: seq<string>)
    requires avoid != []
    ensures Text.EndsWith(SystemPromptFrom(intro, style, special, avoid), AvoidSection(avoid))
  {
    var p := SystemPromptFrom(intro, style, special, avoid);
    var a := AvoidSection(avoid);
    assert p[|p| - |a|..] == a;
  }

  /** Relevant context, when there is any, comes right after the opening block. */
  lemma PagePromptIncludesContext(header: string, context: string, lastText: string, instructions: string)
    requires HasContext(context)
    ensures Text.StartsWith(PagePromptFrom(header, context, lastText, instructions), header + ContextHeader + context)
  {
    var head := header + ContextHeader + context;
    var p := PagePromptFrom(header, context, lastText, instructions);
    assert p == head + ("\n\n" + Anchor(lastText) + instructions);
    assert p[..|head|] == head;
  }

  /** Without context (empty, or the placeholder) the anchor follows the opening block directly. */
  lemma PagePromptOmitsContext(header: string, context: string, lastText: string, instructions: string)
    requires !HasContext(context)
    ensures PagePromptFrom(header, context, lastText, instructions) == header + Anchor(lastText) + instructions
  {
    assert ContextSection(context) == "";
    assert header + "" == header;
  }

  /** The last written text is quoted after "...", right before the instructions; with none, the chapter-start marker is. */
  lemma PagePromptAnchor(header: string, context: string, lastText: string, instructions: string)
    ensures var p := PagePromptFrom(header, context, lastText, instructions);
      (lastText != "" ==> Text.Contains(p, "..." + lastText + "\n\n" + instructions)) &&
      (lastText == "" ==> Text.Contains(p, ChapterStart + instructions))
  {
    var p := PagePromptFrom(header, context, lastText, instructions);
    var before := header + ContextSection(context);
    if lastText != "" {
      var sub := "..." + lastText + "\n\n" + instructions;
      assert p == (before + AnchorCaption) + sub;
      assert p[|before + AnchorCaption|..] == sub;
      assert Text.OccursAt(p, sub, |before + AnchorCaption|);
      Text.ContainsIff(p, sub);
    } else {
      var sub := ChapterStart + instructions;
      assert p == before + sub;
      assert p[|before|..] == sub;
      assert Text.OccursAt(p, sub, |before|);
      Text.ContainsIff(p, sub);
    }
  }

  /** The degraded answer of the semantic memory never reaches the page prompt. */
  lemma PlaceholderFiltered(header: string, lastText: string, instructions: string)
    ensures PagePromptFrom(header, SemanticMemory.NoContext, lastText, instructions) == header + Anchor(lastText) + instructions
  {
    PagePromptOmitsContext(header, SemanticMemory.NoContext, lastText, instructions);
  }

  /** With no configured dimensions the defaults (moderate, selective, natural, balanced, layered) are catalogue levels, so their blocks appear. */
  lemma DefaultLevelsExist()
    ensures GetDimensionInfo("prose_complexity", "moderate").Some?
    ensures GetDimensionInfo("description_level", "selective").Some?
    ensures GetDimensionInfo("dialogue_style", "natural").Some?
    ensures GetDimensionInfo("narrative_density", "balanced").Some?
    ensures GetDimensionInfo("thematic_depth", "layered").Some?
  {
  }
}
